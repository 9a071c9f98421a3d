/** Path strings, UNC paths and the node IDs built from them. */
module Paths {

  predicate Separator(c: char) {
    c == '\\' || c == '/'
  }

  /** A name a Windows file system allows, as far as separators go. */
  predicate GoodName(name: string) {
    name != "" && forall i :: 0 <= i < |name| ==> !Separator(name[i])
  }

  predicate GoodNames(names: seq<string>) {
    forall i :: 0 <= i < |names| ==> GoodName(names[i])
  }

  /** strings.Join with a backslash. */
  function Join(parts: seq<string>): string {
    if parts == [] then ""
    else if |parts| == 1 then parts[0]
    else Join(parts[..|parts| - 1]) + "\\" + parts[|parts| - 1]
  }

  function NonEmpty(names: seq<string>): seq<string> {
    if names == [] then []
    else NonEmpty(names[..|names| - 1]) + if names[|names| - 1] != "" then [names[|names| - 1]] else []
  }

  lemma {:induction false} GoodNamesKept(names: seq<string>)
    requires GoodNames(names)
    ensures NonEmpty(names) == names
  {
    if names != [] {
      GoodNamesKept(names[..|names| - 1]);
    }
  }

  /** The directory a listing or a push works in. */
  function DirPath(names: seq<string>): string {
    Join(NonEmpty(names))
  }

  /** filepath.Join of the directory and the name; `separator` is the one of the platform. */
  function FullPath(separator: char, names: seq<string>): string {
    if names == [] then ""
    else
      var dir, name := DirPath(names[..|names| - 1]), names[|names| - 1];
      if dir == "" then name else dir + [separator] + name
  }

  function Unc(separator: char, host: string, share: string, names: seq<string>): string {
    "\\\\" + host + "\\" + share + "\\" + FullPath(separator, names)
  }

  function ShareId(host: string, share: string): string {
    "\\\\" + host + "\\" + share + "\\"
  }

  function HostId(host: string): string {
    "NSHOST:" + host
  }

  function ContentId(separator: char, host: string, share: string, names: seq<string>, isDir: bool): string {
    (if isDir then "DIR:" else "FILE:") + Unc(separator, host, share, names)
  }

  // ----- reading the names back -----

  /** The pieces between separators. */
  function Split(s: string): (pieces: seq<string>)
    ensures |pieces| >= 1
  {
    if s == "" then [""]
    else
      var init, c := Split(s[..|s| - 1]), s[|s| - 1];
      if Separator(c) then init + [""] else init[|init| - 1 := init[|init| - 1] + [c]]
  }

  lemma {:induction false} SplitLetters(s: string, letters: string)
    requires forall i :: 0 <= i < |letters| ==> !Separator(letters[i])
    ensures Split(s + letters) == var p := Split(s); p[|p| - 1 := p[|p| - 1] + letters]
  {
    if letters == "" {
      assert s + letters == s;
      assert Split(s)[|Split(s)| - 1] + letters == Split(s)[|Split(s)| - 1];
    } else {
      var init, c := letters[..|letters| - 1], letters[|letters| - 1];
      assert (s + letters)[..|s + letters| - 1] == s + init;
      SplitLetters(s, init);
      var p := Split(s);
      assert p[|p| - 1] + init + [c] == p[|p| - 1] + letters;
    }
  }

  /** A separator and a name add one piece. */
  lemma SplitName(s: string, separator: char, name: string)
    requires Separator(separator) && forall i :: 0 <= i < |name| ==> !Separator(name[i])
    ensures Split(s + [separator] + name) == Split(s) + [name]
  {
    assert (s + [separator])[..|s|] == s;
    SplitLetters(s + [separator], name);
    assert "" + name == name;
  }

  lemma {:induction false} SplitJoin(s: string, names: seq<string>)
    requires GoodNames(names) && names != []
    ensures Split(s + "\\" + Join(names)) == Split(s) + names
  {
    hide Split;
    var init, name := names[..|names| - 1], names[|names| - 1];
    if init == [] {
      SplitName(s, '\\', name);
    } else {
      SplitJoin(s, init);
      SplitName(s + "\\" + Join(init), '\\', name);
      assert s + "\\" + Join(names) == s + "\\" + Join(init) + ['\\'] + name;
    }
  }

  lemma {:induction false} JoinNonEmpty(names: seq<string>)
    requires GoodNames(names) && names != []
    ensures Join(names) != ""
  {
  }

  lemma Regroup(a: string, b: string, c: string, d: string)
    ensures a + (b + c + d) == a + b + c + d
  {
  }

  lemma DirPathGood(names: seq<string>)
    requires GoodNames(names)
    ensures DirPath(names) == Join(names) && (DirPath(names) == "" <==> names == [])
  {
    GoodNamesKept(names);
    if names != [] { JoinNonEmpty(names); }
  }

  lemma {:induction false} SplitJoined(names: seq<string>)
    requires GoodNames(names) && names != []
    ensures Split(Join(names)) == names
  {
    var init, last := names[..|names| - 1], names[|names| - 1];
    if init == [] {
      SplitLetters("", last);
      assert "" + last == last;
    } else {
      SplitJoined(init);
      SplitName(Join(init), '\\', last);
      assert Join(names) == Join(init) + ['\\'] + last;
    }
  }

  /** The names can be read off the path from the share's root. */
  lemma SplitFullPath(separator: char, names: seq<string>)
    requires Separator(separator) && GoodNames(names) && names != []
    ensures Split(FullPath(separator, names)) == names
  {
    var init, last := names[..|names| - 1], names[|names| - 1];
    DirPathGood(init);
    if init == [] {
      SplitLetters("", last);
      assert "" + last == last;
    } else {
      SplitJoined(init);
      SplitName(DirPath(init), separator, last);
    }
  }

  /** Host, share and names can be read off a UNC path. */
  lemma SplitUnc(separator: char, host: string, share: string, names: seq<string>)
    requires Separator(separator) && GoodName(host) && GoodName(share) && GoodNames(names) && names != []
    ensures Split(Unc(separator, host, share, names)) == ["", "", host, share] + names
  {
    var init, name := names[..|names| - 1], names[|names| - 1];
    hide Split, Join, DirPath;
    DirPathGood(init);
    var root := "\\\\" + host + "\\" + share;
    SplitRoot(host, share);
    assert GoodName(name) && names == init + [name];
    hide GoodName, GoodNames;
    if init == [] {
      SplitLast(root, '\\', name);
    } else {
      SplitJoin(root, init);
      Regroup(root + "\\", Join(init), [separator], name);
      SplitLast(root + "\\" + Join(init), separator, name);
      assert ["", "", host, share] + init + [name] == ["", "", host, share] + names;
    }
  }

  lemma SplitLast(s: string, separator: char, name: string)
    requires Separator(separator) && GoodName(name)
    ensures Split(s + [separator] + name) == Split(s) + [name]
  {
    SplitName(s, separator, name);
  }

  lemma SplitRoot(host: string, share: string)
    requires GoodName(host) && GoodName(share)
    ensures Split("\\\\" + host + "\\" + share) == ["", "", host, share]
  {
    assert Split("") == [""];
    SplitName("", '\\', "");
    assert "" + ['\\'] + "" == "\\";
    SplitName("\\", '\\', host);
    assert "\\" + ['\\'] + host == "\\\\" + host;
    SplitName("\\\\" + host, '\\', share);
  }

  /** The ID of the node that contains the file or directory with this ID. */
  function ParentId(separator: char, id: string): string {
    var unc := if "DIR:" <= id then id[4..] else if "FILE:" <= id then id[5..] else "";
    var pieces := Split(unc);
    if |pieces| < 5 then ""
    else
      var host, share, parent := pieces[2], pieces[3], pieces[4..|pieces| - 1];
      if parent == [] then ShareId(host, share) else ContentId(separator, host, share, parent, true)
  }

  function ParentOf(separator: char, host: string, share: string, names: seq<string>): string
    requires names != []
  {
    if |names| == 1 then ShareId(host, share)
    else ContentId(separator, host, share, names[..|names| - 1], true)
  }

  /** The ID of the parent is a function of the ID alone, across all hosts and shares. */
  lemma ParentIdIs(separator: char, host: string, share: string, names: seq<string>, isDir: bool)
    requires Separator(separator) && GoodName(host) && GoodName(share) && GoodNames(names) && names != []
    ensures ParentId(separator, ContentId(separator, host, share, names, isDir)) ==
      ParentOf(separator, host, share, names)
  {
    hide Split, Unc;
    var unc := Unc(separator, host, share, names);
    var id := ContentId(separator, host, share, names, isDir);
    SplitUnc(separator, host, share, names);
    if isDir {
      assert id[4..] == unc;
    } else {
      assert id[0] == 'F' && id[5..] == unc;
    }
    var pieces := ["", "", host, share] + names;
    assert pieces[4..|pieces| - 1] == names[..|names| - 1];
  }

  /** No two files or directories of any hosts and shares have the same ID. */
  lemma ContentIdInjective(separator: char, host: string, share: string, names: seq<string>, isDir: bool,
                           host': string, share': string, names': seq<string>, isDir': bool)
    requires Separator(separator) && GoodName(host) && GoodName(share) && GoodNames(names) && names != []
    requires GoodName(host') && GoodName(share') && GoodNames(names') && names' != []
    requires ContentId(separator, host, share, names, isDir) == ContentId(separator, host', share', names', isDir')
    ensures host == host' && share == share' && names == names' && isDir == isDir'
  {
    hide Split, Unc;
    var unc, unc' := Unc(separator, host, share, names), Unc(separator, host', share', names');
    var id := ContentId(separator, host, share, names, isDir);
    assert id[0] == (if isDir then 'D' else 'F') == (if isDir' then 'D' else 'F');
    assert unc == id[if isDir then 4 else 5..] == unc';
    SplitUnc(separator, host, share, names);
    SplitUnc(separator, host', share', names');
    var pieces, pieces' := ["", "", host, share] + names, ["", "", host', share'] + names';
    assert pieces[2] == pieces'[2] && pieces[3] == pieces'[3];
    assert names == pieces[4..] == pieces'[4..] == names';
  }

  // ----- reading the other IDs -----

  /** Host and share can be read off the ID of a share, and the host off the ID of a host. */
  lemma RootIdsRead(host: string, share: string)
    requires GoodName(host) && GoodName(share)
    ensures Split(ShareId(host, share)) == ["", "", host, share, ""]
    ensures "NSHOST:" <= HostId(host) && HostId(host)[7..] == host
  {
    SplitRoot(host, share);
    assert ShareId(host, share) == "\\\\" + host + "\\" + share + ['\\'] + "";
    SplitName("\\\\" + host + "\\" + share, '\\', "");
  }

  /** The ID of a file or directory says which of the two it is, and then its UNC path. */
  lemma ContentIdReads(separator: char, host: string, share: string, names: seq<string>, isDir: bool)
    requires Separator(separator) && GoodName(host) && GoodName(share) && GoodNames(names) && names != []
    ensures var id := ContentId(separator, host, share, names, isDir);
      && (isDir ==> "DIR:" <= id && Split(id[4..]) == ["", "", host, share] + names)
      && (!isDir ==> "FILE:" <= id && Split(id[5..]) == ["", "", host, share] + names)
  {
    hide Unc;
    SplitUnc(separator, host, share, names);
    var id, unc := ContentId(separator, host, share, names, isDir), Unc(separator, host, share, names);
    assert isDir ==> id[4..] == unc;
    assert !isDir ==> id[5..] == unc;
  }
}
