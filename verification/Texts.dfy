/** ASCII text helpers. */
module Texts {

  function UpperChar(c: char): (u: char)
    ensures !('a' <= u <= 'z')
  {
    if 'a' <= c <= 'z' then (c as int - 32) as char else c
  }

  function Upper(s: string): (u: string)
    ensures |u| == |s| && forall i :: 0 <= i < |s| ==> u[i] == UpperChar(s[i])
  {
    seq(|s|, i requires 0 <= i < |s| => UpperChar(s[i]))
  }

  function UpperAll(parts: seq<string>): (uppers: seq<string>)
    ensures |uppers| == |parts| && forall i :: 0 <= i < |parts| ==> uppers[i] == Upper(parts[i])
  {
    seq(|parts|, i requires 0 <= i < |parts| => Upper(parts[i]))
  }

  function Lower(s: string): (l: string)
    ensures |l| == |s|
  {
    seq(|s|, i requires 0 <= i < |s| => if 'A' <= s[i] <= 'Z' then (s[i] as int + 32) as char else s[i])
  }

  /** filepath.Ext of a file name: from the last dot on. */
  function Ext(name: string): string {
    if name == "" then ""
    else if name[|name| - 1] == '.' then "."
    else
      var init := Ext(name[..|name| - 1]);
      if init == "" then "" else init + [name[|name| - 1]]
  }

  /** The extension begins with the last dot; there is none without a dot. */
  lemma {:induction false} ExtIs(base: string, tail: string)
    requires '.' !in tail
    ensures Ext(base + ("." + tail)) == "." + tail
    ensures Ext(tail) == ""
  {
    if tail == "" {
      var name := base + ("." + tail);
      assert name[|name| - 1] == '.' && "." + tail == ".";
    } else {
      var init, last := tail[..|tail| - 1], tail[|tail| - 1];
      ExtIs(base, init);
      assert (base + ("." + tail))[..|base| + |tail|] == base + ("." + init);
      assert "." + init + [last] == "." + tail;
    }
  }

  predicate Digits(s: string) {
    forall i :: 0 <= i < |s| ==> '0' <= s[i] <= '9'
  }

  predicate Space(c: char) {
    c == ' ' || '\t' <= c <= '\r'
  }

  /** Blank, tab, newline, vertical tab, form feed and carriage return. */
  lemma Spaces(c: char)
    ensures Space(c) <==> c in [' ', '\t', '\n', '\U{0B}', '\U{0C}', '\r']
  {
    assert Space(c) ==> c == ' ' || c == '\t' || c == '\n' || c == '\U{0B}' || c == '\U{0C}' || c == '\r';
    var all := [' ', '\t', '\n', '\U{0B}', '\U{0C}', '\r'];
    assert all[0] == ' ' && all[1] == '\t' && all[2] == '\n' && all[3] == '\U{0B}' && all[4] == '\U{0C}' &&
      all[5] == '\r';
  }

  predicate Trimmed(s: string) {
    s == "" || (!Space(s[0]) && !Space(s[|s| - 1]))
  }

  function TrimSpace(s: string): (t: string)
    ensures Trimmed(t) && |t| <= |s|
    ensures Trimmed(s) ==> t == s
  {
    if s == "" then s
    else if Space(s[0]) then TrimSpace(s[1..])
    else if Space(s[|s| - 1]) then TrimSpace(s[..|s| - 1])
    else s
  }

  /** Letters change case, and nothing else changes. */
  lemma CaseFolding(s: string, i: nat)
    requires i < |s|
    ensures var c, u, l := s[i] as int, Upper(s)[i] as int, Lower(s)[i] as int;
      && u == (if 'a' <= s[i] <= 'z' then c - 32 else c) && l == (if 'A' <= s[i] <= 'Z' then c + 32 else c)
    ensures Upper(Lower(s)) == Upper(s) && Lower(Upper(s)) == Lower(s)
  {
    assert forall k :: 0 <= k < |s| ==> Upper(Lower(s))[k] == Upper(s)[k] && Lower(Upper(s))[k] == Lower(s)[k];
  }

  predicate Blank(s: string) {
    forall i :: 0 <= i < |s| ==> Space(s[i])
  }

  lemma BlankMore(c: char, s: string)
    requires Space(c) && Blank(s)
    ensures Blank([c] + s) && Blank(s + [c])
  {
  }

  lemma TrimOnce(s: string)
    ensures TrimSpace(s) ==
      if s == "" then s
      else if Space(s[0]) then TrimSpace(s[1..])
      else if Space(s[|s| - 1]) then TrimSpace(s[..|s| - 1])
      else s
  {
  }

  /** Trimming takes white space off the ends and nothing else. */
  lemma {:induction false} TrimSpaceCuts(s: string) returns (before: string, after: string)
    ensures s == before + TrimSpace(s) + after && Blank(before) && Blank(after)
    decreases |s|
  {
    hide TrimSpace, Blank, Space;
    TrimOnce(s);
    if s == "" || (!Space(s[0]) && !Space(s[|s| - 1])) {
      before, after := "", "";
      assert Blank("") by { NoBlank(); }
      assert s == "" + s + "";
    } else if Space(s[0]) {
      var inner;
      inner, after := TrimSpaceCuts(s[1..]);
      before := [s[0]] + inner;
      BlankMore(s[0], inner);
      assert s == [s[0]] + s[1..];
      assert [s[0]] + (inner + TrimSpace(s) + after) == before + TrimSpace(s) + after;
    } else {
      var inner, last := "", s[|s| - 1];
      before, inner := TrimSpaceCuts(s[..|s| - 1]);
      after := inner + [last];
      BlankMore(last, inner);
      assert s == s[..|s| - 1] + [last];
      assert before + TrimSpace(s) + inner + [last] == before + TrimSpace(s) + after;
    }
  }

  lemma NoBlank()
    ensures Blank("")
  {
  }
}
