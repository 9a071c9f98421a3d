/** What the fields of a rule mean: which part of an item, of the share or of the walk each of them is. */
module FieldMeanings {
  import opened Comparisons
  import opened Texts
  import opened Paths
  import opened Rules
  import opened Traversal

  /** Field names are read in any case. */
  lemma AnyCase(context: Context, field: string, other: string)
    requires Upper(field) == Upper(other)
    ensures GetFieldValue(context, field) == GetFieldValue(context, other)
  {
  }

  lemma FieldNames()
    ensures Upper("DEPTH") == "DEPTH" && Upper("SHARE.NAME") == "SHARE.NAME"
    ensures Upper("SHARE.DESCRIPTION") == "SHARE.DESCRIPTION" && Upper("SHARE.HIDDEN") == "SHARE.HIDDEN"
    ensures Upper("FILE.NAME") == "FILE.NAME" && Upper("FILE.PATH") == "FILE.PATH" && Upper("FILE.SIZE") == "FILE.SIZE"
    ensures Upper("FILE.EXTENSION") == "FILE.EXTENSION" && Upper("DIR.NAME") == "DIR.NAME" &&
      Upper("DIR.PATH") == "DIR.PATH"
    ensures Upper("DIRECTORY.NAME") == "DIRECTORY.NAME" && Upper("DIRECTORY.PATH") == "DIRECTORY.PATH"
  {
  }

  /** The value is a text whose pieces between separators are these. */
  predicate PathOf(value: FieldValue, names: seq<string>) {
    value.Words? && Split(value.s) == names
  }

  /** The fields of a file are those of the file examined, and no other field changes. */
  lemma FileFields(w: World, names: seq<string>, item: Item, eval: Context)
    requires Separator(w.separator) && GoodNames(names) && GoodName(item.name) && !item.isDir
    ensures var c := Examine(w, names, item, eval).1;
      && GetFieldValue(c, "FILE.NAME") == Words(item.name)
      && PathOf(GetFieldValue(c, "FILE.PATH"), names + [item.name])
      && GetFieldValue(c, "FILE.SIZE") == Number(item.size)
      && GetFieldValue(c, "FILE.EXTENSION") == Words(Lower(Ext(item.name)))
      && c.share == eval.share && c.dir == eval.dir && c.depth == eval.depth
  {
    hide Upper, Ext, Lower, FullPath, MayProcess;
    FieldNames();
    SplitFullPath(w.separator, names + [item.name]);
  }

  /** The fields of a directory are those of the directory examined, under both of their names. */
  lemma DirFields(w: World, names: seq<string>, item: Item, eval: Context)
    requires Separator(w.separator) && GoodNames(names) && GoodName(item.name) && item.isDir
    ensures var c := Examine(w, names, item, eval).1;
      && GetFieldValue(c, "DIR.NAME") == GetFieldValue(c, "DIRECTORY.NAME") == Words(item.name)
      && GetFieldValue(c, "DIR.PATH") == GetFieldValue(c, "DIRECTORY.PATH")
      && PathOf(GetFieldValue(c, "DIR.PATH"), names + [item.name])
      && c.share == eval.share && c.file == eval.file && c.depth == eval.depth
  {
    hide Upper, FullPath, MayExplore, MayProcess;
    FieldNames();
    SplitFullPath(w.separator, names + [item.name]);
  }

  /** The share's fields: its name, no description, and whether the name ends in a dollar sign. */
  lemma ShareFields(w: World)
    ensures var c := FreshContext(w);
      && GetFieldValue(c, "SHARE.NAME") == Words(w.share) && GetFieldValue(c, "SHARE.DESCRIPTION") == Words("")
      && GetFieldValue(c, "SHARE.HIDDEN") == Flag(exists front :: w.share == front + "$")
      && GetFieldValue(c, "DEPTH") == Number(0)
  {
    hide Upper;
    FieldNames();
    if front :| w.share == front + "$" {
      assert w.share[|w.share| - 1] == '$';
    }
    if |w.share| > 0 && w.share[|w.share| - 1] == '$' {
      assert w.share == w.share[..|w.share| - 1] + "$";
    }
  }

  /** The depth is the number of directories between the share and the one listed. */
  lemma DepthField(names: seq<string>, loads: nat, eval: Context)
    ensures var c := Entering(names, loads, eval).eval;
      && GetFieldValue(c, "DEPTH") == Number(|names|) && c == eval.(depth := |names|)
  {
    hide Upper;
    FieldNames();
  }

  /** As long as no file, no directory or no share has been shown, its fields have no value. */
  lemma Unshown(context: Context, field: string)
    ensures context.file.None? && "FILE." <= Upper(field) ==> GetFieldValue(context, field) == Nil
    ensures context.dir.None? && "DIR" <= Upper(field) ==> GetFieldValue(context, field) == Nil
    ensures context.share.None? && "SHARE." <= Upper(field) ==> GetFieldValue(context, field) == Nil
  {
    hide Upper;
    var f := Upper(field);
    assert "FILE." <= f ==> f[0] == 'F';
    assert "DIR" <= f ==> f[0] == 'D' && f[1] == 'I';
    assert "SHARE." <= f ==> f[0] == 'S';
  }

  // ----- one rule on one field -----

  /** A rule that denies what has this value in this field. */
  function Deny(scope: Scope, field: string, text: string): Rule {
    Rule(false, scope, Field(field, "=", Str(text)))
  }

  /** Texts are equal up to letter case. */
  predicate Alike(a: string, b: string) {
    Upper(a) == Upper(b)
  }

  lemma DenyDecides(scope: Scope, field: string, text: string, context: Context,
                    matches: (FieldValue, Value) -> bool)
    requires GetFieldValue(context, field).Words?
    ensures Evaluate([Deny(scope, field, text)], scope, context, Standard(matches)) <==>
      !Alike(GetFieldValue(context, field).s, text)
  {
    hide GetFieldValue, Upper, Rune, Amount;
    OneRuleDecides(Deny(scope, field, text), scope, context, Standard(matches));
  }

  /** Denying a file name denies the files with that name, in any case, and no others. */
  lemma DenyFileName(w: World, names: seq<string>, item: Item, eval: Context, text: string,
                     matches: (FieldValue, Value) -> bool)
    requires Separator(w.separator) && GoodNames(names) && GoodName(item.name) && !item.isDir
    requires w.rules == [Deny(Processing, "FILE.NAME", text)] && w.compare == Standard(matches)
    ensures Examine(w, names, item, eval).0.processed <==> !Alike(item.name, text)
  {
    hide GetFieldValue, Standard, Alike;
    FileFields(w, names, item, eval);
    DenyDecides(Processing, "FILE.NAME", text, Examine(w, names, item, eval).1, matches);
  }

  lemma {:induction false} UpperJoin(names: seq<string>)
    ensures Upper(Join(names)) == Join(UpperAll(names))
  {
    if |names| > 1 {
      var init, last := names[..|names| - 1], names[|names| - 1];
      UpperJoin(init);
      assert UpperAll(names)[..|names| - 1] == UpperAll(init);
      assert Upper(Join(init) + "\\" + last) == Upper(Join(init)) + "\\" + Upper(last);
    }
  }

  lemma UpperDir(names: seq<string>)
    requires GoodNames(names)
    ensures Upper(DirPath(names)) == DirPath(UpperAll(names))
  {
    DirPathGood(names);
    UpperGood(names);
    DirPathGood(UpperAll(names));
    UpperJoin(names);
  }

  lemma UpperPath(separator: char, names: seq<string>)
    requires Separator(separator) && GoodNames(names)
    ensures Upper(FullPath(separator, names)) == FullPath(separator, UpperAll(names))
  {
    if names != [] {
      var init := names[..|names| - 1];
      UpperDir(init);
      assert UpperAll(names)[..|names| - 1] == UpperAll(init);
      var dir, name := DirPath(init), names[|names| - 1];
      assert Upper(dir + [separator] + name) == Upper(dir) + [separator] + Upper(name);
    }
  }

  lemma UpperGood(names: seq<string>)
    requires GoodNames(names)
    ensures GoodNames(UpperAll(names))
  {
    forall i | 0 <= i < |names| ensures GoodName(UpperAll(names)[i]) { assert GoodName(names[i]); }
  }

  /** Denying a path denies the file there: the one whose names are alike, one by one. */
  lemma DenyFilePath(w: World, names: seq<string>, item: Item, eval: Context, other: seq<string>,
                     matches: (FieldValue, Value) -> bool)
    requires Separator(w.separator) && GoodNames(names) && GoodName(item.name) && !item.isDir
    requires GoodNames(other) && other != []
    requires w.rules == [Deny(Processing, "FILE.PATH", FullPath(w.separator, other))] &&
      w.compare == Standard(matches)
    ensures var own := names + [item.name];
      Examine(w, names, item, eval).0.processed <==>
        !(|own| == |other| && forall i :: 0 <= i < |own| ==> Alike(own[i], other[i]))
  {
    hide GetFieldValue, FullPath, Standard, Upper;
    var c, own := Examine(w, names, item, eval).1, names + [item.name];
    assert GoodNames(own);
    FileFields(w, names, item, eval);
    PathField(c);
    DenyDecides(Processing, "FILE.PATH", FullPath(w.separator, other), c, matches);
    UpperPath(w.separator, own);
    UpperPath(w.separator, other);
    UpperGood(own);
    UpperGood(other);
    SplitFullPath(w.separator, UpperAll(own));
    SplitFullPath(w.separator, UpperAll(other));
    assert UpperAll(own) == UpperAll(other) <==>
      |own| == |other| && forall i :: 0 <= i < |own| ==> Alike(own[i], other[i]) by {
      if UpperAll(own) == UpperAll(other) {
        forall i | 0 <= i < |own| ensures Alike(own[i], other[i]) { assert UpperAll(own)[i] == UpperAll(other)[i]; }
      }
    }
  }

  lemma PathField(context: Context)
    requires context.file.Some?
    ensures GetFieldValue(context, "FILE.PATH") == Words(context.file.value.path)
  {
    hide Upper;
    FieldNames();
  }

  /** Denying an extension denies the files with that extension. */
  lemma DenyExtension(w: World, names: seq<string>, item: Item, eval: Context, text: string,
                      matches: (FieldValue, Value) -> bool)
    requires Separator(w.separator) && GoodNames(names) && GoodName(item.name) && !item.isDir
    requires w.rules == [Deny(Processing, "FILE.EXTENSION", text)] && w.compare == Standard(matches)
    ensures Examine(w, names, item, eval).0.processed <==> !Alike(Ext(item.name), text)
  {
    hide GetFieldValue, Standard, Ext, Lower, Upper;
    FileFields(w, names, item, eval);
    DenyDecides(Processing, "FILE.EXTENSION", text, Examine(w, names, item, eval).1, matches);
    LowerAlike(Ext(item.name));
  }

  lemma LowerAlike(s: string)
    ensures Upper(Lower(s)) == Upper(s)
  {
    forall i | 0 <= i < |s| ensures Upper(Lower(s))[i] == Upper(s)[i] { CaseFolding(s, i); }
  }

  /** In the other scope a single rule denies nothing. */
  lemma OtherwiseAllowed(scope: Scope, field: string, text: string, context: Context, compare: Compare)
    requires !scope.All?
    ensures Evaluate([Deny(scope, field, text)], if scope.Exploration? then Processing
      else Exploration, context, compare)
  {
    var other := if scope.Exploration? then Processing else Exploration;
    assert [Deny(scope, field, text)][1..] == [] && DefaultAllow([]);
    assert FirstDecision([], other, context, compare, true);
  }

  /**
   * Denying the exploration of a directory name keeps out of those directories and emits none of them; denying their
   * processing only keeps them out of the graph.
   */
  lemma DenyDirName(w: World, names: seq<string>, item: Item, eval: Context, scope: Scope, text: string,
                    matches: (FieldValue, Value) -> bool)
    requires Separator(w.separator) && GoodNames(names) && GoodName(item.name) && item.isDir && !scope.All?
    requires w.rules == [Deny(scope, "DIR.NAME", text)] && w.compare == Standard(matches)
    ensures var e := Examine(w, names, item, eval).0;
      && (e.admitted <==> scope.Processing? || !Alike(item.name, text)) && (e.processed <==> !Alike(item.name, text))
  {
    hide GetFieldValue, Standard, Alike, Evaluate;
    DirFields(w, names, item, eval);
    var c := Examine(w, names, item, eval).1;
    DenyDecides(scope, "DIR.NAME", text, c, matches);
    OtherwiseAllowed(scope, "DIR.NAME", text, c, w.compare);
  }

  /** Denying the exploration of a share name leaves that share out; denying its processing leaves out its own node. */
  lemma DenyShareName(w: World, scope: Scope, text: string, matches: (FieldValue, Value) -> bool)
    requires w.rules == [Deny(scope, "SHARE.NAME", text)] && w.compare == Standard(matches) && !scope.All?
    ensures MayExplore(w, FreshContext(w)) <==> scope.Processing? || !Alike(w.share, text)
    ensures MayProcess(w, FreshContext(w)) <==> scope.Exploration? || !Alike(w.share, text)
  {
    hide GetFieldValue, Standard, Alike, Evaluate;
    ShareFields(w);
    DenyDecides(scope, "SHARE.NAME", text, FreshContext(w), matches);
    OtherwiseAllowed(scope, "SHARE.NAME", text, FreshContext(w), w.compare);
  }
}
