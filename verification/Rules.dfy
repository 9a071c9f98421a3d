/** ShareQL rules: condition trees and the first-match evaluator with its remembered objects. */
module Rules {
  import opened Common
  import opened Texts

  /** A literal of the language; numbers are kept as written. */
  datatype Value = Str(text: string) | Bool(b: bool) | Num(numeral: string) | List(items: seq<Value>)

  datatype Condition =
    | AlwaysTrue
    | Field(field: string, comparator: string, value: Value)
    | Not(inner: Condition)
    | And(conjuncts: seq<Condition>)
    | Or(disjuncts: seq<Condition>)

  datatype Scope = All | Exploration | Processing

  datatype Rule = Default(allow: bool) | Rule(allow: bool, scope: Scope, condition: Condition)

  datatype ShareObject = ShareObject(name: string, description: string, hidden: bool)
  datatype FileObject = FileObject(name: string, path: string, size: int, extension: string)
  datatype DirObject = DirObject(name: string, path: string)

  /** What the evaluator remembers: the last share, file and directory shown to it, and the depth. */
  datatype Context = Context(share: Option<ShareObject>, file: Option<FileObject>, dir: Option<DirObject>, depth: int)

  datatype FieldValue = Nil | Words(s: string) | Flag(b: bool) | Number(n: int)

  function GetFieldValue(context: Context, field: string): FieldValue {
    var f := Upper(field);
    if f == "DEPTH" then Number(context.depth)
    else if f == "SHARE.NAME" && context.share.Some? then Words(context.share.value.name)
    else if f == "SHARE.DESCRIPTION" && context.share.Some? then Words(context.share.value.description)
    else if f == "SHARE.HIDDEN" && context.share.Some? then Flag(context.share.value.hidden)
    else if f == "FILE.NAME" && context.file.Some? then Words(context.file.value.name)
    else if f == "FILE.PATH" && context.file.Some? then Words(context.file.value.path)
    else if f == "FILE.SIZE" && context.file.Some? then Number(context.file.value.size)
    else if f == "FILE.EXTENSION" && context.file.Some? then Words(context.file.value.extension)
    else if (f == "DIR.NAME" || f == "DIRECTORY.NAME") && context.dir.Some? then Words(context.dir.value.name)
    else if (f == "DIR.PATH" || f == "DIRECTORY.PATH") && context.dir.Some? then Words(context.dir.value.path)
    else Nil
  }

  /** SHARE.TYPE is no field the evaluator knows, whatever it has been shown. */
  lemma ShareTypeUnknown(context: Context)
    ensures GetFieldValue(context, "SHARE.TYPE") == Nil
  {
    assert Upper("SHARE.TYPE") == "SHARE.TYPE";
  }

  /** The comparisons of two values. What follows holds of any; the real ones are `Comparisons.Standard`. */
  datatype Compare = Compare(
    equal: (FieldValue, Value) -> bool, less: (FieldValue, Value) -> bool, greater: (FieldValue, Value) -> bool,
    matches: (FieldValue, Value) -> bool)

  /** What a comparator makes of them; one that is not known never holds. */
  predicate Compares(value: FieldValue, comparator: string, literal: Value, compare: Compare) {
    if comparator == "=" || comparator == "==" then compare.equal(value, literal)
    else if comparator == "!=" then !compare.equal(value, literal)
    else if comparator == "<" then compare.less(value, literal)
    else if comparator == ">" then compare.greater(value, literal)
    else if comparator == "<=" then compare.less(value, literal) || compare.equal(value, literal)
    else if comparator == ">=" then compare.greater(value, literal) || compare.equal(value, literal)
    else if comparator == "IN" then EqualToOne(value, literal, compare)
    else if comparator == "NOT IN" then !EqualToOne(value, literal, compare)
    else comparator == "MATCHES" && compare.matches(value, literal)
  }

  predicate EqualToOne(value: FieldValue, list: Value, compare: Compare) {
    list.List? && exists item | item in list.items :: compare.equal(value, item)
  }

  predicate Holds(condition: Condition, context: Context, compare: Compare) {
    match condition
    case AlwaysTrue => true
    case Field(field, comparator, value) => Compares(GetFieldValue(context, field), comparator, value, compare)
    case Not(inner) => !Holds(inner, context, compare)
    case And(conjuncts) => forall c | c in conjuncts :: Holds(c, context, compare)
    case Or(disjuncts) => exists c | c in disjuncts :: Holds(c, context, compare)
  }

  /** The rule speaks about this decision. */
  predicate Applies(rule: Rule, scope: Scope, context: Context, compare: Compare) {
    rule.Rule? && (rule.scope == All || rule.scope == scope) && Holds(rule.condition, context, compare)
  }

  /** The decision of the first rule that applies; failing that, of the first default; failing that, allow. */
  predicate Evaluate(rules: seq<Rule>, scope: Scope, context: Context, compare: Compare)
  {
    FirstDecision(rules, scope, context, compare, DefaultAllow(rules))
  }

  predicate DefaultAllow(rules: seq<Rule>) {
    rules == [] || if rules[0].Default? then rules[0].allow else DefaultAllow(rules[1..])
  }

  predicate FirstDecision(rules: seq<Rule>, scope: Scope, context: Context, compare: Compare, defaultAllow: bool) {
    if rules == [] then defaultAllow
    else if Applies(rules[0], scope, context, compare) then rules[0].allow
    else FirstDecision(rules[1..], scope, context, compare, defaultAllow)
  }

  /** First match wins: the deciding rule is at the least index that applies. */
  lemma {:induction false} FirstMatch(
    rules: seq<Rule>, scope: Scope, context: Context, compare: Compare, i: nat, defaultAllow: bool)
    requires i <= |rules| && forall k :: 0 <= k < i ==> !Applies(rules[k], scope, context, compare)
    requires i < |rules| ==> Applies(rules[i], scope, context, compare)
    ensures FirstDecision(rules, scope, context, compare, defaultAllow) == if i < |rules| then rules[i].allow
      else defaultAllow
  {
    if i > 0 {
      assert !Applies(rules[0], scope, context, compare);
      FirstMatch(rules[1..], scope, context, compare, i - 1, defaultAllow);
    }
  }

  lemma {:induction false} FirstDefault(rules: seq<Rule>, i: nat)
    requires i <= |rules| && forall k :: 0 <= k < i ==> !rules[k].Default?
    requires i < |rules| ==> rules[i].Default?
    ensures DefaultAllow(rules) == if i < |rules| then rules[i].allow else true
  {
    if i > 0 {
      assert !rules[0].Default?;
      FirstDefault(rules[1..], i - 1);
    }
  }

  /** A decision: the first rule that applies, else the first default, else allow. */
  lemma Decision(rules: seq<Rule>, scope: Scope, context: Context, compare: Compare, i: nat, d: nat)
    requires i <= |rules| && forall k :: 0 <= k < i ==> !Applies(rules[k], scope, context, compare)
    requires i < |rules| ==> Applies(rules[i], scope, context, compare)
    requires d <= |rules| && forall k :: 0 <= k < d ==> !rules[k].Default?
    requires d < |rules| ==> rules[d].Default?
    ensures Evaluate(rules, scope, context, compare) ==
      if i < |rules| then rules[i].allow else if d < |rules| then rules[d].allow else true
  {
    FirstMatch(rules, scope, context, compare, i, DefaultAllow(rules));
    FirstDefault(rules, d);
  }

  // ----- laws of conditions -----

  function Fields(field: string, comparator: string, literals: seq<Value>): (conditions: seq<Condition>)
    ensures |conditions| == |literals| && forall i :: 0 <= i < |literals| ==>
      conditions[i] == Field(field, comparator, literals[i])
  {
    if literals == [] then [] else [Field(field, comparator, literals[0])] + Fields(field, comparator, literals[1..])
  }

  lemma FieldsHold(field: string, comparator: string, items: seq<Value>, context: Context, compare: Compare, i: nat)
    requires i < |items|
    ensures Fields(field, comparator, items)[i] in Fields(field, comparator, items)
    ensures Holds(Fields(field, comparator, items)[i], context, compare) <==>
      Compares(GetFieldValue(context, field), comparator, items[i], compare)
  {
    hide GetFieldValue, Compares;
  }

  /** Being in a list is being equal to one of its items. */
  lemma InIsOr(field: string, items: seq<Value>, context: Context, compare: Compare)
    ensures Holds(Field(field, "IN", List(items)), context, compare) <==>
      Holds(Or(Fields(field, "=", items)), context, compare)
  {
    hide GetFieldValue, Compares, EqualToOne;
    var value, equals := GetFieldValue(context, field), Fields(field, "=", items);
    InList(value, items, compare);
    if EqualToOne(value, List(items), compare) {
      var i := EqualAt(value, items, compare);
      FieldsHold(field, "=", items, context, compare, i);
      EqualSign(value, items[i], compare);
    }
    if Holds(Or(equals), context, compare) {
      var c :| c in equals && Holds(c, context, compare);
      var i :| 0 <= i < |equals| && equals[i] == c;
      FieldsHold(field, "=", items, context, compare, i);
      EqualSign(value, items[i], compare);
      EqualHere(value, items, compare, i);
    }
  }

  lemma InList(value: FieldValue, items: seq<Value>, compare: Compare)
    ensures Compares(value, "IN", List(items), compare) <==> EqualToOne(value, List(items), compare)
  {
    hide EqualToOne;
  }

  lemma EqualSign(value: FieldValue, literal: Value, compare: Compare)
    ensures Compares(value, "=", literal, compare) <==> compare.equal(value, literal)
  {
  }

  lemma EqualAt(value: FieldValue, items: seq<Value>, compare: Compare) returns (i: nat)
    requires EqualToOne(value, List(items), compare)
    ensures i < |items| && compare.equal(value, items[i])
  {
    var item :| item in items && compare.equal(value, item);
    i :| 0 <= i < |items| && items[i] == item;
  }

  lemma EqualHere(value: FieldValue, items: seq<Value>, compare: Compare, i: nat)
    requires i < |items| && compare.equal(value, items[i])
    ensures EqualToOne(value, List(items), compare)
  {
    assert items[i] in items;
  }

  /** The comparators with a negation in them, and those that are two in one. */
  lemma ComparatorLaws(field: string, literal: Value, context: Context, compare: Compare)
    ensures Holds(Field(field, "NOT IN", literal), context, compare) <==>
      !Holds(Field(field, "IN", literal), context, compare)
    ensures Holds(Field(field, "!=", literal), context, compare) <==>
      !Holds(Field(field, "=", literal), context, compare)
    ensures Holds(Field(field, "<=", literal), context, compare) <==>
      (Holds(Field(field, "<", literal), context, compare) || Holds(Field(field, "=", literal), context, compare))
    ensures Holds(Field(field, ">=", literal), context, compare) <==>
      (Holds(Field(field, ">", literal), context, compare) || Holds(Field(field, "=", literal), context, compare))
  {
    hide GetFieldValue;
  }

  /** The comparators of order, and patterns. */
  lemma ComparatorMeanings(field: string, literal: Value, context: Context, compare: Compare)
    ensures var value := GetFieldValue(context, field);
      && (Holds(Field(field, "==", literal), context, compare) <==> compare.equal(value, literal))
      && (Holds(Field(field, "<", literal), context, compare) <==> compare.less(value, literal))
      && (Holds(Field(field, ">", literal), context, compare) <==> compare.greater(value, literal))
      && (Holds(Field(field, "MATCHES", literal), context, compare) <==> compare.matches(value, literal))
  {
    hide GetFieldValue, EqualToOne;
  }

  /** A comparator that is none of the ten never holds. */
  lemma UnknownComparator(field: string, comparator: string, literal: Value, context: Context, compare: Compare)
    requires comparator != "=" && comparator != "==" && comparator != "!="
    requires comparator != "<" && comparator != ">" && comparator != "<=" && comparator != ">="
    requires comparator != "IN" && comparator != "NOT IN" && comparator != "MATCHES"
    ensures !Holds(Field(field, comparator, literal), context, compare)
  {
    hide GetFieldValue, EqualToOne;
  }

  predicate EachHolds(conditions: seq<Condition>, context: Context, compare: Compare) {
    forall i :: 0 <= i < |conditions| ==> Holds(conditions[i], context, compare)
  }

  function Negations(conditions: seq<Condition>): (negations: seq<Condition>)
    ensures |negations| == |conditions| && forall i :: 0 <= i < |conditions| ==> negations[i] == Not(conditions[i])
  {
    if conditions == [] then [] else [Not(conditions[0])] + Negations(conditions[1..])
  }

  /** AND holds if each of any number of conditions does. */
  lemma AndHolds(conditions: seq<Condition>, context: Context, compare: Compare)
    ensures Holds(And(conditions), context, compare) <==> EachHolds(conditions, context, compare)
  {
    hide GetFieldValue, Compares;
    if Holds(And(conditions), context, compare) {
      forall i | 0 <= i < |conditions| ensures Holds(conditions[i], context, compare) {
        assert conditions[i] in conditions;
      }
    }
  }

  lemma NegationsHold(conditions: seq<Condition>, context: Context, compare: Compare, i: nat)
    requires i < |conditions|
    ensures Holds(Negations(conditions)[i], context, compare) <==> !Holds(conditions[i], context, compare)
  {
    hide GetFieldValue, Compares;
  }

  /** OR holds exactly if not all of its conditions fail. */
  lemma OrHolds(conditions: seq<Condition>, context: Context, compare: Compare)
    ensures Holds(Or(conditions), context, compare) <==> !Holds(And(Negations(conditions)), context, compare)
  {
    hide GetFieldValue, Compares, Negations;
    AndHolds(Negations(conditions), context, compare);
    if Holds(Or(conditions), context, compare) {
      var c :| c in conditions && Holds(c, context, compare);
      var i :| 0 <= i < |conditions| && conditions[i] == c;
      NegationsHold(conditions, context, compare, i);
    }
    if !EachHolds(Negations(conditions), context, compare) {
      var i :| 0 <= i < |conditions| && !Holds(Negations(conditions)[i], context, compare);
      NegationsHold(conditions, context, compare, i);
      assert conditions[i] in conditions;
    }
  }

  /** A rule of the other scope has no say: it can be left out anywhere. */
  lemma {:induction false} OtherScope(before: seq<Rule>, rule: Rule, after: seq<Rule>, scope: Scope, context: Context,
                                      compare: Compare)
    requires scope != All && rule.Rule? && rule.scope != All && rule.scope != scope
    ensures Evaluate(before + [rule] + after, scope, context, compare) ==
      Evaluate(before + after, scope, context, compare)
  {
    SkipDefault(before, rule, after);
    SkipDecision(before, rule, after, scope, context, compare, DefaultAllow(before + after));
  }

  lemma {:induction false} SkipDefault(before: seq<Rule>, rule: Rule, after: seq<Rule>)
    requires rule.Rule?
    ensures DefaultAllow(before + [rule] + after) == DefaultAllow(before + after)
  {
    if before == [] {
      assert [] + [rule] + after == [rule] + after && [] + after == after && ([rule] + after)[1..] == after;
    } else {
      SkipDefault(before[1..], rule, after);
      assert (before + [rule] + after)[1..] == before[1..] + [rule] + after &&
        (before + after)[1..] == before[1..] + after;
    }
  }

  lemma {:induction false} SkipDecision(before: seq<Rule>, rule: Rule, after: seq<Rule>, scope: Scope, context: Context,
                                        compare: Compare, defaultAllow: bool)
    requires !Applies(rule, scope, context, compare)
    ensures FirstDecision(before + [rule] + after, scope, context, compare, defaultAllow) ==
      FirstDecision(before + after, scope, context, compare, defaultAllow)
  {
    hide Applies;
    if before == [] {
      assert [] + [rule] + after == [rule] + after && [] + after == after && ([rule] + after)[1..] == after;
    } else {
      SkipDecision(before[1..], rule, after, scope, context, compare, defaultAllow);
      assert (before + [rule] + after)[1..] == before[1..] + [rule] + after &&
        (before + after)[1..] == before[1..] + after;
    }
  }

  /** A rule without a scope word counts in both scopes. */
  lemma BothScopes(rule: Rule, scope: Scope, context: Context, compare: Compare)
    requires rule.Rule? && scope != All
    ensures Evaluate([rule.(scope := All)], scope, context, compare) ==
      Evaluate([rule.(scope := scope)], scope, context, compare)
  {
    OneRuleDecides(rule.(scope := All), scope, context, compare);
    OneRuleDecides(rule.(scope := scope), scope, context, compare);
  }

  /** A single rule decides exactly where its condition holds; elsewhere everything is allowed. */
  lemma OneRuleDecides(rule: Rule, scope: Scope, context: Context, compare: Compare)
    requires rule.Rule? && (rule.scope == All || rule.scope == scope)
    ensures Evaluate([rule], scope, context, compare) <==> (rule.allow || !Holds(rule.condition, context, compare))
  {
    hide Holds;
    assert [rule][1..] == [];
    assert FirstDecision([], scope, context, compare, true) && DefaultAllow([]);
  }

  // ----- what a decision can depend on -----

  datatype Source = ShareSource | FileSource | DirSource | DepthSource

  function SourceOf(field: string): set<Source> {
    var f := Upper(field);
    if f == "DEPTH" then {DepthSource}
    else if f == "SHARE.NAME" || f == "SHARE.DESCRIPTION" || f == "SHARE.HIDDEN" then {ShareSource}
    else if f == "FILE.NAME" || f == "FILE.PATH" || f == "FILE.SIZE" || f == "FILE.EXTENSION" then {FileSource}
    else if f == "DIR.NAME" || f == "DIR.PATH" || f == "DIRECTORY.NAME" || f == "DIRECTORY.PATH" then {DirSource}
    else {}
  }

  function Reads(condition: Condition): set<Source> {
    match condition
    case AlwaysTrue => {}
    case Field(field, _, _) => SourceOf(field)
    case Not(inner) => Reads(inner)
    case And(conjuncts) => set c, s | c in conjuncts && s in Reads(c) :: s
    case Or(disjuncts) => set c, s | c in disjuncts && s in Reads(c) :: s
  }

  /** The sources the rules of a scope mention: a check on the rule text, not on a run. */
  function ScopeReads(rules: seq<Rule>, scope: Scope): set<Source> {
    set i, s | 0 <= i < |rules| && rules[i].Rule? && (rules[i].scope == All || rules[i].scope == scope)
      && s in Reads(rules[i].condition) :: s
  }

  predicate Agree(a: Context, b: Context, sources: set<Source>) {
    && (ShareSource in sources ==> a.share == b.share)
    && (FileSource in sources ==> a.file == b.file)
    && (DirSource in sources ==> a.dir == b.dir)
    && (DepthSource in sources ==> a.depth == b.depth)
  }

  lemma FieldFrame(field: string, a: Context, b: Context)
    requires Agree(a, b, SourceOf(field))
    ensures GetFieldValue(a, field) == GetFieldValue(b, field)
  {
    hide Upper;
  }

  /** A condition cannot tell apart contexts that agree on the sources it mentions. */
  lemma {:induction false} HoldsFrame(condition: Condition, a: Context, b: Context, compare: Compare)
    requires Agree(a, b, Reads(condition))
    ensures Holds(condition, a, compare) == Holds(condition, b, compare)
  {
    match condition
    case AlwaysTrue =>
    case Field(field, _, _) => FieldFrame(field, a, b);
    case Not(inner) => HoldsFrame(inner, a, b, compare);
    case And(conjuncts) =>
      forall c | c in conjuncts ensures Holds(c, a, compare) == Holds(c, b, compare) {
        assert Reads(c) <= Reads(condition);
        HoldsFrame(c, a, b, compare);
      }
    case Or(disjuncts) =>
      forall c | c in disjuncts ensures Holds(c, a, compare) == Holds(c, b, compare) {
        assert Reads(c) <= Reads(condition);
        HoldsFrame(c, a, b, compare);
      }
  }

  lemma {:induction false} FirstDecisionFrame(
    rules: seq<Rule>, scope: Scope, a: Context, b: Context, compare: Compare, defaultAllow: bool)
    requires Agree(a, b, ScopeReads(rules, scope))
    ensures FirstDecision(rules, scope, a, compare, defaultAllow) ==
      FirstDecision(rules, scope, b, compare, defaultAllow)
  {
    if rules != [] {
      var rule, others := rules[0], rules[1..];
      assert ScopeReads(others, scope) <= ScopeReads(rules, scope) by {
        forall s | s in ScopeReads(others, scope) ensures s in ScopeReads(rules, scope) {
          var i :| 0 <= i < |others| && others[i].Rule? && (others[i].scope == All || others[i].scope == scope)
            && s in Reads(others[i].condition);
          assert rules[i + 1] == others[i];
        }
      }
      FirstDecisionFrame(others, scope, a, b, compare, defaultAllow);
      if rule.Rule? && (rule.scope == All || rule.scope == scope) {
        assert Reads(rule.condition) <= ScopeReads(rules, scope);
        HoldsFrame(rule.condition, a, b, compare);
      }
    }
  }

  /** A decision cannot tell apart contexts that agree on the sources its rules mention. */
  lemma EvaluateFrame(rules: seq<Rule>, scope: Scope, a: Context, b: Context, compare: Compare)
    requires Agree(a, b, ScopeReads(rules, scope))
    ensures Evaluate(rules, scope, a, compare) == Evaluate(rules, scope, b, compare)
  {
    FirstDecisionFrame(rules, scope, a, b, compare, DefaultAllow(rules));
  }

  // ----- the evaluator -----

  class Evaluator {
    const rules: seq<Rule>
    const compare: Compare
    var context: Context

    constructor (rules: seq<Rule>, compare: Compare)
      ensures this.rules == rules && this.compare == compare && context == Context(None, None, None, 0)
    {
      this.rules, this.compare, context := rules, compare, Context(None, None, None, 0);
    }

    method SetDepth(depth: int)
      modifies this
      ensures context == old(context).(depth := depth)
    {
      context := context.(depth := depth);
    }

    method CanExploreShare(share: ShareObject) returns (allowed: bool)
      modifies this
      ensures context == old(context).(share := Some(share))
      ensures allowed == Evaluate(rules, Exploration, context, compare)
    {
      context := context.(share := Some(share));
      allowed := Decide(Exploration);
    }

    method CanExploreDir(dir: DirObject) returns (allowed: bool)
      modifies this
      ensures context == old(context).(dir := Some(dir))
      ensures allowed == Evaluate(rules, Exploration, context, compare)
    {
      context := context.(dir := Some(dir));
      allowed := Decide(Exploration);
    }

    method CanProcessShare(share: ShareObject) returns (allowed: bool)
      modifies this
      ensures context == old(context).(share := Some(share))
      ensures allowed == Evaluate(rules, Processing, context, compare)
    {
      context := context.(share := Some(share));
      allowed := Decide(Processing);
    }

    method CanProcessDir(dir: DirObject) returns (allowed: bool)
      modifies this
      ensures context == old(context).(dir := Some(dir))
      ensures allowed == Evaluate(rules, Processing, context, compare)
    {
      context := context.(dir := Some(dir));
      allowed := Decide(Processing);
    }

    method CanProcessFile(file: FileObject) returns (allowed: bool)
      modifies this
      ensures context == old(context).(file := Some(file))
      ensures allowed == Evaluate(rules, Processing, context, compare)
    {
      context := context.(file := Some(file));
      allowed := Decide(Processing);
    }

    /** evaluate: two passes over the rules, the first for the default, the second for the decision. */
    method Decide(scope: Scope) returns (allowed: bool)
      ensures allowed == Evaluate(rules, scope, context, compare)
    {
      var defaultAllow := true;
      for i := 0 to |rules|
        invariant defaultAllow && DefaultAllow(rules) == DefaultAllow(rules[i..])
      {
        if rules[i].Default? {
          defaultAllow := rules[i].allow;
          break;
        }
      }
      assert defaultAllow == DefaultAllow(rules);
      for i := 0 to |rules|
        invariant FirstDecision(rules, scope, context, compare, defaultAllow)
          == FirstDecision(rules[i..], scope, context, compare, defaultAllow)
      {
        var rule := rules[i];
        if rule.Default? {
          continue;
        }
        if rule.scope != All && rule.scope != scope {
          continue;
        }
        if Holds(rule.condition, context, compare) {
          return rule.allow;
        }
      }
      allowed := defaultAllow;
    }
  }
}
