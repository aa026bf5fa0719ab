/** What conditions mean, said of the single values a field holds and of the members of a group. */
module Meaning {
  import opened Tree
  import opened Conditions

  // ----- The first outcome that decides -----

  function First(rs: seq<Outcome>, neutral: bool): Outcome {
    if rs == [] then Verdict(neutral) else if rs[0] == Verdict(neutral) then First(rs[1..], neutral) else rs[0]
  }

  lemma {:induction false} FirstAppend(a: seq<Outcome>, b: seq<Outcome>, neutral: bool)
    ensures First(a + b, neutral) == if First(a, neutral) == Verdict(neutral) then First(b, neutral) else First(a, neutral)
  {
    if a == [] {
      assert a + b == b;
    } else {
      assert (a + b)[1..] == a[1..] + b;
      FirstAppend(a[1..], b, neutral);
    }
  }

  /** `r` is the first outcome other than the neutral verdict, or that verdict if there is none. */
  ghost predicate DecidedBy(r: Outcome, rs: seq<Outcome>, neutral: bool) {
    || (r == Verdict(neutral) && forall i :: 0 <= i < |rs| ==> rs[i] == Verdict(neutral))
    || (r != Verdict(neutral) && exists k :: FirstAt(rs, neutral, k) && rs[k] == r)
  }

  ghost predicate FirstAt(rs: seq<Outcome>, neutral: bool, k: int) {
    0 <= k < |rs| && rs[k] != Verdict(neutral) && forall i :: 0 <= i < k ==> rs[i] == Verdict(neutral)
  }

  lemma {:induction false} FirstDecides(rs: seq<Outcome>, neutral: bool)
    ensures DecidedBy(First(rs, neutral), rs, neutral)
  {
    if rs != [] {
      if rs[0] == Verdict(neutral) {
        FirstDecides(rs[1..], neutral);
        if First(rs[1..], neutral) != Verdict(neutral) {
          var k :| FirstAt(rs[1..], neutral, k) && rs[1..][k] == First(rs[1..], neutral);
          assert FirstAt(rs, neutral, k + 1);
        }
      } else {
        assert FirstAt(rs, neutral, 0);
      }
    }
  }

  // ----- Operators -----

  /** The single values of a field, however lists nest; missing values are none. */
  function Leaves(v: Node): seq<Node>
    decreases v
  {
    match v
    case Null => []
    case List(items) => LeavesOf(items)
    case _ => [v]
  }

  function LeavesOf(items: seq<Node>): seq<Node>
    decreases items
  {
    if items == [] then [] else Leaves(items[0]) + LeavesOf(items[1..])
  }

  function Scalars(w: World, vs: seq<Node>, op: Node, expected: Node): seq<Outcome> {
    seq(|vs|, i requires 0 <= i < |vs| => ApplyScalar(w, vs[i], op, expected))
  }

  lemma {:induction false} ApplyFirst(w: World, actual: Node, op: Node, expected: Node)
    ensures Apply(w, actual, op, expected) == First(Scalars(w, Leaves(actual), op, expected), IsNegation(op))
    decreases actual
  {
    match actual
    case Null =>
    case List(items) => ApplyItemsFirst(w, items, op, expected);
    case _ =>
      assert Scalars(w, [actual], op, expected)[1..] == [];
  }

  lemma {:induction false} ApplyItemsFirst(w: World, items: seq<Node>, op: Node, expected: Node)
    ensures ApplyItems(w, items, op, expected) == First(Scalars(w, LeavesOf(items), op, expected), IsNegation(op))
    decreases items
  {
    if items != [] {
      var a, b := Leaves(items[0]), LeavesOf(items[1..]);
      ApplyFirst(w, items[0], op, expected);
      ApplyItemsFirst(w, items[1..], op, expected);
      assert Scalars(w, a + b, op, expected) == Scalars(w, a, op, expected) + Scalars(w, b, op, expected);
      FirstAppend(Scalars(w, a, op, expected), Scalars(w, b, op, expected), IsNegation(op));
    }
  }

  /** A missing or empty value passes the three negations and nothing else. */
  lemma NothingMeans(w: World, actual: Node, op: Node, expected: Node)
    requires Leaves(actual) == []
    ensures Apply(w, actual, op, expected) == Verdict(op in {Str("!="), Str("not_in"), Str("not_contains")})
  {
    ApplyFirst(w, actual, op, expected);
  }

  /** An operator that never fails: a negation asks it of every single value, any other of some. */
  lemma Total(w: World, actual: Node, op: Node, expected: Node, holds: Node -> bool)
    requires forall v <- Leaves(actual) :: ApplyScalar(w, v, op, expected) == Verdict(holds(v))
    ensures Apply(w, actual, op, expected) ==
            Verdict(if IsNegation(op) then forall v <- Leaves(actual) :: holds(v) else exists v <- Leaves(actual) :: holds(v))
  {
    var vs, neutral := Leaves(actual), IsNegation(op);
    var rs := Scalars(w, vs, op, expected);
    ApplyFirst(w, actual, op, expected);
    FirstDecides(rs, neutral);
    assert forall i :: 0 <= i < |vs| ==> vs[i] in vs && rs[i] == Verdict(holds(vs[i]));
    if First(rs, neutral) == Verdict(neutral) {
      forall v | v in vs ensures holds(v) == neutral {
        var i :| 0 <= i < |vs| && vs[i] == v;
        assert rs[i] == Verdict(neutral);
      }
    } else {
      var k :| FirstAt(rs, neutral, k) && rs[k] == First(rs, neutral);
      assert vs[k] in vs && holds(vs[k]) == !neutral;
    }
  }

  /** `==`: some single value is equal. */
  lemma EqualMeans(w: World, actual: Node, op: string, expected: Node)
    requires op == "=="
    ensures Apply(w, actual, Str(op), expected) == Verdict(exists v <- Leaves(actual) :: w.eq(v, expected))
  {
    Total(w, actual, Str(op), expected, v => w.eq(v, expected));
  }

  /** `!=`: no single value is equal. */
  lemma UnequalMeans(w: World, actual: Node, op: string, expected: Node)
    requires op == "!="
    ensures Apply(w, actual, Str(op), expected) == Verdict(forall v <- Leaves(actual) :: !w.eq(v, expected))
  {
    Total(w, actual, Str(op), expected, v => !w.eq(v, expected));
  }

  /** `in`: some single value equals some of the listed ones, or the one given. */
  lemma InMeans(w: World, actual: Node, op: string, expected: Node)
    requires op == "in"
    ensures expected.List? ==>
              Apply(w, actual, Str(op), expected)
              == Verdict(exists v <- Leaves(actual) :: exists e <- expected.items :: w.eq(v, e))
    ensures !expected.List? ==>
              Apply(w, actual, Str(op), expected) == Verdict(exists v <- Leaves(actual) :: w.eq(v, expected))
  {
    if expected.List? {
      Total(w, actual, Str(op), expected, v => exists e <- expected.items :: w.eq(v, e));
    } else {
      Total(w, actual, Str(op), expected, v => w.eq(v, expected));
    }
  }

  /** `not_in`: no single value does. */
  lemma NotInMeans(w: World, actual: Node, op: string, expected: Node)
    requires op == "not_in"
    ensures expected.List? ==>
              Apply(w, actual, Str(op), expected)
              == Verdict(forall v <- Leaves(actual) :: forall e <- expected.items :: !w.eq(v, e))
    ensures !expected.List? ==>
              Apply(w, actual, Str(op), expected) == Verdict(forall v <- Leaves(actual) :: !w.eq(v, expected))
  {
    if expected.List? {
      Total(w, actual, Str(op), expected, v => forall e <- expected.items :: !w.eq(v, e));
    } else {
      Total(w, actual, Str(op), expected, v => !w.eq(v, expected));
    }
  }

  /** An operator that fails on every single value fails as soon as there is one. */
  lemma Failing(w: World, actual: Node, op: Node, expected: Node, fault: Fault)
    requires forall v <- Leaves(actual) :: ApplyScalar(w, v, op, expected) == Raised(fault)
    ensures Apply(w, actual, op, expected) == if Leaves(actual) == [] then Verdict(IsNegation(op)) else Raised(fault)
  {
    var vs := Leaves(actual);
    ApplyFirst(w, actual, op, expected);
    if vs != [] {
      assert vs[0] in vs;
      assert Scalars(w, vs, op, expected)[0] == Raised(fault);
    }
  }

  /** The text of a value holds the expected text, or one of the expected list's. */
  predicate Holds(w: World, v: Node, expected: Node) {
    if expected.Str? then Contains(w.show(v), expected.s)
    else expected.List? && exists e <- expected.items :: Contains(w.show(v), w.show(e))
  }

  /** `contains`: some single value's text does; only texts and lists can be looked for. */
  lemma ContainsMeans(w: World, actual: Node, op: string, expected: Node)
    requires op == "contains"
    ensures Apply(w, actual, Str(op), expected) ==
            if expected.Str? || expected.List? then Verdict(exists v <- Leaves(actual) :: Holds(w, v, expected))
            else if Leaves(actual) == [] then Verdict(false) else Raised(DataFault)
  {
    if expected.Str? || expected.List? {
      Total(w, actual, Str(op), expected, v => Holds(w, v, expected));
    } else {
      Failing(w, actual, Str(op), expected, DataFault);
    }
  }

  /** `not_contains`: no single value's text does. */
  lemma NotContainsMeans(w: World, actual: Node, op: string, expected: Node)
    requires op == "not_contains"
    ensures Apply(w, actual, Str(op), expected) ==
            if expected.Str? || expected.List? then Verdict(forall v <- Leaves(actual) :: !Holds(w, v, expected))
            else if Leaves(actual) == [] then Verdict(true) else Raised(DataFault)
  {
    if expected.Str? || expected.List? {
      Total(w, actual, Str(op), expected, v => !Holds(w, v, expected));
    } else {
      Failing(w, actual, Str(op), expected, DataFault);
    }
  }

  /** The four numeric operators: some single value compares. */
  lemma NumericMeans(w: World, actual: Node, op: string, expected: Node)
    requires op in {">", "<", ">=", "<="}
    ensures Apply(w, actual, Str(op), expected) == Verdict(exists v <- Leaves(actual) :: w.compare(op, v, expected))
  {
    Total(w, actual, Str(op), expected, v => w.compare(op, v, expected));
  }

  /** The first single value that passes or fails decides; those before it do neither. */
  ghost predicate FirstHit(r: Outcome, vs: seq<Node>, test: Node -> Option<bool>) {
    || (r == Verdict(false) && forall v <- vs :: test(v) == Some(false))
    || (exists k :: HitAt(vs, test, k) && r == if test(vs[k]) == Some(true) then Verdict(true) else Raised(DataFault))
  }

  ghost predicate HitAt(vs: seq<Node>, test: Node -> Option<bool>, k: int) {
    0 <= k < |vs| && test(vs[k]) != Some(false) && forall i :: 0 <= i < k ==> test(vs[i]) == Some(false)
  }

  lemma Partial(w: World, actual: Node, op: Node, expected: Node, test: Node -> Option<bool>)
    requires !IsNegation(op)
    requires forall v <- Leaves(actual) :: ApplyScalar(w, v, op, expected) == FromOption(test(v))
    ensures FirstHit(Apply(w, actual, op, expected), Leaves(actual), test)
  {
    var vs := Leaves(actual);
    var rs := Scalars(w, vs, op, expected);
    ApplyFirst(w, actual, op, expected);
    FirstDecides(rs, false);
    assert forall i :: 0 <= i < |vs| ==> vs[i] in vs && rs[i] == FromOption(test(vs[i]));
    if First(rs, false) == Verdict(false) {
      forall v | v in vs ensures test(v) == Some(false) {
        var i :| 0 <= i < |vs| && vs[i] == v;
        assert rs[i] == Verdict(false);
      }
    } else {
      var k :| FirstAt(rs, false, k) && rs[k] == First(rs, false);
      assert HitAt(vs, test, k);
    }
  }

  /** `matches`: the pattern is found in some single value's text; a pattern that does not compile fails. */
  lemma MatchesMeans(w: World, actual: Node, op: string, expected: Node)
    requires op == "matches"
    ensures FirstHit(Apply(w, actual, Str(op), expected), Leaves(actual), v => w.regex(w.show(expected), w.show(v)))
  {
    Partial(w, actual, Str(op), expected, v => w.regex(w.show(expected), w.show(v)));
  }

  /** Sizes and ages: some single value compares; one that is no integer fails. */
  lemma ScaleMeans(w: World, actual: Node, op: string, expected: Node)
    requires op in {"smaller_than", "larger_than", "older_than", "newer_than"}
    ensures FirstHit(Apply(w, actual, Str(op), expected), Leaves(actual), v => w.scale(op, v, expected))
  {
    Partial(w, actual, Str(op), expected, v => w.scale(op, v, expected));
  }

  /** Any other operator fails as soon as there is a value. */
  lemma UnknownMeans(w: World, actual: Node, op: Node, expected: Node)
    requires op.Str? ==>
               op.s !in {"==", "!=", "contains", "not_contains", "matches", "in", "not_in", ">", "<", ">=", "<=",
                         "smaller_than", "larger_than", "older_than", "newer_than"}
    ensures Apply(w, actual, op, expected) == if Leaves(actual) == [] then Verdict(false) else Raised(UnknownOperator)
  {
    Failing(w, actual, op, expected, UnknownOperator);
  }

  // ----- Fields -----

  /** A field is the property after the first dot, read from the namespace before it. */
  lemma FieldMeans(w: World, namespace: string, name: string)
    requires '.' !in namespace
    ensures var r := GetField(w, Str(namespace + "." + name));
            if namespace !in {"info", "trackers", "files", "peers", "properties", "webseeds", "transfer", "app", "stats", "tracker"}
            then r == Ended(Raised(UnknownEndpoint))
            else if namespace == "tracker" && !w.trackie then r == Ended(Raised(NoTrackie))
            else if namespace == "tracker" && name !in TRACKER_FIELDS then r == Ended(Raised(UnknownTrackerField))
            else if w.read(namespace, name).Got? then r == Value(w.read(namespace, name).v)
            else r == Ended(if w.read(namespace, name).NotYet? then NotReady else Raised(ApiFault))
  {
    DotParts(namespace, name);
    assert (namespace + "." + name)[|namespace|] == '.';
  }

  // ----- Conditions and groups -----

  /** A comparison reads its field and applies its operator; without all three keys it fails. */
  lemma ComparisonMeans(w: World, es: seq<Entry>)
    requires !Has(es, "all") && !Has(es, "any") && !Has(es, "none")
    ensures !Has(es, "field") || !Has(es, "operator") || !Has(es, "value") ==>
              EvalCondition(w, Dict(es)) == Raised(MissingKey)
    ensures Has(es, "field") && Has(es, "operator") && Has(es, "value") ==>
              var field := GetField(w, Get(es, "field"));
              EvalCondition(w, Dict(es)) ==
              if field.Value? then Apply(w, field.v, Get(es, "operator"), Get(es, "value")) else field.outcome
  {
  }

  function Outcomes(w: World, items: seq<Node>): seq<Outcome> {
    seq(|items|, i requires 0 <= i < |items| => EvalCondition(w, items[i]))
  }

  lemma {:induction false} ItemsFirst(w: World, neutral: bool, items: seq<Node>)
    ensures EvalItems(w, neutral, items) == First(Outcomes(w, items), neutral)
    decreases |items|
  {
    if items != [] {
      ItemsFirst(w, neutral, items[1..]);
      assert Outcomes(w, items)[1..] == Outcomes(w, items[1..]);
    }
  }

  /** The members of a group. */
  function Members(es: seq<Entry>, key: string): seq<Node> {
    if Has(es, key) && Get(es, key).List? then Get(es, key).items else []
  }

  lemma {:induction false} GroupFirst(w: World, es: seq<Entry>, key: string, neutral: bool)
    requires Has(es, key) && Get(es, key).List?
    ensures EvalGroup(w, es, key, neutral) == First(Outcomes(w, Members(es, key)), neutral)
  {
    if es[0].key == key {
      ItemsFirst(w, neutral, es[0].value.items);
    } else {
      GroupFirst(w, es[1..], key, neutral);
    }
  }

  /** The groups a mapping has are lists. */
  predicate ListGroups(es: seq<Entry>) {
    && (Has(es, "all") ==> Get(es, "all").List?)
    && (Has(es, "any") ==> Get(es, "any").List?)
    && (Has(es, "none") ==> Get(es, "none").List?)
  }

  /** Groups are looked at in the order all, any, none; the first that does not pass decides. */
  lemma GroupsMean(w: World, es: seq<Entry>) returns (all: Outcome, any: Outcome, none: Outcome)
    requires ListGroups(es)
    ensures DecidedBy(all, Outcomes(w, Members(es, "all")), true)
    ensures DecidedBy(any, Outcomes(w, Members(es, "any")), false)
    ensures DecidedBy(none, Outcomes(w, Members(es, "none")), false)
    ensures EvalGroups(w, es) ==
            if Has(es, "all") && all != Verdict(true) then all
            else if Has(es, "any") && any != Verdict(true) then any
            else if !Has(es, "none") || none == Verdict(false) then Verdict(true)
            else if none == Verdict(true) then Verdict(false)
            else none
  {
    all, any := First(Outcomes(w, Members(es, "all")), true), First(Outcomes(w, Members(es, "any")), false);
    none := First(Outcomes(w, Members(es, "none")), false);
    FirstDecides(Outcomes(w, Members(es, "all")), true);
    FirstDecides(Outcomes(w, Members(es, "any")), false);
    FirstDecides(Outcomes(w, Members(es, "none")), false);
    if Has(es, "all") { GroupFirst(w, es, "all", true); }
    if Has(es, "any") { GroupFirst(w, es, "any", false); }
    if Has(es, "none") { GroupFirst(w, es, "none", false); }
  }

  ghost predicate Passes(w: World, c: Node) { EvalCondition(w, c) == Verdict(true) }
  ghost predicate Fails(w: World, c: Node) { EvalCondition(w, c) == Verdict(false) }

  /** Some member passes, and those before it fail. */
  ghost predicate SomePasses(w: World, items: seq<Node>) {
    exists k :: 0 <= k < |items| && Passes(w, items[k]) && forall i :: 0 <= i < k ==> Fails(w, items[i])
  }

  lemma FirstAll(w: World, items: seq<Node>)
    ensures First(Outcomes(w, items), true) == Verdict(true) <==> forall c <- items :: Passes(w, c)
  {
    var rs := Outcomes(w, items);
    FirstDecides(rs, true);
    if First(rs, true) == Verdict(true) {
      forall c | c in items ensures Passes(w, c) {
        var i :| 0 <= i < |items| && items[i] == c;
        assert rs[i] == Verdict(true);
      }
    } else {
      var k :| FirstAt(rs, true, k);
      assert items[k] in items && !Passes(w, items[k]);
    }
  }

  lemma FirstNone(w: World, items: seq<Node>)
    ensures First(Outcomes(w, items), false) == Verdict(false) <==> forall c <- items :: Fails(w, c)
  {
    var rs := Outcomes(w, items);
    FirstDecides(rs, false);
    if First(rs, false) == Verdict(false) {
      forall c | c in items ensures Fails(w, c) {
        var i :| 0 <= i < |items| && items[i] == c;
        assert rs[i] == Verdict(false);
      }
    } else {
      var k :| FirstAt(rs, false, k);
      assert items[k] in items && !Fails(w, items[k]);
    }
  }

  lemma FirstSome(w: World, items: seq<Node>)
    ensures First(Outcomes(w, items), false) == Verdict(true) <==> SomePasses(w, items)
  {
    var rs := Outcomes(w, items);
    FirstDecides(rs, false);
    if First(rs, false) == Verdict(true) {
      var k :| FirstAt(rs, false, k) && rs[k] == Verdict(true);
      assert forall i :: 0 <= i < k ==> rs[i] == Verdict(false) && Fails(w, items[i]);
      assert Passes(w, items[k]);
    }
    if SomePasses(w, items) {
      var m :| 0 <= m < |items| && Passes(w, items[m]) && forall i :: 0 <= i < m ==> Fails(w, items[i]);
      assert rs[m] == Verdict(true) && forall i :: 0 <= i < m ==> rs[i] == Verdict(false);
      assert First(rs, false) != Verdict(false);
      var k :| FirstAt(rs, false, k) && rs[k] == First(rs, false);
      assert m == k;
    }
  }

  lemma AllPasses(w: World, es: seq<Entry>)
    requires Has(es, "all") ==> Get(es, "all").List?
    ensures (Has(es, "all") ==> EvalGroup(w, es, "all", true) == Verdict(true))
            <==> forall c <- Members(es, "all") :: Passes(w, c)
  {
    FirstAll(w, Members(es, "all"));
    if Has(es, "all") {
      GroupFirst(w, es, "all", true);
    }
  }

  lemma AnyPasses(w: World, es: seq<Entry>)
    requires Has(es, "any") && Get(es, "any").List?
    ensures EvalGroup(w, es, "any", false) == Verdict(true) <==> SomePasses(w, Members(es, "any"))
  {
    FirstSome(w, Members(es, "any"));
    GroupFirst(w, es, "any", false);
  }

  lemma NonePasses(w: World, es: seq<Entry>)
    requires Has(es, "none") ==> Get(es, "none").List?
    ensures (Has(es, "none") ==> EvalGroup(w, es, "none", false) == Verdict(false))
            <==> forall c <- Members(es, "none") :: Fails(w, c)
  {
    FirstNone(w, Members(es, "none"));
    if Has(es, "none") {
      GroupFirst(w, es, "none", false);
    }
  }

  /** A mapping passes exactly if all of `all` pass, some of `any` does after failures only, and all of `none` fail. */
  lemma GroupsPass(w: World, es: seq<Entry>)
    requires ListGroups(es)
    ensures EvalGroups(w, es) == Verdict(true) <==>
              && (forall c <- Members(es, "all") :: Passes(w, c))
              && (Has(es, "any") ==> SomePasses(w, Members(es, "any")))
              && (forall c <- Members(es, "none") :: Fails(w, c))
  {
    AllPasses(w, es);
    NonePasses(w, es);
    if Has(es, "any") {
      AnyPasses(w, es);
    }
    GroupsAre(w, es);
  }

  lemma GroupsAre(w: World, es: seq<Entry>)
    ensures EvalGroups(w, es) == Verdict(true) <==>
              && (Has(es, "all") ==> EvalGroup(w, es, "all", true) == Verdict(true))
              && (Has(es, "any") ==> EvalGroup(w, es, "any", false) == Verdict(true))
              && (Has(es, "none") ==> EvalGroup(w, es, "none", false) == Verdict(false))
  {
  }

  /** The context of the run is the one, or one of those, the rule asks for, if it asks for any. */
  predicate InContext(w: World, current: Node, required: Node) {
    required != Null ==>
      current != Null && exists c <- (if required.List? then required.items else [required]) :: w.eq(current, c)
  }

  /** A nested mapping with groups is evaluated like one at the top. */
  lemma NestedMeans(w: World, es: seq<Entry>)
    requires Has(es, "all") || Has(es, "any") || Has(es, "none")
    ensures EvalCondition(w, Dict(es)) == EvalTop(w, Dict(es)) == EvalGroups(w, es)
  {
  }

  /** A rule with a list of conditions matches exactly if its context admits the run and every condition passes. */
  lemma ListMatches(w: World, items: seq<Node>, current: Node, required: Node)
    ensures Matches(w, List(items), current, required) <==>
            InContext(w, current, required) && forall c <- items :: Passes(w, c)
  {
    ItemsFirst(w, true, items);
    FirstAll(w, items);
    ContextIs(w, current, required);
  }

  /** A rule with groups matches exactly if its context admits the run and the groups pass. */
  lemma GroupsMatch(w: World, es: seq<Entry>, current: Node, required: Node)
    requires ListGroups(es)
    ensures Matches(w, Dict(es), current, required) <==>
              && InContext(w, current, required)
              && (forall c <- Members(es, "all") :: Passes(w, c))
              && (Has(es, "any") ==> SomePasses(w, Members(es, "any")))
              && (forall c <- Members(es, "none") :: Fails(w, c))
  {
    GroupsPass(w, es);
    ContextIs(w, current, required);
  }

  lemma ContextIs(w: World, current: Node, required: Node)
    ensures ContextAdmits(w.eq, current, required) <==> InContext(w, current, required)
  {
    if !required.List? {
      assert required in [required];
    }
  }
}
