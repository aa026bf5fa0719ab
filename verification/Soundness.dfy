/** What an accepted document promises the engine. */
module Soundness {
  import opened Document
  import opened Tree
  import opened Resolver
  import opened Tokens
  import opened Conditions
  import LazyRules
  import opened Linter
  import Structure

  // ----- Accepted documents -----

  /** The editor saves a document: it loads, every rule resolves, and the linter finds no error. */
  predicate Accepted(d: Details, raw: seq<Entry>, show: Node -> string) {
    && Structure.Loadable(Dict(raw))
    && (forall rule <- Rules(raw) :: rule.Dict? && ResolveRule(RefsOf(raw, show), rule.entries).Ok?)
    && NoError(LintIssues(d, raw))
  }

  // ----- Well-typed conditions -----

  predicate FieldOk(field: Node) {
    && field.Str? && '.' in field.s && BeforeDot(field.s) in NAMESPACES
    && (BeforeDot(field.s) == "tracker" ==> AfterDot(field.s) in TRACKER_FIELDS)
  }

  predicate LeafOk(es: seq<Entry>) {
    && Has(es, "field") && Has(es, "operator") && Has(es, "value")
    && FieldOk(Get(es, "field")) && KnownOperator(Get(es, "operator"))
  }

  predicate Typed(n: Node)
    decreases n
  {
    n.Dict? && if HasGroup(n.entries) then GroupsTyped(n.entries) else LeafOk(n.entries)
  }

  predicate GroupsTyped(es: seq<Entry>)
    decreases es, 1
  {
    && (Has(es, "all") ==> GroupTyped(es, "all"))
    && (Has(es, "any") ==> GroupTyped(es, "any"))
    && (Has(es, "none") ==> GroupTyped(es, "none"))
  }

  predicate GroupTyped(es: seq<Entry>, key: string)
    requires Has(es, key)
    decreases es, 0
  {
    if es[0].key != key then GroupTyped(es[1..], key)
    else es[0].value.List? && forall c <- es[0].value.items :: Typed(c)
  }

  predicate AllTyped(items: seq<Node>) { forall c <- items :: Typed(c) }

  /** Conditions the engine reads as they are meant: a list, or groups. */
  predicate TopTyped(n: Node) {
    match n
    case List(items) => AllTyped(items)
    case Dict(es) => HasGroup(es) && GroupsTyped(es)
    case _ => false
  }

  /** Only the services, the integration and the compared values can still fail. */
  predicate Fine(r: Outcome) {
    r.Raised? ==> r.fault in {NoTrackie, ApiFault, DataFault}
  }

  lemma {:induction false} ApplyFine(w: World, actual: Node, operator: Node, expected: Node)
    requires KnownOperator(operator)
    ensures Fine(Apply(w, actual, operator, expected))
    decreases actual
  {
    if actual.List? {
      ApplyItemsFine(w, actual.items, operator, expected);
    }
  }

  lemma {:induction false} ApplyItemsFine(w: World, items: seq<Node>, operator: Node, expected: Node)
    requires KnownOperator(operator)
    ensures Fine(ApplyItems(w, items, operator, expected))
    decreases items
  {
    if items != [] {
      ApplyFine(w, items[0], operator, expected);
      ApplyItemsFine(w, items[1..], operator, expected);
    }
  }

  lemma {:induction false} TypedFine(w: World, n: Node)
    requires Typed(n)
    ensures Fine(EvalCondition(w, n))
    decreases n
  {
    var es := n.entries;
    if HasGroup(es) {
      GroupsFine(w, es);
    } else {
      match GetField(w, Get(es, "field"))
      case Value(actual) => ApplyFine(w, actual, Get(es, "operator"), Get(es, "value"));
      case Ended(_) =>
    }
  }

  lemma {:induction false} GroupsFine(w: World, es: seq<Entry>)
    requires GroupsTyped(es)
    ensures Fine(EvalGroups(w, es))
    decreases es, 1
  {
    if Has(es, "all") {
      GroupFine(w, es, "all", true);
    }
    if Has(es, "any") {
      GroupFine(w, es, "any", false);
    }
    if Has(es, "none") {
      GroupFine(w, es, "none", false);
    }
  }

  lemma {:induction false} GroupFine(w: World, es: seq<Entry>, key: string, neutral: bool)
    requires Has(es, key) && GroupTyped(es, key)
    ensures Fine(EvalGroup(w, es, key, neutral))
    decreases es, 0
  {
    if es[0].key != key {
      GroupFine(w, es[1..], key, neutral);
    } else {
      ItemsFine(w, neutral, es[0].value.items);
    }
  }

  lemma {:induction false} ItemsFine(w: World, neutral: bool, items: seq<Node>)
    requires AllTyped(items)
    ensures Fine(EvalItems(w, neutral, items))
    decreases items
  {
    if items != [] {
      TypedFine(w, items[0]);
      ItemsFine(w, neutral, items[1..]);
    }
  }

  lemma TopFine(w: World, n: Node)
    requires TopTyped(n)
    ensures Fine(EvalTop(w, n))
  {
    match n
    case List(items) => ItemsFine(w, true, items);
    case Dict(es) => GroupsFine(w, es);
  }

  // ----- Expansion keeps clean conditions typed -----

  predicate BlocksClean(d: Details, rs: Refs) {
    forall n :: n in rs.conditions ==> NoError(BlockIssues(d, rs.conditions[n], BlockPath("conditions", n)))
  }

  const C: set<string> := LazyRules.CONDITION_REFS

  /** A block, expanded: a typed condition or a list of them. */
  predicate TypedBlock(e: Node) {
    if e.List? then AllTyped(e.items) else Typed(e)
  }

  lemma {:induction false} NoErrorAppend(a: seq<Issue>, b: seq<Issue>)
    ensures NoError(a + b) <==> NoError(a) && NoError(b)
  {
    if a == [] {
      assert a + b == b;
    } else {
      assert (a + b)[1..] == a[1..] + b;
      NoErrorAppend(a[1..], b);
    }
  }

  lemma WhenError(found: bool, issue: Issue)
    requires issue.severity == Error
    ensures NoError(When(found, issue)) <==> !found
  {
  }

  lemma FollowedBlock(d: Details, rs: Refs, ref: Node, stack: set<string>)
    requires BlocksClean(d, rs) && Follow(rs, ref, stack, C).Ok?
    ensures NoError(BlockIssues(d, Follow(rs, ref, stack, C).value, BlockPath("conditions", AfterDot(ref.s))))
  {
    var name := AfterDot(ref.s);
    FollowedName(rs, ref, stack);
    assert NoError(BlockIssues(d, rs.conditions[name], BlockPath("conditions", name)));
  }

  lemma FollowedName(rs: Refs, ref: Node, stack: set<string>)
    requires Follow(rs, ref, stack, C).Ok?
    ensures var name := AfterDot(ref.s); name in rs.conditions && rs.conditions[name] == Follow(rs, ref, stack, C).value
  {
    assert C == {"conditions"};
  }

  lemma {:induction false} CleanBlock(d: Details, rs: Refs, block: Node, path: seq<Part>, stack: set<string>)
    requires BlocksClean(d, rs) && NoError(BlockIssues(d, block, path)) && Expand(rs, block, stack, C).Ok?
    ensures TypedBlock(Expand(rs, block, stack, C).value)
    decreases Left(rs, stack), block, 1
  {
    if IsRef(block) {
      CleanRef(d, rs, block, stack);
    } else if block.List? {
      CleanItems(d, rs, block.items, path, 0, stack);
    } else if HasGroup(block.entries) {
      NoErrorAppend(GroupsIssues(d, block.entries, path),
                    When(GroupCount(block.entries) > 1, Issue(Info, SeveralGroups, path)));
      CleanGroups(d, rs, block.entries, path, stack);
      CleanGroupDict(rs, block.entries, stack);
    } else {
      CleanLeaf(d, rs, block.entries, path, stack);
    }
  }

  lemma {:induction false} CleanRef(d: Details, rs: Refs, node: Node, stack: set<string>)
    requires BlocksClean(d, rs) && IsRef(node) && Expand(rs, node, stack, C).Ok?
    ensures TypedBlock(Expand(rs, node, stack, C).value)
    decreases Left(rs, stack), node, 0
  {
    var ref := RefOf(node);
    FollowedBlock(d, rs, ref, stack);
    LeftShrinks(rs, stack, ref.s);
    var target := Follow(rs, ref, stack, C).value;
    CleanBlock(d, rs, target, BlockPath("conditions", AfterDot(ref.s)), stack + {ref.s});
  }

  /** The groups of a mapping are those of its expansion. */
  lemma CleanGroupDict(rs: Refs, es: seq<Entry>, stack: set<string>)
    requires ExpandEntries(rs, es, stack, C).Ok?
    ensures HasGroup(ExpandEntries(rs, es, stack, C).value) == HasGroup(es)
  {
    var es' := ExpandEntries(rs, es, stack, C).value;
    SameKeys(es, es', "all");
    SameKeys(es, es', "any");
    SameKeys(es, es', "none");
  }

  lemma CleanLeaf(d: Details, rs: Refs, es: seq<Entry>, path: seq<Part>, stack: set<string>)
    requires !HasGroup(es) && NoError(LeafIssues(d, es, path)) && ExpandEntries(rs, es, stack, C).Ok?
    ensures Typed(Dict(ExpandEntries(rs, es, stack, C).value))
  {
    var es' := ExpandEntries(rs, es, stack, C).value;
    LeafClean(d, es, path);
    CleanGroupDict(rs, es, stack);
    LazyRules.GetExpanded(rs, es, "field", stack, C);
    LazyRules.GetExpanded(rs, es, "operator", stack, C);
    LazyRules.GetExpanded(rs, es, "value", stack, C);
  }

  lemma LeafClean(d: Details, es: seq<Entry>, path: seq<Part>)
    requires NoError(LeafIssues(d, es, path))
    ensures LeafOk(es)
  {
    var missing := Issue(Error, MissingKeys, path);
    var a := When(!(Has(es, "field") && Has(es, "operator") && Has(es, "value")), missing);
    var b := IgnoredKeys(es, {"field", "operator", "value"}, path);
    var f := if Has(es, "field") then FieldIssues(Get(es, "field"), path + [Key("field")]) else [];
    NoErrorAppend(a + b + f, OperatorIssues(d, es, path));
    NoErrorAppend(a + b, f);
    NoErrorAppend(a, b);
    WhenError(!(Has(es, "field") && Has(es, "operator") && Has(es, "value")), missing);
    FieldClean(Get(es, "field"), path + [Key("field")]);
    WhenError(!KnownOperator(Get(es, "operator")), Issue(Error, OperatorUnknown, path + [Key("operator")]));
  }

  lemma FieldClean(field: Node, path: seq<Part>)
    ensures NoError(FieldIssues(field, path)) <==> FieldOk(field)
  {
  }

  lemma {:induction false} CleanGroups(d: Details, rs: Refs, es: seq<Entry>, path: seq<Part>, stack: set<string>)
    requires BlocksClean(d, rs) && NoError(GroupsIssues(d, es, path)) && ExpandEntries(rs, es, stack, C).Ok?
    ensures GroupsTyped(ExpandEntries(rs, es, stack, C).value)
    decreases Left(rs, stack), es, 1
  {
    var es' := ExpandEntries(rs, es, stack, C).value;
    SameKeys(es, es', "all");
    SameKeys(es, es', "any");
    SameKeys(es, es', "none");
    var a := if Has(es, "all") then GroupIssues(d, es, "all", path) else [];
    var b := if Has(es, "any") then GroupIssues(d, es, "any", path) else [];
    var c := if Has(es, "none") then GroupIssues(d, es, "none", path) else [];
    NoErrorAppend(a + b, c);
    NoErrorAppend(a, b);
    if Has(es, "all") {
      CleanGroup(d, rs, es, "all", path, stack);
    }
    if Has(es, "any") {
      CleanGroup(d, rs, es, "any", path, stack);
    }
    if Has(es, "none") {
      CleanGroup(d, rs, es, "none", path, stack);
    }
  }

  lemma {:induction false} CleanGroup(
    d: Details, rs: Refs, es: seq<Entry>, key: string, path: seq<Part>, stack: set<string>)
    requires Has(es, key)
    requires BlocksClean(d, rs) && NoError(GroupIssues(d, es, key, path)) && ExpandEntries(rs, es, stack, C).Ok?
    ensures var es' := ExpandEntries(rs, es, stack, C).value; Has(es', key) && GroupTyped(es', key)
    decreases Left(rs, stack), es, 0
  {
    var es' := ExpandEntries(rs, es, stack, C).value;
    SameKeys(es, es', key);
    if es[0].key != key {
      assert es'[1..] == ExpandEntries(rs, es[1..], stack, C).value;
      CleanGroup(d, rs, es[1..], key, path, stack);
    } else {
      var v := es[0].value;
      var path' := path + [Key(key)];
      MembersClean(d, v, path');
      CleanItems(d, rs, v.items, path', 0, stack);
    }
  }

  lemma MembersClean(d: Details, v: Node, path: seq<Part>)
    requires NoError(MembersIssues(d, v, path))
    ensures v.List? && NoError(ItemsIssues(d, v.items, path, 0))
  {
    WhenError(!v.List?, Issue(Error, GroupNotAList, path));
    if v.List? {
      NoErrorAppend(When(v.items == [], Issue(Warning, EmptyGroup, path)), ItemsIssues(d, v.items, path, 0));
    }
  }

  lemma {:induction false} CleanItems(
    d: Details, rs: Refs, items: seq<Node>, path: seq<Part>, i: nat, stack: set<string>)
    requires BlocksClean(d, rs) && NoError(ItemsIssues(d, items, path, i)) && ExpandItems(rs, items, stack, C).Ok?
    ensures AllTyped(ExpandItems(rs, items, stack, C).value)
    decreases Left(rs, stack), items
  {
    if items != [] {
      NoErrorAppend(ConditionIssues(d, items[0], path + [Index(i)]), ItemsIssues(d, items[1..], path, i + 1));
      CleanItem(d, rs, items[0], path + [Index(i)], stack);
      CleanItems(d, rs, items[1..], path, i + 1, stack);
    }
  }

  lemma {:induction false} CleanItem(d: Details, rs: Refs, node: Node, path: seq<Part>, stack: set<string>)
    requires BlocksClean(d, rs) && NoError(ConditionIssues(d, node, path)) && Expand(rs, node, stack, C).Ok?
    ensures AllTyped(LazyRules.Spliced(node, Expand(rs, node, stack, C).value))
    decreases Left(rs, stack), node, 1
  {
    WhenError(!node.Dict?, Issue(Error, NotAMapping, path));
    if IsRef(node) {
      CleanRef(d, rs, node, stack);
    } else if HasGroup(node.entries) {
      NoErrorAppend(When(GroupCount(node.entries) > 1, Issue(Error, SeveralGroups, path)),
                    GroupsIssues(d, node.entries, path));
      CleanGroups(d, rs, node.entries, path, stack);
      CleanGroupDict(rs, node.entries, stack);
    } else {
      CleanLeaf(d, rs, node.entries, path, stack);
    }
  }

  // ----- Substitution keeps typed conditions typed -----

  lemma PlainNames(name: string)
    ensures name in NAMESPACES ==> name != "" && '$' !in name
    ensures name in TRACKER_FIELDS ==> '$' !in name
  {
  }

  lemma PlainOperators(operator: string)
    ensures operator in OPERATORS ==> '$' !in operator
  {
  }

  lemma FieldStaysOk(rs: Refs, rule: seq<Entry>, field: Node)
    requires FieldOk(field) && Substitute(rs, rule, field).Ok?
    ensures FieldOk(Substitute(rs, rule, field).value)
  {
    var ns, name := BeforeDot(field.s), AfterDot(field.s);
    PlainNames(ns);
    PlainNames(name);
    var head := ns + ".";
    assert field.s == head + name;
    assert field.s[0] == ns[0] && !("${" <= field.s);
    InterpolatePrefix(rs, rule, head, name);
    if ns == "tracker" {
      PlainTextStays(rs, rule, field.s);
    } else {
      var rest := Interpolate(rs, rule, name).value;
      assert head + rest == ns + "." + rest;
      DotParts(ns, rest);
    }
  }

  lemma {:induction false} SubstitutedTyped(rs: Refs, rule: seq<Entry>, n: Node)
    requires Typed(n) && Substitute(rs, rule, n).Ok?
    ensures Typed(Substitute(rs, rule, n).value)
    decreases n
  {
    var es := n.entries;
    var es' := SubstituteEntries(rs, rule, es).value;
    SubstitutedKeys(rs, rule, es);
    if HasGroup(es) {
      SubstitutedGroups(rs, rule, es);
    } else {
      GetSubstituted(rs, rule, es, "field");
      GetSubstituted(rs, rule, es, "operator");
      GetSubstituted(rs, rule, es, "value");
      FieldStaysOk(rs, rule, Get(es, "field"));
      PlainOperators(Get(es, "operator").s);
      PlainTextStays(rs, rule, Get(es, "operator").s);
    }
  }

  lemma SubstitutedKeys(rs: Refs, rule: seq<Entry>, es: seq<Entry>)
    requires SubstituteEntries(rs, rule, es).Ok?
    ensures var es' := SubstituteEntries(rs, rule, es).value;
      Has(es', "all") == Has(es, "all") && Has(es', "any") == Has(es, "any") && Has(es', "none") == Has(es, "none")
  {
    var es' := SubstituteEntries(rs, rule, es).value;
    SameKeys(es, es', "all");
    SameKeys(es, es', "any");
    SameKeys(es, es', "none");
  }

  lemma {:induction false} SubstitutedGroups(rs: Refs, rule: seq<Entry>, es: seq<Entry>)
    requires GroupsTyped(es) && SubstituteEntries(rs, rule, es).Ok?
    ensures GroupsTyped(SubstituteEntries(rs, rule, es).value)
    decreases es, 1
  {
    SubstitutedKeys(rs, rule, es);
    if Has(es, "all") {
      SubstitutedGroup(rs, rule, es, "all");
    }
    if Has(es, "any") {
      SubstitutedGroup(rs, rule, es, "any");
    }
    if Has(es, "none") {
      SubstitutedGroup(rs, rule, es, "none");
    }
  }

  lemma {:induction false} SubstitutedGroup(rs: Refs, rule: seq<Entry>, es: seq<Entry>, key: string)
    requires Has(es, key) && GroupTyped(es, key) && SubstituteEntries(rs, rule, es).Ok?
    ensures var es' := SubstituteEntries(rs, rule, es).value; Has(es', key) && GroupTyped(es', key)
    decreases es, 0
  {
    var es' := SubstituteEntries(rs, rule, es).value;
    SameKeys(es, es', key);
    if es[0].key != key {
      assert es'[1..] == SubstituteEntries(rs, rule, es[1..]).value;
      SubstitutedGroup(rs, rule, es[1..], key);
    } else {
      SubstitutedItems(rs, rule, es[0].value.items);
    }
  }

  lemma {:induction false} SubstitutedItems(rs: Refs, rule: seq<Entry>, items: seq<Node>)
    requires AllTyped(items) && SubstituteItems(rs, rule, items).Ok?
    ensures AllTyped(SubstituteItems(rs, rule, items).value)
    decreases items
  {
    if items != [] {
      SubstitutedTyped(rs, rule, items[0]);
      SubstitutedItems(rs, rule, items[1..]);
    }
  }

  // ----- Bare references -----

  /** The block a whole field stands for, once bare references are followed. */
  function Chase(rs: Refs, node: Node, stack: set<string>, allowed: set<string>): Node
    decreases Left(rs, stack)
  {
    if IsRef(node) then
      match Follow(rs, RefOf(node), stack, allowed)
      case Err(_) => node
      case Ok(target) =>
        LeftShrinks(rs, stack, RefOf(node).s);
        Chase(rs, target, stack + {RefOf(node).s}, allowed)
    else node
  }

  /** Two mappings without groups, two with, two lists, or two other things. */
  predicate SameShape(a: Node, b: Node) {
    && a.List? == b.List? && a.Dict? == b.Dict?
    && (a.Dict? && b.Dict? ==> HasGroup(a.entries) == HasGroup(b.entries))
  }

  lemma {:induction false} ExpandedShape(rs: Refs, node: Node, stack: set<string>, allowed: set<string>)
    requires Expand(rs, node, stack, allowed).Ok?
    ensures SameShape(Expand(rs, node, stack, allowed).value, Chase(rs, node, stack, allowed))
    decreases Left(rs, stack)
  {
    if IsRef(node) {
      LeftShrinks(rs, stack, RefOf(node).s);
      ExpandedShape(rs, Follow(rs, RefOf(node), stack, allowed).value, stack + {RefOf(node).s}, allowed);
    } else if node.Dict? {
      var es' := ExpandEntries(rs, node.entries, stack, allowed).value;
      SameKeys(node.entries, es', "all");
      SameKeys(node.entries, es', "any");
      SameKeys(node.entries, es', "none");
    }
  }

  lemma SubstitutedShape(rs: Refs, rule: seq<Entry>, n: Node)
    requires (n.List? || n.Dict?) && Substitute(rs, rule, n).Ok?
    ensures SameShape(n, Substitute(rs, rule, n).value)
  {
    if n.Dict? {
      SubstitutedKeys(rs, rule, n.entries);
    }
  }

  /** A rule's whole conditions are a reference that ends at a single comparison. */
  predicate BareLeaf(rs: Refs, conditions: Node) {
    var block := Chase(rs, conditions, {}, C);
    block.Dict? && !HasGroup(block.entries)
  }

  lemma CleanTop(d: Details, rs: Refs, node: Node, path: seq<Part>)
    requires BlocksClean(d, rs) && NoError(TopIssues(d, node, path)) && Expand(rs, node, {}, C).Ok?
    ensures TypedBlock(Expand(rs, node, {}, C).value)
  {
    WhenError(node.Null?, Issue(Error, EmptyConditions, path));
    WhenError(!node.Null? && !node.List? && !node.Dict?, Issue(Error, ConditionsShape, path));
    if IsRef(node) {
      CleanRef(d, rs, node, {});
    } else if node.List? {
      NoErrorAppend(When(node.items == [], Issue(Warning, EmptyConditions, path)), ItemsIssues(d, node.items, path, 0));
      CleanItems(d, rs, node.items, path, 0, {});
    } else {
      var es := node.entries;
      var keys := IgnoredKeys(es, {"all", "any", "none"}, path);
      var none := When(!HasGroup(es), Issue(Error, NoGroup, path));
      NoErrorAppend(keys + none, GroupsIssues(d, es, path));
      NoErrorAppend(keys, none);
      WhenError(!HasGroup(es), Issue(Error, NoGroup, path));
      CleanGroups(d, rs, es, path, {});
      CleanGroupDict(rs, es, {});
    }
  }

  lemma TypedBlockTop(rs: Refs, rule: seq<Entry>, e: Node)
    requires TypedBlock(e) && Substitute(rs, rule, e).Ok?
    ensures TopTyped(Substitute(rs, rule, e).value) <==> e.List? || HasGroup(e.entries)
  {
    SubstitutedShape(rs, rule, e);
    if e.List? {
      SubstitutedItems(rs, rule, e.items);
    } else {
      SubstitutedTyped(rs, rule, e);
    }
  }

  /**
   * Conditions without linter errors resolve to what the engine reads as meant exactly when they are
   * not a bare reference to a single comparison; such a reference matches every torrent instead.
   */
  lemma CleanConditions(d: Details, rs: Refs, rule: seq<Entry>, node: Node, path: seq<Part>)
    requires BlocksClean(d, rs) && NoError(TopIssues(d, node, path)) && Resolve(rs, rule, node, C).Ok?
    ensures var s := Resolve(rs, rule, node, C).value;
      && (TopTyped(s) <==> !BareLeaf(rs, node))
      && (TopTyped(s) ==> forall w :: Fine(EvalTop(w, s)))
      && (BareLeaf(rs, node) ==> forall w :: EvalTop(w, s) == Verdict(true))
  {
    var e := Expand(rs, node, {}, C).value;
    var s := Resolve(rs, rule, node, C).value;
    CleanTop(d, rs, node, path);
    ExpandedShape(rs, node, {}, C);
    TypedBlockTop(rs, rule, e);
    SubstitutedShape(rs, rule, e);
    if TopTyped(s) {
      forall w ensures Fine(EvalTop(w, s)) {
        TopFine(w, s);
      }
    }
  }

  // ----- Actions -----

  const A: set<string> := {"actions"}

  predicate TypedAction(n: Node) {
    n.Dict? && Has(n.entries, "type") && Get(n.entries, "type").Str? && Get(n.entries, "type").s in ACTION_TYPES
  }

  predicate AllActions(items: seq<Node>) { forall a <- items :: TypedAction(a) }

  predicate ActionBlock(e: Node) {
    if e.List? then AllActions(e.items) else TypedAction(e)
  }

  predicate ActionBlocksClean(d: Details, rs: Refs) {
    forall n :: n in rs.actions ==> NoError(ActionListIssues(d, rs.actions[n], BlockPath("actions", n), false))
  }

  lemma CleanPlainAction(d: Details, rs: Refs, node: Node, path: seq<Part>, stack: set<string>)
    requires !IsRef(node) && NoError(ActionIssues(d, node, path)) && Expand(rs, node, stack, A).Ok?
    ensures TypedAction(Expand(rs, node, stack, A).value)
  {
    WhenError(!node.Dict?, Issue(Error, ActionShape, path));
    var es := node.entries;
    WhenError(!Has(es, "type"), Issue(Error, NoActionType, path));
    NoErrorAppend(IgnoredKeys(es, {"type", "params"}, path), TypedActionIssues(d, node, path));
    var t := Get(es, "type");
    WhenError(!(t.Str? && t.s in ACTION_TYPES), Issue(Error, ActionTypeUnknown, path + [Key("type")]));
    LazyRules.GetExpanded(rs, es, "type", stack, A);
  }

  lemma {:induction false} CleanActionRef(d: Details, rs: Refs, node: Node, stack: set<string>)
    requires ActionBlocksClean(d, rs) && IsRef(node) && Expand(rs, node, stack, A).Ok?
    ensures ActionBlock(Expand(rs, node, stack, A).value)
    decreases Left(rs, stack), 0
  {
    var ref := RefOf(node);
    var name := AfterDot(ref.s);
    LeftShrinks(rs, stack, ref.s);
    assert name in rs.actions;
    CleanActionList(d, rs, rs.actions[name], BlockPath("actions", name), false, stack + {ref.s});
  }

  lemma {:induction false} CleanActionList(
    d: Details, rs: Refs, node: Node, path: seq<Part>, inRule: bool, stack: set<string>)
    requires ActionBlocksClean(d, rs) && NoError(ActionListIssues(d, node, path, inRule))
    requires Expand(rs, node, stack, A).Ok?
    ensures ActionBlock(Expand(rs, node, stack, A).value)
    ensures !IsRef(node) && inRule ==> node.List?
    decreases Left(rs, stack), 2
  {
    var single := node.Dict? && Has(node.entries, "type") && !inRule;
    WhenError(!IsRef(node) && !single && !node.List?, Issue(Error, ActionsShape, path));
    if IsRef(node) {
      CleanActionRef(d, rs, node, stack);
    } else if single {
      CleanPlainAction(d, rs, node, path, stack);
    } else {
      NoErrorAppend(When(inRule && node.items == [], Issue(Warning, NoActions, path)),
                    ActionItemsIssues(d, node.items, path, 0));
      CleanActionItems(d, rs, node.items, path, 0, stack);
    }
  }

  lemma {:induction false} CleanActionItems(
    d: Details, rs: Refs, items: seq<Node>, path: seq<Part>, i: nat, stack: set<string>)
    requires ActionBlocksClean(d, rs) && NoError(ActionItemsIssues(d, items, path, i))
    requires ExpandItems(rs, items, stack, A).Ok?
    ensures AllActions(ExpandItems(rs, items, stack, A).value)
    decreases Left(rs, stack), 1, items
  {
    if items != [] {
      NoErrorAppend(ActionIssues(d, items[0], path + [Index(i)]), ActionItemsIssues(d, items[1..], path, i + 1));
      if IsRef(items[0]) {
        CleanActionRef(d, rs, items[0], stack);
      } else {
        CleanPlainAction(d, rs, items[0], path + [Index(i)], stack);
      }
      CleanActionItems(d, rs, items[1..], path, i + 1, stack);
    }
  }

  lemma SubstitutedAction(rs: Refs, rule: seq<Entry>, n: Node)
    requires TypedAction(n) && Substitute(rs, rule, n).Ok?
    ensures TypedAction(Substitute(rs, rule, n).value)
  {
    GetSubstituted(rs, rule, n.entries, "type");
    PlainActionType(Get(n.entries, "type").s);
    PlainTextStays(rs, rule, Get(n.entries, "type").s);
  }

  lemma PlainActionType(t: string)
    ensures t in ACTION_TYPES ==> '$' !in t
  {
  }

  lemma {:induction false} SubstitutedActions(rs: Refs, rule: seq<Entry>, items: seq<Node>)
    requires AllActions(items) && SubstituteItems(rs, rule, items).Ok?
    ensures AllActions(SubstituteItems(rs, rule, items).value)
  {
    if items != [] {
      SubstitutedAction(rs, rule, items[0]);
      SubstitutedActions(rs, rule, items[1..]);
    }
  }

  /** A rule's whole actions are a reference that ends at a single action. */
  predicate BareAction(rs: Refs, actions: Node) {
    Chase(rs, actions, {}, A).Dict?
  }

  /**
   * Actions without linter errors resolve to a flat list of actions of known types exactly when they
   * are not a bare reference to a single action.
   */
  lemma CleanActions(d: Details, rs: Refs, rule: seq<Entry>, node: Node, path: seq<Part>)
    requires ActionBlocksClean(d, rs) && NoError(ActionListIssues(d, node, path, true))
    requires Resolve(rs, rule, node, A).Ok?
    ensures var s := Resolve(rs, rule, node, A).value;
      (s.List? && AllActions(s.items) <==> !BareAction(rs, node)) && (BareAction(rs, node) ==> TypedAction(s))
  {
    var e := Expand(rs, node, {}, A).value;
    CleanActionList(d, rs, node, path, true, {});
    ExpandedShape(rs, node, {}, A);
    if e.List? {
      SubstitutedActions(rs, rule, e.items);
    } else {
      SubstitutedAction(rs, rule, e);
    }
  }

  // ----- Accepted documents are sound -----

  lemma {:induction false} BlocksAreClean(d: Details, blocks: seq<Entry>, name: string)
    requires Has(blocks, name) && NoError(BlocksIssues(d, blocks))
    ensures NoError(BlockIssues(d, Get(blocks, name), BlockPath("conditions", name)))
  {
    NoErrorAppend(BlockIssues(d, blocks[0].value, BlockPath("conditions", blocks[0].key)), BlocksIssues(d, blocks[1..]));
    if blocks[0].key != name {
      BlocksAreClean(d, blocks[1..], name);
    }
  }

  lemma {:induction false} ActionBlocksAreClean(d: Details, blocks: seq<Entry>, name: string)
    requires Has(blocks, name) && NoError(ActionBlocksIssues(d, blocks))
    ensures NoError(ActionListIssues(d, Get(blocks, name), BlockPath("actions", name), false))
  {
    NoErrorAppend(ActionListIssues(d, blocks[0].value, BlockPath("actions", blocks[0].key), false),
                  ActionBlocksIssues(d, blocks[1..]));
    if blocks[0].key != name {
      ActionBlocksAreClean(d, blocks[1..], name);
    }
  }

  lemma {:induction false} RulesAreClean(d: Details, rules: seq<Node>, i: nat, k: nat, rule: Node)
    requires k < |rules| && NoError(RulesIssues(d, rules, i)) && rules[k] == rule
    ensures exists at :: NoError(OneRuleIssues(d, rule, at))
    decreases k
  {
    NoErrorAppend(OneRuleIssues(d, rules[0], i), RulesIssues(d, rules[1..], i + 1));
    if k > 0 {
      RulesAreClean(d, rules[1..], i + 1, k - 1, rule);
    } else {
      assert NoError(OneRuleIssues(d, rule, i));
    }
  }

  lemma RuleIsClean(d: Details, rule: seq<Entry>, path: seq<Part>)
    requires NoError(RuleIssues(d, rule, path)) && Has(rule, "conditions") && Has(rule, "actions")
    ensures NoError(TopIssues(d, Get(rule, "conditions"), path + [Key("conditions")]))
    ensures NoError(ActionListIssues(d, Get(rule, "actions"), path + [Key("actions")], true))
  {
    var a := TopIssues(d, Get(rule, "conditions"), path + [Key("conditions")]);
    var b := ActionListIssues(d, Get(rule, "actions"), path + [Key("actions")], true);
    NoErrorAppend(d.header(rule, path) + a, b);
    NoErrorAppend(d.header(rule, path), a);
  }

  /** A document is free of errors exactly if each part is. */
  lemma LintParts(d: Details, raw: seq<Entry>)
    ensures var refs := DictOrEmpty(raw, "refs");
            NoError(LintIssues(d, raw)) <==>
              NoError(d.keys(raw)) && NoError(BlocksIssues(d, DictOrEmpty(refs, "conditions")))
              && NoError(ActionBlocksIssues(d, DictOrEmpty(refs, "actions"))) && NoError(d.unused(raw))
              && NoError(RulesIssues(d, Rules(raw), 0))
  {
    var refs := DictOrEmpty(raw, "refs");
    var a, b, c := d.keys(raw), BlocksIssues(d, DictOrEmpty(refs, "conditions")), ActionBlocksIssues(d, DictOrEmpty(refs, "actions"));
    NoErrorAppend(a + b + c + d.unused(raw), RulesIssues(d, Rules(raw), 0));
    NoErrorAppend(a + b + c, d.unused(raw));
    NoErrorAppend(a + b, c);
    NoErrorAppend(a, b);
  }

  lemma AcceptedParts(d: Details, raw: seq<Entry>, show: Node -> string)
    requires NoError(LintIssues(d, raw))
    ensures BlocksClean(d, RefsOf(raw, show)) && ActionBlocksClean(d, RefsOf(raw, show))
    ensures NoError(RulesIssues(d, Rules(raw), 0))
  {
    var rs := RefsOf(raw, show);
    var refs := DictOrEmpty(raw, "refs");
    var conditions, actions := DictOrEmpty(refs, "conditions"), DictOrEmpty(refs, "actions");
    LintParts(d, raw);
    forall n | n in rs.conditions ensures NoError(BlockIssues(d, rs.conditions[n], BlockPath("conditions", n))) {
      BlocksAreClean(d, conditions, n);
    }
    forall n | n in rs.actions ensures NoError(ActionListIssues(d, rs.actions[n], BlockPath("actions", n), false)) {
      ActionBlocksAreClean(d, actions, n);
    }
  }

  /** The resolved conditions are read as meant, and then can only fail for want of data. */
  predicate ConditionsSound(rs: Refs, conditions: Node, s: Node) {
    TopTyped(s) <==> !BareLeaf(rs, conditions)
  }

  ghost predicate ConditionsBehave(s: Node) {
    if TopTyped(s) then forall w :: Fine(EvalTop(w, s)) else forall w :: EvalTop(w, s) == Verdict(true)
  }

  predicate ActionsSound(rs: Refs, actions: Node, s: Node) {
    s.List? && AllActions(s.items) <==> !BareAction(rs, actions)
  }

  /** A rule that resolves to sound conditions and actions. */
  ghost predicate RuleSound(rs: Refs, rule: seq<Entry>) {
    && ResolveRule(rs, rule).Ok?
    && var r := ResolveRule(rs, rule).value;
    && Has(rule, "conditions") && Has(rule, "actions") && Has(r, "conditions") && Has(r, "actions")
    && ConditionsSound(rs, Get(rule, "conditions"), Get(r, "conditions"))
    && ConditionsBehave(Get(r, "conditions"))
    && ActionsSound(rs, Get(rule, "actions"), Get(r, "actions"))
  }

  lemma CleanRuleIsSound(d: Details, rs: Refs, rule: seq<Entry>, path: seq<Part>)
    requires BlocksClean(d, rs) && ActionBlocksClean(d, rs) && ResolveRule(rs, rule).Ok?
    requires Has(rule, "conditions") && Has(rule, "actions") && NoError(RuleIssues(d, rule, path))
    ensures RuleSound(rs, rule)
  {
    RuleIsClean(d, rule, path);
    ResolveRuleParts(rs, rule);
    CleanConditions(d, rs, rule, Get(rule, "conditions"), path + [Key("conditions")]);
    CleanActions(d, rs, rule, Get(rule, "actions"), path + [Key("actions")]);
  }

  lemma OneRuleIsClean(d: Details, node: Node, i: nat) returns (path: seq<Part>)
    requires node.Dict? && NoError(OneRuleIssues(d, node, i))
    ensures NoError(RuleIssues(d, node.entries, path))
  {
    path := [Key("rules"), Index(i)];
  }

  lemma AcceptedRule(d: Details, raw: seq<Entry>, show: Node -> string, node: Node)
    requires Accepted(d, raw, show) && node in Rules(raw)
    ensures Structure.RuleOk(node) && ResolveRule(RefsOf(raw, show), node.entries).Ok?
  {
  }

  /**
   * In an accepted document every rule resolves to conditions whose evaluation can only fail for want
   * of services or comparable values, and to a flat list of actions of known types -- exactly when the
   * whole field is no bare reference to a single comparison or a single action. Conditions that are
   * such a reference match every torrent.
   */
  lemma AcceptedRuleIsSound(d: Details, raw: seq<Entry>, show: Node -> string, i: nat)
    requires Accepted(d, raw, show) && i < |Rules(raw)|
    ensures Rules(raw)[i].Dict? && RuleSound(RefsOf(raw, show), Rules(raw)[i].entries)
  {
    var node := Rules(raw)[i];
    AcceptedRule(d, raw, show, node);
    AcceptedParts(d, raw, show);
    RulesAreClean(d, Rules(raw), 0, i, node);
    var at :| NoError(OneRuleIssues(d, node, at));
    var path := OneRuleIsClean(d, node, at);
    CleanRuleIsSound(d, RefsOf(raw, show), node.entries, path);
  }
}
