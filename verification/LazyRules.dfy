/**
 * A second reading of a rule's conditions, on the tree as written: every `$ref` is followed, and
 * every token substituted, only when the evaluation comes to it. Resolving ahead means the same.
 */
module LazyRules {
  import opened Tree
  import opened Resolver
  import opened Tokens
  import opened Conditions

  /** What a rule's conditions are read against: the refs tables, the rule itself and the world. */
  datatype Context = Context(rs: Refs, rule: seq<Entry>, w: World)

  const CONDITION_REFS: set<string> := {"conditions"}

  /** A piece of the tree, resolved when it is needed. */
  function Force(cx: Context, node: Node, stack: set<string>): Result<Node> {
    var e :- Expand(cx.rs, node, stack, CONDITION_REFS);
    Substitute(cx.rs, cx.rule, e)
  }

  /** What evaluating a reference that does not resolve ends in. */
  const UNRESOLVED: Outcome := Raised(DataFault)

  function ForceField(cx: Context, es: seq<Entry>, key: string, stack: set<string>): Option<Node> {
    if Has(es, key) && Force(cx, Get(es, key), stack).Ok? then Some(Force(cx, Get(es, key), stack).value) else None
  }

  /** One condition that is no reference. */
  function LazyCondition(cx: Context, node: Node, stack: set<string>): Outcome
    decreases Left(cx.rs, stack), node, 0
  {
    match node
    case Dict(es) =>
      if HasGroup(es) then LazyGroups(cx, es, stack)
      else Compare(cx.w, ForceField(cx, es, "field", stack), ForceField(cx, es, "operator", stack),
                   ForceField(cx, es, "value", stack))
    case List(_) => Raised(NotACondition)
    case _ =>
      match Force(cx, node, stack)
      case Err(_) => UNRESOLVED
      case Ok(c) => EvalCondition(cx.w, c)
  }

  function LazyGroups(cx: Context, es: seq<Entry>, stack: set<string>): Outcome
    decreases Left(cx.rs, stack), es, 1
  {
    Then(if Has(es, "all") then LazyGroup(cx, es, "all", true, stack) else Verdict(true),
    Then(if Has(es, "any") then LazyGroup(cx, es, "any", false, stack) else Verdict(true),
         if Has(es, "none") then Not(LazyGroup(cx, es, "none", false, stack)) else Verdict(true)))
  }

  function LazyGroup(cx: Context, es: seq<Entry>, key: string, neutral: bool, stack: set<string>): Outcome
    requires Has(es, key)
    decreases Left(cx.rs, stack), es, 0
  {
    if es[0].key == key then LazyIterable(cx, neutral, es[0].value, stack)
    else LazyGroup(cx, es[1..], key, neutral, stack)
  }

  /** The members of a group, or of the block a reference in its place names. */
  function LazyIterable(cx: Context, neutral: bool, v: Node, stack: set<string>): Outcome
    decreases Left(cx.rs, stack), v
  {
    match v
    case Dict(es) =>
      if IsRef(v) then
        match Follow(cx.rs, RefOf(v), stack, CONDITION_REFS)
        case Err(_) => UNRESOLVED
        case Ok(target) =>
          LeftShrinks(cx.rs, stack, RefOf(v).s);
          LazyIterable(cx, neutral, target, stack + {RefOf(v).s})
      else if es == [] then Verdict(neutral) else Raised(NotACondition)
    case List(items) => LazyItems(cx, neutral, items, stack)
    case _ =>
      match Force(cx, v, stack)
      case Err(_) => UNRESOLVED
      case Ok(v') => EvalIterable(cx.w, neutral, v')
  }

  function LazyItems(cx: Context, neutral: bool, items: seq<Node>, stack: set<string>): Outcome
    decreases Left(cx.rs, stack), items
  {
    if items == [] then Verdict(neutral)
    else
      var r := LazyItem(cx, neutral, items[0], stack);
      if r == Verdict(neutral) then LazyItems(cx, neutral, items[1..], stack) else r
  }

  /** A member of a group: a reference to a list contributes the list's items in place. */
  function LazyItem(cx: Context, neutral: bool, item: Node, stack: set<string>): Outcome
    decreases Left(cx.rs, stack), item, 1
  {
    if IsRef(item) then
      match Follow(cx.rs, RefOf(item), stack, CONDITION_REFS)
      case Err(_) => UNRESOLVED
      case Ok(target) =>
        LeftShrinks(cx.rs, stack, RefOf(item).s);
        var stack' := stack + {RefOf(item).s};
        if target.List? then LazyItems(cx, neutral, target.items, stack')
        else LazyItem(cx, neutral, target, stack')
    else LazyCondition(cx, item, stack)
  }

  /** A rule's whole conditions. */
  function LazyTop(cx: Context, node: Node, stack: set<string>): Outcome
    decreases Left(cx.rs, stack), node
  {
    match node
    case Dict(es) =>
      if IsRef(node) then
        match Follow(cx.rs, RefOf(node), stack, CONDITION_REFS)
        case Err(_) => UNRESOLVED
        case Ok(target) =>
          LeftShrinks(cx.rs, stack, RefOf(node).s);
          LazyTop(cx, target, stack + {RefOf(node).s})
      else LazyGroups(cx, es, stack)
    case List(items) => LazyItems(cx, true, items, stack)
    case _ =>
      match Force(cx, node, stack)
      case Err(_) => UNRESOLVED
      case Ok(c) => EvalTop(cx.w, c)
  }

  // ----- Resolving ahead means the same -----

  lemma {:induction false} GetExpanded(rs: Refs, es: seq<Entry>, key: string, stack: set<string>, allowed: set<string>)
    requires ExpandEntries(rs, es, stack, allowed).Ok?
    ensures var r := ExpandEntries(rs, es, stack, allowed).value;
      Has(r, key) == Has(es, key) && (Has(es, key) ==> Expand(rs, Get(es, key), stack, allowed) == Ok(Get(r, key)))
  {
    if es != [] {
      GetExpanded(rs, es[1..], key, stack, allowed);
      assert ExpandEntries(rs, es, stack, allowed).value[1..] == ExpandEntries(rs, es[1..], stack, allowed).value;
    }
  }

  /** A mapping's entries, resolved. */
  function ForceEntries(cx: Context, es: seq<Entry>, stack: set<string>): Result<seq<Entry>> {
    var e :- ExpandEntries(cx.rs, es, stack, CONDITION_REFS);
    SubstituteEntries(cx.rs, cx.rule, e)
  }

  function ForceItems(cx: Context, items: seq<Node>, stack: set<string>): Result<seq<Node>> {
    var e :- ExpandItems(cx.rs, items, stack, CONDITION_REFS);
    SubstituteItems(cx.rs, cx.rule, e)
  }

  lemma GetForced(cx: Context, es: seq<Entry>, key: string, stack: set<string>)
    requires ForceEntries(cx, es, stack).Ok?
    ensures var r := ForceEntries(cx, es, stack).value;
      Has(r, key) == Has(es, key) && (Has(es, key) ==> Force(cx, Get(es, key), stack) == Ok(Get(r, key)))
  {
    var e := ExpandEntries(cx.rs, es, stack, CONDITION_REFS).value;
    GetExpanded(cx.rs, es, key, stack, CONDITION_REFS);
    GetSubstituted(cx.rs, cx.rule, e, key);
  }

  lemma {:induction false} EvalItemsAppend(w: World, neutral: bool, a: seq<Node>, b: seq<Node>)
    ensures EvalItems(w, neutral, a + b) ==
            if EvalItems(w, neutral, a) == Verdict(neutral) then EvalItems(w, neutral, b) else EvalItems(w, neutral, a)
  {
    if a == [] {
      assert a + b == b;
    } else {
      assert (a + b)[1..] == a[1..] + b;
      EvalItemsAppend(w, neutral, a[1..], b);
    }
  }

  lemma {:induction false} SubstituteItemsAppend(rs: Refs, rule: seq<Entry>, a: seq<Node>, b: seq<Node>)
    ensures SubstituteItems(rs, rule, a + b).Ok? <==>
            SubstituteItems(rs, rule, a).Ok? && SubstituteItems(rs, rule, b).Ok?
    ensures SubstituteItems(rs, rule, a + b).Ok? ==>
            SubstituteItems(rs, rule, a + b).value ==
            SubstituteItems(rs, rule, a).value + SubstituteItems(rs, rule, b).value
  {
    if a == [] {
      assert a + b == b;
    } else {
      assert (a + b)[1..] == a[1..] + b;
      SubstituteItemsAppend(rs, rule, a[1..], b);
    }
  }

  lemma {:induction false} SameCondition(cx: Context, node: Node, stack: set<string>)
    requires !IsRef(node) && Force(cx, node, stack).Ok?
    ensures LazyCondition(cx, node, stack) == EvalCondition(cx.w, Force(cx, node, stack).value)
    decreases Left(cx.rs, stack), node, 0
  {
    if node.Dict? {
      var es := node.entries;
      assert ForceEntries(cx, es, stack).Ok?;
      var es' := ForceEntries(cx, es, stack).value;
      assert Force(cx, node, stack).value == Dict(es');
      GetForced(cx, es, "all", stack);
      GetForced(cx, es, "any", stack);
      GetForced(cx, es, "none", stack);
      if HasGroup(es) {
        SameGroups(cx, es, stack);
      } else {
        GetForced(cx, es, "field", stack);
        GetForced(cx, es, "operator", stack);
        GetForced(cx, es, "value", stack);
      }
    }
  }

  lemma {:induction false} SameGroups(cx: Context, es: seq<Entry>, stack: set<string>)
    requires ForceEntries(cx, es, stack).Ok?
    ensures LazyGroups(cx, es, stack) == EvalGroups(cx.w, ForceEntries(cx, es, stack).value)
    decreases Left(cx.rs, stack), es, 1
  {
    GetForced(cx, es, "all", stack);
    GetForced(cx, es, "any", stack);
    GetForced(cx, es, "none", stack);
    if Has(es, "all") {
      SameGroup(cx, es, "all", true, stack);
    }
    if Has(es, "any") {
      SameGroup(cx, es, "any", false, stack);
    }
    if Has(es, "none") {
      SameGroup(cx, es, "none", false, stack);
    }
  }

  lemma {:induction false} SameGroup(cx: Context, es: seq<Entry>, key: string, neutral: bool, stack: set<string>)
    requires ForceEntries(cx, es, stack).Ok? && Has(es, key)
    ensures Has(ForceEntries(cx, es, stack).value, key)
    ensures LazyGroup(cx, es, key, neutral, stack) ==
            EvalGroup(cx.w, ForceEntries(cx, es, stack).value, key, neutral)
    decreases Left(cx.rs, stack), es, 0
  {
    GetForced(cx, es, key, stack);
    var es' := ForceEntries(cx, es, stack).value;
    if es[0].key == key {
      SameIterable(cx, neutral, es[0].value, stack);
    } else {
      assert ForceEntries(cx, es[1..], stack).Ok? && es'[1..] == ForceEntries(cx, es[1..], stack).value;
      SameGroup(cx, es[1..], key, neutral, stack);
    }
  }

  lemma {:induction false} SameIterable(cx: Context, neutral: bool, v: Node, stack: set<string>)
    requires Force(cx, v, stack).Ok?
    ensures LazyIterable(cx, neutral, v, stack) == EvalIterable(cx.w, neutral, Force(cx, v, stack).value)
    decreases Left(cx.rs, stack), v
  {
    if IsRef(v) {
      var target := Follow(cx.rs, RefOf(v), stack, CONDITION_REFS).value;
      LeftShrinks(cx.rs, stack, RefOf(v).s);
      SameIterable(cx, neutral, target, stack + {RefOf(v).s});
    } else if v.List? {
      assert ForceItems(cx, v.items, stack).Ok?;
      SameItems(cx, neutral, v.items, stack);
    } else if v.Dict? {
      assert ForceEntries(cx, v.entries, stack).Ok?;
    }
  }

  /** What an item contributes to the list it stands in, expanded. */
  function Spliced(item: Node, e: Node): seq<Node> {
    if IsRef(item) && e.List? then e.items else [e]
  }

  lemma {:induction false} SameItems(cx: Context, neutral: bool, items: seq<Node>, stack: set<string>)
    requires ForceItems(cx, items, stack).Ok?
    ensures LazyItems(cx, neutral, items, stack) == EvalItems(cx.w, neutral, ForceItems(cx, items, stack).value)
    decreases Left(cx.rs, stack), items
  {
    if items != [] {
      var head := Spliced(items[0], Expand(cx.rs, items[0], stack, CONDITION_REFS).value);
      var rest := ExpandItems(cx.rs, items[1..], stack, CONDITION_REFS).value;
      assert ExpandItems(cx.rs, items, stack, CONDITION_REFS).value == head + rest;
      SubstituteItemsAppend(cx.rs, cx.rule, head, rest);
      SameItem(cx, neutral, items[0], stack);
      SameItems(cx, neutral, items[1..], stack);
      EvalItemsAppend(cx.w, neutral, SubstituteItems(cx.rs, cx.rule, head).value,
                      SubstituteItems(cx.rs, cx.rule, rest).value);
    }
  }

  lemma {:induction false} SameItem(cx: Context, neutral: bool, item: Node, stack: set<string>)
    requires Expand(cx.rs, item, stack, CONDITION_REFS).Ok?
    requires SubstituteItems(cx.rs, cx.rule, Spliced(item, Expand(cx.rs, item, stack, CONDITION_REFS).value)).Ok?
    ensures LazyItem(cx, neutral, item, stack) ==
            EvalItems(cx.w, neutral, SubstituteItems(cx.rs, cx.rule,
              Spliced(item, Expand(cx.rs, item, stack, CONDITION_REFS).value)).value)
    decreases Left(cx.rs, stack), item, 1
  {
    if IsRef(item) {
      var target := Follow(cx.rs, RefOf(item), stack, CONDITION_REFS).value;
      LeftShrinks(cx.rs, stack, RefOf(item).s);
      var stack' := stack + {RefOf(item).s};
      if target.List? {
        assert ForceItems(cx, target.items, stack').Ok?;
        SameItems(cx, neutral, target.items, stack');
      } else {
        SameItem(cx, neutral, target, stack');
      }
    } else {
      var e := Expand(cx.rs, item, stack, CONDITION_REFS).value;
      assert SubstituteItems(cx.rs, cx.rule, [e][1..]) == Ok([]);
      assert Force(cx, item, stack).Ok?;
      SameCondition(cx, item, stack);
      var c := Force(cx, item, stack).value;
      assert SubstituteItems(cx.rs, cx.rule, [e]).value == [c];
      assert [c][1..] == [];
    }
  }

  /** Evaluating resolved conditions gives what following each reference at evaluation time gives. */
  lemma {:induction false} ResolvingKeepsMeaning(cx: Context, node: Node, stack: set<string>)
    requires Force(cx, node, stack).Ok?
    ensures EvalTop(cx.w, Force(cx, node, stack).value) == LazyTop(cx, node, stack)
    decreases Left(cx.rs, stack), node
  {
    if IsRef(node) {
      var target := Follow(cx.rs, RefOf(node), stack, CONDITION_REFS).value;
      LeftShrinks(cx.rs, stack, RefOf(node).s);
      ResolvingKeepsMeaning(cx, target, stack + {RefOf(node).s});
    } else if node.List? {
      assert ForceItems(cx, node.items, stack).Ok?;
      SameItems(cx, true, node.items, stack);
    } else if node.Dict? {
      assert ForceEntries(cx, node.entries, stack).Ok?;
      SameGroups(cx, node.entries, stack);
    }
  }

  /** A resolved rule matches a torrent exactly when the rule as written does. */
  lemma ResolvedRuleMatches(rs: Refs, rule: seq<Entry>, w: World, current: Node, required: Node)
    requires Has(rule, "conditions") && ResolveRule(rs, rule).Ok?
    ensures Has(ResolveRule(rs, rule).value, "conditions")
    ensures Matches(w, Get(ResolveRule(rs, rule).value, "conditions"), current, required) <==>
            ContextAdmits(w.eq, current, required) &&
            LazyTop(Context(rs, rule, w), Get(rule, "conditions"), {}) == Verdict(true)
  {
    ResolveRuleParts(rs, rule);
    ResolvingKeepsMeaning(Context(rs, rule, w), Get(rule, "conditions"), {});
  }
}
