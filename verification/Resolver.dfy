/** Load-time resolution of a rule: `$ref` expansion, then token substitution. */
module Resolver {
  import opened Tree

  datatype Error =
    | InvalidRef | UnknownRef | RefTypeMismatch | CircularRef
    | InvalidVariable | UnknownVariable | InvalidRuleField | UnknownRuleField

  datatype Result<+T> = Ok(value: T) | Err(error: Error) {
    predicate IsFailure() { Err? }
    function PropagateFailure<U>(): Result<U>
      requires Err?
    {
      Err(error)
    }
    function Extract(): T
      requires Ok?
    {
      value
    }
  }

  /** The refs tables; `show` is how a value reads inside a longer string. */
  datatype Refs = Refs(
    vars: map<string, Node>, conditions: map<string, Node>, actions: map<string, Node>, show: Node -> string)

  const ALL_GROUPS: set<string> := {"conditions", "actions"}

  // ----- Expansion -----

  /** Every reference the tables define. */
  function RefNames(rs: Refs): set<string> {
    (set n | n in rs.conditions :: "conditions." + n) + (set n | n in rs.actions :: "actions." + n)
  }

  function Lookup(rs: Refs, path: string): (r: Result<Node>)
    requires '.' in path
    ensures r.Ok? ==> path in RefNames(rs)
  {
    var group, name := BeforeDot(path), AfterDot(path);
    assert path == group + "." + name;
    assert "conditions" + "." == "conditions." && "actions" + "." == "actions.";
    if group == "conditions" then
      if name in rs.conditions then Ok(rs.conditions[name]) else Err(UnknownRef)
    else if group == "actions" then
      if name in rs.actions then Ok(rs.actions[name]) else Err(UnknownRef)
    else Err(InvalidRef)
  }

  /** The block a `$ref` stands for, unless it is already being expanded. */
  function Follow(rs: Refs, ref: Node, stack: set<string>, allowed: set<string>): (r: Result<Node>)
    ensures r.Ok? ==> ref.Str? && ref.s in RefNames(rs) - stack
  {
    if !ref.Str? || '.' !in ref.s then Err(InvalidRef)
    else if BeforeDot(ref.s) !in ALL_GROUPS then Err(InvalidRef)
    else if BeforeDot(ref.s) !in allowed then Err(RefTypeMismatch)
    else if ref.s in stack then Err(CircularRef)
    else Lookup(rs, ref.s)
  }

  predicate IsRef(node: Node) {
    node.Dict? && Has(node.entries, "$ref")
  }

  function RefOf(node: Node): Node
    requires IsRef(node)
  {
    Get(node.entries, "$ref")
  }

  /** How many references can still be followed. */
  function Left(rs: Refs, stack: set<string>): nat { |RefNames(rs) - stack| }

  lemma LeftShrinks(rs: Refs, stack: set<string>, path: string)
    requires path in RefNames(rs) - stack
    ensures Left(rs, stack + {path}) < Left(rs, stack)
  {
    assert RefNames(rs) - (stack + {path}) == RefNames(rs) - stack - {path};
  }

  /** `_expand_refs`: the references not yet on the stack, then the node, get smaller. */
  function Expand(rs: Refs, node: Node, stack: set<string>, allowed: set<string>): Result<Node>
    decreases Left(rs, stack), node
  {
    match node
    case Dict(es) =>
      if IsRef(node) then
        var target :- Follow(rs, RefOf(node), stack, allowed);
        LeftShrinks(rs, stack, RefOf(node).s);
        Expand(rs, target, stack + {RefOf(node).s}, allowed)
      else
        var es' :- ExpandEntries(rs, es, stack, allowed);
        Ok(Dict(es'))
    case List(items) =>
      var items' :- ExpandItems(rs, items, stack, allowed);
      Ok(List(items'))
    case _ => Ok(node)
  }

  function ExpandEntries(rs: Refs, es: seq<Entry>, stack: set<string>, allowed: set<string>): (r: Result<seq<Entry>>)
    ensures r.Ok? ==> |r.value| == |es| && forall i :: 0 <= i < |es| ==> r.value[i].key == es[i].key
    decreases Left(rs, stack), es
  {
    if es == [] then Ok([])
    else
      var v :- Expand(rs, es[0].value, stack, allowed);
      var rest :- ExpandEntries(rs, es[1..], stack, allowed);
      Ok([Entry(es[0].key, v)] + rest)
  }

  /** A reference to a list contributes its items in place. */
  function ExpandItems(rs: Refs, items: seq<Node>, stack: set<string>, allowed: set<string>): Result<seq<Node>>
    decreases Left(rs, stack), items
  {
    if items == [] then Ok([])
    else
      var v :- Expand(rs, items[0], stack, allowed);
      var rest :- ExpandItems(rs, items[1..], stack, allowed);
      Ok((if IsRef(items[0]) && v.List? then v.items else [v]) + rest)
  }

  // ----- When expansion succeeds -----

  /** A reference is well formed, of an allowed group, and defined. */
  predicate Good(rs: Refs, allowed: set<string>, ref: Node) {
    Follow(rs, ref, {}, allowed).Ok?
  }

  function Target(rs: Refs, allowed: set<string>, ref: Node): Node
    requires Good(rs, allowed, ref)
  {
    Follow(rs, ref, {}, allowed).value
  }

  /** The references in a node, leaving out what stands beside or behind a reference. */
  function RefsIn(node: Node): set<Node> {
    match node
    case Dict(es) => if IsRef(node) then {RefOf(node)} else RefsInEntries(es)
    case List(items) => RefsInItems(items)
    case _ => {}
  }

  function RefsInEntries(es: seq<Entry>): set<Node> {
    if es == [] then {} else RefsIn(es[0].value) + RefsInEntries(es[1..])
  }

  function RefsInItems(items: seq<Node>): set<Node> {
    if items == [] then {} else RefsIn(items[0]) + RefsInItems(items[1..])
  }

  /** A walk in the reference graph: each reference stands in the block of the one before it. */
  predicate Walk(rs: Refs, allowed: set<string>, starts: set<Node>, w: seq<Node>)
    decreases |w|
  {
    && w != [] && w[0] in starts
    && (|w| > 1 ==> Good(rs, allowed, w[0]) && Walk(rs, allowed, RefsIn(Target(rs, allowed, w[0])), w[1..]))
  }

  /** The walk ends in a good reference that is not on the stack and was not met before. */
  predicate EndsWell(rs: Refs, allowed: set<string>, stack: set<string>, w: seq<Node>)
    requires w != []
  {
    var last := w[|w| - 1];
    Good(rs, allowed, last) && last.s !in stack && last !in w[..|w| - 1]
  }

  ghost predicate AllEndWell(rs: Refs, allowed: set<string>, stack: set<string>, starts: set<Node>) {
    forall w :: Walk(rs, allowed, starts, w) ==> EndsWell(rs, allowed, stack, w)
  }

  lemma WalkUnion(rs: Refs, allowed: set<string>, a: set<Node>, b: set<Node>, w: seq<Node>)
    ensures Walk(rs, allowed, a + b, w) <==> Walk(rs, allowed, a, w) || Walk(rs, allowed, b, w)
  {
  }

  lemma AllUnion(rs: Refs, allowed: set<string>, stack: set<string>, a: set<Node>, b: set<Node>)
    ensures AllEndWell(rs, allowed, stack, a + b) <==>
            AllEndWell(rs, allowed, stack, a) && AllEndWell(rs, allowed, stack, b)
  {
    forall w ensures Walk(rs, allowed, a + b, w) <==> Walk(rs, allowed, a, w) || Walk(rs, allowed, b, w) {
      WalkUnion(rs, allowed, a, b, w);
    }
  }

  lemma FollowIs(rs: Refs, ref: Node, stack: set<string>, allowed: set<string>)
    ensures Follow(rs, ref, stack, allowed).Ok? <==> Good(rs, allowed, ref) && ref.s !in stack
    ensures Follow(rs, ref, stack, allowed).Ok? ==> Follow(rs, ref, stack, allowed).value == Target(rs, allowed, ref)
  {
  }

  lemma WalkOn(rs: Refs, allowed: set<string>, ref: Node, inner: set<Node>, w: seq<Node>)
    requires Good(rs, allowed, ref) && inner == RefsIn(Target(rs, allowed, ref)) && w != []
    ensures Walk(rs, allowed, {ref}, [ref] + w) <==> Walk(rs, allowed, inner, w)
  {
    assert ([ref] + w)[1..] == w;
  }

  lemma EndsOn(rs: Refs, allowed: set<string>, stack: set<string>, ref: Node, w: seq<Node>)
    requires Good(rs, allowed, ref) && w != []
    ensures EndsWell(rs, allowed, stack, [ref] + w) <==> EndsWell(rs, allowed, stack + {ref.s}, w)
  {
    var w' := [ref] + w;
    assert w'[..|w'| - 1] == [ref] + w[..|w| - 1];
  }

  lemma AllFromGood(rs: Refs, allowed: set<string>, stack: set<string>, ref: Node, inner: set<Node>)
    requires Good(rs, allowed, ref) && inner == RefsIn(Target(rs, allowed, ref))
    requires AllEndWell(rs, allowed, stack, {ref})
    ensures ref.s !in stack && AllEndWell(rs, allowed, stack + {ref.s}, inner)
  {
    assert Walk(rs, allowed, {ref}, [ref]);
    assert EndsWell(rs, allowed, stack, [ref]);
    forall w | Walk(rs, allowed, inner, w) ensures EndsWell(rs, allowed, stack + {ref.s}, w) {
      WalkOn(rs, allowed, ref, inner, w);
      EndsOn(rs, allowed, stack, ref, w);
    }
  }

  lemma AllToGood(rs: Refs, allowed: set<string>, stack: set<string>, ref: Node, inner: set<Node>)
    requires Good(rs, allowed, ref) && inner == RefsIn(Target(rs, allowed, ref)) && ref.s !in stack
    requires AllEndWell(rs, allowed, stack + {ref.s}, inner)
    ensures AllEndWell(rs, allowed, stack, {ref})
  {
    forall w | Walk(rs, allowed, {ref}, w) ensures EndsWell(rs, allowed, stack, w) {
      if |w| > 1 {
        assert w == [ref] + w[1..];
        WalkOn(rs, allowed, ref, inner, w[1..]);
        EndsOn(rs, allowed, stack, ref, w[1..]);
      }
    }
  }

  /** Walks from one reference: itself, then the walks of its block with it on the stack. */
  lemma AllFromRef(rs: Refs, allowed: set<string>, stack: set<string>, ref: Node, inner: set<Node>)
    requires Good(rs, allowed, ref) ==> inner == RefsIn(Target(rs, allowed, ref))
    ensures AllEndWell(rs, allowed, stack, {ref}) <==>
            Good(rs, allowed, ref) && ref.s !in stack && AllEndWell(rs, allowed, stack + {ref.s}, inner)
  {
    assert Walk(rs, allowed, {ref}, [ref]);
    if AllEndWell(rs, allowed, stack, {ref}) {
      assert EndsWell(rs, allowed, stack, [ref]);
      AllFromGood(rs, allowed, stack, ref, inner);
    } else if Good(rs, allowed, ref) && ref.s !in stack && AllEndWell(rs, allowed, stack + {ref.s}, inner) {
      AllToGood(rs, allowed, stack, ref, inner);
    }
  }

  /** Expansion succeeds exactly when every walk of references from the node ends well. */
  lemma {:induction false} ExpandSucceeds(rs: Refs, node: Node, stack: set<string>, allowed: set<string>)
    ensures Expand(rs, node, stack, allowed).Ok? <==> AllEndWell(rs, allowed, stack, RefsIn(node))
    decreases Left(rs, stack), node, 1
  {
    match node
    case Dict(es) =>
      if IsRef(node) {
        ExpandRefSucceeds(rs, node, RefOf(node), stack, allowed);
      } else {
        ExpandEntriesSucceeds(rs, es, stack, allowed);
      }
    case List(items) => ExpandItemsSucceeds(rs, items, stack, allowed);
    case _ =>
  }

  lemma {:induction false} ExpandRefSucceeds(
    rs: Refs, node: Node, ref: Node, stack: set<string>, allowed: set<string>)
    requires IsRef(node) && ref == RefOf(node)
    ensures Expand(rs, node, stack, allowed).Ok? <==> AllEndWell(rs, allowed, stack, {ref})
    decreases Left(rs, stack), node, 0
  {
    FollowIs(rs, ref, stack, allowed);
    if Follow(rs, ref, stack, allowed).Ok? {
      var target := Target(rs, allowed, ref);
      LeftShrinks(rs, stack, ref.s);
      ExpandSucceeds(rs, target, stack + {ref.s}, allowed);
      AllFromRef(rs, allowed, stack, ref, RefsIn(target));
    } else if Good(rs, allowed, ref) {
      AllFromRef(rs, allowed, stack, ref, RefsIn(Target(rs, allowed, ref)));
    } else {
      AllFromRef(rs, allowed, stack, ref, {});
    }
  }

  lemma {:induction false} ExpandEntriesSucceeds(rs: Refs, es: seq<Entry>, stack: set<string>, allowed: set<string>)
    ensures ExpandEntries(rs, es, stack, allowed).Ok? <==> AllEndWell(rs, allowed, stack, RefsInEntries(es))
    decreases Left(rs, stack), es
  {
    if es != [] {
      ExpandSucceeds(rs, es[0].value, stack, allowed);
      ExpandEntriesSucceeds(rs, es[1..], stack, allowed);
      AllUnion(rs, allowed, stack, RefsIn(es[0].value), RefsInEntries(es[1..]));
    }
  }

  lemma {:induction false} ExpandItemsSucceeds(rs: Refs, items: seq<Node>, stack: set<string>, allowed: set<string>)
    ensures ExpandItems(rs, items, stack, allowed).Ok? <==> AllEndWell(rs, allowed, stack, RefsInItems(items))
    decreases Left(rs, stack), items
  {
    if items != [] {
      ExpandSucceeds(rs, items[0], stack, allowed);
      ExpandItemsSucceeds(rs, items[1..], stack, allowed);
      AllUnion(rs, allowed, stack, RefsIn(items[0]), RefsInItems(items[1..]));
    }
  }

  /** A reference can be reached from the node. */
  ghost predicate Reachable(rs: Refs, allowed: set<string>, node: Node, ref: Node) {
    exists w :: Walk(rs, allowed, RefsIn(node), w) && w[|w| - 1] == ref
  }

  /** Some walk from the node comes back to a reference it met before. */
  ghost predicate ReachesCycle(rs: Refs, allowed: set<string>, node: Node) {
    exists w :: Walk(rs, allowed, RefsIn(node), w) && w[|w| - 1] in w[..|w| - 1]
  }

  /**
   * A rule's conditions, actions or other field expand exactly when every reachable reference is
   * well formed, of an allowed group and defined, and no reachable reference leads back to itself.
   */
  lemma ExpandSucceedsIff(rs: Refs, node: Node, allowed: set<string>)
    ensures Expand(rs, node, {}, allowed).Ok? <==>
            (forall ref :: Reachable(rs, allowed, node, ref) ==> Good(rs, allowed, ref)) &&
            !ReachesCycle(rs, allowed, node)
  {
    ExpandSucceeds(rs, node, {}, allowed);
    if Expand(rs, node, {}, allowed).Ok? {
      forall ref | Reachable(rs, allowed, node, ref) ensures Good(rs, allowed, ref) {
        var w :| Walk(rs, allowed, RefsIn(node), w) && w[|w| - 1] == ref;
        assert EndsWell(rs, allowed, {}, w);
      }
    } else {
      var w :| Walk(rs, allowed, RefsIn(node), w) && !EndsWell(rs, allowed, {}, w);
      assert Reachable(rs, allowed, node, w[|w| - 1]);
    }
  }

  // ----- What expansion leaves -----

  /** No mapping anywhere in the node is a `$ref`. */
  predicate RefFree(node: Node) {
    match node
    case Dict(es) => !IsRef(node) && forall e <- es :: RefFree(e.value)
    case List(items) => forall item <- items :: RefFree(item)
    case _ => true
  }

  predicate NoRefIn(r: Result<Node>) { r.Ok? ==> RefFree(r.value) }

  lemma {:induction false} ExpandLeavesNoRef(rs: Refs, node: Node, stack: set<string>, allowed: set<string>)
    ensures NoRefIn(Expand(rs, node, stack, allowed))
    decreases Left(rs, stack), node, 1
  {
    match node
    case Dict(es) =>
      if IsRef(node) {
        ExpandRefLeavesNoRef(rs, node, stack, allowed);
      } else {
        ExpandEntriesLeaveNoRef(rs, es, stack, allowed);
        PlainDictRefFree(es, ExpandEntries(rs, es, stack, allowed));
      }
    case List(items) => ExpandItemsLeaveNoRef(rs, items, stack, allowed);
    case _ =>
  }

  lemma PlainDictRefFree(es: seq<Entry>, r: Result<seq<Entry>>)
    requires !Has(es, "$ref")
    requires r.Ok? ==> |r.value| == |es| && forall i :: 0 <= i < |es| ==> r.value[i].key == es[i].key
    requires r.Ok? ==> forall e <- r.value :: RefFree(e.value)
    ensures r.Ok? ==> RefFree(Dict(r.value))
  {
    if r.Ok? {
      SameKeys(es, r.value, "$ref");
    }
  }

  lemma {:induction false} ExpandRefLeavesNoRef(rs: Refs, node: Node, stack: set<string>, allowed: set<string>)
    requires IsRef(node)
    ensures NoRefIn(Expand(rs, node, stack, allowed))
    decreases Left(rs, stack), node, 0
  {
    var ref := RefOf(node);
    if Follow(rs, ref, stack, allowed).Ok? {
      LeftShrinks(rs, stack, ref.s);
      ExpandLeavesNoRef(rs, Follow(rs, ref, stack, allowed).value, stack + {ref.s}, allowed);
    }
  }

  lemma {:induction false} ExpandEntriesLeaveNoRef(rs: Refs, es: seq<Entry>, stack: set<string>, allowed: set<string>)
    ensures var r := ExpandEntries(rs, es, stack, allowed); r.Ok? ==> forall e <- r.value :: RefFree(e.value)
    decreases Left(rs, stack), es
  {
    if es != [] {
      ExpandLeavesNoRef(rs, es[0].value, stack, allowed);
      ExpandEntriesLeaveNoRef(rs, es[1..], stack, allowed);
    }
  }

  lemma {:induction false} ExpandItemsLeaveNoRef(rs: Refs, items: seq<Node>, stack: set<string>, allowed: set<string>)
    ensures var r := ExpandItems(rs, items, stack, allowed); r.Ok? ==> forall item <- r.value :: RefFree(item)
    decreases Left(rs, stack), items
  {
    if items != [] {
      ExpandLeavesNoRef(rs, items[0], stack, allowed);
      ExpandItemsLeaveNoRef(rs, items[1..], stack, allowed);
    }
  }

  lemma {:induction false} ExpandRefFree(rs: Refs, node: Node, stack: set<string>, allowed: set<string>)
    requires RefFree(node)
    ensures Expand(rs, node, stack, allowed) == Ok(node)
    decreases node
  {
    match node
    case Dict(es) => ExpandEntriesRefFree(rs, es, stack, allowed);
    case List(items) => ExpandItemsRefFree(rs, items, stack, allowed);
    case _ =>
  }

  lemma {:induction false} ExpandEntriesRefFree(rs: Refs, es: seq<Entry>, stack: set<string>, allowed: set<string>)
    requires forall e <- es :: RefFree(e.value)
    ensures ExpandEntries(rs, es, stack, allowed) == Ok(es)
    decreases es
  {
    if es != [] {
      ExpandRefFree(rs, es[0].value, stack, allowed);
      ExpandEntriesRefFree(rs, es[1..], stack, allowed);
      assert es == [es[0]] + es[1..];
    }
  }

  lemma {:induction false} ExpandItemsRefFree(rs: Refs, items: seq<Node>, stack: set<string>, allowed: set<string>)
    requires forall item <- items :: RefFree(item)
    ensures ExpandItems(rs, items, stack, allowed) == Ok(items)
    decreases items
  {
    if items != [] {
      ExpandRefFree(rs, items[0], stack, allowed);
      ExpandItemsRefFree(rs, items[1..], stack, allowed);
      assert items == [items[0]] + items[1..];
    }
  }

  /** What expansion leaves is free of references, and expanding it again changes nothing. */
  lemma ExpandIdempotent(rs: Refs, node: Node, stack: set<string>, allowed: set<string>)
    requires Expand(rs, node, stack, allowed).Ok?
    ensures var e := Expand(rs, node, stack, allowed).value;
      RefFree(e) && forall stack', allowed' :: Expand(rs, e, stack', allowed') == Ok(e)
  {
    ExpandLeavesNoRef(rs, node, stack, allowed);
    var e := Expand(rs, node, stack, allowed).value;
    forall stack', allowed' ensures Expand(rs, e, stack', allowed') == Ok(e) {
      ExpandRefFree(rs, e, stack', allowed');
    }
  }
}
