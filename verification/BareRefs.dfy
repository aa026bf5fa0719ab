/** Documents the checker accepts although a rule in them does not do what it says. */
module BareRefs {
  import opened Document
  import opened Tree
  import opened Resolver
  import opened Tokens
  import opened Conditions
  import opened Linter
  import opened Soundness
  import Structure

  /** Details that find nothing. */
  function Quiet(): Details {
    Details((o, v, p) => [], (t, n, p) => [], (r, p) => [], r => [], r => [])
  }

  function RefTo(path: string): Node { Dict([Entry("$ref", Str(path))]) }

  /** A document with one block and one rule. */
  function DocWith(group: string, name: string, block: Node, rule: seq<Entry>): seq<Entry> {
    [Entry("refs", Dict([Entry(group, Dict([Entry(name, block)]))])), Entry("rules", List([Dict(rule)]))]
  }

  function RuleWith(id: string, conditions: Node, actions: Node): seq<Entry> {
    [Entry("id", Str(id)), Entry("conditions", conditions), Entry("actions", actions)]
  }

  // ----- Keys -----

  lemma OneKey(e: Entry)
    ensures forall key :: Has([e], key) <==> e.key == key
    ensures Get([e], e.key) == e.value
  {
    assert [e][1..] == [];
  }

  lemma TwoKeys(e: Entry, f: Entry)
    requires e.key != f.key
    ensures forall key :: Has([e, f], key) <==> e.key == key || f.key == key
    ensures Get([e, f], e.key) == e.value && Get([e, f], f.key) == f.value
  {
    assert [e, f][1..] == [f];
    OneKey(f);
  }

  lemma ThreeKeys(e: Entry, f: Entry, g: Entry)
    requires e.key != f.key && e.key != g.key && f.key != g.key
    ensures forall key :: Has([e, f, g], key) <==> e.key == key || f.key == key || g.key == key
    ensures Get([e, f, g], e.key) == e.value && Get([e, f, g], f.key) == f.value && Get([e, f, g], g.key) == g.value
  {
    assert [e, f, g][1..] == [f, g];
    TwoKeys(f, g);
  }

  lemma RuleKeys(id: string, conditions: Node, actions: Node)
    ensures var rule := RuleWith(id, conditions, actions);
            && Has(rule, "id") && Get(rule, "id") == Str(id)
            && Has(rule, "conditions") && Get(rule, "conditions") == conditions
            && Has(rule, "actions") && Get(rule, "actions") == actions
  {
    ThreeKeys(Entry("id", Str(id)), Entry("conditions", conditions), Entry("actions", actions));
  }

  lemma DocParts(group: string, name: string, block: Node, rule: seq<Entry>)
    ensures var raw := DocWith(group, name, block, rule);
            && Has(raw, "refs") && Get(raw, "refs") == Dict([Entry(group, Dict([Entry(name, block)]))])
            && Has(raw, "rules") && Get(raw, "rules") == List([Dict(rule)]) && Rules(raw) == [Dict(rule)]
            && DictOrEmpty(raw, "refs") == [Entry(group, Dict([Entry(name, block)]))]
  {
    TwoKeys(Entry("refs", Dict([Entry(group, Dict([Entry(name, block)]))])), Entry("rules", List([Dict(rule)])));
  }

  lemma DocGroup(group: string, name: string, block: Node, key: string)
    ensures var refs := [Entry(group, Dict([Entry(name, block)]))];
            DictOrEmpty(refs, key) == if key == group then [Entry(name, block)] else []
  {
    OneKey(Entry(group, Dict([Entry(name, block)])));
  }

  lemma OneTable(name: string, block: Node)
    ensures Table([Entry(name, block)]) == map[name := block] && Table([]) == map[]
  {
    assert [Entry(name, block)][1..] == [];
  }

  lemma DocRefs(group: string, name: string, block: Node, rule: seq<Entry>, show: Node -> string)
    ensures var rs := RefsOf(DocWith(group, name, block, rule), show);
            && rs.conditions == (if group == "conditions" then map[name := block] else map[])
            && rs.actions == (if group == "actions" then map[name := block] else map[])
  {
    DocParts(group, name, block, rule);
    DocGroup(group, name, block, "conditions");
    DocGroup(group, name, block, "actions");
    OneTable(name, block);
  }

  // ----- The document loads -----

  lemma DocLoads(group: string, name: string, block: Node, id: string, conditions: Node, actions: Node)
    requires id != ""
    ensures Structure.Loadable(Dict(DocWith(group, name, block, RuleWith(id, conditions, actions))))
  {
    var rule := RuleWith(id, conditions, actions);
    DocParts(group, name, block, rule);
    RuleKeys(id, conditions, actions);
    OneKey(Entry(group, Dict([Entry(name, block)])));
    assert Structure.RuleOk(Dict(rule));
  }

  // ----- Its rule resolves -----

  /** No text in the tree holds a token. */
  predicate NoToken(node: Node) {
    match node
    case Str(s) => '$' !in s
    case Dict(es) => forall e <- es :: NoToken(e.value)
    case List(items) => forall n <- items :: NoToken(n)
    case _ => true
  }

  /** A tree without tokens stays as it is. */
  lemma {:induction false} PlainTreeStays(rs: Refs, rule: seq<Entry>, node: Node)
    requires NoToken(node)
    ensures Substitute(rs, rule, node) == Ok(node)
    decreases node
  {
    match node
    case Str(s) => PlainTextStays(rs, rule, s);
    case Dict(es) => PlainEntriesStay(rs, rule, es);
    case List(items) => PlainItemsStay(rs, rule, items);
    case _ =>
  }

  lemma {:induction false} PlainEntriesStay(rs: Refs, rule: seq<Entry>, es: seq<Entry>)
    requires forall e <- es :: NoToken(e.value)
    ensures SubstituteEntries(rs, rule, es) == Ok(es)
    decreases es
  {
    if es != [] {
      PlainTreeStays(rs, rule, es[0].value);
      PlainEntriesStay(rs, rule, es[1..]);
      assert [es[0]] + es[1..] == es;
    }
  }

  lemma {:induction false} PlainItemsStay(rs: Refs, rule: seq<Entry>, items: seq<Node>)
    requires forall n <- items :: NoToken(n)
    ensures SubstituteItems(rs, rule, items) == Ok(items)
    decreases items
  {
    if items != [] {
      PlainTreeStays(rs, rule, items[0]);
      PlainItemsStay(rs, rule, items[1..]);
      assert [items[0]] + items[1..] == items;
    }
  }

  lemma OthersExpanded(rs: Refs, id: string, c: Node, a: Node, c': Node, a': Node)
    ensures ExpandOthers(rs, RuleWith(id, c, a), c', a') == Ok(RuleWith(id, c', a'))
  {
    var e, f, g := Entry("id", Str(id)), Entry("conditions", c), Entry("actions", a);
    assert [e, f, g][1..] == [f, g] && [f, g][1..] == [g] && [g][1..] == [];
    assert [Entry("actions", a')] + [] == [Entry("actions", a')];
    assert ExpandOthers(rs, [], c', a') == Ok([]);
    assert ExpandOthers(rs, [g], c', a') == Ok([Entry("actions", a')]);
    assert ExpandOthers(rs, [f, g], c', a') == Ok([Entry("conditions", c')] + [Entry("actions", a')]);
    assert [e] + ([Entry("conditions", c')] + [Entry("actions", a')]) == RuleWith(id, c', a');
  }

  lemma RuleResolves(rs: Refs, id: string, c: Node, a: Node, c': Node, a': Node)
    requires Expand(rs, c, {}, {"conditions"}) == Ok(c') && Expand(rs, a, {}, {"actions"}) == Ok(a')
    requires '$' !in id && NoToken(c') && NoToken(a')
    ensures ResolveRule(rs, RuleWith(id, c, a)) == Ok(RuleWith(id, c', a'))
  {
    RuleKeys(id, c, a);
    OthersExpanded(rs, id, c, a, c', a');
    PlainEntriesStay(rs, RuleWith(id, c, a), RuleWith(id, c', a'));
  }

  lemma RefToIs(path: string, at: seq<Part>)
    ensures IsRef(RefTo(path)) && RefOf(RefTo(path)) == Str(path) && RefSiblings(RefTo(path).entries, at) == []
  {
    OneKey(Entry("$ref", Str(path)));
  }

  /** A reference to a block without references expands to the block. */
  lemma RefExpands(rs: Refs, group: string, name: string, path: string, block: Node)
    requires group in ALL_GROUPS && '.' !in group && path == group + "." + name && RefFree(block)
    requires if group == "conditions" then name in rs.conditions && rs.conditions[name] == block
             else name in rs.actions && rs.actions[name] == block
    ensures Follow(rs, Str(path), {}, {group}) == Ok(block) && Expand(rs, RefTo(path), {}, {group}) == Ok(block)
  {
    FollowNamed(rs, group, name, path, block);
    RefToIs(path, []);
    ExpandRefFree(rs, block, {path}, {group});
    assert {} + {path} == {path};
  }

  lemma FollowNamed(rs: Refs, group: string, name: string, path: string, block: Node)
    requires group in ALL_GROUPS && '.' !in group && path == group + "." + name
    requires if group == "conditions" then name in rs.conditions && rs.conditions[name] == block
             else name in rs.actions && rs.actions[name] == block
    ensures Follow(rs, Str(path), {}, {group}) == Ok(block)
  {
    DotParts(group, name);
    assert path[|group|] == '.';
  }

  // ----- The linter finds nothing wrong -----

  lemma OneRuleLint(d: Details, rule: seq<Entry>)
    requires NoError(RuleIssues(d, rule, [Key("rules"), Index(0)]))
    ensures NoError(RulesIssues(d, [Dict(rule)], 0))
  {
    NoErrorAppend(RuleIssues(d, rule, [Key("rules"), Index(0)]), []);
    assert [Dict(rule)][1..] == [];
  }

  lemma RuleLint(id: string, c: Node, a: Node, path: seq<Part>)
    requires NoError(TopIssues(Quiet(), c, path + [Key("conditions")]))
    requires NoError(ActionListIssues(Quiet(), a, path + [Key("actions")], true))
    ensures NoError(RuleIssues(Quiet(), RuleWith(id, c, a), path))
  {
    RuleKeys(id, c, a);
    var x, y := TopIssues(Quiet(), c, path + [Key("conditions")]), ActionListIssues(Quiet(), a, path + [Key("actions")], true);
    NoErrorAppend([], x);
    NoErrorAppend([] + x, y);
  }

  lemma BlocksLint(d: Details, name: string, block: Node)
    ensures NoError(BlocksIssues(d, [])) && NoError(ActionBlocksIssues(d, []))
    ensures NoError(BlockIssues(d, block, BlockPath("conditions", name))) ==> NoError(BlocksIssues(d, [Entry(name, block)]))
    ensures NoError(ActionListIssues(d, block, BlockPath("actions", name), false)) ==>
              NoError(ActionBlocksIssues(d, [Entry(name, block)]))
  {
    assert [Entry(name, block)][1..] == [];
    NoErrorAppend(BlockIssues(d, block, BlockPath("conditions", name)), []);
    NoErrorAppend(ActionListIssues(d, block, BlockPath("actions", name), false), []);
  }

  lemma DocLint(group: string, name: string, block: Node, rule: seq<Entry>)
    requires group == "conditions" ==> NoError(BlockIssues(Quiet(), block, BlockPath("conditions", name)))
    requires group == "actions" ==> NoError(ActionListIssues(Quiet(), block, BlockPath("actions", name), false))
    requires NoError(RuleIssues(Quiet(), rule, [Key("rules"), Index(0)]))
    ensures NoError(LintIssues(Quiet(), DocWith(group, name, block, rule)))
  {
    DocParts(group, name, block, rule);
    DocGroup(group, name, block, "conditions");
    DocGroup(group, name, block, "actions");
    BlocksLint(Quiet(), name, block);
    OneRuleLint(Quiet(), rule);
    LintParts(Quiet(), DocWith(group, name, block, rule));
  }

  lemma {:induction false} NoIgnoredKeys(es: seq<Entry>, read: set<string>, path: seq<Part>)
    requires forall i :: 0 <= i < |es| ==> es[i].key in read
    ensures IgnoredKeys(es, read, path) == []
  {
    if es != [] {
      NoIgnoredKeys(es[1..], read, path);
    }
  }

  /** An action of a known type and nothing else. */
  function ActionOf(type_: string): Node { Dict([Entry("type", Str(type_))]) }

  lemma ActionLint(type_: string, path: seq<Part>)
    requires type_ in ACTION_TYPES
    ensures NoError(ActionIssues(Quiet(), ActionOf(type_), path)) && !IsRef(ActionOf(type_))
    ensures Has(ActionOf(type_).entries, "type") && Get(ActionOf(type_).entries, "type") == Str(type_)
  {
    OneKey(Entry("type", Str(type_)));
    NoIgnoredKeys(ActionOf(type_).entries, {"type", "params"}, path);
  }

  lemma ActionsLint(type_: string, path: seq<Part>)
    requires type_ in ACTION_TYPES
    ensures NoError(ActionListIssues(Quiet(), List([ActionOf(type_)]), path, true))
  {
    ActionLint(type_, path + [Index(0)]);
    assert [ActionOf(type_)][1..] == [];
    var x := ActionIssues(Quiet(), ActionOf(type_), path + [Index(0)]);
    NoErrorAppend(x, []);
    assert ActionItemsIssues(Quiet(), [ActionOf(type_)], path, 0) == x + [];
    assert ActionListIssues(Quiet(), List([ActionOf(type_)]), path, true) == [] + (x + []);
    assert [] + (x + []) == x + [];
  }

  // ----- A comparison, referred to as the whole conditions -----

  /** One comparison of a field. */
  datatype Test = Test(field: string, operator: string, value: string)

  function Entries(t: Test): seq<Entry> {
    [Entry("field", Str(t.field)), Entry("operator", Str(t.operator)), Entry("value", Str(t.value))]
  }

  function Leaf(t: Test): Node { Dict(Entries(t)) }

  /** A known field and operator, and no tokens. */
  predicate Proper(t: Test) {
    FieldOk(Str(t.field)) && t.operator in OPERATORS && '$' !in t.field && '$' !in t.operator && '$' !in t.value
  }

  lemma LeafKeys(t: Test)
    ensures var es := Entries(t);
            && Has(es, "field") && Get(es, "field") == Str(t.field)
            && Has(es, "operator") && Get(es, "operator") == Str(t.operator)
            && Has(es, "value") && Get(es, "value") == Str(t.value)
            && !HasGroup(es) && !Has(es, "$ref") && !IsRef(Leaf(t))
  {
    ThreeKeys(Entry("field", Str(t.field)), Entry("operator", Str(t.operator)), Entry("value", Str(t.value)));
  }

  lemma LeafLint(t: Test, path: seq<Part>)
    requires Proper(t)
    ensures NoError(BlockIssues(Quiet(), Leaf(t), path))
  {
    LeafKeys(t);
    var es := Entries(t);
    NoIgnoredKeys(es, {"field", "operator", "value"}, path);
    assert FieldIssues(Str(t.field), path + [Key("field")]) == [];
    assert LeafIssues(Quiet(), es, path) == [];
  }

  lemma LeafPlain(t: Test)
    requires Proper(t)
    ensures NoToken(Leaf(t)) && RefFree(Leaf(t)) && !IsRef(Leaf(t))
  {
    LeafKeys(t);
    TextsPlain(Entries(t));
  }

  /** A mapping of texts. */
  lemma TextsPlain(es: seq<Entry>)
    requires forall i :: 0 <= i < |es| ==> es[i].value.Str? && '$' !in es[i].value.s
    requires !Has(es, "$ref")
    ensures NoToken(Dict(es)) && RefFree(Dict(es)) && !IsRef(Dict(es))
  {
  }

  /** Written as an item of a list, the comparison is what the operator says of the field's value. */
  lemma LeafCompares(w: World, t: Test, v: Node)
    requires GetField(w, Str(t.field)) == Value(v)
    ensures EvalCondition(w, Leaf(t)) == Apply(w, v, Str(t.operator), Str(t.value))
  {
    LeafKeys(t);
  }

  /** `conditions: {$ref: conditions.x}`, where `x` is one comparison, and one action. */
  function LeafRule(id: string, type_: string): seq<Entry> {
    RuleWith(id, RefTo("conditions.x"), List([ActionOf(type_)]))
  }

  function LeafDoc(id: string, t: Test, type_: string): seq<Entry> {
    DocWith("conditions", "x", Leaf(t), LeafRule(id, type_))
  }

  lemma LeafRuleResolves(rs: Refs, id: string, t: Test, type_: string)
    requires Proper(t) && '$' !in id && '$' !in type_
    requires "x" in rs.conditions && rs.conditions["x"] == Leaf(t)
    ensures ResolveRule(rs, LeafRule(id, type_)) == Ok(RuleWith(id, Leaf(t), List([ActionOf(type_)])))
  {
    LeafPlain(t);
    RefExpands(rs, "conditions", "x", "conditions.x", Leaf(t));
    ActionsPlain(rs, type_);
    RuleResolves(rs, id, RefTo("conditions.x"), List([ActionOf(type_)]), Leaf(t), List([ActionOf(type_)]));
  }

  lemma LeafIsBare(rs: Refs, t: Test)
    requires Proper(t) && "x" in rs.conditions && rs.conditions["x"] == Leaf(t)
    ensures BareLeaf(rs, RefTo("conditions.x"))
  {
    LeafPlain(t);
    LeafKeys(t);
    RefExpands(rs, "conditions", "x", "conditions.x", Leaf(t));
    ChaseBlock(rs, "conditions.x", Leaf(t), C);
  }

  /** Following a reference to a plain mapping ends there. */
  lemma ChaseBlock(rs: Refs, path: string, block: Node, allowed: set<string>)
    requires Follow(rs, Str(path), {}, allowed) == Ok(block) && block.Dict? && !IsRef(block)
    ensures Chase(rs, RefTo(path), {}, allowed) == block
  {
    RefToIs(path, []);
  }

  lemma ActionsPlain(rs: Refs, type_: string)
    requires '$' !in type_
    ensures NoToken(List([ActionOf(type_)])) && NoToken(ActionOf(type_)) && RefFree(ActionOf(type_)) && !IsRef(ActionOf(type_))
    ensures Expand(rs, List([ActionOf(type_)]), {}, {"actions"}) == Ok(List([ActionOf(type_)]))
  {
    OneKey(Entry("type", Str(type_)));
    TextsPlain([Entry("type", Str(type_))]);
    ExpandRefFree(rs, List([ActionOf(type_)]), {}, {"actions"});
  }

  lemma LeafDocLint(id: string, t: Test, type_: string)
    requires Proper(t) && type_ in ACTION_TYPES
    ensures NoError(LintIssues(Quiet(), LeafDoc(id, t, type_)))
  {
    var at := [Key("rules"), Index(0)];
    RefToIs("conditions.x", at + [Key("conditions")]);
    ActionsLint(type_, at + [Key("actions")]);
    RuleLint(id, RefTo("conditions.x"), List([ActionOf(type_)]), at);
    LeafLint(t, BlockPath("conditions", "x"));
    DocLint("conditions", "x", Leaf(t), LeafRule(id, type_));
  }

  lemma LeafDocAccepted(id: string, t: Test, type_: string, show: Node -> string)
    requires id != "" && '$' !in id && Proper(t) && '$' !in type_ && type_ in ACTION_TYPES
    ensures Accepted(Quiet(), LeafDoc(id, t, type_), show)
    ensures ResolveRule(RefsOf(LeafDoc(id, t, type_), show), LeafRule(id, type_))
            == Ok(RuleWith(id, Leaf(t), List([ActionOf(type_)])))
  {
    DocRefs("conditions", "x", Leaf(t), LeafRule(id, type_), show);
    LeafRuleResolves(RefsOf(LeafDoc(id, t, type_), show), id, t, type_);
    LeafDocLint(id, t, type_);
    DocLoads("conditions", "x", Leaf(t), id, RefTo("conditions.x"), List([ActionOf(type_)]));
    DocParts("conditions", "x", Leaf(t), LeafRule(id, type_));
  }

  /**
   * Whatever the id, the comparison and the action: the document is accepted, its rule says to act on the
   * torrents the comparison holds of, and it matches every torrent.
   */
  lemma BareLeafSlipsThrough(id: string, t: Test, type_: string, show: Node -> string, w: World)
    requires id != "" && '$' !in id && Proper(t) && '$' !in type_ && type_ in ACTION_TYPES
    ensures Accepted(Quiet(), LeafDoc(id, t, type_), show)
    ensures BareLeaf(RefsOf(LeafDoc(id, t, type_), show), RefTo("conditions.x"))
    ensures var r := ResolveRule(RefsOf(LeafDoc(id, t, type_), show), LeafRule(id, type_));
            && r.Ok? && Has(r.value, "conditions") && Get(r.value, "conditions") == Leaf(t)
            && EvalTop(w, Get(r.value, "conditions")) == Verdict(true)
  {
    LeafDocAccepted(id, t, type_, show);
    DocRefs("conditions", "x", Leaf(t), LeafRule(id, type_), show);
    LeafIsBare(RefsOf(LeafDoc(id, t, type_), show), t);
    LeafMatchesAll(id, t, type_, w);
  }

  lemma LeafMatchesAll(id: string, t: Test, type_: string, w: World)
    ensures var rule := RuleWith(id, Leaf(t), List([ActionOf(type_)]));
            Has(rule, "conditions") && Get(rule, "conditions") == Leaf(t) && EvalTop(w, Leaf(t)) == Verdict(true)
  {
    RuleKeys(id, Leaf(t), List([ActionOf(type_)]));
    LeafKeys(t);
  }

  // ----- An action, referred to as the whole actions -----

  /** `actions: {$ref: actions.y}`, where `y` is one action, on every torrent. */
  function ActionRule(id: string): seq<Entry> { RuleWith(id, List([]), RefTo("actions.y")) }

  function ActionDoc(id: string, type_: string): seq<Entry> {
    DocWith("actions", "y", ActionOf(type_), ActionRule(id))
  }

  lemma ActionRuleResolves(rs: Refs, id: string, type_: string)
    requires '$' !in id && '$' !in type_
    requires "y" in rs.actions && rs.actions["y"] == ActionOf(type_)
    ensures ResolveRule(rs, ActionRule(id)) == Ok(RuleWith(id, List([]), ActionOf(type_)))
  {
    ActionsPlain(rs, type_);
    RefExpands(rs, "actions", "y", "actions.y", ActionOf(type_));
    RuleResolves(rs, id, List([]), RefTo("actions.y"), List([]), ActionOf(type_));
  }

  lemma ActionIsBare(rs: Refs, type_: string)
    requires '$' !in type_ && "y" in rs.actions && rs.actions["y"] == ActionOf(type_)
    ensures BareAction(rs, RefTo("actions.y"))
  {
    ActionsPlain(rs, type_);
    RefExpands(rs, "actions", "y", "actions.y", ActionOf(type_));
    ChaseBlock(rs, "actions.y", ActionOf(type_), A);
  }

  lemma ActionDocLint(id: string, type_: string)
    requires type_ in ACTION_TYPES
    ensures NoError(LintIssues(Quiet(), ActionDoc(id, type_)))
  {
    var at := [Key("rules"), Index(0)];
    RefToIs("actions.y", at + [Key("actions")]);
    RuleLint(id, List([]), RefTo("actions.y"), at);
    ActionLint(type_, BlockPath("actions", "y"));
    DocLint("actions", "y", ActionOf(type_), ActionRule(id));
  }

  /** Whatever the id and the action: the document is accepted, and its rule's actions resolve to a mapping. */
  lemma BareActionSlipsThrough(id: string, type_: string, show: Node -> string)
    requires id != "" && '$' !in id && '$' !in type_ && type_ in ACTION_TYPES
    ensures Accepted(Quiet(), ActionDoc(id, type_), show)
    ensures BareAction(RefsOf(ActionDoc(id, type_), show), RefTo("actions.y"))
    ensures var r := ResolveRule(RefsOf(ActionDoc(id, type_), show), ActionRule(id));
            && r.Ok? && Has(r.value, "actions") && Get(r.value, "actions") == ActionOf(type_)
            && !Get(r.value, "actions").List?
  {
    var rs := RefsOf(ActionDoc(id, type_), show);
    DocRefs("actions", "y", ActionOf(type_), ActionRule(id), show);
    ActionRuleResolves(rs, id, type_);
    ActionIsBare(rs, type_);
    ActionDocLint(id, type_);
    DocLoads("actions", "y", ActionOf(type_), id, List([]), RefTo("actions.y"));
    DocParts("actions", "y", ActionOf(type_), ActionRule(id));
    RuleKeys(id, List([]), ActionOf(type_));
  }
}
