/** The rules linter: which parsed documents the editor accepts. */
module Linter {
  import opened Document
  import opened Tree
  import opened Resolver
  import opened Conditions

  datatype Severity = Error | Warning | Info

  datatype Part = Key(key: string) | Index(index: nat)

  datatype Kind =
    | NotAMapping | KeysBesideRef | SeveralGroups | GroupNotAList | EmptyGroup
    | MissingKeys | IgnoredKey | FieldFormat | FieldNamespace | TrackerField | OperatorUnknown
    | EmptyConditions | NoGroup | ConditionsShape | BlockShape
    | ActionsShape | NoActions | ActionShape | NoActionType | ActionTypeUnknown | ParamsShape
    | Other(message: string)

  datatype Issue = Issue(severity: Severity, kind: Kind, path: seq<Part>)

  const OPERATORS: set<string> :=
    {"==", "!=", "contains", "not_contains", "matches", "in", "not_in",
     ">", "<", ">=", "<=", "larger_than", "smaller_than", "older_than", "newer_than"}

  const ACTION_TYPES: set<string> := {
    "stop", "start", "force_start", "release_force_start", "recheck", "reannounce", "delete_torrent", "set_category",
    "add_tag", "remove_tag", "set_tags", "set_upload_limit", "set_download_limit", "increase_priority",
    "decrease_priority", "set_top_priority", "set_bottom_priority", "set_file_priority", "notify", "arr_blocklist"}

  /**
   * The checks of single values, whatever they find: a comparison's value, an action's params, a rule's
   * header, the keys of the document and of its refs, and references and variables that nothing uses.
   */
  datatype Details = Details(
    value: (string, Node, seq<Part>) -> seq<Issue>,
    params: (string, Node, seq<Part>) -> seq<Issue>,
    header: (seq<Entry>, seq<Part>) -> seq<Issue>,
    keys: seq<Entry> -> seq<Issue>,
    unused: seq<Entry> -> seq<Issue>)

  predicate NoError(issues: seq<Issue>) {
    issues == [] || (issues[0].severity != Error && NoError(issues[1..]))
  }

  // ----- What each check finds -----

  function When(found: bool, issue: Issue): seq<Issue> {
    if found then [issue] else []
  }

  function RefSiblings(es: seq<Entry>, path: seq<Part>): seq<Issue> {
    When(exists e <- es :: e.key != "$ref", Issue(Error, KeysBesideRef, path))
  }

  function IgnoredKeys(es: seq<Entry>, read: set<string>, path: seq<Part>): seq<Issue> {
    if es == [] then []
    else When(es[0].key !in read, Issue(Warning, IgnoredKey, path + [Key(es[0].key)])) + IgnoredKeys(es[1..], read, path)
  }

  function FieldIssues(field: Node, path: seq<Part>): seq<Issue> {
    if !field.Str? || '.' !in field.s then [Issue(Error, FieldFormat, path)]
    else if BeforeDot(field.s) !in NAMESPACES then [Issue(Error, FieldNamespace, path)]
    else When(BeforeDot(field.s) == "tracker" && AfterDot(field.s) !in TRACKER_FIELDS, Issue(Error, TrackerField, path))
  }

  predicate KnownOperator(operator: Node) { operator.Str? && operator.s in OPERATORS }

  function LeafIssues(d: Details, es: seq<Entry>, path: seq<Part>): seq<Issue> {
    When(!(Has(es, "field") && Has(es, "operator") && Has(es, "value")), Issue(Error, MissingKeys, path))
    + IgnoredKeys(es, {"field", "operator", "value"}, path)
    + (if Has(es, "field") then FieldIssues(Get(es, "field"), path + [Key("field")]) else [])
    + OperatorIssues(d, es, path)
  }

  /** A known operator's value is looked at as well. */
  function OperatorIssues(d: Details, es: seq<Entry>, path: seq<Part>): seq<Issue> {
    if !Has(es, "operator") then []
    else if !KnownOperator(Get(es, "operator")) then [Issue(Error, OperatorUnknown, path + [Key("operator")])]
    else if Has(es, "value") then d.value(Get(es, "operator").s, Get(es, "value"), path + [Key("value")])
    else []
  }

  function GroupCount(es: seq<Entry>): nat {
    (if Has(es, "all") then 1 else 0) + (if Has(es, "any") then 1 else 0) + (if Has(es, "none") then 1 else 0)
  }

  /** One item inside a group: a leaf, a nested group, or a `$ref`. */
  function ConditionIssues(d: Details, node: Node, path: seq<Part>): seq<Issue>
    decreases node
  {
    if !node.Dict? then [Issue(Error, NotAMapping, path)]
    else if IsRef(node) then RefSiblings(node.entries, path)
    else if HasGroup(node.entries) then
      When(GroupCount(node.entries) > 1, Issue(Error, SeveralGroups, path)) + GroupsIssues(d, node.entries, path)
    else LeafIssues(d, node.entries, path)
  }

  function GroupsIssues(d: Details, es: seq<Entry>, path: seq<Part>): seq<Issue>
    decreases es, 1
  {
    (if Has(es, "all") then GroupIssues(d, es, "all", path) else [])
    + (if Has(es, "any") then GroupIssues(d, es, "any", path) else [])
    + (if Has(es, "none") then GroupIssues(d, es, "none", path) else [])
  }

  function GroupIssues(d: Details, es: seq<Entry>, key: string, path: seq<Part>): seq<Issue>
    requires Has(es, key)
    decreases es, 0
  {
    if es[0].key != key then GroupIssues(d, es[1..], key, path)
    else MembersIssues(d, es[0].value, path + [Key(key)])
  }

  function MembersIssues(d: Details, node: Node, path: seq<Part>): seq<Issue>
    decreases node
  {
    if !node.List? then [Issue(Error, GroupNotAList, path)]
    else When(node.items == [], Issue(Warning, EmptyGroup, path)) + ItemsIssues(d, node.items, path, 0)
  }

  function ItemsIssues(d: Details, items: seq<Node>, path: seq<Part>, i: nat): seq<Issue>
    decreases items
  {
    if items == [] then []
    else ConditionIssues(d, items[0], path + [Index(i)]) + ItemsIssues(d, items[1..], path, i + 1)
  }

  /** A rule's `conditions`. */
  function TopIssues(d: Details, node: Node, path: seq<Part>): seq<Issue> {
    match node
    case Null => [Issue(Error, EmptyConditions, path)]
    case List(items) => When(items == [], Issue(Warning, EmptyConditions, path)) + ItemsIssues(d, items, path, 0)
    case Dict(es) =>
      if IsRef(node) then RefSiblings(es, path)
      else
        IgnoredKeys(es, {"all", "any", "none"}, path)
        + When(!HasGroup(es), Issue(Error, NoGroup, path))
        + GroupsIssues(d, es, path)
    case _ => [Issue(Error, ConditionsShape, path)]
  }

  /** A `refs.conditions.<name>` block. */
  function BlockIssues(d: Details, node: Node, path: seq<Part>): seq<Issue> {
    match node
    case List(items) => ItemsIssues(d, items, path, 0)
    case Dict(es) =>
      if IsRef(node) then RefSiblings(es, path)
      else if HasGroup(es) then GroupsIssues(d, es, path) + When(GroupCount(es) > 1, Issue(Info, SeveralGroups, path))
      else ConditionIssues(d, node, path)
    case _ => [Issue(Error, BlockShape, path)]
  }

  /** One action. */
  function ActionIssues(d: Details, node: Node, path: seq<Part>): seq<Issue> {
    if !node.Dict? then [Issue(Error, ActionShape, path)]
    else
      var es := node.entries;
      if IsRef(node) then RefSiblings(es, path)
      else if !Has(es, "type") then [Issue(Error, NoActionType, path)]
      else IgnoredKeys(es, {"type", "params"}, path) + TypedActionIssues(d, node, path)
  }

  /** An action with a `type`. */
  function TypedActionIssues(d: Details, node: Node, path: seq<Part>): seq<Issue>
    requires node.Dict? && Has(node.entries, "type")
  {
    var es := node.entries;
    var t := Get(es, "type");
    if !(t.Str? && t.s in ACTION_TYPES) then [Issue(Error, ActionTypeUnknown, path + [Key("type")])]
    else if Has(es, "params") && !Get(es, "params").Dict? then [Issue(Error, ParamsShape, path + [Key("params")])]
    else d.params(t.s, node, path)
  }

  function ActionItemsIssues(d: Details, items: seq<Node>, path: seq<Part>, i: nat): seq<Issue> {
    if items == [] then []
    else ActionIssues(d, items[0], path + [Index(i)]) + ActionItemsIssues(d, items[1..], path, i + 1)
  }

  /** A rule's `actions`, or a `refs.actions.<name>` block, which may be a single action. */
  function ActionListIssues(d: Details, node: Node, path: seq<Part>, inRule: bool): seq<Issue> {
    if IsRef(node) then RefSiblings(node.entries, path)
    else if node.Dict? && Has(node.entries, "type") && !inRule then ActionIssues(d, node, path)
    else if !node.List? then [Issue(Error, ActionsShape, path)]
    else When(inRule && node.items == [], Issue(Warning, NoActions, path)) + ActionItemsIssues(d, node.items, path, 0)
  }

  function RuleIssues(d: Details, rule: seq<Entry>, path: seq<Part>): seq<Issue> {
    d.header(rule, path)
    + (if Has(rule, "conditions") then TopIssues(d, Get(rule, "conditions"), path + [Key("conditions")]) else [])
    + (if Has(rule, "actions") then ActionListIssues(d, Get(rule, "actions"), path + [Key("actions")], true) else [])
  }

  function BlockPath(group: string, name: string): seq<Part> { [Key("refs"), Key(group), Key(name)] }

  function BlocksIssues(d: Details, blocks: seq<Entry>): seq<Issue> {
    if blocks == [] then []
    else BlockIssues(d, blocks[0].value, BlockPath("conditions", blocks[0].key)) + BlocksIssues(d, blocks[1..])
  }

  function ActionBlocksIssues(d: Details, blocks: seq<Entry>): seq<Issue> {
    if blocks == [] then []
    else
      ActionListIssues(d, blocks[0].value, BlockPath("actions", blocks[0].key), false)
      + ActionBlocksIssues(d, blocks[1..])
  }

  function OneRuleIssues(d: Details, rule: Node, i: nat): seq<Issue> {
    if rule.Dict? then RuleIssues(d, rule.entries, [Key("rules"), Index(i)]) else []
  }

  function RulesIssues(d: Details, rules: seq<Node>, i: nat): seq<Issue> {
    if rules == [] then [] else OneRuleIssues(d, rules[0], i) + RulesIssues(d, rules[1..], i + 1)
  }

  /** Everything the linter finds in a document. */
  function LintIssues(d: Details, raw: seq<Entry>): seq<Issue> {
    var refs := DictOrEmpty(raw, "refs");
    d.keys(raw)
    + BlocksIssues(d, DictOrEmpty(refs, "conditions"))
    + ActionBlocksIssues(d, DictOrEmpty(refs, "actions"))
    + d.unused(raw)
    + RulesIssues(d, Rules(raw), 0)
  }

  // ----- The linter -----

  lemma Chain<T>(start: seq<T>, a: seq<T>, b: seq<T>, c: seq<T>, e: seq<T>)
    ensures start + a + b + c + e == start + (a + b + c + e)
  {
  }

  lemma LongChain<T>(start: seq<T>, a: seq<T>, b: seq<T>, c: seq<T>, u: seq<T>, e: seq<T>)
    ensures start + a + b + c + u + e == start + (a + b + c + u + e)
  {
    Chain(start, a, b, c, u);
    Regroup(start, a + b + c + u, e);
  }

  lemma Regroup<T>(start: seq<T>, a: seq<T>, b: seq<T>)
    ensures start + a + b == start + (a + b)
  {
  }

  /** `_Linter`: walks a document and appends what it finds. */
  class Linter {
    const d: Details
    var issues: seq<Issue>

    constructor (d: Details)
      ensures this.d == d && issues == []
    {
      this.d := d;
      issues := [];
    }

    method Add(found: bool, severity: Severity, kind: Kind, path: seq<Part>)
      modifies this
      ensures issues == old(issues) + When(found, Issue(severity, kind, path))
    {
      if found {
        issues := issues + [Issue(severity, kind, path)];
      }
    }

    method AddIgnoredKeys(es: seq<Entry>, read: set<string>, path: seq<Part>)
      modifies this
      ensures issues == old(issues) + IgnoredKeys(es, read, path)
    {
      ghost var all := old(issues) + IgnoredKeys(es, read, path);
      for i := 0 to |es|
        invariant issues + IgnoredKeys(es[i..], read, path) == all
      {
        assert es[i..][1..] == es[i + 1..];
        Add(es[i].key !in read, Warning, IgnoredKey, path + [Key(es[i].key)]);
      }
    }

    method Condition(node: Node, path: seq<Part>)
      modifies this
      ensures issues == old(issues) + ConditionIssues(d, node, path)
      decreases node, 1
    {
      if !node.Dict? {
        Add(true, Error, NotAMapping, path);
      } else if IsRef(node) {
        Add(exists e <- node.entries :: e.key != "$ref", Error, KeysBesideRef, path);
      } else if HasGroup(node.entries) {
        Add(GroupCount(node.entries) > 1, Error, SeveralGroups, path);
        Groups(node.entries, path);
      } else {
        Leaf(node.entries, path);
      }
    }

    method Leaf(es: seq<Entry>, path: seq<Part>)
      modifies this
      ensures issues == old(issues) + LeafIssues(d, es, path)
    {
      Add(!(Has(es, "field") && Has(es, "operator") && Has(es, "value")), Error, MissingKeys, path);
      AddIgnoredKeys(es, {"field", "operator", "value"}, path);
      if Has(es, "field") {
        issues := issues + FieldIssues(Get(es, "field"), path + [Key("field")]);
      }
      issues := issues + OperatorIssues(d, es, path);
      Chain(old(issues), When(!(Has(es, "field") && Has(es, "operator") && Has(es, "value")), Issue(Error, MissingKeys, path)),
            IgnoredKeys(es, {"field", "operator", "value"}, path),
            if Has(es, "field") then FieldIssues(Get(es, "field"), path + [Key("field")]) else [],
            OperatorIssues(d, es, path));
    }

    method Groups(es: seq<Entry>, path: seq<Part>)
      modifies this
      ensures issues == old(issues) + GroupsIssues(d, es, path)
      decreases es, 2
    {
      if Has(es, "all") {
        Group(es, "all", path);
      }
      if Has(es, "any") {
        Group(es, "any", path);
      }
      if Has(es, "none") {
        Group(es, "none", path);
      }
    }

    method Group(es: seq<Entry>, key: string, path: seq<Part>)
      requires Has(es, key)
      modifies this
      ensures issues == old(issues) + GroupIssues(d, es, key, path)
      decreases es, 1
    {
      if es[0].key != key {
        Group(es[1..], key, path);
      } else if !es[0].value.List? {
        Add(true, Error, GroupNotAList, path + [Key(key)]);
      } else {
        Add(es[0].value.items == [], Warning, EmptyGroup, path + [Key(key)]);
        Items(es[0].value.items, path + [Key(key)]);
      }
    }

    method Items(items: seq<Node>, path: seq<Part>)
      modifies this
      ensures issues == old(issues) + ItemsIssues(d, items, path, 0)
      decreases items, 0
    {
      ghost var all := old(issues) + ItemsIssues(d, items, path, 0);
      for i := 0 to |items|
        invariant issues + ItemsIssues(d, items[i..], path, i) == all
      {
        assert items[i..][1..] == items[i + 1..];
        Regroup(issues, ConditionIssues(d, items[i], path + [Index(i)]), ItemsIssues(d, items[i + 1..], path, i + 1));
        Condition(items[i], path + [Index(i)]);
      }
    }

    method TopConditions(node: Node, path: seq<Part>)
      modifies this
      ensures issues == old(issues) + TopIssues(d, node, path)
    {
      match node
      case Null => Add(true, Error, EmptyConditions, path);
      case List(items) =>
        Regroup(issues, When(items == [], Issue(Warning, EmptyConditions, path)), ItemsIssues(d, items, path, 0));
        Add(items == [], Warning, EmptyConditions, path);
        Items(items, path);
      case Dict(es) =>
        if IsRef(node) {
          Add(exists e <- es :: e.key != "$ref", Error, KeysBesideRef, path);
        } else {
          ghost var ignored := IgnoredKeys(es, {"all", "any", "none"}, path);
          ghost var none := When(!HasGroup(es), Issue(Error, NoGroup, path));
          Regroup(issues, ignored, none);
          Regroup(issues, ignored + none, GroupsIssues(d, es, path));
          AddIgnoredKeys(es, {"all", "any", "none"}, path);
          Add(!HasGroup(es), Error, NoGroup, path);
          Groups(es, path);
        }
      case _ => Add(true, Error, ConditionsShape, path);
    }

    method ConditionBlock(node: Node, path: seq<Part>)
      modifies this
      ensures issues == old(issues) + BlockIssues(d, node, path)
    {
      match node
      case List(items) => Items(items, path);
      case Dict(es) =>
        if IsRef(node) {
          Add(exists e <- es :: e.key != "$ref", Error, KeysBesideRef, path);
        } else if HasGroup(es) {
          Groups(es, path);
          Add(GroupCount(es) > 1, Info, SeveralGroups, path);
        } else {
          Condition(node, path);
        }
      case _ => Add(true, Error, BlockShape, path);
    }

    method Action(node: Node, path: seq<Part>)
      modifies this
      ensures issues == old(issues) + ActionIssues(d, node, path)
    {
      if !node.Dict? {
        Add(true, Error, ActionShape, path);
        return;
      }
      var es := node.entries;
      if IsRef(node) {
        Add(exists e <- es :: e.key != "$ref", Error, KeysBesideRef, path);
      } else if !Has(es, "type") {
        Add(true, Error, NoActionType, path);
      } else {
        Regroup(issues, IgnoredKeys(es, {"type", "params"}, path), TypedActionIssues(d, node, path));
        AddIgnoredKeys(es, {"type", "params"}, path);
        issues := issues + TypedActionIssues(d, node, path);
      }
    }

    method ActionList(node: Node, path: seq<Part>, inRule: bool)
      modifies this
      ensures issues == old(issues) + ActionListIssues(d, node, path, inRule)
    {
      if IsRef(node) {
        Add(exists e <- node.entries :: e.key != "$ref", Error, KeysBesideRef, path);
      } else if node.Dict? && Has(node.entries, "type") && !inRule {
        Action(node, path);
      } else if !node.List? {
        Add(true, Error, ActionsShape, path);
      } else {
        Regroup(issues, When(inRule && node.items == [], Issue(Warning, NoActions, path)),
                ActionItemsIssues(d, node.items, path, 0));
        Add(inRule && node.items == [], Warning, NoActions, path);
        ActionItems(node.items, path);
      }
    }

    method ActionItems(items: seq<Node>, path: seq<Part>)
      modifies this
      ensures issues == old(issues) + ActionItemsIssues(d, items, path, 0)
    {
      ghost var all := issues + ActionItemsIssues(d, items, path, 0);
      for i := 0 to |items|
        invariant issues + ActionItemsIssues(d, items[i..], path, i) == all
      {
        assert items[i..][1..] == items[i + 1..];
        Regroup(issues, ActionIssues(d, items[i], path + [Index(i)]), ActionItemsIssues(d, items[i + 1..], path, i + 1));
        Action(items[i], path + [Index(i)]);
      }
    }

    method Rule(rule: seq<Entry>, path: seq<Part>)
      modifies this
      ensures issues == old(issues) + RuleIssues(d, rule, path)
    {
      ghost var header, conditions, actions: seq<Issue> := d.header(rule, path), [], [];
      issues := issues + d.header(rule, path);
      if Has(rule, "conditions") {
        conditions := TopIssues(d, Get(rule, "conditions"), path + [Key("conditions")]);
        TopConditions(Get(rule, "conditions"), path + [Key("conditions")]);
      }
      if Has(rule, "actions") {
        actions := ActionListIssues(d, Get(rule, "actions"), path + [Key("actions")], true);
        ActionList(Get(rule, "actions"), path + [Key("actions")], true);
      }
      Regroup(old(issues), header, conditions);
      Regroup(old(issues), header + conditions, actions);
    }

    /** Lints a whole document. */
    method Run(raw: seq<Entry>)
      modifies this
      ensures issues == old(issues) + LintIssues(d, raw)
    {
      issues := issues + d.keys(raw);
      var refs := DictOrEmpty(raw, "refs");
      Blocks(DictOrEmpty(refs, "conditions"));
      ActionBlocks(DictOrEmpty(refs, "actions"));
      issues := issues + d.unused(raw);
      RuleList(Rules(raw));
      LongChain(old(issues), d.keys(raw), BlocksIssues(d, DictOrEmpty(refs, "conditions")),
                ActionBlocksIssues(d, DictOrEmpty(refs, "actions")), d.unused(raw), RulesIssues(d, Rules(raw), 0));
    }

    method Blocks(blocks: seq<Entry>)
      modifies this
      ensures issues == old(issues) + BlocksIssues(d, blocks)
    {
      ghost var all := issues + BlocksIssues(d, blocks);
      for i := 0 to |blocks|
        invariant issues + BlocksIssues(d, blocks[i..]) == all
      {
        assert blocks[i..][1..] == blocks[i + 1..];
        var path := BlockPath("conditions", blocks[i].key);
        Regroup(issues, BlockIssues(d, blocks[i].value, path), BlocksIssues(d, blocks[i + 1..]));
        ConditionBlock(blocks[i].value, path);
      }
    }

    method ActionBlocks(blocks: seq<Entry>)
      modifies this
      ensures issues == old(issues) + ActionBlocksIssues(d, blocks)
    {
      ghost var all := issues + ActionBlocksIssues(d, blocks);
      for i := 0 to |blocks|
        invariant issues + ActionBlocksIssues(d, blocks[i..]) == all
      {
        assert blocks[i..][1..] == blocks[i + 1..];
        var path := BlockPath("actions", blocks[i].key);
        Regroup(issues, ActionListIssues(d, blocks[i].value, path, false), ActionBlocksIssues(d, blocks[i + 1..]));
        ActionList(blocks[i].value, path, false);
      }
    }

    method RuleList(rules: seq<Node>)
      modifies this
      ensures issues == old(issues) + RulesIssues(d, rules, 0)
    {
      ghost var all := issues + RulesIssues(d, rules, 0);
      for i := 0 to |rules|
        invariant issues + RulesIssues(d, rules[i..], i) == all
      {
        assert rules[i..][1..] == rules[i + 1..];
        Regroup(issues, OneRuleIssues(d, rules[i], i), RulesIssues(d, rules[i + 1..], i + 1));
        if rules[i].Dict? {
          Rule(rules[i].entries, [Key("rules"), Index(i)]);
        }
      }
    }
  }
}
