/** Which conditions and actions the linter accepts, said without its findings. */
module LintExact {
  import opened Tree
  import opened Resolver
  import opened Conditions
  import opened Linter
  import opened Soundness

  /** The checks of single values, params and headers find nothing wrong. */
  ghost predicate Lenient(d: Details) {
    && (forall o, v, p :: NoError(d.value(o, v, p)))
    && (forall t, n, p :: NoError(d.params(t, n, p)))
    && (forall r, p :: NoError(d.header(r, p)))
  }

  // ----- What is right -----

  /** A reference stands alone in its mapping. */
  predicate Alone(es: seq<Entry>) { forall i :: 0 <= i < |es| ==> es[i].key == "$ref" }

  /** A comparison: a field of a known namespace, a known operator and a value. */
  predicate RightLeaf(es: seq<Entry>) {
    && Has(es, "field") && Has(es, "operator") && Has(es, "value")
    && Get(es, "field").Str? && '.' in Get(es, "field").s
    && (BeforeDot(Get(es, "field").s) in NAMESPACES)
    && (BeforeDot(Get(es, "field").s) == "tracker" ==> AfterDot(Get(es, "field").s) in TRACKER_FIELDS)
    && Get(es, "operator").Str?
    && Get(es, "operator").s in
       {"==", "!=", ">", ">=", "<", "<=", "contains", "not_contains", "matches", "in", "not_in",
        "older_than", "newer_than", "smaller_than", "larger_than"}
  }

  /** A condition in a group: a reference alone, one group of right conditions, or a right comparison. */
  predicate Right(n: Node)
    decreases n
  {
    n.Dict? &&
    if IsRef(n) then Alone(n.entries)
    else if HasGroup(n.entries) then OneGroup(n.entries) && GroupsRight(n.entries)
    else RightLeaf(n.entries)
  }

  predicate OneGroup(es: seq<Entry>) {
    !(Has(es, "all") && Has(es, "any")) && !(Has(es, "all") && Has(es, "none")) && !(Has(es, "any") && Has(es, "none"))
  }

  predicate GroupsRight(es: seq<Entry>)
    decreases es, 1
  {
    (Has(es, "all") ==> GroupRight(es, "all")) && (Has(es, "any") ==> GroupRight(es, "any"))
    && (Has(es, "none") ==> GroupRight(es, "none"))
  }

  predicate GroupRight(es: seq<Entry>, key: string)
    requires Has(es, key)
    decreases es, 0
  {
    if es[0].key != key then GroupRight(es[1..], key)
    else es[0].value.List? && forall c <- es[0].value.items :: Right(c)
  }

  predicate AllRight(items: seq<Node>) { forall c <- items :: Right(c) }

  /** The conditions of a rule: a list, or a mapping with at least one group; only here groups may be combined. */
  predicate TopRight(n: Node) {
    match n
    case List(items) => AllRight(items)
    case Dict(es) => if IsRef(n) then Alone(es) else HasGroup(es) && GroupsRight(es)
    case _ => false
  }

  /** A block to refer to: a list, a reference alone, groups, or one comparison. */
  predicate BlockRight(n: Node) {
    match n
    case List(items) => AllRight(items)
    case Dict(es) => if IsRef(n) then Alone(es) else if HasGroup(es) then GroupsRight(es) else RightLeaf(es)
    case _ => false
  }

  predicate ActionRight(n: Node) {
    n.Dict? &&
    if IsRef(n) then Alone(n.entries)
    else
      && Has(n.entries, "type") && Get(n.entries, "type").Str? && Get(n.entries, "type").s in ACTION_TYPES
      && (Has(n.entries, "params") ==> Get(n.entries, "params").Dict?)
  }

  /** Actions: a list, or a reference alone; a block to refer to may be a single action. */
  predicate ActionsRight(n: Node, inRule: bool) {
    if IsRef(n) then Alone(n.entries)
    else if n.Dict? && Has(n.entries, "type") && !inRule then ActionRight(n)
    else n.List? && forall a <- n.items :: ActionRight(a)
  }

  // ----- The linter finds no error exactly there -----

  lemma RefIff(es: seq<Entry>, path: seq<Part>)
    ensures NoError(RefSiblings(es, path)) <==> Alone(es)
  {
    WhenError(exists e <- es :: e.key != "$ref", Issue(Error, KeysBesideRef, path));
    if !Alone(es) {
      var i :| 0 <= i < |es| && es[i].key != "$ref";
      assert es[i] in es;
    }
  }

  /** Keys nobody reads are no error. */
  lemma {:induction false} IgnoredKeysAreFine(es: seq<Entry>, read: set<string>, path: seq<Part>)
    ensures NoError(IgnoredKeys(es, read, path))
  {
    if es != [] {
      IgnoredKeysAreFine(es[1..], read, path);
      NoErrorAppend(When(es[0].key !in read, Issue(Warning, IgnoredKey, path + [Key(es[0].key)])),
                    IgnoredKeys(es[1..], read, path));
    }
  }

  lemma OperatorIff(d: Details, es: seq<Entry>, path: seq<Part>)
    requires Lenient(d)
    ensures NoError(OperatorIssues(d, es, path)) <==> (Has(es, "operator") ==> KnownOperator(Get(es, "operator")))
  {
  }

  lemma LeafIff(d: Details, es: seq<Entry>, path: seq<Part>)
    requires Lenient(d)
    ensures NoError(LeafIssues(d, es, path)) <==> RightLeaf(es)
  {
    var missing := Issue(Error, MissingKeys, path);
    var a := When(!(Has(es, "field") && Has(es, "operator") && Has(es, "value")), missing);
    var b := IgnoredKeys(es, {"field", "operator", "value"}, path);
    var f := if Has(es, "field") then FieldIssues(Get(es, "field"), path + [Key("field")]) else [];
    NoErrorAppend(a + b + f, OperatorIssues(d, es, path));
    NoErrorAppend(a + b, f);
    NoErrorAppend(a, b);
    WhenError(!(Has(es, "field") && Has(es, "operator") && Has(es, "value")), missing);
    IgnoredKeysAreFine(es, {"field", "operator", "value"}, path);
    if Has(es, "field") {
      FieldClean(Get(es, "field"), path + [Key("field")]);
    }
    OperatorIff(d, es, path);
    LeafRightIff(es);
  }

  lemma LeafRightIff(es: seq<Entry>)
    ensures RightLeaf(es) <==> LeafOk(es)
  {
  }

  lemma {:induction false} ConditionIff(d: Details, n: Node, path: seq<Part>)
    requires Lenient(d)
    ensures NoError(ConditionIssues(d, n, path)) <==> Right(n)
    decreases n
  {
    if n.Dict? {
      var es := n.entries;
      if IsRef(n) {
        RefIff(es, path);
      } else if HasGroup(es) {
        NoErrorAppend(When(GroupCount(es) > 1, Issue(Error, SeveralGroups, path)), GroupsIssues(d, es, path));
        WhenError(GroupCount(es) > 1, Issue(Error, SeveralGroups, path));
        GroupsIff(d, es, path);
      } else {
        LeafIff(d, es, path);
      }
    }
  }

  lemma {:induction false} GroupsIff(d: Details, es: seq<Entry>, path: seq<Part>)
    requires Lenient(d)
    ensures NoError(GroupsIssues(d, es, path)) <==> GroupsRight(es)
    decreases es, 1
  {
    var a := if Has(es, "all") then GroupIssues(d, es, "all", path) else [];
    var b := if Has(es, "any") then GroupIssues(d, es, "any", path) else [];
    var c := if Has(es, "none") then GroupIssues(d, es, "none", path) else [];
    NoErrorAppend(a + b, c);
    NoErrorAppend(a, b);
    if Has(es, "all") {
      GroupIff(d, es, "all", path);
    }
    if Has(es, "any") {
      GroupIff(d, es, "any", path);
    }
    if Has(es, "none") {
      GroupIff(d, es, "none", path);
    }
  }

  lemma {:induction false} GroupIff(d: Details, es: seq<Entry>, key: string, path: seq<Part>)
    requires Lenient(d) && Has(es, key)
    ensures NoError(GroupIssues(d, es, key, path)) <==> GroupRight(es, key)
    decreases es, 0
  {
    if es[0].key != key {
      GroupIff(d, es[1..], key, path);
    } else {
      var v, path' := es[0].value, path + [Key(key)];
      if v.List? {
        ItemsIff(d, v.items, path', 0);
        NoErrorAppend(When(v.items == [], Issue(Warning, EmptyGroup, path')), ItemsIssues(d, v.items, path', 0));
      }
    }
  }

  lemma {:induction false} ItemsIff(d: Details, items: seq<Node>, path: seq<Part>, i: nat)
    requires Lenient(d)
    ensures NoError(ItemsIssues(d, items, path, i)) <==> AllRight(items)
    decreases items
  {
    if items != [] {
      ConditionIff(d, items[0], path + [Index(i)]);
      ItemsIff(d, items[1..], path, i + 1);
      NoErrorAppend(ConditionIssues(d, items[0], path + [Index(i)]), ItemsIssues(d, items[1..], path, i + 1));
      assert items == [items[0]] + items[1..];
    }
  }

  /** The linter accepts exactly the right conditions of a rule. */
  lemma TopIff(d: Details, n: Node, path: seq<Part>)
    requires Lenient(d)
    ensures NoError(TopIssues(d, n, path)) <==> TopRight(n)
  {
    match n
    case List(items) =>
      ItemsIff(d, items, path, 0);
      NoErrorAppend(When(items == [], Issue(Warning, EmptyConditions, path)), ItemsIssues(d, items, path, 0));
    case Dict(es) =>
      if IsRef(n) {
        RefIff(es, path);
      } else {
        var keys, none := IgnoredKeys(es, {"all", "any", "none"}, path), When(!HasGroup(es), Issue(Error, NoGroup, path));
        NoErrorAppend(keys + none, GroupsIssues(d, es, path));
        NoErrorAppend(keys, none);
        IgnoredKeysAreFine(es, {"all", "any", "none"}, path);
        WhenError(!HasGroup(es), Issue(Error, NoGroup, path));
        GroupsIff(d, es, path);
      }
    case _ =>
  }

  /** And exactly the right blocks of conditions. */
  lemma BlockIff(d: Details, n: Node, path: seq<Part>)
    requires Lenient(d)
    ensures NoError(BlockIssues(d, n, path)) <==> BlockRight(n)
  {
    match n
    case List(items) => ItemsIff(d, items, path, 0);
    case Dict(es) =>
      if IsRef(n) {
        RefIff(es, path);
      } else if HasGroup(es) {
        GroupsIff(d, es, path);
        NoErrorAppend(GroupsIssues(d, es, path), When(GroupCount(es) > 1, Issue(Info, SeveralGroups, path)));
      } else {
        LeafIff(d, es, path);
      }
    case _ =>
  }

  lemma ActionIff(d: Details, n: Node, path: seq<Part>)
    requires Lenient(d)
    ensures NoError(ActionIssues(d, n, path)) <==> ActionRight(n)
  {
    if n.Dict? {
      if IsRef(n) {
        RefIff(n.entries, path);
      } else if Has(n.entries, "type") {
        IgnoredKeysAreFine(n.entries, {"type", "params"}, path);
        NoErrorAppend(IgnoredKeys(n.entries, {"type", "params"}, path), TypedActionIssues(d, n, path));
      }
    }
  }

  lemma {:induction false} ActionItemsIff(d: Details, items: seq<Node>, path: seq<Part>, i: nat)
    requires Lenient(d)
    ensures NoError(ActionItemsIssues(d, items, path, i)) <==> forall a <- items :: ActionRight(a)
  {
    if items != [] {
      ActionIff(d, items[0], path + [Index(i)]);
      ActionItemsIff(d, items[1..], path, i + 1);
      NoErrorAppend(ActionIssues(d, items[0], path + [Index(i)]), ActionItemsIssues(d, items[1..], path, i + 1));
      assert items == [items[0]] + items[1..];
    }
  }

  /** And exactly the right actions, of a rule or of a block. */
  lemma ActionsIff(d: Details, n: Node, path: seq<Part>, inRule: bool)
    requires Lenient(d)
    ensures NoError(ActionListIssues(d, n, path, inRule)) <==> ActionsRight(n, inRule)
  {
    if IsRef(n) {
      RefIff(n.entries, path);
    } else if n.Dict? && Has(n.entries, "type") && !inRule {
      ActionIff(d, n, path);
    } else if n.List? {
      ActionItemsIff(d, n.items, path, 0);
      NoErrorAppend(When(inRule && n.items == [], Issue(Warning, NoActions, path)), ActionItemsIssues(d, n.items, path, 0));
    }
  }

  /** A whole rule has no error exactly if its conditions and its actions are right. */
  lemma RuleIff(d: Details, rule: seq<Entry>, i: nat)
    requires Lenient(d)
    ensures NoError(OneRuleIssues(d, Dict(rule), i)) <==>
              && (Has(rule, "conditions") ==> TopRight(Get(rule, "conditions")))
              && (Has(rule, "actions") ==> ActionsRight(Get(rule, "actions"), true))
  {
    var path := [Key("rules"), Index(i)];
    var cs := if Has(rule, "conditions") then TopIssues(d, Get(rule, "conditions"), path + [Key("conditions")]) else [];
    var acts := if Has(rule, "actions") then ActionListIssues(d, Get(rule, "actions"), path + [Key("actions")], true) else [];
    NoErrorAppend(d.header(rule, path) + cs, acts);
    NoErrorAppend(d.header(rule, path), cs);
    if Has(rule, "conditions") {
      TopIff(d, Get(rule, "conditions"), path + [Key("conditions")]);
    }
    if Has(rule, "actions") {
      ActionsIff(d, Get(rule, "actions"), path + [Key("actions")], true);
    }
  }
}
