/** The checker's three layers together: what the editor runs before it saves, and `validate` on demand. */
module Validation {
  import opened Document
  import opened Tree
  import opened Resolver
  import opened Tokens
  import opened Linter
  import Soundness
  import opened Structure

  predicate Resolves(rule: Node, rs: Refs) { rule.Dict? && ResolveRule(rs, rule.entries).Ok? }

  /** Exactly the places of the rules, as the document writes them, that do not resolve. */
  ghost predicate AreBroken(raw: seq<Entry>, show: Node -> string, broken: seq<nat>) {
    forall items :: Lists(raw, items) ==>
      forall i :: i in broken <==> 0 <= i < |items| && !Resolves(items[i], RefsOf(raw, show))
  }

  /** `check_resolution`: resolves every rule as serving would, and gives the places of those that do not resolve. */
  method CheckResolution(raw: seq<Entry>, show: Node -> string) returns (broken: seq<nat>)
    requires Loadable(Dict(raw))
    ensures AreBroken(raw, show, broken)
  {
    var rules, rs := Rules(raw), RefsOf(raw, show);
    broken := [];
    for i := 0 to |rules|
      invariant forall k :: k in broken <==> 0 <= k < i && !Resolves(rules[k], rs)
    {
      if !Resolves(rules[i], rs) {
        broken := broken + [i];
      }
    }
  }

  /** The number of findings that are errors. */
  method CountErrors(issues: seq<Issue>) returns (n: nat)
    ensures n == 0 <==> NoError(issues)
  {
    n := 0;
    for i := 0 to |issues|
      invariant n == 0 <==> NoError(issues[..i])
    {
      assert issues[..i + 1] == issues[..i] + [issues[i]];
      Soundness.NoErrorAppend(issues[..i], [issues[i]]);
      assert [issues[i]][1..] == [];
      if issues[i].severity == Error {
        n := n + 1;
      }
    }
    assert issues[..|issues|] == issues;
  }

  /**
   * `validate_rules_text`, after parsing: structure, then resolution if the structure is right, then the
   * linter if there is a mapping. The document is valid exactly if it is accepted in `Soundness`'s sense.
   */
  method ValidateRules(d: Details, doc: Node, show: Node -> string)
    returns (problems: seq<Problem>, broken: seq<nat>, issues: seq<Issue>, valid: bool)
    ensures valid <==> doc.Dict? && Soundness.Accepted(d, doc.entries, show)
    ensures problems == [] <==> Loadable(doc)
    ensures issues == if doc.Dict? then LintIssues(d, doc.entries) else []
    ensures if Loadable(doc) then AreBroken(doc.entries, show, broken) else broken == []
  {
    problems := CheckRulesStructure(doc);
    broken, issues := [], [];
    if doc.Dict? {
      if problems == [] {
        broken := CheckResolution(doc.entries, show);
      }
      var linter := new Linter(d);
      linter.Run(doc.entries);
      issues := linter.issues;
      assert [] + LintIssues(d, doc.entries) == LintIssues(d, doc.entries);
    }
    var errors := CountErrors(issues);
    valid := problems == [] && broken == [] && errors == 0;
    ValidIff(d, doc, show, problems == [], broken, errors == 0);
  }

  lemma ValidIff(d: Details, doc: Node, show: Node -> string, loads: bool, broken: seq<nat>, clean: bool)
    requires loads <==> Loadable(doc)
    requires loads ==> AreBroken(doc.entries, show, broken)
    requires doc.Dict? ==> (clean <==> NoError(LintIssues(d, doc.entries)))
    ensures loads && broken == [] && clean <==> doc.Dict? && Soundness.Accepted(d, doc.entries, show)
  {
    if doc.Dict? {
      assert Dict(doc.entries) == doc;
      if loads {
        AcceptedWhen(d, doc.entries, show, broken);
      }
    }
  }

  lemma AcceptedWhen(d: Details, raw: seq<Entry>, show: Node -> string, broken: seq<nat>)
    requires Loadable(Dict(raw))
    requires AreBroken(raw, show, broken)
    ensures Soundness.Accepted(d, raw, show) <==> broken == [] && NoError(LintIssues(d, raw))
  {
    assert Lists(raw, Rules(raw));
    NoneBroken(Rules(raw), RefsOf(raw, show), broken);
  }

  lemma NoneBroken(rules: seq<Node>, rs: Refs, broken: seq<nat>)
    requires forall i :: i in broken <==> 0 <= i < |rules| && !Resolves(rules[i], rs)
    ensures broken == [] <==> forall rule <- rules :: Resolves(rule, rs)
  {
    if broken == [] {
      forall rule | rule in rules ensures Resolves(rule, rs) {
        var i :| 0 <= i < |rules| && rules[i] == rule;
        assert i !in broken;
      }
    } else {
      assert broken[0] in broken;
      assert rules[broken[0]] in rules;
    }
  }

  // ----- Every rule counts, as it is written -----

  /** No rule has an error; the first one is rule `at` of its document. */
  predicate RulesClean(d: Details, rules: seq<Node>, at: nat) {
    forall i :: 0 <= i < |rules| ==> NoError(OneRuleIssues(d, rules[i], at + i))
  }

  predicate BlockClean(d: Details, e: Entry) { NoError(BlockIssues(d, e.value, BlockPath("conditions", e.key))) }

  predicate BlocksClean(d: Details, blocks: seq<Entry>) { forall i :: 0 <= i < |blocks| ==> BlockClean(d, blocks[i]) }

  predicate ActionBlockClean(d: Details, e: Entry) {
    NoError(ActionListIssues(d, e.value, BlockPath("actions", e.key), false))
  }

  predicate ActionBlocksClean(d: Details, blocks: seq<Entry>) {
    forall i :: 0 <= i < |blocks| ==> ActionBlockClean(d, blocks[i])
  }

  lemma {:induction false} EachRuleIssues(d: Details, rules: seq<Node>, at: nat)
    ensures NoError(RulesIssues(d, rules, at)) <==> RulesClean(d, rules, at)
  {
    if rules != [] {
      EachRuleIssues(d, rules[1..], at + 1);
      Soundness.NoErrorAppend(OneRuleIssues(d, rules[0], at), RulesIssues(d, rules[1..], at + 1));
      assert forall i :: 0 <= i < |rules| - 1 ==> rules[1..][i] == rules[i + 1] && at + 1 + i == at + (i + 1);
      assert forall i :: 0 < i < |rules| ==> rules[i] == rules[1..][i - 1];
    }
  }

  lemma {:induction false} EachBlockIssues(d: Details, blocks: seq<Entry>)
    ensures NoError(BlocksIssues(d, blocks)) <==> BlocksClean(d, blocks)
  {
    if blocks != [] {
      EachBlockIssues(d, blocks[1..]);
      Soundness.NoErrorAppend(BlockIssues(d, blocks[0].value, BlockPath("conditions", blocks[0].key)), BlocksIssues(d, blocks[1..]));
      FirstBlock(d, blocks);
    }
  }

  lemma FirstBlock(d: Details, blocks: seq<Entry>)
    requires blocks != []
    ensures BlocksClean(d, blocks) <==> BlockClean(d, blocks[0]) && BlocksClean(d, blocks[1..])
  {
    assert forall i :: 0 < i < |blocks| ==> blocks[i] == blocks[1..][i - 1];
  }

  lemma {:induction false} EachActionBlockIssues(d: Details, blocks: seq<Entry>)
    ensures NoError(ActionBlocksIssues(d, blocks)) <==> ActionBlocksClean(d, blocks)
  {
    if blocks != [] {
      EachActionBlockIssues(d, blocks[1..]);
      Soundness.NoErrorAppend(ActionListIssues(d, blocks[0].value, BlockPath("actions", blocks[0].key), false),
                              ActionBlocksIssues(d, blocks[1..]));
      FirstActionBlock(d, blocks);
    }
  }

  lemma FirstActionBlock(d: Details, blocks: seq<Entry>)
    requires blocks != []
    ensures ActionBlocksClean(d, blocks) <==> ActionBlockClean(d, blocks[0]) && ActionBlocksClean(d, blocks[1..])
  {
    assert forall i :: 0 < i < |blocks| ==> blocks[i] == blocks[1..][i - 1];
  }

  /** The entries a document writes in a group of `refs`. */
  function Blocks(raw: seq<Entry>, group: string): seq<Entry> { DictOrEmpty(DictOrEmpty(raw, "refs"), group) }

  /** The linter finds no error exactly if it finds none in any rule and any block of the document. */
  lemma EverythingIsLinted(d: Details, raw: seq<Entry>, items: seq<Node>)
    requires Lists(raw, items)
    ensures NoError(LintIssues(d, raw)) <==>
              && NoError(d.keys(raw)) && NoError(d.unused(raw)) && RulesClean(d, items, 0)
              && BlocksClean(d, Blocks(raw, "conditions")) && ActionBlocksClean(d, Blocks(raw, "actions"))
  {
    RulesAreListed(raw, items);
    EachRuleIssues(d, items, 0);
    EachBlockIssues(d, Blocks(raw, "conditions"));
    EachActionBlockIssues(d, Blocks(raw, "actions"));
    LintParts(d, raw, items);
  }

  lemma LintParts(d: Details, raw: seq<Entry>, items: seq<Node>)
    requires Rules(raw) == items
    ensures NoError(LintIssues(d, raw)) <==>
              && NoError(d.keys(raw)) && NoError(d.unused(raw)) && NoError(RulesIssues(d, items, 0))
              && NoError(BlocksIssues(d, Blocks(raw, "conditions"))) && NoError(ActionBlocksIssues(d, Blocks(raw, "actions")))
  {
    Soundness.LintParts(d, raw);
  }

  /**
   * A document is accepted exactly if it loads, every rule it writes resolves, and nothing in it is an
   * error; then every rule it writes keeps the linter's promise.
   */
  lemma EveryRuleIsSound(d: Details, raw: seq<Entry>, show: Node -> string, items: seq<Node>)
    requires Lists(raw, items)
    ensures Soundness.Accepted(d, raw, show) <==>
              && Loadable(Dict(raw)) && NoError(LintIssues(d, raw))
              && forall i :: 0 <= i < |items| ==> Resolves(items[i], RefsOf(raw, show))
    ensures Soundness.Accepted(d, raw, show) ==>
              forall i :: 0 <= i < |items| ==>
                items[i].Dict? && Soundness.RuleSound(RefsOf(raw, show), items[i].entries)
  {
    RulesAreListed(raw, items);
    if Soundness.Accepted(d, raw, show) {
      forall i | 0 <= i < |items| ensures items[i].Dict? && Soundness.RuleSound(RefsOf(raw, show), items[i].entries) {
        Soundness.AcceptedRuleIsSound(d, raw, show, i);
      }
    }
    assert forall rule :: rule in items ==> exists i :: 0 <= i < |items| && items[i] == rule;
  }
}
