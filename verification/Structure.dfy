/** What the loader demands of a parsed `rules.yml` before anything else. */
module Structure {
  import opened Tree

  datatype Problem =
    | NotAMapping | RefsShape | RefsGroupShape(group: string) | RulesShape
    | RuleShape(index: nat) | IdMissing(index: nat) | IdInvalid(index: nat) | IdTaken(index: nat)
    | ConditionsMissing(index: nat) | ActionsMissing(index: nat)

  predicate AbsentOrMapping(es: seq<Entry>, key: string) {
    Has(es, key) ==> Get(es, key).Dict? || Get(es, key).Null?
  }

  predicate RefsOk(raw: seq<Entry>) {
    && AbsentOrMapping(raw, "refs")
    && (Has(raw, "refs") && Get(raw, "refs").Dict? ==>
          var refs := Get(raw, "refs").entries;
          AbsentOrMapping(refs, "vars") && AbsentOrMapping(refs, "conditions") && AbsentOrMapping(refs, "actions"))
  }

  predicate RuleOk(rule: Node) {
    && rule.Dict?
    && Has(rule.entries, "id") && Get(rule.entries, "id").Str? && Get(rule.entries, "id").s != ""
    && Has(rule.entries, "conditions") && Has(rule.entries, "actions")
  }

  function IdOf(rule: Node): string
    requires RuleOk(rule)
  {
    Get(rule.entries, "id").s
  }

  /** Every rule is complete and no two rules share an id. */
  predicate RulesOk(rules: seq<Node>) {
    && (forall i :: 0 <= i < |rules| ==> RuleOk(rules[i]))
    && (forall i, j :: 0 <= i < j < |rules| ==> IdOf(rules[i]) != IdOf(rules[j]))
  }

  /** A document the server loads. */
  predicate Loadable(raw: Node) {
    && raw.Dict?
    && RefsOk(raw.entries)
    && (Has(raw.entries, "rules") ==> Get(raw.entries, "rules").List? && RulesOk(Get(raw.entries, "rules").items))
  }

  method CheckRefs(raw: seq<Entry>) returns (problems: seq<Problem>)
    ensures problems == [] <==> RefsOk(raw)
  {
    problems := [];
    if Has(raw, "refs") {
      var refs := Get(raw, "refs");
      if !refs.Null? && !refs.Dict? {
        problems := problems + [RefsShape];
      } else if refs.Dict? {
        var groups := ["vars", "conditions", "actions"];
        for i := 0 to 3
          invariant problems == [] <==> forall k :: 0 <= k < i ==> AbsentOrMapping(refs.entries, groups[k])
        {
          if Has(refs.entries, groups[i]) && !AbsentOrMapping(refs.entries, groups[i]) {
            problems := problems + [RefsGroupShape(groups[i])];
          }
        }
        assert groups[0] == "vars" && groups[1] == "conditions" && groups[2] == "actions";
      }
    }
  }

  method CheckRules(rules: seq<Node>) returns (problems: seq<Problem>)
    ensures problems == [] <==> RulesOk(rules)
  {
    problems := [];
    var seen: set<string> := {};
    for i := 0 to |rules|
      invariant problems == [] <==> RulesOk(rules[..i])
      invariant problems == [] ==> seen == set k | 0 <= k < i :: IdOf(rules[..i][k])
    {
      assert rules[..i + 1] == rules[..i] + [rules[i]];
      assert RulesOk(rules[..i + 1]) ==> forall k :: 0 <= k < i ==> rules[..i][k] == rules[..i + 1][k];
      assert RulesOk(rules[..i + 1]) ==> RulesOk(rules[..i]);
      assert RulesOk(rules[..i + 1]) ==> RuleOk(rules[..i + 1][i]);
      var rule := rules[i];
      if !rule.Dict? {
        problems := problems + [RuleShape(i)];
      } else if !Has(rule.entries, "id") {
        problems := problems + [IdMissing(i)];
      } else if !Get(rule.entries, "id").Str? || Get(rule.entries, "id").s == "" {
        problems := problems + [IdInvalid(i)];
      } else {
        var id := Get(rule.entries, "id").s;
        if id in seen {
          problems := problems + [IdTaken(i)];
        }
        seen := seen + {id};
        if !Has(rule.entries, "conditions") {
          problems := problems + [ConditionsMissing(i)];
        }
        if !Has(rule.entries, "actions") {
          problems := problems + [ActionsMissing(i)];
        }
      }
    }
    assert rules[..|rules|] == rules;
  }

  /** `check_rules_structure`: finds nothing exactly when the document loads. */
  method CheckRulesStructure(raw: Node) returns (problems: seq<Problem>)
    ensures problems == [] <==> Loadable(raw)
  {
    if !raw.Dict? {
      return [NotAMapping];
    }
    problems := CheckRefs(raw.entries);
    if Has(raw.entries, "rules") {
      if !Get(raw.entries, "rules").List? {
        return problems + [RulesShape];
      }
      var more := CheckRules(Get(raw.entries, "rules").items);
      problems := problems + more;
    }
  }
}
