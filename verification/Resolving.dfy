/** What references and tokens stand for, said of the tables and the rule they are looked up in. */
module Resolving {
  import opened Text
  import opened Tree
  import opened Resolver
  import opened Tokens
  import opened BareRefs

  // ----- References -----

  /** A reference stands for the block of that name in its group, with the reference on the stack. */
  lemma ReferenceMeans(rs: Refs, group: string, name: string, stack: set<string>, allowed: set<string>)
    requires group in {"conditions", "actions"} && '.' !in group
    ensures var path := group + "." + name;
            var table := if group == "conditions" then rs.conditions else rs.actions;
            Expand(rs, RefTo(path), stack, allowed) ==
            if group !in allowed then Err(RefTypeMismatch)
            else if path in stack then Err(CircularRef)
            else if name !in table then Err(UnknownRef)
            else Expand(rs, table[name], stack + {path}, allowed)
  {
    var path := group + "." + name;
    RefToIs(path, []);
    DotParts(group, name);
    assert path[|group|] == '.';
    assert BeforeDot(path) == group && AfterDot(path) == name && '.' in path;
  }

  /** Sequences one after the other. */
  function Flatten(parts: seq<seq<Node>>): seq<Node> {
    if parts == [] then [] else parts[0] + Flatten(parts[1..])
  }

  /** What one item of a list becomes: a reference to a list its items, anything else its own expansion. */
  function Part(rs: Refs, item: Node, stack: set<string>, allowed: set<string>): seq<Node>
    requires Expand(rs, item, stack, allowed).Ok?
  {
    var e := Expand(rs, item, stack, allowed).value;
    if e.List? && item.Dict? && Has(item.entries, "$ref") then e.items else [e]
  }

  ghost predicate AllExpand(rs: Refs, items: seq<Node>, stack: set<string>, allowed: set<string>) {
    forall i :: 0 <= i < |items| ==> Expand(rs, items[i], stack, allowed).Ok?
  }

  function Parts(rs: Refs, items: seq<Node>, stack: set<string>, allowed: set<string>): seq<seq<Node>>
    requires AllExpand(rs, items, stack, allowed)
  {
    seq(|items|, i requires 0 <= i < |items| => Part(rs, items[i], stack, allowed))
  }

  /** A list expands exactly if its items do, to their parts in order, each once. */
  lemma {:induction false} ListMeans(rs: Refs, items: seq<Node>, stack: set<string>, allowed: set<string>)
    ensures ExpandItems(rs, items, stack, allowed).Ok? <==> AllExpand(rs, items, stack, allowed)
    ensures AllExpand(rs, items, stack, allowed) ==>
              ExpandItems(rs, items, stack, allowed) == Ok(Flatten(Parts(rs, items, stack, allowed)))
    decreases |items|
  {
    if items != [] {
      var rest := items[1..];
      ListMeans(rs, rest, stack, allowed);
      assert AllExpand(rs, items, stack, allowed) <==>
             Expand(rs, items[0], stack, allowed).Ok? && AllExpand(rs, rest, stack, allowed) by {
        assert items == [items[0]] + rest;
      }
      if AllExpand(rs, items, stack, allowed) {
        assert Parts(rs, items, stack, allowed)[1..] == Parts(rs, rest, stack, allowed);
        assert Parts(rs, items, stack, allowed)[0] == Part(rs, items[0], stack, allowed);
      }
    }
  }

  // ----- Variables -----

  /** A text that is a variable token is the variable's value, of whatever type. */
  lemma VariableMeans(rs: Refs, rule: seq<Entry>, n: string)
    requires '$' !in n
    ensures SubstituteText(rs, rule, "${" + ("vars" + "." + n) + "}")
            == if n in rs.vars then Ok(rs.vars[n]) else Err(UnknownVariable)
  {
    var path := "vars" + "." + n;
    VariableToken(rs, rule, "vars", n);
    WholeToken(rs, rule, path);
  }

  lemma VariableToken(rs: Refs, rule: seq<Entry>, vars: string, n: string)
    requires vars == "vars"
    ensures var path := vars + "." + n;
            && BeforeDot(path) == vars && vars !in RUNTIME_NAMESPACES
            && ResolveToken(rs, rule, path) == (if n in rs.vars then Ok(rs.vars[n]) else Err(UnknownVariable))
            && ('$' in path <==> '$' in n)
  {
    DotParts(vars, n);
    var path := vars + "." + n;
    assert path[0] == 'v' && path[4] == '.';
    assert path == vars + "." + n && '$' !in vars && '$' !in ".";
  }

  /** The values met when following keys from a mapping. */
  ghost predicate Follows(vs: seq<Node>, keys: seq<string>) {
    && |vs| == |keys| + 1
    && forall i :: 0 <= i < |keys| ==>
         vs[i].Dict? && Has(vs[i].entries, keys[i]) && vs[i + 1] == Get(vs[i].entries, keys[i])
  }

  lemma {:induction false} FieldAtMeans(value: Node, keys: seq<string>)
    ensures forall vs :: Follows(vs, keys) && vs[0] == value ==> FieldAt(value, keys) == Ok(vs[|keys|])
    ensures FieldAt(value, keys).Ok? ==> exists vs :: Follows(vs, keys) && vs[0] == value
    ensures FieldAt(value, keys).Err? ==> FieldAt(value, keys) == Err(UnknownRuleField)
    decreases |keys|
  {
    if keys == [] {
      assert Follows([value], keys);
    } else if value.Dict? && Has(value.entries, keys[0]) {
      var next := Get(value.entries, keys[0]);
      FieldAtMeans(next, keys[1..]);
      forall vs | Follows(vs, keys) && vs[0] == value ensures FieldAt(value, keys) == Ok(vs[|keys|]) {
        FollowsTail(vs, keys);
      }
      if FieldAt(value, keys).Ok? {
        var vs :| Follows(vs, keys[1..]) && vs[0] == next;
        FollowsCons(value, vs, keys);
      }
    }
  }

  lemma FollowsTail(vs: seq<Node>, keys: seq<string>)
    requires Follows(vs, keys) && keys != []
    ensures Follows(vs[1..], keys[1..]) && vs[1..][0] == Get(vs[0].entries, keys[0]) && vs[1..][|keys| - 1] == vs[|keys|]
  {
  }

  lemma FollowsCons(value: Node, vs: seq<Node>, keys: seq<string>)
    requires keys != [] && Follows(vs, keys[1..]) && value.Dict? && Has(value.entries, keys[0])
    requires vs[0] == Get(value.entries, keys[0])
    ensures Follows([value] + vs, keys) && ([value] + vs)[0] == value
  {
  }

  /** The keys of a rule token. */
  predicate Keys(keys: seq<string>) {
    keys != [] && forall i :: 0 <= i < |keys| ==> '.' !in keys[i] && '$' !in keys[i]
  }

  lemma {:induction false} NoDollarJoined(keys: seq<string>)
    requires forall i :: 0 <= i < |keys| ==> '$' !in keys[i]
    ensures '$' !in Join(keys, '.')
  {
    if |keys| > 1 {
      NoDollarJoined(keys[1..]);
    }
  }

  /**
   * A text that is a rule token is the value its keys lead to in the rule as written; if they lead
   * nowhere, the field is unknown.
   */
  lemma RuleFieldMeans(rs: Refs, rule: seq<Entry>, keys: seq<string>)
    requires Keys(keys)
    ensures var r := SubstituteText(rs, rule, "${" + ("rule" + "." + Join(keys, '.')) + "}");
            && (forall vs :: Follows(vs, keys) && vs[0] == Dict(rule) ==> r == Ok(vs[|keys|]))
            && ((forall vs :: Follows(vs, keys) ==> vs[0] != Dict(rule)) ==> r == Err(UnknownRuleField))
  {
    var path := "rule" + "." + Join(keys, '.');
    RuleToken(rs, rule, "rule", keys);
    WholeToken(rs, rule, path);
    FieldAtMeans(Dict(rule), keys);
  }

  lemma RuleToken(rs: Refs, rule: seq<Entry>, head: string, keys: seq<string>)
    requires head == "rule" && Keys(keys)
    ensures var path := head + "." + Join(keys, '.');
            && '$' !in path && BeforeDot(path) == head && head !in RUNTIME_NAMESPACES
            && ResolveToken(rs, rule, path) == FieldAt(Dict(rule), keys)
  {
    var path := head + "." + Join(keys, '.');
    DotParts(head, Join(keys, '.'));
    NoDollarJoined(keys);
    var parts := [head] + keys;
    assert parts[1..] == keys;
    SplitJoin(parts, '.');
    assert Join(parts, '.') == path;
    assert "rule." <= path by {
      assert path[..5] == "rule.";
    }
  }

  // ----- Variables inside longer texts -----

  /** A name the pattern of embedded tokens takes whole. */
  predicate WordName(n: string) { n != "" && forall c <- n :: IsWord(c) }

  lemma WordToken(vars: string, n: string)
    requires vars == "vars" && WordName(n)
    ensures IsTokenPath(vars + "." + n) && forall c <- vars + "." + n :: IsWord(c) || c == '.'
  {
    assert '.' !in n && '.' !in vars;
    SplitAppend(vars, n, '.');
    SplitPlain(n, '.');
    assert Split(vars + "." + n, '.') == [vars, n];
  }

  /** The text of a token inside a longer text. */
  function Around(head: string, n: string, tail: string): string {
    head + ("${" + ("vars" + "." + n) + "}" + tail)
  }

  /** The text starts with the token and ends with a brace. */
  predicate LooksWhole(head: string, tail: string) { head == "" && (tail == "" || tail[|tail| - 1] == '}') }

  /** Inside a longer text the token is replaced by the text of the variable's value. */
  lemma EmbeddedMeans(rs: Refs, rule: seq<Entry>, head: string, n: string, tail: string)
    requires '$' !in head && '$' !in tail && WordName(n) && n in rs.vars && !LooksWhole(head, tail)
    ensures SubstituteText(rs, rule, Around(head, n, tail)) == Ok(Str(head + (rs.show(rs.vars[n]) + tail)))
  {
    VariableToken(rs, rule, "vars", n);
    WordToken("vars", n);
    EmbeddedToken(rs, rule, head, "vars" + "." + n, tail);
    InterpolatePrefix(rs, rule, tail, "");
    assert tail + "" == tail;
    NotWhole(head, n, tail);
  }

  lemma NotWhole(head: string, n: string, tail: string)
    requires '$' !in head && !LooksWhole(head, tail)
    ensures var s := Around(head, n, tail); s != "" && !("${" <= s && s[|s| - 1] == '}')
  {
    var s := Around(head, n, tail);
    if head != "" {
      assert s[0] == head[0] && head[0] in head;
    } else {
      assert s[|s| - 1] == tail[|tail| - 1];
    }
  }

  /**
   * A text that starts with a variable token and ends with another brace is taken for one token, whose
   * name runs up to that brace; unless a variable has that name, the rule does not resolve.
   */
  lemma TrailingBraceMisread(rs: Refs, rule: seq<Entry>, n: string, tail: string)
    requires '$' !in n && '$' !in tail
    ensures var name := n + "}" + tail;
            SubstituteText(rs, rule, Around("", n, tail + "}")) ==
            if name in rs.vars then Ok(rs.vars[name]) else Err(UnknownVariable)
  {
    var name := n + "}" + tail;
    var s := "${" + ("vars" + "." + name) + "}";
    VariableMeans(rs, rule, name);
    assert "" + ("${" + ("vars" + "." + n) + "}" + (tail + "}")) == s;
    assert Around("", n, tail + "}") == s;
  }

  // ----- A whole rule -----

  function Comparison(field: string, op: string, v: Node): Node {
    Dict([Entry("field", Str(field)), Entry("operator", Str(op)), Entry("value", v)])
  }

  /** A rule with one comparison whose value is a variable resolves to the comparison with the variable's value. */
  lemma VariableInRule(rs: Refs, id: string, field: string, op: string, n: string)
    requires n in rs.vars && '$' !in n && '$' !in id && '$' !in field && '$' !in op
    ensures ResolveRule(rs, RuleWith(id, List([Comparison(field, op, Str("${" + ("vars" + "." + n) + "}"))]), List([])))
            == Ok(RuleWith(id, List([Comparison(field, op, rs.vars[n])]), List([])))
  {
    var token := Str("${" + ("vars" + "." + n) + "}");
    var c, c' := List([Comparison(field, op, token)]), List([Comparison(field, op, rs.vars[n])]);
    var rule := RuleWith(id, c, List([]));
    ComparisonExpands(rs, field, op, token);
    RuleKeys(id, c, List([]));
    OthersExpanded(rs, id, c, List([]), c, List([]));
    ComparisonSubstituted(rs, rule, field, op, token, rs.vars[n], n);
    RuleSubstituted(rs, rule, id, c, c', List([]));
  }

  lemma ComparisonExpands(rs: Refs, field: string, op: string, v: Node)
    requires v.Str?
    ensures var c := List([Comparison(field, op, v)]); Expand(rs, c, {}, {"conditions"}) == Ok(c)
    ensures Expand(rs, List([]), {}, {"actions"}) == Ok(List([]))
  {
    ThreeKeys(Entry("field", Str(field)), Entry("operator", Str(op)), Entry("value", v));
    ExpandRefFree(rs, List([Comparison(field, op, v)]), {}, {"conditions"});
  }

  lemma ComparisonSubstituted(rs: Refs, rule: seq<Entry>, field: string, op: string, token: Node, v: Node, n: string)
    requires '$' !in field && '$' !in op && '$' !in n && n in rs.vars && v == rs.vars[n]
    requires token == Str("${" + ("vars" + "." + n) + "}")
    ensures Substitute(rs, rule, List([Comparison(field, op, token)])) == Ok(List([Comparison(field, op, v)]))
  {
    PlainTextStays(rs, rule, field);
    PlainTextStays(rs, rule, op);
    VariableMeans(rs, rule, n);
    ThreeSubstituted(rs, rule, Entry("field", Str(field)), Entry("operator", Str(op)), Entry("value", token), v);
    OneSubstituted(rs, rule, Comparison(field, op, token), Comparison(field, op, v));
  }

  lemma ThreeSubstituted(rs: Refs, rule: seq<Entry>, f: Entry, o: Entry, t: Entry, v: Node)
    requires Substitute(rs, rule, f.value) == Ok(f.value) && Substitute(rs, rule, o.value) == Ok(o.value)
    requires Substitute(rs, rule, t.value) == Ok(v)
    ensures SubstituteEntries(rs, rule, [f, o, t]) == Ok([f, o, Entry(t.key, v)])
  {
    assert [t][1..] == [] && [o, t][1..] == [t] && [f, o, t][1..] == [o, t];
    assert SubstituteEntries(rs, rule, [t]) == Ok([Entry(t.key, v)] + []);
    assert SubstituteEntries(rs, rule, [o, t]) == Ok([o] + ([Entry(t.key, v)] + []));
    assert [f] + ([o] + ([Entry(t.key, v)] + [])) == [f, o, Entry(t.key, v)];
  }

  lemma OneSubstituted(rs: Refs, rule: seq<Entry>, before: Node, after: Node)
    requires Substitute(rs, rule, before) == Ok(after)
    ensures Substitute(rs, rule, List([before])) == Ok(List([after]))
  {
    assert [before][1..] == [] && SubstituteItems(rs, rule, []) == Ok([]);
    assert SubstituteItems(rs, rule, [before]) == Ok([after] + []);
    assert [after] + [] == [after];
  }

  lemma RuleSubstituted(rs: Refs, rule: seq<Entry>, id: string, c: Node, c': Node, a: Node)
    requires '$' !in id && Substitute(rs, rule, c) == Ok(c') && NoToken(a)
    ensures SubstituteEntries(rs, rule, RuleWith(id, c, a)) == Ok(RuleWith(id, c', a))
  {
    var e, f, g := Entry("id", Str(id)), Entry("conditions", c), Entry("actions", a);
    PlainTextStays(rs, rule, id);
    PlainTreeStays(rs, rule, a);
    assert [g][1..] == [] && [f, g][1..] == [g] && [e, f, g][1..] == [f, g];
    assert SubstituteEntries(rs, rule, [g]) == Ok([g] + []);
    assert SubstituteEntries(rs, rule, [f, g]) == Ok([Entry("conditions", c')] + ([g] + []));
    assert [e] + ([Entry("conditions", c')] + ([g] + [])) == RuleWith(id, c', a);
  }
}
