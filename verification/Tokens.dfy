/** Substitution of `${vars.*}` and `${rule.*}` tokens, and the resolution of a whole rule. */
module Tokens {
  import opened Text
  import opened Tree
  import opened Resolver

  /** Namespaces of tokens the engine fills in later, per torrent. */
  const RUNTIME_NAMESPACES: set<string> :=
    {"info", "trackers", "files", "peers", "properties", "webseeds", "transfer", "app", "stats", "tracker"}

  /** Regular expression `\w`; every character outside ASCII counts as a letter here. */
  predicate IsWord(c: char) {
    'a' <= c <= 'z' || 'A' <= c <= 'Z' || '0' <= c <= '9' || c == '_' || c as int >= 128
  }

  // ----- One token -----

  function ResolveVar(rs: Refs, path: string): Result<Node> {
    if '.' !in path || BeforeDot(path) != "vars" then Err(InvalidVariable)
    else if AfterDot(path) !in rs.vars then Err(UnknownVariable)
    else Ok(rs.vars[AfterDot(path)])
  }

  function FieldAt(value: Node, segments: seq<string>): Result<Node>
    decreases |segments|
  {
    if segments == [] then Ok(value)
    else if !value.Dict? || !Has(value.entries, segments[0]) then Err(UnknownRuleField)
    else FieldAt(Get(value.entries, segments[0]), segments[1..])
  }

  function ResolveRuleField(rule: seq<Entry>, path: string): Result<Node> {
    var parts := Split(path, '.');
    if |parts| < 2 || parts[0] != "rule" then Err(InvalidRuleField) else FieldAt(Dict(rule), parts[1..])
  }

  function ResolveToken(rs: Refs, rule: seq<Entry>, path: string): Result<Node> {
    if path == "rule" || "rule." <= path then ResolveRuleField(rule, path) else ResolveVar(rs, path)
  }

  // ----- Tokens in text -----

  /** The longest run of word characters and dots at the front. */
  function Run(s: string): (r: string)
    ensures r <= s
  {
    if s != "" && (IsWord(s[0]) || s[0] == '.') then [s[0]] + Run(s[1..]) else ""
  }

  /** What stands between the braces of a load-time token: `vars` or `rule`, then dotted segments. */
  predicate IsTokenPath(body: string) {
    var parts := Split(body, '.');
    |parts| >= 2 && parts[0] in {"vars", "rule"} && forall i :: 0 <= i < |parts| ==> parts[i] != ""
  }

  /** The token a text starts with, as the pattern for embedded tokens matches it. */
  function TokenAt(s: string): (r: Option<string>)
    ensures r.Some? ==> "${" + r.value + "}" <= s
  {
    if "${" <= s then
      var body := Run(s[2..]);
      if |s| > 2 + |body| && s[2 + |body|] == '}' && IsTokenPath(body) then
        assert s[..3 + |body|] == "${" + body + "}";
        Some(body)
      else None
    else None
  }

  /** Embedded tokens are replaced by their text, left to right. */
  function Interpolate(rs: Refs, rule: seq<Entry>, s: string): Result<string>
    decreases |s|
  {
    if s == "" then Ok("")
    else
      match TokenAt(s)
      case Some(body) =>
        var v :- ResolveToken(rs, rule, body);
        var rest :- Interpolate(rs, rule, s[3 + |body|..]);
        Ok(rs.show(v) + rest)
      case None =>
        var rest :- Interpolate(rs, rule, s[1..]);
        Ok([s[0]] + rest)
  }

  /** How many `${` a text holds. */
  function Opens(s: string): nat {
    if s == "" then 0 else (if "${" <= s then 1 else 0) + Opens(s[1..])
  }

  /** A text that is one token keeps the type of the token's value; other texts are interpolated. */
  function SubstituteText(rs: Refs, rule: seq<Entry>, s: string): Result<Node> {
    if "${" <= s && s[|s| - 1] == '}' && Opens(s) == 1 then
      var path := s[2..|s| - 1];
      if BeforeDot(path) in RUNTIME_NAMESPACES then Ok(Str(s)) else ResolveToken(rs, rule, path)
    else
      var t :- Interpolate(rs, rule, s);
      Ok(Str(t))
  }

  // ----- Tokens in trees -----

  function Substitute(rs: Refs, rule: seq<Entry>, node: Node): Result<Node>
    decreases node
  {
    match node
    case Dict(es) =>
      var es' :- SubstituteEntries(rs, rule, es);
      Ok(Dict(es'))
    case List(items) =>
      var items' :- SubstituteItems(rs, rule, items);
      Ok(List(items'))
    case Str(s) => SubstituteText(rs, rule, s)
    case _ => Ok(node)
  }

  function SubstituteEntries(rs: Refs, rule: seq<Entry>, es: seq<Entry>): (r: Result<seq<Entry>>)
    ensures r.Ok? ==> |r.value| == |es| && forall i :: 0 <= i < |es| ==> r.value[i].key == es[i].key
    decreases es
  {
    if es == [] then Ok([])
    else
      var v :- Substitute(rs, rule, es[0].value);
      var rest :- SubstituteEntries(rs, rule, es[1..]);
      Ok([Entry(es[0].key, v)] + rest)
  }

  function SubstituteItems(rs: Refs, rule: seq<Entry>, items: seq<Node>): (r: Result<seq<Node>>)
    ensures r.Ok? ==> |r.value| == |items|
    decreases items
  {
    if items == [] then Ok([])
    else
      var v :- Substitute(rs, rule, items[0]);
      var rest :- SubstituteItems(rs, rule, items[1..]);
      Ok([v] + rest)
  }

  // ----- Whole rules -----

  /** A field of the rule, expanded; a rule without the field has nothing to expand. */
  function ExpandField(rs: Refs, rule: seq<Entry>, key: string, allowed: set<string>): Result<Node> {
    if Has(rule, key) then Expand(rs, Get(rule, key), {}, allowed) else Ok(Null)
  }

  function ExpandOthers(rs: Refs, rule: seq<Entry>, conditions: Node, actions: Node): (r: Result<seq<Entry>>)
    ensures r.Ok? ==> |r.value| == |rule| && forall i :: 0 <= i < |rule| ==> r.value[i].key == rule[i].key
  {
    if rule == [] then Ok([])
    else
      var e := rule[0];
      var v :- if e.key == "conditions" then Ok(conditions)
               else if e.key == "actions" then Ok(actions)
               else if e.key == "id" then Ok(e.value)
               else Expand(rs, e.value, {}, ALL_GROUPS);
      var rest :- ExpandOthers(rs, rule[1..], conditions, actions);
      Ok([Entry(e.key, v)] + rest)
  }

  /** `resolve_rule`: conditions and actions expand with their own kind of reference, the rest with any. */
  function ResolveRule(rs: Refs, rule: seq<Entry>): Result<seq<Entry>> {
    var conditions :- ExpandField(rs, rule, "conditions", {"conditions"});
    var actions :- ExpandField(rs, rule, "actions", {"actions"});
    var fields :- ExpandOthers(rs, rule, conditions, actions);
    SubstituteEntries(rs, rule, fields)
  }

  /** One field of a rule, resolved on its own. */
  function Resolve(rs: Refs, rule: seq<Entry>, node: Node, allowed: set<string>): Result<Node> {
    var e :- Expand(rs, node, {}, allowed);
    Substitute(rs, rule, e)
  }

  lemma {:induction false} GetSubstituted(rs: Refs, rule: seq<Entry>, es: seq<Entry>, key: string)
    requires SubstituteEntries(rs, rule, es).Ok?
    ensures var r := SubstituteEntries(rs, rule, es).value;
      && Has(r, key) == Has(es, key)
      && (Has(es, key) ==> Substitute(rs, rule, Get(es, key)) == Ok(Get(r, key)))
  {
    if es != [] {
      GetSubstituted(rs, rule, es[1..], key);
      assert SubstituteEntries(rs, rule, es).value[1..] == SubstituteEntries(rs, rule, es[1..]).value;
    }
  }

  lemma {:induction false} GetOthers(rs: Refs, rule: seq<Entry>, conditions: Node, actions: Node, key: string)
    requires ExpandOthers(rs, rule, conditions, actions).Ok?
    ensures var r := ExpandOthers(rs, rule, conditions, actions).value;
      && Has(r, key) == Has(rule, key)
      && (Has(rule, key) ==>
        match key
        case "conditions" => Get(r, key) == conditions
        case "actions" => Get(r, key) == actions
        case "id" => Get(r, key) == Get(rule, key)
        case _ => Expand(rs, Get(rule, key), {}, ALL_GROUPS) == Ok(Get(r, key)))
  {
    if rule != [] {
      GetOthers(rs, rule[1..], conditions, actions, key);
      assert ExpandOthers(rs, rule, conditions, actions).value[1..] ==
             ExpandOthers(rs, rule[1..], conditions, actions).value;
    }
  }

  /** A resolved rule keeps its keys; its conditions and actions are resolved with their own kind of reference. */
  lemma ResolveRuleParts(rs: Refs, rule: seq<Entry>)
    requires ResolveRule(rs, rule).Ok?
    ensures var r := ResolveRule(rs, rule).value;
      && (forall key :: Has(r, key) == Has(rule, key))
      && (Has(rule, "conditions") ==>
            Resolve(rs, rule, Get(rule, "conditions"), {"conditions"}) == Ok(Get(r, "conditions")))
      && (Has(rule, "actions") ==>
            Resolve(rs, rule, Get(rule, "actions"), {"actions"}) == Ok(Get(r, "actions")))
  {
    var conditions := ExpandField(rs, rule, "conditions", {"conditions"}).value;
    var actions := ExpandField(rs, rule, "actions", {"actions"}).value;
    var fields := ExpandOthers(rs, rule, conditions, actions).value;
    forall key ensures Has(ResolveRule(rs, rule).value, key) == Has(rule, key) {
      GetOthers(rs, rule, conditions, actions, key);
      GetSubstituted(rs, rule, fields, key);
    }
    GetOthers(rs, rule, conditions, actions, "conditions");
    GetSubstituted(rs, rule, fields, "conditions");
    GetOthers(rs, rule, conditions, actions, "actions");
    GetSubstituted(rs, rule, fields, "actions");
  }

  // ----- What substitution means -----

  /** A text in front of another that was interpolated. */
  function InFront(head: string, r: Result<string>): Result<string> {
    match r case Ok(t) => Ok(head + t) case Err(e) => Err(e)
  }

  lemma InFrontOf(c: char, head: string, r: Result<string>)
    ensures InFront([c], InFront(head, r)) == InFront([c] + head, r)
    ensures InFront("", r) == r
  {
    if r.Ok? {
      assert [c] + (head + r.value) == ([c] + head) + r.value;
      assert "" + r.value == r.value;
    }
  }

  lemma InterpolateChar(rs: Refs, rule: seq<Entry>, c: char, s: string)
    requires c != '$'
    ensures Interpolate(rs, rule, [c] + s) == InFront([c], Interpolate(rs, rule, s))
  {
    var t := [c] + s;
    assert t[0] == c && t[1..] == s && TokenAt(t) == None;
  }

  /** Text before the first `$` stays. */
  lemma {:induction false} InterpolatePrefix(rs: Refs, rule: seq<Entry>, head: string, s: string)
    requires '$' !in head
    ensures Interpolate(rs, rule, head + s) == InFront(head, Interpolate(rs, rule, s))
    decreases |head|
  {
    var r := Interpolate(rs, rule, s);
    if head == "" {
      assert head + s == s;
      InFrontOf(' ', "", r);
    } else {
      var rest := head[1..];
      assert head[0] in head && head == [head[0]] + rest;
      assert [head[0]] + (rest + s) == head + s;
      InterpolatePrefix(rs, rule, rest, s);
      InterpolateMore(rs, rule, head[0], rest, s, head + s, r);
    }
  }

  lemma InterpolateMore(rs: Refs, rule: seq<Entry>, c: char, rest: string, s: string, whole: string, r: Result<string>)
    requires c != '$' && whole == [c] + (rest + s) && Interpolate(rs, rule, rest + s) == InFront(rest, r)
    ensures Interpolate(rs, rule, whole) == InFront([c] + rest, r)
  {
    InterpolateChar(rs, rule, c, rest + s);
    InFrontOf(c, rest, r);
  }

  lemma {:induction false} RunIs(body: string, rest: string)
    requires (forall c <- body :: IsWord(c) || c == '.') && "}" <= rest
    ensures Run(body + rest) == body
  {
    if body != "" {
      assert (body + rest)[1..] == body[1..] + rest;
      assert body[0] in body;
      RunIs(body[1..], rest);
    } else {
      assert body + rest == rest;
    }
  }

  /** The first embedded token is replaced by its value's text. */
  lemma EmbeddedToken(rs: Refs, rule: seq<Entry>, head: string, body: string, rest: string)
    requires '$' !in head && IsTokenPath(body) && (forall c <- body :: IsWord(c) || c == '.')
    requires ResolveToken(rs, rule, body).Ok?
    ensures Interpolate(rs, rule, head + ("${" + body + "}" + rest)) ==
            match Interpolate(rs, rule, rest)
            case Ok(t) => Ok(head + (rs.show(ResolveToken(rs, rule, body).value) + t))
            case Err(e) => Err(e)
  {
    var s := "${" + body + "}" + rest;
    assert s[2..] == body + ("}" + rest);
    RunIs(body, "}" + rest);
    assert s[3 + |body|..] == rest;
    InterpolatePrefix(rs, rule, head, s);
  }

  /** Text without a load-time token, such as one with runtime tokens only, passes through. */
  lemma {:induction false} OtherTextStays(rs: Refs, rule: seq<Entry>, s: string)
    requires forall i :: 0 <= i < |s| ==> TokenAt(s[i..]) == None
    ensures Interpolate(rs, rule, s) == Ok(s)
  {
    if s != "" {
      assert s[0..] == s;
      forall i | 0 <= i < |s[1..]| ensures TokenAt(s[1..][i..]) == None {
        assert s[1..][i..] == s[i + 1..];
      }
      OtherTextStays(rs, rule, s[1..]);
      assert [s[0]] + s[1..] == s;
    }
  }

  lemma {:induction false} NoDollarNoToken(s: string)
    requires '$' !in s
    ensures Opens(s) == 0
  {
    if s != "" {
      assert s[0] in s && s[0] != '$';
      NoDollarNoToken(s[1..]);
    }
  }

  /** Text without a `$` stays text. */
  lemma PlainTextStays(rs: Refs, rule: seq<Entry>, s: string)
    requires '$' !in s
    ensures SubstituteText(rs, rule, s) == Ok(Str(s))
  {
    InterpolatePrefix(rs, rule, s, "");
    assert s + "" == s;
    NoOpening(s);
  }

  lemma NoOpening(s: string)
    requires '$' !in s
    ensures !("${" <= s)
  {
    assert s != "" ==> s[0] in s;
  }

  /** A text that is one load-time token becomes the value itself, whatever its type. */
  lemma WholeToken(rs: Refs, rule: seq<Entry>, path: string)
    requires '$' !in path && BeforeDot(path) !in RUNTIME_NAMESPACES
    ensures SubstituteText(rs, rule, "${" + path + "}") == ResolveToken(rs, rule, path)
  {
    WholeTokenOpens(path);
    var s := "${" + path + "}";
    assert s[2..|s| - 1] == path;
  }

  lemma WholeTokenOpens(path: string)
    requires '$' !in path
    ensures Opens("${" + path + "}") == 1
  {
    var s := "${" + path + "}";
    assert s[1..] == "{" + path + "}";
    assert '$' !in "{" + path + "}";
    NoDollarNoToken("{" + path + "}");
  }

  /** A text that is one runtime token is left for the engine. */
  lemma RuntimeTokenStays(rs: Refs, rule: seq<Entry>, path: string)
    requires '$' !in path && BeforeDot(path) in RUNTIME_NAMESPACES
    ensures SubstituteText(rs, rule, "${" + path + "}") == Ok(Str("${" + path + "}"))
  {
    WholeTokenOpens(path);
    var s := "${" + path + "}";
    assert s[2..|s| - 1] == path;
  }
}
