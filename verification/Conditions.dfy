/** The condition evaluator: all/any/none groups over field comparisons, with a third outcome. */
module Conditions {
  import opened Tree

  /** What goes wrong when a rule is not written as the evaluator expects, or its data cannot be read. */
  datatype Fault =
    | NotACondition    // something else where a mapping or list of conditions belongs
    | MissingKey       // a comparison without field, operator or value
    | BadField         // a field without a namespace
    | UnknownEndpoint
    | UnknownTrackerField
    | UnknownOperator
    | NoTrackie        // tracker.* without the integration
    | ApiFault
    | DataFault        // values the operator cannot compare

  /** How evaluating a condition ends: a verdict, data that is not there yet, or an exception. */
  datatype Outcome = Verdict(pass: bool) | NotReady | Raised(fault: Fault)

  /** What a service answers for a property. */
  datatype Answer = Got(v: Node) | NotYet | Broken

  /** A field's value, or how asking for it ended the evaluation. */
  datatype Fetched = Value(v: Node) | Ended(outcome: Outcome)

  /** What the evaluator sees of a torrent and of the services: answers and library functions. */
  datatype World = World(
    read: (string, string) -> Answer,         // endpoint and property
    trackie: bool,                            // whether the integration is configured
    eq: (Node, Node) -> bool,
    show: Node -> string,
    regex: (string, string) -> Option<bool>,  // pattern and text; None when it does not compile
    compare: (string, Node, Node) -> bool,    // numeric comparison, false for what is not numeric
    scale: (string, Node, Node) -> Option<bool>)  // sizes and ages; None when the value is no integer

  const NAMESPACES: set<string> :=
    {"info", "trackers", "files", "peers", "properties", "webseeds", "transfer", "app", "stats", "tracker"}

  const TRACKER_FIELDS: set<string> := {
    "status", "remaining", "seed_time", "uploaded", "downloaded", "ratio", "gap", "hnr_seed_time", "name", "id",
    "tracker", "match", "match_source", "on_peers", "on_hnr", "age",
    "account.ratio", "account.min_ratio", "account.uploaded", "account.downloaded", "account.bonus",
    "account.seeding", "account.leeching", "account.hnr_count", "account.hnr_limit", "account.hnr_grace",
    "account.ratio_ok", "account.age"}

  const NUMERIC: set<string> := {">", "<", ">=", "<="}
  const SCALES: set<string> := {"smaller_than", "larger_than", "older_than", "newer_than"}
  const NEGATIONS: set<string> := {"!=", "not_in", "not_contains"}

  // ----- Fields -----

  /** `_get_field_value`: the namespace picks the endpoint. */
  function GetField(w: World, field: Node): Fetched {
    if !field.Str? then Ended(Raised(DataFault))
    else if '.' !in field.s then Ended(Raised(BadField))
    else
      var endpoint, name := BeforeDot(field.s), AfterDot(field.s);
      if endpoint !in NAMESPACES then Ended(Raised(UnknownEndpoint))
      else if endpoint == "tracker" && !w.trackie then Ended(Raised(NoTrackie))
      else if endpoint == "tracker" && name !in TRACKER_FIELDS then Ended(Raised(UnknownTrackerField))
      else
        match w.read(endpoint, name)
        case Got(v) => Value(v)
        case NotYet => Ended(NotReady)
        case Broken => Ended(Raised(ApiFault))
  }

  // ----- Operators -----

  function FromOption(r: Option<bool>): Outcome {
    match r case Some(b) => Verdict(b) case None => Raised(DataFault)
  }

  /** Whether the text of `actual` holds the expected text, or one of the expected list's. */
  function TextContains(w: World, actual: Node, expected: Node): Outcome {
    match expected
    case List(items) => Verdict(exists item <- items :: Contains(w.show(actual), w.show(item)))
    case Str(s) => Verdict(Contains(w.show(actual), s))
    case _ => Raised(DataFault)
  }

  function OneOf(w: World, actual: Node, expected: Node): bool {
    match expected
    case List(items) => exists item <- items :: w.eq(actual, item)
    case _ => w.eq(actual, expected)
  }

  function Not(r: Outcome): Outcome {
    if r.Verdict? then Verdict(!r.pass) else r
  }

  function IsNegation(operator: Node): bool { operator.Str? && operator.s in NEGATIONS }

  /** `_apply_operator`: negations must hold of every item of a list, other operators of one. */
  function Apply(w: World, actual: Node, operator: Node, expected: Node): Outcome
    decreases actual
  {
    match actual
    case Null => Verdict(IsNegation(operator))
    case List(items) => if items == [] then Verdict(IsNegation(operator)) else ApplyItems(w, items, operator, expected)
    case _ => ApplyScalar(w, actual, operator, expected)
  }

  /** `all(...)` for negations and `any(...)` otherwise, stopping at the first item that decides. */
  function ApplyItems(w: World, items: seq<Node>, operator: Node, expected: Node): Outcome
    decreases items
  {
    if items == [] then Verdict(IsNegation(operator))
    else
      var r := Apply(w, items[0], operator, expected);
      if r == Verdict(IsNegation(operator)) then ApplyItems(w, items[1..], operator, expected) else r
  }

  function ApplyScalar(w: World, actual: Node, operator: Node, expected: Node): Outcome {
    if !operator.Str? then Raised(UnknownOperator)
    else
      match operator.s
      case "==" => Verdict(w.eq(actual, expected))
      case "!=" => Verdict(!w.eq(actual, expected))
      case "contains" => TextContains(w, actual, expected)
      case "not_contains" => Not(TextContains(w, actual, expected))
      case "matches" => FromOption(w.regex(w.show(expected), w.show(actual)))
      case "in" => Verdict(OneOf(w, actual, expected))
      case "not_in" => Verdict(!OneOf(w, actual, expected))
      case op =>
        if op in NUMERIC then Verdict(w.compare(op, actual, expected))
        else if op in SCALES then FromOption(w.scale(op, actual, expected))
        else Raised(UnknownOperator)
  }

  // ----- Groups -----

  predicate HasGroup(es: seq<Entry>) {
    Has(es, "all") || Has(es, "any") || Has(es, "none")
  }

  function Field(es: seq<Entry>, key: string): Option<Node> {
    if Has(es, key) then Some(Get(es, key)) else None
  }

  /** A comparison of one field. */
  function Compare(w: World, field: Option<Node>, operator: Option<Node>, value: Option<Node>): Outcome {
    if field.None? || operator.None? || value.None? then Raised(MissingKey)
    else
      match GetField(w, field.value)
      case Value(actual) => Apply(w, actual, operator.value, value.value)
      case Ended(outcome) => outcome
  }

  /** `_evaluate_condition`. */
  function EvalCondition(w: World, c: Node): Outcome
    decreases c
  {
    match c
    case Dict(es) =>
      if HasGroup(es) then EvalGroups(w, es)
      else Compare(w, Field(es, "field"), Field(es, "operator"), Field(es, "value"))
    case _ => Raised(NotACondition)
  }

  /** Every group present must pass; later groups are not looked at once one fails. */
  function EvalGroups(w: World, es: seq<Entry>): Outcome
    decreases es, 1
  {
    Then(if Has(es, "all") then EvalGroup(w, es, "all", true) else Verdict(true),
    Then(if Has(es, "any") then EvalGroup(w, es, "any", false) else Verdict(true),
         if Has(es, "none") then Not(EvalGroup(w, es, "none", false)) else Verdict(true)))
  }

  /** `first and second`. */
  function Then(first: Outcome, second: Outcome): Outcome {
    if first == Verdict(true) then second else first
  }

  function EvalGroup(w: World, es: seq<Entry>, key: string, stop: bool): Outcome
    requires Has(es, key)
    decreases es, 0
  {
    if es[0].key == key then EvalIterable(w, stop, es[0].value) else EvalGroup(w, es[1..], key, stop)
  }

  /** Iterating over a group: a list's items; a mapping's keys and a text's characters are no conditions. */
  function EvalIterable(w: World, neutral: bool, v: Node): Outcome
    decreases v
  {
    match v
    case List(items) => EvalItems(w, neutral, items)
    case Dict(es) => if es == [] then Verdict(neutral) else Raised(NotACondition)
    case Str(s) => if s == "" then Verdict(neutral) else Raised(NotACondition)
    case _ => Raised(NotACondition)
  }

  /** `all(...)` when true is neutral, `any(...)` when false is: stops at the first other outcome. */
  function EvalItems(w: World, neutral: bool, items: seq<Node>): Outcome
    decreases items
  {
    if items == [] then Verdict(neutral)
    else
      var r := EvalCondition(w, items[0]);
      if r == Verdict(neutral) then EvalItems(w, neutral, items[1..]) else r
  }

  /** A rule's whole `conditions`: a list is an implicit `all`. */
  function EvalTop(w: World, c: Node): Outcome {
    match c
    case List(items) => EvalItems(w, true, items)
    case Dict(es) => EvalGroups(w, es)
    case Str(s) =>
      if Contains(s, "all") || Contains(s, "any") || Contains(s, "none") then Raised(NotACondition) else Verdict(true)
    case _ => Raised(NotACondition)
  }

  /** A rule's `context` admits the context of the run. */
  predicate ContextAdmits(eq: (Node, Node) -> bool, current: Node, required: Node) {
    required.Null? ||
    (!current.Null? && match required case List(items) => (exists c <- items :: eq(current, c)) case _ => eq(current, required))
  }

  /** `evaluate`: anything but a passing verdict is no match. */
  predicate Matches(w: World, conditions: Node, current: Node, required: Node) {
    ContextAdmits(w.eq, current, required) && EvalTop(w, conditions) == Verdict(true)
  }

  // ----- Missing data -----

  /** `w'` knows all that `w` knows, and perhaps what `w` does not know yet. */
  ghost predicate Fills(w: World, w': World) {
    && w' == w.(read := w'.read)
    && forall e, p :: w.read(e, p) == NotYet || w'.read(e, p) == w.read(e, p)
  }

  /** Data that arrives later never changes an outcome that did not wait for it. */
  ghost predicate Stays(r: Outcome, r': Outcome) { r == NotReady || r' == r }

  lemma {:induction false} FilledCondition(w: World, w': World, c: Node)
    requires Fills(w, w')
    ensures Stays(EvalCondition(w, c), EvalCondition(w', c))
    decreases c
  {
    if c.Dict? {
      if HasGroup(c.entries) {
        FilledGroups(w, w', c.entries);
      } else {
        FilledCompare(w, w', Field(c.entries, "field"), Field(c.entries, "operator"), Field(c.entries, "value"));
      }
    }
  }

  lemma FilledCompare(w: World, w': World, field: Option<Node>, operator: Option<Node>, value: Option<Node>)
    requires Fills(w, w')
    ensures Stays(Compare(w, field, operator, value), Compare(w', field, operator, value))
  {
    if field.Some? && operator.Some? && value.Some? {
      match GetField(w, field.value)
      case Value(actual) => SameOperators(w, w', actual, operator.value, value.value);
      case Ended(_) =>
    }
  }

  lemma {:induction false} SameOperators(w: World, w': World, actual: Node, operator: Node, expected: Node)
    requires w' == w.(read := w'.read)
    ensures Apply(w, actual, operator, expected) == Apply(w', actual, operator, expected)
    decreases actual
  {
    if actual.List? {
      SameOperatorItems(w, w', actual.items, operator, expected);
    }
  }

  lemma {:induction false} SameOperatorItems(w: World, w': World, items: seq<Node>, operator: Node, expected: Node)
    requires w' == w.(read := w'.read)
    ensures ApplyItems(w, items, operator, expected) == ApplyItems(w', items, operator, expected)
    decreases items
  {
    if items != [] {
      SameOperators(w, w', items[0], operator, expected);
      SameOperatorItems(w, w', items[1..], operator, expected);
    }
  }

  lemma {:induction false} FilledGroups(w: World, w': World, es: seq<Entry>)
    requires Fills(w, w')
    ensures Stays(EvalGroups(w, es), EvalGroups(w', es))
    decreases es, 1
  {
    if Has(es, "all") {
      FilledGroup(w, w', es, "all", true);
    }
    if Has(es, "any") {
      FilledGroup(w, w', es, "any", false);
    }
    if Has(es, "none") {
      FilledGroup(w, w', es, "none", false);
    }
  }

  lemma {:induction false} FilledGroup(w: World, w': World, es: seq<Entry>, key: string, stop: bool)
    requires Fills(w, w') && Has(es, key)
    ensures Stays(EvalGroup(w, es, key, stop), EvalGroup(w', es, key, stop))
    decreases es, 0
  {
    if es[0].key == key {
      FilledIterable(w, w', stop, es[0].value);
    } else {
      FilledGroup(w, w', es[1..], key, stop);
    }
  }

  lemma {:induction false} FilledIterable(w: World, w': World, neutral: bool, v: Node)
    requires Fills(w, w')
    ensures Stays(EvalIterable(w, neutral, v), EvalIterable(w', neutral, v))
    decreases v
  {
    if v.List? {
      FilledItems(w, w', neutral, v.items);
    }
  }

  lemma {:induction false} FilledItems(w: World, w': World, neutral: bool, items: seq<Node>)
    requires Fills(w, w')
    ensures Stays(EvalItems(w, neutral, items), EvalItems(w', neutral, items))
    decreases items
  {
    if items != [] {
      FilledCondition(w, w', items[0]);
      FilledItems(w, w', neutral, items[1..]);
    }
  }

  /** A rule that matches, or fails, without waiting does so however the missing data is filled in. */
  lemma OutcomeIgnoresMissingData(w: World, w': World, c: Node)
    requires Fills(w, w')
    ensures EvalTop(w, c) != NotReady ==> EvalTop(w', c) == EvalTop(w, c)
  {
    match c
    case List(items) => FilledItems(w, w', true, items);
    case Dict(es) => FilledGroups(w, w', es);
    case _ =>
  }

  /** A match never depends on missing data. */
  lemma MatchIgnoresMissingData(w: World, w': World, c: Node, current: Node, required: Node)
    requires Fills(w, w') && Matches(w, c, current, required)
    ensures Matches(w', c, current, required)
  {
    OutcomeIgnoresMissingData(w, w', c);
  }

  // ----- Negations -----

  /** The positive operator a negation negates. */
  function Positive(negation: string): string
    requires negation in NEGATIONS
  {
    if negation == "!=" then "==" else if negation == "not_in" then "in" else "contains"
  }

  /** A negation is the exact complement of its positive operator, and fails on the same values. */
  lemma {:induction false} NegationComplements(w: World, actual: Node, negation: string, expected: Node)
    requires negation in NEGATIONS
    ensures Apply(w, actual, Str(negation), expected) == Not(Apply(w, actual, Str(Positive(negation)), expected))
    decreases actual
  {
    if actual.List? {
      NegationComplementsItems(w, actual.items, negation, expected);
    }
  }

  lemma {:induction false} NegationComplementsItems(w: World, items: seq<Node>, negation: string, expected: Node)
    requires negation in NEGATIONS
    ensures ApplyItems(w, items, Str(negation), expected) == Not(ApplyItems(w, items, Str(Positive(negation)), expected))
    decreases items
  {
    if items != [] {
      NegationComplements(w, items[0], negation, expected);
      NegationComplementsItems(w, items[1..], negation, expected);
    }
  }
}
