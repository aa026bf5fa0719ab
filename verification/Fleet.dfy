/** The run of the rules engine as a log of events, and what each event does to the counters. */
module Fleet {
  import opened Tree

  /** A torrent as fetched; `deleted` marks one that a later fetch no longer found. */
  datatype Torrent = Torrent(
    hash: string, state: Option<string>, category: Option<string>, tags: seq<string>, deleted: bool)

  /** The live `stats.*` counters beside the torrents they count. */
  datatype Fleet = Fleet(
    torrents: seq<Torrent>, total: int,
    states: map<Option<string>, int>, tags: map<string, int>, categories: map<string, int>)

  /** What fetching a torrent again after an action brings. */
  datatype Refetch = Found(state: Option<string>, category: Option<string>, tags: seq<string>) | Gone | Broken

  datatype Outcome = Skipped | Failed | Done(refetch: Refetch)

  datatype Rule = Rule(id: string, enabled: bool, stopOnMatch: bool, actions: nat)

  /**
   * What a run does, in order. It starts by taking the snapshot. When a rule comes to a torrent, it passes
   * it over, or the conditions are the next question and `answer` what they gave; every action is a
   * question of its own.
   */
  datatype Event =
    | Started
    | Entered(rule: nat)
    | Passed(rule: nat, torrent: nat)
    | Asked(rule: nat, torrent: nat, question: nat, answer: bool)
    | Matched(rule: nat, torrent: nat)
    | Acted(rule: nat, torrent: nat, question: nat, outcome: Outcome)

  // ----- Counters -----

  function Count<K>(c: map<K, int>, k: K): int { if k in c then c[k] else 0 }

  /** `c[k] += d`. */
  function Bump<K>(c: map<K, int>, k: K, d: int): map<K, int> { c[k := Count(c, k) + d] }

  /** `c[k] += d` for every `k` of a set. */
  function BumpAll<K>(c: map<K, int>, ks: set<K>, d: int): map<K, int> {
    map k | k in c.Keys + ks :: Count(c, k) + if k in ks then d else 0
  }

  function TagSet(t: Torrent): set<string> { set tag | tag in t.tags }

  /** The counters and torrents after a successful action on torrent `t` and the fetch that follows. */
  function Refetched(f: Fleet, t: nat, r: Refetch): Fleet
    requires t < |f.torrents|
  {
    var old_ := f.torrents[t];
    match r
    case Broken => f
    case Found(state, category, tags) =>
      var new_ := old_.(state := state, category := category, tags := tags);
      var more, fewer := TagSet(new_) - TagSet(old_), TagSet(old_) - TagSet(new_);
      f.(torrents := f.torrents[t := new_],
         states := if state != old_.state then Bump(Bump(f.states, old_.state, -1), state, 1) else f.states,
         tags := BumpAll(BumpAll(f.tags, more, 1), fewer, -1))
    case Gone =>
      f.(torrents := f.torrents[t := old_.(deleted := true)],
         total := f.total - 1,
         states := Bump(f.states, old_.state, -1),
         tags := BumpAll(f.tags, TagSet(old_), -1),
         categories := if old_.category in {None, Some("")} then f.categories
                       else Bump(f.categories, old_.category.value, -1))
  }

  // ----- The ledger -----

  datatype Row = Row(id: string, matched: nat, executed: nat, skipped: nat, errors: nat)

  datatype Ledger = Ledger(matched: nat, executed: nat, skipped: nat, errors: nat, byRule: seq<Row>)

  /** Where the row of a rule is; behind the last one if there is none. */
  function Place(rows: seq<Row>, id: string): (p: nat)
    ensures p <= |rows|
  {
    if rows == [] then 0
    else
      var n := |rows| - 1;
      var p := Place(rows[..n], id);
      if p < n || rows[n].id == id then p else n + 1
  }

  /** The rule's own totals, created when the rule has none, plus what one event adds. */
  function AddTo(rows: seq<Row>, id: string, m: nat, x: nat, s: nat, e: nat): seq<Row> {
    var p := Place(rows, id);
    if p == |rows| then rows + [Row(id, m, x, s, e)]
    else rows[p := Row(id, rows[p].matched + m, rows[p].executed + x, rows[p].skipped + s, rows[p].errors + e)]
  }

  function Record(l: Ledger, id: string, m: nat, x: nat, s: nat, e: nat): Ledger {
    Ledger(l.matched + m, l.executed + x, l.skipped + s, l.errors + e, AddTo(l.byRule, id, m, x, s, e))
  }

  // ----- Runs -----

  datatype RunState = RunState(fleet: Fleet, ledger: Ledger)

  predicate EventOk(rules: seq<Rule>, n: nat, e: Event) {
    !e.Started? ==> e.rule < |rules| && (!e.Entered? ==> e.torrent < n)
  }

  predicate LogOk(rules: seq<Rule>, n: nat, log: seq<Event>) {
    forall i :: 0 <= i < |log| ==> EventOk(rules, n, log[i])
  }

  predicate Executes(e: Event) { e.Acted? && e.outcome.Done? }
  predicate Skips(e: Event) { e.Acted? && e.outcome.Skipped? }
  predicate Errs(e: Event) { e.Acted? && e.outcome.Failed? }
  /** Events that leave a trace in the ledger. */
  predicate Counts(e: Event) { e.Entered? || e.Matched? || e.Acted? }

  function Once(b: bool): nat { if b then 1 else 0 }

  function Apply(run: RunState, e: Event, rules: seq<Rule>): (r: RunState)
    requires EventOk(rules, |run.fleet.torrents|, e)
    ensures |r.fleet.torrents| == |run.fleet.torrents|
  {
    RunState(
      if Executes(e) then Refetched(run.fleet, e.torrent, e.outcome.refetch) else run.fleet,
      if Counts(e) then
        Record(run.ledger, rules[e.rule].id, Once(e.Matched?), Once(Executes(e)), Once(Skips(e)), Once(Errs(e)))
      else run.ledger)
  }

  /** The run after a log of events. */
  function Replay(start: RunState, log: seq<Event>, rules: seq<Rule>): (r: RunState)
    requires LogOk(rules, |start.fleet.torrents|, log)
    ensures |r.fleet.torrents| == |start.fleet.torrents|
  {
    if log == [] then start
    else Apply(Replay(start, log[..|log| - 1], rules), log[|log| - 1], rules)
  }

  // ----- Recounting -----

  /** One of the live counters. */
  datatype Counter =
    | Total
    | StateOf(state: Option<string>)
    | TagOf(tag: string)
    | CategoryOf(category: string)

  /** What a run shows for a counter. */
  function Shown(f: Fleet, c: Counter): int {
    match c
    case Total => f.total
    case StateOf(k) => Count(f.states, k)
    case TagOf(k) => Count(f.tags, k)
    case CategoryOf(k) => Count(f.categories, k)
  }

  function Occurrences(tags: seq<string>, k: string): nat {
    if tags == [] then 0 else (if tags[0] == k then 1 else 0) + Occurrences(tags[1..], k)
  }

  /** How much one torrent adds to a counter. */
  function Weight(t: Torrent, c: Counter): int {
    match c
    case Total => 1
    case StateOf(k) => if t.state == k then 1 else 0
    case TagOf(k) => Occurrences(t.tags, k)
    case CategoryOf(k) => if t.category == Some(k) then 1 else 0
  }

  /** A counter counted again, over the torrents not marked deleted. */
  function Recount(ts: seq<Torrent>, c: Counter): int {
    if ts == [] then 0 else (if ts[0].deleted then 0 else Weight(ts[0], c)) + Recount(ts[1..], c)
  }

  predicate NoDuplicates(tags: seq<string>) {
    forall i, j :: 0 <= i < j < |tags| ==> tags[i] != tags[j]
  }

  /** A counter there is: torrents without a category are not counted under an empty one. */
  predicate Kept(c: Counter) { c != CategoryOf("") }

  /** The counters are what counting the torrents not marked deleted would give. */
  ghost predicate Recounted(f: Fleet) {
    forall c: Counter :: !c.CategoryOf? ==> Shown(f, c) == Recount(f.torrents, c)
  }

  lemma {:induction false} RecountUpdate(ts: seq<Torrent>, t: nat, x: Torrent, c: Counter)
    requires t < |ts|
    ensures Recount(ts[t := x], c) == Recount(ts, c) - (if ts[t].deleted then 0 else Weight(ts[t], c))
                                      + (if x.deleted then 0 else Weight(x, c))
  {
    if t == 0 {
      assert ts[t := x][1..] == ts[1..];
    } else {
      assert ts[t := x][1..] == ts[1..][t - 1 := x];
      RecountUpdate(ts[1..], t - 1, x, c);
    }
  }

  lemma {:induction false} OnceEach(tags: seq<string>, k: string)
    requires NoDuplicates(tags)
    ensures Occurrences(tags, k) == if k in tags then 1 else 0
  {
    if tags != [] {
      OnceEach(tags[1..], k);
      assert k in tags[1..] ==> k != tags[0];
    }
  }

  /**
   * How much a fetch moves a counter away from a recount. For a torrent already marked deleted the
   * counters still move and the recount does not; for any other only a change of category is missed.
   */
  function Off(before: Torrent, r: Refetch, c: Counter): int {
    match r
    case Broken => 0
    case Gone => if before.deleted then -Weight(before, c) else 0
    case Found(state, category, tags) =>
      var gain := Weight(before.(state := state, category := category, tags := tags), c) - Weight(before, c);
      if c.CategoryOf? then (if before.deleted then 0 else -gain) else (if before.deleted then gain else 0)
  }

  /** The counter itself moves with the weight of the torrent, but for categories only when it is gone. */
  lemma ShownMoves(f: Fleet, t: nat, r: Refetch, c: Counter)
    requires t < |f.torrents| && Kept(c)
    requires c.TagOf? ==> NoDuplicates(f.torrents[t].tags) && (r.Found? ==> NoDuplicates(r.tags))
    ensures Shown(Refetched(f, t, r), c) == Shown(f, c)
              + match r
                case Broken => 0
                case Gone => -Weight(f.torrents[t], c)
                case Found(_, _, _) =>
                  if c.CategoryOf? then 0 else Weight(Refetched(f, t, r).torrents[t], c) - Weight(f.torrents[t], c)
  {
    if c.TagOf? {
      OnceEach(f.torrents[t].tags, c.tag);
      OnceEach(Refetched(f, t, r).torrents[t].tags, c.tag);
    }
  }

  lemma RefetchMovesOff(f: Fleet, t: nat, r: Refetch, c: Counter)
    requires t < |f.torrents| && Kept(c)
    requires c.TagOf? ==> NoDuplicates(f.torrents[t].tags) && (r.Found? ==> NoDuplicates(r.tags))
    ensures var g := Refetched(f, t, r);
            Shown(g, c) - Recount(g.torrents, c) == Shown(f, c) - Recount(f.torrents, c) + Off(f.torrents[t], r, c)
  {
    ShownMoves(f, t, r, c);
    if !r.Broken? {
      RecountUpdate(f.torrents, t, Refetched(f, t, r).torrents[t], c);
    }
  }

  // ----- Whole runs -----

  /** The event found a torrent gone. */
  predicate FindsGone(e: Event) { e.Acted? && e.outcome == Done(Gone) }

  function GoneCount(log: seq<Event>): nat {
    if log == [] then 0 else GoneCount(log[..|log| - 1]) + if FindsGone(log[|log| - 1]) then 1 else 0
  }

  /** At every step `stats.total` is the fetched count less the actions whose fetch found nothing. */
  lemma {:induction false} TotalCountsGone(start: RunState, log: seq<Event>, rules: seq<Rule>)
    requires LogOk(rules, |start.fleet.torrents|, log)
    ensures Replay(start, log, rules).fleet.total == start.fleet.total - GoneCount(log)
  {
    if log != [] {
      TotalCountsGone(start, log[..|log| - 1], rules);
    }
  }

  /** An executed action whose torrent was already marked deleted. */
  predicate Late(run: RunState, e: Event)
    requires Executes(e) ==> e.torrent < |run.fleet.torrents|
  {
    Executes(e) && run.fleet.torrents[e.torrent].deleted
  }

  predicate NeverLate(start: RunState, log: seq<Event>, rules: seq<Rule>)
    requires LogOk(rules, |start.fleet.torrents|, log)
  {
    forall i :: 0 <= i < |log| ==> !Late(Replay(start, log[..i], rules), log[i])
  }

  predicate FetchesClean(log: seq<Event>) {
    forall i :: 0 <= i < |log| ==>
      (Executes(log[i]) && log[i].outcome.refetch.Found? ==>
         NoDuplicates(log[i].outcome.refetch.tags))
  }

  predicate TagsClean(ts: seq<Torrent>) {
    forall i :: 0 <= i < |ts| ==> NoDuplicates(ts[i].tags)
  }

  lemma {:induction false} TagsStayClean(start: RunState, log: seq<Event>, rules: seq<Rule>)
    requires LogOk(rules, |start.fleet.torrents|, log) && TagsClean(start.fleet.torrents) && FetchesClean(log)
    ensures TagsClean(Replay(start, log, rules).fleet.torrents)
  {
    if log != [] {
      TagsStayClean(start, log[..|log| - 1], rules);
    }
  }

  /** How far the events of a log move a counter away from a recount. */
  function Drift(start: RunState, log: seq<Event>, rules: seq<Rule>, c: Counter): int
    requires LogOk(rules, |start.fleet.torrents|, log)
  {
    if log == [] then 0
    else
      var before, e := log[..|log| - 1], log[|log| - 1];
      Drift(start, before, rules, c)
      + if Executes(e)
        then Off(Replay(start, before, rules).fleet.torrents[e.torrent], e.outcome.refetch, c) else 0
  }

  /** At every step every counter is a recount plus the drift; so it is right exactly when the drift is 0. */
  lemma {:induction false} CounterDrift(start: RunState, log: seq<Event>, rules: seq<Rule>, c: Counter)
    requires LogOk(rules, |start.fleet.torrents|, log) && Kept(c)
    requires c.TagOf? ==> TagsClean(start.fleet.torrents) && FetchesClean(log)
    requires Shown(start.fleet, c) == Recount(start.fleet.torrents, c)
    ensures var f := Replay(start, log, rules).fleet;
            && Shown(f, c) == Recount(f.torrents, c) + Drift(start, log, rules, c)
            && (Shown(f, c) == Recount(f.torrents, c) <==> Drift(start, log, rules, c) == 0)
  {
    if log != [] {
      var before, e := log[..|log| - 1], log[|log| - 1];
      CounterDrift(start, before, rules, c);
      if Executes(e) {
        if c.TagOf? {
          TagsStayClean(start, before, rules);
        }
        RefetchMovesOff(Replay(start, before, rules).fleet, e.torrent, e.outcome.refetch, c);
      }
    }
  }

  /** While no action executes on a torrent found gone, only categories drift. */
  lemma {:induction false} NeverLateNoDrift(start: RunState, log: seq<Event>, rules: seq<Rule>, c: Counter)
    requires LogOk(rules, |start.fleet.torrents|, log) && NeverLate(start, log, rules) && !c.CategoryOf?
    ensures Drift(start, log, rules, c) == 0
  {
    if log != [] {
      var before, e := log[..|log| - 1], log[|log| - 1];
      assert forall i :: 0 <= i < |before| ==> before[..i] == log[..i] && before[i] == log[i];
      NeverLateNoDrift(start, before, rules, c);
      assert !Late(Replay(start, before, rules), e);
    }
  }

  /**
   * If no action executes on a torrent after one found it gone, and no torrent carries a tag twice,
   * total, states and tags equal a recount at every step.
   */
  lemma CountersEqualRecount(start: RunState, log: seq<Event>, rules: seq<Rule>)
    requires LogOk(rules, |start.fleet.torrents|, log)
    requires Recounted(start.fleet) && TagsClean(start.fleet.torrents)
    requires NeverLate(start, log, rules) && FetchesClean(log)
    ensures Recounted(Replay(start, log, rules).fleet)
  {
    var f := Replay(start, log, rules).fleet;
    forall c: Counter | !c.CategoryOf? ensures Shown(f, c) == Recount(f.torrents, c) {
      CounterDrift(start, log, rules, c);
      NeverLateNoDrift(start, log, rules, c);
    }
  }

  /** How often an action found a torrent gone that was marked deleted before. */
  function GoneAgain(start: RunState, log: seq<Event>, rules: seq<Rule>): nat
    requires LogOk(rules, |start.fleet.torrents|, log)
  {
    if log == [] then 0
    else
      var before, e := log[..|log| - 1], log[|log| - 1];
      GoneAgain(start, before, rules) + if FindsGone(e) && Late(Replay(start, before, rules), e) then 1 else 0
  }

  /**
   * `stats.total` falls short of the torrents not marked deleted by exactly the number of times an
   * action found a torrent gone again.
   */
  lemma {:induction false} TotalDrift(start: RunState, log: seq<Event>, rules: seq<Rule>)
    requires LogOk(rules, |start.fleet.torrents|, log)
    ensures Drift(start, log, rules, Total) == 0 - GoneAgain(start, log, rules)
    ensures start.fleet.total == Recount(start.fleet.torrents, Total) ==>
              var f := Replay(start, log, rules).fleet;
              f.total == Recount(f.torrents, Total) - GoneAgain(start, log, rules)
  {
    if log != [] {
      TotalDrift(start, log[..|log| - 1], rules);
    }
    if start.fleet.total == Recount(start.fleet.torrents, Total) {
      CounterDrift(start, log, rules, Total);
    }
  }

  // ----- The ledger adds up -----

  function SumMatched(rows: seq<Row>): nat {
    if rows == [] then 0 else SumMatched(rows[..|rows| - 1]) + rows[|rows| - 1].matched
  }
  function SumExecuted(rows: seq<Row>): nat {
    if rows == [] then 0 else SumExecuted(rows[..|rows| - 1]) + rows[|rows| - 1].executed
  }
  function SumSkipped(rows: seq<Row>): nat {
    if rows == [] then 0 else SumSkipped(rows[..|rows| - 1]) + rows[|rows| - 1].skipped
  }
  function SumErrors(rows: seq<Row>): nat {
    if rows == [] then 0 else SumErrors(rows[..|rows| - 1]) + rows[|rows| - 1].errors
  }

  /** Every aggregate counter is the sum of its per-rule counters. */
  predicate Balanced(l: Ledger) {
    && l.matched == SumMatched(l.byRule) && l.executed == SumExecuted(l.byRule)
    && l.skipped == SumSkipped(l.byRule) && l.errors == SumErrors(l.byRule)
  }

  lemma {:induction false} SumsUpdate(rows: seq<Row>, p: nat, row: Row)
    requires p < |rows|
    ensures var r := rows[p := row];
      && SumMatched(r) == SumMatched(rows) - rows[p].matched + row.matched
      && SumExecuted(r) == SumExecuted(rows) - rows[p].executed + row.executed
      && SumSkipped(r) == SumSkipped(rows) - rows[p].skipped + row.skipped
      && SumErrors(r) == SumErrors(rows) - rows[p].errors + row.errors
  {
    var r, n := rows[p := row], |rows| - 1;
    if p == n {
      assert r[..n] == rows[..n];
    } else {
      SumsUpdate(rows[..n], p, row);
      assert r[..n] == rows[..n][p := row];
    }
  }

  lemma AddToSums(rows: seq<Row>, id: string, m: nat, x: nat, s: nat, e: nat)
    ensures var r := AddTo(rows, id, m, x, s, e);
      && SumMatched(r) == SumMatched(rows) + m && SumExecuted(r) == SumExecuted(rows) + x
      && SumSkipped(r) == SumSkipped(rows) + s && SumErrors(r) == SumErrors(rows) + e
  {
    var p, r := Place(rows, id), AddTo(rows, id, m, x, s, e);
    if p == |rows| {
      assert r[..|rows|] == rows;
    } else {
      SumsUpdate(rows, p, r[p]);
    }
  }

  lemma {:induction false} LedgerBalances(start: RunState, log: seq<Event>, rules: seq<Rule>)
    requires LogOk(rules, |start.fleet.torrents|, log) && Balanced(start.ledger)
    ensures Balanced(Replay(start, log, rules).ledger)
  {
    if log != [] {
      LedgerBalances(start, log[..|log| - 1], rules);
      var l := Replay(start, log[..|log| - 1], rules).ledger;
      var e := log[|log| - 1];
      if Counts(e) {
        AddToSums(l.byRule, rules[e.rule].id, Once(e.Matched?), Once(Executes(e)), Once(Skips(e)), Once(Errs(e)));
      }
    }
  }

  /** An event adds to the row of its rule, or appends it; every other row stays as it is. */
  lemma AddToRows(rows: seq<Row>, id: string, m: nat, x: nat, s: nat, e: nat)
    requires DistinctIds(rows)
    ensures var r := AddTo(rows, id, m, x, s, e);
      && DistinctIds(r)
      && (forall i :: 0 <= i < |rows| ==>
            i < |r| && r[i] == if rows[i].id == id then Row(id, rows[i].matched + m, rows[i].executed + x,
                                                           rows[i].skipped + s, rows[i].errors + e)
                               else rows[i])
      && (if HasRow(rows, id) then |r| == |rows| else |r| == |rows| + 1 && r[|rows|] == Row(id, m, x, s, e))
  {
    PlaceIs(rows, id);
  }

  predicate DistinctIds(rows: seq<Row>) { forall i, j :: 0 <= i < j < |rows| ==> rows[i].id != rows[j].id }

  predicate HasRow(rows: seq<Row>, id: string) { exists i :: 0 <= i < |rows| && rows[i].id == id }

  lemma {:induction false} PlaceIs(rows: seq<Row>, id: string)
    ensures Place(rows, id) < |rows| ==> rows[Place(rows, id)].id == id
    ensures forall i :: 0 <= i < Place(rows, id) ==> rows[i].id != id
  {
    if rows != [] {
      PlaceIs(rows[..|rows| - 1], id);
    }
  }

  /** How many events of a log are such. */
  function HowMany(log: seq<Event>, such: Event -> bool): nat {
    if log == [] then 0 else HowMany(log[..|log| - 1], such) + Once(such(log[|log| - 1]))
  }

  /** The event is for the ledger, and its rule has that id. */
  predicate Own(rules: seq<Rule>, id: string, e: Event) { Counts(e) && e.rule < |rules| && rules[e.rule].id == id }

  function Entries(rules: seq<Rule>, id: string): Event -> bool { e => Own(rules, id, e) }
  function OwnMatches(rules: seq<Rule>, id: string): Event -> bool { e => Own(rules, id, e) && e.Matched? }
  function OwnExecuted(rules: seq<Rule>, id: string): Event -> bool { e => Own(rules, id, e) && Executes(e) }
  function OwnSkipped(rules: seq<Rule>, id: string): Event -> bool { e => Own(rules, id, e) && Skips(e) }
  function OwnErrors(rules: seq<Rule>, id: string): Event -> bool { e => Own(rules, id, e) && Errs(e) }

  /** What the events of a log come to for the rules of one id. */
  function OwnRow(rules: seq<Rule>, log: seq<Event>, id: string): Row {
    Row(id, HowMany(log, OwnMatches(rules, id)), HowMany(log, OwnExecuted(rules, id)),
        HowMany(log, OwnSkipped(rules, id)), HowMany(log, OwnErrors(rules, id)))
  }

  /** The rows count the events of their own rules, and there is one exactly for every id that has such events. */
  ghost predicate RowsCount(rules: seq<Rule>, log: seq<Event>, rows: seq<Row>) {
    && DistinctIds(rows)
    && (forall i :: 0 <= i < |rows| ==> rows[i] == OwnRow(rules, log, rows[i].id))
    && (forall id :: HasRow(rows, id) <==> HowMany(log, Entries(rules, id)) > 0)
  }

  lemma OwnRowOne(rules: seq<Rule>, log: seq<Event>, before: seq<Event>, e: Event, id: string)
    requires log != [] && before == log[..|log| - 1] && e == log[|log| - 1]
    ensures HowMany(log, Entries(rules, id)) == HowMany(before, Entries(rules, id)) + Once(Own(rules, id, e))
    ensures var r := OwnRow(rules, before, id);
            OwnRow(rules, log, id)
            == if Own(rules, id, e)
               then Row(id, r.matched + Once(e.Matched?), r.executed + Once(Executes(e)), r.skipped + Once(Skips(e)),
                        r.errors + Once(Errs(e)))
               else r
  {
  }

  lemma {:induction false} FewerOf(log: seq<Event>, such: Event -> bool, wider: Event -> bool)
    requires forall e :: such(e) ==> wider(e)
    ensures HowMany(log, such) <= HowMany(log, wider)
  {
    if log != [] {
      FewerOf(log[..|log| - 1], such, wider);
    }
  }

  lemma NoEntries(rules: seq<Rule>, log: seq<Event>, id: string)
    requires HowMany(log, Entries(rules, id)) == 0
    ensures OwnRow(rules, log, id) == Row(id, 0, 0, 0, 0)
  {
    FewerOf(log, OwnMatches(rules, id), Entries(rules, id));
    FewerOf(log, OwnExecuted(rules, id), Entries(rules, id));
    FewerOf(log, OwnSkipped(rules, id), Entries(rules, id));
    FewerOf(log, OwnErrors(rules, id), Entries(rules, id));
  }

  lemma RowsStay(rules: seq<Rule>, log: seq<Event>, before: seq<Event>, e: Event, rows: seq<Row>)
    requires log != [] && before == log[..|log| - 1] && e == log[|log| - 1] && !Counts(e)
    requires RowsCount(rules, before, rows)
    ensures RowsCount(rules, log, rows)
  {
    forall id ensures OwnRow(rules, log, id) == OwnRow(rules, before, id)
                   && HowMany(log, Entries(rules, id)) == HowMany(before, Entries(rules, id)) {
      OwnRowOne(rules, log, before, e, id);
    }
  }

  lemma RowsAdd(rules: seq<Rule>, log: seq<Event>, before: seq<Event>, e: Event, rows: seq<Row>, id: string, rows': seq<Row>)
    requires log != [] && before == log[..|log| - 1] && e == log[|log| - 1]
    requires Counts(e) && e.rule < |rules| && id == rules[e.rule].id
    requires RowsCount(rules, before, rows)
    requires rows' == AddTo(rows, id, Once(e.Matched?), Once(Executes(e)), Once(Skips(e)), Once(Errs(e)))
    ensures RowsCount(rules, log, rows')
  {
    AddToRows(rows, id, Once(e.Matched?), Once(Executes(e)), Once(Skips(e)), Once(Errs(e)));
    if !HasRow(rows, id) {
      NoEntries(rules, before, id);
    }
    forall i | 0 <= i < |rows'| ensures rows'[i] == OwnRow(rules, log, rows'[i].id) {
      OwnRowOne(rules, log, before, e, rows'[i].id);
    }
    forall k ensures HasRow(rows', k) <==> HowMany(log, Entries(rules, k)) > 0 {
      OwnRowOne(rules, log, before, e, k);
      RowsGrow(rows, rows', id, k);
    }
  }

  lemma RowsGrow(rows: seq<Row>, rows': seq<Row>, id: string, k: string)
    requires |rows| <= |rows'| && forall i :: 0 <= i < |rows| ==> rows'[i].id == rows[i].id
    requires if HasRow(rows, id) then |rows'| == |rows| else |rows'| == |rows| + 1 && rows'[|rows|].id == id
    ensures HasRow(rows', k) <==> HasRow(rows, k) || k == id
  {
    if HasRow(rows, k) {
      var i :| 0 <= i < |rows| && rows[i].id == k;
      assert rows'[i].id == k;
    }
  }

  /** After any log each row counts the events of its own rule. */
  lemma {:induction false} LedgerRows(start: RunState, log: seq<Event>, rules: seq<Rule>)
    requires LogOk(rules, |start.fleet.torrents|, log) && start.ledger.byRule == []
    ensures RowsCount(rules, log, Replay(start, log, rules).ledger.byRule)
  {
    if log != [] {
      var before, e := log[..|log| - 1], log[|log| - 1];
      LedgerRows(start, before, rules);
      var rows := Replay(start, before, rules).ledger.byRule;
      if Counts(e) {
        RowsAdd(rules, log, before, e, rows, rules[e.rule].id, Replay(start, log, rules).ledger.byRule);
      } else {
        RowsStay(rules, log, before, e, rows);
      }
    }
  }

  function Acts(log: seq<Event>): nat {
    if log == [] then 0 else Acts(log[..|log| - 1]) + if log[|log| - 1].Acted? then 1 else 0
  }

  function Matches(log: seq<Event>): nat {
    if log == [] then 0 else Matches(log[..|log| - 1]) + if log[|log| - 1].Matched? then 1 else 0
  }

  /** How many actions the matched rules have, over all matches. */
  function ActionsDue(log: seq<Event>, rules: seq<Rule>): nat
    requires forall i :: 0 <= i < |log| && log[i].Matched? ==> log[i].rule < |rules|
  {
    if log == [] then 0
    else
      var e := log[|log| - 1];
      ActionsDue(log[..|log| - 1], rules) + if e.Matched? then rules[e.rule].actions else 0
  }

  /** Each match counts once, and each action counts as executed, skipped or failed. */
  lemma {:induction false} LedgerCounts(start: RunState, log: seq<Event>, rules: seq<Rule>)
    requires LogOk(rules, |start.fleet.torrents|, log)
    ensures var l, l0 := Replay(start, log, rules).ledger, start.ledger;
      && l.matched == l0.matched + Matches(log)
      && l.executed + l.skipped + l.errors == l0.executed + l0.skipped + l0.errors + Acts(log)
  {
    if log != [] {
      LedgerCounts(start, log[..|log| - 1], rules);
    }
  }

  // ----- The snapshot a run starts from -----

  function StateCounts(ts: seq<Torrent>): map<Option<string>, int> {
    if ts == [] then map[] else Bump(StateCounts(ts[1..]), ts[0].state, 1)
  }

  function AddTags(c: map<string, int>, tags: seq<string>): map<string, int> {
    if tags == [] then c else Bump(AddTags(c, tags[1..]), tags[0], 1)
  }

  function TagCounts(ts: seq<Torrent>): map<string, int> {
    if ts == [] then map[] else AddTags(TagCounts(ts[1..]), ts[0].tags)
  }

  function CategoryCounts(ts: seq<Torrent>): map<string, int> {
    if ts == [] then map[]
    else if ts[0].category in {None, Some("")} then CategoryCounts(ts[1..])
    else Bump(CategoryCounts(ts[1..]), ts[0].category.value, 1)
  }

  function Snapshot(ts: seq<Torrent>): Fleet {
    Fleet(ts, |ts|, StateCounts(ts), TagCounts(ts), CategoryCounts(ts))
  }

  predicate AllLive(ts: seq<Torrent>) { forall i :: 0 <= i < |ts| ==> !ts[i].deleted }

  lemma {:induction false} AddTagsCounts(c: map<string, int>, tags: seq<string>, k: string)
    ensures Count(AddTags(c, tags), k) == Count(c, k) + Occurrences(tags, k)
  {
    if tags != [] {
      AddTagsCounts(c, tags[1..], k);
    }
  }

  lemma {:induction false} StateCountsAre(ts: seq<Torrent>, k: Option<string>)
    requires AllLive(ts)
    ensures Count(StateCounts(ts), k) == Recount(ts, StateOf(k))
  {
    if ts != [] {
      StateCountsAre(ts[1..], k);
    }
  }

  lemma {:induction false} TagCountsAre(ts: seq<Torrent>, k: string)
    requires AllLive(ts)
    ensures Count(TagCounts(ts), k) == Recount(ts, TagOf(k))
  {
    if ts != [] {
      TagCountsAre(ts[1..], k);
      AddTagsCounts(TagCounts(ts[1..]), ts[0].tags, k);
    }
  }

  lemma {:induction false} CategoryCountsAre(ts: seq<Torrent>, k: string)
    requires AllLive(ts) && k != ""
    ensures Count(CategoryCounts(ts), k) == Recount(ts, CategoryOf(k))
  {
    if ts != [] {
      CategoryCountsAre(ts[1..], k);
    }
  }

  lemma {:induction false} AllAreLive(ts: seq<Torrent>)
    requires AllLive(ts)
    ensures Recount(ts, Total) == |ts|
  {
    if ts != [] {
      AllAreLive(ts[1..]);
    }
  }

  /** Every counter of the snapshot a run starts from is a recount. */
  lemma SnapshotIsRecount(ts: seq<Torrent>, c: Counter)
    requires AllLive(ts) && Kept(c)
    ensures Shown(Snapshot(ts), c) == Recount(ts, c)
  {
    match c
    case Total => AllAreLive(ts);
    case StateOf(k) => StateCountsAre(ts, k);
    case TagOf(k) => TagCountsAre(ts, k);
    case CategoryOf(k) => CategoryCountsAre(ts, k);
  }
}
