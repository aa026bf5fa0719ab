/** What the log of a run says, event by event: which torrents are asked, which match, what is done. */
module RunLog {
  import opened Tree
  import opened Fleet
  import opened Engine

  // ----- The turns of a run -----

  /** A rule is taken up, or it comes to a torrent. */
  datatype Turn = Enter(rule: nat) | Visit(rule: nat, torrent: nat)

  predicate IsTurn(e: Event) { e.Entered? || e.Passed? || e.Asked? }

  function TurnOf(e: Event): Turn
    requires IsTurn(e)
  {
    if e.Entered? then Enter(e.rule) else Visit(e.rule, e.torrent)
  }

  /** The turns a log went through, in order. */
  function Turns(log: seq<Event>): seq<Turn> {
    if log == [] then []
    else
      var e := log[|log| - 1];
      Turns(log[..|log| - 1]) + if IsTurn(e) then [TurnOf(e)] else []
  }

  function Visits(rule: nat, work: seq<nat>): seq<Turn> {
    if work == [] then [] else Visits(rule, work[..|work| - 1]) + [Visit(rule, work[|work| - 1])]
  }

  /** An enabled rule is taken up and comes to every torrent of the run, in order. */
  function RuleTurns(rules: seq<Rule>, r: nat, work: seq<nat>): seq<Turn>
    requires r < |rules|
  {
    if rules[r].enabled then [Enter(r)] + Visits(r, work) else []
  }

  /** The turns of the first `n` rules, in file order. */
  function Plan(rules: seq<Rule>, n: nat, work: seq<nat>): seq<Turn>
    requires n <= |rules|
  {
    if n == 0 then []
    else Plan(rules, n - 1, work) + RuleTurns(rules, n - 1, work)
  }

  /** `a` comes before `b`: by rule, and within a rule by torrent. */
  predicate Before(a: Turn, b: Turn) {
    a.rule < b.rule || (a.rule == b.rule && b.Visit? && (a.Enter? || a.torrent < b.torrent))
  }

  predicate Rising(work: seq<nat>) { forall i, j :: 0 <= i < j < |work| ==> work[i] < work[j] }

  predicate InOrder(turns: seq<Turn>) { forall i, j :: 0 <= i < j < |turns| ==> Before(turns[i], turns[j]) }

  /** A turn of the run: of an enabled rule, and for a torrent of the run if it is for one. */
  predicate Planned(rules: seq<Rule>, work: seq<nat>, turn: Turn) {
    turn.rule < |rules| && rules[turn.rule].enabled && (turn.Visit? ==> turn.torrent in work)
  }

  lemma {:induction false} VisitsAre(rule: nat, work: seq<nat>)
    ensures |Visits(rule, work)| == |work| && forall i :: 0 <= i < |work| ==> Visits(rule, work)[i] == Visit(rule, work[i])
  {
    if work != [] {
      VisitsAre(rule, work[..|work| - 1]);
    }
  }

  lemma RuleTurnsHas(rules: seq<Rule>, r: nat, work: seq<nat>, turn: Turn)
    requires r < |rules|
    ensures turn in RuleTurns(rules, r, work) <==> Planned(rules, work, turn) && turn.rule == r
  {
    VisitsAre(r, work);
    if turn.Visit? && turn.rule == r && turn.torrent in work {
      var i :| 0 <= i < |work| && work[i] == turn.torrent;
      assert Visits(r, work)[i] == turn;
    }
  }

  lemma {:induction false} PlanHas(rules: seq<Rule>, n: nat, work: seq<nat>, plan: seq<Turn>, turn: Turn)
    requires n <= |rules| && plan == Plan(rules, n, work)
    ensures turn in plan <==> Planned(rules, work, turn) && turn.rule < n
    decreases n
  {
    if n > 0 {
      var before := Plan(rules, n - 1, work);
      PlanHas(rules, n - 1, work, before, turn);
      RuleTurnsHas(rules, n - 1, work, turn);
      InJoin(before, RuleTurns(rules, n - 1, work), turn);
    }
  }

  lemma InJoin(a: seq<Turn>, b: seq<Turn>, turn: Turn)
    ensures turn in a + b <==> turn in a || turn in b
  {
  }

  lemma RuleTurnsInOrder(rules: seq<Rule>, r: nat, work: seq<nat>)
    requires r < |rules| && Rising(work)
    ensures InOrder(RuleTurns(rules, r, work))
    ensures forall i :: 0 <= i < |RuleTurns(rules, r, work)| ==> RuleTurns(rules, r, work)[i].rule == r
  {
    VisitsAre(r, work);
  }

  lemma InOrderJoin(a: seq<Turn>, b: seq<Turn>, r: nat)
    requires InOrder(a) && InOrder(b)
    requires forall i :: 0 <= i < |a| ==> a[i].rule < r
    requires forall i :: 0 <= i < |b| ==> b[i].rule == r
    ensures InOrder(a + b) && forall i :: 0 <= i < |a + b| ==> (a + b)[i].rule < r + 1
  {
  }

  lemma {:induction false} PlanInOrder(rules: seq<Rule>, n: nat, work: seq<nat>, plan: seq<Turn>)
    requires n <= |rules| && Rising(work) && plan == Plan(rules, n, work)
    ensures InOrder(plan) && forall i :: 0 <= i < |plan| ==> plan[i].rule < n
    decreases n
  {
    if n > 0 {
      var before := Plan(rules, n - 1, work);
      PlanInOrder(rules, n - 1, work, before);
      RuleTurnsInOrder(rules, n - 1, work);
      InOrderJoin(before, RuleTurns(rules, n - 1, work), n - 1);
    }
  }

  /** The torrents of a run: all of them, or for `only` those of that hash; each once, in the order fetched. */
  lemma {:induction false} WorkIs(ts: seq<Torrent>, only: Option<string>)
    ensures Rising(Work(ts, only))
    ensures forall t: nat ::
              t in Work(ts, only) <==> t < |ts| && (only == None || only == Some("") || only == Some(ts[t].hash))
  {
    if ts != [] {
      WorkIs(ts[..|ts| - 1], only);
      WorkInRange(ts[..|ts| - 1], only);
    }
  }

  // ----- One event after the others -----

  /** What must come next: the start, a turn, the match for a yes, or an action of a match with `left` still to come. */
  datatype Expected = TheStart | ATurn | TheMatch(rule: nat, torrent: nat) | AnAction(rule: nat, torrent: nat, left: nat)

  function ActionsLeft(r: nat, t: nat, left: nat): Expected { if left == 0 then ATurn else AnAction(r, t, left) }

  function Expecting(rules: seq<Rule>, log: seq<Event>): Expected {
    if log == [] then TheStart
    else
      match log[|log| - 1]
      case Asked(r, t, _, true) => TheMatch(r, t)
      case Matched(r, t) => if r < |rules| then ActionsLeft(r, t, rules[r].actions) else ATurn
      case Acted(r, t, _, _) =>
        var x := Expecting(rules, log[..|log| - 1]);
        if x.AnAction? && x.left > 0 then ActionsLeft(r, t, x.left - 1) else ATurn
      case _ => ATurn
  }

  /** A stop_on_match rule has matched a torrent of this hash. */
  predicate Stopped(c: Setting, log: seq<Event>, hash: string)
    requires Fits(c, log)
  {
    exists i :: 0 <= i < |log| && Stops(c.rules, log[i]) && HashOf(c, log[i].torrent) == hash
  }

  /** Skipped, done or failed, as the answers to question `q` say. */
  predicate Answered(env: Env, dry: bool, q: nat, outcome: Outcome) {
    match outcome
    case Skipped => env.idempotent(q) == Yes || (env.idempotent(q) == No && dry && env.perform(q) != Fails)
    case Done(r) => env.idempotent(q) == No && !dry && env.perform(q) == Yes && r == env.refetch(q)
    case Failed =>
      env.idempotent(q) == Fails || (env.idempotent(q) == No && (env.perform(q) == Fails || (!dry && env.perform(q) == No)))
  }

  predicate IsAct(e: Event, rule: nat, torrent: nat) {
    e.Acted? && e.rule == rule && e.torrent == torrent
  }

  /** In its turn a torrent is passed over exactly if it is stopped or was found gone, and else asked. */
  predicate TurnRight(c: Setting, log: seq<Event>, e: Event)
    requires Fits(c, log) && EventOk(c.rules, Size(c), e)
  {
    && IsTurn(e) && c.rules[e.rule].enabled
    && (!e.Entered? ==>
          && (e.Passed? <==> Stopped(c, log, HashOf(c, e.torrent)) || !Live(c, log, e.torrent))
          && (e.Asked? ==> e.question == Questions(log) + 1 && e.answer == c.env.evaluate(e.question)))
  }

  /**
   * Event `e` is the right one after `log`: a yes is followed by the match, a match by its actions, and
   * nothing else is.
   */
  predicate Follows(c: Setting, log: seq<Event>, e: Event)
    requires Fits(c, log)
  {
    EventOk(c.rules, Size(c), e) &&
    match Expecting(c.rules, log)
    case TheStart => e == Started
    case TheMatch(r, t) => e == Matched(r, t)
    case AnAction(r, t, _) =>
      IsAct(e, r, t) && e.question == Questions(log) + 1 && Answered(c.env, c.dry, e.question, e.outcome)
    case ATurn => TurnRight(c, log, e)
  }

  /** Every event of the log is the right one after those before it. */
  predicate Faithful(c: Setting, log: seq<Event>)
    requires Fits(c, log)
  {
    log == [] ||
    var before, e := log[..|log| - 1], log[|log| - 1];
    Faithful(c, before) && Follows(c, before, e)
  }

  lemma {:induction false} FaithfulAt(c: Setting, log: seq<Event>, k: nat)
    requires Fits(c, log) && Faithful(c, log) && k < |log|
    ensures Follows(c, log[..k], log[k])
  {
    if k < |log| - 1 {
      var before := log[..|log| - 1];
      FaithfulAt(c, before, k);
      assert before[..k] == log[..k];
    }
  }

  lemma {:induction false} StoppedIs(c: Setting, log: seq<Event>, hash: string)
    requires Fits(c, log)
    ensures hash in StoppedHashes(c, log) <==> Stopped(c, log, hash)
  {
    if log != [] {
      var n := |log| - 1;
      var before := log[..n];
      StoppedIs(c, before, hash);
      if Stopped(c, before, hash) {
        var i :| 0 <= i < n && Stops(c.rules, before[i]) && HashOf(c, before[i].torrent) == hash;
        assert log[i] == before[i];
      }
      if Stopped(c, log, hash) && !(Stops(c.rules, log[n]) && HashOf(c, log[n].torrent) == hash) {
        var i :| 0 <= i < |log| && Stops(c.rules, log[i]) && HashOf(c, log[i].torrent) == hash;
        assert before[i] == log[i];
      }
    }
  }

  // ----- Every step of a run is right -----

  /** A faithful log with `next` ahead. */
  predicate Told(c: Setting, log: seq<Event>, next: Expected) {
    Begun(c, log) && Faithful(c, log) && Expecting(c.rules, log) == next
  }

  lemma ToldOne(c: Setting, log: seq<Event>, next: Expected, e: Event, next': Expected)
    requires Told(c, log, next) && Follows(c, log, e)
    requires match e
             case Asked(r, t, _, true) => next' == TheMatch(r, t)
             case Matched(r, t) => next' == ActionsLeft(r, t, c.rules[r].actions)
             case Acted(r, t, _, _) => next.AnAction? && next.left > 0 && next' == ActionsLeft(r, t, next.left - 1)
             case _ => next' == ATurn
    ensures Told(c, log + [e], next')
  {
    assert (log + [e])[..|log|] == log;
  }

  lemma ActionNext(rules: seq<Rule>, log: seq<Event>, r: nat, t: nat, left: nat, e: Event)
    requires log != [] && Expecting(rules, log) == AnAction(r, t, left) && left > 0 && IsAct(e, r, t)
    ensures Expecting(rules, log + [e]) == ActionsLeft(r, t, left - 1)
  {
    assert (log + [e])[..|log|] == log;
  }

  lemma OutcomeAnswers(env: Env, dry: bool, q: nat)
    ensures Answered(env, dry, q, OutcomeOf(env, dry, q))
  {
  }

  lemma ActionTold(c: Setting, log: seq<Event>, r: nat, t: nat, left: nat)
    requires Told(c, log, AnAction(r, t, left)) && left > 0 && r < |c.rules| && t < Size(c)
    ensures Told(c, AfterAction(c, log, r, t), ActionsLeft(r, t, left - 1))
  {
    var q := Questions(log) + 1;
    OutcomeAnswers(c.env, c.dry, q);
    ToldOne(c, log, AnAction(r, t, left), Acted(r, t, q, OutcomeOf(c.env, c.dry, q)), ActionsLeft(r, t, left - 1));
  }

  lemma {:induction false} ActionsTold(c: Setting, log: seq<Event>, r: nat, t: nat, k: nat, left: nat, total: nat)
    requires r < |c.rules| && t < Size(c) && total == k + left
    requires Told(c, log, ActionsLeft(r, t, total))
    ensures Told(c, AfterActions(c, log, r, t, k), ActionsLeft(r, t, left))
    decreases k
  {
    if k > 0 {
      ActionsTold(c, log, r, t, k - 1, left + 1, total);
      ActionTold(c, AfterActions(c, log, r, t, k - 1), r, t, left + 1);
    }
  }

  lemma MatchTold(c: Setting, log: seq<Event>, r: nat, t: nat)
    requires Told(c, log, TheMatch(r, t)) && r < |c.rules| && t < Size(c)
    ensures Told(c, AfterMatch(c, log, r, t), ATurn)
  {
    var n := c.rules[r].actions;
    ToldOne(c, log, TheMatch(r, t), Matched(r, t), ActionsLeft(r, t, n));
    ActionsTold(c, log + [Matched(r, t)], r, t, n, 0, n);
  }

  lemma TorrentTold(c: Setting, log: seq<Event>, r: nat, t: nat)
    requires Told(c, log, ATurn) && r < |c.rules| && c.rules[r].enabled && t < Size(c)
    ensures Told(c, AfterTorrent(c, log, r, t), ATurn)
  {
    var q := Questions(log) + 1;
    StoppedIs(c, log, HashOf(c, t));
    if HashOf(c, t) in StoppedHashes(c, log) || !Live(c, log, t) {
      ToldOne(c, log, ATurn, Passed(r, t), ATurn);
    } else {
      var yes := c.env.evaluate(q);
      ToldOne(c, log, ATurn, Asked(r, t, q, yes), if yes then TheMatch(r, t) else ATurn);
      if yes {
        MatchTold(c, AfterAsking(c, log, r, t), r, t);
      }
    }
  }

  lemma {:induction false} TorrentsTold(c: Setting, log: seq<Event>, r: nat, work: seq<nat>, n: nat)
    requires Told(c, log, ATurn) && r < |c.rules| && c.rules[r].enabled && Within(work, Size(c)) && n <= |work|
    ensures Told(c, AfterTorrents(c, log, r, work, n), ATurn)
    decreases n
  {
    if n > 0 {
      TorrentsTold(c, log, r, work, n - 1);
      TorrentTold(c, AfterTorrents(c, log, r, work, n - 1), r, work[n - 1]);
    }
  }

  lemma RuleTold(c: Setting, log: seq<Event>, r: nat, work: seq<nat>)
    requires Told(c, log, ATurn) && r < |c.rules| && Within(work, Size(c))
    ensures Told(c, AfterRule(c, log, r, work), ATurn)
  {
    if c.rules[r].enabled {
      ToldOne(c, log, ATurn, Entered(r), ATurn);
      TorrentsTold(c, log + [Entered(r)], r, work, |work|);
    }
  }

  lemma {:induction false} RulesTold(c: Setting, log: seq<Event>, n: nat, work: seq<nat>, l: seq<Event>)
    requires Told(c, log, ATurn) && n <= |c.rules| && Within(work, Size(c)) && l == AfterRules(c, log, n, work)
    ensures Told(c, l, ATurn)
    decreases n
  {
    if n > 0 {
      var before := AfterRules(c, log, n - 1, work);
      RulesTold(c, log, n - 1, work, before);
      RuleTold(c, before, n - 1, work);
    }
  }

  // ----- The turns of every step -----

  lemma TurnsOne(log: seq<Event>, e: Event)
    requires log != []
    ensures Turns(log + [e]) == Turns(log) + if IsTurn(e) then [TurnOf(e)] else []
  {
    assert (log + [e])[..|log|] == log;
  }

  lemma ActionTurns(c: Setting, log: seq<Event>, r: nat, t: nat)
    requires log != []
    ensures Turns(AfterAction(c, log, r, t)) == Turns(log)
  {
    var q := Questions(log) + 1;
    TurnsOne(log, Acted(r, t, q, OutcomeOf(c.env, c.dry, q)));
  }

  lemma {:induction false} ActionsTurns(c: Setting, log: seq<Event>, r: nat, t: nat, k: nat, l: seq<Event>)
    requires log != [] && l == AfterActions(c, log, r, t, k)
    ensures Turns(l) == Turns(log)
    decreases k
  {
    if k > 0 {
      var before := AfterActions(c, log, r, t, k - 1);
      ActionsTurns(c, log, r, t, k - 1, before);
      ActionTurns(c, before, r, t);
    }
  }

  lemma TorrentTurns(c: Setting, log: seq<Event>, r: nat, t: nat)
    requires Begun(c, log) && r < |c.rules| && t < Size(c)
    ensures Turns(AfterTorrent(c, log, r, t)) == Turns(log) + [Visit(r, t)]
  {
    var asked := AfterAsking(c, log, r, t);
    TurnsOne(log, Passed(r, t));
    TurnsOne(log, Asked(r, t, Questions(log) + 1, c.env.evaluate(Questions(log) + 1)));
    TurnsOne(asked, Matched(r, t));
    ActionsTurns(c, asked + [Matched(r, t)], r, t, c.rules[r].actions, AfterMatch(c, asked, r, t));
  }

  lemma VisitsOne(turns: seq<Turn>, r: nat, work: seq<nat>, n: nat)
    requires 0 < n <= |work|
    ensures turns + Visits(r, work[..n - 1]) + [Visit(r, work[n - 1])] == turns + Visits(r, work[..n])
  {
    assert work[..n][..n - 1] == work[..n - 1];
  }

  lemma {:induction false} TorrentsTurns(c: Setting, log: seq<Event>, r: nat, work: seq<nat>, n: nat, l: seq<Event>)
    requires Begun(c, log) && r < |c.rules| && Within(work, Size(c)) && n <= |work|
    requires l == AfterTorrents(c, log, r, work, n)
    ensures Turns(l) == Turns(log) + Visits(r, work[..n])
    decreases n
  {
    if n > 0 {
      var before := AfterTorrents(c, log, r, work, n - 1);
      TorrentsTurns(c, log, r, work, n - 1, before);
      TorrentTurns(c, before, r, work[n - 1]);
      VisitsOne(Turns(log), r, work, n);
    }
  }

  lemma RuleGoes(c: Setting, log: seq<Event>, r: nat, work: seq<nat>, l: seq<Event>)
    requires Begun(c, log) && r < |c.rules| && Within(work, Size(c)) && l == AfterRule(c, log, r, work)
    ensures Turns(l) == Turns(log) + RuleTurns(c.rules, r, work)
  {
    if c.rules[r].enabled {
      TurnsOne(log, Entered(r));
      TorrentsTurns(c, log + [Entered(r)], r, work, |work|, l);
      assert work[..|work|] == work;
      Regroup(Turns(log), Enter(r), Visits(r, work));
    }
  }

  lemma Regroup(a: seq<Turn>, turn: Turn, b: seq<Turn>)
    ensures a + [turn] + b == a + ([turn] + b)
  {
  }

  lemma {:induction false} RulesGo(c: Setting, log: seq<Event>, n: nat, work: seq<nat>, l: seq<Event>)
    requires Begun(c, log) && n <= |c.rules| && Within(work, Size(c)) && Turns(log) == []
    requires l == AfterRules(c, log, n, work)
    ensures Turns(l) == Plan(c.rules, n, work)
    decreases n
  {
    if n > 0 {
      var before := AfterRules(c, log, n - 1, work);
      RulesGo(c, log, n - 1, work, before);
      RuleGoes(c, before, n - 1, work, l);
    }
  }

  // ----- What the log of every run says -----

  lemma StartTold(c: Setting)
    ensures Told(c, [Started], ATurn)
  {
    assert [Started][..0] == [];
    assert Follows(c, [], Started) && Faithful(c, []);
  }

  lemma RunTold(env: Env, dry: bool, rules: seq<Rule>, fetched: seq<Torrent>, only: Option<string>)
    ensures Told(SettingOf(env, dry, rules, fetched), RunOf(env, dry, rules, fetched, only), ATurn)
  {
    var c := SettingOf(env, dry, rules, fetched);
    WorkInRange(fetched, only);
    StartTold(c);
    RulesTold(c, [Started], |rules|, Work(fetched, only), RunOf(env, dry, rules, fetched, only));
  }

  /** The torrent is one the run looks at. */
  predicate InRun(fetched: seq<Torrent>, only: Option<string>, t: nat) {
    t < |fetched| && (only == None || only == Some("") || only == Some(fetched[t].hash))
  }

  /**
   * A run takes up exactly the enabled rules, and comes with each to exactly the torrents it looks at:
   * once each, rule by rule in file order and torrent by torrent in the order fetched.
   */
  lemma RunTurns(env: Env, dry: bool, rules: seq<Rule>, fetched: seq<Torrent>, only: Option<string>)
    ensures var turns := Turns(RunOf(env, dry, rules, fetched, only));
            && InOrder(turns)
            && forall turn :: turn in turns <==>
                 turn.rule < |rules| && rules[turn.rule].enabled && (turn.Visit? ==> InRun(fetched, only, turn.torrent))
  {
    var work := Work(fetched, only);
    var plan := Plan(rules, |rules|, work);
    WorkInRange(fetched, only);
    assert [Started][..0] == [];
    RulesGo(SettingOf(env, dry, rules, fetched), [Started], |rules|, work, RunOf(env, dry, rules, fetched, only));
    WorkIs(fetched, only);
    PlanInOrder(rules, |rules|, work, plan);
    forall turn ensures turn in plan <==> Planned(rules, work, turn) {
      PlanHas(rules, |rules|, work, plan, turn);
    }
  }

  /** Every event of every run is the right one after those before it, and a run ends when nothing is pending. */
  lemma RunFollows(env: Env, dry: bool, rules: seq<Rule>, fetched: seq<Torrent>, only: Option<string>, k: nat)
    requires k < |RunOf(env, dry, rules, fetched, only)|
    ensures var log := RunOf(env, dry, rules, fetched, only);
            && Follows(SettingOf(env, dry, rules, fetched), log[..k], log[k])
            && Expecting(rules, log) == ATurn
  {
    RunTold(env, dry, rules, fetched, only);
    FaithfulAt(SettingOf(env, dry, rules, fetched), RunOf(env, dry, rules, fetched, only), k);
  }

  /** A log told to its end. */
  predicate Whole(c: Setting, log: seq<Event>) { Told(c, log, ATurn) }

  lemma {:induction false} TurnAt(log: seq<Event>, k: nat)
    requires k < |log| && IsTurn(log[k])
    ensures var at := |Turns(log[..k])|; at < |Turns(log)| && Turns(log)[at] == TurnOf(log[k])
  {
    if k < |log| - 1 {
      TurnAt(log[..|log| - 1], k);
      assert log[..|log| - 1][..k] == log[..k];
    }
  }

  /** What came before an event decides it: the answers and the plan leave no choice. */
  lemma NextDecided(c: Setting, log: seq<Event>, a: Event, b: Event)
    requires Fits(c, log)
    requires Follows(c, log, a)
    requires Follows(c, log, b)
    requires IsTurn(a) && IsTurn(b) ==> TurnOf(a) == TurnOf(b)
    ensures a == b
  {
  }

  lemma {:induction false} SameUpTo(c: Setting, a: seq<Event>, b: seq<Event>, k: nat)
    requires Whole(c, a) && Whole(c, b) && Turns(a) == Turns(b) && k <= |a| <= |b|
    ensures a[..k] == b[..k]
    decreases k
  {
    if k > 0 {
      SameUpTo(c, a, b, k - 1);
      FaithfulAt(c, a, k - 1);
      FaithfulAt(c, b, k - 1);
      if IsTurn(a[k - 1]) && IsTurn(b[k - 1]) {
        TurnAt(a, k - 1);
        TurnAt(b, k - 1);
      }
      NextDecided(c, a[..k - 1], a[k - 1], b[k - 1]);
    }
  }

  lemma ShorterIsSame(c: Setting, a: seq<Event>, b: seq<Event>)
    requires Whole(c, a) && Whole(c, b) && Turns(a) == Turns(b) && |a| <= |b|
    ensures a == b
  {
    SameUpTo(c, a, b, |a|);
    assert a[..|a|] == a;
    if |a| < |b| {
      FaithfulAt(c, b, |a|);
      TurnAt(b, |a|);
    }
  }

  /** Two logs of one setting that went through the same turns are the same. */
  lemma LogDecided(c: Setting, a: seq<Event>, b: seq<Event>)
    requires Whole(c, a) && Whole(c, b) && Turns(a) == Turns(b)
    ensures a == b
  {
    if |a| <= |b| {
      ShorterIsSame(c, a, b);
    } else {
      ShorterIsSame(c, b, a);
    }
  }

  /** There is no other log of these turns in which every event is the right one. */
  lemma RunIsTheOnlyLog(env: Env, dry: bool, rules: seq<Rule>, fetched: seq<Torrent>, only: Option<string>, log: seq<Event>)
    requires Whole(SettingOf(env, dry, rules, fetched), log)
    requires InOrder(Turns(log))
    requires forall turn :: turn in Turns(log) <==>
               turn.rule < |rules| && rules[turn.rule].enabled && (turn.Visit? ==> InRun(fetched, only, turn.torrent))
    ensures log == RunOf(env, dry, rules, fetched, only)
  {
    var s := RunOf(env, dry, rules, fetched, only);
    RunTold(env, dry, rules, fetched, only);
    RunTurns(env, dry, rules, fetched, only);
    OrderDecides(Turns(log), Turns(s));
    LogDecided(SettingOf(env, dry, rules, fetched), log, s);
  }

  lemma {:induction false} OrderDecides(a: seq<Turn>, b: seq<Turn>)
    requires InOrder(a) && InOrder(b) && forall turn :: turn in a <==> turn in b
    ensures a == b
  {
    assert (a != [] ==> a[0] in a) && (b != [] ==> b[0] in b);
    if a != [] && b != [] {
      assert a[0] in b && b[0] in a;
      assert a[0] == b[0];
      forall turn ensures turn in a[1..] <==> turn in b[1..] {
        assert turn in a <==> turn in b;
      }
      OrderDecides(a[1..], b[1..]);
      assert a == [a[0]] + a[1..] && b == [b[0]] + b[1..];
    }
  }

  // ----- Matches -----

  /** `log[k]` is where the rule comes to the torrent. */
  predicate ComesTo(log: seq<Event>, k: int, r: nat, t: nat) {
    0 <= k < |log| && (log[k].Passed? || log[k].Asked?) && log[k].rule == r && log[k].torrent == t
  }

  /** A match is exactly what comes right after a yes. */
  lemma MatchIsYes(c: Setting, log: seq<Event>, k: int, r: nat, t: nat)
    requires Whole(c, log)
    ensures 0 <= k < |log| && log[k] == Matched(r, t) <==>
            0 < k <= |log| && log[k - 1].Asked? && log[k - 1].rule == r && log[k - 1].torrent == t && log[k - 1].answer
  {
    if 0 <= k < |log| {
      FaithfulAt(c, log, k);
      assert k > 0 ==> log[..k][|log[..k]| - 1] == log[k - 1];
    }
  }

  /** The turn of one rule for one torrent is gone through once. */
  lemma OneTurn(log: seq<Event>, i: nat, j: nat, r: nat, t: nat)
    requires InOrder(Turns(log)) && ComesTo(log, i, r, t) && ComesTo(log, j, r, t)
    ensures i == j
  {
    if i != j {
      TurnsRise(log, i, j);
      TurnsRise(log, j, i);
    }
  }

  lemma FewerTurns(log: seq<Event>, i: nat, j: nat)
    requires i < j <= |log| && IsTurn(log[i])
    ensures |Turns(log[..i])| < |Turns(log[..j])|
  {
    assert log[..j][..i] == log[..i];
    TurnAt(log[..j], i);
  }

  /** Turns are in the order of the log. */
  lemma TurnsRise(log: seq<Event>, i: nat, j: nat)
    requires InOrder(Turns(log)) && i < |log| && j < |log| && IsTurn(log[i]) && IsTurn(log[j])
    ensures i < j ==> Before(TurnOf(log[i]), TurnOf(log[j]))
  {
    TurnAt(log, i);
    TurnAt(log, j);
    if i < j {
      FewerTurns(log, i, j);
    }
  }

  /** A planned turn is somewhere in the log. */
  lemma {:induction false} TurnIsThere(log: seq<Event>, r: nat, t: nat)
    requires Visit(r, t) in Turns(log)
    ensures exists k :: ComesTo(log, k, r, t)
  {
    var n := |log| - 1;
    var before := log[..n];
    if Visit(r, t) in Turns(before) {
      TurnIsThere(before, r, t);
      var k :| ComesTo(before, k, r, t);
      assert ComesTo(log, k, r, t);
    } else {
      assert ComesTo(log, n, r, t);
    }
  }

  /** A rule comes to a torrent once if it is enabled and the torrent is of the run, and otherwise never. */
  lemma RunComesOnce(env: Env, dry: bool, rules: seq<Rule>, fetched: seq<Torrent>, only: Option<string>, r: nat, t: nat)
    ensures var log := RunOf(env, dry, rules, fetched, only);
            && ((exists k :: ComesTo(log, k, r, t)) <==> r < |rules| && rules[r].enabled && InRun(fetched, only, t))
            && forall i, j :: ComesTo(log, i, r, t) && ComesTo(log, j, r, t) ==> i == j
  {
    var log := RunOf(env, dry, rules, fetched, only);
    RunTurns(env, dry, rules, fetched, only);
    if Visit(r, t) in Turns(log) {
      TurnIsThere(log, r, t);
    }
    forall k | ComesTo(log, k, r, t) ensures Visit(r, t) in Turns(log) {
      TurnAt(log, k);
    }
    forall i, j | ComesTo(log, i, r, t) && ComesTo(log, j, r, t) ensures i == j {
      OneTurn(log, i, j, r, t);
    }
  }

  /** The conditions are asked of the torrent there, and the answer is yes. */
  predicate SaysYes(c: Setting, log: seq<Event>, t: nat)
    requires Fits(c, log) && t < Size(c)
  {
    !Stopped(c, log, HashOf(c, t)) && Live(c, log, t) && c.env.evaluate(Questions(log) + 1)
  }

  /**
   * Where a rule comes to a torrent, the rule matches exactly if no stop_on_match rule has matched its
   * hash, it was not found gone, and its conditions, the next question, are answered yes.
   */
  lemma MatchesThere(c: Setting, log: seq<Event>, k: nat, r: nat, t: nat)
    requires Whole(c, log) && ComesTo(log, k, r, t)
    ensures t < Size(c)
    ensures k + 1 < |log| && log[k + 1] == Matched(r, t) <==> SaysYes(c, log[..k], t)
  {
    FaithfulAt(c, log, k);
    MatchIsYes(c, log, k + 1, r, t);
  }

  /**
   * A rule matches a torrent in a run exactly if it is enabled, the run looks at the torrent, and where the
   * rule comes to it the torrent is not stopped, not gone, and its conditions are answered yes.
   */
  lemma RunMatchesIff(env: Env, dry: bool, rules: seq<Rule>, fetched: seq<Torrent>, only: Option<string>, r: nat, t: nat)
    ensures var log := RunOf(env, dry, rules, fetched, only);
            Matched(r, t) in log <==>
              && r < |rules| && rules[r].enabled && InRun(fetched, only, t)
              && exists k :: ComesTo(log, k, r, t) && SaysYes(SettingOf(env, dry, rules, fetched), log[..k], t)
  {
    var log, c := RunOf(env, dry, rules, fetched, only), SettingOf(env, dry, rules, fetched);
    RunTold(env, dry, rules, fetched, only);
    RunComesOnce(env, dry, rules, fetched, only, r, t);
    if Matched(r, t) in log {
      var m :| 0 <= m < |log| && log[m] == Matched(r, t);
      MatchIsYes(c, log, m, r, t);
      assert ComesTo(log, m - 1, r, t);
      MatchesThere(c, log, m - 1, r, t);
    }
    forall k | ComesTo(log, k, r, t) && SaysYes(c, log[..k], t)
      ensures Matched(r, t) in log
    {
      MatchesThere(c, log, k, r, t);
    }
  }

  lemma AskedBefore(c: Setting, log: seq<Event>, k: nat) returns (q: nat)
    requires Whole(c, log) && k < |log| && log[k].Matched?
    ensures q + 1 == k && log[q].Asked? && log[q].rule == log[k].rule && log[q].torrent == log[k].torrent
  {
    MatchIsYes(c, log, k, log[k].rule, log[k].torrent);
    q := k - 1;
  }

  lemma MatchesRise(c: Setting, log: seq<Event>, i: nat, j: nat)
    requires Whole(c, log) && InOrder(Turns(log)) && i < j < |log| && log[i].Matched? && log[j].Matched?
    ensures log[i].rule < log[j].rule || (log[i].rule == log[j].rule && log[i].torrent < log[j].torrent)
  {
    var p := AskedBefore(c, log, i);
    var q := AskedBefore(c, log, j);
    TurnsRise(log, p, q);
  }

  /** Matches come rule by rule, and within a rule torrent by torrent. */
  lemma RunMatchesInOrder(env: Env, dry: bool, rules: seq<Rule>, fetched: seq<Torrent>, only: Option<string>, i: nat, j: nat)
    requires var log := RunOf(env, dry, rules, fetched, only);
             i < j < |log| && log[i].Matched? && log[j].Matched?
    ensures var log := RunOf(env, dry, rules, fetched, only);
            log[i].rule < log[j].rule || (log[i].rule == log[j].rule && log[i].torrent < log[j].torrent)
  {
    RunTold(env, dry, rules, fetched, only);
    RunTurns(env, dry, rules, fetched, only);
    MatchesRise(SettingOf(env, dry, rules, fetched), RunOf(env, dry, rules, fetched, only), i, j);
  }

  // ----- The actions of a match -----

  lemma {:induction false} ActionsAre(c: Setting, log: seq<Event>, k: nat, n: nat)
    requires Whole(c, log) && k < |log| && log[k].Matched? && n <= c.rules[log[k].rule].actions
    ensures k + n < |log| && (forall j :: k < j <= k + n ==> IsAct(log[j], log[k].rule, log[k].torrent))
    ensures Expecting(c.rules, log[..k + n + 1])
              == ActionsLeft(log[k].rule, log[k].torrent, c.rules[log[k].rule].actions - n)
    decreases n
  {
    if n == 0 {
      assert log[..k + 1][k] == log[k];
    } else {
      ActionsAre(c, log, k, n - 1);
      assert log[..|log|] == log;
      FaithfulAt(c, log, k + n);
      assert log[..k + n + 1] == log[..k + n] + [log[k + n]];
      ActionNext(c.rules, log[..k + n], log[k].rule, log[k].torrent, c.rules[log[k].rule].actions - n + 1, log[k + n]);
    }
  }

  lemma MatchActs(c: Setting, log: seq<Event>, k: nat, n: nat)
    requires Whole(c, log) && k < |log| && log[k].Matched? && n == c.rules[log[k].rule].actions
    ensures k + n < |log| && (forall j :: k < j <= k + n ==> IsAct(log[j], log[k].rule, log[k].torrent))
    ensures k + n + 1 < |log| ==> IsTurn(log[k + n + 1])
  {
    ActionsAre(c, log, k, n);
    if k + n + 1 < |log| {
      FaithfulAt(c, log, k + n + 1);
    }
  }

  /** A match is followed by as many actions on its torrent as its rule has, and by no more. */
  lemma RunActs(env: Env, dry: bool, rules: seq<Rule>, fetched: seq<Torrent>, only: Option<string>, k: nat)
    requires var log := RunOf(env, dry, rules, fetched, only); k < |log| && log[k].Matched?
    ensures var log := RunOf(env, dry, rules, fetched, only);
            && log[k].rule < |rules|
            && var n := rules[log[k].rule].actions;
               && k + n < |log|
               && (forall j :: k < j <= k + n ==> IsAct(log[j], log[k].rule, log[k].torrent))
               && (k + n + 1 < |log| ==> IsTurn(log[k + n + 1]))
  {
    var log := RunOf(env, dry, rules, fetched, only);
    RunTold(env, dry, rules, fetched, only);
    MatchActs(SettingOf(env, dry, rules, fetched), log, k, rules[log[k].rule].actions);
  }

  /** Each action is the next question, and ends as the services answer it. */
  lemma RunAnswers(env: Env, dry: bool, rules: seq<Rule>, fetched: seq<Torrent>, only: Option<string>, k: nat)
    requires var log := RunOf(env, dry, rules, fetched, only); k < |log| && log[k].Acted?
    ensures var log := RunOf(env, dry, rules, fetched, only);
            log[k].question == Questions(log[..k]) + 1 && Answered(env, dry, log[k].question, log[k].outcome)
  {
    RunTold(env, dry, rules, fetched, only);
    FaithfulAt(SettingOf(env, dry, rules, fetched), RunOf(env, dry, rules, fetched, only), k);
  }
}
