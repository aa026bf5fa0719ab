/** `RulesEngine.run`: rules over torrents over actions, with live counters and ledgers. */
module Engine {
  import opened Tree
  import opened Fleet

  /** How a step of the executor ends: true, false, or an exception. */
  datatype Check = Yes | No | Fails

  /** The answers of conditions and services to a run's questions, one per question, in any combination. */
  datatype Env = Env(
    evaluate: nat -> bool, idempotent: nat -> Check, perform: nat -> Check, refetch: nat -> Refetch)

  /** What stays the same throughout a run. */
  datatype Setting = Setting(env: Env, dry: bool, start: RunState, rules: seq<Rule>)

  function Size(c: Setting): nat { |c.start.fleet.torrents| }

  /** The hash of a torrent, which no fetch changes. */
  function HashOf(c: Setting, t: nat): string
    requires t < Size(c)
  {
    c.start.fleet.torrents[t].hash
  }

  /** The log speaks of rules and torrents there are. */
  predicate Fits(c: Setting, log: seq<Event>) { LogOk(c.rules, Size(c), log) }

  /** The run has started. */
  predicate Begun(c: Setting, log: seq<Event>) { log != [] && Fits(c, log) }

  // ----- What a log says about the state of a run -----

  predicate IsQuestion(e: Event) { e.Asked? || e.Acted? }

  /** How many questions were asked. */
  function Questions(log: seq<Event>): nat {
    if log == [] then 0 else Questions(log[..|log| - 1]) + Once(IsQuestion(log[|log| - 1]))
  }

  /** An action that is due, outside a dry run: a call that may change a torrent. */
  predicate IsCall(c: Setting, e: Event) { e.Acted? && !c.dry && c.env.idempotent(e.question) == No }

  /** How many calls were made that may change a torrent. */
  function Calls(c: Setting, log: seq<Event>): nat {
    if log == [] then 0 else Calls(c, log[..|log| - 1]) + Once(IsCall(c, log[|log| - 1]))
  }

  /** A rule that ends the processing of what it matches matched here. */
  predicate Stops(rules: seq<Rule>, e: Event) {
    e.Matched? && e.rule < |rules| && rules[e.rule].stopOnMatch
  }

  /** The hashes of the torrents that stop_on_match rules have matched. */
  function StoppedHashes(c: Setting, log: seq<Event>): set<string>
    requires Fits(c, log)
  {
    if log == [] then {}
    else
      var e := log[|log| - 1];
      StoppedHashes(c, log[..|log| - 1]) + if Stops(c.rules, e) then {HashOf(c, e.torrent)} else {}
  }

  /** The torrent was not found gone so far. */
  predicate Live(c: Setting, log: seq<Event>, t: nat)
    requires Fits(c, log) && t < Size(c)
  {
    !Replay(c.start, log, c.rules).fleet.torrents[t].deleted
  }

  /** What one more event adds. */
  lemma OneMore(c: Setting, log: seq<Event>, e: Event)
    requires Begun(c, log) && EventOk(c.rules, Size(c), e)
    ensures Begun(c, log + [e])
    ensures Replay(c.start, log + [e], c.rules) == Apply(Replay(c.start, log, c.rules), e, c.rules)
    ensures Questions(log + [e]) == Questions(log) + Once(IsQuestion(e))
    ensures Calls(c, log + [e]) == Calls(c, log) + Once(IsCall(c, e))
    ensures StoppedHashes(c, log + [e])
              == StoppedHashes(c, log) + if Stops(c.rules, e) then {HashOf(c, e.torrent)} else {}
  {
    assert (log + [e])[..|log|] == log;
  }

  /** Counters, torrents and ledger, questions asked and calls made. */
  datatype View = View(run: RunState, asked: nat, calls: nat)

  /** What the log makes of the start. */
  function ViewOf(c: Setting, log: seq<Event>): (v: View)
    requires Fits(c, log)
    ensures |v.run.fleet.torrents| == Size(c)
  {
    View(Replay(c.start, log, c.rules), Questions(log), Calls(c, log))
  }

  lemma ViewOne(c: Setting, log: seq<Event>, e: Event, v: View)
    requires Begun(c, log) && EventOk(c.rules, Size(c), e) && v == ViewOf(c, log)
    ensures Begun(c, log + [e])
    ensures ViewOf(c, log + [e])
              == View(Apply(v.run, e, c.rules), v.asked + Once(IsQuestion(e)), v.calls + Once(IsCall(c, e)))
    ensures StoppedHashes(c, log + [e])
              == StoppedHashes(c, log) + if Stops(c.rules, e) then {HashOf(c, e.torrent)} else {}
  {
    OneMore(c, log, e);
  }

  lemma StartedOnly(c: Setting)
    ensures ViewOf(c, [Started]) == View(c.start, 0, 0) && StoppedHashes(c, [Started]) == {}
  {
    assert [Started][..0] == [];
    assert Replay(c.start, [], c.rules) == c.start && Questions([]) == Calls(c, []) == 0 && StoppedHashes(c, []) == {};
    assert Replay(c.start, [Started], c.rules) == Apply(c.start, Started, c.rules) == c.start;
    assert Questions([Started]) == Calls(c, [Started]) == 0;
  }

  lemma {:induction false} HashesKept(c: Setting, log: seq<Event>, t: nat)
    requires Fits(c, log) && t < Size(c)
    ensures Replay(c.start, log, c.rules).fleet.torrents[t].hash == HashOf(c, t)
  {
    if log != [] {
      HashesKept(c, log[..|log| - 1], t);
    }
  }

  // ----- A run, as a function of the answers -----

  /** `ActionExecutor.execute` and what is fetched after it, for the answers to question `q`. */
  function OutcomeOf(env: Env, dry: bool, q: nat): Outcome {
    match env.idempotent(q)
    case Yes => Skipped
    case Fails => Failed
    case No =>
      if dry then (if env.perform(q) == Fails then Failed else Skipped)
      else if env.perform(q) == Yes then Done(env.refetch(q))
      else Failed
  }

  /** One action of a match. */
  function AfterAction(c: Setting, log: seq<Event>, r: nat, t: nat): seq<Event> {
    var q := Questions(log) + 1;
    log + [Acted(r, t, q, OutcomeOf(c.env, c.dry, q))]
  }

  function AfterActions(c: Setting, log: seq<Event>, r: nat, t: nat, k: nat): (l: seq<Event>)
    requires log != []
    ensures l != []
  {
    if k == 0 then log else AfterAction(c, AfterActions(c, log, r, t, k - 1), r, t)
  }

  /** The conditions of a rule are asked of a torrent. */
  function AfterAsking(c: Setting, log: seq<Event>, r: nat, t: nat): seq<Event> {
    var q := Questions(log) + 1;
    log + [Asked(r, t, q, c.env.evaluate(q))]
  }

  /** A match, and what the rule does about it. */
  function AfterMatch(c: Setting, log: seq<Event>, r: nat, t: nat): (l: seq<Event>)
    requires r < |c.rules|
    ensures l != []
  {
    AfterActions(c, log + [Matched(r, t)], r, t, c.rules[r].actions)
  }

  lemma {:induction false} ActionsFit(c: Setting, log: seq<Event>, r: nat, t: nat, k: nat)
    requires r < |c.rules| && t < Size(c) && Begun(c, log)
    ensures Begun(c, AfterActions(c, log, r, t, k))
    decreases k
  {
    if k > 0 {
      ActionsFit(c, log, r, t, k - 1);
    }
  }

  /** One rule on one torrent: passed over if stopped or gone, else asked, and acted on if it matches. */
  function AfterTorrent(c: Setting, log: seq<Event>, r: nat, t: nat): (l: seq<Event>)
    requires r < |c.rules| && t < Size(c) && Begun(c, log)
    ensures Begun(c, l)
  {
    var asked := AfterAsking(c, log, r, t);
    if HashOf(c, t) in StoppedHashes(c, log) || !Live(c, log, t) then log + [Passed(r, t)]
    else if c.env.evaluate(Questions(log) + 1) then
      ActionsFit(c, asked + [Matched(r, t)], r, t, c.rules[r].actions);
      AfterMatch(c, asked, r, t)
    else asked
  }

  predicate Within(work: seq<nat>, n: nat) { forall i :: 0 <= i < |work| ==> work[i] < n }

  /** One rule on the first `n` torrents of the run, in order. */
  function AfterTorrents(c: Setting, log: seq<Event>, r: nat, work: seq<nat>, n: nat): (l: seq<Event>)
    requires r < |c.rules| && Within(work, Size(c)) && n <= |work| && Begun(c, log)
    ensures Begun(c, l)
  {
    if n == 0 then log else AfterTorrent(c, AfterTorrents(c, log, r, work, n - 1), r, work[n - 1])
  }

  /** One rule; a disabled one does nothing. */
  function AfterRule(c: Setting, log: seq<Event>, r: nat, work: seq<nat>): (l: seq<Event>)
    requires r < |c.rules| && Within(work, Size(c)) && Begun(c, log)
    ensures Begun(c, l)
  {
    if c.rules[r].enabled then AfterTorrents(c, log + [Entered(r)], r, work, |work|) else log
  }

  /** The first `n` rules, in order. */
  function AfterRules(c: Setting, log: seq<Event>, n: nat, work: seq<nat>): (l: seq<Event>)
    requires n <= |c.rules| && Within(work, Size(c)) && Begun(c, log)
    ensures Begun(c, l)
  {
    if n == 0 then log else AfterRule(c, AfterRules(c, log, n - 1, work), n - 1, work)
  }

  /** The run is for one torrent only. */
  predicate Single(only: Option<string>) { only.Some? && only.value != "" }

  /** The positions of the torrents a run looks at. */
  function Work(ts: seq<Torrent>, only: Option<string>): seq<nat> {
    if ts == [] then []
    else
      var last := |ts| - 1;
      Work(ts[..last], only) + if !Single(only) || ts[last].hash == only.value then [last] else []
  }

  lemma {:induction false} WorkInRange(ts: seq<Torrent>, only: Option<string>)
    ensures Within(Work(ts, only), |ts|)
  {
    if ts != [] {
      WorkInRange(ts[..|ts| - 1], only);
    }
  }

  /** A run starts from its snapshot and an empty ledger. */
  function Fresh(fetched: seq<Torrent>): RunState { RunState(Snapshot(fetched), Ledger(0, 0, 0, 0, [])) }

  function SettingOf(env: Env, dry: bool, rules: seq<Rule>, fetched: seq<Torrent>): Setting {
    Setting(env, dry, Fresh(fetched), rules)
  }

  /** The log of a whole run for which there is a torrent. */
  function RunOf(env: Env, dry: bool, rules: seq<Rule>, fetched: seq<Torrent>, only: Option<string>): (log: seq<Event>)
    ensures LogOk(rules, |fetched|, log)
  {
    WorkInRange(fetched, only);
    AfterRules(SettingOf(env, dry, rules, fetched), [Started], |rules|, Work(fetched, only))
  }

  /** The counters and the ledger at the end of a run. */
  function Final(env: Env, dry: bool, rules: seq<Rule>, fetched: seq<Torrent>, only: Option<string>): RunState {
    Replay(Fresh(fetched), RunOf(env, dry, rules, fetched, only), rules)
  }

  /** A run for one torrent that is not there. */
  predicate Nothing(fetched: seq<Torrent>, only: Option<string>) { Single(only) && Work(fetched, only) == [] }

  class RulesEngine {
    const env: Env
    const dryRun: bool
    // stats.* and the torrents, as in memory
    var torrents: seq<Torrent>
    var total: int
    var states: map<Option<string>, int>
    var tags: map<string, int>
    var categories: map<string, int>
    // RuleStats
    var totalTorrents: nat
    var processed: nat
    var matched: nat
    var executed: nat
    var skipped: nat
    var errors: nat
    var byRule: seq<Row>
    // hashes a stop_on_match rule has matched
    var stopped: set<string>
    // questions asked so far, and calls that may change a torrent
    var asked: nat
    var mutatingCalls: nat
    // what the run started from, and what it did
    ghost var start: RunState
    ghost var log: seq<Event>

    constructor (env: Env, dryRun: bool)
      ensures this.env == env && this.dryRun == dryRun
      ensures Untouched()
    {
      this.env, this.dryRun := env, dryRun;
      torrents, total, states, tags, categories := [], 0, map[], map[], map[];
      totalTorrents, processed, matched, executed, skipped, errors, byRule := 0, 0, 0, 0, 0, 0, [];
      stopped, asked, mutatingCalls, log := {}, 0, 0, [];
    }

    /** No run so far. */
    ghost predicate Untouched()
      reads this
    {
      && torrents == [] && totalTorrents == processed == 0 && stopped == {} && asked == mutatingCalls == 0
      && log == [] && CurrentLedger() == Ledger(0, 0, 0, 0, [])
    }

    function CurrentFleet(): Fleet
      reads this
    {
      Fleet(torrents, total, states, tags, categories)
    }

    function CurrentLedger(): Ledger
      reads this
    {
      Ledger(matched, executed, skipped, errors, byRule)
    }

    ghost function CurrentRun(): RunState
      reads this
    {
      RunState(CurrentFleet(), CurrentLedger())
    }

    ghost function Now(): View
      reads this
    {
      View(CurrentRun(), asked, mutatingCalls)
    }

    ghost function CurrentSetting(rules: seq<Rule>): Setting
      reads this
    {
      Setting(env, dryRun, start, rules)
    }

    /** The fields are what the log makes of the start. */
    ghost predicate InStep(rules: seq<Rule>)
      reads this
    {
      Begun(CurrentSetting(rules), log) && Now() == ViewOf(CurrentSetting(rules), log)
    }

    /** And the stopped hashes as well: so it is whenever no match is being acted on. */
    ghost predicate Settled(rules: seq<Rule>)
      reads this
    {
      InStep(rules) && stopped == StoppedHashes(CurrentSetting(rules), log)
    }

    /** `self.evaluator.stats["tag"][tag] += d` for each tag of a set. */
    method BumpTags(ks: set<string>, d: int)
      modifies `tags
      ensures tags == BumpAll(old(tags), ks, d)
    {
      var left := ks;
      while left != {}
        invariant left <= ks && tags == BumpAll(old(tags), ks - left, d)
        decreases |left|
      {
        var tag :| tag in left;
        tags := Bump(tags, tag, d);
        left := left - {tag};
      }
      assert ks - left == ks;
    }

    /** Takes over what fetching the torrent again brought. */
    method Refresh(t: nat, r: Refetch)
      requires t < |torrents|
      modifies `torrents, `total, `states, `tags, `categories
      ensures CurrentFleet() == Refetched(old(CurrentFleet()), t, r)
    {
      var before := torrents[t];
      match r
      case Broken =>
      case Found(state, category, newTags) =>
        torrents := torrents[t := before.(state := state, category := category, tags := newTags)];
        if state != before.state {
          states := Bump(states, before.state, -1);
          states := Bump(states, state, 1);
        }
        BumpTags(TagSet(torrents[t]) - TagSet(before), 1);
        BumpTags(TagSet(before) - TagSet(torrents[t]), -1);
      case Gone =>
        torrents := torrents[t := before.(deleted := true)];
        states := Bump(states, before.state, -1);
        total := total - 1;
        BumpTags(TagSet(before), -1);
        if before.category != None && before.category != Some("") {
          categories := Bump(categories, before.category.value, -1);
        }
    }

    /** `ActionExecutor.execute`. */
    method Execute() returns (success: bool, skip: bool)
      modifies `asked, `mutatingCalls
      ensures asked == old(asked) + 1
      ensures mutatingCalls == old(mutatingCalls) + if env.idempotent(asked) == No && !dryRun then 1 else 0
      ensures success <==> !OutcomeOf(env, dryRun, asked).Failed?
      ensures skip <==> OutcomeOf(env, dryRun, asked).Skipped?
    {
      asked := asked + 1;
      match env.idempotent(asked)
      case Yes => return true, true;
      case Fails => return false, false;
      case No =>
        if dryRun {
          // Logging what would happen may fail as well
          return env.perform(asked) != Fails, env.perform(asked) != Fails;
        }
        mutatingCalls := mutatingCalls + 1;
        return env.perform(asked) == Yes, false;
    }

    /** Adds to the aggregate counters and to the rule's own. */
    method Tally(id: string, m: nat, x: nat, s: nat, e: nat)
      modifies `matched, `executed, `skipped, `errors, `byRule
      ensures CurrentLedger() == Record(old(CurrentLedger()), id, m, x, s, e)
    {
      matched, executed, skipped, errors := matched + m, executed + x, skipped + s, errors + e;
      byRule := AddTo(byRule, id, m, x, s, e);
    }

    /** One action of a matched rule, and the fetch after it. */
    method PerformAction(rules: seq<Rule>, r: nat, t: nat)
      requires InStep(rules) && r < |rules| && t < |torrents|
      modifies `torrents, `total, `states, `tags, `categories, `matched, `executed, `skipped, `errors, `byRule, `asked,
               `mutatingCalls, `log
      ensures InStep(rules) && log == AfterAction(CurrentSetting(rules), old(log), r, t)
    {
      ActionView(CurrentSetting(rules), log, r, t, Now());
      var success, skip := Execute();
      Settle(rules, r, t, success, skip);
      log := AfterAction(CurrentSetting(rules), log, r, t);
    }

    /** Counts how an action ended, and fetches the torrent again if it was executed. */
    method Settle(rules: seq<Rule>, r: nat, t: nat, success: bool, skip: bool)
      requires r < |rules| && t < |torrents|
      requires success <==> !OutcomeOf(env, dryRun, asked).Failed?
      requires skip <==> OutcomeOf(env, dryRun, asked).Skipped?
      modifies `torrents, `total, `states, `tags, `categories, `matched, `executed, `skipped, `errors, `byRule
      ensures CurrentRun() == Apply(old(CurrentRun()), Acted(r, t, asked, OutcomeOf(env, dryRun, asked)), rules)
    {
      if success && skip {
        Tally(rules[r].id, 0, 0, 1, 0);
      } else if success {
        Tally(rules[r].id, 0, 1, 0, 0);
        Refresh(t, env.refetch(asked));
      } else {
        Tally(rules[r].id, 0, 0, 0, 1);
      }
    }

    /** The actions of a match, in order. */
    method PerformActions(rules: seq<Rule>, r: nat, t: nat)
      requires InStep(rules) && r < |rules| && t < |torrents|
      modifies `torrents, `total, `states, `tags, `categories, `matched, `executed, `skipped, `errors, `byRule, `asked,
               `mutatingCalls, `log
      ensures InStep(rules) && log == AfterActions(CurrentSetting(rules), old(log), r, t, rules[r].actions)
    {
      for k := 0 to rules[r].actions
        invariant InStep(rules) && |torrents| == old(|torrents|)
        invariant log == AfterActions(CurrentSetting(rules), old(log), r, t, k)
      {
        PerformAction(rules, r, t);
      }
    }

    /** Asks whether the conditions of the rule hold of the torrent. */
    method Evaluate(rules: seq<Rule>, r: nat, t: nat) returns (passes: bool)
      requires InStep(rules) && r < |rules| && t < |torrents|
      modifies `asked, `log
      ensures passes == env.evaluate(old(asked) + 1)
      ensures InStep(rules) && log == AfterAsking(CurrentSetting(rules), old(log), r, t)
      ensures StoppedHashes(CurrentSetting(rules), log) == old(StoppedHashes(CurrentSetting(rules), log))
    {
      ghost var e := Asked(r, t, asked + 1, env.evaluate(asked + 1));
      ViewOne(CurrentSetting(rules), log, e, Now());
      asked := asked + 1;
      passes := env.evaluate(asked);
      log := log + [e];
    }

    /** Counts a match. */
    method CountMatch(rules: seq<Rule>, r: nat, t: nat)
      requires InStep(rules) && r < |rules| && t < |torrents|
      modifies `matched, `executed, `skipped, `errors, `byRule, `log
      ensures InStep(rules) && log == old(log) + [Matched(r, t)]
    {
      ViewOne(CurrentSetting(rules), log, Matched(r, t), Now());
      Tally(rules[r].id, 1, 0, 0, 0);
      log := log + [Matched(r, t)];
    }

    method ActOnMatch(rules: seq<Rule>, r: nat, t: nat)
      requires InStep(rules) && r < |rules| && t < |torrents|
      modifies `torrents, `total, `states, `tags, `categories, `matched, `executed, `skipped, `errors, `byRule,
               `asked, `mutatingCalls, `log
      ensures InStep(rules) && log == AfterMatch(CurrentSetting(rules), old(log), r, t)
    {
      CountMatch(rules, r, t);
      PerformActions(rules, r, t);
    }

    /** A match, and the hash stopped if the rule says so. */
    method ProcessMatch(rules: seq<Rule>, r: nat, t: nat, hash: string)
      requires Settled(rules) && r < |rules| && t < |torrents| && torrents[t].hash == hash
      modifies `torrents, `total, `states, `tags, `categories, `matched, `executed, `skipped, `errors, `byRule, `stopped,
               `asked, `mutatingCalls, `log
      ensures Settled(rules) && log == AfterMatch(CurrentSetting(rules), old(log), r, t)
    {
      MatchStops(CurrentSetting(rules), log, r, t);
      ActOnMatch(rules, r, t);
      if rules[r].stopOnMatch {
        stopped := stopped + {hash};
      }
    }

    /** Passes over a torrent. */
    ghost method PassOver(rules: seq<Rule>, r: nat, t: nat)
      requires Settled(rules) && r < |rules| && t < |torrents|
      modifies `log
      ensures Settled(rules) && log == old(log) + [Passed(r, t)]
    {
      ViewOne(CurrentSetting(rules), log, Passed(r, t), Now());
      log := log + [Passed(r, t)];
    }

    /** One rule on one torrent. */
    method ProcessTorrent(rules: seq<Rule>, r: nat, t: nat)
      requires Settled(rules) && r < |rules| && t < |torrents|
      modifies `torrents, `total, `states, `tags, `categories, `matched, `executed, `skipped, `errors, `byRule, `stopped,
               `asked, `mutatingCalls, `log
      ensures Settled(rules) && log == AfterTorrent(CurrentSetting(rules), old(log), r, t)
    {
      HashesKept(CurrentSetting(rules), log, t);
      var hash := torrents[t].hash;
      if hash in stopped || torrents[t].deleted {
        PassOver(rules, r, t);
        return;
      }
      var passes := Evaluate(rules, r, t);
      if passes {
        ProcessMatch(rules, r, t, hash);
      }
    }

    /** Makes sure the rule has a row. */
    method Enter(rules: seq<Rule>, r: nat)
      requires Settled(rules) && r < |rules|
      modifies `matched, `executed, `skipped, `errors, `byRule, `log
      ensures Settled(rules) && log == old(log) + [Entered(r)]
    {
      ViewOne(CurrentSetting(rules), log, Entered(r), Now());
      Tally(rules[r].id, 0, 0, 0, 0);
      log := log + [Entered(r)];
    }

    /** One rule on every torrent of the run, in order. */
    method ProcessRule(rules: seq<Rule>, r: nat, work: seq<nat>)
      requires Settled(rules) && r < |rules| && Within(work, |torrents|)
      modifies `torrents, `total, `states, `tags, `categories, `matched, `executed, `skipped, `errors, `byRule, `stopped,
               `asked, `mutatingCalls, `log
      ensures Settled(rules) && log == AfterRule(CurrentSetting(rules), old(log), r, work)
    {
      if !rules[r].enabled {
        return;
      }
      Enter(rules, r);
      ghost var entered := log;
      for i := 0 to |work|
        invariant Settled(rules) && log == AfterTorrents(CurrentSetting(rules), entered, r, work, i)
      {
        ProcessTorrent(rules, r, work[i]);
      }
    }

    method RunRules(rules: seq<Rule>, work: seq<nat>)
      requires Settled(rules) && Within(work, |torrents|)
      modifies `torrents, `total, `states, `tags, `categories, `matched, `executed, `skipped, `errors, `byRule, `stopped,
               `asked, `mutatingCalls, `log
      ensures Settled(rules) && log == AfterRules(CurrentSetting(rules), old(log), |rules|, work)
    {
      ghost var c, started := CurrentSetting(rules), log;
      for r := 0 to |rules|
        invariant Settled(rules) && CurrentSetting(rules) == c && log == AfterRules(c, started, r, work)
      {
        ghost var before := log;
        ProcessRule(rules, r, work);
        assert log == AfterRule(c, before, r, work);
      }
    }

    /** Takes the snapshot. */
    method TakeSnapshot(fetched: seq<Torrent>)
      modifies `torrents, `total, `states, `tags, `categories
      ensures CurrentFleet() == Snapshot(fetched)
    {
      torrents := fetched;
      total, states, tags, categories := |fetched|, StateCounts(fetched), TagCounts(fetched), CategoryCounts(fetched);
    }

    method Begin(fetched: seq<Torrent>, ghost rules: seq<Rule>, ghost first: RunState)
      requires Untouched() && first == Fresh(fetched)
      modifies `torrents, `total, `states, `tags, `categories, `start, `log
      ensures start == first && torrents == fetched && log == [Started] && Settled(rules)
    {
      TakeSnapshot(fetched);
      start, log := first, [Started];
      StartedOnly(CurrentSetting(rules));
    }

    /** `run`: every rule in file order; with `only`, on the one torrent of that hash. */
    method Run(rules: seq<Rule>, fetched: seq<Torrent>, only: Option<string>)
      requires Untouched()
      modifies this
      ensures if Nothing(fetched, only) then Untouched()
              else log == RunOf(env, dryRun, rules, fetched, only) && Ends(rules, fetched, only)
    {
      var work := Work(fetched, only);
      if Single(only) && work == [] {
        return;
      }
      RunOn(rules, fetched, only, work);
    }

    method RunOn(rules: seq<Rule>, fetched: seq<Torrent>, ghost only: Option<string>, work: seq<nat>)
      requires Untouched() && work == Work(fetched, only)
      modifies this
      ensures log == RunOf(env, dryRun, rules, fetched, only) && Ends(rules, fetched, only)
    {
      WorkInRange(fetched, only);
      Begin(fetched, rules, Fresh(fetched));
      totalTorrents := |work|;
      RunRules(rules, work);
      processed := |stopped|;
    }

    /** All fields are what the log makes of the start of a run. */
    ghost predicate Ends(rules: seq<Rule>, fetched: seq<Torrent>, only: Option<string>)
      reads this
    {
      start == Fresh(fetched) && Settled(rules) && totalTorrents == |Work(fetched, only)| && processed == |stopped|
    }
  }

  lemma ActionView(c: Setting, log: seq<Event>, r: nat, t: nat, v: View)
    requires Begun(c, log) && r < |c.rules| && t < Size(c) && v == ViewOf(c, log)
    ensures Begun(c, AfterAction(c, log, r, t))
    ensures var q := v.asked + 1;
            ViewOf(c, AfterAction(c, log, r, t))
            == View(Apply(v.run, Acted(r, t, q, OutcomeOf(c.env, c.dry, q)), c.rules), q,
                    v.calls + if c.env.idempotent(q) == No && !c.dry then 1 else 0)
  {
    var q := v.asked + 1;
    ViewOne(c, log, Acted(r, t, q, OutcomeOf(c.env, c.dry, q)), v);
  }

  lemma {:induction false} ActionsStopNothing(c: Setting, log: seq<Event>, r: nat, t: nat, k: nat)
    requires r < |c.rules| && t < Size(c) && Begun(c, log)
    ensures Begun(c, AfterActions(c, log, r, t, k))
    ensures StoppedHashes(c, AfterActions(c, log, r, t, k)) == StoppedHashes(c, log)
    decreases k
  {
    if k > 0 {
      ActionsStopNothing(c, log, r, t, k - 1);
      var before := AfterActions(c, log, r, t, k - 1);
      var q := Questions(before) + 1;
      OneMore(c, before, Acted(r, t, q, OutcomeOf(c.env, c.dry, q)));
    }
  }

  /** After a match the hash is stopped if the rule says so. */
  lemma MatchStops(c: Setting, log: seq<Event>, r: nat, t: nat)
    requires r < |c.rules| && t < Size(c) && Begun(c, log)
    ensures Begun(c, AfterMatch(c, log, r, t))
    ensures StoppedHashes(c, AfterMatch(c, log, r, t))
              == StoppedHashes(c, log) + if c.rules[r].stopOnMatch then {HashOf(c, t)} else {}
    ensures Replay(c.start, log, c.rules).fleet.torrents[t].hash == HashOf(c, t)
  {
    HashesKept(c, log, t);
    OneMore(c, log, Matched(r, t));
    ActionsStopNothing(c, log + [Matched(r, t)], r, t, c.rules[r].actions);
  }
}
