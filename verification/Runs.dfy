/** What every run guarantees for the ledger, the counters and stopped torrents. */
module Runs {
  import opened Tree
  import opened Fleet
  import opened Engine
  import opened RunLog

  // ----- Actions belong to matches -----

  /** Event `i` is a match, and every event after it up to `j` is one of its actions. */
  predicate Owns(log: seq<Event>, i: int, j: int) {
    0 <= i <= j < |log| && log[i].Matched? && forall k :: i < k <= j ==> IsAct(log[k], log[i].rule, log[i].torrent)
  }

  /** While actions of a match are to come, all since the match were its actions. */
  lemma {:induction false} OwnerOf(c: Setting, log: seq<Event>) returns (m: nat)
    requires Fits(c, log) && Faithful(c, log) && Expecting(c.rules, log).AnAction?
    ensures Owns(log, m, |log| - 1)
    ensures log[m] == Matched(Expecting(c.rules, log).rule, Expecting(c.rules, log).torrent)
  {
    var n := |log| - 1;
    if log[n].Matched? {
      m := n;
    } else {
      m := OwnerOf(c, log[..n]);
    }
  }

  lemma ActOwned(c: Setting, log: seq<Event>, j: nat) returns (m: nat)
    requires Whole(c, log) && j < |log| && log[j].Acted?
    ensures m < j && Owns(log, m, j)
  {
    FaithfulAt(c, log, j);
    FaithfulUpTo(c, log, j);
    m := OwnerOf(c, log[..j]);
  }

  lemma {:induction false} FaithfulUpTo(c: Setting, log: seq<Event>, k: nat)
    requires Fits(c, log) && Faithful(c, log) && k <= |log|
    ensures Faithful(c, log[..k])
  {
    if k < |log| {
      FaithfulUpTo(c, log[..|log| - 1], k);
      assert log[..|log| - 1][..k] == log[..k];
    } else {
      assert log[..k] == log;
    }
  }

  // ----- Stopped torrents -----

  /** Where conditions are asked, no stop_on_match rule has matched the hash. */
  lemma NotAskedAgain(c: Setting, log: seq<Event>, i: nat, j: nat)
    requires Whole(c, log) && i < j < |log| && Stops(c.rules, log[i]) && log[j].Asked?
    ensures log[i].torrent < Size(c) && log[j].torrent < Size(c)
    ensures HashOf(c, log[i].torrent) != HashOf(c, log[j].torrent)
  {
    FaithfulAt(c, log, j);
    assert log[..j][i] == log[i];
  }

  lemma NotMatchedAgain(c: Setting, log: seq<Event>, i: nat, j: nat)
    requires Whole(c, log) && i < j < |log| && Stops(c.rules, log[i]) && log[j].Matched?
    ensures log[i].torrent < Size(c) && log[j].torrent < Size(c)
    ensures HashOf(c, log[i].torrent) != HashOf(c, log[j].torrent)
  {
    var q := AskedBefore(c, log, j);
    NotAskedAgain(c, log, i, q);
  }

  /**
   * Once a stop_on_match rule has matched a torrent, whatever still happens to its hash, but being
   * passed over, is one of that match's own actions.
   */
  lemma StopOnMatchIsFinal(c: Setting, log: seq<Event>, i: nat, j: nat)
    requires Whole(c, log) && i < j < |log| && Stops(c.rules, log[i])
    requires log[j].Asked? || log[j].Matched? || log[j].Acted?
    requires log[i].torrent < Size(c) && log[j].torrent < Size(c)
    requires HashOf(c, log[i].torrent) == HashOf(c, log[j].torrent)
    ensures Owns(log, i, j)
  {
    if log[j].Asked? {
      NotAskedAgain(c, log, i, j);
    } else if log[j].Matched? {
      NotMatchedAgain(c, log, i, j);
    } else {
      var m := ActOwned(c, log, j);
      assert m < i ==> IsAct(log[i], log[m].rule, log[m].torrent);
      assert IsAct(log[j], log[m].rule, log[m].torrent);
      if i < m {
        NotMatchedAgain(c, log, i, m);
      }
    }
  }

  /** In every run, once a stop_on_match rule has matched a torrent it is passed over, but for that match's own actions. */
  lemma RunStopsOnMatch(env: Env, dry: bool, rules: seq<Rule>, fetched: seq<Torrent>, only: Option<string>, i: nat, j: nat)
    requires var log := RunOf(env, dry, rules, fetched, only);
             && i < j < |log| && Stops(rules, log[i]) && (log[j].Asked? || log[j].Matched? || log[j].Acted?)
             && log[i].torrent < |fetched| && log[j].torrent < |fetched|
             && fetched[log[i].torrent].hash == fetched[log[j].torrent].hash
    ensures Owns(RunOf(env, dry, rules, fetched, only), i, j)
  {
    RunTold(env, dry, rules, fetched, only);
    StopOnMatchIsFinal(SettingOf(env, dry, rules, fetched), RunOf(env, dry, rules, fetched, only), i, j);
  }

  // ----- The ledger -----

  /** How many actions of the last match are still to come. */
  function Left(x: Expected): nat { if x.AnAction? then x.left else 0 }

  lemma {:induction false} ActionsAddUp(c: Setting, log: seq<Event>)
    requires Fits(c, log) && Faithful(c, log)
    ensures Acts(log) + Left(Expecting(c.rules, log)) == ActionsDue(log, c.rules)
  {
    if log != [] {
      ActionsAddUp(c, log[..|log| - 1]);
      LeftIsPositive(c, log[..|log| - 1]);
    }
  }

  lemma {:induction false} LeftIsPositive(c: Setting, log: seq<Event>)
    ensures Expecting(c.rules, log).AnAction? ==> Expecting(c.rules, log).left > 0
  {
  }

  /**
   * After every run: each aggregate counter is the sum of its per-rule counters, every action due was
   * executed, skipped or failed, and the total is short by the fetches that found nothing.
   */
  lemma RunLedger(env: Env, dry: bool, rules: seq<Rule>, fetched: seq<Torrent>, only: Option<string>)
    ensures var log, end := RunOf(env, dry, rules, fetched, only), Final(env, dry, rules, fetched, only);
            && Balanced(end.ledger)
            && end.ledger.matched == Matches(log)
            && end.ledger.executed + end.ledger.skipped + end.ledger.errors == ActionsDue(log, rules)
            && end.fleet.total == |fetched| - GoneCount(log)
  {
    var log := RunOf(env, dry, rules, fetched, only);
    RunTold(env, dry, rules, fetched, only);
    ActionsAddUp(SettingOf(env, dry, rules, fetched), log);
    LedgerBalances(Fresh(fetched), log, rules);
    LedgerCounts(Fresh(fetched), log, rules);
    TotalCountsGone(Fresh(fetched), log, rules);
  }

  /** An event for the ledger is of an enabled rule. */
  lemma {:induction false} OnlyEnabled(c: Setting, log: seq<Event>)
    requires Fits(c, log) && Faithful(c, log)
    ensures forall i :: 0 <= i < |log| && Counts(log[i]) ==> c.rules[log[i].rule].enabled
    ensures var x := Expecting(c.rules, log);
            x.TheMatch? || x.AnAction? ==> x.rule < |c.rules| && c.rules[x.rule].enabled
  {
    if log != [] {
      OnlyEnabled(c, log[..|log| - 1]);
    }
  }

  lemma {:induction false} HowManyIs(log: seq<Event>, such: Event -> bool)
    ensures HowMany(log, such) > 0 <==> exists i :: 0 <= i < |log| && such(log[i])
  {
    if log != [] {
      var n := |log| - 1;
      HowManyIs(log[..n], such);
      assert such(log[n]) || !such(log[n]);
      assert forall i :: 0 <= i < n ==> log[..n][i] == log[i];
    }
  }

  lemma {:induction false} EntryIsThere(log: seq<Event>, r: nat)
    requires Enter(r) in Turns(log)
    ensures exists i :: 0 <= i < |log| && log[i] == Entered(r)
  {
    var n := |log| - 1;
    if log[n] != Entered(r) {
      EntryIsThere(log[..n], r);
      var i :| 0 <= i < n && log[..n][i] == Entered(r);
      assert log[i] == Entered(r);
    }
  }

  lemma EntriesAreEnabled(env: Env, dry: bool, rules: seq<Rule>, fetched: seq<Torrent>, only: Option<string>, id: string)
    ensures HowMany(RunOf(env, dry, rules, fetched, only), Entries(rules, id)) > 0 <==>
              exists r :: 0 <= r < |rules| && rules[r].enabled && rules[r].id == id
  {
    var log, such := RunOf(env, dry, rules, fetched, only), Entries(rules, id);
    HowManyIs(log, such);
    RunTold(env, dry, rules, fetched, only);
    OnlyEnabled(SettingOf(env, dry, rules, fetched), log);
    RunTurns(env, dry, rules, fetched, only);
    forall r | 0 <= r < |rules| && rules[r].enabled && rules[r].id == id ensures exists i :: 0 <= i < |log| && such(log[i]) {
      EntryIsThere(log, r);
      var i :| 0 <= i < |log| && log[i] == Entered(r);
      assert such(log[i]);
    }
  }

  /**
   * After every run there is one row for each id an enabled rule has and no other, and each row counts
   * exactly the matches, executed, skipped and failed actions of the rules of its id.
   */
  lemma RunRows(env: Env, dry: bool, rules: seq<Rule>, fetched: seq<Torrent>, only: Option<string>)
    ensures var log, rows := RunOf(env, dry, rules, fetched, only), Final(env, dry, rules, fetched, only).ledger.byRule;
            && DistinctIds(rows)
            && (forall id :: HasRow(rows, id) <==> exists r :: 0 <= r < |rules| && rules[r].enabled && rules[r].id == id)
            && (forall i :: 0 <= i < |rows| ==> rows[i] == OwnRow(rules, log, rows[i].id))
  {
    LedgerRows(Fresh(fetched), RunOf(env, dry, rules, fetched, only), rules);
    var rows := Final(env, dry, rules, fetched, only).ledger.byRule;
    forall id ensures HasRow(rows, id) <==> exists r :: 0 <= r < |rules| && rules[r].enabled && rules[r].id == id {
      EntriesAreEnabled(env, dry, rules, fetched, only, id);
    }
  }

  // ----- The counters -----

  /** After a run that executed nothing on a torrent once it was gone, the counters equal a recount. */
  lemma RunRecount(env: Env, dry: bool, rules: seq<Rule>, fetched: seq<Torrent>, only: Option<string>)
    requires AllLive(fetched) && TagsClean(fetched)
    requires FetchesClean(RunOf(env, dry, rules, fetched, only))
    requires NeverLate(Fresh(fetched), RunOf(env, dry, rules, fetched, only), rules)
    ensures Recounted(Final(env, dry, rules, fetched, only).fleet)
  {
    forall c: Counter | !c.CategoryOf? ensures Shown(Snapshot(fetched), c) == Recount(fetched, c) {
      SnapshotIsRecount(fetched, c);
    }
    CountersEqualRecount(Fresh(fetched), RunOf(env, dry, rules, fetched, only), rules);
  }

  /** At the end of every run each counter, categories among them, is a recount plus the drift of the log. */
  lemma RunDrift(env: Env, dry: bool, rules: seq<Rule>, fetched: seq<Torrent>, only: Option<string>, c: Counter)
    requires AllLive(fetched) && Kept(c)
    requires c.TagOf? ==> TagsClean(fetched) && FetchesClean(RunOf(env, dry, rules, fetched, only))
    ensures var f := Final(env, dry, rules, fetched, only).fleet;
            var drift := Drift(Fresh(fetched), RunOf(env, dry, rules, fetched, only), rules, c);
            Shown(f, c) == Recount(f.torrents, c) + drift && (Shown(f, c) == Recount(f.torrents, c) <==> drift == 0)
  {
    SnapshotIsRecount(fetched, c);
    CounterDrift(Fresh(fetched), RunOf(env, dry, rules, fetched, only), rules, c);
  }

  // ----- Dry runs -----

  lemma {:induction false} NothingExecuted(c: Setting, log: seq<Event>)
    requires Fits(c, log) && Faithful(c, log) && c.dry
    ensures Calls(c, log) == 0
    ensures Replay(c.start, log, c.rules).ledger.executed == c.start.ledger.executed
    ensures Replay(c.start, log, c.rules).fleet == c.start.fleet
  {
    if log != [] {
      NothingExecuted(c, log[..|log| - 1]);
    }
  }

  /** A dry run executes nothing, makes no call that may change a torrent, and leaves every counter as it was. */
  lemma DryRun(env: Env, rules: seq<Rule>, fetched: seq<Torrent>, only: Option<string>)
    ensures Calls(SettingOf(env, true, rules, fetched), RunOf(env, true, rules, fetched, only)) == 0
    ensures Final(env, true, rules, fetched, only).ledger.executed == 0
    ensures Final(env, true, rules, fetched, only).fleet == Snapshot(fetched)
  {
    RunTold(env, true, rules, fetched, only);
    NothingExecuted(SettingOf(env, true, rules, fetched), RunOf(env, true, rules, fetched, only));
  }

  // ----- Runs that end with wrong counters -----

  /** Every condition passes and every action is executed; what is fetched after it is `r`. */
  function Obliging(r: Refetch): Env { Env(q => true, q => No, q => Yes, q => r) }

  /** A rule with `n` actions on one live torrent it matches: the log is the match and its actions. */
  lemma OneTorrentRun(env: Env, rule: Rule, t: Torrent)
    requires rule.enabled && !t.deleted && env.evaluate(1)
    ensures var c := SettingOf(env, false, [rule], [t]);
            RunOf(env, false, [rule], [t], None)
            == AfterMatch(c, [Started, Entered(0), Asked(0, 0, 1, true)], 0, 0)
  {
    var c := SettingOf(env, false, [rule], [t]);
    assert [t][..0] == [] && Work([t], None) == [0];
    WorkInRange([t], None);
    var entered := [Started] + [Entered(0)];
    assert Questions(entered) == 0 && StoppedHashes(c, entered) == {} by {
      StartedOnly(c);
      OneMore(c, [Started], Entered(0));
    }
    FleetKept(c, entered);
    assert Live(c, entered, 0);
    assert AfterRules(c, [Started], 1, [0]) == AfterRule(c, AfterRules(c, [Started], 0, [0]), 0, [0]);
    assert AfterTorrents(c, entered, 0, [0], 1) == AfterTorrent(c, AfterTorrents(c, entered, 0, [0], 0), 0, 0);
    assert entered + [Asked(0, 0, 1, true)] == [Started, Entered(0), Asked(0, 0, 1, true)];
  }

  lemma {:induction false} FleetKept(c: Setting, log: seq<Event>)
    requires Fits(c, log) && forall i :: 0 <= i < |log| ==> !Executes(log[i])
    ensures Replay(c.start, log, c.rules).fleet == c.start.fleet
  {
    if log != [] {
      FleetKept(c, log[..|log| - 1]);
    }
  }

  lemma GoneOne(log: seq<Event>, e: Event)
    requires log != []
    ensures GoneCount(log + [e]) == GoneCount(log) + Once(FindsGone(e))
  {
    assert (log + [e])[..|log|] == log;
  }

  lemma {:induction false} AllFindGone(c: Setting, log: seq<Event>, k: nat)
    requires log != [] && c.env == Obliging(Gone) && !c.dry
    ensures GoneCount(AfterActions(c, log, 0, 0, k)) == GoneCount(log) + k
    decreases k
  {
    if k > 0 {
      AllFindGone(c, log, k - 1);
      var before := AfterActions(c, log, 0, 0, k - 1);
      var q := Questions(before) + 1;
      GoneOne(before, Acted(0, 0, q, OutcomeOf(c.env, c.dry, q)));
    }
  }

  lemma {:induction false} NoneFindGone(log: seq<Event>)
    requires forall i :: 0 <= i < |log| ==> !FindsGone(log[i])
    ensures GoneCount(log) == 0
  {
    if log != [] {
      NoneFindGone(log[..|log| - 1]);
    }
  }

  /** Two actions on the only torrent, which the first one deletes: the total ends below zero. */
  lemma TotalFallsBelowZero(t: Torrent, id: string)
    requires !t.deleted
    ensures Final(Obliging(Gone), false, [Rule(id, true, false, 2)], [t], None).fleet.total == -1
  {
    var env, rules := Obliging(Gone), [Rule(id, true, false, 2)];
    OneTorrentRun(env, rules[0], t);
    var asked := [Started, Entered(0), Asked(0, 0, 1, true)];
    NoneFindGone(asked + [Matched(0, 0)]);
    AllFindGone(SettingOf(env, false, rules, [t]), asked + [Matched(0, 0)], 2);
    TotalCountsGone(Fresh([t]), RunOf(env, false, rules, [t], None), rules);
  }

  /** One action that changes the category of the only torrent: the old category still shows one, the new one none. */
  lemma CategoriesGoStale(t: Torrent, id: string, old_: string, new_: string)
    requires !t.deleted && t.category == Some(old_) && old_ != "" && new_ != "" && new_ != old_
    ensures var f := Final(Obliging(Found(t.state, Some(new_), t.tags)), false, [Rule(id, true, false, 1)], [t], None).fleet;
            && Shown(f, CategoryOf(old_)) == 1 && Recount(f.torrents, CategoryOf(old_)) == 0
            && Shown(f, CategoryOf(new_)) == 0 && Recount(f.torrents, CategoryOf(new_)) == 1
  {
    var r := Found(t.state, Some(new_), t.tags);
    var env, rules := Obliging(r), [Rule(id, true, false, 1)];
    OneTorrentRun(env, rules[0], t);
    var c, log := SettingOf(env, false, rules, [t]), [Started, Entered(0), Asked(0, 0, 1, true)] + [Matched(0, 0)];
    FleetKept(c, log);
    OneActionRefetches(c, log, r);
    RecategorizedOnce(t, old_, new_);
  }

  lemma OneActionRefetches(c: Setting, log: seq<Event>, r: Refetch)
    requires Begun(c, log) && c.env == Obliging(r) && !c.dry && |c.rules| > 0 && Size(c) > 0
    ensures var l := AfterActions(c, log, 0, 0, 1);
            Fits(c, l) && Replay(c.start, l, c.rules).fleet == Refetched(Replay(c.start, log, c.rules).fleet, 0, r)
  {
    var q := Questions(log) + 1;
    assert AfterActions(c, log, 0, 0, 0) == log;
    OneMore(c, log, Acted(0, 0, q, OutcomeOf(c.env, c.dry, q)));
  }

  lemma RecategorizedOnce(t: Torrent, old_: string, new_: string)
    requires !t.deleted && t.category == Some(old_) && old_ != "" && new_ != "" && new_ != old_
    ensures var f := Refetched(Snapshot([t]), 0, Found(t.state, Some(new_), t.tags));
            && Shown(f, CategoryOf(old_)) == 1 && Recount(f.torrents, CategoryOf(old_)) == 0
            && Shown(f, CategoryOf(new_)) == 0 && Recount(f.torrents, CategoryOf(new_)) == 1
  {
    assert [t][1..] == [] && CategoryCounts([]) == map[];
    assert CategoryCounts([t]) == Bump(CategoryCounts([]), old_, 1);
    assert [t.(category := Some(new_))][1..] == [];
  }
}
