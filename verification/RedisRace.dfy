/**
 * The Redis backend with its operations taken apart into the commands and MULTI blocks that reach
 * the server, issued by any number of clients in any order; a client may stop between two of them.
 */
module RedisRace {
  import opened Tree
  import opened Jobs
  import opened RedisBackend

  /** What a client is in the middle of. */
  datatype Phase =
    | Idle
    | Popped(id: string)
    | Cancelling(id: string)
    | Updating(id: string, was: Status, to: Status)
    | Deleting(id: string, was: Status)

  datatype Pop = Pop(client: nat, id: string)

  /** The keys on the server, the clients, and the history of enqueued, popped and cancelled ids. */
  datatype State = State(
    pending: seq<string>, status: map<string, Status>, byStatus: map<Status, set<string>>,
    clients: map<nat, Phase>, enqueued: seq<string>, pops: seq<Pop>, cancelled: set<string>)

  const EMPTY := State([], map[], map[], map[], [], [], {})

  datatype Step =
    | Enqueue(id: string)
    | LeftPop(c: nat)
    | MarkProcessing(c: nat)
    | CheckPending(c: nat, id: string)
    | CommitCancel(c: nat)
    | ReadStatus(c: nat, id: string, to: Status)
    | CommitUpdate(c: nat)
    | ReadFinished(c: nat, id: string)
    | CommitDelete(c: nat)
    | Crash(c: nat)

  function PhaseOf(s: State, c: nat): Phase { if c in s.clients then s.clients[c] else Idle }

  predicate Enabled(s: State, e: Step) {
    match e
    case Enqueue(id) => id !in s.enqueued
    case LeftPop(c) => PhaseOf(s, c).Idle?
    case MarkProcessing(c) => PhaseOf(s, c).Popped?
    case CheckPending(c, _) => PhaseOf(s, c).Idle?
    case CommitCancel(c) => PhaseOf(s, c).Cancelling?
    case ReadStatus(c, _, _) => PhaseOf(s, c).Idle?
    case CommitUpdate(c) => PhaseOf(s, c).Updating?
    case ReadFinished(c, _) => PhaseOf(s, c).Idle?
    case CommitDelete(c) => PhaseOf(s, c).Deleting?
    case Crash(_) => true
  }

  /** One MULTI block: the job's status is written and its id moved from one status set to another. */
  function Restate(s: State, id: string, was: Status, to: Status): State {
    s.(status := s.status[id := to],
       byStatus := if was == to then s.byStatus else Add(Drop(s.byStatus, was, id), to, id))
  }

  function Become(s: State, c: nat, p: Phase): State { s.(clients := s.clients[c := p]) }

  function Do(s: State, e: Step): State
    requires Enabled(s, e)
  {
    match e
    case Enqueue(id) =>
      s.(status := s.status[id := Pending], pending := s.pending + [id],
         byStatus := Add(s.byStatus, Pending, id), enqueued := s.enqueued + [id])
    case LeftPop(c) =>
      if s.pending == [] then s
      else Become(s.(pending := s.pending[1..], pops := s.pops + [Pop(c, s.pending[0])]), c, Popped(s.pending[0]))
    case MarkProcessing(c) => Become(Restate(s, PhaseOf(s, c).id, Pending, Processing), c, Idle)
    case CheckPending(c, id) =>
      if id in s.status && s.status[id].Pending? then Become(s, c, Cancelling(id)) else s
    case CommitCancel(c) =>
      var id := PhaseOf(s, c).id;
      Become(Restate(s, id, Pending, Cancelled), c, Idle)
        .(pending := Without(s.pending, id), cancelled := s.cancelled + {id})
    case ReadStatus(c, id, to) =>
      if id in s.status then Become(s, c, Updating(id, s.status[id], to)) else s
    case CommitUpdate(c) =>
      var p := PhaseOf(s, c);
      Become(Restate(s, p.id, p.was, p.to), c, Idle)
    case ReadFinished(c, id) =>
      if id in s.status && Finished(s.status[id]) then Become(s, c, Deleting(id, s.status[id])) else s
    case CommitDelete(c) =>
      var p := PhaseOf(s, c);
      Become(s.(status := s.status - {p.id}, byStatus := Drop(s.byStatus, p.was, p.id)), c, Idle)
    case Crash(c) => Become(s, c, Idle)
  }

  ghost predicate Run(s: State, steps: seq<Step>, s': State)
    decreases |steps|
  {
    if steps == [] then s' == s else Enabled(s, steps[0]) && Run(Do(s, steps[0]), steps[1..], s')
  }

  // ----- Delivery -----

  function PopIds(pops: seq<Pop>): seq<string> { seq(|pops|, i requires 0 <= i < |pops| => pops[i].id) }

  /** The ids, in order, without those in `gone`. */
  function Except(ids: seq<string>, gone: set<string>): seq<string> {
    if ids == [] then [] else (if ids[0] in gone then [] else [ids[0]]) + Except(ids[1..], gone)
  }

  /** The ids whose cancelling came before any pop of them. */
  function Withdrawn(s: State): set<string> { s.cancelled - set id | id in PopIds(s.pops) }

  /**
   * No id was enqueued twice; what was popped, followed by what is pending, is what was enqueued, in
   * that order, without what was cancelled before being popped; nothing cancelled is pending.
   */
  ghost predicate Delivers(s: State) {
    && Distinct(s.enqueued)
    && PopIds(s.pops) + s.pending == Except(s.enqueued, Withdrawn(s))
    && (forall id :: id in s.pending ==> id !in s.cancelled)
    && (forall id :: id in s.cancelled ==> id in s.enqueued)
    && (forall id :: id in s.status ==> id in s.enqueued)
    && (forall c :: c in s.clients && !s.clients[c].Idle? ==> s.clients[c].id in s.enqueued)
  }

  lemma {:induction false} ExceptAppend(ids: seq<string>, x: string, gone: set<string>)
    ensures Except(ids + [x], gone) == Except(ids, gone) + if x in gone then [] else [x]
  {
    if ids == [] {
      assert (ids + [x])[1..] == [];
    } else {
      ExceptAppend(ids[1..], x, gone);
      assert (ids + [x])[1..] == ids[1..] + [x];
      assert Except(ids + [x], gone) == (if ids[0] in gone then [] else [ids[0]]) + Except(ids[1..] + [x], gone);
    }
  }

  lemma {:induction false} ExceptOne(ids: seq<string>, gone: set<string>, x: string)
    ensures Except(ids, gone + {x}) == Without(Except(ids, gone), x)
  {
    if ids != [] {
      ExceptOne(ids[1..], gone, x);
      var rest := Except(ids[1..], gone);
      if ids[0] in gone {
        assert Except(ids, gone) == rest && Except(ids, gone + {x}) == Except(ids[1..], gone + {x});
      } else {
        assert ([ids[0]] + rest)[1..] == rest;
      }
    }
  }

  lemma {:induction false} ExceptHas(ids: seq<string>, gone: set<string>, x: string)
    ensures x in Except(ids, gone) <==> x in ids && x !in gone
  {
    if ids != [] {
      ExceptHas(ids[1..], gone, x);
      assert ids == [ids[0]] + ids[1..];
    }
  }

  lemma {:induction false} WithoutAppend(a: seq<string>, b: seq<string>, x: string)
    ensures Without(a + b, x) == Without(a, x) + Without(b, x)
  {
    if a == [] {
      assert a + b == b;
    } else {
      WithoutAppend(a[1..], b, x);
      assert (a + b)[1..] == a[1..] + b;
      if a[0] == x {
        assert Without(a, x) == Without(a[1..], x);
      }
    }
  }

  lemma EnqueueDelivers(s: State, id: string)
    requires Delivers(s) && id !in s.enqueued
    ensures Delivers(Do(s, Enqueue(id)))
  {
    ExceptAppend(s.enqueued, id, Withdrawn(s));
    assert PopIds(s.pops) + (s.pending + [id]) == PopIds(s.pops) + s.pending + [id];
  }

  lemma PopDelivers(s: State, c: nat)
    requires Delivers(s) && s.pending != [] && PhaseOf(s, c).Idle?
    ensures Delivers(Do(s, LeftPop(c)))
  {
    var id := s.pending[0];
    var s' := Do(s, LeftPop(c));
    assert id in s.pending;
    assert PopIds(s'.pops) == PopIds(s.pops) + [id];
    assert Withdrawn(s') == Withdrawn(s);
    assert PopIds(s.pops) + [id] + s.pending[1..] == PopIds(s.pops) + s.pending;
    assert id in PopIds(s.pops) + s.pending;
    ExceptHas(s.enqueued, Withdrawn(s), id);
    assert forall x :: x in s.pending[1..] ==> x in s.pending;
  }

  lemma CancelDelivers(s: State, c: nat)
    requires Delivers(s) && PhaseOf(s, c).Cancelling?
    ensures Delivers(Do(s, CommitCancel(c)))
  {
    var id := PhaseOf(s, c).id;
    var s' := Do(s, CommitCancel(c));
    var popped := PopIds(s.pops);
    WithoutIs(s.pending, id);
    if id in popped {
      assert Withdrawn(s') == Withdrawn(s);
      PoppedNotPending(s, id);
    } else {
      assert Withdrawn(s') == Withdrawn(s) + {id};
      ExceptOne(s.enqueued, Withdrawn(s), id);
      WithoutAppend(popped, s.pending, id);
      WithoutIs(popped, id);
    }
  }

  lemma {:induction false} ExceptDistinct(ids: seq<string>, gone: set<string>)
    requires Distinct(ids)
    ensures Distinct(Except(ids, gone))
  {
    if ids != [] {
      ExceptDistinct(ids[1..], gone);
      ExceptHas(ids[1..], gone, ids[0]);
    }
  }

  /** Nothing is pending that has been popped. */
  lemma PoppedNotPending(s: State, id: string)
    requires Delivers(s) && id in PopIds(s.pops)
    ensures id !in s.pending
  {
    ExceptDistinct(s.enqueued, Withdrawn(s));
    var all, n := PopIds(s.pops) + s.pending, |s.pops|;
    var i :| 0 <= i < n && PopIds(s.pops)[i] == id;
    forall j | 0 <= j < |s.pending| ensures s.pending[j] != id {
      assert all[i] == id && all[n + j] == s.pending[j];
    }
  }

  lemma StepDelivers(s: State, e: Step)
    requires Delivers(s) && Enabled(s, e)
    ensures Delivers(Do(s, e))
  {
    match e
    case Enqueue(id) => EnqueueDelivers(s, id);
    case LeftPop(c) => if s.pending != [] { PopDelivers(s, c); }
    case CommitCancel(c) => CancelDelivers(s, c);
    case _ => assert Withdrawn(Do(s, e)) == Withdrawn(s);
  }

  /** Every interleaving delivers. */
  lemma {:induction false} RunDelivers(s: State, steps: seq<Step>, s': State)
    requires Delivers(s) && Run(s, steps, s')
    ensures Delivers(s')
    decreases |steps|
  {
    if steps != [] {
      StepDelivers(s, steps[0]);
      RunDelivers(Do(s, steps[0]), steps[1..], s');
    }
  }

  /** `a` was enqueued before `b`. */
  ghost predicate EnqueuedBefore(enqueued: seq<string>, a: string, b: string) {
    exists i, j :: 0 <= i < j < |enqueued| && enqueued[i] == a && enqueued[j] == b
  }

  lemma {:induction false} ExceptInOrder(ids: seq<string>, gone: set<string>, i: nat, j: nat)
    requires i < j < |Except(ids, gone)|
    ensures EnqueuedBefore(ids, Except(ids, gone)[i], Except(ids, gone)[j])
  {
    var rest, all := Except(ids[1..], gone), Except(ids, gone);
    var k := if ids[0] in gone then 0 else 1;
    if i < k {
      assert all[j] == rest[j - 1] && rest[j - 1] in rest;
      ExceptHas(ids[1..], gone, all[j]);
      var m :| 0 <= m < |ids[1..]| && ids[1..][m] == all[j];
      assert ids[0] == all[i] && ids[m + 1] == all[j];
    } else {
      ExceptInOrder(ids[1..], gone, i - k, j - k);
      assert all[i] == rest[i - k] && all[j] == rest[j - k];
      var a, b :| 0 <= a < b < |ids[1..]| && ids[1..][a] == all[i] && ids[1..][b] == all[j];
      assert ids[a + 1] == all[i] && ids[b + 1] == all[j];
    }
  }

  /**
   * However the commands of any number of clients interleave, and whichever clients stop half way,
   * each job is popped at most once, by one client, and jobs are popped in the order they were enqueued.
   */
  lemma AtMostOnceInOrder(steps: seq<Step>, s: State, i: nat, j: nat)
    requires Run(EMPTY, steps, s) && i < j < |s.pops|
    ensures s.pops[i].id != s.pops[j].id
    ensures EnqueuedBefore(s.enqueued, s.pops[i].id, s.pops[j].id)
  {
    RunDelivers(EMPTY, steps, s);
    ExceptDistinct(s.enqueued, Withdrawn(s));
    ExceptInOrder(s.enqueued, Withdrawn(s), i, j);
    assert (PopIds(s.pops) + s.pending)[i] == s.pops[i].id && (PopIds(s.pops) + s.pending)[j] == s.pops[j].id;
  }

  /** Nothing is lost: an enqueued job is pending, has been popped, or was cancelled before it could be. */
  lemma NothingLost(steps: seq<Step>, s: State, id: string)
    requires Run(EMPTY, steps, s)
    ensures id in s.enqueued <==> id in PopIds(s.pops) || id in s.pending || id in Withdrawn(s)
  {
    RunDelivers(EMPTY, steps, s);
    ExceptHas(s.enqueued, Withdrawn(s), id);
    assert id in PopIds(s.pops) + s.pending <==> id in PopIds(s.pops) || id in s.pending;
  }

  /** Nobody is skipped: when a job is popped, every job enqueued before it was popped or cancelled first. */
  lemma {:induction false} NoneSkipped(steps: seq<Step>, s: State, a: string, b: string)
    requires Run(EMPTY, steps, s) && EnqueuedBefore(s.enqueued, a, b) && b in PopIds(s.pops)
    ensures a in PopIds(s.pops) || a in Withdrawn(s)
  {
    NothingLost(steps, s, a);
    if a in s.pending {
      RunDelivers(EMPTY, steps, s);
      var all, n := PopIds(s.pops) + s.pending, |s.pops|;
      var i :| 0 <= i < n && PopIds(s.pops)[i] == b;
      var j :| 0 <= j < |s.pending| && s.pending[j] == a;
      assert all[i] == b && all[n + j] == a;
      ExceptInOrder(s.enqueued, Withdrawn(s), i, n + j);
      NotBothBefore(s.enqueued, a, b);
    }
  }

  lemma NotBothBefore(ids: seq<string>, a: string, b: string)
    requires Distinct(ids) && EnqueuedBefore(ids, a, b)
    ensures !EnqueuedBefore(ids, b, a)
  {
  }

  /** Once a cancel has been committed, its job is never popped again. */
  lemma {:induction false} CancelledNeverPopped(before: seq<Step>, s: State, steps: seq<Step>, s': State, id: string)
    requires Run(EMPTY, before, s) && Run(s, steps, s') && id in s.cancelled
    ensures s.pops <= s'.pops && id !in PopIds(s'.pops[|s.pops|..])
  {
    RunDelivers(EMPTY, before, s);
    CancelledStays(s, steps, s', id);
  }

  lemma {:induction false} CancelledStays(s: State, steps: seq<Step>, s': State, id: string)
    requires Delivers(s) && Run(s, steps, s') && id in s.cancelled
    ensures s.pops <= s'.pops && id !in PopIds(s'.pops[|s.pops|..])
    decreases |steps|
  {
    if steps != [] {
      var mid := Do(s, steps[0]);
      StepDelivers(s, steps[0]);
      CancelledStays(mid, steps[1..], s', id);
      var n := |mid.pops| - |s.pops|;
      assert PopIds(s'.pops[|s.pops|..])[n..] == PopIds(s'.pops[|mid.pops|..]);
      assert n == 1 ==> PopIds(s'.pops[|s.pops|..])[0] == s.pending[0] && s.pending[0] in s.pending;
    }
  }

  // ----- The status index -----

  /** Every status set holds exactly the ids with that status. */
  ghost predicate Indexed(s: State) {
    forall t, id :: id in Members(s.byStatus, t) <==> id in s.status && s.status[id] == t
  }

  /** The job has the status the block was prepared for, or the one it writes; or its hash is gone and the block moves it. */
  predicate RestateSafe(s: State, id: string, was: Status, to: Status) {
    if id in s.status then s.status[id] == was || s.status[id] == to else was != to
  }

  /** What the commands of a step must find on the server to leave the index right. */
  predicate StepSafe(s: State, e: Step)
    requires Enabled(s, e)
  {
    match e
    case Enqueue(id) => id in s.status ==> s.status[id].Pending?
    case MarkProcessing(c) => RestateSafe(s, PhaseOf(s, c).id, Pending, Processing)
    case CommitCancel(c) => RestateSafe(s, PhaseOf(s, c).id, Pending, Cancelled)
    case CommitUpdate(c) => RestateSafe(s, PhaseOf(s, c).id, PhaseOf(s, c).was, PhaseOf(s, c).to)
    case CommitDelete(c) => PhaseOf(s, c).id in s.status ==> s.status[PhaseOf(s, c).id] == PhaseOf(s, c).was
    case _ => true
  }

  /** Only the statuses and their sets matter. */
  lemma IndexedSame(s: State, t: State)
    requires s.status == t.status && s.byStatus == t.byStatus
    ensures Indexed(s) <==> Indexed(t)
  {
    if Indexed(s) {
      forall t', id ensures id in Members(t.byStatus, t') <==> id in t.status && t.status[id] == t' {
        assert id in Members(s.byStatus, t') <==> id in s.status && s.status[id] == t';
      }
    }
    if Indexed(t) {
      forall t', id ensures id in Members(s.byStatus, t') <==> id in s.status && s.status[id] == t' {
        assert id in Members(t.byStatus, t') <==> id in t.status && t.status[id] == t';
      }
    }
  }

  /** A MULTI block that moves an id between status sets keeps the index exactly if it is safe when it runs. */
  lemma RestateIndexedIff(s: State, id: string, was: Status, to: Status)
    requires Indexed(s)
    ensures Indexed(Restate(s, id, was, to)) <==> RestateSafe(s, id, was, to)
  {
    var s' := Restate(s, id, was, to);
    if RestateSafe(s, id, was, to) {
      forall t, x ensures x in Members(s'.byStatus, t) <==> x in s'.status && s'.status[x] == t {
        assert x in Members(s.byStatus, t) <==> x in s.status && s.status[x] == t;
      }
    } else if id in s.status {
      var now := s.status[id];
      assert id in Members(s.byStatus, now);
      assert id in Members(s'.byStatus, now) && s'.status[id] != now;
    } else {
      assert id !in Members(s.byStatus, to);
      assert id !in Members(s'.byStatus, to) && s'.status[id] == to;
    }
  }

  /** The deletion keeps the index exactly if the job still has the status it was read with, or is gone. */
  lemma DeleteIndexedIff(s: State, id: string, was: Status)
    requires Indexed(s)
    ensures Indexed(s.(status := s.status - {id}, byStatus := Drop(s.byStatus, was, id)))
            <==> (id in s.status ==> s.status[id] == was)
  {
    var s' := s.(status := s.status - {id}, byStatus := Drop(s.byStatus, was, id));
    if id in s.status ==> s.status[id] == was {
      forall t, x ensures x in Members(s'.byStatus, t) <==> x in s'.status && s'.status[x] == t {
        assert x in Members(s.byStatus, t) <==> x in s.status && s.status[x] == t;
      }
    } else {
      var now := s.status[id];
      assert id in Members(s.byStatus, now);
      assert id in Members(s'.byStatus, now) && id !in s'.status;
    }
  }

  lemma EnqueueIndexedIff(s: State, id: string)
    requires Indexed(s)
    ensures Indexed(s.(status := s.status[id := Pending], byStatus := Add(s.byStatus, Pending, id)))
            <==> (id in s.status ==> s.status[id].Pending?)
  {
    var s' := s.(status := s.status[id := Pending], byStatus := Add(s.byStatus, Pending, id));
    if id in s.status ==> s.status[id].Pending? {
      forall t, x ensures x in Members(s'.byStatus, t) <==> x in s'.status && s'.status[x] == t {
        assert x in Members(s.byStatus, t) <==> x in s.status && s.status[x] == t;
      }
    } else {
      var now := s.status[id];
      assert id in Members(s.byStatus, now);
      assert id in Members(s'.byStatus, now) && s'.status[id] != now;
    }
  }

  /** Every step keeps the index exactly if it is safe. */
  lemma StepIndexedIff(s: State, e: Step)
    requires Indexed(s) && Enabled(s, e)
    ensures Indexed(Do(s, e)) <==> StepSafe(s, e)
  {
    match e
    case Enqueue(id) =>
      EnqueueIndexedIff(s, id);
      IndexedSame(Do(s, e), s.(status := s.status[id := Pending], byStatus := Add(s.byStatus, Pending, id)));
    case MarkProcessing(c) => MovedIff(s, Do(s, e), PhaseOf(s, c).id, Pending, Processing);
    case CommitCancel(c) => MovedIff(s, Do(s, e), PhaseOf(s, c).id, Pending, Cancelled);
    case CommitUpdate(c) => MovedIff(s, Do(s, e), PhaseOf(s, c).id, PhaseOf(s, c).was, PhaseOf(s, c).to);
    case CommitDelete(c) =>
      var p := PhaseOf(s, c);
      DeleteIndexedIff(s, p.id, p.was);
      IndexedSame(Do(s, e), s.(status := s.status - {p.id}, byStatus := Drop(s.byStatus, p.was, p.id)));
    case _ => IndexedSame(s, Do(s, e));
  }

  lemma MovedIff(s: State, t: State, id: string, was: Status, to: Status)
    requires Indexed(s)
    requires t.status == Restate(s, id, was, to).status && t.byStatus == Restate(s, id, was, to).byStatus
    ensures Indexed(t) <==> RestateSafe(s, id, was, to)
  {
    RestateIndexedIff(s, id, was, to);
    IndexedSame(t, Restate(s, id, was, to));
  }

  ghost predicate AllSafe(s: State, steps: seq<Step>)
    decreases |steps|
  {
    steps == [] || (Enabled(s, steps[0]) && StepSafe(s, steps[0]) && AllSafe(Do(s, steps[0]), steps[1..]))
  }

  /** The index is right before the first step and after each one. */
  ghost predicate AlwaysIndexed(s: State, steps: seq<Step>)
    decreases |steps|
  {
    Indexed(s) && (steps == [] || (Enabled(s, steps[0]) && AlwaysIndexed(Do(s, steps[0]), steps[1..])))
  }

  /** In every interleaving the index stays right throughout exactly if every step is safe when it runs. */
  lemma {:induction false} RunIndexedIff(s: State, steps: seq<Step>, s': State)
    requires Indexed(s) && Run(s, steps, s')
    ensures AlwaysIndexed(s, steps) <==> AllSafe(s, steps)
    ensures AllSafe(s, steps) ==> Indexed(s')
    decreases |steps|
  {
    if steps != [] {
      StepIndexedIff(s, steps[0]);
      assert AlwaysIndexed(Do(s, steps[0]), steps[1..]) ==> Indexed(Do(s, steps[0]));
      if StepSafe(s, steps[0]) {
        RunIndexedIff(Do(s, steps[0]), steps[1..], s');
      }
    }
  }

  /**
   * One client cancels a job while another pops it: the cancelled job is delivered, and ends up in
   * two status sets.
   */
  lemma CancelRacesDequeue(a: string) returns (steps: seq<Step>, s: State)
    ensures Run(EMPTY, steps, s) && s.pops == [Pop(2, a)] && s.cancelled == {a}
    ensures a in Members(s.byStatus, Processing) && a in Members(s.byStatus, Cancelled) && !Indexed(s)
  {
    var s1 := Do(EMPTY, Enqueue(a));
    var s2 := Do(s1, CheckPending(1, a));
    var s3 := Do(s2, LeftPop(2));
    var s4 := Do(s3, MarkProcessing(2));
    s := Do(s4, CommitCancel(1));
    assert Run(s4, [CommitCancel(1)], s);
    assert Run(s3, [MarkProcessing(2)] + [CommitCancel(1)], s);
    assert Run(s2, [LeftPop(2)] + ([MarkProcessing(2)] + [CommitCancel(1)]), s);
    assert Run(s1, [CheckPending(1, a)] + ([LeftPop(2)] + ([MarkProcessing(2)] + [CommitCancel(1)])), s);
    steps := [Enqueue(a)] + ([CheckPending(1, a)] + ([LeftPop(2)] + ([MarkProcessing(2)] + [CommitCancel(1)])));
    assert a in Members(s.byStatus, Processing) && s.status[a] == Cancelled;
  }
}
