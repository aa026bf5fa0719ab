/** The two backends side by side, and the worker that finishes jobs. */
module Backends {
  import opened Tree
  import opened Jobs
  import RedisBackend
  import SqliteBackend

  datatype Call =
    | Enqueue(id: string, context: Option<string>, hash: Option<string>, dryRun: bool, now: int)
    | Dequeue(now: int)
    | Update(id: string, update: Jobs.Update)
    | Cancel(id: string)
    | Get(id: string)
    | Count(status: Option<Status>, context: Option<string>)
    | List(status: Option<Status>, context: Option<string>, limit: nat, offset: nat)
    | Depth

  datatype Answer = Done | OneJob(job: Option<Job>) | Flag(flag: bool) | Number(number: nat) | Jobs(jobs: seq<Job>)

  /** The queue after a call. */
  function Next(q: Queue, call: Call): Queue {
    match call
    case Enqueue(id, context, hash, dryRun, now) => Jobs.Enqueue(q, NewJob(id, context, hash, dryRun, now))
    case Dequeue(now) => Jobs.Dequeue(q, now).0
    case Update(id, u) => Jobs.UpdateStatus(q, id, u).0
    case Cancel(id) => Jobs.Cancel(q, id).0
    case _ => q
  }

  /** The answer to a call. */
  ghost predicate Answers(q: Queue, call: Call, a: Answer) {
    match call
    case Enqueue(_, _, _, _, _) => a == Done
    case Dequeue(now) => a == OneJob(Jobs.Dequeue(q, now).1)
    case Update(id, u) => a == Flag(Jobs.UpdateStatus(q, id, u).1)
    case Cancel(id) => a == Flag(Jobs.Cancel(q, id).1)
    case Get(id) => a == OneJob(if id in q.jobs then Some(q.jobs[id]) else None)
    case Count(status, context) => a == Number(CountJobs(q, status, Given(context)))
    case List(status, context, limit, offset) =>
      a.Jobs? && exists all :: Listing(q, status, Given(context), all) && IsPage(all, limit, offset, a.jobs)
    case Depth => a == Number(Jobs.Depth(q))
  }

  predicate Plain(s: Option<string>) { s != Some("") }

  /**
   * A job is added with a new id, a later time than every stored job and no empty texts; an update
   * writes no empty texts and moves no job in or out of waiting.
   */
  predicate Acceptable(q: Queue, call: Call) {
    match call
    case Enqueue(id, context, hash, _, now) =>
      id !in q.jobs && Plain(context) && Plain(hash) && forall x :: x in q.jobs ==> q.jobs[x].created < now
    case Update(id, u) =>
      Plain(u.result) && Plain(u.error) && (id in q.jobs ==> (q.jobs[id].status.Pending? <==> u.status.Pending?))
    case _ => true
  }

  predicate AllAcceptable(q: Queue, calls: seq<Call>)
    decreases |calls|
  {
    calls == [] || (Acceptable(q, calls[0]) && AllAcceptable(Next(q, calls[0]), calls[1..]))
  }

  function After(q: Queue, calls: seq<Call>): Queue
    decreases |calls|
  {
    if calls == [] then q else After(Next(q, calls[0]), calls[1..])
  }

  /** The answers to the calls of a run, in order. */
  ghost predicate AllAnswer(q: Queue, calls: seq<Call>, answers: seq<Answer>)
    decreases |calls|
  {
    && |answers| == |calls|
    && (calls == [] || (Answers(q, calls[0], answers[0]) && AllAnswer(Next(q, calls[0]), calls[1..], answers[1..])))
  }

  lemma AnswersUnique(q: Queue, call: Call, a: Answer, b: Answer)
    requires Answers(q, call, a) && Answers(q, call, b)
    ensures a == b
  {
    if call.List? {
      var x :| Listing(q, call.status, Given(call.context), x) && IsPage(x, call.limit, call.offset, a.jobs);
      var y :| Listing(q, call.status, Given(call.context), y) && IsPage(y, call.limit, call.offset, b.jobs);
      ListingUnique(q, call.status, Given(call.context), x, y);
      PageUnique(x, call.limit, call.offset, a.jobs);
      PageUnique(x, call.limit, call.offset, b.jobs);
    }
  }

  /** Two ways of answering a whole run give the same answers. */
  lemma {:induction false} AllAnswersUnique(q: Queue, calls: seq<Call>, a: seq<Answer>, b: seq<Answer>)
    requires AllAnswer(q, calls, a) && AllAnswer(q, calls, b)
    ensures a == b
    decreases |calls|
  {
    if calls != [] {
      AnswersUnique(q, calls[0], a[0], b[0]);
      AllAnswersUnique(Next(q, calls[0]), calls[1..], a[1..], b[1..]);
      assert a == [a[0]] + a[1..] && b == [b[0]] + b[1..];
    }
  }

  lemma TimesStayDistinct(q: Queue, call: Call)
    requires DistinctTimes(q) && Acceptable(q, call) && Agrees(q)
    ensures DistinctTimes(Next(q, call))
  {
    var q' := Next(q, call);
    if call.Enqueue? {
      assert forall a :: a in q.jobs ==> q'.jobs[a] == q.jobs[a];
    } else {
      assert forall a :: a in q'.jobs ==> a in q.jobs && q'.jobs[a].created == q.jobs[a].created;
    }
  }

  method OnRedis(redis: RedisBackend.RedisQueue, call: Call) returns (a: Answer)
    requires redis.Valid() && Acceptable(redis.Abs(), call) && DistinctTimes(redis.Abs())
    modifies redis
    ensures redis.Valid() && redis.Abs() == Next(old(redis.Abs()), call)
    ensures Answers(old(redis.Abs()), call, a)
  {
    match call
    case Enqueue(id, context, hash, dryRun, now) => redis.Enqueue(id, context, hash, dryRun, now); a := Done;
    case Dequeue(now) => var job := redis.Dequeue(now); a := OneJob(job);
    case Update(id, u) => var found := redis.UpdateStatus(id, u); a := Flag(found);
    case Cancel(id) => var cancelled := redis.Cancel(id); a := Flag(cancelled);
    case Get(id) => var job := redis.GetJob(id); a := OneJob(job);
    case Count(status, context) => var n := redis.CountJobs(status, context); a := Number(n);
    case List(status, context, limit, offset) =>
      var jobs := redis.ListJobs(status, context, limit, offset); a := Answer.Jobs(jobs);
    case Depth => var n := redis.Depth(); a := Number(n);
  }

  method OnSqlite(sqlite: SqliteBackend.SqliteQueue, call: Call) returns (a: Answer)
    requires sqlite.Valid() && Acceptable(sqlite.Abs(), call) && DistinctTimes(sqlite.Abs())
    modifies sqlite
    ensures sqlite.Valid() && sqlite.Abs() == Next(old(sqlite.Abs()), call)
    ensures Answers(old(sqlite.Abs()), call, a)
  {
    match call
    case Enqueue(id, context, hash, dryRun, now) => sqlite.Enqueue(id, context, hash, dryRun, now); a := Done;
    case Dequeue(now) => var job := sqlite.Dequeue(now); a := OneJob(job);
    case Update(id, u) => var found := sqlite.UpdateStatus(id, u); a := Flag(found);
    case Cancel(id) => var cancelled := sqlite.Cancel(id); a := Flag(cancelled);
    case Get(id) => var job := sqlite.GetJob(id); a := OneJob(job);
    case Count(status, context) => var n := sqlite.CountJobs(status, context); a := Number(n);
    case List(status, context, limit, offset) =>
      var jobs := sqlite.ListJobs(status, context, limit, offset); a := Answer.Jobs(jobs);
    case Depth => var n := sqlite.Depth(); a := Number(n);
  }

  /** Driven by the same calls, the two backends give the same answers and stay the same queue. */
  method Drive(redis: RedisBackend.RedisQueue, sqlite: SqliteBackend.SqliteQueue, calls: seq<Call>)
    returns (a: seq<Answer>, b: seq<Answer>)
    requires redis.Valid() && sqlite.Valid() && redis.Abs() == sqlite.Abs()
    requires AllAcceptable(redis.Abs(), calls) && DistinctTimes(redis.Abs())
    modifies redis, sqlite
    ensures redis.Valid() && sqlite.Valid() && redis.Abs() == sqlite.Abs() == After(old(redis.Abs()), calls)
    ensures a == b && AllAnswer(old(redis.Abs()), calls, a)
    decreases |calls|
  {
    if calls == [] {
      return [], [];
    }
    TimesStayDistinct(redis.Abs(), calls[0]);
    var x := OnRedis(redis, calls[0]);
    var y := OnSqlite(sqlite, calls[0]);
    AnswersUnique(old(redis.Abs()), calls[0], x, y);
    a, b := Drive(redis, sqlite, calls[1..]);
    a, b := [x] + a, [y] + b;
  }

  // ----- The worker -----

  /** What happens to a queue: clients add and cancel, the one worker dequeues, finishes and cleans up. */
  datatype Event =
    | Add(job: Job)
    | Withdraw(id: string)
    | Take(now: int)
    | Finish(update: Jobs.Update)
    | CleanSqlite(cutoff: int)
    | CleanRedis(cutoff: int)

  /** The queue and the job the worker is processing. */
  datatype Server = Server(q: Queue, busy: Option<string>)

  predicate Possible(s: Server, e: Event) {
    match e
    case Add(job) => job.id !in s.q.jobs && job.status.Pending?
    case Take(_) => s.busy.None?
    case Finish(u) => s.busy.Some? && (u.status.Completed? || u.status.Failed?)
    case _ => true
  }

  function Happen(s: Server, e: Event): Server
    requires Possible(s, e)
  {
    match e
    case Add(job) => s.(q := Jobs.Enqueue(s.q, job))
    case Withdraw(id) => s.(q := Jobs.Cancel(s.q, id).0)
    case Take(now) =>
      var (q, job) := Jobs.Dequeue(s.q, now);
      Server(q, if job.Some? then Some(job.value.id) else None)
    case Finish(u) => Server(Jobs.UpdateStatus(s.q, s.busy.value, u).0, None)
    case CleanSqlite(cutoff) => s.(q := Remove(s.q, SqliteOld(s.q, cutoff)))
    case CleanRedis(cutoff) => s.(q := Remove(s.q, RedisOld(s.q, cutoff)))
  }

  /** The jobs marked processing are the one the worker holds. */
  ghost predicate OneBusy(s: Server) {
    forall id :: (id in s.q.jobs && s.q.jobs[id].status.Processing?) <==> s.busy == Some(id)
  }

  ghost predicate Happens(s: Server, events: seq<Event>, s': Server)
    decreases |events|
  {
    if events == [] then s' == s
    else Possible(s, events[0]) && Happens(Happen(s, events[0]), events[1..], s')
  }

  lemma StepKeeps(s: Server, e: Event)
    requires Agrees(s.q) && OneBusy(s) && Possible(s, e)
    ensures Agrees(Happen(s, e).q) && OneBusy(Happen(s, e))
  {
    match e
    case Add(job) => EnqueueAgrees(s.q, job);
    case Withdraw(id) => CancelAgrees(s.q, id);
    case Take(now) =>
      DequeueAgrees(s.q, now);
      if s.q.pending != [] {
        assert s.q.pending[0] in s.q.pending;
      }
    case Finish(u) => UpdateAgreesIff(s.q, s.busy.value, u);
    case CleanSqlite(cutoff) => CleanupKeepsUnfinished(s.q, cutoff);
    case CleanRedis(cutoff) => CleanupKeepsUnfinished(s.q, cutoff);
  }

  /**
   * However clients, worker and cleanup interleave, the pending list stays exactly the waiting jobs,
   * and the only job marked processing is the one the worker holds.
   */
  lemma {:induction false} EveryRunAgrees(s: Server, events: seq<Event>, s': Server)
    requires Agrees(s.q) && OneBusy(s) && Happens(s, events, s')
    ensures Agrees(s'.q) && OneBusy(s')
    decreases |events|
  {
    if events != [] {
      StepKeeps(s, events[0]);
      EveryRunAgrees(Happen(s, events[0]), events[1..], s');
    }
  }

  /** So what the worker writes is always an acceptable update, and finds its job. */
  lemma WorkerUpdateAcceptable(s: Server, events: seq<Event>, s': Server, u: Jobs.Update)
    requires Agrees(s.q) && OneBusy(s) && Happens(s, events, s') && Possible(s', Finish(u))
    requires Plain(u.result) && Plain(u.error)
    ensures Acceptable(s'.q, Call.Update(s'.busy.value, u))
    ensures Jobs.UpdateStatus(s'.q, s'.busy.value, u).1
  {
    EveryRunAgrees(s, events, s');
  }
}
