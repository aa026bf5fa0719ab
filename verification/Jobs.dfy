/** The job queue as its clients see it: stored jobs and the pending ids in order. */
module Jobs {
  import opened Tree

  datatype Status = Pending | Processing | Completed | Failed | Cancelled

  datatype Job = Job(
    id: string, context: Option<string>, hash: Option<string>, dryRun: bool, status: Status,
    created: int, started: Option<int>, completed: Option<int>, result: Option<string>, error: Option<string>)

  datatype Queue = Queue(jobs: map<string, Job>, pending: seq<string>)

  /** What `update_status` writes; fields that are None are left as they are. */
  datatype Update = Update(
    status: Status, started: Option<int>, completed: Option<int>, result: Option<string>, error: Option<string>)

  predicate Finished(s: Status) { s.Completed? || s.Failed? || s.Cancelled? }

  function Or<T>(new_: Option<T>, old_: Option<T>): Option<T> { if new_.Some? then new_ else old_ }

  function NonEmpty(s: string): Option<string> { if s == "" then None else Some(s) }

  function Text(s: Option<string>): string { if s.Some? then s.value else "" }

  /** An empty text counts as none. */
  function Given(s: Option<string>): Option<string> { NonEmpty(Text(s)) }

  // ----- Operations -----

  function NewJob(id: string, context: Option<string>, hash: Option<string>, dryRun: bool, now: int): Job {
    Job(id, context, hash, dryRun, Pending, now, None, None, None, None)
  }

  function Enqueue(q: Queue, job: Job): Queue { Queue(q.jobs[job.id := job], q.pending + [job.id]) }

  function Started(job: Job, now: int): Job { job.(status := Processing, started := Some(now)) }

  /** The longest waiting job, now being processed. */
  function Dequeue(q: Queue, now: int): (Queue, Option<Job>) {
    if q.pending == [] || q.pending[0] !in q.jobs then (q, None)
    else
      var job := Started(q.jobs[q.pending[0]], now);
      (Queue(q.jobs[job.id := job], q.pending[1..]), Some(job))
  }

  function Updated(job: Job, u: Update): Job {
    job.(status := u.status, started := Or(u.started, job.started), completed := Or(u.completed, job.completed),
         result := Or(u.result, job.result), error := Or(u.error, job.error))
  }

  /** A job whose empty texts count as none, as Redis reads them back. */
  function WithoutEmpty(job: Job): Job { job.(result := Given(job.result), error := Given(job.error)) }

  function UpdateStatus(q: Queue, id: string, u: Update): (Queue, bool) {
    if id in q.jobs then (q.(jobs := q.jobs[id := Updated(q.jobs[id], u)]), true) else (q, false)
  }

  function Without(ids: seq<string>, id: string): seq<string> {
    if ids == [] then [] else (if ids[0] == id then [] else [ids[0]]) + Without(ids[1..], id)
  }

  /** Only a pending job can be cancelled. */
  function Cancel(q: Queue, id: string): (Queue, bool) {
    if id in q.jobs && q.jobs[id].status.Pending? then
      (Queue(q.jobs[id := q.jobs[id].(status := Cancelled)], Without(q.pending, id)), true)
    else (q, false)
  }

  /** An update sets the status and the fields it names, and leaves every other field as it was. */
  lemma UpdateKeepsTheRest(job: Job, u: Update)
    ensures var j := Updated(job, u);
            && j.id == job.id && j.context == job.context && j.hash == job.hash && j.dryRun == job.dryRun
            && j.created == job.created && j.status == u.status
            && (if u.started.None? then j.started == job.started else j.started == u.started)
            && (if u.completed.None? then j.completed == job.completed else j.completed == u.completed)
            && (if u.result.None? then j.result == job.result else j.result == u.result)
            && (if u.error.None? then j.error == job.error else j.error == u.error)
            && (WithoutEmpty(j).result == if j.result == Some("") then None else j.result)
            && (WithoutEmpty(j).error == if j.error == Some("") then None else j.error)
  {
  }

  // ----- Queries -----

  predicate Selected(job: Job, status: Option<Status>, context: Option<string>) {
    (status.None? || job.status == status.value) && (context.None? || job.context == context)
  }

  function SelectedIds(q: Queue, status: Option<Status>, context: Option<string>): set<string> {
    set id | id in q.jobs && Selected(q.jobs[id], status, context)
  }

  function CountJobs(q: Queue, status: Option<Status>, context: Option<string>): nat {
    |SelectedIds(q, status, context)|
  }

  function Depth(q: Queue): nat { |q.pending| }

  /** No two jobs were created at the same time. */
  predicate DistinctTimes(q: Queue) {
    forall a, b :: a in q.jobs && b in q.jobs && a != b ==> q.jobs[a].created != q.jobs[b].created
  }

  /** Newest first. */
  predicate NewestFirst(jobs: seq<Job>) {
    forall i, j :: 0 <= i < j < |jobs| ==> jobs[i].created > jobs[j].created
  }

  function Ids(jobs: seq<Job>): set<string> { set i | 0 <= i < |jobs| :: jobs[i].id }

  /** All selected jobs, newest first. */
  ghost predicate Listing(q: Queue, status: Option<Status>, context: Option<string>, jobs: seq<Job>) {
    && NewestFirst(jobs)
    && (forall i :: 0 <= i < |jobs| ==> jobs[i].id in q.jobs && jobs[i] == q.jobs[jobs[i].id])
    && Ids(jobs) == SelectedIds(q, status, context)
  }

  /** One page of a listing, as Python slices and `LIMIT`/`OFFSET` cut it. */
  function Page<T>(all: seq<T>, limit: nat, offset: nat): seq<T> {
    var n := if limit < 100 then limit else 100;
    var lo := if offset < |all| then offset else |all|;
    var hi := if lo + n < |all| then lo + n else |all|;
    all[lo..hi]
  }

  /** What a listing holds from place `offset` on: as many as asked for, but no more than a hundred. */
  predicate IsPage<T(==)>(all: seq<T>, limit: nat, offset: nat, page: seq<T>) {
    && |page| <= limit && |page| <= 100
    && (|page| < limit && |page| < 100 ==> offset + |page| >= |all|)
    && (page != [] ==> offset + |page| <= |all|)
    && forall i :: 0 <= i < |page| ==> page[i] == all[offset + i]
  }

  lemma PageIs<T>(all: seq<T>, limit: nat, offset: nat)
    ensures IsPage(all, limit, offset, Page(all, limit, offset))
  {
  }

  /** There is only one page at a place. */
  lemma PageUnique<T>(all: seq<T>, limit: nat, offset: nat, page: seq<T>)
    requires IsPage(all, limit, offset, page)
    ensures page == Page(all, limit, offset)
  {
  }

  /** Pages one after the other, from `offset` on. */
  function ReadOn<T>(all: seq<T>, limit: nat, offset: nat): seq<T>
    requires limit > 0
    decreases |all| - offset
  {
    if offset >= |all| then [] else Page(all, limit, offset) + ReadOn(all, limit, offset + |Page(all, limit, offset)|)
  }

  /** Successive pages join to the listing: no job is left out or shown twice. */
  lemma {:induction false} PagesJoin<T>(all: seq<T>, limit: nat, offset: nat)
    requires limit > 0 && offset <= |all|
    ensures ReadOn(all, limit, offset) == all[offset..]
    decreases |all| - offset
  {
    if offset < |all| {
      var page := Page(all, limit, offset);
      PagesJoin(all, limit, offset + |page|);
      assert all[offset..] == page + all[offset + |page|..];
    }
  }

  /** There is only one listing. */
  lemma ListingUnique(q: Queue, status: Option<Status>, context: Option<string>, a: seq<Job>, b: seq<Job>)
    requires Listing(q, status, context, a) && Listing(q, status, context, b)
    ensures a == b
  {
    forall x ensures x in a <==> x in b {
      ListingHas(q, status, context, a, x);
      ListingHas(q, status, context, b, x);
    }
    SameListing(a, b);
  }

  lemma ListingHas(q: Queue, status: Option<Status>, context: Option<string>, a: seq<Job>, x: Job)
    requires Listing(q, status, context, a)
    ensures x in a <==> x.id in SelectedIds(q, status, context) && q.jobs[x.id] == x
  {
    if x.id in Ids(a) {
      var i :| 0 <= i < |a| && a[i].id == x.id;
      assert a[i] in a && a[i] == q.jobs[x.id];
    }
    if x in a {
      var i :| 0 <= i < |a| && a[i] == x;
      assert a[i].id in Ids(a);
    }
  }

  lemma {:induction false} SameListing(a: seq<Job>, b: seq<Job>)
    requires NewestFirst(a) && NewestFirst(b)
    requires forall x :: x in a <==> x in b
    ensures a == b
    decreases |a|
  {
    assert b != [] ==> b[0] in b;
    if a != [] {
      assert a[0] in a;
      assert a[0] == b[0];
      forall x ensures x in a[1..] <==> x in b[1..] {
        assert x in a[1..] ==> x != a[0] && x in a;
        assert x in b[1..] ==> x != b[0] && x in b;
      }
      SameListing(a[1..], b[1..]);
    }
  }

  // ----- Sorting -----

  /** Puts a job where it belongs, newest first. */
  function Insert(x: Job, jobs: seq<Job>): seq<Job> {
    if jobs == [] || x.created >= jobs[0].created then [x] + jobs else [jobs[0]] + Insert(x, jobs[1..])
  }

  /** Sorted by creation time, newest first. */
  function Sort(jobs: seq<Job>): seq<Job> {
    if jobs == [] then [] else Insert(jobs[0], Sort(jobs[1..]))
  }

  lemma {:induction false} InsertIs(x: Job, jobs: seq<Job>)
    requires NewestFirst(jobs) && forall i :: 0 <= i < |jobs| ==> jobs[i].created != x.created
    ensures NewestFirst(Insert(x, jobs))
    ensures forall y :: y in Insert(x, jobs) <==> y == x || y in jobs
    ensures |Insert(x, jobs)| == |jobs| + 1
  {
    if jobs != [] && x.created < jobs[0].created {
      InsertIs(x, jobs[1..]);
      var r := Insert(x, jobs[1..]);
      forall i | 0 <= i < |r| ensures r[i].created < jobs[0].created {
        assert r[i] in r;
      }
      assert jobs == [jobs[0]] + jobs[1..];
    }
  }

  predicate TimesDiffer(jobs: seq<Job>) {
    forall i, j :: 0 <= i < j < |jobs| ==> jobs[i].created != jobs[j].created
  }

  lemma {:induction false} SortIs(jobs: seq<Job>)
    requires TimesDiffer(jobs)
    ensures NewestFirst(Sort(jobs)) && |Sort(jobs)| == |jobs|
    ensures forall y :: y in Sort(jobs) <==> y in jobs
  {
    if jobs != [] {
      SortIs(jobs[1..]);
      var r := Sort(jobs[1..]);
      forall i | 0 <= i < |r| ensures r[i].created != jobs[0].created {
        assert r[i] in jobs[1..];
      }
      InsertIs(jobs[0], r);
      assert jobs == [jobs[0]] + jobs[1..];
    }
  }

  lemma SameIds(r: seq<Job>, jobs: seq<Job>)
    requires forall y :: y in r <==> y in jobs
    ensures Ids(r) == Ids(jobs)
  {
    forall id ensures id in Ids(r) <==> id in Ids(jobs) {
      if id in Ids(jobs) {
        var i :| 0 <= i < |jobs| && jobs[i].id == id;
        assert jobs[i] in r;
      }
      if id in Ids(r) {
        var i :| 0 <= i < |r| && r[i].id == id;
        assert r[i] in jobs;
      }
    }
  }

  /** Sorting each selected job once gives the listing. */
  lemma SortLists(q: Queue, status: Option<Status>, context: Option<string>, jobs: seq<Job>)
    requires DistinctTimes(q)
    requires forall i :: 0 <= i < |jobs| ==> jobs[i].id in q.jobs && jobs[i] == q.jobs[jobs[i].id]
    requires forall i, j :: 0 <= i < j < |jobs| ==> jobs[i].id != jobs[j].id
    requires Ids(jobs) == SelectedIds(q, status, context)
    ensures Listing(q, status, context, Sort(jobs))
  {
    SortIs(jobs);
    SameIds(Sort(jobs), jobs);
    var r := Sort(jobs);
    forall i | 0 <= i < |r| ensures r[i].id in q.jobs && r[i] == q.jobs[r[i].id] {
      assert r[i] in jobs;
    }
  }

  // ----- Agreement of jobs and pending ids -----

  predicate Distinct(ids: seq<string>) {
    forall i, j :: 0 <= i < j < |ids| ==> ids[i] != ids[j]
  }

  /** Jobs are stored under their ids; the pending ids are each waiting job once. */
  ghost predicate Agrees(q: Queue) {
    && (forall id :: id in q.jobs ==> q.jobs[id].id == id)
    && Distinct(q.pending)
    && (forall id :: id in q.pending <==> id in q.jobs && q.jobs[id].status.Pending?)
  }

  lemma {:induction false} WithoutIs(ids: seq<string>, id: string)
    ensures forall x :: x in Without(ids, id) <==> x in ids && x != id
    ensures Distinct(ids) ==> Distinct(Without(ids, id))
    ensures id !in ids ==> Without(ids, id) == ids
  {
    if ids != [] {
      WithoutIs(ids[1..], id);
      if Distinct(ids) {
        assert Distinct(ids[1..]);
        assert ids[0] !in Without(ids[1..], id);
      }
      assert ids == [ids[0]] + ids[1..];
    }
  }

  lemma EnqueueAgrees(q: Queue, job: Job)
    requires Agrees(q) && job.id !in q.jobs && job.status.Pending?
    ensures Agrees(Enqueue(q, job))
  {
  }

  lemma DequeueAgrees(q: Queue, now: int)
    requires Agrees(q)
    ensures Agrees(Dequeue(q, now).0)
  {
    if q.pending != [] {
      assert q.pending == [q.pending[0]] + q.pending[1..];
    }
  }

  lemma CancelAgrees(q: Queue, id: string)
    requires Agrees(q)
    ensures Agrees(Cancel(q, id).0)
  {
    WithoutIs(q.pending, id);
  }

  /** Rewriting a job keeps the agreement exactly when it does not move the job in or out of waiting. */
  lemma RewriteAgreesIff(q: Queue, id: string, job: Job)
    requires Agrees(q) && id in q.jobs && job.id == id
    ensures Agrees(q.(jobs := q.jobs[id := job])) <==> (q.jobs[id].status.Pending? <==> job.status.Pending?)
  {
    var q' := q.(jobs := q.jobs[id := job]);
    assert id in q'.pending <==> id in q.pending;
    assert q'.jobs[id].status == job.status;
  }

  /** Updating a status keeps the agreement exactly when it does not move the job in or out of waiting. */
  lemma UpdateAgreesIff(q: Queue, id: string, u: Update)
    requires Agrees(q)
    ensures Agrees(UpdateStatus(q, id, u).0) <==>
            (id in q.jobs ==> (q.jobs[id].status.Pending? <==> u.status.Pending?))
  {
    if id in q.jobs {
      RewriteAgreesIff(q, id, Updated(q.jobs[id], u));
    }
  }

  // ----- Cleanup -----

  function Coalesce(a: Option<int>, b: int): int { if a.Some? then a.value else b }

  /** What the SQLite backend's cleanup removes. */
  function SqliteOld(q: Queue, cutoff: int): set<string> {
    set id | id in q.jobs && Finished(q.jobs[id].status) && Coalesce(q.jobs[id].completed, q.jobs[id].created) < cutoff
  }

  /** What the Redis backend's cleanup removes. */
  function RedisOld(q: Queue, cutoff: int): set<string> {
    set id | id in q.jobs && Finished(q.jobs[id].status) && q.jobs[id].created <= cutoff
  }

  function Remove(q: Queue, ids: set<string>): Queue { q.(jobs := q.jobs - ids) }

  /** Cleanup never removes a waiting or running job, and keeps the agreement. */
  lemma CleanupKeepsUnfinished(q: Queue, cutoff: int)
    requires Agrees(q)
    ensures Agrees(Remove(q, SqliteOld(q, cutoff))) && Agrees(Remove(q, RedisOld(q, cutoff)))
    ensures forall id :: id in q.jobs && !Finished(q.jobs[id].status) ==>
              id in Remove(q, SqliteOld(q, cutoff)).jobs && id in Remove(q, RedisOld(q, cutoff)).jobs
  {
  }

  /**
   * Both remove completed, failed and cancelled jobs only: SQLite those that ended before the cutoff (were
   * created before it, if no end is known), Redis those created by then.
   */
  lemma CleanupRemoves(q: Queue, cutoff: int, id: string)
    requires id in q.jobs
    ensures var j := q.jobs[id];
            && (id in SqliteOld(q, cutoff) <==>
                  && j.status in {Completed, Failed, Cancelled}
                  && (if j.completed.Some? then j.completed.value < cutoff else j.created < cutoff))
            && (id in RedisOld(q, cutoff) <==> j.status in {Completed, Failed, Cancelled} && j.created <= cutoff)
  {
  }

  /** Where no job completed before it was created, SQLite's cleanup removes nothing that Redis's keeps. */
  lemma SqliteCleansLess(q: Queue, cutoff: int)
    requires forall id :: id in q.jobs && q.jobs[id].completed.Some? ==> q.jobs[id].created <= q.jobs[id].completed.value
    ensures SqliteOld(q, cutoff) <= RedisOld(q, cutoff)
  {
  }
}
