/** The SQLite backend: a table of jobs and a table of waiting job ids. */
module SqliteBackend {
  import opened Tree
  import opened Jobs

  /** A row of `jobs`. */
  datatype Row = Row(
    id: string, context: Option<string>, hash: Option<string>, status: Status, created: int,
    started: Option<int>, completed: Option<int>, result: Option<string>, error: Option<string>, dryRun: int)

  /** A row of `queue`; `id` counts up and is never used again. */
  datatype QueueRow = QueueRow(id: int, jobId: string, priority: int)

  /** `_row_to_dict`. */
  function ToJob(r: Row): Job {
    Job(r.id, r.context, r.hash, r.dryRun != 0, r.status, r.created, r.started, r.completed,
        if r.result == Some("") then None else r.result, r.error)
  }

  // ----- SQL statements on `jobs` -----

  function RowIds(rows: seq<Row>): seq<string> { seq(|rows|, i requires 0 <= i < |rows| => rows[i].id) }

  /** `UPDATE jobs SET … WHERE id = ?`. */
  function Set(rows: seq<Row>, id: string, u: Update): seq<Row> {
    if rows == [] then [] else [if rows[0].id == id then SetRow(rows[0], u) else rows[0]] + Set(rows[1..], id, u)
  }

  function SetRow(r: Row, u: Update): Row {
    r.(status := u.status, started := Or(u.started, r.started), completed := Or(u.completed, r.completed),
       result := Or(u.result, r.result), error := Or(u.error, r.error))
  }

  /** `SELECT * FROM jobs WHERE id = ?`. */
  function Find(rows: seq<Row>, id: string): Option<Row> {
    if rows == [] then None else if rows[0].id == id then Some(rows[0]) else Find(rows[1..], id)
  }

  /** `SELECT * FROM jobs WHERE status = ? AND context = ?`, each condition only if it is given. */
  function Where(rows: seq<Row>, status: Option<Status>, context: Option<string>): seq<Job> {
    if rows == [] then [] else
    (if Selected(ToJob(rows[0]), status, context) then [ToJob(rows[0])] else []) + Where(rows[1..], status, context)
  }

  predicate Expired(r: Row, cutoff: int) {
    Finished(r.status) && Coalesce(r.completed, r.created) < cutoff
  }

  /** `DELETE FROM jobs WHERE status IN … AND COALESCE(completed_at, created_at) < ?`. */
  function Unexpired(rows: seq<Row>, cutoff: int): seq<Row> {
    if rows == [] then [] else
    (if Expired(rows[0], cutoff) then [] else [rows[0]]) + Unexpired(rows[1..], cutoff)
  }

  // ----- SQL statements on `queue` -----

  function JobIds(rows: seq<QueueRow>): seq<string> {
    if rows == [] then [] else [rows[0].jobId] + JobIds(rows[1..])
  }

  predicate Sooner(a: QueueRow, b: QueueRow) { a.priority > b.priority || (a.priority == b.priority && a.id < b.id) }

  /** `SELECT … FROM queue ORDER BY priority DESC, id ASC LIMIT 1`. */
  function Top(rows: seq<QueueRow>): Option<QueueRow> {
    if rows == [] then None else
      var rest := Top(rows[1..]);
      if rest.Some? && Sooner(rest.value, rows[0]) then rest else Some(rows[0])
  }

  /** `DELETE FROM queue WHERE job_id = ?`. */
  function Unqueue(rows: seq<QueueRow>, id: string): seq<QueueRow> {
    if rows == [] then [] else (if rows[0].jobId == id then [] else [rows[0]]) + Unqueue(rows[1..], id)
  }

  /** What `ON DELETE CASCADE` leaves of the queue. */
  function Cascade(rows: seq<QueueRow>, ids: seq<string>): seq<QueueRow> {
    if rows == [] then [] else (if rows[0].jobId in ids then [rows[0]] else []) + Cascade(rows[1..], ids)
  }

  // ----- The table as a map -----

  function Table(rows: seq<Row>): map<string, Job> {
    if rows == [] then map[] else Table(rows[1..])[rows[0].id := ToJob(rows[0])]
  }

  predicate Keyed(rows: seq<Row>) {
    rows == [] || (rows[0].id !in Table(rows[1..]) && Keyed(rows[1..]))
  }

  lemma {:induction false} Append(rows: seq<Row>, row: Row)
    requires Keyed(rows) && row.id !in Table(rows)
    ensures Keyed(rows + [row]) && Table(rows + [row]) == Table(rows)[row.id := ToJob(row)]
  {
    if rows != [] {
      Append(rows[1..], row);
      assert (rows + [row])[1..] == rows[1..] + [row];
    }
  }

  lemma {:induction false} SetUpdates(rows: seq<Row>, id: string, u: Update)
    requires Keyed(rows) && u.result != Some("")
    ensures Keyed(Set(rows, id, u))
    ensures Table(Set(rows, id, u)) ==
            if id in Table(rows) then Table(rows)[id := Updated(Table(rows)[id], u)] else Table(rows)
  {
    if rows != [] {
      SetUpdates(rows[1..], id, u);
      assert Set(rows, id, u)[1..] == Set(rows[1..], id, u);
    }
  }

  lemma {:induction false} FindFinds(rows: seq<Row>, id: string)
    ensures Find(rows, id).Some? <==> id in Table(rows)
    ensures Find(rows, id).Some? ==> ToJob(Find(rows, id).value) == Table(rows)[id]
  {
    if rows != [] {
      FindFinds(rows[1..], id);
    }
  }

  lemma {:induction false} TableIds(rows: seq<Row>, id: string)
    ensures id in Table(rows) ==> Table(rows)[id].id == id
  {
    if rows != [] {
      TableIds(rows[1..], id);
    }
  }

  lemma {:induction false} WhereHas(rows: seq<Row>, status: Option<Status>, context: Option<string>, x: Job)
    requires Keyed(rows)
    ensures x in Where(rows, status, context) <==> x.id in Table(rows) && Table(rows)[x.id] == x && Selected(x, status, context)
  {
    if rows != [] {
      WhereHas(rows[1..], status, context, x);
      TableIds(rows[1..], rows[0].id);
    }
  }

  lemma {:induction false} WhereOnce(rows: seq<Row>, status: Option<Status>, context: Option<string>)
    requires Keyed(rows)
    ensures var jobs := Where(rows, status, context);
            forall i, j :: 0 <= i < j < |jobs| ==> jobs[i].id != jobs[j].id
  {
    if rows != [] {
      WhereOnce(rows[1..], status, context);
      var rest := Where(rows[1..], status, context);
      forall j | 0 <= j < |rest| ensures rest[j].id != rows[0].id {
        WhereHas(rows[1..], status, context, rest[j]);
      }
    }
  }

  /** The rows a query selects are the selected jobs, each once. */
  lemma WhereSelects(q: Queue, rows: seq<Row>, status: Option<Status>, context: Option<string>)
    requires Keyed(rows) && q.jobs == Table(rows)
    ensures var jobs := Where(rows, status, context);
            && (forall i :: 0 <= i < |jobs| ==> jobs[i].id in q.jobs && jobs[i] == q.jobs[jobs[i].id])
            && (forall i, j :: 0 <= i < j < |jobs| ==> jobs[i].id != jobs[j].id)
            && Ids(jobs) == SelectedIds(q, status, context)
            && |jobs| == CountJobs(q, status, context)
  {
    var jobs := Where(rows, status, context);
    WhereOnce(rows, status, context);
    forall i | 0 <= i < |jobs| ensures jobs[i].id in SelectedIds(q, status, context) && jobs[i] == q.jobs[jobs[i].id] {
      WhereHas(rows, status, context, jobs[i]);
    }
    forall id | id in SelectedIds(q, status, context) ensures id in Ids(jobs) {
      TableIds(rows, id);
      WhereHas(rows, status, context, q.jobs[id]);
      var i :| 0 <= i < |jobs| && jobs[i] == q.jobs[id];
      assert jobs[i].id == id;
    }
    OnceCounts(jobs);
  }

  lemma {:induction false} OnceCounts(jobs: seq<Job>)
    requires forall i, j :: 0 <= i < j < |jobs| ==> jobs[i].id != jobs[j].id
    ensures |Ids(jobs)| == |jobs|
  {
    if jobs != [] {
      var n := |jobs| - 1;
      OnceCounts(jobs[..n]);
      forall id ensures id in Ids(jobs) <==> id in Ids(jobs[..n]) + {jobs[n].id} {
        if id in Ids(jobs[..n]) {
          var i :| 0 <= i < n && jobs[..n][i].id == id;
          assert jobs[i].id == id;
        }
        if id in Ids(jobs) {
          var i :| 0 <= i < |jobs| && jobs[i].id == id;
          assert i < n ==> jobs[..n][i].id == id;
        }
      }
      assert Ids(jobs) == Ids(jobs[..n]) + {jobs[n].id};
    }
  }

  lemma UnexpiredStep(rows: seq<Row>, cutoff: int)
    requires rows != []
    ensures if Expired(rows[0], cutoff) then Unexpired(rows, cutoff) == Unexpired(rows[1..], cutoff)
            else Unexpired(rows, cutoff) != [] && Unexpired(rows, cutoff)[0] == rows[0]
                 && Unexpired(rows, cutoff)[1..] == Unexpired(rows[1..], cutoff)
  {
  }

  lemma {:induction false} UnexpiredHas(rows: seq<Row>, cutoff: int, id: string)
    requires Keyed(rows)
    ensures id in Table(Unexpired(rows, cutoff)) <==>
            id in Table(rows) && !(Finished(Table(rows)[id].status) && Coalesce(Table(rows)[id].completed, Table(rows)[id].created) < cutoff)
    ensures id in Table(Unexpired(rows, cutoff)) ==> Table(Unexpired(rows, cutoff))[id] == Table(rows)[id]
  {
    if rows != [] {
      UnexpiredHas(rows[1..], cutoff, id);
      UnexpiredStep(rows, cutoff);
    }
  }

  lemma {:induction false} UnexpiredKeyed(rows: seq<Row>, cutoff: int)
    requires Keyed(rows)
    ensures Keyed(Unexpired(rows, cutoff))
  {
    if rows != [] {
      UnexpiredKeyed(rows[1..], cutoff);
      UnexpiredHas(rows[1..], cutoff, rows[0].id);
      UnexpiredStep(rows, cutoff);
    }
  }

  lemma {:induction false} RowIdsTable(rows: seq<Row>, id: string)
    ensures id in RowIds(rows) <==> id in Table(rows)
  {
    if rows != [] {
      RowIdsTable(rows[1..], id);
      assert RowIds(rows) == [rows[0].id] + RowIds(rows[1..]);
    }
  }

  lemma {:induction false} TableSize(rows: seq<Row>)
    requires Keyed(rows)
    ensures |Table(rows)| == |rows|
  {
    if rows != [] {
      TableSize(rows[1..]);
    }
  }

  /** The deleted rows are the old finished jobs. */
  lemma UnexpiredRemoves(q: Queue, rows: seq<Row>, cutoff: int)
    requires Keyed(rows) && q.jobs == Table(rows)
    ensures Keyed(Unexpired(rows, cutoff)) && Table(Unexpired(rows, cutoff)) == Remove(q, SqliteOld(q, cutoff)).jobs
    ensures |rows| - |Unexpired(rows, cutoff)| == |SqliteOld(q, cutoff)|
  {
    UnexpiredKeyed(rows, cutoff);
    var kept := Table(Unexpired(rows, cutoff));
    forall id ensures id in kept <==> id in q.jobs && id !in SqliteOld(q, cutoff) {
      UnexpiredHas(rows, cutoff, id);
    }
    forall id | id in kept ensures kept[id] == q.jobs[id] {
      UnexpiredHas(rows, cutoff, id);
    }
    TableSize(rows);
    TableSize(Unexpired(rows, cutoff));
    assert kept.Keys == q.jobs.Keys - SqliteOld(q, cutoff);
    assert |kept.Keys| == |kept| && |q.jobs.Keys| == |q.jobs|;
  }

  // ----- The queue as a list -----

  /** All of one priority, with ids counting up to below `next`. */
  predicate Ordered(rows: seq<QueueRow>, next: int) {
    && (forall i :: 0 <= i < |rows| ==> rows[i].priority == 0 && rows[i].id < next)
    && (forall i, j :: 0 <= i < j < |rows| ==> rows[i].id < rows[j].id)
  }

  /** The query takes the row that was inserted first. */
  lemma {:induction false} TopIsFirst(rows: seq<QueueRow>, next: int)
    requires Ordered(rows, next) && rows != []
    ensures Top(rows) == Some(rows[0])
  {
    if |rows| > 1 {
      TopIsFirst(rows[1..], next);
    }
  }

  lemma {:induction false} JobIdsAppend(rows: seq<QueueRow>, row: QueueRow)
    ensures JobIds(rows + [row]) == JobIds(rows) + [row.jobId]
  {
    if rows != [] {
      JobIdsAppend(rows[1..], row);
      assert (rows + [row])[1..] == rows[1..] + [row];
    }
  }

  lemma {:induction false} UnqueueWithout(rows: seq<QueueRow>, id: string)
    ensures JobIds(Unqueue(rows, id)) == Without(JobIds(rows), id)
    ensures forall r :: r in Unqueue(rows, id) ==> r in rows
  {
    if rows != [] {
      UnqueueWithout(rows[1..], id);
      assert rows == [rows[0]] + rows[1..];
      assert JobIds(rows)[1..] == JobIds(rows[1..]);
      var rest := Unqueue(rows[1..], id);
      if rows[0].jobId != id {
        assert ([rows[0]] + rest)[1..] == rest;
      } else {
        assert [] + rest == rest;
      }
    }
  }

  lemma {:induction false} UnqueueOrdered(rows: seq<QueueRow>, id: string, next: int)
    requires Ordered(rows, next)
    ensures Ordered(Unqueue(rows, id), next)
  {
    if rows != [] {
      UnqueueOrdered(rows[1..], id, next);
      UnqueueWithout(rows[1..], id);
      OrderedCons(rows[0], rows[1..], Unqueue(rows[1..], id), next);
    }
  }

  lemma OrderedCons(row: QueueRow, rows: seq<QueueRow>, some: seq<QueueRow>, next: int)
    requires Ordered([row] + rows, next) && Ordered(some, next) && forall r :: r in some ==> r in rows
    ensures Ordered([row] + some, next)
  {
    assert ([row] + rows)[0] == row;
    forall i | 0 <= i < |some| ensures some[i].id > row.id {
      assert some[i] in rows;
      var j :| 0 <= j < |rows| && rows[j] == some[i];
      assert ([row] + rows)[j + 1] == rows[j];
    }
  }

  lemma WithoutFirst(ids: seq<string>)
    requires ids != [] && Distinct(ids)
    ensures Without(ids, ids[0]) == ids[1..]
  {
    WithoutIs(ids[1..], ids[0]);
    assert ids[0] !in ids[1..];
    assert [] + ids[1..] == ids[1..];
  }

  lemma {:induction false} CascadeNothing(rows: seq<QueueRow>, ids: seq<string>)
    requires forall id :: id in JobIds(rows) ==> id in ids
    ensures Cascade(rows, ids) == rows
  {
    if rows != [] {
      assert JobIds(rows)[0] in ids;
      forall id | id in JobIds(rows[1..]) ensures id in ids {
        assert id in JobIds(rows);
      }
      CascadeNothing(rows[1..], ids);
      assert rows == [rows[0]] + rows[1..];
    }
  }

  class SqliteQueue {
    var jobs: seq<Row>
    var queue: seq<QueueRow>
    var nextId: int

    constructor ()
      ensures Valid() && Abs() == Queue(map[], [])
    {
      jobs, queue, nextId := [], [], 1;
    }

    function Abs(): Queue
      reads this
    {
      Queue(Table(jobs), JobIds(queue))
    }

    ghost predicate Valid()
      reads this
    {
      Keyed(jobs) && Ordered(queue, nextId) && Agrees(Abs())
    }

    /** `enqueue`: a row in each table, in one transaction. */
    method Enqueue(id: string, context: Option<string>, hash: Option<string>, dryRun: bool, now: int)
      requires Valid() && id !in Abs().jobs
      modifies this
      ensures Valid()
      ensures Abs() == Jobs.Enqueue(old(Abs()), NewJob(id, context, hash, dryRun, now))
    {
      var row := Row(id, context, hash, Pending, now, None, None, None, None, if dryRun then 1 else 0);
      EnqueueAgrees(Abs(), ToJob(row));
      Append(jobs, row);
      jobs := jobs + [row];
      var entry := QueueRow(nextId, id, 0);
      JobIdsAppend(queue, entry);
      queue := queue + [entry];
      nextId := nextId + 1;
    }

    /** `dequeue`: takes the first queue row, updates the job, and deletes the row, in one transaction. */
    method Dequeue(now: int) returns (job: Option<Job>)
      requires Valid()
      modifies this
      ensures Valid()
      ensures (Abs(), job) == Jobs.Dequeue(old(Abs()), now)
    {
      var row := Top(queue);
      if row.None? {
        return None;
      }
      DequeueAgrees(Abs(), now);
      TopIsFirst(queue, nextId);
      WithoutFirst(JobIds(queue));
      var id := row.value.jobId;
      var u := Update(Processing, Some(now), None, None, None);
      SetUpdates(jobs, id, u);
      jobs := Set(jobs, id, u);
      UnqueueWithout(queue, id);
      UnqueueOrdered(queue, id, nextId);
      queue := Unqueue(queue, id);
      job := GetJob(id);
    }

    method GetJob(id: string) returns (job: Option<Job>)
      ensures job == if id in Abs().jobs then Some(Abs().jobs[id]) else None
    {
      FindFinds(jobs, id);
      var row := Find(jobs, id);
      job := if row.Some? then Some(ToJob(row.value)) else None;
    }

    /** The tables still agree exactly if no job moved in or out of waiting. */
    method UpdateStatus(id: string, u: Update) returns (found: bool)
      requires Valid() && u.result != Some("")
      modifies this
      ensures (Abs(), found) == Jobs.UpdateStatus(old(Abs()), id, u)
      ensures Valid() <==>
              (id in old(Abs()).jobs ==> (old(Abs()).jobs[id].status.Pending? <==> u.status.Pending?))
    {
      UpdateAgreesIff(Abs(), id, u);
      SetUpdates(jobs, id, u);
      FindFinds(jobs, id);
      found := Find(jobs, id).Some?;
      jobs := Set(jobs, id, u);
    }

    /** `cancel_job`: only a pending row. */
    method Cancel(id: string) returns (cancelled: bool)
      requires Valid()
      modifies this
      ensures Valid()
      ensures (Abs(), cancelled) == Jobs.Cancel(old(Abs()), id)
    {
      FindFinds(jobs, id);
      var row := Find(jobs, id);
      if row.None? || !row.value.status.Pending? {
        return false;
      }
      CancelAgrees(Abs(), id);
      var u := Update(Cancelled, None, None, None, None);
      SetUpdates(jobs, id, u);
      jobs := Set(jobs, id, u);
      UnqueueWithout(queue, id);
      UnqueueOrdered(queue, id, nextId);
      queue := Unqueue(queue, id);
      cancelled := true;
    }

    method CountJobs(status: Option<Status>, context: Option<string>) returns (n: nat)
      requires Valid()
      ensures n == Jobs.CountJobs(Abs(), status, Given(context))
    {
      WhereSelects(Abs(), jobs, status, Given(context));
      n := |Where(jobs, status, Given(context))|;
    }

    /** Counts the pending rows, which is the length of the queue. */
    method Depth() returns (n: nat)
      requires Valid()
      ensures n == Jobs.Depth(Abs())
    {
      n := CountJobs(Some(Pending), None);
      DepthCounts(Abs());
    }

    /** `list_jobs`: a filtered, ordered query with limit and offset. */
    method ListJobs(status: Option<Status>, context: Option<string>, limit: nat, offset: nat) returns (page: seq<Job>)
      requires Valid()
      ensures DistinctTimes(Abs()) ==>
                exists all :: Listing(Abs(), status, Given(context), all) && IsPage(all, limit, offset, page)
    {
      var found := Where(jobs, status, Given(context));
      page := Page(Sort(found), limit, offset);
      PageIs(Sort(found), limit, offset);
      WhereSelects(Abs(), jobs, status, Given(context));
      if DistinctTimes(Abs()) {
        SortLists(Abs(), status, Given(context), found);
      }
    }

    /** Removes finished jobs that ended before `cutoff`; the cascade takes nothing from the queue. */
    method Cleanup(cutoff: int) returns (deleted: nat)
      requires Valid()
      modifies this
      ensures Valid()
      ensures Abs() == Remove(old(Abs()), SqliteOld(old(Abs()), cutoff))
      ensures deleted == |SqliteOld(old(Abs()), cutoff)|
    {
      CleanupKeepsUnfinished(Abs(), cutoff);
      UnexpiredRemoves(Abs(), jobs, cutoff);
      var kept := Unexpired(jobs, cutoff);
      deleted := |jobs| - |kept|;
      forall id | id in JobIds(queue) ensures id in RowIds(kept) {
        RowIdsTable(kept, id);
      }
      CascadeNothing(queue, RowIds(kept));
      jobs := kept;
      queue := Cascade(queue, RowIds(jobs));
    }
  }

  /** In an agreeing queue there are as many pending jobs as queue entries. */
  lemma DepthCounts(q: Queue)
    requires Agrees(q)
    ensures Jobs.CountJobs(q, Some(Pending), None) == Jobs.Depth(q)
  {
    assert SelectedIds(q, Some(Pending), None) == set id | id in q.pending;
    DistinctSize(q.pending);
  }

  lemma {:induction false} DistinctSize(ids: seq<string>)
    requires Distinct(ids)
    ensures |set id | id in ids| == |ids|
  {
    if ids != [] {
      var n := |ids| - 1;
      DistinctSize(ids[..n]);
      assert ids == ids[..n] + [ids[n]];
      assert (set id | id in ids) == (set id | id in ids[..n]) + {ids[n]};
    }
  }
}
