/** The Redis backend: a list, job hashes, index sets and a time-sorted set. */
module RedisBackend {
  import opened Tree
  import opened Jobs

  /** A job's hash; an absent text field is the empty string. */
  datatype JobHash = JobHash(
    id: string, context: string, hash: string, dryRun: string, status: Status,
    created: int, started: Option<int>, completed: Option<int>, result: string, error: string)

  /** `_hash_to_dict`. */
  function ToJob(h: JobHash): Job {
    Job(h.id, NonEmpty(h.context), NonEmpty(h.hash), h.dryRun == "1", h.status,
        h.created, h.started, h.completed, NonEmpty(h.result), NonEmpty(h.error))
  }

  function Members<K>(index: map<K, set<string>>, k: K): set<string> { if k in index then index[k] else {} }

  function Add<K>(index: map<K, set<string>>, k: K, id: string): map<K, set<string>> { index[k := Members(index, k) + {id}] }

  function Drop<K>(index: map<K, set<string>>, k: K, id: string): map<K, set<string>> { index[k := Members(index, k) - {id}] }

  // ----- The indexes, as functions of the hashes -----

  function WithStatus(hashes: map<string, JobHash>, s: Status): set<string> {
    set id | id in hashes && hashes[id].status == s
  }

  function WithContext(hashes: map<string, JobHash>, c: string): set<string> {
    set id | id in hashes && hashes[id].context == c
  }

  ghost predicate StatusIndexed(hashes: map<string, JobHash>, byStatus: map<Status, set<string>>) {
    forall s :: Members(byStatus, s) == WithStatus(hashes, s)
  }

  ghost predicate ContextIndexed(hashes: map<string, JobHash>, byContext: map<string, set<string>>) {
    forall c :: c != "" ==> Members(byContext, c) == WithContext(hashes, c)
  }

  function Times(hashes: map<string, JobHash>): map<string, int> { map id | id in hashes :: hashes[id].created }

  function JobsOf(hashes: map<string, JobHash>): map<string, Job> { map id | id in hashes :: ToJob(hashes[id]) }

  /** Moving an id from its hash's old status set to its new one keeps the status index. */
  lemma MoveStatus(hashes: map<string, JobHash>, byStatus: map<Status, set<string>>, id: string, h: JobHash)
    requires StatusIndexed(hashes, byStatus) && id in hashes
    ensures StatusIndexed(hashes[id := h], Add(Drop(byStatus, hashes[id].status, id), h.status, id))
  {
    var after := Add(Drop(byStatus, hashes[id].status, id), h.status, id);
    forall s ensures Members(after, s) == WithStatus(hashes[id := h], s) {
      assert Members(byStatus, s) == WithStatus(hashes, s);
    }
  }

  lemma KeepStatus(hashes: map<string, JobHash>, byStatus: map<Status, set<string>>, id: string, h: JobHash)
    requires StatusIndexed(hashes, byStatus) && id in hashes && h.status == hashes[id].status
    ensures StatusIndexed(hashes[id := h], byStatus)
  {
    forall s ensures Members(byStatus, s) == WithStatus(hashes[id := h], s) {
      assert WithStatus(hashes[id := h], s) == WithStatus(hashes, s);
    }
  }

  lemma AddStatus(hashes: map<string, JobHash>, byStatus: map<Status, set<string>>, id: string, h: JobHash)
    requires StatusIndexed(hashes, byStatus) && id !in hashes
    ensures StatusIndexed(hashes[id := h], Add(byStatus, h.status, id))
  {
    forall s ensures Members(Add(byStatus, h.status, id), s) == WithStatus(hashes[id := h], s) {
      assert Members(byStatus, s) == WithStatus(hashes, s);
    }
  }

  lemma DropStatus(hashes: map<string, JobHash>, byStatus: map<Status, set<string>>, id: string)
    requires StatusIndexed(hashes, byStatus) && id in hashes
    ensures StatusIndexed(hashes - {id}, Drop(byStatus, hashes[id].status, id))
  {
    forall s ensures Members(Drop(byStatus, hashes[id].status, id), s) == WithStatus(hashes - {id}, s) {
      assert Members(byStatus, s) == WithStatus(hashes, s);
    }
  }

  lemma KeepContext(hashes: map<string, JobHash>, byContext: map<string, set<string>>, id: string, h: JobHash)
    requires ContextIndexed(hashes, byContext) && id in hashes && h.context == hashes[id].context
    ensures ContextIndexed(hashes[id := h], byContext)
  {
    forall c | c != "" ensures Members(byContext, c) == WithContext(hashes[id := h], c) {
      assert WithContext(hashes[id := h], c) == WithContext(hashes, c);
    }
  }

  function AddContext(byContext: map<string, set<string>>, c: string, id: string): map<string, set<string>> {
    if c != "" then Add(byContext, c, id) else byContext
  }

  function DropContext(byContext: map<string, set<string>>, c: string, id: string): map<string, set<string>> {
    if c != "" then Drop(byContext, c, id) else byContext
  }

  lemma AddContextIndexed(hashes: map<string, JobHash>, byContext: map<string, set<string>>, id: string, h: JobHash)
    requires ContextIndexed(hashes, byContext) && id !in hashes
    ensures ContextIndexed(hashes[id := h], AddContext(byContext, h.context, id))
  {
    forall c | c != "" ensures Members(AddContext(byContext, h.context, id), c) == WithContext(hashes[id := h], c) {
      assert Members(byContext, c) == WithContext(hashes, c);
    }
  }

  lemma DropContextIndexed(hashes: map<string, JobHash>, byContext: map<string, set<string>>, id: string)
    requires ContextIndexed(hashes, byContext) && id in hashes
    ensures ContextIndexed(hashes - {id}, DropContext(byContext, hashes[id].context, id))
  {
    var context := hashes[id].context;
    forall c | c != "" ensures Members(DropContext(byContext, context, id), c) == WithContext(hashes - {id}, c) {
      assert Members(byContext, c) == WithContext(hashes, c);
    }
  }

  /** Storing one hash stores one job and one time. */
  lemma StoreOne(hashes: map<string, JobHash>, id: string, h: JobHash)
    ensures JobsOf(hashes[id := h]) == JobsOf(hashes)[id := ToJob(h)]
    ensures Times(hashes[id := h]) == Times(hashes)[id := h.created]
  {
  }

  lemma RemoveTimes(hashes: map<string, JobHash>, gone: set<string>)
    ensures Times(hashes - gone) == Times(hashes) - gone
  {
  }

  lemma RemoveJobs(hashes: map<string, JobHash>, gone: set<string>)
    ensures JobsOf(hashes - gone) == JobsOf(hashes) - gone
  {
  }

  lemma SameTimes(hashes: map<string, JobHash>, id: string, h: JobHash)
    requires id in hashes && h.created == hashes[id].created
    ensures Times(hashes[id := h]) == Times(hashes)
  {
  }

  /** Every stored job is in exactly one of the five status sets, the one its hash names. */
  lemma StatusSetsPartition(hashes: map<string, JobHash>, byStatus: map<Status, set<string>>)
    requires StatusIndexed(hashes, byStatus)
    ensures Members(byStatus, Pending) + Members(byStatus, Processing) + Members(byStatus, Completed)
            + Members(byStatus, Failed) + Members(byStatus, Cancelled) == hashes.Keys
    ensures forall s, t :: s != t ==> Members(byStatus, s) !! Members(byStatus, t)
  {
    forall s, t | s != t ensures Members(byStatus, s) !! Members(byStatus, t) {
      assert Members(byStatus, s) == WithStatus(hashes, s) && Members(byStatus, t) == WithStatus(hashes, t);
    }
    var all := Members(byStatus, Pending) + Members(byStatus, Processing) + Members(byStatus, Completed)
      + Members(byStatus, Failed) + Members(byStatus, Cancelled);
    forall id ensures id in all <==> id in hashes {
      assert id in hashes ==> id in WithStatus(hashes, hashes[id].status);
    }
  }

  class RedisQueue {
    var pending: seq<string>
    var hashes: map<string, JobHash>
    var byStatus: map<Status, set<string>>
    var byContext: map<string, set<string>>
    var byTime: map<string, int>

    constructor ()
      ensures Valid() && Abs() == Queue(map[], [])
    {
      pending, hashes, byStatus, byContext, byTime := [], map[], map[], map[], map[];
    }

    function Abs(): Queue
      reads this
    {
      Queue(JobsOf(hashes), pending)
    }

    /** Every index agrees with the hashes. */
    ghost predicate Indexed()
      reads this
    {
      StatusIndexed(hashes, byStatus) && ContextIndexed(hashes, byContext) && byTime == Times(hashes)
    }

    ghost predicate Valid()
      reads this
    {
      Indexed() && Agrees(Abs())
    }

    /** `enqueue`: one pipeline over every key; an empty context or hash is stored as none. */
    method Enqueue(id: string, context: Option<string>, hash: Option<string>, dryRun: bool, now: int)
      requires Valid() && id !in hashes
      modifies this
      ensures Valid()
      ensures Abs() == Jobs.Enqueue(old(Abs()), NewJob(id, Given(context), Given(hash), dryRun, now))
    {
      var h := JobHash(id, Text(context), Text(hash), if dryRun then "1" else "0", Pending, now, None, None, "", "");
      EnqueueAgrees(Abs(), ToJob(h));
      Store(id, h);
      pending := pending + [id];
    }

    /** Stores a new job's hash and enters it in every index. */
    method Store(id: string, h: JobHash)
      requires Indexed() && id !in hashes
      modifies `hashes, `byStatus, `byContext, `byTime
      ensures Indexed() && hashes == old(hashes)[id := h]
      ensures JobsOf(hashes) == old(JobsOf(hashes))[id := ToJob(h)]
    {
      StoreOne(hashes, id, h);
      AddStatus(hashes, byStatus, id, h);
      AddContextIndexed(hashes, byContext, id, h);
      hashes := hashes[id := h];
      byStatus := Add(byStatus, h.status, id);
      if h.context != "" {
        byContext := Add(byContext, h.context, id);
      }
      byTime := byTime[id := h.created];
    }

    /** `dequeue`: pops the list, then marks the job. */
    method Dequeue(now: int) returns (job: Option<Job>)
      requires Valid()
      modifies this
      ensures Valid()
      ensures (Abs(), job) == Jobs.Dequeue(old(Abs()), now)
    {
      if pending == [] {
        return None;
      }
      DequeueAgrees(Abs(), now);
      var id := pending[0];
      FirstPending(Abs());
      pending := pending[1..];
      Restate(id, hashes[id].(status := Processing, started := Some(now)), Pending);
      job := Some(ToJob(hashes[id]));
    }

    /** Rewrites a job's hash and moves its id between the two status sets. */
    method Restate(id: string, h: JobHash, was: Status)
      requires Indexed() && id in hashes && h.context == hashes[id].context
      requires h.created == hashes[id].created && was == hashes[id].status
      modifies `hashes, `byStatus
      ensures Indexed() && hashes == old(hashes)[id := h]
      ensures JobsOf(hashes) == old(JobsOf(hashes))[id := ToJob(h)]
    {
      StoreOne(hashes, id, h);
      SameTimes(hashes, id, h);
      MoveStatus(hashes, byStatus, id, h);
      KeepContext(hashes, byContext, id, h);
      hashes := hashes[id := h];
      byStatus := Drop(byStatus, was, id);
      byStatus := Add(byStatus, h.status, id);
    }

    /** Rewrites a job's hash without changing its status. */
    method Rewrite(id: string, h: JobHash)
      requires Indexed() && id in hashes && h.context == hashes[id].context
      requires h.created == hashes[id].created && h.status == hashes[id].status
      modifies `hashes
      ensures Indexed() && hashes == old(hashes)[id := h]
      ensures JobsOf(hashes) == old(JobsOf(hashes))[id := ToJob(h)]
    {
      StoreOne(hashes, id, h);
      SameTimes(hashes, id, h);
      KeepStatus(hashes, byStatus, id, h);
      KeepContext(hashes, byContext, id, h);
      hashes := hashes[id := h];
    }

    method GetJob(id: string) returns (job: Option<Job>)
      ensures job == if id in Abs().jobs then Some(Abs().jobs[id]) else None
    {
      job := if id in hashes then Some(ToJob(hashes[id])) else None;
    }

    /**
     * `update_status`: the indexes still agree; the pending list does exactly if no job moved in or out of
     * waiting. An empty text is read back as none.
     */
    method UpdateStatus(id: string, u: Update) returns (found: bool)
      requires Valid()
      modifies this
      ensures found == (id in old(Abs()).jobs)
      ensures Abs() == if found
                       then old(Abs()).(jobs := old(Abs()).jobs[id := WithoutEmpty(Updated(old(Abs()).jobs[id], u))])
                       else old(Abs())
      ensures u.result != Some("") && u.error != Some("") ==> (Abs(), found) == Jobs.UpdateStatus(old(Abs()), id, u)
      ensures Indexed()
      ensures Valid() <==> (id in old(hashes) ==> (old(hashes)[id].status.Pending? <==> u.status.Pending?))
    {
      if id !in hashes {
        return false;
      }
      var h := hashes[id];
      var h' := UpdatedHash(h, u);
      HashUpdates(h, u);
      RewriteAgreesIff(Abs(), id, ToJob(h'));
      if h.status != u.status {
        Restate(id, h', h.status);
      } else {
        Rewrite(id, h');
      }
      found := true;
    }

    /** `cancel_job`: only what its hash calls pending. */
    method Cancel(id: string) returns (cancelled: bool)
      requires Valid()
      modifies this
      ensures Valid()
      ensures (Abs(), cancelled) == Jobs.Cancel(old(Abs()), id)
    {
      if id !in hashes || !hashes[id].status.Pending? {
        return false;
      }
      CancelAgrees(Abs(), id);
      pending := Without(pending, id);
      Restate(id, hashes[id].(status := Cancelled), Pending);
      cancelled := true;
    }

    /** Removes the finished jobs created by `cutoff`; returns how many. */
    method Cleanup(cutoff: int) returns (deleted: nat)
      requires Valid()
      modifies this
      ensures Valid()
      ensures Abs() == Remove(old(Abs()), RedisOld(old(Abs()), cutoff))
      ensures deleted == |RedisOld(old(Abs()), cutoff)|
    {
      CleanupKeepsUnfinished(Abs(), cutoff);
      RemoveJobs(hashes, RedisOld(Abs(), cutoff));
      var ids := set id | id in byTime && byTime[id] <= cutoff;
      deleted := DeleteAll(ids, RedisOld(Abs(), cutoff));
    }

    /** Goes through the ids one by one, deleting the finished jobs. */
    method DeleteAll(ids: set<string>, ghost finished: set<string>) returns (deleted: nat)
      requires Indexed() && ids <= hashes.Keys && finished == set id | id in ids && Finished(hashes[id].status)
      modifies `hashes, `byStatus, `byContext, `byTime
      ensures Indexed() && hashes == old(hashes) - finished && deleted == |finished|
    {
      ghost var before := hashes;
      var left := ids;
      assert finished - left == {};
      deleted := 0;
      while left != {}
        invariant Indexed() && left <= ids && hashes == before - (finished - left)
        invariant deleted == |finished - left|
        decreases |left|
      {
        var id :| id in left;
        Sweep(before, finished, left, id);
        left := left - {id};
        var gone := DeleteFinished(id);
        if gone {
          deleted := deleted + 1;
        }
      }
      assert finished - left == finished;
    }

    method DeleteFinished(id: string) returns (gone: bool)
      requires Indexed() && id in hashes
      modifies `hashes, `byStatus, `byContext, `byTime
      ensures Indexed() && gone == Finished(old(hashes)[id].status)
      ensures hashes == if gone then old(hashes) - {id} else old(hashes)
    {
      gone := Finished(hashes[id].status);
      if gone {
        Delete(id);
      }
    }

    /** Deletes a job's hash and its entries in every index. */
    method Delete(id: string)
      requires Indexed() && id in hashes
      modifies `hashes, `byStatus, `byContext, `byTime
      ensures Indexed() && hashes == old(hashes) - {id}
    {
      RemoveTimes(hashes, {id});
      DropStatus(hashes, byStatus, id);
      DropContextIndexed(hashes, byContext, id);
      var h := hashes[id];
      hashes := hashes - {id};
      byTime := byTime - {id};
      byStatus := Drop(byStatus, h.status, id);
      if h.context != "" {
        byContext := Drop(byContext, h.context, id);
      }
    }

    /** `count_jobs`: the size of an index set, or of the intersection of two. */
    method CountJobs(status: Option<Status>, context: Option<string>) returns (n: nat)
      requires Valid()
      ensures n == Jobs.CountJobs(Abs(), status, Given(context))
    {
      var ids := Select(status, context);
      n := |ids|;
    }

    /** The ids an index, or the intersection of two, selects. */
    method Select(status: Option<Status>, context: Option<string>) returns (ids: set<string>)
      requires Valid()
      ensures ids == SelectedIds(Abs(), status, Given(context))
    {
      if status.Some? && Text(context) != "" {
        ids := Members(byStatus, status.value) * Members(byContext, Text(context));
      } else if Text(context) != "" {
        ids := Members(byContext, Text(context));
      } else if status.Some? {
        ids := Members(byStatus, status.value);
      } else {
        ids := byTime.Keys;
      }
    }

    method Depth() returns (n: nat)
      ensures n == Jobs.Depth(Abs())
    {
      n := |pending|;
    }

    /** The ids of a set, newest first by the time set's scores. */
    method Newest(ids: set<string>) returns (order: seq<string>)
      requires ids <= byTime.Keys
      ensures exists found :: Enumerates(found, ids) && order == SortIds(found, byTime)
      ensures Enumerates(order, ids) && Descends(order, byTime)
    {
      var found: seq<string> := [];
      var left := ids;
      while left != {}
        invariant left <= ids && Enumerates(found, ids - left)
        decreases |left|
      {
        var id :| id in left;
        EnumeratesOne(found, ids - left, id);
        assert ids - left + {id} == ids - (left - {id});
        found := found + [id];
        left := left - {id};
      }
      assert ids - left == ids;
      SortIdsDescends(found, byTime);
      SortIdsKeeps(found, byTime);
      order := SortIds(found, byTime);
    }

    method Fetch(ids: seq<string>) returns (jobs: seq<Job>)
      requires forall id :: id in ids ==> id in hashes
      ensures jobs == Fetched(ids, hashes)
    {
      jobs := [];
      for i := 0 to |ids|
        invariant jobs == Fetched(ids[..i], hashes)
      {
        var job := GetJob(ids[i]);
        assert ids[..i + 1] == ids[..i] + [ids[i]];
        if job.Some? {
          jobs := jobs + [job.value];
        }
      }
      assert ids[..|ids|] == ids;
    }

    /** `list_jobs`: sorts ids by score, cuts a page out of them, and fetches its jobs. */
    method ListJobs(status: Option<Status>, context: Option<string>, limit: nat, offset: nat) returns (jobs: seq<Job>)
      requires Valid()
      ensures DistinctTimes(Abs()) ==>
                exists all :: Listing(Abs(), status, Given(context), all) && IsPage(all, limit, offset, jobs)
    {
      var ids := Select(status, context);
      var order := Newest(ids);
      ghost var found :| Enumerates(found, ids) && order == SortIds(found, byTime);
      PageFetched(order, hashes, limit, offset);
      jobs := Fetch(Page(order, limit, offset));
      PageIs(Fetched(order, hashes), limit, offset);
      if DistinctTimes(Abs()) {
        SortIdsSorts(found, hashes, byTime);
        FetchedLists(Abs(), status, Given(context), found, hashes);
      }
    }
  }

  // ----- Listing -----

  /** Each id of the set once. */
  ghost predicate Enumerates(found: seq<string>, ids: set<string>) {
    Distinct(found) && forall id :: id in found <==> id in ids
  }

  lemma EnumeratesOne(found: seq<string>, ids: set<string>, id: string)
    requires Enumerates(found, ids) && id !in ids
    ensures Enumerates(found + [id], ids + {id})
  {
  }

  function InsertId(id: string, ids: seq<string>, score: map<string, int>): seq<string>
    requires id in score && forall x :: x in ids ==> x in score
  {
    if ids == [] || score[id] >= score[ids[0]] then [id] + ids else [ids[0]] + InsertId(id, ids[1..], score)
  }

  /** Sorted by score, highest first. */
  function SortIds(ids: seq<string>, score: map<string, int>): (r: seq<string>)
    requires forall x :: x in ids ==> x in score
    ensures forall x :: x in r ==> x in score
  {
    if ids == [] then [] else
      var rest := SortIds(ids[1..], score);
      InsertIdKeeps(ids[0], rest, score);
      InsertId(ids[0], rest, score)
  }

  lemma {:induction false} InsertIdKeeps(id: string, ids: seq<string>, score: map<string, int>)
    requires id in score && forall x :: x in ids ==> x in score
    ensures forall x :: x in InsertId(id, ids, score) <==> x == id || x in ids
  {
    if ids != [] && score[id] < score[ids[0]] {
      InsertIdKeeps(id, ids[1..], score);
      assert ids == [ids[0]] + ids[1..];
    }
  }

  lemma {:induction false} SortIdsKeeps(ids: seq<string>, score: map<string, int>)
    requires forall x :: x in ids ==> x in score
    ensures forall x :: x in SortIds(ids, score) <==> x in ids
  {
    if ids != [] {
      SortIdsKeeps(ids[1..], score);
      InsertIdKeeps(ids[0], SortIds(ids[1..], score), score);
      assert ids == [ids[0]] + ids[1..];
    }
  }

  /** Scores do not rise. */
  predicate Descends(ids: seq<string>, score: map<string, int>) {
    forall i, j :: 0 <= i < j < |ids| ==> ids[i] in score && ids[j] in score && score[ids[i]] >= score[ids[j]]
  }

  lemma {:induction false} InsertIdDescends(id: string, ids: seq<string>, score: map<string, int>)
    requires id in score && (forall x :: x in ids ==> x in score) && Descends(ids, score) && Distinct(ids) && id !in ids
    ensures Descends(InsertId(id, ids, score), score) && Distinct(InsertId(id, ids, score))
  {
    if ids != [] && score[id] < score[ids[0]] {
      InsertIdDescends(id, ids[1..], score);
      InsertIdKeeps(id, ids[1..], score);
      var rest := InsertId(id, ids[1..], score);
      forall i | 0 <= i < |rest| ensures rest[i] in score && score[ids[0]] >= score[rest[i]] && rest[i] != ids[0] {
        assert rest[i] in rest;
        assert rest[i] in ids[1..] ==> exists k :: 1 <= k < |ids| && ids[k] == rest[i];
      }
    }
  }

  /** Sorting gives each id once, and no score after a lower one. */
  lemma {:induction false} SortIdsDescends(ids: seq<string>, score: map<string, int>)
    requires (forall x :: x in ids ==> x in score) && Distinct(ids)
    ensures Descends(SortIds(ids, score), score) && Distinct(SortIds(ids, score))
  {
    if ids != [] {
      SortIdsDescends(ids[1..], score);
      SortIdsKeeps(ids[1..], score);
      InsertIdDescends(ids[0], SortIds(ids[1..], score), score);
    }
  }

  function Fetched(ids: seq<string>, hashes: map<string, JobHash>): seq<Job>
    requires forall id :: id in ids ==> id in hashes
  {
    seq(|ids|, i requires 0 <= i < |ids| => assert ids[i] in ids; ToJob(hashes[ids[i]]))
  }

  lemma {:induction false} InsertIdInserts(id: string, ids: seq<string>, hashes: map<string, JobHash>, score: map<string, int>)
    requires score == Times(hashes) && id in hashes && forall x :: x in ids ==> x in hashes
    ensures forall x :: x in InsertId(id, ids, score) ==> x in hashes
    ensures Fetched(InsertId(id, ids, score), hashes) == Insert(ToJob(hashes[id]), Fetched(ids, hashes))
  {
    InsertIdKeeps(id, ids, score);
    if ids == [] || score[id] >= score[ids[0]] {
      FetchedCons(id, ids, hashes);
    } else {
      InsertIdKeeps(id, ids[1..], score);
      InsertIdInserts(id, ids[1..], hashes, score);
      FetchedCons(ids[0], ids[1..], hashes);
      FetchedCons(ids[0], InsertId(id, ids[1..], score), hashes);
      assert ids == [ids[0]] + ids[1..];
    }
  }

  lemma FetchedCons(id: string, ids: seq<string>, hashes: map<string, JobHash>)
    requires id in hashes && forall x :: x in ids ==> x in hashes
    ensures Fetched([id] + ids, hashes) == [ToJob(hashes[id])] + Fetched(ids, hashes)
    ensures Fetched([id] + ids, hashes)[1..] == Fetched(ids, hashes)
  {
  }

  /** Sorting the ids by score sorts the jobs by creation time. */
  lemma {:induction false} SortIdsSorts(ids: seq<string>, hashes: map<string, JobHash>, score: map<string, int>)
    requires score == Times(hashes) && forall x :: x in ids ==> x in hashes
    ensures forall x :: x in SortIds(ids, score) ==> x in hashes
    ensures Fetched(SortIds(ids, score), hashes) == Sort(Fetched(ids, hashes))
  {
    if ids != [] {
      SortIdsSorts(ids[1..], hashes, score);
      InsertIdInserts(ids[0], SortIds(ids[1..], score), hashes, score);
      FetchedCons(ids[0], ids[1..], hashes);
      assert ids == [ids[0]] + ids[1..];
    }
  }

  /** The jobs of the selected ids, sorted, are the listing. */
  lemma FetchedLists(q: Queue, status: Option<Status>, context: Option<string>, ids: seq<string>,
                     hashes: map<string, JobHash>)
    requires DistinctTimes(q) && Agrees(q) && q.jobs == JobsOf(hashes)
    requires Enumerates(ids, SelectedIds(q, status, context)) && forall id :: id in ids ==> id in hashes
    ensures Listing(q, status, context, Sort(Fetched(ids, hashes)))
  {
    var jobs := Fetched(ids, hashes);
    forall i | 0 <= i < |ids| ensures ids[i] in ids && jobs[i].id == ids[i] {
      assert ids[i] in q.jobs && q.jobs[ids[i]].id == ids[i];
    }
    forall id ensures id in Ids(jobs) <==> id in SelectedIds(q, status, context) {
      if id in ids {
        var i :| 0 <= i < |ids| && ids[i] == id;
        assert jobs[i].id == id;
      }
    }
    SortLists(q, status, context, jobs);
  }

  /** Fetching the jobs of one page of ids gives that page of the jobs. */
  lemma PageFetched(ids: seq<string>, hashes: map<string, JobHash>, limit: nat, offset: nat)
    requires forall id :: id in ids ==> id in hashes
    ensures forall id :: id in Page(ids, limit, offset) ==> id in hashes
    ensures Fetched(Page(ids, limit, offset), hashes) == Page(Fetched(ids, hashes), limit, offset)
  {
    assert forall id :: id in Page(ids, limit, offset) ==> id in ids;
  }

  // ----- Cleanup -----

  /** Looking at one more job: it is removed exactly if it is one of the old ones. */
  lemma Sweep(before: map<string, JobHash>, old_: set<string>, left: set<string>, id: string)
    requires id in left && left <= before.Keys
    ensures id in before - (old_ - left) && (before - (old_ - left))[id] == before[id]
    ensures var gone, gone' := old_ - left, old_ - (left - {id});
            if id in old_ then before - gone' == before - gone - {id} && |gone'| == |gone| + 1 else gone' == gone
  {
    var gone, gone' := old_ - left, old_ - (left - {id});
    if id in old_ {
      assert gone' == gone + {id};
    } else {
      assert gone' == gone;
    }
  }

  function UpdatedHash(h: JobHash, u: Update): JobHash {
    h.(status := u.status, started := Or(u.started, h.started), completed := Or(u.completed, h.completed),
       result := if u.result.Some? then u.result.value else h.result,
       error := if u.error.Some? then u.error.value else h.error)
  }

  lemma HashUpdates(h: JobHash, u: Update)
    ensures ToJob(UpdatedHash(h, u)) == WithoutEmpty(Updated(ToJob(h), u))
    ensures u.result != Some("") && u.error != Some("") ==> ToJob(UpdatedHash(h, u)) == Updated(ToJob(h), u)
  {
  }

  lemma FirstPending(q: Queue)
    requires Agrees(q) && q.pending != []
    ensures q.pending[0] in q.jobs && q.jobs[q.pending[0]].status.Pending?
  {
    assert q.pending[0] in q.pending;
  }
}
