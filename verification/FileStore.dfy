/** A file edited from several places: saves guarded by ETags, and a history of what they replaced. */
module FileStore {
  import opened Tree

  /** The file, if it exists, and the kept versions by id; ids are times, so larger is newer. */
  datatype Disk = Disk(file: Option<string>, history: map<int, string>)

  /** A missing file reads as empty. */
  function TextOf(disk: Disk): string { if disk.file.Some? then disk.file.value else "" }

  datatype Snapshot = Snapshot(text: string, etag: string)

  datatype Outcome =
    | Saved(after: Snapshot)
    | Unchanged(now: Snapshot)
    | Conflict(current: Snapshot)
    | NotWritable

  // ----- History -----

  /** How many kept versions are newer. */
  function Newer(history: map<int, string>, id: int): nat { |set x | x in history && x > id| }

  /** The newest `keep` versions. */
  function Newest(history: map<int, string>, keep: nat): map<int, string> {
    map id | id in history && Newer(history, id) < keep :: history[id]
  }

  function Backup(history: map<int, string>, id: int, text: string, keep: nat): map<int, string> {
    Newest(history[id := text], keep)
  }

  predicate Descending(ids: seq<int>) { forall i, j :: 0 <= i < j < |ids| ==> ids[i] > ids[j] }

  function InsertDown(x: int, ids: seq<int>): seq<int> {
    if ids == [] || x >= ids[0] then [x] + ids else [ids[0]] + InsertDown(x, ids[1..])
  }

  lemma {:induction false} InsertDownIs(x: int, ids: seq<int>)
    requires Descending(ids) && x !in ids
    ensures Descending(InsertDown(x, ids))
    ensures forall y :: y in InsertDown(x, ids) <==> y == x || y in ids
  {
    if ids != [] && x < ids[0] {
      InsertDownIs(x, ids[1..]);
      var rest := InsertDown(x, ids[1..]);
      assert ids == [ids[0]] + ids[1..];
      forall i | 0 <= i < |rest| ensures rest[i] < ids[0] {
        assert rest[i] in rest;
      }
    }
  }

  lemma HasMember(a: set<int>)
    requires a != {}
    ensures exists x :: x in a
  {
    assert (forall x :: x !in a) ==> a <= {};
  }

  /** `_versions`: the ids of the kept versions, newest first. */
  method Versions(history: map<int, string>) returns (ids: seq<int>)
    ensures Descending(ids) && forall id :: id in ids <==> id in history
  {
    ids := [];
    var left := history.Keys;
    while left != {}
      invariant left <= history.Keys && Descending(ids)
      invariant forall id :: id in ids <==> id in history.Keys - left
      decreases |left|
    {
      HasMember(left);
      var id :| id in left;
      InsertDownIs(id, ids);
      ids := InsertDown(id, ids);
      left := left - {id};
    }
  }

  /** In a list of all versions, newest first, a version's place is the number of newer ones. */
  lemma PlaceIsNewer(history: map<int, string>, ids: seq<int>, k: nat)
    requires Descending(ids) && (forall id :: id in ids <==> id in history) && k < |ids|
    ensures Newer(history, ids[k]) == k
  {
    assert (set x | x in history && x > ids[k]) == set x | x in ids[..k] by {
      forall x ensures (x in history && x > ids[k]) <==> x in ids[..k] {
        if x in history && x > ids[k] {
          var i :| 0 <= i < |ids| && ids[i] == x;
          assert i < k;
          assert ids[..k][i] == x;
        }
      }
    }
    DescendingSize(ids[..k]);
  }

  lemma {:induction false} DescendingSize(ids: seq<int>)
    requires Descending(ids)
    ensures |set x | x in ids| == |ids|
  {
    if ids != [] {
      var n := |ids| - 1;
      DescendingSize(ids[..n]);
      assert ids == ids[..n] + [ids[n]];
      assert (set x | x in ids) == (set x | x in ids[..n]) + {ids[n]};
    }
  }

  lemma OnlyPlace(ids: seq<int>, k: nat, keep: nat, id: int)
    requires Descending(ids) && k < |ids| && ids[k] == id
    ensures (forall m :: keep <= m < |ids| ==> ids[m] != id) <==> k < keep
  {
  }

  /** What is left after deleting every version from place `keep` on. */
  lemma DroppedIsNewest(history: map<int, string>, ids: seq<int>, keep: nat, kept: map<int, string>)
    requires Descending(ids) && forall id :: id in ids <==> id in history
    requires forall id :: id in kept <==> id in history && forall k :: keep <= k < |ids| ==> ids[k] != id
    requires forall id :: id in kept ==> kept[id] == history[id]
    ensures kept == Newest(history, keep)
  {
    forall id | id in history ensures id in kept <==> Newer(history, id) < keep {
      var k :| 0 <= k < |ids| && ids[k] == id;
      PlaceIsNewer(history, ids, k);
      OnlyPlace(ids, k, keep, id);
    }
    var newest := Newest(history, keep);
    forall id ensures id in kept <==> id in newest {
    }
    assert kept.Keys <= newest.Keys && newest.Keys <= kept.Keys;
  }

  // ----- Saving -----

  function SnapshotOf(disk: Disk, hash: string -> string): Snapshot { Snapshot(TextOf(disk), hash(TextOf(disk))) }

  /**
   * `write`: `appeared` is a file that someone creates, past the lock, after this save saw there was none.
   */
  function Write(disk: Disk, text: string, ifMatch: string, ok: bool, now: int, appeared: Option<string>,
                 keep: nat, hash: string -> string): (Disk, Outcome)
  {
    var current := SnapshotOf(disk, hash);
    if !ok then (disk, NotWritable)
    else if ifMatch != current.etag then (disk, Conflict(current))
    else if disk.file == Some(text) then (disk, Unchanged(current))
    else if disk.file.Some? then
      (Disk(Some(text), Backup(disk.history, now, disk.file.value, keep)), Saved(Snapshot(text, hash(text))))
    else if appeared.Some? then
      (disk.(file := appeared), Conflict(Snapshot(appeared.value, hash(appeared.value))))
    else (disk.(file := Some(text)), Saved(Snapshot(text, hash(text))))
  }

  class EditableFile {
    const hash: string -> string
    const keep: nat
    var file: Option<string>
    var history: map<int, string>

    constructor (file: Option<string>, history: map<int, string>, keep: nat, hash: string -> string)
      ensures On() == Disk(file, history) && this.keep == keep && this.hash == hash
    {
      this.file, this.history, this.keep, this.hash := file, history, keep, hash;
    }

    function On(): Disk
      reads this
    {
      Disk(file, history)
    }

    method Read() returns (s: Snapshot)
      ensures s == SnapshotOf(On(), hash)
    {
      var text := if file.Some? then file.value else "";
      s := Snapshot(text, hash(text));
    }

    /** `write`, under its lock. */
    method Save(text: string, ifMatch: string, ok: bool, now: int, appeared: Option<string>) returns (r: Outcome)
      modifies this
      ensures (On(), r) == Write(old(On()), text, ifMatch, ok, now, appeared, keep, hash)
    {
      if !ok {
        return NotWritable;
      }
      var existed := file.Some?;
      var current := Read();
      if ifMatch != current.etag {
        return Conflict(current);
      }
      if existed && text == current.text {
        return Unchanged(current);
      }
      if existed {
        KeepVersion(current.text, now);
        file := Some(text);
      } else {
        var created := Create(text, appeared);
        if !created {
          var now := Read();
          return Conflict(now);
        }
      }
      var after := Read();
      r := Saved(after);
    }

    /** `_create`: fails, leaving the other file, if one has appeared. */
    method Create(text: string, appeared: Option<string>) returns (created: bool)
      modifies `file
      ensures created == appeared.None? && file == if created then Some(text) else appeared
    {
      created := appeared.None?;
      file := if created then Some(text) else appeared;
    }

    /** `_backup`: keeps the text as the version `now` and deletes the versions past the newest `keep`. */
    method KeepVersion(text: string, now: int)
      modifies `history
      ensures history == Backup(old(history), now, text, keep)
    {
      history := history[now := text];
      ghost var all := history;
      var ids := Versions(history);
      for i := keep to if keep <= |ids| then |ids| else keep
        invariant forall id :: id in history <==> id in all && forall k :: keep <= k < i ==> ids[k] != id
        invariant forall id :: id in history ==> history[id] == all[id]
      {
        history := history - {ids[i]};
      }
      DroppedIsNewest(all, ids, keep, history);
    }
  }

  /** What a save replaced can be read back from the history under the save's time, and saved again. */
  lemma ReplacedCanBeRestored(disk: Disk, text: string, now: int, later: int, keep: nat, hash: string -> string)
    requires disk.file.Some? && disk.file != Some(text) && keep > 0
    requires forall id :: id in disk.history ==> id < now
    ensures var (saved, r) := Write(disk, text, hash(TextOf(disk)), true, now, None, keep, hash);
            && now in saved.history && saved.history[now] == disk.file.value && r.Saved?
            && Write(saved, saved.history[now], r.after.etag, true, later, None, keep, hash).0.file == disk.file
  {
    var h := disk.history[now := disk.file.value];
    assert (set x | x in h && x > now) == {};
  }

  /**
   * Two first saves at once: the one that comes second, although it saw no file, leaves the other's text
   * alone and is told of it; saving again with the ETag it was given replaces that text and keeps it.
   */
  lemma CreationRaceLosesNothing(disk: Disk, first: string, second: string, now: int, later: int, keep: nat,
                                 hash: string -> string)
    requires disk.file.None? && first != second && keep > 0 && forall id :: id in disk.history ==> id < later
    ensures var (after, r) := Write(disk, second, hash(""), true, now, Some(first), keep, hash);
            && after.file == Some(first) && after.history == disk.history && r.Conflict? && r.current.text == first
            && Write(after, second, r.current.etag, true, later, None, keep, hash).1.Saved?
            && var again := Write(after, second, r.current.etag, true, later, None, keep, hash).0;
               again.file == Some(second) && later in again.history && again.history[later] == first
  {
    var h := disk.history[later := first];
    assert (set x | x in h && x > later) == {};
  }

  /**
   * A save is accepted exactly if the file may be written, the ETag is that of the current text, the text
   * is another, and no file has appeared meanwhile; whatever else happens, the history stays, and so does
   * a file that was there.
   */
  lemma SavedIff(disk: Disk, text: string, ifMatch: string, ok: bool, now: int, appeared: Option<string>, keep: nat,
                 hash: string -> string)
    ensures var (after, r) := Write(disk, text, ifMatch, ok, now, appeared, keep, hash);
            && (r.Saved? <==> ok && ifMatch == hash(TextOf(disk)) && disk.file != Some(text)
                              && (disk.file.Some? || appeared.None?))
            && (r.Saved? ==> after.file == Some(text) && r.after == Snapshot(text, hash(text)))
            && (!r.Saved? ==> after.history == disk.history && (disk.file.Some? ==> after.file == disk.file))
  {
  }

  /** A file that may not be written, and a save with another ETag: nothing changes, and the answer says why. */
  lemma RefusedChangesNothing(disk: Disk, text: string, ifMatch: string, now: int, appeared: Option<string>, keep: nat,
                              hash: string -> string)
    ensures Write(disk, text, ifMatch, false, now, appeared, keep, hash) == (disk, NotWritable)
    ensures ifMatch != hash(TextOf(disk)) ==>
              Write(disk, text, ifMatch, true, now, appeared, keep, hash)
              == (disk, Conflict(Snapshot(TextOf(disk), hash(TextOf(disk)))))
  {
  }

  /** A save refused for its ETag is told of the current text, and accepted with the ETag it was given. */
  lemma ConflictThenAccepted(disk: Disk, text: string, ifMatch: string, now: int, later: int, keep: nat,
                             hash: string -> string)
    requires disk.file.Some? && disk.file != Some(text) && ifMatch != hash(disk.file.value) && keep > 0
    requires forall id :: id in disk.history ==> id < later
    ensures var (after, r) := Write(disk, text, ifMatch, true, now, None, keep, hash);
            && after == disk && r.Conflict? && r.current.text == disk.file.value
            && var (again, r') := Write(after, text, r.current.etag, true, later, None, keep, hash);
               r'.Saved? && again.file == Some(text) && later in again.history && again.history[later] == disk.file.value
  {
    var h := disk.history[later := disk.file.value];
    assert (set x | x in h && x > later) == {};
  }

  // ----- Every run -----

  ghost predicate Injective(hash: string -> string) { forall a, b :: hash(a) == hash(b) ==> a == b }

  /** A save that was accepted: what its author had read, what it replaced, and its text. */
  datatype Save = Save(client: nat, basis: string, replaced: Option<string>, text: string, id: int)

  /** The disk, what each client last read, the accepted saves and the texts the file has had. */
  datatype World = World(disk: Disk, basis: map<nat, string>, saves: seq<Save>)

  datatype Event =
    | Look(client: nat)
    | Submit(client: nat, text: string, ok: bool, now: int, appeared: Option<string>)
    | EditOutside(file: Option<string>)

  /** A client saves with the ETag of what it last read. */
  function Happen(w: World, e: Event, keep: nat, hash: string -> string): World {
    match e
    case Look(c) => w.(basis := w.basis[c := TextOf(w.disk)])
    case EditOutside(file) => w.(disk := w.disk.(file := file))
    case Submit(c, text, ok, now, appeared) =>
      if c !in w.basis then w else
        var (disk, r) := Write(w.disk, text, hash(w.basis[c]), ok, now, appeared, keep, hash);
        match r
        case Saved(after) =>
          World(disk, w.basis[c := after.text], w.saves + [Save(c, w.basis[c], w.disk.file, text, now)])
        case Unchanged(now) => World(disk, w.basis[c := now.text], w.saves)
        case Conflict(current) => World(disk, w.basis[c := current.text], w.saves)
        case NotWritable => w
  }

  function HappenAll(w: World, events: seq<Event>, keep: nat, hash: string -> string): World
    decreases |events|
  {
    if events == [] then w else HappenAll(Happen(w, events[0], keep, hash), events[1..], keep, hash)
  }

  /** A save replaced exactly what its author had read; a missing file reads as empty. */
  predicate Informed(s: Save) { s.basis == if s.replaced.Some? then s.replaced.value else "" }

  predicate AllInformed(saves: seq<Save>) { forall k :: 0 <= k < |saves| ==> Informed(saves[k]) }

  /** No lost updates: whoever saves, whenever, and whatever is edited outside, every accepted save is informed. */
  lemma {:induction false} NoLostUpdates(w: World, events: seq<Event>, keep: nat, hash: string -> string)
    requires Injective(hash) && AllInformed(w.saves)
    ensures AllInformed(HappenAll(w, events, keep, hash).saves)
    decreases |events|
  {
    if events != [] {
      SubmitInformed(w, events[0], keep, hash);
      NoLostUpdates(Happen(w, events[0], keep, hash), events[1..], keep, hash);
    }
  }

  lemma SubmitInformed(w: World, e: Event, keep: nat, hash: string -> string)
    requires Injective(hash) && AllInformed(w.saves)
    ensures AllInformed(Happen(w, e, keep, hash).saves)
  {
    if e.Submit? && e.client in w.basis {
      var basis := w.basis[e.client];
      assert hash(basis) == hash(TextOf(w.disk)) ==> basis == TextOf(w.disk);
    }
  }

  /** Without an injective ETag a save can be accepted that replaces something its author never saw. */
  lemma CollisionLosesUpdate(a: string, b: string, text: string, keep: nat, hash: string -> string)
    requires hash(a) == hash(b) && a != b && text != b
    ensures var w := HappenAll(World(Disk(Some(a), map[]), map[], []),
                               [Look(0), EditOutside(Some(b)), Submit(0, text, true, 0, None)], keep, hash);
            w.disk.file == Some(text) && !AllInformed(w.saves)
  {
    var w0 := World(Disk(Some(a), map[]), map[], []);
    var submit := Submit(0, text, true, 0, None);
    var w1 := Happen(w0, Look(0), keep, hash);
    var w2 := Happen(w1, EditOutside(Some(b)), keep, hash);
    var w3 := Happen(w2, submit, keep, hash);
    assert [Look(0), EditOutside(Some(b)), submit][1..] == [EditOutside(Some(b)), submit];
    assert [EditOutside(Some(b)), submit][1..] == [submit];
    assert HappenAll(w2, [submit], keep, hash) == w3;
    assert !Informed(w3.saves[0]);
  }

  /** From this world, these events keep every accepted save informed. */
  ghost predicate LosesNothing(w: World, events: seq<Event>, keep: nat, hash: string -> string) {
    AllInformed(w.saves) ==> AllInformed(HappenAll(w, events, keep, hash).saves)
  }

  /** No run loses an update exactly if the ETag is injective. */
  lemma NoLostUpdatesIff(keep: nat, hash: string -> string)
    ensures (forall w, events :: LosesNothing(w, events, keep, hash)) <==> Injective(hash)
  {
    if Injective(hash) {
      forall w, events ensures LosesNothing(w, events, keep, hash) {
        if AllInformed(w.saves) {
          NoLostUpdates(w, events, keep, hash);
        }
      }
    } else {
      var a, b :| hash(a) == hash(b) && a != b;
      var w := World(Disk(Some(a), map[]), map[], []);
      var events := [Look(0), EditOutside(Some(b)), Submit(0, b + "+", true, 0, None)];
      CollisionLosesUpdate(a, b, b + "+", keep, hash);
      assert !LosesNothing(w, events, keep, hash);
    }
  }

  // ----- The history of a run -----

  datatype Version = Version(id: int, text: string)

  /** The contents that saves replaced, oldest first. */
  function Replaced(saves: seq<Save>): seq<Version> {
    if saves == [] then [] else
      var last := saves[|saves| - 1];
      Replaced(saves[..|saves| - 1]) + if last.replaced.Some? then [Version(last.id, last.replaced.value)] else []
  }

  /** Versions with rising ids, the last no later than `now`. */
  predicate Rising(log: seq<Version>, now: int) {
    log == [] || (log[0].id <= now && Above(log[0].id, log[1..]) && Rising(log[1..], now))
  }

  predicate Above(id: int, log: seq<Version>) {
    log == [] || (log[0].id > id && Above(id, log[1..]))
  }

  /** The versions as the history keeps them. */
  function Kept(log: seq<Version>): map<int, string> {
    if log == [] then map[] else Kept(log[1..])[log[0].id := log[0].text]
  }

  /** The last `n`. */
  function Last<T>(log: seq<T>, n: nat): seq<T> { if |log| <= n then log else log[|log| - n..] }

  lemma {:induction false} AboveKept(id: int, log: seq<Version>, x: int)
    requires Above(id, log) && x in Kept(log)
    ensures x > id
  {
    if x != log[0].id {
      AboveKept(id, log[1..], x);
    }
  }

  lemma {:induction false} KeptSize(log: seq<Version>, now: int)
    requires Rising(log, now)
    ensures |Kept(log)| == |log|
  {
    if log != [] {
      KeptSize(log[1..], now);
      if log[0].id in Kept(log[1..]) {
        AboveKept(log[0].id, log[1..], log[0].id);
      }
    }
  }

  lemma NewerLess(history: map<int, string>, id: int)
    requires id in history
    ensures Newer(history, id) < |history|
  {
    var newer := set x | x in history && x > id;
    SubsetSize(newer, history.Keys - {id});
  }

  lemma {:induction false} SubsetSize(a: set<int>, b: set<int>)
    requires a <= b
    ensures |a| <= |b|
  {
    if a != {} {
      HasMember(a);
      var x :| x in a;
      SubsetSize(a - {x}, b - {x});
    }
  }

  /** The first version of a rising log is the oldest. */
  lemma HeadIsOldest(log: seq<Version>, now: int, id: int)
    requires log != [] && Rising(log, now)
    ensures Newer(Kept(log), log[0].id) == |log| - 1
    ensures id in Kept(log[1..]) ==> id != log[0].id && Newer(Kept(log), id) == Newer(Kept(log[1..]), id)
  {
    var h, rest := log[0].id, Kept(log[1..]);
    forall x | x in rest ensures x > h {
      AboveKept(h, log[1..], x);
    }
    assert (set x | x in Kept(log) && x > h) == rest.Keys;
    KeptSize(log[1..], now);
    if id in rest {
      assert (set x | x in Kept(log) && x > id) == set x | x in rest && x > id;
    }
  }

  lemma DropHead(log: seq<Version>, now: int, keep: nat)
    requires Rising(log, now) && |log| > keep
    ensures Newest(Kept(log), keep) == Newest(Kept(log[1..]), keep)
  {
    var all, rest := Newest(Kept(log), keep), Newest(Kept(log[1..]), keep);
    forall id ensures id in all <==> id in rest {
      HeadIsOldest(log, now, id);
    }
    forall id | id in rest ensures all[id] == rest[id] {
      HeadIsOldest(log, now, id);
    }
  }

  /** Pruning a rising log to the newest `keep` leaves its last `keep`. */
  lemma {:induction false} NewestIsLast(log: seq<Version>, now: int, keep: nat)
    requires Rising(log, now)
    ensures Newest(Kept(log), keep) == Kept(Last(log, keep))
  {
    if |log| <= keep {
      KeptSize(log, now);
      forall id | id in Kept(log) ensures Newer(Kept(log), id) < keep {
        NewerLess(Kept(log), id);
      }
    } else {
      NewestIsLast(log[1..], now, keep);
      DropHead(log, now, keep);
      assert Last(log[1..], keep) == Last(log, keep);
    }
  }

  lemma {:induction false} RisingAppend(log: seq<Version>, now: int, v: Version)
    requires Rising(log, now) && now < v.id
    ensures Rising(log + [v], v.id) && Kept(log + [v]) == Kept(log)[v.id := v.text]
  {
    if log == [] {
      assert log + [v] == [v];
    } else {
      RisingAppend(log[1..], now, v);
      AboveAppend(log[0].id, log[1..], v);
      assert (log + [v])[1..] == log[1..] + [v];
    }
  }

  lemma {:induction false} AboveAppend(id: int, log: seq<Version>, v: Version)
    requires Above(id, log) && id < v.id
    ensures Above(id, log + [v])
  {
    if log == [] {
      assert log + [v] == [v];
    } else {
      AboveAppend(id, log[1..], v);
      assert (log + [v])[1..] == log[1..] + [v];
    }
  }

  lemma {:induction false} RisingTail(log: seq<Version>, now: int, d: nat)
    requires Rising(log, now) && d <= |log|
    ensures Rising(log[d..], now)
  {
    if d > 0 {
      RisingTail(log[1..], now, d - 1);
      assert log[1..][d - 1..] == log[d..];
    }
  }

  lemma LastAppend(log: seq<Version>, v: Version, n: nat)
    ensures Last(Last(log, n) + [v], n) == Last(log + [v], n)
  {
  }

  /** Adding a newer version to a history of the last `keep` and pruning gives the last `keep` again. */
  lemma BackupKeepsLast(log: seq<Version>, now: int, v: Version, keep: nat)
    requires Rising(log, now) && now < v.id
    ensures Backup(Kept(Last(log, keep)), v.id, v.text, keep) == Kept(Last(log + [v], keep))
  {
    var last := Last(log, keep);
    RisingTail(log, now, |log| - |last|);
    RisingAppend(last, now, v);
    NewestIsLast(last + [v], v.id, keep);
    LastAppend(log, v, keep);
  }

  /** The history holds the last `keep` replaced contents, under the times they were replaced. */
  predicate Recent(w: World, now: int, keep: nat) {
    Rising(Replaced(w.saves), now) && w.disk.history == Kept(Last(Replaced(w.saves), keep))
  }

  function Later(now: int, e: Event): int { if e.Submit? then e.now else now }

  lemma HappenRecent(w: World, e: Event, now: int, keep: nat, hash: string -> string)
    requires Recent(w, now, keep) && (e.Submit? ==> now < e.now)
    ensures Recent(Happen(w, e, keep, hash), Later(now, e), keep)
  {
    var w', later := Happen(w, e, keep, hash), Later(now, e);
    if Accepts(w, e, keep, hash) {
      var s := Save(e.client, w.basis[e.client], w.disk.file, e.text, e.now);
      AcceptedHappens(w, e, keep, hash);
      SaveRecent(w.saves, w.disk.history, s, now, keep);
    } else {
      OthersKeepHistory(w, e, keep, hash);
      RisingLater(Replaced(w.saves), now, later);
    }
  }

  /** The event is a save that is accepted. */
  predicate Accepts(w: World, e: Event, keep: nat, hash: string -> string) {
    e.Submit? && e.client in w.basis
    && Write(w.disk, e.text, hash(w.basis[e.client]), e.ok, e.now, e.appeared, keep, hash).1.Saved?
  }

  lemma AcceptedHappens(w: World, e: Event, keep: nat, hash: string -> string)
    requires Accepts(w, e, keep, hash)
    ensures var w' := Happen(w, e, keep, hash);
            && w'.saves == w.saves + [Save(e.client, w.basis[e.client], w.disk.file, e.text, e.now)]
            && w'.disk.history == if w.disk.file.Some? then Backup(w.disk.history, e.now, w.disk.file.value, keep)
                                  else w.disk.history
  {
  }

  lemma OthersKeepHistory(w: World, e: Event, keep: nat, hash: string -> string)
    requires !Accepts(w, e, keep, hash)
    ensures Happen(w, e, keep, hash).saves == w.saves && Happen(w, e, keep, hash).disk.history == w.disk.history
  {
  }

  lemma SaveRecent(saves: seq<Save>, history: map<int, string>, s: Save, now: int, keep: nat)
    requires Rising(Replaced(saves), now) && history == Kept(Last(Replaced(saves), keep)) && now < s.id
    ensures Rising(Replaced(saves + [s]), s.id)
    ensures Kept(Last(Replaced(saves + [s]), keep)) ==
            if s.replaced.Some? then Backup(history, s.id, s.replaced.value, keep) else history
  {
    var log := Replaced(saves);
    ReplacedAppend(saves, s);
    if s.replaced.Some? {
      var v := Version(s.id, s.replaced.value);
      BackupKeepsLast(log, now, v, keep);
      RisingAppend(log, now, v);
    } else {
      RisingLater(log, now, s.id);
    }
  }

  lemma ReplacedAppend(saves: seq<Save>, s: Save)
    ensures Replaced(saves + [s]) ==
            if s.replaced.Some? then Replaced(saves) + [Version(s.id, s.replaced.value)] else Replaced(saves)
  {
    assert (saves + [s])[..|saves|] == saves;
  }

  lemma {:induction false} RisingLater(log: seq<Version>, now: int, later: int)
    requires Rising(log, now) && now <= later
    ensures Rising(log, later)
  {
    if log != [] {
      RisingLater(log[1..], now, later);
    }
  }

  /** Saves happen at rising times. */
  predicate TimesRise(now: int, events: seq<Event>)
    decreases |events|
  {
    events == [] || (Later(now, events[0]) >= now && (events[0].Submit? ==> now < events[0].now)
                     && TimesRise(Later(now, events[0]), events[1..]))
  }

  function End(now: int, events: seq<Event>): int
    decreases |events|
  {
    if events == [] then now else End(Later(now, events[0]), events[1..])
  }

  /** In every run with rising save times the history is the newest `keep` contents that saves replaced. */
  lemma {:induction false} HistoryIsRecent(w: World, events: seq<Event>, now: int, keep: nat, hash: string -> string)
    requires Recent(w, now, keep) && TimesRise(now, events)
    ensures Recent(HappenAll(w, events, keep, hash), End(now, events), keep)
    decreases |events|
  {
    if events != [] {
      HappenRecent(w, events[0], now, keep, hash);
      HistoryIsRecent(Happen(w, events[0], keep, hash), events[1..], Later(now, events[0]), keep, hash);
    }
  }
}
