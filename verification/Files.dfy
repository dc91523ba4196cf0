/** Uploaded files: the blobs, the rows that describe them, and who may download. */
module Files {

  import opened Common
  import opened Results
  import opened Store

  /** What a new upload is recorded as: unpaid, with a short expiry. */
  function Fresh(size: nat, now: Time): FileMeta {
    FileMeta(size, now + PENDING_TIMEOUT, HOST_DURATION, false, now)
  }

  /** The gate both download paths share, and the blob behind it. */
  predicate Downloadable(t: Tables, blobs: map<FileId, nat>, id: FileId, now: Time) {
    id in t.files && t.files[id].paid && now <= t.files[id].expiresAt && id in blobs
  }

  /** What a cleanup pass works on. */
  datatype Shelf = Shelf(blobs: map<FileId, nat>, files: map<FileId, FileMeta>)
  {
    function Due(now: Time): set<FileId> {
      set id | id in files && Expired(files[id], now)
    }
  }

  /** A pass, with the IDs whose blob or row it fails to delete. */
  datatype CleanupRun = CleanupRun(now: Time, stuck: set<FileId>, locked: set<FileId>)

  function Pass(s: Shelf, r: CleanupRun): Shelf {
    var gone := s.Due(r.now) - r.stuck;
    Shelf(s.blobs - gone, s.files - (gone - r.locked))
  }

  function Passes(s: Shelf, runs: seq<CleanupRun>): Shelf
    decreases |runs|
  {
    if runs == [] then s else Passes(Pass(s, runs[0]), runs[1..])
  }

  datatype DownloadError = StoreError(error: Error) | ErrNotPaid | ErrExpired | NoBlob | Unreadable

  function Saved(blobs: map<FileId, nat>, id: FileId, size: Option<nat>): map<FileId, nat> {
    if size.Some? then blobs[id := size.value] else blobs
  }

  /** Blobs by ID; only their length matters here. */
  class Storage {
    var blobs: map<FileId, nat>

    constructor ()
      ensures blobs == map[]
    {
      blobs := map[];
    }

    /** `SaveWithProgress`: when it fails, what `left` says is stored, part of the upload or nothing. */
    method Save(id: FileId, size: nat, fails: bool, left: Option<nat>) returns (ok: bool)
      modifies this
      ensures ok <==> !fails
      ensures blobs == Saved(old(blobs), id, if fails then left else Some(size))
    {
      if fails {
        if left.Some? {
          blobs := blobs[id := left.value];
        }
        return false;
      }
      blobs := blobs[id := size];
      return true;
    }

    method Stat(id: FileId) returns (size: Option<nat>)
      ensures size == if id in blobs then Some(blobs[id]) else None
    {
      return if id in blobs then Some(blobs[id]) else None;
    }

    method Load(id: FileId, unreadable: bool) returns (r: Result<nat, DownloadError>)
      ensures r == if unreadable then Err(Unreadable) else if id in blobs then Ok(blobs[id]) else Err(NoBlob)
    {
      if unreadable {
        return Err(Unreadable);
      }
      if id !in blobs {
        return Err(NoBlob);
      }
      return Ok(blobs[id]);
    }

    /** The caller treats an absent blob like a deleted one. */
    method Delete(id: FileId, fails: bool) returns (ok: bool)
      modifies this
      ensures ok <==> !fails
      ensures blobs == if fails then old(blobs) else old(blobs) - {id}
    {
      if fails {
        return false;
      }
      blobs := blobs - {id};
      return true;
    }
  }

  /** The entries left when those listed, but for the ones kept, were removed. */
  function Left<V>(m: map<FileId, V>, order: seq<FileId>, kept: set<FileId>): map<FileId, V> {
    if order == [] then m
    else
      var id := order[|order| - 1];
      var before := Left(m, order[..|order| - 1], kept);
      if id in kept then before else before - {id}
  }

  function Removed(order: seq<FileId>, kept: set<FileId>): nat {
    if order == [] then 0
    else Removed(order[..|order| - 1], kept) + if order[|order| - 1] in kept then 0 else 1
  }

  lemma {:induction false} LeftIs<V>(m: map<FileId, V>, order: seq<FileId>, kept: set<FileId>)
    ensures forall id :: id in Left(m, order, kept) <==> id in m && (id in kept || id !in order)
    ensures forall id | id in Left(m, order, kept) :: Left(m, order, kept)[id] == m[id]
  {
    if order != [] {
      LeftIs(m, order[..|order| - 1], kept);
      assert forall id :: id in order <==> id in order[..|order| - 1] || id == order[|order| - 1];
    }
  }

  lemma LeftNext<V>(m: map<FileId, V>, order: seq<FileId>, i: nat, kept: set<FileId>)
    requires i < |order| && order[i] !in order[..i]
    ensures Left(m, order[..i + 1], kept)
         == if order[i] in kept then Left(m, order[..i], kept) else Left(m, order[..i], kept) - {order[i]}
    ensures Removed(order[..i + 1], kept) == Removed(order[..i], kept) + if order[i] in kept then 0 else 1
    ensures order[i] in m ==> order[i] in Left(m, order[..i], kept)
  {
    assert order[..i + 1][..i] == order[..i];
    LeftIs(m, order[..i], kept);
  }

  lemma {:induction false} RemovedIs(order: seq<FileId>, kept: set<FileId>, s: set<FileId>)
    requires Lists(order, s)
    ensures Removed(order, kept) == |s - kept|
  {
    if order == [] {
      assert s - kept == {};
    } else {
      var init, id := order[..|order| - 1], order[|order| - 1];
      assert forall x :: x in order <==> x in init || x == id;
      assert id !in init;
      RemovedIs(init, kept, s - {id});
      assert s - kept == (s - {id} - kept) + if id in kept then {} else {id};
    }
  }

  lemma ListedLeft<V>(m: map<FileId, V>, order: seq<FileId>, kept: set<FileId>, s: set<FileId>)
    requires Lists(order, s)
    ensures Left(m, order, kept) == m - (s - kept)
    ensures Removed(order, kept) == |s - kept|
  {
    LeftIs(m, order, kept);
    RemovedIs(order, kept, s);
  }

  /**
   * What a pass takes, written out: the blob of every file whose expiry is before now, paid or not, unless it is
   * stuck; its row, unless it is stuck or locked; and nothing else.
   */
  ghost predicate TookExactly(s: Shelf, t: Shelf, now: Time, stuck: set<FileId>, locked: set<FileId>) {
    && (forall id :: id in t.files <==> id in s.files && (now <= s.files[id].expiresAt || id in stuck + locked))
    && (forall id :: id in t.blobs <==>
      (id in s.blobs && (id in s.files && s.files[id].expiresAt < now ==> id in stuck)))
    && (forall id | id in t.files :: t.files[id] == s.files[id])
    && (forall id | id in t.blobs :: t.blobs[id] == s.blobs[id])
  }

  lemma PassTook(s: Shelf, r: CleanupRun)
    ensures TookExactly(s, Pass(s, r), r.now, r.stuck, r.locked)
  {
  }

  lemma FewerRows(m: map<FileId, FileMeta>, gone: set<FileId>)
    requires gone <= m.Keys
    ensures |m - gone| == |m| - |gone|
  {
    assert (m - gone).Keys + gone == m.Keys && (m - gone).Keys !! gone;
    assert |m| == |m.Keys| && |m - gone| == |(m - gone).Keys|;
  }

  /** The rows removed are the ones that are gone. */
  lemma RowsGone(m: map<FileId, FileMeta>, order: seq<FileId>, kept: set<FileId>, s: set<FileId>)
    requires Lists(order, s) && s <= m.Keys
    ensures Removed(order, kept) == |m| - |Left(m, order, kept)|
  {
    ListedLeft(m, order, kept, s);
    FewerRows(m, s - kept);
  }

  class FileService {
    const storage: Storage
    const store: SQLiteStore

    function Value(): Shelf
      reads storage, store
    {
      Shelf(storage.blobs, store.files)
    }

    constructor (storage: Storage, store: SQLiteStore)
      ensures this.storage == storage && this.store == store
    {
      this.storage := storage;
      this.store := store;
    }

    /** `UploadWithID`: no check that the ID is new. */
    method UploadWithID(id: FileId, size: nat, fails: bool, left: Option<nat>) returns (ok: bool)
      modifies storage
      ensures ok <==> !fails
      ensures storage.blobs == Saved(old(storage.blobs), id, if fails then left else Some(size))
    {
      ok := storage.Save(id, size, fails, left);
    }

    method CompleteUpload(id: FileId, now: Time, fails: bool) returns (size: Option<nat>)
      modifies store
      ensures size.Some? <==> id in storage.blobs && !fails && id !in old(store.files)
      ensures size.Some? ==> size.value == storage.blobs[id]
      ensures size.Some? ==> store.Value() == old(store.Value()).InsertFile(id, Fresh(size.value, now))
      ensures size.Some? ==>
        var meta := FileMeta(size.value, now + 900_000_000_000, 604_800_000_000_000, false, now);
        store.files == old(store.files)[id := meta]
      ensures size.None? ==> store.Value() == old(store.Value())
    {
      var actual := storage.Stat(id);
      if actual.None? {
        return None;
      }
      var meta := FileMeta(actual.value, now + PENDING_TIMEOUT, HOST_DURATION, false, now);
      var err := store.SaveFileMetadata(id, meta, fails);
      return if err.Some? then None else actual;
    }

    /** `Download` and `DownloadSeekable`: the row, the payment, the expiry, then the blob, which may be unreadable. */
    method Download(id: FileId, now: Time, fails: bool, unreadable: bool) returns (r: Result<nat, DownloadError>)
      ensures r.Ok? <==> !fails && !unreadable && Downloadable(store.Value(), storage.blobs, id, now)
      ensures r.Ok? ==> r.value == storage.blobs[id]
      ensures r == Err(StoreError(Fault)) <==> fails
      ensures r == Err(StoreError(NotFound)) <==> !fails && id !in store.files
      ensures r == Err(ErrNotPaid) <==> !fails && id in store.files && !store.files[id].paid
      ensures r == Err(ErrExpired) <==> !fails && id in store.files && store.files[id].paid
                                        && store.files[id].expiresAt < now
      ensures r == Err(Unreadable) || r == Err(NoBlob) || r.Ok?
         <==> !fails && id in store.files && store.files[id].paid && now <= store.files[id].expiresAt
      ensures r == Err(Unreadable) ==> unreadable
      ensures r == Err(NoBlob) ==> !unreadable && id !in storage.blobs
    {
      var meta := store.GetFileMetadata(id, fails);
      if meta.Err? {
        return Err(StoreError(meta.error));
      }
      if !meta.value.paid {
        return Err(ErrNotPaid);
      }
      if now > meta.value.expiresAt {
        return Err(ErrExpired);
      }
      r := storage.Load(id, unreadable);
    }

    /** The blob first; the row only when the blob is gone. */
    method CleanupOne(id: FileId, stuck: bool, locked: bool) returns (removed: bool)
      modifies storage, store
      ensures storage.blobs == if stuck then old(storage.blobs) else old(storage.blobs) - {id}
      ensures store.files == if stuck || locked then old(store.files) else old(store.files) - {id}
      ensures store.invoices == old(store.invoices)
      ensures removed <==> !stuck && !locked && id in old(store.files)
    {
      var deleted := storage.Delete(id, stuck);
      if !deleted {
        return false;
      }
      var err := store.DeleteFileMetadata(id, locked);
      return err.None?;
    }

    method CleanupListed(expired: seq<FileId>, stuck: set<FileId>, locked: set<FileId>) returns (count: nat)
      requires forall i | 0 <= i < |expired| :: expired[i] in store.files
      requires forall i, j | 0 <= i < j < |expired| :: expired[i] != expired[j]
      modifies storage, store
      ensures storage.blobs == Left(old(storage.blobs), expired, stuck)
      ensures store.files == Left(old(store.files), expired, stuck + locked)
      ensures store.invoices == old(store.invoices)
      ensures count == Removed(expired, stuck + locked)
    {
      count := 0;
      for i := 0 to |expired|
        invariant store.invoices == old(store.invoices)
        invariant storage.blobs == Left(old(storage.blobs), expired[..i], stuck)
        invariant store.files == Left(old(store.files), expired[..i], stuck + locked)
        invariant count == Removed(expired[..i], stuck + locked)
      {
        LeftNext(old(storage.blobs), expired, i, stuck);
        LeftNext(old(store.files), expired, i, stuck + locked);
        var removed := CleanupOne(expired[i], expired[i] in stuck, expired[i] in locked);
        if removed {
          count := count + 1;
        }
      }
      assert expired[..|expired|] == expired;
    }

    /**
     * One cleanup pass; `stuck` and `locked` are the IDs whose blob or row cannot be deleted. For every such
     * pattern the pass goes on: a row goes exactly when its blob is gone, and the count is the rows removed.
     */
    method CleanupExpired(now: Time, listFails: bool, stuck: set<FileId>, locked: set<FileId>)
      returns (count: Option<nat>)
      modifies storage, store
      ensures listFails <==> count.None?
      ensures listFails ==> storage.blobs == old(storage.blobs) && store.Value() == old(store.Value())
      ensures store.invoices == old(store.invoices)
      ensures !listFails ==> Value() == Pass(old(Value()), CleanupRun(now, stuck, locked))
      ensures !listFails ==> count.value == |old(store.files)| - |store.files|
      ensures !listFails ==> TookExactly(old(Value()), Value(), now, stuck, locked)
    {
      if listFails {
        return None;
      }
      var expired := store.ListExpiredFiles(now);
      ghost var all, kept := store.Value().ExpiredFiles(now), stuck + locked;
      assert forall i | 0 <= i < |expired| :: expired[i] in all;
      var n := CleanupListed(expired, stuck, locked);
      ListedLeft(old(storage.blobs), expired, stuck, all);
      ListedLeft(old(store.files), expired, kept, all);
      RowsGone(old(store.files), expired, kept, all);
      assert all - kept == all - stuck - locked;
      PassTook(old(Value()), CleanupRun(now, stuck, locked));
      return Some(n);
    }
  }

  // ---- cleanup, whatever fails ------------------------------------------------------------

  /** A pass takes no row whose blob stays, and nothing that is not due. */
  lemma PassIsSafe(s: Shelf, r: CleanupRun, id: FileId)
    ensures id in s.files && id !in Pass(s, r).files ==> Expired(s.files[id], r.now) && id !in Pass(s, r).blobs
    ensures id in Pass(s, r).files ==> id in s.files && Pass(s, r).files[id] == s.files[id]
    ensures id in s.blobs && id !in Pass(s, r).blobs ==> id in s.files && Expired(s.files[id], r.now)
    ensures id in Pass(s, r).blobs ==> id in s.blobs && Pass(s, r).blobs[id] == s.blobs[id]
  {
  }

  /** A failed pass is absorbed by a later one that meets no failure. */
  lemma PassAbsorbed(s: Shelf, r: CleanupRun, now: Time)
    requires r.now <= now
    ensures Pass(Pass(s, r), CleanupRun(now, {}, {})) == Pass(s, CleanupRun(now, {}, {}))
  {
  }

  /** Any passes with any failures, then one without: the end is that of the one pass alone, nothing due is left. */
  lemma {:induction false} FailuresAreMadeUpFor(s: Shelf, runs: seq<CleanupRun>, now: Time)
    requires forall i | 0 <= i < |runs| :: runs[i].now <= now
    ensures Pass(Passes(s, runs), CleanupRun(now, {}, {})) == Pass(s, CleanupRun(now, {}, {}))
    ensures Pass(Passes(s, runs), CleanupRun(now, {}, {})).Due(now) == {}
    decreases |runs|
  {
    if runs != [] {
      FailuresAreMadeUpFor(Pass(s, runs[0]), runs[1..], now);
      PassAbsorbed(s, runs[0], now);
    }
  }
}
