/** The running server: its objects wired together, and its operations as runs of the machine's steps. */
module Server {

  import opened Common
  import opened Results
  import opened Limiter
  import opened Store
  import opened Payments
  import opened Files
  import opened Machine

  /** The upload handler's steps, with nothing in between. */
  function Completed(s: State, ip: Address, id: FileId, saves: bool, answer: Option<Answer>, persists: bool): State {
    DoTrack(DoRegister(DoPersist(DoIssue(DoSave(DoBegin(s, 0, ip, id), 0, saves), 0, answer), 0, persists), 0), 0)
  }

  /** The settlement's steps, with nothing in between. */
  function Paid(s: State, hash: Hash, drops: bool, marks: bool): State {
    DoNotify(DoMark(DoDrop(DoTake(s, hash), drops), marks))
  }

  /** The cleanup loop's steps on its list, with nothing in between. */
  function WorkedOff(s: State, stuck: set<FileId>, locked: set<FileId>): State
    requires !s.cleared
    decreases |s.due|
  {
    if s.due == [] then s
    else if s.due[0] in stuck then WorkedOff(DoDeleteBlob(s, false), stuck, locked)
    else WorkedOff(DoDeleteRow(DoDeleteBlob(s, true), s.due[0] !in locked), stuck, locked)
  }

  function Visited(s: State, lists: bool, stuck: set<FileId>, locked: set<FileId>): Shelf {
    var before := Shelf(s.blobs, s.tables.files);
    if lists then Pass(before, CleanupRun(s.now, stuck, locked)) else before
  }

  function Cleared(s: State, after: Shelf): State {
    s.(blobs := after.blobs, tables := s.tables.(files := after.files))
  }

  /** A cleanup pass over the files, unless they cannot be listed, and one over the limiter. */
  function Ticked(s: State, lists: bool, stuck: set<FileId>, locked: set<FileId>): State {
    DoSweep(Cleared(s, Visited(s, lists, stuck, locked)))
  }

  predicate ValidFileID(id: FileId) {
    0 < |id.text| <= 64 && forall c | c in id.text :: 'a' <= c <= 'z' || 'A' <= c <= 'Z' || '0' <= c <= '9'
  }

  /** 1 to 64 ASCII letters and digits. */
  lemma FileIdIs(id: FileId)
    ensures ValidFileID(id) <==> 1 <= |id.text| <= 64 && forall i | 0 <= i < |id.text| ::
      48 <= id.text[i] as int <= 57 || 65 <= id.text[i] as int <= 90 || 97 <= id.text[i] as int <= 122
  {
    if ValidFileID(id) {
      assert forall i | 0 <= i < |id.text| :: id.text[i] in id.text;
    }
  }

  const MAX_UPLOAD_SIZE := 5368709120

  datatype Reply = BadRequest | TooManyRequests | TooLarge | ServerError | Accepted

  lemma IssuedOnIs(s: State, ip: Address, id: FileId, size: nat, answer: Option<Answer>, persists: bool)
    requires s.jobs == map[0 := Job(ip, id, Saved(size))]
    ensures DoTrack(DoRegister(DoPersist(DoIssue(s, 0, answer), 0, persists), 0), 0) ==
      match Created(id, Price(size), answer)
      case Err(_) => s.(jobs := map[])
      case Ok(inv) =>
        var p := PendingInvoice(id, inv);
        s.(tables := if persists then s.tables.SaveInvoice(inv.paymentHash, p.Row(s.now)) else s.tables,
           books := s.books.Register(p),
           index := if ip != NO_ADDRESS then s.index.Track(ip, id, s.now) else s.index,
           jobs := map[])
  {
  }

  /** What an upload's steps come to: nothing, an unpaid row, or a row with an invoice and a tracked file. */
  lemma CompletedIs(s: State, ip: Address, id: FileId, saves: bool, answer: Option<Answer>, persists: bool)
    requires s.jobs == map[]
    ensures id !in s.blobs || !saves || id in s.tables.files ==> Completed(s, ip, id, saves, answer, persists) == s
    ensures id in s.blobs && saves && id !in s.tables.files ==>
      var saved := s.tables.InsertFile(id, Fresh(s.blobs[id], s.now));
      Completed(s, ip, id, saves, answer, persists) ==
      match Created(id, Price(s.blobs[id]), answer)
      case Err(_) => s.(tables := saved)
      case Ok(inv) =>
        var p := PendingInvoice(id, inv);
        s.(tables := if persists then saved.SaveInvoice(inv.paymentHash, p.Row(s.now)) else saved,
           books := s.books.Register(p),
           index := if ip != NO_ADDRESS then s.index.Track(ip, id, s.now) else s.index)
  {
    var s1 := DoBegin(s, 0, ip, id);
    if id in s.blobs {
      var meta := Fresh(s.blobs[id], s.now);
      assert s1.jobs == map[0 := Job(ip, id, Checked(meta))];
      var s2 := DoSave(s1, 0, saves);
      if saves && id !in s.tables.files {
        assert s2 == s.(tables := s.tables.InsertFile(id, meta), jobs := map[0 := Job(ip, id, Saved(s.blobs[id]))]);
        IssuedOnIs(s2, ip, id, s.blobs[id], answer, persists);
      } else {
        assert s2.jobs == map[];
      }
    }
  }

  lemma SweptState(s: State, now: Time, x: Index, swept: Index)
    requires s.now == now && s.index == x && swept == x.Cleanup(now - PENDING_TIMEOUT)
    ensures DoSweep(s) == s.(index := swept)
  {
  }

  class Server {
    const files: FileService
    const payments: PaymentService
    const limiter: PendingFileLimiter

    ghost predicate Wired()
      reads payments
    {
      payments.store == files.store && payments.onPayment == limiter
    }

    /** The state between operations. */
    function Snapshot(now: Time): State
      reads files.storage, files.store, payments, limiter
    {
      State(now, files.storage.blobs, files.store.Value(), payments.Value(), limiter.Value(), map[], Idle, [], false)
    }

    constructor (storage: Storage, store: SQLiteStore)
      ensures Wired() && fresh(payments) && fresh(limiter)
      ensures files.storage == storage && files.store == store && limiter.maxPending == 3
      ensures payments.Value() == NO_BOOKS && limiter.Value() == EMPTY
    {
      var f := new FileService(storage, store);
      var p := new PaymentService(store);
      var l := new PendingFileLimiter(3);
      files, payments, limiter := f, p, l;
      new;
      payments.SetPaymentCallback(limiter);
    }

    /** Start-up after a crash: new objects on the old storage and database, then the stored invoices. */
    method Restart(loads: bool, ghost crashed: State)
      requires Wired() && payments.Value() == NO_BOOKS && limiter.Value() == EMPTY
      requires crashed.blobs == files.storage.blobs && crashed.tables == files.store.Value()
      modifies payments`pending, payments`byFileID
      ensures Wired()
      ensures exists order ::
        && (loads ==> Lists(order, crashed.tables.invoices.Keys))
        && Snapshot(crashed.now) == DoCrash(crashed, order, loads)
    {
      payments.LoadPendingInvoices(!loads);
      ghost var order: seq<Hash> := [];
      if loads {
        var rows := files.store.invoices;
        order :| Lists(order, rows.Keys) && payments.Value() == Load(NO_BOOKS, rows, order);
      }
      assert Snapshot(crashed.now) == DoCrash(crashed, order, loads);
    }

    method UploadInit(ip: Address, size: int) returns (r: Reply)
      ensures r.Accepted? <==> |limiter.Value().Files(ip)| < limiter.maxPending && 0 < size <= MAX_UPLOAD_SIZE
      ensures r.TooManyRequests? <==> limiter.maxPending <= |limiter.Value().Files(ip)|
      ensures r.BadRequest? <==> |limiter.Value().Files(ip)| < limiter.maxPending && size <= 0
      ensures r.TooLarge? <==> |limiter.Value().Files(ip)| < limiter.maxPending && 5_368_709_120 < size
    {
      var ok := limiter.CanUpload(ip);
      if !ok {
        return TooManyRequests;
      }
      if size <= 0 {
        return BadRequest;
      }
      if size > MAX_UPLOAD_SIZE {
        return TooLarge;
      }
      return Accepted;
    }

    /** When the upload fails, what `left` says stays stored, part of it or nothing. */
    method UploadStream(id: FileId, length: int, now: Time, fails: bool, left: Option<nat>) returns (r: Reply)
      modifies files.storage
      ensures r.Accepted? || r.ServerError? <==> ValidFileID(id) && 0 < length <= MAX_UPLOAD_SIZE
      ensures r.ServerError? ==> fails
      ensures r.Accepted? ==> files.storage.blobs == old(files.storage.blobs)[id := length]
      ensures r.Accepted? ==> !fails && Snapshot(now) == Apply(old(Snapshot(now)), Put(id, length))
      ensures r.ServerError? && left.Some? ==> Snapshot(now) == Apply(old(Snapshot(now)), Put(id, left.value))
      ensures !r.Accepted? && !(r.ServerError? && left.Some?) ==> Snapshot(now) == old(Snapshot(now))
      ensures r.TooLarge? <==> ValidFileID(id) && length > 5_368_709_120
    {
      if !ValidFileID(id) || length <= 0 {
        return BadRequest;
      }
      if length > MAX_UPLOAD_SIZE {
        return TooLarge;
      }
      var ok := files.UploadWithID(id, length, fails, left);
      return if ok then Accepted else ServerError;
    }

    /** `saves`, `answer` and `persists` say how the database and the Lightning client behave. */
    method UploadComplete(
      ip: Address, id: FileId, size: int, now: Time, saves: bool, answer: Option<Answer>, persists: bool)
      returns (r: Reply)
      requires Wired()
      modifies files.store, payments`pending, payments`byFileID, limiter
      ensures Wired()
      ensures Snapshot(now)
           == if ValidFileID(id) && size > 0 then Completed(old(Snapshot(now)), ip, id, saves, answer, persists)
              else old(Snapshot(now))
      ensures r.Accepted? <==> ValidFileID(id) && size > 0 && id in files.storage.blobs && saves
                               && id !in old(files.store.files) && |id.text| >= 8 && answer.Some?
      ensures r.ServerError? <==> ValidFileID(id) && size > 0 && id in files.storage.blobs && saves
                                  && id !in old(files.store.files) && (|id.text| < 8 || answer.None?)
      ensures r.Accepted? ==>
        var amount := Price(files.storage.blobs[id]);
        var inv := Invoice(answer.value.paymentHash, answer.value.paymentRequest, amount);
        && payments.Value() == old(payments.Value()).Register(PendingInvoice(id, inv))
        && payments.pending[answer.value.paymentHash].invoice.amountSats
           == if files.storage.blobs[id] < 104_857_600 then 100 else files.storage.blobs[id] / 1_048_576
    {
      CompletedIs(Snapshot(now), ip, id, saves, answer, persists);
      if !ValidFileID(id) || size <= 0 {
        return BadRequest;
      }
      var actual := files.CompleteUpload(id, now, !saves);
      if actual.None? {
        return BadRequest;
      }
      var amountSats := actual.value / 1048576;
      if amountSats < 100 {
        amountSats := 100;
      }
      var invoice := payments.CreateInvoiceForFile(id, amountSats, answer, now, !persists);
      if invoice.Err? {
        return ServerError;
      }
      if ip != NO_ADDRESS {
        limiter.TrackPendingFile(ip, id, now);
      }
      return Accepted;
    }

    /** One settled update. */
    method Settle(hash: Hash, now: Time, drops: bool, marks: bool)
      requires Wired()
      modifies files.store, payments`pending, payments`byFileID, limiter
      ensures Wired()
      ensures Snapshot(now) == Paid(old(Snapshot(now)), hash, drops, marks)
    {
      payments.HandlePayment(hash, now, !drops, !marks);
    }

    method CleanupFiles(now: Time, lists: bool, stuck: set<FileId>, locked: set<FileId>)
      modifies files.storage, files.store
      ensures Snapshot(now) == Cleared(old(Snapshot(now)), Visited(old(Snapshot(now)), lists, stuck, locked))
    {
      var _ := files.CleanupExpired(now, !lists, stuck, locked);
      assert files.Value() == Visited(old(Snapshot(now)), lists, stuck, locked);
    }

    method CleanupLimiter(now: Time)
      modifies limiter
      ensures Snapshot(now) == DoSweep(old(Snapshot(now)))
    {
      ghost var s, x := Snapshot(now), limiter.Value();
      assert s.now == now && s.index == x;
      var _ := limiter.CleanupExpired(PENDING_TIMEOUT, now);
      SweptState(s, now, x, limiter.Value());
    }

    /** What the ticker does: the files first, then the limiter. */
    method Cleanup(now: Time, lists: bool, stuck: set<FileId>, locked: set<FileId>)
      modifies files.storage, files.store, limiter
      ensures Snapshot(now) == Ticked(old(Snapshot(now)), lists, stuck, locked)
    {
      CleanupFiles(now, lists, stuck, locked);
      CleanupLimiter(now);
    }
  }

  // ---- a cleanup with nothing in between ----------------------------------------------------

  lemma {:induction false} WorkedOffIs(s: State, stuck: set<FileId>, locked: set<FileId>)
    requires !s.cleared
    ensures var due := set i | 0 <= i < |s.due| :: s.due[i];
      WorkedOff(s, stuck, locked) == s.(blobs := s.blobs - (due - stuck),
                                        tables := s.tables.(files := s.tables.files - (due - stuck - locked)),
                                        due := [])
    decreases |s.due|
  {
    var due := set i | 0 <= i < |s.due| :: s.due[i];
    if s.due == [] {
      assert due == {} && s.blobs - {} == s.blobs && s.tables.files - {} == s.tables.files;
    } else {
      var id, rest := s.due[0], set i | 0 <= i < |s.due[1..]| :: s.due[1..][i];
      assert due == {id} + rest by {
        assert s.due == [id] + s.due[1..];
      }
      if id in stuck {
        WorkedOffIs(DoDeleteBlob(s, false), stuck, locked);
        assert due - stuck == rest - stuck;
      } else {
        WorkedOffIs(DoDeleteRow(DoDeleteBlob(s, true), id !in locked), stuck, locked);
        assert due - stuck == {id} + (rest - stuck);
        assert s.blobs - {id} - (rest - stuck) == s.blobs - (due - stuck);
        if id in locked {
          assert due - stuck - locked == rest - stuck - locked;
        } else {
          assert s.tables.files - {id} - (rest - stuck - locked) == s.tables.files - (due - stuck - locked);
        }
      }
    }
  }

  lemma WorkIsVisit(s: State, listed: seq<FileId>, stuck: set<FileId>, locked: set<FileId>)
    requires s.due == [] && !s.cleared && Lists(listed, s.tables.ExpiredFiles(s.now))
    ensures WorkedOff(DoList(s, listed), stuck, locked) == Cleared(s, Visited(s, true, stuck, locked))
  {
    WorkedOffIs(DoList(s, listed), stuck, locked);
    var due := set i | 0 <= i < |listed| :: listed[i];
    assert due == Shelf(s.blobs, s.tables.files).Due(s.now) by {
      assert forall x :: x in s.tables.ExpiredFiles(s.now) <==> x in listed;
    }
  }

  /** The ticker's work is the cleanup steps, uninterrupted, whatever order the files are listed in. */
  lemma TickedIs(s: State, listed: seq<FileId>, stuck: set<FileId>, locked: set<FileId>)
    requires s.due == [] && !s.cleared && Lists(listed, s.tables.ExpiredFiles(s.now))
    ensures Ticked(s, true, stuck, locked) == DoSweep(WorkedOff(DoList(s, listed), stuck, locked))
    ensures Ticked(s, false, stuck, locked) == DoSweep(s)
  {
    WorkIsVisit(s, listed, stuck, locked);
    assert Cleared(s, Visited(s, false, stuck, locked)) == s;
  }
}
