/**
 * The server as a state machine. A step is one database statement, one storage call or one critical section;
 * upload handlers, the payment watcher and the cleanup loop interleave at every step, statements may fail, and
 * the process may crash and start again between any two steps.
 */
module Machine {

  import opened Common
  import opened Results
  import opened Limiter
  import opened Store
  import opened Payments
  import opened Files

  /** How far `handleUploadComplete` got. */
  datatype Stage =
    | Checked(meta: FileMeta)
    | Saved(size: nat)
    | Issued(p: PendingInvoice)
    | Persisted(p: PendingInvoice)
    | Registered

  datatype Job = Job(ip: Address, id: FileId, stage: Stage)

  /** How far `handlePayment` got; there is one watcher. */
  datatype Settling =
    | Idle
    | Taken(hash: Hash, id: FileId)
    | Dropped(hash: Hash, id: FileId)
    | Marked(hash: Hash, id: FileId)

  /** `due` is what the cleanup loop has listed and not finished; `cleared` says the blob of its head is dealt with. */
  datatype State = State(
    now: Time,
    blobs: map<FileId, nat>, tables: Tables,
    books: Books, index: Index,
    jobs: map<nat, Job>, settling: Settling, due: seq<FileId>, cleared: bool)

  datatype Step =
    | Tick(d: nat)
    | Put(id: FileId, size: nat)
    | Begin(j: nat, ip: Address, id: FileId)
    | Save(j: nat, ok: bool)
    | Issue(j: nat, answer: Option<Answer>)
    | Persist(j: nat, ok: bool)
    | Register(j: nat)
    | Track(j: nat)
    | Take(hash: Hash)
    | Drop(ok: bool)
    | Mark(ok: bool)
    | Notify
    | List(listed: seq<FileId>)
    | DeleteBlob(ok: bool)
    | DeleteRow(ok: bool)
    | SweepIndex
    | Crash(order: seq<Hash>, loads: bool)

  const NO_ADDRESS := Address("")

  /** 1 sat per MB, at least 100. */
  function Price(size: nat): nat {
    if size / 1048576 < 100 then 100 else size / 1048576
  }

  // ---- the upload handlers ----------------------------------------------------------------

  function DoBegin(s: State, j: nat, ip: Address, id: FileId): State {
    if j in s.jobs || id !in s.blobs then s
    else s.(jobs := s.jobs[j := Job(ip, id, Checked(Fresh(s.blobs[id], s.now)))])
  }

  function DoSave(s: State, j: nat, ok: bool): State {
    if j !in s.jobs || !s.jobs[j].stage.Checked? then s
    else
      var job := s.jobs[j];
      if !ok || job.id in s.tables.files then s.(jobs := s.jobs - {j})
      else s.(tables := s.tables.InsertFile(job.id, job.stage.meta),
              jobs := s.jobs[j := job.(stage := Saved(job.stage.meta.size))])
  }

  /** The step gets an invoice from the Lightning client. */
  predicate Issues(s: State, j: nat, answer: Option<Answer>) {
    j in s.jobs && s.jobs[j].stage.Saved? && Created(s.jobs[j].id, Price(s.jobs[j].stage.size), answer).Ok?
  }

  function DoIssue(s: State, j: nat, answer: Option<Answer>): State {
    if j !in s.jobs || !s.jobs[j].stage.Saved? then s
    else
      var job := s.jobs[j];
      match Created(job.id, Price(job.stage.size), answer)
      case Err(_) => s.(jobs := s.jobs - {j})
      case Ok(inv) => s.(jobs := s.jobs[j := job.(stage := Issued(PendingInvoice(job.id, inv)))])
  }

  function DoPersist(s: State, j: nat, ok: bool): State {
    if j !in s.jobs || !s.jobs[j].stage.Issued? then s
    else
      var job := s.jobs[j];
      var p := job.stage.p;
      s.(tables := if ok then s.tables.SaveInvoice(p.invoice.paymentHash, p.Row(s.now)) else s.tables,
         jobs := s.jobs[j := job.(stage := Persisted(p))])
  }

  function DoRegister(s: State, j: nat): State {
    if j !in s.jobs || !s.jobs[j].stage.Persisted? then s
    else
      var job := s.jobs[j];
      s.(books := s.books.Register(job.stage.p), jobs := s.jobs[j := job.(stage := Registered)])
  }

  function DoTrack(s: State, j: nat): State {
    if j !in s.jobs || !s.jobs[j].stage.Registered? then s
    else
      var job := s.jobs[j];
      s.(index := if job.ip != NO_ADDRESS then s.index.Track(job.ip, job.id, s.now) else s.index, jobs := s.jobs - {j})
  }

  // ---- the payment watcher ----------------------------------------------------------------

  /** A settled update arrives for the hash. */
  function DoTake(s: State, hash: Hash): State {
    if !s.settling.Idle? || hash !in s.books.pending then s
    else s.(books := s.books.Take(hash), settling := Taken(hash, s.books.pending[hash].fileID))
  }

  function DoDrop(s: State, ok: bool): State {
    if !s.settling.Taken? then s
    else s.(tables := if ok then s.tables.DropInvoice(s.settling.hash) else s.tables,
            settling := Dropped(s.settling.hash, s.settling.id))
  }

  function DoMark(s: State, ok: bool): State {
    if !s.settling.Dropped? then s
    else s.(tables := if ok then s.tables.MarkPaid(s.settling.id, s.now) else s.tables,
            settling := Marked(s.settling.hash, s.settling.id))
  }

  function DoNotify(s: State): State {
    if !s.settling.Marked? then s else s.(index := s.index.Pay(s.settling.id), settling := Idle)
  }

  // ---- the cleanup loop -------------------------------------------------------------------

  ghost function DoList(s: State, listed: seq<FileId>): State {
    if s.due != [] || !Lists(listed, s.tables.ExpiredFiles(s.now)) then s else s.(due := listed, cleared := false)
  }

  function DoDeleteBlob(s: State, ok: bool): State {
    if s.due == [] || s.cleared then s
    else if !ok then s.(due := s.due[1..])
    else s.(blobs := s.blobs - {s.due[0]}, cleared := true)
  }

  function DoDeleteRow(s: State, ok: bool): State {
    if s.due == [] || !s.cleared then s
    else s.(tables := if ok then s.tables.DeleteFile(s.due[0]) else s.tables, due := s.due[1..], cleared := false)
  }

  function DoSweep(s: State): State {
    s.(index := s.index.Cleanup(s.now - PENDING_TIMEOUT))
  }

  // ---- restart ----------------------------------------------------------------------------

  /** Blobs and tables survive; memory is built again from the stored invoices, if they can be read. */
  ghost function DoCrash(s: State, order: seq<Hash>, loads: bool): State {
    if loads && !Lists(order, s.tables.invoices.Keys) then s
    else State(s.now, s.blobs, s.tables,
               if loads then Load(NO_BOOKS, s.tables.invoices, order) else NO_BOOKS,
               EMPTY, map[], Idle, [], false)
  }

  ghost predicate Crashes(s: State, a: Step) {
    a.Crash? && (a.loads ==> Lists(a.order, s.tables.invoices.Keys))
  }

  /** A step that cannot be taken changes nothing. */
  ghost function Apply(s: State, a: Step): State {
    match a
    case Tick(d) => s.(now := s.now + d)
    case Put(id, size) => s.(blobs := s.blobs[id := size])
    case Begin(j, ip, id) => DoBegin(s, j, ip, id)
    case Save(j, ok) => DoSave(s, j, ok)
    case Issue(j, answer) => DoIssue(s, j, answer)
    case Persist(j, ok) => DoPersist(s, j, ok)
    case Register(j) => DoRegister(s, j)
    case Track(j) => DoTrack(s, j)
    case Take(hash) => DoTake(s, hash)
    case Drop(ok) => DoDrop(s, ok)
    case Mark(ok) => DoMark(s, ok)
    case Notify => DoNotify(s)
    case List(listed) => DoList(s, listed)
    case DeleteBlob(ok) => DoDeleteBlob(s, ok)
    case DeleteRow(ok) => DoDeleteRow(s, ok)
    case SweepIndex => DoSweep(s)
    case Crash(order, loads) => DoCrash(s, order, loads)
  }

  /** A statement that fails writes nothing. */
  lemma FailureWritesNothing(s: State, a: Step)
    requires a.Save? || a.Persist? || a.Drop? || a.Mark? || a.DeleteBlob? || a.DeleteRow?
    requires !a.ok
    ensures Apply(s, a).tables == s.tables && Apply(s, a).blobs == s.blobs && Apply(s, a).books == s.books
  {
  }

  predicate Start(s: State) {
    && s.blobs == map[] && s.tables == Tables(map[], map[]) && s.books == NO_BOOKS && s.index == EMPTY
    && s.jobs == map[] && s.settling == Idle && s.due == []
  }

  /** Any finite run. */
  ghost function Run(s: State, steps: seq<Step>): State {
    if steps == [] then s else Apply(Run(s, steps[..|steps| - 1]), steps[|steps| - 1])
  }

  lemma {:induction false} RunAppend(s: State, xs: seq<Step>, ys: seq<Step>)
    ensures Run(s, xs + ys) == Run(Run(s, xs), ys)
  {
    if ys == [] {
      assert xs + ys == xs;
    } else {
      assert (xs + ys)[..|xs + ys| - 1] == xs + ys[..|ys| - 1];
      RunAppend(s, xs, ys[..|ys| - 1]);
    }
  }

  lemma RunSnoc(s: State, steps: seq<Step>, a: Step)
    ensures Run(s, steps + [a]) == Apply(Run(s, steps), a)
  {
    assert (steps + [a])[..|steps|] == steps;
  }
}
