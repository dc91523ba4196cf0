/** What a restart brings back: pending invoices in memory and in the database. */
module Recovery {

  import opened Common
  import opened Results
  import opened Store
  import opened Payments
  import opened Machine
  import opened NoFreeDownload
  import opened Scenario

  /** Where the handling of one payment hash stands. */
  datatype Phase =
    | Unsaved(j: nat)
    | Stored(j: nat)
    | Waiting
    | InHand
    | Between
    | Handled
    | Unmarked
    | Orphaned
    | Lost
  {
    predicate Row() {
      Stored? || Waiting? || InHand?
    }

    function AfterCrash(): Phase {
      match this
      case Unsaved(_) => Orphaned
      case Stored(_) => Waiting
      case InHand => Waiting
      case Between => Lost
      case _ => this
    }
  }

  /** The step marks the file of the settlement in hand as paid. */
  predicate Marks(s: State, a: Step) {
    a.Mark? && a.ok && s.settling.Dropped? && s.settling.id in s.tables.files
  }

  ghost function Advance(ph: map<Hash, Phase>, s: State, a: Step): map<Hash, Phase> {
    match a
    case Issue(j, answer) =>
      if Issues(s, j, answer) then ph[answer.value.paymentHash := Unsaved(j)] else ph
    case Persist(j, _) =>
      if j in s.jobs && s.jobs[j].stage.Issued? then ph[s.jobs[j].stage.p.invoice.paymentHash := Stored(j)] else ph
    case Register(j) =>
      if j in s.jobs && s.jobs[j].stage.Persisted? then ph[s.jobs[j].stage.p.invoice.paymentHash := Waiting] else ph
    case Take(hash) => if s.settling.Idle? && hash in s.books.pending then ph[hash := InHand] else ph
    case Drop(_) => if s.settling.Taken? then ph[s.settling.hash := Between] else ph
    case Mark(_) => if s.settling.Dropped? then ph[s.settling.hash := if Marks(s, a) then Handled else Unmarked] else ph
    case Crash(_, _) => map h | h in ph :: ph[h].AfterCrash()
    case _ => ph
  }

  ghost function Phases(s: State, steps: seq<Step>): map<Hash, Phase> {
    if steps == [] then map[]
    else Advance(Phases(s, steps[..|steps| - 1]), Run(s, steps[..|steps| - 1]), steps[|steps| - 1])
  }

  /** Statements on invoices succeed, the Lightning client never repeats a hash, and a restart reads the rows. */
  ghost predicate Reliable(ph: map<Hash, Phase>, s: State, a: Step) {
    match a
    case Issue(_, answer) => answer.Some? ==> answer.value.paymentHash !in ph
    case Persist(_, ok) => ok
    case Drop(ok) => ok
    case Crash(order, loads) => loads && Lists(order, s.tables.invoices.Keys)
    case _ => true
  }

  ghost predicate ReliableRun(s: State, steps: seq<Step>) {
    steps == [] ||
    var init := steps[..|steps| - 1];
    ReliableRun(s, init) && Reliable(Phases(s, init), Run(s, init), steps[|steps| - 1])
  }

  // ---- memory, rows and handlers in progress agree ----------------------------------------

  ghost predicate JobInPhase(s: State, ph: map<Hash, Phase>, j: nat)
    requires j in s.jobs
  {
    match s.jobs[j].stage
    case Issued(p) => p.invoice.paymentHash in ph && ph[p.invoice.paymentHash] == Unsaved(j)
    case Persisted(p) =>
      var h := p.invoice.paymentHash;
      h in ph && ph[h] == Stored(j) && h in s.tables.invoices && FromRow(h, s.tables.invoices[h]) == p
    case _ => true
  }

  ghost predicate PhaseOfJob(s: State, ph: map<Hash, Phase>, h: Hash)
    requires h in ph
  {
    match ph[h]
    case Stored(j) => j in s.jobs && s.jobs[j].stage.Persisted? && s.jobs[j].stage.p.invoice.paymentHash == h
    case InHand => s.settling.Taken? && s.settling.hash == h
    case Between => s.settling.Dropped? && s.settling.hash == h
    case _ => true
  }

  ghost predicate InPhase(s: State, ph: map<Hash, Phase>) {
    && (forall h :: h in s.books.pending <==> h in ph && ph[h].Waiting?)
    && (forall h :: h in s.tables.invoices <==> h in ph && ph[h].Row())
    && (forall h | h in s.books.pending :: s.books.pending[h] == FromRow(h, s.tables.invoices[h]))
    && (forall j | j in s.jobs :: JobInPhase(s, ph, j))
    && (forall h | h in ph :: PhaseOfJob(s, ph, h))
    && (s.settling.Taken? ==> s.settling.hash in ph && ph[s.settling.hash] == InHand)
    && (s.settling.Dropped? ==> s.settling.hash in ph && ph[s.settling.hash] == Between)
  }

  /** The step touches no invoice: neither the maps, nor the rows, nor a handler that holds one. */
  ghost predicate Elsewhere(s: State, t: State) {
    && t.books == s.books && t.tables.invoices == s.tables.invoices
    && (t.settling == s.settling || (s.settling.Marked? && t.settling.Idle?))
    && (forall j | j in s.jobs && s.jobs[j].stage.Persisted? :: j in t.jobs && t.jobs[j] == s.jobs[j])
    && (forall j | j in t.jobs && (t.jobs[j].stage.Issued? || t.jobs[j].stage.Persisted?) ::
      j in s.jobs && t.jobs[j] == s.jobs[j])
  }

  lemma ElsewhereInPhase(s: State, ph: map<Hash, Phase>, t: State)
    requires InPhase(s, ph) && Elsewhere(s, t)
    ensures InPhase(t, ph)
  {
  }

  lemma IssueInPhase(s: State, ph: map<Hash, Phase>, j: nat, answer: Option<Answer>)
    requires InPhase(s, ph) && Issues(s, j, answer) && answer.value.paymentHash !in ph
    ensures InPhase(DoIssue(s, j, answer), ph[answer.value.paymentHash := Unsaved(j)])
  {
  }

  lemma PersistInPhase(s: State, ph: map<Hash, Phase>, j: nat)
    requires InPhase(s, ph) && j in s.jobs && s.jobs[j].stage.Issued?
    ensures InPhase(DoPersist(s, j, true), Advance(ph, s, Persist(j, true)))
  {
    var t, n := DoPersist(s, j, true), Advance(ph, s, Persist(j, true));
    assert JobInPhase(s, ph, j);
    forall i | i in t.jobs
      ensures JobInPhase(t, n, i)
    {
      assert JobInPhase(s, ph, i);
    }
    forall h | h in n
      ensures PhaseOfJob(t, n, h)
    {
      assert PhaseOfJob(s, ph, h);
    }
  }

  lemma RegisterInPhase(s: State, ph: map<Hash, Phase>, j: nat)
    requires InPhase(s, ph) && j in s.jobs && s.jobs[j].stage.Persisted?
    ensures InPhase(DoRegister(s, j), Advance(ph, s, Register(j)))
  {
    var t, n := DoRegister(s, j), Advance(ph, s, Register(j));
    assert JobInPhase(s, ph, j);
    forall i | i in t.jobs
      ensures JobInPhase(t, n, i)
    {
      assert JobInPhase(s, ph, i);
    }
    forall h | h in n
      ensures PhaseOfJob(t, n, h)
    {
      assert PhaseOfJob(s, ph, h);
    }
  }

  lemma TakeInPhase(s: State, ph: map<Hash, Phase>, hash: Hash)
    requires InPhase(s, ph) && s.settling.Idle? && hash in s.books.pending
    ensures InPhase(DoTake(s, hash), ph[hash := InHand])
  {
  }

  lemma DropInPhase(s: State, ph: map<Hash, Phase>)
    requires InPhase(s, ph) && s.settling.Taken?
    ensures InPhase(DoDrop(s, true), ph[s.settling.hash := Between])
  {
    var t, n := DoDrop(s, true), ph[s.settling.hash := Between];
    forall j | j in t.jobs
      ensures JobInPhase(t, n, j)
    {
      assert JobInPhase(s, ph, j);
    }
    forall h | h in n
      ensures PhaseOfJob(t, n, h)
    {
      assert PhaseOfJob(s, ph, h);
    }
  }

  lemma MarkInPhase(s: State, ph: map<Hash, Phase>, ok: bool, done: Phase)
    requires InPhase(s, ph) && s.settling.Dropped? && (done == Handled || done == Unmarked)
    ensures InPhase(DoMark(s, ok), ph[s.settling.hash := done])
  {
  }

  lemma CrashInPhase(s: State, ph: map<Hash, Phase>, order: seq<Hash>)
    requires InPhase(s, ph) && Lists(order, s.tables.invoices.Keys)
    ensures InPhase(DoCrash(s, order, true), Advance(ph, s, Crash(order, true)))
  {
    LoadedIsStored(s.tables.invoices, order);
    var t, n := DoCrash(s, order, true), Advance(ph, s, Crash(order, true));
    forall h
      ensures h in t.books.pending <==> h in n && n[h].Waiting?
      ensures h in t.tables.invoices <==> h in n && n[h].Row()
    {
      assert h in s.tables.invoices <==> h in ph && ph[h].Row();
      if h in ph {
        assert PhaseOfJob(s, ph, h);
      }
    }
  }

  lemma StepElsewhere(s: State, a: Step)
    requires a.Issue? ==> !Issues(s, a.j, a.answer)
    requires a.Persist? ==> a.j !in s.jobs || !s.jobs[a.j].stage.Issued?
    requires a.Register? ==> a.j !in s.jobs || !s.jobs[a.j].stage.Persisted?
    requires a.Take? ==> !s.settling.Idle? || a.hash !in s.books.pending
    requires a.Drop? ==> !s.settling.Taken?
    requires a.Mark? ==> !s.settling.Dropped?
    requires !a.Crash?
    ensures Elsewhere(s, Apply(s, a))
  {
  }

  lemma StepInPhase(s: State, ph: map<Hash, Phase>, a: Step)
    requires InPhase(s, ph) && Reliable(ph, s, a)
    ensures InPhase(Apply(s, a), Advance(ph, s, a))
  {
    if a.Issue? && Issues(s, a.j, a.answer) {
      IssueInPhase(s, ph, a.j, a.answer);
    } else if a.Persist? && a.j in s.jobs && s.jobs[a.j].stage.Issued? {
      PersistInPhase(s, ph, a.j);
    } else if a.Register? && a.j in s.jobs && s.jobs[a.j].stage.Persisted? {
      RegisterInPhase(s, ph, a.j);
    } else if a.Take? && s.settling.Idle? && a.hash in s.books.pending {
      TakeInPhase(s, ph, a.hash);
    } else if a.Drop? && s.settling.Taken? {
      DropInPhase(s, ph);
    } else if a.Mark? && s.settling.Dropped? {
      MarkInPhase(s, ph, a.ok, if Marks(s, a) then Handled else Unmarked);
    } else if a.Crash? {
      CrashInPhase(s, ph, a.order);
    } else {
      assert Advance(ph, s, a) == ph;
      StepElsewhere(s, a);
      ElsewhereInPhase(s, ph, Apply(s, a));
    }
  }

  lemma {:induction false} RunInPhase(s: State, steps: seq<Step>)
    requires Start(s) && ReliableRun(s, steps)
    ensures InPhase(Run(s, steps), Phases(s, steps))
  {
    if steps != [] {
      var init := steps[..|steps| - 1];
      RunInPhase(s, init);
      StepInPhase(Run(s, init), Phases(s, init), steps[|steps| - 1]);
    }
  }

  /** No handler and no settlement is between its database statement and its change of the maps. */
  ghost predicate Quiet(s: State) {
    !s.settling.Taken? && forall j | j in s.jobs :: !s.jobs[j].stage.Persisted?
  }

  function FromRows(rows: map<Hash, InvoiceRow>): map<Hash, PendingInvoice> {
    map h | h in rows :: FromRow(h, rows[h])
  }

  /** After every single step the pending invoices are among the stored ones; between operations they are equal. */
  lemma PendingIsStored(s: State, steps: seq<Step>)
    requires Start(s) && ReliableRun(s, steps)
    ensures var r := Run(s, steps);
      && r.books.pending.Keys <= r.tables.invoices.Keys
      && (forall h | h in r.books.pending :: r.books.pending[h] == FromRow(h, r.tables.invoices[h]))
      && (Quiet(r) ==> r.books.pending == FromRows(r.tables.invoices))
  {
    RunInPhase(s, steps);
    var r, ph := Run(s, steps), Phases(s, steps);
    if Quiet(r) {
      forall h | h in r.tables.invoices
        ensures h in r.books.pending
      {
        assert PhaseOfJob(r, ph, h);
      }
    }
  }

  /** A crash between operations loses no pending invoice; one at any other time loses none that is stored. */
  lemma CrashRestoresPending(s: State, steps: seq<Step>, order: seq<Hash>)
    requires Start(s) && ReliableRun(s, steps)
    requires Lists(order, Run(s, steps).tables.invoices.Keys)
    ensures var r := Run(s, steps);
      && DoCrash(r, order, true).books.pending == FromRows(r.tables.invoices)
      && r.books.pending.Keys <= DoCrash(r, order, true).books.pending.Keys
      && (Quiet(r) ==> DoCrash(r, order, true).books.pending == r.books.pending)
  {
    PendingIsStored(s, steps);
    LoadedIsStored(Run(s, steps).tables.invoices, order);
  }

  // ---- the index by file ------------------------------------------------------------------

  /** No file is invoiced twice, no hash is for two files. */
  ghost predicate OneToOne(invoiced: Invoices) {
    forall p, q | p in invoiced && q in invoiced :: p.0 == q.0 <==> p.1 == q.1
  }

  /** Every pending invoice is found by its file, and the other way round. */
  ghost predicate Filed(b: Books) {
    && (forall h | h in b.pending :: b.pending[h].invoice.paymentHash == h && b.pending[h].fileID in b.byFileID)
    && (forall f | f in b.byFileID :: var p := b.byFileID[f];
      p.fileID == f && p.invoice.paymentHash in b.pending && b.pending[p.invoice.paymentHash] == p)
  }

  lemma BooksStay(s: State, a: Step)
    requires a.Register? ==> a.j !in s.jobs || !s.jobs[a.j].stage.Persisted?
    requires a.Take? ==> !s.settling.Idle? || a.hash !in s.books.pending
    requires !a.Crash?
    ensures Apply(s, a).books == s.books
  {
  }

  lemma CrashFiled(s: State, order: seq<Hash>, loads: bool)
    requires Filed(s.books)
    ensures Filed(DoCrash(s, order, loads).books)
  {
    if loads && Lists(order, s.tables.invoices.Keys) {
      LoadedIsStored(s.tables.invoices, order);
    }
  }

  lemma RegisterFiled(s: State, j: nat, invoiced: Invoices, payments: Invoices)
    requires Traced(s, invoiced, payments) && Filed(s.books)
    requires OneToOne(invoiced)
    requires j in s.jobs && s.jobs[j].stage.Persisted?
    ensures Filed(s.books.Register(s.jobs[j].stage.p))
  {
    var p := s.jobs[j].stage.p;
    assert StageTraced(s.jobs[j], invoiced);
    var b := s.books.Register(p);
    forall f | f in b.byFileID
      ensures var q := b.byFileID[f];
        q.fileID == f && q.invoice.paymentHash in b.pending && b.pending[q.invoice.paymentHash] == q
    {
      if f != p.fileID {
        var q := s.books.byFileID[f];
        var h := q.invoice.paymentHash;
        assert (h, s.books.pending[h].fileID) in invoiced && (p.invoice.paymentHash, p.fileID) in invoiced;
      }
    }
  }

  lemma TakeFiled(s: State, hash: Hash, invoiced: Invoices, payments: Invoices)
    requires Traced(s, invoiced, payments) && Filed(s.books)
    requires OneToOne(invoiced)
    requires hash in s.books.pending
    ensures Filed(s.books.Take(hash))
  {
    var f := s.books.pending[hash].fileID;
    forall h | h in s.books.pending && h != hash
      ensures s.books.pending[h].fileID != f
    {
      assert (h, s.books.pending[h].fileID) in invoiced && (hash, f) in invoiced;
    }
  }

  lemma StepFiled(s: State, a: Step, invoiced: Invoices, payments: Invoices)
    requires Traced(s, invoiced, payments) && Filed(s.books)
    requires OneToOne(invoiced)
    ensures Filed(Apply(s, a).books)
  {
    if a.Register? && a.j in s.jobs && s.jobs[a.j].stage.Persisted? {
      RegisterFiled(s, a.j, invoiced, payments);
    } else if a.Take? && s.settling.Idle? && a.hash in s.books.pending {
      TakeFiled(s, a.hash, invoiced, payments);
    } else if a.Crash? {
      CrashFiled(s, a.order, a.loads);
    } else {
      BooksStay(s, a);
    }
  }

  lemma {:induction false} RunFiled(s: State, steps: seq<Step>)
    requires Start(s) && OneToOne(InvoicedIn(s, steps))
    ensures Filed(Run(s, steps).books)
  {
    if steps != [] {
      var init := steps[..|steps| - 1];
      RunFiled(s, init);
      RunTraced(s, init);
      StepFiled(Run(s, init), steps[|steps| - 1], InvoicedIn(s, init), PaymentsIn(s, init));
    }
  }

  lemma SameBooks(a: Books, b: Books, invoiced: Invoices)
    requires Filed(a) && Filed(b) && a.pending == b.pending && OneToOne(invoiced)
    requires forall h | h in a.pending :: (h, a.pending[h].fileID) in invoiced
    ensures a == b
  {
  }

  /** With one invoice for each file, a crash between operations and the load after it change nothing in memory. */
  lemma CrashRestoresBooks(s: State, steps: seq<Step>, order: seq<Hash>)
    requires Start(s) && ReliableRun(s, steps) && OneToOne(InvoicedIn(s, steps))
    requires Quiet(Run(s, steps)) && Lists(order, Run(s, steps).tables.invoices.Keys)
    ensures DoCrash(Run(s, steps), order, true).books == Run(s, steps).books
  {
    var r := Run(s, steps);
    CrashRestoresPending(s, steps, order);
    RunFiled(s, steps);
    RunTraced(s, steps);
    CrashFiled(r, order, true);
    SameBooks(r.books, DoCrash(r, order, true).books, InvoicedIn(s, steps));
  }

  // ---- nothing is forgotten ---------------------------------------------------------------

  predicate AtDropped(s: State, h: Hash) {
    s.settling.Dropped? && s.settling.hash == h
  }

  predicate Stores(s: State, a: Step, h: Hash) {
    a.Persist? && a.ok && a.j in s.jobs && s.jobs[a.j].stage.Issued? && s.jobs[a.j].stage.p.invoice.paymentHash == h
  }

  /** The row of the invoice was written. */
  ghost predicate StoredIn(s: State, steps: seq<Step>, h: Hash) {
    steps != [] &&
    var init, a := steps[..|steps| - 1], steps[|steps| - 1];
    StoredIn(s, init, h) || Stores(Run(s, init), a, h)
  }

  /** The file of the invoice was marked as paid for it. */
  ghost predicate MarkedIn(s: State, steps: seq<Step>, h: Hash) {
    steps != [] &&
    var init, a := steps[..|steps| - 1], steps[|steps| - 1];
    MarkedIn(s, init, h) || (Marks(Run(s, init), a) && AtDropped(Run(s, init), h))
  }

  /** The statement that marks the file failed, or found no row. */
  ghost predicate UnmarkedIn(s: State, steps: seq<Step>, h: Hash) {
    steps != [] &&
    var init, a := steps[..|steps| - 1], steps[|steps| - 1];
    UnmarkedIn(s, init, h) || (a.Mark? && !Marks(Run(s, init), a) && AtDropped(Run(s, init), h))
  }

  /** A crash hit between deleting the stored invoice and marking the file. */
  ghost predicate CutIn(s: State, steps: seq<Step>, h: Hash) {
    steps != [] &&
    var init, a := steps[..|steps| - 1], steps[|steps| - 1];
    CutIn(s, init, h) || (Crashes(Run(s, init), a) && AtDropped(Run(s, init), h))
  }

  lemma StepForgets(s: State, a: Step, h: Hash)
    ensures h in s.tables.invoices ==> h in Apply(s, a).tables.invoices || AtDropped(Apply(s, a), h)
    ensures AtDropped(s, h) ==> AtDropped(Apply(s, a), h) || a.Mark? || Crashes(s, a)
  {
  }

  /**
   * From any state, over any run, whatever fails: a stored invoice stays stored until its settlement marks the
   * file, unless the mark fails or a crash hits between the two statements of the settlement.
   */
  lemma {:induction false} NothingForgotten(s: State, steps: seq<Step>, h: Hash)
    requires h in s.tables.invoices
    ensures h in Run(s, steps).tables.invoices || AtDropped(Run(s, steps), h)
      || MarkedIn(s, steps, h) || UnmarkedIn(s, steps, h) || CutIn(s, steps, h)
  {
    if steps != [] {
      NothingForgotten(s, steps[..|steps| - 1], h);
      StepForgets(Run(s, steps[..|steps| - 1]), steps[|steps| - 1], h);
    }
  }

  /** A map, a row or the watcher still knows the hash, so its payment is still to be recorded. */
  predicate Known(s: State, h: Hash) {
    || h in s.books.pending || h in s.tables.invoices
    || ((s.settling.Taken? || s.settling.Dropped?) && s.settling.hash == h)
  }

  predicate Is(ph: map<Hash, Phase>, h: Hash, p: Phase) {
    h in ph && ph[h] == p
  }

  lemma StepMarked(s: State, ph: map<Hash, Phase>, a: Step, h: Hash)
    requires InPhase(s, ph) && Reliable(ph, s, a)
    ensures Is(Advance(ph, s, a), h, Handled) <==> Is(ph, h, Handled) || (Marks(s, a) && AtDropped(s, h))
  {
    if (a.Persist? || a.Register?) && a.j in s.jobs {
      assert JobInPhase(s, ph, a.j);
    }
  }

  lemma StepUnmarked(s: State, ph: map<Hash, Phase>, a: Step, h: Hash)
    requires InPhase(s, ph) && Reliable(ph, s, a)
    ensures Is(Advance(ph, s, a), h, Unmarked)
       <==> Is(ph, h, Unmarked) || (a.Mark? && !Marks(s, a) && AtDropped(s, h))
  {
    if (a.Persist? || a.Register?) && a.j in s.jobs {
      assert JobInPhase(s, ph, a.j);
    }
  }

  lemma StepLost(s: State, ph: map<Hash, Phase>, a: Step, h: Hash)
    requires InPhase(s, ph) && Reliable(ph, s, a)
    ensures Is(Advance(ph, s, a), h, Lost) <==> Is(ph, h, Lost) || (Crashes(s, a) && AtDropped(s, h))
  {
    if (a.Persist? || a.Register?) && a.j in s.jobs {
      assert JobInPhase(s, ph, a.j);
    }
  }

  predicate WasStored(ph: map<Hash, Phase>, h: Hash) {
    h in ph && !ph[h].Unsaved? && !ph[h].Orphaned?
  }

  lemma StepStored(s: State, ph: map<Hash, Phase>, a: Step, h: Hash)
    requires InPhase(s, ph) && Reliable(ph, s, a)
    ensures WasStored(Advance(ph, s, a), h) <==> WasStored(ph, h) || Stores(s, a, h)
  {
    if (a.Persist? || a.Register?) && a.j in s.jobs {
      assert JobInPhase(s, ph, a.j);
    }
  }

  /** What the phases record of a run. */
  lemma {:induction false} PhaseMeans(s: State, steps: seq<Step>, h: Hash)
    requires Start(s) && ReliableRun(s, steps)
    ensures Is(Phases(s, steps), h, Handled) <==> MarkedIn(s, steps, h)
    ensures Is(Phases(s, steps), h, Unmarked) <==> UnmarkedIn(s, steps, h)
    ensures Is(Phases(s, steps), h, Lost) <==> CutIn(s, steps, h)
    ensures WasStored(Phases(s, steps), h) <==> StoredIn(s, steps, h)
  {
    if steps != [] {
      var init, a := steps[..|steps| - 1], steps[|steps| - 1];
      PhaseMeans(s, init, h);
      RunInPhase(s, init);
      StepMarked(Run(s, init), Phases(s, init), a, h);
      StepUnmarked(Run(s, init), Phases(s, init), a, h);
      StepLost(Run(s, init), Phases(s, init), a, h);
      StepStored(Run(s, init), Phases(s, init), a, h);
    }
  }

  /**
   * Over every reliable run: a stored invoice is forgotten, with its file not marked for it, exactly if a crash
   * hit between the two statements of its settlement, or the second of them failed or found no row.
   */
  lemma ForgottenIffCutOrUnmarked(s: State, steps: seq<Step>, h: Hash)
    requires Start(s) && ReliableRun(s, steps) && StoredIn(s, steps, h)
    ensures !Known(Run(s, steps), h) && !MarkedIn(s, steps, h) <==> CutIn(s, steps, h) || UnmarkedIn(s, steps, h)
  {
    PhaseMeans(s, steps, h);
    RunInPhase(s, steps);
    assert PhaseOfJob(Run(s, steps), Phases(s, steps), h);
  }

  lemma {:induction false} StillLost(s: State, steps: seq<Step>, more: seq<Step>, h: Hash)
    ensures StoredIn(s, steps, h) ==> StoredIn(s, steps + more, h)
    ensures CutIn(s, steps, h) ==> CutIn(s, steps + more, h)
    ensures UnmarkedIn(s, steps, h) ==> UnmarkedIn(s, steps + more, h)
  {
    if more == [] {
      assert steps + more == steps;
    } else {
      StillLost(s, steps, more[..|more| - 1], h);
      assert (steps + more)[..|steps + more| - 1] == steps + more[..|more| - 1];
    }
  }

  /** Then it is forgotten for good: in every continuation nothing knows it, and its settlement changes nothing. */
  lemma ForgottenForGood(s: State, steps: seq<Step>, more: seq<Step>, h: Hash)
    requires Start(s) && ReliableRun(s, steps + more) && StoredIn(s, steps, h)
    requires CutIn(s, steps, h) || UnmarkedIn(s, steps, h)
    ensures var r := Run(s, steps + more);
      !Known(r, h) && !MarkedIn(s, steps + more, h) && Apply(r, Take(h)) == r
  {
    StillLost(s, steps, more, h);
    ForgottenIffCutOrUnmarked(s, steps + more, h);
  }

  lemma BetweenIsForgotten(r: State, ph: map<Hash, Phase>, order: seq<Hash>)
    requires InPhase(r, ph) && r.settling.Dropped? && Lists(order, r.tables.invoices.Keys)
    ensures r.settling.hash !in DoCrash(r, order, true).tables.invoices
    ensures r.settling.hash !in DoCrash(r, order, true).books.pending
  {
    LoadedIsStored(r.tables.invoices, order);
  }

  /** The crash loses the payment: no map and no row knows the hash, the file is left as it was. */
  lemma CrashBetweenForgets(s: State, steps: seq<Step>, order: seq<Hash>)
    requires Start(s) && ReliableRun(s, steps) && Run(s, steps).settling.Dropped?
    requires Lists(order, Run(s, steps).tables.invoices.Keys)
    ensures var r := Run(s, steps);
      var t := DoCrash(r, order, true);
      && r.settling.hash !in t.tables.invoices && t.tables == r.tables
      && Apply(t, Take(r.settling.hash)) == t
  {
    RunInPhase(s, steps);
    BetweenIsForgotten(Run(s, steps), Phases(s, steps), order);
  }

  /** Reported again, before or after any number of restarts, a settlement that was marked or not changes nothing. */
  lemma SettledAcrossRestarts(s: State, steps: seq<Step>, h: Hash)
    requires Start(s) && ReliableRun(s, steps) && (MarkedIn(s, steps, h) || UnmarkedIn(s, steps, h))
    ensures Apply(Run(s, steps), Take(h)) == Run(s, steps)
  {
    RunInPhase(s, steps);
    PhaseMeans(s, steps, h);
  }

  // ---- both losses happen -----------------------------------------------------------------

  lemma ReliableSnoc(s: State, steps: seq<Step>, a: Step)
    requires ReliableRun(s, steps) && Reliable(Phases(s, steps), Run(s, steps), a)
    ensures ReliableRun(s, steps + [a])
    ensures Phases(s, steps + [a]) == Advance(Phases(s, steps), Run(s, steps), a)
  {
    assert (steps + [a])[..|steps|] == steps;
  }

  lemma InvoicingIsReliable(s: State, u: Client)
    ensures ReliableRun(s, Invoicing(u))
  {
    var s0: seq<Step> := [];
    var s1 := s0 + [Put(u.id, u.size)];
    var s2 := s1 + [Begin(0, u.ip, u.id)];
    ReliableSnoc(s, s0, Put(u.id, u.size));
    ReliableSnoc(s, s1, Begin(0, u.ip, u.id));
    ReliableSnoc(s, s2, Save(0, true));
    ReliableSnoc(s, s2 + [Save(0, true)], Issue(0, Some(u.answer)));
  }

  lemma UploadStores(s: State, u: Client)
    requires Start(s) && |u.id.text| >= 8
    ensures ReliableRun(s, Upload(u)) && StoredIn(s, Upload(u), u.Hash())
  {
    InvoicingIsReliable(s, u);
    InvoicingGives(s, u);
    var s5 := Invoicing(u) + [Persist(0, true)];
    assert s5[..|Invoicing(u)|] == Invoicing(u);
    assert Stores(Run(s, Invoicing(u)), Persist(0, true), u.Hash());
    ReliableSnoc(s, Invoicing(u), Persist(0, true));
    ReliableSnoc(s, s5, Register(0));
    ReliableSnoc(s, s5 + [Register(0)], Track(0));
    StillLost(s, s5, [Register(0)], u.Hash());
    StillLost(s, s5 + [Register(0)], [Track(0)], u.Hash());
  }

  lemma SettlementIsReliable(s: State, u: Client)
    requires Start(s) && |u.id.text| >= 8
    ensures var steps := Upload(u) + Settlement(u);
      && ReliableRun(s, steps) && StoredIn(s, steps, u.Hash())
      && Run(s, steps).settling == Dropped(u.Hash(), u.id) && Run(s, steps).tables.invoices == map[]
      && u.id in Run(s, steps).tables.files && !Run(s, steps).tables.files[u.id].paid
  {
    UploadStores(s, u);
    AfterUpload(s, u);
    SettlementGives(s, Upload(u), u);
    var taken := Upload(u) + [Take(u.Hash())];
    assert Upload(u) + Settlement(u) == taken + [Drop(true)];
    ReliableSnoc(s, Upload(u), Take(u.Hash()));
    ReliableSnoc(s, taken, Drop(true));
    StillLost(s, Upload(u), Settlement(u), u.Hash());
  }

  /** An upload is paid, and the process crashes before its file is marked: the payment is forgotten. */
  lemma CrashLosesPayment(s: State, u: Client)
    requires Start(s) && |u.id.text| >= 8
    ensures var steps := Upload(u) + Settlement(u) + [Crash([], true)];
      && ReliableRun(s, steps) && StoredIn(s, steps, u.Hash())
      && CutIn(s, steps, u.Hash()) && !Known(Run(s, steps), u.Hash()) && !MarkedIn(s, steps, u.Hash())
      && u.id in Run(s, steps).tables.files && !Run(s, steps).tables.files[u.id].paid
  {
    SettlementIsReliable(s, u);
    var before := Upload(u) + Settlement(u);
    ReliableSnoc(s, before, Crash([], true));
    assert (before + [Crash([], true)])[..|before|] == before;
    StillLost(s, before, [Crash([], true)], u.Hash());
    ForgottenIffCutOrUnmarked(s, before + [Crash([], true)], u.Hash());
  }

  /** An upload is paid, and the statement that marks its file fails: the payment is forgotten. */
  lemma FailedMarkLosesPayment(s: State, u: Client)
    requires Start(s) && |u.id.text| >= 8
    ensures var steps := Upload(u) + Settlement(u) + [Mark(false)];
      && ReliableRun(s, steps) && StoredIn(s, steps, u.Hash())
      && UnmarkedIn(s, steps, u.Hash()) && !Known(Run(s, steps), u.Hash()) && !MarkedIn(s, steps, u.Hash())
      && u.id in Run(s, steps).tables.files && !Run(s, steps).tables.files[u.id].paid
  {
    SettlementIsReliable(s, u);
    var before := Upload(u) + Settlement(u);
    ReliableSnoc(s, before, Mark(false));
    assert (before + [Mark(false)])[..|before|] == before;
    StillLost(s, before, [Mark(false)], u.Hash());
    ForgottenIffCutOrUnmarked(s, before + [Mark(false)], u.Hash());
  }
}
