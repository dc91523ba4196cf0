/** A settlement reported again: what a restart changes about it. */
module Repeats {

  import opened Common
  import opened Files
  import opened Store
  import opened Payments
  import opened Machine
  import opened Recovery
  import opened Scenario
  import opened Server

  function NewHash(s: State, a: Step): set<Hash> {
    if a.Issue? && Issues(s, a.j, a.answer) then {a.answer.value.paymentHash} else {}
  }

  /** The hashes the Lightning client gave out. */
  ghost function IssuedIn(s: State, steps: seq<Step>): set<Hash> {
    if steps == [] then {}
    else IssuedIn(s, steps[..|steps| - 1]) + NewHash(Run(s, steps[..|steps| - 1]), steps[|steps| - 1])
  }

  /** No hash is given out twice; statements may fail, and a restart may find no rows. */
  ghost predicate FreshRun(s: State, steps: seq<Step>) {
    steps == [] ||
    var init, a := steps[..|steps| - 1], steps[|steps| - 1];
    FreshRun(s, init) && NewHash(Run(s, init), a) !! IssuedIn(s, init)
  }

  // ---- who holds a hash -------------------------------------------------------------------

  /** An upload handler has the invoice in hand and has not registered it. */
  predicate Holds(job: Job, h: Hash) {
    (job.stage.Issued? || job.stage.Persisted?) && job.stage.p.invoice.paymentHash == h
  }

  ghost predicate Unheld(s: State, h: Hash) {
    forall j | j in s.jobs :: !Holds(s.jobs[j], h)
  }

  predicate BeingSettled(s: State, h: Hash) {
    (s.settling.Taken? || s.settling.Dropped?) && s.settling.hash == h
  }

  /** A hash that a handler holds is held by no other, is not pending and is not being settled. */
  ghost predicate JobApart(s: State, issued: set<Hash>, j: nat, h: Hash)
    requires j in s.jobs
  {
    && h in issued && h !in s.books.pending && !BeingSettled(s, h)
    && forall i | i in s.jobs && i != j :: !Holds(s.jobs[i], h)
  }

  ghost predicate Apart(s: State, issued: set<Hash>) {
    && s.books.pending.Keys <= issued && s.tables.invoices.Keys <= issued
    && (s.settling.Taken? || s.settling.Dropped? ==> s.settling.hash in issued - s.books.pending.Keys)
    && (forall j, h | j in s.jobs && Holds(s.jobs[j], h) :: JobApart(s, issued, j, h))
  }

  lemma JobsApart(s: State, a: Step, issued: set<Hash>)
    requires Apart(s, issued) && (a.Begin? || a.Save? || a.Track?)
    ensures Apart(Apply(s, a), issued)
  {
    var t := Apply(s, a);
    forall j, h | j in t.jobs && Holds(t.jobs[j], h)
      ensures JobApart(t, issued, j, h)
    {
      assert JobApart(s, issued, j, h);
    }
  }

  /** The handler stores or registers the invoice it holds. */
  lemma HolderApart(s: State, a: Step, issued: set<Hash>)
    requires Apart(s, issued) && (a.Persist? || a.Register?)
    ensures Apart(Apply(s, a), issued)
  {
    var t := Apply(s, a);
    if t != s {
      var h := s.jobs[a.j].stage.p.invoice.paymentHash;
      assert Holds(s.jobs[a.j], h) && JobApart(s, issued, a.j, h);
    }
    forall j, h | j in t.jobs && Holds(t.jobs[j], h)
      ensures JobApart(t, issued, j, h)
    {
      assert JobApart(s, issued, j, h);
    }
  }

  lemma IssueApart(s: State, a: Step, issued: set<Hash>)
    requires Apart(s, issued) && NewHash(s, a) !! issued && a.Issue?
    ensures Apart(Apply(s, a), issued + NewHash(s, a))
  {
    var t := Apply(s, a);
    forall j, h | j in t.jobs && Holds(t.jobs[j], h)
      ensures JobApart(t, issued + NewHash(s, a), j, h)
    {
      assert Holds(s.jobs[j], h) ==> JobApart(s, issued, j, h);
    }
  }

  lemma SettleApart(s: State, a: Step, issued: set<Hash>)
    requires Apart(s, issued) && (a.Take? || a.Drop? || a.Mark? || a.Notify?)
    ensures Apart(Apply(s, a), issued)
  {
    var t := Apply(s, a);
    forall j, h | j in t.jobs && Holds(t.jobs[j], h)
      ensures JobApart(t, issued, j, h)
    {
      assert JobApart(s, issued, j, h);
    }
  }

  lemma CrashApart(s: State, a: Step, issued: set<Hash>)
    requires Apart(s, issued) && a.Crash?
    ensures Apart(Apply(s, a), issued)
  {
    if a.loads && Lists(a.order, s.tables.invoices.Keys) {
      LoadedIsStored(s.tables.invoices, a.order);
    }
  }

  lemma StepApart(s: State, a: Step, issued: set<Hash>)
    requires Apart(s, issued) && NewHash(s, a) !! issued
    ensures Apart(Apply(s, a), issued + NewHash(s, a))
  {
    if a.Issue? {
      IssueApart(s, a, issued);
    } else {
      assert issued + NewHash(s, a) == issued;
      if a.Begin? || a.Save? || a.Track? {
        JobsApart(s, a, issued);
      } else if a.Persist? || a.Register? {
        HolderApart(s, a, issued);
      } else if a.Take? || a.Drop? || a.Mark? || a.Notify? {
        SettleApart(s, a, issued);
      } else if a.Crash? {
        CrashApart(s, a, issued);
      }
    }
  }

  lemma {:induction false} RunApart(s: State, steps: seq<Step>)
    requires Start(s) && FreshRun(s, steps)
    ensures Apart(Run(s, steps), IssuedIn(s, steps))
  {
    if steps != [] {
      RunApart(s, steps[..|steps| - 1]);
      StepApart(Run(s, steps[..|steps| - 1]), steps[|steps| - 1], IssuedIn(s, steps[..|steps| - 1]));
    }
  }

  // ---- between restarts -------------------------------------------------------------------

  predicate Takes(s: State, a: Step, h: Hash) {
    a.Take? && a.hash == h && s.settling.Idle? && h in s.books.pending
  }

  /** The settlement was taken up, and there was no restart since. */
  ghost predicate TakenSince(s: State, steps: seq<Step>, h: Hash) {
    steps != [] &&
    var init, a := steps[..|steps| - 1], steps[|steps| - 1];
    !Crashes(Run(s, init), a) && (TakenSince(s, init, h) || Takes(Run(s, init), a, h))
  }

  /** The hash is out of the map, and no handler can put it back. */
  ghost predicate Out(s: State, issued: set<Hash>, h: Hash) {
    h in issued && h !in s.books.pending && Unheld(s, h)
  }

  lemma StepOut(s: State, a: Step, issued: set<Hash>, h: Hash)
    requires Apart(s, issued) && NewHash(s, a) !! issued && !Crashes(s, a)
    requires Out(s, issued, h) || Takes(s, a, h)
    ensures Out(Apply(s, a), issued + NewHash(s, a), h)
  {
  }

  lemma {:induction false} RunOut(s: State, steps: seq<Step>, h: Hash)
    requires Start(s) && FreshRun(s, steps) && TakenSince(s, steps, h)
    ensures Out(Run(s, steps), IssuedIn(s, steps), h)
  {
    var init, a := steps[..|steps| - 1], steps[|steps| - 1];
    RunApart(s, init);
    if TakenSince(s, init, h) {
      RunOut(s, init, h);
    }
    StepOut(Run(s, init), a, IssuedIn(s, init), h);
  }

  /**
   * Whatever statements fail, before and after: until the next restart a settlement that was taken up changes
   * nothing when it is reported again, no row and no expiry.
   */
  lemma SettledOnce(s: State, steps: seq<Step>, h: Hash)
    requires Start(s) && FreshRun(s, steps) && TakenSince(s, steps, h)
    ensures Apply(Run(s, steps), Take(h)) == Run(s, steps)
  {
    RunOut(s, steps, h);
  }

  // ---- across a restart -------------------------------------------------------------------

  predicate Drops(s: State, a: Step, h: Hash) {
    a.Drop? && a.ok && s.settling.Taken? && s.settling.hash == h
  }

  /** The row of the invoice was deleted by its settlement. */
  ghost predicate DroppedIn(s: State, steps: seq<Step>, h: Hash) {
    steps != [] &&
    var init, a := steps[..|steps| - 1], steps[|steps| - 1];
    DroppedIn(s, init, h) || Drops(Run(s, init), a, h)
  }

  /** The row is there exactly if it was stored and no settlement deleted it; nobody stores it again. */
  ghost predicate RowIs(s: State, issued: set<Hash>, h: Hash, stored: bool, dropped: bool) {
    && (h in s.tables.invoices <==> stored && !dropped)
    && (stored || dropped ==>
      h in issued && forall j | j in s.jobs && Holds(s.jobs[j], h) :: s.jobs[j].stage.Persisted?)
    && (dropped ==> Unheld(s, h))
  }

  /** Before it is stored, the hash is new to the handler that holds it. */
  lemma StoresNew(s: State, a: Step, issued: set<Hash>, h: Hash, stored: bool, dropped: bool)
    requires Apart(s, issued) && RowIs(s, issued, h, stored, dropped) && Stores(s, a, h)
    ensures !stored && !dropped && h in issued && !BeingSettled(s, h)
    ensures forall j | j in s.jobs && j != a.j :: !Holds(s.jobs[j], h)
  {
    assert Holds(s.jobs[a.j], h) && JobApart(s, issued, a.j, h);
  }

  lemma StepRow(s: State, a: Step, issued: set<Hash>, h: Hash, stored: bool, dropped: bool)
    requires Apart(s, issued) && RowIs(s, issued, h, stored, dropped)
    ensures h in Apply(s, a).tables.invoices <==> (stored || Stores(s, a, h)) && !(dropped || Drops(s, a, h))
  {
    if Stores(s, a, h) {
      StoresNew(s, a, issued, h, stored, dropped);
    }
  }

  lemma StepHeld(s: State, a: Step, issued: set<Hash>, h: Hash, stored: bool, dropped: bool)
    requires Apart(s, issued) && NewHash(s, a) !! issued && RowIs(s, issued, h, stored, dropped)
    ensures var t, more := Apply(s, a), issued + NewHash(s, a);
      && (stored || dropped || Stores(s, a, h) || Drops(s, a, h) ==>
        h in more && forall j | j in t.jobs && Holds(t.jobs[j], h) :: t.jobs[j].stage.Persisted?)
      && (dropped || Drops(s, a, h) ==> Unheld(t, h))
  {
    if Stores(s, a, h) {
      StoresNew(s, a, issued, h, stored, dropped);
    } else if Drops(s, a, h) {
      assert forall j | j in s.jobs && Holds(s.jobs[j], h) :: JobApart(s, issued, j, h);
      assert Apply(s, a).jobs == s.jobs;
    }
  }

  lemma {:induction false} RunRow(s: State, steps: seq<Step>, h: Hash)
    requires Start(s) && FreshRun(s, steps)
    ensures RowIs(Run(s, steps), IssuedIn(s, steps), h, StoredIn(s, steps, h), DroppedIn(s, steps, h))
  {
    if steps != [] {
      var init := steps[..|steps| - 1];
      RunRow(s, init, h);
      RunApart(s, init);
      StepRow(Run(s, init), steps[|steps| - 1], IssuedIn(s, init), h, StoredIn(s, init, h), DroppedIn(s, init, h));
      StepHeld(Run(s, init), steps[|steps| - 1], IssuedIn(s, init), h, StoredIn(s, init, h), DroppedIn(s, init, h));
    }
  }

  /**
   * After a restart that reads the rows, the report of a hash, repeated or not, takes effect exactly if its row
   * had been stored and no settlement had deleted it.
   */
  lemma RestartRepeats(s: State, steps: seq<Step>, h: Hash, order: seq<Hash>)
    requires Start(s) && FreshRun(s, steps) && Lists(order, Run(s, steps).tables.invoices.Keys)
    ensures var t := DoCrash(Run(s, steps), order, true);
      Apply(t, Take(h)) != t <==> StoredIn(s, steps, h) && !DroppedIn(s, steps, h)
  {
    RunRow(s, steps, h);
    LoadedIsStored(Run(s, steps).tables.invoices, order);
  }

  /** A settlement that could not delete its row, then a restart a second later. */
  function FailedDrop(u: Client): seq<Step> {
    Upload(u) + [Take(u.Hash())] + [Drop(false)] + [Mark(true)] + [Notify] + [Crash([u.Hash()], true)] + [Tick(SECOND)]
  }

  lemma UndroppedGives(s: State, u: Client)
    requires Start(s) && |u.id.text| >= 8
    ensures Run(s, Upload(u) + [Take(u.Hash())] + [Drop(false)] + [Mark(true)] + [Notify])
         == Paid(Run(s, Upload(u)), u.Hash(), false, true)
  {
    var s1 := Upload(u) + [Take(u.Hash())];
    var s2 := s1 + [Drop(false)];
    var s3 := s2 + [Mark(true)];
    RunSnoc(s, Upload(u), Take(u.Hash()));
    RunSnoc(s, s1, Drop(false));
    RunSnoc(s, s2, Mark(true));
    RunSnoc(s, s3, Notify);
  }

  lemma PaidUndropped(s: State, u: Client)
    requires Start(s) && |u.id.text| >= 8
    ensures var r := Paid(Run(s, Upload(u)), u.Hash(), false, true);
      && r.now == s.now && r.tables.invoices == map[u.Hash() := u.Invoiced().Row(s.now)]
      && r.tables.files
         == map[u.id := Fresh(u.size, s.now).(paid := true, expiresAt := PaidExpiry(s.now, HOST_DURATION))]
  {
    AfterUpload(s, u);
  }

  /** What the settlement leaves: a paid row, whose invoice is still stored. */
  lemma FailedDropGives(s: State, u: Client)
    requires Start(s) && |u.id.text| >= 8
    ensures var r := Run(s, FailedDrop(u));
      && r.now == s.now + SECOND && r.settling == Idle && u.id in r.tables.files
      && r.tables.files[u.id] == Fresh(u.size, s.now).(paid := true, expiresAt := PaidExpiry(s.now, HOST_DURATION))
      && u.Hash() in r.books.pending && r.books.pending[u.Hash()].fileID == u.id
  {
    UndroppedGives(s, u);
    PaidUndropped(s, u);
    var done := Upload(u) + [Take(u.Hash())] + [Drop(false)] + [Mark(true)] + [Notify];
    RunSnoc(s, done, Crash([u.Hash()], true));
    RunSnoc(s, done + [Crash([u.Hash()], true)], Tick(SECOND));
    LoadedIsStored(Run(s, done).tables.invoices, [u.Hash()]);
  }

  /** The same settlement reported again after that restart: the file is marked again and expires later. */
  lemma DuplicateMovesExpiry(s: State, u: Client)
    requires Start(s) && |u.id.text| >= 8
    ensures var r := Run(s, FailedDrop(u));
      var t := Paid(r, u.Hash(), true, true);
      && u.id in r.tables.files && r.tables.files[u.id].paid
      && u.id in t.tables.files && r.tables.files[u.id].expiresAt + SECOND == t.tables.files[u.id].expiresAt
  {
    FailedDropGives(s, u);
  }
}
