/** Which payments are lost, whatever statements fail. */
module Losses {

  import opened Common
  import opened Results
  import opened Store
  import opened Payments
  import opened Files
  import opened Machine
  import opened Server
  import opened Scenario
  import opened Recovery
  import opened Repeats

  /** No map, no row, no watcher and no handler knows the hash: a report of its payment will change nothing. */
  ghost predicate Forgotten(s: State, h: Hash) {
    !Known(s, h) && Unheld(s, h)
  }

  /** A crash, or a mark that fails or finds no file, while the invoice has no row to be read again. */
  ghost predicate Loses(s: State, a: Step, h: Hash) {
    h !in s.tables.invoices && (Crashes(s, a) || (a.Mark? && !Marks(s, a) && AtDropped(s, h)))
  }

  /** That happened after the invoice was issued and before its file was marked for it. */
  ghost predicate LostIn(s: State, steps: seq<Step>, h: Hash) {
    steps != [] &&
    var init, a := steps[..|steps| - 1], steps[|steps| - 1];
    || LostIn(s, init, h)
    || (h in IssuedIn(s, init) && !MarkedIn(s, init, h) && Loses(Run(s, init), a, h))
  }

  // ---- every step agrees ------------------------------------------------------------------

  lemma CrashForgets(s: State, a: Step, h: Hash)
    requires Crashes(s, a)
    ensures Forgotten(Apply(s, a), h) <==> h !in s.tables.invoices
  {
    if a.loads {
      LoadedIsStored(s.tables.invoices, a.order);
    }
  }

  lemma StaysForgotten(s: State, a: Step, issued: set<Hash>, h: Hash)
    requires Apart(s, issued) && NewHash(s, a) !! issued && h in issued && Forgotten(s, h) && !Crashes(s, a)
    ensures Forgotten(Apply(s, a), h) && !AtDropped(s, h)
  {
  }

  /** A settlement ends with the mark, unless its row is still there. */
  lemma MarkForgets(s: State, ok: bool, issued: set<Hash>, h: Hash)
    requires Apart(s, issued) && AtDropped(s, h)
    ensures Forgotten(DoMark(s, ok), h) <==> h !in s.tables.invoices
  {
    assert forall j | j in s.jobs && Holds(s.jobs[j], h) :: JobApart(s, issued, j, h);
  }

  lemma HeldStaysKnown(s: State, a: Step, h: Hash, j: nat)
    requires j in s.jobs && Holds(s.jobs[j], h) && !a.Crash?
    ensures !Forgotten(Apply(s, a), h)
  {
    var t := Apply(s, a);
    assert h in t.books.pending || (j in t.jobs && Holds(t.jobs[j], h));
  }

  /** Handlers and settlements hand a hash on from one to the next. */
  lemma StaysKnown(s: State, a: Step, h: Hash)
    requires !Forgotten(s, h) && !Crashes(s, a) && !(a.Mark? && AtDropped(s, h))
    ensures !Forgotten(Apply(s, a), h)
  {
    if !Unheld(s, h) {
      var j :| j in s.jobs && Holds(s.jobs[j], h);
      if a.Crash? {
        assert Apply(s, a) == s;
      } else {
        HeldStaysKnown(s, a, h, j);
      }
    } else {
      assert Known(Apply(s, a), h);
    }
  }

  lemma NewIsHeld(s: State, a: Step, h: Hash)
    requires h in NewHash(s, a)
    ensures !Forgotten(Apply(s, a), h)
  {
    assert Holds(Apply(s, a).jobs[a.j], h);
  }

  lemma StepLoses(s: State, a: Step, issued: set<Hash>, h: Hash, marked: bool)
    requires Apart(s, issued) && NewHash(s, a) !! issued && h in issued
    ensures Forgotten(Apply(s, a), h) && !marked && !(Marks(s, a) && AtDropped(s, h))
       <==> !marked && (Forgotten(s, h) || Loses(s, a, h))
  {
    if Crashes(s, a) {
      CrashForgets(s, a, h);
    } else if a.Mark? && AtDropped(s, h) {
      MarkForgets(s, a.ok, issued, h);
    } else if Forgotten(s, h) {
      StaysForgotten(s, a, issued, h);
    } else {
      StaysKnown(s, a, h);
    }
  }

  /**
   * Over every run with fresh hashes, whatever statements fail: an issued invoice is forgotten, with its file not
   * marked for it, exactly if it had no row when a crash hit, or when its mark failed or found no file.
   */
  lemma {:induction false} ForgottenIffLost(s: State, steps: seq<Step>, h: Hash)
    requires Start(s) && FreshRun(s, steps)
    ensures h in IssuedIn(s, steps) && Forgotten(Run(s, steps), h) && !MarkedIn(s, steps, h) <==> LostIn(s, steps, h)
  {
    if steps != [] {
      var init, a := steps[..|steps| - 1], steps[|steps| - 1];
      ForgottenIffLost(s, init, h);
      if h in IssuedIn(s, init) {
        RunApart(s, init);
        StepLoses(Run(s, init), a, IssuedIn(s, init), h, MarkedIn(s, init, h));
      } else if h in NewHash(Run(s, init), a) {
        NewIsHeld(Run(s, init), a, h);
      }
    }
  }

  lemma {:induction false} StaysLost(s: State, steps: seq<Step>, more: seq<Step>, h: Hash)
    requires LostIn(s, steps, h)
    ensures LostIn(s, steps + more, h)
  {
    if more == [] {
      assert steps + more == steps;
    } else {
      StaysLost(s, steps, more[..|more| - 1], h);
      assert (steps + more)[..|steps + more| - 1] == steps + more[..|more| - 1];
    }
  }

  /** It is then lost for good: in every continuation nothing knows it, and reporting it changes nothing. */
  lemma LostForGood(s: State, steps: seq<Step>, more: seq<Step>, h: Hash)
    requires Start(s) && FreshRun(s, steps + more) && LostIn(s, steps, h)
    ensures LostIn(s, steps + more, h) && !MarkedIn(s, steps + more, h)
    ensures Forgotten(Run(s, steps + more), h)
    ensures Apply(Run(s, steps + more), Take(h)) == Run(s, steps + more)
  {
    StaysLost(s, steps, more, h);
    ForgottenIffLost(s, steps + more, h);
  }

  // ---- a loss without any crash between two statements ------------------------------------

  lemma UnwrittenGives(s: State, u: Client)
    requires Start(s) && |u.id.text| >= 8
    ensures var r := Run(s, Uploading(u, false));
      && r.settling == Idle && r.tables == Tables(map[u.id := Fresh(u.size, s.now)], map[])
      && r.books == NO_BOOKS.Register(u.Invoiced())
  {
    UploadIsCompleted(s, u, false);
    CompletedIs(Apply(s, Put(u.id, u.size)), u.ip, u.id, true, Some(u.answer), false);
  }

  /** One step more of a run that issues each hash once and marks nothing. */
  lemma UnmarkedSnoc(s: State, steps: seq<Step>, a: Step, h: Hash)
    requires FreshRun(s, steps) && NewHash(Run(s, steps), a) !! IssuedIn(s, steps)
    requires !MarkedIn(s, steps, h) && !a.Mark?
    ensures FreshRun(s, steps + [a]) && !MarkedIn(s, steps + [a], h)
    ensures IssuedIn(s, steps + [a]) == IssuedIn(s, steps) + NewHash(Run(s, steps), a)
  {
    assert (steps + [a])[..|steps|] == steps;
  }

  lemma IssuesNext(s: State, u: Client)
    requires Start(s) && |u.id.text| >= 8
    ensures NewHash(Run(s, [] + [Put(u.id, u.size)] + [Begin(0, u.ip, u.id)] + [Save(0, true)]),
                    Issue(0, Some(u.answer))) == {u.Hash()}
  {
    var s0: seq<Step> := [];
    var s1 := s0 + [Put(u.id, u.size)];
    RunSnoc(s, s0, Put(u.id, u.size));
    RunSnoc(s, s1, Begin(0, u.ip, u.id));
    RunSnoc(s, s1 + [Begin(0, u.ip, u.id)], Save(0, true));
  }

  lemma UnwrittenIsUnmarked(s: State, u: Client)
    requires Start(s) && |u.id.text| >= 8
    ensures FreshRun(s, Uploading(u, false)) && !MarkedIn(s, Uploading(u, false), u.Hash())
    ensures u.Hash() in IssuedIn(s, Uploading(u, false))
  {
    var h := u.Hash();
    var s0: seq<Step> := [];
    var s1 := s0 + [Put(u.id, u.size)];
    var s2 := s1 + [Begin(0, u.ip, u.id)];
    var s3 := s2 + [Save(0, true)];
    var s5 := Invoicing(u) + [Persist(0, false)];
    UnmarkedSnoc(s, s0, Put(u.id, u.size), h);
    UnmarkedSnoc(s, s1, Begin(0, u.ip, u.id), h);
    UnmarkedSnoc(s, s2, Save(0, true), h);
    IssuesNext(s, u);
    UnmarkedSnoc(s, s3, Issue(0, Some(u.answer)), h);
    UnmarkedSnoc(s, Invoicing(u), Persist(0, false), h);
    UnmarkedSnoc(s, s5, Register(0), h);
    UnmarkedSnoc(s, s5 + [Register(0)], Track(0), h);
  }

  /** A crash before such an invoice is paid: nothing but that statement failed, and the payment will be lost. */
  lemma UnwrittenRowLosesPayment(s: State, u: Client)
    requires Start(s) && |u.id.text| >= 8
    ensures var steps := Uploading(u, false) + [Crash([], true)];
      var r := Run(s, steps);
      && u.Hash() in Run(s, Uploading(u, false)).books.pending && FreshRun(s, steps) && LostIn(s, steps, u.Hash())
      && Apply(r, Take(u.Hash())) == r && u.id in r.tables.files && !r.tables.files[u.id].paid
  {
    UnwrittenGives(s, u);
    UnwrittenIsUnmarked(s, u);
    var steps := Uploading(u, false) + [Crash([], true)];
    UnmarkedSnoc(s, Uploading(u, false), Crash([], true), u.Hash());
    assert steps[..|steps| - 1] == Uploading(u, false);
    assert LostIn(s, steps, u.Hash());
    assert steps + [] == steps;
    LostForGood(s, steps, [], u.Hash());
    RunSnoc(s, Uploading(u, false), Crash([], true));
  }
}
