/** A paid file leaves the limiter, unless the limiter was told too early or the file stands at two addresses. */
module Lingering {

  import opened Common
  import opened Results
  import opened Limiter
  import LimiterLaws
  import opened Store
  import opened Payments
  import opened Files
  import opened Machine
  import opened Server
  import opened Scenario
  import opened Agreement

  ghost predicate CountedSomewhere(x: Index, id: FileId) {
    exists ip :: x.Counted(ip, id)
  }

  /** The limiter was told that the file is paid, and its handler is done. */
  ghost predicate Concluded(s: State, steps: seq<Step>, id: FileId) {
    id in History(s, steps).early + History(s, steps).told && !InProgress(Run(s, steps), id)
  }

  /** At some state of the run the file is counted although that is so. */
  ghost predicate LingersIn(s: State, steps: seq<Step>, id: FileId) {
    exists n :: 0 <= n <= |steps| && Concluded(s, steps[..n], id) && CountedSomewhere(Run(s, steps[..n]).index, id)
  }

  /** The limiter was told too early: while the handler was yet to track the file under its address. */
  ghost predicate ToldEarly(s: State, steps: seq<Step>, id: FileId) {
    var p := History(s, steps);
    id in p.early && id in p.home && p.home[id] != NO_ADDRESS
  }

  /** What a calm run has recorded stays. */
  lemma {:induction false} EarlyStays(s: State, steps: seq<Step>, n: nat, id: FileId)
    requires Start(s) && CalmRun(s, steps) && n <= |steps| && ToldEarly(s, steps[..n], id)
    ensures ToldEarly(s, steps, id)
  {
    if n == |steps| {
      assert steps[..n] == steps;
    } else {
      var init, a := steps[..|steps| - 1], steps[|steps| - 1];
      assert init[..n] == steps[..n];
      EarlyStays(s, init, n, id);
      assert Calm(History(s, init), Run(s, init), a);
    }
  }

  lemma CountedWasEarly(s: State, steps: seq<Step>, id: FileId)
    requires Start(s) && CalmRun(s, steps)
    requires Concluded(s, steps, id) && CountedSomewhere(Run(s, steps).index, id)
    ensures ToldEarly(s, steps, id)
  {
    RunAgrees(s, steps);
    var ip :| Run(s, steps).index.Counted(ip, id);
    assert id in History(s, steps).tracked;
  }

  lemma {:induction false} CalmPrefix(s: State, steps: seq<Step>, n: nat)
    requires CalmRun(s, steps) && n <= |steps|
    ensures CalmRun(s, steps[..n])
  {
    if n == |steps| {
      assert steps[..n] == steps;
    } else {
      assert steps[..|steps| - 1][..n] == steps[..n];
      CalmPrefix(s, steps[..|steps| - 1], n);
    }
  }

  lemma LingersOn(s: State, steps: seq<Step>, more: seq<Step>, id: FileId)
    requires LingersIn(s, steps, id)
    ensures LingersIn(s, steps + more, id)
  {
    var n :| 0 <= n <= |steps| && Concluded(s, steps[..n], id) && CountedSomewhere(Run(s, steps[..n]).index, id);
    assert (steps + more)[..n] == steps[..n];
  }

  /** Once the limiter was told of its file, a handler can only end by tracking it. */
  lemma EndsByTracking(s: State, p: Past, a: Step, j: nat)
    requires j in s.jobs && s.jobs[j].stage.Registered? && Calm(p, s, a)
    ensures a == Track(j) || (j in Apply(s, a).jobs && Apply(s, a).jobs[j] == s.jobs[j])
  {
  }

  lemma EndsCounted(s: State, p: Past, a: Step, id: FileId)
    requires JobsAtHome(s, p) && Calm(p, s, a) && id in p.early && id in p.home && p.home[id] != NO_ADDRESS
    requires InProgress(s, id)
    ensures InProgress(Apply(s, a), id) || CountedSomewhere(Apply(s, a).index, id)
  {
    var j :| j in s.jobs && s.jobs[j].id == id;
    assert JobAtHome(s, p, s.jobs[j]);
    EndsByTracking(s, p, a, j);
    if a == Track(j) {
      assert Apply(s, a).index == s.index.Track(s.jobs[j].ip, id, s.now);
      assert Apply(s, a).index.Counted(s.jobs[j].ip, id);
    }
  }

  /** Only while the handler is at work does a file become `early`. */
  lemma NewEarly(s: State, p: Past, a: Step, id: FileId)
    requires Calm(p, s, a) && id in Recorded(p, s, a).early
    ensures id in p.early || InProgress(Apply(s, a), id)
  {
    assert a.Notify? ==> Apply(s, a).jobs == s.jobs;
  }

  lemma StillEarly(s: State, steps: seq<Step>, id: FileId)
    requires Start(s) && CalmRun(s, steps) && steps != []
    requires ToldEarly(s, steps, id) && !InProgress(Run(s, steps), id)
    ensures ToldEarly(s, steps[..|steps| - 1], id)
  {
    var init := steps[..|steps| - 1];
    RunAgrees(s, init);
    NewEarly(Run(s, init), History(s, init), steps[|steps| - 1], id);
    assert id in History(s, init).home;
  }

  /** Told early, the file is counted when its handler is done. */
  lemma {:induction false} EarlyLingers(s: State, steps: seq<Step>, id: FileId)
    requires Start(s) && CalmRun(s, steps) && ToldEarly(s, steps, id) && !InProgress(Run(s, steps), id)
    ensures LingersIn(s, steps, id)
  {
    if steps != [] {
      var init, a := steps[..|steps| - 1], steps[|steps| - 1];
      StillEarly(s, steps, id);
      if InProgress(Run(s, init), id) {
        RunAgrees(s, init);
        EndsCounted(Run(s, init), History(s, init), a, id);
        assert steps[..|steps|] == steps;
      } else {
        EarlyLingers(s, init, id);
        LingersOn(s, init, [a], id);
        assert init + [a] == steps;
      }
    }
  }

  /**
   * Over every calm run, once the handler of a file is done and the limiter was told of its payment: at no state
   * since then is the file counted, unless the limiter was told while the handler was still in progress, with a
   * known address; then it is.
   */
  lemma SettledLingersIffToldEarly(s: State, steps: seq<Step>, id: FileId)
    requires Start(s) && CalmRun(s, steps) && Concluded(s, steps, id)
    ensures LingersIn(s, steps, id) <==> ToldEarly(s, steps, id)
  {
    if LingersIn(s, steps, id) {
      var n :| 0 <= n <= |steps| && Concluded(s, steps[..n], id) && CountedSomewhere(Run(s, steps[..n]).index, id);
      CalmPrefix(s, steps, n);
      CountedWasEarly(s, steps[..n], id);
      EarlyStays(s, steps, n, id);
    }
    if ToldEarly(s, steps, id) {
      EarlyLingers(s, steps, id);
    }
  }

  // ---- a run that is paid too early -------------------------------------------------------

  lemma CalmSnoc(s: State, steps: seq<Step>, a: Step)
    requires CalmRun(s, steps) && Calm(History(s, steps), Run(s, steps), a)
    ensures CalmRun(s, steps + [a])
    ensures History(s, steps + [a]) == Recorded(History(s, steps), Run(s, steps), a)
  {
    assert (steps + [a])[..|steps|] == steps;
  }

  lemma InvoicingIsCalm(s: State, u: Client)
    ensures CalmRun(s, Invoicing(u))
  {
    var s0: seq<Step> := [];
    var s1 := s0 + [Put(u.id, u.size)];
    var s2 := s1 + [Begin(0, u.ip, u.id)];
    assert CalmRun(s, s0) && History(s, s0) == NO_PAST;
    CalmSnoc(s, s0, Put(u.id, u.size));
    CalmSnoc(s, s1, Begin(0, u.ip, u.id));
    CalmSnoc(s, s2, Save(0, true));
    CalmSnoc(s, s2 + [Save(0, true)], Issue(0, Some(u.answer)));
  }

  lemma {:induction false} CalmOn(s: State, steps: seq<Step>, more: seq<Step>)
    requires CalmRun(s, steps) && forall a | a in more :: !a.Begin? && !a.Crash?
    ensures CalmRun(s, steps + more)
  {
    if more == [] {
      assert steps + more == steps;
    } else {
      var init, a := more[..|more| - 1], more[|more| - 1];
      CalmOn(s, steps, init);
      assert a in more;
      assert steps + more == steps + init + [a];
      CalmSnoc(s, steps + init, a);
    }
  }

  /** An upload up to the point where its invoice is served, one step before its file is tracked. */
  function Served(u: Client): seq<Step> {
    Invoicing(u) + [Persist(0, true)] + [Register(0)]
  }

  lemma SavedGives(s: State, u: Client)
    requires Start(s)
    ensures DoSave(DoBegin(Apply(s, Put(u.id, u.size)), 0, u.ip, u.id), 0, true) == s.(
      blobs := map[u.id := u.size], tables := Tables(map[u.id := Fresh(u.size, s.now)], map[]),
      jobs := map[0 := Job(u.ip, u.id, Saved(u.size))])
  {
    var t := DoBegin(Apply(s, Put(u.id, u.size)), 0, u.ip, u.id);
    assert t == s.(blobs := map[u.id := u.size],
                   jobs := map[0 := Job(u.ip, u.id, Checked(Fresh(u.size, s.now)))]);
  }

  lemma ServedGives(s: State, u: Client)
    requires Start(s) && |u.id.text| >= 8
    ensures Run(s, Served(u)) == s.(
      blobs := map[u.id := u.size],
      tables := Tables(map[u.id := Fresh(u.size, s.now)], map[u.Hash() := u.Invoiced().Row(s.now)]),
      books := NO_BOOKS.Register(u.Invoiced()), jobs := map[0 := Job(u.ip, u.id, Registered)])
  {
    InvoicingGives(s, u);
    SavedGives(s, u);
    RunSnoc(s, Invoicing(u), Persist(0, true));
    RunSnoc(s, Invoicing(u) + [Persist(0, true)], Register(0));
    assert Run(s, Invoicing(u)).jobs == map[0 := Job(u.ip, u.id, Issued(u.Invoiced()))];
  }

  /** The invoice is paid at once, and the watcher is done before the handler goes on. */
  function PaidEarly(u: Client): seq<Step> {
    Served(u) + Payment(u) + [Track(0)]
  }

  lemma PaidEarlyIsCalm(s: State, u: Client)
    ensures CalmRun(s, PaidEarly(u))
  {
    InvoicingIsCalm(s, u);
    var more := [Persist(0, true)] + [Register(0)] + Payment(u) + [Track(0)];
    assert PaidEarly(u) == Invoicing(u) + more;
    CalmOn(s, Invoicing(u), more);
  }

  lemma PaidEarlyGives(s: State, u: Client)
    ensures Run(s, PaidEarly(u)) == DoTrack(Paid(Run(s, Served(u)), u.Hash(), true, true), 0)
  {
    RunAppend(s, Served(u), Payment(u));
    PaymentGives(Run(s, Served(u)), u);
    RunSnoc(s, Served(u) + Payment(u), Track(0));
  }

  lemma PaidEarlyEnds(s: State, u: Client)
    requires Start(s) && |u.id.text| >= 8 && u.ip != NO_ADDRESS
    ensures var r := Run(s, PaidEarly(u));
      && r.jobs == map[] && r.settling == Idle && u.id in r.tables.files && r.tables.files[u.id].paid
      && r.index == EMPTY.Track(u.ip, u.id, s.now)
  {
    ServedGives(s, u);
    PaidEarlyGives(s, u);
    var r := Paid(Run(s, Served(u)), u.Hash(), true, true);
    assert r.jobs == map[0 := Job(u.ip, u.id, Registered)] && r.index == EMPTY;
  }

  /** Everything is done, the file is paid, and it counts against its address. */
  lemma EarlyPaymentLingers(s: State, u: Client)
    requires Start(s) && |u.id.text| >= 8 && u.ip != NO_ADDRESS
    ensures var r := Run(s, PaidEarly(u));
      && CalmRun(s, PaidEarly(u)) && ToldEarly(s, PaidEarly(u), u.id)
      && r.jobs == map[] && r.settling == Idle && u.id in r.tables.files && r.tables.files[u.id].paid
      && r.index.Counted(u.ip, u.id)
  {
    PaidEarlyEnds(s, u);
    PaidEarlyIsCalm(s, u);
    LimiterAgreesWithStore(s, PaidEarly(u), u.id);
    assert Run(s, PaidEarly(u)).index.Counted(u.ip, u.id);
    assert !InProgress(Run(s, PaidEarly(u)), u.id);
    CountedWasEarly(s, PaidEarly(u), u.id);
  }

  // ---- a run in which a file stands at two addresses ---------------------------------------

  /** Nobody pays, and the row is left until it is due; the entry of the limiter is a nanosecond younger. */
  function LeftUnpaid(u: Client): seq<Step> {
    Served(u) + [Tick(1)] + [Track(0)] + [Tick(PENDING_TIMEOUT)]
  }

  function Cleaning(id: FileId): seq<Step> {
    [] + [List([id])] + [DeleteBlob(true)] + [DeleteRow(true)] + [SweepIndex]
  }

  /** The cleanup takes blob and row, and leaves the entry. */
  function Abandoned(u: Client): seq<Step> {
    LeftUnpaid(u) + Cleaning(u.id)
  }

  lemma LeftUnpaidGives(s: State, u: Client)
    requires Start(s) && |u.id.text| >= 8 && u.ip != NO_ADDRESS
    ensures var r := Run(s, LeftUnpaid(u));
      r == Run(s, Served(u)).(
        now := s.now + 1 + PENDING_TIMEOUT, jobs := map[], index := EMPTY.Track(u.ip, u.id, s.now + 1))
  {
    ServedGives(s, u);
    var s1 := Served(u) + [Tick(1)];
    RunSnoc(s, Served(u), Tick(1));
    RunSnoc(s, s1, Track(0));
    RunSnoc(s, s1 + [Track(0)], Tick(PENDING_TIMEOUT));
    assert Run(s, s1).jobs - {0} == map[];
  }

  lemma CleaningGives(s: State, id: FileId)
    ensures Run(s, Cleaning(id)) == DoSweep(DoDeleteRow(DoDeleteBlob(DoList(s, [id]), true), true))
  {
    var s0: seq<Step> := [];
    var s1 := s0 + [List([id])];
    var s2 := s1 + [DeleteBlob(true)];
    RunSnoc(s, s0, List([id]));
    RunSnoc(s, s1, DeleteBlob(true));
    RunSnoc(s, s2, DeleteRow(true));
    RunSnoc(s, s2 + [DeleteRow(true)], SweepIndex);
  }

  /** The cleanup loop on the one file that is due. */
  lemma CleanedUp(s: State, id: FileId)
    requires s.due == [] && s.tables.ExpiredFiles(s.now) == {id} && s.tables.files.Keys == {id}
    ensures DoDeleteRow(DoDeleteBlob(DoList(s, [id]), true), true) == s.(
      blobs := s.blobs - {id}, tables := s.tables.(files := map[]), due := [], cleared := false)
  {
    var t := s.(due := [id], cleared := false);
    assert DoList(s, [id]) == t by {
      assert Lists([id], {id});
    }
    assert DoDeleteBlob(t, true) == t.(blobs := s.blobs - {id}, cleared := true);
    assert s.tables.files - {id} == map[] && t.due[1..] == [];
  }

  lemma AbandonedGives(s: State, u: Client)
    requires Start(s) && |u.id.text| >= 8 && u.ip != NO_ADDRESS
    ensures var r := Run(s, Abandoned(u));
      && r.jobs == map[] && r.settling == Idle && r.due == [] && r.tables.files == map[]
      && r.index.Counted(u.ip, u.id)
  {
    ServedGives(s, u);
    LeftUnpaidGives(s, u);
    RunAppend(s, LeftUnpaid(u), Cleaning(u.id));
    var r := Run(s, LeftUnpaid(u));
    assert r.tables.ExpiredFiles(r.now) == {u.id};
    CleaningGives(r, u.id);
    CleanedUp(r, u.id);
    LimiterLaws.CleanupFiles(r.index, r.now - PENDING_TIMEOUT, u.ip);
  }

  /** Then the ID is uploaded again from elsewhere, and paid. */
  function SecondAddress(u: Client, v: Client): seq<Step> {
    Abandoned(u) + Upload(v) + Payment(v)
  }

  lemma SecondAddressGives(s: State, u: Client, v: Client)
    ensures Run(s, SecondAddress(u, v)) == Paid(Completed(
      Apply(Run(s, Abandoned(u)), Put(v.id, v.size)), v.ip, v.id, true, Some(v.answer), true), v.Hash(), true, true)
  {
    RunAppend(s, Abandoned(u), Upload(v));
    UploadIsCompleted(Run(s, Abandoned(u)), v, true);
    RunAppend(s, Abandoned(u) + Upload(v), Payment(v));
    PaymentGives(Run(s, Abandoned(u) + Upload(v)), v);
  }

  lemma PaidIs(s: State, u: Client)
    requires s.settling.Idle? && u.Hash() in s.books.pending && u.id in s.tables.files
    requires s.books.pending[u.Hash()].fileID == u.id
    ensures var r := Paid(s, u.Hash(), true, true);
      && r.jobs == s.jobs && r.settling == Idle && r.index == s.index.Pay(u.id)
      && u.id in r.tables.files && r.tables.files[u.id].paid
  {
  }

  /** The file is paid and nothing is pending; it stays counted at the address it was first uploaded from. */
  lemma SecondAddressLingers(s: State, u: Client, v: Client)
    requires Start(s) && |u.id.text| >= 8 && u.ip != NO_ADDRESS
    requires v.id == u.id && v.ip != u.ip && v.ip != NO_ADDRESS
    ensures var r := Run(s, SecondAddress(u, v));
      && r.jobs == map[] && r.settling == Idle && u.id in r.tables.files && r.tables.files[u.id].paid
      && r.index.Counted(u.ip, u.id)
  {
    AbandonedGives(s, u);
    SecondAddressGives(s, u, v);
    var before := Apply(Run(s, Abandoned(u)), Put(v.id, v.size));
    CompletedIs(before, v.ip, v.id, true, Some(v.answer), true);
    PaidIs(Completed(before, v.ip, v.id, true, Some(v.answer), true), v);
    var x := before.index.Track(v.ip, v.id, before.now);
    assert x.Counted(u.ip, u.id) && x.fileToIP[u.id] == v.ip;
    LimiterLaws.PayRemoves(x, u.id, u.ip);
  }
}
