/** A paid file is hosted for the whole period it was paid for. */
module Hosting {

  import opened Common
  import opened Store
  import opened Files
  import opened Machine
  import opened Scenario

  // ---- expiry never moves earlier ---------------------------------------------------------

  /** How late a row can expire at most, given the time. */
  ghost predicate Dated(m: FileMeta, now: Time) {
    && m.hostDuration == HOST_DURATION
    && m.expiresAt <= if m.paid then PaidExpiry(now, HOST_DURATION) else now + PENDING_TIMEOUT
  }

  ghost predicate AllDated(s: State) {
    && (forall id | id in s.tables.files :: Dated(s.tables.files[id], s.now))
    && (forall j | j in s.jobs && s.jobs[j].stage.Checked? ::
      !s.jobs[j].stage.meta.paid && Dated(s.jobs[j].stage.meta, s.now))
  }

  /** Rounding to whole seconds loses less than one second, and nothing at a whole second. */
  lemma PaidExpiryBounds(now: Time)
    ensures now + HOST_DURATION - SECOND < PaidExpiry(now, HOST_DURATION) <= now + HOST_DURATION
    ensures PaidExpiry(now, HOST_DURATION) == now + HOST_DURATION <==> now % SECOND == 0
  {
  }

  lemma PaidExpiryGrows(a: Time, b: Time)
    requires a <= b
    ensures PaidExpiry(a, HOST_DURATION) <= PaidExpiry(b, HOST_DURATION)
    ensures a + PENDING_TIMEOUT <= PaidExpiry(b, HOST_DURATION)
  {
  }

  lemma StepDated(s: State, a: Step)
    requires AllDated(s)
    ensures AllDated(Apply(s, a))
  {
  }

  lemma {:induction false} RunDated(s: State, steps: seq<Step>)
    requires AllDated(s)
    ensures AllDated(Run(s, steps))
  {
    if steps != [] {
      RunDated(s, steps[..|steps| - 1]);
      StepDated(Run(s, steps[..|steps| - 1]), steps[|steps| - 1]);
    }
  }

  /** In every reachable state, whatever the next step: a row that stays does not expire earlier. */
  lemma ExpiryNeverEarlier(s: State, steps: seq<Step>, a: Step, id: FileId)
    requires Start(s)
    requires id in Run(s, steps).tables.files && id in Apply(Run(s, steps), a).tables.files
    ensures Run(s, steps).tables.files[id].expiresAt <= Apply(Run(s, steps), a).tables.files[id].expiresAt
    ensures Run(s, steps).tables.files[id].paid ==> Apply(Run(s, steps), a).tables.files[id].paid
  {
    RunDated(s, steps);
    var r := Run(s, steps);
    PaidExpiryGrows(r.now, r.now);
    assert Dated(r.tables.files[id], r.now);
  }

  // ---- the paid period --------------------------------------------------------------------

  /** The row and blob of a paid file are there and out of the cleanup's reach. */
  ghost predicate Secure(s: State, id: FileId, until: Time) {
    && id in s.blobs && id in s.tables.files
    && s.tables.files[id].paid && until <= s.tables.files[id].expiresAt
    && id !in s.due
  }

  lemma StepSecure(s: State, a: Step, id: FileId, until: Time)
    requires AllDated(s) && Secure(s, id, until) && s.now <= until
    ensures Secure(Apply(s, a), id, until)
  {
  }

  lemma ClockGoesOn(s: State, a: Step)
    ensures s.now <= Apply(s, a).now
  {
  }

  lemma {:induction false} RunSecure(s: State, steps: seq<Step>, id: FileId, until: Time)
    requires AllDated(s) && Secure(s, id, until) && Run(s, steps).now <= until
    ensures Secure(Run(s, steps), id, until)
  {
    if steps != [] {
      var init, a := steps[..|steps| - 1], steps[|steps| - 1];
      ClockGoesOn(Run(s, init), a);
      RunSecure(s, init, id, until);
      RunDated(s, init);
      StepSecure(Run(s, init), a, id, until);
    }
  }

  /** However the run goes on, until that time the file can be downloaded. */
  ghost predicate Hosted(s: State, id: FileId, until: Time) {
    forall more: seq<Step> :: Run(s, more).now <= until ==>
      Downloadable(Run(s, more).tables, Run(s, more).blobs, id, Run(s, more).now)
  }

  lemma SecureIsHosted(s: State, id: FileId, until: Time)
    requires AllDated(s) && Secure(s, id, until)
    ensures Hosted(s, id, until)
  {
    forall more: seq<Step> | Run(s, more).now <= until
      ensures Downloadable(Run(s, more).tables, Run(s, more).blobs, id, Run(s, more).now)
    {
      RunSecure(s, more, id, until);
    }
  }

  /** The cleanup loop working off its list up to the `k`th entry, whose blob it deletes. */
  lemma {:induction false} CleanupReaches(s: State, k: nat) returns (more: seq<Step>)
    requires k < |s.due|
    ensures s.due[k] !in Run(s, more).blobs || s.due[k] !in Run(s, more).tables.files
    ensures Run(s, more).now == s.now
    decreases k
  {
    assert Run(s, []) == s;
    var a := if s.cleared then DeleteRow(k == 0) else DeleteBlob(k == 0);
    assert [a][..0] == [];
    var t := Run(s, [a]);
    assert t == Apply(s, a);
    if k == 0 {
      more := [a];
    } else {
      var rest := CleanupReaches(t, k - 1);
      more := [a] + rest;
      RunAppend(s, [a], rest);
    }
  }

  /**
   * The payment of `id` is recorded by the database at a reachable state. The file is then hosted to the end of
   * its paid period, in every continuation, exactly if its row and blob are still there and no cleanup pass
   * has it on its list.
   */
  lemma PaidIsHosted(s: State, steps: seq<Step>)
    requires Start(s)
    requires Run(s, steps).settling.Dropped?
    ensures var r := Run(s, steps);
      Hosted(Apply(r, Mark(true)), r.settling.id, PaidExpiry(r.now, HOST_DURATION))
      <==> r.settling.id in r.tables.files && r.settling.id in r.blobs && r.settling.id !in r.due
  {
    var r := Run(s, steps);
    var id, until, t := r.settling.id, PaidExpiry(r.now, HOST_DURATION), Apply(r, Mark(true));
    RunDated(s, steps);
    StepDated(r, Mark(true));
    PaidExpiryBounds(r.now);
    if id in r.tables.files && id in r.blobs && id !in r.due {
      assert Dated(r.tables.files[id], r.now);
      SecureIsHosted(t, id, until);
    } else {
      assert Run(t, []) == t;
      if id in r.due && id in r.tables.files && id in r.blobs {
        var k :| 0 <= k < |t.due| && t.due[k] == id;
        var more := CleanupReaches(t, k);
        assert !Downloadable(Run(t, more).tables, Run(t, more).blobs, id, Run(t, more).now);
      }
    }
  }

  // ---- both cases happen ------------------------------------------------------------------

  /** Paid in time: the file is hosted for the whole period. */
  lemma PaymentBuysHosting(s: State, u: Client)
    requires Start(s) && |u.id.text| >= 8
    ensures var r := Run(s, Upload(u) + Settlement(u));
      r.settling == Dropped(u.Hash(), u.id) && Hosted(Apply(r, Mark(true)), u.id, PaidExpiry(r.now, HOST_DURATION))
  {
    AfterUpload(s, u);
    SettlementGives(s, Upload(u), u);
    PaidIsHosted(s, Upload(u) + Settlement(u));
  }

  /** The upload waits until its row has expired and a cleanup pass has listed it. */
  function Overdue(u: Client): seq<Step> {
    Upload(u) + [Tick(PENDING_TIMEOUT + 1)] + [List([u.id])]
  }

  lemma OverdueGives(s: State, u: Client)
    requires Start(s) && |u.id.text| >= 8
    ensures var before, r := Run(s, Upload(u)), Run(s, Overdue(u));
      r == before.(now := s.now + PENDING_TIMEOUT + 1, due := [u.id], cleared := false)
  {
    AfterUpload(s, u);
    var late := Upload(u) + [Tick(PENDING_TIMEOUT + 1)];
    RunSnoc(s, Upload(u), Tick(PENDING_TIMEOUT + 1));
    RunSnoc(s, late, List([u.id]));
    var r := Run(s, late);
    assert r.tables.ExpiredFiles(r.now) == {u.id};
  }

  /** Paid while a cleanup pass has it listed: row, blob and payment are there, and the file is not hosted. */
  lemma CleanupOvertakesPayment(s: State, u: Client)
    requires Start(s) && |u.id.text| >= 8
    ensures var r := Run(s, Overdue(u) + Settlement(u));
      && r.settling == Dropped(u.Hash(), u.id) && u.id in r.tables.files && u.id in r.blobs && u.id in r.due
      && !Hosted(Apply(r, Mark(true)), u.id, PaidExpiry(r.now, HOST_DURATION))
  {
    AfterUpload(s, u);
    OverdueGives(s, u);
    SettlementGives(s, Overdue(u), u);
    PaidIsHosted(s, Overdue(u) + Settlement(u));
  }

  // ---- what cleanup removes ---------------------------------------------------------------

  /** The file whose blob the cleanup loop has just deleted was uploaded again since. */
  ghost predicate PutBack(s: State, steps: seq<Step>) {
    steps != [] &&
    var init, a := steps[..|steps| - 1], steps[|steps| - 1];
    var r := Run(s, init);
    r.due != [] && r.cleared && (PutBack(s, init) || (a.Put? && a.id == r.due[0]))
  }

  lemma StepCleared(r: State, a: Step)
    requires Apply(r, a).due != [] && Apply(r, a).cleared
    ensures var t := Apply(r, a);
      if r.due != [] && r.cleared
      then t.due[0] == r.due[0] && (t.due[0] in t.blobs <==> t.due[0] in r.blobs || (a.Put? && a.id == r.due[0]))
      else t.due[0] !in t.blobs
  {
  }

  /** When the loop is about to delete a row, its blob is there exactly if it was uploaded again meanwhile. */
  lemma {:induction false} ClearedIsGone(s: State, steps: seq<Step>)
    requires Start(s)
    requires Run(s, steps).due != [] && Run(s, steps).cleared
    ensures Run(s, steps).due[0] in Run(s, steps).blobs <==> PutBack(s, steps)
  {
    var init := steps[..|steps| - 1];
    StepCleared(Run(s, init), steps[|steps| - 1]);
    if Run(s, init).due != [] && Run(s, init).cleared {
      ClearedIsGone(s, init);
    }
  }

  /**
   * Over every run: a step of the cleanup loop that removes a row leaves its blob behind exactly if the file
   * was uploaded again between the deletion of its blob and that of its row.
   */
  lemma RowGoesWithBlob(s: State, steps: seq<Step>, a: Step, id: FileId)
    requires Start(s)
    requires id in Run(s, steps).tables.files && id !in Apply(Run(s, steps), a).tables.files
    ensures id in Apply(Run(s, steps), a).blobs <==> PutBack(s, steps)
  {
    ClearedIsGone(s, steps);
  }

  /** Which happens: the row goes, the new blob stays and belongs to no row. */
  lemma PutBackLeavesBlob(s: State, u: Client)
    requires Start(s) && |u.id.text| >= 8
    ensures var r := Run(s, Overdue(u) + [DeleteBlob(true)] + [Put(u.id, u.size)]);
      var t := Apply(r, DeleteRow(true));
      u.id in r.tables.files && u.id !in t.tables.files && u.id in t.blobs
  {
    AfterUpload(s, u);
    OverdueGives(s, u);
    RunSnoc(s, Overdue(u), DeleteBlob(true));
    RunSnoc(s, Overdue(u) + [DeleteBlob(true)], Put(u.id, u.size));
  }
}
