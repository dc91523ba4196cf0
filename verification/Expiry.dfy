/** How long an upload is kept, and what a cleanup pass takes: over every run, with the times written out. */
module Expiry {

  import opened Common
  import LimiterLaws
  import opened Store
  import opened Machine
  import opened Hosting
  import opened Server

  /** When each upload handler began, and for each row when the handler that inserted it did. */
  datatype Clock = Clock(began: map<nat, Time>, since: map<FileId, Time>)

  predicate Inserts(s: State, a: Step) {
    a.Save? && a.ok && a.j in s.jobs && s.jobs[a.j].stage.Checked? && s.jobs[a.j].id !in s.tables.files
  }

  function Noted(x: Clock, s: State, a: Step): Clock {
    if a.Begin? && a.j !in s.jobs && a.id in s.blobs then x.(began := x.began[a.j := s.now])
    else if Inserts(s, a) && a.j in x.began then x.(since := x.since[s.jobs[a.j].id := x.began[a.j]])
    else x
  }

  ghost function ClockOf(s: State, steps: seq<Step>): Clock {
    if steps == [] then Clock(map[], map[])
    else Noted(ClockOf(s, steps[..|steps| - 1]), Run(s, steps[..|steps| - 1]), steps[|steps| - 1])
  }

  // ---- what every step keeps ----------------------------------------------------------------

  /** 15 minutes after its handler began an unpaid row expires, a paid one not before that. */
  ghost predicate RowTimed(s: State, x: Clock, id: FileId)
    requires id in s.tables.files
  {
    var f := s.tables.files[id];
    && id in x.since && x.since[id] <= s.now
    && (if f.paid then x.since[id] + 900_000_000_000 <= f.expiresAt else f.expiresAt == x.since[id] + 900_000_000_000)
  }

  ghost predicate JobTimed(s: State, x: Clock, j: nat)
    requires j in s.jobs
  {
    s.jobs[j].stage.Checked? ==>
      && j in x.began && x.began[j] <= s.now && !s.jobs[j].stage.meta.paid
      && s.jobs[j].stage.meta.expiresAt == x.began[j] + 900_000_000_000
  }

  predicate IsOver(s: State, x: Clock, id: FileId) {
    id in s.tables.files && id in x.since && x.since[id] + 900_000_000_000 < s.now
  }

  /** What the cleanup loop has on its list are rows that are over. */
  ghost predicate DueTimed(s: State, x: Clock) {
    && (forall k | 0 <= k < |s.due| :: IsOver(s, x, s.due[k]))
    && (forall k, l | 0 <= k < l < |s.due| :: s.due[k] != s.due[l])
  }

  ghost predicate Timed(s: State, x: Clock) {
    && AllDated(s) && DueTimed(s, x)
    && (forall id | id in s.tables.files :: RowTimed(s, x, id))
    && (forall j | j in s.jobs :: JobTimed(s, x, j))
  }

  lemma UploadJobsTimed(s: State, x: Clock, a: Step)
    requires Timed(s, x) && (a.Begin? || a.Save? || a.Issue? || a.Persist? || a.Register? || a.Track?)
    ensures forall j | j in Apply(s, a).jobs :: JobTimed(Apply(s, a), Noted(x, s, a), j)
  {
    var t, y := Apply(s, a), Noted(x, s, a);
    forall j | j in t.jobs
      ensures JobTimed(t, y, j)
    {
      assert j in s.jobs ==> JobTimed(s, x, j);
    }
  }

  lemma UploadRowsTimed(s: State, x: Clock, a: Step)
    requires Timed(s, x) && (a.Begin? || a.Save? || a.Issue? || a.Persist? || a.Register? || a.Track?)
    ensures forall id | id in Apply(s, a).tables.files :: RowTimed(Apply(s, a), Noted(x, s, a), id)
  {
    var t, y := Apply(s, a), Noted(x, s, a);
    assert Inserts(s, a) ==> JobTimed(s, x, a.j);
    forall id | id in t.tables.files
      ensures RowTimed(t, y, id)
    {
      assert id in s.tables.files ==> RowTimed(s, x, id);
    }
  }

  lemma UploadTimed(s: State, x: Clock, a: Step)
    requires Timed(s, x) && (a.Begin? || a.Save? || a.Issue? || a.Persist? || a.Register? || a.Track?)
    ensures Timed(Apply(s, a), Noted(x, s, a))
  {
    var t := Apply(s, a);
    StepDated(s, a);
    UploadJobsTimed(s, x, a);
    UploadRowsTimed(s, x, a);
    assert t.due == s.due;
  }

  lemma ListTimed(s: State, x: Clock, listed: seq<FileId>)
    requires Timed(s, x) && s.due == [] && Lists(listed, s.tables.ExpiredFiles(s.now))
    ensures DueTimed(s.(due := listed, cleared := false), x)
  {
    forall k | 0 <= k < |listed|
      ensures IsOver(s, x, listed[k])
    {
      assert listed[k] in s.tables.ExpiredFiles(s.now);
      assert RowTimed(s, x, listed[k]);
    }
  }

  lemma CleanupTimed(s: State, x: Clock, a: Step)
    requires Timed(s, x) && (a.List? || a.DeleteBlob? || a.DeleteRow?)
    ensures Timed(Apply(s, a), x)
  {
    var t := Apply(s, a);
    StepDated(s, a);
    if a.List? && t != s {
      ListTimed(s, x, a.listed);
    }
    assert t.jobs == s.jobs && t.now == s.now && forall j | j in t.jobs :: JobTimed(s, x, j);
    forall id | id in t.tables.files
      ensures RowTimed(t, x, id)
    {
      assert RowTimed(s, x, id);
    }
  }

  lemma MarkRowsTimed(s: State, x: Clock, ok: bool)
    requires Timed(s, x)
    ensures var t := DoMark(s, ok); t.tables.files.Keys == s.tables.files.Keys && t.now == s.now
    ensures forall id | id in DoMark(s, ok).tables.files :: RowTimed(DoMark(s, ok), x, id)
  {
    forall id | id in DoMark(s, ok).tables.files
      ensures RowTimed(DoMark(s, ok), x, id)
    {
      assert RowTimed(s, x, id);
      PaidExpiryGrows(x.since[id], s.now);
    }
  }

  lemma MarkTimed(s: State, x: Clock, ok: bool)
    requires Timed(s, x)
    ensures Timed(DoMark(s, ok), x)
  {
    var t := DoMark(s, ok);
    StepDated(s, Mark(ok));
    MarkRowsTimed(s, x, ok);
    assert t.jobs == s.jobs && t.due == s.due;
    assert forall j | j in s.jobs :: JobTimed(s, x, j);
  }

  /** Steps that touch no row and insert no handler. */
  lemma OtherTimed(s: State, x: Clock, t: State)
    requires Timed(s, x) && AllDated(t) && s.now <= t.now
    requires t.tables.files == s.tables.files && (t.due == s.due || t.due == [])
    requires t.jobs == s.jobs || t.jobs == map[]
    ensures Timed(t, x)
  {
    forall id | id in t.tables.files
      ensures RowTimed(t, x, id)
    {
      assert RowTimed(s, x, id);
    }
    forall j | j in t.jobs
      ensures JobTimed(t, x, j)
    {
      assert JobTimed(s, x, j);
    }
  }

  lemma Aside(s: State, a: Step)
    requires a.Tick? || a.Put? || a.Take? || a.Drop? || a.Notify? || a.SweepIndex? || a.Crash?
    ensures var t := Apply(s, a);
      && s.now <= t.now && t.tables.files == s.tables.files && (t.due == s.due || t.due == [])
      && (t.jobs == s.jobs || t.jobs == map[])
  {
  }

  lemma StepTimed(s: State, x: Clock, a: Step)
    requires Timed(s, x)
    ensures Timed(Apply(s, a), Noted(x, s, a))
  {
    if a.Begin? || a.Save? || a.Issue? || a.Persist? || a.Register? || a.Track? {
      UploadTimed(s, x, a);
    } else if a.List? || a.DeleteBlob? || a.DeleteRow? {
      CleanupTimed(s, x, a);
    } else if a.Mark? {
      MarkTimed(s, x, a.ok);
    } else {
      StepDated(s, a);
      Aside(s, a);
      OtherTimed(s, x, Apply(s, a));
    }
  }

  lemma {:induction false} RunTimed(s: State, steps: seq<Step>)
    requires Start(s)
    ensures Timed(Run(s, steps), ClockOf(s, steps))
  {
    if steps != [] {
      var init := steps[..|steps| - 1];
      RunTimed(s, init);
      StepTimed(Run(s, init), ClockOf(s, init), steps[|steps| - 1]);
    }
  }

  // ---- fifteen minutes ----------------------------------------------------------------------

  lemma NotDue(s: State, x: Clock, id: FileId)
    requires Timed(s, x) && id in s.tables.files && s.now <= x.since[id] + 900_000_000_000
    ensures id !in s.due && id !in s.tables.ExpiredFiles(s.now)
  {
    assert RowTimed(s, x, id);
  }

  lemma SinceStays(s: State, x: Clock, a: Step, id: FileId)
    requires id in s.tables.files && id in x.since
    ensures id in Noted(x, s, a).since && Noted(x, s, a).since[id] == x.since[id]
  {
  }

  lemma StepKeeps(s: State, a: Step, id: FileId)
    requires id in s.tables.files && id !in s.due && id !in s.tables.ExpiredFiles(s.now)
    ensures var t := Apply(s, a); id in t.tables.files && id !in t.due && (id in s.blobs ==> id in t.blobs)
  {
    if a.DeleteBlob? || a.DeleteRow? {
      assert s.due != [] ==> s.due[0] != id;
    }
  }

  /**
   * Over every run: while the clock is at most 15 minutes past the time its handler began, a row is not listed by the
   * cleanup and not removed, nor is its blob.
   */
  lemma {:induction false} KeptFifteenMinutes(s: State, steps: seq<Step>, more: seq<Step>, id: FileId)
    requires Start(s) && id in Run(s, steps).tables.files && id in ClockOf(s, steps).since
    requires Run(s, steps + more).now <= ClockOf(s, steps).since[id] + 900_000_000_000
    ensures var r := Run(s, steps + more);
      && id in r.tables.files && id !in r.due && (id in Run(s, steps).blobs ==> id in r.blobs)
      && id in ClockOf(s, steps + more).since && ClockOf(s, steps + more).since[id] == ClockOf(s, steps).since[id]
  {
    RunTimed(s, steps);
    if more == [] {
      assert steps + more == steps;
      assert RowTimed(Run(s, steps), ClockOf(s, steps), id);
    } else {
      var init, a := more[..|more| - 1], more[|more| - 1];
      assert steps + more == steps + init + [a];
      assert (steps + init + [a])[..|steps + init|] == steps + init;
      ClockGoesOn(Run(s, steps + init), a);
      KeptFifteenMinutes(s, steps, init, id);
      RunTimed(s, steps + init);
      NotDue(Run(s, steps + init), ClockOf(s, steps + init), id);
      SinceStays(Run(s, steps + init), ClockOf(s, steps + init), a, id);
      StepKeeps(Run(s, steps + init), a, id);
    }
  }

  /** Left unpaid, it is on the list of any pass after that. */
  lemma ListedAfterwards(s: State, steps: seq<Step>, listed: seq<FileId>, id: FileId)
    requires Start(s) && id in Run(s, steps).tables.files && !Run(s, steps).tables.files[id].paid
    requires id in ClockOf(s, steps).since && ClockOf(s, steps).since[id] + 900_000_000_000 < Run(s, steps).now
    ensures Apply(Run(s, steps), List(listed)) != Run(s, steps) ==> id in Apply(Run(s, steps), List(listed)).due
  {
    var r := Run(s, steps);
    RunTimed(s, steps);
    assert RowTimed(r, ClockOf(s, steps), id);
    assert id in r.tables.ExpiredFiles(r.now);
    assert Apply(r, List(listed)) == DoList(r, listed);
  }

  /** The limiter forgets exactly the files tracked more than 15 minutes ago. */
  lemma SweepForgets(s: State, ip: Address, id: FileId)
    ensures Apply(s, SweepIndex).index.Counted(ip, id)
       <==> s.index.Counted(ip, id) && s.now - 900_000_000_000 <= s.index.Files(ip)[id]
  {
    LimiterLaws.CleanupFiles(s.index, s.now - PENDING_TIMEOUT, ip);
  }

  // ---- a pass without failures --------------------------------------------------------------

  /** The loop's steps on `n` files, none of which fails. */
  function Working(n: nat): seq<Step> {
    if n == 0 then [] else [DeleteBlob(true)] + [DeleteRow(true)] + Working(n - 1)
  }

  function CleanPass(listed: seq<FileId>): seq<Step> {
    [List(listed)] + Working(|listed|)
  }

  lemma {:induction false} WorkingGives(s: State, n: nat)
    requires !s.cleared && |s.due| == n
    ensures Run(s, Working(n)) == WorkedOff(s, {}, {})
    decreases n
  {
    if n > 0 {
      var two := [DeleteBlob(true)] + [DeleteRow(true)];
      RunAppend(s, two, Working(n - 1));
      RunSnoc(s, [], DeleteBlob(true));
      RunSnoc(s, [DeleteBlob(true)], DeleteRow(true));
      assert [] + [DeleteBlob(true)] == [DeleteBlob(true)];
      WorkingGives(DoDeleteRow(DoDeleteBlob(s, true), true), n - 1);
    }
  }

  /** Rows that are over, written out. */
  predicate Over(s: State, id: FileId) {
    id in s.tables.files && s.tables.files[id].expiresAt < s.now
  }

  lemma CleanPassGives(s: State, listed: seq<FileId>)
    requires s.due == [] && Lists(listed, s.tables.ExpiredFiles(s.now))
    ensures Run(s, CleanPass(listed)) == WorkedOff(DoList(s, listed), {}, {})
  {
    RunAppend(s, [List(listed)], Working(|listed|));
    RunSnoc(s, [], List(listed));
    assert [] + [List(listed)] == [List(listed)];
    WorkingGives(DoList(s, listed), |listed|);
  }

  /**
   * From any state between passes, a pass none of whose statements fails, in any order of listing: exactly the rows
   * whose expiry is before now go, paid or not, and their blobs with them; nothing else does.
   */
  lemma CleanPassTakesAllOver(s: State, listed: seq<FileId>)
    requires s.due == []
    requires forall id :: id in listed <==> Over(s, id)
    requires forall k, l | 0 <= k < l < |listed| :: listed[k] != listed[l]
    ensures var t := Run(s, CleanPass(listed));
      && (forall id :: id in t.tables.files <==> id in s.tables.files && s.now <= s.tables.files[id].expiresAt)
      && (forall id :: id in t.blobs <==> id in s.blobs && !Over(s, id))
      && (forall id | id in t.tables.files :: t.tables.files[id] == s.tables.files[id])
      && (forall id | id in t.blobs :: t.blobs[id] == s.blobs[id]) && t.due == [] && t.now == s.now
  {
    assert forall id :: id in s.tables.ExpiredFiles(s.now) <==> Over(s, id);
    CleanPassGives(s, listed);
    WorkedOffIs(DoList(s, listed), {}, {});
    var due := set i | 0 <= i < |listed| :: listed[i];
    assert forall id :: id in due <==> id in listed;
  }

  lemma {:induction false} Listing(ids: set<FileId>) returns (listed: seq<FileId>)
    ensures Lists(listed, ids)
  {
    if ids == {} {
      listed := [];
    } else {
      var id :| id in ids;
      var rest := Listing(ids - {id});
      listed := rest + [id];
    }
  }

  /** So a paid file whose period has ended is gone, row and blob, after a pass without failures. */
  lemma PaidFileGoes(s: State, id: FileId) returns (listed: seq<FileId>)
    requires s.due == [] && Over(s, id) && s.tables.files[id].paid
    ensures var t := Run(s, CleanPass(listed)); id !in t.tables.files && id !in t.blobs
  {
    listed := Listing(s.tables.ExpiredFiles(s.now));
    CleanPassTakesAllOver(s, listed);
  }
}
