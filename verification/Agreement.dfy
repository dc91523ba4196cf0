/** The pending-file limiter counts the files the database holds as unpaid. */
module Agreement {

  import opened Common
  import opened Results
  import opened Limiter
  import LimiterLaws
  import opened Store
  import opened Payments
  import opened Machine
  import opened Hosting

  type Relation = map<FileId, (Address, Time)>

  /**
   * What a run has done so far: the address each upload was completed from, the files an invoice was created for,
   * the relation the limiter stands for, and the files it was told to be paid, while their handler was still in
   * progress (`early`) and afterwards (`told`).
   */
  datatype Past = Past(
    home: map<FileId, Address>, bills: set<FileId>, tracked: Relation, early: set<FileId>, told: set<FileId>)

  const NO_PAST := Past(map[], {}, map[], {}, {})

  predicate Begins(s: State, a: Step) {
    a.Begin? && a.j !in s.jobs && a.id in s.blobs
  }

  predicate Tracks(s: State, a: Step) {
    a.Track? && a.j in s.jobs && s.jobs[a.j].stage.Registered?
  }

  predicate InProgress(s: State, id: FileId) {
    exists j | j in s.jobs :: s.jobs[j].id == id
  }

  function AfterTrack(p: Past, s: State, job: Job): Past {
    if job.ip != NO_ADDRESS then p.(tracked := p.tracked[job.id := (job.ip, s.now)]) else p
  }

  function AfterTold(p: Past, s: State, id: FileId): Past {
    if InProgress(s, id) then p.(tracked := p.tracked - {id}, early := p.early + {id})
    else p.(tracked := p.tracked - {id}, told := p.told + {id})
  }

  function AfterSweep(p: Past, s: State): Past {
    p.(tracked := LimiterLaws.Since(p.tracked, s.now - PENDING_TIMEOUT))
  }

  function Recorded(p: Past, s: State, a: Step): Past {
    match a
    case Begin(_, ip, id) => if Begins(s, a) then p.(home := p.home[id := ip]) else p
    case Issue(j, answer) => if Issues(s, j, answer) then p.(bills := p.bills + {s.jobs[j].id}) else p
    case Track(j) => if Tracks(s, a) then AfterTrack(p, s, s.jobs[j]) else p
    case Notify => if s.settling.Marked? then AfterTold(p, s, s.settling.id) else p
    case SweepIndex => AfterSweep(p, s)
    case _ => p
  }

  ghost function History(s: State, steps: seq<Step>): Past {
    if steps == [] then NO_PAST
    else Recorded(History(s, steps[..|steps| - 1]), Run(s, steps[..|steps| - 1]), steps[|steps| - 1])
  }

  /** IDs are fresh, and there is no restart. Payments come at any time, and statements may fail. */
  ghost predicate Calm(p: Past, s: State, a: Step) {
    !a.Crash? && (Begins(s, a) ==> a.id !in p.home)
  }

  ghost predicate CalmRun(s: State, steps: seq<Step>) {
    steps == [] ||
    var init := steps[..|steps| - 1];
    CalmRun(s, init) && Calm(History(s, init), Run(s, init), steps[|steps| - 1])
  }

  // ---- the invariant ----------------------------------------------------------------------

  predicate HasInvoice(job: Job) {
    !job.stage.Checked? && !job.stage.Saved?
  }

  /** No invoice of the file can have been paid: none is registered, and none is being settled or was. */
  ghost predicate Unpayable(s: State, p: Past, id: FileId) {
    && (forall h | h in s.books.pending :: s.books.pending[h].fileID != id)
    && (!s.settling.Idle? ==> s.settling.id != id)
    && (id in s.tables.files ==> !s.tables.files[id].paid)
    && id !in p.early
  }

  ghost predicate JobAtHome(s: State, p: Past, job: Job) {
    && job.id in p.home && p.home[job.id] == job.ip && job.id !in p.tracked && job.id !in p.told
    && (job.id in p.bills <==> HasInvoice(job))
    && (job.stage.Checked? ==> job.id !in s.tables.files)
    && (job.stage.Issued? || job.stage.Persisted? ==> job.stage.p.fileID == job.id)
    && (!job.stage.Registered? ==> Unpayable(s, p, job.id))
  }

  ghost predicate JobsAtHome(s: State, p: Past) {
    && (forall j | j in s.jobs :: JobAtHome(s, p, s.jobs[j]))
    && (forall i, j | i in s.jobs && j in s.jobs && s.jobs[i].id == s.jobs[j].id :: i == j)
  }

  /**
   * An unpaid file with an invoice is tracked, with a time that outlasts its row, unless it is due, its handler is
   * at work or the limiter was told. Of a paid file the limiter was told, or is about to be.
   */
  ghost predicate RowTracked(s: State, p: Past, id: FileId)
    requires id in s.tables.files
  {
    var f := s.tables.files[id];
    && id in p.home
    && (f.paid ==> id in p.early + p.told || (s.settling.Marked? && s.settling.id == id))
    && (!f.paid && p.home[id] != NO_ADDRESS && !InProgress(s, id) && !Expired(f, s.now) && id in p.bills - p.told
        ==> id in p.tracked && f.expiresAt - PENDING_TIMEOUT <= p.tracked[id].1)
  }

  /** What the limiter tracks are invoiced files at their address, none of which it was told of after that. */
  ghost predicate Coherent(s: State, p: Past) {
    && LimiterLaws.Represents(s.index, p.tracked)
    && (forall id | id in p.tracked :: id in p.home && p.home[id] == p.tracked[id].0 && p.home[id] != NO_ADDRESS)
    && p.tracked.Keys <= p.bills && p.tracked.Keys !! p.told
    && p.bills + p.early + p.told <= p.home.Keys
  }

  /** Every invoice that can be paid is for an upload. */
  ghost predicate Homed(s: State, p: Past) {
    && (forall h | h in s.books.pending :: s.books.pending[h].fileID in p.home)
    && (!s.settling.Idle? ==> s.settling.id in p.home)
  }

  ghost predicate Agrees(s: State, p: Past) {
    && AllDated(s) && Coherent(s, p) && Homed(s, p) && JobsAtHome(s, p)
    && (forall id | id in s.tables.files :: RowTracked(s, p, id))
  }

  // ---- every step keeps it ----------------------------------------------------------------

  /** Handlers keep their upload while they move on. */
  lemma SameProgress(s: State, t: State)
    requires t.jobs.Keys == s.jobs.Keys && forall j | j in s.jobs :: t.jobs[j].id == s.jobs[j].id
    ensures forall id :: InProgress(s, id) <==> InProgress(t, id)
  {
  }

  /** Where one handler started, stopped or moved on, the others are at work as before. */
  lemma OthersProgress(s: State, t: State, j: nat, id: FileId)
    requires t.jobs - {j} == s.jobs - {j}
    requires (j in s.jobs ==> s.jobs[j].id != id) && (j in t.jobs ==> t.jobs[j].id != id)
    ensures InProgress(s, id) <==> InProgress(t, id)
  {
    if InProgress(s, id) {
      var i :| i in s.jobs && s.jobs[i].id == id;
      assert i in s.jobs - {j} && (s.jobs - {j})[i] == s.jobs[i];
      assert i in t.jobs && t.jobs[i] == (t.jobs - {j})[i];
    }
    if InProgress(t, id) {
      var i :| i in t.jobs && t.jobs[i].id == id;
      assert i in t.jobs - {j} && (t.jobs - {j})[i] == t.jobs[i];
      assert i in s.jobs && s.jobs[i] == (s.jobs - {j})[i];
    }
  }

  lemma BeginRows(s: State, p: Past, a: Step)
    requires Agrees(s, p) && Begins(s, a) && a.id !in p.home
    ensures var t := DoBegin(s, a.j, a.ip, a.id);
      forall id | id in t.tables.files :: RowTracked(t, p.(home := p.home[a.id := a.ip]), id)
  {
    var t, n := DoBegin(s, a.j, a.ip, a.id), p.(home := p.home[a.id := a.ip]);
    assert t.jobs - {a.j} == s.jobs - {a.j};
    forall id | id in t.tables.files
      ensures RowTracked(t, n, id)
    {
      assert RowTracked(s, p, id);
      OthersProgress(s, t, a.j, id);
    }
  }

  lemma BeginJobs(s: State, p: Past, a: Step)
    requires Agrees(s, p) && Begins(s, a) && a.id !in p.home
    ensures JobsAtHome(DoBegin(s, a.j, a.ip, a.id), p.(home := p.home[a.id := a.ip]))
  {
    var t, n := DoBegin(s, a.j, a.ip, a.id), p.(home := p.home[a.id := a.ip]);
    assert a.id in s.tables.files ==> RowTracked(s, p, a.id);
    forall j | j in t.jobs
      ensures JobAtHome(t, n, t.jobs[j])
    {
      assert j != a.j ==> JobAtHome(s, p, s.jobs[j]);
    }
  }

  lemma BeginAgrees(s: State, p: Past, a: Step)
    requires Agrees(s, p) && Begins(s, a) && a.id !in p.home
    ensures Agrees(DoBegin(s, a.j, a.ip, a.id), p.(home := p.home[a.id := a.ip]))
  {
    StepDated(s, a);
    BeginRows(s, p, a);
    BeginJobs(s, p, a);
  }

  lemma SaveRows(s: State, p: Past, j: nat, ok: bool)
    requires Agrees(s, p) && j in s.jobs && s.jobs[j].stage.Checked?
    ensures var t := DoSave(s, j, ok); forall id | id in t.tables.files :: RowTracked(t, p, id)
  {
    var t, job := DoSave(s, j, ok), s.jobs[j];
    assert JobAtHome(s, p, job);
    assert t.jobs - {j} == s.jobs - {j};
    forall id | id in t.tables.files
      ensures RowTracked(t, p, id)
    {
      if id == job.id {
        assert t.jobs[j].id == id;
      } else {
        assert RowTracked(s, p, id);
        OthersProgress(s, t, j, id);
      }
    }
  }

  lemma SaveAgrees(s: State, p: Past, j: nat, ok: bool)
    requires Agrees(s, p) && j in s.jobs && s.jobs[j].stage.Checked?
    ensures Agrees(DoSave(s, j, ok), p)
  {
    var t := DoSave(s, j, ok);
    StepDated(s, Save(j, ok));
    SaveRows(s, p, j, ok);
    assert JobAtHome(s, p, s.jobs[j]);
    forall i | i in t.jobs
      ensures JobAtHome(t, p, t.jobs[i])
    {
      assert JobAtHome(s, p, s.jobs[i]);
    }
  }

  predicate RowOnward(s: State, t: State, id: FileId)
    requires id in s.tables.files && id in t.tables.files
  {
    || t.tables.files[id] == s.tables.files[id]
    || (t.tables.files[id].paid && t.settling.Marked? && t.settling.id == id)
  }

  predicate JobOnward(a: Job, b: Job) {
    || b == a
    || (a.stage.Issued? && b == a.(stage := Persisted(a.stage.p)))
    || (a.stage.Persisted? && b == a.(stage := Registered))
  }

  /** Handlers move on, the clock goes on, payments are settled and rows are cleaned up; the limiter stays. */
  ghost predicate Onward(s: State, t: State, p: Past) {
    && t.index == s.index && s.now <= t.now && (s.settling.Marked? ==> t.settling == s.settling)
    && t.jobs.Keys == s.jobs.Keys
    && (forall j | j in s.jobs :: JobOnward(s.jobs[j], t.jobs[j]))
    && (forall id | id in t.tables.files :: id in s.tables.files && RowOnward(s, t, id))
    && Homed(t, p)
    && (forall j | j in t.jobs && !t.jobs[j].stage.Registered? :: Unpayable(t, p, t.jobs[j].id))
  }

  lemma OnwardAgrees(s: State, t: State, p: Past)
    requires Agrees(s, p) && Onward(s, t, p) && AllDated(t)
    ensures Agrees(t, p)
  {
    SameProgress(s, t);
    forall id | id in t.tables.files
      ensures RowTracked(t, p, id)
    {
      assert RowTracked(s, p, id);
    }
    forall i | i in t.jobs
      ensures JobAtHome(t, p, t.jobs[i])
    {
      assert JobAtHome(s, p, s.jobs[i]) && JobOnward(s.jobs[i], t.jobs[i]);
    }
  }

  /** The clock goes on or the cleanup loop is at work. */
  lemma QuietOnward(s: State, t: State, p: Past)
    requires Homed(s, p) && JobsAtHome(s, p)
    requires t == s.(now := t.now, blobs := t.blobs, tables := t.tables, due := t.due, cleared := t.cleared)
    requires s.now <= t.now
    requires forall id | id in t.tables.files :: id in s.tables.files && t.tables.files[id] == s.tables.files[id]
    ensures Onward(s, t, p)
  {
    forall j | j in t.jobs && !t.jobs[j].stage.Registered?
      ensures Unpayable(t, p, t.jobs[j].id)
    {
      assert JobAtHome(s, p, s.jobs[j]);
    }
  }

  lemma HandlerOnward(s: State, p: Past, a: Step)
    requires Homed(s, p) && JobsAtHome(s, p) && (a.Persist? || a.Register?)
    ensures Onward(s, Apply(s, a), p)
  {
    var t := Apply(s, a);
    assert t != s ==> JobAtHome(s, p, s.jobs[a.j]);
    forall j | j in t.jobs && !t.jobs[j].stage.Registered?
      ensures Unpayable(t, p, t.jobs[j].id)
    {
      assert JobAtHome(s, p, s.jobs[j]);
    }
  }

  lemma TakeOnward(s: State, p: Past, hash: Hash)
    requires Homed(s, p) && JobsAtHome(s, p)
    ensures Onward(s, DoTake(s, hash), p)
  {
    var t := DoTake(s, hash);
    forall j | j in t.jobs && !t.jobs[j].stage.Registered?
      ensures Unpayable(t, p, t.jobs[j].id)
    {
      assert JobAtHome(s, p, s.jobs[j]);
    }
  }

  /** A payment whose file is marked is for an upload that has registered its invoice. */
  lemma SettlingOnward(s: State, p: Past, a: Step)
    requires Homed(s, p) && JobsAtHome(s, p) && (a.Drop? || a.Mark?)
    ensures Onward(s, Apply(s, a), p)
  {
    var t := Apply(s, a);
    assert t.jobs == s.jobs;
    forall j | j in t.jobs && !t.jobs[j].stage.Registered?
      ensures Unpayable(t, p, t.jobs[j].id)
    {
      assert JobAtHome(s, p, s.jobs[j]);
    }
  }

  lemma IssueRows(s: State, p: Past, j: nat, answer: Option<Answer>)
    requires Agrees(s, p) && Issues(s, j, answer)
    ensures var t := DoIssue(s, j, answer);
      forall id | id in t.tables.files :: RowTracked(t, p.(bills := p.bills + {s.jobs[j].id}), id)
  {
    var t, n := DoIssue(s, j, answer), p.(bills := p.bills + {s.jobs[j].id});
    SameProgress(s, t);
    forall id | id in t.tables.files
      ensures RowTracked(t, n, id)
    {
      assert RowTracked(s, p, id);
      assert id == s.jobs[j].id ==> InProgress(s, id);
    }
  }

  /** The handler gets its invoice and goes on. */
  lemma IssueAgrees(s: State, p: Past, j: nat, answer: Option<Answer>)
    requires Agrees(s, p) && Issues(s, j, answer)
    ensures Agrees(DoIssue(s, j, answer), p.(bills := p.bills + {s.jobs[j].id}))
  {
    var t, n := DoIssue(s, j, answer), p.(bills := p.bills + {s.jobs[j].id});
    StepDated(s, Issue(j, answer));
    IssueRows(s, p, j, answer);
    assert JobAtHome(s, p, s.jobs[j]);
    forall i | i in t.jobs
      ensures JobAtHome(t, n, t.jobs[i])
    {
      assert JobAtHome(s, p, s.jobs[i]);
    }
  }

  /** The handler gets no invoice and ends: the row stays, without one. */
  lemma RefusalAgrees(s: State, p: Past, j: nat, answer: Option<Answer>)
    requires Agrees(s, p) && !Issues(s, j, answer)
    ensures Agrees(DoIssue(s, j, answer), p)
  {
    var t := DoIssue(s, j, answer);
    StepDated(s, Issue(j, answer));
    assert t.jobs - {j} == s.jobs - {j};
    forall id | id in t.tables.files
      ensures RowTracked(t, p, id)
    {
      assert RowTracked(s, p, id);
      if t != s {
        assert JobAtHome(s, p, s.jobs[j]);
        if s.jobs[j].id != id {
          OthersProgress(s, t, j, id);
        }
      }
    }
    forall i | i in t.jobs
      ensures JobAtHome(t, p, t.jobs[i])
    {
      assert JobAtHome(s, p, s.jobs[i]);
    }
  }

  lemma TrackRows(s: State, p: Past, j: nat)
    requires Agrees(s, p) && j in s.jobs && s.jobs[j].stage.Registered?
    ensures var t := DoTrack(s, j); forall id | id in t.tables.files :: RowTracked(t, AfterTrack(p, s, s.jobs[j]), id)
  {
    var t, job := DoTrack(s, j), s.jobs[j];
    assert JobAtHome(s, p, job);
    assert t.jobs - {j} == s.jobs - {j};
    forall id | id in t.tables.files
      ensures RowTracked(t, AfterTrack(p, s, job), id)
    {
      assert RowTracked(s, p, id) && Dated(s.tables.files[id], s.now);
      if id != job.id {
        OthersProgress(s, t, j, id);
      }
    }
  }

  lemma TrackJobs(s: State, p: Past, j: nat)
    requires Agrees(s, p) && j in s.jobs && s.jobs[j].stage.Registered?
    ensures JobsAtHome(DoTrack(s, j), AfterTrack(p, s, s.jobs[j]))
  {
    var t, n := DoTrack(s, j), AfterTrack(p, s, s.jobs[j]);
    forall i | i in t.jobs
      ensures JobAtHome(t, n, t.jobs[i])
    {
      assert JobAtHome(s, p, s.jobs[i]);
    }
  }

  lemma TrackAgrees(s: State, p: Past, j: nat)
    requires Agrees(s, p) && j in s.jobs && s.jobs[j].stage.Registered?
    ensures Agrees(DoTrack(s, j), AfterTrack(p, s, s.jobs[j]))
  {
    var job := s.jobs[j];
    assert JobAtHome(s, p, job);
    if job.ip != NO_ADDRESS {
      LimiterLaws.TrackRepresents(s.index, p.tracked, job.ip, job.id, s.now);
    }
    StepDated(s, Track(j));
    TrackRows(s, p, j);
    TrackJobs(s, p, j);
  }

  lemma NotifyAgrees(s: State, p: Past)
    requires Agrees(s, p) && s.settling.Marked?
    ensures Agrees(DoNotify(s), AfterTold(p, s, s.settling.id))
  {
    var t, n := DoNotify(s), AfterTold(p, s, s.settling.id);
    LimiterLaws.PayRepresents(s.index, p.tracked, s.settling.id);
    SameProgress(s, t);
    forall id | id in t.tables.files
      ensures RowTracked(t, n, id)
    {
      assert RowTracked(s, p, id);
    }
    forall i | i in t.jobs
      ensures JobAtHome(t, n, t.jobs[i])
    {
      assert JobAtHome(s, p, s.jobs[i]);
    }
  }

  /** What is swept from the limiter had outlasted its row. */
  lemma SweepKeepsRow(s: State, p: Past, t: State, id: FileId)
    requires id in s.tables.files && RowTracked(s, p, id)
    requires t.tables == s.tables && t.settling == s.settling && t.now == s.now && t.jobs == s.jobs
    ensures RowTracked(t, AfterSweep(p, s), id)
  {
    var n := AfterSweep(p, s);
    SameProgress(s, t);
    if id in p.tracked && s.tables.files[id].expiresAt - PENDING_TIMEOUT <= p.tracked[id].1
      && !Expired(s.tables.files[id], s.now) {
      assert id in n.tracked && n.tracked[id] == p.tracked[id];
    }
  }

  lemma SweptAgrees(s: State, p: Past, t: State)
    requires Agrees(s, p)
    requires t == s.(index := t.index) && LimiterLaws.Represents(t.index, AfterSweep(p, s).tracked)
    ensures Agrees(t, AfterSweep(p, s))
  {
    forall id | id in t.tables.files
      ensures RowTracked(t, AfterSweep(p, s), id)
    {
      SweepKeepsRow(s, p, t, id);
    }
    forall i | i in t.jobs
      ensures JobAtHome(t, AfterSweep(p, s), t.jobs[i])
    {
      assert JobAtHome(s, p, s.jobs[i]);
    }
  }

  lemma SweepAgrees(s: State, p: Past)
    requires Agrees(s, p)
    ensures Agrees(DoSweep(s), AfterSweep(p, s))
  {
    LimiterLaws.CleanupRepresents(s.index, p.tracked, s.now - PENDING_TIMEOUT);
    SweptAgrees(s, p, DoSweep(s));
  }

  /** The invariant holds again after the step. */
  ghost predicate AgreesAfter(s: State, p: Past, a: Step) {
    Agrees(Apply(s, a), Recorded(p, s, a))
  }

  lemma UploadAgrees(s: State, p: Past, a: Step)
    requires Agrees(s, p) && Calm(p, s, a)
    requires a.Begin? || a.Save? || a.Track?
    ensures AgreesAfter(s, p, a)
  {
    if a.Begin? && Begins(s, a) {
      BeginAgrees(s, p, a);
    } else if a.Save? && a.j in s.jobs && s.jobs[a.j].stage.Checked? {
      SaveAgrees(s, p, a.j, a.ok);
    } else if a.Track? && a.j in s.jobs && s.jobs[a.j].stage.Registered? {
      TrackAgrees(s, p, a.j);
    } else {
      assert Apply(s, a) == s;
    }
  }

  lemma IssuingAgrees(s: State, p: Past, a: Step)
    requires Agrees(s, p) && a.Issue?
    ensures AgreesAfter(s, p, a)
  {
    if Issues(s, a.j, a.answer) {
      IssueAgrees(s, p, a.j, a.answer);
    } else {
      RefusalAgrees(s, p, a.j, a.answer);
    }
  }

  lemma RelationAgrees(s: State, p: Past, a: Step)
    requires Agrees(s, p)
    requires a.SweepIndex? || (a.Notify? && s.settling.Marked?)
    ensures AgreesAfter(s, p, a)
  {
    if a.Notify? {
      assert Apply(s, a) == DoNotify(s) && Recorded(p, s, a) == AfterTold(p, s, s.settling.id);
      NotifyAgrees(s, p);
    } else {
      assert Apply(s, a) == DoSweep(s) && Recorded(p, s, a) == AfterSweep(p, s);
      SweepAgrees(s, p);
    }
  }

  lemma RestAgrees(s: State, p: Past, a: Step)
    requires Agrees(s, p)
    requires !a.Begin? && !a.Save? && !a.Track? && !a.Issue? && !a.SweepIndex? && !a.Crash?
    requires a.Notify? ==> !s.settling.Marked?
    ensures AgreesAfter(s, p, a)
  {
    assert Recorded(p, s, a) == p;
    if a.Take? {
      TakeOnward(s, p, a.hash);
    } else if a.Drop? || a.Mark? {
      SettlingOnward(s, p, a);
    } else if a.Persist? || a.Register? {
      HandlerOnward(s, p, a);
    } else {
      QuietOnward(s, Apply(s, a), p);
    }
    StepDated(s, a);
    OnwardAgrees(s, Apply(s, a), p);
  }

  lemma StepAgrees(s: State, p: Past, a: Step)
    requires Agrees(s, p) && Calm(p, s, a)
    ensures AgreesAfter(s, p, a)
  {
    if a.Begin? || a.Save? || a.Track? {
      UploadAgrees(s, p, a);
    } else if a.Issue? {
      IssuingAgrees(s, p, a);
    } else if a.SweepIndex? || (a.Notify? && s.settling.Marked?) {
      RelationAgrees(s, p, a);
    } else {
      RestAgrees(s, p, a);
    }
  }

  lemma {:induction false} RunAgrees(s: State, steps: seq<Step>)
    requires Start(s) && CalmRun(s, steps)
    ensures Agrees(Run(s, steps), History(s, steps))
  {
    if steps != [] {
      var init, a := steps[..|steps| - 1], steps[|steps| - 1];
      RunAgrees(s, init);
      StepAgrees(Run(s, init), History(s, init), a);
    }
  }

  // ---- unpaid files are counted -----------------------------------------------------------

  /** An unpaid, unexpired file of a known address, whose handler is done. */
  predicate Waits(r: State, home: map<FileId, Address>, id: FileId)
    requires id in r.tables.files
  {
    && id in home && home[id] != NO_ADDRESS && !InProgress(r, id)
    && !r.tables.files[id].paid && !Expired(r.tables.files[id], r.now)
  }

  /**
   * In every state of a calm run: an unpaid file whose row has not expired, completed from a known address by
   * a handler that is done, is counted for that address exactly if its invoice was created and the limiter was not
   * told since of its payment. No file is counted anywhere else. Of a paid file the limiter was told, or is next.
   */
  lemma LimiterAgreesWithStore(s: State, steps: seq<Step>, id: FileId)
    requires Start(s) && CalmRun(s, steps) && id in Run(s, steps).tables.files
    ensures var r, p := Run(s, steps), History(s, steps);
      && id in p.home
      && (Waits(r, p.home, id) ==> (r.index.Counted(p.home[id], id) <==> id in p.bills - p.told))
      && (forall ip | r.index.Counted(ip, id) :: ip == p.home[id])
      && (r.tables.files[id].paid ==> id in p.early + p.told || (r.settling.Marked? && r.settling.id == id))
  {
    RunAgrees(s, steps);
    var r, p := Run(s, steps), History(s, steps);
    assert RowTracked(r, p, id);
    forall ip
      ensures r.index.Counted(ip, id) <==> id in p.tracked && p.tracked[id].0 == ip
    {
    }
  }

  /** The files of an address that wait for the payment of an invoice. */
  ghost function Unsettled(r: State, p: Past, ip: Address): set<FileId> {
    set id | id in r.tables.files && Waits(r, p.home, id) && p.home[id] == ip && id in p.bills - p.told
  }

  /** The count an upload is admitted by is never below the number of files its address has waiting. */
  lemma NeverUndercounts(s: State, steps: seq<Step>, ip: Address)
    requires Start(s) && CalmRun(s, steps)
    ensures |Unsettled(Run(s, steps), History(s, steps), ip)| <= |Run(s, steps).index.Files(ip)|
  {
    var r, waiting := Run(s, steps), Unsettled(Run(s, steps), History(s, steps), ip);
    forall id | id in waiting
      ensures id in r.index.Files(ip).Keys
    {
      LimiterAgreesWithStore(s, steps, id);
    }
    FewerKeys(waiting, r.index.Files(ip).Keys);
    assert |r.index.Files(ip)| == |r.index.Files(ip).Keys|;
  }
}
