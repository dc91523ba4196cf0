/** Nobody downloads a file that was not paid for, over every run. */
module NoFreeDownload {

  import opened Common
  import opened Store
  import opened Payments
  import opened Files
  import opened Machine

  type Invoices = set<(Hash, FileId)>

  function NewInvoice(s: State, a: Step): Invoices {
    if a.Issue? && Issues(s, a.j, a.answer) then {(a.answer.value.paymentHash, s.jobs[a.j].id)} else {}
  }

  /** The invoices the Lightning client created in a run, with the file they are for. */
  ghost function InvoicedIn(s: State, steps: seq<Step>): Invoices {
    if steps == [] then {}
    else
      var init := steps[..|steps| - 1];
      InvoicedIn(s, init) + NewInvoice(Run(s, init), steps[|steps| - 1])
  }

  function NewPayments(invoiced: Invoices, a: Step): Invoices {
    if a.Take? then set p | p in invoiced && p.0 == a.hash else {}
  }

  /** The invoices whose hash was reported settled in a run, after they had been created. */
  ghost function PaymentsIn(s: State, steps: seq<Step>): Invoices {
    if steps == [] then {}
    else
      var init := steps[..|steps| - 1];
      PaymentsIn(s, init) + NewPayments(InvoicedIn(s, init), steps[|steps| - 1])
  }

  ghost predicate PaidFor(payments: Invoices, id: FileId) {
    exists hash :: (hash, id) in payments
  }

  predicate StageTraced(job: Job, invoiced: Invoices) {
    match job.stage
    case Checked(m) => !m.paid
    case Issued(p) => p.fileID == job.id && (p.invoice.paymentHash, job.id) in invoiced
    case Persisted(p) => p.fileID == job.id && (p.invoice.paymentHash, job.id) in invoiced
    case _ => true
  }

  /** Where every invoice and every payment mark in the state comes from. */
  ghost predicate Traced(s: State, invoiced: Invoices, payments: Invoices) {
    && (forall h | h in s.books.pending :: (h, s.books.pending[h].fileID) in invoiced)
    && (forall h | h in s.tables.invoices :: (h, s.tables.invoices[h].fileID) in invoiced)
    && (forall j | j in s.jobs :: StageTraced(s.jobs[j], invoiced))
    && (!s.settling.Idle? ==> (s.settling.hash, s.settling.id) in payments)
    && (forall id | id in s.tables.files && s.tables.files[id].paid :: PaidFor(payments, id))
  }

  lemma TracedGrows(s: State, invoiced: Invoices, payments: Invoices,
                    invoiced': Invoices, payments': Invoices)
    requires Traced(s, invoiced, payments) && invoiced <= invoiced' && payments <= payments'
    ensures Traced(s, invoiced', payments')
  {
  }

  lemma UploadTraced(s: State, a: Step, invoiced: Invoices, payments: Invoices)
    requires Traced(s, invoiced, payments) && NewInvoice(s, a) <= invoiced
    requires a.Begin? || a.Save? || a.Issue? || a.Persist? || a.Register? || a.Track?
    ensures Traced(Apply(s, a), invoiced, payments)
  {
  }

  lemma SettleTraced(s: State, a: Step, invoiced: Invoices, payments: Invoices)
    requires Traced(s, invoiced, payments)
    requires a.Take? || a.Drop? || a.Mark? || a.Notify?
    requires NewPayments(invoiced, a) <= payments
    ensures Traced(Apply(s, a), invoiced, payments)
  {
  }

  lemma CrashTraced(s: State, order: seq<Hash>, loads: bool, invoiced: Invoices, payments: Invoices)
    requires Traced(s, invoiced, payments)
    ensures Traced(DoCrash(s, order, loads), invoiced, payments)
  {
    if loads && Lists(order, s.tables.invoices.Keys) {
      LoadedIsStored(s.tables.invoices, order);
    }
  }

  lemma StepTraced(s: State, a: Step, invoiced: Invoices, invoiced': Invoices, payments: Invoices)
    requires Traced(s, invoiced, payments)
    requires invoiced + NewInvoice(s, a) <= invoiced' && NewPayments(invoiced, a) <= payments
    ensures Traced(Apply(s, a), invoiced', payments)
  {
    if a.Take? || a.Drop? || a.Mark? || a.Notify? {
      SettleTraced(s, a, invoiced, payments);
    }
    TracedGrows(s, invoiced, payments, invoiced', payments);
    if a.Begin? || a.Save? || a.Issue? || a.Persist? || a.Register? || a.Track? {
      UploadTraced(s, a, invoiced', payments);
    } else if a.Take? || a.Drop? || a.Mark? || a.Notify? {
      TracedGrows(Apply(s, a), invoiced, payments, invoiced', payments);
    } else if a.Crash? {
      CrashTraced(s, a.order, a.loads, invoiced', payments);
    }
  }

  lemma {:induction false} RunTraced(s: State, steps: seq<Step>)
    requires Start(s)
    ensures Traced(Run(s, steps), InvoicedIn(s, steps), PaymentsIn(s, steps))
  {
    if steps != [] {
      var init, a := steps[..|steps| - 1], steps[|steps| - 1];
      RunTraced(s, init);
      var payments := PaymentsIn(s, steps);
      TracedGrows(Run(s, init), InvoicedIn(s, init), PaymentsIn(s, init), InvoicedIn(s, init), payments);
      StepTraced(Run(s, init), a, InvoicedIn(s, init), InvoicedIn(s, steps), payments);
    }
  }

  /**
   * Over every run, with failed statements, crashes and IDs used again: a file that can be downloaded was
   * invoiced, and after that the hash of that invoice was reported settled.
   */
  lemma DownloadsArePaidFor(s: State, steps: seq<Step>, id: FileId)
    requires Start(s)
    requires Downloadable(Run(s, steps).tables, Run(s, steps).blobs, id, Run(s, steps).now)
    ensures PaidFor(PaymentsIn(s, steps), id)
  {
    RunTraced(s, steps);
  }
}
