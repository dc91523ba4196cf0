/** Runs that show what can happen: one client uploads one file. */
module Scenario {

  import opened Common
  import opened Results
  import opened Store
  import opened Payments
  import opened Files
  import opened Machine
  import opened Server

  datatype Client = Client(ip: Address, id: FileId, size: nat, answer: Answer)
  {
    function Hash(): Hash {
      answer.paymentHash
    }

    function Invoiced(): PendingInvoice {
      PendingInvoice(id, Invoice(answer.paymentHash, answer.paymentRequest, Price(size)))
    }
  }

  function Invoicing(u: Client): seq<Step> {
    [] + [Put(u.id, u.size)] + [Begin(0, u.ip, u.id)] + [Save(0, true)] + [Issue(0, Some(u.answer))]
  }

  /** A whole upload; its invoice is stored or not. */
  function Uploading(u: Client, stores: bool): seq<Step> {
    Invoicing(u) + [Persist(0, stores)] + [Register(0)] + [Track(0)]
  }

  /** A whole upload, nothing failing. */
  function Upload(u: Client): seq<Step> {
    Uploading(u, true)
  }

  lemma InvoicingGives(s: State, u: Client)
    ensures Run(s, Invoicing(u))
         == DoIssue(DoSave(DoBegin(Apply(s, Put(u.id, u.size)), 0, u.ip, u.id), 0, true), 0, Some(u.answer))
  {
    var s0: seq<Step> := [];
    var s1 := s0 + [Put(u.id, u.size)];
    var s2 := s1 + [Begin(0, u.ip, u.id)];
    RunSnoc(s, s0, Put(u.id, u.size));
    RunSnoc(s, s1, Begin(0, u.ip, u.id));
    RunSnoc(s, s2, Save(0, true));
    RunSnoc(s, s2 + [Save(0, true)], Issue(0, Some(u.answer)));
  }

  lemma UploadIsCompleted(s: State, u: Client, stores: bool)
    ensures Run(s, Uploading(u, stores))
         == Completed(Apply(s, Put(u.id, u.size)), u.ip, u.id, true, Some(u.answer), stores)
  {
    InvoicingGives(s, u);
    var s5 := Invoicing(u) + [Persist(0, stores)];
    RunSnoc(s, Invoicing(u), Persist(0, stores));
    RunSnoc(s, s5, Register(0));
    RunSnoc(s, s5 + [Register(0)], Track(0));
  }

  /** After it: a blob, an unpaid row, a stored and pending invoice, and nobody at work. */
  lemma AfterUpload(s: State, u: Client)
    requires Start(s) && |u.id.text| >= 8
    ensures var r := Run(s, Upload(u));
      && r.now == s.now && r.jobs == map[] && r.settling == Idle && r.due == []
      && r.blobs == map[u.id := u.size]
      && r.tables == Tables(map[u.id := Fresh(u.size, s.now)], map[u.Hash() := u.Invoiced().Row(s.now)])
      && r.books == NO_BOOKS.Register(u.Invoiced())
  {
    UploadIsCompleted(s, u, true);
    CompletedIs(Apply(s, Put(u.id, u.size)), u.ip, u.id, true, Some(u.answer), true);
  }

  /** The settlement up to the statement that marks the file. */
  function Settlement(u: Client): seq<Step> {
    [Take(u.Hash())] + [Drop(true)]
  }

  lemma SettlementGives(s: State, steps: seq<Step>, u: Client)
    requires var r := Run(s, steps); r.settling.Idle? && u.Hash() in r.books.pending
    ensures var r := Run(s, steps); Run(s, steps + Settlement(u)) == DoDrop(DoTake(r, u.Hash()), true)
  {
    assert steps + Settlement(u) == steps + [Take(u.Hash())] + [Drop(true)];
    RunSnoc(s, steps, Take(u.Hash()));
    RunSnoc(s, steps + [Take(u.Hash())], Drop(true));
  }

  /** A whole settlement, nothing failing. */
  function Payment(u: Client): seq<Step> {
    Settlement(u) + [Mark(true)] + [Notify]
  }

  lemma PaymentGives(s: State, u: Client)
    ensures Run(s, Payment(u)) == Paid(s, u.Hash(), true, true)
  {
    var s0: seq<Step> := [];
    var s1 := s0 + [Take(u.Hash())];
    assert s1 + [Drop(true)] == Settlement(u);
    RunSnoc(s, s0, Take(u.Hash()));
    RunSnoc(s, s1, Drop(true));
    RunSnoc(s, Settlement(u), Mark(true));
    RunSnoc(s, Settlement(u) + [Mark(true)], Notify);
  }
}
