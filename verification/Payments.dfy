/** Invoices that wait for payment: in memory, and stored for a restart. */
module Payments {

  import opened Common
  import opened Results
  import opened Limiter
  import opened Store

  datatype Invoice = Invoice(paymentHash: Hash, paymentRequest: Request, amountSats: int)

  /** What the Lightning client chooses; it hands back the amount it was asked for. */
  datatype Answer = Answer(paymentHash: Hash, paymentRequest: Request)

  datatype PendingInvoice = PendingInvoice(fileID: FileId, invoice: Invoice)
  {
    function Row(now: Time): InvoiceRow {
      InvoiceRow(fileID, invoice.paymentRequest, invoice.amountSats, now)
    }
  }

  function FromRow(hash: Hash, row: InvoiceRow): PendingInvoice {
    PendingInvoice(row.fileID, Invoice(hash, row.paymentRequest, row.amountSats))
  }

  /** The two maps as a value. */
  datatype Books = Books(pending: map<Hash, PendingInvoice>, byFileID: map<FileId, PendingInvoice>)
  {
    function Register(p: PendingInvoice): Books {
      Books(pending[p.invoice.paymentHash := p], byFileID[p.fileID := p])
    }

    /** Whatever invoice the file is filed under goes with the one that was settled. */
    function Take(hash: Hash): Books {
      if hash !in pending then this else Books(pending - {hash}, byFileID - {pending[hash].fileID})
    }
  }

  const NO_BOOKS := Books(map[], map[])

  /** Rows registered one by one. */
  function Load(b: Books, rows: map<Hash, InvoiceRow>, order: seq<Hash>): Books
    requires forall i | 0 <= i < |order| :: order[i] in rows
  {
    if order == [] then b
    else
      var hash := order[|order| - 1];
      Load(b, rows, order[..|order| - 1]).Register(FromRow(hash, rows[hash]))
  }

  datatype CreateError = Panic | Refused

  function Created(id: FileId, amountSats: int, answer: Option<Answer>): Result<Invoice, CreateError> {
    if |id.text| < 8 then Err(Panic)
    else if answer.None? then Err(Refused)
    else Ok(Invoice(answer.value.paymentHash, answer.value.paymentRequest, amountSats))
  }

  function Settled(t: Tables, hash: Hash, id: FileId, now: Time, dropFails: bool, markFails: bool): Tables {
    var dropped := if dropFails then t else t.DropInvoice(hash);
    if markFails then dropped else dropped.MarkPaid(id, now)
  }

  class PaymentService {
    const store: SQLiteStore
    var pending: map<Hash, PendingInvoice>
    var byFileID: map<FileId, PendingInvoice>
    var onPayment: PendingFileLimiter?

    function Value(): Books
      reads this
    {
      Books(pending, byFileID)
    }

    constructor (store: SQLiteStore)
      ensures this.store == store && Value() == NO_BOOKS && onPayment == null
    {
      this.store := store;
      pending, byFileID, onPayment := map[], map[], null;
    }

    method SetPaymentCallback(limiter: PendingFileLimiter)
      modifies this`onPayment
      ensures onPayment == limiter
    {
      onPayment := limiter;
    }

    /**
     * `answer` is what the Lightning client returns, `fails` whether the row cannot be written. The memo takes
     * the first 8 characters of the ID, so a shorter one panics.
     */
    method CreateInvoiceForFile(fileID: FileId, amountSats: int, answer: Option<Answer>, now: Time, fails: bool)
      returns (r: Result<Invoice, CreateError>)
      modifies this`pending, this`byFileID, store
      ensures r == Created(fileID, amountSats, answer)
      ensures r.Err? ==> Value() == old(Value()) && store.Value() == old(store.Value())
      ensures r.Ok? ==> Value() == old(Value()).Register(PendingInvoice(fileID, r.value))
      ensures r.Ok? && fails ==> store.Value() == old(store.Value())
      ensures r.Ok? && !fails ==>
        && store.files == old(store.files)
        && store.invoices == old(store.invoices)[answer.value.paymentHash :=
             InvoiceRow(fileID, answer.value.paymentRequest, amountSats, now)]
    {
      if |fileID.text| < 8 {
        return Err(Panic);
      }
      if answer.None? {
        return Err(Refused);
      }
      var inv := Invoice(answer.value.paymentHash, answer.value.paymentRequest, amountSats);
      var p := PendingInvoice(fileID, inv);
      var _ := store.SavePendingInvoice(inv.paymentHash, p.Row(now), fails);
      pending := pending[inv.paymentHash := p];
      byFileID := byFileID[fileID := p];
      return Ok(inv);
    }

    method GetInvoiceForFile(fileID: FileId) returns (r: Option<PendingInvoice>)
      ensures r == if fileID in byFileID then Some(byFileID[fileID]) else None
    {
      return if fileID in byFileID then Some(byFileID[fileID]) else None;
    }

    /** The stored invoice goes first, then the file is marked, then the limiter is told. */
    method HandlePayment(hash: Hash, now: Time, dropFails: bool, markFails: bool)
      modifies this`pending, this`byFileID, store, onPayment
      ensures Value() == old(Value()).Take(hash)
      ensures onPayment == old(onPayment)
      ensures hash !in old(pending) ==> store.Value() == old(store.Value())
      ensures hash in old(pending) ==>
        store.Value() == Settled(old(store.Value()), hash, old(pending)[hash].fileID, now, dropFails, markFails)
      ensures dropFails ==> store.invoices == old(store.invoices)
      ensures hash in old(pending) && !dropFails ==> store.invoices == old(store.invoices) - {hash}
      ensures markFails ==> store.files == old(store.files)
      ensures hash in old(pending) && !markFails && old(pending)[hash].fileID in old(store.files) ==>
        old(pending)[hash].fileID in store.files && store.files[old(pending)[hash].fileID].paid
      ensures onPayment != null && hash in old(pending) ==>
        onPayment.Value() == old(onPayment.Value()).Pay(old(pending)[hash].fileID)
      ensures onPayment != null && hash !in old(pending) ==> onPayment.Value() == old(onPayment.Value())
    {
      if hash !in pending {
        return;
      }
      var p := pending[hash];
      pending := pending - {hash};
      byFileID := byFileID - {p.fileID};
      var _ := store.DeletePendingInvoice(hash, dropFails);
      var _ := store.UpdatePaymentStatus(p.fileID, true, now, markFails);
      if onPayment != null {
        onPayment.OnPaymentReceived(p.fileID);
      }
    }

    method LoadPendingInvoices(fails: bool)
      modifies this`pending, this`byFileID
      ensures fails ==> Value() == old(Value())
      ensures !fails ==> exists order ::
        Lists(order, store.invoices.Keys) && Value() == Load(old(Value()), store.invoices, order)
    {
      if fails {
        return;
      }
      var list := store.ListPendingInvoices();
      var i := 0;
      while i < |list|
        invariant i <= |list|
        invariant Value() == Load(old(Value()), store.invoices, list[..i])
      {
        var hash := list[i];
        var p := FromRow(hash, store.invoices[hash]);
        pending := pending[hash := p];
        byFileID := byFileID[p.fileID := p];
        i := i + 1;
        assert list[..i][..i - 1] == list[..i - 1];
      }
      assert list[..i] == list;
    }
  }

  // ---- what a load brings back ------------------------------------------------------------

  lemma {:induction false} LoadSteps(rows: map<Hash, InvoiceRow>, order: seq<Hash>)
    requires forall i | 0 <= i < |order| :: order[i] in rows
    ensures var b := Load(NO_BOOKS, rows, order);
      && (forall h :: h in b.pending <==> h in order)
      && (forall h | h in b.pending :: b.pending[h] == FromRow(h, rows[h]))
      && (forall f :: f in b.byFileID <==> exists h :: h in order && rows[h].fileID == f)
      && (forall f | f in b.byFileID ::
        exists h :: h in order && rows[h].fileID == f && b.byFileID[f] == FromRow(h, rows[h]))
  {
    if order != [] {
      var init, last := order[..|order| - 1], order[|order| - 1];
      assert order == init + [last];
      assert forall h :: h in order <==> h in init || h == last;
      LoadSteps(rows, init);
      var a, b := Load(NO_BOOKS, rows, init), Load(NO_BOOKS, rows, order);
      forall f | f in b.byFileID
        ensures exists h :: h in order && rows[h].fileID == f && b.byFileID[f] == FromRow(h, rows[h])
      {
        if f == rows[last].fileID {
          assert last in order && b.byFileID[f] == FromRow(last, rows[last]);
        } else {
          var h :| h in init && rows[h].fileID == f && a.byFileID[f] == FromRow(h, rows[h]);
          assert h in order;
        }
      }
      forall f
        ensures f in b.byFileID <==> exists h :: h in order && rows[h].fileID == f
      {
        if h :| h in order && rows[h].fileID == f {
          assert h in init || h == last;
        }
      }
    }
  }

  /** In memory exactly what is stored, whatever order the rows come in. */
  lemma LoadedIsStored(rows: map<Hash, InvoiceRow>, order: seq<Hash>)
    requires Lists(order, rows.Keys)
    ensures Load(NO_BOOKS, rows, order).pending == map h | h in rows :: FromRow(h, rows[h])
    ensures forall f :: f in Load(NO_BOOKS, rows, order).byFileID <==> exists h :: h in rows && rows[h].fileID == f
    ensures forall f | f in Load(NO_BOOKS, rows, order).byFileID ::
      exists h :: h in rows && rows[h].fileID == f && Load(NO_BOOKS, rows, order).byFileID[f] == FromRow(h, rows[h])
  {
    LoadSteps(rows, order);
  }
}
