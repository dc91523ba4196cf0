/** The two tables of the database and the statements run on them. */
module Store {

  import opened Common
  import opened Results

  datatype Request = Request(text: string)

  datatype FileMeta = FileMeta(size: nat, expiresAt: Time, hostDuration: Time, paid: bool, createdAt: Time)

  datatype InvoiceRow = InvoiceRow(fileID: FileId, paymentRequest: Request, amountSats: int, createdAt: Time)

  datatype Error = NotFound | Duplicate | Fault

  /** `datetime('now', d / 1000000000 seconds)`: whole seconds, rounded down. */
  function PaidExpiry(now: Time, d: Time): Time {
    (now / SECOND + d / SECOND) * SECOND
  }

  predicate Expired(m: FileMeta, now: Time) {
    m.expiresAt < now
  }

  datatype Tables = Tables(files: map<FileId, FileMeta>, invoices: map<Hash, InvoiceRow>)
  {
    /** The primary key rejects a second row. */
    function InsertFile(id: FileId, m: FileMeta): Tables {
      if id in files then this else this.(files := files[id := m])
    }

    function MarkPaid(id: FileId, now: Time): Tables {
      if id !in files then this
      else this.(files := files[id := files[id].(paid := true, expiresAt := PaidExpiry(now, files[id].hostDuration))])
    }

    function DeleteFile(id: FileId): Tables {
      this.(files := files - {id})
    }

    function SaveInvoice(hash: Hash, row: InvoiceRow): Tables {
      this.(invoices := invoices[hash := row])
    }

    function DropInvoice(hash: Hash): Tables {
      this.(invoices := invoices - {hash})
    }

    function ExpiredFiles(now: Time): set<FileId> {
      set id | id in files && Expired(files[id], now)
    }
  }

  /** All the elements of a set, each once, in some order. */
  ghost predicate Lists<T(!new)>(order: seq<T>, s: set<T>) {
    && (forall x :: x in s <==> x in order)
    && (forall i, j | 0 <= i < j < |order| :: order[i] != order[j])
  }

  /** A statement fails with `Fault` when `fails` says so, and then changes nothing. */
  class SQLiteStore {
    var files: map<FileId, FileMeta>
    var invoices: map<Hash, InvoiceRow>

    function Value(): Tables
      reads this
    {
      Tables(files, invoices)
    }

    constructor ()
      ensures Value() == Tables(map[], map[])
    {
      files, invoices := map[], map[];
    }

    method SaveFileMetadata(id: FileId, meta: FileMeta, fails: bool) returns (err: Option<Error>)
      modifies this
      ensures err.None? <==> !fails && id !in old(files)
      ensures Value() == if fails then old(Value()) else old(Value()).InsertFile(id, meta)
    {
      if fails {
        return Some(Fault);
      }
      if id in files {
        return Some(Duplicate);
      }
      files := files[id := meta];
      return None;
    }

    method GetFileMetadata(id: FileId, fails: bool) returns (r: Result<FileMeta, Error>)
      ensures r == if fails then Err(Fault) else if id in files then Ok(files[id]) else Err(NotFound)
    {
      if fails {
        return Err(Fault);
      }
      if id !in files {
        return Err(NotFound);
      }
      return Ok(files[id]);
    }

    method UpdatePaymentStatus(id: FileId, paid: bool, now: Time, fails: bool) returns (err: Option<Error>)
      modifies this
      ensures err.None? <==> !fails && id in old(files)
      ensures Value().invoices == old(invoices)
      ensures fails || id !in old(files) ==> Value() == old(Value())
      ensures !fails && paid ==> Value() == old(Value()).MarkPaid(id, now)
      ensures !fails && !paid && id in old(files) ==> files == old(files)[id := old(files)[id].(paid := false)]
    {
      if fails {
        return Some(Fault);
      }
      if id !in files {
        return Some(NotFound);
      }
      var m := files[id];
      if paid {
        files := files[id := m.(paid := true, expiresAt := PaidExpiry(now, m.hostDuration))];
      } else {
        files := files[id := m.(paid := false)];
      }
      return None;
    }

    method DeleteFileMetadata(id: FileId, fails: bool) returns (err: Option<Error>)
      modifies this
      ensures err.None? <==> !fails && id in old(files)
      ensures Value() == if fails then old(Value()) else old(Value()).DeleteFile(id)
    {
      if fails {
        return Some(Fault);
      }
      if id !in files {
        assert files - {id} == files;
        return Some(NotFound);
      }
      files := files - {id};
      return None;
    }

    /** The rows come in whatever order the database returns them. */
    method ListExpiredFiles(now: Time) returns (list: seq<FileId>)
      ensures Lists(list, Value().ExpiredFiles(now))
      ensures forall id :: id in list <==> id in files && files[id].expiresAt < now
    {
      list := [];
      var rest := files.Keys;
      while rest != {}
        invariant rest <= files.Keys
        invariant Lists(list, Value().ExpiredFiles(now) - rest)
        decreases rest
      {
        var id :| id in rest;
        rest := rest - {id};
        if files[id].expiresAt < now {
          list := list + [id];
        }
      }
      assert Value().ExpiredFiles(now) - {} == Value().ExpiredFiles(now);
    }

    method SavePendingInvoice(hash: Hash, row: InvoiceRow, fails: bool) returns (err: Option<Error>)
      modifies this
      ensures err.None? <==> !fails
      ensures Value() == if fails then old(Value()) else old(Value()).SaveInvoice(hash, row)
    {
      if fails {
        return Some(Fault);
      }
      invoices := invoices[hash := row];
      return None;
    }

    method DeletePendingInvoice(hash: Hash, fails: bool) returns (err: Option<Error>)
      modifies this
      ensures err.None? <==> !fails
      ensures Value() == if fails then old(Value()) else old(Value()).DropInvoice(hash)
    {
      if fails {
        return Some(Fault);
      }
      invoices := invoices - {hash};
      return None;
    }

    method ListPendingInvoices() returns (list: seq<Hash>)
      ensures Lists(list, invoices.Keys)
    {
      list := [];
      var rest := invoices.Keys;
      while rest != {}
        invariant rest <= invoices.Keys
        invariant Lists(list, invoices.Keys - rest)
        decreases rest
      {
        var hash :| hash in rest;
        rest, list := rest - {hash}, list + [hash];
      }
      assert invoices.Keys - {} == invoices.Keys;
    }
  }
}
