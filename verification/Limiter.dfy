/** Unpaid files per client address: a two-way index with expiry. */
module Limiter {

  import opened Common

  type ByAddress = map<Address, map<FileId, Time>>

  /** The files of an address written back, the address dropped with its last file. */
  function Stored(m: ByAddress, ip: Address, files: map<FileId, Time>): ByAddress {
    if files == map[] then m - {ip} else m[ip := files]
  }

  /** The files left when all but those in `rest` were checked against the cutoff. */
  function Live(files: map<FileId, Time>, rest: set<FileId>, cutoff: Time): map<FileId, Time> {
    map id | id in files && (id in rest || cutoff <= files[id]) :: files[id]
  }

  /** The index after all addresses but those in `rest` were cleaned. */
  function Swept(m: ByAddress, rest: set<Address>, cutoff: Time): ByAddress {
    map ip | ip in m && (ip in rest || Live(m[ip], {}, cutoff) != map[]) ::
      if ip in rest then m[ip] else Live(m[ip], {}, cutoff)
  }

  /** The entries under those addresses that were tracked before the cutoff. */
  function Stale(m: ByAddress, rest: set<Address>, cutoff: Time): set<(Address, FileId)> {
    set ip, id | ip in m && ip !in rest && id in m[ip] && m[ip][id] < cutoff :: (ip, id)
  }

  function Names(pairs: set<(Address, FileId)>): set<FileId> {
    set p | p in pairs :: p.1
  }

  /** The two maps as a value. */
  datatype Index = Index(pendingByIP: ByAddress, fileToIP: map<FileId, Address>)
  {
    function Files(ip: Address): map<FileId, Time> {
      if ip in pendingByIP then pendingByIP[ip] else map[]
    }

    predicate Counted(ip: Address, id: FileId) {
      id in Files(ip)
    }

    function Track(ip: Address, id: FileId, now: Time): Index {
      Index(pendingByIP[ip := Files(ip)[id := now]], fileToIP[id := ip])
    }

    function Pay(id: FileId): Index {
      if id !in fileToIP then this
      else
        var ip := fileToIP[id];
        Index(if ip in pendingByIP then Stored(pendingByIP, ip, pendingByIP[ip] - {id}) else pendingByIP,
              fileToIP - {id})
    }

    /** Everything tracked before the cutoff goes, whatever address it is filed under. */
    function Cleanup(cutoff: Time): Index {
      Index(Swept(pendingByIP, {}, cutoff), fileToIP - Names(Stale(pendingByIP, {}, cutoff)))
    }

    /** No address is kept without files, and the reverse index points to a counted entry. */
    ghost predicate Valid() {
      && (forall ip | ip in pendingByIP :: pendingByIP[ip] != map[])
      && (forall id | id in fileToIP :: Counted(fileToIP[id], id))
    }
  }

  const EMPTY := Index(map[], map[])

  function Dead(files: map<FileId, Time>, rest: set<FileId>, cutoff: Time): set<FileId> {
    set id | id in files && id !in rest && files[id] < cutoff
  }

  /** Where the cleaning of `m` and `f` stands with the addresses in `rest` to go. */
  ghost predicate SweptTo(m: ByAddress, f: map<FileId, Address>, rest: set<Address>, cutoff: Time,
                          pendingByIP: ByAddress, fileToIP: map<FileId, Address>, removed: nat)
  {
    && pendingByIP == Swept(m, rest, cutoff)
    && fileToIP == f - Names(Stale(m, rest, cutoff))
    && removed == |Stale(m, rest, cutoff)|
  }

  lemma LiveNone(m: map<FileId, Time>, f: map<FileId, Address>, cutoff: Time)
    ensures Live(m, m.Keys, cutoff) == m && Dead(m, m.Keys, cutoff) == {} && f - {} == f
  {
  }

  lemma LiveOneMore(m: map<FileId, Time>, f: map<FileId, Address>, rest: set<FileId>, id: FileId, cutoff: Time)
    requires id in m && id in rest
    ensures id in Live(m, rest, cutoff) && Live(m, rest, cutoff)[id] == m[id]
    ensures Live(m, rest - {id}, cutoff)
         == if m[id] < cutoff then Live(m, rest, cutoff) - {id} else Live(m, rest, cutoff)
    ensures f - Dead(m, rest - {id}, cutoff)
         == if m[id] < cutoff then f - Dead(m, rest, cutoff) - {id} else f - Dead(m, rest, cutoff)
    ensures |Dead(m, rest - {id}, cutoff)| == |Dead(m, rest, cutoff)| + if m[id] < cutoff then 1 else 0
  {
    if m[id] < cutoff {
      assert Dead(m, rest - {id}, cutoff) == Dead(m, rest, cutoff) + {id};
    } else {
      assert Dead(m, rest - {id}, cutoff) == Dead(m, rest, cutoff);
    }
  }

  lemma SweptNone(m: ByAddress, f: map<FileId, Address>, cutoff: Time)
    ensures SweptTo(m, f, m.Keys, cutoff, m, f, 0)
  {
  }

  lemma SweptAll(m: ByAddress, f: map<FileId, Address>, cutoff: Time,
                 pendingByIP: ByAddress, fileToIP: map<FileId, Address>, removed: nat)
    requires SweptTo(m, f, {}, cutoff, pendingByIP, fileToIP, removed)
    ensures Index(pendingByIP, fileToIP) == Index(m, f).Cleanup(cutoff)
  {
  }

  lemma Less(f: map<FileId, Address>, a: set<FileId>, b: set<FileId>)
    ensures f - a - b == f - (a + b)
  {
  }

  lemma SweptStored(m: ByAddress, rest: set<Address>, ip: Address, cutoff: Time)
    requires ip in m && ip in rest
    ensures ip in Swept(m, rest, cutoff) && Swept(m, rest, cutoff)[ip] == m[ip]
    ensures Swept(m, rest - {ip}, cutoff) == Stored(Swept(m, rest, cutoff), ip, Live(m[ip], {}, cutoff))
  {
  }

  lemma {:induction false} PairsCount(ip: Address, ids: set<FileId>, pairs: set<(Address, FileId)>)
    requires forall p :: p in pairs <==> p.0 == ip && p.1 in ids
    ensures |pairs| == |ids|
  {
    if ids != {} {
      var id :| id in ids;
      assert (ip, id) in pairs;
      PairsCount(ip, ids - {id}, pairs - {(ip, id)});
    } else {
      assert pairs == {};
    }
  }

  lemma StaleOneMore(m: ByAddress, rest: set<Address>, ip: Address, cutoff: Time)
    requires ip in m && ip in rest
    ensures Names(Stale(m, rest - {ip}, cutoff)) == Names(Stale(m, rest, cutoff)) + Dead(m[ip], {}, cutoff)
    ensures |Stale(m, rest - {ip}, cutoff)| == |Stale(m, rest, cutoff)| + |Dead(m[ip], {}, cutoff)|
  {
    var before, after := Stale(m, rest, cutoff), Stale(m, rest - {ip}, cutoff);
    var dead := Dead(m[ip], {}, cutoff);
    var more := set id | id in dead :: (ip, id);
    assert after == before + more;
    PairsCount(ip, dead, more);
    forall id | id in Names(before) + dead
      ensures id in Names(after)
    {
      if id in dead {
        assert (ip, id) in after;
      }
    }
  }

  /** One address: its files are checked, then written back or dropped. */
  lemma SweptOneMore(m: ByAddress, f: map<FileId, Address>, rest: set<Address>, ip: Address, cutoff: Time,
                     pendingByIP: ByAddress, fileToIP: map<FileId, Address>, removed: nat)
    requires ip in m && ip in rest
    requires SweptTo(m, f, rest, cutoff, pendingByIP, fileToIP, removed)
    ensures ip in pendingByIP
    ensures SweptTo(m, f, rest - {ip}, cutoff,
                    Stored(pendingByIP, ip, Live(pendingByIP[ip], {}, cutoff)),
                    fileToIP - Dead(pendingByIP[ip], {}, cutoff),
                    removed + |Dead(pendingByIP[ip], {}, cutoff)|)
  {
    SweptStored(m, rest, ip, cutoff);
    StaleOneMore(m, rest, ip, cutoff);
    Less(f, Names(Stale(m, rest, cutoff)), Dead(m[ip], {}, cutoff));
  }

  class PendingFileLimiter {
    const maxPending: int
    var pendingByIP: ByAddress
    var fileToIP: map<FileId, Address>

    function Value(): Index
      reads this
    {
      Index(pendingByIP, fileToIP)
    }

    constructor (maxPending: int)
      ensures this.maxPending == maxPending && Value() == EMPTY
    {
      this.maxPending := maxPending;
      pendingByIP, fileToIP := map[], map[];
    }

    method CanUpload(ip: Address) returns (ok: bool)
      ensures ok <==> |Value().Files(ip)| < maxPending
    {
      var files := if ip in pendingByIP then pendingByIP[ip] else map[];
      return |files| < maxPending;
    }

    method PendingCount(ip: Address) returns (n: nat)
      ensures n == |Value().Files(ip)|
    {
      return if ip in pendingByIP then |pendingByIP[ip]| else 0;
    }

    method TrackPendingFile(ip: Address, fileID: FileId, now: Time)
      modifies this
      ensures Value() == old(Value()).Track(ip, fileID, now)
    {
      if ip !in pendingByIP {
        pendingByIP := pendingByIP[ip := map[]];
      }
      pendingByIP := pendingByIP[ip := pendingByIP[ip][fileID := now]];
      fileToIP := fileToIP[fileID := ip];
      assert pendingByIP == old(pendingByIP)[ip := old(Value()).Files(ip)[fileID := now]];
    }

    method OnPaymentReceived(fileID: FileId)
      modifies this
      ensures Value() == old(Value()).Pay(fileID)
    {
      if fileID !in fileToIP {
        return;
      }
      var ip := fileToIP[fileID];
      fileToIP := fileToIP - {fileID};
      if ip in pendingByIP {
        var files := pendingByIP[ip] - {fileID};
        pendingByIP := if files == map[] then pendingByIP - {ip} else pendingByIP[ip := files];
      }
    }

    /** The inner loop, over the files of one address. */
    method CleanupAddress(ip: Address, cutoff: Time) returns (removed: nat)
      requires ip in pendingByIP
      modifies this
      ensures pendingByIP == Stored(old(pendingByIP), ip, Live(old(pendingByIP)[ip], {}, cutoff))
      ensures fileToIP == old(fileToIP) - Dead(old(pendingByIP)[ip], {}, cutoff)
      ensures removed == |Dead(old(pendingByIP)[ip], {}, cutoff)|
    {
      ghost var before := pendingByIP[ip];
      var files := pendingByIP[ip];
      removed := 0;
      ghost var f := fileToIP;
      var rest := files.Keys;
      LiveNone(before, f, cutoff);
      while rest != {}
        invariant pendingByIP == old(pendingByIP) && rest <= before.Keys
        invariant files == Live(before, rest, cutoff)
        invariant fileToIP == f - Dead(before, rest, cutoff)
        invariant removed == |Dead(before, rest, cutoff)|
        decreases rest
      {
        var fileID :| fileID in rest;
        LiveOneMore(before, f, rest, fileID, cutoff);
        if files[fileID] < cutoff {
          files := files - {fileID};
          fileToIP := fileToIP - {fileID};
          removed := removed + 1;
        }
        rest := rest - {fileID};
      }
      pendingByIP := if files == map[] then pendingByIP - {ip} else pendingByIP[ip := files];
    }

    /** The outer loop, in whatever order the addresses come. */
    method CleanupAddresses(cutoff: Time) returns (removed: nat)
      modifies this
      ensures SweptTo(old(pendingByIP), old(fileToIP), {}, cutoff, pendingByIP, fileToIP, removed)
    {
      ghost var m, f := pendingByIP, fileToIP;
      removed := 0;
      var rest := pendingByIP.Keys;
      SweptNone(m, f, cutoff);
      while rest != {}
        invariant rest <= m.Keys
        invariant SweptTo(m, f, rest, cutoff, pendingByIP, fileToIP, removed)
        decreases rest
      {
        var ip :| ip in rest;
        SweptOneMore(m, f, rest, ip, cutoff, pendingByIP, fileToIP, removed);
        var count := CleanupAddress(ip, cutoff);
        rest, removed := rest - {ip}, removed + count;
      }
    }

    method CleanupExpired(maxAge: Time, now: Time) returns (removed: nat)
      modifies this
      ensures Value() == old(Value()).Cleanup(now - maxAge)
      ensures removed == |Stale(old(pendingByIP), {}, now - maxAge)|
    {
      removed := CleanupAddresses(now - maxAge);
      SweptAll(old(pendingByIP), old(fileToIP), now - maxAge, pendingByIP, fileToIP, removed);
    }
  }

  lemma {:induction false} FewerKeys(a: set<FileId>, b: set<FileId>)
    requires a <= b
    ensures |a| <= |b|
  {
    if a != {} {
      var id :| id in a;
      FewerKeys(a - {id}, b - {id});
    }
  }
}
