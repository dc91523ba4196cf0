/** What the two-way index means over whole runs. */
module LimiterLaws {

  import opened Common
  import opened Limiter

  datatype Op =
    | Tracked(ip: Address, id: FileId, now: Time)
    | Paid(id: FileId)
    | Cleaned(cutoff: Time)

  function Do(x: Index, op: Op): Index {
    match op
    case Tracked(ip, id, now) => x.Track(ip, id, now)
    case Paid(id) => x.Pay(id)
    case Cleaned(cutoff) => x.Cleanup(cutoff)
  }

  function Run(ops: seq<Op>): Index {
    if ops == [] then EMPTY else Do(Run(ops[..|ops| - 1]), ops[|ops| - 1])
  }

  // ---- what holds for all runs ------------------------------------------------------------

  lemma TrackKeepsValid(x: Index, ip: Address, id: FileId, now: Time)
    requires x.Valid()
    ensures x.Track(ip, id, now).Valid()
  {
    var y := x.Track(ip, id, now);
    assert id in y.Files(ip);
    forall f | f in y.fileToIP
      ensures y.Counted(y.fileToIP[f], f)
    {
      if f != id {
        assert x.Counted(x.fileToIP[f], f);
      }
    }
  }

  lemma PayKeepsValid(x: Index, id: FileId)
    requires x.Valid()
    ensures x.Pay(id).Valid()
  {
  }

  lemma CleanupFiles(x: Index, cutoff: Time, ip: Address)
    ensures x.Cleanup(cutoff).Files(ip) == Live(x.Files(ip), {}, cutoff)
  {
  }

  lemma CleanupReverse(x: Index, cutoff: Time, id: FileId)
    ensures id in x.Cleanup(cutoff).fileToIP
       <==> id in x.fileToIP && forall ip | x.Counted(ip, id) :: cutoff <= x.Files(ip)[id]
    ensures id in x.Cleanup(cutoff).fileToIP ==> x.Cleanup(cutoff).fileToIP[id] == x.fileToIP[id]
  {
    var stale := Stale(x.pendingByIP, {}, cutoff);
    if id in Names(stale) {
      var p :| p in stale && p.1 == id;
      assert x.Counted(p.0, id);
    } else {
      forall ip | x.Counted(ip, id)
        ensures cutoff <= x.Files(ip)[id]
      {
        assert (ip, id) !in stale;
      }
    }
  }

  lemma CleanupKeepsValid(x: Index, cutoff: Time)
    requires x.Valid()
    ensures x.Cleanup(cutoff).Valid()
  {
    var y := x.Cleanup(cutoff);
    forall id | id in y.fileToIP
      ensures y.Counted(y.fileToIP[id], id)
    {
      CleanupReverse(x, cutoff, id);
      CleanupFiles(x, cutoff, x.fileToIP[id]);
      assert x.Counted(x.fileToIP[id], id);
    }
  }

  /** Whatever is tracked from wherever: no address without files, no reverse entry that is not counted. */
  lemma {:induction false} AlwaysValid(ops: seq<Op>)
    ensures Run(ops).Valid()
  {
    if ops != [] {
      var x, op := Run(ops[..|ops| - 1]), ops[|ops| - 1];
      AlwaysValid(ops[..|ops| - 1]);
      match op
      case Tracked(ip, id, now) => TrackKeepsValid(x, ip, id, now);
      case Paid(id) => PayKeepsValid(x, id);
      case Cleaned(cutoff) => CleanupKeepsValid(x, cutoff);
    }
  }

  // ---- one relation, when no file is at two addresses ---------------------------------------

  function Since(m: map<FileId, (Address, Time)>, cutoff: Time): map<FileId, (Address, Time)> {
    map id | id in m && cutoff <= m[id].1 :: m[id]
  }

  /** The plain relation of files, addresses and times that the index stands for. */
  function Meaning(ops: seq<Op>): map<FileId, (Address, Time)> {
    if ops == [] then map[]
    else
      var m := Meaning(ops[..|ops| - 1]);
      match ops[|ops| - 1]
      case Tracked(ip, id, now) => m[id := (ip, now)]
      case Paid(id) => m - {id}
      case Cleaned(cutoff) => Since(m, cutoff)
  }

  predicate StaysHome(m: map<FileId, (Address, Time)>, ip: Address, id: FileId) {
    id in m ==> m[id].0 == ip
  }

  /** No file is tracked while it stands in the relation at another address. */
  ghost predicate OneAddressEach(ops: seq<Op>) {
    forall i | 0 <= i < |ops| && ops[i].Tracked? :: StaysHome(Meaning(ops[..i]), ops[i].ip, ops[i].id)
  }

  /** The index and the relation say the same. */
  ghost predicate Represents(x: Index, m: map<FileId, (Address, Time)>) {
    && x.Valid()
    && (forall ip, id :: x.Counted(ip, id) <==> id in m && m[id].0 == ip)
    && (forall ip, id | x.Counted(ip, id) :: x.Files(ip)[id] == m[id].1)
    && (forall id :: id in x.fileToIP <==> id in m)
    && (forall id | id in m :: x.fileToIP[id] == m[id].0)
  }

  lemma TrackRepresents(x: Index, m: map<FileId, (Address, Time)>, ip: Address, id: FileId, now: Time)
    requires Represents(x, m) && StaysHome(m, ip, id)
    ensures Represents(x.Track(ip, id, now), m[id := (ip, now)])
  {
    TrackKeepsValid(x, ip, id, now);
    var y, n := x.Track(ip, id, now), m[id := (ip, now)];
    forall a, f
      ensures y.Counted(a, f) <==> f in n && n[f].0 == a
      ensures y.Counted(a, f) ==> y.Files(a)[f] == n[f].1
    {
      assert x.Counted(a, f) <==> f in m && m[f].0 == a;
    }
  }

  lemma MovedIsNotRepresented(x: Index, m: map<FileId, (Address, Time)>, ip: Address, id: FileId, now: Time)
    requires Represents(x, m) && !StaysHome(m, ip, id)
    ensures !Represents(x.Track(ip, id, now), m[id := (ip, now)])
  {
    assert x.Counted(m[id].0, id);
    assert x.Track(ip, id, now).Counted(m[id].0, id);
  }

  lemma PayRepresents(x: Index, m: map<FileId, (Address, Time)>, id: FileId)
    requires Represents(x, m)
    ensures Represents(x.Pay(id), m - {id})
  {
    PayKeepsValid(x, id);
    var y, n := x.Pay(id), m - {id};
    forall a, f
      ensures y.Counted(a, f) <==> f in n && n[f].0 == a
      ensures y.Counted(a, f) ==> y.Files(a)[f] == n[f].1
    {
      assert x.Counted(a, f) <==> f in m && m[f].0 == a;
    }
  }

  lemma CleanupRepresents(x: Index, m: map<FileId, (Address, Time)>, cutoff: Time)
    requires Represents(x, m)
    ensures Represents(x.Cleanup(cutoff), Since(m, cutoff))
  {
    CleanupKeepsValid(x, cutoff);
    var y, n := x.Cleanup(cutoff), Since(m, cutoff);
    forall a, f
      ensures y.Counted(a, f) <==> f in n && n[f].0 == a
      ensures y.Counted(a, f) ==> y.Files(a)[f] == n[f].1
    {
      CleanupFiles(x, cutoff, a);
      assert x.Counted(a, f) <==> f in m && m[f].0 == a;
    }
    forall f
      ensures f in y.fileToIP <==> f in n
      ensures f in n ==> y.fileToIP[f] == n[f].0
    {
      CleanupReverse(x, cutoff, f);
      if f in m {
        assert x.Counted(m[f].0, f);
      }
    }
  }

  lemma {:induction false} PrefixRepresents(ops: seq<Op>, n: nat)
    requires n <= |ops| && OneAddressEach(ops)
    ensures Represents(Run(ops[..n]), Meaning(ops[..n]))
  {
    if n > 0 {
      PrefixRepresents(ops, n - 1);
      var rest := ops[..n - 1];
      assert ops[..n][..n - 1] == rest;
      match ops[n - 1]
      case Tracked(ip, id, now) => TrackRepresents(Run(rest), Meaning(rest), ip, id, now);
      case Paid(id) => PayRepresents(Run(rest), Meaning(rest), id);
      case Cleaned(cutoff) => CleanupRepresents(Run(rest), Meaning(rest), cutoff);
    }
  }

  /** Throughout a run the two maps are one relation exactly when no file is tracked at a second address. */
  lemma IndexIsRelation(ops: seq<Op>)
    ensures (forall n | 0 <= n <= |ops| :: Represents(Run(ops[..n]), Meaning(ops[..n]))) <==> OneAddressEach(ops)
  {
    if OneAddressEach(ops) {
      forall n | 0 <= n <= |ops|
        ensures Represents(Run(ops[..n]), Meaning(ops[..n]))
      {
        PrefixRepresents(ops, n);
      }
    } else {
      var i :| 0 <= i < |ops| && ops[i].Tracked? && !StaysHome(Meaning(ops[..i]), ops[i].ip, ops[i].id);
      assert ops[..i + 1][..i] == ops[..i];
      if Represents(Run(ops[..i]), Meaning(ops[..i])) {
        MovedIsNotRepresented(Run(ops[..i]), Meaning(ops[..i]), ops[i].ip, ops[i].id, ops[i].now);
        assert !Represents(Run(ops[..i + 1]), Meaning(ops[..i + 1]));
      }
    }
  }

  /** Where the relation has a file. */
  function HomeIn(m: map<FileId, (Address, Time)>, id: FileId): Address {
    if id in m then m[id].0 else Address("")
  }

  /** The number a client is held to is the number of its files in the relation. */
  lemma CountIsExact(ops: seq<Op>, ip: Address)
    requires OneAddressEach(ops)
    ensures Run(ops).Files(ip).Keys == set id | id in Meaning(ops) && Meaning(ops)[id].0 == ip
    ensures |Run(ops).Files(ip)| == |set id | id in Meaning(ops) && Meaning(ops)[id].0 == ip|
  {
    PrefixRepresents(ops, |ops|);
    assert ops[..|ops|] == ops;
    var x, m := Run(ops), Meaning(ops);
    forall id
      ensures id in x.Files(ip).Keys <==> id in m && m[id].0 == ip
    {
      assert x.Counted(ip, id) <==> id in m && m[id].0 == ip;
    }
    assert x.Files(ip).Keys == set id | id in m && m[id].0 == ip;
  }

  lemma {:induction false} HomesCount(ids: set<FileId>, pairs: set<(Address, FileId)>, home: FileId -> Address)
    requires forall ip, id :: (ip, id) in pairs <==> ip == home(id) && id in ids
    ensures |pairs| == |ids|
  {
    if ids == {} {
      assert forall p | p in pairs :: p == (p.0, p.1) && p.1 in ids;
      assert pairs == {};
    } else {
      var id :| id in ids;
      HomesCount(ids - {id}, pairs - {(home(id), id)}, home);
      assert (home(id), id) in pairs;
    }
  }

  /** What `CleanupExpired` returns is the number of files that leave the relation. */
  lemma RemovedIsExact(ops: seq<Op>, cutoff: Time)
    requires OneAddressEach(ops)
    ensures |Stale(Run(ops).pendingByIP, {}, cutoff)| == |Meaning(ops).Keys - Since(Meaning(ops), cutoff).Keys|
  {
    PrefixRepresents(ops, |ops|);
    assert ops[..|ops|] == ops;
    var x, m := Run(ops), Meaning(ops);
    var gone, stale := m.Keys - Since(m, cutoff).Keys, Stale(x.pendingByIP, {}, cutoff);
    forall ip, id
      ensures (ip, id) in stale <==> ip == HomeIn(m, id) && id in gone
    {
      assert x.Counted(ip, id) <==> id in m && m[id].0 == ip;
    }
    HomesCount(gone, stale, id => HomeIn(m, id));
  }

  // ---- what a payment leaves --------------------------------------------------------------

  lemma PayRemoves(x: Index, id: FileId, ip: Address)
    ensures x.Pay(id).Counted(ip, id) <==> x.Counted(ip, id) && !(id in x.fileToIP && x.fileToIP[id] == ip)
  {
  }

  /**
   * A payment leaves its file counted somewhere exactly if it was counted at another address than the one the
   * reverse map gives, or was counted and is missing from that map.
   */
  lemma PayLeavesIffElsewhere(x: Index, id: FileId)
    ensures (exists ip :: x.Pay(id).Counted(ip, id))
       <==> exists ip :: x.Counted(ip, id) && !(id in x.fileToIP && x.fileToIP[id] == ip)
  {
    forall ip
      ensures x.Pay(id).Counted(ip, id) <==> x.Counted(ip, id) && !(id in x.fileToIP && x.fileToIP[id] == ip)
    {
      PayRemoves(x, id, ip);
    }
  }

  /** Tracked from two addresses, a file stays counted at the first one after it is paid. */
  lemma TwoHomesLeaveATrace(ip1: Address, ip2: Address, id: FileId, now: Time)
    requires ip1 != ip2
    ensures Run([Tracked(ip1, id, now), Tracked(ip2, id, now), Paid(id)]).Counted(ip1, id)
    ensures id !in Run([Tracked(ip1, id, now), Tracked(ip2, id, now), Paid(id)]).fileToIP
  {
    var a, b, c := Tracked(ip1, id, now), Tracked(ip2, id, now), Paid(id);
    assert [a, b, c][..2] == [a, b] && [a, b][..1] == [a] && [a][..0] == [];
    var x := EMPTY.Track(ip1, id, now);
    assert Run([a]) == x;
    var y := x.Track(ip2, id, now);
    assert Run([a, b]) == y;
    assert id in y.Files(ip1) && y.fileToIP[id] == ip2;
    assert Run([a, b, c]) == y.Pay(id);
  }
}
