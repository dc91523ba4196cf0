/**
 * The limit is read when an upload starts and the file is counted when it completes. How far the count can
 * run past the limit when a client keeps at most `k` started uploads open.
 */
module Overshoot {

  import opened Common
  import opened Limiter

  datatype Desk = Desk(index: Index, started: map<Address, nat>)
  {
    function Started(ip: Address): nat {
      if ip in started then started[ip] else 0
    }

    function Load(ip: Address): nat {
      |index.Files(ip)| + Started(ip)
    }
  }

  datatype Act =
    | Init(ip: Address)
    | Complete(ip: Address, id: FileId, now: Time)
    | Abandon(ip: Address)
    | Settle(id: FileId)
    | Clean(cutoff: Time)

  /** An init is refused at the limit; a completion or an abandoned upload uses up one started upload. */
  function Step(d: Desk, a: Act, maxPending: nat): Desk {
    match a
    case Init(ip) =>
      if |d.index.Files(ip)| < maxPending then d.(started := d.started[ip := d.Started(ip) + 1]) else d
    case Complete(ip, id, now) =>
      if d.Started(ip) > 0 then Desk(d.index.Track(ip, id, now), d.started[ip := d.Started(ip) - 1]) else d
    case Abandon(ip) =>
      if d.Started(ip) > 0 then d.(started := d.started[ip := d.Started(ip) - 1]) else d
    case Settle(id) => d.(index := d.index.Pay(id))
    case Clean(cutoff) => d.(index := d.index.Cleanup(cutoff))
  }

  function Run(acts: seq<Act>, maxPending: nat): Desk {
    if acts == [] then Desk(EMPTY, map[])
    else Step(Run(acts[..|acts| - 1], maxPending), acts[|acts| - 1], maxPending)
  }

  /** At every point of the run the client has at most `k` started uploads open. */
  ghost predicate KeepsOpen(acts: seq<Act>, maxPending: nat, ip: Address, k: nat) {
    Run(acts, maxPending).Started(ip) <= k && (acts == [] || KeepsOpen(acts[..|acts| - 1], maxPending, ip, k))
  }

  lemma NeverMoreFiles(x: Index, y: Index, ip: Address)
    requires y.Files(ip).Keys <= x.Files(ip).Keys
    ensures |y.Files(ip)| <= |x.Files(ip)|
  {
    FewerKeys(y.Files(ip).Keys, x.Files(ip).Keys);
    assert |y.Files(ip)| == |y.Files(ip).Keys| && |x.Files(ip)| == |x.Files(ip).Keys|;
  }

  lemma TrackAddsOne(x: Index, ip: Address, id: FileId, now: Time, other: Address)
    ensures |x.Track(ip, id, now).Files(other)| <= |x.Files(other)| + if other == ip then 1 else 0
  {
  }

  /** Over every run: a client that keeps at most `k` uploads open stays below the limit plus `k`, those included. */
  lemma {:induction false} LoadIsBounded(acts: seq<Act>, maxPending: nat, ip: Address, k: nat)
    requires k > 0 && KeepsOpen(acts, maxPending, ip, k)
    ensures Run(acts, maxPending).Load(ip) <= maxPending - 1 + k
  {
    if acts != [] {
      LoadIsBounded(acts[..|acts| - 1], maxPending, ip, k);
      var d, a := Run(acts[..|acts| - 1], maxPending), acts[|acts| - 1];
      match a
      case Init(_) =>
      case Complete(at, id, now) => TrackAddsOne(d.index, at, id, now, ip);
      case Abandon(_) =>
      case Settle(id) => NeverMoreFiles(d.index, d.index.Pay(id), ip);
      case Clean(cutoff) => NeverMoreFiles(d.index, d.index.Cleanup(cutoff), ip);
    }
  }

  /** A client that finishes one upload before it starts the next is held to the limit itself. */
  lemma SequentialClientsStayWithinLimit(acts: seq<Act>, maxPending: nat, ip: Address)
    requires KeepsOpen(acts, maxPending, ip, 1)
    ensures |Run(acts, maxPending).index.Files(ip)| <= maxPending
  {
    LoadIsBounded(acts, maxPending, ip, 1);
  }

  // ---- the bound is reached ---------------------------------------------------------------

  /** Distinct file IDs. */
  function Name(n: nat): FileId {
    FileId(seq(n, _ => 'a'))
  }

  /** The client has files `0` to `n - 1` counted and `open` uploads started, never more than `k`. */
  ghost predicate Has(acts: seq<Act>, maxPending: nat, ip: Address, k: nat, n: nat, open: nat) {
    var d := Run(acts, maxPending);
    && KeepsOpen(acts, maxPending, ip, k) && d.Started(ip) == open && |d.index.Files(ip)| == n
    && forall id | id in d.index.Files(ip) :: |id.text| < n
  }

  lemma OneMoreInit(acts: seq<Act>, maxPending: nat, ip: Address, k: nat, n: nat, open: nat)
    requires Has(acts, maxPending, ip, k, n, open) && n < maxPending && open < k
    ensures Has(acts + [Init(ip)], maxPending, ip, k, n, open + 1)
  {
    assert (acts + [Init(ip)])[..|acts|] == acts;
  }

  lemma OneMoreFile(acts: seq<Act>, maxPending: nat, ip: Address, k: nat, n: nat, open: nat)
    requires Has(acts, maxPending, ip, k, n, open) && open > 0
    ensures Has(acts + [Complete(ip, Name(n), 0)], maxPending, ip, k, n + 1, open - 1)
  {
    var d, more := Run(acts, maxPending), acts + [Complete(ip, Name(n), 0)];
    assert more[..|acts|] == acts;
    var files, after := d.index.Files(ip), Run(more, maxPending).index.Files(ip);
    assert after == files[Name(n) := 0] && after.Keys == files.Keys + {Name(n)};
    assert |after| == |after.Keys| && |files| == |files.Keys|;
  }

  /** One upload after the other, up to `n` files. */
  lemma {:induction false} OneByOne(maxPending: nat, ip: Address, k: nat, n: nat) returns (acts: seq<Act>)
    requires n < maxPending && k > 0
    ensures Has(acts, maxPending, ip, k, n, 0)
  {
    if n == 0 {
      acts := [];
    } else {
      acts := OneByOne(maxPending, ip, k, n - 1);
      OneMoreInit(acts, maxPending, ip, k, n - 1, 0);
      acts := acts + [Init(ip)];
      OneMoreFile(acts, maxPending, ip, k, n - 1, 1);
      acts := acts + [Complete(ip, Name(n - 1), 0)];
    }
  }

  /** `open` uploads started at once, one below the limit. */
  lemma {:induction false} AllStarted(maxPending: nat, ip: Address, k: nat, open: nat) returns (acts: seq<Act>)
    requires maxPending > 0 && k > 0 && open <= k
    ensures Has(acts, maxPending, ip, k, maxPending - 1, open)
  {
    if open == 0 {
      acts := OneByOne(maxPending, ip, k, maxPending - 1);
    } else {
      acts := AllStarted(maxPending, ip, k, open - 1);
      OneMoreInit(acts, maxPending, ip, k, maxPending - 1, open - 1);
      acts := acts + [Init(ip)];
    }
  }

  /** Then `done` of the `k` complete. */
  lemma {:induction false} AllCompleted(maxPending: nat, ip: Address, k: nat, done: nat) returns (acts: seq<Act>)
    requires maxPending > 0 && k > 0 && done <= k
    ensures Has(acts, maxPending, ip, k, maxPending - 1 + done, k - done)
  {
    if done == 0 {
      acts := AllStarted(maxPending, ip, k, k);
    } else {
      acts := AllCompleted(maxPending, ip, k, done - 1);
      OneMoreFile(acts, maxPending, ip, k, maxPending - 1 + done - 1, k - done + 1);
      acts := acts + [Complete(ip, Name(maxPending - 1 + done - 1), 0)];
    }
  }

  /** For every limit and every `k` the bound is attained, by files that are all counted. */
  lemma BoundIsReached(maxPending: nat, ip: Address, k: nat) returns (acts: seq<Act>)
    requires maxPending > 0 && k > 0
    ensures KeepsOpen(acts, maxPending, ip, k)
    ensures |Run(acts, maxPending).index.Files(ip)| == maxPending - 1 + k
  {
    acts := AllCompleted(maxPending, ip, k, k);
  }
}
