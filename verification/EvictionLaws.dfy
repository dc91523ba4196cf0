/**
 * Runs of the rate limiter with requests in flight: a request first gets its bucket, then asks it. A cleanup
 * may come anywhere, also between the two.
 */
module EvictionLaws {

  import opened Common
  import opened Results
  import opened Eviction

  /** `gen` tells apart the buckets an address has had. */
  datatype Entry = Entry(gen: nat, bucket: Bucket, lastSeen: int)

  datatype Flight = Flight(ip: Address, gen: nat, at: Time)

  /** `orphans` are evicted buckets that requests in flight may still hold. */
  datatype Pool = Pool(
    entries: map<Address, Entry>, orphans: map<(Address, nat), Bucket>, flights: map<nat, Flight>, next: nat)

  datatype Event =
    | Look(r: nat, ip: Address, now: Time)
    | Use(r: nat, now: Time)
    | Clean(now: Time)

  function DoLook(c: Config, p: Pool, r: nat, ip: Address, now: Time): Pool {
    if r in p.flights then p
    else if ip in p.entries then
      p.(entries := p.entries[ip := p.entries[ip].(lastSeen := now / SECOND)],
         flights := p.flights[r := Flight(ip, p.entries[ip].gen, now)])
    else
      p.(entries := p.entries[ip := Entry(p.next, Bucket(c.burst as real, now), now / SECOND)],
         flights := p.flights[r := Flight(ip, p.next, now)], next := p.next + 1)
  }

  predicate Current(p: Pool, f: Flight) {
    f.ip in p.entries && p.entries[f.ip].gen == f.gen
  }

  /** The request asks the bucket it got, filed under its address or not. */
  function DoUse(c: Config, p: Pool, r: nat, now: Time): (Pool, Option<bool>) {
    if r !in p.flights then (p, None)
    else
      var f, q := p.flights[r], p.(flights := p.flights - {r});
      if Current(p, f) then
        var e := p.entries[f.ip];
        var a := Allowed(c, e.bucket, now);
        (q.(entries := p.entries[f.ip := e.(bucket := a.1)]), Some(a.0))
      else if (f.ip, f.gen) in p.orphans then
        var a := Allowed(c, p.orphans[(f.ip, f.gen)], now);
        (q.(orphans := p.orphans[(f.ip, f.gen) := a.1]), Some(a.0))
      else (q, None)
  }

  function Stale(c: Config, p: Pool, now: Time): set<Address> {
    set ip | ip in p.entries && Idle(c, p.entries[ip].lastSeen, now)
  }

  function DoClean(c: Config, p: Pool, now: Time): Pool {
    var stale := Stale(c, p, now);
    p.(entries := p.entries - stale,
       orphans := p.orphans + map ip | ip in stale :: (ip, p.entries[ip].gen) := p.entries[ip].bucket)
  }

  // ---- the pool is what the objects hold --------------------------------------------------

  /** The pool's entries as `Eviction.IpRateLimiter` keeps them. */
  function PoolEntries(p: Pool): map<Address, Kept> {
    map ip | ip in p.entries :: Kept(p.entries[ip].bucket, p.entries[ip].lastSeen)
  }

  lemma LookIsLooked(c: Config, p: Pool, r: nat, ip: Address, now: Time)
    requires r !in p.flights
    ensures PoolEntries(DoLook(c, p, r, ip, now)) == Looked(c, PoolEntries(p), ip, now)
  {
  }

  lemma UseIsUsed(c: Config, p: Pool, r: nat, now: Time)
    requires r in p.flights && Current(p, p.flights[r])
    ensures PoolEntries(DoUse(c, p, r, now).0) == Used(c, PoolEntries(p), p.flights[r].ip, now)
    ensures DoUse(c, p, r, now).1 == Some(Allowed(c, PoolEntries(p)[p.flights[r].ip].bucket, now).0)
  {
  }

  lemma CleanIsCleaned(c: Config, p: Pool, now: Time)
    ensures PoolEntries(DoClean(c, p, now)) == Cleaned(c, PoolEntries(p), now)
  {
  }

  // ---- runs -------------------------------------------------------------------------------

  /** One event, with or without eviction, and the decision it makes. */
  function Do(c: Config, p: Pool, e: Event, evicts: bool): (Pool, Option<bool>) {
    match e
    case Look(r, ip, now) => (DoLook(c, p, r, ip, now), None)
    case Use(r, now) => DoUse(c, p, r, now)
    case Clean(now) => (if evicts then DoClean(c, p, now) else p, None)
  }

  /** The pool after a run, and the decisions made in it. */
  function Run(c: Config, events: seq<Event>, evicts: bool): (r: (Pool, seq<Option<bool>>))
    ensures |r.1| == |events|
  {
    if events == [] then (Pool(map[], map[], map[], 0), [])
    else
      var before := Run(c, events[..|events| - 1], evicts);
      var after := Do(c, before.0, events[|events| - 1], evicts);
      (after.0, before.1 + [after.1])
  }

  /** A limiter that lets requests pass, and a delay within its time to live. */
  ghost predicate Sane(c: Config, delay: Time) {
    c.rate >= 0.0 && c.burst >= 1 && 0 <= delay <= c.ttl
  }

  /** In the shortest time from its last use to its removal, an empty bucket fills up. */
  ghost predicate LongEnough(c: Config, delay: Time) {
    Earned(c, Bucket(0.0, 0), c.ttl + 1 - delay) >= c.burst as real
  }

  /** The clock does not go back, and no request in flight is older than `delay`. */
  ghost predicate Timely(c: Config, events: seq<Event>, delay: Time) {
    events == [] ||
    var init, now := events[..|events| - 1], events[|events| - 1].now;
    && Timely(c, init, delay)
    && (init != [] ==> init[|init| - 1].now <= now)
    && (forall r | r in Run(c, init, false).0.flights :: now <= Run(c, init, false).0.flights[r].at + delay)
  }

  // ---- full buckets -----------------------------------------------------------------------

  ghost predicate Full(c: Config, b: Bucket, now: Time) {
    b.last <= now && Earned(c, b, now) >= c.burst as real
  }

  /** Buckets that give the same answers from now on. */
  ghost predicate Alike(c: Config, a: Bucket, b: Bucket, now: Time) {
    a == b || (Full(c, a, now) && Full(c, b, now))
  }

  lemma Grows(x: int, y: int, rate: real)
    requires x <= y && rate >= 0.0
    ensures x as real * rate <= y as real * rate
  {
    assert y as real * rate - x as real * rate == (y - x) as real * rate;
  }

  lemma StaysFull(c: Config, b: Bucket, now: Time, later: Time)
    requires c.rate >= 0.0 && now <= later && Full(c, b, now)
    ensures Full(c, b, later)
  {
    Grows(now - b.last, later - b.last, c.rate);
  }

  lemma LaterSecond(a: Time, b: Time)
    requires a / SECOND < b / SECOND
    ensures a < b
  {
  }

  /** An entry is dropped only after its bucket has filled up, truncation to seconds included. */
  lemma DroppedIsFull(c: Config, e: Entry, now: Time, delay: Time)
    requires Sane(c, delay) && LongEnough(c, delay) && Idle(c, e.lastSeen, now)
    requires e.bucket.tokens >= 0.0 && e.bucket.last <= now && (e.bucket.last - delay) / SECOND <= e.lastSeen
    ensures Full(c, e.bucket, now)
  {
    LaterSecond(e.bucket.last - delay, now - c.ttl);
    Grows(c.ttl + 1 - delay, now - e.bucket.last, c.rate);
  }

  lemma SecondsGrow(a: Time, b: Time)
    requires a <= b
    ensures a / SECOND <= b / SECOND
  {
  }

  // ---- with and without eviction ----------------------------------------------------------

  /** The entry's bucket is in range and was not used later than `lastSeen` allows. */
  ghost predicate Sound(c: Config, e: Entry, now: Time, delay: Time) {
    && e.bucket.tokens >= 0.0 && e.bucket.last <= now
    && (e.bucket.last - delay) / SECOND <= e.lastSeen <= now / SECOND
  }

  ghost predicate FlightMatches(p: Pool, q: Pool, r: nat, now: Time)
    requires r in p.flights && r in q.flights
  {
    var f, g := p.flights[r], q.flights[r];
    && f.ip == g.ip && f.at == g.at && f.at <= now
    && Current(p, f) && Current(q, g) && f.at / SECOND <= p.entries[f.ip].lastSeen
  }

  /** `p` evicts, `q` does not. */
  ghost predicate Matches(c: Config, p: Pool, q: Pool, now: Time, delay: Time) {
    && p.flights.Keys == q.flights.Keys
    && (forall r | r in p.flights :: FlightMatches(p, q, r, now))
    && (forall ip | ip in p.entries :: ip in q.entries && Sound(c, p.entries[ip], now, delay)
                                    && Alike(c, p.entries[ip].bucket, q.entries[ip].bucket, now))
    && (forall ip | ip in q.entries && ip !in p.entries :: Full(c, q.entries[ip].bucket, now))
  }

  lemma TimePasses(c: Config, p: Pool, q: Pool, now: Time, later: Time, delay: Time)
    requires c.rate >= 0.0 && now <= later && Matches(c, p, q, now, delay)
    ensures Matches(c, p, q, later, delay)
  {
    SecondsGrow(now, later);
    forall b: Bucket | Full(c, b, now)
      ensures Full(c, b, later)
    {
      StaysFull(c, b, now, later);
    }
    forall r | r in p.flights
      ensures FlightMatches(p, q, r, later)
    {
      assert FlightMatches(p, q, r, now);
    }
  }

  lemma NewEntry(c: Config, gen: nat, now: Time, delay: Time)
    requires Sane(c, delay) && LongEnough(c, delay)
    ensures Sound(c, Entry(gen, Bucket(c.burst as real, now), now / SECOND), now, delay)
    ensures Full(c, Bucket(c.burst as real, now), now)
  {
    SecondsGrow(now - delay, now);
  }

  lemma LookKeepsFlight(c: Config, p: Pool, q: Pool, r: nat, ip: Address, now: Time, i: nat)
    requires r !in p.flights && r !in q.flights && i in p.flights && i in q.flights && FlightMatches(p, q, i, now)
    ensures FlightMatches(DoLook(c, p, r, ip, now), DoLook(c, q, r, ip, now), i, now)
  {
    SecondsGrow(p.flights[i].at, now);
  }

  lemma LookFilesFlight(c: Config, p: Pool, r: nat, ip: Address, now: Time)
    requires r !in p.flights
    ensures var p' := DoLook(c, p, r, ip, now);
      && p'.flights.Keys == p.flights.Keys + {r} && Current(p', p'.flights[r])
      && p'.flights[r].ip == ip && p'.flights[r].at == now && p'.entries[ip].lastSeen == now / SECOND
  {
  }

  lemma LookFlights(c: Config, p: Pool, q: Pool, r: nat, ip: Address, now: Time, delay: Time)
    requires Matches(c, p, q, now, delay) && r !in p.flights
    ensures var p', q' := DoLook(c, p, r, ip, now), DoLook(c, q, r, ip, now);
      p'.flights.Keys == q'.flights.Keys && forall i | i in p'.flights :: FlightMatches(p', q', i, now)
  {
    LookFilesFlight(c, p, r, ip, now);
    LookFilesFlight(c, q, r, ip, now);
    var p', q' := DoLook(c, p, r, ip, now), DoLook(c, q, r, ip, now);
    forall i | i in p'.flights
      ensures FlightMatches(p', q', i, now)
    {
      if i != r {
        LookKeepsFlight(c, p, q, r, ip, now, i);
      }
    }
  }

  lemma LookMatches(c: Config, p: Pool, q: Pool, r: nat, ip: Address, now: Time, delay: Time)
    requires Sane(c, delay) && LongEnough(c, delay) && Matches(c, p, q, now, delay)
    ensures Matches(c, DoLook(c, p, r, ip, now), DoLook(c, q, r, ip, now), now, delay)
  {
    if r !in p.flights {
      LookFlights(c, p, q, r, ip, now, delay);
      NewEntry(c, p.next, now, delay);
      var p', q' := DoLook(c, p, r, ip, now), DoLook(c, q, r, ip, now);
      forall i | i in p'.entries
        ensures i in q'.entries && Sound(c, p'.entries[i], now, delay)
        ensures Alike(c, p'.entries[i].bucket, q'.entries[i].bucket, now)
      {
        assert i in p.entries ==> Sound(c, p.entries[i], now, delay);
      }
    }
  }

  lemma UseMatches(c: Config, p: Pool, q: Pool, r: nat, now: Time, delay: Time)
    requires Sane(c, delay) && LongEnough(c, delay) && Matches(c, p, q, now, delay)
    requires r in p.flights ==> now <= p.flights[r].at + delay
    ensures Matches(c, DoUse(c, p, r, now).0, DoUse(c, q, r, now).0, now, delay)
    ensures DoUse(c, p, r, now).1 == DoUse(c, q, r, now).1
  {
    if r in p.flights {
      assert FlightMatches(p, q, r, now);
      var f := p.flights[r];
      SecondsGrow(now - delay, f.at);
      var p', q' := DoUse(c, p, r, now).0, DoUse(c, q, r, now).0;
      forall i | i in p'.flights
        ensures FlightMatches(p', q', i, now)
      {
        assert FlightMatches(p, q, i, now);
      }
    }
  }

  /** No bucket a request still holds is evicted, and what is evicted is full. */
  lemma CleanMatches(c: Config, p: Pool, q: Pool, now: Time, delay: Time)
    requires Sane(c, delay) && LongEnough(c, delay) && Matches(c, p, q, now, delay)
    requires forall r | r in p.flights :: now <= p.flights[r].at + delay
    ensures Matches(c, DoClean(c, p, now), q, now, delay)
  {
    var p' := DoClean(c, p, now);
    forall r | r in p'.flights
      ensures FlightMatches(p', q, r, now)
    {
      assert FlightMatches(p, q, r, now);
      SecondsGrow(now - c.ttl, p.flights[r].at);
    }
    forall ip | ip in q.entries && ip !in p'.entries
      ensures Full(c, q.entries[ip].bucket, now)
    {
      if ip in p.entries {
        DroppedIsFull(c, p.entries[ip], now, delay);
      }
    }
  }

  ghost predicate Agrees(c: Config, events: seq<Event>, delay: Time) {
    && Run(c, events, true).1 == Run(c, events, false).1
    && (events != [] ==> Matches(c, Run(c, events, true).0, Run(c, events, false).0, events[|events| - 1].now, delay))
    && (events == [] ==> Run(c, events, true).0 == Run(c, events, false).0 == Pool(map[], map[], map[], 0))
  }

  /**
   * Over every timely run, cleanups anywhere: all decisions are those of a limiter that keeps every bucket,
   * provided a bucket refills in the time to live less the longest delay of a request.
   */
  lemma {:induction false} EvictionIsUnobservable(c: Config, events: seq<Event>, delay: Time)
    requires Sane(c, delay) && LongEnough(c, delay) && Timely(c, events, delay)
    ensures Run(c, events, true).1 == Run(c, events, false).1
    ensures Agrees(c, events, delay)
  {
    if events != [] {
      var init, e := events[..|events| - 1], events[|events| - 1];
      EvictionIsUnobservable(c, init, delay);
      var p, q := Run(c, init, true).0, Run(c, init, false).0;
      if init != [] {
        TimePasses(c, p, q, init[|init| - 1].now, e.now, delay);
      }
      match e
      case Look(r, ip, now) => LookMatches(c, p, q, r, ip, now, delay);
      case Use(r, now) =>
        if r in p.flights {
          assert FlightMatches(p, q, r, now);
        }
        UseMatches(c, p, q, r, now, delay);
      case Clean(now) =>
        forall r | r in p.flights
          ensures now <= p.flights[r].at + delay
        {
          assert FlightMatches(p, q, r, now);
        }
        CleanMatches(c, p, q, now, delay);
    }
  }

  // ---- how long is long enough ------------------------------------------------------------

  const TEN_MINUTES: Time := 600_000_000_000

  /** 10 requests a second in bursts of 20, 10 uploads a minute in bursts of 3; both kept for 10 minutes. */
  const GENERAL := Config(10.0 / 1_000_000_000.0, 20, TEN_MINUTES)
  const UPLOADS := Config(10.0 / 60_000_000_000.0, 3, TEN_MINUTES)

  lemma DefaultsAreLongEnough(delay: Time)
    requires 0 <= delay <= 540_000_000_000
    ensures Sane(GENERAL, delay) && LongEnough(GENERAL, delay)
    ensures Sane(UPLOADS, delay) && LongEnough(UPLOADS, delay)
  {
    Grows(60_000_000_000, TEN_MINUTES + 1 - delay, GENERAL.rate);
    Grows(60_000_000_000, TEN_MINUTES + 1 - delay, UPLOADS.rate);
  }

  /** An address seen within the time to live stays; one not seen for it and a second more goes. */
  lemma GoesAfterTimeToLive(c: Config, v: map<Address, Kept>, ip: Address, seen: Time, now: Time)
    ensures now <= seen + c.ttl ==> ip in Cleaned(c, Looked(c, v, ip, seen), now)
    ensures seen + c.ttl + 1_000_000_000 <= now ==> ip !in Cleaned(c, Looked(c, v, ip, seen), now)
  {
  }

  // ---- a shorter time to live shows -------------------------------------------------------

  lemma RunSnoc(c: Config, events: seq<Event>, e: Event, evicts: bool)
    ensures Run(c, events + [e], evicts).0 == Do(c, Run(c, events, evicts).0, e, evicts).0
    ensures Run(c, events + [e], evicts).1 == Run(c, events, evicts).1 + [Do(c, Run(c, events, evicts).0, e, evicts).1]
  {
    assert (events + [e])[..|events|] == events;
  }

  lemma TimelySnoc(c: Config, events: seq<Event>, e: Event, delay: Time)
    requires Timely(c, events, delay) && (events != [] ==> events[|events| - 1].now <= e.now)
    requires forall r | r in Run(c, events, false).0.flights :: e.now <= Run(c, events, false).0.flights[r].at + delay
    ensures Timely(c, events + [e], delay)
  {
    assert (events + [e])[..|events|] == events;
  }

  /** The last nanosecond of second 0: an address first seen here is removed after `ttl + 1` nanoseconds. */
  const LATE: Time := SECOND - 1

  predicate From(lo: nat, r: nat) {
    lo <= r
  }

  /** Requests `lo` to `hi - 1` in flight at once. */
  function InFlight(ip: Address, lo: nat, hi: nat): map<nat, Flight> {
    map r: nat | r < hi && From(lo, r) :: Flight(ip, 0, LATE)
  }

  /** `n` requests look up the bucket, all at once. */
  function Looks(ip: Address, n: nat): seq<Event> {
    if n == 0 then [] else Looks(ip, n - 1) + [Look(n - 1, ip, LATE)]
  }

  lemma FirstLook(c: Config, ip: Address)
    ensures DoLook(c, Pool(map[], map[], map[], 0), 0, ip, LATE)
         == Pool(map[ip := Entry(0, Bucket(c.burst as real, LATE), 0)], map[], InFlight(ip, 0, 1), 1)
  {
    assert map[][0 := Flight(ip, 0, LATE)] == InFlight(ip, 0, 1);
  }

  lemma NextLook(c: Config, ip: Address, b: Bucket, n: nat)
    ensures DoLook(c, Pool(map[ip := Entry(0, b, 0)], map[], InFlight(ip, 0, n), 1), n, ip, LATE)
         == Pool(map[ip := Entry(0, b, 0)], map[], InFlight(ip, 0, n + 1), 1)
  {
    assert InFlight(ip, 0, n)[n := Flight(ip, 0, LATE)] == InFlight(ip, 0, n + 1);
    assert map[ip := Entry(0, b, 0)][ip := Entry(0, b, 0)] == map[ip := Entry(0, b, 0)];
  }

  lemma {:induction false} LooksGive(c: Config, ip: Address, n: nat, evicts: bool)
    requires n > 0
    ensures Run(c, Looks(ip, n), evicts).0
         == Pool(map[ip := Entry(0, Bucket(c.burst as real, LATE), 0)], map[], InFlight(ip, 0, n), 1)
  {
    RunSnoc(c, Looks(ip, n - 1), Look(n - 1, ip, LATE), evicts);
    if n > 1 {
      LooksGive(c, ip, n - 1, evicts);
      NextLook(c, ip, Bucket(c.burst as real, LATE), n - 1);
    } else {
      FirstLook(c, ip);
    }
  }

  ghost predicate EndsBy(events: seq<Event>, now: Time) {
    events != [] ==> events[|events| - 1].now <= now
  }

  lemma NextLookTimely(c: Config, ip: Address, delay: nat, n: nat)
    requires Timely(c, Looks(ip, n), delay) && EndsBy(Looks(ip, n), LATE)
    ensures Timely(c, Looks(ip, n) + [Look(n, ip, LATE)], delay)
  {
    if n > 0 {
      LooksGive(c, ip, n, false);
      var flying := InFlight(ip, 0, n);
      assert forall r | r in flying :: flying[r].at == LATE;
    }
    TimelySnoc(c, Looks(ip, n), Look(n, ip, LATE), delay);
  }

  lemma {:induction false} LooksTimely(c: Config, ip: Address, delay: nat, n: nat)
    ensures Timely(c, Looks(ip, n), delay) && EndsBy(Looks(ip, n), LATE)
  {
    if n > 0 {
      var looks := Looks(ip, n - 1) + [Look(n - 1, ip, LATE)];
      LooksTimely(c, ip, delay, n - 1);
      NextLookTimely(c, ip, delay, n - 1);
      assert Looks(ip, n) == looks && looks[|looks| - 1].now == LATE;
    }
  }

  /** The bucket after `k` of them took a token at the longest delay. */
  function Drained(c: Config, delay: Time, k: nat): Bucket {
    if k == 0 then Bucket(c.burst as real, LATE) else Bucket((c.burst - k) as real, LATE + delay)
  }

  lemma Drains(c: Config, delay: Time, k: nat)
    requires Sane(c, delay) && k < c.burst
    ensures Allowed(c, Drained(c, delay, k), LATE + delay) == (true, Drained(c, delay, k + 1))
  {
    Grows(0, delay, c.rate);
  }

  /** `k` of as many requests as the burst allows are answered, all late and all at once. */
  function Uses(ip: Address, burst: nat, delay: Time, k: nat): seq<Event> {
    if k == 0 then Looks(ip, burst) else Uses(ip, burst, delay, k - 1) + [Use(k - 1, LATE + delay)]
  }

  lemma NextUse(c: Config, ip: Address, delay: Time, k: nat)
    requires Sane(c, delay) && k < c.burst
    ensures var p := Pool(map[ip := Entry(0, Drained(c, delay, k), 0)], map[], InFlight(ip, k, c.burst), 1);
      DoUse(c, p, k, LATE + delay).0 ==
      Pool(map[ip := Entry(0, Drained(c, delay, k + 1), 0)], map[], InFlight(ip, k + 1, c.burst), 1)
  {
    Drains(c, delay, k);
    assert InFlight(ip, k, c.burst) - {k} == InFlight(ip, k + 1, c.burst);
    var e := Entry(0, Drained(c, delay, k + 1), 0);
    assert map[ip := Entry(0, Drained(c, delay, k), 0)][ip := e] == map[ip := e];
  }

  lemma {:induction false} UsesGive(c: Config, ip: Address, delay: Time, k: nat, evicts: bool)
    requires Sane(c, delay) && k <= c.burst
    ensures Run(c, Uses(ip, c.burst, delay, k), evicts).0
         == Pool(map[ip := Entry(0, Drained(c, delay, k), 0)], map[], InFlight(ip, k, c.burst), 1)
  {
    if k == 0 {
      LooksGive(c, ip, c.burst, evicts);
    } else {
      UsesGive(c, ip, delay, k - 1, evicts);
      RunSnoc(c, Uses(ip, c.burst, delay, k - 1), Use(k - 1, LATE + delay), evicts);
      NextUse(c, ip, delay, k - 1);
    }
  }

  ghost predicate UsesInTime(c: Config, ip: Address, delay: Time, k: nat) {
    Timely(c, Uses(ip, c.burst, delay, k), delay) && EndsBy(Uses(ip, c.burst, delay, k), LATE + delay)
  }

  lemma NextUseTimely(c: Config, ip: Address, delay: Time, k: nat)
    requires Sane(c, delay) && 0 < k <= c.burst && UsesInTime(c, ip, delay, k - 1)
    ensures UsesInTime(c, ip, delay, k)
  {
    UsesGive(c, ip, delay, k - 1, false);
    var flying := InFlight(ip, k - 1, c.burst);
    assert forall r | r in flying :: flying[r].at == LATE;
    TimelySnoc(c, Uses(ip, c.burst, delay, k - 1), Use(k - 1, LATE + delay), delay);
  }

  lemma {:induction false} UsesTimely(c: Config, ip: Address, delay: Time, k: nat)
    requires Sane(c, delay) && k <= c.burst
    ensures UsesInTime(c, ip, delay, k)
  {
    if k == 0 {
      LooksTimely(c, ip, delay, c.burst);
    } else {
      UsesTimely(c, ip, delay, k - 1);
      NextUseTimely(c, ip, delay, k);
    }
  }

  /** The next cleanup that removes the address, then `m` requests one after the other in no time. */
  function Script(c: Config, ip: Address, delay: Time, m: nat): seq<Event> {
    var now := c.ttl + SECOND;
    if m == 0 then Uses(ip, c.burst, delay, c.burst) + [Clean(now)]
    else Script(c, ip, delay, m - 1) + [Look(0, ip, now)] + [Use(0, now)]
  }

  /** No request is in flight, and the next one finds `v` tokens. */
  ghost predicate Holds(c: Config, p: Pool, ip: Address, v: real, now: Time) {
    p.flights == map[] && v == if ip in p.entries then Refilled(c, p.entries[ip].bucket, now) else c.burst as real
  }

  lemma OneRequest(c: Config, events: seq<Event>, ip: Address, v: real, now: Time, evicts: bool)
    requires c.rate >= 0.0 && Holds(c, Run(c, events, evicts).0, ip, v, now)
    ensures v >= 1.0 ==> Holds(c, Run(c, events + [Look(0, ip, now)] + [Use(0, now)], evicts).0, ip, v - 1.0, now)
    ensures Run(c, events + [Look(0, ip, now)] + [Use(0, now)], evicts).1[|events| + 1] == Some(v >= 1.0)
    ensures Run(c, events + [Look(0, ip, now)], evicts).0.flights.Keys == {0}
    ensures Run(c, events + [Look(0, ip, now)], evicts).0.flights[0].at == now
  {
    RunSnoc(c, events, Look(0, ip, now), evicts);
    RunSnoc(c, events + [Look(0, ip, now)], Use(0, now), evicts);
  }

  /** What the requests after the cleanup find: a full bucket, or what was refilled. */
  function Found(c: Config, delay: Time, evicts: bool): real {
    if evicts then c.burst as real else Refilled(c, Bucket(0.0, LATE + delay), c.ttl + SECOND)
  }

  lemma AfterClean(c: Config, ip: Address, delay: Time, evicts: bool)
    requires Sane(c, delay)
    ensures var p := Pool(map[ip := Entry(0, Drained(c, delay, c.burst), 0)], map[], InFlight(ip, c.burst, c.burst), 1);
      var now := c.ttl + SECOND;
      Holds(c, Do(c, p, Clean(now), evicts).0, ip, Found(c, delay, evicts), now)
  {
    assert InFlight(ip, c.burst, c.burst) == map[];
    assert Idle(c, 0, c.ttl + SECOND);
  }

  ghost predicate AfterRequests(c: Config, ip: Address, delay: Time, m: nat, evicts: bool) {
    Holds(c, Run(c, Script(c, ip, delay, m), evicts).0, ip, Found(c, delay, evicts) - m as real, c.ttl + SECOND)
  }

  lemma CleanGives(c: Config, ip: Address, delay: Time, evicts: bool)
    requires Sane(c, delay)
    ensures Holds(c, Run(c, Script(c, ip, delay, 0), evicts).0, ip, Found(c, delay, evicts), c.ttl + SECOND)
  {
    UsesGive(c, ip, delay, c.burst, evicts);
    RunSnoc(c, Uses(ip, c.burst, delay, c.burst), Clean(c.ttl + SECOND), evicts);
    AfterClean(c, ip, delay, evicts);
  }

  lemma NextRequest(c: Config, ip: Address, delay: Time, m: nat, evicts: bool)
    requires Sane(c, delay) && m > 0 && AfterRequests(c, ip, delay, m - 1, evicts)
    ensures m as real <= Found(c, delay, evicts) ==> AfterRequests(c, ip, delay, m, evicts)
    ensures |Script(c, ip, delay, m)| == |Script(c, ip, delay, m - 1)| + 2
    ensures Run(c, Script(c, ip, delay, m), evicts).1[|Script(c, ip, delay, m - 1)| + 1]
         == Some(m as real <= Found(c, delay, evicts))
  {
    OneRequest(c, Script(c, ip, delay, m - 1), ip, Found(c, delay, evicts) - (m - 1) as real, c.ttl + SECOND, evicts);
  }

  lemma {:induction false} ScriptGives(c: Config, ip: Address, delay: Time, m: nat, evicts: bool)
    requires Sane(c, delay) && m as real <= Found(c, delay, evicts)
    ensures AfterRequests(c, ip, delay, m, evicts)
  {
    if m == 0 {
      CleanGives(c, ip, delay, evicts);
    } else {
      ScriptGives(c, ip, delay, m - 1, evicts);
      NextRequest(c, ip, delay, m, evicts);
    }
  }

  lemma CleanTimely(c: Config, ip: Address, delay: Time)
    requires Sane(c, delay)
    ensures Timely(c, Script(c, ip, delay, 0), delay)
  {
    UsesTimely(c, ip, delay, c.burst);
    UsesGive(c, ip, delay, c.burst, false);
    TimelySnoc(c, Uses(ip, c.burst, delay, c.burst), Clean(c.ttl + SECOND), delay);
  }

  lemma RequestTimely(c: Config, events: seq<Event>, ip: Address, now: Time, delay: Time)
    requires c.rate >= 0.0 && delay >= 0 && Timely(c, events, delay) && EndsBy(events, now)
    requires Run(c, events, false).0.flights == map[]
    ensures Timely(c, events + [Look(0, ip, now)] + [Use(0, now)], delay)
  {
    var p := Run(c, events, false).0;
    var v := if ip in p.entries then Refilled(c, p.entries[ip].bucket, now) else c.burst as real;
    OneRequest(c, events, ip, v, now, false);
    TimelySnoc(c, events, Look(0, ip, now), delay);
    TimelySnoc(c, events + [Look(0, ip, now)], Use(0, now), delay);
  }

  lemma {:induction false} ScriptTimely(c: Config, ip: Address, delay: Time, m: nat)
    requires Sane(c, delay) && (m > 0 ==> (m - 1) as real <= Found(c, delay, false))
    ensures Timely(c, Script(c, ip, delay, m), delay) && EndsBy(Script(c, ip, delay, m), c.ttl + SECOND)
  {
    if m == 0 {
      CleanTimely(c, ip, delay);
    } else {
      ScriptTimely(c, ip, delay, m - 1);
      ScriptGives(c, ip, delay, m - 1, false);
      RequestTimely(c, Script(c, ip, delay, m - 1), ip, c.ttl + SECOND, delay);
    }
  }

  lemma FoundIs(c: Config, delay: Time)
    requires Sane(c, delay) && !LongEnough(c, delay)
    ensures 0.0 <= Found(c, delay, false) < c.burst as real
  {
    Grows(0, c.ttl + 1 - delay, c.rate);
    assert Earned(c, Bucket(0.0, LATE + delay), c.ttl + SECOND) == Earned(c, Bucket(0.0, 0), c.ttl + 1 - delay);
  }

  lemma Whole(v: real, n: nat) returns (m: nat)
    requires 0.0 <= v < n as real
    ensures m as real <= v < (m + 1) as real && m + 1 <= n
  {
    m := v.Floor;
  }

  lemma LastDiffers(c: Config, ip: Address, delay: Time, m: nat)
    requires Sane(c, delay) && m + 1 <= c.burst
    requires m as real <= Found(c, delay, false) < (m + 1) as real
    ensures Run(c, Script(c, ip, delay, m + 1), true).1 != Run(c, Script(c, ip, delay, m + 1), false).1
  {
    ScriptGives(c, ip, delay, m, true);
    ScriptGives(c, ip, delay, m, false);
    NextRequest(c, ip, delay, m + 1, true);
    NextRequest(c, ip, delay, m + 1, false);
  }

  /** Otherwise a removed address gets a token it had not earned. */
  lemma TooShortShows(c: Config, ip: Address, delay: Time) returns (events: seq<Event>)
    requires Sane(c, delay) && !LongEnough(c, delay)
    ensures Timely(c, events, delay) && Run(c, events, true).1 != Run(c, events, false).1
  {
    FoundIs(c, delay);
    var m := Whole(Found(c, delay, false), c.burst);
    LastDiffers(c, ip, delay, m);
    ScriptTimely(c, ip, delay, m + 1);
    events := Script(c, ip, delay, m + 1);
  }

  /** Eviction shows in no timely run exactly when the time to live is long enough. */
  lemma UnobservableIffLongEnough(c: Config, delay: Time)
    requires Sane(c, delay)
    ensures (forall events | Timely(c, events, delay) :: Run(c, events, true).1 == Run(c, events, false).1)
       <==> LongEnough(c, delay)
  {
    if LongEnough(c, delay) {
      forall events | Timely(c, events, delay)
        ensures Run(c, events, true).1 == Run(c, events, false).1
      {
        EvictionIsUnobservable(c, events, delay);
      }
    } else {
      var events := TooShortShows(c, Address(""), delay);
    }
  }
}
