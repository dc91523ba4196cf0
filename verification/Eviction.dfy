/** Rate limiting per address: dropping idle token buckets does not change any decision. */
module Eviction {

  import opened Common

  /** `rate` is in tokens per nanosecond. */
  datatype Config = Config(rate: real, burst: nat, ttl: Time)

  datatype Bucket = Bucket(tokens: real, last: Time)

  /** The tokens with those earned since the last use. */
  function Earned(c: Config, b: Bucket, now: Time): real {
    b.tokens + (now - b.last) as real * c.rate
  }

  function Refilled(c: Config, b: Bucket, now: Time): real {
    var t := Earned(c, b, now);
    if t < c.burst as real then t else c.burst as real
  }

  /** A denied request leaves the bucket as it is. */
  function Allowed(c: Config, b: Bucket, now: Time): (r: (bool, Bucket)) {
    var t := Refilled(c, b, now);
    if t >= 1.0 then (true, Bucket(t - 1.0, now)) else (false, b)
  }

  /** Times are compared in whole seconds. */
  predicate Idle(c: Config, lastSeen: int, now: Time) {
    lastSeen < (now - c.ttl) / SECOND
  }

  /** What is kept for an address. */
  datatype Kept = Kept(bucket: Bucket, lastSeen: int)

  /** A request looks its address up. */
  function Looked(c: Config, v: map<Address, Kept>, ip: Address, now: Time): map<Address, Kept> {
    v[ip := if ip in v then v[ip].(lastSeen := now / SECOND) else Kept(Bucket(c.burst as real, now), now / SECOND)]
  }

  /** The request asks the bucket it found. */
  function Used(c: Config, v: map<Address, Kept>, ip: Address, now: Time): map<Address, Kept>
    requires ip in v
  {
    v[ip := v[ip].(bucket := Allowed(c, v[ip].bucket, now).1)]
  }

  function Cleaned(c: Config, v: map<Address, Kept>, now: Time): map<Address, Kept> {
    map ip | ip in v && !Idle(c, v[ip].lastSeen, now) :: v[ip]
  }

  // ---- the limiter's objects --------------------------------------------------------------

  class Limiter {
    const c: Config
    var bucket: Bucket

    constructor (c: Config, now: Time)
      ensures this.c == c && bucket == Bucket(c.burst as real, now)
    {
      this.c, bucket := c, Bucket(c.burst as real, now);
    }

    method Allow(now: Time) returns (ok: bool)
      modifies this
      ensures (ok, bucket) == Allowed(c, old(bucket), now)
    {
      var tokens := Earned(c, bucket, now);
      if tokens >= c.burst as real {
        tokens := c.burst as real;
      }
      ok := tokens >= 1.0;
      if ok {
        bucket := Bucket(tokens - 1.0, now);
      }
    }
  }

  class TrackedLimiter {
    const limiter: Limiter
    var lastSeen: int

    constructor (limiter: Limiter, lastSeen: int)
      ensures this.limiter == limiter && this.lastSeen == lastSeen
    {
      this.limiter, this.lastSeen := limiter, lastSeen;
    }
  }

  lemma OneLess<V>(m: map<Address, V>, stale: set<Address>, rest: set<Address>, ip: Address)
    requires ip in rest && ip in m
    ensures ip in m - (stale - rest) && (m - (stale - rest))[ip] == m[ip]
    ensures ip in stale ==> m - (stale - (rest - {ip})) == m - (stale - rest) - {ip}
    ensures ip in stale ==> |stale - (rest - {ip})| == |stale - rest| + 1
    ensures ip !in stale ==> stale - (rest - {ip}) == stale - rest
  {
    if ip in stale {
      assert stale - (rest - {ip}) == (stale - rest) + {ip};
    }
  }

  /** What a request does to the limiter it is held to, and how it is answered. */
  predicate Held(c: Config, before: map<Address, Kept>, after: map<Address, Kept>,
                 ip: Address, now: Time, later: Time, ok: bool)
  {
    var looked := Looked(c, before, ip, now);
    ok == Allowed(c, looked[ip].bucket, later).0 && after == Used(c, looked, ip, later)
  }

  class IpRateLimiter {
    const c: Config
    var limiters: map<Address, TrackedLimiter>

    constructor (c: Config)
      ensures this.c == c && limiters == map[]
    {
      this.c, limiters := c, map[];
    }

    /** No two addresses share an object. */
    ghost predicate Valid()
      reads this, limiters.Values
    {
      && (forall ip | ip in limiters :: limiters[ip].limiter.c == c)
      && (forall a, b | a in limiters && b in limiters && a != b ::
        limiters[a] != limiters[b] && limiters[a].limiter != limiters[b].limiter)
    }

    ghost function Objects(): set<object>
      reads this
    {
      (set ip | ip in limiters :: limiters[ip] as object) + (set ip | ip in limiters :: limiters[ip].limiter as object)
    }

    /** What the objects hold. */
    ghost function View(): map<Address, Kept>
      reads this, Objects()
    {
      map ip | ip in limiters :: Kept(limiters[ip].limiter.bucket, limiters[ip].lastSeen)
    }

    method GetLimiter(ip: Address, now: Time) returns (l: Limiter)
      requires Valid()
      modifies this, Objects()
      ensures Valid() && ip in limiters && limiters[ip].limiter == l
      ensures limiters == if ip in old(limiters) then old(limiters) else old(limiters)[ip := limiters[ip]]
      ensures ip !in old(limiters) ==> fresh(l) && fresh(limiters[ip])
      ensures fresh(Objects() - old(Objects()))
      ensures View() == Looked(c, old(View()), ip, now)
    {
      if ip in limiters {
        var tracked := limiters[ip];
        tracked.lastSeen := now / SECOND;
        return tracked.limiter;
      }
      l := new Limiter(c, now);
      var tracked := new TrackedLimiter(l, now / SECOND);
      limiters := limiters[ip := tracked];
    }

    method Ask(ip: Address, l: Limiter, now: Time) returns (ok: bool)
      requires Valid() && ip in limiters && l == limiters[ip].limiter
      modifies l
      ensures Valid() && ok == Allowed(c, old(l.bucket), now).0
      ensures View() == Used(c, old(View()), ip, now)
    {
      ok := l.Allow(now);
    }

    /** `Middleware`: look up, then ask, with time passing in between. */
    method Request(ip: Address, now: Time, later: Time) returns (ok: bool)
      requires Valid()
      modifies this, Objects()
      ensures Valid() && fresh(Objects() - old(Objects()))
      ensures Held(c, old(View()), View(), ip, now, later, ok)
    {
      var l := GetLimiter(ip, now);
      ok := Ask(ip, l, later);
    }

    /** The addresses not seen for the time to live. */
    function Stale(now: Time): set<Address>
      reads this, limiters.Values
    {
      set ip | ip in limiters && Idle(c, limiters[ip].lastSeen, now)
    }

    method RemoveStale(now: Time) returns (removed: nat)
      modifies this
      ensures limiters == old(limiters) - old(Stale(now))
      ensures removed == |old(Stale(now))|
    {
      var cutoff := (now - c.ttl) / SECOND;
      ghost var before, stale := limiters, Stale(now);
      removed := 0;
      var rest := limiters.Keys;
      assert stale - rest == {} && before - {} == before;
      while rest != {}
        invariant rest <= before.Keys
        invariant limiters == before - (stale - rest)
        invariant removed == |stale - rest|
        decreases rest
      {
        var ip :| ip in rest;
        OneLess(before, stale, rest, ip);
        if limiters[ip].lastSeen < cutoff {
          limiters := limiters - {ip};
          removed := removed + 1;
        }
        rest := rest - {ip};
      }
      assert stale - {} == stale;
    }

    method Cleanup(now: Time) returns (removed: nat)
      requires Valid()
      modifies this
      ensures Valid() && View() == Cleaned(c, old(View()), now)
      ensures forall ip :: ip in View() <==>
        ip in old(View()) && (now - c.ttl) / 1_000_000_000 <= old(View())[ip].lastSeen
      ensures forall ip | ip in View() :: View()[ip] == old(View())[ip]
      ensures removed == |old(Stale(now))|
    {
      removed := RemoveStale(now);
    }
  }

  /** Two limiters that share no object. */
  ghost predicate Separate(a: IpRateLimiter, b: IpRateLimiter)
    reads a, b, a.limiters.Values, b.limiters.Values, a.Objects(), b.Objects()
  {
    a != b && a.Objects() !! b.Objects() && a.Valid() && b.Valid()
  }

  class RateLimiterMiddleware {
    const generalLimiter: IpRateLimiter
    const uploadLimiter: IpRateLimiter

    constructor (general: Config, upload: Config)
      ensures Separate(uploadLimiter, generalLimiter) && fresh(generalLimiter) && fresh(uploadLimiter)
      ensures generalLimiter.c == general && uploadLimiter.c == upload
      ensures generalLimiter.limiters == map[] && uploadLimiter.limiters == map[]
    {
      generalLimiter := new IpRateLimiter(general);
      uploadLimiter := new IpRateLimiter(upload);
    }

    /** One limiter is asked, whatever addresses the other one knows. */
    static method Pass(limiter: IpRateLimiter, ghost other: IpRateLimiter, ip: Address, now: Time, later: Time)
      returns (ok: bool)
      requires Separate(limiter, other)
      modifies limiter, limiter.Objects()
      ensures Separate(limiter, other) && other.View() == old(other.View())
      ensures Held(limiter.c, old(limiter.View()), limiter.View(), ip, now, later, ok)
    {
      ok := limiter.Request(ip, now, later);
    }

    /** A POST to exactly the upload path is held to the stricter limiter, any other request to the general one. */
    method Middleware(ip: Address, verb: string, path: string, now: Time, later: Time) returns (ok: bool)
      requires Separate(uploadLimiter, generalLimiter)
      modifies generalLimiter, uploadLimiter, generalLimiter.Objects(), uploadLimiter.Objects()
      ensures Separate(uploadLimiter, generalLimiter)
      ensures verb == "POST" && path == "/api/upload" ==>
        && Held(uploadLimiter.c, old(uploadLimiter.View()), uploadLimiter.View(), ip, now, later, ok)
        && generalLimiter.View() == old(generalLimiter.View())
      ensures verb != "POST" || path != "/api/upload" ==>
        && Held(generalLimiter.c, old(generalLimiter.View()), generalLimiter.View(), ip, now, later, ok)
        && uploadLimiter.View() == old(uploadLimiter.View())
    {
      if verb == "POST" && path == "/api/upload" {
        ok := Pass(uploadLimiter, generalLimiter, ip, now, later);
      } else {
        ok := Pass(generalLimiter, uploadLimiter, ip, now, later);
      }
    }
  }
}
