/** What a token bucket promises: which requests pass, told from the times of the earlier ones alone. */
module Buckets {

  import opened Common
  import opened Eviction
  import EvictionLaws

  /** A bucket after requests at the given times, and the times at which one passed. */
  function Asked(c: Config, b: Bucket, times: seq<Time>): (Bucket, seq<Time>) {
    if times == [] then (b, [])
    else
      var (before, passed) := Asked(c, b, times[..|times| - 1]);
      var now := times[|times| - 1];
      var (ok, after) := Allowed(c, before, now);
      (after, if ok then passed + [now] else passed)
  }

  /** The clock does not go back. */
  ghost predicate InOrder(start: Time, times: seq<Time>) {
    && (forall i | 0 <= i < |times| :: start <= times[i])
    && (forall i, j | 0 <= i <= j < |times| :: times[i] <= times[j])
  }

  /** From that request on, what passed and `x` more stay within the burst and what the rate has earned. */
  predicate RoomSince(c: Config, passed: seq<Time>, k: nat, now: Time, x: real)
    requires k < |passed|
  {
    (|passed| - k) as real + x <= c.burst as real + (now - passed[k]) as real * c.rate
  }

  /** There is room for `x` tokens: in the burst, and since every earlier request that passed. */
  ghost predicate Room(c: Config, passed: seq<Time>, now: Time, x: real) {
    && x <= c.burst as real
    && forall k | 0 <= k < |passed| :: RoomSince(c, passed, k, now, x)
  }

  lemma Elapsed(a: Time, b: Time, d: Time, rate: real)
    ensures (d - a) as real * rate == (b - a) as real * rate + (d - b) as real * rate
  {
  }

  function Last(start: Time, times: seq<Time>): Time {
    if times == [] then start else times[|times| - 1]
  }

  lemma RoomAfterPass(c: Config, passed: seq<Time>, t: Time, now: Time, x: real)
    requires x <= c.burst as real
    ensures Room(c, passed + [t], now, x) <==> Room(c, passed, t, x + 1.0 - (now - t) as real * c.rate)
  {
    var more, y := passed + [t], x + 1.0 - (now - t) as real * c.rate;
    forall k | 0 <= k < |passed|
      ensures RoomSince(c, more, k, now, x) <==> RoomSince(c, passed, k, t, y)
    {
      Elapsed(passed[k], t, now, c.rate);
    }
    assert RoomSince(c, more, |passed|, now, x) <==> y <= c.burst as real;
    if Room(c, more, now, x) {
      forall k | 0 <= k < |passed|
        ensures RoomSince(c, passed, k, t, y)
      {
        assert RoomSince(c, more, k, now, x);
      }
      assert RoomSince(c, more, |passed|, now, x);
    }
    if Room(c, passed, t, y) {
      forall k | 0 <= k < |more|
        ensures RoomSince(c, more, k, now, x)
      {
        assert k < |passed| ==> RoomSince(c, passed, k, t, y);
      }
    }
  }

  lemma Earning(d: Time, rate: real)
    requires 0 <= d && 0.0 <= rate
    ensures 0.0 <= d as real * rate
  {
  }

  /** What a bucket holds after a request that passed, in terms of what it held then. */
  lemma AfterPass(c: Config, b: Bucket, t: Time, now: Time, x: real)
    requires 1.0 <= Refilled(c, b, t)
    ensures x <= Refilled(c, Allowed(c, b, t).1, now)
       <==> x <= c.burst as real && x + 1.0 - (now - t) as real * c.rate <= Refilled(c, b, t)
  {
  }

  lemma StartsFull(c: Config, start: Time, now: Time)
    requires c.rate >= 0.0 && start <= now
    ensures Refilled(c, Bucket(c.burst as real, start), now) == c.burst as real
  {
    Earning(now - start, c.rate);
  }

  lemma AskedLast(c: Config, b: Bucket, times: seq<Time>)
    requires times != []
    ensures var (before, passed) := Asked(c, b, times[..|times| - 1]);
      var t := times[|times| - 1];
      Asked(c, b, times) == if 1.0 <= Refilled(c, before, t) then (Allowed(c, before, t).1, passed + [t])
                            else (before, passed)
  {
  }

  /** A bucket that started full holds so many tokens exactly if there is room for them. */
  lemma {:induction false} TokensAreRoom(c: Config, start: Time, times: seq<Time>, now: Time, x: real)
    requires c.rate >= 0.0 && InOrder(start, times) && Last(start, times) <= now
    ensures var (b, passed) := Asked(c, Bucket(c.burst as real, start), times);
      x <= Refilled(c, b, now) <==> Room(c, passed, now, x)
  {
    var full := Bucket(c.burst as real, start);
    if times == [] {
      StartsFull(c, start, now);
    } else {
      var init, t := times[..|times| - 1], times[|times| - 1];
      var (before, passed) := Asked(c, full, init);
      AskedLast(c, full, times);
      assert InOrder(start, init) && Last(start, init) <= t;
      if 1.0 <= Refilled(c, before, t) {
        AfterPass(c, before, t, now, x);
        TokensAreRoom(c, start, init, t, x + 1.0 - (now - t) as real * c.rate);
        if x <= c.burst as real {
          RoomAfterPass(c, passed, t, now, x);
        }
      } else {
        TokensAreRoom(c, start, init, now, x);
      }
    }
  }

  lemma RoomForOne(c: Config, passed: seq<Time>, now: Time)
    ensures Room(c, passed, now, 1.0) <==> c.burst >= 1 && forall k | 0 <= k < |passed| ::
      (|passed| - k + 1) as real <= c.burst as real + (now - passed[k]) as real * c.rate
  {
    assert c.burst >= 1 <==> 1.0 <= c.burst as real;
    forall k | 0 <= k < |passed|
      ensures RoomSince(c, passed, k, now, 1.0) <==>
        (|passed| - k + 1) as real <= c.burst as real + (now - passed[k]) as real * c.rate
    {
    }
  }

  /**
   * A request passes exactly if the burst is at least 1 and since every earlier request that passed, that one and
   * this one included, no more have passed than the burst and what the rate earns in the time between.
   */
  lemma PassesIffRoom(c: Config, start: Time, times: seq<Time>, now: Time)
    requires c.rate >= 0.0 && InOrder(start, times) && Last(start, times) <= now
    ensures var (b, passed) := Asked(c, Bucket(c.burst as real, start), times);
      Allowed(c, b, now).0 <==> c.burst >= 1 && forall k | 0 <= k < |passed| ::
        (|passed| - k + 1) as real <= c.burst as real + (now - passed[k]) as real * c.rate
  {
    TokensAreRoom(c, start, times, now, 1.0);
    RoomForOne(c, Asked(c, Bucket(c.burst as real, start), times).1, now);
  }

  /** From the j-th to the k-th request that passed, both included, there are no more than the rate allows. */
  predicate Within(c: Config, passed: seq<Time>, j: nat, k: nat)
    requires j <= k < |passed|
  {
    (k - j + 1) as real <= c.burst as real + (passed[k] - passed[j]) as real * c.rate
  }

  lemma LastWithin(c: Config, passed: seq<Time>, now: Time, j: nat)
    requires j <= |passed| && Room(c, passed, now, 1.0)
    ensures Within(c, passed + [now], j, |passed|)
  {
    if j < |passed| {
      assert RoomSince(c, passed, j, now, 1.0);
    }
  }

  /** So in no window do more pass than the burst and what the rate earns in it. */
  lemma {:induction false} NoWindowExceeds(c: Config, start: Time, times: seq<Time>, j: nat, k: nat)
    requires c.rate >= 0.0 && InOrder(start, times)
    requires j <= k < |Asked(c, Bucket(c.burst as real, start), times).1|
    ensures Within(c, Asked(c, Bucket(c.burst as real, start), times).1, j, k)
  {
    var full, init, now := Bucket(c.burst as real, start), times[..|times| - 1], times[|times| - 1];
    var (before, passed) := Asked(c, full, init);
    AskedLast(c, full, times);
    assert InOrder(start, init) && Last(start, init) <= now;
    if k < |passed| {
      NoWindowExceeds(c, start, init, j, k);
      assert Within(c, passed, j, k);
    } else {
      TokensAreRoom(c, start, init, now, 1.0);
      LastWithin(c, passed, now, j);
    }
  }

  /** With the defaults: 20 requests and 10 for every second between, 3 uploads and 10 for every minute. */
  lemma DefaultsExceedNoWindow(start: Time, times: seq<Time>, j: nat, k: nat)
    requires InOrder(start, times) && j <= k
    ensures var passed := Asked(EvictionLaws.GENERAL, Bucket(20.0, start), times).1;
      k < |passed| ==> (k - j + 1) * 1_000_000_000 <= 20 * 1_000_000_000 + 10 * (passed[k] - passed[j])
    ensures var passed := Asked(EvictionLaws.UPLOADS, Bucket(3.0, start), times).1;
      k < |passed| ==> (k - j + 1) * 60_000_000_000 <= 3 * 60_000_000_000 + 10 * (passed[k] - passed[j])
  {
    if k < |Asked(EvictionLaws.GENERAL, Bucket(20.0, start), times).1| {
      NoWindowExceeds(EvictionLaws.GENERAL, start, times, j, k);
    }
    if k < |Asked(EvictionLaws.UPLOADS, Bucket(3.0, start), times).1| {
      NoWindowExceeds(EvictionLaws.UPLOADS, start, times, j, k);
    }
  }
}
