/** Per-tenant token buckets: the shared one evaluated atomically next to the data, and the
    process-local one used when the shared store cannot be reached. Times are seconds. */
module RateLimiter {
  import opened Documents
  import opened Arithmetic

  datatype Bucket = Bucket(tokens: real, ts: real)

  /** Burst size and refill per second. */
  datatype Quota = Quota(capacity: real, rate: real)

  function Greater(a: real, b: real): real { if a < b then b else a }
  function Lesser(a: real, b: real): real { if a < b then a else b }

  function QuotaOf(limitPerMinute: int, burstRatio: real): Quota {
    Quota(Greater(5.0, limitPerMinute as real * burstRatio), limitPerMinute as real / 60.0)
  }

  const TTL := 120.0

  // ---------------------------------------------------------------- one check

  /** The bucket a check finds. A shared key is forgotten `ttl` seconds after its last write,
      which is its time stamp; a local bucket (`ttl == None`) is kept. */
  function Found(b: Option<Bucket>, ttl: Option<real>, now: real): Option<Bucket> {
    if b.Some? && ttl.Some? && b.value.ts + ttl.value <= now then None else b
  }

  /** Tokens at hand: a missing bucket is full; a bucket refills with time, never above its capacity. */
  function Available(b: Option<Bucket>, q: Quota, now: real): real {
    match b
    case None => q.capacity
    case Some(Bucket(tokens, ts)) => Lesser(q.capacity, tokens + Greater(0.0, now - ts) * q.rate)
  }

  predicate Admits(b: Option<Bucket>, q: Quota, now: real) {
    Available(b, q, now) >= 1.0
  }

  function After(b: Option<Bucket>, q: Quota, now: real): Bucket {
    var available := Available(b, q, now);
    Bucket(if available >= 1.0 then available - 1.0 else available, now)
  }

  /** Seconds until a denied caller would be admitted. */
  function RetryAfter(tokens: real, q: Quota): real
    requires q.rate != 0.0
  {
    (1.0 - tokens) / q.rate
  }

  function Truncate(x: real): int { if x >= 0.0 then x.Floor else -((-x).Floor) }

  /** The Retry-After header: whole seconds. */
  function RetryAfterHeader(retryAfter: real): int {
    var seconds := Truncate(retryAfter) + 1;
    if seconds < 1 then 1 else seconds
  }

  /** The header is a whole second at most above the wait, and never below it. */
  lemma HeaderIsTight(retryAfter: real)
    requires retryAfter >= 0.0
    ensures retryAfter < RetryAfterHeader(retryAfter) as real <= retryAfter + 1.0
  {}

  /** The quota is what it says: `limitPerMinute` tokens in sixty seconds, and a burst of the given share of
      them or of five, whichever is more. */
  lemma QuotaIsPerMinute(limitPerMinute: int, burstRatio: real)
    ensures var q := QuotaOf(limitPerMinute, burstRatio);
            && 60.0 * q.rate == limitPerMinute as real
            && q.capacity >= 5.0 && q.capacity >= limitPerMinute as real * burstRatio
            && (q.capacity == 5.0 || q.capacity == limitPerMinute as real * burstRatio)
  {}

  lemma WholeTokensLeft(tokens: real)
    ensures tokens >= 0.0 ==> Truncate(tokens) as real <= tokens < Truncate(tokens) as real + 1.0
  {}

  lemma WaitRefills(tokens: real, rate: real)
    requires rate != 0.0
    ensures tokens + ((1.0 - tokens) / rate) * rate == 1.0
  {}

  lemma NoTimeNoRefill(q: Quota, now: real)
    ensures Lesser(q.capacity, q.capacity + Greater(0.0, now - now) * q.rate) == q.capacity
  {
    assert Greater(0.0, now - now) == 0.0;
    Zero(q.rate);
  }

  lemma Zero(r: real)
    ensures 0.0 * r == 0.0
  {}

  lemma Intervals(a: real, b: real, c: real, r: real)
    ensures (b - a) * r + (c - b) * r == (c - a) * r
  {}

  // ---------------------------------------------------------------- the limiter

  /** `retryAfter == None` is the infinite wait the shared script reports for a zero rate. */
  datatype Decision = Decision(allowed: bool, limitPerMinute: int, remaining: int, retryAfter: Option<real>,
                               degraded: bool)

  /** What a caller is told about a check that finds bucket `b`. */
  function Verdict(b: Option<Bucket>, q: Quota, now: real, limitPerMinute: int, degraded: bool): Decision {
    var left, allowed := After(b, q, now).tokens, Admits(b, q, now);
    Decision(allowed, limitPerMinute, Truncate(left),
             if allowed then Some(0.0) else if q.rate == 0.0 then None else Some(RetryAfter(left, q)), degraded)
  }

  class SharedStore {
    var buckets: map<string, Bucket>

    constructor ()
      ensures buckets == map[]
    {
      buckets := map[];
    }

    /** The script: read, refill, decide, write, in one atomic step. */
    method TakeToken(key: string, q: Quota, now: real) returns (allowed: bool, tokens: real, retryAfter: Option<real>)
      modifies this
      ensures var had := Available(Found(Get(old(buckets), key), Some(TTL), now), q, now);
              && (allowed <==> had >= 1.0) && tokens == (if allowed then had - 1.0 else had)
              && (allowed ==> retryAfter == Some(0.0))
              && (!allowed && q.rate != 0.0 ==> retryAfter.Some? && tokens + retryAfter.value * q.rate == 1.0)
              && (!allowed && q.rate == 0.0 ==> retryAfter == None)
      ensures var found := Found(Get(old(buckets), key), Some(TTL), now);
              && buckets == old(buckets)[key := After(found, q, now)]
              && allowed == Admits(found, q, now) && tokens == buckets[key].tokens
              && retryAfter == (if allowed then Some(0.0) else if q.rate == 0.0 then None
                                else Some(RetryAfter(tokens, q)))
    {
      var ts := now;
      tokens := q.capacity;
      if key in buckets && now < buckets[key].ts + TTL {
        tokens, ts := buckets[key].tokens, buckets[key].ts;
      }
      NoTimeNoRefill(q, now);
      tokens := Lesser(q.capacity, tokens + Greater(0.0, now - ts) * q.rate);
      allowed, retryAfter := tokens >= 1.0, Some(0.0);
      if allowed {
        tokens := tokens - 1.0;
      } else {
        retryAfter := if q.rate == 0.0 then None else Some((1.0 - tokens) / q.rate);
        if q.rate != 0.0 {
          WaitRefills(tokens, q.rate);
        }
      }
      buckets := buckets[key := Bucket(tokens, now)];
    }
  }

  function Get(buckets: map<string, Bucket>, key: string): Option<Bucket> {
    if key in buckets then Some(buckets[key]) else None
  }

  /** What becomes of a call to the shared store: answered, run with its answer lost, or never run. */
  datatype Link = Up | AnswerLost | Down

  class Limiter {
    const shared: SharedStore?
    const burstRatio: real
    var local: map<string, Bucket>

    constructor (shared: SharedStore?, burstRatio: real)
      ensures this.shared == shared && this.burstRatio == burstRatio && local == map[]
    {
      this.shared, this.burstRatio, local := shared, burstRatio, map[];
    }

    /** The shared store decides while its answer comes back; otherwise the local bucket does, on its
        own clock. A script whose answer was lost has charged the shared bucket as well. `None` is the
        division by zero of a denial at rate zero. */
    method Check(key: string, limitPerMinute: int, link: Link, sharedNow: real, localNow: real)
      returns (d: Option<Decision>)
      modifies this, shared
      ensures shared != null && !link.Down? ==>
                var found := Found(Get(old(shared.buckets), key), Some(TTL), sharedNow);
                shared.buckets
                == old(shared.buckets)[key := After(found, QuotaOf(limitPerMinute, burstRatio), sharedNow)]
      ensures shared != null && link.Down? ==> shared.buckets == old(shared.buckets)
      ensures var q := QuotaOf(limitPerMinute, burstRatio);
              if shared != null && link.Up? then
                && local == old(local)
                && d == Some(Verdict(Found(Get(old(shared.buckets), key), Some(TTL), sharedNow), q, sharedNow,
                                     limitPerMinute, false))
              else
                && local == old(local)[key := After(Get(old(local), key), q, localNow)]
                && (d.None? <==> !Admits(Get(old(local), key), q, localNow) && q.rate == 0.0)
                && (d.Some? ==> d.value == Verdict(Get(old(local), key), q, localNow, limitPerMinute, true))
      // What the caller is told, in terms of the tokens `had` at hand in the bucket that decided and those
      // `left` in it: admitted exactly when there was a whole token, which is then gone; the whole tokens
      // left; and for a denial the time after which the bucket holds a token again, if it refills at all.
      ensures d.Some? ==>
                var q := QuotaOf(limitPerMinute, burstRatio);
                var mine := shared != null && link == Up;
                var had := if mine
                           then Available(Found(Get(old(shared.buckets), key), Some(TTL), sharedNow), q, sharedNow)
                           else Available(Get(old(local), key), q, localNow);
                var left := if mine then shared.buckets[key].tokens else local[key].tokens;
                && (d.value.allowed <==> had >= 1.0)
                && left == (if d.value.allowed then had - 1.0 else had)
                && (left >= 0.0 ==> d.value.remaining as real <= left < d.value.remaining as real + 1.0)
                && (d.value.allowed ==> d.value.retryAfter == Some(0.0))
                && (!d.value.allowed && q.rate != 0.0 ==>
                      d.value.retryAfter.Some? && left + d.value.retryAfter.value * q.rate == 1.0)
                && (!d.value.allowed && q.rate == 0.0 ==> d.value.retryAfter == None)
                && d.value.degraded == !mine && d.value.limitPerMinute == limitPerMinute
    {
      var q := QuotaOf(limitPerMinute, burstRatio);
      if shared != null && !link.Down? {
        var allowed, tokens, retryAfter := shared.TakeToken(key, q, sharedNow);
        WholeTokensLeft(tokens);
        if link.Up? {
          return Some(Decision(allowed, limitPerMinute, Truncate(tokens), retryAfter, false));
        }
      }
      d := CheckLocal(key, q, localNow);
      if d.Some? {
        d := Some(d.value.(limitPerMinute := limitPerMinute));
      }
    }

    /** A denial at rate zero raises before a new bucket is stored. */
    method CheckLocal(key: string, q: Quota, now: real) returns (d: Option<Decision>)
      modifies this`local
      ensures d.None? <==> !Admits(Get(old(local), key), q, now) && q.rate == 0.0
      ensures local == (if d.None? && key !in old(local) then old(local)
                        else old(local)[key := After(Get(old(local), key), q, now)])
      ensures d.Some? ==> d.value == Verdict(Get(old(local), key), q, now, 0, true)
      ensures d.Some? ==>
                var had := Available(Get(old(local), key), q, now);
                && (d.value.allowed <==> had >= 1.0)
                && local[key].tokens == (if d.value.allowed then had - 1.0 else had)
                && (local[key].tokens >= 0.0 ==>
                      d.value.remaining as real <= local[key].tokens < d.value.remaining as real + 1.0)
                && (d.value.allowed ==> d.value.retryAfter == Some(0.0))
                && (!d.value.allowed ==>
                      d.value.retryAfter.Some? && local[key].tokens + d.value.retryAfter.value * q.rate == 1.0)
                && d.value.degraded
    {
      NoTimeNoRefill(q, now);
      var known := key in local;
      var bucket := if known then local[key] else Bucket(q.capacity, now);
      bucket := Bucket(Lesser(q.capacity, bucket.tokens + Greater(0.0, now - bucket.ts) * q.rate), now);
      ghost var had := bucket.tokens;
      assert had == Available(Get(old(local), key), q, now);
      if bucket.tokens >= 1.0 {
        bucket := bucket.(tokens := bucket.tokens - 1.0);
        local := local[key := bucket];
        WholeTokensLeft(bucket.tokens);
        return Some(Decision(true, 0, Truncate(bucket.tokens), Some(0.0), true));
      }
      if known || q.rate != 0.0 {
        local := local[key := bucket];
      }
      if q.rate == 0.0 {
        return None;
      }
      WaitRefills(bucket.tokens, q.rate);
      WholeTokensLeft(bucket.tokens);
      return Some(Decision(false, 0, Truncate(bucket.tokens), Some((1.0 - bucket.tokens) / q.rate), true));
    }
  }

  // ---------------------------------------------------------------- runs of one bucket

  ghost predicate NonDecreasing(times: seq<real>) {
    forall i, j :: 0 <= i <= j < |times| ==> times[i] <= times[j]
  }

  function AfterRun(b: Option<Bucket>, q: Quota, ttl: Option<real>, times: seq<real>): Option<Bucket> {
    if times == [] then b
    else
      var before, now := AfterRun(b, q, ttl, times[..|times| - 1]), times[|times| - 1];
      Some(After(Found(before, ttl, now), q, now))
  }

  /** Whether check `k` of the run is admitted. */
  predicate Decides(b: Option<Bucket>, q: Quota, ttl: Option<real>, times: seq<real>, k: nat)
    requires k < |times|
  {
    Admits(Found(AfterRun(b, q, ttl, times[..k]), ttl, times[k]), q, times[k])
  }

  /** Admitted checks of the run with a time in [from, to]. */
  function Admitted(b: Option<Bucket>, q: Quota, ttl: Option<real>, times: seq<real>, from: real, to: real): nat {
    if times == [] then 0
    else
      var init, k := times[..|times| - 1], |times| - 1;
      Admitted(b, q, ttl, init, from, to)
      + if from <= times[k] <= to && Decides(b, q, ttl, times, k) then 1 else 0
  }

  /** A check neither creates nor destroys tokens: what was at hand is kept or spent. */
  lemma OneCheck(b: Option<Bucket>, q: Quota, now: real)
    ensures After(b, q, now).ts == now
    ensures After(b, q, now).tokens + (if Admits(b, q, now) then 1.0 else 0.0) == Available(b, q, now) <= q.capacity
    ensures b.Some? && b.value.ts <= now ==> Available(b, q, now) <= b.value.tokens + (now - b.value.ts) * q.rate
  {}

  lemma AdmittedNext(b: Option<Bucket>, q: Quota, init: seq<real>, now: real, from: real, to: real)
    requires from <= now <= to
    ensures AfterRun(b, q, None, init + [now]) == Some(After(AfterRun(b, q, None, init), q, now))
    ensures Admitted(b, q, None, init + [now], from, to)
         == Admitted(b, q, None, init, from, to) + if Admits(AfterRun(b, q, None, init), q, now) then 1 else 0
  {
    assert (init + [now])[..|init|] == init;
  }

  /** The budget at time `t` for a window opened at `from`. */
  function Budget(q: Quota, from: real, t: real): real {
    q.capacity + (t - from) * q.rate
  }

  lemma BudgetGrows(q: Quota, from: real, t: real, t': real)
    requires q.rate >= 0.0 && t <= t'
    ensures Budget(q, from, t) <= Budget(q, from, t')
    ensures Budget(q, from, t') == Budget(q, from, t) + (t' - t) * q.rate
    ensures from <= t ==> q.capacity <= Budget(q, from, t)
  {
    Intervals(from, t, t', q.rate);
    Nonnegative(t' - t, q.rate);
    if from <= t {
      Nonnegative(t - from, q.rate);
    }
  }

  lemma KeepsBudget(admitted: int, before: Bucket, q: Quota, from: real, now: real)
    requires q.rate >= 0.0 && before.ts <= now && admitted as real + before.tokens <= Budget(q, from, before.ts)
    ensures (admitted + if Admits(Some(before), q, now) then 1 else 0) as real
            + After(Some(before), q, now).tokens <= Budget(q, from, now)
  {
    BudgetGrows(q, from, before.ts, now);
    OneCheck(Some(before), q, now);
  }

  lemma OpensBudget(b: Option<Bucket>, q: Quota, from: real, now: real)
    requires q.rate >= 0.0 && from <= now
    ensures (if Admits(b, q, now) then 1 else 0) as real + After(b, q, now).tokens <= Budget(q, from, now)
  {
    BudgetGrows(q, from, now, now);
    OneCheck(b, q, now);
  }

  /** What has been admitted since `from`, plus what is left, never exceeds the capacity plus the refill. */
  lemma {:induction false} Conservation(b: Option<Bucket>, q: Quota, times: seq<real>, from: real, to: real)
    requires NonDecreasing(times) && q.rate >= 0.0 && times != []
    requires from <= times[|times| - 1] <= to
    ensures AfterRun(b, q, None, times).Some?
    ensures AfterRun(b, q, None, times).value.ts == times[|times| - 1]
    ensures Admitted(b, q, None, times, from, to) as real
            + AfterRun(b, q, None, times).value.tokens <= Budget(q, from, times[|times| - 1])
  {
    var n := |times| - 1;
    var init, now := times[..n], times[n];
    assert times == init + [now];
    AdmittedNext(b, q, init, now, from, to);
    if init != [] && from <= init[n - 1] {
      Conservation(b, q, init, from, to);
      KeepsBudget(Admitted(b, q, None, init, from, to), AfterRun(b, q, None, init).value, q, from, now);
    } else {
      NothingBefore(b, q, init, from, to);
      OpensBudget(AfterRun(b, q, None, init), q, from, now);
    }
  }

  lemma {:induction false} NothingBefore(b: Option<Bucket>, q: Quota, times: seq<real>, from: real, to: real)
    requires NonDecreasing(times) && (times != [] ==> times[|times| - 1] < from)
    ensures Admitted(b, q, None, times, from, to) == 0
  {
    if times != [] {
      NothingBefore(b, q, times[..|times| - 1], from, to);
    }
  }

  lemma {:induction false} TokensNeverNegative(b: Option<Bucket>, q: Quota, times: seq<real>)
    requires q.rate >= 0.0 && q.capacity >= 0.0 && (b.Some? ==> b.value.tokens >= 0.0)
    ensures var after := AfterRun(b, q, None, times); after.Some? ==> after.value.tokens >= 0.0
  {
    if times != [] {
      TokensNeverNegative(b, q, times[..|times| - 1]);
      var before, now := AfterRun(b, q, None, times[..|times| - 1]), times[|times| - 1];
      if before.Some? {
        Nonnegative(Greater(0.0, now - before.value.ts), q.rate);
      }
    }
  }

  /** In any window the checks admitted by one bucket number at most its capacity plus the refill
      of the window, for every history before the window and any traffic in it. */
  lemma {:induction false} WindowBound(b: Option<Bucket>, q: Quota, times: seq<real>, from: real, to: real)
    requires NonDecreasing(times) && q.rate >= 0.0 && q.capacity >= 0.0 && from <= to
    requires b.Some? ==> b.value.tokens >= 0.0
    ensures Admitted(b, q, None, times, from, to) as real <= Budget(q, from, to)
  {
    if times == [] || times[|times| - 1] < from {
      NothingBefore(b, q, times, from, to);
      BudgetGrows(q, from, from, to);
    } else if times[|times| - 1] <= to {
      Conservation(b, q, times, from, to);
      TokensNeverNegative(b, q, times);
      assert AfterRun(b, q, None, times).value.tokens >= 0.0;
      BudgetGrows(q, from, times[|times| - 1], to);
    } else {
      WindowBound(b, q, times[..|times| - 1], from, to);
    }
  }

  // ---------------------------------------------------------------- many replicas

  /** A check lands on the shared bucket or on some replica's local one, freely. */
  datatype Check = Check(bucket: nat, time: real)

  /** The buckets of a tenant, each with the offset of the clock it reads and the expiry of its key. */
  datatype Fleet = Fleet(buckets: seq<Option<Bucket>>, offsets: seq<real>, ttls: seq<Option<real>>)

  predicate Shaped(fleet: Fleet) {
    |fleet.offsets| == |fleet.buckets| == |fleet.ttls|
  }

  predicate FleetOk(fleet: Fleet, q: Quota) {
    && Shaped(fleet)
    && (forall k :: 0 <= k < |fleet.buckets| && fleet.buckets[k].Some? ==> fleet.buckets[k].value.tokens >= 0.0)
    && (forall k :: 0 <= k < |fleet.ttls| ==>
          Harmless(q, fleet.ttls[k]) && (fleet.ttls[k].Some? ==> fleet.ttls[k].value >= 0.0))
  }

  /** The readings bucket `k` sees. */
  function Readings(fleet: Fleet, checks: seq<Check>, k: nat): seq<real>
    requires k < |fleet.offsets|
  {
    if checks == [] then []
    else
      var init, c := Readings(fleet, checks[..|checks| - 1], k), checks[|checks| - 1];
      if c.bucket == k then init + [c.time + fleet.offsets[k]] else init
  }

  ghost predicate ChecksOk(fleet: Fleet, checks: seq<Check>) {
    && (forall i :: 0 <= i < |checks| ==> checks[i].bucket < |fleet.buckets|)
    && (forall i, j :: 0 <= i <= j < |checks| ==> checks[i].time <= checks[j].time)
  }

  /** Checks of the whole fleet admitted in [from, to]. */
  function FleetAdmitted(fleet: Fleet, q: Quota, checks: seq<Check>, from: real, to: real): nat
    requires Shaped(fleet) && forall i :: 0 <= i < |checks| ==> checks[i].bucket < |fleet.buckets|
  {
    if checks == [] then 0
    else
      var init, c := checks[..|checks| - 1], checks[|checks| - 1];
      FleetAdmitted(fleet, q, init, from, to) + Gain(fleet, q, init, c, from, to)
  }

  /** Whether a check made after `init` is admitted in [from, to]. */
  function Gain(fleet: Fleet, q: Quota, init: seq<Check>, c: Check, from: real, to: real): nat
    requires Shaped(fleet) && c.bucket < |fleet.buckets|
  {
    var ttl, reading := fleet.ttls[c.bucket], c.time + fleet.offsets[c.bucket];
    var b := AfterRun(fleet.buckets[c.bucket], q, ttl, Readings(fleet, init, c.bucket));
    if from <= c.time <= to && Admits(Found(b, ttl, reading), q, reading) then 1 else 0
  }

  function BucketAdmitted(fleet: Fleet, q: Quota, checks: seq<Check>, from: real, to: real, k: nat): nat
    requires Shaped(fleet) && k < |fleet.buckets|
  {
    Admitted(fleet.buckets[k], q, fleet.ttls[k], Readings(fleet, checks, k), from + fleet.offsets[k],
             to + fleet.offsets[k])
  }

  function SumAdmitted(fleet: Fleet, q: Quota, checks: seq<Check>, from: real, to: real, n: nat): nat
    requires Shaped(fleet) && n <= |fleet.buckets|
  {
    if n == 0 then 0
    else SumAdmitted(fleet, q, checks, from, to, n - 1) + BucketAdmitted(fleet, q, checks, from, to, n - 1)
  }

  lemma {:induction false} ReadingsNonDecreasing(fleet: Fleet, checks: seq<Check>, k: nat)
    requires k < |fleet.offsets| && forall i, j :: 0 <= i <= j < |checks| ==> checks[i].time <= checks[j].time
    ensures NonDecreasing(Readings(fleet, checks, k))
    ensures checks == [] ==> Readings(fleet, checks, k) == []
    ensures checks != [] ==> forall i :: 0 <= i < |Readings(fleet, checks, k)| ==>
              Readings(fleet, checks, k)[i] <= checks[|checks| - 1].time + fleet.offsets[k]
  {
    if checks != [] {
      var init, last := checks[..|checks| - 1], checks[|checks| - 1].time + fleet.offsets[k];
      ReadingsNonDecreasing(fleet, init, k);
      var r := Readings(fleet, init, k);
      forall i | 0 <= i < |r|
        ensures r[i] <= last
      {
        assert r[i] <= init[|init| - 1].time + fleet.offsets[k];
        assert checks[|init| - 1].time <= checks[|init|].time;
      }
      assert Readings(fleet, checks, k) == r || Readings(fleet, checks, k) == r + [last];
    }
  }

  /** One more check changes the count of the bucket it lands on and of no other. */
  lemma AdmittedAfterCheck(fleet: Fleet, q: Quota, init: seq<Check>, c: Check, from: real, to: real, k: nat)
    requires Shaped(fleet) && k < |fleet.buckets| && c.bucket < |fleet.buckets|
    ensures BucketAdmitted(fleet, q, init + [c], from, to, k)
         == BucketAdmitted(fleet, q, init, from, to, k) + if c.bucket == k then Gain(fleet, q, init, c, from, to) else 0
  {
    assert (init + [c])[..|init|] == init;
    var r, offset := Readings(fleet, init, k), fleet.offsets[k];
    if c.bucket == k {
      var r' := r + [c.time + offset];
      assert Readings(fleet, init + [c], k) == r';
      assert r'[..|r|] == r;
    }
  }

  lemma {:induction false} SumAfterCheck(fleet: Fleet, q: Quota, init: seq<Check>, c: Check, from: real, to: real,
                                         n: nat)
    requires Shaped(fleet) && n <= |fleet.buckets| && c.bucket < |fleet.buckets|
    ensures SumAdmitted(fleet, q, init + [c], from, to, n)
         == SumAdmitted(fleet, q, init, from, to, n)
            + if c.bucket < n then Gain(fleet, q, init, c, from, to) else 0
  {
    if n != 0 {
      var longer := init + [c];
      SumAfterCheck(fleet, q, init, c, from, to, n - 1);
      AdmittedAfterCheck(fleet, q, init, c, from, to, n - 1);
      SumUnfolds(fleet, q, longer, from, to, n);
      SumUnfolds(fleet, q, init, from, to, n);
    }
  }

  lemma SumUnfolds(fleet: Fleet, q: Quota, checks: seq<Check>, from: real, to: real, n: nat)
    requires Shaped(fleet) && 0 < n <= |fleet.buckets|
    ensures SumAdmitted(fleet, q, checks, from, to, n)
         == SumAdmitted(fleet, q, checks, from, to, n - 1) + BucketAdmitted(fleet, q, checks, from, to, n - 1)
  {}

  lemma {:induction false} FleetIsSum(fleet: Fleet, q: Quota, checks: seq<Check>, from: real, to: real)
    requires Shaped(fleet) && forall i :: 0 <= i < |checks| ==> checks[i].bucket < |fleet.buckets|
    ensures FleetAdmitted(fleet, q, checks, from, to) == SumAdmitted(fleet, q, checks, from, to, |fleet.buckets|)
  {
    if checks == [] {
      SumOfNothing(fleet, q, from, to, |fleet.buckets|);
    } else {
      var init, c := checks[..|checks| - 1], checks[|checks| - 1];
      assert checks == init + [c];
      FleetIsSum(fleet, q, init, from, to);
      SumAfterCheck(fleet, q, init, c, from, to, |fleet.buckets|);
    }
  }

  lemma {:induction false} SumOfNothing(fleet: Fleet, q: Quota, from: real, to: real, n: nat)
    requires Shaped(fleet) && n <= |fleet.buckets|
    ensures SumAdmitted(fleet, q, [], from, to, n) == 0
  {
    if n != 0 {
      SumOfNothing(fleet, q, from, to, n - 1);
    }
  }

  /** The buckets that checks of the window land on. */
  function Used(checks: seq<Check>, from: real, to: real): set<nat> {
    set c | c in checks && from <= c.time <= to :: c.bucket
  }

  function UsedBelow(checks: seq<Check>, from: real, to: real, n: nat): set<nat> {
    set k | k in Used(checks, from, to) && k < n
  }

  lemma UsedUnfolds(checks: seq<Check>, from: real, to: real, n: nat)
    requires n > 0
    ensures |UsedBelow(checks, from, to, n)|
            == |UsedBelow(checks, from, to, n - 1)| + if n - 1 in Used(checks, from, to) then 1 else 0
  {
    var last: set<nat> := if n - 1 in Used(checks, from, to) then {n - 1} else {};
    assert UsedBelow(checks, from, to, n) == UsedBelow(checks, from, to, n - 1) + last;
  }

  /** A bucket that no check of the window lands on admits nothing in it. */
  lemma {:induction false} UnusedAdmitsNothing(fleet: Fleet, q: Quota, checks: seq<Check>, from: real, to: real, k: nat)
    requires Shaped(fleet) && k < |fleet.buckets| && k !in Used(checks, from, to)
    requires forall i :: 0 <= i < |checks| ==> checks[i].bucket < |fleet.buckets|
    ensures BucketAdmitted(fleet, q, checks, from, to, k) == 0
  {
    if checks != [] {
      var init, c := checks[..|checks| - 1], checks[|checks| - 1];
      assert checks == init + [c];
      assert c in checks && forall d :: d in init ==> d in checks;
      assert k !in Used(init, from, to);
      UnusedAdmitsNothing(fleet, q, init, from, to, k);
      AdmittedAfterCheck(fleet, q, init, c, from, to, k);
    }
  }

  lemma {:induction false} SumBound(fleet: Fleet, q: Quota, checks: seq<Check>, from: real, to: real, n: nat)
    requires FleetOk(fleet, q) && ChecksOk(fleet, checks) && n <= |fleet.buckets|
    requires q.rate >= 0.0 && q.capacity >= 0.0 && from <= to
    ensures SumAdmitted(fleet, q, checks, from, to, n) as real
            <= Times(|UsedBelow(checks, from, to, n)|, Budget(q, from, to))
  {
    if n == 0 {
      assert UsedBelow(checks, from, to, 0) == {};
    } else {
      SumBound(fleet, q, checks, from, to, n - 1);
      UsedUnfolds(checks, from, to, n);
      if n - 1 in Used(checks, from, to) {
        BucketBound(fleet, q, checks, from, to, n - 1);
      } else {
        UnusedAdmitsNothing(fleet, q, checks, from, to, n - 1);
      }
    }
  }

  lemma BucketBound(fleet: Fleet, q: Quota, checks: seq<Check>, from: real, to: real, k: nat)
    requires FleetOk(fleet, q) && ChecksOk(fleet, checks) && k < |fleet.buckets|
    requires q.rate >= 0.0 && q.capacity >= 0.0 && from <= to
    ensures BucketAdmitted(fleet, q, checks, from, to, k) as real <= Budget(q, from, to)
  {
    ReadingsNonDecreasing(fleet, checks, k);
    WindowBoundUnderExpiry(fleet.buckets[k], q, fleet.ttls[k], Readings(fleet, checks, k), from + fleet.offsets[k],
                           to + fleet.offsets[k]);
    SameWindow(q, from, to, fleet.offsets[k]);
  }

  function Times(n: nat, x: real): real {
    if n == 0 then 0.0 else Times(n - 1, x) + x
  }

  lemma {:induction false} TimesIsProduct(n: nat, x: real)
    ensures Times(n, x) == n as real * x
  {
    if n != 0 {
      TimesIsProduct(n - 1, x);
      assert n as real == (n - 1) as real + 1.0;
    }
  }

  lemma SameWindow(q: Quota, from: real, to: real, offset: real)
    ensures Budget(q, from + offset, to + offset) == Budget(q, from, to)
  {
    assert (to + offset) - (from + offset) == to - from;
  }

  lemma UsedIsBelow(fleet: Fleet, checks: seq<Check>, from: real, to: real)
    requires ChecksOk(fleet, checks)
    ensures UsedBelow(checks, from, to, |fleet.buckets|) == Used(checks, from, to)
    ensures |Used(checks, from, to)| <= |fleet.buckets|
  {
    AtMost(checks, from, to, |fleet.buckets|);
    forall k | k in Used(checks, from, to)
      ensures k < |fleet.buckets|
    {
      var c :| c in checks && c.bucket == k;
    }
    assert UsedBelow(checks, from, to, |fleet.buckets|) == Used(checks, from, to);
  }

  lemma {:induction false} AtMost(checks: seq<Check>, from: real, to: real, n: nat)
    ensures |UsedBelow(checks, from, to, n)| <= n
  {
    if n == 0 {
      assert UsedBelow(checks, from, to, 0) == {};
    } else {
      AtMost(checks, from, to, n - 1);
      UsedUnfolds(checks, from, to, n);
    }
  }

  lemma {:induction false} TimesGrows(n: nat, m: nat, x: real)
    requires n <= m && x >= 0.0
    ensures Times(n, x) <= Times(m, x)
  {
    if n < m {
      TimesGrows(n, m - 1, x);
    }
  }

  lemma BudgetNonNegative(q: Quota, from: real, to: real)
    requires q.rate >= 0.0 && q.capacity >= 0.0 && from <= to
    ensures Budget(q, from, to) >= 0.0
  {
    BudgetGrows(q, from, to, to);
  }

  lemma FleetAgainstUsed(fleet: Fleet, q: Quota, checks: seq<Check>, from: real, to: real, m: nat)
    requires FleetOk(fleet, q) && ChecksOk(fleet, checks) && |Used(checks, from, to)| <= m
    requires q.rate >= 0.0 && q.capacity >= 0.0 && from <= to
    ensures FleetAdmitted(fleet, q, checks, from, to) as real <= Times(m, Budget(q, from, to))
  {
    FleetIsSum(fleet, q, checks, from, to);
    SumBound(fleet, q, checks, from, to, |fleet.buckets|);
    UsedIsBelow(fleet, checks, from, to);
    BudgetNonNegative(q, from, to);
    TimesGrows(|Used(checks, from, to)|, m, Budget(q, from, to));
  }

  /** At most `n` times `x`. */
  predicate Within(admitted: nat, n: nat, x: real) {
    admitted as real <= n as real * x
  }

  /** N replicas that switch freely between the shared bucket and their own local ones admit together
      at most what one bucket may admit, times the number of buckets that checks of the window land on,
      which is at most N + 1. Each bucket has its own clock, and the shared key may expire (as long as
      its expiry is harmless). */
  lemma FleetBound(fleet: Fleet, q: Quota, checks: seq<Check>, replicas: nat, from: real, to: real)
    requires FleetOk(fleet, q) && ChecksOk(fleet, checks) && |fleet.buckets| == replicas + 1
    requires q.rate >= 0.0 && q.capacity >= 0.0 && from <= to
    ensures Within(FleetAdmitted(fleet, q, checks, from, to), |Used(checks, from, to)|, Budget(q, from, to))
    ensures Within(FleetAdmitted(fleet, q, checks, from, to), replicas + 1, Budget(q, from, to))
  {
    var used := |Used(checks, from, to)|;
    UsedIsBelow(fleet, checks, from, to);
    FleetAgainstUsed(fleet, q, checks, from, to, used);
    FleetAgainstUsed(fleet, q, checks, from, to, replicas + 1);
    WithinProduct(FleetAdmitted(fleet, q, checks, from, to), used, Budget(q, from, to));
    WithinProduct(FleetAdmitted(fleet, q, checks, from, to), replicas + 1, Budget(q, from, to));
  }

  lemma WithinProduct(admitted: nat, n: nat, x: real)
    ensures admitted as real <= Times(n, x) <==> Within(admitted, n, x)
  {
    TimesIsProduct(n, x);
  }

  // ---------------------------------------------------------------- the promised wait

  /** Tokens of a bucket left alone until `t`. */
  function Level(b: Bucket, q: Quota, t: real): real {
    b.tokens + (t - b.ts) * q.rate
  }

  lemma LevelReachesOne(b: Bucket, q: Quota, t: real)
    requires q.rate > 0.0
    ensures Level(b, q, t) >= 1.0 <==> t >= b.ts + RetryAfter(b.tokens, q)
  {
    var wait := RetryAfter(b.tokens, q);
    assert wait * q.rate == 1.0 - b.tokens;
    OrderScales(t - b.ts, wait, q.rate);
  }

  lemma WaitIsShort(b: Bucket, q: Quota, ttl: real)
    requires q.rate > 0.0 && b.tokens >= 0.0 && ttl * q.rate >= 1.0
    ensures RetryAfter(b.tokens, q) <= ttl
  {
    var wait := RetryAfter(b.tokens, q);
    assert wait * q.rate == 1.0 - b.tokens;
    OrderScales(ttl, wait, q.rate);
  }

  /** A check before the promised time is denied and only moves the time stamp. */
  lemma EarlyCheck(b: Bucket, q: Quota, ttl: Option<real>, previous: real, now: real)
    requires q.rate > 0.0 && q.capacity >= 1.0 && b.tokens >= 0.0 && (ttl.Some? ==> ttl.value * q.rate >= 1.0)
    requires b.ts <= previous <= now < b.ts + RetryAfter(b.tokens, q)
    ensures var found := Found(Some(Bucket(Level(b, q, previous), previous)), ttl, now);
            !Admits(found, q, now) && After(found, q, now) == Bucket(Level(b, q, now), now)
  {
    if ttl.Some? {
      WaitIsShort(b, q, ttl.value);
    }
    Intervals(b.ts, previous, now, q.rate);
    LevelReachesOne(b, q, now);
    var found := Found(Some(Bucket(Level(b, q, previous), previous)), ttl, now);
    assert found == Some(Bucket(Level(b, q, previous), previous));
    assert Greater(0.0, now - previous) == now - previous;
    assert Available(found, q, now) == Level(b, q, now);
  }

  ghost predicate Early(b: Bucket, q: Quota, times: seq<real>)
    requires q.rate != 0.0
  {
    NonDecreasing(times) && forall i :: 0 <= i < |times| ==> b.ts <= times[i] < b.ts + RetryAfter(b.tokens, q)
  }

  function LastOr(times: seq<real>, t: real): real { if times == [] then t else times[|times| - 1] }

  lemma {:induction false} EarlyChecks(b: Bucket, q: Quota, ttl: Option<real>, times: seq<real>)
    requires q.rate > 0.0 && q.capacity >= 1.0 && b.tokens >= 0.0 && (ttl.Some? ==> ttl.value * q.rate >= 1.0)
    requires Early(b, q, times)
    ensures var last := LastOr(times, b.ts); AfterRun(Some(b), q, ttl, times) == Some(Bucket(Level(b, q, last), last))
    ensures forall k :: 0 <= k < |times| ==> !Decides(Some(b), q, ttl, times, k)
  {
    if times == [] {
      assert b.ts - b.ts == 0.0;
      Zero(q.rate);
      assert Level(b, q, b.ts) == b.tokens;
    } else {
      var init, now := times[..|times| - 1], times[|times| - 1];
      EarlyChecks(b, q, ttl, init);
      EarlyCheck(b, q, ttl, LastOr(init, b.ts), now);
      forall k | 0 <= k < |times|
        ensures !Decides(Some(b), q, ttl, times, k)
      {
        if k < |init| {
          assert times[..k] == init[..k];
          assert !Decides(Some(b), q, ttl, init, k);
        }
      }
    }
  }

  /** The wait announced with a denial is exact: whatever is tried before it is over is denied, and
      the first check after those denials is admitted exactly when the wait is over. */
  lemma RetryAfterIsExact(b: Bucket, q: Quota, ttl: Option<real>, times: seq<real>, t: real)
    requires q.rate > 0.0 && q.capacity >= 1.0 && b.tokens >= 0.0 && (ttl.Some? ==> ttl.value * q.rate >= 1.0)
    requires Early(b, q, times) && LastOr(times, b.ts) <= t
    ensures forall k :: 0 <= k < |times| ==> !Decides(Some(b), q, ttl, times, k)
    ensures Admits(Found(AfterRun(Some(b), q, ttl, times), ttl, t), q, t) <==> t >= b.ts + RetryAfter(b.tokens, q)
  {
    EarlyChecks(b, q, ttl, times);
    var last := LastOr(times, b.ts);
    assert b.ts <= last;
    if t < b.ts + RetryAfter(b.tokens, q) {
      EarlyCheck(b, q, ttl, last, t);
    } else {
      LateCheck(b, q, ttl, last, t);
    }
  }

  lemma LateCheck(b: Bucket, q: Quota, ttl: Option<real>, previous: real, now: real)
    requires q.rate > 0.0 && q.capacity >= 1.0 && b.ts <= previous <= now && now >= b.ts + RetryAfter(b.tokens, q)
    ensures Admits(Found(Some(Bucket(Level(b, q, previous), previous)), ttl, now), q, now)
  {
    Intervals(b.ts, previous, now, q.rate);
    LevelReachesOne(b, q, now);
  }

  /** For every positive limit, in particular, on the expiring shared key and on a local bucket alike. */
  lemma RetryAfterIsExactForEveryLimit(limitPerMinute: int, burstRatio: real, b: Bucket, shared: bool, times: seq<real>,
                                       t: real)
    requires limitPerMinute >= 1 && b.tokens >= 0.0
    requires var q := QuotaOf(limitPerMinute, burstRatio); Early(b, q, times) && LastOr(times, b.ts) <= t
    ensures var q, ttl := QuotaOf(limitPerMinute, burstRatio), if shared then Some(TTL) else None;
            && (forall k :: 0 <= k < |times| ==> !Decides(Some(b), q, ttl, times, k))
            && (Admits(Found(AfterRun(Some(b), q, ttl, times), ttl, t), q, t) <==> t >= b.ts + RetryAfter(b.tokens, q))
  {
    var q := QuotaOf(limitPerMinute, burstRatio);
    assert TTL * q.rate == 2.0 * limitPerMinute as real;
    RetryAfterIsExact(b, q, if shared then Some(TTL) else None, times, t);
  }

  /** Waiting the whole seconds of the header is enough. */
  lemma HeaderSuffices(b: Bucket, q: Quota, ttl: Option<real>, times: seq<real>)
    requires q.rate > 0.0 && q.capacity >= 1.0 && 0.0 <= b.tokens < 1.0 && (ttl.Some? ==> ttl.value * q.rate >= 1.0)
    requires Early(b, q, times)
    ensures var t := b.ts + RetryAfterHeader(RetryAfter(b.tokens, q)) as real;
            Admits(Found(AfterRun(Some(b), q, ttl, times), ttl, t), q, t)
  {
    var wait := RetryAfter(b.tokens, q);
    LevelReachesOne(b, q, b.ts);
    Zero(q.rate);
    assert wait > 0.0;
    RetryAfterIsExact(b, q, ttl, times, b.ts + RetryAfterHeader(wait) as real);
  }

  // ---------------------------------------------------------------- expiry of the shared key

  /** The key never expires, or the bucket would be full by the time it does. */
  predicate Harmless(q: Quota, ttl: Option<real>) {
    ttl.Some? ==> q.capacity <= ttl.value * q.rate
  }

  /** The two runs, with and without expiry, decide alike. */
  ghost predicate ExpiryInvisible(b: Option<Bucket>, q: Quota, ttl: Option<real>, times: seq<real>) {
    forall k :: 0 <= k < |times| ==> Decides(b, q, ttl, times, k) == Decides(b, q, None, times, k)
  }

  /** After `ttl` idle seconds the bucket is full anyway. */
  lemma FullAgain(b: Bucket, q: Quota, ttl: real, now: real)
    requires q.rate >= 0.0 && q.capacity <= ttl * q.rate && b.tokens >= 0.0 && b.ts + ttl <= now && 0.0 <= ttl
    ensures Available(Some(b), q, now) == q.capacity
  {
    Nonnegative(now - b.ts - ttl, q.rate);
    assert (now - b.ts) * q.rate == (now - b.ts - ttl) * q.rate + ttl * q.rate;
  }

  lemma {:induction false} SameStateUnderExpiry(b: Option<Bucket>, q: Quota, ttl: Option<real>, times: seq<real>)
    requires q.rate >= 0.0 && q.capacity >= 0.0 && Harmless(q, ttl) && (ttl.Some? ==> ttl.value >= 0.0)
    requires b.Some? ==> b.value.tokens >= 0.0
    ensures AfterRun(b, q, ttl, times) == AfterRun(b, q, None, times)
  {
    if times != [] {
      var init, now := times[..|times| - 1], times[|times| - 1];
      SameStateUnderExpiry(b, q, ttl, init);
      SameDecision(b, q, ttl, init, now);
    }
  }

  lemma ExpiryKeepsAvailable(b: Option<Bucket>, q: Quota, ttl: Option<real>, now: real)
    requires q.rate >= 0.0 && Harmless(q, ttl) && (ttl.Some? ==> ttl.value >= 0.0)
    requires b.Some? ==> b.value.tokens >= 0.0
    ensures Available(Found(b, ttl, now), q, now) == Available(b, q, now)
  {
    if b.Some? && ttl.Some? && b.value.ts + ttl.value <= now {
      FullAgain(b.value, q, ttl.value, now);
    }
  }

  lemma SameDecision(b: Option<Bucket>, q: Quota, ttl: Option<real>, init: seq<real>, now: real)
    requires q.rate >= 0.0 && q.capacity >= 0.0 && Harmless(q, ttl) && (ttl.Some? ==> ttl.value >= 0.0)
    requires b.Some? ==> b.value.tokens >= 0.0
    ensures Available(Found(AfterRun(b, q, None, init), ttl, now), q, now)
            == Available(AfterRun(b, q, None, init), q, now)
  {
    TokensNeverNegative(b, q, init);
    ExpiryKeepsAvailable(AfterRun(b, q, None, init), q, ttl, now);
  }

  lemma ShortRefillHidesExpiry(b: Option<Bucket>, q: Quota, ttl: Option<real>, times: seq<real>)
    requires q.rate >= 0.0 && q.capacity >= 0.0 && Harmless(q, ttl) && (ttl.Some? ==> ttl.value >= 0.0)
    requires b.Some? ==> b.value.tokens >= 0.0
    ensures ExpiryInvisible(b, q, ttl, times)
  {
    forall k | 0 <= k < |times|
      ensures Decides(b, q, ttl, times, k) == Decides(b, q, None, times, k)
    {
      SameStateUnderExpiry(b, q, ttl, times[..k]);
      SameDecision(b, q, ttl, times[..k], times[k]);
    }
  }

  lemma {:induction false} SameAdmittedUnderExpiry(b: Option<Bucket>, q: Quota, ttl: Option<real>, times: seq<real>,
                                                   from: real, to: real)
    requires q.rate >= 0.0 && q.capacity >= 0.0 && Harmless(q, ttl) && (ttl.Some? ==> ttl.value >= 0.0)
    requires b.Some? ==> b.value.tokens >= 0.0
    ensures Admitted(b, q, ttl, times, from, to) == Admitted(b, q, None, times, from, to)
  {
    if times != [] {
      SameAdmittedUnderExpiry(b, q, ttl, times[..|times| - 1], from, to);
      ShortRefillHidesExpiry(b, q, ttl, times);
    }
  }

  /** So the window bound holds of an expiring key too. */
  lemma WindowBoundUnderExpiry(b: Option<Bucket>, q: Quota, ttl: Option<real>, times: seq<real>, from: real, to: real)
    requires NonDecreasing(times) && q.rate >= 0.0 && q.capacity >= 0.0 && from <= to
    requires Harmless(q, ttl) && (ttl.Some? ==> ttl.value >= 0.0) && (b.Some? ==> b.value.tokens >= 0.0)
    ensures Admitted(b, q, ttl, times, from, to) as real <= Budget(q, from, to)
  {
    SameAdmittedUnderExpiry(b, q, ttl, times, from, to);
    WindowBound(b, q, times, from, to);
  }

  function Repeat(t: real, n: nat): (times: seq<real>)
    ensures |times| == n && forall i :: 0 <= i < n ==> times[i] == t
  {
    seq(n, _ => t)
  }

  lemma {:induction false} RunConcat(b: Option<Bucket>, q: Quota, ttl: Option<real>, first: seq<real>,
                                     second: seq<real>)
    ensures AfterRun(b, q, ttl, first + second) == AfterRun(AfterRun(b, q, ttl, first), q, ttl, second)
  {
    if second == [] {
      assert first + second == first;
    } else {
      assert (first + second)[..|first + second| - 1] == first + second[..|second| - 1];
      RunConcat(b, q, ttl, first, second[..|second| - 1]);
    }
  }

  lemma SingleCheck(b: Option<Bucket>, q: Quota, ttl: Option<real>, t: real)
    ensures AfterRun(b, q, ttl, [t]) == Some(After(Found(b, ttl, t), q, t))
    ensures AllAdmitted(b, q, ttl, [t]) <==> Admits(Found(b, ttl, t), q, t)
  {
    assert [t][..0] == [];
    assert AfterRun(b, q, ttl, [t][..0]) == b;
  }

  /** A bucket looked at again at once is unchanged. */
  lemma AtOnce(x: real, t: real, q: Quota, ttl: Option<real>)
    requires x <= q.capacity && (ttl.Some? ==> ttl.value > 0.0)
    ensures Available(Found(Some(Bucket(x, t)), ttl, t), q, t) == x
  {
    assert Greater(0.0, t - t) == 0.0;
    Zero(q.rate);
  }

  /** Checks at one instant empty the bucket one token at a time. */
  lemma {:induction false} Drain(x: real, t: real, q: Quota, ttl: Option<real>, n: nat)
    requires n as real <= x <= q.capacity && (ttl.Some? ==> ttl.value > 0.0)
    ensures AfterRun(Some(Bucket(x, t)), q, ttl, Repeat(t, n)) == Some(Bucket(x - n as real, t))
  {
    if n != 0 {
      Drain(x, t, q, ttl, n - 1);
      assert Repeat(t, n)[..n - 1] == Repeat(t, n - 1);
      AtOnce(x - (n - 1) as real, t, q, ttl);
    }
  }

  /** The same, when the first check finds `x` tokens. */
  lemma DrainFrom(b: Option<Bucket>, x: real, t: real, q: Quota, ttl: Option<real>, n: nat)
    requires Available(Found(b, ttl, t), q, t) == x && 1 <= n && n as real <= x <= q.capacity
    requires ttl.Some? ==> ttl.value > 0.0
    ensures AfterRun(b, q, ttl, Repeat(t, n)) == Some(Bucket(x - n as real, t))
  {
    assert Repeat(t, n) == [t] + Repeat(t, n - 1);
    RunConcat(b, q, ttl, [t], Repeat(t, n - 1));
    SingleCheck(b, q, ttl, t);
    Drain(x - 1.0, t, q, ttl, n - 1);
  }

  /** Empty the bucket, wait for the rest of one token and spend it: nothing is left. */
  function EmptyTime(q: Quota): real
    requires q.rate != 0.0
  {
    (1.0 - (q.capacity - q.capacity.Floor as real)) / q.rate
  }

  lemma WaitTimesRate(x: real, rate: real)
    requires rate > 0.0
    ensures (x / rate) * rate == x
    ensures x >= 0.0 ==> x / rate >= 0.0
  {}

  lemma WaitBelow(x: real, rate: real, ttl: real)
    requires rate > 0.0 && x < ttl * rate
    ensures x / rate < ttl
  {
    WaitTimesRate(x, rate);
    OrderScales(x / rate, ttl, rate);
  }

  /** A single check at `t` that finds exactly one token leaves none. */
  lemma SpendsTheLast(b: Bucket, t: real, q: Quota, ttl: Option<real>)
    requires q.capacity >= 1.0 && b.ts <= t < b.ts + TTL && (ttl == None || ttl == Some(TTL))
    requires b.tokens + (t - b.ts) * q.rate == 1.0
    ensures AfterRun(Some(b), q, ttl, [t]) == Some(Bucket(0.0, t))
    ensures AllAdmitted(Some(b), q, ttl, [t])
  {
    assert Found(Some(b), ttl, t) == Some(b);
    assert Available(Some(b), q, t) == 1.0 by {
      assert Greater(0.0, t - b.ts) == t - b.ts;
    }
    SingleCheck(Some(b), q, ttl, t);
  }

  lemma EmptyTimeIsShort(q: Quota)
    requires q.rate > 0.0 && 1.0 < TTL * q.rate
    ensures 0.0 <= EmptyTime(q) < TTL
    ensures EmptyTime(q) * q.rate == 1.0 - (q.capacity - q.capacity.Floor as real)
  {
    var x := 1.0 - (q.capacity - q.capacity.Floor as real);
    WaitTimesRate(x, q.rate);
    WaitBelow(x, q.rate, TTL);
  }

  /** Every check of the run is admitted. */
  predicate AllAdmitted(b: Option<Bucket>, q: Quota, ttl: Option<real>, times: seq<real>) {
    times == [] || (AllAdmitted(b, q, ttl, times[..|times| - 1]) && Decides(b, q, ttl, times, |times| - 1))
  }

  lemma {:induction false} CountAll(b: Option<Bucket>, q: Quota, ttl: Option<real>, times: seq<real>, from: real,
                                    to: real)
    requires AllAdmitted(b, q, ttl, times) && forall k :: 0 <= k < |times| ==> from <= times[k] <= to
    ensures Admitted(b, q, ttl, times, from, to) == |times|
  {
    if times != [] {
      CountAll(b, q, ttl, times[..|times| - 1], from, to);
    }
  }

  lemma {:induction false} JoinRuns(b: Option<Bucket>, q: Quota, ttl: Option<real>, first: seq<real>, second: seq<real>)
    requires AllAdmitted(b, q, ttl, first) && AllAdmitted(AfterRun(b, q, ttl, first), q, ttl, second)
    ensures AllAdmitted(b, q, ttl, first + second)
    ensures AfterRun(b, q, ttl, first + second) == AfterRun(AfterRun(b, q, ttl, first), q, ttl, second)
  {
    RunConcat(b, q, ttl, first, second);
    if second == [] {
      assert first + second == first;
    } else {
      var init := second[..|second| - 1];
      assert (first + second)[..|first + second| - 1] == first + init;
      JoinRuns(b, q, ttl, first, init);
    }
  }

  /** Checks at one instant are all admitted while whole tokens last. */
  lemma {:induction false} DrainAdmits(b: Option<Bucket>, x: real, t: real, q: Quota, ttl: Option<real>, n: nat)
    requires Available(Found(b, ttl, t), q, t) == x && n as real <= x <= q.capacity && (ttl.Some? ==> ttl.value > 0.0)
    ensures AllAdmitted(b, q, ttl, Repeat(t, n))
  {
    if n != 0 {
      assert Repeat(t, n)[..n - 1] == Repeat(t, n - 1);
      DrainAdmits(b, x, t, q, ttl, n - 1);
      if n == 1 {
        assert Repeat(t, 0) == [];
      } else {
        DrainFrom(b, x, t, q, ttl, n - 1);
        AtOnce(x - (n - 1) as real, t, q, ttl);
      }
    }
  }

  /** Spend the whole tokens of a full bucket at `t`, then the last one as soon as it is complete. */
  function Burst(q: Quota, t: real): seq<real>
    requires q.rate != 0.0 && q.capacity >= 1.0
  {
    Repeat(t, q.capacity.Floor) + [t + EmptyTime(q)]
  }

  lemma LastOfBurst(q: Quota, ttl: Option<real>, t: real)
    requires q.rate > 0.0 && q.capacity >= 5.0 && 1.0 < TTL * q.rate && (ttl == None || ttl == Some(TTL))
    ensures var left, last := Bucket(q.capacity - q.capacity.Floor as real, t), t + EmptyTime(q);
            AfterRun(Some(left), q, ttl, [last]) == Some(Bucket(0.0, last)) && AllAdmitted(Some(left), q, ttl, [last])
  {
    EmptyTimeIsShort(q);
    var last := t + EmptyTime(q);
    assert last - t == EmptyTime(q);
    SpendsTheLast(Bucket(q.capacity - q.capacity.Floor as real, t), last, q, ttl);
  }

  lemma WholeTokens(b: Option<Bucket>, q: Quota, ttl: Option<real>, t: real)
    requires q.capacity >= 5.0 && (ttl == None || ttl == Some(TTL)) && Found(b, ttl, t) == None
    ensures var n := q.capacity.Floor;
            && AfterRun(b, q, ttl, Repeat(t, n)) == Some(Bucket(q.capacity - n as real, t))
            && AllAdmitted(b, q, ttl, Repeat(t, n))
  {
    var n := q.capacity.Floor;
    DrainAdmits(b, q.capacity, t, q, ttl, n);
    DrainFrom(b, q.capacity, t, q, ttl, n);
  }

  lemma BurstAdmits(b: Option<Bucket>, q: Quota, ttl: Option<real>, t: real)
    requires q.rate > 0.0 && q.capacity >= 5.0 && 1.0 < TTL * q.rate && (ttl == None || ttl == Some(TTL))
    requires Found(b, ttl, t) == None
    ensures AllAdmitted(b, q, ttl, Burst(q, t))
    ensures AfterRun(b, q, ttl, Burst(q, t)) == Some(Bucket(0.0, t + EmptyTime(q)))
  {
    var first, second := Repeat(t, q.capacity.Floor), [t + EmptyTime(q)];
    WholeTokens(b, q, ttl, t);
    LastOfBurst(q, ttl, t);
    JoinRuns(b, q, ttl, first, second);
  }

  // ---------------------------------------------------------------- the answers of a limiter

  /** One call of the limiter: what becomes of its request to the shared store, and the two clocks. */
  datatype Call = Call(link: Link, sharedNow: real, localNow: real)

  /** The readings the shared bucket sees, and those the local one sees. */
  function SharedReadings(calls: seq<Call>): seq<real> {
    if calls == [] then []
    else
      var init, c := SharedReadings(calls[..|calls| - 1]), calls[|calls| - 1];
      if c.link.Down? then init else init + [c.sharedNow]
  }

  function LocalReadings(calls: seq<Call>): seq<real> {
    if calls == [] then []
    else
      var init, c := LocalReadings(calls[..|calls| - 1]), calls[|calls| - 1];
      if c.link.Up? then init else init + [c.localNow]
  }

  /** How many callers of the window were told they are allowed, by the bucket in question. */
  function Allowed(calls: seq<Call>, answers: seq<Decision>, degraded: bool, from: real, to: real): nat
    requires |answers| == |calls|
  {
    if calls == [] then 0
    else
      var n := |calls| - 1;
      var now := if degraded then calls[n].localNow else calls[n].sharedNow;
      Allowed(calls[..n], answers[..n], degraded, from, to)
      + if answers[n].allowed && answers[n].degraded == degraded && from <= now <= to then 1 else 0
  }

  lemma ReadingsNext(calls: seq<Call>, i: nat)
    requires i < |calls|
    ensures SharedReadings(calls[..i + 1])
         == SharedReadings(calls[..i]) + if calls[i].link.Down? then [] else [calls[i].sharedNow]
    ensures LocalReadings(calls[..i + 1])
         == LocalReadings(calls[..i]) + if calls[i].link.Up? then [] else [calls[i].localNow]
  {
    assert calls[..i + 1][..i] == calls[..i];
  }

  lemma AllowedNext(calls: seq<Call>, answers: seq<Decision>, answer: Decision, i: nat, degraded: bool,
                    from: real, to: real)
    requires i < |calls| && |answers| == i
    ensures var now := if degraded then calls[i].localNow else calls[i].sharedNow;
            Allowed(calls[..i + 1], answers + [answer], degraded, from, to)
            == Allowed(calls[..i], answers, degraded, from, to)
               + if answer.allowed && answer.degraded == degraded && from <= now <= to then 1 else 0
  {
    assert calls[..i + 1][..i] == calls[..i] && (answers + [answer])[..i] == answers;
  }

  lemma RunNext(b: Option<Bucket>, q: Quota, ttl: Option<real>, times: seq<real>, now: real, from: real, to: real)
    ensures AfterRun(b, q, ttl, times + [now]) == Some(After(Found(AfterRun(b, q, ttl, times), ttl, now), q, now))
    ensures Admitted(b, q, ttl, times + [now], from, to)
         == Admitted(b, q, ttl, times, from, to)
            + if from <= now <= to && Admits(Found(AfterRun(b, q, ttl, times), ttl, now), q, now) then 1 else 0
  {
    assert (times + [now])[..|times|] == times;
  }

  lemma SharedNext(shared: Option<Bucket>, q: Quota, calls: seq<Call>, i: nat, from: real, to: real)
    requires i < |calls|
    ensures var before, now := SharedReadings(calls[..i]), calls[i].sharedNow;
            SharedReadings(calls[..i + 1]) == if calls[i].link.Down? then before else before + [now]
    ensures !calls[i].link.Down? ==>
              var before, now := SharedReadings(calls[..i]), calls[i].sharedNow;
              var found := Found(AfterRun(shared, q, Some(TTL), before), Some(TTL), now);
              && AfterRun(shared, q, Some(TTL), before + [now]) == Some(After(found, q, now))
              && Admitted(shared, q, Some(TTL), before + [now], from, to)
                 == Admitted(shared, q, Some(TTL), before, from, to)
                    + (if from <= now <= to && Admits(found, q, now) then 1 else 0)
  {
    ReadingsNext(calls, i);
    RunNext(shared, q, Some(TTL), SharedReadings(calls[..i]), calls[i].sharedNow, from, to);
  }

  lemma LocalNext(local: Option<Bucket>, q: Quota, calls: seq<Call>, i: nat, from: real, to: real)
    requires i < |calls|
    ensures var before, now := LocalReadings(calls[..i]), calls[i].localNow;
            LocalReadings(calls[..i + 1]) == if calls[i].link.Up? then before else before + [now]
    ensures !calls[i].link.Up? ==>
              var before, now := LocalReadings(calls[..i]), calls[i].localNow;
              && AfterRun(local, q, None, before + [now]) == Some(After(AfterRun(local, q, None, before), q, now))
              && Admitted(local, q, None, before + [now], from, to)
                 == Admitted(local, q, None, before, from, to)
                    + (if from <= now <= to && Admits(AfterRun(local, q, None, before), q, now) then 1 else 0)
  {
    ReadingsNext(calls, i);
    RunNext(local, q, None, LocalReadings(calls[..i]), calls[i].localNow, from, to);
  }

  /** The answers "allowed" are checks that the buckets admitted; a lost answer counts at the shared one. */
  ghost predicate Counts(shared: Option<Bucket>, local: Option<Bucket>, q: Quota, calls: seq<Call>,
                         answers: seq<Decision>, from: real, to: real)
    requires |answers| == |calls|
  {
    && Allowed(calls, answers, false, from, to) <= Admitted(shared, q, Some(TTL), SharedReadings(calls), from, to)
    && Allowed(calls, answers, true, from, to) == Admitted(local, q, None, LocalReadings(calls), from, to)
  }

  /** What one call does to the two buckets of a key, and whether it allows. */
  ghost predicate Asked(shared: Option<Bucket>, local: Option<Bucket>, q: Quota, c: Call, answer: Decision,
                        shared': Option<Bucket>, local': Option<Bucket>)
  {
    var found := Found(shared, Some(TTL), c.sharedNow);
    && shared' == (if c.link.Down? then shared else Some(After(found, q, c.sharedNow)))
    && local' == (if c.link.Up? then local else Some(After(local, q, c.localNow)))
    && answer.degraded == !c.link.Up?
    && answer.allowed == if c.link.Up? then Admits(found, q, c.sharedNow) else Admits(local, q, c.localNow)
  }

  method Ask(limiter: Limiter, key: string, limitPerMinute: int, c: Call) returns (answer: Decision)
    requires limitPerMinute >= 1 && limiter.shared != null
    modifies limiter, limiter.shared
    ensures Asked(Get(old(limiter.shared.buckets), key), Get(old(limiter.local), key),
                  QuotaOf(limitPerMinute, limiter.burstRatio), c, answer,
                  Get(limiter.shared.buckets, key), Get(limiter.local, key))
  {
    var decision := limiter.Check(key, limitPerMinute, c.link, c.sharedNow, c.localNow);
    answer := decision.value;
  }

  /** The buckets after some calls are those of the checks they saw. */
  ghost predicate SharedAt(shared: Option<Bucket>, q: Quota, calls: seq<Call>, now: Option<Bucket>) {
    now == AfterRun(shared, q, Some(TTL), SharedReadings(calls))
  }

  ghost predicate LocalAt(local: Option<Bucket>, q: Quota, calls: seq<Call>, now: Option<Bucket>) {
    now == AfterRun(local, q, None, LocalReadings(calls))
  }

  lemma SharedTracks(shared: Option<Bucket>, q: Quota, calls: seq<Call>, i: nat, answer: Decision,
                     before: Option<Bucket>, localBefore: Option<Bucket>, after: Option<Bucket>,
                     localAfter: Option<Bucket>)
    requires i < |calls| && SharedAt(shared, q, calls[..i], before)
    requires Asked(before, localBefore, q, calls[i], answer, after, localAfter)
    ensures SharedAt(shared, q, calls[..i + 1], after)
  {
    SharedNext(shared, q, calls, i, 0.0, 0.0);
  }

  lemma LocalTracks(local: Option<Bucket>, q: Quota, calls: seq<Call>, i: nat, answer: Decision,
                    before: Option<Bucket>, localBefore: Option<Bucket>, after: Option<Bucket>,
                    localAfter: Option<Bucket>)
    requires i < |calls| && LocalAt(local, q, calls[..i], localBefore)
    requires Asked(before, localBefore, q, calls[i], answer, after, localAfter)
    ensures LocalAt(local, q, calls[..i + 1], localAfter)
  {
    LocalNext(local, q, calls, i, 0.0, 0.0);
  }

  lemma CountsNext(shared: Option<Bucket>, local: Option<Bucket>, q: Quota, calls: seq<Call>, i: nat,
                   answers: seq<Decision>, answer: Decision, from: real, to: real,
                   before: Option<Bucket>, localBefore: Option<Bucket>, after: Option<Bucket>,
                   localAfter: Option<Bucket>)
    requires i < |calls| && |answers| == i && Counts(shared, local, q, calls[..i], answers, from, to)
    requires SharedAt(shared, q, calls[..i], before) && LocalAt(local, q, calls[..i], localBefore)
    requires Asked(before, localBefore, q, calls[i], answer, after, localAfter)
    ensures Counts(shared, local, q, calls[..i + 1], answers + [answer], from, to)
  {
    AllowedNext(calls, answers, answer, i, false, from, to);
    AllowedNext(calls, answers, answer, i, true, from, to);
    SharedNext(shared, q, calls, i, from, to);
    LocalNext(local, q, calls, i, from, to);
  }

  method AskNext(limiter: Limiter, key: string, limitPerMinute: int, calls: seq<Call>, i: nat,
                 ghost answers: seq<Decision>, ghost from: real, ghost to: real,
                 ghost shared: Option<Bucket>, ghost local: Option<Bucket>, ghost q: Quota)
    returns (answer: Decision)
    requires limitPerMinute >= 1 && limiter.shared != null && q == QuotaOf(limitPerMinute, limiter.burstRatio)
    requires i < |calls| && |answers| == i && Counts(shared, local, q, calls[..i], answers, from, to)
    requires SharedAt(shared, q, calls[..i], Get(limiter.shared.buckets, key))
    requires LocalAt(local, q, calls[..i], Get(limiter.local, key))
    modifies limiter, limiter.shared
    ensures answer.degraded == !calls[i].link.Up?
    ensures SharedAt(shared, q, calls[..i + 1], Get(limiter.shared.buckets, key))
    ensures LocalAt(local, q, calls[..i + 1], Get(limiter.local, key))
    ensures Counts(shared, local, q, calls[..i + 1], answers + [answer], from, to)
  {
    ghost var before, localBefore := Get(limiter.shared.buckets, key), Get(limiter.local, key);
    answer := Ask(limiter, key, limitPerMinute, calls[i]);
    ghost var after, localAfter := Get(limiter.shared.buckets, key), Get(limiter.local, key);
    SharedTracks(shared, q, calls, i, answer, before, localBefore, after, localAfter);
    LocalTracks(local, q, calls, i, answer, before, localBefore, after, localAfter);
    CountsNext(shared, local, q, calls, i, answers, answer, from, to, before, localBefore, after, localAfter);
  }

  method CheckEach(limiter: Limiter, key: string, limitPerMinute: int, calls: seq<Call>, from: real, to: real)
    returns (answers: seq<Decision>)
    requires limitPerMinute >= 1 && limiter.shared != null
    modifies limiter, limiter.shared
    ensures |answers| == |calls| && forall i :: 0 <= i < |calls| ==> answers[i].degraded == !calls[i].link.Up?
    ensures Counts(Get(old(limiter.shared.buckets), key), Get(old(limiter.local), key),
                   QuotaOf(limitPerMinute, limiter.burstRatio), calls, answers, from, to)
  {
    ghost var q := QuotaOf(limitPerMinute, limiter.burstRatio);
    ghost var shared, local := Get(limiter.shared.buckets, key), Get(limiter.local, key);
    answers := [];
    for i := 0 to |calls|
      invariant |answers| == i && forall j :: 0 <= j < i ==> answers[j].degraded == !calls[j].link.Up?
      invariant SharedAt(shared, q, calls[..i], Get(limiter.shared.buckets, key))
      invariant LocalAt(local, q, calls[..i], Get(limiter.local, key))
      invariant Counts(shared, local, q, calls[..i], answers, from, to)
    {
      var answer := AskNext(limiter, key, limitPerMinute, calls, i, answers, from, to, shared, local, q);
      answers := answers + [answer];
    }
    assert calls[..|calls|] == calls;
  }

  /** A run of checks of one key, in which the shared store answers, loses its answer or is down at will:
      the callers told "allowed" by either bucket in a window of its clock keep to its budget, whatever the
      buckets held before. */
  method CheckAll(limiter: Limiter, key: string, limitPerMinute: int, calls: seq<Call>, from: real, to: real)
    returns (answers: seq<Decision>)
    requires limitPerMinute >= 3 && limiter.burstRatio <= 2.0 && limiter.shared != null && from <= to
    requires key in limiter.shared.buckets ==> limiter.shared.buckets[key].tokens >= 0.0
    requires key in limiter.local ==> limiter.local[key].tokens >= 0.0
    requires NonDecreasing(SharedReadings(calls)) && NonDecreasing(LocalReadings(calls))
    modifies limiter, limiter.shared
    ensures |answers| == |calls|
    ensures forall i :: 0 <= i < |calls| ==> answers[i].degraded == !calls[i].link.Up?
    ensures var q := QuotaOf(limitPerMinute, limiter.burstRatio);
            && Allowed(calls, answers, false, from, to) as real <= Budget(q, from, to)
            && Allowed(calls, answers, true, from, to) as real <= Budget(q, from, to)
  {
    ghost var q := QuotaOf(limitPerMinute, limiter.burstRatio);
    QuotaIsHarmless(limitPerMinute, limiter.burstRatio);
    WindowBoundUnderExpiry(Get(limiter.shared.buckets, key), q, Some(TTL), SharedReadings(calls), from, to);
    WindowBound(Get(limiter.local, key), q, LocalReadings(calls), from, to);
    answers := CheckEach(limiter, key, limitPerMinute, calls, from, to);
  }

  lemma QuotaIsHarmless(limitPerMinute: int, burstRatio: real)
    requires limitPerMinute >= 3 && burstRatio <= 2.0
    ensures var q := QuotaOf(limitPerMinute, burstRatio);
            Harmless(q, Some(TTL)) && q.rate >= 0.0 && q.capacity >= 0.0
  {
    assert TTL * QuotaOf(limitPerMinute, burstRatio).rate == (2 * limitPerMinute) as real;
    RatioAgainstTwo(limitPerMinute, burstRatio);
  }

  // ---------------------------------------------------------------- N times the limit

  /** The shared bucket and N local ones, nothing spent yet. */
  function FreshFleet(replicas: nat): Fleet {
    var n := replicas + 1;
    Fleet(seq(n, _ => None), seq(n, _ => 0.0), seq(n, k => if k == 0 then Some(TTL) else None))
  }

  function Checks(bucket: nat, t: real, n: nat): seq<Check> {
    seq(n, _ => Check(bucket, t))
  }

  /** Each of the first `n` buckets is checked `each` times at time 0. */
  function Opening(n: nat, each: nat): seq<Check> {
    if n == 0 then [] else Opening(n - 1, each) + Checks(n - 1, 0.0, each)
  }

  /** Each of them is checked once at `t`. */
  function Closing(n: nat, t: real): seq<Check> {
    seq(n, k requires 0 <= k < n => Check(k, t))
  }

  /** Every bucket spends its whole tokens at once, then the last one as soon as it is complete. */
  function BurstEverywhere(q: Quota, n: nat): seq<Check>
    requires q.rate != 0.0 && q.capacity >= 1.0
  {
    Opening(n, q.capacity.Floor) + Closing(n, EmptyTime(q))
  }

  lemma {:induction false} ReadingsConcat(fleet: Fleet, a: seq<Check>, b: seq<Check>, k: nat)
    requires k < |fleet.offsets|
    ensures Readings(fleet, a + b, k) == Readings(fleet, a, k) + Readings(fleet, b, k)
  {
    if b == [] {
      assert a + b == a;
    } else {
      var init := b[..|b| - 1];
      assert (a + b)[..|a + b| - 1] == a + init;
      ReadingsConcat(fleet, a, init, k);
    }
  }

  lemma {:induction false} ReadingsOfChecks(fleet: Fleet, bucket: nat, t: real, n: nat, k: nat)
    requires k < |fleet.offsets| && fleet.offsets[k] == 0.0
    ensures Readings(fleet, Checks(bucket, t, n), k) == if k == bucket then Repeat(t, n) else []
  {
    if n > 0 {
      ReadingsOfChecks(fleet, bucket, t, n - 1, k);
      assert Checks(bucket, t, n)[..n - 1] == Checks(bucket, t, n - 1);
      assert Repeat(t, n) == Repeat(t, n - 1) + [t];
    }
  }

  lemma {:induction false} ReadingsOfOpening(fleet: Fleet, n: nat, each: nat, k: nat)
    requires k < |fleet.offsets| && fleet.offsets[k] == 0.0
    ensures Readings(fleet, Opening(n, each), k) == if k < n then Repeat(0.0, each) else []
  {
    if n > 0 {
      ReadingsOfOpening(fleet, n - 1, each, k);
      ReadingsConcat(fleet, Opening(n - 1, each), Checks(n - 1, 0.0, each), k);
      ReadingsOfChecks(fleet, n - 1, 0.0, each, k);
    }
  }

  lemma {:induction false} ReadingsOfClosing(fleet: Fleet, n: nat, t: real, k: nat)
    requires k < |fleet.offsets| && fleet.offsets[k] == 0.0
    ensures Readings(fleet, Closing(n, t), k) == if k < n then [t] else []
  {
    if n > 0 {
      ReadingsOfClosing(fleet, n - 1, t, k);
      assert Closing(n, t)[..n - 1] == Closing(n - 1, t);
    }
  }

  lemma {:induction false} OpeningIsAtZero(n: nat, each: nat)
    ensures forall i :: 0 <= i < |Opening(n, each)| ==>
              Opening(n, each)[i].bucket < n && Opening(n, each)[i].time == 0.0
  {
    if n > 0 {
      OpeningIsAtZero(n - 1, each);
    }
  }

  lemma BurstEverywhereOk(q: Quota, replicas: nat)
    requires q.rate > 0.0 && q.capacity >= 5.0 && 1.0 < TTL * q.rate
    ensures ChecksOk(FreshFleet(replicas), BurstEverywhere(q, replicas + 1))
  {
    EmptyTimeIsShort(q);
    OpeningIsAtZero(replicas + 1, q.capacity.Floor);
  }

  lemma ReadingsOfBurst(q: Quota, replicas: nat, k: nat)
    requires q.rate != 0.0 && q.capacity >= 1.0 && k <= replicas
    ensures Readings(FreshFleet(replicas), BurstEverywhere(q, replicas + 1), k) == Burst(q, 0.0)
  {
    var fleet, each, t := FreshFleet(replicas), q.capacity.Floor, EmptyTime(q);
    ReadingsConcat(fleet, Opening(replicas + 1, each), Closing(replicas + 1, t), k);
    ReadingsOfOpening(fleet, replicas + 1, each, k);
    ReadingsOfClosing(fleet, replicas + 1, t, k);
    assert 0.0 + t == t;
  }

  lemma BurstCounts(q: Quota, ttl: Option<real>)
    requires q.rate > 0.0 && q.capacity >= 5.0 && 1.0 < TTL * q.rate && (ttl == None || ttl == Some(TTL))
    ensures Admitted(None, q, ttl, Burst(q, 0.0), 0.0, EmptyTime(q)) == q.capacity.Floor + 1
  {
    EmptyTimeIsShort(q);
    BurstAdmits(None, q, ttl, 0.0);
    CountAll(None, q, ttl, Burst(q, 0.0), 0.0, EmptyTime(q));
  }

  /** Each bucket admits everything: its budget of the window to the last token. */
  lemma BucketBurst(q: Quota, replicas: nat, k: nat)
    requires q.rate > 0.0 && q.capacity >= 5.0 && 1.0 < TTL * q.rate && k <= replicas
    ensures BucketAdmitted(FreshFleet(replicas), q, BurstEverywhere(q, replicas + 1), 0.0, EmptyTime(q), k)
            == q.capacity.Floor + 1
  {
    ReadingsOfBurst(q, replicas, k);
    BurstCounts(q, FreshFleet(replicas).ttls[k]);
  }

  lemma {:induction false} SumOfBursts(q: Quota, replicas: nat, n: nat)
    requires q.rate > 0.0 && q.capacity >= 5.0 && 1.0 < TTL * q.rate && n <= replicas + 1
    ensures SumAdmitted(FreshFleet(replicas), q, BurstEverywhere(q, replicas + 1), 0.0, EmptyTime(q), n) as real
            == Times(n, (q.capacity.Floor + 1) as real)
  {
    if n > 0 {
      SumOfBursts(q, replicas, n - 1);
      BucketBurst(q, replicas, n - 1);
      SumUnfolds(FreshFleet(replicas), q, BurstEverywhere(q, replicas + 1), 0.0, EmptyTime(q), n);
    }
  }

  lemma BurstBudget(q: Quota)
    requires q.rate > 0.0 && 1.0 < TTL * q.rate
    ensures Budget(q, 0.0, EmptyTime(q)) == (q.capacity.Floor + 1) as real
  {
    EmptyTimeIsShort(q);
    assert EmptyTime(q) - 0.0 == EmptyTime(q);
  }

  lemma FleetBurst(q: Quota, replicas: nat)
    requires q.rate > 0.0 && q.capacity >= 5.0 && 1.0 < TTL * q.rate
    ensures ChecksOk(FreshFleet(replicas), BurstEverywhere(q, replicas + 1))
    ensures FleetAdmitted(FreshFleet(replicas), q, BurstEverywhere(q, replicas + 1), 0.0, EmptyTime(q)) as real
            == Times(replicas + 1, Budget(q, 0.0, EmptyTime(q)))
  {
    BurstEverywhereOk(q, replicas);
    BurstBudget(q);
    FleetIsSum(FreshFleet(replicas), q, BurstEverywhere(q, replicas + 1), 0.0, EmptyTime(q));
    SumOfBursts(q, replicas, replicas + 1);
  }

  /** N + 1 times is attained, for every N and every positive limit. */
  lemma FleetBoundIsAttained(q: Quota, replicas: nat)
    requires q.rate > 0.0 && q.capacity >= 5.0 && 1.0 < TTL * q.rate
    ensures ChecksOk(FreshFleet(replicas), BurstEverywhere(q, replicas + 1)) && 0.0 <= EmptyTime(q)
    ensures Exactly(FleetAdmitted(FreshFleet(replicas), q, BurstEverywhere(q, replicas + 1), 0.0, EmptyTime(q)),
                    replicas + 1, Budget(q, 0.0, EmptyTime(q)))
  {
    EmptyTimeIsShort(q);
    FleetBurst(q, replicas);
    ExactlyProduct(FleetAdmitted(FreshFleet(replicas), q, BurstEverywhere(q, replicas + 1), 0.0, EmptyTime(q)),
                   replicas + 1, Budget(q, 0.0, EmptyTime(q)));
  }

  predicate Exactly(admitted: nat, n: nat, x: real) {
    admitted as real == n as real * x
  }

  lemma ExactlyProduct(admitted: nat, n: nat, x: real)
    ensures admitted as real == Times(n, x) <==> Exactly(admitted, n, x)
  {
    TimesIsProduct(n, x);
  }

  /** A run of N replicas whose checks in the window land on at most `m` buckets. */
  ghost predicate FleetRun(fleet: Fleet, q: Quota, checks: seq<Check>, replicas: nat, from: real, to: real, m: nat) {
    && Shaped(fleet) && |fleet.buckets| == replicas + 1
    && (forall k :: 0 <= k < |fleet.buckets| && fleet.buckets[k].Some? ==> fleet.buckets[k].value.tokens >= 0.0)
    && (forall k :: 0 <= k < |fleet.ttls| ==> fleet.ttls[k] == None || fleet.ttls[k] == Some(TTL))
    && ChecksOk(fleet, checks) && from <= to && |Used(checks, from, to)| <= m
  }

  /** The promise that N replicas admit at most N times the limit, for all such runs. */
  ghost predicate ReplicasBound(q: Quota, replicas: nat, m: nat) {
    forall fleet, checks, from, to :: FleetRun(fleet, q, checks, replicas, from, to, m) ==>
      Within(FleetAdmitted(fleet, q, checks, from, to), replicas, Budget(q, from, to))
  }

  lemma FewBucketsKeepTheBound(q: Quota, replicas: nat, m: nat)
    requires q.rate >= 0.0 && 0.0 <= q.capacity <= TTL * q.rate && m <= replicas
    ensures ReplicasBound(q, replicas, m)
  {
    forall fleet, checks, from, to | FleetRun(fleet, q, checks, replicas, from, to, m)
      ensures Within(FleetAdmitted(fleet, q, checks, from, to), replicas, Budget(q, from, to))
    {
      FleetAgainstUsed(fleet, q, checks, from, to, replicas);
      WithinProduct(FleetAdmitted(fleet, q, checks, from, to), replicas, Budget(q, from, to));
    }
  }

  lemma OneBucketTooMany(q: Quota, replicas: nat, m: nat)
    requires q.rate > 0.0 && q.capacity >= 5.0 && 1.0 < TTL * q.rate && replicas < m
    ensures !ReplicasBound(q, replicas, m)
  {
    var fleet, checks, t := FreshFleet(replicas), BurstEverywhere(q, replicas + 1), EmptyTime(q);
    EmptyTimeIsShort(q);
    FleetBurst(q, replicas);
    BurstBudget(q);
    UsedIsBelow(fleet, checks, 0.0, t);
    assert FleetRun(fleet, q, checks, replicas, 0.0, t, m);
    WithinProduct(FleetAdmitted(fleet, q, checks, 0.0, t), replicas, Budget(q, 0.0, t));
  }

  /** N replicas keep to N times the limit exactly when the checks of a window never land on more than N
      buckets: not when all of them fall back within a window that the shared bucket also served. That
      breaks it for every positive limit; fewer buckets keep it where one shared bucket keeps its own. */
  lemma ReplicasBoundExactly(limitPerMinute: int, burstRatio: real, replicas: nat, m: nat)
    requires limitPerMinute >= 1
    ensures m > replicas ==> !ReplicasBound(QuotaOf(limitPerMinute, burstRatio), replicas, m)
    ensures limitPerMinute >= 3 && burstRatio <= 2.0 ==>
              (ReplicasBound(QuotaOf(limitPerMinute, burstRatio), replicas, m) <==> m <= replicas)
  {
    var q := QuotaOf(limitPerMinute, burstRatio);
    assert TTL * q.rate == (2 * limitPerMinute) as real;
    RatioAgainstTwo(limitPerMinute, burstRatio);
    if m > replicas {
      OneBucketTooMany(q, replicas, m);
    } else if limitPerMinute >= 3 && burstRatio <= 2.0 {
      FewBucketsKeepTheBound(q, replicas, m);
    }
  }

  // The run that tells the two apart: empty the bucket, stay idle until the key expires, spend the
  // whole refill of the idle time, then wait until the surplus of the fresh bucket reaches a token.

  function Surplus(q: Quota, limit: nat): real { q.capacity - (2 * limit) as real }

  function Wake(q: Quota): real
    requires q.rate != 0.0
  {
    EmptyTime(q) + TTL
  }

  function LastTime(q: Quota, limit: nat): real
    requires q.rate != 0.0
  {
    Wake(q) + if Surplus(q, limit) >= 1.0 then 0.0 else (1.0 - Surplus(q, limit)) / q.rate
  }

  function Telltale(q: Quota, limit: nat): seq<real>
    requires q.rate != 0.0 && q.capacity >= 1.0
  {
    Burst(q, 0.0) + Repeat(Wake(q), 2 * limit) + [LastTime(q, limit)]
  }

  lemma AfterTheIdleTime(q: Quota, limit: nat)
    requires limit >= 1 && q.rate == limit as real / 60.0 && q.capacity >= 5.0 && (2 * limit) as real < q.capacity
    ensures AfterRun(None, q, None, Burst(q, 0.0) + Repeat(Wake(q), 2 * limit)) == Some(Bucket(0.0, Wake(q)))
    ensures AfterRun(None, q, Some(TTL), Burst(q, 0.0) + Repeat(Wake(q), 2 * limit))
            == Some(Bucket(Surplus(q, limit), Wake(q)))
  {
    var idle := Some(Bucket(0.0, EmptyTime(q)));
    assert 0.0 + EmptyTime(q) == EmptyTime(q);
    assert TTL * q.rate == (2 * limit) as real;
    BurstAdmits(None, q, None, 0.0);
    BurstAdmits(None, q, Some(TTL), 0.0);
    RunConcat(None, q, None, Burst(q, 0.0), Repeat(Wake(q), 2 * limit));
    RunConcat(None, q, Some(TTL), Burst(q, 0.0), Repeat(Wake(q), 2 * limit));
    RefillOfIdleTime(q, limit);
    DrainFrom(idle, (2 * limit) as real, Wake(q), q, None, 2 * limit);
    DrainFrom(idle, q.capacity, Wake(q), q, Some(TTL), 2 * limit);
  }

  lemma RefillOfIdleTime(q: Quota, limit: nat)
    requires limit >= 1 && q.rate == limit as real / 60.0 && (2 * limit) as real < q.capacity
    ensures Available(Some(Bucket(0.0, EmptyTime(q))), q, Wake(q)) == (2 * limit) as real
  {
    assert Wake(q) - EmptyTime(q) == TTL;
    assert TTL * q.rate == (2 * limit) as real;
  }

  lemma SurplusDecides(d: real, wake: real, w: real, q: Quota)
    requires q.capacity >= 1.0 && 0.0 < d && 0.0 <= w && w * q.rate == if d >= 1.0 then 0.0 else 1.0 - d
    ensures Admits(Some(Bucket(d, wake)), q, wake + w)
    ensures !Admits(Some(Bucket(0.0, wake)), q, wake + w)
  {
    assert Greater(0.0, wake + w - wake) == w;
  }

  lemma LastWait(q: Quota, limit: nat)
    requires q.rate > 0.0 && 1.0 < TTL * q.rate && Surplus(q, limit) > 0.0
    ensures var w := LastTime(q, limit) - Wake(q);
            0.0 <= w < TTL && w * q.rate == if Surplus(q, limit) >= 1.0 then 0.0 else 1.0 - Surplus(q, limit)
  {
    var x := 1.0 - Surplus(q, limit);
    if x > 0.0 {
      WaitTimesRate(x, q.rate);
      WaitBelow(x, q.rate, TTL);
    } else {
      Zero(q.rate);
    }
  }

  lemma LastCheckDiffers(q: Quota, limit: nat)
    requires q.rate > 0.0 && 1.0 < TTL * q.rate && q.capacity >= 5.0 && Surplus(q, limit) > 0.0
    ensures Wake(q) <= LastTime(q, limit) < Wake(q) + TTL
    ensures Admits(Some(Bucket(Surplus(q, limit), Wake(q))), q, LastTime(q, limit))
    ensures !Admits(Some(Bucket(0.0, Wake(q))), q, LastTime(q, limit))
  {
    LastWait(q, limit);
    SurplusDecides(Surplus(q, limit), Wake(q), LastTime(q, limit) - Wake(q), q);
  }

  lemma TelltaleTells(q: Quota, limit: nat)
    requires limit >= 1 && q.rate == limit as real / 60.0 && q.capacity >= 5.0 && (2 * limit) as real < q.capacity
    ensures NonDecreasing(Telltale(q, limit))
    ensures !ExpiryInvisible(None, q, Some(TTL), Telltale(q, limit))
  {
    var before, times := Burst(q, 0.0) + Repeat(Wake(q), 2 * limit), Telltale(q, limit);
    var k := |before|;
    assert TTL * q.rate == (2 * limit) as real;
    EmptyTimeIsShort(q);
    AfterTheIdleTime(q, limit);
    LastCheckDiffers(q, limit);
    assert times[..k] == before && times[k] == LastTime(q, limit);
    assert Decides(None, q, Some(TTL), times, k) && !Decides(None, q, None, times, k);
  }

  // ---------------------------------------------------------------- what the expiry lets through

  /** Two bursts on either side of an idle time that lets the key expire. */
  function TwoBursts(q: Quota): seq<real>
    requires q.rate != 0.0 && q.capacity >= 1.0
  {
    Burst(q, 0.0) + Burst(q, Wake(q))
  }

  lemma TwoBurstsRun(q: Quota)
    requires q.rate > 0.0 && q.capacity >= 5.0 && 1.0 < TTL * q.rate
    ensures AllAdmitted(None, q, Some(TTL), TwoBursts(q))
  {
    var idle := Bucket(0.0, 0.0 + EmptyTime(q));
    BurstAdmits(None, q, Some(TTL), 0.0);
    assert idle.ts + TTL <= Wake(q);
    assert Found(Some(idle), Some(TTL), Wake(q)) == None;
    BurstAdmits(Some(idle), q, Some(TTL), Wake(q));
    JoinRuns(None, q, Some(TTL), Burst(q, 0.0), Burst(q, Wake(q)));
  }

  lemma TwoBurstsAdmit(q: Quota)
    requires q.rate > 0.0 && q.capacity >= 5.0 && 1.0 < TTL * q.rate
    ensures NonDecreasing(TwoBursts(q))
    ensures Admitted(None, q, Some(TTL), TwoBursts(q), 0.0, Wake(q) + EmptyTime(q)) == 2 * (q.capacity.Floor + 1)
  {
    EmptyTimeIsShort(q);
    TwoBurstsRun(q);
    TwoBurstsInOrder(q);
    CountAll(None, q, Some(TTL), TwoBursts(q), 0.0, Wake(q) + EmptyTime(q));
  }

  lemma TwoBurstsInOrder(q: Quota)
    requires q.rate != 0.0 && q.capacity >= 1.0 && 0.0 <= EmptyTime(q)
    ensures NonDecreasing(TwoBursts(q)) && |TwoBursts(q)| == 2 * (q.capacity.Floor + 1)
    ensures forall k :: 0 <= k < |TwoBursts(q)| ==> 0.0 <= TwoBursts(q)[k] <= Wake(q) + EmptyTime(q)
  {
    var times, n := TwoBursts(q), q.capacity.Floor + 1;
    forall k | 0 <= k < |times|
      ensures times[k] == if k < n - 1 then 0.0 else if k == n - 1 then EmptyTime(q)
                          else if k < 2 * n - 1 then Wake(q) else Wake(q) + EmptyTime(q)
    {
      assert k < n ==> times[k] == Burst(q, 0.0)[k];
      assert k >= n ==> times[k] == Burst(q, Wake(q))[k - n];
    }
  }

  lemma TwoBurstsBudget(q: Quota)
    requires q.rate > 0.0 && 1.0 < TTL * q.rate
    ensures Budget(q, 0.0, Wake(q) + EmptyTime(q)) == (2 * (q.capacity.Floor + 1)) as real - (q.capacity - TTL * q.rate)
  {
    EmptyTimeIsShort(q);
    var e := EmptyTime(q);
    assert Wake(q) + e - 0.0 == e + e + TTL;
    assert (e + e + TTL) * q.rate == e * q.rate + e * q.rate + TTL * q.rate;
  }

  /** The window bound, for every run of the expiring shared key. */
  ghost predicate Bounds(q: Quota) {
    forall times, from, to :: NonDecreasing(times) && from <= to ==>
      Admitted(None, q, Some(TTL), times, from, to) as real <= Budget(q, from, to)
  }

  lemma TwoBurstsOverrun(q: Quota)
    requires q.rate > 0.0 && q.capacity >= 5.0 && 1.0 < TTL * q.rate < q.capacity
    ensures !Bounds(q)
  {
    EmptyTimeIsShort(q);
    TwoBurstsAdmit(q);
    TwoBurstsBudget(q);
    assert 0.0 <= Wake(q) + EmptyTime(q);
  }

  /** The shared limit, expiry included, admits no more than capacity plus refill in every window of
      every run exactly when the quota is at least three per minute and the burst ratio at most two. */
  lemma SharedLimitHoldsExactly(limitPerMinute: int, burstRatio: real)
    requires limitPerMinute >= 1
    ensures Bounds(QuotaOf(limitPerMinute, burstRatio)) <==> (limitPerMinute >= 3 && burstRatio <= 2.0)
  {
    var q := QuotaOf(limitPerMinute, burstRatio);
    assert TTL * q.rate == (2 * limitPerMinute) as real;
    RatioAgainstTwo(limitPerMinute, burstRatio);
    if q.capacity <= TTL * q.rate {
      forall times, from, to | NonDecreasing(times) && from <= to
        ensures Admitted(None, q, Some(TTL), times, from, to) as real <= Budget(q, from, to)
      {
        WindowBoundUnderExpiry(None, q, Some(TTL), times, from, to);
      }
    } else {
      TwoBurstsOverrun(q);
    }
  }

  /** Forgetting an idle bucket is invisible, for every run, exactly when the quota is at least three
      per minute and the burst ratio at most two. */
  lemma ExpiryInvisibleExactly(limitPerMinute: int, burstRatio: real)
    requires limitPerMinute >= 1
    ensures (forall times :: NonDecreasing(times) ==>
               ExpiryInvisible(None, QuotaOf(limitPerMinute, burstRatio), Some(TTL), times))
            <==> (limitPerMinute >= 3 && burstRatio <= 2.0)
  {
    var q := QuotaOf(limitPerMinute, burstRatio);
    assert TTL * q.rate == (2 * limitPerMinute) as real;
    RatioAgainstTwo(limitPerMinute, burstRatio);
    if q.capacity <= TTL * q.rate {
      forall times | NonDecreasing(times)
        ensures ExpiryInvisible(None, q, Some(TTL), times)
      {
        ShortRefillHidesExpiry(None, q, Some(TTL), times);
      }
    } else {
      TelltaleTells(q, limitPerMinute);
    }
  }

  lemma RatioAgainstTwo(limit: int, ratio: real)
    requires limit >= 1
    ensures limit as real * ratio <= (2 * limit) as real <==> ratio <= 2.0
  {
    OrderScales(2.0, ratio, limit as real);
    assert (2 * limit) as real == 2.0 * limit as real;
  }
}
