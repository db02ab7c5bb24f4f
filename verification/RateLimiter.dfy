/**
 The token-bucket rate limiter. Times are seconds as reals and are read twice per request, once for
 the bucket and once for the clean-up. A bucket whose last fill is the clock's epoch (0) is new.
 */
module RateLimiter {
  datatype Bucket = Bucket(tokens: real, lastFill: real)

  datatype Limits = Limits(rate: int, burst: int)

  type Buckets = map<string, Bucket>

  datatype Limiter = Limiter(buckets: Buckets, lastCleanup: real)

  /** One request: who, and the two clock readings of the call. */
  datatype Request = Request(ip: string, at: real, cleanupAt: real)

  const Unused := Limiter(map[], 0.0)

  function RMin(a: real, b: real): real { if a <= b then a else b }

  // ---------------------------------------------------------------- specification of a call

  function Refill(c: Limits, buckets: Buckets, ip: string, now: real): real {
    if ip in buckets && buckets[ip].lastFill != 0.0
    then RMin(c.burst as real, buckets[ip].tokens + (now - buckets[ip].lastFill) * c.rate as real)
    else c.burst as real
  }

  predicate Allows(c: Limits, buckets: Buckets, r: Request) { Refill(c, buckets, r.ip, r.at) >= 1.0 }

  function Take(c: Limits, buckets: Buckets, r: Request): Buckets {
    var tokens := Refill(c, buckets, r.ip, r.at);
    buckets[r.ip := Bucket(if tokens >= 1.0 then tokens - 1.0 else tokens, r.at)]
  }

  lemma TakeIs(c: Limits, buckets: Buckets, r: Request, bucket: Bucket)
    requires bucket.lastFill == r.at
    requires var tokens := Refill(c, buckets, r.ip, r.at); bucket.tokens == if tokens >= 1.0 then tokens - 1.0 else tokens
    ensures Take(c, buckets, r) == buckets[r.ip := bucket]
  {
  }

  function Evict(buckets: Buckets, now: real): Buckets {
    map ip | ip in buckets && now - buckets[ip].lastFill <= 60.0 :: buckets[ip]
  }

  function Cleanup(l: Limiter, now: real): Limiter {
    if now - l.lastCleanup < 60.0 then l else Limiter(Evict(l.buckets, now), now)
  }

  function Serve(c: Limits, l: Limiter, r: Request): Limiter {
    Cleanup(l.(buckets := Take(c, l.buckets, r)), r.cleanupAt)
  }

  /** The allow/deny answers to a run, by the limiter and by one that never evicts. */
  function Answers(c: Limits, l: Limiter, run: seq<Request>): (a: seq<bool>)
    ensures |a| == |run|
    decreases |run|
  {
    if run == [] then [] else [Allows(c, l.buckets, run[0])] + Answers(c, Serve(c, l, run[0]), run[1..])
  }

  function PlainAnswers(c: Limits, buckets: Buckets, run: seq<Request>): (a: seq<bool>)
    ensures |a| == |run|
    decreases |run|
  {
    if run == [] then [] else [Allows(c, buckets, run[0])] + PlainAnswers(c, Take(c, buckets, run[0]), run[1..])
  }

  /** Clock readings never go back, and lie after the epoch and not before `from`. */
  ghost predicate Timely(run: seq<Request>, from: real)
    decreases |run|
  {
    run == [] || (from <= run[0].at <= run[0].cleanupAt && 0.0 < run[0].at && Timely(run[1..], run[0].cleanupAt))
  }

  // ---------------------------------------------------------------- the limiter as written

  class RateLimitMiddleware {
    const limits: Limits
    var buckets: Buckets
    var lastCleanup: real

    function View(): Limiter
      reads this
    {
      Limiter(buckets, lastCleanup)
    }

    constructor (requestsPerSec: int, burstSize: int)
      ensures limits == Limits(requestsPerSec, burstSize) && View() == Unused
    {
      limits := Limits(requestsPerSec, burstSize);
      buckets, lastCleanup := map[], 0.0;
    }

    method Allow(ip: string, now: real, later: real) returns (allowed: bool)
      modifies this
      ensures allowed == Allows(limits, old(buckets), Request(ip, now, later))
      ensures View() == Serve(limits, old(View()), Request(ip, now, later))
    {
      var bucket := if ip in buckets then buckets[ip] else Bucket(0.0, 0.0);
      if bucket.lastFill == 0.0 {
        bucket := Bucket(limits.burst as real, now);
      } else {
        var elapsed := now - bucket.lastFill;
        bucket := Bucket(RMin(limits.burst as real, bucket.tokens + elapsed * limits.rate as real), now);
      }
      allowed := false;
      if bucket.tokens >= 1.0 {
        bucket := bucket.(tokens := bucket.tokens - 1.0);
        allowed := true;
      }
      buckets := buckets[ip := bucket];
      TakeIs(limits, old(buckets), Request(ip, now, later), bucket);
      MaybeCleanup(later);
    }

    method MaybeCleanup(now: real)
      modifies this
      ensures View() == Cleanup(old(View()), now)
      ensures now - old(lastCleanup) < 60.0 ==> buckets == old(buckets) && lastCleanup == old(lastCleanup)
      ensures now - old(lastCleanup) >= 60.0 ==> lastCleanup == now
      ensures now - old(lastCleanup) >= 60.0 ==>
                buckets == map ip | ip in old(buckets) && now - old(buckets)[ip].lastFill <= 60.0 :: old(buckets)[ip]
    {
      if now - lastCleanup < 60.0 { return; }
      lastCleanup := now;
      ghost var before := buckets;
      var todo := buckets.Keys;
      while todo != {}
        invariant todo <= buckets.Keys && lastCleanup == now
        invariant forall ip :: ip in buckets ==> ip in before && buckets[ip] == before[ip]
        invariant forall ip :: ip in before && ip !in todo ==> (ip in buckets <==> now - before[ip].lastFill <= 60.0)
        decreases |todo|
      {
        var ip :| ip in todo;
        if now - buckets[ip].lastFill > 60.0 {
          buckets := buckets - {ip};
        }
        todo := todo - {ip};
      }
      assert buckets == Evict(before, now);
    }
  }

  // ---------------------------------------------------------------- eviction is invisible

  /** Tokens never fall below zero, and every fill is after the epoch and not after `now`. */
  ghost predicate Healthy(buckets: Buckets, now: real) {
    forall ip :: ip in buckets ==> buckets[ip].tokens >= 0.0 && 0.0 < buckets[ip].lastFill <= now
  }

  /** What eviction has removed had been idle for more than a minute; everything else is the same. */
  ghost predicate Pruned(evicting: Buckets, plain: Buckets, now: real) {
    && (forall ip :: ip in evicting ==> ip in plain && evicting[ip] == plain[ip])
    && (forall ip :: ip in plain && ip !in evicting ==> now - plain[ip].lastFill > 60.0)
  }

  lemma Scale(a: real, b: real, rate: real)
    requires a <= b && rate >= 0.0
    ensures a * rate <= b * rate
  {
  }

  /** A minute's flow fills a bucket whose burst is at most that. */
  lemma MinuteFills(tokens: real, elapsed: real, rate: real, burst: real)
    requires tokens >= 0.0 && elapsed >= 60.0 && rate >= 0.0 && burst <= 60.0 * rate
    ensures tokens + elapsed * rate >= burst
  {
    Scale(60.0, elapsed, rate);
  }

  lemma FlowIsGain(tokens: real, elapsed: real, rate: real)
    requires tokens >= 0.0 && elapsed >= 0.0 && rate >= 0.0
    ensures tokens + elapsed * rate >= 0.0
  {
    Scale(0.0, elapsed, rate);
    assert 0.0 * rate == 0.0;
  }

  lemma AsReals(burst: int, rate: int)
    requires 0 <= burst <= 60 * rate
    ensures rate as real >= 0.0 && burst as real <= 60.0 * rate as real
  {
    assert (60 * rate) as real == 60.0 * rate as real;
  }

  /** A bucket idle for a minute is full again, which is what a new one is. */
  lemma IdleIsFull(c: Limits, evicting: Buckets, plain: Buckets, ip: string, since: real, now: real)
    requires 0 <= c.burst <= 60 * c.rate && Healthy(plain, since) && Pruned(evicting, plain, since) && since <= now
    ensures Refill(c, evicting, ip, now) == Refill(c, plain, ip, now)
  {
    if ip in plain && ip !in evicting {
      AsReals(c.burst, c.rate);
      MinuteFills(plain[ip].tokens, now - plain[ip].lastFill, c.rate as real, c.burst as real);
    }
  }

  lemma TakeHealthy(c: Limits, buckets: Buckets, r: Request, from: real)
    requires 0 <= c.burst && 0 <= c.rate && Healthy(buckets, from) && from <= r.at && 0.0 < r.at
    ensures Healthy(Take(c, buckets, r), r.at)
  {
    if r.ip in buckets {
      FlowIsGain(buckets[r.ip].tokens, r.at - buckets[r.ip].lastFill, c.rate as real);
    }
    assert Refill(c, buckets, r.ip, r.at) >= 0.0;
  }

  lemma {:induction false} EvictionInvisibleFrom(c: Limits, l: Limiter, plain: Buckets, run: seq<Request>, from: real)
    requires 0 <= c.burst <= 60 * c.rate && Timely(run, from) && Healthy(plain, from) && Pruned(l.buckets, plain, from)
    ensures Answers(c, l, run) == PlainAnswers(c, plain, run)
    decreases |run|
  {
    if run != [] {
      var r := run[0];
      IdleIsFull(c, l.buckets, plain, r.ip, from, r.at);
      TakeHealthy(c, plain, r, from);
      EvictionInvisibleFrom(c, Serve(c, l, r), Take(c, plain, r), run[1..], r.cleanupAt);
    }
  }

  // ---------------------------------------------------------------- no tokens to give

  lemma {:induction false} NothingAllowed(c: Limits, l: Limiter, plain: Buckets, run: seq<Request>)
    requires c.burst <= 0
    ensures forall i :: 0 <= i < |run| ==> !Answers(c, l, run)[i] && !PlainAnswers(c, plain, run)[i]
    decreases |run|
  {
    if run != [] {
      NothingAllowed(c, Serve(c, l, run[0]), Take(c, plain, run[0]), run[1..]);
      assert !Allows(c, l.buckets, run[0]) && !Allows(c, plain, run[0]);
      forall i | 0 <= i < |run| ensures !Answers(c, l, run)[i] && !PlainAnswers(c, plain, run)[i] {
        if i > 0 { assert !Answers(c, Serve(c, l, run[0]), run[1..])[i - 1]; }
      }
    }
  }

  // ---------------------------------------------------------------- the run that shows eviction

  function Repeat(ip: string, t: real, n: nat): (s: seq<Request>)
    ensures |s| == n && forall i :: 0 <= i < n ==> s[i] == Request(ip, t, t)
  {
    seq(n, _ => Request(ip, t, t))
  }

  function Trues(n: nat): (s: seq<bool>)
    ensures |s| == n && forall i :: 0 <= i < n ==> s[i]
  {
    seq(n, _ => true)
  }

  /** All of the burst by A at time 1, one request by B at `t`, all of the burst by A again at `t`. */
  function BurstTwice(burst: nat, t: real): seq<Request> {
    Repeat("A", 1.0, burst) + ([Request("B", t, t)] + Repeat("A", t, burst))
  }

  lemma {:induction false} TimelyRepeat(ip: string, t: real, n: nat, from: real, rest: seq<Request>)
    requires 0.0 < t && from <= t && Timely(rest, t)
    ensures Timely(Repeat(ip, t, n) + rest, from)
    decreases n
  {
    if n == 0 {
      assert Repeat(ip, t, 0) + rest == rest;
      if rest != [] { assert t <= rest[0].at; }
    } else {
      TimelyRepeat(ip, t, n - 1, t, rest);
      assert (Repeat(ip, t, n) + rest)[1..] == Repeat(ip, t, n - 1) + rest;
    }
  }

  lemma BurstTwiceTimely(burst: nat, t: real)
    requires t > 61.0
    ensures Timely(BurstTwice(burst, t), 0.0)
  {
    TimelyRepeat("A", t, burst, t, []);
    assert Repeat("A", t, burst) + [] == Repeat("A", t, burst);
    var rest := [Request("B", t, t)] + Repeat("A", t, burst);
    assert rest[1..] == Repeat("A", t, burst);
    assert Timely(rest, 1.0);
    TimelyRepeat("A", 1.0, burst, 0.0, rest);
  }

  /** A second request at the same moment finds one token less. */
  lemma RefillAfterTake(c: Limits, buckets: Buckets, r: Request)
    requires r.at != 0.0 && Allows(c, buckets, r)
    ensures Refill(c, Take(c, buckets, r), r.ip, r.at) == Refill(c, buckets, r.ip, r.at) - 1.0
  {
    var tokens, bucket := Refill(c, buckets, r.ip, r.at), Take(c, buckets, r)[r.ip];
    var flow := (r.at - bucket.lastFill) * c.rate as real;
    NoTime(r.at, bucket.lastFill, c.rate as real);
    assert flow == 0.0;
    assert Refill(c, Take(c, buckets, r), r.ip, r.at) == RMin(c.burst as real, bucket.tokens + flow);
  }

  lemma NoTime(a: real, b: real, rate: real)
    requires a == b
    ensures (a - b) * rate == 0.0
  {
  }

  /** `n` requests at one moment out of a bucket holding at least `n` tokens (or a new one) are all allowed. */
  lemma {:induction false} DrawAll(c: Limits, l: Limiter, ip: string, t: real, n: nat, rest: seq<Request>) returns (after: Limiter)
    requires n > 0 && t > 0.0 && t - l.lastCleanup < 60.0 && Refill(c, l.buckets, ip, t) >= n as real
    ensures Answers(c, l, Repeat(ip, t, n) + rest) == Trues(n) + Answers(c, after, rest)
    ensures after.lastCleanup == l.lastCleanup && ip in after.buckets && after.buckets[ip].lastFill == t
    ensures after.buckets[ip].tokens == Refill(c, l.buckets, ip, t) - n as real
    ensures forall other :: other != ip ==> (other in after.buckets <==> other in l.buckets)
    ensures forall other | other != ip && other in l.buckets :: after.buckets[other] == l.buckets[other]
    decreases n
  {
    var run := Repeat(ip, t, n) + rest;
    var next := Serve(c, l, run[0]);
    assert next == l.(buckets := Take(c, l.buckets, run[0]));
    assert run[1..] == Repeat(ip, t, n - 1) + rest;
    if n == 1 {
      assert run[1..] == rest;
      after := next;
      assert Trues(1) == [true];
    } else {
      RefillAfterTake(c, l.buckets, run[0]);
      after := DrawAll(c, next, ip, t, n - 1, rest);
      assert [true] + (Trues(n - 1) + Answers(c, after, rest)) == Trues(n) + Answers(c, after, rest);
    }
  }

  /** With eviction, both bursts are allowed in full. */
  lemma BothBurstsAllowed(c: Limits, t: real)
    requires c.burst >= 1 && t > 61.0
    ensures Answers(c, Unused, BurstTwice(c.burst, t)) == Trues(2 * c.burst + 1)
  {
    var second := Repeat("A", t, c.burst);
    var b := Request("B", t, t);
    var first := DrawAll(c, Unused, "A", 1.0, c.burst, [b] + second);
    assert ([b] + second)[1..] == second;
    var cleaned := Serve(c, first, b);
    assert "A" !in cleaned.buckets && cleaned.lastCleanup == t;
    var last := DrawAll(c, cleaned, "A", t, c.burst, []);
    assert second + [] == second;
    assert Trues(c.burst) + ([true] + (Trues(c.burst) + [])) == Trues(2 * c.burst + 1);
  }

  /** Without eviction, `n` requests all allowed mean that the bucket held `n` tokens to begin with. */
  lemma {:induction false} AllAllowedNeedsTokens(c: Limits, buckets: Buckets, ip: string, t: real, n: nat)
    requires t > 0.0 && n > 0 && PlainAnswers(c, buckets, Repeat(ip, t, n)) == Trues(n)
    ensures Refill(c, buckets, ip, t) >= n as real
    decreases n
  {
    var run := Repeat(ip, t, n);
    assert PlainAnswers(c, buckets, run)[0];
    if n > 1 {
      var next := Take(c, buckets, run[0]);
      assert run[1..] == Repeat(ip, t, n - 1);
      assert PlainAnswers(c, buckets, run)[1..] == PlainAnswers(c, next, run[1..]);
      assert Trues(n)[1..] == Trues(n - 1);
      AllAllowedNeedsTokens(c, next, ip, t, n - 1);
      RefillAfterTake(c, buckets, run[0]);
    }
  }

  /** A moment more than a minute after time 1 at which the first bucket is still not full again. */
  function StillShort(c: Limits): (t: real)
    requires c.burst >= 1 && c.burst > 60 * c.rate
    ensures t > 61.0 && (t - 1.0) * c.rate as real < c.burst as real
  {
    if c.rate <= 0 then
      Scale(0.0, 61.0, -(c.rate as real));
      62.0
    else
      var rate, burst := c.rate as real, c.burst as real;
      var gap := (60.0 + burst / rate) / 2.0;
      HalfWay(rate, burst, gap);
      1.0 + gap
  }

  lemma HalfWay(rate: real, burst: real, gap: real)
    requires rate > 0.0 && burst > 60.0 * rate && gap == (60.0 + burst / rate) / 2.0
    ensures gap > 60.0 && gap * rate < burst
  {
    var q := burst / rate;
    assert q * rate == burst;
    assert q > 60.0 by {
      if q <= 60.0 { Scale(q, 60.0, rate); }
    }
    assert gap * rate == (60.0 * rate + q * rate) / 2.0;
  }

  /** The plain limiter after `n` draws at one moment. */
  lemma {:induction false} PlainDraw(c: Limits, buckets: Buckets, ip: string, t: real, n: nat, rest: seq<Request>) returns (after: Buckets)
    requires n > 0 && t > 0.0 && Refill(c, buckets, ip, t) >= n as real
    ensures PlainAnswers(c, buckets, Repeat(ip, t, n) + rest) == Trues(n) + PlainAnswers(c, after, rest)
    ensures ip in after && after[ip] == Bucket(Refill(c, buckets, ip, t) - n as real, t)
    decreases n
  {
    var run := Repeat(ip, t, n) + rest;
    after := Take(c, buckets, run[0]);
    assert run[1..] == Repeat(ip, t, n - 1) + rest;
    if n == 1 {
      assert run[1..] == rest && Trues(1) == [true];
    } else {
      RefillAfterTake(c, buckets, run[0]);
      after := PlainDraw(c, after, ip, t, n - 1, rest);
      assert [true] + (Trues(n - 1) + PlainAnswers(c, after, rest)) == Trues(n) + PlainAnswers(c, after, rest);
    }
  }

  lemma SecondBurstDenied(c: Limits, t: real)
    requires c.burst >= 1 && t > 61.0 && (t - 1.0) * c.rate as real < c.burst as real
    ensures PlainAnswers(c, map[], BurstTwice(c.burst, t)) != Trues(2 * c.burst + 1)
  {
    var second := Repeat("A", t, c.burst);
    var b := Request("B", t, t);
    var first := PlainDraw(c, map[], "A", 1.0, c.burst, [b] + second);
    assert ([b] + second)[1..] == second;
    var next := Take(c, first, b);
    assert next["A"] == Bucket(0.0, 1.0);
    if PlainAnswers(c, next, second) == Trues(c.burst) {
      AllAllowedNeedsTokens(c, next, "A", t, c.burst);
      assert false;
    }
    var all := PlainAnswers(c, map[], BurstTwice(c.burst, t));
    assert all[c.burst..][1..] == PlainAnswers(c, next, second);
    assert Trues(2 * c.burst + 1)[c.burst..][1..] == Trues(c.burst);
  }

  ghost predicate EvictionInvisible(c: Limits) {
    forall run :: Timely(run, 0.0) ==> Answers(c, Unused, run) == PlainAnswers(c, map[], run)
  }

  /**
   Eviction never changes an answer, in any run of any requesters, exactly when a minute of refilling
   fills a bucket (or nothing is ever allowed).
   */
  lemma EvictionInvisibleIff(c: Limits)
    ensures EvictionInvisible(c) <==> c.burst <= 0 || c.burst <= 60 * c.rate
  {
    if c.burst <= 0 {
      forall run | Timely(run, 0.0) ensures Answers(c, Unused, run) == PlainAnswers(c, map[], run) {
        NothingAllowed(c, Unused, map[], run);
      }
    } else if c.burst <= 60 * c.rate {
      forall run | Timely(run, 0.0) ensures Answers(c, Unused, run) == PlainAnswers(c, map[], run) {
        EvictionInvisibleFrom(c, Unused, map[], run, 0.0);
      }
    } else {
      var t := StillShort(c);
      BurstTwiceTimely(c.burst, t);
      BothBurstsAllowed(c, t);
      SecondBurstDenied(c, t);
      assert Timely(BurstTwice(c.burst, t), 0.0);
    }
  }

  // ---------------------------------------------------------------- the window bound

  /** Requests of `ip` between `s` and `t` that were allowed. */
  function CountAllowed(run: seq<Request>, answers: seq<bool>, ip: string, s: real, t: real): nat
    requires |answers| == |run|
    decreases |run|
  {
    if run == [] then 0
    else (if answers[0] && run[0].ip == ip && s <= run[0].at <= t then 1 else 0) + CountAllowed(run[1..], answers[1..], ip, s, t)
  }

  ghost predicate WindowBound(c: Limits) {
    forall run, ip, s, t | Timely(run, 0.0) && s <= t ::
      CountAllowed(run, Answers(c, Unused, run), ip, s, t) as real <= c.burst as real + (t - s) * c.rate as real
  }

  lemma {:induction false} NoneAfter(run: seq<Request>, answers: seq<bool>, ip: string, s: real, t: real, from: real)
    requires |answers| == |run| && Timely(run, from) && from > t
    ensures CountAllowed(run, answers, ip, s, t) == 0
    decreases |run|
  {
    if run != [] { NoneAfter(run[1..], answers[1..], ip, s, t, run[0].cleanupAt); }
  }

  lemma Spread(a: real, b: real, rate: real)
    ensures (a + b) * rate == a * rate + b * rate
  {
  }

  /** Tokens in the bucket together with those that flow in until `t`. */
  function Due(c: Limits, b: Bucket, t: real): real { b.tokens + (t - b.lastFill) * c.rate as real }

  lemma DrawStep(c: Limits, plain: Buckets, r: Request, t: real)
    requires 0 <= c.burst && 0 <= c.rate && r.at != 0.0 && r.at <= t && r.ip in plain && plain[r.ip].lastFill != 0.0
    ensures (if Allows(c, plain, r) then 1.0 else 0.0) + Due(c, Take(c, plain, r)[r.ip], t) <= Due(c, plain[r.ip], t)
  {
    Spread(r.at - plain[r.ip].lastFill, t - r.at, c.rate as real);
    assert (r.at - plain[r.ip].lastFill) + (t - r.at) == t - plain[r.ip].lastFill;
  }

  lemma CountStep(c: Limits, plain: Buckets, run: seq<Request>, ip: string, s: real, t: real)
    requires run != []
    ensures var later := CountAllowed(run[1..], PlainAnswers(c, Take(c, plain, run[0]), run[1..]), ip, s, t);
            CountAllowed(run, PlainAnswers(c, plain, run), ip, s, t) as real ==
              (if Allows(c, plain, run[0]) && run[0].ip == ip && s <= run[0].at <= t then 1.0 else 0.0) + later as real
  {
    assert PlainAnswers(c, plain, run)[1..] == PlainAnswers(c, Take(c, plain, run[0]), run[1..]);
  }

  lemma PastWindow(c: Limits, plain: Buckets, run: seq<Request>, ip: string, s: real, t: real, from: real)
    requires Timely(run, from) && (run != [] ==> run[0].at > t)
    ensures CountAllowed(run, PlainAnswers(c, plain, run), ip, s, t) == 0
  {
    if run != [] { NoneAfter(run, PlainAnswers(c, plain, run), ip, s, t, run[0].at); }
  }

  lemma DueNotNegative(c: Limits, b: Bucket, t: real)
    requires 0 <= c.rate && b.tokens >= 0.0 && b.lastFill <= t
    ensures Due(c, b, t) >= 0.0
  {
    FlowIsGain(b.tokens, t - b.lastFill, c.rate as real);
  }

  lemma {:induction false} InsideStep(c: Limits, plain: Buckets, run: seq<Request>, ip: string, s: real, t: real, from: real)
    requires 0 <= c.burst && 0 <= c.rate && Timely(run, from) && Healthy(plain, from)
    requires ip in plain && plain[ip].lastFill <= t && run != [] && run[0].at <= t
    ensures CountAllowed(run, PlainAnswers(c, plain, run), ip, s, t) as real <= Due(c, plain[ip], t)
    decreases |run|, 0
  {
    var r, next := run[0], Take(c, plain, run[0]);
    TakeHealthy(c, plain, r, from);
    if r.ip == ip { DrawStep(c, plain, r, t); }
    CountStep(c, plain, run, ip, s, t);
    InsideWindow(c, next, run[1..], ip, s, t, r.cleanupAt);
  }

  /** From a bucket no more is drawn until `t` than what is due by then. */
  lemma {:induction false} InsideWindow(c: Limits, plain: Buckets, run: seq<Request>, ip: string, s: real, t: real, from: real)
    requires 0 <= c.burst && 0 <= c.rate && Timely(run, from) && Healthy(plain, from)
    requires ip in plain && plain[ip].lastFill <= t
    ensures CountAllowed(run, PlainAnswers(c, plain, run), ip, s, t) as real <= Due(c, plain[ip], t)
    decreases |run|, 1
  {
    if run == [] || run[0].at > t {
      PastWindow(c, plain, run, ip, s, t, from);
      DueNotNegative(c, plain[ip], t);
    } else {
      InsideStep(c, plain, run, ip, s, t, from);
    }
  }

  lemma {:induction false} BeforeWindow(c: Limits, plain: Buckets, run: seq<Request>, ip: string, s: real, t: real, from: real)
    requires 0 <= c.burst && 0 <= c.rate && Timely(run, from) && Healthy(plain, from) && s <= t
    ensures CountAllowed(run, PlainAnswers(c, plain, run), ip, s, t) as real <= c.burst as real + (t - s) * c.rate as real
    decreases |run|
  {
    if run == [] {
      DueNotNegative(c, Bucket(c.burst as real, s), t);
      assert CountAllowed(run, PlainAnswers(c, plain, run), ip, s, t) == 0;
    } else {
      var r, next := run[0], Take(c, plain, run[0]);
      TakeHealthy(c, plain, r, from);
      CountStep(c, plain, run, ip, s, t);
      if r.ip == ip && s <= r.at <= t {
        FirstInWindow(c, plain, r, s, t);
        InsideWindow(c, next, run[1..], ip, s, t, r.cleanupAt);
      } else {
        BeforeWindow(c, next, run[1..], ip, s, t, r.cleanupAt);
      }
    }
  }

  lemma FirstInWindow(c: Limits, plain: Buckets, r: Request, s: real, t: real)
    requires 0 <= c.burst && 0 <= c.rate && s <= r.at <= t
    ensures (if Allows(c, plain, r) then 1.0 else 0.0) + Due(c, Take(c, plain, r)[r.ip], t)
            <= c.burst as real + (t - s) * c.rate as real
  {
    Scale(t - r.at, t - s, c.rate as real);
  }

  lemma {:induction false} CountTrues(run: seq<Request>, ip: string, s: real, t: real, n: nat)
    requires n <= |run| && forall i :: 0 <= i < n ==> run[i].ip == ip && s <= run[i].at <= t
    ensures CountAllowed(run, Trues(|run|), ip, s, t) >= n + CountAllowed(run[n..], Trues(|run| - n), ip, s, t)
    decreases n
  {
    assert Trues(|run|)[0..] == Trues(|run|);
    if n == 0 {
      assert run[0..] == run;
    } else {
      assert Trues(|run|)[1..] == Trues(|run| - 1);
      CountTrues(run[1..], ip, s, t, n - 1);
      assert run[1..][n - 1..] == run[n..];
    }
  }

  /** The two bursts are too many for the window from 1 to `t`. */
  lemma BurstTwiceTooMany(c: Limits, t: real)
    requires c.burst >= 1 && t > 61.0
    ensures var run := BurstTwice(c.burst, t);
            CountAllowed(run, Answers(c, Unused, run), "A", 1.0, t) >= 2 * c.burst
  {
    BothBurstsAllowed(c, t);
    CountBoth(c.burst, t);
    assert |BurstTwice(c.burst, t)| == 2 * c.burst + 1;
  }

  lemma CountBoth(n: nat, t: real)
    requires t > 61.0
    ensures CountAllowed(BurstTwice(n, t), Trues(2 * n + 1), "A", 1.0, t) >= 2 * n
  {
    var run := BurstTwice(n, t);
    CountTrues(run, "A", 1.0, t, n);
    assert run[n..] == [Request("B", t, t)] + Repeat("A", t, n);
    CountSecond(n, t);
  }

  lemma CountSecond(n: nat, t: real)
    requires t > 61.0
    ensures CountAllowed([Request("B", t, t)] + Repeat("A", t, n), Trues(n + 1), "A", 1.0, t) >= n
  {
    var rest := [Request("B", t, t)] + Repeat("A", t, n);
    assert rest[1..] == Repeat("A", t, n) && Trues(n + 1)[1..] == Trues(n);
    CountTrues(Repeat("A", t, n), "A", 1.0, t, n);
  }

  /**
   In every run, every requester and every window, no more than the burst plus what the window
   refills is allowed; and this is so exactly when a minute of refilling fills a bucket.
   */
  lemma WindowBoundIff(c: Limits)
    ensures WindowBound(c) <==> 0 <= c.burst <= 60 * c.rate
  {
    if 0 <= c.burst <= 60 * c.rate {
      WindowBoundHolds(c);
    } else if c.burst < 0 {
      Violated(c, [], "A", 0.0, 0.0);
    } else if c.rate < 0 {
      NegativeRate(c);
    } else {
      TwoBurstsViolate(c);
    }
  }

  lemma WindowBoundHolds(c: Limits)
    requires 0 <= c.burst <= 60 * c.rate
    ensures WindowBound(c)
  {
    forall run, ip, s, t | Timely(run, 0.0) && s <= t
      ensures CountAllowed(run, Answers(c, Unused, run), ip, s, t) as real <= c.burst as real + (t - s) * c.rate as real
    {
      EvictionInvisibleFrom(c, Unused, map[], run, 0.0);
      BeforeWindow(c, map[], run, ip, s, t, 0.0);
    }
  }

  lemma NegativeRate(c: Limits)
    requires c.burst >= 0 && c.rate < 0
    ensures !WindowBound(c)
  {
    var t := c.burst as real + 1.0;
    assert c.rate as real <= -1.0;
    Scale(1.0, -(c.rate as real), t);
    assert (t - 0.0) * c.rate as real <= -t;
    Violated(c, [], "A", 0.0, t);
  }

  lemma TwoBurstsViolate(c: Limits)
    requires 0 <= c.rate && c.burst > 60 * c.rate
    ensures !WindowBound(c)
  {
    var t := StillShort(c);
    BurstTwiceTimely(c.burst, t);
    BurstTwiceTooMany(c, t);
    Violated(c, BurstTwice(c.burst, t), "A", 1.0, t);
  }

  lemma Violated(c: Limits, run: seq<Request>, ip: string, s: real, t: real)
    requires Timely(run, 0.0) && s <= t
    requires CountAllowed(run, Answers(c, Unused, run), ip, s, t) as real > c.burst as real + (t - s) * c.rate as real
    ensures !WindowBound(c)
  {
  }
}
