/**
 When exactly the rate limiter denies a request, said with the earlier answers alone: neither the
 bucket nor its refilling is named.
 */
module RateLimiterLaw {
  import opened RateLimiter

  /** Since `s`, more of the requester's earlier requests were allowed than leave a token for request `i`. */
  ghost predicate Crowded(c: Limits, run: seq<Request>, answers: seq<bool>, i: nat, s: real)
    requires i < |run| == |answers|
  {
    CountAllowed(run[..i], answers[..i], run[i].ip, s, run[i].at) as real
    > c.burst as real + (run[i].at - s) * c.rate as real - 1.0
  }

  /** Request `i` is denied exactly when some window that ends with it is crowded. */
  ghost predicate DeniedIffCrowded(c: Limits, run: seq<Request>, answers: seq<bool>, i: nat)
    requires i < |run| == |answers|
  {
    !answers[i] <==> exists s :: s <= run[i].at && Crowded(c, run, answers, i, s)
  }

  /** In every run. */
  ghost predicate ExactLaw(c: Limits) {
    forall run, i: nat | Timely(run, 0.0) && i < |run| :: DeniedIffCrowded(c, run, Answers(c, Unused, run), i)
  }

  // ---------------------------------------------------------------- the buckets along a run

  /** The plain limiter's buckets before each request and after the last. */
  function Trace(c: Limits, buckets: Buckets, run: seq<Request>): (trace: seq<Buckets>)
    ensures |trace| == |run| + 1 && trace[0] == buckets
    decreases |run|
  {
    if run == [] then [buckets] else [buckets] + Trace(c, Take(c, buckets, run[0]), run[1..])
  }

  ghost predicate Traced(c: Limits, run: seq<Request>, answers: seq<bool>, trace: seq<Buckets>) {
    && |answers| == |run| && |trace| == |run| + 1 && trace[0] == map[]
    && (forall i :: 0 <= i < |run| ==> answers[i] == Allows(c, trace[i], run[i]))
    && forall i :: 0 <= i < |run| ==> trace[i + 1] == Take(c, trace[i], run[i])
  }

  lemma {:induction false} TraceSteps(c: Limits, buckets: Buckets, run: seq<Request>, i: nat)
    requires i < |run|
    ensures PlainAnswers(c, buckets, run)[i] == Allows(c, Trace(c, buckets, run)[i], run[i])
    ensures Trace(c, buckets, run)[i + 1] == Take(c, Trace(c, buckets, run)[i], run[i])
    decreases i
  {
    if i > 0 {
      var next := Take(c, buckets, run[0]);
      TraceSteps(c, next, run[1..], i - 1);
      assert Trace(c, buckets, run)[1..] == Trace(c, next, run[1..]);
      assert PlainAnswers(c, buckets, run)[1..] == PlainAnswers(c, next, run[1..]);
    }
  }

  lemma PlainTraced(c: Limits, run: seq<Request>)
    ensures Traced(c, run, PlainAnswers(c, map[], run), Trace(c, map[], run))
  {
    forall i | 0 <= i < |run|
      ensures PlainAnswers(c, map[], run)[i] == Allows(c, Trace(c, map[], run)[i], run[i])
      ensures Trace(c, map[], run)[i + 1] == Take(c, Trace(c, map[], run)[i], run[i])
    {
      TraceSteps(c, map[], run, i);
    }
  }

  // ---------------------------------------------------------------- counting in a prefix

  lemma {:induction false} InOrder(run: seq<Request>, from: real)
    requires Timely(run, from)
    ensures forall k :: 0 <= k < |run| ==> from <= run[k].at && 0.0 < run[k].at
    ensures forall j, k :: 0 <= j < k < |run| ==> run[j].at <= run[k].at
    decreases |run|
  {
    if run != [] {
      InOrder(run[1..], run[0].cleanupAt);
      forall k | 0 < k < |run| ensures run[0].at <= run[k].at && 0.0 < run[k].at { assert run[k] == run[1..][k - 1]; }
      forall j, k | 0 < j < k < |run| ensures run[j].at <= run[k].at {
        assert run[j] == run[1..][j - 1] && run[k] == run[1..][k - 1];
      }
    }
  }

  lemma {:induction false} CountNext(run: seq<Request>, answers: seq<bool>, ip: string, s: real, t: real, i: nat)
    requires i < |run| == |answers|
    ensures CountAllowed(run[..i + 1], answers[..i + 1], ip, s, t)
            == CountAllowed(run[..i], answers[..i], ip, s, t)
               + if answers[i] && run[i].ip == ip && s <= run[i].at <= t then 1 else 0
    decreases i
  {
    assert run[..i + 1][1..] == run[1..][..i] && answers[..i + 1][1..] == answers[1..][..i];
    if i == 0 {
      assert run[1..][..0] == [] && run[..0] == [];
    } else {
      CountNext(run[1..], answers[1..], ip, s, t, i - 1);
      assert run[..i][1..] == run[1..][..i - 1] && answers[..i][1..] == answers[1..][..i - 1];
    }
  }

  /** A window reaches no further than the last request. */
  lemma {:induction false} CountUpTo(run: seq<Request>, answers: seq<bool>, ip: string, s: real, u: real, t: real)
    requires |run| == |answers| && u <= t && forall k :: 0 <= k < |run| ==> run[k].at <= u
    ensures CountAllowed(run, answers, ip, s, t) == CountAllowed(run, answers, ip, s, u)
    decreases |run|
  {
    if run != [] { CountUpTo(run[1..], answers[1..], ip, s, u, t); }
  }

  lemma {:induction false} CountNone(run: seq<Request>, answers: seq<bool>, ip: string, s: real, t: real)
    requires |run| == |answers| && forall k :: 0 <= k < |run| ==> run[k].at < s
    ensures CountAllowed(run, answers, ip, s, t) == 0
    decreases |run|
  {
    if run != [] { CountNone(run[1..], answers[1..], ip, s, t); }
  }

  function Counted(run: seq<Request>, answers: seq<bool>, i: nat, ip: string, s: real, t: real): nat
    requires i <= |run| == |answers|
  {
    CountAllowed(run[..i], answers[..i], ip, s, t)
  }

  lemma CountedNext(run: seq<Request>, answers: seq<bool>, i: nat, ip: string, s: real, t: real)
    requires Timely(run, 0.0) && i < |run| == |answers| && run[i].at <= t
    ensures Counted(run, answers, i + 1, ip, s, t)
            == Counted(run, answers, i, ip, s, run[i].at)
               + if answers[i] && run[i].ip == ip && s <= run[i].at then 1 else 0
  {
    InOrder(run, 0.0);
    CountNext(run, answers, ip, s, t, i);
    CountUpTo(run[..i], answers[..i], ip, s, run[i].at, t);
  }

  /** Every request lies before `s`, so none is counted. */
  lemma CountedNone(run: seq<Request>, answers: seq<bool>, i: nat, ip: string, s: real, t: real)
    requires Timely(run, 0.0) && i <= |run| == |answers| && (i > 0 ==> run[i - 1].at < s)
    ensures Counted(run, answers, i, ip, s, t) == 0
  {
    InOrder(run, 0.0);
    CountNone(run[..i], answers[..i], ip, s, t);
  }

  // ---------------------------------------------------------------- the level of a bucket

  /** What a window leaves that began with a full bucket and in which `n` requests were allowed. */
  function Left(c: Limits, s: real, t: real, n: nat): real {
    c.burst as real + (t - s) * c.rate as real - n as real
  }

  /** The level a bucket has `elapsed` seconds after a request that found `level`. */
  function Refilled(c: Limits, level: real, allowed: bool, elapsed: real): real {
    RMin(c.burst as real, (if allowed then level - 1.0 else level) + elapsed * c.rate as real)
  }

  lemma OwnLevel(c: Limits, buckets: Buckets, r: Request, t: real)
    requires r.at != 0.0
    ensures Refill(c, Take(c, buckets, r), r.ip, t)
            == Refilled(c, Refill(c, buckets, r.ip, r.at), Allows(c, buckets, r), t - r.at)
  {
    var level := Refill(c, buckets, r.ip, r.at);
    var bucket := Bucket(if level >= 1.0 then level - 1.0 else level, r.at);
    assert Take(c, buckets, r)[r.ip] == bucket;
  }

  lemma MinTwice(burst: real, x: real, y: real)
    requires y >= 0.0
    ensures RMin(burst, x + y) == RMin(burst, RMin(burst, x) + y)
  {
  }

  /** The flow from `s` to `t` is the flow from `s` to `at` and that from `at` to `t`. */
  lemma FlowSplits(s: real, at: real, t: real, rate: real)
    ensures (t - s) * rate == (at - s) * rate + (t - at) * rate
  {
    Spread(at - s, t - at, rate);
    assert (at - s) + (t - at) == t - s;
  }

  lemma FlowNotNegative(elapsed: real, rate: real)
    requires elapsed >= 0.0 && rate >= 0.0
    ensures elapsed * rate >= 0.0
  {
  }

  /** Refilling in two steps is refilling in one. */
  lemma RefilledTwice(burst: real, tokens: real, last: real, at: real, t: real, rate: real)
    requires rate >= 0.0 && at <= t
    ensures RMin(burst, tokens + (t - last) * rate) == RMin(burst, RMin(burst, tokens + (at - last) * rate) + (t - at) * rate)
  {
    FlowSplits(last, at, t, rate);
    FlowNotNegative(t - at, rate);
    MinTwice(burst, tokens + (at - last) * rate, (t - at) * rate);
  }

  lemma LevelLater(c: Limits, buckets: Buckets, ip: string, at: real, t: real)
    requires 0 <= c.rate && at <= t
    ensures Refill(c, buckets, ip, t) == Refilled(c, Refill(c, buckets, ip, at), false, t - at)
  {
    if ip in buckets && buckets[ip].lastFill != 0.0 {
      RefilledTwice(c.burst as real, buckets[ip].tokens, buckets[ip].lastFill, at, t, c.rate as real);
    } else {
      FlowNotNegative(t - at, c.rate as real);
    }
  }

  lemma OtherLevel(c: Limits, buckets: Buckets, r: Request, ip: string, t: real)
    requires r.ip != ip
    ensures Refill(c, Take(c, buckets, r), ip, t) == Refill(c, buckets, ip, t)
  {
    var after := Take(c, buckets, r);
    assert (ip in after <==> ip in buckets) && (ip in buckets ==> after[ip] == buckets[ip]);
  }

  lemma LevelAfter(c: Limits, buckets: Buckets, r: Request, ip: string, t: real)
    requires 0 <= c.rate && r.at <= t && r.at != 0.0
    ensures Refill(c, Take(c, buckets, r), ip, t)
            == Refilled(c, Refill(c, buckets, ip, r.at), Allows(c, buckets, r) && r.ip == ip, t - r.at)
  {
    if r.ip == ip {
      OwnLevel(c, buckets, r, t);
    } else {
      OtherLevel(c, buckets, r, ip, t);
      LevelLater(c, buckets, ip, r.at, t);
    }
  }

  /** The levels a requester would have found at the moment of each request of the run. */
  ghost predicate Levelled(c: Limits, run: seq<Request>, answers: seq<bool>, ip: string, levels: seq<real>) {
    && |levels| == |run| == |answers|
    && (run != [] ==> levels[0] == c.burst as real)
    && (forall i :: 0 <= i < |run| ==> levels[i] <= c.burst as real)
    && forall i :: 0 < i < |run| ==>
         levels[i] == Refilled(c, levels[i - 1], answers[i - 1] && run[i - 1].ip == ip, run[i].at - run[i - 1].at)
  }

  lemma NextLevel(c: Limits, run: seq<Request>, answers: seq<bool>, trace: seq<Buckets>, ip: string, i: nat)
    requires 0 <= c.rate && Timely(run, 0.0) && Traced(c, run, answers, trace) && 0 < i < |run|
    ensures Refill(c, trace[i], ip, run[i].at)
            == Refilled(c, Refill(c, trace[i - 1], ip, run[i - 1].at), answers[i - 1] && run[i - 1].ip == ip, run[i].at - run[i - 1].at)
  {
    InOrder(run, 0.0);
    assert trace[i - 1 + 1] == Take(c, trace[i - 1], run[i - 1]);
    LevelAfter(c, trace[i - 1], run[i - 1], ip, run[i].at);
  }

  lemma LevelsOf(c: Limits, run: seq<Request>, answers: seq<bool>, trace: seq<Buckets>, ip: string) returns (levels: seq<real>)
    requires 0 <= c.rate && Timely(run, 0.0) && Traced(c, run, answers, trace)
    ensures Levelled(c, run, answers, ip, levels)
    ensures forall i :: 0 <= i < |run| && run[i].ip == ip ==> (answers[i] <==> levels[i] >= 1.0)
  {
    levels := seq(|run|, i requires 0 <= i < |run| => Refill(c, trace[i], ip, run[i].at));
    forall i | 0 < i < |run|
      ensures levels[i] == Refilled(c, levels[i - 1], answers[i - 1] && run[i - 1].ip == ip, run[i].at - run[i - 1].at)
    {
      NextLevel(c, run, answers, trace, ip, i);
    }
  }

  lemma FullWindow(c: Limits, t: real)
    ensures Left(c, t, t, 0) == c.burst as real
  {
    NoTime(t, t, c.rate as real);
  }

  lemma WiderLeavesMore(c: Limits, s: real, t: real)
    requires 0 <= c.rate && s <= t
    ensures Left(c, s, t, 0) >= c.burst as real
  {
    FlowNotNegative(t - s, c.rate as real);
  }

  /** What a window leaves changes like the level of the bucket, except that it knows no upper limit. */
  lemma LeftLater(c: Limits, s: real, at: real, t: real, n: nat, allowed: bool)
    ensures Left(c, s, t, n + if allowed then 1 else 0)
            == Left(c, s, at, n) - (if allowed then 1.0 else 0.0) + (t - at) * c.rate as real
  {
    FlowSplits(s, at, t, c.rate as real);
  }

  lemma RefilledBelow(c: Limits, s: real, at: real, t: real, n: nat, allowed: bool, level: real)
    requires level <= Left(c, s, at, n)
    ensures Refilled(c, level, allowed, t - at) <= Left(c, s, t, n + if allowed then 1 else 0)
  {
    LeftLater(c, s, at, t, n, allowed);
  }

  /** The bucket is full again, or the window that explained its level before explains it still. */
  lemma RefilledAttained(c: Limits, s: real, at: real, t: real, n: nat, allowed: bool, level: real)
    requires level == Left(c, s, at, n) && level <= c.burst as real && at <= t
    requires at == t || Refilled(c, level, allowed, t - at) != c.burst as real
    ensures Refilled(c, level, allowed, t - at) == Left(c, s, t, n + if allowed then 1 else 0)
  {
    LeftLater(c, s, at, t, n, allowed);
    if at == t { NoTime(t, at, c.rate as real); }
  }

  /** The level is at most what any window ending now leaves. */
  lemma {:induction false} LevelBelow(c: Limits, run: seq<Request>, answers: seq<bool>, ip: string, levels: seq<real>, i: nat, s: real)
    requires 0 <= c.rate && Timely(run, 0.0) && Levelled(c, run, answers, ip, levels) && i < |run| && s <= run[i].at
    ensures levels[i] <= Left(c, s, run[i].at, Counted(run, answers, i, ip, s, run[i].at))
    decreases i
  {
    InOrder(run, 0.0);
    var t := run[i].at;
    if i == 0 || run[i - 1].at < s {
      CountedNone(run, answers, i, ip, s, t);
      WiderLeavesMore(c, s, t);
    } else {
      var at, own := run[i - 1].at, answers[i - 1] && run[i - 1].ip == ip;
      LevelBelow(c, run, answers, ip, levels, i - 1, s);
      RefilledBelow(c, s, at, t, Counted(run, answers, i - 1, ip, s, at), own, levels[i - 1]);
      CountedNext(run, answers, i - 1, ip, s, t);
    }
  }

  /** And some window leaves no more: the empty one when the bucket is full, else the one that explained the level before. */
  lemma {:induction false} LevelAttained(c: Limits, run: seq<Request>, answers: seq<bool>, ip: string, levels: seq<real>, i: nat) returns (s: real)
    requires Timely(run, 0.0) && Levelled(c, run, answers, ip, levels) && i < |run|
    ensures s <= run[i].at && levels[i] == Left(c, s, run[i].at, Counted(run, answers, i, ip, s, run[i].at))
    decreases i
  {
    InOrder(run, 0.0);
    var t := run[i].at;
    if levels[i] == c.burst as real && (i > 0 ==> run[i - 1].at < t) {
      s := t;
      CountedNone(run, answers, i, ip, t, t);
      FullWindow(c, t);
    } else {
      var at, own := run[i - 1].at, answers[i - 1] && run[i - 1].ip == ip;
      s := LevelAttained(c, run, answers, ip, levels, i - 1);
      RefilledAttained(c, s, at, t, Counted(run, answers, i - 1, ip, s, at), own, levels[i - 1]);
      CountedNext(run, answers, i - 1, ip, s, t);
    }
  }

  // ---------------------------------------------------------------- the law

  lemma CrowdedIs(c: Limits, run: seq<Request>, answers: seq<bool>, i: nat, s: real)
    requires i < |run| == |answers|
    ensures Crowded(c, run, answers, i, s) <==> Left(c, s, run[i].at, Counted(run, answers, i, run[i].ip, s, run[i].at)) < 1.0
  {
    var n, t := Counted(run, answers, i, run[i].ip, s, run[i].at), run[i].at;
    assert Crowded(c, run, answers, i, s) <==> n as real > c.burst as real + (t - s) * c.rate as real - 1.0;
    LeftIs(c, s, t, n);
  }

  lemma LeftIs(c: Limits, s: real, t: real, n: nat)
    ensures Left(c, s, t, n) < 1.0 <==> n as real > c.burst as real + (t - s) * c.rate as real - 1.0
  {
  }

  lemma PlainExact(c: Limits, run: seq<Request>, answers: seq<bool>, trace: seq<Buckets>, i: nat)
    requires 0 <= c.rate && Timely(run, 0.0) && Traced(c, run, answers, trace) && i < |run|
    ensures DeniedIffCrowded(c, run, answers, i)
  {
    var levels := LevelsOf(c, run, answers, trace, run[i].ip);
    if !answers[i] {
      var s := LevelAttained(c, run, answers, run[i].ip, levels, i);
      CrowdedIs(c, run, answers, i, s);
    } else {
      forall s | s <= run[i].at ensures !Crowded(c, run, answers, i, s) {
        LevelBelow(c, run, answers, run[i].ip, levels, i, s);
        CrowdedIs(c, run, answers, i, s);
      }
    }
  }

  /** With no burst nothing is allowed, and every window is crowded. */
  lemma NoBurstExact(c: Limits, run: seq<Request>, i: nat)
    requires c.burst <= 0 && i < |run|
    ensures DeniedIffCrowded(c, run, Answers(c, Unused, run), i)
  {
    NothingAllowed(c, Unused, map[], run);
    var t := run[i].at;
    NoTime(t, t, c.rate as real);
    assert Crowded(c, run, Answers(c, Unused, run), i, t);
  }

  /** The last request of the second burst is allowed although the window since time 1 is crowded. */
  lemma LastOfBothBursts(c: Limits, t: real)
    requires c.burst >= 1 && t > 61.0 && (t - 1.0) * c.rate as real < c.burst as real
    ensures !DeniedIffCrowded(c, BurstTwice(c.burst, t), Answers(c, Unused, BurstTwice(c.burst, t)), 2 * c.burst)
  {
    BothBurstsAllowed(c, t);
    LastCrowded(c, t);
  }

  lemma LastCrowded(c: Limits, t: real)
    requires c.burst >= 1 && t > 61.0 && (t - 1.0) * c.rate as real < c.burst as real
    ensures Crowded(c, BurstTwice(c.burst, t), Trues(2 * c.burst + 1), 2 * c.burst, 1.0)
  {
    var run, n := BurstTwice(c.burst, t), 2 * c.burst;
    assert Trues(n + 1)[..n] == Trues(n) && run[n] == Request("A", t, t);
    CountAllButLast(c.burst, t);
    TooMany(c.burst, (t - 1.0) * c.rate as real, CountAllowed(run[..n], Trues(n), "A", 1.0, t));
  }

  lemma TooMany(burst: int, flow: real, n: nat)
    requires n >= 2 * burst - 1 && flow < burst as real
    ensures n as real > burst as real + flow - 1.0
  {
  }

  lemma CountAllButLast(n: nat, t: real)
    requires n >= 1 && t > 61.0
    ensures CountAllowed(BurstTwice(n, t)[..2 * n], Trues(2 * n), "A", 1.0, t) >= 2 * n - 1
  {
    var run := BurstTwice(n, t)[..2 * n];
    assert run == Repeat("A", 1.0, n) + ([Request("B", t, t)] + Repeat("A", t, n - 1));
    CountTrues(run, "A", 1.0, t, n);
    assert run[n..] == [Request("B", t, t)] + Repeat("A", t, n - 1);
    CountSecond(n - 1, t);
  }

  /**
   A request at `t` is denied if and only if for some `s` not after `t` more than
   burst + rate * (t - s) - 1 of that requester's earlier requests were allowed in [s, t]. This holds
   in every run exactly when a minute of refilling fills a bucket, or nothing is ever allowed.
   */
  lemma ExactLawIff(c: Limits)
    ensures ExactLaw(c) <==> c.burst <= 0 || c.burst <= 60 * c.rate
  {
    if c.burst <= 0 {
      forall run, i: nat | Timely(run, 0.0) && i < |run| ensures DeniedIffCrowded(c, run, Answers(c, Unused, run), i) {
        NoBurstExact(c, run, i);
      }
    } else if c.burst <= 60 * c.rate {
      forall run, i: nat | Timely(run, 0.0) && i < |run| ensures DeniedIffCrowded(c, run, Answers(c, Unused, run), i) {
        EvictionInvisibleFrom(c, Unused, map[], run, 0.0);
        PlainTraced(c, run);
        PlainExact(c, run, PlainAnswers(c, map[], run), Trace(c, map[], run), i);
      }
    } else {
      var t := StillShort(c);
      BurstTwiceTimely(c.burst, t);
      LastOfBothBursts(c, t);
    }
  }
}
