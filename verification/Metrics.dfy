/**
 Latency metrics recorded by any number of threads without locks. Each atomic operation of a recorder
 is a step of its own; a relaxed load may give an older value of the minimum or maximum, and a weak
 compare-exchange may fail for no reason. Covers the endpoint metrics (weight 1) and the model
 metrics (weight = batch size), each with its own list of bucket bounds.
 */
module Metrics {
  import opened Common

  const INT64_MAX: int := 0x7FFF_FFFF_FFFF_FFFF

  /** Where a recorder stands; the two loops carry the value they expect to find. */
  datatype Pc = AddTotal | AddError | AddSum | LoadMin | TryMin(seen: int) | LoadMax | TryMax(seen: int) | AddBucket | Done

  datatype Recorder = Recorder(latency: int, isError: bool, weight: nat, pc: Pc)

  datatype Metrics = Metrics(total: int, errors: int, sum: int, min: int, max: int, buckets: seq<int>, recorders: seq<Recorder>)

  function Rank(pc: Pc): nat {
    match pc
    case AddTotal => 0 case AddError => 1 case AddSum => 2 case LoadMin => 3 case TryMin(_) => 4
    case LoadMax => 5 case TryMax(_) => 6 case AddBucket => 7 case Done => 8
  }

  /** The first bucket whose bound is above the latency; the last bucket when there is none. */
  function BucketOf(bounds: seq<int>, latency: int): (k: nat)
    ensures k <= |bounds| && (forall j :: 0 <= j < k ==> latency >= bounds[j]) && (k < |bounds| ==> latency < bounds[k])
  {
    if bounds == [] || latency < bounds[0] then 0 else 1 + BucketOf(bounds[1..], latency)
  }

  function Fresh(bounds: seq<int>): Metrics {
    Metrics(0, 0, 0, INT64_MAX, 0, seq(|bounds| + 1, _ => 0), [])
  }

  datatype Event =
    | Begin(latency: int, isError: bool, weight: nat)
    | Step(i: nat)
    | Load(i: nat, value: int)
    | Exchange(i: nat)
    | Fail(i: nat, value: int)

  predicate At(m: Metrics, i: nat, rank: nat) { i < |m.recorders| && Rank(m.recorders[i].pc) == rank }

  predicate Can(m: Metrics, e: Event) {
    match e
    case Begin(_, _, _) => true
    case Step(i) =>
      i < |m.recorders| &&
      (match m.recorders[i].pc
       case TryMin(seen) => m.recorders[i].latency >= seen
       case TryMax(seen) => m.recorders[i].latency <= seen
       case LoadMin => false
       case LoadMax => false
       case Done => false
       case _ => true)
    case Load(i, value) => (At(m, i, 3) && value >= m.min) || (At(m, i, 5) && value <= m.max)
    case Exchange(i) =>
      i < |m.recorders| &&
      (match m.recorders[i].pc
       case TryMin(seen) => m.recorders[i].latency < seen && m.min == seen
       case TryMax(seen) => m.recorders[i].latency > seen && m.max == seen
       case _ => false)
    case Fail(i, value) =>
      i < |m.recorders| &&
      (match m.recorders[i].pc
       case TryMin(seen) => m.recorders[i].latency < seen && value >= m.min
       case TryMax(seen) => m.recorders[i].latency > seen && value <= m.max
       case _ => false)
  }

  function Move(m: Metrics, i: nat, pc: Pc): Metrics
    requires i < |m.recorders|
  {
    m.(recorders := m.recorders[i := m.recorders[i].(pc := pc)])
  }

  function Next(bounds: seq<int>, m: Metrics, e: Event): Metrics
    requires Can(m, e) && |m.buckets| == |bounds| + 1
  {
    match e
    case Begin(latency, isError, weight) => m.(recorders := m.recorders + [Recorder(latency, isError, weight, AddTotal)])
    case Load(i, value) => Move(m, i, if m.recorders[i].pc.LoadMin? then TryMin(value) else TryMax(value))
    case Fail(i, value) => Move(m, i, if m.recorders[i].pc.TryMin? then TryMin(value) else TryMax(value))
    case Exchange(i) =>
      if m.recorders[i].pc.TryMin? then Move(m, i, LoadMax).(min := m.recorders[i].latency)
      else Move(m, i, AddBucket).(max := m.recorders[i].latency)
    case Step(i) =>
      var r := m.recorders[i];
      match r.pc
      case AddTotal => Move(m, i, AddError).(total := m.total + r.weight)
      case AddError => Move(m, i, AddSum).(errors := m.errors + (if r.isError then 1 else 0))
      case AddSum => Move(m, i, LoadMin).(sum := m.sum + r.latency)
      case TryMin(_) => Move(m, i, LoadMax)
      case TryMax(_) => Move(m, i, AddBucket)
      case _ =>
        var k := BucketOf(bounds, r.latency);
        Move(m, i, Done).(buckets := m.buckets[k := m.buckets[k] + r.weight])
  }

  ghost predicate StepTo(bounds: seq<int>, m: Metrics, e: Event, m': Metrics) {
    Can(m, e) && |m.buckets| == |bounds| + 1 && m' == Next(bounds, m, e)
  }

  ghost predicate Reached(bounds: seq<int>, m: Metrics, events: seq<Event>)
    decreases |events|
  {
    if events == [] then m == Fresh(bounds)
    else
      var earlier, last := events[..|events| - 1], events[|events| - 1];
      exists q :: Reached(bounds, q, earlier) && StepTo(bounds, q, last, m)
  }

  // ---------------------------------------------------------------- tallies

  /** Sum of a measure over the recorders. */
  function Tally(rs: seq<Recorder>, f: Recorder -> int): int {
    if rs == [] then 0 else Tally(rs[..|rs| - 1], f) + f(rs[|rs| - 1])
  }

  lemma {:induction false} TallyUpdate(rs: seq<Recorder>, i: nat, r: Recorder, f: Recorder -> int)
    requires i < |rs|
    ensures Tally(rs[i := r], f) == Tally(rs, f) - f(rs[i]) + f(r)
    decreases |rs|
  {
    var n := |rs| - 1;
    if i < n {
      TallyUpdate(rs[..n], i, r, f);
      assert rs[i := r][..n] == rs[..n][i := r];
    } else {
      assert rs[i := r][..n] == rs[..n];
    }
  }

  lemma TallySnoc(rs: seq<Recorder>, r: Recorder, f: Recorder -> int)
    ensures Tally(rs + [r], f) == Tally(rs, f) + f(r)
  {
    assert (rs + [r])[..|rs|] == rs;
  }

  lemma {:induction false} TallySame(rs: seq<Recorder>, f: Recorder -> int, g: Recorder -> int)
    requires forall i :: 0 <= i < |rs| ==> f(rs[i]) == g(rs[i])
    ensures Tally(rs, f) == Tally(rs, g)
    decreases |rs|
  {
    if rs != [] { TallySame(rs[..|rs| - 1], f, g); }
  }

  /** What a recorder has put into each counter so far, and what it puts there in all. */
  function TotalPart(): Recorder -> int { (r: Recorder) => if Rank(r.pc) > 0 then r.weight else 0 }
  function ErrorPart(): Recorder -> int { (r: Recorder) => if Rank(r.pc) > 1 && r.isError then 1 else 0 }
  function SumPart(): Recorder -> int { (r: Recorder) => if Rank(r.pc) > 2 then r.latency else 0 }
  function BucketPart(bounds: seq<int>, k: nat): Recorder -> int {
    (r: Recorder) => if r.pc.Done? && BucketOf(bounds, r.latency) == k then r.weight else 0
  }
  function Weight(): Recorder -> int { (r: Recorder) => r.weight }
  function Error(): Recorder -> int { (r: Recorder) => if r.isError then 1 else 0 }
  function Latency(): Recorder -> int { (r: Recorder) => r.latency }
  function Below(bound: int): Recorder -> int { (r: Recorder) => if r.latency < bound then r.weight else 0 }
  function AtMost(bound: int): Recorder -> int { (r: Recorder) => if r.latency <= bound then r.weight else 0 }
  function InBucket(bounds: seq<int>, k: nat): Recorder -> int {
    (r: Recorder) => if BucketOf(bounds, r.latency) == k then r.weight else 0
  }

  ghost predicate Counted(bounds: seq<int>, m: Metrics) {
    && |m.buckets| == |bounds| + 1
    && m.total == Tally(m.recorders, TotalPart())
    && m.errors == Tally(m.recorders, ErrorPart())
    && m.sum == Tally(m.recorders, SumPart())
    && forall k :: 0 <= k < |m.buckets| ==> m.buckets[k] == Tally(m.recorders, BucketPart(bounds, k))
  }

  /** The minimum is at most every latency that has passed it, and is one of them (or still unset); likewise the maximum. */
  ghost predicate Extremes(m: Metrics) {
    && (forall i :: 0 <= i < |m.recorders| ==> ExtremesOf(m, m.recorders[i]))
    && MinWitnessed(m) && MaxWitnessed(m)
    && m.min <= INT64_MAX && m.max >= 0
  }

  predicate ExtremesOf(m: Metrics, r: Recorder) {
    && (Rank(r.pc) > 4 ==> m.min <= r.latency)
    && (Rank(r.pc) > 6 ==> m.max >= r.latency)
    && (r.pc.TryMin? ==> r.pc.seen >= m.min)
    && (r.pc.TryMax? ==> r.pc.seen <= m.max)
  }

  lemma BeginCounted(bounds: seq<int>, m: Metrics, e: Event)
    requires Counted(bounds, m) && e.Begin?
    ensures Counted(bounds, Next(bounds, m, e))
  {
    var r := Recorder(e.latency, e.isError, e.weight, AddTotal);
    TallySnoc(m.recorders, r, TotalPart());
    TallySnoc(m.recorders, r, ErrorPart());
    TallySnoc(m.recorders, r, SumPart());
    forall k | 0 <= k < |m.buckets| ensures m.buckets[k] == Tally(m.recorders + [r], BucketPart(bounds, k)) {
      TallySnoc(m.recorders, r, BucketPart(bounds, k));
    }
  }

  /** The recorder a step belongs to. */
  function Actor(e: Event): nat
    requires !e.Begin?
  {
    e.i
  }

  /** A step of one recorder changes each counter by what that recorder's part of it changes by. */
  lemma StepDifference(bounds: seq<int>, m: Metrics, e: Event, k: nat)
    requires |m.buckets| == |bounds| + 1 && Can(m, e) && !e.Begin? && k <= |bounds|
    ensures var i, m' := Actor(e), Next(bounds, m, e);
            && i < |m.recorders| && |m'.buckets| == |m.buckets|
            && m'.recorders == m.recorders[i := m'.recorders[i]]
            && m'.total - m.total == TotalPart()(m'.recorders[i]) - TotalPart()(m.recorders[i])
            && m'.errors - m.errors == ErrorPart()(m'.recorders[i]) - ErrorPart()(m.recorders[i])
            && m'.sum - m.sum == SumPart()(m'.recorders[i]) - SumPart()(m.recorders[i])
            && m'.buckets[k] - m.buckets[k] == BucketPart(bounds, k)(m'.recorders[i]) - BucketPart(bounds, k)(m.recorders[i])
  {
  }

  lemma StepCounted(bounds: seq<int>, m: Metrics, e: Event)
    requires Counted(bounds, m) && Can(m, e)
    ensures Counted(bounds, Next(bounds, m, e))
  {
    if e.Begin? {
      BeginCounted(bounds, m, e);
    } else {
      var i, m' := Actor(e), Next(bounds, m, e);
      StepDifference(bounds, m, e, 0);
      TallyUpdate(m.recorders, i, m'.recorders[i], TotalPart());
      TallyUpdate(m.recorders, i, m'.recorders[i], ErrorPart());
      TallyUpdate(m.recorders, i, m'.recorders[i], SumPart());
      forall k | 0 <= k < |m'.buckets| ensures m'.buckets[k] == Tally(m'.recorders, BucketPart(bounds, k)) {
        StepDifference(bounds, m, e, k);
        TallyUpdate(m.recorders, i, m'.recorders[i], BucketPart(bounds, k));
      }
    }
  }

  /** The minimum only falls, the maximum only grows, recorders only move on and keep their latency. */
  ghost predicate Onward(m: Metrics, m': Metrics) {
    && m'.min <= m.min && m'.max >= m.max && |m'.recorders| >= |m.recorders|
    && forall j :: 0 <= j < |m.recorders| ==> MovedOn(m.recorders[j], m'.recorders[j])
  }

  predicate MovedOn(r: Recorder, r': Recorder) { r'.latency == r.latency && Rank(r'.pc) >= Rank(r.pc) }

  lemma StepOnward(bounds: seq<int>, m: Metrics, e: Event)
    requires |m.buckets| == |bounds| + 1 && Extremes(m) && Can(m, e)
    ensures Onward(m, Next(bounds, m, e))
  {
    if e.Exchange? { assert ExtremesOf(m, m.recorders[e.i]); }
  }

  lemma StepExtremesOf(bounds: seq<int>, m: Metrics, e: Event, j: nat)
    requires |m.buckets| == |bounds| + 1 && Extremes(m) && Can(m, e) && j < |Next(bounds, m, e).recorders|
    ensures ExtremesOf(Next(bounds, m, e), Next(bounds, m, e).recorders[j])
  {
    if j < |m.recorders| { assert ExtremesOf(m, m.recorders[j]); }
    if e.Exchange? { assert ExtremesOf(m, m.recorders[e.i]); }
  }

  ghost predicate MinWitnessed(m: Metrics) {
    m.min == INT64_MAX || exists i :: 0 <= i < |m.recorders| && Rank(m.recorders[i].pc) > 4 && m.recorders[i].latency == m.min
  }

  ghost predicate MaxWitnessed(m: Metrics) {
    m.max == 0 || exists i :: 0 <= i < |m.recorders| && Rank(m.recorders[i].pc) > 6 && m.recorders[i].latency == m.max
  }

  lemma StepMinWitnessed(bounds: seq<int>, m: Metrics, e: Event)
    requires |m.buckets| == |bounds| + 1 && Extremes(m) && Can(m, e)
    ensures MinWitnessed(Next(bounds, m, e))
  {
    var m' := Next(bounds, m, e);
    StepOnward(bounds, m, e);
    if m'.min != m.min {
      assert Rank(m'.recorders[e.i].pc) > 4 && m'.recorders[e.i].latency == m'.min;
    } else if m.min != INT64_MAX {
      var j :| 0 <= j < |m.recorders| && Rank(m.recorders[j].pc) > 4 && m.recorders[j].latency == m.min;
      assert MovedOn(m.recorders[j], m'.recorders[j]);
    }
  }

  lemma StepMaxWitnessed(bounds: seq<int>, m: Metrics, e: Event)
    requires |m.buckets| == |bounds| + 1 && Extremes(m) && Can(m, e)
    ensures MaxWitnessed(Next(bounds, m, e))
  {
    var m' := Next(bounds, m, e);
    StepOnward(bounds, m, e);
    if m'.max != m.max {
      assert Rank(m'.recorders[e.i].pc) > 6 && m'.recorders[e.i].latency == m'.max;
    } else if m.max != 0 {
      var j :| 0 <= j < |m.recorders| && Rank(m.recorders[j].pc) > 6 && m.recorders[j].latency == m.max;
      assert MovedOn(m.recorders[j], m'.recorders[j]);
    }
  }

  lemma StepExtremes(bounds: seq<int>, m: Metrics, e: Event)
    requires |m.buckets| == |bounds| + 1 && Extremes(m) && Can(m, e)
    ensures Extremes(Next(bounds, m, e))
  {
    var m' := Next(bounds, m, e);
    StepOnward(bounds, m, e);
    StepMinWitnessed(bounds, m, e);
    StepMaxWitnessed(bounds, m, e);
    forall j | 0 <= j < |m'.recorders| ensures ExtremesOf(m', m'.recorders[j]) { StepExtremesOf(bounds, m, e, j); }
  }

  lemma {:induction false} EveryMetricsRun(bounds: seq<int>, m: Metrics, events: seq<Event>)
    requires Reached(bounds, m, events)
    ensures Counted(bounds, m) && Extremes(m)
    decreases |events|
  {
    if events != [] {
      var earlier, last := events[..|events| - 1], events[|events| - 1];
      var q :| Reached(bounds, q, earlier) && StepTo(bounds, q, last, m);
      EveryMetricsRun(bounds, q, earlier);
      StepCounted(bounds, q, last);
      StepExtremes(bounds, q, last);
    }
  }

  // ---------------------------------------------------------------- at quiescence

  ghost predicate Quiescent(m: Metrics) { forall i :: 0 <= i < |m.recorders| ==> m.recorders[i].pc.Done? }

  /** The least of the latencies and `start`. */
  function Least(rs: seq<Recorder>, start: int): int {
    if rs == [] then start else Min(Least(rs[..|rs| - 1], start), rs[|rs| - 1].latency)
  }

  function Largest(rs: seq<Recorder>, start: int): int {
    if rs == [] then start else Max(Largest(rs[..|rs| - 1], start), rs[|rs| - 1].latency)
  }

  lemma {:induction false} LeastIs(rs: seq<Recorder>, start: int, v: int)
    requires v <= start && (forall i :: 0 <= i < |rs| ==> v <= rs[i].latency)
    requires v == start || exists i :: 0 <= i < |rs| && rs[i].latency == v
    ensures Least(rs, start) == v
    decreases |rs|
  {
    if rs != [] {
      var n := |rs| - 1;
      if v == start || exists i :: 0 <= i < n && rs[i].latency == v {
        LeastIs(rs[..n], start, v);
      } else {
        LeastAbove(rs[..n], start, v);
      }
    }
  }

  lemma {:induction false} LeastAbove(rs: seq<Recorder>, start: int, v: int)
    requires v <= start && forall i :: 0 <= i < |rs| ==> v <= rs[i].latency
    ensures v <= Least(rs, start)
    decreases |rs|
  {
    if rs != [] { LeastAbove(rs[..|rs| - 1], start, v); }
  }

  lemma {:induction false} LargestIs(rs: seq<Recorder>, start: int, v: int)
    requires v >= start && (forall i :: 0 <= i < |rs| ==> v >= rs[i].latency)
    requires v == start || exists i :: 0 <= i < |rs| && rs[i].latency == v
    ensures Largest(rs, start) == v
    decreases |rs|
  {
    if rs != [] {
      var n := |rs| - 1;
      if v == start || exists i :: 0 <= i < n && rs[i].latency == v {
        LargestIs(rs[..n], start, v);
      } else {
        LargestBelow(rs[..n], start, v);
      }
    }
  }

  lemma {:induction false} LargestBelow(rs: seq<Recorder>, start: int, v: int)
    requires v >= start && forall i :: 0 <= i < |rs| ==> v >= rs[i].latency
    ensures v >= Largest(rs, start)
    decreases |rs|
  {
    if rs != [] { LargestBelow(rs[..|rs| - 1], start, v); }
  }

  /**
   However the recorders' atomic steps were interleaved: once all are done, nothing has been lost and
   the stored minimum and maximum are the true ones (from the initial 2^63 - 1 and 0).
   */
  lemma NothingLost(bounds: seq<int>, m: Metrics, events: seq<Event>)
    requires Reached(bounds, m, events) && Quiescent(m)
    ensures m.total == Tally(m.recorders, Weight()) && m.errors == Tally(m.recorders, Error())
    ensures m.sum == Tally(m.recorders, Latency())
    ensures m.min == Least(m.recorders, INT64_MAX) && m.max == Largest(m.recorders, 0)
  {
    EveryMetricsRun(bounds, m, events);
    TallySame(m.recorders, TotalPart(), Weight());
    TallySame(m.recorders, ErrorPart(), Error());
    TallySame(m.recorders, SumPart(), Latency());
    assert forall i :: 0 <= i < |m.recorders| ==> ExtremesOf(m, m.recorders[i]);
    LeastIs(m.recorders, INT64_MAX, m.min);
    LargestIs(m.recorders, 0, m.max);
  }

  // ---------------------------------------------------------------- the histogram

  /** What the exporter prints for bound `k`: the buckets up to it, added up. */
  function Cumulative(buckets: seq<int>, k: nat): int
    requires k < |buckets|
  {
    if k == 0 then buckets[0] else Cumulative(buckets, k - 1) + buckets[k]
  }

  ghost predicate Increasing(bounds: seq<int>) { forall i, j :: 0 <= i < j < |bounds| ==> bounds[i] < bounds[j] }

  /** The bounds of the endpoint and of the model metrics, in microseconds. */
  const ENDPOINT_BOUNDS := [10000, 50000, 100000, 500000]
  const MODEL_BOUNDS := [1000, 5000, 10000, 25000, 50000, 100000, 250000, 500000, 1000000, 2500000]

  /** So the histogram laws below hold of both. */
  lemma BoundsIncrease()
    ensures Increasing(ENDPOINT_BOUNDS) && Increasing(MODEL_BOUNDS)
  {
    assert forall i :: 0 <= i < |MODEL_BOUNDS| - 1 ==> MODEL_BOUNDS[i] < MODEL_BOUNDS[i + 1];
    StepwiseIncreasing(MODEL_BOUNDS);
  }

  lemma StepwiseIncreasing(bounds: seq<int>)
    requires forall i :: 0 <= i < |bounds| - 1 ==> bounds[i] < bounds[i + 1]
    ensures Increasing(bounds)
  {
    forall i, j | 0 <= i < j < |bounds| ensures bounds[i] < bounds[j] { Climb(bounds, i, j); }
  }

  lemma {:induction false} Climb(bounds: seq<int>, i: nat, j: nat)
    requires forall k :: 0 <= k < |bounds| - 1 ==> bounds[k] < bounds[k + 1]
    requires i < j < |bounds|
    ensures bounds[i] < bounds[j]
    decreases j
  {
    if j > i + 1 { Climb(bounds, i, j - 1); }
    assert bounds[j - 1] < bounds[j - 1 + 1];
  }

  /** Weight of the recorders in buckets up to `k`. */
  function UpTo(bounds: seq<int>, k: nat): Recorder -> int { (r: Recorder) => if BucketOf(bounds, r.latency) <= k then r.weight else 0 }

  lemma {:induction false} TallyAdd(rs: seq<Recorder>, f: Recorder -> int, g: Recorder -> int, h: Recorder -> int)
    requires forall i :: 0 <= i < |rs| ==> h(rs[i]) == f(rs[i]) + g(rs[i])
    ensures Tally(rs, h) == Tally(rs, f) + Tally(rs, g)
    decreases |rs|
  {
    if rs != [] { TallyAdd(rs[..|rs| - 1], f, g, h); }
  }

  lemma {:induction false} CumulativeIsUpTo(bounds: seq<int>, m: Metrics, k: nat)
    requires Counted(bounds, m) && Quiescent(m) && k < |m.buckets|
    ensures Cumulative(m.buckets, k) == Tally(m.recorders, UpTo(bounds, k))
    decreases k
  {
    TallySame(m.recorders, BucketPart(bounds, k), InBucket(bounds, k));
    if k == 0 {
      TallySame(m.recorders, InBucket(bounds, 0), UpTo(bounds, 0));
    } else {
      CumulativeIsUpTo(bounds, m, k - 1);
      TallyAdd(m.recorders, UpTo(bounds, k - 1), InBucket(bounds, k), UpTo(bounds, k));
    }
  }

  /** The histogram counts for each bound exactly what is strictly below it, and everything in its last line. */
  lemma HistogramIsCumulative(bounds: seq<int>, m: Metrics, events: seq<Event>, k: nat)
    requires Reached(bounds, m, events) && Quiescent(m) && Increasing(bounds) && k <= |bounds|
    ensures k < |m.buckets|
    ensures k < |bounds| ==> Cumulative(m.buckets, k) == Tally(m.recorders, Below(bounds[k]))
    ensures k == |bounds| ==> Cumulative(m.buckets, k) == m.total
  {
    EveryMetricsRun(bounds, m, events);
    NothingLost(bounds, m, events);
    CumulativeIsUpTo(bounds, m, k);
    UpToMeans(bounds, m.recorders, k);
  }

  lemma UpToMeans(bounds: seq<int>, rs: seq<Recorder>, k: nat)
    requires Increasing(bounds) && k <= |bounds|
    ensures Tally(rs, UpTo(bounds, k)) == if k < |bounds| then Tally(rs, Below(bounds[k])) else Tally(rs, Weight())
  {
    if k < |bounds| {
      forall i | 0 <= i < |rs| ensures BucketOf(bounds, rs[i].latency) <= k <==> rs[i].latency < bounds[k] {
        var b := BucketOf(bounds, rs[i].latency);
        assert b < k ==> bounds[b] < bounds[k];
      }
      TallySame(rs, UpTo(bounds, k), Below(bounds[k]));
    } else {
      TallySame(rs, UpTo(bounds, k), Weight());
    }
  }

  lemma {:induction false} TallyNotMore(rs: seq<Recorder>, f: Recorder -> int, g: Recorder -> int)
    requires forall i :: 0 <= i < |rs| ==> f(rs[i]) <= g(rs[i])
    ensures Tally(rs, f) <= Tally(rs, g)
    ensures Tally(rs, f) == Tally(rs, g) ==> forall i :: 0 <= i < |rs| ==> f(rs[i]) == g(rs[i])
    decreases |rs|
  {
    if rs != [] { TallyNotMore(rs[..|rs| - 1], f, g); }
  }

  /**
   The exposition format reads a line as "at most its bound". That reading is right exactly when
   nothing recorded is equal to the bound.
   */
  lemma BoundIsInclusiveIff(bounds: seq<int>, m: Metrics, events: seq<Event>, k: nat)
    requires Reached(bounds, m, events) && Quiescent(m) && Increasing(bounds) && k < |bounds|
    requires forall i :: 0 <= i < |m.recorders| ==> m.recorders[i].weight > 0
    ensures k < |m.buckets|
    ensures Cumulative(m.buckets, k) == Tally(m.recorders, AtMost(bounds[k]))
            <==> forall i :: 0 <= i < |m.recorders| ==> m.recorders[i].latency != bounds[k]
  {
    HistogramIsCumulative(bounds, m, events, k);
    TallyNotMore(m.recorders, Below(bounds[k]), AtMost(bounds[k]));
    if forall i :: 0 <= i < |m.recorders| ==> m.recorders[i].latency != bounds[k] {
      TallySame(m.recorders, Below(bounds[k]), AtMost(bounds[k]));
    }
    if Cumulative(m.buckets, k) == Tally(m.recorders, AtMost(bounds[k])) {
      forall i | 0 <= i < |m.recorders| ensures m.recorders[i].latency != bounds[k] {
        assert Below(bounds[k])(m.recorders[i]) == AtMost(bounds[k])(m.recorders[i]);
      }
    }
  }
}
