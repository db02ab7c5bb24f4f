/**
 The bounded executor over its thread pool, as atomic steps: one submitting thread passing the
 back-pressure gate, and a fixed set of workers. Every step is one atomic operation on a counter,
 one critical section of the pool, or the end of a task. Tasks are numbers.
 */
module InferenceExecutor {
  import opened Common

  /** Idle; popped a task; has decremented `queued`; has incremented `inflight` and runs; gone. */
  datatype Worker = Idle | Took(task: nat) | Moving(task: nat) | Running(task: nat) | Exited

  /**
   The submitting thread: elsewhere; evaluating the gate, with what it has read of the two counters;
   past the gate; past the increment of `queued`.
   */
  datatype Submitter = Away | AtGate(task: nat, inflightRead: Option<int>, queuedRead: Option<int>)
                     | Through(task: nat) | Announced(task: nat)

  /** `enqueued`, `started` and `finished` are histories, `refused` the tasks whose enqueue threw. */
  datatype Executor = Executor(
    maxTotal: int, queued: int, inflight: int,
    pool: seq<nat>, workers: seq<Worker>, submitter: Submitter, stopped: bool,
    enqueued: seq<nat>, started: seq<nat>, finished: seq<nat>, refused: seq<nat>)

  datatype Step =
    | Arrive(task: nat) | ReadInflight | ReadQueued | Announce | Enqueue | Refuse
    | Take(w: nat) | LeaveQueue(w: nat) | EnterFlight(w: nat) | Finish(w: nat) | Exit(w: nat)
    | StopPool

  /** A pool asked for no threads takes as many as the machine reports, or four. */
  function Threads(maxConcurrency: int, hardware: nat): nat {
    if maxConcurrency > 0 then maxConcurrency else if hardware > 0 then hardware else 4
  }

  function New(maxConcurrency: int, queueMultiplier: int, hardware: nat): Executor {
    Executor(maxConcurrency * (1 + queueMultiplier), 0, 0, [], seq(Threads(maxConcurrency, hardware), _ => Idle),
             Away, false, [], [], [], [])
  }

  /** Both counters read: pass when their sum leaves room, else evaluate again. */
  function Judge(e: Executor, task: nat, a: Option<int>, b: Option<int>): Submitter {
    if a.Some? && b.Some? then
      if a.value + b.value < e.maxTotal then Through(task) else AtGate(task, None, None)
    else AtGate(task, a, b)
  }

  predicate Enabled(e: Executor, s: Step) {
    match s
    case Arrive(_) => e.submitter.Away?
    case ReadInflight => e.submitter.AtGate? && e.submitter.inflightRead.None?
    case ReadQueued => e.submitter.AtGate? && e.submitter.queuedRead.None?
    case Announce => e.submitter.Through?
    case Enqueue => e.submitter.Announced? && !e.stopped
    case Refuse => e.submitter.Announced? && e.stopped
    case Take(w) => w < |e.workers| && e.workers[w].Idle? && e.pool != []
    case LeaveQueue(w) => w < |e.workers| && e.workers[w].Took?
    case EnterFlight(w) => w < |e.workers| && e.workers[w].Moving?
    case Finish(w) => w < |e.workers| && e.workers[w].Running?
    case Exit(w) => w < |e.workers| && e.workers[w].Idle? && e.stopped && e.pool == []
    case StopPool => true
  }

  function Next(e: Executor, s: Step): Executor
    requires Enabled(e, s)
  {
    match s
    case Arrive(t) => e.(submitter := AtGate(t, None, None))
    case ReadInflight => e.(submitter := Judge(e, e.submitter.task, Some(e.inflight), e.submitter.queuedRead))
    case ReadQueued => e.(submitter := Judge(e, e.submitter.task, e.submitter.inflightRead, Some(e.queued)))
    case Announce => e.(queued := e.queued + 1, submitter := Announced(e.submitter.task))
    case Enqueue =>
      e.(pool := e.pool + [e.submitter.task], enqueued := e.enqueued + [e.submitter.task], submitter := Away)
    case Refuse =>
      e.(queued := e.queued - 1, refused := e.refused + [e.submitter.task], submitter := Away)
    case Take(w) =>
      e.(pool := e.pool[1..], workers := e.workers[w := Took(e.pool[0])], started := e.started + [e.pool[0]])
    case LeaveQueue(w) => e.(queued := e.queued - 1, workers := e.workers[w := Moving(e.workers[w].task)])
    case EnterFlight(w) => e.(inflight := e.inflight + 1, workers := e.workers[w := Running(e.workers[w].task)])
    case Finish(w) =>
      e.(inflight := e.inflight - 1, workers := e.workers[w := Idle], finished := e.finished + [e.workers[w].task])
    case Exit(w) => e.(workers := e.workers[w := Exited])
    case StopPool => e.(stopped := true)
  }

  ghost predicate Reaches(e: Executor, steps: seq<Step>, end: Executor)
    decreases |steps|
  {
    if steps == [] then e == end
    else Enabled(e, steps[0]) && Reaches(Next(e, steps[0]), steps[1..], end)
  }

  // ---------------------------------------------------------------- counting workers

  function CountTook(ws: seq<Worker>): nat {
    if ws == [] then 0 else CountTook(ws[..|ws| - 1]) + if ws[|ws| - 1].Took? then 1 else 0
  }

  function CountMoving(ws: seq<Worker>): nat {
    if ws == [] then 0 else CountMoving(ws[..|ws| - 1]) + if ws[|ws| - 1].Moving? then 1 else 0
  }

  function CountRunning(ws: seq<Worker>): nat {
    if ws == [] then 0 else CountRunning(ws[..|ws| - 1]) + if ws[|ws| - 1].Running? then 1 else 0
  }

  function Holds(w: Worker, t: nat): nat {
    if (w.Took? || w.Moving? || w.Running?) && w.task == t then 1 else 0
  }

  /** How many workers have task `t` in hand. */
  function Held(ws: seq<Worker>, t: nat): nat {
    if ws == [] then 0 else Held(ws[..|ws| - 1], t) + Holds(ws[|ws| - 1], t)
  }

  lemma {:induction false} ReplaceWorker(ws: seq<Worker>, w: nat, x: Worker)
    requires w < |ws|
    ensures CountTook(ws[w := x]) == CountTook(ws) - (if ws[w].Took? then 1 else 0) + (if x.Took? then 1 else 0)
    ensures CountMoving(ws[w := x]) == CountMoving(ws) - (if ws[w].Moving? then 1 else 0) + (if x.Moving? then 1 else 0)
    ensures CountRunning(ws[w := x]) == CountRunning(ws) - (if ws[w].Running? then 1 else 0) + (if x.Running? then 1 else 0)
    decreases |ws|
  {
    var n := |ws| - 1;
    if w == n {
      assert ws[w := x][..n] == ws[..n];
    } else {
      assert ws[w := x][..n] == ws[..n][w := x];
      ReplaceWorker(ws[..n], w, x);
    }
  }

  lemma {:induction false} ReplaceHeld(ws: seq<Worker>, w: nat, x: Worker, t: nat)
    requires w < |ws|
    ensures Held(ws[w := x], t) == Held(ws, t) - Holds(ws[w], t) + Holds(x, t)
    decreases |ws|
  {
    var n := |ws| - 1;
    if w == n {
      assert ws[w := x][..n] == ws[..n];
    } else {
      assert ws[w := x][..n] == ws[..n][w := x];
      ReplaceHeld(ws[..n], w, x, t);
    }
  }

  lemma {:induction false} CountsBounded(ws: seq<Worker>)
    ensures CountTook(ws) + CountMoving(ws) + CountRunning(ws) <= |ws|
    decreases |ws|
  {
    if ws != [] { CountsBounded(ws[..|ws| - 1]); }
  }

  // ---------------------------------------------------------------- invariants

  function Pending(e: Executor): nat { if e.submitter.Announced? then 1 else 0 }

  /** Tasks announced and neither finished nor refused. */
  function Outstanding(e: Executor): nat {
    |e.pool| + Pending(e) + CountTook(e.workers) + CountMoving(e.workers) + CountRunning(e.workers)
  }

  /** What the two counters count. A task changing hands between them is counted by neither. */
  predicate CountersExact(e: Executor) {
    && e.queued == |e.pool| + Pending(e) + CountTook(e.workers)
    && e.inflight == CountRunning(e.workers)
  }

  /** Since only the one submitter adds to `queued`, what it has read there is an upper bound. */
  predicate GateKept(e: Executor) {
    && (e.submitter.AtGate? && e.submitter.queuedRead.Some? ==> e.queued <= e.submitter.queuedRead.value)
    && (e.submitter.AtGate? && e.submitter.inflightRead.Some? ==> e.submitter.inflightRead.value >= 0)
    && (e.submitter.Through? ==> e.queued < e.maxTotal)
    && (e.queued <= e.maxTotal || e.queued == 0)
  }

  ghost predicate Accounted(e: Executor, t: nat) {
    multiset(e.started)[t] == multiset(e.finished)[t] + Held(e.workers, t)
  }

  /** The pool is first in, first out, and every started task is in hand or finished. */
  ghost predicate PoolFifo(e: Executor) {
    && e.enqueued == e.started + e.pool
    && forall t :: Accounted(e, t)
  }

  /** A worker leaves only an empty, stopped pool, to which nothing is added any more. */
  predicate Draining(e: Executor) {
    (exists w :: 0 <= w < |e.workers| && e.workers[w].Exited?) ==> e.stopped && e.pool == []
  }

  ghost predicate Inv(e: Executor) {
    CountersExact(e) && GateKept(e) && PoolFifo(e) && Draining(e)
  }

  lemma NextCounters(e: Executor, s: Step)
    requires CountersExact(e) && Enabled(e, s)
    ensures CountersExact(Next(e, s))
  {
    if s.Take? || s.LeaveQueue? || s.EnterFlight? || s.Finish? || s.Exit? {
      ReplaceWorker(e.workers, s.w, Next(e, s).workers[s.w]);
    }
  }

  lemma NextGate(e: Executor, s: Step)
    requires CountersExact(e) && GateKept(e) && Enabled(e, s)
    ensures GateKept(Next(e, s))
  {
    NextCounters(e, s);
  }

  lemma NextAccounted(e: Executor, s: Step, t: nat)
    requires Accounted(e, t) && Enabled(e, s)
    ensures Accounted(Next(e, s), t)
  {
    if s.Take? || s.LeaveQueue? || s.EnterFlight? || s.Finish? || s.Exit? {
      ReplaceHeld(e.workers, s.w, Next(e, s).workers[s.w], t);
    }
  }

  lemma NextPool(e: Executor, s: Step)
    requires PoolFifo(e) && Enabled(e, s)
    ensures PoolFifo(Next(e, s))
  {
    forall t ensures Accounted(Next(e, s), t) {
      assert Accounted(e, t);
      NextAccounted(e, s, t);
    }
  }

  lemma NextDraining(e: Executor, s: Step)
    requires Draining(e) && Enabled(e, s)
    ensures Draining(Next(e, s))
  {
    var e' := Next(e, s);
    if w :| 0 <= w < |e'.workers| && e'.workers[w].Exited? {
      assert e.workers[w].Exited? || s == Exit(w);
    }
  }

  lemma {:induction false} EveryReachable(e: Executor, steps: seq<Step>, end: Executor)
    requires Inv(e) && Reaches(e, steps, end)
    ensures Inv(end) && |end.workers| == |e.workers| && end.maxTotal == e.maxTotal
    decreases |steps|
  {
    if steps != [] {
      NextCounters(e, steps[0]);
      NextGate(e, steps[0]);
      NextPool(e, steps[0]);
      NextDraining(e, steps[0]);
      EveryReachable(Next(e, steps[0]), steps[1..], end);
    }
  }

  lemma {:induction false} AllIdle(n: nat)
    ensures var ws := seq(n, _ => Idle); CountTook(ws) == CountMoving(ws) == CountRunning(ws) == 0 && forall t :: Held(ws, t) == 0
  {
    if n > 0 {
      AllIdle(n - 1);
      assert seq(n, _ => Idle)[..n - 1] == seq(n - 1, _ => Idle);
    }
  }

  lemma NewInv(maxConcurrency: int, queueMultiplier: int, hardware: nat)
    ensures Inv(New(maxConcurrency, queueMultiplier, hardware))
  {
    AllIdle(Threads(maxConcurrency, hardware));
  }

  // ---------------------------------------------------------------- main results

  /**
   Back-pressure: although the gate reads its two counters separately and a task between them is
   counted by neither, the tasks accepted and unfinished never exceed the limit by more than the
   number of workers; and the counters miss exactly the tasks changing hands.
   */
  lemma BackPressure(maxConcurrency: int, queueMultiplier: int, hardware: nat, steps: seq<Step>, end: Executor)
    requires Reaches(New(maxConcurrency, queueMultiplier, hardware), steps, end)
    ensures |end.workers| == if maxConcurrency > 0 then maxConcurrency else if hardware > 0 then hardware else 4
    ensures Outstanding(end) <= Max(0, maxConcurrency * (1 + queueMultiplier)) + |end.workers|
    ensures end.queued + end.inflight + CountMoving(end.workers) == Outstanding(end)
  {
    NewInv(maxConcurrency, queueMultiplier, hardware);
    EveryReachable(New(maxConcurrency, queueMultiplier, hardware), steps, end);
    CountsBounded(end.workers);
  }

  /** With a limit of zero or below the gate never opens, although the pool has threads: nothing is ever enqueued. */
  lemma GateShut(maxConcurrency: int, queueMultiplier: int, hardware: nat, steps: seq<Step>, end: Executor)
    requires maxConcurrency * (1 + queueMultiplier) <= 0
    requires Reaches(New(maxConcurrency, queueMultiplier, hardware), steps, end)
    ensures end.enqueued == [] && end.refused == [] && (end.submitter.Away? || end.submitter.AtGate?)
  {
    NewInv(maxConcurrency, queueMultiplier, hardware);
    StaysShut(New(maxConcurrency, queueMultiplier, hardware), steps, end);
  }

  predicate Shut(e: Executor) {
    e.maxTotal <= 0 && e.enqueued == [] && e.refused == [] && (e.submitter.Away? || e.submitter.AtGate?)
  }

  lemma {:induction false} StaysShut(e: Executor, steps: seq<Step>, end: Executor)
    requires Inv(e) && Shut(e) && Reaches(e, steps, end)
    ensures Shut(end)
    decreases |steps|
  {
    if steps != [] {
      One(e, steps[0], Next(e, steps[0]));
      EveryReachable(e, [steps[0]], Next(e, steps[0]));
      assert Next(e, steps[0]).queued >= 0;
      StaysShut(Next(e, steps[0]), steps[1..], end);
    }
  }

  /**
   The bound is met whatever the size of the pool: whenever the limit is positive, a submission slips
   through for each worker while that worker changes a task over.
   */
  lemma BackPressureTight(maxConcurrency: int, queueMultiplier: int, hardware: nat)
    requires maxConcurrency * (1 + queueMultiplier) > 0
    ensures exists steps, end :: Reaches(New(maxConcurrency, queueMultiplier, hardware), steps, end) &&
              Outstanding(end) == maxConcurrency * (1 + queueMultiplier)
                                  + if maxConcurrency > 0 then maxConcurrency else if hardware > 0 then hardware else 4
  {
    var e := New(maxConcurrency, queueMultiplier, hardware);
    var fill, full := FillPool(e, e.maxTotal);
    var slip, end := AllSlip(full, |e.workers|);
    ReachesConcat(e, fill, full, slip, end);
    AllMoving(end.workers);
  }

  lemma {:induction false} ReachesConcat(a: Executor, s: seq<Step>, b: Executor, t: seq<Step>, c: Executor)
    requires Reaches(a, s, b) && Reaches(b, t, c)
    ensures Reaches(a, s + t, c)
    decreases |s|
  {
    if s == [] {
      assert s + t == t;
    } else {
      ReachesConcat(Next(a, s[0]), s[1..], b, t, c);
      assert (s + t)[1..] == s[1..] + t;
    }
  }

  /** The first `k` workers are changing a task over, the others are idle, `n` tasks wait, nothing else goes on. */
  ghost predicate Loaded(e: Executor, k: nat, n: nat) {
    && k <= |e.workers| && (forall w :: 0 <= w < |e.workers| ==> if w < k then e.workers[w].Moving? else e.workers[w].Idle?)
    && e.submitter == Away && !e.stopped && |e.pool| == n == e.queued && e.inflight == 0
  }

  ghost predicate SameShape(e: Executor, f: Executor) {
    f.maxTotal == e.maxTotal && |f.workers| == |e.workers|
  }

  lemma FillPool(e: Executor, n: nat) returns (steps: seq<Step>, full: Executor)
    requires Loaded(e, 0, 0) && n <= e.maxTotal
    ensures Reaches(e, steps, full) && Loaded(full, 0, n) && SameShape(e, full)
  {
    if n == 0 {
      steps, full := [], e;
    } else {
      var before, almost := FillPool(e, n - 1);
      var one := [Arrive(0), ReadInflight, ReadQueued, Announce, Enqueue];
      full := SubmitOne(almost, 0);
      ReachesConcat(e, before, almost, one, full);
      steps := before + one;
    }
  }

  lemma SubmitOne(e: Executor, k: nat) returns (e5: Executor)
    requires Loaded(e, k, |e.pool|) && |e.pool| < e.maxTotal
    ensures Reaches(e, [Arrive(0), ReadInflight, ReadQueued, Announce, Enqueue], e5)
    ensures Loaded(e5, k, |e.pool| + 1) && SameShape(e, e5)
  {
    var e1 := Next(e, Arrive(0));
    var e2 := Next(e1, ReadInflight);
    var e3 := Next(e2, ReadQueued);
    var e4 := Next(e3, Announce);
    e5 := Next(e4, Enqueue);
    Chain5(e, Arrive(0), e1, ReadInflight, e2, ReadQueued, e3, Announce, e4, Enqueue, e5);
  }

  /** The next worker takes a task off the full pool and leaves the count of waiting tasks; the gate opens for one more. */
  lemma OneSlips(e: Executor, k: nat) returns (steps: seq<Step>, end: Executor)
    requires k < |e.workers| && Loaded(e, k, |e.pool|) && |e.pool| == e.maxTotal > 0
    ensures Reaches(e, steps, end) && Loaded(end, k + 1, e.maxTotal) && SameShape(e, end)
  {
    var e1 := Next(e, Take(k));
    var e2 := Next(e1, LeaveQueue(k));
    One(e, Take(k), e1);
    One(e1, LeaveQueue(k), e2);
    ReachesConcat(e, [Take(k)], e1, [LeaveQueue(k)], e2);
    end := SubmitOne(e2, k + 1);
    steps := [Take(k)] + [LeaveQueue(k)] + [Arrive(0), ReadInflight, ReadQueued, Announce, Enqueue];
    ReachesConcat(e, [Take(k)] + [LeaveQueue(k)], e2, [Arrive(0), ReadInflight, ReadQueued, Announce, Enqueue], end);
  }

  lemma {:induction false} AllSlip(e: Executor, k: nat) returns (steps: seq<Step>, end: Executor)
    requires k <= |e.workers| && e.maxTotal > 0 && Loaded(e, 0, e.maxTotal)
    ensures Reaches(e, steps, end) && Loaded(end, k, e.maxTotal) && SameShape(e, end)
    decreases k
  {
    if k == 0 {
      steps, end := [], e;
    } else {
      var before, almost := AllSlip(e, k - 1);
      var one: seq<Step>;
      one, end := OneSlips(almost, k - 1);
      ReachesConcat(e, before, almost, one, end);
      steps := before + one;
    }
  }

  lemma {:induction false} AllMoving(ws: seq<Worker>)
    requires forall w :: 0 <= w < |ws| ==> ws[w].Moving?
    ensures CountTook(ws) == CountRunning(ws) == 0 && CountMoving(ws) == |ws|
    decreases |ws|
  {
    if ws != [] { AllMoving(ws[..|ws| - 1]); }
  }

  lemma One(a: Executor, s: Step, b: Executor)
    requires Enabled(a, s) && Next(a, s) == b
    ensures Reaches(a, [s], b)
  {
    assert [s][1..] == [];
    assert Reaches(b, [], b);
  }

  lemma Chain5(a: Executor, s1: Step, b: Executor, s2: Step, c: Executor, s3: Step, d: Executor, s4: Step, e: Executor, s5: Step, f: Executor)
    requires Enabled(a, s1) && Next(a, s1) == b && Enabled(b, s2) && Next(b, s2) == c && Enabled(c, s3) && Next(c, s3) == d
    requires Enabled(d, s4) && Next(d, s4) == e && Enabled(e, s5) && Next(e, s5) == f
    ensures Reaches(a, [s1, s2, s3, s4, s5], f)
  {
    One(e, s5, f);
    One(d, s4, e); ReachesConcat(d, [s4], e, [s5], f);
    One(c, s3, d); ReachesConcat(c, [s3], d, [s4] + [s5], f);
    One(b, s2, c); ReachesConcat(b, [s2], c, [s3] + ([s4] + [s5]), f);
    One(a, s1, b); ReachesConcat(a, [s1], b, [s2] + ([s3] + ([s4] + [s5])), f);
    assert [s1] + ([s2] + ([s3] + ([s4] + [s5]))) == [s1, s2, s3, s4, s5];
  }

  /**
   The pool drains: tasks start in the order they were enqueued, none starts or finishes more often
   than it was enqueued, and once every worker has left each enqueued task has been run exactly once.
   */
  lemma PoolDrains(maxConcurrency: int, queueMultiplier: int, hardware: nat, steps: seq<Step>, end: Executor)
    requires Reaches(New(maxConcurrency, queueMultiplier, hardware), steps, end)
    ensures end.started <= end.enqueued
    ensures multiset(end.finished) <= multiset(end.enqueued)
    ensures (forall w :: 0 <= w < |end.workers| ==> end.workers[w].Exited?) ==>
              end.started == end.enqueued && multiset(end.finished) == multiset(end.enqueued)
  {
    NewInv(maxConcurrency, queueMultiplier, hardware);
    EveryReachable(New(maxConcurrency, queueMultiplier, hardware), steps, end);
    assert multiset(end.enqueued) == multiset(end.started) + multiset(end.pool);
    if forall w :: 0 <= w < |end.workers| ==> end.workers[w].Exited? {
      assert end.workers[0].Exited?;
      NoneHeld(end.workers);
      forall t ensures multiset(end.finished)[t] == multiset(end.enqueued)[t] {
        assert Accounted(end, t);
      }
    }
    forall t ensures multiset(end.finished)[t] <= multiset(end.enqueued)[t] {
      assert Accounted(end, t);
    }
  }

  lemma {:induction false} NoneHeld(ws: seq<Worker>)
    requires forall w :: 0 <= w < |ws| ==> ws[w].Exited?
    ensures forall t :: Held(ws, t) == 0
  {
    if ws != [] { NoneHeld(ws[..|ws| - 1]); }
  }
}
