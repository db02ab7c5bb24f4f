/**
 No deadlock: whatever has happened so far, the scheduler thread can go on as long as it has not
 ended, every plan handed to an executor can be taken one step further, and a stopping engine always
 has something left that it can do until its thread is joined.
 */
module EngineProgress {
  import opened Common
  import opened BatchConfig
  import opened BatchScheduler
  import opened SchedulerRuns
  import opened Engine
  import opened EngineInvariants
  import opened EngineRuns
  import opened EngineTheorems
  import X = InferenceExecutor

  /** The scheduler thread's own steps, those of its submissions included. */
  predicate OfScheduler(a: Event) {
    || a.LoopTest? || a.ScanNow? || a.BeginSubmit? || a.Hand? || a.Reject? || a.EndDispatch?
    || (a.Internal? && (a.step.ReadInflight? || a.step.ReadQueued? || a.step.Announce?))
  }

  /** A worker's steps on its way through a task. */
  predicate OfWorker(a: Event) {
    a.StartTask? || a.Resolve? || a.EndTask? || (a.Internal? && (a.step.Take? || a.step.LeaveQueue?))
  }

  // ---------------------------------------------------------------- what executors keep

  /** There are workers, they leave only an empty stopped pool, and a gate read in full has been judged. */
  ghost predicate Able(e: X.Executor) {
    && |e.workers| > 0 && X.Draining(e)
    && (e.submitter.AtGate? ==> e.submitter.inflightRead.None? || e.submitter.queuedRead.None?)
  }

  lemma AbleNext(e: X.Executor, s: X.Step)
    requires Able(e) && X.Enabled(e, s)
    ensures Able(X.Next(e, s))
  {
    X.NextDraining(e, s);
  }

  ghost predicate AllAble(g: Engine) { forall x :: 0 <= x < |g.executors| ==> Able(g.executors[x]) }

  lemma AdvancesAble(g: Engine, g': Engine, x: nat, s: X.Step)
    requires AllAble(g) && Advances(g, g', x, s)
    ensures AllAble(g')
  {
    AbleNext(g.executors[x], s);
  }

  /** What the scheduler still waits for was handed over, and not refused. */
  ghost predicate PendingHanded(g: Engine) {
    forall p :: p in g.pending ==> p < |g.jobs| && (g.jobs[p].stage.Accepted? || g.jobs[p].stage.Started? || g.jobs[p].stage.Completed?)
  }

  lemma MovedPending(g: Engine, g': Engine, a: Event, p: nat)
    requires PendingHanded(g) && OneMoved(g, g', a, p) && MovesPlan(a)
    ensures PendingHanded(g')
  {
  }

  lemma StayedPending(g: Engine, g': Engine, a: Event)
    requires |g.jobs| == |g.run.plans| && PendingHanded(g) && Stayed(g, g', a)
    ensures PendingHanded(g')
  {
    forall p | p in g'.pending
      ensures p < |g'.jobs| && (g'.jobs[p].stage.Accepted? || g'.jobs[p].stage.Started? || g'.jobs[p].stage.Completed?)
    {
      assert p in g.pending;
      assert g'.jobs[p] == g.jobs[p];
    }
  }

  lemma MoveAble(g: Engine, a: Event)
    requires InOrder(g) && Linked(g) && AllAble(g) && PendingHanded(g) && MovesPlan(a) && CanMove(g, a)
    ensures AllAble(Move(g, a)) && PendingHanded(Move(g, a)) && |Move(g, a).executors| == |g.executors|
  {
    var g' := Move(g, a);
    MoveEffect(g, a);
    MoveAdvances(g, a);
    MovedPending(g, g', a, Moved(g, a));
    if !a.Resolve? { AdvancesAble(g, g', a.x, ExecutorStep(g, a)); }
  }

  lemma StayAble(g: Engine, cfg: Config, a: Event)
    requires InOrder(g) && AllAble(g) && PendingHanded(g) && Can(g, cfg, a) && !MovesPlan(a)
    ensures AllAble(Step(g, cfg, a)) && PendingHanded(Step(g, cfg, a)) && |Step(g, cfg, a).executors| == |g.executors|
  {
    var g' := Step(g, cfg, a);
    StayEffect(g, cfg, a);
    StayedPending(g, g', a);
    if a.Internal? { AdvancesAble(g, g', a.x, a.step); }
  }

  lemma StepAble(g: Engine, cfg: Config, a: Event)
    requires InOrder(g) && Linked(g) && AllAble(g) && PendingHanded(g) && Can(g, cfg, a)
    ensures AllAble(Step(g, cfg, a)) && PendingHanded(Step(g, cfg, a)) && |Step(g, cfg, a).executors| == |g.executors|
  {
    if MovesPlan(a) { MoveAble(g, a); } else { StayAble(g, cfg, a); }
  }

  lemma {:induction false} RunsAble(g: Engine, cfg: Config, events: seq<Event>, end: Engine)
    requires Good(g, cfg) && AllAble(g) && PendingHanded(g) && Leads(g, cfg, events, end)
    ensures Good(end, cfg) && AllAble(end) && PendingHanded(end) && |end.executors| == |g.executors|
    decreases |events|
  {
    if events != [] {
      StepGood(g, cfg, events[0]);
      StepAble(g, cfg, events[0]);
      RunsAble(Step(g, cfg, events[0]), cfg, events[1..], end);
    }
  }

  lemma ReachedAble(start: Engine, cfg: Config, events: seq<Event>, g: Engine)
    requires Fresh(start) && Leads(start, cfg, events, g)
    ensures Good(g, cfg) && AllAble(g) && PendingHanded(g) && |g.executors| == |start.executors|
  {
    FreshGood(start, cfg);
    forall x | 0 <= x < |start.executors| ensures Able(start.executors[x]) {
      var n: int, m: int, hardware: nat :| start.executors[x] == X.New(n, m, hardware);
    }
    RunsAble(start, cfg, events, g);
  }

  // ---------------------------------------------------------------- the scheduler thread

  /** The keys of a map in some order. */
  lemma {:induction false} Listing(keys: set<SchedulingKey>) returns (order: seq<SchedulingKey>)
    ensures NoDuplicates(order) && forall k :: k in order <==> k in keys
    decreases |keys|
  {
    order := [];
    if keys != {} {
      var k :| k in keys;
      var rest := Listing(keys - {k});
      order := rest + [k];
    }
  }

  lemma ScanPossible(g: Engine, cfg: Config) returns (a: Event)
    requires Good(g, cfg) && g.phase == InLoop
    ensures OfScheduler(a) && Can(g, cfg, a)
  {
    var order := Listing(g.run.state.queues.Keys);
    a := ScanNow(order, 0, key => 0);
    assert Covers(order, g.run.state.queues);
  }

  lemma SubmissionGoesOn(g: Engine, cfg: Config) returns (a: Event)
    requires Good(g, cfg) && AllAble(g) && g.next < |g.jobs| && g.jobs[g.next].stage.Submitting?
    ensures OfScheduler(a) && Can(g, cfg, a)
  {
    assert InHands(g, g.next);
    var x := g.jobs[g.next].executor;
    var e := g.executors[x];
    assert Able(e);
    match e.submitter {
      case AtGate(_, inflight, _) => a := Internal(x, if inflight.None? then X.ReadInflight else X.ReadQueued);
      case Through(_) => a := Internal(x, X.Announce);
      case Announced(_) => a := if e.stopped then Reject(x) else Hand(x);
    }
  }

  lemma SubmissionBegins(g: Engine, cfg: Config) returns (a: Event)
    requires Good(g, cfg) && |g.executors| > 0 && g.phase == Dispatching && g.next < |g.jobs| && g.jobs[g.next].stage.Planned?
    ensures OfScheduler(a) && Can(g, cfg, a)
  {
    assert SubmitterLinked(g, 0);
    a := BeginSubmit(0);
  }

  /** In every state of every run the scheduler thread can go on, unless it has ended. */
  lemma SchedulerNeverStuck(start: Engine, cfg: Config, events: seq<Event>, g: Engine) returns (a: Event)
    requires Fresh(start) && |start.executors| > 0 && Leads(start, cfg, events, g) && g.phase != Gone
    ensures |g.jobs| == |g.run.plans| && OfScheduler(a) && Can(g, cfg, a)
  {
    ReachedAble(start, cfg, events, g);
    a := SchedulerMoves(g, cfg);
  }

  lemma SchedulerMoves(g: Engine, cfg: Config) returns (a: Event)
    requires Good(g, cfg) && AllAble(g) && |g.executors| > 0 && g.phase != Gone
    ensures OfScheduler(a) && Can(g, cfg, a)
  {
    if g.phase == AtTop {
      a := LoopTest;
    } else if g.phase == InLoop {
      a := ScanPossible(g, cfg);
    } else if g.next == |g.jobs| {
      a := EndDispatch;
    } else if g.jobs[g.next].stage.Planned? {
      a := SubmissionBegins(g, cfg);
    } else {
      a := SubmissionGoesOn(g, cfg);
    }
  }

  // ---------------------------------------------------------------- the workers

  lemma RunningGoesOn(g: Engine, cfg: Config, x: nat, w: nat) returns (a: Event)
    requires Good(g, cfg) && x < |g.executors| && w < |g.executors[x].workers| && g.executors[x].workers[w].Running?
    ensures OfWorker(a) && (a.Resolve? || a.EndTask?) && a.x == x && a.w == w && Can(g, cfg, a)
  {
    assert WorkersLinked(g, x);
    var p := g.executors[x].workers[w].task;
    a := if g.jobs[p].stage.done < |g.run.plans[p].items| then Resolve(x, w) else EndTask(x, w);
  }

  /** Any worker that is not gone can take a step when the pool has a task. */
  lemma WorkerGoesOn(g: Engine, cfg: Config, x: nat, w: nat) returns (a: Event)
    requires Good(g, cfg) && x < |g.executors| && w < |g.executors[x].workers| && !g.executors[x].workers[w].Exited?
    requires g.executors[x].workers[w].Idle? ==> g.executors[x].pool != []
    ensures OfWorker(a) && a.x == x && Can(g, cfg, a)
  {
    match g.executors[x].workers[w] {
      case Idle => a := Internal(x, X.Take(w));
      case Took(_) => a := Internal(x, X.LeaveQueue(w));
      case Moving(_) => a := StartTask(x, w, NoModel);
      case Running(_) => a := RunningGoesOn(g, cfg, x, w);
    }
  }

  lemma HeldGoesOn(g: Engine, cfg: Config, p: nat) returns (a: Event)
    requires Good(g, cfg) && AllAble(g) && p < |g.jobs| && g.jobs[p].stage.Accepted?
    ensures OfWorker(a) && a.x == g.jobs[p].executor && Can(g, cfg, a)
  {
    assert InHands(g, p);
    var x := g.jobs[p].executor;
    var e := g.executors[x];
    if p in e.pool {
      assert Able(e) && !e.workers[0].Exited?;
      a := WorkerGoesOn(g, cfg, x, 0);
    } else {
      var w :| 0 <= w < |e.workers| && Waits(e.workers[w]) && e.workers[w].task == p;
      a := WorkerGoesOn(g, cfg, x, w);
    }
  }

  lemma PlanMoves(g: Engine, cfg: Config, p: nat) returns (a: Event)
    requires Good(g, cfg) && AllAble(g) && p < |g.jobs| && (g.jobs[p].stage.Accepted? || g.jobs[p].stage.Started?)
    ensures OfWorker(a) && a.x == g.jobs[p].executor && Can(g, cfg, a)
  {
    if g.jobs[p].stage.Accepted? {
      a := HeldGoesOn(g, cfg, p);
    } else {
      assert InHands(g, p);
      var x := g.jobs[p].executor;
      var w :| 0 <= w < |g.executors[x].workers| && g.executors[x].workers[w] == X.Running(p);
      a := RunningGoesOn(g, cfg, x, w);
    }
  }

  /** In every state of every run, if a plan has been handed to an executor and is not over, one of its workers can go on. */
  lemma PlansNeverStuck(start: Engine, cfg: Config, events: seq<Event>, g: Engine, p: nat) returns (a: Event)
    requires Fresh(start) && Leads(start, cfg, events, g)
    requires p < |g.jobs| && (g.jobs[p].stage.Accepted? || g.jobs[p].stage.Started?)
    ensures |g.jobs| == |g.run.plans| && OfWorker(a) && a.x == g.jobs[p].executor && Can(g, cfg, a)
  {
    ReachedAble(start, cfg, events, g);
    a := PlanMoves(g, cfg, p);
  }

  // ---------------------------------------------------------------- shutdown

  /**
   From the moment stopping is requested until the thread is joined, the scheduler thread or a worker
   can go on, or the thread can be joined; after that the queues can be drained, again and again.
   */
  lemma ShutdownNeverStuck(start: Engine, cfg: Config, events: seq<Event>, g: Engine) returns (a: Event)
    requires Fresh(start) && |start.executors| > 0 && Leads(start, cfg, events, g) && g.stop != Serving
    ensures |g.jobs| == |g.run.plans| && Can(g, cfg, a)
    ensures if g.stop == Requested then OfScheduler(a) || OfWorker(a) || a == Join else a == DrainQueues
  {
    ReachedAble(start, cfg, events, g);
    if g.stop != Requested {
      a := DrainQueues;
    } else if g.phase != Gone {
      a := SchedulerMoves(g, cfg);
    } else if p :| p in g.pending && p < |g.jobs| && !g.jobs[p].stage.Completed? {
      a := PlanMoves(g, cfg, p);
    } else {
      a := Join;
    }
  }
}
