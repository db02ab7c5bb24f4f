/** Every step keeps the engine's invariants; the results for whole runs follow. */
module EngineRuns {
  import opened BatchConfig
  import opened Engine
  import opened EngineInvariants
  import X = InferenceExecutor

  /** The stage a plan-moving event leads to. */
  function StageAfter(g: Engine, p: nat, a: Event): Stage
    requires p < |g.jobs|
  {
    match a
    case BeginSubmit(_) => Submitting
    case Hand(_) => Accepted
    case Reject(_) => Refused
    case StartTask(_, _, o) => Started(o, 0)
    case Resolve(_, _) => if g.jobs[p].stage.Started? then Started(g.jobs[p].stage.outcome, g.jobs[p].stage.done + 1) else g.jobs[p].stage
    case EndTask(_, _) => if g.jobs[p].stage.Started? then Completed(g.jobs[p].stage.outcome) else g.jobs[p].stage
    case _ => g.jobs[p].stage
  }

  /** The stage such an event starts from. */
  predicate StageBefore(g: Engine, p: nat, a: Event)
    requires p < |g.jobs|
  {
    match a
    case BeginSubmit(_) => g.jobs[p].stage.Planned? && p == g.next
    case Hand(_) => g.jobs[p].stage.Submitting? && p == g.next
    case Reject(_) => g.jobs[p].stage.Submitting? && p == g.next
    case StartTask(_, _, _) => g.jobs[p].stage.Accepted?
    case _ => g.jobs[p].stage.Started?
  }

  /** The plan a plan-moving event moves. */
  function Moved(g: Engine, a: Event): nat
    requires |g.jobs| == |g.run.plans| && MovesPlan(a)
  {
    if a.BeginSubmit? || a.x >= |g.executors| then g.next
    else if a.Hand? || a.Reject? then
      if g.executors[a.x].submitter.Away? then g.next else g.executors[a.x].submitter.task
    else if a.w < |g.executors[a.x].workers| && Grips(g.executors[a.x].workers[a.w]) then g.executors[a.x].workers[a.w].task
    else g.next
  }

  /** One stage changes, nothing else about the plans. */
  ghost predicate OneMoved(g: Engine, g': Engine, a: Event, p: nat) {
    && p < |g.jobs| == |g'.jobs|
    && StageBefore(g, p, a) && g'.jobs[p].stage == StageAfter(g, p, a)
    && (forall q :: 0 <= q < |g.jobs| && q != p ==> g'.jobs[q] == g.jobs[q])
    && g'.run.plans == g.run.plans && g'.run.cancelled == g.run.cancelled && g'.run.drained == g.run.drained
    && g'.run.state.queues == g.run.state.queues
    && g'.phase == g.phase && g'.stop == g.stop && g'.images == g.images
    && g'.next == g.next + (if a.Hand? || a.Reject? then 1 else 0)
    && g'.pending == g.pending + (if a.Hand? then {p} else {})
  }

  lemma SubmitterMoves(g: Engine, a: Event)
    requires InOrder(g) && Linked(g) && MovesPlan(a) && CanMove(g, a) && (a.BeginSubmit? || a.Hand? || a.Reject?)
    ensures OneMoved(g, Move(g, a), a, Moved(g, a))
  {
    if !a.BeginSubmit? { assert SubmitterLinked(g, a.x); }
  }

  lemma WorkerMoves(g: Engine, a: Event)
    requires InOrder(g) && Linked(g) && MovesPlan(a) && CanMove(g, a) && (a.StartTask? || a.EndTask?)
    ensures OneMoved(g, Move(g, a), a, Moved(g, a))
  {
    assert WorkersLinked(g, a.x);
  }

  lemma ResolveMoves(g: Engine, a: Event)
    requires InOrder(g) && Linked(g) && MovesPlan(a) && CanMove(g, a) && a.Resolve?
    ensures OneMoved(g, Move(g, a), a, Moved(g, a))
  {
  }

  lemma MoveEffect(g: Engine, a: Event)
    requires InOrder(g) && Linked(g) && MovesPlan(a) && CanMove(g, a)
    ensures OneMoved(g, Move(g, a), a, Moved(g, a))
  {
    if a.BeginSubmit? || a.Hand? || a.Reject? { SubmitterMoves(g, a); }
    else if a.Resolve? { ResolveMoves(g, a); }
    else { WorkerMoves(g, a); }
  }

  /** What the other events do to the plans: a scan appends new ones, nothing moves. */
  ghost predicate Stayed(g: Engine, g': Engine, a: Event)
    requires |g.jobs| == |g.run.plans|
  {
    && g'.next == g.next && g.jobs <= g'.jobs && g.run.plans <= g'.run.plans && |g'.jobs| == |g'.run.plans|
    && (forall q :: |g.jobs| <= q < |g'.jobs| ==> g'.jobs[q].stage == Planned)
    && (!a.ScanNow? ==> g'.jobs == g.jobs && g'.run.plans == g.run.plans)
    && (a.ScanNow? ==> g.phase == InLoop && g'.phase == Dispatching && g'.stop == g.stop && g'.run.drained == g.run.drained)
    && (a.EndDispatch? ==> g.next == |g.jobs|)
    && (a.LoopTest? ==> g.phase == AtTop && g'.phase == if g.stop == Serving then InLoop else Gone)
    && (!a.ScanNow? && !a.LoopTest? && !a.EndDispatch? ==> g'.phase == g.phase)
    && (a.EndDispatch? ==> g.phase == Dispatching && g'.phase == AtTop)
    && (a.Prune? ==> a.p < |g.jobs| && g.jobs[a.p].stage.Completed?)
    && g'.pending == (if a.Prune? then g.pending - {a.p} else if a.Join? then {} else g.pending)
    && g'.stop == (if a.RequestStop? then Requested else if a.Join? then Joined else if a.DrainQueues? then Drained else g.stop)
    && (g'.run.drained == (g.run.drained || a.DrainQueues?))
    && (a.RequestStop? ==> g.stop == Serving) && (a.DrainQueues? ==> g.stop == Joined || g.stop == Drained)
    && (a.Join? ==> g.stop == Requested && g.phase == Gone && forall p :: p in g.pending && p < |g.jobs| ==> g.jobs[p].stage.Completed?)
  }

  lemma StayEffect(g: Engine, cfg: Config, a: Event)
    requires InOrder(g) && Can(g, cfg, a) && !MovesPlan(a)
    ensures Stayed(g, Step(g, cfg, a), a)
  {
  }

  // ---------------------------------------------------------------- the scheduler thread

  ghost predicate Ordered(g: Engine) {
    InOrder(g) && FuturesKept(g) && StopOrdered(g)
  }

  lemma OrderedMoved(g: Engine, g': Engine, a: Event, p: nat)
    requires Ordered(g) && OneMoved(g, g', a, p)
    requires a.Resolve? ==> g.jobs[p].stage.Started? && g.jobs[p].stage.done < |g.run.plans[p].items|
    ensures Ordered(g')
  {
  }

  lemma OrderedStayed(g: Engine, g': Engine, a: Event)
    requires Ordered(g) && Stayed(g, g', a)
    ensures Ordered(g')
  {
  }

  lemma KeepOrdered(g: Engine, cfg: Config, a: Event)
    requires Ordered(g) && Linked(g) && Can(g, cfg, a)
    ensures Ordered(Step(g, cfg, a))
  {
    if MovesPlan(a) {
      MoveEffect(g, a);
      OrderedMoved(g, Move(g, a), a, Moved(g, a));
    } else {
      StayEffect(g, cfg, a);
      OrderedStayed(g, Step(g, cfg, a), a);
    }
  }

  // ---------------------------------------------------------------- plans and executors

  lemma HandsStayApart(e: X.Executor, s: X.Step)
    requires HandsApart(e) && X.Enabled(e, s)
    requires s.Enqueue? ==> e.submitter.task !in e.pool &&
                            forall w :: 0 <= w < |e.workers| && Grips(e.workers[w]) ==> e.workers[w].task != e.submitter.task
    ensures HandsApart(X.Next(e, s))
  {
    var e' := X.Next(e, s);
    if s.Take? {
      assert e.pool == [e.pool[0]] + e'.pool;
      assert forall i :: 0 <= i < |e'.pool| ==> e'.pool[i] == e.pool[i + 1];
    }
  }

  /** The executor an event acts on, and the step it takes there. */
  function ExecutorStep(g: Engine, a: Event): X.Step
    requires a.BeginSubmit? || a.Hand? || a.Reject? || a.StartTask? || a.EndTask? || a.Internal?
  {
    match a
    case BeginSubmit(_) => X.Arrive(g.next)
    case Hand(_) => X.Enqueue
    case Reject(_) => X.Refuse
    case StartTask(_, w, _) => X.EnterFlight(w)
    case EndTask(_, w) => X.Finish(w)
    case Internal(_, s) => s
  }

  /** Executor `x` alone takes step `s`. */
  ghost predicate Advances(g: Engine, g': Engine, x: nat, s: X.Step) {
    && x < |g.executors| && X.Enabled(g.executors[x], s)
    && g'.executors == g.executors[x := X.Next(g.executors[x], s)]
  }

  lemma MoveAdvances(g: Engine, a: Event)
    requires |g.jobs| == |g.run.plans| && MovesPlan(a) && CanMove(g, a)
    ensures if a.Resolve? then Move(g, a).executors == g.executors else Advances(g, Move(g, a), a.x, ExecutorStep(g, a))
    ensures a.BeginSubmit? ==> Move(g, a).jobs[g.next].executor == a.x
    ensures forall q :: 0 <= q < |g.jobs| && (a.BeginSubmit? ==> q != g.next) ==>
              q < |Move(g, a).jobs| && Move(g, a).jobs[q].executor == g.jobs[q].executor
  {
  }

  /** The links of the executor that takes the step. */
  lemma LinkedHere(g: Engine, g': Engine, a: Event, p: nat)
    requires InOrder(g) && Linked(g) && OneMoved(g, g', a, p) && MovesPlan(a) && !a.Resolve?
    requires Advances(g, g', a.x, ExecutorStep(g, a)) && p == Moved(g, a) && g'.jobs[p].executor == a.x
    requires a.BeginSubmit? || g.jobs[p].executor == a.x
    ensures SubmitterLinked(g', a.x) && PoolLinked(g', a.x) && WorkersLinked(g', a.x) && HandsApart(g'.executors[a.x])
  {
    var e, s := g.executors[a.x], ExecutorStep(g, a);
    assert SubmitterLinked(g, a.x) && PoolLinked(g, a.x) && WorkersLinked(g, a.x) && HandsApart(e);
    HandsStayApart(e, s);
  }

  lemma LinkedElsewhere(g: Engine, g': Engine, a: Event, p: nat, y: nat)
    requires InOrder(g) && Linked(g) && OneMoved(g, g', a, p) && MovesPlan(a) && y < |g.executors|
    requires !a.BeginSubmit? ==> g.jobs[p].executor != y
    requires g'.jobs[p].executor != y
    requires |g'.executors| == |g.executors| && g'.executors[y] == g.executors[y]
    ensures SubmitterLinked(g', y) && PoolLinked(g', y) && WorkersLinked(g', y) && HandsApart(g'.executors[y])
  {
    assert SubmitterLinked(g, y) && PoolLinked(g, y) && WorkersLinked(g, y) && HandsApart(g.executors[y]);
  }

  lemma LinkedResolve(g: Engine, g': Engine, a: Event, p: nat, y: nat)
    requires InOrder(g) && Linked(g) && OneMoved(g, g', a, p) && a.Resolve? && y < |g.executors|
    requires g'.executors == g.executors && g'.jobs[p].executor == g.jobs[p].executor
    ensures SubmitterLinked(g', y) && PoolLinked(g', y) && WorkersLinked(g', y) && HandsApart(g'.executors[y])
  {
    assert SubmitterLinked(g, y) && PoolLinked(g, y) && WorkersLinked(g, y) && HandsApart(g.executors[y]);
  }

  lemma KeepLinkedMove(g: Engine, a: Event)
    requires InOrder(g) && Linked(g) && MovesPlan(a) && CanMove(g, a)
    ensures Linked(Move(g, a))
  {
    var g', p := Move(g, a), Moved(g, a);
    MoveEffect(g, a);
    MoveAdvances(g, a);
    if a.Hand? || a.Reject? { assert SubmitterLinked(g, a.x); }
    if a.StartTask? || a.EndTask? { assert WorkersLinked(g, a.x); }
    forall y | 0 <= y < |g'.executors|
      ensures SubmitterLinked(g', y) && PoolLinked(g', y) && WorkersLinked(g', y) && HandsApart(g'.executors[y])
    {
      if a.Resolve? { LinkedResolve(g, g', a, p, y); }
      else if y == a.x { LinkedHere(g, g', a, p); }
      else { LinkedElsewhere(g, g', a, p, y); }
    }
  }

  lemma LinkedInternalHere(g: Engine, x: nat, s: X.Step)
    requires InOrder(g) && Linked(g) && x < |g.executors| && Plain(s) && X.Enabled(g.executors[x], s)
    ensures var g' := SetExecutor(g, x, X.Next(g.executors[x], s));
            SubmitterLinked(g', x) && PoolLinked(g', x) && WorkersLinked(g', x) && HandsApart(g'.executors[x])
  {
    assert SubmitterLinked(g, x) && PoolLinked(g, x) && WorkersLinked(g, x) && HandsApart(g.executors[x]);
    HandsStayApart(g.executors[x], s);
  }

  lemma LinkedOtherExecutor(g: Engine, g': Engine, y: nat)
    requires Linked(g) && y < |g.executors| == |g'.executors| && g'.executors[y] == g.executors[y]
    requires g'.jobs == g.jobs && g'.next == g.next
    ensures SubmitterLinked(g', y) && PoolLinked(g', y) && WorkersLinked(g', y) && HandsApart(g'.executors[y])
  {
    assert SubmitterLinked(g, y) && PoolLinked(g, y) && WorkersLinked(g, y) && HandsApart(g.executors[y]);
  }

  lemma KeepLinkedInternal(g: Engine, x: nat, s: X.Step)
    requires InOrder(g) && Linked(g) && x < |g.executors| && Plain(s) && X.Enabled(g.executors[x], s)
    ensures Linked(SetExecutor(g, x, X.Next(g.executors[x], s)))
  {
    var g' := SetExecutor(g, x, X.Next(g.executors[x], s));
    LinkedInternalHere(g, x, s);
    forall y | 0 <= y < |g'.executors| && y != x
      ensures SubmitterLinked(g', y) && PoolLinked(g', y) && WorkersLinked(g', y) && HandsApart(g'.executors[y])
    {
      LinkedOtherExecutor(g, g', y);
    }
  }

  lemma LinkedStayed(g: Engine, g': Engine, a: Event)
    requires InOrder(g) && Linked(g) && Stayed(g, g', a) && g'.executors == g.executors
    ensures Linked(g')
  {
    forall y | 0 <= y < |g'.executors|
      ensures SubmitterLinked(g', y) && PoolLinked(g', y) && WorkersLinked(g', y) && HandsApart(g'.executors[y])
    {
      assert SubmitterLinked(g, y) && PoolLinked(g, y) && WorkersLinked(g, y) && HandsApart(g.executors[y]);
    }
  }

  lemma KeepLinked(g: Engine, cfg: Config, a: Event)
    requires InOrder(g) && Linked(g) && Can(g, cfg, a)
    ensures Linked(Step(g, cfg, a))
  {
    if MovesPlan(a) {
      KeepLinkedMove(g, a);
    } else if a.Internal? {
      KeepLinkedInternal(g, a.x, a.step);
    } else {
      StayEffect(g, cfg, a);
      LinkedStayed(g, Step(g, cfg, a), a);
    }
  }

  // ---------------------------------------------------------------- nothing is lost

  lemma HoldingKept(e: X.Executor, s: X.Step, p: nat)
    requires Holding(e, p) && X.Enabled(e, s)
    requires s.EnterFlight? ==> e.workers[s.w].task != p
    ensures Holding(X.Next(e, s), p)
  {
    var e' := X.Next(e, s);
    if p in e.pool {
      if s.Take? {
        if p == e.pool[0] { assert e'.workers[s.w] == X.Took(p); }
        else { assert p in e.pool[1..]; }
      }
    } else {
      var w :| 0 <= w < |e.workers| && Waits(e.workers[w]) && e.workers[w].task == p;
      assert Waits(e'.workers[w]) && e'.workers[w].task == p;
    }
  }

  lemma FlyingKept(e: X.Executor, s: X.Step, p: nat)
    requires Flying(e, p) && X.Enabled(e, s)
    requires s.Finish? ==> e.workers[s.w].task != p
    ensures Flying(X.Next(e, s), p)
  {
    var w :| 0 <= w < |e.workers| && e.workers[w] == X.Running(p);
    assert X.Next(e, s).workers[w] == X.Running(p);
  }

  /** A plan that is not the one moved stays where it was. */
  lemma HandsKept(g: Engine, g': Engine, a: Event, q: nat)
    requires InOrder(g) && Linked(g) && q < |g.jobs| <= |g'.jobs| && g'.jobs[q] == g.jobs[q] && InHands(g, q)
    requires a.BeginSubmit? || a.Hand? || a.Reject? || a.StartTask? || a.EndTask? || a.Internal?
    requires Advances(g, g', a.x, ExecutorStep(g, a)) && (a.Internal? ==> Plain(a.step))
    requires MovesPlan(a) ==> q != Moved(g, a)
    ensures InHands(g', q)
  {
    var x := g.jobs[q].executor;
    if x == a.x && x < |g.executors| {
      var e, s := g.executors[x], ExecutorStep(g, a);
      match g.jobs[q].stage {
        case Accepted => HoldingKept(e, s, q);
        case Started(_, _) => FlyingKept(e, s, q);
        case _ =>
      }
    }
  }

  /** The moved plan is where its new stage says. */
  lemma HandsMoved(g: Engine, a: Event)
    requires InOrder(g) && Linked(g) && MovesPlan(a) && CanMove(g, a) && !a.Resolve?
    ensures Moved(g, a) < |Move(g, a).jobs| && InHands(Move(g, a), Moved(g, a))
  {
    MoveEffect(g, a);
    MoveAdvances(g, a);
    var e' := Move(g, a).executors[a.x];
    if a.Hand? {
      assert SubmitterLinked(g, a.x);
      assert e'.pool[|e'.pool| - 1] == Moved(g, a);
    }
    if a.StartTask? {
      assert WorkersLinked(g, a.x);
      assert e'.workers[a.w] == X.Running(Moved(g, a));
    }
  }

  lemma KeepNothingLostMove(g: Engine, a: Event)
    requires InOrder(g) && Linked(g) && NothingLost(g) && MovesPlan(a) && CanMove(g, a)
    ensures NothingLost(Move(g, a))
  {
    var g' := Move(g, a);
    MoveEffect(g, a);
    MoveAdvances(g, a);
    forall q | 0 <= q < |g'.jobs| ensures InHands(g', q) {
      assert InHands(g, q);
      if !a.Resolve? {
        if q != Moved(g, a) { HandsKept(g, g', a, q); } else { HandsMoved(g, a); }
      }
    }
  }

  lemma KeepNothingLost(g: Engine, cfg: Config, a: Event)
    requires InOrder(g) && Linked(g) && NothingLost(g) && Can(g, cfg, a)
    ensures NothingLost(Step(g, cfg, a))
  {
    if MovesPlan(a) {
      KeepNothingLostMove(g, a);
    } else {
      var g' := Step(g, cfg, a);
      StayEffect(g, cfg, a);
      forall q | 0 <= q < |g'.jobs| ensures InHands(g', q) {
        if q < |g.jobs| {
          assert InHands(g, q);
          if a.Internal? { HandsKept(g, g', a, q); }
        }
      }
    }
  }
}
