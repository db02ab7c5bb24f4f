/** Promises and slots: every step keeps each request's answer, and its result, its own. */
module EngineAnswers {
  import opened Common
  import opened BatchConfig
  import opened BatchScheduler
  import opened SchedulerRuns
  import opened Places
  import opened Engine
  import opened EngineInvariants
  import opened EngineRuns

  ghost predicate RunRight(r: Run, cfg: Config) {
    Fifo(r) && Tidy(r, cfg) && Distinct(r) && (LawfulFor(cfg) ==> PlansLawful(r, cfg))
  }

  /** Setting promises leaves the queues, the plans and the histories alone. */
  ghost predicate OnlyPromises(r: Run, r': Run) {
    && r'.accepted == r.accepted && r'.plans == r.plans && r'.takings == r.takings && r'.cancelled == r.cancelled && r'.drained == r.drained
    && r'.state.queues == r.state.queues && r'.state.promises.Keys == r.state.promises.Keys
  }

  lemma RunRightKept(r: Run, r': Run, cfg: Config)
    requires RunRight(r, cfg) && OnlyPromises(r, r')
    ensures RunRight(r', cfg)
  {
    forall k ensures FifoAt(r', k) { assert FifoAt(r, k); }
  }

  lemma RunRightApplied(r: Run, cfg: Config, a: SchedulerRuns.Action)
    requires RunRight(r, cfg) && SchedulerRuns.Enabled(r, a)
    ensures RunRight(SchedulerRuns.Apply(r, cfg, a), cfg)
  {
    ApplyFifo(r, cfg, a);
    ApplyTidy(r, cfg, a);
    ApplyDistinct(r, cfg, a);
    if LawfulFor(cfg) { ApplyPlansLawful(r, cfg, a); }
  }

  lemma MoveOnlyPromises(g: Engine, a: Event)
    requires |g.jobs| == |g.run.plans| && MovesPlan(a) && CanMove(g, a)
    ensures OnlyPromises(g.run, Move(g, a).run)
  {
    if a.Resolve? { ResolveOnlyPromises(g, g.executors[a.x].workers[a.w].task); }
    else if a.Reject? { RefuseOnlyPromises(SetExecutor(g, a.x, Move(g, a).executors[a.x]), g.executors[a.x].submitter.task); }
  }

  lemma ResolveOnlyPromises(g: Engine, p: nat)
    requires p < |g.jobs| == |g.run.plans| && g.jobs[p].stage.Started? && g.jobs[p].stage.done < |g.run.plans[p].items|
    ensures OnlyPromises(g.run, ResolveNext(g, p).run)
  {
  }

  lemma RefuseOnlyPromises(g: Engine, p: nat)
    ensures OnlyPromises(g.run, RefusePlan(g, p).run)
  {
  }

  lemma KeepRunRight(g: Engine, cfg: Config, a: Event)
    requires InOrder(g) && StopOrdered(g) && RunRight(g.run, cfg) && Can(g, cfg, a)
    ensures RunRight(Step(g, cfg, a).run, cfg)
  {
    if MovesPlan(a) {
      MoveOnlyPromises(g, a);
      RunRightKept(g.run, Move(g, a).run, cfg);
    } else {
      match a {
        case SubmitRequest(item) => RunRightApplied(g.run, cfg, Submit(item));
        case ScanNow(order, now, decideAt) => RunRightApplied(g.run, cfg, ScanQueues(order, now, decideAt));
        case DrainQueues => RunRightApplied(g.run, cfg, Drain);
        case _ =>
      }
    }
  }

  // ---------------------------------------------------------------- promises

  ghost predicate PromisesRight(g: Engine)
    requires |g.jobs| == |g.run.plans|
  {
    PlansAnswered(g) && QueuesUnanswered(g) && CancelledTold(g) && AtMostOnce(g)
  }

  /** Moving on without answering: the promises due in the old and the new stage are the same. */
  lemma SilentValue(g: Engine, a: Event, p: nat, i: nat)
    requires p < |g.jobs| == |g.run.plans| && i < |g.run.plans[p].items| && StageBefore(g, p, a)
    requires a.BeginSubmit? || a.Hand? || a.StartTask? || (a.EndTask? && g.jobs[p].stage.done == |g.run.plans[p].items|)
    ensures Value(g.run.plans[p], StageAfter(g, p, a), i) == Value(g.run.plans[p], g.jobs[p].stage, i)
    ensures Written(g.run.plans[p], StageAfter(g, p, a), i) == Written(g.run.plans[p], g.jobs[p].stage, i)
  {
  }

  lemma SilentMove(g: Engine, a: Event)
    requires InOrder(g) && Linked(g) && PromisesRight(g) && MovesPlan(a) && CanMove(g, a)
    requires !a.Resolve? && !a.Reject?
    ensures |Move(g, a).jobs| == |Move(g, a).run.plans| && PromisesRight(Move(g, a))
  {
    MoveEffect(g, a);
    var g', p := Move(g, a), Moved(g, a);
    assert g'.run == g.run;
    forall i | 0 <= i < |g.run.plans[p].items|
      ensures Value(g.run.plans[p], g'.jobs[p].stage, i) == Value(g.run.plans[p], g.jobs[p].stage, i)
    {
      SilentValue(g, a, p, i);
    }
  }

  /** Nothing but promises and the stage of plan `p` differs. */
  ghost predicate Answering(g: Engine, g': Engine, p: nat) {
    && p < |g.jobs| == |g'.jobs| == |g.run.plans| && OnlyPromises(g.run, g'.run)
    && forall q :: 0 <= q < |g.jobs| && q != p ==> g'.jobs[q] == g.jobs[q]
  }

  /** One promise of plan `p`, still unset, is set. */
  lemma AnswerOne(g: Engine, g': Engine, p: nat, i: nat, reply: Reply)
    requires Answering(g, g', p) && PromisesRight(g) && Apart(g.run) && i < |g.run.plans[p].items|
    requires g'.run.state.promises == g.run.state.promises[g.run.plans[p].items[i].id := [reply]]
    requires forall j :: 0 <= j < |g.run.plans[p].items| ==>
               Value(g.run.plans[p], g'.jobs[p].stage, j) == if j == i then [reply] else Value(g.run.plans[p], g.jobs[p].stage, j)
    ensures PromisesRight(g')
  {
  }

  /** Every promise of plan `p`, all still unset, is set. */
  lemma AnswerAll(g: Engine, g': Engine, p: nat, reply: Reply)
    requires Answering(g, g', p) && PromisesRight(g) && Apart(g.run)
    requires forall id :: id in g.run.state.promises ==>
               g'.run.state.promises[id] == if InPlan(g.run.plans[p], id) then [reply] else g.run.state.promises[id]
    requires forall j :: 0 <= j < |g.run.plans[p].items| ==> Value(g.run.plans[p], g'.jobs[p].stage, j) == [reply]
    ensures PromisesRight(g')
  {
    var plan := g.run.plans[p];
    forall q, i | 0 <= q < |g'.run.plans| && 0 <= i < |g'.run.plans[q].items|
      ensures g'.run.state.promises[g'.run.plans[q].items[i].id] == Value(g'.run.plans[q], g'.jobs[q].stage, i)
    {
      assert InPlan(plan, g.run.plans[q].items[i].id) <==> q == p;
    }
    assert forall k, i | k in g.run.state.queues && 0 <= i < |g.run.state.queues[k].items| :: !InPlan(plan, g.run.state.queues[k].items[i].id);
    assert forall k, i | k in g.run.cancelled && 0 <= i < |g.run.cancelled[k]| :: !InPlan(plan, g.run.cancelled[k][i].id);
  }

  /** The next result is announced on a promise that was still unset; no other promise changes. */
  lemma ResolveMove(g: Engine, a: Event)
    requires InOrder(g) && Linked(g) && PromisesRight(g) && Apart(g.run) && MovesPlan(a) && CanMove(g, a) && a.Resolve?
    ensures var g', p := Move(g, a), Moved(g, a);
            && Answering(g, g', p) && PromisesRight(g')
            && g.run.state.promises[g.run.plans[p].items[g.jobs[p].stage.done].id] == []
  {
    MoveEffect(g, a);
    MoveOnlyPromises(g, a);
    var g', p := Move(g, a), Moved(g, a);
    var plan, stage := g.run.plans[p], g.jobs[p].stage;
    var id := plan.items[stage.done].id;
    var reply := ReplyFor(stage.outcome, plan.key.modelName, |plan.items|, stage.done);
    assert g.run.state.promises[id] == [];
    assert [] + [reply] == [reply];
    assert g'.run.state.promises == g.run.state.promises[id := [reply]];
    AnswerOne(g, g', p, stage.done, reply);
  }

  /** What refusing does to the promises: those of plan `p` get one more answer. */
  lemma RefusedPromises(g: Engine, a: Event)
    requires InOrder(g) && Linked(g) && MovesPlan(a) && CanMove(g, a) && a.Reject?
    ensures var g', p := Move(g, a), Moved(g, a);
            && Answering(g, g', p) && g.jobs[p].stage == Submitting && g'.jobs[p].stage == Refused
            && forall id :: id in g.run.state.promises ==>
                 g'.run.state.promises[id] ==
                   g.run.state.promises[id] + (if InPlan(g.run.plans[p], id) then [Failed(ExecutorThrew)] else [])
  {
    MoveEffect(g, a);
    MoveOnlyPromises(g, a);
    forall id | id in g.run.state.promises ensures g.run.state.promises[id] + [] == g.run.state.promises[id] {}
  }

  /** The executor threw before running anything: every promise of the plan was unset and is set now. */
  lemma RejectMove(g: Engine, a: Event)
    requires InOrder(g) && Linked(g) && PromisesRight(g) && Apart(g.run) && MovesPlan(a) && CanMove(g, a) && a.Reject?
    ensures var g', p := Move(g, a), Moved(g, a);
            && Answering(g, g', p) && PromisesRight(g')
            && forall i :: 0 <= i < |g.run.plans[p].items| ==> g.run.state.promises[g.run.plans[p].items[i].id] == []
  {
    RefusedPromises(g, a);
    var g', p := Move(g, a), Moved(g, a);
    var plan, reply := g.run.plans[p], Failed(ExecutorThrew);
    assert forall i :: 0 <= i < |plan.items| ==> g.run.state.promises[plan.items[i].id] == [];
    forall id | id in g.run.state.promises
      ensures g'.run.state.promises[id] == if InPlan(plan, id) then [reply] else g.run.state.promises[id]
    {
      if InPlan(plan, id) {
        var i :| 0 <= i < |plan.items| && plan.items[i].id == id;
        assert [] + [reply] == [reply];
      }
    }
    AnswerAll(g, g', p, reply);
  }

  lemma SubmitKeepsPromises(g: Engine, g': Engine, cfg: Config, item: Item)
    requires |g.jobs| == |g.run.plans| && PromisesRight(g) && Apart(g.run) && item.id !in g.run.state.promises
    requires g' == g.(run := SchedulerRuns.Apply(g.run, cfg, Submit(item)))
    ensures PromisesRight(g')
  {
    var key := KeyOf(item);
    assert g'.run.state.promises.Keys == g.run.state.promises.Keys + {item.id};
    forall k, i | k in g'.run.state.queues && 0 <= i < |g'.run.state.queues[k].items|
      ensures var id := g'.run.state.queues[k].items[i].id; id in g'.run.state.promises && g'.run.state.promises[id] == []
    {
      if k == key && key !in g.run.state.queues {
      } else if i < |g.run.state.queues[k].items| {
        assert g'.run.state.queues[k].items[i] == g.run.state.queues[k].items[i];
      }
    }
  }

  ghost predicate PlannedFrom(ready: seq<BatchPlan>, queues: map<SchedulingKey, ModelQueue>) {
    forall p, i | 0 <= p < |ready| && 0 <= i < |ready[p].items| ::
      ready[p].key in queues && ready[p].items[i] in queues[ready[p].key].items
  }

  ghost predicate LeftFrom(after: map<SchedulingKey, ModelQueue>, queues: map<SchedulingKey, ModelQueue>) {
    forall k, i | k in after && 0 <= i < |after[k].items| :: k in queues && after[k].items[i] in queues[k].items
  }

  /** Whatever a scan puts into plans, or leaves in a queue, was waiting in that queue before. */
  lemma ScanItems(queues: map<SchedulingKey, ModelQueue>, order: seq<SchedulingKey>, now: int, decideAt: SchedulingKey -> int)
    requires forall key :: key in order ==> key in queues
    ensures PlannedFrom(ScanIn(queues, order, now, decideAt).ready, queues)
    ensures LeftFrom(ScanIn(queues, order, now, decideAt).queues, queues)
  {
    var r := ScanIn(queues, order, now, decideAt);
    ScanPlansOnlyQueues(queues, order, now, decideAt);
    forall p, i | 0 <= p < |r.ready| && 0 <= i < |r.ready[p].items|
      ensures r.ready[p].key in queues && r.ready[p].items[i] in queues[r.ready[p].key].items
    {
      assert r.ready[p] in r.ready;
      OfHolds(r.ready, p, i);
      ScanConserves(queues, order, now, decideAt, r.ready[p].key);
      InFirst(Of(r.ready, r.ready[p].key), r.queues[r.ready[p].key].items, r.ready[p].items[i]);
    }
    forall k, i | k in queues && 0 <= i < |r.queues[k].items| ensures r.queues[k].items[i] in queues[k].items {
      ScanConserves(queues, order, now, decideAt, k);
      assert queues[k].items[|Of(r.ready, k)| + i] == r.queues[k].items[i];
    }
  }

  lemma InFirst<T>(a: seq<T>, b: seq<T>, x: T)
    requires x in a
    ensures x in a + b
  {
  }

  /** Plans made of waiting requests have nothing answered yet. */
  lemma ScanKeepsPromises(g: Engine, g': Engine, ready: seq<BatchPlan>)
    requires |g.jobs| == |g.run.plans| && PromisesRight(g)
    requires g'.run.plans == g.run.plans + ready && |g'.jobs| == |g'.run.plans| && g.jobs <= g'.jobs
    requires forall q :: |g.jobs| <= q < |g'.jobs| ==> g'.jobs[q].stage == Planned
    requires g'.run.state.promises == g.run.state.promises && g'.run.cancelled == g.run.cancelled
    requires PlannedFrom(ready, g.run.state.queues) && LeftFrom(g'.run.state.queues, g.run.state.queues)
    ensures PromisesRight(g')
  {
    assert Unanswered(g);
    forall p, i | 0 <= p < |g'.run.plans| && 0 <= i < |g'.run.plans[p].items|
      ensures var id := g'.run.plans[p].items[i].id;
              id in g'.run.state.promises && g'.run.state.promises[id] == Value(g'.run.plans[p], g'.jobs[p].stage, i)
    {
      if p >= |g.run.plans| {
        var m := p - |g.run.plans|;
        assert g'.run.plans[p] == ready[m] && g'.jobs[p].stage == Planned;
        var item := ready[m].items[i];
        assert ready[m].key in g.run.state.queues && item in g.run.state.queues[ready[m].key].items;
      } else {
        assert g'.run.plans[p] == g.run.plans[p] && g'.jobs[p] == g.jobs[p];
      }
    }
  }

  ghost predicate Unanswered(g: Engine) {
    forall k, item :: k in g.run.state.queues && item in g.run.state.queues[k].items ==>
      item.id in g.run.state.promises && g.run.state.promises[item.id] == []
  }

  lemma DrainKeepsPromises(g: Engine, g': Engine, cfg: Config)
    requires |g.jobs| == |g.run.plans| && PromisesRight(g) && Apart(g.run)
    requires g'.run == SchedulerRuns.Apply(g.run, cfg, Drain) && g'.jobs == g.jobs
    ensures PromisesRight(g')
  {
    DrainPlans(g, g', cfg);
    DrainCancelled(g, g', cfg);
    DrainAtMostOnce(g, g', cfg);
  }

  lemma DrainPlans(g: Engine, g': Engine, cfg: Config)
    requires |g.jobs| == |g.run.plans| && PlansAnswered(g) && PlanQueueApart(g.run)
    requires g'.run == SchedulerRuns.Apply(g.run, cfg, Drain) && g'.jobs == g.jobs
    ensures PlansAnswered(g')
  {
    assert forall p, i | 0 <= p < |g.run.plans| && 0 <= i < |g.run.plans[p].items| ::
             !Waiting(g.run.state.queues, g.run.plans[p].items[i].id);
  }

  lemma DrainCancelled(g: Engine, g': Engine, cfg: Config)
    requires QueuesUnanswered(g) && CancelledTold(g) && QueueCancelledApart(g.run)
    requires g'.run == SchedulerRuns.Apply(g.run, cfg, Drain)
    ensures CancelledTold(g')
  {
    forall k, i | k in g'.run.cancelled && 0 <= i < |g'.run.cancelled[k]|
      ensures var id := g'.run.cancelled[k][i].id;
              id in g'.run.state.promises && g'.run.state.promises[id] == [Failed(ShuttingDown)]
    {
      if i < |Get(g.run.cancelled, k)| {
        CancelledBefore(g, g', cfg, k, i);
      } else {
        CancelledNow(g, g', cfg, k, i - |Get(g.run.cancelled, k)|);
      }
    }
  }

  lemma CancelledBefore(g: Engine, g': Engine, cfg: Config, k: SchedulingKey, i: nat)
    requires CancelledTold(g) && QueueCancelledApart(g.run)
    requires g'.run == SchedulerRuns.Apply(g.run, cfg, Drain) && i < |Get(g.run.cancelled, k)|
    ensures k in g'.run.cancelled && i < |g'.run.cancelled[k]|
    ensures var id := g'.run.cancelled[k][i].id; id in g'.run.state.promises && g'.run.state.promises[id] == [Failed(ShuttingDown)]
  {
    assert g'.run.cancelled[k][i] == g.run.cancelled[k][i];
    assert !Waiting(g.run.state.queues, g.run.cancelled[k][i].id);
  }

  lemma CancelledNow(g: Engine, g': Engine, cfg: Config, k: SchedulingKey, j: nat)
    requires QueuesUnanswered(g) && g'.run == SchedulerRuns.Apply(g.run, cfg, Drain) && k in g'.run.cancelled
    requires j < |g'.run.cancelled[k]| - |Get(g.run.cancelled, k)|
    ensures var id := g'.run.cancelled[k][|Get(g.run.cancelled, k)| + j].id;
            id in g'.run.state.promises && g'.run.state.promises[id] == [Failed(ShuttingDown)]
  {
    var queues, id := g.run.state.queues, g'.run.cancelled[k][|Get(g.run.cancelled, k)| + j].id;
    assert g'.run.cancelled[k][|Get(g.run.cancelled, k)| + j] == queues[k].items[j];
    assert Waiting(queues, id) && g.run.state.promises[id] == [];
    assert [] + [Failed(ShuttingDown)] == [Failed(ShuttingDown)];
  }

  lemma DrainAtMostOnce(g: Engine, g': Engine, cfg: Config)
    requires QueuesUnanswered(g) && AtMostOnce(g)
    requires g'.run == SchedulerRuns.Apply(g.run, cfg, Drain)
    ensures AtMostOnce(g')
  {
    forall id | id in g'.run.state.promises ensures |g'.run.state.promises[id]| <= 1 {
      assert |g.run.state.promises[id]| <= 1;
      if Waiting(g.run.state.queues, id) { assert g.run.state.promises[id] == []; }
    }
  }

  lemma MoveKeepsPromises(g: Engine, a: Event)
    requires InOrder(g) && Linked(g) && PromisesRight(g) && Apart(g.run) && MovesPlan(a) && CanMove(g, a)
    ensures |Move(g, a).jobs| == |Move(g, a).run.plans| && PromisesRight(Move(g, a))
  {
    MoveEffect(g, a);
    if a.Resolve? { ResolveMove(g, a); }
    else if a.Reject? { RejectMove(g, a); }
    else { SilentMove(g, a); }
  }

  lemma ScanStepKeepsPromises(g: Engine, cfg: Config, a: Event)
    requires InOrder(g) && PromisesRight(g) && a.ScanNow? && Can(g, cfg, a)
    ensures |Step(g, cfg, a).jobs| == |Step(g, cfg, a).run.plans| && PromisesRight(Step(g, cfg, a))
  {
    StayEffect(g, cfg, a);
    ScanItems(g.run.state.queues, a.order, a.now, a.decideAt);
    ScanKeepsPromises(g, Step(g, cfg, a), ScanIn(g.run.state.queues, a.order, a.now, a.decideAt).ready);
  }

  lemma KeepPromisesRight(g: Engine, cfg: Config, a: Event)
    requires InOrder(g) && Linked(g) && PromisesRight(g) && Apart(g.run) && Can(g, cfg, a)
    ensures |Step(g, cfg, a).jobs| == |Step(g, cfg, a).run.plans| && PromisesRight(Step(g, cfg, a))
  {
    if MovesPlan(a) { MoveKeepsPromises(g, a); } else { StayKeepsPromises(g, cfg, a); }
  }

  lemma StayKeepsPromises(g: Engine, cfg: Config, a: Event)
    requires InOrder(g) && PromisesRight(g) && Apart(g.run) && !MovesPlan(a) && Can(g, cfg, a)
    ensures |Step(g, cfg, a).jobs| == |Step(g, cfg, a).run.plans| && PromisesRight(Step(g, cfg, a))
  {
    if a.ScanNow? {
      ScanStepKeepsPromises(g, cfg, a);
    } else if a.SubmitRequest? {
      SubmitKeepsPromises(g, Step(g, cfg, a), cfg, a.item);
    } else if a.DrainQueues? {
      DrainKeepsPromises(g, Step(g, cfg, a), cfg);
    }
  }

  // ---------------------------------------------------------------- answers stay

  /** A promise that is set stays as it is, and only an accepted request's promise is set later. */
  ghost predicate AnswersStay(r: Run, r': Run) {
    forall id :: id in r.state.promises ==>
      && id in r'.state.promises
      && (r'.state.promises[id] == r.state.promises[id] || (r.state.promises[id] == [] && AcceptedId(r, id)))
  }

  lemma PlannedIsAccepted(r: Run, p: nat, i: nat)
    requires Fifo(r) && p < |r.plans| && i < |r.plans[p].items|
    ensures AcceptedId(r, r.plans[p].items[i].id)
  {
    PlannedPosition(r, p, i);
  }

  lemma ResolveAnswers(g: Engine, a: Event)
    requires InOrder(g) && Linked(g) && PromisesRight(g) && Fifo(g.run) && Apart(g.run) && MovesPlan(a) && CanMove(g, a) && a.Resolve?
    ensures AnswersStay(g.run, Move(g, a).run)
  {
    ResolveMove(g, a);
    MoveEffect(g, a);
    PlannedIsAccepted(g.run, Moved(g, a), g.jobs[Moved(g, a)].stage.done);
  }

  lemma RejectAnswers(g: Engine, a: Event)
    requires InOrder(g) && Linked(g) && PromisesRight(g) && Fifo(g.run) && Apart(g.run) && MovesPlan(a) && CanMove(g, a) && a.Reject?
    ensures AnswersStay(g.run, Move(g, a).run)
  {
    RejectMove(g, a);
    RefusedPromises(g, a);
    var p := Moved(g, a);
    forall id | id in g.run.state.promises && InPlan(g.run.plans[p], id) ensures g.run.state.promises[id] == [] && AcceptedId(g.run, id) {
      var i :| 0 <= i < |g.run.plans[p].items| && g.run.plans[p].items[i].id == id;
      PlannedIsAccepted(g.run, p, i);
    }
  }

  lemma DrainAnswers(g: Engine, cfg: Config)
    requires QueuesUnanswered(g) && Fifo(g.run)
    ensures AnswersStay(g.run, SchedulerRuns.Apply(g.run, cfg, Drain))
  {
    var queues := g.run.state.queues;
    forall id | id in g.run.state.promises && Waiting(queues, id) ensures g.run.state.promises[id] == [] && AcceptedId(g.run, id) {
      var k :| k in queues && exists i | 0 <= i < |queues[k].items| :: queues[k].items[i].id == id;
      var i :| 0 <= i < |queues[k].items| && queues[k].items[i].id == id;
      QueuedPosition(g.run, k, i);
    }
  }

  lemma MoveAnswers(g: Engine, a: Event)
    requires InOrder(g) && Linked(g) && PromisesRight(g) && Fifo(g.run) && Apart(g.run) && MovesPlan(a) && CanMove(g, a)
    ensures AnswersStay(g.run, Move(g, a).run)
  {
    if a.Resolve? { ResolveAnswers(g, a); }
    else if a.Reject? { RejectAnswers(g, a); }
  }

  lemma StayAnswers(g: Engine, cfg: Config, a: Event)
    requires |g.jobs| == |g.run.plans| && QueuesUnanswered(g) && Fifo(g.run) && !MovesPlan(a) && Can(g, cfg, a)
    ensures AnswersStay(g.run, Step(g, cfg, a).run)
  {
    if a.DrainQueues? { DrainAnswers(g, cfg); }
  }

  lemma StepAnswers(g: Engine, cfg: Config, a: Event)
    requires InOrder(g) && Linked(g) && PromisesRight(g) && Fifo(g.run) && Apart(g.run) && Can(g, cfg, a)
    ensures AnswersStay(g.run, Step(g, cfg, a).run)
  {
    if MovesPlan(a) { MoveAnswers(g, a); } else { StayAnswers(g, cfg, a); }
  }

  /** Acceptance is never taken back. */
  lemma StepAccepts(g: Engine, cfg: Config, a: Event, k: SchedulingKey, n: nat)
    requires |g.jobs| == |g.run.plans| && Can(g, cfg, a) && k in g.run.accepted && n < |g.run.accepted[k]|
    ensures var r := Step(g, cfg, a).run; k in r.accepted && n < |r.accepted[k]| && r.accepted[k][n] == g.run.accepted[k][n]
  {
    if MovesPlan(a) { MoveOnlyPromises(g, a); }
  }

  lemma SubmitIsToldOrAccepted(r: Run, cfg: Config, item: Item)
    requires item.id !in r.state.promises
    ensures var r' := SchedulerRuns.Apply(r, cfg, Submit(item)); AcceptedId(r', item.id) || r'.state.promises[item.id] == [Failed(QueueFull)]
  {
    var r', k := SchedulerRuns.Apply(r, cfg, Submit(item)), KeyOf(item);
    if Accepts(r.state, cfg, item) { assert r'.accepted[k][|r'.accepted[k]| - 1].id == item.id; }
  }

  lemma KeepAcceptedOrTold(g: Engine, cfg: Config, a: Event)
    requires InOrder(g) && Linked(g) && PromisesRight(g) && AcceptedOrTold(g) && Fifo(g.run) && Apart(g.run) && Can(g, cfg, a)
    ensures AcceptedOrTold(Step(g, cfg, a))
  {
    var r' := Step(g, cfg, a).run;
    StepAnswers(g, cfg, a);
    forall id | id in r'.state.promises ensures AcceptedId(r', id) || r'.state.promises[id] == [Failed(QueueFull)] {
      if id !in g.run.state.promises {
        NewPromises(g, cfg, a, id);
        SubmitIsToldOrAccepted(g.run, cfg, a.item);
      } else if AcceptedId(g.run, id) {
        var k, n :| k in g.run.accepted && 0 <= n < |g.run.accepted[k]| && g.run.accepted[k][n].id == id;
        StepAccepts(g, cfg, a, k, n);
      }
    }
  }

  /** Promises are created by submissions only. */
  lemma NewPromises(g: Engine, cfg: Config, a: Event, id: nat)
    requires |g.jobs| == |g.run.plans| && Can(g, cfg, a) && id !in g.run.state.promises && id in Step(g, cfg, a).run.state.promises
    ensures a.SubmitRequest? && a.item.id == id
  {
    if MovesPlan(a) { MoveOnlyPromises(g, a); }
  }

  // ---------------------------------------------------------------- slots

  ghost predicate SlotsRight(g: Engine)
    requires |g.jobs| == |g.run.plans|
  {
    SlotsOwned(g) && SlotsFaithful(g) && ImagesCollected(g) && ResultsInPlace(g) && OthersEmpty(g)
  }

  /** Plans, queues and collected images as before; every lent slot keeps its owner and its image. */
  ghost predicate SameSlots(g: Engine, g': Engine) {
    && g'.images == g.images && g'.slots.Keys == g.slots.Keys
    && forall s :: s in g.slots ==> g'.slots[s].owner == g.slots[s].owner && g'.slots[s].image == g.slots[s].image
  }

  predicate Holds(item: Item, s: nat, slot: Slot) {
    item.slot == Some(s) && slot.owner == item.id
  }

  /** Plan `p` may have written results; a slot of another owner is untouched. */
  ghost predicate Writes(g: Engine, g': Engine, p: nat)
    requires p < |g.jobs| == |g.run.plans| && p < |g'.jobs|
  {
    && SameSlots(g, g')
    && (forall s :: s in g.slots && !InPlan(g.run.plans[p], g.slots[s].owner) ==> g'.slots[s] == g.slots[s])
    && (forall i, s | 0 <= i < |g.run.plans[p].items| && s in g.slots && Holds(g.run.plans[p].items[i], s, g.slots[s]) ::
          g'.slots[s].result == Written(g.run.plans[p], g'.jobs[p].stage, i))
  }

  lemma WritingKeepsSlots(g: Engine, g': Engine, a: Event, p: nat)
    requires InOrder(g) && SlotsRight(g) && OneMoved(g, g', a, p) && PlansApart(g.run) && Writes(g, g', p)
    requires |g'.jobs| == |g'.run.plans| && !a.BeginSubmit? && g'.jobs[p].images == g.jobs[p].images
    ensures SlotsRight(g')
  {
    assert SlotsFaithful(g');
    assert SlotsOwned(g');
    assert ImagesCollected(g');
    WritingInPlace(g, g', a, p);
  }

  lemma WritingInPlace(g: Engine, g': Engine, a: Event, p: nat)
    requires InOrder(g) && ResultsInPlace(g) && OthersEmpty(g) && OneMoved(g, g', a, p) && PlansApart(g.run) && Writes(g, g', p)
    requires |g'.jobs| == |g'.run.plans|
    ensures ResultsInPlace(g') && OthersEmpty(g')
  {
    forall q, i | 0 <= q < |g'.run.plans| && 0 <= i < |g'.run.plans[q].items|
      ensures var item := g'.run.plans[q].items[i];
              item.slot.Some? && item.slot.value in g'.slots && g'.slots[item.slot.value].owner == item.id ==>
                g'.slots[item.slot.value].result == Written(g'.run.plans[q], g'.jobs[q].stage, i)
    {
      var item := g.run.plans[q].items[i];
      if q != p && item.slot.Some? && item.slot.value in g.slots && g.slots[item.slot.value].owner == item.id {
        assert !InPlan(g.run.plans[p], item.id);
      }
    }
  }

  /** Nothing is written where no answer is due. */
  lemma SilentWrites(g: Engine, g': Engine, a: Event, p: nat)
    requires p < |g.jobs| == |g.run.plans| && p < |g'.jobs| && ResultsInPlace(g) && g'.slots == g.slots && g'.images == g.images
    requires StageBefore(g, p, a) && g'.jobs[p].stage == StageAfter(g, p, a)
    requires a.Hand? || a.StartTask? || (a.EndTask? && g.jobs[p].stage.done == |g.run.plans[p].items|)
    ensures Writes(g, g', p)
  {
    forall i | 0 <= i < |g.run.plans[p].items|
      ensures Written(g.run.plans[p], g'.jobs[p].stage, i) == Written(g.run.plans[p], g.jobs[p].stage, i)
    {
      SilentValue(g, a, p, i);
    }
  }

  lemma SilentKeepsSlots(g: Engine, a: Event)
    requires InOrder(g) && Linked(g) && SlotsRight(g) && PlansApart(g.run)
    requires MovesPlan(a) && CanMove(g, a) && (a.Hand? || a.StartTask? || a.EndTask?)
    ensures |Move(g, a).jobs| == |Move(g, a).run.plans| && SlotsRight(Move(g, a))
  {
    MoveEffect(g, a);
    SilentWrites(g, Move(g, a), a, Moved(g, a));
    WritingKeepsSlots(g, Move(g, a), a, Moved(g, a));
  }

  /** The next result of plan `p` is in its slot and the plan is one result further. */
  ghost predicate ResolvedNext(g: Engine, g': Engine, p: nat)
    requires p < |g.jobs| == |g.run.plans|
  {
    var plan, stage := g.run.plans[p], g.jobs[p].stage;
    && stage.Started? && stage.done < |plan.items|
    && p < |g'.jobs| == |g'.run.plans| && g'.images == g.images && g'.jobs[p].images == g.jobs[p].images
    && g'.jobs[p].stage == Started(stage.outcome, stage.done + 1)
    && g'.slots == Store(g.slots, plan.items[stage.done], ContentFor(stage.outcome, plan.key.modelName, |plan.items|, stage.done))
  }

  lemma ResolveEffect(g: Engine, a: Event)
    requires InOrder(g) && Linked(g) && MovesPlan(a) && CanMove(g, a) && a.Resolve?
    ensures Moved(g, a) < |g.jobs| && OneMoved(g, Move(g, a), a, Moved(g, a)) && ResolvedNext(g, Move(g, a), Moved(g, a))
  {
    MoveEffect(g, a);
  }

  lemma ResolveKeepsSlots(g: Engine, a: Event)
    requires InOrder(g) && Linked(g) && SlotsRight(g) && PlansApart(g.run)
    requires MovesPlan(a) && CanMove(g, a) && a.Resolve?
    ensures |Move(g, a).jobs| == |Move(g, a).run.plans| && SlotsRight(Move(g, a))
  {
    ResolveEffect(g, a);
    ResolvedKeepsSlots(g, Move(g, a), a, Moved(g, a));
  }

  lemma ResolvedKeepsSlots(g: Engine, g': Engine, a: Event, p: nat)
    requires InOrder(g) && SlotsRight(g) && PlansApart(g.run) && a.Resolve?
    requires p < |g.jobs| && OneMoved(g, g', a, p) && ResolvedNext(g, g', p)
    ensures SlotsRight(g')
  {
    PlanOwns(g, p);
    ResolvedWrites(g, g', p);
    WritingKeepsSlots(g, g', a, p);
  }

  lemma ResolvedWrites(g: Engine, g': Engine, p: nat)
    requires p < |g.jobs| == |g.run.plans| && ResolvedNext(g, g', p) && PlansApart(g.run) && ResultsInPlace(g)
    requires forall i :: 0 <= i < |g.run.plans[p].items| ==> Owns(g.slots, g.run.plans[p].items[i])
    ensures Writes(g, g', p)
  {
    var plan, stage := g.run.plans[p], g.jobs[p].stage;
    StoreKeepsOthers(g, p, stage.done, ContentFor(stage.outcome, plan.key.modelName, |plan.items|, stage.done));
  }

  lemma StoreKeepsOthers(g: Engine, p: nat, d: nat, c: Content)
    requires |g.jobs| == |g.run.plans| && PlansApart(g.run) && p < |g.jobs| && d < |g.run.plans[p].items|
    requires Owns(g.slots, g.run.plans[p].items[d])
    ensures var slots' := Store(g.slots, g.run.plans[p].items[d], c);
            && slots'.Keys == g.slots.Keys
            && (forall s :: s in g.slots ==> slots'[s].owner == g.slots[s].owner && slots'[s].image == g.slots[s].image)
            && (forall s :: s in g.slots && !InPlan(g.run.plans[p], g.slots[s].owner) ==> slots'[s] == g.slots[s])
            && (forall i, s | 0 <= i < |g.run.plans[p].items| && s in g.slots && Holds(g.run.plans[p].items[i], s, g.slots[s]) ::
                  slots'[s].result == if i == d then c else g.slots[s].result)
  {
    assert InPlan(g.run.plans[p], g.run.plans[p].items[d].id);
  }

  /** The error text is in every slot of plan `p`, and the plan is refused. */
  ghost predicate RefusedAll(g: Engine, g': Engine, p: nat)
    requires p < |g.jobs| == |g.run.plans|
  {
    && p < |g'.jobs| == |g'.run.plans| && g'.images == g.images && g'.jobs[p].images == g.jobs[p].images
    && g'.jobs[p].stage == Refused && g'.slots.Keys == g.slots.Keys
    && forall s :: s in g.slots ==>
         g'.slots[s] == if UsesSlot(g.run.plans[p], s) then g.slots[s].(result := Note(ExecutorThrew)) else g.slots[s]
  }

  lemma RejectEffect(g: Engine, a: Event)
    requires InOrder(g) && Linked(g) && MovesPlan(a) && CanMove(g, a) && a.Reject?
    ensures Moved(g, a) < |g.jobs| && OneMoved(g, Move(g, a), a, Moved(g, a)) && RefusedAll(g, Move(g, a), Moved(g, a))
    ensures g.jobs[Moved(g, a)].stage == Submitting
  {
    MoveEffect(g, a);
  }

  lemma RejectKeepsSlots(g: Engine, a: Event)
    requires InOrder(g) && Linked(g) && SlotsRight(g) && PlansApart(g.run)
    requires MovesPlan(a) && CanMove(g, a) && a.Reject?
    ensures |Move(g, a).jobs| == |Move(g, a).run.plans| && SlotsRight(Move(g, a))
  {
    RejectEffect(g, a);
    RejectedKeepsSlots(g, Move(g, a), a, Moved(g, a));
  }

  lemma RejectedKeepsSlots(g: Engine, g': Engine, a: Event, p: nat)
    requires InOrder(g) && SlotsRight(g) && PlansApart(g.run) && a.Reject?
    requires p < |g.jobs| && OneMoved(g, g', a, p) && RefusedAll(g, g', p)
    ensures SlotsRight(g')
  {
    PlanOwns(g, p);
    RejectedWrites(g, g', p);
    WritingKeepsSlots(g, g', a, p);
  }

  lemma RejectedWrites(g: Engine, g': Engine, p: nat)
    requires p < |g.jobs| == |g.run.plans| && RefusedAll(g, g', p)
    requires forall i :: 0 <= i < |g.run.plans[p].items| ==> Owns(g.slots, g.run.plans[p].items[i])
    ensures Writes(g, g', p)
  {
    RefusedSlots(g, g', p);
  }

  lemma PlanOwns(g: Engine, p: nat)
    requires |g.jobs| == |g.run.plans| && SlotsOwned(g) && p < |g.jobs| && !Over(g.jobs[p].stage)
    ensures forall i :: 0 <= i < |g.run.plans[p].items| ==> Owns(g.slots, g.run.plans[p].items[i])
  {
  }

  /** Every slot written belongs to a request of the plan, and every request of the plan that holds its slot is told. */
  lemma RefusedSlots(g: Engine, g': Engine, p: nat)
    requires p < |g.jobs| == |g.run.plans| && RefusedAll(g, g', p)
    requires forall i :: 0 <= i < |g.run.plans[p].items| ==> Owns(g.slots, g.run.plans[p].items[i])
    ensures SameSlots(g, g')
    ensures forall s :: s in g.slots && !InPlan(g.run.plans[p], g.slots[s].owner) ==> g'.slots[s] == g.slots[s]
    ensures forall i, s | 0 <= i < |g.run.plans[p].items| && s in g.slots && Holds(g.run.plans[p].items[i], s, g.slots[s]) ::
              g'.slots[s].result == Note(ExecutorThrew)
  {
    var plan := g.run.plans[p];
    forall s | s in g.slots && UsesSlot(plan, s) ensures InPlan(plan, g.slots[s].owner) {
      var i :| 0 <= i < |plan.items| && plan.items[i].slot == Some(s);
      assert plan.items[i].id == g.slots[s].owner;
    }
    assert forall i, s | 0 <= i < |plan.items| && s in g.slots && Holds(plan.items[i], s, g.slots[s]) :: UsesSlot(plan, s);
  }

  /** Collecting the images of a plan: each request's slot still holds what its own handler stored. */
  lemma BeginKeepsSlots(g: Engine, a: Event)
    requires InOrder(g) && Linked(g) && SlotsRight(g) && MovesPlan(a) && CanMove(g, a) && a.BeginSubmit?
    ensures |Move(g, a).jobs| == |Move(g, a).run.plans| && SlotsRight(Move(g, a))
  {
    MoveEffect(g, a);
    var g', p := Move(g, a), Moved(g, a);
    var items := g.run.plans[p].items;
    assert forall i :: 0 <= i < |items| ==> Owns(g.slots, items[i]);
    assert |g'.jobs[p].images| == |items| && forall i :: 0 <= i < |items| ==> g'.jobs[p].images[i] == ImageOf(g.slots, items[i]);
    assert g'.slots == g.slots;
  }

  lemma MoveKeepsSlots(g: Engine, a: Event)
    requires InOrder(g) && Linked(g) && SlotsRight(g) && PlansApart(g.run) && MovesPlan(a) && CanMove(g, a)
    ensures |Move(g, a).jobs| == |Move(g, a).run.plans| && SlotsRight(Move(g, a))
  {
    if a.BeginSubmit? { BeginKeepsSlots(g, a); }
    else if a.Resolve? { ResolveKeepsSlots(g, a); }
    else if a.Reject? { RejectKeepsSlots(g, a); }
    else { SilentKeepsSlots(g, a); }
  }

  /** A request new to the engine is in no plan and no queue. */
  ghost predicate Unknown(g: Engine, id: nat) {
    && (forall p, i | 0 <= p < |g.run.plans| && 0 <= i < |g.run.plans[p].items| :: g.run.plans[p].items[i].id != id)
    && (forall k, i | k in g.run.state.queues && 0 <= i < |g.run.state.queues[k].items| :: g.run.state.queues[k].items[i].id != id)
  }

  lemma NewIsUnknown(g: Engine, id: nat)
    requires Apart(g.run) && id !in g.run.state.promises
    ensures Unknown(g, id)
  {
  }

  lemma AcquireKeepsSlots(g: Engine, g': Engine, s: nat, id: nat, image: Image)
    requires |g.jobs| == |g.run.plans| && SlotsRight(g) && Unknown(g, id) && s !in g.slots && id !in g.images
    requires g' == g.(slots := g.slots[s := Slot(id, image, Empty)], images := g.images[id := image])
    ensures SlotsRight(g')
  {
    assert SlotsFaithful(g') && OthersEmpty(g');
    assert SlotsOwned(g');
    assert ImagesCollected(g');
  }

  /** A slot is given back only when no queue or unfinished plan refers to its owner, so nobody misses it. */
  lemma ReleaseKeepsSlots(g: Engine, g': Engine, s: nat)
    requires |g.jobs| == |g.run.plans| && SlotsRight(g) && PromisesRight(g) && s in g.slots
    requires Forgotten(g, g.slots[s].owner)
    requires g' == g.(slots := g.slots - {s})
    ensures SlotsRight(g')
  {
    forall k, i | k in g.run.state.queues && 0 <= i < |g.run.state.queues[k].items|
      ensures Owns(g'.slots, g.run.state.queues[k].items[i])
    {
      assert Owns(g.slots, g.run.state.queues[k].items[i]);
    }
    forall p, i | 0 <= p < |g.run.plans| && 0 <= i < |g.run.plans[p].items| && !Over(g.jobs[p].stage)
      ensures Owns(g'.slots, g.run.plans[p].items[i])
    {
      assert Owns(g.slots, g.run.plans[p].items[i]);
      assert InPlan(g.run.plans[p], g.run.plans[p].items[i].id);
    }
  }

  lemma SubmitKeepsSlots(g: Engine, g': Engine, cfg: Config, item: Item)
    requires |g.jobs| == |g.run.plans| && SlotsRight(g) && item.id !in g.run.state.promises && Owns(g.slots, item)
    requires g' == g.(run := SchedulerRuns.Apply(g.run, cfg, Submit(item)))
    ensures SlotsRight(g')
  {
    forall k, i | k in g'.run.state.queues && 0 <= i < |g'.run.state.queues[k].items|
      ensures Owns(g'.slots, g'.run.state.queues[k].items[i])
    {
      if k in g.run.state.queues && i < |g.run.state.queues[k].items| {
        assert g'.run.state.queues[k].items[i] == g.run.state.queues[k].items[i];
      }
    }
  }

  ghost predicate QueueSlots(g: Engine, ready: seq<BatchPlan>) {
    forall q, i | 0 <= q < |ready| && 0 <= i < |ready[q].items| ::
      && Owns(g.slots, ready[q].items[i])
      && forall p :: 0 <= p < |g.run.plans| ==> !InPlan(g.run.plans[p], ready[q].items[i].id)
  }

  lemma PlannedSlots(g: Engine, ready: seq<BatchPlan>)
    requires |g.jobs| == |g.run.plans| && SlotsOwned(g) && PlanQueueApart(g.run) && PlannedFrom(ready, g.run.state.queues)
    ensures QueueSlots(g, ready)
  {
    forall q, i | 0 <= q < |ready| && 0 <= i < |ready[q].items|
      ensures Owns(g.slots, ready[q].items[i])
      ensures forall p :: 0 <= p < |g.run.plans| ==> !InPlan(g.run.plans[p], ready[q].items[i].id)
    {
      var item := ready[q].items[i];
      assert ready[q].key in g.run.state.queues;
      var items := g.run.state.queues[ready[q].key].items;
      var j :| 0 <= j < |items| && items[j] == ready[q].items[i];
      assert Owns(g.slots, items[j]);
    }
  }

  lemma ScanKeepsSlots(g: Engine, g': Engine, ready: seq<BatchPlan>)
    requires |g.jobs| == |g.run.plans| && SlotsRight(g) && QueueSlots(g, ready)
    requires g'.run.plans == g.run.plans + ready && |g'.jobs| == |g'.run.plans| && g.jobs <= g'.jobs
    requires forall q :: |g.jobs| <= q < |g'.jobs| ==> g'.jobs[q].stage == Planned
    requires g'.slots == g.slots && g'.images == g.images && LeftFrom(g'.run.state.queues, g.run.state.queues)
    ensures SlotsRight(g')
  {
    forall p | 0 <= p < |g'.run.plans|
      ensures if p < |g.run.plans| then g'.run.plans[p] == g.run.plans[p] && g'.jobs[p] == g.jobs[p]
              else g'.run.plans[p] == ready[p - |g.run.plans|] && g'.jobs[p].stage == Planned
    {
    }
    forall k, i | k in g'.run.state.queues && 0 <= i < |g'.run.state.queues[k].items|
      ensures Owns(g'.slots, g'.run.state.queues[k].items[i])
    {
      var item := g'.run.state.queues[k].items[i];
      assert k in g.run.state.queues;
      var items := g.run.state.queues[k].items;
      var j :| 0 <= j < |items| && items[j] == g'.run.state.queues[k].items[i];
      assert Owns(g.slots, items[j]);
    }
    forall p, i | 0 <= p < |g'.run.plans| && 0 <= i < |g'.run.plans[p].items|
      ensures !Over(g'.jobs[p].stage) ==> Owns(g'.slots, g'.run.plans[p].items[i])
      ensures var item := g'.run.plans[p].items[i];
              item.slot.Some? && item.slot.value in g'.slots && g'.slots[item.slot.value].owner == item.id ==>
                g'.slots[item.slot.value].result == Written(g'.run.plans[p], g'.jobs[p].stage, i)
    {
      if p >= |g.run.plans| {
        var m := p - |g.run.plans|;
        var item := ready[m].items[i];
        assert Owns(g.slots, item) && forall q :: 0 <= q < |g.run.plans| ==> !InPlan(g.run.plans[q], item.id);
      }
    }
    assert ImagesCollected(g');
    forall s | s in g'.slots && (forall p :: 0 <= p < |g'.run.plans| ==> !InPlan(g'.run.plans[p], g'.slots[s].owner))
      ensures g'.slots[s].result == Empty
    {
      assert forall p :: 0 <= p < |g.run.plans| ==> g'.run.plans[p] == g.run.plans[p];
    }
  }

  lemma DrainKeepsSlots(g: Engine, g': Engine, cfg: Config)
    requires |g.jobs| == |g.run.plans| && SlotsRight(g)
    requires g'.run == SchedulerRuns.Apply(g.run, cfg, Drain) && g'.jobs == g.jobs && g'.slots == g.slots && g'.images == g.images
    ensures SlotsRight(g')
  {
  }

  lemma HandlerKeepsSlots(g: Engine, cfg: Config, a: Event)
    requires |g.jobs| == |g.run.plans| && PromisesRight(g) && SlotsRight(g) && Apart(g.run) && Can(g, cfg, a)
    requires a.AcquireSlot? || a.ReleaseSlot? || a.SubmitRequest?
    ensures |Step(g, cfg, a).jobs| == |Step(g, cfg, a).run.plans| && SlotsRight(Step(g, cfg, a))
  {
    var g' := Step(g, cfg, a);
    match a {
      case AcquireSlot(s, id, image) => NewIsUnknown(g, id); AcquireKeepsSlots(g, g', s, id, image);
      case ReleaseSlot(s) => ReleaseKeepsSlots(g, g', s);
      case SubmitRequest(item) => SubmitKeepsSlots(g, g', cfg, item);
    }
  }

  lemma KeepSlotsRight(g: Engine, cfg: Config, a: Event)
    requires InOrder(g) && Linked(g) && PromisesRight(g) && SlotsRight(g) && Apart(g.run) && Can(g, cfg, a)
    ensures |Step(g, cfg, a).jobs| == |Step(g, cfg, a).run.plans| && SlotsRight(Step(g, cfg, a))
  {
    if MovesPlan(a) { MoveKeepsSlots(g, a); } else { StayKeepsSlots(g, cfg, a); }
  }

  lemma StayKeepsSlots(g: Engine, cfg: Config, a: Event)
    requires InOrder(g) && PromisesRight(g) && SlotsRight(g) && Apart(g.run) && !MovesPlan(a) && Can(g, cfg, a)
    ensures |Step(g, cfg, a).jobs| == |Step(g, cfg, a).run.plans| && SlotsRight(Step(g, cfg, a))
  {
    if a.AcquireSlot? || a.ReleaseSlot? || a.SubmitRequest? {
      HandlerKeepsSlots(g, cfg, a);
    } else if a.ScanNow? {
      ScanStepKeepsSlots(g, cfg, a);
    } else if a.DrainQueues? {
      DrainKeepsSlots(g, Step(g, cfg, a), cfg);
    } else {
      RestKeepsSlots(g, Step(g, cfg, a));
    }
  }

  /** No slot changes hands and nothing is accepted. */
  ghost predicate SameOwners(g: Engine, g': Engine) {
    && g'.run.accepted == g.run.accepted
    && forall s :: s in g'.slots ==> s in g.slots && g'.slots[s].owner == g.slots[s].owner
  }

  lemma MoveSameOwners(g: Engine, a: Event)
    requires |g.jobs| == |g.run.plans| && MovesPlan(a) && CanMove(g, a)
    ensures SameOwners(g, Move(g, a))
  {
  }

  lemma SameOwnersCarried(g: Engine, g': Engine)
    requires SlotsCarried(g) && SameOwners(g, g')
    ensures SlotsCarried(g')
  {
  }

  lemma SubmitCarried(g: Engine, g': Engine, cfg: Config, item: Item)
    requires SlotsCarried(g) && SlotsFaithful(g)
    requires if item.slot.Some? then item.slot.value in g.slots && g.slots[item.slot.value].owner == item.id else item.id !in g.images
    requires SchedulerRuns.Enabled(g.run, Submit(item)) && g' == g.(run := SchedulerRuns.Apply(g.run, cfg, Submit(item)))
    ensures SlotsCarried(g')
  {
    forall s, k, n | s in g'.slots && k in g'.run.accepted && 0 <= n < |g'.run.accepted[k]|
      ensures g'.run.accepted[k][n].id == g'.slots[s].owner ==> g'.run.accepted[k][n].slot == Some(s)
    {
      if !(k in g.run.accepted && n < |g.run.accepted[k]|) { assert g'.run.accepted[k][n] == item; }
    }
  }

  lemma AcquireCarried(g: Engine, g': Engine, s: nat, id: nat, image: Image)
    requires SlotsCarried(g) && SlotsFaithful(g) && Distinct(g.run) && id !in g.images && id !in g.run.state.promises
    requires g' == g.(slots := g.slots[s := Slot(id, image, Empty)], images := g.images[id := image])
    ensures SlotsCarried(g')
  {
  }

  lemma KeepSlotsCarried(g: Engine, cfg: Config, a: Event)
    requires |g.jobs| == |g.run.plans| && SlotsCarried(g) && SlotsFaithful(g) && Distinct(g.run) && Can(g, cfg, a)
    ensures SlotsCarried(Step(g, cfg, a))
  {
    var g' := Step(g, cfg, a);
    if MovesPlan(a) { MoveSameOwners(g, a); SameOwnersCarried(g, g'); }
    else if a.SubmitRequest? { SubmitCarried(g, g', cfg, a.item); }
    else if a.AcquireSlot? { AcquireCarried(g, g', a.slot, a.id, a.image); }
    else { SameOwnersCarried(g, g'); }
  }

  lemma RestKeepsSlots(g: Engine, g': Engine)
    requires |g.jobs| == |g.run.plans| && SlotsRight(g)
    requires g'.run == g.run && g'.jobs == g.jobs && g'.slots == g.slots && g'.images == g.images
    ensures SlotsRight(g')
  {
  }

  lemma ScanStepKeepsSlots(g: Engine, cfg: Config, a: Event)
    requires InOrder(g) && SlotsRight(g) && Apart(g.run) && a.ScanNow? && Can(g, cfg, a)
    ensures |Step(g, cfg, a).jobs| == |Step(g, cfg, a).run.plans| && SlotsRight(Step(g, cfg, a))
  {
    StayEffect(g, cfg, a);
    var ready := ScanIn(g.run.state.queues, a.order, a.now, a.decideAt).ready;
    ScanItems(g.run.state.queues, a.order, a.now, a.decideAt);
    PlannedSlots(g, ready);
    ScanKeepsSlots(g, Step(g, cfg, a), ready);
  }
}
