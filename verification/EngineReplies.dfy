/**
 Which reply a request gets and what it finds in its buffer, written out for every outcome of its
 batch; and the limit that every queue of every run keeps.
 */
module EngineReplies {
  import opened Common
  import opened BatchConfig
  import opened BatchScheduler
  import opened SchedulerRuns
  import opened Places
  import opened Engine
  import opened EngineInvariants
  import opened EngineRuns
  import opened EngineAnswers
  import opened EngineTheorems
  import opened EngineResults
  import opened Pipeline

  // ---------------------------------------------------------------- replies by outcome

  /** The reply to position `i` of a batch of `model` that came out as `o`. */
  ghost predicate RightReply(o: Outcome, model: string, i: nat, replies: seq<Reply>) {
    match o
    case NoModel => replies == [Failed(UnknownModel(model))]
    case Threw(_) => replies == [Ok]
    case Returned(r) => replies == if i < |r| then [Ok] else [Failed(MissingResult(i))]
  }

  /** The text, or the error, that goes with it. */
  ghost predicate RightText(o: Outcome, model: string, i: nat, c: Content) {
    match o
    case NoModel => c == Note(UnknownModel(model))
    case Threw(e) => c == Text(e)
    case Returned(r) => c == if i < |r| then Text(r[i]) else Note(MissingResult(i))
  }

  /** The plan's task has announced the result of position `i`. */
  predicate Announced(stage: Stage, i: nat) { stage.Completed? || (stage.Started? && i < stage.done) }

  lemma ReplyWritten(plan: BatchPlan, stage: Stage, i: nat)
    requires i < |plan.items|
    ensures Announced(stage, i) ==> RightReply(stage.outcome, plan.key.modelName, i, Value(plan, stage, i))
    ensures Announced(stage, i) ==> RightText(stage.outcome, plan.key.modelName, i, Written(plan, stage, i))
    ensures stage.Refused? ==> Value(plan, stage, i) == [Failed(ExecutorThrew)] && Written(plan, stage, i) == Note(ExecutorThrew)
    ensures !Announced(stage, i) && !stage.Refused? ==> Value(plan, stage, i) == [] && Written(plan, stage, i) == Empty
  {
  }

  /**
   In every run, the reply to each request of each plan: "ok" for a result that is there and for an
   exception, "missing" for a position behind the last result, "unknown model", or the executor's
   failure; none as long as its position has not been announced.
   */
  lemma RepliesByOutcome(start: Engine, cfg: Config, events: seq<Event>, g: Engine, p: nat, i: nat)
    requires Fresh(start) && Leads(start, cfg, events, g)
    requires |g.jobs| == |g.run.plans| && p < |g.run.plans| && i < |g.run.plans[p].items|
    ensures var plan, stage := g.run.plans[p], g.jobs[p].stage;
            var id := plan.items[i].id;
            && id in g.run.state.promises
            && var replies := g.run.state.promises[id];
               if Announced(stage, i) then RightReply(stage.outcome, plan.key.modelName, i, replies)
               else replies == if stage.Refused? then [Failed(ExecutorThrew)] else []
  {
    ReachedGood(start, cfg, events, g);
    assert g.run.state.promises[g.run.plans[p].items[i].id] == Value(g.run.plans[p], g.jobs[p].stage, i);
    ReplyWritten(g.run.plans[p], g.jobs[p].stage, i);
  }

  /** And the buffer, for a request that still has its slot. */
  lemma TextsByOutcome(start: Engine, cfg: Config, events: seq<Event>, g: Engine, p: nat, i: nat, s: nat)
    requires Fresh(start) && Leads(start, cfg, events, g)
    requires |g.jobs| == |g.run.plans| && p < |g.run.plans| && i < |g.run.plans[p].items|
    requires s in g.slots && g.slots[s].owner == g.run.plans[p].items[i].id
    ensures var plan, stage := g.run.plans[p], g.jobs[p].stage;
            if Announced(stage, i) then RightText(stage.outcome, plan.key.modelName, i, g.slots[s].result)
            else g.slots[s].result == if stage.Refused? then Note(ExecutorThrew) else Empty
  {
    ReachedGood(start, cfg, events, g);
    PlannedPosition(g.run, p, i);
    assert g.run.plans[p].items[i].slot == Some(s);
    assert g.slots[s].result == Written(g.run.plans[p], g.jobs[p].stage, i);
    ReplyWritten(g.run.plans[p], g.jobs[p].stage, i);
  }

  lemma NeverMissing(m: ModelPipeline, images: seq<Image>)
    requires m.preprocessor.Valid() && HasRegularOutputs(m)
    ensures BatchOutcome(m, images).Returned? ==> |BatchOutcome(m, images).results| == |images|
  {
    if images != [] && BatchOutcome(m, images).Returned? { BatchGives(m, images, 0); }
    BatchIsPredicted(m, images);
  }

  lemma FoundReply(g: Engine, cfg: Config, models: Models, p: nat, i: nat)
    requires Good(g, cfg) && ValidModels(models) && OutcomesRight(g, models)
    requires p < |g.run.plans| && i < |g.run.plans[p].items| && Announced(g.jobs[p].stage, i) && !g.jobs[p].stage.outcome.NoModel?
    ensures var id := g.run.plans[p].items[i].id; id in g.run.state.promises && g.run.state.promises[id] == [Ok]
  {
    var plan, job := g.run.plans[p], g.jobs[p];
    assert OutcomeOf(models, plan.key.modelName, job.images, job.stage.outcome);
    NeverMissing(models[plan.key.modelName], job.images);
    assert g.run.state.promises[plan.items[i].id] == Value(plan, job.stage, i);
    ReplyWritten(plan, job.stage, i);
  }

  /**
   When tasks run the pipelines behind their models, a request whose task found its model is answered
   "ok" as soon as its position is announced: a missing result never occurs.
   */
  lemma FoundModelAnswersOk(start: Engine, cfg: Config, models: Models, events: seq<Event>, g: Engine, p: nat, i: nat)
    requires ValidModels(models) && Fresh(start) && LeadsOn(start, cfg, models, events, g)
    requires |g.jobs| == |g.run.plans| && p < |g.run.plans| && i < |g.run.plans[p].items|
    requires Announced(g.jobs[p].stage, i) && !g.jobs[p].stage.outcome.NoModel?
    ensures var id := g.run.plans[p].items[i].id; id in g.run.state.promises && g.run.state.promises[id] == [Ok]
  {
    FreshGood(start, cfg);
    RunsOutcomes(start, cfg, models, events, g);
    FoundReply(g, cfg, models, p, i);
  }

  // ---------------------------------------------------------------- the limit on queues

  lemma StepWithinLimit(g: Engine, cfg: Config, a: Event)
    requires |g.jobs| == |g.run.plans| && Can(g, cfg, a) && WithinLimit(g.run.state.queues, cfg)
    ensures WithinLimit(Step(g, cfg, a).run.state.queues, cfg)
  {
    if MovesPlan(a) { MoveOnlyPromises(g, a); } else { StayWithinLimit(g, cfg, a); }
  }

  lemma StayWithinLimit(g: Engine, cfg: Config, a: Event)
    requires |g.jobs| == |g.run.plans| && !MovesPlan(a) && Can(g, cfg, a) && WithinLimit(g.run.state.queues, cfg)
    ensures WithinLimit(Step(g, cfg, a).run.state.queues, cfg)
  {
    match a {
      case SubmitRequest(item) => ApplyWithinLimit(g.run, cfg, Submit(item));
      case ScanNow(order, now, decideAt) => ApplyWithinLimit(g.run, cfg, ScanQueues(order, now, decideAt));
      case DrainQueues => ApplyWithinLimit(g.run, cfg, Drain);
      case _ =>
    }
  }

  lemma {:induction false} RunsWithinLimit(g: Engine, cfg: Config, events: seq<Event>, end: Engine)
    requires Leads(g, cfg, events, end) && WithinLimit(g.run.state.queues, cfg)
    ensures WithinLimit(end.run.state.queues, cfg)
    decreases |events|
  {
    if events != [] {
      StepWithinLimit(g, cfg, events[0]);
      RunsWithinLimit(Step(g, cfg, events[0]), cfg, events[1..], end);
    }
  }

  /** No queue of any engine run ever holds more than the configured number of requests, 1024 when it is not positive. */
  lemma QueuesStayWithinLimit(start: Engine, cfg: Config, events: seq<Event>, g: Engine, k: SchedulingKey)
    requires Fresh(start) && Leads(start, cfg, events, g) && k in g.run.state.queues
    ensures |g.run.state.queues[k].items| <= if cfg.maxQueueSize > 0 then cfg.maxQueueSize else 1024
  {
    RunsWithinLimit(start, cfg, events, g);
  }

  /**
   In every engine run a submission is answered "queue full", and counted as dropped, exactly when
   its key's queue is at the limit at that moment; otherwise it is put at the end of that queue.
   */
  lemma RefusedIffFull(start: Engine, cfg: Config, events: seq<Event>, g: Engine, item: Item)
    requires Fresh(start) && Leads(start, cfg, events, g) && |g.jobs| == |g.run.plans| && Can(g, cfg, SubmitRequest(item))
    ensures item.id in Step(g, cfg, SubmitRequest(item)).run.state.promises
    ensures Step(g, cfg, SubmitRequest(item)).run.state.promises[item.id] == [Failed(QueueFull)]
            <==> |Queued(g.run.state, KeyOf(item))| == if cfg.maxQueueSize > 0 then cfg.maxQueueSize else 1024
    ensures Submitted(g.run.state, cfg, item, Step(g, cfg, SubmitRequest(item)).run.state)
  {
    RunsWithinLimit(start, cfg, events, g);
    SubmitOutcome(g.run.state, cfg, item);
  }
}
