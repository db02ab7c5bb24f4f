/** What a request finds in its slot once it is answered: its own result, or nothing. */
module EngineResults {
  import opened Common
  import opened BatchConfig
  import opened BatchScheduler
  import opened SchedulerRuns
  import opened Places
  import opened Engine
  import opened EngineInvariants
  import opened EngineRuns
  import opened EngineTheorems
  import opened Pipeline

  // ---------------------------------------------------------------- buffer and reply

  /** The buffer holds a text for "ok", the error text for a failure of the batch, nothing for a refusal or a cancellation. */
  predicate BufferTells(c: Content, reply: Reply) {
    match reply
    case Ok => c.Text?
    case Failed(why) => if why.QueueFull? || why.ShuttingDown? then c == Empty else c == Note(why)
  }

  lemma WrittenTells(plan: BatchPlan, stage: Stage, i: nat)
    requires Value(plan, stage, i) != []
    ensures BufferTells(Written(plan, stage, i), Value(plan, stage, i)[0])
  {
  }

  lemma PlannedBuffer(g: Engine, p: nat, i: nat, s: nat)
    requires |g.jobs| == |g.run.plans| && Fifo(g.run) && PlansAnswered(g) && ResultsInPlace(g) && SlotsCarried(g)
    requires p < |g.run.plans| && i < |g.run.plans[p].items| && s in g.slots && g.run.plans[p].items[i].id == g.slots[s].owner
    requires g.run.state.promises[g.slots[s].owner] != []
    ensures BufferTells(g.slots[s].result, g.run.state.promises[g.slots[s].owner][0])
  {
    var x := g.run.plans[p].items[i];
    PlannedPosition(g.run, p, i);
    assert x.slot == Some(s);
    assert g.run.state.promises[x.id] == Value(g.run.plans[p], g.jobs[p].stage, i);
    WrittenTells(g.run.plans[p], g.jobs[p].stage, i);
  }

  lemma UnplannedBuffer(g: Engine, s: nat)
    requires |g.jobs| == |g.run.plans| && OthersEmpty(g) && s in g.slots
    requires forall p, i | 0 <= p < |g.run.plans| && 0 <= i < |g.run.plans[p].items| :: g.run.plans[p].items[i].id != g.slots[s].owner
    ensures g.slots[s].result == Empty
  {
  }

  lemma BufferOfAnswered(g: Engine, cfg: Config, s: nat)
    requires Good(g, cfg) && s in g.slots && g.slots[s].owner in g.run.state.promises
    requires g.run.state.promises[g.slots[s].owner] != []
    ensures |g.run.state.promises[g.slots[s].owner]| == 1
    ensures BufferTells(g.slots[s].result, g.run.state.promises[g.slots[s].owner][0])
  {
    var id := g.slots[s].owner;
    AllSettled(g, cfg, id);
    if p, i :| 0 <= p < |g.run.plans| && 0 <= i < |g.run.plans[p].items| && g.run.plans[p].items[i].id == id {
      PlannedBuffer(g, p, i, s);
    } else {
      UnplannedBuffer(g, s);
      if AcceptedId(g.run, id) {
        AcceptedInPlace(g.run, id);
        var k, i :| k in g.run.cancelled && 0 <= i < |g.run.cancelled[k]| && g.run.cancelled[k][i].id == id;
      }
    }
  }

  predicate Unserved(replies: seq<Reply>) {
    replies == [Failed(QueueFull)] || replies == [Failed(ShuttingDown)]
  }

  lemma EmptyWhenUnserved(c: Content, replies: seq<Reply>)
    requires |replies| == 1 && BufferTells(c, replies[0])
    ensures c == Empty <==> Unserved(replies)
  {
    assert replies == [replies[0]];
  }

  /**
   An answered request that still has its slot finds the buffer empty exactly when it was refused for
   a full queue or cancelled by a shutdown, and otherwise the text that goes with its reply. The
   handler that looks there therefore finds nothing to send in just those two cases.
   */
  lemma BufferEmptyIff(start: Engine, cfg: Config, events: seq<Event>, g: Engine, s: nat)
    requires Fresh(start) && Leads(start, cfg, events, g)
    requires s in g.slots && g.slots[s].owner in g.run.state.promises
    requires g.run.state.promises[g.slots[s].owner] != []
    ensures var replies := g.run.state.promises[g.slots[s].owner];
            && |replies| == 1 && BufferTells(g.slots[s].result, replies[0])
            && (g.slots[s].result == Empty <==> Unserved(replies))
  {
    ReachedGood(start, cfg, events, g);
    BufferOfAnswered(g, cfg, s);
    EmptyWhenUnserved(g.slots[s].result, g.run.state.promises[g.slots[s].owner]);
  }

  // ---------------------------------------------------------------- every request gets its own answer

  /** The pipelines behind the model names; which of them are loaded when a task starts is open. */
  type Models = map<string, ModelPipeline>

  ghost predicate ValidModels(models: Models) {
    forall name :: name in models ==> models[name].preprocessor.Valid() && HasRegularOutputs(models[name])
  }

  /** All outputs have one shape, so batches can be cut up again. */
  ghost predicate HasRegularOutputs(m: ModelPipeline) {
    exists n: nat, s :: m.Regular(n, s)
  }

  lemma BatchIsPredicted(m: ModelPipeline, images: seq<Image>)
    requires m.preprocessor.Valid() && HasRegularOutputs(m)
    ensures m.Readable(images) && m.BatchResult(images) == m.Predicted(images)
  {
    var n: nat, s :| m.Regular(n, s);
    m.RegularBatch(images, n, s);
  }

  /** What the task makes of the batch method's result or exception. */
  ghost function BatchOutcome(m: ModelPipeline, images: seq<Image>): Outcome
    requires m.preprocessor.Valid() && HasRegularOutputs(m)
  {
    BatchIsPredicted(m, images);
    match m.BatchResult(images) case Strings(r) => Returned(r) case Escaped(e) => Threw(e)
  }

  ghost predicate OutcomeOf(models: Models, name: string, images: seq<Image>, o: Outcome)
    requires ValidModels(models)
  {
    o.NoModel? || (name in models && o == BatchOutcome(models[name], images))
  }

  /** A task that finds its model gets what that model's pipeline makes of the batch. */
  ghost predicate RunsModel(g: Engine, a: Event, models: Models)
    requires ValidModels(models) && |g.jobs| == |g.run.plans|
  {
    a.StartTask? && a.x < |g.executors| && a.w < |g.executors[a.x].workers| && g.executors[a.x].workers[a.w].Moving? ==>
      var p := g.executors[a.x].workers[a.w].task;
      p < |g.jobs| ==> OutcomeOf(models, g.run.plans[p].key.modelName, g.jobs[p].images, a.outcome)
  }

  ghost predicate LeadsOn(g: Engine, cfg: Config, models: Models, events: seq<Event>, end: Engine)
    requires ValidModels(models)
    decreases |events|
  {
    if events == [] then g == end
    else
      && |g.jobs| == |g.run.plans| && Can(g, cfg, events[0]) && RunsModel(g, events[0], models)
      && LeadsOn(Step(g, cfg, events[0]), cfg, models, events[1..], end)
  }

  ghost predicate Ran(stage: Stage) { stage.Started? || stage.Completed? }

  ghost predicate OutcomesRight(g: Engine, models: Models)
    requires ValidModels(models) && |g.jobs| == |g.run.plans|
  {
    forall p :: 0 <= p < |g.jobs| && Ran(g.jobs[p].stage) ==>
      OutcomeOf(models, g.run.plans[p].key.modelName, g.jobs[p].images, g.jobs[p].stage.outcome)
  }

  lemma MoveImages(g: Engine, a: Event)
    requires InOrder(g) && Linked(g) && MovesPlan(a) && CanMove(g, a) && !a.BeginSubmit?
    ensures OneMoved(g, Move(g, a), a, Moved(g, a))
    ensures Move(g, a).jobs[Moved(g, a)].images == g.jobs[Moved(g, a)].images
    ensures a.StartTask? ==> g.executors[a.x].workers[a.w].Moving? && Moved(g, a) == g.executors[a.x].workers[a.w].task
  {
    MoveEffect(g, a);
  }

  lemma MoveOutcomes(g: Engine, a: Event, models: Models)
    requires ValidModels(models) && InOrder(g) && Linked(g) && OutcomesRight(g, models)
    requires MovesPlan(a) && CanMove(g, a) && RunsModel(g, a, models)
    ensures |Move(g, a).jobs| == |Move(g, a).run.plans| && OutcomesRight(Move(g, a), models)
  {
    MoveEffect(g, a);
    if !a.BeginSubmit? { MoveImages(g, a); }
  }

  lemma StepOutcomes(g: Engine, cfg: Config, a: Event, models: Models)
    requires ValidModels(models) && InOrder(g) && Linked(g) && OutcomesRight(g, models)
    requires Can(g, cfg, a) && RunsModel(g, a, models)
    ensures |Step(g, cfg, a).jobs| == |Step(g, cfg, a).run.plans| && OutcomesRight(Step(g, cfg, a), models)
  {
    if MovesPlan(a) { MoveOutcomes(g, a, models); } else { StayEffect(g, cfg, a); }
  }

  lemma {:induction false} RunsOutcomes(g: Engine, cfg: Config, models: Models, events: seq<Event>, end: Engine)
    requires ValidModels(models) && Good(g, cfg) && OutcomesRight(g, models) && LeadsOn(g, cfg, models, events, end)
    ensures Leads(g, cfg, events, end) && Good(end, cfg) && OutcomesRight(end, models)
    decreases |events|
  {
    if events != [] {
      StepGood(g, cfg, events[0]);
      StepOutcomes(g, cfg, events[0], models);
      RunsOutcomes(Step(g, cfg, events[0]), cfg, models, events[1..], end);
    }
  }

  /**
   The text a batch that returns gives for an image: what the single-image path would give; for an
   image that does not decode, what the model makes of a sample of zeros.
   */
  ghost predicate TextFor(m: ModelPipeline, image: Image, text: string)
    requires m.preprocessor.Valid()
  {
    if m.maxBatch <= 1 then text == m.Single(image)
    else if m.preprocessor.ElemCount() <= 0 then text == SHAPE_ERROR
    else if m.preprocessor.Prepared(image).Some? then text == m.Single(image)
    else
      var zeros := Zeros(m.preprocessor.ElemCount());
      m.Run(zeros).Output? && text == m.ResultOf(zeros)
  }

  lemma BatchGives(m: ModelPipeline, images: seq<Image>, i: nat)
    requires m.preprocessor.Valid() && HasRegularOutputs(m) && i < |images| && BatchOutcome(m, images).Returned?
    ensures |BatchOutcome(m, images).results| == |images| && TextFor(m, images[i], BatchOutcome(m, images).results[i])
  {
    BatchIsPredicted(m, images);
    if m.maxBatch > 1 && m.preprocessor.ElemCount() > 0 { assert m.Samples(images)[i] == m.Sample(images[i]); }
  }

  lemma ReadsOwn(g: Engine, cfg: Config, models: Models, p: nat, i: nat)
    requires Good(g, cfg) && ValidModels(models) && OutcomesRight(g, models)
    requires p < |g.run.plans| && i < |g.run.plans[p].items|
    requires var x := g.run.plans[p].items[i];
             && g.run.state.promises[x.id] == [Ok]
             && x.slot.Some? && x.slot.value in g.slots && g.slots[x.slot.value].owner == x.id
    ensures var x, job := g.run.plans[p].items[i], g.jobs[p];
            && Ran(job.stage) && |job.images| == |g.run.plans[p].items| && x.id in g.images && job.images[i] == g.images[x.id]
            && x.modelName in models && job.stage.outcome == BatchOutcome(models[x.modelName], job.images)
            && g.slots[x.slot.value].result == Written(g.run.plans[p], job.stage, i)
            && i < ResultCount(job.stage.outcome, |g.run.plans[p].items|)
  {
    var x, job := g.run.plans[p].items[i], g.jobs[p];
    assert g.run.state.promises[x.id] == Value(g.run.plans[p], job.stage, i);
    PlansHomogeneous(g.run, p, i);
    assert OutcomeOf(models, x.modelName, job.images, job.stage.outcome);
  }

  /** What a request answered "ok" reads: the exception's text, or what its model makes of its own image. */
  ghost predicate ReadsOwnResult(g: Engine, models: Models, p: nat, i: nat)
    requires ValidModels(models) && p < |g.jobs| == |g.run.plans| && i < |g.run.plans[p].items|
    requires g.run.plans[p].items[i].slot.Some? && g.run.plans[p].items[i].slot.value in g.slots
  {
    var x := g.run.plans[p].items[i];
    && x.id in g.images && x.modelName in models
    && var read := g.slots[x.slot.value].result;
       match BatchOutcome(models[x.modelName], g.jobs[p].images)
       case Threw(e) => read == Text(e)
       case Returned(_) => read.Text? && TextFor(models[x.modelName], g.images[x.id], read.text)
       case NoModel => false
  }

  lemma ReadsOwnResultAt(g: Engine, cfg: Config, models: Models, p: nat, i: nat)
    requires Good(g, cfg) && ValidModels(models) && OutcomesRight(g, models)
    requires p < |g.run.plans| && i < |g.run.plans[p].items|
    requires var x := g.run.plans[p].items[i];
             && g.run.state.promises[x.id] == [Ok]
             && x.slot.Some? && x.slot.value in g.slots && g.slots[x.slot.value].owner == x.id
    ensures ReadsOwnResult(g, models, p, i)
  {
    ReadsOwn(g, cfg, models, p, i);
    var job, m := g.jobs[p], models[g.run.plans[p].items[i].modelName];
    if BatchOutcome(m, job.images).Returned? { BatchGives(m, job.images, i); }
  }

  /**
   End to end: a request answered "ok" that still has its slot reads there the exception's text if its
   batch threw, and otherwise what the single-image path of the model it asked for makes of the very
   image it stored (of zeros, when in a batch it does not decode), however requests were batched,
   ordered and interleaved.
   */
  lemma OwnResult(start: Engine, cfg: Config, models: Models, events: seq<Event>, g: Engine, p: nat, i: nat)
    requires ValidModels(models) && Fresh(start) && LeadsOn(start, cfg, models, events, g)
    requires |g.jobs| == |g.run.plans| && p < |g.run.plans| && i < |g.run.plans[p].items|
    requires var x := g.run.plans[p].items[i];
             && x.id in g.run.state.promises && g.run.state.promises[x.id] == [Ok]
             && x.slot.Some? && x.slot.value in g.slots && g.slots[x.slot.value].owner == x.id
    ensures ReadsOwnResult(g, models, p, i)
  {
    FreshGood(start, cfg);
    RunsOutcomes(start, cfg, models, events, g);
    ReadsOwnResultAt(g, cfg, models, p, i);
  }
}
