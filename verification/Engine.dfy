/**
 The whole batching engine as one step system: request handlers with their pooled slots, the
 scheduler thread, any number of bounded executors with their workers, and shutdown. Steps are the
 critical sections and atomic operations of the original; any interleaving of them is a run.
 Sleeping changes nothing, so it is no step of its own.
 */
module Engine {
  import opened Common
  import opened BatchConfig
  import opened BatchScheduler
  import opened SchedulerRuns
  import X = InferenceExecutor

  type Image = seq<int>

  /** What a slot's result buffer holds: nothing yet, a result, or an error text. */
  datatype Content = Empty | Text(text: string) | Note(why: Failure)

  /** A lent slot: the request it serves, the bytes its handler stored, and the result buffer. */
  datatype Slot = Slot(owner: nat, image: Image, result: Content)

  /** What running a batch gave: no such model, results, or an exception's text. */
  datatype Outcome = NoModel | Returned(results: seq<string>) | Threw(error: string)

  datatype Stage = Planned | Submitting | Accepted | Started(outcome: Outcome, done: nat) | Completed(outcome: Outcome) | Refused

  /** The fate of one plan: the executor it goes to, the images collected for it, how far it is. */
  datatype Job = Job(executor: nat, images: seq<Image>, stage: Stage)

  /** The scheduler thread: at the loop test, inside the loop, handing over ready plans, ended. */
  datatype Phase = AtTop | InLoop | Dispatching | Gone

  datatype Stop = Serving | Requested | Joined | Drained

  /**
   `jobs` runs parallel to `run.plans`; `next` counts the plans handed over so far; `images` records
   what each handler stored; `pending` are the futures the scheduler keeps.
   */
  datatype Engine = Engine(
    run: Run, jobs: seq<Job>, next: nat, phase: Phase, stop: Stop, pending: set<nat>,
    executors: seq<X.Executor>, slots: map<nat, Slot>, images: map<nat, Image>)

  datatype Event =
    | AcquireSlot(slot: nat, id: nat, image: Image)
    | ReleaseSlot(slot: nat)
    | SubmitRequest(item: Item)
    | LoopTest
    | ScanNow(order: seq<SchedulingKey>, now: int, decideAt: SchedulingKey -> int)
    | BeginSubmit(x: nat)
    | EndDispatch
    | Prune(p: nat)
    | Internal(x: nat, step: X.Step)
    | Hand(x: nat)
    | Reject(x: nat)
    | StartTask(x: nat, w: nat, outcome: Outcome)
    | Resolve(x: nat, w: nat)
    | EndTask(x: nat, w: nat)
    | RequestStop
    | Join
    | DrainQueues

  // ---------------------------------------------------------------- answers

  function ResultCount(o: Outcome, n: nat): nat {
    match o case NoModel => 0 case Returned(r) => |r| case Threw(_) => n
  }

  function ReplyFor(o: Outcome, model: string, n: nat, i: nat): Reply {
    if o.NoModel? then Failed(UnknownModel(model))
    else if i < ResultCount(o, n) then Ok
    else Failed(MissingResult(i))
  }

  function ContentFor(o: Outcome, model: string, n: nat, i: nat): Content {
    if o.NoModel? then Note(UnknownModel(model))
    else if i < ResultCount(o, n) then Text(if o.Returned? then o.results[i] else o.error)
    else Note(MissingResult(i))
  }

  /** What the promise at position `i` of a plan has been set to, given the plan's stage. */
  function Value(plan: BatchPlan, stage: Stage, i: nat): seq<Reply> {
    match stage
    case Started(o, done) => if i < done then [ReplyFor(o, plan.key.modelName, |plan.items|, i)] else []
    case Completed(o) => [ReplyFor(o, plan.key.modelName, |plan.items|, i)]
    case Refused => [Failed(ExecutorThrew)]
    case _ => []
  }

  function Written(plan: BatchPlan, stage: Stage, i: nat): Content {
    match stage
    case Started(o, done) => if i < done then ContentFor(o, plan.key.modelName, |plan.items|, i) else Empty
    case Completed(o) => ContentFor(o, plan.key.modelName, |plan.items|, i)
    case Refused => Note(ExecutorThrew)
    case _ => Empty
  }

  predicate Over(stage: Stage) { stage.Completed? || stage.Refused? }

  predicate InPlan(plan: BatchPlan, id: nat) {
    exists i :: 0 <= i < |plan.items| && plan.items[i].id == id
  }

  predicate UsesSlot(plan: BatchPlan, s: nat) {
    exists i :: 0 <= i < |plan.items| && plan.items[i].slot == Some(s)
  }

  /** The collected image of one request; a request without a slot contributes an empty one. */
  function ImageOf(slots: map<nat, Slot>, item: Item): Image {
    if item.slot.Some? && item.slot.value in slots then slots[item.slot.value].image else []
  }

  function Store(slots: map<nat, Slot>, item: Item, c: Content): map<nat, Slot> {
    if item.slot.Some? && item.slot.value in slots
    then slots[item.slot.value := slots[item.slot.value].(result := c)]
    else slots
  }

  function SetPromise(s: State, id: nat, r: Reply): State
    requires id in s.promises
  {
    s.(promises := s.promises[id := s.promises[id] + [r]])
  }

  // ---------------------------------------------------------------- steps

  /** No queue or unfinished plan still refers to the request. */
  ghost predicate Forgotten(g: Engine, id: nat)
    requires |g.jobs| == |g.run.plans|
  {
    id in g.run.state.promises ==>
      && g.run.state.promises[id] != []
      && forall p :: 0 <= p < |g.jobs| && InPlan(g.run.plans[p], id) ==> Over(g.jobs[p].stage)
  }

  predicate IsRunning(g: Engine, x: nat, w: nat) {
    x < |g.executors| && w < |g.executors[x].workers| && g.executors[x].workers[w].Running?
  }

  /** Executor steps that concern no plan's stage. */
  predicate Plain(s: X.Step) {
    s.ReadInflight? || s.ReadQueued? || s.Announce? || s.Take? || s.LeaveQueue? || s.Exit? || s.StopPool?
  }

  /** Events that move one plan to another stage. */
  predicate MovesPlan(a: Event) {
    a.BeginSubmit? || a.Hand? || a.Reject? || a.StartTask? || a.Resolve? || a.EndTask?
  }

  predicate CanMove(g: Engine, a: Event)
    requires |g.jobs| == |g.run.plans| && MovesPlan(a)
  {
    match a
    case BeginSubmit(x) =>
      && g.phase == Dispatching && g.next < |g.jobs| && g.jobs[g.next].stage == Planned
      && x < |g.executors| && g.executors[x].submitter.Away?
    case Hand(x) => x < |g.executors| && X.Enabled(g.executors[x], X.Enqueue)
    case Reject(x) => x < |g.executors| && X.Enabled(g.executors[x], X.Refuse)
    case StartTask(x, w, _) => x < |g.executors| && X.Enabled(g.executors[x], X.EnterFlight(w))
    case Resolve(x, w) =>
      && IsRunning(g, x, w)
      && var p := g.executors[x].workers[w].task;
         p < |g.jobs| && g.jobs[p].stage.Started? && g.jobs[p].stage.done < |g.run.plans[p].items|
    case EndTask(x, w) =>
      && IsRunning(g, x, w)
      && var p := g.executors[x].workers[w].task;
         p < |g.jobs| && g.jobs[p].stage.Started? && g.jobs[p].stage.done == |g.run.plans[p].items|
  }

  /**
   A handler submits a request with the slot it acquired for it, if it acquired one. Stopping again
   (the owner stops the scheduler and its destructor stops it once more) finds no thread to join and
   no future to wait for, and drains the queues again.
   */
  ghost predicate Can(g: Engine, cfg: Config, a: Event)
    requires |g.jobs| == |g.run.plans|
  {
    match a
    case AcquireSlot(s, id, _) => s !in g.slots && id !in g.images && id !in g.run.state.promises
    case ReleaseSlot(s) => s in g.slots && Forgotten(g, g.slots[s].owner)
    case SubmitRequest(item) =>
      && SchedulerRuns.Enabled(g.run, Submit(item))
      && (if item.slot.Some? then item.slot.value in g.slots && g.slots[item.slot.value].owner == item.id
          else item.id !in g.images)
    case LoopTest => g.phase == AtTop
    case ScanNow(order, now, decideAt) => g.phase == InLoop && SchedulerRuns.Enabled(g.run, ScanQueues(order, now, decideAt))
    case EndDispatch => g.phase == Dispatching && g.next == |g.jobs|
    case Prune(p) => p < |g.jobs| && p in g.pending && g.jobs[p].stage.Completed?
    case Internal(x, s) => x < |g.executors| && Plain(s) && X.Enabled(g.executors[x], s)
    case RequestStop => g.stop == Serving
    case Join => g.stop == Requested && g.phase == Gone && forall p :: p in g.pending && p < |g.jobs| ==> g.jobs[p].stage.Completed?
    case DrainQueues => g.stop == Joined || g.stop == Drained
    case _ => CanMove(g, a)
  }

  function SetExecutor(g: Engine, x: nat, e: X.Executor): Engine
    requires x < |g.executors|
  {
    g.(executors := g.executors[x := e])
  }

  function SetStage(g: Engine, p: nat, s: Stage): Engine {
    if p < |g.jobs| then g.(jobs := g.jobs[p := g.jobs[p].(stage := s)]) else g
  }

  ghost function Step(g: Engine, cfg: Config, a: Event): Engine
    requires |g.jobs| == |g.run.plans| && Can(g, cfg, a)
  {
    match a
    case AcquireSlot(s, id, image) => g.(slots := g.slots[s := Slot(id, image, Empty)], images := g.images[id := image])
    case ReleaseSlot(s) => g.(slots := g.slots - {s})
    case SubmitRequest(item) => g.(run := SchedulerRuns.Apply(g.run, cfg, Submit(item)))
    case LoopTest => g.(phase := if g.stop == Serving then InLoop else Gone)
    case ScanNow(order, now, decideAt) => AfterScan(g, SchedulerRuns.Apply(g.run, cfg, ScanQueues(order, now, decideAt)))
    case EndDispatch => g.(phase := AtTop)
    case Prune(p) => g.(pending := g.pending - {p})
    case Internal(x, s) => SetExecutor(g, x, X.Next(g.executors[x], s))
    case RequestStop => g.(stop := Requested)
    case Join => g.(stop := Joined, pending := {})
    case DrainQueues => g.(run := SchedulerRuns.Apply(g.run, cfg, Drain), stop := Drained)
    case _ => Move(g, a)
  }

  function Move(g: Engine, a: Event): Engine
    requires |g.jobs| == |g.run.plans| && MovesPlan(a) && CanMove(g, a)
  {
    match a
    case BeginSubmit(x) =>
      var items := g.run.plans[g.next].items;
      var collected := seq(|items|, i requires 0 <= i < |items| => ImageOf(g.slots, items[i]));
      SetExecutor(g, x, X.Next(g.executors[x], X.Arrive(g.next))).(jobs := g.jobs[g.next := Job(x, collected, Submitting)])
    case Hand(x) =>
      var p := g.executors[x].submitter.task;
      SetStage(SetExecutor(g, x, X.Next(g.executors[x], X.Enqueue)), p, Accepted).(next := g.next + 1, pending := g.pending + {p})
    case Reject(x) => RefusePlan(SetExecutor(g, x, X.Next(g.executors[x], X.Refuse)), g.executors[x].submitter.task)
    case StartTask(x, w, outcome) =>
      SetStage(SetExecutor(g, x, X.Next(g.executors[x], X.EnterFlight(w))), g.executors[x].workers[w].task, Started(outcome, 0))
    case Resolve(x, w) => ResolveNext(g, g.executors[x].workers[w].task)
    case EndTask(x, w) =>
      var p := g.executors[x].workers[w].task;
      SetStage(SetExecutor(g, x, X.Next(g.executors[x], X.Finish(w))), p, Completed(g.jobs[p].stage.outcome))
  }

  function AfterScan(g: Engine, run: Run): Engine
    requires |g.jobs| <= |run.plans|
  {
    g.(run := run, jobs := g.jobs + seq(|run.plans| - |g.jobs|, _ => Job(0, [], Planned)), phase := Dispatching)
  }

  /** The executor threw: every promise of the plan is failed, every slot gets the error text. */
  function RefusePlan(g: Engine, p: nat): Engine {
    if p < |g.run.plans| then
      var plan := g.run.plans[p];
      var st := g.run.state;
      SetStage(g, p, Refused).(
        next := g.next + 1,
        run := g.run.(state := st.(promises := map id | id in st.promises ::
          if InPlan(plan, id) then st.promises[id] + [Failed(ExecutorThrew)] else st.promises[id])),
        slots := map s | s in g.slots ::
          if UsesSlot(plan, s) then g.slots[s].(result := Note(ExecutorThrew)) else g.slots[s])
    else g
  }

  /** The running task writes the next result into its slot and then sets the promise. */
  function ResolveNext(g: Engine, p: nat): Engine
    requires p < |g.jobs| == |g.run.plans| && g.jobs[p].stage.Started? && g.jobs[p].stage.done < |g.run.plans[p].items|
  {
    var plan, stage := g.run.plans[p], g.jobs[p].stage;
    var item := plan.items[stage.done];
    var reply := ReplyFor(stage.outcome, plan.key.modelName, |plan.items|, stage.done);
    var content := ContentFor(stage.outcome, plan.key.modelName, |plan.items|, stage.done);
    SetStage(g, p, Started(stage.outcome, stage.done + 1)).(
      run := g.run.(state := if item.id in g.run.state.promises then SetPromise(g.run.state, item.id, reply) else g.run.state),
      slots := Store(g.slots, item, content))
  }
}
