/** What every step of the batching engine keeps. */
module EngineInvariants {
  import opened Common
  import opened BatchScheduler
  import opened Places
  import opened Engine
  import X = InferenceExecutor

  // ---------------------------------------------------------------- plans and the scheduler thread

  predicate Handed(s: Stage) { s.Accepted? || s.Started? || s.Completed? || s.Refused? }

  ghost predicate InOrder(g: Engine) {
    && |g.jobs| == |g.run.plans| && g.next <= |g.jobs|
    && (forall p :: 0 <= p < g.next ==> Handed(g.jobs[p].stage))
    && (forall p :: g.next < p < |g.jobs| ==> g.jobs[p].stage == Planned)
    && (g.next < |g.jobs| ==> g.jobs[g.next].stage.Planned? || g.jobs[g.next].stage.Submitting?)
    && (g.phase != Dispatching ==> g.next == |g.jobs|)
    && (forall p :: 0 <= p < |g.jobs| && g.jobs[p].stage.Started? ==> g.jobs[p].stage.done <= |g.run.plans[p].items|)
  }

  ghost predicate FuturesKept(g: Engine) {
    forall p :: 0 <= p < |g.jobs| && (g.jobs[p].stage.Accepted? || g.jobs[p].stage.Started?) ==> p in g.pending
  }

  ghost predicate StopOrdered(g: Engine) {
    && (g.phase == Gone ==> g.stop != Serving)
    && (g.stop == Joined || g.stop == Drained ==>
          g.phase == Gone && g.pending == {} && forall p :: 0 <= p < |g.jobs| ==> Over(g.jobs[p].stage))
    && (g.stop == Drained <==> g.run.drained)
  }

  // ---------------------------------------------------------------- plans and executors

  predicate Grips(w: X.Worker) { w.Took? || w.Moving? || w.Running? }

  predicate Waits(w: X.Worker) { w.Took? || w.Moving? }

  ghost predicate SubmitterLinked(g: Engine, x: nat)
    requires x < |g.executors|
  {
    !g.executors[x].submitter.Away? ==>
      && g.executors[x].submitter.task == g.next && g.next < |g.jobs|
      && g.jobs[g.next].stage == Submitting && g.jobs[g.next].executor == x
  }

  ghost predicate PoolLinked(g: Engine, x: nat)
    requires x < |g.executors|
  {
    forall i :: 0 <= i < |g.executors[x].pool| ==>
      var p := g.executors[x].pool[i]; p < |g.jobs| && g.jobs[p].stage == Accepted && g.jobs[p].executor == x
  }

  ghost predicate WorkersLinked(g: Engine, x: nat)
    requires x < |g.executors|
  {
    forall w :: 0 <= w < |g.executors[x].workers| && Grips(g.executors[x].workers[w]) ==>
      var p := g.executors[x].workers[w].task;
      && p < |g.jobs| && g.jobs[p].executor == x
      && (Waits(g.executors[x].workers[w]) ==> g.jobs[p].stage == Accepted)
      && (g.executors[x].workers[w].Running? ==> g.jobs[p].stage.Started?)
  }

  /** A task is in the pool once, or with one worker. */
  ghost predicate HandsApart(e: X.Executor) {
    && NoDuplicates(e.pool)
    && (forall w, i :: 0 <= w < |e.workers| && 0 <= i < |e.pool| && Grips(e.workers[w]) ==> e.workers[w].task != e.pool[i])
    && (forall v, w :: 0 <= v < w < |e.workers| && Grips(e.workers[v]) && Grips(e.workers[w]) ==> e.workers[v].task != e.workers[w].task)
  }

  ghost predicate Linked(g: Engine) {
    forall x :: 0 <= x < |g.executors| ==>
      SubmitterLinked(g, x) && PoolLinked(g, x) && WorkersLinked(g, x) && HandsApart(g.executors[x])
  }

  ghost predicate Holding(e: X.Executor, p: nat) {
    p in e.pool || exists w :: 0 <= w < |e.workers| && Waits(e.workers[w]) && e.workers[w].task == p
  }

  ghost predicate Flying(e: X.Executor, p: nat) {
    exists w :: 0 <= w < |e.workers| && e.workers[w] == X.Running(p)
  }

  /** Nothing is lost: an unfinished plan that has been handed over is in its executor's hands. */
  ghost predicate InHands(g: Engine, p: nat)
    requires p < |g.jobs|
  {
    var x := g.jobs[p].executor;
    match g.jobs[p].stage
    case Submitting => x < |g.executors| && !g.executors[x].submitter.Away? && g.executors[x].submitter.task == p
    case Accepted => x < |g.executors| && Holding(g.executors[x], p)
    case Started(_, _) => x < |g.executors| && Flying(g.executors[x], p)
    case _ => true
  }

  ghost predicate NothingLost(g: Engine) {
    forall p :: 0 <= p < |g.jobs| ==> InHands(g, p)
  }

  // ---------------------------------------------------------------- promises

  ghost predicate PlansAnswered(g: Engine)
    requires |g.jobs| == |g.run.plans|
  {
    forall p, i | 0 <= p < |g.run.plans| && 0 <= i < |g.run.plans[p].items| ::
      && g.run.plans[p].items[i].id in g.run.state.promises
      && g.run.state.promises[g.run.plans[p].items[i].id] == Value(g.run.plans[p], g.jobs[p].stage, i)
  }

  ghost predicate QueuesUnanswered(g: Engine) {
    forall k, i | k in g.run.state.queues && 0 <= i < |g.run.state.queues[k].items| ::
      && g.run.state.queues[k].items[i].id in g.run.state.promises
      && g.run.state.promises[g.run.state.queues[k].items[i].id] == []
  }

  ghost predicate CancelledTold(g: Engine) {
    forall k, i | k in g.run.cancelled && 0 <= i < |g.run.cancelled[k]| ::
      && g.run.cancelled[k][i].id in g.run.state.promises
      && g.run.state.promises[g.run.cancelled[k][i].id] == [Failed(ShuttingDown)]
  }

  ghost predicate AtMostOnce(g: Engine) {
    forall id :: id in g.run.state.promises ==> |g.run.state.promises[id]| <= 1
  }

  /** A promise that was not accepted was told so at once. */
  ghost predicate AcceptedOrTold(g: Engine) {
    forall id :: id in g.run.state.promises ==> AcceptedId(g.run, id) || g.run.state.promises[id] == [Failed(QueueFull)]
  }

  // ---------------------------------------------------------------- slots

  predicate Owns(slots: map<nat, Slot>, item: Item) {
    item.slot.Some? ==> item.slot.value in slots && slots[item.slot.value].owner == item.id
  }

  /** The slot of a waiting or unfinished request is its own. */
  ghost predicate SlotsOwned(g: Engine)
    requires |g.jobs| == |g.run.plans|
  {
    && (forall k, i | k in g.run.state.queues && 0 <= i < |g.run.state.queues[k].items| :: Owns(g.slots, g.run.state.queues[k].items[i]))
    && (forall p, i | 0 <= p < |g.run.plans| && 0 <= i < |g.run.plans[p].items| && !Over(g.jobs[p].stage) ::
          Owns(g.slots, g.run.plans[p].items[i]))
  }

  /** A request acquires at most one slot, and an accepted request that still has it carries it. */
  ghost predicate SlotsCarried(g: Engine) {
    && (forall s, t | s in g.slots && t in g.slots :: g.slots[s].owner == g.slots[t].owner ==> s == t)
    && (forall s, k, n | s in g.slots && k in g.run.accepted && 0 <= n < |g.run.accepted[k]| ::
          g.run.accepted[k][n].id == g.slots[s].owner ==> g.run.accepted[k][n].slot == Some(s))
  }

  /** A slot holds the bytes its owner's handler stored. */
  ghost predicate SlotsFaithful(g: Engine) {
    forall s :: s in g.slots ==> g.slots[s].owner in g.images && g.slots[s].image == g.images[g.slots[s].owner]
  }

  ghost predicate ImagesCollected(g: Engine)
    requires |g.jobs| == |g.run.plans|
  {
    forall p :: 0 <= p < |g.jobs| && g.jobs[p].stage != Planned ==>
      && |g.jobs[p].images| == |g.run.plans[p].items|
      && forall i :: 0 <= i < |g.jobs[p].images| ==>
           if g.run.plans[p].items[i].slot.Some?
           then g.run.plans[p].items[i].id in g.images && g.jobs[p].images[i] == g.images[g.run.plans[p].items[i].id]
           else g.jobs[p].images[i] == []
  }

  /** While its owner holds it, a slot of an answered request holds that request's result. */
  ghost predicate ResultsInPlace(g: Engine)
    requires |g.jobs| == |g.run.plans|
  {
    forall p, i | 0 <= p < |g.run.plans| && 0 <= i < |g.run.plans[p].items| ::
      var item := g.run.plans[p].items[i];
      item.slot.Some? && item.slot.value in g.slots && g.slots[item.slot.value].owner == item.id ==>
        g.slots[item.slot.value].result == Written(g.run.plans[p], g.jobs[p].stage, i)
  }

  /** The slot of a request that no plan has answered is still empty. */
  ghost predicate OthersEmpty(g: Engine) {
    forall s :: s in g.slots && (forall p :: 0 <= p < |g.run.plans| ==> !InPlan(g.run.plans[p], g.slots[s].owner)) ==>
      g.slots[s].result == Empty
  }
}
