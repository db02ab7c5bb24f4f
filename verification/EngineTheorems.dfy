/** Results about whole runs of the batching engine: every request is answered exactly once. */
module EngineTheorems {
  import opened BatchConfig
  import opened BatchScheduler
  import opened SchedulerRuns
  import opened Places
  import opened Engine
  import opened EngineInvariants
  import opened EngineRuns
  import opened EngineAnswers
  import X = InferenceExecutor

  ghost predicate Good(g: Engine, cfg: Config) {
    && Ordered(g) && Linked(g) && NothingLost(g) && RunRight(g.run, cfg)
    && PromisesRight(g) && AcceptedOrTold(g) && SlotsRight(g) && SlotsCarried(g)
  }

  /** The engine just started: executors with idle workers, no requests. */
  ghost predicate Fresh(g: Engine) {
    && g.run == Start && g.jobs == [] && g.next == 0 && g.phase == AtTop && g.stop == Serving && g.pending == {}
    && g.slots == map[] && g.images == map[]
    && forall x :: 0 <= x < |g.executors| ==> exists n: int, m: int, hardware: nat :: g.executors[x] == X.New(n, m, hardware)
  }

  ghost predicate Leads(g: Engine, cfg: Config, events: seq<Event>, end: Engine)
    decreases |events|
  {
    if events == [] then g == end
    else |g.jobs| == |g.run.plans| && Can(g, cfg, events[0]) && Leads(Step(g, cfg, events[0]), cfg, events[1..], end)
  }

  lemma FreshLinked(g: Engine)
    requires Fresh(g)
    ensures Linked(g)
  {
    forall x | 0 <= x < |g.executors|
      ensures SubmitterLinked(g, x) && PoolLinked(g, x) && WorkersLinked(g, x) && HandsApart(g.executors[x])
    {
      var n: int, m: int, hardware: nat :| g.executors[x] == X.New(n, m, hardware);
      assert forall w :: 0 <= w < |g.executors[x].workers| ==> g.executors[x].workers[w] == X.Idle;
    }
  }

  lemma FreshRun(cfg: Config)
    ensures RunRight(Start, cfg)
  {
    forall k ensures FifoAt(Start, k) { assert Of([], k) == []; }
  }

  lemma FreshPlans(g: Engine)
    requires g.run == Start && g.jobs == [] && g.next == 0 && g.phase == AtTop && g.stop == Serving
    ensures Ordered(g) && NothingLost(g)
  {
  }

  lemma FreshAnswers(g: Engine)
    requires g.run == Start && g.jobs == [] && g.slots == map[]
    ensures PromisesRight(g) && AcceptedOrTold(g) && SlotsRight(g) && SlotsCarried(g)
  {
  }

  lemma FreshGood(g: Engine, cfg: Config)
    requires Fresh(g)
    ensures Good(g, cfg)
  {
    FreshLinked(g);
    FreshRun(cfg);
    FreshPlans(g);
    FreshAnswers(g);
  }

  lemma StepGood(g: Engine, cfg: Config, a: Event)
    requires Good(g, cfg) && Can(g, cfg, a)
    ensures Good(Step(g, cfg, a), cfg)
  {
    KeepOrdered(g, cfg, a);
    KeepLinked(g, cfg, a);
    KeepNothingLost(g, cfg, a);
    KeepRunRight(g, cfg, a);
    StepAnswersGood(g, cfg, a);
  }

  lemma StepAnswersGood(g: Engine, cfg: Config, a: Event)
    requires Good(g, cfg) && Can(g, cfg, a)
    ensures var g' := Step(g, cfg, a);
            |g'.jobs| == |g'.run.plans| && PromisesRight(g') && AcceptedOrTold(g') && SlotsRight(g') && SlotsCarried(g')
  {
    AllApart(g.run);
    KeepPromisesRight(g, cfg, a);
    KeepAcceptedOrTold(g, cfg, a);
    KeepSlotsRight(g, cfg, a);
    KeepSlotsCarried(g, cfg, a);
  }

  lemma {:induction false} RunsGood(g: Engine, cfg: Config, events: seq<Event>, end: Engine)
    requires Good(g, cfg) && Leads(g, cfg, events, end)
    ensures Good(end, cfg)
    decreases |events|
  {
    if events != [] {
      StepGood(g, cfg, events[0]);
      RunsGood(Step(g, cfg, events[0]), cfg, events[1..], end);
    }
  }

  lemma ReachedGood(start: Engine, cfg: Config, events: seq<Event>, g: Engine)
    requires Fresh(start) && Leads(start, cfg, events, g)
    ensures Good(g, cfg)
  {
    FreshGood(start, cfg);
    RunsGood(start, cfg, events, g);
  }

  lemma {:induction false} LeadsOneMore(g: Engine, cfg: Config, events: seq<Event>, end: Engine, a: Event)
    requires Leads(g, cfg, events, end) && |end.jobs| == |end.run.plans| && Can(end, cfg, a)
    ensures Leads(g, cfg, events + [a], Step(end, cfg, a))
    decreases |events|
  {
    if events == [] {
      assert ([] + [a])[1..] == [];
    } else {
      LeadsOneMore(Step(g, cfg, events[0]), cfg, events[1..], end, a);
      assert (events + [a])[1..] == events[1..] + [a];
    }
  }

  /** Under any configuration the loader accepts, every plan the engine ever makes obeys the batch-size law. */
  lemma EnginePlansLawful(start: Engine, raw: RawConfig, events: seq<Event>, g: Engine)
    requires !Rejected(raw) && Fresh(start) && Leads(start, Load(raw), events, g)
    ensures PlansLawful(g.run, Load(raw))
  {
    LoadedLawful(raw);
    ReachedGood(start, Load(raw), events, g);
  }

  // ---------------------------------------------------------------- where a request is

  /** The request has a place in a plan whose turn has not come yet. */
  ghost predicate PlanPending(g: Engine, id: nat)
    requires |g.jobs| == |g.run.plans|
  {
    exists p, i :: 0 <= p < |g.run.plans| && 0 <= i < |g.run.plans[p].items| && g.run.plans[p].items[i].id == id &&
                   Value(g.run.plans[p], g.jobs[p].stage, i) == []
  }

  ghost predicate InPlace(r: Run, id: nat) {
    || (exists p, i :: 0 <= p < |r.plans| && 0 <= i < |r.plans[p].items| && r.plans[p].items[i].id == id)
    || (exists k, i :: k in r.cancelled && 0 <= i < |r.cancelled[k]| && r.cancelled[k][i].id == id)
    || Waiting(r.state.queues, id)
  }

  lemma {:induction false} OfLocates(plans: seq<BatchPlan>, k: SchedulingKey, x: Item) returns (p: nat, i: nat)
    requires x in Of(plans, k)
    ensures p < |plans| && i < |plans[p].items| && plans[p].key == k && plans[p].items[i] == x
  {
    var n := |plans| - 1;
    if x in Of(plans[..n], k) {
      p, i := OfLocates(plans[..n], k, x);
    } else {
      p := n;
      i :| 0 <= i < |plans[n].items| && plans[n].items[i] == x;
    }
  }

  lemma AcceptedInPlace(r: Run, id: nat)
    requires Fifo(r) && AcceptedId(r, id)
    ensures InPlace(r, id)
  {
    var k, n :| k in r.accepted && 0 <= n < |r.accepted[k]| && r.accepted[k][n].id == id;
    var x := r.accepted[k][n];
    assert FifoAt(r, k);
    if x in Of(r.plans, k) {
      var p, i := OfLocates(r.plans, k, x);
    } else if x in Get(r.cancelled, k) {
      var i :| 0 <= i < |r.cancelled[k]| && r.cancelled[k][i] == x;
    } else {
      var i :| 0 <= i < |r.state.queues[k].items| && r.state.queues[k].items[i] == x;
    }
  }

  lemma InPlaceAccepted(r: Run, id: nat)
    requires Fifo(r) && InPlace(r, id)
    ensures AcceptedId(r, id)
  {
    if p, i :| 0 <= p < |r.plans| && 0 <= i < |r.plans[p].items| && r.plans[p].items[i].id == id {
      PlannedPosition(r, p, i);
    } else if k, i :| k in r.cancelled && 0 <= i < |r.cancelled[k]| && r.cancelled[k][i].id == id {
      CancelledPosition(r, k, i);
    } else {
      var k :| k in r.state.queues && exists i | 0 <= i < |r.state.queues[k].items| :: r.state.queues[k].items[i].id == id;
      var i :| 0 <= i < |r.state.queues[k].items| && r.state.queues[k].items[i].id == id;
      QueuedPosition(r, k, i);
    }
  }

  // ---------------------------------------------------------------- exactly once

  ghost predicate Settled(g: Engine, id: nat)
    requires |g.jobs| == |g.run.plans|
  {
    id in g.run.state.promises && (g.run.state.promises[id] == [] <==> Waiting(g.run.state.queues, id) || PlanPending(g, id))
  }

  lemma PlannedSettled(g: Engine, p: nat, i: nat)
    requires |g.jobs| == |g.run.plans| && Apart(g.run) && PlansAnswered(g) && p < |g.run.plans| && i < |g.run.plans[p].items|
    ensures Settled(g, g.run.plans[p].items[i].id)
  {
    var id := g.run.plans[p].items[i].id;
    assert g.run.state.promises[id] == Value(g.run.plans[p], g.jobs[p].stage, i);
    assert !Waiting(g.run.state.queues, id);
  }

  lemma CancelledSettled(g: Engine, k: SchedulingKey, i: nat)
    requires |g.jobs| == |g.run.plans| && Apart(g.run) && CancelledTold(g) && k in g.run.cancelled && i < |g.run.cancelled[k]|
    ensures Settled(g, g.run.cancelled[k][i].id)
  {
    var id := g.run.cancelled[k][i].id;
    assert !Waiting(g.run.state.queues, id);
    assert !PlanPending(g, id);
  }

  lemma QueuedSettled(g: Engine, id: nat)
    requires |g.jobs| == |g.run.plans| && QueuesUnanswered(g) && Waiting(g.run.state.queues, id)
    ensures Settled(g, id)
  {
  }

  lemma RefusedSettled(g: Engine, id: nat)
    requires |g.jobs| == |g.run.plans| && !InPlace(g.run, id) && id in g.run.state.promises && g.run.state.promises[id] != []
    ensures Settled(g, id)
  {
  }

  lemma AllSettled(g: Engine, cfg: Config, id: nat)
    requires Good(g, cfg) && id in g.run.state.promises
    ensures Settled(g, id)
  {
    AllApart(g.run);
    if AcceptedId(g.run, id) {
      AcceptedInPlace(g.run, id);
      if p, i :| 0 <= p < |g.run.plans| && 0 <= i < |g.run.plans[p].items| && g.run.plans[p].items[i].id == id {
        PlannedSettled(g, p, i);
      } else if k, i :| k in g.run.cancelled && 0 <= i < |g.run.cancelled[k]| && g.run.cancelled[k][i].id == id {
        CancelledSettled(g, k, i);
      } else {
        QueuedSettled(g, id);
      }
    } else {
      if InPlace(g.run, id) { InPlaceAccepted(g.run, id); }
      RefusedSettled(g, id);
    }
  }

  /**
   Every request ever submitted: its promise is set at most once, and it is still unset exactly while
   the request waits in its queue or in a plan position not yet reached. A request that was not
   accepted has been told so.
   */
  lemma AnsweredExactlyOnce(start: Engine, cfg: Config, events: seq<Event>, g: Engine, id: nat)
    requires Fresh(start) && Leads(start, cfg, events, g)
    requires id in g.run.state.promises
    ensures |g.jobs| == |g.run.plans|
    ensures |g.run.state.promises[id]| == if Waiting(g.run.state.queues, id) || PlanPending(g, id) then 0 else 1
    ensures AcceptedId(g.run, id) || g.run.state.promises[id] == [Failed(QueueFull)]
  {
    ReachedGood(start, cfg, events, g);
    AllSettled(g, cfg, id);
  }

  // ---------------------------------------------------------------- shutdown

  /** After a drain every plan is over, so exactly the waiting requests are without an answer. */
  lemma DrainedSettled(g: Engine, cfg: Config, id: nat)
    requires Good(g, cfg) && g.stop == Drained && id in g.run.state.promises
    ensures g.run.state.promises[id] == [] <==> Waiting(g.run.state.queues, id)
  {
    AllSettled(g, cfg, id);
    forall p, i | 0 <= p < |g.run.plans| && 0 <= i < |g.run.plans[p].items|
      ensures Value(g.run.plans[p], g.jobs[p].stage, i) != []
    {
      assert Over(g.jobs[p].stage);
    }
  }

  /** When shutdown has drained the queues, exactly the requests accepted since the last drain are without an answer. */
  lemma ShutdownAnswersAll(start: Engine, cfg: Config, events: seq<Event>, g: Engine, id: nat)
    requires Fresh(start) && Leads(start, cfg, events, g) && g.stop == Drained && id in g.run.state.promises
    ensures |g.run.state.promises[id]| == if Waiting(g.run.state.queues, id) then 0 else 1
  {
    ReachedGood(start, cfg, events, g);
    DrainedSettled(g, cfg, id);
  }

  /** What `id` finds in the state `g'` right after a drain of `g`. */
  ghost predicate ToldByDrain(g: Engine, g': Engine, id: nat)
    requires id in g.run.state.promises
  {
    && g'.run.state.queues == map[] && id in g'.run.state.promises && |g'.run.state.promises[id]| == 1
    && (g.run.state.promises[id] != [] ==> g'.run.state.promises[id] == g.run.state.promises[id])
    && (Waiting(g.run.state.queues, id) ==> g'.run.state.promises[id] == [Failed(ShuttingDown)])
  }

  lemma DrainTells(g: Engine, g': Engine, cfg: Config, id: nat)
    requires QueuesUnanswered(g) && id in g.run.state.promises
    requires Good(g', cfg) && g'.stop == Drained && g'.run == SchedulerRuns.Apply(g.run, cfg, Drain)
    ensures ToldByDrain(g, g', id)
  {
    DrainedSettled(g', cfg, id);
    if Waiting(g.run.state.queues, id) { assert g.run.state.promises[id] == []; }
  }

  /** A drain, the first or a later one, leaves no queue: every request submitted before it is answered right after it. */
  lemma DrainAnswersEarlier(g: Engine, cfg: Config, id: nat)
    requires Good(g, cfg) && Can(g, cfg, DrainQueues) && id in g.run.state.promises
    ensures ToldByDrain(g, Step(g, cfg, DrainQueues), id)
  {
    StepGood(g, cfg, DrainQueues);
    DrainTells(g, Step(g, cfg, DrainQueues), cfg, id);
  }

  /** An answer, once given, never changes. */
  lemma {:induction false} AnswersKept(g: Engine, cfg: Config, events: seq<Event>, end: Engine, id: nat)
    requires Good(g, cfg) && Leads(g, cfg, events, end)
    requires id in g.run.state.promises && g.run.state.promises[id] != []
    ensures id in end.run.state.promises && end.run.state.promises[id] == g.run.state.promises[id]
    decreases |events|
  {
    if events != [] {
      AllApart(g.run);
      StepAnswers(g, cfg, events[0]);
      StepGood(g, cfg, events[0]);
      AnswersKept(Step(g, cfg, events[0]), cfg, events[1..], end, id);
    }
  }

  /** Whatever was submitted before a drain has its answer from then on. */
  lemma {:induction false} DrainAnswers(g: Engine, cfg: Config, events: seq<Event>, end: Engine, id: nat)
    requires Good(g, cfg) && Leads(g, cfg, events, end) && DrainQueues in events && id in g.run.state.promises
    ensures id in end.run.state.promises && end.run.state.promises[id] != []
    decreases |events|
  {
    var a := events[0];
    AllApart(g.run);
    StepGood(g, cfg, a);
    StepAnswers(g, cfg, a);
    if a == DrainQueues {
      DrainAnswersEarlier(g, cfg, id);
      AnswersKept(Step(g, cfg, a), cfg, events[1..], end, id);
    } else {
      assert DrainQueues in events[1..];
      DrainAnswers(Step(g, cfg, a), cfg, events[1..], end, id);
    }
  }

  /** Between drains nobody looks at the queues of a stopped engine. */
  lemma StillWaits(g: Engine, cfg: Config, a: Event, id: nat)
    requires Ordered(g) && Linked(g) && g.stop == Drained && Can(g, cfg, a) && a != DrainQueues && Waiting(g.run.state.queues, id)
    ensures Step(g, cfg, a).stop == Drained && Waiting(Step(g, cfg, a).run.state.queues, id)
  {
    if MovesPlan(a) { MoveEffect(g, a); } else { StillWaitsStay(g, cfg, a, id); }
  }

  lemma StillWaitsStay(g: Engine, cfg: Config, a: Event, id: nat)
    requires Ordered(g) && g.stop == Drained && Can(g, cfg, a) && a != DrainQueues && !MovesPlan(a) && Waiting(g.run.state.queues, id)
    ensures Step(g, cfg, a).stop == Drained && Waiting(Step(g, cfg, a).run.state.queues, id)
  {
    StayEffect(g, cfg, a);
    if a.SubmitRequest? { StillWaitsSubmit(g.run.state, cfg, a.item, id); }
  }

  lemma StillWaitsSubmit(s: State, cfg: Config, item: Item, id: nat)
    requires Waiting(s.queues, id)
    ensures Waiting(SubmitTo(s, cfg, item).queues, id)
  {
    var after := SubmitTo(s, cfg, item).queues;
    var k :| k in s.queues && exists i | 0 <= i < |s.queues[k].items| :: s.queues[k].items[i].id == id;
    var i :| 0 <= i < |s.queues[k].items| && s.queues[k].items[i].id == id;
    assert after[k].items[i] == s.queues[k].items[i];
  }

  lemma {:induction false} NoDrainNoAnswer(g: Engine, cfg: Config, events: seq<Event>, end: Engine, id: nat)
    requires Good(g, cfg) && Leads(g, cfg, events, end) && g.stop == Drained && DrainQueues !in events
    requires Waiting(g.run.state.queues, id)
    ensures id in end.run.state.promises && end.run.state.promises[id] == []
    decreases |events|
  {
    if events != [] {
      StepGood(g, cfg, events[0]);
      StillWaits(g, cfg, events[0], id);
      NoDrainNoAnswer(Step(g, cfg, events[0]), cfg, events[1..], end, id);
    }
  }

  lemma StepStop(g: Engine, cfg: Config, a: Event)
    requires Ordered(g) && Linked(g) && Can(g, cfg, a) && a != DrainQueues && g.stop != Drained
    ensures Step(g, cfg, a).stop != Drained
  {
    if MovesPlan(a) { MoveEffect(g, a); } else { StayEffect(g, cfg, a); }
  }

  lemma {:induction false} DrainedByDrain(g: Engine, cfg: Config, events: seq<Event>, end: Engine)
    requires Good(g, cfg) && Leads(g, cfg, events, end) && g.stop != Drained && DrainQueues !in events
    ensures end.stop != Drained
    decreases |events|
  {
    if events != [] {
      StepGood(g, cfg, events[0]);
      StepStop(g, cfg, events[0]);
      DrainedByDrain(Step(g, cfg, events[0]), cfg, events[1..], end);
    }
  }

  /**
   The exact law of shutdown. In a stopped and drained engine a request accepted at some point of the
   run is without an answer exactly when no drain came after it: stop() must run once more, as the
   scheduler's destructor makes it, for requests accepted after the first drain.
   */
  lemma UnansweredIffNoDrainFollows(start: Engine, cfg: Config, before: seq<Event>, g: Engine, item: Item, after: seq<Event>, end: Engine)
    requires Fresh(start) && Leads(start, cfg, before, g)
    requires |g.jobs| == |g.run.plans| && Can(g, cfg, SubmitRequest(item)) && Accepts(g.run.state, cfg, item)
    requires Leads(Step(g, cfg, SubmitRequest(item)), cfg, after, end) && end.stop == Drained
    ensures item.id in end.run.state.promises
    ensures end.run.state.promises[item.id] == [] <==> DrainQueues !in after
  {
    var g' := Step(g, cfg, SubmitRequest(item));
    ReachedGood(start, cfg, before, g);
    StepGood(g, cfg, SubmitRequest(item));
    AcceptedWaits(g.run.state, cfg, item);
    if DrainQueues in after {
      DrainAnswers(g', cfg, after, end, item.id);
    } else {
      if g'.stop != Drained { DrainedByDrain(g', cfg, after, end); }
      NoDrainNoAnswer(g', cfg, after, end, item.id);
    }
  }

  lemma AcceptedWaits(s: State, cfg: Config, item: Item)
    requires Accepts(s, cfg, item)
    ensures var s' := SubmitTo(s, cfg, item); item.id in s'.promises && Waiting(s'.queues, item.id)
  {
    var items := SubmitTo(s, cfg, item).queues[KeyOf(item)].items;
    assert items[|items| - 1] == item;
  }

  /** Submission never asks whether the engine still runs: after a drain a new request is queued as before. */
  lemma LateSubmissionAccepted(g: Engine, cfg: Config, item: Item)
    requires Good(g, cfg) && g.stop == Drained && item.slot.None? && item.id !in g.run.state.promises && item.id !in g.images
    ensures Can(g, cfg, SubmitRequest(item)) && Step(g, cfg, SubmitRequest(item)).stop == Drained
    ensures |Queued(g.run.state, KeyOf(item))| < Capacity(cfg) ==>
              Queued(Step(g, cfg, SubmitRequest(item)).run.state, KeyOf(item)) == Queued(g.run.state, KeyOf(item)) + [item]
  {
  }
}
