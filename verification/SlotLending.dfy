/**
 Slots under reference counting. Handlers take buffers from the pool, or allocate one when the pool is
 exhausted; the handler and the travelling request each hold references, and a buffer goes back when
 the last is dropped. No step looks at the engine's slots; that every step is a legal step of the
 engine, and so that the engine's slot rules hold, is what is proved here.
 */
module SlotLending {
  import opened Common
  import opened BatchConfig
  import opened BatchScheduler
  import opened SchedulerRuns
  import opened Places
  import opened Engine
  import opened EngineInvariants
  import opened EngineRuns
  import opened EngineAnswers
  import opened EngineTheorems
  import opened EngineResults
  import P = RequestSlotPools

  /**
   One buffer handed out: for which request, by which lease of the pool (none when allocated), how many
   references handlers hold, and whether the submitted request holds one.
   */
  datatype Loan = Loan(slot: nat, id: nat, lease: Option<nat>, hands: nat, carried: bool)

  datatype System = System(engine: Engine, pool: P.Pool, loans: seq<Loan>)

  datatype Act =
    | PoolStep(e: P.Event)
    | HandOut(id: nat, image: Image)
    | Allocate(slot: nat, id: nat, image: Image)
    | CopyPointer(loan: nat)
    | Send(item: Item, loan: nat)
    | SendBare(item: Item)
    | LetGo(loan: nat)
    | Finish(loan: nat)
    | Run(event: Event)

  function Refs(l: Loan): nat { l.hands + if l.carried then 1 else 0 }

  predicate Alive(l: Loan) { Refs(l) > 0 }

  /** The request waits in a queue or sits in a plan that is not over: its item still exists. */
  ghost predicate Travelling(g: Engine, id: nat)
    requires |g.jobs| == |g.run.plans|
  {
    Waiting(g.run.state.queues, id) || exists p :: 0 <= p < |g.jobs| && InPlan(g.run.plans[p], id) && !Over(g.jobs[p].stage)
  }

  // ---------------------------------------------------------------- steps

  /** The scan of an acquire has come to a free slot. */
  predicate Finds(p: P.Pool) { p.scanner.Acquiring? && p.scanner.at < |p.inUse| && !p.inUse[p.scanner.at] }

  predicate NewRequest(g: Engine, id: nat) { id !in g.images && id !in g.run.state.promises }

  function Stored(g: Engine, slot: nat, id: nat, image: Image): Engine {
    g.(slots := g.slots[slot := Slot(id, image, Empty)], images := g.images[id := image])
  }

  /** The lease's count goes up or down with its loan's; an allocated buffer has no lease. */
  ghost predicate Counts(p: P.Pool, lease: Option<nat>, up: bool, p': P.Pool) {
    if lease.None? then p' == p
    else P.StepTo(p, if up then P.Copy(lease.value) else P.Drop(lease.value), p')
  }

  /** A reference is dropped; with the last one the buffer is gone from the engine. */
  ghost predicate Dropped(s: System, i: nat, loan: Loan, s': System)
    requires i < |s.loans|
  {
    && s'.loans == s.loans[i := loan] && Counts(s.pool, loan.lease, false, s'.pool)
    && s'.engine == if Alive(loan) then s.engine else s.engine.(slots := s.engine.slots - {loan.slot})
  }

  ghost predicate Submitted(s: System, cfg: Config, item: Item, s': System)
    requires SchedulerRuns.Enabled(s.engine.run, Submit(item))
  {
    s'.engine == s.engine.(run := SchedulerRuns.Apply(s.engine.run, cfg, Submit(item)))
  }

  ghost predicate PoolMoves(s: System, e: P.Event, s': System) {
    && (e.BeginAcquire? || e.BeginCount? || e.GiveBack? || (e.Look? && !Finds(s.pool)))
    && P.StepTo(s.pool, e, s'.pool) && s'.engine == s.engine && s'.loans == s.loans
  }

  /** The acquire returns a pointer; the handler stores its image through it. */
  ghost predicate HandsOut(s: System, id: nat, image: Image, s': System) {
    && Finds(s.pool) && NewRequest(s.engine, id) && P.StepTo(s.pool, P.Look, s'.pool)
    && s'.engine == Stored(s.engine, s.pool.scanner.at, id, image)
    && s'.loans == s.loans + [Loan(s.pool.scanner.at, id, Some(|s.pool.leases|), 1, false)]
  }

  /** Fresh memory: outside the pool and behind no other reference. */
  ghost predicate Allocates(s: System, slot: nat, id: nat, image: Image, s': System) {
    && |s.pool.inUse| <= slot && (forall i :: 0 <= i < |s.loans| && Alive(s.loans[i]) ==> s.loans[i].slot != slot)
    && NewRequest(s.engine, id) && s'.pool == s.pool && s'.engine == Stored(s.engine, slot, id, image)
    && s'.loans == s.loans + [Loan(slot, id, None, 1, false)]
  }

  ghost predicate Copies(s: System, i: nat, s': System) {
    && i < |s.loans| && s.loans[i].hands > 0 && Counts(s.pool, s.loans[i].lease, true, s'.pool)
    && s'.engine == s.engine && s'.loans == s.loans[i := s.loans[i].(hands := s.loans[i].hands + 1)]
  }

  /** Submission takes a reference of its own; a refused request gives it back at once. */
  ghost predicate Sends(s: System, cfg: Config, item: Item, i: nat, s': System) {
    && SchedulerRuns.Enabled(s.engine.run, Submit(item))
    && i < |s.loans| && s.loans[i].hands > 0 && item.slot == Some(s.loans[i].slot) && item.id == s.loans[i].id
    && Submitted(s, cfg, item, s')
    && (if Accepts(s.engine.run.state, cfg, item)
        then Counts(s.pool, s.loans[i].lease, true, s'.pool) && s'.loans == s.loans[i := s.loans[i].(carried := true)]
        else s'.pool == s.pool && s'.loans == s.loans)
  }

  /** A request without a buffer. */
  ghost predicate SendsBare(s: System, cfg: Config, item: Item, s': System) {
    && SchedulerRuns.Enabled(s.engine.run, Submit(item)) && item.slot.None? && item.id !in s.engine.images
    && Submitted(s, cfg, item, s') && s'.pool == s.pool && s'.loans == s.loans
  }

  /** A handler may drop a reference at any time. */
  ghost predicate LetsGo(s: System, i: nat, s': System) {
    i < |s.loans| && s.loans[i].hands > 0 && Dropped(s, i, LetGone(s.loans[i]), s')
  }

  /** The request's reference lives in its item, so it is dropped once the item is in no queue and no unfinished plan. */
  ghost predicate Finishes(s: System, i: nat, s': System)
    requires |s.engine.jobs| == |s.engine.run.plans|
  {
    && i < |s.loans| && s.loans[i].carried && !Travelling(s.engine, s.loans[i].id)
    && Dropped(s, i, Finished(s.loans[i]), s')
  }

  ghost predicate Works(s: System, cfg: Config, e: Event, s': System)
    requires |s.engine.jobs| == |s.engine.run.plans|
  {
    && !e.AcquireSlot? && !e.ReleaseSlot? && !e.SubmitRequest?
    && Can(s.engine, cfg, e) && s'.engine == Step(s.engine, cfg, e) && s'.pool == s.pool && s'.loans == s.loans
  }

  ghost predicate StepTo(s: System, cfg: Config, a: Act, s': System)
    requires |s.engine.jobs| == |s.engine.run.plans|
  {
    match a
    case PoolStep(e) => PoolMoves(s, e, s')
    case HandOut(id, image) => HandsOut(s, id, image, s')
    case Allocate(slot, id, image) => Allocates(s, slot, id, image, s')
    case CopyPointer(i) => Copies(s, i, s')
    case Send(item, i) => Sends(s, cfg, item, i, s')
    case SendBare(item) => SendsBare(s, cfg, item, s')
    case LetGo(i) => LetsGo(s, i, s')
    case Finish(i) => Finishes(s, i, s')
    case Run(e) => Works(s, cfg, e, s')
  }

  /** Dropping a loan's last reference takes the buffer from the engine. */
  function DropEvent(l: Loan): Option<Event> {
    if Refs(l) == 1 then Some(ReleaseSlot(l.slot)) else None
  }

  /** What the step is for the engine, if anything. */
  function EventOf(s: System, a: Act): Option<Event> {
    match a
    case HandOut(id, image) => if s.pool.scanner.Acquiring? then Some(AcquireSlot(s.pool.scanner.at, id, image)) else None
    case Allocate(slot, id, image) => Some(AcquireSlot(slot, id, image))
    case Send(item, _) => Some(SubmitRequest(item))
    case SendBare(item) => Some(SubmitRequest(item))
    case LetGo(i) => if i < |s.loans| then DropEvent(s.loans[i]) else None
    case Finish(i) => if i < |s.loans| then DropEvent(s.loans[i]) else None
    case Run(e) => Some(e)
    case _ => None
  }

  ghost predicate EngineStep(g: Engine, cfg: Config, e: Option<Event>, g': Engine)
    requires |g.jobs| == |g.run.plans|
  {
    if e.None? then g' == g else Can(g, cfg, e.value) && g' == Step(g, cfg, e.value)
  }

  // ---------------------------------------------------------------- invariant

  /** Each loan's count is its lease's count; allocated buffers lie outside the pool. */
  ghost predicate Counted(s: System, i: nat)
    requires i < |s.loans|
  {
    var loan := s.loans[i];
    match loan.lease
    case None => |s.pool.inUse| <= loan.slot
    case Some(l) =>
      && l < |s.pool.leases| && s.pool.leases[l].slot == loan.slot
      && if Alive(loan) then s.pool.leases[l].phase == P.Live(Refs(loan)) else !s.pool.leases[l].phase.Live?
  }

  ghost predicate LeasesApart(loans: seq<Loan>) {
    forall i, j :: 0 <= i < j < |loans| ==> loans[i].lease.None? || loans[i].lease != loans[j].lease
  }

  ghost predicate Accounted(s: System) {
    (forall i :: 0 <= i < |s.loans| ==> Counted(s, i)) && LeasesApart(s.loans)
  }

  /** The engine's slots are the buffers somebody refers to, each under the name of its request. */
  ghost predicate SlotsAreLoans(s: System) {
    && (forall t :: t in s.engine.slots ==> exists i :: 0 <= i < |s.loans| && Alive(s.loans[i]) && s.loans[i].slot == t)
    && (forall i :: 0 <= i < |s.loans| && Alive(s.loans[i]) ==>
          s.loans[i].slot in s.engine.slots && s.engine.slots[s.loans[i].slot].owner == s.loans[i].id)
  }

  ghost predicate NamesApart(s: System) {
    && (forall i, j :: 0 <= i < j < |s.loans| ==> s.loans[i].id != s.loans[j].id)
    && (forall i :: 0 <= i < |s.loans| ==> s.loans[i].id in s.engine.images)
  }

  ghost predicate CarriedWhileTravelling(s: System)
    requires |s.engine.jobs| == |s.engine.run.plans|
  {
    forall i :: 0 <= i < |s.loans| ==>
      && (Travelling(s.engine, s.loans[i].id) ==> s.loans[i].carried)
      && (s.loans[i].carried ==> s.loans[i].id in s.engine.run.state.promises)
  }

  ghost predicate LoansRight(s: System)
    requires |s.engine.jobs| == |s.engine.run.plans|
  {
    Accounted(s) && SlotsAreLoans(s) && NamesApart(s) && CarriedWhileTravelling(s)
  }

  ghost predicate Lent(s: System, cfg: Config, capacity: nat) {
    Good(s.engine, cfg) && P.Sound(s.pool, capacity) && LoansRight(s)
  }

  // ---------------------------------------------------------------- the rules follow

  /** A slot the scan finds free is behind no reference. */
  lemma FreeIsNotLent(s: System, capacity: nat)
    requires P.Sound(s.pool, capacity) && Accounted(s) && SlotsAreLoans(s) && Finds(s.pool)
    ensures s.pool.scanner.at !in s.engine.slots
  {
    forall i | 0 <= i < |s.loans| && Alive(s.loans[i]) ensures s.loans[i].slot != s.pool.scanner.at { assert Counted(s, i); }
  }

  /** A request whose item is gone has been answered, and no unfinished plan knows it. */
  lemma NotTravellingForgotten(g: Engine, cfg: Config, id: nat)
    requires Good(g, cfg) && !Travelling(g, id)
    ensures Forgotten(g, id)
  {
    if id in g.run.state.promises {
      AllSettled(g, cfg, id);
      forall p, i | 0 <= p < |g.run.plans| && 0 <= i < |g.run.plans[p].items| && g.run.plans[p].items[i].id == id
        ensures Value(g.run.plans[p], g.jobs[p].stage, i) != []
      {
        assert InPlan(g.run.plans[p], id);
      }
    }
  }

  lemma DropReleases(s: System, cfg: Config, capacity: nat, i: nat)
    requires Lent(s, cfg, capacity) && i < |s.loans| && Refs(s.loans[i]) == 1
    requires s.loans[i].hands > 0 || !Travelling(s.engine, s.loans[i].id)
    ensures Can(s.engine, cfg, ReleaseSlot(s.loans[i].slot))
  {
    NotTravellingForgotten(s.engine, cfg, s.loans[i].id);
  }

  lemma HandOutRefines(s: System, cfg: Config, capacity: nat, id: nat, image: Image, s': System)
    requires Lent(s, cfg, capacity) && HandsOut(s, id, image, s')
    ensures EngineStep(s.engine, cfg, EventOf(s, HandOut(id, image)), s'.engine)
  {
    FreeIsNotLent(s, capacity);
  }

  lemma AllocateRefines(s: System, cfg: Config, slot: nat, id: nat, image: Image, s': System)
    requires |s.engine.jobs| == |s.engine.run.plans| && SlotsAreLoans(s) && Allocates(s, slot, id, image, s')
    ensures EngineStep(s.engine, cfg, EventOf(s, Allocate(slot, id, image)), s'.engine)
  {
  }

  lemma SendRefines(s: System, cfg: Config, item: Item, i: nat, s': System)
    requires |s.engine.jobs| == |s.engine.run.plans| && SlotsAreLoans(s) && Sends(s, cfg, item, i, s')
    ensures EngineStep(s.engine, cfg, EventOf(s, Send(item, i)), s'.engine)
  {
    assert Alive(s.loans[i]);
  }

  /** Loan `i` has become `loan` by the loss of one reference: the handler's, or that of a request no longer on its way. */
  ghost predicate OneLess(s: System, i: nat, loan: Loan)
    requires |s.engine.jobs| == |s.engine.run.plans| && i < |s.loans|
  {
    && Refs(loan) == Refs(s.loans[i]) - 1
    && loan.slot == s.loans[i].slot && loan.id == s.loans[i].id && loan.lease == s.loans[i].lease
    && (loan.carried ==> s.loans[i].carried)
    && ((s.loans[i].hands > 0 && loan.carried == s.loans[i].carried) || !Travelling(s.engine, s.loans[i].id))
  }

  function LetGone(l: Loan): Loan
    requires l.hands > 0
  {
    l.(hands := l.hands - 1)
  }

  function Finished(l: Loan): Loan { l.(carried := false) }

  lemma LetGoDrops(s: System, i: nat, s': System)
    requires |s.engine.jobs| == |s.engine.run.plans| && LetsGo(s, i, s')
    ensures OneLess(s, i, LetGone(s.loans[i])) && Dropped(s, i, LetGone(s.loans[i]), s')
    ensures EventOf(s, LetGo(i)) == DropEvent(s.loans[i])
  {
  }

  lemma FinishDrops(s: System, i: nat, s': System)
    requires |s.engine.jobs| == |s.engine.run.plans| && Finishes(s, i, s')
    ensures OneLess(s, i, Finished(s.loans[i])) && Dropped(s, i, Finished(s.loans[i]), s')
    ensures EventOf(s, Finish(i)) == DropEvent(s.loans[i])
  {
  }

  lemma DropRefines(s: System, cfg: Config, capacity: nat, i: nat, loan: Loan, e: Option<Event>, s': System)
    requires Lent(s, cfg, capacity) && i < |s.loans| && OneLess(s, i, loan) && Dropped(s, i, loan, s')
    requires e == DropEvent(s.loans[i])
    ensures EngineStep(s.engine, cfg, e, s'.engine)
  {
    if Refs(s.loans[i]) == 1 { DropReleases(s, cfg, capacity, i); }
  }

  lemma RestRefines(s: System, cfg: Config, a: Act, s': System)
    requires |s.engine.jobs| == |s.engine.run.plans| && StepTo(s, cfg, a, s')
    requires a.PoolStep? || a.CopyPointer? || a.SendBare? || a.Run?
    ensures EngineStep(s.engine, cfg, EventOf(s, a), s'.engine)
  {
  }

  /** Every step of the counting system is a legal step of the engine, or none. */
  lemma StepRefines(s: System, cfg: Config, capacity: nat, a: Act, s': System)
    requires Lent(s, cfg, capacity) && StepTo(s, cfg, a, s')
    ensures EngineStep(s.engine, cfg, EventOf(s, a), s'.engine)
  {
    match a {
      case HandOut(id, image) => HandOutRefines(s, cfg, capacity, id, image, s');
      case Allocate(slot, id, image) => AllocateRefines(s, cfg, slot, id, image, s');
      case Send(item, i) => SendRefines(s, cfg, item, i, s');
      case LetGo(i) => LetGoDrops(s, i, s'); DropRefines(s, cfg, capacity, i, LetGone(s.loans[i]), EventOf(s, a), s');
      case Finish(i) => FinishDrops(s, i, s'); DropRefines(s, cfg, capacity, i, Finished(s.loans[i]), EventOf(s, a), s');
      case _ => RestRefines(s, cfg, a, s');
    }
  }

  lemma EngineStaysGood(g: Engine, cfg: Config, e: Option<Event>, g': Engine)
    requires Good(g, cfg) && EngineStep(g, cfg, e, g')
    ensures Good(g', cfg)
  {
    if e.Some? { StepGood(g, cfg, e.value); }
  }

  // ---------------------------------------------------------------- the counts stay right

  lemma PoolMovesLent(s: System, e: P.Event, s': System)
    requires Accounted(s) && PoolMoves(s, e, s')
    ensures Accounted(s')
  {
    forall i | 0 <= i < |s'.loans| ensures Counted(s', i) { assert Counted(s, i); }
  }

  lemma HandOutAccounted(s: System, id: nat, image: Image, s': System)
    requires Accounted(s) && HandsOut(s, id, image, s')
    ensures Accounted(s')
  {
    forall i | 0 <= i < |s'.loans| ensures Counted(s', i) {
      if i < |s.loans| { assert Counted(s, i); }
    }
    forall i, j | 0 <= i < j < |s'.loans| ensures s'.loans[i].lease.None? || s'.loans[i].lease != s'.loans[j].lease {
      assert Counted(s, i);
    }
  }

  lemma AllocateAccounted(s: System, slot: nat, id: nat, image: Image, s': System)
    requires Accounted(s) && Allocates(s, slot, id, image, s')
    ensures Accounted(s')
  {
    forall i | 0 <= i < |s'.loans| ensures Counted(s', i) {
      if i < |s.loans| { assert Counted(s, i); }
    }
  }

  /** One loan and its lease are counted up or down together. */
  lemma CountAccounted(s: System, i: nat, loan: Loan, up: bool, s': System)
    requires Accounted(s) && i < |s.loans| && Alive(s.loans[i]) && Counts(s.pool, loan.lease, up, s'.pool)
    requires s'.loans == s.loans[i := loan] && loan.lease == s.loans[i].lease && loan.slot == s.loans[i].slot
    requires Refs(loan) == Refs(s.loans[i]) + if up then 1 else -1
    ensures Accounted(s')
  {
    assert Counted(s, i);
    forall j | 0 <= j < |s'.loans| ensures Counted(s', j) { assert Counted(s, j); }
  }

  // ---------------------------------------------------------------- slots and names

  lemma StoredLent(s: System, loan: Loan, image: Image, s': System)
    requires |s.engine.jobs| == |s.engine.run.plans| && Apart(s.engine.run) && QueuesUnanswered(s.engine)
    requires SlotsAreLoans(s) && NamesApart(s) && CarriedWhileTravelling(s)
    requires NewRequest(s.engine, loan.id) && loan.slot !in s.engine.slots && loan.hands == 1 && !loan.carried
    requires s'.engine == Stored(s.engine, loan.slot, loan.id, image) && s'.loans == s.loans + [loan]
    ensures SlotsAreLoans(s') && NamesApart(s') && CarriedWhileTravelling(s')
  {
    NewIsUnknown(s.engine, loan.id);
    StoredSlots(s, loan, image, s');
    assert !Travelling(s'.engine, loan.id);
    forall i | 0 <= i < |s.loans| ensures Travelling(s'.engine, s.loans[i].id) == Travelling(s.engine, s.loans[i].id) {}
  }

  lemma StoredSlots(s: System, loan: Loan, image: Image, s': System)
    requires SlotsAreLoans(s) && loan.slot !in s.engine.slots && Alive(loan)
    requires s'.engine == Stored(s.engine, loan.slot, loan.id, image) && s'.loans == s.loans + [loan]
    ensures SlotsAreLoans(s')
  {
    assert s'.loans[|s.loans|] == loan;
    forall t | t in s'.engine.slots ensures exists i :: 0 <= i < |s'.loans| && Alive(s'.loans[i]) && s'.loans[i].slot == t {
      if t != loan.slot {
        var i :| 0 <= i < |s.loans| && Alive(s.loans[i]) && s.loans[i].slot == t;
        assert s'.loans[i] == s.loans[i];
      }
    }
  }

  /** No slot is behind two loans that are alive. */
  lemma OneLoanPerSlot(s: System, i: nat, j: nat)
    requires SlotsAreLoans(s) && NamesApart(s) && i < |s.loans| && j < |s.loans|
    requires Alive(s.loans[i]) && Alive(s.loans[j]) && s.loans[i].slot == s.loans[j].slot
    ensures i == j
  {
  }

  lemma UpdatedSlots(s: System, i: nat, loan: Loan, s': System)
    requires SlotsAreLoans(s) && NamesApart(s) && i < |s.loans| && Alive(s.loans[i])
    requires s'.loans == s.loans[i := loan] && loan.slot == s.loans[i].slot && loan.id == s.loans[i].id
    requires s'.engine.slots == (if Alive(loan) then s.engine.slots else s.engine.slots - {loan.slot}) && s'.engine.images == s.engine.images
    ensures SlotsAreLoans(s') && NamesApart(s')
  {
    forall t | t in s'.engine.slots ensures exists j :: 0 <= j < |s'.loans| && Alive(s'.loans[j]) && s'.loans[j].slot == t {
      var j :| 0 <= j < |s.loans| && Alive(s.loans[j]) && s.loans[j].slot == t;
      assert s'.loans[j] == if j == i then loan else s.loans[j];
    }
    forall j | 0 <= j < |s'.loans| && Alive(s'.loans[j])
      ensures s'.loans[j].slot in s'.engine.slots && s'.engine.slots[s'.loans[j].slot].owner == s'.loans[j].id
    {
      if s.loans[j].slot == loan.slot { OneLoanPerSlot(s, i, j); }
    }
  }

  // ---------------------------------------------------------------- travelling requests

  lemma SubmitTravels(g: Engine, g': Engine, cfg: Config, item: Item, id: nat)
    requires |g.jobs| == |g.run.plans| && SchedulerRuns.Enabled(g.run, Submit(item))
    requires g' == g.(run := SchedulerRuns.Apply(g.run, cfg, Submit(item)))
    requires Travelling(g', id)
    ensures Travelling(g, id) || (id == item.id && Accepts(g.run.state, cfg, item))
  {
    if Waiting(g'.run.state.queues, id) {
      var queues := g'.run.state.queues;
      var k :| k in queues && exists i | 0 <= i < |queues[k].items| :: queues[k].items[i].id == id;
      var i :| 0 <= i < |queues[k].items| && queues[k].items[i].id == id;
      if k in g.run.state.queues && i < |g.run.state.queues[k].items| {
        assert g.run.state.queues[k].items[i] == queues[k].items[i];
      } else {
        assert queues[k].items[i] == item;
      }
    }
  }

  lemma ScannedTravels(g: Engine, g': Engine, ready: seq<BatchPlan>, id: nat)
    requires |g.jobs| == |g.run.plans| && |g'.jobs| == |g'.run.plans| && g.jobs <= g'.jobs && g'.run.plans == g.run.plans + ready
    requires PlannedFrom(ready, g.run.state.queues) && LeftFrom(g'.run.state.queues, g.run.state.queues)
    requires Travelling(g', id)
    ensures Travelling(g, id)
  {
    var queues, left := g.run.state.queues, g'.run.state.queues;
    if Waiting(left, id) {
      var k :| k in left && exists i | 0 <= i < |left[k].items| :: left[k].items[i].id == id;
      var i :| 0 <= i < |left[k].items| && left[k].items[i].id == id;
      WaitingAt(queues, k, left[k].items[i]);
    } else {
      var p :| 0 <= p < |g'.jobs| && InPlan(g'.run.plans[p], id) && !Over(g'.jobs[p].stage);
      if p < |g.jobs| {
        assert g'.run.plans[p] == g.run.plans[p] && g'.jobs[p] == g.jobs[p];
      } else {
        var plan := ready[p - |g.jobs|];
        assert g'.run.plans[p] == plan;
        var i :| 0 <= i < |plan.items| && plan.items[i].id == id;
        WaitingAt(queues, plan.key, plan.items[i]);
      }
    }
  }

  lemma ScanTravels(g: Engine, cfg: Config, e: Event, id: nat)
    requires InOrder(g) && e.ScanNow? && Can(g, cfg, e)
    requires |Step(g, cfg, e).jobs| == |Step(g, cfg, e).run.plans| && Travelling(Step(g, cfg, e), id)
    ensures Travelling(g, id)
  {
    StayEffect(g, cfg, e);
    ScanItems(g.run.state.queues, e.order, e.now, e.decideAt);
    ScannedTravels(g, Step(g, cfg, e), ScanIn(g.run.state.queues, e.order, e.now, e.decideAt).ready, id);
  }

  lemma WaitingAt(queues: map<SchedulingKey, ModelQueue>, k: SchedulingKey, item: Item)
    requires k in queues && item in queues[k].items
    ensures Waiting(queues, item.id)
  {
    var i :| 0 <= i < |queues[k].items| && queues[k].items[i] == item;
  }

  /** Queues are as before, or gone, and a plan that is not over was not over before. */
  lemma SettledTravels(g: Engine, g': Engine, id: nat)
    requires |g.jobs| == |g.run.plans| == |g'.jobs| && g'.run.plans == g.run.plans
    requires g'.run.state.queues == g.run.state.queues || g'.run.state.queues == map[]
    requires forall p :: 0 <= p < |g.jobs| && !Over(g'.jobs[p].stage) ==> !Over(g.jobs[p].stage)
    requires Travelling(g', id)
    ensures Travelling(g, id)
  {
    if !Waiting(g.run.state.queues, id) {
      var p :| 0 <= p < |g'.jobs| && InPlan(g'.run.plans[p], id) && !Over(g'.jobs[p].stage);
      assert InPlan(g.run.plans[p], id);
    }
  }

  lemma MoveTravels(g: Engine, e: Event, id: nat)
    requires InOrder(g) && Linked(g) && MovesPlan(e) && CanMove(g, e)
    requires |Move(g, e).jobs| == |Move(g, e).run.plans| && Travelling(Move(g, e), id)
    ensures Travelling(g, id)
  {
    MoveEffect(g, e);
    SettledTravels(g, Move(g, e), id);
  }

  lemma StayTravels(g: Engine, cfg: Config, e: Event, id: nat)
    requires InOrder(g) && !MovesPlan(e) && !e.ScanNow? && !e.SubmitRequest? && Can(g, cfg, e)
    requires |Step(g, cfg, e).jobs| == |Step(g, cfg, e).run.plans| && Travelling(Step(g, cfg, e), id)
    ensures Travelling(g, id)
  {
    StayEffect(g, cfg, e);
    SettledTravels(g, Step(g, cfg, e), id);
  }

  /** Only a submission sets a request on its way. */
  lemma WorkTravels(g: Engine, cfg: Config, e: Event, id: nat)
    requires InOrder(g) && Linked(g) && !e.SubmitRequest? && Can(g, cfg, e)
    requires |Step(g, cfg, e).jobs| == |Step(g, cfg, e).run.plans| && Travelling(Step(g, cfg, e), id)
    ensures Travelling(g, id)
  {
    if MovesPlan(e) { MoveTravels(g, e, id); }
    else if e.ScanNow? { ScanTravels(g, cfg, e, id); }
    else { StayTravels(g, cfg, e, id); }
  }

  /** The engine's own steps neither lend nor take back a slot. */
  ghost predicate KeepsLent(g: Engine, g': Engine) {
    && g'.slots.Keys == g.slots.Keys && g'.images == g.images && g.run.state.promises.Keys <= g'.run.state.promises.Keys
    && forall s :: s in g.slots ==> g'.slots[s].owner == g.slots[s].owner
  }

  lemma MoveKeepsLent(g: Engine, e: Event)
    requires |g.jobs| == |g.run.plans| && MovesPlan(e) && CanMove(g, e)
    ensures KeepsLent(g, Move(g, e))
  {
    MoveOnlyPromises(g, e);
  }

  lemma WorkKeepsLent(g: Engine, cfg: Config, e: Event)
    requires |g.jobs| == |g.run.plans| && !e.AcquireSlot? && !e.ReleaseSlot? && !e.SubmitRequest? && Can(g, cfg, e)
    ensures KeepsLent(g, Step(g, cfg, e))
  {
    if MovesPlan(e) { MoveKeepsLent(g, e); }
  }

  lemma KeptLent(s: System, s': System)
    requires SlotsAreLoans(s) && NamesApart(s) && KeepsLent(s.engine, s'.engine) && s'.loans == s.loans
    ensures SlotsAreLoans(s') && NamesApart(s')
  {
    forall t | t in s'.engine.slots ensures exists i :: 0 <= i < |s'.loans| && Alive(s'.loans[i]) && s'.loans[i].slot == t {
      assert t in s.engine.slots;
    }
  }

  // ---------------------------------------------------------------- every step

  lemma WorkLent(s: System, cfg: Config, capacity: nat, e: Event, s': System)
    requires Lent(s, cfg, capacity) && Works(s, cfg, e, s') && Good(s'.engine, cfg)
    ensures Lent(s', cfg, capacity)
  {
    WorkKeepsLent(s.engine, cfg, e);
    KeptLent(s, s');
    forall i | 0 <= i < |s'.loans| ensures Counted(s', i) { assert Counted(s, i); }
    forall i | 0 <= i < |s'.loans| && Travelling(s'.engine, s'.loans[i].id) ensures s'.loans[i].carried {
      WorkTravels(s.engine, cfg, e, s.loans[i].id);
    }
  }

  lemma HandOutLent(s: System, cfg: Config, capacity: nat, id: nat, image: Image, s': System)
    requires Lent(s, cfg, capacity) && HandsOut(s, id, image, s') && Good(s'.engine, cfg)
    ensures Lent(s', cfg, capacity)
  {
    FreeIsNotLent(s, capacity);
    AllApart(s.engine.run);
    P.StepSound(s.pool, P.Look, capacity);
    HandOutAccounted(s, id, image, s');
    StoredLent(s, Loan(s.pool.scanner.at, id, Some(|s.pool.leases|), 1, false), image, s');
  }

  lemma AllocateLent(s: System, cfg: Config, capacity: nat, slot: nat, id: nat, image: Image, s': System)
    requires Lent(s, cfg, capacity) && Allocates(s, slot, id, image, s') && Good(s'.engine, cfg)
    ensures Lent(s', cfg, capacity)
  {
    AllApart(s.engine.run);
    AllocateAccounted(s, slot, id, image, s');
    StoredLent(s, Loan(slot, id, None, 1, false), image, s');
  }

  lemma CountsSound(p: P.Pool, lease: Option<nat>, up: bool, p': P.Pool, capacity: nat)
    requires P.Sound(p, capacity) && Counts(p, lease, up, p')
    ensures P.Sound(p', capacity)
  {
    if lease.Some? { P.StepSound(p, if up then P.Copy(lease.value) else P.Drop(lease.value), capacity); }
  }

  lemma CopyLent(s: System, capacity: nat, i: nat, s': System)
    requires |s.engine.jobs| == |s.engine.run.plans| && P.Sound(s.pool, capacity) && LoansRight(s) && Copies(s, i, s')
    ensures P.Sound(s'.pool, capacity) && LoansRight(s')
  {
    var loan := s.loans[i].(hands := s.loans[i].hands + 1);
    CountsSound(s.pool, loan.lease, true, s'.pool, capacity);
    CountAccounted(s, i, loan, true, s');
    UpdatedSlots(s, i, loan, s');
  }

  lemma DropLent(s: System, capacity: nat, i: nat, loan: Loan, s': System)
    requires |s.engine.jobs| == |s.engine.run.plans| && P.Sound(s.pool, capacity) && LoansRight(s)
    requires i < |s.loans| && OneLess(s, i, loan) && Dropped(s, i, loan, s')
    ensures P.Sound(s'.pool, capacity) && LoansRight(s')
  {
    CountsSound(s.pool, loan.lease, false, s'.pool, capacity);
    CountAccounted(s, i, loan, false, s');
    UpdatedSlots(s, i, loan, s');
    assert forall id :: Travelling(s'.engine, id) == Travelling(s.engine, id);
  }

  lemma SendAcceptedLent(s: System, cfg: Config, capacity: nat, item: Item, i: nat, s': System)
    requires |s.engine.jobs| == |s.engine.run.plans| && P.Sound(s.pool, capacity) && LoansRight(s) && Sends(s, cfg, item, i, s')
    requires Accepts(s.engine.run.state, cfg, item)
    ensures P.Sound(s'.pool, capacity) && LoansRight(s')
  {
    SendCounts(s, cfg, capacity, item, i, s');
    OneCarried(s.loans, i, s'.loans, item.id);
    SubmittedTravels(s, cfg, item, s');
  }

  lemma OneCarried(loans: seq<Loan>, i: nat, loans': seq<Loan>, id: nat)
    requires i < |loans| && loans' == loans[i := loans[i].(carried := true)] && loans[i].id == id
    requires forall j :: 0 <= j < |loans| && loans[j].id == id ==> j == i
    ensures |loans'| == |loans| && forall j :: 0 <= j < |loans| ==> loans'[j].id == loans[j].id && (loans[j].carried ==> loans'[j].carried)
    ensures forall j :: 0 <= j < |loans| && loans'[j].carried ==> loans[j].carried || loans[j].id == id
    ensures forall j :: 0 <= j < |loans| && loans[j].id == id ==> loans'[j].carried
  {
  }

  lemma SendCounts(s: System, cfg: Config, capacity: nat, item: Item, i: nat, s': System)
    requires |s.engine.jobs| == |s.engine.run.plans| && P.Sound(s.pool, capacity) && LoansRight(s) && Sends(s, cfg, item, i, s')
    requires Accepts(s.engine.run.state, cfg, item)
    ensures P.Sound(s'.pool, capacity) && Accounted(s') && SlotsAreLoans(s') && NamesApart(s')
  {
    var loan := s.loans[i].(carried := true);
    assert !s.loans[i].carried;
    CountsSound(s.pool, loan.lease, true, s'.pool, capacity);
    CountAccounted(s, i, loan, true, s');
    UpdatedSlots(s, i, loan, s');
  }

  lemma SendRefusedLent(s: System, cfg: Config, item: Item, s': System)
    requires |s.engine.jobs| == |s.engine.run.plans| && LoansRight(s)
    requires SchedulerRuns.Enabled(s.engine.run, Submit(item)) && Submitted(s, cfg, item, s')
    requires s'.pool == s.pool && s'.loans == s.loans
    requires forall j :: 0 <= j < |s.loans| && s.loans[j].id == item.id ==> !Accepts(s.engine.run.state, cfg, item)
    ensures LoansRight(s')
  {
    KeptLent(s, s');
    forall j | 0 <= j < |s'.loans| ensures Counted(s', j) { assert Counted(s, j); }
    SubmittedTravels(s, cfg, item, s');
  }

  lemma SendLent(s: System, cfg: Config, capacity: nat, item: Item, i: nat, s': System)
    requires |s.engine.jobs| == |s.engine.run.plans| && P.Sound(s.pool, capacity) && LoansRight(s) && Sends(s, cfg, item, i, s')
    ensures P.Sound(s'.pool, capacity) && LoansRight(s')
  {
    if Accepts(s.engine.run.state, cfg, item) { SendAcceptedLent(s, cfg, capacity, item, i, s'); }
    else { SendRefusedLent(s, cfg, item, s'); }
  }

  /** Submitting sets at most the submitted request on its way. */
  lemma SubmittedTravels(s: System, cfg: Config, item: Item, s': System)
    requires |s.engine.jobs| == |s.engine.run.plans| && CarriedWhileTravelling(s)
    requires SchedulerRuns.Enabled(s.engine.run, Submit(item)) && Submitted(s, cfg, item, s') && |s'.loans| == |s.loans|
    requires forall j :: 0 <= j < |s.loans| ==> s'.loans[j].id == s.loans[j].id && (s.loans[j].carried ==> s'.loans[j].carried)
    requires forall j :: 0 <= j < |s.loans| && s'.loans[j].carried ==> s.loans[j].carried || s.loans[j].id == item.id
    requires forall j :: 0 <= j < |s.loans| && s.loans[j].id == item.id && Accepts(s.engine.run.state, cfg, item) ==> s'.loans[j].carried
    ensures CarriedWhileTravelling(s')
  {
    forall j | 0 <= j < |s'.loans| && Travelling(s'.engine, s'.loans[j].id) ensures s'.loans[j].carried {
      SubmitTravels(s.engine, s'.engine, cfg, item, s.loans[j].id);
    }
  }

  lemma PoolStepLent(s: System, capacity: nat, e: P.Event, s': System)
    requires |s.engine.jobs| == |s.engine.run.plans| && P.Sound(s.pool, capacity) && LoansRight(s) && PoolMoves(s, e, s')
    ensures P.Sound(s'.pool, capacity) && LoansRight(s')
  {
    P.StepSound(s.pool, e, capacity);
    PoolMovesLent(s, e, s');
    KeptLent(s, s');
  }

  lemma StepLent(s: System, cfg: Config, capacity: nat, a: Act, s': System)
    requires Lent(s, cfg, capacity) && StepTo(s, cfg, a, s')
    ensures Lent(s', cfg, capacity)
  {
    StepRefines(s, cfg, capacity, a, s');
    EngineStaysGood(s.engine, cfg, EventOf(s, a), s'.engine);
    if a.Run? { WorkLent(s, cfg, capacity, a.event, s'); }
    else if a.HandOut? { HandOutLent(s, cfg, capacity, a.id, a.image, s'); }
    else if a.Allocate? { AllocateLent(s, cfg, capacity, a.slot, a.id, a.image, s'); }
    else { LoanStepLent(s, cfg, capacity, a, s'); }
  }

  lemma LoanStepLent(s: System, cfg: Config, capacity: nat, a: Act, s': System)
    requires |s.engine.jobs| == |s.engine.run.plans| == |s'.engine.run.plans| && |s'.engine.jobs| == |s'.engine.run.plans|
    requires P.Sound(s.pool, capacity) && LoansRight(s) && StepTo(s, cfg, a, s') && !a.Run? && !a.HandOut? && !a.Allocate?
    ensures P.Sound(s'.pool, capacity) && LoansRight(s')
  {
    match a {
      case PoolStep(e) => PoolStepLent(s, capacity, e, s');
      case CopyPointer(i) => CopyLent(s, capacity, i, s');
      case Send(item, i) => SendLent(s, cfg, capacity, item, i, s');
      case SendBare(item) => SendRefusedLent(s, cfg, item, s');
      case LetGo(i) => LetGoDrops(s, i, s'); DropLent(s, capacity, i, LetGone(s.loans[i]), s');
      case Finish(i) => FinishDrops(s, i, s'); DropLent(s, capacity, i, Finished(s.loans[i]), s');
    }
  }

  // ---------------------------------------------------------------- whole runs

  ghost predicate Begun(s: System, capacity: nat) {
    Fresh(s.engine) && s.pool == P.Fresh(capacity) && s.loans == []
  }

  /** `states` are the states passed, `acts` the steps between them. */
  ghost predicate Passes(states: seq<System>, cfg: Config, acts: seq<Act>) {
    && |states| == |acts| + 1
    && forall n :: 0 <= n < |acts| ==>
         |states[n].engine.jobs| == |states[n].engine.run.plans| && StepTo(states[n], cfg, acts[n], states[n + 1])
  }

  /** The engine's part of a run. */
  function EventsOf(states: seq<System>, acts: seq<Act>): seq<Event>
    requires |states| == |acts| + 1
    decreases |acts|
  {
    if acts == [] then []
    else
      var n := |acts| - 1;
      EventsOf(states[..n + 1], acts[..n]) + match EventOf(states[n], acts[n]) case Some(e) => [e] case None => []
  }

  lemma {:induction false} RunsLent(states: seq<System>, cfg: Config, capacity: nat, acts: seq<Act>)
    requires Passes(states, cfg, acts) && Begun(states[0], capacity)
    ensures Lent(states[|acts|], cfg, capacity)
    decreases |acts|
  {
    if acts == [] {
      BegunLent(states[0], cfg, capacity);
    } else {
      var n := |acts| - 1;
      PassesBefore(states, cfg, acts);
      RunsLent(states[..n + 1], cfg, capacity, acts[..n]);
      StepLent(states[n], cfg, capacity, acts[n], states[n + 1]);
    }
  }

  lemma PassesBefore(states: seq<System>, cfg: Config, acts: seq<Act>)
    requires acts != [] && Passes(states, cfg, acts)
    ensures var n := |acts| - 1;
            && Passes(states[..n + 1], cfg, acts[..n]) && states[..n + 1][0] == states[0] && states[..n + 1][n] == states[n]
            && |states[n].engine.jobs| == |states[n].engine.run.plans| && StepTo(states[n], cfg, acts[n], states[n + 1])
  {
  }

  /**
   Refinement: every run of handlers, pool and engine under reference counting is a run of the engine
   whose slots come and go by its own rules, so all results about those runs apply.
   */
  lemma {:induction false} RunsRefine(states: seq<System>, cfg: Config, capacity: nat, acts: seq<Act>)
    requires Passes(states, cfg, acts) && Begun(states[0], capacity)
    ensures Leads(states[0].engine, cfg, EventsOf(states, acts), states[|acts|].engine)
    decreases |acts|
  {
    if acts != [] {
      var n := |acts| - 1;
      PassesBefore(states, cfg, acts);
      RunsLent(states[..n + 1], cfg, capacity, acts[..n]);
      RunsRefine(states[..n + 1], cfg, capacity, acts[..n]);
      StepRefines(states[n], cfg, capacity, acts[n], states[n + 1]);
      LeadsMaybeOneMore(states[0].engine, cfg, EventsOf(states[..n + 1], acts[..n]), states[n].engine, EventOf(states[n], acts[n]), states[n + 1].engine);
    }
  }

  lemma LeadsMaybeOneMore(g: Engine, cfg: Config, events: seq<Event>, end: Engine, e: Option<Event>, end': Engine)
    requires Leads(g, cfg, events, end) && |end.jobs| == |end.run.plans| && EngineStep(end, cfg, e, end')
    ensures Leads(g, cfg, events + (match e case Some(a) => [a] case None => []), end')
  {
    if e.Some? { LeadsOneMore(g, cfg, events, end, e.value); }
    else { assert events + [] == events; }
  }

  lemma BegunLent(s: System, cfg: Config, capacity: nat)
    requires Begun(s, capacity)
    ensures Lent(s, cfg, capacity)
  {
    FreshGood(s.engine, cfg);
    P.EveryPoolRun(s.pool, capacity, []);
  }

  /**
   In every run no buffer is behind two live loans, so no handler is ever given a buffer that another
   handler, or a request still on its way, refers to; and a buffer that anyone refers to is its
   request's own in the engine.
   */
  lemma SlotsExclusive(states: seq<System>, cfg: Config, capacity: nat, acts: seq<Act>, i: nat, j: nat)
    requires Passes(states, cfg, acts) && Begun(states[0], capacity)
    requires var s := states[|acts|]; i < |s.loans| && j < |s.loans| && Alive(s.loans[i]) && Alive(s.loans[j])
    ensures var s := states[|acts|];
            && (s.loans[i].slot == s.loans[j].slot ==> i == j)
            && s.loans[i].slot in s.engine.slots && s.engine.slots[s.loans[i].slot].owner == s.loans[i].id
  {
    RunsLent(states, cfg, capacity, acts);
    var s := states[|acts|];
    if s.loans[i].slot == s.loans[j].slot { OneLoanPerSlot(s, i, j); }
  }

  /** A request on its way still refers to its buffer, whatever its handler has let go of. */
  lemma TravelsWithSlot(states: seq<System>, cfg: Config, capacity: nat, acts: seq<Act>, p: nat, n: nat)
    requires Passes(states, cfg, acts) && Begun(states[0], capacity)
    requires var g := states[|acts|].engine;
             |g.jobs| == |g.run.plans| && p < |g.run.plans| && n < |g.run.plans[p].items| && !Over(g.jobs[p].stage) && g.run.plans[p].items[n].slot.Some?
    ensures var s := states[|acts|];
            var x := s.engine.run.plans[p].items[n];
            exists i :: 0 <= i < |s.loans| && s.loans[i].carried && s.loans[i].slot == x.slot.value && s.loans[i].id == x.id
  {
    RunsLent(states, cfg, capacity, acts);
    var s := states[|acts|];
    var x := s.engine.run.plans[p].items[n];
    assert Owns(s.engine.slots, x);
    var i :| 0 <= i < |s.loans| && Alive(s.loans[i]) && s.loans[i].slot == x.slot.value;
    assert InPlan(s.engine.run.plans[p], x.id) && Travelling(s.engine, x.id);
  }

  /** A handler that still refers to the buffer of its answered request reads there what goes with the reply. */
  lemma HandlerReads(states: seq<System>, cfg: Config, capacity: nat, acts: seq<Act>, i: nat)
    requires Passes(states, cfg, acts) && Begun(states[0], capacity)
    requires var s := states[|acts|];
             && i < |s.loans| && s.loans[i].hands > 0
             && s.loans[i].id in s.engine.run.state.promises && s.engine.run.state.promises[s.loans[i].id] != []
    ensures var s := states[|acts|];
            && s.loans[i].slot in s.engine.slots
            && BufferTells(s.engine.slots[s.loans[i].slot].result, s.engine.run.state.promises[s.loans[i].id][0])
  {
    RunsLent(states, cfg, capacity, acts);
    BufferOfAnswered(states[|acts|].engine, cfg, states[|acts|].loans[i].slot);
  }
}
