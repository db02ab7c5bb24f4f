/**
 Whole runs of the scheduler's shared state: any interleaving of submissions, scans and the final
 drain. First-in first-out conservation, the batch-size law for every plan ever made, and the
 soundness of the sleep between scans.
 */
module SchedulerRuns {
  import opened Common
  import opened BatchConfig
  import opened BatchScheduler

  /** What the decision behind a plan saw: how many requests waited, and how long the head had. */
  datatype Taking = Taking(waiting: nat, waitUs: int)

  /**
   `accepted`, `plans` and `cancelled` record, per key or overall, what has happened so far;
   `takings` runs parallel to `plans`.
   */
  datatype Run = Run(state: State, accepted: map<SchedulingKey, seq<Item>>, plans: seq<BatchPlan>, takings: seq<Taking>,
                     cancelled: map<SchedulingKey, seq<Item>>, drained: bool)

  const Start := Run(State(map[], map[], 0, 0), map[], [], [], map[], false)

  datatype Action =
    | Submit(item: Item)
    | ScanQueues(order: seq<SchedulingKey>, now: int, decideAt: SchedulingKey -> int)
    | Drain

  function Get<T>(m: map<SchedulingKey, seq<T>>, k: SchedulingKey): seq<T> {
    if k in m then m[k] else []
  }

  function Queued(s: State, k: SchedulingKey): seq<Item> {
    if k in s.queues then s.queues[k].items else []
  }

  /** The requests of key `k` in the plans, in the order they were taken. */
  function Of(plans: seq<BatchPlan>, k: SchedulingKey): seq<Item> {
    if plans == [] then []
    else
      var last := plans[|plans| - 1];
      Of(plans[..|plans| - 1], k) + (if last.key == k then last.items else [])
  }

  /** A promise is created once, and the scheduler thread is gone before the drain. */
  ghost predicate Enabled(r: Run, a: Action) {
    match a
    case Submit(item) => item.id !in r.state.promises
    case ScanQueues(order, now, decideAt) => !r.drained && Covers(order, r.state.queues)
    case Drain => true
  }

  /** Every queue is visited once, so a plan's decision saw the queue as it was when the scan began. */
  function Takings(queues: map<SchedulingKey, ModelQueue>, ready: seq<BatchPlan>, decideAt: SchedulingKey -> int): (t: seq<Taking>)
    ensures |t| == |ready|
  {
    seq(|ready|, i requires 0 <= i < |ready| =>
      var k := ready[i].key;
      if k in queues && queues[k].items != []
      then Taking(|queues[k].items|, OldestWaitUs(queues[k].items, decideAt(k)))
      else Taking(0, 0))
  }

  ghost function Apply(r: Run, cfg: Config, a: Action): Run
    requires Enabled(r, a)
  {
    match a
    case Submit(item) =>
      r.(state := SubmitTo(r.state, cfg, item),
         accepted := if Accepts(r.state, cfg, item)
                     then r.accepted[KeyOf(item) := Get(r.accepted, KeyOf(item)) + [item]]
                     else r.accepted)
    case ScanQueues(order, now, decideAt) =>
      var scan := ScanIn(r.state.queues, order, now, decideAt);
      r.(state := r.state.(queues := scan.queues), plans := r.plans + scan.ready,
         takings := r.takings + Takings(r.state.queues, scan.ready, decideAt))
    case Drain =>
      r.(state := DrainAll(r.state),
         cancelled := map k | k in r.cancelled.Keys + r.state.queues.Keys :: Get(r.cancelled, k) + Queued(r.state, k),
         drained := true)
  }

  ghost predicate Runs(r: Run, cfg: Config, actions: seq<Action>, end: Run)
    decreases |actions|
  {
    if actions == [] then end == r
    else Enabled(r, actions[0]) && Runs(Apply(r, cfg, actions[0]), cfg, actions[1..], end)
  }

  // ---------------------------------------------------------------- first in, first out

  /** What was taken, then what was cancelled, then what still waits, is what was accepted, in order. */
  ghost predicate FifoAt(r: Run, k: SchedulingKey) {
    Get(r.accepted, k) == Of(r.plans, k) + Get(r.cancelled, k) + Queued(r.state, k)
  }

  ghost predicate Fifo(r: Run) {
    forall k :: FifoAt(r, k)
  }

  ghost predicate ConfigsResolved(r: Run, cfg: Config) {
    forall k :: k in r.state.queues ==> r.state.queues[k].config == Resolve(cfg, k.modelName)
  }

  ghost predicate KeysRight(r: Run) {
    forall k, n :: k in r.accepted && 0 <= n < |r.accepted[k]| ==> KeyOf(r.accepted[k][n]) == k
  }

  ghost predicate Tidy(r: Run, cfg: Config) {
    && (!r.drained ==> r.cancelled == map[])
    && ConfigsResolved(r, cfg)
    && KeysRight(r)
  }

  /** Accepted requests have pairwise different promises. */
  ghost predicate Distinct(r: Run) {
    && (forall k, n :: k in r.accepted && 0 <= n < |r.accepted[k]| ==> r.accepted[k][n].id in r.state.promises)
    && (forall j, m, k, n | j in r.accepted && k in r.accepted && 0 <= m < |r.accepted[j]| && 0 <= n < |r.accepted[k]| ::
          r.accepted[j][m].id == r.accepted[k][n].id ==> j == k && m == n)
  }

  ghost predicate PlansLawful(r: Run, cfg: Config) { AllLawful(r.plans, r.takings, cfg) }

  ghost predicate AllLawful(plans: seq<BatchPlan>, takings: seq<Taking>, cfg: Config) {
    && |takings| == |plans|
    && forall p :: 0 <= p < |plans| ==> PlanLawful(plans[p], takings[p], Resolve(cfg, plans[p].key.modelName))
  }

  /** The batch-size law of one plan, given what its decision saw. */
  predicate PlanLawful(p: BatchPlan, t: Taking, c: QueueConfig) {
    && 1 <= |p.items| <= t.waiting && |p.items| <= c.maxBatchSize
    && match p.reason
       case MAX_BATCH => |p.items| == c.maxBatchSize
       case PREFERRED => t.waiting < c.maxBatchSize && |p.items| in c.preferred && forall s :: s in c.preferred && s <= t.waiting ==> s <= |p.items|
       case TIMEOUT => |p.items| == t.waiting && (forall s :: s in c.preferred ==> t.waiting < s) && t.waitUs >= c.maxQueueDelayUs
       case SHUTDOWN => false
  }

  lemma {:induction false} OfAppend(a: seq<BatchPlan>, b: seq<BatchPlan>, k: SchedulingKey)
    ensures Of(a + b, k) == Of(a, k) + Of(b, k)
    decreases |b|
  {
    if b == [] {
      assert a + b == a;
    } else {
      var b' := b[..|b| - 1];
      OfAppend(a, b', k);
      assert (a + b)[..|a + b| - 1] == a + b';
    }
  }

  lemma OfOne(plan: BatchPlan, k: SchedulingKey)
    ensures Of([plan], k) == if plan.key == k then plan.items else []
  {
    assert [plan][..0] == [];
  }

  lemma Prefix<T>(a: seq<T>, s: seq<T>, n: nat)
    requires n <= |s|
    ensures a + s[..n] + s[n..] == a + s
    ensures a + [] == a
  {
    assert s == s[..n] + s[n..];
  }

  /** One visit moves a prefix of one queue into a plan and touches nothing else. */
  lemma VisitConserves(acc: Scan, key: SchedulingKey, now: int, decideAt: int, k: SchedulingKey)
    requires key in acc.queues && k in acc.queues
    ensures var r := Visit(acc, key, now, decideAt);
            Of(r.ready, k) + r.queues[k].items == Of(acc.ready, k) + acc.queues[k].items
  {
    var mq := acc.queues[key];
    match Taken(mq, now, decideAt) {
      case Wait =>
      case Take(count, reason) =>
        var plan := BatchPlan(key, mq.items[..count], reason);
        OfAppend(acc.ready, [plan], k);
        OfOne(plan, k);
        Prefix(Of(acc.ready, k), mq.items, count);
    }
  }

  lemma {:induction false} ScanConserves(queues: map<SchedulingKey, ModelQueue>, order: seq<SchedulingKey>, now: int,
                                         decideAt: SchedulingKey -> int, k: SchedulingKey)
    requires forall key :: key in order ==> key in queues
    requires k in queues
    ensures var r := ScanIn(queues, order, now, decideAt); Of(r.ready, k) + r.queues[k].items == queues[k].items
    decreases |order|
  {
    if order != [] {
      var rest := order[..|order| - 1];
      ScanConserves(queues, rest, now, decideAt, k);
      VisitConserves(ScanIn(queues, rest, now, decideAt), order[|order| - 1], now, decideAt(order[|order| - 1]), k);
    }
  }

  lemma {:induction false} ScanPlansOnlyQueues(queues: map<SchedulingKey, ModelQueue>, order: seq<SchedulingKey>, now: int,
                                               decideAt: SchedulingKey -> int)
    requires forall key :: key in order ==> key in queues
    ensures forall p :: p in ScanIn(queues, order, now, decideAt).ready ==> p.key in queues
    decreases |order|
  {
    if order != [] { ScanPlansOnlyQueues(queues, order[..|order| - 1], now, decideAt); }
  }

  lemma {:induction false} OfNone(plans: seq<BatchPlan>, k: SchedulingKey)
    requires forall p :: p in plans ==> p.key != k
    ensures Of(plans, k) == []
  {
    if plans != [] {
      assert plans[|plans| - 1] in plans;
      OfNone(plans[..|plans| - 1], k);
    }
  }

  lemma ScanFifo(r: Run, cfg: Config, a: Action, k: SchedulingKey)
    requires FifoAt(r, k) && Enabled(r, a) && a.ScanQueues? && r.cancelled == map[]
    ensures FifoAt(Apply(r, cfg, a), k)
  {
    var scan := ScanIn(r.state.queues, a.order, a.now, a.decideAt);
    var before, taken, left := Of(r.plans, k), Of(scan.ready, k), if k in scan.queues then scan.queues[k].items else [];
    OfAppend(r.plans, scan.ready, k);
    assert before + [] == before && before + taken + [] == before + taken;
    if k in r.state.queues {
      ScanConserves(r.state.queues, a.order, a.now, a.decideAt, k);
      Associative(before, taken, left);
    } else {
      ScanPlansOnlyQueues(r.state.queues, a.order, a.now, a.decideAt);
      OfNone(scan.ready, k);
    }
  }

  lemma Associative<T>(a: seq<T>, b: seq<T>, c: seq<T>)
    ensures a + b + c == a + (b + c)
    ensures a + b + [] + c == a + (b + c)
    ensures a + [] + c == a + c
  {
  }

  lemma SubmitFifo(r: Run, cfg: Config, item: Item, k: SchedulingKey)
    requires FifoAt(r, k) && Enabled(r, Submit(item))
    ensures FifoAt(Apply(r, cfg, Submit(item)), k)
  {
    if k == KeyOf(item) && Accepts(r.state, cfg, item) {
      Associative(Of(r.plans, k) + Get(r.cancelled, k), Queued(r.state, k), [item]);
    }
  }

  lemma DrainFifo(r: Run, cfg: Config, k: SchedulingKey)
    requires FifoAt(r, k)
    ensures FifoAt(Apply(r, cfg, Drain), k)
  {
    var r' := Apply(r, cfg, Drain);
    assert Get(r'.cancelled, k) == Get(r.cancelled, k) + Queued(r.state, k);
    Associative(Of(r.plans, k), Get(r.cancelled, k), Queued(r.state, k));
  }

  lemma ApplyFifo(r: Run, cfg: Config, a: Action)
    requires Fifo(r) && Tidy(r, cfg) && Enabled(r, a)
    ensures Fifo(Apply(r, cfg, a))
  {
    forall k ensures FifoAt(Apply(r, cfg, a), k) {
      assert FifoAt(r, k);
      match a {
        case ScanQueues(order, now, decideAt) => ScanFifo(r, cfg, a, k);
        case Submit(item) => SubmitFifo(r, cfg, item, k);
        case Drain => DrainFifo(r, cfg, k);
      }
    }
  }

  lemma SubmitConfigs(r: Run, cfg: Config, item: Item)
    requires ConfigsResolved(r, cfg) && Enabled(r, Submit(item))
    ensures ConfigsResolved(Apply(r, cfg, Submit(item)), cfg)
  {
  }

  lemma ApplyConfigs(r: Run, cfg: Config, a: Action)
    requires ConfigsResolved(r, cfg) && Enabled(r, a)
    ensures ConfigsResolved(Apply(r, cfg, a), cfg)
  {
    if a.Submit? { SubmitConfigs(r, cfg, a.item); }
  }

  lemma ApplyKeys(r: Run, cfg: Config, a: Action)
    requires KeysRight(r) && Enabled(r, a)
    ensures KeysRight(Apply(r, cfg, a))
  {
  }

  lemma ApplyTidy(r: Run, cfg: Config, a: Action)
    requires Tidy(r, cfg) && Enabled(r, a)
    ensures Tidy(Apply(r, cfg, a), cfg)
  {
    ApplyConfigs(r, cfg, a);
    ApplyKeys(r, cfg, a);
  }

  lemma SubmitDistinct(r: Run, cfg: Config, item: Item)
    requires Distinct(r) && Enabled(r, Submit(item))
    ensures Distinct(Apply(r, cfg, Submit(item)))
  {
    var r' := Apply(r, cfg, Submit(item));
    assert r'.state.promises.Keys == r.state.promises.Keys + {item.id};
    forall k, n | k in r'.accepted && 0 <= n < |r'.accepted[k]|
      ensures if k in r.accepted && n < |r.accepted[k]| then r'.accepted[k][n] == r.accepted[k][n]
              else k == KeyOf(item) && n == |Get(r.accepted, k)| && r'.accepted[k][n] == item
    {
    }
  }

  lemma ApplyDistinct(r: Run, cfg: Config, a: Action)
    requires Distinct(r) && Enabled(r, a)
    ensures Distinct(Apply(r, cfg, a))
  {
    if a.Submit? { SubmitDistinct(r, cfg, a.item); }
  }

  lemma TakenLawful(mq: ModelQueue, key: SchedulingKey, now: int, decideAt: int)
    requires Lawful(mq.config) && Taken(mq, now, decideAt).Take?
    ensures var d := Taken(mq, now, decideAt);
            PlanLawful(BatchPlan(key, mq.items[..d.count], d.reason), Taking(|mq.items|, OldestWaitUs(mq.items, decideAt)), mq.config)
  {
    var c, n := mq.config, |mq.items|;
    if c.preferred != [] && c.preferred[0] <= n { LargestFittingIs(c.preferred, n, c.preferred[0]); }
  }

  /** The plans made so far obey the law, each for the queue of its key as it was when the scan began. */
  ghost predicate ReadyLawful(queues: map<SchedulingKey, ModelQueue>, ready: seq<BatchPlan>, decideAt: SchedulingKey -> int) {
    forall i :: 0 <= i < |ready| ==>
      && ready[i].key in queues
      && PlanLawful(ready[i], Takings(queues, ready, decideAt)[i], queues[ready[i].key].config)
  }

  lemma VisitLawful(queues: map<SchedulingKey, ModelQueue>, acc: Scan, key: SchedulingKey, now: int, decideAt: SchedulingKey -> int)
    requires key in queues && key in acc.queues && acc.queues[key] == queues[key] && Lawful(queues[key].config)
    requires ReadyLawful(queues, acc.ready, decideAt)
    ensures ReadyLawful(queues, Visit(acc, key, now, decideAt(key)).ready, decideAt)
  {
    var mq, ready := queues[key], Visit(acc, key, now, decideAt(key)).ready;
    if Taken(mq, now, decideAt(key)).Take? { TakenLawful(mq, key, now, decideAt(key)); }
    forall i | 0 <= i < |acc.ready|
      ensures ready[i] == acc.ready[i] && Takings(queues, ready, decideAt)[i] == Takings(queues, acc.ready, decideAt)[i]
    {
    }
  }

  lemma {:induction false} ScanPlansLawful(queues: map<SchedulingKey, ModelQueue>, order: seq<SchedulingKey>, now: int,
                                           decideAt: SchedulingKey -> int)
    requires NoDuplicates(order) && forall key :: key in order ==> key in queues
    requires forall key :: key in queues ==> Lawful(queues[key].config)
    ensures ReadyLawful(queues, ScanIn(queues, order, now, decideAt).ready, decideAt)
    decreases |order|
  {
    if order != [] {
      var rest, key := order[..|order| - 1], order[|order| - 1];
      assert order == rest + [key] && key !in rest;
      ScanPlansLawful(queues, rest, now, decideAt);
      VisitLawful(queues, ScanIn(queues, rest, now, decideAt), key, now, decideAt);
    }
  }

  ghost predicate LawfulFor(cfg: Config) {
    forall name :: Lawful(Resolve(cfg, name))
  }

  lemma ApplyPlansLawful(r: Run, cfg: Config, a: Action)
    requires LawfulFor(cfg) && PlansLawful(r, cfg) && Tidy(r, cfg) && Enabled(r, a)
    ensures PlansLawful(Apply(r, cfg, a), cfg)
  {
    if a.ScanQueues? {
      var queues, ready := r.state.queues, ScanIn(r.state.queues, a.order, a.now, a.decideAt).ready;
      ScanPlansLawful(queues, a.order, a.now, a.decideAt);
      ResolvedLawful(queues, ready, a.decideAt, cfg);
      AppendedLawful(r.plans, r.takings, ready, Takings(queues, ready, a.decideAt), cfg);
    }
  }

  lemma ResolvedLawful(queues: map<SchedulingKey, ModelQueue>, ready: seq<BatchPlan>, decideAt: SchedulingKey -> int, cfg: Config)
    requires ReadyLawful(queues, ready, decideAt) && forall k :: k in queues ==> queues[k].config == Resolve(cfg, k.modelName)
    ensures AllLawful(ready, Takings(queues, ready, decideAt), cfg)
  {
  }

  lemma AppendedLawful(plans: seq<BatchPlan>, takings: seq<Taking>, ready: seq<BatchPlan>, more: seq<Taking>, cfg: Config)
    requires AllLawful(plans, takings, cfg) && AllLawful(ready, more, cfg)
    ensures AllLawful(plans + ready, takings + more, cfg)
  {
  }

  /** The two laws over every run from the empty scheduler. */
  lemma {:induction false} EveryRun(r: Run, cfg: Config, actions: seq<Action>, end: Run)
    requires LawfulFor(cfg)
    requires Fifo(r) && Tidy(r, cfg) && Distinct(r) && PlansLawful(r, cfg)
    requires Runs(r, cfg, actions, end)
    ensures Fifo(end) && Tidy(end, cfg) && Distinct(end) && PlansLawful(end, cfg)
    decreases |actions|
  {
    if actions != [] {
      ApplyFifo(r, cfg, actions[0]);
      ApplyTidy(r, cfg, actions[0]);
      ApplyDistinct(r, cfg, actions[0]);
      ApplyPlansLawful(r, cfg, actions[0]);
      EveryRun(Apply(r, cfg, actions[0]), cfg, actions[1..], end);
    }
  }

  lemma LoadedLawful(raw: RawConfig)
    requires !Rejected(raw)
    ensures LawfulFor(Load(raw))
  {
    forall name ensures Lawful(Resolve(Load(raw), name)) { LoadedQueueConfigLaw(raw, name); }
  }

  /** From the empty scheduler, under any configuration the loader accepts. */
  lemma LoadedRuns(raw: RawConfig, actions: seq<Action>, end: Run)
    requires !Rejected(raw)
    requires Runs(Start, Load(raw), actions, end)
    ensures Fifo(end) && Distinct(end) && PlansLawful(end, Load(raw))
  {
    LoadedLawful(raw);
    forall k ensures FifoAt(Start, k) { assert Of([], k) == []; }
    EveryRun(Start, Load(raw), actions, end);
  }

  lemma OnceIn<T>(s: seq<T>, n: nat)
    requires n < |s|
    requires forall m :: 0 <= m < |s| && m != n ==> s[m] != s[n]
    ensures multiset(s)[s[n]] == 1
  {
    assert s == s[..n] + [s[n]] + s[n + 1..];
    assert s[n] !in multiset(s[..n]) && s[n] !in multiset(s[n + 1..]);
  }

  /** An accepted request sits in exactly one place: once in one plan, once among the cancelled, or once in its queue. */
  lemma ExactlyOnePlace(r: Run, k: SchedulingKey, n: nat)
    requires Fifo(r) && Distinct(r)
    requires k in r.accepted && n < |r.accepted[k]|
    ensures var x := r.accepted[k][n];
            multiset(Of(r.plans, k))[x] + multiset(Get(r.cancelled, k))[x] + multiset(Queued(r.state, k))[x] == 1
  {
    assert FifoAt(r, k);
    OnceIn(r.accepted[k], n);
  }

  lemma {:induction false} OfHolds(plans: seq<BatchPlan>, p: nat, i: nat)
    requires p < |plans| && i < |plans[p].items|
    ensures plans[p].items[i] in Of(plans, plans[p].key)
  {
    if p < |plans| - 1 { OfHolds(plans[..|plans| - 1], p, i); }
  }

  /** Every plan holds requests of its own key only, so of a single model. */
  lemma PlansHomogeneous(r: Run, p: nat, i: nat)
    requires Fifo(r) && KeysRight(r)
    requires p < |r.plans| && i < |r.plans[p].items|
    ensures KeyOf(r.plans[p].items[i]) == r.plans[p].key
    ensures r.plans[p].items[i].modelName == r.plans[p].key.modelName
    ensures var x, k := r.plans[p].items[i], r.plans[p].key;
            && k.height == (if x.inputHeight > 0 then x.inputHeight else 224)
            && k.width == (if x.inputWidth > 0 then x.inputWidth else 224)
            && k.channels == (if x.inputChannels > 0 then x.inputChannels else 3)
  {
    var k, x := r.plans[p].key, r.plans[p].items[i];
    OfHolds(r.plans, p, i);
    assert FifoAt(r, k);
    assert x in Get(r.accepted, k);
  }

  // ---------------------------------------------------------------- the limit on queues

  /** No queue holds more than the configured number of requests, or 1024 when that is not positive. */
  ghost predicate WithinLimit(queues: map<SchedulingKey, ModelQueue>, cfg: Config) {
    forall k :: k in queues ==> |queues[k].items| <= if cfg.maxQueueSize > 0 then cfg.maxQueueSize else 1024
  }

  /** What a submission does: refuse at the limit, append below it; one of the two counters goes up. */
  ghost predicate Submitted(s: State, cfg: Config, item: Item, s': State) {
    var limit := if cfg.maxQueueSize > 0 then cfg.maxQueueSize else 1024;
    if |Queued(s, KeyOf(item))| < limit then
      && Queued(s', KeyOf(item)) == Queued(s, KeyOf(item)) + [item] && s'.promises == s.promises[item.id := []]
      && s'.totalQueued == s.totalQueued + 1 && s'.dropped == s.dropped
    else
      && Queued(s', KeyOf(item)) == Queued(s, KeyOf(item)) && s'.promises == s.promises[item.id := [Failed(QueueFull)]]
      && s'.totalQueued == s.totalQueued && s'.dropped == s.dropped + 1
  }

  lemma SubmitOutcome(s: State, cfg: Config, item: Item)
    ensures Submitted(s, cfg, item, SubmitTo(s, cfg, item))
    ensures forall k :: k in s.queues && k != KeyOf(item) ==> k in SubmitTo(s, cfg, item).queues && SubmitTo(s, cfg, item).queues[k] == s.queues[k]
    ensures forall k :: k in SubmitTo(s, cfg, item).queues ==> k == KeyOf(item) || k in s.queues
  {
  }

  lemma SubmitWithinLimit(s: State, cfg: Config, item: Item)
    requires WithinLimit(s.queues, cfg)
    ensures WithinLimit(SubmitTo(s, cfg, item).queues, cfg)
  {
    SubmitOutcome(s, cfg, item);
  }

  lemma ScanWithinLimit(queues: map<SchedulingKey, ModelQueue>, cfg: Config, order: seq<SchedulingKey>, now: int, decideAt: SchedulingKey -> int)
    requires WithinLimit(queues, cfg) && forall key :: key in order ==> key in queues
    ensures WithinLimit(ScanIn(queues, order, now, decideAt).queues, cfg)
  {
    var r := ScanIn(queues, order, now, decideAt);
    forall k | k in queues ensures |r.queues[k].items| <= |queues[k].items| {
      ScanConserves(queues, order, now, decideAt, k);
      assert |Of(r.ready, k) + r.queues[k].items| == |queues[k].items|;
    }
  }

  lemma ApplyWithinLimit(r: Run, cfg: Config, a: Action)
    requires Enabled(r, a) && WithinLimit(r.state.queues, cfg)
    ensures WithinLimit(Apply(r, cfg, a).state.queues, cfg)
  {
    match a {
      case Submit(item) => SubmitWithinLimit(r.state, cfg, item);
      case ScanQueues(order, now, decideAt) => ScanWithinLimit(r.state.queues, cfg, order, now, decideAt);
      case Drain =>
    }
  }

  /** Every run of the scheduler keeps its queues within the limit. */
  lemma {:induction false} EveryRunWithinLimit(r: Run, cfg: Config, actions: seq<Action>, end: Run)
    requires Runs(r, cfg, actions, end) && WithinLimit(r.state.queues, cfg)
    ensures WithinLimit(end.state.queues, cfg)
    decreases |actions|
  {
    if actions != [] {
      ApplyWithinLimit(r, cfg, actions[0]);
      EveryRunWithinLimit(Apply(r, cfg, actions[0]), cfg, actions[1..], end);
    }
  }

  // ---------------------------------------------------------------- sleeping between scans

  /** No visited queue wants a batch, and `nearest` is the earliest of their deadlines. */
  ghost predicate Quiet(queues: map<SchedulingKey, ModelQueue>, order: seq<SchedulingKey>, now: int, nearest: Option<int>)
    requires forall k :: k in order ==> k in queues
  {
    && (forall k :: k in order && queues[k].items != [] ==>
          && !ScanWants(queues[k].config, |queues[k].items|, OldestWaitUs(queues[k].items, now))
          && nearest.Some? && now < nearest.value <= DeadlineNs(queues[k]))
    && (nearest.Some? ==> exists k :: k in order && queues[k].items != [] && DeadlineNs(queues[k]) == nearest.value)
  }

  ghost predicate Sound(queues: map<SchedulingKey, ModelQueue>) {
    forall k :: k in queues ==> Lawful(queues[k].config) && NeverStuck(queues[k].config)
  }

  /** Every request waiting now was queued by now. */
  ghost predicate QueuedBy(queues: map<SchedulingKey, ModelQueue>, now: int) {
    forall k, i :: k in queues && 0 <= i < |queues[k].items| ==> queues[k].items[i].enqueueNs <= now
  }

  lemma TakenWhenWanted(mq: ModelQueue, now: int, decideAt: int)
    requires Lawful(mq.config) && NeverStuck(mq.config) && mq.items != [] && now <= decideAt
    ensures Taken(mq, now, decideAt).Take? <==> ScanWants(mq.config, |mq.items|, OldestWaitUs(mq.items, now))
  {
    DispatchTestSound(mq.config);
    MicrosMonotone(now - mq.items[0].enqueueNs, decideAt - mq.items[0].enqueueNs);
  }

  /** A scan that dispatches nothing changes nothing and leaves an exact earliest deadline, strictly in the future. */
  lemma {:induction false} IdleScan(queues: map<SchedulingKey, ModelQueue>, order: seq<SchedulingKey>, now: int,
                                    decideAt: SchedulingKey -> int)
    requires NoDuplicates(order) && forall k :: k in order ==> k in queues
    requires Sound(queues) && QueuedBy(queues, now)
    requires forall k :: k in order ==> now <= decideAt(k)
    ensures IdleSoFar(queues, order, now, ScanIn(queues, order, now, decideAt))
    decreases |order|
  {
    if order != [] {
      var rest, key := order[..|order| - 1], order[|order| - 1];
      assert order == rest + [key];
      assert key !in rest;
      IdleScan(queues, rest, now, decideAt);
      var acc := ScanIn(queues, rest, now, decideAt);
      assert acc.queues[key] == queues[key];
      IdleVisit(queues, rest, acc, key, now, decideAt(key));
    }
  }

  /** What is known of a scan that has visited `order`. */
  ghost predicate IdleSoFar(queues: map<SchedulingKey, ModelQueue>, order: seq<SchedulingKey>, now: int, r: Scan)
    requires forall k :: k in order ==> k in queues
  {
    && (r.ready == [] ==> r.queues == queues && Quiet(queues, order, now, r.nearest) && (r.anyWork <==> r.nearest.Some?))
    && (r.anyWork <==> exists k :: k in order && queues[k].items != [])
  }

  lemma IdleVisit(queues: map<SchedulingKey, ModelQueue>, rest: seq<SchedulingKey>, acc: Scan, key: SchedulingKey, now: int, decideAt: int)
    requires (forall k :: k in rest ==> k in queues) && IdleSoFar(queues, rest, now, acc)
    requires key in queues && key in acc.queues && acc.queues[key] == queues[key]
    requires Lawful(queues[key].config) && NeverStuck(queues[key].config) && now <= decideAt
    requires queues[key].items != [] ==> queues[key].items[0].enqueueNs <= now
    ensures IdleSoFar(queues, rest + [key], now, Visit(acc, key, now, decideAt))
  {
    var mq := queues[key];
    assert forall k :: k in rest + [key] <==> k in rest || k == key;
    if mq.items != [] {
      TakenWhenWanted(mq, now, decideAt);
      MicrosReached(now - mq.items[0].enqueueNs, mq.config.maxQueueDelayUs);
      if Taken(mq, now, decideAt).Wait? && acc.ready == [] {
        ExtendQuiet(queues, rest, key, now, acc.nearest);
      }
    }
  }

  lemma ExtendQuiet(queues: map<SchedulingKey, ModelQueue>, rest: seq<SchedulingKey>, key: SchedulingKey, now: int, nearest: Option<int>)
    requires key in queues && forall k :: k in rest ==> k in queues
    requires Quiet(queues, rest, now, nearest)
    requires queues[key].items != [] && DeadlineNs(queues[key]) > now
    requires !ScanWants(queues[key].config, |queues[key].items|, OldestWaitUs(queues[key].items, now))
    ensures Quiet(queues, rest + [key], now, Earlier(nearest, DeadlineNs(queues[key])))
  {
    var order := rest + [key];
    assert forall k :: k in order <==> k in rest || k == key;
    if nearest.Some? && nearest.value <= DeadlineNs(queues[key]) {
      var k :| k in rest && queues[k].items != [] && DeadlineNs(queues[k]) == nearest.value;
      assert k in order;
    } else {
      assert key in order;
    }
  }

  /** The "shouldn't reach here" branch: some queue is non-empty, nothing was dispatched, yet no deadline is known. */
  lemma GuardBranchUnreachable(queues: map<SchedulingKey, ModelQueue>, order: seq<SchedulingKey>, now: int,
                               decideAt: SchedulingKey -> int)
    requires Covers(order, queues) && Sound(queues) && QueuedBy(queues, now)
    requires forall k :: k in order ==> now <= decideAt(k)
    ensures var r := ScanIn(queues, order, now, decideAt); !(r.ready == [] && r.anyWork && r.nearest.None?)
  {
    IdleScan(queues, order, now, decideAt);
  }

  /** Only submissions, no earlier than `now`, separate two moments of a sleep. */
  ghost function SubmitAll(s: State, cfg: Config, items: seq<Item>): State
    decreases |items|
  {
    if items == [] then s else SubmitAll(SubmitTo(s, cfg, items[0]), cfg, items[1..])
  }

  ghost predicate Grown(before: map<SchedulingKey, ModelQueue>, after: map<SchedulingKey, ModelQueue>, now: int) {
    && (forall k :: k in before ==> k in after && after[k].config == before[k].config && before[k].items <= after[k].items)
    && (forall k, i :: k in after && (if k in before then |before[k].items| else 0) <= i < |after[k].items| ==>
          after[k].items[i].enqueueNs >= now)
  }

  lemma GrownOnce(before: map<SchedulingKey, ModelQueue>, s: State, cfg: Config, item: Item, now: int)
    requires Grown(before, s.queues, now) && item.enqueueNs >= now
    ensures Grown(before, SubmitTo(s, cfg, item).queues, now)
  {
  }

  lemma {:induction false} GrownBySubmissions(before: map<SchedulingKey, ModelQueue>, s: State, cfg: Config, items: seq<Item>, now: int)
    requires Grown(before, s.queues, now)
    requires forall i :: 0 <= i < |items| ==> items[i].enqueueNs >= now
    ensures Grown(before, SubmitAll(s, cfg, items).queues, now)
    decreases |items|
  {
    if items != [] {
      GrownOnce(before, s, cfg, items[0], now);
      GrownBySubmissions(before, SubmitTo(s, cfg, items[0]), cfg, items[1..], now);
    }
  }

  ghost predicate DelaysWithin(queues: map<SchedulingKey, ModelQueue>, lo: int, hi: int) {
    forall k :: k in queues ==> lo <= queues[k].config.maxQueueDelayUs <= hi
  }

  ghost predicate TimeOrdered(queues: map<SchedulingKey, ModelQueue>) {
    forall k, i :: k in queues && 0 <= i < |queues[k].items| ==> queues[k].items[0].enqueueNs <= queues[k].items[i].enqueueNs
  }

  /**
   A sleep ends no later than hi - lo after the deadline of any request waiting before it or queued
   during it, where the queues' delays lie in lo..hi; with one common delay it ends in time for all.
   */
  lemma SleepSound(s: State, cfg: Config, order: seq<SchedulingKey>, now: int, decideAt: SchedulingKey -> int,
                   submitted: seq<Item>, lo: int, hi: int, k: SchedulingKey, i: nat)
    requires Covers(order, s.queues) && Sound(s.queues) && QueuedBy(s.queues, now) && TimeOrdered(s.queues)
    requires forall key :: key in order ==> now <= decideAt(key)
    requires forall j :: 0 <= j < |submitted| ==> submitted[j].enqueueNs >= now
    requires var scan := ScanIn(s.queues, order, now, decideAt); scan.ready == [] && scan.anyWork
    requires var after := SubmitAll(s, cfg, submitted).queues;
             DelaysWithin(after, lo, hi) && k in after && i < |after[k].items|
    ensures var after := SubmitAll(s, cfg, submitted).queues;
            var wakeAt := ScanIn(s.queues, order, now, decideAt).nearest;
            && wakeAt.Some? && wakeAt.value > now
            && wakeAt.value <= after[k].items[i].enqueueNs + after[k].config.maxQueueDelayUs * 1000 + (hi - lo) * 1000
  {
    var after := SubmitAll(s, cfg, submitted).queues;
    IdleScan(s.queues, order, now, decideAt);
    GrownBySubmissions(s.queues, s, cfg, submitted, now);
    var nearest := ScanIn(s.queues, order, now, decideAt).nearest.value;
    var first :| first in order && s.queues[first].items != [] && DeadlineNs(s.queues[first]) == nearest;
    assert first in after && after[first].config == s.queues[first].config;
    assert s.queues[first].items[0].enqueueNs <= now;
    if k in s.queues && i < |s.queues[k].items| {
      assert k in order;
      assert after[k].items[i] == s.queues[k].items[i];
    }
  }

  /** The predicate the sleeping thread re-checks for one queue. */
  ghost predicate WantsBatch(mq: ModelQueue, at: int) {
    mq.items != [] && ScanWants(mq.config, |mq.items|, OldestWaitUs(mq.items, at))
  }

  ghost predicate SomeQueueWants(queues: map<SchedulingKey, ModelQueue>, at: int) {
    exists k :: k in queues && WantsBatch(queues[k], at)
  }

  lemma DueWantsBatch(mq: ModelQueue, at: int)
    requires mq.items != [] && DeadlineNs(mq) <= at && mq.items[0].enqueueNs <= at
    ensures WantsBatch(mq, at)
  {
    MicrosReached(at - mq.items[0].enqueueNs, mq.config.maxQueueDelayUs);
  }

  /** At the wake-up time the queue that set it does want a batch, whatever was submitted meanwhile. */
  lemma WakeFindsWork(s: State, cfg: Config, order: seq<SchedulingKey>, now: int, decideAt: SchedulingKey -> int,
                      submitted: seq<Item>, wake: int)
    requires Covers(order, s.queues) && Sound(s.queues) && QueuedBy(s.queues, now)
    requires forall key :: key in order ==> now <= decideAt(key)
    requires forall j :: 0 <= j < |submitted| ==> submitted[j].enqueueNs >= now
    requires var scan := ScanIn(s.queues, order, now, decideAt);
             scan.ready == [] && scan.anyWork && scan.nearest.Some? && wake >= scan.nearest.value
    ensures SomeQueueWants(SubmitAll(s, cfg, submitted).queues, wake)
  {
    var after := SubmitAll(s, cfg, submitted).queues;
    IdleScan(s.queues, order, now, decideAt);
    GrownBySubmissions(s.queues, s, cfg, submitted, now);
    var nearest := ScanIn(s.queues, order, now, decideAt).nearest.value;
    var k :| k in order && s.queues[k].items != [] && DeadlineNs(s.queues[k]) == nearest;
    assert k in after && after[k].config == s.queues[k].config && s.queues[k].items <= after[k].items;
    assert after[k].items[0] == s.queues[k].items[0] && s.queues[k].items[0].enqueueNs <= now;
    DueWantsBatch(after[k], wake);
  }

  /** The mixed-delay bound is attained: a request arriving on a faster queue right after the scan. */
  lemma LatenessAttained(slow: Item, fast: Item, lo: nat, hi: nat, cfg: Config)
    requires lo <= hi && KeyOf(slow) != KeyOf(fast) && 0 < hi
    requires slow.enqueueNs == fast.enqueueNs
    requires Resolve(cfg, fast.modelName) == QueueConfig(8, [4], lo)
    ensures var queues := map[KeyOf(slow) := ModelQueue([slow], QueueConfig(8, [4], hi))];
            var now := slow.enqueueNs;
            var scan := ScanIn(queues, [KeyOf(slow)], now, key => now);
            var after := SubmitAll(State(queues, map[], 0, 0), cfg, [fast]).queues;
            && scan.ready == [] && scan.nearest.Some?
            && KeyOf(fast) in after && after[KeyOf(fast)].items == [fast]
            && scan.nearest.value == DeadlineNs(after[KeyOf(fast)]) + (hi - lo) * 1000
  {
    var queues := map[KeyOf(slow) := ModelQueue([slow], QueueConfig(8, [4], hi))];
    var now := slow.enqueueNs;
    var key := KeyOf(slow);
    assert [key][..0] == [];
    assert ScanIn(queues, [], now, k => now) == Scan(queues, [], None, false);
    assert ScanIn(queues, [key], now, k => now) == Visit(ScanIn(queues, [], now, k => now), key, now, now);
    var s1 := SubmitTo(State(queues, map[], 0, 0), cfg, fast);
    assert [fast][1..] == [];
    assert SubmitAll(State(queues, map[], 0, 0), cfg, [fast]) == SubmitAll(s1, cfg, []);
    assert Capacity(cfg) >= 1;
  }
}
