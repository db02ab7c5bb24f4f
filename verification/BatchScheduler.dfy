/**
 The request batching scheduler: keyed FIFO queues, the batch decision, one locked scan of the
 scheduling loop, the sleep it may take afterwards, and the shutdown drain. The specification
 functions work on values; class DynamicBatchScheduler below refines them step by step.
 Times are nanoseconds; delays and waits are microseconds.
 */
module BatchScheduler {
  import opened Common
  import opened BatchConfig

  datatype SchedulingKey = SchedulingKey(modelName: string, height: int, width: int, channels: int)

  /** A queued request. `id` names its promise; `slot` the pooled buffer it travels with, if any. */
  datatype Item = Item(id: nat, modelName: string, inputWidth: int, inputHeight: int, inputChannels: int,
                       slot: Option<nat>, enqueueNs: int)

  datatype ModelQueue = ModelQueue(items: seq<Item>, config: QueueConfig)

  datatype Reason = PREFERRED | TIMEOUT | MAX_BATCH | SHUTDOWN

  datatype BatchPlan = BatchPlan(key: SchedulingKey, items: seq<Item>, reason: Reason)

  datatype Failure = QueueFull | ShuttingDown | MissingResult(index: nat) | UnknownModel(model: string) | ExecutorThrew

  /** What a promise is set to; a successful result itself travels in the slot. */
  datatype Reply = Ok | Failed(why: Failure)

  function MakeKey(modelName: string, w: int, h: int, c: int): SchedulingKey {
    SchedulingKey(modelName, if h > 0 then h else 224, if w > 0 then w else 224, if c > 0 then c else 3)
  }

  function KeyOf(item: Item): SchedulingKey {
    MakeKey(item.modelName, item.inputWidth, item.inputHeight, item.inputChannels)
  }

  // ---------------------------------------------------------------- the decision

  /** duration_cast<microseconds>: truncates toward zero. */
  function Micros(ns: int): int {
    if ns >= 0 then ns / 1000 else -((-ns) / 1000)
  }

  /** A wait has lasted `us` microseconds exactly from `us * 1000` nanoseconds on. */
  lemma MicrosReached(ns: int, us: int)
    requires ns >= 0
    ensures Micros(ns) >= us <==> ns >= us * 1000
  {
  }

  lemma MicrosMonotone(a: int, b: int)
    requires a <= b
    ensures Micros(a) <= Micros(b)
  {
  }

  function OldestWaitUs(items: seq<Item>, now: int): int
    requires items != []
  {
    Micros(now - items[0].enqueueNs)
  }

  function MinPreferred(c: QueueConfig): int {
    if c.preferred == [] then c.maxBatchSize else c.preferred[0]
  }

  /** Walk the sorted sizes while they fit. */
  function LargestFitting(sizes: seq<int>, n: int, take: int): (r: int)
    requires take <= n
    ensures r <= n
  {
    if sizes == [] || sizes[0] > n then take else LargestFitting(sizes[1..], n, sizes[0])
  }

  datatype Decision = Wait | Take(count: nat, reason: Reason)

  function Decide(c: QueueConfig, n: nat, waitUs: int): (d: Decision)
    ensures d.Take? ==> d.count <= n
  {
    if n == 0 then Wait
    else if n >= c.maxBatchSize then Take(Max(0, c.maxBatchSize), MAX_BATCH)
    else if n >= MinPreferred(c) then Take(Max(0, LargestFitting(c.preferred, n, MinPreferred(c))), PREFERRED)
    else if waitUs >= c.maxQueueDelayUs then Take(Min(n, c.maxBatchSize), TIMEOUT)
    else Wait
  }

  lemma {:induction false} LargestFittingIs(sizes: seq<int>, n: int, take: int)
    requires Sorted(sizes) && take <= n && (sizes != [] ==> take <= sizes[0])
    ensures var r := LargestFitting(sizes, n, take);
            (r == take || r in sizes) && take <= r <= n && forall s :: s in sizes && s <= n ==> s <= r
  {
    if sizes != [] && sizes[0] <= n {
      LargestFittingIs(sizes[1..], n, sizes[0]);
      assert sizes == [sizes[0]] + sizes[1..];
    }
  }

  /**
   The batch-size law. For a lawful queue configuration with positive sizes, a decision takes
   between 1 and maxBatchSize requests: the maximum when that many wait, otherwise the largest
   preferred size that fits, otherwise the whole queue once its head is over age.
   */
  lemma BatchSizeLaw(c: QueueConfig, n: nat, waitUs: int)
    requires Lawful(c) && AllPositive(c.preferred)
    ensures match Decide(c, n, waitUs)
      case Wait =>
        n == 0 || (n < c.maxBatchSize && (forall s :: s in c.preferred ==> n < s) && waitUs < c.maxQueueDelayUs)
      case Take(k, MAX_BATCH) => k == c.maxBatchSize <= n
      case Take(k, PREFERRED) =>
        n < c.maxBatchSize && 1 <= k <= n && k in c.preferred && forall s :: s in c.preferred && s <= n ==> s <= k
      case Take(k, TIMEOUT) =>
        1 <= k == n < c.maxBatchSize && (forall s :: s in c.preferred ==> n < s) && waitUs >= c.maxQueueDelayUs
      case Take(_, SHUTDOWN) => false
  {
    if c.preferred != [] {
      assert c.preferred[0] in c.preferred;
      if c.preferred[0] <= n { LargestFittingIs(c.preferred, n, c.preferred[0]); }
    }
  }

  /** The scan's own dispatch test, made before it asks for a decision. */
  predicate ScanWants(c: QueueConfig, n: nat, waitUs: int) {
    n >= c.maxBatchSize || (c.preferred != [] && n >= c.preferred[0]) || waitUs >= c.maxQueueDelayUs
  }

  /** Some usable size covers a single waiting request whenever the smallest size claims to. */
  predicate NeverStuck(c: QueueConfig) {
    c.preferred == [] || c.preferred[0] >= 1 || 1 in c.preferred || c.maxBatchSize == 1
  }

  /**
   The dispatch test and the decision agree, for every queue length and every pair of clock
   readings, exactly when the configuration is not stuck.
   */
  lemma DispatchTestSound(c: QueueConfig)
    requires Lawful(c)
    ensures NeverStuck(c) <==>
            forall n: nat, w: int, later: int :: n >= 1 && ScanWants(c, n, w) && w <= later ==>
              Decide(c, n, later).Take? && 1 <= Decide(c, n, later).count <= n
  {
    if NeverStuck(c) {
      forall n: nat, w: int, later: int | n >= 1 && ScanWants(c, n, w) && w <= later
        ensures Decide(c, n, later).Take? && 1 <= Decide(c, n, later).count <= n
      {
        if c.preferred != [] && c.preferred[0] <= n { LargestFittingIs(c.preferred, n, c.preferred[0]); }
      }
    } else {
      LargestFittingIs(c.preferred, 1, c.preferred[0]);
      StuckForever(c, 0);
      assert ScanWants(c, 1, 0);
    }
  }

  /** In a stuck configuration a lone request is offered an empty batch however long it waits. */
  lemma StuckForever(c: QueueConfig, waitUs: int)
    requires Lawful(c) && !NeverStuck(c)
    ensures ScanWants(c, 1, waitUs) && Decide(c, 1, waitUs) == Take(0, PREFERRED)
  {
    LargestFittingIs(c.preferred, 1, c.preferred[0]);
  }

  lemma PositiveNeverStuck(c: QueueConfig)
    requires AllPositive(c.preferred)
    ensures NeverStuck(c)
  {
    if c.preferred != [] { assert c.preferred[0] in c.preferred; }
  }

  /**
   What the loader lets through: without per-model overrides a written list of preferred sizes leaves
   every queue unstuck exactly when all its sizes are positive, or 1 is among them, or the maximum is 1.
   */
  lemma LoadedUnstuckIff(raw: RawConfig, modelName: string)
    requires !Rejected(raw) && raw.models == map[] && raw.preferred.Some?
    ensures NeverStuck(Resolve(Load(raw), modelName)) <==>
            AllPositive(raw.preferred.value) || 1 in raw.preferred.value || GetOr(raw.maxBatchSize, 8) == 1
  {
    var cfg, sizes := Load(raw), raw.preferred.value;
    assert OverrideFor(cfg, modelName) == None;
    SortUniqueIncreasing(sizes);
    if sizes == [] {
      PositiveNeverStuck(Resolve(cfg, modelName));
    } else {
      assert sizes[0] in cfg.preferred;
      UsableMembers(cfg.preferred, cfg.maxBatchSize);
      LoadedQueueConfigLaw(raw, modelName);
      SmallestDecides(Resolve(cfg, modelName), sizes, cfg.maxBatchSize);
    }
  }

  lemma UsableMembers(sizes: seq<int>, maxBatch: int)
    requires sizes != []
    ensures forall x :: x in UsableSizes(sizes, maxBatch) <==> x in sizes && x <= maxBatch
  {
    SortKeepsMembers(sizes);
  }

  lemma SmallestDecides(c: QueueConfig, sizes: seq<int>, maxBatch: int)
    requires Lawful(c) && c.maxBatchSize == maxBatch && forall x :: x in c.preferred <==> x in sizes && x <= maxBatch
    ensures NeverStuck(c) <==> AllPositive(sizes) || 1 in sizes || maxBatch == 1
  {
    if c.preferred != [] {
      assert c.preferred[0] in c.preferred;
      if c.preferred[0] >= 1 {
        forall x | x in sizes ensures x >= 1 {
          if x <= maxBatch { assert x in c.preferred; }
        }
      }
    } else {
      forall x | x in sizes ensures x >= 1 {}
    }
  }

  lemma LoadedStuck(raw: RawConfig, modelName: string, waitUs: int)
    requires !Rejected(raw) && raw.models == map[] && raw.preferred.Some?
    requires !AllPositive(raw.preferred.value) && 1 !in raw.preferred.value && GetOr(raw.maxBatchSize, 8) != 1
    ensures Decide(Resolve(Load(raw), modelName), 1, waitUs) == Take(0, PREFERRED)
  {
    LoadedUnstuckIff(raw, modelName);
    LoadedQueueConfigLaw(raw, modelName);
    StuckForever(Resolve(Load(raw), modelName), waitUs);
  }

  /** So a written size of 0 beside 4 passes the loader and starves a lone request of any model. */
  lemma LoaderLetsStickIn(modelName: string, waitUs: int)
    ensures var raw := RawConfig(Some(8), None, Some([0, 4]), None, None, map[]);
            !Rejected(raw) && Decide(Resolve(Load(raw), modelName), 1, waitUs) == Take(0, PREFERRED)
  {
    var sizes := [0, 4];
    assert sizes[0] in sizes;
    LoadedStuck(RawConfig(Some(8), None, Some(sizes), None, None, map[]), modelName, waitUs);
  }

  // ---------------------------------------------------------------- submission

  datatype State = State(queues: map<SchedulingKey, ModelQueue>, promises: map<nat, seq<Reply>>,
                         totalQueued: nat, dropped: nat)

  function Capacity(cfg: Config): int {
    if cfg.maxQueueSize > 0 then cfg.maxQueueSize else 1024
  }

  function QueueFor(s: State, cfg: Config, item: Item): ModelQueue {
    if KeyOf(item) in s.queues then s.queues[KeyOf(item)] else ModelQueue([], Resolve(cfg, item.modelName))
  }

  predicate Accepts(s: State, cfg: Config, item: Item) {
    |QueueFor(s, cfg, item).items| < Capacity(cfg)
  }

  /** Submitting creates the promise and the queue if need be, then appends or rejects. */
  function SubmitTo(s: State, cfg: Config, item: Item): State {
    var mq := QueueFor(s, cfg, item);
    if Accepts(s, cfg, item) then
      s.(queues := s.queues[KeyOf(item) := mq.(items := mq.items + [item])],
         promises := s.promises[item.id := []],
         totalQueued := s.totalQueued + 1)
    else
      s.(queues := s.queues[KeyOf(item) := mq],
         promises := s.promises[item.id := [Failed(QueueFull)]],
         dropped := s.dropped + 1)
  }

  // ---------------------------------------------------------------- one locked scan

  datatype Scan = Scan(queues: map<SchedulingKey, ModelQueue>, ready: seq<BatchPlan>, nearest: Option<int>, anyWork: bool)

  function DeadlineNs(mq: ModelQueue): int
    requires mq.items != []
  {
    mq.items[0].enqueueNs + mq.config.maxQueueDelayUs * 1000
  }

  /** What the scan takes from a queue: nothing, or a non-empty prefix. The decision reads the clock again. */
  function Taken(mq: ModelQueue, now: int, decideAt: int): (d: Decision)
    ensures d.Take? ==> 0 < d.count <= |mq.items|
  {
    if mq.items == [] || !ScanWants(mq.config, |mq.items|, OldestWaitUs(mq.items, now)) then Wait
    else
      var d := Decide(mq.config, |mq.items|, OldestWaitUs(mq.items, decideAt));
      if d.Take? && d.count > 0 then d else Wait
  }

  function Earlier(a: Option<int>, b: int): Option<int> {
    if a.None? || b < a.value then Some(b) else a
  }

  function Visit(acc: Scan, key: SchedulingKey, now: int, decideAt: int): Scan
    requires key in acc.queues
  {
    var mq := acc.queues[key];
    if mq.items == [] then acc
    else match Taken(mq, now, decideAt)
      case Take(count, reason) =>
        Scan(acc.queues[key := ModelQueue(mq.items[count..], mq.config)],
             acc.ready + [BatchPlan(key, mq.items[..count], reason)], acc.nearest, true)
      case Wait =>
        if ScanWants(mq.config, |mq.items|, OldestWaitUs(mq.items, now)) then acc.(anyWork := true)
        else acc.(nearest := Earlier(acc.nearest, DeadlineNs(mq)), anyWork := true)
  }

  /** The scan visits the queues in some order; `order` lists it. */
  function ScanIn(queues: map<SchedulingKey, ModelQueue>, order: seq<SchedulingKey>, now: int,
                  decideAt: SchedulingKey -> int): (r: Scan)
    requires forall k :: k in order ==> k in queues
    ensures r.queues.Keys == queues.Keys
    ensures forall k :: k in queues ==> r.queues[k].config == queues[k].config
    ensures forall k :: k in queues && k !in order ==> r.queues[k] == queues[k]
  {
    if order == [] then Scan(queues, [], None, false)
    else
      var last := order[|order| - 1];
      Visit(ScanIn(queues, order[..|order| - 1], now, decideAt), last, now, decideAt(last))
  }

  ghost predicate Covers(order: seq<SchedulingKey>, queues: map<SchedulingKey, ModelQueue>) {
    NoDuplicates(order) && (forall k :: k in order <==> k in queues)
  }

  // ---------------------------------------------------------------- shutdown drain

  predicate Waiting(queues: map<SchedulingKey, ModelQueue>, id: nat) {
    exists k | k in queues :: exists i | 0 <= i < |queues[k].items| :: queues[k].items[i].id == id
  }

  /** No request waits twice, and each waiting request has its promise. */
  ghost predicate WaitingOnce(s: State) {
    && (forall k, i :: k in s.queues && 0 <= i < |s.queues[k].items| ==> s.queues[k].items[i].id in s.promises)
    && (forall k1, i1, k2, i2 | k1 in s.queues && k2 in s.queues && 0 <= i1 < |s.queues[k1].items| && 0 <= i2 < |s.queues[k2].items| ::
          s.queues[k1].items[i1].id == s.queues[k2].items[i2].id ==> k1 == k2 && i1 == i2)
  }

  /** Every waiting request is told that the server shuts down; then there are no queues. */
  function DrainAll(s: State): State {
    s.(queues := map[],
       promises := map id | id in s.promises ::
         if Waiting(s.queues, id) then s.promises[id] + [Failed(ShuttingDown)] else s.promises[id])
  }
}
