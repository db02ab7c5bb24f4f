/**
 Runs of the scheduler under a steady clock: every reading, taken under the scheduler's lock, is no
 earlier than those before it. What the sleep between scans relies on then holds in every state
 that such a run reaches.
 */
module SchedulerClock {
  import opened BatchConfig
  import opened BatchScheduler
  import opened SchedulerRuns

  /** An action, and a moment by which all its clock readings have been taken. */
  datatype Timed = Timed(action: Action, until: int)

  ghost predicate ReadsClock(a: Action, from: int, until: int) {
    && from <= until
    && match a
       case Submit(item) => from <= item.enqueueNs <= until
       case ScanQueues(order, now, decideAt) => from <= now <= until && forall k :: k in order ==> now <= decideAt(k) <= until
       case Drain => true
  }

  ghost predicate TimedRuns(r: Run, clock: int, cfg: Config, steps: seq<Timed>, end: Run, endClock: int)
    decreases |steps|
  {
    if steps == [] then end == r && endClock == clock
    else
      && Enabled(r, steps[0].action) && ReadsClock(steps[0].action, clock, steps[0].until)
      && TimedRuns(Apply(r, cfg, steps[0].action), steps[0].until, cfg, steps[1..], end, endClock)
  }

  predicate InOrder(items: seq<Item>) {
    forall i, j :: 0 <= i <= j < |items| ==> items[i].enqueueNs <= items[j].enqueueNs
  }

  /** Each queue holds its requests in the order of their arrival times, none of them in the future. */
  ghost predicate InTime(queues: map<SchedulingKey, ModelQueue>, clock: int) {
    QueuedBy(queues, clock) && forall k :: k in queues ==> InOrder(queues[k].items)
  }

  lemma SubmitInTime(s: State, cfg: Config, item: Item, clock: int)
    requires InTime(s.queues, clock) && clock <= item.enqueueNs
    ensures InTime(SubmitTo(s, cfg, item).queues, item.enqueueNs)
  {
    var queues := SubmitTo(s, cfg, item).queues;
    AppendInOrder(QueueFor(s, cfg, item).items, item, clock);
    forall k | k in queues
      ensures InOrder(queues[k].items) && forall i :: 0 <= i < |queues[k].items| ==> queues[k].items[i].enqueueNs <= item.enqueueNs
    {
      if k != KeyOf(item) { assert k in s.queues && queues[k] == s.queues[k]; }
    }
  }

  lemma AppendInOrder(items: seq<Item>, item: Item, clock: int)
    requires InOrder(items) && (forall i :: 0 <= i < |items| ==> items[i].enqueueNs <= clock) && clock <= item.enqueueNs
    ensures InOrder(items + [item]) && forall i :: 0 <= i < |items + [item]| ==> (items + [item])[i].enqueueNs <= item.enqueueNs
  {
  }

  lemma SuffixInOrder(taken: seq<Item>, left: seq<Item>, clock: int)
    requires InOrder(taken + left) && forall i :: 0 <= i < |taken + left| ==> (taken + left)[i].enqueueNs <= clock
    ensures InOrder(left) && forall i :: 0 <= i < |left| ==> left[i].enqueueNs <= clock
  {
    assert forall i :: 0 <= i < |left| ==> left[i] == (taken + left)[|taken| + i];
  }

  /** A scan leaves a suffix of each queue. */
  lemma ScanInTime(queues: map<SchedulingKey, ModelQueue>, order: seq<SchedulingKey>, now: int, decideAt: SchedulingKey -> int, clock: int)
    requires InTime(queues, clock) && forall key :: key in order ==> key in queues
    ensures InTime(ScanIn(queues, order, now, decideAt).queues, clock)
  {
    var r := ScanIn(queues, order, now, decideAt);
    forall k | k in queues
      ensures InOrder(r.queues[k].items) && forall i :: 0 <= i < |r.queues[k].items| ==> r.queues[k].items[i].enqueueNs <= clock
    {
      ScanConserves(queues, order, now, decideAt, k);
      SuffixInOrder(Of(r.ready, k), r.queues[k].items, clock);
    }
  }

  lemma ApplyInTime(r: Run, cfg: Config, a: Action, clock: int, until: int)
    requires InTime(r.state.queues, clock) && Enabled(r, a) && ReadsClock(a, clock, until)
    ensures InTime(Apply(r, cfg, a).state.queues, until)
  {
    match a {
      case Submit(item) => SubmitInTime(r.state, cfg, item, clock);
      case ScanQueues(order, now, decideAt) => ScanInTime(r.state.queues, order, now, decideAt, clock);
      case Drain =>
    }
  }

  lemma {:induction false} EveryTimedRun(r: Run, clock: int, cfg: Config, steps: seq<Timed>, end: Run, endClock: int)
    requires TimedRuns(r, clock, cfg, steps, end, endClock)
    requires Tidy(r, cfg) && InTime(r.state.queues, clock)
    ensures Tidy(end, cfg) && InTime(end.state.queues, endClock)
    decreases |steps|
  {
    if steps != [] {
      ApplyTidy(r, cfg, steps[0].action);
      ApplyInTime(r, cfg, steps[0].action, clock, steps[0].until);
      EveryTimedRun(Apply(r, cfg, steps[0].action), steps[0].until, cfg, steps[1..], end, endClock);
    }
  }

  /** A state some timed run of a freshly loaded scheduler leads to. */
  ghost predicate Reached(raw: RawConfig, from: int, steps: seq<Timed>, r: Run, clock: int) {
    !Rejected(raw) && WrittenSizesPositive(raw) && TimedRuns(Start, from, Load(raw), steps, r, clock)
  }

  /** Under a loaded configuration whose written sizes are positive every queue is sound and in time. */
  lemma ReachedSound(raw: RawConfig, from: int, steps: seq<Timed>, r: Run, clock: int)
    requires Reached(raw, from, steps, r, clock)
    ensures Sound(r.state.queues) && QueuedBy(r.state.queues, clock) && TimeOrdered(r.state.queues)
  {
    EveryTimedRun(Start, from, Load(raw), steps, r, clock);
    forall k | k in r.state.queues ensures Lawful(r.state.queues[k].config) && NeverStuck(r.state.queues[k].config) {
      LoadedQueueConfigLaw(raw, k.modelName);
      PositiveNeverStuck(r.state.queues[k].config);
    }
    assert forall k :: k in r.state.queues ==> InOrder(r.state.queues[k].items);
  }

  /** A scan of all queues whose readings come after everything so far. */
  ghost predicate ScansNext(r: Run, clock: int, order: seq<SchedulingKey>, now: int, decideAt: SchedulingKey -> int) {
    Covers(order, r.state.queues) && clock <= now && forall k :: k in order ==> now <= decideAt(k)
  }

  /** The "shouldn't reach here" branch of the loop is never taken. */
  lemma GuardNeverNeeded(raw: RawConfig, from: int, steps: seq<Timed>, r: Run, clock: int,
                         order: seq<SchedulingKey>, now: int, decideAt: SchedulingKey -> int)
    requires Reached(raw, from, steps, r, clock) && ScansNext(r, clock, order, now, decideAt)
    ensures var scan := ScanIn(r.state.queues, order, now, decideAt); !(scan.ready == [] && scan.anyWork && scan.nearest.None?)
  {
    ReachedSound(raw, from, steps, r, clock);
    GuardBranchUnreachable(r.state.queues, order, now, decideAt);
  }

  /** A scan dispatches nothing only if nothing is due: each queue is short of every size, and its head within its delay. */
  lemma IdleMeansNothingDue(raw: RawConfig, from: int, steps: seq<Timed>, r: Run, clock: int,
                            order: seq<SchedulingKey>, now: int, decideAt: SchedulingKey -> int, k: SchedulingKey)
    requires Reached(raw, from, steps, r, clock) && ScansNext(r, clock, order, now, decideAt)
    requires ScanIn(r.state.queues, order, now, decideAt).ready == [] && k in r.state.queues && r.state.queues[k].items != []
    ensures var items, q := r.state.queues[k].items, r.state.queues[k].config;
            && |items| < q.maxBatchSize && (forall s :: s in q.preferred ==> |items| < s)
            && now < items[0].enqueueNs + q.maxQueueDelayUs * 1000
  {
    ReachedSound(raw, from, steps, r, clock);
    IdleScan(r.state.queues, order, now, decideAt);
    assert k in order;
    var items, q := r.state.queues[k].items, r.state.queues[k].config;
    assert !ScanWants(q, |items|, OldestWaitUs(items, now));
    MicrosReached(now - items[0].enqueueNs, q.maxQueueDelayUs);
  }

  /** In every state reached a sleep ends in the future and, for every request, at most hi - lo late. */
  lemma SleepEndsInTime(raw: RawConfig, from: int, steps: seq<Timed>, r: Run, clock: int,
                        order: seq<SchedulingKey>, now: int, decideAt: SchedulingKey -> int,
                        submitted: seq<Item>, lo: int, hi: int, k: SchedulingKey, i: nat)
    requires Reached(raw, from, steps, r, clock) && ScansNext(r, clock, order, now, decideAt)
    requires forall j :: 0 <= j < |submitted| ==> submitted[j].enqueueNs >= now
    requires var scan := ScanIn(r.state.queues, order, now, decideAt); scan.ready == [] && scan.anyWork
    requires var after := SubmitAll(r.state, Load(raw), submitted).queues;
             DelaysWithin(after, lo, hi) && k in after && i < |after[k].items|
    ensures var after := SubmitAll(r.state, Load(raw), submitted).queues;
            var wakeAt := ScanIn(r.state.queues, order, now, decideAt).nearest;
            && wakeAt.Some? && wakeAt.value > now
            && wakeAt.value <= after[k].items[i].enqueueNs + after[k].config.maxQueueDelayUs * 1000 + (hi - lo) * 1000
  {
    ReachedSound(raw, from, steps, r, clock);
    SleepSound(r.state, Load(raw), order, now, decideAt, submitted, lo, hi, k, i);
  }

  /** In every state reached the thread that sleeps until the deadline it computed finds a queue to dispatch. */
  lemma WakesToWork(raw: RawConfig, from: int, steps: seq<Timed>, r: Run, clock: int,
                    order: seq<SchedulingKey>, now: int, decideAt: SchedulingKey -> int, submitted: seq<Item>, wake: int)
    requires Reached(raw, from, steps, r, clock) && ScansNext(r, clock, order, now, decideAt)
    requires forall j :: 0 <= j < |submitted| ==> submitted[j].enqueueNs >= now
    requires var scan := ScanIn(r.state.queues, order, now, decideAt);
             scan.ready == [] && scan.anyWork && (scan.nearest.Some? ==> wake >= scan.nearest.value)
    ensures ScanIn(r.state.queues, order, now, decideAt).nearest.Some?
    ensures SomeQueueWants(SubmitAll(r.state, Load(raw), submitted).queues, wake)
  {
    GuardNeverNeeded(raw, from, steps, r, clock, order, now, decideAt);
    ReachedSound(raw, from, steps, r, clock);
    WakeFindsWork(r.state, Load(raw), order, now, decideAt, submitted, wake);
  }
}
