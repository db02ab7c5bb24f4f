/**
 The scheduler object: each method is one critical section, or the dispatch of one plan, of the
 multi-threaded original, and refines a specification function of BatchScheduler.
 Clock readings are parameters; handing a batch to an executor is recorded in `dispatched`.
 */
module DynamicBatching {
  import opened Common
  import opened BatchConfig
  import opened BatchScheduler

  // ---------------------------------------------------------------- splitting a mixed plan

  function OfModel(items: seq<Item>, name: string): seq<Item> {
    if items == [] then []
    else OfModel(items[..|items| - 1], name) +
         (if items[|items| - 1].modelName == name then [items[|items| - 1]] else [])
  }

  predicate Homogeneous(items: seq<Item>) {
    forall i :: 0 <= i < |items| ==> items[i].modelName == items[0].modelName
  }

  function Part(plan: BatchPlan, name: string): BatchPlan {
    BatchPlan(plan.key.(modelName := name), OfModel(plan.items, name), plan.reason)
  }

  function Parts(plan: BatchPlan, names: seq<string>): seq<BatchPlan> {
    if names == [] then [] else Parts(plan, names[..|names| - 1]) + [Part(plan, names[|names| - 1])]
  }

  predicate HasModel(items: seq<Item>, name: string) {
    exists i :: 0 <= i < |items| && items[i].modelName == name
  }

  ghost predicate ListsModels(names: seq<string>, items: seq<Item>) {
    NoDuplicates(names) && forall name :: name in names <==> HasModel(items, name)
  }

  function ItemsOf(plans: seq<BatchPlan>): seq<Item> {
    if plans == [] then [] else ItemsOf(plans[..|plans| - 1]) + plans[|plans| - 1].items
  }

  lemma {:induction false} OfModelHomogeneous(items: seq<Item>, name: string)
    ensures forall i :: 0 <= i < |OfModel(items, name)| ==> OfModel(items, name)[i].modelName == name
    ensures OfModel(items, name) != [] <==> HasModel(items, name)
    decreases |items|
  {
    if items != [] {
      var rest := items[..|items| - 1];
      OfModelHomogeneous(rest, name);
      HasModelStep(items, |rest|, name);
      assert items[..|rest| + 1] == items;
    }
  }

  lemma HasModelStep(items: seq<Item>, n: nat, name: string)
    requires n < |items|
    ensures HasModel(items[..n + 1], name) <==> HasModel(items[..n], name) || items[n].modelName == name
  {
    var longer, shorter := items[..n + 1], items[..n];
    assert longer[n] == items[n] && forall j :: 0 <= j < n ==> longer[j] == shorter[j];
    if HasModel(shorter, name) {
      var j :| 0 <= j < n && shorter[j].modelName == name;
      assert longer[j].modelName == name;
    }
  }

  lemma OfModelStep(items: seq<Item>, n: nat, name: string)
    requires n < |items|
    ensures OfModel(items[..n + 1], name) == OfModel(items[..n], name) + (if items[n].modelName == name then [items[n]] else [])
  {
    assert items[..n + 1][..n] == items[..n];
  }

  /** Occurrences of `x` among the parts named by `names`. */
  lemma {:induction false} PartsCount(plan: BatchPlan, names: seq<string>, x: Item)
    requires NoDuplicates(names)
    ensures multiset(ItemsOf(Parts(plan, names)))[x] == if x.modelName in names then multiset(plan.items)[x] else 0
    decreases |names|
  {
    if names != [] {
      var rest, name := names[..|names| - 1], names[|names| - 1];
      PartsCount(plan, rest, x);
      var parts := Parts(plan, names);
      assert parts[..|parts| - 1] == Parts(plan, rest);
      assert names == rest + [name];
      OfModelCount(plan.items, name, x);
      assert x.modelName in names <==> x.modelName in rest || x.modelName == name;
      assert name !in rest;
    }
  }

  lemma {:induction false} OfModelCount(items: seq<Item>, name: string, x: Item)
    ensures multiset(OfModel(items, name))[x] == if x.modelName == name then multiset(items)[x] else 0
    decreases |items|
  {
    if items != [] {
      var rest, last := items[..|items| - 1], items[|items| - 1];
      OfModelCount(rest, name, x);
      assert items == rest + [last];
    }
  }

  /** A batch of one model of the plan: the plan's key under that model's name, for the plan's reason. */
  ghost predicate IsPartFor(part: BatchPlan, plan: BatchPlan, name: string) {
    && part.key == SchedulingKey(name, plan.key.height, plan.key.width, plan.key.channels) && part.reason == plan.reason
    && part.items != [] && forall i :: 0 <= i < |part.items| ==> part.items[i].modelName == name
  }

  /** The k-th batch dispatched is the one of the k-th model. */
  lemma PartAt(plan: BatchPlan, names: seq<string>, k: nat)
    requires ListsModels(names, plan.items) && k < |names|
    ensures |Parts(plan, names)| == |names| && IsPartFor(Parts(plan, names)[k], plan, names[k])
  {
    PartsIndexed(plan, names, k);
    OfModelHomogeneous(plan.items, names[k]);
    assert names[k] in names;
  }

  lemma {:induction false} PartsIndexed(plan: BatchPlan, names: seq<string>, k: nat)
    requires k < |names|
    ensures |Parts(plan, names)| == |names| && Parts(plan, names)[k] == Part(plan, names[k])
    decreases |names|
  {
    var front := names[..|names| - 1];
    PartsLength(plan, front);
    if k < |front| { PartsIndexed(plan, front, k); }
  }

  lemma {:induction false} PartsLength(plan: BatchPlan, names: seq<string>)
    ensures |Parts(plan, names)| == |names|
    decreases |names|
  {
    if names != [] { PartsLength(plan, names[..|names| - 1]); }
  }

  /** Splitting dispatches every request of the plan exactly once, each in a batch of its own model. */
  lemma SplitConserves(plan: BatchPlan, names: seq<string>)
    requires ListsModels(names, plan.items)
    ensures multiset(ItemsOf(Parts(plan, names))) == multiset(plan.items)
    ensures forall name :: name in names ==> Homogeneous(Part(plan, name).items) && Part(plan, name).items != []
  {
    forall x: Item ensures multiset(ItemsOf(Parts(plan, names)))[x] == multiset(plan.items)[x] {
      PartsCount(plan, names, x);
      if x in multiset(plan.items) {
        assert x in plan.items;
        var i :| 0 <= i < |plan.items| && plan.items[i] == x;
        assert HasModel(plan.items, x.modelName);
      }
    }
    forall name | name in names ensures Homogeneous(Part(plan, name).items) && Part(plan, name).items != [] {
      OfModelHomogeneous(plan.items, name);
    }
  }

  ghost predicate Listed(names: seq<string>, done: set<string>) {
    NoDuplicates(names) && forall name :: name in names <==> name in done
  }

  lemma OnePartMore(plan: BatchPlan, before: seq<BatchPlan>, names: seq<string>, done: set<string>, name: string)
    requires Listed(names, done) && name !in done
    ensures Listed(names + [name], done + {name})
    ensures before + Parts(plan, names + [name]) == before + Parts(plan, names) + [Part(plan, name)]
    ensures |Parts(plan, names + [name])| == |Parts(plan, names)| + 1
    ensures |ItemsOf(Parts(plan, names + [name]))| == |ItemsOf(Parts(plan, names))| + |Part(plan, name).items|
  {
    assert (names + [name])[..|names|] == names;
    var parts := Parts(plan, names) + [Part(plan, name)];
    assert parts[..|parts| - 1] == Parts(plan, names);
    assert before + parts == before + Parts(plan, names) + [Part(plan, name)];
  }

  lemma AllParts(plan: BatchPlan, splits: map<string, BatchPlan>, names: seq<string>)
    requires (forall name :: name in splits <==> HasModel(plan.items, name)) && Listed(names, splits.Keys - {})
    ensures ListsModels(names, plan.items) && |ItemsOf(Parts(plan, names))| == |plan.items|
  {
    assert splits.Keys - {} == splits.Keys;
    SplitConserves(plan, names);
    assert |multiset(ItemsOf(Parts(plan, names)))| == |multiset(plan.items)|;
  }

  // ---------------------------------------------------------------- the object

  class DynamicBatchScheduler {
    const config: Config
    var queues: map<SchedulingKey, ModelQueue>
    var promises: map<nat, seq<Reply>>
    var totalQueued: nat
    var dropped: nat
    var batches: nat
    var requests: nat
    var dispatched: seq<BatchPlan>

    function Shared(): State
      reads this
    {
      State(queues, promises, totalQueued, dropped)
    }

    constructor (config: Config)
      ensures this.config == config
      ensures Shared() == State(map[], map[], 0, 0) && dispatched == [] && batches == requests == 0
    {
      this.config := config;
      queues, promises := map[], map[];
      totalQueued, dropped, batches, requests := 0, 0, 0, 0;
      dispatched := [];
    }

    method FindOrCreate(key: SchedulingKey, modelName: string) returns (mq: ModelQueue)
      modifies this`queues
      ensures mq == if key in old(queues) then old(queues)[key] else ModelQueue([], Resolve(config, modelName))
      ensures queues == old(queues)[key := mq]
    {
      if key !in queues {
        var c := ResolveConfig(config, modelName);
        queues := queues[key := ModelQueue([], c)];
      }
      mq := queues[key];
      assert queues == queues[key := mq];
    }

    method Submit(id: nat, modelName: string, slot: Option<nat>, inputW: int, inputH: int, inputC: int, now: int)
      requires id !in promises
      modifies this`queues, this`promises, this`totalQueued, this`dropped
      ensures Shared() == SubmitTo(old(Shared()), config, Item(id, modelName, inputW, inputH, inputC, slot, now))
    {
      promises := promises[id := []];
      var key := MakeKey(modelName, inputW, inputH, inputC);
      var mq := FindOrCreate(key, modelName);
      var maxQ := if config.maxQueueSize > 0 then config.maxQueueSize else 1024;
      var item := Item(id, modelName, inputW, inputH, inputC, slot, now);
      assert KeyOf(item) == key && mq == QueueFor(old(Shared()), config, item) && maxQ == Capacity(config);
      if |mq.items| >= maxQ {
        dropped := dropped + 1;
        promises := promises[id := [Failed(QueueFull)]];
        SetTwice(old(promises), id, [], [Failed(QueueFull)]);
        return;
      }
      SetTwice(old(queues), key, mq, mq.(items := mq.items + [item]));
      queues := queues[key := mq.(items := mq.items + [item])];
      totalQueued := totalQueued + 1;
    }

    /** The popping loop of every branch of the decision. */
    method PopFront(key: SchedulingKey, take: int) returns (items: seq<Item>)
      requires key in queues && take <= |queues[key].items|
      modifies this`queues
      ensures items == old(queues)[key].items[..Max(0, take)]
      ensures queues == old(queues)[key := old(queues)[key].(items := old(queues)[key].items[Max(0, take)..])]
    {
      items := [];
      var i := 0;
      while i < take
        invariant 0 <= i <= Max(0, take)
        invariant items == old(queues)[key].items[..i]
        invariant queues == old(queues)[key := old(queues)[key].(items := old(queues)[key].items[i..])]
      {
        items := items + [queues[key].items[0]];
        queues := queues[key := queues[key].(items := queues[key].items[1..])];
        i := i + 1;
      }
    }

    method DecideBatch(key: SchedulingKey, now: int) returns (plan: BatchPlan)
      requires key in queues
      modifies this`queues
      ensures var mq := old(queues)[key];
              var d := Decide(mq.config, |mq.items|, if mq.items == [] then 0 else OldestWaitUs(mq.items, now));
              var count := if d.Take? then d.count else 0;
              && plan.key == key
              && plan.items == mq.items[..count]
              && (d.Take? ==> plan.reason == d.reason)
              && queues == old(queues)[key := mq.(items := mq.items[count..])]
    {
      plan := BatchPlan(key, [], PREFERRED);
      var mq := queues[key];
      var n := |mq.items|;
      if n == 0 { return; }
      var oldestWaitUs := Micros(now - mq.items[0].enqueueNs);
      if n >= mq.config.maxBatchSize {
        var items := PopFront(key, mq.config.maxBatchSize);
        return BatchPlan(key, items, MAX_BATCH);
      }
      var minPref := if mq.config.preferred == [] then mq.config.maxBatchSize else mq.config.preferred[0];
      if n >= minPref {
        var take := minPref;
        var i := 0;
        while i < |mq.config.preferred| && mq.config.preferred[i] <= n
          invariant 0 <= i <= |mq.config.preferred|
          invariant take <= n
          invariant LargestFitting(mq.config.preferred[i..], n, take) == LargestFitting(mq.config.preferred, n, minPref)
        {
          assert mq.config.preferred[i..][1..] == mq.config.preferred[i + 1..];
          take := mq.config.preferred[i];
          i := i + 1;
        }
        var items := PopFront(key, take);
        return BatchPlan(key, items, PREFERRED);
      }
      if oldestWaitUs >= mq.config.maxQueueDelayUs {
        var items := PopFront(key, Min(n, mq.config.maxBatchSize));
        return BatchPlan(key, items, TIMEOUT);
      }
    }

    /** The body of the scan for one queue. */
    method VisitQueue(key: SchedulingKey, now: int, decideNow: int, ready: seq<BatchPlan>, nearest: Option<int>, anyWork: bool)
      returns (ready': seq<BatchPlan>, nearest': Option<int>, anyWork': bool)
      requires key in queues
      modifies this`queues
      ensures Scan(queues, ready', nearest', anyWork') == Visit(Scan(old(queues), ready, nearest, anyWork), key, now, decideNow)
    {
      ready', nearest', anyWork' := ready, nearest, anyWork;
      var mq := queues[key];
      if mq.items == [] { return; }
      anyWork' := true;
      var n := |mq.items|;
      var oldestWaitUs := Micros(now - mq.items[0].enqueueNs);
      var shouldDispatch := n >= mq.config.maxBatchSize;
      if !shouldDispatch && mq.config.preferred != [] { shouldDispatch := n >= mq.config.preferred[0]; }
      if !shouldDispatch { shouldDispatch := oldestWaitUs >= mq.config.maxQueueDelayUs; }
      if shouldDispatch {
        var plan := DecideBatch(key, decideNow);
        if plan.items != [] {
          ready' := ready + [plan];
        } else {
          assert queues == old(queues);
        }
      } else {
        var deadline := mq.items[0].enqueueNs + mq.config.maxQueueDelayUs * 1000;
        if nearest.None? || deadline < nearest.value { nearest' := Some(deadline); }
      }
    }

    /** The locked part of one loop round: visit every queue once, in the map's own order. */
    method CollectReady(now: int, decideAt: SchedulingKey -> int)
      returns (ready: seq<BatchPlan>, nearest: Option<int>, anyWork: bool, ghost order: seq<SchedulingKey>)
      modifies this`queues
      ensures Covers(order, old(queues))
      ensures Scan(queues, ready, nearest, anyWork) == ScanIn(old(queues), order, now, decideAt)
    {
      ready, nearest, anyWork, order := [], None, false, [];
      var todo := queues.Keys;
      while todo != {}
        invariant queues.Keys == old(queues).Keys && todo <= queues.Keys
        invariant NoDuplicates(order) && forall k :: k in order <==> k in queues && k !in todo
        invariant Scan(queues, ready, nearest, anyWork) == ScanIn(old(queues), order, now, decideAt)
        decreases |todo|
      {
        var key :| key in todo;
        ready, nearest, anyWork := VisitQueue(key, now, decideAt(key), ready, nearest, anyWork);
        ScanOneMore(old(queues), order, key, now, decideAt);
        order := order + [key];
        todo := todo - {key};
      }
    }

    /** Dispatch one plan. A plan that mixes models is first split by model name, in the map's own order. */
    method ExecuteBatch(plan: BatchPlan) returns (ghost names: seq<string>)
      modifies this`dispatched, this`batches, this`requests
      ensures plan.items == [] ==> dispatched == old(dispatched)
      ensures plan.items != [] && Homogeneous(plan.items) ==> dispatched == old(dispatched) + [plan]
      ensures !Homogeneous(plan.items) ==>
                ListsModels(names, plan.items) && dispatched == old(dispatched) + Parts(plan, names)
      ensures requests == old(requests) + |plan.items|
      ensures batches - old(batches) == |dispatched| - |old(dispatched)|
      decreases !Homogeneous(plan.items)
    {
      names := [];
      if plan.items == [] { return; }
      var i := 1;
      while i < |plan.items| && plan.items[i].modelName == plan.items[0].modelName
        invariant 1 <= i <= |plan.items|
        invariant forall j :: 0 <= j < i ==> plan.items[j].modelName == plan.items[0].modelName
      {
        i := i + 1;
      }
      if i < |plan.items| {
        var splits := GroupByModel(plan);
        names := ExecuteParts(plan, splits);
        return;
      }
      batches := batches + 1;
      requests := requests + |plan.items|;
      dispatched := dispatched + [plan];
    }

    method GroupByModel(plan: BatchPlan) returns (splits: map<string, BatchPlan>)
      ensures forall name :: name in splits <==> HasModel(plan.items, name)
      ensures forall name :: name in splits ==> splits[name] == Part(plan, name)
    {
      splits := map[];
      var i := 0;
      while i < |plan.items|
        invariant 0 <= i <= |plan.items|
        invariant forall name :: name in splits <==> HasModel(plan.items[..i], name)
        invariant forall name :: name in splits ==>
                    splits[name] == BatchPlan(plan.key.(modelName := name), OfModel(plan.items[..i], name), plan.reason)
      {
        var item := plan.items[i];
        forall name { HasModelStep(plan.items, i, name); }
        forall name { OfModelStep(plan.items, i, name); }
        OfModelHomogeneous(plan.items[..i], item.modelName);
        var sub := if item.modelName in splits then splits[item.modelName] else BatchPlan(plan.key, [], PREFERRED);
        sub := BatchPlan(plan.key.(modelName := item.modelName), sub.items + [item], plan.reason);
        splits := splits[item.modelName := sub];
        i := i + 1;
      }
      assert plan.items[..i] == plan.items;
    }

    method ExecuteOnePart(plan: BatchPlan, part: BatchPlan, name: string)
      requires !Homogeneous(plan.items) && part == Part(plan, name) && HasModel(plan.items, name)
      modifies this`dispatched, this`batches, this`requests
      ensures dispatched == old(dispatched) + [part]
      ensures requests == old(requests) + |part.items| && batches == old(batches) + 1
      decreases !Homogeneous(plan.items), 0
    {
      OfModelHomogeneous(plan.items, name);
      var _ := ExecuteBatch(part);
    }

    method ExecuteParts(plan: BatchPlan, splits: map<string, BatchPlan>) returns (ghost names: seq<string>)
      requires !Homogeneous(plan.items)
      requires forall name :: name in splits <==> HasModel(plan.items, name)
      requires forall name :: name in splits ==> splits[name] == Part(plan, name)
      modifies this`dispatched, this`batches, this`requests
      ensures ListsModels(names, plan.items) && dispatched == old(dispatched) + Parts(plan, names)
      ensures requests == old(requests) + |plan.items|
      ensures batches - old(batches) == |dispatched| - |old(dispatched)|
      decreases !Homogeneous(plan.items), 1
    {
      names := [];
      var todo := splits.Keys;
      while todo != {}
        invariant todo <= splits.Keys
        invariant Listed(names, splits.Keys - todo)
        invariant dispatched == old(dispatched) + Parts(plan, names)
        invariant requests == old(requests) + |ItemsOf(Parts(plan, names))|
        invariant batches - old(batches) == |dispatched| - |old(dispatched)|
        decreases |todo|
      {
        var name :| name in todo;
        ExecuteOnePart(plan, splits[name], name);
        OnePartMore(plan, old(dispatched), names, splits.Keys - todo, name);
        assert splits.Keys - (todo - {name}) == splits.Keys - todo + {name};
        names := names + [name];
        todo := todo - {name};
      }
      AllParts(plan, splits, names);
    }

    /** Refuse the requests of one queue. */
    method Refuse(items: seq<Item>)
      requires forall i :: 0 <= i < |items| ==> items[i].id in promises
      requires forall i, j :: 0 <= i < j < |items| ==> items[i].id != items[j].id
      modifies this`promises
      ensures promises.Keys == old(promises).Keys
      ensures forall id :: id in promises ==>
                promises[id] == old(promises)[id] + (if Among(items, id) then [Failed(ShuttingDown)] else [])
    {
      var i := 0;
      while i < |items|
        invariant 0 <= i <= |items|
        invariant promises.Keys == old(promises).Keys
        invariant forall id :: id in promises ==>
                    promises[id] == old(promises)[id] + (if Among(items[..i], id) then [Failed(ShuttingDown)] else [])
      {
        var id := items[i].id;
        assert items[..i + 1] == items[..i] + [items[i]];
        AmongStep(items[..i], items[i]);
        promises := promises[id := promises[id] + [Failed(ShuttingDown)]];
        i := i + 1;
      }
      assert items[..i] == items;
    }

    /** The last section of stop(): refuse whatever still waits. */
    method RejectRemaining()
      requires WaitingOnce(Shared())
      modifies this`queues, this`promises
      ensures Shared() == DrainAll(old(Shared()))
    {
      var todo := queues.Keys;
      while todo != {}
        invariant todo <= queues.Keys == old(queues).Keys
        invariant forall k :: k in todo ==> queues[k] == old(queues)[k]
        invariant promises.Keys == old(promises).Keys
        invariant forall id :: id in promises ==>
                    promises[id] == old(promises)[id] + Cancellation(old(queues), old(queues).Keys - todo, id)
        decreases |todo|
      {
        var key :| key in todo;
        Refuse(queues[key].items);
        CancellationStep(old(queues), old(queues).Keys - todo, key);
        queues := queues[key := queues[key].(items := [])];
        assert old(queues).Keys - (todo - {key}) == old(queues).Keys - todo + {key};
        todo := todo - {key};
      }
      queues := map[];
      DrainedPromises(old(Shared()), promises);
    }
  }

  lemma SetTwice<K, V>(m: map<K, V>, k: K, a: V, b: V)
    ensures m[k := a][k := b] == m[k := b]
  {
  }

  lemma ScanOneMore(queues: map<SchedulingKey, ModelQueue>, order: seq<SchedulingKey>, key: SchedulingKey, now: int,
                    decideAt: SchedulingKey -> int)
    requires key in queues && key !in order && NoDuplicates(order) && forall k :: k in order ==> k in queues
    ensures NoDuplicates(order + [key]) && forall k :: k in order + [key] <==> k in order || k == key
    ensures ScanIn(queues, order + [key], now, decideAt) == Visit(ScanIn(queues, order, now, decideAt), key, now, decideAt(key))
  {
    assert (order + [key])[..|order|] == order;
  }

  predicate Among(items: seq<Item>, id: nat) {
    exists i :: 0 <= i < |items| && items[i].id == id
  }

  lemma AmongStep(items: seq<Item>, item: Item)
    ensures forall id :: Among(items + [item], id) <==> Among(items, id) || id == item.id
  {
    forall id ensures Among(items + [item], id) <==> Among(items, id) || id == item.id {
      assert (items + [item])[|items|] == item;
      if Among(items, id) {
        var i :| 0 <= i < |items| && items[i].id == id;
        assert (items + [item])[i].id == id;
      }
    }
  }

  ghost predicate WaitingIn(queues: map<SchedulingKey, ModelQueue>, keys: set<SchedulingKey>, id: nat) {
    exists k :: k in keys && k in queues && Among(queues[k].items, id)
  }

  ghost function Cancellation(queues: map<SchedulingKey, ModelQueue>, keys: set<SchedulingKey>, id: nat): seq<Reply> {
    if WaitingIn(queues, keys, id) then [Failed(ShuttingDown)] else []
  }

  /** A request waits in one queue only, so visiting another queue cancels other requests. */
  lemma CancellationStep(queues: map<SchedulingKey, ModelQueue>, keys: set<SchedulingKey>, key: SchedulingKey)
    requires key in queues && key !in keys
    requires forall k1, i1, k2, i2 | k1 in queues && k2 in queues && 0 <= i1 < |queues[k1].items| && 0 <= i2 < |queues[k2].items| ::
               queues[k1].items[i1].id == queues[k2].items[i2].id ==> k1 == k2 && i1 == i2
    ensures forall id :: Cancellation(queues, keys + {key}, id) ==
              Cancellation(queues, keys, id) + (if Among(queues[key].items, id) then [Failed(ShuttingDown)] else [])
  {
  }

  lemma DrainedPromises(s: State, promises: map<nat, seq<Reply>>)
    requires promises.Keys == s.promises.Keys
    requires forall id :: id in promises ==> promises[id] == s.promises[id] + Cancellation(s.queues, s.queues.Keys - {}, id)
    ensures promises == DrainAll(s).promises
  {
    WaitingEverywhere(s.queues);
    assert s.queues.Keys - {} == s.queues.Keys;
    forall id | id in promises ensures promises[id] == DrainAll(s).promises[id] {
      assert s.promises[id] + [] == s.promises[id];
    }
  }

  lemma WaitingEverywhere(queues: map<SchedulingKey, ModelQueue>)
    ensures forall id :: WaitingIn(queues, queues.Keys, id) <==> Waiting(queues, id)
  {
    forall id ensures WaitingIn(queues, queues.Keys, id) <==> Waiting(queues, id) {
      if Waiting(queues, id) {
        var k :| k in queues && exists i | 0 <= i < |queues[k].items| :: queues[k].items[i].id == id;
        assert Among(queues[k].items, id);
      }
    }
  }
}
