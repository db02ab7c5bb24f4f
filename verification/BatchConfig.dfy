/**
 Batching configuration: what the loader derives from the JSON `batching` section, and what
 one scheduling queue finally gets. Values are unbounded integers.
 */
module BatchConfig {
  import opened Common

  datatype PerModel = PerModel(maxBatchSize: int, preferred: seq<int>, maxQueueDelayUs: int)

  datatype Config = Config(
    maxBatchSize: int,
    maxDelayMs: int,
    preferred: seq<int>,
    maxQueueDelayUs: int,
    maxQueueSize: int,
    delayExplicit: bool,
    preferredExplicit: bool,
    models: map<string, PerModel>)

  /** The JSON section, already typed; an absent field is None. */
  datatype RawPerModel = RawPerModel(maxBatchSize: Option<int>, preferred: Option<seq<int>>, maxQueueDelayUs: Option<int>)

  datatype RawConfig = RawConfig(
    maxBatchSize: Option<int>,
    maxDelayMs: Option<int>,
    preferred: Option<seq<int>>,
    maxQueueDelayUs: Option<int>,
    maxQueueSize: Option<int>,
    models: map<string, RawPerModel>)

  /** The scheduling parameters of one queue. */
  datatype QueueConfig = QueueConfig(maxBatchSize: int, preferred: seq<int>, maxQueueDelayUs: int)

  function GetOr<T>(o: Option<T>, default: T): T {
    match o case Some(v) => v case None => default
  }

  predicate Increasing(s: seq<int>) {
    forall i, j :: 0 <= i < j < |s| ==> s[i] < s[j]
  }

  /** std::unique followed by erase. */
  function Dedup(s: seq<int>): (r: seq<int>)
    ensures forall x :: x in r <==> x in s
    ensures |r| <= |s|
    ensures s != [] ==> r != [] && r[0] == s[0]
  {
    if |s| <= 1 then s
    else
      var rest := Dedup(s[1..]);
      assert forall x :: x in s <==> x == s[0] || x in s[1..];
      if s[0] == s[1] then rest else [s[0]] + rest
  }

  lemma {:induction false} DedupIncreasing(s: seq<int>)
    requires Sorted(s)
    ensures Increasing(Dedup(s))
  {
    if |s| > 1 {
      var rest := Dedup(s[1..]);
      DedupIncreasing(s[1..]);
      if s[0] != s[1] {
        forall j | 0 <= j < |rest| ensures s[0] < rest[j] {
          assert rest[j] in s[1..];
        }
      }
    }
  }

  function SortUnique(s: seq<int>): seq<int> { Dedup(Sort(s)) }

  lemma SortUniqueIncreasing(s: seq<int>)
    ensures Increasing(SortUnique(s))
    ensures forall x :: x in SortUnique(s) <==> x in s
  {
    DedupIncreasing(Sort(s));
    SortKeepsMembers(s);
  }

  /** The sizes derived from the legacy batch size when none are given. */
  function LegacySizes(bs: int): seq<int> {
    if bs >= 8 then [Min(4, bs / 4), bs / 2, bs]
    else if bs >= 2 then [Max(1, bs / 2), bs]
    else [1]
  }

  function DerivedSizes(bs: int): seq<int> { SortUnique(LegacySizes(bs)) }

  function LoadPerModel(raw: RawPerModel): PerModel {
    PerModel(
      GetOr(raw.maxBatchSize, 0),
      match raw.preferred case Some(p) => SortUnique(p) case None => [],
      GetOr(raw.maxQueueDelayUs, 0))
  }

  function Inherit(pmc: PerModel, cfg: Config): PerModel {
    PerModel(
      if pmc.maxBatchSize <= 0 then cfg.maxBatchSize else pmc.maxBatchSize,
      if pmc.preferred == [] then cfg.preferred else pmc.preferred,
      if pmc.maxQueueDelayUs <= 0 then cfg.maxQueueDelayUs else pmc.maxQueueDelayUs)
  }

  /** The loader exits the process on a batch size or a delay below 1. */
  predicate Rejected(raw: RawConfig) {
    GetOr(raw.maxBatchSize, 8) < 1 || GetOr(raw.maxDelayMs, 10) < 1
  }

  /** The loader's result before per-model inheritance. */
  function LoadGlobal(raw: RawConfig): Config {
    var bs := GetOr(raw.maxBatchSize, 8);
    var ms := GetOr(raw.maxDelayMs, 10);
    Config(
      bs,
      ms,
      match raw.preferred case Some(p) => SortUnique(p) case None => DerivedSizes(bs),
      match raw.maxQueueDelayUs case Some(d) => Max(d, 0) case None => ms * 1000,
      GetOr(raw.maxQueueSize, 1024),
      raw.maxQueueDelayUs.Some?,
      raw.preferred.Some?,
      map name | name in raw.models :: LoadPerModel(raw.models[name]))
  }

  function Load(raw: RawConfig): Config {
    var g := LoadGlobal(raw);
    g.(models := map name | name in g.models :: Inherit(g.models[name], g))
  }

  /** The final pass of the loader: each per-model override is completed in place. */
  method CompleteOverrides(cfg: Config) returns (r: Config)
    ensures r == cfg.(models := map name | name in cfg.models :: Inherit(cfg.models[name], cfg))
  {
    var models := cfg.models;
    var todo := cfg.models.Keys;
    while todo != {}
      invariant todo <= cfg.models.Keys == models.Keys
      invariant forall name :: name in cfg.models ==>
                  models[name] == if name in todo then cfg.models[name] else Inherit(cfg.models[name], cfg)
      decreases |todo|
    {
      var name :| name in todo;
      models := models[name := Inherit(models[name], cfg)];
      todo := todo - {name};
    }
    r := cfg.(models := models);
    assert r.models == map name | name in cfg.models :: Inherit(cfg.models[name], cfg);
  }

  /** Overrides are keyed by bare name: the full name first, then the name up to the last ':'. */
  function OverrideFor(cfg: Config, modelName: string): Option<PerModel> {
    if modelName in cfg.models then Some(cfg.models[modelName])
    else match FindLast(modelName, ':')
      case Some(colon) =>
        if modelName[..colon] in cfg.models then Some(cfg.models[modelName[..colon]]) else None
      case None => None
  }

  function AtMost(s: seq<int>, bound: int): (r: seq<int>)
    ensures forall x :: x in r <==> x in s && x <= bound
  {
    if s == [] then [] else (if s[0] <= bound then [s[0]] else []) + AtMost(s[1..], bound)
  }

  lemma {:induction false} AtMostKeepsSorted(s: seq<int>, bound: int)
    requires Sorted(s)
    ensures Sorted(AtMost(s, bound))
  {
    if s != [] {
      AtMostKeepsSorted(s[1..], bound);
      var rest := AtMost(s[1..], bound);
      forall j | 0 <= j < |rest| ensures s[0] <= rest[j] {
        assert rest[j] in s[1..];
      }
    }
  }

  lemma AtMostOfLarge(s: seq<int>, bound: int)
    requires forall i :: 0 <= i < |s| ==> s[i] > bound
    ensures AtMost(s, bound) == []
  {
  }

  /** Sorted sizes no larger than the maximum; the maximum itself when none was configured. */
  function UsableSizes(sizes: seq<int>, maxBatch: int): seq<int> {
    AtMost(if sizes == [] then [maxBatch] else Sort(sizes), maxBatch)
  }

  function Choose(cfg: Config, own: Option<PerModel>): QueueConfig {
    QueueConfig(
      if own.Some? && own.value.maxBatchSize > 0 then own.value.maxBatchSize else cfg.maxBatchSize,
      if own.Some? && own.value.preferred != [] then own.value.preferred else cfg.preferred,
      if own.Some? && own.value.maxQueueDelayUs > 0 then own.value.maxQueueDelayUs else cfg.maxQueueDelayUs)
  }

  function Resolve(cfg: Config, modelName: string): QueueConfig {
    var q := Choose(cfg, OverrideFor(cfg, modelName));
    q.(preferred := UsableSizes(q.preferred, q.maxBatchSize))
  }

  /** The remove_if pass. */
  method DropAbove(sizes: seq<int>, bound: int) returns (kept: seq<int>)
    ensures kept == AtMost(sizes, bound)
  {
    kept := [];
    var i := 0;
    while i < |sizes|
      invariant 0 <= i <= |sizes|
      invariant kept + AtMost(sizes[i..], bound) == AtMost(sizes, bound)
    {
      assert sizes[i..][1..] == sizes[i + 1..];
      if sizes[i] <= bound { kept := kept + [sizes[i]]; }
      i := i + 1;
    }
  }

  method ResolveConfig(cfg: Config, modelName: string) returns (mq: QueueConfig)
    ensures mq == Resolve(cfg, modelName)
  {
    var maxBatch, sizes, delay := cfg.maxBatchSize, cfg.preferred, cfg.maxQueueDelayUs;
    var own := OverrideFor(cfg, modelName);
    if own.Some? {
      var pmc := own.value;
      if pmc.maxBatchSize > 0 { maxBatch := pmc.maxBatchSize; }
      if pmc.preferred != [] { sizes := pmc.preferred; }
      if pmc.maxQueueDelayUs > 0 { delay := pmc.maxQueueDelayUs; }
    }
    assert QueueConfig(maxBatch, sizes, delay) == Choose(cfg, own);
    SortKeepsMembers(sizes);
    var sorted := Sort(sizes);
    if sorted == [] { sorted := [maxBatch]; }
    sorted := DropAbove(sorted, maxBatch);
    mq := QueueConfig(maxBatch, sorted, delay);
  }

  /** What the scheduler relies on. */
  predicate Lawful(q: QueueConfig) {
    && q.maxBatchSize >= 1
    && Sorted(q.preferred)
    && (forall s :: s in q.preferred ==> s <= q.maxBatchSize)
    && q.maxQueueDelayUs >= 0
  }

  predicate AllPositive(s: seq<int>) { forall x :: x in s ==> x >= 1 }

  /** No size below 1 is written anywhere in the section. */
  predicate WrittenSizesPositive(raw: RawConfig) {
    && (raw.preferred.Some? ==> AllPositive(raw.preferred.value))
    && (forall name :: name in raw.models && raw.models[name].preferred.Some? ==> AllPositive(raw.models[name].preferred.value))
  }

  lemma DerivedSizesLaw(bs: int)
    requires bs >= 1
    ensures Increasing(DerivedSizes(bs)) && AllPositive(DerivedSizes(bs))
    ensures bs in DerivedSizes(bs) && forall s :: s in DerivedSizes(bs) ==> s <= bs
  {
    SortUniqueIncreasing(LegacySizes(bs));
    LegacySizesLaw(bs);
  }

  lemma LegacySizesLaw(bs: int)
    requires bs >= 1
    ensures bs in LegacySizes(bs) && forall s :: s in LegacySizes(bs) ==> 1 <= s <= bs
  {
    var raw := LegacySizes(bs);
    assert raw[|raw| - 1] == bs;
  }

  lemma UsableSizesLaw(sizes: seq<int>, maxBatch: int)
    ensures Sorted(UsableSizes(sizes, maxBatch))
    ensures forall s :: s in UsableSizes(sizes, maxBatch) ==> s <= maxBatch && (s in sizes || s == maxBatch)
  {
    SortKeepsMembers(sizes);
    AtMostKeepsSorted(if sizes == [] then [maxBatch] else Sort(sizes), maxBatch);
  }

  lemma LoadedSizesPositive(raw: RawConfig)
    requires !Rejected(raw) && WrittenSizesPositive(raw)
    ensures AllPositive(Load(raw).preferred)
    ensures forall name :: name in Load(raw).models ==> AllPositive(Load(raw).models[name].preferred)
  {
    var g := LoadGlobal(raw);
    match raw.preferred {
      case Some(p) => SortUniqueIncreasing(p);
      case None => DerivedSizesLaw(g.maxBatchSize);
    }
    forall name | name in g.models ensures AllPositive(g.models[name].preferred) {
      var r := raw.models[name];
      if r.preferred.Some? { SortUniqueIncreasing(r.preferred.value); }
    }
  }

  /**
   Every queue configuration that loading and resolving can produce is lawful; and when no written
   size is below 1, the queue's preferred sizes all lie in 1..maxBatchSize (possibly none is left).
   */
  lemma LoadedQueueConfigLaw(raw: RawConfig, modelName: string)
    requires !Rejected(raw)
    ensures Lawful(Resolve(Load(raw), modelName))
    ensures WrittenSizesPositive(raw) ==> AllPositive(Resolve(Load(raw), modelName).preferred)
  {
    var cfg := Load(raw);
    var q := Choose(cfg, OverrideFor(cfg, modelName));
    UsableSizesLaw(q.preferred, q.maxBatchSize);
    if WrittenSizesPositive(raw) { LoadedSizesPositive(raw); }
  }

  /** Filtering happens after the empty list is replaced, so a queue can end with no preferred size. */
  lemma PreferredCanVanish(raw: RawConfig, modelName: string)
    requires !Rejected(raw) && raw.models == map[]
    requires raw.preferred.Some? && raw.preferred.value != []
    requires forall s :: s in raw.preferred.value ==> s > GetOr(raw.maxBatchSize, 8)
    ensures Resolve(Load(raw), modelName).preferred == []
  {
    var cfg := Load(raw);
    SortUniqueIncreasing(raw.preferred.value);
    assert OverrideFor(cfg, modelName) == None;
    SortKeepsMembers(cfg.preferred);
    assert raw.preferred.value[0] in cfg.preferred;
    assert forall i :: 0 <= i < |Sort(cfg.preferred)| ==> Sort(cfg.preferred)[i] in Sort(cfg.preferred);
    AtMostOfLarge(Sort(cfg.preferred), cfg.maxBatchSize);
  }
}
