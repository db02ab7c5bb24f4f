/**
 What a queue's configuration is, said with the fields that are written in the JSON section and the
 loader's defaults: a model's own override wins, field by field, over the section's, and that over
 the default.
 */
module BatchConfigLaw {
  import opened Common
  import opened BatchConfig

  ghost predicate Splits(name: string, bare: string, version: string) { name == bare + ":" + version && ':' !in version }

  /** The override of a model: under its full name, else under the name before the last colon. */
  ghost predicate IsOverride(raw: RawConfig, name: string, own: Option<RawPerModel>) {
    && (name in raw.models ==> own == Some(raw.models[name]))
    && (name !in raw.models && ':' !in name ==> own == None)
    && forall bare, version | name !in raw.models && Splits(name, bare, version) ::
         own == if bare in raw.models then Some(raw.models[bare]) else None
  }

  /** The sizes that are written for a model, or derived from the batch size when there are none. */
  ghost predicate IsWritten(raw: RawConfig, own: Option<RawPerModel>, x: int) {
    var bs := if raw.maxBatchSize.Some? then raw.maxBatchSize.value else 8;
    if own.Some? && own.value.preferred.Some? && own.value.preferred.value != [] then x in own.value.preferred.value
    else if raw.preferred.Some? then x in raw.preferred.value
    else if bs >= 8 then (x == 4 && bs >= 16) || (x == bs / 4 && bs < 16) || x == bs / 2 || x == bs
    else if bs >= 2 then x == bs / 2 || x == bs
    else x == 1
  }

  // ---------------------------------------------------------------- the override found

  lemma ModelsLoaded(raw: RawConfig, name: string)
    ensures name in Load(raw).models <==> name in raw.models
    ensures name in raw.models ==> Load(raw).models[name] == Inherit(LoadPerModel(raw.models[name]), LoadGlobal(raw))
  {
  }

  /** What loading makes of an override. */
  function Completed(raw: RawConfig, own: Option<RawPerModel>): Option<PerModel> {
    if own.None? then None else Some(Inherit(LoadPerModel(own.value), LoadGlobal(raw)))
  }

  lemma OverrideFound(raw: RawConfig, name: string, own: Option<RawPerModel>)
    requires IsOverride(raw, name, own)
    ensures OverrideFor(Load(raw), name) == Completed(raw, own)
  {
    KeysLoaded(raw);
    var key := KeyFound(raw, Load(raw), name, own);
    ModelsLoaded(raw, key);
  }

  lemma KeysLoaded(raw: RawConfig)
    ensures Load(raw).models.Keys == raw.models.Keys
  {
  }

  /** The name under which the override is kept, if there is one. */
  lemma KeyFound(raw: RawConfig, cfg: Config, name: string, own: Option<RawPerModel>) returns (key: string)
    requires IsOverride(raw, name, own) && cfg.models.Keys == raw.models.Keys
    ensures own == if key in raw.models then Some(raw.models[key]) else None
    ensures OverrideFor(cfg, name) == if key in cfg.models then Some(cfg.models[key]) else None
  {
    key := name;
    if name in raw.models {
      UnderFullName(cfg, name);
    } else if ':' in name {
      var bare, version := LastSplit(name);
      OwnIsBare(raw, name, own, bare, version);
      UnderBareName(cfg, name, bare);
      key := bare;
    } else {
      NoOverride(cfg, name);
    }
  }

  lemma OwnIsBare(raw: RawConfig, name: string, own: Option<RawPerModel>, bare: string, version: string)
    requires IsOverride(raw, name, own) && name !in raw.models && Splits(name, bare, version)
    ensures own == if bare in raw.models then Some(raw.models[bare]) else None
  {
  }

  lemma UnderFullName(cfg: Config, name: string)
    requires name in cfg.models
    ensures OverrideFor(cfg, name) == Some(cfg.models[name])
  {
  }

  lemma LastSplit(name: string) returns (bare: string, version: string)
    requires ':' in name
    ensures Splits(name, bare, version) && FindLast(name, ':') == Some(|bare|)
  {
    var p := FindLast(name, ':').value;
    bare, version := name[..p], name[p + 1..];
  }

  lemma UnderBareName(cfg: Config, name: string, bare: string)
    requires name !in cfg.models && FindLast(name, ':') == Some(|bare|) && |bare| <= |name| && name[..|bare|] == bare
    ensures OverrideFor(cfg, name) == if bare in cfg.models then Some(cfg.models[bare]) else None
  {
  }

  lemma NoOverride(cfg: Config, name: string)
    requires name !in cfg.models && ':' !in name
    ensures OverrideFor(cfg, name) == None
  {
  }

  // ---------------------------------------------------------------- the sizes

  lemma {:induction false} SortOfIncreasing(s: seq<int>)
    requires Increasing(s)
    ensures Sort(s) == s
    decreases |s|
  {
    if s != [] {
      IncreasingBehind(s);
      SortOfIncreasing(s[1..]);
      SortUnfolds(s);
      InsertInFront(s[0], s[1..]);
      assert s == [s[0]] + s[1..];
    }
  }

  lemma SortUnfolds(s: seq<int>)
    requires s != []
    ensures Sort(s) == Insert(s[0], Sort(s[1..]))
  {
  }

  lemma IncreasingBehind(s: seq<int>)
    requires s != [] && Increasing(s)
    ensures Increasing(s[1..]) && (|s| > 1 ==> s[0] <= s[1..][0])
  {
  }

  lemma InsertInFront(x: int, s: seq<int>)
    requires s == [] || x <= s[0]
    ensures Insert(x, s) == [x] + s
  {
  }

  lemma {:induction false} AtMostKeepsIncreasing(s: seq<int>, bound: int)
    requires Increasing(s)
    ensures Increasing(AtMost(s, bound))
    decreases |s|
  {
    if s != [] {
      AtMostKeepsIncreasing(s[1..], bound);
      var rest := AtMost(s[1..], bound);
      forall j | 0 <= j < |rest| ensures s[0] < rest[j] { assert rest[j] in s[1..]; }
    }
  }

  lemma UsableOfIncreasing(sizes: seq<int>, maxBatch: int)
    requires Increasing(sizes)
    ensures Increasing(UsableSizes(sizes, maxBatch))
    ensures forall x :: x in UsableSizes(sizes, maxBatch) <==> x <= maxBatch && (x in sizes || (sizes == [] && x == maxBatch))
  {
    SortOfIncreasing(sizes);
    AtMostKeepsIncreasing(if sizes == [] then [maxBatch] else sizes, maxBatch);
  }

  /** The list a queue starts from: increasing, and its members are the written sizes. */
  lemma ChosenSizes(raw: RawConfig, own: Option<RawPerModel>, sizes: seq<int>)
    requires !Rejected(raw)
    requires sizes == Choose(Load(raw), Completed(raw, own)).preferred
    ensures Increasing(sizes) && forall x :: x in sizes <==> IsWritten(raw, own, x)
  {
    if own.Some? && own.value.preferred.Some? && own.value.preferred.value != [] {
      var written := own.value.preferred.value;
      SortUniqueIncreasing(written);
      assert written[0] in SortUnique(written);
    } else {
      if own.Some? && own.value.preferred.Some? { assert SortUnique([]) == []; }
      GlobalSizes(raw);
      assert sizes == LoadGlobal(raw).preferred;
      forall x ensures x in sizes <==> IsWritten(raw, own, x) { assert x in sizes <==> IsWritten(raw, None, x); }
    }
  }

  lemma GlobalSizes(raw: RawConfig)
    requires !Rejected(raw)
    ensures Increasing(LoadGlobal(raw).preferred)
    ensures forall x :: x in LoadGlobal(raw).preferred <==> IsWritten(raw, None, x)
  {
    if raw.preferred.Some? {
      SortUniqueIncreasing(raw.preferred.value);
    } else {
      var bs := GetOr(raw.maxBatchSize, 8);
      SortUniqueIncreasing(LegacySizes(bs));
      forall x ensures x in LoadGlobal(raw).preferred <==> IsWritten(raw, None, x) { LegacyMembers(bs, x); }
    }
  }

  lemma LegacyMembers(bs: int, x: int)
    requires bs >= 1
    ensures x in LegacySizes(bs) <==>
            if bs >= 8 then (x == 4 && bs >= 16) || (x == bs / 4 && bs < 16) || x == bs / 2 || x == bs
            else if bs >= 2 then x == bs / 2 || x == bs
            else x == 1
  {
  }

  // ---------------------------------------------------------------- the law

  /**
   The configuration a queue of the model gets. The sizes are strictly increasing, so that their
   members, the written sizes no larger than the maximum, say which list it is.
   */
  lemma QueueConfigLaw(raw: RawConfig, name: string, own: Option<RawPerModel>, q: QueueConfig)
    requires !Rejected(raw) && IsOverride(raw, name, own) && q == Resolve(Load(raw), name)
    ensures q.maxBatchSize == if own.Some? && own.value.maxBatchSize.Some? && own.value.maxBatchSize.value > 0
                              then own.value.maxBatchSize.value
                              else if raw.maxBatchSize.Some? then raw.maxBatchSize.value else 8
    ensures q.maxQueueDelayUs == if own.Some? && own.value.maxQueueDelayUs.Some? && own.value.maxQueueDelayUs.value > 0
                                 then own.value.maxQueueDelayUs.value
                                 else if raw.maxQueueDelayUs.Some? then (if raw.maxQueueDelayUs.value > 0 then raw.maxQueueDelayUs.value else 0)
                                 else if raw.maxDelayMs.Some? then 1000 * raw.maxDelayMs.value else 10000
    ensures Increasing(q.preferred)
    ensures forall x :: x in q.preferred <==>
              x <= q.maxBatchSize && (IsWritten(raw, own, x) || (x == q.maxBatchSize && forall y :: !IsWritten(raw, own, y)))
    ensures Load(raw).maxQueueSize == if raw.maxQueueSize.Some? then raw.maxQueueSize.value else 1024
  {
    OverrideFound(raw, name, own);
    FieldsChosen(raw, own, Choose(Load(raw), Completed(raw, own)));
    SizesKept(raw, own, Choose(Load(raw), Completed(raw, own)).preferred, q.maxBatchSize);
  }

  lemma FieldsChosen(raw: RawConfig, own: Option<RawPerModel>, q: QueueConfig)
    requires q == Choose(Load(raw), Completed(raw, own))
    ensures q.maxBatchSize == if own.Some? && own.value.maxBatchSize.Some? && own.value.maxBatchSize.value > 0
                              then own.value.maxBatchSize.value
                              else if raw.maxBatchSize.Some? then raw.maxBatchSize.value else 8
    ensures q.maxQueueDelayUs == if own.Some? && own.value.maxQueueDelayUs.Some? && own.value.maxQueueDelayUs.value > 0
                                 then own.value.maxQueueDelayUs.value
                                 else if raw.maxQueueDelayUs.Some? then (if raw.maxQueueDelayUs.value > 0 then raw.maxQueueDelayUs.value else 0)
                                 else if raw.maxDelayMs.Some? then 1000 * raw.maxDelayMs.value else 10000
    ensures Load(raw).maxQueueSize == if raw.maxQueueSize.Some? then raw.maxQueueSize.value else 1024
  {
    SectionValues(raw);
  }

  lemma SectionValues(raw: RawConfig)
    ensures Load(raw).maxBatchSize == LoadGlobal(raw).maxBatchSize == if raw.maxBatchSize.Some? then raw.maxBatchSize.value else 8
    ensures Load(raw).maxQueueDelayUs == LoadGlobal(raw).maxQueueDelayUs
            == if raw.maxQueueDelayUs.Some? then (if raw.maxQueueDelayUs.value > 0 then raw.maxQueueDelayUs.value else 0)
               else if raw.maxDelayMs.Some? then 1000 * raw.maxDelayMs.value else 10000
    ensures Load(raw).maxQueueSize == if raw.maxQueueSize.Some? then raw.maxQueueSize.value else 1024
  {
    GlobalStays(raw, LoadGlobal(raw), Load(raw));
    match raw.maxBatchSize { case Some(_) => case None => }
    match raw.maxQueueDelayUs { case Some(_) => case None => }
    match raw.maxDelayMs { case Some(_) => case None => }
    match raw.maxQueueSize { case Some(_) => case None => }
  }

  lemma GlobalStays(raw: RawConfig, g: Config, cfg: Config)
    requires g == LoadGlobal(raw) && cfg == Load(raw)
    ensures cfg.maxBatchSize == g.maxBatchSize && cfg.maxQueueDelayUs == g.maxQueueDelayUs && cfg.maxQueueSize == g.maxQueueSize
  {
  }

  lemma SizesKept(raw: RawConfig, own: Option<RawPerModel>, sizes: seq<int>, maxBatch: int)
    requires !Rejected(raw) && sizes == Choose(Load(raw), Completed(raw, own)).preferred
    ensures Increasing(UsableSizes(sizes, maxBatch))
    ensures forall x :: x in UsableSizes(sizes, maxBatch) <==>
              x <= maxBatch && (IsWritten(raw, own, x) || (x == maxBatch && forall y :: !IsWritten(raw, own, y)))
  {
    ChosenSizes(raw, own, sizes);
    UsableOfIncreasing(sizes, maxBatch);
    if sizes == [] {
      forall y ensures !IsWritten(raw, own, y) { assert y in sizes <==> IsWritten(raw, own, y); }
    } else {
      assert sizes[0] in sizes;
    }
  }

  /** The loader lets through exactly what leaves it with a positive batch size and a positive delay. */
  lemma RejectedIff(raw: RawConfig)
    ensures !Rejected(raw) <==> Load(raw).maxBatchSize >= 1 && Load(raw).maxDelayMs >= 1
    ensures Rejected(raw) <==> (raw.maxBatchSize.Some? && raw.maxBatchSize.value < 1) || (raw.maxDelayMs.Some? && raw.maxDelayMs.value < 1)
  {
    SectionValues(raw);
    match raw.maxBatchSize { case Some(_) => case None => }
    match raw.maxDelayMs { case Some(_) => case None => }
  }

  /** What loading leaves in an override: each field that was written and is usable, else the section's. */
  lemma OverrideLaw(raw: RawConfig, name: string)
    requires name in raw.models
    ensures name in Load(raw).models
    ensures var own, loaded := raw.models[name], Load(raw).models[name];
            && loaded.maxBatchSize == (if own.maxBatchSize.Some? && own.maxBatchSize.value > 0
                                       then own.maxBatchSize.value else Load(raw).maxBatchSize)
            && loaded.maxQueueDelayUs == (if own.maxQueueDelayUs.Some? && own.maxQueueDelayUs.value > 0
                                          then own.maxQueueDelayUs.value else Load(raw).maxQueueDelayUs)
            && if own.preferred.Some? && own.preferred.value != []
               then Increasing(loaded.preferred) && forall x :: x in loaded.preferred <==> x in own.preferred.value
               else loaded.preferred == Load(raw).preferred
  {
    ModelsLoaded(raw, name);
    var own := raw.models[name];
    if own.preferred.Some? {
      SortUniqueIncreasing(own.preferred.value);
      if own.preferred.value != [] { assert own.preferred.value[0] in SortUnique(own.preferred.value); }
    }
  }
}
