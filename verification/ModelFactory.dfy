/**
 The versioned model registry: version comparison, specs of the form "name:version", and four maps
 that registering and unloading keep in step.
 */
module ModelFactories {
  import opened Common

  type Engine = nat

  // ---------------------------------------------------------------- versions

  predicate IsDigit(c: char) { '0' <= c <= '9' }

  /** The number a run of digits denotes. */
  function Number(num: string): nat
    requires forall i :: 0 <= i < |num| ==> IsDigit(num[i])
  {
    if num == "" then 0
    else
      assert IsDigit(num[|num| - 1]);
      Number(num[..|num| - 1]) * 10 + (num[|num| - 1] as int - '0' as int)
  }

  /** Length of the digits in front. */
  function DigitsInFront(s: string): (n: nat)
    ensures n <= |s| && (forall i :: 0 <= i < n ==> IsDigit(s[i])) && (n < |s| ==> !IsDigit(s[n]))
  {
    if s == "" || !IsDigit(s[0]) then 0 else 1 + DigitsInFront(s[1..])
  }

  /** The numbers in a version text, in order: every maximal run of digits is one. */
  function Components(s: string): seq<nat>
    decreases |s|
  {
    var n := DigitsInFront(s);
    if n > 0 then [Number(s[..n])] + Components(s[n..])
    else if s == "" then []
    else Components(s[1..])
  }

  /** A component; those that are missing are 0. */
  function Part(v: seq<nat>, i: nat): nat { if i < |v| then v[i] else 0 }

  /** First position at which two versions differ, or `n`. */
  function Difference(a: seq<nat>, b: seq<nat>, i: nat, n: nat): (d: nat)
    requires i <= n
    ensures i <= d <= n && (forall j :: i <= j < d ==> Part(a, j) == Part(b, j)) && (d < n ==> Part(a, d) != Part(b, d))
    decreases n - i
  {
    if i == n || Part(a, i) != Part(b, i) then i else Difference(a, b, i + 1, n)
  }

  function CompareParts(a: seq<nat>, b: seq<nat>): int {
    var n := Max(|a|, |b|);
    var d := Difference(a, b, 0, n);
    if d == n then 0 else if Part(a, d) < Part(b, d) then -1 else 1
  }

  function Compare(a: string, b: string): int { CompareParts(Components(a), Components(b)) }

  ghost predicate SameParts(a: seq<nat>, b: seq<nat>) { forall i: nat :: Part(a, i) == Part(b, i) }

  /** 0 exactly when all components agree, missing ones counting as 0. */
  lemma CompareEqual(a: string, b: string)
    ensures Compare(a, b) == 0 <==> SameParts(Components(a), Components(b))
  {
    var va, vb := Components(a), Components(b);
    var n := Max(|va|, |vb|);
    var d := Difference(va, vb, 0, n);
    if d == n {
      forall i: nat ensures Part(va, i) == Part(vb, i) { if i < n { assert i < d; } }
    } else {
      assert Part(va, d) != Part(vb, d);
    }
  }

  lemma CompareAntisymmetric(a: string, b: string)
    ensures Compare(a, b) == -Compare(b, a)
  {
    var va, vb := Components(a), Components(b);
    SameDifference(va, vb, 0, Max(|va|, |vb|));
  }

  lemma {:induction false} SameDifference(a: seq<nat>, b: seq<nat>, i: nat, n: nat)
    requires i <= n
    ensures Difference(a, b, i, n) == Difference(b, a, i, n)
    decreases n - i
  {
    if i < n && Part(a, i) == Part(b, i) { SameDifference(a, b, i + 1, n); }
  }

  /** Compared over any sufficient length the outcome is the same. */
  lemma CompareUpTo(a: seq<nat>, b: seq<nat>, n: nat)
    requires n >= |a| && n >= |b|
    ensures var d := Difference(a, b, 0, n);
            CompareParts(a, b) == if d == n then 0 else if Part(a, d) < Part(b, d) then -1 else 1
  {
    var m := Max(|a|, |b|);
    var e := Difference(a, b, 0, m);
    var d := Difference(a, b, 0, n);
    if d < n {
      assert d < m;
      assert e == d;
    } else {
      assert e == m;
    }
  }

  lemma CompareTransitive(a: string, b: string, c: string)
    requires Compare(a, b) <= 0 && Compare(b, c) <= 0
    ensures Compare(a, c) <= 0
    ensures Compare(a, c) == 0 ==> Compare(a, b) == 0 && Compare(b, c) == 0
  {
    var va, vb, vc := Components(a), Components(b), Components(c);
    var n := Max(|va|, Max(|vb|, |vc|));
    CompareUpTo(va, vb, n);
    CompareUpTo(vb, vc, n);
    CompareUpTo(va, vc, n);
    var ab, bc, ac := Difference(va, vb, 0, n), Difference(vb, vc, 0, n), Difference(va, vc, 0, n);
    var d := Min(ab, bc);
    assert forall j :: 0 <= j < d ==> Part(va, j) == Part(vc, j);
    if d < n {
      assert Part(va, d) < Part(vc, d);
      assert ac == d;
    }
  }

  /** Version comparison is a total preorder. */
  lemma CompareTotalPreorder(a: string, b: string, c: string)
    ensures Compare(a, a) == 0
    ensures Compare(a, b) <= 0 || Compare(b, a) <= 0
    ensures Compare(a, b) <= 0 && Compare(b, c) <= 0 ==> Compare(a, c) <= 0
  {
    CompareAntisymmetric(a, b);
    CompareEqual(a, a);
    if Compare(a, b) <= 0 && Compare(b, c) <= 0 { CompareTransitive(a, b, c); }
  }

  method ParseComponents(s: string) returns (parts: seq<nat>)
    ensures parts == Components(s)
  {
    parts := [];
    var num, rest := "", s;
    assert "" + s == s;
    while rest != ""
      invariant forall j :: 0 <= j < |num| ==> IsDigit(num[j])
      invariant Components(s) == parts + Components(num + rest)
      decreases |rest|
    {
      var c, later := rest[0], rest[1..];
      assert rest == [c] + later;
      num, parts := OneCharacter(num, c, parts, later);
      rest := later;
    }
    parts := LastRun(num, parts, rest);
  }

  method LastRun(num: string, parts: seq<nat>, ghost rest: string) returns (all: seq<nat>)
    requires (forall j :: 0 <= j < |num| ==> IsDigit(num[j])) && rest == ""
    ensures all == parts + Components(num + rest)
  {
    RunEnds(num, rest);
    all := if num != "" then parts + [Number(num)] else parts;
  }

  /** A digit extends the current run; any other character ends it. */
  method OneCharacter(num: string, c: char, parts: seq<nat>, ghost rest: string) returns (next: string, found: seq<nat>)
    requires forall j :: 0 <= j < |num| ==> IsDigit(num[j])
    ensures forall j :: 0 <= j < |next| ==> IsDigit(next[j])
    ensures parts + Components(num + ([c] + rest)) == found + Components(next + rest)
  {
    next, found := "", parts;
    if IsDigit(c) {
      assert num + ([c] + rest) == num + [c] + rest;
      next := num + [c];
    } else {
      NonDigitEnds(num, c, rest);
      if num != "" {
        found := parts + [Number(num)];
        Regroup(parts, [Number(num)], Components(rest));
      }
    }
  }

  lemma Regroup(a: seq<nat>, b: seq<nat>, c: seq<nat>)
    ensures a + (b + c) == a + b + c
  {
  }

  lemma NonDigitEnds(num: string, c: char, rest: string)
    requires (forall j :: 0 <= j < |num| ==> IsDigit(num[j])) && !IsDigit(c)
    ensures "" + rest == rest
    ensures Components(num + ([c] + rest)) == if num == "" then Components(rest) else [Number(num)] + Components(rest)
  {
    RunEnds(num, [c] + rest);
    assert ([c] + rest)[1..] == rest;
  }

  /** A run of digits ends where something else, or nothing, follows. */
  lemma RunEnds(num: string, rest: string)
    requires (forall j :: 0 <= j < |num| ==> IsDigit(num[j])) && (rest != "" ==> !IsDigit(rest[0]))
    ensures Components(num + rest) ==
            (if num == "" then [] else [Number(num)]) + (if rest == "" then [] else Components(rest[1..]))
  {
    var s := num + rest;
    assert DigitsInFront(s) == |num|;
    assert s[..|num|] == num && s[|num|..] == rest;
    if num == "" { assert s == rest; }
    assert rest != "" ==> DigitsInFront(rest) == 0;
  }

  method CompareVersions(a: string, b: string) returns (r: int)
    ensures r == Compare(a, b)
  {
    var va := ParseComponents(a);
    var vb := ParseComponents(b);
    var n := Max(|va|, |vb|);
    var i := 0;
    while i < n
      invariant 0 <= i <= n && Difference(va, vb, 0, n) == Difference(va, vb, i, n)
    {
      var x := if i < |va| then va[i] else 0;
      var y := if i < |vb| then vb[i] else 0;
      if x != y { return if x < y then -1 else 1; }
      i := i + 1;
    }
    r := 0;
  }

  /** "name:version", split at the last colon; no colon means no version. */
  function ParseName(spec: string): (string, string) {
    match FindLast(spec, ':')
    case None => (spec, "")
    case Some(p) => (spec[..p], spec[p + 1..])
  }

  lemma ParseNamed(name: string, version: string)
    requires ':' !in version
    ensures ParseName(name + ":" + version) == (name, version)
    ensures ':' !in name ==> ParseName(name) == (name, "")
  {
    var spec := name + ":" + version;
    assert spec[|name|] == ':' && spec[|name| + 1..] == version && spec[..|name|] == name;
    LastIs(spec, ':', |name|);
  }

  // ---------------------------------------------------------------- the registry

  datatype Meta = Meta(kind: string, path: string)

  /** The laws are stated for any comparison that is a total preorder, and hold for Compare. */
  type Order = (string, string) -> int

  ghost predicate Preorder(cmp: Order) {
    && (forall a, b :: cmp(a, b) == -cmp(b, a))
    && (forall a, b, c :: cmp(a, b) <= 0 && cmp(b, c) <= 0 ==> cmp(a, c) <= 0)
  }

  lemma CompareIsPreorder()
    ensures Preorder(Compare)
  {
    forall a, b ensures Compare(a, b) == -Compare(b, a) { CompareAntisymmetric(a, b); }
    forall a, b, c | Compare(a, b) <= 0 && Compare(b, c) <= 0 ensures Compare(a, c) <= 0 { CompareTransitive(a, b, c); }
  }

  datatype Registry = Registry(
    models: map<string, map<string, Engine>>, latest: map<string, string>,
    metadata: map<string, map<string, Meta>>, fullMeta: map<string, map<string, Meta>>)

  const NothingLoaded := Registry(map[], map[], map[], map[])

  function At<T>(m: map<string, map<string, T>>, name: string): map<string, T> { if name in m then m[name] else map[] }

  function Put<T>(m: map<string, map<string, T>>, name: string, version: string, x: T): map<string, map<string, T>> {
    m[name := At(m, name)[version := x]]
  }

  /** operator[] followed by erase: the entry of the name exists afterwards. */
  function Erase<T>(m: map<string, map<string, T>>, name: string, version: string): map<string, map<string, T>> {
    m[name := At(m, name) - {version}]
  }

  predicate Loaded(r: Registry, name: string, version: string) { version in At(r.models, name) }

  function Register(cmp: Order, r: Registry, name: string, version: string, e: Engine, meta: Meta): Registry {
    Registry(Put(r.models, name, version, e),
             if name !in r.latest || cmp(version, r.latest[name]) > 0 then r.latest[name := version] else r.latest,
             Put(r.metadata, name, version, meta), Put(r.fullMeta, name, version, meta))
  }

  /** A loaded version than which none is greater. */
  ghost predicate Greatest<T>(cmp: Order, versions: map<string, T>, v: string) {
    v in versions && forall u :: u in versions ==> cmp(u, v) <= 0
  }

  /** Unloading a loaded version; which of several equally great versions becomes the latest is left open. */
  ghost predicate Unloaded(cmp: Order, r: Registry, name: string, version: string, r': Registry) {
    var left := At(r.models, name) - {version};
    if left.Keys == {} then
      r' == Registry(r.models - {name}, r.latest - {name}, r.metadata - {name}, r.fullMeta - {name})
    else
      && r'.models == Erase(r.models, name, version)
      && r'.metadata == Erase(r.metadata, name, version) && r'.fullMeta == Erase(r.fullMeta, name, version)
      && name in r'.latest && r'.latest == r.latest[name := r'.latest[name]] && Greatest(cmp, left, r'.latest[name])
  }

  /** The maps agree on names and versions, no name is without versions, the latest is a greatest one. */
  ghost predicate Sound(cmp: Order, r: Registry) {
    && r.latest.Keys == r.models.Keys == r.metadata.Keys == r.fullMeta.Keys
    && forall name :: name in r.models ==> SoundAt(cmp, r, name)
  }

  ghost predicate SoundAt(cmp: Order, r: Registry, name: string)
    requires name in r.models
  {
    && name in r.latest && name in r.metadata && name in r.fullMeta
    && SoundEntry(cmp, r.models[name], r.latest[name], r.metadata[name], r.fullMeta[name])
  }

  ghost predicate SoundEntry(cmp: Order, versions: map<string, Engine>, latest: string, metadata: map<string, Meta>, fullMeta: map<string, Meta>) {
    versions.Keys == metadata.Keys == fullMeta.Keys && Greatest(cmp, versions, latest)
  }

  function GetModel(r: Registry, name: string, version: string): Option<Engine> {
    if version in At(r.models, name) then Some(At(r.models, name)[version]) else None
  }

  function Latest(r: Registry, name: string): string { if name in r.latest then r.latest[name] else "" }

  function Lookup(r: Registry, spec: string): Option<Engine> {
    var (name, version) := ParseName(spec);
    if version == "" then GetModel(r, name, Latest(r, name)) else GetModel(r, name, version)
  }

  // ---------------------------------------------------------------- the registry as written

  class ModelFactory {
    var models: map<string, map<string, Engine>>
    var latestVersions: map<string, string>
    var metadata: map<string, map<string, Meta>>
    var fullMeta: map<string, map<string, Meta>>

    function View(): Registry
      reads this
    {
      Registry(models, latestVersions, metadata, fullMeta)
    }

    constructor ()
      ensures View() == NothingLoaded
    {
      models, latestVersions, metadata, fullMeta := map[], map[], map[], map[];
    }

    method RegisterModel(name: string, version: string, engine: Engine, meta: Meta)
      modifies this
      ensures name in latestVersions && forall n :: n != name ==> (n in latestVersions <==> n in old(latestVersions))
      ensures forall n :: n != name && n in latestVersions ==> latestVersions[n] == old(latestVersions)[n]
      ensures latestVersions[name] == if name in old(latestVersions) && Compare(version, old(latestVersions)[name]) <= 0
                                      then old(latestVersions)[name] else version
      ensures View() == Register(Compare, old(View()), name, version, engine, meta)
    {
      models := Put(models, name, version, engine);
      metadata := Put(metadata, name, version, meta);
      fullMeta := Put(fullMeta, name, version, meta);
      if name !in latestVersions {
        latestVersions := latestVersions[name := version];
      } else {
        var order := CompareVersions(version, latestVersions[name]);
        if order > 0 { latestVersions := latestVersions[name := version]; }
      }
    }

    method UnloadModel(name: string, version: string) returns (ok: bool)
      modifies this
      ensures ok <==> Loaded(old(View()), name, version)
      ensures if ok then Unloaded(Compare, old(View()), name, version, View()) else View() == old(View())
    {
      if name !in models { return false; }
      if version !in models[name] { return false; }
      var left := models[name] - {version};
      if left.Keys == {} {
        EraseThenRemove(models, name, version);
        EraseThenRemove(metadata, name, version);
        EraseThenRemove(fullMeta, name, version);
      }
      models := Erase(models, name, version);
      metadata := Erase(metadata, name, version);
      fullMeta := Erase(fullMeta, name, version);
      if left.Keys == {} {
        models, metadata, fullMeta := models - {name}, metadata - {name}, fullMeta - {name};
        latestVersions := latestVersions - {name};
      } else {
        var newLatest := NewLatest(left);
        latestVersions := latestVersions[name := newLatest];
      }
      ok := true;
    }

    method Get(spec: string) returns (engine: Option<Engine>)
      ensures engine == Lookup(View(), spec)
    {
      var (name, version) := ParseName(spec);
      if version == "" {
        version := if name in latestVersions then latestVersions[name] else "";
      }
      if name !in models { return None; }
      if version !in models[name] { return None; }
      engine := Some(models[name][version]);
    }
  }

  lemma EraseThenRemove<T>(m: map<string, map<string, T>>, name: string, version: string)
    ensures Erase(m, name, version) - {name} == m - {name}
  {
  }

  /** One pass over the versions; an empty candidate is always replaced. */
  method NewLatest(versions: map<string, Engine>) returns (newLatest: string)
    requires versions.Keys != {}
    ensures Greatest(Compare, versions, newLatest)
  {
    newLatest := "";
    var todo := versions.Keys;
    while todo != {}
      invariant todo <= versions.Keys
      invariant newLatest != "" ==> newLatest in versions.Keys - todo
      invariant todo != versions.Keys && newLatest == "" ==> "" in versions.Keys - todo
      invariant forall u :: u in versions.Keys - todo ==> Compare(u, newLatest) <= 0
      decreases |todo|
    {
      var v :| v in todo;
      var take := newLatest == "";
      if !take {
        var order := CompareVersions(v, newLatest);
        take := order > 0;
      }
      forall u | u in versions.Keys - todo && take ensures Compare(u, v) <= 0 {
        EmptyIsLeast(v);
        CompareAntisymmetric(v, newLatest);
        CompareTransitive(u, newLatest, v);
      }
      CompareEqual(v, v);
      if take { newLatest := v; }
      todo := todo - {v};
    }
  }

  /** A version without digits is not greater than any. */
  lemma EmptyIsLeast(v: string)
    ensures Compare("", v) <= 0
  {
    assert Components("") == [];
    var d := Difference([], Components(v), 0, Max(0, |Components(v)|));
    assert Part([], d) == 0;
  }

  // ---------------------------------------------------------------- every run

  datatype Operation =
    | Registering(name: string, version: string, engine: Engine, meta: Meta)
    | Unloading(name: string, version: string)

  ghost predicate Does(cmp: Order, r: Registry, op: Operation, r': Registry) {
    match op
    case Registering(name, version, engine, meta) => r' == Register(cmp, r, name, version, engine, meta)
    case Unloading(name, version) =>
      if Loaded(r, name, version) then Unloaded(cmp, r, name, version, r') else r' == r
  }

  ghost predicate Reached(cmp: Order, r: Registry, ops: seq<Operation>)
    decreases |ops|
  {
    if ops == [] then r == NothingLoaded
    else
      var earlier, last := ops[..|ops| - 1], ops[|ops| - 1];
      exists q :: Reached(cmp, q, earlier) && Does(cmp, q, last, r)
  }

  /** Another name's entries are the same in both. */
  ghost predicate SameAt(r: Registry, r': Registry, n: string) {
    && n in r.models && n in r'.models && n in r.latest && n in r'.latest
    && n in r.metadata && n in r'.metadata && n in r.fullMeta && n in r'.fullMeta
    && r.models[n] == r'.models[n] && r.latest[n] == r'.latest[n]
    && r.metadata[n] == r'.metadata[n] && r.fullMeta[n] == r'.fullMeta[n]
  }

  lemma SameStaysSound(cmp: Order, r: Registry, r': Registry, n: string)
    requires SameAt(r, r', n) && SoundAt(cmp, r, n)
    ensures SoundAt(cmp, r', n)
  {
  }

  lemma RegisteredEntry(cmp: Order, versions: map<string, Engine>, latest: string, metadata: map<string, Meta>, fullMeta: map<string, Meta>,
                        version: string, e: Engine, meta: Meta)
    requires Preorder(cmp) && SoundEntry(cmp, versions, latest, metadata, fullMeta)
    ensures SoundEntry(cmp, versions[version := e], if cmp(version, latest) > 0 then version else latest,
                       metadata[version := meta], fullMeta[version := meta])
  {
    NewestIsGreatest(cmp, versions, latest, version);
    var versions', metadata', fullMeta' := versions[version := e], metadata[version := meta], fullMeta[version := meta];
    assert versions'.Keys == versions.Keys + {version} && metadata'.Keys == metadata.Keys + {version};
    assert fullMeta'.Keys == fullMeta.Keys + {version};
  }

  lemma FirstEntry(cmp: Order, version: string, e: Engine, meta: Meta)
    requires Preorder(cmp)
    ensures SoundEntry(cmp, map[version := e], version, map[version := meta], map[version := meta])
  {
    assert cmp(version, version) == -cmp(version, version);
    assert map[version := e].Keys == {version} == map[version := meta].Keys;
  }

  lemma RegisteredSound(cmp: Order, r: Registry, name: string, version: string, e: Engine, meta: Meta)
    requires Preorder(cmp) && Sound(cmp, r)
    ensures var r' := Register(cmp, r, name, version, e, meta); name in r'.models && SoundAt(cmp, r', name)
  {
    if name in r.models {
      assert SoundAt(cmp, r, name);
      RegisteredEntry(cmp, r.models[name], r.latest[name], r.metadata[name], r.fullMeta[name], version, e, meta);
    } else {
      FirstEntry(cmp, version, e, meta);
    }
  }

  lemma RegisterSound(cmp: Order, r: Registry, name: string, version: string, e: Engine, meta: Meta)
    requires Preorder(cmp) && Sound(cmp, r)
    ensures Sound(cmp, Register(cmp, r, name, version, e, meta))
  {
    var r' := Register(cmp, r, name, version, e, meta);
    RegisteredSound(cmp, r, name, version, e, meta);
    RegisteredKeys(cmp, r, name, version, e, meta);
    forall n | n in r'.models && n != name ensures SoundAt(cmp, r', n) {
      assert SoundAt(cmp, r, n);
      OtherNames(cmp, r, name, version, e, meta, n);
      SameStaysSound(cmp, r, r', n);
    }
  }

  lemma RegisteredKeys(cmp: Order, r: Registry, name: string, version: string, e: Engine, meta: Meta)
    requires r.latest.Keys == r.models.Keys == r.metadata.Keys == r.fullMeta.Keys
    ensures var r' := Register(cmp, r, name, version, e, meta);
            r'.latest.Keys == r'.models.Keys == r'.metadata.Keys == r'.fullMeta.Keys == r.models.Keys + {name}
  {
    PutKeys(r.models, name, version, e);
    PutKeys(r.metadata, name, version, meta);
    PutKeys(r.fullMeta, name, version, meta);
    assert r.latest[name := version].Keys == r.latest.Keys + {name};
    assert name in r.latest ==> r.latest.Keys == r.latest.Keys + {name};
  }

  lemma PutKeys<T>(m: map<string, map<string, T>>, name: string, version: string, x: T)
    ensures Put(m, name, version, x).Keys == m.Keys + {name}
    ensures forall n :: n in m && n != name ==> Put(m, name, version, x)[n] == m[n]
  {
  }

  lemma OtherNames(cmp: Order, r: Registry, name: string, version: string, e: Engine, meta: Meta, n: string)
    requires n != name && n in r.models && n in r.latest && n in r.metadata && n in r.fullMeta
    ensures SameAt(r, Register(cmp, r, name, version, e, meta), n)
  {
  }

  lemma NewestIsGreatest(cmp: Order, versions: map<string, Engine>, latest: string, version: string)
    requires Preorder(cmp) && Greatest(cmp, versions, latest)
    ensures forall u :: u in versions || u == version ==>
      cmp(u, if cmp(version, latest) > 0 then version else latest) <= 0
  {
  }

  lemma LastUnloadedSound(cmp: Order, r: Registry, name: string, r': Registry)
    requires Sound(cmp, r)
    requires r' == Registry(r.models - {name}, r.latest - {name}, r.metadata - {name}, r.fullMeta - {name})
    ensures Sound(cmp, r')
  {
    assert r'.models.Keys == r.models.Keys - {name} && r'.latest.Keys == r.latest.Keys - {name};
    assert r'.metadata.Keys == r.metadata.Keys - {name} && r'.fullMeta.Keys == r.fullMeta.Keys - {name};
    forall n | n in r'.models ensures SoundAt(cmp, r', n) {
      assert SoundAt(cmp, r, n);
      assert SameAt(r, r', n);
      SameStaysSound(cmp, r, r', n);
    }
  }

  lemma OneUnloadedSound(cmp: Order, r: Registry, name: string, version: string, r': Registry)
    requires Sound(cmp, r) && Loaded(r, name, version) && Unloaded(cmp, r, name, version, r')
    requires (At(r.models, name) - {version}).Keys != {}
    ensures Sound(cmp, r')
  {
    assert SoundAt(cmp, r, name);
    UnloadedKeys(cmp, r, name, version, r');
    forall n | n in r'.models ensures SoundAt(cmp, r', n) {
      assert SoundAt(cmp, r, n);
      if n != name {
        OthersUnloaded(cmp, r, name, version, r', n);
        SameStaysSound(cmp, r, r', n);
      }
    }
  }

  lemma UnloadedKeys(cmp: Order, r: Registry, name: string, version: string, r': Registry)
    requires r.latest.Keys == r.models.Keys == r.metadata.Keys == r.fullMeta.Keys && name in r.models
    requires Unloaded(cmp, r, name, version, r') && (At(r.models, name) - {version}).Keys != {}
    ensures r'.latest.Keys == r'.models.Keys == r'.metadata.Keys == r'.fullMeta.Keys == r.models.Keys
    ensures r'.models[name].Keys == At(r.models, name).Keys - {version}
    ensures r'.metadata[name].Keys == At(r.metadata, name).Keys - {version}
    ensures r'.fullMeta[name].Keys == At(r.fullMeta, name).Keys - {version}
  {
    EraseKeys(r.models, name, version);
    EraseKeys(r.metadata, name, version);
    EraseKeys(r.fullMeta, name, version);
    assert r'.latest.Keys == r.latest.Keys + {name};
    assert r.models.Keys == r.models.Keys + {name};
  }

  lemma OthersUnloaded(cmp: Order, r: Registry, name: string, version: string, r': Registry, n: string)
    requires Unloaded(cmp, r, name, version, r') && (At(r.models, name) - {version}).Keys != {}
    requires n != name && n in r.models && n in r.latest && n in r.metadata && n in r.fullMeta
    ensures SameAt(r, r', n)
  {
  }

  lemma EraseKeys<T>(m: map<string, map<string, T>>, name: string, version: string)
    ensures Erase(m, name, version).Keys == m.Keys + {name}
    ensures Erase(m, name, version)[name].Keys == At(m, name).Keys - {version}
    ensures forall n :: n in m && n != name ==> Erase(m, name, version)[n] == m[n]
  {
  }

  lemma UnloadSound(cmp: Order, r: Registry, name: string, version: string, r': Registry)
    requires Sound(cmp, r) && Loaded(r, name, version) && Unloaded(cmp, r, name, version, r')
    ensures Sound(cmp, r')
  {
    if (At(r.models, name) - {version}).Keys == {} {
      LastUnloadedSound(cmp, r, name, r');
    } else {
      OneUnloadedSound(cmp, r, name, version, r');
    }
  }

  /** Over every run of registrations and unloadings the registry stays sound. */
  lemma {:induction false} EveryRegistryRun(cmp: Order, r: Registry, ops: seq<Operation>)
    requires Preorder(cmp) && Reached(cmp, r, ops)
    ensures Sound(cmp, r)
    decreases |ops|
  {
    if ops != [] {
      var q :| Reached(cmp, q, ops[..|ops| - 1]) && Does(cmp, q, ops[|ops| - 1], r);
      EveryRegistryRun(cmp, q, ops[..|ops| - 1]);
      match ops[|ops| - 1] {
        case Registering(name, version, engine, meta) => RegisterSound(cmp, q, name, version, engine, meta);
        case Unloading(name, version) => if Loaded(q, name, version) { UnloadSound(cmp, q, name, version, r); }
      }
    }
  }

  /** In every reachable registry: a lookup finds something exactly when the version named, or any at all, is loaded. */
  lemma LookupFindsIff(r: Registry, ops: seq<Operation>, spec: string)
    requires Reached(Compare, r, ops)
    ensures var (name, version) := ParseName(spec);
            Lookup(r, spec).Some? <==> if version == "" then name in r.models else Loaded(r, name, version)
  {
    CompareIsPreorder();
    EveryRegistryRun(Compare, r, ops);
    LookupFindsIn(Compare, r, spec);
  }

  lemma LookupFindsIn(cmp: Order, r: Registry, spec: string)
    requires Sound(cmp, r)
    ensures var (name, version) := ParseName(spec);
            Lookup(r, spec).Some? <==> if version == "" then name in r.models else Loaded(r, name, version)
  {
    var name := ParseName(spec).0;
    if name in r.models { assert SoundAt(cmp, r, name); }
  }

  /** And a bare name finds a version than which none loaded is greater. */
  lemma BareNameFindsLatest(r: Registry, ops: seq<Operation>, name: string)
    requires Reached(Compare, r, ops) && ':' !in name && name in r.models
    ensures Latest(r, name) in r.models[name] && forall u :: u in r.models[name] ==> Compare(u, Latest(r, name)) <= 0
    ensures Lookup(r, name) == Some(r.models[name][Latest(r, name)])
  {
    CompareIsPreorder();
    EveryRegistryRun(Compare, r, ops);
    LatestIn(Compare, r, name);
    ParseNamed(name, "");
  }

  lemma LatestIn(cmp: Order, r: Registry, name: string)
    requires Sound(cmp, r) && name in r.models
    ensures Greatest(cmp, r.models[name], Latest(r, name))
  {
    assert SoundAt(cmp, r, name);
  }

  // ---------------------------------------------------------------- a lookup that takes its lock twice

  /** Any operations, one after the other, between two moments at which the lock is held. */
  ghost predicate Follows(cmp: Order, r: Registry, ops: seq<Operation>, r': Registry)
    decreases |ops|
  {
    if ops == [] then r' == r
    else
      var earlier, last := ops[..|ops| - 1], ops[|ops| - 1];
      exists q :: Follows(cmp, r, earlier, q) && Does(cmp, q, last, r')
  }

  /** The operation enters this version of this name. */
  predicate Registers(op: Operation, name: string, version: string) {
    op.Registering? && op.name == name && op.version == version
  }

  /** What is behind a version after some operations: the last one that concerns it decides. */
  function EngineAfter(ops: seq<Operation>, name: string, version: string, before: Option<Engine>): Option<Engine> {
    if ops == [] then before
    else
      var last := ops[|ops| - 1];
      if Registers(last, name, version) then Some(last.engine)
      else if last == Unloading(name, version) then None
      else EngineAfter(ops[..|ops| - 1], name, version, before)
  }

  /** Some operation unloads the version and none after it enters it again. */
  ghost predicate Withdrawn(ops: seq<Operation>, name: string, version: string) {
    exists i :: 0 <= i < |ops| && ops[i] == Unloading(name, version) && forall j :: i < j < |ops| ==> !Registers(ops[j], name, version)
  }

  lemma RegisterElsewhere(cmp: Order, r: Registry, op: Operation, name: string, version: string)
    requires op.Registering?
    ensures GetModel(Register(cmp, r, op.name, op.version, op.engine, op.meta), name, version) ==
            if Registers(op, name, version) then Some(op.engine) else GetModel(r, name, version)
  {
  }

  lemma UnloadElsewhere(cmp: Order, r: Registry, n: string, v: string, r': Registry, name: string, version: string)
    requires Loaded(r, n, v) && Unloaded(cmp, r, n, v, r')
    ensures GetModel(r', name, version) == if n == name && v == version then None else GetModel(r, name, version)
  {
    var left := At(r.models, n) - {v};
    if left.Keys == {} {
      assert forall u :: u in At(r.models, n) && u != v ==> u in left.Keys;
    } else {
      EraseKeys(r.models, n, v);
    }
  }

  lemma OneOperation(cmp: Order, r: Registry, op: Operation, r': Registry, name: string, version: string)
    requires Does(cmp, r, op, r')
    ensures GetModel(r', name, version) ==
            if Registers(op, name, version) then Some(op.engine)
            else if op == Unloading(name, version) then None
            else GetModel(r, name, version)
  {
    match op {
      case Registering(_, _, _, _) => RegisterElsewhere(cmp, r, op, name, version);
      case Unloading(n, v) => if Loaded(r, n, v) { UnloadElsewhere(cmp, r, n, v, r', name, version); }
    }
  }

  lemma {:induction false} FollowsEngine(cmp: Order, r: Registry, ops: seq<Operation>, r': Registry, name: string, version: string)
    requires Follows(cmp, r, ops, r')
    ensures GetModel(r', name, version) == EngineAfter(ops, name, version, GetModel(r, name, version))
    decreases |ops|
  {
    if ops != [] {
      var n := |ops| - 1;
      var q :| Follows(cmp, r, ops[..n], q) && Does(cmp, q, ops[n], r');
      FollowsEngine(cmp, r, ops[..n], q, name, version);
      OneOperation(cmp, q, ops[n], r', name, version);
    }
  }

  /** Operation `i` entered the version, and none after it concerns that version. */
  ghost predicate LastEntered(ops: seq<Operation>, name: string, version: string, i: nat) {
    && i < |ops| && Registers(ops[i], name, version)
    && forall j :: i < j < |ops| ==> !Registers(ops[j], name, version) && ops[j] != Unloading(name, version)
  }

  /** The entry of a version in all maps that hold one. */
  ghost predicate Entered(r: Registry, name: string, version: string, e: Engine, meta: Meta) {
    && version in At(r.models, name) && At(r.models, name)[version] == e
    && version in At(r.metadata, name) && At(r.metadata, name)[version] == meta
    && version in At(r.fullMeta, name) && At(r.fullMeta, name)[version] == meta
  }

  lemma EntryStays(cmp: Order, r: Registry, op: Operation, r': Registry, name: string, version: string, e: Engine, meta: Meta)
    requires Does(cmp, r, op, r') && Entered(r, name, version, e, meta)
    requires !Registers(op, name, version) && op != Unloading(name, version)
    ensures Entered(r', name, version, e, meta)
  {
    if op.Unloading? && Loaded(r, op.name, op.version) {
      var left := At(r.models, op.name) - {op.version};
      if op.name == name { assert version in left.Keys; }
    }
  }

  /** In every run a loaded version has the engine and the metadata it was last registered with. */
  lemma {:induction false} LoadedAsRegistered(cmp: Order, r: Registry, ops: seq<Operation>, name: string, version: string, i: nat)
    requires Reached(cmp, r, ops) && LastEntered(ops, name, version, i)
    ensures Entered(r, name, version, ops[i].engine, ops[i].meta)
    decreases |ops|
  {
    var n := |ops| - 1;
    var q :| Reached(cmp, q, ops[..n]) && Does(cmp, q, ops[n], r);
    if i < n {
      LoadedAsRegistered(cmp, q, ops[..n], name, version, i);
      EntryStays(cmp, q, ops[n], r, name, version, ops[i].engine, ops[i].meta);
    }
  }

  lemma {:induction false} NoneIffWithdrawn(ops: seq<Operation>, name: string, version: string, before: Option<Engine>)
    requires before.Some?
    ensures EngineAfter(ops, name, version, before).None? <==> Withdrawn(ops, name, version)
    decreases |ops|
  {
    if ops != [] {
      var n := |ops| - 1;
      NoneIffWithdrawn(ops[..n], name, version, before);
      if ops[n] == Unloading(name, version) {
        assert Withdrawn(ops, name, version);
      } else if !Registers(ops[n], name, version) {
        WithdrawnEarlier(ops, name, version);
      }
    }
  }

  lemma WithdrawnEarlier(ops: seq<Operation>, name: string, version: string)
    requires ops != [] && !Registers(ops[|ops| - 1], name, version) && ops[|ops| - 1] != Unloading(name, version)
    ensures Withdrawn(ops, name, version) <==> Withdrawn(ops[..|ops| - 1], name, version)
  {
    var rest := ops[..|ops| - 1];
    if Withdrawn(rest, name, version) {
      var i :| 0 <= i < |rest| && rest[i] == Unloading(name, version) && forall j :: i < j < |rest| ==> !Registers(rest[j], name, version);
      assert ops[i] == Unloading(name, version);
    }
    if Withdrawn(ops, name, version) {
      var i :| 0 <= i < |ops| && ops[i] == Unloading(name, version) && forall j :: i < j < |ops| ==> !Registers(ops[j], name, version);
      assert rest[i] == Unloading(name, version);
    }
  }

  /**
   A bare name is looked up under two locks: the first reads which version is the latest, the second
   fetches it. With any operations in between the lookup fails for a name that was loaded exactly when
   one of them unloaded that version and none after it entered it again; otherwise it gives the engine
   then behind the version. Without an unloading of that version in between it cannot fail.
   */
  lemma TwoLockLookup(r: Registry, earlier: seq<Operation>, between: seq<Operation>, r': Registry, name: string)
    requires Reached(Compare, r, earlier) && name in r.models && Follows(Compare, r, between, r')
    ensures var v := Latest(r, name);
            && GetModel(r, name, v).Some?
            && GetModel(r', name, v) == EngineAfter(between, name, v, GetModel(r, name, v))
            && (GetModel(r', name, v).None? <==> Withdrawn(between, name, v))
            && (Unloading(name, v) !in between ==> GetModel(r', name, v).Some?)
  {
    CompareIsPreorder();
    EveryRegistryRun(Compare, r, earlier);
    LatestIn(Compare, r, name);
    var v := Latest(r, name);
    FollowsEngine(Compare, r, between, r', name, v);
    NoneIffWithdrawn(between, name, v, GetModel(r, name, v));
  }

  /** So a name that is loaded throughout can be missed: one unloading of the latest of two versions does it. */
  lemma LoadedThroughoutButMissed(cmp: Order, r: Registry, name: string, older: string, r': Registry)
    requires Sound(cmp, r) && Loaded(r, name, older) && older != Latest(r, name)
    requires Unloaded(cmp, r, name, Latest(r, name), r')
    ensures Follows(cmp, r, [Unloading(name, Latest(r, name))], r') && Loaded(r', name, older) && GetModel(r', name, Latest(r, name)).None?
  {
    assert SoundAt(cmp, r, name);
    var op := Unloading(name, Latest(r, name));
    assert [op][..0] == [];
    assert Follows(cmp, r, [], r);
    assert Does(cmp, r, op, r');
    UnloadElsewhere(cmp, r, name, Latest(r, name), r', name, older);
    UnloadElsewhere(cmp, r, name, Latest(r, name), r', name, Latest(r, name));
  }
}
