/**
 The segmentation postprocessor: per-pixel argmax over the classes in either layout, the class map as
 base64, and the two members that one output leaves changed for the next.
 */
module Segmentation {
  import opened Arithmetic
  import opened Base64
  import opened Common
  import opened ImageLayout

  // ---------------------------------------------------------------- argmax

  /** Position of the first largest value. */
  function FirstMax(v: seq<real>): (m: nat)
    requires v != []
    ensures m < |v|
    ensures forall j :: 0 <= j < |v| ==> v[j] <= v[m]
    ensures forall j :: 0 <= j < m ==> v[j] < v[m]
  {
    if |v| == 1 then 0
    else
      var m := FirstMax(v[..|v| - 1]);
      if v[|v| - 1] > v[m] then |v| - 1 else m
  }

  /** The class stored for a pixel: eight bits of the first largest class, 0 when there is no class. */
  function ClassOf(v: seq<real>): Byte { if v == [] then 0 else FirstMax(v) % 256 }

  /** The logits of pixel `p`, class by class. */
  function Logits(raw: seq<real>, pixels: nat, classes: nat, hwc: bool, p: nat): seq<real>
    requires p < pixels && classes * pixels <= |raw|
  {
    seq(classes, c requires 0 <= c < classes => At(raw, pixels, classes, hwc, c, p))
  }

  function At(raw: seq<real>, pixels: nat, classes: nat, hwc: bool, c: nat, p: nat): real
    requires p < pixels && c < classes && classes * pixels <= |raw|
  {
    Below(c, classes, p, pixels);
    Below(p, pixels, c, classes);
    assert pixels * classes == classes * pixels;
    if hwc then raw[Hwc(classes, c, p)] else raw[Chw(pixels, c, p)]
  }

  function ClassMap(raw: seq<real>, pixels: nat, classes: nat, hwc: bool): (m: seq<Byte>)
    requires classes * pixels <= |raw|
    ensures |m| == pixels
  {
    seq(pixels, p requires 0 <= p < pixels => ClassOf(Logits(raw, pixels, classes, hwc, p)))
  }

  /** The two buffers hold the same logits, one channel-major, the other pixel-major. */
  ghost predicate SameLogits(chw: seq<real>, hwc: seq<real>, pixels: nat, classes: nat)
    requires classes * pixels <= |chw| && classes * pixels <= |hwc|
  {
    forall c: nat, p: nat | c < classes && p < pixels :: At(chw, pixels, classes, false, c, p) == At(hwc, pixels, classes, true, c, p)
  }

  /** The class map does not depend on the layout of the logits. */
  lemma LayoutDoesNotMatter(chw: seq<real>, hwc: seq<real>, pixels: nat, classes: nat)
    requires classes * pixels <= |chw| && classes * pixels <= |hwc| && SameLogits(chw, hwc, pixels, classes)
    ensures ClassMap(chw, pixels, classes, false) == ClassMap(hwc, pixels, classes, true)
  {
    forall p | 0 <= p < pixels ensures Logits(chw, pixels, classes, false, p) == Logits(hwc, pixels, classes, true, p) {
      forall c | 0 <= c < classes
        ensures Logits(chw, pixels, classes, false, p)[c] == Logits(hwc, pixels, classes, true, p)[c]
      {
      }
    }
  }

  method BestClass(raw: seq<real>, pixels: nat, classes: nat, hwc: bool, p: nat) returns (best: Byte)
    requires p < pixels && classes * pixels <= |raw|
    ensures best == ClassOf(Logits(raw, pixels, classes, hwc, p))
  {
    best := 0;
    var max: Option<real> := None;
    ghost var v := Logits(raw, pixels, classes, hwc, p);
    var c := 0;
    while c < classes
      invariant 0 <= c <= classes && best == ClassOf(v[..c])
      invariant max == if c == 0 then None else Some(v[FirstMax(v[..c])])
    {
      var idx := Position(pixels, classes, hwc, c, p);
      var val := raw[idx];
      FirstMaxNext(v, c);
      if max.None? || val > max.value { max, best := Some(val), c % 256; }
      c := c + 1;
    }
    assert v[..c] == v;
  }

  lemma FirstMaxNext(v: seq<real>, c: nat)
    requires c < |v|
    ensures FirstMax(v[..c + 1]) == if c == 0 || v[c] > v[FirstMax(v[..c])] then c else FirstMax(v[..c])
  {
    assert v[..c + 1][..c] == v[..c];
  }

  method Position(pixels: nat, classes: nat, hwc: bool, c: nat, p: nat) returns (idx: nat)
    requires p < pixels && c < classes
    ensures idx == (if hwc then Hwc(classes, c, p) else Chw(pixels, c, p)) && idx < classes * pixels
  {
    Below(c, classes, p, pixels);
    Below(p, pixels, c, classes);
    assert pixels * classes == classes * pixels;
    idx := if hwc then p * classes + c else c * pixels + p;
  }

  // ---------------------------------------------------------------- the postprocessor

  datatype Settings = Settings(argmax: bool, numClasses: int)

  datatype Mask = Mask(width: int, height: int, numClasses: int, data: string)

  /** A class value stored as a float, cast to eight bits. */
  function Truncate(r: real): Byte { if 0.0 <= r < 256.0 then r.Floor else 0 }

  function Truncated(raw: seq<real>): (b: seq<Byte>)
    ensures |b| == |raw|
  {
    seq(|raw|, i requires 0 <= i < |raw| => Truncate(raw[i]))
  }

  /** Height, width, classes and whether to take the argmax, as the shape tells. */
  datatype Plan = Plan(height: int, width: int, classes: int, argmax: bool)

  function PlanFor(s: Settings, hwc: bool, shape: seq<int>): Plan {
    if |shape| >= 4 then
      if hwc then Plan(shape[1], shape[2], shape[3], true) else Plan(shape[2], shape[3], shape[1], true)
    else if |shape| == 3 then Plan(shape[1], shape[2], 1, false)
    else if |shape| == 2 then Plan(shape[1], 1, s.numClasses, false)
    else Plan(1, 1, s.numClasses, s.argmax)
  }

  /** The output is large enough for what will be read from it; of an empty one nothing is read. */
  predicate Readable(s: Settings, hwc: bool, raw: seq<real>, shape: seq<int>) {
    var p := PlanFor(s, hwc, shape);
    raw != [] && p.argmax ==> p.height >= 0 && p.width >= 0 && (p.classes <= 0 || p.classes * (p.height * p.width) <= |raw|)
  }

  function Classes(s: Settings, hwc: bool, raw: seq<real>, shape: seq<int>): seq<Byte>
    requires Readable(s, hwc, raw, shape) && raw != []
  {
    var p := PlanFor(s, hwc, shape);
    if p.argmax then ClassMap(raw, p.height * p.width, Max(0, p.classes), hwc) else Truncated(raw)
  }

  function Process(s: Settings, hwc: bool, raw: seq<real>, shape: seq<int>): (Settings, Mask)
    requires Readable(s, hwc, raw, shape)
  {
    if raw == [] then (s, Mask(0, 0, 0, ""))
    else
      var p := PlanFor(s, hwc, shape);
      var n := if s.numClasses <= 0 then p.classes else s.numClasses;
      (Settings(p.argmax, n), Mask(p.width, p.height, n, Encode(Classes(s, hwc, raw, shape))))
  }

  class SegmentationPostprocessor {
    var outputArgmax: bool
    var numClasses: int
    const outputHwc: bool

    function View(): Settings
      reads this
    {
      Settings(outputArgmax, numClasses)
    }

    constructor (configuredClasses: int, hwc: bool)
      ensures View() == Settings(configuredClasses > 0, configuredClasses) && outputHwc == hwc
    {
      outputArgmax, numClasses, outputHwc := configuredClasses > 0, configuredClasses, hwc;
    }

    method Postprocess(raw: seq<real>, shape: seq<int>) returns (m: Mask)
      requires Readable(View(), outputHwc, raw, shape)
      modifies this
      ensures (View(), m) == Process(old(View()), outputHwc, raw, shape)
    {
      if |raw| == 0 { return Mask(0, 0, 0, ""); }
      var realClasses, maskH, maskW := numClasses, 1, 1;
      if |shape| >= 4 {
        if outputHwc {
          maskH, maskW, realClasses := shape[1], shape[2], shape[3];
        } else {
          realClasses, maskH, maskW := shape[1], shape[2], shape[3];
        }
        outputArgmax := true;
      } else if |shape| >= 3 {
        maskH, maskW := shape[1], shape[2];
        outputArgmax := false;
        realClasses := 1;
      } else if |shape| >= 2 {
        maskH, maskW := shape[1], 1;
        outputArgmax := false;
      }
      var classMap: seq<Byte>;
      if outputArgmax {
        classMap := ArgmaxMap(raw, maskH, maskW, Max(0, realClasses), outputHwc);
      } else {
        classMap := Truncated(raw);
      }
      if numClasses <= 0 { numClasses := realClasses; }
      var b64 := Base64Encode(classMap);
      m := Mask(maskW, maskH, numClasses, b64);
    }
  }

  /** Row by row, pixel by pixel. */
  method ArgmaxMap(raw: seq<real>, maskH: nat, maskW: nat, classes: nat, hwc: bool) returns (classMap: seq<Byte>)
    requires classes * (maskH * maskW) <= |raw|
    ensures classMap == ClassMap(raw, maskH * maskW, classes, hwc)
  {
    ghost var all := ClassMap(raw, maskH * maskW, classes, hwc);
    classMap := [];
    var y := 0;
    while y < maskH
      invariant 0 <= y <= maskH && |classMap| == y * maskW && classMap <= all
    {
      var x := 0;
      while x < maskW
        invariant 0 <= x <= maskW && |classMap| == y * maskW + x && classMap <= all
      {
        Below(y, maskH, x, maskW);
        var best := BestClass(raw, maskH * maskW, classes, hwc, y * maskW + x);
        classMap := classMap + [best];
        x := x + 1;
      }
      assert (y + 1) * maskW == y * maskW + maskW;
      y := y + 1;
    }
  }

  // ---------------------------------------------------------------- what a client gets

  /** The mask's data, decoded, is the class map: nothing is lost on the way to the client. */
  lemma MaskDecodes(s: Settings, hwc: bool, raw: seq<real>, shape: seq<int>)
    requires Readable(s, hwc, raw, shape) && raw != []
    ensures Decode(Process(s, hwc, raw, shape).1.data) == Classes(s, hwc, raw, shape)
  {
    PlainRoundTrip(Classes(s, hwc, raw, shape));
  }

  /** Where the logit of class `c` of the pixel in row `y` and column `x` stands. */
  function LogitIndex(hwc: bool, height: nat, width: nat, classes: nat, c: nat, y: nat, x: nat): nat {
    if hwc then (y * width + x) * classes + c else c * height * width + y * width + x
  }

  /** Class `best` has the largest logit of the pixel, and is the first that has. */
  ghost predicate Wins(raw: seq<real>, hwc: bool, height: nat, width: nat, classes: nat, y: nat, x: nat, best: nat) {
    && best < classes && LogitIndex(hwc, height, width, classes, best, y, x) < |raw|
    && forall c: nat | c < classes ::
         var i, j := LogitIndex(hwc, height, width, classes, c, y, x), LogitIndex(hwc, height, width, classes, best, y, x);
         i < |raw| && raw[i] <= raw[j] && (c < best ==> raw[i] < raw[j])
  }

  /** The data hold the eight bits of the pixel's winning class. */
  ghost predicate HoldsWinner(data: seq<Byte>, raw: seq<real>, hwc: bool, height: nat, width: nat, classes: nat, y: nat, x: nat) {
    && y * width + x < |data|
    && exists best: nat :: Wins(raw, hwc, height, width, classes, y, x, best) && data[y * width + x] == best % 256
  }

  lemma LogitAt(raw: seq<real>, hwc: bool, height: nat, width: nat, classes: nat, c: nat, y: nat, x: nat)
    requires classes * (height * width) <= |raw| && c < classes && y < height && x < width
    ensures y * width + x < height * width && LogitIndex(hwc, height, width, classes, c, y, x) < |raw|
    ensures raw[LogitIndex(hwc, height, width, classes, c, y, x)] == At(raw, height * width, classes, hwc, c, y * width + x)
  {
    Below(y, height, x, width);
    PlaneIndex(c, y, x, height, width);
    AtIs(raw, height * width, classes, hwc, c, y * width + x);
  }

  lemma PlaneIndex(c: nat, y: nat, x: nat, height: nat, width: nat)
    ensures c * height * width + y * width + x == c * (height * width) + (y * width + x)
  {
    Commute(height, width, c);
    Commute(c, height, width);
  }

  lemma AtIs(raw: seq<real>, pixels: nat, classes: nat, hwc: bool, c: nat, p: nat)
    requires p < pixels && c < classes && classes * pixels <= |raw|
    ensures var i := if hwc then p * classes + c else c * pixels + p; i < |raw| && At(raw, pixels, classes, hwc, c, p) == raw[i]
  {
    Below(c, classes, p, pixels);
    Below(p, pixels, c, classes);
    Swap(pixels, classes);
  }

  /** The class of a pixel is the eight bits of the winning class. */
  lemma PixelLaw(raw: seq<real>, hwc: bool, height: nat, width: nat, classes: nat, y: nat, x: nat)
    requires classes > 0 && classes * (height * width) <= |raw| && y < height && x < width
    ensures y * width + x < height * width
    ensures HoldsWinner(ClassMap(raw, height * width, classes, hwc), raw, hwc, height, width, classes, y, x)
  {
    LogitAt(raw, hwc, height, width, classes, 0, y, x);
    var best := FirstMax(Logits(raw, height * width, classes, hwc, y * width + x));
    LogitAt(raw, hwc, height, width, classes, best, y, x);
    forall c: nat | c < classes
      ensures var i, j := LogitIndex(hwc, height, width, classes, c, y, x), LogitIndex(hwc, height, width, classes, best, y, x);
              i < |raw| && raw[i] <= raw[j] && (c < best ==> raw[i] < raw[j])
    {
      NoneAbove(raw, hwc, height, width, classes, c, best, y, x);
    }
    assert Wins(raw, hwc, height, width, classes, y, x, best);
  }

  lemma NoneAbove(raw: seq<real>, hwc: bool, height: nat, width: nat, classes: nat, c: nat, best: nat, y: nat, x: nat)
    requires c < classes && classes * (height * width) <= |raw| && y < height && x < width && y * width + x < height * width
    requires best == FirstMax(Logits(raw, height * width, classes, hwc, y * width + x))
    ensures var i, j := LogitIndex(hwc, height, width, classes, c, y, x), LogitIndex(hwc, height, width, classes, best, y, x);
            i < |raw| && j < |raw| && raw[i] <= raw[j] && (c < best ==> raw[i] < raw[j])
  {
    var v := Logits(raw, height * width, classes, hwc, y * width + x);
    LogitAt(raw, hwc, height, width, classes, c, y, x);
    LogitAt(raw, hwc, height, width, classes, best, y, x);
    assert v[c] <= v[best] && (c < best ==> v[c] < v[best]);
  }

  /**
   The mask of an output with four dimensions, as its reader sees it: the shape gives height, width
   and classes in the order of the layout, and the decoded data hold each pixel's winning class.
   */
  lemma MaskLaw(s: Settings, hwc: bool, raw: seq<real>, shape: seq<int>, height: nat, width: nat, classes: nat, y: nat, x: nat)
    requires Readable(s, hwc, raw, shape) && raw != [] && |shape| >= 4
    requires if hwc then shape[1] == height && shape[2] == width && shape[3] == classes
             else shape[1] == classes && shape[2] == height && shape[3] == width
    ensures var mask := Process(s, hwc, raw, shape).1;
            && mask.height == height && mask.width == width && |Decode(mask.data)| == height * width
            && (y < height && x < width && classes > 0 ==> HoldsWinner(Decode(mask.data), raw, hwc, height, width, classes, y, x))
  {
    Ordered(0, height, width);
    MaskData(s, hwc, raw, shape, Plan(height, width, classes, true), height * width);
    if y < height && x < width && classes > 0 { PixelLaw(raw, hwc, height, width, classes, y, x); }
  }

  lemma MaskData(s: Settings, hwc: bool, raw: seq<real>, shape: seq<int>, p: Plan, pixels: nat)
    requires Readable(s, hwc, raw, shape) && raw != [] && PlanFor(s, hwc, shape) == p && p.argmax && p.classes >= 0
    requires pixels == p.height * p.width
    ensures Process(s, hwc, raw, shape).1.height == p.height && Process(s, hwc, raw, shape).1.width == p.width
    ensures p.classes * pixels <= |raw| && Decode(Process(s, hwc, raw, shape).1.data) == ClassMap(raw, pixels, p.classes, hwc)
  {
    MaskDecodes(s, hwc, raw, shape);
    NoClassNoLogits(p.classes, pixels, |raw|);
  }

  lemma NoClassNoLogits(classes: nat, pixels: nat, total: nat)
    requires classes <= 0 || classes * pixels <= total
    ensures classes * pixels <= total
  {
  }

  /** An output with three or two dimensions is a class map already: its values lose what is behind the point. */
  lemma ClassMapLaw(s: Settings, hwc: bool, raw: seq<real>, shape: seq<int>, i: nat)
    requires raw != [] && 2 <= |shape| <= 3 && i < |raw| && 0.0 <= raw[i] < 256.0
    ensures Readable(s, hwc, raw, shape)
    ensures var mask := Process(s, hwc, raw, shape).1;
            && mask.height == shape[1] && mask.width == (if |shape| == 3 then shape[2] else 1)
            && |Decode(mask.data)| == |raw| && Decode(mask.data)[i] == raw[i].Floor
  {
    MaskDecodes(s, hwc, raw, shape);
  }

  /** Both layouts of the same logits give the same mask. */
  lemma SameMaskForBothLayouts(s: Settings, chw: seq<real>, hwc: seq<real>, h: nat, w: nat, classes: nat)
    requires classes * (h * w) <= |chw| && classes * (h * w) <= |hwc| && chw != [] && hwc != []
    requires SameLogits(chw, hwc, h * w, classes)
    ensures Process(s, false, chw, [1, classes, h, w]) == Process(s, true, hwc, [1, h, w, classes])
  {
    LayoutDoesNotMatter(chw, hwc, h * w, classes);
  }

  // ---------------------------------------------------------------- one output after another

  type Output = (seq<real>, seq<int>)

  /** Each output is readable in the state the earlier ones leave. */
  ghost predicate ReadableAlong(s: Settings, hwc: bool, outputs: seq<Output>)
    decreases |outputs|
  {
    outputs == [] ||
    (Readable(s, hwc, outputs[0].0, outputs[0].1) && ReadableAlong(Process(s, hwc, outputs[0].0, outputs[0].1).0, hwc, outputs[1..]))
  }

  /** The members after the outputs, and the masks made of them. */
  ghost function ProcessAll(s: Settings, hwc: bool, outputs: seq<Output>): (r: (Settings, seq<Mask>))
    requires ReadableAlong(s, hwc, outputs)
    ensures |r.1| == |outputs|
    decreases |outputs|
  {
    if outputs == [] then (s, [])
    else
      var (s', m) := Process(s, hwc, outputs[0].0, outputs[0].1);
      var (end, masks) := ProcessAll(s', hwc, outputs[1..]);
      (end, [m] + masks)
  }

  /** The class count a shape itself tells. */
  function Told(hwc: bool, shape: seq<int>): Option<int> {
    if |shape| >= 4 then Some(if hwc then shape[3] else shape[1]) else if |shape| == 3 then Some(1) else None
  }

  predicate TellsPositive(hwc: bool, o: Output) { o.0 != [] && Told(hwc, o.1).Some? && Told(hwc, o.1).value > 0 }

  /** The count that is settled: the configured one, else that of the first non-empty output telling one; 0 if none. */
  function Settled(configured: int, hwc: bool, outputs: seq<Output>): nat
    decreases |outputs|
  {
    if configured > 0 then configured
    else if outputs == [] then 0
    else if TellsPositive(hwc, outputs[0]) then Told(hwc, outputs[0].1).value
    else Settled(configured, hwc, outputs[1..])
  }

  /** Output `i` is the first to tell a positive count. */
  ghost predicate FirstToTell(hwc: bool, outputs: seq<Output>, i: nat) {
    i < |outputs| && TellsPositive(hwc, outputs[i]) && forall j :: 0 <= j < i ==> !TellsPositive(hwc, outputs[j])
  }

  lemma {:induction false} SettledByFirst(configured: int, hwc: bool, outputs: seq<Output>, i: nat)
    requires configured <= 0 && FirstToTell(hwc, outputs, i)
    ensures Told(hwc, outputs[i].1) == Some(Settled(configured, hwc, outputs))
    decreases i
  {
    if i > 0 {
      forall j | 0 <= j < i - 1 ensures !TellsPositive(hwc, outputs[1..][j]) { assert outputs[1..][j] == outputs[j + 1]; }
      SettledByFirst(configured, hwc, outputs[1..], i - 1);
    }
  }

  lemma OneCount(s: Settings, hwc: bool, o: Output)
    requires Readable(s, hwc, o.0, o.1)
    ensures var n := Process(s, hwc, o.0, o.1).0.numClasses;
            if s.numClasses > 0 then n == s.numClasses else if TellsPositive(hwc, o) then n == Told(hwc, o.1).value else n <= 0
  {
  }

  lemma {:induction false} SettledAlike(n: int, m: int, hwc: bool, outputs: seq<Output>)
    requires n <= 0 && m <= 0
    ensures Settled(n, hwc, outputs) == Settled(m, hwc, outputs)
    decreases |outputs|
  {
    if outputs != [] { SettledAlike(n, m, hwc, outputs[1..]); }
  }

  lemma SettledStep(n: int, n': int, hwc: bool, outputs: seq<Output>)
    requires outputs != []
    requires if n > 0 then n' == n else if TellsPositive(hwc, outputs[0]) then n' == Told(hwc, outputs[0].1).value else n' <= 0
    ensures Settled(n', hwc, outputs[1..]) == Settled(n, hwc, outputs)
  {
    if n <= 0 && n' <= 0 { SettledAlike(n, n', hwc, outputs[1..]); }
  }

  lemma AllLater(s: Settings, hwc: bool, outputs: seq<Output>)
    requires outputs != [] && ReadableAlong(s, hwc, outputs)
    ensures var s' := Process(s, hwc, outputs[0].0, outputs[0].1).0;
            ReadableAlong(s', hwc, outputs[1..]) && ProcessAll(s, hwc, outputs).0 == ProcessAll(s', hwc, outputs[1..]).0
  {
  }

  /** The count in the member is the settled one as soon as there is one. */
  lemma {:induction false} ClassCountSticks(s: Settings, hwc: bool, outputs: seq<Output>)
    requires ReadableAlong(s, hwc, outputs)
    ensures Max(0, ProcessAll(s, hwc, outputs).0.numClasses) == Settled(s.numClasses, hwc, outputs)
    decreases |outputs|
  {
    if outputs != [] {
      var s' := Process(s, hwc, outputs[0].0, outputs[0].1).0;
      OneCount(s, hwc, outputs[0]);
      AllLater(s, hwc, outputs);
      SettledStep(s.numClasses, s'.numClasses, hwc, outputs);
      ClassCountSticks(s', hwc, outputs[1..]);
    }
  }

  lemma {:induction false} MaskAt(s: Settings, hwc: bool, outputs: seq<Output>, k: nat)
    requires ReadableAlong(s, hwc, outputs) && k < |outputs|
    ensures ReadableAlong(s, hwc, outputs[..k])
    ensures var t := ProcessAll(s, hwc, outputs[..k]).0;
            Readable(t, hwc, outputs[k].0, outputs[k].1) && ProcessAll(s, hwc, outputs).1[k] == Process(t, hwc, outputs[k].0, outputs[k].1).1
    decreases k
  {
    if k > 0 {
      MaskAt(Process(s, hwc, outputs[0].0, outputs[0].1).0, hwc, outputs[1..], k - 1);
      assert outputs[..k][1..] == outputs[1..][..k - 1];
    }
  }

  /**
   The count a mask reports is the one settled by the configuration or an earlier output; its own
   output's count is reported exactly when none was settled before, or the same one.
   */
  lemma MaskReportsOwnIff(s: Settings, hwc: bool, outputs: seq<Output>, k: nat)
    requires ReadableAlong(s, hwc, outputs) && k < |outputs| && outputs[k].0 != [] && Told(hwc, outputs[k].1).Some?
    ensures var own, settled, reported := Told(hwc, outputs[k].1).value, Settled(s.numClasses, hwc, outputs[..k]),
                                          ProcessAll(s, hwc, outputs).1[k].numClasses;
            && reported == (if settled > 0 then settled else own)
            && (reported == own <==> settled == 0 || settled == own)
  {
    MaskAt(s, hwc, outputs, k);
    ClassCountSticks(s, hwc, outputs[..k]);
  }
}
