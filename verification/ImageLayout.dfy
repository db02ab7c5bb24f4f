/**
 Tensor layouts: channel-major (CHW) and pixel-major (HWC) positions of the same value, and the loops
 that normalise a decoded image into either, alone or into a slice of a batch buffer. Decoding and
 resizing are a function from image bytes to pixel-major bytes of the target size, or nothing.
 */
module ImageLayout {
  import opened Common
  import opened Arithmetic

  type Bytes = seq<int>

  /** Channels, pixels (height times width), the layout, and the per-channel scale and bias. */
  datatype Format = Format(channels: nat, pixels: nat, hwc: bool, scale: seq<real>, bias: seq<real>)

  ghost predicate ValidFormat(f: Format) {
    f.channels > 0 && f.pixels > 0 && |f.scale| == |f.bias| == f.channels
  }

  function Size(f: Format): nat { f.channels * f.pixels }

  function Chw(pixels: nat, c: nat, p: nat): nat { c * pixels + p }

  function Hwc(channels: nat, c: nat, p: nat): nat { p * channels + c }

  // ---------------------------------------------------------------- the two layouts

  lemma ChwInside(f: Format, c: nat, p: nat)
    requires c < f.channels && p < f.pixels
    ensures Chw(f.pixels, c, p) < Size(f) && Chw(f.pixels, c, p) / f.pixels == c && Chw(f.pixels, c, p) % f.pixels == p
  {
    Below(c, f.channels, p, f.pixels);
    Divided(c, p, f.pixels);
  }

  lemma HwcInside(f: Format, c: nat, p: nat)
    requires c < f.channels && p < f.pixels
    ensures Hwc(f.channels, c, p) < Size(f) && Hwc(f.channels, c, p) / f.channels == p && Hwc(f.channels, c, p) % f.channels == c
  {
    Below(p, f.pixels, c, f.channels);
    Divided(p, c, f.channels);
  }

  lemma Coordinates(f: Format, k: nat)
    requires f.channels > 0 && f.pixels > 0 && k < Size(f)
    ensures k / f.pixels < f.channels && k % f.pixels < f.pixels && (k / f.pixels) * f.pixels + k % f.pixels == k
    ensures k / f.channels < f.pixels && k % f.channels < f.channels && (k / f.channels) * f.channels + k % f.channels == k
  {
    Split(k, f.channels, f.pixels);
    Swap(f.channels, f.pixels);
    Split(k, f.pixels, f.channels);
  }

  /** Where the value at pixel-major position `i` goes in the channel-major tensor. */
  function Transpose(f: Format, i: nat): nat
    requires f.channels > 0
  {
    Chw(f.pixels, i % f.channels, i / f.channels)
  }

  /** And back. */
  function Untranspose(f: Format, k: nat): nat
    requires f.pixels > 0
  {
    Hwc(f.channels, k / f.pixels, k % f.pixels)
  }

  /** The index map is a bijection of the positions of a tensor. */
  lemma LayoutBijection(f: Format, i: nat)
    requires f.channels > 0 && f.pixels > 0 && i < Size(f)
    ensures Transpose(f, i) < Size(f) && Untranspose(f, Transpose(f, i)) == i
    ensures Untranspose(f, i) < Size(f) && Transpose(f, Untranspose(f, i)) == i
  {
    Coordinates(f, i);
    ChwInside(f, i % f.channels, i / f.channels);
    HwcInside(f, i / f.pixels, i % f.pixels);
  }

  // ---------------------------------------------------------------- the normalised tensor

  function Normal(f: Format, resized: Bytes, c: nat, p: nat): real
    requires |resized| == Size(f) && c < f.channels && p < f.pixels && |f.scale| == |f.bias| == f.channels
  {
    HwcInside(f, c, p);
    resized[Hwc(f.channels, c, p)] as real * f.scale[c] + f.bias[c]
  }

  /** The channel and pixel whose value stands at position `k`. */
  function Place(f: Format, k: nat): (r: (nat, nat))
    requires f.channels > 0 && f.pixels > 0 && k < Size(f)
    ensures r.0 < f.channels && r.1 < f.pixels
  {
    Coordinates(f, k);
    if f.hwc then (k % f.channels, k / f.channels) else (k / f.pixels, k % f.pixels)
  }

  function ValueAt(f: Format, resized: Bytes, k: nat): real
    requires ValidFormat(f) && |resized| == Size(f) && k < Size(f)
  {
    var (c, p) := Place(f, k);
    Normal(f, resized, c, p)
  }

  function Tensor(f: Format, resized: Bytes): (t: seq<real>)
    requires ValidFormat(f) && |resized| == Size(f)
    ensures |t| == Size(f)
  {
    seq(Size(f), k requires 0 <= k < Size(f) => ValueAt(f, resized, k))
  }

  lemma ValueTransposed(f: Format, resized: Bytes, c: nat, p: nat)
    requires ValidFormat(f) && |resized| == Size(f) && c < f.channels && p < f.pixels
    ensures Chw(f.pixels, c, p) < Size(f) && Hwc(f.channels, c, p) < Size(f)
    ensures ValueAt(f.(hwc := false), resized, Chw(f.pixels, c, p)) == Normal(f, resized, c, p)
    ensures ValueAt(f.(hwc := true), resized, Hwc(f.channels, c, p)) == Normal(f, resized, c, p)
  {
    ChwInside(f, c, p);
    HwcInside(f, c, p);
  }

  /** Both layouts hold the same values; the channel-major one is the other rearranged by the bijection. */
  lemma LayoutsAgree(f: Format, resized: Bytes, i: nat)
    requires ValidFormat(f) && |resized| == Size(f) && i < Size(f)
    ensures Transpose(f, i) < Size(f)
    ensures Tensor(f.(hwc := false), resized)[Transpose(f, i)] == Tensor(f.(hwc := true), resized)[i]
  {
    Coordinates(f, i);
    ValueTransposed(f, resized, i % f.channels, i / f.channels);
  }

  lemma PlaceBack(f: Format, k: nat)
    requires f.channels > 0 && f.pixels > 0 && k < Size(f)
    ensures var (c, p) := Place(f, k); k == if f.hwc then Hwc(f.channels, c, p) else Chw(f.pixels, c, p)
  {
    Coordinates(f, k);
  }

  lemma RowColumn(p: nat, height: nat, width: nat)
    requires width > 0 && p < height * width
    ensures p / width < height && p % width < width && (p / width) * width + p % width == p
  {
    Split(p, height, width);
  }

  /** The channel, row and column whose value stands at position `k`. */
  lemma RowPlace(f: Format, height: nat, width: nat, k: nat) returns (c: nat, y: nat, x: nat)
    requires f.channels > 0 && width > 0 && f.pixels == height * width > 0 && k < Size(f)
    ensures c < f.channels && y < height && x < width
    ensures k == if f.hwc then (y * width + x) * f.channels + c else (c * height + y) * width + x
  {
    PlaceBack(f, k);
    c := Place(f, k).0;
    var p := Place(f, k).1;
    RowColumn(p, height, width);
    y, x := p / width, p % width;
    RowIndices(f.channels, height, width, c, y, x);
    SameIndices(f, c, y * width + x, p);
  }

  lemma SameIndices(f: Format, c: nat, p: nat, q: nat)
    requires p == q
    ensures Hwc(f.channels, c, p) == Hwc(f.channels, c, q) && Chw(f.pixels, c, p) == Chw(f.pixels, c, q)
  {
  }

  lemma PlaceIs(f: Format, c: nat, p: nat)
    requires c < f.channels && p < f.pixels
    ensures var k := if f.hwc then Hwc(f.channels, c, p) else Chw(f.pixels, c, p); k < Size(f) && Place(f, k) == (c, p)
  {
    if f.hwc { HwcInside(f, c, p); } else { ChwInside(f, c, p); }
  }

  lemma TensorAt(f: Format, resized: Bytes, t: seq<real>, c: nat, p: nat) returns (from: nat, to: nat)
    requires ValidFormat(f) && |resized| == Size(f) && c < f.channels && p < f.pixels && t == Tensor(f, resized)
    ensures from == Hwc(f.channels, c, p) && to == if f.hwc then from else Chw(f.pixels, c, p)
    ensures to < |t| && from < |resized| && t[to] == resized[from] as real * f.scale[c] + f.bias[c]
  {
    PlaceIs(f, c, p);
    HwcInside(f, c, p);
    from := Hwc(f.channels, c, p);
    to := if f.hwc then from else Chw(f.pixels, c, p);
    assert t[to] == ValueAt(f, resized, to) == Normal(f, resized, c, p);
  }

  /** The tensor by row and column: pixel by pixel, or one plane of rows per channel. */
  lemma TensorAtRow(f: Format, height: nat, width: nat, resized: Bytes, t: seq<real>, c: nat, y: nat, x: nat) returns (from: nat, to: nat)
    requires ValidFormat(f) && |resized| == Size(f) && f.pixels == height * width && t == Tensor(f, resized)
    requires c < f.channels && y < height && x < width
    ensures from == (y * width + x) * f.channels + c && to == if f.hwc then from else (c * height + y) * width + x
    ensures to < |t| && from < |resized| && t[to] == resized[from] as real * f.scale[c] + f.bias[c]
  {
    RowIndices(f.channels, height, width, c, y, x);
    from, to := TensorAt(f, resized, t, c, y * width + x);
  }

  lemma RowIndices(channels: nat, height: nat, width: nat, c: nat, y: nat, x: nat)
    requires y < height && x < width
    ensures y * width + x < height * width
    ensures (y * width + x) * channels + c == Hwc(channels, c, y * width + x)
    ensures (c * height + y) * width + x == Chw(height * width, c, y * width + x)
  {
    Below(y, height, x, width);
    TripleIndex(c, y, x, height, width);
  }

  // ---------------------------------------------------------------- the loops

  /** Channel-major values of the pixels below `n` are in place. */
  ghost predicate Placed(f: Format, resized: Bytes, out: seq<real>, offset: nat, n: nat)
    requires ValidFormat(f) && |resized| == Size(f) && offset + Size(f) <= |out|
  {
    forall c: nat, p: nat | c < f.channels && p < n && p < f.pixels ::
      offset + Chw(f.pixels, c, p) < |out| && out[offset + Chw(f.pixels, c, p)] == Normal(f, resized, c, p)
  }

  /** Outside the slice nothing differs. */
  ghost predicate Framed(before: seq<real>, after: seq<real>, offset: nat, n: nat) {
    && |after| == |before|
    && forall k :: 0 <= k < |before| && !(offset <= k < offset + n) ==> after[k] == before[k]
  }

  function Into(before: seq<real>, offset: nat, t: seq<real>): seq<real>
    requires offset + |t| <= |before|
  {
    before[..offset] + t + before[offset + |t|..]
  }

  lemma AllPlaced(f: Format, resized: Bytes, before: seq<real>, after: seq<real>, offset: nat)
    requires ValidFormat(f) && |resized| == Size(f) && offset + Size(f) <= |before| && !f.hwc
    requires Framed(before, after, offset, Size(f)) && Placed(f, resized, after, offset, f.pixels)
    ensures after == Into(before, offset, Tensor(f, resized))
  {
    var t := Tensor(f, resized);
    forall k | 0 <= k < Size(f) ensures after[offset + k] == t[k] { PlacedAt(f, resized, after, offset, k); }
  }

  lemma PlacedAt(f: Format, resized: Bytes, out: seq<real>, offset: nat, k: nat)
    requires ValidFormat(f) && |resized| == Size(f) && offset + Size(f) <= |out| && !f.hwc
    requires Placed(f, resized, out, offset, f.pixels) && k < Size(f)
    ensures out[offset + k] == ValueAt(f, resized, k)
  {
    Coordinates(f, k);
    var c, p := k / f.pixels, k % f.pixels;
    assert Chw(f.pixels, c, p) == k;
    assert out[offset + Chw(f.pixels, c, p)] == Normal(f, resized, c, p);
  }

  /** Writing the value of channel `c` of pixel `p` disturbs no other channel or pixel. */
  lemma Apart(f: Format, c: nat, p: nat, c': nat, p': nat)
    requires c < f.channels && p < f.pixels && c' < f.channels && p' < f.pixels && (c, p) != (c', p')
    ensures Chw(f.pixels, c, p) != Chw(f.pixels, c', p')
  {
    ChwInside(f, c, p);
    ChwInside(f, c', p');
  }

  lemma WriteKeeps(f: Format, resized: Bytes, out: seq<real>, offset: nat, n: nat, c: nat, p: nat, v: real)
    requires ValidFormat(f) && |resized| == Size(f) && offset + Size(f) <= |out|
    requires Placed(f, resized, out, offset, n) && c < f.channels && n <= p < f.pixels
    ensures offset + Chw(f.pixels, c, p) < |out|
    ensures Placed(f, resized, out[offset + Chw(f.pixels, c, p) := v], offset, n)
  {
    ChwInside(f, c, p);
    forall c': nat, p': nat | c' < f.channels && p' < n && p' < f.pixels
      ensures Chw(f.pixels, c', p') != Chw(f.pixels, c, p)
    {
      Apart(f, c, p, c', p');
    }
  }

  /** The channels below `n` of pixel `p` are in place. */
  ghost predicate PixelPlaced(f: Format, resized: Bytes, out: seq<real>, offset: nat, p: nat, n: nat)
    requires ValidFormat(f) && |resized| == Size(f) && offset + Size(f) <= |out| && p < f.pixels
  {
    forall c: nat | c < n && c < f.channels ::
      offset + Chw(f.pixels, c, p) < |out| && out[offset + Chw(f.pixels, c, p)] == Normal(f, resized, c, p)
  }

  lemma NextChannel(f: Format, resized: Bytes, out: seq<real>, offset: nat, c: nat, p: nat)
    requires ValidFormat(f) && |resized| == Size(f) && offset + Size(f) <= |out|
    requires c < f.channels && p < f.pixels && PixelPlaced(f, resized, out, offset, p, c)
    ensures offset + Chw(f.pixels, c, p) < |out|
    ensures PixelPlaced(f, resized, out[offset + Chw(f.pixels, c, p) := Normal(f, resized, c, p)], offset, p, c + 1)
  {
    ChwInside(f, c, p);
    forall c': nat | c' < c ensures Chw(f.pixels, c', p) != Chw(f.pixels, c, p) {
      Apart(f, c, p, c', p);
    }
  }

  class ImagePreprocessor {
    const width: int
    const height: int
    const channels: int
    const hwc: bool
    const scale: seq<real>
    const bias: seq<real>
    /** Decoding followed by resizing to the target size; None when the image does not decode. */
    const decode: Bytes -> Option<Bytes>

    function ElemCount(): int { channels * height * width }

    /** Negative sizes in pairs are not part of the model; the decoder delivers the target size. */
    ghost predicate Valid() {
      && (ElemCount() > 0 ==> channels > 0 && height > 0 && width > 0 && |scale| == |bias| == channels)
      && forall b :: decode(b).Some? ==> |decode(b).value| == ElemCount()
    }

    function Target(): Format
      requires Valid() && ElemCount() > 0
    {
      Format(channels, height * width, hwc, scale, bias)
    }

    lemma TargetValid()
      requires Valid() && ElemCount() > 0
      ensures ValidFormat(Target()) && Size(Target()) == ElemCount()
    {
      assert channels * (height * width) == channels * height * width;
      assert height * width > 0;
    }

    /** The tensor of an image, if there is one. */
    ghost function Prepared(image: Bytes): (t: Option<seq<real>>)
      requires Valid()
      ensures t.Some? ==> |t.value| == ElemCount()
    {
      if ElemCount() <= 0 || decode(image).None? then None
      else
        TargetValid();
        Some(Tensor(Target(), decode(image).value))
    }

    /**
     Row `y`, column `x`, channel `c` of the image, scaled and shifted, where the layout asked for
     puts it: pixel by pixel, or one plane of rows per channel.
     */
    ghost predicate Stands(out: seq<real>, offset: nat, resized: Bytes, c: int, y: int, x: int) {
      var from, to := SourceIndex(c, y, x), offset + TargetIndex(c, y, x);
      && 0 <= c < |scale| && c < |bias| && 0 <= from < |resized| && 0 <= to < |out|
      && out[to] == resized[from] as real * scale[c] + bias[c]
    }

    /** The decoded bytes come row by row, pixel by pixel, all channels of a pixel together. */
    function SourceIndex(c: int, y: int, x: int): int { (y * width + x) * channels + c }

    function TargetIndex(c: int, y: int, x: int): int {
      if hwc then (y * width + x) * channels + c else (c * height + y) * width + x
    }

    ghost predicate Normalised(out: seq<real>, offset: nat, resized: Bytes) {
      forall c, y, x | 0 <= c < channels && 0 <= y < height && 0 <= x < width :: Stands(out, offset, resized, c, y, x)
    }

    /** The tensor in terms of the configured sizes, scale and bias alone. */
    lemma PreparedStands(image: Bytes)
      requires Valid()
      ensures Prepared(image).Some? <==> channels * height * width > 0 && decode(image).Some?
      ensures Prepared(image).Some? ==>
                |Prepared(image).value| == channels * height * width && Normalised(Prepared(image).value, 0, decode(image).value)
    {
      if ElemCount() > 0 && decode(image).Some? {
        TargetValid();
        forall c, y, x | 0 <= c < channels && 0 <= y < height && 0 <= x < width
          ensures Stands(Prepared(image).value, 0, decode(image).value, c, y, x)
        {
          ValueStands(Target(), decode(image).value, c, y, x);
        }
      }
    }

    lemma ValueStands(f: Format, resized: Bytes, c: nat, y: nat, x: nat)
      requires 0 <= channels && 0 <= height && 0 <= width && 0 <= height * width && f == Format(channels, height * width, hwc, scale, bias)
      requires ValidFormat(f) && |resized| == Size(f) && c < channels && y < height && x < width
      ensures Stands(Tensor(f, resized), 0, resized, c, y, x)
    {
      var t := Tensor(f, resized);
      var from, to := TensorAtRow(f, height, width, resized, t, c, y, x);
      InFields(f, from, to, c, y, x);
      StandsBy(t, resized, c, y, x, from, to);
    }

    lemma InFields(f: Format, from: nat, to: nat, c: nat, y: nat, x: nat)
      requires f.channels == channels && f.hwc == hwc
      requires from == (y * width + x) * f.channels + c && to == if f.hwc then from else (c * height + y) * width + x
      ensures from == SourceIndex(c, y, x) && to == TargetIndex(c, y, x)
    {
    }

    lemma StandsBy(t: seq<real>, resized: Bytes, c: nat, y: nat, x: nat, from: nat, to: nat)
      requires from == SourceIndex(c, y, x) && to == TargetIndex(c, y, x)
      requires c < |scale| && c < |bias| && from < |resized| && to < |t| && t[to] == resized[from] as real * scale[c] + bias[c]
      ensures Stands(t, 0, resized, c, y, x)
    {
    }

    /** No other tensor of that size has these values. */
    lemma NormalisedOnce(t: seq<real>, u: seq<real>, resized: Bytes)
      requires Valid() && ElemCount() > 0 && |t| == |u| == ElemCount()
      requires Normalised(t, 0, resized) && Normalised(u, 0, resized)
      ensures t == u
    {
      forall k | 0 <= k < |t| ensures t[k] == u[k] {
        TargetValid();
        var c, y, x := RowPlace(Target(), height, width, k);
        assert Stands(t, 0, resized, c, y, x) && Stands(u, 0, resized, c, y, x);
      }
    }

    lemma StandsInto(before: seq<real>, offset: nat, t: seq<real>, resized: Bytes)
      requires offset + |t| <= |before| && Normalised(t, 0, resized)
      ensures Normalised(Into(before, offset, t), offset, resized)
    {
      forall c, y, x | 0 <= c < channels && 0 <= y < height && 0 <= x < width
        ensures Stands(Into(before, offset, t), offset, resized, c, y, x)
      {
        assert Stands(t, 0, resized, c, y, x);
      }
    }

    constructor (width: int, height: int, channels: int, hwc: bool, scale: seq<real>, bias: seq<real>, decode: Bytes -> Option<Bytes>)
      requires channels * height * width > 0 ==> channels > 0 && height > 0 && width > 0 && |scale| == |bias| == channels
      requires forall b :: decode(b).Some? ==> |decode(b).value| == channels * height * width
      ensures Valid() && this.decode == decode
      ensures this.width == width && this.height == height && this.channels == channels && this.hwc == hwc
      ensures this.scale == scale && this.bias == bias
    {
      this.width, this.height, this.channels, this.hwc := width, height, channels, hwc;
      this.scale, this.bias, this.decode := scale, bias, decode;
    }

    method Preprocess(image: Bytes) returns (output: Option<array<real>>)
      requires Valid()
      ensures output.Some? <==> channels * height * width > 0 && decode(image).Some?
      ensures output.Some? ==> fresh(output.value) && output.value.Length == channels * height * width
      ensures output.Some? ==> Normalised(output.value[..], 0, decode(image).value)
      ensures output.Some? <==> Prepared(image).Some?
      ensures output.Some? ==> output.value[..] == Prepared(image).value
    {
      PreparedStands(image);
      if ElemCount() <= 0 { return None; }
      var resized := decode(image);
      if resized.None? { return None; }
      TargetValid();
      var out := new real[ElemCount()];
      ghost var before := out[..];
      Normalize(resized.value, out, 0);
      assert out[..] == Into(before, 0, Tensor(Target(), resized.value)) == Tensor(Target(), resized.value);
      output := Some(out);
    }

    /** Exactly the slice at `offset` receives what Preprocess would return; on failure nothing is written. */
    method PreprocessInto(image: Bytes, batch: array<real>, offset: nat) returns (ok: bool)
      requires Valid()
      modifies batch
      ensures ok <==> channels * height * width > 0 && decode(image).Some? && offset + channels * height * width <= batch.Length
      ensures ok ==> Normalised(batch[..], offset, decode(image).value)
      ensures forall k :: 0 <= k < batch.Length && !(ok && offset <= k < offset + channels * height * width) ==> batch[k] == old(batch[k])
      ensures ok ==> Prepared(image).Some?
      ensures batch[..] == if ok then Into(old(batch[..]), offset, Prepared(image).value) else old(batch[..])
    {
      PreparedStands(image);
      if ElemCount() <= 0 { return false; }
      if offset > batch.Length || ElemCount() > batch.Length - offset { return false; }
      var resized := decode(image);
      if resized.None? { return false; }
      TargetValid();
      Normalize(resized.value, batch, offset);
      StandsInto(old(batch[..]), offset, Prepared(image).value, resized.value);
      ok := true;
    }

    method Normalize(resized: Bytes, out: array<real>, offset: nat)
      requires Valid() && ElemCount() > 0 && |resized| == ElemCount() && offset + ElemCount() <= out.Length
      requires ValidFormat(Target()) && Size(Target()) == ElemCount()
      modifies out
      ensures out[..] == Into(old(out[..]), offset, Tensor(Target(), resized))
    {
      if hwc {
        NormalizeHwc(Target(), resized, out, offset);
      } else {
        NormalizeChw(Target(), height, width, resized, out, offset);
      }
    }
  }

  /** Pixel-major: each position in turn, or three at a time when there are three channels. */
  method NormalizeHwc(f: Format, resized: Bytes, out: array<real>, offset: nat)
    requires ValidFormat(f) && f.hwc && |resized| == Size(f) && offset + Size(f) <= out.Length
    modifies out
    ensures out[..] == Into(old(out[..]), offset, Tensor(f, resized))
  {
    if f.channels == 3 { HwcThree(f, resized, out, offset); } else { HwcGeneral(f, resized, out, offset); }
  }

  /** The first `n` values of the tensor are in place. */
  ghost predicate Filled(t: seq<real>, out: seq<real>, offset: nat, n: nat) {
    n <= |t| && offset + |t| <= |out| && forall k :: 0 <= k < n ==> out[offset + k] == t[k]
  }

  lemma AllFilled(t: seq<real>, before: seq<real>, after: seq<real>, offset: nat)
    requires offset + |t| <= |before| && Framed(before, after, offset, |t|) && Filled(t, after, offset, |t|)
    ensures after == Into(before, offset, t)
  {
  }

  method Fill(ghost t: seq<real>, out: array<real>, offset: nat, i: nat, v: real)
    requires i < |t| && offset + |t| <= out.Length && Filled(t, out[..], offset, i) && v == t[i]
    modifies out
    ensures Filled(t, out[..], offset, i + 1) && Framed(old(out[..]), out[..], offset, |t|)
  {
    out[offset + i] := v;
  }

  method HwcThree(f: Format, resized: Bytes, out: array<real>, offset: nat)
    requires ValidFormat(f) && f.hwc && f.channels == 3 && |resized| == Size(f) && offset + Size(f) <= out.Length
    modifies out
    ensures out[..] == Into(old(out[..]), offset, Tensor(f, resized))
  {
    ghost var t := Tensor(f, resized);
    var i := 0;
    while i < Size(f)
      invariant 0 <= i <= Size(f) && i % 3 == 0
      invariant Framed(old(out[..]), out[..], offset, |t|) && Filled(t, out[..], offset, i)
    {
      ThreeScaled(f, resized, i);
      Fill(t, out, offset, i, resized[i] as real * f.scale[0] + f.bias[0]);
      Fill(t, out, offset, i + 1, resized[i + 1] as real * f.scale[1] + f.bias[1]);
      Fill(t, out, offset, i + 2, resized[i + 2] as real * f.scale[2] + f.bias[2]);
      i := i + 3;
    }
    AllFilled(t, old(out[..]), out[..], offset);
  }

  method HwcGeneral(f: Format, resized: Bytes, out: array<real>, offset: nat)
    requires ValidFormat(f) && f.hwc && |resized| == Size(f) && offset + Size(f) <= out.Length
    modifies out
    ensures out[..] == Into(old(out[..]), offset, Tensor(f, resized))
  {
    ghost var t := Tensor(f, resized);
    var i := 0;
    while i < Size(f)
      invariant 0 <= i <= Size(f)
      invariant Framed(old(out[..]), out[..], offset, |t|) && Filled(t, out[..], offset, i)
    {
      ScaledHere(f, resized, i);
      var c := i % f.channels;
      Fill(t, out, offset, i, resized[i] as real * f.scale[c] + f.bias[c]);
      i := i + 1;
    }
    AllFilled(t, old(out[..]), out[..], offset);
  }

  lemma ScaledHere(f: Format, resized: Bytes, i: nat)
    requires ValidFormat(f) && f.hwc && |resized| == Size(f) && i < Size(f)
    ensures i % f.channels < |f.scale|
    ensures Tensor(f, resized)[i] == resized[i] as real * f.scale[i % f.channels] + f.bias[i % f.channels]
  {
    Coordinates(f, i);
    assert Hwc(f.channels, i % f.channels, i / f.channels) == i;
  }

  lemma ThreeScaled(f: Format, resized: Bytes, i: nat)
    requires ValidFormat(f) && f.hwc && f.channels == 3 && |resized| == Size(f) && i < Size(f) && i % 3 == 0
    ensures i + 2 < Size(f)
    ensures Tensor(f, resized)[i] == resized[i] as real * f.scale[0] + f.bias[0]
    ensures Tensor(f, resized)[i + 1] == resized[i + 1] as real * f.scale[1] + f.bias[1]
    ensures Tensor(f, resized)[i + 2] == resized[i + 2] as real * f.scale[2] + f.bias[2]
  {
    Thirds(i, f.pixels);
    assert Size(f) == 3 * f.pixels;
    ScaledHere(f, resized, i);
    ScaledHere(f, resized, i + 1);
    ScaledHere(f, resized, i + 2);
  }

  lemma Thirds(i: nat, n: nat)
    requires i % 3 == 0 && i < 3 * n
    ensures i + 2 < 3 * n && (i + 1) % 3 == 1 && (i + 2) % 3 == 2
  {
    var q := i / 3;
    assert i == q * 3;
    Quotient(i + 1, 3, q, 1);
    Quotient(i + 2, 3, q, 2);
  }

  /** Channel-major: the planes filled pixel by pixel, unrolled when there are three channels. */
  method NormalizeChw(f: Format, height: nat, width: nat, resized: Bytes, out: array<real>, offset: nat)
    requires ValidFormat(f) && !f.hwc && f.pixels == height * width && |resized| == Size(f) && offset + Size(f) <= out.Length
    modifies out
    ensures out[..] == Into(old(out[..]), offset, Tensor(f, resized))
  {
    if f.channels == 3 { ChwThree(f, resized, out, offset); } else { ChwGeneral(f, height, width, resized, out, offset); }
    AllPlaced(f, resized, old(out[..]), out[..], offset);
  }

  method ChwThree(f: Format, resized: Bytes, out: array<real>, offset: nat)
    requires ValidFormat(f) && f.channels == 3 && |resized| == Size(f) && offset + Size(f) <= out.Length
    modifies out
    ensures Framed(old(out[..]), out[..], offset, Size(f)) && Placed(f, resized, out[..], offset, f.pixels)
  {
    var i := 0;
    while i < f.pixels
      invariant 0 <= i <= f.pixels
      invariant Framed(old(out[..]), out[..], offset, Size(f)) && Placed(f, resized, out[..], offset, i)
    {
      ThreeChannels(f, resized, out, offset, i);
      i := i + 1;
    }
  }

  /** Row by row, column by column, channel by channel. */
  method ChwGeneral(f: Format, height: nat, width: nat, resized: Bytes, out: array<real>, offset: nat)
    requires ValidFormat(f) && f.pixels == height * width && |resized| == Size(f) && offset + Size(f) <= out.Length
    modifies out
    ensures Framed(old(out[..]), out[..], offset, Size(f)) && Placed(f, resized, out[..], offset, f.pixels)
  {
    var y := 0;
    while y < height
      invariant 0 <= y <= height && y * width <= f.pixels
      invariant Framed(old(out[..]), out[..], offset, Size(f)) && Placed(f, resized, out[..], offset, y * width)
    {
      var x := 0;
      while x < width
        invariant 0 <= x <= width && y * width + x <= f.pixels
        invariant Framed(old(out[..]), out[..], offset, Size(f)) && Placed(f, resized, out[..], offset, y * width + x)
      {
        Below(y, height, x, width);
        AllChannels(f, height, width, y, x, resized, out, offset);
        x := x + 1;
      }
      NextRow(y, height, width);
      y := y + 1;
    }
  }

  lemma NextRow(y: nat, height: nat, width: nat)
    requires y < height
    ensures (y + 1) * width == y * width + width <= height * width
  {
    Ordered(y + 1, height, width);
  }

  /** The index the triple loop computes is the channel-major index of the pixel. */
  lemma TripleIndex(c: nat, y: nat, x: nat, height: nat, width: nat)
    ensures (c * height + y) * width + x == Chw(height * width, c, y * width + x)
  {
    assert (c * height + y) * width == c * height * width + y * width;
    assert c * height * width == c * (height * width);
  }

  method AllChannels(f: Format, height: nat, width: nat, y: nat, x: nat, resized: Bytes, out: array<real>, offset: nat)
    requires ValidFormat(f) && f.pixels == height * width && |resized| == Size(f) && offset + Size(f) <= out.Length
    requires y < height && x < width && y * width + x < f.pixels
    requires Placed(f, resized, out[..], offset, y * width + x)
    modifies out
    ensures Framed(old(out[..]), out[..], offset, Size(f)) && Placed(f, resized, out[..], offset, y * width + x + 1)
  {
    var hwcBase := (y * width + x) * f.channels;
    ghost var p := y * width + x;
    var c := 0;
    while c < f.channels
      invariant 0 <= c <= f.channels
      invariant Framed(old(out[..]), out[..], offset, Size(f))
      invariant Placed(f, resized, out[..], offset, p) && PixelPlaced(f, resized, out[..], offset, p, c)
    {
      HwcInside(f, c, p);
      TripleIndex(c, y, x, height, width);
      var chwIdx := (c * height + y) * width + x;
      WriteChannel(f, resized, out, offset, p, c, chwIdx, resized[hwcBase + c] as real * f.scale[c] + f.bias[c]);
      c := c + 1;
    }
  }

  method WriteChannel(f: Format, resized: Bytes, out: array<real>, offset: nat, ghost p: nat, c: nat, chwIdx: nat, v: real)
    requires ValidFormat(f) && |resized| == Size(f) && offset + Size(f) <= out.Length && p < f.pixels && c < f.channels
    requires Placed(f, resized, out[..], offset, p) && PixelPlaced(f, resized, out[..], offset, p, c)
    requires chwIdx == Chw(f.pixels, c, p) && v == Normal(f, resized, c, p)
    modifies out
    ensures Framed(old(out[..]), out[..], offset, Size(f))
    ensures Placed(f, resized, out[..], offset, p) && PixelPlaced(f, resized, out[..], offset, p, c + 1)
  {
    WriteKeeps(f, resized, out[..], offset, p, c, p, v);
    NextChannel(f, resized, out[..], offset, c, p);
    ChwInside(f, c, p);
    ghost var next := out[..][offset + chwIdx := v];
    out[offset + chwIdx] := v;
    assert out[..] == next;
  }

  /** The fast path: the source read three bytes at a time. */
  method ThreeChannels(f: Format, resized: Bytes, out: array<real>, offset: nat, p: nat)
    requires ValidFormat(f) && f.channels == 3 && |resized| == Size(f) && offset + Size(f) <= out.Length && p < f.pixels
    requires Placed(f, resized, out[..], offset, p)
    modifies out
    ensures Framed(old(out[..]), out[..], offset, Size(f)) && Placed(f, resized, out[..], offset, p + 1)
  {
    ThreeValues(f, resized, p);
    WriteChannel(f, resized, out, offset, p, 0, p, resized[3 * p] as real * f.scale[0] + f.bias[0]);
    WriteChannel(f, resized, out, offset, p, 1, f.pixels + p, resized[3 * p + 1] as real * f.scale[1] + f.bias[1]);
    WriteChannel(f, resized, out, offset, p, 2, f.pixels + f.pixels + p, resized[3 * p + 2] as real * f.scale[2] + f.bias[2]);
  }

  lemma ThreeValues(f: Format, resized: Bytes, p: nat)
    requires ValidFormat(f) && f.channels == 3 && |resized| == Size(f) && p < f.pixels
    ensures 3 * p + 2 < |resized|
    ensures Normal(f, resized, 0, p) == resized[3 * p] as real * f.scale[0] + f.bias[0]
    ensures Normal(f, resized, 1, p) == resized[3 * p + 1] as real * f.scale[1] + f.bias[1]
    ensures Normal(f, resized, 2, p) == resized[3 * p + 2] as real * f.scale[2] + f.bias[2]
  {
    HwcInside(f, 2, p);
    assert Hwc(f.channels, 0, p) == 3 * p && Hwc(f.channels, 1, p) == 3 * p + 1 && Hwc(f.channels, 2, p) == 3 * p + 2;
  }
}
