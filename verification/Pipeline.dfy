/**
 The batched prediction pipeline: images are prepared into one flat tensor, run sample by sample,
 concatenated, sliced again and turned into one result each, chunk after chunk. What comes out is
 what the single-image path gives, image by image.
 */
module Pipeline {
  import opened Common
  import opened Arithmetic
  import opened ImageLayout

  /** What running the backend on one sample gives. */
  datatype Inference = Output(data: seq<real>, shape: seq<int>) | Thrown(error: string)

  /** How a batch output is cut: by its second dimension (the default) or evenly (segmentation). */
  datatype Splitter = BySecondDimension | Evenly

  datatype Results = Strings(results: seq<string>) | Escaped(error: string)

  const DECODE_ERROR := "failed to decode/preprocess image"
  const SHAPE_ERROR := "invalid model input shape"

  function InferenceError(e: string): string { "inference error: " + e }

  // ---------------------------------------------------------------- flat tensors

  function Concat<T>(parts: seq<seq<T>>): seq<T> {
    if parts == [] then [] else Concat(parts[..|parts| - 1]) + parts[|parts| - 1]
  }

  ghost predicate Uniform<T>(parts: seq<seq<T>>, m: nat) {
    forall i :: 0 <= i < |parts| ==> |parts[i]| == m
  }

  function Slice<T>(flat: seq<T>, m: nat, i: nat): seq<T>
    requires (i + 1) * m <= |flat|
  {
    assert (i + 1) * m == i * m + m;
    flat[i * m..(i + 1) * m]
  }

  lemma {:induction false} ConcatLength<T>(parts: seq<seq<T>>, m: nat)
    requires Uniform(parts, m)
    ensures |Concat(parts)| == |parts| * m
    decreases |parts|
  {
    if parts != [] {
      ConcatLength(parts[..|parts| - 1], m);
      assert |parts| * m == (|parts| - 1) * m + m;
    }
  }

  lemma Fits(i: nat, n: nat, m: nat)
    requires i < n
    ensures (i + 1) * m <= n * m && i * m <= (i + 1) * m == i * m + m
  {
    Ordered(i + 1, n, m);
  }

  /** Cutting a concatenation of equally long parts gives the parts back. */
  lemma {:induction false} SliceOfConcat<T>(parts: seq<seq<T>>, m: nat, i: nat)
    requires Uniform(parts, m) && i < |parts|
    ensures (i + 1) * m <= |Concat(parts)| && Slice(Concat(parts), m, i) == parts[i]
    decreases |parts|
  {
    var n := |parts| - 1;
    var front := Concat(parts[..n]);
    ConcatLength(parts, m);
    ConcatLength(parts[..n], m);
    Fits(i, |parts|, m);
    if i < n {
      SliceOfConcat(parts[..n], m, i);
      Fits(i, n, m);
      assert (front + parts[n])[i * m..(i + 1) * m] == front[i * m..(i + 1) * m];
    } else {
      assert |front| == i * m;
      assert (front + parts[n])[|front|..|front| + m] == parts[n];
    }
  }

  lemma ConcatSnoc<T>(parts: seq<seq<T>>, part: seq<T>)
    ensures Concat(parts + [part]) == Concat(parts) + part
  {
    assert (parts + [part])[..|parts|] == parts;
  }

  /** Cut into slices of length `per`, the concatenation gives each part back. */
  ghost predicate SlicesMatch(parts: seq<seq<real>>, per: nat) {
    forall i :: 0 <= i < |parts| ==> SliceMatches(parts, per, i)
  }

  ghost predicate SliceMatches(parts: seq<seq<real>>, per: nat, i: nat)
    requires i < |parts|
  {
    (i + 1) * per <= |Concat(parts)| && Slice(Concat(parts), per, i) == parts[i]
  }

  /** A batch output is cut back into the samples' outputs exactly when the slice length is theirs. */
  lemma SlicesMatchIff(parts: seq<seq<real>>, m: nat, per: nat)
    requires parts != [] && Uniform(parts, m)
    ensures SlicesMatch(parts, per) <==> per == m
  {
    if per == m {
      forall i | 0 <= i < |parts| ensures SliceMatches(parts, per, i) {
        SliceOfConcat(parts, m, i);
      }
    }
    if SlicesMatch(parts, per) {
      assert SliceMatches(parts, per, 0);
      assert |Slice(Concat(parts), per, 0)| == per;
    }
  }

  lemma InnerSlice<T>(flat: seq<T>, lo: nat, hi: nat, from: nat, to: nat)
    requires lo <= hi <= |flat| && from <= to <= hi - lo
    ensures flat[lo..hi][from..to] == flat[lo + from..lo + to]
  {
    var inner, outer := flat[lo..hi][from..to], flat[lo + from..lo + to];
    assert |inner| == |outer|;
    forall k | 0 <= k < |inner| ensures inner[k] == outer[k] {
      assert inner[k] == flat[lo..hi][from + k];
    }
  }

  lemma SlicePositions(i: nat, m: nat, p: nat)
    requires p > 0
    ensures i * m == (i / p) * (m * p) + (i % p) * m && (i + 1) * m == (i / p) * (m * p) + (i % p + 1) * m
    ensures (i % p + 1) * m == (i % p) * m + m <= m * p && (i / p + 1) * (m * p) == (i / p) * (m * p) + m * p
  {
    var q, r := i / p, i % p;
    assert i == q * p + r;
    assert (q * p + r) * m == q * p * m + r * m;
    assert q * p * m == q * (m * p);
    Fits(r, p, m);
    Swap(p, m);
  }

  lemma SliceIs<T>(flat: seq<T>, m: nat, i: nat, lo: nat, hi: nat)
    requires lo == i * m && hi == (i + 1) * m && hi <= |flat|
    ensures lo <= hi && Slice(flat, m, i) == flat[lo..hi]
  {
    assert (i + 1) * m == i * m + m;
  }

  /** A slice of a slice is a slice. */
  lemma SliceOfSlice<T>(flat: seq<T>, m: nat, p: nat, i: nat)
    requires p > 0 && (i / p + 1) * (m * p) <= |flat|
    ensures (i + 1) * m <= |flat| && (i % p + 1) * m <= |Slice(flat, m * p, i / p)|
    ensures Slice(flat, m, i) == Slice(Slice(flat, m * p, i / p), m, i % p)
  {
    SlicePositions(i, m, p);
    SliceWithin(flat, m, m * p, i, i / p, i % p, (i / p) * (m * p), (i % p) * m);
  }

  lemma SliceWithin<T>(flat: seq<T>, m: nat, big: nat, i: nat, q: nat, r: nat, lo: nat, from: nat)
    requires lo == q * big && (q + 1) * big == lo + big <= |flat|
    requires from == r * m && (r + 1) * m == from + m <= big
    requires i * m == lo + from && (i + 1) * m == lo + (from + m)
    ensures (r + 1) * m <= |Slice(flat, big, q)| && Slice(flat, m, i) == Slice(Slice(flat, big, q), m, r)
  {
    SliceIs(flat, big, q, lo, lo + big);
    SliceIs(flat[lo..lo + big], m, r, from, from + m);
    SliceIs(flat, m, i, lo + from, lo + (from + m));
    InnerSlice(flat, lo, lo + big, from, from + m);
  }

  function Zeros(n: nat): (z: seq<real>)
    ensures |z| == n && forall k :: 0 <= k < n ==> z[k] == 0.0
  {
    seq(n, _ => 0.0)
  }

  /** Writing over the front of the zeros. */
  lemma IntoZeros(done: seq<real>, t: seq<real>, left: nat)
    requires |t| <= left
    ensures Into(done + Zeros(left), |done|, t) == done + t + Zeros(left - |t|)
    ensures t == Zeros(|t|) ==> done + Zeros(left) == done + t + Zeros(left - |t|)
  {
  }

  function Product(shape: seq<int>): int {
    if shape == [] then 1 else Product(shape[..|shape| - 1]) * shape[|shape| - 1]
  }

  // ---------------------------------------------------------------- the pipeline

  class ModelPipeline {
    const preprocessor: ImagePreprocessor
    const maxBatch: int
    const splitter: Splitter
    /** The model on one sample, and the postprocessor on one output; both without memory. */
    const infer: (seq<real>, seq<int>) -> Inference
    const post: (seq<real>, seq<int>) -> string

    constructor (preprocessor: ImagePreprocessor, maxBatch: int, splitter: Splitter,
                 infer: (seq<real>, seq<int>) -> Inference, post: (seq<real>, seq<int>) -> string)
      ensures this.preprocessor == preprocessor && this.maxBatch == maxBatch && this.splitter == splitter
      ensures this.infer == infer && this.post == post
    {
      this.preprocessor, this.maxBatch, this.splitter := preprocessor, maxBatch, splitter;
      this.infer, this.post := infer, post;
    }

    function BatchShape(n: nat): seq<int> {
      if preprocessor.hwc then [n, preprocessor.height, preprocessor.width, preprocessor.channels]
      else [n, preprocessor.channels, preprocessor.height, preprocessor.width]
    }

    /** The model's answer to one prepared sample. */
    function Run(sample: seq<real>): Inference { infer(sample, BatchShape(1)) }

    /**
     Every output has `n` values and shape `s`, batch dimension one. Where the default slicing is
     used, the second dimension is the number of values and the postprocessor looks no further.
     */
    ghost predicate Regular(n: nat, s: seq<int>) {
      && s != [] && s[0] == 1
      && (forall t :: Run(t).Output? ==> |Run(t).data| == n && Run(t).shape == s)
      && (splitter.BySecondDimension? ==>
            (|s| >= 2 ==> s[1] == n) && (forall d: seq<real> :: |d| == n ==> post(d, s) == post(d, [1, n])))
    }

    // -------------------------------------------------------------- one image

    ghost function Single(image: Bytes): string
      requires preprocessor.Valid()
    {
      match preprocessor.Prepared(image)
      case None => DECODE_ERROR
      case Some(t) =>
        match Run(t)
        case Thrown(e) => InferenceError(e)
        case Output(data, shape) => post(data, shape)
    }

    method PredictOne(image: Bytes) returns (r: string)
      requires preprocessor.Valid()
      ensures r == Single(image)
    {
      var input := preprocessor.Preprocess(image);
      if input.None? { return DECODE_ERROR; }
      var out := infer(input.value[..], BatchShape(1));
      if out.Thrown? { return InferenceError(out.error); }
      r := post(out.data, out.shape);
    }

    /**
     The single-image path from the configured sizes alone: `t` is the tensor of the image, if there
     is one, and the model sees a batch of one in the preprocessor's layout.
     */
    lemma SingleLaw(image: Bytes, t: seq<real>, shape: seq<int>)
      requires preprocessor.Valid()
      requires shape == if preprocessor.hwc then [1, preprocessor.height, preprocessor.width, preprocessor.channels]
                        else [1, preprocessor.channels, preprocessor.height, preprocessor.width]
      ensures preprocessor.channels * preprocessor.height * preprocessor.width <= 0 || preprocessor.decode(image).None? ==>
                Single(image) == "failed to decode/preprocess image"
      ensures preprocessor.channels * preprocessor.height * preprocessor.width > 0 && preprocessor.decode(image).Some?
              && |t| == preprocessor.channels * preprocessor.height * preprocessor.width
              && preprocessor.Normalised(t, 0, preprocessor.decode(image).value) ==>
                Single(image) == if infer(t, shape).Thrown? then "inference error: " + infer(t, shape).error
                                 else post(infer(t, shape).data, infer(t, shape).shape)
    {
      preprocessor.PreparedStands(image);
      if preprocessor.Prepared(image).Some? && |t| == preprocessor.ElemCount() && preprocessor.Normalised(t, 0, preprocessor.decode(image).value) {
        preprocessor.NormalisedOnce(t, preprocessor.Prepared(image).value, preprocessor.decode(image).value);
      }
    }

    // -------------------------------------------------------------- specification of a batch

    /** The sample of an image in a batch: its tensor, or zeros when it does not decode. */
    ghost function Sample(image: Bytes): (t: seq<real>)
      requires preprocessor.Valid() && preprocessor.ElemCount() > 0
      ensures |t| == preprocessor.ElemCount()
    {
      match preprocessor.Prepared(image) case Some(t) => t case None => Zeros(preprocessor.ElemCount())
    }

    ghost function Samples(images: seq<Bytes>): (r: seq<seq<real>>)
      requires preprocessor.Valid() && preprocessor.ElemCount() > 0
      ensures |r| == |images| && Uniform(r, preprocessor.ElemCount())
    {
      seq(|images|, i requires 0 <= i < |images| => Sample(images[i]))
    }

    /** In a batch an image that decodes gives its own tensor, any other one zeros. */
    lemma SampleLaw(image: Bytes)
      requires preprocessor.Valid() && preprocessor.ElemCount() > 0
      ensures |Sample(image)| == preprocessor.channels * preprocessor.height * preprocessor.width
      ensures preprocessor.decode(image).Some? ==> preprocessor.Normalised(Sample(image), 0, preprocessor.decode(image).value)
      ensures preprocessor.decode(image).None? ==> forall k :: 0 <= k < |Sample(image)| ==> Sample(image)[k] == 0.0
    {
      preprocessor.PreparedStands(image);
    }

    /** The first sample the model throws on, or their number. */
    function FirstThrow(samples: seq<seq<real>>): (k: nat)
      ensures k <= |samples| && (forall j :: 0 <= j < k ==> Run(samples[j]).Output?)
      ensures k < |samples| ==> Run(samples[k]).Thrown?
    {
      if samples == [] then 0 else if Run(samples[0]).Thrown? then 0 else 1 + FirstThrow(samples[1..])
    }

    function Datas(samples: seq<seq<real>>): (r: seq<seq<real>>)
      requires forall j :: 0 <= j < |samples| ==> Run(samples[j]).Output?
      ensures |r| == |samples|
    {
      seq(|samples|, i requires 0 <= i < |samples| => Run(samples[i]).data)
    }

    /** The result of one sample of a batch. */
    function ResultOf(sample: seq<real>): string
      requires Run(sample).Output?
    {
      post(Run(sample).data, Run(sample).shape)
    }

    function ResultsOf(samples: seq<seq<real>>): (r: seq<string>)
      requires forall j :: 0 <= j < |samples| ==> Run(samples[j]).Output?
      ensures |r| == |samples|
    {
      seq(|samples|, i requires 0 <= i < |samples| => ResultOf(samples[i]))
    }

    function Mapped(samples: seq<seq<real>>): Results {
      var k := FirstThrow(samples);
      if k < |samples| then Escaped(Run(samples[k]).error) else Strings(ResultsOf(samples))
    }

    ghost function Predicted(images: seq<Bytes>): Results
      requires preprocessor.Valid()
    {
      if maxBatch <= 1 then Strings(seq(|images|, i requires 0 <= i < |images| => Single(images[i])))
      else if preprocessor.ElemCount() <= 0 then Strings(seq(|images|, _ => SHAPE_ERROR))
      else Mapped(Samples(images))
    }

    // -------------------------------------------------------------- the pieces as written

    /** What the samples' outputs make together; the first exception wins. */
    function BatchOutput(samples: seq<seq<real>>): Inference {
      var k := FirstThrow(samples);
      if k < |samples| then Run(samples[k])
      else if samples == [] then Output([], [])
      else
        var shape := Run(samples[0]).shape;
        Output(Concat(Datas(samples)), if shape == [] then [] else shape[0 := |samples|])
    }

    /**
     The batch output in terms of the single runs: the first exception, or the outputs one behind the
     other under the first one's shape with the number of samples in front.
     */
    lemma BatchOutputLaw(samples: seq<seq<real>>, n: nat, k: nat, i: nat)
      requires i < |samples| && forall j :: 0 <= j < k && j < |samples| ==> Run(samples[j]).Output?
      ensures k < |samples| && Run(samples[k]).Thrown? ==> BatchOutput(samples) == Run(samples[k])
      ensures k >= |samples| && Run(samples[0]).shape != [] ==>
                BatchOutput(samples).Output? && BatchOutput(samples).shape == [|samples|] + Run(samples[0]).shape[1..]
      ensures k >= |samples| && (forall j :: 0 <= j < |samples| ==> |Run(samples[j]).data| == n) ==>
                && BatchOutput(samples).Output? && |BatchOutput(samples).data| == |samples| * n
                && i * n <= (i + 1) * n <= |samples| * n && BatchOutput(samples).data[i * n..(i + 1) * n] == Run(samples[i]).data
    {
      if k < |samples| && Run(samples[k]).Thrown? { assert FirstThrow(samples) == k; }
      if k >= |samples| {
        assert FirstThrow(samples) == |samples|;
        if forall j :: 0 <= j < |samples| ==> |Run(samples[j]).data| == n { PartOfOutput(samples, n, i); }
      }
    }

    lemma PartOfOutput(samples: seq<seq<real>>, n: nat, i: nat)
      requires i < |samples| && forall j :: 0 <= j < |samples| ==> Run(samples[j]).Output? && |Run(samples[j]).data| == n
      ensures |Concat(Datas(samples))| == |samples| * n
      ensures i * n <= (i + 1) * n <= |samples| * n && Concat(Datas(samples))[i * n..(i + 1) * n] == Run(samples[i]).data
    {
      ConcatLength(Datas(samples), n);
      Fits(i, |samples|, n);
      SliceOfConcat(Datas(samples), n, i);
    }

    /** The default batch inference: split, run one by one, append. */
    method InferBatch(input: seq<real>, shape: seq<int>, ghost samples: seq<seq<real>>) returns (r: Inference)
      requires |shape| == 4 && shape == BatchShape(|samples|) && Product(shape[1..]) == preprocessor.ElemCount() > 0
      requires Uniform(samples, preprocessor.ElemCount()) && input == Concat(samples)
      requires samples != [] && Run(samples[0]).Output? ==> Run(samples[0]).shape != []
      ensures r == BatchOutput(samples)
    {
      var batchSize := shape[0];
      if batchSize == 0 { return Output([], []); }
      var singleShape := shape[0 := 1];
      assert singleShape == BatchShape(1);
      var per := PerSample(singleShape);
      var all: seq<real>, outputShape: seq<int> := [], [];
      var i := 0;
      while i < batchSize
        invariant 0 <= i <= batchSize == |samples|
        invariant forall j :: 0 <= j < i ==> Run(samples[j]).Output?
        invariant all == Concat(Datas(samples[..i]))
        invariant i > 0 ==> outputShape == Run(samples[0]).shape[0 := |samples|]
      {
        var sample := SampleAt(input, per, i, samples);
        var out := infer(sample, singleShape);
        if out.Thrown? {
          return out;
        }
        OneDataMore(samples, i);
        all := all + out.data;
        if i == 0 { outputShape := out.shape[0 := batchSize]; }
        i := i + 1;
      }
      assert samples[..i] == samples;
      r := Output(all, outputShape);
    }

    method SampleAt(input: seq<real>, per: nat, i: nat, ghost samples: seq<seq<real>>) returns (sample: seq<real>)
      requires Uniform(samples, per) && input == Concat(samples) && i < |samples|
      ensures sample == samples[i]
    {
      SliceOfConcat(samples, per, i);
      Fits(i, |samples|, per);
      sample := input[i * per..(i + 1) * per];
    }

    lemma OneDataMore(samples: seq<seq<real>>, i: nat)
      requires i < |samples| && forall j :: 0 <= j <= i ==> Run(samples[j]).Output?
      ensures Concat(Datas(samples[..i + 1])) == Concat(Datas(samples[..i])) + Run(samples[i]).data
    {
      assert Datas(samples[..i + 1]) == Datas(samples[..i]) + [Run(samples[i]).data];
      ConcatSnoc(Datas(samples[..i]), Run(samples[i]).data);
    }

    method PerSample(shape: seq<int>) returns (n: int)
      requires |shape| >= 1
      ensures n == Product(shape[1..])
    {
      n := 1;
      var i := 1;
      while i < |shape|
        invariant 1 <= i <= |shape| && n == Product(shape[1..i])
      {
        assert shape[1..i + 1][..i - 1] == shape[1..i];
        n := n * shape[i];
        i := i + 1;
      }
      assert shape[1..i] == shape[1..];
    }

    function SliceLength(shape: seq<int>, total: nat, batchSize: nat): int
      requires batchSize > 0
    {
      if splitter.BySecondDimension? && |shape| >= 2 then shape[1] else total / batchSize
    }

    function SliceShape(shape: seq<int>, per: nat): seq<int> {
      if splitter.BySecondDimension? then [1, per]
      else if shape == [] then [] else shape[0 := 1]
    }

    /** The slices lie within the output. */
    predicate InBounds(data: seq<real>, shape: seq<int>, n: nat)
      requires n > 0
    {
      SliceLength(shape, |data|, n) >= 0 && n * SliceLength(shape, |data|, n) <= |data|
    }

    function TextAt(data: seq<real>, shape: seq<int>, n: nat, i: nat): string
      requires i < n && InBounds(data, shape, n)
    {
      var per := SliceLength(shape, |data|, n);
      Fits(i, n, per);
      post(Slice(data, per, i), SliceShape(shape, per))
    }

    /** Both batch postprocessors: equal slices, each treated as a single output. */
    method PostprocessBatch(data: seq<real>, shape: seq<int>, batchSize: nat) returns (r: seq<string>)
      requires batchSize > 0 && InBounds(data, shape, batchSize)
      ensures |r| == batchSize && forall i :: 0 <= i < batchSize ==> r[i] == TextAt(data, shape, batchSize, i)
    {
      r := [];
      var per := SliceLength(shape, |data|, batchSize);
      while |r| < batchSize
        invariant |r| <= batchSize && forall i :: 0 <= i < |r| ==> r[i] == TextAt(data, shape, batchSize, i)
      {
        var i := |r|;
        Fits(i, batchSize, per);
        r := r + [post(data[i * per..(i + 1) * per], SliceShape(shape, per))];
      }
    }

    /** What cutting up the batch output of a chunk needs: a batch dimension to rewrite, and slices within the output. */
    ghost predicate Cuttable(samples: seq<seq<real>>) {
      samples != [] ==>
        && (Run(samples[0]).Output? ==> Run(samples[0]).shape != [])
        && (BatchOutput(samples).Output? ==> InBounds(BatchOutput(samples).data, BatchOutput(samples).shape, |samples|))
    }

    /** One chunk, whatever the outputs look like: run, concatenate, cut up again. */
    ghost function ChunkResult(samples: seq<seq<real>>): (r: Results)
      requires samples != [] && Cuttable(samples)
      ensures r.Strings? ==> |r.results| == |samples|
    {
      match BatchOutput(samples)
      case Thrown(e) => Escaped(e)
      case Output(data, shape) => Strings(seq(|samples|, i requires 0 <= i < |samples| => TextAt(data, shape, |samples|, i)))
    }

    /** Chunk after chunk, as far as they are run. */
    ghost predicate AllCuttable(samples: seq<seq<real>>)
      requires maxBatch > 1
      decreases |samples|
    {
      samples != [] ==>
        var chunk := Min(maxBatch, |samples|);
        Cuttable(samples[..chunk]) && (ChunkResult(samples[..chunk]).Strings? ==> AllCuttable(samples[chunk..]))
    }

    function Prefixed(results: seq<string>, r: Results): Results {
      if r.Escaped? then r else Strings(results + r.results)
    }

    ghost function Chunked(samples: seq<seq<real>>): Results
      requires maxBatch > 1 && AllCuttable(samples)
      decreases |samples|
    {
      if samples == [] then Strings([])
      else
        var chunk := Min(maxBatch, |samples|);
        var first := ChunkResult(samples[..chunk]);
        if first.Escaped? then first else Prefixed(first.results, Chunked(samples[chunk..]))
    }

    ghost predicate Readable(images: seq<Bytes>)
      requires preprocessor.Valid()
    {
      maxBatch > 1 && preprocessor.ElemCount() > 0 ==> AllCuttable(Samples(images))
    }

    /** The result of a batch for any model whose outputs are long enough to be cut up. */
    ghost function BatchResult(images: seq<Bytes>): Results
      requires preprocessor.Valid() && Readable(images)
    {
      if maxBatch <= 1 then Strings(seq(|images|, i requires 0 <= i < |images| => Single(images[i])))
      else if preprocessor.ElemCount() <= 0 then Strings(seq(|images|, _ => SHAPE_ERROR))
      else Chunked(Samples(images))
    }

    /** A model without a usable size answers every image of a batch with that. */
    lemma NoSizeLaw(images: seq<Bytes>, i: nat)
      requires preprocessor.Valid() && maxBatch > 1 && i < |images|
      requires preprocessor.channels * preprocessor.height * preprocessor.width <= 0
      ensures Readable(images) && BatchResult(images).Strings? && |BatchResult(images).results| == |images|
      ensures BatchResult(images).results[i] == "invalid model input shape"
    {
    }

    /** The batch buffer of a chunk: each image prepared into its place, zeros where one does not decode. */
    method PrepareChunk(images: seq<Bytes>) returns (batchInput: array<real>)
      requires preprocessor.Valid() && preprocessor.ElemCount() > 0
      ensures batchInput[..] == Concat(Samples(images))
    {
      var per := preprocessor.ElemCount();
      ghost var samples := Samples(images);
      Ordered(0, |images|, per);
      batchInput := new real[|images| * per](_ => 0.0);
      assert batchInput[..] == FilledUpTo(samples, 0, per);
      var i := 0;
      while i < |images|
        invariant 0 <= i <= |images| && batchInput[..] == FilledUpTo(samples, i, per)
      {
        PrepareOne(images[i], batchInput, i, samples);
        i := i + 1;
      }
      assert samples[..i] == samples && Zeros(0) == [];
    }

    ghost function FilledUpTo(samples: seq<seq<real>>, i: nat, per: nat): seq<real>
      requires i <= |samples|
    {
      Ordered(i, |samples|, per);
      Concat(samples[..i]) + Zeros(|samples| * per - i * per)
    }

    method PrepareOne(image: Bytes, batchInput: array<real>, i: nat, ghost samples: seq<seq<real>>)
      requires preprocessor.Valid() && preprocessor.ElemCount() > 0
      requires i < |samples| && Uniform(samples, preprocessor.ElemCount()) && samples[i] == Sample(image)
      requires batchInput[..] == FilledUpTo(samples, i, preprocessor.ElemCount())
      modifies batchInput
      ensures batchInput[..] == FilledUpTo(samples, i + 1, preprocessor.ElemCount())
    {
      var per := preprocessor.ElemCount();
      Fits(i, |samples|, per);
      ghost var before := batchInput[..];
      NextSample(samples, i, per, samples[i]);
      assert |before| == |samples| * per by { ConcatLength(samples[..i], per); }
      var ok := preprocessor.PreprocessInto(image, batchInput, i * per);
    }

    /** One chunk: prepare, run, cut, postprocess. */
    method PredictChunk(images: seq<Bytes>) returns (r: Results)
      requires preprocessor.Valid() && preprocessor.ElemCount() > 0 && images != [] && Cuttable(Samples(images))
      ensures r == ChunkResult(Samples(images))
    {
      ghost var samples := Samples(images);
      var batchInput := PrepareChunk(images);
      ShapeProduct(|images|);
      var out := InferBatch(batchInput[..], BatchShape(|images|), samples);
      if out.Thrown? { return Escaped(out.error); }
      var texts := PostprocessBatch(out.data, out.shape, |images|);
      r := Strings(texts);
    }

    /** For a regular model cutting gives each sample its own output back. */
    lemma RegularChunk(samples: seq<seq<real>>, n: nat, s: seq<int>)
      requires Regular(n, s) && samples != []
      ensures Cuttable(samples) && ChunkResult(samples) == Mapped(samples)
    {
      if FirstThrow(samples) == |samples| {
        RegularLength(samples, n, s);
        var out := BatchOutput(samples);
        forall i | 0 <= i < |samples| ensures TextAt(out.data, out.shape, |samples|, i) == ResultOf(samples[i]) {
          SliceOfConcat(Datas(samples), n, i);
          assert s[0 := |samples|][0 := 1] == s;
        }
      }
    }

    lemma RegularLength(samples: seq<seq<real>>, n: nat, s: seq<int>)
      requires Regular(n, s) && samples != [] && FirstThrow(samples) == |samples|
      ensures Uniform(Datas(samples), n)
      ensures var out := BatchOutput(samples);
              && out.Output? && out.shape == s[0 := |samples|] && |out.data| == |samples| * n
              && SliceLength(out.shape, |out.data|, |samples|) == n && InBounds(out.data, out.shape, |samples|)
    {
      var k := |samples|;
      ConcatLength(Datas(samples), n);
      Divided(n, 0, k);
      Swap(n, k);
    }

    /** For a regular model the chunks do not show: the batch is the map over all samples. */
    lemma {:induction false} RegularChunks(samples: seq<seq<real>>, n: nat, s: seq<int>)
      requires Regular(n, s) && maxBatch > 1
      ensures AllCuttable(samples) && Chunked(samples) == Mapped(samples)
      decreases |samples|
    {
      if samples != [] {
        var chunk := Min(maxBatch, |samples|);
        RegularChunk(samples[..chunk], n, s);
        RegularChunks(samples[chunk..], n, s);
        MappedJoin(samples, chunk);
      }
    }

    lemma MappedJoin(samples: seq<seq<real>>, chunk: nat)
      requires chunk <= |samples|
      ensures var first, rest := Mapped(samples[..chunk]), Mapped(samples[chunk..]);
              Mapped(samples) == if first.Escaped? then first else Prefixed(first.results, rest)
    {
      assert samples == samples[..chunk] + samples[chunk..];
      if Mapped(samples[..chunk]).Escaped? { MappedStops(samples[..chunk], samples[chunk..]); }
      else { MappedAppend(samples[..chunk], samples[chunk..]); }
    }

    lemma RegularBatch(images: seq<Bytes>, n: nat, s: seq<int>)
      requires preprocessor.Valid() && Regular(n, s)
      ensures Readable(images) && BatchResult(images) == Predicted(images)
    {
      if maxBatch > 1 && preprocessor.ElemCount() > 0 { RegularChunks(Samples(images), n, s); }
    }

    lemma ShapeProduct(n: nat)
      ensures Product(BatchShape(n)[1..]) == preprocessor.ElemCount()
    {
      var a, b, c := BatchShape(n)[1], BatchShape(n)[2], BatchShape(n)[3];
      assert BatchShape(n)[1..] == [a, b, c];
      assert [a, b, c][..2] == [a, b] && [a, b][..1] == [a] && [a][..0] == [];
      assert Product([a]) == a && Product([a, b]) == a * b && Product([a, b, c]) == a * b * c;
      Commute(preprocessor.height, preprocessor.width, preprocessor.channels);
    }

    /** Filling the next place, or leaving its zeros, extends the prepared part by one sample. */
    lemma NextSample(samples: seq<seq<real>>, i: nat, per: nat, t: seq<real>)
      requires i < |samples| && Uniform(samples, per) && t == samples[i]
      ensures var before, after := FilledUpTo(samples, i, per), FilledUpTo(samples, i + 1, per);
              i * per + per <= |before| && Into(before, i * per, t) == after && (t == Zeros(per) ==> before == after)
    {
      var done, left := Concat(samples[..i]), |samples| * per - i * per;
      ConcatLength(samples[..i], per);
      ConcatSnoc(samples[..i], t);
      assert samples[..i + 1] == samples[..i] + [t];
      Fits(i, |samples|, per);
      assert |samples| * per - (i + 1) * per == left - per;
      assert FilledUpTo(samples, i, per) == done + Zeros(left);
      assert FilledUpTo(samples, i + 1, per) == done + t + Zeros(left - per);
      IntoZeros(done, t, left);
    }

    /** The fallback for models that take one sample at a time. */
    method PredictEach(images: seq<Bytes>) returns (results: seq<string>)
      requires preprocessor.Valid()
      ensures results == seq(|images|, i requires 0 <= i < |images| => Single(images[i]))
    {
      results := [];
      while |results| < |images|
        invariant |results| <= |images| && forall i :: 0 <= i < |results| ==> results[i] == Single(images[i])
      {
        var one := PredictOne(images[|results|]);
        results := results + [one];
      }
    }

    method PredictBatch(images: seq<Bytes>) returns (r: Results)
      requires preprocessor.Valid() && Readable(images)
      ensures r == BatchResult(images)
    {
      var results: seq<string> := [];
      if maxBatch <= 1 {
        results := PredictEach(images);
        return Strings(results);
      }
      if preprocessor.ElemCount() <= 0 {
        return Strings(seq(|images|, _ => SHAPE_ERROR));
      }
      r := PredictChunks(images);
    }

    /** Chunk after chunk, until one throws. */
    method PredictChunks(images: seq<Bytes>) returns (r: Results)
      requires preprocessor.Valid() && preprocessor.ElemCount() > 0 && maxBatch > 1 && AllCuttable(Samples(images))
      ensures r == Chunked(Samples(images))
    {
      var results: seq<string> := [];
      var start := 0;
      ghost var all, rest := Chunked(Samples(images)), Samples(images);
      assert images[start..] == images;
      NothingInFront(all);
      while start < |images|
        invariant 0 <= start <= |images| && rest == Samples(images[start..]) && AllCuttable(rest)
        invariant Prefixed(results, Chunked(rest)) == all
      {
        var part;
        part, rest := NextPart(images, start, results, rest, all);
        if part.Escaped? {
          return part;
        }
        results := results + part.results;
        start := start + Min(maxBatch, |images| - start);
      }
      NothingLeft(results, rest);
      r := Strings(results);
    }

    /** The chunk that begins at `start`. */
    method NextPart(images: seq<Bytes>, start: nat, ghost results: seq<string>, ghost rest: seq<seq<real>>, ghost all: Results)
      returns (part: Results, ghost later: seq<seq<real>>)
      requires preprocessor.Valid() && preprocessor.ElemCount() > 0 && maxBatch > 1 && start < |images|
      requires rest == Samples(images[start..]) && AllCuttable(rest) && Prefixed(results, Chunked(rest)) == all
      ensures part.Escaped? ==> all == part
      ensures part.Strings? ==> later == Samples(images[start + Min(maxBatch, |images| - start)..])
      ensures part.Strings? ==> AllCuttable(later) && Prefixed(results + part.results, Chunked(later)) == all
    {
      var chunk := Min(maxBatch, |images| - start);
      ChunkRound(images, start, results, rest, all);
      later := Samples(images[start + chunk..]);
      part := PredictChunk(images[start..start + chunk]);
    }

    lemma NothingInFront(r: Results)
      ensures Prefixed([], r) == r
    {
      if r.Strings? { assert [] + r.results == r.results; }
    }

    lemma NothingLeft(results: seq<string>, rest: seq<seq<real>>)
      requires maxBatch > 1 && rest == []
      ensures AllCuttable(rest) && Prefixed(results, Chunked(rest)) == Strings(results)
    {
      assert results + [] == results;
    }

    /** After a chunk the results so far, in front of what the remaining chunks give, are still the whole answer. */
    lemma ChunkStep(results: seq<string>, rest: seq<seq<real>>, all: Results)
      requires maxBatch > 1 && rest != [] && AllCuttable(rest) && Prefixed(results, Chunked(rest)) == all
      ensures var chunk := Min(maxBatch, |rest|);
              && Cuttable(rest[..chunk])
              && var part := ChunkResult(rest[..chunk]);
                 if part.Escaped? then all == part
                 else AllCuttable(rest[chunk..]) && Prefixed(results + part.results, Chunked(rest[chunk..])) == all
    {
      var chunk := Min(maxBatch, |rest|);
      var part := ChunkResult(rest[..chunk]);
      if part.Strings? { PrefixedTwice(results, part.results, Chunked(rest[chunk..])); }
    }

    lemma PrefixedTwice(a: seq<string>, b: seq<string>, r: Results)
      ensures Prefixed(a, Prefixed(b, r)) == Prefixed(a + b, r)
    {
      if r.Strings? { assert a + (b + r.results) == a + b + r.results; }
    }

    lemma ChunkRound(images: seq<Bytes>, start: nat, results: seq<string>, rest: seq<seq<real>>, all: Results)
      requires preprocessor.Valid() && preprocessor.ElemCount() > 0 && maxBatch > 1 && start < |images|
      requires rest == Samples(images[start..]) && AllCuttable(rest) && Prefixed(results, Chunked(rest)) == all
      ensures var chunk := Min(maxBatch, |images| - start);
              var samples, later := Samples(images[start..start + chunk]), Samples(images[start + chunk..]);
              && Cuttable(samples)
              && var part := ChunkResult(samples);
                 if part.Escaped? then all == part
                 else AllCuttable(later) && Prefixed(results + part.results, Chunked(later)) == all
    {
      NextChunk(images, start, Min(maxBatch, |images| - start));
      ChunkStep(results, rest, all);
    }

    lemma NextChunk(images: seq<Bytes>, start: nat, chunk: nat)
      requires preprocessor.Valid() && preprocessor.ElemCount() > 0 && start + chunk <= |images|
      ensures Samples(images[start..start + chunk]) == Samples(images[start..])[..chunk]
      ensures Samples(images[start + chunk..]) == Samples(images[start..])[chunk..]
    {
    }

    lemma {:induction false} FirstThrowAppend(a: seq<seq<real>>, b: seq<seq<real>>)
      ensures FirstThrow(a + b) == if FirstThrow(a) < |a| then FirstThrow(a) else |a| + FirstThrow(b)
      decreases |a|
    {
      if a == [] {
        assert a + b == b;
      } else {
        assert (a + b)[1..] == a[1..] + b;
        FirstThrowAppend(a[1..], b);
      }
    }

    lemma MappedAppend(a: seq<seq<real>>, b: seq<seq<real>>)
      requires Mapped(a).Strings?
      ensures Mapped(a + b) ==
              if Mapped(b).Strings? then Strings(Mapped(a).results + Mapped(b).results) else Mapped(b)
    {
      FirstThrowAppend(a, b);
    }

    /** Once a chunk has thrown, nothing after it matters. */
    lemma MappedStops(a: seq<seq<real>>, b: seq<seq<real>>)
      requires Mapped(a).Escaped?
      ensures Mapped(a + b) == Mapped(a)
    {
      FirstThrowAppend(a, b);
    }

    // -------------------------------------------------------------- batch against single

    /** What the batch gives for an image, whatever the other images are. */
    ghost predicate SameAsSingle(image: Bytes)
      requires preprocessor.Valid() && preprocessor.ElemCount() > 0
    {
      Run(Sample(image)).Output? && ResultOf(Sample(image)) == Single(image)
    }

    /**
     For any number of images and any chunk size, the batch equals the single-image path image by
     image exactly when each image does: when it decodes and the model does not throw on it, or when
     the result of a sample of zeros happens to be the decode error's text.
     */
    lemma BatchIsMapIff(images: seq<Bytes>)
      requires preprocessor.Valid() && preprocessor.ElemCount() > 0 && maxBatch > 1
      ensures Predicted(images) == Strings(seq(|images|, i requires 0 <= i < |images| => Single(images[i])))
              <==> forall i :: 0 <= i < |images| ==> SameAsSingle(images[i])
    {
      var samples := Samples(images);
      var singles := seq(|images|, i requires 0 <= i < |images| => Single(images[i]));
      if Predicted(images) == Strings(singles) {
        assert FirstThrow(samples) == |samples|;
        forall i | 0 <= i < |images| ensures SameAsSingle(images[i]) {
          assert Run(samples[i]).Output? && ResultsOf(samples)[i] == singles[i];
        }
      }
      if forall i :: 0 <= i < |images| ==> SameAsSingle(images[i]) {
        assert forall i :: 0 <= i < |samples| ==> SameAsSingle(images[i]) && Run(samples[i]).Output?;
        assert ResultsOf(samples) == singles;
      }
    }

    lemma SameAsSingleWhen(image: Bytes)
      requires preprocessor.Valid() && preprocessor.ElemCount() > 0
      ensures SameAsSingle(image) <==>
              Run(Sample(image)).Output? && (preprocessor.Prepared(image).Some? || ResultOf(Zeros(preprocessor.ElemCount())) == DECODE_ERROR)
    {
    }

    /**
     The batch path against the single-image path, for every model with outputs of one shape: the
     results are the single results, one by one, exactly when the model takes one image at a time, or
     there is no image, or the shape is valid, no sample throws, and each image decodes (or a sample
     of zeros happens to be given the decode error's text).
     */
    lemma BatchIsSinglesIff(images: seq<Bytes>, n: nat, s: seq<int>)
      requires preprocessor.Valid() && Regular(n, s)
      ensures Readable(images)
      ensures BatchResult(images) == Strings(seq(|images|, i requires 0 <= i < |images| => Single(images[i])))
              <==> maxBatch <= 1 || images == [] || (preprocessor.ElemCount() > 0 && forall i :: 0 <= i < |images| ==> Agrees(images[i]))
    {
      RegularBatch(images, n, s);
      if maxBatch > 1 {
        if preprocessor.ElemCount() > 0 {
          BatchIsMapIff(images);
          forall i | 0 <= i < |images| ensures SameAsSingle(images[i]) <==> Agrees(images[i]) { SameAsSingleWhen(images[i]); }
        } else {
          ErrorsDiffer();
          if images != [] { assert BatchResult(images).results[0] == SHAPE_ERROR && Single(images[0]) == DECODE_ERROR; }
        }
      }
    }

    /** The model does not throw on the image's sample, and the image decodes or its zeros pass for the decode error. */
    ghost predicate Agrees(image: Bytes)
      requires preprocessor.Valid() && preprocessor.ElemCount() > 0
    {
      Run(Sample(image)).Output? && (preprocessor.Prepared(image).Some? || ResultOf(Zeros(preprocessor.ElemCount())) == DECODE_ERROR)
    }

    lemma ErrorsDiffer()
      ensures SHAPE_ERROR != DECODE_ERROR
    {
      assert SHAPE_ERROR[0] == 'i' && DECODE_ERROR[0] == 'f';
    }

    // -------------------------------------------------------------- outputs the default slicing does not fit

    /** Every output has shape {1, c, ...} and `c * p` values, and the default slicing cuts it by `c`. */
    ghost predicate Stacked(c: nat, p: nat) {
      && c > 0 && p > 0 && splitter.BySecondDimension?
      && forall t :: Run(t).Output? ==> |Run(t).data| == c * p && |Run(t).shape| >= 2 && Run(t).shape[1] == c
    }

    /** The image from whose output result `i` is cut: a `p`-th of the way into its chunk. */
    function Source(i: nat, p: nat): (k: nat)
      requires maxBatch > 1 && p > 0
    {
      i - i % maxBatch + (i % maxBatch) / p
    }

    lemma StackedChunk(samples: seq<seq<real>>, c: nat, p: nat)
      requires Stacked(c, p) && samples != []
      ensures Cuttable(samples)
    {
      if FirstThrow(samples) == |samples| {
        ConcatLength(Datas(samples), c * p);
        StackedFits(|samples|, c, p);
      }
    }

    lemma StackedFits(n: nat, c: nat, p: nat)
      requires p > 0
      ensures n * c <= n * (c * p)
    {
      Ordered(1, p, c);
      Swap(p, c);
      Ordered(c, c * p, n);
      Swap(n, c);
      Swap(n, c * p);
    }

    lemma StackedText(samples: seq<seq<real>>, c: nat, p: nat, i: nat) returns (q: nat, r: nat)
      requires Stacked(c, p) && i < |samples| && Cuttable(samples) && ChunkResult(samples).Strings?
      ensures q == i / p && r == i % p && q <= i && Run(samples[q]).Output? && (r + 1) * c <= |Run(samples[q]).data|
      ensures ChunkResult(samples).results[i] == post(Slice(Run(samples[q]).data, c, r), [1, c])
    {
      q, r := i / p, i % p;
      SmallerQuotient(i, p);
      SliceOfConcat(Datas(samples), c * p, q);
      SliceOfSlice(Concat(Datas(samples)), c, p, i);
    }

    lemma SmallerQuotient(i: nat, p: nat)
      requires p > 0
      ensures i / p <= i
    {
      Ordered(1, p, i / p);
      Swap(p, i / p);
    }

    lemma {:induction false} StackedChunks(samples: seq<seq<real>>, c: nat, p: nat)
      requires Stacked(c, p) && maxBatch > 1
      ensures AllCuttable(samples)
      decreases |samples|
    {
      if samples != [] {
        var chunk := Min(maxBatch, |samples|);
        StackedChunk(samples[..chunk], c, p);
        StackedChunks(samples[chunk..], c, p);
      }
    }

    /** Result `i` is the text of a slice of the output of sample `Source(i, p)`. */
    ghost predicate CutFrom(samples: seq<seq<real>>, c: nat, p: nat, i: nat, text: string)
      requires maxBatch > 1 && p > 0
    {
      var k, r := Source(i, p), (i % maxBatch) % p;
      && k < |samples| && Run(samples[k]).Output? && (r + 1) * c <= |Run(samples[k]).data|
      && text == post(Slice(Run(samples[k]).data, c, r), [1, c])
    }

    lemma {:induction false} StackedResults(samples: seq<seq<real>>, c: nat, p: nat, i: nat)
      requires Stacked(c, p) && maxBatch > 1 && i < |samples| && AllCuttable(samples) && Chunked(samples).Strings?
      ensures i < |Chunked(samples).results| && CutFrom(samples, c, p, i, Chunked(samples).results[i])
      decreases |samples|
    {
      var chunk := Min(maxBatch, |samples|);
      ChunkedAt(samples, i);
      if i < chunk {
        StackedFirst(samples, c, p, i);
      } else {
        StackedResults(samples[chunk..], c, p, i - chunk);
        StackedLater(samples, chunk, c, p, i, ChunkResult(samples[..chunk]).results, Chunked(samples[chunk..]).results, Chunked(samples).results);
      }
    }

    lemma StackedLater(samples: seq<seq<real>>, chunk: nat, c: nat, p: nat, i: nat, first: seq<string>, rest: seq<string>, all: seq<string>)
      requires maxBatch > 1 && p > 0 && chunk == maxBatch <= i && chunk <= |samples| && |first| == chunk && all == first + rest
      requires i - chunk < |rest| && CutFrom(samples[chunk..], c, p, i - chunk, rest[i - chunk])
      ensures i < |all| && CutFrom(samples, c, p, i, all[i])
    {
      ConcatAt(first, rest, i);
      CutFromLater(samples, c, p, i, rest[i - chunk]);
    }

    lemma ConcatAt(a: seq<string>, b: seq<string>, i: nat)
      requires |a| <= i
      ensures i - |a| < |b| ==> i < |a + b| && (a + b)[i] == b[i - |a|]
    {
    }

    lemma StackedFirst(samples: seq<seq<real>>, c: nat, p: nat, i: nat)
      requires Stacked(c, p) && maxBatch > 1 && i < Min(maxBatch, |samples|) && AllCuttable(samples) && Chunked(samples).Strings?
      ensures i < |Chunked(samples).results| && CutFrom(samples, c, p, i, Chunked(samples).results[i])
    {
      var chunk := Min(maxBatch, |samples|);
      ChunkedAt(samples, i);
      PrefixAt(ChunkResult(samples[..chunk]).results, Chunked(samples[chunk..]).results, i);
      CutFromChunk(samples, chunk, c, p, i);
    }

    lemma PrefixAt(a: seq<string>, b: seq<string>, i: nat)
      requires i < |a|
      ensures i < |a + b| && (a + b)[i] == a[i]
    {
    }

    lemma CutFromChunk(samples: seq<seq<real>>, chunk: nat, c: nat, p: nat, i: nat)
      requires Stacked(c, p) && maxBatch > 1 && i < chunk <= maxBatch && chunk <= |samples|
      requires Cuttable(samples[..chunk]) && ChunkResult(samples[..chunk]).Strings?
      ensures CutFrom(samples, c, p, i, ChunkResult(samples[..chunk]).results[i])
    {
      var part := samples[..chunk];
      var q, r := StackedText(part, c, p, i);
      TakenAt(samples, chunk, q);
      CutFromFirst(samples, c, p, i, q, r, ChunkResult(part).results[i]);
    }

    lemma TakenAt(samples: seq<seq<real>>, chunk: nat, q: nat)
      requires q < chunk <= |samples|
      ensures samples[..chunk][q] == samples[q]
    {
    }

    /** The results of the first chunk, followed by those of the rest. */
    lemma ChunkedAt(samples: seq<seq<real>>, i: nat)
      requires maxBatch > 1 && i < |samples| && AllCuttable(samples) && Chunked(samples).Strings?
      ensures var chunk := Min(maxBatch, |samples|);
              && Cuttable(samples[..chunk]) && ChunkResult(samples[..chunk]).Strings?
              && AllCuttable(samples[chunk..]) && Chunked(samples[chunk..]).Strings?
              && Chunked(samples).results == ChunkResult(samples[..chunk]).results + Chunked(samples[chunk..]).results
    {
    }

    lemma CutFromFirst(samples: seq<seq<real>>, c: nat, p: nat, i: nat, q: nat, r: nat, text: string)
      requires maxBatch > 1 && p > 0 && i < maxBatch && q == i / p && r == i % p && q < |samples| && Run(samples[q]).Output?
      requires (r + 1) * c <= |Run(samples[q]).data| && text == post(Slice(Run(samples[q]).data, c, r), [1, c])
      ensures CutFrom(samples, c, p, i, text)
    {
      Quotient(i, maxBatch, 0, i);
    }

    lemma CutFromLater(samples: seq<seq<real>>, c: nat, p: nat, i: nat, text: string)
      requires maxBatch > 1 && p > 0 && maxBatch <= i && maxBatch <= |samples|
      requires CutFrom(samples[maxBatch..], c, p, i - maxBatch, text)
      ensures CutFrom(samples, c, p, i, text)
    {
      NextSource(i, p);
    }

    lemma NextSource(i: nat, p: nat)
      requires maxBatch > 1 && p > 0 && i >= maxBatch
      ensures i % maxBatch == (i - maxBatch) % maxBatch && Source(i, p) == Source(i - maxBatch, p) + maxBatch
    {
      var j := i - maxBatch;
      assert i == (j / maxBatch + 1) * maxBatch + j % maxBatch;
      Quotient(i, maxBatch, j / maxBatch + 1, j % maxBatch);
    }

    /**
     What the default slicing does to outputs of shape {1, C, H, W}, with p = H * W: image i gets the
     text of the (i mod p)-th piece of length C of the output of an image further ahead in its chunk,
     which is its own image exactly when p is 1 or it is the first of its chunk.
     */
    lemma StackedBatch(images: seq<Bytes>, c: nat, p: nat, i: nat)
      requires preprocessor.Valid() && preprocessor.ElemCount() > 0 && maxBatch > 1 && Stacked(c, p) && i < |images|
      ensures Readable(images)
      ensures BatchResult(images).Strings? ==>
                i < |BatchResult(images).results| && CutFrom(Samples(images), c, p, i, BatchResult(images).results[i])
      ensures Source(i, p) <= i && (Source(i, p) == i <==> p == 1 || i % maxBatch == 0)
    {
      StackedChunks(Samples(images), c, p);
      if BatchResult(images).Strings? { StackedResults(Samples(images), c, p, i); }
      OwnQuotient(i % maxBatch, p);
    }

    lemma OwnQuotient(j: nat, p: nat)
      requires p > 0
      ensures j / p <= j && (j / p == j <==> p == 1 || j == 0)
    {
      SmallerQuotient(j, p);
      if p > 1 && j / p == j {
        Ordered(2, p, j);
        Swap(p, j);
      }
    }

    /** Result `i` depends on image `i` alone, even when others do not decode. */
    lemma ResultsIndependent(images: seq<Bytes>, others: seq<Bytes>, i: nat, j: nat)
      requires preprocessor.Valid() && preprocessor.ElemCount() > 0 && maxBatch > 1
      requires i < |images| && j < |others| && images[i] == others[j]
      requires Predicted(images).Strings? && Predicted(others).Strings?
      ensures |Predicted(images).results| == |images| && |Predicted(others).results| == |others|
      ensures Predicted(images).results[i] == Predicted(others).results[j]
    {
    }
  }
}
