/** The dimension arithmetic, feature import and error guards of the
    mesh-TensorFlow transformers `MtfUnitransformer` and `MtfBitransformer`.
    The layer stacks and everything run inside mesh TensorFlow are not
    modelled; features are integer matrices `[batch, length]`. */
module MtfTransformer2 {
  import opened Errors
  import opened PyOps

  /** A named mesh dimension. */
  datatype Dimension = Dimension(name: string, size: int)

  /** The number of elements of a shape. */
  function ShapeSize(dims: seq<Dimension>): int
  {
    if |dims| == 0 then 1 else ShapeSize(dims[..|dims| - 1]) * dims[|dims| - 1].size
  }

  /** `batch_dims`: one `batch` dimension, or an outer and an inner batch
      dimension when `outer_batch_size` is set and divides `batch_size`. */
  function BatchDims(batchSize: int, outerBatchSize: int): (r: Result<seq<Dimension>>)
    ensures outerBatchSize == 0 ==> r == Ok([Dimension("batch", batchSize)])
    ensures outerBatchSize != 0 && FloorMod(batchSize, outerBatchSize) != 0 ==> r == Err(ValueError)
    ensures outerBatchSize != 0 && FloorMod(batchSize, outerBatchSize) == 0 ==>
      r.Ok? && |r.value| == 2
      && r.value[0] == Dimension("outer_batch", outerBatchSize)
      && r.value[1].name == "inner_batch"
      && outerBatchSize * r.value[1].size == batchSize
  {
    if outerBatchSize == 0 then Ok([Dimension("batch", batchSize)])
    else if FloorMod(batchSize, outerBatchSize) != 0 then Err(ValueError)
    else Ok([Dimension("outer_batch", outerBatchSize),
             Dimension("inner_batch", FloorDiv(batchSize, outerBatchSize))])
  }

  /** The batch dimension `mtf_model_fn` reshapes the logits to: the batch
      dimensions merged into the first one when there are several. */
  function CombinedBatchDim(dims: seq<Dimension>): (r: Dimension)
    requires |dims| >= 1
    ensures r.name == dims[0].name
    ensures |dims| == 1 ==> r == dims[0]
  {
    if |dims| > 1 then Dimension(dims[0].name, ShapeSize(dims)) else dims[0]
  }

  /** Whatever the split, the batch dimensions hold `batch_size` examples,
      and merging them back gives a dimension of that size. */
  lemma BatchDimsSize(batchSize: int, outerBatchSize: int)
    requires BatchDims(batchSize, outerBatchSize).Ok?
    ensures ShapeSize(BatchDims(batchSize, outerBatchSize).value) == batchSize
    ensures CombinedBatchDim(BatchDims(batchSize, outerBatchSize).value) ==
      Dimension(if outerBatchSize == 0 then "batch" else "outer_batch", batchSize)
  {
    var dims := BatchDims(batchSize, outerBatchSize).value;
    if outerBatchSize == 0 {
      assert ShapeSize(dims) == ShapeSize([]) * batchSize;
    } else {
      assert dims[..1] == [dims[0]] && dims[..1][..0] == [];
      assert ShapeSize(dims) == ShapeSize([dims[0]]) * dims[1].size;
    }
  }

  /** `length_dim`: `hparams.length`, or `max_length` when the length is
      unset or 0 (Python's `or`). */
  function LengthDim(length: Option<int>, maxLength: int): (r: Dimension)
    ensures r.name == "length"
    ensures (length.Some? && length.value != 0) ==> r.size == length.value
    ensures (length.None? || length.value == 0) ==> r.size == maxLength
  {
    Dimension("length", if length.Some? && length.value != 0 then length.value else maxLength)
  }

  /** The vocabulary size rounded up by `(-size) % vocab_divisor`. */
  function VocabSize(topDimensionality: int, vocabDivisor: int): (r: Result<int>)
    ensures vocabDivisor == 0 <==> r == Err(ZeroDivisionError)
    ensures vocabDivisor != 0 ==> r.Ok?
    ensures r.Ok? ==> r.value % vocabDivisor == 0
    ensures vocabDivisor > 0 && r.Ok? ==> topDimensionality <= r.value < topDimensionality + vocabDivisor
    ensures vocabDivisor < 0 && r.Ok? ==> topDimensionality + vocabDivisor < r.value <= topDimensionality
  {
    if vocabDivisor == 0 then Err(ZeroDivisionError)
    else
      var r := topDimensionality + FloorMod(-topDimensionality, vocabDivisor);
      var q := FloorDiv(-topDimensionality, vocabDivisor);
      assert r == vocabDivisor * (-q);
      MultipleMod(-q, vocabDivisor);
      Ok(r)
  }

  lemma MultipleMod(q: int, d: int)
    requires d != 0
    ensures (d * q) % d == 0
  {
    var a := d * q;
    var p, m := a / d, a % d;
    assert a == d * p + m;
    assert d * (q - p) == m by {
      assert d * q - d * p == d * (q - p);
    }
    if q - p != 0 {
      MulAwayFromZero(d, q - p);
    }
  }

  /** A nonzero multiple of `d` is at least `|d|` away from zero. */
  lemma MulAwayFromZero(d: int, c: int)
    requires d != 0 && c != 0
    ensures d * c >= Abs(d) || d * c <= -(Abs(d) as int)
  {
    var e: int := if d < 0 then -d else d;
    var f: int := if c < 0 then -c else c;
    assert e * f >= e by {
      assert e * f == e * (f - 1) + e;
      assert e * (f - 1) >= 0;
    }
    if d > 0 && c < 0 {
      assert d * c == -(e * f);
    } else if d < 0 && c > 0 {
      assert d * c == -(e * f);
    } else if d < 0 && c < 0 {
      assert d * c == e * f;
    }
  }

  /** With a positive divisor the rounded size is the smallest multiple of
      the divisor that is at least the original size. */
  lemma VocabSizeSmallest(topDimensionality: int, vocabDivisor: int, m: int)
    requires vocabDivisor > 0 && m % vocabDivisor == 0 && m >= topDimensionality
    ensures VocabSize(topDimensionality, vocabDivisor).value <= m
  {
    var d := vocabDivisor;
    var r := VocabSize(topDimensionality, d).value;
    var qr, qm := r / d, m / d;
    assert r == d * qr && m == d * qm;
    assert r - m == d * (qr - qm);
    if qr - qm > 0 {
      MulAwayFromZero(d, qr - qm);
    }
  }

  /** A feature tensor `[batch, width]`. */
  datatype Feature = Feature(width: nat, rows: seq<seq<int>>)

  predicate Rectangular(f: Feature)
  {
    forall b :: 0 <= b < |f.rows| ==> |f.rows[b]| == f.width
  }

  /** `rows` is the feature `f` with each row zero-padded on the right to `lengthSize`. */
  predicate PaddedFrom(f: Feature, rows: seq<seq<int>>, lengthSize: int)
  {
    |rows| == |f.rows|
    && forall b :: 0 <= b < |f.rows| ==>
         |rows[b]| == lengthSize
         && f.width <= |rows[b]| && rows[b][..f.width] == f.rows[b]
         && forall i :: f.width <= i < lengthSize ==> rows[b][i] == 0
  }

  /** `_import_feature`: `None` for a missing key; otherwise the rows padded
      on the right with zeros to the length dimension (a negative padding,
      for a feature longer than that, fails), then reshaped to the batch
      dimensions `batch_dims + [length_dim]`, which fails when
      `outer_batch_size` does not divide `batch_size` and unless the feature
      holds `batch_size` rows. Several batch dimensions are kept merged into
      one list of rows. */
  function ImportFeature(features: map<string, Feature>, key: string, batchSize: int, outerBatchSize: int,
                         lengthSize: int): (r: Result<Option<seq<seq<int>>>>)
    requires key in features ==> Rectangular(features[key])
    ensures key !in features <==> r == Ok(None)
    ensures key in features
            && (lengthSize < features[key].width
                || (outerBatchSize != 0 && FloorMod(batchSize, outerBatchSize) != 0)
                || |features[key].rows| != batchSize)
            <==> r.Err?
    ensures r.Err? ==> r.error == ValueError
    ensures r.Ok? && r.value.Some? ==> PaddedFrom(features[key], r.value.value, lengthSize)
  {
    if key !in features then Ok(None)
    else
      var f := features[key];
      var extraLength := lengthSize - f.width;
      if extraLength < 0 then Err(ValueError)
      else
        var _ :- BatchDims(batchSize, outerBatchSize);
        if |f.rows| != batchSize then Err(ValueError)
        else Ok(Some(seq(|f.rows|, b requires 0 <= b < |f.rows| => f.rows[b] + seq(extraLength, _ => 0))))
  }

  /** `model()` of the unitransformer: label smoothing is refused; the input
      vocabulary is the targets' when autoregressive and the inputs'
      otherwise. The result is (input vocabulary size, output vocabulary size). */
  function UnitransformerModel(labelSmoothing: real, autoregressive: bool,
                               inputsTop: int, targetsTop: int, vocabDivisor: int): (r: Result<(int, int)>)
    ensures labelSmoothing != 0.0 ==> r == Err(NotImplementedError)
    ensures labelSmoothing == 0.0 && vocabDivisor == 0 ==> r == Err(ZeroDivisionError)
    ensures labelSmoothing == 0.0 && vocabDivisor != 0 ==> r.Ok?
    ensures r.Ok? ==>
      r.value.1 == VocabSize(targetsTop, vocabDivisor).value
      && r.value.0 == VocabSize(if autoregressive then targetsTop else inputsTop, vocabDivisor).value
  {
    if labelSmoothing != 0.0 then Err(NotImplementedError)
    else
      var inputVocabSize :- VocabSize(if autoregressive then targetsTop else inputsTop, vocabDivisor);
      Ok((inputVocabSize, VocabSize(targetsTop, vocabDivisor).value))
  }

  /** `mtf.shift(targets, offset=1, wrap=False)`: the autoregressive inputs
      are the targets moved one step right, with 0 in front. */
  function ShiftRight(targets: seq<seq<int>>): (r: seq<seq<int>>)
    ensures |r| == |targets|
    ensures forall b :: 0 <= b < |r| ==>
      |r[b]| == |targets[b]|
      && (|r[b]| > 0 ==> r[b][0] == 0)
      && forall i :: 1 <= i < |r[b]| ==> r[b][i] == targets[b][i - 1]
  {
    seq(|targets|, b requires 0 <= b < |targets| =>
      if |targets[b]| == 0 then [] else [0] + targets[b][..|targets[b]| - 1])
  }

  /** The partial targets `sample` forces the output to begin with: the
      imported `"inputs"`; only when there are none, the imported
      `"targets"`; when neither is given, zeros shaped by the batch
      dimensions (which fails like `batch_dims` does). */
  function PartialTargets(features: map<string, Feature>, batchSize: nat, outerBatchSize: int, lengthSize: nat)
    : (r: Result<seq<seq<int>>>)
    requires forall key :: key in features ==> Rectangular(features[key])
    ensures r.Err? ==> r.error == ValueError
    ensures "inputs" in features ==>
      (r.Ok? <==> ImportFeature(features, "inputs", batchSize, outerBatchSize, lengthSize).Ok?)
      && (r.Ok? ==> PaddedFrom(features["inputs"], r.value, lengthSize))
    ensures "inputs" !in features && "targets" in features ==>
      (r.Ok? <==> ImportFeature(features, "targets", batchSize, outerBatchSize, lengthSize).Ok?)
      && (r.Ok? ==> PaddedFrom(features["targets"], r.value, lengthSize))
    ensures "inputs" !in features && "targets" !in features ==>
      (r.Ok? <==> (outerBatchSize == 0 || FloorMod(batchSize, outerBatchSize) == 0))
      && (r.Ok? ==> r.value == seq(batchSize, _ => seq(lengthSize, _ => 0)))
  {
    var inputs :- ImportFeature(features, "inputs", batchSize, outerBatchSize, lengthSize);
    if inputs.Some? then Ok(inputs.value)
    else
      var targets :- ImportFeature(features, "targets", batchSize, outerBatchSize, lengthSize);
      if targets.Some? then Ok(targets.value)
      else
        var _ :- BatchDims(batchSize, outerBatchSize);
        Ok(seq(batchSize, _ => seq(lengthSize, _ => 0)))
  }

  /** With `"inputs"` present, whatever `"targets"` holds is never read. */
  lemma TargetsIgnoredGivenInputs(features: map<string, Feature>, t: Feature,
                                  batchSize: nat, outerBatchSize: int, lengthSize: nat)
    requires forall key :: key in features ==> Rectangular(features[key])
    requires Rectangular(t) && "inputs" in features
    ensures PartialTargets(features["targets" := t], batchSize, outerBatchSize, lengthSize)
         == PartialTargets(features, batchSize, outerBatchSize, lengthSize)
  {
    var g := features["targets" := t];
    assert g["inputs"] == features["inputs"];
    assert ImportFeature(g, "inputs", batchSize, outerBatchSize, lengthSize)
        == ImportFeature(features, "inputs", batchSize, outerBatchSize, lengthSize);
  }

  /** Inputs narrower than the length are padded and become the partial
      targets, even beside targets wider than the length. */
  lemma InputsBesideWideTargets()
    ensures var features := map["inputs" := Feature(2, [[1, 2]]), "targets" := Feature(5, [[1, 2, 3, 4, 5]])];
      PartialTargets(features, 1, 0, 3) == Ok([[1, 2, 0]])
  {
    var features := map["inputs" := Feature(2, [[1, 2]]), "targets" := Feature(5, [[1, 2, 3, 4, 5]])];
    var inputs := features["inputs"];
    assert inputs == Feature(2, [[1, 2]]);
    assert inputs.rows[0] + seq(1, _ => 0) == [1, 2, 0];
    assert BatchDims(1, 0).Ok?;
    var padded := seq(|inputs.rows|, b requires 0 <= b < |inputs.rows| => inputs.rows[b] + seq(3 - inputs.width, _ => 0));
    assert padded[0] == [1, 2, 0] && |padded| == 1;
    assert padded == [[1, 2, 0]];
    assert ImportFeature(features, "inputs", 1, 0, 3) == Ok(Some([[1, 2, 0]]));
  }

  /** `sample` of the unitransformer, up to the call into the model: the
      model (and so its vocabulary sizes) is built first; then the partial
      targets; beam search and non-autoregressive sampling are refused. */
  function UnitransformerSample(labelSmoothing: real, autoregressive: bool, beamSize: int,
                                inputsTop: int, targetsTop: int, vocabDivisor: int,
                                features: map<string, Feature>, batchSize: nat, outerBatchSize: int,
                                lengthSize: nat)
    : (r: Result<seq<seq<int>>>)
    requires forall key :: key in features ==> Rectangular(features[key])
    ensures labelSmoothing != 0.0 ==> r == Err(NotImplementedError)
    ensures labelSmoothing == 0.0 && vocabDivisor == 0 ==> r == Err(ZeroDivisionError)
    ensures labelSmoothing == 0.0 && vocabDivisor != 0 && !autoregressive ==> r == Err(ValueError)
    ensures labelSmoothing == 0.0 && vocabDivisor != 0 && autoregressive ==>
      var p := PartialTargets(features, batchSize, outerBatchSize, lengthSize);
      (p.Err? ==> r == Err(ValueError))
      && (p.Ok? && beamSize > 1 ==> r == Err(NotImplementedError))
      && (p.Ok? && beamSize <= 1 ==> r == Ok(p.value))
    ensures r.Ok? ==> beamSize <= 1 && autoregressive
  {
    var _ :- UnitransformerModel(labelSmoothing, autoregressive, inputsTop, targetsTop, vocabDivisor);
    if autoregressive then
      var partialTargets :- PartialTargets(features, batchSize, outerBatchSize, lengthSize);
      if beamSize > 1 then Err(NotImplementedError) else Ok(partialTargets)
    else Err(ValueError)
  }

  /** The bitransformer's default segment ids: 1 where the token is not the
      padding id 0, and 0 elsewhere, unless a segmentation is given. */
  function DefaultSequenceId(segmentation: Option<seq<seq<int>>>, tokens: seq<seq<int>>): (r: seq<seq<int>>)
    ensures segmentation.Some? ==> r == segmentation.value
    ensures segmentation.None? ==>
      |r| == |tokens|
      && forall b :: 0 <= b < |r| ==>
           |r[b]| == |tokens[b]|
           && forall i :: 0 <= i < |r[b]| ==> (r[b][i] == 1 <==> tokens[b][i] != 0) && 0 <= r[b][i] <= 1
  {
    if segmentation.Some? then segmentation.value
    else seq(|tokens|, b requires 0 <= b < |tokens| =>
           seq(|tokens[b]|, i requires 0 <= i < |tokens[b]| => if tokens[b][i] != 0 then 1 else 0))
  }

  /** A right-padded feature keeps its segment ids and marks every padding
      position as outside all segments. */
  lemma PaddingOutsideSegments(features: map<string, Feature>, key: string, batchSize: int, outerBatchSize: int,
                                lengthSize: int)
    requires key in features && Rectangular(features[key])
    requires ImportFeature(features, key, batchSize, outerBatchSize, lengthSize).Ok?
    ensures var padded := ImportFeature(features, key, batchSize, outerBatchSize, lengthSize).value.value;
      var ids := DefaultSequenceId(None, padded);
      forall b, i :: 0 <= b < |ids| && features[key].width <= i < lengthSize ==> ids[b][i] == 0
  {
  }
}
