/** Length-bucketing batching scheme of the data reader: geometric bucket
    boundaries, per-bucket batch sizes, the drop threshold, the keep rule of
    `batch_examples` and the dataset file patterns. */
module DataReader {
  import opened Errors
  import opened Strings
  import opened PyOps

  /** `10**9`, the threshold used when long sequences are not dropped. */
  const UNLIMITED_LENGTH: int := 1000000000

  /** Default `min_length` of `bucket_boundaries`. */
  const DEFAULT_MIN_LENGTH: int := 8

  function Pow2(e: nat): (r: nat)
    ensures r >= 1
  {
    if e == 0 then 1 else 2 * Pow2(e - 1)
  }

  /** `int(math.log(x, 2))`, taken to be the exact floor of the base-2 logarithm. */
  function FloorLog2(x: int): nat
    requires x >= 1
  {
    if x < 2 then 0 else 1 + FloorLog2(x / 2)
  }

  /** `FloorLog2(x)` is the exponent of the largest power of two not above `x`. */
  lemma {:induction false} FloorLog2Bounds(x: int)
    requires x >= 1
    ensures Pow2(FloorLog2(x)) <= x < 2 * Pow2(FloorLog2(x))
  {
    if x >= 2 {
      FloorLog2Bounds(x / 2);
    }
  }

  /** The gap after boundary `x`: `2**max(0, int(math.log(x, 2)) - mantissa_bits)`,
      at least 1, so the loop of `bucket_boundaries` always advances. */
  function BucketStep(x: int, mantissaBits: int): (r: nat)
    requires x >= 1
    ensures r >= 1
  {
    var e := FloorLog2(x) - mantissaBits;
    Pow2(if e > 0 then e else 0)
  }

  /** The boundaries the loop of `bucket_boundaries` appends once `x` has
      reached a positive value. */
  function BoundariesFrom(x: int, maxLength: int, mantissaBits: int): (r: seq<int>)
    requires x >= 1
    ensures |r| > 0 ==> r[0] == x
    ensures |r| == 0 <==> x >= maxLength
    decreases maxLength - x
  {
    if x < maxLength then [x] + BoundariesFrom(x + BucketStep(x, mantissaBits), maxLength, mantissaBits)
    else []
  }

  /** Every boundary lies in `[x, max_length)`, each one is the previous plus
      its geometric gap, and the gap after the last one reaches `max_length`
      (so the loop stops exactly there). */
  lemma {:induction false} BoundariesShape(x: int, maxLength: int, mantissaBits: int)
    requires x >= 1
    ensures var r := BoundariesFrom(x, maxLength, mantissaBits);
      && (forall k :: 0 <= k < |r| ==> x <= r[k] < maxLength)
      && (forall i, j :: 0 <= i && j == i + 1 && j < |r| ==> r[j] == r[i] + BucketStep(r[i], mantissaBits))
      && (|r| > 0 ==> r[|r| - 1] + BucketStep(r[|r| - 1], mantissaBits) >= maxLength)
    decreases maxLength - x
  {
    if x < maxLength {
      var y := x + BucketStep(x, mantissaBits);
      BoundariesShape(y, maxLength, mantissaBits);
      var rest := BoundariesFrom(y, maxLength, mantissaBits);
      var r := BoundariesFrom(x, maxLength, mantissaBits);
      assert r == [x] + rest;
      assert forall k :: 1 <= k < |r| ==> r[k] == rest[k - 1];
      forall k | 0 <= k < |r|
        ensures x <= r[k] < maxLength
      {
        if k > 0 {
          assert y <= rest[k - 1];
        }
      }
      forall i, j | 0 <= i && j == i + 1 && j < |r|
        ensures r[j] == r[i] + BucketStep(r[i], mantissaBits)
      {
        if i > 0 {
          assert r[i] == rest[i - 1] && r[j] == rest[j - 1];
        }
      }
      if |rest| > 0 {
        assert r[|r| - 1] == rest[|rest| - 1];
      }
    }
  }

  /** What `bucket_boundaries(max_length, min_length, mantissa_bits)` returns:
      nothing when `min_length >= max_length`; a `ValueError` from
      `math.log` when the first boundary is not positive. */
  function GeometricBoundaries(maxLength: int, minLength: int, mantissaBits: int): Result<seq<int>>
  {
    if minLength >= maxLength then Ok([])
    else if minLength <= 0 then Err(ValueError)
    else Ok(BoundariesFrom(minLength, maxLength, mantissaBits))
  }

  /** `bucket_boundaries`: starting at `min_length`, append `x` and advance it
      by the geometric gap while `x < max_length`. */
  method BucketBoundaries(maxLength: int, minLength: int, mantissaBits: int) returns (r: Result<seq<int>>)
    ensures r == GeometricBoundaries(maxLength, minLength, mantissaBits)
  {
    var x := minLength;
    var boundaries: seq<int> := [];
    while x < maxLength
      invariant x == minLength || x >= 1
      invariant x == minLength ==> boundaries == []
      invariant x >= 1 ==> minLength >= 1 && boundaries + BoundariesFrom(x, maxLength, mantissaBits) == BoundariesFrom(minLength, maxLength, mantissaBits)
      decreases maxLength - x
    {
      boundaries := boundaries + [x];
      if x <= 0 {
        // math.log of a non-positive number
        return Err(ValueError);
      }
      x := x + BucketStep(x, mantissaBits);
    }
    if x >= 1 {
      assert BoundariesFrom(x, maxLength, mantissaBits) == [];
      assert boundaries + [] == boundaries;
    }
    r := Ok(boundaries);
  }

  /** The boundary list is strictly increasing. */
  lemma {:induction false} BoundariesIncreasing(x: int, maxLength: int, mantissaBits: int, i: int, j: int)
    requires x >= 1
    requires 0 <= i < j < |BoundariesFrom(x, maxLength, mantissaBits)|
    ensures BoundariesFrom(x, maxLength, mantissaBits)[i] < BoundariesFrom(x, maxLength, mantissaBits)[j]
    decreases j - i
  {
    var r := BoundariesFrom(x, maxLength, mantissaBits);
    BoundariesShape(x, maxLength, mantissaBits);
    if j > i + 1 {
      BoundariesIncreasing(x, maxLength, mantissaBits, i, j - 1);
    }
    assert r[j] == r[j - 1] + BucketStep(r[j - 1], mantissaBits);
  }

  /** `bucket_boundaries` either raises (a first boundary that is not
      positive below `max_length`) or returns a strictly increasing list that
      starts at `min_length`, stays below `max_length`, and is empty exactly
      when `min_length >= max_length`. */
  lemma GeometricBoundariesSpec(maxLength: int, minLength: int, mantissaBits: int)
    ensures var r := GeometricBoundaries(maxLength, minLength, mantissaBits);
      && (r.Err? <==> minLength <= 0 && minLength < maxLength)
      && (r.Err? ==> r.error == ValueError)
      && (r.Ok? ==>
            && (|r.value| == 0 <==> minLength >= maxLength)
            && (|r.value| > 0 ==> r.value[0] == minLength)
            && (forall k :: 0 <= k < |r.value| ==> minLength <= r.value[k] < maxLength)
            && (forall i, j :: 0 <= i < j < |r.value| ==> r.value[i] < r.value[j]))
  {
    if 0 < minLength < maxLength {
      BoundariesShape(minLength, maxLength, mantissaBits);
      forall i, j | 0 <= i < j < |BoundariesFrom(minLength, maxLength, mantissaBits)|
        ensures BoundariesFrom(minLength, maxLength, mantissaBits)[i] < BoundariesFrom(minLength, maxLength, mantissaBits)[j]
      {
        BoundariesIncreasing(minLength, maxLength, mantissaBits, i, j);
      }
    }
  }

  datatype BatchingScheme = BatchingScheme(boundaries: seq<int>, batchSizes: seq<int>, maxLength: int)

  /** `max(1, batch_size // length) * shard_multiplier` for each bucket length. */
  function BatchSizes(batchSize: int, lengths: seq<int>, shardMultiplier: int): (r: seq<int>)
    requires forall k :: 0 <= k < |lengths| ==> lengths[k] != 0
    ensures |r| == |lengths|
  {
    seq(|lengths|, k requires 0 <= k < |lengths| =>
      (if FloorDiv(batchSize, lengths[k]) > 1 then FloorDiv(batchSize, lengths[k]) else 1) * shardMultiplier)
  }

  /** `hparams.max_length or hparams.batch_size`; a zero `max_length` stands
      for an unset one. */
  function EffectiveMaxLength(batchSize: int, maxLengthHparam: int): int
  {
    if maxLengthHparam != 0 then maxLengthHparam else batchSize
  }

  /** `hparams_to_batching_scheme`; the only failure is `batch_size // 0`
      when both `max_length` and `batch_size` are zero. */
  function HparamsToBatchingScheme(batchSize: int, maxLengthHparam: int, mantissaBits: int,
                                   dropLongSequences: bool, shardMultiplier: int,
                                   lengthMultiplier: int): (r: Result<BatchingScheme>)
    ensures r.Err? <==> EffectiveMaxLength(batchSize, maxLengthHparam) == 0
    ensures r.Err? ==> r.error == ZeroDivisionError
  {
    var maxLength := EffectiveMaxLength(batchSize, maxLengthHparam);
    var boundaries := if maxLength > DEFAULT_MIN_LENGTH
      then BoundariesFrom(DEFAULT_MIN_LENGTH, maxLength, mantissaBits) else [];
    assert GeometricBoundaries(maxLength, DEFAULT_MIN_LENGTH, mantissaBits) == Ok(boundaries);
    BoundariesShape(DEFAULT_MIN_LENGTH, maxLength, mantissaBits);
    if maxLength == 0 then Err(ZeroDivisionError)
    else
      var batchSizes := BatchSizes(batchSize, boundaries + [maxLength], shardMultiplier);
      var scaled := seq(|boundaries|, k requires 0 <= k < |boundaries| => boundaries[k] * lengthMultiplier);
      Ok(BatchingScheme(scaled, batchSizes,
                        if dropLongSequences then maxLength * lengthMultiplier else UNLIMITED_LENGTH))
  }

  ghost predicate PositiveMultiple(x: int, factor: int)
  {
    exists m :: m >= 1 && x == m * factor
  }

  /** The scheme's shape: one more batch size than boundaries, boundaries
      strictly increasing and scaled by `length_multiplier`, every batch size a
      positive multiple of `shard_multiplier`, and the drop threshold. */
  lemma BatchingSchemeProperties(batchSize: int, maxLengthHparam: int, mantissaBits: int,
                                 dropLongSequences: bool, shardMultiplier: int, lengthMultiplier: int)
    requires EffectiveMaxLength(batchSize, maxLengthHparam) != 0
    ensures var r := HparamsToBatchingScheme(batchSize, maxLengthHparam, mantissaBits,
                                             dropLongSequences, shardMultiplier, lengthMultiplier);
      && r.Ok?
      && |r.value.batchSizes| == |r.value.boundaries| + 1
      && (forall k :: 0 <= k < |r.value.batchSizes| ==>
            PositiveMultiple(r.value.batchSizes[k], shardMultiplier))
      && (lengthMultiplier >= 1 ==> forall i, j :: 0 <= i < j < |r.value.boundaries| ==>
            r.value.boundaries[i] < r.value.boundaries[j])
      && r.value.maxLength == (if dropLongSequences
                               then EffectiveMaxLength(batchSize, maxLengthHparam) * lengthMultiplier
                               else UNLIMITED_LENGTH)
  {
    var maxLength := EffectiveMaxLength(batchSize, maxLengthHparam);
    var r := HparamsToBatchingScheme(batchSize, maxLengthHparam, mantissaBits,
                                     dropLongSequences, shardMultiplier, lengthMultiplier);
    var b := if maxLength > DEFAULT_MIN_LENGTH then BoundariesFrom(DEFAULT_MIN_LENGTH, maxLength, mantissaBits) else [];
    BoundariesShape(DEFAULT_MIN_LENGTH, maxLength, mantissaBits);
    forall k | 0 <= k < |r.value.batchSizes|
      ensures PositiveMultiple(r.value.batchSizes[k], shardMultiplier)
    {
      var lengths := b + [maxLength];
      var q := FloorDiv(batchSize, lengths[k]);
      var m := if q > 1 then q else 1;
      assert r.value.batchSizes[k] == m * shardMultiplier;
    }
    if lengthMultiplier >= 1 {
      forall i, j | 0 <= i < j < |r.value.boundaries|
        ensures r.value.boundaries[i] < r.value.boundaries[j]
      {
        BoundariesIncreasing(DEFAULT_MIN_LENGTH, maxLength, mantissaBits, i, j);
        ScaleKeepsOrder(b[i], b[j], lengthMultiplier);
      }
    }
  }

  /** The scheme's values: the boundaries are `bucket_boundaries(max_length)`
      scaled by `length_multiplier`, and the batch size of bucket `k` is
      `max(1, batch_size // length) * shard_multiplier` for the `k`-th of
      the unscaled boundaries followed by `max_length`. */
  lemma BatchingSchemeValues(batchSize: int, maxLengthHparam: int, mantissaBits: int,
                             dropLongSequences: bool, shardMultiplier: int, lengthMultiplier: int)
    requires EffectiveMaxLength(batchSize, maxLengthHparam) != 0
    ensures var maxLength := EffectiveMaxLength(batchSize, maxLengthHparam);
      var g := GeometricBoundaries(maxLength, DEFAULT_MIN_LENGTH, mantissaBits);
      var r := HparamsToBatchingScheme(batchSize, maxLengthHparam, mantissaBits,
                                       dropLongSequences, shardMultiplier, lengthMultiplier);
      && g.Ok? && r.Ok?
      && r.value.boundaries == seq(|g.value|, k requires 0 <= k < |g.value| => g.value[k] * lengthMultiplier)
      && |r.value.batchSizes| == |g.value| + 1
      && forall k :: 0 <= k < |r.value.batchSizes| ==>
           (g.value + [maxLength])[k] != 0
           && r.value.batchSizes[k]
              == (if FloorDiv(batchSize, (g.value + [maxLength])[k]) > 1
                  then FloorDiv(batchSize, (g.value + [maxLength])[k]) else 1) * shardMultiplier
  {
    var maxLength := EffectiveMaxLength(batchSize, maxLengthHparam);
    var b := if maxLength > DEFAULT_MIN_LENGTH then BoundariesFrom(DEFAULT_MIN_LENGTH, maxLength, mantissaBits) else [];
    BoundariesShape(DEFAULT_MIN_LENGTH, maxLength, mantissaBits);
    assert GeometricBoundaries(maxLength, DEFAULT_MIN_LENGTH, mantissaBits) == Ok(b);
  }

  lemma ScaleKeepsOrder(a: int, b: int, m: int)
    requires a < b && m >= 1
    ensures a * m < b * m
  {
  }

  /** `length_multiplier` scales the boundaries and the drop threshold but
      leaves every batch size as it is with multiplier 1. */
  lemma LengthMultiplierKeepsBatchSizes(batchSize: int, maxLengthHparam: int, mantissaBits: int,
                                        dropLongSequences: bool, shardMultiplier: int, lengthMultiplier: int)
    requires EffectiveMaxLength(batchSize, maxLengthHparam) != 0
    ensures var scaled := HparamsToBatchingScheme(batchSize, maxLengthHparam, mantissaBits,
                                                  dropLongSequences, shardMultiplier, lengthMultiplier);
            var plain := HparamsToBatchingScheme(batchSize, maxLengthHparam, mantissaBits,
                                                 dropLongSequences, shardMultiplier, 1);
      && scaled.Ok? && plain.Ok?
      && scaled.value.batchSizes == plain.value.batchSizes
      && |scaled.value.boundaries| == |plain.value.boundaries|
      && (forall k :: 0 <= k < |plain.value.boundaries| ==>
            scaled.value.boundaries[k] == plain.value.boundaries[k] * lengthMultiplier)
      && (dropLongSequences ==> scaled.value.maxLength == plain.value.maxLength * lengthMultiplier)
  {
  }

  /** The geometric gaps met on the way from 8 to 128 with one mantissa bit. */
  lemma Steps128(x: int)
    requires x in {8, 12, 16, 24, 32, 48, 64, 96}
    ensures BucketStep(x, 1) == if x < 16 then 4 else if x < 32 then 8 else if x < 64 then 16 else 32
  {
    if x == 8 { assert FloorLog2(8) == 3; }
    else if x == 12 { assert FloorLog2(12) == 3; }
    else if x == 16 { assert FloorLog2(16) == 4; }
    else if x == 24 { assert FloorLog2(24) == 4; }
    else if x == 32 { assert FloorLog2(32) == 5; }
    else if x == 48 { assert FloorLog2(48) == 5; }
    else if x == 64 { assert FloorLog2(64) == 6; }
    else { assert FloorLog2(96) == 6; }
  }

  /** The boundaries for `max_length=128` with one mantissa bit. */
  /** One turn of the loop: a boundary below `max_length` is followed by
      the boundaries from the next one. */
  lemma BoundariesCons(x: int, maxLength: int, mantissaBits: int, step: int, rest: seq<int>)
    requires 1 <= x < maxLength && BucketStep(x, mantissaBits) == step
    requires BoundariesFrom(x + step, maxLength, mantissaBits) == rest
    ensures BoundariesFrom(x, maxLength, mantissaBits) == [x] + rest
  {
  }

  lemma Boundaries128()
    ensures BoundariesFrom(8, 128, 1) == [8, 12, 16, 24, 32, 48, 64, 96]
  {
    Steps128(96); BoundariesCons(96, 128, 1, 32, []);
    Steps128(64); BoundariesCons(64, 128, 1, 32, [96]);
    Steps128(48); BoundariesCons(48, 128, 1, 16, [64, 96]);
    Steps128(32); BoundariesCons(32, 128, 1, 16, [48, 64, 96]);
    Steps128(24); BoundariesCons(24, 128, 1, 8, [32, 48, 64, 96]);
    Steps128(16); BoundariesCons(16, 128, 1, 8, [24, 32, 48, 64, 96]);
    Steps128(12); BoundariesCons(12, 128, 1, 4, [16, 24, 32, 48, 64, 96]);
    Steps128(8); BoundariesCons(8, 128, 1, 4, [12, 16, 24, 32, 48, 64, 96]);
  }

  /** The batch sizes for `batch_size=128` over those boundaries and 128. */
  lemma BatchSizes128()
    ensures BatchSizes(128, [8, 12, 16, 24, 32, 48, 64, 96, 128], 1) == [16, 10, 8, 5, 4, 2, 2, 1, 1]
    ensures BatchSizes(128, [8, 12, 16, 24, 32, 48, 64, 96, 128], 2) == [32, 20, 16, 10, 8, 4, 4, 2, 2]
  {
  }

  /** With `batch_size=128`, no `max_length` and one mantissa bit the
      boundaries are 8, 12, ..., 96 and the batch sizes 16, 10, ..., 1; a
      shard multiplier of 2 doubles every batch size. */
  lemma BatchSize128Scheme()
    ensures HparamsToBatchingScheme(128, 0, 1, false, 1, 1)
         == Ok(BatchingScheme([8, 12, 16, 24, 32, 48, 64, 96], [16, 10, 8, 5, 4, 2, 2, 1, 1], UNLIMITED_LENGTH))
    ensures HparamsToBatchingScheme(128, 0, 1, false, 2, 1)
         == Ok(BatchingScheme([8, 12, 16, 24, 32, 48, 64, 96], [32, 20, 16, 10, 8, 4, 4, 2, 2], UNLIMITED_LENGTH))
  {
    Scheme128(1);
    Scheme128(2);
    BatchSizes128();
  }

  /** The scheme for `batch_size=128` with one mantissa bit, in terms of its batch sizes. */
  lemma Scheme128(shardMultiplier: int)
    ensures HparamsToBatchingScheme(128, 0, 1, false, shardMultiplier, 1)
         == Ok(BatchingScheme([8, 12, 16, 24, 32, 48, 64, 96],
                              BatchSizes(128, [8, 12, 16, 24, 32, 48, 64, 96, 128], shardMultiplier),
                              UNLIMITED_LENGTH))
  {
    Boundaries128();
    ScaleByOne([8, 12, 16, 24, 32, 48, 64, 96]);
    assert [8, 12, 16, 24, 32, 48, 64, 96] + [128] == [8, 12, 16, 24, 32, 48, 64, 96, 128];
  }

  lemma ScaleByOne(b: seq<int>)
    ensures seq(|b|, k requires 0 <= k < |b| => b[k] * 1) == b
  {
  }

  /** The drop threshold: `max_length` (or `batch_size` when unset) when long
      sequences are dropped, otherwise effectively unlimited. */
  lemma DropThresholdExamples()
    ensures HparamsToBatchingScheme(20, 0, 2, false, 1, 1).value.maxLength > 10000
    ensures HparamsToBatchingScheme(20, 0, 2, true, 1, 1).value.maxLength == 20
    ensures HparamsToBatchingScheme(20, 15, 2, true, 1, 1).value.maxLength == 15
    ensures HparamsToBatchingScheme(20, 15, 2, false, 1, 1).value.maxLength > 10000
  {
  }

  /** `constant_batching_scheme`: the default boundaries up to 1024, one copy
      of the constant per bucket, and no length limit. */
  function ConstantBatchingScheme(constantBatchSize: int): (r: BatchingScheme)
    ensures |r.batchSizes| == |r.boundaries| + 1
    ensures forall k :: 0 <= k < |r.batchSizes| ==> r.batchSizes[k] == constantBatchSize
    ensures r.maxLength == UNLIMITED_LENGTH
    ensures GeometricBoundaries(1024, DEFAULT_MIN_LENGTH, 2) == Ok(r.boundaries)
  {
    var boundaries := BoundariesFrom(DEFAULT_MIN_LENGTH, 1024, 2);
    BatchingScheme(boundaries, seq(1 + |boundaries|, _ => constantBatchSize), UNLIMITED_LENGTH)
  }

  /** The length `batch_examples` buckets a field by: its first dimension, or
      the product of the first two for tensors of rank 3 or more (images). */
  function FieldLength(shape: seq<nat>): nat
    requires |shape| >= 1
  {
    if |shape| < 3 then shape[0] else shape[0] * shape[1]
  }

  /** The loop of `batch_examples` that takes the maximum field length,
      starting from 0. */
  method BucketingLength(fields: seq<seq<nat>>) returns (len: nat)
    requires forall k :: 0 <= k < |fields| ==> |fields[k]| >= 1
    ensures forall k :: 0 <= k < |fields| ==> FieldLength(fields[k]) <= len
    ensures len == 0 || exists k :: 0 <= k < |fields| && len == FieldLength(fields[k])
  {
    len := 0;
    var i := 0;
    while i < |fields|
      invariant 0 <= i <= |fields|
      invariant forall k :: 0 <= k < i ==> FieldLength(fields[k]) <= len
      invariant len == 0 || exists k :: 0 <= k < i && len == FieldLength(fields[k])
    {
      var sequenceLength := FieldLength(fields[i]);
      if sequenceLength > len {
        len := sequenceLength;
      }
      i := i + 1;
    }
  }

  /** The arguments `batch_examples` hands to the bucketing queue: whether the
      example is kept, the bucket bounds (each boundary plus one) and the
      bucket capacities (twice each batch size). */
  method BatchExamplesArguments(fields: seq<seq<nat>>, scheme: BatchingScheme)
    returns (keep: bool, bucketBounds: seq<int>, bucketCapacities: seq<int>)
    requires forall k :: 0 <= k < |fields| ==> |fields[k]| >= 1
    ensures keep <==> 0 <= scheme.maxLength && forall k :: 0 <= k < |fields| ==> FieldLength(fields[k]) <= scheme.maxLength
    ensures |bucketBounds| == |scheme.boundaries|
    ensures forall k :: 0 <= k < |bucketBounds| ==> bucketBounds[k] == scheme.boundaries[k] + 1
    ensures |bucketCapacities| == |scheme.batchSizes|
    ensures forall k :: 0 <= k < |bucketCapacities| ==> bucketCapacities[k] == 2 * scheme.batchSizes[k]
  {
    var maxLength := BucketingLength(fields);
    keep := maxLength <= scheme.maxLength;
    bucketBounds := seq(|scheme.boundaries|, k requires 0 <= k < |scheme.boundaries| => scheme.boundaries[k] + 1);
    bucketCapacities := seq(|scheme.batchSizes|, k requires 0 <= k < |scheme.batchSizes| => 2 * scheme.batchSizes[k]);
  }

  /** `get_data_filepatterns`: one pattern per `-`-separated problem, in
      order: the problem's dataset file name (from the problem registry, a
      parameter here) joined to `data_dir`, suffixed `-train*` in training
      mode and `-dev*` otherwise. */
  method GetDataFilepatterns(problems: string, dataDir: string, isTrain: bool,
                             datasetFilename: string -> string) returns (datasets: seq<string>)
    ensures |datasets| == |Split(problems, '-')|
    ensures forall k :: 0 <= k < |datasets| ==>
      datasets[k] == PathJoin(dataDir, datasetFilename(Split(problems, '-')[k]))
                     + (if isTrain then "-train*" else "-dev*")
  {
    var names := Split(problems, '-');
    datasets := [];
    var i := 0;
    while i < |names|
      invariant 0 <= i <= |names|
      invariant |datasets| == i
      invariant forall k :: 0 <= k < i ==>
        datasets[k] == PathJoin(dataDir, datasetFilename(names[k])) + (if isTrain then "-train*" else "-dev*")
    {
      var path := PathJoin(dataDir, datasetFilename(names[i]));
      if isTrain {
        datasets := datasets + [path + "-train*"];
      } else {
        datasets := datasets + [path + "-dev*"];
      }
      i := i + 1;
    }
  }

  /** A problem list written as `a-b-c` from names without dashes yields one
      pattern per name, in order. */
  lemma ProblemNamesRoundTrip(names: seq<string>)
    requires |names| >= 1
    requires forall k :: 0 <= k < |names| ==> '-' !in names[k]
    ensures Split(JoinWith(names, '-'), '-') == names
  {
    SplitJoin(names, '-');
  }
}
