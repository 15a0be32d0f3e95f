/** The attention bias builders: matrices whose entries are 0 where a query
    may attend and the large negative constant where it may not, with the
    broadcast dimensions of size 1 left out. */
module AttentionMasks {
  import opened Errors
  import opened AttentionHeads

  /** `-1e9`, the bias that blocks a connection. */
  const NEG_INF: int := -1000000000

  /** `m` has `rows` rows of `cols` entries. */
  predicate IsMatrix(m: seq<seq<int>>, rows: nat, cols: nat)
  {
    |m| == rows && Uniform(m, cols)
  }

  /** Every entry is 0 or the blocking constant. */
  predicate IsBias(m: seq<seq<int>>)
  {
    forall i, j :: 0 <= i < |m| && 0 <= j < |m[i]| ==> m[i][j] == 0 || m[i][j] == NEG_INF
  }

  /** The band kept by `tf.matrix_band_part(x, num_lower, num_upper)`: a
      negative bound means that side is unlimited. */
  predicate InBand(i: int, j: int, numLower: int, numUpper: int)
  {
    (numLower < 0 || i - j <= numLower) && (numUpper < 0 || j - i <= numUpper)
  }

  /** `tf.matrix_band_part(tf.ones([rows, cols]), num_lower, num_upper)`. */
  function BandOfOnes(rows: nat, cols: nat, numLower: int, numUpper: int): (r: seq<seq<int>>)
    ensures IsMatrix(r, rows, cols)
    ensures forall i, j :: 0 <= i < rows && 0 <= j < cols ==>
      (r[i][j] == 1 <==> InBand(i, j, numLower, numUpper)) && (r[i][j] == 0 || r[i][j] == 1)
  {
    seq(rows, i requires 0 <= i < rows =>
      seq(cols, j requires 0 <= j < cols => if InBand(i, j, numLower, numUpper) then 1 else 0))
  }

  /** `attention_bias_local(length, max_backward, max_forward)`:
      `-1e9 * (1 - band)`. */
  function AttentionBiasLocal(length: nat, maxBackward: int, maxForward: int): (r: seq<seq<int>>)
    ensures IsMatrix(r, length, length) && IsBias(r)
    ensures forall i, j :: 0 <= i < length && 0 <= j < length ==>
      (r[i][j] == 0 <==> (maxBackward < 0 || i - j <= maxBackward) && (maxForward < 0 || j - i <= maxForward))
  {
    var band := BandOfOnes(length, length, maxBackward, maxForward);
    seq(length, i requires 0 <= i < length =>
      seq(length, j requires 0 <= j < length => NEG_INF * (1 - band[i][j])))
  }

  /** `attention_bias_lower_triangle(length)`: a query sees every position up
      to and including its own. */
  function AttentionBiasLowerTriangle(length: nat): (r: seq<seq<int>>)
    ensures IsMatrix(r, length, length) && IsBias(r)
    ensures forall i, j :: 0 <= i < length && 0 <= j < length ==> (r[i][j] == 0 <==> j <= i)
  {
    AttentionBiasLocal(length, -1, 0)
  }

  /** `attention_bias_ignore_padding(memory_padding)`: padding times `-1e9`. */
  function AttentionBiasIgnorePadding(padding: seq<seq<int>>): (r: seq<seq<int>>)
    ensures |r| == |padding|
    ensures forall b :: 0 <= b < |r| ==> |r[b]| == |padding[b]|
    ensures forall b, j :: 0 <= b < |r| && 0 <= j < |r[b]| ==>
      (padding[b][j] == 0 ==> r[b][j] == 0) && (padding[b][j] == 1 ==> r[b][j] == NEG_INF)
  {
    seq(|padding|, b requires 0 <= b < |padding| =>
      seq(|padding[b]|, j requires 0 <= j < |padding[b]| => padding[b][j] * NEG_INF))
  }

  /** `attention_bias_to_padding(bias)`: 1 where the bias is below -1. */
  function AttentionBiasToPadding(bias: seq<seq<int>>): (r: seq<seq<int>>)
    ensures |r| == |bias|
    ensures forall b :: 0 <= b < |r| ==> |r[b]| == |bias[b]|
    ensures IsPaddingMask(r)
    ensures forall b, j :: 0 <= b < |r| && 0 <= j < |r[b]| ==>
      (bias[b][j] == 0 ==> r[b][j] == 0) && (bias[b][j] == NEG_INF ==> r[b][j] == 1)
  {
    seq(|bias|, b requires 0 <= b < |bias| =>
      seq(|bias[b]|, j requires 0 <= j < |bias[b]| => if bias[b][j] < -1 then 1 else 0))
  }

  /** Every entry is 0 or 1. */
  predicate IsPaddingMask(m: seq<seq<int>>)
  {
    forall b, j :: 0 <= b < |m| && 0 <= j < |m[b]| ==> m[b][j] == 0 || m[b][j] == 1
  }

  /** `attention_bias_to_padding` inverts `attention_bias_ignore_padding` on
      every 0/1 padding mask. */
  lemma PaddingRoundTrip(m: seq<seq<int>>)
    requires IsPaddingMask(m)
    ensures AttentionBiasToPadding(AttentionBiasIgnorePadding(m)) == m
  {
    var r := AttentionBiasToPadding(AttentionBiasIgnorePadding(m));
    forall b | 0 <= b < |m|
      ensures r[b] == m[b]
    {
      assert |r[b]| == |m[b]|;
    }
  }

  /** ... and `attention_bias_ignore_padding` inverts it back on every bias
      made of 0 and `-1e9`. */
  lemma BiasRoundTrip(bias: seq<seq<int>>)
    requires IsBias(bias)
    ensures AttentionBiasIgnorePadding(AttentionBiasToPadding(bias)) == bias
  {
    var r := AttentionBiasIgnorePadding(AttentionBiasToPadding(bias));
    forall b | 0 <= b < |bias|
      ensures r[b] == bias[b]
    {
      assert |r[b]| == |bias[b]|;
    }
  }

  /** The sum of a sequence, peeled from the back so prefixes unfold. */
  function Sum(s: seq<int>): int
  {
    if |s| == 0 then 0 else Sum(s[..|s| - 1]) + s[|s| - 1]
  }

  /** `tf.cumsum(s, exclusive=True)`: entry `k` is the sum of the entries before `k`. */
  function ExclusiveCumsum(s: seq<int>): (r: seq<int>)
    ensures |r| == |s|
  {
    seq(|s|, k requires 0 <= k < |s| => Sum(s[..k]))
  }

  /** `tf.cumsum(s)`: entry `k` is the sum of the entries up to and including `k`. */
  function InclusiveCumsum(s: seq<int>): (r: seq<int>)
    ensures |r| == |s|
  {
    seq(|s|, k requires 0 <= k < |s| => Sum(s[..k + 1]))
  }

  /** `attention_bias_prepend_inputs_full_attention(padding)`, one matrix per
      batch row: `(i, j)` is blocked iff `target_pos[j] > target_pos[i]`,
      where `target_pos` is the cumulative sum of the exclusive cumulative
      sum of the padding. */
  function AttentionBiasPrependInputsFullAttention(padding: seq<seq<int>>): (r: seq<seq<seq<int>>>)
    ensures |r| == |padding|
    ensures forall b :: 0 <= b < |r| ==> IsMatrix(r[b], |padding[b]|, |padding[b]|) && IsBias(r[b])
  {
    seq(|padding|, b requires 0 <= b < |padding| =>
      var targetPos := InclusiveCumsum(ExclusiveCumsum(padding[b]));
      seq(|targetPos|, i requires 0 <= i < |targetPos| =>
        seq(|targetPos|, j requires 0 <= j < |targetPos| => if targetPos[j] > targetPos[i] then NEG_INF else 0)))
  }

  predicate NonNegative(s: seq<int>)
  {
    forall k :: 0 <= k < |s| ==> s[k] >= 0
  }

  lemma {:induction false} SumNonNegative(s: seq<int>)
    requires NonNegative(s)
    ensures Sum(s) >= 0
    decreases |s|
  {
    if |s| > 0 {
      SumNonNegative(s[..|s| - 1]);
    }
  }

  /** Prefix sums of non-negative entries never decrease, and the longer
      prefix gains at least the entry just before its end. */
  lemma {:induction false} SumPrefixGrows(s: seq<int>, a: nat, b: nat)
    requires NonNegative(s) && a < b <= |s|
    ensures Sum(s[..a]) + s[b - 1] <= Sum(s[..b])
    decreases b - a
  {
    assert s[..b][..b - 1] == s[..b - 1];
    if a < b - 1 {
      SumPrefixGrows(s, a, b - 1);
      assert Sum(s[..a]) <= Sum(s[..b - 1]);
    }
  }

  lemma SumPrefixMonotone(s: seq<int>, a: nat, b: nat)
    requires NonNegative(s) && a <= b <= |s|
    ensures Sum(s[..a]) <= Sum(s[..b])
  {
    if a < b {
      SumPrefixGrows(s, a, b);
    }
  }

  lemma {:induction false} SumOfZeros(s: seq<int>)
    requires forall k :: 0 <= k < |s| ==> s[k] == 0
    ensures Sum(s) == 0
    decreases |s|
  {
    if |s| > 0 {
      SumOfZeros(s[..|s| - 1]);
    }
  }

  /** The target positions of one padding row. */
  function TargetPositions(p: seq<int>): (r: seq<int>)
    ensures |r| == |p|
  {
    InclusiveCumsum(ExclusiveCumsum(p))
  }

  lemma InTargetNonNegative(p: seq<int>)
    requires NonNegative(p)
    ensures NonNegative(ExclusiveCumsum(p))
  {
    var inTarget := ExclusiveCumsum(p);
    forall k | 0 <= k < |inTarget|
      ensures inTarget[k] >= 0
    {
      SumNonNegative(p[..k]);
    }
  }

  /** A key after the query and after a padding position has a larger target position. */
  lemma TargetPositionGrows(p: seq<int>, i: nat, j: nat, s: nat)
    requires NonNegative(p) && i < j < |p| && s < j && p[s] != 0
    ensures TargetPositions(p)[j] > TargetPositions(p)[i]
  {
    var inTarget := ExclusiveCumsum(p);
    InTargetNonNegative(p);
    assert inTarget[j] >= 1 by {
      SumPrefixGrows(p, s, s + 1);
      SumNonNegative(p[..s]);
      SumPrefixMonotone(p, s + 1, j);
    }
    SumPrefixGrows(inTarget, i + 1, j + 1);
  }

  /** A key not after the query, or with no padding before it, does not have
      a larger target position. */
  lemma TargetPositionNotAbove(p: seq<int>, i: nat, j: nat)
    requires NonNegative(p) && i < |p| && j < |p|
    requires j <= i || forall s :: 0 <= s < j ==> p[s] == 0
    ensures TargetPositions(p)[j] <= TargetPositions(p)[i]
  {
    var inTarget := ExclusiveCumsum(p);
    InTargetNonNegative(p);
    if j <= i {
      SumPrefixMonotone(inTarget, j + 1, i + 1);
    } else {
      var front := inTarget[..j + 1];
      forall k | 0 <= k < |front|
        ensures front[k] == 0
      {
        assert front[k] == inTarget[k] == Sum(p[..k]);
        SumOfZeros(p[..k]);
      }
      SumOfZeros(front);
      SumNonNegative(inTarget[..i + 1]);
    }
  }

  /** With a non-negative padding row, query `i` is blocked from key `j`
      exactly when `j` lies after `i` and after some padding position: the
      positions up to and including the first padding are seen by every
      query, and the positions after it are causal. */
  lemma PrependMaskBlocks(padding: seq<seq<int>>, b: nat, i: nat, j: nat)
    requires b < |padding| && i < |padding[b]| && j < |padding[b]|
    requires NonNegative(padding[b])
    ensures AttentionBiasPrependInputsFullAttention(padding)[b][i][j] == NEG_INF
        <==> i < j && exists s :: 0 <= s < j && padding[b][s] != 0
  {
    var p := padding[b];
    var targetPos := TargetPositions(p);
    assert AttentionBiasPrependInputsFullAttention(padding)[b][i][j]
        == if targetPos[j] > targetPos[i] then NEG_INF else 0;
    if i < j && exists s :: 0 <= s < j && p[s] != 0 {
      var s :| 0 <= s < j && p[s] != 0;
      TargetPositionGrows(p, i, j, s);
    } else {
      TargetPositionNotAbove(p, i, j);
    }
  }

  /** `attention_bias_coordinates(batch_coordinate)`:
      `min(1, |c_i - c_j|) * -1e9`. */
  function AttentionBiasCoordinates(coordinates: seq<int>): (r: seq<seq<int>>)
    ensures IsMatrix(r, |coordinates|, |coordinates|) && IsBias(r)
    ensures forall i, j :: 0 <= i < |coordinates| && 0 <= j < |coordinates| ==>
      (r[i][j] == 0 <==> coordinates[i] == coordinates[j])
  {
    seq(|coordinates|, i requires 0 <= i < |coordinates| =>
      seq(|coordinates|, j requires 0 <= j < |coordinates| =>
        var d := coordinates[i] - coordinates[j];
        var dist := if d < 0 then -d else d;
        (if dist < 1 then dist else 1) * NEG_INF))
  }

  /** Positions of different batch elements are kept apart symmetrically,
      and every position sees itself. */
  lemma CoordinatesSymmetric(coordinates: seq<int>, i: nat, j: nat)
    requires i < |coordinates| && j < |coordinates|
    ensures AttentionBiasCoordinates(coordinates)[i][j] == AttentionBiasCoordinates(coordinates)[j][i]
    ensures AttentionBiasCoordinates(coordinates)[i][i] == 0
  {
  }

  /** `tf.clip_by_value(t, lo, hi)`: `max(min(t, hi), lo)`. */
  function Clip(t: int, lo: int, hi: int): int
  {
    var upper := if t < hi then t else hi;
    if upper > lo then upper else lo
  }

  /** `_generate_relative_positions_matrix(length, m)`: entry `(i, j)` is
      `j - i` clipped to `[-m, m]` and shifted by `m`. */
  function RelativePositionsMatrix(length: nat, maxRelativePosition: int): (r: seq<seq<int>>)
    ensures IsMatrix(r, length, length)
  {
    seq(length, i requires 0 <= i < length =>
      seq(length, j requires 0 <= j < length =>
        Clip(j - i, -maxRelativePosition, maxRelativePosition) + maxRelativePosition))
  }

  /** `max_relative_position * 2 + 1`, the rows of the embedding table. */
  function RelativeVocabSize(maxRelativePosition: int): int
  {
    maxRelativePosition * 2 + 1
  }

  /** For a non-negative bound every entry is a row of the embedding table;
      within the bound it identifies `j - i` exactly, beyond it the extreme
      row is used. */
  lemma RelativePositionsInTable(length: nat, maxRelativePosition: int, i: nat, j: nat)
    requires maxRelativePosition >= 0 && i < length && j < length
    ensures 0 <= RelativePositionsMatrix(length, maxRelativePosition)[i][j] < RelativeVocabSize(maxRelativePosition)
    ensures -maxRelativePosition <= j - i <= maxRelativePosition ==>
      RelativePositionsMatrix(length, maxRelativePosition)[i][j] == j - i + maxRelativePosition
    ensures j - i > maxRelativePosition ==>
      RelativePositionsMatrix(length, maxRelativePosition)[i][j] == 2 * maxRelativePosition
    ensures i - j > maxRelativePosition ==>
      RelativePositionsMatrix(length, maxRelativePosition)[i][j] == 0
  {
    var m := maxRelativePosition;
    assert RelativePositionsMatrix(length, m)[i][j] == Clip(j - i, -m, m) + m;
  }

  /** The guard of `dot_product_attention_relative` as written: `if not m`
      rejects only an unset or zero bound (0 stands for `None` here too). */
  function RelativeAttentionGuardAsWritten(maxRelativePosition: Option<int>): (r: Result<int>)
    ensures r.Err? <==> maxRelativePosition == None || maxRelativePosition == Some(0)
  {
    match maxRelativePosition
    case None => Err(ValueError)
    case Some(m) => if m == 0 then Err(ValueError) else Ok(m)
  }

  /** A negative bound passes the guard as written, yet leaves an embedding
      table with no rows. */
  lemma NegativeBoundPassesGuard()
    ensures RelativeAttentionGuardAsWritten(Some(-1)) == Ok(-1)
    ensures RelativeVocabSize(-1) < 1
  {
  }

  /** The guard as its message states it: the bound must be positive. */
  function RelativeAttentionGuard(maxRelativePosition: Option<int>): (r: Result<int>)
    ensures r.Err? <==> maxRelativePosition.None? || maxRelativePosition.value <= 0
    ensures r.Ok? ==> Some(r.value) == maxRelativePosition
  {
    match maxRelativePosition
    case None => Err(ValueError)
    case Some(m) => if m <= 0 then Err(ValueError) else Ok(m)
  }

  /** Whatever passes the corrected guard indexes the embedding table within
      bounds at every position pair. */
  lemma GuardedRelativePositionsInTable(maxRelativePosition: Option<int>, length: nat, i: nat, j: nat)
    requires RelativeAttentionGuard(maxRelativePosition).Ok? && i < length && j < length
    ensures var m := RelativeAttentionGuard(maxRelativePosition).value;
      0 <= RelativePositionsMatrix(length, m)[i][j] < RelativeVocabSize(m)
  {
    RelativePositionsInTable(length, RelativeAttentionGuard(maxRelativePosition).value, i, j);
  }

  function Ones(n: nat): (r: seq<int>)
    ensures |r| == n && forall k :: 0 <= k < n ==> r[k] == 1
  {
    seq(n, _ => 1)
  }

  function Zeros(n: nat): (r: seq<int>)
    ensures |r| == n && forall k :: 0 <= k < n ==> r[k] == 0
  {
    seq(n, _ => 0)
  }

  /** One query row of `make_2d_block_raster_mask` before it is inverted:
      the top flange of ones, then for each query-block row a left flange of
      ones, that row's slice of the lower triangle and a right flange of zeros. */
  function RasterRow(triangleRow: seq<int>, queryHeight: nat, queryWidth: nat,
                     flangeHeight: nat, flangeWidth: nat): (r: seq<int>)
    requires |triangleRow| == queryHeight * queryWidth
    ensures |r| == (queryWidth + 2 * flangeWidth) * (flangeHeight + queryHeight)
  {
    var width := queryWidth + 2 * flangeWidth;
    var padded := PaddedPieces(Chunks(triangleRow, queryHeight, queryWidth), queryWidth, flangeWidth);
    Distribute(width, flangeHeight, queryHeight);
    Ones(width * flangeHeight) + Flatten(padded, width)
  }

  /** Each piece between a flange of ones on the left and of zeros on the right. */
  function PaddedPieces(pieces: seq<seq<int>>, queryWidth: nat, flangeWidth: nat): (r: seq<seq<int>>)
    requires Uniform(pieces, queryWidth)
    ensures |r| == |pieces| && Uniform(r, queryWidth + 2 * flangeWidth)
  {
    var r := seq(|pieces|, k requires 0 <= k < |pieces| => Ones(flangeWidth) + pieces[k] + Zeros(flangeWidth));
    assert forall k :: 0 <= k < |r| ==> r[k] == Ones(flangeWidth) + pieces[k] + Zeros(flangeWidth);
    r
  }

  lemma Distribute(width: nat, a: nat, b: nat)
    ensures width * a + b * width == width * (a + b)
  {
  }

  /** Entry `t` of a padded piece: left flange, the piece, right flange. */
  lemma PaddedEntry(pieces: seq<seq<int>>, queryWidth: nat, flangeWidth: nat, k: nat, t: nat)
    requires Uniform(pieces, queryWidth) && k < |pieces| && t < queryWidth + 2 * flangeWidth
    ensures PaddedPieces(pieces, queryWidth, flangeWidth)[k][t]
         == if t < flangeWidth then 1 else if t < flangeWidth + queryWidth then pieces[k][t - flangeWidth] else 0
  {
    var row := PaddedPieces(pieces, queryWidth, flangeWidth)[k];
    assert row == Ones(flangeWidth) + pieces[k] + Zeros(flangeWidth);
  }

  /** The top flange of the uninverted row is all ones. */
  lemma RasterRowTop(triangleRow: seq<int>, queryHeight: nat, queryWidth: nat,
                     flangeHeight: nat, flangeWidth: nat, row: nat, t: nat, c: nat)
    requires |triangleRow| == queryHeight * queryWidth
    requires row < flangeHeight && t < queryWidth + 2 * flangeWidth
    requires c == (queryWidth + 2 * flangeWidth) * row + t
    ensures c < |RasterRow(triangleRow, queryHeight, queryWidth, flangeHeight, flangeWidth)|
    ensures RasterRow(triangleRow, queryHeight, queryWidth, flangeHeight, flangeWidth)[c] == 1
  {
    var width := queryWidth + 2 * flangeWidth;
    var padded := PaddedPieces(Chunks(triangleRow, queryHeight, queryWidth), queryWidth, flangeWidth);
    MulStrict(row, t, flangeHeight, width);
    assert RasterRow(triangleRow, queryHeight, queryWidth, flangeHeight, flangeWidth)
        == Ones(width * flangeHeight) + Flatten(padded, width);
  }

  /** Below the top flange, memory row `row` holds the padded piece of
      query-block row `row - flange_height`; inside the block, column `c`
      reads entry `x` of the triangle row. */
  lemma RasterRowBlock(triangleRow: seq<int>, queryHeight: nat, queryWidth: nat,
                       flangeHeight: nat, flangeWidth: nat, row: nat, t: nat, c: nat, x: int)
    requires |triangleRow| == queryHeight * queryWidth
    requires flangeHeight <= row < flangeHeight + queryHeight && t < queryWidth + 2 * flangeWidth
    requires c == (queryWidth + 2 * flangeWidth) * row + t
    requires x == (row - flangeHeight) * queryWidth + (t - flangeWidth)
    ensures c < |RasterRow(triangleRow, queryHeight, queryWidth, flangeHeight, flangeWidth)|
    ensures flangeWidth <= t < flangeWidth + queryWidth ==> 0 <= x < |triangleRow|
    ensures RasterRow(triangleRow, queryHeight, queryWidth, flangeHeight, flangeWidth)[c]
         == if t < flangeWidth then 1 else if t < flangeWidth + queryWidth then triangleRow[x] else 0
  {
    var k := row - flangeHeight;
    var width := queryWidth + 2 * flangeWidth;
    var pieces := Chunks(triangleRow, queryHeight, queryWidth);
    var padded := PaddedPieces(pieces, queryWidth, flangeWidth);
    var top := Ones(width * flangeHeight);
    var flat := Flatten(padded, width);
    var raw := RasterRow(triangleRow, queryHeight, queryWidth, flangeHeight, flangeWidth);
    assert raw == top + flat;
    RasterBlockIndex(queryHeight, queryWidth, flangeHeight, flangeWidth, row, t, c, x);
    FlattenIndex(padded, width, k, t);
    var off := k * width + t;
    assert |top| == width * flangeHeight;
    assert c == |top| + off;
    assert raw[c] == flat[off];
    PaddedEntry(pieces, queryWidth, flangeWidth, k, t);
    if flangeWidth <= t < flangeWidth + queryWidth {
      var e := t - flangeWidth;
      ChunksIndex(triangleRow, queryHeight, queryWidth, k, e);
      assert k * queryWidth + e == x;
      assert padded[k][t] == pieces[k][e];
      assert raw[c] == triangleRow[x];
    } else {
      assert raw[c] == if t < flangeWidth then 1 else 0;
    }
  }

  /** The index arithmetic of a block row: column `c` lies past the top
      flange at offset `k * width + t`, and inside the block the triangle
      entry `x` is in range. */
  lemma RasterBlockIndex(queryHeight: nat, queryWidth: nat, flangeHeight: nat, flangeWidth: nat,
                         row: nat, t: nat, c: nat, x: int)
    requires flangeHeight <= row < flangeHeight + queryHeight && t < queryWidth + 2 * flangeWidth
    requires c == (queryWidth + 2 * flangeWidth) * row + t
    requires x == (row - flangeHeight) * queryWidth + (t - flangeWidth)
    ensures c == (queryWidth + 2 * flangeWidth) * flangeHeight
               + ((row - flangeHeight) * (queryWidth + 2 * flangeWidth) + t)
    ensures flangeWidth <= t < flangeWidth + queryWidth ==>
      0 <= x == (row - flangeHeight) * queryWidth + (t - flangeWidth) < queryHeight * queryWidth
  {
    var k := row - flangeHeight;
    var width := queryWidth + 2 * flangeWidth;
    Distribute(width, flangeHeight, k);
    if flangeWidth <= t < flangeWidth + queryWidth {
      MulStrict(k, t - flangeWidth, queryHeight, queryWidth);
      assert queryWidth * k == k * queryWidth;
      assert queryWidth * queryHeight == queryHeight * queryWidth;
    }
  }

  /** `make_2d_block_raster_mask(query_shape, memory_flange)`: `1 - mask`,
      so 0 marks a visible memory position and 1 a masked one. */
  function Make2dBlockRasterMask(queryHeight: nat, queryWidth: nat, flangeHeight: nat, flangeWidth: nat): (r: seq<seq<int>>)
    requires queryHeight >= 1
    ensures IsMatrix(r, queryHeight * queryWidth, (queryWidth + 2 * flangeWidth) * (flangeHeight + queryHeight))
  {
    var q := queryHeight * queryWidth;
    var triangle := BandOfOnes(q, q, -1, 0);
    var width := (queryWidth + 2 * flangeWidth) * (flangeHeight + queryHeight);
    var r := seq(q, i requires 0 <= i < q =>
      Invert(RasterRow(triangle[i], queryHeight, queryWidth, flangeHeight, flangeWidth)));
    assert forall i :: 0 <= i < q ==> |r[i]| == width;
    r
  }

  /** `1 - row`, elementwise. */
  function Invert(row: seq<int>): (r: seq<int>)
    ensures |r| == |row| && forall c :: 0 <= c < |row| ==> r[c] == 1 - row[c]
  {
    seq(|row|, c requires 0 <= c < |row| => 1 - row[c])
  }

  /** Memory column `c = width*(flange_height + k) + t` (with
      `width = query_width + 2*flange_width`) is visible to query `i` iff it
      is in the top flange (`k < 0` there, written as `row < flange_height`),
      in the left flange, or in the query block at a raster position not
      after `i`; the right flange is always masked. */
  lemma RasterMaskVisible(queryHeight: nat, queryWidth: nat, flangeHeight: nat, flangeWidth: nat,
                          i: nat, row: nat, t: nat)
    requires queryHeight >= 1 && i < queryHeight * queryWidth
    requires row < flangeHeight + queryHeight && t < queryWidth + 2 * flangeWidth
    ensures var width := queryWidth + 2 * flangeWidth;
      var m := Make2dBlockRasterMask(queryHeight, queryWidth, flangeHeight, flangeWidth);
      width * row + t < |m[i]|
      && (m[i][width * row + t] == 0 <==>
            row < flangeHeight
            || t < flangeWidth
            || (t < flangeWidth + queryWidth && (row - flangeHeight) * queryWidth + (t - flangeWidth) <= i))
      && (m[i][width * row + t] == 0 || m[i][width * row + t] == 1)
  {
    var width := queryWidth + 2 * flangeWidth;
    RawRasterEntry(queryHeight, queryWidth, flangeHeight, flangeWidth, i, row, t);
    RasterMaskEntry(queryHeight, queryWidth, flangeHeight, flangeWidth, i, width * row + t);
  }

  /** The uninverted row of query `i` is 1 exactly at the visible columns. */
  lemma RawRasterEntry(queryHeight: nat, queryWidth: nat, flangeHeight: nat, flangeWidth: nat,
                       i: nat, row: nat, t: nat)
    requires queryHeight >= 1 && i < queryHeight * queryWidth
    requires row < flangeHeight + queryHeight && t < queryWidth + 2 * flangeWidth
    ensures var width := queryWidth + 2 * flangeWidth;
      var q := queryHeight * queryWidth;
      var raw := RasterRow(BandOfOnes(q, q, -1, 0)[i], queryHeight, queryWidth, flangeHeight, flangeWidth);
      0 <= width * row + t < width * (flangeHeight + queryHeight)
      && raw[width * row + t]
         == if row < flangeHeight || t < flangeWidth
               || (t < flangeWidth + queryWidth && (row - flangeHeight) * queryWidth + (t - flangeWidth) <= i)
            then 1 else 0
  {
    var width := queryWidth + 2 * flangeWidth;
    var q := queryHeight * queryWidth;
    var triangle := BandOfOnes(q, q, -1, 0);
    var c := width * row + t;
    MulStrict(row, t, flangeHeight + queryHeight, width);
    if row < flangeHeight {
      RasterRowTop(triangle[i], queryHeight, queryWidth, flangeHeight, flangeWidth, row, t, c);
    } else {
      var x := (row - flangeHeight) * queryWidth + (t - flangeWidth);
      RasterRowBlock(triangle[i], queryHeight, queryWidth, flangeHeight, flangeWidth, row, t, c, x);
      if flangeWidth <= t < flangeWidth + queryWidth {
        TriangleEntry(q, i, x);
      }
    }
  }

  lemma TriangleEntry(q: nat, i: nat, x: nat)
    requires i < q && x < q
    ensures BandOfOnes(q, q, -1, 0)[i][x] == 1 <==> x <= i
  {
  }

  /** Each mask entry is one minus the uninverted row's entry. */
  lemma RasterMaskEntry(queryHeight: nat, queryWidth: nat, flangeHeight: nat, flangeWidth: nat, i: nat, c: nat)
    requires queryHeight >= 1 && i < queryHeight * queryWidth
    requires c < (queryWidth + 2 * flangeWidth) * (flangeHeight + queryHeight)
    ensures var q := queryHeight * queryWidth;
      Make2dBlockRasterMask(queryHeight, queryWidth, flangeHeight, flangeWidth)[i][c]
        == 1 - RasterRow(BandOfOnes(q, q, -1, 0)[i], queryHeight, queryWidth, flangeHeight, flangeWidth)[c]
  {
  }

  lemma MulStrict(h: int, e: int, n: int, d: int)
    requires 0 <= h < n && 0 <= e < d
    ensures 0 <= d * h + e < d * n
  {
    assert d * (h + 1) <= d * n;
  }
}
