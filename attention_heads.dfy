/** The head reshapes of multihead attention: `split_last_dimension`,
    `combine_last_two_dimensions`, `split_heads` and `combine_heads`, as
    index permutations over nested sequences. */
module AttentionHeads {
  import opened PyOps

  /** Every row has width `w`. */
  predicate Uniform<T>(rows: seq<seq<T>>, w: nat)
  {
    forall h :: 0 <= h < |rows| ==> |rows[h]| == w
  }

  /** `x` has shape `[d0, d1, d2]`. */
  predicate Shape3<T>(x: seq<seq<seq<T>>>, d0: nat, d1: nat, d2: nat)
  {
    |x| == d0 && forall b :: 0 <= b < d0 ==> |x[b]| == d1 && Uniform(x[b], d2)
  }

  /** `y` has shape `[d0, d1, d2, d3]`. */
  predicate Shape4<T>(y: seq<seq<seq<seq<T>>>>, d0: nat, d1: nat, d2: nat, d3: nat)
  {
    |y| == d0 && forall b :: 0 <= b < d0 ==> Shape3(y[b], d1, d2, d3)
  }

  lemma ExactDivision(m: nat, n: nat)
    requires n >= 1 && m % n == 0
    ensures n * (m / n) == m
  {
  }

  lemma MulStep(n: nat, d: nat)
    requires n >= 1
    ensures n * d - d == (n - 1) * d && n * d >= d
  {
  }

  /** `n` consecutive pieces of width `d`. */
  function Chunks<T>(row: seq<T>, n: nat, d: nat): (r: seq<seq<T>>)
    requires |row| == n * d
    ensures |r| == n && Uniform(r, d)
    decreases n
  {
    if n == 0 then []
    else
      MulStep(n, d);
      [row[..d]] + Chunks(row[d..], n - 1, d)
  }

  /** The concatenation of the rows, in order. */
  function Flatten<T>(rows: seq<seq<T>>, w: nat): (r: seq<T>)
    requires Uniform(rows, w)
    ensures |r| == |rows| * w
  {
    if |rows| == 0 then []
    else
      MulStep(|rows|, w);
      rows[0] + Flatten(rows[1..], w)
  }

  /** Piece `h` of the chunks holds elements `h*d .. h*d + d` of the row. */
  lemma {:induction false} ChunksIndex<T>(row: seq<T>, n: nat, d: nat, h: nat, e: nat)
    requires |row| == n * d && h < n && e < d
    ensures 0 <= h * d + e < |row| && Chunks(row, n, d)[h][e] == row[h * d + e]
    decreases h
  {
    MulStep(n, d);
    if h > 0 {
      ChunksIndex(row[d..], n - 1, d, h - 1, e);
      assert (h - 1) * d + d == h * d;
    }
  }

  /** Element `e` of row `h` lands at `h*w + e` of the concatenation. */
  lemma {:induction false} FlattenIndex<T>(rows: seq<seq<T>>, w: nat, h: nat, e: nat)
    requires Uniform(rows, w) && h < |rows| && e < w
    ensures 0 <= h * w + e < |Flatten(rows, w)| && Flatten(rows, w)[h * w + e] == rows[h][e]
    decreases h
  {
    MulStep(|rows|, w);
    if h > 0 {
      FlattenIndex(rows[1..], w, h - 1, e);
      assert (h - 1) * w + w == h * w;
    }
  }

  lemma {:induction false} FlattenChunks<T>(row: seq<T>, n: nat, d: nat)
    requires |row| == n * d
    ensures Flatten(Chunks(row, n, d), d) == row
    decreases n
  {
    if n > 0 {
      MulStep(n, d);
      FlattenChunks(row[d..], n - 1, d);
      assert Chunks(row, n, d)[1..] == Chunks(row[d..], n - 1, d);
      assert row[..d] + row[d..] == row;
    }
  }

  lemma {:induction false} ChunksFlatten<T>(rows: seq<seq<T>>, w: nat)
    requires Uniform(rows, w)
    ensures Chunks(Flatten(rows, w), |rows|, w) == rows
    decreases |rows|
  {
    if |rows| > 0 {
      MulStep(|rows|, w);
      var row := Flatten(rows, w);
      ChunksFlatten(rows[1..], w);
      assert row[..w] == rows[0];
      assert row[w..] == Flatten(rows[1..], w);
      assert [rows[0]] + rows[1..] == rows;
    }
  }

  /** `split_last_dimension(row, n)` on one row: `n` consecutive pieces of
      width `|row| / n` (the reshape fails unless `n` divides the width). */
  function SplitLastDimension<T>(row: seq<T>, n: nat): (r: seq<seq<T>>)
    requires n >= 1 && |row| % n == 0
    ensures |r| == n && Uniform(r, |row| / n)
  {
    ExactDivision(|row|, n);
    Chunks(row, n, |row| / n)
  }

  /** `combine_last_two_dimensions` on rows of width `w`: their concatenation. */
  function CombineLastTwoDimensions<T>(rows: seq<seq<T>>, w: nat): (r: seq<T>)
    requires Uniform(rows, w)
    ensures |r| == |rows| * w
  {
    Flatten(rows, w)
  }

  /** Element `h*d + e` of the row becomes element `e` of piece `h`. */
  lemma SplitLastIndex<T>(row: seq<T>, n: nat, h: nat, e: nat)
    requires n >= 1 && |row| % n == 0 && h < n && e < |row| / n
    ensures h * (|row| / n) + e < |row| && SplitLastDimension(row, n)[h][e] == row[h * (|row| / n) + e]
  {
    ExactDivision(|row|, n);
    ChunksIndex(row, n, |row| / n, h, e);
  }

  /** Combining the pieces of a split gives the row back. */
  lemma CombineSplitLast<T>(row: seq<T>, n: nat)
    requires n >= 1 && |row| % n == 0
    ensures CombineLastTwoDimensions(SplitLastDimension(row, n), |row| / n) == row
  {
    ExactDivision(|row|, n);
    FlattenChunks(row, n, |row| / n);
  }

  /** Splitting the concatenation of `n` rows of equal width into `n` pieces
      gives the rows back. */
  lemma SplitCombineLast<T>(rows: seq<seq<T>>, w: nat)
    requires |rows| >= 1 && Uniform(rows, w)
    ensures |rows| * w % |rows| == 0 && |rows| * w / |rows| == w
    ensures SplitLastDimension(CombineLastTwoDimensions(rows, w), |rows|) == rows
  {
    DivModUnique(|rows| * w, |rows|, w, 0);
    ChunksFlatten(rows, w);
  }

  /** `split_heads(x, num_heads)`: `[batch, length, channels]` becomes
      `[batch, num_heads, length, channels / num_heads]`. */
  function SplitHeads<T>(x: seq<seq<seq<T>>>, numHeads: nat, length: nat, channels: nat): (y: seq<seq<seq<seq<T>>>>)
    requires Shape3(x, |x|, length, channels)
    requires numHeads >= 1 && channels % numHeads == 0
    ensures Shape4(y, |x|, numHeads, length, channels / numHeads)
  {
    seq(|x|, b requires 0 <= b < |x| =>
      seq(numHeads, h requires 0 <= h < numHeads =>
        seq(length, l requires 0 <= l < length => SplitLastDimension(x[b][l], numHeads)[h])))
  }

  /** `split_heads` sends `x[b][l][h*d + e]` to `y[b][h][l][e]`, with
      `d = channels / num_heads`. */
  lemma SplitHeadsIndex<T>(x: seq<seq<seq<T>>>, numHeads: nat, length: nat, channels: nat,
                           b: nat, h: nat, l: nat, e: nat)
    requires Shape3(x, |x|, length, channels)
    requires numHeads >= 1 && channels % numHeads == 0
    requires b < |x| && h < numHeads && l < length && e < channels / numHeads
    ensures h * (channels / numHeads) + e < channels
    ensures SplitHeads(x, numHeads, length, channels)[b][h][l][e] == x[b][l][h * (channels / numHeads) + e]
  {
    SplitLastIndex(x[b][l], numHeads, h, e);
  }

  /** `combine_heads(y)`: transpose heads and length back, then concatenate
      the heads of each position. */
  function CombineHeads<T>(y: seq<seq<seq<seq<T>>>>, numHeads: nat, length: nat, depth: nat): (x: seq<seq<seq<T>>>)
    requires Shape4(y, |y|, numHeads, length, depth)
    ensures Shape3(x, |y|, length, numHeads * depth)
  {
    seq(|y|, b requires 0 <= b < |y| =>
      seq(length, l requires 0 <= l < length =>
        CombineLastTwoDimensions(seq(numHeads, h requires 0 <= h < numHeads => y[b][h][l]), depth)))
  }

  /** `combine_heads` sends `y[b][h][l][e]` to `x[b][l][h*depth + e]`. */
  lemma CombineHeadsIndex<T>(y: seq<seq<seq<seq<T>>>>, numHeads: nat, length: nat, depth: nat,
                             b: nat, h: nat, l: nat, e: nat)
    requires Shape4(y, |y|, numHeads, length, depth)
    requires b < |y| && h < numHeads && l < length && e < depth
    ensures h * depth + e < numHeads * depth
    ensures CombineHeads(y, numHeads, length, depth)[b][l][h * depth + e] == y[b][h][l][e]
  {
    FlattenIndex(seq(numHeads, h' requires 0 <= h' < numHeads => y[b][h'][l]), depth, h, e);
  }

  /** `combine_heads(split_heads(x, n)) == x` whenever `n` divides the channels. */
  lemma CombineSplitHeads<T>(x: seq<seq<seq<T>>>, numHeads: nat, length: nat, channels: nat)
    requires Shape3(x, |x|, length, channels)
    requires numHeads >= 1 && channels % numHeads == 0
    ensures numHeads * (channels / numHeads) == channels
    ensures CombineHeads(SplitHeads(x, numHeads, length, channels), numHeads, length, channels / numHeads) == x
  {
    ExactDivision(channels, numHeads);
    var d := channels / numHeads;
    var y := SplitHeads(x, numHeads, length, channels);
    var z := CombineHeads(y, numHeads, length, d);
    forall b, l | 0 <= b < |x| && 0 <= l < length
      ensures z[b][l] == x[b][l]
    {
      var pieces := seq(numHeads, h requires 0 <= h < numHeads => y[b][h][l]);
      assert pieces == SplitLastDimension(x[b][l], numHeads);
      CombineSplitLast(x[b][l], numHeads);
    }
    forall b | 0 <= b < |x|
      ensures z[b] == x[b]
    {
      assert |z[b]| == |x[b]| == length;
    }
  }

  /** `split_heads(combine_heads(y), n) == y` for `y` with `n` heads. */
  lemma SplitCombineHeads<T>(y: seq<seq<seq<seq<T>>>>, numHeads: nat, length: nat, depth: nat)
    requires Shape4(y, |y|, numHeads, length, depth) && numHeads >= 1
    ensures numHeads * depth % numHeads == 0 && numHeads * depth / numHeads == depth
    ensures SplitHeads(CombineHeads(y, numHeads, length, depth), numHeads, length, numHeads * depth) == y
  {
    DivModUnique(numHeads * depth, numHeads, depth, 0);
    var x := CombineHeads(y, numHeads, length, depth);
    var z := SplitHeads(x, numHeads, length, numHeads * depth);
    forall b, h, l | 0 <= b < |y| && 0 <= h < numHeads && 0 <= l < length
      ensures z[b][h][l] == y[b][h][l]
    {
      var pieces := seq(numHeads, h' requires 0 <= h' < numHeads => y[b][h'][l]);
      SplitCombineLast(pieces, depth);
      assert SplitLastDimension(x[b][l], numHeads) == pieces;
    }
    forall b, h | 0 <= b < |y| && 0 <= h < numHeads
      ensures z[b][h] == y[b][h]
    {
      assert |z[b][h]| == |y[b][h]| == length;
    }
    forall b | 0 <= b < |y|
      ensures z[b] == y[b]
    {
      assert |z[b]| == |y[b]| == numHeads;
    }
  }
}
