/** The block and padding logic of `masked_local_attention_1d`: which key
    positions each query position attends to. The attention weights
    themselves (a softmax over those keys) are not modelled; the output for
    a query is represented by the ordered list of key positions it sees. */
module LocalAttention {
  import opened Errors
  import opened AttentionMasks
  import opened PyOps

  /** The positions `lo, lo + 1, ..., hi - 1`. */
  function Range(lo: int, hi: int): (r: seq<int>)
    requires lo <= hi
    ensures |r| == hi - lo && forall k :: 0 <= k < |r| ==> r[k] == lo + k
  {
    seq(hi - lo, k requires 0 <= k < hi - lo => lo + k)
  }

  /** The positions `offset + j` of the zero (unblocked) entries of a bias row, in order. */
  function KeysWhereZero(row: seq<int>, offset: int): (r: seq<int>)
    ensures |r| <= |row|
  {
    if |row| == 0 then []
    else KeysWhereZero(row[..|row| - 1], offset) + (if row[|row| - 1] == 0 then [offset + |row| - 1] else [])
  }

  /** A row that is zero exactly up to column `last` yields the keys
      `offset .. offset + last`. */
  lemma {:induction false} KeysOfPrefixRow(row: seq<int>, offset: int, last: int)
    requires -1 <= last < |row|
    requires forall j :: 0 <= j < |row| ==> (row[j] == 0 <==> j <= last)
    ensures KeysWhereZero(row, offset) == Range(offset, offset + last + 1)
    decreases |row|
  {
    if |row| > 0 {
      var front := row[..|row| - 1];
      if last < |row| - 1 {
        KeysOfPrefixRow(front, offset, last);
      } else {
        KeysOfPrefixRow(front, offset, last - 1);
        assert Range(offset, offset + last) + [offset + last] == Range(offset, offset + last + 1);
      }
    }
  }

  /** The block length actually used: the whole sequence when it is shorter
      than two blocks. */
  function EffectiveBlockLength(length: int, blockLength: int): int
  {
    if length < 2 * blockLength then length else blockLength
  }

  /** The key positions query `p` sees: from the start of the previous block
      (or of the sequence, in the first block) up to `p` itself. */
  function LocalWindow(p: nat, block: nat): (r: seq<int>)
    requires block >= 1
  {
    if p < block then Range(0, p + 1) else Range((p / block - 1) * block, p + 1)
  }

  lemma DivBounds(p: nat, block: nat)
    requires block >= 1
    ensures (p / block) * block <= p < (p / block) * block + block
    ensures p / block >= 0
  {
    assert p == (p / block) * block + p % block;
  }

  /** Every query sees itself and only positions at or before it (so never
      the padding past the end), and at most two blocks' worth of keys. */
  lemma LocalWindowProperties(p: nat, block: nat)
    requires block >= 1
    ensures var w := LocalWindow(p, block);
      && 1 <= |w| <= 2 * block
      && w[|w| - 1] == p
      && (forall k :: 0 <= k < |w| ==> 0 <= w[k] <= p)
      && (p >= block ==> w[0] % block == 0 && w[0] + block <= p)
  {
    DivBounds(p, block);
    if p >= block {
      var q := p / block;
      assert q >= 1;
      assert (q - 1) * block == q * block - block;
      DivModUnique((q - 1) * block, block, q - 1, 0);
    }
  }

  /** `tf.mod(-length, block_length)`: the padding that rounds the length up
      to a multiple of the block. */
  function PaddingSize(length: int, block: int): (r: int)
    requires block >= 1
    ensures 0 <= r < block && (length + r) % block == 0
  {
    var r := (-length) % block;
    var q := (-length) / block;
    assert -length == q * block + r;
    DivModUnique(length + r, block, -q, 0);
    r
  }

  lemma SplitTailIndex(k: nat, block: nat)
    requires block >= 1
    ensures ((block + k) / block - 1) * block == (k / block) * block
    ensures block + k == (k / block) * block + block + k % block
  {
    var q := k / block;
    assert k == q * block + k % block;
    DivModUnique(block + k, block, q + 1, k % block);
    assert (q + 1 - 1) * block == q * block;
  }

  /** The keys a query of the first block sees through the causal mask. */
  lemma FirstBlockKeys(block: nat, p: nat)
    requires p < block
    ensures KeysWhereZero(AttentionBiasLowerTriangle(block)[p], 0) == LocalWindow(p, block)
  {
    var row := AttentionBiasLowerTriangle(block)[p];
    forall j | 0 <= j < block
      ensures row[j] == 0 <==> j <= p
    {
    }
    KeysOfPrefixRow(row, 0, p);
  }

  /** Row `i` of the mask of a later block over the previous block and its
      own: `(1 - good_part) * -1e9` with `good_part` the band of ones that
      reaches one block below the diagonal. */
  function TailMaskRow(block: nat, i: nat): (r: seq<int>)
    requires i < block
    ensures |r| == 2 * block
    ensures forall j :: 0 <= j < 2 * block ==> (r[j] == 0 <==> j <= i + block)
  {
    var goodPart := BandOfOnes(block, 2 * block, -1, block);
    var row := seq(2 * block, j requires 0 <= j < 2 * block => (1 - goodPart[i][j]) * NEG_INF);
    assert forall j :: 0 <= j < 2 * block ==> (goodPart[i][j] == 1 <==> j - i <= block);
    row
  }

  /** The keys query `block + k` of a later block sees. */
  lemma TailBlockKeys(block: nat, k: nat)
    requires block >= 1
    ensures KeysWhereZero(TailMaskRow(block, k % block), (k / block) * block) == LocalWindow(block + k, block)
  {
    SplitTailIndex(k, block);
    KeysOfPrefixRow(TailMaskRow(block, k % block), (k / block) * block, k % block + block);
  }

  /** The padded length holds at least one whole block, and the blocks
      after the first cover the rest of it. */
  lemma BlockCount(length: nat, block: nat)
    requires 1 <= block <= length
    ensures var padded := length + PaddingSize(length, block);
      && padded / block >= 1
      && (padded / block) * block == padded
      && (padded / block - 1) * block == padded - block
  {
    var padded := length + PaddingSize(length, block);
    var n := padded / block;
    assert padded == n * block + padded % block;
    assert (n - 1) * block == n * block - block;
  }

  /** Query `p` of the concatenated first-block and later-block outputs
      sees its local window. */
  lemma OutputWindow(block: nat, firstOutput: seq<seq<int>>, tailOutput: seq<seq<int>>, p: nat)
    requires block >= 1 && |firstOutput| == block
    requires forall i :: 0 <= i < block ==> firstOutput[i] == KeysWhereZero(AttentionBiasLowerTriangle(block)[i], 0)
    requires forall k :: 0 <= k < |tailOutput| ==>
      tailOutput[k] == KeysWhereZero(TailMaskRow(block, k % block), (k / block) * block)
    requires p < block + |tailOutput|
    ensures (firstOutput + tailOutput)[p] == LocalWindow(p, block)
  {
    var output := firstOutput + tailOutput;
    if p < block {
      assert output[p] == firstOutput[p];
      FirstBlockKeys(block, p);
    } else {
      var k := p - block;
      assert output[p] == tailOutput[k];
      TailBlockKeys(block, k);
      assert block + k == p;
    }
  }

  /** `masked_local_attention_1d(q, k, v, block_length)` on a sequence of
      `length` positions: for each query position, the key positions its
      attention is computed over. */
  method MaskedLocalAttention1d(length: nat, blockLength: nat) returns (r: Result<seq<seq<int>>>)
    ensures r.Err? <==> length == 0 || blockLength == 0
    ensures r.Err? ==> r.error == InvalidArgumentError
    ensures r.Ok? ==> (|r.value| == length
      && forall p :: 0 <= p < length ==>
           r.value[p] == LocalWindow(p, EffectiveBlockLength(length, blockLength)))
  {
    // If length < 2 * block_length, use only one block.
    var block := EffectiveBlockLength(length, blockLength);
    if block == 0 {
      // tf.mod(-length, 0)
      return Err(InvalidArgumentError);
    }
    var originalLength := length;
    var paddingSize := PaddingSize(length, block);
    var paddedLength := length + paddingSize;
    var numBlocks := paddedLength / block;
    BlockCount(length, block);

    // The first query block attends causally within itself.
    var firstMask := AttentionBiasLowerTriangle(block);
    var firstOutput := seq(block, i requires 0 <= i < block => KeysWhereZero(firstMask[i], 0));

    // Every later block attends to the previous block and itself, up to the query.
    var mask := seq(block, i requires 0 <= i < block => TailMaskRow(block, i));
    var tailLength := (numBlocks - 1) * block;
    var tailOutput := seq(tailLength, k requires 0 <= k < tailLength =>
      KeysWhereZero(mask[k % block], (k / block) * block));

    var output := firstOutput + tailOutput;
    r := Ok(output[..originalLength]);

    forall p | 0 <= p < originalLength
      ensures output[p] == LocalWindow(p, block)
    {
      OutputWindow(block, firstOutput, tailOutput, p);
    }
  }
}
