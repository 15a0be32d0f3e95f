/** The configuration checks and the cache update of `multihead_attention`,
    and its choice of attention kernel. The projections computed by
    `compute_qkv` are inputs; the attention arithmetic is not modelled. */
module MultiheadConfig {
  import opened Errors
  import opened AttentionHeads
  import opened AttentionMasks

  /** `attention_type`: a callable, or one of the named kernels. */
  datatype AttentionType = Callable | Named(name: string)

  /** The kernel `multihead_attention` hands the split heads to. */
  datatype Kernel =
    | CallableKernel
    | DotProduct
    | DotProductRelative(maxRelativePosition: int)
    | LocalMaskRight(blockLength: int)
    | LocalUnmasked(blockLength: int, filterWidth: int)
    | MaskedDilated1d(blockLength: int, blockWidth: int)
    | UnmaskedDilated1d(blockLength: int, blockWidth: int)

  /** The kernel dispatch: the relative kernel rejects a bound that is not
      positive, and an unknown name fails the final `assert`. */
  function SelectKernel(attentionType: AttentionType, maxRelativePosition: Option<int>,
                        blockLength: int, blockWidth: int): (r: Result<Kernel>)
    ensures r.Err? ==> r.error == ValueError || r.error == AssertionError
    ensures r == Err(AssertionError) <==>
      attentionType.Named? && attentionType.name !in
        {"dot_product", "dot_product_relative", "local_mask_right", "local_unmasked",
         "masked_dilated_1d", "unmasked_dilated_1d"}
    ensures r == Err(ValueError) <==>
      attentionType == Named("dot_product_relative") && RelativeAttentionGuard(maxRelativePosition).Err?
  {
    match attentionType
    case Callable => Ok(CallableKernel)
    case Named(name) =>
      if name == "dot_product" then Ok(DotProduct)
      else if name == "dot_product_relative" then
        match RelativeAttentionGuard(maxRelativePosition)
        case Ok(m) => Ok(DotProductRelative(m))
        case Err(e) => Err(e)
      else if name == "local_mask_right" then Ok(LocalMaskRight(blockLength))
      else if name == "local_unmasked" then Ok(LocalUnmasked(blockLength, blockWidth))
      else if name == "masked_dilated_1d" then Ok(MaskedDilated1d(blockLength, blockWidth))
      else if name == "unmasked_dilated_1d" then Ok(UnmaskedDilated1d(blockLength, blockWidth))
      else Err(AssertionError)
  }

  /** The number of positions along the length axis of a `[batch, length, channels]` tensor. */
  function LengthOf(x: seq<seq<seq<int>>>): nat
  {
    if |x| == 0 then 0 else |x[0]|
  }

  /** `tf.concat([old, new], axis=1)`: each batch row grows by the new positions. */
  function ConcatAlongLength(prefix: seq<seq<seq<int>>>, extra: seq<seq<seq<int>>>): (r: seq<seq<seq<int>>>)
    requires |prefix| == |extra|
    ensures |r| == |prefix|
    ensures forall b :: 0 <= b < |r| ==>
      |r[b]| == |prefix[b]| + |extra[b]| && r[b][..|prefix[b]|] == prefix[b] && r[b][|prefix[b]|..] == extra[b]
  {
    seq(|prefix|, b requires 0 <= b < |prefix| => prefix[b] + extra[b])
  }

  lemma ConcatShape(prefix: seq<seq<seq<int>>>, extra: seq<seq<seq<int>>>, batch: nat, oldLength: nat, newLength: nat, depth: nat)
    requires Shape3(prefix, batch, oldLength, depth) && Shape3(extra, batch, newLength, depth)
    ensures Shape3(ConcatAlongLength(prefix, extra), batch, oldLength + newLength, depth)
  {
    var r := ConcatAlongLength(prefix, extra);
    forall b | 0 <= b < batch
      ensures Uniform(r[b], depth)
    {
      assert r[b] == prefix[b] + extra[b];
    }
  }

  /** The keys and values kept for fast decoding: `[batch, positions so far, channels]`. */
  class Cache {
    var k: seq<seq<seq<int>>>
    var v: seq<seq<seq<int>>>

    /** The empty cache of the first decoding step: no positions yet. */
    constructor(batch: nat)
      ensures k == seq(batch, _ => []) && v == seq(batch, _ => [])
    {
      k := seq(batch, _ => []);
      v := seq(batch, _ => []);
    }
  }

  /** What `multihead_attention` hands to the kernel: the split heads of the
      queries, of the keys and of the values (the cached ones when decoding). */
  datatype HeadsInput = HeadsInput(kernel: Kernel,
                                   q: seq<seq<seq<seq<int>>>>,
                                   k: seq<seq<seq<seq<int>>>>,
                                   v: seq<seq<seq<seq<int>>>>)

  /** Whether the guards of `multihead_attention` before the kernel call
      pass: the head count divides both depths and, when decoding with a
      cache, the type is `"dot_product"` and a bias is given. */
  predicate GuardsPass(totalKeyDepth: int, totalValueDepth: int, numHeads: int,
                       attentionType: AttentionType, hasBias: bool, hasCache: bool)
  {
    numHeads != 0 && totalKeyDepth % numHeads == 0 && totalValueDepth % numHeads == 0
    && (hasCache ==> attentionType == Named("dot_product") && hasBias)
  }

  /** `multihead_attention` up to the kernel call. `q`, `k` and `v` are the
      projections `compute_qkv` returns. The checks run in the source's
      order: key depth, value depth, then (after the projections) the cache
      preconditions; only then are the cached keys and values extended.
      After the head split, `key_depth_per_head ** -0.5` raises
      ZeroDivisionError for a key depth of 0, with the cache already
      extended; only then is the kernel chosen. */
  method MultiheadAttention(totalKeyDepth: nat, totalValueDepth: nat, numHeads: nat,
                            attentionType: AttentionType, hasBias: bool, cache: Cache?,
                            q: seq<seq<seq<int>>>, k: seq<seq<seq<int>>>, v: seq<seq<seq<int>>>,
                            maxRelativePosition: Option<int>, blockLength: int, blockWidth: int)
    returns (r: Result<HeadsInput>)
    requires Shape3(q, |q|, LengthOf(q), totalKeyDepth)
    requires Shape3(k, |q|, LengthOf(k), totalKeyDepth) && Shape3(v, |q|, LengthOf(k), totalValueDepth)
    requires cache != null ==>
      Shape3(cache.k, |q|, LengthOf(cache.k), totalKeyDepth) && Shape3(cache.v, |q|, LengthOf(cache.k), totalValueDepth)
    modifies cache
    ensures numHeads == 0 ==> r == Err(ZeroDivisionError)
    ensures numHeads != 0 && totalKeyDepth % numHeads != 0 ==> r == Err(ValueError)
    ensures numHeads != 0 && totalKeyDepth % numHeads == 0 && totalValueDepth % numHeads != 0 ==> r == Err(ValueError)
    ensures numHeads != 0 && totalKeyDepth % numHeads == 0 && totalValueDepth % numHeads == 0 && cache != null ==>
      (attentionType != Named("dot_product") ==> r == Err(NotImplementedError))
      && (attentionType == Named("dot_product") && !hasBias ==> r == Err(ValueError))
    ensures cache != null && GuardsPass(totalKeyDepth, totalValueDepth, numHeads, attentionType, hasBias, true) ==>
      cache.k == ConcatAlongLength(old(cache.k), k) && cache.v == ConcatAlongLength(old(cache.v), v)
    ensures cache != null && !GuardsPass(totalKeyDepth, totalValueDepth, numHeads, attentionType, hasBias, true) ==>
      cache.k == old(cache.k) && cache.v == old(cache.v)
    ensures (GuardsPass(totalKeyDepth, totalValueDepth, numHeads, attentionType, hasBias, cache != null)
             && totalKeyDepth / numHeads == 0) ==> r == Err(ZeroDivisionError)
    ensures (GuardsPass(totalKeyDepth, totalValueDepth, numHeads, attentionType, hasBias, cache != null)
             && totalKeyDepth / numHeads != 0) ==>
      var kernel := SelectKernel(attentionType, maxRelativePosition, blockLength, blockWidth);
      (kernel.Err? ==> r == Err(kernel.error))
      && (kernel.Ok? ==>
            r.Ok? && r.value.kernel == kernel.value
            && r.value.q == SplitHeads(q, numHeads, LengthOf(q), totalKeyDepth)
            && (cache == null ==>
                  r.value.k == SplitHeads(k, numHeads, LengthOf(k), totalKeyDepth)
                  && r.value.v == SplitHeads(v, numHeads, LengthOf(k), totalValueDepth))
            && (cache != null ==>
                  r.value.k == SplitHeads(cache.k, numHeads, LengthOf(old(cache.k)) + LengthOf(k), totalKeyDepth)
                  && r.value.v == SplitHeads(cache.v, numHeads, LengthOf(old(cache.k)) + LengthOf(k), totalValueDepth)))
  {
    if numHeads == 0 {
      // `total_key_depth % 0`
      return Err(ZeroDivisionError);
    }
    if totalKeyDepth % numHeads != 0 {
      return Err(ValueError);
    }
    if totalValueDepth % numHeads != 0 {
      return Err(ValueError);
    }
    var keys, values, keyLength := k, v, LengthOf(k);
    if cache != null {
      if attentionType != Named("dot_product") {
        return Err(NotImplementedError);
      }
      if !hasBias {
        return Err(ValueError);
      }
      keyLength := LengthOf(cache.k) + LengthOf(k);
      ConcatShape(cache.k, k, |q|, LengthOf(cache.k), LengthOf(k), totalKeyDepth);
      ConcatShape(cache.v, v, |q|, LengthOf(cache.k), LengthOf(k), totalValueDepth);
      cache.k := ConcatAlongLength(cache.k, k);
      cache.v := ConcatAlongLength(cache.v, v);
      keys, values := cache.k, cache.v;
    }
    var qHeads := SplitHeads(q, numHeads, LengthOf(q), totalKeyDepth);
    var kHeads := SplitHeads(keys, numHeads, keyLength, totalKeyDepth);
    var vHeads := SplitHeads(values, numHeads, keyLength, totalValueDepth);
    var keyDepthPerHead := totalKeyDepth / numHeads;
    if keyDepthPerHead == 0 {
      // `0 ** -0.5`
      return Err(ZeroDivisionError);
    }
    var kernel := SelectKernel(attentionType, maxRelativePosition, blockLength, blockWidth);
    if kernel.Err? {
      return Err(kernel.error);
    }
    r := Ok(HeadsInput(kernel.value, qHeads, kHeads, vHeads));
  }

  /** With a cache, only `"dot_product"` gets past the guards, so the kernel
      dispatch itself never fails after the cache has been extended (a key
      depth of 0 still fails there, at `key_depth_per_head ** -0.5`). */
  lemma CachedDispatchSucceeds(totalKeyDepth: int, totalValueDepth: int, numHeads: int,
                               attentionType: AttentionType, hasBias: bool,
                               maxRelativePosition: Option<int>, blockLength: int, blockWidth: int)
    requires GuardsPass(totalKeyDepth, totalValueDepth, numHeads, attentionType, hasBias, true)
    ensures SelectKernel(attentionType, maxRelativePosition, blockLength, blockWidth) == Ok(DotProduct)
  {
  }

  /** Decoding step after step: after `n` successful calls the cache holds
      every position fed so far, in order. */
  lemma CacheGrowsInOrder(c0: seq<seq<seq<int>>>, k1: seq<seq<seq<int>>>, k2: seq<seq<seq<int>>>)
    requires |c0| == |k1| == |k2|
    ensures ConcatAlongLength(ConcatAlongLength(c0, k1), k2)
         == seq(|c0|, b requires 0 <= b < |c0| => c0[b] + k1[b] + k2[b])
  {
  }
}
