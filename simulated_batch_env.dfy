/** `SimulatedBatchEnv`: a batch of `length` environments whose next frame is
    predicted by a learned model. The state is the pair of observation
    buffers `_observ` and `_prev_observ`; the model is a parameter, and its
    prediction (the arg-max frame) is what the environment stores. */
module SimulatedBatchEnv {
  import opened Errors

  /** One observation, flattened to `observ_shape`'s number of entries. */
  type Observation = seq<int>

  function Zeros(n: nat): (r: Observation)
    ensures |r| == n && forall k :: 0 <= k < n ==> r[k] == 0
  {
    seq(n, _ => 0)
  }

  /** Every slot of a buffer of `length` slots holds an observation of `size` entries. */
  predicate Shaped(buf: seq<Observation>, length: nat, size: nat)
  {
    |buf| == length && forall s :: 0 <= s < |buf| ==> |buf[s]| == size
  }

  predicate ValidIndices(indices: seq<int>, length: nat)
  {
    forall k :: 0 <= k < |indices| ==> 0 <= indices[k] < length
  }

  /** `tf.scatter_update(buf, indices, value)`: the writes one index after
      another (every write stores the same frame, so repeated indices agree). */
  function Scatter(buf: seq<Observation>, indices: seq<int>, value: Observation): (r: seq<Observation>)
    requires ValidIndices(indices, |buf|)
    ensures |r| == |buf|
    ensures forall s :: 0 <= s < |buf| ==> r[s] == (if s in indices then value else buf[s])
  {
    if |indices| == 0 then buf
    else
      var front := indices[..|indices| - 1];
      assert forall s :: s in indices <==> s in front || s == indices[|indices| - 1];
      Scatter(buf, front, value)[indices[|indices| - 1] := value]
  }

  /** Resetting the same slots twice is the same as resetting them once. */
  lemma ScatterIdempotent(buf: seq<Observation>, indices: seq<int>, value: Observation)
    requires ValidIndices(indices, |buf|)
    ensures Scatter(Scatter(buf, indices, value), indices, value) == Scatter(buf, indices, value)
  {
  }

  /** A scatter keeps the buffer's shape when the written frame has the slot size. */
  lemma ScatterShaped(buf: seq<Observation>, indices: seq<int>, value: Observation, length: nat, size: nat)
    requires Shaped(buf, length, size) && ValidIndices(indices, length) && |value| == size
    ensures Shaped(Scatter(buf, indices, value), length, size)
  {
  }

  /** What `reset` returns: the scalar 0.0 for an empty index list, and the
      whole observation buffer after a non-empty reset. */
  datatype ResetOutput = NothingReset | Observations(observations: seq<Observation>)

  class Env {
    const length: nat
    const observSize: nat
    /** The decoded `frame1.png` and `frame2.png`. */
    const frame1: Observation
    const frame2: Observation
    const observ: array<Observation>
    const prevObserv: array<Observation>

    predicate Valid()
      reads this, observ, prevObserv
    {
      observ != prevObserv
      && |frame1| == observSize && |frame2| == observSize
      && observ.Length == length && prevObserv.Length == length
      && Shaped(observ[..], length, observSize) && Shaped(prevObserv[..], length, observSize)
    }

    /** Both buffers have shape `(length,) + observ_shape` and start at zero. */
    constructor(length: nat, observSize: nat, frame1: Observation, frame2: Observation)
      requires |frame1| == observSize && |frame2| == observSize
      ensures Valid()
      ensures this.length == length && this.observSize == observSize
      ensures this.frame1 == frame1 && this.frame2 == frame2
      ensures observ[..] == seq(length, _ => Zeros(observSize))
      ensures prevObserv[..] == seq(length, _ => Zeros(observSize))
      ensures fresh(observ) && fresh(prevObserv)
    {
      this.length := length;
      this.observSize := observSize;
      this.frame1 := frame1;
      this.frame2 := frame2;
      observ := new Observation[length](_ => Zeros(observSize));
      prevObserv := new Observation[length](_ => Zeros(observSize));
    }

    /** `__len__`: the number of environments, the first dimension of both buffers. */
    function Len(): (r: nat)
      reads this, observ, prevObserv
      requires Valid()
      ensures r == observ.Length && r == prevObserv.Length
    {
      length
    }

    /** `simulate(action)`: the model predicts the next frame from the
        previous and current observations, both read before any write; then
        the current observation moves to the previous one and the prediction
        becomes the current one. A prediction of the wrong shape fails the
        assignment and changes nothing. */
    method Simulate(action: seq<int>, model: (seq<Observation>, seq<Observation>, seq<int>) -> seq<Observation>)
      returns (r: Result<(seq<int>, seq<bool>)>)
      requires Valid()
      modifies observ, prevObserv
      ensures Valid()
      ensures var prediction := model(old(prevObserv[..]), old(observ[..]), action);
        if Shaped(prediction, length, observSize) then
          && r == Ok((seq(length, _ => 0), seq(length, _ => false)))
          && prevObserv[..] == old(observ[..])
          && observ[..] == prediction
        else
          && r == Err(ValueError)
          && observ[..] == old(observ[..]) && prevObserv[..] == old(prevObserv[..])
    {
      var prediction := model(prevObserv[..], observ[..], action);
      if !Shaped(prediction, length, observSize) {
        return Err(ValueError);
      }
      forall s | 0 <= s < length {
        prevObserv[s] := observ[s];
      }
      forall s | 0 <= s < length {
        observ[s] := prediction[s];
      }
      r := Ok((seq(length, _ => 0), seq(length, _ => false)));
    }

    /** `reset(indices=None)`: the default `None` fails `tf.shape(None)`
        with ValueError and changes nothing; an empty list returns 0.0 and
        changes nothing; an index outside the batch makes the initial
        `tf.gather` fail before any write; otherwise the listed slots get
        `frame2` as the current and `frame1` as the previous observation, and
        every other slot keeps its value. */
    method Reset(indices: Option<seq<int>>) returns (r: Result<ResetOutput>)
      requires Valid()
      modifies observ, prevObserv
      ensures Valid()
      ensures indices.None? ==>
        r == Err(ValueError) && observ[..] == old(observ[..]) && prevObserv[..] == old(prevObserv[..])
      ensures indices.Some? && |indices.value| == 0 ==>
        r == Ok(NothingReset) && observ[..] == old(observ[..]) && prevObserv[..] == old(prevObserv[..])
      ensures indices.Some? && |indices.value| > 0 && !ValidIndices(indices.value, length) ==>
        r == Err(InvalidArgumentError) && observ[..] == old(observ[..]) && prevObserv[..] == old(prevObserv[..])
      ensures indices.Some? && |indices.value| > 0 && ValidIndices(indices.value, length) ==>
        && observ[..] == Scatter(old(observ[..]), indices.value, frame2)
        && prevObserv[..] == Scatter(old(prevObserv[..]), indices.value, frame1)
        && r == Ok(Observations(observ[..]))
    {
      if indices.None? {
        // `tf.shape(None)`
        return Err(ValueError);
      }
      var ix := indices.value;
      if |ix| == 0 {
        return Ok(NothingReset);
      }
      if !ValidIndices(ix, length) {
        return Err(InvalidArgumentError);
      }
      var k := 0;
      while k < |ix|
        invariant 0 <= k <= |ix|
        invariant observ[..] == Scatter(old(observ[..]), ix[..k], frame2)
        invariant prevObserv[..] == Scatter(old(prevObserv[..]), ix[..k], frame1)
      {
        assert ix[..k + 1][..k] == ix[..k];
        observ[ix[k]] := frame2;
        prevObserv[ix[k]] := frame1;
        k := k + 1;
      }
      assert ix[..k] == ix;
      ScatterShaped(old(observ[..]), ix, frame2, length, observSize);
      ScatterShaped(old(prevObserv[..]), ix, frame1, length, observSize);
      r := Ok(Observations(observ[..]));
    }
  }
}
