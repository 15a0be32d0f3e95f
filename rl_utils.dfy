/** Reward bookkeeping and the frame-stack history buffer of the RL loop:
    the mean reward over finished rollouts, the hinge difference between
    frames, copying prefixed hyperparameters, the evaluation metric names,
    and `BatchStackWrapper`'s sliding window of observations. Environments,
    agents and TensorFlow sessions are outside the model: what they return
    is passed in. */
module RlUtils {
  import opened Errors
  import opened Strings
  import opened PyOps

  // ---------------------------------------------------------------------
  // compute_mean_reward

  /** One recorded step of a rollout. */
  datatype Frame = Frame(reward: int, unclippedReward: int, done: bool)

  /** `sum(getattr(frame, reward_name) for frame in rollout)`: the clipped or the unclipped total. */
  function RolloutReward(rollout: seq<Frame>, clipped: bool): int
  {
    if |rollout| == 0 then 0
    else
      var last := rollout[|rollout| - 1];
      RolloutReward(rollout[..|rollout| - 1], clipped) + (if clipped then last.reward else last.unclippedReward)
  }

  /** The totals of the rollouts whose last frame is done, in order;
      `rollout[-1]` fails on an empty rollout. */
  function FinishedRewards(rollouts: seq<seq<Frame>>, clipped: bool): (r: Result<seq<int>>)
    ensures r.Err? <==> exists k :: 0 <= k < |rollouts| && |rollouts[k]| == 0
    ensures r.Err? ==> r.error == IndexError
    ensures r.Ok? ==> |r.value| <= |rollouts|
  {
    if |rollouts| == 0 then Ok([])
    else
      var earlier := rollouts[..|rollouts| - 1];
      var front := FinishedRewards(earlier, clipped);
      var last := rollouts[|rollouts| - 1];
      if front.Err? then
        assert forall k :: 0 <= k < |earlier| ==> earlier[k] == rollouts[k];
        Err(IndexError)
      else if |last| == 0 then Err(IndexError)
      else if last[|last| - 1].done then Ok(front.value + [RolloutReward(last, clipped)])
      else front
  }

  function Sum(xs: seq<int>): int
  {
    if |xs| == 0 then 0 else Sum(xs[..|xs| - 1]) + xs[|xs| - 1]
  }

  /** `np.mean(rewards)` if there are any, else 0 (exact arithmetic). */
  function Mean(xs: seq<int>): real
  {
    if |xs| == 0 then 0.0 else (Sum(xs) as real) / (|xs| as real)
  }

  lemma {:induction false} FinishedPrefixError(rollouts: seq<seq<Frame>>, i: nat, clipped: bool)
    requires i <= |rollouts| && FinishedRewards(rollouts[..i], clipped).Err?
    ensures FinishedRewards(rollouts, clipped).Err?
  {
    var k :| 0 <= k < i && |rollouts[..i][k]| == 0;
    assert |rollouts[k]| == 0;
  }

  /** `compute_mean_reward(rollouts, clipped)`: the mean total reward of the
      finished rollouts, 0 when none has finished; an empty rollout raises. */
  method ComputeMeanReward(rollouts: seq<seq<Frame>>, clipped: bool) returns (r: Result<real>)
    ensures r.Err? <==> exists k :: 0 <= k < |rollouts| && |rollouts[k]| == 0
    ensures r.Ok? ==> r.value == Mean(FinishedRewards(rollouts, clipped).value)
  {
    var rewards: seq<int> := [];
    var i := 0;
    while i < |rollouts|
      invariant 0 <= i <= |rollouts|
      invariant FinishedRewards(rollouts[..i], clipped) == Ok(rewards)
    {
      var rollout := rollouts[i];
      assert rollouts[..i + 1][..i] == rollouts[..i];
      if |rollout| == 0 {
        FinishedPrefixError(rollouts, i + 1, clipped);
        return Err(IndexError);
      }
      if rollout[|rollout| - 1].done {
        rewards := rewards + [RolloutReward(rollout, clipped)];
      }
      i := i + 1;
    }
    assert rollouts[..i] == rollouts;
    if |rewards| > 0 {
      r := Ok((Sum(rewards) as real) / (|rewards| as real));
    } else {
      r := Ok(0.0);
    }
  }

  lemma {:induction false} SumBounds(xs: seq<int>, lo: int, hi: int)
    requires forall k :: 0 <= k < |xs| ==> lo <= xs[k] <= hi
    ensures |xs| * lo <= Sum(xs) <= |xs| * hi
  {
    if |xs| > 0 {
      SumBounds(xs[..|xs| - 1], lo, hi);
      assert (|xs| - 1) * lo + lo == |xs| * lo;
      assert (|xs| - 1) * hi + hi == |xs| * hi;
    }
  }

  /** The mean lies between the smallest and the largest finished total. */
  lemma MeanBounds(xs: seq<int>, lo: int, hi: int)
    requires |xs| > 0
    requires forall k :: 0 <= k < |xs| ==> lo <= xs[k] <= hi
    ensures lo as real <= Mean(xs) <= hi as real
  {
    SumBounds(xs, lo, hi);
    ProductAsReal(|xs|, lo);
    ProductAsReal(|xs|, hi);
    BoundedQuotient(Sum(xs) as real, |xs| as real, lo as real, hi as real);
  }

  /** A total between `n * lo` and `n * hi` has its mean between `lo` and `hi`. */
  lemma BoundedQuotient(s: real, n: real, lo: real, hi: real)
    requires n > 0.0 && n * lo <= s <= n * hi
    ensures lo <= s / n <= hi
  {
    DivMonotone(n * lo, s, n);
    DivMonotone(s, n * hi, n);
    CancelFactor(lo, n);
    CancelFactor(hi, n);
  }

  lemma ProductAsReal(a: int, b: int)
    ensures (a * b) as real == (a as real) * (b as real)
  {
  }

  lemma DivMonotone(a: real, b: real, c: real)
    requires c > 0.0 && a <= b
    ensures a / c <= b / c
  {
  }

  lemma CancelFactor(x: real, c: real)
    requires c > 0.0
    ensures (c * x) / c == x
  {
  }

  /** Unfinished rollouts do not count: adding one leaves the mean unchanged. */
  lemma UnfinishedIgnored(rollouts: seq<seq<Frame>>, extra: seq<Frame>, clipped: bool)
    requires |extra| > 0 && !extra[|extra| - 1].done
    ensures FinishedRewards(rollouts + [extra], clipped) == FinishedRewards(rollouts, clipped)
  {
    assert (rollouts + [extra])[..|rollouts|] == rollouts;
  }

  // ---------------------------------------------------------------------
  // absolute_hinge_difference

  /** One entry: `max(|a - b| - min_diff, 0)` cast to `uint8`, which wraps modulo 256. */
  function HingeEntry(a: int, b: int, minDiff: int): (r: int)
    ensures 0 <= r < 256
    ensures Abs(a - b) <= minDiff ==> r == 0
    ensures minDiff <= Abs(a - b) < minDiff + 256 ==> r == Abs(a - b) - minDiff
  {
    var d := Abs(a - b) - minDiff;
    (if d > 0 then d else 0) % 256
  }

  /** The element of a one-dimensional array used at position `k` after
      broadcasting: a single-element array is repeated. */
  function At(a: seq<int>, k: nat): int
    requires |a| == 1 || k < |a|
  {
    if |a| == 1 then a[0] else a[k]
  }

  /** `absolute_hinge_difference(arr1, arr2, min_diff)` on one-dimensional
      arrays with the default `uint8` result; shapes that do not broadcast
      raise. */
  function AbsoluteHingeDifference(a: seq<int>, b: seq<int>, minDiff: int): (r: Result<seq<int>>)
    ensures r.Err? <==> |a| != |b| && |a| != 1 && |b| != 1
    ensures r.Err? ==> r.error == ValueError
    ensures r.Ok? ==>
      |r.value| == (if |a| == 1 then |b| else |a|)
      && forall k :: 0 <= k < |r.value| ==>
           0 <= r.value[k] < 256
           && (Abs(At(a, k) - At(b, k)) <= minDiff ==> r.value[k] == 0)
           && (minDiff <= Abs(At(a, k) - At(b, k)) < minDiff + 256 ==> r.value[k] == Abs(At(a, k) - At(b, k)) - minDiff)
  {
    if |a| == |b| || |a| == 1 || |b| == 1 then
      var n := if |a| == 1 then |b| else |a|;
      Ok(seq(n, k requires 0 <= k < n => HingeEntry(At(a, k), At(b, k), minDiff)))
    else Err(ValueError)
  }

  /** The hinge difference does not depend on the order of its arguments. */
  lemma HingeSymmetric(a: seq<int>, b: seq<int>, minDiff: int)
    ensures AbsoluteHingeDifference(a, b, minDiff) == AbsoluteHingeDifference(b, a, minDiff)
  {
    var r1, r2 := AbsoluteHingeDifference(a, b, minDiff), AbsoluteHingeDifference(b, a, minDiff);
    if r1.Ok? {
      assert |r1.value| == |r2.value|;
      forall k | 0 <= k < |r1.value|
        ensures r1.value[k] == r2.value[k]
      {
        HingeEntrySymmetric(At(a, k), At(b, k), minDiff);
      }
      assert r1.value == r2.value;
    }
  }

  lemma HingeEntrySymmetric(x: int, y: int, minDiff: int)
    ensures HingeEntry(x, y, minDiff) == HingeEntry(y, x, minDiff)
  {
    assert Abs(x - y) == Abs(y - x);
  }

  // ---------------------------------------------------------------------
  // update_hparams_from_hparams

  /** A set of named hyperparameters; `set_hparam` only overwrites existing names. */
  class HParams<V> {
    var values: map<string, V>

    constructor(values: map<string, V>)
      ensures this.values == values
    {
      this.values := values;
    }

    /** `set_hparam(name, value)`: an unknown name raises `KeyError`. */
    method SetHparam(name: string, value: V) returns (r: Result<()>)
      modifies this
      ensures r.Err? <==> name !in old(values)
      ensures r.Err? ==> r.error == KeyError && values == old(values)
      ensures r.Ok? ==> values == old(values)[name := value]
    {
      if name !in values {
        return Err(KeyError);
      }
      values := values[name := value];
      r := Ok(());
    }
  }

  predicate StartsWith(s: string, prefix: string)
  {
    |prefix| <= |s| && s[..|prefix|] == prefix
  }

  /** The target's values after the loop over the first `n` source entries,
      and the error that stopped it, if any (earlier writes stay done). */
  function CopyPrefixed<V>(target: map<string, V>, source: seq<(string, V)>, prefix: string, n: nat): (map<string, V>, Option<Error>)
    requires n <= |source|
  {
    if n == 0 then (target, None)
    else
      var (m, e) := CopyPrefixed(target, source, prefix, n - 1);
      var (name, value) := source[n - 1];
      if e.Some? then (m, e)
      else if !StartsWith(name, prefix) then (m, None)
      else if name[|prefix|..] !in m then (m, Some(KeyError))
      else (m[name[|prefix|..] := value], None)
  }

  /** `update_hparams_from_hparams(target, source, prefix)`: every source
      entry whose name starts with `prefix` is copied under the name with
      the prefix removed. `source` lists the source's `values()` in order. */
  method UpdateHparamsFromHparams<V>(target: HParams<V>, source: seq<(string, V)>, prefix: string) returns (r: Result<()>)
    modifies target
    ensures target.values == CopyPrefixed(old(target.values), source, prefix, |source|).0
    ensures r.Err? <==> CopyPrefixed(old(target.values), source, prefix, |source|).1.Some?
    ensures r.Err? ==> r.error == KeyError
  {
    var i := 0;
    while i < |source|
      invariant 0 <= i <= |source|
      invariant CopyPrefixed(old(target.values), source, prefix, i) == (target.values, None)
    {
      var (name, value) := source[i];
      if StartsWith(name, prefix) {
        var written := target.SetHparam(name[|prefix|..], value);
        if written.Err? {
          CopyErrorStays(old(target.values), source, prefix, i + 1, |source|);
          return Err(KeyError);
        }
      }
      i := i + 1;
    }
    r := Ok(());
  }

  lemma {:induction false} CopyErrorStays<V>(target: map<string, V>, source: seq<(string, V)>, prefix: string, i: nat, n: nat)
    requires i <= n <= |source|
    requires CopyPrefixed(target, source, prefix, i).1.Some?
    ensures CopyPrefixed(target, source, prefix, n) == CopyPrefixed(target, source, prefix, i)
    decreases n - i
  {
    if i < n {
      CopyErrorStays(target, source, prefix, i + 1, n);
    }
  }

  /** Names in the source are distinct, as in a dictionary. */
  predicate DistinctNames<V>(source: seq<(string, V)>)
  {
    forall j, k :: 0 <= j < k < |source| ==> source[j].0 != source[k].0
  }

  /** Removing the same prefix from two different names keeps them different. */
  lemma StripInjective(a: string, b: string, prefix: string)
    requires StartsWith(a, prefix) && StartsWith(b, prefix) && a[|prefix|..] == b[|prefix|..]
    ensures a == b
  {
    assert a == a[..|prefix|] + a[|prefix|..];
    assert b == b[..|prefix|] + b[|prefix|..];
  }

  /** Without an error, the prefixed entries are copied under their stripped
      names, no name is added, and every other entry keeps its value. */
  lemma {:induction false} CopyPrefixedSpec<V>(target: map<string, V>, source: seq<(string, V)>, prefix: string, n: nat)
    requires n <= |source| && DistinctNames(source)
    requires CopyPrefixed(target, source, prefix, n).1.None?
    ensures var m := CopyPrefixed(target, source, prefix, n).0;
      && m.Keys == target.Keys
      && (forall j :: 0 <= j < n && StartsWith(source[j].0, prefix) ==> source[j].0[|prefix|..] in m && m[source[j].0[|prefix|..]] == source[j].1)
      && (forall key :: key in target && (forall j :: 0 <= j < n ==> source[j].0 != prefix + key) ==> m[key] == target[key])
  {
    if n > 0 {
      CopyPrefixedSpec(target, source, prefix, n - 1);
      var m0 := CopyPrefixed(target, source, prefix, n - 1).0;
      var m := CopyPrefixed(target, source, prefix, n).0;
      var (name, value) := source[n - 1];
      if StartsWith(name, prefix) {
        var stripped := name[|prefix|..];
        assert m == m0[stripped := value];
        forall j | 0 <= j < n - 1 && StartsWith(source[j].0, prefix)
          ensures source[j].0[|prefix|..] != stripped
        {
          if source[j].0[|prefix|..] == stripped {
            StripInjective(source[j].0, name, prefix);
          }
        }
        forall key | key in target && (forall j :: 0 <= j < n ==> source[j].0 != prefix + key)
          ensures m[key] == target[key]
        {
          assert name != prefix + key;
          assert name == name[..|prefix|] + stripped;
        }
      }
    }
  }

  // ---------------------------------------------------------------------
  // get_metric_name and the metric keys of evaluate_all_configs

  /** `get_metric_name(sampling_temp, max_num_noops, clipped)`; the
      temperature is given as the text Python prints for it. */
  function GetMetricName(samplingTemp: string, maxNumNoops: int, clipped: bool): (r: string)
    ensures |MetricPrefix| < |r| && r[..|MetricPrefix|] == MetricPrefix
    ensures var tail := "_" + ClipName(clipped); |tail| < |r| && r[|r| - |tail|..] == tail
  {
    ConcatEnds(MetricPrefix, samplingTemp, NoopsInfix, IntToString(maxNumNoops), "_" + ClipName(clipped));
    MetricPrefix + (samplingTemp + (NoopsInfix + (IntToString(maxNumNoops) + ("_" + ClipName(clipped)))))
  }

  /** A concatenation begins with its first part and ends with its last. */
  lemma ConcatEnds(a: string, b: string, c: string, d: string, e: string)
    ensures var s := a + (b + (c + (d + e)));
      |a| <= |s| && s[..|a|] == a && |e| <= |s| && s[|s| - |e|..] == e
  {
    var s := a + (b + (c + (d + e)));
    assert s == (a + b + c + d) + e;
  }

  const MetricPrefix: string := "mean_reward/eval/sampling_temp_"
  const NoopsInfix: string := "_max_noops_"

  function ClipName(clipped: bool): string
  {
    if clipped then "clipped" else "unclipped"
  }

  /** Two strings without `_`, each followed by a rest starting with `_`,
      split the same text at the same place. */
  lemma SplitAtSeparator(a1: string, r1: string, a2: string, r2: string)
    requires '_' !in a1 && '_' !in a2
    requires |r1| > 0 && r1[0] == '_' && |r2| > 0 && r2[0] == '_'
    requires a1 + r1 == a2 + r2
    ensures a1 == a2 && r1 == r2
  {
    var s := a1 + r1;
    assert a1 == s[..|a1|] && a2 == s[..|a2|];
    assert r1 == s[|a1|..] && r2 == s[|a2|..];
  }

  /** Different evaluation configurations get different metric names (a
      printed float never contains `_`). */
  lemma MetricNameInjective(t1: string, n1: int, c1: bool, t2: string, n2: int, c2: bool)
    requires '_' !in t1 && '_' !in t2
    requires GetMetricName(t1, n1, c1) == GetMetricName(t2, n2, c2)
    ensures t1 == t2 && n1 == n2 && c1 == c2
  {
    var s1, s2 := IntToString(n1), IntToString(n2);
    var e1, e2 := "_" + ClipName(c1), "_" + ClipName(c2);
    var tail1, tail2 := NoopsInfix + (s1 + e1), NoopsInfix + (s2 + e2);
    assert t1 + tail1 == (MetricPrefix + (t1 + tail1))[|MetricPrefix|..];
    assert t2 + tail2 == (MetricPrefix + (t2 + tail2))[|MetricPrefix|..];
    SplitAtSeparator(t1, tail1, t2, tail2);
    assert s1 + e1 == tail1[|NoopsInfix|..] && s2 + e2 == tail2[|NoopsInfix|..];
    SplitAtSeparator(s1, e1, s2, e2);
    IntToStringInjective(n1, n2);
  }

  /** How the metric of a (temperature, no-ops, clipped) configuration is
      named; `GetMetricName` is the naming `evaluate_all_configs` uses. */
  type Naming = (string, int, bool) -> string

  /** The two metrics of one (temperature, no-ops) configuration. */
  function AddConfig(name: Naming, metrics: map<string, real>, temp: string, noops: int,
                     scores: (string, int) -> (real, real)): map<string, real>
  {
    metrics[name(temp, noops, true) := scores(temp, noops).0][name(temp, noops, false) := scores(temp, noops).1]
  }

  /** The metrics of the first `n` temperatures, with `max_num_noops` and then 0 no-ops each. */
  function MetricsFor(name: Naming, temps: seq<string>, n: nat, maxNumNoops: int,
                      scores: (string, int) -> (real, real)): map<string, real>
    requires n <= |temps|
  {
    if n == 0 then map[]
    else AddConfig(name, AddConfig(name, MetricsFor(name, temps, n - 1, maxNumNoops, scores), temps[n - 1], maxNumNoops, scores),
                   temps[n - 1], 0, scores)
  }

  /** `evaluate_all_configs`. `scores(temp, noops)` stands for
      `evaluate_single_config`: the clipped and unclipped mean rewards of
      that configuration. */
  method EvaluateAllConfigs(temps: seq<string>, maxNumNoops: int, scores: (string, int) -> (real, real)) returns (metrics: map<string, real>)
    ensures metrics == MetricsFor(GetMetricName, temps, |temps|, maxNumNoops, scores)
  {
    metrics := CollectMetrics(GetMetricName, temps, maxNumNoops, scores);
  }

  /** The nested loops of `evaluate_all_configs`, for metric keys made by `name`. */
  method CollectMetrics(name: Naming, temps: seq<string>, maxNumNoops: int, scores: (string, int) -> (real, real))
    returns (metrics: map<string, real>)
    ensures metrics == MetricsFor(name, temps, |temps|, maxNumNoops, scores)
  {
    metrics := map[];
    var i := 0;
    while i < |temps|
      invariant 0 <= i <= |temps|
      invariant metrics == MetricsFor(name, temps, i, maxNumNoops, scores)
    {
      var noopsOptions := [maxNumNoops, 0];
      var j := 0;
      var before := metrics;
      while j < 2
        invariant 0 <= j <= 2
        invariant j == 0 ==> metrics == before
        invariant j == 1 ==> metrics == AddConfig(name, before, temps[i], maxNumNoops, scores)
        invariant j == 2 ==> metrics == AddConfig(name, AddConfig(name, before, temps[i], maxNumNoops, scores),
                                                  temps[i], 0, scores)
      {
        var noops := noopsOptions[j];
        var score := scores(temps[i], noops);
        metrics := metrics[name(temps[i], noops, true) := score.0][name(temps[i], noops, false) := score.1];
        j := j + 1;
      }
      i := i + 1;
    }
  }

  /** A key `evaluate_all_configs` writes for one of the first `n` temperatures. */
  ghost predicate IsMetricKey(name: Naming, key: string, temps: seq<string>, n: nat, maxNumNoops: int)
    requires n <= |temps|
  {
    exists k, noops, clipped :: 0 <= k < n && (noops == maxNumNoops || noops == 0)
                               && key == name(temps[k], noops, clipped)
  }

  /** The metrics hold one key per (temperature, no-ops in {max_num_noops,
      0}, clipped or not), and no other key. */
  lemma {:induction false} MetricsForKeys(name: Naming, temps: seq<string>, n: nat, maxNumNoops: int,
                                          scores: (string, int) -> (real, real))
    requires n <= |temps|
    ensures forall key :: key in MetricsFor(name, temps, n, maxNumNoops, scores) <==> IsMetricKey(name, key, temps, n, maxNumNoops)
  {
    if n > 0 {
      MetricsForKeys(name, temps, n - 1, maxNumNoops, scores);
      forall key
        ensures key in MetricsFor(name, temps, n, maxNumNoops, scores) <==> IsMetricKey(name, key, temps, n, maxNumNoops)
      {
        MetricKeyStep(name, temps, n, maxNumNoops, scores, key);
      }
    }
  }

  lemma MetricKeyStep(name: Naming, temps: seq<string>, n: nat, maxNumNoops: int,
                      scores: (string, int) -> (real, real), key: string)
    requires 0 < n <= |temps|
    requires key in MetricsFor(name, temps, n - 1, maxNumNoops, scores) <==> IsMetricKey(name, key, temps, n - 1, maxNumNoops)
    ensures key in MetricsFor(name, temps, n, maxNumNoops, scores) <==> IsMetricKey(name, key, temps, n, maxNumNoops)
  {
    var m0 := MetricsFor(name, temps, n - 1, maxNumNoops, scores);
    var t := temps[n - 1];
    var m1 := AddConfig(name, m0, t, maxNumNoops, scores);
    AddConfigKeys(name, m0, t, maxNumNoops, scores, key);
    AddConfigKeys(name, m1, t, 0, scores, key);
    if key in m0 {
      var k, noops, clipped :| 0 <= k < n - 1 && (noops == maxNumNoops || noops == 0)
                               && key == name(temps[k], noops, clipped);
      assert IsMetricKey(name, key, temps, n, maxNumNoops);
    } else if IsMetricKey(name, key, temps, n, maxNumNoops) {
      var k, noops, clipped :| 0 <= k < n && (noops == maxNumNoops || noops == 0)
                               && key == name(temps[k], noops, clipped);
    } else {
      NotWritten(name, temps, n, maxNumNoops, key, true);
      NotWritten(name, temps, n, maxNumNoops, key, false);
    }
  }

  lemma AddConfigKeys(name: Naming, m: map<string, real>, t: string, noops: int,
                      scores: (string, int) -> (real, real), key: string)
    ensures key in AddConfig(name, m, t, noops, scores) <==>
      key in m || key == name(t, noops, true) || key == name(t, noops, false)
  {
  }

  lemma NotWritten(name: Naming, temps: seq<string>, n: nat, maxNumNoops: int, key: string, clipped: bool)
    requires 0 < n <= |temps| && !IsMetricKey(name, key, temps, n, maxNumNoops)
    ensures key != name(temps[n - 1], maxNumNoops, clipped) && key != name(temps[n - 1], 0, clipped)
  {
    if key == name(temps[n - 1], maxNumNoops, clipped) {
      assert IsMetricKey(name, key, temps, n, maxNumNoops);
    }
    if key == name(temps[n - 1], 0, clipped) {
      assert IsMetricKey(name, key, temps, n, maxNumNoops);
    }
  }

  /** The score stored under the metric name of one configuration. */
  function Score(scores: (string, int) -> (real, real), temp: string, noops: int, clipped: bool): real
  {
    if clipped then scores(temp, noops).0 else scores(temp, noops).1
  }

  /** `key` holds `want` in `m`. */
  predicate Holds(m: map<string, real>, key: string, want: real)
  {
    key in m && m[key] == want
  }

  /** The naming gives different configurations of these temperatures different names. */
  ghost predicate Distinguishes(name: Naming, temps: seq<string>)
  {
    forall k1, n1, c1, k2, n2, c2 ::
      0 <= k1 < |temps| && 0 <= k2 < |temps| && name(temps[k1], n1, c1) == name(temps[k2], n2, c2)
      ==> temps[k1] == temps[k2] && n1 == n2 && c1 == c2
  }

  /** `get_metric_name` tells apart the configurations of any temperatures
      printed without `_`. */
  lemma MetricNameDistinguishes(temps: seq<string>)
    requires forall j :: 0 <= j < |temps| ==> '_' !in temps[j]
    ensures Distinguishes(GetMetricName, temps)
  {
    forall k1, n1, c1, k2, n2, c2 |
      0 <= k1 < |temps| && 0 <= k2 < |temps| && GetMetricName(temps[k1], n1, c1) == GetMetricName(temps[k2], n2, c2)
      ensures temps[k1] == temps[k2] && n1 == n2 && c1 == c2
    {
      MetricNameInjective(temps[k1], n1, c1, temps[k2], n2, c2);
    }
  }

  /** A configuration's two names are written with its two scores. */
  lemma AddConfigWrites(name: Naming, m: map<string, real>, t: string, noops: int,
                        scores: (string, int) -> (real, real), clipped: bool)
    requires name(t, noops, true) != name(t, noops, false)
    ensures Holds(AddConfig(name, m, t, noops, scores), name(t, noops, clipped), Score(scores, t, noops, clipped))
  {
  }

  /** A stored score survives a configuration whose names either differ
      from the key or carry the same score. */
  lemma AddConfigKeeps(name: Naming, m: map<string, real>, t: string, noops: int,
                       scores: (string, int) -> (real, real), key: string, want: real)
    requires Holds(m, key, want)
    requires forall c :: key == name(t, noops, c) ==> Score(scores, t, noops, c) == want
    ensures Holds(AddConfig(name, m, t, noops, scores), key, want)
  {
    assert key == name(t, noops, true) ==> Score(scores, t, noops, true) == want;
    assert key == name(t, noops, false) ==> Score(scores, t, noops, false) == want;
  }

  /** No other configuration of these temperatures shares the name of
      configuration (`temps[k]`, `noops`, `clipped`). */
  ghost predicate NamedOnlyBy(name: Naming, temps: seq<string>, k: nat, noops: int, clipped: bool)
    requires k < |temps|
  {
    forall j, noops', c :: 0 <= j < |temps| && name(temps[j], noops', c) == name(temps[k], noops, clipped)
      ==> temps[j] == temps[k] && noops' == noops && c == clipped
  }

  lemma {:induction false} StoredScore(name: Naming, temps: seq<string>, n: nat, maxNumNoops: int,
                                       scores: (string, int) -> (real, real), k: nat, noops: int, clipped: bool)
    requires k < n <= |temps| && (noops == maxNumNoops || noops == 0)
    requires NamedOnlyBy(name, temps, k, noops, clipped)
    ensures Holds(MetricsFor(name, temps, n, maxNumNoops, scores), name(temps[k], noops, clipped),
                  Score(scores, temps[k], noops, clipped))
  {
    var key := name(temps[k], noops, clipped);
    var want := Score(scores, temps[k], noops, clipped);
    var t := temps[n - 1];
    var m0 := MetricsFor(name, temps, n - 1, maxNumNoops, scores);
    var m1 := AddConfig(name, m0, t, maxNumNoops, scores);
    assert MetricsFor(name, temps, n, maxNumNoops, scores) == AddConfig(name, m1, t, 0, scores);
    if k == n - 1 && noops == 0 {
      AddConfigWrites(name, m1, t, 0, scores, clipped);
    } else {
      if k == n - 1 {
        AddConfigWrites(name, m0, t, maxNumNoops, scores, clipped);
      } else {
        StoredScore(name, temps, n - 1, maxNumNoops, scores, k, noops, clipped);
        AddConfigKeeps(name, m0, t, maxNumNoops, scores, key, want);
      }
      AddConfigKeeps(name, m1, t, 0, scores, key, want);
    }
  }

  /** Each configuration's key holds that configuration's score, under any
      naming that tells the configurations apart (`get_metric_name` does,
      by `MetricNameDistinguishes`). */
  lemma MetricsForValues(name: Naming, temps: seq<string>, n: nat, maxNumNoops: int,
                         scores: (string, int) -> (real, real), k: nat, noops: int, clipped: bool)
    requires k < n <= |temps| && (noops == maxNumNoops || noops == 0)
    requires Distinguishes(name, temps)
    ensures name(temps[k], noops, clipped) in MetricsFor(name, temps, n, maxNumNoops, scores)
    ensures MetricsFor(name, temps, n, maxNumNoops, scores)[name(temps[k], noops, clipped)]
         == (if clipped then scores(temps[k], noops).0 else scores(temps[k], noops).1)
  {
    StoredScore(name, temps, n, maxNumNoops, scores, k, noops, clipped);
  }

  // ---------------------------------------------------------------------
  // BatchStackWrapper

  type Observation = seq<int>

  function Zeros(n: nat): Observation
  {
    seq(n, _ => 0)
  }

  function Repeat(o: Observation, n: nat): (r: seq<Observation>)
    ensures |r| == n && forall k :: 0 <= k < n ==> r[k] == o
  {
    seq(n, _ => o)
  }

  /** One slot's stack after a step: the oldest observation drops out and the new one enters last. */
  function Push(stack: seq<Observation>, o: Observation): seq<Observation>
    requires |stack| >= 1
  {
    stack[1..] + [o]
  }

  /** A slot's stack after a sequence of steps. */
  function PushAll(stack: seq<Observation>, os: seq<Observation>): (r: seq<Observation>)
    requires |stack| >= 1
    ensures |r| == |stack|
  {
    if |os| == 0 then stack else Push(PushAll(stack, os[..|os| - 1]), os[|os| - 1])
  }

  /** The stack is a sliding window: after any steps it holds the last
      `stack_size` observations of everything it has seen. */
  lemma {:induction false} SlidingWindow(stack: seq<Observation>, os: seq<Observation>)
    requires |stack| >= 1
    ensures PushAll(stack, os) == (stack + os)[|os|..]
  {
    if |os| > 0 {
      var front := os[..|os| - 1];
      SlidingWindow(stack, front);
      assert (stack + front)[|front|..][1..] + [os[|os| - 1]] == (stack + os)[|os|..];
    }
  }

  /** After a reset to `o` and at least `stack_size` steps, the stack holds
      exactly the last `stack_size` observations. */
  lemma WindowAfterReset(o: Observation, stackSize: nat, os: seq<Observation>)
    requires 1 <= stackSize <= |os|
    ensures PushAll(Repeat(o, stackSize), os) == os[|os| - stackSize..]
  {
    SlidingWindow(Repeat(o, stackSize), os);
    assert (Repeat(o, stackSize) + os)[|os|..] == os[|os| - stackSize..];
  }

  /** The buffer as a value: slot by slot, each slot's stack of observations. */
  function Stacks(buffer: seq<seq<Observation>>, indices: seq<int>, observations: seq<Observation>, stackSize: nat, n: nat): (seq<seq<Observation>>, Option<Error>)
    requires n <= |indices| && n <= |observations|
    ensures |Stacks(buffer, indices, observations, stackSize, n).0| == |buffer|
  {
    if n == 0 then (buffer, None)
    else
      var (b, e) := Stacks(buffer, indices, observations, stackSize, n - 1);
      var index := indices[n - 1];
      if e.Some? then (b, e)
      else if !(-|b| <= index < |b|) then (b, Some(IndexError))
      else
        var slot := if index < 0 then index + |b| else index;
        (b[slot := Repeat(observations[n - 1], stackSize)], None)
  }

  /** One more index of an error-free reset: an index in range refills its
      slot, one out of range is an `IndexError`. */
  lemma StacksStep(buffer: seq<seq<Observation>>, indices: seq<int>, observations: seq<Observation>,
                   stackSize: nat, i: nat, b: seq<seq<Observation>>)
    requires i < |indices| && i < |observations|
    requires Stacks(buffer, indices, observations, stackSize, i) == (b, None)
    ensures -|b| <= indices[i] < |b| ==>
      Stacks(buffer, indices, observations, stackSize, i + 1)
        == (b[(if indices[i] < 0 then indices[i] + |b| else indices[i]) := Repeat(observations[i], stackSize)], None)
    ensures !(-|b| <= indices[i] < |b|) ==>
      Stacks(buffer, indices, observations, stackSize, i + 1) == (b, Some(IndexError))
  {
  }

  /** After an error-free reset, a slot named in `indices` holds copies of
      its last observation and every other slot is unchanged. */
  lemma {:induction false} ResetSlots(buffer: seq<seq<Observation>>, indices: seq<int>, observations: seq<Observation>,
                                      stackSize: nat, n: nat, s: nat)
    requires n <= |indices| && n <= |observations| && s < |buffer|
    requires Stacks(buffer, indices, observations, stackSize, n).1.None?
    ensures var b := Stacks(buffer, indices, observations, stackSize, n).0;
      && ((forall k :: 0 <= k < n ==> indices[k] != s && indices[k] != s - |buffer|) ==> b[s] == buffer[s])
      && (forall k :: 0 <= k < n && (indices[k] == s || indices[k] == s - |buffer|)
            && (forall k' :: k < k' < n ==> indices[k'] != s && indices[k'] != s - |buffer|)
            ==> b[s] == Repeat(observations[k], stackSize))
  {
    if n > 0 {
      ResetSlots(buffer, indices, observations, stackSize, n - 1, s);
    }
  }

  /** A stack whose entries are the old ones moved one place towards the
      front, with `o` last, is the old stack pushed with `o`. */
  lemma PushedSlot(before: seq<Observation>, after: seq<Observation>, o: Observation)
    requires |before| == |after| >= 1
    requires forall p :: 0 <= p < |after| - 1 ==> after[p] == before[p + 1]
    requires after[|after| - 1] == o
    ensures after == Push(before, o)
  {
  }

  /** Every slot of `after` is the same slot of `before` with its observation pushed. */
  lemma PushedSlots(before: seq<seq<Observation>>, after: seq<seq<Observation>>, observations: seq<Observation>)
    requires |before| == |after| == |observations|
    requires forall s :: 0 <= s < |after| ==> |before[s]| == |after[s]| >= 1
    requires forall s, p :: 0 <= s < |after| && 0 <= p < |after[s]| - 1 ==> after[s][p] == before[s][p + 1]
    requires forall s :: 0 <= s < |after| ==> after[s][|after[s]| - 1] == observations[s]
    ensures forall s :: 0 <= s < |after| ==> after[s] == Push(before[s], observations[s])
  {
    forall s | 0 <= s < |after|
      ensures after[s] == Push(before[s], observations[s])
    {
      PushedSlot(before[s], after[s], observations[s]);
    }
  }

  /** `a[:, -1] = column` for a non-empty second axis. */
  method SetLastColumn(a: array2<Observation>, column: seq<Observation>)
    requires a.Length1 >= 1 && |column| == a.Length0
    modifies a
    ensures forall s, p :: 0 <= s < a.Length0 && 0 <= p < a.Length1 ==>
      a[s, p] == if p == a.Length1 - 1 then column[s] else old(a[s, p])
  {
    forall s | 0 <= s < a.Length0 {
      a[s, a.Length1 - 1] := column[s];
    }
  }

  /** `np.roll(a, shift=-1, axis=1)`: a new array with each row rolled one
      place to the left, its first entry moving to the end. */
  method RollLeft(a: array2<Observation>) returns (b: array2<Observation>)
    ensures fresh(b) && b.Length0 == a.Length0 && b.Length1 == a.Length1
    ensures forall s, p :: 0 <= s < a.Length0 && 0 <= p < a.Length1 ==>
      b[s, p] == a[s, if p + 1 < a.Length1 then p + 1 else 0]
  {
    b := new Observation[a.Length0, a.Length1];
    forall s, p | 0 <= s < a.Length0 && 0 <= p < a.Length1 {
      b[s, p] := a[s, if p + 1 < a.Length1 then p + 1 else 0];
    }
  }

  /** `BatchStackWrapper`: for each of `batch_size` slots, the last
      `stack_size` observations, oldest first. */
  class BatchStackWrapper {
    const batchSize: nat
    const stackSize: nat
    var history: array2<Observation>

    /** A fresh buffer of zeros, shaped (batch_size, stack_size, observation). */
    constructor(batchSize: nat, stackSize: nat, observationSize: nat)
      ensures this.batchSize == batchSize && this.stackSize == stackSize
      ensures fresh(history) && history.Length0 == batchSize && history.Length1 == stackSize
      ensures forall s, p :: 0 <= s < batchSize && 0 <= p < stackSize ==> history[s, p] == Zeros(observationSize)
    {
      this.batchSize := batchSize;
      this.stackSize := stackSize;
      history := new Observation[batchSize, stackSize]((s, p) => Zeros(observationSize));
    }

    predicate Valid()
      reads this
    {
      history.Length0 == batchSize && history.Length1 == stackSize
    }

    /** The buffer's contents, slot by slot. */
    function Buffer(): (r: seq<seq<Observation>>)
      reads this, history
      requires Valid()
      ensures |r| == batchSize && forall s :: 0 <= s < batchSize ==> |r[s]| == stackSize
    {
      var h := history;
      seq(h.Length0, s requires 0 <= s < h.Length0 reads h =>
        seq(h.Length1, p requires 0 <= p < h.Length1 reads h => h[s, p]))
    }

    /** Entry `p` of slot `s` of the buffer is `history[s, p]`. */
    lemma BufferEntries()
      requires Valid()
      ensures forall s, p :: 0 <= s < batchSize && 0 <= p < stackSize ==> Buffer()[s][p] == history[s, p]
    {
    }

    /** `reset(indices)`: `observations` are what the environment's reset
        returned. Each listed slot is filled with copies of its observation,
        no index list means every slot, and a bad index raises after the
        earlier slots were written. */
    method Reset(indices: Option<seq<int>>, observations: seq<Observation>) returns (r: Result<array2<Observation>>)
      requires Valid()
      modifies history
      ensures Valid()
      ensures var all := match indices case Some(ix) => ix case None => seq(batchSize, s requires 0 <= s < batchSize => s);
        var n := if |all| <= |observations| then |all| else |observations|;
        var (b, e) := Stacks(old(Buffer()), all, observations, stackSize, n);
        Buffer() == b && (r.Err? <==> e.Some?) && (r.Err? ==> r.error == IndexError) && (r.Ok? ==> r.value == history)
    {
      var all := match indices case Some(ix) => ix case None => seq(batchSize, s requires 0 <= s < batchSize => s);
      var n := if |all| <= |observations| then |all| else |observations|;
      ghost var start := Buffer();
      var i := 0;
      while i < n
        invariant 0 <= i <= n && Valid()
        invariant Stacks(start, all, observations, stackSize, i) == (Buffer(), None)
      {
        var index := all[i];
        StacksStep(start, all, observations, stackSize, i, Buffer());
        if !(-(batchSize as int) <= index < batchSize) {
          StacksErrorStays(start, all, observations, stackSize, i + 1, n);
          return Err(IndexError);
        }
        var slot := if index < 0 then index + batchSize else index;
        ghost var before := Buffer();
        forall p | 0 <= p < stackSize {
          history[slot, p] := observations[i];
        }
        forall s | 0 <= s < batchSize
          ensures Buffer()[s] == before[slot := Repeat(observations[i], stackSize)][s]
        {
          if s == slot {
            assert Buffer()[s] == Repeat(observations[i], stackSize);
          } else {
            assert Buffer()[s] == before[s];
          }
        }
        assert Buffer() == before[slot := Repeat(observations[i], stackSize)];
        i := i + 1;
      }
      r := Ok(history);
    }

    /** `step(actions)`: `observations`, `rewards` and `dones` are what the
        environment's step returned, one per slot. `np.roll` copies the
        buffer into a new array with every stack rolled left by one, and
        that array becomes the buffer; then the new observation goes last,
        and rewards and dones pass through. An array returned earlier keeps
        its contents. A zero `stack_size` has no last position. */
    method Step(observations: seq<Observation>, rewards: seq<int>, dones: seq<bool>)
      returns (r: Result<(array2<Observation>, seq<int>, seq<bool>)>)
      requires Valid() && |observations| == batchSize
      modifies this
      ensures Valid() && fresh(history) && unchanged(old(history))
      ensures stackSize == 0 ==> r == Err(IndexError) && Buffer() == old(Buffer())
      ensures stackSize > 0 ==>
        r == Ok((history, rewards, dones))
        && forall s :: 0 <= s < batchSize ==> Buffer()[s] == Push(old(Buffer())[s], observations[s])
    {
      ghost var start := Buffer();
      BufferEntries();
      history := RollLeft(history);
      if stackSize == 0 {
        assert forall s :: 0 <= s < batchSize ==> Buffer()[s] == [] == start[s];
        return Err(IndexError);
      }
      SetLastColumn(history, observations);
      BufferEntries();
      PushedSlots(start, Buffer(), observations);
      r := Ok((history, rewards, dones));
    }
  }

  lemma {:induction false} StacksErrorStays(buffer: seq<seq<Observation>>, indices: seq<int>, observations: seq<Observation>,
                                            stackSize: nat, i: nat, n: nat)
    requires i <= n <= |indices| && n <= |observations|
    requires Stacks(buffer, indices, observations, stackSize, i).1.Some?
    ensures Stacks(buffer, indices, observations, stackSize, n) == Stacks(buffer, indices, observations, stackSize, i)
    decreases n - i
  {
    if i < n {
      StacksErrorStays(buffer, indices, observations, stackSize, i + 1, n);
    }
  }
}
