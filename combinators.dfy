/** The trax layer combinators: `Reorder` over nested tuples, the shape
    rules of `Concatenate`, `Branch`, `FirstBranch`/`SecondBranch`,
    `Serial` and `Parallel`, and the construction of `Residual`. Layers
    whose arithmetic is numeric (`SumBranches`, `Concatenate`, and any layer
    defined outside the combinators) are applied through a function passed
    in; random-number splitting is not modelled. */
module Combinators {
  import opened Errors
  import opened PyOps

  /** A nested tuple (or list): leaves are tensors, or the shapes of tensors. */
  datatype Nest<T> = Atom(leaf: T) | Tup(items: seq<Nest<T>>)

  /** The `output` argument of `Reorder`: a nested tuple of integer indices. */
  datatype Spec = Idx(i: int) | Group(specs: seq<Spec>)

  /** The shape of a tensor is a tuple of dimensions; a list of tensors has a list of shapes. */
  type Shape = Nest<seq<int>>

  function Min(a: int, b: int): int { if a <= b then a else b }

  /** Python's `x[i]` on a tuple or list: negative indices count from the end. */
  function Pick<T>(x: Nest<T>, i: int): (r: Result<Nest<T>>)
    ensures x.Atom? ==> r == Err(OutsideModel)
    ensures x.Tup? ==> (r.Ok? <==> -|x.items| <= i < |x.items|)
    ensures x.Tup? && r.Err? ==> r.error == IndexError
    ensures r.Ok? && i >= 0 ==> i < |x.items| && r.value == x.items[i]
    ensures r.Ok? && i < 0 ==> r.value == x.items[|x.items| + i]
  {
    match x
    case Atom(_) => Err(OutsideModel)
    case Tup(items) =>
      if 0 <= i < |items| then Ok(items[i])
      else if -|items| <= i < 0 then Ok(items[|items| + i])
      else Err(IndexError)
  }

  /** The same nesting with every leaf mapped: in particular, the shape of a nested value. */
  function MapLeaves<T, S>(x: Nest<T>, f: T -> S): (r: Nest<S>)
    ensures r.Atom? <==> x.Atom?
    ensures x.Atom? ==> r.leaf == f(x.leaf)
    ensures x.Tup? ==> |r.items| == |x.items|
  {
    match x
    case Atom(a) => Atom(f(a))
    case Tup(items) => Tup(seq(|items|, k requires 0 <= k < |items| => MapLeaves(items[k], f)))
  }

  function MapResult<T, S>(r: Result<Nest<T>>, f: T -> S): Result<Nest<S>>
  {
    match r
    case Ok(x) => Ok(MapLeaves(x, f))
    case Err(e) => Err(e)
  }

  /** The indices a spec mentions, left to right. */
  function Indices(s: Spec): seq<int>
    decreases s
  {
    match s
    case Idx(i) => [i]
    case Group(specs) => IndicesAll(specs, |specs|)
  }

  function IndicesAll(specs: seq<Spec>, n: nat): seq<int>
    requires n <= |specs|
    decreases specs, n
  {
    if n == 0 then [] else IndicesAll(specs, n - 1) + Indices(specs[n - 1])
  }

  /** `nested_map(output, lambda i: x[i])`: the spec with every index `i` replaced by `x[i]`. */
  function NestedMap<T>(s: Spec, x: Nest<T>): (r: Result<Nest<T>>)
    ensures r.Err? ==> r.error == IndexError || r.error == OutsideModel
    ensures s.Group? && r.Ok? ==> r.value.Tup? && |r.value.items| == |s.specs|
    decreases s
  {
    match s
    case Idx(i) => Pick(x, i)
    case Group(specs) =>
      match NestedMapAll(specs, |specs|, x)
      case Ok(items) => Ok(Tup(items))
      case Err(e) => Err(e)
  }

  function NestedMapAll<T>(specs: seq<Spec>, n: nat, x: Nest<T>): (r: Result<seq<Nest<T>>>)
    requires n <= |specs|
    ensures r.Err? ==> r.error == IndexError || r.error == OutsideModel
    ensures r.Ok? ==> |r.value| == n
    decreases specs, n
  {
    if n == 0 then Ok([])
    else
      match NestedMapAll(specs, n - 1, x)
      case Err(e) => Err(e)
      case Ok(front) =>
        match NestedMap(specs[n - 1], x)
        case Err(e) => Err(e)
        case Ok(y) => Ok(front + [y])
  }

  /** `Reorder(x, output=...)`, and with a shape for `x` also `_reorder_shape`:
      no spec returns the input itself. */
  function ReorderTuple<T>(x: Nest<T>, output: Option<Spec>): (r: Result<Nest<T>>)
    ensures output.None? ==> r == Ok(x)
  {
    match output
    case None => Ok(x)
    case Some(s) => NestedMap(s, x)
  }

  /** `r` is laid out like the spec `s`, with each index `i` holding `x[i]`. */
  ghost predicate Follows<T>(s: Spec, x: Nest<T>, r: Nest<T>)
    decreases s
  {
    match s
    case Idx(i) => Pick(x, i) == Ok(r)
    case Group(specs) =>
      r.Tup? && |r.items| == |specs|
      && forall k :: 0 <= k < |specs| ==> Follows(specs[k], x, r.items[k])
  }

  /** `nested_map` succeeds exactly when every index in the spec is a valid
      index of `x`, and then its result follows the spec. */
  lemma {:induction false} NestedMapFollows<T>(s: Spec, x: Nest<T>)
    ensures NestedMap(s, x).Ok? <==> forall i :: i in Indices(s) ==> Pick(x, i).Ok?
    ensures NestedMap(s, x).Ok? ==> Follows(s, x, NestedMap(s, x).value)
    decreases s
  {
    match s
    case Idx(i) =>
    case Group(specs) =>
      NestedMapAllFollows(specs, |specs|, x);
  }

  lemma {:induction false} NestedMapAllFollows<T>(specs: seq<Spec>, n: nat, x: Nest<T>)
    requires n <= |specs|
    ensures NestedMapAll(specs, n, x).Ok? <==> forall i :: i in IndicesAll(specs, n) ==> Pick(x, i).Ok?
    ensures NestedMapAll(specs, n, x).Ok? ==>
      |NestedMapAll(specs, n, x).value| == n
      && forall k :: 0 <= k < n ==> Follows(specs[k], x, NestedMapAll(specs, n, x).value[k])
    decreases specs, n
  {
    if n > 0 {
      NestedMapAllFollows(specs, n - 1, x);
      NestedMapFollows(specs[n - 1], x);
      var all := IndicesAll(specs, n);
      assert all == IndicesAll(specs, n - 1) + Indices(specs[n - 1]);
      assert (forall i :: i in all ==> Pick(x, i).Ok?) <==>
        (forall i :: i in IndicesAll(specs, n - 1) ==> Pick(x, i).Ok?)
        && (forall i :: i in Indices(specs[n - 1]) ==> Pick(x, i).Ok?);
    }
  }

  /** The value that follows the spec is unique: it is what `nested_map` returns. */
  lemma {:induction false} FollowsUnique<T>(s: Spec, x: Nest<T>, r: Nest<T>)
    requires Follows(s, x, r)
    ensures NestedMap(s, x) == Ok(r)
    decreases s
  {
    match s
    case Idx(i) =>
    case Group(specs) =>
      FollowsUniqueAll(specs, |specs|, x, r.items);
      assert r.items[..|specs|] == r.items;
  }

  lemma {:induction false} FollowsUniqueAll<T>(specs: seq<Spec>, n: nat, x: Nest<T>, items: seq<Nest<T>>)
    requires n <= |specs| && n <= |items|
    requires forall k :: 0 <= k < n ==> Follows(specs[k], x, items[k])
    ensures NestedMapAll(specs, n, x) == Ok(items[..n])
    decreases specs, n
  {
    if n > 0 {
      FollowsUniqueAll(specs, n - 1, x, items);
      FollowsUnique(specs[n - 1], x, items[n - 1]);
      assert items[..n - 1] + [items[n - 1]] == items[..n];
    }
  }

  lemma {:induction false} PickCommutes<T, S>(x: Nest<T>, i: int, f: T -> S)
    ensures Pick(MapLeaves(x, f), i) == MapResult(Pick(x, i), f)
  {
  }

  /** Reordering commutes with taking shapes: `_reorder_shape` of the input's
      shape is the shape of `Reorder`'s result, error included. */
  lemma {:induction false} ReorderCommutes<T, S>(x: Nest<T>, s: Spec, f: T -> S)
    ensures NestedMap(s, MapLeaves(x, f)) == MapResult(NestedMap(s, x), f)
    decreases s
  {
    match s
    case Idx(i) => PickCommutes(x, i, f);
    case Group(specs) =>
      ReorderCommutesAll(x, specs, |specs|, f);
      var m := NestedMapAll(specs, |specs|, x);
      if m.Ok? {
        var mf := NestedMapAll(specs, |specs|, MapLeaves(x, f));
        assert MapLeaves(Tup(m.value), f).items == mf.value;
      }
  }

  lemma {:induction false} ReorderCommutesAll<T, S>(x: Nest<T>, specs: seq<Spec>, n: nat, f: T -> S)
    requires n <= |specs|
    ensures var m := NestedMapAll(specs, n, x);
      var mf := NestedMapAll(specs, n, MapLeaves(x, f));
      && (mf.Ok? <==> m.Ok?)
      && (m.Err? ==> mf.error == m.error)
      && (m.Ok? ==> |mf.value| == |m.value| && forall k :: 0 <= k < |m.value| ==> mf.value[k] == MapLeaves(m.value[k], f))
    decreases specs, n
  {
    if n > 0 {
      ReorderCommutesAll(x, specs, n - 1, f);
      ReorderCommutes(x, specs[n - 1], f);
    }
  }

  /** The worked examples of the `Reorder` docstring on `input = (x, y, z)`. */
  lemma ReorderExamples<T>(x: Nest<T>, y: Nest<T>, z: Nest<T>)
    ensures ReorderTuple(Tup([x, y, z]), Some(Group([Idx(1), Idx(0), Idx(2)]))) == Ok(Tup([y, x, z]))
    ensures ReorderTuple(Tup([x, y, z]), Some(Group([Idx(0), Idx(0)]))) == Ok(Tup([x, x]))
    ensures ReorderTuple(Tup([x, y, z]), Some(Group([Idx(0), Group([Idx(1), Idx(1)])]))) == Ok(Tup([x, Tup([y, y])]))
    ensures ReorderTuple(Tup([x, y, z]), Some(Group([Group([Idx(2), Idx(0)]), Group([Idx(1), Idx(1)])])))
         == Ok(Tup([Tup([z, x]), Tup([y, y])]))
  {
    var input := Tup([x, y, z]);
    FollowsUnique(Group([Idx(1), Idx(0), Idx(2)]), input, Tup([y, x, z]));
    FollowsUnique(Group([Idx(0), Idx(0)]), input, Tup([x, x]));
    assert Follows(Group([Idx(1), Idx(1)]), input, Tup([y, y]));
    FollowsUnique(Group([Idx(0), Group([Idx(1), Idx(1)])]), input, Tup([x, Tup([y, y])]));
    assert Follows(Group([Idx(2), Idx(0)]), input, Tup([z, x]));
    FollowsUnique(Group([Group([Idx(2), Idx(0)]), Group([Idx(1), Idx(1)])]), input, Tup([Tup([z, x]), Tup([y, y])]));
  }

  /** The sum of the dimensions at `ax` over a list of shapes. */
  function AxisTotal(shapes: seq<Shape>, ax: nat): int
    requires forall k :: 0 <= k < |shapes| ==> shapes[k].Atom? && ax < |shapes[k].leaf|
  {
    if |shapes| == 0 then 0 else AxisTotal(shapes[..|shapes| - 1], ax) + shapes[|shapes| - 1].leaf[ax]
  }

  /** The error of the first shape in the list (left to right) whose `shape[ax]`
      is not a dimension: IndexError when it has no entry `ax`, TypeError when
      that entry is itself a shape and cannot be added to the sum. */
  function AxisCheck(shapes: seq<Shape>, ax: nat): (r: Option<Error>)
    ensures r.None? <==> forall k :: 0 <= k < |shapes| ==> shapes[k].Atom? && ax < |shapes[k].leaf|
  {
    if |shapes| == 0 then None
    else if shapes[0].Tup? then Some(if ax >= |shapes[0].items| then IndexError else TypeError)
    else if ax >= |shapes[0].leaf| then Some(IndexError)
    else AxisCheck(shapes[1..], ax)
  }

  /** `_concatenate_shape`: the axis is taken modulo the rank of the first
      shape; the result is the first shape with that axis replaced by the
      total size along it. */
  function ConcatenateShape(inputShape: Shape, axis: int): (r: Result<Shape>)
    ensures r.Ok? <==>
      inputShape.Tup? && |inputShape.items| > 0 && inputShape.items[0].Atom?
      && |inputShape.items[0].leaf| > 0
      && AxisCheck(inputShape.items, axis % |inputShape.items[0].leaf|).None?
    ensures r.Ok? ==>
      var first := inputShape.items[0].leaf;
      var ax := axis % |first|;
      r.value.Atom? && |r.value.leaf| == |first|
      && (forall k :: 0 <= k < |first| && k != ax ==> r.value.leaf[k] == first[k])
      && r.value.leaf[ax] == AxisTotal(inputShape.items, ax)
  {
    // `input_shape[0]` of one shape is a dimension, whose `len` fails.
    if inputShape.Atom? then Err(if |inputShape.leaf| == 0 then IndexError else TypeError)
    else if |inputShape.items| == 0 then Err(IndexError)
    // A nested first entry: `axis % len(...)`, then `0 + tuple` in the sum.
    else if inputShape.items[0].Tup? then
      Err(if |inputShape.items[0].items| == 0 then ZeroDivisionError else TypeError)
    else
      var first := inputShape.items[0].leaf;
      if |first| == 0 then Err(ZeroDivisionError)
      else
        var ax := axis % |first|;
        match AxisCheck(inputShape.items, ax)
        case Some(e) => Err(e)
        case None => Ok(Atom(first[..ax] + [AxisTotal(inputShape.items, ax)] + first[ax + 1..]))
  }

  /** A negative axis and its non-negative counterpart select the same axis. */
  lemma ConcatenateAxisModRank(inputShape: Shape, axis: int)
    requires inputShape.Tup? && |inputShape.items| > 0 && inputShape.items[0].Atom?
    ensures ConcatenateShape(inputShape, axis) == ConcatenateShape(inputShape, axis + |inputShape.items[0].leaf|)
  {
    var n := |inputShape.items[0].leaf|;
    if n > 0 {
      var q := axis / n;
      var m := axis % n;
      assert axis + n == (q + 1) * n + m;
      DivModUnique(axis + n, n, q + 1, m);
    }
  }

  /** `[x] * num_branches`. */
  function Copies<T>(x: Nest<T>, n: int): (r: Nest<T>)
    ensures r.Tup? && |r.items| == (if n > 0 then n else 0)
    ensures forall k :: 0 <= k < |r.items| ==> r.items[k] == x
  {
    Tup(seq(if n > 0 then n else 0, _ => x))
  }

  /** The layers of the combinator library; `Primitive` stands for any layer
      defined outside it, whose call and shape rule are given as parameters. */
  datatype Layer =
    | Serial(layers: seq<Layer>)
    | Parallel(layers: seq<Layer>)
    | Identity
    | Reorder(output: Option<Spec>)
    | Branch(numBranches: int)
    | FirstBranch
    | SecondBranch
    | SumBranches
    | Concatenate(axis: int)
    | Primitive(name: string)

  /** `Serial.output_shape`: the input shape folded through the first `n` layers. */
  function FoldShapes(ls: seq<Layer>, n: nat, s: Shape, sf: (Layer, Shape) -> Result<Shape>): Result<Shape>
    requires n <= |ls|
    decreases ls, n
  {
    if n == 0 then Ok(s)
    else
      match FoldShapes(ls, n - 1, s, sf)
      case Err(e) => Err(e)
      case Ok(cur) => OutputShape(ls[n - 1], cur, sf)
  }

  /** `Parallel.output_shape`: the `k`-th layer's shape rule on the `k`-th shape, for the first `n`. */
  function ParallelShapes(ls: seq<Layer>, shapes: seq<Shape>, n: nat, sf: (Layer, Shape) -> Result<Shape>)
    : (r: Result<seq<Shape>>)
    requires n <= |ls| && n <= |shapes|
    ensures r.Ok? ==> |r.value| == n
    decreases ls, n
  {
    if n == 0 then Ok([])
    else
      match ParallelShapes(ls, shapes, n - 1, sf)
      case Err(e) => Err(e)
      case Ok(front) =>
        match OutputShape(ls[n - 1], shapes[n - 1], sf)
        case Err(e) => Err(e)
        case Ok(last) => Ok(front + [last])
  }

  /** Each layer's `output_shape`. */
  function OutputShape(layer: Layer, s: Shape, sf: (Layer, Shape) -> Result<Shape>): (r: Result<Shape>)
    ensures layer.Serial? && |layer.layers| == 0 ==> r == Ok(s)
    ensures layer.Parallel? && r.Ok? ==>
      s.Tup? && r.value.Tup? && |r.value.items| == Min(|layer.layers|, |s.items|)
    ensures layer.Branch? ==> r.Ok? && r.value.Tup? && |r.value.items| == (if layer.numBranches > 0 then layer.numBranches else 0)
    ensures (layer.FirstBranch? || layer.SecondBranch? || layer.Reorder?) && r.Err? ==>
      r.error == IndexError || r.error == OutsideModel
    decreases layer
  {
    match layer
    case Serial(ls) => FoldShapes(ls, |ls|, s, sf)
    case Parallel(ls) =>
      if s.Atom? then Err(OutsideModel)
      else
        (match ParallelShapes(ls, s.items, Min(|ls|, |s.items|), sf)
         case Err(e) => Err(e)
         case Ok(shapes) => Ok(Tup(shapes)))
    case Identity => Ok(s)
    case Reorder(output) => ReorderTuple(s, output)
    case Branch(n) => Ok(Copies(s, n))
    case FirstBranch => Pick(s, 0)
    case SecondBranch => Pick(s, 1)
    case SumBranches => Pick(s, 0)
    case Concatenate(axis) => ConcatenateShape(s, axis)
    case Primitive(_) => sf(layer, s)
  }

  /** `Serial.call`: the first `n` layers in order, each with its own parameters. */
  function RunSerial<T, P>(ls: seq<Layer>, ps: seq<Nest<P>>, n: nat, x: Nest<T>,
                           apply: (Layer, Nest<T>, Nest<P>) -> Result<Nest<T>>): Result<Nest<T>>
    requires n <= |ls| && n <= |ps|
    decreases ls, n
  {
    if n == 0 then Ok(x)
    else
      match RunSerial(ls, ps, n - 1, x, apply)
      case Err(e) => Err(e)
      case Ok(y) => Call(ls[n - 1], y, ps[n - 1], apply)
  }

  /** `Parallel.call`: the `k`-th layer on the `k`-th input with the `k`-th parameters, for the first `n`. */
  function RunParallel<T, P>(ls: seq<Layer>, xs: seq<Nest<T>>, ps: seq<Nest<P>>, n: nat,
                             apply: (Layer, Nest<T>, Nest<P>) -> Result<Nest<T>>): (r: Result<seq<Nest<T>>>)
    requires n <= |ls| && n <= |xs| && n <= |ps|
    ensures r.Ok? ==> |r.value| == n
    decreases ls, n
  {
    if n == 0 then Ok([])
    else
      match RunParallel(ls, xs, ps, n - 1, apply)
      case Err(e) => Err(e)
      case Ok(front) =>
        match Call(ls[n - 1], xs[n - 1], ps[n - 1], apply)
        case Err(e) => Err(e)
        case Ok(y) => Ok(front + [y])
  }

  /** Calling a layer on an input with its parameters. `Serial` and
      `Parallel` zip their layers with the parameters (and inputs), so only
      as many layers run as the shortest of those lists allows. */
  function Call<T, P>(layer: Layer, x: Nest<T>, params: Nest<P>,
                      apply: (Layer, Nest<T>, Nest<P>) -> Result<Nest<T>>): (r: Result<Nest<T>>)
    ensures layer.Serial? && params.Tup? && (|layer.layers| == 0 || |params.items| == 0) ==> r == Ok(x)
    ensures layer.Parallel? && r.Ok? ==>
      x.Tup? && params.Tup? && r.value.Tup?
      && |r.value.items| == Min(|layer.layers|, Min(|x.items|, |params.items|))
    ensures layer.Branch? ==> r.Ok? && r.value.Tup? && |r.value.items| == (if layer.numBranches > 0 then layer.numBranches else 0)
    ensures (layer.FirstBranch? || layer.SecondBranch? || layer.Reorder?) && r.Err? ==>
      r.error == IndexError || r.error == OutsideModel
    decreases layer
  {
    match layer
    case Serial(ls) =>
      if params.Atom? then Err(OutsideModel)
      else RunSerial(ls, params.items, Min(|ls|, |params.items|), x, apply)
    case Parallel(ls) =>
      if x.Atom? || params.Atom? then Err(OutsideModel)
      else
        (match RunParallel(ls, x.items, params.items, Min(|ls|, Min(|x.items|, |params.items|)), apply)
         case Err(e) => Err(e)
         case Ok(ys) => Ok(Tup(ys)))
    case Identity => Ok(x)
    case Reorder(output) => ReorderTuple(x, output)
    case Branch(n) => Ok(Copies(x, n))
    case FirstBranch => Pick(x, 0)
    case SecondBranch => Pick(x, 1)
    case SumBranches => apply(layer, x, params)
    case Concatenate(_) => apply(layer, x, params)
    case Primitive(_) => apply(layer, x, params)
  }

  /** The layers whose call only rearranges its input. */
  predicate Structural(layer: Layer)
  {
    layer.Identity? || layer.Reorder? || layer.Branch? || layer.FirstBranch? || layer.SecondBranch?
  }

  /** For the rearranging layers, `output_shape` of the input's shape is the
      shape of what `call` returns: `Branch` gives `num_branches` copies,
      `FirstBranch`/`SecondBranch` element 0/1, `Reorder` the reordered tuple. */
  lemma StructuralShapeAgreement<T, P>(layer: Layer, x: Nest<T>, params: Nest<P>, dims: T -> seq<int>,
                                       apply: (Layer, Nest<T>, Nest<P>) -> Result<Nest<T>>,
                                       sf: (Layer, Shape) -> Result<Shape>)
    requires Structural(layer)
    ensures OutputShape(layer, MapLeaves(x, dims), sf) == MapResult(Call(layer, x, params, apply), dims)
  {
    match layer
    case Identity =>
    case Reorder(output) =>
      if output.Some? {
        ReorderCommutes(x, output.value, dims);
      }
    case Branch(n) =>
      var lhs := Copies(MapLeaves(x, dims), n);
      var rhs := MapLeaves(Copies(x, n), dims);
      assert lhs.items == rhs.items;
    case FirstBranch => PickCommutes(x, 0, dims);
    case SecondBranch => PickCommutes(x, 1, dims);
  }

  /** `RunSerial` only looks at the first `n` layers and parameters. */
  lemma {:induction false} RunSerialPrefix<T, P>(ls: seq<Layer>, ps: seq<Nest<P>>, ls': seq<Layer>, ps': seq<Nest<P>>,
                                                 n: nat, x: Nest<T>, apply: (Layer, Nest<T>, Nest<P>) -> Result<Nest<T>>)
    requires n <= |ls| && n <= |ps| && n <= |ls'| && n <= |ps'|
    requires ls[..n] == ls'[..n] && ps[..n] == ps'[..n]
    ensures RunSerial(ls, ps, n, x, apply) == RunSerial(ls', ps', n, x, apply)
    decreases n
  {
    if n > 0 {
      assert ls[..n - 1] == ls'[..n - 1] && ps[..n - 1] == ps'[..n - 1];
      assert ls[n - 1] == ls[..n][n - 1] == ls'[n - 1];
      assert ps[n - 1] == ps[..n][n - 1] == ps'[n - 1];
      RunSerialPrefix(ls, ps, ls', ps', n - 1, x, apply);
    }
  }

  /** `Serial.call` zips layers with parameters: with fewer parameters than
      layers the trailing layers are skipped, exactly as if they were absent;
      with the default `params=()` nothing runs. */
  lemma SerialZipTruncates<T, P>(ls: seq<Layer>, ps: seq<Nest<P>>, x: Nest<T>,
                                 apply: (Layer, Nest<T>, Nest<P>) -> Result<Nest<T>>)
    ensures var m := Min(|ls|, |ps|);
      Call(Serial(ls), x, Tup(ps), apply) == Call(Serial(ls[..m]), x, Tup(ps[..m]), apply)
    ensures Call(Serial(ls), x, Tup([]), apply) == Ok(x)
  {
    var m := Min(|ls|, |ps|);
    assert ls[..m][..m] == ls[..m] && ps[..m][..m] == ps[..m];
    RunSerialPrefix(ls, ps, ls[..m], ps[..m], m, x, apply);
  }

  /** Running two serial stacks one after the other is the serial stack of
      their concatenation. */
  lemma {:induction false} SerialComposes<T, P>(ls1: seq<Layer>, ps1: seq<Nest<P>>, ls2: seq<Layer>, ps2: seq<Nest<P>>,
                                                x: Nest<T>, apply: (Layer, Nest<T>, Nest<P>) -> Result<Nest<T>>)
    requires |ls1| == |ps1| && |ls2| == |ps2|
    ensures Call(Serial(ls1 + ls2), x, Tup(ps1 + ps2), apply)
         == match Call(Serial(ls1), x, Tup(ps1), apply)
            case Err(e) => Err(e)
            case Ok(y) => Call(Serial(ls2), y, Tup(ps2), apply)
    decreases |ls2|
  {
    var ls, ps := ls1 + ls2, ps1 + ps2;
    if |ls2| == 0 {
      assert ls == ls1 && ps == ps1;
    } else {
      var n := |ls2| - 1;
      var lsF, psF := ls2[..n], ps2[..n];
      SerialComposes(ls1, ps1, lsF, psF, x, apply);
      assert (ls1 + lsF) == ls[..|ls| - 1] && (ps1 + psF) == ps[..|ps| - 1];
      RunSerialPrefix(ls, ps, ls1 + lsF, ps1 + psF, |ls| - 1, x, apply);
      RunSerialPrefix(ls2, ps2, lsF, psF, n, Ok(x).value, apply);
      assert ls[|ls| - 1] == ls2[n] && ps[|ps| - 1] == ps2[n];
      match Call(Serial(ls1), x, Tup(ps1), apply)
      case Err(e) =>
      case Ok(y) =>
        RunSerialPrefix(ls2, ps2, lsF, psF, n, y, apply);
    }
  }

  /** `Parallel.call` returns one output per zipped triple, the `k`-th being
      the `k`-th layer applied to the `k`-th input. */
  lemma {:induction false} RunParallelSpec<T, P>(ls: seq<Layer>, xs: seq<Nest<T>>, ps: seq<Nest<P>>, n: nat,
                                                 apply: (Layer, Nest<T>, Nest<P>) -> Result<Nest<T>>)
    requires n <= |ls| && n <= |xs| && n <= |ps|
    ensures RunParallel(ls, xs, ps, n, apply).Ok? <==> forall k :: 0 <= k < n ==> Call(ls[k], xs[k], ps[k], apply).Ok?
    ensures RunParallel(ls, xs, ps, n, apply).Ok? ==>
      var ys := RunParallel(ls, xs, ps, n, apply).value;
      |ys| == n && forall k :: 0 <= k < n ==> ys[k] == Call(ls[k], xs[k], ps[k], apply).value
    decreases n
  {
    if n > 0 {
      RunParallelSpec(ls, xs, ps, n - 1, apply);
    }
  }

  lemma ParallelCall<T, P>(ls: seq<Layer>, x: Nest<T>, params: Nest<P>,
                           apply: (Layer, Nest<T>, Nest<P>) -> Result<Nest<T>>)
    requires x.Tup? && params.Tup?
    ensures var m := Min(|ls|, Min(|x.items|, |params.items|));
      var r := Call(Parallel(ls), x, params, apply);
      (r.Ok? <==> forall k :: 0 <= k < m ==> Call(ls[k], x.items[k], params.items[k], apply).Ok?)
      && (r.Ok? ==>
            r.value.Tup? && |r.value.items| == m
            && forall k :: 0 <= k < m ==> r.value.items[k] == Call(ls[k], x.items[k], params.items[k], apply).value)
  {
    RunParallelSpec(ls, x.items, params.items, Min(|ls|, Min(|x.items|, |params.items|)), apply);
  }

  lemma {:induction false} ParallelShapesSpec(ls: seq<Layer>, shapes: seq<Shape>, n: nat, sf: (Layer, Shape) -> Result<Shape>)
    requires n <= |ls| && n <= |shapes|
    ensures ParallelShapes(ls, shapes, n, sf).Ok? <==> forall k :: 0 <= k < n ==> OutputShape(ls[k], shapes[k], sf).Ok?
    ensures ParallelShapes(ls, shapes, n, sf).Ok? ==>
      var out := ParallelShapes(ls, shapes, n, sf).value;
      |out| == n && forall k :: 0 <= k < n ==> out[k] == OutputShape(ls[k], shapes[k], sf).value
    decreases n
  {
    if n > 0 {
      ParallelShapesSpec(ls, shapes, n - 1, sf);
    }
  }

  /** `Parallel.output_shape` pairs the `k`-th layer with the `k`-th input
      shape; its length is the shorter of the two lists. */
  lemma ParallelOutputShape(ls: seq<Layer>, s: Shape, sf: (Layer, Shape) -> Result<Shape>)
    requires s.Tup?
    ensures var m := Min(|ls|, |s.items|);
      var r := OutputShape(Parallel(ls), s, sf);
      (r.Ok? <==> forall k :: 0 <= k < m ==> OutputShape(ls[k], s.items[k], sf).Ok?)
      && (r.Ok? ==>
            r.value.Tup? && |r.value.items| == m
            && forall k :: 0 <= k < m ==> r.value.items[k] == OutputShape(ls[k], s.items[k], sf).value)
  {
    ParallelShapesSpec(ls, s.items, Min(|ls|, |s.items|), sf);
  }

  /** `Serial.call` as the source writes it: a loop over the zipped layers and parameters. */
  method SerialCall<T, P>(ls: seq<Layer>, x: Nest<T>, params: Nest<P>,
                          apply: (Layer, Nest<T>, Nest<P>) -> Result<Nest<T>>) returns (r: Result<Nest<T>>)
    ensures r == Call(Serial(ls), x, params, apply)
  {
    if params.Atom? {
      return Err(OutsideModel);
    }
    var m := Min(|ls|, |params.items|);
    var cur := x;
    var i := 0;
    while i < m
      invariant 0 <= i <= m
      invariant RunSerial(ls, params.items, i, x, apply) == Ok(cur)
    {
      var y := Call(ls[i], cur, params.items[i], apply);
      if y.Err? {
        FoldErrorStays(ls, params.items, i + 1, m, x, apply);
        return Err(y.error);
      }
      cur := y.value;
      i := i + 1;
    }
    r := Ok(cur);
  }

  lemma {:induction false} FoldErrorStays<T, P>(ls: seq<Layer>, ps: seq<Nest<P>>, i: nat, n: nat, x: Nest<T>,
                                                apply: (Layer, Nest<T>, Nest<P>) -> Result<Nest<T>>)
    requires i <= n <= |ls| && n <= |ps|
    requires RunSerial(ls, ps, i, x, apply).Err?
    ensures RunSerial(ls, ps, n, x, apply) == Err(RunSerial(ls, ps, i, x, apply).error)
    decreases n - i
  {
    if i < n {
      FoldErrorStays(ls, ps, i + 1, n, x, apply);
    }
  }

  lemma {:induction false} ShapeErrorStays(ls: seq<Layer>, i: nat, n: nat, s: Shape, sf: (Layer, Shape) -> Result<Shape>)
    requires i <= n <= |ls|
    requires FoldShapes(ls, i, s, sf).Err?
    ensures FoldShapes(ls, n, s, sf) == Err(FoldShapes(ls, i, s, sf).error)
    decreases n - i
  {
    if i < n {
      ShapeErrorStays(ls, i + 1, n, s, sf);
    }
  }

  /** `Serial.output_shape` as the source writes it: a loop threading `cur_shape`. */
  method SerialOutputShape(ls: seq<Layer>, s: Shape, sf: (Layer, Shape) -> Result<Shape>) returns (r: Result<Shape>)
    ensures r == OutputShape(Serial(ls), s, sf)
  {
    var cur := s;
    var i := 0;
    while i < |ls|
      invariant 0 <= i <= |ls|
      invariant FoldShapes(ls, i, s, sf) == Ok(cur)
    {
      var next := OutputShape(ls[i], cur, sf);
      if next.Err? {
        ShapeErrorStays(ls, i + 1, |ls|, s, sf);
        return Err(next.error);
      }
      cur := next.value;
      i := i + 1;
    }
    r := Ok(cur);
  }

  /** `Serial.new_parameters`: one parameter set per layer, each initialised
      for the shape reaching that layer. `init` stands for the sub-layer's
      `initialize`. */
  method SerialNewParameters<P>(ls: seq<Layer>, s: Shape, sf: (Layer, Shape) -> Result<Shape>,
                                init: (Layer, Shape) -> P) returns (r: Result<seq<P>>)
    ensures r.Ok? <==> OutputShape(Serial(ls), s, sf).Ok?
    ensures r.Err? ==> r == Err(OutputShape(Serial(ls), s, sf).error)
    ensures r.Ok? ==>
      |r.value| == |ls|
      && forall i :: 0 <= i < |ls| ==>
           FoldShapes(ls, i, s, sf).Ok? && r.value[i] == init(ls[i], FoldShapes(ls, i, s, sf).value)
  {
    var params: seq<P> := [];
    var cur := s;
    var i := 0;
    while i < |ls|
      invariant 0 <= i <= |ls| && |params| == i
      invariant FoldShapes(ls, i, s, sf) == Ok(cur)
      invariant forall j :: 0 <= j < i ==>
        FoldShapes(ls, j, s, sf).Ok? && params[j] == init(ls[j], FoldShapes(ls, j, s, sf).value)
    {
      var param := init(ls[i], cur);
      var next := OutputShape(ls[i], cur, sf);
      if next.Err? {
        ShapeErrorStays(ls, i + 1, |ls|, s, sf);
        return Err(next.error);
      }
      params := params + [param];
      cur := next.value;
      i := i + 1;
    }
    r := Ok(params);
  }

  /** `Residual(*layers, shortcut=...)`: several layers are wrapped in a
      `Serial`, the shortcut defaults to `Identity`, and no layers at all is
      an error. */
  function Residual(layers: seq<Layer>, shortcut: Option<Layer>): (r: Result<Layer>)
    ensures r.Err? <==> |layers| == 0
    ensures r.Err? ==> r.error == ValueError
  {
    var sc := match shortcut case Some(l) => l case None => Identity;
    if |layers| > 1 then Ok(Serial([Branch(2), Parallel([Serial(layers), sc]), SumBranches]))
    else if |layers| == 1 then Ok(Serial([Branch(2), Parallel([layers[0], sc]), SumBranches]))
    else Err(ValueError)
  }

  /** The layer a residual block wraps: the single layer itself, or the serial stack. */
  function ResidualBody(layers: seq<Layer>): Layer
    requires |layers| > 0
  {
    if |layers| > 1 then Serial(layers) else layers[0]
  }

  /** A residual block with the default shortcut has the shape of its body. */
  lemma ResidualShape(layers: seq<Layer>, s: Shape, sf: (Layer, Shape) -> Result<Shape>)
    requires |layers| > 0
    ensures OutputShape(Residual(layers, None).value, s, sf) == OutputShape(ResidualBody(layers), s, sf)
  {
    var body := ResidualBody(layers);
    var ls := [Branch(2), Parallel([body, Identity]), SumBranches];
    assert Residual(layers, None).value == Serial(ls);
    var pair := Copies(s, 2);
    assert pair.items == [s, s];
    assert FoldShapes(ls, 1, s, sf) == Ok(pair);
    var bs := OutputShape(body, s, sf);
    var inner := [body, Identity];
    assert ParallelShapes(inner, pair.items, 0, sf) == Ok([]);
    assert inner[0] == body && pair.items[0] == s && inner[1] == Identity && pair.items[1] == s;
    match bs
    case Err(e) =>
      assert ParallelShapes(inner, pair.items, 1, sf) == Err(e);
      assert ParallelShapes(inner, pair.items, 2, sf) == Err(e);
      assert FoldShapes(ls, 2, s, sf) == Err(e);
      assert FoldShapes(ls, 3, s, sf) == Err(e);
    case Ok(t) =>
      assert OutputShape(inner[0], pair.items[0], sf) == Ok(t);
      assert ParallelShapes(inner, pair.items, 1, sf) == Ok([] + [t]);
      assert [] + [t] == [t];
      assert [t] + [s] == [t, s];
      assert OutputShape(Identity, s, sf) == Ok(s);
      assert ParallelShapes(inner, pair.items, 2, sf) == Ok([t, s]);
      assert FoldShapes(ls, 2, s, sf) == Ok(Tup([t, s]));
      assert FoldShapes(ls, 3, s, sf) == Ok(t);
  }

  /** A residual block sums the body's output with the shortcut's output on
      the same input. */
  lemma ResidualCall<T, P>(layers: seq<Layer>, shortcut: Layer, x: Nest<T>,
                           p0: Nest<P>, pBody: Nest<P>, pShortcut: Nest<P>, p2: Nest<P>,
                           apply: (Layer, Nest<T>, Nest<P>) -> Result<Nest<T>>)
    requires |layers| > 0
    ensures var body := ResidualBody(layers);
      Call(Residual(layers, Some(shortcut)).value, x, Tup([p0, Tup([pBody, pShortcut]), p2]), apply)
      == match Call(body, x, pBody, apply)
         case Err(e) => Err(e)
         case Ok(y) =>
           match Call(shortcut, x, pShortcut, apply)
           case Err(e) => Err(e)
           case Ok(z) => apply(SumBranches, Tup([y, z]), p2)
  {
    var body := ResidualBody(layers);
    var ls := [Branch(2), Parallel([body, shortcut]), SumBranches];
    var ps := [p0, Tup([pBody, pShortcut]), p2];
    assert Residual(layers, Some(shortcut)).value == Serial(ls);
    var pair := Copies(x, 2);
    assert pair.items == [x, x];
    assert RunSerial(ls, ps, 1, x, apply) == Ok(pair);
    var inner, innerPs := [body, shortcut], [pBody, pShortcut];
    var bodyOut := Call(body, x, pBody, apply);
    assert RunParallel(inner, pair.items, innerPs, 0, apply) == Ok([]);
    assert inner[0] == body && pair.items[0] == x && innerPs[0] == pBody;
    assert inner[1] == shortcut && pair.items[1] == x && innerPs[1] == pShortcut;
    match bodyOut
    case Err(e) =>
      assert RunParallel(inner, pair.items, innerPs, 1, apply) == Err(e);
      assert RunParallel(inner, pair.items, innerPs, 2, apply) == Err(e);
      assert RunSerial(ls, ps, 2, x, apply) == Err(e);
      assert RunSerial(ls, ps, 3, x, apply) == Err(e);
    case Ok(y) =>
      assert [] + [y] == [y];
      assert RunParallel(inner, pair.items, innerPs, 1, apply) == Ok([y]);
      match Call(shortcut, x, pShortcut, apply)
      case Err(e) =>
        assert RunParallel(inner, pair.items, innerPs, 2, apply) == Err(e);
        assert RunSerial(ls, ps, 2, x, apply) == Err(e);
        assert RunSerial(ls, ps, 3, x, apply) == Err(e);
      case Ok(z) =>
        assert [y] + [z] == [y, z];
        assert RunParallel(inner, pair.items, innerPs, 2, apply) == Ok([y, z]);
        assert RunSerial(ls, ps, 2, x, apply) == Ok(Tup([y, z]));
        assert RunSerial(ls, ps, 3, x, apply) == apply(SumBranches, Tup([y, z]), p2);
  }
}
