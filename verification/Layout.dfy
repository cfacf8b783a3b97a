/** The arrangement algebra of tensors: every operation of a chain records how a view
    index maps back to an index of the tensor it was applied to, and each tensor on the
    way checks its own bounds. A hierarchical tensor is a list of levels, outermost
    first; an operation applies to one of them. */
module Layout {
  import opened Arithmetic

  type Shape = seq<int>
  type Index = seq<int>

  datatype Op =
    | Tile(sizes: seq<int>, strides: seq<int>, spacing: seq<int>, floorMode: bool)
    | Expand(newSizes: seq<int>)
    | Unsqueeze(dim: int)
    | Squeeze(dims: set<int>)
    | Permute(order: seq<int>)
    | Flatten(start: int, end: int)
    | Ravel
    | Pad(amounts: seq<(int, int)>)

  /** An operation and the level it is applied to; ravel merges that level with all below it. */
  datatype Step = Step(level: nat, op: Op)

  predicate InRange(shape: Shape, at: Index) {
    |at| == |shape| && forall d :: 0 <= d < |shape| ==> 0 <= at[d] < shape[d]
  }

  predicate Fits(levels: seq<Shape>, at: seq<Index>) {
    |at| == |levels| && forall i :: 0 <= i < |levels| ==> |at[i]| == |levels[i]|
  }

  predicate AllInRange(levels: seq<Shape>, at: seq<Index>) {
    |at| == |levels| && forall i :: 0 <= i < |levels| ==> InRange(levels[i], at[i])
  }

  // ----- mixed-radix indices -----

  function Size(shape: Shape): int {
    if shape == [] then 1 else shape[0] * Size(shape[1..])
  }

  /** `_calculate_default_strides`; a shape without dimensions still gets one stride. */
  function DefaultStrides(shape: Shape): (strides: seq<int>)
    ensures |strides| == if shape == [] then 1 else |shape|
    ensures shape != [] ==> strides[0] == Size(shape[1..])
  {
    if |shape| <= 1 then [1]
    else
      var rest := DefaultStrides(shape[1..]);
      [shape[1] * rest[0]] + rest
  }

  function FloorDiv(x: int, y: int): int {
    if y == 0 then 0 else if y > 0 then x / y else (-x) / (-y)
  }

  function FloorMod(x: int, y: int): int {
    x - FloorDiv(x, y) * y
  }

  function Unravel(x: int, strides: seq<int>): (at: Index)
    ensures |at| == |strides|
    decreases |strides|
  {
    if strides == [] then [] else [FloorDiv(x, strides[0])] + Unravel(FloorMod(x, strides[0]), strides[1..])
  }

  function Linear(at: Index, strides: seq<int>): int
    requires |at| == |strides|
  {
    if at == [] then 0 else at[0] * strides[0] + Linear(at[1..], strides[1..])
  }

  /** The strides are built back to front and reversed at the end. */
  method CalculateDefaultStrides(shape: Shape) returns (strides: seq<int>)
    ensures strides == DefaultStrides(shape)
  {
    strides := [1];
    var i := |shape|;
    while i > 1
      decreases i
      invariant |shape| >= 1 ==> 1 <= i <= |shape|
      invariant shape == [] ==> i == 0 && strides == [1]
      invariant shape != [] ==> strides == DefaultStrides(shape[i - 1..])
    {
      i := i - 1;
      assert shape[i - 1..][1..] == shape[i..] && shape[i - 1..][1] == shape[i];
      strides := [shape[i] * strides[0]] + strides;
    }
    assert shape != [] ==> shape[0..] == shape;
  }

  method UnravelIndex(x: int, shape: Shape) returns (at: Index)
    ensures at == Unravel(x, DefaultStrides(shape))
  {
    var strides := CalculateDefaultStrides(shape);
    at := [];
    var index := x;
    for i := 0 to |strides|
      invariant at + Unravel(index, strides[i..]) == Unravel(x, strides)
    {
      assert strides[i..][0] == strides[i] && strides[i..][1..] == strides[i + 1..];
      at := at + [FloorDiv(index, strides[i])];
      index := FloorMod(index, strides[i]);
    }
  }

  lemma {:induction false} Divide(q: int, r: int, y: int)
    requires 0 <= r < y
    ensures FloorDiv(q * y + r, y) == q && FloorMod(q * y + r, y) == r
  {
    assert (q + 1) * y == q * y + y;
    FloorQuotient(q * y + r, y, q);
  }

  /** One more leading digit. */
  lemma {:induction false} LeadingDigit(digit: int, size: int, rest: int, stride: int)
    requires 0 <= digit < size && 0 <= rest < stride
    ensures 0 <= digit * stride + rest < size * stride
    ensures FloorDiv(digit * stride + rest, stride) == digit && FloorMod(digit * stride + rest, stride) == rest
  {
    Divide(digit, rest, stride);
    Scale(digit + 1, size, stride);
    Scale(0, digit, stride);
    assert (digit + 1) * stride == digit * stride + stride;
  }

  /** Linearising an index in range stays within the size, and unravelling undoes it. */
  lemma {:induction false} UnravelLinear(shape: Shape, at: Index)
    requires shape != [] && InRange(shape, at)
    ensures 0 <= Linear(at, DefaultStrides(shape)) < Size(shape)
    ensures Unravel(Linear(at, DefaultStrides(shape)), DefaultStrides(shape)) == at
    decreases |shape|
  {
    var strides := DefaultStrides(shape);
    var rest := Linear(at[1..], strides[1..]);
    hide FloorDiv, FloorMod;
    if |shape| == 1 {
      assert rest == 0 && strides == [1] && Size(shape[1..]) == 1;
    } else {
      UnravelLinear(shape[1..], at[1..]);
      assert strides[1..] == DefaultStrides(shape[1..]);
    }
    LeadingDigit(at[0], shape[0], rest, strides[0]);
    assert Unravel(rest, strides[1..]) == at[1..];
  }

  /** Linearising undoes unravelling, whatever the number. */
  lemma {:induction false} LinearUnravel(x: int, strides: seq<int>)
    requires strides != [] && strides[|strides| - 1] == 1
    ensures Linear(Unravel(x, strides), strides) == x
    decreases |strides|
  {
    var rest := FloorMod(x, strides[0]);
    assert Unravel(x, strides)[1..] == Unravel(rest, strides[1..]);
    if |strides| == 1 {
      assert Unravel(rest, strides[1..]) == [];
    } else {
      LinearUnravel(rest, strides[1..]);
    }
  }

  lemma {:induction false} LastStride(shape: Shape)
    ensures DefaultStrides(shape)[|DefaultStrides(shape)| - 1] == 1
    decreases |shape|
  {
    if |shape| > 1 {
      LastStride(shape[1..]);
    }
  }

  // ----- the operations on one level -----

  function TileSize(size: int, tile: int): int {
    if tile == -1 then size else tile
  }

  function TileStride(size: int, tile: int, stride: int): int {
    if stride == -1 then TileSize(size, tile) else stride
  }

  function OuterSize(size: int, tile: int, stride: int, spacing: int, floorMode: bool): int {
    if stride == 0 then -1
    else
      var x := size - spacing * (tile - 1) - 1;
      (if floorMode then FloorDiv(x, stride) else FloorDiv(x + stride - 1, stride)) + 1
  }

  function Normal(dim: int, rank: nat): int {
    if dim < 0 then dim + rank else dim
  }

  /** The entries of `xs` whose position, counted from `i`, is not squeezed. */
  function Kept(xs: seq<int>, dims: set<int>, i: int): seq<int>
    decreases |xs|
  {
    if xs == [] then [] else (if i in dims then [] else [xs[0]]) + Kept(xs[1..], dims, i + 1)
  }

  /** Put a zero back at every squeezed position. */
  function Restored(at: Index, dims: set<int>, i: int, rank: nat): (r: Index)
    ensures |r| == rank
    decreases rank
  {
    if rank == 0 then []
    else if i in dims then [0] + Restored(at, dims, i + 1, rank - 1)
    else if at == [] then [0] + Restored([], dims, i + 1, rank - 1)
    else [at[0]] + Restored(at[1..], dims, i + 1, rank - 1)
  }

  function Position(order: seq<int>, d: int): (k: nat)
    requires d in order
    ensures k < |order| && order[k] == d
    decreases |order|
  {
    if order[0] == d then 0 else 1 + Position(order[1..], d)
  }

  /** What an operation demands of the level it is applied to. */
  predicate Applies(op: Op, shape: Shape) {
    match op
    case Tile(sizes, strides, spacing, _) => |sizes| == |strides| == |spacing| == |shape|
    case Expand(newSizes) => |newSizes| == |shape|
    case Unsqueeze(dim) => 0 <= dim <= |shape|
    case Squeeze(_) => true
    case Permute(order) => |order| == |shape| && forall d :: 0 <= d < |shape| ==> d in order
    case Flatten(start, end) => 0 <= Normal(start, |shape|) < Normal(end, |shape|) <= |shape|
    case Ravel => true
    case Pad(amounts) => |amounts| == |shape|
  }

  lemma {:induction false} Pigeons(order: seq<int>, n: nat)
    requires |order| == n && forall d :: 0 <= d < n ==> d in order
    ensures forall i :: 0 <= i < n ==> 0 <= order[i] < n
    ensures forall i, j :: 0 <= i < j < n ==> order[i] != order[j]
    decreases n
  {
    if n > 0 {
      var k := Position(order, n - 1);
      var rest := order[..k] + order[k + 1..];
      forall d | 0 <= d < n - 1
        ensures d in rest
      {
        var p := Position(order, d);
        assert if p < k then rest[p] == d else rest[p - 1] == d;
      }
      Pigeons(rest, n - 1);
      forall i | 0 <= i < n
        ensures 0 <= order[i] < n && (i != k ==> order[i] < n - 1)
      {
        if i < k {
          assert rest[i] == order[i];
        } else if i > k {
          assert rest[i - 1] == order[i];
        }
      }
      forall i, j | 0 <= i < j < n
        ensures order[i] != order[j]
      {
        if i != k && j != k {
          assert rest[if i < k then i else i - 1] == order[i] && rest[if j < k then j else j - 1] == order[j];
        }
      }
    }
  }

  /** The levels that replace the one an operation is applied to. */
  function NewShapes(op: Op, shape: Shape): (r: seq<Shape>)
    requires Applies(op, shape) && !op.Ravel?
    ensures |r| == if op.Tile? then 2 else 1
  {
    match op
    case Tile(sizes, strides, spacing, floorMode) =>
      [seq(|shape|, d requires 0 <= d < |shape| =>
          OuterSize(shape[d], TileSize(shape[d], sizes[d]), TileStride(shape[d], sizes[d], strides[d]), spacing[d],
          floorMode)),
       seq(|shape|, d requires 0 <= d < |shape| => TileSize(shape[d], sizes[d]))]
    case Expand(newSizes) =>
        [seq(|shape|, d requires 0 <= d < |shape| => if newSizes[d] != -1 then newSizes[d] else shape[d])]
    case Unsqueeze(dim) => [shape[..dim] + [1] + shape[dim..]]
    case Squeeze(dims) => [Kept(shape, dims, 0)]
    case Permute(order) =>
      Pigeons(order, |shape|);
      [seq(|shape|, d requires 0 <= d < |shape| => shape[order[d]])]
    case Flatten(start, end) =>
      var (a, b) := (Normal(start, |shape|), Normal(end, |shape|));
      [shape[..a] + [Size(shape[a..b])] + shape[b..]]
    case Pad(amounts) => [seq(|shape|, d requires 0 <= d < |shape| => shape[d] + amounts[d].0 + amounts[d].1)]
  }

  /** The index of the tensor below that a view index refers to: the sum of what each parts
      level writes into its inputs. */
  function BackLocal(op: Op, shape: Shape, at: seq<Index>): (r: Index)
    requires Applies(op, shape) && !op.Ravel? && Fits(NewShapes(op, shape), at)
    ensures |r| == |shape|
  {
    match op
    case Tile(sizes, strides, spacing, _) =>
      seq(|shape|, d requires 0 <= d < |shape| =>
          at[0][d] * TileStride(shape[d], sizes[d], strides[d]) + at[1][d] * spacing[d])
    case Expand(newSizes) =>
        seq(|shape|, d requires 0 <= d < |shape| => if newSizes[d] == -1 then at[0][d] else 0 * at[0][d])
    case Unsqueeze(dim) => at[0][..dim] + at[0][dim + 1..]
    case Squeeze(dims) => Restored(at[0], dims, 0, |shape|)
    case Permute(order) => seq(|shape|, d requires 0 <= d < |shape| => at[0][Position(order, d)])
    case Flatten(start, end) =>
      var (a, b) := (Normal(start, |shape|), Normal(end, |shape|));
      at[0][..a] + Unravel(at[0][a], DefaultStrides(shape[a..b])) + at[0][a + 1..]
    case Pad(amounts) => seq(|shape|, d requires 0 <= d < |shape| => at[0][d] - amounts[d].0)
  }

  // ----- unsqueezing at any dimension -----

  /** `list.insert(dim, 1)`: a negative position counts from the end, and one out of range
      means the nearest end. */
  function Inserted(shape: Shape, dim: int): Shape {
    var wanted := Normal(dim, |shape|);
    var at := if wanted < 0 then 0 else if wanted > |shape| then |shape| else wanted;
    shape[..at] + [1] + shape[at..]
  }

  /** The closure of `unsqueeze`: every index but the one at position `dim`, counted from `i`. */
  function AllBut(at: Index, dim: int, i: int): Index
    decreases |at|
  {
    if at == [] then [] else (if i != dim then [at[0]] else []) + AllBut(at[1..], dim, i + 1)
  }

  lemma {:induction false} AllButMeans(at: Index, dim: int, i: int)
    ensures AllBut(at, dim, i) == if i <= dim < i + |at| then at[..dim - i] + at[dim - i + 1..] else at
    decreases |at|
  {
    if at != [] {
      AllButMeans(at[1..], dim, i + 1);
    }
  }

  /** `unsqueeze` accepts every dimension, but hands on as many indices as the tensor below has
      dimensions exactly for one that is not negative and not past the end; only then do
      its shape and its offsets belong together. */
  lemma {:induction false} UnsqueezeExact(shape: Shape, dim: int, at: Index)
    requires |at| == |shape| + 1
    ensures |Inserted(shape, dim)| == |shape| + 1
    ensures |AllBut(at, dim, 0)| == |shape| <==> Applies(Unsqueeze(dim), shape)
    ensures Applies(Unsqueeze(dim), shape) ==>
              NewShapes(Unsqueeze(dim), shape) == [Inserted(shape, dim)]
                  && BackLocal(Unsqueeze(dim), shape, [at]) == AllBut(at, dim, 0)
  {
    AllButMeans(at, dim, 0);
  }

  // ----- chains over the levels of a hierarchical tensor -----

  function Concat(parts: seq<seq<int>>): seq<int> {
    if parts == [] then [] else parts[0] + Concat(parts[1..])
  }

  function Split(at: Index, levels: seq<Shape>): (r: seq<Index>)
    requires |at| == |Concat(levels)|
    ensures Fits(levels, r) && Concat(r) == at
    decreases |levels|
  {
    if levels == [] then []
    else
      var r := [at[..|levels[0]|]] + Split(at[|levels[0]|..], levels[1..]);
      assert r[1..] == Split(at[|levels[0]|..], levels[1..]);
      r
  }

  predicate StepApplies(step: Step, levels: seq<Shape>) {
    step.level < |levels| && Applies(step.op, levels[step.level])
  }

  function StepShapes(step: Step, levels: seq<Shape>): seq<Shape>
    requires StepApplies(step, levels)
  {
    if step.op.Ravel? then levels[..step.level] + [Concat(levels[step.level..])]
    else levels[..step.level] + NewShapes(step.op, levels[step.level]) + levels[step.level + 1..]
  }

  function StepBack(step: Step, levels: seq<Shape>, at: seq<Index>): (r: seq<Index>)
    requires StepApplies(step, levels) && Fits(StepShapes(step, levels), at)
    ensures Fits(levels, r)
  {
    if step.op.Ravel? then RavelBack(step.level, levels, at)
    else
      FitsPart(step, levels, at);
      LocalBack(step, levels, at, |NewShapes(step.op, levels[step.level])|)
  }

  function RavelBack(n: nat, levels: seq<Shape>, at: seq<Index>): (r: seq<Index>)
    requires n < |levels| && Fits(levels[..n] + [Concat(levels[n..])], at)
    ensures Fits(levels, r)
  {
    var merged := levels[..n] + [Concat(levels[n..])];
    assert merged[n] == Concat(levels[n..]);
    var below := Split(at[n], levels[n..]);
    assert forall i :: 0 <= i < n ==> merged[i] == levels[i];
    FitsJoin(n, levels, at[..n], below);
    at[..n] + below
  }

  lemma {:induction false} FitsJoin(n: nat, levels: seq<Shape>, above: seq<Index>, below: seq<Index>)
    requires n <= |levels| && Fits(levels[..n], above) && Fits(levels[n..], below)
    ensures Fits(levels, above + below)
  {
  }

  function LocalBack(step: Step, levels: seq<Shape>, at: seq<Index>, count: nat): (r: seq<Index>)
    requires StepApplies(step, levels) && !step.op.Ravel? && LocalFits(step, levels, at, count)
    ensures Fits(levels, r)
  {
    var n := step.level;
    at[..n] + [BackLocal(step.op, levels[n], at[n..n + count])] + at[n + count..]
  }

  predicate LocalFits(step: Step, levels: seq<Shape>, at: seq<Index>, count: nat)
    requires StepApplies(step, levels) && !step.op.Ravel?
  {
    var n := step.level;
    && count >= 1 && |at| == |levels| + count - 1 && Fits(NewShapes(step.op, levels[n]), at[n..n + count])
    && (forall i :: 0 <= i < n ==> |at[i]| == |levels[i]|)
    && (forall i :: n < i < |levels| ==> |at[i + count - 1]| == |levels[i]|)
  }

  lemma {:induction false} FitsPart(step: Step, levels: seq<Shape>, at: seq<Index>)
    requires StepApplies(step, levels) && Fits(StepShapes(step, levels), at) && !step.op.Ravel?
    ensures LocalFits(step, levels, at, |NewShapes(step.op, levels[step.level])|)
  {
    var n, parts, all := step.level, NewShapes(step.op, levels[step.level]), StepShapes(step, levels);
    forall i | 0 <= i < |parts|
      ensures |at[n..n + |parts|][i]| == |parts[i]|
    {
      assert all[n + i] == parts[i];
    }
    forall i | n < i < |levels|
      ensures |at[i + |parts| - 1]| == |levels[i]|
    {
      assert all[i + |parts| - 1] == levels[i];
    }
    forall i | 0 <= i < n
      ensures |at[i]| == |levels[i]|
    {
      assert all[i] == levels[i];
    }
  }

  predicate ChainApplies(steps: seq<Step>, levels: seq<Shape>)
    decreases |steps|, 0
  {
    steps == [] ||
    (var before := steps[..|steps| - 1];
     ChainApplies(before, levels) && StepApplies(steps[|steps| - 1], Shapes(before, levels)))
  }

  function Shapes(steps: seq<Step>, levels: seq<Shape>): seq<Shape>
    requires ChainApplies(steps, levels)
    decreases |steps|, 1
  {
    if steps == [] then levels else StepShapes(steps[|steps| - 1], Shapes(steps[..|steps| - 1], levels))
  }

  /** `offsets_and_mask`: the levels are visited from the last recorded to the first, each
      checking its own bounds and handing its offsets on. */
  function OffsetsAndMask(steps: seq<Step>, levels: seq<Shape>, at: seq<Index>): (r: (seq<Index>, bool))
    requires ChainApplies(steps, levels) && Fits(Shapes(steps, levels), at)
    ensures Fits(levels, r.0)
    decreases |steps|
  {
    if steps == [] then (at, AllInRange(levels, at))
    else
      var before := steps[..|steps| - 1];
      var (offsets, mask) := OffsetsAndMask(before, levels, StepBack(steps[|steps| - 1], Shapes(before, levels), at));
      (offsets, AllInRange(Shapes(steps, levels), at) && mask)
  }
}
