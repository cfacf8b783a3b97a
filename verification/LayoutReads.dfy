/** What a view reads, operation by operation: the extents of the view, and which element of the
    tensor below each of its elements is. */
module LayoutReads {
  import opened Arithmetic
  import opened Layout

  function Back(op: Op, shape: Shape, at: Index): Index
    requires Applies(op, shape) && !op.Ravel? && !op.Tile? && |at| == |NewShapes(op, shape)[0]|
  {
    BackLocal(op, shape, [at])
  }

  /** `permute`: dimension `d` of the view runs along dimension `order[d]` of the tensor. */
  lemma {:induction false} PermuteReads(order: seq<int>, shape: Shape, at: Index, d: nat)
    requires Applies(Permute(order), shape) && |at| == |shape| && d < |shape|
    ensures 0 <= order[d] < |shape|
    ensures NewShapes(Permute(order), shape)[0][d] == shape[order[d]]
    ensures Back(Permute(order), shape, at)[order[d]] == at[d]
  {
    Pigeons(order, |shape|);
    var k := Position(order, order[d]);
    assert order[k] == order[d];
  }

  /** `pad`: as many elements come before the tensor's first as the first amount says, and as many
      after its last as the second; in between element `k` is at `left + k`. */
  lemma {:induction false} PadReads(amounts: seq<(int, int)>, shape: Shape, at: Index, d: nat)
    requires Applies(Pad(amounts), shape) && |at| == |shape| && d < |shape|
    ensures
      var (left, right), size := amounts[d], NewShapes(Pad(amounts), shape)[0][d];
      var below := Back(Pad(amounts), shape, at)[d];
      && at[d] == left + below
      && (0 <= below < shape[d] <==> left <= at[d] < size - right)
  {
  }

  /** `expand`: a dimension with a new extent repeats its first element, the others stay. */
  lemma {:induction false} ExpandReads(newSizes: seq<int>, shape: Shape, at: Index, d: nat)
    requires Applies(Expand(newSizes), shape) && |at| == |shape| && d < |shape|
    ensures
      var size, below := NewShapes(Expand(newSizes), shape)[0][d], Back(Expand(newSizes), shape, at)[d];
      if newSizes[d] == -1 then size == shape[d] && below == at[d] else size == newSizes[d] && below == 0
  {
  }

  /** `unsqueeze`: the new dimension has one element and is left out of the index. */
  lemma {:induction false} UnsqueezeReads(dim: nat, shape: Shape, at: Index, d: nat)
    requires Applies(Unsqueeze(dim), shape) && |at| == |shape| + 1 && d < |shape|
    ensures
      var view, below := NewShapes(Unsqueeze(dim), shape)[0], Back(Unsqueeze(dim), shape, at);
      var there := if d < dim then d else d + 1;
      |view| == |shape| + 1 && view[dim] == 1 && view[there] == shape[d] && below[d] == at[there]
  {
  }

  /** How many of the dimensions before `d` are kept. */
  function KeptBefore(dims: set<int>, d: nat): nat {
    if d == 0 then 0 else KeptBefore(dims, d - 1) + if d - 1 in dims then 0 else 1
  }

  lemma {:induction false} KeptAt(xs: seq<int>, dims: set<int>, d: nat)
    requires d <= |xs|
    ensures |Kept(xs, dims, 0)| == KeptBefore(dims, |xs|)
    ensures KeptBefore(dims, d) <= |Kept(xs, dims, 0)|
    ensures d < |xs| && d !in dims ==>
        KeptBefore(dims, d) < |Kept(xs, dims, 0)| && Kept(xs, dims, 0)[KeptBefore(dims, d)] == xs[d]
    decreases |xs|
  {
    if xs == [] {
    } else {
      var n := |xs| - 1;
      KeptSnoc(xs[..n], xs[n], dims, 0);
      assert xs == xs[..n] + [xs[n]];
      KeptAt(xs[..n], dims, if d <= n then d else n);
    }
  }

  lemma {:induction false} KeptFirst(xs: seq<int>, dims: set<int>, i: int)
    requires xs != []
    ensures Kept(xs, dims, i) == (if i in dims then [] else [xs[0]]) + Kept(xs[1..], dims, i + 1)
  {
  }

  lemma {:induction false} KeptSnoc(xs: seq<int>, x: int, dims: set<int>, i: int)
    ensures Kept(xs + [x], dims, i) == Kept(xs, dims, i) + if i + |xs| in dims then [] else [x]
    decreases |xs|
  {
    var all := xs + [x];
    if xs == [] {
      assert all == [x] && all[1..] == [];
      assert Kept(all[1..], dims, i + 1) == [];
    } else {
      assert all[0] == xs[0] && all[1..] == xs[1..] + [x];
      KeptSnoc(xs[1..], x, dims, i + 1);
      KeptFirst(all, dims, i);
      KeptFirst(xs, dims, i);
    }
  }

  /** `squeeze`: the kept dimensions stay in order, the others are read at zero. */
  lemma {:induction false} SqueezeReads(dims: set<int>, shape: Shape, at: Index, d: nat)
    requires |at| == |NewShapes(Squeeze(dims), shape)[0]| && d < |shape|
    ensures
      var view, below, k := NewShapes(Squeeze(dims), shape)[0], Back(Squeeze(dims), shape, at), KeptBefore(dims, d);
      if d in dims then below[d] == 0 else k < |view| && view[k] == shape[d] && below[d] == at[k]
  {
    KeptAt(shape, dims, d);
    RestoredAt(at, dims, 0, |shape|, d);
    FirstKept(dims, 0, d);
  }

  /** The kept dimensions from `i` on, before `d`. */
  function KeptBetween(dims: set<int>, i: nat, d: nat): nat
    requires i <= d
    decreases d - i
  {
    if i == d then 0 else (if i in dims then 0 else 1) + KeptBetween(dims, i + 1, d)
  }

  lemma {:induction false} FirstKept(dims: set<int>, i: nat, d: nat)
    requires i <= d
    ensures KeptBefore(dims, i) + KeptBetween(dims, i, d) == KeptBefore(dims, d)
    decreases d - i
  {
    if i < d {
      FirstKept(dims, i + 1, d);
    }
  }

  lemma {:induction false} RestoredAt(at: Index, dims: set<int>, i: nat, rank: nat, d: nat)
    requires i <= d < i + rank
    ensures
      var k, below := KeptBetween(dims, i, d), Restored(at, dims, i, rank);
      below[d - i] == if d in dims then 0 else if k < |at| then at[k] else 0
    decreases rank
  {
    if i < d {
      if i in dims {
        RestoredAt(at, dims, i + 1, rank - 1, d);
      } else {
        RestoredAt(if at == [] then [] else at[1..], dims, i + 1, rank - 1, d);
      }
    }
  }

  /** A dimension, counted from the end when it is negative. */
  function Counted(dim: int, rank: nat): int {
    if dim >= 0 then dim else rank + dim
  }

  /** Any part of at least one dimension can be flattened, named from either end. */
  lemma {:induction false} FlattenApplies(start: int, end: int, shape: Shape)
    ensures
      var a, b := Counted(start, |shape|), Counted(end, |shape|);
      Applies(Flatten(start, end), shape) <==> 0 <= a && b <= |shape| && a < b
  {
  }

  /** `flatten`: the flattened dimension counts the flattened ones in row-major order. */
  lemma {:induction false} FlattenReads(start: int, end: int, shape: Shape, at: Index)
    requires Applies(Flatten(start, end), shape) && |at| == |NewShapes(Flatten(start, end), shape)[0]|
    ensures
      var a, b := Counted(start, |shape|), Counted(end, |shape|);
      var view, below := NewShapes(Flatten(start, end), shape)[0], Back(Flatten(start, end), shape, at);
      && view == shape[..a] + [Size(shape[a..b])] + shape[b..]
      && below[..a] == at[..a] && below[b..] == at[a + 1..]
      && Linear(below[a..b], DefaultStrides(shape[a..b])) == at[a]
  {
    var a, b := Normal(start, |shape|), Normal(end, |shape|);
    var part := shape[a..b];
    LastStride(part);
    LinearUnravel(at[a], DefaultStrides(part));
    var digits, below := Unravel(at[a], DefaultStrides(part)), Back(Flatten(start, end), shape, at);
    assert below == at[..a] + digits + at[a + 1..];
    assert |digits| == b - a && below[a..b] == digits;
  }

  /** The extent of a tile and the distance between tiles, where -1 stands for the whole dimension
      and for the extent of the tile. */
  function Chosen(wanted: int, otherwise: int): int {
    if wanted != -1 then wanted else otherwise
  }

  /** `tile`: an element is its outer index strides and its inner index spacings from the start; for
      tiles side by side these are quotient and remainder. */
  lemma {:induction false} TileReads(op: Op, shape: Shape, outer: Index, inner: Index, d: nat)
    requires op.Tile? && Applies(op, shape) && |outer| == |inner| == |shape| && d < |shape|
    ensures
      var size, below := Chosen(op.sizes[d], shape[d]), BackLocal(op, shape, [outer, inner])[d];
      var stride := Chosen(op.strides[d], size);
      && NewShapes(op, shape)[1][d] == size
      && below == outer[d] * stride + inner[d] * op.spacing[d]
      && (stride == size && op.spacing[d] == 1 && 0 <= inner[d] < size ==>
            outer[d] == below / size && inner[d] == below % size)
  {
    var size, below := Chosen(op.sizes[d], shape[d]), BackLocal(op, shape, [outer, inner])[d];
    if Chosen(op.strides[d], size) == size && op.spacing[d] == 1 && 0 <= inner[d] < size {
      Decompose(below, outer[d], size, inner[d]);
    }
  }

  /** Where the last element of tile `o` is. */
  function LastOf(o: int, size: int, stride: int, spacing: int): int {
    o * stride + (size - 1) * spacing
  }

  /** How many tiles there are: in floor mode those that end inside the tensor; otherwise one more
      as long as elements are left after the last one of the tile before. */
  lemma {:induction false} TilesNeeded(op: Op, shape: Shape, d: nat, o: int)
    requires op.Tile? && Applies(op, shape) && d < |shape|
    ensures
      var size, count := Chosen(op.sizes[d], shape[d]), NewShapes(op, shape)[0][d];
      var stride, spacing := Chosen(op.strides[d], size), op.spacing[d];
      && (stride == 0 ==> count == -1)
      && (stride > 0 && op.floorMode ==> (o < count <==> LastOf(o, size, stride, spacing) < shape[d]))
      && (stride > 0 && !op.floorMode ==>
            (o < count <==> LastOf(o - 1, size, stride, spacing) + 1 < shape[d]))
  {
    var size := Chosen(op.sizes[d], shape[d]);
    var stride, spacing := Chosen(op.strides[d], size), op.spacing[d];
    var x := shape[d] - spacing * (size - 1) - 1;
    assert spacing * (size - 1) == (size - 1) * spacing;
    if stride > 0 {
      if op.floorMode {
        AtMostQuotient(x, stride, o);
      } else {
        AtMostQuotient(x + stride - 1, stride, o);
        assert (o - 1) * stride == o * stride - stride;
      }
    }
  }

  lemma {:induction false} AtMostQuotient(x: int, y: int, o: int)
    requires y > 0
    ensures o <= x / y <==> o * y <= x
  {
    FloorOf(x, y);
    if o <= x / y {
      Scale(o, x / y, y);
    } else {
      Scale(x / y + 1, o, y);
    }
  }
}
