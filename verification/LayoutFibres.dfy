/** Which view indices reach a given source index: the chain loses and repeats nothing
    but the expanded dimensions. */
module LayoutFibres {
  import opened Arithmetic
  import opened Layout

  // ----- counting -----

  ghost function UnionOf<A(!new), B(!new)>(family: map<A, set<B>>): (r: set<B>)
    ensures forall b :: b in r <==> exists a :: a in family && b in family[a]
  {
    set a, b | a in family && b in family[a] :: b
  }

  ghost predicate Disjoint<A(!new), B(!new)>(family: map<A, set<B>>) {
    forall a, a' :: a in family && a' in family && a != a' ==> family[a] !! family[a']
  }

  lemma {:induction false} UnionWithout<A(!new), B(!new)>(family: map<A, set<B>>, a: A)
    requires Disjoint(family) && a in family
    ensures Disjoint(family - {a}) && UnionOf(family) == UnionOf(family - {a}) + family[a]
    ensures UnionOf(family - {a}) !! family[a]
  {
    var rest := family - {a};
    forall b | b in UnionOf(rest)
      ensures b in UnionOf(family) && b !in family[a]
    {
      var c :| c in rest && b in rest[c];
      assert c in family && family[c] !! family[a];
    }
    forall b | b in UnionOf(family)
      ensures b in UnionOf(rest) + family[a]
    {
      var c :| c in family && b in family[c];
      assert c != a ==> c in rest;
    }
  }

  ghost predicate OfSize<A(!new), B(!new)>(family: map<A, set<B>>, k: nat) {
    forall a :: a in family ==> |family[a]| == k
  }

  lemma {:induction false} UnionSize<A(!new), B(!new)>(family: map<A, set<B>>, k: nat)
    requires Disjoint(family) && OfSize(family, k)
    ensures |UnionOf(family)| == |family| * k
    decreases |family|
  {
    if |family| == 0 {
      assert UnionOf(family) == {};
    } else {
      var a := Member(family);
      var rest := family - {a};
      UnionWithout(family, a);
      assert OfSize(rest, k) && |family[a]| == k;
      hide Disjoint, OfSize, UnionOf;
      UnionSize(rest, k);
      Distribute(|rest|, k);
    }
  }

  lemma {:induction false} Member<A(!new), B>(family: map<A, B>) returns (a: A)
    requires |family| != 0
    ensures a in family && |family - {a}| == |family| - 1
  {
    assert |family.Keys| == |family|;
    a :| a in family.Keys;
    assert family.Keys == (family - {a}).Keys + {a};
    assert |(family - {a}).Keys| == |family - {a}|;
  }

  lemma {:induction false} Distribute(n: int, k: int)
    ensures (n + 1) * k == n * k + k
  {
  }

  ghost predicate Injective<A(!new), B(!new)>(f: A -> B, s: set<A>) {
    forall a, a' :: a in s && a' in s && f(a) == f(a') ==> a == a'
  }

  ghost function Image<A(!new), B(!new)>(f: A -> B, s: set<A>): (r: set<B>)
    ensures forall b :: b in r <==> exists a :: a in s && b == f(a)
    ensures Injective(f, s) ==> |r| == |s|
    decreases |s|
  {
    if s == {} then {} else
      var a :| a in s;
      var rest := Image(f, s - {a});
      assert Injective(f, s) ==> Injective(f, s - {a}) && f(a) !in rest;
      assert forall b :: b in rest + {f(a)} <==> exists c :: c in s && b == f(c) by {
        forall b | b in rest + {f(a)}
          ensures exists c :: c in s && b == f(c)
        {
          if b in rest {
            var c :| c in s - {a} && b == f(c);
            assert c in s;
          } else {
            assert a in s && b == f(a);
          }
        }
      }
      rest + {f(a)}
  }

  ghost function Below(n: int): (r: set<int>)
    requires n >= 0
    ensures |r| == n && forall x :: x in r <==> 0 <= x < n
    decreases n
  {
    if n == 0 then {} else Below(n - 1) + {n - 1}
  }

  // ----- one operation -----

  /** The operation drops no index: tiles of their own stride and no spacing, padding that
      adds, squeezed and expanded dimensions of size one. */
  predicate Exact(op: Op, shape: Shape)
    requires Applies(op, shape)
  {
    match op
    case Tile(sizes, strides, spacing, floorMode) =>
      !floorMode && forall d :: 0 <= d < |shape| ==>
        TileSize(shape[d], sizes[d]) > 0 && TileStride(shape[d], sizes[d], strides[d]) == TileSize(shape[d], sizes[d])
            && spacing[d] == 1
    case Expand(newSizes) => forall d :: 0 <= d < |shape| ==> newSizes[d] == -1 || (newSizes[d] >= 0 && shape[d] == 1)
    case Squeeze(dims) => forall d :: 0 <= d < |shape| && d in dims ==> shape[d] == 1
    case Pad(amounts) => forall d :: 0 <= d < |shape| ==> amounts[d].0 >= 0 && amounts[d].1 >= 0
    case _ => true
  }

  /** The view index of a source index, for every operation but expand. */
  ghost function Forward(op: Op, shape: Shape, at: Index): seq<Index>
    requires Applies(op, shape) && |at| == |shape| && !op.Expand? && !op.Ravel? && Exact(op, shape)
  {
    match op
    case Tile(sizes, _, _, _) =>
      [seq(|shape|, d requires 0 <= d < |shape| => at[d] / TileSize(shape[d], sizes[d])),
       seq(|shape|, d requires 0 <= d < |shape| => at[d] % TileSize(shape[d], sizes[d]))]
    case Unsqueeze(dim) => [at[..dim] + [0] + at[dim..]]
    case Squeeze(dims) => [Kept(at, dims, 0)]
    case Permute(order) =>
      Pigeons(order, |shape|);
      [seq(|shape|, d requires 0 <= d < |shape| => at[order[d]])]
    case Flatten(start, end) =>
      var (a, b) := (Normal(start, |shape|), Normal(end, |shape|));
      [at[..a] + [Linear(at[a..b], DefaultStrides(shape[a..b]))] + at[b..]]
    case Pad(amounts) => [seq(|shape|, d requires 0 <= d < |shape| => at[d] + amounts[d].0)]
  }

  lemma {:induction false} CeilingTile(size: int, tile: int, p: int)
    requires tile > 0 && 0 <= p < size
    ensures 0 <= p / tile < OuterSize(size, tile, tile, 1, false) && 0 <= p % tile < tile
    ensures p / tile * tile + p % tile == p
  {
    assert OuterSize(size, tile, tile, 1, false) == (size - 1) / tile + 1;
    QuotientGrows(p, size - 1, tile);
    QuotientGrows(0, p, tile);
  }

  lemma {:induction false} QuotientGrows(p: int, q: int, tile: int)
    requires tile > 0 && p <= q
    ensures p / tile <= q / tile
  {
    assert p / tile * tile <= q < (q / tile + 1) * tile;
    Cancel(p / tile, q / tile + 1, tile);
  }

  lemma {:induction false} TileExact(op: Op, shape: Shape, at: Index)
    requires op.Tile? && Applies(op, shape) && Exact(op, shape) && InRange(shape, at)
    ensures AllInRange(NewShapes(op, shape), Forward(op, shape, at))
    ensures BackLocal(op, shape, Forward(op, shape, at)) == at
  {
    var x, new_ := Forward(op, shape, at), NewShapes(op, shape);
    forall d | 0 <= d < |shape|
      ensures 0 <= x[0][d] < new_[0][d] && 0 <= x[1][d] < new_[1][d]
      ensures x[0][d] * TileStride(shape[d], op.sizes[d], op.strides[d]) + x[1][d] * op.spacing[d] == at[d]
    {
      CeilingTile(shape[d], TileSize(shape[d], op.sizes[d]), at[d]);
    }
    assert BackLocal(op, shape, x) == at;
  }

  lemma {:induction false} TileUnique(op: Op, shape: Shape, x: seq<Index>)
    requires op.Tile? && Applies(op, shape) && Exact(op, shape) && AllInRange(NewShapes(op, shape), x)
    ensures Forward(op, shape, BackLocal(op, shape, x)) == x
  {
    var at := BackLocal(op, shape, x);
    forall d | 0 <= d < |shape|
      ensures at[d] / TileSize(shape[d], op.sizes[d]) == x[0][d] && at[d] % TileSize(shape[d], op.sizes[d]) == x[1][d]
    {
      assert 0 <= x[1][d] < NewShapes(op, shape)[1][d];
      Divide(x[0][d], x[1][d], TileSize(shape[d], op.sizes[d]));
      assert at[d] == x[0][d] * TileSize(shape[d], op.sizes[d]) + x[1][d];
    }
    assert Forward(op, shape, at)[0] == x[0] && Forward(op, shape, at)[1] == x[1];
    assert Forward(op, shape, at) == x;
  }

  lemma {:induction false} KeptInRange(shape: Shape, at: Index, dims: set<int>, i: int)
    requires InRange(shape, at)
    ensures InRange(Kept(shape, dims, i), Kept(at, dims, i))
    decreases |shape|
  {
    if shape != [] {
      KeptInRange(shape[1..], at[1..], dims, i + 1);
      var sizes, rest := Kept(shape[1..], dims, i + 1), Kept(at[1..], dims, i + 1);
      InRangeCons(shape[0], at[0], sizes, rest);
      hide InRange;
      if i in dims {
        assert [] + sizes == sizes && [] + rest == rest;
      }
    }
  }

  lemma {:induction false} InRangeCons(size: int, x: int, shape: Shape, at: Index)
    requires 0 <= x < size && InRange(shape, at)
    ensures InRange([size] + shape, [x] + at)
  {
  }

  lemma {:induction false} KeptRestored(shape: Shape, at: Index, dims: set<int>, i: int)
    requires |at| == |shape| && forall d :: 0 <= d < |shape| && i + d in dims ==> at[d] == 0
    ensures Restored(Kept(at, dims, i), dims, i, |shape|) == at
    decreases |shape|
  {
    if shape != [] {
      var rest := Kept(at[1..], dims, i + 1);
      forall d | 0 <= d < |shape| - 1 && i + 1 + d in dims
        ensures at[1..][d] == 0
      {
        assert i + (d + 1) in dims;
      }
      KeptRestored(shape[1..], at[1..], dims, i + 1);
      if i in dims {
        assert [] + rest == rest && at[0] == 0 && at == [0] + at[1..];
      } else {
        assert ([at[0]] + rest)[1..] == rest;
      }
    }
  }

  lemma {:induction false} RestoredKept(shape: Shape, x: Index, dims: set<int>, i: int)
    requires |x| == |Kept(shape, dims, i)|
    ensures Kept(Restored(x, dims, i, |shape|), dims, i) == x
    decreases |shape|
  {
    if shape != [] {
      if i in dims {
        RestoredKept(shape[1..], x, dims, i + 1);
        assert ([0] + Restored(x, dims, i + 1, |shape| - 1))[1..] == Restored(x, dims, i + 1, |shape| - 1);
      } else {
        RestoredKept(shape[1..], x[1..], dims, i + 1);
        assert ([x[0]] + Restored(x[1..], dims, i + 1, |shape| - 1))[1..] == Restored(x[1..], dims, i + 1, |shape| - 1);
      }
    }
  }

  lemma {:induction false} FlattenExact(op: Op, shape: Shape, at: Index)
    requires op.Flatten? && Applies(op, shape) && InRange(shape, at)
    ensures AllInRange(NewShapes(op, shape), Forward(op, shape, at))
    ensures BackLocal(op, shape, Forward(op, shape, at)) == at
  {
    hide Normal, Kept, FloorDiv;
    var a, b := Normal(op.start, |shape|), Normal(op.end, |shape|);
    var middle := shape[a..b];
    assert InRange(middle, at[a..b]) && InRange(shape[..a], at[..a]) && InRange(shape[b..], at[b..]);
    UnravelLinear(middle, at[a..b]);
    var n := Linear(at[a..b], DefaultStrides(middle));
    var x := at[..a] + [n] + at[b..];
    assert Forward(op, shape, at) == [x] && NewShapes(op, shape) == [shape[..a] + [Size(middle)] + shape[b..]];
    InRangeAround(shape[..a], Size(middle), shape[b..], at[..a], n, at[b..]);
    hide InRange, Unravel, Linear, DefaultStrides;
    assert x[..a] == at[..a] && x[a] == n && x[a + 1..] == at[b..];
    assert at == at[..a] + at[a..b] + at[b..];
  }

  lemma {:induction false} InRangeAround(before: Shape, size: int, after: Shape, x: Index, n: int, y: Index)
    requires InRange(before, x) && 0 <= n < size && InRange(after, y)
    ensures InRange(before + [size] + after, x + [n] + y)
  {
  }

  lemma {:induction false} FlattenUnique(op: Op, shape: Shape, x: seq<Index>)
    requires op.Flatten? && Applies(op, shape) && Fits(NewShapes(op, shape), x)
    ensures Forward(op, shape, BackLocal(op, shape, x)) == x
  {
    var a, b := Normal(op.start, |shape|), Normal(op.end, |shape|);
    var strides := DefaultStrides(shape[a..b]);
    LastStride(shape[a..b]);
    LinearUnravel(x[0][a], strides);
    var at := BackLocal(op, shape, x);
    assert at[..a] == x[0][..a] && at[a..b] == Unravel(x[0][a], strides) && at[b..] == x[0][a + 1..];
    assert Forward(op, shape, at)[0] == x[0];
  }

  lemma {:induction false} PermuteExact(op: Op, shape: Shape, at: Index)
    requires op.Permute? && Applies(op, shape) && InRange(shape, at)
    ensures AllInRange(NewShapes(op, shape), Forward(op, shape, at))
    ensures BackLocal(op, shape, Forward(op, shape, at)) == at
  {
    Pigeons(op.order, |shape|);
    var x := Forward(op, shape, at);
    assert BackLocal(op, shape, x) == at;
  }

  lemma {:induction false} PermuteUnique(op: Op, shape: Shape, x: seq<Index>)
    requires op.Permute? && Applies(op, shape) && Fits(NewShapes(op, shape), x)
    ensures Forward(op, shape, BackLocal(op, shape, x)) == x
  {
    Pigeons(op.order, |shape|);
    var at := BackLocal(op, shape, x);
    forall d | 0 <= d < |shape|
      ensures at[op.order[d]] == x[0][d]
    {
      assert Position(op.order, op.order[d]) == d;
    }
    assert Forward(op, shape, at)[0] == x[0];
  }

  /** Every source index has a view index that refers to it. */
  lemma {:induction false} ForwardExact(op: Op, shape: Shape, at: Index)
    requires Applies(op, shape) && InRange(shape, at) && !op.Expand? && !op.Ravel? && Exact(op, shape)
    ensures AllInRange(NewShapes(op, shape), Forward(op, shape, at))
    ensures BackLocal(op, shape, Forward(op, shape, at)) == at
  {
    match op
    case Tile(_, _, _, _) => TileExact(op, shape, at);
    case Unsqueeze(dim) =>
      var x := Forward(op, shape, at)[0];
      assert x[..dim] == at[..dim] && x[dim + 1..] == at[dim..];
      assert at[..dim] + at[dim..] == at;
    case Squeeze(dims) =>
      KeptRestored(shape, at, dims, 0);
      KeptInRange(shape, at, dims, 0);
    case Permute(_) => PermuteExact(op, shape, at);
    case Flatten(_, _) => FlattenExact(op, shape, at);
    case Pad(_) => assert BackLocal(op, shape, Forward(op, shape, at)) == at;
  }

  /** ... and no other view index in range does. */
  lemma {:induction false} ForwardUnique(op: Op, shape: Shape, x: seq<Index>)
    requires Applies(op, shape) && !op.Expand? && !op.Ravel? && Exact(op, shape) && AllInRange(NewShapes(op, shape), x)
    ensures Forward(op, shape, BackLocal(op, shape, x)) == x
  {
    match op
    case Tile(_, _, _, _) => TileUnique(op, shape, x);
    case Unsqueeze(dim) =>
      var at := BackLocal(op, shape, x);
      assert InRange(NewShapes(op, shape)[0], x[0]) && NewShapes(op, shape)[0][dim] == 1;
      assert at[..dim] == x[0][..dim] && at[dim..] == x[0][dim + 1..];
      assert x[0] == x[0][..dim] + [x[0][dim]] + x[0][dim + 1..];
    case Squeeze(dims) => RestoredKept(shape, x[0], dims, 0);
    case Permute(_) => PermuteUnique(op, shape, x);
    case Flatten(_, _) => FlattenUnique(op, shape, x);
    case Pad(_) => assert Forward(op, shape, BackLocal(op, shape, x))[0] == x[0];
  }

  ghost function Headed(h: int, tails: set<Index>): (r: set<Index>)
    ensures |r| == |tails|
    ensures forall y :: y in r <==> y != [] && y[0] == h && y[1..] in tails
  {
    assert forall t: Index :: ([h] + t)[1..] == t;
    assert forall y: Index :: y != [] ==> y == [y[0]] + y[1..];
    Image((t: Index) => [h] + t, tails)
  }

  ghost function Prepended(heads: set<int>, tails: set<Index>): (r: set<Index>)
    ensures |r| == |heads| * |tails|
    ensures forall y :: y in r <==> y != [] && y[0] in heads && y[1..] in tails
  {
    var family := map h | h in heads :: Headed(h, tails);
    assert family.Keys == heads;
    assert Disjoint(family);
    assert OfSize(family, |tails|);
    UnionSize(family, |tails|);
    UnionOf(family)
  }

  ghost predicate Expands(newSizes: seq<int>, at: Index, y: Index)
    requires |newSizes| == |at|
  {
    |y| == |at| && forall d :: 0 <= d < |at| ==> if newSizes[d] == -1 then y[d] == at[d] else 0 <= y[d] < newSizes[d]
  }

  /** Everything an expanded tensor reads from `at`: any index along expanded dimensions. */
  ghost function Expansions(newSizes: seq<int>, at: Index): (r: set<Index>)
    requires |newSizes| == |at| && forall d :: 0 <= d < |at| ==> newSizes[d] == -1 || newSizes[d] >= 0
    ensures |r| == Copies(newSizes)
    ensures forall y :: y in r <==> Expands(newSizes, at, y)
    decreases |at|
  {
    if at == [] then {[]}
    else
      var heads := if newSizes[0] == -1 then {at[0]} else Below(newSizes[0]);
      var tails := Expansions(newSizes[1..], at[1..]);
      ExpansionMembers(newSizes, at, heads, tails);
      Prepended(heads, tails)
  }

  lemma {:induction false} ExpansionMembers(newSizes: seq<int>, at: Index, heads: set<int>, tails: set<Index>)
    requires |newSizes| == |at| && at != []
    requires forall x :: x in heads <==> if newSizes[0] == -1 then x == at[0] else 0 <= x < newSizes[0]
    requires forall y :: y in tails <==> Expands(newSizes[1..], at[1..], y)
    ensures forall y :: y in Prepended(heads, tails) <==> Expands(newSizes, at, y)
  {
    forall y: Index | |y| == |at|
      ensures (y[0] in heads && y[1..] in tails) <==> Expands(newSizes, at, y)
    {
      if y[0] in heads && y[1..] in tails {
        assert Expands(newSizes[1..], at[1..], y[1..]);
        forall d | 0 <= d < |at|
          ensures if newSizes[d] == -1 then y[d] == at[d] else 0 <= y[d] < newSizes[d]
        {
          if d > 0 {
            assert y[d] == y[1..][d - 1] && newSizes[1..][d - 1] == newSizes[d];
          }
        }
      }
    }
  }

  /** The product of the expanded sizes. */
  function Copies(newSizes: seq<int>): (n: nat)
    requires forall d :: 0 <= d < |newSizes| ==> newSizes[d] == -1 || newSizes[d] >= 0
  {
    if newSizes == [] then 1 else (if newSizes[0] == -1 then 1 else newSizes[0]) * Copies(newSizes[1..])
  }

  function LocalCopies(op: Op, shape: Shape): nat
    requires Applies(op, shape) && Exact(op, shape)
  {
    if op.Expand? then Copies(op.newSizes) else 1
  }

  ghost function LocalFibre(op: Op, shape: Shape, at: Index): (r: set<seq<Index>>)
    requires Applies(op, shape) && Exact(op, shape) && InRange(shape, at) && !op.Ravel?
    ensures |r| == LocalCopies(op, shape)
  {
    if op.Expand? then Image((y: Index) => [y], Expansions(op.newSizes, at))
    else {Forward(op, shape, at)}
  }

  /** An expanded dimension reads index 0 of its size-one source, whatever the view index. */
  lemma {:induction false} ExpandReads(op: Op, shape: Shape, at: Index, y: Index)
    requires op.Expand? && Applies(op, shape) && Exact(op, shape) && InRange(shape, at)
    ensures Expands(op.newSizes, at, y) <==> AllInRange(NewShapes(op, shape), [y]) && BackLocal(op, shape, [y]) == at
  {
    var sizes := NewShapes(op, shape)[0];
    if |y| == |at| {
      var back := BackLocal(op, shape, [y]);
      assert forall d :: 0 <= d < |at| ==>
          back[d] == (if op.newSizes[d] == -1 then y[d] else 0)
          && sizes[d] == (if op.newSizes[d] != -1 then op.newSizes[d] else shape[d]);
      hide BackLocal, NewShapes;
      if Expands(op.newSizes, at, y) {
        assert back == at;
      }
    }
  }

  lemma {:induction false} ExpandMembers(op: Op, shape: Shape, at: Index, x: seq<Index>)
    requires op.Expand? && Applies(op, shape) && Exact(op, shape) && InRange(shape, at)
    ensures x in LocalFibre(op, shape, at) <==> AllInRange(NewShapes(op, shape), x) && BackLocal(op, shape, x) == at
  {
    assert x in LocalFibre(op, shape, at) <==> exists y :: y in Expansions(op.newSizes, at) && x == [y];
    assert |x| == 1 ==> x == [x[0]];
    assert |NewShapes(op, shape)| == 1;
    hide Exact, BackLocal, LocalFibre, InRange, Expands, NewShapes;
    if |x| == 1 {
      ExpandReads(op, shape, at, x[0]);
    }
  }

  /** The view indices of one operation that refer to `at` are exactly its fibre. */
  lemma {:induction false} LocalFibreMembers(op: Op, shape: Shape, at: Index, x: seq<Index>)
    requires Applies(op, shape) && Exact(op, shape) && InRange(shape, at) && !op.Ravel?
    ensures x in LocalFibre(op, shape, at) <==> AllInRange(NewShapes(op, shape), x) && BackLocal(op, shape, x) == at
  {
    if op.Expand? {
      ExpandMembers(op, shape, at, x);
    } else {
      ForwardExact(op, shape, at);
      hide Exact, Forward, NewShapes, BackLocal, Applies, InRange;
      if AllInRange(NewShapes(op, shape), x) {
        ForwardUnique(op, shape, x);
      }
    }
  }
}
