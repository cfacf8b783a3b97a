/** When do strides give every index of a tensor its own address? */
module Strides {
  import opened Arithmetic
  import opened Sorting

  /** A dimension with more than one index: its stride without sign, and its size. */
  datatype Dim = Dim(stride: int, size: int)

  predicate InRange(shape: seq<nat>, at: seq<int>) {
    |at| == |shape| && forall d :: 0 <= d < |shape| ==> 0 <= at[d] < shape[d]
  }

  function Address(strides: seq<int>, at: seq<int>): int
    requires |at| == |strides|
  {
    if at == [] then 0 else at[0] * strides[0] + Address(strides[1..], at[1..])
  }

  /** Distinct indices have distinct addresses. */
  ghost predicate Injective(shape: seq<nat>, strides: seq<int>)
    requires |shape| == |strides|
  {
    forall x, y :: InRange(shape, x) && InRange(shape, y) && Address(strides, x) == Address(strides, y) ==> x == y
  }

  function Abs(x: int): (r: int)
    ensures r >= 0
  {
    if x < 0 then -x else x
  }

  function Dimensions(shape: seq<nat>, strides: seq<int>): seq<Dim>
    requires |shape| == |strides|
  {
    if shape == [] then []
    else (if shape[0] > 1 then [Dim(Abs(strides[0]), shape[0])] else []) + Dimensions(shape[1..], strides[1..])
  }

  predicate DimPrecedes(a: Dim, b: Dim) {
    a.stride < b.stride || (a.stride == b.stride && a.size <= b.size)
  }

  function Gcd(a: nat, b: nat): (g: nat)
    ensures a > 0 || b > 0 ==> g > 0
    decreases b
  {
    if b == 0 then a else Gcd(b, a % b)
  }

  /** The greedy test on sorted dimensions: each stride clears the span of those before. */
  predicate Clears(dims: seq<Dim>, span: int)
    requires forall i :: 0 <= i < |dims| ==> dims[i].size > 0
  {
    dims == [] || (dims[0].stride >= span && Clears(dims[1..], span + (dims[0].size - 1) * dims[0].stride))
  }

  // ----- collisions between indices -----

  predicate Feasible(e: seq<int>, dims: seq<Dim>) {
    |e| == |dims| && forall i :: 0 <= i < |dims| ==> -dims[i].size < e[i] < dims[i].size
  }

  predicate NonZero(e: seq<int>) {
    exists i :: 0 <= i < |e| && e[i] != 0
  }

  function Dot(e: seq<int>, dims: seq<Dim>): int
    requires |e| == |dims|
  {
    if e == [] then 0 else e[0] * dims[0].stride + Dot(e[1..], dims[1..])
  }

  /** Some nonzero difference of indices moves the address by nothing. */
  ghost predicate Collides(dims: seq<Dim>) {
    exists e :: Feasible(e, dims) && NonZero(e) && Dot(e, dims) == 0
  }

  lemma {:induction false} FeasibleCons(x: int, e: seq<int>, d: Dim, dims: seq<Dim>)
    ensures Feasible([x] + e, [d] + dims) <==> Feasible(e, dims) && -d.size < x < d.size
    ensures NonZero([x] + e) <==> x != 0 || NonZero(e)
    ensures |e| == |dims| ==> Dot([x] + e, [d] + dims) == x * d.stride + Dot(e, dims)
  {
    var xs, ds := [x] + e, [d] + dims;
    assert xs[1..] == e && ds[1..] == dims;
    if Feasible(xs, ds) {
      assert xs[0] == x && ds[0] == d;
      forall i | 0 <= i < |dims|
        ensures -dims[i].size < e[i] < dims[i].size
      {
        assert dims[i] == ds[i + 1] && e[i] == xs[i + 1];
      }
    }
    if Feasible(e, dims) && -d.size < x < d.size {
      forall i | 0 <= i < |ds|
        ensures -ds[i].size < xs[i] < ds[i].size
      {
        assert i > 0 ==> ds[i] == dims[i - 1] && xs[i] == e[i - 1];
      }
    }
    NonZeroCons(x, e);
  }

  lemma {:induction false} NonZeroCons(x: int, e: seq<int>)
    ensures NonZero([x] + e) <==> x != 0 || NonZero(e)
  {
    var xs := [x] + e;
    if i :| 0 <= i < |e| && e[i] != 0 {
      assert xs[i + 1] != 0;
    }
    if NonZero(xs) && x == 0 {
      var i :| 0 <= i < |xs| && xs[i] != 0;
      assert e[i - 1] != 0;
    }
    if x != 0 {
      assert xs[0] != 0;
    }
  }

  /** A step along a dimension without the sign of its stride. */
  function Unsigned(step: int, stride: int): int {
    if stride < 0 then -step else step
  }

  lemma {:induction false} UnsignedStep(step: int, stride: int)
    ensures Unsigned(step, stride) * Abs(stride) == step * stride
  {
  }

  lemma {:induction false} Apart(x: int, y: int, stride: int)
    ensures (x - y) * stride == x * stride - y * stride
  {
  }

  /** The difference of two indices, dimension by dimension. */
  lemma {:induction false} Difference(shape: seq<nat>, strides: seq<int>, x: seq<int>, y: seq<int>)
    returns (e: seq<int>)
    requires |shape| == |strides| && InRange(shape, x) && InRange(shape, y)
    ensures var dims := Dimensions(shape, strides);
            Feasible(e, dims) && Dot(e, dims) == Address(strides, x) - Address(strides, y) && (NonZero(e) <==> x != y)
  {
    if shape == [] {
      e := [];
    } else {
      RestInRange(shape, x);
      RestInRange(shape, y);
      hide Feasible, NonZero, Dot, InRange, Dimensions;
      DimensionsCons(shape, strides);
      var rest := Difference(shape[1..], strides[1..], x[1..], y[1..]);
      var dims, step := Dimensions(shape[1..], strides[1..]), Unsigned(x[0] - y[0], strides[0]);
      Apart(x[0], y[0], strides[0]);
      UnsignedStep(x[0] - y[0], strides[0]);
      assert x == [x[0]] + x[1..] && y == [y[0]] + y[1..];
      if shape[0] > 1 {
        FeasibleCons(step, rest, Dim(Abs(strides[0]), shape[0]), dims);
        e := [step] + rest;
      } else {
        assert [] + dims == dims;
        e := rest;
      }
    }
  }

  lemma {:induction false} DimensionsCons(shape: seq<nat>, strides: seq<int>)
    requires |shape| == |strides| && shape != []
    ensures Dimensions(shape, strides) == (if shape[0] > 1 then [Dim(Abs(strides[0]), shape[0])] else [])
        + Dimensions(shape[1..], strides[1..])
  {
  }

  lemma {:induction false} RestInRange(shape: seq<nat>, x: seq<int>)
    requires InRange(shape, x) && shape != []
    ensures InRange(shape[1..], x[1..]) && 0 <= x[0] < shape[0]
  {
  }

  lemma {:induction false} ConsInRange(shape: seq<nat>, x: int, xs: seq<int>)
    requires shape != [] && InRange(shape[1..], xs) && 0 <= x < shape[0]
    ensures InRange(shape, [x] + xs)
  {
    assert shape == [shape[0]] + shape[1..];
  }

  lemma {:induction false} AddressCons(strides: seq<int>, x: int, xs: seq<int>)
    requires strides != [] && |xs| == |strides| - 1
    ensures Address(strides, [x] + xs) == x * strides[0] + Address(strides[1..], xs)
  {
    assert ([x] + xs)[1..] == xs;
  }

  /** Two indices with a given difference. */
  lemma {:induction false} Separate(shape: seq<nat>, strides: seq<int>, e: seq<int>) returns (x: seq<int>, y: seq<int>)
    requires |shape| == |strides| && (forall d :: 0 <= d < |shape| ==> shape[d] > 0)
    requires Feasible(e, Dimensions(shape, strides))
    ensures InRange(shape, x) && InRange(shape, y)
    ensures Address(strides, x) - Address(strides, y) == Dot(e, Dimensions(shape, strides))
    ensures NonZero(e) ==> x != y
  {
    if shape == [] {
      x, y := [], [];
    } else {
      var x0, y0, rest := 0, 0, e;
      var dims := Dimensions(shape[1..], strides[1..]);
      DimensionsCons(shape, strides);
      if shape[0] > 1 {
        var d := Dim(Abs(strides[0]), shape[0]);
        rest := e[1..];
        assert e == [e[0]] + rest && Dimensions(shape, strides) == [d] + dims;
        FeasibleCons(e[0], rest, d, dims);
        var step := Unsigned(e[0], strides[0]);
        x0, y0 := if step > 0 then step else 0, if step < 0 then -step else 0;
        Apart(x0, y0, strides[0]);
        UnsignedStep(step, strides[0]);
        assert Unsigned(step, strides[0]) == e[0];
      } else {
        assert [] + dims == dims;
      }
      assert Feasible(rest, dims) && (NonZero(e) ==> x0 != y0 || NonZero(rest));
      assert x0 * strides[0] - y0 * strides[0] == Dot(e, Dimensions(shape, strides)) - Dot(rest, dims);
      assert 0 <= x0 < shape[0] && 0 <= y0 < shape[0];
      hide Feasible, NonZero, Dot, InRange, Dimensions;
      var xs, ys := Separate(shape[1..], strides[1..], rest);
      x, y := [x0] + xs, [y0] + ys;
      ConsInRange(shape, x0, xs);
      ConsInRange(shape, y0, ys);
      SameLength(shape[1..], xs);
      SameLength(shape[1..], ys);
      AddressCons(strides, x0, xs);
      AddressCons(strides, y0, ys);
      assert x[0] == x0 && y[0] == y0 && x[1..] == xs && y[1..] == ys;
    }
  }

  lemma {:induction false} SameLength(shape: seq<nat>, x: seq<int>)
    requires InRange(shape, x)
    ensures |x| == |shape|
  {
  }

  lemma {:induction false} InjectiveWhenApart(shape: seq<nat>, strides: seq<int>)
    requires |shape| == |strides| && !Collides(Dimensions(shape, strides))
    ensures Injective(shape, strides)
  {
    forall x, y | InRange(shape, x) && InRange(shape, y) && Address(strides, x) == Address(strides, y)
      ensures x == y
    {
      var e := Difference(shape, strides, x, y);
    }
  }

  lemma {:induction false} NotInjectiveWhenColliding(shape: seq<nat>, strides: seq<int>)
    requires |shape| == |strides| && (forall d :: 0 <= d < |shape| ==> shape[d] > 0)
    requires Collides(Dimensions(shape, strides))
    ensures !Injective(shape, strides)
  {
    var e :| Feasible(e, Dimensions(shape, strides)) && NonZero(e) && Dot(e, Dimensions(shape, strides)) == 0;
    var x, y := Separate(shape, strides, e);
  }

  // ----- the greedy test is sound -----

  lemma {:induction false} ScaleAbs(e: int, n: int, stride: int)
    requires -n < e < n && stride >= 0
    ensures Abs(e * stride) <= (n - 1) * stride && (e != 0 ==> stride <= Abs(e * stride))
  {
    AbsProduct(e, stride);
    Scale(Abs(e), n - 1, stride);
    if e != 0 {
      Scale(1, Abs(e), stride);
    }
  }

  lemma {:induction false} AbsProduct(e: int, stride: int)
    requires stride >= 0
    ensures Abs(e * stride) == Abs(e) * stride
  {
    if e < 0 {
      assert (-e) * stride == -(e * stride);
      Scale(0, -e, stride);
    } else {
      Scale(0, e, stride);
    }
  }

  /** A remainder below the span cannot be undone by dimensions that clear it. */
  lemma {:induction false} ClearedApart(dims: seq<Dim>, span: int, e: seq<int>, r: int)
    requires (forall i :: 0 <= i < |dims| ==> dims[i].size > 0) && Clears(dims, span) && Feasible(e, dims)
    requires Abs(r) < span && r + Dot(e, dims) == 0
    ensures r == 0 && !NonZero(e)
    decreases |dims|
  {
    if dims != [] {
      var d := dims[0];
      ScaleAbs(e[0], d.size, d.stride);
      ClearedApart(dims[1..], span + (d.size - 1) * d.stride, e[1..], r + e[0] * d.stride);
      assert dims == [d] + dims[1..] && e == [e[0]] + e[1..];
      FeasibleCons(e[0], e[1..], d, dims[1..]);
    }
  }

  /** Sorting the dimensions moves a difference along with them. */
  lemma {:induction false} InsertMoves(d: Dim, dims: seq<Dim>, x: int, e: seq<int>) returns (r: seq<int>)
    requires Feasible([x] + e, [d] + dims)
    ensures var all := Insert(d, dims, DimPrecedes);
            Feasible(r, all) && (NonZero(r) <==> NonZero([x] + e)) && Dot(r, all) == Dot([x] + e, [d] + dims)
    decreases |dims|
  {
    FeasibleCons(x, e, d, dims);
    if dims == [] || DimPrecedes(d, dims[0]) {
      r := [x] + e;
    } else {
      assert dims == [dims[0]] + dims[1..] && e == [e[0]] + e[1..];
      FeasibleCons(e[0], e[1..], dims[0], dims[1..]);
      FeasibleCons(x, e[1..], d, dims[1..]);
      var rest := InsertMoves(d, dims[1..], x, e[1..]);
      FeasibleCons(e[0], rest, dims[0], Insert(d, dims[1..], DimPrecedes));
      r := [e[0]] + rest;
    }
  }

  lemma {:induction false} SortMoves(dims: seq<Dim>, e: seq<int>) returns (r: seq<int>)
    requires Feasible(e, dims)
    ensures var all := Sorted(dims, DimPrecedes);
            Feasible(r, all) && (NonZero(r) <==> NonZero(e)) && Dot(r, all) == Dot(e, dims)
    decreases |dims|
  {
    if dims == [] {
      r := [];
    } else {
      assert dims == [dims[0]] + dims[1..] && e == [e[0]] + e[1..];
      FeasibleCons(e[0], e[1..], dims[0], dims[1..]);
      var rest := SortMoves(dims[1..], e[1..]);
      FeasibleCons(e[0], rest, dims[0], Sorted(dims[1..], DimPrecedes));
      r := InsertMoves(dims[0], Sorted(dims[1..], DimPrecedes), e[0], rest);
    }
  }

  lemma {:induction false} GreedySound(dims: seq<Dim>)
    requires (forall i :: 0 <= i < |Sorted(dims, DimPrecedes)| ==> Sorted(dims, DimPrecedes)[i].size > 0)
    requires Clears(Sorted(dims, DimPrecedes), 1)
    ensures !Collides(dims)
  {
    forall e | Feasible(e, dims) && Dot(e, dims) == 0
      ensures !NonZero(e)
    {
      var r := SortMoves(dims, e);
      ClearedApart(Sorted(dims, DimPrecedes), 1, r, 0);
    }
  }

  // ----- the gcd test is exact -----

  lemma {:induction false} GcdDivides(a: nat, b: nat)
    requires a > 0 || b > 0
    ensures a % Gcd(a, b) == 0 && b % Gcd(a, b) == 0
    decreases b
  {
    if b > 0 {
      GcdDivides(b, a % b);
      var g := Gcd(b, a % b);
      var q := a / b;
      assert a == q * b + a % b;
      Multiple(b, q, g);
      SumDivides(q * b, a % b, g);
    }
  }

  lemma {:induction false} Multiple(b: int, q: int, g: int)
    requires g > 0 && b % g == 0
    ensures (q * b) % g == 0
  {
    var k := b / g;
    assert b == k * g;
    assert q * b == (q * k) * g by {
      assert q * (k * g) == (q * k) * g;
    }
    TimesDivides(q * k, g);
  }

  lemma {:induction false} TimesDivides(k: int, g: int)
    requires g > 0
    ensures (k * g) % g == 0 && (k * g) / g == k
  {
    var q, r := k * g / g, k * g % g;
    assert k * g == q * g + r;
    Apart(k, q, g);
    if k > q {
      Scale(1, k - q, g);
    } else if k < q {
      Scale(k - q, -1, g);
    }
  }

  lemma {:induction false} SumDivides(x: int, y: int, g: int)
    requires g > 0 && x % g == 0 && y % g == 0
    ensures (x + y) % g == 0
  {
    assert x == (x / g) * g && y == (y / g) * g;
    assert x + y == (x / g + y / g) * g;
    TimesDivides(x / g + y / g, g);
  }

  lemma {:induction false} Bezout(a: nat, b: nat) returns (u: int, v: int)
    ensures u * a + v * b == Gcd(a, b)
    decreases b
  {
    if b == 0 {
      u, v := 1, 0;
    } else {
      var p, q := Bezout(b, a % b);
      var k := a / b;
      assert a == k * b + a % b;
      u, v := q, p - q * k;
      assert v * b == p * b - q * k * b;
      assert q * (a % b) == q * a - q * k * b;
    }
  }

  /** Coprime steps meet only after a full turn of the other. */
  lemma {:induction false} CoprimeTurn(a: int, b: int, u: int, v: int, x: int, y: int)
    requires a > 0 && b > 0 && u * a + v * b == 1 && x * a + y * b == 0 && x != 0
    ensures Abs(x) >= b
  {
    var t := v * x - u * y;
    assert x == b * t by {
      assert x == x * (u * a + v * b) == u * (x * a) + v * b * x;
      assert u * (x * a) == -(u * y * b);
      assert b * t == v * b * x - u * y * b;
    }
    if t > 0 {
      assert b * t >= b;
    } else if t < 0 {
      assert b * t <= -b;
    }
  }

  lemma {:induction false} Quotients(s1: int, s2: int) returns (g: int, a: int, b: int)
    requires s1 > 0 && s2 > 0
    ensures g == Gcd(s1, s2) && g > 0 && s1 == a * g && s2 == b * g && a == s1 / g && b == s2 / g && a > 0 && b > 0
  {
    g := Gcd(s1, s2);
    GcdDivides(s1, s2);
    a, b := s1 / g, s2 / g;
    if a <= 0 {
      Scale(a, 0, g);
    }
    if b <= 0 {
      Scale(b, 0, g);
    }
  }

  lemma {:induction false} CancelFactor(x: int, g: int)
    requires g > 0 && x * g == 0
    ensures x == 0
  {
    if x > 0 {
      Scale(1, x, g);
    } else if x < 0 {
      Scale(x, -1, g);
    }
  }

  lemma {:induction false} TwoCollide(d1: Dim, d2: Dim)
    requires d1.stride > 0 && d2.stride > 0
    requires var g := Gcd(d1.stride, d2.stride); g > 0 && d2.stride / g < d1.size && d1.stride / g < d2.size
    ensures Collides([d1, d2])
  {
    var g, a, b := Quotients(d1.stride, d2.stride);
    var e := [b, -a];
    assert b * d1.stride + (-a) * d2.stride == 0 by {
      assert b * (a * g) == a * (b * g);
    }
    DotTwo(b, -a, d1, d2);
    assert e[0] != 0;
  }

  lemma {:induction false} DotTwo(x: int, y: int, d1: Dim, d2: Dim)
    ensures Dot([x, y], [d1, d2]) == x * d1.stride + y * d2.stride
  {
    assert [x, y][1..] == [y] && [d1, d2][1..] == [d2] && [y][1..] == [] && [d2][1..] == [];
    assert Dot([y], [d2]) == y * d2.stride;
  }

  lemma {:induction false} TwoApart(d1: Dim, d2: Dim)
    requires d1.stride > 0 && d2.stride > 0
    requires var g := Gcd(d1.stride, d2.stride); g > 0 && !(d2.stride / g < d1.size && d1.stride / g < d2.size)
    ensures !Collides([d1, d2])
  {
    var g, a, b := Quotients(d1.stride, d2.stride);
    var u, v := Bezout(d1.stride, d2.stride);
    assert u * a + v * b == 1 by {
      assert (u * a + v * b - 1) * g == u * (a * g) + v * (b * g) - g;
      CancelFactor(u * a + v * b - 1, g);
    }
    forall e | Feasible(e, [d1, d2]) && Dot(e, [d1, d2]) == 0
      ensures !NonZero(e)
    {
      assert -d1.size < e[0] < d1.size && -d2.size < e[1] < d2.size by {
        assert [d1, d2][0] == d1 && [d1, d2][1] == d2;
      }
      assert e == [e[0], e[1]];
      DotTwo(e[0], e[1], d1, d2);
      assert e[0] * a + e[1] * b == 0 by {
        assert (e[0] * a + e[1] * b) * g == e[0] * (a * g) + e[1] * (b * g);
        CancelFactor(e[0] * a + e[1] * b, g);
      }
      TurnBoth(a, b, u, v, e[0], e[1]);
    }
  }

  /** Unless both steps are zero, each completes a turn of the other. */
  lemma {:induction false} TurnBoth(a: int, b: int, u: int, v: int, x: int, y: int)
    requires a > 0 && b > 0 && u * a + v * b == 1 && x * a + y * b == 0
    ensures (x == 0 && y == 0) || (Abs(x) >= b && Abs(y) >= a)
  {
    if x == 0 {
      CancelFactor(y, b);
    } else if y == 0 {
      CancelFactor(x, a);
    } else {
      CoprimeTurn(a, b, u, v, x, y);
      CoprimeTurn(b, a, v, u, y, x);
    }
  }

  lemma {:induction false} DimensionSizes(shape: seq<nat>, strides: seq<int>)
    requires |shape| == |strides|
    ensures forall i :: 0 <= i < |Dimensions(shape, strides)| ==>
        Dimensions(shape, strides)[i].size > 1 && Dimensions(shape, strides)[i].stride >= 0
  {
    if shape != [] {
      DimensionSizes(shape[1..], strides[1..]);
    }
  }

  lemma {:induction false} UnitDot(dims: seq<Dim>, i: nat) returns (e: seq<int>)
    requires i < |dims| && dims[i].stride == 0 && forall j :: 0 <= j < |dims| ==> dims[j].size > 1
    ensures Feasible(e, dims) && NonZero(e) && Dot(e, dims) == 0
  {
    assert dims == [dims[0]] + dims[1..];
    if i == 0 {
      var zeros := ZeroDot(dims[1..]);
      FeasibleCons(1, zeros, dims[0], dims[1..]);
      e := [1] + zeros;
    } else {
      var rest := UnitDot(dims[1..], i - 1);
      FeasibleCons(0, rest, dims[0], dims[1..]);
      e := [0] + rest;
    }
  }

  lemma {:induction false} ZeroDot(dims: seq<Dim>) returns (e: seq<int>)
    requires forall j :: 0 <= j < |dims| ==> dims[j].size > 1
    ensures Feasible(e, dims) && Dot(e, dims) == 0
  {
    if dims == [] {
      e := [];
    } else {
      assert dims == [dims[0]] + dims[1..];
      var rest := ZeroDot(dims[1..]);
      FeasibleCons(0, rest, dims[0], dims[1..]);
      e := [0] + rest;
    }
  }

  lemma {:induction false} DimOrder()
    ensures TotalOrder(DimPrecedes)
  {
  }

  lemma {:induction false} ClearsPrefix(dims: seq<Dim>, span: int, i: nat, at: int)
    requires (forall j :: 0 <= j < |dims| ==> dims[j].size > 0) && i <= |dims| && at == Span(dims[..i], span)
    ensures Clears(dims, span) <==> Clears(dims[..i], span) && Clears(dims[i..], at)
    decreases i
  {
    if i > 0 {
      assert dims[..i][0] == dims[0] && dims[..i][1..] == dims[1..][..i - 1] && dims[i..] == dims[1..][i - 1..];
      ClearsPrefix(dims[1..], span + (dims[0].size - 1) * dims[0].stride, i - 1, at);
    } else {
      assert dims[0..] == dims && dims[..0] == [];
    }
  }

  function Span(dims: seq<Dim>, span: int): int {
    if dims == [] then span else Span(dims[1..], span + (dims[0].size - 1) * dims[0].stride)
  }

  lemma {:induction false} SpanSnoc(dims: seq<Dim>, d: Dim, span: int)
    ensures Span(dims + [d], span) == Span(dims, span) + (d.size - 1) * d.stride
    ensures (forall j :: 0 <= j < |dims| ==> dims[j].size > 0) && d.size > 0 ==>
        (Clears(dims + [d], span) <==> Clears(dims, span) && d.stride >= Span(dims, span))
    decreases |dims|
  {
    if dims == [] {
      assert dims + [d] == [d] && [d][1..] == [];
    } else {
      assert (dims + [d])[0] == dims[0] && (dims + [d])[1..] == dims[1..] + [d];
      SpanSnoc(dims[1..], d, span + (dims[0].size - 1) * dims[0].stride);
    }
  }

  /** The dimensions of a nonempty tensor, sorted, clear one another. */
  predicate GreedyAccepts(dims: seq<Dim>) {
    var sorted := Sorted(dims, DimPrecedes);
    (forall j :: 0 <= j < |sorted| ==> sorted[j].size > 0) && Clears(sorted, 1)
  }

  lemma {:induction false} SortedSizes(dims: seq<Dim>)
    requires forall j :: 0 <= j < |dims| ==> dims[j].size > 1
    ensures forall j :: 0 <= j < |Sorted(dims, DimPrecedes)| ==> Sorted(dims, DimPrecedes)[j].size > 1
  {
    DimOrder();
    Sorts(dims, DimPrecedes);
    var sorted := Sorted(dims, DimPrecedes);
    assert forall j :: 0 <= j < |sorted| ==> sorted[j] in dims;
  }

  lemma {:induction false} NothingOccupied()
    ensures Span([], 1) == 1 && Clears([], 1)
  {
  }

  /** The loop over the sorted dimensions with the span occupied so far. */
  method Greedy(dims: seq<Dim>) returns (r: bool)
    requires forall j :: 0 <= j < |dims| ==> dims[j].size > 1
    ensures r <==> GreedyAccepts(dims)
  {
    var sorted := Sorted(dims, DimPrecedes);
    SortedSizes(dims);
    hide Sorted, Clears, Span;
    NothingOccupied();
    var occupied := 1;
    for i := 0 to |sorted|
      invariant occupied == Span(sorted[..i], 1) && Clears(sorted[..i], 1)
    {
      var d := sorted[i];
      assert sorted[..i + 1] == sorted[..i] + [d];
      SpanSnoc(sorted[..i], d, 1);
      if d.stride < occupied {
        ClearsPrefix(sorted, 1, i + 1, Span(sorted[..i + 1], 1));
        return false;
      }
      occupied := occupied + (d.size - 1) * d.stride;
    }
    assert sorted[..|sorted|] == sorted;
    r := true;
  }

  // ----- orders that clear -----

  predicate AllLarge(dims: seq<Dim>) {
    forall i :: 0 <= i < |dims| ==> dims[i].size > 1
  }

  /** Dimensions that clear one another stand by rising stride. */
  lemma {:induction false} ClearingIsSorted(dims: seq<Dim>, span: int)
    requires AllLarge(dims) && span > 0 && Clears(dims, span)
    ensures SortedBy(DimPrecedes, dims) && forall i :: 0 <= i < |dims| ==> dims[i].stride >= span
    decreases |dims|
  {
    if dims != [] {
      var d, rest := dims[0], dims[1..];
      var next := span + (d.size - 1) * d.stride;
      assert next > d.stride by {
        assert (d.size - 1) * d.stride >= d.stride;
      }
      ClearingIsSorted(rest, next);
      forall i, j | 0 <= i < j < |dims|
        ensures DimPrecedes(dims[i], dims[j])
      {
        assert dims[j] == rest[j - 1];
        if i > 0 {
          assert dims[i] == rest[i - 1];
        }
      }
    }
  }

  lemma {:induction false} SameHead(a: seq<Dim>, b: seq<Dim>)
    requires SortedBy(DimPrecedes, a) && SortedBy(DimPrecedes, b) && multiset(a) == multiset(b) && a != [] && b != []
    ensures a[0] == b[0]
  {
    hide TotalOrder;
    assert TotalOrder(DimPrecedes) by {
      DimOrder();
    }
    SortedHead(DimPrecedes, a);
    SortedHead(DimPrecedes, b);
    SameMembers(a, b);
    assert a[0] in a && b[0] in b;
    assert DimPrecedes(a[0], b[0]) && DimPrecedes(b[0], a[0]);
  }

  lemma {:induction false} SameTail(a: seq<Dim>, b: seq<Dim>)
    requires a != [] && b != [] && a[0] == b[0] && multiset(a) == multiset(b)
    ensures multiset(a[1..]) == multiset(b[1..]) && a == [a[0]] + a[1..] && b == [b[0]] + b[1..]
  {
    assert a == [a[0]] + a[1..] && b == [b[0]] + b[1..];
    assert multiset(a[1..]) == multiset(a) - multiset{a[0]} == multiset(b) - multiset{b[0]} == multiset(b[1..]);
  }

  lemma {:induction false} SortedOnce(a: seq<Dim>, b: seq<Dim>)
    requires SortedBy(DimPrecedes, a) && SortedBy(DimPrecedes, b) && multiset(a) == multiset(b)
    ensures a == b
    decreases |a|
  {
    assert |multiset(a)| == |a| && |multiset(b)| == |b|;
    if a != [] {
      SameHead(a, b);
      SameTail(a, b);
      SortedOnce(a[1..], b[1..]);
    }
  }

  /** In some order each stride clears the span of the dimensions before it. */
  ghost predicate CanClear(dims: seq<Dim>) {
    exists order :: multiset(order) == multiset(dims) && AllLarge(order) && Clears(order, 1)
  }

  /** The greedy test accepts exactly the dimensions that clear one another in some order. */
  lemma {:induction false} GreedyExact(dims: seq<Dim>)
    requires AllLarge(dims)
    ensures GreedyAccepts(dims) <==> CanClear(dims)
  {
    assert TotalOrder(DimPrecedes);
    Sorts(dims, DimPrecedes);
    SortedSizes(dims);
    if order :| multiset(order) == multiset(dims) && AllLarge(order) && Clears(order, 1) {
      ClearingIsSorted(order, 1);
      SortedOnce(order, Sorted(dims, DimPrecedes));
    }
  }

  function Volume(shape: seq<nat>): nat {
    if shape == [] then 1 else shape[0] * Volume(shape[1..])
  }

  /** Row-major without gaps; the stride of an extent of one does not matter. */
  predicate Contiguous(shape: seq<nat>, strides: seq<int>)
    requires |shape| == |strides|
  {
    shape == [] || ((shape[0] > 1 ==> strides[0] == Volume(shape[1..])) && Contiguous(shape[1..], strides[1..]))
  }

  function Reversed(dims: seq<Dim>): seq<Dim> {
    if dims == [] then [] else Reversed(dims[1..]) + [dims[0]]
  }

  lemma {:induction false} ReversedMembers(dims: seq<Dim>)
    ensures multiset(Reversed(dims)) == multiset(dims)
    decreases |dims|
  {
    if dims != [] {
      ReversedMembers(dims[1..]);
      assert dims == [dims[0]] + dims[1..];
    }
  }

  lemma {:induction false} ReversedLarge(dims: seq<Dim>)
    requires AllLarge(dims)
    ensures AllLarge(Reversed(dims))
    decreases |dims|
  {
    if dims != [] {
      ReversedLarge(dims[1..]);
    }
  }

  /** From the last dimension on, a contiguous tensor fills its span without a gap. */
  lemma {:induction false} ContiguousClears(shape: seq<nat>, strides: seq<int>)
    requires |shape| == |strides| && Contiguous(shape, strides) && forall d :: 0 <= d < |shape| ==> shape[d] > 0
    ensures
      var order := Reversed(Dimensions(shape, strides));
      AllLarge(order) && Clears(order, 1) && Span(order, 1) == Volume(shape) && Volume(shape) > 0
    decreases |shape|
  {
    if shape != [] {
      ContiguousClears(shape[1..], strides[1..]);
      var rest := Reversed(Dimensions(shape[1..], strides[1..]));
      if shape[0] > 1 {
        var d := Dim(Abs(strides[0]), shape[0]);
        var dims := Dimensions(shape, strides);
        assert dims == [d] + Dimensions(shape[1..], strides[1..]);
        assert dims[0] == d && dims[1..] == Dimensions(shape[1..], strides[1..]);
        SpanSnoc(rest, d, 1);
        assert Volume(shape) == (shape[0] - 1) * Volume(shape[1..]) + Volume(shape[1..]);
        assert Volume(shape) > 0 by {
          Scale(1, shape[0], Volume(shape[1..]));
        }
      } else {
        assert Dimensions(shape, strides) == Dimensions(shape[1..], strides[1..]);
      }
    }
  }

  /** A contiguous tensor of any rank passes every part of the test. */
  lemma {:induction false} ContiguousPasses(shape: seq<nat>, strides: seq<int>)
    requires |shape| == |strides| && Contiguous(shape, strides) && forall d :: 0 <= d < |shape| ==> shape[d] > 0
    ensures GreedyAccepts(Dimensions(shape, strides)) && Injective(shape, strides)
    ensures forall i :: 0 <= i < |Dimensions(shape, strides)| ==> Dimensions(shape, strides)[i].stride != 0
  {
    var dims := Dimensions(shape, strides);
    DimensionSizes(shape, strides);
    ContiguousClears(shape, strides);
    ReversedMembers(dims);
    GreedyExact(dims);
    assert CanClear(dims);
    ClearingIsSorted(Reversed(dims), 1);
    SameMembers(dims, Reversed(dims));
    forall i | 0 <= i < |dims|
      ensures dims[i].stride > 0
    {
      assert dims[i] in dims && dims[i] in Reversed(dims);
    }
    GreedySound(dims);
    InjectiveWhenApart(shape, strides);
  }

  /** `_tensor_has_non_overlapping_strides`. Acceptance means that distinct indices have
      distinct addresses, at any rank and for any stride signs; with at most two dimensions
      larger than one the test is also complete. */
  method HasNonOverlappingStrides(shape: seq<nat>, strides: seq<int>) returns (r: bool)
    requires |shape| == |strides|
    ensures r ==> Injective(shape, strides)
    ensures |Dimensions(shape, strides)| <= 2 ==> (r <==> Injective(shape, strides))
    ensures |Dimensions(shape, strides)| > 2 && (forall d :: 0 <= d < |shape| ==> shape[d] > 0) ==>
              (r <==>
               (forall i :: 0 <= i < |Dimensions(shape, strides)| ==> Dimensions(shape, strides)[i].stride != 0)
               && GreedyAccepts(Dimensions(shape, strides)))
    ensures Contiguous(shape, strides) || (exists d :: 0 <= d < |shape| && shape[d] == 0) ==> r
  {
    if Contiguous(shape, strides) && forall d :: 0 <= d < |shape| ==> shape[d] > 0 {
      ContiguousPasses(shape, strides);
    }
    if exists d :: 0 <= d < |shape| && shape[d] == 0 {
      EmptyInjective(shape, strides);
      return true;
    }
    var dims := Dimensions(shape, strides);
    DimensionSizes(shape, strides);
    if i :| 0 <= i < |dims| && dims[i].stride == 0 {
      var e := UnitDot(dims, i);
      NotInjectiveWhenColliding(shape, strides);
      return false;
    }
    if |dims| == 2 {
      var (first, second) := (dims[0], dims[1]);
      var divisor := Gcd(first.stride, second.stride);
      assert dims == [first, second];
      r := !(second.stride / divisor < first.size && first.stride / divisor < second.size);
      if r {
        TwoApart(first, second);
        InjectiveWhenApart(shape, strides);
      } else {
        TwoCollide(first, second);
        NotInjectiveWhenColliding(shape, strides);
      }
      return;
    }
    if |dims| < 2 {
      FewAccepted(dims);
    }
    r := Greedy(dims);
    if r {
      GreedySound(dims);
      InjectiveWhenApart(shape, strides);
    }
  }

  lemma {:induction false} FewAccepted(dims: seq<Dim>)
    requires |dims| < 2 && forall j :: 0 <= j < |dims| ==> dims[j].size > 1 && dims[j].stride > 0
    ensures GreedyAccepts(dims)
  {
    if dims != [] {
      assert dims[1..] == [] && Sorted(dims[1..], DimPrecedes) == [];
      assert Sorted(dims, DimPrecedes) == [dims[0]] && [dims[0]][1..] == [];
    }
  }

  lemma {:induction false} EmptyInjective(shape: seq<nat>, strides: seq<int>)
    requires |shape| == |strides| && exists d :: 0 <= d < |shape| && shape[d] == 0
    ensures Injective(shape, strides)
  {
    var d :| 0 <= d < |shape| && shape[d] == 0;
    forall x
      ensures !InRange(shape, x)
    {
    }
  }

  /** From three dimensions on the test is only sufficient: a layout without collisions
      that it rejects. */
  lemma {:induction false} ThreeDimensionsIncomplete()
    ensures var dims := Dimensions([3, 2, 2], [2, 3, 100]);
            |dims| == 3 && !Collides(dims) && !GreedyAccepts(dims)
  {
    var dims := [Dim(2, 3), Dim(3, 2), Dim(100, 2)];
    assert Dimensions([3, 2, 2], [2, 3, 100]) == dims by {
      ThreeDims();
    }
    forall e | Feasible(e, dims) && Dot(e, dims) == 0
      ensures !NonZero(e)
    {
      assert -3 < e[0] < 3 && -2 < e[1] < 2 && -2 < e[2] < 2 by {
        assert dims[0].size == 3 && dims[1].size == 2 && dims[2].size == 2;
      }
      DotThree(e);
    }
    ThreeSorted();
  }

  lemma {:induction false} ThreeDims()
    ensures Dimensions([3, 2, 2], [2, 3, 100]) == [Dim(2, 3), Dim(3, 2), Dim(100, 2)]
  {
    var shape: seq<nat>, strides := [3, 2, 2], [2, 3, 100];
    assert shape[1..] == [2, 2] && strides[1..] == [3, 100] && shape[2..] == [2] && strides[2..] == [100]
        && shape[3..] == [] && strides[3..] == [];
    assert shape[1..][1..] == shape[2..] && strides[1..][1..] == strides[2..] && shape[2..][1..] == shape[3..]
        && strides[2..][1..] == strides[3..];
    assert Dimensions(shape[2..], strides[2..]) == [Dim(100, 2)];
    assert Dimensions(shape[1..], strides[1..]) == [Dim(3, 2)] + [Dim(100, 2)];
    assert Dimensions(shape, strides) == [Dim(2, 3)] + Dimensions(shape[1..], strides[1..]);
  }

  lemma {:induction false} DotThree(e: seq<int>)
    requires |e| == 3
    ensures Dot(e, [Dim(2, 3), Dim(3, 2), Dim(100, 2)]) == 2 * e[0] + 3 * e[1] + 100 * e[2]
  {
    var dims := [Dim(2, 3), Dim(3, 2), Dim(100, 2)];
    assert dims[1..] == [Dim(3, 2), Dim(100, 2)] && e[1..] == [e[1], e[2]];
    DotTwo(e[1], e[2], Dim(3, 2), Dim(100, 2));
  }

  lemma {:induction false} ThreeSorted()
    ensures !GreedyAccepts([Dim(2, 3), Dim(3, 2), Dim(100, 2)])
  {
    var a, b, c := Dim(2, 3), Dim(3, 2), Dim(100, 2);
    var dims := [a, b, c];
    assert dims[1..] == [b, c] && [b, c][1..] == [c] && [c][1..] == [];
    assert Insert(c, [], DimPrecedes) == [c] && [c][0] == c;
    assert Sorted([c], DimPrecedes) == [c];
    assert DimPrecedes(b, c) && Insert(b, [c], DimPrecedes) == [b, c] && [b, c][0] == b;
    assert Sorted([b, c], DimPrecedes) == [b, c];
    assert DimPrecedes(a, b) && Insert(a, [b, c], DimPrecedes) == [a, b, c] && dims[0] == a;
    assert Sorted(dims, DimPrecedes) == dims;
    assert !Clears([b, c], 5);
    assert !Clears(dims, 1);
  }
}
