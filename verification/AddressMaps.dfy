/** What the direct address map of a block holds: at each row-major position the mask and the
    coordinates of the lane with that position. */
module AddressMaps {
  import opened Wrappers
  import opened Arithmetic
  import opened Expressions
  import opened Bounds
  import opened Geometry
  import Linalg

  function Size(shape: seq<nat>): nat {
    if shape == [] then 1 else shape[0] * Size(shape[1..])
  }

  /** The row-major position of a lane. */
  function Position(shape: seq<nat>, lane: Lane): nat
    requires |lane| == |shape|
  {
    if shape == [] then 0 else lane[0] * Size(shape[1..]) + Position(shape[1..], lane[1..])
  }

  predicate InBlock(shape: seq<nat>, lane: Lane) {
    |lane| == |shape| && forall d :: 0 <= d < |shape| ==> lane[d] < shape[d]
  }

  lemma {:induction false} PositionBelow(shape: seq<nat>, lane: Lane)
    requires InBlock(shape, lane)
    ensures Position(shape, lane) < Size(shape)
    decreases |shape|
  {
    if shape != [] {
      PositionBelow(shape[1..], lane[1..]);
      Scale(lane[0] + 1, shape[0], Size(shape[1..]));
      assert (lane[0] + 1) * Size(shape[1..]) == lane[0] * Size(shape[1..]) + Size(shape[1..]);
    }
  }

  lemma {:induction false} LanesCounted(shape: seq<nat>)
    ensures |LanesOf(shape)| == Size(shape)
    decreases |shape|, 1, 0
  {
    if shape != [] {
      LanesCountedFrom(shape, shape[0]);
    }
  }

  lemma {:induction false} LanesCountedFrom(shape: seq<nat>, n: nat)
    requires shape != [] && n <= shape[0]
    ensures |LanesFrom(shape, n)| == n * Size(shape[1..])
    decreases |shape|, 0, n
  {
    if n > 0 {
      LanesCounted(shape[1..]);
      LanesCountedFrom(shape, n - 1);
      assert n * Size(shape[1..]) == (n - 1) * Size(shape[1..]) + Size(shape[1..]);
    }
  }

  /** Every lane of the block is listed at its row-major position. */
  lemma {:induction false} LaneAtPosition(shape: seq<nat>, lane: Lane)
    requires InBlock(shape, lane)
    ensures Position(shape, lane) < |LanesOf(shape)| && LanesOf(shape)[Position(shape, lane)] == lane
    decreases |shape|, 1, 0
  {
    LanesCounted(shape);
    PositionBelow(shape, lane);
    if shape != [] {
      LaneInFrom(shape, shape[0], lane);
    }
  }

  lemma {:induction false} LaneInFrom(shape: seq<nat>, n: nat, lane: Lane)
    requires shape != [] && n <= shape[0] && InBlock(shape, lane) && lane[0] < n
    ensures Position(shape, lane) < |LanesFrom(shape, n)| && LanesFrom(shape, n)[Position(shape, lane)] == lane
    decreases |shape|, 0, n
  {
    var rest, inner := LanesOf(shape[1..]), Position(shape[1..], lane[1..]);
    LaneAtPosition(shape[1..], lane[1..]);
    LanesCounted(shape[1..]);
    LanesCountedFrom(shape, n - 1);
    LanesCountedFrom(shape, n);
    if lane[0] < n - 1 {
      LaneInFrom(shape, n - 1, lane);
    } else {
      assert Position(shape, lane) == |LanesFrom(shape, n - 1)| + inner;
      assert [n - 1] + rest[inner] == lane;
    }
  }

  /** And every position lists a lane of the block, with that position. */
  lemma {:induction false} PositionOfLane(shape: seq<nat>, p: nat)
    requires p < |LanesOf(shape)|
    ensures InBlock(shape, LanesOf(shape)[p]) && Position(shape, LanesOf(shape)[p]) == p
    decreases |shape|, 1, 0
  {
    LanesCounted(shape);
    if shape != [] {
      PositionInFrom(shape, shape[0], p);
    }
  }

  lemma {:induction false} PositionInFrom(shape: seq<nat>, n: nat, p: nat)
    requires shape != [] && n <= shape[0] && p < |LanesFrom(shape, n)|
    ensures InBlock(shape, LanesFrom(shape, n)[p]) && Position(shape, LanesFrom(shape, n)[p]) == p
    decreases |shape|, 0, n
  {
    var before, rest := LanesFrom(shape, n - 1), LanesOf(shape[1..]);
    LanesCountedFrom(shape, n - 1);
    if p < |before| {
      PositionInFrom(shape, n - 1, p);
    } else {
      var lane := LanesFrom(shape, n)[p];
      PositionOfLane(shape[1..], p - |before|);
      assert lane == [n - 1] + rest[p - |before|];
      assert lane[1..] == rest[p - |before|];
    }
  }

  // ----- the symbols of a lane -----

  lemma {:induction false} ValueNamesDiffer(a: nat, b: nat)
    requires ValueName(a) == ValueName(b)
    ensures a == b
  {
    var prefix := "value_";
    assert ValueName(a)[|prefix|..] == Digits(a) && ValueName(b)[|prefix|..] == Digits(b);
    Linalg.DigitsInjective(a, b);
  }

  lemma {:induction false} ExtractNamesDiffer(level: nat, dim: nat, other: nat, d: nat)
    requires ExtractName(level, dim) == ExtractName(other, d)
    ensures level == other && dim == d
  {
    var prefix, a, b := "extract_", Digits(level), Digits(other);
    var x, y := a + "_" + Digits(dim), b + "_" + Digits(d);
    assert ExtractName(level, dim) == prefix + x && ExtractName(other, d) == prefix + y;
    assert (prefix + x)[|prefix|..] == x && (prefix + y)[|prefix|..] == y;
    Linalg.DigitsAreDigits(level);
    Linalg.DigitsAreDigits(other);
    assert x[|a|] == '_' && y[|b|] == '_';
    forall i | 0 <= i < |a|
      ensures Linalg.IsDigit(x[i])
    {
      assert x[i] == a[i] && a[i] in a;
    }
    forall i | 0 <= i < |b|
      ensures Linalg.IsDigit(y[i])
    {
      assert y[i] == b[i] && b[i] in b;
    }
    assert |a| == |b|;
    assert x[..|a|] == a && y[..|b|] == b;
    assert x[|a| + 1..] == Digits(dim) && y[|b| + 1..] == Digits(d);
    Linalg.DigitsInjective(level, other);
    Linalg.DigitsInjective(dim, d);
  }

  lemma {:induction false} KindsDiffer(level: nat, dim: nat, d: nat)
    ensures ExtractName(level, dim) != ValueName(d) && ValueName(d) != "outer_index"
    ensures ExtractName(level, dim) != "outer_index"
  {
    assert ExtractName(level, dim)[0] == 'e' && ValueName(d)[0] == 'v';
  }

  lemma {:induction false} LaneBound(symbols: map<string, Value>, lane: Lane)
    ensures forall d :: 0 <= d < |lane| ==>
        ValueName(d) in BindLane(symbols, lane) && BindLane(symbols, lane)[ValueName(d)] == I(lane[d])
    ensures forall x :: (forall d: nat :: x != ValueName(d)) ==>
        (x in BindLane(symbols, lane) <==> x in symbols) && (x in symbols ==> BindLane(symbols, lane)[x] == symbols[x])
    decreases |lane|
  {
    hide ValueName;
    if lane != [] {
      LaneBound(symbols, lane[..|lane| - 1]);
      forall d | 0 <= d < |lane| - 1
        ensures ValueName(d) != ValueName(|lane| - 1)
      {
        if ValueName(d) == ValueName(|lane| - 1) {
          ValueNamesDiffer(d, |lane| - 1);
        }
      }
    }
  }

  lemma {:induction false} ExtractBound(symbols: map<string, Value>, level: nat, at: seq<Value>)
    ensures forall d :: 0 <= d < |at| ==>
        ExtractName(level, d) in BindExtract(symbols, level, at)
        && BindExtract(symbols, level, at)[ExtractName(level, d)] == at[d]
    ensures forall x :: (forall d: nat :: x != ExtractName(level, d)) ==>
        (x in BindExtract(symbols, level, at) <==> x in symbols)
        && (x in symbols ==> BindExtract(symbols, level, at)[x] == symbols[x])
    decreases |at|
  {
    hide ExtractName;
    if at != [] {
      ExtractBound(symbols, level, at[..|at| - 1]);
      forall d | 0 <= d < |at| - 1
        ensures ExtractName(level, d) != ExtractName(level, |at| - 1)
      {
        if ExtractName(level, d) == ExtractName(level, |at| - 1) {
          ExtractNamesDiffer(level, d, level, |at| - 1);
        }
      }
    }
  }

  lemma {:induction false} ExtractedBound(symbols: map<string, Value>, extracted: seq<seq<Value>>)
    ensures forall l, d :: 0 <= l < |extracted| && 0 <= d < |extracted[l]| ==>
        ExtractName(l, d) in BindExtracted(symbols, extracted)
        && BindExtracted(symbols, extracted)[ExtractName(l, d)] == extracted[l][d]
    ensures forall x :: (forall l: nat, d: nat :: x != ExtractName(l, d)) ==>
        (x in BindExtracted(symbols, extracted) <==> x in symbols)
        && (x in symbols ==> BindExtracted(symbols, extracted)[x] == symbols[x])
    decreases |extracted|
  {
    hide ExtractName, BindExtract;
    if extracted != [] {
      var last, n := extracted[|extracted| - 1], |extracted| - 1;
      var before := BindExtracted(symbols, extracted[..n]);
      ExtractedBound(symbols, extracted[..n]);
      ExtractBound(before, n, last);
      forall l, d | 0 <= l < n && 0 <= d < |extracted[l]|
        ensures forall e: nat :: ExtractName(l, d) != ExtractName(n, e)
      {
        forall e: nat
          ensures ExtractName(l, d) != ExtractName(n, e)
        {
          if ExtractName(l, d) == ExtractName(n, e) {
            ExtractNamesDiffer(l, d, n, e);
          }
        }
      }
    }
  }

  /** A lane sees its own coordinates as `value_d`, the extracted ones as `extract_l_d`, the outer
      index, and the symbols of the reference under all other names. */
  lemma {:induction false} LaneSees(ref: Ref, lane: Lane)
    ensures
      var seen := LaneSymbols(ref, lane);
      && (forall d :: 0 <= d < |lane| ==> ValueName(d) in seen && seen[ValueName(d)] == I(lane[d]))
      && (forall l, d :: 0 <= l < |ref.extracted| && 0 <= d < |ref.extracted[l]| ==>
            ExtractName(l, d) in seen && seen[ExtractName(l, d)] == ref.extracted[l][d])
      && "outer_index" in seen && seen["outer_index"] == ref.outer
      && forall x | x != "outer_index" && (forall d: nat :: x != ValueName(d))
             && (forall l: nat, d: nat :: x != ExtractName(l, d)) ::
           (x in seen <==> x in ref.symbols) && (x in ref.symbols ==> seen[x] == ref.symbols[x])
  {
    hide ValueName, ExtractName, BindLane, BindExtracted;
    var outer := ref.symbols["outer_index" := ref.outer];
    ExtractedBound(outer, ref.extracted);
    LaneBound(BindExtracted(outer, ref.extracted), lane);
    forall l: nat, d: nat, e: nat
      ensures ExtractName(l, d) != ValueName(e)
    {
      KindsDiffer(l, d, e);
    }
    forall d: nat
      ensures ValueName(d) != "outer_index"
    {
      KindsDiffer(0, 0, d);
    }
    forall l: nat, d: nat
      ensures ExtractName(l, d) != "outer_index"
    {
      KindsDiffer(l, d, 0);
    }
  }

  // ----- what a lane is given -----

  /** The access of one lane: its mask and coordinates evaluate, there is one for each dimension of
      the source, and a live lane stays inside it. */
  ghost predicate LaneHolds(ref: Ref, map_: AccessMap, lane: Lane, live: bool, at: seq<int>) {
    var symbols := LaneSymbols(ref, lane);
    && Evaluate(map_.mask, symbols, Wrap).Some? && live == Truth(Evaluate(map_.mask, symbols, Wrap).value)
    && |at| == |map_.indices| == |ref.shape|
    && (forall i :: 0 <= i < |at| ==> Evaluate(map_.indices[i], symbols, Wrap) == Some(I(at[i])))
    && (live ==> forall i :: 0 <= i < |at| ==> 0 <= at[i] < ref.shape[i])
  }

  ghost predicate LaneEvaluates(ref: Ref, map_: AccessMap, lane: Lane) {
    exists live, at :: LaneHolds(ref, map_, lane, live, at)
  }

  lemma {:induction false} IntegersMean(indices: seq<Expr>, symbols: map<string, Value>)
    ensures
      var r := Integers(indices, symbols);
      if r.Some? then
        |r.value| == |indices|
        && forall i :: 0 <= i < |indices| ==> Evaluate(indices[i], symbols, Wrap) == Some(I(r.value[i]))
      else
        exists i :: 0 <= i < |indices|
            && (Evaluate(indices[i], symbols, Wrap).None? || Evaluate(indices[i], symbols, Wrap).value.B?)
    decreases |indices|
  {
    hide Evaluate;
    if indices != [] {
      var first, rest := Evaluate(indices[0], symbols, Wrap), Integers(indices[1..], symbols);
      IntegersMean(indices[1..], symbols);
      if first.Some? && first.value.I? && rest.None? {
        var i :| 0 <= i < |indices[1..]| && (Evaluate(indices[1..][i], symbols, Wrap).None?
            || Evaluate(indices[1..][i], symbols, Wrap).value.B?);
        assert indices[i + 1] == indices[1..][i];
      }
    }
  }

  /** One lane of the access: it holds what that lane evaluates to, and no other pair would. */
  lemma {:induction false} LaneExact(ref: Ref, map_: AccessMap, lane: Lane)
    ensures
      var symbols := LaneSymbols(ref, lane);
      var live, at := Evaluate(map_.mask, symbols, Wrap), Integers(map_.indices, symbols);
      var fine := live.Some? && at.Some? && |at.value| == |ref.shape|
          && (Truth(live.value) ==> Inside(at.value, ref.shape));
      && (fine ==> LaneHolds(ref, map_, lane, Truth(live.value), at.value))
      && (forall l, x :: LaneHolds(ref, map_, lane, l, x) ==> fine && l == Truth(live.value) && x == at.value)
  {
    hide Evaluate, LaneSymbols;
    var symbols := LaneSymbols(ref, lane);
    IntegersMean(map_.indices, symbols);
    var at := Integers(map_.indices, symbols);
    forall l, x | LaneHolds(ref, map_, lane, l, x)
      ensures at.Some? && x == at.value
    {
      if at.Some? {
        assert |x| == |at.value| && forall i :: 0 <= i < |x| ==> I(x[i]) == I(at.value[i]);
      }
    }
  }

  lemma {:induction false} LanesExact(ref: Ref, map_: AccessMap, lanes: seq<Lane>)
    ensures
      var r := AccessLanes(ref, map_, lanes);
      && (r.Some? ==>
            && |r.value.mask| == |r.value.coordinates| == |lanes|
            && forall p :: 0 <= p < |lanes| ==>
                 LaneHolds(ref, map_, lanes[p], r.value.mask[p], r.value.coordinates[p]))
      && (r.None? ==> exists p :: 0 <= p < |lanes| && !LaneEvaluates(ref, map_, lanes[p]))
    decreases |lanes|
  {
    hide Evaluate, LaneSymbols, Integers, LaneHolds, Inside;
    if lanes != [] {
      LaneExact(ref, map_, lanes[0]);
      LanesExact(ref, map_, lanes[1..]);
      var rest := AccessLanes(ref, map_, lanes[1..]);
      if rest.None? {
        var p :| 0 <= p < |lanes[1..]| && !LaneEvaluates(ref, map_, lanes[1..][p]);
        assert lanes[p + 1] == lanes[1..][p];
      }
    }
  }

  /** The direct address map, for every block: it exists exactly if each lane of the block evaluates
      and stays inside the source when live, and then holds at the lane's row-major position the
      mask and the coordinates of that lane. */
  lemma {:induction false} DirectAccessExact(ref: Ref, shape: seq<nat>, map_: AccessMap)
    requires ref.level + 1 == |ref.layout.levels| && ref.layout.access == Some(map_)
    requires ShapeValue(ref.layout.levels[ref.level], ref.symbols) == Some(shape)
    ensures DirectAccess(ref).Some? <==>
        forall lane :: InBlock(shape, lane) ==> LaneEvaluates(ref, map_, lane)
    ensures DirectAccess(ref).Some? ==>
        var access := DirectAccess(ref).value;
        && |access.mask| == |access.coordinates| == Size(shape)
        && forall lane :: InBlock(shape, lane) ==>
             && Position(shape, lane) < Size(shape)
             && LaneHolds(ref, map_, lane, access.mask[Position(shape, lane)],
                  access.coordinates[Position(shape, lane)])
  {
    hide LaneHolds, AccessLanes, Position;
    var lanes, r := LanesOf(shape), DirectAccess(ref);
    LanesExact(ref, map_, lanes);
    LanesCounted(shape);
    if r.Some? {
      forall lane | InBlock(shape, lane)
        ensures Position(shape, lane) < Size(shape)
        ensures LaneHolds(ref, map_, lane, r.value.mask[Position(shape, lane)],
            r.value.coordinates[Position(shape, lane)])
        ensures LaneEvaluates(ref, map_, lane)
      {
        LaneAtPosition(shape, lane);
        assert lanes[Position(shape, lane)] == lane;
      }
    } else {
      var p :| 0 <= p < |lanes| && !LaneEvaluates(ref, map_, lanes[p]);
      PositionOfLane(shape, p);
    }
  }
}
