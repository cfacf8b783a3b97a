/** Arrangement chains of any length: the view indices that pass every bounds check are in
    bijection with the source indices, but for the copies that expanding makes. */
module LayoutChain {
  import opened Layout
  import opened LayoutFibres

  // ----- one step on one level of a hierarchical tensor -----

  predicate StepExact(step: Step, levels: seq<Shape>)
    requires StepApplies(step, levels)
  {
    Exact(step.op, levels[step.level])
  }

  function StepCopies(step: Step, levels: seq<Shape>): nat
    requires StepApplies(step, levels) && StepExact(step, levels)
  {
    LocalCopies(step.op, levels[step.level])
  }

  /** The view indices of one step that refer to `at`. */
  ghost function StepFibre(step: Step, levels: seq<Shape>, at: seq<Index>): (r: set<seq<Index>>)
    requires StepApplies(step, levels) && StepExact(step, levels) && AllInRange(levels, at)
    ensures |r| == StepCopies(step, levels)
  {
    var n := step.level;
    if step.op.Ravel? then {at[..n] + [Concat(at[n..])]}
    else
      var parts := LocalFibre(step.op, levels[n], at[n]);
      assert Injective((part: seq<Index>) => at[..n] + part + at[n + 1..], parts) by {
        forall a, b | a in parts && b in parts && at[..n] + a + at[n + 1..] == at[..n] + b + at[n + 1..]
          ensures a == b
        {
          LocalFibreMembers(step.op, levels[n], at[n], a);
          LocalFibreMembers(step.op, levels[n], at[n], b);
          Middle(at[..n], a, b, at[n + 1..]);
        }
      }
      Image((part: seq<Index>) => at[..n] + part + at[n + 1..], parts)
  }

  lemma {:induction false} Middle(before: seq<Index>, a: seq<Index>, b: seq<Index>, after: seq<Index>)
    requires |a| == |b| && before + a + after == before + b + after
    ensures a == b
  {
    assert a == (before + a + after)[|before|..|before| + |a|];
  }

  lemma {:induction false} SplitConcat(levels: seq<Shape>, at: seq<Index>)
    requires AllInRange(levels, at)
    ensures InRange(Concat(levels), Concat(at)) && Split(Concat(at), levels) == at
    decreases |levels|
  {
    if levels != [] {
      SplitConcat(levels[1..], at[1..]);
      var all := Concat(at);
      assert all[..|levels[0]|] == at[0] && all[|levels[0]|..] == Concat(at[1..]);
    }
  }

  lemma {:induction false} RavelFibre(n: nat, levels: seq<Shape>, at: seq<Index>, x: seq<Index>)
    requires n < |levels| && AllInRange(levels, at)
    ensures var merged := levels[..n] + [Concat(levels[n..])];
            x == at[..n] + [Concat(at[n..])] <==> AllInRange(merged, x) && RavelBack(n, levels, x) == at
  {
    var merged := levels[..n] + [Concat(levels[n..])];
    var y := at[..n] + [Concat(at[n..])];
    assert AllInRange(levels[n..], at[n..]);
    SplitConcat(levels[n..], at[n..]);
    assert AllInRange(merged, y);
    assert y[..n] == at[..n] && y[n] == Concat(at[n..]) && at[..n] + at[n..] == at;
    assert RavelBack(n, levels, y) == at;
    if AllInRange(merged, x) && RavelBack(n, levels, x) == at {
      assert merged[n] == Concat(levels[n..]);
      assert at[..n] == x[..n] && at[n..] == Split(x[n], levels[n..]);
      assert x == x[..n] + [x[n]];
    }
  }

  lemma {:induction false} AllInRangeParts(before: seq<Shape>, middle: seq<Shape>, after: seq<Shape>, x: seq<Index>)
    requires AllInRange(before + middle + after, x)
    ensures AllInRange(before, x[..|before|]) && AllInRange(middle, x[|before|..|before| + |middle|])
    ensures AllInRange(after, x[|before| + |middle|..])
  {
    hide InRange;
    var all, b, m := before + middle + after, |before|, |middle|;
    assert forall i :: 0 <= i < b ==> InRange(all[i], x[i]);
    assert forall i :: 0 <= i < m ==> all[b + i] == middle[i] && InRange(all[b + i], x[b + i]);
    assert forall i :: 0 <= i < |after| ==> all[b + m + i] == after[i] && InRange(all[b + m + i], x[b + m + i]);
  }

  lemma {:induction false} AllInRangeJoin(before: seq<Shape>, middle: seq<Shape>, after: seq<Shape>, a: seq<Index>,
          b: seq<Index>, c: seq<Index>)
    requires AllInRange(before, a) && AllInRange(middle, b) && AllInRange(after, c)
    ensures AllInRange(before + middle + after, a + b + c)
  {
    hide InRange;
  }

  /** An index of the new levels in place of level `step.level`. */
  function Placed(step: Step, at: seq<Index>, part: seq<Index>): seq<Index>
    requires step.level < |at|
  {
    at[..step.level] + part + at[step.level + 1..]
  }

  lemma {:induction false} PlacedForward(step: Step, levels: seq<Shape>, at: seq<Index>, part: seq<Index>)
    requires StepApplies(step, levels) && AllInRange(levels, at) && !step.op.Ravel?
    requires AllInRange(NewShapes(step.op, levels[step.level]), part)
    requires BackLocal(step.op, levels[step.level], part) == at[step.level]
    ensures AllInRange(StepShapes(step, levels), Placed(step, at, part))
    ensures StepBack(step, levels, Placed(step, at, part)) == at
  {
    hide NewShapes, BackLocal, Applies, InRange;
    var n, parts, x := step.level, NewShapes(step.op, levels[step.level]), Placed(step, at, part);
    assert AllInRange(levels[..n], at[..n]) && AllInRange(levels[n + 1..], at[n + 1..]);
    assert x[..n] == at[..n] && x[n..n + |parts|] == part && x[n + |parts|..] == at[n + 1..];
    AllInRangeJoin(levels[..n], parts, levels[n + 1..], at[..n], part, at[n + 1..]);
    assert at == at[..n] + [at[n]] + at[n + 1..];
    AllInRangeFits(StepShapes(step, levels), x);
    FitsPart(step, levels, x);
  }

  lemma {:induction false} StepBackParts(step: Step, levels: seq<Shape>, x: seq<Index>)
    requires StepApplies(step, levels) && !step.op.Ravel? && Fits(StepShapes(step, levels), x)
    ensures var n, parts := step.level, NewShapes(step.op, levels[step.level]);
            n + |parts| <= |x| && Fits(parts, x[n..n + |parts|])
            && StepBack(step, levels, x) == x[..n] + [BackLocal(step.op, levels[n], x[n..n + |parts|])]
                + x[n + |parts|..]
  {
    hide NewShapes, BackLocal, Applies;
    FitsPart(step, levels, x);
  }

  lemma {:induction false} PlacedBackward(step: Step, levels: seq<Shape>, at: seq<Index>, x: seq<Index>)
    returns (part: seq<Index>)
    requires StepApplies(step, levels) && !step.op.Ravel?
    requires AllInRange(StepShapes(step, levels), x) && Fits(StepShapes(step, levels), x)
    requires StepBack(step, levels, x) == at
    ensures AllInRange(NewShapes(step.op, levels[step.level]), part)
    ensures BackLocal(step.op, levels[step.level], part) == at[step.level]
    ensures x == Placed(step, at, part)
  {
    hide AllInRange;
    var n, parts := step.level, NewShapes(step.op, levels[step.level]);
    assert StepShapes(step, levels) == levels[..n] + parts + levels[n + 1..];
    hide NewShapes, BackLocal, Applies, InRange, StepBack, StepShapes, Fits;
    StepBackParts(step, levels, x);
    AllInRangeParts(levels[..n], parts, levels[n + 1..], x);
    part := x[n..n + |parts|];
    assert at[..n] == x[..n] && at[n + 1..] == x[n + |parts|..];
  }

  lemma {:induction false} AllInRangeFits(levels: seq<Shape>, x: seq<Index>)
    requires AllInRange(levels, x)
    ensures Fits(levels, x)
  {
  }

  lemma {:induction false} LocalStepFibre(step: Step, levels: seq<Shape>, at: seq<Index>, x: seq<Index>)
    requires StepApplies(step, levels) && StepExact(step, levels) && AllInRange(levels, at) && !step.op.Ravel?
    ensures x in StepFibre(step, levels, at) <==>
        AllInRange(StepShapes(step, levels), x) && StepBack(step, levels, x) == at
  {
    var n := step.level;
    assert x in StepFibre(step, levels, at) <==>
        exists part :: part in LocalFibre(step.op, levels[n], at[n]) && x == Placed(step, at, part);
    hide StepFibre, StepBack, NewShapes, BackLocal, Applies, InRange, Placed, LocalFibre, Exact, StepShapes;
    if part :| part in LocalFibre(step.op, levels[n], at[n]) && x == Placed(step, at, part) {
      LocalFibreMembers(step.op, levels[n], at[n], part);
      PlacedForward(step, levels, at, part);
    }
    if AllInRange(StepShapes(step, levels), x) && StepBack(step, levels, x) == at {
      AllInRangeFits(StepShapes(step, levels), x);
      var part := PlacedBackward(step, levels, at, x);
      LocalFibreMembers(step.op, levels[n], at[n], part);
    }
  }

  lemma {:induction false} StepFibreMembers(step: Step, levels: seq<Shape>, at: seq<Index>, x: seq<Index>)
    requires StepApplies(step, levels) && StepExact(step, levels) && AllInRange(levels, at)
    ensures x in StepFibre(step, levels, at) <==>
        AllInRange(StepShapes(step, levels), x) && StepBack(step, levels, x) == at
  {
    if step.op.Ravel? {
      RavelFibre(step.level, levels, at, x);
    } else {
      LocalStepFibre(step, levels, at, x);
    }
  }

  // ----- chains -----

  predicate ChainExact(steps: seq<Step>, levels: seq<Shape>)
    requires ChainApplies(steps, levels)
    decreases |steps|
  {
    steps == [] ||
    (var before := steps[..|steps| - 1];
     ChainExact(before, levels) && StepExact(steps[|steps| - 1], Shapes(before, levels)))
  }

  /** The product of all expanded sizes. */
  function ChainCopies(steps: seq<Step>, levels: seq<Shape>): nat
    requires ChainApplies(steps, levels) && ChainExact(steps, levels)
    decreases |steps|
  {
    if steps == [] then 1 else
      var before := steps[..|steps| - 1];
      ChainCopies(before, levels) * StepCopies(steps[|steps| - 1], Shapes(before, levels))
  }

  /** All view indices that refer to the source index `at`. */
  ghost function Fibre(steps: seq<Step>, levels: seq<Shape>, at: seq<Index>): (r: set<seq<Index>>)
    requires ChainApplies(steps, levels) && ChainExact(steps, levels) && AllInRange(levels, at)
    ensures forall x :: x in r ==> AllInRange(Shapes(steps, levels), x)
    decreases |steps|
  {
    if steps == [] then {at} else
      var before, last := steps[..|steps| - 1], steps[|steps| - 1];
      var middle := Shapes(before, levels);
      var inner := Fibre(before, levels, at);
      var family := map y | y in inner :: StepFibre(last, middle, y);
      assert forall x :: x in UnionOf(family) ==> AllInRange(Shapes(steps, levels), x) by {
        forall x | x in UnionOf(family)
          ensures AllInRange(Shapes(steps, levels), x)
        {
          var y :| y in family && x in family[y];
          StepFibreMembers(last, middle, y, x);
        }
      }
      UnionOf(family)
  }

  /** What offsets and mask compute, seen from the last step. */
  lemma {:induction false} FibreMembers(steps: seq<Step>, levels: seq<Shape>, at: seq<Index>, x: seq<Index>)
    requires ChainApplies(steps, levels) && ChainExact(steps, levels) && AllInRange(levels, at)
    requires Fits(Shapes(steps, levels), x)
    ensures x in Fibre(steps, levels, at) <==> OffsetsAndMask(steps, levels, x) == (at, true)
    decreases |steps|
  {
    if steps != [] {
      var before, last := steps[..|steps| - 1], steps[|steps| - 1];
      var middle := Shapes(before, levels);
      var inner := Fibre(before, levels, at);
      var y := StepBack(last, middle, x);
      FibreMembers(before, levels, at, y);
      var family := map y | y in inner :: StepFibre(last, middle, y);
      assert Fibre(steps, levels, at) == UnionOf(family);
      assert OffsetsAndMask(steps, levels, x) ==
          (OffsetsAndMask(before, levels, y).0,
          AllInRange(Shapes(steps, levels), x) && OffsetsAndMask(before, levels, y).1);
      hide ChainExact, Fibre, OffsetsAndMask;
      if x in UnionOf(family) {
        var z :| z in family && x in family[z];
        StepFibreMembers(last, middle, z, x);
      }
      if AllInRange(Shapes(steps, levels), x) && y in inner {
        StepFibreMembers(last, middle, y, x);
        assert x in family[y];
      }
    }
  }

  lemma {:induction false} StepFibresApart(step: Step, levels: seq<Shape>, inner: set<seq<Index>>,
          family: map<seq<Index>, set<seq<Index>>>)
    requires StepApplies(step, levels) && StepExact(step, levels) && forall y :: y in inner ==> AllInRange(levels, y)
    requires family == map y | y in inner :: StepFibre(step, levels, y)
    ensures Disjoint(family) && OfSize(family, StepCopies(step, levels)) && |family| == |inner|
  {
    hide StepFibre, StepApplies, StepExact, AllInRange;
    forall y, z | y in family && z in family && y != z
      ensures family[y] !! family[z]
    {
      forall x | x in family[y]
        ensures x !in family[z]
      {
        StepFibreMembers(step, levels, y, x);
        StepFibreMembers(step, levels, z, x);
      }
    }
    assert family.Keys == inner;
  }

  /** Conservation: every source index is read through exactly as many view indices as the
      chain expands it to. */
  lemma {:induction false} FibreSize(steps: seq<Step>, levels: seq<Shape>, at: seq<Index>)
    requires ChainApplies(steps, levels) && ChainExact(steps, levels) && AllInRange(levels, at)
    ensures |Fibre(steps, levels, at)| == ChainCopies(steps, levels)
    decreases |steps|
  {
    if steps != [] {
      var before, last := steps[..|steps| - 1], steps[|steps| - 1];
      var middle := Shapes(before, levels);
      var inner := Fibre(before, levels, at);
      FibreSize(before, levels, at);
      var family := map y | y in inner :: StepFibre(last, middle, y);
      StepFibresApart(last, middle, inner, family);
      UnionSize(family, StepCopies(last, middle));
    }
  }

  predicate ExpandsNothing(steps: seq<Step>) {
    forall i :: 0 <= i < |steps| ==> !steps[i].op.Expand?
  }

  lemma {:induction false} NoCopies(steps: seq<Step>, levels: seq<Shape>)
    requires ChainApplies(steps, levels) && ChainExact(steps, levels) && ExpandsNothing(steps)
    ensures ChainCopies(steps, levels) == 1
    decreases |steps|
  {
    if steps != [] {
      NoCopies(steps[..|steps| - 1], levels);
    }
  }

  /** A masked view index refers to a source index in range. */
  lemma {:induction false} MaskedIsInSource(steps: seq<Step>, levels: seq<Shape>, x: seq<Index>)
    requires ChainApplies(steps, levels) && Fits(Shapes(steps, levels), x) && OffsetsAndMask(steps, levels, x).1
    ensures AllInRange(levels, OffsetsAndMask(steps, levels, x).0) && AllInRange(Shapes(steps, levels), x)
    decreases |steps|
  {
    if steps != [] {
      var before := steps[..|steps| - 1];
      MaskedIsInSource(before, levels, StepBack(steps[|steps| - 1], Shapes(before, levels), x));
    }
  }

  /** For any chain of default-stride tiles, permute, unsqueeze, squeeze of size-one
      dimensions, flatten, ravel and non-negative pad, at any level of the hierarchy and on
      any source shape, the view indices whose accumulated mask is true are in bijection
      with the source indices. */
  lemma {:induction false} ArrangementIsBijective(steps: seq<Step>, levels: seq<Shape>)
    requires ChainApplies(steps, levels) && ChainExact(steps, levels) && ExpandsNothing(steps)
    ensures forall x :: Fits(Shapes(steps, levels), x) && OffsetsAndMask(steps, levels, x).1 ==>
        AllInRange(levels, OffsetsAndMask(steps, levels, x).0)
    ensures forall x, y ::
              (Fits(Shapes(steps, levels), x) && Fits(Shapes(steps, levels), y) && OffsetsAndMask(steps, levels, x).1
               && OffsetsAndMask(steps, levels, x) == OffsetsAndMask(steps, levels, y)) ==>
                x == y
    ensures forall at :: AllInRange(levels, at) ==>
        exists x :: Fits(Shapes(steps, levels), x) && OffsetsAndMask(steps, levels, x) == (at, true)
  {
    NoCopies(steps, levels);
    forall x | Fits(Shapes(steps, levels), x) && OffsetsAndMask(steps, levels, x).1
      ensures AllInRange(levels, OffsetsAndMask(steps, levels, x).0)
    {
      MaskedIsInSource(steps, levels, x);
    }
    forall x, y | Fits(Shapes(steps, levels), x) && Fits(Shapes(steps, levels), y) && OffsetsAndMask(steps, levels, x).1
              && OffsetsAndMask(steps, levels, x) == OffsetsAndMask(steps, levels, y)
      ensures x == y
    {
      MaskedIsInSource(steps, levels, x);
      var at := OffsetsAndMask(steps, levels, x).0;
      FibreMembers(steps, levels, at, x);
      FibreMembers(steps, levels, at, y);
      FibreSize(steps, levels, at);
      OnlyMember(Fibre(steps, levels, at), x, y);
    }
    forall at | AllInRange(levels, at)
      ensures exists x :: Fits(Shapes(steps, levels), x) && OffsetsAndMask(steps, levels, x) == (at, true)
    {
      FibreSize(steps, levels, at);
      var x := SomeMember(Fibre(steps, levels, at));
      FibreMembers(steps, levels, at, x);
    }
  }

  lemma {:induction false} OnlyMember<T>(s: set<T>, x: T, y: T)
    requires |s| == 1 && x in s && y in s
    ensures x == y
  {
    var rest := s - {x};
    assert |rest| == 0;
    assert y !in rest;
  }

  lemma {:induction false} SomeMember<T>(s: set<T>) returns (x: T)
    requires |s| > 0
    ensures x in s
  {
    x :| x in s;
  }

  method CheckBounds(shape: Shape, at: Index, mask: bool) returns (r: bool)
    requires |at| == |shape|
    ensures r == (mask && InRange(shape, at))
  {
    r := mask;
    for d := 0 to |shape|
      invariant r == (mask && forall e :: 0 <= e < d ==> 0 <= at[e] < shape[e])
    {
      r := r && at[d] < shape[d];
      r := r && at[d] >= 0;
    }
  }

  /** The levels that a step has created; the others are checked where they were created. */
  predicate NewInRange(step: Step, levels: seq<Shape>, x: seq<Index>)
    requires StepApplies(step, levels) && Fits(StepShapes(step, levels), x)
  {
    forall i :: step.level <= i < step.level + NewCount(step) ==> i < |x| && InRange(StepShapes(step, levels)[i], x[i])
  }

  function NewCount(step: Step): nat {
    if step.op.Tile? then 2 else 1
  }

  lemma {:induction false} OthersInRange(step: Step, levels: seq<Shape>, x: seq<Index>)
    requires StepApplies(step, levels) && Fits(StepShapes(step, levels), x)
    requires AllInRange(levels, StepBack(step, levels, x))
    ensures step.level + NewCount(step) <= |x|
    ensures AllInRange(StepShapes(step, levels), x) <==> NewInRange(step, levels, x)
  {
    hide InRange, NewShapes, BackLocal, Applies, Split, Concat;
    var n, shapes, back := step.level, StepShapes(step, levels), StepBack(step, levels, x);
    if !step.op.Ravel? {
      FitsPart(step, levels, x);
      var count := |NewShapes(step.op, levels[n])|;
      assert count == NewCount(step);
      forall i | 0 <= i < |x| && !(n <= i < n + count)
        ensures InRange(shapes[i], x[i])
      {
        if i < n {
          assert shapes[i] == levels[i] && x[i] == back[i];
        } else {
          assert shapes[i] == levels[i - count + 1] && x[i] == back[i - count + 1];
        }
      }
    } else {
      forall i | 0 <= i < n
        ensures InRange(shapes[i], x[i])
      {
        assert shapes[i] == levels[i] && x[i] == back[i];
      }
    }
  }

  method CheckStep(step: Step, levels: seq<Shape>, x: seq<Index>, mask: bool) returns (r: bool)
    requires StepApplies(step, levels) && Fits(StepShapes(step, levels), x)
    ensures r == (mask && NewInRange(step, levels, x))
  {
    r := mask;
    var shapes := StepShapes(step, levels);
    var i := step.level;
    while i < step.level + NewCount(step)
      invariant step.level <= i <= step.level + NewCount(step)
      invariant r == (mask && forall j :: step.level <= j < i ==> j < |x| && InRange(shapes[j], x[j]))
    {
      r := CheckBounds(shapes[i], x[i], r);
      i := i + 1;
    }
  }

  method CheckAll(levels: seq<Shape>, x: seq<Index>, mask: bool) returns (r: bool)
    requires Fits(levels, x)
    ensures r == (mask && AllInRange(levels, x))
  {
    r := mask;
    for i := 0 to |levels|
      invariant r == (mask && forall j :: 0 <= j < i ==> InRange(levels[j], x[j]))
    {
      r := CheckBounds(levels[i], x[i], r);
    }
  }

  lemma {:induction false} NoSteps(levels: seq<Shape>, x: seq<Index>)
    requires Fits(levels, x)
    ensures OffsetsAndMask([], levels, x) == (x, AllInRange(levels, x))
  {
  }

  lemma {:induction false} LastStep(steps: seq<Step>, levels: seq<Shape>, k: nat, x: seq<Index>)
    requires 0 < k <= |steps| && ChainApplies(steps[..k], levels) && Fits(Shapes(steps[..k], levels), x)
    ensures ChainApplies(steps[..k - 1], levels)
    ensures var step, below := steps[k - 1], Shapes(steps[..k - 1], levels);
            && StepApplies(step, below) && Fits(StepShapes(step, below), x) && Fits(below, StepBack(step, below, x))
            && var rest := OffsetsAndMask(steps[..k - 1], levels, StepBack(step, below, x));
               OffsetsAndMask(steps[..k], levels, x) == (rest.0, NewInRange(step, below, x) && rest.1)
  {
    assert steps[..k][..k - 1] == steps[..k - 1];
    var step, below := steps[k - 1], Shapes(steps[..k - 1], levels);
    var back := StepBack(step, below, x);
    hide NewInRange, StepShapes, StepApplies, StepBack;
    if OffsetsAndMask(steps[..k - 1], levels, back).1 {
      MaskedIsInSource(steps[..k - 1], levels, back);
      OthersInRange(step, below, x);
    }
  }

  /** The tensors are visited from the last recorded to the source; each checks its own
      bounds only and hands its offsets to the one it was made from. */
  method EvaluateOffsetsAndMask(steps: seq<Step>, levels: seq<Shape>, at: seq<Index>)
    returns (offsets: seq<Index>, mask: bool)
    requires ChainApplies(steps, levels) && Fits(Shapes(steps, levels), at)
    ensures (offsets, mask) == OffsetsAndMask(steps, levels, at)
  {
    offsets, mask := at, true;
    var k := |steps|;
    assert steps[..k] == steps;
    hide InRange, NewInRange, OffsetsAndMask, StepShapes;
    while k > 0
      invariant 0 <= k <= |steps| && ChainApplies(steps[..k], levels) && Fits(Shapes(steps[..k], levels), offsets)
      invariant OffsetsAndMask(steps, levels, at) ==
          (OffsetsAndMask(steps[..k], levels, offsets).0, mask && OffsetsAndMask(steps[..k], levels, offsets).1)
    {
      LastStep(steps, levels, k, offsets);
      var step, below := steps[k - 1], Shapes(steps[..k - 1], levels);
      mask := CheckStep(step, below, offsets, mask);
      offsets := StepBack(step, below, offsets);
      k := k - 1;
    }
    assert steps[..0] == [];
    NoSteps(levels, offsets);
    mask := CheckAll(levels, offsets, mask);
  }

  /** With expanded dimensions the same holds with multiplicity: the view indices that pass
      the mask and refer to one source index number exactly the product of the expanded sizes. */
  lemma {:induction false} ExpandedArrangementCounts(steps: seq<Step>, levels: seq<Shape>, at: seq<Index>)
    returns (views: set<seq<Index>>)
    requires ChainApplies(steps, levels) && ChainExact(steps, levels) && AllInRange(levels, at)
    ensures forall x :: Fits(Shapes(steps, levels), x) ==>
        (x in views <==> OffsetsAndMask(steps, levels, x) == (at, true))
    ensures forall x :: x in views ==> AllInRange(Shapes(steps, levels), x)
    ensures |views| == ChainCopies(steps, levels)
  {
    views := Fibre(steps, levels, at);
    FibreSize(steps, levels, at);
    forall x | Fits(Shapes(steps, levels), x)
      ensures x in views <==> OffsetsAndMask(steps, levels, x) == (at, true)
    {
      FibreMembers(steps, levels, at, x);
    }
  }
}
