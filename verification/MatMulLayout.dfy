/** The arrangement of a blocked matrix product: both operands are tiled, gathered along the dimension
    that is summed over, and repeated for the programs of the other operand. */
module MatMulLayout {
  import opened Arithmetic
  import opened Layout
  import opened LayoutFibres
  import opened LayoutChain
  import opened LayoutReads

  /** Two entries of an operand: of its own dimension and of the summed one. The left operand has
      its own dimension first, the right one last. */
  function Pair(left: bool, own: int, summed: int): (r: seq<int>)
    ensures |r| == 2
  {
    if left then [own, summed] else [summed, own]
  }

  /** The operand's extents, the extents of its blocks, and how often it is repeated. */
  datatype Operand = Operand(left: bool, own: int, summed: int, blockOwn: int, blockSummed: int, copies: int) {
    predicate Valid() {
      own > 0 && summed > 0 && blockOwn > 0 && blockSummed > 0 && copies >= 0
    }
  }

  function BlockCount(n: int, block: int): int {
    OuterSize(n, block, block, 1, false)
  }

  /** Cut into blocks, gather the blocks along the summed dimension, repeat, and drop the dimension
      of one block that gathering left in each group. */
  function Operations(o: Operand, k: nat): Step {
    match k
    case 0 => Step(0, Tile(Pair(o.left, o.blockOwn, o.blockSummed), [-1, -1], [1, 1], false))
    case 1 => Step(0, Tile(Pair(o.left, 1, -1), [-1, -1], [1, 1], false))
    case 2 => Step(0, Expand(Pair(o.left, -1, o.copies)))
    case _ => Step(1, Squeeze({if o.left then 0 else 1}))
  }

  function Arrangement(o: Operand): seq<Step> {
    [Operations(o, 0), Operations(o, 1), Operations(o, 2), Operations(o, 3)]
  }

  // ----- the tensors on the way -----

  function Level(o: Operand, k: nat): seq<Shape> {
    var fb, kb := BlockCount(o.own, o.blockOwn), BlockCount(o.summed, o.blockSummed);
    var block := Pair(o.left, o.blockOwn, o.blockSummed);
    match k
    case 0 => [Pair(o.left, o.own, o.summed)]
    case 1 => [Pair(o.left, fb, kb), block]
    case 2 => [Pair(o.left, fb, 1), Pair(o.left, 1, kb), block]
    case 3 => [Pair(o.left, fb, o.copies), Pair(o.left, 1, kb), block]
    case _ => [Pair(o.left, fb, o.copies), [kb], block]
  }

  /** The counts of blocks: as many as it takes, and one for what has been gathered. */
  lemma {:induction false} Counts(n: int, block: int, i: int)
    requires n > 0 && block > 0
    ensures i < BlockCount(n, block) <==> i * block < n
    ensures BlockCount(n, block) > 0 && BlockCount(n, 1) == n && BlockCount(n, n) == 1
  {
    AtMostQuotient(n - 1, block, i);
    QuotientNatural(n - 1, block);
    Decompose(n - 1, 0, n, n - 1);
    assert n - 1 * (block - 1) - 1 + block - 1 == n - 1;
  }

  ghost predicate Leads(o: Operand, k: nat) {
    && StepApplies(Operations(o, k), Level(o, k)) && StepExact(Operations(o, k), Level(o, k))
    && StepShapes(Operations(o, k), Level(o, k)) == Level(o, k + 1)
    && StepCopies(Operations(o, k), Level(o, k)) == if k == 2 then o.copies else 1
  }

  lemma {:induction false} CutLeads(o: Operand)
    requires o.Valid()
    ensures Leads(o, 0)
  {
    var made := NewShapes(Operations(o, 0).op, Level(o, 0)[0]);
    assert made[0] == Level(o, 1)[0] && made[1] == Level(o, 1)[1];
    assert made == Level(o, 1);
  }

  lemma {:induction false} GatherLeads(o: Operand)
    requires o.Valid()
    ensures Leads(o, 1)
  {
    Counts(o.own, o.blockOwn, 0);
    Counts(o.summed, o.blockSummed, 0);
    Counts(BlockCount(o.own, o.blockOwn), 1, 0);
    Counts(BlockCount(o.summed, o.blockSummed), 1, 0);
    hide OuterSize;
    var made := NewShapes(Operations(o, 1).op, Level(o, 1)[0]);
    assert made[0] == Level(o, 2)[0] && made[1] == Level(o, 2)[1];
    assert made == Level(o, 2)[..2];
  }

  lemma {:induction false} RepeatLeads(o: Operand)
    requires o.Valid()
    ensures Leads(o, 2)
  {
    hide BlockCount;
    var made := NewShapes(Operations(o, 2).op, Level(o, 2)[0]);
    assert made[0] == Level(o, 3)[0];
    assert made == [Level(o, 3)[0]];
    var sizes := Pair(o.left, -1, o.copies);
    assert sizes[1..] == [sizes[1]] && sizes[1..][1..] == [];
    assert Copies(sizes[1..][1..]) == 1;
    assert Copies(sizes[1..]) == if o.left then o.copies else 1;
    assert Copies(sizes) == o.copies;
  }

  lemma {:induction false} DropLeads(o: Operand)
    requires o.Valid()
    ensures Leads(o, 3)
  {
    hide BlockCount;
    var inner, dims := Level(o, 3)[1], Operations(o, 3).op.dims;
    assert inner[1..] == [inner[1]] && inner[1..][1..] == [];
    assert Kept(inner[1..][1..], dims, 2) == [];
    assert Kept(inner[1..], dims, 1) == if o.left then [inner[1]] else [];
    assert Kept(inner, dims, 0) == if o.left then [inner[1]] else [inner[0]];
    var made := NewShapes(Operations(o, 3).op, inner);
    assert made[0] == Level(o, 4)[1];
    assert made == [Level(o, 4)[1]];
  }

  // ----- the element a view index refers to -----

  /** Program (i, j), step q and lane (r, c) of a block, as an index of each tensor on the way. */
  datatype Place = Place(i: int, j: int, q: int, r: int, c: int)

  function At(o: Operand, p: Place, k: nat): seq<Index> {
    match k
    case 0 => [Pair(o.left, p.i * o.blockOwn + p.r, p.q * o.blockSummed + p.c)]
    case 1 => [Pair(o.left, p.i, p.q), Pair(o.left, p.r, p.c)]
    case 2 => [Pair(o.left, p.i, 0), Pair(o.left, 0, p.q), Pair(o.left, p.r, p.c)]
    case 3 => [Pair(o.left, p.i, p.j), Pair(o.left, 0, p.q), Pair(o.left, p.r, p.c)]
    case _ => [Pair(o.left, p.i, p.j), [p.q], Pair(o.left, p.r, p.c)]
  }

  ghost predicate Follows(o: Operand, p: Place, k: nat)
    requires Leads(o, k)
  {
    Fits(Level(o, k + 1), At(o, p, k + 1)) && StepBack(Operations(o, k), Level(o, k), At(o, p, k + 1)) == At(o, p, k)
  }

  lemma {:induction false} AllFit(o: Operand, p: Place, k: nat)
    ensures Fits(Level(o, k), At(o, p, k))
  {
    hide BlockCount;
  }

  lemma {:induction false} CutFollows(o: Operand, p: Place)
    requires o.Valid() && Leads(o, 0)
    ensures Follows(o, p, 0)
  {
    hide BlockCount;
    AllFit(o, p, 1);
    var op, shape, at := Operations(o, 0).op, Level(o, 0)[0], At(o, p, 1);
    var back := BackLocal(op, shape, at);
    assert back == At(o, p, 0)[0];
  }

  lemma {:induction false} GatherFollows(o: Operand, p: Place)
    requires o.Valid() && Leads(o, 1)
    ensures Follows(o, p, 1)
  {
    Counts(o.own, o.blockOwn, 0);
    Counts(o.summed, o.blockSummed, 0);
    hide BlockCount;
    AllFit(o, p, 2);
    var op, shape, at := Operations(o, 1).op, Level(o, 1)[0], At(o, p, 2);
    var back := BackLocal(op, shape, at[..2]);
    assert back == At(o, p, 1)[0];
    assert at[2..] == [At(o, p, 1)[1]];
  }

  lemma {:induction false} RepeatFollows(o: Operand, p: Place)
    requires o.Valid() && Leads(o, 2)
    ensures Follows(o, p, 2)
  {
    hide BlockCount;
    AllFit(o, p, 3);
    var op, shape, at := Operations(o, 2).op, Level(o, 2)[0], At(o, p, 3);
    var back := BackLocal(op, shape, at[..1]);
    assert back == At(o, p, 2)[0];
    assert at[1..] == At(o, p, 2)[1..];
  }

  lemma {:induction false} DropFollows(o: Operand, p: Place)
    requires o.Valid() && Leads(o, 3)
    ensures Follows(o, p, 3)
  {
    hide BlockCount;
    AllFit(o, p, 4);
    var op, shape, at := Operations(o, 3).op, Level(o, 3)[1], At(o, p, 4);
    var q := at[1];
    assert q[1..] == [] && Restored(q[1..], op.dims, 2, 0) == [] && Restored(q, op.dims, 2, 0) == [];
    assert Restored(q, op.dims, 1, 1) == if o.left then q else [0];
    assert Restored(q[1..], op.dims, 1, 1) == [0];
    assert Restored(q, op.dims, 0, 2) == Pair(o.left, 0, p.q);
    var back := BackLocal(op, shape, at[1..2]);
    assert back == At(o, p, 3)[1];
    assert at[..1] == At(o, p, 3)[..1] && at[2..] == At(o, p, 3)[2..];
  }

  lemma {:induction false} EachLeads(o: Operand, k: nat)
    requires o.Valid() && k < 4
    ensures Leads(o, k)
  {
    if k == 0 { CutLeads(o); } else if k == 1 { GatherLeads(o); } else if k == 2 { RepeatLeads(o); }
    else { DropLeads(o); }
  }

  lemma {:induction false} EachFollows(o: Operand, p: Place, k: nat)
    requires o.Valid() && k < 4 && Leads(o, k)
    ensures Follows(o, p, k)
  {
    if k == 0 { CutFollows(o, p); } else if k == 1 { GatherFollows(o, p); } else if k == 2 { RepeatFollows(o, p); }
    else { DropFollows(o, p); }
  }

  // ----- the whole chain -----

  ghost predicate Chained(o: Operand, k: nat)
    requires k <= 4
  {
    var steps := Arrangement(o)[..k];
    && ChainApplies(steps, Level(o, 0)) && Shapes(steps, Level(o, 0)) == Level(o, k) && ChainExact(steps, Level(o, 0))
    && ChainCopies(steps, Level(o, 0)) == if k < 3 then 1 else o.copies
  }

  lemma {:induction false} Chains(o: Operand, k: nat)
    requires o.Valid() && k <= 4
    ensures Chained(o, k)
  {
    if k > 0 {
      Chains(o, k - 1);
      EachLeads(o, k - 1);
      hide Level;
      var steps := Arrangement(o)[..k];
      assert steps[..k - 1] == Arrangement(o)[..k - 1] && steps[k - 1] == Operations(o, k - 1);
    }
  }

  /** All tensors on the way up to `k` have the index in range. */
  ghost predicate InAll(o: Operand, p: Place, k: nat) {
    AllInRange(Level(o, k), At(o, p, k)) && (k > 0 ==> InAll(o, p, k - 1))
  }

  lemma {:induction false} Refers(o: Operand, p: Place, k: nat)
    requires o.Valid() && k <= 4 && Chained(o, k)
    ensures Fits(Level(o, k), At(o, p, k))
    ensures OffsetsAndMask(Arrangement(o)[..k], Level(o, 0), At(o, p, k)) == (At(o, p, 0), InAll(o, p, k))
  {
    AllFit(o, p, k);
    if k > 0 {
      Chains(o, k - 1);
      Refers(o, p, k - 1);
      EachLeads(o, k - 1);
      EachFollows(o, p, k - 1);
      hide Level, At, StepBack, AllInRange;
      var steps := Arrangement(o)[..k];
      assert steps[..k - 1] == Arrangement(o)[..k - 1] && steps[k - 1] == Operations(o, k - 1);
    }
  }

  /** Lane and element are where they should be. */
  predicate Addressed(o: Operand, p: Place) {
    && 0 <= p.j < o.copies && 0 <= p.r < o.blockOwn && 0 <= p.c < o.blockSummed
    && 0 <= p.i * o.blockOwn + p.r < o.own && 0 <= p.q * o.blockSummed + p.c < o.summed
  }

  lemma {:induction false} BlockInRange(n: int, block: int, i: int, r: int)
    requires n > 0 && block > 0 && 0 <= r < block && 0 <= i * block + r < n
    ensures 0 <= i < BlockCount(n, block)
  {
    Counts(n, block, i);
    if i < 0 {
      Scale(i, -1, block);
    }
  }

  lemma {:induction false} PairInRange(left: bool, own: int, summed: int, x: int, y: int)
    ensures InRange(Pair(left, own, summed), Pair(left, x, y)) <==> 0 <= x < own && 0 <= y < summed
  {
    var shape, at := Pair(left, own, summed), Pair(left, x, y);
    assert InRange(shape, at) <==> 0 <= at[0] < shape[0] && 0 <= at[1] < shape[1];
  }

  lemma {:induction false} ThreeInRange(a: Shape, b: Shape, c: Shape, x: Index, y: Index, z: Index)
    ensures AllInRange([a], [x]) <==> InRange(a, x)
    ensures AllInRange([a, b], [x, y]) <==> InRange(a, x) && InRange(b, y)
    ensures AllInRange([a, b, c], [x, y, z]) <==> InRange(a, x) && InRange(b, y) && InRange(c, z)
  {
    hide InRange;
    assert AllInRange([a], [x]) ==> InRange([a][0], [x][0]);
    assert AllInRange([a, b], [x, y]) ==> InRange([a, b][0], [x, y][0]) && InRange([a, b][1], [x, y][1]);
    var shapes, at := [a, b, c], [x, y, z];
    assert AllInRange(shapes, at) ==>
        InRange(shapes[0], at[0]) && InRange(shapes[1], at[1]) && InRange(shapes[2], at[2]);
  }

  lemma {:induction false} OneInRange(n: int, x: int)
    ensures InRange([n], [x]) <==> 0 <= x < n
  {
    assert InRange([n], [x]) ==> 0 <= [x][0] < [n][0];
  }

  lemma {:induction false} LevelInRange(o: Operand, p: Place, k: nat)
    requires o.Valid() && k <= 4
    ensures Addressed(o, p) ==> AllInRange(Level(o, k), At(o, p, k))
    ensures k == 0 && AllInRange(Level(o, k), At(o, p, k)) ==>
        0 <= p.i * o.blockOwn + p.r < o.own && 0 <= p.q * o.blockSummed + p.c < o.summed
    ensures k == 4 && AllInRange(Level(o, k), At(o, p, k)) ==>
        0 <= p.j < o.copies && 0 <= p.r < o.blockOwn && 0 <= p.c < o.blockSummed
  {
    var left, fb, kb := o.left, BlockCount(o.own, o.blockOwn), BlockCount(o.summed, o.blockSummed);
    if Addressed(o, p) {
      BlockInRange(o.own, o.blockOwn, p.i, p.r);
      BlockInRange(o.summed, o.blockSummed, p.q, p.c);
    }
    hide BlockCount, InRange, AllInRange, Pair;
    var shapes, at := Level(o, k), At(o, p, k);
    PairInRange(left, o.blockOwn, o.blockSummed, p.r, p.c);
    if k == 0 {
      PairInRange(left, o.own, o.summed, p.i * o.blockOwn + p.r, p.q * o.blockSummed + p.c);
      ThreeInRange(shapes[0], [], [], at[0], [], []);
    } else if k == 1 {
      PairInRange(left, fb, kb, p.i, p.q);
      ThreeInRange(shapes[0], shapes[1], [], at[0], at[1], []);
    } else {
      PairInRange(left, fb, 1, p.i, 0);
      PairInRange(left, 1, kb, 0, p.q);
      PairInRange(left, fb, o.copies, p.i, p.j);
      OneInRange(kb, p.q);
      ThreeInRange(shapes[0], shapes[1], shapes[2], at[0], at[1], at[2]);
    }
  }

  lemma {:induction false} InAllExact(o: Operand, p: Place)
    requires o.Valid()
    ensures InAll(o, p, 4) <==> Addressed(o, p)
  {
    hide Level, At, AllInRange;
    InSteps(o, p, 4);
    LevelInRange(o, p, 0);
    LevelInRange(o, p, 4);
    forall k: nat | k <= 4
      ensures Addressed(o, p) ==> AllInRange(Level(o, k), At(o, p, k))
    {
      LevelInRange(o, p, k);
    }
  }

  lemma {:induction false} InSteps(o: Operand, p: Place, k: nat)
    ensures InAll(o, p, k) <==> forall n: nat :: n <= k ==> AllInRange(Level(o, n), At(o, p, n))
  {
    hide Level, At, AllInRange;
    if k > 0 {
      InSteps(o, p, k - 1);
    }
  }

  /** Both operands of a blocked product, of any extents and any blocks: the arrangement is a view with
      a program dimension of its own blocks and one of copies, a dimension of steps, and a block;
      program (i, j) reads in step q and lane (r, c) the operand's element at i blocks and r along its
      own dimension and at q blocks and c along the summed one, whatever j is, and nothing where that
      is outside; and every element is read exactly once for each copy. */
  lemma {:induction false} OperandIsBlocked(o: Operand, p: Place)
    requires o.Valid()
    ensures ChainApplies(Arrangement(o), Level(o, 0))
    ensures Shapes(Arrangement(o), Level(o, 0)) ==
        [Pair(o.left, BlockCount(o.own, o.blockOwn), o.copies), [BlockCount(o.summed, o.blockSummed)],
         Pair(o.left, o.blockOwn, o.blockSummed)]
    ensures Fits(Shapes(Arrangement(o), Level(o, 0)), At(o, p, 4))
    ensures OffsetsAndMask(Arrangement(o), Level(o, 0), At(o, p, 4)) ==
        ([Pair(o.left, p.i * o.blockOwn + p.r, p.q * o.blockSummed + p.c)], Addressed(o, p))
    ensures ChainExact(Arrangement(o), Level(o, 0)) && ChainCopies(Arrangement(o), Level(o, 0)) == o.copies
  {
    hide ChainApplies, ChainExact, Shapes, OffsetsAndMask, Fits, InAll, Addressed, BlockCount;
    assert Arrangement(o)[..4] == Arrangement(o);
    Chains(o, 4);
    Refers(o, p, 4);
    InAllExact(o, p);
  }
}
