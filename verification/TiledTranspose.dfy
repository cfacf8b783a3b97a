/** The tiled transpose that the Triton emitter generates, with or without the loop that
    strides over a limited grid. */
module TiledTranspose {
  import opened Arithmetic

  /** The shape of the destination and the tile. */
  datatype Plan = Plan(rows: nat, columns: nat, tileM: nat, tileN: nat)

  /** A launch that covers its logical programs with a limited grid. */
  datatype Grid = Plain | Strided(limit: nat, warps: nat)

  function CeilDiv(n: nat, d: nat): (r: nat)
    requires d > 0
    ensures n <= r * d && (n > 0 ==> r > 0)
  {
    QuotientNatural(n + d - 1, d);
    FloorOf(n + d - 1, d);
    var q := (n + d - 1) / d;
    assert (q + 1) * d == q * d + d;
    q
  }

  /** Position `low` in block `high` of blocks of `size`. */
  function Join(high: int, low: int, size: int): int {
    high * size + low
  }

  lemma {:induction false} JoinSplits(high: nat, low: nat, size: nat)
    requires low < size
    ensures Join(high, low, size) >= 0 && Join(high, low, size) / size == high && Join(high, low, size) % size == low
  {
    Scale(0, high, size);
    Decompose(high * size + low, high, size, low);
  }

  lemma {:induction false} SplitJoins(n: nat, size: nat)
    requires size > 0
    ensures n / size >= 0 && 0 <= n % size < size && Join(n / size, n % size, size) == n
  {
    QuotientNatural(n, size);
  }

  lemma {:induction false} JoinBelow(high: nat, low: nat, count: nat, size: nat)
    requires high < count && low < size
    ensures Join(high, low, size) < count * size
  {
    Scale(high + 1, count, size);
    assert (high + 1) * size == high * size + size;
  }

  function TileColumns(p: Plan): nat
    requires p.tileN > 0
  {
    CeilDiv(p.columns, p.tileN)
  }

  function Total(p: Plan): nat
    requires p.tileM > 0 && p.tileN > 0
  {
    CeilDiv(p.rows, p.tileM) * TileColumns(p)
  }

  predicate Tiled(p: Plan) {
    p.tileM > 0 && p.tileN > 0
  }

  /** The destination element that lane (i, j) of a logical program addresses. */
  function Target(p: Plan, program: nat, i: nat, j: nat): (int, int)
    requires Tiled(p) && TileColumns(p) > 0
  {
    (Join(program / TileColumns(p), i, p.tileM), Join(program % TileColumns(p), j, p.tileN))
  }

  predicate LiveLane(p: Plan, at: (int, int)) {
    at.0 < p.rows && at.1 < p.columns
  }

  /** The logical program and the lane that own a destination element. */
  function Owner(p: Plan, r: int, c: int): (int, int, int)
    requires Tiled(p)
  {
    (Join(r / p.tileM, c / p.tileN, TileColumns(p)), r % p.tileM, c % p.tileN)
  }

  /** Below a ceiling: the quotient of an index is a tile index. */
  lemma {:induction false} TileIndex(n: nat, size: nat, d: nat)
    requires d > 0 && n < size
    ensures 0 <= n / d < CeilDiv(size, d)
  {
    FloorOf(n, d);
    QuotientNatural(n, d);
    Cancel(n / d, CeilDiv(size, d), d);
  }

  /** Every destination element is stored by a lane of some logical program ... */
  lemma {:induction false} OwnerStores(p: Plan, r: nat, c: nat)
    requires Tiled(p) && r < p.rows && c < p.columns
    ensures TileColumns(p) > 0
    ensures var (program, i, j) := Owner(p, r, c);
            0 <= program < Total(p) && 0 <= i < p.tileM && 0 <= j < p.tileN && Target(p, program, i, j) == (r, c)
  {
    hide CeilDiv, Join;
    TileIndex(r, p.rows, p.tileM);
    TileIndex(c, p.columns, p.tileN);
    JoinSplits(r / p.tileM, c / p.tileN, TileColumns(p));
    JoinBelow(r / p.tileM, c / p.tileN, CeilDiv(p.rows, p.tileM), TileColumns(p));
    SplitJoins(r, p.tileM);
    SplitJoins(c, p.tileN);
  }

  /** ... and by no other lane of any program. */
  lemma {:induction false} OnlyOwnerStores(p: Plan, program: nat, i: nat, j: nat)
    requires Tiled(p) && TileColumns(p) > 0 && i < p.tileM && j < p.tileN
    ensures var (r, c) := Target(p, program, i, j);
            r >= 0 && c >= 0 && Owner(p, r, c) == (program, i, j)
  {
    hide CeilDiv, Join;
    var tr, tc := program / TileColumns(p), program % TileColumns(p);
    SplitJoins(program, TileColumns(p));
    JoinSplits(tr, i, p.tileM);
    JoinSplits(tc, j, p.tileN);
  }

  // ----- the grid -----

  function GridSize(g: Grid, total: nat): nat
    requires g.Strided? ==> g.warps > 0
  {
    match g
    case Plain => total
    case Strided(limit, warps) =>
      var programs := if limit / warps > 1 then limit / warps else 1;
      if total < programs then total else programs
  }

  /** A grid with a limit launches as many programs as there are, or else as many as fit the limit. */
  lemma {:induction false} GridSizeExact(g: Grid, total: nat)
    requires g.Strided? ==> 0 < g.warps <= g.limit
    ensures GridSize(g, total) <= total
    ensures g.Plain? ==> GridSize(g, total) == total
    ensures g.Strided? ==> (GridSize(g, total) * g.warps <= g.limit
        && (GridSize(g, total) == total || (GridSize(g, total) + 1) * g.warps > g.limit))
  {
    if g.Strided? {
      var size, fitting := GridSize(g, total), g.limit / g.warps;
      FloorOf(g.limit, g.warps);
      if fitting < 1 {
        Scale(fitting + 1, 1, g.warps);
      }
      Scale(size, fitting, g.warps);
    }
  }

  /** The logical programs that one program of the grid runs. */
  function Visits(from: nat, step: nat, total: nat): seq<nat>
    requires step > 0
    decreases total - from
  {
    if from >= total then [] else [from] + Visits(from + step, step, total)
  }

  lemma {:induction false} VisitsOnce(from: nat, step: nat, total: nat, q: nat)
    requires step > 0
    ensures multiset(Visits(from, step, total))[q] == if from <= q < total && q % step == from % step then 1 else 0
    decreases total - from
  {
    if from < total {
      VisitsOnce(from + step, step, total, q);
      SameRemainder(from, step);
      if from < q < from + step {
        OtherRemainder(from, q, step);
      }
    }
  }

  // ----- execution -----

  predicate Shaped<T>(p: Plan, src: array2<T>, dst: array2<T>) {
    src.Length0 == p.columns && src.Length1 == p.rows && dst.Length0 == p.rows && dst.Length1 == p.columns
  }

  /** The block a program loads. With a plain grid its source lanes run the other way and
      the block is transposed; on a limited grid the lanes are those of the destination.
      Masked-out lanes hold anything. */
  method LoadBlock<T>(p: Plan, program: nat, src: array2<T>, plain: bool, junk: T) returns (value: array2<T>)
    requires Tiled(p) && TileColumns(p) > 0 && src.Length0 == p.columns && src.Length1 == p.rows
    ensures fresh(value) && value.Length0 == p.tileM && value.Length1 == p.tileN
    ensures forall i, j :: 0 <= i < p.tileM && 0 <= j < p.tileN ==> LaneLoads(p, program, i, j, src, value[i, j])
  {
    if plain {
      var loaded := new T[p.tileN, p.tileM]((j, i) requires 0 <= j < p.tileN && 0 <= i < p.tileM reads src =>
          Loaded(p, program, i, j, src, junk));
      value := new T[p.tileM, p.tileN]((i, j) requires 0 <= i < p.tileM && 0 <= j < p.tileN reads loaded =>
        if 0 <= j < loaded.Length0 && 0 <= i < loaded.Length1 then loaded[j, i] else junk);
    } else {
      value := new T[p.tileM, p.tileN]((i, j) requires 0 <= i < p.tileM && 0 <= j < p.tileN reads src =>
          Loaded(p, program, i, j, src, junk));
    }
  }

  /** A masked load of the source element that belongs to destination lane (i, j). */
  function Loaded<T>(p: Plan, program: nat, i: nat, j: nat, src: array2<T>, junk: T): T
    requires Tiled(p) && TileColumns(p) > 0 && i < p.tileM && j < p.tileN && src.Length0 == p.columns
    requires src.Length1 == p.rows
    reads src
  {
    OnlyOwnerStores(p, program, i, j);
    var at := Target(p, program, i, j);
    if LiveLane(p, at) then src[at.1, at.0] else junk
  }

  ghost predicate LaneLoads<T>(p: Plan, program: nat, i: nat, j: nat, src: array2<T>, x: T)
    requires Tiled(p) && TileColumns(p) > 0 && i < p.tileM && j < p.tileN && src.Length0 == p.columns
    requires src.Length1 == p.rows
    reads src
  {
    OnlyOwnerStores(p, program, i, j);
    var at := Target(p, program, i, j);
    LiveLane(p, at) ==> x == src[at.1, at.0]
  }

  /** The element is stored by this program in a lane before (i, j). */
  predicate StoredBefore(p: Plan, program: nat, i: int, j: int, r: int, c: int)
    requires Tiled(p)
  {
    var o := Owner(p, r, c);
    o.0 == program && (o.1 < i || (o.1 == i && o.2 < j))
  }

  /** The elements stored so far are the transposed source; the others are as before. */
  ghost predicate Progress<T(!new)>(p: Plan, program: nat, i: int, j: int, src: array2<T>, dst: array2<T>,
          was: map<(int, int), T>)
    requires Tiled(p) && Shaped(p, src, dst)
    reads src, dst
  {
    forall r, c :: 0 <= r < p.rows && 0 <= c < p.columns ==>
        (r, c) in was && dst[r, c] == if StoredBefore(p, program, i, j, r, c) then src[c, r] else was[(r, c)]
  }

  ghost function Snapshot<T>(p: Plan, dst: array2<T>): map<(int, int), T>
    requires dst.Length0 == p.rows && dst.Length1 == p.columns
    reads dst
  {
    map r, c | 0 <= r < p.rows && 0 <= c < p.columns :: (r, c) := dst[r, c]
  }

  method StoreIfLive<T(!new)>(p: Plan, program: nat, i: nat, j: nat, x: T, src: array2<T>, dst: array2<T>,
          ghost was: map<(int, int), T>)
    requires Tiled(p) && TileColumns(p) > 0 && i < p.tileM && j < p.tileN && Shaped(p, src, dst) && src != dst
    requires LaneLoads(p, program, i, j, src, x) && Progress(p, program, i, j, src, dst, was)
    modifies dst
    ensures Progress(p, program, i, j + 1, src, dst, was)
  {
    StoreLane(p, program, i, j);
    hide StoredBefore, Target;
    var at := Target(p, program, i, j);
    if LiveLane(p, at) {
      dst[at.0, at.1] := x;
    }
  }

  /** One logical program: every live lane stores its element. */
  method RunProgram<T(!new)>(p: Plan, program: nat, src: array2<T>, dst: array2<T>, plain: bool, junk: T)
    requires Tiled(p) && TileColumns(p) > 0 && Shaped(p, src, dst) && src != dst
    modifies dst
    ensures forall r, c :: 0 <= r < p.rows && 0 <= c < p.columns ==>
        dst[r, c] == if Owner(p, r, c).0 == program then src[c, r] else old(dst[r, c])
  {
    var value := LoadBlock(p, program, src, plain, junk);
    ghost var was := Snapshot(p, dst);
    NothingStored(p, program, src, dst, was);
    hide Owner, Target, Progress, LaneLoads;
    for i := 0 to p.tileM
      invariant Progress(p, program, i, 0, src, dst, was)
      invariant forall k, j :: 0 <= k < p.tileM && 0 <= j < p.tileN ==> LaneLoads(p, program, k, j, src, value[k, j])
    {
      for j := 0 to p.tileN
        invariant Progress(p, program, i, j, src, dst, was)
        invariant forall k, j :: 0 <= k < p.tileM && 0 <= j < p.tileN ==> LaneLoads(p, program, k, j, src, value[k, j])
      {
        StoreIfLive(p, program, i, j, value[i, j], src, dst, was);
      }
      RowProgress(p, program, i, src, dst, was);
    }
    AllProgress(p, program, src, dst, was);
  }

  /** Lane (i, j) stores exactly the element it owns. */
  lemma {:induction false} StoreLane(p: Plan, program: nat, i: nat, j: nat)
    requires Tiled(p) && TileColumns(p) > 0 && i < p.tileM && j < p.tileN
    ensures var at := Target(p, program, i, j);
            at.0 >= 0 && at.1 >= 0
            && forall r, c :: 0 <= r < p.rows && 0 <= c < p.columns ==>
                (StoredBefore(p, program, i, j + 1, r, c) <==> StoredBefore(p, program, i, j, r, c) || (r, c) == at)
  {
    OnlyOwnerStores(p, program, i, j);
    var at := Target(p, program, i, j);
    forall r, c | 0 <= r < p.rows && 0 <= c < p.columns
      ensures Owner(p, r, c) == (program, i, j) <==> (r, c) == at
    {
      OwnerStores(p, r, c);
    }
  }

  lemma {:induction false} RowDone(p: Plan, program: nat, i: nat)
    requires Tiled(p) && TileColumns(p) > 0
    ensures forall r, c :: 0 <= r < p.rows && 0 <= c < p.columns ==>
        (StoredBefore(p, program, i, p.tileN, r, c) <==> StoredBefore(p, program, i + 1, 0, r, c))
  {
    forall r, c | 0 <= r < p.rows && 0 <= c < p.columns
      ensures StoredBefore(p, program, i, p.tileN, r, c) <==> StoredBefore(p, program, i + 1, 0, r, c)
    {
      OwnerStores(p, r, c);
      hide Owner;
    }
  }

  lemma {:induction false} AllRowsDone(p: Plan, program: nat)
    requires Tiled(p) && TileColumns(p) > 0
    ensures forall r, c :: 0 <= r < p.rows && 0 <= c < p.columns ==>
        (StoredBefore(p, program, p.tileM, 0, r, c) <==> Owner(p, r, c).0 == program)
  {
    forall r, c | 0 <= r < p.rows && 0 <= c < p.columns
      ensures StoredBefore(p, program, p.tileM, 0, r, c) <==> Owner(p, r, c).0 == program
    {
      OwnerStores(p, r, c);
      hide Owner;
    }
  }

  lemma {:induction false} NothingStored<T(!new)>(p: Plan, program: nat, src: array2<T>, dst: array2<T>, was: map<(int,
          int), T>)
    requires Tiled(p) && TileColumns(p) > 0 && Shaped(p, src, dst) && was == Snapshot(p, dst)
    ensures Progress(p, program, 0, 0, src, dst, was)
  {
    forall r, c | 0 <= r < p.rows && 0 <= c < p.columns
      ensures !StoredBefore(p, program, 0, 0, r, c)
    {
      OwnerStores(p, r, c);
    }
  }

  lemma {:induction false} RowProgress<T(!new)>(p: Plan, program: nat, i: nat, src: array2<T>, dst: array2<T>,
          was: map<(int, int), T>)
    requires Tiled(p) && TileColumns(p) > 0 && Shaped(p, src, dst) && Progress(p, program, i, p.tileN, src, dst, was)
    ensures Progress(p, program, i + 1, 0, src, dst, was)
  {
    RowDone(p, program, i);
    hide StoredBefore;
  }

  lemma {:induction false} AllProgress<T(!new)>(p: Plan, program: nat, src: array2<T>, dst: array2<T>, was: map<(int,
          int), T>)
    requires Tiled(p) && TileColumns(p) > 0 && Shaped(p, src, dst) && Progress(p, program, p.tileM, 0, src, dst, was)
    ensures forall r, c :: 0 <= r < p.rows && 0 <= c < p.columns ==>
        (r, c) in was && dst[r, c] == if Owner(p, r, c).0 == program then src[c, r] else was[(r, c)]
  {
    AllRowsDone(p, program);
    hide StoredBefore, Owner;
  }

  // ----- the launch -----

  /** Elements whose program has run hold the transposed source. */
  ghost predicate Transposed<T(!new)>(p: Plan, executed: seq<nat>, src: array2<T>, dst: array2<T>, was: map<(int,
          int), T>)
    requires Tiled(p) && Shaped(p, src, dst)
    reads src, dst
  {
    forall r, c :: 0 <= r < p.rows && 0 <= c < p.columns ==>
        (r, c) in was && dst[r, c] == if Owner(p, r, c).0 in executed then src[c, r] else was[(r, c)]
  }

  /** Every element of `order` once: the programs of a grid in any order. */
  ghost predicate EachOnce(order: seq<nat>, count: nat) {
    forall q: nat :: multiset(order)[q] == if q < count then 1 else 0
  }

  /** How often each logical program has run after some programs of the grid. */
  ghost predicate Counted(executed: seq<nat>, done: seq<nat>, step: nat, total: nat)
    requires step > 0
  {
    forall q: nat :: multiset(executed)[q] == if q < total then multiset(done)[q % step] else 0
  }

  lemma {:induction false} CountProgram(executed: seq<nat>, done: seq<nat>, pid: nat, step: nat, total: nat)
    requires pid < step && Counted(executed, done, step, total)
    ensures Counted(executed + Visits(pid, step, total), done + [pid], step, total)
  {
    forall q: nat
      ensures multiset(executed + Visits(pid, step, total))[q] == if q < total then multiset(done + [pid])[q % step]
          else 0
    {
      VisitsOnce(pid, step, total, q);
      Decompose(pid, 0, step, pid);
      RemainderBelow(q, step);
      assert multiset(executed + Visits(pid, step, total))[q] == multiset(executed)[q]
          + multiset(Visits(pid, step, total))[q];
      assert multiset(done + [pid])[q % step] == multiset(done)[q % step] + if q % step == pid then 1 else 0;
    }
  }

  lemma {:induction false} RemainderBelow(q: nat, step: nat)
    requires step > 0
    ensures 0 <= q % step <= q
  {
    QuotientNatural(q, step);
    Scale(0, q / step, step);
  }

  lemma {:induction false} AllCounted(executed: seq<nat>, order: seq<nat>, step: nat, total: nat)
    requires step > 0 && step <= total && EachOnce(order, step) && Counted(executed, order, step, total)
    ensures EachOnce(executed, total)
  {
  }

  method RunAndRecord<T(!new)>(p: Plan, program: nat, src: array2<T>, dst: array2<T>, plain: bool, junk: T,
          ghost executed: seq<nat>, ghost was: map<(int, int), T>)
    requires Tiled(p) && TileColumns(p) > 0 && Shaped(p, src, dst) && src != dst
    requires Transposed(p, executed, src, dst, was)
    modifies dst
    ensures Transposed(p, executed + [program], src, dst, was)
  {
    hide Owner;
    RunProgram(p, program, src, dst, plain, junk);
  }

  /** One program of a limited grid: it strides over the logical programs. */
  method RunStrided<T(!new)>(p: Plan, pid: nat, step: nat, src: array2<T>, dst: array2<T>, junk: T,
          ghost before: seq<nat>, ghost was: map<(int, int), T>)
    requires Tiled(p) && step > 0 && Shaped(p, src, dst) && src != dst && Transposed(p, before, src, dst, was)
    modifies dst
    ensures Transposed(p, before + Visits(pid, step, Total(p)), src, dst, was)
  {
    var program: nat, total := pid, Total(p);
    ghost var executed: seq<nat> := before;
    hide Transposed, Visits, Total;
    while program < total
      invariant Transposed(p, executed, src, dst, was)
      invariant executed + Visits(program, step, total) == before + Visits(pid, step, total)
      decreases total - program
    {
      SomeColumns(p);
      NextVisit(executed, program, step, total);
      RunAndRecord(p, program, src, dst, false, junk, executed, was);
      executed := executed + [program];
      program := program + step;
    }
    NoVisits(executed, program, step, total);
  }

  lemma {:induction false} NextVisit(executed: seq<nat>, program: nat, step: nat, total: nat)
    requires step > 0 && program < total
    ensures executed + Visits(program, step, total) == executed + [program] + Visits(program + step, step, total)
  {
  }

  lemma {:induction false} NoVisits(executed: seq<nat>, program: nat, step: nat, total: nat)
    requires step > 0 && program >= total
    ensures executed + Visits(program, step, total) == executed
  {
  }

  lemma {:induction false} SomeColumns(p: Plan)
    requires Tiled(p) && Total(p) > 0
    ensures TileColumns(p) > 0
  {
  }

  /** The whole launch. The programs of the grid may run in any order; every logical
      program runs exactly once, so with `OwnerStores` and `OnlyOwnerStores` every element
      is stored exactly once, and the destination becomes the transposed source. A grid
      limit below the warp count is refused before anything runs. */
  method Launch<T(!new)>(p: Plan, grid: Grid, src: array2<T>, dst: array2<T>, order: seq<nat>, junk: T)
    returns (ok: bool, ghost executed: seq<nat>)
    requires Tiled(p) && Shaped(p, src, dst) && src != dst && (grid.Strided? ==> grid.limit > 0 && grid.warps > 0)
    requires EachOnce(order, GridSize(grid, Total(p)))
    requires forall n :: 0 <= n < |order| ==> order[n] < GridSize(grid, Total(p))
    modifies dst
    ensures ok <==> (grid.Strided? ==> grid.warps <= grid.limit)
    ensures ok ==> EachOnce(executed, Total(p)) && forall r, c :: 0 <= r < p.rows && 0 <= c < p.columns ==>
        dst[r, c] == src[c, r]
    ensures !ok ==> executed == [] && forall r, c :: 0 <= r < p.rows && 0 <= c < p.columns ==>
        dst[r, c] == old(dst[r, c])
  {
    executed := [];
    if grid.Strided? && grid.warps > grid.limit {
      return false, [];
    }
    ok := true;
    var total, size := Total(p), GridSize(grid, Total(p));
    ghost var was := Snapshot(p, dst);
    GridFits(grid, total);
    ghost var step := if size > 0 then size else 1;
    assert Counted(executed, order[..0], step, total) && Transposed(p, executed, src, dst, was);
    hide Transposed, Counted, EachOnce, Total;
    for n := 0 to |order|
      invariant Transposed(p, executed, src, dst, was) && Counted(executed, order[..n], step, total)
    {
      var pid := order[n];
      assert order[..n + 1] == order[..n] + [pid];
      CountProgram(executed, order[..n], pid, step, total);
      if grid.Plain? {
        assert Visits(pid, size, total) == [pid] + Visits(pid + size, size, total) == [pid] + [];
        SomeColumns(p);
        RunAndRecord(p, pid, src, dst, true, junk, executed, was);
      } else {
        RunStrided(p, pid, size, src, dst, junk, executed, was);
      }
      executed := executed + Visits(pid, size, total);
    }
    assert order[..|order|] == order;
    AllRan(executed, order, size, total);
    AllTransposed(p, executed, src, dst, was);
  }

  lemma {:induction false} GridFits(grid: Grid, total: nat)
    requires grid.Strided? ==> grid.warps > 0
    ensures GridSize(grid, total) <= total && (total > 0 ==> GridSize(grid, total) > 0)
    ensures grid.Plain? ==> GridSize(grid, total) == total
  {
  }

  lemma {:induction false} AllRan(executed: seq<nat>, order: seq<nat>, size: nat, total: nat)
    requires size <= total && (total > 0 ==> size > 0) && EachOnce(order, size)
    requires Counted(executed, order, if size > 0 then size else 1, total)
    ensures EachOnce(executed, total)
  {
    if total > 0 {
      AllCounted(executed, order, size, total);
    }
  }

  lemma {:induction false} AllTransposed<T(!new)>(p: Plan, executed: seq<nat>, src: array2<T>, dst: array2<T>,
          was: map<(int, int), T>)
    requires Tiled(p) && Shaped(p, src, dst) && Transposed(p, executed, src, dst, was) && EachOnce(executed, Total(p))
    ensures forall r, c :: 0 <= r < p.rows && 0 <= c < p.columns ==> dst[r, c] == src[c, r]
  {
    forall r, c | 0 <= r < p.rows && 0 <= c < p.columns
      ensures Owner(p, r, c).0 in executed
    {
      OwnerStores(p, r, c);
      var q: nat := Owner(p, r, c).0;
      assert multiset(executed)[q] == 1;
    }
    hide Owner;
  }
}
