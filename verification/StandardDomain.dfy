/** The usual blocks of a matrix product, for any extents and any block sizes that span the summed
    dimension, pass the domain check, so that launching them leaves the product. */
module StandardDomain {
  import opened Wrappers
  import opened Arithmetic
  import opened Ssa
  import opened Interpreter
  import opened Linalg
  import opened LaneReplay
  import opened MatMulDomain
  import StoreMeaning

  /** Block extents; the summed dimension is not cut. */
  datatype Cut = Cut(rows: nat, cols: nat, inner: nat)

  /** A block that starts at the given row and column, live where it is inside the array. */
  function Block(storage: string, rows: nat, cols: nat, row: int, col: int, m: Matrix): (v: View)
    ensures v.row.rows == rows && v.row.cols == cols && v.other == 0 && v.storage == storage
    ensures forall i, j :: 0 <= i < rows && 0 <= j < cols ==> At(v.row, i, j) == row + i && At(v.col, i, j) == col + j
    ensures forall i, j :: 0 <= i < rows && 0 <= j < cols ==> (Live(v, (i, j)) <==> Within(m, row + i, col + j))
  {
    ViewRecord(storage,
               Build(rows, cols, (i: int, j: int) requires 0 <= i < rows && 0 <= j < cols => row + i),
               Build(rows, cols, (i: int, j: int) requires 0 <= i < rows && 0 <= j < cols => col + j),
               Build(rows, cols, (i: int, j: int) requires 0 <= i < rows && 0 <= j < cols =>
                 if Within(m, row + i, col + j) then 1 else 0),
               0)
  }

  function BlocksAt(t: Tensors, c: Cut, lhs: Matrix, rhs: Matrix, out: Matrix, i: int, j: int): Blocks {
    Blocks(Block(t.lhsStorage, c.rows, c.inner, i * c.rows, 0, lhs),
           Block(t.rhsStorage, c.inner, c.cols, 0, j * c.cols, rhs),
           Block(t.outStorage, c.rows, c.cols, i * c.rows, j * c.cols, out))
  }

  function CeilDiv(n: nat, d: nat): nat
    requires d > 0
  {
    QuotientNatural(n + d - 1, d);
    (n + d - 1) / d
  }

  /** One program for each output block, in row-major order. */
  function Programs(t: Tensors, c: Cut, lhs: Matrix, rhs: Matrix, out: Matrix): (r: seq<Blocks>)
    requires c.rows > 0 && c.cols > 0
  {
    var across := CeilDiv(out.cols, c.cols);
    seq(CeilDiv(out.rows, c.rows) * across, n requires 0 <= n < CeilDiv(out.rows, c.rows) * across =>
          BlocksAt(t, c, lhs, rhs, out, n / across, n % across))
  }

  lemma {:induction false} BlockAccepted(t: Tensors, c: Cut, lhs: Matrix, rhs: Matrix, out: Matrix, i: int, j: int)
    requires c.inner >= lhs.cols && lhs.cols == rhs.rows && out.rows == lhs.rows && out.cols == rhs.cols
    ensures BlocksAccepted(lhs, rhs, out, BlocksAt(t, c, lhs, rhs, out, i, j))
  {
    hide Block;
  }

  // ----- the order of the writes -----

  /** Where an element stands among all lanes of all programs. */
  function Rank(c: Cut, across: nat, at: (int, int)): int
    requires c.rows > 0 && c.cols > 0
  {
    (at.0 / c.rows * across + at.1 / c.cols) * (c.rows * c.cols) + (at.0 % c.rows * c.cols + at.1 % c.cols)
  }

  ghost predicate Rising(c: Cut, across: nat, at: seq<(int, int)>, low: int, high: int)
    requires c.rows > 0 && c.cols > 0
  {
    && (forall x :: x in at ==> low <= Rank(c, across, x) < high)
    && forall m, n :: 0 <= m < n < |at| ==> Rank(c, across, at[m]) < Rank(c, across, at[n])
  }

  /** Program (i, j) and lane (r, s) have a rank of their own. */
  lemma {:induction false} RankOf(c: Cut, across: nat, i: int, j: int, r: int, s: int)
    requires 0 <= r < c.rows && 0 <= s < c.cols
    ensures Rank(c, across, (i * c.rows + r, j * c.cols + s)) ==
        (i * across + j) * (c.rows * c.cols) + (r * c.cols + s)
  {
    Decompose(i * c.rows + r, i, c.rows, r);
    Decompose(j * c.cols + s, j, c.cols, s);
  }

  /** The block of output coordinates of program (i, j). */
  ghost predicate Covers(v: View, c: Cut, i: int, j: int) {
    && v.row.rows == c.rows && v.row.cols == c.cols
    && forall r, s :: 0 <= r < c.rows && 0 <= s < c.cols ==>
         At(v.row, r, s) == i * c.rows + r && At(v.col, r, s) == j * c.cols + s
  }

  /** The rank of lane `k` of the program with number `n`. */
  function Slot(c: Cut, n: int, k: int): int {
    n * (c.rows * c.cols) + k
  }

  lemma {:induction false} LaneRank(v: View, c: Cut, across: nat, i: int, j: int, k: nat)
    requires c.rows > 0 && c.cols > 0 && k < c.rows * c.cols && Covers(v, c, i, j)
    ensures InView(v, (k / c.cols, k % c.cols))
    ensures Rank(c, across, Coordinate(v, (k / c.cols, k % c.cols))) == Slot(c, i * across + j, k)
  {
    hide Rank;
    LaneInTile(c.rows, c.cols, k);
    LaneSplits(k, c.cols);
    RankOf(c, across, i, j, k / c.cols, k % c.cols);
  }

  lemma {:induction false} LaneSplits(k: nat, n: nat)
    requires n > 0
    ensures k / n * n + k % n == k
  {
  }

  lemma {:induction false} LanesRise(v: View, c: Cut, across: nat, i: int, j: int, k: nat)
    requires c.rows > 0 && c.cols > 0 && k <= c.rows * c.cols && Covers(v, c, i, j)
    ensures
      var n := i * across + j;
      Rising(c, across, Written(v, LanesFrom(c.rows, c.cols, k)), Slot(c, n, k), Slot(c, n, c.rows * c.cols))
    decreases c.rows * c.cols - k
  {
    var n, size := i * across + j, c.rows * c.cols;
    if k < size {
      LanesRise(v, c, across, i, j, k + 1);
      LaneRank(v, c, across, i, j, k);
      FirstLane(c, k);
      LaterSlots(c, n, k);
      hide Rank, Live, Rising, LanesFrom, Slot, Covers, Coordinate;
      NextRises(c, across, v, (k / c.cols, k % c.cols), LanesFrom(c.rows, c.cols, k + 1), Slot(c, n, k),
          Slot(c, n, size));
    }
  }

  lemma {:induction false} LaterSlots(c: Cut, n: int, k: nat)
    requires k < c.rows * c.cols
    ensures Slot(c, n, k + 1) == Slot(c, n, k) + 1 && Slot(c, n, k) < Slot(c, n, c.rows * c.cols)
    ensures Slot(c, n, c.rows * c.cols) == Slot(c, n + 1, 0)
  {
    var size := c.rows * c.cols;
    assert (n + 1) * size == n * size + size;
  }

  lemma {:induction false} FirstLane(c: Cut, k: nat)
    requires k < c.rows * c.cols
    ensures c.cols > 0 && LanesFrom(c.rows, c.cols, k) ==
        [(k / c.cols, k % c.cols)] + LanesFrom(c.rows, c.cols, k + 1)
  {
    LaneInTile(c.rows, c.cols, k);
  }

  lemma {:induction false} NextRises(c: Cut, across: nat, v: View, lane: Lane, rest: seq<Lane>, low: int, high: int)
    requires c.rows > 0 && c.cols > 0 && InView(v, lane) && (forall x :: x in rest ==> InView(v, x))
    requires Rising(c, across, Written(v, rest), low + 1, high) && Rank(c, across, Coordinate(v, lane)) == low < high
    ensures forall x :: x in [lane] + rest ==> InView(v, x)
    ensures Rising(c, across, Written(v, [lane] + rest), low, high)
  {
    hide Rank, Live, Coordinate;
    assert ([lane] + rest)[1..] == rest;
  }

  lemma {:induction false} RisingBoth(c: Cut, across: nat, a: seq<(int, int)>, b: seq<(int, int)>, low: int, mid: int,
          high: int)
    requires c.rows > 0 && c.cols > 0 && low <= mid <= high
    requires Rising(c, across, a, low, mid) && Rising(c, across, b, mid, high)
    ensures Rising(c, across, a + b, low, high)
  {
    hide Rank;
    forall m, n | 0 <= m < n < |a + b|
      ensures Rank(c, across, (a + b)[m]) < Rank(c, across, (a + b)[n])
    {
      if m < |a| <= n {
        assert a[m] in a && b[n - |a|] in b;
      }
    }
  }

  lemma {:induction false} ProgramsRise(t: Tensors, c: Cut, lhs: Matrix, rhs: Matrix, out: Matrix, n: nat)
    requires c.rows > 0 && c.cols > 0 && n <= |Programs(t, c, lhs, rhs, out)|
    ensures
      var programs := Programs(t, c, lhs, rhs, out);
      Rising(c, CeilDiv(out.cols, c.cols), AllWritten(programs[n..]), Slot(c, n, 0), Slot(c, |programs|, 0))
    decreases |Programs(t, c, lhs, rhs, out)| - n
  {
    var programs, across := Programs(t, c, lhs, rhs, out), CeilDiv(out.cols, c.cols);
    hide Rank, Rising, Slot;
    if n < |programs| {
      ProgramsRise(t, c, lhs, rhs, out, n + 1);
      ProgramRises(t, c, lhs, rhs, out, n);
      hide Programs, CeilDiv;
      assert programs[n..][0] == programs[n] && programs[n..][1..] == programs[n + 1..];
      SlotsRise(c, n, n + 1);
      SlotsRise(c, n + 1, |programs|);
      RisingBoth(c, across, Written(programs[n].c, Lanes(programs[n].c)), AllWritten(programs[n + 1..]),
          Slot(c, n, 0), Slot(c, n + 1, 0), Slot(c, |programs|, 0));
    } else {
      NothingRises(c, across, Slot(c, n, 0), Slot(c, |programs|, 0));
    }
  }

  lemma {:induction false} SlotsRise(c: Cut, m: nat, n: nat)
    requires m <= n
    ensures Slot(c, m, 0) <= Slot(c, n, 0)
  {
    Scale(m, n, c.rows * c.cols);
  }

  lemma {:induction false} ProgramRises(t: Tensors, c: Cut, lhs: Matrix, rhs: Matrix, out: Matrix, n: nat)
    requires c.rows > 0 && c.cols > 0 && n < |Programs(t, c, lhs, rhs, out)|
    ensures
      var v := Programs(t, c, lhs, rhs, out)[n].c;
      Rising(c, CeilDiv(out.cols, c.cols), Written(v, Lanes(v)), Slot(c, n, 0), Slot(c, n + 1, 0))
  {
    hide Build;
    var v, across := Programs(t, c, lhs, rhs, out)[n].c, CeilDiv(out.cols, c.cols);
    hide Rank, Rising, CeilDiv;
    ProgramPlace(n, across, |Programs(t, c, lhs, rhs, out)|, CeilDiv(out.rows, c.rows));
    assert Covers(v, c, n / across, n % across);
    hide Programs, Covers, Slot;
    LanesRise(v, c, across, n / across, n % across, 0);
    LaneSplits(n, across);
    SameWrites(v, c);
    LaterSlots(c, n, 0);
  }

  lemma {:induction false} NothingRises(c: Cut, across: nat, low: int, high: int)
    requires c.rows > 0 && c.cols > 0
    ensures Rising(c, across, AllWritten([]), low, high)
  {
  }

  lemma {:induction false} ProgramPlace(n: nat, across: nat, total: nat, down: nat)
    requires n < total == down * across
    ensures across > 0 && n / across < down
  {
    if across > 0 {
      FloorOf(n, across);
      if n / across >= down {
        Scale(down, n / across, across);
      }
    }
  }

  lemma {:induction false} SameWrites(v: View, c: Cut)
    requires v.row.rows == c.rows && v.row.cols == c.cols
    ensures Lanes(v) == LanesFrom(c.rows, c.cols, 0)
  {
  }

  // ----- coverage -----

  lemma {:induction false} LaneIsWritten(v: View, lanes: seq<Lane>, k: nat)
    requires (forall lane :: lane in lanes ==> InView(v, lane)) && k < |lanes| && Live(v, lanes[k])
    ensures Coordinate(v, lanes[k]) in Written(v, lanes)
    decreases |lanes|
  {
    if k > 0 {
      LaneIsWritten(v, lanes[1..], k - 1);
    }
  }

  lemma {:induction false} ProgramIsWritten(programs: seq<Blocks>, n: nat, at: (int, int))
    requires n < |programs| && at in Written(programs[n].c, Lanes(programs[n].c))
    ensures at in AllWritten(programs)
    decreases |programs|
  {
    if n > 0 {
      ProgramIsWritten(programs[1..], n - 1, at);
    }
  }

  /** The program and the lane of an element. */
  lemma {:induction false} ElementIsWritten(t: Tensors, c: Cut, lhs: Matrix, rhs: Matrix, out: Matrix, i: int, j: int)
    requires c.rows > 0 && c.cols > 0 && Within(out, i, j)
    ensures (i, j) in AllWritten(Programs(t, c, lhs, rhs, out))
  {
    var n := ProgramOf(c, out, i, j);
    ElementInProgram(t, c, lhs, rhs, out, i, j, n);
    ProgramIsWritten(Programs(t, c, lhs, rhs, out), n, (i, j));
  }

  lemma {:induction false} ElementInProgram(t: Tensors, c: Cut, lhs: Matrix, rhs: Matrix, out: Matrix, i: int, j: int,
          n: nat)
    requires c.rows > 0 && c.cols > 0 && Within(out, i, j) && n < |Programs(t, c, lhs, rhs, out)|
    requires n / CeilDiv(out.cols, c.cols) == i / c.rows && n % CeilDiv(out.cols, c.cols) == j / c.cols
    requires CeilDiv(out.cols, c.cols) > 0
    ensures var v := Programs(t, c, lhs, rhs, out)[n].c; (i, j) in Written(v, Lanes(v))
  {
    hide Block, CeilDiv;
    BlockWrites(Programs(t, c, lhs, rhs, out)[n].c, c, out, i, j);
  }

  lemma {:induction false} BlockWrites(v: View, c: Cut, out: Matrix, i: int, j: int)
    requires c.rows > 0 && c.cols > 0 && Within(out, i, j)
    requires Covers(v, c, i / c.rows, j / c.cols) && MaskIsRange(v, out)
    ensures (i, j) in Written(v, Lanes(v))
  {
    LaneSplits(i, c.rows);
    LaneSplits(j, c.cols);
    var lane: Lane := (i % c.rows, j % c.cols);
    assert Coordinate(v, lane) == (i, j) && Live(v, lane);
    hide Live, Coordinate, MaskIsRange, Written, Lanes;
    StoreMeaning.LanePlace(v, lane);
    var k := lane.0 * c.cols + lane.1;
    StoreMeaning.LaneAtPlace(v, lane, k);
    LaneIsWritten(v, Lanes(v), k);
  }

  lemma {:induction false} BlockNumber(x: nat, n: nat, d: nat)
    requires d > 0 && x < n
    ensures 0 <= x / d < CeilDiv(n, d)
  {
    FloorOf(x, d);
    FloorOf(n + d - 1, d);
    QuotientNatural(x, d);
    assert ((n + d - 1) / d + 1) * d == (n + d - 1) / d * d + d;
    if x / d >= CeilDiv(n, d) {
      Scale(CeilDiv(n, d), x / d, d);
    }
  }

  lemma {:induction false} ProgramOf(c: Cut, out: Matrix, i: int, j: int) returns (n: nat)
    requires c.rows > 0 && c.cols > 0 && Within(out, i, j)
    ensures
      var across := CeilDiv(out.cols, c.cols);
      across > 0 && n < CeilDiv(out.rows, c.rows) * across && n / across == i / c.rows && n % across == j / c.cols
  {
    BlockNumber(i, out.rows, c.rows);
    BlockNumber(j, out.cols, c.cols);
    hide CeilDiv;
    n := PairNumber(i / c.rows, j / c.cols, CeilDiv(out.rows, c.rows), CeilDiv(out.cols, c.cols));
  }

  lemma {:induction false} PairNumber(p: int, q: int, down: nat, across: nat) returns (n: nat)
    requires 0 <= p < down && 0 <= q < across
    ensures n < down * across && n / across == p && n % across == q
  {
    Scale(p + 1, down, across);
    Scale(0, p, across);
    assert (p + 1) * across == p * across + across;
    n := p * across + q;
    Decompose(n, p, across, q);
  }

  /** Elements of the output lie at different addresses. */
  ghost predicate Separate(s: Strides, out: Matrix) {
    forall x: (int, int), y: (int, int) ::
      Within(out, x.0, x.1) && Within(out, y.0, y.1) && Address(s, x) == Address(s, y) ==> x == y
  }

  /** Rows that do not overlap in memory keep the elements apart. */
  lemma {:induction false} RowsApartAreSeparate(s: Strides, out: Matrix)
    requires s.col > 0 && s.row >= out.cols * s.col
    ensures Separate(s, out)
  {
    forall x: (int, int), y: (int, int) | (Within(out, x.0, x.1) && Within(out, y.0, y.1)
                                           && Address(s, x) == Address(s, y))
      ensures x == y
    {
      if x.0 < y.0 {
        LowerRow(s, out, x, y);
      } else if y.0 < x.0 {
        LowerRow(s, out, y, x);
      } else {
        assert (x.1 - y.1) * s.col == x.1 * s.col - y.1 * s.col == 0;
      }
    }
  }

  lemma {:induction false} LowerRow(s: Strides, out: Matrix, x: (int, int), y: (int, int))
    requires s.col > 0 && s.row >= out.cols * s.col && x.0 < y.0
    requires Within(out, x.0, x.1) && Within(out, y.0, y.1)
    ensures Address(s, x) < Address(s, y)
  {
    Scale(0, s.col, out.cols);
    Scale(x.0 + 1, y.0, s.row);
    Scale(x.1 + 1, out.cols, s.col);
    Scale(0, y.1, s.col);
    assert (x.0 + 1) * s.row == x.0 * s.row + s.row && (x.1 + 1) * s.col == x.1 * s.col + s.col;
  }

  lemma {:induction false} WritesCounted(s: Strides, out: Matrix, at: seq<(int, int)>)
    requires Separate(s, out)
    requires (forall x :: x in at ==> Within(out, x.0, x.1)) && forall i, j :: Within(out, i, j) ==> (i, j) in at
    requires forall m, n :: 0 <= m < n < |at| ==> at[m] != at[n]
    ensures DistinctAddresses(s, at) && |at| == out.rows * out.cols
  {
    hide Address;
    forall m, n | 0 <= m < n < |at| ensures Address(s, at[m]) != Address(s, at[n]) {
      assert at[m] in at && at[n] in at;
    }
    DistinctSize(s, at);
    var cells := Cells(out.rows, out.cols);
    assert Covered(at) == cells by {
      forall x: (int, int) | x in cells ensures x in Covered(at) {
        assert Within(out, x.0, x.1) && x == (x.0, x.1);
      }
    }
  }

  /** Blocks of any size, cut from arrays of any extents, whose operand blocks span the summed
      dimension: the domain check accepts the launch with one program for each output block. */
  lemma {:induction false} StandardDomainAccepted(t: Tensors, c: Cut, lhs: Matrix, rhs: Matrix, out: Matrix, s: Strides)
    requires c.rows > 0 && c.cols > 0 && c.inner >= lhs.cols
    requires lhs.cols == rhs.rows && out.rows == lhs.rows && out.cols == rhs.cols && Separate(s, out)
    ensures DomainAccepted(lhs, rhs, out, s, Programs(t, c, lhs, rhs, out))
  {
    var programs := Programs(t, c, lhs, rhs, out);
    forall p | p in programs ensures BlocksAccepted(lhs, rhs, out, p) {
      EachAccepted(t, c, lhs, rhs, out, p);
    }
    ProgramsRise(t, c, lhs, rhs, out, 0);
    assert programs[0..] == programs;
    assert forall p :: p in programs ==> MaskIsRange(p.c, out);
    hide Rank, Programs, BlocksAccepted, MaskIsRange, CeilDiv, AllWritten, DistinctAddresses, Separate;
    AllWrittenWithin(programs, out);
    forall i, j | Within(out, i, j) ensures (i, j) in AllWritten(programs) {
      ElementIsWritten(t, c, lhs, rhs, out, i, j);
    }
    WritesCounted(s, out, AllWritten(programs));
  }

  lemma {:induction false} EachAccepted(t: Tensors, c: Cut, lhs: Matrix, rhs: Matrix, out: Matrix, p: Blocks)
    requires c.rows > 0 && c.cols > 0 && p in Programs(t, c, lhs, rhs, out)
    requires c.inner >= lhs.cols && lhs.cols == rhs.rows && out.rows == lhs.rows && out.cols == rhs.cols
    ensures BlocksAccepted(lhs, rhs, out, p)
  {
    hide BlocksAccepted, BlocksAt, CeilDiv, Programs;
    var programs, across := Programs(t, c, lhs, rhs, out), CeilDiv(out.cols, c.cols);
    var n :| 0 <= n < |programs| && programs[n] == p;
    ProgramAt(t, c, lhs, rhs, out, n);
    BlockAccepted(t, c, lhs, rhs, out, n / across, n % across);
  }

  lemma {:induction false} ProgramAt(t: Tensors, c: Cut, lhs: Matrix, rhs: Matrix, out: Matrix, n: nat)
    requires c.rows > 0 && c.cols > 0 && n < |Programs(t, c, lhs, rhs, out)|
    ensures CeilDiv(out.cols, c.cols) > 0
    ensures Programs(t, c, lhs, rhs, out)[n] ==
        BlocksAt(t, c, lhs, rhs, out, n / CeilDiv(out.cols, c.cols), n % CeilDiv(out.cols, c.cols))
  {
    hide CeilDiv, BlocksAt;
    ProgramPlace(n, CeilDiv(out.cols, c.cols), |Programs(t, c, lhs, rhs, out)|, CeilDiv(out.rows, c.rows));
  }

  /** So for any two matrices and any block sizes: the rewritten kernel, run over all programs and all
      live lanes in any order, leaves their product. */
  lemma {:induction false} StandardLaunchComputesProduct(matmul: Operation, store: Operation, t: Tensors,
          types: map<string, Type>, existing: set<string>, counter: nat, env: Env, mem: Memory, lhs: Matrix,
          rhs: Matrix, s: Strides, c: Cut, order: seq<nat>)
    requires t.outStorage in mem && Separate(s, mem[t.outStorage])
    requires c.rows > 0 && c.cols > 0 && c.inner >= lhs.cols
    requires lhs.cols == rhs.rows && mem[t.outStorage].rows == lhs.rows && mem[t.outStorage].cols == rhs.cols
    requires LaunchReady(matmul, store, t, types, existing, env, mem, lhs, rhs, mem[t.outStorage],
                 Programs(t, c, lhs, rhs, mem[t.outStorage]))
    requires Launchable(order, |Programs(t, c, lhs, rhs, mem[t.outStorage])|)
    requires forall n: nat :: n < |Programs(t, c, lhs, rhs, mem[t.outStorage])| ==> n in order
    ensures
      var r := RunPrograms(DecomposeMatMulStore(matmul, store, types, existing, counter).0, env, mem, t,
                           Programs(t, c, lhs, rhs, mem[t.outStorage]), order);
      r.Success? && t.outStorage in r.value && r.value[t.outStorage] == Product(lhs, rhs)
  {
    hide LaunchReady, DomainAccepted, Programs, Separate, Launchable, RunPrograms, Product, DecomposeMatMulStore;
    var out := mem[t.outStorage];
    StandardDomainAccepted(t, c, lhs, rhs, out, s);
    AcceptedLaunchComputesProduct(matmul, store, t, types, existing, counter, env, mem, lhs, rhs, s,
        Programs(t, c, lhs, rhs, out), order);
  }
}
