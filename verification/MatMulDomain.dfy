/** Multi-program decomposed matmul: the domain check of the interpreter and what a
    whole run over all programs and lanes leaves behind once it accepts. */
module MatMulDomain {
  import opened Wrappers
  import opened Ssa
  import opened Interpreter
  import Arithmetic
  import opened Linalg
  import opened LaneReplay

  /** The arranged blocks of one program. */
  datatype Blocks = Blocks(a: View, b: View, c: View)

  datatype Strides = Strides(row: int, col: int)

  // ----- the domain check -----

  predicate ShapesAgree(lhs: Matrix, rhs: Matrix, p: Blocks) {
    && p.a.row.rows == p.c.row.rows && p.b.row.cols == p.c.row.cols && p.a.row.cols == p.b.row.rows
    && p.a.row.cols >= lhs.cols && p.b.row.rows >= rhs.rows
    && p.a.other == 0 && p.b.other == 0
  }

  predicate CoordinatesAgree(p: Blocks)
    requires p.a.row.rows == p.c.row.rows && p.b.row.cols == p.c.row.cols && p.a.row.cols == p.b.row.rows
  {
    && (forall i, j, k :: 0 <= i < p.c.row.rows && 0 <= j < p.c.row.cols && 0 <= k < p.a.row.cols ==>
          At(p.a.row, i, k) == At(p.c.row, i, j) && At(p.b.col, k, j) == At(p.c.col, i, j))
    && (forall i, k :: 0 <= i < p.a.row.rows && 0 <= k < p.a.row.cols ==> At(p.a.col, i, k) == k)
    && (forall k, j :: 0 <= k < p.b.row.rows && 0 <= j < p.b.row.cols ==> At(p.b.row, k, j) == k)
  }

  /** A block is live exactly on the lanes that address its array. */
  predicate MaskIsRange(v: View, m: Matrix) {
    forall i, j :: 0 <= i < v.row.rows && 0 <= j < v.row.cols ==>
      (Live(v, (i, j)) <==> Within(m, At(v.row, i, j), At(v.col, i, j)))
  }

  predicate BlocksAccepted(lhs: Matrix, rhs: Matrix, out: Matrix, p: Blocks) {
    && ShapesAgree(lhs, rhs, p)
    && CoordinatesAgree(p)
    && MaskIsRange(p.a, lhs) && MaskIsRange(p.b, rhs) && MaskIsRange(p.c, out)
  }

  function Coordinate(v: View, lane: Lane): (int, int)
    requires InView(v, lane)
  {
    (At(v.row, lane.0, lane.1), At(v.col, lane.0, lane.1))
  }

  function Address(s: Strides, at: (int, int)): int {
    at.0 * s.row + at.1 * s.col
  }

  /** The coordinates written through the live lanes of `lanes`, in order. */
  function Written(v: View, lanes: seq<Lane>): seq<(int, int)>
    requires forall lane :: lane in lanes ==> InView(v, lane)
    decreases |lanes|
  {
    if lanes == [] then []
    else (if Live(v, lanes[0]) then [Coordinate(v, lanes[0])] else []) + Written(v, lanes[1..])
  }

  /** Every coordinate written by the programs, in launch order. */
  function AllWritten(programs: seq<Blocks>): seq<(int, int)>
    decreases |programs|
  {
    if programs == [] then [] else Written(programs[0].c, Lanes(programs[0].c)) + AllWritten(programs[1..])
  }

  predicate DistinctAddresses(s: Strides, at: seq<(int, int)>) {
    forall i, j :: 0 <= i < j < |at| ==> Address(s, at[i]) != Address(s, at[j])
  }

  /** `_validate_scalar_matmul_domain`: every block matches its program, no two writes
      share an address, and as many elements are written as the output has. */
  predicate DomainAccepted(lhs: Matrix, rhs: Matrix, out: Matrix, s: Strides, programs: seq<Blocks>) {
    && lhs.cols == rhs.rows && out.rows == lhs.rows && out.cols == rhs.cols
    && (forall p :: p in programs ==> BlocksAccepted(lhs, rhs, out, p))
    && DistinctAddresses(s, AllWritten(programs))
    && |AllWritten(programs)| == out.rows * out.cols
  }

  function AddressSet(s: Strides, at: seq<(int, int)>): set<int> {
    set i | 0 <= i < |at| :: Address(s, at[i])
  }

  lemma {:induction false} DistinctConcat(s: Strides, a: seq<(int, int)>, b: seq<(int, int)>)
    ensures DistinctAddresses(s, a + b) <==>
        DistinctAddresses(s, a) && DistinctAddresses(s, b) && AddressSet(s, a) !! AddressSet(s, b)
    ensures AddressSet(s, a + b) == AddressSet(s, a) + AddressSet(s, b)
  {
    var ab := a + b;
    if DistinctAddresses(s, ab) {
      forall i, j | 0 <= i < |a| && 0 <= j < |b|
        ensures Address(s, a[i]) != Address(s, b[j])
      {
        assert Address(s, ab[i]) != Address(s, ab[|a| + j]);
      }
      forall i, j | 0 <= i < j < |b|
        ensures Address(s, b[i]) != Address(s, b[j])
      {
        assert Address(s, ab[|a| + i]) != Address(s, ab[|a| + j]);
      }
      forall i, j | 0 <= i < j < |a|
        ensures Address(s, a[i]) != Address(s, a[j])
      {
        assert Address(s, ab[i]) != Address(s, ab[j]);
      }
    }
    if DistinctAddresses(s, a) && DistinctAddresses(s, b) && AddressSet(s, a) !! AddressSet(s, b) {
      forall i, j | 0 <= i < j < |ab|
        ensures Address(s, ab[i]) != Address(s, ab[j])
      {
        if i < |a| <= j {
          assert Address(s, a[i]) in AddressSet(s, a) && Address(s, b[j - |a|]) in AddressSet(s, b);
        } else if |a| <= i {
          assert ab[i] == b[i - |a|] && ab[j] == b[j - |a|];
        }
      }
    }
    forall x | x in AddressSet(s, a) + AddressSet(s, b)
      ensures x in AddressSet(s, ab)
    {
      if x in AddressSet(s, a) {
        var i :| 0 <= i < |a| && x == Address(s, a[i]);
        assert ab[i] == a[i];
      } else {
        var j :| 0 <= j < |b| && x == Address(s, b[j]);
        assert ab[|a| + j] == b[j];
      }
    }
  }

  lemma {:induction false} WrittenConcat(v: View, a: seq<Lane>, b: seq<Lane>)
    requires forall lane :: lane in a + b ==> InView(v, lane)
    ensures (forall lane :: lane in a ==> lane in a + b && InView(v, lane))
    ensures (forall lane :: lane in b ==> lane in a + b && InView(v, lane))
    ensures Written(v, a + b) == Written(v, a) + Written(v, b)
    decreases |a|
  {
    assert forall lane :: lane in a ==> lane in a + b;
    assert forall lane :: lane in b ==> lane in a + b;
    if a == [] {
      assert a + b == b;
    } else {
      assert (a + b)[0] == a[0] && (a + b)[1..] == a[1..] + b;
      WrittenConcat(v, a[1..], b);
    }
  }

  /** The addresses of one block: each must be new. */
  method CheckBlock(s: Strides, v: View, seen: set<int>, count: nat, ghost before: seq<(int, int)>)
    returns (ok: bool, seen': set<int>, count': nat)
    requires DistinctAddresses(s, before) && seen == AddressSet(s, before) && count == |before|
    ensures ok <==> DistinctAddresses(s, before + Written(v, Lanes(v)))
    ensures ok ==> seen' == AddressSet(s, before + Written(v, Lanes(v))) && count' == |before + Written(v, Lanes(v))|
  {
    hide Live, Coordinate, Address;
    var lanes := Lanes(v);
    seen', count', ok := seen, count, true;
    ghost var done := before;
    assert lanes[..0] == [] && before + Written(v, lanes[..0]) == before;
    for i := 0 to |lanes|
      invariant done == before + Written(v, lanes[..i]) && ok
      invariant DistinctAddresses(s, done) && seen' == AddressSet(s, done) && count' == |done|
    {
      WrittenStep(v, lanes, i);
      if Live(v, lanes[i]) {
        var at := Coordinate(v, lanes[i]);
        var address := Address(s, at);
        DistinctConcat(s, done, [at]);
        assert AddressSet(s, [at]) == {address} by {
          assert [at][0] == at;
        }
        done := done + [at];
        if address in seen' {
          ghost var later := lanes[i + 1..];
          assert lanes == lanes[..i + 1] + later;
          WrittenConcat(v, lanes[..i + 1], later);
          assert before + Written(v, lanes) == done + Written(v, later);
          DistinctConcat(s, done, Written(v, later));
          return false, seen', count';
        }
        seen', count' := seen' + {address}, count' + 1;
      }
    }
    assert lanes[..|lanes|] == lanes;
  }

  lemma {:induction false} WrittenStep(v: View, lanes: seq<Lane>, i: nat)
    requires i < |lanes| && forall lane :: lane in lanes ==> InView(v, lane)
    ensures forall lane :: lane in lanes[..i + 1] ==> InView(v, lane)
    ensures Written(v, lanes[..i + 1]) == Written(v, lanes[..i]) + if Live(v, lanes[i]) then [Coordinate(v, lanes[i])]
        else []
  {
    assert lanes[..i + 1] == lanes[..i] + [lanes[i]];
    WrittenConcat(v, lanes[..i], [lanes[i]]);
    var one := [lanes[i]];
    assert one[1..] == [];
  }

  /** The checking loop: the addresses of all blocks must be pairwise distinct and as
      many as the output has elements. */
  method CheckWrites(s: Strides, programs: seq<Blocks>, size: nat) returns (ok: bool)
    ensures ok <==> DistinctAddresses(s, AllWritten(programs)) && |AllWritten(programs)| == size
  {
    var seen: set<int>, count: nat := {}, 0;
    ghost var done: seq<(int, int)> := [];
    for n := 0 to |programs|
      invariant AllWritten(programs) == done + AllWritten(programs[n..])
      invariant DistinctAddresses(s, done) && seen == AddressSet(s, done) && count == |done|
    {
      assert programs[n..][0] == programs[n] && programs[n..][1..] == programs[n + 1..];
      ghost var next := done + Written(programs[n].c, Lanes(programs[n].c));
      assert AllWritten(programs) == next + AllWritten(programs[n + 1..]);
      ok, seen, count := CheckBlock(s, programs[n].c, seen, count, done);
      if !ok {
        DistinctConcat(s, next, AllWritten(programs[n + 1..]));
        return false;
      }
      done := next;
    }
    assert AllWritten(programs) == done;
    ok := count == size;
  }

  // ----- every output element is written exactly once -----

  ghost function RowCells(i: int, cols: nat): (r: set<(int, int)>)
    ensures |r| == cols
    ensures forall x: (int, int) :: x in r <==> x.0 == i && 0 <= x.1 < cols
  {
    if cols == 0 then {} else RowCells(i, cols - 1) + {(i, cols - 1)}
  }

  /** The index pairs of a matrix, of which there are rows * cols. */
  ghost function Cells(rows: nat, cols: nat): (r: set<(int, int)>)
    ensures |r| == rows * cols
    ensures forall x: (int, int) :: x in r <==> 0 <= x.0 < rows && 0 <= x.1 < cols
  {
    if rows == 0 then {} else
      var rest, row := Cells(rows - 1, cols), RowCells(rows - 1, cols);
      assert rest !! row && (rows - 1) * cols + cols == rows * cols;
      rest + row
  }

  ghost function Covered(at: seq<(int, int)>): set<(int, int)> {
    set x | x in at
  }

  lemma {:induction false} DistinctSize(s: Strides, at: seq<(int, int)>)
    requires DistinctAddresses(s, at)
    ensures |Covered(at)| == |at|
    decreases |at|
  {
    if at != [] {
      var rest := at[..|at| - 1];
      DistinctSize(s, rest);
      var last := at[|at| - 1];
      assert at == rest + [last];
      forall i | 0 <= i < |rest|
        ensures rest[i] != last
      {
        assert Address(s, at[i]) != Address(s, at[|at| - 1]);
      }
      assert Covered(at) == Covered(rest) + {last};
    }
  }

  lemma {:induction false} SubsetOfSameSize<T>(a: set<T>, b: set<T>)
    requires a <= b && |a| == |b|
    ensures a == b
  {
    if a != b {
      var x :| x in b && x !in a;
      assert a <= b - {x};
      Arithmetic.SubsetSize(a, b - {x});
    }
  }

  lemma {:induction false} WrittenWithin(v: View, m: Matrix, lanes: seq<Lane>)
    requires MaskIsRange(v, m) && forall lane :: lane in lanes ==> InView(v, lane)
    ensures forall at :: at in Written(v, lanes) ==> Within(m, at.0, at.1)
    ensures forall at :: at in Written(v, lanes) ==>
        exists lane :: lane in lanes && Live(v, lane) && Coordinate(v, lane) == at
    decreases |lanes|
  {
    if lanes != [] {
      WrittenWithin(v, m, lanes[1..]);
      forall at | at in Written(v, lanes)
        ensures exists lane :: lane in lanes && Live(v, lane) && Coordinate(v, lane) == at
      {
        if at in Written(v, lanes[1..]) {
          var lane :| lane in lanes[1..] && Live(v, lane) && Coordinate(v, lane) == at;
          assert lane in lanes;
        } else {
          assert lanes[0] in lanes;
        }
      }
    }
  }

  lemma {:induction false} AllWrittenWithin(programs: seq<Blocks>, out: Matrix)
    requires forall p :: p in programs ==> MaskIsRange(p.c, out)
    ensures forall at :: at in AllWritten(programs) ==> Within(out, at.0, at.1)
    ensures forall at :: at in AllWritten(programs) ==>
        exists p: nat :: p < |programs| && at in Written(programs[p].c, Lanes(programs[p].c))
    decreases |programs|
  {
    if programs != [] {
      AllWrittenWithin(programs[1..], out);
      WrittenWithin(programs[0].c, out, Lanes(programs[0].c));
      forall at | at in AllWritten(programs)
        ensures exists p: nat :: p < |programs| && at in Written(programs[p].c, Lanes(programs[p].c))
      {
        if at in Written(programs[0].c, Lanes(programs[0].c)) {
        } else {
          assert at in AllWritten(programs[1..]);
          var p: nat :| p < |programs[1..]| && at in Written(programs[1..][p].c, Lanes(programs[1..][p].c));
          assert programs[p + 1] == programs[1..][p];
        }
      }
    }
  }

  /** Distinct addresses inside the output, as many as it has elements, are all of it. */
  lemma {:induction false} ExactCover(s: Strides, at: seq<(int, int)>, out: Matrix)
    requires DistinctAddresses(s, at) && |at| == out.rows * out.cols
    requires forall x :: x in at ==> Within(out, x.0, x.1)
    ensures forall i, j :: Within(out, i, j) ==> (i, j) in at
    ensures forall m, n :: 0 <= m < n < |at| ==> at[m] != at[n]
  {
    DistinctSize(s, at);
    var cells := Cells(out.rows, out.cols);
    assert Covered(at) <= cells;
    SubsetOfSameSize(Covered(at), cells);
    forall i, j | Within(out, i, j)
      ensures (i, j) in at
    {
      assert (i, j) in cells;
      assert (i, j) in Covered(at);
    }
    forall m, n | 0 <= m < n < |at|
      ensures at[m] != at[n]
    {
      assert Address(s, at[m]) != Address(s, at[n]);
    }
  }

  /** An accepted domain writes every output element, and no element twice. */
  lemma {:induction false} AcceptedDomainCoversOnce(lhs: Matrix, rhs: Matrix, out: Matrix, s: Strides,
          programs: seq<Blocks>)
    requires DomainAccepted(lhs, rhs, out, s, programs)
    ensures forall i, j :: Within(out, i, j) ==> (i, j) in AllWritten(programs)
    ensures forall at :: at in AllWritten(programs) ==> Within(out, at.0, at.1)
    ensures forall m, n :: 0 <= m < n < |AllWritten(programs)| ==> AllWritten(programs)[m] != AllWritten(programs)[n]
  {
    AllMasksRange(lhs, rhs, out, s, programs);
    hide BlocksAccepted, MaskIsRange, DistinctAddresses, AllWritten;
    AllWrittenWithin(programs, out);
    ExactCover(s, AllWritten(programs), out);
  }

  lemma {:induction false} AllMasksRange(lhs: Matrix, rhs: Matrix, out: Matrix, s: Strides, programs: seq<Blocks>)
    requires DomainAccepted(lhs, rhs, out, s, programs)
    ensures forall p :: p in programs ==> MaskIsRange(p.c, out) && BlocksAccepted(lhs, rhs, out, p)
  {
    hide ShapesAgree, CoordinatesAgree, MaskIsRange, AllWritten, DistinctAddresses;
  }

  // ----- the whole run -----

  /** Every element of `at` holds the wanted value. */
  ghost predicate Holds(m: Matrix, want: Matrix, at: seq<(int, int)>) {
    m.rows == want.rows && m.cols == want.cols
    && forall x :: x in at ==> Within(m, x.0, x.1) && At(m, x.0, x.1) == At(want, x.0, x.1)
  }

  ghost predicate Unchanged(before: Matrix, after: Matrix, at: seq<(int, int)>) {
    before.rows == after.rows && before.cols == after.cols
    && forall i, j :: Within(before, i, j) && (i, j) !in at ==> At(after, i, j) == At(before, i, j)
  }

  /** Lanes that store the wanted values establish them exactly where they write. */
  lemma {:induction false} StoresEstablish(v: View, m: Matrix, tile: Matrix, want: Matrix, lanes: seq<Lane>)
    requires AccessHolds(v, m) && tile.rows == v.row.rows && tile.cols == v.row.cols && want.rows == m.rows
    requires want.cols == m.cols
    requires forall lane :: lane in lanes ==> InView(v, lane)
    requires forall lane :: lane in lanes && Live(v, lane) ==>
        At(tile, lane.0, lane.1) == At(want, Coordinate(v, lane).0, Coordinate(v, lane).1)
    ensures Holds(StoreLanes(v, m, tile, lanes), want, Written(v, lanes))
    ensures Unchanged(m, StoreLanes(v, m, tile, lanes), Written(v, lanes))
    decreases |lanes|
  {
    if lanes != [] {
      var lane := lanes[0];
      assert InView(v, lane);
      var next := if Live(v, lane) then Put(m, At(v.row, lane.0, lane.1), At(v.col, lane.0, lane.1),
          At(tile, lane.0, lane.1)) else m;
      StoresEstablish(v, next, tile, want, lanes[1..]);
      var after := StoreLanes(v, m, tile, lanes);
      forall x | x in Written(v, lanes)
        ensures Within(after, x.0, x.1) && At(after, x.0, x.1) == At(want, x.0, x.1)
      {
        if x !in Written(v, lanes[1..]) {
          assert Live(v, lane) && x == Coordinate(v, lane);
          assert At(next, x.0, x.1) == At(want, x.0, x.1);
        }
      }
    }
  }

  /** One term of a padded block: the elements of the whole arrays, or zero past their end. */
  ghost predicate PaddedAt(lhs: Matrix, rhs: Matrix, a: Matrix, b: Matrix, lane: Lane, at: (int, int), n: int) {
    && Within(a, lane.0, n) && Within(b, n, lane.1) && 0 <= at.0 < lhs.rows && 0 <= at.1 < rhs.cols
    && lhs.cols == rhs.rows
    && At(a, lane.0, n) == (if n < lhs.cols then At(lhs, at.0, n) else 0)
    && At(b, n, lane.1) == (if n < lhs.cols then At(rhs, n, at.1) else 0)
  }

  lemma {:induction false} PaddedTerm(lhs: Matrix, rhs: Matrix, out: Matrix, p: Blocks, lane: Lane, n: nat)
    requires BlocksAccepted(lhs, rhs, out, p) && lhs.cols == rhs.rows && out.rows == lhs.rows && out.cols == rhs.cols
    requires AccessHolds(p.a, lhs) && AccessHolds(p.b, rhs)
    requires InView(p.c, lane) && Live(p.c, lane) && n < p.a.row.cols
    ensures PaddedAt(lhs, rhs, ReadAll(p.a, lhs), ReadAll(p.b, rhs), lane, Coordinate(p.c, lane), n)
  {
    hide At, Build;
    var at, i, j := Coordinate(p.c, lane), lane.0, lane.1;
    assert Within(out, at.0, at.1);
    assert At(p.a.row, i, n) == at.0 && At(p.a.col, i, n) == n;
    assert At(p.b.row, n, j) == n && At(p.b.col, n, j) == at.1;
    assert Live(p.a, (i, n)) <==> n < lhs.cols;
    assert Live(p.b, (n, j)) <==> n < rhs.rows;
    assert At(ReadAll(p.a, lhs), i, n) == Fetch(p.a, lhs, (i, n));
    assert At(ReadAll(p.b, rhs), n, j) == Fetch(p.b, rhs, (n, j));
  }

  /** Row `lane.0` of `a` and column `lane.1` of `b` are those of the whole arrays at `at`,
      followed by zeros. */
  ghost predicate Padded(lhs: Matrix, rhs: Matrix, a: Matrix, b: Matrix, lane: Lane, at: (int, int)) {
    && a.cols == b.rows && lane.0 < a.rows && lane.1 < b.cols
    && lhs.cols == rhs.rows && 0 <= at.0 < lhs.rows && 0 <= at.1 < rhs.cols
    && forall n :: 0 <= n < a.cols ==> PaddedAt(lhs, rhs, a, b, lane, at, n)
  }

  /** A padded block sums to the full product element: dead lanes contribute zero. */
  lemma {:induction false} PaddedSum(lhs: Matrix, rhs: Matrix, a: Matrix, b: Matrix, lane: Lane, at: (int, int), k: nat)
    requires Padded(lhs, rhs, a, b, lane, at) && k <= a.cols
    ensures DotPrefix(a, b, lane.0, lane.1, k) == DotPrefix(lhs, rhs, at.0, at.1, if k <= lhs.cols then k else lhs.cols)
    decreases k
  {
    if k > 0 {
      PaddedSum(lhs, rhs, a, b, lane, at, k - 1);
      assert PaddedAt(lhs, rhs, a, b, lane, at, k - 1);
    }
  }

  lemma {:induction false} BlocksAreAccessible(lhs: Matrix, rhs: Matrix, out: Matrix, p: Blocks)
    requires BlocksAccepted(lhs, rhs, out, p)
    ensures AccessHolds(p.a, lhs) && AccessHolds(p.b, rhs) && AccessHolds(p.c, out)
  {
  }

  lemma {:induction false} LaneStoresProduct(lhs: Matrix, rhs: Matrix, out: Matrix, p: Blocks, lane: Lane)
    requires BlocksAccepted(lhs, rhs, out, p) && lhs.cols == rhs.rows && out.rows == lhs.rows && out.cols == rhs.cols
    requires AccessHolds(p.a, lhs) && AccessHolds(p.b, rhs) && InView(p.c, lane) && Live(p.c, lane)
    ensures
      var tile, want, at := Product(ReadAll(p.a, lhs), ReadAll(p.b, rhs)), Product(lhs, rhs), Coordinate(p.c, lane);
      Within(tile, lane.0, lane.1) && Within(want, at.0, at.1) && At(tile, lane.0, lane.1) == At(want, at.0, at.1)
  {
    var a, b, at := ReadAll(p.a, lhs), ReadAll(p.b, rhs), Coordinate(p.c, lane);
    LaneIsWithin(lhs, rhs, out, p, lane, a, b);
    TermsPadded(lhs, rhs, out, p, lane, a, b, at);
    hide BlocksAccepted, ReadAll, Coordinate, AccessHolds;
    PaddedSum(lhs, rhs, a, b, lane, at, a.cols);
  }

  lemma {:induction false} LaneIsWithin(lhs: Matrix, rhs: Matrix, out: Matrix, p: Blocks, lane: Lane, a: Matrix,
          b: Matrix)
    requires BlocksAccepted(lhs, rhs, out, p) && InView(p.c, lane) && Live(p.c, lane)
    requires AccessHolds(p.a, lhs) && AccessHolds(p.b, rhs)
    requires a == ReadAll(p.a, lhs) && b == ReadAll(p.b, rhs)
    ensures Within(out, Coordinate(p.c, lane).0, Coordinate(p.c, lane).1)
    ensures a.cols == p.a.row.cols && a.cols == b.rows && a.cols >= lhs.cols && lane.0 < a.rows && lane.1 < b.cols
  {
    hide CoordinatesAgree, AccessHolds;
    assert MaskIsRange(p.c, out);
  }

  lemma {:induction false} TermsPadded(lhs: Matrix, rhs: Matrix, out: Matrix, p: Blocks, lane: Lane, a: Matrix,
          b: Matrix, at: (int, int))
    requires BlocksAccepted(lhs, rhs, out, p) && lhs.cols == rhs.rows && out.rows == lhs.rows && out.cols == rhs.cols
    requires AccessHolds(p.a, lhs) && AccessHolds(p.b, rhs) && InView(p.c, lane) && Live(p.c, lane)
    requires a == ReadAll(p.a, lhs) && b == ReadAll(p.b, rhs) && at == Coordinate(p.c, lane)
    ensures Padded(lhs, rhs, a, b, lane, at)
  {
    LaneIsWithin(lhs, rhs, out, p, lane, a, b);
    hide BlocksAccepted, ReadAll, Coordinate, AccessHolds, PaddedAt;
    forall n | 0 <= n < a.cols
      ensures PaddedAt(lhs, rhs, a, b, lane, at, n)
    {
      PaddedTerm(lhs, rhs, out, p, lane, n);
    }
  }

  /** What the lanes of one program store is the product of the whole arrays. */
  lemma {:induction false} BlockStoresProduct(lhs: Matrix, rhs: Matrix, out: Matrix, p: Blocks, m: Matrix)
    requires BlocksAccepted(lhs, rhs, out, p) && lhs.cols == rhs.rows && out.rows == lhs.rows && out.cols == rhs.cols
    requires AccessHolds(p.a, lhs) && AccessHolds(p.b, rhs) && AccessHolds(p.c, m) && m.rows == out.rows
    requires m.cols == out.cols
    ensures var after := StoreLanes(p.c, m, Product(ReadAll(p.a, lhs), ReadAll(p.b, rhs)), Lanes(p.c));
            && Holds(after, Product(lhs, rhs), Written(p.c, Lanes(p.c)))
            && Unchanged(m, after, Written(p.c, Lanes(p.c)))
  {
    var tile := Product(ReadAll(p.a, lhs), ReadAll(p.b, rhs));
    forall lane | lane in Lanes(p.c) && Live(p.c, lane)
      ensures At(tile, lane.0, lane.1) == At(Product(lhs, rhs), Coordinate(p.c, lane).0, Coordinate(p.c, lane).1)
    {
      LaneStoresProduct(lhs, rhs, out, p, lane);
    }
    StoresEstablish(p.c, m, tile, Product(lhs, rhs), Lanes(p.c));
  }

  /** The names by which the kernel refers to its three tensors, and their storage. */
  datatype Tensors = Tensors(lhs: string, rhs: string, out: string, lhsStorage: string, rhsStorage: string,
      outStorage: string)

  function ViewsOf(t: Tensors, p: Blocks): map<string, View> {
    map[t.lhs := p.a, t.rhs := p.b, t.out := p.c]
  }

  predicate Launchable(order: seq<nat>, count: nat) {
    forall i :: 0 <= i < |order| ==> order[i] < count
  }

  /** `_Execution.run` over the programs of `order`, each replaying its output lanes. */
  function RunPrograms(ops: seq<Operation>, env: Env, mem: Memory, t: Tensors, programs: seq<Blocks>,
          order: seq<nat>): Outcome<Memory>
    requires Launchable(order, |programs|)
    decreases |order|
  {
    if order == [] then Success(mem)
    else
      var p := programs[order[0]];
      var after :- RunLanes(ops, env, mem, ViewsOf(t, p), p.c, Lanes(p.c));
      RunPrograms(ops, env, after, t, programs, order[1..])
  }

  ghost predicate LaunchReady(matmul: Operation, store: Operation, t: Tensors, types: map<string, Type>,
          existing: set<string>, env: Env, mem: Memory, lhs: Matrix, rhs: Matrix, out: Matrix, programs: seq<Blocks>) {
    && ClosesMatMul(matmul, store)
    && |store.operands| == 2 && store.results == [] && store.attrs.indices == []
    && store.attrs.decomposition == NotDecomposed
    && store.operands[1] != matmul.results[0].name
    && matmul.operands[0] in env && env[matmul.operands[0]] == Ref(t.lhs)
    && matmul.operands[1] in env && env[matmul.operands[1]] == Ref(t.rhs)
    && store.operands[1] in env && env[store.operands[1]] == Ref(t.out)
    && t.lhs != t.out && t.rhs != t.out && t.lhs != t.rhs && t.lhsStorage != t.outStorage
    && t.rhsStorage != t.outStorage
    && t.lhsStorage in mem && mem[t.lhsStorage] == lhs && t.rhsStorage in mem && mem[t.rhsStorage] == rhs
    && t.outStorage in mem && mem[t.outStorage].rows == out.rows && mem[t.outStorage].cols == out.cols
    && env.Keys <= existing && KK !in env && ACC_ITER !in env
    && (forall p :: p in programs ==>
        p.a.storage == t.lhsStorage && p.b.storage == t.rhsStorage && p.c.storage == t.outStorage)
    && var extent := ExtentOf(matmul.attrs.k, TypeOf(types, matmul.operands[0]), TypeOf(types, matmul.operands[1]));
       extent.FromSymbol? ==> extent.name in env && forall p :: p in programs ==> env[extent.name] == Num(p.a.row.cols)
  }

  /** A ready launch hands every program a whole-tile product and its store. */
  lemma {:induction false} ProgramIsReady(matmul: Operation, store: Operation, t: Tensors, types: map<string, Type>,
          existing: set<string>, env: Env, mem: Memory, lhs: Matrix, rhs: Matrix, out: Matrix, programs: seq<Blocks>,
          p: Blocks)
    requires LaunchReady(matmul, store, t, types, existing, env, mem, lhs, rhs, out, programs) && p in programs
    requires BlocksAccepted(lhs, rhs, out, p) && out.rows == lhs.rows && out.cols == rhs.cols
    requires AccessHolds(p.a, lhs) && AccessHolds(p.b, rhs) && AccessHolds(p.c, out)
    ensures var views, a, b := ViewsOf(t, p), ReadAll(p.a, lhs), ReadAll(p.b, rhs);
            && StoredProduct(matmul, store, t.out, env, mem, views, a, b)
            && Apart(env[matmul.operands[0]], views[t.out].storage, views)
            && Apart(env[matmul.operands[1]], views[t.out].storage, views)
            && views[t.out] == p.c && p.c.storage == t.outStorage && AccessHolds(p.c, mem[t.outStorage])
            && var extent := ExtentOf(matmul.attrs.k, TypeOf(types, matmul.operands[0]),
                TypeOf(types, matmul.operands[1]));
               extent.FromSymbol? ==> extent.name in env && env[extent.name] == Num(a.cols)
  {
    hide TypeOf, ExtentOf, CoordinatesAgree, MaskIsRange;
    var a := ReadAll(p.a, lhs);
    assert a.cols == p.a.row.cols;
    assert AccessHolds(p.c, mem[t.outStorage]);
  }

  /** Writing the output keeps a launch ready. */
  lemma {:induction false} StillReady(matmul: Operation, store: Operation, t: Tensors, types: map<string, Type>,
          existing: set<string>, env: Env, mem: Memory, lhs: Matrix, rhs: Matrix, out: Matrix, programs: seq<Blocks>,
          next: Matrix)
    requires LaunchReady(matmul, store, t, types, existing, env, mem, lhs, rhs, out, programs) && next.rows == out.rows
    requires next.cols == out.cols
    ensures LaunchReady(matmul, store, t, types, existing, env, mem[t.outStorage := next], lhs, rhs, out, programs)
  {
    hide ExtentOf, TypeOf, ClosesMatMul;
  }

  /** One program writes the product of the whole arrays where its lanes are live. */
  lemma {:induction false} ProgramRuns(matmul: Operation, store: Operation, t: Tensors, types: map<string, Type>,
          existing: set<string>, counter: nat, env: Env, mem: Memory, lhs: Matrix, rhs: Matrix, out: Matrix,
          programs: seq<Blocks>, n: nat)
    returns (after: Memory)
    requires LaunchReady(matmul, store, t, types, existing, env, mem, lhs, rhs, out, programs) && n < |programs|
    requires BlocksAccepted(lhs, rhs, out, programs[n]) && lhs.cols == rhs.rows && out.rows == lhs.rows
    requires out.cols == rhs.cols
    ensures var p := programs[n];
            && RunLanes(DecomposeMatMulStore(matmul, store, types, existing, counter).0, env, mem, ViewsOf(t, p), p.c,
                Lanes(p.c)) == Success(after)
            && LaunchReady(matmul, store, t, types, existing, env, after, lhs, rhs, out, programs)
            && Holds(after[t.outStorage], Product(lhs, rhs), Written(p.c, Lanes(p.c)))
            && Unchanged(mem[t.outStorage], after[t.outStorage], Written(p.c, Lanes(p.c)))
  {
    hide ClosesMatMul;
    var p := programs[n];
    assert p in programs;
    BlocksAreAccessible(lhs, rhs, out, p);
    ProgramIsReady(matmul, store, t, types, existing, env, mem, lhs, rhs, out, programs, p);
    var m, a, b := mem[t.outStorage], ReadAll(p.a, lhs), ReadAll(p.b, rhs);
    BlockStoresProduct(lhs, rhs, out, p, m);
    var views := ViewsOf(t, p);
    hide BlocksAccepted, DecomposeMatMulStore, ExecOperations, RunLanes, StoreLanes, Product, Written, ReadAll, ViewsOf,
        StoredProduct, Apart, AccessHolds, ExtentOf, TypeOf, Reads, Lanes;
    WholeTileRuns(matmul, store, t.out, env, mem, views, a, b);
    DecompositionPreservesMeaning(matmul, store, t.out, types, existing, counter, env, mem, views, a, b);
    var next := StoreLanes(p.c, m, Product(a, b), Lanes(p.c));
    after := mem[t.outStorage := next];
    StillReady(matmul, store, t, types, existing, env, mem, lhs, rhs, out, programs, next);
  }

  /** Where the programs of `order` write. */
  ghost function Visited(programs: seq<Blocks>, order: seq<nat>): seq<(int, int)>
    requires Launchable(order, |programs|)
    decreases |order|
  {
    if order == [] then []
    else
      Written(programs[order[0]].c, Lanes(programs[order[0]].c))
      + Visited(programs, order[1..])
  }

  lemma {:induction false} ProgramsRun(matmul: Operation, store: Operation, t: Tensors, types: map<string, Type>,
          existing: set<string>, counter: nat, env: Env, mem: Memory, lhs: Matrix, rhs: Matrix, out: Matrix,
          programs: seq<Blocks>, order: seq<nat>)
    returns (after: Memory)
    requires LaunchReady(matmul, store, t, types, existing, env, mem, lhs, rhs, out, programs)
    requires (forall p :: p in programs ==> BlocksAccepted(lhs, rhs, out, p)) && lhs.cols == rhs.rows
    requires out.rows == lhs.rows && out.cols == rhs.cols
    requires Launchable(order, |programs|)
    ensures RunPrograms(DecomposeMatMulStore(matmul, store, types, existing, counter).0, env, mem, t, programs,
        order) == Success(after)
    ensures t.outStorage in after && Holds(after[t.outStorage], Product(lhs, rhs), Visited(programs, order))
    ensures Unchanged(mem[t.outStorage], after[t.outStorage], Visited(programs, order))
    decreases |order|
  {
    hide LaunchReady, DecomposeMatMulStore, RunLanes, Product, Written, BlocksAccepted;
    if order == [] {
      after := mem;
      OutputPresent(matmul, store, t, types, existing, env, mem, lhs, rhs, out, programs);
    } else {
      var middle := ProgramRuns(matmul, store, t, types, existing, counter, env, mem, lhs, rhs, out, programs,
          order[0]);
      after := ProgramsRun(matmul, store, t, types, existing, counter, env, middle, lhs, rhs, out, programs,
          order[1..]);
      OutputPresent(matmul, store, t, types, existing, env, mem, lhs, rhs, out, programs);
      OutputPresent(matmul, store, t, types, existing, env, middle, lhs, rhs, out, programs);
      HoldsThen(mem[t.outStorage], middle[t.outStorage], after[t.outStorage], Product(lhs, rhs),
          Written(programs[order[0]].c, Lanes(programs[order[0]].c)), Visited(programs, order[1..]));
    }
  }

  lemma {:induction false} OutputPresent(matmul: Operation, store: Operation, t: Tensors, types: map<string, Type>,
          existing: set<string>, env: Env, mem: Memory, lhs: Matrix, rhs: Matrix, out: Matrix, programs: seq<Blocks>)
    requires LaunchReady(matmul, store, t, types, existing, env, mem, lhs, rhs, out, programs)
    ensures t.outStorage in mem && mem[t.outStorage].rows == out.rows && mem[t.outStorage].cols == out.cols
  {
  }

  lemma {:induction false} HoldsThen(m0: Matrix, m1: Matrix, m2: Matrix, want: Matrix, first: seq<(int, int)>,
          second: seq<(int, int)>)
    requires Holds(m1, want, first) && Unchanged(m0, m1, first)
    requires Holds(m2, want, second) && Unchanged(m1, m2, second)
    ensures Holds(m2, want, first + second) && Unchanged(m0, m2, first + second)
  {
  }

  lemma {:induction false} VisitedCovers(programs: seq<Blocks>, order: seq<nat>, n: nat, at: (int, int))
    requires Launchable(order, |programs|) && n in order && at in Written(programs[n].c, Lanes(programs[n].c))
    ensures at in Visited(programs, order)
    decreases |order|
  {
    if order[0] != n {
      VisitedCovers(programs, order[1..], n, at);
    }
  }

  /** A multi-program decomposed matmul. When the interpreter accepts the domain, running
      the programs in any order that includes each of them leaves in the output exactly
      the product of the two source arrays: every element is the full sum over K, padded
      lanes included, whatever the output held before. */
  lemma {:induction false} AcceptedLaunchComputesProduct(matmul: Operation, store: Operation, t: Tensors,
          types: map<string, Type>, existing: set<string>, counter: nat, env: Env, mem: Memory, lhs: Matrix,
          rhs: Matrix, s: Strides, programs: seq<Blocks>, order: seq<nat>)
    requires t.outStorage in mem
    requires LaunchReady(matmul, store, t, types, existing, env, mem, lhs, rhs, mem[t.outStorage], programs)
    requires DomainAccepted(lhs, rhs, mem[t.outStorage], s, programs)
    requires Launchable(order, |programs|) && forall n: nat :: n < |programs| ==> n in order
    ensures
      var r := RunPrograms(DecomposeMatMulStore(matmul, store, types, existing, counter).0, env, mem, t, programs,
          order);
      r.Success? && t.outStorage in r.value && r.value[t.outStorage] == Product(lhs, rhs)
  {
    hide DecomposeMatMulStore, RunPrograms, LaunchReady, Product;
    var out := mem[t.outStorage];
    var after := ProgramsRun(matmul, store, t, types, existing, counter, env, mem, lhs, rhs, out, programs, order);
    AcceptedDomainCoversOnce(lhs, rhs, out, s, programs);
    AllMasksRange(lhs, rhs, out, s, programs);
    AllWrittenWithin(programs, out);
    var m, want := after[t.outStorage], Product(lhs, rhs);
    forall i, j | Within(want, i, j)
      ensures At(m, i, j) == At(want, i, j)
    {
      assert (i, j) in AllWritten(programs);
      var n: nat :| n < |programs| && (i, j) in Written(programs[n].c, Lanes(programs[n].c));
      VisitedCovers(programs, order, n, (i, j));
    }
    SameCells(m, want);
  }

  lemma {:induction false} SameCells(a: Matrix, b: Matrix)
    requires a.rows == b.rows && a.cols == b.cols && forall i, j :: Within(b, i, j) ==> At(a, i, j) == At(b, i, j)
    ensures a == b
  {
    forall i | 0 <= i < a.rows
      ensures a.cells[i] == b.cells[i]
    {
      forall j | 0 <= j < a.cols
        ensures a.cells[i][j] == b.cells[i][j]
      {
        assert At(a, i, j) == At(b, i, j);
      }
    }
    assert a.cells == b.cells;
  }
}
