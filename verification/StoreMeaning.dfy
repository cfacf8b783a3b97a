/** What reading and storing through an arranged view do to the elements of an array: later lanes
    win, masked and dead lanes write nothing. */
module StoreMeaning {
  import opened Wrappers
  import opened Arithmetic
  import opened Ssa
  import opened Interpreter
  import opened ValueMeaning

  // ----- reading -----

  /** A read gives each live lane the element it addresses, and the others the filler. */
  lemma {:induction false} ReadExact(v: View, m: Matrix, i: int, j: int)
    requires AccessHolds(v, m) && 0 <= i < v.row.rows && 0 <= j < v.row.cols
    ensures ReadAll(v, m).rows == v.row.rows && ReadAll(v, m).cols == v.row.cols
    ensures At(v.valid, i, j) == 0 ==> At(ReadAll(v, m), i, j) == v.other
    ensures At(v.valid, i, j) != 0 ==>
        Within(m, At(v.row, i, j), At(v.col, i, j))
        && At(ReadAll(v, m), i, j) == At(m, At(v.row, i, j), At(v.col, i, j))
  {
  }

  /** A Python index: from the front, or when negative from the end. */
  lemma {:induction false} WrapExact(i: int, n: nat)
    ensures Wrap(i, n).Some? <==> 0 <= i + n && i < n
    ensures Wrap(i, n).Some? ==> Wrap(i, n).value < n && Wrap(i, n).value == if i < 0 then i + n else i
  {
  }

  predicate Yields(r: Outcome<Val>, n: int) {
    r == Success(Num(n))
  }

  /** Element (i, j) of a tile, counted from the end where negative, or no such element. */
  predicate ElementIs(r: Outcome<Val>, tile: Matrix, i: int, j: int) {
    if Indexes(i, tile.rows) && Indexes(j, tile.cols) then
      Yields(r, At(tile, FromEnd(i, tile.rows), FromEnd(j, tile.cols)))
    else r.Failure?
  }

  /** Reading one element: of a tile or a view by its indices, from the end where they are negative,
      a dead lane giving the filler; of the source array itself by indices that must be inside. */
  lemma {:induction false} ExtractExact(v: Val, i: int, j: int, fromSource: bool, ctx: Context, mem: Memory)
    ensures
      var r := ExtractAt(v, i, j, fromSource, ctx, mem);
      match v
      case Num(_) => r.Failure?
      case Tile(t) => ElementIs(r, t, i, j)
      case Ref(name) =>
        if name !in ctx.views || ctx.views[name].storage !in mem then r.Failure?
        else if fromSource then
          var m := mem[ctx.views[name].storage];
          if 0 <= i < m.rows && 0 <= j < m.cols then Yields(r, At(m, i, j)) else r.Failure?
        else if !AccessHolds(ctx.views[name], mem[ctx.views[name].storage]) then r.Failure?
        else ElementIs(r, ReadAll(ctx.views[name], mem[ctx.views[name].storage]), i, j)
  {
    hide AccessHolds;
    match v
    case Ref(name) =>
      if name in ctx.views && ctx.views[name].storage in mem && !fromSource
          && AccessHolds(ctx.views[name], mem[ctx.views[name].storage]) {
        ExtractView(name, i, j, ctx, mem);
      }
    case _ =>
  }

  lemma {:induction false} ExtractView(name: string, i: int, j: int, ctx: Context, mem: Memory)
    requires name in ctx.views && ctx.views[name].storage in mem
    requires AccessHolds(ctx.views[name], mem[ctx.views[name].storage])
    ensures ElementIs(ExtractAt(Ref(name), i, j, false, ctx, mem),
                      ReadAll(ctx.views[name], mem[ctx.views[name].storage]), i, j)
  {
    var view, m := ctx.views[name], mem[ctx.views[name].storage];
    WrapExact(i, view.row.rows);
    WrapExact(j, view.row.cols);
    hide AccessHolds, Wrap, Fetch, ReadAll, ElementIs;
    var tile, got := ReadAll(view, m), ExtractAt(Ref(name), i, j, false, ctx, mem);
    ReadsFetch(view, m, (0, 0));
    if Wrap(i, view.row.rows).Some? && Wrap(j, view.row.cols).Some? {
      var lane: Lane := (Wrap(i, view.row.rows).value, Wrap(j, view.row.cols).value);
      ReadsFetch(view, m, lane);
      assert got == Success(Num(Fetch(view, m, lane)));
      ElementGiven(got, tile, i, j, lane);
    } else {
      assert got.Failure?;
      NoElement(got, tile, i, j);
    }
  }

  lemma {:induction false} ElementGiven(r: Outcome<Val>, tile: Matrix, i: int, j: int, lane: Lane)
    requires Wrap(i, tile.rows) == Some(lane.0) && Wrap(j, tile.cols) == Some(lane.1)
    requires lane.0 < tile.rows && lane.1 < tile.cols && r == Success(Num(At(tile, lane.0, lane.1)))
    ensures ElementIs(r, tile, i, j)
  {
  }

  lemma {:induction false} NoElement(r: Outcome<Val>, tile: Matrix, i: int, j: int)
    requires (Wrap(i, tile.rows).None? || Wrap(j, tile.cols).None?) && r.Failure?
    ensures ElementIs(r, tile, i, j)
  {
  }

  lemma {:induction false} ReadsFetch(v: View, m: Matrix, lane: Lane)
    requires AccessHolds(v, m)
    ensures ReadAll(v, m).rows == v.row.rows && ReadAll(v, m).cols == v.row.cols
    ensures InView(v, lane) ==> At(ReadAll(v, m), lane.0, lane.1) == Fetch(v, m, lane)
  {
    hide Fetch, AccessHolds;
  }

  /** The extents of a tile and of a view: the first of two is the number of rows. */
  lemma {:induction false} ExtentExact(v: Val, dim: int, ctx: Context)
    ensures
      var r := ExtentAt(v, dim, ctx);
      match v
      case Num(_) => r.Failure?
      case Tile(t) =>
        if dim == 0 || dim == -2 then Yields(r, t.rows)
        else if dim == 1 || dim == -1 then Yields(r, t.cols)
        else r.Failure?
      case Ref(name) =>
        if name !in ctx.views then r.Failure?
        else if dim == 0 || dim == -2 then Yields(r, ctx.views[name].row.rows)
        else if dim == 1 || dim == -1 then Yields(r, ctx.views[name].row.cols)
        else r.Failure?
  {
  }

  /** The coordinates of a view: in the lane's own space those of the current lane; in the source's
      all of them, or for a decomposed program that of the current lane. */
  lemma {:induction false} OffsetExact(op: Operation, v: Val, ctx: Context, mem: Memory)
    requires op.opcode.Offset? && v.Ref? && v.name in ctx.views && -2 <= op.opcode.axis < 2
    ensures
      var r, view := OffsetAt(op, v, ctx, mem), ctx.views[v.name];
      var first := op.opcode.axis == 0 || op.opcode.axis == -2;
      if op.opcode.valueSpace then
        if ctx.lane.None? then r.Failure? else Yields(r, if first then ctx.lane.value.0 else ctx.lane.value.1)
      else if view.storage !in mem || !AccessHolds(view, mem[view.storage]) then r.Failure?
      else if op.attrs.decomposition == NotDecomposed then r == Success(Tile(if first then view.row else view.col))
      else if ctx.lane.None? || !InView(view, ctx.lane.value) then r.Failure?
      else Yields(r, At(if first then view.row else view.col, ctx.lane.value.0, ctx.lane.value.1))
  {
  }

  /** The lanes of a tile, in row-major order. */
  lemma {:induction false} LanesInOrder(rows: nat, cols: nat, k: nat, p: nat)
    requires k + p < rows * cols
    ensures |LanesFrom(rows, cols, k)| == rows * cols - k && cols > 0
    ensures LanesFrom(rows, cols, k)[p] == ((k + p) / cols, (k + p) % cols)
    decreases rows * cols - k
  {
    LaneInTile(rows, cols, k);
    if k + 1 < rows * cols {
      LanesInOrder(rows, cols, k + 1, if p == 0 then 0 else p - 1);
    } else {
      assert LanesFrom(rows, cols, k + 1) == [];
    }
  }

  // ----- storing -----

  predicate Listed(v: View, lanes: seq<Lane>) {
    (forall lane :: lane in lanes ==> InView(v, lane)) && forall k :: 0 <= k < |lanes| ==> InView(v, lanes[k])
  }

  predicate SameTile(v: View, m: Matrix) {
    m.rows == v.row.rows && m.cols == v.row.cols
  }

  /** The lane is live, the mask lets it through, and it addresses the element. */
  predicate Hits(v: View, mask: Matrix, lane: Lane, r: int, c: int)
    requires InView(v, lane) && SameTile(v, mask)
  {
    && At(v.valid, lane.0, lane.1) != 0 && At(mask, lane.0, lane.1) != 0
    && At(v.row, lane.0, lane.1) == r && At(v.col, lane.0, lane.1) == c
  }

  /** Lane `k` is the last of the list that writes the element. */
  ghost predicate LastHit(v: View, mask: Matrix, lanes: seq<Lane>, k: int, r: int, c: int)
    requires SameTile(v, mask) && Listed(v, lanes)
  {
    0 <= k < |lanes| && Hits(v, mask, lanes[k], r, c) && forall n :: k < n < |lanes| ==> !Hits(v, mask, lanes[n], r, c)
  }

  ghost predicate NoHit(v: View, mask: Matrix, lanes: seq<Lane>, r: int, c: int)
    requires SameTile(v, mask) && Listed(v, lanes)
  {
    forall n :: 0 <= n < |lanes| ==> !Hits(v, mask, lanes[n], r, c)
  }

  function TileAt(v: View, tile: Matrix, lane: Lane): int
    requires InView(v, lane) && SameTile(v, tile)
  {
    At(tile, lane.0, lane.1)
  }

  /** What becomes of one element: the tile's value at the last lane that writes it, or what it was. */
  ghost predicate Becomes(v: View, mask: Matrix, tile: Matrix, lanes: seq<Lane>, r: int, c: int, was: int, now: int)
    requires SameTile(v, mask) && SameTile(v, tile) && Listed(v, lanes)
  {
    && (forall k :: LastHit(v, mask, lanes, k, r, c) ==> now == TileAt(v, tile, lanes[k]))
    && (NoHit(v, mask, lanes, r, c) ==> now == was)
  }

  /** The array after a store, element by element. */
  ghost predicate Stores(v: View, mask: Matrix, tile: Matrix, lanes: seq<Lane>, before: Matrix, after: Matrix)
    requires SameTile(v, mask) && SameTile(v, tile) && Listed(v, lanes)
  {
    && after.rows == before.rows && after.cols == before.cols
    && forall r, c :: Within(before, r, c) ==> Becomes(v, mask, tile, lanes, r, c, At(before, r, c), At(after, r, c))
  }

  /** One of the two cases applies to each element. */
  lemma {:induction false} SomeLast(v: View, mask: Matrix, lanes: seq<Lane>, r: int, c: int)
    requires SameTile(v, mask) && Listed(v, lanes)
    ensures NoHit(v, mask, lanes, r, c) || exists k :: LastHit(v, mask, lanes, k, r, c)
    decreases |lanes|
  {
    hide Hits;
    if lanes != [] {
      var n := |lanes| - 1;
      if Hits(v, mask, lanes[n], r, c) {
        assert LastHit(v, mask, lanes, n, r, c);
      } else {
        SomeLast(v, mask, lanes[..n], r, c);
        if k :| LastHit(v, mask, lanes[..n], k, r, c) {
          assert LastHit(v, mask, lanes, k, r, c);
        }
      }
    }
  }

  ghost function Written(v: View, mask: Matrix, tile: Matrix, lanes: seq<Lane>, m: Matrix): (r: Matrix)
    requires SameTile(v, mask) && SameTile(v, tile) && Listed(v, lanes) && AccessHolds(Masked(v, mask), m)
    ensures r.rows == m.rows && r.cols == m.cols
  {
    assert forall lane :: lane in lanes ==> InView(Masked(v, mask), lane);
    StoreLanes(Masked(v, mask), m, tile, lanes)
  }

  /** The first lane of a store. */
  lemma {:induction false} OneWritten(v: View, mask: Matrix, tile: Matrix, lanes: seq<Lane>, m: Matrix, r: int, c: int)
    returns (next: Matrix)
    requires SameTile(v, mask) && SameTile(v, tile) && Listed(v, lanes) && AccessHolds(Masked(v, mask), m)
    requires lanes != [] && Within(m, r, c)
    ensures next.rows == m.rows && next.cols == m.cols && AccessHolds(Masked(v, mask), next) && Listed(v, lanes[1..])
    ensures Written(v, mask, tile, lanes, m) == Written(v, mask, tile, lanes[1..], next)
    ensures At(next, r, c) == if Hits(v, mask, lanes[0], r, c) then TileAt(v, tile, lanes[0]) else At(m, r, c)
  {
    var u, lane := Masked(v, mask), lanes[0];
    next := if Live(u, lane) then Put(m, At(u.row, lane.0, lane.1), At(u.col, lane.0, lane.1), At(tile, lane.0, lane.1))
        else m;
  }

  lemma {:induction false} LanesWrite(v: View, mask: Matrix, tile: Matrix, lanes: seq<Lane>, m: Matrix, r: int, c: int)
    requires SameTile(v, mask) && SameTile(v, tile) && Listed(v, lanes) && AccessHolds(Masked(v, mask), m)
    requires Within(m, r, c)
    ensures Becomes(v, mask, tile, lanes, r, c, At(m, r, c), At(Written(v, mask, tile, lanes, m), r, c))
    decreases |lanes|
  {
    hide AccessHolds, Hits, TileAt, Masked;
    if lanes == [] {
      NothingWritten(v, mask, tile, lanes, m);
    } else {
      hide Written;
      var next := OneWritten(v, mask, tile, lanes, m, r, c);
      LanesWrite(v, mask, tile, lanes[1..], next, r, c);
      LastInRest(v, mask, lanes, r, c);
    }
  }

  lemma {:induction false} NothingWritten(v: View, mask: Matrix, tile: Matrix, lanes: seq<Lane>, m: Matrix)
    requires SameTile(v, mask) && SameTile(v, tile) && Listed(v, lanes) && AccessHolds(Masked(v, mask), m)
    requires lanes == []
    ensures Written(v, mask, tile, lanes, m) == m
  {
  }

  /** A last hit is the first lane, with none in the rest, or the last one there. */
  lemma {:induction false} LastInRest(v: View, mask: Matrix, lanes: seq<Lane>, r: int, c: int)
    requires SameTile(v, mask) && Listed(v, lanes) && lanes != []
    ensures Listed(v, lanes[1..])
    ensures forall k :: LastHit(v, mask, lanes, k, r, c) ==>
        if k == 0 then Hits(v, mask, lanes[0], r, c) && NoHit(v, mask, lanes[1..], r, c)
        else LastHit(v, mask, lanes[1..], k - 1, r, c) && lanes[1..][k - 1] == lanes[k]
    ensures NoHit(v, mask, lanes, r, c) ==> !Hits(v, mask, lanes[0], r, c) && NoHit(v, mask, lanes[1..], r, c)
  {
    hide Hits;
    var rest := lanes[1..];
    assert forall n :: 0 <= n < |rest| ==> rest[n] == lanes[n + 1];
    forall k | LastHit(v, mask, lanes, k, r, c) && k > 0
      ensures LastHit(v, mask, rest, k - 1, r, c) && rest[k - 1] == lanes[k]
    {
    }
  }

  /** Storing through a view changes exactly the elements that live lanes address under the mask, and
      where several do the last of them wins. */
  lemma {:induction false} WrittenExact(v: View, mask: Matrix, tile: Matrix, lanes: seq<Lane>, m: Matrix)
    requires SameTile(v, mask) && SameTile(v, tile) && Listed(v, lanes) && AccessHolds(Masked(v, mask), m)
    ensures Stores(v, mask, tile, lanes, m, Written(v, mask, tile, lanes, m))
  {
    hide AccessHolds, Written, Becomes, Masked;
    forall r, c | Within(m, r, c)
      ensures Becomes(v, mask, tile, lanes, r, c, At(m, r, c), At(Written(v, mask, tile, lanes, m), r, c))
    {
      LanesWrite(v, mask, tile, lanes, m, r, c);
    }
  }

  // ----- the store operation -----

  predicate Takes(v: Val, ctx: Context, mem: Memory) {
    v.Ref? ==> Reachable(ctx, mem, v.name)
  }

  /** The stored value of an operand. */
  function Taken(v: Val, ctx: Context, mem: Memory): (r: Val)
    requires Takes(v, ctx, mem)
    ensures !r.Ref?
  {
    if v.Ref? then Tile(ReadAll(ctx.views[v.name], mem[ctx.views[v.name].storage])) else v
  }

  /** What the mask operand says: everything, when there is none. */
  function MaskValue(args: seq<Val>, ctx: Context, mem: Memory): (r: Val)
    requires |args| > 2 ==> Takes(args[2], ctx, mem)
    ensures !r.Ref?
  {
    if |args| > 2 then Taken(args[2], ctx, mem) else Num(1)
  }

  /** The operands of a store have values, and its mask fits the view. */
  predicate Prepared(args: seq<Val>, ctx: Context, mem: Memory) {
    && |args| >= 2 && args[1].Ref? && args[1].name in ctx.views
    && Takes(args[0], ctx, mem) && (|args| > 2 ==> Takes(args[2], ctx, mem))
    && var row := ctx.views[args[1].name].row; Spreads(MaskValue(args, ctx, mem), row.rows, row.cols)
  }

  function Target(args: seq<Val>, ctx: Context): View
    requires |args| >= 2 && args[1].Ref? && args[1].name in ctx.views
  {
    ctx.views[args[1].name]
  }

  /** `tile` repeats a value over the extents of a view. */
  ghost predicate Repeats(value: Val, v: View, tile: Matrix)
    requires !value.Ref? && Spreads(value, v.row.rows, v.row.cols)
  {
    && SameTile(v, tile)
    && forall i, j :: Within(tile, i, j) ==> At(tile, i, j) == Cell(value, v.row.rows, v.row.cols, i, j)
  }

  /** Every lane that writes addresses an element. */
  ghost predicate WritesInside(v: View, mask: Matrix, m: Matrix)
    requires SameTile(v, mask)
  {
    forall i, j :: Within(mask, i, j) && At(v.valid, i, j) != 0 && At(mask, i, j) != 0 ==>
        Within(m, At(v.row, i, j), At(v.col, i, j))
  }

  lemma {:induction false} MaskedAccess(v: View, mask: Matrix, m: Matrix)
    requires SameTile(v, mask)
    ensures WritesInside(v, mask, m) <==> AccessHolds(Masked(v, mask), m)
  {
    var u := Masked(v, mask);
    assert forall i, j :: Within(mask, i, j) ==> Live(u, (i, j)) == (At(v.valid, i, j) != 0 && At(mask, i, j) != 0);
  }

  /** The write succeeds exactly where the array is there, every lane that writes is inside it and
      the value fits, and then it is `Stores` on that array and nothing else. */
  ghost predicate Stored(v: View, mask: Matrix, value: Val, lanes: seq<Lane>, mem: Memory, r: Outcome<Memory>)
    requires !value.Ref? && SameTile(v, mask) && Listed(v, lanes)
  {
    && (r.Success? <==>
          v.storage in mem && WritesInside(v, mask, mem[v.storage]) && Spreads(value, v.row.rows, v.row.cols))
    && (r.Success? ==>
          && r.value.Keys == mem.Keys
          && (forall name :: name in mem && name != v.storage ==> r.value[name] == mem[name])
          && exists tile: Matrix ::
               Repeats(value, v, tile) && Stores(v, mask, tile, lanes, mem[v.storage], r.value[v.storage]))
  }

  lemma {:induction false} ValueRepeats(value: Val, v: View)
    requires !value.Ref?
    ensures Broadcast(value, v.row.rows, v.row.cols).Some? <==> Spreads(value, v.row.rows, v.row.cols)
    ensures Spreads(value, v.row.rows, v.row.cols) ==>
        Repeats(value, v, Broadcast(value, v.row.rows, v.row.cols).value)
  {
  }

  /** One write through a view, under a mask. */
  lemma {:induction false} WriteExact(v: View, mask: Matrix, value: Val, lanes: seq<Lane>, mem: Memory)
    requires !value.Ref? && SameTile(v, mask) && Listed(v, lanes)
    ensures forall lane :: lane in lanes ==> InView(Masked(v, mask), lane)
    ensures Stored(v, mask, value, lanes, mem, WriteThrough(Masked(v, mask), value, lanes, mem))
  {
    hide Stores, Repeats, WritesInside, AccessHolds, Spreads, WriteThrough;
    MaskedLanes(v, mask, lanes);
    ValueRepeats(value, v);
    if v.storage in mem && AccessHolds(Masked(v, mask), mem[v.storage]) && Spreads(value, v.row.rows, v.row.cols) {
      var tile := Broadcast(value, v.row.rows, v.row.cols).value;
      TileStored(v, mask, value, tile, lanes, mem);
      MaskedAccess(v, mask, mem[v.storage]);
    } else {
      NotStored(v, mask, value, lanes, mem);
    }
  }

  lemma {:induction false} MaskedLanes(v: View, mask: Matrix, lanes: seq<Lane>)
    requires SameTile(v, mask) && Listed(v, lanes)
    ensures forall lane :: lane in lanes ==> InView(Masked(v, mask), lane)
  {
  }

  lemma {:induction false} NotStored(v: View, mask: Matrix, value: Val, lanes: seq<Lane>, mem: Memory)
    requires !value.Ref? && SameTile(v, mask) && Listed(v, lanes)
    requires
      !(v.storage in mem && AccessHolds(Masked(v, mask), mem[v.storage]) && Spreads(value, v.row.rows, v.row.cols))
    requires forall lane :: lane in lanes ==> InView(Masked(v, mask), lane)
    ensures WriteThrough(Masked(v, mask), value, lanes, mem).Failure?
    ensures !(v.storage in mem && WritesInside(v, mask, mem[v.storage]) && Spreads(value, v.row.rows, v.row.cols))
  {
    hide AccessHolds, WritesInside;
    ValueRepeats(value, v);
    if v.storage in mem {
      MaskedAccess(v, mask, mem[v.storage]);
    }
  }

  lemma {:induction false} TileStored(v: View, mask: Matrix, value: Val, tile: Matrix, lanes: seq<Lane>, mem: Memory)
    requires !value.Ref? && SameTile(v, mask) && Listed(v, lanes) && Spreads(value, v.row.rows, v.row.cols)
    requires Repeats(value, v, tile) && Broadcast(value, v.row.rows, v.row.cols) == Some(tile)
    requires v.storage in mem && AccessHolds(Masked(v, mask), mem[v.storage])
    requires forall lane :: lane in lanes ==> InView(Masked(v, mask), lane)
    ensures
      var r := WriteThrough(Masked(v, mask), value, lanes, mem);
      r.Success? && SameTile(v, tile) && r.value == mem[v.storage := Written(v, mask, tile, lanes, mem[v.storage])]
        && Stores(v, mask, tile, lanes, mem[v.storage], r.value[v.storage])
  {
    hide Stores, AccessHolds, Broadcast, Spreads;
    WrittenExact(v, mask, tile, lanes, mem[v.storage]);
  }

  /** A decomposed store of a program that runs lane by lane. */
  predicate OneLane(op: Operation, ctx: Context) {
    op.attrs.decomposition != NotDecomposed && ctx.lane.Some?
  }

  /** The lanes a whole store goes through: all, or the current one of a decomposed program. */
  function LanesOf(op: Operation, v: View, ctx: Context): seq<Lane> {
    if OneLane(op, ctx) then [ctx.lane.value] else Lanes(v)
  }

  /** What the mask lets through: in a decomposed program the current lane at most. */
  ghost predicate Lets(op: Operation, ctx: Context, mask: Matrix, chosen: Matrix) {
    && chosen.rows == mask.rows && chosen.cols == mask.cols
    && forall i, j :: Within(mask, i, j) ==>
         (At(chosen, i, j) != 0 <==>
            At(mask, i, j) != 0 && (OneLane(op, ctx) ==> (i, j) == (ctx.lane.value.0 as int, ctx.lane.value.1 as int)))
  }

  /** A store of a whole tile. It fails unless its operands fit the view and every lane that writes
      is inside the array, and otherwise leaves the last lane's value in each element written. The
      decomposed form does so for the current lane only, and fails where that is not a lane. */
  lemma {:induction false} WholeStoreExact(op: Operation, args: seq<Val>, ctx: Context, mem: Memory)
    requires Prepared(args, ctx, mem)
    ensures
      var v, r := Target(args, ctx), StoreOperation(op, args, [], ctx, mem);
      exists mask: Matrix, chosen: Matrix ::
        && Repeats(MaskValue(args, ctx, mem), v, mask) && Lets(op, ctx, mask, chosen)
        && if Listed(v, LanesOf(op, v, ctx)) then
             Stored(v, chosen, Taken(args[0], ctx, mem), LanesOf(op, v, ctx), mem, r)
           else r.Failure?
  {
    hide Stored, Repeats, Spreads, AccessHolds, Listed, WriteThrough, Reachable;
    var v, value := Target(args, ctx), Taken(args[0], ctx, mem);
    var mask := PreparedMask(args, ctx, mem);
    var chosen := if OneLane(op, ctx) then OnlyAt(mask, ctx.lane.value) else mask;
    assert Lets(op, ctx, mask, chosen);
    if Listed(v, LanesOf(op, v, ctx)) {
      WriteExact(v, chosen, value, LanesOf(op, v, ctx), mem);
    }
    WholeStore(op, args, ctx, mem, mask, chosen);
  }

  lemma {:induction false} PreparedMask(args: seq<Val>, ctx: Context, mem: Memory) returns (mask: Matrix)
    requires Prepared(args, ctx, mem)
    ensures SameTile(Target(args, ctx), mask) && Repeats(MaskValue(args, ctx, mem), Target(args, ctx), mask)
    ensures
      var row := Target(args, ctx).row; MaskOf(args, row.rows, row.cols, ctx, mem) == Success(mask)
    ensures Materialize(args[0], ctx, mem) == Success(Taken(args[0], ctx, mem))
  {
    var v := Target(args, ctx);
    mask := Broadcast(MaskValue(args, ctx, mem), v.row.rows, v.row.cols).value;
  }

  lemma {:induction false} WholeStore(op: Operation, args: seq<Val>, ctx: Context, mem: Memory, mask: Matrix,
          chosen: Matrix)
    requires Prepared(args, ctx, mem) && SameTile(Target(args, ctx), mask)
    requires chosen == if OneLane(op, ctx) then OnlyAt(mask, ctx.lane.value) else mask
    requires
      var row := Target(args, ctx).row; MaskOf(args, row.rows, row.cols, ctx, mem) == Success(mask)
    requires Materialize(args[0], ctx, mem) == Success(Taken(args[0], ctx, mem))
    ensures
      var v := Target(args, ctx);
      var lanes := LanesOf(op, v, ctx);
      if Listed(v, lanes) then
        && (forall lane :: lane in lanes ==> InView(Masked(v, chosen), lane))
        && StoreOperation(op, args, [], ctx, mem) ==
            WriteThrough(Masked(v, chosen), Taken(args[0], ctx, mem), lanes, mem)
      else StoreOperation(op, args, [], ctx, mem).Failure?
  {
    hide MaskOf, Materialize, WriteThrough, Taken;
    assert Listed(Target(args, ctx), Lanes(Target(args, ctx)));
  }

  // ----- a store of one element -----

  /** The array with `x` in the element of lane `k`, where that lane is the last to write it, and
      unchanged elsewhere. */
  ghost predicate Placed(v: View, mask: Matrix, k: int, x: int, before: Matrix, after: Matrix)
    requires SameTile(v, mask)
  {
    && after.rows == before.rows && after.cols == before.cols
    && Listed(v, Lanes(v))
    && forall r, c :: Within(before, r, c) ==>
        At(after, r, c) == if LastHit(v, mask, Lanes(v), k, r, c) then x else At(before, r, c)
  }

  lemma {:induction false} LaneAtPlace(v: View, lane: Lane, k: nat)
    requires InView(v, lane) && k < v.row.rows * v.row.cols
    ensures |Lanes(v)| == v.row.rows * v.row.cols && Listed(v, Lanes(v))
    ensures Lanes(v)[k] == lane <==> k == lane.0 * v.row.cols + lane.1
  {
    hide LanesFrom;
    LanesInOrder(v.row.rows, v.row.cols, 0, k);
    var n := v.row.cols;
    FloorOf(k, n);
    assert k == k / n * n + k % n;
    if k == lane.0 * v.row.cols + lane.1 {
      Decompose(k, lane.0, v.row.cols, lane.1);
    }
  }

  lemma {:induction false} LanePlace(v: View, lane: Lane)
    requires InView(v, lane)
    ensures 0 <= lane.0 * v.row.cols + lane.1 < v.row.rows * v.row.cols
  {
    assert (lane.0 + 1) * v.row.cols <= v.row.rows * v.row.cols;
  }

  /** Writing back what was read leaves every element, but for the one that was replaced. */
  lemma {:induction false} EditPlaces(v: View, mask: Matrix, m: Matrix, lane: Lane, x: int, after: Matrix)
    requires SameTile(v, mask) && AccessHolds(v, m) && InView(v, lane) && Listed(v, Lanes(v))
    requires Stores(v, mask, Edited(v, m, lane, x), Lanes(v), m, after)
    ensures Placed(v, mask, lane.0 * v.row.cols + lane.1, x, m, after)
  {
    hide Becomes, LastHit, AccessHolds, Edited, ReadAll, Lanes;
    forall r, c | Within(m, r, c)
      ensures At(after, r, c) ==
          if LastHit(v, mask, Lanes(v), lane.0 * v.row.cols + lane.1, r, c) then x else At(m, r, c)
    {
      EditBecomes(v, mask, m, lane, x, r, c, At(after, r, c));
    }
  }

  lemma {:induction false} EditBecomes(v: View, mask: Matrix, m: Matrix, lane: Lane, x: int, r: int, c: int, now: int)
    requires SameTile(v, mask) && AccessHolds(v, m) && InView(v, lane) && Listed(v, Lanes(v)) && Within(m, r, c)
    requires Becomes(v, mask, Edited(v, m, lane, x), Lanes(v), r, c, At(m, r, c), now)
    ensures now == if LastHit(v, mask, Lanes(v), lane.0 * v.row.cols + lane.1, r, c) then x else At(m, r, c)
  {
    hide AccessHolds, Edited, ReadAll, Lanes, Hits, Listed, LastHit, NoHit;
    SomeLast(v, mask, Lanes(v), r, c);
    if k :| LastHit(v, mask, Lanes(v), k, r, c) {
      LastPlace(v, mask, k, r, c);
      OneLast(v, mask, Lanes(v), k, lane.0 * v.row.cols + lane.1, r, c);
      LaneAtPlace(v, lane, k);
      EditedAt(v, mask, m, lane, x, Lanes(v)[k], r, c);
    } else {
      NoneIsLast(v, mask, Lanes(v), lane.0 * v.row.cols + lane.1, r, c);
    }
  }

  lemma {:induction false} LastPlace(v: View, mask: Matrix, k: int, r: int, c: int)
    requires SameTile(v, mask) && Listed(v, Lanes(v)) && LastHit(v, mask, Lanes(v), k, r, c)
    ensures 0 <= k < |Lanes(v)| == v.row.rows * v.row.cols
    ensures InView(v, Lanes(v)[k]) && Hits(v, mask, Lanes(v)[k], r, c)
  {
    hide Hits, Lanes;
    assert InView(v, Lanes(v)[k]);
    LanePlace(v, Lanes(v)[k]);
    LaneAtPlace(v, Lanes(v)[k], 0);
  }

  lemma {:induction false} OneLast(v: View, mask: Matrix, lanes: seq<Lane>, k: int, n: int, r: int, c: int)
    requires SameTile(v, mask) && Listed(v, lanes) && LastHit(v, mask, lanes, k, r, c)
    ensures LastHit(v, mask, lanes, n, r, c) <==> n == k
  {
    hide Hits;
  }

  lemma {:induction false} NoneIsLast(v: View, mask: Matrix, lanes: seq<Lane>, k: int, r: int, c: int)
    requires SameTile(v, mask) && Listed(v, lanes) && NoHit(v, mask, lanes, r, c)
    ensures !LastHit(v, mask, lanes, k, r, c)
  {
    hide Hits;
  }

  lemma {:induction false} EditedAt(v: View, mask: Matrix, m: Matrix, lane: Lane, x: int, hit: Lane, r: int, c: int)
    requires SameTile(v, mask) && AccessHolds(v, m) && InView(v, lane) && InView(v, hit) && Within(m, r, c)
    requires Hits(v, mask, hit, r, c)
    ensures TileAt(v, Edited(v, m, lane, x), hit) == if hit == lane then x else At(m, r, c)
  {
    if hit != lane {
      ReadExact(v, m, hit.0, hit.1);
    }
  }

  function FromEnd(i: int, n: int): int {
    if i < 0 then i + n else i
  }

  predicate Indexes(i: int, n: int) {
    -n <= i < n
  }

  /** A store with indices selects one lane of the view, from the end for a negative index, and puts
      the value into its element where that lane is live, unmasked and the last one to write there.
      Everything else stays, whatever lanes share elements. */
  ghost predicate ElementStored(v: View, value: Val, i: int, j: int, mask: Matrix, mem: Memory, r: Outcome<Memory>)
    requires SameTile(v, mask)
  {
    && (r.Success? <==>
          && Indexes(i, v.row.rows) && Indexes(j, v.row.cols) && value.Num?
          && v.storage in mem && AccessHolds(v, mem[v.storage]))
    && (r.Success? ==>
          && r.value.Keys == mem.Keys
          && (forall name :: name in mem && name != v.storage ==> r.value[name] == mem[name])
          && Placed(v, mask, FromEnd(i, v.row.rows) * v.row.cols + FromEnd(j, v.row.cols), value.value,
                    mem[v.storage], r.value[v.storage]))
  }

  lemma {:induction false} ElementStoreExact(op: Operation, args: seq<Val>, indices: seq<Val>, ctx: Context,
          mem: Memory, i: int, j: int)
    requires Prepared(args, ctx, mem) && |indices| == 2
    requires ScalarOf(indices[0], ctx, mem) == Success(i) && ScalarOf(indices[1], ctx, mem) == Success(j)
    ensures
      exists mask: Matrix ::
        && Repeats(MaskValue(args, ctx, mem), Target(args, ctx), mask)
        && ElementStored(Target(args, ctx), Taken(args[0], ctx, mem), i, j, mask, mem,
                         StoreOperation(op, args, indices, ctx, mem))
  {
    hide Repeats, ElementStored, ScalarOf, Reachable, Taken, MaskOf, Materialize, Masked, WriteThrough, Lanes, Put;
    var v, value := Target(args, ctx), Taken(args[0], ctx, mem);
    var mask := PreparedMask(args, ctx, mem);
    ElementStore(op, args, indices, ctx, mem, i, j, mask);
  }

  lemma {:induction false} ElementStore(op: Operation, args: seq<Val>, indices: seq<Val>, ctx: Context,
          mem: Memory, i: int, j: int, mask: Matrix)
    requires Prepared(args, ctx, mem) && |indices| == 2 && SameTile(Target(args, ctx), mask)
    requires ScalarOf(indices[0], ctx, mem) == Success(i) && ScalarOf(indices[1], ctx, mem) == Success(j)
    requires
      var row := Target(args, ctx).row; MaskOf(args, row.rows, row.cols, ctx, mem) == Success(mask)
    requires Materialize(args[0], ctx, mem) == Success(Taken(args[0], ctx, mem))
    ensures ElementStored(Target(args, ctx), Taken(args[0], ctx, mem), i, j, mask, mem,
                          StoreOperation(op, args, indices, ctx, mem))
  {
    hide AccessHolds, ScalarOf, Taken, MaskOf, Materialize, Lanes, Wrap, WriteThrough, Placed, Edited, StoreOperation,
         Masked, SameTile;
    var v, value := Target(args, ctx), Taken(args[0], ctx, mem);
    hide Prepared;
    WrapExact(i, v.row.rows);
    WrapExact(j, v.row.cols);
    if Wrap(i, v.row.rows).Some? && Wrap(j, v.row.cols).Some? && value.Num? && v.storage in mem &&
        AccessHolds(v, mem[v.storage]) {
      var lane: Lane := (Wrap(i, v.row.rows).value, Wrap(j, v.row.cols).value);
      EditWritten(v, mask, mem, lane, value.value);
      EditStep(op, args, indices, ctx, mem, i, j, mask, lane);
    } else {
      NoEdit(op, args, indices, ctx, mem, i, j, mask);
    }
  }

  lemma {:induction false} SameLanes(v: View, mask: Matrix)
    requires SameTile(v, mask)
    ensures Lanes(Masked(v, mask)) == Lanes(v)
  {
  }

  lemma {:induction false} EditStep(op: Operation, args: seq<Val>, indices: seq<Val>, ctx: Context,
          mem: Memory, i: int, j: int, mask: Matrix, lane: Lane)
    requires Prepared(args, ctx, mem) && |indices| == 2 && SameTile(Target(args, ctx), mask)
    requires ScalarOf(indices[0], ctx, mem) == Success(i) && ScalarOf(indices[1], ctx, mem) == Success(j)
    requires
      var row := Target(args, ctx).row; MaskOf(args, row.rows, row.cols, ctx, mem) == Success(mask)
    requires Materialize(args[0], ctx, mem) == Success(Taken(args[0], ctx, mem)) && Taken(args[0], ctx, mem).Num?
    requires
      var v := Target(args, ctx);
      Wrap(i, v.row.rows) == Some(lane.0) && Wrap(j, v.row.cols) == Some(lane.1)
      && InView(v, lane) && v.storage in mem && AccessHolds(v, mem[v.storage])
    requires forall other :: other in Lanes(Target(args, ctx)) ==> InView(Masked(Target(args, ctx), mask), other)
    ensures
      var v := Target(args, ctx);
      StoreOperation(op, args, indices, ctx, mem) ==
        WriteThrough(Masked(v, mask), Tile(Edited(v, mem[v.storage], lane, Taken(args[0], ctx, mem).value)), Lanes(v),
            mem)
  {
    var v := Target(args, ctx);
    SameLanes(v, mask);
    hide AccessHolds, ScalarOf, Taken, MaskOf, Materialize, Lanes, Wrap, WriteThrough, Edited, Masked;
  }

  lemma {:induction false} NoEdit(op: Operation, args: seq<Val>, indices: seq<Val>, ctx: Context,
          mem: Memory, i: int, j: int, mask: Matrix)
    requires Prepared(args, ctx, mem) && |indices| == 2 && SameTile(Target(args, ctx), mask)
    requires ScalarOf(indices[0], ctx, mem) == Success(i) && ScalarOf(indices[1], ctx, mem) == Success(j)
    requires
      var row := Target(args, ctx).row; MaskOf(args, row.rows, row.cols, ctx, mem) == Success(mask)
    requires Materialize(args[0], ctx, mem) == Success(Taken(args[0], ctx, mem))
    requires
      var v := Target(args, ctx);
      !(Wrap(i, v.row.rows).Some? && Wrap(j, v.row.cols).Some? && Taken(args[0], ctx, mem).Num?
        && v.storage in mem && AccessHolds(v, mem[v.storage]))
    ensures StoreOperation(op, args, indices, ctx, mem).Failure?
  {
    hide AccessHolds, ScalarOf, Taken, MaskOf, Materialize, Lanes, Wrap, WriteThrough, ReadAll, Masked, Put;
  }

  lemma {:induction false} EditWritten(v: View, mask: Matrix, mem: Memory, lane: Lane, x: int)
    requires SameTile(v, mask) && v.storage in mem && AccessHolds(v, mem[v.storage]) && InView(v, lane)
    ensures forall other :: other in Lanes(v) ==> InView(Masked(v, mask), other)
    ensures
      var r := WriteThrough(Masked(v, mask), Tile(Edited(v, mem[v.storage], lane, x)), Lanes(v), mem);
      && r.Success? && r.value.Keys == mem.Keys
      && (forall name :: name in mem && name != v.storage ==> r.value[name] == mem[name])
      && Placed(v, mask, lane.0 * v.row.cols + lane.1, x, mem[v.storage], r.value[v.storage])
  {
    hide AccessHolds, Lanes, WriteThrough, Placed, Stores, Edited;
    var m := mem[v.storage];
    var edited := Edited(v, m, lane, x);
    assert Listed(v, Lanes(v)) by {
      LaneAtPlace(v, lane, 0);
    }
    InsideAnyway(v, mask, m);
    WriteExact(v, mask, Tile(edited), Lanes(v), mem);
    var after := WriteThrough(Masked(v, mask), Tile(edited), Lanes(v), mem).value[v.storage];
    var tile: Matrix :| Repeats(Tile(edited), v, tile) && Stores(v, mask, tile, Lanes(v), m, after);
    SameCells(edited, v, tile);
    EditPlaces(v, mask, m, lane, x, after);
  }

  lemma {:induction false} InsideAnyway(v: View, mask: Matrix, m: Matrix)
    requires SameTile(v, mask) && AccessHolds(v, m)
    ensures WritesInside(v, mask, m)
  {
    forall i, j | Within(mask, i, j) && At(v.valid, i, j) != 0 ensures Within(m, At(v.row, i, j), At(v.col, i, j)) {
      assert Live(v, (i, j));
    }
  }

  lemma {:induction false} SameCells(a: Matrix, v: View, b: Matrix)
    requires SameTile(v, a) && Repeats(Tile(a), v, b)
    ensures a == b
  {
    forall i | 0 <= i < a.rows ensures a.cells[i] == b.cells[i] {
      forall j | 0 <= j < a.cols ensures b.cells[i][j] == a.cells[i][j] {
        assert At(b, i, j) == Cell(Tile(a), a.rows, a.cols, i, j);
      }
    }
  }
}
