/** Decomposing a masked store: the scalar code stores every live lane, because it is built
    without the third operand of the store. What it leaves in memory is therefore right
    exactly if the output already holds the tile wherever the mask rejects a live lane. */
module MaskedReplay {
  import opened Wrappers
  import opened Arithmetic
  import opened Ssa
  import opened Interpreter
  import opened Linalg
  import opened LaneReplay
  import opened Decomposition
  import opened TransposeReplay
  import opened MatMulDomain

  function WithoutMask(store: Operation): Operation
    requires |store.operands| >= 2
  {
    store.(operands := store.operands[..2])
  }

  function CoordinateOf(v: View, lane: Lane): (int, int)
    requires InView(v, lane)
  {
    (At(v.row, lane.0, lane.1), At(v.col, lane.0, lane.1))
  }

  /** Different live lanes address different elements, as the interpreter demands of a scalar output. */
  ghost predicate LanesApart(v: View) {
    forall a: Lane, b: Lane ::
      (InView(v, a) && InView(v, b) && Live(v, a) && Live(v, b) && CoordinateOf(v, a) == CoordinateOf(v, b)) ==> a == b
  }

  // ----- what a store leaves at one element -----

  lemma {:induction false} Untouched(v: View, m: Matrix, tile: Matrix, lanes: seq<Lane>, i: int, j: int)
    requires AccessHolds(v, m) && tile.rows == v.row.rows && tile.cols == v.row.cols && Within(m, i, j)
    requires forall lane :: lane in lanes ==> InView(v, lane)
    requires forall lane :: lane in lanes && Live(v, lane) ==> CoordinateOf(v, lane) != (i, j)
    ensures At(StoreLanes(v, m, tile, lanes), i, j) == At(m, i, j)
    decreases |lanes|
  {
    if lanes != [] {
      var lane := lanes[0];
      var next := if Live(v, lane) then Put(m, At(v.row, lane.0, lane.1), At(v.col, lane.0, lane.1),
          At(tile, lane.0, lane.1)) else m;
      Untouched(v, next, tile, lanes[1..], i, j);
    }
  }

  lemma {:induction false} Stored(v: View, m: Matrix, tile: Matrix, lanes: seq<Lane>, lane: Lane)
    requires AccessHolds(v, m) && tile.rows == v.row.rows && tile.cols == v.row.cols && LanesApart(v)
    requires (forall other :: other in lanes ==> InView(v, other)) && lane in lanes && Live(v, lane)
    ensures var (i, j) := CoordinateOf(v, lane);
            Within(m, i, j) && At(StoreLanes(v, m, tile, lanes), i, j) == At(tile, lane.0, lane.1)
    decreases |lanes|
  {
    var first := lanes[0];
    var (i, j) := CoordinateOf(v, lane);
    var next := if Live(v, first) then Put(m, At(v.row, first.0, first.1), At(v.col, first.0, first.1),
        At(tile, first.0, first.1)) else m;
    if lane in lanes[1..] {
      Stored(v, next, tile, lanes[1..], lane);
    } else {
      assert first == lane;
      Untouched(v, next, tile, lanes[1..], i, j);
    }
  }

  lemma {:induction false} LaneListed(rows: nat, cols: nat, k: nat, lane: Lane)
    requires lane.0 < rows && lane.1 < cols && k <= rows * cols && k <= lane.0 * cols + lane.1
    ensures lane in LanesFrom(rows, cols, k)
    decreases rows * cols - k
  {
    var at := lane.0 * cols + lane.1;
    LanePosition(rows, cols, lane, at);
    if k < at {
      LaneListed(rows, cols, k + 1, lane);
    }
  }

  lemma {:induction false} LanePosition(rows: nat, cols: nat, lane: Lane, at: nat)
    requires lane.0 < rows && lane.1 < cols && at == lane.0 * cols + lane.1
    ensures at < rows * cols && at / cols == lane.0 && at % cols == lane.1
  {
    Decompose(at, lane.0, cols, lane.1);
    Scale(lane.0 + 1, rows, cols);
    assert (lane.0 + 1) * cols == lane.0 * cols + cols;
  }

  /** The mask keeps `lane` from being stored. */
  predicate Rejected(v: View, mask: Matrix, lane: Lane)
    requires InView(v, lane) && mask.rows == v.row.rows && mask.cols == v.row.cols
  {
    Live(v, lane) && At(mask, lane.0, lane.1) == 0
  }

  /** The output already holds the tile at every live lane that the mask rejects. */
  ghost predicate AlreadyHolds(v: View, m: Matrix, tile: Matrix, mask: Matrix)
    requires AccessHolds(v, m) && tile.rows == mask.rows == v.row.rows && tile.cols == mask.cols == v.row.cols
  {
    forall lane: Lane :: InView(v, lane) && Rejected(v, mask, lane) ==>
        At(m, At(v.row, lane.0, lane.1), At(v.col, lane.0, lane.1)) == At(tile, lane.0, lane.1)
  }

  lemma {:induction false} MaskedAccess(v: View, m: Matrix, mask: Matrix)
    requires AccessHolds(v, m) && mask.rows == v.row.rows && mask.cols == v.row.cols
    ensures AccessHolds(Masked(v, mask), m)
    ensures forall lane: Lane :: InView(v, lane) ==>
        (Live(Masked(v, mask), lane) <==> Live(v, lane) && At(mask, lane.0, lane.1) != 0)
  {
  }

  lemma {:induction false} MaskedElement(v: View, m: Matrix, tile: Matrix, mask: Matrix, i: int, j: int)
    requires AccessHolds(v, m) && tile.rows == mask.rows == v.row.rows && tile.cols == mask.cols == v.row.cols
    requires LanesApart(v) && Within(m, i, j)
    ensures AccessHolds(Masked(v, mask), m)
    ensures
      var whole, masked := StoreLanes(v, m, tile, Lanes(v)), StoreLanes(Masked(v, mask), m, tile, Lanes(v));
      At(whole, i, j) == At(masked, i, j) <==>
        forall lane: Lane :: InView(v, lane) && Rejected(v, mask, lane) && CoordinateOf(v, lane) == (i, j) ==>
          At(m, i, j) == At(tile, lane.0, lane.1)
  {
    MaskedAccess(v, m, mask);
    hide AccessHolds, Masked, StoreLanes, Lanes;
    if lane: Lane :| InView(v, lane) && Live(v, lane) && CoordinateOf(v, lane) == (i, j) {
      LiveElement(v, Masked(v, mask), m, tile, mask, lane);
      assert Rejected(v, mask, lane) <==> At(mask, lane.0, lane.1) == 0;
    } else {
      Untouched(v, m, tile, Lanes(v), i, j);
      Untouched(Masked(v, mask), m, tile, Lanes(v), i, j);
    }
  }

  /** A live lane's own element: the tile, or under a rejecting mask what the array held. */
  lemma {:induction false} LiveElement(v: View, u: View, m: Matrix, tile: Matrix, mask: Matrix, lane: Lane)
    requires AccessHolds(v, m) && tile.rows == mask.rows == v.row.rows && tile.cols == mask.cols == v.row.cols
    requires LanesApart(v) && InView(v, lane) && Live(v, lane) && u == Masked(v, mask) && AccessHolds(u, m)
    ensures
      var (i, j) := CoordinateOf(v, lane);
      && Within(m, i, j) && At(StoreLanes(v, m, tile, Lanes(v)), i, j) == At(tile, lane.0, lane.1)
      && At(StoreLanes(u, m, tile, Lanes(v)), i, j) ==
         if At(mask, lane.0, lane.1) != 0 then At(tile, lane.0, lane.1) else At(m, i, j)
  {
    hide Live;
    LaneListed(v.row.rows, v.row.cols, 0, lane);
    MaskedAccess(v, m, mask);
    MaskedApart(v, u, mask);
    assert InView(u, lane) && CoordinateOf(u, lane) == CoordinateOf(v, lane);
    hide AccessHolds, Masked, StoreLanes, Lanes, LanesApart;
    Stored(v, m, tile, Lanes(v), lane);
    var (i, j) := CoordinateOf(v, lane);
    if At(mask, lane.0, lane.1) != 0 {
      Stored(u, m, tile, Lanes(v), lane);
    } else {
      NoneAt(v, u, mask, lane);
      Untouched(u, m, tile, Lanes(v), i, j);
    }
  }

  /** No lane that the mask leaves live addresses the element of a rejected one. */
  lemma {:induction false} NoneAt(v: View, u: View, mask: Matrix, lane: Lane)
    requires LanesApart(v) && mask.rows == v.row.rows && mask.cols == v.row.cols && u == Masked(v, mask)
    requires InView(v, lane) && Rejected(v, mask, lane)
    ensures forall other :: other in Lanes(v) && InView(u, other) && Live(u, other) ==>
        CoordinateOf(u, other) != CoordinateOf(v, lane)
  {
    hide Lanes;
    forall other | other in Lanes(v) && InView(u, other) && Live(u, other)
      ensures CoordinateOf(u, other) != CoordinateOf(v, lane)
    {
      assert Live(v, other) && At(mask, other.0, other.1) != 0;
      assert CoordinateOf(u, other) == CoordinateOf(v, other);
    }
  }

  lemma {:induction false} MaskedApart(v: View, u: View, mask: Matrix)
    requires LanesApart(v) && mask.rows == v.row.rows && mask.cols == v.row.cols && u == Masked(v, mask)
    ensures LanesApart(u)
  {
    forall a: Lane, b: Lane | InView(u, a) && InView(u, b) && Live(u, a) && Live(u, b)
        && CoordinateOf(u, a) == CoordinateOf(u, b)
      ensures a == b
    {
      assert Live(v, a) && Live(v, b) && CoordinateOf(v, a) == CoordinateOf(v, b);
    }
  }

  /** A masked and an unmasked store of one tile leave the same array exactly if the array held
      the tile where the mask rejects a live lane. */
  lemma {:induction false} MaskMatters(v: View, m: Matrix, tile: Matrix, mask: Matrix)
    requires AccessHolds(v, m) && tile.rows == mask.rows == v.row.rows && tile.cols == mask.cols == v.row.cols
    requires LanesApart(v)
    ensures AccessHolds(Masked(v, mask), m)
    ensures StoreLanes(v, m, tile, Lanes(v)) == StoreLanes(Masked(v, mask), m, tile, Lanes(v)) <==>
        AlreadyHolds(v, m, tile, mask)
  {
    MaskedAccess(v, m, mask);
    var whole, masked := StoreLanes(v, m, tile, Lanes(v)), StoreLanes(Masked(v, mask), m, tile, Lanes(v));
    hide StoreLanes, Lanes, LanesApart, Masked;
    forall i, j | Within(m, i, j)
      ensures At(whole, i, j) == At(masked, i, j) <==>
        forall lane: Lane :: InView(v, lane) && Rejected(v, mask, lane) && CoordinateOf(v, lane) == (i, j) ==>
          At(m, i, j) == At(tile, lane.0, lane.1)
    {
      MaskedElement(v, m, tile, mask, i, j);
    }
    if AlreadyHolds(v, m, tile, mask) {
      SameCells(whole, masked);
    }
    if whole == masked {
      forall lane: Lane | InView(v, lane) && Rejected(v, mask, lane)
        ensures At(m, At(v.row, lane.0, lane.1), At(v.col, lane.0, lane.1)) == At(tile, lane.0, lane.1)
      {
        var (i, j) := CoordinateOf(v, lane);
        assert Within(m, i, j);
      }
    }
  }

  // ----- the two decompositions of a masked store -----

  /** A store under a mask, over an output whose lanes address elements of their own. */
  ghost predicate MaskedStore(store: Operation, result: string, target: string, env: Env, mem: Memory,
          views: map<string, View>, mask: Matrix) {
    && |store.operands| == 3 && store.operands[2] in env && store.operands[2] != result
    && target in views && LanesApart(views[target])
    && MaskOf([Num(0), Num(0), env[store.operands[2]]], views[target].row.rows, views[target].row.cols,
        Context(views, None), mem) == Success(mask)
  }

  lemma {:induction false} MaskedStoreWrites(op: Operation, tile: Matrix, target: string, predicateValue: Val,
          mask: Matrix, ctx: Context, mem: Memory)
    requires op.opcode.Store? && op.attrs.decomposition == NotDecomposed
    requires Reachable(ctx, mem, target) && tile.rows == ctx.views[target].row.rows
    requires tile.cols == ctx.views[target].row.cols
    requires MaskOf([Num(0), Num(0), predicateValue], tile.rows, tile.cols, ctx, mem) == Success(mask)
    ensures
      var view := ctx.views[target];
      && mask.rows == view.row.rows && mask.cols == view.row.cols && AccessHolds(Masked(view, mask), mem[view.storage])
      && StoreOperation(op, [Tile(tile), Ref(target), predicateValue], [], ctx, mem) ==
         Success(mem[view.storage := StoreLanes(Masked(view, mask), mem[view.storage], tile, Lanes(view))])
  {
    hide Masked, AccessHolds, MaskOf, Broadcast, StoreLanes, Lanes, LanesApart;
    var view := ctx.views[target];
    MaskIgnoresTile(tile, target, predicateValue, ctx, mem);
    MaskedAccess(view, mem[view.storage], mask);
    SpreadOwnShape(tile);
    assert Materialize(Tile(tile), ctx, mem) == Success(Tile(tile));
    MaskedWrite(Masked(view, mask), tile, Lanes(view), mem);
    hide WriteThrough, Materialize;
  }

  lemma {:induction false} MaskIgnoresTile(tile: Matrix, target: string, predicateValue: Val, ctx: Context, mem: Memory)
    ensures MaskOf([Tile(tile), Ref(target), predicateValue], tile.rows, tile.cols, ctx, mem) ==
        MaskOf([Num(0), Num(0), predicateValue], tile.rows, tile.cols, ctx, mem)
    ensures var r := MaskOf([Num(0), Num(0), predicateValue], tile.rows, tile.cols, ctx, mem);
            r.Success? ==> r.value.rows == tile.rows && r.value.cols == tile.cols
  {
    hide Materialize;
  }

  lemma {:induction false} MaskedWrite(u: View, tile: Matrix, lanes: seq<Lane>, mem: Memory)
    requires u.storage in mem && AccessHolds(u, mem[u.storage]) && tile.rows == u.row.rows && tile.cols == u.row.cols
    requires forall lane :: lane in lanes ==> InView(u, lane)
    requires Broadcast(Tile(tile), tile.rows, tile.cols) == Some(tile)
    ensures WriteThrough(u, Tile(tile), lanes, mem) ==
        Success(mem[u.storage := StoreLanes(u, mem[u.storage], tile, lanes)])
  {
    hide AccessHolds, Broadcast, StoreLanes;
  }

  lemma {:induction false} MaskedStoreRuns(store: Operation, result: string, tile: Matrix, target: string, env: Env,
          mem: Memory, views: map<string, View>, mask: Matrix)
    requires store.opcode.Store? && store.results == [] && store.attrs.indices == []
    requires store.attrs.decomposition == NotDecomposed && MaskedStore(store, result, target, env, mem, views, mask)
    requires store.operands[0] == result && store.operands[1] != result && store.operands[1] in env
    requires env[store.operands[1]] == Ref(target) && Reachable(Context(views, None), mem, target)
    requires tile.rows == views[target].row.rows && tile.cols == views[target].row.cols
    ensures
      var view, x := views[target], ExecOperations([store], env[result := Tile(tile)], mem, Context(views, None));
      && mask.rows == view.row.rows && mask.cols == view.row.cols && AccessHolds(Masked(view, mask), mem[view.storage])
      && x.Success? && x.value.mem ==
         mem[view.storage := StoreLanes(Masked(view, mask), mem[view.storage], tile, Lanes(view))]
  {
    hide StoreOperation, StoreLanes, MaskOf, LanesApart, Masked, AccessHolds, Lanes, Compute, ScalarOf, RegionResults;
    var ctx, bound := Context(views, None), env[result := Tile(tile)];
    var x, y, z := store.operands[0], store.operands[1], store.operands[2];
    MaskedStoreWrites(store, tile, target, env[z], mask, ctx, mem);
    hide MaskedStore;
    Lookup3(x, y, z, bound);
    assert store.operands == [x, y, z];
    var after := StoreOperation(store, [Tile(tile), Ref(target), env[z]], [], ctx, mem).value;
    assert Lookup(store.attrs.indices, bound) == Success([]);
    assert ExecOperation(store, bound, mem, ctx) == Success(([], after));
    var one := [store];
    assert one[1..] == [];
    assert ExecOperations(one, bound, mem, ctx) == ExecOperations(one[1..], BindValues([], [], bound), after, ctx);
  }

  /** The scalar code of a matmul is that of the store without its mask. */
  lemma {:induction false} MatMulMaskDropped(matmul: Operation, store: Operation, types: map<string, Type>,
          existing: set<string>, counter: nat)
    requires ClosesMatMul(matmul, store)
    ensures ClosesMatMul(matmul, WithoutMask(store))
    ensures DecomposeMatMulStore(matmul, store, types, existing, counter) ==
        DecomposeMatMulStore(matmul, WithoutMask(store), types, existing, counter)
  {
    hide FreshNames, LanePrefix, LaneLoop;
  }

  lemma {:induction false} TransposeMaskDropped(transpose: Operation, store: Operation, existing: set<string>,
          counter: nat)
    requires IsTranspose(transpose) && store.opcode.Store? && |store.operands| >= 2
    ensures DecomposeTransposeStore(transpose, store, existing, counter) ==
        DecomposeTransposeStore(transpose, WithoutMask(store), existing, counter)
  {
    hide FreshNames;
  }

  /** Replaying a decomposed product with a masked store leaves what the whole-tile pair leaves
      exactly if the output already holds the product wherever the mask rejects a live lane. */
  lemma {:induction false} MaskedMatMulExact(matmul: Operation, store: Operation, target: string,
          types: map<string, Type>, existing: set<string>, counter: nat, env: Env, mem: Memory,
          views: map<string, View>, a: Matrix, b: Matrix, mask: Matrix)
    requires |store.operands| == 3 && StoredProduct(matmul, WithoutMask(store), target, env, mem, views, a, b)
    requires ClosesMatMul(matmul, store) && MaskedStore(store, matmul.results[0].name, target, env, mem, views, mask)
    requires Apart(env[matmul.operands[0]], views[target].storage, views)
    requires Apart(env[matmul.operands[1]], views[target].storage, views)
    requires env.Keys <= existing && KK !in env && ACC_ITER !in env
    requires
      var extent := ExtentOf(matmul.attrs.k, TypeOf(types, matmul.operands[0]), TypeOf(types, matmul.operands[1]));
      extent.FromSymbol? ==> extent.name in env && env[extent.name] == Num(a.cols)
    ensures
      var view, whole := views[target], ExecOperations([matmul, store], env, mem, Context(views, None));
      var replayed := RunLanes(DecomposeMatMulStore(matmul, store, types, existing, counter).0, env, mem, views, view,
          Lanes(view));
      && whole.Success? && replayed.Success? && mask.rows == view.row.rows && mask.cols == view.row.cols
      && (replayed == Success(whole.value.mem) <==> AlreadyHolds(view, mem[view.storage], Product(a, b), mask))
  {
    hide DecomposeMatMulStore, ExecOperations, Product, StoreLanes, RunLanes, LanesApart, AlreadyHolds, MaskOf, Lanes,
        Masked, Reads, AccessHolds, StoredProduct, Apart, ExtentOf, ClosesMatMul, MaskedStore;
    ProductReplays(matmul, store, target, types, existing, counter, env, mem, views, a, b);
    MaskedProductRuns(matmul, store, target, env, mem, views, a, b, mask);
    MaskVerdict(views[target], mem, Product(a, b), mask);
  }

  /** What the scalar code of a masked product leaves: every live lane stored. */
  lemma {:induction false} ProductReplays(matmul: Operation, store: Operation, target: string,
          types: map<string, Type>, existing: set<string>, counter: nat, env: Env, mem: Memory,
          views: map<string, View>, a: Matrix, b: Matrix)
    requires |store.operands| == 3 && StoredProduct(matmul, WithoutMask(store), target, env, mem, views, a, b)
    requires ClosesMatMul(matmul, store)
    requires Apart(env[matmul.operands[0]], views[target].storage, views)
    requires Apart(env[matmul.operands[1]], views[target].storage, views)
    requires env.Keys <= existing && KK !in env && ACC_ITER !in env
    requires
      var extent := ExtentOf(matmul.attrs.k, TypeOf(types, matmul.operands[0]), TypeOf(types, matmul.operands[1]));
      extent.FromSymbol? ==> extent.name in env && env[extent.name] == Num(a.cols)
    ensures
      var view := views[target];
      RunLanes(DecomposeMatMulStore(matmul, store, types, existing, counter).0, env, mem, views, view, Lanes(view)) ==
      Success(mem[view.storage := StoreLanes(view, mem[view.storage], Product(a, b), Lanes(view))])
  {
    MatMulMaskDropped(matmul, store, types, existing, counter);
    hide DecomposeMatMulStore, ExecOperations, Product, StoreLanes, RunLanes, Lanes, Reads, AccessHolds;
    DecompositionPreservesMeaning(matmul, WithoutMask(store), target, types, existing, counter, env, mem, views, a, b);
    WholeTileRuns(matmul, WithoutMask(store), target, env, mem, views, a, b);
  }

  /** What the whole-tile pair leaves: the live lanes that the mask keeps. */
  lemma {:induction false} MaskedProductRuns(matmul: Operation, store: Operation, target: string, env: Env,
          mem: Memory, views: map<string, View>, a: Matrix, b: Matrix, mask: Matrix)
    requires |store.operands| == 3 && StoredProduct(matmul, WithoutMask(store), target, env, mem, views, a, b)
    requires MaskedStore(store, matmul.results[0].name, target, env, mem, views, mask)
    ensures target in views && views[target].storage in mem && AccessHolds(views[target], mem[views[target].storage])
    ensures LanesApart(views[target]) && a.cols == b.rows
    ensures a.rows == views[target].row.rows && b.cols == views[target].row.cols
    ensures
      var view, whole := views[target], ExecOperations([matmul, store], env, mem, Context(views, None));
      && mask.rows == view.row.rows && mask.cols == view.row.cols && AccessHolds(Masked(view, mask), mem[view.storage])
      && whole.Success? && whole.value.mem ==
         mem[view.storage := StoreLanes(Masked(view, mask), mem[view.storage], Product(a, b), Lanes(view))]
  {
    hide ExecOperations, Product, StoreLanes, LanesApart, MaskOf, Lanes, Masked, Reads, AccessHolds;
    ProductRuns(matmul, store, target, env, mem, views, a, b);
    MaskedStoreRuns(store, matmul.results[0].name, Product(a, b), target, env, mem, views, mask);
  }

  lemma {:induction false} MaskVerdict(view: View, mem: Memory, tile: Matrix, mask: Matrix)
    requires view.storage in mem && AccessHolds(view, mem[view.storage]) && LanesApart(view)
    requires tile.rows == mask.rows == view.row.rows && tile.cols == mask.cols == view.row.cols
    ensures AccessHolds(Masked(view, mask), mem[view.storage])
    ensures mem[view.storage := StoreLanes(view, mem[view.storage], tile, Lanes(view))] ==
            mem[view.storage := StoreLanes(Masked(view, mask), mem[view.storage], tile, Lanes(view))] <==>
            AlreadyHolds(view, mem[view.storage], tile, mask)
  {
    hide StoreLanes, LanesApart, AlreadyHolds, Lanes, Masked, AccessHolds;
    MaskMatters(view, mem[view.storage], tile, mask);
    SameStorage(mem, view.storage, StoreLanes(view, mem[view.storage], tile, Lanes(view)),
        StoreLanes(Masked(view, mask), mem[view.storage], tile, Lanes(view)));
  }

  lemma {:induction false} SameStorage(mem: Memory, storage: string, m: Matrix, n: Matrix)
    ensures mem[storage := m] == mem[storage := n] <==> m == n
  {
    assert mem[storage := m][storage] == m && mem[storage := n][storage] == n;
  }

  lemma {:induction false} ProductRuns(matmul: Operation, store: Operation, target: string, env: Env, mem: Memory,
          views: map<string, View>, a: Matrix, b: Matrix)
    requires |store.operands| >= 2 && StoredProduct(matmul, WithoutMask(store), target, env, mem, views, a, b)
    ensures ExecOperations([matmul, store], env, mem, Context(views, None)) ==
        ExecOperations([store], env[matmul.results[0].name := Tile(Product(a, b))], mem, Context(views, None))
  {
    hide Product, ExecOperations, Compute, Reads;
    var ctx, lhs, rhs := Context(views, None), matmul.operands[0], matmul.operands[1];
    Lookup2(lhs, rhs, env);
    assert matmul.operands == [lhs, rhs];
    MatMulComputes(matmul, env[lhs], env[rhs], a, b, ctx, mem);
    ExecEmit(matmul, [store], [env[lhs], env[rhs]], Tile(Product(a, b)), env, mem, ctx);
    assert [matmul] + [store] == [matmul, store];
  }

  /** The same for a transpose and its masked store. */
  lemma {:induction false} MaskedTransposeExact(transpose: Operation, store: Operation, source: string, target: string,
          existing: set<string>, counter: nat, env: Env, mem: Memory, views: map<string, View>, mask: Matrix)
    requires |store.operands| == 3
    requires StoredTranspose(transpose, WithoutMask(store), source, target, env, mem, views) && env.Keys <= existing
    requires MaskedStore(store, transpose.results[0].name, target, env, mem, views, mask)
    ensures
      var view, whole := views[target], ExecOperations([transpose, store], env, mem, Context(views, None));
      var replayed := RunLanes(DecomposeTransposeStore(transpose, store, existing, counter).0, env, mem, views, view,
          Lanes(view));
      var tile := SourceTile(source, views, mem);
      && whole.Success? && replayed.Success? && mask.rows == view.row.rows && mask.cols == view.row.cols
      && tile.rows == view.row.rows && tile.cols == view.row.cols
      && (replayed == Success(whole.value.mem) <==> AlreadyHolds(view, mem[view.storage], tile, mask))
  {
    hide DecomposeTransposeStore, ExecOperations, SourceTile, StoreLanes, RunLanes, LanesApart, AlreadyHolds, MaskOf,
        Lanes, Masked, AccessHolds, StoredTranspose, MaskedStore;
    TransposeReplays(transpose, store, source, target, existing, counter, env, mem, views);
    MaskedTransposeRuns(transpose, store, source, target, env, mem, views, mask);
    MaskVerdict(views[target], mem, SourceTile(source, views, mem), mask);
  }

  lemma {:induction false} TransposeReplays(transpose: Operation, store: Operation, source: string, target: string,
          existing: set<string>, counter: nat, env: Env, mem: Memory, views: map<string, View>)
    requires |store.operands| == 3
    requires StoredTranspose(transpose, WithoutMask(store), source, target, env, mem, views) && env.Keys <= existing
    ensures
      var view, tile := views[target], SourceTile(source, views, mem);
      && tile.rows == view.row.rows && tile.cols == view.row.cols
      && RunLanes(DecomposeTransposeStore(transpose, store, existing, counter).0, env, mem, views, view, Lanes(view)) ==
         Success(mem[view.storage := StoreLanes(view, mem[view.storage], tile, Lanes(view))])
  {
    TransposeMaskDropped(transpose, store, existing, counter);
    hide DecomposeTransposeStore, ExecOperations, SourceTile, StoreLanes, RunLanes, Lanes, AccessHolds, Mirrored;
    TransposePreservesMeaning(transpose, WithoutMask(store), source, target, existing, counter, env, mem, views);
    WholeTransposeRuns(transpose, WithoutMask(store), source, target, env, mem, views);
  }

  lemma {:induction false} MaskedTransposeRuns(transpose: Operation, store: Operation, source: string, target: string,
          env: Env, mem: Memory, views: map<string, View>, mask: Matrix)
    requires |store.operands| == 3
    requires StoredTranspose(transpose, WithoutMask(store), source, target, env, mem, views)
    requires MaskedStore(store, transpose.results[0].name, target, env, mem, views, mask)
    requires var tile := SourceTile(source, views, mem);
             tile.rows == views[target].row.rows && tile.cols == views[target].row.cols
    ensures target in views && views[target].storage in mem && AccessHolds(views[target], mem[views[target].storage])
    ensures LanesApart(views[target]) && Reachable(Context(views, None), mem, source)
    ensures
      var view, whole := views[target], ExecOperations([transpose, store], env, mem, Context(views, None));
      && mask.rows == view.row.rows && mask.cols == view.row.cols && AccessHolds(Masked(view, mask), mem[view.storage])
      && whole.Success? && whole.value.mem == mem[view.storage :=
           StoreLanes(Masked(view, mask), mem[view.storage], SourceTile(source, views, mem), Lanes(view))]
  {
    hide ExecOperations, SourceTile, StoreLanes, LanesApart, MaskOf, Lanes, Masked, AccessHolds, Mirrored;
    TransposeRuns(transpose, store, source, target, env, mem, views);
    MaskedStoreRuns(store, transpose.results[0].name, SourceTile(source, views, mem), target, env, mem, views, mask);
  }

  lemma {:induction false} TransposeRuns(transpose: Operation, store: Operation, source: string, target: string,
          env: Env, mem: Memory, views: map<string, View>)
    requires |store.operands| >= 2
    requires StoredTranspose(transpose, WithoutMask(store), source, target, env, mem, views)
    ensures ExecOperations([transpose, store], env, mem, Context(views, None)) ==
        ExecOperations([store], env[transpose.results[0].name := Tile(SourceTile(source, views, mem))], mem,
            Context(views, None))
  {
    hide ExecOperations, Compute, Mirrored, ReadAll;
    var ctx, tile := Context(views, None), SourceTile(source, views, mem);
    Lookup1(transpose.operands[0], env);
    assert transpose.operands == [transpose.operands[0]];
    TransposeComputes(transpose, source, ctx, mem);
    hide SourceTile;
    ExecEmit(transpose, [store], [Ref(source)], Tile(tile), env, mem, ctx);
    assert [transpose] + [store] == [transpose, store];
  }
}
