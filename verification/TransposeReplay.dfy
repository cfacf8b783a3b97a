/** Replaying a decomposed transpose once for each live output lane leaves the output exactly
    as the whole-tile transpose and store would, where the two arrangements mirror each
    other: the scalar code reads the source array at the output's coordinates, swapped. */
module TransposeReplay {
  import opened Wrappers
  import opened Ssa
  import opened Interpreter
  import opened Linalg
  import opened Decomposition
  import opened LaneReplay

  /** Where the output has a live lane, the source view has a live lane at the swapped place,
      for the swapped coordinates. */
  ghost predicate Mirrored(source: View, output: View) {
    && source.row.rows == output.row.cols && source.row.cols == output.row.rows
    && forall i: nat, j: nat :: InView(output, (i, j)) && Live(output, (i, j)) ==>
         Live(source, (j, i)) && At(source.row, j, i) == At(output.col, i, j)
             && At(source.col, j, i) == At(output.row, i, j)
  }

  /** A transpose and the store that consumes it, over arrays of their own. */
  ghost predicate TransposePair(transpose: Operation, store: Operation, source: string, target: string, env: Env,
          mem: Memory, views: map<string, View>) {
    && IsTranspose(transpose) && store.opcode.Store? && |store.operands| == 2 && store.results == []
    && store.attrs.indices == [] && store.attrs.decomposition == NotDecomposed
    && store.operands[0] == transpose.results[0].name && store.operands[1] != transpose.results[0].name
    && transpose.operands[0] in env && env[transpose.operands[0]] == Ref(source)
    && store.operands[1] in env && env[store.operands[1]] == Ref(target)
    && Reachable(Context(views, None), mem, source) && Reachable(Context(views, None), mem, target)
    && views[source].storage != views[target].storage && Facing(views[source], views[target])
  }

  predicate Facing(source: View, output: View) {
    source.row.rows == output.row.cols && source.row.cols == output.row.rows
  }

  /** Such a pair over arrangements that mirror each other. */
  ghost predicate StoredTranspose(transpose: Operation, store: Operation, source: string, target: string, env: Env,
          mem: Memory, views: map<string, View>) {
    TransposePair(transpose, store, source, target, env, mem, views) && Mirrored(views[source], views[target])
  }

  /** The source array has an element at the swapped coordinates of the output lane. */
  predicate Readable(m: Matrix, output: View, lane: Lane)
    requires InView(output, lane)
  {
    Within(m, At(output.col, lane.0, lane.1), At(output.row, lane.0, lane.1))
  }

  /** The tile that the scalar code stores. */
  function SwappedTile(m: Matrix, output: View): (tile: Matrix)
    ensures tile.rows == output.row.rows && tile.cols == output.row.cols
  {
    Build(output.row.rows, output.row.cols,
          (i: int, j: int) requires 0 <= i < output.row.rows && 0 <= j < output.row.cols =>
            if Readable(m, output, (i, j)) then At(m, At(output.col, i, j), At(output.row, i, j)) else 0)
  }

  /** The tile that the whole-tile pair stores. */
  function SourceTile(source: string, views: map<string, View>, mem: Memory): Matrix
    requires Reachable(Context(views, None), mem, source)
  {
    Transposed(ReadAll(views[source], mem[views[source].storage]))
  }

  lemma {:induction false} TileAt(source: string, target: string, views: map<string, View>, mem: Memory, lane: Lane)
    requires Reachable(Context(views, None), mem, source) && target in views && Mirrored(views[source], views[target])
    requires InView(views[target], lane) && Live(views[target], lane)
    ensures var output, m := views[target], mem[views[source].storage];
            var row, col := At(output.col, lane.0, lane.1), At(output.row, lane.0, lane.1);
            Within(m, row, col) && At(SourceTile(source, views, mem), lane.0, lane.1) == At(m, row, col)
  {
    var i: nat, j: nat := lane.0, lane.1;
    assert InView(views[target], (i, j)) && Live(views[target], (i, j));
    assert Live(views[source], (j, i));
  }

  lemma {:induction false} LaneOffset(op: Operation, target: string, lane: Lane, ctx: Context, mem: Memory)
    requires op.opcode in {Offset(0, false), Offset(1, false)} && op.attrs.decomposition == TransposeLane
    requires ctx.lane == Some(lane)
    requires Reachable(ctx, mem, target) && InView(ctx.views[target], lane)
    ensures var view := ctx.views[target];
            Compute(op, [Ref(target)], ctx, mem) ==
                Success(Num(At(if op.opcode.axis == 0 then view.row else view.col, lane.0, lane.1)))
  {
  }

  lemma {:induction false} SourceExtract(op: Operation, source: string, i: int, j: int, ctx: Context, mem: Memory)
    requires op.opcode == Extract(true) && source in ctx.views && ctx.views[source].storage in mem
    requires Within(mem[ctx.views[source].storage], i, j)
    ensures Compute(op, [Ref(source), Num(i), Num(j)], ctx, mem) ==
        Success(Num(At(mem[ctx.views[source].storage], i, j)))
  {
  }

  /** One lane stores one element of the swapped tile. */
  lemma {:induction false} LaneStores(transpose: Operation, store: Operation, source: string, target: string,
          names: seq<string>, scalar: Type, env: Env, mem: Memory, views: map<string, View>, lane: Lane)
    requires TransposePair(transpose, store, source, target, env, mem, views)
    requires FreshThree(names, env)
    requires InView(views[target], lane) && Live(views[target], lane)
    requires Readable(mem[views[source].storage], views[target], lane)
    ensures var view, tile := views[target], SwappedTile(mem[views[source].storage], views[target]);
            var x := ExecOperations(TransposeLanes(transpose.operands[0], store.operands[1], names, scalar, store), env,
                mem, Context(views, Some(lane)));
            x.Success? && x.value.mem == mem[view.storage := StoreLanes(view, mem[view.storage], tile, [lane])]
  {
    var m, tile := mem[views[source].storage], SwappedTile(mem[views[source].storage], views[target]);
    var view := views[target];
    var col, row := At(view.row, lane.0, lane.1), At(view.col, lane.0, lane.1);
    assert At(tile, lane.0, lane.1) == At(m, row, col);
    hide ExecOperations, Compute, StoreLanes, SwappedTile, AccessHolds;
    var ctx := Context(views, Some(lane));
    var ops := TransposeLanes(transpose.operands[0], store.operands[1], names, scalar, store);
    var e2 := OffsetsRun(transpose, store, source, target, names, scalar, env, mem, views, lane);
    Lookup3(transpose.operands[0], names[1], names[0], e2);
    SourceExtract(ops[2], source, row, col, ctx, mem);
    ExecEmit(ops[2], [ops[3]], [Ref(source), Num(row), Num(col)], Num(At(m, row, col)), e2, mem, ctx);
    var e3 := e2[names[2] := Num(At(m, row, col))];
    ScalarStoreRuns(ops[3], names[2], At(m, row, col), store.operands[1], target, tile, lane, e3, mem, ctx);
  }

  /** A lane first finds its output coordinates. */
  lemma {:induction false} OffsetsRun(transpose: Operation, store: Operation, source: string, target: string,
          names: seq<string>, scalar: Type, env: Env, mem: Memory, views: map<string, View>, lane: Lane)
    returns (e2: Env)
    requires TransposePair(transpose, store, source, target, env, mem, views) && FreshThree(names, env)
    requires InView(views[target], lane)
    ensures
      var ops := TransposeLanes(transpose.operands[0], store.operands[1], names, scalar, store);
      var view := views[target];
      && e2 == env[names[0] := Num(At(view.row, lane.0, lane.1))][names[1] := Num(At(view.col, lane.0, lane.1))]
      && ExecOperations(ops, env, mem, Context(views, Some(lane))) ==
         ExecOperations([ops[2]] + [ops[3]], e2, mem, Context(views, Some(lane)))
      && transpose.operands[0] in e2 && e2[transpose.operands[0]] == Ref(source)
      && store.operands[1] in e2 && e2[store.operands[1]] == Ref(target)
      && names[0] != names[1] && store.operands[1] != names[2]
  {
    hide ExecOperations, Compute, AccessHolds, Facing;
    var ctx, view := Context(views, Some(lane)), views[target];
    var from, output := transpose.operands[0], store.operands[1];
    var ops := TransposeLanes(from, output, names, scalar, store);
    assert names[0] != names[1] && names[0] != names[2] && names[1] != names[2];
    assert names[0] != output && names[1] != output && names[2] != output && names[0] != from && names[1] != from;
    var col, row := At(view.row, lane.0, lane.1), At(view.col, lane.0, lane.1);
    Lookup1(output, env);
    LaneOffset(ops[0], target, lane, ctx, mem);
    ExecEmit(ops[0], [ops[1]] + ([ops[2]] + [ops[3]]), [Ref(target)], Num(col), env, mem, ctx);
    var e1 := env[names[0] := Num(col)];
    Lookup1(output, e1);
    LaneOffset(ops[1], target, lane, ctx, mem);
    ExecEmit(ops[1], [ops[2]] + [ops[3]], [Ref(target)], Num(row), e1, mem, ctx);
    e2 := e1[names[1] := Num(row)];
    assert ops == [ops[0]] + ([ops[1]] + ([ops[2]] + [ops[3]]));
  }

  /** A lane whose swapped coordinates are outside the source array fails. */
  lemma {:induction false} LaneFails(transpose: Operation, store: Operation, source: string, target: string,
          names: seq<string>, scalar: Type, env: Env, mem: Memory, views: map<string, View>, lane: Lane)
    requires TransposePair(transpose, store, source, target, env, mem, views) && FreshThree(names, env)
    requires InView(views[target], lane) && !Readable(mem[views[source].storage], views[target], lane)
    ensures ExecOperations(TransposeLanes(transpose.operands[0], store.operands[1], names, scalar, store), env, mem,
        Context(views, Some(lane))).Failure?
  {
    hide ExecOperations, Compute, AccessHolds, Facing, StoreOperation;
    var ops := TransposeLanes(transpose.operands[0], store.operands[1], names, scalar, store);
    var e2 := OffsetsRun(transpose, store, source, target, names, scalar, env, mem, views, lane);
    Lookup3(transpose.operands[0], names[1], names[0], e2);
    ExtractFails(ops[2], source, e2[names[1]].value, e2[names[0]].value, Context(views, Some(lane)), mem);
    OneFails(ops[2], [ops[3]], e2, mem, Context(views, Some(lane)));
  }

  lemma {:induction false} ExtractFails(op: Operation, source: string, i: int, j: int, ctx: Context, mem: Memory)
    requires op.opcode == Extract(true) && source in ctx.views && ctx.views[source].storage in mem
    requires !Within(mem[ctx.views[source].storage], i, j)
    ensures Compute(op, [Ref(source), Num(i), Num(j)], ctx, mem).Failure?
  {
  }

  lemma {:induction false} OneFails(op: Operation, rest: seq<Operation>, env: Env, mem: Memory, ctx: Context)
    requires !op.opcode.For? && !op.opcode.If? && !op.opcode.Store? && !op.opcode.Yield?
    requires Lookup(op.operands, env).Success? && Compute(op, Lookup(op.operands, env).value, ctx, mem).Failure?
    ensures ExecOperations([op] + rest, env, mem, ctx).Failure?
  {
    hide Compute;
    assert ([op] + rest)[0] == op;
  }

  lemma {:induction false} SourceShape(source: string, target: string, views: map<string, View>, mem: Memory)
    requires Reachable(Context(views, None), mem, source) && target in views && Facing(views[source], views[target])
    ensures
      var tile := SourceTile(source, views, mem);
      tile.rows == views[target].row.rows && tile.cols == views[target].row.cols
  {
  }

  lemma {:induction false} StillStored(transpose: Operation, store: Operation, source: string, target: string, env: Env,
          mem: Memory, views: map<string, View>, next: Matrix)
    requires TransposePair(transpose, store, source, target, env, mem, views)
    requires next.rows == mem[views[target].storage].rows && next.cols == mem[views[target].storage].cols
    ensures var after := mem[views[target].storage := next];
            TransposePair(transpose, store, source, target, env, after, views)
                && after[views[source].storage] == mem[views[source].storage]
  {
    hide Facing, AccessHolds;
    SameAccess(views[target], mem[views[target].storage], next);
    var after := mem[views[target].storage := next];
    assert Reachable(Context(views, None), after, source) && Reachable(Context(views, None), after, target);
  }

  lemma {:induction false} SameAccess(v: View, m: Matrix, next: Matrix)
    requires AccessHolds(v, m) && next.rows == m.rows && next.cols == m.cols
    ensures AccessHolds(v, next)
  {
  }

  /** What holds before each lane: the pair is as it was, and so is the tile to store. */
  ghost predicate Replaying(transpose: Operation, store: Operation, source: string, target: string, env: Env,
          mem: Memory, views: map<string, View>, view: View, tile: Matrix) {
    && TransposePair(transpose, store, source, target, env, mem, views) && view == views[target]
    && tile == SwappedTile(mem[views[source].storage], view)
    && forall lane: Lane :: InView(view, lane) && Live(view, lane) ==> Readable(mem[views[source].storage], view, lane)
  }

  ghost predicate FreshThree(names: seq<string>, env: Env) {
    |names| == 3 && (forall n :: 0 <= n < 3 ==> names[n] !in env) && forall n, m :: 0 <= n < m < 3 ==>
        names[n] != names[m]
  }

  /** The memory that a run of lanes leaves. */
  function Written(view: View, tile: Matrix, mem: Memory, lanes: seq<Lane>): Memory
    requires view.storage in mem && AccessHolds(view, mem[view.storage]) && tile.rows == view.row.rows
    requires tile.cols == view.row.cols
    requires forall lane :: lane in lanes ==> InView(view, lane)
  {
    mem[view.storage := StoreLanes(view, mem[view.storage], tile, lanes)]
  }

  lemma {:induction false} ReplayAccess(transpose: Operation, store: Operation, source: string, target: string,
          env: Env, mem: Memory, views: map<string, View>, view: View, tile: Matrix)
    requires Replaying(transpose, store, source, target, env, mem, views, view, tile)
    ensures view.storage in mem && AccessHolds(view, mem[view.storage]) && tile.rows == view.row.rows
    ensures tile.cols == view.row.cols
  {
  }

  /** A lane run while the replay goes on. */
  lemma {:induction false} LaneWrites(transpose: Operation, store: Operation, source: string, target: string,
          names: seq<string>, scalar: Type, ops: seq<Operation>, env: Env, mem: Memory, views: map<string, View>,
          view: View, tile: Matrix, lane: Lane)
    requires Replaying(transpose, store, source, target, env, mem, views, view, tile) && FreshThree(names, env)
    requires ops == TransposeLanes(transpose.operands[0], store.operands[1], names, scalar, store)
    requires InView(view, lane) && Live(view, lane)
    ensures view.storage in mem && AccessHolds(view, mem[view.storage])
    ensures
      var x := ExecOperations(ops, env, mem, Context(views, Some(lane)));
      x.Success? && x.value.mem == Written(view, tile, mem, [lane])
  {
    hide ExecOperations, TransposeLanes, SwappedTile, StoreLanes, AccessHolds;
    LaneStores(transpose, store, source, target, names, scalar, env, mem, views, lane);
  }

  lemma {:induction false} ReplayGoesOn(transpose: Operation, store: Operation, source: string, target: string,
          env: Env, mem: Memory, views: map<string, View>, view: View, tile: Matrix, m: Matrix)
    requires Replaying(transpose, store, source, target, env, mem, views, view, tile) && view.storage in mem
    requires m.rows == mem[view.storage].rows && m.cols == mem[view.storage].cols
    ensures Replaying(transpose, store, source, target, env, mem[view.storage := m], views, view, tile)
  {
    hide SwappedTile, TransposePair, Readable;
    StillStored(transpose, store, source, target, env, mem, views, m);
  }

  /** Writing the first live lane, then the others. */
  lemma {:induction false} WrittenOne(view: View, tile: Matrix, mem: Memory, lanes: seq<Lane>) returns (m: Matrix)
    requires view.storage in mem && AccessHolds(view, mem[view.storage]) && tile.rows == view.row.rows
    requires tile.cols == view.row.cols
    requires lanes != [] && (forall lane :: lane in lanes ==> InView(view, lane)) && Live(view, lanes[0])
    ensures m.rows == mem[view.storage].rows && m.cols == mem[view.storage].cols
    ensures Written(view, tile, mem, [lanes[0]]) == mem[view.storage := m]
    ensures AccessHolds(view, m)
    ensures Written(view, tile, mem[view.storage := m], lanes[1..]) == Written(view, tile, mem, lanes)
  {
    m := StoreOne(view, mem[view.storage], tile, lanes);
    SameAccess(view, mem[view.storage], m);
    hide StoreLanes, AccessHolds;
    assert mem[view.storage := m][view.storage := StoreLanes(view, m, tile, lanes[1..])] ==
        mem[view.storage := StoreLanes(view, m, tile, lanes[1..])];
  }

  /** The first live lane runs, and the others go on from there. */
  lemma {:induction false} FirstLane(transpose: Operation, store: Operation, source: string, target: string,
          names: seq<string>, scalar: Type, ops: seq<Operation>, env: Env, mem: Memory, views: map<string, View>,
          view: View, tile: Matrix, lanes: seq<Lane>, m: Matrix)
    requires Replaying(transpose, store, source, target, env, mem, views, view, tile) && FreshThree(names, env)
    requires ops == TransposeLanes(transpose.operands[0], store.operands[1], names, scalar, store)
    requires lanes != [] && InView(view, lanes[0]) && Live(view, lanes[0])
    requires view.storage in mem && AccessHolds(view, mem[view.storage]) && m.rows == mem[view.storage].rows
    requires m.cols == mem[view.storage].cols
    requires tile.rows == view.row.rows && tile.cols == view.row.cols
    requires Written(view, tile, mem, [lanes[0]]) == mem[view.storage := m]
    ensures
      var x := ExecOperations(ops, env, mem, Context(views, Some(lanes[0])));
      x.Success? && x.value.mem == mem[view.storage := m]
    ensures Replaying(transpose, store, source, target, env, mem[view.storage := m], views, view, tile)
  {
    LaneWrites(transpose, store, source, target, names, scalar, ops, env, mem, views, view, tile, lanes[0]);
    hide ExecOperations, TransposeLanes, StoreLanes, AccessHolds, TransposePair, FreshThree, Written;
    ReplayGoesOn(transpose, store, source, target, env, mem, views, view, tile, m);
  }

  lemma {:induction false} AllLanes(transpose: Operation, store: Operation, source: string, target: string,
          names: seq<string>, scalar: Type, ops: seq<Operation>, env: Env, mem: Memory, views: map<string, View>,
          view: View, tile: Matrix, lanes: seq<Lane>)
    requires Replaying(transpose, store, source, target, env, mem, views, view, tile) && FreshThree(names, env)
    requires ops == TransposeLanes(transpose.operands[0], store.operands[1], names, scalar, store)
    requires forall lane :: lane in lanes ==> InView(view, lane)
    ensures view.storage in mem && AccessHolds(view, mem[view.storage]) && tile.rows == view.row.rows
    ensures tile.cols == view.row.cols
    ensures RunLanes(ops, env, mem, views, view, lanes) == Success(Written(view, tile, mem, lanes))
    decreases |lanes|
  {
    ReplayAccess(transpose, store, source, target, env, mem, views, view, tile);
    LanesStep(ops, env, mem, views, view, lanes);
    hide ExecOperations, TransposeLanes, RunLanes, Replaying, AccessHolds, StoreLanes;
    if lanes == [] {
      NoLanes(view, mem[view.storage], tile);
      assert mem[view.storage := mem[view.storage]] == mem;
    } else {
      assert forall lane :: lane in lanes[1..] ==> lane in lanes;
      if Live(view, lanes[0]) {
        var m := WrittenOne(view, tile, mem, lanes);
        FirstLane(transpose, store, source, target, names, scalar, ops, env, mem, views, view, tile, lanes, m);
        hide Written;
        AllLanes(transpose, store, source, target, names, scalar, ops, env, mem[view.storage := m], views, view, tile,
            lanes[1..]);
      } else {
        StoreSkipped(view, mem[view.storage], tile, lanes);
        AllLanes(transpose, store, source, target, names, scalar, ops, env, mem, views, view, tile, lanes[1..]);
      }
    }
  }

  lemma {:induction false} NoLanes(view: View, m: Matrix, tile: Matrix)
    requires AccessHolds(view, m) && tile.rows == view.row.rows && tile.cols == view.row.cols
    ensures StoreLanes(view, m, tile, []) == m
  {
  }

  lemma {:induction false} StoreSkipped(view: View, m: Matrix, tile: Matrix, lanes: seq<Lane>)
    requires AccessHolds(view, m) && tile.rows == view.row.rows && tile.cols == view.row.cols
    requires lanes != [] && (forall lane :: lane in lanes ==> InView(view, lane)) && !Live(view, lanes[0])
    ensures StoreLanes(view, m, tile, lanes) == StoreLanes(view, m, tile, lanes[1..])
  {
  }

  lemma {:induction false} LanesStep(ops: seq<Operation>, env: Env, mem: Memory, views: map<string, View>, v: View,
          lanes: seq<Lane>)
    requires forall lane :: lane in lanes ==> InView(v, lane)
    ensures lanes == [] ==> RunLanes(ops, env, mem, views, v, lanes) == Success(mem)
    ensures lanes != [] && !Live(v, lanes[0]) ==>
        RunLanes(ops, env, mem, views, v, lanes) == RunLanes(ops, env, mem, views, v, lanes[1..])
    ensures lanes != [] && Live(v, lanes[0]) ==>
              var done := ExecOperations(ops, env, mem, Context(views, Some(lanes[0])));
              done.Success? ==>
                  RunLanes(ops, env, mem, views, v, lanes) == RunLanes(ops, env, done.value.mem, views, v, lanes[1..])
  {
    hide ExecOperations;
  }

  /** The original pair: a whole-tile transpose and its store. */
  lemma {:induction false} WholeTransposeRuns(transpose: Operation, store: Operation, source: string, target: string,
          env: Env, mem: Memory, views: map<string, View>)
    requires TransposePair(transpose, store, source, target, env, mem, views)
    ensures var view, tile := views[target], SourceTile(source, views, mem);
            var x := ExecOperations([transpose, store], env, mem, Context(views, None));
            && tile.rows == view.row.rows && tile.cols == view.row.cols
            && x.Success? && x.value.mem == mem[view.storage := StoreLanes(view, mem[view.storage], tile, Lanes(view))]
  {
    hide StoreOperation, StoreLanes, ExecOperations, Compute, Facing, ReadAll;
    var ctx, tile := Context(views, None), SourceTile(source, views, mem);
    SourceShape(source, target, views, mem);
    Lookup1(transpose.operands[0], env);
    assert transpose.operands == [transpose.operands[0]];
    TransposeComputes(transpose, source, ctx, mem);
    hide SourceTile;
    ExecEmit(transpose, [store], [Ref(source)], Tile(tile), env, mem, ctx);
    assert [transpose] + [store] == [transpose, store];
    StoreRuns(store, tile, target, env[transpose.results[0].name := Tile(tile)], mem, ctx);
  }

  lemma {:induction false} TransposeComputes(op: Operation, source: string, ctx: Context, mem: Memory)
    requires op.opcode.Transpose? && Reachable(Context(ctx.views, None), mem, source)
    ensures Compute(op, [Ref(source)], ctx, mem) == Success(Tile(SourceTile(source, ctx.views, mem)))
  {
  }

  /** Decomposition preserves meaning: replaying the scalar code of a consumed transpose once
      for every live lane of the output leaves exactly the memory of the whole-tile
      transpose and store. */
  lemma {:induction false} TransposePreservesMeaning(transpose: Operation, store: Operation, source: string,
          target: string, existing: set<string>, counter: nat, env: Env, mem: Memory, views: map<string, View>)
    requires StoredTranspose(transpose, store, source, target, env, mem, views) && env.Keys <= existing
    ensures var whole := ExecOperations([transpose, store], env, mem, Context(views, None));
            var replayed := RunLanes(DecomposeTransposeStore(transpose, store, existing, counter).0, env, mem, views,
                views[target], Lanes(views[target]));
            whole.Success? && replayed == Success(whole.value.mem)
  {
    var view, m, tile := views[target], mem[views[source].storage], SourceTile(source, views, mem);
    MirroredReads(source, target, views, mem);
    hide ExecOperations, Mirrored, SourceTile, SwappedTile, RunLanes, StoreLanes, AccessHolds, Lanes, TransposePair,
        DecomposeTransposeStore;
    SwappedReplays(transpose, store, source, target, existing, counter, env, mem, views);
    WholeTransposeRuns(transpose, store, source, target, env, mem, views);
    LiveTilesStore(view, mem[view.storage], tile, SwappedTile(m, view), Lanes(view));
  }

  /** The scalar code leaves the swapped tile, where it can be read. */
  lemma {:induction false} SwappedReplays(transpose: Operation, store: Operation, source: string, target: string,
          existing: set<string>, counter: nat, env: Env, mem: Memory, views: map<string, View>)
    requires TransposePair(transpose, store, source, target, env, mem, views) && env.Keys <= existing
    requires forall lane: Lane :: InView(views[target], lane) && Live(views[target], lane) ==>
        Readable(mem[views[source].storage], views[target], lane)
    ensures
      var view := views[target];
      var tile := SwappedTile(mem[views[source].storage], view);
      RunLanes(DecomposeTransposeStore(transpose, store, existing, counter).0, env, mem, views, view, Lanes(view)) ==
      Success(mem[view.storage := StoreLanes(view, mem[view.storage], tile, Lanes(view))])
  {
    hide InView;
    var (names, next) := FreshNames(existing, counter, 3);
    var scalar := Type(ScalarKind, [], transpose.results[0].typ.dtype);
    assert FreshThree(names, env);
    hide ExecOperations, TransposeLanes, FreshNames, SwappedTile, RunLanes, StoreLanes, AccessHolds, Lanes,
        FreshThree, TransposePair, Readable;
    ReplayAll(transpose, store, source, target, names, scalar, env, mem, views, views[target],
        SwappedTile(mem[views[source].storage], views[target]));
  }

  /** Mirrored arrangements can be read at every live lane, and hold the transposed tile there. */
  lemma {:induction false} MirroredReads(source: string, target: string, views: map<string, View>, mem: Memory)
    requires Reachable(Context(views, None), mem, source) && target in views && Mirrored(views[source], views[target])
    ensures
      var view, m, tile := views[target], mem[views[source].storage], SourceTile(source, views, mem);
      && tile.rows == view.row.rows && tile.cols == view.row.cols && Facing(views[source], view)
      && forall lane: Lane :: InView(view, lane) && Live(view, lane) ==>
           Readable(m, view, lane) && At(SwappedTile(m, view), lane.0, lane.1) == At(tile, lane.0, lane.1)
  {
    var view, m, tile := views[target], mem[views[source].storage], SourceTile(source, views, mem);
    forall lane: Lane | InView(view, lane) && Live(view, lane)
      ensures Readable(m, view, lane) && At(SwappedTile(m, view), lane.0, lane.1) == At(tile, lane.0, lane.1)
    {
      TileAt(source, target, views, mem, lane);
      hide SourceTile;
    }
  }

  /** Tiles that agree at the live lanes leave the same array. */
  lemma {:induction false} LiveTilesStore(view: View, m: Matrix, a: Matrix, b: Matrix, lanes: seq<Lane>)
    requires AccessHolds(view, m) && a.rows == b.rows == view.row.rows && a.cols == b.cols == view.row.cols
    requires forall lane :: lane in lanes ==> InView(view, lane)
    requires forall lane: Lane :: InView(view, lane) && Live(view, lane) ==>
        At(a, lane.0, lane.1) == At(b, lane.0, lane.1)
    ensures StoreLanes(view, m, a, lanes) == StoreLanes(view, m, b, lanes)
    decreases |lanes|
  {
    if lanes != [] {
      var lane := lanes[0];
      var next := if Live(view, lane) then Put(m, At(view.row, lane.0, lane.1), At(view.col, lane.0, lane.1),
          At(a, lane.0, lane.1)) else m;
      LiveTilesStore(view, next, a, b, lanes[1..]);
    }
  }

  lemma {:induction false} ReplayAll(transpose: Operation, store: Operation, source: string, target: string,
          names: seq<string>, scalar: Type, env: Env, mem: Memory, views: map<string, View>, view: View, tile: Matrix)
    requires Replaying(transpose, store, source, target, env, mem, views, view, tile) && FreshThree(names, env)
    ensures view.storage in mem && AccessHolds(view, mem[view.storage])
    ensures RunLanes(TransposeLanes(transpose.operands[0], store.operands[1], names, scalar, store), env, mem, views,
        view, Lanes(view))
         == Success(mem[view.storage := StoreLanes(view, mem[view.storage], tile, Lanes(view))])
  {
    var ops := TransposeLanes(transpose.operands[0], store.operands[1], names, scalar, store);
    hide ExecOperations, TransposeLanes, RunLanes, StoreLanes, AccessHolds, Lanes, FreshThree, Replaying;
    AllLanes(transpose, store, source, target, names, scalar, ops, env, mem, views, view, tile, Lanes(view));
  }
}
