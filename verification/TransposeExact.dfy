/** Exactly when the scalar code of a transpose does what the whole-tile pair does: it reads the
    source array itself, at the output's coordinates swapped, and not through the source's
    arrangement. */
module TransposeExact {
  import opened Wrappers
  import opened Ssa
  import opened Interpreter
  import opened Linalg
  import opened LaneReplay
  import opened Decomposition
  import opened TransposeReplay
  import opened MaskedReplay
  import opened MatMulDomain

  lemma {:induction false} FailedLane(ops: seq<Operation>, env: Env, mem: Memory, views: map<string, View>, v: View,
          lanes: seq<Lane>)
    requires lanes != [] && (forall lane :: lane in lanes ==> InView(v, lane)) && Live(v, lanes[0])
    requires ExecOperations(ops, env, mem, Context(views, Some(lanes[0]))).Failure?
    ensures RunLanes(ops, env, mem, views, v, lanes).Failure?
  {
    hide ExecOperations;
  }

  /** One live lane that cannot be read makes the whole replay fail. */
  lemma {:induction false} UnreadableFails(transpose: Operation, store: Operation, source: string, target: string,
          names: seq<string>, scalar: Type, env: Env, mem: Memory, views: map<string, View>, lanes: seq<Lane>,
          bad: Lane)
    requires TransposePair(transpose, store, source, target, env, mem, views) && FreshThree(names, env)
    requires (forall lane :: lane in lanes ==> InView(views[target], lane)) && bad in lanes
    requires Live(views[target], bad) && !Readable(mem[views[source].storage], views[target], bad)
    ensures RunLanes(TransposeLanes(transpose.operands[0], store.operands[1], names, scalar, store), env, mem, views,
        views[target], lanes).Failure?
    decreases |lanes|
  {
    var ops := TransposeLanes(transpose.operands[0], store.operands[1], names, scalar, store);
    var view, lane := views[target], lanes[0];
    LanesStep(ops, env, mem, views, view, lanes);
    hide ExecOperations, TransposeLanes, RunLanes, StoreLanes, SwappedTile, FreshThree, AccessHolds, Facing;
    if !Live(view, lane) {
      UnreadableFails(transpose, store, source, target, names, scalar, env, mem, views, lanes[1..], bad);
    } else if Readable(mem[views[source].storage], view, lane) {
      LaneStores(transpose, store, source, target, names, scalar, env, mem, views, lane);
      var m := StoreLanes(view, mem[view.storage], SwappedTile(mem[views[source].storage], view), [lane]);
      StillStored(transpose, store, source, target, env, mem, views, m);
      UnreadableFails(transpose, store, source, target, names, scalar, env, mem[view.storage := m], views, lanes[1..],
          bad);
    } else {
      LaneFails(transpose, store, source, target, names, scalar, env, mem, views, lane);
      FailedLane(ops, env, mem, views, view, lanes);
    }
  }

  /** Two tiles leave the same array exactly if they agree at the live lanes. */
  lemma {:induction false} LiveTilesMatter(v: View, m: Matrix, a: Matrix, b: Matrix)
    requires AccessHolds(v, m) && a.rows == b.rows == v.row.rows && a.cols == b.cols == v.row.cols && LanesApart(v)
    ensures StoreLanes(v, m, a, Lanes(v)) == StoreLanes(v, m, b, Lanes(v)) <==>
        forall lane: Lane :: InView(v, lane) && Live(v, lane) ==> At(a, lane.0, lane.1) == At(b, lane.0, lane.1)
  {
    hide StoreLanes, Lanes, AccessHolds, LanesApart;
    var x, y := StoreLanes(v, m, a, Lanes(v)), StoreLanes(v, m, b, Lanes(v));
    if x == y {
      forall lane: Lane | InView(v, lane) && Live(v, lane)
        ensures At(a, lane.0, lane.1) == At(b, lane.0, lane.1)
      {
        LaneListed(v.row.rows, v.row.cols, 0, lane);
        LaneStored(v, m, a, lane);
        LaneStored(v, m, b, lane);
      }
    } else if forall lane: Lane :: InView(v, lane) && Live(v, lane) ==>
        At(a, lane.0, lane.1) == At(b, lane.0, lane.1) {
      LiveTilesStore(v, m, a, b, Lanes(v));
      assert false;
    }
  }

  lemma {:induction false} LaneStored(v: View, m: Matrix, tile: Matrix, lane: Lane)
    requires AccessHolds(v, m) && tile.rows == v.row.rows && tile.cols == v.row.cols && LanesApart(v)
    requires InView(v, lane) && Live(v, lane)
    ensures var (i, j) := CoordinateOf(v, lane);
            Within(m, i, j) && At(StoreLanes(v, m, tile, Lanes(v)), i, j) == At(tile, lane.0, lane.1)
  {
    LaneListed(v.row.rows, v.row.cols, 0, lane);
    Stored(v, m, tile, Lanes(v), lane);
  }

  /** The scalar code of a transpose, replayed over the live lanes of an output whose lanes address
      elements of their own, leaves what the whole-tile pair leaves exactly if at every live lane
      the source array can be read at the swapped coordinates and holds the transposed tile there. */
  lemma {:induction false} TransposeKeptExactly(transpose: Operation, store: Operation, source: string, target: string,
          existing: set<string>, counter: nat, env: Env, mem: Memory, views: map<string, View>)
    requires TransposePair(transpose, store, source, target, env, mem, views) && env.Keys <= existing
    requires LanesApart(views[target])
    ensures
      var view, m, tile := views[target], mem[views[source].storage], SourceTile(source, views, mem);
      var whole := ExecOperations([transpose, store], env, mem, Context(views, None));
      var code := DecomposeTransposeStore(transpose, store, existing, counter).0;
      && whole.Success? && tile.rows == view.row.rows && tile.cols == view.row.cols
      && (RunLanes(code, env, mem, views, view, Lanes(view)) == Success(whole.value.mem) <==>
            forall lane: Lane :: InView(view, lane) && Live(view, lane) ==>
              Readable(m, view, lane) && At(SwappedTile(m, view), lane.0, lane.1) == At(tile, lane.0, lane.1))
  {
    hide InView, At, Within;
    var view, m, tile := views[target], mem[views[source].storage], SourceTile(source, views, mem);
    hide ExecOperations, SourceTile, SwappedTile, RunLanes, StoreLanes, AccessHolds, Lanes, DecomposeTransposeStore,
        LanesApart, Facing, Readable;
    WholeTransposeRuns(transpose, store, source, target, env, mem, views);
    if bad: Lane :| InView(view, bad) && Live(view, bad) && !Readable(m, view, bad) {
      SomeLaneFails(transpose, store, source, target, existing, counter, env, mem, views, bad);
    } else {
      SwappedReplays(transpose, store, source, target, existing, counter, env, mem, views);
      LiveTilesMatter(view, mem[view.storage], SwappedTile(m, view), tile);
      SameStorage(mem, view.storage, StoreLanes(view, mem[view.storage], SwappedTile(m, view), Lanes(view)),
          StoreLanes(view, mem[view.storage], tile, Lanes(view)));
    }
  }

  lemma {:induction false} SomeLaneFails(transpose: Operation, store: Operation, source: string, target: string,
          existing: set<string>, counter: nat, env: Env, mem: Memory, views: map<string, View>, bad: Lane)
    requires TransposePair(transpose, store, source, target, env, mem, views) && env.Keys <= existing
    requires InView(views[target], bad) && Live(views[target], bad)
    requires !Readable(mem[views[source].storage], views[target], bad)
    ensures RunLanes(DecomposeTransposeStore(transpose, store, existing, counter).0, env, mem, views, views[target],
        Lanes(views[target])).Failure?
  {
    var view := views[target];
    var (names, next) := FreshNames(existing, counter, 3);
    var scalar := Type(ScalarKind, [], transpose.results[0].typ.dtype);
    assert FreshThree(names, env);
    LaneListed(view.row.rows, view.row.cols, 0, bad);
    hide ExecOperations, TransposeLanes, FreshNames, RunLanes, FreshThree, TransposePair, Readable, Lanes;
    UnreadableFails(transpose, store, source, target, names, scalar, env, mem, views, Lanes(view), bad);
  }
}
