/** The checked CPU interpreter (`interpreter/runtime.py`, `interpreter/memory.py`)
    over exact integers: rank-2 arrays, arranged views over them, and a big-step
    evaluator for blocks, loops and branches. */
module Interpreter {
  import opened Wrappers
  import opened Ssa

  // ----- arrays and arranged views -----

  datatype Grid<T> = Grid(rows: nat, cols: nat, cells: seq<seq<T>>) {
    predicate Shaped() {
      |cells| == rows && forall i :: 0 <= i < rows ==> |cells[i]| == cols
    }
  }

  type Matrix = m: Grid<int> | m.Shaped() witness Grid(0, 0, [])

  predicate Within(m: Matrix, i: int, j: int) {
    0 <= i < m.rows && 0 <= j < m.cols
  }

  function At(m: Matrix, i: int, j: int): int
    requires Within(m, i, j)
  {
    m.cells[i][j]
  }

  function Build(rows: nat, cols: nat, f: (int, int) --> int): (m: Matrix)
    requires forall i, j :: 0 <= i < rows && 0 <= j < cols ==> f.requires(i, j)
    ensures m.rows == rows && m.cols == cols
    ensures forall i, j :: 0 <= i < rows && 0 <= j < cols ==> At(m, i, j) == f(i, j)
  {
    Grid(rows, cols, seq(rows, i requires 0 <= i < rows => seq(cols, j requires 0 <= j < cols => f(i, j))))
  }

  function Put(m: Matrix, i: int, j: int, x: int): (r: Matrix)
    requires Within(m, i, j)
    ensures r.rows == m.rows && r.cols == m.cols && At(r, i, j) == x
    ensures forall k, l :: Within(m, k, l) && (k, l) != (i, j) ==> At(r, k, l) == At(m, k, l)
  {
    m.(cells := m.cells[i := m.cells[i][j := x]])
  }

  /** An arranged block: for each logical lane a source coordinate and whether the
      lane is live. `other` fills the lanes that are not. */
  datatype ViewRecord = ViewRecord(storage: string, row: Matrix, col: Matrix, valid: Matrix, other: int) {
    predicate Shaped() {
      row.rows == col.rows == valid.rows && row.cols == col.cols == valid.cols
    }
  }

  const NO_MATRIX: Matrix := Grid(0, 0, [])

  type View = v: ViewRecord | v.Shaped() witness ViewRecord("", NO_MATRIX, NO_MATRIX, NO_MATRIX, 0)

  type Lane = (nat, nat)

  predicate InView(v: View, lane: Lane) {
    lane.0 < v.row.rows && lane.1 < v.row.cols
  }

  predicate Live(v: View, lane: Lane)
    requires InView(v, lane)
  {
    At(v.valid, lane.0, lane.1) != 0
  }

  /** Every live lane addresses an element of its array. */
  predicate AccessHolds(v: View, m: Matrix) {
    forall i, j :: 0 <= i < v.row.rows && 0 <= j < v.row.cols && Live(v, (i, j)) ==>
        Within(m, At(v.row, i, j), At(v.col, i, j))
  }

  function Fetch(v: View, m: Matrix, lane: Lane): int
    requires InView(v, lane) && AccessHolds(v, m)
  {
    if Live(v, lane) then At(m, At(v.row, lane.0, lane.1), At(v.col, lane.0, lane.1)) else v.other
  }

  function ReadAll(v: View, m: Matrix): Matrix
    requires AccessHolds(v, m)
  {
    Build(v.row.rows, v.row.cols, (i: int, j: int) requires 0 <= i < v.row.rows && 0 <= j < v.row.cols =>
        Fetch(v, m, (i, j)))
  }

  /** The lanes of a tile in row-major order, from flat position `k`. */
  function LanesFrom(rows: nat, cols: nat, k: nat): (lanes: seq<Lane>)
    requires k <= rows * cols
    ensures forall lane :: lane in lanes ==> lane.0 < rows && lane.1 < cols
    decreases rows * cols - k
  {
    if k == rows * cols then []
    else
      LaneInTile(rows, cols, k);
      [(k / cols, k % cols)] + LanesFrom(rows, cols, k + 1)
  }

  lemma {:induction false} LaneInTile(rows: nat, cols: nat, k: nat)
    requires k < rows * cols
    ensures cols > 0 && k / cols < rows && k % cols < cols
  {
  }

  function Lanes(v: View): (lanes: seq<Lane>)
    ensures forall lane :: lane in lanes ==> InView(v, lane)
  {
    LanesFrom(v.row.rows, v.row.cols, 0)
  }

  /** Store `tile` through the live lanes of `lanes`, in order; a later lane wins. */
  function StoreLanes(v: View, m: Matrix, tile: Matrix, lanes: seq<Lane>): (r: Matrix)
    requires AccessHolds(v, m) && tile.rows == v.row.rows && tile.cols == v.row.cols
    requires forall lane :: lane in lanes ==> InView(v, lane)
    ensures r.rows == m.rows && r.cols == m.cols
    decreases |lanes|
  {
    if lanes == [] then m
    else
      var lane := lanes[0];
      var next := if Live(v, lane) then Put(m, At(v.row, lane.0, lane.1), At(v.col, lane.0, lane.1),
          At(tile, lane.0, lane.1)) else m;
      StoreLanes(v, next, tile, lanes[1..])
  }

  // ----- values -----

  datatype Val = Num(value: int) | Tile(tile: Matrix) | Ref(name: string)

  type Memory = map<string, Matrix>

  datatype Context = Context(views: map<string, View>, lane: Option<Lane>)

  /** `MissingName` is an operand or store index absent from the environment,
      `RegionArity` a region that yields the wrong number of values, and
      `RuntimeFault` every other error the interpreter raises. */
  datatype Fault = MissingName | RegionArity | RuntimeFault

  type Outcome<T> = Result<T, Fault>

  predicate Reachable(ctx: Context, mem: Memory, name: string) {
    && name in ctx.views
    && ctx.views[name].storage in mem
    && AccessHolds(ctx.views[name], mem[ctx.views[name].storage])
  }

  function Materialize(v: Val, ctx: Context, mem: Memory): (r: Outcome<Val>)
    ensures r.Success? ==> !r.value.Ref?
  {
    match v
    case Ref(name) =>
      if Reachable(ctx, mem, name) then Success(Tile(ReadAll(ctx.views[name], mem[ctx.views[name].storage])))
      else Failure(RuntimeFault)
    case _ => Success(v)
  }

  function ScalarOf(v: Val, ctx: Context, mem: Memory): Outcome<int> {
    var m :- Materialize(v, ctx, mem);
    if m.Num? then Success(m.value) else Failure(RuntimeFault)
  }

  // ----- arithmetic -----

  function FloorDivide(a: int, b: int): int {
    if b == 0 then 0 else if b > 0 then a / b else (-a) / (-b)
  }

  function FloorModulo(a: int, b: int): int {
    if b == 0 then 0 else a - b * FloorDivide(a, b)
  }

  function Truth(b: bool): int {
    if b then 1 else 0
  }

  function ApplyBinary(op: BinaryOp, a: int, b: int): int {
    match op
    case Add => a + b
    case Sub => a - b
    case Mul => a * b
    case FloorDiv => FloorDivide(a, b)
    case Mod => FloorModulo(a, b)
    case Maximum => if a >= b then a else b
    case Minimum => if a <= b then a else b
    case Eq => Truth(a == b)
    case Ne => Truth(a != b)
    case Lt => Truth(a < b)
    case Le => Truth(a <= b)
    case Gt => Truth(a > b)
    case Ge => Truth(a >= b)
  }

  function ApplyUnary(op: UnaryOp, a: int): int {
    match op
    case Neg => -a
    case Pos => a
    case Not => Truth(a == 0)
  }

  function JoinExtent(a: nat, b: nat): Option<nat> {
    if a == b then Some(a) else if a == 1 then Some(b) else if b == 1 then Some(a) else None
  }

  function Extents(v: Val): (nat, nat)
    requires !v.Ref?
  {
    match v
    case Num(_) => (1, 1)
    case Tile(t) => (t.rows, t.cols)
  }

  predicate Spreads(v: Val, rows: nat, cols: nat)
    requires !v.Ref?
  {
    v.Num? || (v.tile.rows in {1, rows} && v.tile.cols in {1, cols})
  }

  function Cell(v: Val, rows: nat, cols: nat, i: int, j: int): int
    requires !v.Ref? && Spreads(v, rows, cols) && 0 <= i < rows && 0 <= j < cols
  {
    match v
    case Num(n) => n
    case Tile(t) => At(t, if t.rows == 1 then 0 else i, if t.cols == 1 then 0 else j)
  }

  function Broadcast(v: Val, rows: nat, cols: nat): Option<Matrix>
    requires !v.Ref?
  {
    if Spreads(v, rows, cols) then
      Some(Build(rows, cols, (i: int, j: int) requires 0 <= i < rows && 0 <= j < cols => Cell(v, rows, cols, i, j)))
    else None
  }

  function Elementwise(op: BinaryOp, a: Val, b: Val): Outcome<Val>
    requires !a.Ref? && !b.Ref?
  {
    if a.Num? && b.Num? then Success(Num(ApplyBinary(op, a.value, b.value)))
    else
      var rows, cols := JoinExtent(Extents(a).0, Extents(b).0), JoinExtent(Extents(a).1, Extents(b).1);
      if rows.None? || cols.None? then Failure(RuntimeFault)
      else
        var x, y := Broadcast(a, rows.value, cols.value), Broadcast(b, rows.value, cols.value);
        if x.None? || y.None? then Failure(RuntimeFault)
        else
          Success(Tile(Build(rows.value, cols.value,
                             (i: int, j: int) requires 0 <= i < rows.value && 0 <= j < cols.value =>
                               ApplyBinary(op, At(x.value, i, j), At(y.value, i, j)))))
  }

  function MapUnary(op: UnaryOp, a: Val): Val
    requires !a.Ref?
  {
    match a
    case Num(n) => Num(ApplyUnary(op, n))
    case Tile(t) => Tile(Build(t.rows, t.cols, (i: int, j: int) requires 0 <= i < t.rows && 0 <= j < t.cols =>
        ApplyUnary(op, At(t, i, j))))
  }

  function Where(c: Val, a: Val, b: Val): Outcome<Val>
    requires !c.Ref? && !a.Ref? && !b.Ref?
  {
    if c.Num? && a.Num? && b.Num? then Success(if c.value != 0 then a else b)
    else
      var r1, c1 := JoinExtent(Extents(a).0, Extents(b).0), JoinExtent(Extents(a).1, Extents(b).1);
      if r1.None? || c1.None? then Failure(RuntimeFault)
      else
        var rows, cols := JoinExtent(Extents(c).0, r1.value), JoinExtent(Extents(c).1, c1.value);
        if rows.None? || cols.None? then Failure(RuntimeFault)
        else
          var z, x, y := Broadcast(c, rows.value, cols.value), Broadcast(a, rows.value, cols.value),
              Broadcast(b, rows.value, cols.value);
          if z.None? || x.None? || y.None? then Failure(RuntimeFault)
          else
            Success(Tile(Build(rows.value, cols.value,
                               (i: int, j: int) requires 0 <= i < rows.value && 0 <= j < cols.value =>
                                 if At(z.value, i, j) != 0 then At(x.value, i, j) else At(y.value, i, j))))
  }

  /** The partial sum over the first `k` terms of one element of a matrix product. */
  function DotPrefix(a: Matrix, b: Matrix, i: int, j: int, k: nat): int
    requires 0 <= i < a.rows && 0 <= j < b.cols && k <= a.cols && k <= b.rows
  {
    if k == 0 then 0 else DotPrefix(a, b, i, j, k - 1) + At(a, i, k - 1) * At(b, k - 1, j)
  }

  function Product(a: Matrix, b: Matrix): (r: Matrix)
    requires a.cols == b.rows
    ensures r.rows == a.rows && r.cols == b.cols
    ensures forall i, j :: Within(r, i, j) ==> At(r, i, j) == DotPrefix(a, b, i, j, a.cols)
  {
    Build(a.rows, b.cols, (i: int, j: int) requires 0 <= i < a.rows && 0 <= j < b.cols => DotPrefix(a, b, i, j, a.cols))
  }

  function Transposed(a: Matrix): Matrix {
    Build(a.cols, a.rows, (i: int, j: int) requires 0 <= i < a.cols && 0 <= j < a.rows => At(a, j, i))
  }

  /** A Python index into an axis of length `n`. */
  function Wrap(i: int, n: nat): Option<nat> {
    if 0 <= i < n then Some(i) else if 0 <= i + n < n then Some(i + n) else None
  }

  function ExtractAt(v: Val, i: int, j: int, fromSource: bool, ctx: Context, mem: Memory): Outcome<Val> {
    match v
    case Num(_) => Failure(RuntimeFault)
    case Tile(t) =>
      var r, c := Wrap(i, t.rows), Wrap(j, t.cols);
      if r.None? || c.None? then Failure(RuntimeFault) else Success(Num(At(t, r.value, c.value)))
    case Ref(name) =>
      if fromSource then
        if name in ctx.views && ctx.views[name].storage in mem && Within(mem[ctx.views[name].storage], i, j)
        then Success(Num(At(mem[ctx.views[name].storage], i, j)))
        else Failure(RuntimeFault)
      else if !Reachable(ctx, mem, name) then Failure(RuntimeFault)
      else
        var view := ctx.views[name];
        var r, c := Wrap(i, view.row.rows), Wrap(j, view.row.cols);
        if r.None? || c.None? then Failure(RuntimeFault)
        else Success(Num(Fetch(view, mem[view.storage], (r.value, c.value))))
  }

  function ExtentAt(v: Val, dim: int, ctx: Context): Outcome<Val> {
    var axis := Wrap(dim, 2);
    if axis.None? then Failure(RuntimeFault)
    else
      match v
      case Num(_) => Failure(RuntimeFault)
      case Tile(t) => Success(Num(if axis.value == 0 then t.rows else t.cols))
      case Ref(name) =>
        if name in ctx.views
        then Success(Num(if axis.value == 0 then ctx.views[name].row.rows else ctx.views[name].row.cols))
        else Failure(RuntimeFault)
  }

  function OffsetAt(op: Operation, v: Val, ctx: Context, mem: Memory): Outcome<Val>
    requires op.opcode.Offset?
  {
    var axis := Wrap(op.opcode.axis, 2);
    if axis.None? || !v.Ref? || v.name !in ctx.views then Failure(RuntimeFault)
    else if op.opcode.valueSpace then
      if ctx.lane.None? then Failure(RuntimeFault)
      else Success(Num(if axis.value == 0 then ctx.lane.value.0 else ctx.lane.value.1))
    else if !Reachable(ctx, mem, v.name) then Failure(RuntimeFault)
    else
      var view := ctx.views[v.name];
      var coordinates := if axis.value == 0 then view.row else view.col;
      if op.attrs.decomposition.NotDecomposed? then Success(Tile(coordinates))
      else if ctx.lane.None? || !InView(view, ctx.lane.value) then Failure(RuntimeFault)
      else Success(Num(At(coordinates, ctx.lane.value.0, ctx.lane.value.1)))
  }

  // ----- stores -----

  /** The view with the lanes rejected by `mask` switched off. */
  function Masked(v: View, mask: Matrix): (r: View)
    requires mask.rows == v.row.rows && mask.cols == v.row.cols
    ensures r.row == v.row && r.col == v.col && r.storage == v.storage
  {
    var valid := Build(v.row.rows, v.row.cols, (i: int, j: int) requires 0 <= i < v.row.rows && 0 <= j < v.row.cols =>
                         if At(mask, i, j) != 0 then At(v.valid, i, j) else 0);
    ViewRecord(v.storage, v.row, v.col, valid, v.other)
  }

  /** The mask with all lanes but one switched off. */
  function OnlyAt(mask: Matrix, lane: Lane): (r: Matrix)
    ensures r.rows == mask.rows && r.cols == mask.cols
  {
    Build(mask.rows, mask.cols, (i: int, j: int) requires 0 <= i < mask.rows && 0 <= j < mask.cols =>
        if (i, j) == (lane.0 as int, lane.1 as int) then At(mask, i, j) else 0)
  }

  /** `TensorRef.write`: the array coordinates are checked only where a lane is active. */
  function WriteThrough(view: View, value: Val, lanes: seq<Lane>, mem: Memory): (r: Outcome<Memory>)
    requires !value.Ref?
    requires forall lane :: lane in lanes ==> InView(view, lane)
  {
    if view.storage !in mem || !AccessHolds(view, mem[view.storage]) then Failure(RuntimeFault)
    else
      var tile := Broadcast(value, view.row.rows, view.row.cols);
      if tile.None? then Failure(RuntimeFault)
      else Success(mem[view.storage := StoreLanes(view, mem[view.storage], tile.value, lanes)])
  }

  function MaskOf(args: seq<Val>, rows: nat, cols: nat, ctx: Context, mem: Memory): Outcome<Matrix>
    requires |args| >= 2
  {
    var mask :- if |args| > 2 then Materialize(args[2], ctx, mem) else Success(Num(1));
    var grid := Broadcast(mask, rows, cols);
    if grid.None? then Failure(RuntimeFault) else Success(grid.value)
  }

  function StoreOperation(op: Operation, args: seq<Val>, indices: seq<Val>, ctx: Context, mem: Memory): Outcome<Memory>
    requires |args| >= 2
  {
    if !args[1].Ref? || args[1].name !in ctx.views then Failure(RuntimeFault)
    else
      var view := ctx.views[args[1].name];
      var value :- Materialize(args[0], ctx, mem);
      var mask :- MaskOf(args, view.row.rows, view.row.cols, ctx, mem);
      if indices == [] then
        if op.attrs.decomposition.NotDecomposed? || ctx.lane.None? then
          WriteThrough(Masked(view, mask), value, Lanes(view), mem)
        else if !InView(view, ctx.lane.value) then Failure(RuntimeFault)
        else WriteThrough(Masked(view, OnlyAt(mask, ctx.lane.value)), value, [ctx.lane.value], mem)
      else if |indices| != 2 then Failure(RuntimeFault)
      else
        var i :- ScalarOf(indices[0], ctx, mem);
        var j :- ScalarOf(indices[1], ctx, mem);
        StoreElement(view, value, mask, i, j, mem)
  }

  /** The current contents of the view, with one lane replaced. */
  function Edited(v: View, m: Matrix, lane: Lane, x: int): (tile: Matrix)
    requires AccessHolds(v, m) && InView(v, lane)
    ensures tile.rows == v.row.rows && tile.cols == v.row.cols
  {
    Put(ReadAll(v, m), lane.0, lane.1, x)
  }

  /** One element of the view is replaced and the whole tile written back. */
  function StoreElement(view: View, value: Val, mask: Matrix, i: int, j: int, mem: Memory): Outcome<Memory>
    requires !value.Ref? && mask.rows == view.row.rows && mask.cols == view.row.cols
  {
    var r, c := Wrap(i, view.row.rows), Wrap(j, view.row.cols);
    if r.None? || c.None? || view.storage !in mem || !AccessHolds(view, mem[view.storage]) || !value.Num? then
      Failure(RuntimeFault)
    else
      var current := Edited(view, mem[view.storage], (r.value, c.value), value.value);
      var masked := Masked(view, mask);
      WriteThrough(masked, Tile(current), Lanes(masked), mem)
  }

  // ----- operations without regions -----

  /** The single value of a region-free operation. */
  function Compute(op: Operation, args: seq<Val>, ctx: Context, mem: Memory): Outcome<Val> {
    match op.opcode
    case Constant(c) => Success(Num(c))
    case Binary(b) =>
      if |args| != 2 then Failure(RuntimeFault)
      else
        var x :- Materialize(args[0], ctx, mem);
        var y :- Materialize(args[1], ctx, mem);
        Elementwise(b, x, y)
    case Unary(u) =>
      if |args| != 1 then Failure(RuntimeFault)
      else
        var x :- Materialize(args[0], ctx, mem);
        Success(MapUnary(u, x))
    case Select =>
      if |args| != 3 then Failure(RuntimeFault)
      else
        var c :- Materialize(args[0], ctx, mem);
        var x :- Materialize(args[1], ctx, mem);
        var y :- Materialize(args[2], ctx, mem);
        Where(c, x, y)
    case Extract(source) =>
      if |args| != 3 then Failure(RuntimeFault)
      else
        var i :- ScalarOf(args[1], ctx, mem);
        var j :- ScalarOf(args[2], ctx, mem);
        ExtractAt(args[0], i, j, source, ctx, mem)
    case ShapeDim(dim) => if |args| == 0 then Failure(RuntimeFault) else ExtentAt(args[0], dim, ctx)
    case Offset(_, _) => if |args| == 0 then Failure(RuntimeFault) else OffsetAt(op, args[0], ctx, mem)
    case MatMul =>
      if |args| < 2 then Failure(RuntimeFault)
      else
        var x :- Materialize(args[0], ctx, mem);
        var y :- Materialize(args[1], ctx, mem);
        if x.Tile? && y.Tile? && x.tile.cols == y.tile.rows then Success(Tile(Product(x.tile, y.tile)))
            else Failure(RuntimeFault)
    case Transpose =>
      if |args| == 0 then Failure(RuntimeFault)
      else
        var x :- Materialize(args[0], ctx, mem);
        if x.Tile? then Success(Tile(Transposed(x.tile))) else Failure(RuntimeFault)
    case Load =>
      if |args| != 1 || !args[0].Ref? then Failure(RuntimeFault) else Materialize(args[0], ctx, mem)
    case _ => Failure(RuntimeFault)
  }

  // ----- blocks -----

  type Env = map<string, Val>

  function Lookup(names: seq<string>, env: Env): (r: Outcome<seq<Val>>)
    ensures r.Success? <==> forall name :: name in names ==> name in env
    ensures r.Success? ==> |r.value| == |names| && forall i :: 0 <= i < |names| ==> r.value[i] == env[names[i]]
    ensures r.Failure? ==> r.error == MissingName
  {
    if names == [] then Success([])
    else if names[0] !in env then Failure(MissingName)
    else
      var rest :- Lookup(names[1..], env);
      Success([env[names[0]]] + rest)
  }

  /** `zip(values, bindings)`: the shorter side decides how many are bound. */
  function BindValues(values: seq<Value>, vals: seq<Val>, env: Env): (r: Env)
    ensures r.Keys <= env.Keys + NameSet(values)
    ensures |vals| >= |values| ==> r.Keys == env.Keys + NameSet(values)
    ensures forall name :: name in env && name !in NameSet(values) ==> name in r && r[name] == env[name]
    decreases |values|
  {
    if values == [] || vals == [] then env
    else
      assert values == [values[0]] + values[1..];
      BindValues(values[1..], vals[1..], env[values[0].name := vals[0]])
  }

  function RangeLength(start: int, stop: int, step: int): nat
    requires step != 0
  {
    if step > 0 then if start < stop then (stop - start - 1) / step + 1 else 0
    else if stop < start then (start - stop - 1) / (-step) + 1 else 0
  }

  datatype Finish = Finish(yielded: seq<Val>, env: Env, mem: Memory)

  /** How a region's yielded values become an operation's results. */
  function RegionResults(op: Operation, yielded: seq<Val>): Outcome<seq<Val>> {
    if op.results == [] then Success([])
    else if |op.results| == 1 then if yielded == [] then Failure(RegionArity) else Success([yielded[0]])
    else if |yielded| == |op.results| then Success(yielded)
    else Failure(RegionArity)
  }

  function ExecOperation(op: Operation, env: Env, mem: Memory, ctx: Context): Outcome<(seq<Val>, Memory)>
    decreases op, 0
  {
    var args :- Lookup(op.operands, env);
    match op.opcode
    case For =>
      if |args| < 3 || |op.regions| == 0 then Failure(RuntimeFault)
      else
        var start :- ScalarOf(args[0], ctx, mem);
        var stop :- ScalarOf(args[1], ctx, mem);
        var step :- ScalarOf(args[2], ctx, mem);
        if step == 0 then Failure(RuntimeFault)
        else
          var looped :- ExecLoop(op.regions[0], env, mem, ctx, args[3..], start, step, RangeLength(start, stop, step));
          var values :- RegionResults(op, looped.0);
          Success((values, looped.1))
    case If =>
      if |args| == 0 then Failure(RuntimeFault)
      else
        var condition :- ScalarOf(args[0], ctx, mem);
        var index := if condition != 0 then 0 else 1;
        if index < |op.regions| then
          var done :- ExecOperations(op.regions[index].operations, env, mem, ctx);
          var values :- RegionResults(op, done.yielded);
          Success((values, done.mem))
        else
          var values :- RegionResults(op, []);
          Success((values, mem))
    case Store =>
      if |args| < 2 || op.results != [] then Failure(RuntimeFault)
      else
        var indices :- Lookup(op.attrs.indices, env);
        var after :- StoreOperation(op, args, indices, ctx, mem);
        Success(([], after))
    case _ =>
      var value :- Compute(op, args, ctx, mem);
      if |op.results| == 0 then Success(([], mem))
      else if |op.results| == 1 then Success(([value], mem))
      else Failure(RuntimeFault)
  }

  /** The remaining `count` iterations, the next of which has induction value `i`. */
  function ExecLoop(region: Block, env: Env, mem: Memory, ctx: Context, carried: seq<Val>, i: int, step: int,
          count: nat): Outcome<(seq<Val>, Memory)>
    decreases region, count
  {
    if count == 0 then Success((carried, mem))
    else
      var local := BindValues(region.args, [Num(i)] + carried, env);
      var done :- ExecOperations(region.operations, local, mem, ctx);
      ExecLoop(region, env, done.mem, ctx, done.yielded, i + step, step, count - 1)
  }

  function ExecOperations(ops: seq<Operation>, env: Env, mem: Memory, ctx: Context): Outcome<Finish>
    decreases ops, 0
  {
    if ops == [] then Success(Finish([], env, mem))
    else if ops[0].opcode.Yield? then
      var values :- Lookup(ops[0].operands, env);
      Success(Finish(values, env, mem))
    else
      var done :- ExecOperation(ops[0], env, mem, ctx);
      ExecOperations(ops[1..], BindValues(ops[0].results, done.0, env), done.1, ctx)
  }
}
