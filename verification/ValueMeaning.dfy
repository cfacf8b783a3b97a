/** What the interpreter's operations on values compute, said of their elements: arithmetic as Python
    and NumPy define it, broadcasting, selection, indexing and stores. */
module ValueMeaning {
  import opened Wrappers
  import opened Arithmetic
  import opened Ssa
  import opened Interpreter

  // ----- numbers -----

  /** Quotient and remainder are the floor ones: the remainder has the sign of the divisor. */
  lemma {:induction false} FloorExact(a: int, b: int)
    ensures b != 0 ==> a == FloorDivide(a, b) * b + FloorModulo(a, b)
    ensures b > 0 ==> 0 <= FloorModulo(a, b) < b
    ensures b < 0 ==> b < FloorModulo(a, b) <= 0
    ensures b == 0 ==> FloorDivide(a, b) == 0 && FloorModulo(a, b) == 0
  {
    if b > 0 {
      FloorOf(a, b);
      assert (a / b + 1) * b == a / b * b + b;
    } else if b < 0 {
      FloorOf(-a, -b);
      assert ((-a) / (-b) + 1) * -b == (-a) / (-b) * -b + -b;
      assert (-a) / (-b) * -b == -((-a) / (-b) * b);
    }
  }

  /** A truth value is 1 for true and 0 for false. */
  predicate Says(r: int, holds: bool) {
    r == if holds then 1 else 0
  }

  lemma {:induction false} BinaryExact(op: BinaryOp, a: int, b: int)
    ensures
      var r := ApplyBinary(op, a, b);
      match op
      case Add => r - b == a
      case Sub => r + b == a
      case Mul => r == b * a
      case FloorDiv => if b == 0 then r == 0 else if b > 0 then r * b <= a < r * b + b else r * b + b < a <= r * b
      case Mod =>
        if b == 0 then r == 0
        else (if b > 0 then 0 <= r < b else b < r <= 0) && exists q :: a == q * b + r
      case Maximum => r >= a && r >= b && (r == a || r == b)
      case Minimum => r <= a && r <= b && (r == a || r == b)
      case Eq => Says(r, a - b == 0)
      case Ne => Says(r, a < b || b < a)
      case Lt => Says(r, b - a > 0)
      case Le => Says(r, b - a >= 0)
      case Gt => Says(r, a - b > 0)
      case Ge => Says(r, a - b >= 0)
  {
    hide FloorDivide, FloorModulo;
    FloorExact(a, b);
    if op.Mod? && b != 0 {
      assert a == FloorDivide(a, b) * b + ApplyBinary(op, a, b);
    }
  }

  lemma {:induction false} UnaryExact(op: UnaryOp, a: int)
    ensures
      var r := ApplyUnary(op, a);
      match op
      case Neg => r + a == 0
      case Pos => r - a == 0
      case Not => Says(r, a == 0)
  {
  }

  // ----- broadcasting -----

  /** Two extents go together if they are equal or one of them is 1, and give the other. */
  predicate Joined(a: nat, b: nat, n: nat) {
    (a == b && n == a) || (a == 1 && n == b) || (b == 1 && n == a)
  }

  function Height(v: Val): nat
    requires !v.Ref?
  {
    match v
    case Num(_) => 1
    case Tile(t) => t.rows
  }

  function Width(v: Val): nat
    requires !v.Ref?
  {
    match v
    case Num(_) => 1
    case Tile(t) => t.cols
  }

  /** What a value contributes at a position of a larger tile: a number, or an extent of 1, repeats. */
  ghost predicate Contributes(v: Val, i: int, j: int, x: int)
    requires !v.Ref?
  {
    match v
    case Num(n) => x == n
    case Tile(t) =>
      var r, c := if t.rows == 1 then 0 else i, if t.cols == 1 then 0 else j;
      Within(t, r, c) && x == At(t, r, c)
  }

  lemma {:induction false} SpreadExact(v: Val, rows: nat, cols: nat)
    requires !v.Ref?
    ensures Broadcast(v, rows, cols).Some? <==>
        v.Num? || ((Height(v) == 1 || Height(v) == rows) && (Width(v) == 1 || Width(v) == cols))
    ensures Broadcast(v, rows, cols).Some? ==>
        var t := Broadcast(v, rows, cols).value;
        t.rows == rows && t.cols == cols
        && forall i, j :: 0 <= i < rows && 0 <= j < cols ==> Contributes(v, i, j, At(t, i, j))
  {
  }

  /** The element is what the operator makes of what both operands contribute, left operand first. */
  ghost predicate Made(op: BinaryOp, a: Val, b: Val, i: int, j: int, r: int)
    requires !a.Ref? && !b.Ref?
  {
    exists x, y :: Contributes(a, i, j, x) && Contributes(b, i, j, y) && r == ApplyBinary(op, x, y)
  }

  /** An elementwise operation joins the extents and applies its operator at every position; two
      numbers give a number. */
  lemma {:induction false} ElementwiseExact(op: BinaryOp, a: Val, b: Val)
    requires !a.Ref? && !b.Ref?
    ensures
      var r := Elementwise(op, a, b);
      if a.Num? && b.Num? then r == Success(Num(ApplyBinary(op, a.value, b.value)))
      else
        && (r.Success? <==>
              (exists n :: Joined(Height(a), Height(b), n)) && (exists n :: Joined(Width(a), Width(b), n)))
        && (r.Success? ==>
              && r.value.Tile? && Joined(Height(a), Height(b), r.value.tile.rows)
              && Joined(Width(a), Width(b), r.value.tile.cols)
              && forall i, j :: Within(r.value.tile, i, j) ==> Made(op, a, b, i, j, At(r.value.tile, i, j)))
  {
    hide ApplyBinary, Broadcast, Made, Build;
    if !(a.Num? && b.Num?) {
      JoinExact(Height(a), Height(b));
      JoinExact(Width(a), Width(b));
      var rows, cols := JoinExtent(Height(a), Height(b)), JoinExtent(Width(a), Width(b));
      if rows.Some? && cols.Some? {
        TileMade(op, a, b, rows.value, cols.value);
      }
    }
  }

  lemma {:induction false} TileMade(op: BinaryOp, a: Val, b: Val, rows: nat, cols: nat)
    requires !a.Ref? && !b.Ref? && !(a.Num? && b.Num?)
    requires JoinExtent(Height(a), Height(b)) == Some(rows) && JoinExtent(Width(a), Width(b)) == Some(cols)
    ensures
      var r := Elementwise(op, a, b);
      && r.Success? && r.value.Tile? && r.value.tile.rows == rows && r.value.tile.cols == cols
      && forall i, j :: Within(r.value.tile, i, j) ==> Made(op, a, b, i, j, At(r.value.tile, i, j))
  {
    hide ApplyBinary, Broadcast, Contributes, Build, JoinExtent, Made;
    SpreadExact(a, rows, cols);
    SpreadExact(b, rows, cols);
    JoinedSpreads(a, b, rows, cols);
    var x, y := Broadcast(a, rows, cols).value, Broadcast(b, rows, cols).value;
    var r := Elementwise(op, a, b);
    forall i, j | 0 <= i < rows && 0 <= j < cols
      ensures Made(op, a, b, i, j, ApplyBinary(op, At(x, i, j), At(y, i, j)))
    {
      MadeOf(op, a, b, i, j, At(x, i, j), At(y, i, j));
    }
  }

  lemma {:induction false} JoinedSpreads(a: Val, b: Val, rows: nat, cols: nat)
    requires !a.Ref? && !b.Ref?
    requires JoinExtent(Height(a), Height(b)) == Some(rows) && JoinExtent(Width(a), Width(b)) == Some(cols)
    ensures forall v | v == a || v == b :: (Height(v) == 1 || Height(v) == rows) && (Width(v) == 1 || Width(v) == cols)
  {
  }

  lemma {:induction false} MadeOf(op: BinaryOp, a: Val, b: Val, i: int, j: int, x: int, y: int)
    requires !a.Ref? && !b.Ref? && Contributes(a, i, j, x) && Contributes(b, i, j, y)
    ensures Made(op, a, b, i, j, ApplyBinary(op, x, y))
  {
    hide ApplyBinary;
  }

  lemma {:induction false} JoinExact(a: nat, b: nat)
    ensures JoinExtent(a, b).Some? <==> exists n :: Joined(a, b, n)
    ensures forall n: nat :: Joined(a, b, n) <==> JoinExtent(a, b) == Some(n)
  {
    if JoinExtent(a, b).Some? {
      assert Joined(a, b, JoinExtent(a, b).value);
    }
  }

  lemma {:induction false} MapExact(op: UnaryOp, a: Val)
    requires !a.Ref?
    ensures
      match (a, MapUnary(op, a))
      case (Num(n), Num(r)) => r == ApplyUnary(op, n)
      case (Tile(t), Tile(r)) =>
        r.rows == t.rows && r.cols == t.cols
        && forall i, j :: Within(t, i, j) ==> At(r, i, j) == ApplyUnary(op, At(t, i, j))
      case _ => false
  {
  }

  /** The element is the first value's where the condition contributes no zero, else the second's. */
  ghost predicate Chosen(c: Val, a: Val, b: Val, i: int, j: int, r: int)
    requires !c.Ref? && !a.Ref? && !b.Ref?
  {
    exists z, x, y :: Contributes(c, i, j, z) && Contributes(a, i, j, x) && Contributes(b, i, j, y)
        && r == if z == 0 then y else x
  }

  /** A selection joins the extents of all three and chooses at every position. */
  lemma {:induction false} WhereExact(c: Val, a: Val, b: Val)
    requires !c.Ref? && !a.Ref? && !b.Ref?
    ensures
      var r := Where(c, a, b);
      if c.Num? && a.Num? && b.Num? then r == Success(if c.value == 0 then b else a)
      else
        && (r.Success? <==>
              (exists n, m :: Joined(Height(a), Height(b), n) && Joined(Height(c), n, m))
              && (exists n, m :: Joined(Width(a), Width(b), n) && Joined(Width(c), n, m)))
        && (r.Success? ==>
              r.value.Tile?
              && forall i, j :: Within(r.value.tile, i, j) ==> Chosen(c, a, b, i, j, At(r.value.tile, i, j)))
  {
    hide Broadcast, Chosen, Build;
    if !(c.Num? && a.Num? && b.Num?) {
      JoinExact(Height(a), Height(b));
      JoinExact(Width(a), Width(b));
      var r1, c1 := JoinExtent(Height(a), Height(b)), JoinExtent(Width(a), Width(b));
      if r1.Some? && c1.Some? {
        JoinExact(Height(c), r1.value);
        JoinExact(Width(c), c1.value);
        var rows, cols := JoinExtent(Height(c), r1.value), JoinExtent(Width(c), c1.value);
        if rows.Some? && cols.Some? {
          assert Joined(Height(a), Height(b), r1.value) && Joined(Height(c), r1.value, rows.value);
          assert Joined(Width(a), Width(b), c1.value) && Joined(Width(c), c1.value, cols.value);
          TileChosen(c, a, b, rows.value, cols.value);
        }
      }
    }
  }

  lemma {:induction false} TileChosen(c: Val, a: Val, b: Val, rows: nat, cols: nat)
    requires !c.Ref? && !a.Ref? && !b.Ref? && !(c.Num? && a.Num? && b.Num?)
    requires
      var r1, c1 := JoinExtent(Height(a), Height(b)), JoinExtent(Width(a), Width(b));
      && r1.Some? && c1.Some?
      && JoinExtent(Height(c), r1.value) == Some(rows) && JoinExtent(Width(c), c1.value) == Some(cols)
    ensures
      var r := Where(c, a, b);
      && r.Success? && r.value.Tile?
      && forall i, j :: Within(r.value.tile, i, j) ==> Chosen(c, a, b, i, j, At(r.value.tile, i, j))
  {
    hide Broadcast, Contributes, Build, Chosen;
    SpreadExact(c, rows, cols);
    SpreadExact(a, rows, cols);
    SpreadExact(b, rows, cols);
    hide JoinExtent;
    AllSpread(c, a, b, rows, cols);
    var z, x, y := Broadcast(c, rows, cols).value, Broadcast(a, rows, cols).value, Broadcast(b, rows, cols).value;
    var r := Where(c, a, b);
    forall i, j | 0 <= i < rows && 0 <= j < cols
      ensures Chosen(c, a, b, i, j, if At(z, i, j) != 0 then At(x, i, j) else At(y, i, j))
    {
      ChosenOf(c, a, b, i, j, At(z, i, j), At(x, i, j), At(y, i, j));
    }
  }

  lemma {:induction false} AllSpread(c: Val, a: Val, b: Val, rows: nat, cols: nat)
    requires !c.Ref? && !a.Ref? && !b.Ref?
    requires
      var r1, c1 := JoinExtent(Height(a), Height(b)), JoinExtent(Width(a), Width(b));
      && r1.Some? && c1.Some?
      && JoinExtent(Height(c), r1.value) == Some(rows) && JoinExtent(Width(c), c1.value) == Some(cols)
    ensures forall v | v == a || v == b || v == c ::
        (Height(v) == 1 || Height(v) == rows) && (Width(v) == 1 || Width(v) == cols)
  {
  }

  lemma {:induction false} ChosenOf(c: Val, a: Val, b: Val, i: int, j: int, z: int, x: int, y: int)
    requires !c.Ref? && !a.Ref? && !b.Ref?
    requires Contributes(c, i, j, z) && Contributes(a, i, j, x) && Contributes(b, i, j, y)
    ensures Chosen(c, a, b, i, j, if z != 0 then x else y)
  {
  }

  lemma {:induction false} TransposedExact(a: Matrix, i: int, j: int)
    ensures Transposed(a).rows == a.cols && Transposed(a).cols == a.rows
    ensures Within(Transposed(a), i, j) <==> Within(a, j, i)
    ensures Within(a, j, i) ==> At(Transposed(a), i, j) == At(a, j, i)
  {
  }
}
