/** What the operators of layout expressions compute: bits one by one, 64-bit wrapping by congruence,
    quotients by their remainders. */
module ExpressionMeaning {
  import opened Wrappers
  import opened Arithmetic
  import opened Expressions
  import opened Bounds
  import opened BoundsTight

  // ----- 64 bits -----

  predicate Congruent(a: int, b: int) {
    (a - b) % 0x1_0000_0000_0000_0000 == 0
  }

  /** Wrapping keeps a number's residue and brings it into the 64-bit integers; nothing else does. */
  lemma {:induction false} WrapExact(n: int)
    ensures InMachine(Wrap(n)) && Congruent(Wrap(n), n)
    ensures forall w :: InMachine(w) && Congruent(w, n) ==> w == Wrap(n)
  {
  }

  // ----- bits -----

  /** Bit `k` of an integer in two's complement of unbounded width. */
  predicate BitAt(x: int, k: nat) {
    x / Power2(k) % 2 == 1
  }

  lemma {:induction false} NextBit(x: int, k: nat)
    requires k > 0
    ensures BitAt(x, k) <==> BitAt(x / 2, k - 1)
  {
    var p := Power2(k - 1);
    FloorOf(x, 2);
    FloorOf(x / 2, p);
    FloorQuotient(x, 2 * p, x / 2 / p) by {
      var q := x / 2 / p;
      assert q * p <= x / 2 && x / 2 + 1 <= (q + 1) * p;
      assert q * (2 * p) == 2 * (q * p) && (q + 1) * (2 * p) == 2 * ((q + 1) * p);
    }
  }

  lemma {:induction false} SignBits(x: int, k: nat)
    requires x == 0 || x == -1
    ensures BitAt(x, k) <==> x == -1
  {
    assert x / Power2(k) == x by {
      FloorQuotient(x, Power2(k), x);
    }
  }

  lemma {:induction false} LowBit(x: int)
    ensures BitAt(x, 0) <==> x % 2 == 1
  {
  }

  /** Bit `k` of a result depends on the same bit of the operands, as the operator says. */
  lemma {:induction false} BitsExact(f: Bit, x: int, y: int, k: nat)
    ensures f == BitAnd ==> (BitAt(BitOp(f, x, y), k) <==> BitAt(x, k) && BitAt(y, k))
    ensures f == BitOr ==> (BitAt(BitOp(f, x, y), k) <==> BitAt(x, k) || BitAt(y, k))
    ensures f == BitXor ==> (BitAt(BitOp(f, x, y), k) <==> BitAt(x, k) != BitAt(y, k))
    decreases k
  {
    hide BitAt;
    var r := BitOp(f, x, y);
    if Magnitude(x) == 0 && Magnitude(y) == 0 {
      SignBits(x, k);
      SignBits(y, k);
      SignBits(r, k);
    } else {
      Halve(x);
      Halve(y);
      var high := BitOp(f, x / 2, y / 2);
      assert r / 2 == high && (r % 2 == 1 <==> OnBits(f, x % 2 == 1, y % 2 == 1));
      if k == 0 {
        LowBit(x);
        LowBit(y);
        LowBit(r);
      } else {
        NextBit(x, k);
        NextBit(y, k);
        NextBit(r, k);
        BitsExact(f, x / 2, y / 2, k - 1);
      }
    }
  }

  // ----- operators -----

  /** Floor division: the remainder has the sign of the divisor, and by zero both are zero. */
  lemma {:induction false} DivisionExact(x: int, y: int)
    ensures Expressions.Arithmetic(FloorDivide, x, y).Some? && Expressions.Arithmetic(Remainder, x, y).Some?
    ensures
      var q, r := Expressions.Arithmetic(FloorDivide, x, y).value, Expressions.Arithmetic(Remainder, x, y).value;
      && (y != 0 ==> x == q * y + r)
      && (y > 0 ==> 0 <= r < y) && (y < 0 ==> y < r <= 0) && (y == 0 ==> q == 0 && r == 0)
  {
    if y > 0 {
      FloorOf(x, y);
      assert (x / y + 1) * y == x / y * y + y;
    } else if y < 0 {
      FloorOf(-x, -y);
      assert ((-x) / (-y) + 1) * -y == (-x) / (-y) * -y + -y;
      assert (-x) / (-y) * -y == -((-x) / (-y) * y);
    }
  }

  /** A truth value, however it is written. */
  predicate Holding(v: Value) {
    v != B(false) && v != I(0)
  }

  predicate Answers(r: Option<Value>, holds: bool) {
    r == Some(B(holds))
  }

  predicate Stores(r: Option<Value>, integers: bool, norm: Norm, n: int) {
    r == if integers then Some(I(norm(n))) else None
  }

  /** Comparisons and logic give truth values, with a truth value counted as one or zero; arithmetic
      is for integers only, and its results are stored as the representation stores them. */
  lemma {:induction false} BinaryExact(f: BinaryFn, x: Value, y: Value, norm: Norm)
    ensures
      var r, a, b := Apply2(f, x, y, norm), AsInt(x), AsInt(y);
      match f
      case Eq => Answers(r, a == b)
      case Ne => Answers(r, !(a == b))
      case Lt => Answers(r, a < b)
      case Le => Answers(r, !(b < a))
      case Gt => Answers(r, b < a)
      case Ge => Answers(r, !(a < b))
      case And => Answers(r, Holding(x) && Holding(y))
      case Or => Answers(r, Holding(x) || Holding(y))
      case Bits(bit) =>
        (if x.B? && y.B? then r.Some? && r.value == B(BitAt(BitOp(bit, a, b), 0))
         else r == Some(I(norm(BitOp(bit, a, b)))))
      case TrueDivide | Power => r.None?
      case Add => Stores(r, x.I? && y.I?, norm, b + a)
      case Sub => Stores(r, x.I? && y.I?, norm, -b + a)
      case Mul => Stores(r, x.I? && y.I?, norm, b * a)
      case FloorDivide | Remainder =>
        Expressions.Arithmetic(f, a, b).Some? && Stores(r, x.I? && y.I?, norm, Expressions.Arithmetic(f, a, b).value)
    ensures forall v: Value :: AsInt(v) == (match v case I(n) => n case B(b) => if !b then 0 else 1)
  {
    match f
    case Bits(bit) =>
      BitsExact(bit, AsInt(x), AsInt(y), 0);
      LowBit(AsInt(x));
      LowBit(AsInt(y));
    case Mul => Commute(AsInt(x), AsInt(y));
    case FloorDivide | Remainder => DivisionExact(AsInt(x), AsInt(y));
    case _ =>
  }

  lemma {:induction false} UnaryExact(g: UnaryFn, x: Value, norm: Norm)
    ensures
      var r := Apply1(g, x, norm);
      match g
      case Not => Answers(r, !Holding(x))
      case Invert => if x.B? then Answers(r, !x.b) else Stores(r, true, norm, -1 - x.n)
      case Pos => r == if x.I? then Some(x) else None
      case Neg => if x.I? then Stores(r, true, norm, 0 - x.n) else r.None?
  {
  }

  // ----- calls -----

  const LEAST := {"Min", "min", "minimum"}
  const MOST := {"Max", "max", "maximum"}
  const SAME := {"int", "ceil", "floor", "ceiling"}

  predicate Returns(r: Option<Value>, n: int) {
    r == Some(I(n))
  }

  predicate Smaller(n: int, x: int, y: int) {
    (n == x || n == y) && n <= x && n <= y
  }

  predicate Larger(n: int, x: int, y: int) {
    (n == x || n == y) && n >= x && n >= y
  }

  predicate Distance(n: int, x: int) {
    n >= 0 && (n == x || n == -x)
  }

  /** The least multiple of `y` from `x` on, in units of `y`. */
  predicate CeilingOf(q: int, x: int, y: int) {
    if y > 0 then (q - 1) * y < x <= q * y else q * y <= x < (q - 1) * y
  }

  lemma {:induction false} TwoArguments(name: string, x: int, y: int, norm: Norm)
    ensures
      var r := CallFn(name, [I(x), I(y)], norm);
      && (name in LEAST ==> exists n :: Smaller(n, x, y) && Returns(r, n))
      && (name in MOST ==> exists n :: Larger(n, x, y) && Returns(r, n))
      && (name == "cdiv" && y != 0 ==> exists q :: CeilingOf(q, x, y) && Returns(r, norm(q)))
      && (name !in LEAST + MOST && !(name == "cdiv" && y != 0) ==> r.None?)
  {
    var n := if y < x then y else x;
    var m := if y > x then y else x;
    assert Smaller(n, x, y) && Larger(m, x, y);
    if name == "cdiv" && y != 0 {
      var q := -Quotient(-x, y);
      CeilingQuotient(x, y);
      assert CeilingOf(q, x, y);
    }
  }

  lemma {:induction false} CeilingQuotient(x: int, y: int)
    requires y != 0
    ensures CeilingOf(-Quotient(-x, y), x, y)
  {
    var p := Quotient(-x, y);
    DivisionExact(-x, y);
    assert (-p - 1) * y == -(p * y) - y && -p * y == -(p * y);
  }

  lemma {:induction false} OneArgument(name: string, x: int, norm: Norm)
    ensures
      var r := CallFn(name, [I(x)], norm);
      && (name == "abs" ==> exists n :: Distance(n, x) && Returns(r, norm(n)))
      && (name in SAME ==> Returns(r, x))
      && (name == "next_power_of_2" && x > 0 ==> exists p :: LeastPower(p, x - 1) && Returns(r, norm(p)))
      && (name == "next_power_of_2" && x <= 0 ==> Returns(r, norm(0)))
      && (name !in SAME + {"abs", "next_power_of_2"} ==> r.None?)
  {
    var n := if x < 0 then -x else x;
    assert Distance(n, x);
    if x > 0 {
      LengthIsLeast(x - 1);
      assert name == "next_power_of_2" ==> Returns(CallFn(name, [I(x)], norm), norm(Power2(BitLength(x - 1))));
    }
  }
}
