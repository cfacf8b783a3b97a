/** Lowering preserves meaning: where no name is read that the lowered scopes may have left with
    another value, running the SSA of an accepted kernel body leaves the same buffers, and the
    same value for every name still bound, as running its statements directly. */
module LoweringCorrect {
  import opened Wrappers
  import opened Ssa
  import opened Interpreter
  import opened Scoping
  import opened Frontend
  import opened ScopedMeaning
  import opened Lowering
  import opened StaleNames

  // ----- what a direct run changes -----

  ghost predicate OnlyTouches(touched: set<string>, before: NameTable, after: NameTable) {
    && before.Keys <= after.Keys <= before.Keys + touched
    && forall x :: x in before && x !in touched ==> after[x] == before[x]
  }

  lemma {:induction false} RunTouches(k: Kernel, s: Stmt, names: NameTable, mem: Memory)
    requires RunStmt(k, s, names, mem).Success?
    ensures OnlyTouches(Touches(s), names, RunStmt(k, s, names, mem).value.0)
    decreases s, 0
  {
    hide StoreOperation, Operate, EvalExpr, RangeOf;
    match s {
      case ForRange(target, bounds, body, orelse) =>
        var (start, stop, step) := RangeOf(k, bounds, names, mem).value;
        LoopTouches(k, target, body, names, mem, start, step, RangeLength(start, stop, step));
        var looped := RunLoop(k, target, body, names, mem, start, step, RangeLength(start, stop, step)).value;
        RunAllTouches(k, orelse, looped.0, looped.1);
      case IfElse(test, body, orelse) =>
        var condition := ScalarOf(EvalExpr(k, test, names, mem).value, k.ctx, mem).value;
        RunAllTouches(k, if condition != 0 then body else orelse, names, mem);
      case _ =>
    }
  }

  lemma {:induction false} LoopTouches(k: Kernel, target: string, body: seq<Stmt>, names: NameTable, mem: Memory,
          i: int, step: int, count: nat)
    requires RunLoop(k, target, body, names, mem, i, step, count).Success?
    ensures OnlyTouches({target} + TouchesAll(body), names,
        RunLoop(k, target, body, names, mem, i, step, count).value.0)
    decreases body, 1, count
  {
    if count > 0 {
      RunAllTouches(k, body, names[target := Num(i)], mem);
      var next := RunStmts(k, body, names[target := Num(i)], mem).value;
      LoopTouches(k, target, body, next.0, next.1, i + step, step, count - 1);
    }
  }

  lemma {:induction false} RunAllTouches(k: Kernel, stmts: seq<Stmt>, names: NameTable, mem: Memory)
    requires RunStmts(k, stmts, names, mem).Success?
    ensures OnlyTouches(TouchesAll(stmts), names, RunStmts(k, stmts, names, mem).value.0)
    decreases stmts, 0
  {
    hide RunStmt;
    if stmts != [] {
      RunTouches(k, stmts[0], names, mem);
      var next := RunStmt(k, stmts[0], names, mem).value;
      RunAllTouches(k, stmts[1..], next.0, next.1);
    }
  }

  // ----- the two runs side by side -----

  function KindsOf(k: Kernel): Kinds {
    Kinds(k.params, k.symbols)
  }

  /** The direct run has the names of the scoped run, with the same values but for stale ones;
      and what else it has of shape symbols holds the symbol's value, but for stale ones. */
  ghost predicate Agree(k: Kernel, stale: set<string>, names: NameTable, scoped: NameTable) {
    && (forall x :: x in scoped ==> x in names && (x !in stale ==> names[x] == scoped[x]))
    && (forall x :: x in names && x in k.symbols && x !in scoped && x !in stale ==>
          x in k.entry && names[x] == k.entry[x])
  }

  /** Both runs fail, or both succeed with the same memory and agreeing names. */
  ghost predicate SameOutcome(k: Kernel, stale: set<string>, r: Outcome<(NameTable, Memory)>,
          s: Outcome<(NameTable, Memory)>, bound: set<string>) {
    match r
    case Failure(_) => s.Failure?
    case Success(done) =>
      s.Success? && s.value.1 == done.1 && Agree(k, stale, done.0, s.value.0) && s.value.0.Keys == bound
  }

  lemma {:induction false} ExprAgrees(k: Kernel, b: Builder, e: Expr, bindings: Bindings, st: State,
          stale: set<string>, names: NameTable, scoped: NameTable, mem: Memory)
    requires Matches(k, b) && LowerExpr(b, e, bindings, st).Success? && Agree(k, stale, names, scoped)
    requires scoped.Keys == bindings.Keys && Reads(e) !! stale
    ensures EvalExpr(k, e, names, mem) == EvalExpr(k, e, scoped, mem)
    decreases e, 0
  {
    hide Operate, Emit, LowerExprs, EvalExprs;
    if e.Name? {
      NameAgrees(k, b, e.id, bindings, st, stale, names, scoped, mem);
    } else if e.Apply? {
      hide Agree;
      if e.operator == UnaryOperator(Neg) && |e.args| == 1 && e.args[0].Literal? {
        assert e.args == [Literal(e.args[0].value)];
        NegatedLiteral(k, e.args[0].value, names, mem);
        NegatedLiteral(k, e.args[0].value, scoped, mem);
      } else {
        ExprsAgree(k, b, e.args, bindings, st, stale, names, scoped, mem);
      }
    }
  }

  lemma {:induction false} NameAgrees(k: Kernel, b: Builder, id: string, bindings: Bindings, st: State,
          stale: set<string>, names: NameTable, scoped: NameTable, mem: Memory)
    requires Matches(k, b) && LowerName(b, id, bindings, st).Success? && Agree(k, stale, names, scoped)
    requires scoped.Keys == bindings.Keys && id !in stale
    ensures EvalExpr(k, Name(id), names, mem) == EvalExpr(k, Name(id), scoped, mem)
  {
  }

  lemma {:induction false} ExprsAgree(k: Kernel, b: Builder, es: seq<Expr>, bindings: Bindings, st: State,
          stale: set<string>, names: NameTable, scoped: NameTable, mem: Memory)
    requires Matches(k, b) && LowerExprs(b, es, bindings, st).Success? && Agree(k, stale, names, scoped)
    requires scoped.Keys == bindings.Keys && ReadsAll(es) !! stale
    ensures EvalExprs(k, es, names, mem) == EvalExprs(k, es, scoped, mem)
    decreases es, 0
  {
    hide Agree;
    if es != [] {
      ExprAgrees(k, b, es[0], bindings, st, stale, names, scoped, mem);
      ExprsAgree(k, b, es[1..], bindings, LowerExpr(b, es[0], bindings, st).value.st, stale, names, scoped, mem);
    }
  }

  /** Binding one name to one value in both runs settles it. */
  lemma {:induction false} BothBind(k: Kernel, x: string, v: Val, stale: set<string>, names: NameTable,
          scoped: NameTable)
    requires Agree(k, stale, names, scoped)
    ensures Agree(k, stale - {x}, names[x := v], scoped[x := v])
  {
  }

  lemma {:induction false} AssignAgrees(k: Kernel, b: Builder, s: Stmt, bindings: Bindings, st: State,
          stale: set<string>, names: NameTable, scoped: NameTable, mem: Memory)
    requires Matches(k, b) && LowerStmt(b, s, bindings, st).Success? && Agree(k, stale, names, scoped)
    requires scoped.Keys == bindings.Keys && Regular(s, scoped.Keys, stale, KindsOf(k)) && s.Assign?
    ensures SameOutcome(k, Left(s, scoped.Keys, stale, KindsOf(k)), RunStmt(k, s, names, mem),
        ScopedStmt(k, s, scoped, mem), LowerStmt(b, s, bindings, st).value.env.Keys)
  {
    hide LowerExpr, EvalExpr, StoreParam, Agree, Reads, ScalarOf, AddOutput, NamedValue;
    ExprAgrees(k, b, s.value, bindings, st, stale, names, scoped, mem);
    assert stale - {} == stale;
    var v := EvalExpr(k, s.value, names, mem);
    if v.Success? {
      BothBind(k, s.target, v.value, stale, names, scoped);
    }
  }

  lemma {:induction false} SimpleAgrees(k: Kernel, b: Builder, s: Stmt, bindings: Bindings, st: State,
          stale: set<string>, names: NameTable, scoped: NameTable, mem: Memory)
    requires Matches(k, b) && LowerStmt(b, s, bindings, st).Success? && Agree(k, stale, names, scoped)
    requires scoped.Keys == bindings.Keys && Regular(s, scoped.Keys, stale, KindsOf(k))
    requires !s.ForRange? && !s.IfElse?
    ensures SameOutcome(k, Left(s, scoped.Keys, stale, KindsOf(k)), RunStmt(k, s, names, mem),
        ScopedStmt(k, s, scoped, mem), LowerStmt(b, s, bindings, st).value.env.Keys)
  {
    hide LowerExpr, LowerExprs, EvalExpr, EvalExprs, StoreOperation, Compute, Agree, Reads, ReadsAll, NamedValue;
    match s {
      case Assign(_, _) => AssignAgrees(k, b, s, bindings, st, stale, names, scoped, mem);
      case AssignAt(_, _, _) => AssignAtAgrees(k, b, s, bindings, st, stale, names, scoped, mem);
      case AugAssign(_, _, _) => AugAssignAgrees(k, b, s, bindings, st, stale, names, scoped, mem);
      case Evaluate(value) =>
        ExprAgrees(k, b, value, bindings, st, stale, names, scoped, mem);
        assert stale - {} == stale;
      case Pass => assert stale - {} == stale;
    }
  }

  lemma {:induction false} AugAssignAgrees(k: Kernel, b: Builder, s: Stmt, bindings: Bindings, st: State,
          stale: set<string>, names: NameTable, scoped: NameTable, mem: Memory)
    requires s.AugAssign? && Matches(k, b) && LowerStmt(b, s, bindings, st).Success? && Agree(k, stale, names, scoped)
    requires scoped.Keys == bindings.Keys && Regular(s, scoped.Keys, stale, KindsOf(k))
    ensures SameOutcome(k, Left(s, scoped.Keys, stale, KindsOf(k)), RunStmt(k, s, names, mem),
        ScopedStmt(k, s, scoped, mem), LowerStmt(b, s, bindings, st).value.env.Keys)
  {
    hide LowerExpr, EvalExpr, Operate, Reads;
    ExprAgrees(k, b, s.value, bindings, st, stale, names, scoped, mem);
    var v := EvalExpr(k, s.value, names, mem);
    assert names[s.target] == scoped[s.target];
    hide Agree;
    if v.Success? {
      var result := Operate(BinaryOperator(s.op), [names[s.target], v.value], k.ctx, mem);
      if result.Success? {
        BothBind(k, s.target, result.value, stale, names, scoped);
      }
    }
  }

  lemma {:induction false} AssignAtAgrees(k: Kernel, b: Builder, s: Stmt, bindings: Bindings, st: State,
          stale: set<string>, names: NameTable, scoped: NameTable, mem: Memory)
    requires s.AssignAt? && Matches(k, b) && LowerStmt(b, s, bindings, st).Success? && Agree(k, stale, names, scoped)
    requires scoped.Keys == bindings.Keys && Regular(s, scoped.Keys, stale, KindsOf(k))
    ensures SameOutcome(k, Left(s, scoped.Keys, stale, KindsOf(k)), RunStmt(k, s, names, mem),
        ScopedStmt(k, s, scoped, mem), LowerStmt(b, s, bindings, st).value.env.Keys)
  {
    hide LowerExpr, LowerExprs, LowerName, EvalExpr, EvalExprs, StoreParam, Agree, Reads, ReadsAll;
    assert stale - {} == stale;
    ExprAgrees(k, b, s.value, bindings, st, stale, names, scoped, mem);
    var v := LowerExpr(b, s.value, bindings, st).value;
    var destination := LowerName(b, s.target, bindings, v.st).value;
    NameAgrees(k, b, s.target, bindings, v.st, stale, names, scoped, mem);
    ExprsAgree(k, b, s.indices, bindings, AddOutput(destination.1, destination.0), stale, names, scoped, mem);
  }

  lemma {:induction false} AssignedAreTouched(stmts: seq<Stmt>)
    ensures forall x :: x in AssignedNames(stmts) <==> x in TouchesAll(stmts)
  {
    AssignedInAllIsTouched(stmts, []);
    forall x
      ensures x in AssignedNames(stmts) <==> x in TouchesAll(stmts)
    {
      assert x in AssignedNames(stmts) <==> x in Elements(AssignedNames(stmts));
    }
  }

  // ----- loops -----

  /** Both runs start a round alike: they set the target, unless lowering carries it. */
  lemma {:induction false} EnterAgrees(k: Kernel, target: string, body: seq<Stmt>, head: set<string>, names: NameTable,
          scoped: NameTable, i: int)
    requires Agree(k, head, names, scoped)
    ensures Agree(k, AtEntry(target, body, scoped.Keys, head), names[target := Num(i)],
        Entered(target, body, scoped, i))
    ensures Entered(target, body, scoped, i).Keys == scoped.Keys + {target}
  {
    AssignedAreTouched(body);
  }

  /** Leaving a round, or a branch, with the names of the outer scope. */
  lemma {:induction false} BackAgrees(k: Kernel, stmts: seq<Stmt>, head: set<string>, last: set<string>,
          names: NameTable, scoped: NameTable, entered: NameTable, done: NameTable, inner: NameTable)
    requires Agree(k, head, names, scoped) && Agree(k, last, done, inner) && scoped.Keys <= inner.Keys
    requires OnlyTouches(TouchesAll(stmts), entered, done) && names.Keys <= entered.Keys
    requires last * scoped.Keys * TouchesAll(stmts) <= head
    requires (TouchesAll(stmts) - scoped.Keys) * k.symbols <= head
    requires forall x :: x in scoped && x !in TouchesAll(stmts) && x !in head ==> entered[x] == names[x]
    requires forall x :: x in entered && x in k.symbols && x !in scoped && x !in head ==>
        x in names && entered[x] == names[x]
    ensures Agree(k, head, done, Back(scoped, inner, AssignedNames(stmts)))
    ensures Back(scoped, inner, AssignedNames(stmts)).Keys == scoped.Keys
  {
    AssignedAreTouched(stmts);
  }

  lemma {:induction false} RoundAgrees(k: Kernel, target: string, body: seq<Stmt>, head: set<string>,
          last: set<string>, names: NameTable, scoped: NameTable, i: int, done: NameTable, inner: NameTable)
    requires Agree(k, head, names, scoped) && Agree(k, last, done, inner) && scoped.Keys <= inner.Keys
    requires OnlyTouches(TouchesAll(body), names[target := Num(i)], done)
    requires Settled(target, body, scoped.Keys, head, last, KindsOf(k))
    ensures Agree(k, head, done, Back(scoped, inner, AssignedNames(body)))
    ensures Back(scoped, inner, AssignedNames(body)).Keys == scoped.Keys
  {
    var entered := names[target := Num(i)];
    hide Agree, OnlyTouches, AssignedNames, Back;
    BackAgrees(k, body, head, last, names, scoped, entered, done, inner);
  }

  /** Both loops after their first round. */
  lemma {:induction false} LoopSteps(k: Kernel, target: string, body: seq<Stmt>, names: NameTable, scoped: NameTable,
          mem: Memory, i: int, step: int, count: nat)
    ensures count == 0 ==> RunLoop(k, target, body, names, mem, i, step, count) == Success((names, mem))
    ensures count == 0 ==> ScopedLoop(k, target, body, scoped, mem, i, step, count) == Success((scoped, mem))
    ensures count > 0 ==>
              var next := RunStmts(k, body, names[target := Num(i)], mem);
              RunLoop(k, target, body, names, mem, i, step, count)
              == if next.Failure? then Failure(next.error)
                  else RunLoop(k, target, body, next.value.0, next.value.1, i + step, step, count - 1)
    ensures count > 0 ==>
              var next := ScopedStmts(k, body, Entered(target, body, scoped, i), mem);
              ScopedLoop(k, target, body, scoped, mem, i, step, count)
              == if next.Failure? then Failure(next.error)
                 else ScopedLoop(k, target, body, Back(scoped, next.value.0, AssignedNames(body)), next.value.1,
                     i + step, step, count - 1)
  {
    hide RunStmts, ScopedStmts, AssignedNames, Back;
  }

  lemma {:induction false} LoopAgrees(k: Kernel, b: Builder, target: string, body: seq<Stmt>, bindings: Bindings,
          st: State, head: set<string>, names: NameTable, scoped: NameTable, mem: Memory, i: int, step: int, count: nat)
    requires Matches(k, b) && LowerStmts(b, body, bindings, st).Success? && Agree(k, head, names, scoped)
    requires scoped.Keys + {target} == bindings.Keys
    requires var entry := AtEntry(target, body, scoped.Keys, head);
             && RegularAll(body, scoped.Keys + {target}, entry, KindsOf(k))
             && Settled(target, body, scoped.Keys, head, LeftAll(body, scoped.Keys + {target}, entry, KindsOf(k)),
                 KindsOf(k))
    ensures SameOutcome(k, head, RunLoop(k, target, body, names, mem, i, step, count),
        ScopedLoop(k, target, body, scoped, mem, i, step, count), scoped.Keys)
    decreases body, 1, count
  {
    LoopSteps(k, target, body, names, scoped, mem, i, step, count);
    hide RegularAll, RunStmts, ScopedStmts, LowerStmts, TouchesAll, AssignedNames, Agree, OnlyTouches, Back,
        RunLoop, ScopedLoop, Settled, LeftAll, AtEntry, Entered;
    if count > 0 {
      var entered, inside := names[target := Num(i)], Entered(target, body, scoped, i);
      var entry := AtEntry(target, body, scoped.Keys, head);
      EnterAgrees(k, target, body, head, names, scoped, i);
      StmtsAgree(k, b, body, bindings, st, entry, entered, inside, mem);
      var next, inner := RunStmts(k, body, entered, mem), ScopedStmts(k, body, inside, mem);
      if next.Success? {
        RunAllTouches(k, body, entered, mem);
        RoundAgrees(k, target, body, head, LeftAll(body, scoped.Keys + {target}, entry, KindsOf(k)), names, scoped, i,
            next.value.0, inner.value.0);
        LoopAgrees(k, b, target, body, bindings, st, head, next.value.0,
            Back(scoped, inner.value.0, AssignedNames(body)), next.value.1, i + step, step, count - 1);
      }
    }
  }

  lemma {:induction false} StmtsAgree(k: Kernel, b: Builder, stmts: seq<Stmt>, bindings: Bindings, st: State,
          stale: set<string>, names: NameTable, scoped: NameTable, mem: Memory)
    requires Matches(k, b) && LowerStmts(b, stmts, bindings, st).Success? && Agree(k, stale, names, scoped)
    requires scoped.Keys == bindings.Keys
    requires RegularAll(stmts, scoped.Keys, stale, KindsOf(k))
    ensures SameOutcome(k, LeftAll(stmts, scoped.Keys, stale, KindsOf(k)), RunStmts(k, stmts, names, mem),
        ScopedStmts(k, stmts, scoped, mem), LowerStmts(b, stmts, bindings, st).value.env.Keys)
    ensures ScopedStmts(k, stmts, scoped, mem).Success? ==>
        scoped.Keys <= ScopedStmts(k, stmts, scoped, mem).value.0.Keys
    decreases stmts, 0
  {
    hide RunStmt, ScopedStmt, LowerStmt, Regular, Agree, Left;
    if stmts != [] {
      StmtAgrees(k, b, stmts[0], bindings, st, stale, names, scoped, mem);
      LoweredBinds(k, b, stmts[0], bindings, st);
      var first := LowerStmt(b, stmts[0], bindings, st).value;
      var next, inner := RunStmt(k, stmts[0], names, mem), ScopedStmt(k, stmts[0], scoped, mem);
      if next.Success? {
        StmtsAgree(k, b, stmts[1..], first.env, first.st, Left(stmts[0], scoped.Keys, stale, KindsOf(k)), next.value.0,
            inner.value.0, next.value.1);
      }
    }
  }

  lemma {:induction false} StmtAgrees(k: Kernel, b: Builder, s: Stmt, bindings: Bindings, st: State,
          stale: set<string>, names: NameTable, scoped: NameTable, mem: Memory)
    requires Matches(k, b) && LowerStmt(b, s, bindings, st).Success? && Agree(k, stale, names, scoped)
    requires scoped.Keys == bindings.Keys
    requires Regular(s, scoped.Keys, stale, KindsOf(k))
    ensures SameOutcome(k, Left(s, scoped.Keys, stale, KindsOf(k)), RunStmt(k, s, names, mem),
        ScopedStmt(k, s, scoped, mem), LowerStmt(b, s, bindings, st).value.env.Keys)
    decreases s, 2
  {
    if s.ForRange? {
      LoweredBinds(k, b, s, bindings, st);
      hide LowerStmt, RunStmt, ScopedStmt, RegularAll, TouchesAll, AssignedNames, Left, LeftAll;
      ForAgrees(k, b, s, bindings, st, stale, names, scoped, mem);
    } else if s.IfElse? {
      IfAgrees(k, b, s, bindings, st, stale, names, scoped, mem);
    } else {
      SimpleAgrees(k, b, s, bindings, st, stale, names, scoped, mem);
    }
  }

  /** The start, step and number of rounds of a loop, if its bounds evaluate. */
  function Schedule(k: Kernel, bounds: seq<Expr>, names: NameTable, mem: Memory): Option<(int, int, nat)> {
    var range := RangeOf(k, bounds, names, mem);
    if range.Failure? then None
    else
      var (start, stop, step) := range.value;
      Some((start, step, RangeLength(start, stop, step)))
  }

  lemma {:induction false} LoopRuns(k: Kernel, s: Stmt, names: NameTable, mem: Memory)
    requires s.ForRange?
    ensures match Schedule(k, s.bounds, names, mem)
            case None => RunStmt(k, s, names, mem).Failure? && ScopedStmt(k, s, names, mem).Failure?
            case Some((start, step, count)) =>
              && ScopedStmt(k, s, names, mem) == ScopedLoop(k, s.target, s.body, names, mem, start, step, count)
              && (s.orelse == [] ==>
                    RunStmt(k, s, names, mem) == RunLoop(k, s.target, s.body, names, mem, start, step, count))
  {
    hide RunLoop, ScopedLoop, RangeOf, RangeLength;
    var schedule := Schedule(k, s.bounds, names, mem);
    if schedule.Some? {
      var (start, step, count) := schedule.value;
      var looped := RunLoop(k, s.target, s.body, names, mem, start, step, count);
      if looped.Success? {
        NothingMore(k, looped.value.0, looped.value.1);
      }
    }
  }

  lemma {:induction false} SchedulesAgree(k: Kernel, b: Builder, s: Stmt, bindings: Bindings, st: State,
          stale: set<string>, names: NameTable, scoped: NameTable, mem: Memory)
    requires s.ForRange? && Matches(k, b) && LowerStmt(b, s, bindings, st).Success? && Agree(k, stale, names, scoped)
    requires scoped.Keys == bindings.Keys && ReadsAll(s.bounds) !! stale
    ensures Schedule(k, s.bounds, names, mem) == Schedule(k, s.bounds, scoped, mem)
  {
    hide LowerExprs, LowerStmts, EvalExprs, Agree, ScalarOf, RangeLength, RangeOf;
    var r := RangeBounds(s.bounds).value;
    BoundsRead(s.bounds);
    ExprsAgree(k, b, [r.0, r.1, r.2], bindings, st, stale, names, scoped, mem);
    BoundsMean(k, s.bounds, names, mem);
    BoundsMean(k, s.bounds, scoped, mem);
  }

  lemma {:induction false} BoundsRead(bounds: seq<Expr>)
    requires RangeBounds(bounds).Some?
    ensures var r := RangeBounds(bounds).value; ReadsAll([r.0, r.1, r.2]) <= ReadsAll(bounds)
  {
    var r := RangeBounds(bounds).value;
    var es := [r.0, r.1, r.2];
    assert es[1..] == [r.1, r.2] && es[2..] == [r.2] && es[3..] == [];
    ReadsFrom(es, 0);
    ReadsFrom(es, 1);
    ReadsFrom(es, 2);
    assert bounds[0..] == bounds && es[0..] == es;
    ReadsFrom(bounds, 0);
    if |bounds| >= 2 {
      ReadsFrom(bounds, 1);
    }
    if |bounds| == 3 {
      ReadsFrom(bounds, 2);
    }
  }

  lemma {:induction false} ReadsFrom(es: seq<Expr>, i: nat)
    requires i < |es|
    ensures ReadsAll(es[i..]) == Reads(es[i]) + ReadsAll(es[i + 1..])
  {
    assert es[i..][0] == es[i] && es[i..][1..] == es[i + 1..];
  }

  lemma {:induction false} ForAgrees(k: Kernel, b: Builder, s: Stmt, bindings: Bindings, st: State,
          stale: set<string>, names: NameTable, scoped: NameTable, mem: Memory)
    requires s.ForRange? && Matches(k, b) && LowerStmt(b, s, bindings, st).Success? && Agree(k, stale, names, scoped)
    requires scoped.Keys == bindings.Keys && Regular(s, scoped.Keys, stale, KindsOf(k))
    ensures SameOutcome(k, Left(s, scoped.Keys, stale, KindsOf(k)), RunStmt(k, s, names, mem),
        ScopedStmt(k, s, scoped, mem), scoped.Keys)
    decreases s, 1
  {
    var limits, carried, inner, results := LoweredFor(b, s, bindings, st);
    hide LowerExprs, LowerStmts, LowerStmt, EvalExprs, RunLoop, ScopedLoop, RunStmt, ScopedStmt, TouchesAll,
        AssignedNames, Agree, LoopBindings, ScalarOf, RangeLength, RunStmts, Schedule, RegularAll, LeftAll, Unsettled,
        AtEntry, Settled, Left;
    LoopBindingsKeys(s.target, carried, bindings);
    SchedulesAgree(k, b, s, bindings, st, stale, names, scoped, mem);
    LoopRuns(k, s, names, mem);
    LoopRuns(k, s, scoped, mem);
    var head, entry, last := RoundSettles(s.target, s.bounds, s.body, s.orelse, scoped.Keys, stale, KindsOf(k));
    assert s == ForRange(s.target, s.bounds, s.body, s.orelse);
    AgreeWeakens(k, stale, head, names, scoped);
    var schedule := Schedule(k, s.bounds, names, mem);
    if schedule.Some? {
      LoopAgrees(k, b, s.target, s.body, LoopBindings(s.target, carried, bindings), limits.st, head, names, scoped, mem,
          schedule.value.0, schedule.value.1, schedule.value.2);
    }
  }

  lemma {:induction false} AgreeWeakens(k: Kernel, stale: set<string>, more: set<string>, names: NameTable,
          scoped: NameTable)
    requires Agree(k, stale, names, scoped) && stale <= more
    ensures Agree(k, more, names, scoped)
  {
  }

  lemma {:induction false} LoopBindingsKeys(target: string, carried: seq<string>, bindings: Bindings)
    requires forall x :: x in carried ==> x in bindings
    ensures LoopBindings(target, carried, bindings).Keys == bindings.Keys + {target}
  {
  }

  lemma {:induction false} NothingMore(k: Kernel, names: NameTable, mem: Memory)
    ensures RunStmts(k, [], names, mem) == Success((names, mem))
  {
  }

  // ----- branches -----

  /** Both runs of a branch, by the side that each takes. */
  lemma {:induction false} BranchRuns(k: Kernel, s: Stmt, names: NameTable, scoped: NameTable, mem: Memory)
    requires s.IfElse?
    ensures
      var v := EvalExpr(k, s.test, names, mem);
      if v.Failure? || ScalarOf(v.value, k.ctx, mem).Failure? then RunStmt(k, s, names, mem).Failure?
      else
        RunStmt(k, s, names, mem) ==
            RunStmts(k, if ScalarOf(v.value, k.ctx, mem).value != 0 then s.body else s.orelse, names, mem)
    ensures
      var v := EvalExpr(k, s.test, scoped, mem);
      if v.Failure? || ScalarOf(v.value, k.ctx, mem).Failure? then ScopedStmt(k, s, scoped, mem).Failure?
      else
        var after := ScopedStmts(k, if ScalarOf(v.value, k.ctx, mem).value != 0 then s.body else s.orelse, scoped, mem);
        ScopedStmt(k, s, scoped, mem) == if after.Failure? then Failure(after.error)
            else Success((Back(scoped, after.value.0, AssignedNames(s.body + s.orelse)), after.value.1))
  {
    hide EvalExpr, ScalarOf, RunStmts, ScopedStmts, Back, AssignedNames;
  }

  lemma {:induction false} IfAgrees(k: Kernel, b: Builder, s: Stmt, bindings: Bindings, st: State, stale: set<string>,
          names: NameTable, scoped: NameTable, mem: Memory)
    requires s.IfElse? && Matches(k, b) && LowerStmt(b, s, bindings, st).Success? && Agree(k, stale, names, scoped)
    requires scoped.Keys == bindings.Keys && Regular(s, scoped.Keys, stale, KindsOf(k))
    ensures SameOutcome(k, Left(s, scoped.Keys, stale, KindsOf(k)), RunStmt(k, s, names, mem),
        ScopedStmt(k, s, scoped, mem), LowerStmt(b, s, bindings, st).value.env.Keys)
    decreases s, 0
  {
    hide LowerExpr, LowerStmts, LowerStmt, EvalExpr, RunStmts, ScopedStmts, RegularAll, AssignedNames, Agree,
        TouchesAll, OnlyTouches, BranchOperation, ScalarOf, Regular, Back, Left, LeftAll, Reads, RunStmt, ScopedStmt,
        Matches, KindsOf, EnsureBool, Carried, Temps;
    BranchRuns(k, s, names, scoped, mem);
    LoweredBinds(k, b, s, bindings, st);
    RegularBranches(s, scoped.Keys, stale, KindsOf(k));
    var condition, env1, touched, thenState, thenBranch, elseBranch, op := LoweredIf(b, s, bindings, st);
    ExprAgrees(k, b, s.test, bindings, st, stale, names, scoped, mem);
    var v := EvalExpr(k, s.test, names, mem);
    if v.Success? && ScalarOf(v.value, k.ctx, mem).Success? {
      var first := ScalarOf(v.value, k.ctx, mem).value != 0;
      var taken := if first then s.body else s.orelse;
      StmtsAgree(k, b, taken, env1, if first then thenState else thenBranch.st, stale, names, scoped, mem);
      var done, inner := RunStmts(k, taken, names, mem), ScopedStmts(k, taken, scoped, mem);
      if done.Success? {
        RunAllTouches(k, taken, names, mem);
        TouchesConcat(s.body, s.orelse);
        TouchesMore(TouchesAll(taken), TouchesAll(s.body + s.orelse), names, done.value.0);
        BranchBack(k, s, taken, stale, names, scoped, done.value.0, inner.value.0);
      }
    }
  }

  lemma {:induction false} RegularBranches(s: Stmt, bound: set<string>, stale: set<string>, kinds: Kinds)
    requires s.IfElse? && Regular(s, bound, stale, kinds)
    ensures Reads(s.test) !! stale && RegularAll(s.body, bound, stale, kinds)
    ensures RegularAll(s.orelse, bound, stale, kinds)
  {
  }

  lemma {:induction false} TouchesMore(a: set<string>, b: set<string>, before: NameTable, done: NameTable)
    requires OnlyTouches(a, before, done) && a <= b
    ensures OnlyTouches(b, before, done)
  {
  }

  lemma {:induction false} BranchBack(k: Kernel, s: Stmt, taken: seq<Stmt>, stale: set<string>, names: NameTable,
          scoped: NameTable, done: NameTable, inner: NameTable)
    requires s.IfElse? && (taken == s.body || taken == s.orelse)
    requires OnlyTouches(TouchesAll(taken), names, done)
    requires OnlyTouches(TouchesAll(s.body + s.orelse), names, done)
    requires Agree(k, stale, names, scoped) && scoped.Keys <= inner.Keys
    requires Agree(k, LeftAll(taken, scoped.Keys, stale, KindsOf(k)), done, inner)
    ensures Agree(k, Left(s, scoped.Keys, stale, KindsOf(k)), done,
        Back(scoped, inner, AssignedNames(s.body + s.orelse)))
    ensures Back(scoped, inner, AssignedNames(s.body + s.orelse)).Keys == scoped.Keys
  {
    var kinds, all := KindsOf(k), s.body + s.orelse;
    var last, out := LeftAll(taken, scoped.Keys, stale, kinds), Left(s, scoped.Keys, stale, kinds);
    TouchesConcat(s.body, s.orelse);
    AssignedAreTouched(all);
    assert last * (scoped.Keys + k.symbols) <= out && (TouchesAll(all) - scoped.Keys) * k.symbols <= out;
    hide Left, LeftAll, AssignedNames, TouchesAll;
    forall x | x in stale && x in scoped.Keys + k.symbols && x !in TouchesAll(taken)
      ensures x in last
    {
      AllStayStale(x, taken, scoped.Keys, stale, kinds);
    }
    BranchAgrees(k, all, TouchesAll(taken), stale, last, out, names, scoped, done, inner);
  }

  lemma {:induction false} BranchAgrees(k: Kernel, all: seq<Stmt>, touched: set<string>, stale: set<string>,
          last: set<string>, out: set<string>, names: NameTable, scoped: NameTable, done: NameTable, inner: NameTable)
    requires forall x :: x in AssignedNames(all) <==> x in TouchesAll(all)
    requires OnlyTouches(touched, names, done) && OnlyTouches(TouchesAll(all), names, done)
    requires Agree(k, stale, names, scoped) && scoped.Keys <= inner.Keys && Agree(k, last, done, inner)
    requires last * (scoped.Keys + k.symbols) <= out && (TouchesAll(all) - scoped.Keys) * k.symbols <= out
    requires forall x :: x in stale && x in scoped.Keys + k.symbols && x !in touched ==> x in last
    requires touched <= TouchesAll(all)
    ensures Agree(k, out, done, Back(scoped, inner, AssignedNames(all)))
    ensures Back(scoped, inner, AssignedNames(all)).Keys == scoped.Keys
  {
    hide AssignedNames, TouchesAll;
  }

  /** Compiler correctness. When a kernel body that reads no stale name, and leaves none in scope,
      is lowered and the verifier accepts the result, the SSA run fails exactly when the direct
      run fails; otherwise it leaves the same memory, and each name still bound after lowering
      denotes an SSA value equal to what the direct run computed. */
  lemma {:induction false} LoweringPreservesMeaning(k: Kernel, b: Builder, body: seq<Stmt>, mem: Memory)
    requires Matches(k, b) && LowerKernel(b, body).Success? && VerifyProgram(LowerKernel(b, body).value).Success?
    requires RegularAll(body, k.params, {}, KindsOf(k))
    requires LeftAll(body, k.params, {}, KindsOf(k)) !! BoundAfter(body, k.params, k.params)
    requires ProgramSymbols(LowerKernel(b, body).value) + k.params <= k.entry.Keys
    ensures Preserved(k, b, body, mem)
  {
    hide LowerStmts, ExecOperations, RunStmts, ScopedStmts, RegularAll, LeftAll, VerifyProgram, Agree, BoundAfter;
    LoweredMeansScoped(k, b, body, mem);
    BodyAgrees(k, b, body, mem);
    var r, s := RunStmts(k, body, Arguments(k), mem), ScopedStmts(k, body, Arguments(k), mem);
    if r.Success? {
      var stale := LeftAll(body, k.params, {}, KindsOf(k));
      forall x | x in s.value.0
        ensures x in r.value.0 && r.value.0[x] == s.value.0[x]
      {
        AgreeAt(k, stale, r.value.0, s.value.0, x);
      }
    }
  }

  /** For one, in a body whose loop targets are new and whose regions bind no shape symbol. */
  lemma {:induction false} PlainBodiesKeepMeaning(k: Kernel, b: Builder, body: seq<Stmt>, mem: Memory)
    requires Matches(k, b) && LowerKernel(b, body).Success? && VerifyProgram(LowerKernel(b, body).value).Success?
    requires PlainAll(body, k.params, KindsOf(k))
    requires ProgramSymbols(LowerKernel(b, body).value) + k.params <= k.entry.Keys
    ensures Preserved(k, b, body, mem)
  {
    hide LowerKernel, VerifyProgram, Preserved, PlainAll, RegularAll, LeftAll, BoundAfter, ProgramSymbols;
    PlainAllRegular(body, k.params, KindsOf(k));
    LoweringPreservesMeaning(k, b, body, mem);
  }

  /** Both runs of a whole body from its arguments. */
  lemma {:induction false} BodyAgrees(k: Kernel, b: Builder, body: seq<Stmt>, mem: Memory)
    requires Matches(k, b) && LowerKernel(b, body).Success? && k.params <= k.entry.Keys
    requires RegularAll(body, k.params, {}, KindsOf(k))
    ensures SameOutcome(k, LeftAll(body, k.params, {}, KindsOf(k)), RunStmts(k, body, Arguments(k), mem),
        ScopedStmts(k, body, Arguments(k), mem), BoundAfter(body, k.params, k.params))
  {
    hide LowerStmts, RunStmts, ScopedStmts, RegularAll, LeftAll, Agree;
    var (env, st) := EntryState(b, b.params, State(map[], [], 0), map[]);
    EntryBindings(b, b.params, State(map[], [], 0), map[]);
    assert Elements(b.params) == k.params;
    AgreeAtEntry(k);
    StmtsAgree(k, b, body, env, st, {}, Arguments(k), Arguments(k), mem);
    BoundNames(k, b, body, env, st);
  }

  lemma {:induction false} BoundNames(k: Kernel, b: Builder, stmts: seq<Stmt>, bindings: Bindings, st: State)
    requires Matches(k, b) && LowerStmts(b, stmts, bindings, st).Success?
    ensures LowerStmts(b, stmts, bindings, st).value.env.Keys == BoundAfter(stmts, bindings.Keys, k.params)
    decreases |stmts|
  {
    hide LowerStmt;
    if stmts != [] {
      LoweredBinds(k, b, stmts[0], bindings, st);
      var first := LowerStmt(b, stmts[0], bindings, st).value;
      BoundNames(k, b, stmts[1..], first.env, first.st);
    }
  }

  lemma {:induction false} AgreeAtEntry(k: Kernel)
    requires k.params <= k.entry.Keys
    ensures Agree(k, {}, Arguments(k), Arguments(k)) && Arguments(k).Keys == k.params
  {
  }

  lemma {:induction false} AgreeAt(k: Kernel, stale: set<string>, names: NameTable, scoped: NameTable, x: string)
    requires Agree(k, stale, names, scoped) && x in scoped && x !in stale
    ensures x in names && names[x] == scoped[x]
  {
  }

  /** The SSA run does what the direct run does, up to names that lowering has dropped. */
  ghost predicate Preserved(k: Kernel, b: Builder, body: seq<Stmt>, mem: Memory)
    requires LowerKernel(b, body).Success? && k.params <= k.entry.Keys
  {
    var (bindings, _) := FinalBindings(b, body);
    var x := ExecOperations(LowerKernel(b, body).value.blocks[0].operations, k.entry, mem, k.ctx);
    match RunStmts(k, body, Arguments(k), mem)
    case Failure(_) => x.Failure?
    case Success(done) =>
      && x.Success? && x.value.mem == done.1
      && forall name :: name in bindings ==>
           name in done.0 && bindings[name].name in x.value.env && x.value.env[bindings[name].name] == done.0[name]
  }
}
