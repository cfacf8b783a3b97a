/** What lowered code means, as a direct run of the statements with the scopes that the
    lowering gives to names: a name bound only inside a loop or a branch is gone after it, a
    loop target keeps its outer value after the loop, is not assigned at all if the body
    assigns it, and the `else` of a loop is not run. */
module ScopedMeaning {
  import opened Wrappers
  import opened Ssa
  import opened Interpreter
  import opened Frontend

  /** The names of the outer scope, with what a region made of those it assigns. */
  function Back(names: NameTable, after: NameTable, rebound: seq<string>): NameTable {
    map x | x in names :: if x in rebound && x in after then after[x] else names[x]
  }

  /** The names a round starts with. */
  function Entered(target: string, body: seq<Stmt>, names: NameTable, i: int): NameTable {
    if target in names && target in AssignedNames(body) then names else names[target := Num(i)]
  }

  function ScopedStmt(k: Kernel, s: Stmt, names: NameTable, mem: Memory): Outcome<(NameTable, Memory)>
    decreases s, 0
  {
    match s
    case ForRange(target, bounds, body, _) =>
      var (start, stop, step) :- RangeOf(k, bounds, names, mem);
      ScopedLoop(k, target, body, names, mem, start, step, RangeLength(start, stop, step))
    case IfElse(test, body, orelse) =>
      var v :- EvalExpr(k, test, names, mem);
      var condition :- ScalarOf(v, k.ctx, mem);
      var after :- ScopedStmts(k, if condition != 0 then body else orelse, names, mem);
      Success((Back(names, after.0, AssignedNames(body + orelse)), after.1))
    case _ => RunStmt(k, s, names, mem)
  }

  function ScopedLoop(k: Kernel, target: string, body: seq<Stmt>, names: NameTable, mem: Memory, i: int, step: int,
          count: nat): Outcome<(NameTable, Memory)>
    decreases body, 1, count
  {
    if count == 0 then Success((names, mem))
    else
      var next :- ScopedStmts(k, body, Entered(target, body, names, i), mem);
      ScopedLoop(k, target, body, Back(names, next.0, AssignedNames(body)), next.1, i + step, step, count - 1)
  }

  function ScopedStmts(k: Kernel, stmts: seq<Stmt>, names: NameTable, mem: Memory): Outcome<(NameTable, Memory)>
    decreases stmts, 0
  {
    if stmts == [] then Success((names, mem))
    else
      var next :- ScopedStmt(k, stmts[0], names, mem);
      ScopedStmts(k, stmts[1..], next.0, next.1)
  }
}
