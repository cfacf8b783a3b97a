/** Exactly when the scopes of the lowering matter: a loop target that is bound outside, one that
    the body assigns, the `else` of a loop, and a shape symbol bound only inside a region. */
module ScopesMatter {
  import opened Wrappers
  import opened Ssa
  import opened Interpreter
  import opened Scoping
  import opened Frontend
  import opened ScopedMeaning
  import opened Lowering
  import opened StaleNames
  import opened LoweringCorrect

  /** Both runs give the same answer: failure, or the same memory and the same values of the
      names that are still in scope. */
  ghost predicate SameAnswer(r: Outcome<(NameTable, Memory)>, s: Outcome<(NameTable, Memory)>) {
    match r
    case Failure(_) => s.Failure?
    case Success(done) => s.Success? && s.value.1 == done.1 && forall x :: x in s.value.0 ==>
        x in done.0 && done.0[x] == s.value.0[x]
  }

  /** Whatever the body, lowering preserves its meaning exactly if the direct run and the
      scoped run give the same answer. */
  lemma {:induction false} PreservedExactly(k: Kernel, b: Builder, body: seq<Stmt>, mem: Memory)
    requires Matches(k, b) && LowerKernel(b, body).Success? && VerifyProgram(LowerKernel(b, body).value).Success?
    requires ProgramSymbols(LowerKernel(b, body).value) + k.params <= k.entry.Keys
    ensures Preserved(k, b, body, mem) <==>
        SameAnswer(RunStmts(k, body, Arguments(k), mem), ScopedStmts(k, body, Arguments(k), mem))
  {
    hide LowerStmts, ExecOperations, RunStmts, ScopedStmts, VerifyProgram;
    LoweredMeansScoped(k, b, body, mem);
  }

  /** The value a loop leaves in a target its body does not assign. */
  lemma {:induction false} TargetAfterLoop(k: Kernel, target: string, body: seq<Stmt>, names: NameTable, mem: Memory,
          i: int, step: int, count: nat)
    requires RunLoop(k, target, body, names, mem, i, step, count).Success? && target !in TouchesAll(body)
    ensures var after := RunLoop(k, target, body, names, mem, i, step, count).value.0;
            if count == 0 then after == names else target in after && after[target] == Num(i + (count - 1) * step)
    decreases count
  {
    hide RunStmts;
    if count > 0 {
      var next := RunStmts(k, body, names[target := Num(i)], mem).value;
      RunAllTouches(k, body, names[target := Num(i)], mem);
      TargetAfterLoop(k, target, body, next.0, next.1, i + step, step, count - 1);
    }
  }

  // ----- a target that is bound outside and not assigned in the body -----

  /** A loop whose target is bound outside it and not assigned in its body: the direct run
      leaves the last induction value in the target, lowering the value from before the loop.
      If nothing else in scope goes stale, the two agree exactly when the bounds do not
      evaluate, the loop fails or runs no round, or the old value is the last induction value. */
  lemma {:induction false} BoundTargetExact(k: Kernel, b: Builder, s: Stmt, bindings: Bindings, st: State,
          names: NameTable, scoped: NameTable, mem: Memory)
    requires s.ForRange? && Matches(k, b) && LowerStmt(b, s, bindings, st).Success? && Agree(k, {}, names, scoped)
    requires scoped.Keys == bindings.Keys && Regular(s, scoped.Keys, {}, KindsOf(k))
    requires s.target in scoped && s.target !in TouchesAll(s.body)
    requires Left(s, scoped.Keys, {}, KindsOf(k)) * scoped.Keys <= {s.target}
    ensures SameAnswer(RunStmt(k, s, names, mem), ScopedStmt(k, s, scoped, mem)) <==>
              match Schedule(k, s.bounds, names, mem)
              case None => true
              case Some((start, step, count)) =>
                RunStmt(k, s, names, mem).Failure? || count == 0
                || names[s.target] == Num(start + (count - 1) * step)
  {
    hide LowerStmt, RunLoop, ScopedLoop, RegularAll, TouchesAll, AssignedNames, RunStmts, Schedule, RunStmt, ScopedStmt,
        Left, Agree;
    ForAgrees(k, b, s, bindings, st, {}, names, scoped, mem);
    SchedulesAgree(k, b, s, bindings, st, {}, names, scoped, mem);
    LoopRuns(k, s, names, mem);
    LoopRuns(k, s, scoped, mem);
    var r, q := RunStmt(k, s, names, mem), ScopedStmt(k, s, scoped, mem);
    if r.Success? {
      var (start, step, count) := Schedule(k, s.bounds, names, mem).value;
      TargetAfterLoop(k, s.target, s.body, names, mem, start, step, count);
      TargetKept(k, s.target, s.body, scoped, mem, start, step, count);
      AgreeAt(k, {}, names, scoped, s.target);
      OthersAgree(k, Left(s, scoped.Keys, {}, KindsOf(k)), s.target, r.value.0, q.value.0);
    }
  }

  /** The lowered loop leaves a target alone that its body does not assign. */
  lemma {:induction false} TargetKept(k: Kernel, target: string, body: seq<Stmt>, scoped: NameTable, mem: Memory,
          i: int, step: int, count: nat)
    requires target in scoped && target !in TouchesAll(body)
    ensures var q := ScopedLoop(k, target, body, scoped, mem, i, step, count);
            q.Success? ==> target in q.value.0 && q.value.0[target] == scoped[target]
    decreases count
  {
    LoopSteps(k, target, body, scoped, scoped, mem, i, step, count);
    AssignedAreTouched(body);
    hide RunStmts, ScopedStmts, AssignedNames, TouchesAll, ScopedLoop, RunLoop;
    if count > 0 {
      var next := ScopedStmts(k, body, Entered(target, body, scoped, i), mem);
      if next.Success? {
        TargetKept(k, target, body, Back(scoped, next.value.0, AssignedNames(body)), next.value.1, i + step, step,
            count - 1);
      }
    }
  }

  lemma {:induction false} OthersAgree(k: Kernel, stale: set<string>, but: string, names: NameTable, scoped: NameTable)
    requires Agree(k, stale, names, scoped) && stale * scoped.Keys <= {but}
    ensures forall x :: x in scoped ==> x in names && (x != but ==> names[x] == scoped[x])
  {
    assert forall x :: x in scoped && x in stale ==> x in stale * scoped.Keys;
  }

  // ----- a target that is bound outside and assigned in the body -----

  /** The body run `count` times, without a target. */
  function Repeat(k: Kernel, body: seq<Stmt>, names: NameTable, mem: Memory,
          count: nat): Outcome<(NameTable, Memory)>
    decreases count
  {
    if count == 0 then Success((names, mem))
    else
      var next :- RunStmts(k, body, names, mem);
      Repeat(k, body, next.0, next.1, count - 1)
  }

  /** Both runs fail, or both leave the same memory and the same values of some names. */
  ghost predicate SameOn(some: set<string>, r: Outcome<(NameTable, Memory)>, q: Outcome<(NameTable, Memory)>) {
    match r
    case Failure(_) => q.Failure?
    case Success(done) => q.Success? && q.value.1 == done.1 && forall x :: x in some ==>
        x in done.0 && x in q.value.0 && done.0[x] == q.value.0[x]
  }

  /** The names that may be stale before any round of a repeated body. */
  ghost function BeforeRounds(body: seq<Stmt>, bound: set<string>, kinds: Kinds): set<string> {
    TargetsAll(body) * (bound + kinds.symbols) + (TouchesAll(body) - bound) * kinds.symbols
  }

  /** A lowered loop that carries its target is its body, repeated. */
  lemma {:induction false} CarriedLoopRepeats(k: Kernel, b: Builder, target: string, body: seq<Stmt>,
          bindings: Bindings, st: State, names: NameTable, scoped: NameTable, mem: Memory, i: int, step: int,
          count: nat)
    requires Matches(k, b) && LowerStmts(b, body, bindings, st).Success? && scoped.Keys == bindings.Keys
    requires target in scoped && target in TouchesAll(body)
    requires var head := BeforeRounds(body, scoped.Keys, KindsOf(k));
             Agree(k, head, names, scoped) && RegularAll(body, scoped.Keys, head, KindsOf(k))
    ensures SameOutcome(k, BeforeRounds(body, scoped.Keys, KindsOf(k)), Repeat(k, body, names, mem, count),
        ScopedLoop(k, target, body, scoped, mem, i, step, count), scoped.Keys)
    decreases count
  {
    LoopSteps(k, target, body, names, scoped, mem, i, step, count);
    AssignedAreTouched(body);
    hide RunStmts, ScopedStmts, LowerStmts, Agree, RegularAll, OnlyTouches, AssignedNames, TouchesAll, RunLoop,
        ScopedLoop, Back, BeforeRounds, LeftAll;
    if count > 0 {
      var head := BeforeRounds(body, scoped.Keys, KindsOf(k));
      StmtsAgree(k, b, body, bindings, st, head, names, scoped, mem);
      var next, inner := RunStmts(k, body, names, mem), ScopedStmts(k, body, scoped, mem);
      if next.Success? {
        RunAllTouches(k, body, names, mem);
        RepeatSettles(body, scoped.Keys, KindsOf(k));
        BackAgrees(k, body, head, LeftAll(body, scoped.Keys, head, KindsOf(k)), names, scoped, names, next.value.0,
            inner.value.0);
        CarriedLoopRepeats(k, b, target, body, bindings, st, next.value.0,
            Back(scoped, inner.value.0, AssignedNames(body)), next.value.1, i + step, step, count - 1);
      }
    }
  }

  lemma {:induction false} RepeatSettles(body: seq<Stmt>, bound: set<string>, kinds: Kinds)
    ensures var head := BeforeRounds(body, bound, kinds);
            && LeftAll(body, bound, head, kinds) * bound * TouchesAll(body) <= head
            && (TouchesAll(body) - bound) * kinds.symbols <= head
  {
    LeftAllWithin(body, bound, BeforeRounds(body, bound, kinds), kinds);
  }

  /** A loop whose target is bound outside and assigned in its body: lowering carries the target
      and ignores the induction values, so the lowered loop does what repeating the body does.
      The two runs agree exactly if setting the target before each round makes no difference. */
  lemma {:induction false} CarriedTargetExact(k: Kernel, b: Builder, s: Stmt, bindings: Bindings, st: State,
          names: NameTable, scoped: NameTable, mem: Memory)
    requires s.ForRange? && s.orelse == [] && Matches(k, b) && LowerStmt(b, s, bindings, st).Success?
    requires Agree(k, {}, names, scoped) && scoped.Keys == bindings.Keys
    requires s.target in scoped && s.target in TouchesAll(s.body)
    requires var head := BeforeRounds(s.body, scoped.Keys, KindsOf(k));
             RegularAll(s.body, scoped.Keys, head, KindsOf(k)) && head !! scoped.Keys
    ensures SameAnswer(RunStmt(k, s, names, mem), ScopedStmt(k, s, scoped, mem)) <==>
              match Schedule(k, s.bounds, names, mem)
              case None => true
              case Some((start, step, count)) =>
                SameOn(scoped.Keys, RunLoop(k, s.target, s.body, names, mem, start, step, count),
                    Repeat(k, s.body, names, mem, count))
  {
    hide LowerStmt, LowerStmts, RunLoop, ScopedLoop, RegularAll, TouchesAll, AssignedNames, RunStmts, Schedule, RunStmt,
        ScopedStmt, BeforeRounds, Agree, LoopBindings, Repeat, Matches;
    var limits, carried, inner, results := LoweredFor(b, s, bindings, st);
    LoopBindingsKeys(s.target, carried, bindings);
    NothingRead(s.bounds);
    SchedulesAgree(k, b, s, bindings, st, {}, names, scoped, mem);
    LoopRuns(k, s, names, mem);
    LoopRuns(k, s, scoped, mem);
    var schedule := Schedule(k, s.bounds, names, mem);
    if schedule.Some? {
      var (start, step, count) := schedule.value;
      var head := BeforeRounds(s.body, scoped.Keys, KindsOf(k));
      AgreeWeakens(k, {}, head, names, scoped);
      CarriedLoopRepeats(k, b, s.target, s.body, LoopBindings(s.target, carried, bindings), limits.st, names, scoped,
          mem, start, step, count);
      var looped := RunLoop(k, s.target, s.body, names, mem, start, step, count);
      if looped.Success? {
        LoopTouches(k, s.target, s.body, names, mem, start, step, count);
      }
      NamesHeld(k, names, scoped, looped, {s.target} + TouchesAll(s.body));
      AnswersCompare(k, head, looped, Repeat(k, s.body, names, mem, count), ScopedStmt(k, s, scoped, mem), scoped.Keys);
    }
  }

  lemma {:induction false} NamesHeld(k: Kernel, names: NameTable, scoped: NameTable,
          looped: Outcome<(NameTable, Memory)>, touched: set<string>)
    requires Agree(k, {}, names, scoped) && (looped.Success? ==> OnlyTouches(touched, names, looped.value.0))
    ensures looped.Success? ==> scoped.Keys <= looped.value.0.Keys
  {
  }

  /** Comparing with the scoped run is comparing with a run that agrees with it. */
  lemma {:induction false} AnswersCompare(k: Kernel, stale: set<string>, looped: Outcome<(NameTable, Memory)>,
          repeated: Outcome<(NameTable, Memory)>, lowered: Outcome<(NameTable, Memory)>, bound: set<string>)
    requires SameOutcome(k, stale, repeated, lowered, bound) && stale !! bound
    requires looped.Success? ==> bound <= looped.value.0.Keys
    ensures SameAnswer(looped, lowered) <==> SameOn(bound, looped, repeated)
  {
    if repeated.Success? {
      AllAgree(k, stale, repeated.value.0, lowered.value.0);
      hide Agree;
    }
  }

  lemma {:induction false} NothingRead(es: seq<Expr>)
    ensures ReadsAll(es) !! {}
  {
  }

  lemma {:induction false} AllAgree(k: Kernel, stale: set<string>, names: NameTable, scoped: NameTable)
    requires Agree(k, stale, names, scoped) && stale !! scoped.Keys
    ensures forall x :: x in scoped ==> x in names && names[x] == scoped[x]
  {
  }

  /** It makes no difference, for one, if no round of the body sees that its target was set. */
  ghost predicate RoundsBlind(k: Kernel, target: string, body: seq<Stmt>, names: NameTable, mem: Memory, i: int,
          step: int, count: nat)
    decreases count
  {
    count == 0 ||
    (var next := RunStmts(k, body, names, mem);
     && RunStmts(k, body, names[target := Num(i)], mem) == next
     && (next.Success? ==> RoundsBlind(k, target, body, next.value.0, next.value.1, i + step, step, count - 1)))
  }

  lemma {:induction false} BlindRoundsRepeat(k: Kernel, target: string, body: seq<Stmt>, names: NameTable, mem: Memory,
          i: int, step: int, count: nat)
    requires RoundsBlind(k, target, body, names, mem, i, step, count)
    ensures RunLoop(k, target, body, names, mem, i, step, count) == Repeat(k, body, names, mem, count)
    decreases count
  {
    hide RunStmts;
    if count > 0 {
      var next := RunStmts(k, body, names, mem);
      if next.Success? {
        BlindRoundsRepeat(k, target, body, next.value.0, next.value.1, i + step, step, count - 1);
      }
    }
  }

  // ----- the `else` of a loop -----

  function WithoutElse(s: Stmt): Stmt
    requires s.ForRange?
  {
    ForRange(s.target, s.bounds, s.body, [])
  }

  /** The `else` of a loop is dropped: where the loop itself keeps its meaning, the whole
      statement does exactly if running the `else` after it does not fail and changes neither
      the memory nor a name in scope. */
  lemma {:induction false} LoopElseExact(k: Kernel, s: Stmt, names: NameTable, scoped: NameTable, mem: Memory)
    requires s.ForRange? && SameAnswer(RunStmt(k, WithoutElse(s), names, mem), ScopedStmt(k, s, scoped, mem))
    ensures var looped := RunStmt(k, WithoutElse(s), names, mem);
            SameAnswer(RunStmt(k, s, names, mem), ScopedStmt(k, s, scoped, mem)) <==>
              looped.Success? ==>
                var finished := RunStmts(k, s.orelse, looped.value.0, looped.value.1);
                && finished.Success? && finished.value.1 == looped.value.1
                && forall x :: x in ScopedStmt(k, s, scoped, mem).value.0 ==>
                    x in finished.value.0 && finished.value.0[x] == looped.value.0[x]
  {
    hide ScopedStmt, EvalExprs, RunLoop;
    ElseAfterLoop(k, s, names, mem);
  }

  lemma {:induction false} ElseAfterLoop(k: Kernel, s: Stmt, names: NameTable, mem: Memory)
    requires s.ForRange?
    ensures var looped := RunStmt(k, WithoutElse(s), names, mem);
            if looped.Failure? then RunStmt(k, s, names, mem).Failure?
            else RunStmt(k, s, names, mem) == RunStmts(k, s.orelse, looped.value.0, looped.value.1)
  {
    hide RangeOf, RunLoop;
    var range := RangeOf(k, s.bounds, names, mem);
    if range.Success? {
      var (start, stop, step) := range.value;
      var done := RunLoop(k, s.target, s.body, names, mem, start, step, RangeLength(start, stop, step));
      if done.Success? {
        NothingMore(k, done.value.0, done.value.1);
      }
    }
  }

  // ----- a shape symbol that is bound only inside a region -----

  lemma {:induction false} RunThen(k: Kernel, prefix: seq<Stmt>, last: Stmt, names: NameTable, mem: Memory)
    ensures RunStmts(k, prefix + [last], names, mem) ==
            (var r := RunStmts(k, prefix, names, mem);
             if r.Failure? then r else RunStmt(k, last, r.value.0, r.value.1))
    ensures ScopedStmts(k, prefix + [last], names, mem) ==
            (var s := ScopedStmts(k, prefix, names, mem);
             if s.Failure? then s else ScopedStmt(k, last, s.value.0, s.value.1))
    decreases |prefix|
  {
    hide RunStmt, ScopedStmt;
    var all := prefix + [last];
    if prefix == [] {
      assert all == [last] && all[1..] == [];
    } else {
      assert all[0] == prefix[0] && all[1..] == prefix[1..] + [last];
      var r, s := RunStmt(k, prefix[0], names, mem), ScopedStmt(k, prefix[0], names, mem);
      if r.Success? {
        RunThen(k, prefix[1..], last, r.value.0, r.value.1);
      }
      if s.Success? {
        RunThen(k, prefix[1..], last, s.value.0, s.value.1);
      }
    }
  }

  lemma {:induction false} PrefixLowers(b: Builder, prefix: seq<Stmt>, last: Stmt, env: Bindings, st: State)
    requires LowerStmts(b, prefix + [last], env, st).Success?
    ensures LowerStmts(b, prefix, env, st).Success?
    decreases |prefix|
  {
    hide LowerStmt;
    if prefix != [] {
      var all := prefix + [last];
      assert all[0] == prefix[0] && all[1..] == prefix[1..] + [last];
      var first := LowerStmt(b, prefix[0], env, st).value;
      PrefixLowers(b, prefix[1..], last, first.env, first.st);
    }
  }

  /** A kernel that reads a shape symbol after regions that may have bound its name: up to there
      the body reads no stale name and leaves none in scope, then it binds `y` to the symbol's
      name `x`, which is not in scope. Lowering preserves the meaning of the whole exactly if
      the direct run fails before the read, left `x` unbound, or left it with the symbol's value. */
  lemma {:induction false} ShadowedSymbolExact(k: Kernel, b: Builder, prefix: seq<Stmt>, x: string, y: string,
          mem: Memory)
    requires var body := prefix + [Assign(y, Name(x))];
             && Matches(k, b) && LowerKernel(b, body).Success? && VerifyProgram(LowerKernel(b, body).value).Success?
             && ProgramSymbols(LowerKernel(b, body).value) + k.params <= k.entry.Keys
    requires RegularAll(prefix, k.params, {}, KindsOf(k))
    requires LeftAll(prefix, k.params, {}, KindsOf(k)) !! BoundAfter(prefix, k.params, k.params)
    requires x in k.symbols && x !in BoundAfter(prefix, k.params, k.params) && y !in k.params
    ensures Preserved(k, b, prefix + [Assign(y, Name(x))], mem) <==>
              match RunStmts(k, prefix, Arguments(k), mem)
              case Failure(_) => true
              case Success(done) => x !in done.0 || done.0[x] == k.entry[x]
  {
    hide Matches, LowerStmts, RunStmts, ScopedStmts, RegularAll, LeftAll, VerifyProgram, BoundAfter, Preserved, Agree,
        LowerKernel, ProgramSymbols, KindsOf;
    var read := Assign(y, Name(x));
    var body := prefix + [read];
    SymbolGiven(k, b, body, x);
    PreservedExactly(k, b, body, mem);
    PrefixAgrees(k, b, prefix, read, mem);
    RunThen(k, prefix, read, Arguments(k), mem);
    var r, s := RunStmts(k, prefix, Arguments(k), mem), ScopedStmts(k, prefix, Arguments(k), mem);
    if r.Success? {
      var done, inner := r.value.0, s.value.0;
      AllAgree(k, LeftAll(prefix, k.params, {}, KindsOf(k)), done, inner);
      assert EvalExpr(k, Name(x), inner, s.value.1) == Success(k.entry[x]);
      var direct := if x in done then done[x] else k.entry[x];
      assert RunStmt(k, read, done, r.value.1) == Success((done[y := direct], r.value.1));
      assert ScopedStmt(k, read, inner, s.value.1) == Success((inner[y := k.entry[x]], s.value.1));
      assert inner[y := k.entry[x]][y] == k.entry[x] && done[y := direct][y] == direct;
    }
  }

  lemma {:induction false} SymbolGiven(k: Kernel, b: Builder, body: seq<Stmt>, x: string)
    requires Matches(k, b) && LowerKernel(b, body).Success? && x in k.symbols
    requires ProgramSymbols(LowerKernel(b, body).value) + k.params <= k.entry.Keys
    ensures x in k.entry
  {
    hide LowerStmts;
    assert x in LowerKernel(b, body).value.symbols;
  }

  lemma {:induction false} PrefixAgrees(k: Kernel, b: Builder, prefix: seq<Stmt>, last: Stmt, mem: Memory)
    requires Matches(k, b) && LowerKernel(b, prefix + [last]).Success? && k.params <= k.entry.Keys
    requires RegularAll(prefix, k.params, {}, KindsOf(k))
    ensures SameOutcome(k, LeftAll(prefix, k.params, {}, KindsOf(k)), RunStmts(k, prefix, Arguments(k), mem),
        ScopedStmts(k, prefix, Arguments(k), mem), BoundAfter(prefix, k.params, k.params))
  {
    hide LowerStmts, RegularAll, LeftAll, RunStmts, ScopedStmts, Agree, BoundAfter;
    var (env, st) := EntryState(b, b.params, State(map[], [], 0), map[]);
    PrefixLowers(b, prefix, last, env, st);
    BodyAgrees(k, b, prefix, mem);
  }
}
