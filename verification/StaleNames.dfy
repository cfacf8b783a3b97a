/** Which names may hold different values in a direct run of a kernel body and in the run
    with the scopes of the lowering, and which bodies never read such a name. */
module StaleNames {
  import opened Wrappers
  import opened Interpreter
  import opened Scoping
  import opened Frontend
  import opened Lowering

  ghost function Reads(e: Expr): set<string>
    decreases e, 0
  {
    match e
    case Literal(_) => {}
    case Name(id) => {id}
    case Apply(_, args) => ReadsAll(args)
  }

  ghost function ReadsAll(es: seq<Expr>): set<string>
    decreases es, 0
  {
    if es == [] then {} else Reads(es[0]) + ReadsAll(es[1..])
  }

  /** The loop targets of a statement, nested ones included. */
  ghost function Targets(s: Stmt): set<string>
    decreases s, 0
  {
    match s
    case ForRange(target, _, body, orelse) => {target} + TargetsAll(body) + TargetsAll(orelse)
    case IfElse(_, body, orelse) => TargetsAll(body) + TargetsAll(orelse)
    case _ => {}
  }

  ghost function TargetsAll(stmts: seq<Stmt>): set<string>
    decreases stmts, 0
  {
    if stmts == [] then {} else Targets(stmts[0]) + TargetsAll(stmts[1..])
  }

  /** What a kernel's names are: parameters, whose assignment stores, and shape symbols. */
  datatype Kinds = Kinds(params: set<string>, symbols: set<string>)

  /** The body of a loop assigns its target, which is bound outside: lowering carries it. */
  ghost predicate CarriesTarget(target: string, body: seq<Stmt>, bound: set<string>) {
    target in bound && target in TouchesAll(body)
  }

  /** The names that may be stale before any round of a loop, but for its target: those of
      before, outer targets of inner loops, and shape symbols touched in the body only. */
  ghost function Unsettled(target: string, body: seq<Stmt>, bound: set<string>, stale: set<string>,
          kinds: Kinds): set<string> {
    stale + TargetsAll(body) * (bound + kinds.symbols) + (TouchesAll(body) - bound) * kinds.symbols
    + {target} * (kinds.symbols - bound)
  }

  /** The names that may be stale where a round starts: both runs set the target, unless it is carried. */
  ghost function AtEntry(target: string, body: seq<Stmt>, bound: set<string>, head: set<string>): set<string> {
    if CarriesTarget(target, body, bound) then head + {target} else head - {target}
  }

  /** The names that may be stale after a statement; `bound` are those in scope before it. */
  ghost function Left(s: Stmt, bound: set<string>, stale: set<string>, kinds: Kinds): set<string>
    decreases s, 0
  {
    match s
    case ForRange(target, _, body, _) =>
      var head := Unsettled(target, body, bound, stale, kinds);
      var last := LeftAll(body, bound + {target}, AtEntry(target, body, bound, head), kinds);
      if target in bound && (target !in TouchesAll(body) || target in last) then head + {target} else head
    case IfElse(_, body, orelse) =>
      (LeftAll(body, bound, stale, kinds) + LeftAll(orelse, bound, stale, kinds)) * (bound + kinds.symbols)
      + ((TouchesAll(body) + TouchesAll(orelse)) - bound) * kinds.symbols
    case _ => stale - Binds(s, kinds.params)
  }

  ghost function LeftAll(stmts: seq<Stmt>, bound: set<string>, stale: set<string>, kinds: Kinds): set<string>
    decreases stmts, 0
  {
    if stmts == [] then stale
    else LeftAll(stmts[1..], bound + Binds(stmts[0], kinds.params), Left(stmts[0], bound, stale, kinds), kinds)
  }

  ghost function BoundAfter(stmts: seq<Stmt>, bound: set<string>, params: set<string>): set<string>
    decreases |stmts|
  {
    if stmts == [] then bound else BoundAfter(stmts[1..], bound + Binds(stmts[0], params), params)
  }

  /** No loop has an `else`, and no name is read where it may be stale. */
  ghost predicate Regular(s: Stmt, bound: set<string>, stale: set<string>, kinds: Kinds)
    decreases s, 0
  {
    match s
    case Assign(_, value) => Reads(value) !! stale
    case AssignAt(target, value, indices) => Reads(value) + {target} + ReadsAll(indices) !! stale
    case AugAssign(target, _, value) => {target} + Reads(value) !! stale
    case ForRange(target, bounds, body, orelse) =>
      && orelse == [] && ReadsAll(bounds) !! stale
      && RegularAll(body, bound + {target},
          AtEntry(target, body, bound, Unsettled(target, body, bound, stale, kinds)), kinds)
    case IfElse(test, body, orelse) =>
      && Reads(test) !! stale && RegularAll(body, bound, stale, kinds) && RegularAll(orelse, bound, stale, kinds)
    case Evaluate(value) => Reads(value) !! stale
    case Pass => true
  }

  ghost predicate RegularAll(stmts: seq<Stmt>, bound: set<string>, stale: set<string>, kinds: Kinds)
    decreases stmts, 0
  {
    stmts == [] ||
    (Regular(stmts[0], bound, stale, kinds)
     && RegularAll(stmts[1..], bound + Binds(stmts[0], kinds.params), Left(stmts[0], bound, stale, kinds), kinds))
  }

  // ----- what the analysis keeps -----

  /** Only targets of loops, and symbols touched where they are not bound, become stale. */
  lemma {:induction false} LeftWithin(s: Stmt, bound: set<string>, stale: set<string>, kinds: Kinds)
    ensures Left(s, bound, stale, kinds) <= stale + Targets(s) + (Touches(s) - bound) * kinds.symbols
    decreases s, 0
  {
    match s {
      case IfElse(_, body, orelse) =>
        LeftAllWithin(body, bound, stale, kinds);
        LeftAllWithin(orelse, bound, stale, kinds);
      case _ =>
    }
  }

  lemma {:induction false} LeftAllWithin(stmts: seq<Stmt>, bound: set<string>, stale: set<string>, kinds: Kinds)
    ensures LeftAll(stmts, bound, stale, kinds) <=
        stale + TargetsAll(stmts) + (TouchesAll(stmts) - bound) * kinds.symbols
    decreases stmts, 0
  {
    hide Left;
    if stmts != [] {
      LeftWithin(stmts[0], bound, stale, kinds);
      LeftAllWithin(stmts[1..], bound + Binds(stmts[0], kinds.params), Left(stmts[0], bound, stale, kinds), kinds);
    }
  }

  /** A stale name in scope, or a stale symbol, stays so until it is touched. */
  lemma {:induction false} StaysStale(x: string, s: Stmt, bound: set<string>, stale: set<string>, kinds: Kinds)
    requires x in stale && x in bound + kinds.symbols && x !in Touches(s)
    ensures x in Left(s, bound, stale, kinds)
    decreases s, 0
  {
    match s {
      case IfElse(_, body, orelse) => AllStayStale(x, body, bound, stale, kinds);
      case _ =>
    }
  }

  lemma {:induction false} AllStayStale(x: string, stmts: seq<Stmt>, bound: set<string>, stale: set<string>,
          kinds: Kinds)
    requires x in stale && x in bound + kinds.symbols && x !in TouchesAll(stmts)
    ensures x in LeftAll(stmts, bound, stale, kinds)
    decreases stmts, 0
  {
    hide Left, Touches;
    if stmts != [] {
      StaysStale(x, stmts[0], bound, stale, kinds);
      AllStayStale(x, stmts[1..], bound + Binds(stmts[0], kinds.params), Left(stmts[0], bound, stale, kinds), kinds);
    }
  }

  /** What a loop leaves is what every round may start with. */
  lemma {:induction false} RoundSettles(target: string, bounds: seq<Expr>, body: seq<Stmt>, orelse: seq<Stmt>,
          bound: set<string>, stale: set<string>, kinds: Kinds)
    returns (head: set<string>, entry: set<string>, last: set<string>)
    ensures head == Left(ForRange(target, bounds, body, orelse), bound, stale, kinds) && stale <= head
    ensures entry == AtEntry(target, body, bound, head)
    ensures entry == AtEntry(target, body, bound, Unsettled(target, body, bound, stale, kinds))
    ensures last == LeftAll(body, bound + {target}, entry, kinds)
    ensures Settled(target, body, bound, head, last, kinds)
  {
    var before := Unsettled(target, body, bound, stale, kinds);
    head := Left(ForRange(target, bounds, body, orelse), bound, stale, kinds);
    entry := AtEntry(target, body, bound, before);
    last := LeftAll(body, bound + {target}, entry, kinds);
    LeftAllWithin(body, bound + {target}, entry, kinds);
  }

  /** A round that starts with `head` ends with no more of it stale. */
  ghost predicate Settled(target: string, body: seq<Stmt>, bound: set<string>, head: set<string>, last: set<string>,
          kinds: Kinds) {
    && last * bound * TouchesAll(body) <= head
    && (TouchesAll(body) - bound) * kinds.symbols <= head
    && (target in kinds.symbols - bound ==> target in head)
    && (target in bound && target !in TouchesAll(body) ==> target in head)
  }

  // ----- bodies in which nothing ever goes stale -----

  /** Loop targets are new and no shape symbols, loops have no `else`, and names bound only
      inside a region are no shape symbols. */
  ghost predicate Plain(s: Stmt, bound: set<string>, kinds: Kinds)
    decreases s, 0
  {
    match s
    case ForRange(target, _, body, orelse) =>
      && target !in bound + kinds.symbols && orelse == [] && (TouchesAll(body) - bound) !! kinds.symbols
      && PlainAll(body, bound + {target}, kinds)
    case IfElse(_, body, orelse) =>
      && ((TouchesAll(body) + TouchesAll(orelse)) - bound) !! kinds.symbols
      && PlainAll(body, bound, kinds) && PlainAll(orelse, bound, kinds)
    case _ => true
  }

  ghost predicate PlainAll(stmts: seq<Stmt>, bound: set<string>, kinds: Kinds)
    decreases stmts, 0
  {
    stmts == [] || (Plain(stmts[0], bound, kinds) && PlainAll(stmts[1..], bound + Binds(stmts[0], kinds.params), kinds))
  }

  lemma {:induction false} PlainTargets(s: Stmt, bound: set<string>, kinds: Kinds)
    requires Plain(s, bound, kinds)
    ensures Targets(s) !! bound + kinds.symbols
    decreases s, 0
  {
    match s {
      case ForRange(target, _, body, orelse) => PlainAllTargets(body, bound + {target}, kinds);
      case IfElse(_, body, orelse) =>
        PlainAllTargets(body, bound, kinds);
        PlainAllTargets(orelse, bound, kinds);
      case _ =>
    }
  }

  lemma {:induction false} PlainAllTargets(stmts: seq<Stmt>, bound: set<string>, kinds: Kinds)
    requires PlainAll(stmts, bound, kinds)
    ensures TargetsAll(stmts) !! bound + kinds.symbols
    decreases stmts, 0
  {
    hide Plain, Targets;
    if stmts != [] {
      PlainTargets(stmts[0], bound, kinds);
      PlainAllTargets(stmts[1..], bound + Binds(stmts[0], kinds.params), kinds);
    }
  }

  lemma {:induction false} PlainIsRegular(s: Stmt, bound: set<string>, kinds: Kinds)
    requires Plain(s, bound, kinds)
    ensures Regular(s, bound, {}, kinds) && Left(s, bound, {}, kinds) == {}
    decreases s, 0
  {
    match s {
      case ForRange(target, _, body, orelse) =>
        PlainAllTargets(body, bound + {target}, kinds);
        PlainAllRegular(body, bound + {target}, kinds);
        hide RegularAll, LeftAll, PlainAll, TargetsAll, TouchesAll;
        assert Unsettled(target, body, bound, {}, kinds) == {};
        assert AtEntry(target, body, bound, {}) == {};
      case IfElse(_, body, orelse) =>
        PlainAllRegular(body, bound, kinds);
        PlainAllRegular(orelse, bound, kinds);
      case _ =>
    }
  }

  lemma {:induction false} PlainAllRegular(stmts: seq<Stmt>, bound: set<string>, kinds: Kinds)
    requires PlainAll(stmts, bound, kinds)
    ensures RegularAll(stmts, bound, {}, kinds) && LeftAll(stmts, bound, {}, kinds) == {}
    decreases stmts, 0
  {
    hide Plain, Regular, Left;
    if stmts != [] {
      PlainIsRegular(stmts[0], bound, kinds);
      PlainAllRegular(stmts[1..], bound + Binds(stmts[0], kinds.params), kinds);
    }
  }
}
