/** The interpreter with provenance: every value carries the events that produced it, and
    every event records the tags of what it read. Erasing the tags gives the interpreter
    back, and the recorded tags are exactly the links that a slice should have. */
module TaggedRun {
  import opened Wrappers
  import opened Ssa
  import opened Interpreter
  import opened Scoping
  import opened Slicing
  import opened SlicingCorrect
  import opened SliceTheorem
  import opened BackwardSlice

  // ----- tagged values -----

  datatype Tagged = Tagged(val: Val, from: set<nat>)

  type TaggedEnv = map<string, Tagged>

  function Erase(env: TaggedEnv): Env {
    map name | name in env :: env[name].val
  }

  function Vals(values: seq<Tagged>): (r: seq<Val>)
    ensures |r| == |values| && forall i :: 0 <= i < |values| ==> r[i] == values[i].val
  {
    seq(|values|, i requires 0 <= i < |values| => values[i].val)
  }

  function TagsOf(values: seq<Tagged>): set<nat> {
    if values == [] then {} else values[0].from + TagsOf(values[1..])
  }

  /** An event puts its own index on whatever it hands out. */
  function Stamp(values: seq<Val>, event: nat): (r: seq<Tagged>)
    ensures |r| == |values| && forall i :: 0 <= i < |values| ==> r[i] == Tagged(values[i], {event})
  {
    seq(|values|, i requires 0 <= i < |values| => Tagged(values[i], {event}))
  }

  function TagLookup(names: seq<string>, env: TaggedEnv): (r: Outcome<seq<Tagged>>)
    ensures r.Success? ==> |r.value| == |names| && forall i :: 0 <= i < |names| ==>
        names[i] in env && r.value[i] == env[names[i]]
  {
    if names == [] then Success([])
    else if names[0] !in env then Failure(MissingName)
    else
      var rest :- TagLookup(names[1..], env);
      Success([env[names[0]]] + rest)
  }

  function TagBind(values: seq<Value>, vals: seq<Tagged>, env: TaggedEnv): TaggedEnv
    decreases |values|
  {
    if values == [] || vals == [] then env else TagBind(values[1..], vals[1..], env[values[0].name := vals[0]])
  }

  // ----- the tagged interpreter -----

  /** What an operation hands out, and the tags that its events read: those of its regions,
      then its own. */
  datatype Step = Step(values: seq<Tagged>, mem: Memory, links: seq<set<nat>>)

  /** The end of a sequence of operations; `ended` is the event of its yield. */
  datatype Trail = Trail(yielded: seq<Tagged>, env: TaggedEnv, mem: Memory, links: seq<set<nat>>, ended: Option<nat>)

  /** The end of a loop; `ended` is the last yield of its rounds. */
  datatype Rounds = Rounds(carried: seq<Tagged>, mem: Memory, links: seq<set<nat>>, ended: Option<nat>)

  function EventOf(ended: Option<nat>): set<nat> {
    if ended.Some? then {ended.value} else {}
  }

  /** The step of an operation whose regions recorded `inner`, from event `n` on. */
  function Finished(values: seq<Val>, mem: Memory, inner: seq<set<nat>>, own: set<nat>, n: nat): Step {
    Step(Stamp(values, n + |inner|), mem, inner + [own])
  }

  /** `control` is what decided that the operation runs; `n` the index of its first event. */
  function TagOperation(op: Operation, env: TaggedEnv, mem: Memory, ctx: Context, control: set<nat>,
          n: nat): Outcome<Step>
    decreases op, 0
  {
    var args :- TagLookup(op.operands, env);
    var vals, read := Vals(args), TagsOf(args) + control;
    match op.opcode
    case For =>
      if |args| < 3 || |op.regions| == 0 then Failure(RuntimeFault)
      else
        var start :- ScalarOf(vals[0], ctx, mem);
        var stop :- ScalarOf(vals[1], ctx, mem);
        var step :- ScalarOf(vals[2], ctx, mem);
        if step == 0 then Failure(RuntimeFault)
        else
          var bounds := TagsOf(args[..3]);
          var looped :- TagLoop(op.regions[0], env, mem, ctx, control + bounds, args[3..], bounds, start, step,
              RangeLength(start, stop, step), n, None);
          var values :- RegionResults(op, Vals(looped.carried));
          Success(Finished(values, looped.mem, looped.links, read + EventOf(looped.ended), n))
    case If =>
      if |args| == 0 then Failure(RuntimeFault)
      else
        var condition :- ScalarOf(vals[0], ctx, mem);
        var index := if condition != 0 then 0 else 1;
        if index < |op.regions| then
          var done :- TagOperations(op.regions[index].operations, env, mem, ctx, control + TagsOf(args[..1]), n);
          var values :- RegionResults(op, Vals(done.yielded));
          Success(Finished(values, done.mem, done.links, read + EventOf(done.ended), n))
        else
          var values :- RegionResults(op, []);
          Success(Finished(values, mem, [], read, n))
    case Store =>
      if |args| < 2 || op.results != [] then Failure(RuntimeFault)
      else
        var indices :- TagLookup(op.attrs.indices, env);
        var after :- StoreOperation(op, vals, Vals(indices), ctx, mem);
        Success(Finished([], after, [], read + TagsOf(indices), n))
    case _ =>
      var value :- Compute(op, vals, ctx, mem);
      if |op.results| == 0 then Success(Finished([], mem, [], read, n))
      else if |op.results| == 1 then Success(Finished([value], mem, [], read, n))
      else Failure(RuntimeFault)
  }

  /** An induction value comes from the bounds, a carried one from where it was handed on. */
  function TagLoop(region: Block, env: TaggedEnv, mem: Memory, ctx: Context, control: set<nat>, carried: seq<Tagged>,
          bounds: set<nat>, i: int, step: int, count: nat, n: nat, ended: Option<nat>): Outcome<Rounds>
    decreases region, count
  {
    if count == 0 then Success(Rounds(carried, mem, [], ended))
    else
      var local := TagBind(region.args, [Tagged(Num(i), bounds)] + carried, env);
      var done :- TagOperations(region.operations, local, mem, ctx, control, n);
      var rest :- TagLoop(region, env, done.mem, ctx, control, done.yielded, bounds, i + step, step, count - 1,
          n + |done.links|, done.ended);
      Success(rest.(links := done.links + rest.links))
  }

  function TagOperations(ops: seq<Operation>, env: TaggedEnv, mem: Memory, ctx: Context, control: set<nat>,
          n: nat): Outcome<Trail>
    decreases ops, 0
  {
    if ops == [] then Success(Trail([], env, mem, [], None))
    else if ops[0].opcode.Yield? then
      var values :- TagLookup(ops[0].operands, env);
      Success(Trail(Stamp(Vals(values), n), env, mem, [TagsOf(values) + control], Some(n)))
    else
      var done :- TagOperation(ops[0], env, mem, ctx, control, n);
      var rest :- TagOperations(ops[1..], TagBind(ops[0].results, done.values, env), done.mem, ctx, control,
          n + |done.links|);
      Success(rest.(links := done.links + rest.links))
  }

  // ----- erasing the tags -----

  lemma {:induction false} LookupErased(names: seq<string>, env: TaggedEnv)
    ensures match TagLookup(names, env)
            case Success(values) => Lookup(names, Erase(env)) == Success(Vals(values))
            case Failure(fault) => Lookup(names, Erase(env)) == Failure(fault)
    decreases |names|
  {
    if names != [] && names[0] in env {
      LookupErased(names[1..], env);
      if TagLookup(names[1..], env).Success? {
        var rest := TagLookup(names[1..], env).value;
        assert Vals([env[names[0]]] + rest) == [env[names[0]].val] + Vals(rest);
      }
    }
  }

  lemma {:induction false} BindErased(values: seq<Value>, vals: seq<Tagged>, env: TaggedEnv)
    ensures Erase(TagBind(values, vals, env)) == BindValues(values, Vals(vals), Erase(env))
    decreases |values|
  {
    hide NameSet;
    if values != [] && vals != [] {
      hide Vals;
      BindErased(values[1..], vals[1..], env[values[0].name := vals[0]]);
      assert Erase(env[values[0].name := vals[0]]) == Erase(env)[values[0].name := vals[0].val];
      assert Vals(vals)[1..] == Vals(vals[1..]);
    }
  }

  ghost predicate StepErased(r: Outcome<Step>, e: Outcome<(seq<Val>, Memory)>) {
    match r
    case Success(done) => e == Success((Vals(done.values), done.mem)) && done.links != []
    case Failure(fault) => e == Failure(fault)
  }

  ghost predicate TrailErased(r: Outcome<Trail>, e: Outcome<Finish>) {
    match r
    case Success(done) => e == Success(Finish(Vals(done.yielded), Erase(done.env), done.mem))
    case Failure(fault) => e == Failure(fault)
  }

  ghost predicate RoundsErased(r: Outcome<Rounds>, e: Outcome<(seq<Val>, Memory)>) {
    match r
    case Success(done) => e == Success((Vals(done.carried), done.mem))
    case Failure(fault) => e == Failure(fault)
  }

  lemma {:induction false} StampErased(values: seq<Val>, mem: Memory, inner: seq<set<nat>>, own: set<nat>, n: nat)
    ensures StepErased(Success(Finished(values, mem, inner, own, n)), Success((values, mem)))
  {
    assert Vals(Stamp(values, n + |inner|)) == values;
  }

  lemma {:induction false} OperationErased(op: Operation, env: TaggedEnv, mem: Memory, ctx: Context, control: set<nat>,
          n: nat)
    ensures StepErased(TagOperation(op, env, mem, ctx, control, n), ExecOperation(op, Erase(env), mem, ctx))
    decreases op, 1
  {
    LookupErased(op.operands, env);
    match op.opcode {
      case For => ForErased(op, env, mem, ctx, control, n);
      case If => IfErased(op, env, mem, ctx, control, n);
      case Store => StoreErased(op, env, mem, ctx, control, n);
      case _ =>
        hide Compute, StepErased;
        PlainErased(op, env, mem, ctx, control, n);
    }
  }

  lemma {:induction false} PlainErased(op: Operation, env: TaggedEnv, mem: Memory, ctx: Context, control: set<nat>,
          n: nat)
    requires !op.opcode.For? && !op.opcode.If? && !op.opcode.Store?
    ensures StepErased(TagOperation(op, env, mem, ctx, control, n), ExecOperation(op, Erase(env), mem, ctx))
  {
    LookupErased(op.operands, env);
    hide Compute, Lookup, TagLookup, Finished;
    var args := TagLookup(op.operands, env);
    if args.Success? {
      var value := Compute(op, Vals(args.value), ctx, mem);
      var read := TagsOf(args.value) + control;
      StampErased([], mem, [], read, n);
      if value.Success? {
        StampErased([value.value], mem, [], read, n);
      }
    }
  }

  lemma {:induction false} StoreErased(op: Operation, env: TaggedEnv, mem: Memory, ctx: Context, control: set<nat>,
          n: nat)
    requires op.opcode.Store?
    ensures StepErased(TagOperation(op, env, mem, ctx, control, n), ExecOperation(op, Erase(env), mem, ctx))
  {
    LookupErased(op.operands, env);
    LookupErased(op.attrs.indices, env);
    hide StoreOperation, Lookup, TagLookup, Finished;
    var args, indices := TagLookup(op.operands, env), TagLookup(op.attrs.indices, env);
    if args.Success? && |args.value| >= 2 && indices.Success? {
      var after := StoreOperation(op, Vals(args.value), Vals(indices.value), ctx, mem);
      if after.Success? {
        StampErased([], after.value, [], TagsOf(args.value) + control + TagsOf(indices.value), n);
      }
    }
  }

  lemma {:induction false} IfErased(op: Operation, env: TaggedEnv, mem: Memory, ctx: Context, control: set<nat>, n: nat)
    requires op.opcode.If?
    ensures StepErased(TagOperation(op, env, mem, ctx, control, n), ExecOperation(op, Erase(env), mem, ctx))
    decreases op, 0
  {
    LookupErased(op.operands, env);
    hide ExecOperations, TagOperations, Lookup, TagLookup, Finished, ScalarOf, RegionResults, StepErased;
    var args := TagLookup(op.operands, env);
    if args.Success? && |args.value| > 0 {
      var condition := ScalarOf(Vals(args.value)[0], ctx, mem);
      if condition.Success? {
        var index := if condition.value != 0 then 0 else 1;
        var read := TagsOf(args.value) + control;
        if index < |op.regions| {
          OperationsErased(op.regions[index].operations, env, mem, ctx, control + TagsOf(args.value[..1]), n);
          var done := TagOperations(op.regions[index].operations, env, mem, ctx, control + TagsOf(args.value[..1]), n);
          if done.Success? && RegionResults(op, Vals(done.value.yielded)).Success? {
            StampErased(RegionResults(op, Vals(done.value.yielded)).value, done.value.mem, done.value.links,
                read + EventOf(done.value.ended), n);
          } else {
            FailureErased(TagOperation(op, env, mem, ctx, control, n), ExecOperation(op, Erase(env), mem, ctx));
          }
        } else if RegionResults(op, []).Success? {
          StampErased(RegionResults(op, []).value, mem, [], read, n);
        } else {
          FailureErased(TagOperation(op, env, mem, ctx, control, n), ExecOperation(op, Erase(env), mem, ctx));
        }
      } else {
        FailureErased(TagOperation(op, env, mem, ctx, control, n), ExecOperation(op, Erase(env), mem, ctx));
      }
    } else {
      FailureErased(TagOperation(op, env, mem, ctx, control, n), ExecOperation(op, Erase(env), mem, ctx));
    }
  }

  lemma {:induction false} FailureErased(r: Outcome<Step>, e: Outcome<(seq<Val>, Memory)>)
    requires r.Failure? && e.Failure? && e.error == r.error
    ensures StepErased(r, e)
  {
  }

  lemma {:induction false} ForErased(op: Operation, env: TaggedEnv, mem: Memory, ctx: Context, control: set<nat>,
          n: nat)
    requires op.opcode.For?
    ensures StepErased(TagOperation(op, env, mem, ctx, control, n), ExecOperation(op, Erase(env), mem, ctx))
    decreases op, 0
  {
    LookupErased(op.operands, env);
    hide ExecLoop, TagLoop, Lookup, TagLookup, Finished, ScalarOf, RegionResults, StepErased, RangeLength;
    var args := TagLookup(op.operands, env);
    if args.Success? && |args.value| >= 3 && |op.regions| != 0 {
      var vals := Vals(args.value);
      var start, stop, step := ScalarOf(vals[0], ctx, mem), ScalarOf(vals[1], ctx, mem), ScalarOf(vals[2], ctx, mem);
      if start.Success? && stop.Success? && step.Success? && step.value != 0 {
        var bounds, count := TagsOf(args.value[..3]), RangeLength(start.value, stop.value, step.value);
        LoopErased(op.regions[0], env, mem, ctx, control + bounds, args.value[3..], bounds, start.value, step.value,
            count, n, None);
        assert Vals(args.value[3..]) == vals[3..];
        var looped := TagLoop(op.regions[0], env, mem, ctx, control + bounds, args.value[3..], bounds, start.value,
            step.value, count, n, None);
        if looped.Success? && RegionResults(op, Vals(looped.value.carried)).Success? {
          StampErased(RegionResults(op, Vals(looped.value.carried)).value, looped.value.mem, looped.value.links,
                      TagsOf(args.value) + control + EventOf(looped.value.ended), n);
        } else {
          FailureErased(TagOperation(op, env, mem, ctx, control, n), ExecOperation(op, Erase(env), mem, ctx));
        }
      } else {
        FailureErased(TagOperation(op, env, mem, ctx, control, n), ExecOperation(op, Erase(env), mem, ctx));
      }
    } else {
      FailureErased(TagOperation(op, env, mem, ctx, control, n), ExecOperation(op, Erase(env), mem, ctx));
    }
  }

  lemma {:induction false} LoopErased(region: Block, env: TaggedEnv, mem: Memory, ctx: Context, control: set<nat>,
          carried: seq<Tagged>, bounds: set<nat>, i: int, step: int, count: nat, n: nat, ended: Option<nat>)
    ensures RoundsErased(TagLoop(region, env, mem, ctx, control, carried, bounds, i, step, count, n, ended),
                         ExecLoop(region, Erase(env), mem, ctx, Vals(carried), i, step, count))
    decreases region, count
  {
    hide ExecOperations, TagOperations, TagBind, BindValues;
    if count > 0 {
      var first := [Tagged(Num(i), bounds)] + carried;
      var local := TagBind(region.args, first, env);
      BindErased(region.args, first, env);
      assert Vals(first) == [Num(i)] + Vals(carried);
      OperationsErased(region.operations, local, mem, ctx, control, n);
      var done := TagOperations(region.operations, local, mem, ctx, control, n);
      if done.Success? {
        LoopErased(region, env, done.value.mem, ctx, control, done.value.yielded, bounds, i + step, step, count - 1,
            n + |done.value.links|, done.value.ended);
      }
    }
  }

  /** Without its tags the tagged interpreter is the interpreter. */
  lemma {:induction false} OperationsErased(ops: seq<Operation>, env: TaggedEnv, mem: Memory, ctx: Context,
          control: set<nat>, n: nat)
    ensures TrailErased(TagOperations(ops, env, mem, ctx, control, n), ExecOperations(ops, Erase(env), mem, ctx))
    decreases ops, 0
  {
    hide TagOperation, ExecOperation, TagBind, BindValues, Lookup, TagLookup;
    if ops != [] {
      if ops[0].opcode.Yield? {
        LookupErased(ops[0].operands, env);
        var values := TagLookup(ops[0].operands, env);
        if values.Success? {
          assert Vals(Stamp(Vals(values.value), n)) == Vals(values.value);
        }
      } else {
        OperationErased(ops[0], env, mem, ctx, control, n);
        var done := TagOperation(ops[0], env, mem, ctx, control, n);
        if done.Success? {
          BindErased(ops[0].results, done.value.values, env);
          OperationsErased(ops[1..], TagBind(ops[0].results, done.value.values, env), done.value.mem, ctx, control,
              n + |done.value.links|);
        }
      }
    }
  }

  // ----- the tags are the links a slice should have -----

  /** The names in scope are bound, and tagged with where the slice says they come from. */
  ghost predicate Agree(p: Prov, env: TaggedEnv) {
    forall x :: x in p ==> x in env && p[x] == env[x].from
  }

  lemma {:induction false} AgreeErased(p: Prov, env: TaggedEnv)
    requires Agree(p, env)
    ensures p.Keys <= Erase(env).Keys
  {
  }

  lemma {:induction false} LookupTags(names: seq<string>, p: Prov, env: TaggedEnv)
    requires Agree(p, env) && forall name :: name in names ==> name in p
    ensures TagLookup(names, env).Success? && TagsOf(TagLookup(names, env).value) == ProvAll(p, names)
    decreases |names|
  {
    hide Agree;
    if names != [] {
      assert names[0] in p && names[0] in env && p[names[0]] == env[names[0]].from by {
        AgreeAt(p, env, names[0]);
      }
      LookupTags(names[1..], p, env);
      var rest := TagLookup(names[1..], env).value;
      assert ([env[names[0]]] + rest)[1..] == rest;
    }
  }

  lemma {:induction false} AgreeAt(p: Prov, env: TaggedEnv, x: string)
    requires Agree(p, env) && x in p
    ensures x in env && p[x] == env[x].from
  {
  }

  lemma {:induction false} ProvConcat(p: Prov, a: seq<string>, b: seq<string>)
    ensures ProvAll(p, a + b) == ProvAll(p, a) + ProvAll(p, b)
    decreases |a|
  {
    if a == [] {
      assert a + b == b;
    } else {
      assert (a + b)[0] == a[0] && (a + b)[1..] == a[1..] + b;
      ProvConcat(p, a[1..], b);
    }
  }

  lemma {:induction false} TagsPrefix(args: seq<Tagged>, names: seq<string>, env: TaggedEnv, p: Prov, k: nat)
    requires Agree(p, env) && (forall name :: name in names ==> name in p) && TagLookup(names, env) == Success(args)
    requires k <= |names|
    ensures TagsOf(args[..k]) == ProvAll(p, names[..k])
  {
    var first := names[..k];
    assert forall name :: name in first ==> name in names;
    LookupTags(first, p, env);
    assert TagLookup(first, env).value == args[..k];
  }

  /** Binding as many values as there are names. */
  lemma {:induction false} TagBindAt(values: seq<Value>, vals: seq<Tagged>, env: TaggedEnv, x: string)
    requires |vals| == |values| && DistinctNames(values)
    ensures x !in NameSet(values) ==>
        (x in TagBind(values, vals, env) <==> x in env) && (x in env ==> TagBind(values, vals, env)[x] == env[x])
    ensures x in NameSet(values) ==>
        x in TagBind(values, vals, env) && TagBind(values, vals, env)[x] == vals[PositionOf(values, x)]
    decreases |values|
  {
    if values != [] {
      var rest, bound := values[1..], env[values[0].name := vals[0]];
      assert values == [values[0]] + rest;
      assert NameSet(values) == {values[0].name} + NameSet(rest);
      HeadApart(values);
      TagBindAt(rest, vals[1..], bound, x);
    }
  }

  lemma {:induction false} HeadApart(values: seq<Value>)
    requires values != [] && DistinctNames(values)
    ensures values[0].name !in NameSet(values[1..]) && DistinctNames(values[1..])
  {
    forall v | v in values[1..]
      ensures v.name != values[0].name
    {
      var j :| 0 <= j < |values[1..]| && values[1..][j] == v;
      assert values[j + 1] == v;
    }
    forall i, j | 0 <= i < j < |values[1..]|
      ensures values[1..][i].name != values[1..][j].name
    {
      assert values[1..][i] == values[i + 1] && values[1..][j] == values[j + 1];
    }
  }

  /** The results of an event are its own in both views. */
  lemma {:induction false} ResultsAgree(p: Prov, env: TaggedEnv, results: seq<Value>, values: seq<Val>, at: nat)
    requires Agree(p, env) && |values| == |results| && DistinctNames(results)
    ensures Agree(Defined(p, results, at), TagBind(results, Stamp(values, at), env))
  {
    var q, bound := Defined(p, results, at), TagBind(results, Stamp(values, at), env);
    forall x | x in q
      ensures x in bound && q[x] == bound[x].from
    {
      TagBindAt(results, Stamp(values, at), env, x);
    }
  }

  /** The carried values that enter a round, by where they come from. */
  ghost predicate CarriedFrom(op: Operation, p: Prov, last: Option<nat>, carried: seq<Tagged>) {
    && op.regions != [] && |carried| + 1 == |op.regions[0].args| && |op.operands| == |op.regions[0].args| + 2
    && forall i :: 0 <= i < |carried| ==>
        carried[i].from == if last.Some? then {last.value} else ProvOf(p, op.operands[i + 3])
  }

  lemma {:induction false} RoundAgrees(op: Operation, p: Prov, env: TaggedEnv, last: Option<nat>, carried: seq<Tagged>,
          bounds: set<nat>, i: int)
    requires Agree(p, env) && CarriedFrom(op, p, last, carried) && DistinctNames(op.regions[0].args)
    requires bounds == ProvAll(p, Take(op.operands, 3))
    ensures Agree(RoundProv(p, op, last), TagBind(op.regions[0].args, [Tagged(Num(i), bounds)] + carried, env))
  {
    hide ProvAll, Take, ProvOf;
    var args, vals := op.regions[0].args, [Tagged(Num(i), bounds)] + carried;
    var q, local := RoundProv(p, op, last), TagBind(args, vals, env);
    forall x | x in q
      ensures x in local && q[x] == local[x].from
    {
      TagBindAt(args, vals, env, x);
      if x in NameSet(args) {
        var k := PositionOf(args, x);
        RoundProvAt(op, p, last, k);
        assert args[k].name == x;
        if k > 0 {
          assert vals[k] == carried[k - 1];
        }
      }
    }
  }

  /** What decided that a block runs has its tags in `control`. */
  ghost predicate Controlled(enclosing: seq<Parent>, p: Prov, control: set<nat>) {
    (forall name :: name in ControlNames(enclosing) ==> name in p) && ProvAll(p, ControlNames(enclosing)) == control
  }

  lemma {:induction false} StillControlled(enclosing: seq<Parent>, p: Prov, q: Prov, control: set<nat>)
    requires Controlled(enclosing, p, control) && p.Keys <= q.Keys && forall x :: x in p ==> q[x] == p[x]
    ensures Controlled(enclosing, q, control)
  {
    ProvSame(p, q, ControlNames(enclosing));
  }

  lemma {:induction false} ControlledInside(enclosing: seq<Parent>, parent: Parent, p: Prov, q: Prov, control: set<nat>,
          names: seq<string>)
    requires Controlled(enclosing, p, control) && p.Keys <= q.Keys && (forall x :: x in p ==> q[x] == p[x])
    requires names == (if parent.op.opcode.For? then Take(parent.op.operands, 3) else Take(parent.op.operands, 1))
    requires forall name :: name in names ==> name in p
    ensures Controlled(enclosing + [parent], q, control + ProvAll(p, names))
  {
    ControlSnoc(enclosing, parent);
    ProvSame(p, q, ControlNames(enclosing));
    ProvSame(p, q, names);
    ProvConcat(q, ControlNames(enclosing), names);
  }

  /** What the tagged run of a block says about the links of its trace. */
  ghost predicate TrailMatches(done: Trail, nodes: seq<Node>, b: Instance, index: nat, n: nat, p: Prov) {
    && Expected(nodes, b, index, n, p) == done.links && |EventsOf(nodes, b, index)| == |done.links|
    && (EndsYielded(nodes) ==> |done.links| > 0)
    && done.ended == (if EndsYielded(nodes) then Some(n + |done.links| - 1) else None)
  }

  ghost predicate StepMatches(done: Step, node: Node, b: Instance, index: nat, n: nat, p: Prov) {
    && |InnerEvents(node, b, index)| + 1 == |done.links|
    && InnerExpected(node, b, index, n, p) + [ExpectedLinks(node, b, n + |done.links| - 1, p)] == done.links
  }

  lemma {:induction false} OwnTags(node: Node, b: Instance, at: nat, p: Prov, control: set<nat>, read: set<nat>,
          ended: set<nat>)
    requires Controlled(b.enclosing, p, control) && read == ProvAll(p, References(node.op)) + control
    requires ended == if YieldedJustBefore(node) && at > 0 then {at - 1} else {}
    ensures ExpectedLinks(node, b, at, p) == read + ended
  {
    ProvConcat(p, References(node.op), ControlNames(b.enclosing));
  }

  lemma {:induction false} TrailJoins(ops: seq<Operation>, first: Step, rest: Trail, nodes: seq<Node>, node: Node,
          later: seq<Node>, b: Instance, index: nat, n: nat, p: Prov, q: Prov)
    requires nodes == [node] + later && !node.op.opcode.Yield? && StepMatches(first, node, b, index, n, p)
    requires q == Defined(p, node.op.results, n + |first.links| - 1)
    requires TrailMatches(rest, later, b, index + 1, n + |first.links|, q)
    ensures TrailMatches(rest.(links := first.links + rest.links), nodes, b, index, n, p)
  {
    hide Expected, EventsOf, ExpectedLinks, InnerExpected, InnerEvents, Defined;
    assert nodes[0] == node && nodes[1..] == later;
    EventsStep(nodes, b, index);
    ExpectedStep(nodes, b, index, n, p);
    EndsLater(nodes);
  }

  lemma {:induction false} YieldTags(op: Operation, values: seq<Tagged>, done: Trail, b: Instance, index: nat, n: nat,
          p: Prov, control: set<nat>)
    requires op.opcode.Yield? && Controlled(b.enclosing, p, control) && TagsOf(values) == ProvAll(p, op.operands)
    requires done.links == [TagsOf(values) + control] && done.ended == Some(n)
    ensures TrailMatches(done, [Simple(op)], b, index, n, p)
  {
    var nodes := [Simple(op)];
    assert nodes[1..] == [] && References(op) == op.operands;
    OwnTags(nodes[0], b, n, p, control, TagsOf(values) + control, {});
    assert ExpectedLinks(nodes[0], b, n, p) == TagsOf(values) + control;
    assert InnerEvents(nodes[0], b, index) == [] && InnerExpected(nodes[0], b, index, n, p) == [];
    assert EventsOf(nodes[1..], b, index + 1) == [];
    var q := Defined(p, op.results, n);
    assert Expected(nodes[1..], b, index + 1, n + 1, q) == [];
    hide ExpectedLinks, Defined;
    EventsStep(nodes, b, index);
    ExpectedStep(nodes, b, index, n, p);
    assert Expected(nodes, b, index, n, p) == [] + [ExpectedLinks(nodes[0], b, n, p)] + [];
    assert EventsOf(nodes, b, index) == [] + [Event(b.key, b.path + [index], op, b.iteration)] + [];
    assert nodes[|nodes| - 1] == Simple(op);
  }

  /** The facts about a block in which a tagged run is followed. */
  ghost predicate Tracked(ops: seq<Operation>, env: TaggedEnv, b: Instance, p: Prov, control: set<nat>) {
    ScopedOperations(ops, p.Keys) && Agree(p, env) && Controlled(b.enclosing, p, control)
  }

  /** The tags that a run records are the links of its trace, through any nesting. */
  lemma {:induction false} BlockTags(ops: seq<Operation>, env: TaggedEnv, mem: Memory, ctx: Context, control: set<nat>,
          n: nat, b: Instance, index: nat, p: Prov)
    requires Tracked(ops, env, b, p, control) && TagOperations(ops, env, mem, ctx, control, n).Success?
    ensures ExecOperations(ops, Erase(env), mem, ctx).Success?
    ensures TrailMatches(TagOperations(ops, env, mem, ctx, control, n).value, TreeOf(ops, Erase(env), mem, ctx), b,
        index, n, p)
    decreases ops, 0
  {
    OperationsErased(ops, env, mem, ctx, control, n);
    hide TagOperation, ExecOperation, NodeOf, TagBind, BindValues, Expected, EventsOf, ScopedOperation, TagLookup,
        Lookup, TrailMatches, StepMatches, Defined;
    if ops == [] {
      NothingTagged(TagOperations(ops, env, mem, ctx, control, n).value, b, index, n, p);
    } else {
      var op, e := ops[0], Erase(env);
      ReferencesVisible(op, p);
      if op.opcode.Yield? {
        LookupTags(op.operands, p, env);
        YieldTags(op, TagLookup(op.operands, env).value, TagOperations(ops, env, mem, ctx, control, n).value, b, index,
            n, p, control);
      } else {
        var done := TagOperation(op, env, mem, ctx, control, n).value;
        StepTags(op, env, mem, ctx, control, n, b, index, p);
        var bound := TagBind(op.results, done.values, env);
        BoundErased(op, env, mem, ctx, control, n, done, bound);
        var at: nat := n + |done.links| - 1;
        var q := Defined(p, op.results, at);
        NextTracked(ops, env, mem, ctx, control, n, b, p, done, at, q, bound);
        BlockTags(ops[1..], bound, done.mem, ctx, control, n + |done.links|, b, index + 1, q);
        var rest := TagOperations(ops[1..], bound, done.mem, ctx, control, n + |done.links|).value;
        TrailJoins(ops, done, rest, TreeOf(ops, e, mem, ctx), NodeOf(op, e, mem, ctx),
            TreeOf(ops[1..], Erase(bound), done.mem, ctx), b, index, n, p, q);
      }
    }
  }

  lemma {:induction false} NothingTagged(done: Trail, b: Instance, index: nat, n: nat, p: Prov)
    requires done.links == [] && done.ended == None
    ensures TrailMatches(done, [], b, index, n, p)
  {
  }

  lemma {:induction false} ReferencesVisible(op: Operation, p: Prov)
    requires ScopedOperation(op, p.Keys)
    ensures (forall name :: name in References(op) ==> name in p) && forall name :: name in op.operands ==> name in p
  {
    assert forall name :: name in op.operands ==> name in References(op);
  }

  lemma {:induction false} BoundErased(op: Operation, env: TaggedEnv, mem: Memory, ctx: Context, control: set<nat>,
          n: nat, done: Step, bound: TaggedEnv)
    requires TagOperation(op, env, mem, ctx, control, n) == Success(done)
    requires bound == TagBind(op.results, done.values, env)
    ensures ExecOperation(op, Erase(env), mem, ctx) == Success((Vals(done.values), done.mem))
    ensures Erase(bound) == BindValues(op.results, Vals(done.values), Erase(env))
    ensures NodeOf(op, Erase(env), mem, ctx).op == op && done.links != []
  {
    OperationErased(op, env, mem, ctx, control, n);
    BindErased(op.results, done.values, env);
    hide ExecOperation, TagOperation, TreeOf, RoundsOf;
  }

  lemma {:induction false} NextTracked(ops: seq<Operation>, env: TaggedEnv, mem: Memory, ctx: Context,
          control: set<nat>, n: nat, b: Instance, p: Prov, done: Step, at: nat, q: Prov, bound: TaggedEnv)
    requires Tracked(ops, env, b, p, control) && ops != [] && !ops[0].opcode.Yield?
    requires TagOperation(ops[0], env, mem, ctx, control, n) == Success(done)
    requires at == n + |done.links| - 1 && q == Defined(p, ops[0].results, at)
    requires bound == TagBind(ops[0].results, done.values, env)
    ensures Tracked(ops[1..], bound, b, q, control)
  {
    hide TagOperation, ExecOperation, Agree, TagBind;
    AgreeErased(p, env);
    OperationErased(ops[0], env, mem, ctx, control, n);
    OperationDelivers(ops[0], p.Keys, Erase(env), mem, ctx);
    StampedAt(ops[0], env, mem, ctx, control, n, done);
    ResultsAgree(p, env, ops[0].results, Vals(done.values), at);
    DefinedKeys(p, ops[0].results, at);
    StillControlled(b.enclosing, p, q, control);
  }

  /** An operation stamps its values with its own event, the last that it records. */
  lemma {:induction false} StampedAt(op: Operation, env: TaggedEnv, mem: Memory, ctx: Context, control: set<nat>,
          n: nat, done: Step)
    requires TagOperation(op, env, mem, ctx, control, n) == Success(done)
    ensures |done.links| > 0 && done.values == Stamp(Vals(done.values), n + |done.links| - 1)
  {
    hide TagLoop, TagOperations, TagLookup, Compute, StoreOperation, RegionResults, ScalarOf, Stamp, Finished, Vals,
        TagsOf, EventOf, RangeLength;
    assert exists values, m, inner, own :: done == Finished(values, m, inner, own, n);
    var values, m, inner, own :| done == Finished(values, m, inner, own, n);
    FinishedStamped(values, m, inner, own, n);
  }

  lemma {:induction false} FinishedStamped(values: seq<Val>, mem: Memory, inner: seq<set<nat>>, own: set<nat>, n: nat)
    ensures
      var done := Finished(values, mem, inner, own, n);
      |done.links| == |inner| + 1 && done.values == Stamp(Vals(done.values), n + |inner|)
  {
    var done := Finished(values, mem, inner, own, n);
    assert Vals(done.values) == values;
  }

  /** What a block yields is stamped with its yield. */
  lemma {:induction false} YieldStamped(ops: seq<Operation>, env: TaggedEnv, mem: Memory, ctx: Context,
          control: set<nat>, n: nat)
    requires TagOperations(ops, env, mem, ctx, control, n).Success?
    ensures var done := TagOperations(ops, env, mem, ctx, control, n).value;
            (forall i :: 0 <= i < |done.yielded| ==> done.yielded[i].from == EventOf(done.ended))
    decreases |ops|
  {
    hide TagOperation, TagBind;
    if ops != [] && !ops[0].opcode.Yield? {
      var done := TagOperation(ops[0], env, mem, ctx, control, n).value;
      YieldStamped(ops[1..], TagBind(ops[0].results, done.values, env), done.mem, ctx, control, n + |done.links|);
    }
  }

  ghost predicate RoundsMatch(done: Rounds, parent: Node, rounds: seq<Round>, b: Instance, index: nat, n: nat, p: Prov,
          last: Option<nat>, ended: Option<nat>)
    requires parent.Looped? && parent.op.regions != [] && forall i :: 0 <= i < |rounds| ==> rounds[i] < parent
  {
    && RoundExpected(parent, rounds, b, index, n, p, last) == done.links
    && |RoundEvents(parent, rounds, b, index)| == |done.links|
    && (rounds != [] ==> |done.links| > 0)
    && done.ended == (if rounds == [] then ended else Some(n + |done.links| - 1))
  }

  /** A loop about to run its remaining rounds. */
  ghost predicate LoopTracked(op: Operation, env: TaggedEnv, outer: set<nat>, carried: seq<Tagged>, bounds: set<nat>,
          b: Instance, p: Prov, last: Option<nat>) {
    && LoopShape(op, p.Keys) && Agree(p, env) && Controlled(b.enclosing, p, outer)
    && CarriedFrom(op, p, last, carried) && bounds == ProvAll(p, Take(op.operands, 3))
  }

  /** One round: its body is tracked, and ends in a yield. */
  lemma {:induction false} RoundTracked(op: Operation, env: TaggedEnv, outer: set<nat>, carried: seq<Tagged>,
          bounds: set<nat>, b: Instance, index: nat, p: Prov, last: Option<nat>, i: int, inner: Instance, q: Prov,
          local: TaggedEnv)
    requires LoopTracked(op, env, outer, carried, bounds, b, p, last) && inner == InLoop(b, index, op, i)
    requires q == RoundProv(p, op, last)
    requires local == TagBind(op.regions[0].args, [Tagged(Num(i), bounds)] + carried, env)
    ensures Tracked(op.regions[0].operations, local, inner, q, outer + bounds)
    ensures op.regions[0].operations != [] && op.regions[0].operations[|op.regions[0].operations| - 1].opcode.Yield?
    ensures |op.regions[0].operations[|op.regions[0].operations| - 1].operands| + 1 == |op.regions[0].args|
  {
    var region := op.regions[0];
    assert region in op.regions && ScopedBlock(region, p.Keys);
    ReferencesVisible(op, p);
    assert q.Keys == p.Keys + NameSet(region.args);
    RoundKeeps(op, p, last);
    assert forall name :: name in Take(op.operands, 3) ==> name in op.operands;
    hide ScopedOperations, RoundProv, TagBind, ProvAll, Agree, ControlNames;
    RoundAgrees(op, p, env, last, carried, bounds, i);
    ControlledInside(b.enclosing, Parent(b.path + [index], op, |b.iteration| + 1), p, q, outer, Take(op.operands, 3));
  }

  lemma {:induction false} NextCarried(op: Operation, local: TaggedEnv, mem: Memory, ctx: Context, control: set<nat>,
          n: nat, inner: Instance, p: Prov, q: Prov, last: Option<nat>, carried: seq<Tagged>, done: Trail, m: nat)
    requires op.regions != [] && Tracked(op.regions[0].operations, local, inner, q, control)
    requires CarriedFrom(op, p, last, carried)
    requires
      var ops := op.regions[0].operations;
      ops != [] && ops[|ops| - 1].opcode.Yield? && |ops[|ops| - 1].operands| + 1 == |op.regions[0].args|
    requires TagOperations(op.regions[0].operations, local, mem, ctx, control, n) == Success(done)
    requires done.ended == Some(m)
    ensures CarriedFrom(op, p, Some(m), done.yielded)
  {
    hide TagOperations, ExecOperations, ScopedOperations, Agree, Controlled;
    OperationsErased(op.regions[0].operations, local, mem, ctx, control, n);
    AgreeErased(q, local);
    OperationsRun(op.regions[0].operations, q.Keys, Erase(local), mem, ctx);
    YieldStamped(op.regions[0].operations, local, mem, ctx, control, n);
  }

  lemma {:induction false} LoopTags(parent: Node, op: Operation, rounds: seq<Round>, env: TaggedEnv, mem: Memory,
          ctx: Context, outer: set<nat>, carried: seq<Tagged>, bounds: set<nat>, i: int, step: int, count: nat, n: nat,
          ended: Option<nat>, b: Instance, index: nat, p: Prov, last: Option<nat>)
    requires LoopTracked(op, env, outer, carried, bounds, b, p, last)
    requires TagLoop(op.regions[0], env, mem, ctx, outer + bounds, carried, bounds, i, step, count, n, ended).Success?
    requires LoopRan(rounds, op.regions[0], Erase(env), mem, ctx, Vals(carried), i, step, count)
    requires parent.Looped? && parent.op == op && forall j :: 0 <= j < |rounds| ==> rounds[j] < parent
    ensures RoundsMatch(TagLoop(op.regions[0], env, mem, ctx, outer + bounds, carried, bounds, i, step, count, n,
        ended).value, parent, rounds, b, index, n, p, last, ended)
    decreases op, 0, count
  {
    hide TagOperations, ExecOperations, TagBind, RoundsMatch, LoopRan, RoundProv, Expected, EventsOf, TreeOf,
        BindValues, TrailMatches, Tracked;
    var control, region := outer + bounds, op.regions[0];
    if count == 0 {
      NoRoundsTagged(parent, op, rounds, env, mem, ctx, carried, i, step, b, index, n, p, last, ended);
    } else {
      var local := TagBind(region.args, [Tagged(Num(i), bounds)] + carried, env);
      var inner, q := InLoop(b, index, op, i), RoundProv(p, op, last);
      RoundTracked(op, env, outer, carried, bounds, b, index, p, last, i, inner, q, local);
      var done := TagOperations(region.operations, local, mem, ctx, control, n).value;
      BlockTags(region.operations, local, mem, ctx, control, n, inner, 0, q);
      var first, rest := RoundErased(op, rounds, env, mem, ctx, control, carried, bounds, i, step, count, n, local,
          done);
      var m := BodyEnds(op, local, mem, ctx, control, n, inner, q, done);
      NextCarried(op, local, mem, ctx, control, n, inner, p, q, last, carried, done, m);
      ShorterRounds(parent, rounds, first, rest);
      hide LoopTracked;
      StillTracked(op, env, outer, carried, bounds, b, p, last, done.yielded, m);
      LoopTags(parent, op, rest, env, done.mem, ctx, outer, done.yielded, bounds, i + step, step, count - 1,
          n + |done.links|, done.ended, b, index, p, Some(m));
      var later := TagLoop(region, env, done.mem, ctx, control, done.yielded, bounds, i + step, step, count - 1,
          n + |done.links|, done.ended).value;
      LoopJoins(parent, op, rounds, first, rest, done, later, b, index, n, p, last, ended, inner, q, m);
    }
  }

  lemma {:induction false} NoRoundsTagged(parent: Node, op: Operation, rounds: seq<Round>, env: TaggedEnv, mem: Memory,
          ctx: Context, carried: seq<Tagged>, i: int, step: int, b: Instance, index: nat, n: nat, p: Prov,
          last: Option<nat>, ended: Option<nat>)
    requires op.regions != [] && LoopRan(rounds, op.regions[0], Erase(env), mem, ctx, Vals(carried), i, step, 0)
    requires parent.Looped? && parent.op == op
    ensures rounds == [] && RoundsMatch(Rounds(carried, mem, [], ended), parent, rounds, b, index, n, p, last, ended)
  {
    NoneRan(rounds, op.regions[0], Erase(env), mem, ctx, Vals(carried), i, step);
  }

  lemma {:induction false} StillTracked(op: Operation, env: TaggedEnv, outer: set<nat>, carried: seq<Tagged>,
          bounds: set<nat>, b: Instance, p: Prov, last: Option<nat>, yielded: seq<Tagged>, m: nat)
    requires LoopTracked(op, env, outer, carried, bounds, b, p, last) && CarriedFrom(op, p, Some(m), yielded)
    ensures LoopTracked(op, env, outer, yielded, bounds, b, p, Some(m))
  {
  }

  /** The round that ran is the one of the plain interpreter. */
  lemma {:induction false} RoundErased(op: Operation, rounds: seq<Round>, env: TaggedEnv, mem: Memory, ctx: Context,
          control: set<nat>, carried: seq<Tagged>, bounds: set<nat>, i: int, step: int, count: nat, n: nat,
          local: TaggedEnv, done: Trail)
    returns (first: Round, rest: seq<Round>)
    requires op.regions != [] && count > 0
    requires LoopRan(rounds, op.regions[0], Erase(env), mem, ctx, Vals(carried), i, step, count)
    requires local == TagBind(op.regions[0].args, [Tagged(Num(i), bounds)] + carried, env)
    requires TagOperations(op.regions[0].operations, local, mem, ctx, control, n) == Success(done)
    ensures ExecOperations(op.regions[0].operations, Erase(local), mem, ctx).Success?
    ensures rounds == [first] + rest && first == Round(i, TreeOf(op.regions[0].operations, Erase(local), mem, ctx))
    ensures LoopRan(rest, op.regions[0], Erase(env), done.mem, ctx, Vals(done.yielded), i + step, step, count - 1)
  {
    hide ExecOperations, TagOperations, TreeOf, LoopRan, BindValues, TagBind;
    var plain: Env, finish: Finish;
    plain, finish, first, rest := LoopRanStep(rounds, op.regions[0], Erase(env), mem, ctx, Vals(carried), i, step,
        count);
    var entering := [Tagged(Num(i), bounds)] + carried;
    BindErased(op.regions[0].args, entering, env);
    assert Vals(entering) == [Num(i)] + Vals(carried);
    OperationsErased(op.regions[0].operations, local, mem, ctx, control, n);
  }

  /** A round's body ran to its yield, the last event that it recorded. */
  lemma {:induction false} BodyEnds(op: Operation, local: TaggedEnv, mem: Memory, ctx: Context, control: set<nat>,
          n: nat, inner: Instance, q: Prov, done: Trail)
    returns (m: nat)
    requires op.regions != [] && Tracked(op.regions[0].operations, local, inner, q, control)
    requires var ops := op.regions[0].operations; ops != [] && ops[|ops| - 1].opcode.Yield?
    requires ExecOperations(op.regions[0].operations, Erase(local), mem, ctx).Success?
    requires TrailMatches(done, TreeOf(op.regions[0].operations, Erase(local), mem, ctx), inner, 0, n, q)
    ensures |done.links| > 0 && m == n + |done.links| - 1 && done.ended == Some(m)
  {
    hide ExecOperations, TreeOf, NodesFit, ScopedOperations, Expected, EventsOf, EndsYielded;
    var ops := op.regions[0].operations;
    TreeFits(ops, Erase(local), mem, ctx);
    BodyYields(TreeOf(ops, Erase(local), mem, ctx), ops, q.Keys);
    m := n + |done.links| - 1;
  }

  lemma {:induction false} LoopJoins(parent: Node, op: Operation, rounds: seq<Round>, first: Round, rest: seq<Round>,
          done: Trail, later: Rounds, b: Instance, index: nat, n: nat, p: Prov, last: Option<nat>, ended: Option<nat>,
          inner: Instance, q: Prov, m: nat)
    requires parent.Looped? && parent.op == op && op.regions != [] && rounds == [first] + rest
    requires (forall j :: 0 <= j < |rounds| ==> rounds[j] < parent) && forall j :: 0 <= j < |rest| ==> rest[j] < parent
    requires inner == InLoop(b, index, op, first.value) && q == RoundProv(p, op, last)
    requires TrailMatches(done, first.body, inner, 0, n, q)
    requires |done.links| > 0 && m == n + |done.links| - 1 && done.ended == Some(m)
    requires RoundsMatch(later, parent, rest, b, index, n + |done.links|, p, Some(m), done.ended)
    ensures RoundsMatch(later.(links := done.links + later.links), parent, rounds, b, index, n, p, last, ended)
  {
    hide Expected, EventsOf, RoundProv, EndsYielded, RoundExpected, InLoop;
    var events := EventsOf(first.body, inner, 0);
    assert rounds[0] == first && rounds[1..] == rest;
    RoundsUnfold(parent, rounds, b, index, n, p, last, inner, events, n + |events|, q, Some(m));
    assert rest == [] ==> RoundEvents(parent, rest, b, index) == [];
    assert |RoundEvents(parent, rounds, b, index)| == |done.links| + |later.links|;
    assert RoundExpected(parent, rounds, b, index, n, p, last) == done.links + later.links;
  }

  // ----- one operation -----

  lemma {:induction false} StepTags(op: Operation, env: TaggedEnv, mem: Memory, ctx: Context, control: set<nat>, n: nat,
          b: Instance, index: nat, p: Prov)
    requires ScopedOperation(op, p.Keys) && Agree(p, env) && Controlled(b.enclosing, p, control) && !op.opcode.Yield?
    requires TagOperation(op, env, mem, ctx, control, n).Success?
    ensures ExecOperation(op, Erase(env), mem, ctx).Success?
    ensures StepMatches(TagOperation(op, env, mem, ctx, control, n).value, NodeOf(op, Erase(env), mem, ctx), b, index,
        n, p)
    decreases op, 1
  {
    OperationErased(op, env, mem, ctx, control, n);
    hide StepMatches;
    if op.opcode.For? {
      ForTags(op, env, mem, ctx, control, n, b, index, p);
    } else if op.opcode.If? {
      IfTags(op, env, mem, ctx, control, n, b, index, p);
    } else {
      PlainTags(op, env, mem, ctx, control, n, b, index, p);
    }
  }

  lemma {:induction false} PlainTags(op: Operation, env: TaggedEnv, mem: Memory, ctx: Context, control: set<nat>,
          n: nat, b: Instance, index: nat, p: Prov)
    requires ScopedOperation(op, p.Keys) && Agree(p, env) && Controlled(b.enclosing, p, control) && !op.opcode.Yield?
    requires !op.opcode.For? && !op.opcode.If?
    requires TagOperation(op, env, mem, ctx, control, n).Success?
    ensures StepMatches(TagOperation(op, env, mem, ctx, control, n).value, Simple(op), b, index, n, p)
  {
    hide Agree, Controlled, ExpectedLinks, ScopedOperation, TagLookup, StepMatches, TagOperation, Erase, TagsOf,
        ProvAll;
    ReferencesVisible(op, p);
    LookupTags(op.operands, p, env);
    var done := TagOperation(op, env, mem, ctx, control, n).value;
    var args := TagLookup(op.operands, env).value;
    if op.opcode.Store? {
      assert forall name :: name in op.attrs.indices ==> name in References(op);
      LookupTags(op.attrs.indices, p, env);
      ProvConcat(p, op.operands, op.attrs.indices);
      var read := TagsOf(args) + control + TagsOf(TagLookup(op.attrs.indices, env).value);
      StoreLinks(op, env, mem, ctx, control, n, args);
      OwnTags(Simple(op), b, n, p, control, read, {});
      SimpleMatches(op, done, b, index, n, p, read);
    } else {
      assert References(op) == op.operands;
      var read := TagsOf(args) + control;
      OtherLinks(op, env, mem, ctx, control, n, args);
      OwnTags(Simple(op), b, n, p, control, read, {});
      SimpleMatches(op, done, b, index, n, p, read);
    }
  }

  lemma {:induction false} StoreLinks(op: Operation, env: TaggedEnv, mem: Memory, ctx: Context, control: set<nat>,
          n: nat, args: seq<Tagged>)
    requires op.opcode.Store? && TagOperation(op, env, mem, ctx, control, n).Success?
    requires TagLookup(op.operands, env) == Success(args)
    requires TagLookup(op.attrs.indices, env).Success?
    ensures TagOperation(op, env, mem, ctx, control, n).value.links == []
        + [TagsOf(args) + control + TagsOf(TagLookup(op.attrs.indices, env).value)]
  {
    hide StoreOperation, TagLookup, TagsOf;
  }

  lemma {:induction false} OtherLinks(op: Operation, env: TaggedEnv, mem: Memory, ctx: Context, control: set<nat>,
          n: nat, args: seq<Tagged>)
    requires !op.opcode.Store? && !op.opcode.For? && !op.opcode.If?
    requires TagOperation(op, env, mem, ctx, control, n).Success? && TagLookup(op.operands, env) == Success(args)
    ensures TagOperation(op, env, mem, ctx, control, n).value.links == [] + [TagsOf(args) + control]
  {
    hide Compute, TagLookup, TagsOf;
  }

  lemma {:induction false} SimpleMatches(op: Operation, done: Step, b: Instance, index: nat, n: nat, p: Prov,
          read: set<nat>)
    requires done.links == [] + [read] && ExpectedLinks(Simple(op), b, n, p) == read + {}
    ensures StepMatches(done, Simple(op), b, index, n, p)
  {
    hide ExpectedLinks;
    assert read + {} == read;
  }

  lemma {:induction false} IfTags(op: Operation, env: TaggedEnv, mem: Memory, ctx: Context, control: set<nat>, n: nat,
          b: Instance, index: nat, p: Prov)
    requires ScopedOperation(op, p.Keys) && Agree(p, env) && Controlled(b.enclosing, p, control) && op.opcode.If?
    requires TagOperation(op, env, mem, ctx, control, n).Success? && ExecOperation(op, Erase(env), mem, ctx).Success?
    ensures StepMatches(TagOperation(op, env, mem, ctx, control, n).value, NodeOf(op, Erase(env), mem, ctx), b, index,
        n, p)
    decreases op, 0
  {
    hide ExecOperation, Vals, Compute;
    ReferencesVisible(op, p);
    hide Agree, Controlled, ExpectedLinks, ScopedOperation, ScopedOperations, TagLookup, Lookup, TagOperations,
        ExecOperations, TreeOf, Expected, EventsOf, RegionResults, ScalarOf, StepMatches, TrailMatches, Tracked;
    LookupTags(op.operands, p, env);
    LookupErased(op.operands, env);
    var args := TagLookup(op.operands, env).value;
    var condition := ScalarOf(Vals(args)[0], ctx, mem).value;
    var r: nat := if condition != 0 then 0 else 1;
    var read := TagsOf(args) + control;
    assert References(op) == op.operands;
    if r < |op.regions| {
      var ops, inner, within := op.regions[r].operations, InArm(b, index, op, r), control + TagsOf(args[..1]);
      ArmTracked(op, args, env, control, b, index, r, p);
      BlockTags(ops, env, mem, ctx, within, n, inner, 0, p);
      var done := TagOperations(ops, env, mem, ctx, within, n).value;
      var nodes := TreeOf(ops, Erase(env), mem, ctx);
      var node := Branched(op, Some(Arm(r, nodes)));
      var values := RegionResults(op, Vals(done.yielded)).value;
      ArmMatches(op, nodes, r, done, inner, node, b, index, n, p, control, read, values, done.mem);
    } else {
      OwnTags(Branched(op, None), b, n, p, control, read, {});
      NoArmMatches(op, b, index, n, p, RegionResults(op, []).value, mem, read);
    }
  }

  lemma {:induction false} NoArmMatches(op: Operation, b: Instance, index: nat, n: nat, p: Prov, values: seq<Val>,
          mem: Memory, read: set<nat>)
    requires ExpectedLinks(Branched(op, None), b, n, p) == read
    ensures StepMatches(Finished(values, mem, [], read, n), Branched(op, None), b, index, n, p)
  {
    hide ExpectedLinks;
  }

  lemma {:induction false} ArmTracked(op: Operation, args: seq<Tagged>, env: TaggedEnv, control: set<nat>, b: Instance,
          index: nat, r: nat, p: Prov)
    requires ScopedOperation(op, p.Keys) && Agree(p, env) && Controlled(b.enclosing, p, control) && op.opcode.If?
    requires r < |op.regions|
    requires TagLookup(op.operands, env) == Success(args) && |args| > 0
    ensures Tracked(op.regions[r].operations, env, InArm(b, index, op, r), p, control + TagsOf(args[..1]))
  {
    ReferencesVisible(op, p);
    assert op.regions[r] in op.regions && ScopedBlock(op.regions[r], p.Keys);
    assert NameSet(op.regions[r].args) == {} && p.Keys + {} == p.Keys;
    hide Agree, ScopedOperations, ControlNames, ProvAll, TagLookup;
    TagsPrefix(args, op.operands, env, p, 1);
    assert Take(op.operands, 1) == op.operands[..1];
    assert forall name :: name in op.operands[..1] ==> name in op.operands;
    ControlledInside(b.enclosing, Parent(b.path + [index], op, |b.iteration|), p, p, control, op.operands[..1]);
  }

  lemma {:induction false} ArmMatches(op: Operation, nodes: seq<Node>, r: nat, done: Trail, inner: Instance, node: Node,
          b: Instance, index: nat, n: nat, p: Prov, control: set<nat>, read: set<nat>, values: seq<Val>, mem: Memory)
    requires node == Branched(op, Some(Arm(r, nodes))) && inner == InArm(b, index, op, r)
    requires TrailMatches(done, nodes, inner, 0, n, p)
    requires Controlled(b.enclosing, p, control) && read == ProvAll(p, References(op)) + control
    ensures StepMatches(Finished(values, mem, done.links, read + EventOf(done.ended), n), node, b, index, n, p)
  {
    hide Expected, EventsOf, EndsYielded, Controlled, ProvAll, ExpectedLinks;
    OwnTags(node, b, n + |done.links|, p, control, read, EventOf(done.ended));
  }

  lemma {:induction false} ForTags(op: Operation, env: TaggedEnv, mem: Memory, ctx: Context, control: set<nat>, n: nat,
          b: Instance, index: nat, p: Prov)
    requires ScopedOperation(op, p.Keys) && Agree(p, env) && Controlled(b.enclosing, p, control) && op.opcode.For?
    requires TagOperation(op, env, mem, ctx, control, n).Success? && ExecOperation(op, Erase(env), mem, ctx).Success?
    ensures StepMatches(TagOperation(op, env, mem, ctx, control, n).value, NodeOf(op, Erase(env), mem, ctx), b, index,
        n, p)
    decreases op, 0
  {
    hide Agree, Controlled, ExpectedLinks, ScopedOperations, TagLookup, References, Expected, EventsOf, Lookup, TagLoop,
        ExecLoop, RoundsOf, RegionResults, ScalarOf, StepMatches, RoundsMatch, NodeFits, LoopTracked, RangeLength;
    ForShape(op, p);
    NodeOfFits(op, Erase(env), mem, ctx);
    LookupTags(op.operands, p, env);
    LookupErased(op.operands, env);
    var args := TagLookup(op.operands, env).value;
    var vals := Vals(args);
    var start, stop, step := ScalarOf(vals[0], ctx, mem).value, ScalarOf(vals[1], ctx, mem).value,
        ScalarOf(vals[2], ctx, mem).value;
    var count, bounds, region := RangeLength(start, stop, step), TagsOf(args[..3]), op.regions[0];
    var looped := TagLoop(region, env, mem, ctx, control + bounds, args[3..], bounds, start, step, count, n,
        None).value;
    var rounds := RoundsOf(region, Erase(env), mem, ctx, vals[3..], start, step, count);
    var node := NodeOf(op, Erase(env), mem, ctx);
    assert node == Looped(op, rounds) && Vals(args[3..]) == vals[3..];
    LoopStarts(op, args, env, control, b, p);
    assert LoopRan(rounds, region, Erase(env), mem, ctx, Vals(args[3..]), start, step, count);
    LoopTags(node, op, rounds, env, mem, ctx, control, args[3..], bounds, start, step, count, n, None, b, index, p,
        None);
    LastRoundYields(node, op, p);
    LoopMatches(op, node, looped, b, index, n, p, control, TagsOf(args) + control,
        RegionResults(op, Vals(looped.carried)).value);
  }

  lemma {:induction false} ForShape(op: Operation, p: Prov)
    requires ScopedOperation(op, p.Keys) && op.opcode.For?
    ensures op.regions != [] && References(op) == op.operands && forall name :: name in op.operands ==> name in p
  {
    ReferencesVisible(op, p);
  }

  lemma {:induction false} LoopStarts(op: Operation, args: seq<Tagged>, env: TaggedEnv, control: set<nat>, b: Instance,
          p: Prov)
    requires ScopedOperation(op, p.Keys) && Agree(p, env) && Controlled(b.enclosing, p, control) && op.opcode.For?
    requires op.regions != []
    requires TagLookup(op.operands, env) == Success(args) && |args| >= 3
    ensures LoopTracked(op, env, control, args[3..], TagsOf(args[..3]), b, p, None)
  {
    ReferencesVisible(op, p);
    hide Controlled, ScopedOperations, ControlNames, ProvAll;
    TagsPrefix(args, op.operands, env, p, 3);
    assert Take(op.operands, 3) == op.operands[..3];
    var carried := args[3..];
    forall i | 0 <= i < |carried|
      ensures carried[i].from == ProvOf(p, op.operands[i + 3])
    {
      assert op.operands[i + 3] in op.operands;
      assert carried[i] == args[i + 3] == env[op.operands[i + 3]];
    }
  }

  lemma {:induction false} LoopMatches(op: Operation, node: Node, looped: Rounds, b: Instance, index: nat, n: nat,
          p: Prov, control: set<nat>, read: set<nat>, values: seq<Val>)
    requires node.Looped? && node.op == op && op.regions != []
    requires RoundsMatch(looped, node, node.rounds, b, index, n, p, None, None)
    requires Controlled(b.enclosing, p, control) && read == ProvAll(p, References(op)) + control
    requires (node.rounds != [] <==> YieldedJustBefore(node))
    ensures StepMatches(Finished(values, looped.mem, looped.links, read + EventOf(looped.ended), n), node, b, index, n,
        p)
  {
    hide RoundExpected, RoundEvents, Controlled, ProvAll, ExpectedLinks, YieldedJustBefore;
    OwnTags(node, b, n + |looped.links|, p, control, read, EventOf(looped.ended));
  }

  // ----- whole runs -----

  /** What a run starts with comes from outside its trace. */
  function EntryTagged(env: Env): TaggedEnv {
    map name | name in env :: Tagged(env[name], {})
  }

  function RunOne(program: seq<Operation>, launch: Launch, n: nat): Outcome<Trail> {
    TagOperations(program, EntryTagged(launch.env), launch.mem, launch.ctx, {}, n)
  }

  /** What the events of all launches read, in the order of the trace. */
  function RunLinks(program: seq<Operation>, launches: seq<Launch>, n: nat): seq<set<nat>>
    decreases |launches|
  {
    if launches == [] then []
    else
      var done := RunOne(program, launches[0], n);
      if done.Success? then done.value.links + RunLinks(program, launches[1..], n + |done.value.links|) else []
  }

  lemma {:induction false} EntryErased(env: Env)
    ensures Erase(EntryTagged(env)) == env
  {
  }

  ghost predicate Supplied(names: set<string>, launches: seq<Launch>) {
    forall i :: 0 <= i < |launches| ==> names <= launches[i].env.Keys
  }

  lemma {:induction false} LaunchTags(program: seq<Operation>, names: set<string>, launch: Launch, n: nat)
    requires ScopedOperations(program, names) && names <= launch.env.Keys
    requires ExecOperations(program, launch.env, launch.mem, launch.ctx).Success?
    ensures var done, nodes := RunOne(program, launch, n), TreeOf(program, launch.env, launch.mem, launch.ctx);
            done.Success? && TrailMatches(done.value, nodes, Start(launch.key), 0, n, EntryProv(names))
  {
    hide TagOperations, ExecOperations, ScopedOperations, TreeOf, TrailMatches;
    var p, env := EntryProv(names), EntryTagged(launch.env);
    EntryErased(launch.env);
    OperationsErased(program, env, launch.mem, launch.ctx, {}, n);
    assert Agree(p, env);
    assert Controlled([], p, {});
    EntryProvKeys(names);
    BlockTags(program, env, launch.mem, launch.ctx, {}, n, Start(launch.key), 0, p);
  }

  lemma {:induction false} TagsAreLinks(program: seq<Operation>, names: set<string>, launches: seq<Launch>, n: nat)
    requires ScopedOperations(program, names) && Supplied(names, launches) && Succeeds(program, launches)
    ensures TraceLinks(Executed(program, launches), n, EntryProv(names)) == RunLinks(program, launches, n)
    decreases |launches|
  {
    hide TagOperations, ExecOperations, ScopedOperations, TreeOf, EventsOf, Expected, EntryProv, RunOne;
    var segments := Executed(program, launches);
    if launches != [] {
      var rest := launches[1..];
      LaunchTags(program, names, launches[0], n);
      assert Succeeds(program, rest) && Supplied(names, rest) by {
        assert forall i :: 0 <= i < |rest| ==> rest[i] == launches[i + 1];
      }
      assert segments[1..] == Executed(program, rest) by {
        assert forall i :: 0 <= i < |rest| ==> rest[i] == launches[i + 1];
      }
      TagsAreLinks(program, names, rest, n + |RunOne(program, launches[0], n).value.links|);
    }
  }

  /** The slicer links every event of a full trace to exactly the events whose outputs it
      read, as the tagged interpreter records them while it computes the same run. */
  lemma {:induction false} LinksAreTags(program: Program, launches: seq<Launch>)
    requires VerifyProgram(program).Success?
    requires var ops := program.blocks[0].operations;
             UsesFit(Dictionary(ops), ops, [], 0, [], 0) && Succeeds(ops, launches)
    requires Supplied(Needed(program), launches)
    requires forall i, j :: 0 <= i < j < |launches| ==> launches[i].key != launches[j].key
    ensures var ops := program.blocks[0].operations;
            && EdgesOf(ops, Dictionary(ops), NO_TABLES, Trace(Executed(ops, launches)), 0) == RunLinks(ops, launches, 0)
            && Backward(RunLinks(ops, launches, 0), 0)
  {
    NeededScoped(program);
    var ops, names := program.blocks[0].operations, Needed(program);
    hide UsesFit, ScopedOperations, ExecOperations, EdgesOf, RunLinks, TraceLinks, Trace, Executed, VerifyProgram,
        EntryProv;
    AcceptedTracesLinkRight(program, launches);
    TagsAreLinks(ops, names, launches, 0);
  }
}
