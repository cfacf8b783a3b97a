/** The verifier as `ir/ssa.py` runs it: one set of definitions that every block and region
    of a program shares and mutates, beside a table of visible names that each block copies.
    Its methods are proved to compute the functions of `Ssa`. */
module Verification {
  import opened Wrappers
  import opened Ssa

  type Visible = map<string, Type>

  /** What a method leaves behind, against the function that specifies it. A rejected program
      leaves the set of definitions in no particular state. */
  ghost predicate Reports(r: Result<Visible, Reason>, definitions: set<string>, expected: Verdict) {
    match expected
    case Success(scope) => r == Success(scope.visible) && definitions == scope.definitions
    case Failure(reason) => r == Failure(reason)
  }

  ghost predicate ReportsDefinitions(r: Result<(), Reason>, definitions: set<string>,
          expected: Result<set<string>, Reason>) {
    match expected
    case Success(after) => r.Success? && definitions == after
    case Failure(reason) => r == Failure(reason)
  }

  class Verifier {
    /** `all_definitions`: every result so far, and the arguments of the blocks being verified. */
    var definitions: set<string>

    constructor (inputs: set<string>)
      ensures definitions == inputs
    {
      definitions := inputs;
    }

    /** The arguments of a block enter its table and the shared set. */
    method Arguments(args: seq<Value>, visible: Visible) returns (r: Result<Visible, Reason>)
      modifies this
      ensures Reports(r, definitions, BindArguments(args, Scope(visible, old(definitions))))
    {
      var local := visible;
      for i := 0 to |args|
        invariant BindArguments(args, Scope(visible, old(definitions))) ==
            BindArguments(args[i..], Scope(local, definitions))
      {
        if args[i].name in definitions || args[i].name in local {
          return Failure(DuplicateDefinition);
        }
        local := local[args[i].name := args[i].typ];
        definitions := definitions + {args[i].name};
        assert args[i..][1..] == args[i + 1..];
      }
      r := Success(local);
    }

    method Results(results: seq<Value>, visible: Visible) returns (r: Result<(), Reason>)
      modifies this
      ensures ReportsDefinitions(r, definitions, DefineResults(results, visible, old(definitions)))
    {
      for i := 0 to |results|
        invariant DefineResults(results, visible, old(definitions)) == DefineResults(results[i..], visible, definitions)
      {
        if results[i].name in definitions || results[i].name in visible {
          return Failure(DuplicateDefinition);
        }
        definitions := definitions + {results[i].name};
        assert results[i..][1..] == results[i + 1..];
      }
      r := Success(());
    }

    /** The results of an operation become visible once its regions are done. */
    static method Publish(results: seq<Value>, visible: Visible) returns (after: Visible)
      ensures after == Bind(visible, results)
    {
      after := visible;
      for i := 0 to |results|
        invariant Bind(visible, results) == Bind(after, results[i..])
      {
        after := after[results[i].name := results[i].typ];
        assert results[i..][1..] == results[i + 1..];
      }
    }

    static method Referenced(op: Operation, visible: Visible) returns (missing: bool)
      ensures missing <==> exists name :: name in References(op) && name !in visible
    {
      var names := References(op);
      missing := false;
      for i := 0 to |names|
        invariant missing <==> exists j :: 0 <= j < i && names[j] !in visible
      {
        if names[i] !in visible {
          missing := true;
        }
      }
    }

    method Operation(op: Operation, last: bool, visible: Visible, slots: Option<seq<seq<Type>>>)
      returns (r: Result<Visible, Reason>)
      modifies this
      ensures Reports(r, definitions, VerifyOperation(op, last, Scope(visible, old(definitions)), slots))
      decreases op, 0
    {
      hide Bind, VerifyRegions, RegionContractHolds, MemoryContractHolds, CheckYield, Slots, DefineResults;
      var missing := Referenced(op, visible);
      if missing {
        return Failure(UndefinedValue);
      }
      var defined := Results(op.results, visible);
      if defined.Failure? {
        return Failure(defined.error);
      }
      assert forall name :: name in op.operands ==> name in References(op);
      if !RegionContractHolds(op, visible) {
        return Failure(RegionContract);
      }
      if !MemoryContractHolds(op, visible) {
        return Failure(MemoryContract);
      }
      if op.opcode.Yield? {
        var checked := CheckYield(op, last, visible, slots);
        if checked.Failure? {
          return Failure(checked.error);
        }
      }
      var inner := Regions(op.regions, visible, Slots(op, visible));
      if inner.Failure? {
        return Failure(inner.error);
      }
      var after := Publish(op.results, visible);
      r := Success(after);
    }

    method Regions(regions: seq<Block>, visible: Visible, slots: seq<seq<Type>>) returns (r: Result<(), Reason>)
      modifies this
      ensures ReportsDefinitions(r, definitions, VerifyRegions(regions, Scope(visible, old(definitions)), slots))
      decreases regions, 0
    {
      hide VerifyBlock;
      for i := 0 to |regions|
        invariant VerifyRegions(regions, Scope(visible, old(definitions)), slots) ==
            VerifyRegions(regions[i..], Scope(visible, definitions), slots)
      {
        var inner := Block(regions[i], visible, Some(slots));
        if inner.Failure? {
          return Failure(inner.error);
        }
        assert regions[i..][1..] == regions[i + 1..];
      }
      r := Success(());
    }

    /** `_verify_block`. */
    method Block(block: Block, visible: Visible, slots: Option<seq<seq<Type>>>) returns (r: Result<Visible, Reason>)
      modifies this
      ensures Reports(r, definitions, VerifyBlock(block, Scope(visible, old(definitions)), slots))
      decreases block, 0
    {
      hide VerifyOperation, BindArguments;
      var entered := Arguments(block.args, visible);
      if entered.Failure? {
        return Failure(entered.error);
      }
      var local, ops := entered.value, block.operations;
      ghost var entry := Scope(local, definitions);
      for i := 0 to |ops|
        invariant VerifyOperations(ops, entry, slots) == VerifyOperations(ops[i..], Scope(local, definitions), slots)
      {
        var next := Operation(ops[i], i == |ops| - 1, local, slots);
        if next.Failure? {
          return Failure(next.error);
        }
        local := next.value;
        assert ops[i..][1..] == ops[i + 1..];
      }
      definitions := definitions - NameSet(block.args);
      r := Success(local);
    }
  }

  method DistinctInputs(inputs: seq<Value>) returns (distinct: bool)
    ensures distinct <==> DistinctNames(inputs)
  {
    var seen := {};
    for i := 0 to |inputs|
      invariant seen == NameSet(inputs[..i]) && DistinctNames(inputs[..i])
    {
      assert inputs[..i + 1] == inputs[..i] + [inputs[i]];
      if inputs[i].name in seen {
        var j :| 0 <= j < i && inputs[j].name == inputs[i].name;
        return false;
      }
      seen := seen + {inputs[i].name};
    }
    assert inputs[..|inputs|] == inputs;
    distinct := true;
  }

  /** `verify_program`: the mutating verifier decides exactly what `VerifyProgram` decides. */
  method Verify(program: Program) returns (r: Result<(), Reason>)
    ensures match VerifyProgram(program)
            case Success(_) => r.Success?
            case Failure(reason) => r == Failure(reason)
  {
    hide VerifyBlock, VerifyOutputs, EntryScope, DistinctNames;
    if |program.blocks| != 1 {
      return Failure(BlockCount);
    }
    var distinct := DistinctInputs(program.inputs);
    if !distinct {
      return Failure(DuplicateInput);
    }
    var entry := EntryScope(program);
    var verifier := new Verifier(entry.definitions);
    var top := verifier.Block(program.blocks[0], entry.visible, None);
    if top.Failure? {
      return Failure(top.error);
    }
    r := VerifyOutputs(program, program.outputs, {}, top.value);
  }
}
