/** The cache of verified launches: object identities that may be reused after death,
    weak references whose callbacks evict, and a table of at most eight entries. */
module LaunchCache {
  import opened Wrappers

  /** The never-reused identity of an object; `id` of an `Obj` may be reused after its death. */
  type Serial = nat

  /** What a guard compares of a tensor in place: its number of dimensions, and everything
      else of its shape, strides, type, device and storage. */
  datatype State = State(dims: nat, rest: nat)

  /** A live tensor: its current `id`, its type, its state and the number in its storage,
      which `item` gives out if the tensor has no dimensions. */
  datatype Obj = Obj(id: nat, typ: nat, state: State, number: int) {
    function Item(): Option<int> {
      if state.dims == 0 then Some(number) else None
    }
  }

  /** The arguments that are bound to scalars, by position and by keyword. */
  datatype Abi = Abi(positions: set<nat>, names: set<string>)

  datatype Value =
    | Tensor(serial: Serial)
    | Scalar(id: nat, typ: nat, value: int)

  datatype Call = Call(args: seq<Value>, kwargs: seq<(string, Value)>)

  type World = map<Serial, Obj>

  datatype Contract =
    | TensorContract(id: nat, typ: nat, state: State, item: Option<int>)
    | ScalarContract(typ: nat, value: int)

  datatype Guard = Guard(positional: seq<Contract>, keywords: seq<(string, Contract)>, twoTensors: bool)

  datatype Seen = Seen(id: nat, typ: nat, state: State)

  /** The recorded state of a call of two tensors and one keyword scalar. */
  datatype CallKey = CallKey(name: string, typ: nat, value: int, first: Seen, second: Seen)

  datatype Identity =
    | ByIds(count: nat, ids: seq<nat>)
    | ByTensors(first: nat, second: nat, typ: nat, value: int)

  /** A prepared launch: the guard, the call whose tensors and values its binding plan
      refers to (tensors weakly), and the token of its callbacks. */
  datatype Prepared = Prepared(guard: Guard, call: Call, plan: nat, cacheable: bool, token: Option<nat>)

  datatype Entry = Entry(identity: Identity, prepared: Prepared)

  const CACHE_SIZE: nat := 8

  function Values(c: Call): seq<Value> {
    c.args + seq(|c.kwargs|, k requires 0 <= k < |c.kwargs| => c.kwargs[k].1)
  }

  function Contracts(g: Guard): seq<Contract> {
    g.positional + seq(|g.keywords|, k requires 0 <= k < |g.keywords| => g.keywords[k].1)
  }

  /** The tensors of a call are live. */
  predicate Callable(w: World, c: Call) {
    forall k :: 0 <= k < |Values(c)| ==> Values(c)[k].Tensor? ==> Values(c)[k].serial in w
  }

  /** Live objects have different ids. */
  predicate DistinctIds(w: World) {
    forall s, t :: s in w && t in w && w[s].id == w[t].id ==> s == t
  }

  // ----- guards -----

  /** What is recorded of an argument; a number held by a tensor only where it is bound
      to a scalar. */
  function ContractOf(w: World, v: Value, compare: bool): Contract
    requires v.Tensor? ==> v.serial in w
  {
    match v
    case Tensor(s) => TensorContract(w[s].id, w[s].typ, w[s].state, if compare then w[s].Item() else None)
    case Scalar(_, typ, value) => ScalarContract(typ, value)
  }

  predicate TwoTensorCall(c: Call) {
    |c.args| == 2 && c.args[0].Tensor? && c.args[1].Tensor? && |c.kwargs| == 1 && c.kwargs[0].1.Scalar?
  }

  lemma {:induction false} ValueAt(c: Call, k: nat)
    requires k < |c.args| + |c.kwargs|
    ensures |Values(c)| == |c.args| + |c.kwargs|
    ensures Values(c)[k] == if k < |c.args| then c.args[k] else c.kwargs[k - |c.args|].1
  {
  }

  function GuardOf(abi: Abi, w: World, c: Call): (g: Guard)
    requires Callable(w, c)
  {
    assert forall k :: 0 <= k < |c.args| ==> Values(c)[k] == c.args[k];
    assert forall k :: 0 <= k < |c.kwargs| ==> Values(c)[|c.args| + k] == c.kwargs[k].1;
    Guard(
      seq(|c.args|, k requires 0 <= k < |c.args| => ContractOf(w, c.args[k], k in abi.positions)),
      seq(|c.kwargs|, k requires 0 <= k < |c.kwargs| =>
          (c.kwargs[k].0, ContractOf(w, c.kwargs[k].1, c.kwargs[k].0 in abi.names))),
      TwoTensorCall(c))
  }

  function SeenNow(w: World, s: Serial): Seen
    requires s in w
  {
    Seen(w[s].id, w[s].typ, w[s].state)
  }

  /** `_VerifiedRuntimeCall.call_key`: only for a guard of two tensors and one scalar. */
  function KeyOf(g: Guard, w: World, c: Call): Option<CallKey>
    requires Callable(w, c)
  {
    if !g.twoTensors || |g.keywords| != 1 || |c.args| != 2 || |c.kwargs| != 1 then None
    else
      assert Values(c)[0] == c.args[0] && Values(c)[1] == c.args[1];
      var (name, scalar) := c.kwargs[0];
      if name != g.keywords[0].0 || !scalar.Scalar? || !g.keywords[0].1.ScalarContract?
          || scalar.typ != g.keywords[0].1.typ then None
      else if !c.args[0].Tensor? || !c.args[1].Tensor? then None
      else Some(CallKey(name, scalar.typ, scalar.value, SeenNow(w, c.args[0].serial), SeenNow(w, c.args[1].serial)))
  }

  function SeenBy(c: Contract): Seen
    requires c.TensorContract?
  {
    Seen(c.id, c.typ, c.state)
  }

  /** The state a two-tensor guard was made with. */
  function StateOf(g: Guard): Option<CallKey> {
    if g.twoTensors && |g.positional| == 2 && g.positional[0].TensorContract? && g.positional[1].TensorContract?
        && |g.keywords| == 1 && g.keywords[0].1.ScalarContract? then
      Some(CallKey(g.keywords[0].0, g.keywords[0].1.typ, g.keywords[0].1.value, SeenBy(g.positional[0]),
          SeenBy(g.positional[1])))
    else None
  }

  /** `_RuntimeValueContract.matches` once the identities are known to agree. */
  predicate ContractMatches(w: World, c: Contract, v: Value)
    requires v.Tensor? ==> v.serial in w
  {
    match c
    case ScalarContract(typ, value) => v.Scalar? && v.typ == typ && v.value == value
    case TensorContract(_, _, state, item) =>
        v.Tensor? && w[v.serial].state == state && (item.None? || w[v.serial].Item() == item)
  }

  predicate Matches(g: Guard, w: World, c: Call, key: Option<CallKey>)
    requires Callable(w, c)
  {
    && |c.args| == |g.positional| && |c.kwargs| == |g.keywords|
    && if g.twoTensors then (if key.Some? then key else KeyOf(g, w, c)) == StateOf(g) && StateOf(g).Some?
       else
         && (forall k :: 0 <= k < |c.kwargs| ==> c.kwargs[k].0 == g.keywords[k].0)
         && forall k :: 0 <= k < |Values(c)| ==> ContractMatches(w, Contracts(g)[k], Values(c)[k])
  }

  function IdOf(w: World, v: Value): nat
    requires v.Tensor? ==> v.serial in w
  {
    if v.Tensor? then w[v.serial].id else v.id
  }

  /** `_runtime_call_identity`. */
  function CallIdentity(w: World, c: Call): Identity
    requires Callable(w, c)
  {
    ByIds(|c.args|, seq(|Values(c)|, k requires 0 <= k < |Values(c)| => IdOf(w, Values(c)[k])))
  }

  /** `_two_tensor_call_identity`. */
  function KeyIdentity(k: CallKey): Identity {
    ByTensors(k.first.id, k.second.id, k.typ, k.value)
  }

  // ----- what reusing a launch requires -----

  /** The call has the very tensors the launch was prepared for, in the state its guard
      recorded, and equal scalars under the same names. */
  predicate SameTensors(p: Prepared, w: World, c: Call) {
    && Callable(w, c) && |c.args| == |p.call.args| && |c.kwargs| == |p.call.kwargs|
    && |Contracts(p.guard)| == |Values(c)| == |Values(p.call)|
    && (forall k :: 0 <= k < |c.kwargs| ==> c.kwargs[k].0 == p.call.kwargs[k].0)
    && forall k :: 0 <= k < |Values(c)| ==> SameValue(Values(p.call)[k], Contracts(p.guard)[k], w, Values(c)[k])
  }

  predicate SameValue(prepared: Value, contract: Contract, w: World, v: Value)
    requires v.Tensor? ==> v.serial in w
  {
    match prepared
    case Tensor(s) => v == prepared && contract.TensorContract? && w[s].state == contract.state
    case Scalar(_, typ, value) => v.Scalar? && v.typ == typ && v.value == value
  }

  /** The numbers recorded of tensors that are bound to scalars are still there. */
  predicate SameItems(p: Prepared, w: World, c: Call) {
    Callable(w, c) && |Contracts(p.guard)| == |Values(c)|
    && forall k :: 0 <= k < |Values(c)| ==>
         Values(c)[k].Tensor? && Contracts(p.guard)[k].TensorContract? && Contracts(p.guard)[k].item.Some? ==>
         w[Values(c)[k].serial].Item() == Contracts(p.guard)[k].item
  }

  /** A two-tensor guard has recorded a number that its call key leaves out. */
  predicate HidesItem(g: Guard) {
    g.twoTensors && exists k :: 0 <= k < |g.positional| && g.positional[k].TensorContract? && g.positional[k].item.Some?
  }

  /** A call of two tensors and one keyword scalar binds the number of a tensor without
      dimensions to a scalar of the kernel. */
  predicate BindsNumber(abi: Abi, w: World, c: Call) {
    Callable(w, c) && TwoTensorCall(c)
    && exists k :: 0 <= k < 2 && k in abi.positions && c.args[k].serial in w && w[c.args[k].serial].Item().Some?
  }

  /** Numbers are recorded exactly of the tensors without dimensions that are bound to
      scalars. */
  predicate MadeFor(abi: Abi, p: Prepared) {
    forall k :: 0 <= k < |p.guard.positional| && p.guard.positional[k].TensorContract? ==>
      (p.guard.positional[k].item.Some? <==> k in abi.positions && p.guard.positional[k].state.dims == 0)
  }

  /** What a guard hides can be seen from the call. */
  lemma {:induction false} HiddenIsBound(abi: Abi, p: Prepared, w: World, c: Call)
    requires Recorded(p) && MadeFor(abi, p) && SameTensors(p, w, c)
    ensures HidesItem(p.guard) <==> p.guard.twoTensors && BindsNumber(abi, w, c)
  {
    if p.guard.twoTensors {
      TwoTensorsAgain(p, w, c);
      forall k | 0 <= k < 2
        ensures c.args[k].Tensor? && c.args[k].serial in w && p.guard.positional[k].TensorContract?
        ensures w[c.args[k].serial].state == p.guard.positional[k].state
      {
        ValueAt(c, k);
        ValueAt(p.call, k);
        ContractAt(p.guard, k);
        assert SameValue(Values(p.call)[k], Contracts(p.guard)[k], w, Values(c)[k]);
      }
    }
  }

  lemma {:induction false} TwoTensorsAgain(p: Prepared, w: World, c: Call)
    requires Recorded(p) && SameTensors(p, w, c) && p.guard.twoTensors
    ensures TwoTensorCall(c)
  {
    forall k | 0 <= k < 3
      ensures SameValue(Values(p.call)[k], Contracts(p.guard)[k], w, Values(c)[k])
      ensures Values(c)[k] == if k < 2 then c.args[k] else c.kwargs[0].1
      ensures Values(p.call)[k] == if k < 2 then p.call.args[k] else p.call.kwargs[0].1
    {
      ValueAt(c, k);
      ValueAt(p.call, k);
    }
    assert SameValue(Values(p.call)[2], Contracts(p.guard)[2], w, Values(c)[2]);
    assert SameValue(Values(p.call)[0], Contracts(p.guard)[0], w, Values(c)[0])
        && SameValue(Values(p.call)[1], Contracts(p.guard)[1], w, Values(c)[1]);
  }

  /** How a prepared launch was made: its contracts record the tensors of its call. */
  predicate Recorded(p: Prepared) {
    && |p.guard.positional| == |p.call.args| && |p.guard.keywords| == |p.call.kwargs|
    && p.guard.twoTensors == TwoTensorCall(p.call)
    && (forall k :: 0 <= k < |p.call.kwargs| ==> p.guard.keywords[k].0 == p.call.kwargs[k].0)
    && |Contracts(p.guard)| == |Values(p.call)|
    && forall k :: 0 <= k < |Values(p.call)| ==> RecordedValue(Contracts(p.guard)[k], Values(p.call)[k])
  }

  predicate RecordedValue(c: Contract, v: Value) {
    match v
    case Tensor(_) => c.TensorContract?
    case Scalar(_, typ, value) => c == ScalarContract(typ, value)
  }

  /** The tensors a prepared launch refers to are alive under the ids it recorded. */
  predicate Alive(p: Prepared, w: World) {
    |Contracts(p.guard)| == |Values(p.call)|
    && forall k :: 0 <= k < |Values(p.call)| && Values(p.call)[k].Tensor? ==>
         Values(p.call)[k].serial in w && Contracts(p.guard)[k].TensorContract?
             && w[Values(p.call)[k].serial].id == Contracts(p.guard)[k].id
  }

  /** The identity is the one the launch was remembered under. */
  predicate Filed(i: Identity, p: Prepared) {
    match i
    case ByIds(count, ids) =>
      !p.guard.twoTensors && |ids| == |Contracts(p.guard)|
      && forall k :: 0 <= k < |ids| && Contracts(p.guard)[k].TensorContract? ==> ids[k] == Contracts(p.guard)[k].id
    case ByTensors(_, _, _, _) => StateOf(p.guard).Some? && i == KeyIdentity(StateOf(p.guard).value)
  }

  lemma {:induction false} ContractAt(g: Guard, k: nat)
    requires k < |g.positional| + |g.keywords|
    ensures |Contracts(g)| == |g.positional| + |g.keywords|
    ensures Contracts(g)[k] == if k < |g.positional| then g.positional[k] else g.keywords[k - |g.positional|].1
  {
  }

  lemma {:induction false} MadeRecorded(abi: Abi, w: World, c: Call, plan: nat, cacheable: bool, token: Option<nat>)
    requires Callable(w, c)
    ensures var p := Prepared(GuardOf(abi, w, c), c, plan, cacheable, token);
            Recorded(p) && Alive(p, w) && SameTensors(p, w, c) && SameItems(p, w, c) && MadeFor(abi, p)
  {
    var p := Prepared(GuardOf(abi, w, c), c, plan, cacheable, token);
    forall k | 0 <= k < |Values(c)|
      ensures |Contracts(p.guard)| == |Values(c)|
      ensures Contracts(p.guard)[k] ==
          ContractOf(w, Values(c)[k], if k < |c.args| then k in abi.positions
          else c.kwargs[k - |c.args|].0 in abi.names)
    {
      ValueAt(c, k);
      ContractAt(p.guard, k);
    }
    assert |Contracts(p.guard)| == |Values(c)|;
  }

  /** A launch filed by ids: matching contracts and equal ids mean the same live tensors. */
  lemma {:induction false} IdsMatch(p: Prepared, w: World, c: Call, i: Identity)
    requires DistinctIds(w) && Callable(w, c) && Recorded(p) && Alive(p, w) && !p.guard.twoTensors
    requires Matches(p.guard, w, c, None) && i == CallIdentity(w, c) && Filed(i, p)
    ensures SameTensors(p, w, c) && SameItems(p, w, c)
  {
    forall k | 0 <= k < |Values(c)|
      ensures SameValue(Values(p.call)[k], Contracts(p.guard)[k], w, Values(c)[k])
    {
      var v, contract := Values(c)[k], Contracts(p.guard)[k];
      assert ContractMatches(w, contract, v) && RecordedValue(contract, Values(p.call)[k]);
      if v.Tensor? {
        assert i.ids[k] == w[v.serial].id == contract.id;
      }
    }
  }

  /** A call key read from this very call. */
  predicate ReadFrom(k: CallKey, w: World, c: Call) {
    && Callable(w, c) && |c.args| == 2 && |c.kwargs| == 1 && |Values(c)| == 3 && c.args[0] == Values(c)[0]
    && c.args[1] == Values(c)[1]
    && c.args[0].Tensor? && c.args[1].Tensor? && c.kwargs[0].1.Scalar?
    && k == CallKey(c.kwargs[0].0, c.kwargs[0].1.typ, c.kwargs[0].1.value, SeenNow(w, c.args[0].serial),
        SeenNow(w, c.args[1].serial))
  }

  lemma {:induction false} KeyReadFrom(g: Guard, w: World, c: Call)
    requires Callable(w, c)
    ensures KeyOf(g, w, c).Some? ==> ReadFrom(KeyOf(g, w, c).value, w, c)
  {
    if KeyOf(g, w, c).Some? {
      ValueAt(c, 0);
      ValueAt(c, 1);
    }
  }

  /** A two-tensor launch: an equal call key means the same live tensors, and the same
      numbers in them unless the guard hides one. */
  lemma {:induction false} KeyMatch(p: Prepared, w: World, c: Call, k: CallKey)
    requires DistinctIds(w) && ReadFrom(k, w, c) && Recorded(p) && Alive(p, w) && p.guard.twoTensors
    requires StateOf(p.guard) == Some(k)
    ensures SameTensors(p, w, c) && (!HidesItem(p.guard) ==> SameItems(p, w, c))
  {
    ValueAt(c, 2);
    forall i | 0 <= i < 3
      ensures |Values(p.call)| == 3 && |Contracts(p.guard)| == 3
      ensures SameValue(Values(p.call)[i], Contracts(p.guard)[i], w, Values(c)[i])
    {
      ValueAt(p.call, i);
      ContractAt(p.guard, i);
      assert RecordedValue(Contracts(p.guard)[i], Values(p.call)[i]);
    }
    forall i | 0 <= i < 3 && Values(c)[i].Tensor? && Contracts(p.guard)[i].TensorContract?
        && Contracts(p.guard)[i].item.Some?
      ensures HidesItem(p.guard)
    {
      ContractAt(p.guard, i);
    }
  }

  /** The exception is real: whenever a call of two tensors binds a number of one of them,
      changing that number in place leaves the call one that the guard accepts, although the
      recorded number is gone. */
  lemma {:induction false} BoundNumberGoesStale(abi: Abi, w: World, c: Call, plan: nat, cacheable: bool,
          token: Option<nat>)
    returns (changed: World)
    requires BindsNumber(abi, w, c)
    ensures var p := Prepared(GuardOf(abi, w, c), c, plan, cacheable, token);
            Callable(changed, c) && Matches(p.guard, changed, c, None) && !SameItems(p, changed, c)
    ensures changed.Keys == w.Keys && forall s :: s in w ==> SeenNow(changed, s) == SeenNow(w, s)
  {
    hide Contracts;
    var p := Prepared(GuardOf(abi, w, c), c, plan, cacheable, token);
    var k :| 0 <= k < 2 && k in abi.positions && c.args[k].serial in w && w[c.args[k].serial].Item().Some?;
    ValueAt(c, 0);
    ValueAt(c, 1);
    ContractAt(p.guard, k);
    var s := c.args[k].serial;
    changed := w[s := w[s].(number := w[s].number + 1)];
    assert Callable(changed, c);
    assert KeyOf(p.guard, changed, c) == KeyOf(p.guard, w, c) == StateOf(p.guard);
    assert Values(c)[k].Tensor? && changed[s].Item() != Contracts(p.guard)[k].item;
  }

  // ----- the table -----

  function Lookup(table: seq<Entry>, i: Identity): Option<Prepared> {
    if table == [] then None else if table[0].identity == i then Some(table[0].prepared) else Lookup(table[1..], i)
  }

  function Remove(table: seq<Entry>, i: Identity): (r: seq<Entry>)
    ensures |r| <= |table|
  {
    if table == [] then [] else if table[0].identity == i then table[1..] else [table[0]] + Remove(table[1..], i)
  }

  predicate DistinctKeys(table: seq<Entry>) {
    forall a, b :: 0 <= a < b < |table| ==> table[a].identity != table[b].identity
  }

  /** Removing a key keeps exactly the other entries, in order. */
  lemma {:induction false} RemoveKeeps(table: seq<Entry>, i: Identity)
    requires DistinctKeys(table)
    ensures DistinctKeys(Remove(table, i))
    ensures forall e :: e in Remove(table, i) <==> e in table && e.identity != i
    ensures |Remove(table, i)| == if Lookup(table, i).Some? then |table| - 1 else |table|
    ensures Lookup(table, i).Some? ==> Entry(i, Lookup(table, i).value) in table
    ensures forall e :: e in table && e.identity == i ==> Lookup(table, i) == Some(e.prepared)
  {
    if table != [] {
      var rest := table[1..];
      assert table == [table[0]] + rest;
      RemoveKeeps(rest, i);
      assert forall e :: e in rest ==> e.identity != table[0].identity;
      if table[0].identity != i {
        KeysCons(table[0], Remove(rest, i));
      }
    }
  }

  lemma {:induction false} KeysCons(e: Entry, table: seq<Entry>)
    requires DistinctKeys(table) && forall f :: f in table ==> f.identity != e.identity
    ensures DistinctKeys([e] + table)
  {
  }

  lemma {:induction false} KeysSnoc(table: seq<Entry>, e: Entry)
    requires DistinctKeys(table) && forall f :: f in table ==> f.identity != e.identity
    ensures DistinctKeys(table + [e])
  {
  }

  /** A weak reference of a remembered launch with its callback. */
  datatype Armed = Armed(token: nat, identity: Identity, owners: set<Serial>)

  function Owners(p: Prepared): set<Serial> {
    set k | 0 <= k < |Values(p.call)| && Values(p.call)[k].Tensor? :: Values(p.call)[k].serial
  }

  /** A stored launch: made properly, filed under its identity, armed with callbacks, and
      all its tensors alive. */
  predicate Stored(abi: Abi, e: Entry, live: World, armed: seq<Armed>) {
    && Recorded(e.prepared) && MadeFor(abi, e.prepared) && Alive(e.prepared, live) && Filed(e.identity, e.prepared)
    && e.prepared.token.Some? && Armed(e.prepared.token.value, e.identity, Owners(e.prepared)) in armed
  }

  predicate OneToken(armed: seq<Armed>) {
    forall a, b :: a in armed && b in armed && a.token == b.token ==> a == b
  }

  class VerifiedLaunch {
    const abi: Abi
    var live: World
    var table: seq<Entry>
    var active: Option<Entry>
    var armed: seq<Armed>
    var tokens: nat
    /** Every object there has been. */
    ghost var born: set<Serial>

    /** Every stored launch is filed, armed and alive; a token belongs to one identity;
        the table never exceeds its size. */
    ghost predicate Valid()
      reads this
    {
      && DistinctIds(live) && DistinctKeys(table) && |table| <= CACHE_SIZE
      && (forall e :: e in table ==> Stored(abi, e, live, armed))
      && (active.Some? ==> Stored(abi, active.value, live, armed))
      && (forall a :: a in armed ==> a.token < tokens && a.owners <= born)
      && live.Keys <= born && OneToken(armed)
    }

    constructor (abi: Abi)
      ensures Valid() && this.abi == abi && live == map[] && table == [] && active == None && born == {}
    {
      this.abi := abi;
      live, table, active, armed, tokens := map[], [], None, [], 0;
      born := {};
    }

    /** A new tensor; its id may have belonged to a dead one. */
    method Create(s: Serial, o: Obj)
      requires Valid() && s !in born && forall t :: t in live ==> live[t].id != o.id
      modifies this
      ensures Valid() && live == old(live)[s := o] && table == old(table) && active == old(active)
      ensures born == old(born) + {s}
    {
      live := live[s := o];
      born := born + {s};
    }

    /** A tensor changes in place; it stays the same object. */
    method Change(s: Serial, state: State, number: int)
      requires Valid() && s in live
      modifies this
      ensures Valid() && live == old(live)[s := Obj(old(live)[s].id, old(live)[s].typ, state, number)]
      ensures table == old(table) && active == old(active) && born == old(born)
    {
      live := live[s := Obj(live[s].id, live[s].typ, state, number)];
    }

    /** The callback of a dead owner. */
    method Evict(identity: Identity, token: nat)
      requires DistinctKeys(table)
      modifies this
      ensures live == old(live) && armed == old(armed) && tokens == old(tokens) && born == old(born)
      ensures DistinctKeys(table) && |table| <= |old(table)|
      ensures forall e :: e in table <==>
          e in old(table) && !(e.identity == identity && e.prepared.token == Some(token))
      ensures active == if old(active).Some? && old(active).value.prepared.token == Some(token) then None
          else old(active)
    {
      RemoveKeeps(table, identity);
      var cached := Lookup(table, identity);
      if cached.Some? && cached.value.token == Some(token) {
        table := Remove(table, identity);
      }
      if active.Some? && active.value.prepared.token == Some(token) {
        active := None;
      }
    }

    /** A tensor dies. Every weak reference to it calls back before anything else runs, and
        no remembered launch refers to it any more. */
    method Collect(s: Serial)
      requires Valid() && s in live
      modifies this
      ensures Valid() && live == old(live) - {s} && born == old(born)
      ensures forall e :: e in table <==> e in old(table) && s !in Owners(e.prepared)
      ensures active == if old(active).Some? && s in Owners(old(active).value.prepared) then None else old(active)
    {
      live := live - {s};
      for n := 0 to |armed|
        invariant live == old(live) - {s} && armed == old(armed) && tokens == old(tokens) && born == old(born)
        invariant DistinctKeys(table) && |table| <= CACHE_SIZE
        invariant forall e :: e in table <==> e in old(table) && !Called(armed[..n], s, e)
        invariant active == if old(active).Some? && CalledToken(armed[..n], s, old(active).value) then None
            else old(active)
      {
        var a := armed[n];
        CalledSnoc(armed[..n], a, s);
        assert armed[..n + 1] == armed[..n] + [a];
        if s in a.owners {
          Evict(a.identity, a.token);
        }
      }
      assert armed[..|armed|] == armed;
      forall e: Entry | Stored(abi, e, old(live), armed)
        ensures (Called(armed, s, e) <==> s in Owners(e.prepared))
        ensures (CalledToken(armed, s, e) <==> s in Owners(e.prepared))
        ensures s !in Owners(e.prepared) ==> Stored(abi, e, live, armed)
      {
        CalledWhenOwned(abi, e, old(live), armed, s);
      }
    }

    /** Arm a freshly prepared launch with callbacks, make it the newest table entry and
        the active one; a full table first gives up its oldest entry. */
    method Remember(identity: Identity, prepared: Prepared) returns (r: Option<Prepared>)
      requires Valid() && Recorded(prepared) && MadeFor(abi, prepared) && Alive(prepared, live)
      requires Filed(identity, prepared)
      modifies this
      ensures Valid() && live == old(live) && born == old(born)
      ensures r == if prepared.cacheable then Some(prepared.(token := Some(old(tokens)))) else None
      ensures r.None? ==> table == old(table) && active == old(active)
      ensures r.Some? ==>
          table == Inserted(old(table), Entry(identity, r.value)) && active == Some(Entry(identity, r.value))
    {
      if !prepared.cacheable {
        return None;
      }
      var remembered := prepared.(token := Some(tokens));
      var entry := Entry(identity, remembered);
      ArmNew(abi, entry, prepared, live, armed, tokens, born);
      hide Stored, Recorded, Alive, Filed, OneToken, Remove, DistinctKeys;
      forall e | e in table || active == Some(e)
        ensures Stored(abi, e, live, armed + [Armed(tokens, identity, Owners(prepared))])
      {
        StillStored(abi, e, live, armed, Armed(tokens, identity, Owners(prepared)));
      }
      armed := armed + [Armed(tokens, identity, Owners(prepared))];
      tokens := tokens + 1;
      InsertedKeeps(table, entry);
      table := Remove(table, identity);
      if |table| >= CACHE_SIZE {
        table := table[1..];
      }
      table := table + [entry];
      active := Some(entry);
      r := Some(remembered);
    }

    /** One call. It runs the active launch if the call's identity and guard select it, or
        else the table's, which becomes the newest and active one, or else a launch prepared
        now. A launch that is run again has the same live tensors and values, except that a
        call of two tensors overlooks the number of a tensor that it binds to a scalar. */
    method Verified(call: Call, plan: nat, cacheable: bool) returns (invoked: Prepared, isNew: bool)
      requires Valid() && Callable(live, call)
      modifies this
      ensures Valid() && live == old(live) && born == old(born)
      ensures SameTensors(invoked, live, call)
      ensures SameItems(invoked, live, call) || (!isNew && BindsNumber(abi, live, call))
      ensures var key, identity := KeyFor(old(active), live, call), IdentityFor(old(active), live, call);
              var cached := Lookup(old(table), identity);
              if old(active).Some? && identity == old(active).value.identity
                  && Matches(old(active).value.prepared.guard, live, call, key) then
                !isNew && invoked == old(active).value.prepared && table == old(table) && active == old(active)
              else if cached.Some? && Matches(cached.value.guard, live, call, key) then
                !isNew && invoked == cached.value
                    && table == Remove(old(table), identity) + [Entry(identity, cached.value)]
                    && active == Some(Entry(identity, cached.value))
              else
                && isNew
                && invoked == Prepared(GuardOf(abi, live, call), call, plan, cacheable,
                    if cacheable then Some(old(tokens)) else None)
                && var rest, entry := Remove(old(table), identity), Entry(FiledUnder(invoked.guard, identity), invoked);
                   if cacheable then table == Inserted(rest, entry) && active == Some(entry)
                       else table == rest && active == old(active)
    {
      hide Stored, Matches, SameTensors, SameItems, Recorded, Alive, Filed, BindsNumber, Remove, Contracts, ReadFrom,
          OneToken, MadeFor, KeyOf, CallIdentity, GuardOf, Inserted, Callable, Lookup, DistinctKeys, KeyIdentity;
      var key := KeyFor(active, live, call);
      if key.Some? {
        KeyReadFrom(active.value.prepared.guard, live, call);
      }
      var identity := IdentityFor(active, live, call);
      if active.Some? && identity == active.value.identity && Matches(active.value.prepared.guard, live, call, key) {
        Reusable(abi, active.value, live, armed, call, identity, key);
        return active.value.prepared, false;
      }
      RemoveKeeps(table, identity);
      var cached := Lookup(table, identity);
      table := Remove(table, identity);
      if cached.Some? && Matches(cached.value.guard, live, call, key) {
        var entry := Entry(identity, cached.value);
        Reusable(abi, entry, live, armed, call, identity, key);
        KeysSnoc(table, entry);
        table := table + [entry];
        active := Some(entry);
        return cached.value, false;
      }
      isNew := true;
      invoked := Prepared(GuardOf(abi, live, call), call, plan, cacheable, None);
      MadeRecorded(abi, live, call, plan, cacheable, None);
      MadeFiled(abi, live, call, invoked, identity, key);
      var remembered := Remember(FiledUnder(invoked.guard, identity), invoked);
      if remembered.Some? {
        MadeRecorded(abi, live, call, plan, cacheable, remembered.value.token);
        invoked := remembered.value;
      }
    }
  }

  /** The call key that the active launch's guard reads from a call. */
  function KeyFor(active: Option<Entry>, w: World, c: Call): Option<CallKey>
    requires Callable(w, c)
  {
    if active.Some? && active.value.prepared.guard.twoTensors then KeyOf(active.value.prepared.guard, w, c) else None
  }

  function IdentityFor(active: Option<Entry>, w: World, c: Call): Identity
    requires Callable(w, c)
  {
    var key := KeyFor(active, w, c);
    if key.Some? then KeyIdentity(key.value) else CallIdentity(w, c)
  }

  /** A launch of two tensors is filed under their state, any other as it was looked up. */
  function FiledUnder(g: Guard, identity: Identity): Identity {
    if StateOf(g).Some? then KeyIdentity(StateOf(g).value) else identity
  }

  // ----- a stale number -----

  function StaleCall(): Call {
    Call([Tensor(0), Tensor(1)], [("k", Scalar(7, 0, 5))])
  }

  /** A kernel binds the number of its first tensor to a scalar. The tensor's number changes
      in place between two calls, and the second runs the launch prepared for the first. */
  method StaleNumber() returns (first: Prepared, second: Prepared, live: World)
    ensures Callable(live, StaleCall()) && SameTensors(second, live, StaleCall())
    ensures second == first && !SameItems(second, live, StaleCall())
  {
    hide Remove, Matches, GuardOf, KeyOf, CallIdentity, Inserted, SameTensors, SameItems, BindsNumber;
    var call := StaleCall();
    ValueAt(call, 0);
    ValueAt(call, 1);
    ValueAt(call, 2);
    var cache := new VerifiedLaunch(Abi({0}, {}));
    cache.Create(0, Obj(10, 0, State(0, 0), 1));
    cache.Create(1, Obj(11, 0, State(1, 0), 0));
    ghost var before := cache.live;
    var isNew: bool;
    first, isNew := cache.Verified(call, 1, true);
    cache.Change(0, State(0, 0), 2);
    live := cache.live;
    NumberChanged(cache.abi, before, live, first, cache.active);
    second, isNew := cache.Verified(call, 2, true);
  }

  lemma {:induction false} NumberChanged(abi: Abi, before: World, live: World, first: Prepared, active: Option<Entry>)
    requires abi.positions == {0} && before == map[0 := Obj(10, 0, State(0, 0), 1), 1 := Obj(11, 0, State(1, 0), 0)]
    requires live == before[0 := Obj(10, 0, State(0, 0), 2)] && Callable(before, StaleCall())
    requires Callable(live, StaleCall())
    requires first.guard == GuardOf(abi, before, StaleCall()) && first.call == StaleCall()
    requires active.Some? && active.value.prepared == first && StateOf(first.guard).Some? ==>
        active.value.identity == KeyIdentity(StateOf(first.guard).value)
    ensures !SameItems(first, live, StaleCall())
    ensures active.Some? && active.value.prepared == first ==>
              IdentityFor(active, live, StaleCall()) == active.value.identity
                  && Matches(first.guard, live, StaleCall(), KeyFor(active, live, StaleCall()))
  {
    var call := StaleCall();
    ValueAt(call, 0);
    ValueAt(call, 1);
    ContractAt(first.guard, 0);
    assert KeyOf(first.guard, live, call) == StateOf(first.guard);
  }

  /** `_remember_verified_runtime_call` on the table. */
  function Inserted(table: seq<Entry>, e: Entry): seq<Entry> {
    var rest := Remove(table, e.identity);
    (if |rest| >= CACHE_SIZE then rest[1..] else rest) + [e]
  }

  lemma {:induction false} InsertedKeeps(table: seq<Entry>, e: Entry)
    requires DistinctKeys(table) && |table| <= CACHE_SIZE
    ensures DistinctKeys(Inserted(table, e)) && |Inserted(table, e)| <= CACHE_SIZE
    ensures forall f :: f in Inserted(table, e) ==> f == e || f in table
  {
    RemoveKeeps(table, e.identity);
    var rest := Remove(table, e.identity);
    KeysSnoc(if |rest| >= CACHE_SIZE then rest[1..] else rest, e);
  }

  lemma {:induction false} StillStored(abi: Abi, e: Entry, live: World, armed: seq<Armed>, a: Armed)
    requires Stored(abi, e, live, armed)
    ensures Stored(abi, e, live, armed + [a])
  {
  }

  lemma {:induction false} ArmNew(abi: Abi, e: Entry, prepared: Prepared, live: World, armed: seq<Armed>, token: nat,
          born: set<Serial>)
    requires Recorded(prepared) && MadeFor(abi, prepared) && Alive(prepared, live) && Filed(e.identity, prepared)
    requires e.prepared == prepared.(token := Some(token))
    requires live.Keys <= born && OneToken(armed) && forall a :: a in armed ==> a.token < token && a.owners <= born
    ensures var more := armed + [Armed(token, e.identity, Owners(prepared))];
            Stored(abi, e, live, more) && OneToken(more) && forall a :: a in more ==>
                a.token < token + 1 && a.owners <= born
  {
    OwnersBorn(prepared, live, born);
    assert Armed(token, e.identity, Owners(prepared)) in armed + [Armed(token, e.identity, Owners(prepared))];
    assert Owners(e.prepared) == Owners(prepared);
  }

  lemma {:induction false} OwnersBorn(p: Prepared, live: World, born: set<Serial>)
    requires Alive(p, live) && live.Keys <= born
    ensures Owners(p) <= born
  {
  }

  /** A stored launch that the call's identity and guard select is the right one. */
  lemma {:induction false} Reusable(abi: Abi, e: Entry, live: World, armed: seq<Armed>, c: Call, identity: Identity,
          key: Option<CallKey>)
    requires DistinctIds(live) && Callable(live, c) && Stored(abi, e, live, armed) && e.identity == identity
    requires Matches(e.prepared.guard, live, c, key) && (key.Some? ==> ReadFrom(key.value, live, c))
    requires identity == if key.Some? then KeyIdentity(key.value) else CallIdentity(live, c)
    ensures SameTensors(e.prepared, live, c) && (SameItems(e.prepared, live, c) || BindsNumber(abi, live, c))
  {
    if e.prepared.guard.twoTensors {
      KeyReadFrom(e.prepared.guard, live, c);
      KeyMatch(e.prepared, live, c, StateOf(e.prepared.guard).value);
      HiddenIsBound(abi, e.prepared, live, c);
    } else {
      IdsMatch(e.prepared, live, c, identity);
    }
  }

  /** A fresh launch is remembered under the identity that later calls will look up. */
  lemma {:induction false} MadeFiled(abi: Abi, w: World, c: Call, p: Prepared, identity: Identity, key: Option<CallKey>)
    requires Callable(w, c) && p.guard == GuardOf(abi, w, c) && p.call == c && Recorded(p)
    requires key.Some? ==> ReadFrom(key.value, w, c)
    requires identity == if key.Some? then KeyIdentity(key.value) else CallIdentity(w, c)
    ensures Filed(if StateOf(p.guard).Some? then KeyIdentity(StateOf(p.guard).value) else identity, p)
  {
    if TwoTensorCall(c) {
      ValueAt(c, 0);
      ValueAt(c, 1);
      assert StateOf(p.guard).Some?;
    } else {
      forall k | 0 <= k < |Values(c)| && Contracts(p.guard)[k].TensorContract?
        ensures IdOf(w, Values(c)[k]) == Contracts(p.guard)[k].id
      {
        ValueAt(c, k);
        ContractAt(p.guard, k);
      }
    }
  }

  /** Some callback for `s` has named this entry. */
  ghost predicate Called(armed: seq<Armed>, s: Serial, e: Entry) {
    exists n :: 0 <= n < |armed| && s in armed[n].owners && armed[n].identity == e.identity
        && Some(armed[n].token) == e.prepared.token
  }

  ghost predicate CalledToken(armed: seq<Armed>, s: Serial, e: Entry) {
    exists n :: 0 <= n < |armed| && s in armed[n].owners && Some(armed[n].token) == e.prepared.token
  }

  /** The callbacks for `s` name exactly the stored launches that refer to it. */
  lemma {:induction false} CalledWhenOwned(abi: Abi, e: Entry, live: World, armed: seq<Armed>, s: Serial)
    requires Stored(abi, e, live, armed) && OneToken(armed)
    ensures (Called(armed, s, e) <==> s in Owners(e.prepared))
    ensures (CalledToken(armed, s, e) <==> s in Owners(e.prepared))
    ensures s !in Owners(e.prepared) ==> Stored(abi, e, live - {s}, armed)
  {
    var own := Armed(e.prepared.token.value, e.identity, Owners(e.prepared));
    var n :| 0 <= n < |armed| && armed[n] == own;
    forall m | 0 <= m < |armed| && Some(armed[m].token) == e.prepared.token
      ensures armed[m] == own
    {
      assert armed[m] in armed && own in armed;
    }
  }

  lemma {:induction false} CalledSnoc(armed: seq<Armed>, a: Armed, s: Serial)
    ensures forall e :: Called(armed + [a], s, e) <==>
        Called(armed, s, e) || (s in a.owners && a.identity == e.identity && Some(a.token) == e.prepared.token)
    ensures forall e :: CalledToken(armed + [a], s, e) <==>
        CalledToken(armed, s, e) || (s in a.owners && Some(a.token) == e.prepared.token)
  {
    var all := armed + [a];
    assert all[|armed|] == a;
    forall e | Called(armed, s, e)
      ensures Called(all, s, e)
    {
      var n :| 0 <= n < |armed| && s in armed[n].owners && armed[n].identity == e.identity
          && Some(armed[n].token) == e.prepared.token;
      assert all[n] == armed[n];
    }
    forall e | CalledToken(armed, s, e)
      ensures CalledToken(all, s, e)
    {
      var n :| 0 <= n < |armed| && s in armed[n].owners && Some(armed[n].token) == e.prepared.token;
      assert all[n] == armed[n];
    }
  }
}
