/** When a call is answered by the launch that was prepared for it: at once always, later exactly
    if the active launch leads to it. */
module RepeatedCalls {
  import opened Wrappers
  import opened LaunchCache

  /** The guard of a call accepts that call while nothing changes, by the key it reads itself. */
  lemma {:induction false} OwnGuardMatches(abi: Abi, w: World, c: Call)
    requires Callable(w, c)
    ensures
      var g := GuardOf(abi, w, c);
      && Matches(g, w, c, if g.twoTensors then KeyOf(g, w, c) else None)
      && (g.twoTensors <==> TwoTensorCall(c)) && (TwoTensorCall(c) ==> KeyOf(g, w, c) == StateOf(g) && StateOf(g).Some?)
  {
    var g := GuardOf(abi, w, c);
    if TwoTensorCall(c) {
      ValueAt(c, 0);
      ValueAt(c, 1);
    } else {
      forall k | 0 <= k < |Values(c)|
        ensures |Contracts(g)| == |Values(c)| && ContractMatches(w, Contracts(g)[k], Values(c)[k])
      {
        ValueAt(c, k);
        ContractAt(g, k);
      }
    }
  }

  /** A call that is not of two tensors has no key, whatever is active. */
  lemma {:induction false} OnlyTwoTensorsHaveKeys(g: Guard, w: World, c: Call)
    requires Callable(w, c) && !TwoTensorCall(c)
    ensures KeyOf(g, w, c) == None
  {
  }

  /** Every key of one call in one state is the same. */
  lemma {:induction false} KeysAgree(g: Guard, h: Guard, w: World, c: Call)
    requires Callable(w, c) && KeyOf(g, w, c).Some? && KeyOf(h, w, c).Some?
    ensures KeyOf(g, w, c) == KeyOf(h, w, c)
  {
    KeyReadFrom(g, w, c);
    KeyReadFrom(h, w, c);
  }

  /** The key under which a call is looked up exists exactly if it is a call of two tensors and the
      active launch was made for such a call with the same keyword and type of scalar. */
  lemma {:induction false} KeyExactly(active: Option<Entry>, w: World, c: Call)
    requires Callable(w, c)
    ensures KeyFor(active, w, c).Some? <==>
        && TwoTensorCall(c) && active.Some? && active.value.prepared.guard.twoTensors
        && |active.value.prepared.guard.keywords| == 1
        && var (name, contract) := active.value.prepared.guard.keywords[0];
           contract.ScalarContract? && name == c.kwargs[0].0 && contract.typ == c.kwargs[0].1.typ
  {
    if TwoTensorCall(c) {
      ValueAt(c, 0);
      ValueAt(c, 1);
    }
  }

  lemma {:induction false} LookupFinds(table: seq<Entry>, e: Entry)
    requires DistinctKeys(table) && e in table
    ensures Lookup(table, e.identity) == Some(e.prepared)
    decreases |table|
  {
    if table[0] != e {
      var n :| 0 <= n < |table| && table[n] == e;
      assert table[0].identity != table[n].identity && table[1..][n - 1] == e;
      LookupFinds(table[1..], e);
    }
  }

  lemma {:induction false} LookupIsIn(table: seq<Entry>, i: Identity)
    ensures Lookup(table, i).Some? ==> Entry(i, Lookup(table, i).value) in table
    decreases |table|
  {
    if table != [] && table[0].identity != i {
      LookupIsIn(table[1..], i);
    }
  }

  /** A launch that is still in the table, in an unchanged world: its call finds it exactly if it is
      no call of two tensors, or the active launch reads a key from it. */
  lemma {:induction false} StoredLaunchFound(abi: Abi, w: World, c: Call, table: seq<Entry>, active: Option<Entry>,
          e: Entry, before: Option<Entry>)
    requires Callable(w, c) && DistinctKeys(table) && e in table && e.prepared.guard == GuardOf(abi, w, c)
    requires e.identity == FiledUnder(e.prepared.guard, IdentityFor(before, w, c))
    requires forall f :: f in table ==> Filed(f.identity, f.prepared)
    ensures
      var key, identity := KeyFor(active, w, c), IdentityFor(active, w, c);
      (Lookup(table, identity) == Some(e.prepared) && Matches(e.prepared.guard, w, c, key)) <==>
          (!TwoTensorCall(c) || key.Some?)
  {
    var g, key, identity := e.prepared.guard, KeyFor(active, w, c), IdentityFor(active, w, c);
    OwnGuardMatches(abi, w, c);
    LookupFinds(table, e);
    hide Matches, GuardOf, StateOf, Filed, Lookup;
    if TwoTensorCall(c) {
      if key.Some? {
        KeysAgree(g, active.value.prepared.guard, w, c);
      } else {
        LookupIsIn(table, identity);
        NotFiledByIds(identity, e.prepared);
      }
    } else {
      OnlyTwoTensorsHaveKeys(g, w, c);
      if active.Some? {
        OnlyTwoTensorsHaveKeys(active.value.prepared.guard, w, c);
      }
      if before.Some? {
        OnlyTwoTensorsHaveKeys(before.value.prepared.guard, w, c);
      }
      NoState(abi, w, c);
    }
  }

  lemma {:induction false} NotFiledByIds(i: Identity, p: Prepared)
    requires i.ByIds? && p.guard.twoTensors
    ensures !Filed(i, p)
  {
  }

  lemma {:induction false} NoState(abi: Abi, w: World, c: Call)
    requires Callable(w, c) && !TwoTensorCall(c)
    ensures StateOf(GuardOf(abi, w, c)) == None
  {
  }

  /** A cacheable call made twice in a row prepares one launch: the second call runs the first's. */
  method CallTwice(cache: VerifiedLaunch, call: Call, plan: nat, later: nat, again: bool)
    returns (first: Prepared, second: Prepared, prepared: bool)
    requires cache.Valid() && Callable(cache.live, call)
    modifies cache
    ensures cache.Valid() && cache.live == old(cache.live) && Callable(cache.live, call)
    ensures second == first && !prepared
  {
    hide Matches, GuardOf, KeyOf, CallIdentity, Inserted, SameTensors, SameItems, BindsNumber, Remove, Lookup, StateOf;
    ghost var active, w := cache.active, cache.live;
    var isNew: bool;
    first, isNew := cache.Verified(call, plan, true);
    NextSelects(cache.abi, w, call, active, cache.active, first, isNew);
    second, prepared := cache.Verified(call, later, again);
  }

  /** Whatever answered a call is active afterwards, and is selected by the same call. */
  lemma {:induction false} NextSelects(abi: Abi, w: World, c: Call, before: Option<Entry>, active: Option<Entry>,
          p: Prepared, isNew: bool)
    requires Callable(w, c) && active.Some? && active.value.prepared == p
    requires
      var key, identity := KeyFor(before, w, c), IdentityFor(before, w, c);
      if isNew then p.guard == GuardOf(abi, w, c) && active.value.identity == FiledUnder(p.guard, identity)
      else Matches(p.guard, w, c, key) && Filed(identity, p) && active.value.identity == identity
    ensures IdentityFor(active, w, c) == active.value.identity && Matches(p.guard, w, c, KeyFor(active, w, c))
  {
    OwnGuardMatches(abi, w, c);
    if before.Some? && KeyOf(before.value.prepared.guard, w, c).Some? {
      KeyReadFrom(before.value.prepared.guard, w, c);
    }
    if !TwoTensorCall(c) {
      OnlyTwoTensorsHaveKeys(p.guard, w, c);
      NoState(abi, w, c);
      if before.Some? {
        OnlyTwoTensorsHaveKeys(before.value.prepared.guard, w, c);
      }
    }
    if p.guard.twoTensors && KeyOf(p.guard, w, c).Some? {
      KeyReadFrom(p.guard, w, c);
    }
  }

  function OtherCall(): Call {
    Call([Tensor(0)], [])
  }

  function TwoTensors(): World {
    map[0 := Obj(10, 0, State(1, 0), 0), 1 := Obj(11, 0, State(1, 0), 0)]
  }

  /** The identities that the three calls are looked up and filed under. */
  lemma {:induction false} Identities(abi: Abi)
    ensures Callable(TwoTensors(), StaleCall()) && Callable(TwoTensors(), OtherCall())
    ensures
      var w, g, h := TwoTensors(), GuardOf(abi, TwoTensors(), StaleCall()), GuardOf(abi, TwoTensors(), OtherCall());
      && StateOf(g).Some? && g.twoTensors && !h.twoTensors && StateOf(h) == None && KeyOf(g, w, OtherCall()) == None
      && CallIdentity(w, OtherCall()) != CallIdentity(w, StaleCall())
      && CallIdentity(w, OtherCall()).ByIds? && CallIdentity(w, StaleCall()).ByIds?
  {
    var call, other := StaleCall(), OtherCall();
    ValueAt(call, 0);
    ValueAt(call, 1);
    ValueAt(call, 2);
    ValueAt(other, 0);
    OwnGuardMatches(abi, TwoTensors(), call);
  }

  lemma {:induction false} TableSteps(table: seq<Entry>, i: Identity, e: Entry)
    requires |table| <= 1 && (table != [] ==> table[0].identity != i && table[0].identity != e.identity)
    ensures Lookup(table, i) == None && Remove(table, i) == table && Inserted(table, e) == table + [e]
  {
    if table != [] {
      assert table[1..] == [] && table == [table[0]] + table[1..];
    }
  }

  /** A call of two tensors, another call, and the first again: its launch is still in the table, but
      the call is looked up by ids and prepared anew. */
  method ForgottenCall() returns (first: Prepared, table: seq<Entry>, prepared: bool)
    ensures prepared && first.call == StaleCall() && exists e :: e in table && e.prepared == first
  {
    hide Remove, Matches, GuardOf, KeyOf, CallIdentity, Inserted, SameTensors, SameItems, BindsNumber, Lookup, StateOf,
        Callable;
    var cache := new VerifiedLaunch(Abi({}, {}));
    cache.Create(0, Obj(10, 0, State(1, 0), 0));
    cache.Create(1, Obj(11, 0, State(1, 0), 0));
    Identities(cache.abi);
    assert cache.live == TwoTensors();
    var isNew: bool;
    first, isNew := cache.Verified(StaleCall(), 1, true);
    TableSteps([], CallIdentity(TwoTensors(), StaleCall()), cache.active.value);
    var second: Prepared;
    ghost var before := cache.table;
    second, isNew := cache.Verified(OtherCall(), 2, true);
    TableSteps(before, CallIdentity(TwoTensors(), OtherCall()), cache.active.value);
    table := cache.table;
    assert before[0] in table && before[0].prepared == first;
    NoneByIds(table, CallIdentity(TwoTensors(), StaleCall()));
    var third: Prepared;
    third, prepared := cache.Verified(StaleCall(), 3, true);
  }

  lemma {:induction false} NoneByIds(table: seq<Entry>, i: Identity)
    requires forall e :: e in table ==> e.identity != i
    ensures Lookup(table, i) == None
    decreases |table|
  {
    if table != [] {
      NoneByIds(table[1..], i);
    }
  }
}
