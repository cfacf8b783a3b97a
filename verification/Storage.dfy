/** Copying a graph of overlapping strided views: group the views by the bytes they span,
    give every group a buffer, and place each view at the same distance in it. */
module Storage {
  import opened Arithmetic
  import opened Sorting
  import opened Strides

  /** A numeric array object: `id` is its identity, strides are in bytes. */
  datatype View = View(id: nat, address: int, shape: seq<nat>, strides: seq<int>, itemsize: nat)

  predicate WellFormed(v: View) {
    |v.shape| == |v.strides| && v.itemsize > 0
  }

  predicate Empty(shape: seq<nat>) {
    exists d :: 0 <= d < |shape| && shape[d] == 0
  }

  /** The sums of the negative and of the positive extents. */
  function Lowest(shape: seq<nat>, strides: seq<int>): (r: int)
    requires |shape| == |strides|
    ensures !Empty(shape) ==> r <= 0
  {
    if shape == [] then 0
    else
      assert !Empty(shape) ==> !Empty(shape[1..]) && shape[0] > 0;
      var extent := (shape[0] - 1) * strides[0];
      (if extent < 0 then extent else 0) + Lowest(shape[1..], strides[1..])
  }

  function Highest(shape: seq<nat>, strides: seq<int>): (r: int)
    requires |shape| == |strides|
    ensures !Empty(shape) ==> r >= 0
  {
    if shape == [] then 0
    else
      assert !Empty(shape) ==> !Empty(shape[1..]) && shape[0] > 0;
      var extent := (shape[0] - 1) * strides[0];
      (if extent > 0 then extent else 0) + Highest(shape[1..], strides[1..])
  }

  function Low(v: View): int {
    v.address + if Empty(v.shape) || !WellFormed(v) then 0 else Lowest(v.shape, v.strides)
  }

  function High(v: View): int {
    v.address + if Empty(v.shape) || !WellFormed(v) then 0 else Highest(v.shape, v.strides) + v.itemsize
  }

  /** The element at `at` occupies the byte. */
  predicate Occupies(v: View, at: seq<int>, byte: int)
    requires WellFormed(v)
  {
    InRange(v.shape, at) && v.address + Address(v.strides, at) <= byte < v.address + Address(v.strides, at) + v.itemsize
  }

  lemma {:induction false} OneExtent(x: int, n: int, stride: int)
    requires 0 <= x < n
    ensures (if (n - 1) * stride < 0 then (n - 1) * stride else 0) <= x * stride <=
        (if (n - 1) * stride > 0 then (n - 1) * stride else 0)
  {
    if stride >= 0 {
      Scale(0, x, stride);
      Scale(x, n - 1, stride);
    } else {
      Scale(0, x, -stride);
      Scale(x, n - 1, -stride);
      assert x * stride == -(x * -stride) && (n - 1) * stride == -((n - 1) * -stride);
    }
  }

  lemma {:induction false} AddressWithin(shape: seq<nat>, strides: seq<int>, at: seq<int>)
    requires |shape| == |strides| && InRange(shape, at)
    ensures !Empty(shape) && Lowest(shape, strides) <= Address(strides, at) <= Highest(shape, strides)
  {
    forall d | 0 <= d < |shape|
      ensures shape[d] != 0
    {
      assert 0 <= at[d] < shape[d];
    }
    if shape != [] {
      AddressWithin(shape[1..], strides[1..], at[1..]);
      OneExtent(at[0], shape[0], strides[0]);
    }
  }

  /** Every byte a view can reach lies in its span. */
  lemma {:induction false} OccupiedInSpan(v: View, at: seq<int>, byte: int)
    requires WellFormed(v) && Occupies(v, at, byte)
    ensures Low(v) <= byte < High(v)
  {
    AddressWithin(v.shape, v.strides, at);
  }

  // ----- grouping -----

  /** The inputs whose spans overlap, directly or through others. */
  datatype Group = Group(low: int, high: int, members: seq<nat>)

  datatype Record = Record(index: nat, low: int, high: int)

  predicate LowPrecedes(a: Record, b: Record) {
    a.low <= b.low
  }

  predicate IndexPrecedes(a: nat, b: nat) {
    a <= b
  }

  function First(g: Group): nat {
    if g.members == [] then 0 else g.members[0]
  }

  predicate GroupPrecedes(a: Group, b: Group) {
    First(a) <= First(b)
  }

  predicate Differ(a: nat, b: nat) {
    a != b
  }

  /** Two groups share neither a byte nor a member. */
  predicate Apart(a: Group, b: Group) {
    (a.high <= b.low || b.high <= a.low) && forall m :: m in a.members ==> m !in b.members
  }

  /** Some member spans the bytes on both sides of `c`. */
  ghost predicate Crossed(g: Group, inputs: seq<View>, c: int) {
    exists m :: m in g.members && m < |inputs| && Low(inputs[m]) < c < High(inputs[m])
  }

  /** The span of a group covers exactly from its lowest to its highest member, and nowhere in
      between could the group be cut without cutting a member. */
  ghost predicate Spans(g: Group, inputs: seq<View>)
  {
    && (forall c :: g.low < c < g.high ==> Crossed(g, inputs, c))
    && g.members != [] && (forall n :: 0 <= n < |g.members| ==> g.members[n] < |inputs|)
    && (forall m :: m in g.members ==> m < |inputs| && g.low <= Low(inputs[m]) && High(inputs[m]) <= g.high)
    && (exists m :: m in g.members && m < |inputs| && Low(inputs[m]) == g.low)
    && (exists m :: m in g.members && m < |inputs| && High(inputs[m]) == g.high)
  }

  ghost predicate Covered(groups: seq<Group>, i: nat) {
    exists g :: 0 <= g < |groups| && i in groups[g].members
  }

  /** The groups partition the inputs into disjoint spans, in input order. */
  ghost predicate Partition(groups: seq<Group>, inputs: seq<View>)
  {
    && (forall g :: 0 <= g < |groups| ==>
        Spans(groups[g], inputs) && Pairwise(Differ, groups[g].members) && SortedBy(IndexPrecedes, groups[g].members))
    && Pairwise(Apart, groups) && SortedBy(GroupPrecedes, groups)
    && forall i: nat :: i < |inputs| ==> Covered(groups, i)
  }

  lemma {:induction false} LowBelowHigh(v: View)
    ensures Low(v) <= High(v)
  {
  }

  ghost predicate Fine(g: Group, inputs: seq<View>) {
    Spans(g, inputs) && Pairwise(Differ, g.members)
  }

  ghost predicate Rising(groups: seq<Group>) {
    forall g, h :: 0 <= g < h < |groups| ==> groups[g].high <= groups[h].low
  }

  /** While the records are visited by rising low address. */
  ghost predicate Growing(groups: seq<Group>, inputs: seq<View>, done: seq<Record>) {
    && (forall g :: 0 <= g < |groups| ==> Fine(groups[g], inputs))
    && Rising(groups) && Pairwise(Apart, groups)
    && (forall i: nat :: Covered(groups, i) <==> Done(done, i))
  }

  function Widened(g: Group, r: Record): Group {
    Group(g.low, if r.high > g.high then r.high else g.high, g.members + [r.index])
  }

  predicate RecordOf(r: Record, inputs: seq<View>)
  {
    r.index < |inputs| && r.low == Low(inputs[r.index]) && r.high == High(inputs[r.index])
  }

  lemma {:induction false} SpansWidened(g: Group, r: Record, inputs: seq<View>)
    requires Spans(g, inputs) && RecordOf(r, inputs) && g.low <= r.low < g.high && r.index !in g.members
    requires Pairwise(Differ, g.members)
    ensures Spans(Widened(g, r), inputs) && Pairwise(Differ, Widened(g, r).members)
  {
    hide Low, High;
    var w := Widened(g, r);
    var low :| low in g.members && low < |inputs| && Low(inputs[low]) == g.low;
    assert low in w.members;
    var high :| high in g.members && high < |inputs| && High(inputs[high]) == g.high;
    assert high in w.members && r.index in w.members;
    assert High(inputs[if r.high > g.high then r.index else high]) == w.high;
    forall c | w.low < c < w.high
      ensures Crossed(w, inputs, c)
    {
      if c < g.high {
        assert Crossed(g, inputs, c);
      } else {
        assert Low(inputs[r.index]) < c < High(inputs[r.index]);
      }
    }
  }

  lemma {:induction false} SpansOne(r: Record, inputs: seq<View>)
    requires RecordOf(r, inputs)
    ensures Spans(Group(r.low, r.high, [r.index]), inputs)
  {
    hide Low, High;
    var g := Group(r.low, r.high, [r.index]);
    assert r.index in g.members;
    forall c | g.low < c < g.high
      ensures Crossed(g, inputs, c)
    {
      assert Low(inputs[r.index]) < c < High(inputs[r.index]);
    }
  }

  lemma {:induction false} CoveredSnoc(groups: seq<Group>, g: Group)
    ensures forall i: nat :: Covered(groups + [g], i) <==> Covered(groups, i) || i in g.members
  {
    var all := groups + [g];
    assert all[|groups|] == g;
    forall i: nat | Covered(groups, i)
      ensures Covered(all, i)
    {
      var k :| 0 <= k < |groups| && i in groups[k].members;
      assert all[k] == groups[k];
    }
  }

  ghost predicate Done(done: seq<Record>, i: nat) {
    exists n :: 0 <= n < |done| && done[n].index == i
  }

  lemma {:induction false} DoneSnoc(done: seq<Record>, r: Record)
    ensures forall i: nat :: Done(done + [r], i) <==> Done(done, i) || i == r.index
  {
    var all := done + [r];
    assert all[|done|] == r;
    forall i: nat | Done(done, i)
      ensures Done(all, i)
    {
      var n :| 0 <= n < |done| && done[n].index == i;
      assert all[n] == done[n];
    }
  }

  lemma {:induction false} ApartSnoc(groups: seq<Group>, g: Group)
    requires Pairwise(Apart, groups) && forall k :: 0 <= k < |groups| ==> Apart(groups[k], g)
    ensures Pairwise(Apart, groups + [g])
  {
  }

  lemma {:induction false} GrowSnoc(before: seq<Group>, g: Group, inputs: seq<View>, done: seq<Record>)
    requires (forall k :: 0 <= k < |before| ==> Fine(before[k], inputs)) && Fine(g, inputs) && Rising(before)
    requires Pairwise(Apart, before)
    requires forall k :: 0 <= k < |before| ==> before[k].high <= g.low && Apart(before[k], g)
    requires forall i: nat :: Covered(before, i) || i in g.members <==> Done(done, i)
    ensures Growing(before + [g], inputs, done)
  {
    hide Fine, Covered, Done, Apart;
    CoveredSnoc(before, g);
    ApartSnoc(before, g);
  }

  lemma {:induction false} GroupLowBelowHigh(g: Group, inputs: seq<View>)
    requires Spans(g, inputs)
    ensures g.low <= g.high
  {
    var m :| m in g.members && m < |inputs| && Low(inputs[m]) == g.low;
    LowBelowHigh(inputs[m]);
  }

  /** The record touches the last group's span. */
  lemma {:induction false} GrowJoin(groups: seq<Group>, before: seq<Group>, last: Group, inputs: seq<View>,
          done: seq<Record>, r: Record)
    requires Growing(groups, inputs, done) && RecordOf(r, inputs) && groups == before + [last]
    requires last.low <= r.low < last.high && !Done(done, r.index)
    ensures Growing(before + [Widened(last, r)], inputs, done + [r])
  {
    hide Growing, Fine, Covered, Done, Apart, Widened, RecordOf;
    var w := Widened(last, r);
    GrowUnsnoc(groups, before, last, inputs, done);
    DoneSnoc(done, r);
    NotMember(before, r.index);
    FineWidened(last, r, inputs);
    forall k | 0 <= k < |before|
      ensures Apart(before[k], w) && before[k].high <= w.low
    {
      ApartWidened(before[k], last, r);
    }
    GrowSnoc(before, w, inputs, done + [r]);
  }

  lemma {:induction false} FineWidened(g: Group, r: Record, inputs: seq<View>)
    requires Fine(g, inputs) && RecordOf(r, inputs) && g.low <= r.low < g.high && r.index !in g.members
    ensures Fine(Widened(g, r), inputs)
    ensures forall i: nat :: i in Widened(g, r).members <==> i in g.members || i == r.index
  {
    SpansWidened(g, r, inputs);
  }

  lemma {:induction false} ApartWidened(a: Group, g: Group, r: Record)
    requires Apart(a, g) && a.high <= g.low && r.index !in a.members
    ensures Apart(a, Widened(g, r)) && a.high <= Widened(g, r).low
  {
  }

  lemma {:induction false} NotMember(groups: seq<Group>, i: nat)
    ensures !Covered(groups, i) <==> forall k :: 0 <= k < |groups| ==> i !in groups[k].members
  {
  }

  lemma {:induction false} GrowUnsnoc(groups: seq<Group>, before: seq<Group>, last: Group, inputs: seq<View>,
          done: seq<Record>)
    requires Growing(groups, inputs, done) && groups == before + [last]
    ensures (forall k :: 0 <= k < |before| ==> Fine(before[k], inputs)) && Fine(last, inputs) && Rising(before)
    ensures Pairwise(Apart, before)
    ensures forall k :: 0 <= k < |before| ==> before[k].high <= last.low && Apart(before[k], last)
    ensures forall i: nat :: Covered(before, i) || i in last.members <==> Done(done, i)
  {
    hide Fine, Covered, Done, Apart;
    CoveredSnoc(before, last);
    assert groups[|before|] == last;
    assert forall k :: 0 <= k < |before| ==> groups[k] == before[k];
    forall k | 0 <= k < |before|
      ensures Fine(before[k], inputs) && before[k].high <= last.low && Apart(before[k], last)
    {
      assert Fine(groups[k], inputs) && groups[k].high <= groups[|before|].low && Apart(groups[k], groups[|before|]);
    }
  }

  /** The record starts a group of its own. */
  lemma {:induction false} GrowAppend(groups: seq<Group>, inputs: seq<View>, done: seq<Record>, r: Record)
    requires Growing(groups, inputs, done) && RecordOf(r, inputs) && !Done(done, r.index)
    requires groups != [] ==> groups[|groups| - 1].high <= r.low
    ensures Growing(groups + [Group(r.low, r.high, [r.index])], inputs, done + [r])
  {
    var g := Group(r.low, r.high, [r.index]);
    SpansOne(r, inputs);
    DoneSnoc(done, r);
    assert !Covered(groups, r.index);
    forall k | 0 <= k < |groups|
      ensures groups[k].high <= g.low && Apart(groups[k], g)
    {
      assert r.index !in groups[k].members;
      if k < |groups| - 1 {
        var last := groups[|groups| - 1];
        assert groups[k].high <= last.low && Fine(last, inputs);
        GroupLowBelowHigh(last, inputs);
      }
    }
    assert Fine(g, inputs);
    hide Fine, Covered, Done, Apart;
    GrowSnoc(groups, g, inputs, done + [r]);
  }

  function Records(inputs: seq<View>): seq<Record> {
    seq(|inputs|, i requires 0 <= i < |inputs| => Record(i, Low(inputs[i]), High(inputs[i])))
  }

  predicate OtherIndex(a: Record, b: Record) {
    a.index != b.index
  }

  lemma {:induction false} SortedRecords(inputs: seq<View>)
    ensures var s := Sorted(Records(inputs), LowPrecedes);
            && SortedBy(LowPrecedes, s) && Pairwise(OtherIndex, s)
            && (forall i :: 0 <= i < |s| ==> RecordOf(s[i], inputs))
            && forall i: nat :: Done(s, i) <==> i < |inputs|
  {
    var records := Records(inputs);
    var s := Sorted(records, LowPrecedes);
    assert TotalOrder(LowPrecedes) && Pairwise(OtherIndex, records);
    Sorts(records, LowPrecedes);
    SortedPairwise(OtherIndex, records, LowPrecedes);
    forall i | 0 <= i < |s|
      ensures RecordOf(s[i], inputs)
    {
      assert s[i] in records;
    }
    forall i: nat | i < |inputs|
      ensures Done(s, i)
    {
      assert records[i] in s;
    }
  }

  lemma {:induction false} NewRecord(s: seq<Record>, n: nat)
    requires n < |s| && Pairwise(OtherIndex, s)
    ensures !Done(s[..n], s[n].index)
  {
    forall k | 0 <= k < n
      ensures s[..n][k].index != s[n].index
    {
      assert OtherIndex(s[k], s[n]);
    }
  }

  /** `storage_groups`: sweep the spans by rising address; a span that starts inside the
      last group's joins it. */
  method StorageGroups(inputs: seq<View>) returns (groups: seq<Group>)
    ensures Partition(groups, inputs)
  {
    var records := Sorted(Records(inputs), LowPrecedes);
    SortedRecords(inputs);
    groups := [];
    hide Growing, Records, Sorted, Done, RecordOf;
    NothingGrown(inputs, records[..0]);
    for n := 0 to |records|
      invariant Growing(groups, inputs, records[..n])
      invariant groups != [] && n < |records| ==> groups[|groups| - 1].low <= records[n].low
    {
      var r := records[n];
      NewRecord(records, n);
      assert n + 1 < |records| ==> LowPrecedes(r, records[n + 1]);
      assert records[..n + 1] == records[..n] + [r];
      if groups != [] && r.low < groups[|groups| - 1].high {
        GrowJoin(groups, groups[..|groups| - 1], groups[|groups| - 1], inputs, records[..n], r);
        groups := groups[..|groups| - 1] + [Widened(groups[|groups| - 1], r)];
      } else {
        GrowAppend(groups, inputs, records[..n], r);
        groups := groups + [Group(r.low, r.high, [r.index])];
      }
    }
    assert records[..|records|] == records;
    groups := InInputOrder(groups, inputs, records);
  }

  lemma {:induction false} NothingGrown(inputs: seq<View>, done: seq<Record>)
    requires done == []
    ensures Growing([], inputs, done)
  {
  }

  lemma {:induction false} SortedMembers(g: Group, inputs: seq<View>)
    requires Fine(g, inputs)
    ensures var s := Group(g.low, g.high, Sorted(g.members, IndexPrecedes));
            Fine(s, inputs) && SortedBy(IndexPrecedes, s.members) && forall m :: m in s.members <==> m in g.members
  {
    Sorts(g.members, IndexPrecedes);
    SortedPairwise(Differ, g.members, IndexPrecedes);
    var s := Sorted(g.members, IndexPrecedes);
    assert forall n :: 0 <= n < |s| ==> s[n] in g.members;
    hide Sorted, Low, High;
    SameSpan(g, Group(g.low, g.high, s), inputs);
  }

  lemma {:induction false} SameSpan(g: Group, h: Group, inputs: seq<View>)
    requires Spans(g, inputs) && h.low == g.low && h.high == g.high && forall m :: m in h.members <==> m in g.members
    ensures Spans(h, inputs)
  {
    hide Low, High;
    forall c | h.low < c < h.high
      ensures Crossed(h, inputs, c)
    {
      assert Crossed(g, inputs, c);
    }
    assert g.members[0] in g.members && g.members[0] in h.members;
    assert forall n :: 0 <= n < |h.members| ==> h.members[n] in h.members;
  }

  /** Members in input order within a group, groups in the order of their first members. */
  method InInputOrder(groups: seq<Group>, inputs: seq<View>, ghost done: seq<Record>) returns (r: seq<Group>)
    requires Growing(groups, inputs, done) && forall i: nat :: Done(done, i) <==> i < |inputs|
    ensures Partition(r, inputs)
  {
    r := [];
    for n := 0 to |groups|
      invariant |r| == n
      invariant forall k :: 0 <= k < n ==>
          r[k] == Group(groups[k].low, groups[k].high, Sorted(groups[k].members, IndexPrecedes))
    {
      r := r + [Group(groups[n].low, groups[n].high, Sorted(groups[n].members, IndexPrecedes))];
    }
    SortedGroups(groups, r, inputs, done);
    r := Sorted(r, GroupPrecedes);
  }

  lemma {:induction false} SortedGroups(groups: seq<Group>, r: seq<Group>, inputs: seq<View>, done: seq<Record>)
    requires Growing(groups, inputs, done) && forall i: nat :: Done(done, i) <==> i < |inputs|
    requires |r| == |groups|
    requires forall k :: 0 <= k < |r| ==>
        r[k] == Group(groups[k].low, groups[k].high, Sorted(groups[k].members, IndexPrecedes))
    ensures Partition(Sorted(r, GroupPrecedes), inputs)
  {
    var s := Sorted(r, GroupPrecedes);
    GroupsInOrder(groups, r, inputs, done);
    assert TotalOrder(GroupPrecedes);
    Sorts(r, GroupPrecedes);
    SortedPairwise(Apart, r, GroupPrecedes);
    hide Spans, Apart, Sorted, Pairwise, TotalOrder;
    forall g | 0 <= g < |s|
      ensures Spans(s[g], inputs) && Pairwise(Differ, s[g].members) && SortedBy(IndexPrecedes, s[g].members)
    {
      assert s[g] in r;
    }
    forall i: nat | i < |inputs|
      ensures Covered(s, i)
    {
      assert Covered(r, i);
      var k :| 0 <= k < |r| && i in r[k].members;
      assert r[k] in s;
    }
  }

  lemma {:induction false} GroupsInOrder(groups: seq<Group>, r: seq<Group>, inputs: seq<View>, done: seq<Record>)
    requires Growing(groups, inputs, done) && forall i: nat :: Done(done, i) <==> i < |inputs|
    requires |r| == |groups|
    requires forall k :: 0 <= k < |r| ==>
        r[k] == Group(groups[k].low, groups[k].high, Sorted(groups[k].members, IndexPrecedes))
    ensures forall k :: 0 <= k < |r| ==>
        Spans(r[k], inputs) && Pairwise(Differ, r[k].members) && SortedBy(IndexPrecedes, r[k].members)
    ensures Pairwise(Apart, r) && forall i: nat :: i < |inputs| ==> Covered(r, i)
  {
    hide Spans, SortedBy;
    forall k | 0 <= k < |r|
      ensures Fine(r[k], inputs) && SortedBy(IndexPrecedes, r[k].members)
      ensures forall m :: m in r[k].members <==> m in groups[k].members
    {
      SortedMembers(groups[k], inputs);
    }
    hide Fine, Sorted;
    forall i, j | 0 <= i < j < |r|
      ensures Apart(r[i], r[j])
    {
      assert Apart(groups[i], groups[j]);
    }
    forall i: nat | i < |inputs|
      ensures Covered(r, i)
    {
      assert Covered(groups, i);
      var k :| 0 <= k < |groups| && i in groups[k].members;
      assert i in r[k].members;
    }
    forall k | 0 <= k < |r|
      ensures Spans(r[k], inputs) && Pairwise(Differ, r[k].members)
    {
      FineParts(r[k], inputs);
    }
  }

  lemma {:induction false} FineParts(g: Group, inputs: seq<View>)
    requires Fine(g, inputs)
    ensures Spans(g, inputs) && Pairwise(Differ, g.members)
  {
  }

  // ----- copying -----

  /** Some element placed at `base` occupies byte `j`. */
  ghost predicate Touched(base: int, shape: seq<nat>, strides: seq<int>, itemsize: nat, j: int)
    requires |shape| == |strides|
  {
    exists at :: InRange(shape, at) && base + Address(strides, at) <= j < base + Address(strides, at) + itemsize
  }

  /** Some element whose first index is below `n` occupies byte `j`. */
  ghost predicate TouchedBelow(base: int, shape: seq<nat>, strides: seq<int>, itemsize: nat, n: int, j: int)
    requires |shape| == |strides| && shape != []
  {
    exists i :: 0 <= i < n && Touched(base + i * strides[0], shape[1..], strides[1..], itemsize, j)
  }

  lemma {:induction false} TouchedRows(base: int, shape: seq<nat>, strides: seq<int>, itemsize: nat, j: int)
    requires |shape| == |strides| && shape != []
    ensures Touched(base, shape, strides, itemsize, j) <==> TouchedBelow(base, shape, strides, itemsize, shape[0], j)
  {
    if at :| InRange(shape, at) && base + Address(strides, at) <= j < base + Address(strides, at) + itemsize {
      RestInRange(shape, at);
      var row := base + at[0] * strides[0];
      assert InRange(shape[1..], at[1..])
          && row + Address(strides[1..], at[1..]) <= j < row + Address(strides[1..], at[1..]) + itemsize;
      assert Touched(row, shape[1..], strides[1..], itemsize, j);
    }
    if i :| 0 <= i < shape[0] && Touched(base + i * strides[0], shape[1..], strides[1..], itemsize, j) {
      var row := base + i * strides[0];
      var at :| InRange(shape[1..], at)
          && row + Address(strides[1..], at) <= j < row + Address(strides[1..], at) + itemsize;
      ConsInRange(shape, i, at);
      AddressCons(strides, i, at);
    }
  }

  lemma {:induction false} TouchedNext(base: int, shape: seq<nat>, strides: seq<int>, itemsize: nat, n: nat, j: int)
    requires |shape| == |strides| && shape != []
    ensures TouchedBelow(base, shape, strides, itemsize, n + 1, j)
            <==> TouchedBelow(base, shape, strides, itemsize, n, j)
                 || Touched(base + n * strides[0], shape[1..], strides[1..], itemsize, j)
  {
  }

  /** The whole view placed at `base` lies in a buffer of `length` bytes. */
  predicate Fits(base: int, shape: seq<nat>, strides: seq<int>, itemsize: nat, length: int)
    requires |shape| == |strides|
  {
    !Empty(shape) ==> 0 <= base + Lowest(shape, strides) && base + Highest(shape, strides) + itemsize <= length
  }

  lemma {:induction false} RowFits(base: int, shape: seq<nat>, strides: seq<int>, itemsize: nat, length: int, i: int)
    requires |shape| == |strides| && shape != [] && Fits(base, shape, strides, itemsize, length) && 0 <= i < shape[0]
    ensures Fits(base + i * strides[0], shape[1..], strides[1..], itemsize, length)
  {
    OneExtent(i, shape[0], strides[0]);
    if !Empty(shape[1..]) {
      forall d | 0 <= d < |shape|
        ensures shape[d] != 0
      {
        assert d > 0 ==> shape[d] == shape[1..][d - 1];
      }
    }
  }

  /** `view[...] = array`: copy every element, byte by byte, from `source` to `base`. */
  method WriteElements(buffer: array<int>, base: int, shape: seq<nat>, strides: seq<int>, itemsize: nat, source: int,
          original: int -> int)
    requires |shape| == |strides| && Fits(base, shape, strides, itemsize, buffer.Length)
    modifies buffer
    ensures forall j :: 0 <= j < buffer.Length ==>
        buffer[j] == if Touched(base, shape, strides, itemsize, j) then original(source - base + j) else old(buffer[j])
    decreases |shape|
  {
    if shape == [] {
      for k := 0 to itemsize
        invariant forall j :: 0 <= j < buffer.Length ==>
            buffer[j] == if base <= j < base + k then original(source - base + j) else old(buffer[j])
      {
        buffer[base + k] := original(source + k);
      }
      forall j
        ensures Touched(base, shape, strides, itemsize, j) <==> base <= j < base + itemsize
      {
        assert InRange(shape, []) && Address(strides, []) == 0;
        assert base <= j < base + itemsize ==>
            base + Address(strides, []) <= j < base + Address(strides, []) + itemsize;
      }
    } else {
      for i := 0 to shape[0]
        invariant forall j :: 0 <= j < buffer.Length ==>
            buffer[j] == if TouchedBelow(base, shape, strides, itemsize, i, j) then original(source - base + j)
            else old(buffer[j])
      {
        RowFits(base, shape, strides, itemsize, buffer.Length, i);
        forall j
          ensures TouchedBelow(base, shape, strides, itemsize, i + 1, j)
                  <==> TouchedBelow(base, shape, strides, itemsize, i, j)
                       || Touched(base + i * strides[0], shape[1..], strides[1..], itemsize, j)
        {
          TouchedNext(base, shape, strides, itemsize, i, j);
        }
        WriteElements(buffer, base + i * strides[0], shape[1..], strides[1..], itemsize, source + i * strides[0],
            original);
      }
      forall j
        ensures Touched(base, shape, strides, itemsize, j) <==>
            TouchedBelow(base, shape, strides, itemsize, shape[0], j)
      {
        TouchedRows(base, shape, strides, itemsize, j);
      }
    }
  }

  /** `restore_view` accepts a descriptor whose accessible bytes lie in the buffer. */
  predicate Accepts(length: int, offset: int, shape: seq<nat>, strides: seq<int>, itemsize: nat)
    requires |shape| == |strides|
  {
    var low := offset + if Empty(shape) then 0 else Lowest(shape, strides);
    var high := offset + if Empty(shape) then 0 else Highest(shape, strides) + itemsize;
    !(low < 0 || high > length || offset < 0 || offset > length)
  }

  function Largest(inputs: seq<View>, members: seq<nat>): nat
    requires forall n :: 0 <= n < |members| ==> members[n] < |inputs|
  {
    if members == [] then 0
    else
      var rest := Largest(inputs, members[1..]);
      if inputs[members[0]].itemsize > rest then inputs[members[0]].itemsize else rest
  }

  function BufferSize(g: Group, inputs: seq<View>): nat
    requires forall n :: 0 <= n < |g.members| ==> g.members[n] < |inputs|
  {
    var largest := Largest(inputs, g.members);
    if g.high - g.low > largest then g.high - g.low else largest
  }

  /** A member of a group fits the group's buffer at its distance from the group's start. */
  lemma {:induction false} MemberFits(g: Group, inputs: seq<View>, m: nat, length: int)
    requires Spans(g, inputs) && m in g.members && WellFormed(inputs[m]) && length >= g.high - g.low
    ensures var v := inputs[m];
            Accepts(length, v.address - g.low, v.shape, v.strides, v.itemsize)
                && Fits(v.address - g.low, v.shape, v.strides, v.itemsize, length)
  {
  }

  /** The bytes of a view, placed at its distance from `low`. */
  ghost predicate InPlace(v: View, low: int, j: int) {
    WellFormed(v) && Touched(v.address - low, v.shape, v.strides, v.itemsize, j)
  }

  ghost predicate Occupied(v: View, byte: int)
    requires WellFormed(v)
  {
    exists at :: Occupies(v, at, byte)
  }

  lemma {:induction false} InPlaceOccupies(v: View, low: int, j: int)
    requires WellFormed(v)
    ensures InPlace(v, low, j) <==> Occupied(v, low + j)
  {
    var byte := low + j;
    if at :|
        InRange(v.shape, at)
        && v.address - low + Address(v.strides, at) <= j < v.address - low + Address(v.strides, at) + v.itemsize {
      assert Occupies(v, at, byte);
    }
    if at :| Occupies(v, at, byte) {
      assert v.address - low + Address(v.strides, at) <= j < v.address - low + Address(v.strides, at) + v.itemsize;
    }
  }

  ghost predicate ByMembers(inputs: seq<View>, members: seq<nat>, low: int, j: int) {
    exists n :: 0 <= n < |members| && members[n] < |inputs| && InPlace(inputs[members[n]], low, j)
  }

  lemma {:induction false} ByMembersSnoc(inputs: seq<View>, members: seq<nat>, m: nat, low: int, j: int)
    requires m < |inputs|
    ensures ByMembers(inputs, members + [m], low, j) <==>
        ByMembers(inputs, members, low, j) || InPlace(inputs[m], low, j)
  {
    var all := members + [m];
    assert all[|members|] == m;
    if n :| 0 <= n < |members| && members[n] < |inputs| && InPlace(inputs[members[n]], low, j) {
      assert all[n] == members[n];
    }
  }

  /** One object has one description. */
  predicate OneObject(inputs: seq<View>) {
    forall i, j :: 0 <= i < j < |inputs| && inputs[i].id == inputs[j].id ==> inputs[i] == inputs[j]
  }

  predicate Inputs(inputs: seq<View>) {
    OneObject(inputs) && forall i :: 0 <= i < |inputs| ==> WellFormed(inputs[i])
  }

  /** The buffer of a group: the original bytes wherever a member has an element, and zeros
      in the gaps. */
  ghost predicate Holds(buffer: seq<int>, inputs: seq<View>, g: Group, members: seq<nat>, original: int -> int) {
    forall j :: 0 <= j < |buffer| ==>
        buffer[j] == if ByMembers(inputs, members, g.low, j) then original(g.low + j) else 0
  }

  /** One of the members is the object. */
  ghost predicate Seen(inputs: seq<View>, members: seq<nat>, id: nat) {
    exists k :: 0 <= k < |members| && members[k] < |inputs| && inputs[members[k]].id == id
  }

  lemma {:induction false} SeenSnoc(inputs: seq<View>, members: seq<nat>, m: nat)
    requires m < |inputs|
    ensures forall id :: Seen(inputs, members + [m], id) <==> Seen(inputs, members, id) || id == inputs[m].id
  {
    var all := members + [m];
    assert all[|members|] == m;
    forall id | Seen(inputs, members, id)
      ensures Seen(inputs, all, id)
    {
      var k :| 0 <= k < |members| && members[k] < |inputs| && inputs[members[k]].id == id;
      assert all[k] == members[k];
    }
  }

  method FillBuffer(g: Group, inputs: seq<View>, original: int -> int) returns (buffer: array<int>)
    requires Inputs(inputs) && Spans(g, inputs)
    ensures fresh(buffer) && buffer.Length == BufferSize(g, inputs) && Holds(buffer[..], inputs, g, g.members, original)
  {
    hide High, Largest, Empty;
    buffer := new int[BufferSize(g, inputs)](_ => 0);
    var copied: set<nat> := {};
    hide Holds, Seen, Fits, Accepts, Touched;
    NothingHeld(buffer[..], inputs, g, g.members[..0], original);
    for n := 0 to |g.members|
      invariant Holds(buffer[..], inputs, g, g.members[..n], original)
      invariant forall id :: id in copied <==> Seen(inputs, g.members[..n], id)
    {
      var m := g.members[n];
      assert m in g.members && g.members[..n + 1] == g.members[..n] + [m];
      var v := inputs[m];
      SeenSnoc(inputs, g.members[..n], m);
      ghost var before := buffer[..];
      if v.id !in copied {
        MemberFits(g, inputs, m, buffer.Length);
        WriteElements(buffer, v.address - g.low, v.shape, v.strides, v.itemsize, v.address, original);
        copied := copied + {v.id};
        WrittenHolds(before, buffer[..], inputs, g, g.members[..n], m, original);
      } else {
        SameObjectHolds(before, inputs, g, g.members[..n], m, original);
      }
    }
    assert g.members[..|g.members|] == g.members;
  }

  lemma {:induction false} NothingHeld(buffer: seq<int>, inputs: seq<View>, g: Group, members: seq<nat>,
          original: int -> int)
    requires members == [] && forall j :: 0 <= j < |buffer| ==> buffer[j] == 0
    ensures Holds(buffer, inputs, g, members, original) && forall id :: !Seen(inputs, members, id)
  {
  }

  lemma {:induction false} WrittenHolds(before: seq<int>, after: seq<int>, inputs: seq<View>, g: Group,
          members: seq<nat>, m: nat, original: int -> int)
    requires m < |inputs| && WellFormed(inputs[m]) && Holds(before, inputs, g, members, original) && |after| == |before|
    requires var v := inputs[m];
             forall j :: 0 <= j < |after| ==>
                 after[j] == if Touched(v.address - g.low, v.shape, v.strides, v.itemsize,
                 j) then original(v.address - (v.address - g.low) + j) else before[j]
    ensures Holds(after, inputs, g, members + [m], original)
  {
    forall j | 0 <= j < |after|
      ensures after[j] == if ByMembers(inputs, members + [m], g.low, j) then original(g.low + j) else 0
    {
      ByMembersSnoc(inputs, members, m, g.low, j);
    }
  }

  lemma {:induction false} SameObjectHolds(buffer: seq<int>, inputs: seq<View>, g: Group, members: seq<nat>, m: nat,
          original: int -> int)
    requires OneObject(inputs) && m < |inputs| && Seen(inputs, members, inputs[m].id)
    requires Holds(buffer, inputs, g, members, original)
    ensures Holds(buffer, inputs, g, members + [m], original)
  {
    var k :| 0 <= k < |members| && members[k] < |inputs| && inputs[members[k]].id == inputs[m].id;
    assert inputs[members[k]] == inputs[m];
    forall j | 0 <= j < |buffer|
      ensures buffer[j] == if ByMembers(inputs, members + [m], g.low, j) then original(g.low + j) else 0
    {
      ByMembersSnoc(inputs, members, m, g.low, j);
    }
  }

  /** A copied view: its buffer, its offset there, and the first input that is the same object. */
  datatype Copied = Copied(buffer: nat, offset: int, owner: nat)

  /** A copy sits in the buffer of its owner's group, at its distance from the group's start. */
  predicate Placement(c: Copied, groups: seq<Group>, inputs: seq<View>, i: nat) {
    && i < |inputs| && c.owner < |inputs| && inputs[c.owner] == inputs[i]
    && c.buffer < |groups| && c.owner in groups[c.buffer].members
    && c.offset == inputs[i].address - groups[c.buffer].low
  }

  lemma {:induction false} DifferentGroups(groups: seq<Group>, inputs: seq<View>, g: nat, h: nat, i: nat, x: int,
          j: nat, y: int)
    requires Partition(groups, inputs) && g < |groups| && h < |groups| && g != h && i in groups[g].members
    requires j in groups[h].members
    requires i < |inputs| && j < |inputs| && Low(inputs[i]) <= x < High(inputs[i])
    requires Low(inputs[j]) <= y < High(inputs[j])
    ensures x != y
  {
    assert Spans(groups[g], inputs) && Spans(groups[h], inputs);
    if g < h {
      assert Apart(groups[g], groups[h]);
    } else {
      assert Apart(groups[h], groups[g]);
    }
  }

  lemma {:induction false} OccupiedWithin(v: View, byte: int)
    requires WellFormed(v) && Occupied(v, byte)
    ensures Low(v) <= byte < High(v)
  {
    var at :| Occupies(v, at, byte);
    OccupiedInSpan(v, at, byte);
  }

  /** Two elements of the copies share a byte exactly when the originals do. */
  lemma {:induction false} AliasIsomorphism(c: Copied, d: Copied, groups: seq<Group>, inputs: seq<View>, i: nat, x: int,
          j: nat, y: int)
    requires Partition(groups, inputs) && Placement(c, groups, inputs, i) && Placement(d, groups, inputs, j)
    requires WellFormed(inputs[i]) && WellFormed(inputs[j]) && Occupied(inputs[i], x) && Occupied(inputs[j], y)
    ensures x == y <==> (c.buffer == d.buffer && x - inputs[i].address + c.offset == y - inputs[j].address + d.offset)
  {
    OccupiedWithin(inputs[i], x);
    OccupiedWithin(inputs[j], y);
    hide Partition, Occupied, Low, High;
    if c.buffer != d.buffer {
      DifferentGroups(groups, inputs, c.buffer, d.buffer, c.owner, x, d.owner, y);
    }
  }

  ghost predicate ReadsOriginal(c: Copied, buffers: seq<array<int>>, v: View, original: int -> int)
    requires WellFormed(v)
    reads buffers
  {
    && c.buffer < |buffers|
    && Accepts(buffers[c.buffer].Length, c.offset, v.shape, v.strides, v.itemsize)
    && forall x :: Occupied(v, x) ==>
        0 <= x - v.address + c.offset < buffers[c.buffer].Length
        && buffers[c.buffer][x - v.address + c.offset] == original(x)
  }

  ghost predicate Buffered(buffer: array<int>, g: Group, inputs: seq<View>, original: int -> int)
    reads buffer
  {
    Spans(g, inputs) && buffer.Length == BufferSize(g, inputs) && Holds(buffer[..], inputs, g, g.members, original)
  }

  /** Every element of a placed copy holds the bytes of the original element. */
  lemma {:induction false} PlacedReadsOriginal(c: Copied, buffers: seq<array<int>>, groups: seq<Group>,
          inputs: seq<View>, i: nat, original: int -> int)
    requires |buffers| == |groups| && Placement(c, groups, inputs, i) && WellFormed(inputs[i])
    requires Buffered(buffers[c.buffer], groups[c.buffer], inputs, original)
    ensures ReadsOriginal(c, buffers, inputs[i], original)
  {
    hide Largest, Occupies, Touched;
    var g, v, buffer := groups[c.buffer], inputs[i], buffers[c.buffer];
    MemberFits(g, inputs, c.owner, buffer.Length);
    var n :| 0 <= n < |g.members| && g.members[n] == c.owner;
    assert g.low <= Low(v) && High(v) <= g.high && g.high - g.low <= buffer.Length;
    hide Spans, Accepts, Fits, Low, High, Occupied, InPlace, BufferSize;
    forall x | Occupied(v, x)
      ensures 0 <= x - v.address + c.offset < buffer.Length && buffer[x - v.address + c.offset] == original(x)
    {
      OccupiedWithin(v, x);
      var j := x - g.low;
      InPlaceOccupies(v, g.low, j);
      assert g.low + j == x;
      assert InPlace(inputs[g.members[n]], g.low, j);
      assert ByMembers(inputs, g.members, g.low, j);
      assert buffer[..][j] == original(g.low + j);
    }
  }

  /** The bindings so far: every object has one owner, and its aliases are the owner's view. */
  ghost predicate Bound(views: map<nat, Copied>, owners: map<nat, nat>, groups: seq<Group>, inputs: seq<View>) {
    && (forall i :: i in views ==>
        i < |inputs| && inputs[i].id in owners && views[i].owner == owners[inputs[i].id]
        && Placement(views[i], groups, inputs, i))
    && (forall id :: id in owners ==> owners[id] in views && owners[id] < |inputs| && inputs[owners[id]].id == id)
    && (forall i, k :: i in views && k in views && i < |inputs| && k < |inputs| && inputs[i].id == inputs[k].id ==>
        views[i] == views[k])
  }

  lemma {:induction false} BindMember(views: map<nat, Copied>, owners: map<nat, nat>, groups: seq<Group>,
          inputs: seq<View>, g: nat, m: nat)
    requires Bound(views, owners, groups, inputs) && OneObject(inputs) && g < |groups| && m in groups[g].members
    requires m < |inputs| && m !in views
    ensures var id := inputs[m].id;
            var c := if id in owners then views[owners[id]] else Copied(g, inputs[m].address - groups[g].low, m);
            Bound(views[m := c], if id in owners then owners else owners[id := m], groups, inputs)
  {
    var id := inputs[m].id;
    if id in owners {
      assert inputs[owners[id]] == inputs[m];
    }
  }

  /** Bind one member: an object seen before is an alias of its owner. */
  method BindOne(groups: seq<Group>, g: nat, inputs: seq<View>, m: nat, before: map<nat, Copied>,
          ownersBefore: map<nat, nat>)
    returns (views: map<nat, Copied>, owners: map<nat, nat>)
    requires OneObject(inputs) && g < |groups| && m in groups[g].members && m < |inputs| && m !in before
    requires Bound(before, ownersBefore, groups, inputs)
    ensures Bound(views, owners, groups, inputs) && views.Keys == before.Keys + {m}
  {
    hide OneObject, Bound, Placement;
    BindMember(before, ownersBefore, groups, inputs, g, m);
    owners := ownersBefore;
    if inputs[m].id in owners {
      OwnerBound(before, owners, groups, inputs, inputs[m].id);
      views := before[m := before[owners[inputs[m].id]]];
    } else {
      views := before[m := Copied(g, inputs[m].address - groups[g].low, m)];
      owners := owners[inputs[m].id := m];
    }
  }

  ghost function MemberSet(members: seq<nat>): set<nat> {
    set m | m in members
  }

  lemma {:induction false} NextMember(members: seq<nat>, n: nat)
    requires n < |members| && Pairwise(Differ, members)
    ensures members[n] in members && members[n] in MemberSet(members) && members[n] !in MemberSet(members[..n])
    ensures MemberSet(members[..n + 1]) == MemberSet(members[..n]) + {members[n]}
  {
    assert members[..n + 1] == members[..n] + [members[n]];
    assert forall k :: 0 <= k < n ==> Differ(members[k], members[n]);
  }

  method BindMembers(groups: seq<Group>, g: nat, inputs: seq<View>, before: map<nat, Copied>,
          ownersBefore: map<nat, nat>)
    returns (views: map<nat, Copied>, owners: map<nat, nat>)
    requires OneObject(inputs) && g < |groups| && Bound(before, ownersBefore, groups, inputs)
    requires MemberSet(groups[g].members) !! before.Keys
    requires Pairwise(Differ, groups[g].members)
    requires forall n :: 0 <= n < |groups[g].members| ==> groups[g].members[n] < |inputs|
    ensures Bound(views, owners, groups, inputs) && views.Keys == before.Keys + MemberSet(groups[g].members)
  {
    hide Bound, OneObject, MemberSet, Pairwise;
    views, owners := before, ownersBefore;
    var members := groups[g].members;
    NoMembers(members[..0]);
    for n := 0 to |members|
      invariant Bound(views, owners, groups, inputs) && views.Keys == before.Keys + MemberSet(members[..n])
    {
      var m := members[n];
      ghost var done := MemberSet(members[..n]);
      NextMember(members, n);
      assert m !in before && m !in views;
      views, owners := BindOne(groups, g, inputs, m, views, owners);
      assert views.Keys == before.Keys + (done + {m});
    }
    assert members[..|members|] == members;
  }

  lemma {:induction false} NoMembers(members: seq<nat>)
    requires members == []
    ensures MemberSet(members) == {}
  {
  }

  lemma {:induction false} GroupMembers(groups: seq<Group>, inputs: seq<View>, g: nat)
    requires Inputs(inputs) && Partition(groups, inputs) && g < |groups|
    ensures OneObject(inputs) && Pairwise(Differ, groups[g].members) && Spans(groups[g], inputs)
    ensures forall n :: 0 <= n < |groups[g].members| ==> groups[g].members[n] < |inputs|
  {
    assert Spans(groups[g], inputs);
  }

  lemma {:induction false} OwnerBound(views: map<nat, Copied>, owners: map<nat, nat>, groups: seq<Group>,
          inputs: seq<View>, id: nat)
    requires Bound(views, owners, groups, inputs) && id in owners
    ensures owners[id] in views
  {
  }

  /** Some group holds two different objects. */
  predicate Shared(groups: seq<Group>, inputs: seq<View>) {
    exists g, n, k :: 0 <= g < |groups| && 0 <= n < |groups[g].members| && 0 <= k < |groups[g].members|
      && groups[g].members[n] < |inputs| && groups[g].members[k] < |inputs|
      && inputs[groups[g].members[n]].id != inputs[groups[g].members[k]].id
  }

  /** `copy_storage`: every view is restored, reads the original bytes and shares bytes with
      the others exactly when its original did; gaps are zero. */
  method CopyStorage(inputs: seq<View>, original: int -> int)
    returns (views: map<nat, Copied>, buffers: seq<array<int>>, shared: bool, ghost groups: seq<Group>)
    requires Inputs(inputs)
    ensures Partition(groups, inputs) && |buffers| == |groups|
    ensures forall g :: 0 <= g < |buffers| ==> fresh(buffers[g]) && Buffered(buffers[g], groups[g], inputs, original)
    ensures forall g, h :: 0 <= g < h < |buffers| ==> buffers[g] != buffers[h]
    ensures forall i: nat :: i in views <==> i < |inputs|
    ensures forall i :: i in views ==> ReadsOriginal(views[i], buffers, inputs[i], original)
    ensures forall i, x, j, y :: i in views && j in views && Occupied(inputs[i], x) && Occupied(inputs[j], y) ==>
              (x == y <==> (views[i].buffer == views[j].buffer
                  && x - inputs[i].address + views[i].offset == y - inputs[j].address + views[j].offset))
    ensures forall i, j :: i in views && j in views ==>
        (views[i].owner == views[j].owner <==> inputs[i].id == inputs[j].id)
    ensures shared <==> Shared(groups, inputs)
  {
    var grouped := StorageGroups(inputs);
    groups := grouped;
    buffers := FillBuffers(grouped, inputs, original);
    var owners: map<nat, nat>;
    views, owners := BindAll(grouped, inputs);
    shared := Shared(grouped, inputs);
    hide Partition, Bound, Buffered, Inputs, Occupied, ReadsOriginal;
    CopyIsRight(views, owners, buffers, groups, inputs, original);
  }

  /** One fresh buffer for each group. */
  method FillBuffers(groups: seq<Group>, inputs: seq<View>, original: int -> int) returns (buffers: seq<array<int>>)
    requires Inputs(inputs) && Partition(groups, inputs)
    ensures |buffers| == |groups|
    ensures forall g :: 0 <= g < |groups| ==> fresh(buffers[g]) && Buffered(buffers[g], groups[g], inputs, original)
    ensures forall g, h :: 0 <= g < h < |buffers| ==> buffers[g] != buffers[h]
  {
    buffers := [];
    hide Buffered, Inputs;
    for g := 0 to |groups|
      invariant |buffers| == g
      invariant forall h :: 0 <= h < g ==> fresh(buffers[h]) && Buffered(buffers[h], groups[h], inputs, original)
      invariant forall h, k :: 0 <= h < k < g ==> buffers[h] != buffers[k]
    {
      assert Spans(groups[g], inputs);
      var buffer := FillBuffer(groups[g], inputs, original);
      BufferIs(buffer, groups[g], inputs, original);
      buffers := buffers + [buffer];
    }
  }

  method BindAll(groups: seq<Group>, inputs: seq<View>) returns (views: map<nat, Copied>, owners: map<nat, nat>)
    requires Inputs(inputs) && Partition(groups, inputs)
    ensures Bound(views, owners, groups, inputs) && forall m :: m in views <==> Covered(groups, m)
  {
    views, owners := map[], map[];
    NothingBound(groups, inputs);
    hide Partition, Bound, Inputs, Covered;
    for g := 0 to |groups|
      invariant Bound(views, owners, groups, inputs) && forall m :: m in views <==> Covered(groups[..g], m)
    {
      GroupUnseen(groups, inputs, g);
      GroupMembers(groups, inputs, g);
      views, owners := BindMembers(groups, g, inputs, views, owners);
    }
    assert groups[..|groups|] == groups;
  }

  lemma {:induction false} BufferIs(buffer: array<int>, g: Group, inputs: seq<View>, original: int -> int)
    requires Spans(g, inputs) && buffer.Length == BufferSize(g, inputs)
    requires Holds(buffer[..], inputs, g, g.members, original)
    ensures Buffered(buffer, g, inputs, original)
  {
  }

  lemma {:induction false} NothingBound(groups: seq<Group>, inputs: seq<View>)
    ensures Bound(map[], map[], groups, inputs) && forall m :: !Covered(groups[..0], m)
  {
  }

  lemma {:induction false} CopyIsRight(views: map<nat, Copied>, owners: map<nat, nat>, buffers: seq<array<int>>,
          groups: seq<Group>, inputs: seq<View>, original: int -> int)
    requires Inputs(inputs) && Partition(groups, inputs) && Bound(views, owners, groups, inputs)
    requires forall m :: m in views <==> Covered(groups, m)
    requires |buffers| == |groups|
    requires forall g :: 0 <= g < |groups| ==> Buffered(buffers[g], groups[g], inputs, original)
    ensures forall i: nat :: i in views <==> i < |inputs|
    ensures forall i :: i in views ==> ReadsOriginal(views[i], buffers, inputs[i], original)
    ensures forall i, x, j, y :: i in views && j in views && Occupied(inputs[i], x) && Occupied(inputs[j], y) ==>
              (x == y <==> (views[i].buffer == views[j].buffer
                  && x - inputs[i].address + views[i].offset == y - inputs[j].address + views[j].offset))
    ensures forall i, j :: i in views && j in views ==>
        (views[i].owner == views[j].owner <==> inputs[i].id == inputs[j].id)
  {
    hide Covered, OneObject;
    forall i: nat
      ensures i in views <==> i < |inputs|
    {
      if i < |inputs| {
        assert Covered(groups, i);
      }
    }
    forall i | i in views
      ensures ReadsOriginal(views[i], buffers, inputs[i], original)
    {
      PlacedReadsOriginal(views[i], buffers, groups, inputs, i, original);
    }
    hide Partition, Buffered, ReadsOriginal, Occupied;
    forall i, x, j, y | i in views && j in views && Occupied(inputs[i], x) && Occupied(inputs[j], y)
      ensures x == y <==> (views[i].buffer == views[j].buffer
          && x - inputs[i].address + views[i].offset == y - inputs[j].address + views[j].offset)
    {
      AliasIsomorphism(views[i], views[j], groups, inputs, i, x, j, y);
    }
  }

  lemma {:induction false} GroupUnseen(groups: seq<Group>, inputs: seq<View>, g: nat)
    requires Partition(groups, inputs) && g < |groups|
    ensures forall m :: m in MemberSet(groups[g].members) ==> !Covered(groups[..g], m)
    ensures forall m: nat :: Covered(groups[..g + 1], m) <==>
        Covered(groups[..g], m) || m in MemberSet(groups[g].members)
  {
    var before := groups[..g];
    forall m | m in groups[g].members
      ensures !Covered(before, m)
    {
      forall h | 0 <= h < g
        ensures m !in before[h].members
      {
        assert Apart(groups[h], groups[g]);
      }
    }
    var all := groups[..g + 1];
    assert all == before + [groups[g]] && all[g] == groups[g];
    forall m: nat | Covered(before, m)
      ensures Covered(all, m)
    {
      var h :| 0 <= h < g && m in before[h].members;
      assert all[h] == before[h];
    }
  }
}
