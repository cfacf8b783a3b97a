/** Memory dependencies of an execution trace: which event last wrote the bytes that an
    event reads. */
module Dependencies {
  import opened Wrappers
  import opened Sorting
  import opened Intervals

  type Range = (int, int)

  predicate Covers(ranges: seq<Range>, b: int) {
    exists i :: 0 <= i < |ranges| && ranges[i].0 <= b < ranges[i].1
  }

  /** Nonempty ranges in order, with a gap between any two of them. */
  predicate Separated(ranges: seq<Range>) {
    && (forall i :: 0 <= i < |ranges| ==> ranges[i].0 < ranges[i].1)
    && (forall i, j :: 0 <= i < j < |ranges| ==> ranges[i].1 < ranges[j].0)
  }

  predicate RangePrecedes(a: Range, b: Range) {
    a.0 < b.0 || (a.0 == b.0 && a.1 <= b.1)
  }

  /** The last range absorbs one that starts no later than its end. */
  function Absorb(last: Range, r: Range): Range {
    (last.0, if r.1 > last.1 then r.1 else last.1)
  }

  ghost predicate SameBytes(a: seq<Range>, c: seq<Range>) {
    forall b :: Covers(a, b) <==> Covers(c, b)
  }

  lemma {:induction false} AbsorbStep(merged: seq<Range>, done: seq<Range>, r: Range)
    requires Separated(merged) && merged != [] && merged[|merged| - 1].0 <= r.0 <= merged[|merged| - 1].1
    requires SameBytes(merged, done)
    ensures var next := merged[..|merged| - 1] + [Absorb(merged[|merged| - 1], r)];
            Separated(next) && SameBytes(next, done + [r])
  {
    CoversReplace(merged, Absorb(merged[|merged| - 1], r), r);
    CoversAppend(done, r);
    assert Separated(merged[..|merged| - 1] + [Absorb(merged[|merged| - 1], r)]);
  }

  lemma {:induction false} MergeStep(merged: seq<Range>, done: seq<Range>, r: Range)
    requires Separated(merged) && SameBytes(merged, done) && (merged != [] ==> merged[|merged| - 1].1 < r.0)
    ensures SameBytes(if r.0 < r.1 then merged + [r] else merged, done + [r])
    ensures r.0 < r.1 ==> Separated(merged + [r])
  {
    CoversAppend(done, r);
    if r.0 < r.1 {
      AppendStep(merged, r);
    }
  }

  lemma {:induction false} AppendStep(merged: seq<Range>, r: Range)
    requires Separated(merged) && (merged != [] ==> merged[|merged| - 1].1 < r.0) && r.0 < r.1
    ensures Separated(merged + [r]) && forall b :: Covers(merged + [r], b) <==> Covers(merged, b) || r.0 <= b < r.1
  {
    CoversAppend(merged, r);
    hide Covers;
    forall i | 0 <= i < |merged|
      ensures merged[i].1 < r.0
    {
      assert i < |merged| - 1 ==> merged[i].1 < merged[|merged| - 1].0;
    }
  }

  /** Sorted, disjoint half-open ranges covering the same bytes. */
  method MergeRanges(ranges: seq<Range>) returns (merged: seq<Range>)
    ensures Separated(merged) && forall b :: Covers(merged, b) <==> Covers(ranges, b)
  {
    var sorted := Sorted(ranges, RangePrecedes);
    SortedRanges(ranges);
    merged := [];
    CoversNothing(merged, sorted[..0]);
    hide Covers, Separated, Sorted, SameBytes;
    for i := 0 to |sorted|
      invariant Separated(merged) && SameBytes(merged, sorted[..i])
      invariant merged != [] && i < |sorted| ==> merged[|merged| - 1].0 <= sorted[i].0
    {
      var r, n := sorted[i], |merged|;
      assert i + 1 < |sorted| ==> RangePrecedes(r, sorted[i + 1]);
      assert sorted[..i + 1] == sorted[..i] + [r];
      if merged != [] && r.0 <= merged[n - 1].1 {
        AbsorbStep(merged, sorted[..i], r);
        merged := merged[..n - 1] + [Absorb(merged[n - 1], r)];
      } else {
        MergeStep(merged, sorted[..i], r);
        if r.0 < r.1 {
          merged := merged + [r];
        }
      }
    }
    assert sorted[..|sorted|] == sorted;
    BytesChain(merged, sorted, ranges);
  }

  lemma {:induction false} BytesChain(a: seq<Range>, c: seq<Range>, d: seq<Range>)
    requires SameBytes(a, c) && SameBytes(c, d)
    ensures forall b :: Covers(a, b) <==> Covers(d, b)
  {
  }

  lemma {:induction false} SortedRanges(ranges: seq<Range>)
    ensures SortedBy(RangePrecedes, Sorted(ranges, RangePrecedes)) && SameBytes(Sorted(ranges, RangePrecedes), ranges)
  {
    Sorts(ranges, RangePrecedes);
    CoversSame(Sorted(ranges, RangePrecedes), ranges);
  }

  lemma {:induction false} CoversNothing(a: seq<Range>, c: seq<Range>)
    requires a == [] && c == []
    ensures Separated(a) && SameBytes(a, c) && forall b :: !Covers(a, b)
  {
  }

  lemma {:induction false} CoversSame(a: seq<Range>, c: seq<Range>)
    requires forall r :: r in a <==> r in c
    ensures forall b :: Covers(a, b) <==> Covers(c, b)
  {
    forall b
      ensures Covers(a, b) <==> Covers(c, b)
    {
      CoversMembers(a, c, b);
    }
  }

  lemma {:induction false} CoversMembers(a: seq<Range>, c: seq<Range>, b: int)
    requires forall r :: r in a <==> r in c
    ensures Covers(a, b) <==> Covers(c, b)
  {
    if i :| 0 <= i < |a| && a[i].0 <= b < a[i].1 {
      assert a[i] in a;
    }
    if i :| 0 <= i < |c| && c[i].0 <= b < c[i].1 {
      assert c[i] in c;
    }
  }

  lemma {:induction false} CoversAppend(ranges: seq<Range>, r: Range)
    ensures forall b :: Covers(ranges + [r], b) <==> Covers(ranges, b) || r.0 <= b < r.1
  {
    var all := ranges + [r];
    assert all[|ranges|] == r;
    forall b | Covers(ranges, b)
      ensures Covers(all, b)
    {
      var i :| 0 <= i < |ranges| && ranges[i].0 <= b < ranges[i].1;
      assert all[i] == ranges[i];
    }
  }

  lemma {:induction false} CoversSnoc(ranges: seq<Range>, i: nat)
    requires i < |ranges|
    ensures forall b :: Covers(ranges[..i + 1], b) <==> Covers(ranges[..i], b) || ranges[i].0 <= b < ranges[i].1
  {
    assert ranges[..i + 1] == ranges[..i] + [ranges[i]];
    CoversAppend(ranges[..i], ranges[i]);
  }

  lemma {:induction false} CoversReplace(merged: seq<Range>, grown: Range, r: Range)
    requires merged != []
    requires var last := merged[|merged| - 1];
             last.0 < last.1 && last.0 <= r.0 <= last.1 && grown == (last.0, if r.1 > last.1 then r.1 else last.1)
    ensures forall b :: Covers(merged[..|merged| - 1] + [grown], b) <==> Covers(merged, b) || r.0 <= b < r.1
  {
    var n := |merged| - 1;
    CoversAppend(merged[..n], grown);
    CoversAppend(merged[..n], merged[n]);
    assert merged == merged[..n] + [merged[n]];
  }

  // ----- the byte ranges of one access -----

  predicate AtMost(a: int, b: int) {
    a <= b
  }

  /** Two lanes touch a common byte. */
  predicate LanesShare(offsets: seq<int>, size: int) {
    exists i, j :: 0 <= i < j < |offsets| && offsets[i] < offsets[j] + size && offsets[j] < offsets[i] + size
  }

  predicate Near(x: int, s: seq<int>, size: int) {
    exists i :: 0 <= i < |s| && x < s[i] + size && s[i] < x + size
  }

  lemma {:induction false} ShareCons(x: int, s: seq<int>, size: int)
    ensures LanesShare([x] + s, size) <==> LanesShare(s, size) || Near(x, s, size)
  {
    var all := [x] + s;
    if i, j :| 0 <= i < j < |s| && s[i] < s[j] + size && s[j] < s[i] + size {
      assert all[i + 1] == s[i] && all[j + 1] == s[j];
    }
    if i :| 0 <= i < |s| && x < s[i] + size && s[i] < x + size {
      assert all[0] == x && all[i + 1] == s[i];
    }
    if i, j :| 0 <= i < j < |all| && all[i] < all[j] + size && all[j] < all[i] + size {
      assert all[j] == s[j - 1];
      if i > 0 {
        assert all[i] == s[i - 1];
      }
    }
  }

  lemma {:induction false} NearMembers(x: int, s: seq<int>, t: seq<int>, size: int)
    requires forall y :: y in s <==> y in t
    ensures Near(x, s, size) <==> Near(x, t, size)
  {
    if i :| 0 <= i < |s| && x < s[i] + size && s[i] < x + size {
      assert s[i] in t;
    }
    if i :| 0 <= i < |t| && x < t[i] + size && t[i] < x + size {
      assert t[i] in s;
    }
  }

  lemma {:induction false} InsertShares(x: int, s: seq<int>, size: int)
    ensures LanesShare(Insert(x, s, AtMost), size) <==> LanesShare([x] + s, size)
    ensures forall y :: y in Insert(x, s, AtMost) <==> y == x || y in s
  {
    if s != [] && !AtMost(x, s[0]) {
      var rest := Insert(x, s[1..], AtMost);
      InsertShares(x, s[1..], size);
      assert s == [s[0]] + s[1..];
      ShareCons(s[0], rest, size);
      ShareCons(s[0], s[1..], size);
      ShareCons(x, s, size);
      ShareCons(x, s[1..], size);
      NearMembers(s[0], rest, [x] + s[1..], size);
      NearCons(s[0], x, s[1..], size);
      NearCons(x, s[0], s[1..], size);
    }
  }

  lemma {:induction false} NearCons(x: int, y: int, s: seq<int>, size: int)
    ensures Near(x, [y] + s, size) <==> Near(x, s, size) || (x < y + size && y < x + size)
  {
    var all := [y] + s;
    assert all[0] == y && forall i :: 0 <= i < |s| ==> all[i + 1] == s[i];
    if i :| 0 <= i < |s| && x < s[i] + size && s[i] < x + size {
      assert all[i + 1] == s[i];
    }
  }

  lemma {:induction false} SortedShares(s: seq<int>, size: int)
    ensures LanesShare(Sorted(s, AtMost), size) <==> LanesShare(s, size)
    ensures forall y :: y in Sorted(s, AtMost) <==> y in s
  {
    if s != [] {
      assert s == [s[0]] + s[1..];
      SortedShares(s[1..], size);
      InsertShares(s[0], Sorted(s[1..], AtMost), size);
      ShareCons(s[0], s[1..], size);
      ShareCons(s[0], Sorted(s[1..], AtMost), size);
      NearMembers(s[0], s[1..], Sorted(s[1..], AtMost), size);
    }
  }

  predicate Touches(offsets: seq<int>, size: int, b: int) {
    exists i :: 0 <= i < |offsets| && offsets[i] <= b < offsets[i] + size
  }

  /** The sorted offsets seen so far: closed ranges, and an open run from `first` to `last`. */
  ghost predicate RunsSoFar(done: seq<int>, size: int, ranges: seq<Range>, first: int, last: int) {
    && first <= last && Separated(ranges) && (ranges != [] ==> ranges[|ranges| - 1].1 < first)
    && forall b :: Covers(ranges, b) || first <= b < last + size <==> Touches(done, size, b)
  }

  lemma {:induction false} RunsStart(x: int, size: int)
    ensures RunsSoFar([x], size, [], x, x)
  {
    CoversNothing([], []);
    assert forall b :: Touches([x], size, b) <==> [x][0] <= b < [x][0] + size;
  }

  lemma {:induction false} RunGrows(done: seq<int>, next: int, size: int, ranges: seq<Range>, first: int, last: int)
    requires RunsSoFar(done, size, ranges, first, last) && last <= next <= last + size
    ensures RunsSoFar(done + [next], size, ranges, first, next)
  {
    TouchesSnoc(done, next, size);
    hide Covers, Separated, Touches;
  }

  lemma {:induction false} RunCloses(done: seq<int>, size: int, ranges: seq<Range>, first: int, last: int)
    requires RunsSoFar(done, size, ranges, first, last) && size > 0
    ensures var closed := ranges + [(first, last + size)];
            Separated(closed) && closed[|closed| - 1].1 == last + size && forall b :: Covers(closed, b) <==>
                Touches(done, size, b)
  {
    AppendStep(ranges, (first, last + size));
  }

  lemma {:induction false} RunOpens(done: seq<int>, next: int, size: int, closed: seq<Range>)
    requires Separated(closed) && closed != [] && closed[|closed| - 1].1 < next
    requires forall b :: Covers(closed, b) <==> Touches(done, size, b)
    ensures RunsSoFar(done + [next], size, closed, next, next)
  {
    TouchesSnoc(done, next, size);
    hide Covers, Separated, Touches;
  }

  /** Some two neighbours among the first `i` offsets are closer than an element. */
  predicate Crowded(starts: seq<int>, i: nat, size: int)
    requires i <= |starts|
  {
    exists j :: 0 < j < i && starts[j] - starts[j - 1] < size
  }

  lemma {:induction false} CrowdedStep(starts: seq<int>, i: nat, size: int)
    requires 0 < i < |starts|
    ensures Crowded(starts, i + 1, size) <==> Crowded(starts, i, size) || starts[i] - starts[i - 1] < size
    ensures !Crowded(starts, 1, size)
  {
  }

  ghost predicate SameTouches(s: seq<int>, t: seq<int>, size: int) {
    forall b :: Touches(s, size, b) <==> Touches(t, size, b)
  }

  lemma {:induction false} TouchedRanges(ranges: seq<Range>, starts: seq<int>, offsets: seq<int>, size: int, first: int,
          last: int)
    requires RunsSoFar(starts, size, ranges, first, last) && SameTouches(starts, offsets, size) && size > 0
    ensures var closed := ranges + [(first, last + size)];
            Separated(closed) && forall b :: Covers(closed, b) <==> Touches(offsets, size, b)
  {
    RunCloses(starts, size, ranges, first, last);
    hide Covers, Touches, Separated;
  }

  lemma {:induction false} RunBreaks(done: seq<int>, next: int, size: int, ranges: seq<Range>, first: int, last: int)
    requires RunsSoFar(done, size, ranges, first, last) && size > 0 && next > last + size
    ensures RunsSoFar(done + [next], size, ranges + [(first, last + size)], next, next)
  {
    RunCloses(done, size, ranges, first, last);
    RunOpens(done, next, size, ranges + [(first, last + size)]);
  }

  lemma {:induction false} SortedOffsets(offsets: seq<int>, size: int)
    requires size > 0 && offsets != []
    ensures var starts := Sorted(offsets, AtMost);
            && starts != [] && SortedBy(AtMost, starts) && !Crowded(starts, 1, size)
            && (LanesShare(offsets, size) <==> Crowded(starts, |starts|, size))
            && SameTouches(starts, offsets, size)
  {
    Sorts(offsets, AtMost);
    SortedShares(offsets, size);
    AdjacentShare(Sorted(offsets, AtMost), size);
    TouchesSame(Sorted(offsets, AtMost), offsets, size);
  }

  /** The ranges an access of `size`-byte elements at these offsets covers: exactly the
      touched bytes. A write overlaps exactly when two of its lanes share a byte. */
  method AccessRanges(offsets: seq<int>, size: int) returns (ranges: seq<Range>, overlap: bool)
    requires size > 0 && offsets != []
    ensures Separated(ranges) && forall b :: Covers(ranges, b) <==> Touches(offsets, size, b)
    ensures overlap <==> LanesShare(offsets, size)
  {
    var starts := Sorted(offsets, AtMost);
    SortedOffsets(offsets, size);
    hide Covers, Separated, Touches, Sorted, LanesShare, RunsSoFar, Crowded, TotalOrder, SameTouches;
    var first := starts[0];
    ranges, overlap := [], false;
    RunsStart(first, size);
    assert starts[..1] == [first];
    for i := 1 to |starts|
      invariant RunsSoFar(starts[..i], size, ranges, first, starts[i - 1])
      invariant overlap <==> Crowded(starts, i, size)
    {
      var last, next := starts[i - 1], starts[i];
      assert AtMost(last, next);
      assert starts[..i + 1] == starts[..i] + [next];
      CrowdedStep(starts, i, size);
      overlap := overlap || next - last < size;
      if next - last > size {
        RunBreaks(starts[..i], next, size, ranges, first, last);
        ranges := ranges + [(first, last + size)];
        first := next;
      } else {
        RunGrows(starts[..i], next, size, ranges, first, last);
      }
    }
    assert starts[..|starts|] == starts;
    TouchedRanges(ranges, starts, offsets, size, first, starts[|starts| - 1]);
    ranges := ranges + [(first, starts[|starts| - 1] + size)];
  }

  lemma {:induction false} TouchesSame(s: seq<int>, t: seq<int>, size: int)
    requires forall y :: y in s <==> y in t
    ensures forall b :: Touches(s, size, b) <==> Touches(t, size, b)
  {
    forall b
      ensures Touches(s, size, b) <==> Touches(t, size, b)
    {
      TouchesMembers(s, t, size, b);
    }
  }

  lemma {:induction false} TouchesMembers(s: seq<int>, t: seq<int>, size: int, b: int)
    requires forall y :: y in s <==> y in t
    ensures Touches(s, size, b) <==> Touches(t, size, b)
  {
    if i :| 0 <= i < |s| && s[i] <= b < s[i] + size {
      assert s[i] in t;
    }
    if i :| 0 <= i < |t| && t[i] <= b < t[i] + size {
      assert t[i] in s;
    }
  }

  lemma {:induction false} TouchesSnoc(done: seq<int>, next: int, size: int)
    ensures forall b :: Touches(done + [next], size, b) <==> Touches(done, size, b) || next <= b < next + size
  {
    var all := done + [next];
    assert all[|done|] == next;
    forall b | Touches(done, size, b)
      ensures Touches(all, size, b)
    {
      var j :| 0 <= j < |done| && done[j] <= b < done[j] + size;
      assert all[j] == done[j];
    }
  }

  /** In sorted offsets some pair shares a byte exactly when some neighbours do. */
  lemma {:induction false} AdjacentShare(s: seq<int>, size: int)
    requires SortedBy(AtMost, s) && size > 0
    ensures LanesShare(s, size) <==> Crowded(s, |s|, size)
  {
    if i, j :| 0 <= i < j < |s| && s[i] < s[j] + size && s[j] < s[i] + size {
      assert i < j - 1 ==> AtMost(s[i], s[j - 1]);
      assert 0 < j < |s| && s[j] - s[j - 1] < size;
    }
    if j :| 0 < j < |s| && s[j] - s[j - 1] < size {
      assert AtMost(s[j - 1], s[j]);
      assert s[j - 1] < s[j] + size;
    }
  }
}
