/** The cooperative reduction that the CUDA emitter generates: strided folds of each
    thread, a shuffle-down tree in every warp, eight words of shared memory, and a second
    tree in the first warp. Steps of a warp are taken in lock step. */
module CooperativeReduction {
  import opened Arithmetic

  /** Threads of a warp. */
  const LANES: nat := 32

  datatype Monoid<!T> = Monoid(op: (T, T) -> T, unit: T)

  ghost predicate Commutative<T(!new)>(m: Monoid<T>) {
    && (forall a, b, c :: m.op(m.op(a, b), c) == m.op(a, m.op(b, c)))
    && (forall a, b :: m.op(a, b) == m.op(b, a))
    && (forall a :: m.op(m.unit, a) == a)
  }

  /** The sequential reduction of the first `n` terms. */
  function Fold<T>(m: Monoid<T>, f: int -> T, n: nat): T {
    if n == 0 then m.unit else m.op(Fold(m, f, n - 1), f(n - 1))
  }

  // ----- folds -----

  lemma {:induction false} Associate<T(!new)>(m: Monoid<T>, a: T, b: T, c: T)
    requires Commutative(m)
    ensures m.op(m.op(a, b), c) == m.op(a, m.op(b, c))
  {
  }

  lemma {:induction false} Commute<T(!new)>(m: Monoid<T>, a: T, b: T)
    requires Commutative(m)
    ensures m.op(a, b) == m.op(b, a)
  {
  }

  lemma {:induction false} Unit<T(!new)>(m: Monoid<T>, a: T)
    requires Commutative(m)
    ensures m.op(m.unit, a) == a && m.op(a, m.unit) == a
  {
    Commute(m, a, m.unit);
  }

  lemma {:induction false} Swap<T(!new)>(m: Monoid<T>, a: T, b: T, c: T, d: T)
    requires Commutative(m)
    ensures m.op(m.op(a, b), m.op(c, d)) == m.op(m.op(a, c), m.op(b, d))
  {
    hide Commutative;
    Associate(m, a, b, m.op(c, d));
    Associate(m, b, c, d);
    Commute(m, b, c);
    Associate(m, c, b, d);
    Associate(m, a, c, m.op(b, d));
  }

  lemma {:induction false} FoldSame<T>(m: Monoid<T>, f: int -> T, g: int -> T, n: nat)
    requires forall i :: 0 <= i < n ==> f(i) == g(i)
    ensures Fold(m, f, n) == Fold(m, g, n)
  {
    if n > 0 {
      FoldSame(m, f, g, n - 1);
    }
  }

  /** Folding pairs is folding both parts. */
  lemma {:induction false} FoldPairs<T(!new)>(m: Monoid<T>, f: int -> T, g: int -> T, h: int -> T, n: nat)
    requires Commutative(m) && forall i :: 0 <= i < n ==> h(i) == m.op(f(i), g(i))
    ensures Fold(m, h, n) == m.op(Fold(m, f, n), Fold(m, g, n))
  {
    hide Commutative;
    if n == 0 {
      Unit(m, m.unit);
    } else {
      FoldPairs(m, f, g, h, n - 1);
      Swap(m, Fold(m, f, n - 1), Fold(m, g, n - 1), f(n - 1), g(n - 1));
    }
  }

  lemma {:induction false} FoldSplit<T(!new)>(m: Monoid<T>, f: int -> T, g: int -> T, a: nat, b: nat)
    requires Commutative(m) && forall i :: 0 <= i < b ==> g(i) == f(a + i)
    ensures Fold(m, f, a + b) == m.op(Fold(m, f, a), Fold(m, g, b))
  {
    hide Commutative;
    if b == 0 {
      Unit(m, Fold(m, f, a));
    } else {
      FoldSplit(m, f, g, a, b - 1);
      Associate(m, Fold(m, f, a), Fold(m, g, b - 1), g(b - 1));
    }
  }

  /** One halving of a tree keeps the fold. */
  lemma {:induction false} FoldHalves<T(!new)>(m: Monoid<T>, f: int -> T, h: int -> T, d: nat)
    requires Commutative(m) && forall i :: 0 <= i < d ==> h(i) == m.op(f(i), f(d + i))
    ensures Fold(m, h, d) == Fold(m, f, d + d)
  {
    hide Commutative, Fold;
    FoldPairs(m, f, Shifted(f, d), h, d);
    FoldSplit(m, f, Shifted(f, d), d, d);
  }

  function Shifted<T>(f: int -> T, start: int): int -> T {
    (i: int) => f(start + i)
  }

  lemma {:induction false} FoldStep<T>(m: Monoid<T>, f: int -> T, n: nat)
    ensures Fold(m, f, n) == if n == 0 then m.unit else m.op(Fold(m, f, n - 1), f(n - 1))
  {
  }

  /** A fold in blocks. */
  lemma {:induction false} FoldBlocks<T(!new)>(m: Monoid<T>, f: int -> T, blocks: int -> T, w: nat, size: nat)
    requires Commutative(m) && forall i :: 0 <= i < w ==> blocks(i) == Fold(m, Shifted(f, size * i), size)
    ensures Fold(m, blocks, w) == Fold(m, f, size * w)
  {
    hide Commutative, Fold;
    FoldStep(m, blocks, w);
    FoldStep(m, f, 0);
    if w > 0 {
      FoldBlocks(m, f, blocks, w - 1, size);
      assert size * (w - 1) + size == size * w;
      Scale(0, w - 1, size);
      FoldSplit(m, f, Shifted(f, size * (w - 1)), size * (w - 1), size);
    }
  }

  lemma {:induction false} FoldUnits<T(!new)>(m: Monoid<T>, f: int -> T, a: nat, b: nat)
    requires Commutative(m) && a <= b && forall i :: a <= i < b ==> f(i) == m.unit
    ensures Fold(m, f, b) == Fold(m, f, a)
  {
    hide Commutative;
    if a < b {
      FoldUnits(m, f, a, b - 1);
      Unit(m, Fold(m, f, b - 1));
    }
  }

  /** Changing one term by a factor changes the fold by it. */
  lemma {:induction false} FoldUpdate<T(!new)>(m: Monoid<T>, f: int -> T, g: int -> T, n: nat, k: int, x: T)
    requires Commutative(m) && 0 <= k < n && g(k) == m.op(f(k), x) && forall i :: 0 <= i < n && i != k ==> g(i) == f(i)
    ensures Fold(m, g, n) == m.op(Fold(m, f, n), x)
  {
    hide Commutative;
    var a, b := Fold(m, f, n - 1), f(n - 1);
    if k == n - 1 {
      FoldSame(m, f, g, n - 1);
      Associate(m, a, b, x);
    } else {
      FoldUpdate(m, f, g, n - 1, k, x);
      Associate(m, a, x, b);
      Commute(m, x, b);
      Associate(m, a, b, x);
    }
  }

  // ----- the strided part -----

  /** What thread `t` of `threads` accumulates of the first `e` terms. */
  function Strided<T>(m: Monoid<T>, f: int -> T, threads: int, t: int, e: nat): T
    requires threads > 0
  {
    if e == 0 then m.unit
    else
      var before := Strided(m, f, threads, t, e - 1);
      if (e - 1) % threads == t then m.op(before, f(e - 1)) else before
  }

  /** Between two of its indices a thread accumulates nothing. */
  lemma {:induction false} StridedSkips<T>(m: Monoid<T>, f: int -> T, threads: int, t: int, index: nat, e: nat)
    requires threads > 0 && index % threads == t && index < e <= index + threads
    ensures Strided(m, f, threads, t, e) == Strided(m, f, threads, t, index + 1)
    decreases e
  {
    if e > index + 1 {
      StridedSkips(m, f, threads, t, index, e - 1);
      OtherRemainder(index, e - 1, threads);
    }
  }

  /** The first terms of a thread lie below its own number. */
  lemma {:induction false} StridedStart<T>(m: Monoid<T>, f: int -> T, threads: int, t: nat, e: nat)
    requires 0 <= t < threads && e <= t
    ensures Strided(m, f, threads, t, e) == m.unit
  {
    if e > 0 {
      StridedStart(m, f, threads, t, e - 1);
      Decompose(e - 1, 0, threads, e - 1);
    }
  }

  function Parts<T>(m: Monoid<T>, f: int -> T, threads: int, e: nat): int -> T
    requires threads > 0
  {
    (t: int) => Strided(m, f, threads, t, e)
  }

  /** The threads together accumulate every term once. */
  lemma {:induction false} StridedCovers<T(!new)>(m: Monoid<T>, f: int -> T, threads: int, e: nat)
    requires Commutative(m) && threads > 0
    ensures Fold(m, Parts(m, f, threads, e), threads) == Fold(m, f, e)
  {
    if e == 0 {
      FoldUnits(m, Parts(m, f, threads, 0), 0, threads);
    } else {
      StridedCovers(m, f, threads, e - 1);
      FoldUpdate(m, Parts(m, f, threads, e - 1), Parts(m, f, threads, e), threads, (e - 1) % threads, f(e - 1));
    }
  }

  // ----- the trees -----

  /** `__shfl_down_sync`: the thread whose value a thread receives; a lane past the end of
      its warp keeps its own. */
  function Down(t: nat, offset: nat): (r: nat)
    ensures r / LANES == t / LANES
  {
    if t % LANES + offset < LANES then t + offset else t
  }

  /** What lane `p` holds once the offsets 16, ..., `d` have been combined. */
  function Combined<T>(m: Monoid<T>, a: int -> T, p: int, d: nat): T
    requires d > 0
    decreases LANES - d
  {
    if d > LANES - 1 then a(p) else m.op(Combined(m, a, p, d + d), Combined(m, a, p + d, d + d))
  }

  predicate PowerOfTwo(d: nat) {
    d == LANES || d == 16 || d == 8 || d == 4 || d == 2 || d == 1
  }

  function Lanes<T>(m: Monoid<T>, a: int -> T, base: int, d: nat): int -> T
    requires d > 0
  {
    (l: int) => Combined(m, a, base + l, d)
  }

  /** The reduction of the warp that starts at thread `base`. */
  function WarpSum<T>(m: Monoid<T>, a: int -> T, base: int): T {
    Fold(m, Shifted(a, base), LANES)
  }

  /** The first `d` lanes of a warp hold the whole fold at every stage. */
  lemma {:induction false} CombinedFold<T(!new)>(m: Monoid<T>, a: int -> T, base: int, d: nat)
    requires Commutative(m) && PowerOfTwo(d)
    ensures Fold(m, Lanes(m, a, base, d), d) == WarpSum(m, a, base)
    decreases LANES - d
  {
    hide Commutative, Fold;
    if d == LANES {
      forall i | 0 <= i < d
        ensures Lanes(m, a, base, d)(i) == Shifted(a, base)(i)
      {
        assert Combined(m, a, base + i, d) == a(base + i);
      }
      FoldSame(m, Lanes(m, a, base, d), Shifted(a, base), d);
    } else {
      CombinedFold(m, a, base, d + d);
      var f, h := Lanes(m, a, base, d + d), Lanes(m, a, base, d);
      forall i | 0 <= i < d
        ensures h(i) == m.op(f(i), f(d + i))
      {
        assert base + i + d == base + (d + i);
        assert h(i) == Combined(m, a, base + i, d);
      }
      FoldHalves(m, f, h, d);
    }
  }

  /** After the last stage lane 0 of a warp holds the fold of its 32 lanes. */
  lemma {:induction false} WarpFold<T(!new)>(m: Monoid<T>, a: int -> T, base: int)
    requires Commutative(m)
    ensures Combined(m, a, base, 1) == WarpSum(m, a, base)
  {
    hide Commutative, Fold, WarpSum, Combined;
    var f := Lanes(m, a, base, 1);
    CombinedFold(m, a, base, 1);
    FoldStep(m, f, 1);
    FoldStep(m, f, 0);
    Unit(m, f(0));
    assert base + 0 == base;
  }

  function Values<T>(s: seq<T>, unit: T): int -> T {
    (i: int) => if 0 <= i < |s| then s[i] else unit
  }

  /** The lanes below `d` of every warp hold their combination of the values of `a`. */
  ghost predicate StageHolds<T(!new)>(m: Monoid<T>, a: int -> T, s: seq<T>, d: nat)
    requires d > 0
  {
    |s| % LANES == 0 && forall t :: 0 <= t < |s| && t % LANES < d ==> s[t] == Combined(m, a, t, d)
  }

  lemma {:induction false} FirstStage<T(!new)>(m: Monoid<T>, s: seq<T>)
    requires |s| % LANES == 0
    ensures StageHolds(m, Values(s, m.unit), s, LANES)
  {
    forall t | 0 <= t < |s|
      ensures Combined(m, Values(s, m.unit), t, LANES) == s[t]
    {
    }
  }

  lemma {:induction false} DownInRange(t: nat, offset: nat, count: nat)
    requires t < count && count % LANES == 0
    ensures Down(t, offset) < count
    ensures t % LANES + offset < LANES ==> Down(t, offset) == t + offset && (t + offset) % LANES == t % LANES + offset
  {
    if t % LANES + offset < LANES {
      Decompose(t + offset, t / LANES, LANES, t % LANES + offset);
    }
  }

  /** What every thread holds after receiving from `offset` lanes further. */
  predicate Shuffled<T(==)>(m: Monoid<T>, before: seq<T>, after: seq<T>, offset: nat) {
    && |after| == |before| && |before| % LANES == 0
    && forall t :: 0 <= t < |before| ==>
        Down(t, offset) < |before| && after[t] == m.op(before[t], before[Down(t, offset)])
  }

  lemma {:induction false} NextStage<T(!new)>(m: Monoid<T>, a: int -> T, before: seq<T>, after: seq<T>, d: nat,
          offset: nat)
    requires 0 < offset && d == offset + offset && d <= LANES && StageHolds(m, a, before, d)
    requires Shuffled(m, before, after, offset)
    ensures StageHolds(m, a, after, offset)
  {
    forall t | 0 <= t < |after| && t % LANES < offset
      ensures after[t] == Combined(m, a, t, offset)
    {
      DownInRange(t, offset, |before|);
    }
  }

  /** One lock-step stage. */
  method ShuffleStep<T(!new, ==)>(m: Monoid<T>, ghost a: int -> T, acc: array<T>, ghost d: nat, offset: nat)
    requires acc.Length % LANES == 0 && 0 < offset && d == offset + offset && d <= LANES && StageHolds(m, a, acc[..], d)
    modifies acc
    ensures StageHolds(m, a, acc[..], offset)
  {
    ghost var before := acc[..];
    forall t: nat | t < acc.Length
      ensures Down(t, offset) < acc.Length
    {
      DownInRange(t, offset, acc.Length);
    }
    hide StageHolds;
    forall t | 0 <= t < acc.Length {
      acc[t] := m.op(acc[t], acc[Down(t, offset)]);
    }
    NextStage(m, a, before, acc[..], d, offset);
  }

  /** The lock-step stages of a shuffle-down tree over all warps. */
  method ShuffleTree<T(!new, ==)>(m: Monoid<T>, acc: array<T>)
    requires acc.Length % LANES == 0 && Commutative(m)
    modifies acc
    ensures LeadersHold(m, Values(old(acc[..]), m.unit), acc[..])
  {
    ghost var a := Values(acc[..], m.unit);
    FirstStage(m, acc[..]);
    hide *;
    var offset := 16;
    while offset > 0
      invariant offset == 16 || offset == 8 || offset == 4 || offset == 2 || offset == 1 || offset == 0
      invariant StageHolds(m, a, acc[..], if offset == 0 then 1 else offset + offset)
      decreases offset
    {
      ShuffleStep(m, a, acc, offset + offset, offset);
      offset := offset / 2;
    }
    LastStage(m, a, acc[..]);
  }

  /** The first thread of every warp holds the reduction of the warp. */
  ghost predicate LeadersHold<T(!new)>(m: Monoid<T>, a: int -> T, s: seq<T>) {
    forall t :: 0 <= t < |s| && t % LANES == 0 ==> s[t] == WarpSum(m, a, t)
  }

  lemma {:induction false} LastStage<T(!new)>(m: Monoid<T>, a: int -> T, s: seq<T>)
    requires StageHolds(m, a, s, 1) && Commutative(m)
    ensures LeadersHold(m, a, s)
  {
    hide WarpSum, Combined, Commutative;
    forall t | 0 <= t < |s| && t % LANES == 0
      ensures s[t] == WarpSum(m, a, t)
    {
      WarpFold(m, a, t);
    }
  }

  // ----- the whole reduction -----

  /** `supports_cooperative_reduction`: the thread counts for which it is generated. */
  predicate Supported(threads: int) {
    32 <= threads <= 256 && threads % 32 == 0
  }

  /** These are the counts of whole warps whose leaders have a word each in the shared array. */
  lemma {:induction false} SupportedExactly(threads: int)
    ensures Supported(threads) <==> exists warps :: 1 <= warps <= 8 && threads == LANES * warps
  {
    if Supported(threads) {
      var warps := threads / 32;
      assert 1 <= warps <= 8 && threads == LANES * warps;
    }
    if warps :| 1 <= warps <= 8 && threads == LANES * warps {
      Decompose(threads, warps, LANES, 0);
    }
  }

  /** Every thread folds the terms of its own number, stepping by the thread count. */
  method FoldTerms<T(!new, ==)>(m: Monoid<T>, term: int -> T, extent: int, threads: nat) returns (acc: array<T>)
    requires threads > 0
    ensures fresh(acc) && acc.Length == threads
    ensures forall t :: 0 <= t < threads ==> acc[t] == Strided(m, term, threads, t, if extent > 0 then extent else 0)
  {
    var count: nat := if extent > 0 then extent else 0;
    acc := new T[threads](_ => m.unit);
    for t := 0 to threads
      invariant forall u :: 0 <= u < t ==> acc[u] == Strided(m, term, threads, u, count)
      invariant forall u :: t <= u < threads ==> acc[u] == m.unit
    {
      var index := t;
      Decompose(t, 0, threads, t);
      StridedStart(m, term, threads, t, if t < count then t else count);
      while index < extent
        invariant t <= index && index % threads == t
        invariant acc[t] == Strided(m, term, threads, t, if index < count then index else count)
        invariant forall u :: 0 <= u < t ==> acc[u] == Strided(m, term, threads, u, count)
        invariant forall u :: t < u < threads ==> acc[u] == m.unit
      {
        StridedSkips(m, term, threads, t, index, if index + threads < count then index + threads else count);
        SameRemainder(index, threads);
        acc[t] := m.op(acc[t], term(index));
        index := index + threads;
      }
    }
  }

  /** Which values the first warp reduces: one word for each warp, then identities. */
  ghost predicate Gathered<T(!new)>(m: Monoid<T>, a: int -> T, warps: nat, first: seq<T>) {
    |first| == LANES && warps <= LANES && forall t :: 0 <= t < LANES ==>
        first[t] == if t < warps then WarpSum(m, a, LANES * t) else m.unit
  }

  /** The fold of the gathered words is the fold over all threads. */
  lemma {:induction false} GatheredFold<T(!new)>(m: Monoid<T>, a: int -> T, warps: nat, first: seq<T>)
    requires Commutative(m) && Gathered(m, a, warps, first)
    ensures WarpSum(m, Values(first, m.unit), 0) == Fold(m, a, LANES * warps)
  {
    var g, blocks := Shifted(Values(first, m.unit), 0), (w: int) => WarpSum(m, a, LANES * w);
    GatheredUnits(m, g, warps, LANES, first, a);
    GatheredBlocks(m, a, blocks, g, warps, first);
    hide Fold;
    assert WarpSum(m, Values(first, m.unit), 0) == Fold(m, g, LANES);
  }

  lemma {:induction false} GatheredUnits<T(!new)>(m: Monoid<T>, g: int -> T, warps: nat, lanes: nat, first: seq<T>,
          a: int -> T)
    requires Commutative(m) && Gathered(m, a, warps, first) && lanes == LANES && g == Shifted(Values(first, m.unit), 0)
    ensures Fold(m, g, lanes) == Fold(m, g, warps)
  {
    hide Commutative, Fold;
    FoldUnits(m, g, warps, lanes);
  }

  lemma {:induction false} GatheredBlocks<T(!new)>(m: Monoid<T>, a: int -> T, blocks: int -> T, g: int -> T, warps: nat,
          first: seq<T>)
    requires Commutative(m) && Gathered(m, a, warps, first) && g == Shifted(Values(first, m.unit), 0)
    requires forall w :: blocks(w) == WarpSum(m, a, LANES * w)
    ensures Fold(m, g, warps) == Fold(m, a, LANES * warps)
  {
    hide Commutative, Fold;
    FoldSame(m, g, blocks, warps);
    var size: nat := LANES;
    FoldBlocks(m, a, blocks, warps, size);
  }

  /** Folding the threads' parts is the sequential reduction. */
  lemma {:induction false} ThreadsFold<T(!new)>(m: Monoid<T>, term: int -> T, count: nat, threads: nat, acc: seq<T>)
    requires Commutative(m) && threads > 0 && |acc| == threads
    requires forall t :: 0 <= t < threads ==> acc[t] == Strided(m, term, threads, t, count)
    ensures Fold(m, Values(acc, m.unit), threads) == Fold(m, term, count)
  {
    hide Commutative, Fold;
    FoldSame(m, Values(acc, m.unit), Parts(m, term, threads, count), threads);
    StridedCovers(m, term, threads, count);
  }

  /** The leaders publish their words; after the barrier the first warp reduces them. */
  method ReduceShared<T(!new, ==)>(m: Monoid<T>, ghost a: int -> T, acc: array<T>, garbage: T) returns (result: T)
    requires Commutative(m) && Supported(acc.Length) && LeadersHold(m, a, acc[..])
    ensures result == Fold(m, a, acc.Length)
  {
    var shared, warps := new T[8](_ => garbage), (acc.Length + 31) / 32;
    assert LANES * warps == acc.Length && warps <= 8;
    hide Fold, Commutative, Values, WarpSum, LeadersHold, Gathered;
    forall w | 0 <= w < warps {
      shared[w] := acc[32 * w];
    }
    var first := new T[32](t requires 0 <= t < 32 reads shared => if t < warps && t < shared.Length then shared[t]
        else m.unit);
    FirstGathered(m, a, acc[..], warps, first[..]);
    GatheredFold(m, a, warps, first[..]);
    ghost var b := Values(first[..], m.unit);
    ShuffleTree(m, first);
    FirstLeader(m, b, first[..]);
    shared[0] := first[0];
    result := shared[0];
  }

  lemma {:induction false} FirstLeader<T(!new)>(m: Monoid<T>, a: int -> T, s: seq<T>)
    requires LeadersHold(m, a, s) && s != []
    ensures s[0] == WarpSum(m, a, 0)
  {
    assert 0 % LANES == 0;
  }

  /** The generated reduction returns the sequential fold over the extent, for every
      commutative monoid, extent and supported thread count, whatever the shared words
      held; the eight shared words are never indexed out of range. */
  method Reduce<T(!new, ==)>(m: Monoid<T>, extent: int, term: int -> T, threads: nat, garbage: T) returns (result: T)
    requires Commutative(m) && Supported(threads)
    ensures result == Fold(m, term, if extent > 0 then extent else 0)
  {
    var acc := FoldTerms(m, term, extent, threads);
    hide Fold, Commutative, Values, WarpSum, Strided, LeadersHold;
    ThreadsFold(m, term, if extent > 0 then extent else 0, threads, acc[..]);
    ghost var a := Values(acc[..], m.unit);
    ShuffleTree(m, acc);
    result := ReduceShared(m, a, acc, garbage);
  }

  lemma {:induction false} FirstGathered<T(!new)>(m: Monoid<T>, a: int -> T, acc: seq<T>, warps: nat, first: seq<T>)
    requires LeadersHold(m, a, acc) && |acc| == LANES * warps && warps <= 8 && |first| == LANES
    requires forall t :: 0 <= t < LANES ==> first[t] == if t < warps then acc[LANES * t] else m.unit
    ensures Gathered(m, a, warps, first)
  {
    forall t | 0 <= t < warps
      ensures first[t] == WarpSum(m, a, LANES * t)
    {
      Decompose(LANES * t, t, LANES, 0);
    }
  }
}
