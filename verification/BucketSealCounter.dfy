/**
 * The tree as a counter: when small leaves are appended one by one, the buffers hold the digits of their number
 * in base `F`, and an append seals as many levels as an increment carries. So one append can cost as much as the
 * tree is high, although a run of appends costs little on average.
 */
module BucketSealCounter {
  import opened Common
  import opened BucketSeal
  import opened BucketSealRuns
  import opened BucketSealShape
  import opened BucketSealHeight

  function Name(n: nat): (name: string)
    ensures |name| == n
  {
    if n == 0 then "" else Name(n - 1) + "a"
  }

  /** The chunk of leaf number `n`, of `t` tokens, is stored. */
  function Storing(t: U32, n: nat): Op {
    StoreChunk(ChunkId(Name(n)), Chunk(Name(n), t, 0, 0))
  }

  /** The leaf is appended with a tree that was just read. */
  function Appending(t: U32, n: nat, s: Store): Op {
    Append(Leaf(ChunkId(Name(n)), t, 0), s.maxLevel)
  }

  /** A run of `n` leaves. */
  function Leaves(c: Config, t: U32, n: nat): seq<Op> {
    if n == 0 then []
    else
      var before := Leaves(c, t, n - 1);
      before + [Storing(t, n - 1)] + [Appending(t, n - 1, Run(c, before))]
  }

  /** Even one leaf less than fill a buffer stay below the token gate. */
  ghost predicate Small(c: Config, t: U32) {
    ValidConfig(c) && (c.fanout - 1) * t < c.budget
  }

  function Count(s: Store, k: nat): nat {
    |GetOrCreate(s, k).itemIds|
  }

  function Digit(n: nat, f: nat): nat
    requires f >= 1
  {
    n % f
  }

  function Rest(n: nat, f: nat): nat
    requires f >= 1
  {
    n / f
  }

  /** From level `k` on the buffers hold the digits of `n` in base `F`; the last level holds all that is left. */
  ghost predicate Digits(c: Config, s: Store, k: nat, n: nat)
    requires c.fanout >= 1
    decreases c.depth - k
  {
    if k >= c.depth then Count(s, k) == n
    else Count(s, k) == Digit(n, c.fanout) && Digits(c, s, k + 1, Rest(n, c.fanout))
  }

  /** How many digits an increment of `n` carries, of at most `left`. */
  function Carries(f: nat, n: nat, left: nat): nat
    requires f >= 1
    decreases left
  {
    if left == 0 || Digit(n, f) != f - 1 then 0 else 1 + Carries(f, Rest(n, f), left - 1)
  }

  lemma Increment(n: nat, f: nat)
    requires f >= 1
    ensures Digit(n, f) == f - 1 ==> Digit(n + 1, f) == 0 && Rest(n + 1, f) == Rest(n, f) + 1
    ensures Digit(n, f) != f - 1 ==> Digit(n + 1, f) == Digit(n, f) + 1 && Rest(n + 1, f) == Rest(n, f)
    ensures Digit(n, f) < f
  {
    var q, r := n / f, n % f;
    if r == f - 1 {
      assert n + 1 == (q + 1) * f;
      Quotient(n + 1, f, q + 1, 0);
    } else {
      Quotient(n + 1, f, q, r + 1);
    }
  }

  lemma Quotient(n: nat, f: nat, q: nat, r: nat)
    requires f >= 1 && r < f && n == q * f + r
    ensures n / f == q && n % f == r
  {
    var d := n / f - q;
    assert d * f == r - n % f;
    assert d >= 1 ==> d * f >= f;
    assert d <= -1 ==> d * f + f <= 0;
  }

  /** How item counts from level `k` on change with `t` seals: those levels are emptied, the next one gets an item. */
  ghost predicate Shifted(s: Store, s': Store, k: nat, t: nat) {
    forall m: nat {:trigger Count(s', m)} ::
      m >= k ==> Count(s', m) == if m < k + t then 0 else if m == k + t then Count(s, m) + 1 else Count(s, m)
  }

  lemma {:induction false} ShiftedDigits(c: Config, s: Store, s': Store, k: nat, n: nat)
    requires c.fanout >= 1 && k <= c.depth && Digits(c, s, k, n)
    requires Shifted(s, s', k, Carries(c.fanout, n, c.depth - k))
    ensures Digits(c, s', k, n + 1)
    decreases c.depth - k
  {
    hide Digit, Rest, Count;
    assert Count(s', k) >= 0;
    if k < c.depth {
      Increment(n, c.fanout);
      if Digit(n, c.fanout) == c.fanout - 1 {
        ShiftedDigits(c, s, s', k + 1, Rest(n, c.fanout));
      } else {
        SameDigits(c, s, s', k + 1, Rest(n, c.fanout));
      }
    }
  }

  lemma {:induction false} SameDigits(c: Config, s: Store, s': Store, k: nat, n: nat)
    requires c.fanout >= 1 && Digits(c, s, k, n)
    requires forall m: nat {:trigger Count(s', m)} :: m >= k ==> Count(s', m) == Count(s, m)
    ensures Digits(c, s', k, n)
    decreases c.depth - k
  {
    hide Digit, Rest, Count;
    assert Count(s', k) >= 0;
    if k < c.depth {
      SameDigits(c, s, s', k + 1, Rest(n, c.fanout));
    }
  }

  lemma {:induction false} ClimbCarries(c: Config, s: Store, k: nat, n: nat)
    requires c.fanout >= 1 && k <= c.depth && Digits(c, s, k, n)
    ensures Climb(c, s, k, c.depth - k) == Carries(c.fanout, n, c.depth - k)
    decreases c.depth - k
  {
    hide Digit, Rest, FillsUp;
    if k < c.depth {
      Increment(n, c.fanout);
      FullFillsUp(c, GetOrCreate(s, k));
      ClimbCarries(c, s, k + 1, Rest(n, c.fanout));
    }
  }

  lemma FullFillsUp(c: Config, b: Buffer)
    requires c.fanout >= 1 && |b.itemIds| < c.fanout
    ensures FillsUp(c, b) <==> |b.itemIds| == c.fanout - 1
  {
  }

  lemma SealShifts(c: Config, s: Store, treeMax: nat, k: nat, s': Store)
    requires Seal(c, s, treeMax, k, s')
    ensures Shifted(s, s', k, 1)
  {
    hide Hydrate, SealedNode, NewNode;
    forall m: nat | m >= k
      ensures Count(s', m) == if m < k + 1 then 0 else if m == k + 1 then Count(s, m) + 1 else Count(s, m)
    {
      if m > k + 1 {
        assert GetOrCreate(s', m) == GetOrCreate(s, m);
      }
    }
  }

  lemma ShiftTwice(s: Store, s1: Store, s': Store, k: nat, t: nat)
    requires t >= 1 && Shifted(s, s1, k, 1) && Shifted(s1, s', k + 1, t) && Count(s', k) == 0
    ensures Shifted(s, s', k, t + 1)
  {
    hide Count;
    forall m: nat | m >= k
      ensures Count(s', m) == if m < k + t + 1 then 0 else if m == k + t + 1 then Count(s, m) + 1 else Count(s, m)
    {
      assert Count(s1, m) >= 0;
    }
  }

  lemma {:induction false} ChainShifts(c: Config, treeMax: nat, k: nat, tr: seq<Store>)
    requires Chain(c, treeMax, k, tr, false) && |tr| >= 2
    ensures Shifted(tr[0], Last(tr), k, |tr| - 1)
    ensures forall m :: 0 <= m < k ==> Count(Last(tr), m) == Count(tr[0], m)
    decreases |tr|
  {
    hide Seal, Shifted, ShouldSeal, Count;
    SealShifts(c, tr[0], treeMax, k, tr[1]);
    LowerSame(c, tr[0], treeMax, k, tr[1]);
    if |tr| >= 3 {
      ChainShifts(c, treeMax, k + 1, tr[1..]);
      EmptiedBySeal(c, tr[0], treeMax, k, tr[1]);
      ShiftTwice(tr[0], tr[1], Last(tr), k, |tr| - 2);
    }
  }

  lemma EmptiedBySeal(c: Config, s: Store, treeMax: nat, k: nat, s': Store)
    requires Seal(c, s, treeMax, k, s')
    ensures Count(s', k) == 0
  {
    hide Hydrate, SealedNode, NewNode;
  }

  lemma LowerSame(c: Config, s: Store, treeMax: nat, k: nat, s': Store)
    requires Seal(c, s, treeMax, k, s')
    ensures forall m :: 0 <= m < k ==> Count(s', m) == Count(s, m)
  {
    hide Hydrate, SealedNode, NewNode;
    forall m | 0 <= m < k ensures Count(s', m) == Count(s, m) {
      assert GetOrCreate(s', m) == GetOrCreate(s, m);
    }
  }

  // ---------------------------------------------------------------------------------------------
  // The run of small leaves
  // ---------------------------------------------------------------------------------------------

  /** The waiting leaves all have a chunk and come before number `n`, and their stored sum is their true one. */
  ghost predicate Waiting(s: Store, t: U32, n: nat) {
    var b := GetOrCreate(s, 0);
    && b.tokenSum == |b.itemIds| * t
    && forall i :: 0 <= i < |b.itemIds| ==> b.itemIds[i].ChunkId? && |b.itemIds[i].name| < n && b.itemIds[i] in s.chunks
  }

  ghost predicate Counter(c: Config, s: Store, t: U32, n: nat)
    requires c.fanout >= 1
  {
    Inv(s) && Digits(c, s, 0, n) && Waiting(s, t, n)
  }

  function WithChunk(s: Store, t: U32, n: nat): Store {
    s.(chunks := s.chunks[ChunkId(Name(n)) := Chunk(Name(n), t, 0, 0)])
  }

  /** The store when leaf number `n` has been put into the level-0 buffer. */
  function Entered(s: Store, t: U32, n: nat): Store {
    Appended(WithChunk(s, t, n), Leaf(ChunkId(Name(n)), t, 0))
  }

  lemma RowEntered(s: Store, leaf: Leaf)
    requires Inv(s) && leaf.id !in GetOrCreate(s, 0).itemIds
    ensures var b, b' := GetOrCreate(s, 0), GetOrCreate(Appended(s, leaf), 0);
            && b'.itemIds == b.itemIds + [leaf.id] && b'.tokenSum == AsI32(SaturatingAdd(b.tokenSum, leaf.tokens))
    ensures forall m: nat :: m >= 1 ==> GetOrCreate(Appended(s, leaf), m) == GetOrCreate(s, m)
    ensures Inv(Appended(s, leaf)) && Appended(s, leaf).chunks == s.chunks
  {
    AppendKeepsInv(s, leaf);
    hide Inv, AsI32, SaturatingAdd;
  }

  lemma SmallSum(c: Config, x: nat, t: U32)
    requires Small(c, t) && x < c.fanout - 1
    ensures AsI32(SaturatingAdd(x * t, t)) == (x + 1) * t < c.budget
  {
    hide *;
    SmallMeans(c, t);
    Multiples(x, c.fanout, t);
    AddsExactly(x * t, t);
  }

  lemma SmallMeans(c: Config, t: U32)
    requires Small(c, t)
    ensures c.fanout >= 2 && c.depth >= 1 && (c.fanout - 1) * t < c.budget <= TWO31
  {
  }

  lemma Multiples(x: nat, f: nat, t: nat)
    requires x + 1 < f
    ensures 0 <= x * t && x * t + t == (x + 1) * t <= (f - 1) * t
  {
    var more := f - 2 - x;
    assert (f - 1) * t == (x + 1) * t + more * t;
  }

  lemma AddsExactly(x: nat, t: U32)
    requires x + t < TWO31
    ensures AsI32(SaturatingAdd(x, t)) == x + t
  {
  }

  lemma ChunkKeeps(s: Store, t: U32, n: nat)
    requires Inv(s)
    ensures Inv(WithChunk(s, t, n)) && forall m: nat :: GetOrCreate(WithChunk(s, t, n), m) == GetOrCreate(s, m)
    ensures ChunkId(Name(n)) in WithChunk(s, t, n).chunks && forall id :: id in s.chunks ==>
              id in WithChunk(s, t, n).chunks
  {
  }

  lemma LeafIsNew(s: Store, t: U32, n: nat)
    requires Waiting(s, t, n)
    ensures ChunkId(Name(n)) !in GetOrCreate(s, 0).itemIds
  {
  }

  lemma GateAt0(c: Config, b: Buffer)
    requires b.level == 0 && 1 <= |b.itemIds| <= c.fanout && (|b.itemIds| < c.fanout ==> b.tokenSum < c.budget)
    ensures ShouldSeal(c, b) <==> |b.itemIds| == c.fanout
  {
  }

  lemma StillWaiting(s: Store, a: Store, t: U32, n: nat)
    requires Waiting(s, t, n) && GetOrCreate(a, 0).itemIds == GetOrCreate(s, 0).itemIds + [ChunkId(Name(n))]
    requires GetOrCreate(a, 0).tokenSum == (Count(s, 0) + 1) * t
    requires ChunkId(Name(n)) in a.chunks && forall id :: id in s.chunks ==> id in a.chunks
    ensures Waiting(a, t, n + 1)
  {
    assert |GetOrCreate(a, 0).itemIds| == Count(s, 0) + 1;
  }

  lemma LastHydrates(chunks: map<Id, Chunk>, ids: seq<Id>)
    requires ids != [] && ids[|ids| - 1] in chunks
    ensures HydrateLeaves(chunks, ids) != []
  {
    LeafInputs(chunks, ids);
  }

  lemma CountAfter(s: Store, a: Store, id: Id)
    requires GetOrCreate(a, 0).itemIds == GetOrCreate(s, 0).itemIds + [id]
    ensures Count(a, 0) == Count(s, 0) + 1 == |GetOrCreate(a, 0).itemIds|
    ensures Count(s, 0) == |GetOrCreate(s, 0).itemIds|
    ensures GetOrCreate(a, 0).itemIds[|GetOrCreate(a, 0).itemIds| - 1] == id
  {
  }

  lemma SumOfWaiting(s: Store, t: U32, n: nat)
    requires Waiting(s, t, n)
    ensures GetOrCreate(s, 0).tokenSum == Count(s, 0) * t
  {
  }

  lemma Level0Hydrates(s: Store, ids: seq<Id>)
    requires HydrateLeaves(s.chunks, ids) != []
    ensures Hydrate(s, 0, ids) != []
  {
  }

  /** The level-0 row after a leaf entered: the gate is open exactly when the buffer is full. */
  lemma LeafEnters(c: Config, s: Store, t: U32, n: nat)
    requires Small(c, t) && Inv(s) && Waiting(s, t, n) && Count(s, 0) < c.fanout
    ensures var a := Entered(s, t, n);
            && Inv(a) && a.chunks == WithChunk(s, t, n).chunks
            && Count(a, 0) == Count(s, 0) + 1 && (forall m: nat :: m >= 1 ==> GetOrCreate(a, m) == GetOrCreate(s, m))
            && (ShouldSeal(c, GetOrCreate(a, 0)) <==> Count(s, 0) == c.fanout - 1)
            && Hydrate(a, 0, GetOrCreate(a, 0).itemIds) != []
            && (Count(s, 0) < c.fanout - 1 ==> Waiting(a, t, n + 1))
  {
    hide *;
    var s1, leaf, a := WithChunk(s, t, n), Leaf(ChunkId(Name(n)), t, 0), Entered(s, t, n);
    EnteredIs(s, t, n);
    ChunkKeeps(s, t, n);
    LeafIsNew(s, t, n);
    RowEntered(s1, leaf);
    InvRows(a);
    CountAfter(s, a, leaf.id);
    LastHydrates(a.chunks, GetOrCreate(a, 0).itemIds);
    Level0Hydrates(a, GetOrCreate(a, 0).itemIds);
    SumOfWaiting(s, t, n);
    if Count(s, 0) < c.fanout - 1 {
      SmallSum(c, Count(s, 0), t);
      StillWaiting(s, a, t, n);
    }
    GateAt0(c, GetOrCreate(a, 0));
  }

  lemma EnteredIs(s: Store, t: U32, n: nat)
    ensures Entered(s, t, n) == Appended(WithChunk(s, t, n), Leaf(ChunkId(Name(n)), t, 0))
  {
  }

  // ---------------------------------------------------------------------------------------------
  // The cascade of one leaf
  // ---------------------------------------------------------------------------------------------

  lemma NextRises(c: Config, s: Store, t: U32, n: nat)
    requires Small(c, t) && Counter(c, s, t, n)
    ensures Rise(c, Entered(s, t, n), 0, false) == Carries(c.fanout, n, c.depth)
  {
    hide *;
    SmallMeans(c, t);
    CounterMeans(c, s, t, n);
    Increment(n, c.fanout);
    LeafEnters(c, s, t, n);
    var a := Entered(s, t, n);
    CarriesTurn(c.fanout, n, c.depth);
    if Digit(n, c.fanout) == c.fanout - 1 {
      RiseUnfolds(c, a, 0, false);
      AboveSame(c, s, a, n);
      ClimbCarries(c, a, 1, Rest(n, c.fanout));
    } else {
      NoRise(c, a);
    }
  }

  lemma CounterMeans(c: Config, s: Store, t: U32, n: nat)
    requires c.fanout >= 1 && c.depth >= 1 && Counter(c, s, t, n)
    ensures Inv(s) && Waiting(s, t, n) && Digits(c, s, 0, n)
    ensures Count(s, 0) == Digit(n, c.fanout) && Digits(c, s, 1, Rest(n, c.fanout))
  {
    hide Inv, Waiting, Digit, Rest, Count;
  }

  lemma CarriesTurn(f: nat, n: nat, left: nat)
    requires f >= 1 && left >= 1
    ensures Carries(f, n, left) == if Digit(n, f) != f - 1 then 0 else 1 + Carries(f, Rest(n, f), left - 1)
  {
    hide Digit, Rest;
  }

  lemma AboveSame(c: Config, s: Store, a: Store, n: nat)
    requires c.fanout >= 1 && Digits(c, s, 1, Rest(n, c.fanout))
    requires forall m: nat :: m >= 1 ==> GetOrCreate(a, m) == GetOrCreate(s, m)
    ensures Digits(c, a, 1, Rest(n, c.fanout))
  {
    hide Digits, Rest, GetOrCreate;
    SameDigits(c, s, a, 1, Rest(n, c.fanout));
  }

  lemma NoRise(c: Config, s: Store)
    requires !ShouldSeal(c, GetOrCreate(s, 0))
    ensures Rise(c, s, 0, false) == 0
  {
    hide ShouldSeal, GetOrCreate, Hydrate, Climb;
  }

  /**
   * One leaf more: the cascade succeeds, seals as many levels as the increment carries, and the buffers hold
   * the next number.
   */
  lemma CounterTurn(c: Config, s: Store, t: U32, n: nat)
    requires Small(c, t) && Counter(c, s, t, n)
    ensures var r := Cascade(c, Entered(s, t, n), s.maxLevel, 0, c.depth, false);
            r.0.Ok? && |r.0.value| == Carries(c.fanout, n, c.depth) && Counter(c, r.1, t, n + 1)
  {
    hide *;
    SmallMeans(c, t);
    CounterMeans(c, s, t, n);
    Increment(n, c.fanout);
    LeafEnters(c, s, t, n);
    NextRises(c, s, t, n);
    var a := Entered(s, t, n);
    var r := Cascade(c, a, s.maxLevel, 0, c.depth, false);
    var tr := CascadeRises(c, a, s.maxLevel, 0, false);
    CarriesTurn(c.fanout, n, c.depth);
    LastOfRest(tr);
    if |tr| == 1 {
      ClosedGateIsFine(c, a, s.maxLevel);
      EnteredShifts(s, a);
      ShiftedDigits(c, s, r.1, 0, n);
    } else {
      ChainKeeps(c, s.maxLevel, 0, tr, false);
      ChainShifts(c, s.maxLevel, 0, tr);
      EnteredShiftsOn(s, a, r.1, |tr| - 1);
      ShiftedDigits(c, s, r.1, 0, n);
      ChainLevel0(c, s.maxLevel, 0, tr, false);
      EmptyWaits(r.1, t, n + 1);
    }
    CounterIs(c, r.1, t, n + 1);
  }

  lemma CounterIs(c: Config, s: Store, t: U32, n: nat)
    requires c.fanout >= 1 && Inv(s) && Waiting(s, t, n) && Digits(c, s, 0, n)
    ensures Counter(c, s, t, n)
  {
    hide Inv, Waiting, Digits;
  }

  lemma ClosedGateIsFine(c: Config, s: Store, treeMax: nat)
    requires !ShouldSeal(c, GetOrCreate(s, 0))
    ensures Cascade(c, s, treeMax, 0, c.depth, false) == (Ok([]), s)
  {
    hide ShouldSeal, GetOrCreate;
  }

  lemma EmptyWaits(s: Store, t: U32, n: nat)
    requires GetOrCreate(s, 0) == Buffer(0, [], 0, None)
    ensures Waiting(s, t, n)
  {
  }

  lemma EnteredShifts(s: Store, a: Store)
    requires Count(a, 0) == Count(s, 0) + 1 && forall m: nat :: m >= 1 ==> GetOrCreate(a, m) == GetOrCreate(s, m)
    ensures Shifted(s, a, 0, 0)
  {
    hide GetOrCreate;
  }

  lemma EnteredShiftsOn(s: Store, a: Store, s': Store, k: nat)
    requires Count(a, 0) == Count(s, 0) + 1 && forall m: nat :: m >= 1 ==> GetOrCreate(a, m) == GetOrCreate(s, m)
    requires Shifted(a, s', 0, k) && k >= 1
    ensures Shifted(s, s', 0, k)
  {
    hide GetOrCreate;
  }

  lemma LeavesTurn(c: Config, t: U32, n: nat)
    ensures var s := Run(c, Leaves(c, t, n));
            Run(c, Leaves(c, t, n + 1)) == Cascade(c, Entered(s, t, n), s.maxLevel, 0, c.depth, false).1
  {
    hide *;
    var before, s := Leaves(c, t, n), Run(c, Leaves(c, t, n));
    var store, append := Storing(t, n), Appending(t, n, s);
    LeavesSnoc(c, t, n);
    RunSnoc(c, before, store);
    RunSnoc(c, before + [store], append);
    StoringStep(c, s, t, n);
    AppendingStep(c, s, t, n);
  }

  lemma LeavesSnoc(c: Config, t: U32, n: nat)
    ensures var before := Leaves(c, t, n);
            Leaves(c, t, n + 1) == before + [Storing(t, n)] + [Appending(t, n, Run(c, before))]
  {
    hide Run, Storing, Appending;
  }

  lemma StoringStep(c: Config, s: Store, t: U32, n: nat)
    ensures Step(c, s, Storing(t, n)) == WithChunk(s, t, n)
  {
    hide Name;
  }

  lemma AppendingStep(c: Config, s: Store, t: U32, n: nat)
    ensures Step(c, WithChunk(s, t, n), Appending(t, n, s))
            == Cascade(c, Entered(s, t, n), s.maxLevel, 0, c.depth, false).1
  {
    hide Name, Cascade, Appended;
  }

  /**
   * After `n` small leaves the buffers hold the digits of `n` in base `F`, and the append of the next one succeeds
   * and seals as many levels as the increment of `n` carries.
   */
  lemma {:induction false} LeavesAreCounted(c: Config, t: U32, n: nat)
    requires Small(c, t)
    ensures Unforced(Leaves(c, t, n))
    ensures var s := Run(c, Leaves(c, t, n));
            var r := Cascade(c, Entered(s, t, n), s.maxLevel, 0, c.depth, false);
            && Digits(c, s, 0, n) && Run(c, Leaves(c, t, n + 1)) == r.1
            && r.0.Ok? && |r.0.value| == Carries(c.fanout, n, c.depth)
  {
    hide *;
    SmallMeans(c, t);
    LeavesUnforced(c, t, n);
    CounterRuns(c, t, n);
    CounterMeans(c, Run(c, Leaves(c, t, n)), t, n);
    CounterTurn(c, Run(c, Leaves(c, t, n)), t, n);
    LeavesTurn(c, t, n);
  }

  lemma {:induction false} LeavesUnforced(c: Config, t: U32, n: nat)
    ensures Unforced(Leaves(c, t, n))
  {
    hide Run;
    if n > 0 {
      LeavesUnforced(c, t, n - 1);
    }
  }

  lemma {:induction false} CounterRuns(c: Config, t: U32, n: nat)
    requires Small(c, t)
    ensures c.fanout >= 1 && Counter(c, Run(c, Leaves(c, t, n)), t, n)
  {
    hide *;
    SmallMeans(c, t);
    if n == 0 {
      CounterStarts(c, t);
    } else {
      CounterRuns(c, t, n - 1);
      CounterTurn(c, Run(c, Leaves(c, t, n - 1)), t, n - 1);
      LeavesTurn(c, t, n - 1);
    }
  }

  lemma CounterStarts(c: Config, t: U32)
    requires c.fanout >= 1
    ensures Counter(c, Run(c, Leaves(c, t, 0)), t, 0)
  {
    NothingCounted(c, 0);
  }

  lemma {:induction false} NothingCounted(c: Config, k: nat)
    requires c.fanout >= 1
    ensures Digits(c, EMPTY, k, 0)
    decreases c.depth - k
  {
    if k < c.depth {
      NothingCounted(c, k + 1);
    }
  }

  /** The number before `F^d` carries `d` digits. */
  lemma {:induction false} NinesCarry(f: nat, d: nat, left: nat)
    requires f >= 2 && d <= left
    ensures Pow(f, d) >= 1 && Carries(f, Pow(f, d) - 1, left) == d
    decreases d
  {
    if d == 0 {
    } else {
      NinesCarry(f, d - 1, left - 1);
      NinesEnd(f, Pow(f, d - 1));
      CarriesTurn(f, Pow(f, d) - 1, left);
    }
  }

  lemma NinesEnd(f: nat, p: nat)
    requires f >= 2 && p >= 1
    ensures f * p >= 1 && Digit(f * p - 1, f) == f - 1 && Rest(f * p - 1, f) == p - 1
  {
    assert f * p - 1 == (p - 1) * f + (f - 1);
    Quotient(f * p - 1, f, p - 1, f - 1);
  }

  /** For every fanout and height there is a run of small leaves whose last append alone seals that many levels. */
  lemma OneAppendCanSealAll(c: Config, t: U32, d: nat)
    requires Small(c, t) && d <= c.depth
    ensures Pow(c.fanout, d) >= 1 && Unforced(Leaves(c, t, Pow(c.fanout, d) - 1))
    ensures var n := Pow(c.fanout, d) - 1;
            var s := Run(c, Leaves(c, t, n));
            var r := Cascade(c, Entered(s, t, n), s.maxLevel, 0, c.depth, false);
            Run(c, Leaves(c, t, n + 1)) == r.1 && r.0.Ok? && |r.0.value| == d
  {
    hide *;
    SmallMeans(c, t);
    NinesCarry(c.fanout, d, c.depth);
    LeavesAreCounted(c, t, Pow(c.fanout, d) - 1);
  }
}
