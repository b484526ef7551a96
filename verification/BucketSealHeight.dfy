/**
 * The recorded height of the tree: what a cascade writes to `max_level` when the caller's copy of the tree
 * is out of date, and what the value means when it is not.
 */
module BucketSealHeight {
  import opened Common
  import opened BucketSeal
  import opened BucketSealRuns

  lemma {:induction false} ChainMaxLevel(c: Config, treeMax: nat, level: nat, tr: seq<Store>, forced: bool)
    requires Chain(c, treeMax, level, tr, forced)
    ensures Last(tr).maxLevel == if |tr| >= 2 && level + |tr| - 1 > treeMax then level + |tr| - 1 else tr[0].maxLevel
    decreases |tr|
  {
    if |tr| >= 2 {
      ChainMaxLevel(c, treeMax, level + 1, tr[1..], false);
    }
  }

  /** One more item closes the gate of a buffer above level 0. */
  predicate FillsUp(c: Config, b: Buffer) {
    (|b.itemIds| + 1) % TWO32 >= c.fanout
  }

  /** How many levels a cascade seals once level `k - 1` has been sealed into `k`, read off the rows before it. */
  function Climb(c: Config, s: Store, k: nat, left: nat): nat
    decreases left
  {
    if left == 0 || !FillsUp(c, GetOrCreate(s, k)) then 0 else 1 + Climb(c, s, k + 1, left - 1)
  }

  /** How many levels a cascade from `level` seals: none unless it is wanted there and something can be hydrated. */
  function Rise(c: Config, s: Store, level: nat, forced: bool): nat {
    var b := GetOrCreate(s, level);
    if c.depth == 0 || (!forced && !ShouldSeal(c, b)) || Hydrate(s, level, b.itemIds) == [] then 0
    else 1 + Climb(c, s, level + 1, c.depth - 1)
  }

  /** `s'` has the items of `s`, but for one more at level `k`, from there on. */
  ghost predicate OneMoreAt(s: Store, s': Store, k: nat) {
    && |GetOrCreate(s', k).itemIds| == |GetOrCreate(s, k).itemIds| + 1
    && forall m: nat {:trigger GetOrCreate(s', m)} :: m > k ==>
         |GetOrCreate(s', m).itemIds| == |GetOrCreate(s, m).itemIds|
  }

  lemma SealAddsOne(c: Config, s: Store, s1: Store, treeMax: nat, k: nat, s2: Store)
    requires forall m: nat {:trigger GetOrCreate(s1, m)} :: m > k ==>
               |GetOrCreate(s1, m).itemIds| == |GetOrCreate(s, m).itemIds|
    requires Seal(c, s1, treeMax, k, s2)
    ensures OneMoreAt(s, s2, k + 1)
  {
    assert |GetOrCreate(s1, k + 1).itemIds| == |GetOrCreate(s, k + 1).itemIds|;
    forall m: nat | m > k + 1 ensures |GetOrCreate(s2, m).itemIds| == |GetOrCreate(s, m).itemIds| {
      assert GetOrCreate(s2, m) == GetOrCreate(s1, m);
    }
  }

  lemma GateOneMore(c: Config, s: Store, s1: Store, k: nat)
    requires RowsOk(s1) && k >= 1 && OneMoreAt(s, s1, k)
    ensures GetOrCreate(s1, k).itemIds != []
    ensures ShouldSeal(c, GetOrCreate(s1, k)) <==> FillsUp(c, GetOrCreate(s, k))
  {
    assert GetOrCreate(s1, k).level == k;
  }

  lemma ChainTurn(c: Config, s: Store, treeMax: nat, k: nat, tr: seq<Store>)
    requires Chain(c, treeMax, k, tr, false) && |tr| >= 2 && Inv(tr[0]) && k >= 1 && OneMoreAt(s, tr[0], k)
    ensures FillsUp(c, GetOrCreate(s, k)) && Chain(c, treeMax, k + 1, tr[1..], false)
    ensures Inv(tr[1]) && OneMoreAt(s, tr[1], k + 1)
  {
    hide *;
    ChainHead(c, treeMax, k, tr, false);
    InvRows(tr[0]);
    GateOneMore(c, s, tr[0], k);
    SealKeepsInv(c, tr[0], treeMax, k, tr[1]);
    OneMoreNext(c, s, tr[0], treeMax, k, tr[1]);
  }

  /**
   * A chain that ends at the depth limit or at a closed gate has as many seals as can be read off the rows
   * before it.
   */
  lemma {:induction false} ChainClimbs(c: Config, s: Store, treeMax: nat, k: nat, tr: seq<Store>, left: nat)
    requires Chain(c, treeMax, k, tr, false) && Inv(tr[0]) && k >= 1 && OneMoreAt(s, tr[0], k)
    requires 1 <= |tr| <= left + 1 && (|tr| <= left ==> !ShouldSeal(c, GetOrCreate(Last(tr), k + |tr| - 1)))
    ensures |tr| - 1 == Climb(c, s, k, left)
    decreases |tr|
  {
    hide *;
    ClimbUnfolds(c, s, k, left);
    LastOfRest(tr);
    if |tr| >= 2 {
      ChainTurn(c, s, treeMax, k, tr);
      ChainClimbs(c, s, treeMax, k + 1, tr[1..], left - 1);
    } else {
      InvRows(tr[0]);
      GateOneMore(c, s, tr[0], k);
    }
  }

  lemma ClimbUnfolds(c: Config, s: Store, k: nat, left: nat)
    ensures Climb(c, s, k, left)
            == if left == 0 || !FillsUp(c, GetOrCreate(s, k)) then 0 else 1 + Climb(c, s, k + 1, left - 1)
  {
  }

  lemma LastOfRest(tr: seq<Store>)
    requires |tr| >= 1
    ensures Last(tr) == if |tr| >= 2 then Last(tr[1..]) else tr[0]
  {
  }

  lemma OneMoreNext(c: Config, s: Store, s1: Store, treeMax: nat, k: nat, s2: Store)
    requires OneMoreAt(s, s1, k) && Seal(c, s1, treeMax, k, s2)
    ensures OneMoreAt(s, s2, k + 1)
  {
    SealAddsOne(c, s, s1, treeMax, k, s2);
  }

  lemma ChainRises(c: Config, s: Store, treeMax: nat, level: nat, tr: seq<Store>, forced: bool)
    requires Chain(c, treeMax, level, tr, forced) && tr[0] == s && Inv(s) && |tr| >= 2
    requires |tr| <= c.depth + 1 && (|tr| <= c.depth ==> !ShouldSeal(c, GetOrCreate(Last(tr), level + |tr| - 1)))
    ensures |tr| - 1 == Rise(c, s, level, forced)
  {
    hide *;
    ChainHead(c, treeMax, level, tr, forced);
    SealKeepsInv(c, s, treeMax, level, tr[1]);
    SealAddsOne(c, s, s, treeMax, level, tr[1]);
    RiseUnfolds(c, s, level, forced);
    LastOfRest(tr);
    ChainClimbs(c, s, treeMax, level + 1, tr[1..], c.depth - 1);
  }

  lemma RiseUnfolds(c: Config, s: Store, level: nat, forced: bool)
    requires c.depth > 0 && (forced || ShouldSeal(c, GetOrCreate(s, level)))
             && Hydrate(s, level, GetOrCreate(s, level).itemIds) != []
    ensures Rise(c, s, level, forced) == 1 + Climb(c, s, level + 1, c.depth - 1)
  {
    hide ShouldSeal, Hydrate, Climb;
  }

  /**
   * In every reachable store the rise of a cascade can be read off the rows before the call: it is the
   * number of levels the cascade seals, and zero when it is refused.
   */
  lemma RiseIsSealed(c: Config, ops: seq<Op>, treeMax: nat, level: nat, forced: bool)
    ensures var s := Run(c, ops);
            var r := Cascade(c, s, treeMax, level, c.depth, forced);
            (if r.0.Ok? then |r.0.value| else 0) == Rise(c, s, level, forced)
  {
    var s := Run(c, ops);
    RunKeepsInv(c, ops);
    hide Run;
    var tr := CascadeRises(c, s, treeMax, level, forced);
  }

  /** The chain of a cascade from a consistent store, and that it has as many seals as the rise says. */
  lemma CascadeRises(c: Config, s: Store, treeMax: nat, level: nat, forced: bool) returns (tr: seq<Store>)
    requires Inv(s)
    ensures var r := Cascade(c, s, treeMax, level, c.depth, forced);
            && Chain(c, treeMax, level, tr, forced) && tr[0] == s && Last(tr) == r.1
            && |tr| - 1 == Rise(c, s, level, forced)
            && (if r.0.Ok? then |r.0.value| == |tr| - 1 else |tr| == 1)
  {
    InvRows(s);
    hide Inv, Cascade, Hydrate, ShouldSeal;
    tr := CascadeChain(c, s, treeMax, level, c.depth, forced);
    ChainKeeps(c, treeMax, level, tr, forced);
    hide Chain;
    var last, k := Last(tr), level + |tr| - 1;
    if |tr| >= 2 {
      if GetOrCreate(last, k).itemIds != [] {
        SummariesAlwaysHydrate(last, k);
      } else {
        EmptyIsClosed(c, GetOrCreate(last, k));
      }
      ChainRises(c, s, treeMax, level, tr, forced);
    } else if GetOrCreate(s, level).itemIds == [] {
      EmptyHydratesNothing(s, level);
    }
  }

  lemma EmptyHydratesNothing(s: Store, level: nat)
    ensures Hydrate(s, level, []) == []
  {
  }

  /**
   * A cascade writes `max_level` from the caller's copy of the tree. Whether the stored value is lowered
   * is decided by the rows before the call: it is not if and only if nothing will be sealed, the copy
   * already reaches the new top, or the stored value does not exceed it.
   */
  lemma MaxLevelNotLowered(c: Config, ops: seq<Op>, treeMax: nat, level: nat, forced: bool)
    ensures var s := Run(c, ops);
            var s' := Cascade(c, s, treeMax, level, c.depth, forced).1;
            var rise := Rise(c, s, level, forced);
            && s'.maxLevel == (if rise > 0 && level + rise > treeMax then level + rise else s.maxLevel)
            && (s'.maxLevel >= s.maxLevel <==> rise == 0 || level + rise <= treeMax || s.maxLevel <= level + rise)
            && (treeMax >= s.maxLevel ==> s'.maxLevel >= s.maxLevel)
  {
    var s := Run(c, ops);
    RunKeepsInv(c, ops);
    hide Run, Inv, Cascade;
    var tr := CascadeRises(c, s, treeMax, level, forced);
    ChainMaxLevel(c, treeMax, level, tr, forced);
  }

  /** The rows after `ops` and one forced seal of level `k` whose parent stays below its gate. */
  lemma AfterForced(c: Config, ops: seq<Op>, treeMax: nat, k: nat)
    requires c.depth >= 1 && Hydrate(Run(c, ops), k, GetOrCreate(Run(c, ops), k).itemIds) != []
    requires !FillsUp(c, GetOrCreate(Run(c, ops), k + 1))
    ensures var s, s' := Run(c, ops), Run(c, ops + [Flush(k, true, treeMax)]);
            && s'.maxLevel == (if k + 1 > treeMax then k + 1 else s.maxLevel)
            && GetOrCreate(s', k) == Buffer(k, [], 0, None)
            && |GetOrCreate(s', k + 1).itemIds| == |GetOrCreate(s, k + 1).itemIds| + 1
            && forall m: nat {:trigger GetOrCreate(s', m)} :: m != k && m != k + 1 ==>
                 GetOrCreate(s', m) == GetOrCreate(s, m)
  {
    var s, more := Run(c, ops), ops + [Flush(k, true, treeMax)];
    assert more[..|more| - 1] == ops;
    assert Run(c, more) == Cascade(c, s, treeMax, k, c.depth, true).1;
    RunKeepsInv(c, ops);
    hide Run, Inv, Cascade, Hydrate;
    var tr := CascadeRises(c, s, treeMax, k, true);
    assert Rise(c, s, k, true) == 1;
    assert Seal(c, s, treeMax, k, tr[1]);
  }

  lemma RunSnoc(c: Config, ops: seq<Op>, op: Op)
    ensures Run(c, ops + [op]) == Step(c, Run(c, ops), op)
  {
    assert (ops + [op])[..|ops|] == ops;
  }

  /** A small leaf stored and appended to an empty level 0 waits there. */
  lemma LeafWaits(c: Config, ops: seq<Op>, name: string, treeMax: nat)
    requires c.budget > 1 && c.fanout > 1 && GetOrCreate(Run(c, ops), 0) == Buffer(0, [], 0, None)
    ensures var s, s' := Run(c, ops),
            Run(c, ops + [StoreChunk(ChunkId(name), Chunk(name, 1, 0, 0))]
                + [Append(Leaf(ChunkId(name), 1, 0), treeMax)]);
            && s'.maxLevel == s.maxLevel && Hydrate(s', 0, GetOrCreate(s', 0).itemIds) != []
            && GetOrCreate(s', 1) == GetOrCreate(s, 1) && GetOrCreate(s', 2) == GetOrCreate(s, 2)
  {
    var id, store := ChunkId(name), StoreChunk(ChunkId(name), Chunk(name, 1, 0, 0));
    RunSnoc(c, ops, store);
    RunSnoc(c, ops + [store], Append(Leaf(id, 1, 0), treeMax));
    hide Run, Hydrate, SealOne;
    var s := Run(c, ops + [store]);
    LeafAlone(c, s, id, treeMax);
    Hydrates(s.chunks, id);
  }

  lemma Hydrates(chunks: map<Id, Chunk>, id: Id)
    requires id in chunks
    ensures HydrateLeaves(chunks, [id]) != []
  {
  }

  lemma LeafAlone(c: Config, s: Store, id: Id, treeMax: nat)
    requires c.budget > 1 && c.fanout > 1 && GetOrCreate(s, 0) == Buffer(0, [], 0, None)
    ensures var s' := Cascade(c, Appended(s, Leaf(id, 1, 0)), treeMax, 0, c.depth, false).1;
            s' == s.(buffers := s.buffers[0 := Buffer(0, [id], 1, Some(0))])
  {
    hide SealOne;
    ConcatNothing([id]);
    assert Appended(s, Leaf(id, 1, 0)) == s.(buffers := s.buffers[0 := Buffer(0, [id], 1, Some(0))]);
    assert !ShouldSeal(c, Buffer(0, [id], 1, Some(0)));
  }

  /** One leaf sealed twice makes the tree two levels high. */
  function TwoHigh(): seq<Op> {
    [StoreChunk(ChunkId("a"), Chunk("a", 1, 0, 0))] + [Append(Leaf(ChunkId("a"), 1, 0), 0)] + [Flush(0, true, 0)]
      + [Flush(1, true, 1)]
  }

  /** A second leaf waits in it. */
  function SecondLeaf(): seq<Op> {
    TwoHigh() + [StoreChunk(ChunkId("b"), Chunk("b", 1, 0, 0))] + [Append(Leaf(ChunkId("b"), 1, 0), 2)]
  }

  lemma TwoHighState(c: Config)
    requires c.budget > 1 && c.fanout > 1 && c.depth > 0
    ensures var s := Run(c, TwoHigh());
            s.maxLevel == 2 && GetOrCreate(s, 0) == Buffer(0, [], 0, None)
              && GetOrCreate(s, 1) == Buffer(1, [], 0, None)
  {
    hide Run, Hydrate, FillsUp;
    var one: seq<Op> := [] + [StoreChunk(ChunkId("a"), Chunk("a", 1, 0, 0))] + [Append(Leaf(ChunkId("a"), 1, 0), 0)];
    var two := one + [Flush(0, true, 0)];
    assert TwoHigh() == two + [Flush(1, true, 1)];
    EmptyRows(c);
    LeafWaits(c, [], "a", 0);
    EmptyBelow(c, GetOrCreate(Run(c, one), 1));
    AfterForced(c, one, 0, 0);
    RunKeepsInv(c, two);
    SummariesAlwaysHydrate(Run(c, two), 1);
    EmptyBelow(c, GetOrCreate(Run(c, two), 2));
    AfterForced(c, two, 1, 1);
  }

  lemma EmptyRows(c: Config)
    ensures Run(c, []) == EMPTY && forall k :: GetOrCreate(EMPTY, k) == Buffer(k, [], 0, None)
  {
  }

  lemma EmptyBelow(c: Config, b: Buffer)
    requires b.itemIds == [] && c.fanout > 1
    ensures !FillsUp(c, b)
  {
  }

  /** A caller whose copy of the tree is as old as the tree lowers the stored height from 2 to 1. */
  lemma StaleTreeLowersMaxLevel(c: Config)
    requires c.budget > 1 && c.fanout > 1 && c.depth > 0
    ensures Run(c, SecondLeaf()).maxLevel == 2 && Run(c, SecondLeaf() + [Flush(0, true, 0)]).maxLevel == 1
  {
    hide Run, TwoHigh, Hydrate, FillsUp;
    TwoHighState(c);
    LeafWaits(c, TwoHigh(), "b", 2);
    EmptyBelow(c, GetOrCreate(Run(c, SecondLeaf()), 1));
    AfterForced(c, SecondLeaf(), 0, 0);
  }

  ghost predicate MaxLevelOk(s: Store) {
    && (forall id :: id in s.summaries ==> s.summaries[id].level <= s.maxLevel)
    && (s.maxLevel == 0 || exists id :: id in s.summaries && s.summaries[id].level == s.maxLevel)
  }

  /** Every caller passes a tree value it has just read. */
  ghost predicate FreshTrees(c: Config, ops: seq<Op>) {
    ops != [] ==>
      var before, op := ops[..|ops| - 1], ops[|ops| - 1];
      FreshTrees(c, before) && (op.Append? || op.Flush? ==> op.treeMax == Run(c, before).maxLevel)
  }

  lemma SealMaxLevel(c: Config, s: Store, treeMax: nat, k: nat, s': Store)
    requires Seal(c, s, treeMax, k, s') && MaxLevelOk(s) && SummaryId(k + 1, s.serial) !in s.summaries
    requires s.maxLevel == if k > treeMax then k else treeMax
    ensures MaxLevelOk(s') && s'.maxLevel == if k + 1 > treeMax then k + 1 else treeMax
  {
    var id := SummaryId(k + 1, s.serial);
    assert s'.summaries[id].level == k + 1;
    if k + 1 <= treeMax && s.maxLevel != 0 {
      var top :| top in s.summaries && s.summaries[top].level == s.maxLevel;
      assert top in s'.summaries && s'.summaries[top].level == s'.maxLevel;
    }
  }

  lemma {:induction false} ChainMaxLevelOk(c: Config, treeMax: nat, level: nat, tr: seq<Store>, forced: bool)
    requires Chain(c, treeMax, level, tr, forced) && Inv(tr[0]) && MaxLevelOk(tr[0])
    requires tr[0].maxLevel == if level > treeMax then level else treeMax
    ensures MaxLevelOk(Last(tr))
    decreases |tr|
  {
    hide Inv, Seal, MaxLevelOk, ShouldSeal;
    if |tr| >= 2 {
      FreshId(tr[0], level + 1);
      SealMaxLevel(c, tr[0], treeMax, level, tr[1]);
      SealKeepsInv(c, tr[0], treeMax, level, tr[1]);
      ChainMaxLevelOk(c, treeMax, level + 1, tr[1..], false);
    }
  }

  lemma CascadeMaxLevel(c: Config, s: Store, level: nat, forced: bool)
    requires Inv(s) && MaxLevelOk(s)
    ensures MaxLevelOk(Cascade(c, s, s.maxLevel, level, c.depth, forced).1)
  {
    hide Cascade, ShouldSeal;
    InvRows(s);
    var tr := CascadeChain(c, s, s.maxLevel, level, c.depth, forced);
    if |tr| >= 2 {
      var ids := GetOrCreate(s, level).itemIds;
      assert ids != [];
      assert level >= 1 ==> ids[0] in s.summaries && s.summaries[ids[0]].level == level by {
        assert BufferOk(s.summaries, level, GetOrCreate(s, level));
      }
      ChainMaxLevelOk(c, s.maxLevel, level, tr, forced);
    }
  }

  /** With tree values read just before each call, `max_level` is the level of the highest summary. */
  lemma {:induction false} MaxLevelIsHighestSummary(c: Config, ops: seq<Op>)
    requires FreshTrees(c, ops)
    ensures MaxLevelOk(Run(c, ops))
  {
    hide Inv, Cascade;
    if ops != [] {
      var before, op := ops[..|ops| - 1], ops[|ops| - 1];
      var s := Run(c, before);
      MaxLevelIsHighestSummary(c, before);
      RunKeepsInv(c, before);
      match op
      case Append(leaf, treeMax) =>
        AppendKeepsInv(s, leaf);
        CascadeMaxLevel(c, Appended(s, leaf), 0, false);
      case Flush(level, force, treeMax) =>
        CascadeMaxLevel(c, s, level, force);
      case _ =>
    }
  }
}
