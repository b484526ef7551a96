/**
 * Runs without forced seals: how much a summary covers, how many children it has, how many seals a run
 * can perform, and that no buffer is left over its gate.
 */
module BucketSealShape {
  import opened Common
  import opened BucketSeal
  import opened BucketSealRuns

  ghost predicate Unforced(ops: seq<Op>) {
    forall i :: 0 <= i < |ops| && ops[i].Flush? ==> !ops[i].force
  }

  function Pow(b: nat, e: nat): nat {
    if e == 0 then 1 else b * Pow(b, e - 1)
  }

  lemma {:induction false} PowGrows(b: nat, e: nat, f: nat)
    requires b >= 1 && e <= f
    ensures 1 <= Pow(b, e) <= Pow(b, f)
    decreases f
  {
    if f > 0 {
      PowGrows(b, if e < f then e else e - 1, f - 1);
      if e == f {
        PowGrows(b, 0, f - 1);
      }
      assert b * Pow(b, f - 1) >= Pow(b, f - 1);
    }
  }

  // ---------------------------------------------------------------------------------------------
  // Coverage
  // ---------------------------------------------------------------------------------------------

  ghost predicate WideNode(c: Config, sums: map<Id, SummaryNode>, id: Id) {
    id in sums && (sums[id].level >= 2 ==> |sums[id].childIds| >= c.fanout)
  }

  ghost predicate Wide(c: Config, sums: map<Id, SummaryNode>) {
    forall id {:trigger WideNode(c, sums, id)} :: id in sums ==> WideNode(c, sums, id)
  }

  lemma {:induction false} FlatWide(c: Config, sums: map<Id, SummaryNode>, serial: nat, level: nat, id: Id)
    requires NodesOk(sums, serial) && Wide(c, sums) && level >= 1 && id in sums && sums[id].level == level
    ensures |Flat(sums, level, id)| >= Pow(c.fanout, level - 1)
    decreases level, 0, 0
  {
    assert NodeOk(sums, serial, id) && WideNode(c, sums, id);
    FlatAllWide(c, sums, serial, level - 1, sums[id].childIds);
    if level >= 2 {
      Widen(|sums[id].childIds|, c.fanout, Pow(c.fanout, level - 2));
    }
  }

  lemma Widen(a: nat, b: nat, p: nat)
    requires a >= b
    ensures a * p >= b * p
  {
  }

  lemma {:induction false} FlatAllWide(c: Config, sums: map<Id, SummaryNode>, serial: nat, level: nat, ids: seq<Id>)
    requires NodesOk(sums, serial) && Wide(c, sums) && ItemsOk(sums, level, ids)
    ensures level == 0 ==> |FlatAll(sums, level, ids)| == |ids|
    ensures level >= 1 ==> |FlatAll(sums, level, ids)| >= |ids| * Pow(c.fanout, level - 1)
    decreases level, 1, |ids|
  {
    if ids != [] {
      FlatAllWide(c, sums, serial, level, ids[1..]);
      if level >= 1 {
        FlatWide(c, sums, serial, level, ids[0]);
        var p := Pow(c.fanout, level - 1);
        assert |ids| * p == p + |ids[1..]| * p;
      }
    }
  }

  lemma GateFanout(c: Config, b: Buffer)
    requires ShouldSeal(c, b) && b.level >= 1
    ensures |b.itemIds| >= c.fanout
  {
    assert |b.itemIds| == |b.itemIds| / TWO32 * TWO32 + |b.itemIds| % TWO32;
  }

  lemma SealWide(c: Config, s: Store, treeMax: nat, k: nat, s': Store)
    requires Inv(s) && Wide(c, s.summaries) && Seal(c, s, treeMax, k, s') && ShouldSeal(c, GetOrCreate(s, k))
    ensures Wide(c, s'.summaries)
  {
    forall id | id in s'.summaries ensures WideNode(c, s'.summaries, id) {
      if id == SummaryId(k + 1, s.serial) {
        if k >= 1 {
          GateFanout(c, GetOrCreate(s, k));
        }
      } else {
        assert WideNode(c, s.summaries, id);
      }
    }
  }

  lemma {:induction false} ChainWide(c: Config, treeMax: nat, level: nat, tr: seq<Store>)
    requires Chain(c, treeMax, level, tr, false) && Inv(tr[0]) && Wide(c, tr[0].summaries)
    ensures Wide(c, Last(tr).summaries)
    decreases |tr|
  {
    hide Inv, Seal, SealOne, ShouldSeal, Wide, Exact, NarrowBut;
    if |tr| >= 2 {
      SealKeepsInv(c, tr[0], treeMax, level, tr[1]);
      SealWide(c, tr[0], treeMax, level, tr[1]);
      ChainWide(c, treeMax, level + 1, tr[1..]);
    }
  }

  lemma {:induction false} RunWide(c: Config, ops: seq<Op>)
    requires Unforced(ops)
    ensures Wide(c, Run(c, ops).summaries)
  {
    if ops != [] {
      var before, op := ops[..|ops| - 1], ops[|ops| - 1];
      var s := Run(c, before);
      RunWide(c, before);
      RunKeepsInv(c, before);
      if op.Append? || op.Flush? {
        var s0 := if op.Append? then Appended(s, op.leaf) else s;
        var level := if op.Append? then 0 else op.level;
        if op.Append? {
          AppendKeepsInv(s, op.leaf);
        }
        var tr := CascadeChain(c, s0, op.treeMax, level, c.depth, false);
        ChainWide(c, op.treeMax, level, tr);
      }
    }
  }

  /** Every summary of level `k` covers at least `F^(k-1)` leaves in a run without forced seals. */
  lemma SummaryCoverage(c: Config, ops: seq<Op>, id: Id)
    requires Unforced(ops) && id in Run(c, ops).summaries
    ensures var sums := Run(c, ops).summaries;
            && sums[id].level >= 1
            && |Flat(sums, sums[id].level, id)| >= Pow(c.fanout, sums[id].level - 1)
  {
    RunWide(c, ops);
    RunKeepsInv(c, ops);
    var s := Run(c, ops);
    assert NodeOk(s.summaries, s.serial, id);
    FlatWide(c, s.summaries, s.serial, s.summaries[id].level, id);
  }

  lemma {:induction false} LevelWithin(s: Store, k: nat, n: nat)
    requires k < n
    ensures |FlatLevel(s, k)| <= |FlatBelow(s, n)|
  {
    if k < n - 1 {
      LevelWithin(s, k, n - 1);
    }
  }

  /** The tree is no higher than the logarithm of the leaves: `m` items at level `k` need `m F^(k-1)` of them. */
  lemma HeightIsLogarithmic(c: Config, ops: seq<Op>, k: nat)
    requires Unforced(ops) && k >= 1
    ensures |GetOrCreate(Run(c, ops), k).itemIds| * Pow(c.fanout, k - 1) <= |Log(c, ops)|
  {
    hide Run, Log, Wide, NodesOk, Unforced;
    var s := Run(c, ops);
    RunWide(c, ops);
    RunKeepsInv(c, ops);
    var n := LevelBound(s);
    LeavesAreConserved(c, ops, n);
    var ids := GetOrCreate(s, k).itemIds;
    if k in s.buffers {
      LevelWithin(s, k, n);
      assert BufferOk(s.summaries, k, s.buffers[k]);
      FlatAllWide(c, s.summaries, s.serial, k, ids);
    } else {
      assert ids == [];
    }
  }

  // ---------------------------------------------------------------------------------------------
  // Cost
  // ---------------------------------------------------------------------------------------------

  /** Waiting items, a leaf counting `F` and a summary one. */
  ghost function Potential(c: Config, s: Store, n: nat): nat {
    if n == 0 then 0
    else Potential(c, s, n - 1) + |GetOrCreate(s, n - 1).itemIds| * (if n == 1 then c.fanout else 1)
  }

  lemma {:induction false} PotentialSame(c: Config, s: Store, s': Store, n: nat)
    requires forall m :: 0 <= m < n ==> GetOrCreate(s', m).itemIds == GetOrCreate(s, m).itemIds
    ensures Potential(c, s', n) == Potential(c, s, n)
  {
    if n > 0 {
      PotentialSame(c, s, s', n - 1);
    }
  }

  ghost predicate ItemsMove(s: Store, s': Store, k: nat) {
    && GetOrCreate(s', k).itemIds == []
    && |GetOrCreate(s', k + 1).itemIds| == |GetOrCreate(s, k + 1).itemIds| + 1
    && forall m: nat :: m != k && m != k + 1 ==> GetOrCreate(s', m).itemIds == GetOrCreate(s, m).itemIds
  }

  lemma {:induction false} PotentialMoves(c: Config, s: Store, s': Store, k: nat, n: nat)
    requires ItemsMove(s, s', k) && n >= k + 2
    ensures Potential(c, s', n) + |GetOrCreate(s, k).itemIds| * (if k == 0 then c.fanout else 1)
            == Potential(c, s, n) + 1
  {
    if n > k + 2 {
      PotentialMoves(c, s, s', k, n - 1);
    } else {
      PotentialSame(c, s, s', k);
      assert Potential(c, s', k + 1) == Potential(c, s, k);
    }
  }

  lemma SealMovesItems(c: Config, s: Store, treeMax: nat, k: nat, s': Store)
    requires Inv(s) && Seal(c, s, treeMax, k, s') && ShouldSeal(c, GetOrCreate(s, k))
    ensures ItemsMove(s, s', k) && k + 1 in s'.buffers && |s'.summaries| == |s.summaries| + 1
    ensures |GetOrCreate(s, k).itemIds| >= if k == 0 then 1 else c.fanout
  {
    FreshId(s, k + 1);
    assert GetOrCreate(s, k).level == k;
    if k >= 1 {
      GateFanout(c, GetOrCreate(s, k));
    }
  }

  lemma SealCost(c: Config, s: Store, treeMax: nat, k: nat, s': Store, n: nat)
    requires Inv(s) && Seal(c, s, treeMax, k, s') && ShouldSeal(c, GetOrCreate(s, k)) && LevelsBelow(s', n)
             && c.fanout >= 1
    ensures Potential(c, s', n) + (c.fanout - 1) * |s'.summaries| <= Potential(c, s, n) + (c.fanout - 1) * |s.summaries|
  {
    hide Inv, Seal, ShouldSeal;
    SealMovesItems(c, s, treeMax, k, s');
    PotentialMoves(c, s, s', k, n);
    if k == 0 {
      Widen(|GetOrCreate(s, 0).itemIds|, 1, c.fanout);
    }
    OneMore(c.fanout - 1, |s.summaries|, |s'.summaries|);
  }

  lemma OneMore(f: nat, a: nat, b: nat)
    requires b == a + 1
    ensures f * b == f * a + f
  {
  }

  lemma Distribute(f: nat, a: nat, b: nat, ab: nat)
    requires ab == a + b
    ensures f * ab == f * a + f * b
  {
  }

  lemma {:induction false} ChainCost(c: Config, treeMax: nat, level: nat, tr: seq<Store>, n: nat)
    requires Chain(c, treeMax, level, tr, false) && Inv(tr[0])
    requires LevelsBelow(Last(tr), n) && c.fanout >= 1
    ensures var s, s' := tr[0], Last(tr);
            Potential(c, s', n) + (c.fanout - 1) * |s'.summaries| <= Potential(c, s, n) + (c.fanout - 1) * |s.summaries|
    decreases |tr|
  {
    hide Inv, Seal, SealOne, ShouldSeal;
    if |tr| >= 2 {
      SealKeepsInv(c, tr[0], treeMax, level, tr[1]);
      ChainKeeps(c, treeMax, level + 1, tr[1..], false);
      ChainCost(c, treeMax, level + 1, tr[1..], n);
      SealCost(c, tr[0], treeMax, level, tr[1], n);
    }
  }

  lemma {:induction false} PotentialAppend(c: Config, s: Store, leaf: Leaf, n: nat)
    requires n >= 1
    ensures Potential(c, Appended(s, leaf), n) == Potential(c, s, n) + c.fanout * |Accepts(s, Defer(leaf))|
  {
    var s' := Appended(s, leaf);
    if n == 1 {
      var items, items' := GetOrCreate(s, 0).itemIds, GetOrCreate(s', 0).itemIds;
      assert Potential(c, s, 0) == 0 && Potential(c, s', 0) == 0;
      assert |items'| * c.fanout == |items| * c.fanout + c.fanout * |Accepts(s, Defer(leaf))| by {
        if leaf.id !in items {
          assert |items'| == |items| + 1;
        }
      }
    } else {
      PotentialAppend(c, s, leaf, n - 1);
      assert GetOrCreate(s', n - 1) == GetOrCreate(s, n - 1);
    }
  }

  lemma StepCost(c: Config, s: Store, op: Op, n: nat)
    requires Inv(s) && (op.Flush? ==> !op.force) && LevelsBelow(Step(c, s, op), n) && n >= 1 && c.fanout >= 1
    ensures var s' := Step(c, s, op);
            Potential(c, s', n) + (c.fanout - 1) * |s'.summaries|
            <= Potential(c, s, n) + (c.fanout - 1) * |s.summaries| + c.fanout * |Accepts(s, op)|
  {
    if op.Append? || op.Defer? {
      PotentialAppend(c, s, op.leaf, n);
      AppendKeepsInv(s, op.leaf);
    } else if !op.Flush? {
      PotentialSame(c, s, Step(c, s, op), n);
    }
    if op.Append? || op.Flush? {
      var s0 := if op.Append? then Appended(s, op.leaf) else s;
      var level := if op.Append? then 0 else op.level;
      var tr := CascadeChain(c, s0, op.treeMax, level, c.depth, false);
      ChainCost(c, op.treeMax, level, tr, n);
    }
  }

  /**
   * Amortised cost: over any run without forced seals the number `S` of seals, which is the number of
   * summaries, satisfies `(F-1) S + waiting <= F n` for `n` accepted leaves.
   */
  lemma {:induction false} SealsAreAmortised(c: Config, ops: seq<Op>, n: nat)
    requires Unforced(ops) && LevelsBelow(Run(c, ops), n) && n >= 1 && c.fanout >= 1
    ensures (c.fanout - 1) * |Run(c, ops).summaries| + Potential(c, Run(c, ops), n) <= c.fanout * |Log(c, ops)|
  {
    hide Inv, Step, Accepts, Potential;
    if ops == [] {
      PotentialEmpty(c, n);
    } else {
      var before, op := ops[..|ops| - 1], ops[|ops| - 1];
      var s := Run(c, before);
      RunKeepsInv(c, before);
      StepKeeps(c, s, op, n);
      SealsAreAmortised(c, before, n);
      StepCost(c, s, op, n);
      Distribute(c.fanout, |Log(c, before)|, |Accepts(s, op)|, |Log(c, ops)|);
    }
  }

  lemma {:induction false} PotentialEmpty(c: Config, n: nat)
    ensures Potential(c, EMPTY, n) == 0
  {
    if n > 0 {
      PotentialEmpty(c, n - 1);
    }
  }

  // ---------------------------------------------------------------------------------------------
  // Exact fanout and closed gates
  // ---------------------------------------------------------------------------------------------

  ghost predicate ExactNode(c: Config, sums: map<Id, SummaryNode>, id: Id) {
    id in sums && (sums[id].level >= 2 ==> |sums[id].childIds| == c.fanout)
  }

  ghost predicate Exact(c: Config, sums: map<Id, SummaryNode>) {
    forall id {:trigger ExactNode(c, sums, id)} :: id in sums ==> ExactNode(c, sums, id)
  }

  ghost predicate Below(c: Config, s: Store, k: nat) {
    k >= 1 ==> |GetOrCreate(s, k).itemIds| < c.fanout
  }

  /** Every buffer above level 0 holds fewer than `F` items, except that level `at` may hold `F`. */
  ghost predicate NarrowBut(c: Config, s: Store, at: nat) {
    && (at >= 1 ==> |GetOrCreate(s, at).itemIds| <= c.fanout)
    && forall k: nat {:trigger Below(c, s, k)} :: k != at ==> Below(c, s, k)
  }

  ghost predicate Narrow(c: Config, s: Store) {
    forall k: nat {:trigger Below(c, s, k)} :: Below(c, s, k)
  }

  lemma SealExact(c: Config, s: Store, treeMax: nat, k: nat, s': Store)
    requires Inv(s) && Exact(c, s.summaries) && NarrowBut(c, s, k)
    requires Seal(c, s, treeMax, k, s') && ShouldSeal(c, GetOrCreate(s, k)) && c.fanout >= 2
    ensures Exact(c, s'.summaries) && NarrowBut(c, s', k + 1)
  {
    if k >= 1 {
      assert GetOrCreate(s, k).level == k;
      GateFanout(c, GetOrCreate(s, k));
    }
    forall id | id in s'.summaries ensures ExactNode(c, s'.summaries, id) {
      if id != SummaryId(k + 1, s.serial) {
        assert ExactNode(c, s.summaries, id);
      }
    }
    assert Below(c, s, k + 1);
    forall m: nat | m != k + 1 ensures Below(c, s', m) {
      if m != k {
        assert Below(c, s, m);
        assert GetOrCreate(s', m) == GetOrCreate(s, m);
      }
    }
  }

  lemma {:induction false} ChainExact(c: Config, treeMax: nat, level: nat, tr: seq<Store>)
    requires Chain(c, treeMax, level, tr, false) && Inv(tr[0])
    requires Exact(c, tr[0].summaries) && NarrowBut(c, tr[0], level) && c.fanout >= 2
    ensures Exact(c, Last(tr).summaries) && NarrowBut(c, Last(tr), level + |tr| - 1)
    decreases |tr|
  {
    hide Inv, Seal, SealOne, ShouldSeal, Wide, Exact, NarrowBut;
    if |tr| >= 2 {
      SealKeepsInv(c, tr[0], treeMax, level, tr[1]);
      SealExact(c, tr[0], treeMax, level, tr[1]);
      ChainExact(c, treeMax, level + 1, tr[1..]);
    }
  }

  /** A cascade that is not stopped by the depth limit leaves no full buffer above level 0. */
  lemma CascadeExact(c: Config, s: Store, treeMax: nat, level: nat)
    requires Inv(s) && Exact(c, s.summaries) && Narrow(c, s) && c.fanout >= 2 && c.depth >= 1
    ensures var r := Cascade(c, s, treeMax, level, c.depth, false);
            Exact(c, r.1.summaries) && (NarrowBut(c, r.1, level + c.depth) || Narrow(c, r.1))
    ensures var r := Cascade(c, s, treeMax, level, c.depth, false);
            r.0.Ok? && level == 0 ==> !ShouldSeal(c, GetOrCreate(r.1, 0))
  {
    hide Inv, Cascade, Exact, NarrowBut, Narrow, Chain, Hydrate, ShouldSeal, Seal, RowsOk, Below, GetOrCreate;
    InvRows(s);
    NarrowAnywhere(c, s, level);
    var r := Cascade(c, s, treeMax, level, c.depth, false);
    var tr := CascadeChain(c, s, treeMax, level, c.depth, false);
    ChainExact(c, treeMax, level, tr);
    ChainKeeps(c, treeMax, level, tr, false);
    ChainLevel0(c, treeMax, level, tr, false);
    if GetOrCreate(r.1, 0).itemIds == [] {
      EmptyIsClosed(c, GetOrCreate(r.1, 0));
    }
    var k := level + |tr| - 1;
    if GetOrCreate(r.1, k).itemIds == [] {
      EmptyIsClosed(c, GetOrCreate(r.1, k));
    }
    if |tr| <= c.depth {
      StoppedNarrow(c, r.1, k, r.0);
    }
  }

  lemma NarrowAnywhere(c: Config, s: Store, at: nat)
    requires Narrow(c, s)
    ensures NarrowBut(c, s, at)
  {
    assert Below(c, s, at);
  }

  /** Where a cascade stops short of the depth limit the buffer is below its gate. */
  lemma StoppedNarrow(c: Config, s: Store, k: nat, r: Result<seq<Id>, Error>)
    requires Inv(s) && NarrowBut(c, s, k) && c.fanout >= 2
    requires r.Err? ==> GetOrCreate(s, k).itemIds != [] && Hydrate(s, k, GetOrCreate(s, k).itemIds) == []
    requires r.Ok? ==> !ShouldSeal(c, GetOrCreate(s, k))
    ensures Narrow(c, s)
  {
    hide Inv, Hydrate;
    InvRows(s);
    var b := GetOrCreate(s, k);
    assert b.level == k;
    if k >= 1 {
      if b.itemIds != [] {
        SummariesAlwaysHydrate(s, k);
      }
      assert |b.itemIds| % TWO32 == |b.itemIds|;
    }
    assert Below(c, s, k);
  }

  lemma StepExact(c: Config, s: Store, op: Op)
    requires Inv(s) && Exact(c, s.summaries) && Narrow(c, s) && c.fanout >= 2 && c.depth >= 1
    requires op.Flush? ==> !op.force
    requires forall k: nat :: k >= c.depth ==> Below(c, Step(c, s, op), k)
    ensures Exact(c, Step(c, s, op).summaries) && Narrow(c, Step(c, s, op))
  {
    var s' := Step(c, s, op);
    if op.Append? || op.Flush? {
      var s0 := if op.Append? then Appended(s, op.leaf) else s;
      if op.Append? {
        AppendKeepsInv(s, op.leaf);
        AppendNarrow(c, s, op.leaf);
      }
      var level := if op.Append? then 0 else op.level;
      CascadeExact(c, s0, op.treeMax, level);
      assert Below(c, s', level + c.depth);
    } else if op.Defer? {
      AppendNarrow(c, s, op.leaf);
    } else {
      forall k: nat ensures Below(c, s', k) {
        assert Below(c, s, k);
      }
    }
  }

  lemma AppendNarrow(c: Config, s: Store, leaf: Leaf)
    requires Narrow(c, s)
    ensures Narrow(c, Appended(s, leaf))
  {
    forall k: nat ensures Below(c, Appended(s, leaf), k) {
      assert Below(c, s, k);
    }
  }

  lemma DepthNeverBites(c: Config, ops: seq<Op>, k: nat)
    requires Unforced(ops) && |Log(c, ops)| < Pow(c.fanout, c.depth) && k >= c.depth >= 1 && c.fanout >= 2
    ensures Below(c, Run(c, ops), k)
  {
    HeightIsLogarithmic(c, ops, k);
    var m := |GetOrCreate(Run(c, ops), k).itemIds|;
    if m >= c.fanout {
      Widen(m, c.fanout, Pow(c.fanout, k - 1));
      assert Pow(c.fanout, k) == c.fanout * Pow(c.fanout, k - 1);
      PowGrows(c.fanout, c.depth, k);
    }
  }

  /**
   * While fewer than `F^D` leaves were accepted by a run without forced seals, every summary above
   * level 1 has exactly `F` children, no buffer above level 0 passes its gate, and after an append
   * that succeeds the level-0 buffer does not either.
   */
  lemma {:induction false} NoBufferLeftFull(c: Config, ops: seq<Op>)
    requires Unforced(ops) && |Log(c, ops)| < Pow(c.fanout, c.depth) && c.depth >= 1 && c.fanout >= 2
    ensures Exact(c, Run(c, ops).summaries) && Narrow(c, Run(c, ops))
    ensures forall k: nat :: k >= 1 ==> !ShouldSeal(c, GetOrCreate(Run(c, ops), k))
    ensures ops != [] && ops[|ops| - 1].Append? ==>
              var op := ops[|ops| - 1];
              var r := Cascade(c, Appended(Run(c, ops[..|ops| - 1]), op.leaf), op.treeMax, 0, c.depth, false);
              r.0.Ok? ==> !ShouldSeal(c, GetOrCreate(Run(c, ops), 0))
  {
    if ops != [] {
      var before, op := ops[..|ops| - 1], ops[|ops| - 1];
      var s := Run(c, before);
      NoBufferLeftFull(c, before);
      RunKeepsInv(c, before);
      forall k: nat | k >= c.depth ensures Below(c, Step(c, s, op), k) {
        DepthNeverBites(c, ops, k);
      }
      StepExact(c, s, op);
      if op.Append? {
        AppendKeepsInv(s, op.leaf);
        AppendNarrow(c, s, op.leaf);
        CascadeExact(c, Appended(s, op.leaf), op.treeMax, 0);
      }
    }
    RunKeepsInv(c, ops);
    forall k: nat | k >= 1 ensures !ShouldSeal(c, GetOrCreate(Run(c, ops), k)) {
      assert Below(c, Run(c, ops), k);
      assert GetOrCreate(Run(c, ops), k).level == k;
      if ShouldSeal(c, GetOrCreate(Run(c, ops), k)) {
        GateFanout(c, GetOrCreate(Run(c, ops), k));
      }
    }
  }
}
