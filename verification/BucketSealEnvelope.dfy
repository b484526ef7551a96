/**
 * What the rows of a reachable store say about the leaves below them: time ranges and scores, token
 * sums and oldest times, and the level-0 gate under 32-bit storage.
 */
module BucketSealEnvelope {
  import opened Common
  import opened BucketSeal
  import opened BucketSealRuns

  // ---------------------------------------------------------------------------------------------
  // Envelopes
  // ---------------------------------------------------------------------------------------------

  /** Every input in `content`, at any depth, lies in `[lo, hi]` and scores at most `score`. */
  ghost predicate Within(content: Content, lo: int, hi: int, score: real) {
    match content
    case Body(_) => true
    case Digest(inputs) =>
      forall i {:trigger inputs[i]} :: 0 <= i < |inputs| ==>
        && lo <= inputs[i].start && inputs[i].end <= hi && inputs[i].score <= score
        && Within(inputs[i].content, lo, hi, score)
  }

  lemma {:induction false} WithinWidens(content: Content, lo: int, hi: int, score: real, lo': int, hi': int,
                                        score': real)
    requires Within(content, lo, hi, score) && lo' <= lo && hi <= hi' && score <= score'
    ensures Within(content, lo', hi', score')
  {
    if content.Digest? {
      forall i | 0 <= i < |content.inputs| ensures Within(content.inputs[i].content, lo', hi', score') {
        WithinWidens(content.inputs[i].content, lo, hi, score, lo', hi', score');
      }
    }
  }

  lemma {:induction false} FoldsBound(inputs: seq<SummaryInput>)
    requires inputs != []
    ensures forall i {:trigger inputs[i]} :: 0 <= i < |inputs| ==>
              StartOf(inputs) <= inputs[i].start && inputs[i].end <= EndOf(inputs) && inputs[i].score <= ScoreOf(inputs)
    ensures exists i :: 0 <= i < |inputs| && inputs[i].start == StartOf(inputs)
    ensures exists i :: 0 <= i < |inputs| && inputs[i].end == EndOf(inputs)
    ensures ScoreOf(inputs) >= 0.0
    ensures ScoreOf(inputs) == 0.0 || exists i :: 0 <= i < |inputs| && inputs[i].score == ScoreOf(inputs)
  {
    ScoreNotNegative(inputs);
    ScoreNotNegative(inputs[1..]);
    if |inputs| == 1 {
      assert inputs[0].start == StartOf(inputs) && inputs[0].end == EndOf(inputs);
    } else {
      var rest := inputs[1..];
      FoldsBound(rest);
      var i :| 0 <= i < |rest| && rest[i].start == StartOf(rest);
      var j :| 0 <= j < |rest| && rest[j].end == EndOf(rest);
      assert inputs[if inputs[0].start <= StartOf(rest) then 0 else i + 1].start == StartOf(inputs);
      assert inputs[if EndOf(rest) <= inputs[0].end then 0 else j + 1].end == EndOf(inputs);
      if ScoreOf(rest) != 0.0 {
        var k :| 0 <= k < |rest| && rest[k].score == ScoreOf(rest);
        assert inputs[k + 1].score == ScoreOf(rest);
      }
    }
  }

  lemma {:induction false} ScoreNotNegative(inputs: seq<SummaryInput>)
    ensures ScoreOf(inputs) >= 0.0
  {
    if inputs != [] {
      ScoreNotNegative(inputs[1..]);
    }
  }

  ghost function NodeWithin(n: SummaryNode): bool {
    Within(n.content, n.start, n.end, n.score)
  }

  lemma {:induction false} NodeEnvelope(s: Store, id: Id, level: nat)
    requires Inv(s) && id in s.summaries && s.summaries[id].level == level
    ensures NodeWithin(s.summaries[id])
    decreases level
  {
    var n := s.summaries[id];
    assert NodeOk(s.summaries, s.serial, id);
    var inputs := n.content.inputs;
    FoldsBound(inputs);
    forall i | 0 <= i < |inputs| ensures Within(inputs[i].content, n.start, n.end, n.score) {
      if level >= 2 {
        HydrateFrame(s.summaries, s.summaries, n.childIds);
        var m := s.summaries[n.childIds[i]];
        NodeEnvelope(s, n.childIds[i], level - 1);
        WithinWidens(m.content, m.start, m.end, m.score, n.start, n.end, n.score);
      }
    }
  }

  /** The summary reached from `id` by taking child number `path[0]`, then `path[1]`, and so on. */
  ghost function Descend(sums: map<Id, SummaryNode>, id: Id, path: seq<nat>): Option<Id>
    decreases |path|
  {
    if id !in sums then None
    else if path == [] then Some(id)
    else if path[0] < |sums[id].childIds| then Descend(sums, sums[id].childIds[path[0]], path[1..])
    else None
  }

  lemma {:induction false} DescendantRange(s: Store, id: Id, path: seq<nat>)
    requires Inv(s) && Descend(s.summaries, id, path).Some? && |path| < s.summaries[id].level
    ensures var d := Descend(s.summaries, id, path).value;
            && d in s.summaries && s.summaries[d].level + |path| == s.summaries[id].level
            && s.summaries[id].start <= s.summaries[d].start && s.summaries[d].end <= s.summaries[id].end
            && s.summaries[d].score <= s.summaries[id].score
    decreases |path|
  {
    if path != [] {
      var n := s.summaries[id];
      assert NodeOk(s.summaries, s.serial, id);
      var child := n.childIds[path[0]];
      DescendantRange(s, child, path[1..]);
      HydrateFrame(s.summaries, s.summaries, n.childIds);
      FoldsBound(n.content.inputs);
      assert n.content.inputs[path[0]].start == s.summaries[child].start;
    }
  }

  /**
   * In every reachable store the range of a summary contains the range of everything hydrated below it
   * at any depth, is no wider than its own inputs need, and its score bounds theirs.
   */
  lemma SummariesEnvelopDescendants(c: Config, ops: seq<Op>, id: Id, path: seq<nat>)
    requires id in Run(c, ops).summaries
    ensures var sums := Run(c, ops).summaries;
            var n := sums[id];
            && Within(n.content, n.start, n.end, n.score)
            && n.content.Digest?
            && (exists i :: 0 <= i < |n.content.inputs| && n.content.inputs[i].start == n.start)
            && (exists i :: 0 <= i < |n.content.inputs| && n.content.inputs[i].end == n.end)
            && (|path| < n.level && Descend(sums, id, path).Some? ==>
                  var d := Descend(sums, id, path).value;
                  d in sums && n.start <= sums[d].start && sums[d].end <= n.end && sums[d].score <= n.score)
  {
    var s := Run(c, ops);
    RunKeepsInv(c, ops);
    assert NodeOk(s.summaries, s.serial, id);
    NodeEnvelope(s, id, s.summaries[id].level);
    FoldsBound(s.summaries[id].content.inputs);
    if |path| < s.summaries[id].level && Descend(s.summaries, id, path).Some? {
      DescendantRange(s, id, path);
    }
  }

  /** Leaves enter with score zero, so no summary ever has any other score. */
  lemma {:induction false} ScoresAreZero(s: Store, id: Id, level: nat)
    requires Inv(s) && id in s.summaries && s.summaries[id].level == level
    ensures s.summaries[id].score == 0.0
    decreases level
  {
    var n := s.summaries[id];
    assert NodeOk(s.summaries, s.serial, id);
    FoldsBound(n.content.inputs);
    forall i | 0 <= i < |n.content.inputs| ensures n.content.inputs[i].score == 0.0 {
      if level >= 2 {
        HydrateFrame(s.summaries, s.summaries, n.childIds);
        ScoresAreZero(s, n.childIds[i], level - 1);
      }
    }
  }

  // ---------------------------------------------------------------------------------------------
  // Totals
  // ---------------------------------------------------------------------------------------------

  function LeafTokens(leaves: seq<Leaf>): nat {
    if leaves == [] then 0 else LeafTokens(leaves[..|leaves| - 1]) + leaves[|leaves| - 1].tokens
  }

  function LeafOldest(leaves: seq<Leaf>): Option<int> {
    if leaves == [] then None
    else
      var rest := LeafOldest(leaves[..|leaves| - 1]);
      var ts := leaves[|leaves| - 1].ts;
      Some(if rest.Some? then Min(rest.value, ts) else ts)
  }

  /** The level-0 row describes exactly the leaves `tail`. */
  ghost predicate Describes(b: Buffer, tail: seq<Leaf>) {
    b == Buffer(0, Ids(tail), AsI32(LeafTokens(tail)), LeafOldest(tail))
  }

  ghost predicate Level0Ok(s: Store, log: seq<Leaf>) {
    var m := |GetOrCreate(s, 0).itemIds|;
    m <= |log| && Describes(GetOrCreate(s, 0), log[|log| - m..])
  }

  lemma PushDescribes(b: Buffer, tail: seq<Leaf>, leaf: Leaf)
    requires Describes(b, tail)
    ensures var b' := Push(b, leaf.id, leaf.tokens, leaf.ts);
            Describes(b'.(tokenSum := AsI32(b'.tokenSum)), tail + [leaf])
  {
    hide AsI32, SaturatingAdd;
    var tail' := tail + [leaf];
    assert tail'[..|tail'| - 1] == tail;
    assert Ids(tail') == Ids(tail) + [leaf.id];
    WrapAdd(LeafTokens(tail), leaf.tokens);
  }

  lemma AppendLevel0(s: Store, log: seq<Leaf>, leaf: Leaf)
    requires Level0Ok(s, log)
    ensures Level0Ok(Appended(s, leaf), log + Accepts(s, Defer(leaf)))
  {
    hide Describes;
    var b := GetOrCreate(s, 0);
    var m := |b.itemIds|;
    if leaf.id in b.itemIds {
      assert log + [] == log;
    } else {
      var log' := log + [leaf];
      assert log'[|log'| - (m + 1)..] == log[|log| - m..] + [leaf];
      DescribesLevel(b, log[|log| - m..]);
      PushDescribes(b, log[|log| - m..], leaf);
    }
  }

  lemma DescribesLevel(b: Buffer, tail: seq<Leaf>)
    requires Describes(b, tail)
    ensures b.level == 0
  {
  }

  lemma CascadeLevel0(c: Config, s: Store, log: seq<Leaf>, treeMax: nat, level: nat, forced: bool)
    requires Inv(s) && Level0Ok(s, log)
    ensures Level0Ok(Cascade(c, s, treeMax, level, c.depth, forced).1, log)
  {
    hide Inv, Cascade, Chain, Describes;
    InvRows(s);
    var tr := CascadeChain(c, s, treeMax, level, c.depth, forced);
    ChainLevel0(c, treeMax, level, tr, forced);
    assert log[|log|..] == [];
    EmptyTail();
  }

  lemma EmptyTail()
    ensures Describes(Buffer(0, [], 0, None), [])
  {
    assert Ids([]) == [];
  }

  lemma {:induction false} RunLevel0(c: Config, ops: seq<Op>)
    ensures Level0Ok(Run(c, ops), Log(c, ops))
  {
    hide Inv, Cascade, Level0Ok, Accepts, Appended;
    if ops == [] {
      EmptyLevel0();
    } else {
      var before, op := ops[..|ops| - 1], ops[|ops| - 1];
      var s, log := Run(c, before), Log(c, before);
      RunLevel0(c, before);
      RunKeepsInv(c, before);
      assert log + [] == log;
      AcceptsCases(s, op);
      match op
      case Append(leaf, treeMax) =>
        AppendLevel0(s, log, leaf);
        AppendKeepsInv(s, leaf);
        CascadeLevel0(c, Appended(s, leaf), log + Accepts(s, op), treeMax, 0, false);
      case Defer(leaf) =>
        AppendLevel0(s, log, leaf);
      case Flush(level, force, treeMax) =>
        CascadeLevel0(c, s, log, treeMax, level, force);
      case StoreChunk(_, _) =>
        SameLevel0(s, Step(c, s, op), log);
      case DropChunk(_) =>
        SameLevel0(s, Step(c, s, op), log);
    }
  }

  lemma SameLevel0(s: Store, s': Store, log: seq<Leaf>)
    requires Level0Ok(s, log) && s'.buffers == s.buffers
    ensures Level0Ok(s', log)
  {
  }

  lemma EmptyLevel0()
    ensures Level0Ok(EMPTY, [])
  {
    EmptyTail();
  }

  lemma AcceptsCases(s: Store, op: Op)
    ensures op.Append? ==> Accepts(s, op) == Accepts(s, Defer(op.leaf))
    ensures !op.Append? && !op.Defer? ==> Accepts(s, op) == []
  {
  }

  /**
   * The totals of every buffer row of a reachable store. Level 0 holds the newest accepted leaves; its
   * token sum and oldest time are theirs. Above, both are those of the waiting summaries. Token sums are
   * stored in 32 bits: they equal the true sum exactly when that is below 2^31.
   */
  lemma BufferTotals(c: Config, ops: seq<Op>, k: nat)
    ensures var s, log := Run(c, ops), Log(c, ops);
            var b := GetOrCreate(s, k);
            && (k == 0 ==> |b.itemIds| <= |log| && Describes(b, log[|log| - |b.itemIds|..])
                           && (b.tokenSum == LeafTokens(log[|log| - |b.itemIds|..])
                               <==> LeafTokens(log[|log| - |b.itemIds|..]) < TWO31))
            && (k >= 1 ==> b.oldest == OldestOf(s.summaries, b.itemIds)
                           && b.tokenSum == AsI32(TokensOf(s.summaries, b.itemIds))
                           && (b.tokenSum == TokensOf(s.summaries, b.itemIds)
                               <==> TokensOf(s.summaries, b.itemIds) < TWO31))
  {
    hide Inv, Run, Log;
    RunLevel0(c, ops);
    RunKeepsInv(c, ops);
    var s, log := Run(c, ops), Log(c, ops);
    var b := GetOrCreate(s, k);
    if k == 0 {
      WrapExact(LeafTokens(log[|log| - |b.itemIds|..]));
    } else {
      RowTotals(s, k);
      TokensNotNegative(s.summaries, b.itemIds);
      WrapExact(TokensOf(s.summaries, b.itemIds));
    }
  }

  lemma RowTotals(s: Store, k: nat)
    requires Inv(s) && k >= 1
    ensures var b := GetOrCreate(s, k);
            b.oldest == OldestOf(s.summaries, b.itemIds) && b.tokenSum == AsI32(TokensOf(s.summaries, b.itemIds))
  {
    assert BufferOk(s.summaries, k, GetOrCreate(s, k));
  }

  lemma WrapExact(x: nat)
    ensures AsI32(x) == x <==> x < TWO31
  {
  }

  lemma {:induction false} TokensNotNegative(sums: map<Id, SummaryNode>, ids: seq<Id>)
    ensures TokensOf(sums, ids) >= 0
  {
    if ids != [] {
      TokensNotNegative(sums, ids[..|ids| - 1]);
    }
  }

  // ---------------------------------------------------------------------------------------------
  // The level-0 gate
  // ---------------------------------------------------------------------------------------------

  /**
   * The documented gate compares the waiting tokens with the budget. The stored sum decides the same way
   * if and only if the count already closes the buffer, the tokens are below the budget, or their low 32
   * bits read as a non-negative number that reaches it.
   */
  lemma TokenGateAgreesExactlyWhen(c: Config, b: Buffer, tail: seq<Leaf>)
    requires ValidConfig(c) && Describes(b, tail) && tail != []
    ensures var t := LeafTokens(tail);
            (ShouldSeal(c, b) <==> t >= c.budget || |tail| % TWO32 >= c.fanout)
            <==> (|tail| % TWO32 >= c.fanout || t < c.budget || c.budget <= t % TWO32 < TWO31)
  {
    var t := LeafTokens(tail);
    assert t < c.budget ==> AsI32(t) == t;
  }

  /** One leaf of 2^31 tokens fills the budget many times over and is not sealed. */
  lemma TokenGateCanMiss(summarise: (seq<SummaryInput>, nat) -> U32, treeMax: nat)
    ensures var c := Config(10, 50_000, 32, summarise);
            var ops := [Append(Leaf(ChunkId("a"), TWO31, 0), treeMax)];
            c == Shipped(summarise) && Run(c, ops).summaries == map[] && LeafTokens(Log(c, ops)) >= c.budget
  {
    var c := Shipped(summarise);
    var leaf := Leaf(ChunkId("a"), TWO31, 0);
    var ops := [Append(leaf, treeMax)];
    assert ops[..0] == [];
    assert Run(c, ops) == Step(c, EMPTY, ops[0]);
    assert Log(c, ops) == [leaf];
    assert LeafTokens([leaf]) == LeafTokens([leaf][..0]) + TWO31;
  }
}
