/**
 * What a summary is made of: the chunks of its leaves as they were when it was sealed, or its child summaries,
 * with the token count the summariser gave for exactly these; and which summaries a cascade reports.
 */
module BucketSealInputs {
  import opened Common
  import opened BucketSeal
  import opened BucketSealRuns
  import opened BucketSealEnvelope

  function HasChunk(chunks: map<Id, Chunk>): Id -> bool {
    id => id in chunks
  }

  predicate IsChunk(chunks: map<Id, Chunk>, id: Id, input: SummaryInput) {
    && id in chunks && input.id == id && input.content == Body(chunks[id].body)
    && input.tokenCount == chunks[id].tokenCount && input.start == chunks[id].start && input.end == chunks[id].end
    && input.score == 0.0
  }

  function ChunkOf(chunks: map<Id, Chunk>): (Id, SummaryInput) -> bool {
    (id, input) => IsChunk(chunks, id, input)
  }

  /** `inputs` are the chunks of those of `ids` that have one, in their order. */
  ghost predicate AreChunks(chunks: map<Id, Chunk>, ids: seq<Id>, inputs: seq<SummaryInput>) {
    Gives(ids, inputs, HasChunk(chunks), ChunkOf(chunks))
  }

  lemma {:induction false} LeavesHydrate(chunks: map<Id, Chunk>, ids: seq<Id>)
    ensures AreChunks(chunks, ids, HydrateLeaves(chunks, ids))
  {
    hide Gives;
    if ids == [] {
      GivesNothing(HasChunk(chunks), ChunkOf(chunks));
    } else {
      var rest := HydrateLeaves(chunks, ids[1..]);
      LeavesHydrate(chunks, ids[1..]);
      assert ids == [ids[0]] + ids[1..];
      if ids[0] in chunks {
        GivesFirst(ids[0], HydrateLeaves(chunks, ids)[0], ids[1..], rest, HasChunk(chunks), ChunkOf(chunks));
      } else {
        PassesOver(ids[0], ids[1..], rest, HasChunk(chunks), ChunkOf(chunks));
      }
    }
  }

  /** `inputs` are the children, all of them, in order and as they are. */
  ghost predicate AreChildren(sums: map<Id, SummaryNode>, ids: seq<Id>, inputs: seq<SummaryInput>) {
    && |inputs| == |ids|
    && forall i {:trigger inputs[i]} :: 0 <= i < |ids| ==>
         && ids[i] in sums && inputs[i].id == ids[i] && inputs[i].content == sums[ids[i]].content
         && inputs[i].tokenCount == sums[ids[i]].tokenCount && inputs[i].score == sums[ids[i]].score
         && inputs[i].start == sums[ids[i]].start && inputs[i].end == sums[ids[i]].end
  }

  /** What is said of a summary when it is sealed, with the chunks there are at that time. */
  ghost predicate MadeOf(c: Config, chunks: map<Id, Chunk>, id: Id, n: SummaryNode) {
    && id.SummaryId? && n.level == id.level
    && n.content.Digest? && n.tokenCount == c.summarise(n.content.inputs, n.level)
    && (n.level == 1 ==> AreChunks(chunks, n.childIds, n.content.inputs))
  }

  lemma SealMakes(c: Config, s: Store, treeMax: nat, k: nat, s': Store)
    requires Seal(c, s, treeMax, k, s')
    ensures s'.chunks == s.chunks && s'.summaries.Keys == s.summaries.Keys + {SummaryId(k + 1, s.serial)}
    ensures MadeOf(c, s.chunks, SummaryId(k + 1, s.serial), s'.summaries[SummaryId(k + 1, s.serial)])
  {
    hide AreChunks;
    LeavesHydrate(s.chunks, GetOrCreate(s, 0).itemIds);
  }

  lemma {:induction false} ChainMakes(c: Config, treeMax: nat, level: nat, tr: seq<Store>, forced: bool, id: Id)
    requires Chain(c, treeMax, level, tr, forced) && Inv(tr[0]) && id in Last(tr).summaries && id !in tr[0].summaries
    ensures MadeOf(c, tr[0].chunks, id, Last(tr).summaries[id])
    decreases |tr|
  {
    hide *;
    ChainStarts(c, treeMax, level, tr, forced);
    LastIs(tr);
    if |tr| >= 2 {
      ChainHead(c, treeMax, level, tr, forced);
      SealMakes(c, tr[0], treeMax, level, tr[1]);
      SealKeepsInv(c, tr[0], treeMax, level, tr[1]);
      ChainKeeps(c, treeMax, level + 1, tr[1..], false);
      KeptMeans(tr[1], Last(tr));
      if id !in tr[1].summaries {
        ChainMakes(c, treeMax, level + 1, tr[1..], false, id);
      }
    }
  }

  lemma KeptMeans(s: Store, s': Store)
    requires Kept(s, s')
    ensures s'.chunks == s.chunks && forall id :: id in s.summaries ==>
              id in s'.summaries && s'.summaries[id] == s.summaries[id]
  {
  }

  lemma ChainStarts(c: Config, treeMax: nat, level: nat, tr: seq<Store>, forced: bool)
    requires Chain(c, treeMax, level, tr, forced)
    ensures |tr| >= 1
  {
    hide Seal;
  }

  lemma LastIs(tr: seq<Store>)
    requires |tr| >= 1
    ensures Last(tr) == if |tr| >= 2 then Last(tr[1..]) else tr[0]
  {
  }

  lemma StepMakes(c: Config, s: Store, op: Op, id: Id)
    requires Inv(s) && id in Step(c, s, op).summaries
    ensures if id in s.summaries then Step(c, s, op).summaries[id] == s.summaries[id]
            else MadeOf(c, s.chunks, id, Step(c, s, op).summaries[id])
  {
    hide Inv, Kept, MadeOf, Chain, EndsAt, Cascade;
    if op.Append? || op.Flush? {
      var s0 := if op.Append? then Appended(s, op.leaf) else s;
      var level, forced := if op.Append? then 0 else op.level, op.Flush? && op.force;
      if op.Append? {
        AppendKeepsInv(s, op.leaf);
      }
      InvRows(s0);
      var tr := CascadeChain(c, s0, op.treeMax, level, c.depth, forced);
      ChainKeeps(c, op.treeMax, level, tr, forced);
      KeptMeans(s0, Last(tr));
      EndsWithLast(c, level, c.depth, forced, tr, Cascade(c, s0, op.treeMax, level, c.depth, forced));
      if id !in s.summaries {
        ChainMakes(c, op.treeMax, level, tr, forced, id);
      }
    }
  }

  lemma EndsWithLast(c: Config, level: nat, left: nat, forced: bool, tr: seq<Store>, r: (Result<seq<Id>, Error>, Store))
    requires |tr| >= 1 && EndsAt(c, level, left, forced, tr, r)
    ensures r.1 == Last(tr) && (r.0.Ok? ==> |r.0.value| == |tr| - 1)
  {
  }

  /** Operation `n` of the run makes the summary. */
  ghost predicate MadeAt(c: Config, ops: seq<Op>, n: nat, id: Id) {
    n < |ops| && id !in Run(c, ops[..n]).summaries && id in Run(c, ops[..n + 1]).summaries
  }

  lemma {:induction false} MadeOnce(c: Config, ops: seq<Op>, id: Id) returns (n: nat)
    requires id in Run(c, ops).summaries
    ensures MadeAt(c, ops, n, id) && MadeOf(c, Run(c, ops[..n]).chunks, id, Run(c, ops).summaries[id])
  {
    hide Inv, MadeOf, Step;
    if ops != [] {
      var before, op := ops[..|ops| - 1], ops[|ops| - 1];
      RunKeepsInv(c, before);
      StepMakes(c, Run(c, before), op, id);
      if id in Run(c, before).summaries {
        n := MadeOnce(c, before, id);
        assert ops[..n] == before[..n] && ops[..n + 1] == before[..n + 1];
      } else {
        n := |before|;
        assert ops[..n] == before && ops[..n + 1] == ops;
      }
    }
  }

  lemma InputsOfNode(s: Store, id: Id)
    requires Inv(s) && id in s.summaries
    ensures var n := s.summaries[id];
            && n.content.Digest? && n.content.inputs != [] && n.level >= 1
            && n.start == StartOf(n.content.inputs) && n.end == EndOf(n.content.inputs)
            && (n.level >= 2 ==> AreChildren(s.summaries, n.childIds, n.content.inputs))
  {
    assert NodeOk(s.summaries, s.serial, id);
    var n := s.summaries[id];
    hide StartOf, EndOf, ScoreOf;
    if n.level >= 2 {
      HydrateFrame(s.summaries, s.summaries, n.childIds);
    }
  }

  /** The time range of `n` contains that of every chunk its leaves have. */
  ghost predicate ContainsChunks(chunks: map<Id, Chunk>, n: SummaryNode) {
    forall i {:trigger n.childIds[i]} :: 0 <= i < |n.childIds| && n.childIds[i] in chunks ==>
      n.start <= chunks[n.childIds[i]].start && chunks[n.childIds[i]].end <= n.end
  }

  lemma RangeOfChunks(chunks: map<Id, Chunk>, n: SummaryNode)
    requires n.content.Digest? && AreChunks(chunks, n.childIds, n.content.inputs)
    requires forall i {:trigger n.content.inputs[i]} :: 0 <= i < |n.content.inputs| ==>
               n.start <= n.content.inputs[i].start && n.content.inputs[i].end <= n.end
    ensures ContainsChunks(chunks, n)
  {
    hide Gives;
    forall i | 0 <= i < |n.childIds| && n.childIds[i] in chunks
      ensures n.start <= chunks[n.childIds[i]].start && chunks[n.childIds[i]].end <= n.end
    {
      var j := GivesEach(n.childIds, n.content.inputs, HasChunk(chunks), ChunkOf(chunks), i);
    }
  }

  /**
   * In every run, the inputs of a level-1 summary are exactly the chunks that its leaves had when it was sealed,
   * in order and with their texts, and those of a higher one are all its children; the token count is the
   * summariser's for these inputs and this level; and the time range is the one they span.
   */
  lemma SummaryIsMadeOf(c: Config, ops: seq<Op>, id: Id)
    requires id in Run(c, ops).summaries
    ensures var sums := Run(c, ops).summaries;
            var n := sums[id];
            && n.content.Digest? && n.tokenCount == c.summarise(n.content.inputs, n.level)
            && (n.level >= 2 ==> AreChildren(sums, n.childIds, n.content.inputs))
            && (n.level == 1 ==>
                  exists k: nat ::
                    && MadeAt(c, ops, k, id)
                    && AreChunks(Run(c, ops[..k]).chunks, n.childIds, n.content.inputs)
                    && ContainsChunks(Run(c, ops[..k]).chunks, n))
            && (forall i {:trigger n.content.inputs[i]} :: 0 <= i < |n.content.inputs| ==>
                  n.start <= n.content.inputs[i].start && n.content.inputs[i].end <= n.end)
            && (exists i :: 0 <= i < |n.content.inputs| && n.content.inputs[i].start == n.start)
            && (exists i :: 0 <= i < |n.content.inputs| && n.content.inputs[i].end == n.end)
  {
    hide Run, Inv, StartOf, EndOf, ScoreOf, AreChunks, AreChildren, ContainsChunks;
    var n := Run(c, ops).summaries[id];
    RunKeepsInv(c, ops);
    InputsOfNode(Run(c, ops), id);
    FoldsBound(n.content.inputs);
    var k := MadeOnce(c, ops, id);
    if n.level == 1 {
      RangeOfChunks(Run(c, ops[..k]).chunks, n);
    }
  }

  // ---------------------------------------------------------------------------------------------
  // What a cascade reports
  // ---------------------------------------------------------------------------------------------

  /** Summaries of consecutive levels, with consecutive numbers. */
  ghost predicate Consecutive(ids: seq<Id>, level: nat, serial: nat) {
    forall i {:trigger ids[i]} :: 0 <= i < |ids| ==> ids[i] == SummaryId(level + i, serial + i)
  }

  lemma {:induction false} CascadeIds(c: Config, s: Store, treeMax: nat, level: nat, left: nat, forced: bool)
    requires RowsOk(s)
    ensures var r := Cascade(c, s, treeMax, level, left, forced);
            r.0.Ok? ==>
              && Consecutive(r.0.value, level + 1, s.serial)
              && forall id :: id in r.1.summaries <==> id in s.summaries || id in r.0.value
    decreases left
  {
    hide Seal, SealOne, SealRows;
    var b := GetOrCreate(s, level);
    if left > 0 && (forced || ShouldSeal(c, b)) && Hydrate(s, level, b.itemIds) != [] {
      var s1 := SealLevel(c, s, treeMax, level);
      SealMakes(c, s, treeMax, level, s1);
      SealCounts(c, s, treeMax, level, s1);
      CascadeIds(c, s1, treeMax, level + 1, left - 1, false);
      var r, more := Cascade(c, s, treeMax, level, left, forced), Cascade(c, s1, treeMax, level + 1, left - 1, false);
      if more.0.Ok? {
        assert r.0.value == [SummaryId(level + 1, s.serial)] + more.0.value;
      }
    } else {
      CascadeStops(c, s, treeMax, level, left, forced);
    }
  }

  lemma SealCounts(c: Config, s: Store, treeMax: nat, k: nat, s': Store)
    requires Seal(c, s, treeMax, k, s')
    ensures s'.serial == s.serial + 1
  {
  }

  /** A cascade that succeeds reports exactly the summaries it made, lowest level first, one to a level. */
  lemma CascadeReportsWhatItMade(c: Config, ops: seq<Op>, treeMax: nat, level: nat, forced: bool)
    ensures var s := Run(c, ops);
            var r := Cascade(c, s, treeMax, level, c.depth, forced);
            r.0.Ok? ==>
              && Consecutive(r.0.value, level + 1, s.serial)
              && (forall id :: id in r.0.value <==> id in r.1.summaries && id !in s.summaries)
              && forall i :: 0 <= i < |r.0.value| ==> r.1.summaries[r.0.value[i]].level == level + 1 + i
  {
    hide Run, Inv, Cascade, MadeOf;
    var s := Run(c, ops);
    var r := Cascade(c, s, treeMax, level, c.depth, forced);
    RunKeepsInv(c, ops);
    InvRows(s);
    CascadeIds(c, s, treeMax, level, c.depth, forced);
    if r.0.Ok? {
      forall i | 0 <= i < |r.0.value|
        ensures r.0.value[i] !in s.summaries && r.1.summaries[r.0.value[i]].level == level + 1 + i
      {
        NewIsNew(c, s, Flush(level, forced, treeMax), level + 1 + i, s.serial + i);
      }
    }
  }

  lemma NewIsNew(c: Config, s: Store, op: Op, level: nat, serial: nat)
    requires Inv(s) && serial >= s.serial && SummaryId(level, serial) in Step(c, s, op).summaries
    ensures SummaryId(level, serial) !in s.summaries
            && Step(c, s, op).summaries[SummaryId(level, serial)].level == level
  {
    hide Step, NodesOk;
    if SummaryId(level, serial) in s.summaries {
      OldIsBefore(s, SummaryId(level, serial));
    }
    StepMakes(c, s, op, SummaryId(level, serial));
  }

  lemma OldIsBefore(s: Store, id: Id)
    requires Inv(s) && id in s.summaries
    ensures id.SummaryId? && id.serial < s.serial
  {
    assert NodeOk(s.summaries, s.serial, id);
  }
}
