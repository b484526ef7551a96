/**
 * The summary tree of `crates/aginx-memory/src/bucket_seal.rs`: one buffer of item ids per level,
 * sealed into summary nodes that are queued one level up.
 *
 * The tables of one tree are the value `Store`; the engine is a class whose methods update them.
 * The summariser is kept free: the content of a summary is the list of inputs it was given, and the
 * token count of its output is a function supplied by the configuration.
 */
module BucketSeal {
  import opened Common

  const TWO31 := 0x8000_0000
  const TWO32 := 0x1_0000_0000
  const I64_MAX := 0x7FFF_FFFF_FFFF_FFFF
  const I64_MIN := -0x8000_0000_0000_0000

  type U32 = x: nat | x < 0x1_0000_0000

  /** Chunk ids come from the caller; summary ids are drawn from a supply that never repeats. */
  datatype Id = ChunkId(name: string) | SummaryId(level: nat, serial: nat)

  datatype Content = Body(text: string) | Digest(inputs: seq<SummaryInput>)

  datatype SummaryInput = SummaryInput(id: Id, content: Content, tokenCount: U32, start: int, end: int, score: real)

  datatype Chunk = Chunk(body: string, tokenCount: U32, start: int, end: int)

  datatype SummaryNode = SummaryNode(level: nat, childIds: seq<Id>, content: Content, tokenCount: U32,
                                     start: int, end: int, score: real)

  datatype Buffer = Buffer(level: nat, itemIds: seq<Id>, tokenSum: int, oldest: Option<int>)

  /** The rows of one tree: buffers by level, summaries and chunks by id, the tree's `max_level`. */
  datatype Store = Store(buffers: map<nat, Buffer>, summaries: map<Id, SummaryNode>, chunks: map<Id, Chunk>,
                         maxLevel: nat, serial: nat)

  datatype Config = Config(fanout: U32, budget: U32, depth: U32, summarise: (seq<SummaryInput>, nat) -> U32)

  datatype Error = RefusedEmptySeal(level: nat)

  /** The constants the repository ships (`crates/memory/src/tree/types.rs`). */
  function Shipped(summarise: (seq<SummaryInput>, nat) -> U32): Config {
    Config(10, 50_000, 32, summarise)
  }

  ghost predicate ValidConfig(c: Config) {
    c.fanout >= 2 && 1 <= c.budget <= TWO31 && c.depth >= 1
  }

  // ---------------------------------------------------------------------------------------------
  // Integer widths
  // ---------------------------------------------------------------------------------------------

  /** The two's-complement reading of the low 32 bits: `x as i32`. */
  function AsI32(x: int): int {
    var m := x % TWO32;
    if m < TWO31 then m else m - TWO32
  }

  /** `i64::saturating_add`. */
  function SaturatingAdd(a: int, b: int): int {
    if a + b > I64_MAX then I64_MAX else if a + b < I64_MIN then I64_MIN else a + b
  }

  // ---------------------------------------------------------------------------------------------
  // Buffers
  // ---------------------------------------------------------------------------------------------

  function GetOrCreate(s: Store, level: nat): Buffer {
    if level in s.buffers then s.buffers[level] else Buffer(level, [], 0, None)
  }

  /** Writing a buffer row: the `token_sum` column is a 32-bit integer. */
  function PutBuffer(s: Store, b: Buffer): Store {
    s.(buffers := s.buffers[b.level := b.(tokenSum := AsI32(b.tokenSum))])
  }

  function Push(b: Buffer, id: Id, tokens: int, ts: int): Buffer {
    b.(itemIds := b.itemIds + [id],
       tokenSum := SaturatingAdd(b.tokenSum, tokens),
       oldest := Some(match b.oldest case Some(t) => Min(t, ts) case None => ts))
  }

  function AppendToBuffer(s: Store, level: nat, id: Id, tokens: int, ts: int): Store {
    var b := GetOrCreate(s, level);
    if id in b.itemIds then s else PutBuffer(s, Push(b, id, tokens, ts).(level := level))
  }

  function ClearBuffer(s: Store, level: nat): Store {
    if level !in s.buffers then s
    else
      var cleared := s.buffers[level].(itemIds := [], tokenSum := 0, oldest := None);
      s.(buffers := s.buffers[level := cleared])
  }

  /** The level-aware gate; the item count is compared as a 32-bit number. */
  predicate ShouldSeal(c: Config, b: Buffer) {
    b.itemIds != [] &&
    if b.level == 0 then b.tokenSum >= c.budget || |b.itemIds| % TWO32 >= c.fanout
    else |b.itemIds| % TWO32 >= c.fanout
  }

  // ---------------------------------------------------------------------------------------------
  // Hydration and the envelope of a seal
  // ---------------------------------------------------------------------------------------------

  function HydrateLeaves(chunks: map<Id, Chunk>, ids: seq<Id>): seq<SummaryInput> {
    if ids == [] then []
    else if ids[0] in chunks then
      var k := chunks[ids[0]];
      [SummaryInput(ids[0], Body(k.body), k.tokenCount, k.start, k.end, 0.0)] + HydrateLeaves(chunks, ids[1..])
    else HydrateLeaves(chunks, ids[1..])
  }

  function HydrateSummaries(summaries: map<Id, SummaryNode>, ids: seq<Id>): seq<SummaryInput> {
    if ids == [] then []
    else if ids[0] in summaries then
      var n := summaries[ids[0]];
      [SummaryInput(ids[0], n.content, n.tokenCount, n.start, n.end, n.score)] + HydrateSummaries(summaries, ids[1..])
    else HydrateSummaries(summaries, ids[1..])
  }

  function Hydrate(s: Store, level: nat, ids: seq<Id>): seq<SummaryInput> {
    if level == 0 then HydrateLeaves(s.chunks, ids) else HydrateSummaries(s.summaries, ids)
  }

  function StartOf(inputs: seq<SummaryInput>): int
    requires inputs != []
  {
    if |inputs| == 1 then inputs[0].start else Min(inputs[0].start, StartOf(inputs[1..]))
  }

  function EndOf(inputs: seq<SummaryInput>): int
    requires inputs != []
  {
    if |inputs| == 1 then inputs[0].end else Max(inputs[0].end, EndOf(inputs[1..]))
  }

  /** The fold of `max` over the scores from minus infinity, then `max` with zero. */
  function ScoreOf(inputs: seq<SummaryInput>): real {
    if inputs == [] then 0.0
    else
      var rest := ScoreOf(inputs[1..]);
      if inputs[0].score > rest then inputs[0].score else rest
  }

  // ---------------------------------------------------------------------------------------------
  // Seal and cascade
  // ---------------------------------------------------------------------------------------------

  function NewNode(c: Config, level: nat, childIds: seq<Id>, inputs: seq<SummaryInput>): SummaryNode
    requires inputs != []
  {
    SummaryNode(level + 1, childIds, Digest(inputs), c.summarise(inputs, level + 1),
                StartOf(inputs), EndOf(inputs), ScoreOf(inputs))
  }

  /** `treeMax` is the `max_level` of the tree value the caller holds, which may be out of date. */
  function SealOne(c: Config, s: Store, treeMax: nat, b: Buffer): (Result<Id, Error>, Store) {
    var inputs := Hydrate(s, b.level, b.itemIds);
    if inputs == [] then (Err(RefusedEmptySeal(b.level)), s)
    else
      var target := b.level + 1;
      var id := SummaryId(target, s.serial);
      var node := NewNode(c, b.level, b.itemIds, inputs);
      var s1 := s.(summaries := s.summaries[id := node], serial := s.serial + 1);
      var s2 := ClearBuffer(s1, b.level);
      var s3 := PutBuffer(s2, Push(GetOrCreate(s2, target), id, node.tokenCount, node.start).(level := target));
      (Ok(id), if target > treeMax then s3.(maxLevel := target) else s3)
  }

  function Cascade(c: Config, s: Store, treeMax: nat, level: nat, left: nat, forced: bool)
    : (Result<seq<Id>, Error>, Store)
    decreases left
  {
    var b := GetOrCreate(s, level);
    if left == 0 || (!forced && !ShouldSeal(c, b)) || b.itemIds == [] then (Ok([]), s)
    else
      match SealOne(c, s, treeMax, b)
      case (Err(e), s1) => (Err(e), s1)
      case (Ok(id), s1) => Before([id], Cascade(c, s1, treeMax, level + 1, left - 1, false))
  }

  /** Puts already sealed ids in front of the rest of a cascade; an error discards them. */
  function Before(ids: seq<Id>, r: (Result<seq<Id>, Error>, Store)): (Result<seq<Id>, Error>, Store) {
    match r.0
    case Ok(more) => (Ok(ids + more), r.1)
    case Err(e) => r
  }

  lemma BeforeBefore(a: seq<Id>, b: seq<Id>, r: (Result<seq<Id>, Error>, Store))
    ensures Before(a, Before(b, r)) == Before(a + b, r)
  {
    if r.0.Ok? {
      assert a + (b + r.0.value) == a + b + r.0.value;
    }
  }

  /** One turn of the cascade loop, as the prefix `ids` of what the whole cascade returns. */
  lemma CascadeTurn(c: Config, s: Store, treeMax: nat, level: nat, left: nat, forced: bool, ids: seq<Id>)
    requires left > 0
    ensures var b := GetOrCreate(s, level);
            var r := SealOne(c, s, treeMax, b);
            Before(ids, Cascade(c, s, treeMax, level, left, forced)) ==
            if (!forced && !ShouldSeal(c, b)) || b.itemIds == [] then (Ok(ids), s)
            else if r.0.Err? then (Err(r.0.error), r.1)
            else Before(ids + [r.0.value], Cascade(c, r.1, treeMax, level + 1, left - 1, false))
  {
    var b := GetOrCreate(s, level);
    var r := SealOne(c, s, treeMax, b);
    if (!forced && !ShouldSeal(c, b)) || b.itemIds == [] {
      assert ids + [] == ids;
    } else if r.0.Ok? {
      BeforeBefore(ids, [r.0.value], Cascade(c, r.1, treeMax, level + 1, left - 1, false));
    }
  }

  /** The engine: every method reads and writes the rows of one tree. */
  class BucketSealEngine {
    const cfg: Config
    var buffers: map<nat, Buffer>
    var summaries: map<Id, SummaryNode>
    var chunks: map<Id, Chunk>
    var maxLevel: nat
    var serial: nat

    constructor (cfg: Config)
      ensures this.cfg == cfg && Rows() == Store(map[], map[], map[], 0, 0)
    {
      this.cfg := cfg;
      buffers, summaries, chunks, maxLevel, serial := map[], map[], map[], 0, 0;
    }

    ghost function Rows(): Store
      reads this
    {
      Store(buffers, summaries, chunks, maxLevel, serial)
    }

    method AppendLeaf(treeMax: nat, id: Id, tokens: U32, ts: int) returns (r: Result<seq<Id>, Error>)
      modifies this
      ensures (r, Rows()) == Cascade(cfg, AppendToBuffer(old(Rows()), 0, id, tokens, ts), treeMax, 0, cfg.depth, false)
    {
      AppendTo(0, id, tokens, ts);
      r := CascadeSeals(treeMax, 0, false);
    }

    method AppendLeafDeferred(id: Id, tokens: U32, ts: int) returns (sealNow: bool)
      modifies this
      ensures Rows() == AppendToBuffer(old(Rows()), 0, id, tokens, ts)
      ensures sealNow <==> ShouldSeal(cfg, GetOrCreate(Rows(), 0))
    {
      AppendTo(0, id, tokens, ts);
      var b := GetBuffer(0);
      sealNow := ShouldSeal(cfg, b);
    }

    method CascadeAllFrom(treeMax: nat, startLevel: nat, forceNow: bool) returns (r: Result<seq<Id>, Error>)
      modifies this
      ensures (r, Rows()) == Cascade(cfg, old(Rows()), treeMax, startLevel, cfg.depth, forceNow)
    {
      r := CascadeSeals(treeMax, startLevel, forceNow);
    }

    method AppendTo(level: nat, id: Id, tokens: int, ts: int)
      modifies this
      ensures Rows() == AppendToBuffer(old(Rows()), level, id, tokens, ts)
    {
      var b := GetBuffer(level);
      if id in b.itemIds {
        return;
      }
      b := b.(itemIds := b.itemIds + [id], level := level);
      b := b.(tokenSum := SaturatingAdd(b.tokenSum, tokens));
      b := b.(oldest := Some(match b.oldest case Some(t) => Min(t, ts) case None => ts));
      Upsert(b);
    }

    method GetBuffer(level: nat) returns (b: Buffer)
      ensures b == GetOrCreate(Rows(), level)
    {
      if level in buffers {
        b := buffers[level];
      } else {
        b := Buffer(level, [], 0, None);
      }
    }

    method Upsert(b: Buffer)
      modifies this
      ensures Rows() == PutBuffer(old(Rows()), b)
    {
      buffers := buffers[b.level := b.(tokenSum := AsI32(b.tokenSum))];
    }

    method CascadeSeals(treeMax: nat, startLevel: nat, forceNow: bool) returns (r: Result<seq<Id>, Error>)
      modifies this
      ensures (r, Rows()) == Cascade(cfg, old(Rows()), treeMax, startLevel, cfg.depth, forceNow)
    {
      hide SealOne;
      ghost var want := Cascade(cfg, Rows(), treeMax, startLevel, cfg.depth, forceNow);
      var sealedIds: seq<Id>, first, level, left := [], true, startLevel, cfg.depth;
      assert want.0.Ok? ==> [] + want.0.value == want.0.value;
      while left > 0
        invariant want == Before(sealedIds, Cascade(cfg, Rows(), treeMax, level, left, first && forceNow))
      {
        var b := GetBuffer(level);
        var forced := first && forceNow;
        CascadeTurn(cfg, Rows(), treeMax, level, left, forced, sealedIds);
        first := false;
        if !forced && !ShouldSeal(cfg, b) {
          return Ok(sealedIds);
        }
        if b.itemIds == [] {
          return Ok(sealedIds);
        }
        var id := SealOneLevel(treeMax, b);
        if id.Err? {
          return Err(id.error);
        }
        sealedIds := sealedIds + [id.value];
        level, left := level + 1, left - 1;
      }
      assert sealedIds + [] == sealedIds;
      return Ok(sealedIds);
    }

    method SealOneLevel(treeMax: nat, b: Buffer) returns (r: Result<Id, Error>)
      modifies this
      ensures (r, Rows()) == SealOne(cfg, old(Rows()), treeMax, b)
    {
      var inputs := HydrateInputs(b.level, b.itemIds);
      if inputs == [] {
        return Err(RefusedEmptySeal(b.level));
      }
      var target := b.level + 1;
      var id := SummaryId(target, serial);
      var node := NewNode(cfg, b.level, b.itemIds, inputs);
      serial := serial + 1;
      summaries := summaries[id := node];
      if b.level in buffers {
        buffers := buffers[b.level := buffers[b.level].(itemIds := [], tokenSum := 0, oldest := None)];
      }
      var parent := GetBuffer(target);
      parent := Push(parent, id, node.tokenCount, node.start).(level := target);
      Upsert(parent);
      if target > treeMax {
        maxLevel := target;
      }
      return Ok(id);
    }

    method HydrateInputs(level: nat, ids: seq<Id>) returns (out: seq<SummaryInput>)
      ensures out == Hydrate(Rows(), level, ids)
    {
      if level == 0 {
        out := HydrateLeafInputs(ids);
      } else {
        out := HydrateSummaryInputs(ids);
      }
    }

    method HydrateLeafInputs(ids: seq<Id>) returns (out: seq<SummaryInput>)
      ensures out == HydrateLeaves(chunks, ids)
    {
      out := [];
      for i := 0 to |ids|
        invariant out + HydrateLeaves(chunks, ids[i..]) == HydrateLeaves(chunks, ids)
      {
        assert ids[i..][1..] == ids[i + 1..];
        if ids[i] !in chunks {
          continue;
        }
        var k := chunks[ids[i]];
        out := out + [SummaryInput(ids[i], Body(k.body), k.tokenCount, k.start, k.end, 0.0)];
      }
    }

    method HydrateSummaryInputs(ids: seq<Id>) returns (out: seq<SummaryInput>)
      ensures out == HydrateSummaries(summaries, ids)
    {
      out := [];
      for i := 0 to |ids|
        invariant out + HydrateSummaries(summaries, ids[i..]) == HydrateSummaries(summaries, ids)
      {
        assert ids[i..][1..] == ids[i + 1..];
        if ids[i] !in summaries {
          continue;
        }
        var n := summaries[ids[i]];
        out := out + [SummaryInput(ids[i], n.content, n.tokenCount, n.start, n.end, n.score)];
      }
    }
  }
}
