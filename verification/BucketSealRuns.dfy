/**
 * Whole runs of the summary tree: conservation of the leaves, what an error leaves behind, the shape
 * and cost of unforced runs, the envelope of every summary and the bookkeeping of every buffer.
 */
module BucketSealRuns {
  import opened Common
  import opened BucketSeal

  datatype Leaf = Leaf(id: Id, tokens: U32, ts: int)

  /** What can happen to one tree; `treeMax` is the `max_level` of the tree value passed by the caller. */
  datatype Op =
    | Append(leaf: Leaf, treeMax: nat)
    | Defer(leaf: Leaf)
    | Flush(level: nat, force: bool, treeMax: nat)
    | StoreChunk(id: Id, chunk: Chunk)
    | DropChunk(id: Id)

  const EMPTY := Store(map[], map[], map[], 0, 0)

  function Appended(s: Store, leaf: Leaf): Store {
    AppendToBuffer(s, 0, leaf.id, leaf.tokens, leaf.ts)
  }

  function Step(c: Config, s: Store, op: Op): Store {
    match op
    case Append(leaf, treeMax) => Cascade(c, Appended(s, leaf), treeMax, 0, c.depth, false).1
    case Defer(leaf) => Appended(s, leaf)
    case Flush(level, force, treeMax) => Cascade(c, s, treeMax, level, c.depth, force).1
    case StoreChunk(id, k) => s.(chunks := s.chunks[id := k])
    case DropChunk(id) => s.(chunks := s.chunks - {id})
  }

  /** The leaf an operation accepts: none when its id is already waiting in the level-0 buffer. */
  function Accepts(s: Store, op: Op): seq<Leaf> {
    if (op.Append? || op.Defer?) && op.leaf.id !in GetOrCreate(s, 0).itemIds then [op.leaf] else []
  }

  function Run(c: Config, ops: seq<Op>): Store {
    if ops == [] then EMPTY else Step(c, Run(c, ops[..|ops| - 1]), ops[|ops| - 1])
  }

  /** Every leaf accepted so far, in append order. */
  function Log(c: Config, ops: seq<Op>): seq<Leaf> {
    if ops == [] then []
    else
      var before := ops[..|ops| - 1];
      Log(c, before) + Accepts(Run(c, before), ops[|ops| - 1])
  }

  function Ids(leaves: seq<Leaf>): (ids: seq<Id>)
    ensures |ids| == |leaves|
  {
    seq(|leaves|, i requires 0 <= i < |leaves| => leaves[i].id)
  }

  // ---------------------------------------------------------------------------------------------
  // Flattening
  // ---------------------------------------------------------------------------------------------

  /** The leaves under one item of the buffer at `level`, following `child_ids`. */
  ghost function Flat(sums: map<Id, SummaryNode>, level: nat, id: Id): seq<Id>
    decreases level, 0, 0
  {
    if level == 0 then [id]
    else if id in sums then FlatAll(sums, level - 1, sums[id].childIds)
    else []
  }

  ghost function FlatAll(sums: map<Id, SummaryNode>, level: nat, ids: seq<Id>): seq<Id>
    decreases level, 1, |ids|
  {
    if ids == [] then [] else Flat(sums, level, ids[0]) + FlatAll(sums, level, ids[1..])
  }

  ghost function FlatLevel(s: Store, level: nat): seq<Id> {
    FlatAll(s.summaries, level, GetOrCreate(s, level).itemIds)
  }

  /** All buffers below level `n`, flattened and concatenated from the top level down to level 0. */
  ghost function FlatBelow(s: Store, n: nat): seq<Id> {
    if n == 0 then [] else FlatLevel(s, n - 1) + FlatBelow(s, n - 1)
  }

  ghost predicate LevelsBelow(s: Store, n: nat) {
    forall k :: k in s.buffers ==> k < n
  }

  // ---------------------------------------------------------------------------------------------
  // What every operation keeps
  // ---------------------------------------------------------------------------------------------

  ghost predicate ItemsOk(sums: map<Id, SummaryNode>, level: nat, ids: seq<Id>) {
    level >= 1 ==> forall i :: 0 <= i < |ids| ==> ids[i] in sums && sums[ids[i]].level == level
  }

  ghost predicate NodeOk(sums: map<Id, SummaryNode>, serial: nat, id: Id) {
    id in sums &&
    var n := sums[id];
    && id.SummaryId? && id.serial < serial
    && n.level >= 1 && n.childIds != []
    && ItemsOk(sums, n.level - 1, n.childIds)
    && n.content.Digest? && n.content.inputs != []
    && n.start == StartOf(n.content.inputs) && n.end == EndOf(n.content.inputs) && n.score == ScoreOf(n.content.inputs)
    && (n.level >= 2 ==> n.content.inputs == HydrateSummaries(sums, n.childIds))
    && (n.level == 1 ==> forall i :: 0 <= i < |n.content.inputs| ==>
          n.content.inputs[i].content.Body? && n.content.inputs[i].score == 0.0)
  }

  ghost predicate NodesOk(sums: map<Id, SummaryNode>, serial: nat) {
    forall id {:trigger NodeOk(sums, serial, id)} :: id in sums ==> NodeOk(sums, serial, id)
  }

  function TokensOf(sums: map<Id, SummaryNode>, ids: seq<Id>): int {
    if ids == [] then 0
    else TokensOf(sums, ids[..|ids| - 1]) + if ids[|ids| - 1] in sums then sums[ids[|ids| - 1]].tokenCount else 0
  }

  function OldestOf(sums: map<Id, SummaryNode>, ids: seq<Id>): Option<int> {
    if ids == [] then None
    else
      var rest := OldestOf(sums, ids[..|ids| - 1]);
      var id := ids[|ids| - 1];
      if id !in sums then rest
      else if rest.Some? then Some(Min(rest.value, sums[id].start)) else Some(sums[id].start)
  }

  /** A buffer row above level 0: its items are summaries of its level, its totals are theirs. */
  ghost predicate BufferOk(sums: map<Id, SummaryNode>, k: nat, b: Buffer) {
    && b.level == k
    && ItemsOk(sums, k, b.itemIds)
    && (k >= 1 ==> b.tokenSum == AsI32(TokensOf(sums, b.itemIds)) && b.oldest == OldestOf(sums, b.itemIds))
  }

  ghost predicate Inv(s: Store) {
    && NodesOk(s.summaries, s.serial)
    && forall k :: k in s.buffers ==> BufferOk(s.summaries, k, s.buffers[k])
  }

  lemma InvRows(s: Store)
    requires Inv(s)
    ensures RowsOk(s) && forall k: nat :: GetOrCreate(s, k).level == k
  {
  }

  ghost predicate Extends(a: map<Id, SummaryNode>, b: map<Id, SummaryNode>) {
    forall id :: id in a ==> id in b && b[id] == a[id]
  }

  lemma {:induction false} FlatFrame(a: map<Id, SummaryNode>, b: map<Id, SummaryNode>, serial: nat, level: nat, id: Id)
    requires Extends(a, b) && NodesOk(a, serial)
    requires level >= 1 ==> id in a && a[id].level == level
    ensures Flat(b, level, id) == Flat(a, level, id)
    decreases level, 0, 0
  {
    if level >= 1 {
      assert NodeOk(a, serial, id);
      FlatAllFrame(a, b, serial, level - 1, a[id].childIds);
    }
  }

  lemma {:induction false} FlatAllFrame(a: map<Id, SummaryNode>, b: map<Id, SummaryNode>, serial: nat, level: nat,
                                        ids: seq<Id>)
    requires Extends(a, b) && NodesOk(a, serial) && ItemsOk(a, level, ids)
    ensures FlatAll(b, level, ids) == FlatAll(a, level, ids)
    decreases level, 1, |ids|
  {
    if ids != [] {
      FlatFrame(a, b, serial, level, ids[0]);
      FlatAllFrame(a, b, serial, level, ids[1..]);
    }
  }

  lemma {:induction false} FlatAllSnoc(sums: map<Id, SummaryNode>, level: nat, ids: seq<Id>, id: Id)
    ensures FlatAll(sums, level, ids + [id]) == FlatAll(sums, level, ids) + Flat(sums, level, id)
    decreases |ids|
  {
    if ids != [] {
      assert (ids + [id])[1..] == ids[1..] + [id];
      FlatAllSnoc(sums, level, ids[1..], id);
    } else {
      assert [id][1..] == [];
    }
  }

  lemma {:induction false} HydrateFrame(a: map<Id, SummaryNode>, b: map<Id, SummaryNode>, ids: seq<Id>)
    requires Extends(a, b) && forall i :: 0 <= i < |ids| ==> ids[i] in a
    ensures HydrateSummaries(b, ids) == HydrateSummaries(a, ids)
    ensures |HydrateSummaries(a, ids)| == |ids|
    ensures forall i :: 0 <= i < |ids| ==>
              HydrateSummaries(a, ids)[i]
                == SummaryInput(ids[i], a[ids[i]].content, a[ids[i]].tokenCount, a[ids[i]].start, a[ids[i]].end,
                                a[ids[i]].score)
  {
    if ids != [] {
      HydrateFrame(a, b, ids[1..]);
    }
  }

  lemma {:induction false} TotalsFrame(a: map<Id, SummaryNode>, b: map<Id, SummaryNode>, ids: seq<Id>)
    requires Extends(a, b) && forall i :: 0 <= i < |ids| ==> ids[i] in a
    ensures TokensOf(b, ids) == TokensOf(a, ids) && OldestOf(b, ids) == OldestOf(a, ids)
  {
    if ids != [] {
      TotalsFrame(a, b, ids[..|ids| - 1]);
    }
  }

  lemma WrapAdd(a: int, b: U32)
    ensures AsI32(SaturatingAdd(AsI32(a), b)) == AsI32(a + b)
  {
    var q := a / TWO32;
    assert AsI32(a) == a - q * TWO32 || AsI32(a) == a - (q + 1) * TWO32;
    assert SaturatingAdd(AsI32(a), b) == AsI32(a) + b;
    if AsI32(a) == a - q * TWO32 {
      ModShift(a + b, -q);
    } else {
      ModShift(a + b, -(q + 1));
    }
  }

  lemma ModShift(x: int, q: int)
    ensures (x + q * TWO32) % TWO32 == x % TWO32
  {
    var k := x / TWO32;
    assert x + q * TWO32 == (k + q) * TWO32 + x % TWO32;
  }

  lemma {:induction false} LeafInputs(chunks: map<Id, Chunk>, ids: seq<Id>)
    ensures forall i :: 0 <= i < |HydrateLeaves(chunks, ids)| ==>
              HydrateLeaves(chunks, ids)[i].content.Body? && HydrateLeaves(chunks, ids)[i].score == 0.0
    ensures HydrateLeaves(chunks, ids) == [] <==> forall i :: 0 <= i < |ids| ==> ids[i] !in chunks
  {
    if ids != [] {
      LeafInputs(chunks, ids[1..]);
      assert forall i :: 1 <= i < |ids| ==> ids[i] == ids[1..][i - 1];
    }
  }

  lemma NodesFrame(a: map<Id, SummaryNode>, b: map<Id, SummaryNode>, serial: nat, id: Id)
    requires NodesOk(a, serial) && Extends(a, b) && id in a
    ensures NodeOk(b, serial + 1, id)
  {
    assert NodeOk(a, serial, id);
    var n := a[id];
    if n.level >= 2 {
      HydrateFrame(a, b, n.childIds);
    }
  }

  lemma BufferFrame(a: map<Id, SummaryNode>, b: map<Id, SummaryNode>, k: nat, buf: Buffer)
    requires Extends(a, b) && BufferOk(a, k, buf)
    ensures BufferOk(b, k, buf)
  {
    if k >= 1 {
      TotalsFrame(a, b, buf.itemIds);
    }
  }

  lemma FreshId(s: Store, k: nat)
    requires Inv(s)
    ensures SummaryId(k, s.serial) !in s.summaries
  {
    assert SummaryId(k, s.serial) in s.summaries ==> NodeOk(s.summaries, s.serial, SummaryId(k, s.serial));
  }

  ghost function SealedNode(c: Config, s: Store, k: nat): SummaryNode
    requires Hydrate(s, k, GetOrCreate(s, k).itemIds) != []
  {
    NewNode(c, k, GetOrCreate(s, k).itemIds, Hydrate(s, k, GetOrCreate(s, k).itemIds))
  }

  /** The rows a seal of level `k` writes, row by row. */
  ghost predicate SealRows(c: Config, s: Store, treeMax: nat, k: nat, s': Store)
    requires Hydrate(s, k, GetOrCreate(s, k).itemIds) != []
  {
    var id := SummaryId(k + 1, s.serial);
    var node := SealedNode(c, s, k);
    && s'.serial == s.serial + 1 && s'.chunks == s.chunks
    && s'.summaries == s.summaries[id := node]
    && k in s.buffers
    && s'.buffers.Keys == s.buffers.Keys + {k + 1}
    && s'.buffers[k] == Buffer(k, [], 0, None)
    && s'.buffers[k + 1] == ParentRow(GetOrCreate(s, k + 1), id, node)
    && (forall m :: m in s.buffers && m != k && m != k + 1 ==> s'.buffers[m] == s.buffers[m])
    && s'.maxLevel == if k + 1 > treeMax then k + 1 else s.maxLevel
  }

  /** `s'` is `s` with the buffer of level `k` sealed. */
  ghost predicate Seal(c: Config, s: Store, treeMax: nat, k: nat, s': Store) {
    Hydrate(s, k, GetOrCreate(s, k).itemIds) != [] && SealRows(c, s, treeMax, k, s')
  }

  ghost function ParentRow(p: Buffer, id: Id, node: SummaryNode): Buffer {
    Buffer(p.level, p.itemIds + [id], AsI32(SaturatingAdd(p.tokenSum, node.tokenCount)),
           Some(if p.oldest.Some? then Min(p.oldest.value, node.start) else node.start))
  }

  lemma SealWrites(c: Config, s: Store, treeMax: nat, k: nat)
    requires GetOrCreate(s, k).level == k && GetOrCreate(s, k + 1).level == k + 1
    requires Hydrate(s, k, GetOrCreate(s, k).itemIds) != []
    ensures var r := SealOne(c, s, treeMax, GetOrCreate(s, k));
            r.0 == Ok(SummaryId(k + 1, s.serial)) && SealRows(c, s, treeMax, k, r.1)
  {
    assert GetOrCreate(s, k).itemIds != [];
  }

  lemma NewNodeOk(c: Config, s: Store, k: nat)
    requires Inv(s) && Hydrate(s, k, GetOrCreate(s, k).itemIds) != []
    ensures var id := SummaryId(k + 1, s.serial);
            NodeOk(s.summaries[id := SealedNode(c, s, k)], s.serial + 1, id)
  {
    var ids := GetOrCreate(s, k).itemIds;
    FreshId(s, k + 1);
    assert ItemsOk(s.summaries, k, ids);
    if k == 0 {
      LeafInputs(s.chunks, ids);
    } else {
      HydrateFrame(s.summaries, s.summaries[SummaryId(k + 1, s.serial) := SealedNode(c, s, k)], ids);
    }
  }

  lemma ParentRowOk(sums: map<Id, SummaryNode>, k: nat, p: Buffer, id: Id)
    requires id in sums && sums[id].level == k && k >= 1
    requires BufferOk(sums, k, p)
    ensures BufferOk(sums, k, ParentRow(p, id, sums[id]))
  {
    var p' := ParentRow(p, id, sums[id]);
    assert p'.itemIds[..|p'.itemIds| - 1] == p.itemIds;
    WrapAdd(TokensOf(sums, p.itemIds), sums[id].tokenCount);
  }

  lemma SealKeepsNodes(c: Config, s: Store, treeMax: nat, k: nat, s': Store)
    requires Inv(s)
    requires Seal(c, s, treeMax, k, s')
    ensures NodesOk(s'.summaries, s'.serial) && Extends(s.summaries, s'.summaries)
  {
    FreshId(s, k + 1);
    NewNodeOk(c, s, k);
    var id := SummaryId(k + 1, s.serial);
    forall x | x in s'.summaries ensures NodeOk(s'.summaries, s'.serial, x) {
      if x != id {
        NodesFrame(s.summaries, s'.summaries, s.serial, x);
      }
    }
  }

  lemma SealKeepsBuffer(c: Config, s: Store, treeMax: nat, k: nat, s': Store, m: nat)
    requires Seal(c, s, treeMax, k, s') && Extends(s.summaries, s'.summaries)
    requires BufferOk(s.summaries, m, GetOrCreate(s, m)) && m in s'.buffers
    ensures BufferOk(s'.summaries, m, s'.buffers[m])
  {
    var b := GetOrCreate(s, m);
    BufferFrame(s.summaries, s'.summaries, m, b);
    if m == k + 1 {
      ParentRowOk(s'.summaries, m, b, SummaryId(m, s.serial));
    }
  }

  ghost predicate Kept(s: Store, s': Store) {
    && Extends(s.summaries, s'.summaries) && s'.chunks == s.chunks
    && s.buffers.Keys <= s'.buffers.Keys
  }

  lemma SealKeepsInv(c: Config, s: Store, treeMax: nat, k: nat, s': Store)
    requires Inv(s)
    requires Seal(c, s, treeMax, k, s')
    ensures Inv(s') && Kept(s, s') && k + 1 in s'.buffers
  {
    hide NodesOk;
    SealKeepsNodes(c, s, treeMax, k, s');
    forall m | m in s'.buffers ensures BufferOk(s'.summaries, m, s'.buffers[m]) {
      SealKeepsBuffer(c, s, treeMax, k, s', m);
    }
  }

  lemma AppendKeepsInv(s: Store, leaf: Leaf)
    requires Inv(s)
    ensures Inv(Appended(s, leaf))
    ensures Appended(s, leaf).summaries == s.summaries && Appended(s, leaf).chunks == s.chunks
  {
  }

  // ---------------------------------------------------------------------------------------------
  // Conservation
  // ---------------------------------------------------------------------------------------------

  lemma {:induction false} FlatBelowSame(s: Store, s': Store, n: nat)
    requires forall k :: 0 <= k < n ==> FlatLevel(s', k) == FlatLevel(s, k)
    ensures FlatBelow(s', n) == FlatBelow(s, n)
  {
    if n > 0 {
      FlatBelowSame(s, s', n - 1);
    }
  }

  lemma {:induction false} FlatBelowAppend(s: Store, leaf: Leaf, n: nat)
    requires leaf.id !in GetOrCreate(s, 0).itemIds && n >= 1
    ensures FlatBelow(Appended(s, leaf), n) == FlatBelow(s, n) + [leaf.id]
  {
    var s' := Appended(s, leaf);
    if n == 1 {
      FlatAllSnoc(s.summaries, 0, GetOrCreate(s, 0).itemIds, leaf.id);
      assert FlatBelow(s, 0) == [] && FlatBelow(s', 0) == [];
    } else {
      FlatBelowAppend(s, leaf, n - 1);
      assert FlatLevel(s', n - 1) == FlatLevel(s, n - 1);
    }
  }

  lemma FlatOfParent(a: map<Id, SummaryNode>, a': map<Id, SummaryNode>, serial: nat, k: nat, items: seq<Id>,
                     parents: seq<Id>, id: Id)
    requires Extends(a, a') && NodesOk(a, serial) && ItemsOk(a, k, items) && ItemsOk(a, k + 1, parents)
    requires id in a' && a'[id].childIds == items
    ensures FlatAll(a', k + 1, parents + [id]) == FlatAll(a, k + 1, parents) + FlatAll(a, k, items)
  {
    FlatAllFrame(a, a', serial, k, items);
    FlatAllFrame(a, a', serial, k + 1, parents);
    FlatAllSnoc(a', k + 1, parents, id);
  }

  /** A seal moves the leaves of level `k` to the right end of level `k + 1`. */
  ghost predicate MovesUp(s: Store, s': Store, k: nat) {
    forall m: nat ::
      FlatLevel(s', m)
      == if m == k then [] else if m == k + 1 then FlatLevel(s, m) + FlatLevel(s, k) else FlatLevel(s, m)
  }

  lemma SealMovesUp(c: Config, s: Store, treeMax: nat, k: nat, s': Store)
    requires Inv(s)
    requires Seal(c, s, treeMax, k, s') && Extends(s.summaries, s'.summaries)
    ensures MovesUp(s, s', k)
  {
    forall m: nat
      ensures FlatLevel(s', m)
              == if m == k then [] else if m == k + 1 then FlatLevel(s, m) + FlatLevel(s, k) else FlatLevel(s, m)
    {
      var b := GetOrCreate(s, m);
      if m == k + 1 {
        FlatOfParent(s.summaries, s'.summaries, s.serial, k, GetOrCreate(s, k).itemIds, b.itemIds,
                     SummaryId(m, s.serial));
      } else if m != k {
        FlatAllFrame(s.summaries, s'.summaries, s.serial, m, b.itemIds);
      }
    }
  }

  lemma {:induction false} FlatBelowMoved(s: Store, s': Store, k: nat, n: nat)
    requires MovesUp(s, s', k) && n >= k + 2
    ensures FlatBelow(s', n) == FlatBelow(s, n)
  {
    if n > k + 2 {
      FlatBelowMoved(s, s', k, n - 1);
    } else {
      FlatBelowSame(s, s', k);
      assert FlatBelow(s, k + 1) == FlatLevel(s, k) + FlatBelow(s, k);
      assert FlatBelow(s', k + 1) == [] + FlatBelow(s, k);
    }
  }

  lemma SummariesAlwaysHydrate(s: Store, k: nat)
    requires Inv(s) && k >= 1 && GetOrCreate(s, k).itemIds != []
    ensures Hydrate(s, k, GetOrCreate(s, k).itemIds) != []
  {
    HydrateFrame(s.summaries, s.summaries, GetOrCreate(s, k).itemIds);
  }

  // ---------------------------------------------------------------------------------------------
  // A cascade as a chain of seals
  // ---------------------------------------------------------------------------------------------

  ghost predicate RowsOk(s: Store) {
    forall k :: k in s.buffers ==> s.buffers[k].level == k
  }

  /** Each store is the one before it with the next level sealed; every seal but a forced first one passed its gate. */
  ghost predicate Chain(c: Config, treeMax: nat, level: nat, tr: seq<Store>, forced: bool)
    decreases |tr|
  {
    |tr| >= 1 &&
    (|tr| >= 2 ==>
       && (forced || ShouldSeal(c, GetOrCreate(tr[0], level)))
       && Seal(c, tr[0], treeMax, level, tr[1])
       && Chain(c, treeMax, level + 1, tr[1..], false))
  }

  function Last(tr: seq<Store>): Store
    requires |tr| >= 1
  {
    tr[|tr| - 1]
  }

  /** Where a cascade with the outcome `r` stops: at the depth limit, at a closed gate or at a refusal. */
  ghost predicate EndsAt(c: Config, level: nat, left: nat, forced: bool, tr: seq<Store>,
                         r: (Result<seq<Id>, Error>, Store))
    requires |tr| >= 1
  {
    var last := Last(tr);
    var k := level + |tr| - 1;
    var top := GetOrCreate(last, k);
    var wanted := |tr| <= left && top.itemIds != [] && ((|tr| == 1 && forced) || ShouldSeal(c, top));
    && |tr| <= left + 1 && r.1 == last
    && (r.0.Ok? ==> !wanted && |r.0.value| == |tr| - 1)
    && (r.0.Err? ==> wanted && Hydrate(last, k, top.itemIds) == [] && r.0.error == RefusedEmptySeal(k))
  }

  lemma EndsCons(c: Config, level: nat, left: nat, forced: bool, s: Store, rest: seq<Store>,
                 r': (Result<seq<Id>, Error>, Store), r: (Result<seq<Id>, Error>, Store))
    requires |rest| >= 1 && left >= 1 && EndsAt(c, level + 1, left - 1, false, rest, r')
    requires r.1 == r'.1 && (r.0.Ok? <==> r'.0.Ok?) && (r.0.Err? ==> r.0.error == r'.0.error)
    requires r.0.Ok? ==> |r.0.value| == |r'.0.value| + 1
    ensures EndsAt(c, level, left, forced, [s] + rest, r)
  {
    assert Last([s] + rest) == Last(rest);
  }

  lemma CascadeGoesOn(c: Config, s: Store, treeMax: nat, level: nat, left: nat, forced: bool, s': Store)
    requires left > 0 && (forced || ShouldSeal(c, GetOrCreate(s, level))) && GetOrCreate(s, level).itemIds != []
    requires SealOne(c, s, treeMax, GetOrCreate(s, level)) == (Ok(SummaryId(level + 1, s.serial)), s')
    ensures var r, rest := Cascade(c, s, treeMax, level, left, forced),
            Cascade(c, s', treeMax, level + 1, left - 1, false);
            && r.1 == rest.1 && (r.0.Ok? <==> rest.0.Ok?) && (r.0.Err? ==> r.0.error == rest.0.error)
            && (r.0.Ok? ==> |r.0.value| == |rest.0.value| + 1)
  {
  }

  lemma SealLevel(c: Config, s: Store, treeMax: nat, level: nat) returns (s': Store)
    requires RowsOk(s) && Hydrate(s, level, GetOrCreate(s, level).itemIds) != []
    ensures SealOne(c, s, treeMax, GetOrCreate(s, level)) == (Ok(SummaryId(level + 1, s.serial)), s')
    ensures GetOrCreate(s, level).itemIds != [] && Seal(c, s, treeMax, level, s') && RowsOk(s')
  {
    SealWrites(c, s, treeMax, level);
    s' := SealOne(c, s, treeMax, GetOrCreate(s, level)).1;
    assert GetOrCreate(s, level).itemIds != [];
  }

  lemma CascadeEnds(c: Config, s: Store, treeMax: nat, level: nat, left: nat, forced: bool, s': Store, rest: seq<Store>)
    requires left > 0 && (forced || ShouldSeal(c, GetOrCreate(s, level))) && GetOrCreate(s, level).itemIds != []
    requires SealOne(c, s, treeMax, GetOrCreate(s, level)) == (Ok(SummaryId(level + 1, s.serial)), s')
    requires |rest| >= 1 && EndsAt(c, level + 1, left - 1, false, rest,
                                   Cascade(c, s', treeMax, level + 1, left - 1, false))
    ensures EndsAt(c, level, left, forced, [s] + rest, Cascade(c, s, treeMax, level, left, forced))
  {
    var r' := Cascade(c, s', treeMax, level + 1, left - 1, false);
    var r := Cascade(c, s, treeMax, level, left, forced);
    CascadeGoesOn(c, s, treeMax, level, left, forced, s');
    EndsCons(c, level, left, forced, s, rest, r', r);
  }

  lemma CascadeStops(c: Config, s: Store, treeMax: nat, level: nat, left: nat, forced: bool)
    requires RowsOk(s)
    requires left == 0 || (!forced && !ShouldSeal(c, GetOrCreate(s, level)))
             || Hydrate(s, level, GetOrCreate(s, level).itemIds) == []
    ensures EndsAt(c, level, left, forced, [s], Cascade(c, s, treeMax, level, left, forced))
  {
    var b := GetOrCreate(s, level);
    assert b.level == level;
  }

  lemma {:induction false} CascadeChain(c: Config, s: Store, treeMax: nat, level: nat, left: nat, forced: bool)
    returns (tr: seq<Store>)
    requires RowsOk(s)
    ensures |tr| >= 1 && Chain(c, treeMax, level, tr, forced) && tr[0] == s
    ensures EndsAt(c, level, left, forced, tr, Cascade(c, s, treeMax, level, left, forced))
    decreases left
  {
    hide Seal, SealOne, SealRows, EndsAt, Cascade, RowsOk;
    if left == 0 || (!forced && !ShouldSeal(c, GetOrCreate(s, level)))
      || Hydrate(s, level, GetOrCreate(s, level).itemIds) == [] {
      tr := [s];
      CascadeStops(c, s, treeMax, level, left, forced);
    } else {
      var s1 := SealLevel(c, s, treeMax, level);
      var rest := CascadeChain(c, s1, treeMax, level + 1, left - 1, false);
      tr := [s] + rest;
      assert tr[1..] == rest;
      CascadeEnds(c, s, treeMax, level, left, forced, s1, rest);
    }
  }

  // ---------------------------------------------------------------------------------------------
  // What a chain of seals keeps
  // ---------------------------------------------------------------------------------------------

  lemma ChainHead(c: Config, treeMax: nat, k: nat, tr: seq<Store>, forced: bool)
    requires Chain(c, treeMax, k, tr, forced) && |tr| >= 2
    ensures Seal(c, tr[0], treeMax, k, tr[1]) && (forced || ShouldSeal(c, GetOrCreate(tr[0], k)))
    ensures Chain(c, treeMax, k + 1, tr[1..], false) && Hydrate(tr[0], k, GetOrCreate(tr[0], k).itemIds) != []
  {
    hide SealRows;
  }

  lemma EmptyIsClosed(c: Config, b: Buffer)
    requires b.itemIds == []
    ensures !ShouldSeal(c, b)
  {
  }

  lemma {:induction false} ChainKeeps(c: Config, treeMax: nat, level: nat, tr: seq<Store>, forced: bool)
    requires Chain(c, treeMax, level, tr, forced) && Inv(tr[0])
    ensures Inv(Last(tr)) && Kept(tr[0], Last(tr))
    decreases |tr|
  {
    hide Inv, Seal, SealOne;
    if |tr| >= 2 {
      SealKeepsInv(c, tr[0], treeMax, level, tr[1]);
      ChainKeeps(c, treeMax, level + 1, tr[1..], false);
    }
  }

  lemma {:induction false} ChainLevel0(c: Config, treeMax: nat, level: nat, tr: seq<Store>, forced: bool)
    requires Chain(c, treeMax, level, tr, forced)
    ensures if level >= 1 || |tr| == 1 then GetOrCreate(Last(tr), 0) == GetOrCreate(tr[0], 0)
            else GetOrCreate(Last(tr), 0) == Buffer(0, [], 0, None)
    decreases |tr|
  {
    if |tr| >= 2 {
      ChainLevel0(c, treeMax, level + 1, tr[1..], false);
    }
  }

  lemma SealFlat(c: Config, s: Store, treeMax: nat, k: nat, s': Store, n: nat)
    requires Inv(s) && Seal(c, s, treeMax, k, s') && LevelsBelow(s', n)
    ensures FlatBelow(s', n) == FlatBelow(s, n)
  {
    SealKeepsInv(c, s, treeMax, k, s');
    SealMovesUp(c, s, treeMax, k, s');
    assert k + 1 in s'.buffers;
    FlatBelowMoved(s, s', k, n);
  }

  lemma {:induction false} ChainFlat(c: Config, treeMax: nat, level: nat, tr: seq<Store>, forced: bool, n: nat)
    requires Chain(c, treeMax, level, tr, forced) && Inv(tr[0]) && LevelsBelow(Last(tr), n)
    ensures FlatBelow(Last(tr), n) == FlatBelow(tr[0], n)
    decreases |tr|
  {
    hide Inv, Seal, SealOne;
    if |tr| >= 2 {
      SealKeepsInv(c, tr[0], treeMax, level, tr[1]);
      ChainKeeps(c, treeMax, level + 1, tr[1..], false);
      ChainFlat(c, treeMax, level + 1, tr[1..], false, n);
      SealFlat(c, tr[0], treeMax, level, tr[1], n);
    }
  }

  lemma CascadeKeeps(c: Config, s: Store, treeMax: nat, level: nat, left: nat, forced: bool, n: nat)
    requires Inv(s) && LevelsBelow(Cascade(c, s, treeMax, level, left, forced).1, n)
    ensures var s' := Cascade(c, s, treeMax, level, left, forced).1;
            Inv(s') && Kept(s, s') && FlatBelow(s', n) == FlatBelow(s, n)
  {
    var tr := CascadeChain(c, s, treeMax, level, left, forced);
    ChainKeeps(c, treeMax, level, tr, forced);
    ChainFlat(c, treeMax, level, tr, forced, n);
  }

  lemma StepKeeps(c: Config, s: Store, op: Op, n: nat)
    requires Inv(s) && LevelsBelow(Step(c, s, op), n) && n >= 1
    ensures var s' := Step(c, s, op);
            && Inv(s') && Extends(s.summaries, s'.summaries) && s.buffers.Keys <= s'.buffers.Keys
            && FlatBelow(s', n) == FlatBelow(s, n) + Ids(Accepts(s, op))
  {
    match op
    case Append(leaf, treeMax) =>
      AppendKeepsInv(s, leaf);
      CascadeKeeps(c, Appended(s, leaf), treeMax, 0, c.depth, false, n);
      AppendFlat(s, leaf, n);
    case Defer(leaf) =>
      AppendKeepsInv(s, leaf);
      AppendFlat(s, leaf, n);
    case Flush(level, force, treeMax) =>
      CascadeKeeps(c, s, treeMax, level, c.depth, force, n);
    case StoreChunk(id, k) =>
      FlatBelowSame(s, Step(c, s, op), n);
    case DropChunk(id) =>
      FlatBelowSame(s, Step(c, s, op), n);
  }

  lemma AppendFlat(s: Store, leaf: Leaf, n: nat)
    requires n >= 1
    ensures FlatBelow(Appended(s, leaf), n) == FlatBelow(s, n) + Ids(Accepts(s, Defer(leaf)))
  {
    if leaf.id !in GetOrCreate(s, 0).itemIds {
      FlatBelowAppend(s, leaf, n);
    }
  }

  lemma {:induction false} IdsConcat(a: seq<Leaf>, b: seq<Leaf>)
    ensures Ids(a + b) == Ids(a) + Ids(b)
  {
  }

  lemma {:induction false} RunKeepsInv(c: Config, ops: seq<Op>)
    ensures Inv(Run(c, ops))
  {
    if ops != [] {
      var before := ops[..|ops| - 1];
      RunKeepsInv(c, before);
      var n := LevelBound(Run(c, ops));
      StepKeeps(c, Run(c, before), ops[|ops| - 1], n);
    }
  }

  /** Some number above every level that has a buffer row. */
  lemma LevelBound(s: Store) returns (n: nat)
    ensures LevelsBelow(s, n) && n >= 1
  {
    n := 1;
    var rest := s.buffers.Keys;
    while rest != {}
      invariant n >= 1 && forall k :: k in s.buffers && k !in rest ==> k < n
      decreases rest
    {
      var k :| k in rest;
      n := if k < n then n else k + 1;
      rest := rest - {k};
    }
  }

  /**
   * Nothing is lost, duplicated or reordered: flattening every buffer from the top level down gives
   * exactly the accepted leaves in append order, after any run of appends, deferred appends, forced
   * and unforced cascades, with chunks coming and going.
   */
  lemma {:induction false} LeavesAreConserved(c: Config, ops: seq<Op>, n: nat)
    requires LevelsBelow(Run(c, ops), n) && n >= 1
    ensures FlatBelow(Run(c, ops), n) == Ids(Log(c, ops))
  {
    if ops == [] {
      assert forall k :: FlatLevel(EMPTY, k) == [];
      FlatBelowSame(EMPTY, EMPTY, n);
      EmptyFlat(n);
    } else {
      var before := ops[..|ops| - 1];
      RunKeepsInv(c, before);
      StepKeeps(c, Run(c, before), ops[|ops| - 1], n);
      LeavesAreConserved(c, before, n);
      IdsConcat(Log(c, before), Accepts(Run(c, before), ops[|ops| - 1]));
    }
  }

  lemma {:induction false} EmptyFlat(n: nat)
    ensures FlatBelow(EMPTY, n) == []
  {
    if n > 0 {
      EmptyFlat(n - 1);
    }
  }

  /**
   * In every reachable store a cascade fails exactly when it starts at level 0, wants to seal there
   * and finds none of the waiting chunks; a failing cascade changes no row at all.
   */
  lemma RefusalChangesNothing(c: Config, ops: seq<Op>, treeMax: nat, level: nat, forced: bool)
    requires c.depth >= 1
    ensures var s := Run(c, ops);
            var b := GetOrCreate(s, level);
            var r := Cascade(c, s, treeMax, level, c.depth, forced);
            && (r.0.Err? <==>
                  && level == 0 && (forced || ShouldSeal(c, b)) && b.itemIds != []
                  && forall i :: 0 <= i < |b.itemIds| ==> b.itemIds[i] !in s.chunks)
            && (r.0.Err? ==> r.1 == s && r.0.error == RefusedEmptySeal(0))
  {
    hide *;
    RunKeepsInv(c, ops);
    CascadeRefusal(c, Run(c, ops), treeMax, level, forced);
  }

  lemma CascadeRefusal(c: Config, s: Store, treeMax: nat, level: nat, forced: bool)
    requires Inv(s) && c.depth >= 1
    ensures var b := GetOrCreate(s, level);
            var r := Cascade(c, s, treeMax, level, c.depth, forced);
            && (r.0.Err? <==>
                  && level == 0 && (forced || ShouldSeal(c, b)) && b.itemIds != []
                  && forall i :: 0 <= i < |b.itemIds| ==> b.itemIds[i] !in s.chunks)
            && (r.0.Err? ==> r.1 == s && r.0.error == RefusedEmptySeal(0))
  {
    hide Inv, Cascade, Chain, Hydrate, ShouldSeal, GetOrCreate, RowsOk;
    InvRows(s);
    var tr := CascadeChain(c, s, treeMax, level, c.depth, forced);
    ChainKeeps(c, treeMax, level, tr, forced);
    var last, k := Last(tr), level + |tr| - 1;
    if k >= 1 && GetOrCreate(last, k).itemIds != [] {
      SummariesAlwaysHydrate(last, k);
    }
    if |tr| >= 2 {
      ChainHead(c, treeMax, level, tr, forced);
    }
    NoChunks(s, GetOrCreate(s, 0).itemIds);
  }

  lemma NoChunks(s: Store, ids: seq<Id>)
    ensures Hydrate(s, 0, ids) == [] <==> forall i :: 0 <= i < |ids| ==> ids[i] !in s.chunks
  {
    LeafInputs(s.chunks, ids);
  }
}
