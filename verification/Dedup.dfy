/**
 * The inbound duplicate filter `InboundDedup` of `crates/channels-common/src/lib.rs`: a table of keys and
 * the times they were accepted, pruned by age and bounded in size.
 * Calls are sequential and the clock never goes back.
 */
module Dedup {
  import opened Common

  type Table = map<string, int>

  predicate Recent(seen: Table, key: string, now: int, ttl: nat) {
    key in seen && seen[key] + ttl > now
  }

  function Pruned(seen: Table, now: int, ttl: nat): Table {
    map k | k in seen && seen[k] + ttl > now :: seen[k]
  }

  /**
   * `kept` is `t` without its oldest entries beyond `max`; among equal times the map order decides, so any
   * choice may be made.
   */
  ghost predicate OldestDropped(t: Table, kept: Table, max: nat) {
    && kept.Keys <= t.Keys
    && (forall k :: k in kept ==> kept[k] == t[k])
    && |kept| == (if |t| > max then max else |t|)
    && forall a, b :: a in t && a !in kept && b in kept ==> t[a] <= t[b]
  }

  /** One call: whether the key is new, and the table afterwards. */
  ghost predicate Checked(seen: Table, key: string, now: int, ttl: nat, max: nat, isNew: bool, seen': Table) {
    if Recent(seen, key, now, ttl) then !isNew && seen' == seen
    else isNew && OldestDropped(Pruned(seen, now, ttl)[key := now], seen', max)
  }

  class InboundDedup {
    var seen: Table
    const ttl: nat
    const maxEntries: nat

    constructor (ttl: nat, maxEntries: nat)
      ensures seen == map[] && this.ttl == ttl && this.maxEntries == maxEntries
    {
      seen := map[];
      this.ttl := ttl;
      this.maxEntries := maxEntries;
    }

    method Check(key: string, now: int) returns (isNew: bool)
      modifies this
      ensures Checked(old(seen), key, now, ttl, maxEntries, isNew, seen)
    {
      if key in seen && seen[key] + ttl > now {
        return false;
      }
      seen := map k | k in seen && seen[k] + ttl > now :: seen[k];
      seen := seen[key := now];
      ghost var full := seen;
      assert full == Pruned(old(seen), now, ttl)[key := now];
      AllKept(full);
      if |seen| > maxEntries {
        var dropCount := |seen| - maxEntries;
        for i := 0 to dropCount
          invariant |seen| == |full| - i && OldestDropped(full, seen, |full| - i)
        {
          OldestExists(seen);
          var oldest :| oldest in seen && forall k :: k in seen ==> seen[oldest] <= seen[k];
          DropNext(full, seen, oldest, |full| - i);
          hide *;
          seen := seen - {oldest};
        }
      } else {
        FitsWhole(full, maxEntries);
      }
      isNew := true;
    }
  }

  lemma AllKept(t: Table)
    ensures OldestDropped(t, t, |t|)
  {
  }

  lemma FitsWhole(t: Table, max: nat)
    requires |t| <= max
    ensures OldestDropped(t, t, max)
  {
  }

  lemma DropNext(full: Table, seen: Table, oldest: string, m: nat)
    requires OldestDropped(full, seen, m) && 1 <= m <= |full|
    requires oldest in seen && forall k :: k in seen ==> seen[oldest] <= seen[k]
    ensures OldestDropped(full, seen - {oldest}, m - 1) && |seen - {oldest}| == m - 1
  {
    assert (seen - {oldest}).Keys == seen.Keys - {oldest};
  }

  lemma OldestExists(t: Table)
    requires t != map[]
    ensures exists k :: k in t && forall j :: j in t ==> t[k] <= t[j]
  {
    var k := OldestAmong(t, t.Keys);
  }

  lemma OldestAmong(t: Table, ks: set<string>) returns (k: string)
    requires ks != {} && ks <= t.Keys
    ensures k in ks && forall j :: j in ks ==> t[k] <= t[j]
  {
    k :| k in ks;
    var rest := ks - {k};
    if rest != {} {
      var m := OldestAmong(t, rest);
      if t[m] < t[k] {
        k := m;
      }
    }
  }

  // ---------------------------------------------------------------------------------------------
  // Runs
  // ---------------------------------------------------------------------------------------------

  datatype Query = Query(key: string, now: int)

  ghost predicate ClockRuns(qs: seq<Query>) {
    forall i, j :: 0 <= i < j < |qs| ==> qs[i].now <= qs[j].now
  }

  /** `tables` are the tables before, between and after the calls and `isNew` the answers. */
  ghost predicate Trace(qs: seq<Query>, ttl: nat, max: nat, isNew: seq<bool>, tables: seq<Table>)
    decreases |qs|
  {
    && |isNew| == |qs| && |tables| == |qs| + 1
    && if qs == [] then tables[0] == map[]
       else
         var n := |qs| - 1;
         && Trace(qs[..n], ttl, max, isNew[..n], tables[..n + 1])
         && Checked(tables[n], qs[n].key, qs[n].now, ttl, max, isNew[n], tables[n + 1])
  }

  /** The answers of a filter that forgets nothing: a key is new unless it was accepted less than `ttl` ago. */
  function Unbounded(qs: seq<Query>, ttl: nat): Table {
    if qs == [] then map[]
    else
      var n := |qs| - 1;
      var t := Unbounded(qs[..n], ttl);
      if Recent(t, qs[n].key, qs[n].now, ttl) then t else t[qs[n].key := qs[n].now]
  }

  predicate UnboundedFresh(qs: seq<Query>, ttl: nat)
    requires qs != []
  {
    var n := |qs| - 1;
    !Recent(Unbounded(qs[..n], ttl), qs[n].key, qs[n].now, ttl)
  }

  lemma {:induction false} TableIsBounded(qs: seq<Query>, ttl: nat, max: nat, isNew: seq<bool>, tables: seq<Table>)
    requires Trace(qs, ttl, max, isNew, tables)
    ensures |tables[|qs|]| <= max
  {
    if qs != [] {
      var n := |qs| - 1;
      TableIsBounded(qs[..n], ttl, max, isNew[..n], tables[..n + 1]);
      assert tables[..n + 1][n] == tables[n];
    }
  }

  /** Every entry of the table is the time of the latest acceptance of its key. */
  lemma {:induction false} EntriesWereAccepted(qs: seq<Query>, ttl: nat, max: nat, isNew: seq<bool>, tables: seq<Table>,
                                               key: string)
    returns (i: nat)
    requires Trace(qs, ttl, max, isNew, tables) && key in tables[|qs|]
    ensures i < |qs| && qs[i] == Query(key, tables[|qs|][key]) && isNew[i]
    ensures forall j :: i < j < |qs| && qs[j].key == key ==> !isNew[j]
  {
    var n := |qs| - 1;
    if isNew[n] && qs[n].key == key {
      i := n;
    } else {
      assert key in tables[n];
      assert tables[..n + 1][n] == tables[n];
      i := EntriesWereAccepted(qs[..n], ttl, max, isNew[..n], tables[..n + 1], key);
      assert qs[..n][i] == qs[i] && isNew[..n][i] == isNew[i];
      forall j | i < j < |qs| && qs[j].key == key ensures !isNew[j] {
        if j < n {
          assert qs[..n][j] == qs[j] && isNew[..n][j] == isNew[j];
        }
      }
    }
  }

  /** A call answers "duplicate" only if the key was accepted less than `ttl` before. */
  lemma DuplicateMeansRecentlyAccepted(qs: seq<Query>, ttl: nat, max: nat, isNew: seq<bool>, tables: seq<Table>)
    returns (i: nat)
    requires Trace(qs, ttl, max, isNew, tables) && qs != [] && !isNew[|qs| - 1]
    ensures i < |qs| - 1 && isNew[i] && qs[i].key == qs[|qs| - 1].key && qs[|qs| - 1].now < qs[i].now + ttl
  {
    var n := |qs| - 1;
    i := EntriesWereAccepted(qs[..n], ttl, max, isNew[..n], tables[..n + 1], qs[n].key);
    assert qs[..n][i] == qs[i] && isNew[..n][i] == isNew[i] && tables[..n + 1][n] == tables[n];
  }

  ghost predicate AcceptedSince(qs: seq<Query>, isNew: seq<bool>, key: string, time: int) {
    exists m: nat {:trigger qs[m]} :: m < |qs| && m < |isNew| && qs[m].key == key && isNew[m] && qs[m].now >= time
  }

  lemma SinceGrows(qs: seq<Query>, isNew: seq<bool>, n: nat, key: string, time: int)
    requires n <= |qs| && n <= |isNew| && AcceptedSince(qs[..n], isNew[..n], key, time)
    ensures AcceptedSince(qs, isNew, key, time)
  {
    var m: nat :| m < n && qs[..n][m].key == key && isNew[..n][m] && qs[..n][m].now >= time;
    assert qs[m].key == key && isNew[m];
  }

  /** Call `i` accepted the key, and no later call did. */
  ghost predicate LastAccepted(qs: seq<Query>, isNew: seq<bool>, key: string, i: nat) {
    && i < |qs| && |isNew| == |qs| && qs[i].key == key && isNew[i]
    && forall j :: i < j < |qs| && qs[j].key == key ==> !isNew[j]
  }

  /**
   * The oldest entries go first: a key that still counts is forgotten only when at least `max` other keys were
   * accepted no earlier than it.
   */
  lemma {:induction false} ForgottenOnlyForNewer(qs: seq<Query>, ttl: nat, max: nat, isNew: seq<bool>,
                                                 tables: seq<Table>, key: string, i: nat)
    returns (others: set<string>)
    requires Trace(qs, ttl, max, isNew, tables) && ClockRuns(qs) && LastAccepted(qs, isNew, key, i)
    requires qs[|qs| - 1].now < qs[i].now + ttl && key !in tables[|qs|]
    ensures |others| >= max && key !in others
    ensures forall k :: k in others ==> AcceptedSince(qs, isNew, k, qs[i].now)
    decreases |qs|
  {
    var n := |qs| - 1;
    assert tables[..n + 1][n] == tables[n] && ClockRuns(qs[..n]);
    if i < n && key !in tables[n] {
      assert qs[..n][i] == qs[i] && isNew[..n][i] == isNew[i] && qs[..n][n - 1] == qs[n - 1];
      assert forall j :: i < j < n ==> qs[..n][j] == qs[j] && isNew[..n][j] == isNew[j];
      assert qs[n - 1].now <= qs[n].now;
      others := ForgottenOnlyForNewer(qs[..n], ttl, max, isNew[..n], tables[..n + 1], key, i);
      forall k | k in others ensures AcceptedSince(qs, isNew, k, qs[i].now) {
        SinceGrows(qs, isNew, n, k, qs[i].now);
      }
    } else {
      others := tables[|qs|].Keys;
      if i < n {
        var m := EntriesWereAccepted(qs[..n], ttl, max, isNew[..n], tables[..n + 1], key);
        SameCall(qs, isNew, n, key, i, m);
      }
      DroppedIsOlder(tables[n], qs[n].key, qs[n].now, ttl, max, isNew[n], tables[n + 1], key, qs[i].now);
      forall k | k in others ensures AcceptedSince(qs, isNew, k, qs[i].now) {
        var m := EntriesWereAccepted(qs, ttl, max, isNew, tables, k);
        assert qs[m].key == k;
      }
    }
  }

  /** The latest acceptance of a key is one call. */
  lemma SameCall(qs: seq<Query>, isNew: seq<bool>, n: nat, key: string, i: nat, m: nat)
    requires LastAccepted(qs, isNew, key, i) && i < n <= |qs| && m < n
    requires qs[..n][m].key == key && isNew[..n][m] && forall j :: m < j < n && qs[..n][j].key == key ==> !isNew[..n][j]
    ensures m == i
  {
    assert qs[..n][i] == qs[i] && isNew[..n][i] == isNew[i];
  }

  lemma DroppedIsOlder(seen: Table, q: string, now: int, ttl: nat, max: nat, isNew: bool, seen': Table, key: string,
                       time: int)
    requires Checked(seen, q, now, ttl, max, isNew, seen') && now < time + ttl && key !in seen'
    requires (key in seen && seen[key] == time && (q == key ==> !isNew)) || (q == key && isNew && now == time)
    ensures |seen'| == max && forall k :: k in seen' ==> seen'[k] >= time
  {
    var full := Pruned(seen, now, ttl)[q := now];
    assert isNew && key in full && full[key] == time;
    if |full| <= max {
      SameSize(seen'.Keys, full.Keys);
    }
  }

  // ---------------------------------------------------------------------------------------------
  // Agreement with the unbounded filter
  // ---------------------------------------------------------------------------------------------

  /** The entries of the unbounded filter that still count at time `now`. */
  function Window(t: Table, now: int, ttl: nat): Table {
    Pruned(t, now, ttl)
  }

  /** The bounded table has forgotten nothing that still counts and invented nothing. */
  ghost predicate Agree(seen: Table, t: Table, now: int, ttl: nat) {
    Pruned(seen, now, ttl) == Window(t, now, ttl)
  }

  lemma AgreeMeansSameAnswers(seen: Table, t: Table, now: int, ttl: nat)
    ensures Agree(seen, t, now, ttl)
            <==> forall key ::
                   && Recent(seen, key, now, ttl) == Recent(t, key, now, ttl)
                   && (Recent(t, key, now, ttl) ==> seen[key] == t[key])
  {
    var a, b := Pruned(seen, now, ttl), Window(t, now, ttl);
    if Agree(seen, t, now, ttl) {
      forall key
        ensures Recent(seen, key, now, ttl) == Recent(t, key, now, ttl)
        ensures Recent(t, key, now, ttl) ==> seen[key] == t[key]
      {
        assert key in a <==> key in b;
        assert key in a ==> a[key] == b[key];
      }
    }
    if forall key ::
         && Recent(seen, key, now, ttl) == Recent(t, key, now, ttl)
         && (Recent(t, key, now, ttl) ==> seen[key] == t[key])
    {
      forall key ensures (key in a <==> key in b) && (key in a ==> a[key] == b[key]) {
        assert Recent(seen, key, now, ttl) == Recent(t, key, now, ttl);
      }
      assert a == b;
    }
  }

  /**
   * One call on agreeing tables: the answers are the same, and the tables agree afterwards if and only if
   * at most `max` keys were accepted within the last `ttl`.
   */
  lemma CheckAgrees(seen: Table, t: Table, key: string, now: int, ttl: nat, max: nat, isNew: bool, seen': Table)
    requires Agree(seen, t, now, ttl) && Checked(seen, key, now, ttl, max, isNew, seen') && ttl > 0
    ensures isNew <==> !Recent(t, key, now, ttl)
    ensures var t' := if Recent(t, key, now, ttl) then t else t[key := now];
            isNew ==> (Agree(seen', t', now, ttl) <==> |Window(t', now, ttl)| <= max)
  {
    AgreeMeansSameAnswers(seen, t, now, ttl);
    if isNew {
      var full := Pruned(seen, now, ttl)[key := now];
      var t' := t[key := now];
      assert Window(t', now, ttl) == full;
      assert Pruned(seen', now, ttl) == seen' by {
        assert forall k :: k in seen' ==> seen'[k] + ttl > now;
      }
      if |full| <= max {
        SameSize(seen'.Keys, full.Keys);
        assert seen' == full;
      }
    }
  }

  lemma SameSize(a: set<string>, b: set<string>)
    requires a <= b && |a| == |b|
    ensures a == b
  {
    assert a + (b - a) == b;
    assert |b - a| == 0;
  }

  /** Agreement at one time is agreement at every later time. */
  lemma AgreeLater(seen: Table, t: Table, now: int, later: int, ttl: nat)
    requires Agree(seen, t, now, ttl) && now <= later
    ensures Agree(seen, t, later, ttl)
  {
    AgreeMeansSameAnswers(seen, t, now, ttl);
    AgreeMeansSameAnswers(seen, t, later, ttl);
    forall key
      ensures Recent(seen, key, later, ttl) == Recent(t, key, later, ttl)
      ensures Recent(t, key, later, ttl) ==> seen[key] == t[key]
    {
      assert Recent(seen, key, now, ttl) == Recent(t, key, now, ttl);
    }
  }

  /** After every accepted call at most `max` distinct keys had been accepted within the last `ttl`. */
  ghost predicate WindowsFit(qs: seq<Query>, ttl: nat, max: nat)
    decreases |qs|
  {
    qs != [] ==>
      && WindowsFit(qs[..|qs| - 1], ttl, max)
      && (UnboundedFresh(qs, ttl) ==> |Window(Unbounded(qs, ttl), qs[|qs| - 1].now, ttl)| <= max)
  }

  lemma {:induction false} UnboundedPast(qs: seq<Query>, ttl: nat)
    requires ClockRuns(qs) && qs != []
    ensures forall k :: k in Unbounded(qs, ttl) ==> Unbounded(qs, ttl)[k] <= qs[|qs| - 1].now
  {
    var n := |qs| - 1;
    if n > 0 {
      assert ClockRuns(qs[..n]) && qs[..n][n - 1].now <= qs[n].now;
      UnboundedPast(qs[..n], ttl);
    }
  }

  lemma ZeroWindow(t: Table, now: int)
    requires forall k :: k in t ==> t[k] <= now
    ensures |Window(t, now, 0)| == 0
  {
    assert Window(t, now, 0) == map[];
  }

  /** With a zero `ttl` nothing is ever recent, in either filter. */
  lemma NothingRecent(qs: seq<Query>, max: nat, isNew: seq<bool>, tables: seq<Table>, now: int)
    requires Trace(qs, 0, max, isNew, tables) && ClockRuns(qs) && (qs == [] || qs[|qs| - 1].now <= now)
    ensures Agree(tables[|qs|], Unbounded(qs, 0), now, 0)
    ensures forall key :: !Recent(Unbounded(qs, 0), key, now, 0) && !Recent(tables[|qs|], key, now, 0)
  {
    if qs != [] {
      UnboundedPast(qs, 0);
    }
    forall key | key in tables[|qs|] ensures tables[|qs|][key] <= now {
      var i := EntriesWereAccepted(qs, 0, max, isNew, tables, key);
      assert i < |qs| - 1 ==> qs[i].now <= qs[|qs| - 1].now;
    }
    assert Pruned(tables[|qs|], now, 0) == map[] && Window(Unbounded(qs, 0), now, 0) == map[];
  }

  /** While every window fits, the bounded filter gives the answers of the unbounded one. */
  lemma {:induction false} AnswersCoincide(qs: seq<Query>, ttl: nat, max: nat, isNew: seq<bool>, tables: seq<Table>)
    requires Trace(qs, ttl, max, isNew, tables) && ClockRuns(qs) && WindowsFit(qs, ttl, max)
    ensures qs != [] ==> (isNew[|qs| - 1] <==> UnboundedFresh(qs, ttl))
    ensures forall now :: (qs == [] || qs[|qs| - 1].now <= now) ==> Agree(tables[|qs|], Unbounded(qs, ttl), now, ttl)
  {
    if qs != [] {
      var n := |qs| - 1;
      var q := qs[n];
      assert ClockRuns(qs[..n]);
      AnswersCoincide(qs[..n], ttl, max, isNew[..n], tables[..n + 1]);
      assert tables[..n + 1][n] == tables[n];
      assert n > 0 ==> qs[..n][n - 1].now <= q.now;
      var t := Unbounded(qs[..n], ttl);
      if ttl == 0 {
        NothingRecent(qs[..n], max, isNew[..n], tables[..n + 1], q.now);
        assert !Recent(t, q.key, q.now, 0) && !Recent(tables[n], q.key, q.now, 0);
        forall now | q.now <= now ensures Agree(tables[|qs|], Unbounded(qs, ttl), now, ttl) {
          NothingRecent(qs, max, isNew, tables, now);
        }
      } else {
        assert Agree(tables[n], t, q.now, ttl);
        CheckAgrees(tables[n], t, q.key, q.now, ttl, max, isNew[n], tables[n + 1]);
        forall now | q.now <= now ensures Agree(tables[|qs|], Unbounded(qs, ttl), now, ttl) {
          AgreeLater(tables[|qs|], Unbounded(qs, ttl), q.now, now, ttl);
        }
      }
    }
  }

  /**
   * As soon as a window does not fit, the difference can be seen: some key the unbounded filter calls a
   * duplicate is called new when it is asked for right away.
   */
  lemma OverflowShows(qs: seq<Query>, ttl: nat, max: nat, isNew: seq<bool>, tables: seq<Table>) returns (key: string)
    requires Trace(qs, ttl, max, isNew, tables) && ClockRuns(qs) && qs != []
    requires WindowsFit(qs[..|qs| - 1], ttl, max) && !WindowsFit(qs, ttl, max)
    ensures var now := qs[|qs| - 1].now;
            Recent(Unbounded(qs, ttl), key, now, ttl) && !Recent(tables[|qs|], key, now, ttl)
  {
    var n := |qs| - 1;
    var q, t := qs[n], Unbounded(qs[..n], ttl);
    assert ClockRuns(qs[..n]);
    AnswersCoincide(qs[..n], ttl, max, isNew[..n], tables[..n + 1]);
    assert tables[..n + 1][n] == tables[n];
    assert n > 0 ==> qs[..n][n - 1].now <= q.now;
    UnboundedPast(qs, ttl);
    ZeroWindow(Unbounded(qs, ttl), q.now);
    hide Trace, ClockRuns, Checked, Agree, Window, Recent;
    key := OverflowStep(tables[n], t, q.key, q.now, ttl, max, isNew[n], tables[n + 1]);
  }

  /** One call after which too many keys count: some key is forgotten. */
  lemma OverflowStep(seen: Table, t: Table, key: string, now: int, ttl: nat, max: nat, isNew: bool, seen': Table)
    returns (lost: string)
    requires Agree(seen, t, now, ttl) && Checked(seen, key, now, ttl, max, isNew, seen') && ttl > 0
             && !Recent(t, key, now, ttl)
    requires |Window(t[key := now], now, ttl)| > max
    ensures Recent(t[key := now], lost, now, ttl) && !Recent(seen', lost, now, ttl)
  {
    AgreeMeansSameAnswers(seen, t, now, ttl);
    var full := Pruned(seen, now, ttl)[key := now];
    assert Window(t[key := now], now, ttl) == full;
    assert full.Keys != seen'.Keys;
    lost :| lost in full && lost !in seen';
  }
}
