/**
 * The crash-resumable table copy of `crates/aginx-memory/src/migrate.rs`: tables are copied one after the
 * other in batched transactions, and a finished table is recorded so that a later run skips it.
 *
 * A run gets a number of statements it may execute; when they are used up it stops there, and whatever
 * was not committed is gone. Every way of interrupting a run is some such number.
 */
module TableCopy {
  import opened Common

  const BATCH_SIZE: nat := 1000

  datatype Row = Row(key: string, value: string)

  /** `guarded` tables are written with ON CONFLICT DO NOTHING on the key. */
  datatype Table = Table(name: string, rows: seq<Row>, guarded: bool)

  /** What survives a crash: the committed rows of every table, and the recorded tables. */
  datatype Target = Target(tables: map<string, seq<Row>>, recorded: set<string>)

  const EMPTY_TARGET := Target(map[], {})

  predicate HasKey(rows: seq<Row>, key: string) {
    exists i :: 0 <= i < |rows| && rows[i].key == key
  }

  function Insert(rows: seq<Row>, r: Row, guarded: bool): seq<Row> {
    if guarded && HasKey(rows, r.key) then rows else rows + [r]
  }

  function InsertAll(rows: seq<Row>, more: seq<Row>, guarded: bool): seq<Row> {
    if more == [] then rows
    else Insert(InsertAll(rows, more[..|more| - 1], guarded), more[|more| - 1], guarded)
  }

  // ---------------------------------------------------------------------------------------------
  // One table
  // ---------------------------------------------------------------------------------------------

  predicate EndsBatch(n: nat) {
    n % BATCH_SIZE == 0
  }

  /** What one attempt left behind: the committed rows, the statements left, and whether it came to its end. */
  datatype Attempt = Attempt(rows: seq<Row>, left: nat, ok: bool)

  /** The loop from row `n` on, with `tx` the view of the open transaction. */
  function Copy(t: Table, committed: seq<Row>, tx: seq<Row>, n: nat, left: nat): Attempt
    requires n <= |t.rows|
    decreases |t.rows| - n
  {
    if left == 0 then Attempt(committed, 0, false)
    else if n == |t.rows| then Attempt(tx, left - 1, true)
    else
      var tx' := Insert(tx, t.rows[n], t.guarded);
      if !EndsBatch(n + 1) then Copy(t, committed, tx', n + 1, left - 1)
      else if left == 1 then Attempt(committed, 0, false)
      else Copy(t, tx', tx', n + 1, left - 2)
  }

  function RowsOf(g: Target, name: string): seq<Row> {
    if name in g.tables then g.tables[name] else []
  }

  datatype Outcome = Outcome(target: Target, left: nat, ok: bool)

  function RunTable(t: Table, g: Target, left: nat): Outcome {
    if t.name in g.recorded then Outcome(g, left, true)
    else
      var rows := RowsOf(g, t.name);
      var a := Copy(t, rows, rows, 0, left);
      var g1 := g.(tables := g.tables[t.name := a.rows]);
      if !a.ok || a.left == 0 then Outcome(g1, 0, false)
      else Outcome(g1.(recorded := g1.recorded + {t.name}), a.left - 1, true)
  }

  function RunMigration(source: seq<Table>, g: Target, left: nat): Outcome {
    if source == [] then Outcome(g, left, true)
    else
      var o := RunTable(source[0], g, left);
      if o.ok then RunMigration(source[1..], o.target, o.left) else o
  }

  class Migration {
    var tables: map<string, seq<Row>>
    var recorded: set<string>

    constructor ()
      ensures Now() == EMPTY_TARGET
    {
      tables, recorded := map[], {};
    }

    ghost function Now(): Target
      reads this
    {
      Target(tables, recorded)
    }

    /** Running out of statements, as any failure does, abandons the open transaction. */
    method Run(source: seq<Table>, statements: nat) returns (left: nat, ok: bool)
      modifies this
      ensures Outcome(Now(), left, ok) == RunMigration(source, old(Now()), statements)
    {
      left, ok := statements, true;
      for i := 0 to |source|
        invariant ok && RunMigration(source, old(Now()), statements) == RunMigration(source[i..], Now(), left)
      {
        assert source[i..][1..] == source[i + 1..];
        left, ok := MigrateTable(source[i], left);
        if !ok {
          return;
        }
      }
    }

    method MigrateTable(t: Table, statements: nat) returns (left: nat, ok: bool)
      modifies this
      ensures Outcome(Now(), left, ok) == RunTable(t, old(Now()), statements)
    {
      left := statements;
      if t.name in recorded {
        return left, true;
      }
      left, ok := CopyRows(t, left);
      if !ok || left == 0 {
        return 0, false;
      }
      recorded := recorded + {t.name};
      left := left - 1;
    }

    method CopyRows(t: Table, statements: nat) returns (left: nat, ok: bool)
      modifies this`tables
      ensures var rows := RowsOf(old(Now()), t.name);
              var a := Copy(t, rows, rows, 0, statements);
              tables == old(tables)[t.name := a.rows] && left == a.left && ok == a.ok
    {
      var committed := if t.name in tables then tables[t.name] else [];
      var tx, n := committed, 0;
      left := statements;
      tables := tables[t.name := committed];
      while n < |t.rows|
        invariant n <= |t.rows| && tables == old(tables)[t.name := committed]
        invariant Copy(t, committed, tx, n, left)
                  == Copy(t, RowsOf(old(Now()), t.name), RowsOf(old(Now()), t.name), 0, statements)
      {
        if left == 0 {
          return 0, false;
        }
        tx := Insert(tx, t.rows[n], t.guarded);
        left := left - 1;
        n := n + 1;
        if EndsBatch(n) {
          if left == 0 {
            return 0, false;
          }
          committed := tx;
          tables := tables[t.name := committed];
          left := left - 1;
        }
      }
      if left == 0 {
        return 0, false;
      }
      tables := tables[t.name := tx];
      return left - 1, true;
    }
  }

  // ---------------------------------------------------------------------------------------------
  // What is in a guarded table
  // ---------------------------------------------------------------------------------------------

  predicate DistinctKeys(rows: seq<Row>) {
    forall i, j :: 0 <= i < j < |rows| ==> rows[i].key != rows[j].key
  }

  /** The first source row with the key. */
  predicate FirstWithKey(rows: seq<Row>, r: Row) {
    exists i :: 0 <= i < |rows| && rows[i] == r && forall j :: 0 <= j < i ==> rows[j].key != r.key
  }

  lemma {:induction false} SameKeys(rows: seq<Row>, k: string)
    ensures HasKey(InsertAll([], rows, true), k) <==> HasKey(rows, k)
  {
    if rows != [] {
      var n := |rows| - 1;
      SameKeys(rows[..n], k);
      SameKeys(rows[..n], rows[n].key);
      assert rows == rows[..n] + [rows[n]];
      KeySnoc(rows[..n], rows[n], k);
      KeySnoc(InsertAll([], rows[..n], true), rows[n], k);
    }
  }

  lemma {:induction false} CopiesAreFirst(rows: seq<Row>)
    ensures forall i :: 0 <= i < |InsertAll([], rows, true)| ==> FirstWithKey(rows, InsertAll([], rows, true)[i])
  {
    if rows != [] {
      hide HasKey;
      var n := |rows| - 1;
      var before := rows[..n];
      CopiesAreFirst(before);
      var t0, t := InsertAll([], before, true), InsertAll([], rows, true);
      forall i | 0 <= i < |t| ensures FirstWithKey(rows, t[i]) {
        if i < |t0| {
          FirstSnoc(rows, t[i]);
        } else {
          SameKeys(before, rows[n].key);
          NewIsFirst(rows);
        }
      }
    }
  }

  lemma FirstSnoc(rows: seq<Row>, r: Row)
    requires rows != [] && FirstWithKey(rows[..|rows| - 1], r)
    ensures FirstWithKey(rows, r)
  {
    var before := rows[..|rows| - 1];
    var j :| 0 <= j < |before| && before[j] == r && forall m :: 0 <= m < j ==> before[m].key != r.key;
    forall m | 0 <= m < j ensures rows[m].key != r.key {
      assert rows[m] == before[m];
    }
    assert rows[j] == r;
  }

  lemma NewIsFirst(rows: seq<Row>)
    requires rows != [] && !HasKey(rows[..|rows| - 1], rows[|rows| - 1].key)
    ensures FirstWithKey(rows, rows[|rows| - 1])
  {
    var n := |rows| - 1;
    forall m | 0 <= m < n ensures rows[m].key != rows[n].key {
      assert rows[..n][m] == rows[m];
    }
  }

  lemma {:induction false} KeysStayDistinct(rows: seq<Row>)
    ensures DistinctKeys(InsertAll([], rows, true))
  {
    if rows != [] {
      KeysStayDistinct(rows[..|rows| - 1]);
    }
  }

  /** Copying into an empty guarded table leaves exactly one row per source key, the first one that has it. */
  lemma OneRowPerKey(rows: seq<Row>)
    ensures var t := InsertAll([], rows, true);
            && DistinctKeys(t)
            && (forall k :: HasKey(t, k) <==> HasKey(rows, k))
            && forall i :: 0 <= i < |t| ==> FirstWithKey(rows, t[i])
  {
    hide *;
    forall k ensures HasKey(InsertAll([], rows, true), k) <==> HasKey(rows, k) {
      SameKeys(rows, k);
    }
    KeysStayDistinct(rows);
    CopiesAreFirst(rows);
  }

  lemma KeySnoc(rows: seq<Row>, r: Row, k: string)
    ensures HasKey(rows + [r], k) <==> HasKey(rows, k) || r.key == k
  {
    if HasKey(rows, k) {
      var i :| 0 <= i < |rows| && rows[i].key == k;
      assert (rows + [r])[i].key == k;
    }
    assert (rows + [r])[|rows|] == r;
  }

  lemma {:induction false} InsertAllConcat(rows: seq<Row>, a: seq<Row>, b: seq<Row>, guarded: bool)
    ensures InsertAll(rows, a + b, guarded) == InsertAll(InsertAll(rows, a, guarded), b, guarded)
  {
    if b == [] {
      assert a + b == a;
    } else {
      assert (a + b)[..|a + b| - 1] == a + b[..|b| - 1];
      InsertAllConcat(rows, a, b[..|b| - 1], guarded);
    }
  }

  lemma {:induction false} InsertKnown(rows: seq<Row>, more: seq<Row>)
    requires forall i :: 0 <= i < |more| ==> HasKey(rows, more[i].key)
    ensures InsertAll(rows, more, true) == rows
  {
    if more != [] {
      InsertKnown(rows, more[..|more| - 1]);
    }
  }

  /** Copying a prefix again adds nothing; copying a longer one adds only what is new. */
  lemma CopyAgain(rows: seq<Row>, m: nat, k: nat)
    requires m <= |rows| && k <= |rows|
    ensures InsertAll(InsertAll([], rows[..m], true), rows[..k], true)
            == InsertAll([], rows[..if m < k then k else m], true)
  {
    var t := InsertAll([], rows[..m], true);
    OneRowPerKey(rows[..m]);
    if m < k {
      assert rows[..k] == rows[..m] + rows[m..k];
      InsertAllConcat(t, rows[..m], rows[m..k], true);
      forall i | 0 <= i < m ensures HasKey(t, rows[..m][i].key) {
        assert HasKey(rows[..m], rows[..m][i].key);
      }
      InsertKnown(t, rows[..m]);
      InsertAllConcat([], rows[..m], rows[m..k], true);
    } else {
      forall i | 0 <= i < k ensures HasKey(t, rows[..k][i].key) {
        assert rows[..m][i] == rows[..k][i];
        assert HasKey(rows[..m], rows[..k][i].key);
      }
      InsertKnown(t, rows[..k]);
    }
  }

  /** The table after copying the first `n` rows into what it held. */
  function CopiedTo(t: Table, start: seq<Row>, n: nat): seq<Row>
    requires n <= |t.rows|
  {
    InsertAll(start, t.rows[..n], t.guarded)
  }

  lemma CopiedNext(t: Table, start: seq<Row>, n: nat)
    requires n < |t.rows|
    ensures CopiedTo(t, start, n + 1) == Insert(CopiedTo(t, start, n), t.rows[n], t.guarded)
  {
    assert t.rows[..n + 1][..n] == t.rows[..n];
  }

  /** An attempt commits a prefix of the rows, all of them if it came to its end. */
  lemma {:induction false} CopyCommitsPrefix(t: Table, start: seq<Row>, done: nat, n: nat, left: nat) returns (m: nat)
    requires done <= n <= |t.rows|
    ensures var a := Copy(t, CopiedTo(t, start, done), CopiedTo(t, start, n), n, left);
            && m <= |t.rows| && a.rows == CopiedTo(t, start, m)
            && (a.ok ==> m == |t.rows|)
            && (m == done || m == |t.rows| || EndsBatch(m))
    decreases |t.rows| - n
  {
    hide CopiedTo, EndsBatch, Insert;
    if left == 0 {
      m := done;
    } else if n == |t.rows| {
      m := n;
    } else {
      CopiedNext(t, start, n);
      if !EndsBatch(n + 1) {
        m := CopyCommitsPrefix(t, start, done, n + 1, left - 1);
      } else if left == 1 {
        m := done;
      } else {
        m := CopyCommitsPrefix(t, start, n + 1, n + 1, left - 2);
      }
    }
  }

  /** The statements of the first `n` rows: one for each row, and one for each commit of 1000 rows. */
  function Cost(n: nat): nat {
    n + n / 1000
  }

  /** The rows whose commits the statements pay for. */
  function Paid(rows: nat, statements: nat): nat {
    1000 * Min(statements / 1001, rows / 1000)
  }

  lemma CostTurn(n: nat)
    ensures EndsBatch(n + 1) <==> (n + 1) / 1000 == n / 1000 + 1
    ensures !EndsBatch(n + 1) <==> (n + 1) / 1000 == n / 1000
    ensures EndsBatch(n + 1) ==> 1000 * ((n + 1) / 1000) == n + 1
    ensures Cost(n) / 1001 == n / 1000 && (EndsBatch(n + 1) ==> (Cost(n) + 1) / 1001 == n / 1000)
  {
  }

  lemma {:induction false} CommitsFrom(t: Table, start: seq<Row>, n: nat, left: nat)
    requires n <= |t.rows|
    ensures var a := Copy(t, CopiedTo(t, start, 1000 * (n / 1000)), CopiedTo(t, start, n), n, left);
            var ok, paid := Cost(n) + left > Cost(|t.rows|), Paid(|t.rows|, Cost(n) + left);
            paid <= |t.rows| && a.ok == ok && a.rows == CopiedTo(t, start, if ok then |t.rows| else paid)
    decreases |t.rows| - n
  {
    hide CopiedTo, EndsBatch, Insert;
    CostTurn(n);
    if left > 0 && n < |t.rows| {
      CopiedNext(t, start, n);
      if !EndsBatch(n + 1) {
        CommitsFrom(t, start, n + 1, left - 1);
      } else if left > 1 {
        CommitsFrom(t, start, n + 1, left - 2);
      }
    }
  }

  /**
   * How far an attempt gets: it comes to its end exactly when it may execute more statements than the rows and their
   * commits, 1000 rows to a commit, take; otherwise it leaves the batches it could pay for.
   */
  lemma AttemptCommitsExactly(t: Table, start: seq<Row>, left: nat)
    ensures var a, all := Copy(t, start, start, 0, left), |t.rows|;
            var paid := 1000 * Min(left / 1001, all / 1000);
            && paid <= all && (a.ok <==> left > all + all / 1000)
            && a.rows == InsertAll(start, t.rows[..if a.ok then all else paid], t.guarded)
  {
    CommitsFrom(t, start, 0, left);
    assert t.rows[..0] == [];
    hide Copy, InsertAll;
  }

  // ---------------------------------------------------------------------------------------------
  // Any number of interrupted runs
  // ---------------------------------------------------------------------------------------------

  ghost predicate DistinctNames(source: seq<Table>) {
    forall i, j :: 0 <= i < j < |source| ==> source[i].name != source[j].name
  }

  /** One run: the tables as it listed them, and the statements it got to execute. */
  datatype Attempted = Attempted(source: seq<Table>, statements: nat)

  /** The target after some runs, starting from nothing. */
  function AfterRuns(runs: seq<Attempted>): Target {
    if runs == [] then EMPTY_TARGET
    else
      var last := runs[|runs| - 1];
      RunMigration(last.source, AfterRuns(runs[..|runs| - 1]), last.statements).target
  }

  lemma RunsSnoc(runs: seq<Attempted>, last: Attempted)
    ensures AfterRuns(runs + [last]) == RunMigration(last.source, AfterRuns(runs), last.statements).target
  {
    assert (runs + [last])[..|runs|] == runs;
  }

  // ---------------------------------------------------------------------------------------------
  // Recorded tables
  // ---------------------------------------------------------------------------------------------

  lemma {:induction false} RunSkipsRecorded(source: seq<Table>, g: Target, left: nat, name: string)
    requires name in g.recorded
    ensures var g' := RunMigration(source, g, left).target;
            name in g'.recorded && RowsOf(g', name) == RowsOf(g, name)
  {
    hide Copy;
    if source != [] {
      var o := RunTable(source[0], g, left);
      if o.ok {
        RunSkipsRecorded(source[1..], o.target, o.left, name);
      }
    }
  }

  /** A recorded table is never written again, by any run of any source however it ends. */
  lemma RecordedTablesAreFrozen(runs: seq<Attempted>, last: Attempted, name: string)
    requires name in AfterRuns(runs).recorded
    ensures var g, g' := AfterRuns(runs), AfterRuns(runs + [last]);
            name in g'.recorded && RowsOf(g', name) == RowsOf(g, name)
  {
    hide RunMigration, AfterRuns;
    RunsSnoc(runs, last);
    RunSkipsRecorded(last.source, AfterRuns(runs), last.statements, name);
  }

  // ---------------------------------------------------------------------------------------------
  // Runs that list the rows in different orders
  // ---------------------------------------------------------------------------------------------

  predicate SameRows(a: seq<Row>, b: seq<Row>) {
    (forall r :: r in a ==> r in b) && forall r :: r in b ==> r in a
  }

  /** Another listing of the same tables: the same names and conflict clauses, the rows in any order. */
  predicate Lists(source: seq<Table>, listing: seq<Table>) {
    && |listing| == |source|
    && forall i :: 0 <= i < |source| ==>
         listing[i].name == source[i].name && listing[i].guarded == source[i].guarded
           && SameRows(listing[i].rows, source[i].rows)
  }

  /** No two rows of one key, only rows of the source, and every key of the source once the table is recorded. */
  predicate HoldsSome(t: Table, g: Target) {
    t.guarded ==>
      && DistinctKeys(RowsOf(g, t.name)) && (forall r :: r in RowsOf(g, t.name) ==> r in t.rows)
      && (t.name in g.recorded ==> forall i :: 0 <= i < |t.rows| ==> HasKey(RowsOf(g, t.name), t.rows[i].key))
  }

  predicate AllHoldSome(source: seq<Table>, g: Target) {
    forall i :: 0 <= i < |source| ==> HoldsSome(source[i], g)
  }

  lemma InsertKeeps(start: seq<Row>, r: Row)
    requires DistinctKeys(start)
    ensures var t := Insert(start, r, true);
            DistinctKeys(t) && HasKey(t, r.key) && (forall x :: x in t ==> x in start || x == r) && start <= t
  {
    if !HasKey(start, r.key) {
      KeySnoc(start, r, r.key);
    }
  }

  lemma KeyStays(a: seq<Row>, b: seq<Row>, k: string)
    requires a <= b && HasKey(a, k)
    ensures HasKey(b, k)
  {
    var i :| 0 <= i < |a| && a[i].key == k;
    assert b[i].key == k;
  }

  lemma {:induction false} InsertAllKeeps(start: seq<Row>, more: seq<Row>)
    requires DistinctKeys(start)
    ensures var t := InsertAll(start, more, true);
            && DistinctKeys(t) && start <= t
            && (forall i :: 0 <= i < |more| ==> HasKey(t, more[i].key))
            && forall x :: x in t ==> x in start || x in more
  {
    if more != [] {
      var front, last := more[..|more| - 1], more[|more| - 1];
      InsertAllKeeps(start, front);
      var t0, t := InsertAll(start, front, true), InsertAll(start, more, true);
      hide InsertAll, Insert, HasKey, DistinctKeys;
      InsertAllTurn(start, more);
      InsertKeeps(t0, last);
      forall i | 0 <= i < |more| ensures HasKey(t, more[i].key) {
        if i < |front| {
          assert front[i] == more[i];
          KeyStays(t0, t, more[i].key);
        }
      }
    }
  }

  lemma InsertAllTurn(start: seq<Row>, more: seq<Row>)
    requires more != []
    ensures InsertAll(start, more, true) == Insert(InsertAll(start, more[..|more| - 1], true), more[|more| - 1], true)
  {
  }

  /** A table that another run listed in its own order keeps what is promised of it. */
  lemma RunTableHolds(t: Table, listed: Table, g: Target, left: nat)
    requires HoldsSome(t, g) && listed.name == t.name && listed.guarded == t.guarded && SameRows(listed.rows, t.rows)
    ensures var o := RunTable(listed, g, left);
            HoldsSome(t, o.target) && (o.ok ==> t.name in o.target.recorded)
  {
    var o := RunTable(listed, g, left);
    if t.name !in g.recorded && t.guarded {
      hide Copy, InsertAll, HasKey, DistinctKeys;
      var rows := RowsOf(g, t.name);
      NothingCopied(listed, rows);
      var k := CopyCommitsPrefix(listed, rows, 0, 0, left);
      InsertAllKeeps(rows, listed.rows[..k]);
      assert forall r :: r in listed.rows[..k] ==> r in listed.rows;
      if o.ok {
        assert listed.rows[..k] == listed.rows;
        forall i | 0 <= i < |t.rows| ensures HasKey(RowsOf(o.target, t.name), t.rows[i].key) {
          assert t.rows[i] in listed.rows;
        }
      }
    }
  }

  lemma NothingCopied(t: Table, start: seq<Row>)
    ensures CopiedTo(t, start, 0) == start
  {
    assert t.rows[..0] == [];
  }

  lemma OtherTables(t: Table, g: Target, left: nat, name: string)
    requires name != t.name
    ensures var g' := RunTable(t, g, left).target;
            RowsOf(g', name) == RowsOf(g, name) && (name in g'.recorded <==> name in g.recorded)
  {
    hide Copy;
  }

  lemma SameHolds(t: Table, g: Target, g': Target)
    requires HoldsSome(t, g) && RowsOf(g', t.name) == RowsOf(g, t.name)
             && (t.name in g'.recorded <==> t.name in g.recorded)
    ensures HoldsSome(t, g')
  {
  }

  lemma {:induction false} RunHolds(source: seq<Table>, listing: seq<Table>, n: nat, g: Target, left: nat)
    requires DistinctNames(source) && Lists(source, listing) && n <= |source| && AllHoldSome(source, g)
    ensures var o := RunMigration(listing[n..], g, left);
            && AllHoldSome(source, o.target)
            && (o.ok ==> forall i :: n <= i < |source| ==> source[i].name in o.target.recorded)
    decreases |source| - n
  {
    hide HoldsSome, SameRows, RunTable;
    if n < |source| {
      var o := RunTable(listing[n], g, left);
      assert listing[n..][1..] == listing[n + 1..];
      RunTableHolds(source[n], listing[n], g, left);
      forall i | 0 <= i < |source| ensures HoldsSome(source[i], o.target) {
        if i != n {
          assert source[i].name != source[n].name;
          OtherTables(listing[n], g, left, source[i].name);
          SameHolds(source[i], g, o.target);
        }
      }
      if o.ok {
        RunHolds(source, listing, n + 1, o.target, o.left);
        RunSkipsRecorded(listing[n + 1..], o.target, o.left, source[n].name);
      }
    }
  }

  lemma {:induction false} RunsHold(source: seq<Table>, runs: seq<Attempted>)
    requires DistinctNames(source) && forall i :: 0 <= i < |runs| ==> Lists(source, runs[i].source)
    ensures AllHoldSome(source, AfterRuns(runs))
  {
    hide Lists, RunMigration;
    if runs == [] {
      NothingHeld(source);
    } else {
      var last := runs[|runs| - 1];
      RunsHold(source, runs[..|runs| - 1]);
      RunHolds(source, last.source, 0, AfterRuns(runs[..|runs| - 1]), last.statements);
      assert last.source[0..] == last.source;
    }
  }

  lemma NothingHeld(source: seq<Table>)
    ensures AllHoldSome(source, EMPTY_TARGET)
  {
  }

  /**
   * However many runs were interrupted, wherever, and in whatever order each listed the rows, one run that
   * comes to its end leaves in every guarded table exactly one row per source key, a row of the source.
   */
  lemma {:induction false} ResumedCopyIsComplete(source: seq<Table>, runs: seq<Attempted>, last: Attempted, i: nat)
    requires DistinctNames(source) && i < |source| && source[i].guarded
    requires Lists(source, last.source) && forall j :: 0 <= j < |runs| ==> Lists(source, runs[j].source)
    requires RunMigration(last.source, AfterRuns(runs), last.statements).ok
    ensures var rows := RowsOf(AfterRuns(runs + [last]), source[i].name);
            && DistinctKeys(rows) && (forall k :: HasKey(rows, k) <==> HasKey(source[i].rows, k))
            && forall r :: r in rows ==> r in source[i].rows
  {
    hide RunMigration, AfterRuns, Lists;
    RunsHold(source, runs);
    RunsSnoc(runs, last);
    RunHolds(source, last.source, 0, AfterRuns(runs), last.statements);
    assert last.source[0..] == last.source by {
      SameLength(source, last.source);
    }
    var g := AfterRuns(runs + [last]);
    assert HoldsSome(source[i], g) && source[i].name in g.recorded;
    HoldsAll(source[i], g);
  }

  lemma HoldsAll(t: Table, g: Target)
    requires t.guarded && t.name in g.recorded && HoldsSome(t, g)
    ensures var rows := RowsOf(g, t.name);
            && DistinctKeys(rows) && (forall k :: HasKey(rows, k) <==> HasKey(t.rows, k))
            && forall r :: r in rows ==> r in t.rows
  {
    var rows := RowsOf(g, t.name);
    forall k ensures HasKey(rows, k) <==> HasKey(t.rows, k) {
      if HasKey(rows, k) {
        var i :| 0 <= i < |rows| && rows[i].key == k;
        assert rows[i] in t.rows;
      }
    }
  }

  lemma SameLength(source: seq<Table>, listing: seq<Table>)
    requires Lists(source, listing)
    ensures |listing| == |source|
  {
  }

  // ---------------------------------------------------------------------------------------------
  // Runs that all list the rows in the same order
  // ---------------------------------------------------------------------------------------------

  /** A guarded table holds the copy of a prefix of its source, of all of it once it is recorded. */
  ghost predicate TableOk(t: Table, g: Target) {
    t.guarded ==>
      exists m: nat :: m <= |t.rows| && RowsOf(g, t.name) == InsertAll([], t.rows[..m], true)
        && (t.name in g.recorded ==> m == |t.rows|)
  }

  ghost predicate AllOk(source: seq<Table>, g: Target) {
    forall i :: 0 <= i < |source| ==> TableOk(source[i], g)
  }

  lemma RunTableKeeps(t: Table, g: Target, left: nat)
    requires TableOk(t, g)
    ensures var o := RunTable(t, g, left);
            && TableOk(t, o.target) && (o.ok ==> t.name in o.target.recorded)
            && g.recorded <= o.target.recorded
            && (forall name :: name != t.name || name in g.recorded ==> RowsOf(o.target, name) == RowsOf(g, name))
            && (forall name :: name != t.name ==> (name in o.target.recorded <==> name in g.recorded))
  {
    var o := RunTable(t, g, left);
    if t.name !in g.recorded && t.guarded {
      var rows := RowsOf(g, t.name);
      var m: nat :| m <= |t.rows| && rows == InsertAll([], t.rows[..m], true);
      assert t.rows[..0] == [];
      var k := CopyCommitsPrefix(t, rows, 0, 0, left);
      CopyAgain(t.rows, m, k);
      var top := if m < k then k else m;
      assert RowsOf(o.target, t.name) == InsertAll([], t.rows[..top], true);
    }
  }

  lemma {:induction false} RunKeeps(source: seq<Table>, all: seq<Table>, g: Target, left: nat)
    requires DistinctNames(all) && AllOk(all, g) && |source| <= |all| && source == all[|all| - |source|..]
    ensures var o := RunMigration(source, g, left);
            && AllOk(all, o.target) && g.recorded <= o.target.recorded
            && (forall name :: name in g.recorded ==> RowsOf(o.target, name) == RowsOf(g, name))
            && (o.ok ==> forall i :: 0 <= i < |source| ==> source[i].name in o.target.recorded)
    decreases |source|
  {
    if source != [] {
      var at := |all| - |source|;
      var o := RunTable(source[0], g, left);
      assert source[0] == all[at] && source[1..] == all[at + 1..];
      RunTableKeeps(source[0], g, left);
      forall i | 0 <= i < |all| ensures TableOk(all[i], o.target) {
        if i != at {
          assert all[i].name != all[at].name;
          SameTable(all[i], g, o.target);
        }
      }
      if o.ok {
        RunKeeps(source[1..], all, o.target, o.left);
      }
    }
  }

  lemma SameTable(t: Table, g: Target, g': Target)
    requires TableOk(t, g) && RowsOf(g', t.name) == RowsOf(g, t.name)
             && (t.name in g'.recorded <==> t.name in g.recorded)
    ensures TableOk(t, g')
  {
  }

  lemma {:induction false} RunsKeep(source: seq<Table>, runs: seq<Attempted>)
    requires DistinctNames(source) && forall i :: 0 <= i < |runs| ==> runs[i].source == source
    ensures AllOk(source, AfterRuns(runs))
  {
    if runs == [] {
      forall i | 0 <= i < |source| ensures TableOk(source[i], EMPTY_TARGET) {
        assert RowsOf(EMPTY_TARGET, source[i].name) == InsertAll([], source[i].rows[..0], true);
      }
    } else {
      hide RunMigration, AllOk;
      RunsKeep(source, runs[..|runs| - 1]);
      RunKeeps(source, source, AfterRuns(runs[..|runs| - 1]), runs[|runs| - 1].statements);
    }
  }

  /** In one fixed order, the runs leave exactly what a single uninterrupted copy would have. */
  lemma {:induction false} ResumedInOrderIsTheCopy(source: seq<Table>, runs: seq<Attempted>, last: Attempted, i: nat)
    requires DistinctNames(source) && i < |source| && source[i].guarded
    requires last.source == source && forall j :: 0 <= j < |runs| ==> runs[j].source == source
    requires RunMigration(source, AfterRuns(runs), last.statements).ok
    ensures RowsOf(AfterRuns(runs + [last]), source[i].name) == InsertAll([], source[i].rows, true)
  {
    hide RunMigration, AfterRuns;
    RunsKeep(source, runs);
    RunsSnoc(runs, last);
    RunKeeps(source, source, AfterRuns(runs), last.statements);
    var g := AfterRuns(runs + [last]);
    assert TableOk(source[i], g) && source[i].name in g.recorded;
    assert source[i].rows[..|source[i].rows|] == source[i].rows;
  }

  // ---------------------------------------------------------------------------------------------
  // The table without a conflict clause
  // ---------------------------------------------------------------------------------------------

  lemma {:induction false} InsertAllPlain(rows: seq<Row>, more: seq<Row>)
    ensures InsertAll(rows, more, false) == rows + more
  {
    if more == [] {
      assert rows + more == rows;
    } else {
      InsertAllPlain(rows, more[..|more| - 1]);
      assert rows + more == rows + more[..|more| - 1] + [more[|more| - 1]];
    }
  }

  /** A finished copy of an unguarded table is exact if and only if no earlier attempt had committed a batch. */
  lemma UnguardedCopyExactlyWhen(t: Table, g: Target, left: nat)
    requires !t.guarded && t.name !in g.recorded && RunTable(t, g, left).ok
    ensures RowsOf(RunTable(t, g, left).target, t.name) == RowsOf(g, t.name) + t.rows
    ensures RowsOf(RunTable(t, g, left).target, t.name) == t.rows <==> RowsOf(g, t.name) == []
  {
    var rows := RowsOf(g, t.name);
    assert t.rows[..0] == [];
    var m := CopyCommitsPrefix(t, rows, 0, 0, left);
    assert t.rows[..m] == t.rows;
    InsertAllPlain(rows, t.rows);
    assert |rows + t.rows| == |rows| + |t.rows|;
  }

  /** Stopping between the commit of a one-row history and its record, and running again, doubles the row. */
  lemma HistoryCanDouble()
    ensures var r := Row("k", "v");
            var source := [Table("kv_history", [r], false)];
            RowsOf(AfterRuns([Attempted(source, 2), Attempted(source, 10)]), "kv_history") == [r, r]
  {
    var r := Row("k", "v");
    var t := Table("kv_history", [r], false);
    var source := [t];
    var one, two := Attempted(source, 2), Attempted(source, 10);
    assert [one, two] == [] + [one] + [two];
    RunsSnoc([], one);
    RunsSnoc([] + [one], two);
    OneRowCopied(r, [], 2);
    OneRowCopied(r, [r], 10);
    var g := RunTable(t, EMPTY_TARGET, 2).target;
    assert RowsOf(g, "kv_history") == [r] && g.recorded == {};
    assert AfterRuns([] + [one]) == g;
    assert RunMigration(source[1..], RunTable(t, g, 10).target, RunTable(t, g, 10).left).target
           == RunTable(t, g, 10).target;
    assert RowsOf(RunTable(t, g, 10).target, "kv_history") == [r] + [r];
  }

  lemma OneRowCopied(r: Row, rows: seq<Row>, left: nat)
    requires left >= 2
    ensures Copy(Table("kv_history", [r], false), rows, rows, 0, left) == Attempt(rows + [r], left - 2, true)
  {
    assert Copy(Table("kv_history", [r], false), rows, rows + [r], 1, left - 1) == Attempt(rows + [r], left - 2, true);
  }
}
