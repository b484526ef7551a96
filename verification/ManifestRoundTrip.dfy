/**
 * Collecting a workspace, writing the files into an empty one and collecting that again: the filter on
 * incoming files accepts what the walk selects, and the file map comes back.
 */
module ManifestRoundTrip {
  import opened Common
  import opened FileTree
  import opened PathText
  import opened Manifest

  const PYCACHE: string := "__pycache__"

  /** A name a directory can hold, without a backslash. */
  predicate GoodName(n: Name) {
    n != "" && n != "." && n != ".." && Plain(n) && '\\' !in n
  }

  predicate GoodPath(p: Path) {
    p != [] && forall i :: 0 <= i < |p| ==> GoodName(p[i])
  }

  ghost predicate GoodNames(t: Entry) {
    forall p :: p != [] && KindAt(t, p) != Nothing ==> GoodPath(p)
  }

  predicate Selected(p: Path) {
    p != [] && (forall i :: 0 <= i < |p| ==> NameKept(p[i], i < |p| - 1)) && TopKept(Rel(p))
  }

  // ---------------------------------------------------------------------------------------------
  // What the walk selects
  // ---------------------------------------------------------------------------------------------

  lemma {:induction false} PicksAt(cur: Entry, at: Path, q: Path)
    requires q != []
    ensures Picks(cur, at, q) <==>
            KindAt(cur, q).Content? && (forall i :: 0 <= i < |q| ==> NameKept(q[i], i < |q| - 1))
              && TopKept(Rel(at + q))
    decreases |q|
  {
    hide NameKept, TopKept, Rel;
    if cur.Dir? && q[0] in cur.entries {
      var e := cur.entries[q[0]];
      assert Lookup(Some(cur), q) == Lookup(Some(e), q[1..]);
      if e.Dir? && |q| > 1 {
        PicksAt(e, at + [q[0]], q[1..]);
        assert at + [q[0]] + q[1..] == at + q;
        assert forall i :: 0 <= i < |q[1..]| ==> q[1..][i] == q[i + 1];
        KeptSplit(q);
      } else if e.File? {
        FileHolds(Some(e), q[1..]);
      }
    } else {
      NothingBelow(q[1..]);
    }
  }

  lemma KeptSplit(q: Path)
    requires |q| > 1
    ensures (forall i :: 0 <= i < |q| ==> NameKept(q[i], i < |q| - 1)) <==>
            NameKept(q[0], true) && forall i :: 0 <= i < |q[1..]| ==> NameKept(q[1..][i], i < |q[1..]| - 1)
  {
    hide NameKept;
    if NameKept(q[0], true) && forall i :: 0 <= i < |q[1..]| ==> NameKept(q[1..][i], i < |q[1..]| - 1) {
      forall i | 0 <= i < |q| ensures NameKept(q[i], i < |q| - 1) {
        assert i > 0 ==> q[i] == q[1..][i - 1] && NameKept(q[1..][i - 1], i - 1 < |q[1..]| - 1);
      }
    }
    if forall i :: 0 <= i < |q| ==> NameKept(q[i], i < |q| - 1) {
      forall i | 0 <= i < |q[1..]| ensures NameKept(q[1..][i], i < |q[1..]| - 1) {
        assert q[1..][i] == q[i + 1] && NameKept(q[i + 1], i + 1 < |q| - 1);
      }
    }
  }

  /** The walk selects the files whose path passes the name filters, wherever they are. */
  lemma PicksMeaning(ws: Entry, p: Path)
    ensures Picks(ws, [], p) <==> Selected(p) && KindAt(ws, p).Content?
  {
    if p != [] {
      PicksAt(ws, [], p);
      assert [] + p == p;
    }
  }

  lemma RelIsJoin(p: Path)
    requires GoodPath(p)
    ensures Rel(p) == Join(p) && Split(Rel(p)) == p
  {
    NoBackslash(p);
    SplitJoin(p);
    assert Rel(p) == Join(p);
  }

  lemma {:induction false} NoBackslash(p: Path)
    requires GoodPath(p)
    ensures '\\' !in Join(p)
  {
    if |p| > 1 {
      NoBackslash(p[1..]);
    }
  }

  /** The key is that of a selected file. */
  ghost predicate KeyOf(ws: Entry, k: string) {
    GoodPath(Split(k)) && Rel(Split(k)) == k && Picks(ws, [], Split(k))
  }

  /**
   * In a workspace with ordinary names the collected map is determined: one key per selected file, with its
   * content.
   */
  lemma CollectedMap(ws: Entry, files: map<string, string>, k: string)
    requires GoodNames(ws) && Collects(ws, files)
    ensures k in files <==> KeyOf(ws, k)
    ensures k in files ==> KindAt(ws, Split(k)) == Content(files[k])
  {
    hide Rel, Picks;
    if k in files {
      var p :| Picks(ws, [], p) && Rel(p) == k && FileAt(Some(ws), p) == Some(files[k]);
      PicksMeaning(ws, p);
      RelIsJoin(p);
    }
  }

  // ---------------------------------------------------------------------------------------------
  // What the inbound filter accepts
  // ---------------------------------------------------------------------------------------------

  lemma {:induction false} NamedAll(p: Path)
    requires p == [] || GoodPath(p)
    ensures Named(p) == p
  {
    if p != [] {
      NamedAll(p[1..]);
    }
  }

  lemma SlashFirst(s: string)
    ensures StartsWith(s, "/") ==> Split(s)[0] == ""
  {
  }

  /** A selected file is accepted on the way in unless it is itself named `__pycache__`. */
  lemma InboundAcceptsTheWalk(root: Entry, p: Path, content: string)
    requires GoodPath(p) && Selected(p)
    ensures WriteOne(root, Rel(p), content) ==
            if p[|p| - 1] == PYCACHE then Outcome(root, [PythonBytecode(Rel(p))], None)
              else PlaceFile(root, Rel(p), content)
    ensures Components(Rel(p)) == p && NamesFile(Rel(p))
  {
    hide TopKept, PlaceFile, Rel, NameKept, GoodPath, EndsWith, Split;
    RelIsJoin(p);
    NotTraversing(p);
    NotBytecode(p);
    NamesItself(p);
  }

  lemma NamesItself(p: Path)
    requires GoodPath(p) && Split(Rel(p)) == p
    ensures Components(Rel(p)) == p && NamesFile(Rel(p))
  {
    NamedAll(p);
  }

  lemma NotTraversing(p: Path)
    requires GoodPath(p) && Split(Rel(p)) == p
    ensures !Traverses(Rel(p))
  {
    SlashFirst(Rel(p));
  }

  lemma NotBytecode(p: Path)
    requires GoodPath(p) && forall i :: 0 <= i < |p| ==> NameKept(p[i], i < |p| - 1)
    ensures PYCACHE in Split(Rel(p)) <==> p[|p| - 1] == PYCACHE
    ensures !EndsWith(Rel(p), ".pyc")
  {
    hide EndsWith, Split, Rel;
    RelIsJoin(p);
    JoinEnds(p, ".pyc");
    assert NameKept(p[|p| - 1], false) && p[|p| - 1] in p;
    assert forall i :: 0 <= i < |p| - 1 ==> NameKept(p[i], true);
  }

  // ---------------------------------------------------------------------------------------------
  // What the written workspace holds
  // ---------------------------------------------------------------------------------------------

  function Tmp(p: Path): Path
    requires p != []
  {
    p[..|p| - 1] + [TmpName(p[|p| - 1])]
  }

  lemma PrefixesUp(p: Path, q: Path)
    requires p != []
    ensures q <= p <==> q == p || q <= p[..|p| - 1]
  {
    if q <= p && q != p {
      assert q == p[..|p| - 1][..|q|];
    }
    if q <= p[..|p| - 1] {
      assert q == p[..|q|];
    }
  }

  /** A write into a place that is free puts the file there, creates its ancestors, and leaves no temporary file. */
  lemma PlaceFileByPath(root: Entry, rel: string, content: string, p: Path, q: Path)
    requires p != [] && Components(rel) == p && NamesFile(rel)
    requires forall i {:trigger p[..i]} :: 0 <= i < |p| ==> !KindAt(root, p[..i]).Content?
    requires KindAt(root, p) == Nothing && KindAt(root, Tmp(p)) == Nothing
    ensures var o := PlaceFile(root, rel, content);
            && o.error.None? && o.warnings == []
            && KindAt(o.root, q) == if q == p then Content(content) else if q <= p then Folder
                                    else if p <= q || Tmp(p) <= q then Nothing else KindAt(root, q)
  {
    var up, tmp := p[..|p| - 1], Tmp(p);
    assert tmp[..|tmp| - 1] == up;
    forall i {:trigger up[..i]} | 0 <= i <= |up| ensures !KindAt(root, up[..i]).Content? {
      assert up[..i] == p[..i];
    }
    MkDirsWorks(root, up);
    var made := MkDirs(root, up).value;
    var written := SetAt(made, tmp, Some(content));
    var cleaned := SetAt(written, tmp, None);
    assert TmpName(p[|p| - 1]) != p[|p| - 1];
    assert !(tmp <= up) && !(tmp <= p) && !(p <= tmp) && !(p <= up);
    forall x ensures KindAt(made, x) == if x <= up then Folder else KindAt(root, x) {
      MkDirsByPath(root, up, x);
    }
    assert KindAt(made, up) == Folder;
    forall x
      ensures KindAt(written, x)
              == if !(tmp <= x) then KindAt(made, x) else if x == tmp then Content(content) else Nothing
    {
      SetByPath(made, tmp, Some(content), x);
    }
    assert KindAt(written, up) == Folder;
    forall x ensures KindAt(cleaned, x) == if !(tmp <= x) then KindAt(written, x) else Nothing {
      SetByPath(written, tmp, None, x);
    }
    assert KindAt(cleaned, up) == Folder;
    SetByPath(cleaned, p, Some(content), q);
    PrefixesUp(p, q);
    DirKind(made, tmp);
    DirKind(written, p);
    hide SetAt, MkDirs, KindAt, Components, NamesFile, IsDir, TmpName;
    assert KindAt(written, p) == Nothing;
    assert !IsDir(made, tmp) && !IsDir(written, p);
  }

  lemma DirKind(t: Entry, p: Path)
    ensures IsDir(t, p) <==> KindAt(t, p) == Folder
  {
  }

  /** The workspace holds exactly the files of `ws` at the paths in `done`, and their directories. */
  function Expected(ws: Entry, done: set<Path>, q: Path): Kind {
    if q in done then KindAt(ws, q)
    else if q == [] || exists p :: p in done && q <= p then Folder
    else Nothing
  }

  ghost predicate Laid(root: Entry, ws: Entry, done: set<Path>) {
    forall q {:trigger KindAt(root, q)} :: KindAt(root, q) == Expected(ws, done, q)
  }

  lemma LookupSplit(e: Option<Entry>, a: Path, b: Path)
    ensures Lookup(e, a + b) == Lookup(Lookup(e, a), b)
    decreases |a|
  {
    if a == [] {
      assert a + b == b;
    } else if e.None? {
      assert Lookup(None, b).None? by { NothingBelow(b); }
    } else {
      assert (a + b)[1..] == a[1..] + b;
      LookupSplit(At(e.value, a[0]), a[1..], b);
    }
  }

  lemma NothingBelowFile(t: Entry, a: Path, b: Path)
    requires KindAt(t, a).Content? && a <= b && a != b
    ensures KindAt(t, b) == Nothing
  {
    assert b == a + b[|a|..];
    LookupSplit(Some(t), a, b[|a|..]);
    FileHolds(Lookup(Some(t), a), b[|a|..]);
  }

  ghost predicate AllPicked(ws: Entry, done: set<Path>) {
    forall p :: p in done ==> Selected(p) && KindAt(ws, p).Content?
  }

  lemma TmpIsNotSelected(p: Path, x: Path)
    requires p != [] && Tmp(p) <= x
    ensures !Selected(x)
  {
    hide TopKept, Rel;
    var n := TmpName(p[|p| - 1]);
    assert EndsWith(n, ".duptmp");
    assert x[|p| - 1] == n && !NameKept(n, |p| - 1 < |x| - 1);
  }

  /** Selected files lie beside each other, and no temporary file above one of them. */
  lemma Apart(ws: Entry, done: set<Path>, p: Path)
    requires AllPicked(ws, done + {p}) && p !in done
    ensures p != [] && forall x :: x in done ==> !(p <= x) && !(x <= p) && !(Tmp(p) <= x)
  {
    assert p in done + {p};
    forall x | x in done ensures !(p <= x) && !(x <= p) && !(Tmp(p) <= x) {
      assert x in done + {p};
      if x <= p && x != p {
        NothingBelowFile(ws, x, p);
      }
      if p <= x && x != p {
        NothingBelowFile(ws, p, x);
      }
      if Tmp(p) <= x {
        TmpIsNotSelected(p, x);
      }
    }
  }

  lemma PlaceIsFree(root: Entry, ws: Entry, done: set<Path>, p: Path)
    requires Laid(root, ws, done) && AllPicked(ws, done + {p}) && p !in done
    ensures p != [] && KindAt(root, p) == Nothing && KindAt(root, Tmp(p)) == Nothing
    ensures forall i {:trigger p[..i]} :: 0 <= i < |p| ==> !KindAt(root, p[..i]).Content?
  {
    Apart(ws, done, p);
    hide KindAt, Selected, TmpName;
    assert Expected(ws, done, p) == Nothing;
    assert Expected(ws, done, Tmp(p)) == Nothing;
    forall i {:trigger p[..i]} | 0 <= i < |p| ensures !KindAt(root, p[..i]).Content? {
      assert p[..i] <= p;
      assert !Expected(ws, done, p[..i]).Content?;
    }
  }

  lemma LaidNext(root: Entry, ws: Entry, done: set<Path>, rel: string, p: Path, content: string)
    requires Laid(root, ws, done) && AllPicked(ws, done + {p}) && p !in done
    requires KindAt(ws, p) == Content(content) && Components(rel) == p && NamesFile(rel)
    ensures var o := PlaceFile(root, rel, content);
            o.error.None? && o.warnings == [] && Laid(o.root, ws, done + {p})
  {
    hide PlaceFile, Selected, KindAt, Components, NamesFile, TmpName;
    PlaceIsFree(root, ws, done, p);
    PlaceFileByPath(root, rel, content, p, []);
    var o := PlaceFile(root, rel, content);
    forall q ensures KindAt(o.root, q) == Expected(ws, done + {p}, q) {
      PlaceFileByPath(root, rel, content, p, q);
      NextExpected(root, ws, done, p, q);
    }
  }

  lemma TmpIsBeside(p: Path)
    requires p != []
    ensures !(Tmp(p) <= p) && !(p <= Tmp(p))
  {
    assert Tmp(p)[|p| - 1] != p[|p| - 1];
  }

  lemma NextExpected(root: Entry, ws: Entry, done: set<Path>, p: Path, q: Path)
    requires Laid(root, ws, done) && AllPicked(ws, done + {p}) && p !in done && p != []
    ensures Expected(ws, done + {p}, q) ==
            if q == p then KindAt(ws, p) else if q <= p then Folder
            else if p <= q || Tmp(p) <= q then Nothing else KindAt(root, q)
  {
    hide KindAt, Selected, TmpName, Tmp, AllPicked;
    Apart(ws, done, p);
    TmpIsBeside(p);
    assert p in done + {p};
    if x :| x in done && q <= x {
      assert x in done + {p};
    }
    assert KindAt(root, q) == Expected(ws, done, q);
  }

  // ---------------------------------------------------------------------------------------------
  // The round trip
  // ---------------------------------------------------------------------------------------------

  predicate Accepted(k: string) {
    var p := Split(k);
    p[|p| - 1] != PYCACHE
  }

  ghost function PathsOf(keys: set<string>): set<Path> {
    set k | k in keys && Accepted(k) :: Split(k)
  }

  /** The files still to be written are selected files of `ws`, with their contents. */
  ghost predicate Matches(ws: Entry, files: map<string, string>, rest: set<string>) {
    forall k :: k in rest ==> k in files && KeyOf(ws, k) && KindAt(ws, Split(k)) == Content(files[k])
  }

  function DoneWith(done: set<Path>, k: string): set<Path> {
    if Accepted(k) then done + {Split(k)} else done
  }

  lemma OneKey(root: Entry, ws: Entry, files: map<string, string>, rest: set<string>, done: set<Path>, k: string)
    requires Matches(ws, files, rest) && AllPicked(ws, done) && Laid(root, ws, done)
    requires k in rest && Split(k) !in done
    ensures var o := WriteOne(root, k, files[k]);
            && o.error.None? && (o.warnings == [] <==> Accepted(k))
            && Laid(o.root, ws, DoneWith(done, k)) && AllPicked(ws, DoneWith(done, k))
  {
    var p := Split(k);
    assert KeyOf(ws, k);
    PicksMeaning(ws, p);
    InboundAcceptsTheWalk(root, p, files[k]);
    hide WriteOne, Laid, Picks, Rel, Selected, KindAt, PlaceFile, GoodPath;
    if Accepted(k) {
      LaidNext(root, ws, done, k, p, files[k]);
    }
  }

  lemma OtherKeys(ws: Entry, files: map<string, string>, rest: set<string>, done: set<Path>, k: string)
    requires Matches(ws, files, rest) && k in rest && forall x :: x in rest ==> Split(x) !in done
    ensures Matches(ws, files, rest - {k}) && forall x :: x in rest - {k} ==> Split(x) !in DoneWith(done, k)
    ensures DoneWith(done, k) + PathsOf(rest - {k}) == done + PathsOf(rest)
  {
    hide Accepted, Picks, Rel, GoodPath, KindAt;
    forall x | x in rest - {k} ensures Split(x) !in DoneWith(done, k) {
      assert KeyOf(ws, x) && KeyOf(ws, k);
    }
    PathsWithout(rest, k);
  }

  lemma PathsWithout(rest: set<string>, k: string)
    requires k in rest
    ensures PathsOf(rest) == PathsOf(rest - {k}) + if Accepted(k) then {Split(k)} else {}
  {
    hide Accepted;
  }

  lemma WriteAllFrom(root: Entry, files: map<string, string>, rest: set<string>, k: string)
    requires IsLeast(k, rest) && rest <= files.Keys
    ensures forall x :: x in SortedKeys(rest) ==> x in files
    ensures forall x :: x in SortedKeys(rest - {k}) ==> x in files
    ensures var o := WriteOne(root, k, files[k]);
            o.error.None? ==>
              WriteAll(root, files, SortedKeys(rest))
              == Continued(o.warnings, WriteAll(o.root, files, SortedKeys(rest - {k})))
  {
    SortedLists(rest);
    SortedLists(rest - {k});
    SortedFrom(k, rest);
    var keys := SortedKeys(rest);
    assert keys[1..] == SortedKeys(rest - {k});
    hide WriteOne;
  }

  lemma {:induction false} WriteAllLays(root: Entry, ws: Entry, files: map<string, string>, rest: set<string>,
                                        done: set<Path>)
    requires Matches(ws, files, rest) && AllPicked(ws, done) && Laid(root, ws, done)
    requires forall k :: k in rest ==> Split(k) !in done
    requires rest <= files.Keys && forall k :: k in SortedKeys(rest) ==> k in files
    ensures var o := WriteAll(root, files, SortedKeys(rest));
            && o.error.None? && Laid(o.root, ws, done + PathsOf(rest))
            && (o.warnings == [] <==> forall k :: k in rest ==> Accepted(k))
    decreases rest
  {
    if rest == {} {
      assert done + PathsOf(rest) == done;
    } else {
      LeastExists(rest);
      var k :| IsLeast(k, rest);
      assert k in rest;
      var o := WriteOne(root, k, files[k]);
      WriteAllFrom(root, files, rest, k);
      OneKey(root, ws, files, rest, done, k);
      OtherKeys(ws, files, rest, done, k);
      hide *;
      WriteAllLays(o.root, ws, files, rest - {k}, DoneWith(done, k));
      ContinuedWarns(o.warnings, WriteAll(o.root, files, SortedKeys(rest - {k})));
    }
  }

  lemma ContinuedWarns(warnings: seq<Warning>, o: Outcome)
    requires o.error.None?
    ensures var c := Continued(warnings, o);
            c.error.None? && c.root == o.root && (c.warnings == [] <==> warnings == [] && o.warnings == [])
  {
  }

  lemma LaidHasGoodNames(root: Entry, ws: Entry, done: set<Path>)
    requires Laid(root, ws, done) && forall p :: p in done ==> GoodPath(p)
    ensures GoodNames(root)
  {
    hide KindAt;
    forall q | q != [] && KindAt(root, q) != Nothing ensures GoodPath(q) {
      assert Expected(ws, done, q) != Nothing;
      if q !in done {
        var p :| p in done && q <= p;
        assert forall i :: 0 <= i < |q| ==> q[i] == p[i];
      }
    }
  }

  lemma LaidFiles(root: Entry, ws: Entry, done: set<Path>, k: string)
    requires Laid(root, ws, done) && AllPicked(ws, done)
    ensures KeyOf(root, k) <==> GoodPath(Split(k)) && Rel(Split(k)) == k && Split(k) in done
    ensures Split(k) in done ==> KindAt(root, Split(k)) == KindAt(ws, Split(k))
  {
    PicksMeaning(root, Split(k));
    hide KindAt, Picks, Selected, GoodPath, Rel;
    assert KindAt(root, Split(k)) == Expected(ws, done, Split(k));
  }

  lemma CollectedMatches(ws: Entry, files: map<string, string>)
    requires GoodNames(ws) && Collects(ws, files)
    ensures Matches(ws, files, files.Keys)
  {
    forall k | k in files ensures KeyOf(ws, k) && KindAt(ws, Split(k)) == Content(files[k]) {
      CollectedMap(ws, files, k);
    }
  }

  lemma PathsArePicked(ws: Entry, files: map<string, string>)
    requires Matches(ws, files, files.Keys)
    ensures AllPicked(ws, PathsOf(files.Keys)) && forall p :: p in PathsOf(files.Keys) ==> GoodPath(p)
  {
    forall p | p in PathsOf(files.Keys) ensures Selected(p) && KindAt(ws, p).Content? && GoodPath(p) {
      PicksMeaning(ws, p);
    }
  }

  lemma KeysComeBack(ws: Entry, files: map<string, string>, k: string)
    requires Matches(ws, files, files.Keys)
    ensures Split(k) in PathsOf(files.Keys) && Rel(Split(k)) == k <==> k in files && Accepted(k)
  {
    assert k in files ==> KeyOf(ws, k);
    if Split(k) in PathsOf(files.Keys) {
      var x :| x in files && Accepted(x) && Split(x) == Split(k);
      assert KeyOf(ws, x);
    }
  }

  lemma WrittenIsLaid(ws: Entry, files: map<string, string>)
    requires GoodNames(ws) && Collects(ws, files)
    ensures var o, done := WriteFiles(EMPTY_DIR, files), PathsOf(files.Keys);
            && o.error.None? && Laid(o.root, ws, done) && AllPicked(ws, done) && GoodNames(o.root)
            && (o.warnings == [] <==> forall k :: k in files ==> Accepted(k))
  {
    hide *;
    CollectedMatches(ws, files);
    EmptyIsLaid(ws);
    WritesAll(files);
    var done := PathsOf(files.Keys);
    PathsArePicked(ws, files);
    WriteAllLays(EMPTY_DIR, ws, files, files.Keys, {});
    assert {} + done == done;
    LaidHasGoodNames(WriteFiles(EMPTY_DIR, files).root, ws, done);
  }

  lemma WritesAll(files: map<string, string>)
    ensures forall k :: k in SortedKeys(files.Keys) ==> k in files
    ensures WriteFiles(EMPTY_DIR, files) == WriteAll(EMPTY_DIR, files, SortedKeys(files.Keys))
  {
    hide WriteAll;
    SortedLists(files.Keys);
  }

  lemma EmptyIsLaid(ws: Entry)
    ensures Laid(EMPTY_DIR, ws, {}) && AllPicked(ws, {})
  {
    forall q ensures KindAt(EMPTY_DIR, q) == Expected(ws, {}, q) {
      EmptyHolds(q);
    }
  }

  lemma KeyAgain(ws: Entry, files: map<string, string>, root: Entry, again: map<string, string>, k: string)
    requires GoodNames(ws) && Collects(ws, files) && GoodNames(root) && Collects(root, again)
    requires Laid(root, ws, PathsOf(files.Keys)) && AllPicked(ws, PathsOf(files.Keys))
    ensures k in again <==> k in files && Accepted(k)
    ensures k in again ==> again[k] == files[k]
  {
    CollectedMatches(ws, files);
    PathsArePicked(ws, files);
    CollectedMap(root, again, k);
    CollectedMap(ws, files, k);
    LaidFiles(root, ws, PathsOf(files.Keys), k);
    KeysComeBack(ws, files, k);
    hide Collects, GoodNames, PathsOf, Rel, Picks, KindAt, Laid, Accepted, Matches, AllPicked;
  }

  function Kept(files: map<string, string>): map<string, string> {
    map k | k in files && Accepted(k) :: files[k]
  }

  /**
   * Collected from a workspace with ordinary names and written into an empty one, the files come back when
   * that one is collected: all of them except files named exactly `__pycache__`, which the walk selects and
   * the inbound filter refuses. Hence the same map, and no warning, exactly when there is no such file.
   */
  lemma RoundTrip(ws: Entry, files: map<string, string>, again: map<string, string>)
    requires GoodNames(ws) && Collects(ws, files)
    requires Collects(WriteFiles(EMPTY_DIR, files).root, again)
    ensures WriteFiles(EMPTY_DIR, files).error.None?
    ensures again == Kept(files)
    ensures again == files <==> forall k :: k in files ==> Accepted(k)
    ensures WriteFiles(EMPTY_DIR, files).warnings == [] <==> forall k :: k in files ==> Accepted(k)
  {
    WrittenIsLaid(ws, files);
    var root := WriteFiles(EMPTY_DIR, files).root;
    hide *;
    forall k ensures k in again <==> k in files && Accepted(k) {
      KeyAgain(ws, files, root, again, k);
    }
    forall k ensures k in again ==> again[k] == files[k] {
      KeyAgain(ws, files, root, again, k);
    }
    KeptMeaning(files, again);
  }

  lemma KeptMeaning(files: map<string, string>, again: map<string, string>)
    requires forall k :: k in again <==> k in files && Accepted(k)
    requires forall k :: k in again ==> again[k] == files[k]
    ensures again == Kept(files)
    ensures again == files <==> forall k :: k in files ==> Accepted(k)
  {
    hide Accepted;
    if forall k :: k in files ==> Accepted(k) {
      assert again.Keys == files.Keys;
    }
  }

  /** A workspace whose only file is named `__pycache__`: it is collected, and nothing comes back. */
  lemma PycacheFileIsLost(text: string)
    ensures var ws, files := Dir(map[PYCACHE := File(text)]), map[PYCACHE := text];
            GoodNames(ws) && Collects(ws, files) && Collects(WriteFiles(EMPTY_DIR, files).root, map[])
  {
    var ws, files := Dir(map[PYCACHE := File(text)]), map[PYCACHE := text];
    OnePycache(text);
    PycacheRefused(files);
    forall p ensures !Picks(EMPTY_DIR, [], p) {
      NothingPicked(p);
    }
  }

  lemma NothingPicked(p: Path)
    ensures !Picks(EMPTY_DIR, [], p)
  {
  }

  lemma PycacheNames(text: string, p: Path)
    ensures KindAt(Dir(map[PYCACHE := File(text)]), p)
            == if p == [] then Folder else if p == [PYCACHE] then Content(text) else Nothing
  {
    var ws := Dir(map[PYCACHE := File(text)]);
    if p != [] {
      FileHolds(At(ws, p[0]), p[1..]);
      assert Lookup(Some(ws), p) == Lookup(At(ws, p[0]), p[1..]);
      assert p == [PYCACHE] <==> p[0] == PYCACHE && p[1..] == [];
    }
  }

  /** A name that begins with an underscore and holds no dot is in the layer. */
  lemma UnderscoreInLayer(n: Name)
    requires n != "" && n[0] == '_' && '.' !in n
    ensures InLayer(n)
  {
    hide IsBak;
    assert forall s :: s in SKIP ==> s[0] != '_';
    if IsBak(n) {
      BakHasDot(n);
    }
  }

  lemma BakHasDot(n: Name)
    requires IsBak(n)
    ensures '.' in n
  {
    if EndsWith(n, ".bak") {
      assert n[|n| - 4] == n[|n| - 4..][0] == '.';
    } else {
      var i :| 0 <= i <= |n| && ".bak." <= n[i..];
      assert n[i] == n[i..][0] == '.';
    }
  }

  lemma PycacheKey()
    ensures GoodPath([PYCACHE]) && Selected([PYCACHE]) && Rel([PYCACHE]) == PYCACHE && Split(PYCACHE) == [PYCACHE]
  {
    hide Split, InLayer, Rel;
    assert GoodPath([PYCACHE]);
    RelIsJoin([PYCACHE]);
    UnderscoreInLayer(PYCACHE);
    PycacheKept();
  }

  lemma PycacheKept()
    ensures NameKept(PYCACHE, false) && Join([PYCACHE]) == PYCACHE
  {
    hide EndsWith;
    EndsAlike(PYCACHE, ".dup-theirs");
    EndsAlike(PYCACHE, ".duptmp");
    EndsAlike(PYCACHE, ".pyc");
    assert PYCACHE[0] != "._"[0];
  }

  lemma EndsAlike(s: string, suffix: string)
    requires suffix != ""
    ensures EndsWith(s, suffix) ==> s != "" && s[|s| - 1] == suffix[|suffix| - 1]
  {
    assert EndsWith(s, suffix) ==> s[|s| - |suffix|..][|suffix| - 1] == suffix[|suffix| - 1];
  }

  lemma OnePycache(text: string)
    ensures GoodNames(Dir(map[PYCACHE := File(text)]))
            && Collects(Dir(map[PYCACHE := File(text)]), map[PYCACHE := text])
  {
    hide Picks, Rel, Selected, GoodPath, KindAt, Lookup, Split;
    var ws, p := Dir(map[PYCACHE := File(text)]), [PYCACHE];
    PycacheKey();
    forall q ensures KindAt(ws, q) == if q == [] then Folder else if q == p then Content(text) else Nothing {
      PycacheNames(text, q);
    }
    forall q | Picks(ws, [], q) ensures q == p {
      PicksMeaning(ws, q);
      PicksSomething(ws, q);
    }
    PicksMeaning(ws, p);
    KindIsFile(ws, p);
  }

  lemma KindIsFile(t: Entry, p: Path)
    ensures KindAt(t, p).Content? ==> FileAt(Some(t), p) == Some(KindAt(t, p).text)
  {
  }

  lemma PycacheRefused(files: map<string, string>)
    requires files.Keys == {PYCACHE}
    ensures WriteFiles(EMPTY_DIR, files).root == EMPTY_DIR
  {
    hide PlaceFile, WriteOne, Selected, GoodPath, Rel, Split;
    SortedLists(files.Keys);
    assert IsLeast(PYCACHE, {PYCACHE});
    SortedFrom(PYCACHE, {PYCACHE});
    assert {PYCACHE} - {PYCACHE} == {};
    assert SortedKeys(files.Keys) == [PYCACHE];
    PycacheKey();
    InboundAcceptsTheWalk(EMPTY_DIR, [PYCACHE], files[PYCACHE]);
    assert [PYCACHE][1..] == [];
  }
}
