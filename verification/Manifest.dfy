/**
 * The file-level manifest of a workspace, `crates/clone/src/manifest.rs`: the walk that selects the files of
 * the definition layer, the filter on files that come in, and the text that is hashed to a state id.
 */
module Manifest {
  import opened Common
  import opened FileTree
  import opened PathText

  const SKIP: set<string> := {
    "agent.toml", "AGENT.json", "admins.json", "api_tools.toml", "output", "sessions", "history", "logs",
    "users", "data", "senders", ".lifecycle", ".dup"
  }

  predicate IsTestDir(top: string) {
    || top == "test"
    || StartsWith(top, "test-")
    || (StartsWith(top, "test") && forall i :: 4 <= i < |top| ==> '0' <= top[i] <= '9')
  }

  predicate IsBak(top: string) {
    EndsWith(top, ".bak") || Contains(top, ".bak.")
  }

  /** The definition layer, by the top component: everything but runtime state, test workspaces and backups. */
  predicate InLayer(top: string) {
    top !in SKIP && !IsTestDir(top) && !IsBak(top)
  }

  predicate TopKept(rel: string) {
    InLayer(Split(rel)[0])
  }

  predicate NameKept(n: Name, isDir: bool) {
    && !StartsWith(n, "._") && n != ".DS_Store"
    && !EndsWith(n, ".dup-theirs") && !EndsWith(n, ".duptmp")
    && !(isDir && n == "__pycache__")
    && !EndsWith(n, ".pyc")
  }

  /** The key of a path: its names joined by slashes, with backslashes made slashes. */
  function Rel(path: Path): string {
    var s := Join(path);
    seq(|s|, i requires 0 <= i < |s| => if s[i] == '\\' then '/' else s[i])
  }

  // ---------------------------------------------------------------------------------------------
  // The walk
  // ---------------------------------------------------------------------------------------------

  /** The walk of directory `cur`, itself at path `at`, selects the file at `q` inside it. */
  predicate Picks(cur: Entry, at: Path, q: Path)
    decreases |q|
  {
    && q != [] && cur.Dir? && q[0] in cur.entries
    && var e := cur.entries[q[0]];
       && NameKept(q[0], e.Dir?)
       && if e.Dir? then Picks(e, at + [q[0]], q[1..]) else |q| == 1 && TopKept(Rel(at + q))
  }

  predicate Under(cur: Entry, at: Path, p: Path) {
    |at| < |p| && p[..|at|] == at && Picks(cur, at, p[|at|..])
  }

  lemma UnderEntry(cur: Entry, at: Path, p: Path, n: Name)
    requires cur.Dir? && n in cur.entries && |at| < |p| && p[|at|] == n
    ensures cur.entries[n].Dir? ==> (Under(cur, at, p) <==> NameKept(n, true) && Under(cur.entries[n], at + [n], p))
    ensures cur.entries[n].File? ==> (Under(cur, at, p) <==> NameKept(n, false) && p == at + [n] && TopKept(Rel(p)))
  {
    hide NameKept, TopKept, Rel;
    if p[..|at|] == at {
      assert p[..|at| + 1] == at + [n];
      assert p[|at|..][1..] == p[|at| + 1..] && p == at + p[|at|..];
    } else {
      assert p[..|at| + 1][..|at|] != (at + [n])[..|at|];
    }
  }

  lemma UnderChild(child: Entry, at: Path, n: Name, p: Path)
    requires Under(child, at + [n], p)
    ensures |at| < |p| && p[|at|] == n
  {
    assert p[..|at| + 1][|at|] == n;
  }

  method WalkCollect(cur: Entry, at: Path, out: seq<(string, Path)>) returns (all: seq<(string, Path)>)
    requires cur.Dir?
    ensures forall r, p :: (r, p) in all <==> (r, p) in out || (r == Rel(p) && Under(cur, at, p))
    decreases cur
  {
    hide NameKept, TopKept, Rel, Picks;
    all := out;
    var rest := cur.entries.Keys;
    forall p | Under(cur, at, p) ensures p[|at|] in cur.entries {
      UnderHas(cur, at, p);
    }
    while rest != {}
      invariant rest <= cur.entries.Keys
      invariant forall r, p :: (r, p) in all <==>
                  (r, p) in out || (r == Rel(p) && Under(cur, at, p) && p[|at|] !in rest)
      decreases rest
    {
      ghost var before, was := all, rest;
      var n :| n in rest;
      rest := rest - {n};
      var e := cur.entries[n];
      if !NameKept(n, e.Dir?) {
      } else if e.Dir? {
        all := WalkCollect(e, at + [n], all);
      } else if TopKept(Rel(at + [n])) {
        all := all + [(Rel(at + [n]), at + [n])];
      }
      forall r, p ensures (r, p) in all <==> (r, p) in out || (r == Rel(p) && Under(cur, at, p) && p[|at|] !in rest) {
        TakenEntry(cur, at, out, before, all, was, n, r, p);
      }
    }
  }

  lemma UnderHas(cur: Entry, at: Path, p: Path)
    requires Under(cur, at, p)
    ensures cur.Dir? && p[|at|] in cur.entries
  {
  }

  /** One turn of the loop over the entries. */
  lemma TakenEntry(cur: Entry, at: Path, out: seq<(string, Path)>, before: seq<(string, Path)>,
                   all: seq<(string, Path)>, rest: set<Name>, n: Name, r: string, p: Path)
    requires cur.Dir? && n in rest && n in cur.entries
    requires (r, p) in before <==> (r, p) in out || (r == Rel(p) && Under(cur, at, p) && p[|at|] !in rest)
    requires var e := cur.entries[n];
             if !NameKept(n, e.Dir?) then all == before
             else if e.Dir? then (r, p) in all <==> (r, p) in before || (r == Rel(p) && Under(e, at + [n], p))
             else all == if TopKept(Rel(at + [n])) then before + [(Rel(at + [n]), at + [n])] else before
    ensures (r, p) in all <==> (r, p) in out || (r == Rel(p) && Under(cur, at, p) && p[|at|] !in rest - {n})
  {
    var e := cur.entries[n];
    if |at| < |p| && p[|at|] == n {
      UnderEntry(cur, at, p, n);
    } else {
      if Under(e, at + [n], p) {
        UnderChild(e, at, n, p);
      }
      assert p != at + [n];
    }
    hide Under, NameKept, TopKept, Rel;
  }

  /** What a walk of the workspace selects: every picked file under its key, and nothing else. */
  ghost predicate Collects(ws: Entry, files: map<string, string>) {
    && (forall p :: Picks(ws, [], p) ==> Rel(p) in files)
    && forall k :: k in files ==> exists p :: Picks(ws, [], p) && Rel(p) == k && FileAt(Some(ws), p) == Some(files[k])
  }

  lemma PickedIsFile(cur: Entry, at: Path, q: Path)
    requires Picks(cur, at, q)
    ensures FileAt(Some(cur), q).Some?
    decreases |q|
  {
    var e := cur.entries[q[0]];
    assert Lookup(Some(cur), q) == Lookup(Some(e), q[1..]);
    if e.Dir? {
      PickedIsFile(cur.entries[q[0]], at + [q[0]], q[1..]);
    }
  }

  method IterDefinitionFiles(ws: Entry) returns (found: seq<(string, Path)>)
    requires ws.Dir?
    ensures forall r, p :: (r, p) in found <==> r == Rel(p) && Picks(ws, [], p)
  {
    found := WalkCollect(ws, [], []);
    hide Rel, Picks;
    forall r, p ensures (r, p) in found <==> r == Rel(p) && Picks(ws, [], p) {
      assert p[..0] == [] && p[0..] == p;
      assert Picks(ws, [], p) ==> p != [] by { PicksSomething(ws, p); }
    }
  }

  lemma PicksSomething(ws: Entry, p: Path)
    ensures Picks(ws, [], p) ==> p != []
  {
  }

  /** `None` when the workspace cannot be listed. */
  method CollectDefinitionFiles(ws: Entry) returns (files: Option<map<string, string>>)
    ensures files.Some? <==> ws.Dir?
    ensures files.Some? ==> Collects(ws, files.value)
  {
    if ws.File? {
      return None;
    }
    var found := IterDefinitionFiles(ws);
    var all: map<string, string> := map[];
    for i := 0 to |found|
      invariant ReadFrom(ws, found[..i], all)
    {
      assert found[..i + 1] == found[..i] + [found[i]];
      var (rel, path) := found[i];
      assert (rel, path) in found;
      PickedIsFile(ws, [], path);
      hide *;
      var data := FileAt(Some(ws), path).value;
      ReadNext(ws, found[..i], all, rel, path, data);
      all := all[rel := data];
    }
    assert found[..|found|] == found;
    FoundIsCollected(ws, found, all);
    files := Some(all);
  }

  /** Every file found has a key, and every key has the content of a file found under it. */
  ghost predicate ReadFrom(ws: Entry, found: seq<(string, Path)>, files: map<string, string>) {
    && (forall r, p :: (r, p) in found ==> r in files)
    && forall k :: k in files ==> exists p :: (k, p) in found && FileAt(Some(ws), p) == Some(files[k])
  }

  lemma ReadNext(ws: Entry, found: seq<(string, Path)>, files: map<string, string>, rel: string, path: Path,
                 data: string)
    requires ReadFrom(ws, found, files) && FileAt(Some(ws), path) == Some(data)
    ensures ReadFrom(ws, found + [(rel, path)], files[rel := data])
  {
    hide FileAt;
    var more, files' := found + [(rel, path)], files[rel := data];
    forall k | k in files' ensures exists p :: (k, p) in more && FileAt(Some(ws), p) == Some(files'[k]) {
      if k == rel {
        assert (rel, path) in more;
      } else {
        var p :| (k, p) in found && FileAt(Some(ws), p) == Some(files[k]);
        assert (k, p) in more;
      }
    }
  }

  lemma FoundIsCollected(ws: Entry, found: seq<(string, Path)>, all: map<string, string>)
    requires forall r, p :: (r, p) in found <==> r == Rel(p) && Picks(ws, [], p)
    requires ReadFrom(ws, found, all)
    ensures Collects(ws, all)
  {
    hide Rel, Picks, FileAt;
    forall p | Picks(ws, [], p) ensures Rel(p) in all {
      assert (Rel(p), p) in found;
    }
    forall k | k in all ensures exists p :: Picks(ws, [], p) && Rel(p) == k && FileAt(Some(ws), p) == Some(all[k]) {
      var p :| (k, p) in found && FileAt(Some(ws), p) == Some(all[k]);
    }
  }

  // ---------------------------------------------------------------------------------------------
  // Writing files that come in
  // ---------------------------------------------------------------------------------------------

  datatype Warning = NotDefinitionLayer(rel: string) | PythonBytecode(rel: string)

  datatype Problem = NotADirectory | TraversalDenied(rel: string) | WriteFailed(rel: string)

  /** An error discards the warnings; what was written before it stays. */
  datatype Outcome = Outcome(root: Entry, warnings: seq<Warning>, error: Option<Problem>)

  function Components(rel: string): Path {
    Named(Split(rel))
  }

  /** The path that a text names: empty and `.` components do not count. */
  function Named(parts: seq<string>): Path {
    if parts == [] then []
    else (if parts[0] == "" || parts[0] == "." then [] else [parts[0]]) + Named(parts[1..])
  }

  predicate Traverses(rel: string) {
    StartsWith(rel, "/") || ".." in Split(rel)
  }

  /** A text that ends in a slash or in `.` can only name a directory. */
  predicate NamesFile(rel: string) {
    var parts := Split(rel);
    parts[|parts| - 1] != "" && parts[|parts| - 1] != "."
  }

  /** Creating a directory with its ancestors; it fails where a file is in the way. */
  function MkDirs(t: Entry, path: Path): Option<Entry>
    decreases |path|
  {
    if t.File? then None
    else if path == [] then Some(t)
    else
      var sub := if path[0] in t.entries then t.entries[path[0]] else EMPTY_DIR;
      match MkDirs(sub, path[1..])
      case None => None
      case Some(made) => Some(Dir(t.entries[path[0] := made]))
  }

  /** Putting a file at a path, or removing what is there; the parent directory exists. */
  function SetAt(t: Entry, path: Path, content: Option<string>): Entry
    requires path != []
    decreases |path|
  {
    if t.File? then t
    else if |path| == 1 then
      match content
      case Some(c) => Dir(t.entries[path[0] := File(c)])
      case None => Dir(t.entries - {path[0]})
    else if path[0] in t.entries then Dir(t.entries[path[0] := SetAt(t.entries[path[0]], path[1..], content)])
    else t
  }

  function TmpName(n: Name): Name {
    "." + n + ".duptmp"
  }

  predicate IsDir(t: Entry, path: Path) {
    var e := Lookup(Some(t), path);
    e.Some? && e.value.Dir?
  }

  /** The write through a sibling temporary file and a rename. */
  function PlaceFile(root: Entry, rel: string, content: string): Outcome {
    var path := Components(rel);
    var failed := Some(WriteFailed(rel));
    if path == [] then Outcome(root, [], failed)
    else
      var parent := path[..|path| - 1];
      var tmp := parent + [TmpName(path[|path| - 1])];
      match MkDirs(root, parent)
      case None => Outcome(root, [], failed)
      case Some(made) =>
        if IsDir(made, tmp) then Outcome(made, [], failed)
        else
          var written := SetAt(made, tmp, Some(content));
          var cleaned := SetAt(written, tmp, None);
          if IsDir(written, path) || !NamesFile(rel) then Outcome(cleaned, [], failed)
          else Outcome(SetAt(cleaned, path, Some(content)), [], None)
  }

  function WriteOne(root: Entry, rel: string, content: string): Outcome {
    if Traverses(rel) then Outcome(root, [], Some(TraversalDenied(rel)))
    else if !TopKept(rel) then Outcome(root, [NotDefinitionLayer(rel)], None)
    else if "__pycache__" in Split(rel) || EndsWith(rel, ".pyc") then Outcome(root, [PythonBytecode(rel)], None)
    else PlaceFile(root, rel, content)
  }

  function Continued(warnings: seq<Warning>, o: Outcome): Outcome {
    if o.error.Some? then o else o.(warnings := warnings + o.warnings)
  }

  function WriteAll(root: Entry, files: map<string, string>, keys: seq<string>): (o: Outcome)
    requires forall k :: k in keys ==> k in files
    decreases |keys|
  {
    if keys == [] then Outcome(root, [], None)
    else
      var o := WriteOne(root, keys[0], files[keys[0]]);
      if o.error.Some? then o.(warnings := []) else Continued(o.warnings, WriteAll(o.root, files, keys[1..]))
  }

  ghost function WriteFiles(root: Entry, files: map<string, string>): Outcome {
    SortedLists(files.Keys);
    if root.File? then Outcome(root, [], Some(NotADirectory)) else WriteAll(root, files, SortedKeys(files.Keys))
  }

  class Workspace {
    var root: Entry

    constructor ()
      ensures root == EMPTY_DIR
    {
      root := EMPTY_DIR;
    }

    method WriteFilesToWorkspace(files: map<string, string>) returns (warnings: seq<Warning>, error: Option<Problem>)
      modifies this
      ensures Outcome(root, warnings, error) == WriteFiles(old(root), files)
    {
      warnings, error := [], None;
      if root.File? {
        return [], Some(NotADirectory);
      }
      var rest := files.Keys;
      SortedLists(files.Keys);
      while rest != {}
        invariant rest <= files.Keys && (forall k :: k in SortedKeys(rest) ==> k in files)
        invariant WriteFiles(old(root), files) == Continued(warnings, WriteAll(root, files, SortedKeys(rest)))
        invariant error.None?
        decreases rest
      {
        LeastExists(rest);
        var rel :| rel in rest && IsLeast(rel, rest);
        SortedFrom(rel, rest);
        SortedLists(rest - {rel});
        ghost var o, was := WriteOne(root, rel, files[rel]), warnings;
        hide WriteFiles, WriteOne, IsLeast;
        var found: seq<Warning>;
        found, error := WriteOneFile(rel, files[rel]);
        if error.Some? {
          return [], error;
        }
        warnings := warnings + found;
        rest := rest - {rel};
        ConcatAssoc(was, found, WriteAll(root, files, SortedKeys(rest)).warnings);
      }
      ConcatNothing(warnings);
    }

    method WriteOneFile(rel: string, content: string) returns (warnings: seq<Warning>, error: Option<Problem>)
      modifies this
      ensures var o := WriteOne(old(root), rel, content);
              root == o.root && error == o.error && warnings == o.warnings
    {
      hide Traverses, TopKept, Split, EndsWith, PlaceFile;
      warnings, error := [], None;
      if Traverses(rel) {
        return [], Some(TraversalDenied(rel));
      }
      if !TopKept(rel) {
        return [NotDefinitionLayer(rel)], None;
      }
      if "__pycache__" in Split(rel) || EndsWith(rel, ".pyc") {
        return [PythonBytecode(rel)], None;
      }
      error := WriteAtomically(rel, content);
    }

    /** The write through a temporary file next to its place. */
    method WriteAtomically(rel: string, content: string) returns (error: Option<Problem>)
      modifies this
      ensures Outcome(root, [], error) == PlaceFile(old(root), rel, content)
    {
      hide MkDirs, SetAt, IsDir, Components, NamesFile, TmpName;
      error := Some(WriteFailed(rel));
      var path := Components(rel);
      if path == [] {
        return;
      }
      var parent, name := path[..|path| - 1], path[|path| - 1];
      var made := MkDirs(root, parent);
      if made.None? {
        return;
      }
      root := made.value;
      var tmp := parent + [TmpName(name)];
      if IsDir(root, tmp) {
        return;
      }
      root := SetAt(root, tmp, Some(content));
      if IsDir(root, path) || !NamesFile(rel) {
        root := SetAt(root, tmp, None);
        return;
      }
      root := SetAt(root, tmp, None);
      root := SetAt(root, path, Some(content));
      error := None;
    }
  }

  // ---------------------------------------------------------------------------------------------
  // One write, path by path
  // ---------------------------------------------------------------------------------------------

  datatype Kind = Nothing | Folder | Content(text: string)

  function KindOf(e: Option<Entry>): Kind {
    match e
    case None => Nothing
    case Some(File(text)) => Content(text)
    case Some(Dir(_)) => Folder
  }

  function KindAt(t: Entry, path: Path): Kind {
    KindOf(Lookup(Some(t), path))
  }

  lemma NothingBelow(path: Path)
    ensures KindOf(Lookup(None, path)) == Nothing
  {
  }

  lemma PrefixTail(q: Path, p: Path)
    requires q != [] && p != []
    ensures q <= p <==> q[0] == p[0] && q[1..] <= p[1..]
  {
    if q[0] == p[0] && q[1..] <= p[1..] {
      assert q == [q[0]] + q[1..] && p == [p[0]] + p[1..];
    }
  }

  /** Creating directories adds exactly the missing ancestors. */
  lemma {:induction false} MkDirsByPath(t: Entry, p: Path, q: Path)
    requires MkDirs(t, p).Some?
    ensures KindAt(MkDirs(t, p).value, q) == if q <= p then Folder else KindAt(t, q)
    decreases |p|
  {
    if p != [] && q != [] {
      var n := p[0];
      var sub := if n in t.entries then t.entries[n] else EMPTY_DIR;
      MkDirsByPath(sub, p[1..], q[1..]);
      PrefixTail(q, p);
      NothingBelow(q[1..]);
      if q[0] == n && q[1..] != [] && n !in t.entries {
        assert At(EMPTY_DIR, q[1..][0]).None?;
        NothingBelow(q[1..][1..]);
      }
    }
  }

  /** Creating directories fails only where a file is in the way. */
  lemma {:induction false} MkDirsWorks(t: Entry, p: Path)
    requires forall i {:trigger p[..i]} :: 0 <= i <= |p| ==> !KindAt(t, p[..i]).Content?
    ensures MkDirs(t, p).Some?
    decreases |p|
  {
    assert !KindAt(t, p[..0]).Content?;
    if p != [] && t.Dir? {
      var sub := if p[0] in t.entries then t.entries[p[0]] else EMPTY_DIR;
      forall i {:trigger p[1..][..i]} | 0 <= i <= |p[1..]| ensures !KindAt(sub, p[1..][..i]).Content? {
        assert p[..i + 1][0] == p[0] && p[..i + 1][1..] == p[1..][..i];
        assert !KindAt(t, p[..i + 1]).Content?;
        EmptyHolds(p[1..][..i]);
      }
      MkDirsWorks(sub, p[1..]);
    }
  }

  lemma EmptyHolds(path: Path)
    ensures KindAt(EMPTY_DIR, path) == if path == [] then Folder else Nothing
  {
    if path != [] {
      assert At(EMPTY_DIR, path[0]).None?;
      NothingBelow(path[1..]);
    }
  }

  lemma FileHolds(e: Option<Entry>, path: Path)
    requires e.None? || e.value.File?
    ensures KindOf(Lookup(e, path)) == if path == [] then KindOf(e) else Nothing
  {
    if path != [] && e.Some? {
      NothingBelow(path[1..]);
    }
  }

  lemma SetHere(t: Entry, p: Path, content: Option<string>, q: Path)
    requires |p| == 1 && t.Dir? && q != []
    ensures KindAt(SetAt(t, p, content), q) ==
            if !(p <= q) then KindAt(t, q) else if q == p && content.Some? then Content(content.value) else Nothing
  {
    var t' := SetAt(t, p, content);
    PrefixTail(p, q);
    assert Lookup(Some(t'), q) == Lookup(At(t', q[0]), q[1..]) && Lookup(Some(t), q) == Lookup(At(t, q[0]), q[1..]);
    if q[0] == p[0] {
      FileHolds(At(t', q[0]), q[1..]);
      assert q == p <==> q[1..] == [];
    } else {
      assert At(t', q[0]) == At(t, q[0]);
    }
  }

  /** Putting or removing a file changes what is at its path and below, and nothing else. */
  lemma {:induction false} SetByPath(t: Entry, p: Path, content: Option<string>, q: Path)
    requires p != [] && KindAt(t, p[..|p| - 1]).Folder?
    ensures KindAt(SetAt(t, p, content), q) ==
            if !(p <= q) then KindAt(t, q) else if q == p && content.Some? then Content(content.value) else Nothing
    decreases |p|
  {
    var up := p[..|p| - 1];
    if q != [] && |p| == 1 {
      SetHere(t, p, content, q);
    } else if q != [] {
      assert up[0] == p[0] && up[1..] == p[1..][..|p[1..]| - 1];
      NothingBelow(up[1..]);
      assert t.Dir? && p[0] in t.entries;
      PrefixTail(p, q);
      SetByPath(t.entries[p[0]], p[1..], content, q[1..]);
      assert q[0] == p[0] ==> (q == p <==> q[1..] == p[1..]);
    }
  }
}
