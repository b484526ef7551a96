/**
 * The definition layer by the names that are documented to be outside it: what the walk selects, what a manifest
 * lists and what comes in, told without the filters that decide it.
 */
module ManifestLayer {
  import opened Common
  import opened FileTree
  import opened PathText
  import opened Manifest
  import opened ManifestRoundTrip
  import opened ManifestHash

  /** Runtime state and deployment files. */
  predicate IsRuntime(top: string) {
    || top == "agent.toml" || top == "AGENT.json" || top == "admins.json" || top == "api_tools.toml"
    || top == "output" || top == "sessions" || top == "history" || top == "logs" || top == "users" || top == "data"
    || top == "senders" || top == ".lifecycle" || top == ".dup"
  }

  /** `test`, `test2`, `test-foo`. */
  predicate IsTest(top: string) {
    && |top| >= 4 && top[0] == 't' && top[1] == 'e' && top[2] == 's' && top[3] == 't'
    && (|top| == 4 || top[4] == '-' || forall i :: 4 <= i < |top| ==> top[i] in "0123456789")
  }

  /** `.bak` at `i`, at the end or before another dot. */
  predicate BakAt(top: string, i: nat) {
    && i + 4 <= |top| && top[i] == '.' && top[i + 1] == 'b' && top[i + 2] == 'a' && top[i + 3] == 'k'
    && (i + 4 == |top| || top[i + 4] == '.')
  }

  /** `foo.bak`, `foo.bak.1`. */
  ghost predicate IsBackup(top: string) {
    exists i: nat :: BakAt(top, i)
  }

  ghost predicate Outside(top: string) {
    IsRuntime(top) || IsTest(top) || IsBackup(top)
  }

  lemma TestIs(top: string)
    ensures IsTestDir(top) <==> IsTest(top)
  {
    if |top| >= 4 {
      assert top[..4] == [top[0], top[1], top[2], top[3]];
      assert StartsWith(top, "test") <==> top[0] == 't' && top[1] == 'e' && top[2] == 's' && top[3] == 't';
    }
    if |top| >= 5 {
      assert top[..5] == [top[0], top[1], top[2], top[3], top[4]];
      assert StartsWith(top, "test-") <==> StartsWith(top, "test") && top[4] == '-';
    }
    forall c: char ensures '0' <= c <= '9' <==> c in "0123456789" {
      DigitIs(c);
    }
  }

  lemma DigitIs(c: char)
    ensures '0' <= c <= '9' <==> c in "0123456789"
  {
    var digits := "0123456789";
    assert forall i :: 0 <= i < 10 ==> digits[i] as int == '0' as int + i;
    if '0' <= c <= '9' {
      assert digits[c as int - '0' as int] == c;
    }
  }

  lemma BakAtIs(top: string, i: nat)
    ensures BakAt(top, i) <==> i <= |top| && ((i + 4 == |top| && EndsWith(top, ".bak")) || ".bak." <= top[i..])
  {
    if i + 4 <= |top| {
      assert top[i..i + 4] == [top[i], top[i + 1], top[i + 2], top[i + 3]];
      assert i + 4 == |top| ==> top[i..] == top[i..i + 4];
    }
    if i + 5 <= |top| {
      assert top[i..][..5] == [top[i], top[i + 1], top[i + 2], top[i + 3], top[i + 4]];
    }
  }

  lemma BackupIs(top: string)
    ensures IsBak(top) <==> IsBackup(top)
  {
    forall i: nat
      ensures BakAt(top, i) <==> i <= |top| && ((i + 4 == |top| && EndsWith(top, ".bak")) || ".bak." <= top[i..])
    {
      BakAtIs(top, i);
    }
    hide BakAt;
    if EndsWith(top, ".bak") {
      var at: nat := |top| - 4;
      assert BakAt(top, at);
    }
    if Contains(top, ".bak.") {
      var i :| 0 <= i <= |top| && ".bak." <= top[i..];
      assert BakAt(top, i);
    }
  }

  lemma LayerIs(top: string)
    ensures InLayer(top) <==> !Outside(top)
  {
    TestIs(top);
    BackupIs(top);
    hide IsTestDir, IsTest, IsBak, IsBackup;
  }

  // ---------------------------------------------------------------------------------------------
  // Out: the walk, the collected files, the manifest
  // ---------------------------------------------------------------------------------------------

  /** `top` is the first component of the key. */
  predicate IsTop(rel: string, top: string) {
    && |top| <= |rel| && rel[..|top|] == top && (forall i :: 0 <= i < |top| ==> top[i] != '/')
    && (|top| == |rel| || rel[|top|] == '/')
  }

  lemma TopIs(rel: string, top: string)
    ensures IsTop(rel, top) <==> Split(rel)[0] == top
  {
    SplitIsPlain(rel);
    if Plain(top) {
      FirstPart(rel, top);
    }
  }

  lemma {:induction false} SplitIsPlain(s: string)
    ensures forall i :: 0 <= i < |Split(s)| ==> Plain(Split(s)[i])
  {
    if s != "" {
      SplitIsPlain(s[1..]);
    }
  }

  /** Finder files, sidecars and temporary files of the version control, and Python bytecode. */
  predicate IsArtifact(n: Name, isDir: bool) {
    || (|n| >= 2 && n[0] == '.' && n[1] == '_') || n == ".DS_Store"
    || (|n| >= 11 && n[|n| - 11..] == ".dup-theirs") || (|n| >= 7 && n[|n| - 7..] == ".duptmp")
    || (isDir && n == "__pycache__") || (|n| >= 4 && n[|n| - 4..] == ".pyc")
  }

  lemma ArtifactIs(n: Name, isDir: bool)
    ensures NameKept(n, isDir) <==> !IsArtifact(n, isDir)
  {
    if |n| >= 2 {
      assert n[..2] == [n[0], n[1]];
    }
  }

  /** The key of a path: its names between slashes, every backslash in them turned into one more slash. */
  ghost predicate IsKey(p: Path, key: string) {
    && |key| == |Join(p)|
    && forall i :: 0 <= i < |key| ==> key[i] == if Join(p)[i] == '\\' then '/' else Join(p)[i]
  }

  /**
   * The walk selects a file if and only if no name on its path is an artifact and the first component of its key
   * is none of the documented runtime, test and backup names.
   */
  lemma SelectedExactlyWhen(ws: Entry, p: Path, top: string)
    requires IsTop(Rel(p), top)
    ensures IsKey(p, Rel(p))
    ensures Picks(ws, [], p) <==>
              && p != [] && FileAt(Some(ws), p).Some?
              && (forall i {:trigger p[i]} :: 0 <= i < |p| ==> !IsArtifact(p[i], i < |p| - 1))
              && !Outside(top)
  {
    PicksMeaning(ws, p);
    TopIs(Rel(p), top);
    LayerIs(top);
    KindIsFile(ws, p);
    forall i | 0 <= i < |p| ensures NameKept(p[i], i < |p| - 1) <==> !IsArtifact(p[i], i < |p| - 1) {
      ArtifactIs(p[i], i < |p| - 1);
    }
    hide Picks, NameKept, IsArtifact, Outside, InLayer, Split, IsTop;
  }

  /** No collected key, and so no key of a manifest, begins with a documented runtime, test or backup name. */
  lemma KeysAreInLayer(sha: string -> string, ws: Entry, files: map<string, string>, key: string, top: string)
    requires Collects(ws, files) && IsTop(key, top)
    ensures StateOf(sha, files).files.Keys == files.Keys
    ensures key in files ==> !Outside(top)
  {
    hide Picks, Outside, IsTop, Rel;
    if key in files {
      var p :| Picks(ws, [], p) && Rel(p) == key;
      SelectedExactlyWhen(ws, p, top);
    }
  }

  // ---------------------------------------------------------------------------------------------
  // In: the filter on incoming files
  // ---------------------------------------------------------------------------------------------

  /** `part` stands in the key between two slashes or at an end. */
  ghost predicate HasPart(rel: string, part: string) {
    exists i: nat :: Stands(rel, part, i)
  }

  /**
   * What becomes of an incoming file, by its key alone: an absolute key or one that goes up is an error, a documented
   * runtime, test or backup name at its top and Python bytecode are skipped with a warning, and everything else is
   * placed. What is not placed leaves the workspace as it is.
   */
  lemma IncomingExactlyWhen(root: Entry, rel: string, content: string, top: string)
    requires IsTop(rel, top)
    ensures var o := WriteOne(root, rel, content);
            if (rel != "" && rel[0] == '/') || HasPart(rel, "..") then
              o == Outcome(root, [], Some(TraversalDenied(rel)))
            else if Outside(top) then o == Outcome(root, [NotDefinitionLayer(rel)], None)
            else if HasPart(rel, "__pycache__") || (|rel| >= 4 && rel[|rel| - 4..] == ".pyc")
            then o == Outcome(root, [PythonBytecode(rel)], None)
            else o == PlaceFile(root, rel, content)
  {
    hide PlaceFile, Outside, InLayer, Split, IsTop, Stands;
    TopIs(rel, top);
    LayerIs(top);
    PartOf(rel, "..");
    PartOf(rel, "__pycache__");
    assert StartsWith(rel, "/") <==> rel != "" && rel[0] == '/' by {
      assert rel != "" ==> rel[..1] == [rel[0]];
    }
  }
}
