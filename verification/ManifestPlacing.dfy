/**
 * Every outcome of writing files that come in: which path a key names, when a write fails and what it leaves
 * behind, and where a series of writes stops.
 */
module ManifestPlacing {
  import opened Common
  import opened FileTree
  import opened PathText
  import opened Manifest
  import opened ManifestRoundTrip

  // ---------------------------------------------------------------------------------------------
  // The path a key names
  // ---------------------------------------------------------------------------------------------

  predicate Counts(part: string) {
    part != "" && part != "."
  }

  predicate IsSame(part: string, name: Name) {
    part == name
  }

  /** A key names its parts, in order, but for empty ones and single dots. */
  lemma {:induction false} NamesItsParts(parts: seq<string>)
    ensures Gives(parts, Named(parts), Counts, IsSame)
  {
    hide Gives;
    if parts == [] {
      GivesNothing(Counts, IsSame);
    } else {
      NamesItsParts(parts[1..]);
      assert parts == [parts[0]] + parts[1..];
      ConcatNothing(Named(parts[1..]));
      if Counts(parts[0]) {
        GivesFirst(parts[0], parts[0], parts[1..], Named(parts[1..]), Counts, IsSame);
      } else {
        PassesOver(parts[0], parts[1..], Named(parts[1..]), Counts, IsSame);
      }
    }
  }

  /** The text ends in a slash, or in a dot that stands alone. */
  predicate NamesDirectory(rel: string) {
    || rel == "" || rel[|rel| - 1] == '/'
    || (rel[|rel| - 1] == '.' && (|rel| == 1 || rel[|rel| - 2] == '/'))
  }

  function LastPart(s: string): string {
    Split(s)[|Split(s)| - 1]
  }

  lemma {:induction false} LastPartIs(s: string)
    ensures LastPart(s) == "" <==> s == "" || s[|s| - 1] == '/'
    ensures LastPart(s) == "." <==> s != "" && s[|s| - 1] == '.' && (|s| == 1 || s[|s| - 2] == '/')
  {
    if |s| >= 2 {
      var rest := s[1..];
      LastPartIs(rest);
      LastOfRest(s);
      assert rest[|rest| - 1] == s[|s| - 1];
      if |s| == 2 {
        assert Split(rest[1..]) == [""];
      } else {
        assert rest[|rest| - 2] == s[|s| - 2];
      }
    } else if |s| == 1 {
      OneCharacter(s[0]);
      assert s == [s[0]];
    }
  }

  lemma OneCharacter(c: char)
    ensures LastPart([c]) == if c == '/' then "" else [c]
  {
    assert [c][1..] == "" && Split("") == [""];
  }

  lemma LastOfRest(s: string)
    requires |s| >= 2
    ensures LastPart(s) == if s[0] != '/' && |Split(s[1..])| == 1 then [s[0]] + Split(s[1..])[0] else LastPart(s[1..])
    ensures |Split(s[1..])| == 1 ==> LastPart(s[1..]) == Split(s[1..])[0] == s[1..]
  {
    OnePart(s[1..]);
  }

  lemma {:induction false} OnePart(s: string)
    ensures |Split(s)| == 1 ==> Split(s)[0] == s
  {
    if s != "" {
      OnePart(s[1..]);
      assert s == [s[0]] + s[1..];
    }
  }

  lemma NamesFileIs(rel: string)
    ensures NamesFile(rel) <==> !NamesDirectory(rel)
  {
    LastPartIs(rel);
  }

  // ---------------------------------------------------------------------------------------------
  // One write
  // ---------------------------------------------------------------------------------------------

  /** The temporary file of the write to `p`, next to it. */
  function Beside(p: Path): Path
    requires p != []
  {
    p[..|p| - 1] + ["." + p[|p| - 1] + ".duptmp"]
  }

  /** What is at `q` once the directory `up` has been made with its ancestors. */
  function WithDirs(root: Entry, up: Path, q: Path): Kind {
    if q <= up then Folder else KindAt(root, q)
  }

  /** A file is in the way of one of the directories above `p`. */
  ghost predicate InTheWay(root: Entry, p: Path) {
    exists i :: 0 <= i < |p| && KindAt(root, p[..i]).Content?
  }

  lemma {:induction false} MkDirsFails(t: Entry, p: Path)
    requires exists i :: 0 <= i <= |p| && KindAt(t, p[..i]).Content?
    ensures MkDirs(t, p).None?
    decreases |p|
  {
    var i :| 0 <= i <= |p| && KindAt(t, p[..i]).Content?;
    if t.Dir? {
      RootIsFolder(t, p);
      var sub := if p[0] in t.entries then t.entries[p[0]] else EMPTY_DIR;
      assert p[..i][0] == p[0] && p[..i][1..] == p[1..][..i - 1];
      if p[0] !in t.entries {
        NothingBelow(p[..i][1..]);
      } else {
        assert KindAt(sub, p[1..][..i - 1]).Content?;
        MkDirsFails(sub, p[1..]);
      }
    }
  }

  lemma RootIsFolder(t: Entry, p: Path)
    ensures t.Dir? ==> KindAt(t, p[..0]) == Folder
  {
  }

  lemma DirsFirst(root: Entry, p: Path, q: Path)
    requires p != []
    ensures var up := p[..|p| - 1];
            if InTheWay(root, p) then MkDirs(root, up).None?
            else MkDirs(root, up).Some? && KindAt(MkDirs(root, up).value, q) == WithDirs(root, up, q)
  {
    var up := p[..|p| - 1];
    assert forall i :: 0 <= i < |p| ==> up[..i] == p[..i];
    if InTheWay(root, p) {
      var i :| 0 <= i < |p| && KindAt(root, p[..i]).Content?;
      assert KindAt(root, up[..i]).Content?;
      MkDirsFails(root, up);
    } else {
      forall i {:trigger up[..i]} | 0 <= i <= |up| ensures !KindAt(root, up[..i]).Content? {
        assert up[..i] == p[..i];
      }
      MkDirsWorks(root, up);
      MkDirsByPath(root, up, q);
    }
  }

  /** The temporary file is written and removed again: nothing is left at its place. */
  lemma TmpCleaned(made: Entry, p: Path, content: string, q: Path)
    requires p != [] && KindAt(made, p[..|p| - 1]) == Folder
    ensures var written := SetAt(made, Tmp(p), Some(content));
            var cleaned := SetAt(written, Tmp(p), None);
            && KindAt(written, q)
               == (if !(Tmp(p) <= q) then KindAt(made, q) else if q == Tmp(p) then Content(content) else Nothing)
            && KindAt(cleaned, q) == (if Tmp(p) <= q then Nothing else KindAt(made, q))
            && KindAt(cleaned, p[..|p| - 1]) == Folder
  {
    hide SetAt, KindAt, TmpName;
    var tmp, up := Tmp(p), p[..|p| - 1];
    var written := SetAt(made, tmp, Some(content));
    assert tmp[..|tmp| - 1] == up && !(tmp <= up);
    SetByPath(made, tmp, Some(content), q);
    SetByPath(made, tmp, Some(content), up);
    SetByPath(written, tmp, None, q);
    SetByPath(written, tmp, None, up);
  }

  /**
   * A write to the path `p` that a key names succeeds if and only if the key names a file, no file is in the way of
   * the directories above it, and neither the path nor its temporary file is a directory. Whatever it comes to, at
   * every path `q` the tree holds exactly this afterwards.
   */
  lemma PlaceExactlyWhen(root: Entry, rel: string, content: string, q: Path)
    ensures var p, o := Components(rel), PlaceFile(root, rel, content);
            && o.warnings == []
            && if p == [] || InTheWay(root, p) then o.error == Some(WriteFailed(rel)) && o.root == root
               else
                 var made := WithDirs(root, p[..|p| - 1], q);
                 if KindAt(root, Beside(p)) == Folder then
                   o.error == Some(WriteFailed(rel)) && KindAt(o.root, q) == made
                 else if KindAt(root, p) == Folder || NamesDirectory(rel) then
                   o.error == Some(WriteFailed(rel)) && KindAt(o.root, q) == if Beside(p) <= q then Nothing else made
                 else
                   && o.error.None?
                   && KindAt(o.root, q)
                      == if q == p then Content(content) else if p <= q || Beside(p) <= q then Nothing else made
  {
    NamesFileIs(rel);
    var p := Components(rel);
    if p != [] {
      DirsFirst(root, p, q);
      if !InTheWay(root, p) {
        PlaceInDirs(root, rel, content, p, q);
      }
    }
    hide Components, NamesFile, NamesDirectory, InTheWay, KindAt, IsDir, SetAt, MkDirs;
  }

  lemma PlaceInDirs(root: Entry, rel: string, content: string, p: Path, q: Path)
    requires p != [] && p == Components(rel) && !InTheWay(root, p)
    ensures var o, made := PlaceFile(root, rel, content), WithDirs(root, p[..|p| - 1], q);
            && o.warnings == []
            && if KindAt(root, Beside(p)) == Folder then o.error == Some(WriteFailed(rel)) && KindAt(o.root, q) == made
               else if KindAt(root, p) == Folder || !NamesFile(rel) then
                 o.error == Some(WriteFailed(rel)) && KindAt(o.root, q) == if Beside(p) <= q then Nothing else made
               else
                 && o.error.None?
                 && KindAt(o.root, q)
                    == if q == p then Content(content) else if p <= q || Beside(p) <= q then Nothing else made
  {
    hide InTheWay, KindAt, SetAt, MkDirs, Components, NamesFile, IsDir;
    var up, tmp := p[..|p| - 1], Tmp(p);
    TmpIsBeside(p);
    assert tmp == Beside(p);
    DirsFirst(root, p, q);
    DirsFirst(root, p, up);
    DirsFirst(root, p, tmp);
    DirsFirst(root, p, p);
    assert !(tmp <= up) && !(p <= up);
    var made := MkDirs(root, up).value;
    TmpCleaned(made, p, content, q);
    TmpCleaned(made, p, content, p);
    DirKind(made, tmp);
    DirKind(SetAt(made, tmp, Some(content)), p);
    SetByPath(SetAt(SetAt(made, tmp, Some(content)), tmp, None), p, Some(content), q);
  }

  // ---------------------------------------------------------------------------------------------
  // A series of writes
  // ---------------------------------------------------------------------------------------------

  /** The workspace after the first `n` writes. */
  function RootAfter(root: Entry, files: map<string, string>, keys: seq<string>, n: nat): Entry
    requires n <= |keys| && forall k :: k in keys ==> k in files
  {
    if n == 0 then root else WriteOne(RootAfter(root, files, keys, n - 1), keys[n - 1], files[keys[n - 1]]).root
  }

  /** The outcome of write `n`, after those before it. */
  function WriteAt(root: Entry, files: map<string, string>, keys: seq<string>, n: nat): Outcome
    requires n < |keys| && forall k :: k in keys ==> k in files
  {
    WriteOne(RootAfter(root, files, keys, n), keys[n], files[keys[n]])
  }

  function WarningsBefore(root: Entry, files: map<string, string>, keys: seq<string>, n: nat): seq<Warning>
    requires n <= |keys| && forall k :: k in keys ==> k in files
  {
    if n == 0 then [] else WarningsBefore(root, files, keys, n - 1) + WriteAt(root, files, keys, n - 1).warnings
  }

  lemma {:induction false} AfterFirst(root: Entry, files: map<string, string>, keys: seq<string>, n: nat)
    requires keys != [] && n < |keys| && forall k :: k in keys ==> k in files
    ensures var root1 := WriteOne(root, keys[0], files[keys[0]]).root;
            && RootAfter(root, files, keys, n + 1) == RootAfter(root1, files, keys[1..], n)
            && WarningsBefore(root, files, keys, n + 1)
               == WriteOne(root, keys[0], files[keys[0]]).warnings + WarningsBefore(root1, files, keys[1..], n)
  {
    hide WriteOne;
    var first := WriteOne(root, keys[0], files[keys[0]]);
    if n == 0 {
      FirstAfter(root, files, keys);
      ConcatNothing(first.warnings);
    } else {
      AfterFirst(root, files, keys, n - 1);
      ConcatAssoc(first.warnings, WarningsBefore(first.root, files, keys[1..], n - 1),
                  WriteAt(first.root, files, keys[1..], n - 1).warnings);
    }
  }

  lemma FirstAfter(root: Entry, files: map<string, string>, keys: seq<string>)
    requires keys != [] && forall k :: k in keys ==> k in files
    ensures var first := WriteOne(root, keys[0], files[keys[0]]);
            RootAfter(root, files, keys, 1) == first.root && WarningsBefore(root, files, keys, 1) == first.warnings
  {
    hide WriteOne;
    assert RootAfter(root, files, keys, 0) == root;
    ConcatNothing(WriteOne(root, keys[0], files[keys[0]]).warnings);
  }

  /**
   * The files are written in order up to the first error, whose write leaves what it leaves and discards all warnings;
   * without an error all are written and all warnings are reported.
   */
  lemma {:induction false} WritesStopAtTheFirstError(root: Entry, files: map<string, string>, keys: seq<string>)
    returns (n: nat)
    requires forall k :: k in keys ==> k in files
    ensures n <= |keys| && forall i :: 0 <= i < n ==> WriteAt(root, files, keys, i).error.None?
    ensures var o := WriteAll(root, files, keys);
            if n < |keys| then
              && WriteAt(root, files, keys, n).error.Some? && o.error == WriteAt(root, files, keys, n).error
              && o.warnings == [] && o.root == RootAfter(root, files, keys, n + 1)
            else
              && o.error.None? && o.warnings == WarningsBefore(root, files, keys, n)
              && o.root == RootAfter(root, files, keys, n)
    decreases |keys|
  {
    hide WriteOne;
    if keys == [] {
      n := 0;
    } else {
      var first := WriteOne(root, keys[0], files[keys[0]]);
      FirstAfter(root, files, keys);
      if first.error.Some? {
        n := 0;
      } else {
        var m := WritesStopAtTheFirstError(first.root, files, keys[1..]);
        n := m + 1;
        forall i | 0 <= i < |keys| ensures WriteAt(root, files, keys, i)
                                           == if i == 0 then first else WriteAt(first.root, files, keys[1..], i - 1)
        {
          if i > 0 {
            AfterFirst(root, files, keys, i - 1);
          }
        }
        AfterFirst(root, files, keys, m);
        if m + 1 < |keys| {
          AfterFirst(root, files, keys, m + 1);
        }
      }
    }
  }
}
