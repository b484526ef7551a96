/**
 * The recursive directory merge `move_dir_contents` of `crates/api/src/migration.rs`.
 *
 * A directory tree is a value; moving updates the source and the target tree. The only failures are the
 * conflicts the code meets by itself: a path that is taken, or a file where a directory is needed.
 */
module DirMerge {
  import opened Common
  import opened FileTree

  // ---------------------------------------------------------------------------------------------
  // What is left at the source and what the target becomes
  // ---------------------------------------------------------------------------------------------

  /** What is left of `x` after it was moved to a place that holds `t`. */
  function Left(x: Entry, t: Option<Entry>): Option<Entry>
    decreases x, 1
  {
    if x.File? then if t.None? then None else Some(x)
    else
      var rest := Rest(x, if t.None? then EMPTY_DIR else t.value);
      if rest == map[] then None else Some(Dir(rest))
  }

  function Rest(x: Entry, t: Entry): map<Name, Entry>
    requires x.Dir?
    decreases x, 0
  {
    if t.File? then x.entries
    else map n | n in x.entries && Left(x.entries[n], At(t, n)).Some? :: Left(x.entries[n], At(t, n)).value
  }

  /** What the place holds afterwards. */
  function After(x: Entry, t: Option<Entry>): Entry
    decreases x, 1
  {
    if x.File? then if t.None? then x else t.value
    else Filled(x, if t.None? then EMPTY_DIR else t.value)
  }

  function Filled(x: Entry, t: Entry): Entry
    requires x.Dir?
    decreases x, 0
  {
    if t.File? then t
    else Dir(map n | n in t.entries.Keys + x.entries.Keys ::
             if n in x.entries then After(x.entries[n], At(t, n)) else t.entries[n])
  }

  // ---------------------------------------------------------------------------------------------
  // The loop over the entries
  // ---------------------------------------------------------------------------------------------

  /** The two directories when the entries in `done` have been dealt with. */
  ghost function RestFor(x: Entry, t: Entry, done: set<Name>): map<Name, Entry>
    requires x.Dir?
  {
    map n | n in x.entries && (n !in done || Left(x.entries[n], At(t, n)).Some?) ::
      if n in done then Left(x.entries[n], At(t, n)).value else x.entries[n]
  }

  ghost function FilledFor(x: Entry, t: Entry, done: set<Name>): map<Name, Entry>
    requires x.Dir? && t.Dir? && done <= x.entries.Keys
  {
    map n | n in t.entries.Keys + done :: if n in done then After(x.entries[n], At(t, n)) else t.entries[n]
  }

  lemma RestStep(x: Entry, t: Entry, done: set<Name>, n: Name)
    requires x.Dir? && n in x.entries && n !in done
    ensures var left := Left(x.entries[n], At(t, n));
            RestFor(x, t, done + {n})
            == if left.None? then RestFor(x, t, done) - {n} else RestFor(x, t, done)[n := left.value]
    ensures n in RestFor(x, t, done) && RestFor(x, t, done)[n] == x.entries[n]
  {
    hide Left;
  }

  lemma FilledStep(x: Entry, t: Entry, done: set<Name>, n: Name)
    requires x.Dir? && t.Dir? && done <= x.entries.Keys && n in x.entries && n !in done
    ensures FilledFor(x, t, done + {n}) == FilledFor(x, t, done)[n := After(x.entries[n], At(t, n))]
    ensures n in FilledFor(x, t, done) <==> n in t.entries
    ensures n in t.entries ==> FilledFor(x, t, done)[n] == t.entries[n]
  {
    hide After;
  }

  lemma LoopDone(x: Entry, t: Entry)
    requires x.Dir?
    ensures t.Dir? ==>
              && RestFor(x, t, x.entries.Keys) == Rest(x, t)
              && Dir(FilledFor(x, t, x.entries.Keys)) == Filled(x, t)
    ensures RestFor(x, t, {}) == x.entries && (t.Dir? ==> FilledFor(x, t, {}) == t.entries)
  {
  }

  /** `src` and `dst` are the two directories; below a file no path exists and none can be created. */
  method MoveDirContents(src: Entry, dst: Entry) returns (src': map<Name, Entry>, dst': Entry)
    requires src.Dir?
    ensures src' == Rest(src, dst) && dst' == Filled(src, dst)
    decreases src
  {
    hide RestFor, FilledFor;
    src', dst' := src.entries, dst;
    var rest := src.entries.Keys;
    LoopDone(src, dst);
    ghost var done: set<Name> := {};
    while rest != {}
      invariant rest <= src.entries.Keys && done == src.entries.Keys - rest
      invariant dst.File? ==> src' == src.entries && dst' == dst
      invariant dst.Dir? ==> src' == RestFor(src, dst, done) && dst' == Dir(FilledFor(src, dst, done))
      decreases rest
    {
      var n :| n in rest;
      rest := rest - {n};
      if dst.Dir? {
        RestStep(src, dst, done, n);
        FilledStep(src, dst, done, n);
      }
      done := done + {n};
      var taken := dst'.Dir? && n in dst'.entries;
      var x := src.entries[n];
      if x.Dir? {
        if !taken {
          if dst'.File? {
            continue;
          }
          dst' := Dir(dst'.entries[n := EMPTY_DIR]);
        }
        var sub, target := MoveDirContents(x, dst'.entries[n]);
        dst' := Dir(dst'.entries[n := target]);
        src' := if sub == map[] then src' - {n} else src'[n := Dir(sub)];
      } else {
        if taken || dst'.File? {
          continue;
        }
        dst' := Dir(dst'.entries[n := x]);
        src' := src' - {n};
      }
    }
    assert done == src.entries.Keys;
  }

  // ---------------------------------------------------------------------------------------------
  // File by file
  // ---------------------------------------------------------------------------------------------

  /** Nothing is at `path`, and no proper prefix of it is a file. */
  predicate Free(e: Option<Entry>, path: Path)
    decreases |path|
  {
    e.None? || (path != [] && e.value.Dir? && Free(At(e.value, path[0]), path[1..]))
  }

  lemma FreeMeaning(e: Option<Entry>, path: Path)
    ensures Free(e, path) <==> Lookup(e, path).None? && forall i :: 0 <= i < |path| ==> FileAt(e, path[..i]).None?
    decreases |path|
  {
    if path != [] && e.Some? {
      FreeMeaning(At(e.value, path[0]), path[1..]);
      assert path[..0] == [];
      forall i | 1 <= i < |path| ensures FileAt(e, path[..i]) == FileAt(At(e.value, path[0]), path[1..][..i - 1]) {
        assert path[..i][0] == path[0] && path[..i][1..] == path[1..][..i - 1];
      }
      if e.value.Dir? {
        if Free(e, path) {
          forall i | 0 <= i < |path| ensures FileAt(e, path[..i]).None? {
            assert i > 0 ==> FileAt(At(e.value, path[0]), path[1..][..i - 1]).None?;
          }
        } else if Lookup(e, path).None? {
          var i :| 0 <= i < |path[1..]| && FileAt(At(e.value, path[0]), path[1..][..i]).Some?;
          assert FileAt(e, path[..i + 1]).Some?;
        }
      } else {
        assert FileAt(e, path[..0]).Some?;
      }
    }
  }

  /**
   * The merge path by path. A file of the target is kept as it is; a file of the source moves exactly when
   * its path is free there; every other source file stays where it was; nothing else appears anywhere.
   */
  lemma {:induction false} MergeByPath(x: Entry, t: Option<Entry>, path: Path)
    ensures FileAt(Some(After(x, t)), path) ==
            if FileAt(t, path).Some? then FileAt(t, path) else if Free(t, path) then FileAt(Some(x), path) else None
    ensures FileAt(Left(x, t), path) == if Free(t, path) then None else FileAt(Some(x), path)
    decreases |path|
  {
    if path == [] {
      if x.Dir? && t.None? {
        MovedWhole(x);
      }
    } else {
      NothingThere(path[1..]);
      if x.Dir? && (t.None? || t.value.Dir?) {
        var n := path[0];
        var d := if t.None? then EMPTY_DIR else t.value;
        var rest := Rest(x, d);
        assert Left(x, t) == if rest == map[] then None else Some(Dir(rest));
        if n in x.entries {
          MergeByPath(x.entries[n], At(d, n), path[1..]);
          assert At(After(x, t), n) == Some(After(x.entries[n], At(d, n)));
          assert At(Dir(rest), n) == Left(x.entries[n], At(d, n));
        } else {
          assert At(After(x, t), n) == At(d, n) && At(Dir(rest), n).None?;
        }
        assert rest == map[] ==> At(Dir(rest), n).None?;
      }
    }
  }

  lemma NothingThere(path: Path)
    ensures FileAt(None, path).None? && Free(None, path)
  {
  }

  /** A directory moved to a free place leaves nothing behind. */
  lemma {:induction false} MovedWhole(x: Entry)
    ensures Left(x, None).None?
    decreases x
  {
    if x.Dir? {
      forall n | n in x.entries ensures Left(x.entries[n], At(EMPTY_DIR, n)).None? {
        MovedWhole(x.entries[n]);
      }
    }
  }

  /** No file of either tree is lost or changed: each is found at its path in the target or in what is left. */
  lemma NoFileIsLost(src: Entry, dst: Entry, path: Path)
    requires src.Dir? && path != []
    ensures FileAt(Some(dst), path).Some? ==> FileAt(Some(Filled(src, dst)), path) == FileAt(Some(dst), path)
    ensures FileAt(Some(src), path).Some? ==>
              if Free(Some(dst), path)
              then FileAt(Some(Filled(src, dst)), path) == FileAt(Some(src), path)
                && FileAt(Some(Dir(Rest(src, dst))), path).None?
              else FileAt(Some(Dir(Rest(src, dst))), path) == FileAt(Some(src), path)
    ensures FileAt(Some(Filled(src, dst)), path).Some? ==>
              FileAt(Some(dst), path).Some? || (Free(Some(dst), path) && FileAt(Some(src), path).Some?)
  {
    MergeByPath(src, Some(dst), path);
    NothingThere(path[1..]);
    FreeMeaning(Some(dst), path);
    assert At(EMPTY_DIR, path[0]).None?;
  }

  /** Running the merge again on what is left moves nothing and changes nothing. */
  lemma {:induction false} SecondRunMovesNothing(x: Entry, t: Option<Entry>)
    ensures Left(x, t).Some? ==>
              After(Left(x, t).value, Some(After(x, t))) == After(x, t)
                && Left(Left(x, t).value, Some(After(x, t))) == Left(x, t)
    decreases x
  {
    if x.Dir? && Left(x, t).Some? && (t.None? || t.value.Dir?) {
      var d := if t.None? then EMPTY_DIR else t.value;
      var rest, full := Rest(x, d), Filled(x, d);
      forall n | n in rest
        ensures n in full.entries && After(rest[n], At(full, n)) == full.entries[n]
                && Left(rest[n], At(full, n)) == Some(rest[n])
      {
        SecondRunMovesNothing(x.entries[n], At(d, n));
      }
      assert Filled(Dir(rest), full).entries == full.entries;
      assert Rest(Dir(rest), full) == rest;
    }
  }
}
