/**
 * What is seen at each path of a configuration with includes, told by the files as they were read: the including
 * file decides, then the includes from the last to the first, each with its own includes below it; nothing but
 * the `include` keys is dropped.
 */
module ConfigLayers {
  import opened Common
  import opened DeepMerge
  import opened ConfigIncludes
  import PathText

  /** What is seen at every path. */
  type View = seq<string> -> Option<Head>

  function Of(v: Toml): View {
    path => HeadAt(v, path)
  }

  /** A value that is no table stands at the path or above it. */
  ghost predicate Covers(view: View, path: seq<string>) {
    exists i :: 0 <= i <= |path| && view(path[..i]).Some? && view(path[..i]).value.Plain?
  }

  function KeysIn(h: Option<Head>): set<string> {
    if h.Some? && h.value.Keys? then h.value.keys else {}
  }

  /** The upper view where it decides; the keys of both where both have tables; else the lower one. */
  ghost function Over(below: View, above: View): View {
    path =>
      if Covers(above, path) then above(path)
      else if above(path).None? then below(path)
      else Some(Keys(KeysIn(above(path)) + KeysIn(below(path))))
  }

  /** The same without the top-level key `include`. */
  function HidingInclude(view: View): View {
    path =>
      if path == [] then
        (if view([]).Some? && view([]).value.Keys? then Some(Keys(view([]).value.keys - {"include"})) else view([]))
      else if path[0] == "include" then None
      else view(path)
  }

  /** A file with its includes below it, in the order in which it lists them. */
  ghost function Seen(value: Toml, forest: seq<Node>): View
    decreases forest, 1, 0
  {
    if forest == [] then Of(value) else Over(SeenOn(Of(Table(map[])), forest), HidingInclude(Of(value)))
  }

  ghost function SeenOn(below: View, forest: seq<Node>): View
    decreases forest, 0, |forest|
  {
    if forest == [] then below
    else SeenOn(Over(below, HidingInclude(Seen(forest[0].value, forest[0].children))), forest[1..])
  }

  lemma {:induction false} BlocksIsCovers(v: Toml, path: seq<string>)
    ensures Blocks(v, path) <==> Covers(Of(v), path)
    decreases |path|
  {
    assert path[..0] == [];
    if v.Table? && path != [] && path[0] in v.entries {
      BlocksIsCovers(v.entries[path[0]], path[1..]);
      CoversBelow(v, path);
    } else if v.Table? {
      forall i | 0 <= i <= |path| ensures !(HeadAt(v, path[..i]).Some? && HeadAt(v, path[..i]).value.Plain?) {
        if i > 0 {
          assert path[..i][0] == path[0];
        }
      }
    } else {
      assert HeadAt(v, path[..0]) == Some(Plain(v));
    }
  }

  lemma CoversBelow(v: Toml, path: seq<string>)
    requires v.Table? && path != [] && path[0] in v.entries
    ensures Covers(Of(v), path) <==> Covers(Of(v.entries[path[0]]), path[1..])
  {
    var w, rest := v.entries[path[0]], path[1..];
    forall i | 1 <= i <= |path| ensures HeadAt(v, path[..i]) == HeadAt(w, rest[..i - 1]) {
      assert path[..i][1..] == rest[..i - 1];
    }
    if Covers(Of(v), path) {
      var i :| 0 <= i <= |path| && Of(v)(path[..i]).Some? && Of(v)(path[..i]).value.Plain?;
      assert path[..0] == [];
      assert Of(w)(rest[..i - 1]).Some? && Of(w)(rest[..i - 1]).value.Plain?;
    }
    if Covers(Of(w), rest) {
      var i :| 0 <= i <= |rest| && Of(w)(rest[..i]).Some? && Of(w)(rest[..i]).value.Plain?;
      assert Of(v)(path[..i + 1]).Some? && Of(v)(path[..i + 1]).value.Plain?;
    }
  }

  /** Two views that agree everywhere. */
  ghost predicate Same(v: View, w: View) {
    forall path :: v(path) == w(path)
  }

  lemma SameCovers(v: View, w: View, path: seq<string>)
    requires Same(v, w)
    ensures Covers(v, path) <==> Covers(w, path)
  {
  }

  lemma MergeIsOver(base: Toml, overlay: Toml, below: View, above: View)
    requires Same(below, Of(base)) && Same(above, Of(overlay))
    ensures Same(Over(below, above), Of(Merge(base, overlay)))
  {
    forall path ensures Over(below, above)(path) == HeadAt(Merge(base, overlay), path) {
      MergeByPath(base, overlay, path);
      BlocksIsCovers(overlay, path);
      SameCovers(above, Of(overlay), path);
      assert below(path) == Of(base)(path) && above(path) == Of(overlay)(path);
      hide Merge, HeadAt, Covers, Blocks;
    }
  }

  lemma HidesTheKey(v: Toml, view: View)
    requires Same(view, Of(v))
    ensures Same(HidingInclude(view), Of(WithoutInclude(v)))
  {
    forall path ensures HidingInclude(view)(path) == HeadAt(WithoutInclude(v), path) {
      assert view(path) == Of(v)(path) && view([]) == Of(v)([]);
      if path != [] && v.Table? && path[0] in v.entries && path[0] != "include" {
        assert WithoutInclude(v).entries[path[0]] == v.entries[path[0]];
      }
    }
  }

  lemma {:induction false} LayeredIsSeen(value: Toml, forest: seq<Node>)
    ensures Same(Seen(value, forest), Of(Layered(value, forest)))
    decreases forest, 1, 0
  {
    hide Of, Over, HidingInclude, Merge, WithoutInclude;
    if forest != [] {
      var empty := Table(map[]);
      StackIsSeen(empty, Of(empty), forest);
      HidesTheKey(value, Of(value));
      MergeIsOver(StackOn(empty, forest), WithoutInclude(value), SeenOn(Of(empty), forest), HidingInclude(Of(value)));
    }
  }

  lemma {:induction false} StackIsSeen(base: Toml, below: View, forest: seq<Node>)
    requires Same(below, Of(base))
    ensures Same(SeenOn(below, forest), Of(StackOn(base, forest)))
    decreases forest, 0, |forest|
  {
    hide Of, Over, HidingInclude, Merge, WithoutInclude, Same;
    if forest != [] {
      var n := forest[0];
      var v := Layered(n.value, n.children);
      LayeredIsSeen(n.value, n.children);
      HidesTheKey(v, Seen(n.value, n.children));
      MergeIsOver(base, WithoutInclude(v), below, HidingInclude(Seen(n.value, n.children)));
      StackIsSeen(Merge(base, WithoutInclude(v)), Over(below, HidingInclude(Seen(n.value, n.children))), forest[1..]);
    }
  }

  /**
   * A resolved configuration shows at every path what its files show there, layered as documented: this says of every
   * setting of every file whether it is kept and which file decides.
   */
  lemma ResolvedIsSeen(fs: Fs, root: Toml, dir: Path, visited: set<Path>, depth: nat) returns (forest: seq<Node>)
    requires Resolve(fs, root, dir, visited, depth).0.Ok?
    ensures Unfolds(fs, root, dir, depth, forest) && FirstVisits(Paths(forest), visited)
    ensures forall path {:trigger Seen(root, forest)(path)} ::
              HeadAt(Resolve(fs, root, dir, visited, depth).0.value, path) == Seen(root, forest)(path)
  {
    forest := ResolveLayersIncludes(fs, root, dir, visited, depth);
    LayeredIsSeen(root, forest);
    hide Resolve, Unfolds, FirstVisits, Seen;
  }

  /**
   * With includes, the result has no `include` key; every other key of the including file is there, with the file's
   * own value unless that is a table; and where it is a table, it still has all its keys.
   */
  lemma OwnSettingsStand(fs: Fs, root: Toml, dir: Path, visited: set<Path>, depth: nat, k: string)
    requires Resolve(fs, root, dir, visited, depth).0.Ok? && Includes(root) != []
    ensures var v := Resolve(fs, root, dir, visited, depth).0.value;
            && root.Table? && v.Table? && "include" !in v.entries
            && (k != "include" && k in root.entries ==>
                  && k in v.entries
                  && (!root.entries[k].Table? ==> v.entries[k] == root.entries[k])
                  && (root.entries[k].Table? ==>
                        v.entries[k].Table? && root.entries[k].entries.Keys <= v.entries[k].entries.Keys))
  {
    var forest := ResolveLayersIncludes(fs, root, dir, visited, depth);
    hide Resolve, FirstVisits, StackOn;
    assert forest != [];
    NoIncludeInStack(Table(map[]), forest);
    TopOfMerge(StackOn(Table(map[]), forest), root, k);
  }

  predicate HasInclude(v: Toml) {
    v.Table? && "include" in v.entries
  }

  lemma {:induction false} NoIncludeInStack(base: Toml, forest: seq<Node>)
    requires !HasInclude(base)
    ensures !HasInclude(StackOn(base, forest))
    decreases |forest|
  {
    hide Layered;
    if forest != [] {
      NoIncludeInStack(Merge(base, WithoutInclude(Layered(forest[0].value, forest[0].children))), forest[1..]);
    }
  }

  lemma TopOfMerge(base: Toml, root: Toml, k: string)
    requires root.Table? && !HasInclude(base)
    ensures var v := Merge(base, WithoutInclude(root));
            && v.Table? && "include" !in v.entries
            && (k != "include" && k in root.entries ==>
                  && k in v.entries
                  && (!root.entries[k].Table? ==> v.entries[k] == root.entries[k])
                  && (root.entries[k].Table? ==>
                        v.entries[k].Table? && root.entries[k].entries.Keys <= v.entries[k].entries.Keys))
  {
  }

  // ---------------------------------------------------------------------------------------------
  // What an include is, and where it may lie
  // ---------------------------------------------------------------------------------------------

  predicate IsText(v: Toml) {
    v.Str?
  }

  predicate SaysText(v: Toml, text: string) {
    v == Str(text)
  }

  ghost predicate AreTexts(items: seq<Toml>, incs: seq<string>) {
    Gives(items, incs, IsText, SaysText)
  }

  lemma {:induction false} StringsAreThose(items: seq<Toml>)
    ensures AreTexts(items, Strings(items))
  {
    hide Gives;
    if items == [] {
      GivesNothing(IsText, SaysText);
    } else {
      StringsAreThose(items[1..]);
      assert items == [items[0]] + items[1..];
      if items[0].Str? {
        GivesFirst(items[0], items[0].text, items[1..], Strings(items[1..]), IsText, SaysText);
      } else {
        PassesOver(items[0], items[1..], Strings(items[1..]), IsText, SaysText);
      }
    }
  }

  /** The includes of a file are the strings of its `include` array, all of them and in order; anything else is none. */
  lemma IncludesAre(v: Toml)
    ensures if HasInclude(v) && v.entries["include"].Array? then AreTexts(v.entries["include"].items, Includes(v))
            else Includes(v) == []
  {
    if HasInclude(v) && v.entries["include"].Array? {
      StringsAreThose(v.entries["include"].items);
    }
  }

  /** Two dots at `i`, between slashes or at an end of the text. */
  predicate UpAt(text: string, i: nat) {
    && i + 2 <= |text| && text[i] == '.' && text[i + 1] == '.'
    && (i == 0 || text[i - 1] == '/') && (i + 2 == |text| || text[i + 2] == '/')
  }

  ghost predicate GoesUp(text: string) {
    exists i: nat :: UpAt(text, i)
  }

  /**
   * An include is located exactly when its text is relative and never goes up, it can be resolved in the directory of
   * the including file, and what it resolves to lies below that directory.
   */
  lemma LocatedExactlyWhen(fs: Fs, dir: Path, inc: string, path: Path)
    ensures Locate(fs, dir, inc) == Ok(path) <==>
              && (inc == "" || inc[0] != '/') && !GoesUp(inc)
              && fs.canonical(dir, inc) == Some(path)
              && fs.canonicalDir(dir).Some? && fs.canonicalDir(dir).value <= path
  {
    GoesUpIsAPart(inc);
    hide GoesUp, PathText.Split;
  }

  /** Why an include is not taken: the first thing wrong with its text, its place or its content. */
  lemma RefusedForTheFirstFault(fs: Fs, dir: Path, inc: string)
    ensures Locate(fs, dir, inc).Err? ==>
              Locate(fs, dir, inc).error
              == if inc != "" && inc[0] == '/' then AbsolutePath(inc)
                 else if GoesUp(inc) then PathTraversal(inc)
                 else if fs.canonical(dir, inc).None? then Unresolvable(inc)
                 else if fs.canonicalDir(dir).None? then BadConfigDir
                 else EscapesConfigDir(inc)
    ensures forall path :: ReadToml(fs, path, inc)
                           == if path !in fs.files then Err(Unreadable(inc))
                              else if fs.files[path] == BadSyntax then Err(Unparsable(inc))
                              else Ok(fs.files[path].value)
  {
    GoesUpIsAPart(inc);
    hide GoesUp, PathText.Split;
  }

  /** Below the tenth nesting nothing is resolved, whatever the file holds. */
  lemma TooDeepIsRefused(fs: Fs, value: Toml, dir: Path, visited: set<Path>, depth: nat)
    ensures depth > 10 ==> Resolve(fs, value, dir, visited, depth) == (Err(DepthExceeded), visited)
  {
  }

  lemma GoesUpIsAPart(inc: string)
    ensures GoesUp(inc) <==> ".." in PathText.Split(inc)
  {
    PathText.PartOf(inc, "..");
    forall i: nat ensures UpAt(inc, i) <==> PathText.Stands(inc, "..", i) {
      UpAtStands(inc, i);
    }
    hide UpAt, PathText.Stands, PathText.Split;
  }

  lemma UpAtStands(inc: string, i: nat)
    ensures UpAt(inc, i) <==> PathText.Stands(inc, "..", i)
  {
    var dots := "..";
    assert |dots| == 2 && dots[0] == '.' && dots[1] == '.';
    if i + 2 <= |inc| && PathText.SameAt(inc, dots, i) {
      assert inc[i + 0] == dots[0] && inc[i + 1] == dots[1];
    }
  }
}
