/**
 * Config includes, `resolve_config_includes` in `crates/kernel/src/config.rs`: a recursion over a graph
 * of files with a visited set and a depth limit. The file system is a parameter.
 */
module ConfigIncludes {
  import opened Common
  import opened DeepMerge
  import PathText

  const MAX_INCLUDE_DEPTH: nat := 10

  /** A canonical path, as its components. */
  type Path = seq<string>

  datatype Content = BadSyntax | Parsed(value: Toml)

  /** `canonicalize` of an include below a directory, `canonicalize` of a directory, and the readable files. */
  datatype Fs = Fs(canonical: (Path, string) -> Option<Path>, canonicalDir: Path -> Option<Path>,
                   files: map<Path, Content>)

  datatype Error =
    | DepthExceeded
    | AbsolutePath(file: string)
    | PathTraversal(file: string)
    | Unresolvable(file: string)
    | BadConfigDir
    | EscapesConfigDir(file: string)
    | Circular(file: string)
    | Unreadable(file: string)
    | Unparsable(file: string)

  // ---------------------------------------------------------------------------------------------
  // The include list and the location of one include
  // ---------------------------------------------------------------------------------------------

  function Strings(items: seq<Toml>): seq<string> {
    if items == [] then []
    else if items[0].Str? then [items[0].text] + Strings(items[1..])
    else Strings(items[1..])
  }

  function Includes(v: Toml): seq<string> {
    if v.Table? && "include" in v.entries && v.entries["include"].Array? then Strings(v.entries["include"].items)
    else []
  }

  function WithoutInclude(v: Toml): Toml {
    if v.Table? then Table(v.entries - {"include"}) else v
  }

  function Parent(path: Path, otherwise: Path): Path {
    if path == [] then otherwise else path[..|path| - 1]
  }

  function Locate(fs: Fs, dir: Path, inc: string): Result<Path, Error> {
    if inc != [] && inc[0] == '/' then Err(AbsolutePath(inc))
    else if ".." in PathText.Split(inc) then Err(PathTraversal(inc))
    else
      match fs.canonical(dir, inc)
      case None => Err(Unresolvable(inc))
      case Some(path) =>
        match fs.canonicalDir(dir)
        case None => Err(BadConfigDir)
        case Some(root) => if root <= path then Ok(path) else Err(EscapesConfigDir(inc))
  }

  function ReadToml(fs: Fs, path: Path, inc: string): Result<Toml, Error> {
    if path !in fs.files then Err(Unreadable(inc))
    else match fs.files[path]
         case BadSyntax => Err(Unparsable(inc))
         case Parsed(v) => Ok(v)
  }

  // ---------------------------------------------------------------------------------------------
  // Resolution
  // ---------------------------------------------------------------------------------------------

  /** The outcome for the value, and the visited set afterwards. */
  type Outcome = (Result<Toml, Error>, set<Path>)

  function Resolve(fs: Fs, root: Toml, dir: Path, visited: set<Path>, depth: nat): Outcome
    decreases MAX_INCLUDE_DEPTH + 1 - depth, 1, 0
  {
    if depth > MAX_INCLUDE_DEPTH then (Err(DepthExceeded), visited)
    else if Includes(root) == [] then (Ok(root), visited)
    else
      match LoadAll(fs, Includes(root), dir, visited, depth, Table(map[]))
      case (Err(e), seen) => (Err(e), seen)
      case (Ok(base), seen) => (Ok(Merge(base, WithoutInclude(root))), seen)
  }

  function LoadAll(fs: Fs, incs: seq<string>, dir: Path, visited: set<Path>, depth: nat, base: Toml): Outcome
    requires depth <= MAX_INCLUDE_DEPTH
    decreases MAX_INCLUDE_DEPTH + 1 - depth, 0, |incs|
  {
    if incs == [] then (Ok(base), visited)
    else
      match Locate(fs, dir, incs[0])
      case Err(e) => (Err(e), visited)
      case Ok(path) =>
        if path in visited then (Err(Circular(incs[0])), visited)
        else
          match ReadToml(fs, path, incs[0])
          case Err(e) => (Err(e), visited + {path})
          case Ok(v) =>
            match Resolve(fs, v, Parent(path, dir), visited + {path}, depth + 1)
            case (Err(e), seen) => (Err(e), seen)
            case (Ok(v'), seen) => LoadAll(fs, incs[1..], dir, seen, depth, Merge(base, WithoutInclude(v')))
  }

  /** The recursion of the source; `root'` and `seen` are what `root_value` and `visited` hold afterwards. */
  method ResolveConfigIncludes(fs: Fs, root: Toml, dir: Path, visited: set<Path>, depth: nat)
    returns (root': Toml, seen: set<Path>, error: Option<Error>)
    ensures Resolve(fs, root, dir, visited, depth) == (if error.Some? then Err(error.value) else Ok(root'), seen)
    ensures error.Some? ==> root' == root
    decreases MAX_INCLUDE_DEPTH + 1 - depth
  {
    root', seen := root, visited;
    if depth > MAX_INCLUDE_DEPTH {
      return root, seen, Some(DepthExceeded);
    }
    var incs := Includes(root);
    if incs == [] {
      return root, seen, None;
    }
    var base := Table(map[]);
    for i := 0 to |incs|
      invariant LoadAll(fs, incs[i..], dir, seen, depth, base) == LoadAll(fs, incs, dir, visited, depth, Table(map[]))
    {
      assert incs[i..][1..] == incs[i + 1..];
      var located := Locate(fs, dir, incs[i]);
      if located.Err? {
        return root, seen, Some(located.error);
      }
      var path := located.value;
      if path in seen {
        return root, seen, Some(Circular(incs[i]));
      }
      seen := seen + {path};
      var read := ReadToml(fs, path, incs[i]);
      if read.Err? {
        return root, seen, Some(read.error);
      }
      var v, seen', inner := ResolveConfigIncludes(fs, read.value, Parent(path, dir), seen, depth + 1);
      seen := seen';
      if inner.Some? {
        return root, seen, inner;
      }
      base := DeepMergeToml(base, WithoutInclude(v));
    }
    root' := DeepMergeToml(base, WithoutInclude(root));
    error := None;
  }

  // ---------------------------------------------------------------------------------------------
  // The include forest, independently of the recursion
  // ---------------------------------------------------------------------------------------------

  /** One included file as read, with the files it includes in turn. */
  datatype Node = Node(path: Path, value: Toml, children: seq<Node>)

  /** `forest` unfolds the include list of `value`, nested no deeper than the limit. */
  ghost predicate Unfolds(fs: Fs, value: Toml, dir: Path, depth: nat, forest: seq<Node>)
    decreases forest, 1
  {
    && depth <= 10
    && |forest| == |Includes(value)|
    && forall i {:trigger forest[i]} :: 0 <= i < |forest| ==> UnfoldsNode(fs, Includes(value)[i], dir, depth, forest[i])
  }

  ghost predicate UnfoldsNode(fs: Fs, inc: string, dir: Path, depth: nat, n: Node)
    decreases n, 0
  {
    && Locate(fs, dir, inc) == Ok(n.path)
    && ReadToml(fs, n.path, inc) == Ok(n.value)
    && Unfolds(fs, n.value, Parent(n.path, dir), depth + 1, n.children)
  }

  /** The paths of a forest in the order in which they are loaded. */
  ghost function Paths(forest: seq<Node>): seq<Path> {
    if forest == [] then [] else [forest[0].path] + Paths(forest[0].children) + Paths(forest[1..])
  }

  /** The documented value: includes left to right, later ones on top, the including file above all. */
  ghost function Layered(value: Toml, forest: seq<Node>): Toml
    decreases forest, 1, 0
  {
    if forest == [] then value else Merge(StackOn(Table(map[]), forest), WithoutInclude(value))
  }

  ghost function StackOn(base: Toml, forest: seq<Node>): Toml
    decreases forest, 0, |forest|
  {
    if forest == [] then base
    else StackOn(Merge(base, WithoutInclude(Layered(forest[0].value, forest[0].children))), forest[1..])
  }

  ghost predicate NoRepeats(paths: seq<Path>) {
    forall i, j :: 0 <= i < j < |paths| ==> paths[i] != paths[j]
  }

  ghost predicate FirstVisits(paths: seq<Path>, visited: set<Path>) {
    NoRepeats(paths) && forall i :: 0 <= i < |paths| ==> paths[i] !in visited
  }

  function SetOf(paths: seq<Path>): set<Path> {
    set i | 0 <= i < |paths| :: paths[i]
  }

  lemma FirstVisitsConcat(a: seq<Path>, b: seq<Path>, visited: set<Path>)
    ensures FirstVisits(a + b, visited) <==> FirstVisits(a, visited) && FirstVisits(b, visited + SetOf(a))
    ensures visited + SetOf(a + b) == visited + SetOf(a) + SetOf(b)
  {
    var ab := a + b;
    if FirstVisits(ab, visited) {
      assert forall i :: 0 <= i < |a| ==> a[i] == ab[i];
      assert forall i :: 0 <= i < |b| ==> b[i] == ab[|a| + i];
    }
    forall p ensures p in SetOf(ab) <==> p in SetOf(a) || p in SetOf(b) {
      if p in SetOf(a) {
        var i :| 0 <= i < |a| && a[i] == p;
        assert ab[i] == p;
      }
      if p in SetOf(b) {
        var i :| 0 <= i < |b| && b[i] == p;
        assert ab[|a| + i] == p;
      }
    }
  }

  ghost predicate UnfoldsAll(fs: Fs, incs: seq<string>, dir: Path, depth: nat, nodes: seq<Node>) {
    && |nodes| == |incs|
    && forall i {:trigger nodes[i]} :: 0 <= i < |nodes| ==> UnfoldsNode(fs, incs[i], dir, depth, nodes[i])
  }

  lemma {:induction false} ResolveForest(fs: Fs, value: Toml, dir: Path, visited: set<Path>, depth: nat,
                                         forest: seq<Node>)
    requires Unfolds(fs, value, dir, depth, forest)
    ensures var r := Resolve(fs, value, dir, visited, depth);
            if FirstVisits(Paths(forest), visited)
            then r == (Ok(Layered(value, forest)), visited + SetOf(Paths(forest)))
            else r.0.Err?
    decreases forest, 1, 0
  {
    if forest != [] {
      LoadForest(fs, Includes(value), dir, visited, depth, Table(map[]), forest);
    } else {
      assert visited + SetOf([]) == visited;
    }
  }

  lemma PathsSplit(nodes: seq<Node>, visited: set<Path>)
    requires nodes != []
    ensures var n := nodes[0];
            var seen := visited + {n.path} + SetOf(Paths(n.children));
            && (FirstVisits(Paths(nodes), visited) <==>
                  n.path !in visited && FirstVisits(Paths(n.children), visited + {n.path})
                    && FirstVisits(Paths(nodes[1..]), seen))
            && visited + SetOf(Paths(nodes)) == seen + SetOf(Paths(nodes[1..]))
  {
    var n := nodes[0];
    FirstVisitsConcat([n.path] + Paths(n.children), Paths(nodes[1..]), visited);
    FirstVisitsConcat([n.path], Paths(n.children), visited);
    assert [n.path][0] == n.path;
    assert SetOf([n.path]) == {n.path};
    assert FirstVisits([n.path], visited) <==> n.path !in visited;
  }

  lemma UnfoldsRest(fs: Fs, incs: seq<string>, dir: Path, depth: nat, nodes: seq<Node>)
    requires UnfoldsAll(fs, incs, dir, depth, nodes) && nodes != []
    ensures UnfoldsNode(fs, incs[0], dir, depth, nodes[0]) && UnfoldsAll(fs, incs[1..], dir, depth, nodes[1..])
  {
    assert UnfoldsNode(fs, incs[0], dir, depth, nodes[0]);
    forall i | 0 <= i < |nodes[1..]| ensures UnfoldsNode(fs, incs[1..][i], dir, depth, nodes[1..][i]) {
      assert UnfoldsNode(fs, incs[i + 1], dir, depth, nodes[i + 1]);
    }
  }

  lemma {:induction false} LoadForest(fs: Fs, incs: seq<string>, dir: Path, visited: set<Path>, depth: nat, base: Toml,
                                      nodes: seq<Node>)
    requires depth <= MAX_INCLUDE_DEPTH && UnfoldsAll(fs, incs, dir, depth, nodes)
    ensures var r := LoadAll(fs, incs, dir, visited, depth, base);
            if FirstVisits(Paths(nodes), visited)
            then r == (Ok(StackOn(base, nodes)), visited + SetOf(Paths(nodes)))
            else r.0.Err?
    decreases nodes, 0, |nodes|
  {
    hide FirstVisits, SetOf, Paths, UnfoldsAll, Locate, ReadToml, Resolve, Layered;
    if nodes == [] {
      NothingLeft(fs, incs, dir, visited, depth, nodes);
    } else {
      var n := nodes[0];
      UnfoldsRest(fs, incs, dir, depth, nodes);
      PathsSplit(nodes, visited);
      SameLength(fs, incs, dir, depth, nodes);
      if n.path !in visited {
        ResolveForest(fs, n.value, Parent(n.path, dir), visited + {n.path}, depth + 1, n.children);
        if FirstVisits(Paths(n.children), visited + {n.path}) {
          var seen := visited + {n.path} + SetOf(Paths(n.children));
          LoadForest(fs, incs[1..], dir, seen, depth, Merge(base, WithoutInclude(Layered(n.value, n.children))),
                     nodes[1..]);
        }
      }
    }
  }

  lemma SameLength(fs: Fs, incs: seq<string>, dir: Path, depth: nat, nodes: seq<Node>)
    requires UnfoldsAll(fs, incs, dir, depth, nodes)
    ensures |incs| == |nodes|
  {
  }

  lemma NothingLeft(fs: Fs, incs: seq<string>, dir: Path, visited: set<Path>, depth: nat, nodes: seq<Node>)
    requires UnfoldsAll(fs, incs, dir, depth, nodes) && nodes == []
    ensures incs == [] && FirstVisits(Paths(nodes), visited) && visited + SetOf(Paths(nodes)) == visited
  {
  }

  lemma {:induction false} SuccessUnfolds(fs: Fs, value: Toml, dir: Path, visited: set<Path>, depth: nat)
    returns (forest: seq<Node>)
    requires Resolve(fs, value, dir, visited, depth).0.Ok?
    ensures Unfolds(fs, value, dir, depth, forest)
    decreases MAX_INCLUDE_DEPTH + 1 - depth, 1, 0
  {
    if Includes(value) == [] {
      forest := [];
    } else {
      forest := LoadUnfolds(fs, Includes(value), dir, visited, depth, Table(map[]));
    }
  }

  lemma {:induction false} LoadUnfolds(fs: Fs, incs: seq<string>, dir: Path, visited: set<Path>, depth: nat, base: Toml)
    returns (nodes: seq<Node>)
    requires depth <= MAX_INCLUDE_DEPTH && LoadAll(fs, incs, dir, visited, depth, base).0.Ok?
    ensures UnfoldsAll(fs, incs, dir, depth, nodes)
    decreases MAX_INCLUDE_DEPTH + 1 - depth, 0, |incs|
  {
    if incs == [] {
      nodes := [];
    } else {
      var path := Locate(fs, dir, incs[0]).value;
      var v := ReadToml(fs, path, incs[0]).value;
      var inner := Resolve(fs, v, Parent(path, dir), visited + {path}, depth + 1);
      var children := SuccessUnfolds(fs, v, Parent(path, dir), visited + {path}, depth + 1);
      var rest := LoadUnfolds(fs, incs[1..], dir, inner.1, depth, Merge(base, WithoutInclude(inner.0.value)));
      nodes := [Node(path, v, children)] + rest;
    }
  }

  /**
   * Resolution succeeds exactly when the include lists unfold into a finite forest no deeper than the
   * limit whose files can all be located inside their directory, read and parsed, and no file is reached
   * twice. Cycles, self-includes and files shared by two includes are therefore errors, and every run ends.
   */
  lemma ResolveSucceedsExactlyWhen(fs: Fs, root: Toml, dir: Path, visited: set<Path>, depth: nat)
    ensures Resolve(fs, root, dir, visited, depth).0.Ok? <==>
            exists forest :: Unfolds(fs, root, dir, depth, forest) && FirstVisits(Paths(forest), visited)
  {
    if Resolve(fs, root, dir, visited, depth).0.Ok? {
      var forest := SuccessUnfolds(fs, root, dir, visited, depth);
      ResolveForest(fs, root, dir, visited, depth, forest);
    }
    forall forest | Unfolds(fs, root, dir, depth, forest) && FirstVisits(Paths(forest), visited)
      ensures Resolve(fs, root, dir, visited, depth).0.Ok?
    {
      ResolveForest(fs, root, dir, visited, depth, forest);
    }
  }

  /** A success loads the files of the forest once each and yields the documented layering of their values. */
  lemma ResolveLayersIncludes(fs: Fs, root: Toml, dir: Path, visited: set<Path>, depth: nat) returns (forest: seq<Node>)
    requires Resolve(fs, root, dir, visited, depth).0.Ok?
    ensures Unfolds(fs, root, dir, depth, forest) && FirstVisits(Paths(forest), visited)
    ensures Resolve(fs, root, dir, visited, depth) == (Ok(Layered(root, forest)), visited + SetOf(Paths(forest)))
  {
    forest := SuccessUnfolds(fs, root, dir, visited, depth);
    ResolveForest(fs, root, dir, visited, depth, forest);
  }

  lemma {:induction false} VisitedGrows(fs: Fs, value: Toml, dir: Path, visited: set<Path>, depth: nat)
    ensures visited <= Resolve(fs, value, dir, visited, depth).1
    decreases MAX_INCLUDE_DEPTH + 1 - depth, 1, 0
  {
    if depth <= MAX_INCLUDE_DEPTH {
      LoadGrows(fs, Includes(value), dir, visited, depth, Table(map[]));
    }
  }

  lemma {:induction false} LoadGrows(fs: Fs, incs: seq<string>, dir: Path, visited: set<Path>, depth: nat, base: Toml)
    requires depth <= MAX_INCLUDE_DEPTH
    ensures visited <= LoadAll(fs, incs, dir, visited, depth, base).1
    decreases MAX_INCLUDE_DEPTH + 1 - depth, 0, |incs|
  {
    if incs != [] && Locate(fs, dir, incs[0]).Ok? {
      var path := Locate(fs, dir, incs[0]).value;
      if path !in visited && ReadToml(fs, path, incs[0]).Ok? {
        var v := ReadToml(fs, path, incs[0]).value;
        VisitedGrows(fs, v, Parent(path, dir), visited + {path}, depth + 1);
        var inner := Resolve(fs, v, Parent(path, dir), visited + {path}, depth + 1);
        if inner.0.Ok? {
          LoadGrows(fs, incs[1..], dir, inner.1, depth, Merge(base, WithoutInclude(inner.0.value)));
        }
      }
    }
  }

  /** An include of a file visited before, on a cycle or not, makes the whole resolution fail. */
  lemma RepeatedIncludeIsRefused(fs: Fs, root: Toml, dir: Path, visited: set<Path>, depth: nat, i: nat)
    requires i < |Includes(root)| && Locate(fs, dir, Includes(root)[i]).Ok?
    requires Locate(fs, dir, Includes(root)[i]).value in visited
    ensures Resolve(fs, root, dir, visited, depth).0.Err?
  {
    if Resolve(fs, root, dir, visited, depth).0.Ok? {
      var forest := ResolveLayersIncludes(fs, root, dir, visited, depth);
      assert UnfoldsNode(fs, Includes(root)[i], dir, depth, forest[i]);
      PathOfChild(forest, i);
    }
  }

  lemma {:induction false} PathOfChild(forest: seq<Node>, i: nat)
    requires i < |forest|
    ensures exists j :: 0 <= j < |Paths(forest)| && Paths(forest)[j] == forest[i].path
    decreases |forest|
  {
    if i == 0 {
      assert Paths(forest)[0] == forest[0].path;
    } else {
      PathOfChild(forest[1..], i - 1);
      var j :| 0 <= j < |Paths(forest[1..])| && Paths(forest[1..])[j] == forest[i].path;
      assert Paths(forest)[1 + |Paths(forest[0].children)| + j] == forest[i].path;
    }
  }

  // ---------------------------------------------------------------------------------------------
  // Two files that share an include
  // ---------------------------------------------------------------------------------------------

  function Including(files: seq<Toml>): Toml {
    Table(map["include" := Array(files)])
  }

  /** In the directory `cfg`, the files `a` and `b` both include `c`, which includes nothing: there is no cycle. */
  function Diamond(): Fs {
    Fs((dir: Path, inc: string) => Some(dir + [inc]), (dir: Path) => Some(dir),
       map[["cfg", "a"] := Parsed(Including([Str("c")])),
           ["cfg", "b"] := Parsed(Including([Str("c")])),
           ["cfg", "c"] := Parsed(Table(map[]))])
  }

  lemma InDiamond(inc: string)
    requires inc in {"a", "b", "c"}
    ensures Locate(Diamond(), ["cfg"], inc) == Ok(["cfg", inc]) && Parent(["cfg", inc], []) == ["cfg"]
    ensures ReadToml(Diamond(), ["cfg", inc], inc) == Ok(if inc == "c" then Table(map[]) else Including([Str("c")]))
  {
    PathText.SplitName(inc, "");
    assert ["cfg"] + [inc] == ["cfg", inc];
    assert ["cfg", "a"][1] == "a" && ["cfg", "b"][1] == "b" && ["cfg", "c"][1] == "c";
  }

  lemma IncludesOf(files: seq<Toml>)
    ensures Includes(Including(files)) == Strings(files)
    ensures Strings([Str("a"), Str("b")]) == ["a", "b"] && Strings([Str("c")]) == ["c"]
  {
    assert [Str("a"), Str("b")][1..] == [Str("b")] && [Str("b")][1..] == [] && [Str("c")][1..] == [];
    assert Strings([Str("b")]) == ["b"] + Strings([]);
  }

  /** The file that includes `c` alone: fine when `c` has not been visited, circular when it has. */
  lemma SideOfDiamond(visited: set<Path>, depth: nat)
    requires depth < MAX_INCLUDE_DEPTH
    ensures var r, path := Resolve(Diamond(), Including([Str("c")]), ["cfg"], visited, depth), ["cfg", "c"];
            if path in visited then r == (Err(Circular("c")), visited) else r.0.Ok? && r.1 == visited + {path}
  {
    hide Locate, ReadToml, Diamond, Merge, Including, Strings;
    var fs, dir, path, empty := Diamond(), ["cfg"], ["cfg", "c"], Table(map[]);
    var root := Including([Str("c")]);
    IncludesOf([Str("c")]);
    InDiamond("c");
    assert Includes(root) == ["c"] && Includes(empty) == [] && ["c"][1..] == [] && Parent(path, dir) == dir;
    var r := LoadAll(fs, ["c"], dir, visited, depth, empty);
    assert Resolve(fs, empty, dir, visited + {path}, depth + 1) == (Ok(empty), visited + {path});
    if path !in visited {
      assert r == LoadAll(fs, ["c"][1..], dir, visited + {path}, depth, Merge(empty, WithoutInclude(empty)));
      assert r.0.Ok? && r.1 == visited + {path};
    }
  }

  /**
   * A graph without any cycle is refused as circular because two files share an include; either file alone
   * resolves.
   */
  lemma SharedIncludeIsRefused(visited: set<Path>)
    requires ["cfg", "a"] !in visited && ["cfg", "b"] !in visited && ["cfg", "c"] !in visited
    ensures Resolve(Diamond(), Including([Str("a"), Str("b")]), ["cfg"], visited, 0).0 == Err(Circular("c"))
    ensures Resolve(Diamond(), Including([Str("c")]), ["cfg"], visited, 0).0.Ok?
  {
    hide Locate, ReadToml, Diamond, Merge, Resolve, Including, Includes, Strings;
    IncludesOf([Str("a"), Str("b")]);
    InDiamond("a");
    InDiamond("b");
    var a, b, c := ["cfg", "a"], ["cfg", "b"], ["cfg", "c"];
    assert a[1] == "a" && b[1] == "b" && c[1] == "c" && Parent(a, ["cfg"]) == Parent(b, ["cfg"]) == ["cfg"];
    SideOfDiamond(visited, 0);
    SideOfDiamond(visited + {a}, 1);
    SideOfDiamond(visited + {a} + {c} + {b}, 1);
    assert ["a", "b"][1..] == ["b"];
    ResolveList(Diamond(), Including([Str("a"), Str("b")]), ["cfg"], visited);
  }

  lemma ResolveList(fs: Fs, root: Toml, dir: Path, visited: set<Path>)
    ensures Includes(root) != [] && LoadAll(fs, Includes(root), dir, visited, 0, Table(map[])).0.Err? ==>
              Resolve(fs, root, dir, visited, 0).0
                == Err(LoadAll(fs, Includes(root), dir, visited, 0, Table(map[])).0.error)
  {
    hide LoadAll;
  }
}
