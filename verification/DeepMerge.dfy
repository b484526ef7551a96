/**
 * Deep merge of TOML values, `deep_merge_toml` in `crates/kernel/src/config.rs`: the update of the base
 * in place, what it means path by path, and its algebra.
 */
module DeepMerge {
  import opened Common

  /** A TOML value; floats and dates appear only as opaque text. */
  datatype Toml =
    | Table(entries: map<string, Toml>)
    | Array(items: seq<Toml>)
    | Str(text: string)
    | Int(n: int)
    | Bool(b: bool)
    | Opaque(raw: string)

  function Merge(base: Toml, overlay: Toml): Toml
    decreases overlay
  {
    if base.Table? && overlay.Table? then
      Table(map k | k in base.entries.Keys + overlay.entries.Keys ::
              if k !in overlay.entries then base.entries[k]
              else if k in base.entries then Merge(base.entries[k], overlay.entries[k])
              else overlay.entries[k])
    else overlay
  }

  /** The entries of `base` after the overlay entries with a key in `done` have been merged in. */
  ghost function MergedFor(base: map<string, Toml>, overlay: map<string, Toml>, done: set<string>): map<string, Toml>
    requires done <= overlay.Keys
  {
    map k | k in base.Keys + done ::
      if k !in done then base[k] else if k in base then Merge(base[k], overlay[k]) else overlay[k]
  }

  /** The recursion over `&mut base`: `merged` is the value the base holds afterwards. */
  method DeepMergeToml(base: Toml, overlay: Toml) returns (merged: Toml)
    ensures merged == Merge(base, overlay)
    decreases overlay
  {
    if base.Table? && overlay.Table? {
      var tbl := base.entries;
      var rest := overlay.entries.Keys;
      while rest != {}
        invariant rest <= overlay.entries.Keys
        invariant tbl == MergedFor(base.entries, overlay.entries, overlay.entries.Keys - rest)
        decreases rest
      {
        var key :| key in rest;
        if key in tbl {
          var inner := DeepMergeToml(tbl[key], overlay.entries[key]);
          tbl := tbl[key := inner];
        } else {
          tbl := tbl[key := overlay.entries[key]];
        }
        rest := rest - {key};
      }
      merged := Table(tbl);
    } else {
      merged := overlay;
    }
  }

  // ---------------------------------------------------------------------------------------------
  // The meaning of a merge, path by path
  // ---------------------------------------------------------------------------------------------

  function Lookup(v: Toml, path: seq<string>): Option<Toml>
    decreases |path|
  {
    if path == [] then Some(v)
    else if v.Table? && path[0] in v.entries then Lookup(v.entries[path[0]], path[1..])
    else None
  }

  /** Some prefix of `path`, possibly all of it, leads to a value of `v` that is not a table. */
  predicate Blocks(v: Toml, path: seq<string>)
    decreases |path|
  {
    if !v.Table? then true
    else path != [] && path[0] in v.entries && Blocks(v.entries[path[0]], path[1..])
  }

  /** What can be seen at one path: the keys of a table, or any other value whole. */
  datatype Head = Keys(keys: set<string>) | Plain(value: Toml)

  function HeadAt(v: Toml, path: seq<string>): Option<Head> {
    match Lookup(v, path)
    case None => None
    case Some(Table(entries)) => Some(Keys(entries.Keys))
    case Some(x) => Some(Plain(x))
  }

  /**
   * What is seen under a path of the merged value: the overlay decides wherever it has something that is
   * not a table on the way; where it has a table, the keys are its own and those of a table of the base
   * at the same path; everywhere else the base shows through.
   */
  lemma {:induction false} MergeByPath(base: Toml, overlay: Toml, path: seq<string>)
    ensures var b, o, m := HeadAt(base, path), HeadAt(overlay, path), HeadAt(Merge(base, overlay), path);
            if Blocks(overlay, path) then m == o
            else if o.None? then m == b
            else o.value.Keys? && m == Some(Keys(o.value.keys + if b.Some? && b.value.Keys? then b.value.keys else {}))
    decreases |path|
  {
    LookupOnly(overlay, path);
    if path != [] && overlay.Table? && path[0] in overlay.entries && base.Table? && path[0] in base.entries {
      MergeByPath(base.entries[path[0]], overlay.entries[path[0]], path[1..]);
    } else if HeadAt(overlay, path).Some? && HeadAt(overlay, path).value.Keys? {
      var keys := HeadAt(overlay, path).value.keys;
      assert keys + {} == keys;
      assert path == [] && base.Table? ==> Merge(base, overlay).entries.Keys == keys + base.entries.Keys;
    }
  }

  /** Looking at every path tells a value completely, so `MergeByPath` determines the merge. */
  lemma {:induction false} HeadsDetermine(v: Toml, w: Toml)
    requires forall path :: HeadAt(v, path) == HeadAt(w, path)
    ensures v == w
    decreases v
  {
    assert HeadAt(v, []) == HeadAt(w, []);
    if v.Table? {
      forall k | k in v.entries ensures v.entries[k] == w.entries[k] {
        forall path: seq<string> ensures HeadAt(v.entries[k], path) == HeadAt(w.entries[k], path) {
          assert ([k] + path)[1..] == path;
          assert HeadAt(v, [k] + path) == HeadAt(w, [k] + path);
        }
        HeadsDetermine(v.entries[k], w.entries[k]);
      }
    }
  }

  lemma {:induction false} LookupOnly(v: Toml, path: seq<string>)
    ensures !Blocks(v, path) && Lookup(v, path).Some? ==> Lookup(v, path).value.Table?
    ensures !v.Table? && path != [] ==> Lookup(v, path).None?
    decreases |path|
  {
    if path != [] && v.Table? && path[0] in v.entries {
      LookupOnly(v.entries[path[0]], path[1..]);
    }
  }

  // ---------------------------------------------------------------------------------------------
  // Algebra
  // ---------------------------------------------------------------------------------------------

  lemma EmptyTableIsNeutral(v: Toml)
    ensures Merge(Table(map[]), v) == v
    ensures Merge(v, Table(map[])) == v <==> v.Table?
  {
    if v.Table? {
      assert Merge(Table(map[]), v).entries == v.entries;
      assert Merge(v, Table(map[])).entries == v.entries;
    }
  }

  /** Every key of `inner` is in `outer`, at every depth at which both are tables. */
  predicate Covered(inner: Toml, outer: Toml)
    decreases outer
  {
    inner.Table? && outer.Table? ==>
      forall k :: k in inner.entries ==> k in outer.entries && Covered(inner.entries[k], outer.entries[k])
  }

  /** Merging changes nothing of the overlay exactly when the base has no key it lacks. */
  lemma {:induction false} MergeAbsorbs(base: Toml, overlay: Toml)
    ensures Merge(base, overlay) == overlay <==> Covered(base, overlay)
    decreases overlay
  {
    if base.Table? && overlay.Table? {
      forall k | k in base.entries && k in overlay.entries
        ensures Merge(base.entries[k], overlay.entries[k]) == overlay.entries[k]
                <==> Covered(base.entries[k], overlay.entries[k])
      {
        MergeAbsorbs(base.entries[k], overlay.entries[k]);
      }
      var m := Merge(base, overlay).entries;
      if Covered(base, overlay) {
        assert m == overlay.entries;
      } else {
        var k :| k in base.entries && !(k in overlay.entries && Covered(base.entries[k], overlay.entries[k]));
        assert k in m && (k !in overlay.entries || m[k] != overlay.entries[k]);
      }
    }
  }

  lemma {:induction false} MergeTwice(base: Toml, overlay: Toml)
    ensures Merge(Merge(base, overlay), overlay) == Merge(base, overlay)
    ensures Merge(overlay, overlay) == overlay
    decreases overlay
  {
    if overlay.Table? {
      forall k | k in overlay.entries
        ensures Merge(overlay.entries[k], overlay.entries[k]) == overlay.entries[k]
      {
        MergeTwice(overlay.entries[k], overlay.entries[k]);
      }
      assert Merge(overlay, overlay).entries == overlay.entries;
      if base.Table? {
        forall k | k in overlay.entries && k in base.entries
          ensures Merge(Merge(base.entries[k], overlay.entries[k]), overlay.entries[k])
                  == Merge(base.entries[k], overlay.entries[k])
        {
          MergeTwice(base.entries[k], overlay.entries[k]);
        }
        assert Merge(Merge(base, overlay), overlay).entries == Merge(base, overlay).entries;
      }
    }
  }

  /**
   * No path has tables in `a` and `c` and something else in `b`, except where `a` has no key there that
   * `c` lacks.
   */
  predicate NoTableHiddenByValue(a: Toml, b: Toml, c: Toml)
    decreases c
  {
    a.Table? && c.Table? ==>
      if b.Table? then
        forall k :: k in a.entries && k in b.entries && k in c.entries ==>
          NoTableHiddenByValue(a.entries[k], b.entries[k], c.entries[k])
      else Covered(a, c)
  }

  /** Deep merge is associative exactly on the triples where no table is hidden by a plain value. */
  lemma {:induction false} MergeAssociativeExactlyWhen(a: Toml, b: Toml, c: Toml)
    ensures Merge(Merge(a, b), c) == Merge(a, Merge(b, c)) <==> NoTableHiddenByValue(a, b, c)
    decreases c
  {
    hide Covered;
    if a.Table? && c.Table? && !b.Table? {
      MergeAbsorbs(a, c);
    } else if a.Table? && b.Table? && c.Table? {
      forall k | k in a.entries && k in b.entries && k in c.entries ensures AssociatesAt(a, b, c, k) {
        MergeAssociativeExactlyWhen(a.entries[k], b.entries[k], c.entries[k]);
      }
      TablesAssociate(a, b, c);
    }
  }

  ghost predicate AssociatesAt(a: Toml, b: Toml, c: Toml, k: string)
    requires a.Table? && b.Table? && c.Table? && k in a.entries && k in b.entries && k in c.entries
  {
    var x, y, z := a.entries[k], b.entries[k], c.entries[k];
    Merge(Merge(x, y), z) == Merge(x, Merge(y, z)) <==> NoTableHiddenByValue(x, y, z)
  }

  lemma TablesAssociate(a: Toml, b: Toml, c: Toml)
    requires a.Table? && b.Table? && c.Table?
    requires forall k :: k in a.entries && k in b.entries && k in c.entries ==> AssociatesAt(a, b, c, k)
    ensures Merge(Merge(a, b), c) == Merge(a, Merge(b, c)) <==> NoTableHiddenByValue(a, b, c)
  {
    hide Covered, NoTableHiddenByValue;
    var l, r := Merge(Merge(a, b), c).entries, Merge(a, Merge(b, c)).entries;
    assert l.Keys == r.Keys;
    assert forall k :: k in l && !(k in a.entries && k in b.entries && k in c.entries) ==> l[k] == r[k];
    forall k | k in a.entries && k in b.entries && k in c.entries
      ensures l[k] == r[k] <==> NoTableHiddenByValue(a.entries[k], b.entries[k], c.entries[k])
    {
      assert AssociatesAt(a, b, c, k);
    }
    TablesHide(a, b, c);
    if NoTableHiddenByValue(a, b, c) {
      assert l == r;
    } else {
      var k :| k in a.entries && k in b.entries && k in c.entries
          && !NoTableHiddenByValue(a.entries[k], b.entries[k], c.entries[k]);
      assert l[k] != r[k];
    }
  }

  lemma TablesHide(a: Toml, b: Toml, c: Toml)
    requires a.Table? && b.Table? && c.Table?
    ensures NoTableHiddenByValue(a, b, c) <==>
            forall k :: k in a.entries && k in b.entries && k in c.entries ==>
                NoTableHiddenByValue(a.entries[k], b.entries[k], c.entries[k])
  {
  }

  /** `{x.y = 1}`, then `x = 2`, then `{x = {}}`: grouping the merges differently keeps or drops `y`. */
  lemma MergeNotAssociative()
    ensures var a, b, c := Table(map["x" := Table(map["y" := Int(1)])]), Table(map["x" := Int(2)]),
            Table(map["x" := Table(map[])]);
            Merge(Merge(a, b), c) != Merge(a, Merge(b, c))
  {
    var a, b, c := Table(map["x" := Table(map["y" := Int(1)])]), Table(map["x" := Int(2)]),
        Table(map["x" := Table(map[])]);
    assert !Covered(a.entries["x"], c.entries["x"]) by {
      assert "y" in a.entries["x"].entries && "y" !in c.entries["x"].entries;
    }
    assert "x" in a.entries && "x" in b.entries && "x" in c.entries;
    MergeAssociativeExactlyWhen(a, b, c);
  }
}
