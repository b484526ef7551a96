/**
 * The state id of a manifest: the hash of its sorted `path:hash` lines. The hash function is a parameter;
 * what is proved is about the text that is hashed.
 */
module ManifestHash {
  import opened Common
  import opened FileTree
  import opened PathText
  import opened Manifest

  function Line(path: string, hash: string): string {
    path + ":" + hash + "\n"
  }

  function Lines(files: map<string, string>, keys: seq<string>): string
    requires forall k :: k in keys ==> k in files
  {
    if keys == [] then "" else Line(keys[0], files[keys[0]]) + Lines(files, keys[1..])
  }

  /** The text of a manifest, in the order of its paths. */
  ghost function Serialised(files: map<string, string>): string {
    SortedLists(files.Keys);
    Lines(files, SortedKeys(files.Keys))
  }

  lemma LinesFrom(files: map<string, string>, rest: set<string>, k: string)
    requires IsLeast(k, rest) && rest <= files.Keys
    ensures (forall x :: x in SortedKeys(rest) ==> x in files)
            && (forall x :: x in SortedKeys(rest - {k}) ==> x in files)
    ensures Lines(files, SortedKeys(rest)) == Line(k, files[k]) + Lines(files, SortedKeys(rest - {k}))
  {
    SortedFrom(k, rest);
    SortedLists(rest);
    SortedLists(rest - {k});
    assert SortedKeys(rest)[1..] == SortedKeys(rest - {k});
  }

  lemma LineAppended(text: string, k: string, h: string)
    ensures text + k + ":" + h + "\n" == text + Line(k, h)
  {
  }

  method HashManifest(sha: string -> string, files: map<string, string>) returns (hash: string)
    ensures hash == sha(Serialised(files))
  {
    var text, rest := "", files.Keys;
    SortedLists(files.Keys);
    while rest != {}
      invariant rest <= files.Keys && forall k :: k in SortedKeys(rest) ==> k in files
      invariant Serialised(files) == text + Lines(files, SortedKeys(rest))
      decreases rest
    {
      LeastExists(rest);
      var k :| k in rest && IsLeast(k, rest);
      hide *;
      LinesFrom(files, rest, k);
      ConcatAssoc(text, Line(k, files[k]), Lines(files, SortedKeys(rest - {k})));
      LineAppended(text, k, files[k]);
      text := text + k + ":" + files[k] + "\n";
      rest := rest - {k};
    }
    ConcatNothing(text);
    assert Lines(files, SortedKeys(rest)) == "";
    hash := sha(text);
  }

  datatype State = State(files: map<string, string>, hash: string)

  ghost function StateOf(sha: string -> string, files: map<string, string>): State {
    var hashes := map k | k in files :: sha(files[k]);
    State(hashes, sha(Serialised(hashes)))
  }

  /** `None` when the workspace cannot be listed. */
  method BuildManifest(sha: string -> string, ws: Entry) returns (m: Option<State>)
    ensures m.Some? <==> ws.Dir?
    ensures m.Some? ==> exists files :: Collects(ws, files) && m.value == StateOf(sha, files)
    ensures m.Some? ==> m.value.hash == sha(Serialised(m.value.files))
  {
    if ws.File? {
      return None;
    }
    hide *;
    var found := IterDefinitionFiles(ws);
    var hashes: map<string, string> := map[];
    ghost var files: map<string, string> := map[];
    NothingRead(sha, ws);
    for i := 0 to |found|
      invariant Hashed(sha, files, hashes) && ReadFrom(ws, found[..i], files)
    {
      assert found[..i + 1] == found[..i] + [found[i]];
      var (rel, path) := found[i];
      assert (rel, path) in found;
      PickedIsFile(ws, [], path);
      var data := FileAt(Some(ws), path).value;
      ReadNext(ws, found[..i], files, rel, path, data);
      HashNext(sha, files, hashes, rel, data);
      hashes := hashes[rel := sha(data)];
      files := files[rel := data];
    }
    assert found[..|found|] == found;
    FoundIsCollected(ws, found, files);
    StateMade(sha, files, hashes);
    var hash := HashManifest(sha, hashes);
    m := Some(State(hashes, hash));
  }

  ghost predicate Hashed(sha: string -> string, files: map<string, string>, hashes: map<string, string>) {
    hashes.Keys == files.Keys && forall k :: k in files ==> hashes[k] == sha(files[k])
  }

  lemma NothingRead(sha: string -> string, ws: Entry)
    ensures Hashed(sha, map[], map[]) && forall found: seq<(string, Path)> :: found == [] ==> ReadFrom(ws, found, map[])
  {
  }

  lemma HashNext(sha: string -> string, files: map<string, string>, hashes: map<string, string>, k: string,
                 data: string)
    requires Hashed(sha, files, hashes)
    ensures Hashed(sha, files[k := data], hashes[k := sha(data)])
  {
  }

  lemma StateMade(sha: string -> string, files: map<string, string>, hashes: map<string, string>)
    requires Hashed(sha, files, hashes)
    ensures State(hashes, sha(Serialised(hashes))) == StateOf(sha, files)
  {
    hide Serialised;
    assert hashes == map k | k in files :: sha(files[k]);
  }

  // ---------------------------------------------------------------------------------------------
  // The text determines the manifest
  // ---------------------------------------------------------------------------------------------

  /** What a hash looks like: some form of text with neither a colon nor a line break, such as hexadecimal digits. */
  ghost predicate HashForm(isHash: string -> bool) {
    forall h :: isHash(h) ==> ':' !in h && '\n' !in h
  }

  /** The text from `i` to `j` could be the end of one line: a colon, a hash and a line break. */
  predicate EndsLine(isHash: string -> bool, k: string, i: nat, j: nat) {
    i < j < |k| && k[i] == ':' && k[j] == '\n' && isHash(k[i + 1..j])
  }

  /** A line ends inside the path, between two parts that are in order as paths. */
  ghost predicate HidesOrdered(isHash: string -> bool, k: string) {
    exists i: nat, j: nat :: EndsLine(isHash, k, i, j) && Less(k[..i], k[j + 1..])
  }

  ghost predicate HashesOnly(isHash: string -> bool, files: map<string, string>) {
    forall k :: k in files ==> isHash(files[k])
  }

  ghost predicate NoneHides(isHash: string -> bool, keys: seq<string>) {
    forall k :: k in keys ==> !HidesOrdered(isHash, k)
  }

  /** Where one path is the shorter one, the other goes on with its hash and its line break. */
  lemma LineHidden(p: string, h: string, rest: string, q: string, h': string, rest': string)
    requires '\n' !in h' && Line(p, h) + rest == Line(q, h') + rest' && |p| < |q| && ':' !in h && '\n' !in h
    ensures |p| + |h| + 2 <= |q| && q == Line(p, h) + q[|p| + |h| + 2..]
    ensures rest == Line(q[|p| + |h| + 2..], h') + rest'
  {
    var s, j := Line(p, h) + rest, |p| + |h| + 1;
    assert s[|q|] == ':' && s[|p|] == ':' && s[j] == '\n' && s[|p| + 1..j] == h;
    assert forall i :: |p| < i < j ==> s[i] == h[i - |p| - 1];
    assert j < |q|;
    assert q == s[..|q|];
    assert Line(p, h) == s[..j + 1];
    assert q == q[..j + 1] + q[j + 1..];
    assert rest == s[j + 1..];
    assert s == q + (":" + h' + "\n" + rest');
    assert s[j + 1..] == q[j + 1..] + (":" + h' + "\n" + rest');
  }

  lemma HiddenParts(isHash: string -> bool, p: string, h: string, r: string)
    requires isHash(h) && !HidesOrdered(isHash, Line(p, h) + r)
    ensures !Less(p, r)
  {
    var k, j := Line(p, h) + r, |p| + |h| + 1;
    assert k[..|p|] == p && k[|p| + 1..j] == h && k[j + 1..] == r;
    assert EndsLine(isHash, k, |p|, j) ==> Less(k[..|p|], k[j + 1..]) ==> HidesOrdered(isHash, k);
  }

  lemma SameLength(p: string, h: string, rest: string, q: string, h': string, rest': string)
    requires '\n' !in h && '\n' !in h' && |p| == |q| && Line(p, h) + rest == Line(q, h') + rest'
    ensures p == q && h == h' && rest == rest'
  {
    var s := Line(p, h) + rest;
    assert p == s[..|p|] && q == s[..|q|];
    assert h + "\n" + rest == s[|p| + 1..] && h' + "\n" + rest' == s[|q| + 1..];
    CutAtFirst(h, h', rest, rest');
  }

  lemma CutAtFirst(a: string, b: string, ra: string, rb: string)
    requires '\n' !in a && '\n' !in b && a + "\n" + ra == b + "\n" + rb
    ensures a == b && ra == rb
  {
    var s := a + "\n" + ra;
    assert s[|a|] == '\n' && s[|b|] == '\n';
    assert forall i :: 0 <= i < |a| ==> s[i] == a[i];
    assert forall i :: 0 <= i < |b| ==> s[i] == b[i];
    assert a == s[..|a|] && b == s[..|b|];
    assert ra == s[|a| + 1..] && rb == s[|b| + 1..];
  }

  /**
   * Above `p` no lines of one manifest are lines of another that begin with a path not above `p`: the paths that
   * begin the two texts take turns in being cut short, and what is left of the longer one is never above `p`.
   */
  lemma {:induction false} NoOverlap(isHash: string -> bool, p: string, r: string, h: string,
                                     a: map<string, string>, ka: seq<string>, b: map<string, string>, kb: seq<string>)
    requires HashForm(isHash) && isHash(h) && HashesOnly(isHash, a) && HashesOnly(isHash, b)
    requires (forall k :: k in ka ==> k in a) && (forall k :: k in kb ==> k in b)
    requires !Less(p, r) && AllAbove(p, ka) && AllAbove(p, kb)
    requires ka == [] || (NoneHides(isHash, ka) && NoneHides(isHash, kb))
    ensures Line(r, h) + Lines(a, ka) != Lines(b, kb)
    decreases |ka| + |kb|
  {
    hide HidesOrdered, Less;
    if kb != [] && Line(r, h) + Lines(a, ka) == Lines(b, kb) {
      var x, rest := kb[0], Lines(b, kb[1..]);
      assert Less(p, x);
      if |x| == |r| {
        SameLength(r, h, Lines(a, ka), x, b[x], rest);
      } else if |x| < |r| {
        LineHidden(x, b[x], rest, r, h, Lines(a, ka));
        PrefixIsLess(x, r);
        LessIsTransitive(p, x, r);
      } else {
        LineHidden(r, h, Lines(a, ka), x, b[x], rest);
        var t := x[|r| + |h| + 2..];
        HiddenParts(isHash, r, h, t);
        NotLessFurther(p, r, t);
        NoOverlap(isHash, p, t, b[x], b, kb[1..], a, ka);
      }
    }
  }

  /** Of two lists of lines with one text, neither begins with the shorter path. */
  lemma HeadsAlike(isHash: string -> bool, a: map<string, string>, ka: seq<string>, b: map<string, string>,
                   kb: seq<string>)
    requires HashForm(isHash) && HashesOnly(isHash, a) && HashesOnly(isHash, b)
    requires (forall k :: k in ka ==> k in a) && (forall k :: k in kb ==> k in b)
    requires Ascending(ka) && Ascending(kb) && ka != [] && kb != [] && |ka[0]| < |kb[0]|
    requires |ka| == 1 || (NoneHides(isHash, kb) && (|kb| == 1 || NoneHides(isHash, ka)))
    ensures Lines(a, ka) != Lines(b, kb)
  {
    hide HidesOrdered, Less;
    var p, q := ka[0], kb[0];
    if Lines(a, ka) == Lines(b, kb) {
      LineHidden(p, a[p], Lines(a, ka[1..]), q, b[q], Lines(b, kb[1..]));
      var t := q[|p| + |a[p]| + 2..];
      if |ka| > 1 {
        HiddenParts(isHash, p, a[p], t);
        PrefixIsLess(p, q);
        AboveFurther(p, q, kb[1..]);
        NoOverlap(isHash, p, t, b[q], b, kb[1..], a, ka[1..]);
      }
    }
  }

  lemma {:induction false} LinesDetermine(isHash: string -> bool, a: map<string, string>, ka: seq<string>,
                                          b: map<string, string>, kb: seq<string>)
    requires HashForm(isHash) && HashesOnly(isHash, a) && HashesOnly(isHash, b)
    requires (forall k :: k in ka ==> k in a) && (forall k :: k in kb ==> k in b)
    requires Ascending(ka) && Ascending(kb)
    requires NoneHides(isHash, ka) && (|ka| <= 1 || NoneHides(isHash, kb))
    requires Lines(a, ka) == Lines(b, kb)
    ensures ka == kb && forall k :: k in ka ==> a[k] == b[k]
  {
    hide HidesOrdered, Less;
    if ka != [] && kb != [] {
      if |ka[0]| < |kb[0]| {
        HeadsAlike(isHash, a, ka, b, kb);
      } else if |kb[0]| < |ka[0]| {
        HeadsAlike(isHash, b, kb, a, ka);
      }
      SameLength(ka[0], a[ka[0]], Lines(a, ka[1..]), kb[0], b[kb[0]], Lines(b, kb[1..]));
      LinesDetermine(isHash, a, ka[1..], b, kb[1..]);
      assert ka == [ka[0]] + ka[1..] && kb == [kb[0]] + kb[1..];
    }
  }

  lemma SerialisedDetermines(isHash: string -> bool, a: map<string, string>, b: map<string, string>)
    requires HashForm(isHash) && HashesOnly(isHash, a) && HashesOnly(isHash, b) && Serialised(a) == Serialised(b)
    requires forall k :: k in a ==> !HidesOrdered(isHash, k)
    requires |a| <= 1 || forall k :: k in b ==> !HidesOrdered(isHash, k)
    ensures a == b
  {
    hide HashForm, HashesOnly, HidesOrdered, Lines, SortedKeys, Ascending;
    SortedLists(a.Keys);
    SortedLists(b.Keys);
    SortedAscends(a.Keys);
    SortedAscends(b.Keys);
    LinesDetermine(isHash, a, SortedKeys(a.Keys), b, SortedKeys(b.Keys));
    assert a.Keys == b.Keys;
  }

  /** Different manifests hash different texts, as long as no path hides a line between two parts in order. */
  lemma TextIsInjective(isHash: string -> bool, a: map<string, string>, b: map<string, string>)
    requires HashForm(isHash) && HashesOnly(isHash, a) && HashesOnly(isHash, b)
    requires forall k :: k in a.Keys + b.Keys ==> !HidesOrdered(isHash, k)
    ensures Serialised(a) == Serialised(b) <==> a == b
  {
    hide *;
    if Serialised(a) == Serialised(b) {
      SerialisedDetermines(isHash, a, b);
    }
  }

  /**
   * That is the best there is: the manifest of a single file shares its text with another one if and only if its
   * path hides a line between two parts in order.
   */
  lemma SharesTextExactlyWhen(isHash: string -> bool, k: string, h: string)
    requires HashForm(isHash) && isHash(h)
    ensures (exists b :: HashesOnly(isHash, b) && b != map[k := h] && Serialised(b) == Serialised(map[k := h]))
            <==> HidesOrdered(isHash, k)
  {
    hide *;
    if HidesOrdered(isHash, k) {
      var b := OtherReading(isHash, k, h);
    }
    if b: map<string, string> :| HashesOnly(isHash, b) && b != map[k := h] && Serialised(b) == Serialised(map[k := h]) {
      if !HidesOrdered(isHash, k) {
        OneFile(isHash, k, h);
        SerialisedDetermines(isHash, map[k := h], b);
      }
    }
  }

  lemma OtherReading(isHash: string -> bool, k: string, h: string) returns (b: map<string, string>)
    requires isHash(h) && HidesOrdered(isHash, k)
    ensures HashesOnly(isHash, b) && b != map[k := h] && Serialised(b) == Serialised(map[k := h])
  {
    hide Serialised, Less;
    var i: nat, j: nat :| EndsLine(isHash, k, i, j) && Less(k[..i], k[j + 1..]);
    var p, hidden, q := k[..i], k[i + 1..j], k[j + 1..];
    assert k == Line(p, hidden) + q;
    HiddenLineCollides(p, hidden, q, h);
    b := map[p := hidden, q := h];
  }

  lemma OneFile(isHash: string -> bool, k: string, h: string)
    requires isHash(h)
    ensures |map[k := h]| == 1 && HashesOnly(isHash, map[k := h]) && map[k := h].Keys == {k}
  {
    assert map[k := h].Keys == {k};
  }

  /** Such a path stands for two paths: the two manifests have one text, whatever the hashes are. */
  lemma HiddenLineCollides(p: string, h: string, q: string, h': string)
    requires Less(p, q)
    ensures var one, two := map[Line(p, h) + q := h'], map[p := h, q := h'];
            one != two && Serialised(one) == Serialised(two)
  {
    var k := Line(p, h) + q;
    var one, two := map[k := h'], map[p := h, q := h'];
    LessIsTotal(p, q);
    OneKeySorted(k);
    OneKeySorted(q);
    assert IsLeast(p, {p, q});
    SortedFrom(p, {p, q});
    assert {p, q} - {p} == {q};
    assert one.Keys == {k} && two.Keys == {p, q};
    hide SortedKeys, Less;
    OneLine(one, k);
    OneLine(two, q);
    assert ([p] + [q])[1..] == [q];
    assert Lines(two, [p] + [q]) == Line(p, h) + Lines(two, [q]);
    assert Line(k, h') == Line(p, h) + Line(q, h');
    assert |one.Keys| == 1 && |two.Keys| == 2;
  }

  lemma OneLine(files: map<string, string>, k: string)
    requires k in files
    ensures Lines(files, [k]) == Line(k, files[k])
  {
    assert [k][1..] == [];
  }

  lemma OneKeySorted(k: string)
    ensures SortedKeys({k}) == [k]
  {
    SortedFrom(k, {k});
    assert {k} - {k} == {};
  }
}
