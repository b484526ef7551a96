/** Slash-separated paths as text, and the order in which a sorted map lists its keys. */
module PathText {

  predicate StartsWith(s: string, prefix: string) {
    prefix <= s
  }

  predicate EndsWith(s: string, suffix: string) {
    |suffix| <= |s| && s[|s| - |suffix|..] == suffix
  }

  predicate Contains(s: string, sub: string) {
    exists i :: 0 <= i <= |s| && sub <= s[i..]
  }

  function Split(s: string): (parts: seq<string>)
    ensures parts != []
  {
    if s == "" then [""]
    else
      var rest := Split(s[1..]);
      if s[0] == '/' then [""] + rest else [[s[0]] + rest[0]] + rest[1..]
  }

  function Join(path: seq<string>): string {
    if path == [] then ""
    else if |path| == 1 then path[0]
    else path[0] + "/" + Join(path[1..])
  }

  predicate Plain(n: string) {
    '/' !in n
  }

  predicate AllPlain(path: seq<string>) {
    forall i :: 0 <= i < |path| ==> Plain(path[i])
  }

  lemma {:induction false} SplitName(n: string, rest: string)
    requires Plain(n)
    ensures Split(n) == [n] && Split(n + "/" + rest) == [n] + Split(rest)
  {
    if n == "" {
      assert (n + "/" + rest)[1..] == rest;
    } else {
      SplitName(n[1..], rest);
      assert (n + "/" + rest)[1..] == n[1..] + "/" + rest;
      assert [n[0]] + n[1..] == n;
      assert ([n[1..]] + Split(rest))[1..] == Split(rest);
    }
  }

  predicate SameAt(s: string, part: string, i: nat)
    requires i + |part| <= |s|
  {
    forall k :: 0 <= k < |part| ==> s[i + k] == part[k]
  }

  /** `part` stands in `s` at `i`, between slashes or at an end. */
  predicate Stands(s: string, part: string, i: nat) {
    && i + |part| <= |s| && SameAt(s, part, i)
    && (i == 0 || s[i - 1] == '/') && (i + |part| == |s| || s[i + |part|] == '/')
  }

  lemma StandsLater(s: string, part: string, i: nat)
    requires s != "" && i >= 1
    ensures Stands(s, part, i) <==> (i >= 2 || s[0] == '/') && Stands(s[1..], part, i - 1)
  {
    if i + |part| <= |s| {
      SameLater(s, s[1..], part, i);
    }
  }

  lemma SameLater(s: string, rest: string, part: string, i: nat)
    requires i >= 1 && i + |part| <= |s| && |rest| == |s| - 1 && forall k :: 0 <= k < |rest| ==> rest[k] == s[k + 1]
    ensures SameAt(s, part, i) <==> SameAt(rest, part, i - 1)
  {
    if SameAt(s, part, i) {
      forall k | 0 <= k < |part| ensures rest[i - 1 + k] == part[k] {
        assert s[i + k] == part[k];
      }
    }
    if SameAt(rest, part, i - 1) {
      forall k | 0 <= k < |part| ensures s[i + k] == part[k] {
        assert rest[i - 1 + k] == part[k];
      }
    }
  }

  /** Taking the first character off both. */
  lemma StandsFirst(s: string, part: string)
    requires s != "" && part != ""
    ensures Stands(s, part, 0) <==> s[0] == part[0] && Stands(s[1..], part[1..], 0)
  {
    var rest, more := s[1..], part[1..];
    if |part| <= |s| {
      if SameAt(s, part, 0) {
        assert s[0 + 0] == part[0];
        forall k | 0 <= k < |more| ensures rest[0 + k] == more[k] {
          assert s[0 + (k + 1)] == part[k + 1];
        }
      }
      if s[0] == part[0] && SameAt(rest, more, 0) {
        forall k | 0 <= k < |part| ensures s[0 + k] == part[k] {
          if k > 0 {
            assert rest[0 + (k - 1)] == more[k - 1];
          }
        }
      }
    }
  }

  lemma {:induction false} FirstPart(s: string, part: string)
    requires Plain(part)
    ensures Split(s)[0] == part <==> Stands(s, part, 0)
  {
    hide Stands;
    if s == "" || part == "" {
      StandsEmpty(s, part);
    } else {
      StandsFirst(s, part);
      if s[0] != '/' {
        FirstPart(s[1..], part[1..]);
        assert part == [part[0]] + part[1..];
      }
    }
  }

  lemma StandsEmpty(s: string, part: string)
    requires s == "" || part == ""
    ensures Stands(s, part, 0) <==> part == "" && (s == "" || s[0] == '/')
  {
  }

  lemma {:induction false} LaterPart(s: string, part: string)
    requires Plain(part)
    ensures part in Split(s)[1..] <==> exists i: nat :: i >= 1 && Stands(s, part, i)
  {
    if s != "" {
      var rest := s[1..];
      LaterPart(rest, part);
      FirstPart(rest, part);
      forall i: nat | i >= 1 ensures Stands(s, part, i) <==> (i >= 2 || s[0] == '/') && Stands(rest, part, i - 1) {
        StandsLater(s, part, i);
      }
      SplitTurn(s);
      if i: nat :| Stands(rest, part, i) && (i >= 1 || s[0] == '/') {
        assert Stands(s, part, i + 1);
      }
      if part in Split(rest) && part !in Split(rest)[1..] {
        FirstOrLater(Split(rest), part);
      }
    }
  }

  lemma SplitTurn(s: string)
    requires s != ""
    ensures Split(s)[1..] == if s[0] == '/' then Split(s[1..]) else Split(s[1..])[1..]
  {
  }

  lemma FirstOrLater(parts: seq<string>, part: string)
    requires parts != []
    ensures part in parts <==> parts[0] == part || part in parts[1..]
  {
    assert parts == [parts[0]] + parts[1..];
  }

  /** The parts of a text are what stands between its slashes, and the first one what stands at its beginning. */
  lemma PartOf(s: string, part: string)
    requires Plain(part)
    ensures part in Split(s) <==> exists i: nat :: Stands(s, part, i)
    ensures Split(s)[0] == part <==> Stands(s, part, 0)
  {
    FirstPart(s, part);
    LaterPart(s, part);
    FirstOrLater(Split(s), part);
    hide Split, Stands;
    if i: nat :| Stands(s, part, i) {
      assert i == 0 || i >= 1;
    }
  }

  /** Cutting a joined path at its slashes gives the path back. */
  lemma {:induction false} SplitJoin(path: seq<string>)
    requires path != [] && AllPlain(path)
    ensures Split(Join(path)) == path
  {
    if |path| == 1 {
      SplitName(path[0], "");
    } else {
      SplitJoin(path[1..]);
      SplitName(path[0], Join(path[1..]));
    }
  }

  lemma {:induction false} JoinLast(path: seq<string>)
    requires path != []
    ensures Join(path) == (if |path| == 1 then "" else Join(path[..|path| - 1]) + "/") + path[|path| - 1]
  {
    if |path| > 1 {
      var front, rest, last := path[..|path| - 1], path[1..], path[|path| - 1];
      JoinLast(rest);
      assert rest[..|rest| - 1] == front[1..];
      JoinTurn(path);
      JoinTurn(front);
      hide Join;
      if |path| > 2 {
        Regroup(path[0], Join(front[1..]), last);
      }
    }
  }

  lemma JoinTurn(path: seq<string>)
    requires path != []
    ensures Join(path) == if |path| == 1 then path[0] else path[0] + "/" + Join(path[1..])
  {
  }

  lemma Regroup(first: string, middle: string, last: string)
    ensures first + "/" + (middle + "/" + last) == first + "/" + middle + "/" + last
  {
  }

  lemma EndsAfterSlash(front: string, last: string, suffix: string)
    requires Plain(suffix)
    ensures EndsWith(front + "/" + last, suffix) <==> EndsWith(last, suffix)
  {
    var s := front + "/" + last;
    var at := |s| - |suffix|;
    if |suffix| <= |last| {
      assert s[at..] == last[|last| - |suffix|..];
    } else if |suffix| <= |s| {
      assert s[at..][|suffix| - |last| - 1] == '/';
    }
  }

  /** A joined path ends in a slash-free suffix exactly when its last name does. */
  lemma JoinEnds(path: seq<string>, suffix: string)
    requires path != [] && Plain(suffix)
    ensures EndsWith(Join(path), suffix) <==> EndsWith(path[|path| - 1], suffix)
  {
    JoinLast(path);
    hide Join;
    if |path| == 1 {
      assert "" + path[0] == path[0];
    } else {
      EndsAfterSlash(Join(path[..|path| - 1]), path[|path| - 1], suffix);
    }
  }

  // ---------------------------------------------------------------------------------------------
  // The order of the keys
  // ---------------------------------------------------------------------------------------------

  predicate Less(a: string, b: string) {
    if a == "" || b == "" then b != "" && a == ""
    else a[0] < b[0] || (a[0] == b[0] && Less(a[1..], b[1..]))
  }

  lemma {:induction false} LessIsTotal(a: string, b: string)
    ensures Less(a, b) || Less(b, a) || a == b
    ensures !(Less(a, b) && Less(b, a)) && !Less(a, a)
  {
    if a != "" {
      LessIsTotal(a[1..], a[1..]);
      if b != "" {
        LessIsTotal(a[1..], b[1..]);
        assert a == [a[0]] + a[1..] && b == [b[0]] + b[1..];
      }
    }
  }

  /** At the first place where the texts differ, one has the smaller character or comes to its end. */
  predicate DifferAt(a: string, b: string, n: nat) {
    && n <= |a| && n < |b| && (forall i :: 0 <= i < n ==> a[i] == b[i])
    && (n == |a| || a[n] < b[n])
  }

  /** The order of the keys is that of their first difference. */
  lemma {:induction false} LessIsFirstDifference(a: string, b: string)
    ensures Less(a, b) <==> exists n: nat :: DifferAt(a, b, n)
  {
    if a == "" {
      assert b != "" ==> DifferAt(a, b, 0);
    } else if b != "" {
      LessIsFirstDifference(a[1..], b[1..]);
      assert a[0] < b[0] ==> DifferAt(a, b, 0);
      forall n: nat
        ensures DifferAt(a, b, n) <==> if n == 0 then a[0] < b[0] else a[0] == b[0] && DifferAt(a[1..], b[1..], n - 1)
      {
        DifferLater(a, b, n);
      }
      if a[0] == b[0] && Less(a[1..], b[1..]) {
        var n: nat :| DifferAt(a[1..], b[1..], n);
        assert DifferAt(a, b, n + 1);
      }
    }
  }

  lemma DifferLater(a: string, b: string, n: nat)
    requires a != "" && b != ""
    ensures DifferAt(a, b, n) <==> if n == 0 then a[0] < b[0] else a[0] == b[0] && DifferAt(a[1..], b[1..], n - 1)
  {
    var c, d := a[1..], b[1..];
    if n > 0 {
      if DifferAt(a, b, n) {
        assert forall i :: 0 <= i < n - 1 ==> c[i] == a[i + 1] && d[i] == b[i + 1];
      }
      if a[0] == b[0] && DifferAt(c, d, n - 1) {
        forall i | 0 <= i < n ensures a[i] == b[i] {
          if i > 0 {
            assert a[i] == c[i - 1] && b[i] == d[i - 1];
          }
        }
      }
    }
  }

  lemma {:induction false} LessIsTransitive(a: string, b: string, c: string)
    requires Less(a, b) && Less(b, c)
    ensures Less(a, c)
  {
    if a != "" && a[0] == b[0] && b[0] == c[0] {
      LessIsTransitive(a[1..], b[1..], c[1..]);
    }
  }

  predicate IsLeast(k: string, keys: set<string>) {
    k in keys && forall x :: x in keys ==> x == k || Less(k, x)
  }

  lemma {:induction false} LeastExists(keys: set<string>)
    requires keys != {}
    ensures exists k :: IsLeast(k, keys)
    decreases keys
  {
    var any :| any in keys;
    var rest := keys - {any};
    if rest == {} {
      assert keys == {any};
      assert IsLeast(any, keys);
    } else {
      LeastExists(rest);
      var low :| IsLeast(low, rest);
      LessIsTotal(any, low);
      if Less(any, low) {
        forall x | x in keys ensures x == any || Less(any, x) {
          assert x == any || x == low || Less(low, x);
          if x != any && x != low {
            LessIsTransitive(any, low, x);
          }
        }
        assert IsLeast(any, keys);
      } else {
        assert IsLeast(low, keys);
      }
    }
  }

  lemma LeastIsUnique(a: string, b: string, keys: set<string>)
    requires IsLeast(a, keys) && IsLeast(b, keys)
    ensures a == b
  {
    LessIsTotal(a, b);
  }

  ghost function SortedKeys(keys: set<string>): seq<string> {
    if keys == {} then []
    else
      LeastExists(keys);
      var k :| IsLeast(k, keys);
      [k] + SortedKeys(keys - {k})
  }

  lemma SortedFrom(k: string, keys: set<string>)
    requires IsLeast(k, keys)
    ensures SortedKeys(keys) == [k] + SortedKeys(keys - {k})
  {
    LeastExists(keys);
    var low :| IsLeast(low, keys) && SortedKeys(keys) == [low] + SortedKeys(keys - {low});
    LeastIsUnique(k, low, keys);
  }

  /** Every key is listed, and listed once. */
  lemma {:induction false} SortedLists(keys: set<string>)
    ensures forall k :: k in SortedKeys(keys) <==> k in keys
    ensures |SortedKeys(keys)| == |keys|
  {
    if keys != {} {
      LeastExists(keys);
      var k :| IsLeast(k, keys);
      SortedFrom(k, keys);
      SortedLists(keys - {k});
    }
  }

  predicate AllAbove(p: string, keys: seq<string>) {
    forall k :: k in keys ==> Less(p, k)
  }

  predicate Ascending(keys: seq<string>) {
    keys != [] ==> AllAbove(keys[0], keys[1..]) && Ascending(keys[1..])
  }

  lemma {:induction false} SortedAscends(keys: set<string>)
    ensures Ascending(SortedKeys(keys))
  {
    if keys != {} {
      LeastExists(keys);
      var k :| IsLeast(k, keys);
      SortedFrom(k, keys);
      SortedAscends(keys - {k});
      SortedLists(keys - {k});
      assert SortedKeys(keys)[1..] == SortedKeys(keys - {k});
    }
  }

  lemma {:induction false} PrefixIsLess(a: string, b: string)
    requires a < b
    ensures Less(a, b)
  {
    if a != "" {
      assert a[0] == b[0] && a[1..] < b[1..];
      PrefixIsLess(a[1..], b[1..]);
    }
  }

  lemma AboveFurther(p: string, q: string, keys: seq<string>)
    requires Less(p, q) && AllAbove(q, keys)
    ensures AllAbove(p, keys)
  {
    forall k | k in keys ensures Less(p, k) {
      LessIsTransitive(p, q, k);
    }
  }

  lemma NotLessFurther(p: string, r: string, t: string)
    requires !Less(p, r) && !Less(r, t)
    ensures !Less(p, t)
  {
    LessIsTotal(p, r);
    LessIsTotal(r, t);
    LessIsTotal(p, t);
    if Less(r, p) && Less(t, r) {
      LessIsTransitive(t, r, p);
    }
  }
}
