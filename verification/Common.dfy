/** Small value types and text functions shared by the modules of the model. */
module Common {

  datatype Option<+T> = None | Some(value: T)

  datatype Result<+T, +E> = Ok(value: T) | Err(error: E)

  function Min(a: int, b: int): int { if a <= b then a else b }

  function Max(a: int, b: int): int { if a <= b then b else a }

  /** The white space of Unicode, as trimming understands it. */
  predicate IsSpace(c: char) {
    '\t' <= c <= '\r' || c == ' ' || c == '\U{85}' || c == '\U{A0}' || c == '\U{1680}' || '\U{2000}' <= c <= '\U{200A}'
    || c == '\U{2028}' || c == '\U{2029}' || c == '\U{202F}' || c == '\U{205F}' || c == '\U{3000}'
  }

  function TrimStart(s: string): string {
    if s != "" && IsSpace(s[0]) then TrimStart(s[1..]) else s
  }

  function TrimEnd(s: string): string {
    if s != "" && IsSpace(s[|s| - 1]) then TrimEnd(s[..|s| - 1]) else s
  }

  function Trim(s: string): string {
    TrimEnd(TrimStart(s))
  }

  lemma ConcatAssoc<T>(a: seq<T>, b: seq<T>, c: seq<T>)
    ensures a + (b + c) == a + b + c
  {
  }

  lemma ConcatNothing<T>(a: seq<T>)
    ensures a + [] == a && [] + a == a
  {
  }

  predicate AllSpace(s: string) {
    forall i :: 0 <= i < |s| ==> IsSpace(s[i])
  }

  predicate NoSpaceAround(s: string) {
    s == "" || (!IsSpace(s[0]) && !IsSpace(s[|s| - 1]))
  }

  lemma {:induction false} TrimStartIs(before: string, s: string)
    requires AllSpace(before) && (s == "" || !IsSpace(s[0]))
    ensures TrimStart(before + s) == s
  {
    if before == "" {
      ConcatNothing(s);
    } else {
      assert (before + s)[1..] == before[1..] + s;
      TrimStartIs(before[1..], s);
    }
  }

  lemma {:induction false} TrimEndIs(s: string, after: string)
    requires AllSpace(after) && (s == "" || !IsSpace(s[|s| - 1]))
    ensures TrimEnd(s + after) == s
  {
    if after == "" {
      ConcatNothing(s);
    } else {
      assert (s + after)[..|s + after| - 1] == s + after[..|after| - 1];
      TrimEndIs(s, after[..|after| - 1]);
    }
  }

  lemma TrimIs(before: string, value: string, after: string)
    requires AllSpace(before) && AllSpace(after) && NoSpaceAround(value)
    ensures Trim(before + value + after) == value
  {
    if value == "" {
      assert before + value + after == (before + after) + "";
      TrimStartIs(before + after, "");
      TrimEndIs("", "");
      assert "" + "" == "";
    } else {
      assert before + value + after == before + (value + after);
      TrimStartIs(before, value + after);
      TrimEndIs(value, after);
    }
  }

  predicate Increasing(at: seq<nat>) {
    forall i, j :: 0 <= i < j < |at| ==> at[i] < at[j]
  }

  /** Entry `j` of `ys` comes from the wanted one at position `at[j]`. */
  predicate ComesFrom<T, U>(xs: seq<T>, ys: seq<U>, wanted: T -> bool, gives: (T, U) -> bool, at: seq<nat>) {
    && |at| == |ys|
    && forall j {:trigger at[j]} :: 0 <= j < |at| ==> at[j] < |xs| && wanted(xs[at[j]]) && gives(xs[at[j]], ys[j])
  }

  predicate NoneMissed<T>(xs: seq<T>, wanted: T -> bool, at: seq<nat>) {
    forall k {:trigger xs[k]} :: 0 <= k < |xs| && wanted(xs[k]) ==> k in at
  }

  /** `ys` are what the wanted ones of `xs` give, one for each and in their order. */
  ghost predicate Gives<T(!new), U(!new)>(xs: seq<T>, ys: seq<U>, wanted: T -> bool, gives: (T, U) -> bool) {
    exists at :: Increasing(at) && ComesFrom(xs, ys, wanted, gives, at) && NoneMissed(xs, wanted, at)
  }

  lemma GivesNothing<T(!new), U(!new)>(wanted: T -> bool, gives: (T, U) -> bool)
    ensures Gives([], [], wanted, gives)
  {
    assert Increasing([]) && ComesFrom([], [], wanted, gives, []) && NoneMissed([], wanted, []);
  }

  lemma PassesOver<T(!new), U(!new)>(x: T, xs: seq<T>, ys: seq<U>, wanted: T -> bool, gives: (T, U) -> bool)
    requires Gives(xs, ys, wanted, gives) && !wanted(x)
    ensures Gives([x] + xs, ys, wanted, gives)
  {
    hide ComesFrom, NoneMissed;
    var at :| Increasing(at) && ComesFrom(xs, ys, wanted, gives, at) && NoneMissed(xs, wanted, at);
    ComesFromLater(x, xs, ys, wanted, gives, at);
    NoneMissedLater(x, xs, wanted, at, []);
    ConcatNothing(Shifted(at));
    assert Increasing(Shifted(at));
  }

  lemma GivesFirst<T(!new), U(!new)>(x: T, y: U, xs: seq<T>, ys: seq<U>, wanted: T -> bool, gives: (T, U) -> bool)
    requires Gives(xs, ys, wanted, gives) && wanted(x) && gives(x, y)
    ensures Gives([x] + xs, [y] + ys, wanted, gives)
  {
    hide ComesFrom, NoneMissed;
    var at :| Increasing(at) && ComesFrom(xs, ys, wanted, gives, at) && NoneMissed(xs, wanted, at);
    ComesFromLater(x, xs, ys, wanted, gives, at);
    ComesFromFirst(x, y, [x] + xs, ys, wanted, gives, Shifted(at));
    NoneMissedLater(x, xs, wanted, at, [0]);
    IncreasingFirst(at);
  }

  lemma IncreasingFirst(at: seq<nat>)
    requires Increasing(at)
    ensures Increasing([0] + Shifted(at))
  {
    var all := [0] + Shifted(at);
    forall i, j | 0 <= i < j < |all| ensures all[i] < all[j] {
      if i > 0 {
        assert at[i - 1] < at[j - 1];
      }
    }
  }

  lemma ComesFromLater<T, U>(x: T, xs: seq<T>, ys: seq<U>, wanted: T -> bool, gives: (T, U) -> bool, at: seq<nat>)
    requires ComesFrom(xs, ys, wanted, gives, at)
    ensures ComesFrom([x] + xs, ys, wanted, gives, Shifted(at))
  {
    var all, up := [x] + xs, Shifted(at);
    forall j | 0 <= j < |up| ensures up[j] < |all| && wanted(all[up[j]]) && gives(all[up[j]], ys[j]) {
      assert at[j] < |xs| && up[j] == at[j] + 1;
    }
  }

  lemma ComesFromFirst<T, U>(x: T, y: U, all: seq<T>, ys: seq<U>, wanted: T -> bool, gives: (T, U) -> bool,
                             at: seq<nat>)
    requires ComesFrom(all, ys, wanted, gives, at) && all != [] && all[0] == x && wanted(x) && gives(x, y)
    ensures ComesFrom(all, [y] + ys, wanted, gives, [0] + at)
  {
    var more, up := [y] + ys, [0] + at;
    forall j | 0 <= j < |up| ensures up[j] < |all| && wanted(all[up[j]]) && gives(all[up[j]], more[j]) {
      if j > 0 {
        assert up[j] == at[j - 1] && more[j] == ys[j - 1];
      }
    }
  }

  lemma NoneMissedLater<T>(x: T, xs: seq<T>, wanted: T -> bool, at: seq<nat>, head: seq<nat>)
    requires NoneMissed(xs, wanted, at) && (wanted(x) ==> 0 in head)
    ensures NoneMissed([x] + xs, wanted, head + Shifted(at))
  {
    var all, up := [x] + xs, Shifted(at);
    forall k | 0 <= k < |all| && wanted(all[k]) ensures k in head + up {
      if k > 0 {
        assert all[k] == xs[k - 1];
        var j :| 0 <= j < |at| && at[j] == k - 1;
        assert up[j] == k;
      }
    }
  }

  lemma GivesEach<T(!new), U(!new)>(xs: seq<T>, ys: seq<U>, wanted: T -> bool, gives: (T, U) -> bool, k: nat)
    returns (j: nat)
    requires Gives(xs, ys, wanted, gives) && k < |xs| && wanted(xs[k])
    ensures j < |ys| && gives(xs[k], ys[j])
  {
    var at :| Increasing(at) && ComesFrom(xs, ys, wanted, gives, at) && NoneMissed(xs, wanted, at);
    j :| 0 <= j < |at| && at[j] == k;
  }

  function Shifted(at: seq<nat>): (up: seq<nat>)
    ensures |up| == |at| && forall i :: 0 <= i < |at| ==> up[i] == at[i] + 1
  {
    seq(|at|, i requires 0 <= i < |at| => at[i] + 1)
  }
}
