/** A stable sort by any strict order, and what sorting does not change. */
module Sorting {

  /** A strict total order on sort keys; items with equal keys stay in the order they came. */
  ghost predicate Ordering<T(!new)>(before: (T, T) -> bool) {
    && (forall a :: !before(a, a))
    && (forall a, b, c :: before(a, b) && before(b, c) ==> before(a, c))
    && (forall a, b, c :: !before(b, a) && !before(c, b) ==> !before(c, a))
  }

  function Insert<T>(before: (T, T) -> bool, x: T, s: seq<T>): seq<T> {
    if s == [] then [x]
    else if before(s[0], x) then [s[0]] + Insert(before, x, s[1..])
    else [x] + s
  }

  function Sort<T>(before: (T, T) -> bool, s: seq<T>): seq<T> {
    if s == [] then [] else Insert(before, s[0], Sort(before, s[1..]))
  }

  ghost predicate Sorted<T>(before: (T, T) -> bool, s: seq<T>) {
    forall i, j :: 0 <= i < j < |s| ==> !before(s[j], s[i])
  }

  // ---------------------------------------------------------------- contents

  lemma {:induction false} InsertContents<T>(before: (T, T) -> bool, x: T, s: seq<T>)
    ensures multiset(Insert(before, x, s)) == multiset(s) + multiset{x}
  {
    if s != [] {
      assert s == [s[0]] + s[1..];
      if before(s[0], x) { InsertContents(before, x, s[1..]); }
    }
  }

  lemma {:induction false} SortContents<T>(before: (T, T) -> bool, s: seq<T>)
    ensures multiset(Sort(before, s)) == multiset(s) && |Sort(before, s)| == |s|
  {
    if s != [] {
      SortContents(before, s[1..]);
      InsertContents(before, s[0], Sort(before, s[1..]));
      assert s == [s[0]] + s[1..];
      assert multiset(s) == multiset{s[0]} + multiset(s[1..]);
    }
    assert |multiset(Sort(before, s))| == |multiset(s)|;
  }

  // ---------------------------------------------------------------- order

  lemma {:induction false} InsertSorts<T(!new)>(before: (T, T) -> bool, x: T, s: seq<T>)
    requires Ordering(before) && Sorted(before, s)
    ensures Sorted(before, Insert(before, x, s))
  {
    if s == [] {
    } else if before(s[0], x) {
      var t := Insert(before, x, s[1..]);
      InsertSorts(before, x, s[1..]);
      InsertContents(before, x, s[1..]);
      forall j | 0 <= j < |t| ensures !before(t[j], s[0]) {
        assert t[j] in multiset(t);
        if t[j] != x { assert t[j] in s[1..]; }
      }
    } else {
      forall j | 0 <= j < |s| ensures !before(s[j], x) { assert j > 0 ==> !before(s[j], s[0]); }
    }
  }

  lemma {:induction false} SortSorts<T(!new)>(before: (T, T) -> bool, s: seq<T>)
    requires Ordering(before)
    ensures Sorted(before, Sort(before, s))
  {
    if s != [] {
      SortSorts(before, s[1..]);
      InsertSorts(before, s[0], Sort(before, s[1..]));
    }
  }

  // ---------------------------------------------------------------- the order of arrival

  /** No two places hold items the order cannot tell apart. */
  ghost predicate Distinguished<T>(before: (T, T) -> bool, s: seq<T>) {
    forall i, j :: 0 <= i < j < |s| ==> before(s[i], s[j]) || before(s[j], s[i])
  }

  lemma {:induction false} InsertsCommute<T(!new)>(before: (T, T) -> bool, x: T, y: T, s: seq<T>)
    requires Ordering(before) && (before(x, y) || before(y, x))
    ensures Insert(before, x, Insert(before, y, s)) == Insert(before, y, Insert(before, x, s))
  {
    if s != [] && before(s[0], x) && before(s[0], y) {
      InsertsCommute(before, x, y, s[1..]);
    } else if s != [] {
      assert ([x] + s)[1..] == s && ([y] + s)[1..] == s;
    }
  }

  function Without<T>(s: seq<T>, k: nat): seq<T>
    requires k < |s|
  {
    s[..k] + s[k + 1..]
  }

  lemma WithoutAndFirst<T>(s: seq<T>, k: nat)
    requires 0 < k < |s|
    ensures Without(s, k)[0] == s[0] && Without(s, k)[1..] == Without(s[1..], k - 1) && s[1..][k - 1] == s[k]
  {}

  lemma WithoutAndLast<T>(s: seq<T>, k: nat)
    requires k < |s| - 1
    ensures Without(s, k) == Without(s[..|s| - 1], k) + [s[|s| - 1]] && s[..|s| - 1][k] == s[k]
  {}

  lemma {:induction false} SortPulls<T(!new)>(before: (T, T) -> bool, s: seq<T>, k: nat)
    requires Ordering(before) && Distinguished(before, s) && k < |s|
    ensures Sort(before, s) == Insert(before, s[k], Sort(before, Without(s, k)))
  {
    if k == 0 {
      assert Without(s, 0) == s[1..];
    } else {
      var tail := s[1..];
      assert Distinguished(before, tail);
      WithoutAndFirst(s, k);
      SortPulls(before, tail, k - 1);
      var sorted := Sort(before, Without(tail, k - 1));
      assert Sort(before, Without(s, k)) == Insert(before, s[0], sorted);
      InsertsCommute(before, s[0], s[k], sorted);
    }
  }

  /** Two arrangements of the same items stay so when the same item is taken out of both. */
  lemma Pull<T>(s: seq<T>, i: nat, t: seq<T>) returns (k: nat)
    requires multiset(s) == multiset(t) && i < |s|
    ensures k < |t| && t[k] == s[i] && multiset(Without(s, i)) == multiset(Without(t, k))
  {
    assert s[i] in multiset(t);
    k :| 0 <= k < |t| && t[k] == s[i];
    WithoutContents(s, i);
    WithoutContents(t, k);
  }

  lemma WithoutContents<T>(s: seq<T>, i: nat)
    requires i < |s|
    ensures multiset(Without(s, i)) == multiset(s) - multiset{s[i]}
  {
    assert s == s[..i] + [s[i]] + s[i + 1..];
  }

  lemma WithoutDistinguished<T>(before: (T, T) -> bool, s: seq<T>, i: nat)
    requires i < |s| && Distinguished(before, s)
    ensures Distinguished(before, Without(s, i))
  {
    forall a, b | 0 <= a < b < |s| - 1
      ensures before(Without(s, i)[a], Without(s, i)[b]) || before(Without(s, i)[b], Without(s, i)[a])
    {
      assert Without(s, i)[a] == s[if a < i then a else a + 1];
      assert Without(s, i)[b] == s[if b < i then b else b + 1];
    }
  }

  lemma SameSize<T>(s: seq<T>, t: seq<T>)
    requires multiset(s) == multiset(t)
    ensures |s| == |t|
  {
    assert |s| == |multiset(s)| == |multiset(t)| == |t|;
  }

  /** When the order tells all items apart, only the collection matters. */
  lemma {:induction false} SortIgnoresArrival<T(!new)>(before: (T, T) -> bool, s: seq<T>, t: seq<T>)
    requires Ordering(before) && multiset(s) == multiset(t) && Distinguished(before, s) && Distinguished(before, t)
    ensures Sort(before, s) == Sort(before, t)
    decreases |s|
  {
    SameSize(s, t);
    if s != [] {
      var k := Pull(s, 0, t);
      assert Without(s, 0) == s[1..];
      WithoutDistinguished(before, s, 0);
      WithoutDistinguished(before, t, k);
      SortPulls(before, t, k);
      SortIgnoresArrival(before, s[1..], Without(t, k));
    }
  }

  // ---------------------------------------------------------------- choosing

  /** The items a function does not drop, changed as it says. */
  function Choose<T, U>(f: T -> seq<U>, s: seq<T>): seq<U> {
    if s == [] then [] else Choose(f, s[..|s| - 1]) + f(s[|s| - 1])
  }

  lemma ChooseNext<T, U>(f: T -> seq<U>, s: seq<T>, x: T)
    ensures Choose(f, s + [x]) == Choose(f, s) + f(x)
  {
    assert (s + [x])[..|s|] == s;
  }

  lemma {:induction false} ChooseMembers<T, U>(f: T -> seq<U>, s: seq<T>, u: U)
    ensures u in Choose(f, s) <==> exists i :: 0 <= i < |s| && u in f(s[i])
  {
    if s != [] {
      var n := |s| - 1;
      ChooseMembers(f, s[..n], u);
      if i :| 0 <= i < |s| && u in f(s[i]) {
        if i < n { assert u in f(s[..n][i]); }
      }
    }
  }

  lemma MovesPast<U>(all: seq<U>, rest: seq<U>, pulled: seq<U>, last: seq<U>)
    requires multiset(all) == multiset(rest) + multiset(pulled)
    ensures multiset(all + last) == multiset(rest + last) + multiset(pulled)
  {}

  lemma {:induction false} ChoosePull<T, U>(f: T -> seq<U>, s: seq<T>, k: nat)
    requires k < |s|
    ensures multiset(Choose(f, s)) == multiset(Choose(f, Without(s, k))) + multiset(f(s[k]))
  {
    var n := |s| - 1;
    if k == n {
      assert Without(s, k) == s[..n];
    } else {
      var front := s[..n];
      ChoosePull(f, front, k);
      WithoutAndLast(s, k);
      ChooseNext(f, Without(front, k), s[n]);
      MovesPast(Choose(f, front), Choose(f, Without(front, k)), f(s[k]), f(s[n]));
    }
  }

  lemma {:induction false} ChooseIgnoresArrival<T, U>(f: T -> seq<U>, s: seq<T>, t: seq<T>)
    requires multiset(s) == multiset(t)
    ensures multiset(Choose(f, s)) == multiset(Choose(f, t))
    decreases |s|
  {
    SameSize(s, t);
    if s != [] {
      var k := Pull(s, 0, t);
      ChoosePull(f, s, 0);
      ChoosePull(f, t, k);
      ChooseIgnoresArrival(f, Without(s, 0), Without(t, k));
    }
  }
}
