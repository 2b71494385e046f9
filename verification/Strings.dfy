/** The order of strings by their characters, as Python sorts them. */
module Strings {

  predicate Earlier(a: string, b: string) {
    if b == [] then false
    else if a == [] then true
    else if a[0] != b[0] then a[0] < b[0]
    else Earlier(a[1..], b[1..])
  }

  lemma {:induction false} EarlierIsStrict(a: string)
    ensures !Earlier(a, a)
  {
    if a != [] { EarlierIsStrict(a[1..]); }
  }

  lemma {:induction false} EarlierIsTotal(a: string, b: string)
    ensures a == b || Earlier(a, b) || Earlier(b, a)
  {
    if a != [] && b != [] {
      EarlierIsTotal(a[1..], b[1..]);
      assert a == [a[0]] + a[1..] && b == [b[0]] + b[1..];
    }
  }

  lemma {:induction false} EarlierIsTransitive(a: string, b: string, c: string)
    requires Earlier(a, b) && Earlier(b, c)
    ensures Earlier(a, c)
  {
    if a != [] && a[0] == b[0] == c[0] { EarlierIsTransitive(a[1..], b[1..], c[1..]); }
  }

  /** The two agree on their first `n` characters, and then `a` ends or has the lower one. */
  ghost predicate PartsAt(a: string, b: string, n: nat) {
    n <= |a| && n < |b| && (forall k :: 0 <= k < n ==> a[k] == b[k]) && (n == |a| || a[n] < b[n])
  }

  /** The order is decided by the first character that differs; a proper prefix comes first. */
  lemma {:induction false} EarlierAtFirstDifference(a: string, b: string)
    ensures Earlier(a, b) <==> exists n: nat :: PartsAt(a, b, n)
  {
    if a == [] || b == [] || a[0] != b[0] {
      if b != [] { assert PartsAt(a, b, 0) <==> Earlier(a, b); }
    } else {
      EarlierAtFirstDifference(a[1..], b[1..]);
      if n: nat :| PartsAt(a[1..], b[1..], n) {
        forall k | 0 <= k < n + 1 ensures a[k] == b[k] { if k > 0 { assert a[1..][k - 1] == b[1..][k - 1]; } }
        assert n < |a[1..]| ==> a[1..][n] == a[n + 1] && b[1..][n] == b[n + 1];
        assert PartsAt(a, b, n + 1);
      }
      if n: nat :| PartsAt(a, b, n) {
        assert n > 0;
        forall k | 0 <= k < n - 1 ensures a[1..][k] == b[1..][k] { assert a[k + 1] == b[k + 1]; }
        assert PartsAt(a[1..], b[1..], n - 1);
      }
    }
  }
}
