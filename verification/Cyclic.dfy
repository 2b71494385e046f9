/**
  What follows for any product that adds exponents: associativity, periods, and division. Stated for
  arbitrary functions so that the arithmetic of exponents is all that is in view.
 */
module Cyclic {
  import opened Bytes

  ghost predicate Homomorphic(e: nat -> Byte, m: (Byte, Byte) -> Byte) {
    forall i: nat, j: nat :: m(e(i), e(j)) == e(i + j)
  }

  ghost predicate StepsAt(e: nat -> Byte, t: Byte -> Byte, i: nat) { e(i + 1) == t(e(i)) }

  /** If one step of `e` commutes with the product, the product adds exponents. */
  lemma {:induction false} Adds(e: nat -> Byte, m: (Byte, Byte) -> Byte, t: Byte -> Byte, i: nat, j: nat)
    requires forall y: Byte :: m(e(0), y) == y
    requires forall x: Byte, y: Byte :: m(t(x), y) == t(m(x, y))
    requires forall k: nat :: StepsAt(e, t, k)
    ensures m(e(i), e(j)) == e(i + j)
  {
    if i > 0 {
      Adds(e, m, t, i - 1, j);
      assert StepsAt(e, t, i - 1);
      assert StepsAt(e, t, i - 1 + j);
      assert m(t(e(i - 1)), e(j)) == t(m(e(i - 1), e(j)));
    }
  }

  lemma Associate(e: nat -> Byte, m: (Byte, Byte) -> Byte, i: nat, j: nat, k: nat)
    requires Homomorphic(e, m)
    ensures m(m(e(i), e(j)), e(k)) == m(e(i), m(e(j), e(k)))
  {
    assert m(e(i + j), e(k)) == e(i + j + k);
    assert m(e(i), e(j + k)) == e(i + j + k);
  }

  lemma Commute(e: nat -> Byte, m: (Byte, Byte) -> Byte, i: nat, j: nat)
    requires Homomorphic(e, m)
    ensures m(e(i), e(j)) == m(e(j), e(i))
  {
    assert m(e(j), e(i)) == e(i + j);
  }

  lemma Period(e: nat -> Byte, m: (Byte, Byte) -> Byte, d: nat, j: nat)
    requires Homomorphic(e, m) && e(d) == e(0)
    ensures e(d + j) == e(j)
  {
    assert m(e(d), e(j)) == m(e(0), e(j)) == e(0 + j);
  }

  /** `k` steps of length `d` on from `r`. */
  function Strides(k: nat, d: nat, r: nat): nat { if k == 0 then r else d + Strides(k - 1, d, r) }

  lemma {:induction false} StridesAdd(k: nat, d: nat, r: nat)
    ensures Strides(k, d, r) == k * d + r
  {
    if k > 0 {
      StridesAdd(k - 1, d, r);
      assert k * d == (k - 1) * d + d;
    }
  }

  lemma {:induction false} Striding(e: nat -> Byte, m: (Byte, Byte) -> Byte, d: nat, k: nat, r: nat)
    requires Homomorphic(e, m) && e(d) == e(0)
    ensures e(Strides(k, d, r)) == e(r)
  {
    if k > 0 {
      Striding(e, m, d, k - 1, r);
      Period(e, m, d, Strides(k - 1, d, r));
    }
  }

  lemma Multiple(e: nat -> Byte, m: (Byte, Byte) -> Byte, d: nat, k: nat, r: nat)
    requires Homomorphic(e, m) && e(d) == e(0)
    ensures e(k * d + r) == e(r)
  {
    Striding(e, m, d, k, r);
    StridesAdd(k, d, r);
  }

  /** A proper divisor of 255 divides one of the three maximal ones. */
  lemma DivisorsOf255(m: nat, q: nat) returns (k: nat)
    requires q * m == 255 && m < 255
    ensures k * m == 15 || k * m == 51 || k * m == 85
  {
    if q == 3 || q == 5 || q == 17 {
      k := 1;
    } else if q == 15 || q == 51 {
      k := 3;
    } else if q == 85 {
      k := 5;
    } else if q == 255 {
      k := 15;
    } else {
      k := 0;
      FactorsOf255(m, q);
    }
  }

  lemma Products(q: nat, m: nat)
    requires q > 15 && m > 15
    ensures q * m > 255
  {
    assert q * m >= 16 * m;
  }

  lemma FactorsOf255(m: nat, q: nat)
    requires q * m == 255
    ensures q in {1, 3, 5, 15, 17, 51, 85, 255}
  {
    if m > 15 && q > 15 {
      Products(q, m);
    } else if m <= 15 {
      assert m in {1, 2, 3, 4, 5, 6, 7, 8, 9, 10, 11, 12, 13, 14, 15};
    } else {
      assert q in {1, 2, 3, 4, 5, 6, 7, 8, 9, 10, 11, 12, 13, 14, 15};
    }
  }

  /** If 255 is a period and its maximal proper divisors are not, nothing below 255 is. */
  lemma {:induction false} PeriodIs255(e: nat -> Byte, m: (Byte, Byte) -> Byte, d: nat)
    requires Homomorphic(e, m) && 0 < d < 255
    requires e(255) == e(0) && e(15) != e(0) && e(51) != e(0) && e(85) != e(0)
    ensures e(d) != e(0)
  {
    if e(d) == e(0) {
      var (q, r) := (255 / d, 255 % d);
      assert q * d + r == 255;
      Multiple(e, m, d, q, r);
      if r != 0 {
        PeriodIs255(e, m, r);
      } else {
        var k := DivisorsOf255(d, q);
        Multiple(e, m, d, k, 0);
      }
    }
  }

  lemma Divide(e: nat -> Byte, m: (Byte, Byte) -> Byte, i: nat, j: nat)
    requires Homomorphic(e, m) && i < 255 && j < 255
    requires forall k: nat :: e(k + 255) == e(k)
    ensures m(e((i - j) % 255), e(j)) == e(i)
  {
    assert m(e((i - j) % 255), e(j)) == e((i - j) % 255 + j);
    if i < j {
      assert (i - j) % 255 + j == 255 + i;
      assert e(i + 255) == e(i);
    } else {
      assert (i - j) % 255 + j == i;
    }
  }

  // ---------------------------------------------------------------- counting

  ghost predicate CyclicOf255(e: nat -> Byte) {
    && (forall i: nat, j: nat :: i < 255 && j < 255 && e(i) == e(j) ==> i == j)
    && (forall i: nat :: e(i) != 0 && e(i + 255) == e(i))
  }

  function Values(e: nat -> Byte, n: nat): set<nat> { set i: nat | i < n :: e(i) as nat }

  lemma {:induction false} ValuesCount(e: nat -> Byte, n: nat)
    requires CyclicOf255(e) && n <= 255
    ensures |Values(e, n)| == n
  {
    if n > 0 {
      ValuesCount(e, n - 1);
      assert Values(e, n) == Values(e, n - 1) + {e(n - 1) as nat};
    }
  }

  function Interval(n: nat): set<nat> { if n == 0 then {} else Interval(n - 1) + {n} }

  lemma {:induction false} IntervalCount(n: nat)
    ensures |Interval(n)| == n
    ensures forall x :: x in Interval(n) <==> 1 <= x <= n
  {
    if n > 0 {
      IntervalCount(n - 1);
    }
  }

  lemma SubsetOfSameSize(s: set<nat>, t: set<nat>)
    requires s <= t && |s| == |t|
    ensures s == t
  {
    if s != t {
      var x :| x in t && x !in s;
      SubsetSize(s, t - {x});
    }
  }

  lemma {:induction false} SubsetSize(s: set<nat>, t: set<nat>)
    requires s <= t
    ensures |s| <= |t|
  {
    if x :| x in s { SubsetSize(s - {x}, t - {x}); }
  }

  /** 255 distinct nonzero bytes are all of them. */
  lemma Onto(e: nat -> Byte, x: Byte)
    requires CyclicOf255(e) && x != 0
    ensures exists i: nat :: i < 255 && e(i) == x
  {
    ValuesCount(e, 255);
    IntervalCount(255);
    SubsetOfSameSize(Values(e, 255), Interval(255));
    assert x in Values(e, 255);
  }
}
