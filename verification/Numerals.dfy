/** Numbers and their digits in any base. */
module Numerals {

  function Pow(b: nat, n: nat): nat { if n == 0 then 1 else b * Pow(b, n - 1) }

  /** The value of a big-endian string of digits. */
  function Value(base: nat, ds: seq<nat>): nat {
    if ds == [] then 0 else Value(base, ds[..|ds| - 1]) * base + ds[|ds| - 1]
  }

  /** The digits of a number, most significant first and without leading zeros. */
  function Digits(base: nat, n: nat): seq<nat>
    requires base >= 2
  {
    if n == 0 then [] else Digits(base, n / base) + [n % base]
  }

  ghost predicate IsDigits(base: nat, ds: seq<nat>) { forall k :: 0 <= k < |ds| ==> ds[k] < base }

  lemma MulMonotone(c: nat, a: nat, b: nat)
    requires a <= b
    ensures c * a <= c * b
  {
    assert c * (b - a) >= 0;
  }

  lemma MulCancels(c: nat, a: nat, b: nat)
    ensures c * a < c * b ==> a < b
  {
    if b <= a { MulMonotone(c, b, a); }
  }

  /** The quotient and the remainder put the number together, in one way. */
  lemma DivIsUnique(base: nat, q: nat, r: nat)
    requires base >= 2 && r < base
    ensures (q * base + r) / base == q && (q * base + r) % base == r
  {
    var n := q * base + r;
    var p, s := n / base, n % base;
    assert n == base * p + s && 0 <= s < base;
    assert n == base * q + r;
    assert base * (q + 1) == base * q + base && base * (p + 1) == base * p + base;
    MulCancels(base, p, q + 1);
    MulCancels(base, q, p + 1);
  }

  lemma ValueNext(base: nat, ds: seq<nat>, d: nat)
    ensures Value(base, ds + [d]) == Value(base, ds) * base + d
  {
    assert (ds + [d])[..|ds|] == ds;
  }

  lemma Divided(base: nat, n: nat) returns (q: nat, r: nat)
    requires base >= 2
    ensures q == n / base && r == n % base && n == base * q + r && r < base
  {
    q, r := n / base, n % base;
  }

  lemma SplitNumber(base: nat, n: nat) returns (q: nat, r: nat)
    requires base >= 2
    ensures q == n / base && r == n % base && n == q * base + r && r < base
    ensures n > 0 ==> q < n
    ensures q == 0 ==> r == n
  {
    q, r := Divided(base, n);
    MulMonotone(q, 2, base);
    if q == 0 { assert q * base == 0; }
  }

  /** One more digit of the number, from those of its quotient. */
  lemma OneMoreDigit(base: nat, ds: seq<nat>, r: nat, n: nat)
    requires IsDigits(base, ds) && r < base && n == Value(base, ds) * base + r
    ensures IsDigits(base, ds + [r]) && Value(base, ds + [r]) == n
  {
    ValueNext(base, ds, r);
  }

  lemma {:induction false} DigitsOfNumber(base: nat, n: nat)
    requires base >= 2
    ensures IsDigits(base, Digits(base, n)) && Value(base, Digits(base, n)) == n
    ensures n > 0 ==> Digits(base, n)[0] != 0
  {
    if n > 0 {
      var q, r := SplitNumber(base, n);
      DigitsOfNumber(base, q);
      OneMoreDigit(base, Digits(base, q), r, n);
      assert Digits(base, n) == Digits(base, q) + [r];
    }
  }

  lemma DigitsNext(base: nat, q: nat, r: nat)
    requires base >= 2 && r < base && (q > 0 || r > 0)
    ensures Digits(base, q * base + r) == Digits(base, q) + [r]
    ensures q * base + r > 0
  {
    DivIsUnique(base, q, r);
    MulMonotone(q, 1, base);
  }

  /** A number has one string of digits without leading zeros. */
  lemma {:induction false} NumberOfDigits(base: nat, ds: seq<nat>)
    requires base >= 2 && IsDigits(base, ds) && (ds == [] || ds[0] != 0)
    ensures Digits(base, Value(base, ds)) == ds
    ensures ds != [] ==> Value(base, ds) > 0
  {
    if ds != [] {
      var n := |ds| - 1;
      NumberOfDigits(base, ds[..n]);
      assert n == 0 ==> Value(base, ds[..n]) == 0;
      DigitsNext(base, Value(base, ds[..n]), ds[n]);
    }
  }

  lemma {:induction false} LeadingZerosVanish(base: nat, zeros: nat, ds: seq<nat>)
    ensures Value(base, seq(zeros, _ => 0) + ds) == Value(base, ds)
    decreases zeros + |ds|
  {
    var all := seq(zeros, _ => 0) + ds;
    if ds != [] {
      assert all[..|all| - 1] == seq(zeros, _ => 0) + ds[..|ds| - 1];
      LeadingZerosVanish(base, zeros, ds[..|ds| - 1]);
    } else if zeros > 0 {
      assert all[..|all| - 1] == seq(zeros - 1, _ => 0) + [];
      LeadingZerosVanish(base, zeros - 1, []);
    }
  }

  // ---------------------------------------------------------------- powers

  lemma {:induction false} PowAdd(b: nat, m: nat, n: nat)
    ensures Pow(b, m + n) == Pow(b, m) * Pow(b, n)
  {
    if m > 0 {
      PowAdd(b, m - 1, n);
      assert b * (Pow(b, m - 1) * Pow(b, n)) == (b * Pow(b, m - 1)) * Pow(b, n);
    }
  }

  lemma {:induction false} PowPositive(b: nat, n: nat)
    requires b >= 1
    ensures Pow(b, n) >= 1
  {
    if n > 0 { PowPositive(b, n - 1); }
  }

  lemma {:induction false} PowMonotone(b: nat, m: nat, n: nat)
    requires b >= 1 && m <= n
    ensures Pow(b, m) <= Pow(b, n)
  {
    if m < n {
      PowMonotone(b, m, n - 1);
      assert b * Pow(b, n - 1) >= Pow(b, n - 1);
    }
  }

  lemma MulBoth(a: nat, b: nat, c: nat, d: nat)
    requires a <= b && c <= d
    ensures a * c <= b * d
  {
    MulMonotone(a, c, d);
    MulMonotone(d, a, b);
  }

  lemma {:induction false} PowOfLarger(a: nat, b: nat, n: nat)
    requires a <= b
    ensures Pow(a, n) <= Pow(b, n)
  {
    if n > 0 {
      PowOfLarger(a, b, n - 1);
      MulBoth(a, b, Pow(a, n - 1), Pow(b, n - 1));
    }
  }

  lemma OneMorePower(base: nat, v: nat, d: nat, p: nat)
    requires v < p && d < base
    ensures v * base + d < base * p && base * v <= v * base + d
  {
    MulMonotone(base, v + 1, p);
    assert base * (v + 1) == v * base + base;
  }

  /** A string without leading zeros is worth at least its leading power, and less than the next. */
  lemma {:induction false} ValueBounds(base: nat, ds: seq<nat>)
    requires base >= 2 && IsDigits(base, ds)
    ensures Value(base, ds) < Pow(base, |ds|)
    ensures ds != [] && ds[0] != 0 ==> Pow(base, |ds| - 1) <= Value(base, ds)
  {
    if ds != [] {
      var n := |ds| - 1;
      ValueBounds(base, ds[..n]);
      var v, p := Value(base, ds[..n]), Pow(base, n);
      OneMorePower(base, v, ds[n], p);
      if n > 0 && ds[0] != 0 {
        assert ds[..n][0] == ds[0];
        MulMonotone(base, Pow(base, n - 1), v);
      }
    }
  }

  /** The number of digits, from bounds on the number. */
  lemma DigitCount(base: nat, n: nat, low: nat, high: nat)
    requires base >= 2 && n > 0 && Pow(base, low) <= n < Pow(base, high)
    ensures low < |Digits(base, n)| <= high
  {
    DigitsOfNumber(base, n);
    ValueBounds(base, Digits(base, n));
    var d := |Digits(base, n)|;
    if d <= low { PowMonotone(base, d, low); }
    if d > high { PowMonotone(base, high, d - 1); }
  }
}
