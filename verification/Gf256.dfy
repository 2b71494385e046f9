/**
  The field of 256 elements that the recovery key is split over: polynomials over one bit, modulo
  x^8 + x^4 + x^3 + x^2 + 1. Multiplication is defined bit by bit here; the tables of the program
  are proved against it in class `Shamir.Tables`.
 */
module Gf256 {
  import opened Xors
  import opened Bytes


  const POLY: nat := 0x11D

  function Add(a: Byte, b: Byte): Byte {
    assert Pow2(7) == 128;
    TopBit(a, b, 7);
    Xor(a, b)
  }

  /** Multiplication by the generator 2, exactly as the table loop computes it. */
  function Xtime(x: Byte): Byte {
    if x >= 128 then Xor(2 * x, POLY) % 256 else (2 * x) % 256
  }

  /** The field product: Horner's rule over the bits of `b`, reduced at every step. */
  function Mul(a: Byte, b: Byte): Byte {
    if b == 0 then 0 else Add(if b % 2 == 1 then a else 0, Xtime(Mul(a, b / 2)))
  }

  lemma ReducedIsByte(t: nat)
    requires 256 <= t < 512
    ensures Xor(t, POLY) < 256 && t == Xor(POLY, Xor(t, POLY))
  {
    assert Pow2(8) == 256;
    TopBit(t, POLY, 8);
    Cancels(t, POLY);
    Commutes(Xor(t, POLY), POLY);
  }

  /** Doubling is `Xtime` plus the modulus, when the doubled value leaves the byte range. */
  lemma XtimeReduces(x: Byte)
    ensures Xtime(x) == if x >= 128 then Xor(2 * x, POLY) else 2 * x
    ensures 2 * x == Xor(if x >= 128 then POLY else 0, Xtime(x))
  {
    if x >= 128 { ReducedIsByte(2 * x); }
  }

  /** The modulus in numbers: twice the top bit alone leaves 0x1D. */
  lemma TopBitWraps()
    ensures Xtime(128) == 0x1D
  {
    assert Xor(1, 1) == 0;
    Digits(2, 2, 1, 0, 1, 0);
    Digits(4, 4, 2, 0, 2, 0);
    Digits(8, 8, 4, 0, 4, 0);
    Digits(16, 17, 8, 0, 8, 1);
    Digits(32, 35, 16, 0, 17, 1);
    Digits(64, 71, 32, 0, 35, 1);
    Digits(128, 142, 64, 0, 71, 0);
    Digits(256, 285, 128, 0, 142, 1);
  }

  lemma XtimeAdd(x: Byte, y: Byte)
    ensures Xtime(Add(x, y)) == Add(Xtime(x), Xtime(y))
  {
    assert Pow2(7) == 128;
    TopBit(x, y, 7);
    XtimeReduces(x);
    XtimeReduces(y);
    XtimeReduces(Add(x, y));
    Doubles(x, y);
    Swaps(2 * x, if x >= 128 then POLY else 0, 2 * y, if y >= 128 then POLY else 0);
    SelfInverse(POLY);
  }

  lemma XtimeOfNonzero(x: Byte)
    requires x != 0
    ensures Xtime(x) != 0
  {
    XtimeReduces(x);
    Cancels(2 * x, POLY);
  }

  lemma XtimeInjective(x: Byte, y: Byte)
    requires Xtime(x) == Xtime(y)
    ensures x == y
  {
    XtimeAdd(x, y);
    SelfInverse(Xtime(x));
    if Add(x, y) != 0 { XtimeOfNonzero(Add(x, y)); }
    Cancels(x, y);
  }

  lemma MulDigits(a: Byte, b: Byte, x: Byte, i: Bit)
    requires b == 2 * x + i
    ensures Mul(a, b) == Add(if i == 1 then a else 0, Xtime(Mul(a, x)))
  {}

  lemma {:induction false} MulAddRight(a: Byte, b: Byte, c: Byte)
    ensures Mul(a, Add(b, c)) == Add(Mul(a, b), Mul(a, c))
    decreases b + c
  {
    if b + c > 0 {
      MulAddRight(a, b / 2, c / 2);
      MulAddRightStep(a, b, c, b / 2, c / 2, b % 2, c % 2);
    }
  }

  lemma MulAddRightStep(a: Byte, b: Byte, c: Byte, x: Byte, y: Byte, i: Bit, j: Bit)
    requires b == 2 * x + i && c == 2 * y + j
    requires Mul(a, Add(x, y)) == Add(Mul(a, x), Mul(a, y))
    ensures Mul(a, Add(b, c)) == Add(Mul(a, b), Mul(a, c))
  {
    MulDigits(a, b, x, i);
    MulDigits(a, c, y, j);
    Digits(b, c, x, i, y, j);
    MulDigits(a, Add(b, c), Add(x, y), Flip(i, j));
    XtimeAdd(Mul(a, x), Mul(a, y));
    Swaps(if i == 1 then a else 0, Xtime(Mul(a, x)), if j == 1 then a else 0, Xtime(Mul(a, y)));
    SelfInverse(a);
  }

  /** The step of the table loop commutes with multiplication. */
  lemma {:induction false} MulXtime(a: Byte, b: Byte)
    ensures Mul(Xtime(a), b) == Xtime(Mul(a, b))
  {
    if b != 0 {
      MulXtime(a, b / 2);
      XtimeAdd(if b % 2 == 1 then a else 0, Xtime(Mul(a, b / 2)));
    }
  }

  lemma {:induction false} MulOne(b: Byte)
    ensures Mul(1, b) == b
  {
    if b != 0 {
      MulOne(b / 2);
      MulDigits(1, b, b / 2, b % 2);
      AddLowBit(b / 2, b % 2);
    }
  }

  lemma AddLowBit(x: Byte, i: Bit)
    requires x < 128
    ensures Add(i, Xtime(x)) == 2 * x + i
  {
    Digits(i, 2 * x, 0, i, x, 0);
  }

  lemma {:induction false} MulZero(b: Byte)
    ensures Mul(0, b) == 0
  {
    if b != 0 {
      var half := b / 2;
      MulZero(half);
    }
  }

  // ---------------------------------------------------------------- the independent reference

  /** Long multiplication of polynomials: no carries, and no reduction. */
  function Clmul(a: nat, b: nat): nat {
    if b == 0 then 0 else Xor(if b % 2 == 1 then a else 0, 2 * Clmul(a, b / 2))
  }

  /** `r` is what remains of the polynomial `p` on division by the modulus. */
  ghost predicate IsRemainder(p: nat, r: nat) {
    r < 256 && exists q: nat :: p == Xor(Clmul(POLY, q), r)
  }

  lemma ClmulDigits(a: nat, b: nat, x: nat, i: Bit)
    requires b == 2 * x + i
    ensures Clmul(a, b) == Xor(if i == 1 then a else 0, 2 * Clmul(a, x))
  {}

  /** The quotient of the carry-less product by the modulus. */
  function Quotient(a: Byte, b: Byte): nat {
    if b == 0 then 0 else 2 * Quotient(a, b / 2) + if Mul(a, b / 2) >= 128 then 1 else 0
  }

  lemma {:induction false} MulHasQuotient(a: Byte, b: Byte)
    ensures Clmul(a, b) == Xor(Clmul(POLY, Quotient(a, b)), Mul(a, b))
  {
    if b != 0 {
      var (x, i) := (b / 2, b % 2);
      MulHasQuotient(a, x);
      ClmulDigits(a, b, x, i);
      MulDigits(a, b, x, i);
      MulHasQuotientStep(if i == 1 then a else 0, Clmul(a, x), Mul(a, x), Quotient(a, x));
    }
  }

  lemma MulHasQuotientStep(w: Byte, c: nat, m: Byte, q: nat)
    requires c == Xor(Clmul(POLY, q), m)
    ensures Xor(w, 2 * c) == Xor(Clmul(POLY, 2 * q + if m >= 128 then 1 else 0), Add(w, Xtime(m)))
  {
    var (d, t) := (if m >= 128 then POLY else 0, Xtime(m));
    var k := 2 * Clmul(POLY, q);
    Doubles(Clmul(POLY, q), m);
    XtimeReduces(m);
    ClmulDigits(POLY, 2 * q + if m >= 128 then 1 else 0, q, if m >= 128 then 1 else 0);
    assert 2 * c == Xor(k, Xor(d, t));
    Associates(k, d, t);
    Commutes(k, d);
    Associates(w, Xor(d, k), t);
    Commutes(w, Xor(d, k));
    Associates(Xor(d, k), w, t);
  }

  /** A nonzero multiple of the modulus never fits in a byte. */
  lemma {:induction false} MultiplesAreLarge(q: nat)
    requires q != 0
    ensures Clmul(POLY, q) >= 256
  {
    assert Pow2(8) == 256;
    if q == 1 {
      ClmulDigits(POLY, 1, 0, 1);
    } else {
      MultiplesAreLarge(q / 2);
      var y := Clmul(POLY, q / 2);
      ClmulDigits(POLY, q, q / 2, q % 2);
      Digits(if q % 2 == 1 then POLY else 0, 2 * y, (if q % 2 == 1 then POLY else 0) / 2, q % 2, y, 0);
      HighPart(POLY / 2, y);
    }
  }

  lemma HighPart(a: nat, y: nat)
    requires a < 256 && y >= 256
    ensures Xor(a, y) >= 256
  {
    HighPartAt(a, y, 8);
  }

  lemma {:induction false} HighPartAt(a: nat, y: nat, k: nat)
    requires a < Pow2(k) && y >= Pow2(k)
    ensures Xor(a, y) >= Pow2(k)
  {
    if k > 0 && a != 0 { HighPartAt(a / 2, y / 2, k - 1); }
  }

  lemma {:induction false} ClmulXorRight(a: nat, b: nat, c: nat)
    ensures Clmul(a, Xor(b, c)) == Xor(Clmul(a, b), Clmul(a, c))
    decreases b + c
  {
    if b + c > 0 {
      ClmulXorRight(a, b / 2, c / 2);
      ClmulXorRightStep(a, b, c, b / 2, c / 2, b % 2, c % 2);
    }
  }

  lemma ClmulXorRightStep(a: nat, b: nat, c: nat, x: nat, y: nat, i: Bit, j: Bit)
    requires b == 2 * x + i && c == 2 * y + j
    requires Clmul(a, Xor(x, y)) == Xor(Clmul(a, x), Clmul(a, y))
    ensures Clmul(a, Xor(b, c)) == Xor(Clmul(a, b), Clmul(a, c))
  {
    ClmulDigits(a, b, x, i);
    ClmulDigits(a, c, y, j);
    Digits(b, c, x, i, y, j);
    ClmulDigits(a, Xor(b, c), Xor(x, y), Flip(i, j));
    Swaps(if i == 1 then a else 0, 2 * Clmul(a, x), if j == 1 then a else 0, 2 * Clmul(a, y));
    Doubles(Clmul(a, x), Clmul(a, y));
    SelfInverse(a);
  }

  /** Division by the modulus leaves one remainder. */
  lemma RemainderIsUnique(q1: nat, r1: Byte, q2: nat, r2: Byte)
    requires Xor(Clmul(POLY, q1), r1) == Xor(Clmul(POLY, q2), r2)
    ensures r1 == r2
  {
    var (c1, c2) := (Clmul(POLY, q1), Clmul(POLY, q2));
    Swaps(c1, r1, c2, r2);
    SelfInverse(Xor(c1, r1));
    ClmulXorRight(POLY, q1, q2);
    Cancels(Xor(c1, c2), Add(r1, r2));
    Cancels(r1, r2);
    if Xor(q1, q2) != 0 { MultiplesAreLarge(Xor(q1, q2)); }
  }

  /** The field product is carry-less multiplication modulo 0x11D, and nothing else is. */
  lemma MulIsTheRemainder(a: Byte, b: Byte, r: nat)
    ensures IsRemainder(Clmul(a, b), r) <==> r == Mul(a, b)
  {
    MulHasQuotient(a, b);
    if IsRemainder(Clmul(a, b), r) {
      var q: nat :| Clmul(a, b) == Xor(Clmul(POLY, q), r);
      RemainderIsUnique(q, r, Quotient(a, b), Mul(a, b));
    }
  }

  // ---------------------------------------------------------------- powers of the generator

  /** The value `_x` holds before round `i` of the table loop. */
  function Exp(i: nat): Byte { if i == 0 then 1 else Xtime(Exp(i - 1)) }
}
