/**
  Exclusive or on the integers, as `^` acts on Python's non-negative integers, and the laws the
  secret-sharing field is built on. Integers rather than bit-vectors, because the shares are indexed,
  compared and tabulated as integers.
 */
module Xors {

  type Bit = x: nat | x < 2

  function Flip(i: Bit, j: Bit): Bit { if i == j then 0 else 1 }

  function Xor(a: nat, b: nat): nat {
    if a == 0 then b else if b == 0 then a else 2 * Xor(a / 2, b / 2) + Flip(a % 2, b % 2)
  }

  function Pow2(k: nat): (r: nat)
    ensures r >= 1
  {
    if k == 0 then 1 else 2 * Pow2(k - 1)
  }

  /** Exclusive or acts digit by digit. */
  lemma Digits(a: nat, b: nat, x: nat, i: Bit, y: nat, j: Bit)
    requires a == 2 * x + i && b == 2 * y + j
    ensures Xor(a, b) == 2 * Xor(x, y) + Flip(i, j)
  {}

  lemma Doubles(a: nat, b: nat)
    ensures Xor(2 * a, 2 * b) == 2 * Xor(a, b)
  {
    Digits(2 * a, 2 * b, a, 0, b, 0);
  }

  lemma {:induction false} Commutes(a: nat, b: nat)
    ensures Xor(a, b) == Xor(b, a)
  {
    if a != 0 && b != 0 { Commutes(a / 2, b / 2); }
  }

  lemma {:induction false} Associates(a: nat, b: nat, c: nat)
    ensures Xor(Xor(a, b), c) == Xor(a, Xor(b, c))
    decreases a + b + c
  {
    if a + b + c > 0 {
      Associates(a / 2, b / 2, c / 2);
      AssociatesStep(a, b, c, a / 2, b / 2, c / 2, a % 2, b % 2, c % 2);
    }
  }

  lemma AssociatesStep(a: nat, b: nat, c: nat, x: nat, y: nat, z: nat, i: Bit, j: Bit, k: Bit)
    requires a == 2 * x + i && b == 2 * y + j && c == 2 * z + k
    requires Xor(Xor(x, y), z) == Xor(x, Xor(y, z))
    ensures Xor(Xor(a, b), c) == Xor(a, Xor(b, c))
  {
    Digits(a, b, x, i, y, j);
    Digits(b, c, y, j, z, k);
    Digits(Xor(a, b), c, Xor(x, y), Flip(i, j), z, k);
    Digits(a, Xor(b, c), x, i, Xor(y, z), Flip(j, k));
  }

  lemma {:induction false} SelfInverse(a: nat)
    ensures Xor(a, a) == 0
  {
    if a != 0 { SelfInverse(a / 2); }
  }

  /** Every element is its own inverse, so subtraction and addition are the same operation. */
  lemma Cancels(a: nat, b: nat)
    ensures Xor(a, b) == 0 <==> a == b
    ensures Xor(Xor(a, b), b) == a
    ensures Xor(a, Xor(a, b)) == b
  {
    SelfInverse(a);
    SelfInverse(b);
    Associates(a, b, b);
    Associates(a, a, b);
  }

  lemma Swaps(a: nat, b: nat, c: nat, d: nat)
    ensures Xor(Xor(a, b), Xor(c, d)) == Xor(Xor(a, c), Xor(b, d))
  {
    Associates(a, b, Xor(c, d));
    Associates(b, c, d);
    Commutes(b, c);
    Associates(c, b, d);
    Associates(a, c, Xor(b, d));
  }

  /** Below 2^(k+1) the bit of weight 2^k is set in exactly one operand, or clear in the result. */
  lemma {:induction false} TopBit(a: nat, b: nat, k: nat)
    requires a < 2 * Pow2(k) && b < 2 * Pow2(k)
    ensures Xor(a, b) < 2 * Pow2(k)
    ensures Xor(a, b) >= Pow2(k) <==> (a >= Pow2(k) <==> b < Pow2(k))
  {
    if k > 0 && a != 0 && b != 0 { TopBit(a / 2, b / 2, k - 1); }
  }
}

module Bytes {
  type Byte = x: nat | x < 256
}
