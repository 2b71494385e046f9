/**
  A byte written out bit by bit. Powers of the generator are computed here, where a doubling is a
  rearrangement of bits, and carried back to the integers.
 */
module Bits {
  import opened Xors
  import opened Bytes
  import opened Gf256

  datatype Octet = Octet(b7: bool, b6: bool, b5: bool, b4: bool, b3: bool, b2: bool, b1: bool, b0: bool)

  function Weight(b: bool): Bit { if b then 1 else 0 }

  function Value(o: Octet): Byte {
    128 * Weight(o.b7) + 64 * Weight(o.b6) + 32 * Weight(o.b5) + 16 * Weight(o.b4) +
    8 * Weight(o.b3) + 4 * Weight(o.b2) + 2 * Weight(o.b1) + Weight(o.b0)
  }

  function Shift(o: Octet): Octet {
    Octet(o.b6, o.b5, o.b4, o.b3 != o.b7, o.b2 != o.b7, o.b1 != o.b7, o.b0, o.b7)
  }

  /** The square, which is linear: bit i of the operand contributes the power 2i of the generator. */
  function Square(o: Octet): Octet {
    Octet(o.b6,
          (o.b6 != o.b5) != o.b3,
          o.b5,
          ((o.b7 != o.b5) != o.b4) != o.b2,
          o.b6 != o.b4,
          ((o.b6 != o.b5) != o.b4) != o.b1,
          o.b7,
          ((o.b7 != o.b6) != o.b4) != o.b0)
  }

  lemma SquareOfShift(o: Octet)
    ensures Square(Shift(o)) == Shift(Shift(Square(o)))
  {}

  /** A doubling of the bits is a doubling in the field. */
  lemma ShiftIsXtime(o: Octet)
    ensures Value(Shift(o)) == Xtime(Value(o))
  {
    XtimeReduces(Value(o));
    if o.b7 { ShiftReduces(o); }
  }

  lemma ShiftReduces(o: Octet)
    requires o.b7
    ensures Xor(2 * Value(o), 285) == Value(Shift(o))
  {
    ReductionBits(Weight(o.b6), Weight(o.b5), Weight(o.b4), Weight(o.b3), Weight(o.b2), Weight(o.b1), Weight(o.b0));
    ShiftedValue(o);
  }

  lemma ShiftedValue(o: Octet)
    requires o.b7
    ensures Value(Shift(o)) == 128 * Weight(o.b6) + 64 * Weight(o.b5) + 32 * Weight(o.b4) + 16 * (1 - Weight(o.b3)) +
                               8 * (1 - Weight(o.b2)) + 4 * (1 - Weight(o.b1)) + 2 * Weight(o.b0) + 1
  {}

  lemma ReductionBits(b6: Bit, b5: Bit, b4: Bit, b3: Bit, b2: Bit, b1: Bit, b0: Bit)
    ensures Xor(256 + 128 * b6 + 64 * b5 + 32 * b4 + 16 * b3 + 8 * b2 + 4 * b1 + 2 * b0, 285)
         == 128 * b6 + 64 * b5 + 32 * b4 + 16 * (1 - b3) + 8 * (1 - b2) + 4 * (1 - b1) + 2 * b0 + 1
  {
    UpperBits(b6, b5, b4, b3);
    LowerBits(16 + 8 * b6 + 4 * b5 + 2 * b4 + b3, 8 * b6 + 4 * b5 + 2 * b4 + (1 - b3), b2, b1, b0);
  }

  /** Subtracting 0x11D flips the bits of weight 256 and 16 among the upper five, ... */
  lemma UpperBits(b6: Bit, b5: Bit, b4: Bit, b3: Bit)
    ensures Xor(16 + 8 * b6 + 4 * b5 + 2 * b4 + b3, 17) == 8 * b6 + 4 * b5 + 2 * b4 + (1 - b3)
  {
    var r6 := Kept(2 + b6, 2, 1, 1, b6, 0);
    var r5 := Kept(2 * (2 + b6) + b5, 4, 2 + b6, 2, b5, r6);
    var r4 := Kept(8 + 4 * b6 + 2 * b5 + b4, 8, 2 * (2 + b6) + b5, 4, b4, r5);
    var r3 := Flipped(16 + 8 * b6 + 4 * b5 + 2 * b4 + b3, 17, 8 + 4 * b6 + 2 * b5 + b4, 8, b3, r4);
  }

  /** ... and the bits of weight 8, 4 and 1 among the lower four. */
  lemma LowerBits(v: nat, u: nat, b2: Bit, b1: Bit, b0: Bit)
    requires Xor(v, 17) == u
    ensures Xor(16 * v + 8 * b2 + 4 * b1 + 2 * b0, 285) == 16 * u + 8 * (1 - b2) + 4 * (1 - b1) + 2 * b0 + 1
  {
    var r2 := Flipped(2 * v + b2, 35, v, 17, b2, u);
    var r1 := Flipped(4 * v + 2 * b2 + b1, 71, 2 * v + b2, 35, b1, r2);
    var r0 := Kept(8 * v + 4 * b2 + 2 * b1 + b0, 142, 4 * v + 2 * b2 + b1, 71, b0, r1);
    var r := Flipped(16 * v + 8 * b2 + 4 * b1 + 2 * b0, 285, 8 * v + 4 * b2 + 2 * b1 + b0, 142, 0, r0);
  }

  lemma Kept(a: nat, b: nat, x: nat, y: nat, i: Bit, upper: nat) returns (r: nat)
    requires a == 2 * x + i && b == 2 * y && Xor(x, y) == upper
    ensures r == 2 * upper + i && Xor(a, b) == r
  {
    Digits(a, b, x, i, y, 0);
    r := 2 * upper + i;
  }

  lemma Flipped(a: nat, b: nat, x: nat, y: nat, i: Bit, upper: nat) returns (r: nat)
    requires a == 2 * x + i && b == 2 * y + 1 && Xor(x, y) == upper
    ensures r == 2 * upper + (1 - i) && Xor(a, b) == r
  {
    Digits(a, b, x, i, y, 1);
    r := 2 * upper + (1 - i);
  }

  /** `e` lists the values that repeated doubling takes from 1. */
  ghost predicate Doubling(e: nat -> Byte) { e(0) == 1 && forall i: nat :: DoublesAt(e, i) }

  ghost predicate DoublesAt(e: nat -> Byte, i: nat) { e(i + 1) == Xtime(e(i)) }

  const ONE := Octet(false, false, false, false, false, false, false, true)

  function Orbit(i: nat): Octet {
    if i == 0 then ONE else Shift(Orbit(i - 1))
  }

  lemma {:induction false} OrbitAgrees(e: nat -> Byte, i: nat)
    requires Doubling(e)
    ensures e(i) == Value(Orbit(i))
  {
    if i > 0 {
      OrbitAgrees(e, i - 1);
      assert DoublesAt(e, i - 1);
      ShiftIsXtime(Orbit(i - 1));
    }
  }

  lemma {:induction false} SquareOfOrbit(i: nat)
    ensures Square(Orbit(i)) == Orbit(2 * i)
  {
    if i > 0 {
      SquareOfOrbit(i - 1);
      SquareOfShift(Orbit(i - 1));
    }
  }

  /** `w` is the orbit of 1 under doubling, with the square of each entry at the doubled position. */
  ghost predicate IsOrbit(w: nat -> Octet) {
    && w(0) == ONE
    && forall i: nat :: OrbitAt(w, i)
  }

  ghost predicate OrbitAt(w: nat -> Octet, i: nat) { w(i + 1) == Shift(w(i)) && w(2 * i) == Square(w(i)) }

  lemma Next(w: nat -> Octet, i: nat, o: Octet) returns (p: Octet)
    requires IsOrbit(w) && w(i) == o
    ensures p == Shift(o) && w(i + 1) == p
  {
    assert OrbitAt(w, i);
    p := Shift(o);
  }

  lemma Twice(w: nat -> Octet, i: nat, o: Octet) returns (p: Octet)
    requires IsOrbit(w) && w(i) == o
    ensures p == Square(o) && w(2 * i) == p
  {
    assert OrbitAt(w, i);
    p := Square(o);
  }

  /** Double-and-add up to the three maximal proper divisors of 255, and to 255 itself. */
  lemma Ladder(w: nat -> Octet)
    requires IsOrbit(w)
    ensures w(15) != ONE && w(51) != ONE && w(85) != ONE && w(255) == ONE
  {
    var o0 := ONE;
    var o1 := Next(w, 0, o0);
    var o2 := Twice(w, 1, o1);
    var o3 := Next(w, 2, o2);
    var o6 := Twice(w, 3, o3);
    var o7 := Next(w, 6, o6);
    var o14 := Twice(w, 7, o7);
    var o15 := Next(w, 14, o14);
    var o12 := Twice(w, 6, o6);
    var o24 := Twice(w, 12, o12);
    var o25 := Next(w, 24, o24);
    var o50 := Twice(w, 25, o25);
    var o51 := Next(w, 50, o50);
    var o4 := Twice(w, 2, o2);
    var o5 := Next(w, 4, o4);
    var o10 := Twice(w, 5, o5);
    var o20 := Twice(w, 10, o10);
    var o21 := Next(w, 20, o20);
    var o42 := Twice(w, 21, o21);
    var o84 := Twice(w, 42, o42);
    var o85 := Next(w, 84, o84);
    var o30 := Twice(w, 15, o15);
    var o31 := Next(w, 30, o30);
    var o62 := Twice(w, 31, o31);
    var o63 := Next(w, 62, o62);
    var o126 := Twice(w, 63, o63);
    var o127 := Next(w, 126, o126);
    var o254 := Twice(w, 127, o127);
    var o255 := Next(w, 254, o254);
  }

  /** The three maximal proper divisors of 255 are not periods of the generator, and 255 is. */
  lemma Milestones(e: nat -> Byte)
    requires Doubling(e)
    ensures e(15) != 1 && e(51) != 1 && e(85) != 1 && e(255) == 1
  {
    forall i: nat ensures e(i) == Value(Orbit(i)) { OrbitAgrees(e, i); }
    forall i: nat ensures OrbitAt(Orbit, i) { SquareOfOrbit(i); }
    MilestonesOf(e, Orbit);
  }

  lemma MilestonesOf(e: nat -> Byte, w: nat -> Octet)
    requires IsOrbit(w) && forall i: nat :: e(i) == Value(w(i))
    ensures e(15) != 1 && e(51) != 1 && e(85) != 1 && e(255) == 1
  {
    Ladder(w);
    OnlyOneIsOne(w(15));
    OnlyOneIsOne(w(51));
    OnlyOneIsOne(w(85));
  }

  lemma OnlyOneIsOne(o: Octet)
    ensures Value(o) == 1 <==> o == ONE
  {}
}
