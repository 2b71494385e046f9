/**
  The powers of the generator, and the field laws that follow from their running through all 255
  nonzero bytes.
 */
module Powers {
  import opened Xors
  import opened Bytes
  import opened Gf256
  import opened Bits
  import opened Cyclic

  lemma {:induction false} ExpNonzero(i: nat)
    ensures Exp(i) != 0
  {
    if i > 0 { ExpNonzero(i - 1); XtimeOfNonzero(Exp(i - 1)); }
  }

  /** Multiplying powers adds exponents. */
  lemma ExpAdds(i: nat, j: nat)
    ensures Mul(Exp(i), Exp(j)) == Exp(i + j)
  {
    forall y: Byte ensures Mul(1, y) == y { MulOne(y); }
    forall x: Byte, y: Byte ensures Mul(Xtime(x), y) == Xtime(Mul(x, y)) { MulXtime(x, y); }
    forall k: nat ensures StepsAt(Exp, Xtime, k) {}
    Adds(Exp, Mul, Xtime, i, j);
  }

  lemma {:induction false} ExpCancels(i: nat, j: nat)
    requires Exp(i + j) == Exp(j)
    ensures Exp(i) == 1
  {
    if j > 0 { XtimeInjective(Exp(i + j - 1), Exp(j - 1)); ExpCancels(i, j - 1); }
  }

  lemma ExpIsHomomorphic()
    ensures Homomorphic(Exp, Mul)
  {
    forall i: nat, j: nat ensures Mul(Exp(i), Exp(j)) == Exp(i + j) { ExpAdds(i, j); }
  }

  lemma ExpIsDoubling()
    ensures Doubling(Exp)
  {
    forall i: nat ensures DoublesAt(Exp, i) {}
  }

  /** The generator returns to 1 after 255 steps and no earlier. */
  lemma OrderIs255(d: nat)
    requires 0 < d <= 255
    ensures Exp(d) == 1 <==> d == 255
  {
    ExpIsHomomorphic();
    ExpIsDoubling();
    FirstReturn(Exp, Mul, d);
  }

  lemma FirstReturn(e: nat -> Byte, m: (Byte, Byte) -> Byte, d: nat)
    requires Homomorphic(e, m) && Doubling(e) && 0 < d <= 255
    ensures e(d) == 1 <==> d == 255
  {
    Milestones(e);
    if d < 255 { PeriodIs255(e, m, d); }
  }

  lemma ExpWraps(i: nat)
    ensures Exp(i + 255) == Exp(i)
  {
    ExpIsHomomorphic();
    ExpIsDoubling();
    Wraps(Exp, Mul, i);
  }

  lemma Wraps(e: nat -> Byte, m: (Byte, Byte) -> Byte, i: nat)
    requires Homomorphic(e, m) && Doubling(e)
    ensures e(i + 255) == e(i)
  {
    Milestones(e);
    Period(e, m, 255, i);
  }

  lemma ExpInjective(i: nat, j: nat)
    requires i < 255 && j < 255 && Exp(i) == Exp(j)
    ensures i == j
  {
    if i != j {
      var (low, gap) := if i < j then (i, j - i) else (j, i - j);
      ExpCancels(gap, low);
      OrderIs255(gap);
    }
  }

  lemma ExpIsCyclic()
    ensures CyclicOf255(Exp)
  {
    forall i: nat, j: nat | i < 255 && j < 255 && Exp(i) == Exp(j) ensures i == j { ExpInjective(i, j); }
    forall i: nat ensures Exp(i) != 0 && Exp(i + 255) == Exp(i) { ExpNonzero(i); ExpWraps(i); }
  }

  /** Every nonzero byte is a power of the generator: the table `_LOG` has no gaps. */
  lemma ExpSurjective(x: Byte)
    requires x != 0
    ensures exists i: nat :: i < 255 && Exp(i) == x
  {
    ExpIsCyclic();
    Onto(Exp, x);
  }

  ghost function Log(x: Byte): (i: nat)
    requires x != 0
    ensures i < 255 && Exp(i) == x
  {
    ExpSurjective(x);
    var i: nat :| i < 255 && Exp(i) == x;
    i
  }

  // ---------------------------------------------------------------- the field laws

  lemma MulCommutes(a: Byte, b: Byte)
    ensures Mul(a, b) == Mul(b, a)
  {
    MulZero(a);
    MulZero(b);
    if a != 0 && b != 0 { ExpIsHomomorphic(); Commute(Exp, Mul, Log(a), Log(b)); }
  }

  lemma MulAssociates(a: Byte, b: Byte, c: Byte)
    ensures Mul(Mul(a, b), c) == Mul(a, Mul(b, c))
  {
    if a == 0 || b == 0 || c == 0 {
      MulZero(b);
      MulZero(c);
      MulZero(Mul(b, c));
    } else {
      ExpIsHomomorphic();
      Associate(Exp, Mul, Log(a), Log(b), Log(c));
    }
  }

  lemma MulAddLeft(a: Byte, b: Byte, c: Byte)
    ensures Mul(Add(a, b), c) == Add(Mul(a, c), Mul(b, c))
  {
    MulCommutes(Add(a, b), c);
    MulCommutes(a, c);
    MulCommutes(b, c);
    MulAddRight(c, a, b);
  }

  lemma NoZeroDivisors(a: Byte, b: Byte)
    ensures Mul(a, b) == 0 <==> a == 0 || b == 0
  {
    MulZero(b);
    if a != 0 && b != 0 { ExpAdds(Log(a), Log(b)); ExpNonzero(Log(a) + Log(b)); }
  }

  /** The exponent of a quotient. */
  function Gap(i: int, j: int): nat { (i - j) % 255 }

  /** The quotient `_div` computes through the tables. */
  ghost function Div(a: Byte, b: Byte): Byte
    requires b != 0
  {
    if a == 0 then 0 else Exp(Gap(Log(a), Log(b)))
  }

  /** Division undoes multiplication, and is the only operation that does. */
  lemma DivIsQuotient(a: Byte, b: Byte, q: Byte)
    requires b != 0
    ensures q == Div(a, b) <==> Mul(q, b) == a
  {
    DivTimes(a, b);
    if Mul(q, b) == a {
      var d := Div(a, b);
      MulAddLeft(q, d, b);
      Cancels(a, a);
      NoZeroDivisors(Add(q, d), b);
      Cancels(q, d);
    }
  }

  /** A quotient of powers, times the divisor. */
  lemma ExpDivides(i: nat, j: nat)
    requires i < 255 && j < 255
    ensures Mul(Exp(Gap(i, j)), Exp(j)) == Exp(i)
  {
    ExpIsHomomorphic();
    ExpIsCyclic();
    Divide(Exp, Mul, i, j);
  }

  lemma DivTimes(a: Byte, b: Byte)
    requires b != 0
    ensures Mul(Div(a, b), b) == a
  {
    MulZero(b);
    if a != 0 {
      var i, j := Log(a), Log(b);
      ExpDivides(i, j);
    }
  }
}
