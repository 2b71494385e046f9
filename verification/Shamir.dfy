/**
  The arithmetic of the shares: the tables the program multiplies and divides with, and the field
  they compute in. `split` and `combine` are in module Sharing.
 */
module Shamir {
  import opened Xors
  import opened Bytes
  import Gf256
  import Powers
  import opened Cyclic
  import opened Polynomials
  import opened Interpolation

  /** The field of the shares: exclusive or, and the product modulo 0x11D. */
  ghost function Gf(): Field {
    Field((a: Byte, b: Byte) => Gf256.Add(a, b),
          (a: Byte, b: Byte) => Gf256.Mul(a, b),
          (a: Byte, b: Byte) => if b == 0 then 0 else Powers.Div(a, b))
  }

  lemma GfAddLaws(a: Byte, b: Byte, c: Byte)
    ensures AddLaws(Gf(), a, b, c)
  {
    Commutes(a, b);
    Associates(a, b, c);
    SelfInverse(a);
  }

  lemma GfMulLaws(a: Byte, b: Byte, c: Byte)
    ensures MulLaws(Gf(), a, b, c)
  {
    Powers.MulCommutes(a, b);
    Powers.MulAssociates(a, b, c);
    Powers.MulAddLeft(a, b, c);
    Gf256.MulOne(a);
    Powers.NoZeroDivisors(a, b);
    if b != 0 { Powers.DivTimes(a, b); }
  }

  lemma GfIsField()
    ensures IsField(Gf())
  {
    forall a: Byte, b: Byte, c: Byte ensures AddLaws(Gf(), a, b, c) && MulLaws(Gf(), a, b, c) {
      GfAddLaws(a, b, c);
      GfMulLaws(a, b, c);
    }
  }

  // ---------------------------------------------------------------- the tables

  /** The loops that fill `_EXP` and `_LOG`, for the sequence `e` of powers they run through. */
  method FillTables(exp: array<Byte>, log: array<int>, ghost e: nat -> Byte)
    requires exp.Length == 512 && log.Length == 256
    requires CyclicOf255(e) && e(0) == 1 && forall k: nat :: StepsAt(e, Gf256.Xtime, k)
    modifies exp, log
    ensures forall i :: 0 <= i < 512 ==> exp[i] == e(i)
    ensures forall i :: 0 <= i < 255 ==> log[e(i)] == i
  {
    var x: Byte := 1;
    for i := 0 to 255
      invariant x == e(i)
      invariant forall k :: 0 <= k < i ==> exp[k] == e(k)
      invariant forall k :: 0 <= k < i ==> log[e(k)] == k
    {
      exp[i] := x;
      log[x] := i;
      assert StepsAt(e, Gf256.Xtime, i);
      x := Gf256.Xtime(x);
    }
    for i := 255 to 512
      invariant forall k :: 0 <= k < i ==> exp[k] == e(k)
      invariant forall k :: 0 <= k < 255 ==> log[e(k)] == k
    {
      assert e(i - 255 + 255) == e(i - 255);
      exp[i] := exp[i - 255];
    }
  }

  class Tables {
    const exp: array<Byte>
    const log: array<int>

    ghost predicate Valid()
      reads exp, log
    {
      && exp.Length == 512 && log.Length == 256
      && (forall i :: 0 <= i < 512 ==> exp[i] == Gf256.Exp(i))
      && forall x: Byte :: x != 0 ==> log[x] == Powers.Log(x)
    }

    constructor ()
      ensures Valid() && fresh(exp) && fresh(log)
    {
      exp := new Byte[512](_ => 0);
      log := new int[256](_ => 0);
      new;
      Powers.ExpIsCyclic();
      forall k: nat ensures StepsAt(Gf256.Exp, Gf256.Xtime, k) {}
      FillTables(exp, log, Gf256.Exp);
      forall y: Byte | y != 0 ensures log[y] == Powers.Log(y) {
        assert log[Gf256.Exp(Powers.Log(y))] == Powers.Log(y);
      }
    }

    function Mul(a: Byte, b: Byte): (r: Byte)
      requires Valid()
      reads exp, log
      ensures r == Gf256.Mul(a, b)
    {
      Powers.NoZeroDivisors(a, b);
      if a == 0 || b == 0 then 0
      else
        Powers.ExpAdds(Powers.Log(a), Powers.Log(b));
        exp[log[a] + log[b]]
    }

    function Div(a: Byte, b: Byte): (r: Byte)
      requires Valid() && b != 0
      reads exp, log
      ensures r == Powers.Div(a, b)
    {
      if a == 0 then 0 else exp[Powers.Gap(log[a], log[b])]
    }
  }
}
