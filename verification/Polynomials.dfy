/**
  Polynomials over any field in which every element is its own negative: evaluation, the bound on
  roots, and interpolation. Coefficients are listed from the constant term upwards.
 */
module Polynomials {
  import opened Bytes

  datatype Field = Field(add: (Byte, Byte) -> Byte, mul: (Byte, Byte) -> Byte, div: (Byte, Byte) -> Byte)

  ghost predicate AddLaws(f: Field, a: Byte, b: Byte, c: Byte) {
    && f.add(a, b) == f.add(b, a)
    && f.add(f.add(a, b), c) == f.add(a, f.add(b, c))
    && f.add(a, 0) == a
    && f.add(a, a) == 0
  }

  ghost predicate MulLaws(f: Field, a: Byte, b: Byte, c: Byte) {
    && f.mul(a, b) == f.mul(b, a)
    && f.mul(f.mul(a, b), c) == f.mul(a, f.mul(b, c))
    && f.mul(f.add(a, b), c) == f.add(f.mul(a, c), f.mul(b, c))
    && f.mul(1, a) == a
    && (f.mul(a, b) == 0 <==> a == 0 || b == 0)
    && (b != 0 ==> f.mul(f.div(a, b), b) == a)
  }

  ghost predicate IsField(f: Field) {
    forall a: Byte, b: Byte, c: Byte :: AddLaws(f, a, b, c) && MulLaws(f, a, b, c)
  }

  // ---------------------------------------------------------------- rearrangements used below

  lemma AddCancels(f: Field, a: Byte, b: Byte)
    requires IsField(f)
    ensures f.add(a, f.add(a, b)) == b
    ensures f.add(f.add(a, b), b) == a
    ensures f.add(a, b) == 0 <==> a == b
    ensures f.add(0, a) == a
  {
    assert AddLaws(f, a, a, b);
    assert AddLaws(f, a, b, b);
    assert AddLaws(f, b, b, b);
    assert AddLaws(f, b, 0, 0);
    assert AddLaws(f, 0, b, 0);
    assert AddLaws(f, 0, a, 0);
  }

  lemma AddSwaps(f: Field, a: Byte, b: Byte, c: Byte, d: Byte)
    requires IsField(f)
    ensures f.add(f.add(a, b), f.add(c, d)) == f.add(f.add(a, c), f.add(b, d))
  {
    assert AddLaws(f, a, b, f.add(c, d));
    assert AddLaws(f, b, c, d);
    assert AddLaws(f, c, b, d);
    assert AddLaws(f, a, c, f.add(b, d));
  }

  lemma Distributes(f: Field, a: Byte, b: Byte, c: Byte)
    requires IsField(f)
    ensures f.mul(a, f.add(b, c)) == f.add(f.mul(a, b), f.mul(a, c))
  {
    assert MulLaws(f, b, c, a);
    assert MulLaws(f, a, f.add(b, c), 0);
    assert MulLaws(f, a, b, 0);
    assert MulLaws(f, a, c, 0);
  }

  lemma MulSwaps(f: Field, a: Byte, b: Byte, c: Byte)
    requires IsField(f)
    ensures f.mul(f.mul(a, b), c) == f.mul(f.mul(a, c), b)
  {
    assert MulLaws(f, a, b, c);
    assert MulLaws(f, a, c, b);
    assert MulLaws(f, b, c, 0);
  }

  // ---------------------------------------------------------------- evaluation

  /** Horner's rule, from the highest coefficient down. */
  function Eval(f: Field, p: seq<Byte>, x: Byte): Byte {
    if p == [] then 0 else f.add(f.mul(Eval(f, p[1..], x), x), p[0])
  }

  function Plus(f: Field, p: seq<Byte>, q: seq<Byte>): (r: seq<Byte>)
    requires |p| == |q|
    ensures |r| == |p| && forall k :: 0 <= k < |p| ==> r[k] == f.add(p[k], q[k])
  {
    seq<Byte>(|p|, k requires 0 <= k < |p| => f.add(p[k], q[k]))
  }

  function Scale(f: Field, s: Byte, p: seq<Byte>): (r: seq<Byte>)
    ensures |r| == |p| && forall k :: 0 <= k < |p| ==> r[k] == f.mul(s, p[k])
  {
    seq(|p|, k requires 0 <= k < |p| => f.mul(s, p[k]))
  }

  function Zeros(n: nat): (r: seq<Byte>)
    ensures |r| == n && forall k :: 0 <= k < n ==> r[k] == 0
  {
    seq(n, k => 0)
  }

  lemma {:induction false} EvalPlus(f: Field, p: seq<Byte>, q: seq<Byte>, x: Byte)
    requires IsField(f) && |p| == |q|
    ensures Eval(f, Plus(f, p, q), x) == f.add(Eval(f, p, x), Eval(f, q, x))
  {
    if p == [] {
      assert AddLaws(f, 0, 0, 0);
    } else {
      var (u, v) := (Eval(f, p[1..], x), Eval(f, q[1..], x));
      EvalPlus(f, p[1..], q[1..], x);
      assert Plus(f, p, q)[1..] == Plus(f, p[1..], q[1..]);
      assert MulLaws(f, u, v, x);
      AddSwaps(f, f.mul(u, x), f.mul(v, x), p[0], q[0]);
    }
  }

  lemma {:induction false} EvalScale(f: Field, s: Byte, p: seq<Byte>, x: Byte)
    requires IsField(f)
    ensures Eval(f, Scale(f, s, p), x) == f.mul(s, Eval(f, p, x))
  {
    if p == [] {
      assert MulLaws(f, s, 0, 0);
    } else {
      var u := Eval(f, p[1..], x);
      EvalScale(f, s, p[1..], x);
      assert Scale(f, s, p)[1..] == Scale(f, s, p[1..]);
      assert MulLaws(f, s, u, x);
      Distributes(f, s, f.mul(u, x), p[0]);
    }
  }

  lemma {:induction false} EvalZeros(f: Field, p: seq<Byte>, x: Byte)
    requires IsField(f) && forall k :: 0 <= k < |p| ==> p[k] == 0
    ensures Eval(f, p, x) == 0
  {
    if p != [] {
      EvalZeros(f, p[1..], x);
      assert MulLaws(f, 0, x, 0);
      assert AddLaws(f, 0, 0, 0);
    }
  }

  /** Leading zero coefficients do not matter. */
  lemma {:induction false} EvalPad(f: Field, p: seq<Byte>, n: nat, x: Byte)
    requires IsField(f)
    ensures Eval(f, p + Zeros(n), x) == Eval(f, p, x)
  {
    if p == [] {
      assert p + Zeros(n) == Zeros(n);
      EvalZeros(f, Zeros(n), x);
    } else {
      EvalPad(f, p[1..], n, x);
      assert (p + Zeros(n))[1..] == p[1..] + Zeros(n);
    }
  }

  lemma EvalAtZero(f: Field, p: seq<Byte>)
    requires IsField(f) && p != []
    ensures Eval(f, p, 0) == p[0]
  {
    var u := Eval(f, p[1..], 0);
    assert MulLaws(f, u, 0, 0);
    AddCancels(f, p[0], 0);
  }

  // ---------------------------------------------------------------- roots

  /** The quotient of `p` by X + r: the successive values of Horner's rule. */
  function Deflate(f: Field, p: seq<Byte>, r: Byte): (q: seq<Byte>)
    requires p != []
    ensures |q| == |p| - 1 && forall k :: 0 <= k < |q| ==> q[k] == Eval(f, p[k + 1..], r)
  {
    seq(|p| - 1, k requires 0 <= k < |p| - 1 => Eval(f, p[k + 1..], r))
  }

  /** p(x) + p(r) = (x + r) q(x) */
  lemma {:induction false} DeflateDivides(f: Field, p: seq<Byte>, r: Byte, x: Byte)
    requires IsField(f) && p != []
    ensures f.add(Eval(f, p, x), Eval(f, p, r)) == f.mul(Eval(f, Deflate(f, p, r), x), f.add(x, r))
  {
    var (c, t) := (p[0], p[1..]);
    if t == [] {
      assert MulLaws(f, 0, x, 0) && MulLaws(f, 0, r, 0) && MulLaws(f, 0, f.add(x, r), 0);
      assert AddLaws(f, f.add(0, c), 0, 0);
    } else {
      DeflateDivides(f, t, r, x);
      var q := Deflate(f, t, r);
      assert Deflate(f, p, r)[1..] == q;
      assert Deflate(f, p, r)[0] == Eval(f, t, r);
      DeflateStep(f, Eval(f, t, x), Eval(f, t, r), Eval(f, q, x), c, x, r);
    }
  }

  lemma DeflateStep(f: Field, u: Byte, v: Byte, w: Byte, c: Byte, x: Byte, r: Byte)
    requires IsField(f) && f.add(u, v) == f.mul(w, f.add(x, r))
    ensures f.add(f.add(f.mul(u, x), c), f.add(f.mul(v, r), c)) == f.mul(f.add(f.mul(w, x), v), f.add(x, r))
  {
    var s := f.add(x, r);
    calc {
      f.add(f.add(f.mul(u, x), c), f.add(f.mul(v, r), c));
      { AddSwaps(f, f.mul(u, x), c, f.mul(v, r), c); assert AddLaws(f, c, 0, 0); }
      f.add(f.add(f.mul(u, x), f.mul(v, r)), 0);
      { assert AddLaws(f, f.add(f.mul(u, x), f.mul(v, r)), 0, 0); }
      f.add(f.mul(u, x), f.mul(v, r));
      { AddCancels(f, u, v); assert AddLaws(f, f.add(u, v), v, 0); }
      f.add(f.mul(f.add(f.add(u, v), v), x), f.mul(v, r));
      { assert MulLaws(f, f.add(u, v), v, x); }
      f.add(f.add(f.mul(f.add(u, v), x), f.mul(v, x)), f.mul(v, r));
      { assert AddLaws(f, f.mul(f.add(u, v), x), f.mul(v, x), f.mul(v, r)); Distributes(f, v, x, r); }
      f.add(f.mul(f.mul(w, s), x), f.mul(v, s));
      { MulSwaps(f, w, s, x); assert MulLaws(f, f.mul(w, x), v, s); }
      f.mul(f.add(f.mul(w, x), v), s);
    }
  }

  ghost predicate Distinct(xs: seq<Byte>) { forall i, j :: 0 <= i < j < |xs| ==> xs[i] != xs[j] }

  ghost predicate AllZero(p: seq<Byte>) { forall k :: 0 <= k < |p| ==> p[k] == 0 }

  /** A polynomial with d coefficients that vanishes at d distinct points is the zero polynomial. */
  lemma {:induction false} RootBound(f: Field, p: seq<Byte>, xs: seq<Byte>)
    requires IsField(f) && |p| == |xs| && Distinct(xs)
    requires forall i :: 0 <= i < |xs| ==> Eval(f, p, xs[i]) == 0
    ensures AllZero(p)
    decreases |p|
  {
    if p != [] {
      var (r, rest, q) := (xs[0], xs[1..], Deflate(f, p, xs[0]));
      assert Distinct(rest) by { forall i, j | 0 <= i < j < |rest| ensures rest[i] != rest[j] { assert xs[i + 1] != xs[j + 1]; } }
      forall i | 0 <= i < |rest| ensures Eval(f, q, rest[i]) == 0 {
        var x := rest[i];
        assert x == xs[i + 1] && x != r;
        DeflateDivides(f, p, r, x);
        assert AddLaws(f, 0, 0, 0);
        AddCancels(f, x, r);
        assert MulLaws(f, Eval(f, q, x), f.add(x, r), 0);
      }
      RootBound(f, q, rest);
      assert Eval(f, p, r) == 0;
      CoefficientsVanish(f, p, r);
    }
  }

  lemma CoefficientsVanish(f: Field, p: seq<Byte>, r: Byte)
    requires IsField(f) && p != [] && Eval(f, p, r) == 0 && AllZero(Deflate(f, p, r))
    ensures AllZero(p)
  {
    var q := Deflate(f, p, r);
    forall k | 0 <= k < |p| ensures p[k] == 0 {
      var u := Eval(f, p[k + 1..], r);
      assert p[k..][1..] == p[k + 1..] && p[k..][0] == p[k];
      assert Eval(f, p[k..], r) == f.add(f.mul(u, r), p[k]);
      if k == 0 { assert p[0..] == p; } else { assert q[k - 1] == Eval(f, p[k..], r); }
      if k + 1 < |p| { assert q[k] == u; }
      assert u == 0;
      assert MulLaws(f, 0, r, 0);
      AddCancels(f, p[k], 0);
    }
  }
}
