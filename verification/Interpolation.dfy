/**
  Lagrange interpolation at zero, and the two facts secret sharing rests on: enough points determine
  the constant term, and too few leave every constant term equally possible.
 */
module Interpolation {
  import opened Bytes
  import opened Polynomials

  // ---------------------------------------------------------------- products of linear factors

  /** The product of p by X + r. */
  function Linear(f: Field, p: seq<Byte>, r: Byte): (q: seq<Byte>)
    ensures |q| == |p| + 1
  {
    if p == [] then [0]
    else
      var t := Linear(f, p[1..], r);
      [f.mul(p[0], r), f.add(t[0], p[0])] + t[1..]
  }

  lemma {:induction false} EvalLinear(f: Field, p: seq<Byte>, r: Byte, x: Byte)
    requires IsField(f)
    ensures Eval(f, Linear(f, p, r), x) == f.mul(Eval(f, p, x), f.add(x, r))
  {
    if p == [] {
      assert Eval(f, [], x) == 0;
      assert MulLaws(f, 0, x, 0) && MulLaws(f, 0, f.add(x, r), 0);
      assert AddLaws(f, 0, 0, 0);
    } else {
      var (c, t, u) := (p[0], Linear(f, p[1..], r), Eval(f, p[1..], x));
      EvalLinear(f, p[1..], r, x);
      var bumped := [f.add(t[0], c)] + t[1..];
      assert Linear(f, p, r)[1..] == bumped;
      assert bumped[1..] == t[1..];
      assert AddLaws(f, f.mul(Eval(f, t[1..], x), x), t[0], c);
      assert Eval(f, bumped, x) == f.add(Eval(f, t, x), c);
      LinearStep(f, u, c, x, r);
    }
  }

  lemma LinearStep(f: Field, u: Byte, c: Byte, x: Byte, r: Byte)
    requires IsField(f)
    ensures f.add(f.mul(f.add(f.mul(u, f.add(x, r)), c), x), f.mul(c, r)) == f.mul(f.add(f.mul(u, x), c), f.add(x, r))
  {
    var s := f.add(x, r);
    assert MulLaws(f, f.mul(u, s), c, x);
    assert AddLaws(f, f.mul(f.mul(u, s), x), f.mul(c, x), f.mul(c, r));
    Distributes(f, c, x, r);
    MulSwaps(f, u, s, x);
    assert MulLaws(f, f.mul(u, x), c, s);
  }

  /** The product of the factors X + r over the listed roots. */
  function FromRoots(f: Field, rs: seq<Byte>): (p: seq<Byte>)
    ensures |p| == |rs| + 1
  {
    if rs == [] then [1] else Linear(f, FromRoots(f, rs[..|rs| - 1]), rs[|rs| - 1])
  }

  /** The running product of the differences between x and each root, in the order combine takes it. */
  function Differences(f: Field, rs: seq<Byte>, x: Byte): Byte {
    if rs == [] then 1 else f.mul(Differences(f, rs[..|rs| - 1], x), f.add(x, rs[|rs| - 1]))
  }

  function Product(f: Field, rs: seq<Byte>): Byte {
    if rs == [] then 1 else f.mul(Product(f, rs[..|rs| - 1]), rs[|rs| - 1])
  }

  lemma {:induction false} EvalFromRoots(f: Field, rs: seq<Byte>, x: Byte)
    requires IsField(f)
    ensures Eval(f, FromRoots(f, rs), x) == Differences(f, rs, x)
  {
    if rs == [] {
      assert Eval(f, [], x) == 0;
      assert MulLaws(f, 0, x, 0);
      AddCancels(f, 1, 0);
    } else {
      EvalFromRoots(f, rs[..|rs| - 1], x);
      EvalLinear(f, FromRoots(f, rs[..|rs| - 1]), rs[|rs| - 1], x);
    }
  }

  lemma {:induction false} DifferencesAtZero(f: Field, rs: seq<Byte>)
    requires IsField(f)
    ensures Differences(f, rs, 0) == Product(f, rs)
  {
    if rs != [] {
      DifferencesAtZero(f, rs[..|rs| - 1]);
      AddCancels(f, rs[|rs| - 1], 0);
    }
  }

  lemma {:induction false} DifferencesVanish(f: Field, rs: seq<Byte>, x: Byte)
    requires IsField(f)
    ensures Differences(f, rs, x) == 0 <==> x in rs
  {
    if rs == [] {
      assert Differences(f, rs, x) == 1;
    } else {
      var (init, last) := (rs[..|rs| - 1], rs[|rs| - 1]);
      DifferencesVanish(f, init, x);
      assert rs == init + [last];
      AddCancels(f, x, last);
      assert MulLaws(f, Differences(f, init, x), f.add(x, last), 0);
    }
  }

  // ---------------------------------------------------------------- interpolation

  function Without(xs: seq<Byte>, i: nat): (r: seq<Byte>)
    requires i < |xs|
    ensures |r| == |xs| - 1
  {
    xs[..i] + xs[i + 1..]
  }

  lemma WithoutMembers(xs: seq<Byte>, i: nat, j: nat)
    requires i < |xs| && j < |xs| && Distinct(xs)
    ensures xs[j] in Without(xs, i) <==> i != j
  {
    if j < i { assert Without(xs, i)[j] == xs[j]; }
    if j > i { assert Without(xs, i)[j - 1] == xs[j]; }
  }

  /** The factor by which the polynomial with roots elsewhere takes the value y at point i. */
  function Height(f: Field, xs: seq<Byte>, i: nat, y: Byte): Byte
    requires i < |xs|
  {
    f.div(y, Differences(f, Without(xs, i), xs[i]))
  }

  /** The sum of the first k basis polynomials, each scaled to its observed value. */
  function Interpolant(f: Field, xs: seq<Byte>, ys: seq<Byte>, k: nat): (p: seq<Byte>)
    requires |xs| == |ys| && k <= |xs|
    ensures |p| == |xs|
  {
    if k == 0 then Zeros(|xs|)
    else
      Plus(f, Interpolant(f, xs, ys, k - 1),
           Scale(f, Height(f, xs, k - 1, ys[k - 1]), FromRoots(f, Without(xs, k - 1))))
  }

  lemma {:induction false} InterpolantHits(f: Field, xs: seq<Byte>, ys: seq<Byte>, k: nat, j: nat)
    requires IsField(f) && |xs| == |ys| && k <= |xs| && j < |xs| && Distinct(xs)
    ensures Eval(f, Interpolant(f, xs, ys, k), xs[j]) == if j < k then ys[j] else 0
  {
    if k == 0 {
      EvalZeros(f, Zeros(|xs|), xs[j]);
    } else {
      var i := k - 1;
      var h := Height(f, xs, i, ys[i]);
      var basis := FromRoots(f, Without(xs, i));
      InterpolantHits(f, xs, ys, i, j);
      EvalPlus(f, Interpolant(f, xs, ys, i), Scale(f, h, basis), xs[j]);
      EvalScale(f, h, basis, xs[j]);
      EvalFromRoots(f, Without(xs, i), xs[j]);
      DifferencesVanish(f, Without(xs, i), xs[j]);
      WithoutMembers(xs, i, j);
      assert MulLaws(f, h, 0, 0);
      assert MulLaws(f, ys[i], Differences(f, Without(xs, i), xs[i]), 0);
      AddCancels(f, ys[i], 0);
      AddCancels(f, ys[j], 0);
      assert AddLaws(f, ys[j], 0, 0) && AddLaws(f, 0, 0, 0);
    }
  }

  /** The sum `combine` accumulates for one byte, over its first k shares. */
  function LagrangeAtZero(f: Field, xs: seq<Byte>, ys: seq<Byte>, k: nat): Byte
    requires |xs| == |ys| && k <= |xs|
  {
    if k == 0 then 0
    else
      var others := Without(xs, k - 1);
      f.add(LagrangeAtZero(f, xs, ys, k - 1),
            f.mul(ys[k - 1], f.div(Product(f, others), Differences(f, others, xs[k - 1]))))
  }

  lemma {:induction false} LagrangeIsConstantTerm(f: Field, xs: seq<Byte>, ys: seq<Byte>, k: nat)
    requires IsField(f) && |xs| == |ys| && k <= |xs| && xs != [] && Distinct(xs)
    ensures LagrangeAtZero(f, xs, ys, k) == Interpolant(f, xs, ys, k)[0]
  {
    if k > 0 {
      var (i, y, others) := (k - 1, ys[k - 1], Without(xs, k - 1));
      var d := Differences(f, others, xs[i]);
      LagrangeIsConstantTerm(f, xs, ys, i);
      EvalAtZero(f, FromRoots(f, others));
      EvalFromRoots(f, others, 0);
      DifferencesAtZero(f, others);
      DifferencesVanish(f, others, xs[i]);
      WithoutMembers(xs, i, i);
      DivMoves(f, y, Product(f, others), d);
    }
  }

  lemma DivMoves(f: Field, y: Byte, n: Byte, d: Byte)
    requires IsField(f) && d != 0
    ensures f.mul(y, f.div(n, d)) == f.mul(f.div(y, d), n)
  {
    var (s, t) := (f.div(y, d), f.div(n, d));
    assert MulLaws(f, y, d, 0) && MulLaws(f, n, d, 0);
    assert MulLaws(f, s, d, t);
    assert MulLaws(f, d, t, 0);
    assert MulLaws(f, t, d, 0);
  }

  /** Any points numbering at least the coefficients give back the constant term. */
  lemma Reconstructs(f: Field, p: seq<Byte>, xs: seq<Byte>, ys: seq<Byte>)
    requires IsField(f) && 0 < |p| <= |xs| == |ys| && Distinct(xs)
    requires forall i :: 0 <= i < |xs| ==> ys[i] == Eval(f, p, xs[i])
    ensures LagrangeAtZero(f, xs, ys, |xs|) == p[0]
  {
    var padded := p + Zeros(|xs| - |p|);
    var fitted := Interpolant(f, xs, ys, |xs|);
    var gap := Plus(f, padded, fitted);
    forall i | 0 <= i < |xs| ensures Eval(f, gap, xs[i]) == 0 {
      EvalPlus(f, padded, fitted, xs[i]);
      EvalPad(f, p, |xs| - |p|, xs[i]);
      InterpolantHits(f, xs, ys, |xs|, i);
      AddCancels(f, ys[i], ys[i]);
    }
    RootBound(f, gap, xs);
    assert gap[0] == 0;
    AddCancels(f, p[0], fitted[0]);
    LagrangeIsConstantTerm(f, xs, ys, |xs|);
  }

  lemma {:induction false} LinearKeepsLead(f: Field, p: seq<Byte>, r: Byte)
    requires IsField(f) && p != []
    ensures Linear(f, p, r)[|p|] == p[|p| - 1]
  {
    var t := Linear(f, p[1..], r);
    if |p| == 1 { AddCancels(f, p[0], 0); } else { LinearKeepsLead(f, p[1..], r); }
  }

  lemma {:induction false} FromRootsIsMonic(f: Field, rs: seq<Byte>)
    requires IsField(f)
    ensures FromRoots(f, rs)[|rs|] == 1
  {
    if rs != [] {
      FromRootsIsMonic(f, rs[..|rs| - 1]);
      LinearKeepsLead(f, FromRoots(f, rs[..|rs| - 1]), rs[|rs| - 1]);
    }
  }

  /** The polynomial that agrees with p at every root of `FromRoots(xs)` and has one coefficient less. */
  function Reduced(f: Field, p: seq<Byte>, xs: seq<Byte>): (q: seq<Byte>)
    requires |p| == |xs| + 1
    ensures |q| == |xs|
  {
    Plus(f, p, Scale(f, p[|xs|], FromRoots(f, xs)))[..|xs|]
  }

  lemma ReducedAgrees(f: Field, p: seq<Byte>, xs: seq<Byte>, i: nat)
    requires IsField(f) && |p| == |xs| + 1 && i < |xs|
    ensures Eval(f, Reduced(f, p, xs), xs[i]) == Eval(f, p, xs[i])
  {
    var (n, c, base) := (|xs|, p[|xs|], FromRoots(f, xs));
    var q := Plus(f, p, Scale(f, c, base));
    FromRootsIsMonic(f, xs);
    assert MulLaws(f, 1, c, 0) && MulLaws(f, c, 1, 0) && AddLaws(f, c, 0, 0);
    assert q == q[..n] + Zeros(1);
    EvalPad(f, q[..n], 1, xs[i]);
    EvalPlus(f, p, Scale(f, c, base), xs[i]);
    EvalScale(f, c, base, xs[i]);
    EvalFromRoots(f, xs, xs[i]);
    DifferencesVanish(f, xs, xs[i]);
    assert MulLaws(f, c, 0, 0) && AddLaws(f, Eval(f, p, xs[i]), 0, 0);
  }

  /** One point fewer than the coefficients gives the constant term only if the leading coefficient is zero. */
  lemma OnePointShort(f: Field, p: seq<Byte>, xs: seq<Byte>, ys: seq<Byte>)
    requires IsField(f) && |p| == |xs| + 1 && |xs| == |ys| > 0 && Distinct(xs) && 0 !in xs
    requires forall i :: 0 <= i < |xs| ==> ys[i] == Eval(f, p, xs[i])
    ensures LagrangeAtZero(f, xs, ys, |xs|) == p[0] <==> p[|xs|] == 0
  {
    forall i | 0 <= i < |xs| ensures ys[i] == Eval(f, Reduced(f, p, xs), xs[i]) { ReducedAgrees(f, p, xs, i); }
    Reconstructs(f, Reduced(f, p, xs), xs, ys);
    ConstantOfReduced(f, p, xs);
  }

  lemma ConstantOfReduced(f: Field, p: seq<Byte>, xs: seq<Byte>)
    requires IsField(f) && |p| == |xs| + 1 > 1 && 0 !in xs
    ensures Reduced(f, p, xs)[0] == p[0] <==> p[|xs|] == 0
  {
    var (c, base) := (p[|xs|], FromRoots(f, xs));
    EvalAtZero(f, base);
    EvalFromRoots(f, xs, 0);
    DifferencesVanish(f, xs, 0);
    assert MulLaws(f, c, base[0], 0);
    var m := f.mul(c, base[0]);
    AddCancels(f, p[0], m);
    AddCancels(f, p[0], f.add(p[0], m));
  }

  // ---------------------------------------------------------------- any number of points short

  /** The quotient of p by the product of the factors X + r, one after the other. */
  function Quotient(f: Field, p: seq<Byte>, rs: seq<Byte>): (q: seq<Byte>)
    requires |rs| < |p|
    ensures |q| == |p| - |rs|
    decreases |rs|
  {
    if rs == [] then p else Deflate(f, Quotient(f, p, rs[..|rs| - 1]), rs[|rs| - 1])
  }

  /** The remainder, by Newton's divided differences. */
  function Remainder(f: Field, p: seq<Byte>, rs: seq<Byte>): (q: seq<Byte>)
    requires |rs| < |p|
    ensures |q| == |rs|
    decreases |rs|
  {
    if rs == [] then []
    else
      var (init, last) := (rs[..|rs| - 1], rs[|rs| - 1]);
      Plus(f, Remainder(f, p, init) + Zeros(1), Scale(f, Eval(f, Quotient(f, p, init), last), FromRoots(f, init)))
  }

  /** p is its remainder plus the product of the factors with its quotient. */
  lemma {:induction false} DivisionByRoots(f: Field, p: seq<Byte>, rs: seq<Byte>, x: Byte)
    requires IsField(f) && |rs| < |p|
    ensures Eval(f, p, x) == f.add(Eval(f, Remainder(f, p, rs), x), f.mul(Differences(f, rs, x), Eval(f, Quotient(f, p, rs), x)))
    decreases |rs|
  {
    if rs == [] {
      assert MulLaws(f, 1, Eval(f, p, x), 0) && MulLaws(f, Eval(f, p, x), 0, 0);
      AddCancels(f, Eval(f, p, x), 0);
    } else {
      var (init, last) := (rs[..|rs| - 1], rs[|rs| - 1]);
      var q, early := Quotient(f, p, init), Remainder(f, p, init);
      DivisionByRoots(f, p, init, x);
      DeflateDivides(f, q, last, x);
      EvalPad(f, early, 1, x);
      EvalScale(f, Eval(f, q, last), FromRoots(f, init), x);
      EvalPlus(f, early + Zeros(1), Scale(f, Eval(f, q, last), FromRoots(f, init)), x);
      EvalFromRoots(f, init, x);
      DivisionStep(f, Eval(f, early, x), Differences(f, init, x), Eval(f, q, x), Eval(f, q, last),
                   Eval(f, Quotient(f, p, rs), x), f.add(x, last));
    }
  }

  lemma DivisionStep(f: Field, e: Byte, d: Byte, u: Byte, v: Byte, w: Byte, s: Byte)
    requires IsField(f) && f.add(u, v) == f.mul(w, s)
    ensures f.add(e, f.mul(d, u)) == f.add(f.add(e, f.mul(v, d)), f.mul(f.mul(d, s), w))
  {
    calc {
      f.mul(d, u);
      { AddCancels(f, v, u); assert AddLaws(f, u, v, 0); }
      f.mul(d, f.add(v, f.mul(w, s)));
      { Distributes(f, d, v, f.mul(w, s)); }
      f.add(f.mul(d, v), f.mul(d, f.mul(w, s)));
      { assert MulLaws(f, d, v, 0) && MulLaws(f, w, s, 0) && MulLaws(f, d, s, w); }
      f.add(f.mul(v, d), f.mul(f.mul(d, s), w));
    }
    assert AddLaws(f, e, f.mul(v, d), f.mul(f.mul(d, s), w));
  }

  /** The quotient does not depend on the constant term. */
  lemma {:induction false} QuotientIgnoresConstant(f: Field, s: Byte, t: Byte, drawn: seq<Byte>, rs: seq<Byte>)
    requires 0 < |rs| <= |drawn|
    ensures Quotient(f, [s] + drawn, rs) == Quotient(f, [t] + drawn, rs)
    decreases |rs|
  {
    if |rs| == 1 {
      assert rs[..0] == [];
      var a, b := Deflate(f, [s] + drawn, rs[0]), Deflate(f, [t] + drawn, rs[0]);
      forall k | 0 <= k < |drawn| ensures a[k] == b[k] { assert ([s] + drawn)[k + 1..] == ([t] + drawn)[k + 1..]; }
    } else {
      QuotientIgnoresConstant(f, s, t, drawn, rs[..|rs| - 1]);
    }
  }

  /** However many points are missing, the constant term is right only if that of the quotient is zero. */
  lemma PointsShort(f: Field, p: seq<Byte>, xs: seq<Byte>, ys: seq<Byte>)
    requires IsField(f) && 0 < |xs| == |ys| < |p| && Distinct(xs) && 0 !in xs
    requires forall i :: 0 <= i < |xs| ==> ys[i] == Eval(f, p, xs[i])
    ensures LagrangeAtZero(f, xs, ys, |xs|) == p[0] <==> Quotient(f, p, xs)[0] == 0
  {
    var rest, q := Remainder(f, p, xs), Quotient(f, p, xs);
    forall i | 0 <= i < |xs| ensures ys[i] == Eval(f, rest, xs[i]) {
      DivisionByRoots(f, p, xs, xs[i]);
      DifferencesVanish(f, xs, xs[i]);
      assert MulLaws(f, 0, Eval(f, q, xs[i]), 0);
      assert AddLaws(f, Eval(f, rest, xs[i]), 0, 0);
    }
    Reconstructs(f, rest, xs, ys);
    DivisionByRoots(f, p, xs, 0);
    DifferencesVanish(f, xs, 0);
    EvalAtZero(f, p);
    EvalAtZero(f, rest);
    EvalAtZero(f, q);
    var d := Differences(f, xs, 0);
    assert MulLaws(f, d, q[0], 0);
    AddCancels(f, rest[0], f.mul(d, q[0]));
    AddCancels(f, rest[0], 0);
    AddCancels(f, p[0], rest[0]);
    assert AddLaws(f, rest[0], 0, 0);
  }

  // ---------------------------------------------------------------- secrecy

  /** The polynomial with constant term s and the drawn coefficients takes the observed values. */
  ghost predicate Explains(f: Field, s: Byte, drawn: seq<Byte>, xs: seq<Byte>, ys: seq<Byte>)
    requires |xs| == |ys|
  {
    forall i :: 0 <= i < |xs| ==> Eval(f, [s] + drawn, xs[i]) == ys[i]
  }

  /** A polynomial of length n that vanishes at every observed point and is d at zero. */
  function Mask(f: Field, d: Byte, xs: seq<Byte>, n: nat): (m: seq<Byte>)
    requires |xs| < n
    ensures |m| == n
  {
    Scale(f, f.div(d, Product(f, xs)), FromRoots(f, xs)) + Zeros(n - |xs| - 1)
  }

  lemma MaskHides(f: Field, d: Byte, xs: seq<Byte>, n: nat)
    requires IsField(f) && |xs| < n && 0 !in xs
    ensures Mask(f, d, xs, n)[0] == d
    ensures forall i :: 0 <= i < |xs| ==> Eval(f, Mask(f, d, xs, n), xs[i]) == 0
  {
    var base := FromRoots(f, xs);
    var s := f.div(d, Product(f, xs));
    EvalAtZero(f, base);
    EvalFromRoots(f, xs, 0);
    DifferencesAtZero(f, xs);
    DifferencesVanish(f, xs, 0);
    assert MulLaws(f, d, Product(f, xs), 0);
    assert base[0] == Product(f, xs);
    forall i | 0 <= i < |xs| ensures Eval(f, Mask(f, d, xs, n), xs[i]) == 0 {
      EvalPad(f, Scale(f, s, base), n - |xs| - 1, xs[i]);
      EvalScale(f, s, base, xs[i]);
      EvalFromRoots(f, xs, xs[i]);
      DifferencesVanish(f, xs, xs[i]);
      assert MulLaws(f, s, 0, 0);
    }
  }

  /** Turns coefficients drawn for the constant term s into coefficients for t with the same observed values. */
  function Translate(f: Field, s: Byte, t: Byte, drawn: seq<Byte>, xs: seq<Byte>): (r: seq<Byte>)
    requires |xs| <= |drawn|
    ensures |r| == |drawn|
  {
    Plus(f, drawn, Mask(f, f.add(s, t), xs, |drawn| + 1)[1..])
  }

  lemma TranslateMoves(f: Field, s: Byte, t: Byte, drawn: seq<Byte>, xs: seq<Byte>, x: Byte)
    requires IsField(f) && |xs| <= |drawn| && 0 !in xs && x in xs
    ensures Eval(f, [t] + Translate(f, s, t, drawn, xs), x) == Eval(f, [s] + drawn, x)
  {
    var mask := Mask(f, f.add(s, t), xs, |drawn| + 1);
    MaskHides(f, f.add(s, t), xs, |drawn| + 1);
    AddCancels(f, s, t);
    assert Plus(f, [s] + drawn, mask) == [t] + Translate(f, s, t, drawn, xs);
    EvalPlus(f, [s] + drawn, mask, x);
    assert AddLaws(f, Eval(f, [s] + drawn, x), 0, 0);
  }

  lemma TranslateBack(f: Field, s: Byte, t: Byte, drawn: seq<Byte>, xs: seq<Byte>)
    requires IsField(f) && |xs| <= |drawn|
    ensures Translate(f, t, s, Translate(f, s, t, drawn, xs), xs) == drawn
  {
    assert AddLaws(f, s, t, 0);
    var tail := Mask(f, f.add(s, t), xs, |drawn| + 1)[1..];
    forall k | 0 <= k < |drawn| ensures f.add(f.add(drawn[k], tail[k]), tail[k]) == drawn[k] {
      AddCancels(f, drawn[k], tail[k]);
    }
  }

  /** Translation maps the explanations of s onto those of t and is undone by translating back: a bijection. */
  lemma TranslationIsBijective(f: Field, s: Byte, t: Byte, drawn: seq<Byte>, xs: seq<Byte>, ys: seq<Byte>)
    requires IsField(f) && |xs| == |ys| <= |drawn| && 0 !in xs
    ensures Explains(f, s, drawn, xs, ys) <==> Explains(f, t, Translate(f, s, t, drawn, xs), xs, ys)
    ensures Translate(f, t, s, Translate(f, s, t, drawn, xs), xs) == drawn
  {
    forall i | 0 <= i < |xs|
      ensures Eval(f, [t] + Translate(f, s, t, drawn, xs), xs[i]) == Eval(f, [s] + drawn, xs[i])
    {
      TranslateMoves(f, s, t, drawn, xs, xs[i]);
    }
    TranslateBack(f, s, t, drawn, xs);
  }

  lemma ZeroStaysDistinct(xs: seq<Byte>)
    requires Distinct(xs) && 0 !in xs
    ensures Distinct([0] + xs)
  {
    var us := [0] + xs;
    forall i, j | 0 <= i < j < |us| ensures us[i] != us[j] {
      assert us[j] == xs[j - 1];
      if i > 0 { assert us[i] == xs[i - 1]; }
    }
  }

  /** Fewer points than coefficients never rule a constant term out. */
  lemma SomethingExplains(f: Field, s: Byte, n: nat, xs: seq<Byte>, ys: seq<Byte>) returns (drawn: seq<Byte>)
    requires IsField(f) && |xs| == |ys| <= n && Distinct(xs) && 0 !in xs
    ensures |drawn| == n && Explains(f, s, drawn, xs, ys)
  {
    ZeroStaysDistinct(xs);
    var p := FitWithConstant(f, [0] + xs, [s] + ys);
    var padded := p + Zeros(n - |xs|);
    drawn := padded[1..];
    assert [s] + drawn == padded;
    forall i | 0 <= i < |xs| ensures Eval(f, padded, xs[i]) == ys[i] {
      EvalPad(f, p, n - |xs|, xs[i]);
      assert ([0] + xs)[i + 1] == xs[i];
    }
  }

  lemma FitWithConstant(f: Field, us: seq<Byte>, vs: seq<Byte>) returns (p: seq<Byte>)
    requires IsField(f) && |us| == |vs| > 0 && Distinct(us) && us[0] == 0
    ensures |p| == |us| && p[0] == vs[0]
    ensures forall i :: 0 <= i < |us| ==> Eval(f, p, us[i]) == vs[i]
  {
    p := Interpolant(f, us, vs, |us|);
    forall i | 0 <= i < |us| ensures Eval(f, p, us[i]) == vs[i] { InterpolantHits(f, us, vs, |us|, i); }
    EvalAtZero(f, p);
  }

  /** One point fewer than the threshold fixes the drawn coefficients once the constant term is guessed. */
  lemma ExplanationIsUnique(f: Field, s: Byte, a: seq<Byte>, b: seq<Byte>, xs: seq<Byte>, ys: seq<Byte>)
    requires IsField(f) && |xs| == |ys| == |a| == |b| && Distinct(xs) && 0 !in xs
    requires Explains(f, s, a, xs, ys) && Explains(f, s, b, xs, ys)
    ensures a == b
  {
    var us := [0] + xs;
    ZeroStaysDistinct(xs);
    var gap := Plus(f, [s] + a, [s] + b);
    forall i | 0 <= i < |us| ensures Eval(f, gap, us[i]) == 0 {
      EvalPlus(f, [s] + a, [s] + b, us[i]);
      if i == 0 {
        EvalAtZero(f, [s] + a);
        EvalAtZero(f, [s] + b);
      } else {
        assert us[i] == xs[i - 1];
      }
      AddCancels(f, Eval(f, [s] + a, us[i]), Eval(f, [s] + b, us[i]));
    }
    RootBound(f, gap, us);
    forall k | 0 <= k < |a| ensures a[k] == b[k] {
      assert gap[k + 1] == 0;
      AddCancels(f, a[k], b[k]);
    }
  }
}
