/**
  `split` and `combine`: the loops of the program, the functions they compute, and the promises of
  the threshold.
 */
module Sharing {
  import opened Bytes
  import opened Polynomials
  import opened Interpolation
  import opened Shamir
  import Gf256

  datatype Share = Share(index: int, values: seq<Byte>)

  datatype Refusal =
    | NothingToSplit | BadThreshold | TooFewShares | RepeatedShare | BadIndex | MixedLengths

  datatype Outcome<T> = Done(value: T) | Refused(why: Refusal)

  // ---------------------------------------------------------------- split

  /** One byte of every share: the polynomial drawn for a secret byte, taken at the share's index. */
  ghost function ShareValues(secret: seq<Byte>, draws: seq<seq<Byte>>, index: Byte): (r: seq<Byte>)
    requires |draws| >= |secret|
    ensures |r| == |secret|
    ensures forall k :: 0 <= k < |secret| ==> r[k] == Eval(Gf(), [secret[k]] + draws[k], index)
  {
    seq(|secret|, k requires 0 <= k < |secret| => Eval(Gf(), [secret[k]] + draws[k], index))
  }

  /** `draws` holds the random coefficients taken for each byte. */
  ghost predicate Drawn(draws: seq<seq<Byte>>, n: nat, threshold: int) {
    |draws| == n && forall k :: 0 <= k < n ==> |draws[k]| == threshold - 1
  }

  /** The share of the secret at an index. */
  ghost predicate IsShareOf(share: Share, secret: seq<Byte>, draws: seq<seq<Byte>>)
    requires |draws| >= |secret|
  {
    1 <= share.index <= 255 && share.values == ShareValues(secret, draws, share.index)
  }

  method Horner(t: Tables, coefficients: seq<Byte>, index: Byte) returns (accumulator: Byte)
    requires t.Valid()
    ensures accumulator == Eval(Gf(), coefficients, index)
  {
    accumulator := 0;
    var k := |coefficients|;
    while k > 0
      invariant 0 <= k <= |coefficients|
      invariant accumulator == Eval(Gf(), coefficients[k..], index)
    {
      k := k - 1;
      assert coefficients[k..][1..] == coefficients[k + 1..];
      accumulator := Gf256.Add(t.Mul(accumulator, index), coefficients[k]);
    }
    assert coefficients[0..] == coefficients;
  }

  method Split(t: Tables, secret: seq<Byte>, shares: int, threshold: int, draws: seq<seq<Byte>>)
    returns (r: Outcome<seq<Share>>)
    requires t.Valid()
    requires 2 <= threshold ==> Drawn(draws, |secret|, threshold)
    ensures secret == [] ==> r == Refused(NothingToSplit)
    ensures secret != [] && !(2 <= threshold <= shares <= 255) ==> r == Refused(BadThreshold)
    ensures secret != [] && 2 <= threshold <= shares <= 255 ==> r.Done? && |r.value| == shares
    ensures r.Done? ==> forall k :: 0 <= k < |r.value| ==>
                                      r.value[k].index == k + 1 && IsShareOf(r.value[k], secret, draws)
  {
    if secret == [] { return Refused(NothingToSplit); }
    if !(2 <= threshold <= shares <= 255) { return Refused(BadThreshold); }
    var points := seq(shares, k => Share(k + 1, []));
    for pos := 0 to |secret|
      invariant |points| == shares
      invariant forall k :: 0 <= k < shares ==> points[k].index == k + 1
      invariant forall k :: 0 <= k < shares ==> points[k].values == ShareValues(secret, draws, k + 1)[..pos]
    {
      points := AppendByte(t, points, [secret[pos]] + draws[pos]);
    }
    return Done(points);
  }

  ghost function Extended(share: Share, coefficients: seq<Byte>): Share
    requires 1 <= share.index <= 255
  {
    Share(share.index, share.values + [Eval(Gf(), coefficients, share.index)])
  }

  /** The inner loop of `split`: one more byte for every share. */
  method AppendByte(t: Tables, before: seq<Share>, coefficients: seq<Byte>) returns (points: seq<Share>)
    requires t.Valid() && forall k :: 0 <= k < |before| ==> 1 <= before[k].index <= 255
    ensures |points| == |before|
    ensures forall k :: 0 <= k < |before| ==> points[k] == Extended(before[k], coefficients)
  {
    points := before;
    for k := 0 to |before|
      invariant |points| == |before| && points[k..] == before[k..]
      invariant forall i :: 0 <= i < k ==> points[i] == Extended(before[i], coefficients)
    {
      assert points[k] == points[k..][0] == before[k];
      var accumulator := Horner(t, coefficients, points[k].index);
      points := points[k := Share(points[k].index, points[k].values + [accumulator])];
    }
  }

  // ---------------------------------------------------------------- combine

  /** The checks of `combine`, in its order. */
  ghost function Checked(shares: seq<Share>): Outcome<()> {
    if |shares| < 2 then Refused(TooFewShares)
    else if exists i, j :: 0 <= i < j < |shares| && shares[i].index == shares[j].index then Refused(RepeatedShare)
    else if exists i :: 0 <= i < |shares| && !(1 <= shares[i].index <= 255) then Refused(BadIndex)
    else if exists i :: 0 <= i < |shares| && |shares[i].values| != |shares[0].values| then Refused(MixedLengths)
    else Done(())
  }

  function Indices(shares: seq<Share>): (xs: seq<Byte>)
    requires forall i :: 0 <= i < |shares| ==> 1 <= shares[i].index <= 255
    ensures |xs| == |shares| && forall i :: 0 <= i < |xs| ==> xs[i] == shares[i].index
  {
    seq<Byte>(|shares|, i requires 0 <= i < |shares| => shares[i].index)
  }

  function Column(shares: seq<Share>, pos: nat): (ys: seq<Byte>)
    requires forall i :: 0 <= i < |shares| ==> pos < |shares[i].values|
    ensures |ys| == |shares| && forall i :: 0 <= i < |ys| ==> ys[i] == shares[i].values[pos]
  {
    seq<Byte>(|shares|, i requires 0 <= i < |shares| => shares[i].values[pos])
  }

  /** The bytes before `other == index` is skipped, and after. */
  function Skipping(xs: seq<Byte>, i: nat, j: nat): seq<Byte>
    requires i < |xs| && j <= |xs|
  {
    if j <= i then xs[..j] else xs[..i] + xs[i + 1..j]
  }

  method Weight(t: Tables, xs: seq<Byte>, i: nat) returns (numerator: Byte, denominator: Byte)
    requires t.Valid() && i < |xs| && Distinct(xs)
    ensures numerator == Product(Gf(), Without(xs, i))
    ensures denominator == Differences(Gf(), Without(xs, i), xs[i])
  {
    numerator, denominator := 1, 1;
    for j := 0 to |xs|
      invariant numerator == Product(Gf(), Skipping(xs, i, j))
      invariant denominator == Differences(Gf(), Skipping(xs, i, j), xs[i])
    {
      SkippingStep(xs, i, j);
      if xs[j] != xs[i] {
        ProductStep(Gf(), Skipping(xs, i, j), xs[j], xs[i]);
        numerator := t.Mul(numerator, xs[j]);
        denominator := t.Mul(denominator, Gf256.Add(xs[i], xs[j]));
      }
    }
    assert Skipping(xs, i, |xs|) == Without(xs, i);
  }

  lemma SkippingStep(xs: seq<Byte>, i: nat, j: nat)
    requires i < |xs| && j < |xs| && Distinct(xs)
    ensures xs[j] == xs[i] ==> Skipping(xs, i, j + 1) == Skipping(xs, i, j)
    ensures xs[j] != xs[i] ==> Skipping(xs, i, j + 1) == Skipping(xs, i, j) + [xs[j]]
  {}

  lemma ProductStep(f: Field, rs: seq<Byte>, r: Byte, x: Byte)
    ensures Product(f, rs + [r]) == f.mul(Product(f, rs), r)
    ensures Differences(f, rs + [r], x) == f.mul(Differences(f, rs, x), f.add(x, r))
  {
    assert (rs + [r])[..|rs|] == rs;
  }

  /** One byte of the secret, from the same byte of every share. */
  method InterpolateByte(t: Tables, xs: seq<Byte>, ys: seq<Byte>) returns (accumulator: Byte)
    requires t.Valid() && |xs| == |ys| && Distinct(xs)
    ensures accumulator == LagrangeAtZero(Gf(), xs, ys, |xs|)
  {
    accumulator := 0;
    for i := 0 to |xs|
      invariant accumulator == LagrangeAtZero(Gf(), xs, ys, i)
    {
      var numerator, denominator := Weight(t, xs, i);
      DenominatorNonzero(xs, i);
      accumulator := Gf256.Add(accumulator, t.Mul(ys[i], t.Div(numerator, denominator)));
    }
  }

  lemma DenominatorNonzero(xs: seq<Byte>, i: nat)
    requires i < |xs| && Distinct(xs)
    ensures Differences(Gf(), Without(xs, i), xs[i]) != 0
  {
    GfIsField();
    DifferencesVanish(Gf(), Without(xs, i), xs[i]);
    WithoutMembers(xs, i, i);
  }

  /** The outer loop of `combine`. */
  method Recover(t: Tables, shares: seq<Share>) returns (recovered: seq<Byte>)
    requires t.Valid() && Checked(shares).Done?
    ensures |recovered| == |shares[0].values|
    ensures forall p :: 0 <= p < |recovered| ==>
                          recovered[p] == LagrangeAtZero(Gf(), Indices(shares), Column(shares, p), |shares|)
  {
    var xs := Indices(shares);
    recovered := [];
    for pos := 0 to |shares[0].values|
      invariant |recovered| == pos
      invariant forall p :: 0 <= p < pos ==>
                              recovered[p] == LagrangeAtZero(Gf(), xs, Column(shares, p), |shares|)
    {
      var accumulator := InterpolateByte(t, xs, Column(shares, pos));
      recovered := recovered + [accumulator];
    }
  }

  method Combine(t: Tables, shares: seq<Share>) returns (r: Outcome<seq<Byte>>)
    requires t.Valid()
    ensures r == Combined(shares)
    ensures r.Done? <==>
            && |shares| >= 2 && DistinctShares(shares)
            && forall i :: 0 <= i < |shares| ==>
                             1 <= shares[i].index <= 255 && |shares[i].values| == |shares[0].values|
    ensures r.Done? ==> |r.value| == |shares[0].values|
    ensures r == Refused(TooFewShares) <==> |shares| <= 1
    ensures r == Refused(RepeatedShare) <==> |shares| >= 2 && !DistinctShares(shares)
    ensures r == Refused(BadIndex) <==>
            && |shares| >= 2 && DistinctShares(shares)
            && exists i :: 0 <= i < |shares| && (shares[i].index < 1 || 255 < shares[i].index)
    ensures r == Refused(MixedLengths) <==>
            && |shares| >= 2 && DistinctShares(shares)
            && (forall i :: 0 <= i < |shares| ==> 1 <= shares[i].index <= 255)
            && exists i :: 0 <= i < |shares| && |shares[i].values| != |shares[0].values|
  {
    if |shares| < 2 { return Refused(TooFewShares); }
    if exists i, j :: 0 <= i < j < |shares| && shares[i].index == shares[j].index { return Refused(RepeatedShare); }
    if exists i :: 0 <= i < |shares| && !(1 <= shares[i].index <= 255) { return Refused(BadIndex); }
    if exists i :: 0 <= i < |shares| && |shares[i].values| != |shares[0].values| { return Refused(MixedLengths); }
    assert Checked(shares) == Done(());
    var recovered := Recover(t, shares);
    assert recovered == Combined(shares).value;
    return Done(recovered);
  }

  // ---------------------------------------------------------------- the promises of the threshold

  /** What `combine` returns. */
  ghost function Combined(shares: seq<Share>): (r: Outcome<seq<Byte>>) {
    match Checked(shares)
    case Refused(why) => Refused(why)
    case Done(_) =>
      Done(seq(|shares[0].values|, pos requires 0 <= pos < |shares[0].values| =>
             LagrangeAtZero(Gf(), Indices(shares), Column(shares, pos), |shares|)))
  }

  ghost predicate DistinctShares(shares: seq<Share>) {
    forall i, j :: 0 <= i < j < |shares| ==> shares[i].index != shares[j].index
  }

  /**
    What `combine` accepts, and which refusal anything else gets: too few shares before a repeated
    index, that before an index outside 1 to 255, and that before values of different lengths.
   */
  lemma CombinesExactlyWhen(shares: seq<Share>)
    ensures Combined(shares).Done? <==>
            && 2 <= |shares| && (forall i, j :: 0 <= i < j < |shares| ==> shares[i].index != shares[j].index)
            && forall i :: 0 <= i < |shares| ==>
                             1 <= shares[i].index <= 255 && |shares[i].values| == |shares[0].values|
    ensures Combined(shares).Refused? ==>
              match Combined(shares).why
              case TooFewShares => |shares| <= 1
              case RepeatedShare => 2 <= |shares| && !DistinctShares(shares)
              case BadIndex =>
                && 2 <= |shares| && DistinctShares(shares)
                && exists i :: 0 <= i < |shares| && (shares[i].index < 1 || 255 < shares[i].index)
              case MixedLengths =>
                && 2 <= |shares| && DistinctShares(shares)
                && (forall i :: 0 <= i < |shares| ==> 1 <= shares[i].index <= 255)
                && exists i :: 0 <= i < |shares| && |shares[i].values| != |shares[0].values|
              case _ => false
  {
    var c := Combined(shares);
    if c == Refused(RepeatedShare) { assert !DistinctShares(shares); }
  }

  /**
    Any distinct shares of one split, at least as many as the threshold and in any order, give back
    the secret.
   */
  lemma ThresholdReconstructs(secret: seq<Byte>, threshold: int, draws: seq<seq<Byte>>, shares: seq<Share>)
    requires 2 <= threshold <= |shares| && Drawn(draws, |secret|, threshold) && DistinctShares(shares)
    requires forall i :: 0 <= i < |shares| ==> IsShareOf(shares[i], secret, draws)
    ensures Combined(shares) == Done(secret)
  {
    assert Checked(shares) == Done(());
    var xs := Indices(shares);
    GfIsField();
    forall pos | 0 <= pos < |secret|
      ensures LagrangeAtZero(Gf(), xs, Column(shares, pos), |xs|) == secret[pos]
    {
      Reconstructs(Gf(), [secret[pos]] + draws[pos], xs, Column(shares, pos));
    }
    assert Combined(shares).value == secret;
  }

  /**
    One share short of the threshold, `combine` still answers, and the answer is the secret exactly
    when the highest coefficient drawn for every byte happens to be zero.
   */
  lemma OneShareShort(secret: seq<Byte>, threshold: int, draws: seq<seq<Byte>>, shares: seq<Share>)
    requires 2 <= |shares| == threshold - 1 && Drawn(draws, |secret|, threshold) && DistinctShares(shares)
    requires forall i :: 0 <= i < |shares| ==> IsShareOf(shares[i], secret, draws)
    ensures Combined(shares).Done? && |Combined(shares).value| == |secret|
    ensures forall k :: 0 <= k < |secret| ==> (Combined(shares).value[k] == secret[k] <==> draws[k][threshold - 2] == 0)
    ensures Combined(shares) == Done(secret) <==> forall k :: 0 <= k < |secret| ==> draws[k][threshold - 2] == 0
  {
    assert Checked(shares) == Done(());
    var xs := Indices(shares);
    GfIsField();
    forall k | 0 <= k < |secret|
      ensures Combined(shares).value[k] == secret[k] <==> draws[k][threshold - 2] == 0
    {
      OnePointShort(Gf(), [secret[k]] + draws[k], xs, Column(shares, k));
    }
    if forall k :: 0 <= k < |secret| ==> draws[k][threshold - 2] == 0 { assert Combined(shares).value == secret; }
  }

  /** What dividing by the factors X + x leaves of the drawn coefficients: the constant term of the quotient. */
  ghost function Leftover(drawn: seq<Byte>, xs: seq<Byte>): Byte
    requires |xs| <= |drawn|
  {
    Quotient(Gf(), [0] + drawn, xs)[0]
  }

  lemma ByteShort(s: Byte, drawn: seq<Byte>, xs: seq<Byte>, ys: seq<Byte>)
    requires 0 < |xs| == |ys| <= |drawn| && Distinct(xs) && 0 !in xs
    requires forall i :: 0 <= i < |xs| ==> ys[i] == Eval(Gf(), [s] + drawn, xs[i])
    ensures LagrangeAtZero(Gf(), xs, ys, |xs|) == s <==> Leftover(drawn, xs) == 0
  {
    GfIsField();
    PointsShort(Gf(), [s] + drawn, xs, ys);
    QuotientIgnoresConstant(Gf(), s, 0, drawn, xs);
  }

  /**
    However many shares short, the answer is the secret exactly when, for every byte, the coefficients
    drawn leave the constant term zero once divided by the factors X + index of the shares.
   */
  lemma SharesShort(secret: seq<Byte>, threshold: int, draws: seq<seq<Byte>>, shares: seq<Share>)
    requires 2 <= |shares| < threshold && Drawn(draws, |secret|, threshold) && DistinctShares(shares)
    requires forall i :: 0 <= i < |shares| ==> IsShareOf(shares[i], secret, draws)
    ensures Combined(shares).Done? && |Combined(shares).value| == |secret|
    ensures forall k :: 0 <= k < |secret| ==>
                          (Combined(shares).value[k] == secret[k] <==> Leftover(draws[k], Indices(shares)) == 0)
    ensures Combined(shares) == Done(secret) <==>
            forall k :: 0 <= k < |secret| ==> Leftover(draws[k], Indices(shares)) == 0
  {
    assert Checked(shares) == Done(());
    var xs := Indices(shares);
    forall k | 0 <= k < |secret|
      ensures Combined(shares).value[k] == secret[k] <==> Leftover(draws[k], xs) == 0
    {
      ByteShort(secret[k], draws[k], xs, Column(shares, k));
    }
    if forall k :: 0 <= k < |secret| ==> Leftover(draws[k], xs) == 0 { assert Combined(shares).value == secret; }
  }

  /** Coefficients that a holder of some shares cannot rule out for a candidate secret. */
  ghost predicate Possible(secret: seq<Byte>, draws: seq<seq<Byte>>, threshold: int, held: seq<Share>) {
    && Drawn(draws, |secret|, threshold)
    && forall i :: 0 <= i < |held| ==> IsShareOf(held[i], secret, draws)
  }

  /** Re-draws the coefficients so that a different secret yields the same held shares. */
  ghost function Redraw(secret: seq<Byte>, other: seq<Byte>, draws: seq<seq<Byte>>, xs: seq<Byte>): (r: seq<seq<Byte>>)
    requires |secret| == |other| == |draws| && forall k :: 0 <= k < |draws| ==> |xs| <= |draws[k]|
    ensures |r| == |draws| && forall k :: 0 <= k < |r| ==> r[k] == Translate(Gf(), secret[k], other[k], draws[k], xs)
  {
    seq(|draws|, k requires 0 <= k < |draws| => Translate(Gf(), secret[k], other[k], draws[k], xs))
  }

  lemma RedrawKeepsShares(secret: seq<Byte>, other: seq<Byte>, draws: seq<seq<Byte>>, threshold: int, held: seq<Share>)
    requires |secret| == |other| && |held| < threshold && Possible(secret, draws, threshold, held)
    ensures Possible(other, Redraw(secret, other, draws, Indices(held)), threshold, held)
  {
    var xs := Indices(held);
    var moved := Redraw(secret, other, draws, xs);
    GfIsField();
    forall i | 0 <= i < |held| ensures held[i].values == ShareValues(other, moved, held[i].index) {
      forall k | 0 <= k < |secret|
        ensures held[i].values[k] == Eval(Gf(), [other[k]] + moved[k], xs[i])
      {
        var ys := Column(held, k);
        TranslationIsBijective(Gf(), secret[k], other[k], draws[k], xs, ys);
      }
    }
  }

  /**
    Fewer shares than the threshold say nothing: the draws that explain them under one secret are in
    one-to-one correspondence with those that explain them under any other secret of that length.
   */
  lemma BelowThresholdIsSecret(secret: seq<Byte>, other: seq<Byte>, draws: seq<seq<Byte>>, threshold: int, held: seq<Share>)
    requires |secret| == |other| && |held| < threshold
    requires forall i :: 0 <= i < |held| ==> 1 <= held[i].index <= 255
    requires Drawn(draws, |secret|, threshold)
    ensures var moved := Redraw(secret, other, draws, Indices(held));
            && (Possible(secret, draws, threshold, held) <==> Possible(other, moved, threshold, held))
            && Redraw(other, secret, moved, Indices(held)) == draws
  {
    var xs := Indices(held);
    var moved := Redraw(secret, other, draws, xs);
    GfIsField();
    forall k | 0 <= k < |secret| ensures Translate(Gf(), other[k], secret[k], moved[k], xs) == draws[k] {
      TranslationIsBijective(Gf(), secret[k], other[k], draws[k], xs, xs);
    }
    assert Redraw(other, secret, moved, xs) == draws;
    if Possible(secret, draws, threshold, held) { RedrawKeepsShares(secret, other, draws, threshold, held); }
    if Possible(other, moved, threshold, held) { RedrawKeepsShares(other, secret, moved, threshold, held); }
  }

  /** Whatever fewer than `threshold` holders see, every secret of that length could have produced it. */
  lemma EverySecretIsPossible(secret: seq<Byte>, threshold: int, held: seq<Share>) returns (draws: seq<seq<Byte>>)
    requires 2 <= threshold && |held| < threshold && DistinctShares(held)
    requires forall i :: 0 <= i < |held| ==> 1 <= held[i].index <= 255 && |held[i].values| == |secret|
    ensures Possible(secret, draws, threshold, held)
  {
    var xs := Indices(held);
    GfIsField();
    draws := [];
    while |draws| < |secret|
      invariant |draws| <= |secret|
      invariant forall k :: 0 <= k < |draws| ==> |draws[k]| == threshold - 1
      invariant forall k :: 0 <= k < |draws| ==> Explains(Gf(), secret[k], draws[k], xs, Column(held, k))
    {
      var drawn := SomethingExplains(Gf(), secret[|draws|], threshold - 1, xs, Column(held, |draws|));
      draws := draws + [drawn];
    }
    forall i | 0 <= i < |held| ensures held[i].values == ShareValues(secret, draws, held[i].index) {
      forall k | 0 <= k < |secret| ensures held[i].values[k] == Eval(Gf(), [secret[k]] + draws[k], xs[i]) {
        assert Column(held, k)[i] == held[i].values[k];
      }
    }
  }

  /** With one share fewer than the threshold, exactly one draw goes with each secret. */
  lemma PossibleDrawIsUnique(secret: seq<Byte>, a: seq<seq<Byte>>, b: seq<seq<Byte>>, threshold: int, held: seq<Share>)
    requires |held| == threshold - 1 && DistinctShares(held)
    requires Possible(secret, a, threshold, held) && Possible(secret, b, threshold, held)
    ensures a == b
  {
    var xs := Indices(held);
    GfIsField();
    forall k | 0 <= k < |secret| ensures a[k] == b[k] {
      ExplanationIsUnique(Gf(), secret[k], a[k], b[k], xs, Column(held, k));
    }
  }
}
