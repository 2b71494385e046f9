/**
  `base58` of `backup_recovery.py`: the encoding of public keys, its decoder, and its length.
 */
module Base58 {
  import opened Bytes
  import opened Numerals

  const NUMERALS := "123456789"
  const UPPER := "ABCDEFGH"
  const UPPER_AFTER_I := "JKLMN"
  const UPPER_AFTER_O := "PQRSTUVWXYZ"
  const LOWER := "abcdefghijk"
  const LOWER_AFTER_L := "mnopqrstuvwxyz"

  /** Numerals and letters, without the zero, I, O and l that are easily mistaken. */
  const ALPHABET := NUMERALS + UPPER + UPPER_AFTER_I + UPPER_AFTER_O + LOWER + LOWER_AFTER_L

  // ---------------------------------------------------------------- the encoder

  /** How many items at the front are zero. */
  function Zeros(ds: seq<nat>): (z: nat)
    ensures z <= |ds| && (z < |ds| ==> ds[z] != 0) && forall k :: 0 <= k < z ==> ds[k] == 0
  {
    if ds == [] || ds[0] != 0 then 0
    else
      var rest := Zeros(ds[1..]);
      assert forall k :: 0 < k < rest + 1 ==> ds[k] == ds[1..][k - 1];
      1 + rest
  }

  function Letter(d: nat): char { if d < 58 then ALPHABET[d] else '?' }

  function Text(ds: seq<nat>): (s: string)
    ensures |s| == |ds| && forall k :: 0 <= k < |s| ==> s[k] == Letter(ds[k])
  {
    seq(|ds|, k requires 0 <= k < |ds| => Letter(ds[k]))
  }

  /** The digits of `ds` in another base, with the same zeros in front. */
  function Rebased(from: nat, to: nat, ds: seq<nat>): seq<nat>
    requires to >= 2
  {
    seq(Zeros(ds), _ => 0) + Digits(to, Value(from, ds))
  }

  /** The digits of the encoded bytes: a zero for each leading zero byte, then the number. */
  function Encoded(value: seq<Byte>): seq<nat> { Rebased(256, 58, value) }

  method Encode(value: seq<Byte>) returns (s: string)
    ensures s == Text(Encoded(value))
  {
    var number := Value(256, value);
    var result := "";
    while number != 0
      invariant Text(Digits(58, number)) + result == Text(Digits(58, Value(256, value)))
    {
      var remainder := number % 58;
      TextAppend(Digits(58, number / 58), remainder, result);
      number := number / 58;
      result := [ALPHABET[remainder]] + result;
    }
    s := seq(Zeros(value), _ => '1') + result;
  }

  lemma TextAppend(ds: seq<nat>, d: nat, rest: string)
    requires d < 58
    ensures Text(ds + [d]) + rest == Text(ds) + ([ALPHABET[d]] + rest)
  {}

  // ---------------------------------------------------------------- the decoder

  function Digit(c: char): (d: nat)
  {
    if '1' <= c <= '9' then c as int - '1' as int
    else if 'A' <= c <= 'H' then c as int - 'A' as int + 9
    else if 'J' <= c <= 'N' then c as int - 'J' as int + 17
    else if 'P' <= c <= 'Z' then c as int - 'P' as int + 22
    else if 'a' <= c <= 'k' then c as int - 'a' as int + 33
    else if 'm' <= c <= 'z' then c as int - 'm' as int + 44
    else 58
  }

  lemma Runs(d: nat)
    ensures d < 9 ==> NUMERALS[d] as int == '1' as int + d
    ensures d < 8 ==> UPPER[d] as int == 'A' as int + d
    ensures d < 5 ==> UPPER_AFTER_I[d] as int == 'J' as int + d
    ensures d < 11 ==> UPPER_AFTER_O[d] as int == 'P' as int + d
    ensures d < 11 ==> LOWER[d] as int == 'a' as int + d
    ensures d < 14 ==> LOWER_AFTER_L[d] as int == 'm' as int + d
  {}

  /** The code of each letter, run by run. */
  lemma LetterCode(d: nat)
    requires d < 58
    ensures Letter(d) as int == d + (if d < 9 then '1' as int
                                     else if d < 17 then 'A' as int - 9
                                     else if d < 22 then 'J' as int - 17
                                     else if d < 33 then 'P' as int - 22
                                     else if d < 44 then 'a' as int - 33
                                     else 'm' as int - 44)
  {
    if d < 9 { Runs(d); }
    else if d < 17 { Runs(d - 9); }
    else if d < 22 { Runs(d - 17); }
    else if d < 33 { Runs(d - 22); }
    else if d < 44 { Runs(d - 33); }
    else { Runs(d - 44); }
  }

  /** The alphabet has 58 letters, and each is the digit it is looked up as. */
  lemma LettersAreDistinct(d: nat)
    requires d < 58
    ensures |ALPHABET| == 58 && Digit(Letter(d)) == d
  {
    LetterCode(d);
  }

  function DigitsOf(s: string): (ds: seq<nat>)
    ensures |ds| == |s| && forall k :: 0 <= k < |s| ==> ds[k] == Digit(s[k])
  {
    seq(|s|, k requires 0 <= k < |s| => Digit(s[k]))
  }

  /** The bytes a text stands for. */
  function Decode(s: string): seq<nat> { Rebased(58, 256, DigitsOf(s)) }

  lemma {:induction false} ZerosOfPrefix(zeros: nat, ds: seq<nat>)
    requires ds == [] || ds[0] != 0
    ensures Zeros(seq(zeros, _ => 0) + ds) == zeros
  {
    var all := seq(zeros, _ => 0) + ds;
    if zeros > 0 {
      ZerosOfPrefix(zeros - 1, ds);
      assert all[1..] == seq(zeros - 1, _ => 0) + ds;
    } else {
      assert all == ds;
    }
  }

  /** Going to another base and back changes nothing. */
  lemma RebasedBack(from: nat, to: nat, ds: seq<nat>)
    requires from >= 2 && to >= 2 && IsDigits(from, ds)
    ensures Rebased(to, from, Rebased(from, to, ds)) == ds
    ensures IsDigits(to, Rebased(from, to, ds))
  {
    var zeros, digits, rest := Zeros(ds), Digits(to, Value(from, ds)), ds[Zeros(ds)..];
    DigitsOfNumber(to, Value(from, ds));
    ZerosOfPrefix(zeros, digits);
    LeadingZerosVanish(to, zeros, digits);
    assert ds == seq(zeros, _ => 0) + rest;
    LeadingZerosVanish(from, zeros, rest);
    NumberOfDigits(from, rest);
  }

  /** Decoding gives back exactly the bytes, leading zeros included. */
  lemma RoundTrip(value: seq<Byte>)
    ensures Decode(Text(Encoded(value))) == value
  {
    var letters, bytes := 58, 256;
    var ds := Rebased(bytes, letters, value);
    RebasedBack(bytes, letters, value);
    assert Encoded(value) == ds;
    forall k | 0 <= k < |ds| ensures Digit(Letter(ds[k])) == ds[k] { LettersAreDistinct(ds[k]); }
    assert DigitsOf(Text(ds)) == ds;
  }

  /** No two byte strings, of whatever lengths, have the same text. */
  lemma Injective(a: seq<Byte>, b: seq<Byte>)
    requires Text(Encoded(a)) == Text(Encoded(b))
    ensures a == b
  {
    RoundTrip(a);
    RoundTrip(b);
  }

  /** The leading zero bytes are exactly the leading '1's. */
  lemma LeadingOnes(value: seq<Byte>, k: nat)
    requires k < |Text(Encoded(value))|
    ensures k < Zeros(value) ==> Text(Encoded(value))[k] == '1'
    ensures k == Zeros(value) ==> Text(Encoded(value))[k] != '1'
  {
    DigitsOfNumber(58, Value(256, value));
    LettersAreDistinct(Encoded(value)[k]);
    LettersAreDistinct(0);
  }

  // ---------------------------------------------------------------- length

  function Fourth(p: nat): nat { (p * p) * (p * p) }

  lemma PowerOfFour(b: nat, n: nat)
    ensures Pow(b, 4 * n) == Fourth(Pow(b, n))
  {
    PowAdd(b, n, n);
    PowAdd(b, 2 * n, 2 * n);
  }

  lemma FourthGrows(p: nat, q: nat)
    requires p < q
    ensures Fourth(p) < Fourth(q)
  {
    MulBoth(p, p, p, q);
    MulMonotone(q, p + 1, q);
    assert p * p < q * q;
    SquareGrows(p * p, q * q);
  }

  lemma SquareGrows(p: nat, q: nat)
    requires p < q
    ensures p * p < q * q
  {
    MulBoth(p, q, p, p);
    MulMonotone(q, p + 1, q);
    assert q * (p + 1) == q * p + q;
  }

  lemma FourthOfProduct(a: nat, p: nat)
    ensures Fourth(a * p) == Fourth(a) * Fourth(p)
  {
    assert (a * p) * (a * p) == (a * a) * (p * p);
    var s, t := a * a, p * p;
    assert (s * t) * (s * t) == (s * s) * (t * t);
  }

  /** Three small powers, worked out. */
  lemma SmallPowers(b: nat, k: nat)
    requires b == 58 && k == 256
    ensures Pow(b, 3) == 195112 && Pow(b, 10) == 430804206899405824 && Pow(b, 11) == 24986644000165537792
    ensures Pow(k, 8) == 18446744073709551616
  {
    assert Pow(b, 0) == 1 && Pow(k, 0) == 1;
    assert Pow(b, 1) == 58 && Pow(b, 2) == 3364 && Pow(b, 3) == 195112;
    assert Pow(b, 4) == 11316496 && Pow(b, 5) == 656356768;
    PowAdd(b, 5, 5);
    assert Pow(b, 10) == 656356768 * 656356768;
    assert Pow(b, 11) == b * Pow(b, 10);
    assert Pow(k, 1) == 256 && Pow(k, 2) == 65536 && Pow(k, 3) == 16777216 && Pow(k, 4) == 4294967296;
    PowAdd(k, 4, 4);
  }

  /** 58^43 < 2^256 < 58^44. */
  lemma KeyBounds()
    ensures Pow(58, 43) < Pow(256, 32) < Pow(58, 44)
  {
    var b, k := 58, 256;
    SmallPowers(b, k);
    PowerOfFour(k, 8);
    PowerOfFour(b, 11);
    FourthGrows(Pow(k, 8), Pow(b, 11));
    var p := Pow(b, 10);
    PowerOfFour(b, 10);
    PowAdd(b, 3, 40);
    FourthOfProduct(22, p);
    assert Fourth(22) == 234256;
    MulBoth(195112, 234256, Fourth(p), Fourth(p));
    FourthGrows(22 * p, Pow(k, 8));
  }

  /** Twelve letters more than bytes are enough, as far as 32 bytes. */
  lemma {:induction false} TwelveMore(k: nat)
    requires k <= 32
    ensures Pow(256, k) < Pow(58, k + 12)
    decreases 32 - k
  {
    if k == 32 {
      KeyBounds();
    } else {
      TwelveMore(k + 1);
      var m, n := Pow(256, k), Pow(58, k + 12);
      assert 256 * m < 58 * n;
    }
  }

  /** Every 32-byte key takes between 32 and 44 letters. */
  lemma KeyLength(value: seq<Byte>)
    requires |value| == 32
    ensures 32 <= |Text(Encoded(value))| <= 44
  {
    var zeros := Zeros(value);
    var rest: seq<nat> := value[zeros..];
    var k := |rest|;
    assert value == seq(zeros, _ => 0) + rest;
    LeadingZerosVanish(256, zeros, rest);
    var n := Value(256, value);
    if k > 0 {
      ValueBounds(256, rest);
      PowPositive(256, k - 1);
      TwelveMore(k);
      PowOfLarger(58, 256, k - 1);
      DigitCount(58, n, k - 1, k + 12);
    } else {
      assert rest == [];
    }
  }

  /** The shortest text of a length is that of the zero bytes. */
  lemma ZeroKey(value: seq<Byte>)
    requires forall k :: 0 <= k < |value| ==> value[k] == 0
    ensures |Text(Encoded(value))| == |value|
  {
    var n, base := |value|, 256;
    assert value == seq(n, _ => 0) + [];
    ZerosOfPrefix(n, []);
    LeadingZerosVanish(base, n, []);
    assert Value(base, value) == 0;
  }

  /** The longest text of a key is that of 32 bytes of 255. */
  lemma HighestKey(value: seq<Byte>)
    requires |value| == 32 && forall k :: 0 <= k < |value| ==> value[k] == 255
    ensures |Text(Encoded(value))| == 44
  {
    var n, base, letters := |value|, 256, 58;
    assert value == seq(n, _ => 255);
    AllOnes(n, base);
    KeyBounds();
    assert Zeros(value) == 0;
    DigitCount(letters, Value(base, value), 43, 44);
  }

  lemma {:induction false} AllOnes(n: nat, base: nat)
    requires base == 256
    ensures Value(base, seq(n, _ => 255)) == Pow(base, n) - 1
  {
    if n > 0 {
      AllOnes(n - 1, base);
      assert seq(n, _ => 255)[..n - 1] == seq(n - 1, _ => 255);
    }
  }
}
