/**
  A text encoding that obeys the laws asked of base64: four characters for every three begun, none of
  which needs escaping, and a way back.
 */
module Quads {

  predicate Plain(c: char) { c >= ' ' && c != '"' && c != '\\' }

  /** A character that needs escaping is moved up, past all of those. */
  function Hide(c: char): (h: char)
    ensures Plain(h)
  {
    if Plain(c) then c else (c as int + 0x100) as char
  }

  function Show(h: char, moved: bool): char {
    if moved && 0x100 <= h as int < 0x200 then (h as int - 0x100) as char else h
  }

  lemma ShownBack(c: char)
    ensures Show(Hide(c), !Plain(c)) == c
  {}

  function Bit(b: bool): nat { if b then 1 else 0 }

  /** How many characters the group has, and which of them were moved. */
  function Mark(n: nat, a: bool, b: bool, c: bool): (m: char)
    requires 1 <= n <= 3
    ensures Plain(m)
  {
    ('A' as int + 8 * (n - 1) + 4 * Bit(a) + 2 * Bit(b) + Bit(c)) as char
  }

  function Marked(m: char): int { m as int - 'A' as int }

  lemma MarkBack(n: nat, a: bool, b: bool, c: bool)
    requires 1 <= n <= 3
    ensures var k := Marked(Mark(n, a, b, c));
            k / 8 + 1 == n && (k / 4 % 2 == 1 <==> a) && (k / 2 % 2 == 1 <==> b) && (k % 2 == 1 <==> c)
  {}

  /** One group of at most three, filled up with letters. */
  function Quad(n: nat, a: char, b: char, c: char): (q: string)
    requires 1 <= n <= 3
    ensures |q| == 4 && forall k :: 0 <= k < 4 ==> Plain(q[k])
  {
    [Hide(a), Hide(b), Hide(c), Mark(n, !Plain(a), !Plain(b), !Plain(c))]
  }

  function Unquad(q: string): string
    requires |q| == 4
  {
    var k := Marked(q[3]);
    var all := [Show(q[0], k / 4 % 2 == 1), Show(q[1], k / 2 % 2 == 1), Show(q[2], k % 2 == 1)];
    if k / 8 + 1 == 1 then all[..1] else if k / 8 + 1 == 2 then all[..2] else all
  }

  lemma QuadBack(n: nat, a: char, b: char, c: char)
    requires 1 <= n <= 3
    ensures Unquad(Quad(n, a, b, c)) == [a, b, c][..n]
  {
    ShownBack(a);
    ShownBack(b);
    ShownBack(c);
    MarkBack(n, !Plain(a), !Plain(b), !Plain(c));
    assert [a, b, c][..3] == [a, b, c];
  }

  function Encode(x: string): string {
    if |x| == 0 then ""
    else if |x| == 1 then Quad(1, x[0], 'A', 'A')
    else if |x| == 2 then Quad(2, x[0], x[1], 'A')
    else Quad(3, x[0], x[1], x[2]) + Encode(x[3..])
  }

  function Decode(s: string): string {
    if |s| < 4 then "" else Unquad(s[..4]) + Decode(s[4..])
  }

  lemma {:induction false} Measured(x: string)
    ensures |Encode(x)| == 4 * ((|x| + 2) / 3)
    ensures forall k :: 0 <= k < |Encode(x)| ==> Plain(Encode(x)[k])
  {
    if |x| > 2 { Measured(x[3..]); }
  }

  lemma DecodeOne(q: string, rest: string)
    requires |q| == 4
    ensures Decode(q + rest) == Unquad(q) + Decode(rest)
  {
    assert (q + rest)[..4] == q && (q + rest)[4..] == rest;
  }

  lemma LastGroup(n: nat, a: char, b: char, c: char)
    requires 1 <= n <= 3
    ensures Decode(Quad(n, a, b, c)) == [a, b, c][..n]
  {
    var q := Quad(n, a, b, c);
    QuadBack(n, a, b, c);
    assert q[..4] == q && q[4..] == "";
    assert Decode("") == "";
  }

  lemma FirstGroup(a: char, b: char, c: char, rest: string)
    ensures Decode(Quad(3, a, b, c) + rest) == [a, b, c] + Decode(rest)
  {
    QuadBack(3, a, b, c);
    DecodeOne(Quad(3, a, b, c), rest);
    assert [a, b, c][..3] == [a, b, c];
  }

  lemma {:induction false} RoundTrip(x: string)
    ensures Decode(Encode(x)) == x
  {
    if |x| == 1 {
      LastGroup(1, x[0], 'A', 'A');
      assert [x[0], 'A', 'A'][..1] == x;
    } else if |x| == 2 {
      LastGroup(2, x[0], x[1], 'A');
      assert [x[0], x[1], 'A'][..2] == x;
    } else if |x| > 2 {
      RoundTrip(x[3..]);
      FirstGroup(x[0], x[1], x[2], Encode(x[3..]));
      assert [x[0], x[1], x[2]] + x[3..] == x;
    }
  }
}
