/**
  JSON as the archive uses it: the canonical text of `canonical`, the parser of `json.loads` for
  text, whole numbers, lists and dictionaries, and why one undoes the other.
 */
module Json {
  import opened Numerals
  import opened Strings

  datatype Option<+T> = None | Some(value: T)
  datatype Parsed<+T> = Parsed(value: T, rest: string)

  datatype Json = Text(text: string) | Number(number: int) | List(items: Items) | Dict(fields: Fields)
  datatype Items = NoItems | Item(head: Json, tail: Items)

  /** A dictionary in the order its keys were set. */
  datatype Fields = NoFields | Field(key: string, value: Json, rest: Fields)

  // ---------------------------------------------------------------- characters

  const BACKSPACE := 8 as char
  const FORM_FEED := 12 as char

  function HexDigit(d: nat): char
    requires d < 16
  {
    if d < 10 then ('0' as int + d) as char else ('a' as int + (d - 10)) as char
  }

  function HexValue(c: char): Option<nat> {
    if '0' <= c <= '9' then Some(c as int - '0' as int)
    else if 'a' <= c <= 'f' then Some(c as int - 'a' as int + 10)
    else if 'A' <= c <= 'F' then Some(c as int - 'A' as int + 10)
    else None
  }

  function Escaped(c: char): string {
    if c == '"' then ['\\', '"']
    else if c == '\\' then ['\\', '\\']
    else if c == '\n' then ['\\', 'n']
    else if c == '\r' then ['\\', 'r']
    else if c == '\t' then ['\\', 't']
    else if c == BACKSPACE then ['\\', 'b']
    else if c == FORM_FEED then ['\\', 'f']
    else if c < ' ' then ['\\', 'u', '0', '0', HexDigit(c as int / 16), HexDigit(c as int % 16)]
    else [c]
  }

  /** The character after a backslash. */
  function Unescaped(s: string): (r: Option<Parsed<char>>)
    ensures r.Some? ==> |r.value.rest| < |s|
  {
    if s == [] then None
    else if s[0] == '"' || s[0] == '\\' || s[0] == '/' then Some(Parsed(s[0], s[1..]))
    else if s[0] == 'n' then Some(Parsed('\n', s[1..]))
    else if s[0] == 'r' then Some(Parsed('\r', s[1..]))
    else if s[0] == 't' then Some(Parsed('\t', s[1..]))
    else if s[0] == 'b' then Some(Parsed(BACKSPACE, s[1..]))
    else if s[0] == 'f' then Some(Parsed(FORM_FEED, s[1..]))
    else if s[0] == 'u' && |s| >= 5 then
      var a, b, c, d := HexValue(s[1]), HexValue(s[2]), HexValue(s[3]), HexValue(s[4]);
      if a.None? || b.None? || c.None? || d.None? then None
      else
        var code := 4096 * a.value + 256 * b.value + 16 * c.value + d.value;
        if code < 0xD800 || 0xE000 <= code < 0x10000 then Some(Parsed(code as char, s[5..])) else None
    else None
  }

  // ---------------------------------------------------------------- strings

  function Escape(s: string): string { if s == [] then [] else Escaped(s[0]) + Escape(s[1..]) }

  function Quote(s: string): string { ['"'] + Escape(s) + ['"'] }

  /** The characters up to the closing quote. */
  function ParseChars(s: string): (r: Option<Parsed<string>>)
    ensures r.Some? ==> |r.value.rest| < |s|
    decreases |s|
  {
    if s == [] || s[0] < ' ' then None
    else if s[0] == '"' then Some(Parsed([], s[1..]))
    else if s[0] == '\\' then
      match Unescaped(s[1..])
      case None => None
      case Some(p) => Prepend(p.value, ParseChars(p.rest))
    else Prepend(s[0], ParseChars(s[1..]))
  }

  function Prepend(c: char, r: Option<Parsed<string>>): Option<Parsed<string>> {
    if r.None? then None else Some(Parsed([c] + r.value.value, r.value.rest))
  }

  lemma HexBack(d: nat)
    requires d < 16
    ensures HexValue(HexDigit(d)) == Some(d)
  {}

  lemma PlainBack(c: char, t: string)
    requires c >= ' ' && c != '"' && c != '\\'
    ensures ParseChars([c] + t) == Prepend(c, ParseChars(t))
  {
    assert ([c] + t)[1..] == t;
  }

  lemma ShortBack(c: char, e: char, t: string)
    requires e != 'u' && Unescaped([e] + t) == Some(Parsed(c, t))
    ensures ParseChars(['\\', e] + t) == Prepend(c, ParseChars(t))
  {
    assert (['\\', e] + t)[1..] == [e] + t;
  }

  lemma ShortUnescaped(e: char, t: string)
    ensures ([e] + t)[1..] == t
    ensures e == '"' || e == '\\' ==> Unescaped([e] + t) == Some(Parsed(e, t))
    ensures e == 'n' ==> Unescaped([e] + t) == Some(Parsed('\n', t))
    ensures e == 'r' ==> Unescaped([e] + t) == Some(Parsed('\r', t))
    ensures e == 't' ==> Unescaped([e] + t) == Some(Parsed('\t', t))
    ensures e == 'b' ==> Unescaped([e] + t) == Some(Parsed(BACKSPACE, t))
    ensures e == 'f' ==> Unescaped([e] + t) == Some(Parsed(FORM_FEED, t))
  {}

  lemma ControlBack(c: char, t: string)
    requires c < ' '
    ensures ParseChars(['\\', 'u', '0', '0', HexDigit(c as int / 16), HexDigit(c as int % 16)] + t) == Prepend(c, ParseChars(t))
  {
    var high, low := c as int / 16, c as int % 16;
    HexBack(high);
    HexBack(low);
    HexBack(0);
    var e := ['u', '0', '0', HexDigit(high), HexDigit(low)];
    assert (['\\', 'u', '0', '0', HexDigit(high), HexDigit(low)] + t)[1..] == e + t;
    assert (e + t)[5..] == t;
    assert Unescaped(e + t) == Some(Parsed(c, t));
  }

  /** Whatever a character is written as is read back as that character. */
  lemma CharBack(c: char, t: string)
    ensures ParseChars(Escaped(c) + t) == Prepend(c, ParseChars(t))
  {
    if |Escaped(c)| == 1 {
      PlainBack(c, t);
    } else if |Escaped(c)| == 2 {
      ShortUnescaped(Escaped(c)[1], t);
      ShortBack(c, Escaped(c)[1], t);
    } else {
      ControlBack(c, t);
    }
  }

  lemma {:induction false} TextBack(s: string, r: string)
    ensures ParseChars(Escape(s) + ['"'] + r) == Some(Parsed(s, r))
  {
    var tail := Escape(s) + ['"'] + r;
    if s == [] {
      assert tail == ['"'] + r && tail[1..] == r;
    } else {
      TextBack(s[1..], r);
      assert tail == Escaped(s[0]) + (Escape(s[1..]) + ['"'] + r);
      CharBack(s[0], Escape(s[1..]) + ['"'] + r);
      assert [s[0]] + s[1..] == s;
    }
  }

  // ---------------------------------------------------------------- numbers

  predicate IsDigit(c: char) { '0' <= c <= '9' }

  function DigitChar(d: nat): char { if d < 10 then ('0' as int + d) as char else '?' }

  function DigitValue(c: char): nat { if IsDigit(c) then c as int - '0' as int else 0 }

  function DigitChars(ds: seq<nat>): (s: string)
    ensures |s| == |ds| && forall k :: 0 <= k < |s| ==> s[k] == DigitChar(ds[k])
  {
    seq(|ds|, k requires 0 <= k < |ds| => DigitChar(ds[k]))
  }

  function DigitValues(s: string): (ds: seq<nat>)
    ensures |ds| == |s| && forall k :: 0 <= k < |ds| ==> ds[k] == DigitValue(s[k])
  {
    seq(|s|, k requires 0 <= k < |s| => DigitValue(s[k]))
  }

  function Natural(n: nat): string { DigitChars(Digits(10, n)) }

  function Decimal(n: int): string {
    if n == 0 then ['0'] else if n > 0 then Natural(n) else ['-'] + Natural(-n)
  }

  /** How many digits a text begins with. */
  function Run(s: string): (k: nat)
    ensures k <= |s| && (k < |s| ==> !IsDigit(s[k])) && forall i :: 0 <= i < k ==> IsDigit(s[i])
  {
    if s == [] || !IsDigit(s[0]) then 0
    else
      var k := Run(s[1..]);
      assert forall i :: 0 < i < k + 1 ==> s[i] == s[1..][i - 1];
      k + 1
  }

  /** A whole number without a sign; a leading zero stands alone. */
  function ParseNatural(s: string): (r: Option<Parsed<nat>>)
    ensures r.Some? ==> |r.value.rest| < |s|
  {
    if s == [] || !IsDigit(s[0]) then None
    else if s[0] == '0' then Some(Parsed(0, s[1..]))
    else Some(Parsed(Value(10, DigitValues(s[..Run(s)])), s[Run(s)..]))
  }

  /** What would make a whole number a fraction. */
  predicate Continues(s: string) { s != [] && (IsDigit(s[0]) || s[0] == '.' || s[0] == 'e' || s[0] == 'E') }

  function ParseNumber(s: string): (r: Option<Parsed<int>>)
    ensures r.Some? ==> |r.value.rest| < |s|
  {
    if s == [] then None
    else
      var negative := s[0] == '-';
      match ParseNatural(if negative then s[1..] else s)
      case None => None
      case Some(p) =>
        if Continues(p.rest) then None
        else Some(Parsed(if negative then -(p.value as int) else p.value, p.rest))
  }

  lemma NaturalIsDigits(n: nat)
    requires n > 0
    ensures Natural(n) != [] && Natural(n)[0] != '0'
    ensures forall k :: 0 <= k < |Natural(n)| ==> IsDigit(Natural(n)[k])
    ensures Value(10, DigitValues(Natural(n))) == n
  {
    var base := 10;
    DigitsOfNumber(base, n);
    assert DigitValues(DigitChars(Digits(base, n))) == Digits(base, n);
  }

  lemma {:induction false} RunOfDigits(a: string, r: string)
    requires (forall k :: 0 <= k < |a| ==> IsDigit(a[k])) && (r == [] || !IsDigit(r[0]))
    ensures Run(a + r) == |a|
  {
    if a == [] { assert a + r == r; } else {
      RunOfDigits(a[1..], r);
      assert (a + r)[1..] == a[1..] + r;
    }
  }

  lemma NaturalBack(n: nat, r: string)
    requires n > 0 && !Continues(r)
    ensures ParseNatural(Natural(n) + r) == Some(Parsed(n, r)) && (Natural(n) + r)[0] != '-'
  {
    NaturalIsDigits(n);
    RunOfDigits(Natural(n), r);
    var s := Natural(n) + r;
    assert s[..|Natural(n)|] == Natural(n) && s[|Natural(n)|..] == r;
  }

  lemma ParseUnsigned(s: string, n: nat, r: string)
    requires ParseNatural(s) == Some(Parsed(n, r)) && !Continues(r) && s != [] && s[0] != '-'
    ensures ParseNumber(s) == Some(Parsed(n, r))
  {}

  lemma ParseMinus(s: string, t: string, n: nat, k: int, r: string)
    requires ParseNatural(s) == Some(Parsed(n, r)) && !Continues(r) && t == ['-'] + s && k + n == 0
    ensures ParseNumber(t) == Some(Parsed(k, r))
  {
    assert t[1..] == s;
  }

  lemma PositiveBack(n: nat, r: string)
    requires n > 0 && !Continues(r)
    ensures ParseNumber(Natural(n) + r) == Some(Parsed(n, r))
  {
    NaturalBack(n, r);
    ParseUnsigned(Natural(n) + r, n, r);
  }

  lemma NegativeBack(n: nat, k: int, t: string, r: string)
    requires n > 0 && k + n == 0 && !Continues(r) && t == ['-'] + (Natural(n) + r)
    ensures ParseNumber(t) == Some(Parsed(k, r))
  {
    NaturalBack(n, r);
    ParseMinus(Natural(n) + r, t, n, k, r);
  }

  lemma ZeroBack(r: string)
    requires !Continues(r)
    ensures ParseNumber(['0'] + r) == Some(Parsed(0, r))
  {
    var s := ['0'] + r;
    assert s[0] == '0' && s[1..] == r;
    assert ParseNatural(s) == Some(Parsed(0, r));
  }

  lemma DecimalCases(n: int)
    ensures n == 0 ==> Decimal(n) == ['0']
    ensures n > 0 ==> Decimal(n) == Natural(n)
    ensures n < 0 ==> Decimal(n) == ['-'] + Natural(-n)
  {}

  // ---------------------------------------------------------------- printing

  function Print(v: Json): string
    decreases v
  {
    match v
    case Text(s) => Quote(s)
    case Number(n) => Decimal(n)
    case List(items) => ['['] + PrintItems(items) + [']']
    case Dict(fields) => ['{'] + PrintFields(fields) + ['}']
  }

  function PrintItems(items: Items): string
    decreases items
  {
    match items
    case NoItems => []
    case Item(v, rest) => if rest.NoItems? then Print(v) else Print(v) + [','] + PrintItems(rest)
  }

  function PrintFields(fields: Fields): string
    decreases fields
  {
    match fields
    case NoFields => []
    case Field(k, v, rest) =>
      if rest.NoFields? then Quote(k) + [':'] + Print(v)
      else Quote(k) + [':'] + Print(v) + [','] + PrintFields(rest)
  }

  // ---------------------------------------------------------------- dictionaries

  predicate Has(f: Fields, key: string) {
    f.Field? && (f.key == key || Has(f.rest, key))
  }

  function Lookup(f: Fields, key: string): Option<Json> {
    if f.NoFields? then None else if f.key == key then Some(f.value) else Lookup(f.rest, key)
  }

  function Remove(f: Fields, key: string): Fields {
    match f
    case NoFields => NoFields
    case Field(k, v, rest) => if k == key then Remove(rest, key) else Field(k, v, Remove(rest, key))
  }

  /** A key before others already read: it keeps the first place and takes the last value. */
  function Assign(key: string, v: Json, rest: Fields): Fields {
    match Lookup(rest, key)
    case None => Field(key, v, rest)
    case Some(later) => Field(key, later, Remove(rest, key))
  }

  // ---------------------------------------------------------------- parsing

  predicate IsSpace(c: char) { c == ' ' || c == '\t' || c == '\n' || c == '\r' }

  function Skip(s: string): (r: string)
    ensures |r| <= |s| && (r != [] ==> !IsSpace(r[0]))
  {
    if s != [] && IsSpace(s[0]) then Skip(s[1..]) else s
  }

  function ParseValue(s: string): (r: Option<Parsed<Json>>)
    ensures r.Some? ==> |r.value.rest| < |s|
    decreases |s|, 1
  {
    if s == [] then None
    else if s[0] == '"' then
      match ParseChars(s[1..])
      case None => None
      case Some(p) => Some(Parsed(Text(p.value), p.rest))
    else if s[0] == '[' then
      var t := Skip(s[1..]);
      if t != [] && t[0] == ']' then Some(Parsed(List(NoItems), t[1..]))
      else
        match ParseItems(t)
        case None => None
        case Some(p) => Some(Parsed(List(p.value), p.rest))
    else if s[0] == '{' then
      var t := Skip(s[1..]);
      if t != [] && t[0] == '}' then Some(Parsed(Dict(NoFields), t[1..]))
      else
        match ParseFields(t)
        case None => None
        case Some(p) => Some(Parsed(Dict(p.value), p.rest))
    else
      match ParseNumber(s)
      case None => None
      case Some(p) => Some(Parsed(Number(p.value), p.rest))
  }

  /** One item or more, and the closing bracket. */
  function ParseItems(s: string): (r: Option<Parsed<Items>>)
    ensures r.Some? ==> |r.value.rest| < |s|
    decreases |s|, 2
  {
    match ParseValue(s)
    case None => None
    case Some(p) =>
      var t := Skip(p.rest);
      if t == [] then None
      else if t[0] == ']' then Some(Parsed(Item(p.value, NoItems), t[1..]))
      else if t[0] == ',' then
        match ParseItems(Skip(t[1..]))
        case None => None
        case Some(q) => Some(Parsed(Item(p.value, q.value), q.rest))
      else None
  }

  /** A key, its colon, and where its value begins. */
  function ParseKey(s: string): (r: Option<Parsed<string>>)
    ensures r.Some? ==> |r.value.rest| < |s|
  {
    if s == [] || s[0] != '"' then None
    else
      match ParseChars(s[1..])
      case None => None
      case Some(p) =>
        var t := Skip(p.rest);
        if t == [] || t[0] != ':' then None else Some(Parsed(p.value, Skip(t[1..])))
  }

  /** One field or more, and the closing brace. */
  function ParseFields(s: string): (r: Option<Parsed<Fields>>)
    ensures r.Some? ==> |r.value.rest| < |s|
    decreases |s|, 2
  {
    match ParseKey(s)
    case None => None
    case Some(k) =>
      match ParseValue(k.rest)
      case None => None
      case Some(p) =>
        var t := Skip(p.rest);
        if t == [] then None
        else if t[0] == '}' then Some(Parsed(Field(k.value, p.value, NoFields), t[1..]))
        else if t[0] == ',' then
          match ParseFields(Skip(t[1..]))
          case None => None
          case Some(q) => Some(Parsed(Assign(k.value, p.value, q.value), q.rest))
        else None
  }

  /** `json.loads` */
  function Loads(s: string): Option<Json> {
    match ParseValue(Skip(s))
    case None => None
    case Some(p) => if Skip(p.rest) == [] then Some(p.value) else None
  }

  // ---------------------------------------------------------------- printed text is read back

  /** No dictionary, at any depth, has a key twice. */
  predicate Proper(v: Json)
    decreases v
  {
    match v
    case Text(_) => true
    case Number(_) => true
    case List(items) => ProperItems(items)
    case Dict(fields) => ProperFields(fields)
  }

  predicate ProperItems(items: Items)
    decreases items
  {
    items.NoItems? || (Proper(items.head) && ProperItems(items.tail))
  }

  predicate ProperFields(f: Fields)
    decreases f
  {
    f.NoFields? || (Proper(f.value) && !Has(f.rest, f.key) && ProperFields(f.rest))
  }

  lemma LookupHas(f: Fields, key: string)
    ensures Lookup(f, key).Some? <==> Has(f, key)
  {}

  /** A value begins with a quote, a bracket, a brace, a sign or a digit. */
  lemma PrintBegins(v: Json)
    ensures Print(v) != [] && !IsSpace(Print(v)[0]) && Print(v)[0] != ']' && Print(v)[0] != '}'
  {
    if v.Number? && v.number > 0 { NaturalIsDigits(v.number); }
  }

  lemma ParseText(t: string, text: string, r: string)
    requires ParseChars(t) == Some(Parsed(text, r))
    ensures ParseValue(['"'] + t) == Some(Parsed(Text(text), r))
  {
    assert (['"'] + t)[1..] == t;
  }

  lemma ParseList(t: string, items: Items, r: string)
    requires t != [] && !IsSpace(t[0]) && t[0] != ']' && ParseItems(t) == Some(Parsed(items, r))
    ensures ParseValue(['['] + t) == Some(Parsed(List(items), r))
  {
    assert (['['] + t)[1..] == t;
  }

  lemma ParseDict(t: string, fields: Fields, r: string)
    requires t != [] && !IsSpace(t[0]) && t[0] != '}' && ParseFields(t) == Some(Parsed(fields, r))
    ensures ParseValue(['{'] + t) == Some(Parsed(Dict(fields), r))
  {
    assert (['{'] + t)[1..] == t;
  }

  lemma ParseEmpty(r: string)
    ensures ParseValue(['['] + ([']'] + r)) == Some(Parsed(List(NoItems), r))
    ensures ParseValue(['{'] + (['}'] + r)) == Some(Parsed(Dict(NoFields), r))
  {
    var closed, ended := [']'] + r, ['}'] + r;
    assert (['['] + closed)[1..] == closed && closed[1..] == r;
    assert (['{'] + ended)[1..] == ended && ended[1..] == r;
  }

  lemma ParseLastItem(s: string, v: Json, r: string)
    requires ParseValue(s) == Some(Parsed(v, [']'] + r))
    ensures ParseItems(s) == Some(Parsed(Item(v, NoItems), r))
  {
    assert ([']'] + r)[1..] == r;
  }

  lemma ParseNextItem(s: string, v: Json, more: string, items: Items, r: string)
    requires ParseValue(s) == Some(Parsed(v, [','] + more)) && ParseItems(more) == Some(Parsed(items, r))
    requires more != [] && !IsSpace(more[0])
    ensures ParseItems(s) == Some(Parsed(Item(v, items), r))
  {
    assert ([','] + more)[1..] == more;
  }

  lemma ParseLastField(s: string, key: string, after: string, v: Json, r: string)
    requires ParseKey(s) == Some(Parsed(key, after)) && ParseValue(after) == Some(Parsed(v, ['}'] + r))
    ensures ParseFields(s) == Some(Parsed(Field(key, v, NoFields), r))
  {
    assert (['}'] + r)[1..] == r;
  }

  lemma ParseNextField(s: string, key: string, after: string, v: Json, more: string, fields: Fields, r: string)
    requires ParseKey(s) == Some(Parsed(key, after)) && ParseValue(after) == Some(Parsed(v, [','] + more))
    requires more != [] && !IsSpace(more[0]) && ParseFields(more) == Some(Parsed(fields, r)) && !Has(fields, key)
    ensures ParseFields(s) == Some(Parsed(Field(key, v, fields), r))
  {
    assert ([','] + more)[1..] == more;
    LookupHas(fields, key);
  }

  /** A text that begins like a number is parsed as one. */
  lemma ParseAsNumber(s: string, n: int, r: string)
    requires s != [] && (IsDigit(s[0]) || s[0] == '-') && ParseNumber(s) == Some(Parsed(n, r))
    ensures ParseValue(s) == Some(Parsed(Number(n), r))
  {}

  lemma ParsePositive(n: nat, text: string, r: string)
    requires n > 0 && !Continues(r) && text == Natural(n)
    ensures ParseValue(text + r) == Some(Parsed(Number(n), r))
  {
    PositiveBack(n, r);
    NaturalIsDigits(n);
    ParseAsNumber(text + r, n, r);
  }

  lemma ParseNegative(n: nat, k: int, text: string, r: string)
    requires n > 0 && k + n == 0 && !Continues(r) && text == ['-'] + Natural(n)
    ensures ParseValue(text + r) == Some(Parsed(Number(k), r))
  {
    var t := text + r;
    assert t == ['-'] + (Natural(n) + r);
    NegativeBack(n, k, t, r);
    ParseAsNumber(t, k, r);
  }

  lemma ParseDecimal(n: int, r: string)
    requires !Continues(r)
    ensures ParseValue(Decimal(n) + r) == Some(Parsed(Number(n), r))
  {
    DecimalCases(n);
    if n > 0 {
      ParsePositive(n, Decimal(n), r);
    } else if n < 0 {
      ParseNegative(-n, n, Decimal(n), r);
    } else {
      ZeroBack(r);
      ParseAsNumber(['0'] + r, n, r);
    }
  }

  lemma QuoteBack(t: string, r: string)
    ensures ParseValue(Quote(t) + r) == Some(Parsed(Text(t), r))
  {
    TextBack(t, r);
    ParseText(Escape(t) + ['"'] + r, t, r);
    assert Quote(t) + r == ['"'] + (Escape(t) + ['"'] + r);
  }

  lemma {:induction false} ValueBack(v: Json, r: string)
    requires Proper(v) && (v.Number? ==> !Continues(r))
    ensures ParseValue(Print(v) + r) == Some(Parsed(v, r))
    decreases v
  {
    match v
    case Text(t) =>
      QuoteBack(t, r);
    case Number(n) =>
      ParseDecimal(n, r);
    case List(items) =>
      ListBack(items, r);
    case Dict(fields) =>
      DictBack(fields, r);
  }

  lemma {:induction false} ListBack(items: Items, r: string)
    requires ProperItems(items)
    ensures ParseValue(Print(List(items)) + r) == Some(Parsed(List(items), r))
    decreases items, 1
  {
    var t := PrintItems(items) + [']'] + r;
    assert Print(List(items)) + r == ['['] + t;
    if items.NoItems? {
      assert t == [']'] + r;
      ParseEmpty(r);
    } else {
      ItemsBack(items, r);
      PrintBegins(items.head);
      ParseList(t, items, r);
    }
  }

  lemma {:induction false} DictBack(fields: Fields, r: string)
    requires ProperFields(fields)
    ensures ParseValue(Print(Dict(fields)) + r) == Some(Parsed(Dict(fields), r))
    decreases fields, 1
  {
    var t := PrintFields(fields) + ['}'] + r;
    assert Print(Dict(fields)) + r == ['{'] + t;
    if fields.NoFields? {
      assert t == ['}'] + r;
      ParseEmpty(r);
    } else {
      FieldsBack(fields, r);
      ParseDict(t, fields, r);
    }
  }

  lemma {:induction false} ItemsBack(items: Items, r: string)
    requires items.Item? && ProperItems(items)
    ensures ParseItems(PrintItems(items) + [']'] + r) == Some(Parsed(items, r))
    decreases items, 0
  {
    var s := PrintItems(items) + [']'] + r;
    var head := Print(items.head);
    if items.tail.NoItems? {
      assert s == head + ([']'] + r);
      ValueBack(items.head, [']'] + r);
      ParseLastItem(s, items.head, r);
    } else {
      var more := PrintItems(items.tail) + [']'] + r;
      assert s == head + ([','] + more);
      ValueBack(items.head, [','] + more);
      ItemsBack(items.tail, r);
      PrintBegins(items.tail.head);
      ParseNextItem(s, items.head, more, items.tail, r);
    }
  }

  lemma KeyBack(key: string, after: string)
    requires after != [] && !IsSpace(after[0])
    ensures ParseKey(Quote(key) + [':'] + after) == Some(Parsed(key, after))
  {
    var s := Quote(key) + [':'] + after;
    TextBack(key, [':'] + after);
    assert s[1..] == Escape(key) + ['"'] + ([':'] + after);
    assert ([':'] + after)[1..] == after;
  }

  /** The printed fields, cut where the parser does. */
  lemma LastFieldText(f: Fields, r: string)
    requires f.Field? && f.rest.NoFields?
    ensures PrintFields(f) + ['}'] + r == Quote(f.key) + [':'] + (Print(f.value) + (['}'] + r))
  {}

  lemma NextFieldText(f: Fields, more: string, r: string)
    requires f.Field? && f.rest.Field? && more == PrintFields(f.rest) + ['}'] + r
    ensures PrintFields(f) + ['}'] + r == Quote(f.key) + [':'] + (Print(f.value) + ([','] + more))
  {
    Regrouped(Quote(f.key) + [':'], Print(f.value), PrintFields(f.rest), r);
  }

  lemma Regrouped(k: string, v: string, rest: string, r: string)
    ensures k + v + [','] + rest + ['}'] + r == k + (v + ([','] + (rest + ['}'] + r)))
  {}

  lemma {:induction false} FieldsBack(f: Fields, r: string)
    requires f.Field? && ProperFields(f)
    ensures ParseFields(PrintFields(f) + ['}'] + r) == Some(Parsed(f, r))
    decreases f, 0
  {
    var s, v := PrintFields(f) + ['}'] + r, Print(f.value);
    PrintBegins(f.value);
    if f.rest.NoFields? {
      var after := ['}'] + r;
      LastFieldText(f, r);
      KeyBack(f.key, v + after);
      ValueBack(f.value, after);
      ParseLastField(s, f.key, v + after, f.value, r);
    } else {
      var more := PrintFields(f.rest) + ['}'] + r;
      var after := [','] + more;
      NextFieldText(f, more, r);
      KeyBack(f.key, v + after);
      ValueBack(f.value, after);
      FieldsBack(f.rest, r);
      ParseNextField(s, f.key, v + after, f.value, more, f.rest, r);
    }
  }

  /** Printed text is read back as the value it was printed from. */
  lemma LoadsBack(v: Json)
    requires Proper(v)
    ensures Loads(Print(v)) == Some(v)
  {
    ValueBack(v, []);
    assert Print(v) + [] == Print(v);
    PrintBegins(v);
  }

  // ---------------------------------------------------------------- what is read is proper

  lemma {:induction false} HasRemove(f: Fields, key: string, k: string)
    ensures Has(Remove(f, key), k) <==> k != key && Has(f, k)
  {
    if f.Field? { HasRemove(f.rest, key, k); }
  }

  lemma {:induction false} RemoveIsProper(f: Fields, key: string)
    requires ProperFields(f)
    ensures ProperFields(Remove(f, key))
  {
    if f.Field? {
      RemoveIsProper(f.rest, key);
      HasRemove(f.rest, key, f.key);
    }
  }

  lemma {:induction false} LookupIsProper(f: Fields, key: string)
    requires ProperFields(f) && Lookup(f, key).Some?
    ensures Proper(Lookup(f, key).value)
  {
    if f.key != key { LookupIsProper(f.rest, key); }
  }

  lemma AssignIsProper(key: string, v: Json, rest: Fields)
    requires Proper(v) && ProperFields(rest)
    ensures ProperFields(Assign(key, v, rest))
  {
    LookupHas(rest, key);
    if Has(rest, key) {
      LookupIsProper(rest, key);
      RemoveIsProper(rest, key);
      HasRemove(rest, key, key);
    }
  }

  lemma {:induction false} ParsedIsProper(s: string)
    requires ParseValue(s).Some?
    ensures Proper(ParseValue(s).value.value)
    decreases |s|, 1
  {
    if s[0] == '[' {
      if ParseItems(Skip(s[1..])).Some? { ItemsAreProper(Skip(s[1..])); }
    } else if s[0] == '{' {
      if ParseFields(Skip(s[1..])).Some? { FieldsAreProper(Skip(s[1..])); }
    }
  }

  lemma {:induction false} ItemsAreProper(s: string)
    requires ParseItems(s).Some?
    ensures ProperItems(ParseItems(s).value.value)
    decreases |s|, 2
  {
    ParsedIsProper(s);
    var t := Skip(ParseValue(s).value.rest);
    if t[0] == ',' { ItemsAreProper(Skip(t[1..])); }
  }

  lemma {:induction false} FieldsAreProper(s: string)
    requires ParseFields(s).Some?
    ensures ProperFields(ParseFields(s).value.value)
    decreases |s|, 2
  {
    var k := ParseKey(s).value;
    ParsedIsProper(k.rest);
    var p := ParseValue(k.rest).value;
    var t := Skip(p.rest);
    if t[0] == ',' {
      FieldsAreProper(Skip(t[1..]));
      AssignIsProper(k.value, p.value, ParseFields(Skip(t[1..])).value.value);
    }
  }

  /** Whatever text is read, no dictionary in it has a key twice. */
  lemma LoadedIsProper(s: string)
    requires Loads(s).Some?
    ensures Proper(Loads(s).value)
  {
    ParsedIsProper(Skip(s));
  }
}
