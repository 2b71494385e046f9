/**
  JSON text in general: the form of what is printed, character by character, and what is read from any
  text of a value, with spaces wherever they may stand and keys that repeat.
 */
module JsonText {
  import opened Json
  import opened Canonical

  // ---------------------------------------------------------------- what is printed

  /** Quotes, backslashes and control characters are escaped, the latter in lower-case hexadecimal; all else is itself. */
  lemma CharIsPrinted(c: char)
    ensures Print(Text([c])) ==
            "\"" + (if c == '"' then "\\\"" else if c == '\\' then "\\\\"
                    else if c == '\n' then "\\n" else if c == '\r' then "\\r" else if c == '\t' then "\\t"
                    else if c as int == 8 then "\\b" else if c as int == 12 then "\\f"
                    else if c as int < 32 then "\\u00" + ["0123456789abcdef"[c as int / 16], "0123456789abcdef"[c as int % 16]]
                    else [c]) + "\""
  {
    assert Escape([c]) == Escaped(c) + Escape([]) == Escaped(c);
    if c as int < 32 {
      HexIsLower(c as int / 16);
      HexIsLower(c as int % 16);
    }
  }

  lemma HexIsLower(d: nat)
    requires d < 16
    ensures HexDigit(d) == "0123456789abcdef"[d]
  {}

  /** A text is printed one character after the other. */
  lemma {:induction false} TextIsPrintedByCharacter(s: string, t: string)
    ensures Escape(s + t) == Escape(s) + Escape(t)
  {
    if s == [] {
      assert s + t == t;
    } else {
      var c, rest := s[0], s[1..];
      assert s == [c] + rest && s + t == [c] + (rest + t);
      TextIsPrintedByCharacter(rest, t);
      EscapeCons(c, rest);
      EscapeCons(c, rest + t);
      Regroup(Escaped(c), Escape(rest), Escape(t), Escape(s), Escape(s + t), Escape(rest + t));
    }
  }

  lemma EscapeCons(c: char, rest: string)
    ensures Escape([c] + rest) == Escaped(c) + Escape(rest)
  {
    assert ([c] + rest)[1..] == rest;
  }

  lemma Regroup(a: string, b: string, c: string, ab: string, abc: string, bc: string)
    requires ab == a + b && abc == a + bc && bc == b + c
    ensures abc == ab + c
  {}

  /** Lists and dictionaries are printed without a space. */
  lemma ListsArePrinted(v: Json, w: Json)
    ensures Print(List(NoItems)) == "[]"
    ensures Print(List(Item(v, Item(w, NoItems)))) == "[" + Print(v) + "," + Print(w) + "]"
  {
    var last := Item(w, NoItems);
    assert PrintItems(last) == Print(w);
    assert PrintItems(Item(v, last)) == Print(v) + "," + PrintItems(last);
    Commas(Print(v), Print(w));
  }

  lemma Commas(v: string, w: string)
    ensures "[" + (v + "," + w) + "]" == "[" + v + "," + w + "]"
  {}

  lemma DictionariesArePrinted(v: Json, w: Json, k: string, l: string)
    ensures Print(Dict(NoFields)) == "{}"
    ensures Print(Dict(Field(k, v, Field(l, w, NoFields)))) == "{" + (Quote(k) + ":" + Print(v) + "," + (Quote(l) + ":" + Print(w))) + "}"
  {
    var last := Field(l, w, NoFields);
    assert PrintFields(last) == Quote(l) + ":" + Print(w);
    assert PrintFields(Field(k, v, last)) == Quote(k) + ":" + Print(v) + "," + PrintFields(last);
  }

  // ---------------------------------------------------------------- escapes that are read

  /** A hexadecimal digit is read in either case. */
  lemma HexInEitherCase(d: nat)
    requires d < 16
    ensures HexValue("0123456789abcdef"[d]) == HexValue("0123456789ABCDEF"[d]) == Some(d)
  {}

  /** Four digits after a `u` are the number of a character, most significant first; a surrogate is none. */
  lemma NumberedCharacterIsRead(a: nat, b: nat, c: nat, d: nat, t: string)
    requires a < 16 && b < 16 && c < 16 && d < 16
    ensures var code := ((a * 16 + b) * 16 + c) * 16 + d;
            Unescaped(['u', HexDigit(a), HexDigit(b), HexDigit(c), HexDigit(d)] + t) ==
            if 0xD800 <= code <= 0xDFFF then None else Some(Parsed(code as char, t))
  {
    HexBack(a);
    HexBack(b);
    HexBack(c);
    HexBack(d);
    assert (['u', HexDigit(a), HexDigit(b), HexDigit(c), HexDigit(d)] + t)[5..] == t;
  }

  /** A slash may be escaped too; nothing but these escapes is read. */
  lemma OtherEscapes(c: char, t: string)
    ensures Unescaped(['/'] + t) == Some(Parsed('/', t))
    ensures c !in "\"\\/nrtbfu" ==> Unescaped([c] + t).None?
  {
    assert (['/'] + t)[1..] == t;
  }

  // ---------------------------------------------------------------- what a text stands for

  ghost predicate Blank(w: string) { forall k :: 0 <= k < |w| ==> w[k] in " \t\n\r" }

  /** The text of a value, with the same spaces wherever some may stand. */
  function Spaced(v: Json, w: string): string
    decreases v
  {
    match v
    case Text(s) => Quote(s)
    case Number(n) => Decimal(n)
    case List(items) => ['['] + w + SpacedItems(items, w) + [']']
    case Dict(fields) => ['{'] + w + SpacedFields(fields, w) + ['}']
  }

  function SpacedItems(items: Items, w: string): string
    decreases items
  {
    match items
    case NoItems => []
    case Item(v, rest) => Spaced(v, w) + w + (if rest.NoItems? then [] else [','] + w + SpacedItems(rest, w))
  }

  function SpacedFields(f: Fields, w: string): string
    decreases f
  {
    match f
    case NoFields => []
    case Field(k, v, rest) =>
      Quote(k) + w + [':'] + w + Spaced(v, w) + w + (if rest.NoFields? then [] else [','] + w + SpacedFields(rest, w))
  }

  /** The value that is read: of a key set more than once, the last value in the first place. */
  function Settled(v: Json): Json
    decreases v
  {
    match v
    case Text(_) => v
    case Number(_) => v
    case List(items) => List(SettledItems(items))
    case Dict(fields) => Dict(SettledFields(fields))
  }

  function SettledItems(items: Items): Items
    decreases items
  {
    match items
    case NoItems => NoItems
    case Item(v, rest) => Item(Settled(v), SettledItems(rest))
  }

  function SettledFields(f: Fields): Fields
    decreases f
  {
    match f
    case NoFields => NoFields
    case Field(k, v, rest) => Assign(k, Settled(v), SettledFields(rest))
  }

  /** The value a key was set to last. */
  function LastSet(f: Fields, key: string): Option<Json>
    decreases f
  {
    match f
    case NoFields => None
    case Field(k, v, rest) =>
      var later := LastSet(rest, key);
      if later.Some? then later else if k == key then Some(v) else None
  }

  lemma LookupAssign(key: string, v: Json, rest: Fields, k: string)
    ensures Lookup(Assign(key, v, rest), k) ==
            if k != key then Lookup(rest, k) else if Lookup(rest, key).Some? then Lookup(rest, key) else Some(v)
  {
    LookupRemove(rest, key, k);
  }

  /** What is read under a key is what it was set to last. */
  lemma {:induction false} LastValueCounts(f: Fields, key: string)
    ensures Lookup(SettledFields(f), key) == match LastSet(f, key) case None => None case Some(v) => Some(Settled(v))
    decreases f
  {
    if f.Field? {
      LastValueCounts(f.rest, key);
      LookupAssign(f.key, Settled(f.value), SettledFields(f.rest), key);
    }
  }

  // ---------------------------------------------------------------- spaces are skipped

  lemma {:induction false} BlankIsSkipped(w: string, t: string)
    requires Blank(w) && (t == [] || !IsSpace(t[0]))
    ensures Skip(w + t) == t
  {
    if w == [] {
      assert w + t == t;
    } else {
      assert (w + t)[1..] == w[1..] + t;
      BlankIsSkipped(w[1..], t);
    }
  }

  lemma SkipTo(w: string, c: char, r: string, s: string)
    requires Blank(w) && !IsSpace(c) && s == w + ([c] + r)
    ensures Skip(s) == [c] + r && Skip(s)[0] == c && Skip(s)[1..] == r
  {
    BlankIsSkipped(w, [c] + r);
  }

  lemma SpacedBegins(v: Json, w: string)
    ensures Spaced(v, w) != [] && !IsSpace(Spaced(v, w)[0]) && Spaced(v, w)[0] != ']' && Spaced(v, w)[0] != '}'
  {
    if v.Number? && v.number > 0 { NaturalIsDigits(v.number); }
  }

  lemma ReadsList(w: string, t: string, items: Items, r: string)
    requires Blank(w) && t != [] && !IsSpace(t[0]) && t[0] != ']' && ParseItems(t) == Some(Parsed(items, r))
    ensures ParseValue(['['] + (w + t)) == Some(Parsed(List(items), r))
  {
    BlankIsSkipped(w, t);
    assert (['['] + (w + t))[1..] == w + t;
  }

  lemma ReadsDict(w: string, t: string, fields: Fields, r: string)
    requires Blank(w) && t != [] && !IsSpace(t[0]) && t[0] != '}' && ParseFields(t) == Some(Parsed(fields, r))
    ensures ParseValue(['{'] + (w + t)) == Some(Parsed(Dict(fields), r))
  {
    BlankIsSkipped(w, t);
    assert (['{'] + (w + t))[1..] == w + t;
  }

  lemma ReadsEmpty(w: string, r: string)
    requires Blank(w)
    ensures ParseValue(['['] + (w + ([']'] + r))) == Some(Parsed(List(NoItems), r))
    ensures ParseValue(['{'] + (w + (['}'] + r))) == Some(Parsed(Dict(NoFields), r))
  {
    var closed, ended := w + ([']'] + r), w + (['}'] + r);
    SkipTo(w, ']', r, closed);
    SkipTo(w, '}', r, ended);
    assert (['['] + closed)[1..] == closed && (['{'] + ended)[1..] == ended;
  }

  lemma ReadsLastItem(s: string, v: Json, w: string, r: string, after: string)
    requires Blank(w) && after == w + ([']'] + r) && ParseValue(s) == Some(Parsed(v, after))
    ensures ParseItems(s) == Some(Parsed(Item(v, NoItems), r))
  {
    SkipTo(w, ']', r, after);
  }

  lemma ReadsNextItem(s: string, v: Json, w: string, more: string, items: Items, r: string, after: string)
    requires Blank(w) && after == w + ([','] + (w + more)) && ParseValue(s) == Some(Parsed(v, after))
    requires more != [] && !IsSpace(more[0]) && ParseItems(more) == Some(Parsed(items, r))
    ensures ParseItems(s) == Some(Parsed(Item(v, items), r))
  {
    SkipTo(w, ',', w + more, after);
    BlankIsSkipped(w, more);
  }

  lemma ReadsKey(key: string, w: string, after: string)
    requires Blank(w) && after != [] && !IsSpace(after[0])
    ensures ParseKey(Quote(key) + (w + ([':'] + (w + after)))) == Some(Parsed(key, after))
  {
    var rest := w + ([':'] + (w + after));
    var s := Quote(key) + rest;
    TextBack(key, rest);
    assert s[1..] == Escape(key) + ['"'] + rest;
    SkipTo(w, ':', w + after, rest);
    BlankIsSkipped(w, after);
  }

  lemma ReadsLastField(s: string, key: string, at: string, v: Json, w: string, r: string, after: string)
    requires Blank(w) && after == w + (['}'] + r)
    requires ParseKey(s) == Some(Parsed(key, at)) && ParseValue(at) == Some(Parsed(v, after))
    ensures ParseFields(s) == Some(Parsed(Field(key, v, NoFields), r))
  {
    SkipTo(w, '}', r, after);
  }

  lemma ReadsNextField(s: string, key: string, at: string, v: Json, w: string, more: string, fields: Fields, r: string, after: string)
    requires Blank(w) && after == w + ([','] + (w + more))
    requires ParseKey(s) == Some(Parsed(key, at)) && ParseValue(at) == Some(Parsed(v, after))
    requires more != [] && !IsSpace(more[0]) && ParseFields(more) == Some(Parsed(fields, r))
    ensures ParseFields(s) == Some(Parsed(Assign(key, v, fields), r))
  {
    SkipTo(w, ',', w + more, after);
    BlankIsSkipped(w, more);
  }

  lemma StopsNumber(w: string, c: char, r: string)
    requires Blank(w) && !Continues([c] + r)
    ensures !Continues(w + ([c] + r))
  {
    if w != [] { assert w[0] in " \t\n\r"; } else { assert w + ([c] + r) == [c] + r; }
  }

  // ---------------------------------------------------------------- any text is read

  lemma {:induction false} SpacedBack(v: Json, w: string, r: string)
    requires Blank(w) && (v.Number? ==> !Continues(r))
    ensures ParseValue(Spaced(v, w) + r) == Some(Parsed(Settled(v), r))
    decreases v
  {
    match v
    case Text(t) => QuoteBack(t, r);
    case Number(n) => ParseDecimal(n, r);
    case List(items) => SpacedListBack(items, w, r);
    case Dict(fields) => SpacedDictBack(fields, w, r);
  }

  lemma Enclosed(open: char, w: string, body: string, close: char, r: string)
    ensures [open] + w + body + [close] + r == [open] + (w + (body + [close] + r))
    ensures [] + [close] + r == [close] + r
  {}

  lemma {:induction false} SpacedListBack(items: Items, w: string, r: string)
    requires Blank(w)
    ensures ParseValue(Spaced(List(items), w) + r) == Some(Parsed(List(SettledItems(items)), r))
    decreases items, 1
  {
    var t := SpacedItems(items, w) + [']'] + r;
    Enclosed('[', w, SpacedItems(items, w), ']', r);
    if items.NoItems? {
      ReadsEmpty(w, r);
    } else {
      SpacedItemsBack(items, w, r);
      SpacedBegins(items.head, w);
      ReadsList(w, t, SettledItems(items), r);
    }
  }

  lemma {:induction false} SpacedDictBack(fields: Fields, w: string, r: string)
    requires Blank(w)
    ensures ParseValue(Spaced(Dict(fields), w) + r) == Some(Parsed(Dict(SettledFields(fields)), r))
    decreases fields, 1
  {
    var t := SpacedFields(fields, w) + ['}'] + r;
    Enclosed('{', w, SpacedFields(fields, w), '}', r);
    if fields.NoFields? {
      ReadsEmpty(w, r);
    } else {
      SpacedFieldsBack(fields, w, r);
      ReadsDict(w, t, SettledFields(fields), r);
    }
  }

  lemma LastItemText(v: string, w: string, r: string)
    ensures v + w + [] + [']'] + r == v + (w + ([']'] + r))
  {}

  lemma NextItemText(v: string, w: string, rest: string, r: string)
    ensures v + w + ([','] + w + rest) + [']'] + r == v + (w + ([','] + (w + (rest + [']'] + r))))
  {}

  lemma {:induction false} SpacedItemsBack(items: Items, w: string, r: string)
    requires items.Item? && Blank(w)
    ensures ParseItems(SpacedItems(items, w) + [']'] + r) == Some(Parsed(SettledItems(items), r))
    decreases items, 0
  {
    var s, head := SpacedItems(items, w) + [']'] + r, Spaced(items.head, w);
    if items.tail.NoItems? {
      var after := w + ([']'] + r);
      LastItemText(head, w, r);
      StopsNumber(w, ']', r);
      SpacedBack(items.head, w, after);
      ReadsLastItem(s, Settled(items.head), w, r, after);
    } else {
      var more := SpacedItems(items.tail, w) + [']'] + r;
      var after := w + ([','] + (w + more));
      NextItemText(head, w, SpacedItems(items.tail, w), r);
      StopsNumber(w, ',', w + more);
      SpacedBack(items.head, w, after);
      SpacedItemsBack(items.tail, w, r);
      SpacedBegins(items.tail.head, w);
      ReadsNextItem(s, Settled(items.head), w, more, SettledItems(items.tail), r, after);
    }
  }

  lemma SpacedLastField(k: string, w: string, v: string, r: string)
    ensures k + w + [':'] + w + v + w + [] + ['}'] + r == k + (w + ([':'] + (w + (v + (w + (['}'] + r))))))
  {}

  lemma SpacedNextField(k: string, w: string, v: string, rest: string, r: string)
    ensures k + w + [':'] + w + v + w + ([','] + w + rest) + ['}'] + r ==
            k + (w + ([':'] + (w + (v + (w + ([','] + (w + (rest + ['}'] + r))))))))
  {}

  lemma {:induction false} SpacedFieldsBack(f: Fields, w: string, r: string)
    requires f.Field? && Blank(w)
    ensures ParseFields(SpacedFields(f, w) + ['}'] + r) == Some(Parsed(SettledFields(f), r))
    decreases f, 0
  {
    var s, k, v := SpacedFields(f, w) + ['}'] + r, Quote(f.key), Spaced(f.value, w);
    SpacedBegins(f.value, w);
    if f.rest.NoFields? {
      var after := w + (['}'] + r);
      SpacedLastField(k, w, v, r);
      ReadsKey(f.key, w, v + after);
      StopsNumber(w, '}', r);
      SpacedBack(f.value, w, after);
      ReadsLastField(s, f.key, v + after, Settled(f.value), w, r, after);
    } else {
      var more := SpacedFields(f.rest, w) + ['}'] + r;
      var after := w + ([','] + (w + more));
      SpacedNextField(k, w, v, SpacedFields(f.rest, w), r);
      ReadsKey(f.key, w, v + after);
      StopsNumber(w, ',', w + more);
      SpacedBack(f.value, w, after);
      SpacedFieldsBack(f.rest, w, r);
      ReadsNextField(s, f.key, v + after, Settled(f.value), w, more, SettledFields(f.rest), r, after);
    }
  }

  /**
    Whatever the spaces in it, and whatever keys repeat, the text of a value is read as that value with
    the last of each key's values: canonical text is one text of many that a value can be read from.
   */
  lemma AnyTextIsRead(v: Json, w: string)
    requires Blank(w)
    ensures Loads(w + Spaced(v, w) + w) == Some(Settled(v))
  {
    SpacedBegins(v, w);
    assert w + Spaced(v, w) + w == w + (Spaced(v, w) + w);
    BlankIsSkipped(w, Spaced(v, w) + w);
    if w != [] { assert w[0] in " \t\n\r"; }
    SpacedBack(v, w, w);
    BlankIsSkipped(w, []);
    assert w + [] == w;
  }
}
