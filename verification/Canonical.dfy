/**
  Canonical JSON: every dictionary sorted by key, no spaces. The text is one per value whatever the
  order its keys were set in, and survives being parsed and printed again.
 */
module Canonical {
  import opened Json
  import opened Strings

  // ---------------------------------------------------------------- sorting

  function Insert(key: string, v: Json, f: Fields): Fields {
    match f
    case NoFields => Field(key, v, NoFields)
    case Field(k, w, rest) => if Earlier(k, key) then Field(k, w, Insert(key, v, rest)) else Field(key, v, f)
  }

  function SortFields(f: Fields): Fields {
    match f
    case NoFields => NoFields
    case Field(k, v, rest) => Insert(k, v, SortFields(rest))
  }

  /** The value with every dictionary in order of its keys. */
  function Norm(v: Json): Json
    decreases v
  {
    match v
    case Text(_) => v
    case Number(_) => v
    case List(items) => List(NormItems(items))
    case Dict(fields) => Dict(SortFields(NormFields(fields)))
  }

  function NormItems(items: Items): Items
    decreases items
  {
    match items
    case NoItems => NoItems
    case Item(v, rest) => Item(Norm(v), NormItems(rest))
  }

  function NormFields(f: Fields): Fields
    decreases f
  {
    match f
    case NoFields => NoFields
    case Field(k, v, rest) => Field(k, Norm(v), NormFields(rest))
  }

  /** `canonical` */
  function Canon(v: Json): string { Print(Norm(v)) }

  // ---------------------------------------------------------------- dictionaries as lookups

  ghost predicate Distinct(f: Fields) { f.NoFields? || (!Has(f.rest, f.key) && Distinct(f.rest)) }

  ghost predicate Ascending(f: Fields) {
    f.NoFields? || ((f.rest.Field? ==> Earlier(f.key, f.rest.key)) && Ascending(f.rest))
  }

  lemma {:induction false} FirstIsEarliest(f: Fields, key: string)
    requires f.Field? && Ascending(f) && Has(f.rest, key)
    ensures Earlier(f.key, key) && key != f.key
  {
    if f.rest.key != key {
      FirstIsEarliest(f.rest, key);
      EarlierIsTransitive(f.key, f.rest.key, key);
    }
    EarlierIsStrict(f.key);
  }

  lemma {:induction false} AscendingIsDistinct(f: Fields)
    requires Ascending(f)
    ensures Distinct(f)
  {
    if f.Field? {
      AscendingIsDistinct(f.rest);
      if Has(f.rest, f.key) { FirstIsEarliest(f, f.key); }
    }
  }

  lemma FirstIsFound(f: Fields)
    ensures f.Field? ==> Lookup(f, f.key).Some?
  {}

  lemma EmptyIsUnique(f: Fields, g: Fields)
    requires f.NoFields? && forall k: string :: Lookup(f, k) == Lookup(g, k)
    ensures g.NoFields?
  {
    var k := if g.Field? then g.key else "";
    assert Lookup(f, k) == Lookup(g, k);
    FirstIsFound(g);
  }

  /** Sorted fields are determined by what is looked up in them. */
  lemma {:induction false} AscendingIsUnique(f: Fields, g: Fields)
    requires Ascending(f) && Ascending(g) && forall k: string :: Lookup(f, k) == Lookup(g, k)
    ensures f == g
  {
    if f.NoFields? {
      EmptyIsUnique(f, g);
    } else {
      LookupHas(g, f.key);
      LookupHas(f, f.key);
      LookupHas(f, g.key);
      LookupHas(g, g.key);
      assert Lookup(f, f.key) == Lookup(g, f.key) && Lookup(f, g.key) == Lookup(g, g.key);
      if f.key != g.key {
        FirstIsEarliest(g, f.key);
        FirstIsEarliest(f, g.key);
        EarlierIsTransitive(f.key, g.key, f.key);
        EarlierIsStrict(f.key);
        assert false;
      }
      assert f.value == g.value;
      forall k: string ensures Lookup(f.rest, k) == Lookup(g.rest, k) { RestLookup(f, k); RestLookup(g, k); }
      AscendingIsUnique(f.rest, g.rest);
    }
  }

  lemma RestLookup(f: Fields, k: string)
    requires f.Field? && Ascending(f)
    ensures Lookup(f.rest, k) == if k == f.key then None else Lookup(f, k)
  {
    AscendingIsDistinct(f);
    LookupHas(f.rest, k);
  }

  lemma {:induction false} LookupInsert(key: string, v: Json, f: Fields, k: string)
    requires !Has(f, key)
    ensures Lookup(Insert(key, v, f), k) == if k == key then Some(v) else Lookup(f, k)
  {
    LookupHas(f, key);
    if f.Field? { LookupInsert(key, v, f.rest, k); }
  }

  lemma HasInsert(key: string, v: Json, f: Fields, k: string)
    ensures Has(Insert(key, v, f), k) <==> k == key || Has(f, k)
  {}

  lemma {:induction false} HasSort(f: Fields, k: string)
    ensures Has(SortFields(f), k) <==> Has(f, k)
  {
    if f.Field? {
      HasSort(f.rest, k);
      HasInsert(f.key, f.value, SortFields(f.rest), k);
    }
  }

  lemma {:induction false} InsertAscends(key: string, v: Json, f: Fields)
    requires Ascending(f) && !Has(f, key)
    ensures Ascending(Insert(key, v, f))
  {
    if f.Field? {
      if Earlier(f.key, key) {
        InsertAscends(key, v, f.rest);
      } else {
        EarlierIsTotal(f.key, key);
      }
    }
  }

  lemma {:induction false} SortAscends(f: Fields)
    requires Distinct(f)
    ensures Ascending(SortFields(f))
  {
    if f.Field? {
      SortAscends(f.rest);
      HasSort(f.rest, f.key);
      InsertAscends(f.key, f.value, SortFields(f.rest));
    }
  }

  lemma {:induction false} LookupSort(f: Fields, k: string)
    requires Distinct(f)
    ensures Lookup(SortFields(f), k) == Lookup(f, k)
  {
    if f.Field? {
      LookupSort(f.rest, k);
      HasSort(f.rest, f.key);
      LookupInsert(f.key, f.value, SortFields(f.rest), k);
    }
  }

  lemma {:induction false} LookupRemove(f: Fields, key: string, k: string)
    ensures Lookup(Remove(f, key), k) == if k == key then None else Lookup(f, k)
  {
    if f.Field? { LookupRemove(f.rest, key, k); }
  }

  lemma {:induction false} RemoveAscends(f: Fields, key: string)
    requires Ascending(f)
    ensures Ascending(Remove(f, key))
  {
    if f.Field? {
      RemoveAscends(f.rest, key);
      var rest := Remove(f.rest, key);
      if f.key != key && rest.Field? {
        LookupRemove(f.rest, key, rest.key);
        LookupHas(f.rest, rest.key);
        LookupHas(rest, rest.key);
        FirstIsEarliest(f, rest.key);
      }
    }
  }

  lemma {:induction false} HasNorm(f: Fields, k: string)
    ensures Has(NormFields(f), k) <==> Has(f, k)
    decreases f
  {
    if f.Field? { HasNorm(f.rest, k); }
  }

  lemma {:induction false} DistinctNorm(f: Fields)
    requires Distinct(f)
    ensures Distinct(NormFields(f))
    decreases f
  {
    if f.Field? {
      DistinctNorm(f.rest);
      HasNorm(f.rest, f.key);
    }
  }

  lemma {:induction false} LookupNorm(f: Fields, k: string)
    ensures Lookup(NormFields(f), k) == match Lookup(f, k) case None => None case Some(v) => Some(Norm(v))
    decreases f
  {
    if f.Field? { LookupNorm(f.rest, k); }
  }

  /** What is looked up after canonicalisation. */
  lemma LookupCanon(f: Fields, k: string)
    requires Distinct(f)
    ensures Lookup(SortFields(NormFields(f)), k) == match Lookup(f, k) case None => None case Some(v) => Some(Norm(v))
  {
    DistinctNorm(f);
    LookupSort(NormFields(f), k);
    LookupNorm(f, k);
  }

  // ---------------------------------------------------------------- normal values

  ghost predicate Normal(v: Json)
    decreases v
  {
    match v
    case Text(_) => true
    case Number(_) => true
    case List(items) => NormalItems(items)
    case Dict(fields) => Ascending(fields) && NormalFields(fields)
  }

  ghost predicate NormalItems(items: Items)
    decreases items
  {
    items.NoItems? || (Normal(items.head) && NormalItems(items.tail))
  }

  ghost predicate NormalFields(f: Fields)
    decreases f
  {
    f.NoFields? || (Normal(f.value) && NormalFields(f.rest))
  }

  lemma {:induction false} ProperIsDistinct(f: Fields)
    requires ProperFields(f)
    ensures Distinct(f)
  {
    if f.Field? { ProperIsDistinct(f.rest); }
  }

  lemma {:induction false} SortOfSorted(f: Fields)
    requires Ascending(f)
    ensures SortFields(f) == f
  {
    if f.Field? {
      SortOfSorted(f.rest);
      if f.rest.Field? {
        if Earlier(f.rest.key, f.key) {
          EarlierIsTransitive(f.key, f.rest.key, f.key);
          EarlierIsStrict(f.key);
          assert false;
        }
      }
    }
  }

  /** A normal value is its own normal form. */
  lemma {:induction false} NormalIsFixed(v: Json)
    requires Normal(v)
    ensures Norm(v) == v
    decreases v
  {
    match v
    case Text(_) =>
    case Number(_) =>
    case List(items) => NormalItemsFixed(items);
    case Dict(fields) =>
      NormalFieldsFixed(fields);
      SortOfSorted(fields);
  }

  lemma {:induction false} NormalItemsFixed(items: Items)
    requires NormalItems(items)
    ensures NormItems(items) == items
    decreases items
  {
    if items.Item? {
      NormalIsFixed(items.head);
      NormalItemsFixed(items.tail);
    }
  }

  lemma {:induction false} NormalFieldsFixed(f: Fields)
    requires NormalFields(f)
    ensures NormFields(f) == f
    decreases f
  {
    if f.Field? {
      NormalIsFixed(f.value);
      NormalFieldsFixed(f.rest);
    }
  }

  lemma {:induction false} InsertKeepsNormal(key: string, v: Json, f: Fields)
    requires Normal(v) && NormalFields(f)
    ensures NormalFields(Insert(key, v, f))
  {
    if f.Field? { InsertKeepsNormal(key, v, f.rest); }
  }

  lemma {:induction false} SortKeepsNormal(f: Fields)
    requires NormalFields(f)
    ensures NormalFields(SortFields(f))
  {
    if f.Field? {
      SortKeepsNormal(f.rest);
      InsertKeepsNormal(f.key, f.value, SortFields(f.rest));
    }
  }

  lemma {:induction false} RemoveKeepsNormal(f: Fields, key: string)
    requires NormalFields(f)
    ensures NormalFields(Remove(f, key))
  {
    if f.Field? { RemoveKeepsNormal(f.rest, key); }
  }

  lemma {:induction false} NormIsNormal(v: Json)
    requires Proper(v)
    ensures Normal(Norm(v))
    decreases v
  {
    match v
    case Text(_) =>
    case Number(_) =>
    case List(items) => NormItemsAreNormal(items);
    case Dict(fields) =>
      NormFieldsAreNormal(fields);
      SortKeepsNormal(NormFields(fields));
      ProperIsDistinct(fields);
      DistinctNorm(fields);
      SortAscends(NormFields(fields));
  }

  lemma {:induction false} NormItemsAreNormal(items: Items)
    requires ProperItems(items)
    ensures NormalItems(NormItems(items))
    decreases items
  {
    if items.Item? {
      NormIsNormal(items.head);
      NormItemsAreNormal(items.tail);
    }
  }

  lemma {:induction false} NormFieldsAreNormal(f: Fields)
    requires ProperFields(f)
    ensures NormalFields(NormFields(f))
    decreases f
  {
    if f.Field? {
      NormIsNormal(f.value);
      NormFieldsAreNormal(f.rest);
    }
  }

  lemma {:induction false} NormalIsProper(v: Json)
    requires Normal(v)
    ensures Proper(v)
    decreases v
  {
    match v
    case Text(_) =>
    case Number(_) =>
    case List(items) => NormalItemsProper(items);
    case Dict(fields) =>
      AscendingIsDistinct(fields);
      NormalFieldsProper(fields);
  }

  lemma {:induction false} NormalItemsProper(items: Items)
    requires NormalItems(items)
    ensures ProperItems(items)
    decreases items
  {
    if items.Item? {
      NormalIsProper(items.head);
      NormalItemsProper(items.tail);
    }
  }

  lemma {:induction false} NormalFieldsProper(f: Fields)
    requires NormalFields(f) && Distinct(f)
    ensures ProperFields(f)
    decreases f
  {
    if f.Field? {
      NormalIsProper(f.value);
      NormalFieldsProper(f.rest);
    }
  }

  // ---------------------------------------------------------------- canonical text

  /** Canonical text is read back as the normal form, whose canonical text it is. */
  lemma CanonIsStable(v: Json)
    requires Proper(v)
    ensures Loads(Canon(v)) == Some(Norm(v))
    ensures Canon(Norm(v)) == Canon(v)
    ensures Normal(Norm(v)) && Proper(Norm(v))
  {
    NormIsNormal(v);
    NormalIsProper(Norm(v));
    LoadsBack(Norm(v));
    NormalIsFixed(Norm(v));
  }

  /** Two values have the same canonical text exactly when they differ in the order of keys alone. */
  lemma CanonIsInjective(v: Json, w: Json)
    requires Proper(v) && Proper(w)
    ensures Canon(v) == Canon(w) <==> Norm(v) == Norm(w)
  {
    CanonIsStable(v);
    CanonIsStable(w);
  }

  /** The order in which the keys of a dictionary were set does not matter. */
  lemma CanonIgnoresKeyOrder(f: Fields, g: Fields)
    requires ProperFields(f) && ProperFields(g) && forall k: string :: Lookup(f, k) == Lookup(g, k)
    ensures Canon(Dict(f)) == Canon(Dict(g))
  {
    ProperIsDistinct(f);
    ProperIsDistinct(g);
    DistinctNorm(f);
    DistinctNorm(g);
    SortAscends(NormFields(f));
    SortAscends(NormFields(g));
    forall k: string ensures Lookup(SortFields(NormFields(f)), k) == Lookup(SortFields(NormFields(g)), k) {
      LookupCanon(f, k);
      LookupCanon(g, k);
      assert Lookup(f, k) == Lookup(g, k);
    }
    AscendingIsUnique(SortFields(NormFields(f)), SortFields(NormFields(g)));
  }

  /**
    Taking a key out of a dictionary that was parsed from canonical text leaves the canonical form of
    the dictionary without it.
   */
  lemma RemoveFromCanon(f: Fields, g: Fields, key: string)
    requires ProperFields(f) && ProperFields(g)
    requires forall k: string :: Lookup(g, k) == if k == key then None else Lookup(f, k)
    ensures Remove(SortFields(NormFields(f)), key) == SortFields(NormFields(g))
    ensures Norm(Dict(Remove(SortFields(NormFields(f)), key))) == Norm(Dict(g))
  {
    var sorted := SortFields(NormFields(f));
    ProperIsDistinct(f);
    ProperIsDistinct(g);
    DistinctNorm(f);
    DistinctNorm(g);
    SortAscends(NormFields(f));
    SortAscends(NormFields(g));
    RemoveAscends(sorted, key);
    forall k: string ensures Lookup(Remove(sorted, key), k) == Lookup(SortFields(NormFields(g)), k) {
      LookupRemove(sorted, key, k);
      LookupCanon(f, k);
      LookupCanon(g, k);
      assert Lookup(g, k) == if k == key then None else Lookup(f, k);
    }
    AscendingIsUnique(Remove(sorted, key), SortFields(NormFields(g)));
    NormIsNormal(Dict(g));
    NormalIsFixed(Norm(Dict(g)));
  }

  // ---------------------------------------------------------------- length

  lemma {:induction false} InsertLength(key: string, v: Json, f: Fields)
    ensures |PrintFields(Insert(key, v, f))| ==
            |Quote(key)| + 1 + |Print(v)| + (if f.Field? then 1 + |PrintFields(f)| else 0)
  {
    if f.Field? && Earlier(f.key, key) {
      InsertLength(key, v, f.rest);
      assert Insert(key, v, f.rest).Field?;
    }
  }

  lemma {:induction false} SortLength(f: Fields)
    ensures |PrintFields(SortFields(f))| == |PrintFields(f)|
    ensures SortFields(f).Field? <==> f.Field?
  {
    if f.Field? {
      SortLength(f.rest);
      InsertLength(f.key, f.value, SortFields(f.rest));
    }
  }

  /** Sorting the keys does not change how long the text is. */
  lemma {:induction false} CanonLength(v: Json)
    ensures |Canon(v)| == |Print(v)|
    decreases v
  {
    match v
    case Text(_) =>
    case Number(_) =>
    case List(items) => ItemsLength(items);
    case Dict(fields) =>
      FieldsLength(fields);
      SortLength(NormFields(fields));
  }

  lemma {:induction false} ItemsLength(items: Items)
    ensures |PrintItems(NormItems(items))| == |PrintItems(items)|
    decreases items
  {
    if items.Item? {
      CanonLength(items.head);
      ItemsLength(items.tail);
    }
  }

  lemma {:induction false} FieldsLength(f: Fields)
    ensures |PrintFields(NormFields(f))| == |PrintFields(f)|
    decreases f
  {
    if f.Field? {
      CanonLength(f.value);
      FieldsLength(f.rest);
    }
  }
}
