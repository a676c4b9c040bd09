/**
 The JSON canonicaliser of the schema fixtures. Two fixtures get the same canonical form exactly when they
 differ by object key order and by the order of arrays (at any depth) whose items all have a sort key.
 */
module Canonicalize {
  import opened Prelude
  import opened Json
  import JsonText
  import opened Sorting

  function TextField(entries: seq<Entry>, key: string): Option<string> {
    match Lookup(entries, key)
    case Some(String(s)) => Some(s)
    case _ => None
  }

  /** `schema_array_item_sort_key`. */
  function SortKey(item: Value): Option<string> {
    match item
    case Null => Some("null")
    case Bool(b) => Some(if b then "b:true" else "b:false")
    case Number(text) => Some("n:" + text)
    case String(s) => Some("s:" + s)
    case Object(entries) =>
      var reference, title := TextField(entries, "$ref"), TextField(entries, "title");
      if reference.Some? then Some("ref:" + reference.value)
      else if title.Some? then Some("title:" + title.value)
      else None
    case Array(_) => None
  }

  predicate Sortable(items: seq<Value>) {
    forall i | 0 <= i < |items| :: SortKey(items[i]).Some?
  }

  function ItemRank(item: Value): Rank {
    var key := SortKey(item);
    Rank(if key.Some? then key.value else "", JsonText.Print(item))
  }

  function EntryRank(e: Entry): Rank {
    Rank(e.key, "")
  }

  /** `canonicalize_json`. */
  function Canonical(v: Value): Value
    decreases v
  {
    match v
    case Array(items) =>
      var canonical := CanonicalItems(items);
      Array(if Sortable(canonical) then Sort(canonical, ItemRank) else canonical)
    case Object(entries) => Object(Sort(CanonicalEntries(entries), EntryRank))
    case _ => v
  }

  function CanonicalItems(items: seq<Value>): seq<Value>
    decreases items
  {
    seq(|items|, i requires 0 <= i < |items| => Canonical(items[i]))
  }

  function CanonicalEntries(entries: seq<Entry>): seq<Entry>
    decreases entries
  {
    seq(|entries|, i requires 0 <= i < |entries| => Entry(entries[i].key, Canonical(entries[i].value)))
  }

  function Without<T>(xs: seq<T>, k: nat): (r: seq<T>)
    requires k < |xs|
    ensures multiset(xs) == multiset{xs[k]} + multiset(r)
  {
    assert xs == xs[..k] + [xs[k]] + xs[k + 1..];
    xs[..k] + xs[k + 1..]
  }

  /** The independent reading of "same schema": no sorting, no printing. */
  ghost predicate Equivalent(a: Value, b: Value)
    decreases a, 0
  {
    match (a, b)
    case (Array(xs), Array(ys)) =>
      || (|xs| == |ys| && forall i | 0 <= i < |xs| :: Equivalent(xs[i], ys[i]))
      || (Sortable(xs) && EquivalentUpToOrder(xs, ys))
    case (Object(xs), Object(ys)) =>
      && (forall i | 0 <= i < |xs| ::
           Lookup(ys, xs[i].key).Some? && Equivalent(xs[i].value, Lookup(ys, xs[i].key).value))
      && (forall j | 0 <= j < |ys| :: Lookup(xs, ys[j].key).Some?)
    case _ => a == b
  }

  /** `ys` can be rearranged so that it matches `xs` item by item. */
  ghost predicate EquivalentUpToOrder(xs: seq<Value>, ys: seq<Value>)
    decreases xs, 1
  {
    if xs == [] then ys == []
    else exists k :: 0 <= k < |ys| && Equivalent(xs[0], ys[k]) && EquivalentUpToOrder(xs[1..], Without(ys, k))
  }

  lemma LookupCarries(xs: seq<Entry>, ys: seq<Entry>, key: string)
    requires DistinctKeys(ys) && multiset(xs) == multiset(ys) && Lookup(xs, key).Some?
    ensures Lookup(ys, key) == Lookup(xs, key)
  {
    LookupEntry(xs, key);
    var i :| 0 <= i < |xs| && xs[i] == Entry(key, Lookup(xs, key).value);
    InMultiset(xs[i], xs);
    InMultiset(xs[i], ys);
    var j :| 0 <= j < |ys| && ys[j] == xs[i];
    LookupAt(ys, j);
  }

  lemma {:induction false} InsertDistinct(x: Entry, xs: seq<Entry>)
    requires DistinctKeys(xs) && forall i | 0 <= i < |xs| :: xs[i].key != x.key
    ensures DistinctKeys(Sorting.Insert(x, xs, EntryRank))
  {
    if xs == [] || AtMost(EntryRank(x), EntryRank(xs[0])) {
    } else {
      InsertDistinct(x, xs[1..]);
      var rest := Sorting.Insert(x, xs[1..], EntryRank);
      forall j | 0 <= j < |rest| ensures rest[j].key != xs[0].key {
        InMultiset(rest[j], rest);
        InMultiset(rest[j], xs[1..]);
      }
    }
  }

  lemma {:induction false} SortDistinct(xs: seq<Entry>)
    requires DistinctKeys(xs)
    ensures DistinctKeys(Sort(xs, EntryRank))
  {
    if xs == [] {
    } else {
      SortDistinct(xs[1..]);
      var rest := Sort(xs[1..], EntryRank);
      forall j | 0 <= j < |rest| ensures rest[j].key != xs[0].key {
        InMultiset(rest[j], rest);
        InMultiset(rest[j], xs[1..]);
      }
      InsertDistinct(xs[0], rest);
    }
  }

  lemma SortWellFormedItems(xs: seq<Value>)
    requires forall i | 0 <= i < |xs| :: WellFormed(xs[i])
    ensures forall i | 0 <= i < |xs| :: WellFormed(Sort(xs, ItemRank)[i])
  {
    SortMembers(xs, ItemRank);
    forall i | 0 <= i < |xs| ensures WellFormed(Sort(xs, ItemRank)[i]) {
      assert Sort(xs, ItemRank)[i] in xs;
    }
  }

  lemma SortWellFormedEntries(xs: seq<Entry>)
    requires forall i | 0 <= i < |xs| :: WellFormed(xs[i].value)
    ensures forall i | 0 <= i < |xs| :: WellFormed(Sort(xs, EntryRank)[i].value)
  {
    SortMembers(xs, EntryRank);
    forall i | 0 <= i < |xs| ensures WellFormed(Sort(xs, EntryRank)[i].value) {
      assert Sort(xs, EntryRank)[i] in xs;
    }
  }

  lemma {:induction false} CanonicalWellFormed(v: Value)
    requires WellFormed(v)
    ensures WellFormed(Canonical(v))
    decreases v
  {
    match v
    case Array(items) =>
      forall i | 0 <= i < |items| ensures WellFormed(CanonicalItems(items)[i]) { CanonicalWellFormed(items[i]); }
      SortWellFormedItems(CanonicalItems(items));
    case Object(entries) =>
      forall i | 0 <= i < |entries|
        ensures WellFormed(CanonicalEntries(entries)[i].value)
      {
        CanonicalWellFormed(entries[i].value);
      }
      SortWellFormedEntries(CanonicalEntries(entries));
      SortDistinct(CanonicalEntries(entries));
    case _ =>
  }

  function MapCanonical(v: Option<Value>): Option<Value> {
    match v case None => None case Some(x) => Some(Canonical(x))
  }

  lemma {:induction false} LookupCanonicalEntries(entries: seq<Entry>, key: string)
    ensures Lookup(CanonicalEntries(entries), key) == MapCanonical(Lookup(entries, key))
  {
    if entries == [] {
    } else {
      LookupCanonicalEntries(entries[1..], key);
      assert CanonicalEntries(entries)[1..] == CanonicalEntries(entries[1..]);
    }
  }

  lemma CanonicalLookup(entries: seq<Entry>, key: string)
    requires DistinctKeys(entries)
    ensures Lookup(Sort(CanonicalEntries(entries), EntryRank), key) == MapCanonical(Lookup(entries, key))
  {
    var canonical := CanonicalEntries(entries);
    var sorted := Sort(canonical, EntryRank);
    LookupCanonicalEntries(entries, key);
    SortDistinct(canonical);
    if Lookup(sorted, key).Some? { LookupCarries(sorted, canonical, key); }
    if Lookup(canonical, key).Some? { LookupCarries(canonical, sorted, key); }
  }

  lemma TextFieldInvariant(entries: seq<Entry>, key: string)
    requires DistinctKeys(entries)
    ensures TextField(Sort(CanonicalEntries(entries), EntryRank), key) == TextField(entries, key)
  {
    CanonicalLookup(entries, key);
  }

  /** Canonicalising an item never changes the key it sorts by. */
  lemma SortKeyInvariant(v: Value)
    requires WellFormed(v)
    ensures SortKey(Canonical(v)) == SortKey(v)
  {
    if v.Object? {
      TextFieldInvariant(v.entries, "$ref");
      TextFieldInvariant(v.entries, "title");
    }
  }

  lemma ItemRankDistinguishes(items: seq<Value>)
    requires forall i | 0 <= i < |items| :: WellFormed(items[i])
    ensures Distinguishes(items, ItemRank)
  {
    forall x, y | x in items && y in items && ItemRank(x) == ItemRank(y) ensures x == y {
      JsonText.PrintInjective(x, y);
    }
  }

  lemma EntryRankDistinguishes(entries: seq<Entry>)
    requires DistinctKeys(entries)
    ensures Distinguishes(entries, EntryRank)
  {
  }

  /** Two arrays canonicalise alike iff they do item by item, or are sortable and do as multisets. */
  lemma ArraysCanonicalAlike(xs: seq<Value>, ys: seq<Value>)
    requires WellFormed(Array(xs)) && WellFormed(Array(ys))
    ensures Canonical(Array(xs)) == Canonical(Array(ys)) <==>
      || CanonicalItems(xs) == CanonicalItems(ys)
      || (Sortable(xs) && multiset(CanonicalItems(xs)) == multiset(CanonicalItems(ys)))
  {
    var cx, cy := CanonicalItems(xs), CanonicalItems(ys);
    CanonicalItemsSortable(xs);
    ItemRankDistinguishes(cx);
    SortCanonical(cx, cy, ItemRank);
    SameMembersSameSortability(cx, cy);
    SameMembersSameSortability(Sort(cx, ItemRank), cy);
    SameMembersSameSortability(cx, Sort(cy, ItemRank));
  }

  lemma CanonicalItemsSortable(items: seq<Value>)
    requires WellFormed(Array(items))
    ensures Sortable(items) == Sortable(CanonicalItems(items))
    ensures forall i | 0 <= i < |items| :: WellFormed(CanonicalItems(items)[i])
  {
    forall i | 0 <= i < |items|
      ensures SortKey(CanonicalItems(items)[i]) == SortKey(items[i]) && WellFormed(CanonicalItems(items)[i])
    {
      SortKeyInvariant(items[i]);
      CanonicalWellFormed(items[i]);
    }
  }

  lemma SameMembersSameSortability(xs: seq<Value>, ys: seq<Value>)
    ensures multiset(xs) == multiset(ys) ==> Sortable(xs) == Sortable(ys)
  {
    if multiset(xs) == multiset(ys) {
      forall x ensures x in xs <==> x in ys {
        InMultiset(x, xs);
        InMultiset(x, ys);
      }
      assert Sortable(xs) <==> forall x | x in xs :: SortKey(x).Some?;
      assert Sortable(ys) <==> forall x | x in ys :: SortKey(x).Some?;
    }
  }

  lemma {:induction false} DistinctEntriesAsMultiset(xs: seq<Entry>, e: Entry)
    requires DistinctKeys(xs)
    ensures multiset(xs)[e] == if e in xs then 1 else 0
  {
    if xs == [] {
    } else {
      DistinctEntriesAsMultiset(xs[1..], e);
      assert xs == [xs[0]] + xs[1..];
    }
  }

  /** The two objects bind the same keys, to values that canonicalise alike. */
  ghost predicate CanonicalBindings(xs: seq<Entry>, ys: seq<Entry>) {
    && (forall i | 0 <= i < |xs| :: MapCanonical(Lookup(ys, xs[i].key)) == Some(Canonical(xs[i].value)))
    && (forall j | 0 <= j < |ys| :: Lookup(xs, ys[j].key).Some?)
  }

  lemma ObjectsCanonicalAlike(xs: seq<Entry>, ys: seq<Entry>)
    requires WellFormed(Object(xs)) && WellFormed(Object(ys))
    ensures Canonical(Object(xs)) == Canonical(Object(ys)) <==> CanonicalBindings(xs, ys)
  {
    var cx, cy := CanonicalEntries(xs), CanonicalEntries(ys);
    EntryRankDistinguishes(cx);
    SortCanonical(cx, cy, EntryRank);
    if multiset(cx) == multiset(cy) { SameEntriesSameBindings(xs, ys); }
    if CanonicalBindings(xs, ys) { SameBindingsSameEntries(xs, ys); }
  }

  lemma SameEntriesSameBindings(xs: seq<Entry>, ys: seq<Entry>)
    requires DistinctKeys(xs) && DistinctKeys(ys) && multiset(CanonicalEntries(xs)) == multiset(CanonicalEntries(ys))
    ensures CanonicalBindings(xs, ys)
  {
    var cx, cy := CanonicalEntries(xs), CanonicalEntries(ys);
    forall i | 0 <= i < |xs| ensures MapCanonical(Lookup(ys, xs[i].key)) == Some(Canonical(xs[i].value)) {
      LookupAt(cx, i);
      LookupCarries(cx, cy, xs[i].key);
      LookupCanonicalEntries(ys, xs[i].key);
    }
    forall j | 0 <= j < |ys| ensures Lookup(xs, ys[j].key).Some? {
      LookupAt(cy, j);
      LookupCarries(cy, cx, ys[j].key);
      LookupCanonicalEntries(xs, ys[j].key);
    }
  }

  lemma SameBindingsSameEntries(xs: seq<Entry>, ys: seq<Entry>)
    requires DistinctKeys(xs) && DistinctKeys(ys) && CanonicalBindings(xs, ys)
    ensures multiset(CanonicalEntries(xs)) == multiset(CanonicalEntries(ys))
  {
    var cx, cy := CanonicalEntries(xs), CanonicalEntries(ys);
    forall e ensures multiset(cx)[e] == multiset(cy)[e] {
      SameEntry(xs, ys, e);
      DistinctEntriesAsMultiset(cx, e);
      DistinctEntriesAsMultiset(cy, e);
    }
  }

  lemma SameEntry(xs: seq<Entry>, ys: seq<Entry>, e: Entry)
    requires DistinctKeys(xs) && DistinctKeys(ys) && CanonicalBindings(xs, ys)
    ensures e in CanonicalEntries(xs) <==> e in CanonicalEntries(ys)
  {
    if e in CanonicalEntries(xs) {
      var i :| 0 <= i < |xs| && CanonicalEntries(xs)[i] == e;
      LookupEntry(ys, xs[i].key);
      var j :| 0 <= j < |ys| && ys[j] == Entry(xs[i].key, Lookup(ys, xs[i].key).value);
      assert CanonicalEntries(ys)[j] == e;
    }
    if e in CanonicalEntries(ys) {
      var j :| 0 <= j < |ys| && CanonicalEntries(ys)[j] == e;
      LookupEntry(xs, ys[j].key);
      var i :| 0 <= i < |xs| && xs[i] == Entry(ys[j].key, Lookup(xs, ys[j].key).value);
      LookupAt(ys, j);
      assert CanonicalEntries(xs)[i] == e;
    }
  }

  /** The main result: the canonical form is a complete invariant of "same schema up to order". */
  lemma {:induction false} CanonicalIffEquivalent(a: Value, b: Value)
    requires WellFormed(a) && WellFormed(b)
    ensures Canonical(a) == Canonical(b) <==> Equivalent(a, b)
    decreases a, 0
  {
    if a.Array? && b.Array? {
      ArraysIffEquivalent(a.items, b.items);
    } else if a.Object? && b.Object? {
      ObjectsCanonicalAlike(a.entries, b.entries);
      ObjectsIffEquivalent(a.entries, b.entries);
    }
  }

  lemma {:induction false} ArraysIffEquivalent(xs: seq<Value>, ys: seq<Value>)
    requires WellFormed(Array(xs)) && WellFormed(Array(ys))
    ensures Canonical(Array(xs)) == Canonical(Array(ys)) <==> Equivalent(Array(xs), Array(ys))
    decreases xs, 2
  {
    ArraysCanonicalAlike(xs, ys);
    MultisetsIffUpToOrder(xs, ys);
    var cx, cy := CanonicalItems(xs), CanonicalItems(ys);
    if |xs| == |ys| {
      forall i | 0 <= i < |xs| ensures cx[i] == cy[i] <==> Equivalent(xs[i], ys[i]) {
        CanonicalIffEquivalent(xs[i], ys[i]);
      }
    } else {
      assert |cx| != |cy|;
    }
  }

  lemma {:induction false} ObjectsIffEquivalent(xs: seq<Entry>, ys: seq<Entry>)
    requires WellFormed(Object(xs)) && WellFormed(Object(ys))
    ensures CanonicalBindings(xs, ys) <==> Equivalent(Object(xs), Object(ys))
    decreases xs, 2
  {
    forall i | 0 <= i < |xs|
      ensures MapCanonical(Lookup(ys, xs[i].key)) == Some(Canonical(xs[i].value)) <==>
        Lookup(ys, xs[i].key).Some? && Equivalent(xs[i].value, Lookup(ys, xs[i].key).value)
    {
      var other := Lookup(ys, xs[i].key);
      LookupEntry(ys, xs[i].key);
      if other.Some? { CanonicalIffEquivalent(xs[i].value, other.value); }
    }
  }

  lemma {:induction false} MultisetsIffUpToOrder(xs: seq<Value>, ys: seq<Value>)
    requires forall i | 0 <= i < |xs| :: WellFormed(xs[i])
    requires forall i | 0 <= i < |ys| :: WellFormed(ys[i])
    ensures multiset(CanonicalItems(xs)) == multiset(CanonicalItems(ys)) <==> EquivalentUpToOrder(xs, ys)
    decreases xs, 1
  {
    var cx, cy := CanonicalItems(xs), CanonicalItems(ys);
    if xs == [] {
      assert |multiset(cy)| == |ys|;
    } else {
      forall k | 0 <= k < |ys|
        ensures (cx[0] == cy[k] && multiset(cx) == multiset(cy)) <==>
          (Equivalent(xs[0], ys[k]) && EquivalentUpToOrder(xs[1..], Without(ys, k)))
      {
        CanonicalIffEquivalent(xs[0], ys[k]);
        MultisetsIffUpToOrder(xs[1..], Without(ys, k));
        MatchHead(xs, ys, k);
      }
      if multiset(cx) == multiset(cy) {
        InMultiset(cx[0], cx);
        InMultiset(cx[0], cy);
      }
    }
  }

  lemma SameRemainder(p: multiset<Value>, q: multiset<Value>, p': multiset<Value>, q': multiset<Value>, x: Value)
    requires p == multiset{x} + p'
    ensures q == multiset{x} + q' ==> (p == q <==> p' == q')
  {
    assert p' == p - multiset{x};
    if q == multiset{x} + q' { assert q' == q - multiset{x}; }
  }

  lemma MatchHead(xs: seq<Value>, ys: seq<Value>, k: nat)
    requires xs != [] && k < |ys|
    ensures var cx, cy := CanonicalItems(xs), CanonicalItems(ys);
      cx[0] == cy[k] ==>
        (multiset(cx) == multiset(cy) <==>
          multiset(CanonicalItems(xs[1..])) == multiset(CanonicalItems(Without(ys, k))))
  {
    var cx, cy := CanonicalItems(xs), CanonicalItems(ys);
    assert CanonicalItems(Without(ys, k)) == Without(cy, k);
    assert CanonicalItems(xs[1..]) == Without(cx, 0);
    SameRemainder(multiset(cx), multiset(cy), multiset(Without(cx, 0)), multiset(Without(cy, k)), cx[0]);
  }

  lemma SortedItemsCanonical(items: seq<Value>)
    requires WellFormed(Array(items)) && CanonicalItems(CanonicalItems(items)) == CanonicalItems(items)
    ensures Canonical(Canonical(Array(items))) == Canonical(Array(items))
  {
    var canonical := CanonicalItems(items);
    CanonicalItemsSortable(items);
    if Sortable(canonical) {
      var result := Sort(canonical, ItemRank);
      assert CanonicalItems(result) == result by { FixedMembers(canonical, result); }
      SameMembersSameSortability(result, canonical);
      ItemRankDistinguishes(canonical);
      SortCanonical(canonical, result, ItemRank);
    }
  }

  lemma FixedMembers(xs: seq<Value>, ys: seq<Value>)
    requires CanonicalItems(xs) == xs && multiset(xs) == multiset(ys)
    ensures CanonicalItems(ys) == ys
  {
    forall i | 0 <= i < |ys| ensures Canonical(ys[i]) == ys[i] {
      InMultiset(ys[i], ys);
      InMultiset(ys[i], xs);
      var k :| 0 <= k < |xs| && xs[k] == ys[i];
      assert CanonicalItems(xs)[k] == Canonical(xs[k]);
    }
  }

  lemma SortedEntriesCanonical(entries: seq<Entry>)
    requires DistinctKeys(entries) && CanonicalEntries(CanonicalEntries(entries)) == CanonicalEntries(entries)
    ensures Canonical(Canonical(Object(entries))) == Canonical(Object(entries))
  {
    var canonical := CanonicalEntries(entries);
    var result := Sort(canonical, EntryRank);
    assert CanonicalEntries(result) == result by { FixedEntries(canonical, result); }
    EntryRankDistinguishes(canonical);
    SortCanonical(canonical, result, EntryRank);
  }

  lemma FixedEntries(xs: seq<Entry>, ys: seq<Entry>)
    requires CanonicalEntries(xs) == xs && multiset(xs) == multiset(ys)
    ensures CanonicalEntries(ys) == ys
  {
    forall i | 0 <= i < |ys| ensures Canonical(ys[i].value) == ys[i].value {
      InMultiset(ys[i], ys);
      InMultiset(ys[i], xs);
      var k :| 0 <= k < |xs| && xs[k] == ys[i];
      assert CanonicalEntries(xs)[k] == Entry(xs[k].key, Canonical(xs[k].value));
    }
  }

  /** Canonicalising twice is canonicalising once. */
  lemma {:induction false} CanonicalIdempotent(v: Value)
    requires WellFormed(v)
    ensures Canonical(Canonical(v)) == Canonical(v)
    decreases v
  {
    match v
    case Array(items) =>
      forall i | 0 <= i < |items|
        ensures Canonical(Canonical(items[i])) == Canonical(items[i])
      {
        CanonicalIdempotent(items[i]);
      }
      assert CanonicalItems(CanonicalItems(items)) == CanonicalItems(items);
      SortedItemsCanonical(items);
    case Object(entries) =>
      forall i | 0 <= i < |entries|
        ensures Canonical(Canonical(entries[i].value)) == Canonical(entries[i].value)
      {
        CanonicalIdempotent(entries[i].value);
      }
      assert CanonicalEntries(CanonicalEntries(entries)) == CanonicalEntries(entries);
      SortedEntriesCanonical(entries);
    case _ =>
  }

  /** Consequences of the main result: canonicalising stays within the schema's class, which is an equivalence. */
  lemma EquivalenceClasses(a: Value, b: Value, c: Value)
    requires WellFormed(a) && WellFormed(b) && WellFormed(c)
    ensures Equivalent(a, Canonical(a)) && Equivalent(a, a)
    ensures Equivalent(a, b) ==> Equivalent(b, a)
    ensures Equivalent(a, b) && Equivalent(b, c) ==> Equivalent(a, c)
  {
    CanonicalWellFormed(a);
    CanonicalIdempotent(a);
    CanonicalIffEquivalent(a, Canonical(a));
    CanonicalIffEquivalent(a, a);
    CanonicalIffEquivalent(a, b);
    CanonicalIffEquivalent(b, a);
    CanonicalIffEquivalent(b, c);
    CanonicalIffEquivalent(a, c);
  }

  // What a canonical array looks like.

  /** What an array item is listed by, in the order of the listing. */
  datatype Tag =
    | Flag(b: bool)
    | Numeral(text: string)
    | Nothing
    | Reference(text: string)
    | Word(text: string)
    | Titled(text: string)

  /** The item goes by this tag: a `$ref` text comes before a `title`, and nothing else tags an object. */
  ghost predicate IsTagged(v: Value, tag: Tag) {
    match tag
    case Flag(b) => v == Bool(b)
    case Numeral(text) => v == Number(text)
    case Nothing => v == Null
    case Reference(text) => v.Object? && Lookup(v.entries, "$ref") == Some(String(text))
    case Word(text) => v == String(text)
    case Titled(text) =>
      && v.Object? && Lookup(v.entries, "title") == Some(String(text))
      && forall reference :: Lookup(v.entries, "$ref") != Some(String(reference))
  }

  function Place(tag: Tag): nat {
    match tag
    case Flag(_) => 0
    case Numeral(_) => 1
    case Nothing => 2
    case Reference(_) => 3
    case Word(_) => 4
    case Titled(_) => 5
  }

  /** Booleans, numbers, nulls, refs, strings, titles, and among its like each by its text, `false` before `true`. */
  predicate Before(a: Tag, b: Tag) {
    if Place(a) != Place(b) then Place(a) < Place(b)
    else match a
         case Flag(_) => a.b ==> b.b
         case Nothing => true
         case _ => TextAtMost(a.text, b.text)
  }

  lemma {:induction false} SharedPrefix(prefix: string, a: string, b: string)
    ensures TextAtMost(prefix + a, prefix + b) <==> TextAtMost(a, b)
    ensures prefix + a == prefix + b <==> a == b
  {
    if prefix == "" {
      assert prefix + a == a && prefix + b == b;
    } else {
      SharedPrefix(prefix[1..], a, b);
      assert prefix + a == [prefix[0]] + (prefix[1..] + a) && prefix + b == [prefix[0]] + (prefix[1..] + b);
    }
  }

  function KeyOf(tag: Tag): string {
    match tag
    case Flag(b) => if b then "b:true" else "b:false"
    case Numeral(text) => "n:" + text
    case Nothing => "null"
    case Reference(text) => "ref:" + text
    case Word(text) => "s:" + text
    case Titled(text) => "title:" + text
  }

  lemma TagKey(v: Value, tag: Tag)
    ensures IsTagged(v, tag) ==> SortKey(v) == Some(KeyOf(tag))
  {
  }

  lemma KeyTag(v: Value)
    ensures SortKey(v).Some? ==> exists tag :: IsTagged(v, tag)
  {
    match v
    case Null => assert IsTagged(v, Nothing);
    case Bool(b) => assert IsTagged(v, Flag(b));
    case Number(text) => assert IsTagged(v, Numeral(text));
    case String(s) => assert IsTagged(v, Word(s));
    case Object(entries) =>
      if TextField(entries, "$ref").Some? {
        assert IsTagged(v, Reference(TextField(entries, "$ref").value));
      } else if TextField(entries, "title").Some? {
        assert IsTagged(v, Titled(TextField(entries, "title").value));
      }
    case Array(_) =>
  }

  ghost predicate HasTag(v: Value) {
    exists tag :: IsTagged(v, tag)
  }

  lemma KeyedIff(v: Value)
    ensures SortKey(v).Some? <==> HasTag(v)
  {
    KeyTag(v);
    if tag :| IsTagged(v, tag) { TagKey(v, tag); }
  }

  /** An array is sorted exactly when every item has a tag. */
  lemma SortableIff(items: seq<Value>)
    ensures Sortable(items) <==> forall i | 0 <= i < |items| :: HasTag(items[i])
  {
    forall i | 0 <= i < |items|
      ensures SortKey(items[i]).Some? <==> HasTag(items[i])
    {
      KeyedIff(items[i]);
    }
  }

  function KeyPrefix(tag: Tag): string {
    match tag
    case Flag(_) => "b:"
    case Numeral(_) => "n:"
    case Nothing => "null"
    case Reference(_) => "ref:"
    case Word(_) => "s:"
    case Titled(_) => "title:"
  }

  lemma PrefixOrder(a: Tag, b: Tag)
    requires Place(a) < Place(b)
    ensures KeyOf(a) != KeyOf(b) && TextAtMost(KeyOf(a), KeyOf(b)) && !TextAtMost(KeyOf(b), KeyOf(a))
  {
    var p, q := KeyOf(a), KeyOf(b);
    assert p[0] == KeyPrefix(a)[0] && q[0] == KeyPrefix(b)[0];
    if p[0] == q[0] {
      assert p[1] == KeyPrefix(a)[1] && q[1] == KeyPrefix(b)[1];
      assert p[1] < q[1];
    }
  }

  lemma FlagKeys()
    ensures TextAtMost("b:false", "b:true") && !TextAtMost("b:true", "b:false")
  {
    var p, q := "b:false", "b:true";
    assert p[1..][0] == q[1..][0] && p[1..][1..][0] == 'f' && q[1..][1..][0] == 't';
  }

  lemma KeysInOrder(a: Tag, b: Tag)
    ensures KeyOf(a) == KeyOf(b) <==> a == b
    ensures TextAtMost(KeyOf(a), KeyOf(b)) <==> Before(a, b)
  {
    TextTotal(KeyOf(a), KeyOf(b));
    if Place(a) < Place(b) {
      PrefixOrder(a, b);
    } else if Place(b) < Place(a) {
      PrefixOrder(b, a);
    } else {
      match a
      case Flag(_) => FlagKeys();
      case Nothing =>
      case _ =>
        assert KeyOf(a) == KeyPrefix(a) + a.text && KeyOf(b) == KeyPrefix(a) + b.text;
        SharedPrefix(KeyPrefix(a), a.text, b.text);
    }
  }

  /**
   The items of a canonical array all of whose items have a tag stand in the order of their tags, and items of one
   tag in the order of their serialised text.
   */
  lemma CanonicalArrayOrder(items: seq<Value>, i: nat, j: nat, a: Tag, b: Tag)
    requires WellFormed(Array(items)) && (forall k | 0 <= k < |items| :: HasTag(items[k])) && i < j < |items|
    requires |Canonical(Array(items)).items| == |items|
    requires IsTagged(Canonical(Array(items)).items[i], a) && IsTagged(Canonical(Array(items)).items[j], b)
    ensures Before(a, b)
    ensures a == b ==>
      TextAtMost(JsonText.Print(Canonical(Array(items)).items[i]), JsonText.Print(Canonical(Array(items)).items[j]))
  {
    var sorted := Sort(CanonicalItems(items), ItemRank);
    SortableIff(items);
    CanonicalItemsSortable(items);
    SortSorts(CanonicalItems(items), ItemRank);
    assert AtMost(ItemRank(sorted[i]), ItemRank(sorted[j]));
    TagKey(sorted[i], a);
    TagKey(sorted[j], b);
    KeysInOrder(a, b);
    KeysInOrder(a, a);
    if a == b { TextReflexive(KeyOf(a)); }
  }

  lemma {:induction false} TextReflexive(a: string)
    ensures TextAtMost(a, a)
  {
    if a == "" {
    } else {
      TextReflexive(a[1..]);
    }
  }

  /** The keys of a canonical object stand in order. */
  lemma CanonicalKeyOrder(entries: seq<Entry>, i: nat, j: nat)
    requires i < j < |entries|
    ensures var sorted := Canonical(Object(entries)).entries;
      |sorted| == |entries| && TextAtMost(sorted[i].key, sorted[j].key)
  {
    var sorted := Sort(CanonicalEntries(entries), EntryRank);
    SortSorts(CanonicalEntries(entries), EntryRank);
    assert AtMost(EntryRank(sorted[i]), EntryRank(sorted[j]));
    TextReflexive(sorted[i].key);
  }
}
