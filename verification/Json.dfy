/**
 JSON values as `serde_json` holds them. An object is an ordered list of entries (the workspace builds
 `serde_json` with insertion-ordered maps), and a number is kept as the text it prints as.
 */
module Json {
  import opened Prelude

  datatype Entry = Entry(key: string, value: Value)

  datatype Value =
    | Null
    | Bool(b: bool)
    | Number(text: string)
    | String(s: string)
    | Array(items: seq<Value>)
    | Object(entries: seq<Entry>)

  /** The characters a printed JSON number can contain. */
  predicate IsNumberChar(c: char) {
    '0' <= c <= '9' || c in {'+', '-', '.', 'e', 'E'}
  }

  predicate IsNumberText(text: string) {
    && text != ""
    && (text[0] == '-' || '0' <= text[0] <= '9')
    && forall c | c in text :: IsNumberChar(c)
  }

  predicate DistinctKeys(entries: seq<Entry>) {
    forall i, j | 0 <= i < j < |entries| :: entries[i].key != entries[j].key
  }

  /** What every value built by `serde_json` satisfies: no object repeats a key, numbers print as numbers. */
  predicate WellFormed(v: Value) {
    match v
    case Number(text) => IsNumberText(text)
    case Array(items) => forall i | 0 <= i < |items| :: WellFormed(items[i])
    case Object(entries) => DistinctKeys(entries) && forall i | 0 <= i < |entries| :: WellFormed(entries[i].value)
    case _ => true
  }

  /** `Map::get`. */
  function Lookup(entries: seq<Entry>, key: string): Option<Value> {
    if entries == [] then None
    else if entries[0].key == key then Some(entries[0].value)
    else Lookup(entries[1..], key)
  }

  /** `Value::get` on an object, `None` on anything else. */
  function Field(v: Value, key: string): Option<Value> {
    if v.Object? then Lookup(v.entries, key) else None
  }

  /** What a lookup finds is an entry of that key, and it misses only keys that no entry has. */
  lemma {:induction false} LookupEntry(entries: seq<Entry>, key: string)
    ensures Lookup(entries, key).Some? ==> Entry(key, Lookup(entries, key).value) in entries
    ensures Lookup(entries, key).None? <==> forall i | 0 <= i < |entries| :: entries[i].key != key
  {
    if entries == [] {
    } else {
      LookupEntry(entries[1..], key);
      assert forall i | 0 < i < |entries| :: entries[i] == entries[1..][i - 1];
    }
  }

  lemma {:induction false} LookupAt(entries: seq<Entry>, i: nat)
    requires i < |entries| && DistinctKeys(entries)
    ensures Lookup(entries, entries[i].key) == Some(entries[i].value)
  {
    if i == 0 {
    } else {
      LookupAt(entries[1..], i - 1);
    }
  }

  /** `Map::insert`: the value bound to a present key is replaced where it stands, a new key goes last. */
  function Insert(entries: seq<Entry>, key: string, value: Value): (r: seq<Entry>) {
    if entries == [] then [Entry(key, value)]
    else if entries[0].key == key then [Entry(key, value)] + entries[1..]
    else [entries[0]] + Insert(entries[1..], key, value)
  }

  lemma {:induction false} LookupInsert(entries: seq<Entry>, key: string, value: Value, other: string)
    ensures Lookup(Insert(entries, key, value), other) == if other == key then Some(value) else Lookup(entries, other)
  {
    if entries == [] || entries[0].key == key {
    } else {
      LookupInsert(entries[1..], key, value, other);
    }
  }

  lemma {:induction false} InsertKeepsDistinct(entries: seq<Entry>, key: string, value: Value)
    requires DistinctKeys(entries)
    ensures DistinctKeys(Insert(entries, key, value))
  {
    if entries == [] || entries[0].key == key {
    } else {
      InsertKeepsDistinct(entries[1..], key, value);
      LookupInsert(entries[1..], key, value, entries[0].key);
      LookupEntry(entries[1..], entries[0].key);
      LookupEntry(Insert(entries[1..], key, value), entries[0].key);
    }
  }

  lemma InsertWellFormed(entries: seq<Entry>, key: string, value: Value)
    requires WellFormed(Object(entries)) && WellFormed(value)
    ensures WellFormed(Object(Insert(entries, key, value)))
  {
    InsertKeepsDistinct(entries, key, value);
    InsertValuesWellFormed(entries, key, value);
  }

  lemma {:induction false} InsertValuesWellFormed(entries: seq<Entry>, key: string, value: Value)
    requires WellFormed(value) && forall i | 0 <= i < |entries| :: WellFormed(entries[i].value)
    ensures forall i | 0 <= i < |Insert(entries, key, value)| :: WellFormed(Insert(entries, key, value)[i].value)
  {
    if entries == [] || entries[0].key == key {
    } else {
      InsertValuesWellFormed(entries[1..], key, value);
    }
  }
}
