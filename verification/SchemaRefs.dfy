/**
 `$ref` strings inside a schema: collecting them, rewriting every one of them in place, and the string operations
 the rewriters use. A `$ref` is any entry of that key, at any depth, that holds a string.
 */
module SchemaRefs {
  import opened Prelude
  import opened Json

  const REF := "$ref"
  const DEFS := "definitions"
  const DEFINITIONS := "#/definitions/"

  /** Every `$ref` string of a value, at any depth. */
  ghost function Refs(v: Value): set<string>
    decreases v
  {
    match v
    case Array(items) => set i, r | 0 <= i < |items| && r in Refs(items[i]) :: r
    case Object(entries) => set i, r | 0 <= i < |entries| && r in EntryRefs(entries[i]) :: r
    case _ => {}
  }

  ghost function EntryRefs(e: Entry): set<string>
    decreases e
  {
    if e.key == REF && e.value.String? then {e.value.s} else Refs(e.value)
  }

  /** The `$ref` an object carries itself, `obj.get("$ref")` when that is a string. */
  function OwnRef(entries: seq<Entry>): Option<string> {
    match Lookup(entries, REF)
    case Some(String(s)) => Some(s)
    case _ => None
  }

  /** An object's refs are its own and those of its members. */
  lemma RefsOfObject(entries: seq<Entry>, r: string)
    requires DistinctKeys(entries)
    ensures r in Refs(Object(entries)) <==>
      OwnRef(entries) == Some(r) || exists i :: 0 <= i < |entries| && r in Refs(entries[i].value)
  {
    LookupEntry(entries, REF);
    if OwnRef(entries) == Some(r) {
      var i :| 0 <= i < |entries| && entries[i] == Entry(REF, String(r));
      assert r in EntryRefs(entries[i]);
    }
    if i :| 0 <= i < |entries| && r in EntryRefs(entries[i]) {
      LookupAt(entries, i);
    }
    if i :| 0 <= i < |entries| && r in Refs(entries[i].value) {
      assert r in EntryRefs(entries[i]);
    }
  }

  /** The common skeleton of the `$ref` rewriters: apply `f` to every `$ref` string, keep everything else. */
  function MapRefs(v: Value, f: string -> string): Value
    decreases v, 0
  {
    match v
    case Array(items) => Array(seq(|items|, i requires 0 <= i < |items| => MapRefs(items[i], f)))
    case Object(entries) => Object(MapRefsInEntries(entries, f))
    case _ => v
  }

  function MapRefsInEntries(entries: seq<Entry>, f: string -> string): seq<Entry>
    decreases entries
  {
    seq(|entries|,
        i requires 0 <= i < |entries| => Entry(entries[i].key, MapRefsAt(entries[i].key, entries[i].value, f)))
  }

  function MapRefsAt(key: string, v: Value, f: string -> string): Value
    decreases v, 1
  {
    if key == REF && v.String? then String(f(v.s)) else MapRefs(v, f)
  }

  /**
   The second value is the first with every `$ref` string replaced by its image, at every depth, and nothing else
   changed: the same constructors, lengths, keys and scalars.
   */
  ghost predicate OnlyRefsReplaced(v: Value, r: Value, f: string -> string)
    decreases v, 0
  {
    if v.Array? then
      r.Array? && |r.items| == |v.items| && forall i | 0 <= i < |v.items| :: OnlyRefsReplaced(v.items[i], r.items[i], f)
    else if v.Object? then
      && r.Object? && |r.entries| == |v.entries|
      && forall i | 0 <= i < |v.entries| ::
           r.entries[i].key == v.entries[i].key && OnlyRefsReplacedAt(v.entries[i], r.entries[i].value, f)
    else r == v
  }

  ghost predicate OnlyRefsReplacedAt(e: Entry, r: Value, f: string -> string)
    decreases e, 1
  {
    if e.key == REF && e.value.String? then r == String(f(e.value.s)) else OnlyRefsReplaced(e.value, r, f)
  }

  lemma EntryRewrittenIff(e: Entry, r: Value, f: string -> string)
    requires OnlyRefsReplaced(e.value, r, f) <==> r == MapRefs(e.value, f)
    ensures OnlyRefsReplacedAt(e, r, f) <==> r == MapRefsAt(e.key, e.value, f)
  {
    var isRef := e.key == REF;
  }

  /** Rewriting replaces the refs and leaves everything else, and that determines the result. */
  lemma {:induction false} RewrittenIff(v: Value, r: Value, f: string -> string)
    ensures OnlyRefsReplaced(v, r, f) <==> r == MapRefs(v, f)
    decreases v, 0
  {
    match v
    case Array(items) =>
      var mapped := MapRefs(v, f).items;
      if r.Array? && |r.items| == |items| {
        forall i | 0 <= i < |items|
          ensures OnlyRefsReplaced(items[i], r.items[i], f) <==> r.items[i] == mapped[i]
        {
          RewrittenIff(items[i], r.items[i], f);
        }
        assert r.items == mapped <==> forall i | 0 <= i < |items| :: r.items[i] == mapped[i];
      }
    case Object(entries) =>
      var mapped := MapRefsInEntries(entries, f);
      if r.Object? && |r.entries| == |entries| {
        forall i | 0 <= i < |entries|
          ensures OnlyRefsReplacedAt(entries[i], r.entries[i].value, f) <==> r.entries[i].value == mapped[i].value
        {
          RewrittenIff(entries[i].value, r.entries[i].value, f);
          EntryRewrittenIff(entries[i], r.entries[i].value, f);
        }
        assert r.entries == mapped <==> forall i | 0 <= i < |entries| :: r.entries[i] == mapped[i];
      }
    case _ =>
  }

  lemma EntryFixedIff(e: Entry, f: string -> string)
    requires MapRefs(e.value, f) == e.value <==> forall r | r in Refs(e.value) :: f(r) == r
    ensures MapRefsAt(e.key, e.value, f) == e.value <==> forall r | r in EntryRefs(e) :: f(r) == r
  {
    var isRef := e.key == REF;
  }

  /** Rewriting changes nothing exactly when it changes no ref. */
  lemma {:induction false} MapRefsFixedIff(v: Value, f: string -> string)
    ensures MapRefs(v, f) == v <==> forall r | r in Refs(v) :: f(r) == r
    decreases v
  {
    match v
    case Array(items) =>
      var mapped := MapRefs(v, f).items;
      forall i | 0 <= i < |items|
        ensures mapped[i] == items[i] <==> forall r | r in Refs(items[i]) :: f(r) == r
      {
        MapRefsFixedIff(items[i], f);
      }
      assert mapped == items <==> forall i | 0 <= i < |items| :: mapped[i] == items[i];
    case Object(entries) =>
      var mapped := MapRefsInEntries(entries, f);
      forall i | 0 <= i < |entries|
        ensures mapped[i] == entries[i] <==> forall r | r in EntryRefs(entries[i]) :: f(r) == r
      {
        MapRefsFixedIff(entries[i].value, f);
        EntryFixedIff(entries[i], f);
      }
      assert mapped == entries <==> forall i | 0 <= i < |entries| :: mapped[i] == entries[i];
    case _ =>
  }

  /** The rewriters as they run: a recursive pass that rebuilds each array and object member by member. */
  method RewriteRefs(v: Value, f: string -> string) returns (r: Value)
    ensures OnlyRefsReplaced(v, r, f)
    ensures r == MapRefs(v, f)
    decreases v
  {
    RewrittenIff(v, MapRefs(v, f), f);
    match v
    case Array(items) =>
      var out := [];
      for i := 0 to |items|
        invariant out == seq(i, k requires 0 <= k < i => MapRefs(items[k], f))
      {
        var item := RewriteRefs(items[i], f);
        out := out + [item];
      }
      r := Array(out);
    case Object(entries) =>
      var out := [];
      for i := 0 to |entries|
        invariant |out| == i && forall k | 0 <= k < i :: out[k] == MapRefsInEntries(entries, f)[k]
      {
        var value := entries[i].value;
        if entries[i].key == REF && value.String? {
          value := String(f(value.s));
        } else {
          value := RewriteRefs(value, f);
        }
        out := out + [Entry(entries[i].key, value)];
      }
      assert out == MapRefsInEntries(entries, f);
      r := Object(out);
    case _ =>
      r := v;
  }

  lemma {:induction false} LookupMapRefs(entries: seq<Entry>, f: string -> string, key: string)
    ensures Lookup(MapRefsInEntries(entries, f), key) ==
      match Lookup(entries, key) case None => None case Some(v) => Some(MapRefsAt(key, v, f))
  {
    if entries == [] {
    } else {
      LookupMapRefs(entries[1..], f, key);
      assert MapRefsInEntries(entries, f)[1..] == MapRefsInEntries(entries[1..], f);
    }
  }

  lemma MapRefsKeepsDistinct(entries: seq<Entry>, f: string -> string)
    requires DistinctKeys(entries)
    ensures DistinctKeys(MapRefsInEntries(entries, f))
  {
  }

  lemma RefsOfMappedItems(items: seq<Value>, f: string -> string)
    requires forall i | 0 <= i < |items| :: Refs(MapRefs(items[i], f)) == set r | r in Refs(items[i]) :: f(r)
    ensures Refs(MapRefs(Array(items), f)) == set r | r in Refs(Array(items)) :: f(r)
  {
    var mapped := MapRefs(Array(items), f).items;
    forall x ensures x in Refs(Array(mapped)) <==> exists r :: r in Refs(Array(items)) && f(r) == x {
      if x in Refs(Array(mapped)) {
        var i :| 0 <= i < |mapped| && x in Refs(mapped[i]);
        var r :| r in Refs(items[i]) && f(r) == x;
        assert r in Refs(Array(items));
      }
      if r :| r in Refs(Array(items)) && f(r) == x {
        var i :| 0 <= i < |items| && r in Refs(items[i]);
        assert x in Refs(mapped[i]);
      }
    }
  }

  lemma EntryRefsMapped(e: Entry, f: string -> string)
    requires Refs(MapRefs(e.value, f)) == set r | r in Refs(e.value) :: f(r)
    ensures EntryRefs(Entry(e.key, MapRefsAt(e.key, e.value, f))) == set r | r in EntryRefs(e) :: f(r)
  {
    var isRef := e.key == REF;
    if isRef && e.value.String? {
      assert EntryRefs(Entry(e.key, String(f(e.value.s)))) == {f(e.value.s)};
      assert (set r | r in {e.value.s} :: f(r)) == {f(e.value.s)};
    } else {
      assert MapRefs(e.value, f).String? ==> e.value.String?;
      assert EntryRefs(e) == Refs(e.value);
    }
  }

  lemma RefsOfMappedEntries(entries: seq<Entry>, f: string -> string)
    requires forall i | 0 <= i < |entries| ::
      Refs(MapRefs(entries[i].value, f)) == set r | r in Refs(entries[i].value) :: f(r)
    ensures Refs(MapRefs(Object(entries), f)) == set r | r in Refs(Object(entries)) :: f(r)
  {
    var mapped := MapRefsInEntries(entries, f);
    forall i | 0 <= i < |entries| ensures EntryRefs(mapped[i]) == set r | r in EntryRefs(entries[i]) :: f(r) {
      EntryRefsMapped(entries[i], f);
    }
    forall x ensures x in Refs(Object(mapped)) <==> exists r :: r in Refs(Object(entries)) && f(r) == x {
      if x in Refs(Object(mapped)) {
        var i :| 0 <= i < |mapped| && x in EntryRefs(mapped[i]);
        var r :| r in EntryRefs(entries[i]) && f(r) == x;
        assert r in Refs(Object(entries));
      }
      if r :| r in Refs(Object(entries)) && f(r) == x {
        var i :| 0 <= i < |entries| && r in EntryRefs(entries[i]);
        assert x in EntryRefs(mapped[i]);
      }
    }
  }

  /** Rewriting maps the refs of a value and adds none. */
  lemma {:induction false} RefsOfMapRefs(v: Value, f: string -> string)
    ensures Refs(MapRefs(v, f)) == set r | r in Refs(v) :: f(r)
    decreases v
  {
    match v
    case Array(items) =>
      forall i | 0 <= i < |items| { RefsOfMapRefs(items[i], f); }
      RefsOfMappedItems(items, f);
    case Object(entries) =>
      forall i | 0 <= i < |entries| { RefsOfMapRefs(entries[i].value, f); }
      RefsOfMappedEntries(entries, f);
    case _ =>
  }

  /**
   When rewriting by `f` and then by `g` amounts to rewriting by `h`: exactly when it does on every ref
   the value contains. With `f == g == h` this decides idempotence.
   */
  lemma {:induction false} MapRefsCompose(v: Value, f: string -> string, g: string -> string, h: string -> string)
    ensures MapRefs(MapRefs(v, f), g) == MapRefs(v, h) <==> forall r | r in Refs(v) :: g(f(r)) == h(r)
    decreases v, 0
  {
    match v
    case Array(items) =>
      var left, right := MapRefs(MapRefs(v, f), g).items, MapRefs(v, h).items;
      forall i | 0 <= i < |items| ensures left[i] == right[i] <==> forall r | r in Refs(items[i]) :: g(f(r)) == h(r) {
        MapRefsCompose(items[i], f, g, h);
      }
      assert left == right <==> forall i | 0 <= i < |items| :: left[i] == right[i];
    case Object(entries) =>
      var left, right := MapRefsInEntries(MapRefsInEntries(entries, f), g), MapRefsInEntries(entries, h);
      forall i | 0 <= i < |entries|
        ensures left[i] == right[i] <==> forall r | r in EntryRefs(entries[i]) :: g(f(r)) == h(r)
      {
        MapRefsCompose(entries[i].value, f, g, h);
        EntryCompose(entries[i], f, g, h);
      }
      assert left == right <==> forall i | 0 <= i < |entries| :: left[i] == right[i];
    case _ =>
  }

  lemma EntryCompose(e: Entry, f: string -> string, g: string -> string, h: string -> string)
    requires MapRefs(MapRefs(e.value, f), g) == MapRefs(e.value, h) <==>
      forall r | r in Refs(e.value) :: g(f(r)) == h(r)
    ensures MapRefsAt(e.key, MapRefsAt(e.key, e.value, f), g) == MapRefsAt(e.key, e.value, h) <==>
      forall r | r in EntryRefs(e) :: g(f(r)) == h(r)
  {
    var isRef := e.key == REF;
    if !(isRef && e.value.String?) {
      assert MapRefs(e.value, f).String? ==> e.value.String?;
    }
  }

  /** The names that the refs of a value stand for, under a reading of refs as names. */
  ghost function RefNames(v: Value, nameOf: string -> Option<string>): set<string> {
    set r | r in Refs(v) && nameOf(r).Some? :: nameOf(r).value
  }

  /** The collectors as they run: one recursive pass that adds to a set. */
  method CollectRefNames(v: Value, nameOf: string -> Option<string>, names: set<string>) returns (out: set<string>)
    requires WellFormed(v)
    ensures out == names + RefNames(v, nameOf)
    decreases v
  {
    out := names;
    match v
    case Object(entries) =>
      var own := OwnRef(entries);
      if own.Some? && nameOf(own.value).Some? {
        out := out + {nameOf(own.value).value};
      }
      for i := 0 to |entries|
        invariant forall x :: x in out <==> x in names || (own.Some? && nameOf(own.value) == Some(x)) || exists k ::
          0 <= k < i && x in RefNames(entries[k].value, nameOf)
      {
        out := CollectRefNames(entries[i].value, nameOf, out);
      }
      RefNamesOfObject(entries, nameOf);
    case Array(items) =>
      for i := 0 to |items|
        invariant forall x :: x in out <==> x in names || exists k :: 0 <= k < i && x in RefNames(items[k], nameOf)
      {
        out := CollectRefNames(items[i], nameOf, out);
      }
      RefNamesOfArray(items, nameOf);
    case _ =>
  }

  lemma RefNamesOfObject(entries: seq<Entry>, nameOf: string -> Option<string>)
    requires DistinctKeys(entries)
    ensures forall x :: x in RefNames(Object(entries), nameOf) <==>
      (OwnRef(entries).Some? && nameOf(OwnRef(entries).value) == Some(x)) || exists k ::
        0 <= k < |entries| && x in RefNames(entries[k].value, nameOf)
  {
    forall r
      ensures r in Refs(Object(entries)) <==>
        OwnRef(entries) == Some(r) || exists i :: 0 <= i < |entries| && r in Refs(entries[i].value)
    {
      RefsOfObject(entries, r);
    }
  }

  lemma RefNamesOfArray(items: seq<Value>, nameOf: string -> Option<string>)
    ensures forall x :: x in RefNames(Array(items), nameOf) <==>
      exists k :: 0 <= k < |items| && x in RefNames(items[k], nameOf)
  {
  }

  // String operations.

  /** `str::replace`: non-overlapping occurrences from the left. */
  function ReplaceAll(s: string, from: string, to: string): string
    requires from != ""
  {
    if s == "" then ""
    else if StartsWith(s, from) then to + ReplaceAll(s[|from|..], from, to)
    else [s[0]] + ReplaceAll(s[1..], from, to)
  }

  /** The first occurrence is replaced, and then those in the text behind it. */
  lemma {:induction false} ReplaceFirst(before: string, after: string, from: string, to: string)
    requires from != "" && forall i | 0 <= i < |before| :: !StartsWith((before + from + after)[i..], from)
    ensures ReplaceAll(before + from + after, from, to) == before + to + ReplaceAll(after, from, to)
  {
    var s := before + from + after;
    if before == "" {
      assert s[..|from|] == from && s[|from|..] == after;
    } else {
      var rest := before[1..] + from + after;
      assert s[0..] == s && !StartsWith(s[0..], from);
      assert s[1..] == rest;
      forall i | 0 <= i < |before| - 1
        ensures !StartsWith(rest[i..], from)
      {
        assert rest[i..] == s[i + 1..];
      }
      ReplaceFirst(before[1..], after, from, to);
      assert [before[0]] + (before[1..] + to) == before + to;
    }
  }

  /** The text before the first `/`. */
  function FirstSegment(s: string): string {
    if s == "" || s[0] == '/' then "" else [s[0]] + FirstSegment(s[1..])
  }

  lemma {:induction false} FirstSegmentBeforeSlash(s: string, t: string)
    ensures FirstSegment(s + "/" + t) == FirstSegment(s)
  {
    var whole := s + "/" + t;
    if s == "" || s[0] == '/' {
    } else {
      assert whole[1..] == s[1..] + "/" + t;
      FirstSegmentBeforeSlash(s[1..], t);
    }
  }

  lemma {:induction false} FirstSegmentWhole(s: string)
    requires '/' !in s
    ensures FirstSegment(s) == s
  {
    if s == "" {
    } else {
      FirstSegmentWhole(s[1..]);
      assert s == [s[0]] + s[1..];
    }
  }

  lemma AfterPrefix(p: string, s: string)
    ensures StartsWith(p + s, p) && (p + s)[|p|..] == s
  {
  }

  lemma {:induction false} FirstSegmentThen(name: string, tail: string)
    requires '/' !in name && (tail == "" || tail[0] == '/')
    ensures FirstSegment(name + tail) == name
  {
    if name == "" {
      assert name + tail == tail;
    } else {
      assert (name + tail)[1..] == name[1..] + tail;
      FirstSegmentThen(name[1..], tail);
      assert name == [name[0]] + name[1..];
    }
  }

  lemma StartsWithLast(s: string, prefix: string)
    requires prefix != ""
    ensures StartsWith(s, prefix) ==> s[|prefix| - 1] == prefix[|prefix| - 1]
  {
    if StartsWith(s, prefix) { assert s[..|prefix|][|prefix| - 1] == prefix[|prefix| - 1]; }
  }

  /** Nothing is replaced when the last character of the pattern does not occur far enough into the text. */
  lemma {:induction false} ReplaceNothing(s: string, from: string, to: string)
    requires from != "" && forall j | |from| - 1 <= j < |s| :: s[j] != from[|from| - 1]
    ensures ReplaceAll(s, from, to) == s
  {
    if s == "" {
    } else {
      StartsWithLast(s, from);
      ReplaceNothing(s[1..], from, to);
      assert s == [s[0]] + s[1..];
    }
  }

  lemma ReplacePrefix(s: string, from: string, to: string)
    requires from != "" && from[|from| - 1] !in s
    ensures ReplaceAll(from + s, from, to) == to + s
  {
    assert (from + s)[..|from|] == from && (from + s)[|from|..] == s;
    ReplaceNothing(s, from, to);
  }
}
