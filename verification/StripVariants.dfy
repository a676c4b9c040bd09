/**
 Removing the `oneOf` variants of listed methods from one schema, and then the definitions nothing refers to any
 more. The variants removed are exactly the listed ones, and no ref that still counts loses its target.
 */
module StripVariants {
  import opened Prelude
  import opened Json
  import opened SchemaRefs
  import opened Reachability

  const ONE_OF := "oneOf"

  /** `string_literal`: the string under `const`, else the first string listed under `enum`. */
  function StringLiteral(v: Value): Option<string> {
    match Field(v, "const")
    case Some(String(s)) => Some(s)
    case _ =>
      match Field(v, "enum")
      case Some(Array(values)) => if values != [] && values[0].String? then Some(values[0].s) else None
      case _ => None
  }

  /** `is_method_variant_in_set`. */
  predicate IsMethodVariant(v: Value, methods: set<string>) {
    match Field(v, "properties")
    case Some(Object(properties)) =>
      (match Lookup(properties, "method")
       case Some(schema) => StringLiteral(schema).Some? && StringLiteral(schema).value in methods
       case None => false)
    case _ => false
  }

  /** The name a schema gives: the text under `const` or, where `const` is no text, the first item of `enum`. */
  ghost predicate GivesName(schema: Value, name: string) {
    || Field(schema, "const") == Some(String(name))
    || ((exists rest :: Field(schema, "enum") == Some(Array([String(name)] + rest)))
        && forall other :: Field(schema, "const") != Some(String(other)))
  }

  ghost predicate HasMethodNamed(v: Value, name: string) {
    exists properties, schema ::
      && Field(v, "properties") == Some(Object(properties)) && Lookup(properties, "method") == Some(schema)
      && GivesName(schema, name)
  }

  lemma NameGiven(schema: Value, name: string)
    ensures StringLiteral(schema) == Some(name) <==> GivesName(schema, name)
  {
    if StringLiteral(schema) == Some(name) && Field(schema, "const") != Some(String(name)) {
      var values := Field(schema, "enum").value.items;
      assert values == [String(name)] + values[1..];
    }
  }

  /** What is stripped: a variant whose `method` property gives a listed name. */
  lemma MethodVariantIff(v: Value, methods: set<string>)
    ensures IsMethodVariant(v, methods) <==> exists name :: name in methods && HasMethodNamed(v, name)
  {
    forall schema, name {
      NameGiven(schema, name);
    }
    if IsMethodVariant(v, methods) {
      var properties := Field(v, "properties").value.entries;
      var schema := Lookup(properties, "method").value;
      assert HasMethodNamed(v, StringLiteral(schema).value);
    }
  }

  function Variants(schema: Value): Option<seq<Value>> {
    match Field(schema, ONE_OF)
    case Some(Array(variants)) => Some(variants)
    case _ => None
  }

  function KeptVariants(variants: seq<Value>, methods: set<string>): seq<Value> {
    Retain(variants, v => !IsMethodVariant(v, methods))
  }

  function KeptDefinitions(definitions: seq<Entry>, reachable: set<string>): seq<Entry> {
    Retain(definitions, (e: Entry) => e.key in reachable)
  }

  function WithoutVariants(schema: Value, methods: set<string>): Value
    requires Variants(schema).Some?
  {
    Object(Insert(schema.entries, ONE_OF, Array(KeptVariants(Variants(schema).value, methods))))
  }

  function WithoutDefinitions(schema: Value, reachable: set<string>): Value {
    match DefinitionsOf(schema, DEFS)
    case Some(definitions) => Object(Insert(schema.entries, DEFS, Object(KeptDefinitions(definitions, reachable))))
    case None => schema
  }

  /** The names a schema still needs: least closed over its definitions, seeded outside the definition maps. */
  ghost predicate Needed(schema: Value, reachable: set<string>) {
    match DefinitionsOf(schema, DEFS)
    case Some(definitions) =>
      IsLeastClosed(reachable, LocalNames(OuterRefs(schema, DEFS), DEFS), LocalGraph(definitions, DEFS))
    case None => reachable == {}
  }

  /** `strip_method_variants_from_json_schema`. */
  method StripMethodVariants(schema: Value, methods: set<string>) returns (r: Value)
    requires WellFormed(schema)
    ensures Variants(schema).None? ==> r == schema
    ensures Variants(schema).Some? ==>
      exists reachable :: Needed(WithoutVariants(schema, methods), reachable)
        && r == WithoutDefinitions(WithoutVariants(schema, methods), reachable)
  {
    if Variants(schema).None? {
      return schema;
    }
    var stripped := WithoutVariants(schema, methods);
    WithoutVariantsWellFormed(schema, methods);
    var reachable := ReachableLocalDefinitions(stripped, DEFS);
    r := WithoutDefinitions(stripped, reachable);
  }

  lemma WithoutVariantsWellFormed(schema: Value, methods: set<string>)
    requires WellFormed(schema) && Variants(schema).Some?
    ensures WellFormed(WithoutVariants(schema, methods))
  {
    var kept := KeptVariants(Variants(schema).value, methods);
    LookupEntry(schema.entries, ONE_OF);
    forall i | 0 <= i < |kept| ensures WellFormed(kept[i]) {
      assert kept[i] in Variants(schema).value;
    }
    InsertWellFormed(schema.entries, ONE_OF, Array(kept));
  }

  lemma {:induction false} LookupKept(definitions: seq<Entry>, reachable: set<string>, name: string)
    ensures Lookup(KeptDefinitions(definitions, reachable), name)
         == if name in reachable then Lookup(definitions, name) else None
  {
    if definitions == [] {
    } else {
      LookupKept(definitions[1..], reachable, name);
    }
  }

  lemma OuterRefsCons(e: Entry, entries: seq<Entry>)
    ensures OuterRefs(Object([e] + entries), DEFS) == OuterEntryRefs(e, DEFS) + OuterRefs(Object(entries), DEFS)
  {
    var all := [e] + entries;
    assert all[0] == e && forall i | 0 <= i < |entries| :: all[i + 1] == entries[i];
    forall r | r in OuterRefs(Object(entries), DEFS) ensures r in OuterRefs(Object(all), DEFS) {
      var i :| 0 <= i < |entries| && r in OuterEntryRefs(entries[i], DEFS);
      assert r in OuterEntryRefs(all[i + 1], DEFS);
    }
  }

  /** Replacing the definitions map does not touch the refs outside it. */
  lemma {:induction false} OuterRefsIgnoreDefinitions(entries: seq<Entry>, value: Value)
    ensures OuterRefs(Object(Insert(entries, DEFS, value)), DEFS) == OuterRefs(Object(entries), DEFS)
  {
    assert OuterEntryRefs(Entry(DEFS, value), DEFS) == {};
    if entries == [] {
      OuterRefsCons(Entry(DEFS, value), []);
      assert [Entry(DEFS, value)] + [] == [Entry(DEFS, value)];
    } else {
      assert entries == [entries[0]] + entries[1..];
      OuterRefsCons(entries[0], entries[1..]);
      if entries[0].key == DEFS {
        assert OuterEntryRefs(entries[0], DEFS) == {};
        OuterRefsCons(Entry(DEFS, value), entries[1..]);
      } else {
        OuterRefsIgnoreDefinitions(entries[1..], value);
        OuterRefsCons(entries[0], Insert(entries[1..], DEFS, value));
      }
    }
  }

  /** What a ref into this schema's own definitions stands for. */
  function Resolve(schema: Value, reference: string): Option<Value> {
    var name, definitions := LocalName(reference, DEFS), DefinitionsOf(schema, DEFS);
    if name.Some? && definitions.Some? then Lookup(definitions.value, name.value) else None
  }

  /** Exactly the listed variants go, every other member than `oneOf` and `definitions` stays as it was. */
  lemma StripRemovesExactly(schema: Value, methods: set<string>, reachable: set<string>, key: string)
    requires Variants(schema).Some?
    ensures var r := WithoutDefinitions(WithoutVariants(schema, methods), reachable);
      && Variants(r).Some?
      && (forall v :: v in Variants(r).value <==> v in Variants(schema).value && !IsMethodVariant(v, methods))
      && (key !in {"oneOf", "definitions"} ==> Field(r, key) == Field(schema, key))
  {
    var kept := Array(KeptVariants(Variants(schema).value, methods));
    var stripped := Insert(schema.entries, ONE_OF, kept);
    LookupInsert(schema.entries, ONE_OF, kept, ONE_OF);
    LookupInsert(schema.entries, ONE_OF, kept, key);
    if DefinitionsOf(Object(stripped), DEFS).Some? {
      var definitions := Object(KeptDefinitions(DefinitionsOf(Object(stripped), DEFS).value, reachable));
      LookupInsert(stripped, DEFS, definitions, ONE_OF);
      LookupInsert(stripped, DEFS, definitions, key);
    }
  }

  /** The variants that stay keep their order: each stands where the number of kept ones before it says. */
  lemma StripKeepsOrder(schema: Value, methods: set<string>, reachable: set<string>, i: nat)
    requires Variants(schema).Some? && i < |Variants(schema).value|
    requires !IsMethodVariant(Variants(schema).value[i], methods)
    ensures var before := KeptVariants(Variants(schema).value[..i], methods);
      var after := Variants(WithoutDefinitions(WithoutVariants(schema, methods), reachable));
      after.Some? && |before| < |after.value| && after.value[|before|] == Variants(schema).value[i]
  {
    var variants := Variants(schema).value;
    RetainKeepsOrder(variants, v => !IsMethodVariant(v, methods), i);
    var kept := Array(KeptVariants(variants, methods));
    var stripped := Insert(schema.entries, ONE_OF, kept);
    LookupInsert(schema.entries, ONE_OF, kept, ONE_OF);
    if DefinitionsOf(Object(stripped), DEFS).Some? {
      LookupInsert(stripped, DEFS, Object(KeptDefinitions(DefinitionsOf(Object(stripped), DEFS).value, reachable)),
                   ONE_OF);
    }
  }

  lemma DefinitionsAfter(schema: Value, methods: set<string>, reachable: set<string>)
    requires Variants(schema).Some?
    ensures var stripped := WithoutVariants(schema, methods);
      && DefinitionsOf(stripped, DEFS) == DefinitionsOf(schema, DEFS)
      && DefinitionsOf(WithoutDefinitions(stripped, reachable), DEFS) ==
           match DefinitionsOf(schema, DEFS) case None => None case Some(d) => Some(KeptDefinitions(d, reachable))
  {
    var kept := Array(KeptVariants(Variants(schema).value, methods));
    LookupInsert(schema.entries, ONE_OF, kept, DEFS);
    var stripped := WithoutVariants(schema, methods);
    if DefinitionsOf(stripped, DEFS).Some? {
      LookupInsert(stripped.entries, DEFS, Object(KeptDefinitions(DefinitionsOf(stripped, DEFS).value, reachable)),
                   DEFS);
    }
  }

  /** The definitions kept are exactly those some chain of refs leads to from outside the definition maps. */
  lemma StripKeepsReachable(schema: Value, methods: set<string>, reachable: set<string>, name: string)
    requires Variants(schema).Some? && DefinitionsOf(schema, DEFS).Some?
    requires Needed(WithoutVariants(schema, methods), reachable)
    ensures
      var before := DefinitionsOf(schema, DEFS).value;
      var after := DefinitionsOf(WithoutDefinitions(WithoutVariants(schema, methods), reachable), DEFS);
      var seeds := LocalNames(OuterRefs(WithoutVariants(schema, methods), DEFS), DEFS);
      var led := Reached(name, seeds, LocalGraph(before, DEFS));
      after.Some? && Lookup(after.value, name) == if led then Lookup(before, name) else None
  {
    var before := DefinitionsOf(schema, DEFS).value;
    DefinitionsAfter(schema, methods, reachable);
    LookupKept(before, reachable, name);
    LeastClosedIsReachable(reachable, LocalNames(OuterRefs(WithoutVariants(schema, methods), DEFS), DEFS),
                           LocalGraph(before, DEFS));
  }

  /**
   No new dangling refs: a ref that survives outside the definition maps, or inside a kept definition, resolves
   after stripping to exactly what it resolved to before.
   */
  lemma StripKeepsResolution(schema: Value, methods: set<string>, reachable: set<string>, reference: string,
          holder: string)
    requires Variants(schema).Some? && Needed(WithoutVariants(schema, methods), reachable)
    requires
      var r := WithoutDefinitions(WithoutVariants(schema, methods), reachable);
      || reference in OuterRefs(r, DEFS)
      || (DefinitionsOf(r, DEFS).Some?
          && var d := Lookup(DefinitionsOf(r, DEFS).value, holder); d.Some? && reference in Refs(d.value))
    ensures Resolve(WithoutDefinitions(WithoutVariants(schema, methods), reachable), reference)
         == Resolve(schema, reference)
  {
    var stripped := WithoutVariants(schema, methods);
    DefinitionsAfter(schema, methods, reachable);
    if DefinitionsOf(schema, DEFS).Some? && LocalName(reference, DEFS).Some? {
      var definitions, name := DefinitionsOf(schema, DEFS).value, LocalName(reference, DEFS).value;
      LookupKept(definitions, reachable, name);
      OuterRefsIgnoreDefinitions(stripped.entries, Object(KeptDefinitions(definitions, reachable)));
      if reference in OuterRefs(stripped, DEFS) {
        assert name in LocalNames(OuterRefs(stripped, DEFS), DEFS);
      } else {
        LookupKept(definitions, reachable, holder);
        assert holder in LocalGraph(definitions, DEFS);
        assert name in LocalGraph(definitions, DEFS)[holder];
      }
    }
  }
}
