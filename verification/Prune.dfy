/**
 Deep pruning of experimental method variants from a schema bundle: at every depth, array items that describe an
 experimental method are dropped. What a pass leaves behind, when it is complete, and when it is idempotent.
 */
module Prune {
  import opened Prelude
  import opened Json

  /** The schema of the `method` property, when the value is an object that has one. */
  function MethodSchema(v: Value): Option<seq<Entry>> {
    match Field(v, "properties")
    case Some(Object(properties)) => (match Lookup(properties, "method") case Some(Object(m)) => Some(m) case _ => None)
    case _ => None
  }

  predicate IsListedName(v: Value, methods: set<string>) {
    v.String? && v.s in methods
  }

  /** `is_experimental_method_variant`. */
  predicate IsVariant(v: Value, methods: set<string>) {
    match MethodSchema(v)
    case None => false
    case Some(schema) =>
      match Lookup(schema, "const")
      case Some(String(name)) => name in methods
      case _ =>
        match Lookup(schema, "enum")
        case Some(Array(values)) => |values| == 1 && IsListedName(values[0], methods)
        case _ => false
  }

  /** The schema of `method` that the value has among its properties. */
  ghost predicate HasMethodSchema(v: Value, schema: seq<Entry>) {
    exists properties ::
      Field(v, "properties") == Some(Object(properties)) && Lookup(properties, "method") == Some(Object(schema))
  }

  /** The schema allows one name only: the text under `const` or, where `const` is no text, the only item of `enum`. */
  ghost predicate AllowsOnly(schema: seq<Entry>, name: string) {
    || Lookup(schema, "const") == Some(String(name))
    || (Lookup(schema, "enum") == Some(Array([String(name)]))
        && forall other :: Lookup(schema, "const") != Some(String(other)))
  }

  /** The value is an object whose `method` property allows one name only. */
  ghost predicate IsVariantOf(v: Value, name: string) {
    exists schema :: HasMethodSchema(v, schema) && AllowsOnly(schema, name)
  }

  /** What counts as a variant: a value whose `method` property allows a listed name only. */
  lemma VariantIff(v: Value, methods: set<string>)
    ensures IsVariant(v, methods) <==> exists name :: name in methods && IsVariantOf(v, name)
  {
    if IsVariant(v, methods) {
      var schema := MethodSchema(v).value;
      assert HasMethodSchema(v, schema);
      match Lookup(schema, "const")
      case Some(String(name)) => assert AllowsOnly(schema, name);
      case _ =>
        var values := Lookup(schema, "enum").value.items;
        assert values == [String(values[0].s)];
        assert AllowsOnly(schema, values[0].s);
    }
    if name :| name in methods && IsVariantOf(v, name) {
      var schema :| HasMethodSchema(v, schema) && AllowsOnly(schema, name);
      assert MethodSchema(v) == Some(schema);
    }
  }

  /** What `items.retain` keeps. */
  function Survivors(items: seq<Value>, methods: set<string>): (r: seq<Value>)
    ensures forall x | x in r :: x in items
  {
    Retain(items, v => !IsVariant(v, methods))
  }

  lemma AllSurviveIff(items: seq<Value>, methods: set<string>)
    ensures Survivors(items, methods) == items <==> forall x | x in items :: !IsVariant(x, methods)
    ensures Survivors(items, methods) == items || |Survivors(items, methods)| < |items|
  {
    RetainAll(items, v => !IsVariant(v, methods));
  }

  /** What `prune_experimental_methods_inner` leaves of a value. */
  function Pruned(v: Value, methods: set<string>): Value
    decreases v
  {
    match v
    case Array(items) =>
      var kept := Survivors(items, methods);
      Array(seq(|kept|, i requires 0 <= i < |kept| => assert kept[i] in items; Pruned(kept[i], methods)))
    case Object(entries) => Object(PrunedEntries(entries, methods))
    case _ => v
  }

  function PrunedEntries(entries: seq<Entry>, methods: set<string>): seq<Entry>
    decreases entries
  {
    seq(|entries|, i requires 0 <= i < |entries| => Entry(entries[i].key, Pruned(entries[i].value, methods)))
  }

  /** `items.retain(..)`, item by item. */
  method RetainUnlisted(items: seq<Value>, methods: set<string>) returns (kept: seq<Value>)
    ensures kept == Survivors(items, methods)
  {
    kept := [];
    for i := 0 to |items|
      invariant kept == Survivors(items[..i], methods)
    {
      SurvivorsSnoc(items[..i], items[i], methods);
      assert items[..i + 1] == items[..i] + [items[i]];
      if !IsVariant(items[i], methods) {
        kept := kept + [items[i]];
      }
    }
    assert items[..|items|] == items;
  }

  /** `prune_experimental_methods_inner` as it runs: retain, then recurse into what is left. */
  method PruneInner(v: Value, methods: set<string>) returns (r: Value)
    ensures r == Pruned(v, methods)
    decreases v
  {
    match v
    case Array(items) =>
      var kept := RetainUnlisted(items, methods);
      var out := [];
      for i := 0 to |kept|
        invariant |out| == i && forall k | 0 <= k < i :: out[k] == Pruned(kept[k], methods)
      {
        assert kept[i] in items;
        var item := PruneInner(kept[i], methods);
        out := out + [item];
      }
      r := Array(out);
    case Object(entries) =>
      var out := [];
      for i := 0 to |entries|
        invariant |out| == i && forall k | 0 <= k < i ::
          out[k] == Entry(entries[k].key, Pruned(entries[k].value, methods))
      {
        var value := PruneInner(entries[i].value, methods);
        out := out + [Entry(entries[i].key, value)];
      }
      assert out == PrunedEntries(entries, methods);
      r := Object(out);
    case _ =>
      r := v;
  }

  lemma SurvivorsSnoc(items: seq<Value>, item: Value, methods: set<string>)
    ensures Survivors(items + [item], methods)
         == Survivors(items, methods) + if IsVariant(item, methods) then [] else [item]
  {
    RetainConcat(items, [item], v => !IsVariant(v, methods));
    RetainOne(item, v => !IsVariant(v, methods));
  }

  /** No array, at any depth, holds a variant. */
  predicate NoVariants(v: Value, methods: set<string>) {
    match v
    case Array(items) => forall i | 0 <= i < |items| :: !IsVariant(items[i], methods) && NoVariants(items[i], methods)
    case Object(entries) => forall i | 0 <= i < |entries| :: NoVariants(entries[i].value, methods)
    case _ => true
  }

  /** An item that is no variant yet: its `enum` holds one listed name besides items that pruning drops. */
  predicate IsLatent(v: Value, methods: set<string>) {
    match MethodSchema(v)
    case None => false
    case Some(schema) =>
      && !(Lookup(schema, "const").Some? && Lookup(schema, "const").value.String?)
      && match Lookup(schema, "enum")
         case Some(Array(values)) =>
           var kept := Survivors(values, methods);
           |kept| == 1 && IsListedName(kept[0], methods)
         case _ => false
  }

  /** No array item that pruning keeps is latent, at any depth that pruning reaches. */
  predicate NoLatent(v: Value, methods: set<string>) {
    match v
    case Array(items) =>
      forall i | 0 <= i < |items| && !IsVariant(items[i], methods) ::
        !IsLatent(items[i], methods) && NoLatent(items[i], methods)
    case Object(entries) => forall i | 0 <= i < |entries| :: NoLatent(entries[i].value, methods)
    case _ => true
  }

  lemma {:induction false} LookupPruned(entries: seq<Entry>, methods: set<string>, key: string)
    ensures Lookup(PrunedEntries(entries, methods), key) ==
      match Lookup(entries, key) case None => None case Some(v) => Some(Pruned(v, methods))
  {
    if entries == [] {
    } else {
      LookupPruned(entries[1..], methods, key);
      assert PrunedEntries(entries, methods)[1..] == PrunedEntries(entries[1..], methods);
    }
  }

  lemma MethodSchemaPruned(v: Value, methods: set<string>)
    ensures MethodSchema(Pruned(v, methods)) ==
      match MethodSchema(v) case None => None case Some(schema) => Some(PrunedEntries(schema, methods))
  {
    if v.Object? {
      LookupPruned(v.entries, methods, "properties");
      match Lookup(v.entries, "properties")
      case Some(Object(properties)) => LookupPruned(properties, methods, "method");
      case _ =>
    }
  }

  /** Pruning turns a kept item into a variant exactly when the item was latent. */
  lemma VariantAfterPruning(v: Value, methods: set<string>)
    requires !IsVariant(v, methods)
    ensures IsVariant(Pruned(v, methods), methods) <==> IsLatent(v, methods)
  {
    MethodSchemaPruned(v, methods);
    match MethodSchema(v)
    case None =>
    case Some(schema) =>
      LookupPruned(schema, methods, "const");
      LookupPruned(schema, methods, "enum");
      match Lookup(schema, "enum")
      case Some(Array(values)) => SingleListedName(values, methods);
      case _ =>
  }

  lemma SingleListedName(values: seq<Value>, methods: set<string>)
    ensures var kept, after := Survivors(values, methods), Pruned(Array(values), methods).items;
      |after| == |kept| && (|kept| == 1 ==> IsListedName(after[0], methods) == IsListedName(kept[0], methods))
  {
  }

  /** An item that no pass would drop or change. */
  predicate Clean(v: Value, methods: set<string>) {
    !IsVariant(v, methods) && NoVariants(v, methods)
  }

  /** An item that a pass leaves clean. */
  predicate Sound(v: Value, methods: set<string>) {
    !IsLatent(v, methods) && NoLatent(v, methods)
  }

  lemma NoVariantsOfKept(items: seq<Value>, methods: set<string>)
    ensures NoVariants(Pruned(Array(items), methods), methods) <==>
      forall x | x in Survivors(items, methods) :: Clean(Pruned(x, methods), methods)
  {
    var kept, result := Survivors(items, methods), Pruned(Array(items), methods).items;
    assert |result| == |kept| && forall i | 0 <= i < |kept| :: result[i] == Pruned(kept[i], methods);
    if NoVariants(Array(result), methods) {
      forall x | x in kept
        ensures Clean(Pruned(x, methods), methods)
      {
        var k :| 0 <= k < |kept| && kept[k] == x;
        assert Clean(result[k], methods);
      }
    } else {
      var k :| 0 <= k < |result| && !Clean(result[k], methods);
      assert kept[k] in kept;
    }
  }

  lemma NoLatentOfKept(items: seq<Value>, methods: set<string>)
    ensures NoLatent(Array(items), methods) <==> forall x | x in Survivors(items, methods) :: Sound(x, methods)
  {
    if forall x | x in Survivors(items, methods) :: Sound(x, methods) {
      forall i | 0 <= i < |items| && !IsVariant(items[i], methods)
        ensures Sound(items[i], methods)
      {
        assert items[i] in Survivors(items, methods);
      }
    } else {
      var x :| x in Survivors(items, methods) && !Sound(x, methods);
      var i :| 0 <= i < |items| && items[i] == x;
    }
  }

  /** A pass is complete (no variant left at any depth) exactly when no kept item is latent. */
  lemma {:induction false} PruneCompleteIff(v: Value, methods: set<string>)
    ensures NoVariants(Pruned(v, methods), methods) <==> NoLatent(v, methods)
    decreases v
  {
    match v
    case Array(items) =>
      var kept := Survivors(items, methods);
      forall x | x in kept
        ensures Clean(Pruned(x, methods), methods) <==> Sound(x, methods)
      {
        VariantAfterPruning(x, methods);
        PruneCompleteIff(x, methods);
      }
      NoVariantsOfKept(items, methods);
      NoLatentOfKept(items, methods);
    case Object(entries) =>
      forall i | 0 <= i < |entries|
        ensures NoVariants(PrunedEntries(entries, methods)[i].value, methods) <==> NoLatent(entries[i].value, methods)
      {
        PruneCompleteIff(entries[i].value, methods);
      }
    case _ =>
  }

  /** Pruning changes a value exactly when the value holds a variant somewhere. */
  lemma {:induction false} PruneFixedIff(v: Value, methods: set<string>)
    ensures Pruned(v, methods) == v <==> NoVariants(v, methods)
    decreases v
  {
    match v
    case Array(items) =>
      AllSurviveIff(items, methods);
      if Survivors(items, methods) == items {
        var result := Pruned(v, methods).items;
        forall i | 0 <= i < |items|
          ensures items[i] in items && (result[i] == items[i] <==> NoVariants(items[i], methods))
        {
          PruneFixedIff(items[i], methods);
        }
        assert result == items <==> forall i | 0 <= i < |items| :: result[i] == items[i];
      }
    case Object(entries) =>
      forall i | 0 <= i < |entries|
        ensures PrunedEntries(entries, methods)[i] == entries[i] <==> NoVariants(entries[i].value, methods)
      {
        PruneFixedIff(entries[i].value, methods);
      }
      assert PrunedEntries(entries, methods) == entries <==>
        forall i | 0 <= i < |entries| :: PrunedEntries(entries, methods)[i] == entries[i];
    case _ =>
  }

  /** A second pass changes nothing exactly when the first was complete, that is when no kept item was latent. */
  lemma PruneIdempotentIff(v: Value, methods: set<string>)
    ensures Pruned(Pruned(v, methods), methods) == Pruned(v, methods) <==> NoLatent(v, methods)
  {
    PruneFixedIff(Pruned(v, methods), methods);
    PruneCompleteIff(v, methods);
  }

  /** What the emitted schemas satisfy: an `enum` array lists strings only. */
  predicate EnumsListStrings(v: Value) {
    match v
    case Array(items) => forall i | 0 <= i < |items| :: EnumsListStrings(items[i])
    case Object(entries) =>
      forall i | 0 <= i < |entries| ::
        && EnumsListStrings(entries[i].value)
        && (entries[i].key == "enum" && entries[i].value.Array? ==> AllStrings(entries[i].value.items))
    case _ => true
  }

  predicate AllStrings(items: seq<Value>) {
    forall i | 0 <= i < |items| :: items[i].String?
  }

  lemma EnumAt(entries: seq<Entry>, key: string)
    requires EnumsListStrings(Object(entries)) && Lookup(entries, key).Some?
    ensures EnumsListStrings(Lookup(entries, key).value)
    ensures key == "enum" && Lookup(entries, key).value.Array? ==> AllStrings(Lookup(entries, key).value.items)
  {
    LookupEntry(entries, key);
  }

  lemma {:induction false} AllStringsSurvive(items: seq<Value>, methods: set<string>)
    requires AllStrings(items)
    ensures Survivors(items, methods) == items
  {
    if items == [] {
    } else {
      AllStringsSurvive(items[1..], methods);
    }
  }

  lemma LatentNeedsNonString(v: Value, methods: set<string>)
    requires EnumsListStrings(v) && !IsVariant(v, methods)
    ensures !IsLatent(v, methods)
  {
    if MethodSchema(v).Some? {
      var properties := Field(v, "properties").value.entries;
      var schema := MethodSchema(v).value;
      EnumAt(v.entries, "properties");
      EnumAt(properties, "method");
      if Lookup(schema, "enum").Some? && Lookup(schema, "enum").value.Array? {
        EnumAt(schema, "enum");
        AllStringsSurvive(Lookup(schema, "enum").value.items, methods);
      }
    }
  }

  lemma {:induction false} EnumsListStringsNoLatent(v: Value, methods: set<string>)
    requires EnumsListStrings(v)
    ensures NoLatent(v, methods)
    decreases v
  {
    match v
    case Array(items) =>
      forall i | 0 <= i < |items| && !IsVariant(items[i], methods)
        ensures !IsLatent(items[i], methods) && NoLatent(items[i], methods)
      {
        LatentNeedsNonString(items[i], methods);
        EnumsListStringsNoLatent(items[i], methods);
      }
    case Object(entries) =>
      forall i | 0 <= i < |entries| ensures NoLatent(entries[i].value, methods) {
        EnumsListStringsNoLatent(entries[i].value, methods);
      }
    case _ =>
  }

  /**
   On schemas whose `enum` arrays list strings, one pass removes every variant at every depth and a second is a no-op.
   */
  lemma PruneCompleteAndIdempotent(v: Value, methods: set<string>)
    requires EnumsListStrings(v)
    ensures NoVariants(Pruned(v, methods), methods)
    ensures Pruned(Pruned(v, methods), methods) == Pruned(v, methods)
  {
    EnumsListStringsNoLatent(v, methods);
    PruneCompleteIff(v, methods);
    PruneIdempotentIff(v, methods);
  }

  /** Kept items of an array stay in order: an item's position afterwards is the number of kept items before it. */
  lemma {:induction false} PruneKeepsOrder(items: seq<Value>, methods: set<string>, i: nat)
    requires i < |items| && !IsVariant(items[i], methods)
    ensures var position := |Survivors(items[..i], methods)|;
      && position < |Pruned(Array(items), methods).items|
      && Pruned(Array(items), methods).items[position] == Pruned(items[i], methods)
  {
    RetainKeepsOrder(items, v => !IsVariant(v, methods), i);
  }

  /** Without the hypothesis a pass can create a variant: one hidden inside an `enum` next to a listed name. */
  lemma PruneCanCreateVariant(name: string)
    ensures var v := Array([WithMethod("enum", Array([WithMethod("const", String(name)), String(name)]))]);
      && !NoVariants(Pruned(v, {name}), {name})
      && Pruned(Pruned(v, {name}), {name}) != Pruned(v, {name})
  {
    var methods := {name};
    var variant := WithMethod("const", String(name));
    WithMethodSchema("const", String(name));
    assert Lookup([Entry("const", String(name))], "const") == Some(String(name));
    assert IsVariant(variant, methods) && !IsVariant(String(name), methods);
    var values := [variant, String(name)];
    assert values[1..] == [String(name)] && [String(name)][1..] == [];
    assert Survivors([String(name)], methods) == [String(name)];
    assert Survivors(values, methods) == [String(name)];
    var latent := WithMethod("enum", Array(values));
    WithMethodSchema("enum", Array(values));
    var schema := [Entry("enum", Array(values))];
    assert schema[1..] == [] && Lookup(schema, "const").None? && Lookup(schema, "enum") == Some(Array(values));
    assert !IsVariant(latent, methods) && IsLatent(latent, methods);
    var v := Array([latent]);
    assert v.items[0] == latent && !NoLatent(v, methods);
    PruneCompleteIff(v, methods);
    PruneIdempotentIff(v, methods);
  }

  /** A variant schema whose `method` property has the one entry given. */
  function WithMethod(key: string, value: Value): Value {
    Object([Entry("properties", Object([Entry("method", Object([Entry(key, value)]))]))])
  }

  lemma WithMethodSchema(key: string, value: Value)
    ensures MethodSchema(WithMethod(key, value)) == Some([Entry(key, value)])
  {
    var byMethod := [Entry("method", Object([Entry(key, value)]))];
    assert Lookup([Entry("properties", Object(byMethod))], "properties") == Some(Object(byMethod));
    assert Lookup(byMethod, "method") == Some(Object([Entry(key, value)]));
  }
}
