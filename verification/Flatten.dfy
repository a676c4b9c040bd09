/**
 Flattening the `v2` namespace of a schema bundle into its root definitions: the loop that builds the flat map, the
 two checks that guard the result, and the theorem that every ref then resolves to the flattened image of what it
 resolved to before.
 */
module Flatten {
  import opened Prelude
  import opened Json
  import opened SchemaRefs
  import opened Reachability

  const V2 := "v2"
  const TITLE := "title"
  const SHARED := ["ClientRequest", "ServerNotification"]

  datatype FlattenError =
    | NotAnObject
    | NoDefinitions
    | NoV2Namespace
    | StillNamespaced(reference: string)
    | MissingDefinitions(names: set<string>)

  /** `rewrite_ref_prefix(.., "#/definitions/v2/", "#/definitions/")` on one ref. */
  function FlatRef(r: string): string {
    ReplaceAll(r, V2_DEFINITIONS, DEFINITIONS)
  }

  /** The name `collect_missing_definitions` looks up for a ref. */
  function RootName(r: string): Option<string> {
    if StartsWith(r, DEFINITIONS) then Some(FirstSegment(r[|DEFINITIONS|..])) else None
  }

  /** The guard looks a `#/definitions/` ref up by the segment up to the next `/`, and no other ref at all. */
  lemma RootNamed(reference: string, name: string, tail: string)
    requires '/' !in name && (tail == "" || tail[0] == '/')
    ensures RootName("#/definitions/" + (name + tail)) == Some(name)
    ensures (forall rest :: reference != "#/definitions/" + rest) ==> RootName(reference) == None
  {
    AfterPrefix("#/definitions/", name + tail);
    FirstSegmentThen(name, tail);
    if StartsWith(reference, DEFINITIONS) { assert reference == "#/definitions/" + reference[|DEFINITIONS|..]; }
  }

  /** `first_ref_with_prefix`, in document order. */
  function FirstWithPrefix(v: Value, prefix: string): Option<string>
    decreases v, 0
  {
    match v
    case Array(items) => FirstInItems(items, prefix)
    case Object(entries) =>
      var own := OwnRef(entries);
      if own.Some? && StartsWith(own.value, prefix) then own else FirstInEntries(entries, prefix)
    case _ => None
  }

  function FirstInItems(items: seq<Value>, prefix: string): Option<string>
    decreases items, 1
  {
    if items == [] then None
    else
      var r := FirstWithPrefix(items[0], prefix);
      if r.Some? then r else FirstInItems(items[1..], prefix)
  }

  function FirstInEntries(entries: seq<Entry>, prefix: string): Option<string>
    decreases entries, 1
  {
    if entries == [] then None
    else
      var r := FirstWithPrefix(entries[0].value, prefix);
      if r.Some? then r else FirstInEntries(entries[1..], prefix)
  }

  lemma {:induction false} FirstWithPrefixFinds(v: Value, prefix: string)
    requires WellFormed(v)
    ensures var r := FirstWithPrefix(v, prefix);
      && (r.None? <==> forall x | x in Refs(v) :: !StartsWith(x, prefix))
      && (r.Some? ==> r.value in Refs(v) && StartsWith(r.value, prefix))
    decreases v, 0
  {
    match v
    case Array(items) => FirstInItemsFinds(items, prefix);
    case Object(entries) =>
      FirstInEntriesFinds(entries, prefix);
      forall x
        ensures x in Refs(v) <==>
          OwnRef(entries) == Some(x) || exists i :: 0 <= i < |entries| && x in Refs(entries[i].value)
      {
        RefsOfObject(entries, x);
      }
    case _ =>
  }

  lemma {:induction false} FirstInItemsFinds(items: seq<Value>, prefix: string)
    requires forall i | 0 <= i < |items| :: WellFormed(items[i])
    ensures var r := FirstInItems(items, prefix);
      && (r.None? <==> forall i, x | 0 <= i < |items| && x in Refs(items[i]) :: !StartsWith(x, prefix))
      && (r.Some? ==> (exists i :: 0 <= i < |items| && r.value in Refs(items[i])) && StartsWith(r.value, prefix))
    decreases items, 1
  {
    if items == [] {
    } else {
      FirstWithPrefixFinds(items[0], prefix);
      FirstInItemsFinds(items[1..], prefix);
      assert forall i | 0 < i < |items| :: items[i] == items[1..][i - 1];
    }
  }

  lemma {:induction false} FirstInEntriesFinds(entries: seq<Entry>, prefix: string)
    requires forall i | 0 <= i < |entries| :: WellFormed(entries[i].value)
    ensures var r := FirstInEntries(entries, prefix);
      && (r.None? <==> forall i, x | 0 <= i < |entries| && x in Refs(entries[i].value) :: !StartsWith(x, prefix))
      && (r.Some? ==>
           (exists i :: 0 <= i < |entries| && r.value in Refs(entries[i].value)) && StartsWith(r.value, prefix))
    decreases entries, 1
  {
    if entries == [] {
    } else {
      FirstWithPrefixFinds(entries[0].value, prefix);
      FirstInEntriesFinds(entries[1..], prefix);
      assert forall i | 0 < i < |entries| :: entries[i] == entries[1..][i - 1];
    }
  }

  // What flattening computes.

  ghost predicate IsShared(definitions: seq<Entry>, name: string) {
    name in SHARED && Lookup(definitions, name).Some?
  }

  /** The root names the shared definitions refer to. */
  ghost function SharedSeeds(definitions: seq<Entry>): set<string> {
    set name, n |
      name in SHARED && Lookup(definitions, name).Some? && n in NonV2Names(Lookup(definitions, name).value) :: n
  }

  ghost predicate IsDependencySet(definitions: seq<Entry>, deps: set<string>) {
    IsLeastClosed(deps, SharedSeeds(definitions), NonV2Graph(definitions))
  }

  /** What the flat map binds a name to: a shared definition first, then a v2 one, then a root dependency. */
  ghost function FlatSource(definitions: seq<Entry>, v2: seq<Entry>, deps: set<string>, name: string): Option<Value> {
    if IsShared(definitions, name) then Lookup(definitions, name)
    else if Lookup(v2, name).Some? then Lookup(v2, name)
    else if name in deps && name != V2 then Lookup(definitions, name)
    else None
  }

  ghost predicate IsFlatMap(definitions: seq<Entry>, v2: seq<Entry>, deps: set<string>, flat: seq<Entry>) {
    && WellFormed(Object(flat))
    && forall name :: Lookup(flat, name) == FlatSource(definitions, v2, deps, name)
  }

  function FlatTitle(root: seq<Entry>): string {
    match Lookup(root, TITLE)
    case Some(String(title)) => title + "V2"
    case _ => "CodexAppServerProtocol" + "V2"
  }

  function FlatRoot(root: seq<Entry>, flat: seq<Entry>): seq<Entry> {
    Insert(Insert(root, TITLE, String(FlatTitle(root))), DEFS, Object(flat))
  }

  function FlatBundle(root: seq<Entry>, flat: seq<Entry>): Value {
    MapRefs(Object(FlatRoot(root, flat)), FlatRef)
  }

  ghost function Missing(bundle: Value, definitions: seq<Entry>): set<string> {
    set n | n in RefNames(bundle, RootName) && Lookup(definitions, n).None?
  }

  /** The two guards: no `v2` ref may be left, and every local ref must name a definition of the flat map. */
  ghost function Checked(root: seq<Entry>, flat: seq<Entry>): Result<Value, FlattenError> {
    var bundle := FlatBundle(root, flat);
    var bad := FirstWithPrefix(bundle, V2_DEFINITIONS);
    var missing := Missing(bundle, MapRefsInEntries(flat, FlatRef));
    if bad.Some? then Err(StillNamespaced(bad.value))
    else if missing != {} then Err(MissingDefinitions(missing))
    else Ok(bundle)
  }

  function ObjectField(v: Value, key: string): Option<seq<Entry>> {
    match Field(v, key)
    case Some(Object(entries)) => Some(entries)
    case _ => None
  }

  /** `build_flat_v2_schema`. */
  method BuildFlatV2Schema(bundle: Value) returns (r: Result<Value, FlattenError>)
    requires WellFormed(bundle)
    ensures !bundle.Object? ==> r == Err(NotAnObject)
    ensures bundle.Object? && ObjectField(bundle, DEFS).None? ==> r == Err(NoDefinitions)
    ensures ObjectField(bundle, DEFS).Some? && ObjectField(Object(ObjectField(bundle, DEFS).value), V2).None? ==>
      r == Err(NoV2Namespace)
    ensures ObjectField(bundle, DEFS).Some? && ObjectField(Object(ObjectField(bundle, DEFS).value), V2).Some? ==>
      var definitions := ObjectField(bundle, DEFS).value;
      var v2 := ObjectField(Object(definitions), V2).value;
      exists deps, flat ::
        && IsDependencySet(definitions, deps) && IsFlatMap(definitions, v2, deps, flat)
        && r == Checked(bundle.entries, flat)
        && (r.Ok? ==> OnlyRefsReplaced(Object(FlatRoot(bundle.entries, flat)), r.value, FlatRef))
  {
    if !bundle.Object? {
      return Err(NotAnObject);
    }
    var root := bundle.entries;
    var definitionsField := ObjectField(bundle, DEFS);
    if definitionsField.None? {
      return Err(NoDefinitions);
    }
    var definitions := definitionsField.value;
    var v2Field := ObjectField(Object(definitions), V2);
    if v2Field.None? {
      return Err(NoV2Namespace);
    }
    var v2 := v2Field.value;
    LookupEntry(root, DEFS);
    LookupEntry(definitions, V2);

    var seeds, shared := CollectShared(definitions);
    var deps := CollectDefinitionDependencies(definitions, seeds);
    var flat := FlattenDefinitions(definitions, v2, deps, shared);
    FlatRootWellFormed(root, flat);
    var flatBundle := RewriteRefs(Object(FlatRoot(root, flat)), FlatRef);
    MapRefsWellFormed(Object(FlatRoot(root, flat)), FlatRef);
    var bad := FirstWithPrefix(flatBundle, V2_DEFINITIONS);
    if bad.Some? {
      return Err(StillNamespaced(bad.value));
    }
    var missing := MissingFrom(flatBundle, MapRefsInEntries(flat, FlatRef));
    if missing != {} {
      return Err(MissingDefinitions(missing));
    }
    r := Ok(flatBundle);
  }

  /** `collect_missing_definitions` and the test of its result. */
  method MissingFrom(bundle: Value, definitions: seq<Entry>) returns (missing: set<string>)
    requires WellFormed(bundle)
    ensures missing == Missing(bundle, definitions)
  {
    var names := CollectRefNames(bundle, RootName, {});
    missing := set n | n in names && Lookup(definitions, n).None?;
  }

  method CollectShared(definitions: seq<Entry>) returns (seeds: set<string>, shared: seq<Entry>)
    requires WellFormed(Object(definitions))
    ensures seeds == SharedSeeds(definitions)
    ensures WellFormed(Object(shared))
    ensures forall name ::
      Lookup(shared, name) == if IsShared(definitions, name) then Lookup(definitions, name) else None
  {
    seeds, shared := {}, [];
    for i := 0 to |SHARED|
      invariant WellFormed(Object(shared))
      invariant forall n :: n in seeds <==> exists k ::
        0 <= k < i && Lookup(definitions, SHARED[k]).Some? && n in NonV2Names(Lookup(definitions, SHARED[k]).value)
      invariant forall name :: Lookup(shared, name) == if name in SHARED[..i] then Lookup(definitions, name) else None
    {
      var schema := Lookup(definitions, SHARED[i]);
      assert SHARED[..i + 1] == SHARED[..i] + [SHARED[i]];
      if schema.Some? {
        LookupEntry(definitions, SHARED[i]);
        seeds := CollectRefNames(schema.value, NonV2Name, seeds);
        InsertWellFormed(shared, SHARED[i], schema.value);
        forall name
          ensures Lookup(Insert(shared, SHARED[i], schema.value), name)
               == if name == SHARED[i] then schema else Lookup(shared, name)
        {
          LookupInsert(shared, SHARED[i], schema.value, name);
        }
        shared := Insert(shared, SHARED[i], schema.value);
      }
    }
    assert SHARED[..|SHARED|] == SHARED;
  }

  function Merged(definitions: seq<Entry>, v2: seq<Entry>, names: set<string>, name: string): Option<Value> {
    if Lookup(v2, name).Some? then Lookup(v2, name)
    else if name in names && name != V2 then Lookup(definitions, name)
    else None
  }

  method FlattenDefinitions(definitions: seq<Entry>, v2: seq<Entry>, deps: set<string>, shared: seq<Entry>)
    returns (flat: seq<Entry>)
    requires WellFormed(Object(definitions)) && WellFormed(Object(v2)) && WellFormed(Object(shared))
    requires forall name ::
      Lookup(shared, name) == if IsShared(definitions, name) then Lookup(definitions, name) else None
    ensures IsFlatMap(definitions, v2, deps, flat)
  {
    flat := v2;
    var rest := deps;
    while rest != {}
      invariant rest <= deps && WellFormed(Object(flat))
      invariant forall name :: Lookup(flat, name) == Merged(definitions, v2, deps - rest, name)
    {
      var name :| name in rest;
      rest := rest - {name};
      if name == V2 || Lookup(flat, name).Some? {
        continue;
      }
      var schema := Lookup(definitions, name);
      if schema.Some? {
        LookupEntry(definitions, name);
        flat := Bind(flat, name, schema.value);
      }
    }
    flat := Extend(flat, shared);
  }

  method Bind(entries: seq<Entry>, key: string, value: Value) returns (r: seq<Entry>)
    requires WellFormed(Object(entries)) && WellFormed(value)
    ensures WellFormed(Object(r)) && forall name ::
      Lookup(r, name) == if name == key then Some(value) else Lookup(entries, name)
  {
    r := Insert(entries, key, value);
    InsertWellFormed(entries, key, value);
    forall name ensures Lookup(r, name) == if name == key then Some(value) else Lookup(entries, name) {
      LookupInsert(entries, key, value, name);
    }
  }

  /** `Map::extend`. */
  method Extend(entries: seq<Entry>, more: seq<Entry>) returns (r: seq<Entry>)
    requires WellFormed(Object(entries)) && WellFormed(Object(more))
    ensures WellFormed(Object(r)) && forall name ::
      Lookup(r, name) == if Lookup(more, name).Some? then Lookup(more, name) else Lookup(entries, name)
  {
    r := entries;
    for i := 0 to |more|
      invariant WellFormed(Object(r))
      invariant forall name ::
        Lookup(r, name) == if Lookup(more[..i], name).Some? then Lookup(more[..i], name) else Lookup(entries, name)
    {
      ghost var before := r;
      r := Bind(r, more[i].key, more[i].value);
      ghost var longer := more[..i + 1];
      assert longer == more[..i] + [more[i]];
      forall name
        ensures Lookup(r, name) == if Lookup(longer, name).Some? then Lookup(longer, name) else Lookup(entries, name)
      {
        LookupSnoc(more[..i], more[i], name);
        LookupEntry(more[..i], more[i].key);
        assert Lookup(before, name)
             == if Lookup(more[..i], name).Some? then Lookup(more[..i], name) else Lookup(entries, name);
      }
    }
    assert more[..|more|] == more;
  }

  lemma {:induction false} LookupSnoc(entries: seq<Entry>, e: Entry, name: string)
    ensures Lookup(entries + [e], name) ==
      if Lookup(entries, name).Some? then Lookup(entries, name) else if e.key == name then Some(e.value) else None
  {
    if entries == [] {
    } else {
      assert (entries + [e])[1..] == entries[1..] + [e];
      LookupSnoc(entries[1..], e, name);
    }
  }

  lemma FlatRootWellFormed(root: seq<Entry>, flat: seq<Entry>)
    requires WellFormed(Object(root)) && WellFormed(Object(flat))
    ensures WellFormed(Object(FlatRoot(root, flat)))
  {
    InsertWellFormed(root, TITLE, String(FlatTitle(root)));
    InsertWellFormed(Insert(root, TITLE, String(FlatTitle(root))), DEFS, Object(flat));
  }

  lemma LookupRewritten(before: seq<Entry>, after: seq<Entry>, f: string -> string, key: string)
    requires OnlyRefsReplaced(Object(before), Object(after), f)
    ensures match Lookup(before, key)
      case None => Lookup(after, key).None?
      case Some(v) => Lookup(after, key).Some? && OnlyRefsReplacedAt(Entry(key, v), Lookup(after, key).value, f)
  {
    RewrittenIff(Object(before), Object(after), f);
    LookupMapRefs(before, f, key);
    if Lookup(before, key).Some? {
      var v := Lookup(before, key).value;
      RewrittenIff(v, MapRefs(v, f), f);
      EntryRewrittenIff(Entry(key, v), MapRefsAt(key, v, f), f);
    }
  }

  /**
   The members of a flattened schema: the title with `V2` behind it, the flat map, and every other member of the bundle,
   with nothing changed in them but their refs.
   */
  lemma FlatSchemaMembers(root: seq<Entry>, flat: seq<Entry>, schema: Value, key: string)
    requires Checked(root, flat) == Ok(schema)
    ensures schema.Object?
    ensures Field(schema, "title") == Some(String(
      match Lookup(root, "title") case Some(String(title)) => title + "V2" case _ => "CodexAppServerProtocolV2"))
    ensures Field(schema, DEFS).Some? && OnlyRefsReplaced(Object(flat), Field(schema, DEFS).value, FlatRef)
    ensures key !in {"title", DEFS} ==>
      match Lookup(root, key)
      case None => Field(schema, key).None?
      case Some(v) => Field(schema, key).Some? && OnlyRefsReplacedAt(Entry(key, v), Field(schema, key).value, FlatRef)
  {
    var titled := Insert(root, TITLE, String(FlatTitle(root)));
    var whole := FlatRoot(root, flat);
    assert "CodexAppServerProtocol" + "V2" == "CodexAppServerProtocolV2";
    RewrittenIff(Object(whole), schema, FlatRef);
    LookupInsert(root, TITLE, String(FlatTitle(root)), TITLE);
    LookupInsert(root, TITLE, String(FlatTitle(root)), key);
    LookupInsert(titled, DEFS, Object(flat), TITLE);
    LookupInsert(titled, DEFS, Object(flat), DEFS);
    LookupInsert(titled, DEFS, Object(flat), key);
    LookupRewritten(whole, schema.entries, FlatRef, TITLE);
    LookupRewritten(whole, schema.entries, FlatRef, DEFS);
    LookupRewritten(whole, schema.entries, FlatRef, key);
  }

  // What flattening means.

  /** A ref to a present v2 definition by its plain name. */
  ghost predicate IsPlainV2Ref(v2: seq<Entry>, r: string) {
    exists m :: r == V2_DEFINITIONS + m && '/' !in m && Lookup(v2, m).Some?
  }

  /** A ref to a root definition by its plain name. */
  ghost predicate IsPlainRootRef(r: string) {
    exists m :: r == DEFINITIONS + m && '/' !in m
  }

  /**
   The hypothesis of the theorems below: plain refs, and no clash between the root names used and the v2 names. It is
   about the bundle passed in; that assembly produces such bundles is not shown.
   */
  ghost predicate Flattenable(root: seq<Entry>, definitions: seq<Entry>, v2: seq<Entry>, deps: set<string>) {
    && (forall e | e in root && e.key != DEFS :: EntryRefs(e) == {})
    && Lookup(definitions, REF).None? && Lookup(v2, REF).None?
    && (forall n | IsShared(definitions, n) || n in deps ::
         n != V2 && Lookup(definitions, n).Some? && Lookup(v2, n).None?)
    && (forall n, r | Lookup(v2, n).Some? && r in Refs(Lookup(v2, n).value) :: IsPlainV2Ref(v2, r))
    && (forall n, r |
          (IsShared(definitions, n) || n in deps) && Lookup(definitions, n).Some?
          && r in Refs(Lookup(definitions, n).value) ::
          IsPlainV2Ref(v2, r) || IsPlainRootRef(r))
  }

  /** What a ref of the bundle resolves to before flattening. */
  function Target(definitions: seq<Entry>, v2: seq<Entry>, r: string): Option<Value> {
    if StartsWith(r, V2_DEFINITIONS) then Lookup(v2, r[|V2_DEFINITIONS|..])
    else if StartsWith(r, DEFINITIONS) then Lookup(definitions, r[|DEFINITIONS|..])
    else None
  }

  /** What a ref of a flat bundle resolves to. */
  function FlatTarget(flatDefinitions: seq<Entry>, r: string): Option<Value> {
    if StartsWith(r, DEFINITIONS) then Lookup(flatDefinitions, r[|DEFINITIONS|..]) else None
  }

  lemma PlainV2RefFlattened(m: string)
    requires '/' !in m
    ensures FlatRef(V2_DEFINITIONS + m) == DEFINITIONS + m
    ensures StartsWith(V2_DEFINITIONS + m, V2_DEFINITIONS) && (V2_DEFINITIONS + m)[|V2_DEFINITIONS|..] == m
  {
    ReplacePrefix(m, V2_DEFINITIONS, DEFINITIONS);
  }

  lemma PlainRootRefKept(m: string)
    requires '/' !in m
    ensures FlatRef(DEFINITIONS + m) == DEFINITIONS + m && !StartsWith(DEFINITIONS + m, V2_DEFINITIONS)
    ensures StartsWith(DEFINITIONS + m, DEFINITIONS) && (DEFINITIONS + m)[|DEFINITIONS|..] == m
    ensures RootName(DEFINITIONS + m) == Some(m) && NonV2Name(DEFINITIONS + m) == Some(m)
  {
    var r := DEFINITIONS + m;
    forall j | |V2_DEFINITIONS| - 1 <= j < |r| ensures r[j] != '/' {
      assert r[j] == m[j - |DEFINITIONS|];
    }
    ReplaceNothing(r, V2_DEFINITIONS, DEFINITIONS);
    StartsWithLast(r, V2_DEFINITIONS);
    assert r[..|DEFINITIONS|] == DEFINITIONS && r[|DEFINITIONS|..] == m;
    FirstSegmentWhole(m);
  }

  /** A ref of a flattened definition: where it pointed, where its image points, and that both are the same thing. */
  lemma FlatRefResolves(root: seq<Entry>, definitions: seq<Entry>, v2: seq<Entry>, deps: set<string>,
          flat: seq<Entry>, name: string, r: string)
    requires Flattenable(root, definitions, v2, deps) && IsDependencySet(definitions, deps)
    requires IsFlatMap(definitions, v2, deps, flat)
    requires Lookup(flat, name).Some? && r in Refs(Lookup(flat, name).value)
    ensures Target(definitions, v2, r).Some? && FlatTarget(flat, FlatRef(r)) == Target(definitions, v2, r)
    ensures IsPlainRootRef(FlatRef(r))
  {
    RefIsPlain(root, definitions, v2, deps, flat, name, r);
    if IsPlainV2Ref(v2, r) {
      var m :| r == V2_DEFINITIONS + m && '/' !in m && Lookup(v2, m).Some?;
      V2RefResolves(definitions, v2, flat, m);
      NoClash(root, definitions, v2, deps, flat, m);
    } else {
      var m :| r == DEFINITIONS + m && '/' !in m;
      RootRefInDeps(definitions, deps, name, m);
      RootRefResolves(definitions, v2, flat, m);
      NoClash(root, definitions, v2, deps, flat, m);
    }
  }

  lemma RefIsPlain(root: seq<Entry>, definitions: seq<Entry>, v2: seq<Entry>, deps: set<string>, flat: seq<Entry>,
          name: string, r: string)
    requires Flattenable(root, definitions, v2, deps) && IsFlatMap(definitions, v2, deps, flat)
    requires Lookup(flat, name).Some? && r in Refs(Lookup(flat, name).value)
    ensures
      || IsPlainV2Ref(v2, r)
      || (IsPlainRootRef(r) && (IsShared(definitions, name) || name in deps)
          && Lookup(flat, name) == Lookup(definitions, name))
  {
    assert Lookup(flat, name) == FlatSource(definitions, v2, deps, name);
  }

  lemma NoClash(root: seq<Entry>, definitions: seq<Entry>, v2: seq<Entry>, deps: set<string>, flat: seq<Entry>,
          m: string)
    requires Flattenable(root, definitions, v2, deps) && IsFlatMap(definitions, v2, deps, flat)
    ensures Lookup(v2, m).Some? ==> Lookup(flat, m) == Lookup(v2, m)
    ensures m in deps ==> Lookup(definitions, m).Some? && Lookup(flat, m) == Lookup(definitions, m)
  {
    assert Lookup(flat, m) == FlatSource(definitions, v2, deps, m);
  }

  lemma V2RefResolves(definitions: seq<Entry>, v2: seq<Entry>, flat: seq<Entry>, m: string)
    requires '/' !in m
    ensures Target(definitions, v2, V2_DEFINITIONS + m) == Lookup(v2, m)
    ensures FlatTarget(flat, FlatRef(V2_DEFINITIONS + m)) == Lookup(flat, m)
    ensures IsPlainRootRef(FlatRef(V2_DEFINITIONS + m))
  {
    PlainV2RefFlattened(m);
    PlainRootRefKept(m);
  }

  lemma RootRefResolves(definitions: seq<Entry>, v2: seq<Entry>, flat: seq<Entry>, m: string)
    requires '/' !in m
    ensures Target(definitions, v2, DEFINITIONS + m) == Lookup(definitions, m)
    ensures FlatTarget(flat, FlatRef(DEFINITIONS + m)) == Lookup(flat, m) && IsPlainRootRef(FlatRef(DEFINITIONS + m))
  {
    PlainRootRefKept(m);
  }

  lemma RootRefInDeps(definitions: seq<Entry>, deps: set<string>, name: string, m: string)
    requires IsDependencySet(definitions, deps)
    requires (IsShared(definitions, name) || name in deps) && Lookup(definitions, name).Some?
    requires DEFINITIONS + m in Refs(Lookup(definitions, name).value) && '/' !in m
    ensures m in deps
  {
    PlainRootRefKept(m);
    assert m in NonV2Names(Lookup(definitions, name).value);
    if IsShared(definitions, name) {
      assert m in SharedSeeds(definitions);
    } else {
      assert name in NonV2Graph(definitions) && m in NonV2Graph(definitions)[name];
    }
  }

  lemma InsertedEntry(entries: seq<Entry>, key: string, value: Value, e: Entry)
    requires DistinctKeys(entries) && e in Insert(entries, key, value)
    ensures e == Entry(key, value) || (e in entries && e.key != key)
  {
    var i :| 0 <= i < |Insert(entries, key, value)| && Insert(entries, key, value)[i] == e;
    InsertKeepsDistinct(entries, key, value);
    LookupAt(Insert(entries, key, value), i);
    LookupInsert(entries, key, value, e.key);
    LookupEntry(entries, e.key);
  }

  /** The only refs of the flat root are those of its definitions. */
  lemma FlatRootRefs(root: seq<Entry>, flat: seq<Entry>, r: string)
    requires WellFormed(Object(root)) && WellFormed(Object(flat)) && Lookup(flat, REF).None?
    requires forall e | e in root && e.key != DEFS :: EntryRefs(e) == {}
    requires r in Refs(Object(FlatRoot(root, flat)))
    ensures exists name :: Lookup(flat, name).Some? && r in Refs(Lookup(flat, name).value)
  {
    var titled := Insert(root, TITLE, String(FlatTitle(root)));
    InsertKeepsDistinct(root, TITLE, String(FlatTitle(root)));
    var all := FlatRoot(root, flat);
    var i :| 0 <= i < |all| && r in EntryRefs(all[i]);
    InsertedEntry(titled, DEFS, Object(flat), all[i]);
    if all[i] != Entry(DEFS, Object(flat)) {
      InsertedEntry(root, TITLE, String(FlatTitle(root)), all[i]);
    }
    assert EntryRefs(Entry(TITLE, String(FlatTitle(root)))) == {};
    assert all[i] == Entry(DEFS, Object(flat));
    assert EntryRefs(Entry(DEFS, Object(flat))) == Refs(Object(flat));
    var k :| 0 <= k < |flat| && r in EntryRefs(flat[k]);
    LookupAt(flat, k);
  }

  lemma {:induction false} MapRefsWellFormed(v: Value, f: string -> string)
    requires WellFormed(v)
    ensures WellFormed(MapRefs(v, f))
    decreases v
  {
    match v
    case Array(items) => forall i | 0 <= i < |items| { MapRefsWellFormed(items[i], f); }
    case Object(entries) =>
      forall i | 0 <= i < |entries|
        ensures WellFormed(MapRefsInEntries(entries, f)[i].value)
      {
        MapRefsWellFormed(entries[i].value, f);
      }
      MapRefsKeepsDistinct(entries, f);
    case _ =>
  }

  /** Under that hypothesis both guards pass: flattening succeeds. */
  lemma FlattenSucceeds(root: seq<Entry>, definitions: seq<Entry>, v2: seq<Entry>, deps: set<string>, flat: seq<Entry>)
    requires WellFormed(Object(root))
    requires Flattenable(root, definitions, v2, deps) && IsDependencySet(definitions, deps)
    requires IsFlatMap(definitions, v2, deps, flat)
    ensures Checked(root, flat) == Ok(FlatBundle(root, flat))
    ensures forall r | r in Refs(FlatBundle(root, flat)) :: !StartsWith(r, V2_DEFINITIONS)
  {
    var whole, bundle := Object(FlatRoot(root, flat)), FlatBundle(root, flat);
    FlatRootWellFormed(root, flat);
    MapRefsWellFormed(whole, FlatRef);
    RefsOfMapRefs(whole, FlatRef);
    assert Lookup(flat, REF) == FlatSource(definitions, v2, deps, REF);
    forall image | image in Refs(bundle)
      ensures !StartsWith(image, V2_DEFINITIONS)
      ensures RootName(image).Some? ==> Lookup(MapRefsInEntries(flat, FlatRef), RootName(image).value).Some?
    {
      var r :| r in Refs(whole) && FlatRef(r) == image;
      FlatRootRefs(root, flat, r);
      var name :| Lookup(flat, name).Some? && r in Refs(Lookup(flat, name).value);
      FlatRefResolves(root, definitions, v2, deps, flat, name, r);
      var m :| image == DEFINITIONS + m && '/' !in m;
      PlainRootRefKept(m);
      LookupMapRefs(flat, FlatRef, m);
    }
    FirstWithPrefixFinds(bundle, V2_DEFINITIONS);
    assert Missing(bundle, MapRefsInEntries(flat, FlatRef)) == {};
  }

  /** The shape, on the one set of dependencies there is. */
  ghost predicate IsPlainBundle(root: seq<Entry>, definitions: seq<Entry>, v2: seq<Entry>) {
    exists deps :: IsDependencySet(definitions, deps) && Flattenable(root, definitions, v2, deps)
  }

  /** What `BuildFlatV2Schema` promises of its result is enough: a plain bundle is flattened, and no v2 ref is left. */
  lemma PlainBundleFlattens(root: seq<Entry>, definitions: seq<Entry>, v2: seq<Entry>, r: Result<Value, FlattenError>)
    requires WellFormed(Object(root)) && IsPlainBundle(root, definitions, v2)
    requires exists deps, flat ::
      IsDependencySet(definitions, deps) && IsFlatMap(definitions, v2, deps, flat) && r == Checked(root, flat)
    ensures r.Ok? && forall x | x in Refs(r.value) :: !StartsWith(x, V2_DEFINITIONS)
  {
    var deps, flat :|
      IsDependencySet(definitions, deps) && IsFlatMap(definitions, v2, deps, flat) && r == Checked(root, flat);
    var same :| IsDependencySet(definitions, same) && Flattenable(root, definitions, v2, same);
    LeastClosedUnique(deps, same, SharedSeeds(definitions), NonV2Graph(definitions));
    FlattenSucceeds(root, definitions, v2, deps, flat);
  }

  /**
   Reference meaning is preserved: in a flattened bundle each definition is the image of the one it came from, and
   each of its refs resolves to the image of what the original ref resolved to.
   */
  lemma FlattenPreservesMeaning(root: seq<Entry>, definitions: seq<Entry>, v2: seq<Entry>, deps: set<string>,
          flat: seq<Entry>, name: string, r: string)
    requires Flattenable(root, definitions, v2, deps) && IsDependencySet(definitions, deps)
    requires IsFlatMap(definitions, v2, deps, flat)
    requires Lookup(flat, name).Some? && r in Refs(Lookup(flat, name).value)
    ensures
      var flatDefinitions := MapRefsInEntries(flat, FlatRef);
      var image := Lookup(flatDefinitions, name);
      && image == Some(MapRefs(Lookup(flat, name).value, FlatRef))
      && FlatRef(r) in Refs(image.value)
      && Target(definitions, v2, r).Some?
      && FlatTarget(flatDefinitions, FlatRef(r)) == Some(MapRefs(Target(definitions, v2, r).value, FlatRef))
  {
    FlatRefResolves(root, definitions, v2, deps, flat, name, r);
    assert Lookup(flat, REF) == FlatSource(definitions, v2, deps, REF);
    LookupMapRefs(flat, FlatRef, name);
    RefsOfMapRefs(Lookup(flat, name).value, FlatRef);
    var m :| FlatRef(r) == DEFINITIONS + m && '/' !in m;
    PlainRootRefKept(m);
    LookupMapRefs(flat, FlatRef, m);
  }

  // When a ref keeps its meaning, for any bundle.

  /** The flattened image of what a ref resolved to. */
  function Image(v: Option<Value>): Option<Value> {
    if v.Some? then Some(MapRefs(v.value, FlatRef)) else None
  }

  /** A ref means in the returned schema the image of what it meant in the bundle. */
  predicate KeepsMeaning(definitions: seq<Entry>, v2: seq<Entry>, flat: seq<Entry>, r: string) {
    FlatTarget(MapRefsInEntries(flat, FlatRef), FlatRef(r)) == Image(Target(definitions, v2, r))
  }

  lemma FlatLookup(definitions: seq<Entry>, v2: seq<Entry>, deps: set<string>, flat: seq<Entry>, m: string)
    requires IsFlatMap(definitions, v2, deps, flat) && m != REF && '/' !in m
    ensures FlatTarget(MapRefsInEntries(flat, FlatRef), DEFINITIONS + m) == Image(FlatSource(definitions, v2, deps, m))
  {
    assert Lookup(flat, m) == FlatSource(definitions, v2, deps, m);
    PlainRootRefKept(m);
    LookupMapRefs(flat, FlatRef, m);
  }

  /**
   A plain ref to a root definition keeps its meaning exactly when the name is a shared one; or a v2 definition of that
   name has the same image as the root one; or no v2 definition has the name, and the root one is a dependency if there.
   */
  lemma RootRefKeepsMeaningIff(
    definitions: seq<Entry>, v2: seq<Entry>, deps: set<string>, flat: seq<Entry>, m: string
  )
    requires IsFlatMap(definitions, v2, deps, flat) && m != REF && '/' !in m
    ensures KeepsMeaning(definitions, v2, flat, DEFINITIONS + m) <==>
      if IsShared(definitions, m) then true
      else if Lookup(v2, m).Some? then Image(Lookup(v2, m)) == Image(Lookup(definitions, m))
      else Lookup(definitions, m).None? || (m in deps && m != V2)
  {
    RootRefResolves(definitions, v2, flat, m);
    PlainRootRefKept(m);
    FlatLookup(definitions, v2, deps, flat, m);
  }

  /**
   A plain ref to a v2 definition keeps its meaning exactly when no shared definition of that name has another image,
   and no root dependency takes the place of a v2 definition that is not there.
   */
  lemma V2RefKeepsMeaningIff(
    definitions: seq<Entry>, v2: seq<Entry>, deps: set<string>, flat: seq<Entry>, m: string
  )
    requires IsFlatMap(definitions, v2, deps, flat) && m != REF && '/' !in m
    ensures KeepsMeaning(definitions, v2, flat, V2_DEFINITIONS + m) <==>
      if IsShared(definitions, m) then Image(Lookup(v2, m)) == Image(Lookup(definitions, m))
      else Lookup(v2, m).Some? || Lookup(definitions, m).None? || m !in deps || m == V2
  {
    V2RefResolves(definitions, v2, flat, m);
    PlainV2RefFlattened(m);
    FlatLookup(definitions, v2, deps, flat, m);
  }

  // A bundle whose names clash.

  function RefTo(reference: string): Value {
    Object([Entry(REF, String(reference))])
  }

  const CLASHING_V2 := [
    Entry("Thing", Bool(false)),
    Entry("ServerNotification", Bool(false)),
    Entry("Holder", RefTo("#/definitions/v2/ServerNotification"))
  ]

  const CLASHING := [
    Entry("ClientRequest", RefTo("#/definitions/Thing")),
    Entry("ServerNotification", Bool(true)),
    Entry("Thing", Bool(true)),
    Entry(V2, Object(CLASHING_V2))
  ]

  const CLASHING_ROOT := [Entry(DEFS, Object(CLASHING))]

  /** Every lookup in the two maps. */
  lemma ClashingLookups(name: string)
    ensures Lookup(CLASHING, name) ==
      if name == "ClientRequest" then Some(RefTo("#/definitions/Thing"))
      else if name == "ServerNotification" || name == "Thing" then Some(Bool(true))
      else if name == V2 then Some(Object(CLASHING_V2))
      else None
    ensures Lookup(CLASHING_V2, name) ==
      if name == "Thing" || name == "ServerNotification" then Some(Bool(false))
      else if name == "Holder" then Some(RefTo("#/definitions/v2/ServerNotification"))
      else None
  {
    var a, b := CLASHING, CLASHING_V2;
    assert Lookup(a, name) == if name == a[0].key then Some(a[0].value) else Lookup(a[1..], name);
    assert a[1..][1..] == a[2..] && a[2..][1..] == a[3..] && a[3..][1..] == [];
    assert Lookup(a[1..], name) == if name == a[1].key then Some(a[1].value) else Lookup(a[2..], name);
    assert Lookup(a[2..], name) == if name == a[2].key then Some(a[2].value) else Lookup(a[3..], name);
    assert Lookup(a[3..], name) == if name == a[3].key then Some(a[3].value) else None;
    assert Lookup(b, name) == if name == b[0].key then Some(b[0].value) else Lookup(b[1..], name);
    assert b[1..][1..] == b[2..] && b[2..][1..] == [];
    assert Lookup(b[1..], name) == if name == b[1].key then Some(b[1].value) else Lookup(b[2..], name);
  }

  lemma ClashingRefs()
    ensures "#/definitions/Thing" == DEFINITIONS + "Thing"
    ensures "#/definitions/v2/ServerNotification" == V2_DEFINITIONS + "ServerNotification"
    ensures '/' !in "Thing" && '/' !in "ServerNotification"
  {
  }

  /**
   In the flat schema `Thing` is the v2 definition and `ServerNotification` the root one: each ref changes meaning.
   */
  lemma ClashChangesMeaning(deps: set<string>, flat: seq<Entry>)
    requires IsFlatMap(CLASHING, CLASHING_V2, deps, flat)
    ensures !KeepsMeaning(CLASHING, CLASHING_V2, flat, "#/definitions/Thing")
    ensures !KeepsMeaning(CLASHING, CLASHING_V2, flat, "#/definitions/v2/ServerNotification")
  {
    ClashingLookups("Thing");
    ClashingLookups("ServerNotification");
    ClashingRefs();
    RootRefKeepsMeaningIff(CLASHING, CLASHING_V2, deps, flat, "Thing");
    V2RefKeepsMeaningIff(CLASHING, CLASHING_V2, deps, flat, "ServerNotification");
  }

  lemma ClashingImages(image: string)
    requires image == FlatRef("#/definitions/Thing") || image == FlatRef("#/definitions/v2/ServerNotification")
    ensures image == DEFINITIONS + "Thing" || image == DEFINITIONS + "ServerNotification"
    ensures !StartsWith(image, V2_DEFINITIONS) && RootName(image) in [Some("Thing"), Some("ServerNotification")]
  {
    ClashingRefs();
    PlainRootRefKept("Thing");
    PlainRootRefKept("ServerNotification");
    PlainV2RefFlattened("ServerNotification");
  }

  lemma RefsOfRefTo(reference: string)
    ensures Refs(RefTo(reference)) == {reference}
  {
    var e := Entry(REF, String(reference));
    assert RefTo(reference).entries[0] == e && EntryRefs(e) == {reference};
  }

  /** The flat map of the clashing bundle, whatever its dependencies. */
  lemma ClashingFlat(deps: set<string>, flat: seq<Entry>, name: string)
    requires IsFlatMap(CLASHING, CLASHING_V2, deps, flat)
    ensures Lookup(flat, name) ==
      if name == "ClientRequest" then Some(RefTo("#/definitions/Thing"))
      else if name == "ServerNotification" then Some(Bool(true))
      else if name == "Thing" then Some(Bool(false))
      else if name == "Holder" then Some(RefTo("#/definitions/v2/ServerNotification"))
      else None
  {
    assert Lookup(flat, name) == FlatSource(CLASHING, CLASHING_V2, deps, name);
    ClashingLookups(name);
  }

  lemma ClashingRefOf(deps: set<string>, flat: seq<Entry>, name: string, r: string)
    requires IsFlatMap(CLASHING, CLASHING_V2, deps, flat) && Lookup(flat, name).Some?
    requires r in Refs(Lookup(flat, name).value)
    ensures r == "#/definitions/Thing" || r == "#/definitions/v2/ServerNotification"
  {
    ClashingFlat(deps, flat, name);
    RefsOfRefTo("#/definitions/Thing");
    RefsOfRefTo("#/definitions/v2/ServerNotification");
  }

  lemma ClashingBundleRefs(deps: set<string>, flat: seq<Entry>, r: string)
    requires WellFormed(Object(CLASHING_ROOT)) && IsFlatMap(CLASHING, CLASHING_V2, deps, flat)
    requires r in Refs(Object(FlatRoot(CLASHING_ROOT, flat)))
    ensures r == "#/definitions/Thing" || r == "#/definitions/v2/ServerNotification"
  {
    ClashingFlat(deps, flat, REF);
    FlatRootRefs(CLASHING_ROOT, flat, r);
    var name :| Lookup(flat, name).Some? && r in Refs(Lookup(flat, name).value);
    ClashingRefOf(deps, flat, name, r);
  }

  lemma ClashingImagePresent(deps: set<string>, flat: seq<Entry>, image: string)
    requires IsFlatMap(CLASHING, CLASHING_V2, deps, flat)
    requires image == FlatRef("#/definitions/Thing") || image == FlatRef("#/definitions/v2/ServerNotification")
    ensures !StartsWith(image, V2_DEFINITIONS) && RootName(image).Some?
    ensures Lookup(MapRefsInEntries(flat, FlatRef), RootName(image).value).Some?
  {
    ClashingImages(image);
    var m := RootName(image).value;
    ClashingFlat(deps, flat, m);
    LookupMapRefs(flat, FlatRef, m);
  }

  /** The guards do not notice: the bundle is flattened all the same. */
  lemma ClashIsNotCaught(deps: set<string>, flat: seq<Entry>)
    requires IsFlatMap(CLASHING, CLASHING_V2, deps, flat)
    ensures Checked(CLASHING_ROOT, flat).Ok?
  {
    var whole, bundle := Object(FlatRoot(CLASHING_ROOT, flat)), FlatBundle(CLASHING_ROOT, flat);
    ClashingWellFormed();
    FlatRootWellFormed(CLASHING_ROOT, flat);
    MapRefsWellFormed(whole, FlatRef);
    RefsOfMapRefs(whole, FlatRef);
    forall image | image in Refs(bundle)
      ensures !StartsWith(image, V2_DEFINITIONS) && RootName(image).Some?
      ensures Lookup(MapRefsInEntries(flat, FlatRef), RootName(image).value).Some?
    {
      var r :| r in Refs(whole) && FlatRef(r) == image;
      ClashingBundleRefs(deps, flat, r);
      ClashingImagePresent(deps, flat, image);
    }
    FirstWithPrefixFinds(bundle, V2_DEFINITIONS);
    assert Missing(bundle, MapRefsInEntries(flat, FlatRef)) == {};
  }

  lemma ClashingWellFormed()
    ensures WellFormed(Object(CLASHING_ROOT))
  {
    assert WellFormed(RefTo("#/definitions/Thing")) && WellFormed(RefTo("#/definitions/v2/ServerNotification"));
    assert WellFormed(Object(CLASHING_V2));
    assert WellFormed(Object(CLASHING));
  }

  /** Whatever the bundle, a success means what the guards promise. */
  lemma FlattenSound(root: seq<Entry>, flat: seq<Entry>, bundle: Value, r: string)
    requires WellFormed(Object(root)) && WellFormed(Object(flat))
    requires Checked(root, flat) == Ok(bundle) && r in Refs(bundle)
    ensures !StartsWith(r, V2_DEFINITIONS)
    ensures RootName(r).Some? ==> Lookup(MapRefsInEntries(flat, FlatRef), RootName(r).value).Some?
  {
    assert bundle == FlatBundle(root, flat);
    FlatRootWellFormed(root, flat);
    MapRefsWellFormed(Object(FlatRoot(root, flat)), FlatRef);
    FirstWithPrefixFinds(bundle, V2_DEFINITIONS);
    NothingMissing(bundle, MapRefsInEntries(flat, FlatRef), r);
  }

  lemma NothingMissing(bundle: Value, definitions: seq<Entry>, r: string)
    requires r in Refs(bundle) && Missing(bundle, definitions) == {}
    ensures RootName(r).Some? ==> Lookup(definitions, RootName(r).value).Some?
  {
    if RootName(r).Some? {
      assert RootName(r).value in RefNames(bundle, RootName) && RootName(r).value !in Missing(bundle, definitions);
    }
  }
}
