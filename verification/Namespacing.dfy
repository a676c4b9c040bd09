/**
 The two passes that move `#/definitions/X` refs under a namespace while a schema bundle is assembled, and when
 running such a pass a second time changes nothing. The bundle builder runs the single-namespace pass a second time.
 */
module Namespacing {
  import opened Prelude
  import opened Json
  import opened SchemaRefs

  // Towards one namespace.

  function IntoNamespace(reference: string, ns: string): string {
    if StartsWith(reference, DEFINITIONS) && !StartsWith(reference[|DEFINITIONS|..], ns + "/")
    then DEFINITIONS + ns + "/" + reference[|DEFINITIONS|..]
    else reference
  }

  function Namespaced(v: Value, ns: string): Value {
    MapRefs(v, r => IntoNamespace(r, ns))
  }

  /** `rewrite_refs_to_namespace`. */
  method RewriteRefsToNamespace(v: Value, ns: string) returns (r: Value)
    ensures r == Namespaced(v, ns)
    ensures OnlyRefsReplaced(v, r, reference => IntoNamespace(reference, ns))
  {
    r := RewriteRefs(v, reference => IntoNamespace(reference, ns));
  }

  lemma IntoNamespaceStays(r: string, ns: string)
    ensures IntoNamespace(IntoNamespace(r, ns), ns) == IntoNamespace(r, ns)
    ensures StartsWith(IntoNamespace(r, ns), DEFINITIONS) == StartsWith(r, DEFINITIONS)
    ensures StartsWith(r, DEFINITIONS) ==> StartsWith(IntoNamespace(r, ns)[|DEFINITIONS|..], ns + "/")
  {
    if StartsWith(r, DEFINITIONS) && !StartsWith(r[|DEFINITIONS|..], ns + "/") {
      var suffix := r[|DEFINITIONS|..];
      AfterPrefix(DEFINITIONS, ns + "/" + suffix);
      assert DEFINITIONS + ns + "/" + suffix == DEFINITIONS + (ns + "/" + suffix);
      AfterPrefix(ns + "/", suffix);
    }
  }

  /**
   Where a ref goes: `#/definitions/X` to `#/definitions/<ns>/X`, with all of `X` behind the namespace, unless `X` is in
   the namespace already; any other ref stays.
   */
  lemma RefIntoNamespace(reference: string, suffix: string, ns: string)
    ensures (exists inside :: suffix == ns + "/" + inside) ==>
      IntoNamespace("#/definitions/" + suffix, ns) == "#/definitions/" + suffix
    ensures (forall inside :: suffix != ns + "/" + inside) ==>
      IntoNamespace("#/definitions/" + suffix, ns) == "#/definitions/" + ns + "/" + suffix
    ensures (forall rest :: reference != "#/definitions/" + rest) ==> IntoNamespace(reference, ns) == reference
  {
    AfterPrefix("#/definitions/", suffix);
    if inside :| suffix == ns + "/" + inside { AfterPrefix(ns + "/", inside); }
    if StartsWith(suffix, ns + "/") { assert suffix == ns + "/" + suffix[|ns + "/"|..]; }
    if StartsWith(reference, DEFINITIONS) { assert reference == "#/definitions/" + reference[|DEFINITIONS|..]; }
  }

  /** So every local ref of the schema is found again, inside the namespace. */
  lemma NamespacedRefsMoved(v: Value, ns: string, suffix: string)
    requires "#/definitions/" + suffix in Refs(v) && forall inside :: suffix != ns + "/" + inside
    ensures "#/definitions/" + ns + "/" + suffix in Refs(Namespaced(v, ns))
  {
    RefsOfMapRefs(v, r => IntoNamespace(r, ns));
    RefIntoNamespace("", suffix, ns);
  }

  /** A second pass towards the same namespace is a no-op, for every schema and every namespace name. */
  lemma NamespacedIdempotent(v: Value, ns: string)
    ensures Namespaced(Namespaced(v, ns), ns) == Namespaced(v, ns)
  {
    var f := (r: string) => IntoNamespace(r, ns);
    forall r | r in Refs(v) ensures f(f(r)) == f(r) {
      IntoNamespaceStays(r, ns);
    }
    MapRefsCompose(v, f, f, f);
  }

  /** After a pass every local ref lies in the namespace, and no other ref was touched. */
  lemma NamespacedRefs(v: Value, ns: string, reference: string)
    requires reference in Refs(Namespaced(v, ns))
    ensures StartsWith(reference, DEFINITIONS) ==> StartsWith(reference[|DEFINITIONS|..], ns + "/")
    ensures !StartsWith(reference, DEFINITIONS) ==> reference in Refs(v)
  {
    var f := (r: string) => IntoNamespace(r, ns);
    RefsOfMapRefs(v, f);
    var r :| r in Refs(v) && f(r) == reference;
    IntoNamespaceStays(r, ns);
  }

  // Towards the namespaces that own the referenced types.

  function TrimDigits(name: string): string {
    if name != "" && '0' <= name[|name| - 1] <= '9' then TrimDigits(name[..|name| - 1]) else name
  }

  /** `namespace_for_definition`: by name, else by the name without its trailing digits. */
  function NamespaceFor(name: string, types: map<string, string>): Option<string> {
    if name in types then Some(types[name])
    else if TrimDigits(name) != name && TrimDigits(name) in types then Some(types[TrimDigits(name)])
    else None
  }

  /** The namespace a ref is moved to, if any. */
  function Owner(reference: string, types: map<string, string>): Option<string> {
    if StartsWith(reference, DEFINITIONS) then NamespaceFor(FirstSegment(reference[|DEFINITIONS|..]), types) else None
  }

  function IntoOwner(reference: string, types: map<string, string>): string {
    match Owner(reference, types)
    case Some(ns) => DEFINITIONS + ns + "/" + reference[|DEFINITIONS|..]
    case None => reference
  }

  function OwnerNamespaced(v: Value, types: map<string, string>): Value {
    MapRefs(v, r => IntoOwner(r, types))
  }

  /** `rewrite_refs_to_known_namespaces`. */
  method RewriteRefsToKnownNamespaces(v: Value, types: map<string, string>) returns (r: Value)
    ensures r == OwnerNamespaced(v, types)
    ensures OnlyRefsReplaced(v, r, reference => IntoOwner(reference, types))
  {
    r := RewriteRefs(v, reference => IntoOwner(reference, types));
  }

  predicate AllDigits(s: string) {
    forall c | c in s :: '0' <= c <= '9'
  }

  lemma {:induction false} TrimDigitsOf(base: string, digits: string)
    requires AllDigits(digits) && (base == "" || !('0' <= base[|base| - 1] <= '9'))
    ensures TrimDigits(base + digits) == base
    decreases |digits|
  {
    if digits == "" {
      assert base + digits == base;
    } else {
      var shorter, last := digits[..|digits| - 1], digits[|digits| - 1];
      assert last in digits && forall c | c in shorter :: c in digits;
      assert (base + digits)[..|base + digits| - 1] == base + shorter;
      TrimDigitsOf(base, shorter);
    }
  }

  lemma OwnerOf(base: string, digits: string, tail: string, types: map<string, string>)
    requires '/' !in base + digits && (tail == "" || tail[0] == '/')
    requires AllDigits(digits) && (base == "" || !('0' <= base[|base| - 1] <= '9'))
    ensures Owner(DEFINITIONS + (base + digits + tail), types) ==
      if base + digits in types then Some(types[base + digits])
      else if base in types then Some(types[base])
      else None
  {
    var name := base + digits;
    AfterPrefix(DEFINITIONS, name + tail);
    FirstSegmentThen(name, tail);
    TrimDigitsOf(base, digits);
    assert digits == "" ==> name == base;
  }

  /**
   Where a ref goes: with a known type as its first segment, or one that is known without its trailing digits, behind
   the namespace of that type, and otherwise nowhere. `digits` are all the digits the segment ends with.
   */
  lemma RefIntoOwner(base: string, digits: string, tail: string, types: map<string, string>)
    requires '/' !in base + digits && (tail == "" || tail[0] == '/')
    requires AllDigits(digits) && (base == "" || !('0' <= base[|base| - 1] <= '9'))
    ensures var name, path := base + digits, base + digits + tail;
      IntoOwner("#/definitions/" + path, types) ==
        if name in types then "#/definitions/" + types[name] + "/" + path
        else if base in types then "#/definitions/" + types[base] + "/" + path
        else "#/definitions/" + path
  {
    OwnerOf(base, digits, tail, types);
    AfterPrefix(DEFINITIONS, base + digits + tail);
  }

  /** A ref that is not local stays. */
  lemma OtherRefStays(reference: string, types: map<string, string>)
    ensures (forall rest :: reference != "#/definitions/" + rest) ==> IntoOwner(reference, types) == reference
  {
    if StartsWith(reference, DEFINITIONS) { assert reference == "#/definitions/" + reference[|DEFINITIONS|..]; }
  }

  /** A moved ref is moved again exactly when its new namespace is itself read as a known type name. */
  lemma IntoOwnerTwice(r: string, types: map<string, string>)
    ensures IntoOwner(IntoOwner(r, types), types) == IntoOwner(r, types) <==>
      Owner(r, types).None? || NamespaceFor(FirstSegment(Owner(r, types).value), types).None?
  {
    if Owner(r, types).Some? {
      var ns, suffix := Owner(r, types).value, r[|DEFINITIONS|..];
      var moved := IntoOwner(r, types);
      assert moved == DEFINITIONS + (ns + "/" + suffix);
      AfterPrefix(DEFINITIONS, ns + "/" + suffix);
      FirstSegmentBeforeSlash(ns, suffix);
      if Owner(moved, types).Some? {
        assert |IntoOwner(moved, types)| > |moved|;
      }
    }
  }

  /**
   Unlike the single-namespace pass, this one is not idempotent outright: a second pass changes nothing exactly when
   no namespace a ref was moved to is, with or without its trailing digits, itself a known type name.
   */
  lemma OwnerNamespacedIdempotentIff(v: Value, types: map<string, string>)
    ensures OwnerNamespaced(OwnerNamespaced(v, types), types) == OwnerNamespaced(v, types) <==>
      forall r | r in Refs(v) && Owner(r, types).Some? :: NamespaceFor(FirstSegment(Owner(r, types).value), types).None?
  {
    var f := (r: string) => IntoOwner(r, types);
    MapRefsCompose(v, f, f, f);
    forall r | r in Refs(v)
      ensures f(f(r)) == f(r) <==>
        (Owner(r, types).Some? ==> NamespaceFor(FirstSegment(Owner(r, types).value), types).None?)
    {
      IntoOwnerTwice(r, types);
    }
  }

  /** The condition on the type table alone, for every schema: no namespace name reads as a type name. */
  lemma OwnerNamespacedIdempotent(v: Value, types: map<string, string>)
    requires forall name | name in types :: NamespaceFor(FirstSegment(types[name]), types).None?
    ensures OwnerNamespaced(OwnerNamespaced(v, types), types) == OwnerNamespaced(v, types)
  {
    OwnerNamespacedIdempotentIff(v, types);
  }

  /** A table that breaks it: a type named `v` makes the namespace `v2` read as that type. */
  lemma SecondPassMovesAgain()
    ensures var types := map["T" := "v2", "v" := "v2"];
      var v := Object([Entry(REF, String(DEFINITIONS + "T"))]);
      OwnerNamespaced(OwnerNamespaced(v, types), types) != OwnerNamespaced(v, types)
  {
    var types := map["T" := "v2", "v" := "v2"];
    var r := DEFINITIONS + "T";
    var v := Object([Entry(REF, String(r))]);
    AfterPrefix(DEFINITIONS, "T");
    FirstSegmentWhole("T");
    FirstSegmentWhole("v2");
    assert "v2"[..1] == "v" && TrimDigits("v") == "v";
    assert TrimDigits("v2") == "v";
    assert r in EntryRefs(v.entries[0]);
    assert r in Refs(v);
    OwnerNamespacedIdempotentIff(v, types);
  }
}
