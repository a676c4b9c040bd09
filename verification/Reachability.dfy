/**
 Which definitions a schema needs: least closed sets of names over a graph of definitions, and the two worklist
 loops that compute them (the flattener's dependency set, and the definitions reachable inside one schema).
 */
module Reachability {
  import opened Prelude
  import opened Json
  import opened SchemaRefs

  // Least closed sets.

  type Graph = map<string, set<string>>

  /** Closed under the outgoing edges of the names that are defined; undefined names are leaves. */
  ghost predicate Closed(names: set<string>, graph: Graph) {
    forall n | n in names && n in graph :: graph[n] <= names
  }

  ghost predicate IsLeastClosed(names: set<string>, seeds: set<string>, graph: Graph) {
    && seeds <= names
    && Closed(names, graph)
    && forall other: set<string> | seeds <= other && Closed(other, graph) :: names <= other
  }

  lemma LeastClosedUnique(a: set<string>, b: set<string>, seeds: set<string>, graph: Graph)
    requires IsLeastClosed(a, seeds, graph) && IsLeastClosed(b, seeds, graph)
    ensures a == b
  {
    assert a <= b && b <= a;
  }

  ghost predicate IsEdge(graph: Graph, path: seq<string>, i: nat)
    requires i + 1 < |path|
  {
    path[i] in graph && path[i + 1] in graph[path[i]]
  }

  /** A path from a seed along edges of defined names. */
  ghost predicate IsPath(path: seq<string>, seeds: set<string>, graph: Graph) {
    && path != [] && path[0] in seeds
    && forall i | 0 <= i < |path| - 1 :: IsEdge(graph, path, i)
  }

  lemma {:induction false} PathStaysInside(path: seq<string>, names: set<string>, seeds: set<string>, graph: Graph)
    requires IsPath(path, seeds, graph) && seeds <= names && Closed(names, graph)
    ensures path[|path| - 1] in names
  {
    if |path| == 1 {
    } else {
      var shorter := path[..|path| - 1];
      assert forall i | 0 <= i < |shorter| - 1 :: IsEdge(graph, path, i) ==> IsEdge(graph, shorter, i);
      assert IsEdge(graph, path, |path| - 2);
      PathStaysInside(shorter, names, seeds, graph);
    }
  }

  lemma PathExtends(path: seq<string>, next: string, seeds: set<string>, graph: Graph)
    requires IsPath(path, seeds, graph)
    requires path[|path| - 1] in graph && next in graph[path[|path| - 1]]
    ensures IsPath(path + [next], seeds, graph)
  {
    forall i | 0 <= i < |path| ensures IsEdge(graph, path + [next], i) {
      if i + 1 < |path| { assert IsEdge(graph, path, i); }
    }
  }

  /** Some chain of refs leads from a seed to the name. */
  ghost predicate Reached(n: string, seeds: set<string>, graph: Graph) {
    exists path :: IsPath(path, seeds, graph) && path[|path| - 1] == n
  }

  lemma ReachedNext(n: string, next: string, seeds: set<string>, graph: Graph)
    requires Reached(n, seeds, graph) && n in graph && next in graph[n]
    ensures Reached(next, seeds, graph)
  {
    var path :| IsPath(path, seeds, graph) && path[|path| - 1] == n;
    PathExtends(path, next, seeds, graph);
    assert (path + [next])[|path + [next]| - 1] == next;
  }

  /** The least closed set is what it is meant to be: the names some chain of refs leads to from a seed. */
  lemma LeastClosedIsReachable(names: set<string>, seeds: set<string>, graph: Graph)
    requires IsLeastClosed(names, seeds, graph)
    ensures forall n :: n in names <==> Reached(n, seeds, graph)
  {
    var reached := set n | n in names && Reached(n, seeds, graph);
    forall n | n in seeds
      ensures n in reached
    {
      assert IsPath([n], seeds, graph);
    }
    forall n, next | n in reached && n in graph && next in graph[n]
      ensures next in reached
    {
      ReachedNext(n, next, seeds, graph);
    }
    assert names <= reached;
    forall path | IsPath(path, seeds, graph)
      ensures path[|path| - 1] in names
    {
      PathStaysInside(path, names, seeds, graph);
    }
  }

  // Names that refs stand for.

  const V2_DEFINITIONS := "#/definitions/v2/"

  /** The root definition a ref names for the flattener: a `#/definitions/` ref outside the `v2` namespace. */
  function NonV2Name(reference: string): Option<string> {
    if StartsWith(reference, DEFINITIONS) && !StartsWith(reference, V2_DEFINITIONS)
    then Some(reference[|DEFINITIONS|..])
    else None
  }

  /** The definition of this schema a ref names: the first segment after `#/<defs_key>/`. */
  function LocalName(reference: string, defsKey: string): Option<string> {
    var prefix := "#/" + defsKey + "/";
    if StartsWith(reference, prefix) then Some(FirstSegment(reference[|prefix|..])) else None
  }

  /** A `#/definitions/` ref names all that follows for the flattener, unless that lies in `v2`; no other ref does. */
  lemma NonV2Named(reference: string, suffix: string)
    ensures (forall rest :: suffix != "v2/" + rest) ==> NonV2Name("#/definitions/" + suffix) == Some(suffix)
    ensures (exists rest :: suffix == "v2/" + rest) ==> NonV2Name("#/definitions/" + suffix) == None
    ensures (forall rest :: reference != "#/definitions/" + rest) ==> NonV2Name(reference) == None
  {
    AfterPrefix("#/definitions/", suffix);
    assert V2_DEFINITIONS == "#/definitions/" + "v2/";
    if StartsWith("#/definitions/" + suffix, V2_DEFINITIONS) {
      var rest := suffix[3..];
      assert ("#/definitions/" + suffix)[14..17] == suffix[..3];
      assert suffix == "v2/" + rest;
    }
    if rest :| suffix == "v2/" + rest {
      assert "#/definitions/" + suffix == V2_DEFINITIONS + rest;
      AfterPrefix(V2_DEFINITIONS, rest);
    }
    if StartsWith(reference, DEFINITIONS) { assert reference == "#/definitions/" + reference[|DEFINITIONS|..]; }
  }

  /** A ref into the definitions under this key names the segment up to the next `/`; no other ref names any. */
  lemma LocalNamed(reference: string, defsKey: string, name: string, tail: string)
    requires '/' !in name && (tail == "" || tail[0] == '/')
    ensures LocalName("#/" + defsKey + "/" + (name + tail), defsKey) == Some(name)
    ensures (forall rest :: reference != "#/" + defsKey + "/" + rest) ==> LocalName(reference, defsKey) == None
  {
    var prefix := "#/" + defsKey + "/";
    AfterPrefix(prefix, name + tail);
    FirstSegmentThen(name, tail);
    if StartsWith(reference, prefix) { assert reference == prefix + reference[|prefix|..]; }
  }

  ghost function NonV2Names(v: Value): set<string> {
    RefNames(v, NonV2Name)
  }

  ghost function NonV2Graph(definitions: seq<Entry>): Graph {
    map n | n in Keys(definitions) :: NonV2Names(Lookup(definitions, n).value)
  }

  ghost function Keys(entries: seq<Entry>): (r: set<string>)
    ensures forall n | n in r :: Lookup(entries, n).Some?
    ensures forall n | Lookup(entries, n).Some? :: n in r
  {
    forall n
      ensures Lookup(entries, n).Some? <==> n in set i | 0 <= i < |entries| :: entries[i].key
    {
      LookupEntry(entries, n);
    }
    set i | 0 <= i < |entries| :: entries[i].key
  }

  // The flattener's dependency set.

  /** `HashSet::into_iter().collect()`: the elements in some order. */
  method InSomeOrder(names: set<string>) returns (r: seq<string>)
    ensures forall n :: n in r <==> n in names
  {
    r := [];
    var rest := names;
    while rest != {}
      invariant rest <= names
      invariant forall n :: n in names <==> n in rest || n in r
    {
      var n :| n in rest;
      rest := rest - {n};
      r := r + [n];
    }
  }

  ghost function AllNames(seeds: set<string>, graph: Graph): set<string> {
    seeds + set n, m | n in graph && m in graph[n] :: m
  }

  /** Seen and stacked names lie in every closed set over the seeds, and what is not yet seen is on the stack. */
  ghost predicate Underway(seen: set<string>, stack: seq<string>, names: set<string>, graph: Graph) {
    && seen <= AllNames(names, graph) && (forall n | n in stack :: n in AllNames(names, graph))
    && (forall n | n in names :: n in seen || n in stack)
    && (forall n, m | n in seen && n in graph && m in graph[n] :: m in seen || m in stack)
    && (forall other: set<string> | names <= other && Closed(other, graph) ::
          seen <= other && forall n | n in stack :: n in other)
  }

  /** The top of the stack has been seen, and what it leads to is pushed the first time. */
  lemma NamePopped(seen: set<string>, stack: seq<string>, next: seq<string>, names: set<string>, graph: Graph)
    requires Underway(seen, stack, names, graph) && stack != []
    requires var name := stack[|stack| - 1];
      forall n :: n in next <==>
        n in stack[..|stack| - 1] || (name !in seen && name in graph && n in graph[name] && n !in seen + {name})
    ensures Underway(seen + {stack[|stack| - 1]}, next, names, graph)
  {
    var name := stack[|stack| - 1];
    assert forall n | n in stack :: n == name || n in next;
  }

  /** With nothing left on the stack, what has been seen is the least closed set over the seeds. */
  lemma NothingStacked(seen: set<string>, names: set<string>, graph: Graph)
    requires Underway(seen, [], names, graph)
    ensures IsLeastClosed(seen, names, graph)
  {
    forall n | n in seen && n in graph
      ensures graph[n] <= seen
    {
      assert forall m | m in graph[n] :: m in seen;
    }
  }

  /**
   `collect_definition_dependencies`: a stack of names still to look at and the set already seen. The loop stops
   because each round either sees a new one of finitely many names or leaves the stack one shorter.
   */
  method CollectDefinitionDependencies(definitions: seq<Entry>, names: set<string>) returns (seen: set<string>)
    requires WellFormed(Object(definitions))
    ensures IsLeastClosed(seen, names, NonV2Graph(definitions))
  {
    ghost var graph := NonV2Graph(definitions);
    seen := {};
    var toProcess := InSomeOrder(names);
    while toProcess != []
      invariant Underway(seen, toProcess, names, graph)
      decreases AllNames(names, graph) - seen, |toProcess|
    {
      var name := toProcess[|toProcess| - 1];
      ghost var seenBefore, before := seen, toProcess;
      toProcess := toProcess[..|toProcess| - 1];
      if name in seen {
        NamePopped(seenBefore, before, toProcess, names, graph);
        assert seen + {name} == seen;
        continue;
      }
      seen := seen + {name};
      var schema := Lookup(definitions, name);
      if schema.None? {
        NamePopped(seenBefore, before, toProcess, names, graph);
        continue;
      }
      LookupEntry(definitions, name);
      var deps := CollectRefNames(schema.value, NonV2Name, {});
      assert name in graph && deps == graph[name];
      toProcess := PushUnseen(deps, seen, toProcess);
      NamePopped(seenBefore, before, toProcess, names, graph);
    }
    NothingStacked(seen, names, graph);
  }

  method PushUnseen(deps: set<string>, seen: set<string>, stack: seq<string>) returns (r: seq<string>)
    ensures forall n :: n in r <==> n in stack || (n in deps && n !in seen)
  {
    r := stack;
    var rest := deps;
    while rest != {}
      invariant rest <= deps
      invariant forall n :: n in r <==> n in stack || (n in deps && n !in rest && n !in seen)
    {
      var dep :| dep in rest;
      rest := rest - {dep};
      if dep !in seen {
        r := r + [dep];
      }
    }
  }

  // The definitions reachable inside one schema.

  predicate IsDefinitionsMap(key: string, defsKey: string) {
    key == defsKey || key == "$defs" || key == "definitions"
  }

  /** The refs of a value that stand outside its definition maps. */
  ghost function OuterRefs(v: Value, defsKey: string): set<string>
    decreases v
  {
    match v
    case Array(items) => set i, r | 0 <= i < |items| && r in OuterRefs(items[i], defsKey) :: r
    case Object(entries) => set i, r | 0 <= i < |entries| && r in OuterEntryRefs(entries[i], defsKey) :: r
    case _ => {}
  }

  ghost function OuterEntryRefs(e: Entry, defsKey: string): set<string>
    decreases e
  {
    if e.key == REF && e.value.String? then {e.value.s}
    else if IsDefinitionsMap(e.key, defsKey) then {}
    else OuterRefs(e.value, defsKey)
  }

  /** The value without what its definition maps hold: those under this key, `$defs` or `definitions`, at any depth. */
  ghost function OutsideMaps(v: Value, defsKey: string): Value
    decreases v
  {
    match v
    case Array(items) => Array(seq(|items|, i requires 0 <= i < |items| => OutsideMaps(items[i], defsKey)))
    case Object(entries) =>
      Object(seq(|entries|, i requires 0 <= i < |entries| =>
        var isRef := entries[i].key == REF && entries[i].value.String?;
        Entry(entries[i].key,
              if entries[i].key in {defsKey, "$defs", "definitions"} && !isRef then Null
              else OutsideMaps(entries[i].value, defsKey))))
    case _ => v
  }

  /** The outer refs are the refs of what is left without the definition maps. */
  lemma {:induction false} OuterRefsAreOutside(v: Value, defsKey: string)
    ensures OuterRefs(v, defsKey) == Refs(OutsideMaps(v, defsKey))
    decreases v
  {
    match v
    case Array(items) =>
      var left := OutsideMaps(v, defsKey).items;
      forall i | 0 <= i < |items|
        ensures OuterRefs(items[i], defsKey) == Refs(left[i])
      {
        OuterRefsAreOutside(items[i], defsKey);
      }
    case Object(entries) =>
      var left := OutsideMaps(v, defsKey).entries;
      forall i | 0 <= i < |entries|
        ensures OuterEntryRefs(entries[i], defsKey) == EntryRefs(left[i])
      {
        OuterRefsAreOutside(entries[i].value, defsKey);
      }
    case _ =>
  }

  ghost function LocalNames(refs: set<string>, defsKey: string): set<string> {
    set r | r in refs && LocalName(r, defsKey).Some? :: LocalName(r, defsKey).value
  }

  ghost function LocalGraph(definitions: seq<Entry>, defsKey: string): Graph {
    map n | n in Keys(definitions) :: LocalNames(Refs(Lookup(definitions, n).value), defsKey)
  }

  /** The set grew by `added`, and exactly the names that are new were queued. */
  ghost predicate Queued(queue: seq<string>, reachable: set<string>, added: set<string>, queue': seq<string>,
          reachable': set<string>) {
    && reachable' == reachable + added
    && (forall n :: n in queue' <==> n in queue || (n in added && n !in reachable))
    && (added <= reachable ==> queue' == queue)
  }

  /** Collecting from one set of refs and then from another is collecting from both. */
  lemma QueuedBoth(q0: seq<string>, r0: set<string>, a: set<string>, q1: seq<string>, r1: set<string>, b: set<string>,
      q2: seq<string>, r2: set<string>, defsKey: string)
    requires Queued(q0, r0, LocalNames(a, defsKey), q1, r1) && Queued(q1, r1, LocalNames(b, defsKey), q2, r2)
    ensures Queued(q0, r0, LocalNames(a + b, defsKey), q2, r2)
  {
    var na, nb := LocalNames(a, defsKey), LocalNames(b, defsKey);
    assert LocalNames(a + b, defsKey) == na + nb;
    if na + nb <= r0 { assert r1 == r0; }
  }

  function OwnRefs(entries: seq<Entry>): set<string> {
    if OwnRef(entries).Some? then {OwnRef(entries).value} else {}
  }

  /** `collect_local_definition_ref_here`. */
  method CollectHere(entries: seq<Entry>, defsKey: string, queue: seq<string>, reachable: set<string>)
      returns (queue': seq<string>, reachable': set<string>)
    ensures Queued(queue, reachable, LocalNames(OwnRefs(entries), defsKey), queue', reachable')
  {
    queue', reachable' := queue, reachable;
    var own := OwnRef(entries);
    if own.Some? && LocalName(own.value, defsKey).Some? {
      var name := LocalName(own.value, defsKey).value;
      if name !in reachable {
        reachable' := reachable + {name};
        queue' := queue + [name];
      }
    }
  }

  /** The refs inside the values of an object. */
  ghost function RefsBelow(entries: seq<Entry>): set<string> {
    if entries == [] then {} else RefsBelow(entries[..|entries| - 1]) + Refs(entries[|entries| - 1].value)
  }

  lemma {:induction false} RefsBelowMember(entries: seq<Entry>, r: string)
    ensures r in RefsBelow(entries) <==> exists i :: 0 <= i < |entries| && r in Refs(entries[i].value)
  {
    if entries == [] {
    } else {
      var init := entries[..|entries| - 1];
      RefsBelowMember(init, r);
      assert forall k | 0 <= k < |init| :: entries[k] == init[k];
    }
  }

  lemma RefsOfObjectSplit(entries: seq<Entry>)
    requires DistinctKeys(entries)
    ensures Refs(Object(entries)) == OwnRefs(entries) + RefsBelow(entries)
  {
    forall r
      ensures r in Refs(Object(entries)) <==> r in OwnRefs(entries) + RefsBelow(entries)
    {
      RefsOfObject(entries, r);
      RefsBelowMember(entries, r);
    }
  }

  lemma RefsBelowStep(entries: seq<Entry>, i: nat)
    requires i < |entries|
    ensures RefsBelow(entries[..i + 1]) == RefsBelow(entries[..i]) + Refs(entries[i].value)
  {
    assert entries[..i + 1][..i] == entries[..i];
  }

  lemma QueuedNextEntry(entries: seq<Entry>, i: nat, q0: seq<string>, r0: set<string>, q1: seq<string>, r1: set<string>,
      q2: seq<string>, r2: set<string>, defsKey: string)
    requires i < |entries|
    requires Queued(q0, r0, LocalNames(RefsBelow(entries[..i]), defsKey), q1, r1)
    requires Queued(q1, r1, LocalNames(Refs(entries[i].value), defsKey), q2, r2)
    ensures Queued(q0, r0, LocalNames(RefsBelow(entries[..i + 1]), defsKey), q2, r2)
  {
    QueuedBoth(q0, r0, RefsBelow(entries[..i]), q1, r1, Refs(entries[i].value), q2, r2, defsKey);
    RefsBelowStep(entries, i);
  }

  lemma RefsOfItemsStep(items: seq<Value>, i: nat)
    requires i < |items|
    ensures Refs(Array(items[..i + 1])) == Refs(Array(items[..i])) + Refs(items[i])
  {
    var longer := items[..i + 1];
    assert longer[i] == items[i] && forall k | 0 <= k < i :: longer[k] == items[..i][k];
  }

  /** `collect_local_definition_refs`. */
  method CollectLocalRefs(v: Value, defsKey: string, queue: seq<string>, reachable: set<string>)
      returns (queue': seq<string>, reachable': set<string>)
    requires WellFormed(v)
    ensures Queued(queue, reachable, LocalNames(Refs(v), defsKey), queue', reachable')
    decreases v, 0
  {
    match v
    case Object(entries) =>
      queue', reachable' := CollectHere(entries, defsKey, queue, reachable);
      ghost var q, r := queue', reachable';
      queue', reachable' := CollectLocalRefsInEntries(entries, defsKey, queue', reachable');
      QueuedBoth(queue, reachable, OwnRefs(entries), q, r, RefsBelow(entries), queue', reachable', defsKey);
      RefsOfObjectSplit(entries);
    case Array(items) =>
      queue', reachable' := CollectLocalRefsInItems(items, defsKey, queue, reachable);
    case _ =>
      queue', reachable' := queue, reachable;
  }

  method CollectLocalRefsInEntries(entries: seq<Entry>, defsKey: string, queue: seq<string>, reachable: set<string>)
      returns (queue': seq<string>, reachable': set<string>)
    requires WellFormed(Object(entries))
    ensures Queued(queue, reachable, LocalNames(RefsBelow(entries), defsKey), queue', reachable')
    decreases entries, 1
  {
    queue', reachable' := queue, reachable;
    for i := 0 to |entries|
      invariant Queued(queue, reachable, LocalNames(RefsBelow(entries[..i]), defsKey), queue', reachable')
    {
      ghost var q, r := queue', reachable';
      queue', reachable' := CollectLocalRefs(entries[i].value, defsKey, queue', reachable');
      QueuedNextEntry(entries, i, queue, reachable, q, r, queue', reachable', defsKey);
    }
    assert entries[..|entries|] == entries;
  }

  method CollectLocalRefsInItems(items: seq<Value>, defsKey: string, queue: seq<string>, reachable: set<string>)
      returns (queue': seq<string>, reachable': set<string>)
    requires WellFormed(Array(items))
    ensures Queued(queue, reachable, LocalNames(Refs(Array(items)), defsKey), queue', reachable')
    decreases items, 1
  {
    queue', reachable' := queue, reachable;
    for i := 0 to |items|
      invariant Queued(queue, reachable, LocalNames(Refs(Array(items[..i])), defsKey), queue', reachable')
    {
      ghost var q, r := queue', reachable';
      queue', reachable' := CollectLocalRefs(items[i], defsKey, queue', reachable');
      QueuedBoth(queue, reachable, Refs(Array(items[..i])), q, r, Refs(items[i]), queue', reachable', defsKey);
      RefsOfItemsStep(items, i);
    }
    assert items[..|items|] == items;
  }

  ghost function OuterRefsBelow(entries: seq<Entry>, defsKey: string): set<string> {
    set i, r |
      0 <= i < |entries| && !IsDefinitionsMap(entries[i].key, defsKey) && r in OuterRefs(entries[i].value, defsKey) :: r
  }

  lemma OuterRefsBelowStep(entries: seq<Entry>, i: nat, defsKey: string)
    requires i < |entries|
    ensures OuterRefsBelow(entries[..i + 1], defsKey) == OuterRefsBelow(entries[..i], defsKey) +
      if IsDefinitionsMap(entries[i].key, defsKey) then {} else OuterRefs(entries[i].value, defsKey)
  {
    var longer := entries[..i + 1];
    assert longer[i] == entries[i] && forall k | 0 <= k < i :: longer[k] == entries[..i][k];
  }

  lemma OuterRefsOfItemsStep(items: seq<Value>, i: nat, defsKey: string)
    requires i < |items|
    ensures OuterRefs(Array(items[..i + 1]), defsKey)
         == OuterRefs(Array(items[..i]), defsKey) + OuterRefs(items[i], defsKey)
  {
    var longer := items[..i + 1];
    assert longer[i] == items[i] && forall k | 0 <= k < i :: longer[k] == items[..i][k];
  }

  lemma OuterRefsOfObject(entries: seq<Entry>, defsKey: string)
    requires DistinctKeys(entries)
    ensures OuterRefs(Object(entries), defsKey) == OuterRefsBelow(entries, defsKey) + OwnRefs(entries)
  {
    LookupEntry(entries, REF);
    forall r
      ensures r in OuterRefs(Object(entries), defsKey) <==> r in OuterRefsBelow(entries, defsKey) + OwnRefs(entries)
    {
      if OwnRef(entries) == Some(r) {
        var i :| 0 <= i < |entries| && entries[i] == Entry(REF, String(r));
        assert r in OuterEntryRefs(entries[i], defsKey);
      }
      if i :| 0 <= i < |entries| && r in OuterEntryRefs(entries[i], defsKey) {
        LookupAt(entries, i);
      }
      if i :|
        0 <= i < |entries| && !IsDefinitionsMap(entries[i].key, defsKey) && r in OuterRefs(entries[i].value, defsKey)
      {
        assert r in OuterEntryRefs(entries[i], defsKey);
      }
    }
  }

  /** `collect_local_definition_refs_excluding_maps`. */
  method CollectOuterRefs(v: Value, defsKey: string, queue: seq<string>, reachable: set<string>)
      returns (queue': seq<string>, reachable': set<string>)
    requires WellFormed(v)
    ensures Queued(queue, reachable, LocalNames(OuterRefs(v, defsKey), defsKey), queue', reachable')
    decreases v, 0
  {
    match v
    case Object(entries) =>
      queue', reachable' := CollectOuterRefsInEntries(entries, defsKey, queue, reachable);
      ghost var q, r := queue', reachable';
      queue', reachable' := CollectHere(entries, defsKey, queue', reachable');
      QueuedBoth(queue, reachable, OuterRefsBelow(entries, defsKey), q, r, OwnRefs(entries), queue', reachable',
                 defsKey);
      OuterRefsOfObject(entries, defsKey);
    case Array(items) =>
      queue', reachable' := CollectOuterRefsInItems(items, defsKey, queue, reachable);
    case _ =>
      queue', reachable' := queue, reachable;
  }

  method CollectOuterRefsInEntries(entries: seq<Entry>, defsKey: string, queue: seq<string>, reachable: set<string>)
      returns (queue': seq<string>, reachable': set<string>)
    requires WellFormed(Object(entries))
    ensures Queued(queue, reachable, LocalNames(OuterRefsBelow(entries, defsKey), defsKey), queue', reachable')
    decreases entries, 1
  {
    queue', reachable' := queue, reachable;
    for i := 0 to |entries|
      invariant Queued(queue, reachable, LocalNames(OuterRefsBelow(entries[..i], defsKey), defsKey), queue', reachable')
    {
      if IsDefinitionsMap(entries[i].key, defsKey) {
        OuterRefsBelowStep(entries, i, defsKey);
        continue;
      }
      ghost var q, r := queue', reachable';
      queue', reachable' := CollectOuterRefs(entries[i].value, defsKey, queue', reachable');
      QueuedBoth(queue, reachable, OuterRefsBelow(entries[..i], defsKey), q, r, OuterRefs(entries[i].value, defsKey),
                 queue', reachable', defsKey);
      OuterRefsBelowStep(entries, i, defsKey);
    }
    assert entries[..|entries|] == entries;
  }

  method CollectOuterRefsInItems(items: seq<Value>, defsKey: string, queue: seq<string>, reachable: set<string>)
      returns (queue': seq<string>, reachable': set<string>)
    requires WellFormed(Array(items))
    ensures Queued(queue, reachable, LocalNames(OuterRefs(Array(items), defsKey), defsKey), queue', reachable')
    decreases items, 1
  {
    queue', reachable' := queue, reachable;
    for i := 0 to |items|
      invariant Queued(queue, reachable, LocalNames(OuterRefs(Array(items[..i]), defsKey), defsKey), queue', reachable')
    {
      ghost var q, r := queue', reachable';
      queue', reachable' := CollectOuterRefs(items[i], defsKey, queue', reachable');
      QueuedBoth(queue, reachable, OuterRefs(Array(items[..i]), defsKey), q, r, OuterRefs(items[i], defsKey), queue',
                 reachable', defsKey);
      OuterRefsOfItemsStep(items, i, defsKey);
    }
    assert items[..|items|] == items;
  }

  /** The entries of the definitions map under `defsKey`, when the schema has one. */
  function DefinitionsOf(schema: Value, defsKey: string): Option<seq<Entry>> {
    match Field(schema, defsKey)
    case Some(Object(definitions)) => Some(definitions)
    case _ => None
  }

  /** `reachable_local_definitions`. */
  method ReachableLocalDefinitions(schema: Value, defsKey: string) returns (reachable: set<string>)
    requires WellFormed(schema)
    ensures match DefinitionsOf(schema, defsKey)
      case None => reachable == {}
      case Some(definitions) =>
        IsLeastClosed(reachable, LocalNames(OuterRefs(schema, defsKey), defsKey), LocalGraph(definitions, defsKey))
  {
    var found := DefinitionsOf(schema, defsKey);
    if found.None? {
      return {};
    }
    LookupEntry(schema.entries, defsKey);
    var queue: seq<string>;
    queue, reachable := CollectOuterRefs(schema, defsKey, [], {});
    reachable := DrainQueue(found.value, defsKey, queue, reachable);
  }

  /** Every reached name is still queued or has had its definition's refs collected, and nothing else was reached. */
  ghost predicate Draining(seeds: set<string>, graph: Graph, queue: seq<string>, reachable: set<string>) {
    && seeds <= reachable <= AllNames(seeds, graph)
    && (forall n | n in queue :: n in reachable)
    && (forall n | n in reachable && n in graph && n !in queue :: graph[n] <= reachable)
    && (forall other: set<string> | seeds <= other && Closed(other, graph) :: reachable <= other)
  }

  method DrainQueue(definitions: seq<Entry>, defsKey: string, start: seq<string>, seeds: set<string>)
    returns (reachable: set<string>)
    requires WellFormed(Object(definitions)) && forall n :: n in start <==> n in seeds
    ensures IsLeastClosed(reachable, seeds, LocalGraph(definitions, defsKey))
  {
    ghost var graph := LocalGraph(definitions, defsKey);
    var queue := start;
    reachable := seeds;
    while queue != []
      invariant Draining(seeds, graph, queue, reachable)
      decreases AllNames(seeds, graph) - reachable, |queue|
    {
      var name := queue[|queue| - 1];
      var rest := queue[..|queue| - 1];
      assert queue == rest + [name];
      var found := Lookup(definitions, name);
      if found.Some? {
        LookupEntry(definitions, name);
        ghost var r, added := reachable, LocalNames(Refs(found.value), defsKey);
        assert name in graph && added == graph[name];
        queue, reachable := CollectLocalRefs(found.value, defsKey, rest, reachable);
        DrainOne(seeds, graph, rest, name, r, queue, reachable);
      } else {
        queue := rest;
      }
    }
  }

  lemma DrainOne(seeds: set<string>, graph: Graph, rest: seq<string>, name: string, reachable: set<string>,
          queue': seq<string>, reachable': set<string>)
    requires Draining(seeds, graph, rest + [name], reachable) && name in graph
    requires Queued(rest, reachable, graph[name], queue', reachable')
    ensures Draining(seeds, graph, queue', reachable')
    ensures
      || AllNames(seeds, graph) - reachable' < AllNames(seeds, graph) - reachable
      || (reachable' == reachable && queue' == rest)
  {
    var universe := AllNames(seeds, graph);
    assert (rest + [name])[|rest|] == name;
    forall n | n in rest ensures n in rest + [name] {}
    if !(graph[name] <= reachable) {
      var n :| n in graph[name] && n !in reachable;
      assert n in universe - reachable && n !in universe - reachable';
    }
  }
}
