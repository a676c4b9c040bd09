# Verified models of the app server's protocols and transforms

This project models the parts of the repository whose behaviour is hardest to see from one function, and proves what
they promise. Every file is a module; `dafny verify dfyconfig.toml` checks all of them.

- **JSON canonicaliser** (`Json`, `JsonText`, `Sorting`, `Canonicalize`): objects are sequences of entries, so key
  order is visible; the canonical form is proved to be a complete invariant of "the same up to order". The order of
  sortable arrays is proved outright, down to its tie-breaker, the serialised text, whose printer is proved injective.
- **Schema refs** (`SchemaRefs`, `Namespacing`, `Prune`, `Reachability`, `StripVariants`, `Flatten`): rewriting,
  collecting, pruning, stripping and flattening of JSON schemas. The worklists are loops with their real termination
  measures; what refs resolve to before and after is the measure of meaning. Refs are the JSON Pointer fragments of
  section 6 of RFC 6901, without the `~0`/`~1` escapes, which the code does not undo either.
- **TypeScript text** (`Scanner`, `Nesting`, `PropertyText`, `TypeScriptFilter`): the bracket- and string-aware scanner,
  the splitter on top of it, the property parsers, and the body filters, with the round trip between splitting and
  joining. Which arms and fields go is stated on the text itself: brackets, quotes, names and literals.
- **Launcher** (`Launcher`, `LauncherChecks`): any number of launchers as processes over two files, each file operation
  one atomic step; who is inside at a time, what becomes of each lockfile judged, and why each launcher succeeds or
  fails.
- **In-process event forwarding** (`EventForwarding`): the bounded channel, the lossless tier and the lag markers. The
  worker keeps a ghost history of its decisions; the theorems are about every history that can arise.
- **Remote client** (`RemoteClient`): the worker and its table of waiting requests as a reaction to each input, and
  the class that runs it; the answer each command must get is read off the inputs.
- **Command execution** (`CommandExec`, `OutputCapture`): the session table with its tasks, interleaved in any order,
  and the capped, coalescing capture of output.
- **Analytics** (`Analytics`, `AnalyticsRuns`): the five maps of the reducer and the join of facts into turn and steer
  events; what is pending, known and reported, read off the facts alone.
- **Lint wrapper arguments** (`WrapperArgs`): parse, then print with defaults, and when that is a fixed point.

Where a promise is false of the code, the exact condition under which it holds is proved, with a concrete input that
breaks it: idempotence of pruning and of the known-namespace pass, the meaning of refs in a flattened bundle, the fixed
point of argument normalisation, settlement of server requests on a closed channel, conservation under saturation,
mutual exclusion of the launchers (in their policies, the ageing of locks and `stop`), and one unfinished task per
connection and process id (in the starts that reach a closed connection).

The client documentation in `codex-rs/app-server-client/src/lib.rs` (lines 248-249) says that a dropped server request
is rejected; the closed-channel branches do not reject it, and the model follows the code.

## Model

| member | source | states |
|---|---|---|
| `Canonicalize.CanonicalIffEquivalent` | codex-rs/app-server-protocol/src/schema_fixtures.rs:152-227 | Two values canonicalise alike if and only if they are the same up to the order of object keys and, at any depth, a rearrangement of arrays all of whose items have a sort key. `Equivalent` says this without sorting or printing. |
| `Canonicalize.CanonicalIdempotent` | codex-rs/app-server-protocol/src/schema_fixtures.rs:152-208 | Canonicalising twice is canonicalising once. |
| `Canonicalize.EquivalenceClasses` | codex-rs/app-server-protocol/src/schema_fixtures.rs:152-227 | A value is equivalent to its canonical form, and the relation is an equivalence. |
| `Canonicalize.SortKeyInvariant` | codex-rs/app-server-protocol/src/schema_fixtures.rs:210-227 | Canonicalising an item never changes the key it sorts by. |
| `Canonicalize.SortableIff` | codex-rs/app-server-protocol/src/schema_fixtures.rs:170-191 | An array is sorted exactly when every item is a boolean, a number, a null, a string, or an object with a text under `$ref` or `title`. |
| `Canonicalize.CanonicalArrayOrder` | codex-rs/app-server-protocol/src/schema_fixtures.rs:152-227 | Such an array lists booleans, numbers, nulls, refs, strings and titles in this order, each kind by its text, a `$ref` going before a `title`, and items of one text by what they print. |
| `Canonicalize.CanonicalKeyOrder` | codex-rs/app-server-protocol/src/schema_fixtures.rs:197-205 | The keys of a canonical object stand in order. |
| `JsonText.PrintInjective` | codex-rs/app-server-protocol/src/schema_fixtures.rs:178-205 | The serialised text that breaks ties determines the value, for values without repeated keys. |
| `Sorting.SortCanonical` | codex-rs/app-server-protocol/src/schema_fixtures.rs:178-205 | Sorting by a rank that tells elements apart gives equal results exactly for equal multisets. |
| `SchemaRefs.RewriteRefs` | codex-rs/app-server-protocol/src/export.rs:1138-1155 | The recursive pass of the `$ref` rewriters, as it runs, replaces every `$ref` string at any depth by its image and nothing else: same constructors, lengths, keys and scalars everywhere. |
| `SchemaRefs.RewrittenIff` | codex-rs/app-server-protocol/src/export.rs:1138-1155 | Any two values stand in that relation exactly when the second is the rewriting of the first. |
| `SchemaRefs.MapRefsFixedIff` | codex-rs/app-server-protocol/src/export.rs:1138-1155 | Rewriting leaves a value as it is if and only if it leaves each of its refs. |
| `SchemaRefs.ReplaceFirst` | codex-rs/app-server-protocol/src/export.rs:1138-1155 | The prefix is replaced at its first occurrence and then at those in the text behind it. |
| `SchemaRefs.RefsOfMapRefs` | codex-rs/app-server-protocol/src/export.rs:1138-1155 | Rewriting maps the set of refs of a value and adds none. |
| `SchemaRefs.MapRefsCompose` | codex-rs/app-server-protocol/src/export.rs:1138-1155 | Two rewritings in a row equal a third exactly when they do on every ref of the value. |
| `SchemaRefs.CollectRefNames` | codex-rs/app-server-protocol/src/export.rs:1094-1114 | The recursive collectors add exactly the names that the refs at any depth stand for. |
| `Namespacing.RewriteRefsToNamespace` | codex-rs/app-server-protocol/src/export.rs:1505-1537 | The pass that moves local refs under a namespace, as it runs; nothing but refs is changed. |
| `Namespacing.RefIntoNamespace` | codex-rs/app-server-protocol/src/export.rs:1505-1537 | Each ref `#/definitions/X` becomes `#/definitions/<ns>/X` with all of `X`, unless `X` is inside the namespace already; any other ref stays. |
| `Namespacing.NamespacedRefsMoved` | codex-rs/app-server-protocol/src/export.rs:1505-1537 | So every local ref outside the namespace is found again inside it. |
| `Namespacing.NamespacedIdempotent` | codex-rs/app-server-protocol/src/export.rs:1505-1537 | A second pass towards the same namespace is a no-op, for every schema and namespace. |
| `Namespacing.NamespacedRefs` | codex-rs/app-server-protocol/src/export.rs:1505-1537 | After a pass every local ref lies in the namespace, and no other ref was touched. |
| `Namespacing.RewriteRefsToKnownNamespaces` | codex-rs/app-server-protocol/src/export.rs:1539-1564 | The pass that moves refs to the namespaces their types belong to, as it runs; nothing but refs is changed. |
| `Namespacing.RefIntoOwner` | codex-rs/app-server-protocol/src/export.rs:1539-1600 | A local ref goes behind the namespace of the type its first segment names or, failing that, names without its trailing digits; else it stays. |
| `Namespacing.OtherRefStays` | codex-rs/app-server-protocol/src/export.rs:1539-1564 | A ref that is not local stays. |
| `Namespacing.OwnerNamespacedIdempotentIff` | codex-rs/app-server-protocol/src/export.rs:1539-1600 | Its second run changes nothing exactly when no namespace that a ref was moved to reads as a known type name. |
| `Namespacing.OwnerNamespacedIdempotent` | codex-rs/app-server-protocol/src/export.rs:1539-1600 | A condition on the type table alone under which a second run changes nothing, for every schema. |
| `Namespacing.SecondPassMovesAgain` | codex-rs/app-server-protocol/src/export.rs:1588-1600 | A type table that breaks idempotence: a namespace name that, without its trailing digits, is a known type name. |
| `Prune.PruneInner` | codex-rs/app-server-protocol/src/export.rs:500-515 | The pruning pass as it runs: retain, then recurse into what is left. |
| `Prune.VariantIff` | codex-rs/app-server-protocol/src/export.rs:517-540 | What is pruned: a value whose `method` property allows exactly one listed name, by a text under `const` or, where that is no text, by the only item of `enum`. |
| `Prune.PruneCompleteIff` | codex-rs/app-server-protocol/src/export.rs:500-540 | A pass leaves no experimental variant at any depth exactly when no kept item is latent, that is, would become a variant once its own `enum` is pruned. |
| `Prune.PruneFixedIff` | codex-rs/app-server-protocol/src/export.rs:500-540 | Pruning changes a value exactly when an array of it, at some depth, holds a variant. |
| `Prune.PruneIdempotentIff` | codex-rs/app-server-protocol/src/export.rs:500-540 | A second pass changes nothing exactly when no kept item was latent. |
| `Prune.PruneCompleteAndIdempotent` | codex-rs/app-server-protocol/src/export.rs:491-540 | On schemas whose `enum` arrays list only strings, one pass is complete and a second is a no-op. |
| `Prune.PruneKeepsOrder` | codex-rs/app-server-protocol/src/export.rs:500-515 | A kept item stands, pruned itself, where the number of kept items before it says. |
| `Prune.PruneCanCreateVariant` | codex-rs/app-server-protocol/src/export.rs:517-540 | Without the hypothesis on `enum`, pruning can create a variant: a concrete schema. |
| `Reachability.CollectDefinitionDependencies` | codex-rs/app-server-protocol/src/export.rs:1116-1136 | The worklist returns the least set that holds the seeds and is closed under the non-v2 refs of present definitions, for every graph, cycles included; it ends by unseen names and then stack length. |
| `Reachability.LeastClosedIsReachable` | codex-rs/app-server-protocol/src/export.rs:1116-1136 | That set is exactly the names some chain of refs leads to from a seed. |
| `Reachability.ReachableLocalDefinitions` | codex-rs/app-server-protocol/src/export.rs:1380-1464 | The local variant: least closed from the refs outside the definition maps. |
| `Reachability.OuterRefsAreOutside` | codex-rs/app-server-protocol/src/export.rs:1399-1428 | The outer refs are the refs of what is left of the schema without its definition maps. |
| `Reachability.NonV2Named` | codex-rs/app-server-protocol/src/export.rs:1088-1114 | A `#/definitions/` ref names all that follows, unless that lies in `v2`; no other ref names any. |
| `Reachability.LocalNamed` | codex-rs/app-server-protocol/src/export.rs:1444-1464 | A ref into the local definitions names the segment up to the next slash; no other ref names any. |
| `StripVariants.StripMethodVariants` | codex-rs/app-server-protocol/src/export.rs:1344-1362 | The stripping pass as it runs, for schemas with and without `oneOf` and definitions. |
| `StripVariants.MethodVariantIff` | codex-rs/app-server-protocol/src/export.rs:1364-1378 | What is stripped: a variant whose `method` property gives a listed name, by a text under `const` or, where that is no text, by the first item of `enum`. |
| `StripVariants.StripRemovesExactly` | codex-rs/app-server-protocol/src/export.rs:1344-1378 | Exactly the variants whose method is listed go, and every other member of the schema stays as it was. |
| `StripVariants.StripKeepsOrder` | codex-rs/app-server-protocol/src/export.rs:1344-1378 | The variants that stay keep their order. |
| `StripVariants.StripKeepsReachable` | codex-rs/app-server-protocol/src/export.rs:1344-1464 | The definitions kept are exactly those some chain of refs leads to from outside the definition maps. |
| `StripVariants.StripKeepsResolution` | codex-rs/app-server-protocol/src/export.rs:1344-1464 | No new dangling refs: a ref that survives outside the maps or in a kept definition resolves to exactly what it did before. |
| `Flatten.BuildFlatV2Schema` | codex-rs/app-server-protocol/src/export.rs:1038-1086 | Each error case, and otherwise a flat map in which shared definitions come first, then v2 ones, then root dependencies, with nothing but its refs rewritten, passed through the two guards. |
| `Flatten.FlatSchemaMembers` | codex-rs/app-server-protocol/src/export.rs:1050-1086 | The schema returned: its title with `V2` behind it, the flat map, and every other member of the bundle, each with nothing changed but its refs. |
| `Flatten.RootNamed` | codex-rs/app-server-protocol/src/export.rs:1203-1228 | The second guard looks up the segment up to the next slash. |
| `Flatten.FirstWithPrefixFinds` | codex-rs/app-server-protocol/src/export.rs:1157-1182 | The search for a ref with a prefix finds one exactly when there is one. |
| `Flatten.FlattenSucceeds` | codex-rs/app-server-protocol/src/export.rs:1038-1228 | For a bundle with plain refs and no clash between the root names used and the v2 names, both guards pass, and no ref into the v2 namespace is left. |
| `Flatten.PlainBundleFlattens` | codex-rs/app-server-protocol/src/export.rs:1038-1086 | The promise of the method is enough: for such a bundle the result is a schema, and no ref into the v2 namespace is left in it. |
| `Flatten.FlattenPreservesMeaning` | codex-rs/app-server-protocol/src/export.rs:1038-1155 | Each ref of a flattened definition resolves to the image of what the original ref resolved to. |
| `Flatten.RootRefKeepsMeaningIff` | codex-rs/app-server-protocol/src/export.rs:1050-1086 | For any bundle: a plain ref to a root definition resolves in the returned schema to the image of what it resolved to if and only if the name is shared; or a v2 definition of that name has the same image; or no v2 definition has the name, and the root one is a dependency or does not exist. |
| `Flatten.V2RefKeepsMeaningIff` | codex-rs/app-server-protocol/src/export.rs:1050-1086 | The same for a plain ref to a v2 definition: if and only if no shared definition of that name has another image, and no root dependency takes the place of a v2 definition that does not exist. |
| `Flatten.ClashChangesMeaning` | codex-rs/app-server-protocol/src/export.rs:1069-1082 | A concrete bundle with clashing names, in which a root ref and a v2 ref both come to mean something else. |
| `Flatten.ClashIsNotCaught` | codex-rs/app-server-protocol/src/export.rs:1081-1085 | The two guards do not notice: that bundle is flattened all the same. |
| `Flatten.FlattenSound` | codex-rs/app-server-protocol/src/export.rs:1157-1228 | Whatever the bundle, success means that no v2 ref is left and every local ref names a definition of the result. |
| `Scanner.ScanState.Observe` | codex-rs/app-server-protocol/src/export.rs:880-941 | One scanner step over depths, open quote and escape. |
| `Scanner.SplitTopLevelMulti` | codex-rs/app-server-protocol/src/export.rs:754-777 | The one-pass splitter returns the trimmed, non-blank stretches between top-level delimiters. |
| `Scanner.SplitPointIsInitial` | codex-rs/app-server-protocol/src/export.rs:924-941 | Being at top level is being in the initial state, whatever was scanned before. |
| `Scanner.SplitJoinRoundTrip` | codex-rs/app-server-protocol/src/export.rs:754-777 | For any text, keep any of its parts in order, join them with a delimiter in any amount of space, split again: exactly the kept parts come back. |
| `Nesting.ItemsAreParts` | codex-rs/app-server-protocol/src/export.rs:754-777 | Items whose brackets of all four kinds and quotes match, joined by a delimiter in any amount of space, are exactly the parts of the split, whatever delimiters stand inside their brackets and strings. |
| `PropertyText.LiteralRead` | codex-rs/app-server-protocol/src/export.rs:851-874 | `parse_string_literal` behind space reads exactly the literal that stands there, escapes included. |
| `PropertyText.NameRead` | codex-rs/app-server-protocol/src/export.rs:815-849 | `parse_property_name` reads exactly the bare, optional or quoted name that the text declares, and none where it declares none. |
| `PropertyText.ValueRead` | codex-rs/app-server-protocol/src/export.rs:796-800 | The value of a property is what follows its own colon, when its name has none. |
| `PropertyText.CommentedNameRead` | codex-rs/app-server-protocol/src/export.rs:802-849 | Behind any leading block comments, the name read is exactly that of the property that follows. |
| `TypeScriptFilter.BraceSpanMeaning` | codex-rs/app-server-protocol/src/export.rs:735-752 | The span found is the first top-level closing brace that some top-level opening brace precedes, with the last such opening brace; none exactly when there is no such pair. |
| `TypeScriptFilter.FindTopLevelBraceSpan` | codex-rs/app-server-protocol/src/export.rs:735-752 | The scanning loop finds that span. |
| `TypeScriptFilter.FilterRoundTrip` | codex-rs/app-server-protocol/src/export.rs:754-777 | Splitting, keeping some parts and joining leaves exactly the kept parts in order, and doing it again changes nothing. |
| `TypeScriptFilter.FilterUnionBody` | codex-rs/app-server-protocol/src/export.rs:305-322 | After the union filter the arms are the original ones without those whose text calls a listed method, in order, and a second run is a no-op. |
| `TypeScriptFilter.FilterTypeFields` | codex-rs/app-server-protocol/src/export.rs:370-392 | After the field filter the fields are the original ones without those that, behind their comments, declare a listed property, in order; a second run is a no-op. |
| `TypeScriptFilter.UnionArms` | codex-rs/app-server-protocol/src/export.rs:305-322 | An arm whose first field named `method` has the literal `m` as its value is in the filtered union exactly when it was in the original and `m` is not listed; an arm that calls no method stays whenever it was there. |
| `TypeScriptFilter.MethodRead` | codex-rs/app-server-protocol/src/export.rs:779-794 | What is extracted from an arm is exactly the method its text calls: the literal of the first field named `method`, bare or quoted, of its top-level brace span. |
| `TypeScriptFilter.WrittenArm` | codex-rs/app-server-protocol/src/export.rs:735-800 | For an arm written as a braced text whose brackets and quotes match, that span is its outermost pair of braces. |
| `TypeScriptFilter.BodyFields` | codex-rs/app-server-protocol/src/export.rs:370-392 | A field is in the filtered body exactly when it was in the original and declares no listed property. |
| `WrapperArgs.ParseWrapperArgs` | tools/argument-comment-lint/wrapper_common.py:55-104 | The flag-and-value scan over both sides of the separator, in one pass. |
| `WrapperArgs.BuildFinalArgs` | tools/argument-comment-lint/wrapper_common.py:107-122 | The defaults around the user's arguments, as the flags call for. |
| `WrapperArgs.FlagSetIff` | tools/argument-comment-lint/wrapper_common.py:74-102 | A flag is set exactly when some argument before the separator, which is no other flag's value, names it, by itself, with a value behind it or with one assigned. |
| `WrapperArgs.TargetSelectedIff` | tools/argument-comment-lint/wrapper_common.py:23-66 | A target is selected exactly when some argument behind the separator is one of the target options. |
| `WrapperArgs.NormalizedFixedIff` | tools/argument-comment-lint/wrapper_common.py:55-122 | Normalising twice is normalising once, for every command line, if and only if the manifest path is not the separator itself or the user gave one. |
| `WrapperArgs.NormalizedSides` | tools/argument-comment-lint/wrapper_common.py:55-122 | What the parser reads back from a normalised command line: sides, flags and target selection. |
| `WrapperArgs.NormalizedKeepsUserArgs` | tools/argument-comment-lint/wrapper_common.py:107-122 | The user's arguments stay on their side of the separator, in order. |
| `WrapperArgs.SeparatorPathGrows` | tools/argument-comment-lint/wrapper_common.py:107-122 | A separator as the manifest path makes every pass longer than the last. |
| `Launcher.ExclusiveKept` | codex-rs/app-server-launcher/src/lib.rs:156-261 | Every step of a launcher, a daemon or the clock that leaves the lock undisturbed keeps, for launchers none of which would restart another's daemon: one is in its critical section exactly while the lock is its own. |
| `Launcher.OneDaemonKept` | codex-rs/app-server-launcher/src/lib.rs:349-390 | Every calm step keeps: one daemon at most, named by every lockfile, every judged snapshot and every returned url, and still in its launcher's hands while no lockfile names it. |
| `Launcher.MutualExclusion` | codex-rs/app-server-launcher/src/lib.rs:156-173 | From a cold start of any such launchers, over every interleaving in which no lock ages and no stop runs, at most one is between acquire and drop, and it created the lock; crashes, deadlines and I/O errors included. |
| `Launcher.MutualExclusionIff` | codex-rs/app-server-launcher/src/lib.rs:129-173 | Exact: every run keeps mutual exclusion if and only if there is one launcher at most, or no launcher's policy answers another's lockfile with a restart, no lock may age and no `stop` may run. |
| `Launcher.RestartBreaksExclusion` | codex-rs/app-server-launcher/src/lib.rs:374-390 | For any two launchers where it does, the run in which one deletes the lock the other holds, and both are in the critical section. |
| `Launcher.SingleDaemon` | codex-rs/app-server-launcher/src/lib.rs:192-261 | Over every such run in which daemons stay up and get published, at most one is ever spawned, and every launcher that succeeds returns its url. |
| `Launcher.AgedLockBreaksExclusion` | codex-rs/app-server-launcher/src/lib.rs:463-474 | Once a lock may age, for any two launchers or more, a run with two of them in the critical section. |
| `Launcher.StopBreaksExclusion` | codex-rs/app-server-launcher/src/lib.rs:284-301 | Once a `stop` may run, the same: it deletes the lock under its holder. |
| `Launcher.LoserFailsBesideHealthyDaemon` | codex-rs/app-server-launcher/src/lib.rs:214-219 | Safety only: a calm run in which the loser of the race fails although the daemon is up and published. |
| `Launcher.FailsOnlyBesideHealthyDaemon` | codex-rs/app-server-launcher/src/lib.rs:192-261 | And only so: in every calm run of launchers of one binary without deadlines and I/O errors, one that fails did so at its second look, which found the lock gone, while the lockfile named the one daemon, which was up. |
| `LauncherChecks.UrlTakenIsUp` | codex-rs/app-server-launcher/src/lib.rs:349-372 | Over every run at all, with crashes, deadlines, I/O errors, ageing locks and stops: a step that takes a launcher from judging a lockfile to a url takes that lockfile's url, while its process is alive, answers, and runs the launcher's own binary as it is on disk. |
| `LauncherChecks.JudgedLockfileRemoved` | codex-rs/app-server-launcher/src/lib.rs:349-423 | A launcher that judges a lockfile whose process is dead, or one of its own binary that is outdated or does not answer in time, removes a lockfile before it looks at the lock, waits or spawns; an outdated daemon is dead by then. |
| `LauncherChecks.OtherBinaryLeftAlone` | codex-rs/app-server-launcher/src/lib.rs:129-138 | At the live lockfile of another binary a launcher goes on and changes nothing. |
| `LauncherChecks.OnlyOutdatedEnded` | codex-rs/app-server-launcher/src/lib.rs:129-149 | In every run, no launcher ends a daemon but one whose lockfile it has judged to be of its own binary, changed on disk since. |
| `LauncherChecks.WhereChecksEnd` | codex-rs/app-server-launcher/src/lib.rs:192-261 | Where each of the four checks ends, whatever the world is like: a wait is left only with a url, by its deadline or by an error. |
| `LauncherChecks.SuccessWasUp` | codex-rs/app-server-launcher/src/lib.rs:192-261 | In every run, each url returned was, when its launcher took it, that of a daemon alive and answering. |
| `LauncherChecks.WhyItFailed` | codex-rs/app-server-launcher/src/lib.rs:192-261 | In every run, each failure is an I/O error, a deadline of the second wait or of the spawned daemon, or a second look at the lock that found it gone or removed it. |
| `EventForwarding.EventWorker.Forward` | codex-rs/app-server-client/src/lib.rs:251-317 | Each event is decided once: delivered, dropped only at a full channel, or lost only to a closed one, with the pending lag marker ahead of it. |
| `EventForwarding.EventWorker.Work` | codex-rs/app-server-client/src/lib.rs:536-639 | The worker's loop, commands and events in any interleaving, against a consumer that drains and closes at will: its history accounts for exactly the events it pulled, in order; the commands served are answered, or left to tasks of their own, in order; it ends at the first shutdown or hang-up, with the last command, or when the runtime has no more events. |
| `EventForwarding.CommandsAnswered` | codex-rs/app-server-client/src/lib.rs:536-592 | Every request waits in a task of its own and every other command but a hang-up gets the reply its send returns, and nobody else gets any. |
| `EventForwarding.SkipsConserved` | codex-rs/app-server-client/src/lib.rs:251-317 | Markers plus the counter equal the dropped events, each counted once whatever it was, except for drops at a saturated counter; equal outright if and only if there was none. |
| `EventForwarding.ConservationFails` | codex-rs/app-server-client/src/lib.rs:282-308 | A history that drops once more than the counter can hold, in which conservation fails. |
| `EventForwarding.FewDropsNeverSaturate` | codex-rs/app-server-client/src/lib.rs:282-308 | Nothing saturates before the range of the counter is used up. |
| `EventForwarding.DeliveredInSourceOrder` | codex-rs/app-server-client/src/lib.rs:251-317 | The delivered events are a subsequence of the source. |
| `EventForwarding.LosslessTierIntact` | codex-rs/app-server-client/src/lib.rs:194-228 | While the channel is open, the lossless events enqueued are exactly the lossless source events, in order; with a closed one, all but the last event pulled. |
| `EventForwarding.TierIs` | codex-rs/app-server-client/src/lib.rs:194-228 | The tier is the notifications named, and no other event. |
| `EventForwarding.MarkerBetween` | codex-rs/app-server-client/src/lib.rs:260-289 | A marker always sits between a dropped event and the next delivered one. |
| `EventForwarding.RequestsAccounted` | codex-rs/app-server-client/src/lib.rs:275-316 | Every server request pulled is in exactly one place, the channel or the failed list, except one swallowed by a closed channel. |
| `EventForwarding.RequestsSettledIff` | codex-rs/app-server-client/src/lib.rs:275-316 | So all are settled exactly when the run does not end by losing one to a closed channel. |
| `EventForwarding.ClosedChannelSwallows` | codex-rs/app-server-client/src/lib.rs:290-316 | The shortest failing history: one server request that meets a closed channel. |
| `EventForwarding.OpenWorker` | codex-rs/app-server-client/src/lib.rs:536-639 | A worker whose channel is open has enqueued exactly the lossless events it pulled, in order, and has settled every server request it pulled. |
| `EventForwarding.WorkerCountsDrops` | codex-rs/app-server-client/src/lib.rs:536-639 | A worker's markers and counter add up to the events it has dropped, until the counter saturates. |
| `EventForwarding.TokenRefreshNeverForwarded` | codex-rs/app-server-client/src/lib.rs:593-611 | Token-refresh requests never reach the consumer. |
| `EventForwarding.TokenRefreshRefused` | codex-rs/app-server-client/src/lib.rs:593-611 | Each of them is failed as unsupported. |
| `EventForwarding.FailureCodes` | codex-rs/app-server-client/src/lib.rs:593-627 | They, and only they, are failed as unsupported; every other failed request as overloaded. |
| `RemoteClient.RemoteConnection.Handle` | codex-rs/app-server-client/src/remote.rs:198-434 | Every turn of the worker, its end and what comes after keep the invariant that ties its table, answers and events to the inputs so far; it runs exactly while no input has been one that ends it. |
| `RemoteClient.RunsUntilEnd` | codex-rs/app-server-client/src/remote.rs:198-425 | Over every run, the worker runs if and only if no input was an ending one, told from the inputs alone: a shutdown or hang-up, a malformed, close, broken or end message, a failed write of a request that is no duplicate or of the rejection of an unknown one, a known event without a consumer. |
| `RemoteClient.ExactlyOneAnswer` | codex-rs/app-server-client/src/remote.rs:198-434 | Once the worker has ended, every command of the run has been answered exactly once, with the answer the inputs call for. |
| `RemoteClient.AnsweredOnceOrPending` | codex-rs/app-server-client/src/remote.rs:198-308 | While it runs, every command has been answered once or waits in the table, never both. |
| `RemoteClient.OutcomeReached` | codex-rs/app-server-client/src/remote.rs:203-433 | Which answer: duplicate id, write failure, the first reply for the id while the worker reads, or a broken pipe, all read off the inputs alone. |
| `RemoteClient.TableIsOutstanding` | codex-rs/app-server-client/src/remote.rs:209-308 | The table holds exactly the requests written and not yet replied to, each with its own waiter. |
| `RemoteClient.DuplicateDisturbsNobody` | codex-rs/app-server-client/src/remote.rs:209-217 | Taking a duplicate request out of a run changes nothing, to the end, but the one answer to its own waiter. |
| `RemoteClient.EventsInArrivalOrder` | codex-rs/app-server-client/src/remote.rs:295-425 | A consumer that stays has been sent exactly the known events among the inputs the worker reads, in arrival order, and, once the worker has ended, the disconnection its last input calls for. |
| `RemoteClient.EventsSent` | codex-rs/app-server-client/src/remote.rs:295-425 | The same for a consumer that leaves: what was due when it left, and nothing after. |
| `RemoteClient.ConsumerGets` | codex-rs/app-server-client/src/remote.rs:568-573 | What a consumer that stays has taken, what is still buffered for it and what is in the channel are together the events buffered while connecting and then those the inputs call for. |
| `RemoteClient.NothingAfterConsumer` | codex-rs/app-server-client/src/remote.rs:832-842 | A consumer that is gone is sent nothing more, whatever comes. |
| `RemoteClient.Initialize` | codex-rs/app-server-client/src/remote.rs:700-823 | The events before the first deciding message, in order, or the error it or a failed write decides. |
| `RemoteClient.RemoteConnection.NextEvent` | codex-rs/app-server-client/src/remote.rs:568-573 | Buffered events come out before the channel's, each once and in order. |
| `OutputCapture.Capture` | codex-rs/app-server/src/command_exec.rs:566-628 | Whatever the chunk boundaries and coalescing, the buffer or the deltas together are the first bytes up to the cap when the channel closes, and a prefix of them on timeout; only the last delta can say the cap is reached, and it does exactly when it is. |
| `CommandExec.CommandExecManager.StartCommand` | codex-rs/app-server/src/command_exec.rs:143-306 | Each refusal, outright, in the order of its checks; the id drawn, also by a start refused later; and the session, kind and key of an accepted start. |
| `CommandExec.CommandExecManager.SendControl` | codex-rs/app-server/src/command_exec.rs:404-440 | A control reaches the task of that connection and client id, and the result is the running command's answer to it, by whether stdin is streamed and the process takes it; or it fails: no session, a sandboxed one, or a task that ends before it answers. |
| `CommandExec.CommandExecManager.FindSession` | codex-rs/app-server/src/command_exec.rs:409-427 | The lookup alone, which leaves the client holding the channel. |
| `CommandExec.CommandExecManager.SendTo` | codex-rs/app-server/src/command_exec.rs:428-439 | The send alone, at any later time, on a channel that a lookup returned, with the same answer. |
| `CommandExec.CommandExecManager.CloseConnection` | codex-rs/app-server/src/command_exec.rs:375-402 | Exactly the connection's sessions go, and each of its active ones whose task still runs is sent one terminate. |
| `CommandExec.CommandExecManager.FinishCommand` | codex-rs/app-server/src/command_exec.rs:282-304 | A finished or unspawnable task removes its session and keeps the table safe. |
| `CommandExec.OneLiveSession` | codex-rs/app-server/src/command_exec.rs:143-306 | In every interleaving without late starts, unfinished tasks have different keys, and the table holds a key exactly while its connection is open and a listed task of it is unfinished. |
| `CommandExec.ControlStaysHome` | codex-rs/app-server/src/command_exec.rs:308-440 | In every run at all, with any steps between a lookup and its send, and between a close and its terminates: a control that arrives at a task was sent by the task's own connection to the client id the task was started under; a generated id hears only the closing of its connection. |
| `CommandExec.ClosingTellsOnce` | codex-rs/app-server/src/command_exec.rs:375-402 | No task is ever told to terminate twice by a close, and an unfinished one exactly once if and only if it is a controlled task of a closed connection. |
| `CommandExec.OneLiveTaskIff` | codex-rs/app-server/src/command_exec.rs:143-306 | Exact, over every run: unfinished tasks have different keys after every step if and only if no start accepted on a closed connection reuses the key of an unfinished task. |
| `CommandExec.LateStartLosesSession` | codex-rs/app-server/src/command_exec.rs:264-304 | A concrete run that reuses a key: two unfinished tasks share it, and when the first finishes the second loses its session. |
| `CommandExec.RunCommand` | codex-rs/app-server/src/command_exec.rs:499-543 | The exit code is 124 when the deadline was taken before the exit, else the process's own or, when that is lost, -1; termination is requested exactly when a deadline, a closed channel or a terminate comes before the exit; every control taken before the exit is answered once, in order; and the process is written exactly what the accepted writes carry. |
| `Analytics.AnalyticsReducer.IngestFact` | codex-rs/analytics/src/reducer.rs:157-234 | Each fact changes the five maps and emits events as the pure reducer says. |
| `Analytics.AnalyticsReducer.MaybeEmitTurnEvent` | codex-rs/analytics/src/reducer.rs:805-859 | A turn event is emitted exactly when record, connection and thread are all known, and the record then goes. |
| `Analytics.NothingLeftUnreported` | codex-rs/analytics/src/reducer.rs:805-859 | After a fact that fills the record of a turn, its one event is out and the record closed, or the record, the connection or the thread does not yet suffice: nothing that could be reported is left. |
| `Analytics.OneEventWhateverTheOrder` | codex-rs/analytics/src/reducer.rs:338-381 | Start response, configuration and completion of a turn, in any order, among any start notices, token usage and steers of the same turn, any facts about others and any new initialisations of its connection and thread, emit exactly one event, at the last of the three; it joins them for the client and the thread metadata then in force, and reports the last start, the last usage and the accepted steers that came before. |
| `AnalyticsRuns.TurnEventReports` | codex-rs/analytics/src/reducer.rs:604-661 | That event field by field, from the facts: who, where, how configured, the ending with its times where they fit 64 bits, the last start notice, token usage and client before it. |
| `AnalyticsRuns.PendingIff` | codex-rs/analytics/src/reducer.rs:307-336 | Over every run the pending requests are exactly those asked and not answered since, each kept as it was asked. |
| `AnalyticsRuns.ReportedIff` | codex-rs/analytics/src/reducer.rs:271-305 | Over every run a compaction or a review is reported, once, exactly when its thread has had a response on an initialised connection, for the last client of that connection and with the metadata of the last such response. |
| `AnalyticsRuns.ThreadReportedIff` | codex-rs/analytics/src/reducer.rs:663-699 | A thread's response is reported exactly when its connection has been initialised, for the last client to do so. |
| `AnalyticsRuns.ReportedAsIs` | codex-rs/analytics/src/reducer.rs:383-483 | The facts reported by themselves are so whatever came before, one event each, and change nothing. |
| `Analytics.EventsWithinBudget` | codex-rs/analytics/src/reducer.rs:519-543 | Over a whole run the events of a turn never outnumber its accepted start responses, its configurations or its completions. |
| `Analytics.EmittedSteerCount` | codex-rs/analytics/src/reducer.rs:742-765 | An emitted turn event reports exactly the accepted steers that named the turn while its record was open. |
| `Analytics.SteerEventConsumesRequest` | codex-rs/analytics/src/reducer.rs:554-602 | A steer event is emitted exactly when the fact answers a pending steer request whose connection and thread are known; it reports that request, which is then no longer pending. |
| `Analytics.SteerEventsWithinRequests` | codex-rs/analytics/src/reducer.rs:307-336 | Over a whole run the steer events of a connection's request id never outnumber the steer requests under it. |
| `Analytics.SteerEventsAreAnswers` | codex-rs/analytics/src/reducer.rs:554-602 | Over a whole run there are exactly as many steer events as answers to pending steer requests whose connection and thread are known; no other fact emits one. |

## Left out

- The `&mut` rewriters of the schema modules return new values instead of updating trees in place: each tree has one owner, so no aliasing is lost.
- Numbers are kept as their printed text; the JSON serialiser is a model of the compact printer, not of its implementation.
- Scanner depths are unbounded, not `i32`; byte offsets are character offsets.
- The listed methods of the union filter are those left when empty names have been dropped.
- `split_type_alias`, the pruning of unused imports, the generated-file headers and the file walks around the filters.
- Titles, schema annotation, numbered-definition collisions and the other one-branch mappings of the exporter.
- Launcher.ExclusiveKept: is about a transition function over values, not methods on files, because the launchers interleave between any two file operations; durations and ages are environment steps.
- Launcher.SingleDaemon: is about launchers of one binary; a launcher of another one ignores the lockfile and starts a daemon of its own.
- `status` and `stop` of the launcher, apart from the effect of a stop on the two files.
- Daemon pids and urls are those the model hands out; the start-time check of a pid is part of whether it is alive.
- What a request answers from its own task, and what the runtime returns for a notification, a resolved server request or a shutdown, are parameters of the event worker.
- Events are told apart by what forwarding looks at: their kind, and for requests the id and whether it is a token refresh.
- RemoteClient.RemoteConnection.Handle: collapses the messages of errors and disconnections to their causes, and abstracts serialisation of requests and responses.
- The connection set-up before the initialize exchange (url check, headers, TLS) and the client-side deadline of `shutdown`.
- CommandExec.CommandExecManager.CloseConnection: sends its terminates in one go; the interleaving of other steps between them is in the runs of `CommandExec.Step`, where removal and each send are separate.
- Generated process ids do not wrap around at 64 bits.
- Whether a process takes a write or a resize, and whether its task ends before it answers, are parameters of a send.
- Validation of control parameters (base64, terminal size), and the closing of stdin itself.
- Decoding captured bytes to text.
- The content of the events about plugins, hooks, apps, skills and sub-agent threads, which neither read nor change the maps; it is one text here.
- Flatten.Flattenable: that assembly produces such bundles is not shown; it is a hypothesis on the bundle passed in.
- Analytics.OneEventWhateverTheOrder: a token usage of the same turn that names another thread is not among the facts interleaved, because the event would then be about that thread.
- Reading and mapping of the fields that turn events copy out of the resolved configuration; they are one text here.
- The environment variables, the package lookup and the process replacement of the lint wrapper.
