# Verified models of rekuest's Python half

Dafny models of the parts of rekuest whose correctness is not visible from one function body, and proofs
of what those parts promise. Check everything with `dafny verify dfyconfig.toml` (Dafny 4.11).

| files | what they model |
|---|---|
| LiveCount, LiveCountSafety, LiveCountDrain, LiveCountTraps | the live-implementation count: writers, triggers, the mark log and concurrent drains as a transition system under READ COMMITTED; the drain function statement by statement |
| Quoting, Descriptors | descriptors compiled to PostgreSQL JSONPath: the text's quoting, its lexemes, a parser by operator precedence, and lax three-valued evaluation |
| Ports, Matcher, Fits, Keys, Statements, Demands | port trees flattened to rows, and port demands compiled to one statement of correlated SQL conditions and its parameters |
| ActionDemands | action demands compiled to one UNION ALL, and its answer demand by demand |
| SqlText, SqlReading, Placeholders | the text of a port-demand statement, read back word by word, and named placeholders rewritten to positional ones |
| JsonScan | the positional scan of JSON ports |
| Dependencies, PortCopies, BlokRevisions | a custom blok's revisions under a head, its dependency rows with their agent bindings, its port rows, and forks of provided bloks |
| JsonPatch, StateLog | states materialized from snapshots and one-operation JSON patches (RFC 6902) |
| Resolver | automatic dependency resolution over a possibly cyclic graph |
| ServiceCatalog, CatalogPasses | the service catalog's passes, and where repeated passes end |
| Wiregrams | declarative rule documents: import, deletion, export |
| Values | whether a runtime value fits a port |
| ImageHeader | PNG, JPEG and WebP headers of uploaded images |
| Json, Collections | JSON values, SQL truth values, finite sets and maps |

Code that changes rows or fields in place is a class or a method with the same statements and loops, proved
against a specification on values; the theorems are lemmas about that specification. A transaction that
raises leaves what it found: such a method returns a flag and its contract says nothing changed.

## Where the code does less, or other, than promised

- A registration must hold its agent's row not only when it adds an implementation to the agent or moves one
  there, but also when it gives an implementation another action: otherwise a count can stay wrong with no mark
  left. `LiveCountTraps` has both runs, and shows that what is missed so is always lost;
  `LiveCountSafety.CommitKeepsInvIff` says which commits are safe.
- The revision `get_latest_state` reports beside the values, unlike the values, depends on which snapshot
  anchors them (`StateLog.ReportedAgreesIff`, `StateLog.ReportedCanDiffer`).
- `value_mismatch` looks a value up in a set of choices, so a list or a dict on an ENUM raises a TypeError
  rather than giving a reason. In a UNION this can refuse a value that a later variant accepts, and putting an
  ENUM variant first makes it raise on every list and dict, accepted before or not (`Values.EnumFirstRaises`,
  `Values.LooseningCanRaise`). `Values.CheckDecides` and `Values.LooserAccepts` say exactly when.
- A manifest that declares one structure twice with different descriptors gets new descriptor rows on every
  pass (`CatalogPasses.TwiceDeclaredChurns`); passes settle exactly when this does not happen
  (`CatalogPasses.SettledPassIff`).
- `prefered_instances = 0` still binds one instance: the limit is looked at only after a binding.
- The scan of JSON ports compares children position by position, so it is stricter than the relational
  matcher (`JsonScan.ScanIsPositional`).
- IN and NOT_IN with an empty list compile to `(false)` and `(true)`, which are not JSONPath predicates; so do
  comparisons with a list or an object (`Descriptors.ParsesBack`).

## Model

| member | source | states |
|---|---|---|
| LiveCountSafety.ReachableCovered | facade/migrations/0002_database_functions.py:65-101 | in every state reached by any interleaving of writers, drains, commits and aborts, each inexact count has an unclaimed mark, a drain that has yet to recount it or return its mark, or a pending recount that is exact |
| LiveCountSafety.QuiescentExact | facade/migrations/0002_database_functions.py:1-30 | an empty log with no drain in flight means every count is exact, whatever ran before, and `> 0` exactly where an implementation of the action is on a webhook agent, connected or not, or on a connected one |
| LiveCount.CountsAssignable | facade/migrations/0002_database_functions.py:45-51 | a count is above 0 exactly when some implementation of the action is on a webhook agent or on a connected one |
| LiveCount.WebhookConnectionIgnored | facade/migrations/0002_database_functions.py:45-51 | a webhook agent that connects or disconnects changes no count |
| LiveCount.WebsocketConnects | facade/migrations/0002_database_functions.py:45-51 | a websocket agent that connects adds to each count the number of its implementations of that action |
| LiveCount.LockedAre | facade/migrations/0002_database_functions.py:83-85 | a drain locks exactly the claimed actions that exist and whose row no other transaction holds |
| LiveCount.MarksAreTouched | facade/migrations/0002_database_functions.py:116-189 | a statement marks exactly the actions it moves an implementation from or to, and those with an implementation on an agent it changes |
| LiveCountSafety.StepKeepsInv | facade/migrations/0002_database_functions.py:53-189 | every step keeps the whole invariant: exclusive rows, marks sufficient in every open writer, stale recounts owed to someone |
| LiveCountSafety.StatementKeepsWriterOk | facade/migrations/0002_database_functions.py:116-152 | a statement's trigger marks both sides of every implementation it moves, and every committed implementation on an agent it makes (un)available, as seen from the writer's own snapshot |
| LiveCountSafety.UpdateAgentKeepsWriterOk | facade/migrations/0002_database_functions.py:116-124 | what the agent trigger cannot see on the agent was moved by the same transaction, and marked then |
| LiveCountSafety.UnmarkedKeepsLive | facade/migrations/0002_database_functions.py:45-51 | a commit leaves the implementations counted for an action it did not mark as they were |
| LiveCountSafety.CommitKeepsCovered | facade/migrations/0002_database_functions.py:54-63 | a writer's commit turns every count it makes inexact into a waiting mark |
| LiveCountSafety.CommitKeepsInvIff | facade/migrations/0002_database_functions.py:116-124 | a writer's commit keeps the invariant exactly when no other open writer's agent trigger missed an implementation it places |
| LiveCountSafety.HeldAgentsSeen | facade/migrations/0002_database_functions.py:9-13 | holding the agents' rows of what is placed suffices for that |
| LiveCountSafety.CommitDrainKeepsInv | facade/migrations/0002_database_functions.py:87-99 | a drain's commit leaves each count it wrote exact or owed to whoever marked it since, and forgets nothing it could not lock |
| LiveCountSafety.AbortDrainKeepsInv | facade/migrations/0002_database_functions.py:71-99 | an aborted drain's marks wait again, and cover all it owed or had recounted |
| LiveCountSafety.OnlyDrainsWriteCounts | facade/migrations/0002_database_functions.py:103-114 | through every step an action keeps its stored count unless a drain commits a recount of it, and a new action starts at 0 |
| LiveCountDrain.DrainNeverLengthens | facade/migrations/0002_database_functions.py:71-99 | whatever ran in between, a drain's commit changes the log's length by what it returns less what it took, never for the longer |
| LiveCountDrain.DrainShortens | facade/migrations/0002_database_functions.py:95-99 | a drain strictly shortens the log unless every claimed action exists and is held by others, and puts back no mark of a deleted action |
| LiveCountDrain.DrainIsARun | facade/migrations/0002_database_functions.py:65-101 | the function run alone is the protocol's claim, lock, recount, return and commit in that order |
| LiveCountDrain.TakeOldest | facade/migrations/0002_database_functions.py:71-77 | the claim takes exactly the oldest `batch` marks, or all there are |
| LiveCountDrain.Numbered | facade/migrations/0002_database_functions.py:97-98 | the put-back marks are one an action, under fresh ids |
| LiveCountDrain.RecountedAssignable | facade/migrations/0002_database_functions.py:87-93 | each claimed action that nobody holds ends with its exact count, `> 0` exactly where it can be assigned |
| LiveCountDrain.Database.Settle | facade/migrations/0002_database_functions.py:83-99 | the statements after the claim lock what is free, recount exactly that and return the rest |
| LiveCountDrain.Database.Refresh | facade/migrations/0002_database_functions.py:65-101 | one call drains the oldest marks around the held actions; every claimed action that nobody holds then has its exact count, `> 0` exactly where it can be assigned; the result is the number recomputed |
| LiveCountDrain.Database.DrainAll | facade/migrations/0002_database_functions.py:65-101 | draining repeatedly once writers stop ends, with an empty log, every count exact, and `> 0` exactly where the action can be assigned |
| LiveCountDrain.DrainKeepsLogCovers | facade/migrations/0002_database_functions.py:83-99 | a drain leaves every inexact count marked |
| LiveCountTraps.InsertWithoutAgentLockLoses | facade/migrations/0002_database_functions.py:116-132 | a run in which an insert without the agent's row leaves a wrong count and no mark |
| LiveCountTraps.MissedIsLost | facade/migrations/0002_database_functions.py:116-124 | once the marks are drained, the commit of a writer that (un)made an agent available always loses the count of an action whose implementation on it the writer missed |
| LiveCountTraps.ActionChangeWithoutAgentLockLoses | facade/migrations/0002_database_functions.py:142-152 | a run in which changing an implementation's action without the agent's row does |
| Quoting.QuotedRoundTrip | facade/descriptors.py:24-31 | a key's quoted form reads back as the key whatever follows it (section 7 of RFC 8259) |
| Quoting.QuotedIsPrintable | facade/descriptors.py:31-31 | a quoted key is printable ASCII, and a key of plain characters stands in it as it is |
| Descriptors.KeyReadsBack | facade/descriptors.py:24-31 | a key that does not begin with `$.` is written as a member that reads back as the key, and `$.` before any other key is left out; only an empty member is refused |
| Descriptors.CompilesIff | facade/descriptors.py:34-83 | descriptors compile exactly when each has a usable key, EXISTS a boolean or nothing, and IN and NOT_IN a list |
| Descriptors.ParsesBack | facade/descriptors.py:34-95 | the emitted text, parsed with conjunction binding tighter than disjunction, is the conjunction of the descriptors' conditions, and is a predicate exactly when every comparison is with scalars and no list is empty |
| Descriptors.ConjunctionMeans | facade/descriptors.py:86-95 | the conjunction is true of an object exactly when the object meets each descriptor |
| Descriptors.CompiledMeans | facade/descriptors.py:34-95 | the stored path matches an object exactly when the object meets every descriptor: some item at the key compares so, a missing key has none |
| Descriptors.EqualsItself | facade/descriptors.py:57-58 | an EQUALS on a key compiles to a path that is true of the object holding that value at that very key, and not of an object without the key |
| Descriptors.NumberCompared | facade/descriptors.py:57-67 | a number at a key is compared by value, by every comparing operator |
| Descriptors.NumberListed | facade/descriptors.py:73-81 | IN and NOT_IN of a list of numbers decide whether the number at the key is in it |
| Descriptors.ListContains | facade/descriptors.py:69-71 | CONTAINS asks for an item of the list at the key; lax comparisons are met by any of its items |
| Descriptors.PresenceDecided | facade/descriptors.py:47-55 | EXISTS with nothing or true asks for the key, with false for its absence |
| Ports.QueueIsComplete | facade/blok_revisions.py:318-321 | the levels hold each port of the forest exactly once, after its parent |
| Ports.FlatteningRepresents | facade/blok_revisions.py:296-321 | the rows written for a forest represent exactly it, with dotted key paths, at every depth |
| Ports.PathsAreKeys | facade/blok_revisions.py:302-316 | a row's path is the keys from its root down to it with dots between, without the empty ones they begin with |
| Ports.QueueCompilesIff | facade/blok_revisions.py:302-321 | writing a forest raises exactly when some port in it, at any depth, has a `requires` that does not compile |
| Ports.RowsRebuildForest | facade/blok_revisions.py:296-321 | rows determine their forest, up to the spelling of `requires` |
| Ports.SameBelow | facade/blok_revisions.py:302-316 | what rows say of a forest depends on the rows below its root only |
| Ports.PortTable.WriteLevels | facade/blok_revisions.py:318-321 | the loop writes the queue's rows in order, parents first, and stops where a `requires` does not compile |
| Ports.PortTable.Sync | facade/blok_revisions.py:296-321 | the owner's rows become its new forest's, every other owner's rows keep their meaning, and a refusal changes no row |
| Keys.SameKey | facade/managers.py:151-168 | a parameter name determines its tag and its match's position |
| Fits.HiddenIff | facade/managers.py:99-115 | an object is hidden exactly when some implementation of the action is on a webhook agent or on a connected one seen after the cutoff, and each of these has fits on the port of which none holds for the object and its agent's hardware |
| Matcher.AdmitsIff | facade/managers.py:207-218 | a port's stored path admits an object exactly when the object meets each of its `requires` |
| Matcher.CandidateIs | facade/managers.py:207-215 | the candidate object has each descriptor's value at its key, the last of a key's, and no other keys |
| Matcher.WhereEach | facade/managers.py:223-224 | conditions joined by AND are true, in three-valued logic, exactly when each is |
| Matcher.OwnMeans | facade/managers.py:168-218 | on the row of a port, a match's own conditions are true exactly when the port satisfies what the match asks of it, NULL columns included |
| Matcher.MatchMeans | facade/managers.py:140-224 | the nested EXISTS, over rows that represent a forest, is true exactly when some port of the forest satisfies the match, at every depth |
| Statements.RootRowsCount | facade/managers.py:227-230 | counting an owner's root rows counts its root ports of that sort |
| Demands.DemandMeans | facade/managers.py:268-288 | one demand's clauses hold exactly when the owner's ports meet its matches and counts |
| Demands.StatementMeans | facade/managers.py:254-294 | the statement selects exactly the organization's owners whose ports meet every demand |
| Demands.SyncedBlokSearch | facade/managers.py:85-85 | after a blok's ports are synchronized, a search finds it exactly when its declared args meet the matches and counts of every demand, no agent being asked |
| Statements.NamesDistinct | facade/managers.py:168-217 | the parameter names of one match differ from one another |
| Statements.BoundApart | facade/managers.py:219-221 | binding parameters at one position leaves those of any position not above or below it alone |
| Statements.Statement.BuildMatchExists | facade/managers.py:140-224 | what is built is the compiled match with all its parameters bound, touching no name outside its position; it raises exactly for an unnarrowed root match on an object |
| Demands.PortDemandSql | facade/managers.py:254-294 | the clauses built are the demands' with every parameter of every demand bound to its own value; it raises exactly for a side the owner lacks, an unnarrowed match on an object, or nothing asked |
| Demands.ActionSearch | facade/managers.py:83-83 | a search over actions selects exactly the organization's actions whose args and returns meet every demand: an object asked of an arg only where some agent can handle it, one asked of a return whatever agents there are |
| Demands.RefusedIsHidden | facade/managers.py:99-115 | an action whose live implementations all refuse an object, on every arg, is not selected by a demand that asks it of an arg |
| ActionDemands.ActionMeans | facade/managers.py:387-452 | one demand's clauses select exactly the actions that meet it: its hash alone where one is given, else identity, ports on both sides, counts, every protocol and qualifier, empty texts not asked |
| ActionDemands.MineAlone | facade/managers.py:387-487 | no two demands of a statement share a parameter name, and none takes the organization's |
| ActionDemands.ActionDemandClauses | facade/managers.py:387-452 | the clauses built are the demand's with its parameters bound, touching no other demand's names; it raises exactly without a hash where nothing is asked or a match on an object is unnarrowed |
| ActionDemands.BuildSelects | facade/managers.py:455-481 | every select of the UNION ALL is its demand's, with the parameters of all demands bound at once |
| ActionDemands.AnswersAligned | facade/managers.py:455-487 | the list of a demand holds exactly the organization's actions that meet this demand, whatever the others ask |
| ActionDemands.CollectIds | facade/managers.py:483-487 | each id lands in the list of the demand it was returned for, in order |
| SqlText.CompiledFed | facade/managers.py:140-224 | every alias and parameter of a compiled match, at any depth, is a name, and every parameter has a value |
| SqlReading.StatementReadsBack | facade/managers.py:254-294 | the words and names a built statement is written in read back as its table and exactly the demands' clauses, every nested EXISTS with the conditions it was written from |
| SqlText.FoundKeys | facade/managers.py:297-309 | the placeholders found in a written statement are its parameters in order, and it has no other `%` |
| SqlText.StatementPositional | facade/managers.py:254-309 | the text of a built port-demand statement, made positional, gives every placeholder its own value |
| Placeholders.ToPositional | facade/managers.py:297-309 | the positional statement with its values in order is the named statement: every placeholder keeps its own value |
| Placeholders.Concatenated | facade/managers.py:317-337 | two statements written one after the other keep their own values |
| Placeholders.JoinedKeepValues | facade/managers.py:359-369 | so do statements joined by UNION |
| Placeholders.ShortcutDemandSql | facade/managers.py:317-337 | in the nested shortcut statement the organization and every scan keep their own values |
| JsonScan.ScanMeans | facade/managers.py:561-646 | the scan of any match accepts a port list exactly when some port stands where the match says, has the key, kind and identifier it gives, empty texts giving nothing, and has children that agree so with the match's position by position |
| JsonScan.ScanRefinesMatcher | facade/managers.py:489-497 | what the scan of a match it expresses in full accepts satisfies the match |
| JsonScan.ScanRefinesExists | facade/managers.py:489-497 | and is accepted by the relational EXISTS on the flattened ports |
| JsonScan.ScanIsPositional | facade/managers.py:489-497 | not the other way round: a child matched at another position |
| Dependencies.DependencyTable.Sync | facade/blok_revisions.py:266-293 | the rows become the declarations, a kept key keeps its row, and every mapping points at its key's row or, undeclared, at nothing |
| Dependencies.DependencyTable.Upsert | facade/blok_revisions.py:274-288 | a declared key's row is updated in place or created |
| Dependencies.DependencyTable.WriteMappings | facade/mutations/materialized_blok.py:77-85 | a materialization's mappings become the resolved ones, each bound to its key's row, others untouched; a key not declared raises |
| Dependencies.RunKeepsValid | facade/blok_revisions.py:274-293 | throughout any run of syncs, which touch mappings through row ids alone, and of mapping writes, every mapping is on its key's row, or on none where the key has none |
| Dependencies.BindingFollowsKey | facade/blok_revisions.py:266-293 | after any run of syncs and of other materializations' writes a mapping has its agent still, and points at its key's row or, undeclared, at nothing |
| Dependencies.KeptKeyKeepsRow | facade/blok_revisions.py:277-288 | a key declared throughout a run keeps its row |
| Dependencies.BindingsRestored | facade/blok_revisions.py:269-291 | a key removed and declared again later in a run, whatever is written in between, takes back every binding it had, on a new row and with the same agent |
| BlokRevisions.SameHashSameContent | facade/blok_revisions.py:116-126 | contents are hashed alike exactly when equal: leaving out empty parts confuses nothing |
| BlokRevisions.HistoryGrows | facade/blok_revisions.py:372-393 | a revision on top of the head continues a gapless history in which each differs from its predecessor |
| BlokRevisions.MaxNumberIsLength | facade/blok_revisions.py:372-372 | the highest number is the number of revisions |
| BlokRevisions.IdsGrow | facade/blok_revisions.py:373-393 | a revision's id tells its place |
| BlokRevisions.Blok.WriteRows | facade/blok_revisions.py:412-414 | dependency rows and port rows show the new head although port rows are rewritten only when args change |
| BlokRevisions.Blok.Commit | facade/blok_revisions.py:336-417 | exactly when a write is provided, stale, unchanged, refused or committed: a tree's check gives its findings or refuses, without a tree there are none, and new args that do not compile refuse; only the last changes anything but findings and resolved locals, adding the next revision on the head; columns, dependency rows and port rows always show the head |
| BlokRevisions.Blok.Revert | facade/mutations/blok.py:318-329 | an earlier revision's content becomes the head's again, as a new revision, only on the named base |
| BlokRevisions.Fork | facade/mutations/blok.py:126-152 | a fork's first revision is the provided content, its copied port rows show the args without being rewritten, the provided blok stays as it was; refused exactly where it has a tree the vocabulary refuses, and then nothing is left |
| PortCopies.CopyRows | facade/mutations/blok.py:141-150 | copying rows in id order finds every parent's copy, and leaves every other blok's rows with their meaning |
| PortCopies.CopiesRepresent | facade/mutations/blok.py:141-150 | the copies represent the forest the originals do, at every depth |
| JsonPatch.AppliesIff | facade/logic.py:153-173 | an operation applies, and is not skipped, exactly when the value it needs or the place it writes to is there |
| JsonPatch.ElsewhereKept | facade/logic.py:153-159 | an operation changes nothing that is neither above nor below its pointer, nor in the array it adds to or removes from |
| JsonPatch.WrittenIsFound | facade/logic.py:153-159 | what a replace, or an add not at an array's end, writes is found at its pointer |
| JsonPatch.AddAppends | facade/logic.py:153-159 | an add at an array's end appends (section 4.1 of RFC 6902) |
| JsonPatch.IndexIsDecimal | facade/logic.py:153-159 | an array index is a decimal without leading zeros, below the length (section 4 of RFC 6901) |
| JsonPatch.TestChangesNothing | facade/logic.py:153-159 | a test that applies changes nothing |
| JsonPatch.RemoveUndoesAdd | facade/logic.py:153-159 | a remove undoes the add of a new member or an inserted item |
| StateLog.AnchorIrrelevant | facade/logic.py:136-182 | the value at a revision does not depend on the snapshot that anchors it, failing patches skipped |
| StateLog.CheckoutThenPatches | facade/logic.py:136-182 | checkout at one revision followed by the patches up to a later one is checkout at the later, from whichever anchors |
| StateLog.ReportedAgreesIff | facade/logic.py:174-180 | two anchors report one revision exactly when they are of one revision, a patch after the later one applies, or one of the later one's revision does |
| StateLog.ReportedCanDiffer | facade/logic.py:174-180 | they can differ |
| StateLog.Anchor | facade/logic.py:137-142 | the anchor is the newest snapshot at or before the target, if any |
| StateLog.Materialize | facade/logic.py:144-176 | the loop tries each patch in range once, in order, on what the ones before left, skips those that do not apply, and gives the last value and the last revision that applied |
| StateLog.WrittenIsMaterialized | facade/logic.py:153-173 | what an add or replace in range wrote, not at an array's end, is found at its pointer in the materialized value where no later patch in range touches what is there |
| StateLog.OnePatchMaterialized | facade/logic.py:153-180 | one patch in range leaves its result and its revision where it applies, the snapshot's where it does not |
| StateLog.GetLatestState | facade/logic.py:128-182 | every state is so materialized from its newest snapshot, the revision is the highest of theirs, and it raises exactly when a state has no anchor |
| StateLog.LatestIsReplay | facade/logic.py:104-119 | from faithful snapshots every value is the session's patches up to the target, replayed; no reported revision is past the target |
| Resolver.Resolution.AutoResolve | facade/logic.py:14-101 | it ends on every graph; a run that does not raise serves every dependency of the implementation; one that raises met a dependency nothing satisfies |
| Resolver.Resolution.ResolveDependency | facade/logic.py:18-56 | a dependency no action or agent satisfies raises; otherwise each of its keys is served |
| Resolver.Resolution.ResolveKey | facade/logic.py:58-101 | a key binds unvisited candidates of its own, at most max(1, preferred) of them, and fewer only when no candidate is left |
| Resolver.Resolution.Bind | facade/logic.py:70-98 | an implementation with dependencies is visited, resolved in a resolution of its own, and bound to it; a leaf is bound and visited |
| Resolver.NodeGrows | facade/logic.py:70-87 | the nested run and its one binding together still bind everything once |
| Resolver.Resolve | facade/logic.py:14-101 | in a run that does not raise each implementation is bound at most once in the whole tree, each sub-resolution is downstream of exactly one binding, of its own implementation, and every resolution binds candidates of its own keys only and serves each of them |
| Resolver.RunIsWhole | facade/logic.py:14-101 | these follow from what every call of the recursion adds |
| Resolver.WholeRunsMatch | facade/logic.py:29-56 | in such a run no resolution anywhere has a dependency nothing satisfies |
| ServiceCatalog.Catalog.SyncRows | facade/service_catalog.py:88-102 | rows become exactly the declared ones, the last declaration of a key counting; one still declared keeps its id |
| ServiceCatalog.Catalog.SyncStructures | facade/service_catalog.py:105-125 | an identifier another service hosts stays as it is, a declared one becomes the service's as last declared, and what it no longer declares goes |
| ServiceCatalog.Catalog.Catalogue | facade/service_catalog.py:69-85 | one service's rows come in line with its manifest; nothing is written without one |
| ServiceCatalog.Catalog.CatalogueAll | facade/service_catalog.py:164-179 | a pass is one step a service, and names exactly the services that could not be read |
| ServiceCatalog.LastNamesThroughout | facade/service_catalog.py:128-142 | a descriptor every declaration of a structure names is in the last one |
| ServiceCatalog.SignalsAre | facade/service_catalog.py:88-99 | a signal's row holds what the last signal to declare its kind states; one that names no kinds declares CREATED |
| ServiceCatalog.DescriptorsAre | facade/service_catalog.py:128-142 | a descriptor's row holds what the last of its key states and its place, of type ANY where none is given |
| CatalogPasses.NothingMoves | facade/service_catalog.py:105-120 | no step moves an identifier from the service hosting it |
| CatalogPasses.OthersStay | facade/service_catalog.py:105-125 | a step leaves the other services' rows alone |
| CatalogPasses.StepBringsInLine | facade/service_catalog.py:69-125 | afterwards the service hosts exactly what it declares and nobody else holds |
| CatalogPasses.TwoPassesBringInLine | facade/service_catalog.py:164-179 | from any catalog, two passes bring every service in line and leave everything declared hosted |
| CatalogPasses.SettledPassIff | facade/service_catalog.py:164-179 | from then on a pass leaves every row and id as it is exactly when each declaration of a hosted structure names all its descriptors |
| CatalogPasses.OnceIsCovered | facade/service_catalog.py:105-125 | as it does where no structure is declared twice |
| CatalogPasses.TwiceDeclaredChurns | facade/service_catalog.py:128-142 | a structure declared twice with different descriptors changes on every pass |
| Wiregrams.Rules.BringInLine | facade/wiregrams.py:234-242 | the wiregram's rules become exactly the wanted ones; one that was there keeps its row, switch and bookkeeping |
| Wiregrams.Rules.Import | facade/wiregrams.py:245-270 | a document is imported exactly when every rule checks; then its rules are the wiregram's, all others untouched, waiting runs of removed schedules dropped, one plan notice a schedule, anew exactly when its planned terms changed; a refused document changes nothing |
| Wiregrams.Rules.DropWaitingRuns | facade/wiregrams.py:257-259 | one notice for each waiting run of the listed schedules |
| Wiregrams.Rules.PlanAll | facade/wiregrams.py:268-269 | one plan notice for each of the wiregram's schedules |
| Wiregrams.WantedAre | facade/wiregrams.py:207-231 | the wanted rules are the document's, each under its key |
| Wiregrams.TargetIff | facade/wiregrams.py:41-50 | a rule's target is found exactly when one implementation has its name and no other does |
| Wiregrams.RetimesIff | facade/wiregrams.py:107-111 | a schedule keeps its planned run exactly when it differs in name, description, overlap or catch-up at most |
| Wiregrams.DropsAre | facade/wiregrams.py:257-259 | the runs dropped are exactly those that wait for a removed schedule |
| Wiregrams.PlansAre | facade/wiregrams.py:268-269 | a schedule is planned anew exactly when it was there before on other terms |
| Wiregrams.ImportedTwice | facade/wiregrams.py:245-270 | importing the same document again changes no rule, drops no run and replans nothing |
| Wiregrams.Rules.Delete | facade/wiregrams.py:273-278 | a deleted wiregram takes its rules with it, and the waiting runs of its schedules |
| Wiregrams.ExportedIff | facade/wiregrams.py:287-339 | an export succeeds exactly when every rule is pinned and no two places collide: one key in two wiregrams, or a key spelled like the one a rule of no wiregram gets from its id |
| Wiregrams.GatheredAreExported | facade/wiregrams.py:287-339 | pinned rules of one wiregram, or of none, are always exported: no two of them share a document key |
| Wiregrams.MixedRulesCanBeRefused | facade/inputs/wiregram.py:87-94 | rules of two wiregrams can share a key, and the document is refused |
| Wiregrams.ScheduleReadsBackIff | facade/wiregrams.py:287-317 | an exported schedule asks for the row it was written from exactly when its name finds its target again and the row passes the checks |
| Wiregrams.ExportThenImport | facade/wiregrams.py:287-339 | importing an export as a new wiregram, where that holds of every rule, makes rules with the same fields and switches under their document keys |
| Values.CheckDecides | rekuest_core/values.py:31-140 | the check accepts exactly the inhabitants on which it does not raise, refuses exactly the non-inhabitants on which it does not, and raises exactly where an ENUM meets a list or a dict before it is done |
| Values.CalmAccepts | rekuest_core/values.py:137-139 | where of every UNION's variants only the last may have an ENUM below, every inhabitant is accepted |
| Values.LooserKeeps | rekuest_core/values.py:31-140 | loosening a port anywhere in the tree, extra UNION variants in any place, keeps every inhabitant |
| Values.LooserAccepts | rekuest_core/values.py:31-140 | a loosened port accepts what was accepted exactly when its check does not raise, as it never does where it is calm |
| Values.EnumFirstRaises | rekuest_core/values.py:108-111 | an ENUM variant put first loosens any UNION and makes it raise on every list and dict |
| Values.LooseningCanRaise | rekuest_core/values.py:137-139 | so a loosened port raises on a value it accepted, and which inhabits it still |
| Values.ArgsDecide | rekuest_core/values.py:143-162 | arguments are accepted exactly when all are known and every port is served; a refusal names the first port that is not |
| Values.ReferenceIff | rekuest_core/values.py:112-130 | a default's reference is a bare id; an argument's is an envelope that names the port's identifier, where it has one, around an id |
| Values.QuantityIff | rekuest_core/values.py:131-136 | a quantity is a number, or a dict with a number as its value and a text as its unit, if any |
| Values.EnumIff | rekuest_core/values.py:108-111 | an ENUM raises on a list or a dict, and accepts what equals one of its choices, numbers and booleans by value |
| Values.ModelKeys | rekuest_core/values.py:95-107 | a MODEL knows its children's keys and `__identifier`, and no others |
| Values.ModelFields | rekuest_core/values.py:95-107 | a field may be missing or null exactly where its child is nullable or has a default |
| Values.DictEntries | rekuest_core/values.py:74-94 | a DICT whose one child is named `...` types every entry by it, any other child the entry of its key alone |
| ImageHeader.ImageHeaderOf | facade/image_validation.py:44-71 | the loops end and read in bounds on arbitrary bytes, and compute the header function |
| ImageHeader.FirstFrameIsRead | facade/image_validation.py:49-60 | of SOI, any number of segments with a length and a frame header, whatever follows, the first frame's dimensions are read (sections B.1.1.4 and B.2.2 of ITU-T T.81) |
| ImageHeader.PngReadsBack | facade/image_validation.py:46-48 | a PNG's dimensions are those its IHDR chunk was written with |
| ImageHeader.ExtendedReadsBack | facade/image_validation.py:61-64 | an extended WebP's canvas is the one written, stored less one |
| ImageHeader.LosslessReadsBack | facade/image_validation.py:68-70 | a lossless WebP's sides are the ones packed in 14 bits each below the flags |
| ImageHeader.LossyReadsBack | facade/image_validation.py:65-67 | a lossy WebP's sides are the 14 bits below the scaling of each |
| ImageHeader.FormatOf | facade/image_validation.py:44-71 | a header is found in files of these three signatures only, and of the format of its signature |
| ImageHeader.JpegAcceptedIff | facade/image_validation.py:74-88 | a JPEG stream is accepted exactly when small enough, of the named bytes, and within the side limits |

## Left out

- SQL text of scans and of action demands: these are conditions with aliases and parameter names. The text of a port-demand statement is read back from its words; how each fixed word is spelled, and PostgreSQL's own reading of it, are given.
- Execution of the UNION ALL: what it returns is given, as a pair for each select and each action it selects.
- The scan's descriptor clauses and counts (`_json_scan_descriptor_clauses`), and the malformed statement a scan of a match that asks nothing becomes.
- A JSONPath text that is no predicate makes the cast in SQL fail; the model gives it the value unknown.
- JSON texts of descriptor values: values are literals; numbers are reals.
- PostgreSQL's row versions, locks below row level, and sequences that skip: statements are atomic steps on committed rows, and a writer's blocked statement is one that is not enabled.
- LiveCountSafety.ReachableCovered: takes as given that a transaction holds the agents' rows of what it places when it commits; what else writes these tables (takt) is not part of this model.
- NOTIFY delivery, takt's leases and sweeps, and the freshness of heartbeats: the count does not depend on them.
- Names of bloks, and who may fork or edit which (`facade/mutations/blok.py`).
- BlokRevisions.Blok.Commit: takes the SHA-256 of different parts as different, dependency keys as unique, and the vocabulary's checks and resolved locals as given functions.
- The order of a commit's row writes inside its transaction: port rows come before dependency rows in the model.
- Timestamps, forward and backward patch lists, and the choice of session in `get_latest_state`.
- JSON Patch documents of several operations and `move` and `copy`: a recorded patch is one operation without `from`.
- StateLog.AnchorIrrelevant: for snapshots that equal the replay of the patches up to them; a snapshot taken on other grounds anchors whatever it holds.
- Which agent `auto_resolve` picks and which implementations match: they are given, per dependency, to Resolver.Resolution.AutoResolve.
- Reading manifests over HTTP, and rekuest's own entry, which is one more service to the catalog.
- The field checks of a document's rules (lengths, exactly one timing): a stored row is taken to pass them when exported.
- Rule validators, cron and time-zone reading, and dates: uninterpreted functions.
- Values.CheckDecides: for trees whose LIST ports have one child, whose DICT and MODEL children have distinct keys and whose ENUM choices are scalars; reasons are not modelled, only that there is one.
- The embedding cache, tokens, GraphQL schema and settings.
