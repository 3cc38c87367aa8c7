# Verified models of the Nomo tool chain

Four parts of the Nomo repository are modelled here in Dafny, each with the properties its own design depends on.

**The incremental query cache** (`Queries`, `Worklists`, `QueryCaches`, `CacheRuns`, `Fingerprints`, `SourceOverlays`,
`SemanticInputs`, `SemanticSessions`, `HexCodec`, `CachePruning`, `PersistentCaches`, `ProjectChecks`). The cache is a
class with its map, its two reverse indexes and its counters; invalidation is the worklist of the original, proved to
remove exactly the least closed set. `get_or_compute` takes the lock twice, so concurrency is a state machine of lock
sections (`CacheRuns`), and the invariants hold in every reachable state. On top of it are the framed fingerprints, the
source overlays, the editor session and the disk cache; each is shown to be invisible next to a clean check, or exactly
when it is.

**The repr(C) layout engine** (`StructLayouts`, `LayoutSuccess`, `LayoutEngine`, `LayoutGeometry`, `CScalars`). The
memoising engine is a class with its cache and in-progress set, proved equal to a definition that remembers nothing;
placement follows section 6.7.2.1 of ISO/IEC 9899:1999. `CScalars` follows a scalar from a C header to its layout; the
widths it compares with are those of the ILP32, LP64 and LLP64 data models.

**The parity protocol and its validator** (`Sampling`, `Measurement`, `CorrectnessGate`, `BatchProtocol`,
`AttemptHistories`, `ProtocolAgreement`, `RefusedRuns`, `ProtocolRuns`, `CompleteEvidence`, `EvidenceValidation`,
`Claims`, `AcceptedBatches`, `BundlePaths`, `QualificationMessages`, `PreparedBundles`, `BundleRoundTrip`,
`MovedBundles`, `UnqualifiedResults`). Producer and validator are separate loops over the same records; what the
outside world does (outcome of each process, fixtures, snapshots, clock readings) is a parameter, so statements about
all parameters are statements about all histories. Stability and gate evaluation are functions both sides share.

**The C header scanner and binding generator** (`Texts`, `HeaderComments`, `HeaderInputs`, `HeaderScanner`,
`Declarations`, `Bindings`, `BindingRuns`, `WrittenDeclarations`, `WrittenStatements`, `WrittenHeaders`,
`CommentedHeaders`, `RefusedDeclarations`, `RenderedLines`, `BindingOrder`, `Ownership`, `BindingTexts`,
`OrderVisibility`, `HeaderOrder`, `RepeatedNames`). The scanners are loops proved against definitions of depth and
splitting, and the generator is followed from header text to binding text. `WrittenDeclarations` spells declarations,
in any white space, and the reading theorems say that what is spelled is what is bound.

`Wrappers` and `Ordering` hold optional values, results, and the stable sort the other modules use.

`dafny verify dfyconfig.toml` checks everything.

## Where the code decides

- A file that cannot be read is fingerprinted as text beginning with `missing:`; a file holding that very text is
  fingerprinted alike (`SemanticInputs.MissingFileCollides`). The session theorems therefore speak of views without such
  a file; `SemanticInputs.HashedViewsDetermineViews` gives the exact condition on views, and
  `SemanticSessions.KeyDeterminesAnswerIff` on requests.
- `check_project_with_persistent_cache` reads the main file before the cache but fingerprints only the collected files.
  If the main file lies outside them a stale success can be returned;
  `ProjectChecks.CachingIsInvisibleIffMainIsCollected` is exact.
- `collect_protocol_batches` reads the rerun limit from the manifest while `validate_protocol` has a single rerun
  written into its limits. They agree for a limit of one; `ProtocolAgreement.RunIsAcceptedIff` is exact for every limit.
- `validate_protocol` refuses a batch longer than a day, while nothing bounds the length of one; it refuses the
  not-started record that `collect_protocol_batches` keeps when a fixture cannot be resolved; and it refuses a timeout
  that reports exit code 0 (scripts/benchmarksgame_v2.py:8733-8736), which a process leaves that exits by itself between
  the last poll and the kill (scripts/benchmarksgame_v2.py:2236-2273). All three are conditions of
  `ProtocolAgreement.RunIsAcceptedIff`, and by each `RefusedRuns` makes refused runs of fair ones whose gate passed.
- Nor does `validate_protocol` ask that a batch whose environment was eligible before it holds workloads, or that one
  whose environment was not holds none, as `collect_protocol_batches` leaves them. `AcceptedBatches` has this as a
  condition of the batches it shows to be left by attempts; completed batches meet it.
- `validate_measured_workload` and `validate_correctness_evidence` never ask whether a sample of a passed process
  passed; the JSON schema of the result, checked first, does. `CompleteEvidence` has the part of the schema they need.
- `insert` reports an error when the directory cannot be walked for pruning, although the entry has been written.
- Removing comments and directives is not idempotent: a second pass drops a last empty line
  (`HeaderInputs.LastEmptyLineIsLost`). No comment and no directive is left for it (`HeaderInputs.NothingLeftToRemove`).
- The byte count that steers pruning saturates at 2^64 - 1; `CachePruning.TotalIsExactIff` says when it is exact, and
  `PersistentCaches.SaturatedDiskOverflows` is a disk that stays over capacity for it.
- Functions and structs of one name keep the header's order. `HeaderOrder.OrderIsInvisibleIff` says when a binding
  shows it, and `RepeatedNames.DuplicateNamesShowOrder` is a header that does.
- A C `bool` takes one byte, and the Nomo `bool` it is bound to is compiled to an `int` of four; `size_t` is bound to an
  unsigned integer of 64 bits on every target. `CScalars.ScalarKeepsMeaningIff` is exact, and
  `CScalars.TruthValuesAreSpread` is a struct laid out otherwise than in C.
- Block comments in headers nest, unlike in C; the model follows the code.
- The typedef parsers accept a star as a type name; ownership is proved with that case included. A type may be spelled
  with its `const` and its star anywhere around its word; `RefusedDeclarations.TypeIff` is exact.

## Model

| member | source | states |
|---|---|---|
| Queries.AffectedIsLeastClosed | crates/nomo/src/incremental.rs:651-683 | what invalidation has to remove, the keys in every set closed under dependency edges, is itself closed and therefore the least such set, on any graph |
| Queries.AffectedMeansReached | crates/nomo/src/incremental.rs:651-683 | that set holds exactly the entries at the end of a dependency chain from the input, with cycles, self-edges and diamonds allowed |
| Queries.CommitKeepsIndexExact | crates/nomo/src/incremental.rs:220-252 | a commit leaves both reverse indexes the exact inverse of the dependency sets, without empty rows |
| Queries.InvalidateKeepsIndexExact | crates/nomo/src/incremental.rs:255-259 | so does an invalidation |
| Queries.ExactIndexesAreUnique | crates/nomo/src/incremental.rs:158-167 | exact indexes carry no information of their own: they are determined by the entries |
| QueryCaches.QueryCache.Get | crates/nomo/src/incremental.rs:198-207 | answers from the entries, counts one hit or one miss, and changes nothing else |
| QueryCaches.QueryCache.Commit | crates/nomo/src/incremental.rs:220-252 | the first commit of a key wins; a later one counts as a hit and hands back the cached value; indexes stay exact |
| QueryCaches.QueryCache.GetOrCompute | crates/nomo/src/incremental.rs:209-253 | alone, it returns the cached value or else the fresh one, which is then cached |
| QueryCaches.QueryCache.Evict | crates/nomo/src/incremental.rs:658-675 | one worklist turn drops a key from entries and indexes and returns exactly the remaining entries built from it |
| QueryCaches.QueryCache.Visit | crates/nomo/src/incremental.rs:655-675 | a key popped unvisited is always cached, and the turn keeps the worklist invariant while the cache shrinks |
| QueryCaches.QueryCache.Drain | crates/nomo/src/incremental.rs:651-677 | the worklist terminates and removes exactly the least affected set |
| QueryCaches.QueryCache.InvalidateInput | crates/nomo/src/incremental.rs:255-259 | removes exactly the least affected set, leaves every other entry as it was, keeps the indexes exact and returns the number removed |
| QueryCaches.QueryCache.Clear | crates/nomo/src/incremental.rs:261-272 | empties the cache, counts what it removed, and moves the generation only if there was something |
| QueryCaches.QueryCache.Snapshot | crates/nomo/src/incremental.rs:286-292 | reports the generation and the keys of one moment |
| CacheRuns.InvariantHolds | crates/nomo/src/incremental.rs:198-292 | at every lock release of every interleaving the indexes are exact, entries plus invalidations equal insertions, and insertions plus callers still computing never exceed misses |
| CacheRuns.RunIsTallied | crates/nomo/src/incremental.rs:198-272 | in every interleaving hits are the lookups and commits that found their key, misses the lookups that did not, insertions the commits that did not, and the generation is the number of steps that changed what is cached |
| CacheRuns.StepMovesGeneration | crates/nomo/src/incremental.rs:220-272 | a step moves the generation, by one, if and only if it changes what is cached |
| CacheRuns.EqualGenerationsShareEntries | crates/nomo/src/incremental.rs:274-292 | generations never go back, and two moments of one generation have the same entries |
| CacheRuns.CallersAgree | crates/nomo/src/incremental.rs:209-253 | all callers that finish for a key while its entry lives get one and the same value |
| CacheRuns.OrphansComeFromBlindCommits | crates/nomo/src/incremental.rs:220-252 | a step leaves an entry whose query dependency is gone if and only if it commits without finding that dependency |
| CacheRuns.NoOrphansInRun | crates/nomo/src/incremental.rs:209-272 | no entry of a run ever outlives a query it was built from if and only if every commit found its query dependencies cached |
| Fingerprints.UnframeUndoesStream | crates/nomo/src/incremental.rs:66-69 | the framed stream is uniquely decodable for byte strings shorter than 2^64 |
| Fingerprints.StreamIsInjective | crates/nomo/src/incremental.rs:66-69 | equal streams come from equal lists of byte strings |
| Fingerprints.FingerprintBuilder.AddBytes | crates/nomo/src/incremental.rs:66-69 | feeds the digest one frame, length first |
| Fingerprints.FingerprintBuilder.Finish | crates/nomo/src/incremental.rs:79-82 | the digest of exactly the frames fed so far |
| SourceOverlays.ReplaceSourceOverride | crates/nomo/src/project.rs:389-402 | replaces the first override of a path or appends one |
| SourceOverlays.SourceOverridesWithCanonicalAliases | crates/nomo/src/project.rs:376-387 | every path, own or canonical, reads as the last override that names it, and no path is listed twice |
| SourceOverlays.CurrentSourceWins | crates/nomo/src/incremental.rs:865-880 | for any list of overrides, one that names a path twice included, the open file reads as its editor text and every other path as before, whatever the sort does to the order |
| SourceOverlays.CurrentKeepsOneSource | crates/nomo/src/incremental.rs:865-880 | a list that names no path twice gives no path two sources once the open file is entered and sorted in |
| SemanticInputs.CollectSemanticInputs | crates/nomo/src/incremental.rs:808-849 | fingerprints the framed pairs of files and overrides, and declares every path the check can see as a dependency |
| SemanticInputs.EqualStreamsEqualHashedViews | crates/nomo/src/incremental.rs:808-849 | equal streams mean equal views as hashed, although the border between files and overrides is not marked and overridden files are fed twice |
| SemanticInputs.HashedViewsDetermineViews | crates/nomo/src/incremental.rs:822-836 | views that hash alike are equal if and only if no path is missing in one and reads as the text of that read error in the other |
| SemanticInputs.LegibleViewsAreEqual | crates/nomo/src/incremental.rs:822-836 | without such a path, views that hash alike are equal |
| SemanticInputs.MissingFileCollides | crates/nomo/src/incremental.rs:826-833 | a missing file and a file that spells out its error are fingerprinted alike |
| SemanticSessions.KeyDeterminesAnswerIff | crates/nomo/src/incremental.rs:705-743 | two requests of one key have one clean answer, whatever is asked of them, if and only if they agree on which of their sources could be read |
| SemanticSessions.KeyDeterminesAnswer | crates/nomo/src/incremental.rs:705-743 | in particular if no source of either spells a read error |
| SemanticSessions.SessionAnswersAreClean | crates/nomo/src/incremental.rs:705-743 | over every interleaving of edits, invalidations, clears and other callers, an answer is the clean check's answer |
| SemanticSessions.InvalidationIsThorough | crates/nomo/src/incremental.rs:774-777 | over every such interleaving, right after a path was invalidated no request that sees the path has an answer cached |
| SemanticSessions.VouchedIsCovered | crates/nomo/src/incremental.rs:838-849 | an entry depends on every path that any request it answers can see |
| SemanticSessions.IncrementalSemanticSession.CheckProjectText | crates/nomo/src/incremental.rs:705-743 | returns the clean check's answer for the effective sources, and leaves it cached among entries each of which is a clean answer and depends on every path its requests see; if the project's modules cannot be resolved it returns that diagnostic and touches no cache |
| SemanticSessions.SymbolsAreClean | crates/nomo/src/incremental.rs:745-772 | what is cached under a symbols request's key, which leaves out the checked path, is that request's clean answer, and depends on every path the request sees |
| SemanticSessions.IncrementalSemanticSession.SymbolsForProject | crates/nomo/src/incremental.rs:745-772 | the same for the symbols query, in its own cache |
| SemanticSessions.IncrementalSemanticSession.InvalidatePath | crates/nomo/src/incremental.rs:774-777 | both caches lose exactly what was built from the path and the result is the number of answers lost; no request that sees the path has an answer left, and if one had, the result is not zero |
| SemanticSessions.IncrementalSemanticSession.Clear | crates/nomo/src/incremental.rs:779-781 | both caches forget everything, and the result is the number of answers forgotten |
| HexCodec.EncodeHex | crates/nomo/src/incremental.rs:606-614 | two lower-case digits for each byte, high digit first |
| HexCodec.DecodeUndoesEncode | crates/nomo/src/incremental.rs:606-638 | every byte string survives encoding and decoding |
| HexCodec.EncodeUndoesDecode | crates/nomo/src/incremental.rs:616-638 | decoding forgets nothing but the case of the digits |
| PersistentCaches.PersistentQueryCache.Get | crates/nomo/src/incremental.rs:378-413 | yields a value only after schema, key, hex text, checksum and value have been checked, and removes a file it rejects |
| PersistentCaches.AcceptedIff | crates/nomo/src/incremental.rs:386-411 | a file yields a value for a key if and only if it has the current schema and that key, and its hex text decodes to bytes that hash to the stored checksum and parse to the value |
| PersistentCaches.PersistentQueryCache.Insert | crates/nomo/src/incremental.rs:415-468 | writes the entry for the key, or leaves or loses the old file; after a write the disk is pruned as `PruneFiles` states, or, if the directory cannot be walked, nothing goes and an error is returned although the entry is written |
| PersistentCaches.PersistentQueryCache.PruneFiles | crates/nomo/src/incremental.rs:470-516 | what leaves the disk is exactly what the sorted scan of some complete listing of it evicts; nothing goes that was written after a file that stays and could go, nor, of the same time, that comes after it by name; below 2^64 bytes what is left fits the capacity or cannot be removed, and if every file can be removed exactly the oldest files go, as few as will do; if the directory cannot be walked nothing changes |
| PersistentCaches.FreePruneEvictsOldest | crates/nomo/src/incremental.rs:501-511 | the shortest oldest-first prefix of the disk goes when everything can be removed and the disk holds less than 2^64 bytes |
| PersistentCaches.PruneKeepsYounger | crates/nomo/src/incremental.rs:501-511 | whatever goes was written before whatever stays and could go, or at the same time and comes first by name |
| PersistentCaches.PruningIsDetermined | crates/nomo/src/incremental.rs:474-511 | what pruning leaves does not depend on the order in which the directory is read |
| PersistentCaches.PersistentQueryCache.List | crates/nomo/src/incremental.rs:474-500 | every cache file is listed once, with its own time and length |
| PersistentCaches.KeptIsListed | crates/nomo/src/incremental.rs:503-511 | no path is both evicted and kept, and what is kept of a listing is a complete listing of the disk left behind |
| PersistentCaches.PrunedDiskFits | crates/nomo/src/incremental.rs:503-511 | below 2^64 bytes, the bytes left on disk are within capacity unless nothing left can be removed |
| PersistentCaches.GetAfterInsert | crates/nomo/src/incremental.rs:378-468 | a lookup right after a write yields the value written |
| PersistentCaches.AlwaysBacked | crates/nomo/src/incremental.rs:378-516 | over any run, a file that is accepted for a key holds the value last inserted under that key |
| PersistentCaches.GetIsLossy | crates/nomo/src/incremental.rs:378-468 | for any entry-path function, colliding ones included, a lookup yields nothing or the value last inserted under exactly that key |
| CachePruning.Prune | crates/nomo/src/incremental.rs:470-516 | the running total equals the bytes left (sum below 2^64), of a file that goes and one that stays and could go the first was written earlier, or at the same time and comes first by name; the total ends within capacity unless nothing more can go, and if all removals succeed the shortest oldest-first prefix is what goes |
| CachePruning.Scan | crates/nomo/src/incremental.rs:503-511 | the same for the loop over the sorted entries |
| CachePruning.TotalIsExactIff | crates/nomo/src/incremental.rs:491-511 | the running count is the bytes left on disk if and only if all files together stay below 2^64 bytes or nothing with bytes is left; it never exceeds them and falls short by at most the excess |
| CachePruning.SaturationUndercounts | crates/nomo/src/incremental.rs:491-511 | three files of the largest possible size and a capacity of one such file and a byte: one is removed, and the count says the other two fit |
| PersistentCaches.SaturatedDiskOverflows | crates/nomo/src/incremental.rs:470-516 | there is a disk of three such files that pruning leaves over capacity although every file can be removed |
| ProjectChecks.CheckProjectWithPersistentCache | crates/nomo/src/project.rs:253-314 | answers from a stored success or by the clean check, and stores successes only |
| ProjectChecks.OnlySuccessesAreStored | crates/nomo/src/project.rs:296-313 | every entry ever written is `true`, under the key of a check that succeeded |
| ProjectChecks.EqualKeysEqualVerdicts | crates/nomo/src/project.rs:278-295 | checks of one key, by whatever toolchain, have one clean verdict |
| ProjectChecks.CachedVerdictsAreClean | crates/nomo/src/project.rs:253-314 | over any run of checks by changing compilers, edits, evictions and damage a cached verdict is the clean verdict of the compiler that asks, if the main file is among those fingerprinted |
| ProjectChecks.StaleSuccess | crates/nomo/src/project.rs:253-314 | if it is not, editing the main file leaves a stale success standing |
| ProjectChecks.CachingIsInvisibleIffMainIsCollected | crates/nomo/src/project.rs:253-314 | for a given file list, caching is invisible whatever the compilers if and only if the main file is on the list |
| StructLayouts.AlignUpIsLeast | crates/nomo_compiler/src/ffi_layout.rs:141-148 | no multiple of the alignment at or above the value is smaller than the rounded one |
| StructLayouts.AlignUpDoesNotOverflow | crates/nomo_compiler/src/ffi_layout.rs:141-148 | if the rounded value fits in 64 bits, so does the sum it is computed by |
| LayoutSuccess.SuccessIffWellFormedAndAcyclic | crates/nomo_compiler/src/ffi_layout.rs:44-139 | a layout exists if and only if every struct reachable through by-value fields is known, `repr(C)`, not generic, not empty and of supported field types, and the reachable graph has no cycle |
| LayoutSuccess.SuccessIgnoresVisiting | crates/nomo_compiler/src/ffi_layout.rs:60-69 | a result found with some structs in progress holds with others in progress, as long as none of them is reachable |
| LayoutSuccess.FailureNamesAFault | crates/nomo_compiler/src/ffi_layout.rs:55-139 | a failure names a reachable struct and what is wrong with it: not declared `repr(C)`, unknown, generic, empty, a field that is generic or of no supported type, or a cycle |
| LayoutSuccess.ScalarsAreAsWideAsInC | crates/nomo_codegen_c/src/core/names.rs:193-228 | a scalar takes as many bytes, and is aligned to as many, as the C type the code generator spells for it |
| StructLayouts.LastDeclarationStands | crates/nomo_compiler/src/ffi_layout.rs:28-31 | of several declarations of one name the last one stands |
| LayoutEngine.Engine.ComputeStructLayout | crates/nomo_compiler/src/ffi_layout.rs:44-103 | terminates on every declaration set, agrees with the definition that has no cache, restores the in-progress set on success and caches only right layouts |
| LayoutEngine.Engine.PlaceFields | crates/nomo_compiler/src/ffi_layout.rs:71-89 | the field loop computes the offsets, end and alignment of the cache-free definition |
| LayoutEngine.Engine.CTypeLayout | crates/nomo_compiler/src/ffi_layout.rs:105-139 | size and alignment of a field type, nested structs included, as in the cache-free definition |
| LayoutEngine.ComputeReprCLayout | crates/nomo_compiler/src/ffi_layout.rs:22-42 | equals the cache-free layout, succeeds exactly on well-formed acyclic declarations, and otherwise names a fault of one of them |
| LayoutEngine.HitIsRight | crates/nomo_compiler/src/ffi_layout.rs:51-53 | a cached layout is what would be computed afresh, wherever no struct in progress is cached |
| LayoutGeometry.StructLeavesAreWellPlaced | crates/nomo_compiler/src/ffi_layout.rs:71-100 | down to scalar leaves, each absolute offset is a multiple of the leaf's own alignment, leaves are disjoint and inside the struct |
| LayoutGeometry.ArrayElementsStayAligned | crates/nomo_compiler/src/ffi_layout.rs:90-100 | leaves of every element of an array of the struct stay aligned, since size is a multiple of alignment |
| LayoutGeometry.PlacedIsPlacement | crates/nomo_compiler/src/ffi_layout.rs:71-89 | the layout is an aligned placement in declaration order |
| LayoutGeometry.LayoutIsLeast | crates/nomo_compiler/src/ffi_layout.rs:71-100 | no aligned placement in that order gives any field a smaller offset or the struct a smaller size |
| LayoutGeometry.LayoutListsFields | crates/nomo_compiler/src/ffi_layout.rs:71-100 | the layout lists each field by name with the size and alignment of its own type, and the struct is aligned as its most aligned field |
| LayoutGeometry.NoStepOverflows | crates/nomo_compiler/src/ffi_layout.rs:78-90 | if the final size fits in 64 bits, no intermediate sum overflows |
| CScalars.ScalarKeepsMeaningIff | crates/nomo/src/ffi_bindgen.rs:669-683 | a scalar of a header is bound to one of its own kind, and is laid out in the bytes it has in C if and only if it is no `bool` and no `size_t` on a target with 32-bit pointers |
| CScalars.OtherBasesAreStructs | crates/nomo/src/ffi_bindgen.rs:669-683 | any other base but `void` is bound to the struct of that name, or refused if there is none |
| CScalars.TruthValuesAreSpread | crates/nomo_compiler/src/ffi_layout.rs:105-139 | a struct of two truth values is laid out in eight bytes with the second at offset four, where C keeps each in one byte |
| Measurement.MergedIsTaken | scripts/benchmarksgame_v2.py:8593-8601 | the samples spread over per-lane lists, merged and sorted by ordinal, are the event prefix that was run, none lost or doubled |
| Sampling.ListsAreSpread | scripts/benchmarksgame_v2.py:6418-6500 | filing samples one by one is spreading the whole event prefix over phases and lanes |
| Measurement.FailedRunIsValidIff | scripts/benchmarksgame_v2.py:8504-8632 | at whatever event a run fails, the partial validator accepts the evidence (contiguous prefix, one failed tail, recomputed block schedule) if and only if each event taken is borne out by its own evidence |
| Measurement.AcceptedEvidenceIsARun | scripts/benchmarksgame_v2.py:8504-8632 | conversely, evidence it accepts is, up to order within lists, what some failing run leaves whose events are all borne out |
| Measurement.FailureIsNamed | scripts/benchmarksgame_v2.py:6412-6455 | a failed run is filed with the collector's own message, or under a prefix with that of another exception |
| Measurement.CompletedRunIsValidIff | scripts/benchmarksgame_v2.py:8403-8501 | a run without failure leaves every sample where the measured validator looks for it, and is accepted if and only if every event is borne out, for any number of blocks whose rows are permutations of the lanes |
| Measurement.WorkloadEvidence.RunEvent | scripts/benchmarksgame_v2.py:6412-6455 | files the sample of one process, failed or not, under its lane, and returns the error |
| Measurement.WorkloadEvidence.MeasureWorkloadBatch | scripts/benchmarksgame_v2.py:6368-6510 | an unresolved fixture leaves the caller's record as it was and raises its reason; otherwise it stops at the first failure or runs all events, and leaves exactly the record of the events taken |
| CorrectnessGate.RunLanes | scripts/benchmarksgame_v2.py:6281-6363 | attempts lanes in order up to the first failure and records just those |
| CorrectnessGate.CorrectnessGate | scripts/benchmarksgame_v2.py:6266-6365 | workloads in order up to the first failed one |
| CorrectnessGate.GateIsValidIff | scripts/benchmarksgame_v2.py:8260-8400 | whatever the lanes do, the gate's evidence passes its validator if and only if every lane attempted is borne out by its evidence |
| CorrectnessGate.GatePassesIff | scripts/benchmarksgame_v2.py:6266-6365 | the gate passes if and only if every lane of every workload does |
| CorrectnessGate.GateStopsAtFailure | scripts/benchmarksgame_v2.py:6735-6743 | the last item decides: the gate passed exactly if it has no failure reason |
| CorrectnessGate.GateFailureIsNamed | scripts/benchmarksgame_v2.py:6281-6363 | a failed item names the collector's own message, or that of another exception under the prefix of the gate |
| ProtocolAgreement.RecordIsWithin | scripts/benchmarksgame_v2.py:9746-9778 | samples of a run lie between the snapshots around it |
| ProtocolAgreement.BatchWorkloads | scripts/benchmarksgame_v2.py:9702-9833 | the workloads of an attempt are accepted if and only if every one that measuring got to had its fixture and evidence that bears it out, and its times are accepted if and only if it ended within a day of its start |
| ProtocolAgreement.LastIsNotStartedIff | scripts/benchmarksgame_v2.py:6560-6592 | the last workload entered keeps its not-started record if and only if measuring got to a workload whose fixture cannot be resolved |
| ProtocolAgreement.BatchReasons | scripts/benchmarksgame_v2.py:9834-9880 | without a missing fixture, status, reasons and evaluation of any attempt are those recomputed from the retained evidence, revoked completions included |
| ProtocolAgreement.BatchIsValidIff | scripts/benchmarksgame_v2.py:6540-6635 | the validator accepts the batch of an attempt under its number if and only if the attempt ended within a day and every workload it got to had its fixture and evidence that bears it out |
| AttemptHistories.CollectAt | scripts/benchmarksgame_v2.py:6533-6541 | the n-th batch comes from the n-th attempt, and its batch number is one more than the completed ones before it, of which there are fewer than two |
| AttemptHistories.CollectEnds | scripts/benchmarksgame_v2.py:6533-6635 | for any rerun limit R the loop ends with two completed batches and at most R invalidated ones, or with fewer and exactly R+1 invalidated ones |
| AttemptHistories.CapNeverDecides | scripts/benchmarksgame_v2.py:6533-6635 | the loop makes the attempts it would make without its cap on them |
| AttemptHistories.CompletedHistory | scripts/benchmarksgame_v2.py:6533-6635 | if the first attempt to complete is the i-th, and the next to complete the j-th, the loop makes j attempts and completes two batches |
| AttemptHistories.ExhaustedHistory | scripts/benchmarksgame_v2.py:6533-6635 | if no two attempts complete, it makes one attempt more than the rerun limit, or two more if one of them completed in time |
| ProtocolAgreement.ProducedProtocol | scripts/benchmarksgame_v2.py:6719-6781 | what a run's record looks like, gate passed or not; its gate evidence is accepted if and only if it is borne out, and its batches if and only if every attempt made is acceptable |
| ProtocolAgreement.RunIsAcceptedIff | scripts/benchmarksgame_v2.py:9621-9942 | the validator accepts the producer's record if and only if every lane the gate attempted is borne out and, if the gate passed, two attempts complete by the third, or none two do and the rerun limit is the single one it hard-codes, and every attempt up to there ended within a day with the fixtures and the evidence it needs |
| ProtocolAgreement.RunIsAccepted | scripts/benchmarksgame_v2.py:9621-9942 | with the manifest's limit of one rerun, a run is accepted if and only if the gate is borne out and, if it passed, every attempt made ended within a day with the fixtures and the evidence it needs |
| ProtocolAgreement.AttemptsMadeAreCollected | scripts/benchmarksgame_v2.py:6533-6635 | the attempts made with one rerun: two if both complete or neither does, otherwise three |
| RefusedRuns.LongAttemptIsRefused | scripts/benchmarksgame_v2.py:9827-9833 | any run whose gate passed would be refused had its first attempt been begun more than a day before its end, and nothing else been different |
| RefusedRuns.MissingFixtureIsRefused | scripts/benchmarksgame_v2.py:9742-9754 | had the fixture of its first workload been missing, the first batch would be invalidated for that reason and keep one workload, never started, and the run would be refused |
| RefusedRuns.KilledAtExitIsRefused | scripts/benchmarksgame_v2.py:8733-8736 | had its first process exited with 0 while it was being killed for its timeout, the first batch would be invalidated for the timeout, and the run would be refused |
| RefusedRuns.SteadyRunIsAccepted | scripts/benchmarksgame_v2.py:9621-9942 | a concrete run that is accepted |
| RefusedRuns.OneChangeDecides | scripts/benchmarksgame_v2.py:9621-9942 | and that is refused after each of these three changes to its first attempt |
| ProtocolRuns.MeasureWorkloads | scripts/benchmarksgame_v2.py:6560-6592 | measures workloads up to and including the first that does not complete, and returns the error it ended with |
| ProtocolRuns.Judge | scripts/benchmarksgame_v2.py:6593-6628 | status, reasons, stability, evaluation and the accepted counter, from the workloads, the error that ended them and the after-snapshot |
| ProtocolRuns.RunAttempt | scripts/benchmarksgame_v2.py:6534-6630 | the record of one attempt, and the counter of accepted batches |
| ProtocolRuns.CollectProtocolBatches | scripts/benchmarksgame_v2.py:6513-6635 | the loop with its three counters computes the batches of the recursive definition |
| ProtocolRuns.RunProtocol | scripts/benchmarksgame_v2.py:6719-6781 | gate, batches and verdict of one build mode |
| EvidenceValidation.ValidatePartialWorkload | scripts/benchmarksgame_v2.py:8504-8632 | the gathering, counting and sorting validator accepts exactly a failed prefix |
| EvidenceValidation.ValidateMeasuredWorkload | scripts/benchmarksgame_v2.py:8403-8501 | accepts exactly complete workloads with every sample in place and borne out, whatever status a sample claims |
| EvidenceValidation.ValidateCorrectnessEvidence | scripts/benchmarksgame_v2.py:8260-8400 | accepts exactly a prefix with at most one failed tail, and returns that tail's reason; only the tail's sample is asked for its status |
| EvidenceValidation.ValidateBatch | scripts/benchmarksgame_v2.py:9656-9850 | accepts exactly the batches recomputable under the given numbers |
| EvidenceValidation.ValidateBatches | scripts/benchmarksgame_v2.py:9650-9855 | the counting loop accepts exactly lists with right numbers, fresh snapshots and nothing after the second completed batch |
| EvidenceValidation.ValidateProtocol | scripts/benchmarksgame_v2.py:9621-9942 | accepts exactly the protocols the specification admits, and returns the snapshots they used |
| AcceptedBatches.BatchIffLeftByAnAttempt | scripts/benchmarksgame_v2.py:9656-9880 | the batches, completed or invalidated, that meet the schema, are accepted, and hold workloads exactly if the environment was eligible before them, are those that attempts under the authorization at hand leave, between genuine snapshots, within a day and with the evidence they need, up to the order within the lists of a failed workload |
| AcceptedBatches.CompletedBatchIsLeft | scripts/benchmarksgame_v2.py:9656-9880 | a completed batch that meets the schema and is accepted is exactly what some such attempt leaves |
| AcceptedBatches.ClaimRestsOnAttempts | scripts/benchmarksgame_v2.py:9621-9942 | evidence that meets the schema, is validated and supports a claim has only completed batches that such attempts leave, under the numbers they have in their protocol |
| Claims.AttemptCompletesIff | scripts/benchmarksgame_v2.py:6567-6635 | an attempt completes if and only if the snapshots around it were eligible, distinct, in order and otherwise in agreement, every fixture was found, every event succeeded and the samples are stable |
| Claims.NoPairIssuesIff | scripts/benchmarksgame_v2.py:6638-6716 | two snapshots raise no issue if and only if both are eligible, they are distinct, the second is later, and the other comparisons raise none |
| Claims.TwoPassingIff | scripts/benchmarksgame_v2.py:6533-6635 | a run holds exactly two completed batches that both pass if and only if its attempts include two such, with only invalidated ones before and between, within the rerun limit |
| Claims.ModePassesIff | scripts/benchmarksgame_v2.py:6719-6781 | a build mode completes with a passing verdict if and only if its gate passed everywhere and its attempts hold two passing batches |
| Claims.ClaimEligibleIff | scripts/benchmarksgame_v2.py:6784-6815 | over every history of both build modes, a claim may be made if and only if each mode has that |
| Claims.OutcomeOfHistories | scripts/benchmarksgame_v2.py:6784-6815 | over every history of both build modes: the outcome is completed if and only if both completed two attempts, and otherwise ineligible; it passes if and only if in both two completed attempts passed, fails if they only completed, and is not evaluated otherwise |
| Claims.UnavailableIff | scripts/benchmarksgame_v2.py:6784-6815 | of any protocols, the outcome is unavailable if and only if one mode is not completed and none is ineligible |
| CompleteEvidence.MeasuredIffLeftByARun | scripts/benchmarksgame_v2.py:8403-8501 | a workload record meets the schema and is accepted as measured if and only if some run without failure, all of it borne out, leaves exactly that record |
| CompleteEvidence.CompletedRunMeetsSchema | performance/benchmarksgame/schema/result-v2.schema.json:1810-1903 | what a run without failure leaves holds passed samples only, as the schema asks of a measured workload |
| CompleteEvidence.PassedGateIffLeftByARun | scripts/benchmarksgame_v2.py:8260-8400 | gate evidence meets the schema, is accepted and passed if and only if some gate in which every lane passed and was borne out leaves exactly it |
| Claims.RunMeetsSchema | performance/benchmarksgame/schema/result-v2.schema.json:1553-1574 | every run leaves gate items whose lanes have a failed sample exactly when they did not pass, and completed workloads without failed samples, as the schema asks |
| Claims.ValidateModes | scripts/benchmarksgame_v2.py:11091-11108 | accepts exactly two valid protocols without a common snapshot |
| Claims.ValidatedClaimIsSound | scripts/benchmarksgame_v2.py:9621-9942 | evidence that meets the schema, is validated and supports a claim has, in both modes, the evidence some fully passing gate leaves and exactly two completed batches, under the authorization at hand and between genuine snapshots, each of whose workloads some run without failure leaves, stable, undisturbed and passing by their own samples; no snapshot is used twice in either mode or across them |
| BundlePaths.ReplaceJoinsPieces | scripts/benchmarksgame_v2.py:11292-11309 | left-to-right replacement is splitting at the occurrences and joining with the replacement |
| BundlePaths.ReplaceAcross | scripts/benchmarksgame_v2.py:11292-11309 | an inserted token is found again whatever text surrounds it, since the token cannot overlap itself |
| BundlePaths.DetokenizeUndoesTokenizeIff | scripts/benchmarksgame_v2.py:11292-11309 | for every root, putting the root back undoes taking it out if and only if no stretch between roots holds the token |
| BundlePaths.TokenlessIsLegible | scripts/benchmarksgame_v2.py:11292-11309 | in particular for every string without the token |
| PreparedBundles.TreeRoundTripIff | scripts/benchmarksgame_v2.py:11292-11309 | a nested tree survives if and only if every string in it does |
| PreparedBundles.DigestIgnoresItself | scripts/benchmarksgame_v2.py:11404-11472 | storing the digest and the qualification bound to it does not change what the digest is taken of |
| PreparedBundles.WritePreparedBundle | scripts/benchmarksgame_v2.py:11793-11831 | the sealed result and the two files written |
| PreparedBundles.LoadPreparedBundle | scripts/benchmarksgame_v2.py:11834-11911 | succeeds exactly on canonical metadata whose inventory is that of the files and whose digest reverifies, and returns the result with its root put back |
| BundleRoundTrip.LoadUndoesWriteIff | scripts/benchmarksgame_v2.py:11793-11911 | a bundle just written loads as the result that was written if and only if every string of that result survives tokenising |
| BundleRoundTrip.LoadUndoesWrite | scripts/benchmarksgame_v2.py:11793-11911 | it does whenever no string of the input and no constant holds the token between roots |
| BundleRoundTrip.DigestPinsBundle | scripts/benchmarksgame_v2.py:11771-11790 | for an injective hash, two bundles that load under one digest hold the same files, time and projected result |
| UnqualifiedResults.BindingsAreRead | scripts/benchmarksgame_v2.py:4581-4604 | every binding is read from where it belongs: host, toolchain identity and source lock by their digests, the commit and digest of each lane from that lane, and the digest of the bundle |
| UnqualifiedResults.EveryBindingMismatches | scripts/benchmarksgame_v2.py:4607-4629 | the mismatches named without a record are exactly the bindings expected |
| UnqualifiedResults.FinishedIsUnqualified | scripts/benchmarksgame_v2.py:4607-4629 | the result that is written says that it is not eligible, that every check is missing and why, and names the bindings of its own parts |
| UnqualifiedResults.FinishedIsPlaced | scripts/benchmarksgame_v2.py:11793-11831 | it says where it is stored and that it is prepared, carries its digest, and is otherwise as it was given |
| UnqualifiedResults.RequestAsksForTheBundle | scripts/benchmarksgame_v2.py:11447-11463 | the request written with it asks for every check, of this bundle, under those bindings |
| UnqualifiedResults.LoadedIsIneligible | scripts/benchmarksgame_v2.py:11834-11911 | as it was written it is never loaded as eligible, under whatever root |
| BundlePaths.StaysIff | scripts/benchmarksgame_v2.py:11292-11309 | a string that survives tokenising is left alone by a move to another root if and only if it does not contain the old one |
| MovedBundles.TreeSettlesIff | scripts/benchmarksgame_v2.py:11292-11309 | a tree read under a new root tokenises to what was stored if and only if every string in it does |
| MovedBundles.MovedBundleLoadsIff | scripts/benchmarksgame_v2.py:11834-11911 | for an injective hash, a bundle written under one root loads unchanged under another if and only if every string of the result but its seal, read there, tokenises to what was stored; the digest, host, source lock and the lanes' commits and hashes hold no string that moves; and the toolchain identity stays |
| HeaderComments.StripComments | crates/nomo/src/ffi_bindgen.rs:161-193 | the loop over the bytes: computes the text outside comments, or reports an unterminated one; block comments nest |
| HeaderComments.StrippingKeepsLines | crates/nomo/src/ffi_bindgen.rs:164-190 | this loop lets out as many line breaks as it reads |
| CommentedHeaders.CommentsAreRemoved | crates/nomo/src/ffi_bindgen.rs:161-190 | whatever line comments and nested block comments are written into a header, the code around them is left, and a line feed for each that stood in a comment |
| CommentedHeaders.OpenCommentIsReported | crates/nomo/src/ffi_bindgen.rs:192-194 | a block comment that is not closed is reported, whatever comments were closed before it and inside it |
| HeaderInputs.StripCommentsAndDirectives | crates/nomo/src/ffi_bindgen.rs:160-201 | the text outside comments without the lines that begin with `#`, its lines ended by line feeds alone |
| HeaderInputs.DirectiveIff | crates/nomo/src/ffi_bindgen.rs:196-199 | a directive is a line whose first character that is no white space is a hash |
| HeaderInputs.UndirectedAcross | crates/nomo/src/ffi_bindgen.rs:196-201 | each line that is no directive is kept, in its place, and no other |
| HeaderInputs.QuietIsKept | crates/nomo/src/ffi_bindgen.rs:160-201 | a header without slash, hash and carriage return is handed on as it is, but for a last line break |
| HeaderInputs.NothingLeftToRemove | crates/nomo/src/ffi_bindgen.rs:160-201 | of what is handed on nothing would be removed again: no comment begins in it and none of its lines is a directive |
| HeaderInputs.LastEmptyLineIsLost | crates/nomo/src/ffi_bindgen.rs:196-201 | a header of two empty lines is handed on as one, and one as none |
| HeaderInputs.PackagePathIff | crates/nomo/src/ffi_bindgen.rs:145-158 | the package paths are exactly identifiers joined by dots |
| HeaderScanner.SplitTopLevel | crates/nomo/src/ffi_bindgen.rs:445-462 | splits at delimiters outside parentheses; where the depth cannot fall below zero its counter does not wrap |
| HeaderScanner.RawRebuilds | crates/nomo/src/ffi_bindgen.rs:445-462 | the untrimmed pieces joined by the delimiter rebuild the text |
| HeaderScanner.RawIsSplittable | crates/nomo/src/ffi_bindgen.rs:445-462 | no piece has a delimiter at depth zero, and all but the last end at depth zero |
| HeaderScanner.RawUndoesJoin | crates/nomo/src/ffi_bindgen.rs:445-462 | conversely, pieces of that kind are found again after joining: the split is the only one |
| HeaderScanner.SplitCStatements | crates/nomo/src/ffi_bindgen.rs:203-229 | computes the statements, or the first of the three errors |
| HeaderScanner.StatementsRebuild | crates/nomo/src/ffi_bindgen.rs:203-229 | success means a list of brace-balanced declarations, each ended by a semicolon, with a blank tail, which rebuild the source |
| HeaderScanner.StatementsUndoJoin | crates/nomo/src/ffi_bindgen.rs:203-229 | conversely, whatever balanced declarations are written one after another are read back |
| HeaderScanner.MatchingParenCloses | crates/nomo/src/ffi_bindgen.rs:428-443 | the match is the least balanced close, and none is found only if there is none |
| HeaderScanner.FindMatchingParen | crates/nomo/src/ffi_bindgen.rs:428-443 | the loop finds that match, and its counter never underflows |
| HeaderScanner.InteriorIsBalanced | crates/nomo/src/ffi_bindgen.rs:281-303 | between a parenthesis and its match the depth never falls below zero and ends at zero |
| Declarations.DeclarationTokens | crates/nomo/src/ffi_bindgen.rs:407-426 | the words and stars of a declaration, in order |
| Declarations.TokensAreWords | crates/nomo/src/ffi_bindgen.rs:407-426 | every token is a nonempty word or a star |
| Declarations.InteriorSplits | crates/nomo/src/ffi_bindgen.rs:281-347 | what `parse_function` and the callback parser hand to `split_top_level` meets its need |
| Declarations.OpenBeforeClose | crates/nomo/src/ffi_bindgen.rs:244-268 | in a balanced statement the last closing brace follows the first opening one, so the field slice is in range |
| WrittenStatements.ParameterIsRead | crates/nomo/src/ffi_bindgen.rs:311-360 | whatever parameter is written, with or without `const` and a star, or a callback with its own list, is read back; a callback list of `void` alone is empty |
| WrittenStatements.PrototypeIsRead | crates/nomo/src/ffi_bindgen.rs:281-309 | whatever prototype is written parses to the function it spells, with exactly the parameters written, in their order |
| WrittenStatements.StructIsRead | crates/nomo/src/ffi_bindgen.rs:244-279 | whatever struct typedef is written parses to the struct it spells, with exactly the fields written, in their order; one without fields is refused by name |
| WrittenStatements.OpaqueIsRead | crates/nomo/src/ffi_bindgen.rs:231-242 | an opaque typedef parses to the name it declares |
| RefusedDeclarations.TypeIff | crates/nomo/src/ffi_bindgen.rs:383-405 | a type is read if and only if its tokens are one word, any number of `const`, and no star or, for a pointer, one |
| RefusedDeclarations.DeclarationIff | crates/nomo/src/ffi_bindgen.rs:362-377 | a declaration is read if and only if it has no bracket and no colon and its tokens are those of a type and then an identifier |
| RefusedDeclarations.CallbackIsWhole | crates/nomo/src/ffi_bindgen.rs:318-360 | a callback is taken only if a name stands between the marker and the next parenthesis, a list between the next two that match, and nothing after them |
| RefusedDeclarations.FunctionByParts | crates/nomo/src/ffi_bindgen.rs:281-309 | a statement is read from what stands before its first parenthesis and what stands between it and its match; anything but white space after that is refused |
| RefusedDeclarations.OpenListIsRefused | crates/nomo/src/ffi_bindgen.rs:281-309 | a statement whose first parenthesis is not closed is refused |
| RefusedDeclarations.VariadicIsRefused | crates/nomo/src/ffi_bindgen.rs:281-284 | so is one with three dots |
| RefusedDeclarations.StructIff | crates/nomo/src/ffi_bindgen.rs:244-279 | a struct typedef is read if and only if its tag and its alias are one name and it has a field, all of which are read |
| RefusedDeclarations.OpaqueIff | crates/nomo/src/ffi_bindgen.rs:231-242 | an opaque typedef is read if and only if it names its tag again |
| Bindings.StatementsAreBalanced | crates/nomo/src/ffi_bindgen.rs:203-229 | every trimmed statement is brace-balanced |
| Bindings.InferReleaseFunctions | crates/nomo/src/ffi_bindgen.rs:464-488 | the loop records, for each opaque type, a release |
| Bindings.ReleaseNameIff | crates/nomo/src/ffi_bindgen.rs:469-472 | a function is named as a release if and only if its name ends in one of the four suffixes |
| Bindings.ReleaseIsFirst | crates/nomo/src/ffi_bindgen.rs:464-488 | a release is recorded exactly for the types some function releases, and it is the first such function |
| BindingRuns.CollectDeclarations | crates/nomo/src/ffi_bindgen.rs:66-90 | collects opaque types, structs and functions, or stops at the first statement that does not parse |
| BindingRuns.RenderNomoBindings | crates/nomo/src/ffi_bindgen.rs:490-570 | appends the same source, or stops at the same first error, as the definition by concatenation |
| BindingRuns.GenerateBindings | crates/nomo/src/ffi_bindgen.rs:60-94 | from the header as it stands: checks the package path, removes comments and directives, splits, collects, sorts, infers and renders, or reports the first error |
| WrittenHeaders.HeaderIsRead | crates/nomo/src/ffi_bindgen.rs:66-94 | whatever declarations are written one after another, the binding is rendered from just those, none lost, added or changed |
| WrittenHeaders.WrittenHeaderIsBound | crates/nomo/src/ffi_bindgen.rs:60-94 | the same from the header file on, for white space without carriage returns |
| CommentedHeaders.CommentedHeaderIsBound | crates/nomo/src/ffi_bindgen.rs:60-94 | the same with any comments written between and inside the declarations |
| RenderedLines.FunctionLine | crates/nomo/src/ffi_bindgen.rs:531-565 | the list in the line of a function, split at its commas, names the declared parameters in their order, each with its own type |
| RenderedLines.CallbackLine | crates/nomo/src/ffi_bindgen.rs:607-630 | so does the list of a callback type, which the type it returns follows |
| RenderedLines.PointerMeaning | crates/nomo/src/ffi_bindgen.rs:631-666 | a pointer becomes a C string exactly as a `const char *` parameter, an untyped handle exactly if it points to `void`, and otherwise a handle that names its base, or is refused |
| RenderedLines.StructLines | crates/nomo/src/ffi_bindgen.rs:514-528 | between its braces the text of a struct has one line for each field, in the order of the fields, with its name and type |
| RenderedLines.OpaqueTypeLines | crates/nomo/src/ffi_bindgen.rs:503-513 | one line for each opaque type, in the order of their names, with its release if it has one |
| BindingOrder.GatheredForgetsOrder | crates/nomo/src/ffi_bindgen.rs:72-88 | permuting declarations changes neither the opaque types nor the bags of structs and functions |
| OrderVisibility.ScopeForgetsOrder | crates/nomo/src/ffi_bindgen.rs:464-503 | releases and struct names are the same in every order, even among functions of one name |
| OrderVisibility.UnlikeNamesakesShow | crates/nomo/src/ffi_bindgen.rs:490-570 | if two functions or two structs of one name are rendered differently, exchanging two neighbours of one name changes the source |
| BindingTexts.FunctionIsMarked | crates/nomo/src/ffi_bindgen.rs:531-565 | the line of a function has its only line break at its end, since names and types are spelled without one |
| BindingTexts.StructIsMarked | crates/nomo/src/ffi_bindgen.rs:514-528 | the text of a struct has its only closing brace at its end |
| BindingTexts.MarkedDoNotCommute | crates/nomo/src/ffi_bindgen.rs:514-565 | texts that end in such a mark are the same in both orders only if they are equal |
| HeaderOrder.BindingExistsInAnyOrder | crates/nomo/src/ffi_bindgen.rs:66-94 | whether a header has a binding does not depend on the order of its statements, whatever their names |
| HeaderOrder.BindingForgetsOrder | crates/nomo/src/ffi_bindgen.rs:66-94 | permuting a header's statements gives the same binding source, or both orders are rejected, if declarations of one name are rendered alike |
| HeaderOrder.DistinctNamesAreAlike | crates/nomo/src/ffi_bindgen.rs:89-90 | declarations with distinct names meet that condition |
| HeaderOrder.OrderIsInvisibleIff | crates/nomo/src/ffi_bindgen.rs:66-94 | a header with a binding has the same binding in every order of its statements if and only if any two functions, and any two structs, of one name are rendered to the same text |
| HeaderOrder.AcceptedIsWritten | crates/nomo/src/ffi_bindgen.rs:203-229 | every header the splitter accepts is a sequence of declarations with their semicolons and a blank tail |
| HeaderOrder.HeaderOrderIsInvisibleIff | crates/nomo/src/ffi_bindgen.rs:66-94 | the same of header text: of every way of writing its declarations one after another |
| RepeatedNames.DuplicateNamesShowOrder | crates/nomo/src/ffi_bindgen.rs:89-90 | the headers `int f();double f();` and `double f();int f();` both have bindings, and these differ |
| Ownership.CallbackBorrows | crates/nomo/src/ffi_bindgen.rs:600-667 | whatever is inside a callback type is never rendered as owned |
| Ownership.OwnersHaveReleases | crates/nomo/src/ffi_bindgen.rs:600-667 | a rendered type that mentions `Owned<` is a pointer to an opaque type with a release: a parameter of that release, or a nullable result |
| Ownership.OwnedParameterIff | crates/nomo/src/ffi_bindgen.rs:464-488 | a parameter is rendered as owned if and only if it is that of the first function releasing the type, and the type is not `void` or `const char` |
| Ownership.ExactlyOneOwner | crates/nomo/src/ffi_bindgen.rs:490-570 | for each opaque type with a release, other than `char` and `void`, exactly one parameter in the binding is rendered `Owned<T>`: that of the function on the type's declaration line |
| Ownership.EveryOwnerHasARelease | crates/nomo/src/ffi_bindgen.rs:490-667 | every `Owned<T>` of a binding, results included, has a release; fields own nothing |

## Left out

- File system, directory walks, process spawning, environment variables and clocks: the disk is a map whose removals and
  writes may fail, and readings are parameters.
- SHA-256, UTF-8 and JSON encoding are functions given as parameters, injective or invertible only where a statement
  says so.
- The type checker behind a project check is an arbitrary function of toolchain, project, target, path and effective
  sources; the files it reads are those fingerprinted, so a change between fingerprinting and checking is not modelled.
- Reading a session's statistics, and the counters of the disk cache.
- Counters, lengths and layout sums are natural numbers; where 64 bits matter (frame lengths, pruning totals, layout
  sums) the bound is written out.
- Set and directory order: where the original iterates in sorted order and the order does not show, it is left open.
- Stale temporary files in the disk cache: the listing holds entry files only.
- Pointer widths other than 32 and 64 bits.
- Project names come from module roots, which admit no colon; the session statements say so.
- Statistics behind stability and gate evaluation, and most environment issues: functions shared by producer and
  validator.
- Snapshot validation is a predicate on snapshots; what is asked of the hashes, command, executable and exit code of a
  sample is one flag for a passed sample and one for a failed one, both left open.
- Processes take a positive time; what the statistics raise otherwise is not modelled. Errors that are not harness
  errors end a run without a record, and so do not occur.
- The JSON schema of a result, but for the shape of samples of completed workloads and of gate lanes.
- A correctness fixture that cannot be resolved ends the run without a record.
- The five-lane Williams schedule: any schedule whose rows are permutations of the lanes is covered.
- `validate_static_authorization`, Git and host authority, and the lists of frozen manifest constants.
- The `derive_environment_qualification` path of a supplied record: writing a bundle never takes it.
- Links and canonical form of the bundle root: a root is a nonempty string other than the token.
- The provenance JSON of the binding generator; header text is ASCII.
- Errors in headers are reported by kind and by the text they are about, not by the wording of the message.
- Fingerprints.FingerprintBuilder.Finish: a builder is not consumed, since the model has no ownership of objects.
