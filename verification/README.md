# Atlas verification models

Dafny models of the parts of Atlas whose correctness spans many steps or several components, with machine-checked
proofs. `dafny verify dfyconfig.toml` checks everything; the files only use each other.

| component | files | what is proved |
|---|---|---|
| Pack activation | `activation*.dfy`, `semver.dfy` | a step machine over the durable state of the runtime root, with any number of interleaved installers and a crash or failed write at every atomic action: safety of every run, no rollback of trust or time, serialisability, settling of clean runs; the installer's own code is proved to be the one path of that machine that the outcomes it meets leave open, and its success and its restoration are characterised exactly |
| Blank-node canonicalisation | `blank_*.dfy` | the memoised depth-first traversal equals the plain unfolding, fails exactly on cycles and oversized structures, and is blind to blank-node labels; exactly when a whole parse succeeds, and when it does so in every triple order |
| Graph expansion | `graph_*.dfy` | the breadth-first loop returns exact shortest distances and everything within reach, for every depth and limit, in one fixed order, read off the request and the edges alone; prefix laws; transposition |
| Search | `search_*.dfy` | what each resolver answers, in terms of the rows' own fields; exactly when the indexed resolver always agrees with the reference scan on a request, and exactly when a limited numeric listing does; records for which they part |
| Archives | `archive*.dfy` | exactly which names and archives are accepted; exact success condition and result of safe extraction, and where it can write; building followed by extraction is the identity |
| Frames | `frames.dfy` | length-prefixed framing is a bijection between sendable lists and accepted streams; reads do not depend on chunking |
| Aliases | `aliases.dfy` | the collision report and query resolution, field by field, and one against the other |
| Provider normaliser | `normalizer*.dfy` | exactly when it succeeds and what its output holds; conservation of records, where each record lands, exactly when the output is determined |
| Shared | `ordering.dfy`, `text.dfy`, `wrappers.dfy` | lexicographic orders, stable sorting, sorted sets, splitting and decimal text |

SHA-256, JSON text, NFKC, NFC, casefold, `upper` and the two activation regular expressions are function-valued
parameters. Where a proof needs more, it is a hypothesis with a name: `Activation.CollisionFree` (SHA-256 separates
manifests), `BlankSpec.Faithful` (canonical JSON separates values). `SemVers` needs none: `Activation.Ordered` is
proved of the real comparison. Health checks, clocks, file contents and write failures are arbitrary inputs of the steps.

## Findings

Places where the code does not do what its documentation or an obvious reading promises, or where a promise has a
limit. Each is proved.

- The edge limit of blank-node structures depends on the order in which the graph lists its triples, because the cache
  outlives a root and the budget does not. A parse succeeds in every order exactly when each structure fits the budget
  after the techniques before it (`BlankOrder.ParseOrderIff`); for every positive limit (the program's is 256) there is a
  technique that parses in one order and is refused in the other (`BlankOrder.OrderMatters`). When both parses succeed they agree
  (`BlankRename.ParsesAgree`).
- The functions for alias collisions and resolution treat an empty scope namespace differently: it collides with nothing
  that names a namespace, but resolution takes it as unscoped, so a corpus without collisions can answer one namespaced
  query twice (`Aliases.EmptyNamespaceEscapes`; the exact condition is `Aliases.AnswersDisjointIff`). Only the pattern in
  `schemas/v1/defs/alias.schema.json` keeps such aliases out; under it there is no exception
  (`Aliases.SchemaAnswersDiffer`).
- The provider normaliser sorts a set of version texts by their integer value. Two texts of one number (`1`, `01`) tie, so
  their order is the set's iteration order: the output is determined by the records exactly when no event has two texts
  for one version (`NormalizerTheorems.DeterminedIff`, `NormalizerTheorems.TwoTextsOfOneVersion`).
- The two resolvers always agree on a request exactly when no matched target has two primary identifiers and the two sort
  keys order the matched targets alike (`SearchLimits.ResolversAgreeIff`). Records with two primaries are answered twice
  (`SearchExamples.TwoPrimariesDisagree`), and records with identifiers but no primary are ordered differently
  (`SearchExamples.NoPrimaryDisagree`); one primary for every matched target that has identifiers suffices
  (`SearchAgree.ResolversAgree`).
- Indexed numeric browsing with a given limit always gives the first lines of the reference list exactly when no group of
  lines with one target and one number starts among them (`SearchNumeric.BrowsingAgreesIff`,
  `SearchExamples.TiedNumbersDisagree`).
- While the trusted-time floor is missing, nobody gets past the time guard any more exactly when durable trust state
  exists; otherwise somebody can pass at any time, however early (`ActivationTime.FloorLossIff`).

## Model

| member | source | states |
|---|---|---|
| Activation.RecordIsThePack | tools/pack/activation.py:432-452 | an accepted rollback check always records the pack's own version and digest |
| Activation.RollbackCheckIff | tools/pack/activation.py:432-452 | the check passes exactly for a pack never seen, one whose version is not below the recorded one, and the recorded version only with the recorded digest |
| Activation.AdvancedGrows | tools/pack/activation.py:484-486 | advancing the trust record lowers no recorded version and changes no digest of a version |
| Activation.WrittenStates | tools/pack/activation.py:484-517 | every state an installer writes names only published, checked generations covered by the trust record |
| Activation.WriteRollbackKeeps | tools/pack/activation.py:497-513 | undoing a failed activation keeps the pointer and trust invariants, whether the write works, fails or takes effect and then fails |
| Activation.StagingKeeps | tools/pack/activation.py:336-391 | staging and publishing keep every published generation unaltered and every invariant, under failure |
| Activation.StepKeeps | tools/pack/activation.py:465-518 | every step, failed write and crash of one installer keeps all invariants and lets no trust record shrink |
| ActivationRuns.RealComparisonIsOrdered | tools/pack/versioning.py:63-65 | the actual version comparison meets the total-order law the protocol relies on |
| ActivationRuns.EveryRunIsSafe | tools/pack/activation.py:465-518 | in every run with crashes and interleaving, `active` and `lkg` name published generations that passed their checks and stay within recorded trust |
| ActivationRuns.TrustNeverRollsBack | tools/pack/activation.py:432-452 | between any two instants of a run recorded versions do not fall, one version keeps one digest, published generations do not change |
| ActivationRuns.OneDigestPerVersion | tools/pack/activation.py:447-448 | one version of a pack is never trusted with two digests, at any two instants |
| ActivationRuns.MutualExclusion | tools/pack/activation.py:54-69 | at most one installer is between acquiring and releasing the lock |
| ActivationRuns.DeadHolderBlocks | tools/pack/activation.py:43-78 | an installer that dies holding the lock freezes the durable state until an administrator acts |
| ActivationRuns.CleanRunsSettle | tools/pack/activation.py:473-518 | without crashes and failed writes, `active` equals `lkg` whenever no install is in progress |
| ActivationTime.TimeNeverRollsBack | tools/pack/activation.py:147-196 | the time floor never falls, passing observations increase, and durable trust is never created before the floor |
| ActivationTime.LostFloorRefusesInstalls | tools/pack/activation.py:183-187 | with the floor lost over trust state, nobody who is not past the guard ever gets past it, even while another install is in progress |
| ActivationTime.LostFloorFreezes | tools/pack/activation.py:183-187 | once nobody is past the guard, nothing but the lock file changes any more |
| ActivationTime.EarlyLossForgetsTime | tools/pack/activation.py:183-196 | from any state without floor and trust state, with the lock free, an idle installer passes the guard at any time |
| ActivationTime.FloorLossIff | tools/pack/activation.py:134-196 | at any point of a run with the floor missing, later installs are shut out exactly when durable trust state exists |
| ActivationSerial.RunsAreSerial | tools/pack/activation.py:43-78 | in every run the admitted installers, each with exactly its own actions, run one after another in the order they got the lock, with the same outside events, give the same durable state, history and outcome of each installer |
| ActivationSerial.AdmittedOnce | tools/pack/activation.py:54-69 | no installer is admitted twice |
| ActivationSerial.RefusedLeaveNoTrace | tools/pack/activation.py:57-62 | an installer that was not admitted took at most the one refused step |
| ActivationRuntime.RuntimeRoot.Enter | tools/pack/activation.py:54-69 | the lock is taken exactly when it was free |
| ActivationRuntime.RuntimeRoot.GuardTrustedTime | tools/pack/activation.py:147-196 | the guard's code is the machine's guard step |
| ActivationRuntime.RuntimeRoot.StageGeneration | tools/pack/activation.py:336-391 | staging is the undisturbed path of the machine; over a sound disk it succeeds exactly when the generation exists, or its pack ID and version are valid and the rename works, and then the generation is published under its hash |
| ActivationRuntime.RuntimeRoot.InstallVerifiedLocked | tools/pack/activation.py:465-518 | over a sound disk it commits exactly when the pack is well formed, unseen or not below the recorded version (and byte-identical at that version), every write works and both health checks pass; when only the second check fails it always keeps `lkg`, restores `active` from it (or the old `active`) and leaves trust advanced |
| ActivationRuntime.OnePath | tools/pack/activation.py:465-518 | the outcomes of writes and health checks leave the installer exactly one path through the machine |
| ActivationRuntime.RuntimeRoot.InstallAtlaspack | tools/pack/activation.py:573-615 | the whole call is one installer of the machine and keeps its invariants; with the lock free it succeeds exactly when the time passes, the pack verifies and nothing hinders it, restores exactly when only the second health check fails, always gives the lock back, and refuses clock rollback and a lost floor without touching anything |
| SemVers.ParseInjective | tools/pack/versioning.py:24-35 | two different texts never parse to one version |
| SemVers.ParseAccepts | tools/pack/versioning.py:7-35 | accepted texts are exactly the rendered versions |
| SemVers.ParseRendered | tools/pack/versioning.py:24-35 | parsing a rendered version gives it back |
| SemVers.ParsedAsWritten | tools/pack/versioning.py:7-35 | three numbers without leading zeros and optional identifiers, written with dots and a hyphen, parse to exactly those numbers and identifiers |
| SemVers.OnlyWritten | tools/pack/versioning.py:7-35 | nothing else is accepted, build metadata included |
| SemVers.CompareIsPrecedence | tools/pack/versioning.py:40-60 | comparison is precedence as section 11 of Semantic Versioning 2.0.0 defines it, in both directions: the first differing number decides, then the prerelease rules |
| SemVers.CoreDecides | tools/pack/versioning.py:41-42 | a smaller major, or equal majors and a smaller minor, or equal both and a smaller patch, gives -1, whatever the rest |
| SemVers.VersionsCompare | tools/pack/versioning.py:63-65 | on texts: an error exactly when one is invalid, negative exactly when the left precedes the right, zero only for the same text |
| SemVers.CompareAntisymmetric | tools/pack/versioning.py:40-60 | swapping the arguments negates the result |
| SemVers.CompareTransitive | tools/pack/versioning.py:40-60 | comparison is transitive |
| SemVers.VersionTextOrder | tools/pack/versioning.py:63-65 | on valid texts comparison is a total order, zero only for the same text |
| BlankSession.Canonicalizer.Visit | ingestion/parsers/mitre_d3fend_turtle.py:53-102 | one recursive visit caches correct unfoldings, charges each edge of each node once, and fails only on a cycle or an exceeded budget |
| BlankSession.Canonicalizer.StableValue | ingestion/parsers/mitre_d3fend_turtle.py:68-102 | one root succeeds exactly when no cycle is reachable and the uncached part has few enough edges, and then equals the plain unfolding |
| BlankSession.Canonicalizer.RecordFields | ingestion/parsers/mitre_d3fend_turtle.py:159-169 | succeeds exactly when the structures, in the order listed, fit the budget; then a key is reported exactly when the technique has a triple with it and it is not a known predicate, and its values are those of these triples' objects, once each, in JSON order |
| BlankSession.Canonicalizer.UnknownFieldsOfAll | ingestion/parsers/mitre_d3fend_turtle.py:141-169 | a parse succeeds exactly when the structures of all techniques, in the order listed, fit the budget with one shared cache; the triples serialised for a technique are those outside the known predicates, and each record holds their values |
| BlankFields.UnfoldMeans | ingestion/parsers/mitre_d3fend_turtle.py:76-100 | an unfolding has every triple of its node as a field value, nothing else, sorted and without repetition, and the digest of these fields |
| BlankCanonicalizer.Finish | ingestion/parsers/mitre_d3fend_turtle.py:90-93 | values are deduplicated by their JSON text and listed in its order, properties in key order, whatever order they arrived in |
| BlankRename.UnfoldRenamed | ingestion/parsers/mitre_d3fend_turtle.py:61-67 | renaming blank nodes does not change an unfolding |
| BlankRename.FreshEdgesRenamed | ingestion/parsers/mitre_d3fend_turtle.py:80-82 | renaming does not change the number of edges charged to a root |
| BlankRename.SerialisationIsLabelFree | ingestion/parsers/mitre_d3fend_turtle.py:61-102 | with a fresh cache, renaming changes neither success nor the value |
| BlankRename.ParsesAgree | ingestion/parsers/mitre_d3fend_turtle.py:142-169 | two successful parses of graphs equal up to labels and order give the same unknown fields |
| BlankOrder.ParseOrderIff | ingestion/parsers/mitre_d3fend_turtle.py:141-165 | a parse succeeds in every triple order exactly when each structure of each technique fits the budget after the techniques before it |
| BlankOrder.AnyOrderIff | ingestion/parsers/mitre_d3fend_turtle.py:68-82 | all orders of a set of roots are accepted exactly when each root fits the budget when visited first |
| BlankOrder.ZeroLimitIff | ingestion/parsers/mitre_d3fend_turtle.py:80-82 | without any budget the order is irrelevant |
| BlankOrder.OrderMatters | ingestion/parsers/mitre_d3fend_turtle.py:71-82 | for every positive limit, a graph of one technique that parses in one triple order and is refused in another |
| GraphExpand.ValidateEdges | tools/search/catalog_graph.py:141-165 | accepts exactly lists of at most 100,000 edges that increase strictly by source, type and target, of registered types and between known documents |
| GraphExpand.CatalogGraphRuntime.constructor | tools/search/catalog_graph.py:206-223 | the adjacency maps hold exactly the bundle's edges, once each |
| GraphExpand.CatalogGraphRuntime.BreadthFirst | tools/search/catalog_graph.py:347-382 | the queue loop with its early exit computes the first results of the unbounded exploration |
| GraphExpand.CatalogGraphRuntime.GraphExpand | tools/search/catalog_graph.py:306-382 | refuses exactly the unacceptable requests; otherwise the answer meets `GraphAnswers.Answers` for the request's own texts and the bundle's edges |
| GraphTheorems.ExpansionIsShortestPaths | tools/search/catalog_graph.py:347-382 | results are distinct non-seeds in depth order, each at its true distance through an edge from a seed or earlier result one level up; a short answer is complete |
| GraphAnswers.ExpansionAnswers | tools/search/catalog_graph.py:347-382 | in terms of edges alone: for "outgoing" each hit is the target of an edge from its `via` (for "incoming" the source, for "both" either), of the reported type and tag, at its least number of steps, from the first node that leads to it over the least such edge, in order; nothing in reach is missing from a short answer |
| GraphTheorems.LimitPrefix | tools/search/catalog_graph.py:379-380 | a smaller limit returns a prefix; BreadthFirst ties this to the loop's early exit |
| GraphTheorems.DepthPrefix | tools/search/catalog_graph.py:352-353 | a smaller depth returns a prefix |
| GraphTranspose.IncomingIsTransposedOutgoing | tools/search/catalog_graph.py:354-361 | incoming expansion is outgoing expansion of the transposed graph, with the tag exchanged |
| SearchBundle.BuildProjection | tools/search/reference_search.py:167-282 | a bundle is built exactly from valid input, and is well formed |
| SearchContents.AcceptableMeans | tools/search/reference_search.py:167-259 | valid input is a non-empty list of records with distinct Atlas IDs whose identifiers have a namespace and, if numeric, decimal values |
| SearchContents.ProjectionMeans | tools/search/reference_search.py:183-259 | the bundle has one document per record by ID, and exactly the records' identifiers and aliases with their own fields, in order |
| SearchBundle.ProjectionPermutes | tools/search/reference_search.py:183-259 | permuting the input records does not change the bundle |
| SearchIndex.Populate | tools/search/sqlite_search.py:297-396 | for any validated bundle, whatever its facets, the tables hold exactly its folded rows, or a key conflict or an oversized number refuses it |
| SearchIndex.FitsMeans | tools/search/sqlite_search.py:222-296 | the inserts work exactly when no two identifiers, aliases or facet values share their key columns and every number is at most 9,223,372,036,854,775,807 |
| SearchResolve.ReferenceResolve | tools/search/reference_search.py:338-372 | the scanning loops compute the stage, status and ordered targets |
| SearchResolve.SqliteResolve | tools/search/sqlite_search.py:671-743 | the queries give an outcome of the SQL semantics, ties in any order |
| SearchMeaning.ReferenceMeans | tools/search/reference_search.py:338-372 | in terms of the rows' fields: the reference answers with the request's own document, else every target with a fitting identifier, else alias, whose document meets each scope hint by its own field (`scope.platform` for "platform" and so on for the seven keys, no other key, as in lines 76-90), once each, in the order of the sort columns of lines 93-107 |
| SearchMeaning.SqlMeans | tools/search/sqlite_search.py:632-743 | whatever the index answers has the same stage, status and set of targets in these terms, one row per primary identifier, in the order of its columns |
| SearchAgree.ScopesAgree | tools/search/sqlite_search.py:511-522 | the facet subqueries accept a document exactly when the reference scope test does |
| SearchAgree.IdentifiersAgree | tools/search/sqlite_search.py:695-713 | precomputed identifier matching selects the targets of the reference scan |
| SearchAgree.AliasesAgree | tools/search/sqlite_search.py:724-737 | precomputed alias matching selects the targets of the reference scan |
| SearchAgree.SelectionsAgree | tools/search/sqlite_search.py:632-669 | where the keys agree the joined and sorted rows list each matched target once, in the reference order |
| SearchAgree.StagesAgree | tools/search/sqlite_search.py:671-743 | both resolvers answer at the same stage from the same matched targets, and leave the exact stages on the same requests |
| SearchAgree.ResolversAgree | tools/search/sqlite_search.py:671-743 | same stage, status and ordered targets for every request whose matched targets have one primary each, or no identifiers |
| SearchMeaning.AskBoth | tools/search/reference_search.py:338-372 | built from the same records, each program gives its own resolver's answer, which meets the field-by-field reading above, and the two are equal on that condition |
| SearchLimits.AnswersOnceIff | tools/search/sqlite_search.py:643-652 | the join lists every target once exactly when no matched target has two primaries |
| SearchLimits.OrdersAgreeIff | tools/search/sqlite_search.py:652-665 | every listing SQL may give is the reference order exactly when no matched target has two primaries and the sort keys order the matched targets alike |
| SearchLimits.ResolversAgreeIff | tools/search/sqlite_search.py:671-743 | the resolvers always agree on a request exactly on that condition for the targets it matches |
| SearchExamples.TwoPrimariesDisagree | tools/search/sqlite_search.py:648-649 | concrete records, accepted by both, with two primaries: the answers can differ |
| SearchLimits.WithoutPrimaryOrdersDiffer | tools/search/reference_search.py:94-107 | without primaries two documents that differ only in identifier value and target are ordered oppositely |
| SearchExamples.NoPrimaryDisagree | tools/search/reference_search.py:94-107 | concrete records, accepted by both, without primaries: the answers differ |
| SearchNumeric.ReferenceIsAdmissible | tools/search/sqlite_search.py:786-796 | the reference list is one the index may return |
| SearchNumeric.BrowsingAgreesIff | tools/search/sqlite_search.py:778-804 | for every limit, indexed browsing always gives the first lines of the reference list exactly when no group of tied lines starts among them |
| SearchExamples.TiedNumbersDisagree | tools/search/sqlite_search.py:786-796 | concrete records whose identifiers `1` and `01` tie: for every positive limit the listings can differ |
| SearchNumeric.BrowsePermuted | tools/search/reference_search.py:403-414 | the reference list, and two listings the query may give for the input and a permutation of it; without ties before the limit all are the same lines |
| Archive.Preflight | tools/pack/archive.py:147-200 | accepts exactly when every entry is allowed, no two names collide and every bound holds |
| ArchiveNames.PreflightMeans | tools/pack/archive.py:147-200 | under the real name rules: every entry has the name of an acceptable path, is read under its own name, is of an allowed type and within the size and ratio bounds; no two paths are equal under casefold; the counts are bounded |
| ArchiveNames.ValidNameIsGood | tools/pack/archive.py:53-120 | an accepted name is that of a path of plain components in a permitted place, NFC and within the length bound |
| ArchiveNames.GoodPathIsValid | tools/pack/archive.py:53-120 | and the name of every such path is accepted and split back into it |
| Archive.MkdirChain | tools/pack/archive.py:217-226 | succeeds exactly when no file lies on the chain, and adds just the missing directories |
| Archive.ExtractMembers | tools/pack/archive.py:248-275 | succeeds exactly when no file lies at or above another member and declared sizes are true |
| Archive.SafeExtract | tools/pack/archive.py:229-290 | exact success condition; on success the tree holds the members and the directories above them, nothing else |
| ArchiveRoundTrip.SourceFiles | tools/pack/builder.py:46-72 | the listing is sorted by name whatever the walk order |
| ArchiveRoundTrip.WriteZip | tools/pack/builder.py:75-96 | writes every file unaltered, exactly when the size bounds hold |
| ArchiveRoundTrip.BuiltPreflight | tools/pack/archive.py:147-200 | a built archive passes preflight exactly when no two names are equal under casefold |
| ArchiveNames.ExtractionIsContained | tools/pack/archive.py:53-120 | whatever an accepted archive contains, extraction makes only plain paths below metadata/ and targets/, and its files are known metadata or passive content |
| ArchiveRoundTrip.RoundTrip | tools/pack/builder.py:46-96 | building succeeds exactly on valid names within the bounds; extracting the result succeeds exactly when no two names are equal under casefold, and gives back the source files |
| Frames.ParseWire | benchmarks/desktop/phase56/probe_environment.py:36-56 | parsing the concatenated frames of any sendable bodies returns them |
| Frames.ParseIsWire | benchmarks/desktop/phase56/probe_environment.py:41-56 | every accepted byte string is the framing of what was parsed |
| Frames.WireInjective | benchmarks/desktop/phase56/probe_environment.py:36-38 | no two lists of bodies share a framing |
| Frames.ParseFrames | benchmarks/desktop/phase56/probe_environment.py:41-56 | the offset loop accepts exactly the framings: each body of 1 to 8,388,608 bytes after its length in four bytes, most significant first |
| Frames.ParseMeans | benchmarks/desktop/phase56/probe_environment.py:41-56 | the parse returns the bodies exactly when the bytes are made of such frames |
| Frames.Stream.ReadExact | benchmarks/desktop/phase56/measure_core_ipc.py:49-58 | returns the next bytes for every chunking, and fails exactly when too few remain |
| Frames.Stream.ReadFrame | benchmarks/desktop/phase56/measure_core_ipc.py:61-68 | returns a body exactly when what is left begins with its frame, and moves past it |
| Frames.ReadAll | benchmarks/desktop/phase56/measure_core_ipc.py:61-68 | reading frame after frame returns the bodies sent, for every chunking |
| Aliases.ValuesEqualIff | tools/validate_phase52.py:531-534 | two aliases are value-equal exactly when some query matches both |
| Aliases.CollideMeans | tools/validate_phase52.py:531-543 | two aliases collide exactly when their owners differ, their texts are equal (letter case aside unless both are case-sensitive) and no scope field names two values |
| Aliases.ValidateAliasCollisions | tools/validate_phase52.py:546-553 | one error per colliding pair of aliases, in the order of the pairs, naming the first text and both owners, and nothing else; no error exactly on collision-free corpora |
| Aliases.ResolveQuery | tools/validate_phase52.py:620-644 | an ID resolves to itself, any other query to the sorted IDs of the entities of the namespace that have it as title, native identifier or an alias not scoped elsewhere |
| Aliases.NamespacedAnswersDiffer | tools/validate_phase52.py:636-643 | without collisions, two entities answering one namespaced query by alias differ in another scope, or one alias has the empty namespace |
| Aliases.AnswersDisjointIff | tools/validate_phase52.py:537-543 | two such answers do not collide exactly on that condition |
| Aliases.SchemaAnswersDiffer | schemas/v1/defs/alias.schema.json:1 | for aliases that satisfy the schema's namespace pattern, two such answers differ in entity type, provider or locale |
| Aliases.EmptyNamespaceEscapes | tools/validate_phase52.py:641-642 | a concrete collision-free corpus, outside the schema, where both entities answer |
| Normalizer.Group | ingestion/normalizers/microsoft_windows_provider_metadata.py:97-130 | the first bad record raises; otherwise quarantine, diagnostics and groups partition the records in order |
| Normalizer.NormalizePsr | ingestion/normalizers/microsoft_windows_provider_metadata.py:97-207 | the loops give the first error or an output for the records sorted by parsed-record ID |
| NormalizerMeaning.OutputMeans | ingestion/normalizers/microsoft_windows_provider_metadata.py:97-207 | succeeds exactly when every record is a definition of the pinned provider, of another type or without an event ID, and records of one event share a GUID and have the fields lineage needs; then entities, lineage, quarantine, diagnostics and counters hold what the records' own fields say, in order |
| NormalizerTheorems.RecordsAreConserved | ingestion/normalizers/microsoft_windows_provider_metadata.py:102-193 | quarantine, diagnostics and structures together number the input, and the counters are the sizes of their lists |
| NormalizerTheorems.EachRecordLandsOnce | ingestion/normalizers/microsoft_windows_provider_metadata.py:102-193 | with distinct IDs each record lands in exactly one of quarantine, diagnostics and the lineage of the one entity of its event; the diagnostics number the out-of-scope records, and hold the note of no other record when notes are distinct |
| NormalizerTheorems.InputOrderIsIrrelevant | ingestion/normalizers/microsoft_windows_provider_metadata.py:102-199 | with distinct IDs and one text per version, permuting the input changes nothing |
| NormalizerTheorems.DeterminedIff | ingestion/normalizers/microsoft_windows_provider_metadata.py:136-152 | the records determine the output exactly when no event has two texts for one version |
| NormalizerTheorems.TwoTextsOfOneVersion | ingestion/normalizers/microsoft_windows_provider_metadata.py:136 | a concrete accepted input with two possible outputs |

## Left out

- Signature and metadata verification (TUF), JSON Schema, FTS5 ranking, ZIP and SQLite encodings, rdflib and the
  regular-expression engine: library code; a verified pack, an entry list, table rows or a set of triples are given.
- The internals of SHA-256, JSON text, NFKC, NFC, casefold and `upper`: parameters.
- File permissions, fsync, symbolic links, case-insensitive file systems, and the files inside a generation: a generation
  directory is its metadata, published by one rename.
- State files edited or corrupted from outside: a run starts from an empty runtime root and only the modelled steps
  write it; the lost time floor is the one outside event besides the administrator's unlock.
- `install_verified_generation`: it takes the same locked steps without the time guard.
- Rollback reports: written after the pointers and never read by an install.
- CPython's limit on the digits `int` converts: numbers are unbounded.
- `parse_query`: both resolvers call it, so requests are arbitrary here; the lexical stages differ by design.
- `matched_value` and the reason text of a match: with several matching rows SQL does not fix which one it reports first.
- Agreement on bundles with a `version` facet: `Populate` takes them, but the reference scan has no such scope value, so
  the comparison covers bundles from `build_projection_bundle`.
- The checks of the mapping profile before the first loop of the normaliser, lineage digests and the candidate digest:
  independent field tests and functions of what is modelled.
- Record fields of the Turtle parser other than the unknown ones, and alias descriptions: copied values.
- Surrogate characters: texts are sequences of characters without encoding.
- NormalizerTheorems.EachRecordLandsOnce: an out-of-scope record is found in the diagnostics by its note, which holds the
  native key and not the parsed-record ID, as in the program; records with one note cannot be told apart there.
- NormalizerTheorems.InputOrderIsIrrelevant: needs one text per version beside distinct IDs, because the claim is false
  without it.
