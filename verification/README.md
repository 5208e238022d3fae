# twinflow: a verified model of its core

This project models, in Dafny, the parts of twinflow whose correctness spans more than one function, and proves what
they promise. Nothing in it runs the original program: it is a model, its specifications and their proofs.
`dafny verify dfyconfig.toml` checks all of it.

| cluster | files |
|---|---|
| dependency graphs: the shared cycle, acyclicity and layering kernel, the import gate's own walk, the roadmap rules | `Digraph` `Dag` `CycleOrder` `ImportBoundary` `Roadmap` |
| the phase diagram, drawn, read back and linted character by character | `MermaidText` `Mermaid` `MermaidChains` `GraphLint` `DrawnLint` |
| the tracker as a projection of the roadmap | `Sync` `Convergence` |
| the event log and its readers: canonical JSON, base64url cursors, the total order, the checker, the digest's bytes, paging, the command log | `Decimals` `Json` `Canonical` `Base64` `Cursor` `Envelope` `EventLog` `Pagination` `Producer` `Commands` |
| autonomy tiers: sessions that share one audit log and one clock | `Autonomy` `AuditTrail` `AutonomyGate` |
| the bounded RFID inventory and the portal reader's faults | `TagReads` `Inventory` `Portal` |
| random stream names, when two of them can meet, and their registry | `StreamNames` `NameGrammar` `Equations` `NameOverlap` `Registry` |
| the compose segmentation gate and the path property behind it | `Segmentation` |
| the texts that are written and the patterns that are accepted, character by character | `Formats` |
| shared vocabulary | `Options` `Text` `Sorting` |

Code that updates state keeps that form: the depth-first walks, the audit log and its sessions, the inventory, the
portal reader, the command log, the stream registry and the tracker are classes whose methods are proved against pure
functions of the old state, and loops that append findings are loops. The theorems are then about those functions, over
every input and every run.

Two conventions: a float that is a measured level is a `real`, and an instant is a number of ticks. An `Err` or a `None`
result is the exception the source raises.

## Where the code and its documentation differ

The model follows the code. Each of these is stated as a lemma.

- `dag.cycles` says it reports every cycle (`tools/roadmap/src/twinflow_roadmap/dag.py:18`). It reports the cycle a gray
  neighbor closes, once per node set, and `SharedCyclesMayGoUnreported` gives a graph with a cycle in no report. Every
  cycle is reported, whatever the order of nodes and targets, exactly when no edge lies on two simple cycles with
  different node sets (`AllReportedInEveryOrderIff`); `ReportsCutEveryClosedWalk` says what holds of every graph.
- `topological_waves` says that anything left when nothing is ready sits on a cycle
  (`tools/roadmap/src/twinflow_roadmap/roadmap.py:786`). What is left can reach a cycle; `StrandedOffCycles` gives a node
  that is on none, and all of it sits on cycles exactly when no node off the cycles depends on one that is on a cycle
  (`UnlayeredIsOnCycleIff`).
- Reconciliation is meant to reach an empty plan. It does so in two rounds exactly when no package is `reordered` and no
  issue holds a taxonomy label its package does not earn, and otherwise never: the label `moved` is outside the prefixes
  that are compared, and relabelling only adds (`tools/roadmap/src/twinflow_roadmap/sync.py:185-202`, `420-433`).
- A page's cursor names the last event served and the next page starts strictly after it
  (`packages/twinflow-api/src/twinflow/api/pagination.py:48-84`), so of two events at one position one can be skipped.
  Every schedule of page sizes serves the whole selection exactly when it has no such tie.
- The quiet portal fault is described as a reader that answers and reads nothing
  (`packages/twinflow-sensors/src/twinflow/sensors/portal.py:71-73`). A reader that never accumulated a read is never
  reported, and reads that the filter or the cap turns away do not count as reading.
- A handout of the stream registry is counted before the generator is derived, so counts are the successful requests
  exactly when the two seeds fit in 64 bits. A placeholder called `name` or `self` cannot be passed as a keyword
  argument, so such a name can be declared and never resolved.
- A stream name is an address (`packages/twinflow-rng/src/twinflow/rng/registry.py:3-5`). Two declared names can resolve
  to one address, exactly when they overlap segment by segment (`CollideIffOverlap`); requests and streams correspond one
  to one exactly when no two live names of the catalog do (`StreamsTellRequestsIff`).
- The diagram reader is described as taking chains of either edge
  (`tools/roadmap/src/twinflow_roadmap/graph.py:39`). A chain with a dotted link is read as one edge; a chain line gives
  back its own edges exactly when its links are all arrows or it has one link, and it does not begin with `graph`
  (`ChainComesBackIff`). A line that leaves a node whose key begins with `graph` is taken for the header. A solid edge
  whose end is no node is ignored by the lint. A phase name may hold a quote or a line end, and two ids may share a key;
  such a roadmap is drawn and its phases do not read back (`PhasesComeBackIff`).
- Python's `$` matches before a last newline, so a tag identifier, a stream name, an entity id and a tool name may each
  end in one. The patterns here do the same.

## Model

| member | source | states |
|---|---|---|
| `Digraph.PeeledMeansShortChains` | tools/roadmap/src/twinflow_roadmap/dag.py:65-70 | k rounds of peeling remove exactly the nodes from which no dependency chain of k edges starts |
| `Digraph.LeftoverReachesCycle` | tools/roadmap/src/twinflow_roadmap/dag.py:78-91 | once a round removes nothing, what is left is exactly the nodes that can reach a cycle |
| `Digraph.AllPeeledIffAcyclic` | tools/roadmap/src/twinflow_roadmap/dag.py:52-70 | peeling empties the graph exactly when no closed walk exists over declared nodes |
| `Digraph.PeelingIsLeast` | tools/roadmap/src/twinflow_roadmap/dag.py:73-92 | any layering that puts dependencies strictly earlier is at least as late as peeling |
| `Dag.CycleFinder.Visit` | tools/roadmap/src/twinflow_roadmap/dag.py:29-44 | one recursive visit leaves colors, stack, reports and seen node sets as the walk function says, and terminates |
| `Dag.CycleFinder.Close` | tools/roadmap/src/twinflow_roadmap/dag.py:37-42 | a gray neighbor is reported as the stack from it on, unless that node set was reported already |
| `Dag.FindCycles` | tools/roadmap/src/twinflow_roadmap/dag.py:17-49 | the walk over all nodes gives the reports the lemmas below are about |
| `Dag.ReportedCyclesAreGenuine` | tools/roadmap/src/twinflow_roadmap/dag.py:17-49 | every reported tuple is a simple cycle of declared nodes, and no two reports share a node set |
| `Dag.ReportsCutEveryClosedWalk` | tools/roadmap/src/twinflow_roadmap/dag.py:17-49 | every closed walk of the graph passes the closing edge of a reported cycle |
| `Dag.CyclesEmptyIffAcyclic` | tools/roadmap/src/twinflow_roadmap/dag.py:52-58 | nothing is reported exactly when the graph has no closed walk, self-loops and dangling edges included |
| `CycleOrder.ToldApartIsReported` | tools/roadmap/src/twinflow_roadmap/dag.py:17-49 | where no edge lies on two simple cycles with different node sets, every cycle's node set is reported |
| `CycleOrder.LedReportsHoldAll` | tools/roadmap/src/twinflow_roadmap/dag.py:29-48 | when the walk starts on a cycle and meets that cycle's next node first at each of its nodes, every report that holds both its first and its last node holds all of it |
| `CycleOrder.AllReportedInEveryOrderIff` | tools/roadmap/src/twinflow_roadmap/dag.py:17-49 | every cycle is reported in every order in which nodes and targets can be listed exactly when no edge lies on two simple cycles with different node sets |
| `Dag.SharedCyclesMayGoUnreported` | tools/roadmap/src/twinflow_roadmap/dag.py:7-24 | the documented "every cycle" fails: this graph has two simple cycles and one report |
| `Dag.IsAcyclic` | tools/roadmap/src/twinflow_roadmap/dag.py:52-70 | the Kahn peel answers true exactly when no closed walk exists, so it agrees with the reports |
| `Dag.Waves` | tools/roadmap/src/twinflow_roadmap/dag.py:73-92 | the layers are the rounds of peeling, each sorted and without repetition, until a round is empty |
| `Dag.WaveIsLongestChain` | tools/roadmap/src/twinflow_roadmap/dag.py:73-92 | a node is in layer k exactly when its longest dependency chain has k edges |
| `Dag.UnlayeredReachesCycle` | tools/roadmap/src/twinflow_roadmap/dag.py:73-92 | a node is in no layer exactly when it can reach a cycle |
| `Dag.UnlayeredIsOnCycleIff` | tools/roadmap/src/twinflow_roadmap/roadmap.py:783-792 | everything left out of the layers sits on a cycle exactly when no node off the cycles depends on a node that is on one |
| `Dag.StrandedOffCycles` | tools/roadmap/src/twinflow_roadmap/roadmap.py:783-792 | the documented "sits on a cycle" fails: a node that depends on one which depends on itself is in no layer and on no cycle |
| `Dag.WavesAreEarliest` | tools/roadmap/src/twinflow_roadmap/dag.py:73-92 | no layering that respects dependencies places a node earlier |
| `Dag.WavesCoverIffAcyclic` | tools/roadmap/src/twinflow_roadmap/dag.py:52-92 | the layers cover all nodes exactly when the graph is acyclic |
| `Dag.WavesRespectDependencies` | tools/roadmap/src/twinflow_roadmap/dag.py:73-92 | a node is in one layer only, and each of its declared dependencies is in an earlier one |
| `ImportBoundary.CycleSearch.VisitNode` | scripts/checks/import-boundary-gate.py:118-145 | the gate's visit, with its early return, follows the specified search state by state |
| `ImportBoundary.FindCycle` | scripts/checks/import-boundary-gate.py:118-145 | the search returns the first cycle of the lemmas below, and terminates |
| `ImportBoundary.FirstCycleIsFirstReport` | scripts/checks/import-boundary-gate.py:118-145 | it finds one exactly when the roadmap's walk reports one, and it is that walk's first report, closed |
| `ImportBoundary.FirstCycleCorrect` | scripts/checks/import-boundary-gate.py:118-145 | None exactly when the imports are acyclic; otherwise a closed path of real imports with no inner repetition |
| `Roadmap.IndexPackages` | tools/roadmap/src/twinflow_roadmap/roadmap.py:790-791 | the index by id and the dependency mapping, where a repeated id keeps its first place and its last value |
| `Roadmap.CheckPackage` | tools/roadmap/src/twinflow_roadmap/roadmap.py:663-702 | the findings of one package's dependencies, in order, one rule at most for each dependency |
| `Roadmap.ValidateDependencies` | tools/roadmap/src/twinflow_roadmap/roadmap.py:663-710 | all dependency findings followed by one finding for each reported cycle |
| `Roadmap.MissingReportedIff` | tools/roadmap/src/twinflow_roadmap/roadmap.py:663-677 | a dependency is reported missing exactly when a package of that id lists it and no package carries it |
| `Roadmap.OrderReportedIff` | tools/roadmap/src/twinflow_roadmap/roadmap.py:679-702 | the order rules carry exactly the pairs in which the dependency stands in a later phase, or in the same one with a wave that is not lower; a repeated id is its last package, an undeclared phase stands before all |
| `Roadmap.FindingsArePairs` | tools/roadmap/src/twinflow_roadmap/roadmap.py:663-702 | every finding but a cycle is about a package and a dependency it lists |
| `Roadmap.CleanIffSlotsFall` | tools/roadmap/src/twinflow_roadmap/roadmap.py:679-702 | neither order rule fires exactly when (phase index, wave) strictly falls along every resolved dependency |
| `Roadmap.CycleFindingIffCyclic` | tools/roadmap/src/twinflow_roadmap/roadmap.py:704-776 | a cycle finding exists exactly when the dependency graph has a closed walk |
| `Roadmap.FallingSlotsAreAcyclic` | tools/roadmap/src/twinflow_roadmap/roadmap.py:663-710 | a lattice that falls along every dependency rules out cycles |
| `Roadmap.CleanOrderHasNoCycle` | tools/roadmap/src/twinflow_roadmap/roadmap.py:663-710 | without an order finding there is no cycle finding |
| `Roadmap.TopologicalWaves` | tools/roadmap/src/twinflow_roadmap/roadmap.py:783-792 | the layers are those of the kernel with each id replaced by its package |
| `Roadmap.CleanRoadmapIsLayeredOnce` | tools/roadmap/src/twinflow_roadmap/roadmap.py:783-792 | with distinct ids and no order finding, every package is in exactly one layer, once, after all its resolved dependencies |
| `Sync.ComputeLabels` | tools/roadmap/src/twinflow_roadmap/sync.py:185-202 | the sorted labels of a package, each once |
| `Sync.OnlyMovedIsOutside` | tools/roadmap/src/twinflow_roadmap/sync.py:185-202 | all labels of a package carry a taxonomy prefix exactly when it is not reordered |
| `Sync.LabelsSay` | tools/roadmap/src/twinflow_roadmap/sync.py:191-201 | from a label with the prefix phase, wave or brick, and from moved, the field of the package that earned it |
| `Sync.RequirementLabelsSay` | tools/roadmap/src/twinflow_roadmap/sync.py:192-199 | the same for the prefixes req, gate and tier |
| `Sync.DiffersIff` | tools/roadmap/src/twinflow_roadmap/sync.py:325 | two texts differ for the plan exactly when they differ between the blanks at their ends |
| `Sync.TaxonomyIs` | tools/roadmap/src/twinflow_roadmap/sync.py:420-425 | the labels that are compared are those with one of the six prefixes |
| `Sync.PlanMilestones` | tools/roadmap/src/twinflow_roadmap/sync.py:306-341 | one create or one update for each phase whose milestone is missing or differs after stripping |
| `Convergence.EditsRun` | tools/roadmap/src/twinflow_roadmap/sync.py:420-449 | the edits of an existing issue all succeed when its labels exist, and leave it with the planned body, with its own labels and the earned ones, and closed if its package is done |
| `Convergence.IssueRuns` | tools/roadmap/src/twinflow_roadmap/sync.py:391-449 | the operations of one package succeed and leave the issue of its title as planned, and the issue of every other title as it was |
| `Sync.PlanIssues` | tools/roadmap/src/twinflow_roadmap/sync.py:391-449 | the operations of all packages in order, or none at all when a package names an undeclared phase |
| `Sync.CollectLabels` | tools/roadmap/src/twinflow_roadmap/sync.py:351-354 | the labels of all packages together |
| `Sync.CollectUnexplained` | tools/roadmap/src/twinflow_roadmap/sync.py:451-459 | the titles of issues with a requirement label that no package plans, in order |
| `Sync.BuildPlan` | tools/roadmap/src/twinflow_roadmap/sync.py:283-461 | as far as the tracker can be read: milestones, then missing labels in order, then issues and the unexplained ones; a failed read ends the plan where it fails |
| `Sync.Repository.ApplyPlan` | tools/roadmap/src/twinflow_roadmap/sync.py:464-511 | without gh every operation is refused; otherwise they run in order, and the refused and the failed are returned, in order, and change nothing |
| `Convergence.IssuesPlannedIffDeclared` | tools/roadmap/src/twinflow_roadmap/sync.py:391-396 | a plan exists exactly when every package names a declared phase |
| `Convergence.RoundRuns` | tools/roadmap/src/twinflow_roadmap/sync.py:283-511 | no operation of a plan fails: each names only labels, milestones and issues already there; and the tracker afterwards, title by title |
| `Convergence.PlanEmptyIffSettled` | tools/roadmap/src/twinflow_roadmap/sync.py:283-461 | the plan is empty exactly when every milestone, label and issue carries what the roadmap says |
| `Convergence.TwoRoundsConverge` | tools/roadmap/src/twinflow_roadmap/sync.py:283-511 | from any tracker the plan after two rounds is empty exactly when no package is reordered and no issue holds a stale taxonomy label |
| `Convergence.ConvergesInTwoOrNever` | tools/roadmap/src/twinflow_roadmap/sync.py:283-511 | for any number of rounds from two on the answer is the same: two settle it or none does |
| `Convergence.CanSettleStays` | tools/roadmap/src/twinflow_roadmap/sync.py:420-433 | a round neither creates nor removes a stale label |
| `Convergence.ContextsNeverTouchIssues` | tools/roadmap/src/twinflow_roadmap/sync.py:473-493 | a named context leaves every issue as it was and refuses every issue operation; one that is not allowed changes nothing |
| `Convergence.AllowedContextActsAlike` | tools/roadmap/src/twinflow_roadmap/sync.py:473-493 | on milestones and labels an allowed context does what a person does, with the same tracker and the same refusals |
| `Convergence.AllowedRound` | tools/roadmap/src/twinflow_roadmap/sync.py:464-511 | a round by an allowed context leaves the milestones and labels of a person's round, the issues as they were, and refuses exactly the operations on issues |
| `Convergence.EarlyEndsArePrefixes` | tools/roadmap/src/twinflow_roadmap/sync.py:283-386 | a plan that a failed read ends is a prefix of the full one: nothing, the operations on milestones, or those and the labels; it says it skipped something, and names no issue as unexplained |
| `Convergence.EarlyEndsNeverFail` | tools/roadmap/src/twinflow_roadmap/sync.py:283-396 | a plan fails exactly when it gets as far as the issues and a package names a phase nobody declares |
| `Convergence.NothingIsDeleted` | tools/roadmap/src/twinflow_roadmap/sync.py:29-32 | whatever operations run, in whatever context, no milestone, label or issue is lost, no issue loses a label or its title, and none is reopened |
| `Convergence.UnexplainedStays` | tools/roadmap/src/twinflow_roadmap/sync.py:451-459 | the report is exactly the issues with a label that begins req: and a title no package has, and a round changes nothing about which issues are in it |
| `Decimals.PrintIsDecimal` | packages/twinflow-schemas/src/twinflow/schemas/envelope.py:36-53 | printing a number gives a decimal string without leading zeros whose value is the number |
| `Decimals.PrintOfValue` | packages/twinflow-schemas/src/twinflow/schemas/envelope.py:36-53 | every decimal string is the printing of its value |
| `Decimals.ValueInjective` | packages/twinflow-schemas/src/twinflow/schemas/envelope.py:36-53 | no two decimal strings spell one number |
| `Json.LoadsRender` | packages/twinflow-schemas/src/twinflow/schemas/log_invariants.py:162-180 | reading written JSON gives the value back, escapes, surrogate pairs and nesting included |
| `Canonical.CanonicalReadsBack` | packages/twinflow-schemas/src/twinflow/schemas/log_invariants.py:162-180 | canonical text reads back as the value with its keys in order, at every depth |
| `Canonical.CanonicalIffSame` | packages/twinflow-schemas/src/twinflow/schemas/log_invariants.py:162-180 | two values have one canonical text exactly when they are equal up to the order of keys |
| `Canonical.CanonicalPrintable` | packages/twinflow-schemas/src/twinflow/schemas/log_invariants.py:162-185 | canonical text is printable ASCII: control characters never appear raw (section 7 of RFC 8259) |
| `Formats.EscapesAre` | packages/twinflow-schemas/src/twinflow/schemas/log_invariants.py:162-180 | how each character is written inside a string |
| `Formats.UnicodeEscapeIs` | packages/twinflow-schemas/src/twinflow/schemas/log_invariants.py:162-180 | an escape by number has four lower-case hexadecimal digits, the highest first |
| `Formats.ItemsAreSeparated` | packages/twinflow-schemas/src/twinflow/schemas/log_invariants.py:162-180 | items are separated by a comma and nothing else |
| `Formats.FieldsAreSeparated` | packages/twinflow-schemas/src/twinflow/schemas/log_invariants.py:162-180 | a quoted key, a colon and the value, with a comma between fields and nothing else |
| `Base64.DecodeEncode` | packages/twinflow-api/src/twinflow/api/cursor.py:73-115 | base64url (section 5 of RFC 4648) decodes to what was encoded, for every byte string |
| `Base64.PaddingComesBack` | packages/twinflow-api/src/twinflow/api/cursor.py:82-101 | stripping the padding and adding minus length modulo 4 marks restores the text |
| `Cursor.DecodeOfEncode` | packages/twinflow-api/src/twinflow/api/cursor.py:73-115 | decoding an encoded legal cursor gives it back, through printing, canonical JSON and unpadded base64url |
| `Cursor.EncodeInjective` | packages/twinflow-api/src/twinflow/api/cursor.py:73-82 | no two positions share an encoding |
| `Cursor.EncodedIsUrlSafe` | packages/twinflow-api/src/twinflow/api/cursor.py:73-82 | an encoded cursor is not empty and uses only the unreserved alphabet |
| `Cursor.DecodedIsLegal` | packages/twinflow-api/src/twinflow/api/cursor.py:85-115 | whatever text is accepted, the position read from it passes the constructor's checks |
| `Cursor.PayloadAcceptedIff` | packages/twinflow-api/src/twinflow/api/cursor.py:103-115 | a decoded payload is accepted exactly when it is an object with the three keys and no other, its parts have their types and make a legal position |
| `Formats.CursorTextIs` | packages/twinflow-api/src/twinflow/api/cursor.py:73-82 | the JSON an encoded cursor holds, character by character |
| `Formats.CursorIsUrlSafe` | packages/twinflow-api/src/twinflow/api/cursor.py:73-82 | every character of an encoded cursor is one of the 64 |
| `Formats.DecodeRefuses` | packages/twinflow-api/src/twinflow/api/cursor.py:85-101 | neither an empty text nor one outside ASCII is a cursor |
| `Formats.AlphabetIs` | packages/twinflow-api/src/twinflow/api/cursor.py:73-82 | the 64 characters in their order (section 5 of RFC 4648), and the two that are read as others |
| `Formats.QuadIs` | packages/twinflow-api/src/twinflow/api/cursor.py:73-82 | three bytes are written as the four digits, base 64, of the number they are base 256 |
| `Formats.GroupsAre` | packages/twinflow-api/src/twinflow/api/cursor.py:73-82 | whole groups follow one another, and one or two bytes left over keep two or three digits and their marks |
| `Envelope.KeyTotal` | packages/twinflow-schemas/src/twinflow/schemas/envelope.py:102-120 | of two order keys exactly one is below the other, or they are equal |
| `Envelope.KeyTransitive` | packages/twinflow-schemas/src/twinflow/schemas/envelope.py:102-120 | the key order is transitive |
| `Envelope.SameDumps` | packages/twinflow-schemas/src/twinflow/schemas/log_invariants.py:188-201 | equal events are dumped as equal JSON values |
| `Envelope.SameDumpMeansSameEvent` | packages/twinflow-schemas/src/twinflow/schemas/log_invariants.py:188-201 | no two different legal events are dumped as one JSON value |
| `Formats.DumpCarries` | packages/twinflow-schemas/src/twinflow/schemas/log_invariants.py:188-201 | the context attributes of an event are dumped under their names |
| `Formats.ExtensionsAreDumped` | packages/twinflow-schemas/src/twinflow/schemas/log_invariants.py:188-201 | so are its extension attributes, and the optional ones only where they are there |
| `EventLog.ScanLog` | packages/twinflow-schemas/src/twinflow/schemas/log_invariants.py:59-87 | one pass finds repeated ids and shared positions with the first position of each, and groups the sequence numbers |
| `EventLog.OneMoreScanned` | packages/twinflow-schemas/src/twinflow/schemas/log_invariants.py:64-87 | looking at one more event with dictionaries of first positions finds exactly the violations that event adds to the log before it, and keeps the dictionaries |
| `EventLog.CheckDensity` | packages/twinflow-schemas/src/twinflow/schemas/log_invariants.py:89-111 | one violation for each producer whose numbers are not dense, in producer order |
| `EventLog.CheckLogInvariants` | packages/twinflow-schemas/src/twinflow/schemas/log_invariants.py:46-113 | the checker's answer is the list the next lemmas are about |
| `EventLog.NoViolationIffClean` | packages/twinflow-schemas/src/twinflow/schemas/log_invariants.py:46-113 | no violation exactly when ids differ, positions differ and each producer's numbers are a permutation of 0..n-1 |
| `EventLog.ViolationsAre` | packages/twinflow-schemas/src/twinflow/schemas/log_invariants.py:46-113 | a violation is reported exactly for each position whose id or place an earlier position has, with the earliest one, and for each producer whose numbers are not a permutation of 0..n-1 |
| `EventLog.DenseLogsHaveNoTies` | packages/twinflow-schemas/src/twinflow/schemas/log_invariants.py:46-113 | density alone makes all positions differ |
| `EventLog.CleanHasDistinctKeys` | packages/twinflow-schemas/src/twinflow/schemas/log_invariants.py:46-113 | an accepted log has no two events at one position |
| `EventLog.TotalOrderSorts` | packages/twinflow-schemas/src/twinflow/schemas/log_invariants.py:116-118 | the replay keeps every event and is sorted, strictly when there is no tie |
| `EventLog.ReplayIsInFieldOrder` | packages/twinflow-schemas/src/twinflow/schemas/envelope.py:102-120 | of any two events of a replay the earlier has the lower instant, at one instant the producer that comes first by code points, and of one producer the lower number; instants and numbers compared as numbers |
| `EventLog.OnlyIncreasingArrangement` | packages/twinflow-schemas/src/twinflow/schemas/log_invariants.py:116-118 | a tie-free log has one strictly increasing arrangement, the replay |
| `EventLog.PermutationsReplayAlike` | packages/twinflow-schemas/src/twinflow/schemas/log_invariants.py:116-118 | any two recordings of a tie-free log replay alike |
| `EventLog.FeedDigest` | packages/twinflow-schemas/src/twinflow/schemas/log_invariants.py:188-201 | the bytes fed to the digest are the framed canonical payloads of the replay |
| `EventLog.FramingDecodes` | packages/twinflow-schemas/src/twinflow/schemas/log_invariants.py:188-201 | text with the 0x1e separator after each record decodes in one way |
| `Formats.RecordIsFramed` | packages/twinflow-schemas/src/twinflow/schemas/log_invariants.py:188-201 | each record adds its bytes and the byte 0x1e |
| `EventLog.RecordsAlike` | packages/twinflow-schemas/src/twinflow/schemas/log_invariants.py:188-201 | two records have equal bytes exactly when the events are equal |
| `EventLog.EqualBytesEqualReplays` | packages/twinflow-schemas/src/twinflow/schemas/log_invariants.py:188-201 | two logs feed equal bytes exactly when they replay as equal events, one by one |
| `EventLog.PermutationsHashAlike` | packages/twinflow-schemas/src/twinflow/schemas/log_invariants.py:188-201 | any recording order of a tie-free log feeds the digest the same bytes |
| `Pagination.PageFacts` | packages/twinflow-api/src/twinflow/api/pagination.py:48-84 | a page is a prefix of what remains; its cursor is missing exactly when it is all of it, and names its last event |
| `Pagination.PageServes` | packages/twinflow-api/src/twinflow/api/pagination.py:48-84 | for a limit in range a page holds, in the order of their fields, only events of the log whose subject is among those asked for, whose instant is within both bounds and that lie beyond the cursor; what it leaves out comes after its last event |
| `Pagination.NextCursorIs` | packages/twinflow-api/src/twinflow/api/pagination.py:79-84 | the next cursor is the instant, producer and number of the last event of a full page |
| `Pagination.LastPageIff` | packages/twinflow-api/src/twinflow/api/pagination.py:79-84 | no cursor comes back only when nothing is left out, and on a log without repetitions exactly then |
| `Pagination.WalkKeepsUp` | packages/twinflow-api/src/twinflow/api/pagination.py:48-84 | after any number of requests on a growing tie-free log nothing of the first log is behind the cursor unserved |
| `Pagination.GrowingLogServedOnce` | packages/twinflow-api/src/twinflow/api/pagination.py:48-84 | while the log grows, every event present at the start is served exactly once, in total order |
| `Pagination.SettledWalkEnds` | packages/twinflow-api/src/twinflow/api/pagination.py:48-84 | once the log stops growing, ties or not, the walk ends within one request for each event that remains and one more |
| `Pagination.SettledLogServedOnce` | packages/twinflow-api/src/twinflow/api/pagination.py:48-84 | a log that grows cleanly and then stands still is walked to the end, and every event present at the start is served exactly once, in total order |
| `Pagination.WalkServesWhatWasAsked` | packages/twinflow-api/src/twinflow/api/pagination.py:48-84 | of the events present at the start a finished walk serves exactly those asked for, by subject and instant, and nothing it serves was not asked for |
| `Pagination.StillWalkEnds` | packages/twinflow-api/src/twinflow/api/pagination.py:48-84 | on a fixed log, ties or not, the walk ends within one request for each event and one more |
| `Pagination.TieFreeWalkCompletes` | packages/twinflow-api/src/twinflow/api/pagination.py:48-84 | without ties the walk serves the filtered log exactly once in total order, whatever the page sizes |
| `Pagination.CompleteIffTieFree` | packages/twinflow-api/src/twinflow/api/pagination.py:48-84 | all page-size schedules serve the whole selection exactly when it has no tie |
| `Producer.NumberedIsClean` | packages/twinflow-dashboard/src/twinflow/dashboard/commands.py:242-269 | a log numbered by one producer passes the checker |
| `Producer.NumberedReplaysAsWritten` | packages/twinflow-agent/src/twinflow/agent/autonomy.py:296-358 | under a clock that never goes back, a numbered log already stands in replay order |
| `Commands.NoDataReasons` | packages/twinflow-dashboard/src/twinflow/dashboard/commands.py:169-181 | no reason exactly when every required field is there, no other than the optional ones, and a shelved alarm has a reason; otherwise the reasons name exactly the missing and exactly the unexpected fields |
| `Commands.ReasonIsMissingIff` | packages/twinflow-dashboard/src/twinflow/dashboard/commands.py:169-181 | a shelved alarm is without a reason exactly when it has none or one of blanks |
| `Commands.NoKindReasons` | packages/twinflow-dashboard/src/twinflow/dashboard/commands.py:154-181 | no reason exactly when the data is a mapping that fits and the server answers for the kind in this mode |
| `Commands.ValidateCommand` | packages/twinflow-dashboard/src/twinflow/dashboard/commands.py:137-185 | the kind, or all the reasons that apply |
| `Commands.NoReasonIffAcceptable` | packages/twinflow-dashboard/src/twinflow/dashboard/commands.py:137-185 | nothing is raised exactly for the payloads the dispatch table admits |
| `Formats.CommandIdsAre` | packages/twinflow-dashboard/src/twinflow/dashboard/commands.py:46 | a command id is c, a hyphen and at least four digits |
| `Commands.CommandLog.Record` | packages/twinflow-dashboard/src/twinflow/dashboard/commands.py:209-240 | a new id takes the next number and mints an envelope; a known id changes nothing and mints none |
| `Commands.OneAnswerPerCommand` | packages/twinflow-dashboard/src/twinflow/dashboard/commands.py:209-240 | over any sequence with retries, requests with one id get one answer |
| `Commands.PublishedLogIsClean` | packages/twinflow-dashboard/src/twinflow/dashboard/commands.py:188-269 | the envelopes returned over any run form a log the checker accepts, with one event for each distinct id |
| `Commands.AnswerNamesItsEvent` | packages/twinflow-dashboard/src/twinflow/dashboard/commands.py:209-269 | the answer's number is the position of the very event that carries its command |
| `Commands.FirstRequestIsPublished` | packages/twinflow-dashboard/src/twinflow/dashboard/commands.py:209-269 | the first request with an id is what its answer and its event describe in any run: id, kind, sim time, audit and the request's own data |
| `Autonomy.AuditLog.Emit` | packages/twinflow-agent/src/twinflow/agent/autonomy.py:317-358 | one event is appended at the present instant under the next number, and nothing else changes |
| `Autonomy.AutonomySession.Retire` | packages/twinflow-agent/src/twinflow/agent/autonomy.py:603-612 | a live grant ends with one expired event and a reset count; without one nothing happens |
| `Autonomy.AutonomySession.ExpireIfStale` | packages/twinflow-agent/src/twinflow/agent/autonomy.py:593-601 | a grant past its instant is retired before anything reads it |
| `Autonomy.AutonomySession.GetEffectiveTier` | packages/twinflow-agent/src/twinflow/agent/autonomy.py:395-408 | reading the tier may retire the grant, and then answers the default |
| `Autonomy.AutonomySession.AllowedTierFor` | packages/twinflow-agent/src/twinflow/agent/autonomy.py:411-421 | the grant's tier within its scope, the default outside it |
| `Autonomy.AutonomySession.AuthorizeTool` | packages/twinflow-agent/src/twinflow/agent/autonomy.py:423-432 | refused exactly when the tier held for the tool does not permit the one required |
| `Autonomy.AutonomySession.RequestElevation` | packages/twinflow-agent/src/twinflow/agent/autonomy.py:434-459 | a request is logged with the tier held and changes no authority |
| `Autonomy.AutonomySession.ApproveGrant` | packages/twinflow-agent/src/twinflow/agent/autonomy.py:461-515 | installed and logged only within the deployment's limits and when no grant is live; otherwise refused |
| `Autonomy.AutonomySession.RefuseGrant` | packages/twinflow-agent/src/twinflow/agent/autonomy.py:517-534 | a human's refusal is logged and installs nothing |
| `Autonomy.AutonomySession.RevokeGrant` | packages/twinflow-agent/src/twinflow/agent/autonomy.py:536-538 | a live grant is retired at once |
| `Autonomy.AutonomySession.Note` | packages/twinflow-agent/src/twinflow/agent/autonomy.py:540-548 | a question is counted, and the last one granted retires the grant |
| `Autonomy.AutonomySession.AttributeChange` | packages/twinflow-agent/src/twinflow/agent/autonomy.py:550-591 | a change is logged under the tier held for its tool with the authority behind it, or refused |
| `AuditTrail.TrailReconstructsAuthority` | packages/twinflow-agent/src/twinflow/agent/autonomy.py:461-548 | for any interleaving of sessions and clock advances, a session's live grant is the replay of its own decided and expired events |
| `AuditTrail.ElevatedChangesAreBacked` | packages/twinflow-agent/src/twinflow/agent/autonomy.py:550-591 | every change above L1 in any run carries the grant, approver and decision that the log before it shows live, for a tool in scope, before expiry |
| `AuditTrail.ElevatedChangesWereApproved` | packages/twinflow-agent/src/twinflow/agent/autonomy.py:135-158 | behind every such change there is an approval in the run by a human other than the requester |
| `AuditTrail.DecisionsAreWithinLimits` | packages/twinflow-agent/src/twinflow/agent/autonomy.py:482-501 | every decision in any run is within the configured questions and horizon, and L3 needs writes enabled |
| `AuditTrail.NumbersArePositions` | packages/twinflow-agent/src/twinflow/agent/autonomy.py:317-358 | over every run, each entry carries the number the log stood at when it was emitted, and that number is its position |
| `AuditTrail.LiveGrantWasApproved` | packages/twinflow-agent/src/twinflow/agent/autonomy.py:135-158 | the grant a session holds was approved for it, by a human other than its requester |
| `AuditTrail.RunLogIsCleanAndOrdered` | packages/twinflow-agent/src/twinflow/agent/autonomy.py:296-358 | the log of any run, under the numbers its entries were emitted with, passes the checker and is already in total order |
| `AuditTrail.EnvelopesSay` | packages/twinflow-agent/src/twinflow/agent/autonomy.py:336-355 | each event of a run is the entry at its place, under the id made of run, producer and place |
| `AuditTrail.ElevationNeedsLiveGrant` | packages/twinflow-agent/src/twinflow/agent/autonomy.py:395-421 | a tier other than the default is readable only under an unexpired grant, and is that grant's |
| `AuditTrail.ElevationEndsByQuestions` | packages/twinflow-agent/src/twinflow/agent/autonomy.py:540-548 | with no further approval, elevation is over after the granted number of questions, whatever else happens |
| `AuditTrail.ElevationEndsByTime` | packages/twinflow-agent/src/twinflow/agent/autonomy.py:593-601 | with no further approval, nothing elevated is readable at or after the expiry instant |
| `AutonomyGate.AuthorizedIff` | packages/twinflow-agent/src/twinflow/agent/autonomy.py:411-432 | a call is answered, with the tier held, exactly when the tool needs L1, or L3 is held, or L2 is both held and needed; held is the tier of an unexpired grant that names the tool, else the default |
| `AutonomyGate.CallsFollowTheLog` | packages/twinflow-agent/src/twinflow/agent/autonomy.py:411-432 | in any run the answer is read off the log: its live decision, the instant and the scope |
| `AutonomyGate.ElevatedCallIff` | packages/twinflow-agent/src/twinflow/agent/autonomy.py:411-432 | in any run a call that needs more than the default tier is answered exactly when the log shows a live, unexpired decision of that session, with the tool in scope and a tier at least the one needed |
| `AutonomyGate.ChangeRecordedIff` | packages/twinflow-agent/src/twinflow/agent/autonomy.py:550-591 | a change is recorded exactly when the gate is covered, its digests and reason are in order and a tier above L1 is not the default; and then under the tier held and the live authority |
| `AutonomyGate.ElevatedChangeIff` | packages/twinflow-agent/src/twinflow/agent/autonomy.py:550-591 | in any run a change whose gate needs more than the default tier is recorded exactly when the log shows such a decision and its fields are in order |
| `AutonomyGate.InstalledIff` | packages/twinflow-agent/src/twinflow/agent/autonomy.py:461-515 | an approval installs its grant, unused, exactly when it is for this session, none is live, and its tier, questions and instant are within the limits; refused, it leaves a live grant alone |
| `AutonomyGate.RequestIsRecorded` | packages/twinflow-agent/src/twinflow/agent/autonomy.py:434-459 | a request is recorded with the tier held at that instant and leaves a live grant as it is |
| `AutonomyGate.RefusalIsRecordedIff` | packages/twinflow-agent/src/twinflow/agent/autonomy.py:517-534 | a refusal is recorded exactly when a human makes it, and decides nothing |
| `AutonomyGate.EndingsAreNamed` | packages/twinflow-agent/src/twinflow/agent/autonomy.py:593-612 | an end of a grant names it and its cause: revoked exactly by a revocation, by time at or after its instant, by count at its last question |
| `AutonomyGate.GrantLastsIff` | packages/twinflow-agent/src/twinflow/agent/autonomy.py:540-601 | with no further approval a grant is live after a run exactly when it was not revoked, fewer questions were asked than it allows, and its instant has not come |
| `Formats.ToolNamesAre` | packages/twinflow-agent/src/twinflow/agent/autonomy.py:60-63 | a tool is named by a lower-case letter and then such letters, digits and underscores; * names none |
| `TagReads.NewRead` | packages/twinflow-sensors/src/twinflow/sensors/portal.py:97-122 | a read is constructed exactly from a 96-bit identifier, a port from 1, a negative level, a phase within a turn and a count from 1 |
| `TagReads.EpcsAre` | packages/twinflow-sensors/src/twinflow/sensors/portal.py:97-122 | an identifier is 24 upper-case hexadecimal digits |
| `TagReads.FilterAcceptsIffItCanMatch` | packages/twinflow-sensors/src/twinflow/sensors/portal.py:137-161 | a prefix is accepted exactly when, stripped, it is not empty and some legal identifier starts with it |
| `TagReads.NextRead` | packages/twinflow-sensors/src/twinflow/sensors/portal.py:296-329 | folding one more read keeps the aggregate the exact count, extremes, weighted mean, first and last instant of its reads |
| `TagReads.SummaryUnique` | packages/twinflow-sensors/src/twinflow/sensors/portal.py:296-329 | only one aggregate summarises given reads, whatever their order |
| `Inventory.InventoryIsTheFold` | packages/twinflow-sensors/src/twinflow/sensors/portal.py:238-262 | after any offers the tracked tags are the first distinct matching ones up to the cap, the dropped are the others in order, and each (tag, antenna) entry summarises exactly its reads |
| `Inventory.CountersHold` | packages/twinflow-sensors/src/twinflow/sensors/portal.py:245-258 | the two counters are the reads that did not match and the reads of dropped tags |
| `Inventory.Conservation` | packages/twinflow-sensors/src/twinflow/sensors/portal.py:238-262 | offered reads are accumulated, dropped or filtered, once each; dropped and tracked tags are disjoint; the cap holds |
| `Inventory.TotalsAreOfTheTaken` | packages/twinflow-sensors/src/twinflow/sensors/portal.py:277-293 | sums over the entries count each accumulated read once |
| `Inventory.OrderFreeIffBelowTheCap` | packages/twinflow-sensors/src/twinflow/sensors/portal.py:264-293 | every permutation of the reads gives the same aggregates exactly when the matching tags number at most the cap, and then the same mean |
| `Inventory.AboveTheCapOrderMatters` | packages/twinflow-sensors/src/twinflow/sensors/portal.py:251-259 | above the cap some permutation publishes other aggregates |
| `Portal.InventoryAccumulator.Offer` | packages/twinflow-sensors/src/twinflow/sensors/portal.py:238-262 | the dictionaries stay those of all offers so far, and the answer says whether the tag is tracked |
| `Portal.InventoryAccumulator.Aggregates` | packages/twinflow-sensors/src/twinflow/sensors/portal.py:264-275 | every entry, ordered by tag and antenna, as a function of the offers alone |
| `Portal.InventoryAccumulator.TotalReads` | packages/twinflow-sensors/src/twinflow/sensors/portal.py:277-278 | the total is the summed counts of the accumulated reads |
| `Portal.InventoryAccumulator.MeanRssiDbm` | packages/twinflow-sensors/src/twinflow/sensors/portal.py:280-293 | the mean of running means is the weighted mean of the accumulated reads, and missing without any |
| `Portal.NewAccumulator` | packages/twinflow-sensors/src/twinflow/sensors/portal.py:200-214 | a cap below one is refused |
| `Portal.PortalReader.Observe` | packages/twinflow-sensors/src/twinflow/sensors/portal.py:469-487 | a read below sensitivity changes nothing; any other is offered, and only an accumulated one moves the remembered instant |
| `Portal.PortalReader.Telemetry` | packages/twinflow-sensors/src/twinflow/sensors/portal.py:498-516 | the window published is a function of everything the reader was shown |
| `Portal.WindowCounts` | packages/twinflow-sensors/src/twinflow/sensors/portal.py:498-516 | of the distinct tags seen in the zone, strong enough and with the prefix, the window counts those up to the cap as unique and the others as dropped; it has a mean exactly if it saw one |
| `Portal.NewReader` | packages/twinflow-sensors/src/twinflow/sensors/portal.py:366-388 | a reader exists exactly for a configuration none of whose checks fails, and the first failure is the one reported |
| `Portal.ConfigurationsAre` | packages/twinflow-sensors/src/twinflow/sensors/portal.py:366-388 | which configurations make a reader, and which refusal the others meet first |
| `Portal.LastReadIs` | packages/twinflow-sensors/src/twinflow/sensors/portal.py:483-487 | the remembered instant is that of the latest observation of a tag that is tracked at the end |
| `Portal.SilentIff` | packages/twinflow-sensors/src/twinflow/sensors/portal.py:332-346 | silence is reported exactly for a reachable reader whose latest read of a tracked tag is older than the threshold, and unreachability exactly otherwise unreachable |
| `Portal.QuietIsReportedIffItEverRead` | packages/twinflow-sensors/src/twinflow/sensors/portal.py:489-496 | a reader that has read nothing of late is reported exactly if it ever read a tracked tag |
| `Portal.SilentReadersReadNothing` | packages/twinflow-sensors/src/twinflow/sensors/portal.py:489-496 | no reader is called silent while it reads tracked tags |
| `Portal.NeverReadIsNeverSilent` | packages/twinflow-sensors/src/twinflow/sensors/portal.py:489-496 | a reader shown any observations of which none is of a tracked tag is never called silent, at any later instant |
| `Portal.TurnedReadsDoNotBreakTheSilence` | packages/twinflow-sensors/src/twinflow/sensors/portal.py:483-487 | reads of tags the cap or the filter turns away leave the fault as it was |
| `StreamNames.ReplaceFills` | packages/twinflow-rng/src/twinflow/rng/registry.py:116-125 | one text replacement fills exactly the placeholders of that key |
| `StreamNames.ResolveIsSimultaneous` | packages/twinflow-rng/src/twinflow/rng/registry.py:116-125 | replacing placeholders one after another, in any order, is filling all at once |
| `StreamNames.NamePieces` | packages/twinflow-rng/src/twinflow/rng/registry.py:22-28 | in a legal name every placeholder is a whole segment, and none is in the version |
| `NameGrammar.NamesAre` | packages/twinflow-rng/src/twinflow/rng/registry.py:22-28 | the names accepted are exactly two or more segments with dots between them, each a key or a key in braces, then perhaps a version that starts with no zero, and perhaps a last newline |
| `StreamNames.AddressesAreInjective` | packages/twinflow-rng/src/twinflow/rng/registry.py:107-125 | two argument maps give one address exactly when they are equal |
| `StreamNames.AddressKeepsShape` | packages/twinflow-rng/src/twinflow/rng/registry.py:30-35 | an address has as many segments as its name and the same version suffix |
| `Formats.EntityIdsAre` | packages/twinflow-rng/src/twinflow/rng/registry.py:30-35 | an entity id has 1 to 64 letters of either case, digits, underscores and hyphens |
| `NameOverlap.CollideIffOverlap` | packages/twinflow-rng/src/twinflow/rng/registry.py:22-125 | two declared names can resolve to one address exactly when they have as many segments, one version (but for a newline at the end of one of them, which a last placeholder must take up), and what faces each other position by position can be made equal; a condition on the two names alone |
| `StreamNames.TwoNamesCanShareAnAddress` | packages/twinflow-rng/src/twinflow/rng/registry.py:97-132 | two different legal names, one of them without a placeholder, resolve to one address |
| `Registry.StreamRegistry.Register` | packages/twinflow-rng/src/twinflow/rng/registry.py:74-91 | a legal new name below the ceiling is appended with its marker; anything else is refused and changes nothing |
| `Registry.AcceptedIff` | packages/twinflow-rng/src/twinflow/rng/registry.py:74-91 | below the ceiling a registration is accepted exactly if its name is legal and nobody asked for it before; at the ceiling none is |
| `Registry.StreamRegistry.Get` | packages/twinflow-rng/src/twinflow/rng/registry.py:97-132 | the answer or the first refusal in order; declarations never change |
| `Registry.StreamRegistry.HandoutCounts` | packages/twinflow-rng/src/twinflow/rng/registry.py:134-147 | the names handed out in sorted order, each with its count over the run |
| `Registry.AfterHolds` | packages/twinflow-rng/src/twinflow/rng/registry.py:63-91 | over any run names are distinct, legal and within the ceiling, and only live names have handouts |
| `Registry.DeclaredForever` | packages/twinflow-rng/src/twinflow/rng/registry.py:3-5 | no continuation of a run loses, moves or redefines a declared name |
| `Registry.CatalogIsTheRegistrations` | packages/twinflow-rng/src/twinflow/rng/registry.py:74-91 | a name is declared with a marker exactly when some registration of it was accepted with that marker |
| `Registry.CountsFaithfulIff` | packages/twinflow-rng/src/twinflow/rng/registry.py:127-132 | counts are the successful requests in every run exactly when both seeds fit in 64 bits |
| `Registry.AnsweredIff` | packages/twinflow-rng/src/twinflow/rng/registry.py:97-132 | exactly which requests are answered: live name, exactly its keys, legal entity ids, seeds in range |
| `Registry.RefusalsAre` | packages/twinflow-rng/src/twinflow/rng/registry.py:97-132 | every refusal is for the reason it gives, and names exactly the keys it is about, in order |
| `Registry.AnswersAreStable` | packages/twinflow-rng/src/twinflow/rng/registry.py:97-132 | an answered request is answered the same way after any continuation |
| `Registry.RetiredForever` | packages/twinflow-rng/src/twinflow/rng/registry.py:103-105 | a retired name is refused for good |
| `Registry.NameAndSelfAreNeverAnswered` | packages/twinflow-rng/src/twinflow/rng/registry.py:97 | a name with a placeholder called name or self is never answered |
| `Registry.StreamsAreDistinct` | packages/twinflow-rng/src/twinflow/rng/registry.py:97-132 | two answered requests to one name get the same stream exactly when their arguments agree |
| `Registry.StreamsTellRequestsIff` | packages/twinflow-rng/src/twinflow/rng/registry.py:97-132 | in any run, answered requests that differ in name or arguments always get different streams exactly when no two of the live declared names overlap |
| `Segmentation.CheckNetworks` | scripts/checks/compose-segmentation-gate.py:140-179 | rule 4 on the networks section, with the shapes that end in an exception |
| `Segmentation.CheckService` | scripts/checks/compose-segmentation-gate.py:187-272 | the findings of one service in order, and whether it crosses |
| `Segmentation.CheckServices` | scripts/checks/compose-segmentation-gate.py:181-272 | the findings of all services in sorted order, and the crossers |
| `Segmentation.CheckDocument` | scripts/checks/compose-segmentation-gate.py:133-293 | the findings of a document, in order, or the exception |
| `Segmentation.CleanIff` | scripts/checks/compose-segmentation-gate.py:133-293 | no finding exactly when ot is internal beside it, each service that is a mapping obeys the rules, and one service crosses |
| `Segmentation.ServiceReportedIff` | scripts/checks/compose-segmentation-gate.py:187-272 | for each rule, exactly when it is reported of a service, and that service is the one named |
| `Segmentation.ReportedIff` | scripts/checks/compose-segmentation-gate.py:133-293 | exactly what is reported of a document: per service, of the ot network, and of the file |
| `Segmentation.SectionsAre` | scripts/checks/compose-segmentation-gate.py:133-140 | a section that is missing, empty, zero or false counts as an empty mapping |
| `Segmentation.TextsAre` | scripts/checks/compose-segmentation-gate.py:104-130 | the texts of missing, true and false values |
| `Segmentation.AttachedIs` | scripts/checks/compose-segmentation-gate.py:104-117 | the networks of a service, in each of the forms it may list them |
| `Segmentation.RoleIs` | scripts/checks/compose-segmentation-gate.py:120-130 | the role of a service, from a mapping or from the first text of a list that names one |
| `Segmentation.CleanMeansOneGateway` | scripts/checks/compose-segmentation-gate.py:10-18 | a silent run means one crosser, a broker off the dmz, and every chain of shared networks from outside ot to a device passes it, whatever services the gate skips |
| `Segmentation.EntryCrosses` | scripts/checks/compose-segmentation-gate.py:222-235 | any chain that enters ot does so through a crosser |
| `Segmentation.CrashesIff` | scripts/checks/compose-segmentation-gate.py:140-158 | exactly which networks sections end the gate in an exception |
| `Mermaid.RenderMermaid` | tools/roadmap/src/twinflow_roadmap/graph.py:54-73 | the drawing, or an exception exactly when an id that is drawn is empty |
| `Mermaid.DrawCrossing` | tools/roadmap/src/twinflow_roadmap/graph.py:67-72 | one phase's dotted lines: its dependencies less the one the release order draws |
| `Mermaid.CrossingIs` | tools/roadmap/src/twinflow_roadmap/graph.py:67-72 | a dotted edge is drawn exactly for a declared dependency that is not the step before |
| `Mermaid.ADrawing` | tools/roadmap/src/twinflow_roadmap/graph.py:54-78 | one drawing written out line by line |
| `Mermaid.ParseMermaid` | tools/roadmap/src/twinflow_roadmap/graph.py:81-101 | the graph read line by line: nodes, solid chains and dotted edges |
| `Mermaid.CommentsAreIgnored` | tools/roadmap/src/twinflow_roadmap/graph.py:84-91 | comments and lines of blanks change nothing |
| `MermaidText.SplitJoined` | tools/roadmap/src/twinflow_roadmap/graph.py:73-84 | splitting joined one-line texts gives them back |
| `MermaidText.NodeReads` | tools/roadmap/src/twinflow_roadmap/graph.py:38-88 | a drawn node line matches the node pattern with its key and its label |
| `MermaidText.SolidReads` | tools/roadmap/src/twinflow_roadmap/graph.py:40-100 | a drawn solid line holds no dotted edge and splits into its two ends |
| `MermaidText.DottedReads` | tools/roadmap/src/twinflow_roadmap/graph.py:41-95 | a drawn dotted line is read with its ends and its caption |
| `Mermaid.ParseOfRender` | tools/roadmap/src/twinflow_roadmap/graph.py:54-101 | reading a legible drawing, character by character, gives its nodes, labels and the edges that leave a key not beginning with graph |
| `Mermaid.PhasesComeBackIff` | tools/roadmap/src/twinflow_roadmap/graph.py:54-101 | beside declared dependencies, the phases come back exactly when no two ids share a key, each key is a word, and each label is one line without a quote |
| `Mermaid.QuotedNamesDoNotComeBack` | tools/roadmap/src/twinflow_roadmap/graph.py:54-101 | a phase whose name holds a quote is drawn and its drawing does not read back |
| `Mermaid.RoundTripIff` | tools/roadmap/src/twinflow_roadmap/graph.py:54-101 | phases, release order and crossing dependencies all come back exactly when the drawing is legible in that sense and no edge leaves a key that begins with graph |
| `MermaidChains.ChainRead` | tools/roadmap/src/twinflow_roadmap/graph.py:39-101 | what a chain line of any length, with links of either kind and any captions, is read as: all its edges if its links are arrows; otherwise one dotted edge from all the text before the first dotted link to all the text after the last, under the first caption; nothing if its first key begins with graph |
| `MermaidChains.ChainComesBackIff` | tools/roadmap/src/twinflow_roadmap/graph.py:39-101 | a chain line gives back its own consecutive edges exactly when its links are all arrows or it has one link, and its first key does not begin with graph |
| `MermaidChains.DottedChainsCollapse` | tools/roadmap/src/twinflow_roadmap/graph.py:39-96 | a chain of dotted links, of any length, is read as one edge from its first node to its last |
| `GraphLint.MatchNodes` | tools/roadmap/src/twinflow_roadmap/graph.py:129-145 | nodes are matched to phases by the one release tag in their label, and the others reported |
| `GraphLint.CheckDotted` | tools/roadmap/src/twinflow_roadmap/graph.py:183-203 | a finding for each dotted edge with an unmatched end or without a dependency behind it |
| `GraphLint.GatherEdges` | tools/roadmap/src/twinflow_roadmap/graph.py:205-210 | the matched edges as a graph over the phases |
| `GraphLint.GraphLint` | tools/roadmap/src/twinflow_roadmap/graph.py:110-212 | all findings of a document, in order |
| `GraphLint.FindingsAre` | tools/roadmap/src/twinflow_roadmap/graph.py:128-240 | exactly which nodes, phases, edges and cycles of a diagram are reported; an edge is backed by a dependency or by a requirement placed in its source |
| `GraphLint.RequirementsBackEdges` | tools/roadmap/src/twinflow_roadmap/graph.py:215-228 | an edge to a phase that requires something a package of its source covers draws no finding |
| `GraphLint.BlockIsExtracted` | tools/roadmap/src/twinflow_roadmap/graph.py:104-107 | the diagram that is checked is the text between the first opening mark and the first closing mark after it |
| `GraphLint.NothingToCheckIff` | tools/roadmap/src/twinflow_roadmap/graph.py:110-126 | a missing document or block is reported exactly then, and alone |
| `GraphLint.AcyclicIffForward` | tools/roadmap/src/twinflow_roadmap/graph.py:205-240 | beside the release order, the union is acyclic exactly when every dotted edge goes forward in it |
| `GraphLint.SilentIff` | tools/roadmap/src/twinflow_roadmap/graph.py:9-19 | silence exactly when nodes and phases match, the solid edges between nodes are the release order, and each dotted edge is backed and goes forward; so the union is acyclic |
| `GraphLint.UndeclaredSolidEdgesAreIgnored` | tools/roadmap/src/twinflow_roadmap/graph.py:159-163 | a solid edge with an end that is no node changes no finding |
| `GraphLint.SilentDrawsOrderIff` | tools/roadmap/src/twinflow_roadmap/graph.py:159-182 | the solid edges of a silent diagram, all of them, are the release order exactly when both ends of each are nodes |
| `DrawnLint.LintOfDrawingIff` | tools/roadmap/src/twinflow_roadmap/graph.py:54-212 | on the tool's own drawing with distinct tags, one in each label, the lint is silent exactly when no release step leaves a key beginning with graph and every crossing dependency read leads from the key of an earlier phase to a later one |
| `DrawnLint.DeclaredPointsForwardIff` | tools/roadmap/src/twinflow_roadmap/graph.py:205-210 | for a declared dependency that means its phase stands earlier in the release order |
| `DrawnLint.EarlierDependenciesAreSilent` | tools/roadmap/src/twinflow_roadmap/graph.py:54-212 | with dependencies on earlier phases and no such key the lint is silent |

## Left out

- Git, `gh`, `uv`, HTTP, MQTT and file reading: what they return is a parameter, and `gh` is a tracker whose reads, where they succeed, are complete and whose milestones and issues are named by their position.
- `Sync.PlanIssue`: listings come newest first, so the dictionary by title keeps the oldest entry; another listing order matters only where a title repeats.
- `Sync.BuildPlan`: the generated titles and bodies are functions of the phase or package, and label texts hold no comma. A failed read is told from another by how far it lets the plan get.
- `Sync.Repository.ApplyPlan`: GitHub's own refusals are those of a missing label, milestone, number or a duplicate label.
- Messages, line numbers and file names of findings: rule ids and the data that triggers them are kept.
- The YAML and TOML loaders and pydantic's shape errors, except the validators of grants, attributions, reads and configurations.
- BLAKE2b and numpy: the model ends at the bytes a digest is fed and at the address and seeds a generator is derived from.
- `EventLog.FeedDigest`: floats in payloads are texts, so NaN and infinities do not occur, and `compare_runs` is not modelled.
- `Decimals.PrintIsDecimal`: the cap of 40 characters on a decimal string, and the overflow of a datetime, are not modelled.
- `Json.LoadsRender`: a string holds no lone surrogate, which the character type here does not have.
- `Cursor.DecodeOfEncode`: lone surrogates, bytes outside ASCII in a cursor text and integers beyond Python's digit limit are not modelled on the decoding side.
- `Commands.ValidateCommand`: a digit in a command id is an ASCII digit, where the source's pattern takes any Unicode digit.
- `GraphLint.MatchNodes`: a digit in a release tag is an ASCII digit.
- `AuditTrail.TrailReconstructsAuthority`: sessions that share a log have different ids, and the clock never goes back.
- `Portal.PortalReader.Telemetry`: publishing under a namespace prefix needs the UNS path type, which is not part of this model; the read-rate draw is left out with it.
- `Portal.InventoryAccumulator.MeanRssiDbm`: means are real numbers, so float rounding, the one thing that could still depend on the order, is not captured.
- `Registry.StreamRegistry.Get`: arguments that are not strings are not modelled.
- `Segmentation.CheckDocument`: mapping keys are strings, and the broker configuration parser of rule 5 is left out.
- `Mermaid.RenderMermaid`: letters outside ASCII do not count as alphabetic when a key is chosen; keys with them are not legible either way.
- The remaining gates (prose, spelling, licenses, SBOM, docs, release), the API routes and pages, the EWMA sensor, the version comparison and the tool registry: correct but easy, or text scans.
