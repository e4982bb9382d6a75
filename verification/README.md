# Anubis: a model and its proofs

Dafny models of the parts of Anubis that decide access, keep its tables, and print its enrolment
symbols, with proofs of what they are for. Each module opens with what it models.

**The scope hierarchy and the decision.** `ScopeTree`, `ScopeClosure` and `ScopeStore` hold the
tables `scope_nodes` and `scope_closure` and the routines that write them; `ScopeIndex` is the
gate's own form, one parent pointer a node; `ScopeLevels` is the guard on the levels items stand
under. `Catalog` is `authorize()`, `Snapshot` is the gate's `Evaluate`, and `Parity` shows that in
every database a history of changes can reach the two give one answer; `SnapshotLoad` builds such a
snapshot from any database. `Decision` says the same decision, its reasons and the pins of columns and
tree alone. `Explain` takes `authorize_explain` apart, `GrantedNodes` and `OpenAxis` leave one axis open and show that the list
served is what `Evaluate` would allow, place by place.

**Routines that keep tables.** `ScopeSync` and `ScopeConverge` are the feed reconciliation and why
it converges; `Membership`, `MembershipRuns` and `MembershipStore` the fan-out of memberships into
grants, and `MembershipDecision` what that comes to in `authorize()`; `TenantTree` the guard on the
tree of companies, shown to accept exactly what it should.

**The QR encoder** (`qr/`). `Gf256` and `ReedSolomon` are the field and the division, `RsDistance`
what the check codewords buy, `BitStream` and `Codewords` the data half and its interleaving,
`Zigzag`, `Patterns`, `Room`, `Placement` and `Masking` the grid, `Penalty` the choice of a mask, and
`Symbol` the whole: a reader that sees only the modules gets the payload back. `Printed` holds the
standard's tables and pictures against what is drawn, `FormatReader` what its format code makes of
either copy. It follows sections 7.4 to 7.10 and annexes C and D
of ISO/IEC 18004:2015 for byte mode at level M, versions 1 to 10.

**State over time and text.** `RefreshTokens` interleaves the steps of operator refresh and logout;
`Freshness` is the snapshot manager; `Revocation` the broker and the deltas, and `Announcements` what
a listener learns of the snapshots swapped while it listens; `RateLimit` the token bucket;
`RoutePath` path normalising, `PathBytes` its bytes; `Yaml` and `YamlConfig` the configuration file,
printed and parsed, `YamlScalars` its values and `YamlLines` the line an error names. `Prelude` and `Segments` are shared vocabulary.

Objects whose methods change fields are classes here, loops are loops, and each method is shown to
compute a function or relation that the lemmas then speak about. A routine that raises leaves the
state as it was.

## Where the code and what is said of it differ

The model follows the code.

- `CoveredBy` says that running out of steps denies; it returns what the includes seen so far say
  (internal/gate/snapshot/scope_index.go:162). Without an exclude in the set that is a denial; with
  one it allows exactly when some include covers the target and no exclude does:
  `ScopeIndex.RunningOutAllowsIff`, and `ScopeIndex.RunningOutCanAllow` for an input.
- The manager promises that nothing is served that was not rebuilt within the maximum age
  (internal/gate/app/manager.go:68-72); a re-stamp just before that age allows almost twice as much:
  `Freshness.BoundIsMet`. The promise holds of a tenant exactly when the last load to take effect was a
  rebuild: `Freshness.PromiseKeptIff`.
- A replayed refresh token kills its family (internal/control/app/platform_auth_interactor.go:450-455)
  unless another call has consumed the family's token and not yet written the next one:
  `RefreshTokens.RevocationIsFinalIff`; two refreshes of one token get there:
  `RefreshTokens.RevocationCanLose`.
- The limiter's tokens can go below zero, since the clock is read before the lock is taken:
  `RateLimit.RangeIff`. The bound on what is let through holds all the same.
- The limiter answers how long until a token appears (internal/platform/ratelimit/limiter.go:47-48),
  cut down to whole nanoseconds; waiting exactly that long is enough only if nothing was cut off:
  `RateLimit.ToldIsEnoughIff`.
- `external_ref` is called the idempotency key of a sync (docs/schema.md:229). A row without a name is
  accepted while it moves its node, and the same feed raises on the next run; with a name in every row
  a feed does settle: `ScopeConverge.Converges`, `ScopeConverge.NamelessRowPassesOnce`.
- A setting with a newline is printed into a file that cannot be read back:
  `YamlConfig.RoundTripIff`.
- `nodeKey` is shown to tell places apart for ids without its own punctuation, as uuids are
  (`GrantedNodes.NodeKeyInjective`); `GrantedNodes.KeyNeedsPlainIds` is one collision without that.
- The format information is written twice because either copy must say which mask was used
  (internal/platform/qr/mask.go:149-151). The copy at the upper left is written with its axes exchanged
  (internal/platform/qr/mask.go:156-164), so that section 7.9.1 of ISO/IEC 18004:2015 finds the word
  backwards: under every mask it is taken for another level or mask, `FormatReader.FirstCopyIsMisread`.
  The divided copy is always right, `FormatReader.SecondCopyIsRead`, so the promise holds of a reader
  exactly when it reads that one. The reader in `Symbol` does.
- A parser error is said to name the line it was found on. A line the scan refuses is named even where
  an earlier one is bad; otherwise the first bad line is named: `YamlLines.ErrorNamesALine`,
  `YamlLines.EarlierMayBeBad`.
- The dark module is said to need drawing after the format reservations
  (internal/platform/qr/matrix.go:108-110); the loop before it stops one short, and no format
  bit falls on it: `Symbol.DarkModuleIsDark`.

## Model

| member | source | states |
|---|---|---|
| ScopeClosure.EveryRunIsSound | internal/platform/schema/routines.go:483-591 | after any sequence of root creations, adds, moves and relabellings, refused ones included, the closure holds exactly the triples (a, d, k) where a is the k-th parent of d, the parent relation has no cycle, no depth passes 32767, and every row and every two rows stand in their columns |
| ScopeClosure.ExactIsUnique | internal/platform/schema/routines.go:483-591 | the closure is determined by the tree: two exact closures of one tree are equal |
| ScopeClosure.NoCycle | internal/platform/schema/routines.go:548-591 | a tree with an exact closure has no cycle, and two nodes are related at one depth only |
| ScopeClosure.GraftIsNew | internal/platform/schema/routines.go:574-586 | the rows a move inserts never share a key with the rows its delete left |
| ScopeClosure.MoveKeepsExact | internal/platform/schema/routines.go:548-591 | delete-then-graft leaves exactly the closure of the tree with the node under its new parent |
| ScopeClosure.MoveKeepsSound | internal/platform/schema/routines.go:548-591 | an allowed move keeps tree and closure sound and changes one parent pointer |
| ScopeClosure.MoveRefusals | internal/platform/schema/routines.go:548-591 | when a move is refused and for what: under the node's own subtree exactly, or exactly when the deepest grafted row would not fit |
| ScopeClosure.DeepestPair | internal/platform/schema/routines.go:558-572 | the sum of two maxima the routine tests exceeds the bound exactly when some grafted row would |
| ScopeClosure.AddKeepsSound | internal/platform/schema/routines.go:483-514 | a new leaf copies its parent's ancestors one deeper and itself at 0, and the closure stays exact |
| ScopeClosure.RootKeepsSound | internal/platform/schema/routines.go:515-544 | where the axis has a root nothing changes and it is the answer; where it has none exactly one node is added, active, without parent or reference, with slug _root, the code of a level of that axis without legal parents and that level's display name; the tree stays sound |
| ScopeClosure.RelabelKeepsSound | internal/platform/schema/routines.go:592-703 | renaming or archiving a node leaves the closure exact |
| ScopeTree.RootIsOne | internal/platform/schema/routines.go:515-544 | a tenant's axis has at most one root |
| ScopeTree.NodesOkMeans | internal/platform/schema/model.go:1507-1527 | the tables stand exactly when every row's level is one of its axis, lies under a level it may lie under and has a slug, siblings' slugs differ, an axis has one root and a reference one node |
| ScopeClosure.RootNeedsLevel | internal/platform/schema/routines.go:527-532 | ensuring a root fails for want of a level exactly when there is no root and no level of the axis without legal parents |
| ScopeClosure.StepWrites | internal/platform/schema/routines.go:483-703 | what each accepted edit writes, column by column, and that a refused one writes nothing |
| ScopeClosure.AddRefusals | internal/platform/schema/routines.go:488-511 | an insert is refused for depth exactly when some ancestor would end more than 32767 above it, and otherwise exactly when its id is taken or the tables would not stand |
| ScopeLevels.GuardIsExact | internal/platform/schema/routines.go:992-1071 | the guard on the level table accepts an edit that keeps each level what it is exactly when the levels left are legal with one top and every item still meets its level's rules |
| ScopeLevels.EveryRunKeepsPlacement | internal/platform/schema/routines.go:971-1071 | after any sequence of tree edits and level edits every item stands under one its level may stand under, a structure has one top, and the closure is the tree's |
| ScopeLevels.RowsAfterChange | internal/platform/schema/routines.go:1050-1068 | removing a rule leaves every item placed exactly when no item relies on a rule removed |
| ScopeStore.Store.constructor | internal/platform/schema/routines.go:483-591 | the tables start empty and sound |
| ScopeStore.Store.AddNode | internal/platform/schema/routines.go:483-514 | the insert and the closure rows, statement by statement, with the refusals; a refused one changes nothing |
| ScopeStore.Store.EnsureRoot | internal/platform/schema/routines.go:515-544 | returns the root it finds or makes; raises when the axis has no top level |
| ScopeStore.Store.MoveNode | internal/platform/schema/routines.go:548-591 | the two probes, the delete, the graft and the new parent; a refused move changes nothing |
| ScopeStore.Store.Relabel | internal/platform/schema/routines.go:592-703 | writes a name and a status and keeps the tables sound |
| ScopeIndex.NewScopeIndex | internal/gate/snapshot/scope_index.go:52-82 | every id gets the index of its last row, and every parent pointer the index of the row it names or -1 |
| ScopeIndex.Intern | internal/gate/snapshot/scope_index.go:97-103 | each constraint of a known node gets its dense index, the others are left unresolved, in place |
| ScopeIndex.CoveredBy | internal/gate/snapshot/scope_index.go:120-163 | for every parent array, cyclic ones too: true exactly when some include covers the target and no exclude does; and when it is the step bound that ends the walk |
| ScopeIndex.WalkIsShort | internal/gate/snapshot/scope_index.go:135-162 | whatever is met on the way up is met within as many steps as there are nodes, so the step bound loses nothing |
| ScopeIndex.CoverIsShort | internal/gate/snapshot/scope_index.go:135-162 | a constraint that covers the target at all hits within the step bound |
| ScopeIndex.Vetoed | internal/gate/snapshot/scope_index.go:120-163 | one exclude met anywhere on the way up denies, whatever the includes say |
| ScopeIndex.OutsideIsDenied | internal/gate/snapshot/scope_index.go:120-128 | an unresolved target is denied |
| ScopeIndex.RunningOutAllowsIff | internal/gate/snapshot/scope_index.go:145-162 | a walk that never leaves the array and runs out of steps denies whenever the set holds no exclude, and allows exactly when it holds one, some include covers the target and no exclude does |
| ScopeIndex.RunningOutCanAllow | internal/gate/snapshot/scope_index.go:145-162 | an input for which it runs out and allows: a node that is its own parent, included, beside an unresolved exclude |
| ScopeIndex.LongIsEndless | internal/gate/snapshot/scope_index.go:145-162 | a walk that takes as many steps as there are nodes never ends |
| Catalog.MinCaseMeaning | internal/platform/schema/routines.go:60-90 | the min over CASE is 1 exactly when some include covers the target and no exclude does |
| Catalog.HistoryValid | internal/platform/schema/routines.go:25-104 | every database a history of committed changes, level edits included, reaches satisfies the declared constraints and has an exact closure |
| Parity.WalkIsUp | internal/gate/snapshot/scope_index.go:120-163 | k steps up the parent array are k parents in the table |
| Parity.CoverageAgrees | internal/gate/snapshot/scope_index.go:120-163 | for one place and one target, the join on the closure and the pointer walk agree |
| Parity.AxisAgrees | internal/gate/snapshot/evaluator.go:65-82 | for one axis of one grant, the grouped SQL rows and the frozen constraints give one answer |
| Parity.GrantAgrees | internal/gate/snapshot/evaluator.go:18-63 | for one grant, validity, role, self test, named and strict axes agree between the engines |
| Parity.ShareAgrees | internal/gate/snapshot/share.go:17-24 | the record-share half of the decision agrees between the engines |
| Parity.GatesOutrank | internal/gate/snapshot/evaluator.go:18-40 | where the identity or permission gate fails, authorize() allows nothing either |
| Parity.EnginesAgree | internal/gate/snapshot/evaluator.go:18-91 | on the snapshot of a valid database, Evaluate answers exactly what authorize() answers, for all identities, permissions, targets and times from the load on |
| Parity.EnginesNeverDisagree | internal/platform/schema/routines.go:25-104 | the same for every database any history of committed changes reaches |
| Decision.AxisMeaning | internal/platform/schema/routines.go:60-90 | on an axis a grant lets through exactly when one of its includes is at or, inheriting, above the target in the tree and none of its excludes is |
| Decision.AuthorizeMeans | internal/platform/schema/routines.go:25-104 | authorize() said of columns and tree alone: the person is of the tenant, active, not disabled and not anonymised, the permission is in use and its assurance met, and an unrevoked grant begun and not over, or a share of the record, allows it |
| Decision.EvaluateMeans | internal/gate/snapshot/evaluator.go:18-91 | the same sentence of Evaluate, on the snapshot loaded from any database a history reaches |
| SnapshotLoad.LoadScope | internal/gate/adapter/postgres/snapshot_repository.go:76-87 | the rows of one tenant, in any order, become an index with one entry a node and its parent's |
| SnapshotLoad.LoadGrants | internal/gate/adapter/postgres/snapshot_repository.go:89-124 | each unrevoked grant is filed under its identity with its places grouped by axis and resolved, and nothing else is |
| SnapshotLoad.InternGrantScopes | internal/gate/snapshot/data.go:51-59 | every constraint of every grant is resolved, in place, and nothing else changes |
| SnapshotLoad.LoadSnapshot | internal/gate/adapter/postgres/snapshot_repository.go:19-201 | every valid database loads, for every tenant, into a faithful copy; so the agreement above is about something |
| Explain.FoldsAgree | internal/platform/schema/routines.go:105-274 | on one axis, a pair of bool_or folds and the min over CASE agree |
| Explain.AxesFoldsAgree | internal/platform/schema/routines.go:105-274 | the same over all axes of a grant |
| Explain.CandidateSplits | internal/platform/schema/routines.go:105-274 | authorize()'s candidates are the grants explain lists once the three gates have passed |
| Explain.ShareSplits | internal/platform/schema/routines.go:105-274 | likewise for shares |
| Explain.VerdictDecomposes | internal/platform/schema/routines.go:105-274 | allow holds exactly when the identity, permission and assurance gates hold and some listed grant or share is marked allowed |
| Explain.ScopeReasonsAreAboutPlaces | internal/platform/schema/routines.go:105-274 | a denial put down to scope passed the gates and the self test and fails a named axis of every grant listed |
| Explain.MismatchIsNotAnExclusion | internal/platform/schema/routines.go:105-274 | where the reason is a plain mismatch, no include reaches the target on some axis: an exclusion did not decide it |
| Decision.ReasonsMean | internal/platform/schema/routines.go:242-265 | for each reason, and for none, the exact condition in the columns under which a decision is put down to it |
| Decision.TakenBackMeans | internal/platform/schema/routines.go:257-264 | the exclusion reason's test, in the tree: on some axis of a grant listed an include is over the target and an exclude is too |
| GrantedNodes.NodeKeyInjective | internal/gate/snapshot/granted_nodes.go:158-172 | for ids without the key's own punctuation, equal keys are equal places: node, reach and exceptions |
| GrantedNodes.KeyNeedsPlainIds | internal/gate/snapshot/granted_nodes.go:158-172 | without that two different places share a key |
| GrantedNodes.BuildNodeKey | internal/gate/snapshot/granted_nodes.go:158-172 | the key the builder writes is the one the proofs speak of |
| GrantedNodes.OneOrder | internal/gate/snapshot/granted_nodes.go:133-157 | sorting leaves no trace of the order the rows were loaded in |
| GrantedNodes.ConstraintsToNodes | internal/gate/snapshot/granted_nodes.go:133-157 | the two passes give every include with the exceptions of the axis |
| GrantedNodes.PlacesAreTheConstraints | internal/gate/snapshot/granted_nodes.go:133-157 | a grant's constraints admit a place exactly when one of the nodes they turn into reaches it with none of its exceptions |
| GrantedNodes.NoteAll | internal/gate/snapshot/granted_nodes.go:34-66 | de-duplication by key keeps one of each and drops no key |
| GrantedNodes.GrantedNodes | internal/gate/snapshot/granted_nodes.go:20-67 | the answer is known exactly for a known identity and permission, empty when a gate fails, and otherwise says everywhere or lists what the qualifying grants name |
| OpenAxis.ListedExactly | internal/gate/snapshot/granted_nodes.go:20-67 | a place some qualifying grant names is itself in the list: de-duplication loses nothing |
| OpenAxis.ListIsEvaluate | internal/gate/snapshot/granted_nodes.go:20-67 | for every place, known or not, Evaluate allows it exactly when the list says everywhere or names a node that reaches it |
| OpenAxis.ListedOnce | internal/gate/snapshot/granted_nodes.go:34-66 | no two listed places are equal |
| OpenAxis.SameExceptionsSameKey | internal/gate/snapshot/granted_nodes.go:133-172 | the same exceptions in another order give the same sorted exceptions |
| OpenAxis.AllowedIsReached | internal/gate/snapshot/granted_nodes.go:74-96 | every known place some permission is allowed at is one Reaches accepts |
| OpenAxis.ListIsAuthorize | internal/gate/snapshot/granted_nodes.go:20-67 | the list from memory allows a place exactly when authorize() would |
| OpenAxis.OwnIsCovered | internal/gate/snapshot/granted_nodes.go:34-48 | whatever authorize() allows at a place for a record of one's own, the list allows there or says own records |
| Decision.OwnMeans | internal/gate/snapshot/granted_nodes.go:34-48 | own records is said exactly when the gates pass and a self-scoped grant in force, of a role with the permission, names every strict axis |
| Decision.PinMeans | internal/gate/snapshot/granted_nodes.go:74-96 | Reaches holds exactly when the person is in good standing, the place is of the tenant, and a grant in force, not self-scoped and naming every strict axis, is unlimited on the axis or lets the place through |
| ScopeSync.SyncRowKeepsSound | internal/platform/schema/routines.go:592-703 | one feed row, raised or not, keeps tree and closure sound |
| ScopeSync.SyncKeepsSound | internal/platform/schema/routines.go:592-703 | whatever the feed says, a whole run keeps them sound |
| ScopeSync.DryWritesNothing | internal/platform/schema/routines.go:592-703 | a dry run writes nothing |
| ScopeSync.ParentMeans | internal/platform/schema/routines.go:616-632 | the parent a row asks for: the root where it names none, the node of that reference, and in a dry run the root for one the run would have added; otherwise the row fails |
| ScopeSync.OutcomesMean | internal/platform/schema/routines.go:634-666 | what each outcome of a row leaves behind, column by column |
| ScopeSync.AddedMeans | internal/platform/schema/routines.go:638-651 | a row added leaves one active node more, with the row's reference, name and level under the parent asked for; its slug is the row's or, where a sibling has that, ends in the reference's tail |
| ScopeSync.RehearsalMeans | internal/platform/schema/routines.go:634-666 | a dry run's outcome of a row, exactly, by what stands in the tables |
| ScopeSync.SweepMeans | internal/platform/schema/routines.go:672-688 | the sweep archives the source's nodes whose reference no row has and changes nothing else |
| ScopeStore.CountersMean | internal/platform/schema/routines.go:651-669 | each counter is how often its outcome came out, and the errors are the failed rows' references and faults in order |
| ScopeStore.Store.SyncRow | internal/platform/schema/routines.go:615-669 | one row in its own block: add, move, rename or nothing, and what it raises leaves no trace |
| ScopeStore.Store.Sweep | internal/platform/schema/routines.go:672-688 | nodes the feed no longer names are archived, and only nodes that carry a reference |
| ScopeStore.Store.SyncApply | internal/platform/schema/routines.go:592-703 | the whole routine and its report, row by row |
| ScopeStore.EveryRowIsCounted | internal/platform/schema/routines.go:592-703 | every row lands in exactly one counter or in the errors |
| ScopeConverge.RowTouchesItsNode | internal/platform/schema/routines.go:615-669 | a row writes at most its own node |
| ScopeConverge.RowSettles | internal/platform/schema/routines.go:615-669 | a row that did not raise leaves its node under the parent it asked for |
| ScopeConverge.RowIsDone | internal/platform/schema/routines.go:615-669 | a row added, renamed or found unchanged leaves its node active, named as the feed has it, where the feed has it |
| ScopeConverge.FirstRunSettles | internal/platform/schema/routines.go:592-703 | after an error-free run every row of a feed with distinct references is settled |
| ScopeConverge.SettledRun | internal/platform/schema/routines.go:592-703 | over settled rows a run moves and adds nothing, and leaves the named rows it has seen done |
| ScopeConverge.DoneRun | internal/platform/schema/routines.go:592-703 | over done rows a run changes nothing and reports everything unchanged |
| ScopeConverge.Converges | internal/platform/schema/routines.go:592-703 | after one error-free run the next adds, moves and archives nothing, raises nothing exactly when every row has a name, and reports every row the first did not move as unchanged; the one after then reports every row unchanged and leaves every table as it found it |
| ScopeConverge.NamelessRowPassesOnce | internal/platform/schema/routines.go:648-664 | a tree and a feed of one nameless row that is accepted once, as a move, and raises on the next run |
| ScopeConverge.UnownedIsUntouched | internal/platform/schema/routines.go:672-688 | a node without a reference keeps its place, name and status through any run |
| MembershipRuns.EveryRunIsSound | internal/platform/schema/routines.go:302-443 | through any run of assigning, resyncing, leaving, unassigning, edits of memberships and rewrites of the people, places and guards they refer to, the tables stay sound: faithful derived grants, one unrevoked grant to a pair, one live seat, nobody out still in |
| MembershipRuns.InForceMeansAssigned | internal/platform/schema/routines.go:302-443 | in every such state a derived grant in force hangs on an assignment neither removed nor lapsed, of that person, with its end date and the entry's role |
| MembershipRuns.ResyncSettles | internal/platform/schema/routines.go:387-411 | after a resync no unrevoked grant comes from a retired entry and no current assignment misses a live entry |
| MembershipRuns.ExactlyOneEach | internal/platform/schema/routines.go:307-328 | in a settled membership each current assignment has exactly one unrevoked grant for each live entry, with the entry's role and places, the assignment's own place as an include that reaches down as the assignment does, and its end date and reason |
| MembershipRuns.AssignAnswers | internal/platform/schema/routines.go:344-367 | the four refusals in order, each exactly when, and nothing to do exactly when a live assignment of that person to that place is there |
| MembershipRuns.AssignRefuses | internal/platform/schema/routines.go:369-379 | a reference that is not there, and exactly then a refused grant: some live entry's role is refused to the person |
| MembershipRuns.AssignWrites | internal/platform/schema/routines.go:359-374 | the lapsed assignment in the seat is closed, the new one is as it was asked for and no other changes |
| MembershipRuns.AssignGives | internal/platform/schema/routines.go:376-379 | a grant for each live entry of the membership and none for anything else |
| MembershipRuns.ResyncTakesBack | internal/platform/schema/routines.go:391-396 | revokes exactly the unrevoked grants of the membership's retired entries, keeping a reason already there |
| MembershipRuns.ResyncGives | internal/platform/schema/routines.go:398-410 | adds a grant for exactly each standing assignment and live entry that had none |
| MembershipRuns.ResyncAgainIsNothing | internal/platform/schema/routines.go:387-411 | an immediate second resync returns 0 and changes nothing |
| MembershipRuns.StaysSettled | internal/platform/schema/routines.go:302-443 | a settled membership stays settled, however long and whatever is assigned or left, until its entries change |
| MembershipDecision.MembershipDecides | internal/platform/schema/routines.go:302-443 | once settled, a membership's fan-out lets a person in at a target exactly when a current assignment of theirs and a live entry call for it: the entry's places and their own reach, the strict axes are named, the role confers the permission; authorize() then allows |
| MembershipDecision.AssignedPlaceDecides | internal/platform/schema/routines.go:302-443 | a person assigned at a place through an entry without places is let in at that place, below it exactly when the assignment inherits, and nowhere else on its axis |
| MembershipDecision.GrantIsItsPlaces | internal/platform/schema/routines.go:25-104 | one derived grant lets in exactly the person, role and targets its row and places say |
| MembershipRuns.AssignKeepsSound | internal/platform/schema/routines.go:337-382 | assigning keeps the tables sound, closing a lapsed seat included |
| MembershipRuns.AssignStaysSettled | internal/platform/schema/routines.go:337-382 | an assignment gives the new member every live entry |
| MembershipRuns.ResyncKeepsSound | internal/platform/schema/routines.go:387-411 | a resync keeps the tables sound |
| MembershipRuns.ResyncStaysSettled | internal/platform/schema/routines.go:387-411 | resyncing one membership leaves another as settled as it was |
| MembershipRuns.LeaveKeepsSound | internal/platform/schema/routines.go:415-427 | leaving keeps the tables sound |
| MembershipRuns.LeaveTouchesOneAssignment | internal/platform/schema/routines.go:415-427 | leaving one place revokes exactly that assignment's grants and touches no other |
| MembershipRuns.UnassignKeepsSound | internal/platform/schema/routines.go:431-443 | unassigning keeps the tables sound |
| MembershipRuns.UnassignTakesAll | internal/platform/schema/routines.go:431-443 | nothing of the membership is left to the person, grants without an assignment id included, and no other grant or assignment changes |
| Membership.FanoutKeepsSound | internal/platform/schema/routines.go:307-328 | giving grants to pairs that have none keeps the tables sound |
| Membership.WithdrawKeepsSound | internal/platform/schema/routines.go:387-443 | so does revoking, where every removed assignment's grants in force are among those revoked |
| MembershipStore.Store.constructor | internal/platform/schema/routines.go:302-443 | the tables start empty and sound at every time |
| MembershipStore.Store.Materialize | internal/platform/schema/routines.go:307-328 | the grant, the entry's places, then the assignment's own; refused where a guard turns the pair away |
| MembershipStore.Store.Assign | internal/platform/schema/routines.go:337-382 | the four refusals in order, the lapsed seat, the repeated assignment, the fan-out, and the rollback |
| MembershipStore.Store.Resync | internal/platform/schema/routines.go:387-411 | revokes what retired entries gave, gives what is missing, counts both, rolls back on a refusal, and settles |
| MembershipStore.Store.Leave | internal/platform/schema/routines.go:415-427 | revokes and stamps one assignment and returns how many grants it revoked |
| MembershipStore.Store.Unassign | internal/platform/schema/routines.go:431-443 | revokes and stamps every assignment of a person and returns how many grants it revoked |
| TenantTree.GuardIsExact | internal/platform/schema/routines.go:938-970 | the trigger and the foreign key accept a row exactly when the table with it is a forest of height at most six, subtree moves included |
| TenantTree.AcceptedIsForest | internal/platform/schema/routines.go:960-969 | what is accepted keeps the forest |
| TenantTree.RefusedIsNoForest | internal/platform/schema/routines.go:945-969 | what is refused would have broken it |
| TenantTree.CycleIsNamed | internal/platform/schema/routines.go:945-949 | the loop message is given exactly when the parent is the company itself or below it |
| TenantTree.Tenants.SetParent | internal/platform/schema/routines.go:938-970 | the upward loop, bounded with no assumption on the rows, the downward recursion and the refusals; the forest is kept |
| Gf256.InitTables | internal/platform/qr/galois.go:17-30 | the tables hold the powers of the generator, doubled, and the logarithm of each |
| Gf256.GfMul | internal/platform/qr/galois.go:34-39 | the product looked up in the tables is the field's product |
| Gf256.EveryByteIsAPower | internal/platform/qr/galois.go:17-30 | every nonzero byte is one of the first 255 powers of the generator |
| Gf256.ExpInjective | internal/platform/qr/galois.go:17-30 | and those powers are distinct |
| Gf256.MulAssociates | internal/platform/qr/galois.go:34-39 | the product is associative |
| Gf256.MulInverse | internal/platform/qr/galois.go:34-39 | every nonzero byte has an inverse |
| Gf256.MulNonzero | internal/platform/qr/galois.go:34-39 | a product is zero exactly when a factor is |
| Gf256.MulOne | internal/platform/qr/galois.go:34-39 | one is its unit |
| Gf256.MulDistributes | internal/platform/qr/galois.go:34-39 | the product of logarithms distributes over XOR |
| ReedSolomon.RsGenerator | internal/platform/qr/galois.go:43-55 | the nested loops multiply out (x - a^0) ... (x - a^(n-1)) |
| ReedSolomon.GeneratorRoots | internal/platform/qr/galois.go:43-55 | the generator vanishes at a^0 .. a^(n-1) |
| ReedSolomon.RsEncode | internal/platform/qr/galois.go:59-73 | the in-place division leaves the check codewords, and data followed by them vanishes at every root |
| ReedSolomon.CheckIsCodeword | internal/platform/qr/galois.go:59-73 | data followed by its check codewords evaluates to zero at a^0 .. a^(n-1) |
| RsDistance.NoLightWord | internal/platform/qr/galois.go:59-73 | a word whose first m power sums vanish has more than m nonzero coefficients or none |
| RsDistance.CodewordsDiffer | internal/platform/qr/galois.go:59-73 | two codewords of one length up to 255 differ in at least n + 1 places |
| RsDistance.BlocksDiffer | internal/platform/qr/galois.go:59-73 | so do the written blocks of different data |
| RsDistance.CheckIsForced | internal/platform/qr/galois.go:59-73 | only the encoder's check codewords complete a block to a codeword |
| Version.SmallestVersion | internal/platform/qr/version.go:70-80 | the first version that holds n bytes, and none exactly above 213 |
| Version.BlocksFitTheField | internal/platform/qr/version.go:29-41 | every block of every version has at most 255 codewords, and the second group's are one longer |
| BitStream.BitWriter.constructor | internal/platform/qr/encode.go:5-8 | a new writer holds no bits |
| BitStream.BitWriter.Write | internal/platform/qr/encode.go:10-20 | appends the value's low bits, highest first, and nothing for a width of zero or less |
| BitStream.NatRoundTrip | internal/platform/qr/encode.go:10-20 | reading a written number back gives it, when it fits |
| BitStream.ByteBits | internal/platform/qr/encode.go:29-31 | the eight bits written for a byte are the byte's |
| BitStream.PackRoundTrip | internal/platform/qr/encode.go:10-20 | bytes read bit by bit and packed are the bytes |
| Codewords.DataCodewords | internal/platform/qr/encode.go:24-52 | mode, count, payload, terminator and alternating pads, exactly filling the data half |
| Codewords.PayloadIsRead | internal/platform/qr/encode.go:24-52 | a reader of the data half gets the payload back |
| Codewords.Interleave | internal/platform/qr/encode.go:60-95 | blocks cut, checked and read out column by column, the check columns after the data |
| Codewords.DataAt | internal/platform/qr/encode.go:82-88 | every data codeword stands at its place |
| Codewords.CheckAt | internal/platform/qr/encode.go:89-93 | and every check codeword |
| Codewords.InterleavedLength | internal/platform/qr/encode.go:77-94 | the output has as many codewords as the symbol has room for |
| Codewords.InterleavingIsUndone | internal/platform/qr/encode.go:60-95 | putting the blocks back together gives the data |
| Zigzag.EveryModuleOnce | internal/platform/qr/matrix.go:125-156 | the walk visits every module outside column 6 exactly once and no other |
| Patterns.Grid.constructor | internal/platform/qr/matrix.go:25-27 | a new grid is light and unreserved |
| Patterns.Grid.Clone | internal/platform/qr/qr.go:47-51 | a copy with its own modules and the same reserved map |
| Patterns.Grid.Finder | internal/platform/qr/matrix.go:41-54 | draws the rings and the separator, cut off at the symbol's edge, and nothing else |
| Patterns.Grid.Alignment | internal/platform/qr/matrix.go:57-64 | draws the five by five pattern and nothing else |
| Patterns.Grid.Timing | internal/platform/qr/matrix.go:75-80 | the alternating row and column between the finders |
| Patterns.Grid.Alignments | internal/platform/qr/matrix.go:82-92 | a pattern at every pair of centres but the three a finder covers |
| Patterns.Grid.ReserveFormat | internal/platform/qr/matrix.go:94-111 | both format areas reserved light and the dark module dark |
| Patterns.Grid.ReserveVersion | internal/platform/qr/matrix.go:113-119 | both version blocks reserved from version 7 on |
| Patterns.Grid.FunctionPatterns | internal/platform/qr/matrix.go:69-120 | the modules reserved, and their colours, are exactly those of the closed form |
| Room.EveryBitHasAModule | internal/platform/qr/version.go:50-57 | in every version the data modules are at least as many as the bits of its codewords |
| Placement.PlaceData | internal/platform/qr/matrix.go:125-156 | the unreserved modules in walk order take the codewords' bits and then light, and no other module changes |
| Masking.ApplyMask | internal/platform/qr/mask.go:19-28 | exactly the unreserved modules the mask picks are flipped, by the arithmetic the code uses |
| Masking.MaskIsTile | internal/platform/qr/mask.go:6-15 | for every cell, mask m picks exactly what its pattern of table 10 of ISO/IEC 18004:2015 marks, given as a tile to repeat |
| Masking.FormatBits | internal/platform/qr/mask.go:125-135 | the division gives the fifteen-bit words listed for level M in ISO/IEC 18004:2015 |
| Masking.VersionBits | internal/platform/qr/mask.go:139-147 | and the eighteen-bit version words |
| Masking.WriteFormat | internal/platform/qr/mask.go:152-175 | both copies are written bit for bit on their own modules and no others |
| Masking.WriteVersion | internal/platform/qr/mask.go:177-188 | likewise both version blocks, and nothing below version 7 |
| Masking.WordsSayTheMask | internal/platform/qr/mask.go:125-135 | three bits of the word name the mask |
| FormatReader.ListedIsSent | internal/platform/qr/mask.go:121-135 | the code's parity equations give the 32 format words annex C lists |
| FormatReader.SevenApart | internal/platform/qr/mask.go:125-135 | any two of the 32 format words differ in seven modules or more |
| FormatReader.TakenForOne | internal/platform/qr/mask.go:125-135 | so a copy with at most three modules wrong is taken for one format and no other |
| FormatReader.SecondCopyIsRead | internal/platform/qr/mask.go:165-174 | the divided copy of a drawn symbol, read where section 7.9.1 puts it, is the word of level M and the mask applied |
| FormatReader.FirstCopyIsMisread | internal/platform/qr/mask.go:152-164 | the copy at the upper left, read where section 7.9.1 puts it, is the word backwards: for each of the eight masks three modules from the word of another level or mask, and taken for that one alone |
| Symbol.OnlyDataIsUnreserved | internal/platform/qr/matrix.go:69-156 | a module carries data exactly when it is not reserved |
| Symbol.PatternsSurvive | internal/platform/qr/mask.go:19-28 | outside the format and version areas every reserved module is as the patterns drew it |
| Symbol.DarkModuleIsDark | internal/platform/qr/mask.go:165-174 | the dark module is dark under every mask, and no format or version bit falls on it |
| Symbol.CopiesAgree | internal/platform/qr/mask.go:152-175 | at the places the code writes them the two format copies agree bit for bit and name the mask applied |
| Symbol.BitsAreRead | internal/platform/qr/matrix.go:125-156 | the data modules of a drawn symbol, unmasked and read in order, give its codewords back |
| Symbol.SymbolIsRead | internal/platform/qr/qr.go:15-45 | decoding a drawn symbol from its modules alone, with the mask's printed pattern and the divided format copy, gives the payload, under every mask |
| Symbol.DifferentPayloadsAreFarApart | internal/platform/qr/encode.go:60-95 | two payloads of one version differ in some block, with its check codewords, in more places than that block has check codewords |
| Penalty.Penalise | internal/platform/qr/mask.go:32-120 | the four passes compute the sum of the four rules, each stated place by place |
| Penalty.Run | internal/platform/qr/mask.go:37-52 | points given at the end of each run are, over the line, three where a run reaches five and one for each module more |
| Penalty.ScoreIsSmall | internal/platform/qr/qr.go:29-37 | no symbol scores as high as the search for the least starts from |
| Symbol.ChooseMask | internal/platform/qr/qr.go:29-37 | the first mask of least penalty under the four rules |
| Symbol.Encode | internal/platform/qr/qr.go:15-45 | fails exactly above 213 bytes; otherwise the smallest version, the least-penalty mask, and a symbol that decodes to the payload |
| Printed.TableIsPrinted | internal/platform/qr/version.go:29-41 | check codewords, blocks and capacity of each version are those of tables 7 and 9 |
| Printed.CentresAreEvenlySpaced | internal/platform/qr/version.go:29-41 | the alignment centres run in equal steps from column 6 to the seventh from the far edge |
| Printed.DoublingIsPrinted | internal/platform/qr/galois.go:17-30 | the field is the one of 0x11D: doubling shifts and 128 doubled is 29 |
| Printed.FindersAreDrawn | internal/platform/qr/matrix.go:41-54 | in every symbol, whatever the data and mask, the three corners show the printed finder and its separator |
| Printed.TimingIsDrawn | internal/platform/qr/matrix.go:75-80 | and row and column 6 alternate between them, dark on even modules |
| Printed.AlignmentsAreDrawn | internal/platform/qr/matrix.go:57-92 | and at every pair of centres but three stands the printed alignment pattern |
| Printed.VersionIsDrawn | internal/platform/qr/mask.go:177-188 | from version 7 on both blocks hold the version word, bit by bit at their places |
| Printed.PathIsPrinted | internal/platform/qr/matrix.go:125-156 | which cell comes n-th: pairs from the right, over column 6, climbing and descending in turn |
| Printed.DataIsPrinted | internal/platform/qr/encode.go:24-52 | the data half is 0100, the count, the bytes, 0000, and then 236 and 17 in turn |
| Printed.UniformScore | internal/platform/qr/mask.go:32-120 | a symbol of one colour and side s scores 2s(s-2) + 3(s-1)(s-1) + 100 |
| Printed.FinderLikeMeans | internal/platform/qr/mask.go:69-105 | forty points exactly for dark, light, three dark, light, dark beside four light modules or the edge |
| RefreshTokens.EveryRunKeepsInv | internal/control/app/platform_auth_interactor.go:216-235 | in every interleaving each family has at most one unspent token, counting a call about to write one, its links share one expiry, and no refresh succeeds that started past it |
| RefreshTokens.FamilyFacts | internal/control/app/platform_auth_interactor.go:456-517 | two links of a family share their expiry, and at most one of them is unspent |
| RefreshTokens.SignInMeans | internal/control/app/platform_auth_interactor.go:216-235 | a sign-in adds one unspent link of the operator's, in a family and with a secret of its own, that ends twelve hours later |
| RefreshTokens.VerdictMeans | internal/control/app/platform_auth_interactor.go:456-517 | a refresh alone, exactly, by the row presented: unknown or expired, spent and its family revoked, denied and used up, or used up with one unspent successor of the same operator, family and end |
| RefreshTokens.SweepMeans | internal/control/adapter/postgres/rquery/refresh.go:64-70 | the sweep deletes exactly what expired more than a day ago |
| RefreshTokens.ConsumeKeepsHolder | internal/control/adapter/postgres/rquery/refresh.go:50-56 | consuming passes a family's one place from its row to the call |
| RefreshTokens.RevocationIsFinalIff | internal/control/app/platform_auth_interactor.go:522-532 | after a revocation no refresh in the family ever succeeds again, exactly when no other call stood between consuming and appending |
| RefreshTokens.RevocationCanLose | internal/control/app/platform_auth_interactor.go:468-517 | the other case is reached from an empty table: two refreshes of one token, and a live token left in the family one of them revoked |
| RefreshTokens.DeadForGood | internal/control/app/platform_auth_interactor.go:456-552 | a family with no unspent link and none on its way stays so under every continuation |
| RefreshTokens.ReuseEndsTheFamily | internal/control/app/platform_auth_interactor.go:468-470 | with calls one at a time, presenting a spent unexpired token ends its family for good |
| RefreshTokens.RefreshAlone | internal/control/app/platform_auth_interactor.go:456-517 | a refresh with nothing between its steps comes to one of four outcomes, each with its table |
| RefreshTokens.Sessions.constructor | internal/control/app/platform_auth_interactor.go:216-235 | the table starts empty |
| RefreshTokens.Sessions.BeginSession | internal/control/app/platform_auth_interactor.go:216-235 | a sign-in opens a family of one unspent link with an absolute expiry |
| RefreshTokens.Sessions.ConsumeRefresh | internal/control/adapter/postgres/rquery/refresh.go:50-56 | flips a row exactly when it is there, unused and unrevoked |
| RefreshTokens.Sessions.RevokeRefreshFamily | internal/control/adapter/postgres/rquery/refresh.go:58-62 | revokes every row of the family and no other |
| RefreshTokens.Sessions.Refresh | internal/control/app/platform_auth_interactor.go:456-517 | the call as written equals the machine's steps run alone, outcome included |
| RefreshTokens.Sessions.Logout | internal/control/app/platform_auth_interactor.go:536-552 | revokes the token's family, says nothing of a token it does not know |
| Freshness.FreshIsRecent | internal/gate/app/manager.go:97-108 | if every change bumps the version, what is fresh at T is what the database held at some moment no further back than the maximum age and one probe |
| Freshness.FreshIsBounded | internal/gate/app/manager.go:223-289 | whatever the triggers forget, it was built less than two ages and a probe ago, from what the database held since |
| Freshness.BoundIsMet | internal/gate/app/manager.go:279-289 | a run in which a snapshot almost two ages old is served as fresh and matches nothing the database held within one age |
| Freshness.PromiseKeptIff | internal/gate/app/manager.go:68-72 | over every run of loads and for each tenant: whenever the snapshot is fresh it was built within the maximum age, exactly when the last load of that tenant to take effect was a rebuild (or re-stamped it in the instant it was built) |
| Freshness.KeptIffOneStamp | internal/gate/app/manager.go:68-72 | of one snapshot, exactly when its load stamp is its build stamp |
| Freshness.EveryRunIsHonest | internal/gate/app/manager.go:223-289 | after any run of loads every snapshot's stamps are honest |
| Freshness.LoadIsHonest | internal/gate/app/manager.go:223-289 | one load, re-stamping, rebuilding or failing, keeps them honest |
| Freshness.Manager.constructor | internal/gate/app/manager.go:57-76 | a non-positive age becomes five minutes, and the rebuild interval is the age |
| Freshness.Manager.Get | internal/gate/app/manager.go:100-108 | fresh exactly within the maximum age of the load stamp |
| Freshness.Manager.Touch | internal/gate/app/manager.go:279-289 | re-stamps the snapshot only if it is still the one served |
| Freshness.Manager.Load | internal/gate/app/manager.go:223-263 | re-stamps when young and unchanged, rebuilds otherwise, keeps the previous on failure |
| Freshness.BumpsDoNotPutItOff | internal/gate/app/manager.go:151-172 | however many bumps follow the first, the timer stands no later than the deadline it fixed, and every bumped tenant is pending |
| Freshness.LoadMeans | internal/gate/app/manager.go:223-263 | a load moves the stamp, serves what was read under one new stamp, or leaves what is served as it was, and touches no other tenant |
| Freshness.FailureIsStatic | internal/gate/app/manager.go:223-263 | however many loads of a tenant fail, it goes on being served what it was |
| Freshness.QuietFires | internal/gate/app/manager.go:161-170 | a bump waits 250 milliseconds, and never past two seconds after the first |
| Freshness.FiredMeans | internal/gate/app/manager.go:171-200 | where the tenants cannot be listed they go on waiting, and the next bump is served at once |
| Revocation.EveryRunKeepsInv | internal/platform/revocation/revocation.go:69-139 | in every interleaving each subscriber's received and buffered events are the published ones in order less its drops, and the drops are counted |
| Revocation.NoSendOnClosed | internal/platform/revocation/revocation.go:84-139 | no event is ever sent on a closed channel |
| Revocation.NothingLostNothingMissed | internal/platform/revocation/revocation.go:69-139 | a subscriber that drops nothing has exactly what was published to its tenant while it was listed |
| Revocation.PublishMeans | internal/platform/revocation/revocation.go:129-139 | an event is offered to every listed subscriber of its tenant, lost exactly where 64 are waiting, and to nobody else |
| Announcements.EveryRunIsSound | internal/gate/app/revocations.go:23-53 | in every interleaving of the manager's swaps, its listening test and its single announcements with streams opening, draining and closing: each listed stream has had every event of every delta since it opened published to it, or the event is still to be announced; and nothing is published that no delta holds |
| Announcements.TestKeepsSound | internal/gate/app/revocations.go:29-31 | where the announcement is skipped because nobody listens, no listed stream is owed it |
| Announcements.ListenerLearnsSessions | internal/gate/app/revocations.go:37-44 | in every such run a stream still listed, with nothing lost and no announcement under way, has received or buffered each session revoked in the served snapshot and not in the one served when it opened |
| Announcements.ListenerLearnsEpochs | internal/gate/app/revocations.go:45-53 | and, for each identity in every snapshot served since, whose epoch rose, an epoch at least the one served |
| Announcements.SinceStartsThere | internal/gate/app/revocations.go:19-26 | what a stream starts from is the snapshot served when it opened, or, when there was none, the first one served after |
| Announcements.ToldOnlyWhatIsServed | internal/gate/app/manager.go:243-247 | a stream is told of a session only when one served snapshot had it revoked and the one before had not, and of an epoch only when it rose, and only of its own tenant |
| Announcements.PublishingIsARun | internal/gate/app/revocations.go:23-53 | publishing a delta with nothing in between is a run of the machine's own steps |
| Revocation.Broker.constructor | internal/platform/revocation/revocation.go:62-64 | a new broker has no subscribers |
| Revocation.Broker.Subscribe | internal/platform/revocation/revocation.go:69-81 | a subscription is listed and open before it returns |
| Revocation.Broker.Publish | internal/platform/revocation/revocation.go:129-139 | every listed subscriber of the tenant takes the event or loses it, and the losses are counted |
| Revocation.Broker.PublishRevocations | internal/gate/app/revocations.go:23-53 | run with nothing in between: publishes exactly the delta, each event once, when there was a snapshot before and somebody listens, and otherwise nothing |
| RateLimit.NoMoreThanBurstAndRate | internal/platform/ratelimit/limiter.go:49-79 | of requests in a row ending in one let through, at most burst plus rate times elapsed are, even if clock readings come out of order |
| RateLimit.AnyWindow | internal/platform/ratelimit/limiter.go:49-79 | in order, the bound holds of every time window |
| RateLimit.NewKeyHasItsBurst | internal/platform/ratelimit/limiter.go:58-75 | of calls in one instant on a key never seen, exactly the burst's whole tokens are let through, and all of them while there are no more |
| RateLimit.TokensStayInRange | internal/platform/ratelimit/limiter.go:65-75 | a reading not before the last keeps the tokens between zero and the burst |
| RateLimit.RangeIff | internal/platform/ratelimit/limiter.go:54-75 | they stay in range exactly when the reading's arrears do not exceed what is in the bucket |
| RateLimit.LateReadingGoesIntoDebt | internal/platform/ratelimit/limiter.go:54-75 | an input for which they do not |
| RateLimit.KeysAreApart | internal/platform/ratelimit/limiter.go:49-79 | over any run of calls on many keys without eviction, each key's calls are weighed as if they were alone |
| RateLimit.EveryRunKeepsTheBound | internal/platform/ratelimit/limiter.go:49-79 | so of one key's calls within a window, in order, at most the burst and the window's earnings are let through |
| RateLimit.EveryRunStaysInRange | internal/platform/ratelimit/limiter.go:49-79 | and where no key's readings go back, every bucket stays between zero and its burst throughout |
| RateLimit.WaitingIsEnough | internal/platform/ratelimit/limiter.go:77-78 | a refused caller who waits until a token appears is let through, exactly when the bucket can hold one |
| RateLimit.ToldIsEnoughIff | internal/platform/ratelimit/limiter.go:77-78 | waiting exactly as long as told, in whole nanoseconds, is enough exactly when the bucket can hold a token and nothing was cut off |
| RateLimit.ToldFallsShort | internal/platform/ratelimit/limiter.go:77-78 | a caller for whom it is not |
| RateLimit.Shard.constructor | internal/platform/ratelimit/limiter.go:32-38 | a shard starts empty |
| RateLimit.Shard.Allow | internal/platform/ratelimit/limiter.go:49-79 | the answer, the wait and the new bucket; the shard never passes its bound |
| RateLimit.Shard.WorstOf | internal/platform/ratelimit/limiter.go:110-118 | the newest of the victims |
| RateLimit.Shard.EvictStalest | internal/platform/ratelimit/limiter.go:104-132 | removes the smaller of a batch and all, none of them newer than an entry that stays |
| YamlConfig.RoundTripIff | internal/platform/config/file.go:159-181 | the printed file parses to exactly its settings if and only if none of its strings holds a newline |
| YamlConfig.PrintedParses | internal/platform/config/file.go:159-181 | without newlines every setting comes back, quotes, backslashes, colons, hashes and blanks included |
| YamlConfig.SpoiltByNewline | internal/platform/config/file.go:184-203 | with one the parser refuses the file |
| YamlConfig.SettingsAreFound | internal/platform/config/file.go:159-181 | each setting stands at its path, and the port reads back as its number |
| YamlConfig.ScalarReadsBack | internal/platform/config/file.go:184-203 | a printed scalar, bare or quoted, reads back as the string printed |
| YamlConfig.QuotedReadsBack | internal/platform/yamlmin/parse.go:208-237 | a quoted string reads back whatever follows its closing quote |
| YamlConfig.BrokenReadsNothing | internal/platform/yamlmin/parse.go:208-237 | and one that breaks off before it reads as nothing |
| Yaml.Scan | internal/platform/yamlmin/parse.go:46-68 | the significant lines with number and indent, or the first line refused |
| Yaml.Quoted | internal/platform/yamlmin/parse.go:208-237 | the loop over escapes computes the string or refuses |
| Yaml.ParseMap | internal/platform/yamlmin/parse.go:72-116 | the entries at one indent and the first line beyond them; always moves past the line it started on |
| Yaml.ParseBlock | internal/platform/yamlmin/parse.go:120-154 | a nested mapping, a sequence of scalars or nothing; the mutual recursion ends on the remaining lines |
| Yaml.Parse | internal/platform/yamlmin/parse.go:17-38 | the document, or the line it is refused at |
| YamlLines.ScanMeans | internal/platform/yamlmin/parse.go:46-68 | the scan refuses the file at the first line refused, and otherwise keeps exactly the lines not blank or comment, each with its number, indent and text |
| YamlLines.ErrorNamesALine | internal/platform/yamlmin/parse.go:17-154 | an error names the first line the scan refuses, and where it refuses none the first line at which the file stops being the start of one that parses |
| YamlLines.EarlierMayBeBad | internal/platform/yamlmin/parse.go:17-38 | a file in which the line named comes after one already bad |
| YamlScalars.PlainReads | internal/platform/yamlmin/parse.go:202-205 | an unquoted value ends before a hash after a space, and reads as what stands before it without blanks |
| YamlScalars.SingleQuotedReads | internal/platform/yamlmin/parse.go:240-254 | a single-quoted string reads back, doubled quotes halved, whatever follows it |
| YamlScalars.MarksAreRefused | internal/platform/yamlmin/parse.go:185-200 | anchors, tags, flow style and block scalars are refused |
| YamlScalars.EscapeReads | internal/platform/yamlmin/parse.go:208-236 | each escape's character, and a refusal for any other |
| YamlScalars.KeyReads | internal/platform/yamlmin/parse.go:166-181 | a key and the rest of its line |
| YamlScalars.NoKeyIff | internal/platform/yamlmin/parse.go:166-181 | an entry is refused exactly for a leading quote, a missing colon or an empty key |
| RoutePath.FixedIffCanonical | internal/gate/routepath/normalize.go:32-89 | the paths normalising leaves alone are exactly the canonical ones |
| RoutePath.NormalizedIsCanonical | internal/gate/routepath/normalize.go:32-89 | a result has a leading slash, proper segments, at most one slash at the end, no percent sign and no ambiguous byte |
| RoutePath.NormalizingTwiceIsOnce | internal/gate/routepath/normalize.go:32-89 | a second pass changes nothing |
| RoutePath.SegmentsAreTheStack | internal/gate/routepath/normalize.go:63-88 | the result's segments are the stack that the once-decoded segments leave, with no pop below the root |
| RoutePath.DecodeOnce | internal/gate/routepath/normalize.go:92-112 | the loop decodes every escape once or refuses |
| RoutePath.NormalizePath | internal/gate/routepath/normalize.go:32-89 | the two loops compute the normal form or refuse |
| PathBytes.EscapedReadsBack | internal/gate/routepath/normalize.go:92-124 | any bytes, escaped in either case of hex digits, decode to themselves |
| PathBytes.BreaksIff | internal/gate/routepath/normalize.go:92-124 | decoding refuses exactly a percent sign not followed by two hex digits |
| PathBytes.Utf8Iff | internal/gate/routepath/normalize.go:47-49 | what passes as UTF-8 is exactly what encodes a sequence of scalar values |
| PathBytes.ResolvedIff | internal/gate/routepath/normalize.go:63-88 | resolving refuses exactly when a dot segment is hidden or some prefix pops above the root |
| PathBytes.RefusedIff | internal/gate/routepath/normalize.go:32-89 | a path is refused exactly for a bad escape, bytes that are not UTF-8 or are ambiguous, a missing leading slash, or such a resolution |

## Left out

- Flat index arithmetic: `at(x, y) = y*size + x` is a two-dimensional array here.
- The QR quiet zone and SVG, and any repair of damaged symbols: the reader takes a symbol as drawn.
- Int32 dense indices, the slab of ids and Go's in-place sharing of slices inside `Data`: indices are unbounded and nested slices are values.
- Times are integers with Go's zero time at 0 and every `valid_from` after it; durations and tokens of the limiter are reals but for the wait it answers with, so float error is left out.
- Slugging and name cleaning: slugs arrive as fields of a feed row. The check on the spelling of level codes.
- Counters of a dry sync run: it writes nothing, but may count a move or a name clash differently from the run it rehearses.
- SQL concurrency: every routine is one atomic step, except operator refresh and the revocation stream, whose steps interleave.
- LIKE matching beyond the leading underscore, uuid casts, NULLIF/btrim of reasons (they arrive trimmed) and audit columns (who and when).
- Memberships hold one tenant. Grants made outside memberships are there but only revoked through theirs. Realm and role-live guards are a set of refused pairs. Entries and their places are added and retired as edits.
- Transactions of the snapshot load: the tables are read at one instant. Routes, session epochs' checks (`SessionAlive`), risk and age fields of permissions decide nothing here and are not carried.
- `AllowAll`, the hash that picks a shard and the shard locks: one shard and one bucket at a time.
- LISTEN/NOTIFY, timers and the tenant list of the manager: a load's clock readings are given, and the loop's timer is the instant it stands at.
- Operator refresh: tokens, hashing and the access token are opaque; sweeping deletes rows a day past expiry; a disabled operator, a lost role and store errors end a call where it stands.
- The wording of the configuration file's remarks and of parser errors; `Node.Line`; numbers wider than 64 bits. The sealed password is an arbitrary string.
- Path bytes are bytes and UTF-8 is checked in full; the corpus file of examples is not part of this model.
- Sessions.Refresh: a row consumed by another call between the look-up and the write cannot happen in a call run alone; the machine's `Consume` step has that branch.
- Freshness.Manager.Load: the announcement after the swap is not part of it; `Announcements` has the swap, the listening test and each announcement as steps of their own.
- Revocation.Broker.PublishRevocations: is run with nothing stepping in between; `Announcements` lets everything step in.
- RateLimit.Shard.Allow: runs over many keys are stated without evictions, since an evicted key starts again with a full bucket.
- SnapshotLoad.LoadSnapshot: does not load the routes, the catalog version or the two stamps, which no decision here reads.
- GrantedNodes.GrantedNodes: does not carry the `AsOf` stamp of the answer.
- ScopeStore.Store.SyncApply: does not write the run record or the source's last-run stamp.
- A feed row that repeats a reference: convergence is stated for feeds that name each node once.
- Level edits name one level at a time, as the trigger sees them.
