# Local core: verified model

This project models the state machines and bounded computations of the local core
(`apps/local-core`) in Dafny and proves what they keep over every run. Tables are maps from
their primary key (or sequences in rowid order where the order matters), a transaction is a
method that either commits or puts the saved tables back, and PRIMARY KEY, UNIQUE and foreign
key constraints are conditions under which a statement is accepted. Code that changes tables or
lists step by step is a class with methods and loops; each is tied by its contract to a function
or predicate, and the promises are proved about those.

| file | subject |
|---|---|
| `RevisionTables.dfy`, `RevisionLifecycle.dfy`, `RevisionHistory.dfy`, `RevisionRows.dfy`, `RevisionUndo.dfy`, `MetadataRepository.dfy`, `TextLease.dfy` | artifacts, revisions, returns and runs: ten kinds of request, the current-pointer invariant, acceptance, retries, undo and redo, agents' read leases |
| `MutationBatch.dfy`, `MutationHistory.dfy` | mutation batches: graph version, workspace order, presentation references |
| `PresentationPatch.dfy`, `CurationLedger.dfy`, `CurationHistory.dfy` | curation patches: the patch algorithm, the composite transaction, receipts, inverse records |
| `ActiveContext.dfy` | the active context and its semantic version |
| `SectionDerivation.dfy`, `SectionRefresh.dfy` | sections of an imported conversation and their refresh around locked sections |
| `ConversationUpload.dfy`, `EmbeddingIndex.dfy` | chunked upload, the embedding job |
| `ContextPack.dfy`, `ContextManifest.dfy`, `ContextPrompt.dfy` | budgets of context packs and manifests, the stable prompt prefix |
| `CapturePlacement.dfy`, `CaptureMaterialize.dfy` | placing captures, importing them with retries |
| `Wrappers.dfy`, `Lists.dfy` | result types, lists without repetition |

Each async method is one step, except that `CurationHistory` also lets calls suspend between
validation and transaction and between a refused transaction and its receipt,
`CapturePlacement` lets other captures be inserted between placing and inserting one,
`CaptureMaterialize` also lets calls overlap or stop between any two of their imports and
resolutions, `EmbeddingIndex` lets other imports arrive while a batch is awaited and a run stop,
and `ContextManifest` lets the reference files be read in any order. Hashes are injective, random ids
and timestamps are inputs, and every outcome of a remote call or a file read is allowed.

## Where the code does less than it seems to

These are proved of the model, with the exact condition wherever a promise holds only partly.

- The comment in `capture-placement-service.ts` calls the fallback scan practically unreachable; it is reached exactly when every ring slot that fits the row is blocked (`RingExhaustedExactly`). Unless the last view ends left of x = -80, at most the first 16 of the 480 slots fit (`FittingSlots`), and for a capture wider than 348 the scan is reached exactly when slots 0 and 2 are blocked (`WideRingExhausted`), as they are in a scope of two views (`FallbackIsReachable`).
- `commitManagedTextRevision`, `registerImportedSource`, `createRuntimeDraft`, `createRuntimeCreatedArtifact`, `adoptExternalChange` and `createRunWithDispatch` keep the invariants exactly when the ids they bring fit the rows already stored (`Keeps`, `StepKeepsExactly`); fresh ids always do. Adoption never reads the stored pointer: the unique index alone refuses it when something else is current (`IndexGuardsAdoption`).
- Two returns on one base can both be accepted when the first is a birth, because a birth supersedes nothing (`BirthLeavesItsBaseOpen`).
- A return can be retried exactly when its run names a target and a target revision, because the retry's insert cannot bind a missing one (`RetriableExactly`); the return of a new artifact made by a run without a target never can (`TargetlessRunIsNeverRetried`).
- Restoring a draft makes it current; restoring back leaves it superseded, not a draft (`RestoreIsUndoneUnlessDraft`).
- The stale-version check of `applyMutations` is skipped at stored version 0, so two semantic batches on base 1 can both commit (`BaseOneCommitsTwiceAtVersionZero`), and a semantic batch whose project cannot be resolved moves no version (`VersionAfterBatch`).
- A curation patch suspended after validation commits against whatever version it then finds: of two patches for one version both commit, the second on top of the first (`LateCallsIgnoreTheExpectedVersion`, `SecondLateEditIsNotStale`).
- A curation call suspends twice: after validation, and, when its transaction is refused, before it writes the failed receipt. Exactly-once holds over an interleaved run if and only if no call resumes, without throwing, after its operation has an applied receipt (`InterleavedRunIsExactlyOnce`). Such a call commits the operation again (`RepeatCommitsAgain`), or is refused and erases the applied receipt (`RefusedRepeatErasesTheReceipt`), or was refused before there was any receipt and erases it all the same, whether the other call was validated earlier or began only then (`DeferredRefusalErasesTheReceipt`, `RefusalWaitsForAnother`); nothing later repairs it. The receipt of a refused call lists all the steps exactly when the call was valid and had any (`RefusedReceiptSteps`).
- Section refresh adds 1,000,000 to the numbers of the locked sections in one statement. It is accepted whatever order the rows are visited in exactly when no two locked sections are a million apart (`RefusedExactly`); a conversation with more sections than that, all locked, is refused (`LockingEverySectionBlocksRefresh`).
- An update of a section with an empty title keeps the title but locks the section: any title given, even an empty one, that differs from the stored one counts as an edit (`UpdateTitleAndLock`).
- The context pack may exceed its budget by 46 tokens for every mandatory view but one; the bound is reached (`PackStaysNearBudget`, `PackBoundIsReached`). Optional views never add to the excess (`OptionalStaysWithinBudget`).
- A stored context keeps its fingerprint under re-projection exactly when its lists repeat nothing and it has a scope (`RefreshKeepsFingerprint`); the session id is not carried over (`RefreshKeepsCore`).
- A feedback entry carries its artifact's own text exactly when the artifact has a stored current revision; otherwise it carries the content of the item before it (`FeedbackSaysItsOwnTextOrTheItemBefore`).
- The target item shows the current revision, so it agrees with the manifest's target only if no other revision was asked for (`TargetItemIsCurrent`).
- A capture never overlaps a view that was there when it was placed (`RunAddsNoOverlap`), but its import comes between placing and inserting, and two captures of one size that are placed before either is inserted overlap (`PlacedTogetherOverlap`).
- Each capture is imported at most once if and only if no call imports one twice, or one that a suspended or stopped call has imported already, and no suspended call imports one that was resolved since it looked (`RunImportsOnce`). All three happen: an unresolved id given twice in one call (`RepeatedIdIsImportedTwice`), the retry of a call that stopped between an import and its resolution (`RetryAfterStopImportsAgain`), two calls that overlap (`OverlappingCallsImportTwice`). The second import makes a second text; for a file or a link the import service may answer with the first product.
- A run of the embedding job that the process does not finish counts as an attempt but never closes the job, so a job can outlive its three attempts (`JobsSettle`).

## Model

| member | source | states |
|---|---|---|
| RevisionLifecycle.PointersNameTheCurrentRevision | apps/local-core/src/metadata-repository.ts:1099-1100 | The pointer invariant, said with sets: an artifact's current revisions are exactly the one its pointer names, and none when the pointer is empty |
| RevisionLifecycle.StepKeepsExactly | apps/local-core/src/metadata-repository.ts:4366-4434 | A committing request keeps the pointer, return and retry invariants if and only if the ids it brings fit the stored rows |
| RevisionLifecycle.PostGrows | apps/local-core/src/metadata-repository.ts:5632-5675 | No request removes a row, moves a revision to another artifact, or changes what a return or run is about |
| RevisionLifecycle.RegisterKeeps | apps/local-core/src/metadata-repository.ts:4401-4434 | Registering an import keeps the invariants iff its revision id belongs to no other artifact |
| RevisionLifecycle.DraftKeeps | apps/local-core/src/metadata-repository.ts:5115-5160 | A draft return keeps them iff its revision id does not overwrite a current revision or another artifact's |
| RevisionLifecycle.CreatedKeeps | apps/local-core/src/metadata-repository.ts:5162-5213 | A created artifact keeps them iff it does not clear the pointer of an artifact that has another current revision |
| RevisionLifecycle.AcceptKeeps | apps/local-core/src/metadata-repository.ts:5255-5359 | Acceptance, by birth or over a base, always keeps them |
| RevisionLifecycle.CommitKeeps | apps/local-core/src/metadata-repository.ts:2460-2490 | A managed text commit keeps them iff its revision id belongs to the edited artifact |
| RevisionLifecycle.RestoreKeeps | apps/local-core/src/metadata-repository.ts:2492-2521 | A restore always keeps them |
| RevisionLifecycle.AdoptKeeps | apps/local-core/src/metadata-repository.ts:4366-4399 | An external adoption keeps them iff both its revisions belong to its artifact, as far as the previous one is current |
| RevisionHistory.HistoryStaysSound | apps/local-core/src/metadata-repository.ts:2460-2521 | Every state of every history of requests with fresh ids keeps the invariants; a request that would break them is refused and changes nothing |
| RevisionHistory.PostFollows | apps/local-core/src/metadata-repository.ts:5115-5437 | How each request changes the returns, and that superseded revisions, birth runs and defined pointers stay |
| RevisionHistory.PendingLeavesByName | apps/local-core/src/metadata-repository.ts:5255-5437 | A return leaves `pending_review` exactly by an accepted, rejected or retried request that names it |
| RevisionHistory.ReviewedStaysReviewed | apps/local-core/src/metadata-repository.ts:5255-5437 | A return that left `pending_review` never changes again, whatever follows |
| RevisionHistory.ResultsStayUnique | apps/local-core/src/metadata-repository.ts:5115-5213 | Over every history at most one return is stored for a run, path and hash, however often the run reports it |
| RevisionHistory.SupersededThroughout | apps/local-core/src/metadata-repository.ts:2492-2521 | A superseded revision stays superseded over every history without a restore to it |
| RevisionHistory.AcceptedBaseIsSpent | apps/local-core/src/metadata-repository.ts:5316-5336 | After an acceptance over a base, no return on that base is accepted until a restore to it |
| RevisionHistory.BirthLeavesItsBaseOpen | apps/local-core/src/metadata-repository.ts:5271-5315 | After a birth, a draft waiting on the newborn revision is acceptable |
| RevisionHistory.BornOnce | apps/local-core/src/metadata-repository.ts:5271-5295 | Once an artifact has a current revision, no return is ever a birth for it and its birth run never changes |
| RevisionHistory.IndexGuardsAdoption | apps/local-core/src/metadata-repository.ts:1099-1100 | The unique index lets an adoption through exactly when nothing but the previous revision is current |
| RevisionHistory.IndexNeverStopsAcceptance | apps/local-core/src/metadata-repository.ts:5255-5359 | An acceptance that passes the lifecycle checks is never refused by the index |
| RevisionHistory.RetriesShareTheRootsJob | apps/local-core/src/metadata-repository.ts:5394-5437 | All runs in a chain of retries have the root's project, target, base revision and manifest |
| RevisionHistory.RetriableExactly | apps/local-core/src/metadata-repository.ts:5394-5437 | Some retry of a return is accepted iff it is pending and its run names a target and a target revision that are stored, as are its project and manifest |
| RevisionHistory.TargetlessRunIsNeverRetried | apps/local-core/src/metadata-repository.ts:5553-5570 | The return of a new artifact made by a run without a target is never retriable, whatever happens later |
| RevisionHistory.VersionAfterRequest | apps/local-core/src/metadata-repository.ts:5338-5347 | A committing import, acceptance or adoption raises the graph version of its own project by exactly one; no other version moves, and no other request moves any |
| RevisionHistory.VersionCountsMoves | apps/local-core/src/metadata-repository.ts:4366-4434 | Over every history the graph version of a project is its start plus its committed imports, acceptances and adoptions |
| RevisionRows.RevisionIsAccepted | apps/local-core/src/metadata-repository.ts:5632-5675 | When a revision is upserted: its file and artifact are stored, a stored row stays in its project, and nothing else is current if it is to be |
| RevisionRows.RegisterWrites | apps/local-core/src/metadata-repository.ts:4401-4434 | The whole database after an import, table by table, in terms of the request's own rows |
| RevisionRows.CreatedWrites | apps/local-core/src/metadata-repository.ts:5162-5213 | The same after the return of a new artifact |
| RevisionRows.AcceptWrites | apps/local-core/src/metadata-repository.ts:5255-5359 | What an acceptance requires, and the whole database after it, at a birth and over a base |
| RevisionRows.RetryWrites | apps/local-core/src/metadata-repository.ts:5394-5437 | A retry closes the return, completes its run and starts one for the same job |
| RevisionRows.CommitWrites | apps/local-core/src/metadata-repository.ts:2460-2490 | A text commit supersedes what was current; the artifact and exactly its views show the new revision |
| RevisionRows.RestoreWrites | apps/local-core/src/metadata-repository.ts:2492-2521 | A restore supersedes what was current and makes the target current; the artifact and exactly its views show it |
| RevisionRows.ViewsArePut | apps/local-core/src/metadata-repository.ts:4366-4399 | Of the views an adoption writes the last under each id stays, and no other changes |
| RevisionRows.AdoptWrites | apps/local-core/src/metadata-repository.ts:4366-4399 | The whole database after an external adoption |
| RevisionUndo.RestoreComparesAndSwaps | apps/local-core/src/metadata-repository.ts:2492-2521 | A restore commits iff its caller saw the present current revision and names a revision of the artifact; otherwise nothing changes |
| RevisionUndo.RestoresCompose | apps/local-core/src/metadata-repository.ts:2492-2521 | Two restores in a row equal one, unless the first stop was a draft |
| RevisionUndo.WalkEndsAtItsLastStop | apps/local-core/src/metadata-repository.ts:2492-2521 | Of any number of restores every one commits, and the result is that of the last alone |
| RevisionUndo.EditsStack | apps/local-core/src/metadata-repository.ts:2460-2490 | What any stack of managed edits leaves: statuses, pointer, views and chained bases |
| RevisionUndo.UndoRestoresTheStart | apps/local-core/src/metadata-repository.ts:2460-2521 | n edits and n restores newest-first give back every artifact row and every earlier revision |
| RevisionUndo.RedoReturnsToTheEnd | apps/local-core/src/curation-command-service.ts:116-147 | Undoing and then redoing the edits in order gives back exactly the database before the undo |
| RevisionUndo.RestoreIsUndoneUnlessDraft | apps/local-core/src/metadata-repository.ts:2492-2521 | A restore is taken back by restoring the old current revision iff it did not make a draft current |
| TextLease.CurationTextService.Begin | apps/local-core/src/curation-command-service.ts:79-122 | An agent's write is rejected iff its session has not read the artifact or has read another revision; else the edit is staged on the current revision |
| TextLease.CurationTextService.Finish | apps/local-core/src/curation-command-service.ts:122-152 | The staged edit commits or nothing changes, and a committed one is recorded with its inverse |
| TextLease.AppliedOverWhatWasRead | apps/local-core/src/curation-command-service.ts:85-122 | Whatever happens between check and commit, an applied agent write replaces exactly the revision the agent had read |
| TextLease.AppliedWriteIsStored | apps/local-core/src/curation-command-service.ts:94-145 | An applied write leaves its file and revision as staged, made from the one it supersedes; the artifact and its views show it, and nothing else changes |
| TextLease.SecondWriterIsStale | apps/local-core/src/curation-command-service.ts:103-113 | After an edit over a revision, every agent write relying on that revision is rejected over all histories without a restore to it |
| TextLease.RecordedInverseUndoes | apps/local-core/src/curation-command-service.ts:125-147 | The recorded inverse, applied at once, restores every artifact and earlier revision |
| MetadataRepository.MetadataRepository.UpsertRevision | apps/local-core/src/metadata-repository.ts:5632-5675 | The revision upsert: owner check, file and artifact keys, unique index, and only the status changes on conflict |
| MetadataRepository.MetadataRepository.RegisterImportedSource | apps/local-core/src/metadata-repository.ts:4401-4434 | Commits iff enabled, leaves the described tables, and otherwise nothing changes |
| MetadataRepository.MetadataRepository.CreateRuntimeDraft | apps/local-core/src/metadata-repository.ts:5115-5160 | Answers with the stored return of the same identity or commits iff enabled; otherwise nothing changes |
| MetadataRepository.MetadataRepository.CreateRuntimeCreatedArtifact | apps/local-core/src/metadata-repository.ts:5162-5213 | The same for a new artifact |
| MetadataRepository.MetadataRepository.AcceptArtifactReturn | apps/local-core/src/metadata-repository.ts:5255-5359 | Both branches, statement by statement: commits iff enabled, else nothing changes |
| MetadataRepository.MetadataRepository.RejectArtifactReturn | apps/local-core/src/metadata-repository.ts:5361-5392 | Closes a pending return and completes its run, or changes nothing |
| MetadataRepository.MetadataRepository.RetryArtifactReturn | apps/local-core/src/metadata-repository.ts:5394-5437 | Closes the return and starts the next run of the chain in one transaction, or changes nothing |
| MetadataRepository.MetadataRepository.CreateRunWithDispatch | apps/local-core/src/metadata-repository.ts:4480-4537 | Stores a run with its dispatch, or neither |
| MetadataRepository.MetadataRepository.CommitManagedTextRevision | apps/local-core/src/metadata-repository.ts:2460-2490 | Commits iff enabled; pointer, statuses and all views of the artifact follow |
| MetadataRepository.MetadataRepository.RestoreArtifactCurrentRevision | apps/local-core/src/metadata-repository.ts:2492-2521 | Commits iff enabled; pointer, statuses and all views of the artifact follow |
| MetadataRepository.MetadataRepository.AdoptExternalChange | apps/local-core/src/metadata-repository.ts:4366-4399 | Five upserts and the graph version, or nothing |
| MutationBatch.MetadataRepository.ApplyMutations | apps/local-core/src/metadata-repository.ts:1900-2043 | Commits iff project, base version and every operation are accepted; otherwise no table changes |
| MutationBatch.MetadataRepository.Reorder | apps/local-core/src/metadata-repository.ts:1993-2005 | The check by counts and membership is the check for a permutation; rows get their place in the list |
| MutationBatch.MetadataRepository.PutWorkspaceRow | apps/local-core/src/metadata-repository.ts:5482-5506 | A new workspace goes last in its project; an existing one keeps project and place |
| MutationBatch.MetadataRepository.RemoveRefs | apps/local-core/src/metadata-repository.ts:5445-5463 | Every readable presentation of the project loses the scope or workspace reference, nothing else changes |
| MutationBatch.CountedPermutation | apps/local-core/src/metadata-repository.ts:1995-2000 | Equal counts and membership mean a permutation, both ways |
| MutationHistory.ProjectOfBatch | apps/local-core/src/metadata-repository.ts:2045-2090 | The first operation whose payload names a project decides; else the project given; else the first operation on a row that belongs to one |
| MutationHistory.OperationIsOk | apps/local-core/src/metadata-repository.ts:1935-2034 | When each operation is carried out, in terms of the stored rows |
| MutationHistory.VersionAfterBatch | apps/local-core/src/metadata-repository.ts:1919-1934 | A committed batch raises its project's version by one iff it holds a semantic operation, and no other project's |
| MutationHistory.VersionCountsSemanticCommits | apps/local-core/src/metadata-repository.ts:6443-6451 | Over every run the version counts the committed semantic batches; presentation-only batches never move it |
| MutationHistory.SecondOnTheSameBaseIsRefused | apps/local-core/src/metadata-repository.ts:1920-1930 | After a semantic batch, a later batch on the same base is stale iff not in the version-0 corner, and then refused |
| MutationHistory.BaseOneCommitsTwiceAtVersionZero | apps/local-core/src/metadata-repository.ts:1923-1924 | The corner is real |
| MutationHistory.RunKeepsIndicesDistinct | apps/local-core/src/metadata-repository.ts:5482-5506 | Over every run of batches the sort indices of a project stay pairwise distinct |
| MutationHistory.ReorderSetsTheListing | apps/local-core/src/metadata-repository.ts:1993-2005 | A reorder succeeds only for a permutation of all workspaces, and the one listing by index is then that list |
| MutationHistory.DeletedWorkspaceIsUnreferenced | apps/local-core/src/metadata-repository.ts:1980-1992 | After a batch that deletes a workspace no presentation of the project refers to it and its own presentation is gone |
| MutationHistory.BatchKeepsCurrentRevisions | apps/local-core/src/metadata-repository.ts:5545-5551 | No batch changes the current revision or the project of an existing artifact |
| MutationHistory.ViewAfterOp | apps/local-core/src/metadata-repository.ts:1935-2030 | Each operation writes only the view it names, and of it only the fields it gives |
| MutationHistory.WorkspaceAfterOp | apps/local-core/src/metadata-repository.ts:1935-2030 | Likewise for workspaces: a reorder changes only sort indices, an upsert neither project nor index of a row that exists |
| MutationHistory.NewWorkspaceGoesLast | apps/local-core/src/metadata-repository.ts:5482-5506 | A new workspace comes directly after the last one of its project |
| MutationHistory.LastOperationWins | apps/local-core/src/metadata-repository.ts:1935-2030 | Over a whole batch a view is as the last operation that writes it leaves it |
| MutationHistory.LastMoveStays | apps/local-core/src/metadata-repository.ts:1935-2030 | After a committed batch a view is where the batch last moved it, unless it writes the view again |
| PresentationPatch.ApplyPresentationPatch | apps/local-core/src/curation-command-service.ts:376-438 | The loops compute the described state, and fail iff a reference does not resolve or an added edge leaves the members |
| PresentationPatch.PatchedMembers | apps/local-core/src/curation-command-service.ts:390-396 | Members are (old + added) minus removed, old ones first and in order |
| PresentationPatch.PatchedPins | apps/local-core/src/curation-command-service.ts:423-426 | Pins are (old + pinned) minus unpinned, old ones first |
| PresentationPatch.PatchedEdges | apps/local-core/src/curation-command-service.ts:414-422 | An edge of the result is an untouched old one or the last added under its id, and an added one joins two members |
| PresentationPatch.AddedEdgeIsAsSpecified | apps/local-core/src/curation-command-service.ts:414-420 | An added edge leads from what its last specification gives as source to what it gives as target, with its caption |
| PresentationPatch.PatchedPlaces | apps/local-core/src/curation-command-service.ts:405-438 | A patch's positions and emphasis win over those stored; the others and the hidden views stay |
| PresentationPatch.PatchedEntityRefs | apps/local-core/src/curation-command-service.ts:398-404 | Entity references are the old ones and then the new ones; an absent list stays absent only if nothing is added |
| PresentationPatch.PatchedHierarchy | apps/local-core/src/curation-command-service.ts:407-413 | A hierarchy set by a patch places exactly the given members |
| PresentationPatch.PatchKeepsDuplicateFree | apps/local-core/src/curation-command-service.ts:376-438 | Members, entity references, edge ids and pins stay without duplicates |
| PresentationPatch.PatchIsIdempotent | apps/local-core/src/curation-command-service.ts:376-438 | The same patch applies again and changes nothing, edge order included |
| PresentationPatch.EdgesInClosedForm | apps/local-core/src/curation-command-service.ts:415-420 | Replacing edges one by one keeps the other old edges in order and puts the added ones last |
| CurationLedger.CurationCommandService.ApplyPatch | apps/local-core/src/curation-command-service.ts:155-355 | The whole call refines one atomic step: repeat, refusal, throw or commit, as long as every cached receipt is stored, which it keeps so; agreement of cache and table is kept too |
| CurationLedger.CurationCommandService.RunCurationMutation | apps/local-core/src/metadata-repository.ts:2654-2759 | The composite transaction stores the whole plan or nothing |
| CurationLedger.CurationCommandService.CompareAndSwap | apps/local-core/src/metadata-repository.ts:2634-2648 | Writes iff the row exists in the project at the expected version, and then raises the version by one |
| CurationLedger.CurationCommandService.CheckPatch | apps/local-core/src/curation-command-service.ts:173-228 | Validation decides exactly the stated conditions and changes nothing |
| CurationLedger.ValidRelationsResolve | apps/local-core/src/curation-command-service.ts:238-260 | After validation no relation end can fail to resolve |
| CurationHistory.CommittedParts | apps/local-core/src/curation-command-service.ts:173-355 | A call that is not a repeat stores every part of its plan or only a receipt, and which of the two exactly when; each relation leads from what its source stands for (the view drafted for the text of that reference, or the entity given) to what its target does |
| CurationHistory.NothingElseIsStored | apps/local-core/src/curation-command-service.ts:308-345 | An applied call adds its drafts, relations and receipt, edits its presentation, and leaves every other row as it was |
| CurationHistory.RecordsOfACall | apps/local-core/src/curation-command-service.ts:258-318 | The change set lists, in order and completely, the presentation's step, the relations and the texts |
| CurationHistory.ReceiptOfACall | apps/local-core/src/curation-command-service.ts:319-325 | The receipt names the change set and lists, in order and completely, the texts, the relations and the presentation |
| CurationHistory.RepeatsGetTheFirstReceipt | apps/local-core/src/curation-command-service.ts:156-159 | Any number of calls later a repeat gets the first receipt and changes nothing |
| CurationHistory.RunIsExactlyOnce | apps/local-core/src/metadata-repository.ts:3556-3580 | Over every run of whole calls: an applied receipt iff one change set of its operation, never two |
| CurationHistory.RecordsFormAChain | apps/local-core/src/curation-command-service.ts:277-306 | In any run, interleaved or not, a presentation's recorded versions and states form a gap-free chain |
| CurationHistory.SnapshotsAreTheEarlierStates | apps/local-core/src/curation-command-service.ts:296-305 | The inverse snapshots are exactly the presentation's earlier states |
| CurationHistory.LateCallsIgnoreTheExpectedVersion | apps/local-core/src/curation-command-service.ts:277-295 | A call past validation commits the same whatever version it expected |
| CurationHistory.LateCallIsExactlyOnce | apps/local-core/src/curation-command-service.ts:230-355 | A call resumed after validation keeps exactly-once iff its operation has no applied receipt, or it throws |
| CurationHistory.DeferredReceiptIsExactlyOnce | apps/local-core/src/curation-command-service.ts:335-338 | The failed receipt of a transaction refused earlier keeps exactly-once iff its operation has no applied receipt |
| CurationHistory.OverwritingBreaks | apps/local-core/src/metadata-repository.ts:3556-3572 | Otherwise its operation is stored twice, or is stored and its applied receipt replaced by a failed one |
| CurationHistory.InterleavedRunIsExactlyOnce | apps/local-core/src/curation-command-service.ts:155-355 | Over every run with both suspensions: exactly-once at the end iff no resumed call replaced an applied receipt |
| CurationHistory.SuspendedRepeatsRunTwice | apps/local-core/src/curation-command-service.ts:155-159 | Of two calls of one operation validated on the same tables, once the first has committed, the operation is applied exactly once iff the second throws |
| CurationHistory.RepeatCommitsAgain | apps/local-core/src/curation-command-service.ts:155-159 | There are such runs in which the second call commits the operation again |
| CurationHistory.RefusedRepeatErasesTheReceipt | apps/local-core/src/curation-command-service.ts:335-338 | And runs in which it is refused and the applied receipt is lost |
| CurationHistory.RefusalWaitsForAnother | apps/local-core/src/curation-command-service.ts:335-338 | When another call of the operation runs between a refused transaction and its receipt, the operation is applied exactly once iff that other call was not applied; no applied receipt is left either way |
| CurationHistory.DeferredRefusalErasesTheReceipt | apps/local-core/src/curation-command-service.ts:335-338 | There are such runs in which the other call commits, validated earlier or begun only then, and its receipt is lost |
| CurationHistory.SecondLateEditIsNotStale | apps/local-core/src/curation-command-service.ts:277-295 | Of two calls validated for one version, the second commits at the version after next iff its patch still applies and its statements are accepted |
| CurationHistory.RefusedReceiptSteps | apps/local-core/src/curation-command-service.ts:164-169 | A refused call's receipt lists steps iff the call was valid and had something to do, though none was kept |
| ActiveContext.ActiveContextStore.Update | apps/local-core/src/active-context-store.ts:140-177 | The result is the described update of what was stored, and memory and table then hold it |
| ActiveContext.ActiveContextStore.Get | apps/local-core/src/active-context-store.ts:121-138 | Memory and table give the same answer, and stay in agreement |
| ActiveContext.ActiveContextStore.GatherClusters | apps/local-core/src/active-context-store.ts:259-283 | The loop computes the clusters of the views not shown |
| ActiveContext.ClustersPartitionTheHiddenViews | apps/local-core/src/active-context-store.ts:259-283 | Each cluster lists exactly its hidden views in order, and its bounds enclose them |
| ActiveContext.VersionFollowsMeaning | apps/local-core/src/active-context-store.ts:140-168 | Refused iff the expected version differs; otherwise the version rises by one iff the fingerprint changes, with at most 12 recent changes |
| ActiveContext.UnmentionedStays | apps/local-core/src/active-context-store.ts:146-157 | What an update does not mention stays, and a null intent clears it |
| ActiveContext.UpdateTakesItsInput | apps/local-core/src/active-context-store.ts:146-168 | The value takes scope, lists, target, and what else is given from the input; lists with each id once in order of first occurrence |
| ActiveContext.UpdateTakesItsViewport | apps/local-core/src/active-context-store.ts:236-318 | The viewport is the given one, showing the visible views or, without a list, the context's own |
| ActiveContext.VersionRisesExactly | apps/local-core/src/active-context-store.ts:146-168 | The version rises by one iff the stored value does not already say what the input asks for, both written out |
| ActiveContext.UpdateRecordsItsChanges | apps/local-core/src/active-context-store.ts:168-174 | One record for each kind of change there was, in a fixed order, with its version, time, author and views; the history keeps the last twelve |
| ActiveContext.UpdateShowsTheGraph | apps/local-core/src/active-context-store.ts:201-330 | The value shows its selected, its own and the visible views in turn, each with the title, kind and revision of the graph's rows, and the target if the graph has it |
| ActiveContext.RefreshKeepsFingerprint | apps/local-core/src/active-context-store.ts:179-199 | Re-projection on any graph keeps the fingerprint iff the value has a scope and repeats nothing |
| ActiveContext.RefreshKeepsCore | apps/local-core/src/active-context-store.ts:179-199 | A value the store wrote keeps everything but its projection and session on any graph |
| ActiveContext.RefreshIsIdempotent | apps/local-core/src/active-context-store.ts:179-199 | Projecting on one graph and then another equals projecting on the other |
| ActiveContext.RepeatedUpdateIsSilent | apps/local-core/src/active-context-store.ts:158-161 | Repeating an update is no semantic change |
| ActiveContext.VersionCountsSemanticUpdates | apps/local-core/src/active-context-store.ts:63-78 | Over every run the version counts the semantic updates and the history stays within twelve |
| ActiveContext.ReadVersionIsStaleAfterASemanticUpdate | apps/local-core/src/active-context-store.ts:143-145 | An expected version is refused iff a semantic update came since it was read |
| SectionDerivation.DeriveSections | apps/local-core/src/conversation-import-service.ts:1011-1083 | The one-pass loop computes the derived sections |
| SectionDerivation.DeriveIsPartition | apps/local-core/src/conversation-import-service.ts:1011-1083 | Derived sections are contiguous, disjoint and cover all messages |
| SectionDerivation.PartitionCoversOnce | apps/local-core/src/conversation-import-service.ts:1011-1083 | Every message is in exactly one section |
| SectionDerivation.StartsAreExactlyTheSplits | apps/local-core/src/conversation-import-service.ts:1057-1061 | A section starts exactly where the split rules say |
| SectionDerivation.PartitionBySplitsIsUnique | apps/local-core/src/conversation-import-service.ts:1057-1061 | The derived partition is the only one that splits there |
| SectionDerivation.UserMessagesOpenSections | apps/local-core/src/conversation-import-service.ts:1057-1061 | A section has at most one user message, and each after the first starts its section |
| SectionDerivation.UnattendedSectionsAreBounded | apps/local-core/src/conversation-import-service.ts:1057-1061 | Without user messages a section has at most 200 messages and 80,000 characters unless it is one message |
| SectionDerivation.DenseSectionsTakeNoMoreReferences | apps/local-core/src/conversation-import-service.ts:1057-1061 | After 20 messages and 8 references no later message of the section has a reference |
| SectionDerivation.DerivedKindAndTitle | apps/local-core/src/conversation-import-service.ts:1030-1047 | Kind and title are those of the section's own messages |
| SectionDerivation.SectionIsCalled | apps/local-core/src/conversation-import-service.ts:1030-1047 | Kind and title in terms of the section's messages: its first user message, else its first that is no tool message, else its first; a missing headline gives the decimal number counted from one |
| SectionRefresh.ConversationSections.RefreshSections | apps/local-core/src/conversation-import-service.ts:450-475 | Rewrites the table to the locked rows and the derived rest, for every order of visiting the shifted rows; refused iff the shift collides in that order, and then unchanged |
| SectionRefresh.ConversationSections.UpdateSection | apps/local-core/src/conversation-import-service.ts:477-487 | Changes the title and lock of the named section and nothing else |
| SectionRefresh.UpdateTitleAndLock | apps/local-core/src/conversation-import-service.ts:477-487 | A title is taken, cut to 160 characters, unless empty; a given lock decides; without one any title other than the stored one locks the section, even an empty one |
| SectionRefresh.NewTitleStays | apps/local-core/src/conversation-import-service.ts:477-487 | A new title of at most 160 characters stays over every run of requests that do not name the section |
| SectionRefresh.MergedIsDerivedOrder | apps/local-core/src/conversation-import-service.ts:450-475 | Locked and derived sections merged by start are the derived order |
| SectionRefresh.MeetMeansSharedMessage | apps/local-core/src/conversation-import-service.ts:450-458 | The test for meeting a locked section holds iff the two ranges share a message |
| SectionRefresh.WriteLocked | apps/local-core/src/conversation-import-service.ts:450-475 | Writing back a locked row breaks no key at any intermediate step |
| SectionRefresh.WriteDerived | apps/local-core/src/conversation-import-service.ts:1085-1088 | Inserting a derived row breaks no key at any intermediate step |
| SectionRefresh.RunKeepsPartition | apps/local-core/src/conversation-import-service.ts:450-487 | Over any run of refreshes, accepted or refused, and updates the stored ranges are the derived partition, numbered 0..k-1 |
| SectionRefresh.LockedSectionSurvives | apps/local-core/src/conversation-import-service.ts:450-487 | A locked section no request names is untouched by any run |
| SectionRefresh.RefreshIsIdempotent | apps/local-core/src/conversation-import-service.ts:450-475 | A refresh that is not refused leaves every locked section as it was and makes every unlocked one the derived one, unlocked; another refresh changes nothing |
| SectionRefresh.NumbersAreAVisit | apps/local-core/src/conversation-import-service.ts:460-460 | The numbers met by the shift are those of the locked sections, each once |
| SectionRefresh.RefusedExactly | apps/local-core/src/conversation-import-service.ts:460-460 | A refresh is accepted in every order of visiting iff no two locked sections are a million apart; ascending order is refused otherwise, descending order never is |
| SectionRefresh.SmallConversationsAlwaysRefresh | apps/local-core/src/conversation-import-service.ts:460-460 | With at most a million sections no refresh is refused |
| SectionRefresh.LockingEverySectionBlocksRefresh | apps/local-core/src/conversation-import-service.ts:460-460 | A conversation with more sections, all locked, collides in ascending order, and user messages make as many sections as messages |
| ConversationUpload.ConversationImportService.CreateImportSession | apps/local-core/src/conversation-import-service.ts:272-296 | An empty upload is opened iff project, source, scope and expected size are acceptable and the id is new; otherwise nothing changes |
| ConversationUpload.ConversationImportService.AppendChunk | apps/local-core/src/conversation-import-service.ts:303-338 | A chunk is stored, replayed without effect, or refused with the stated error |
| ConversationUpload.ConversationImportService.CompleteImport | apps/local-core/src/conversation-import-service.ts:340-386 | Completes iff the chunks are all there and the hash matches, with the conversation of the content |
| ConversationUpload.AppendKeepsValid | apps/local-core/src/conversation-import-service.ts:303-338 | Received bytes and count stay the sum and number of the chunks, within 512 MiB |
| ConversationUpload.EveryArrivalIsAccepted | apps/local-core/src/conversation-import-service.ts:303-338 | Pieces of 1 byte to 4 MiB that total at most 512 MiB are all accepted, in every order and however often repeated |
| ConversationUpload.DeliveredChunks | apps/local-core/src/conversation-import-service.ts:303-338 | The table then holds exactly the pieces that arrived |
| ConversationUpload.ArrivalOrderIsIrrelevant | apps/local-core/src/conversation-import-service.ts:340-386 | The assembled content is the concatenation by index for every arrival order |
| ConversationUpload.SameBytesSameConversation | apps/local-core/src/conversation-import-service.ts:767-777 | In one project finished uploads share a conversation iff their bytes are equal |
| ConversationUpload.CompletionIsStable | apps/local-core/src/conversation-import-service.ts:340-386 | Over every run of creations, chunks and completions a completed upload keeps its ready conversation |
| ConversationUpload.EqualContentResolvesToIt | apps/local-core/src/conversation-import-service.ts:764-800 | Whenever later another upload of the project completes with the same bytes, it gets that conversation |
| EmbeddingIndex.ConversationIndexer.RunJob | apps/local-core/src/conversation-import-service.ts:640-761 | One run stores exactly the answered batches and settles the job accordingly |
| EmbeddingIndex.ConversationIndexer.StoreBatch | apps/local-core/src/conversation-import-service.ts:690-735 | A batch is stored whole or not at all |
| EmbeddingIndex.EarlierBatchesStay | apps/local-core/src/conversation-import-service.ts:690-761 | After a failed batch the earlier ones are fresh and nothing else changed |
| EmbeddingIndex.StaleAfterFullPass | apps/local-core/src/conversation-import-service.ts:1287-1297 | After a full pass the stale messages are exactly the indexable ones imported meanwhile |
| EmbeddingIndex.BackfillsExactly | apps/local-core/src/conversation-import-service.ts:1201-1235 | A message with text that lacks a hash or the present version gets both; nothing else changes |
| EmbeddingIndex.WorkExactly | apps/local-core/src/conversation-import-service.ts:661-674 | A job embeds its messages with text that have no embedding for its model, or one without a hash, or of another hash or version; all if forced |
| EmbeddingIndex.SuccessfulRunEndsReady | apps/local-core/src/conversation-import-service.ts:640-761 | A successful run ends ready iff nothing indexable was imported meanwhile |
| EmbeddingIndex.JobsSettle | apps/local-core/src/conversation-import-service.ts:640-761 | Over every run, stops included: the first run that succeeds, or fails with two before it, closes the job and decides its status; stopped runs count as attempts and never close it |
| EmbeddingIndex.JobsEndAfterThreeFailures | apps/local-core/src/conversation-import-service.ts:743-761 | Without stops a job fails iff its first three runs all fail, and is open only before that |
| EmbeddingIndex.ConversationIndexer.RecoverInterrupted | apps/local-core/src/conversation-import-service.ts:1181-1189 | After a restart a running job is pending, with its attempts; any other job stays |
| ContextPack.ProjectAttention | apps/local-core/src/attention-runtime-service.ts:443-586 | The loops compute the attention of the collected evidence |
| ContextPack.ChosenSource | apps/local-core/src/attention-runtime-service.ts:459-481 | Selected, pinned or locked evidence always decides where a view goes |
| ContextPack.ResolvedExactly | apps/local-core/src/attention-runtime-service.ts:563-579 | Every existing, not excluded view with evidence resolves to one piece, with the best-ranked source and the greatest strength of its evidence |
| ContextPack.AttentionKeepsTheStrongest | apps/local-core/src/attention-runtime-service.ts:579-586 | Buckets are strongest first, ties by view id; the 14 strongest related and the 8 strongest retrieved pieces are kept, and nothing left out is stronger than what is kept |
| ContextPack.ComposeContextPack | apps/local-core/src/attention-runtime-service.ts:627-686 | The loop computes the pack of the ordered evidence |
| ContextPack.OfferedStrongestFirst | apps/local-core/src/attention-runtime-service.ts:636-642 | The pack is offered selected, then pinned pieces, then the related and retrieved ones about other views, strongest first |
| ContextPack.PackTakesInOrder | apps/local-core/src/attention-runtime-service.ts:646-670 | The pack takes the offered pieces in order, passes over exactly those that do not fit, and is marked truncated iff there are any |
| ContextPack.ItemCost | apps/local-core/src/attention-runtime-service.ts:688-707 | A text item costs at most the larger of 46 and what remains |
| ContextPack.WantedViewsArePacked | apps/local-core/src/attention-runtime-service.ts:565-586 | Each selected, pinned or locked view that exists and is not excluded is in the pack exactly once; no excluded view is |
| ContextPack.ComposedBudget | apps/local-core/src/attention-runtime-service.ts:636-670 | The running total stays within the budget and 46 tokens for each mandatory item after the first |
| ContextPack.OptionalStaysWithinBudget | apps/local-core/src/attention-runtime-service.ts:636-670 | The pack is all mandatory pieces followed by optional ones, which never take it above the larger of the budget and the mandatory cost |
| ContextPack.PackStaysNearBudget | apps/local-core/src/attention-runtime-service.ts:636-670 | The total is at most the budget and 46 tokens for each mandatory item but one |
| ContextPack.PackBoundIsReached | apps/local-core/src/attention-runtime-service.ts:701-706 | That bound is reached |
| ContextManifest.ManifestBuilder.AppendArtifact | apps/local-core/src/context-manifest-service.ts:190-230 | Appends one bounded item and accounts for its characters, or passes the artifact over |
| ContextManifest.ManifestBuilder.Build | apps/local-core/src/context-manifest-service.ts:120-372 | The loops build the described manifest, and fail iff the request names something unknown |
| ContextManifest.ManifestBuilder.AppendSaved | apps/local-core/src/context-manifest-service.ts:232-257 | Saved items are appended in order with their own identities |
| ContextManifest.BudgetIsSpentExactly | apps/local-core/src/context-manifest-service.ts:190-230 | The budget falls by exactly the characters appended, is never overdrawn, and no item exceeds its share |
| ContextManifest.ManifestFitsTheBudget | apps/local-core/src/context-manifest-service.ts:27-28 | Every manifest's artifact contents fit 128,000 characters in all and 32,000 each |
| ContextManifest.TruncationIsReported | apps/local-core/src/context-manifest-service.ts:209-213 | An artifact is listed as truncated iff its item holds less than the full text |
| ContextManifest.AppendedItem | apps/local-core/src/context-manifest-service.ts:190-230 | An appended item carries its artifact's rows, the identity asked for, and the beginning of the file's text: at most 32,000 characters and at most what remains |
| ContextManifest.RowsExactly | apps/local-core/src/context-manifest-service.ts:190-203 | An artifact is passed over unless the revision given, or else its current one, is stored, belongs to it and has its file |
| ContextManifest.SavedRequestIs | apps/local-core/src/context-manifest-service.ts:232-257 | A saved item asks for its saved, or else the current, revision under an identity of artifact, revision and anchor |
| ContextManifest.RequestsInOrder | apps/local-core/src/context-manifest-service.ts:232-286 | What is appended and in what order: saved, target, references, feedback, the given artifacts not yet appended, else the siblings |
| ContextManifest.EntriesComeLast | apps/local-core/src/context-manifest-service.ts:287-313 | Notes, checkpoints and extras follow the artifacts, each as given |
| ContextManifest.ManifestSays | apps/local-core/src/context-manifest-service.ts:314-372 | Project, target, focus and plan of the manifest |
| ContextManifest.NotesComeLast | apps/local-core/src/context-manifest-service.ts:287-296 | The notes end the feedback and the locked text |
| ContextManifest.FeedbackSaysItsOwnTextOrTheItemBefore | apps/local-core/src/context-manifest-service.ts:260-269 | Every feedback entry is its artifact's own bounded text iff that artifact has a stored current revision, and else the content of the item before it |
| ContextManifest.TargetItemIsCurrent | apps/local-core/src/context-manifest-service.ts:257-257 | The item after the saved ones shows the target's current revision; it agrees with the manifest's target iff no other revision was asked for |
| ContextPrompt.StableItemsAreSaved | apps/local-core/src/context-prompt-serializer.ts:105-114 | The planned identities pick saved items only, whatever follows them |
| ContextPrompt.PrefixIsStable | apps/local-core/src/context-prompt-serializer.ts:131-157 | Prefix, snapshot and cache family depend only on project id and name, the saved items with their rows, and the plan ids |
| ContextPrompt.PrefixHoldsTheSavedItems | apps/local-core/src/context-prompt-serializer.ts:105-157 | With distinct identities the prefix holds exactly the saved items in order |
| ContextPrompt.TailRepeatsNothing | apps/local-core/src/context-prompt-serializer.ts:121-129 | No identity and no artifact revision of the prefix is repeated in the tail |
| ContextPrompt.NothingIsLost | apps/local-core/src/context-prompt-serializer.ts:121-129 | Every item is in the tail or stands in the prefix under its identity or revision |
| ContextPrompt.CompiledParts | apps/local-core/src/context-prompt-serializer.ts:131-157 | Every part of prefix, tail, snapshot and cache family in terms of the manifest and the task |
| CapturePlacement.CapturePlacementService.Place | apps/local-core/src/capture-placement-service.ts:35-74 | Terminates with the first free ring slot, or the first free fallback slot when the ring is exhausted |
| CapturePlacement.AnchorIsTheLastCorner | apps/local-core/src/capture-placement-service.ts:38-53 | The anchor is the lower right corner of the scope's last view, or (180, 160) if it has none |
| CapturePlacement.ReservedSize | apps/local-core/src/capture-placement-service.ts:36-37 | A missing size is 280 by 190; a given one is kept between 80 and 720 by 48 and 520 |
| CapturePlacement.PlacementUniqueAndApart | apps/local-core/src/capture-placement-service.ts:17-25 | The placement is unique and keeps the gap to every view of the scope |
| CapturePlacement.OverlapMeansSharedPoint | apps/local-core/src/capture-placement-service.ts:17-25 | The overlap test holds iff the gap-widened rectangles share a point |
| CapturePlacement.RunAddsNoOverlap | apps/local-core/src/capture-placement-service.ts:35-74 | In a run of captures within their reserved sizes, none overlaps a view that was there when it was placed, whatever captures are inserted before it is |
| CapturePlacement.PlacedTogetherOverlap | apps/local-core/src/capture-space-service.ts:253-254 | Two captures of one size placed on the same rows, as when calls overlap, get the same place and overlap |
| CapturePlacement.CapturePlacementService.PlaceAndInsert | apps/local-core/src/capture-space-service.ts:253-254 | One capture: the view is inserted at the placement of the scope as it was |
| CapturePlacement.RingExhaustedExactly | apps/local-core/src/capture-placement-service.ts:54-64 | The ring is exhausted exactly when every slot that fits the row is blocked |
| CapturePlacement.FittingSlots | apps/local-core/src/capture-placement-service.ts:54-64 | Which slots fit: the first column always, none from number 16 on, and for a width above 348 exactly 0 and 2, unless the last view ends left of x = -80 |
| CapturePlacement.WideRingExhausted | apps/local-core/src/capture-placement-service.ts:54-73 | For a capture wider than 348 the fallback scan is reached iff slots 0 and 2 are blocked, for every scope and height |
| CapturePlacement.FallbackIsReachable | apps/local-core/src/capture-placement-service.ts:58-74 | A scope of two views in which they are |
| CaptureMaterialize.CaptureSpaceService.MaterializeToProject | apps/local-core/src/capture-space-service.ts:229-286 | Refuses without a trace, stops at a failing import keeping the earlier ones, or finishes |
| CaptureMaterialize.SuccessfulCallAnswers | apps/local-core/src/capture-space-service.ts:229-286 | For distinct ids a successful call answers each capture once, in agreement with its back-link |
| CaptureMaterialize.FinishedCapturesLeaveTheCanvas | apps/local-core/src/capture-space-service.ts:278-284 | A finished call takes its captures out of the views and regions of the staging canvas, drops the regions left empty, and keeps the rest in order |
| CaptureMaterialize.BatchListsTheImports | apps/local-core/src/capture-space-service.ts:257-277 | Its import batch lists exactly the imported captures, by operation and product |
| CaptureMaterialize.RetryImportsOnlyTheRest | apps/local-core/src/capture-space-service.ts:241-256 | After a partial failure the same request is accepted and finds exactly the rest pending |
| CaptureMaterialize.ResolutionIsFinal | apps/local-core/src/metadata-repository.ts:3758-3763 | Over every run, overlapping calls included, a resolved capture keeps its project and back-link |
| CaptureMaterialize.RunImportsOnce | apps/local-core/src/capture-space-service.ts:250-256 | Over every run with failures, retries, stops and overlapping calls, each capture is imported at most once iff no event imports one twice, or one imported by a suspended or stopped call, or one resolved since the call looked |
| CaptureMaterialize.DistinctCallsImportOnce | apps/local-core/src/capture-space-service.ts:229-286 | Whole calls of distinct ids, failing or retried, import each capture at most once and resolve all they import |
| CaptureMaterialize.RetryAfterStopImportsAgain | apps/local-core/src/capture-space-service.ts:253-255 | After a stop between an import and its resolution the same request begins with that capture and imports it again iff the import succeeds |
| CaptureMaterialize.OverlappingCallsImportTwice | apps/local-core/src/capture-space-service.ts:241-255 | Two overlapping calls import an open capture twice; the first resolution keeps the back-link |
| CaptureMaterialize.RepeatedIdIsImportedTwice | apps/local-core/src/capture-space-service.ts:252-256 | A repeated id is imported twice and the second product is nobody's back-link |

## Left out

- MutationBatch.MetadataRepository.ApplyMutations: a batch that is a single bootstrap is not covered; it saves a snapshot instead.
- CurationLedger.CurationCommandService.RunCurationMutation: only the parts of a plan that a patch has (texts, relations, presentation, change set, receipt); memberships, markers, colour pins and deletions belong to other callers.
- ContextPack.ProjectAttention: evidence from relations, presentations, recency, neighbourhood and search is an input, in the order it is collected; its scores are not derived.
- ContextManifest.ManifestBuilder.Build: which artifacts count as references, feedback and siblings is an input; deriving them from relations and scopes is a lookup.
- `save`, `bootstrap` and `upsert_artifact` of a new artifact do not check the pointer invariant, which is a precondition here.
- The two workspace membership tables are one set, and the containment check of scopes is an input.
- Runtime bindings (`finalize_pending`), result texts, timestamps and titles: no property depends on them.
- Foreign keys of scopes and of artifact views beyond the owning artifact.
- In curation patches, the rows staged for a created text are an artifact id, a view id and a verdict of the database; their files and their later renaming are not modelled.
- Writing the file of a text edit, moving old files, reindexing, and the eviction of old read leases.
- The concatenation of scope and kind into a cluster key, the ranking of clusters and the cut to 24, relations and summaries of the active context; subscribers and events.
- Rendering of manifests and prompts to text, previews, normalisation and the extraction of locked elements: they are functions of the parts modelled here.
- Parsing of conversation files is an input outcome; message texts are lengths where only lengths matter.
- Layout of capture groups and of imported images, hybrid search, intent rules, migrations and row mapping.
- Import of a staged capture through other services: its product is an arbitrary input.
