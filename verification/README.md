# Verified model of Centaur Context

Centaur Context keeps a graph of Objects and connections in Postgres, with Chats, curated Memories, a ledger of events
and a table of runs. This project models the parts where several operations together have to keep a promise, and proves
the promises:

- **Memory maintenance** (`MemoryGraph`, `DreamStore`, `DreamJournal`, `DreamTheorems`, `DreamRules`): a reviewed plan of rewrites,
  retirements, merges, disconnections and connections is applied in one transaction, every change journaled with the row
  it replaced; a recovery replays the journal backwards. `DreamStore.Store` is the store that is updated in place; what
  its methods promise is stated by functions and predicates on graphs, about which the theorems speak.
- **Reviewed purge** (`PurgeModel`, `PurgeClosure`, `PurgeManifest`, `ReferenceScan`, `PurgeDelete`, `PurgeColumns`): a selection
  grows to what it owns, a manifest lists what would go and what stands in the way, and the deletion runs table by table.
- **Cutover** (`Cutover`, `CutoverProgress`): three advisory locks and one row that stop the older Memory writers
  for good, while nobody is ever stuck behind the locks.
- **Curator** (`CuratorPlan`, `CuratorRuns`, `CuratorCommit`, `CuratorTheorems`, `ChatWindows`): cutting Chats into windows, the life of a run,
  checking its plan, committing it and taking it back.
- **Review scan** (`AdvisoryContext`, `ReviewScan`): packing a batch into the model's input and getting through all of them.
- **Outcome capture** (`OutcomeRules`, `MemoryCapture`): what becomes of one event, and passes over the event ledger that
  check off each event once.
- **Smaller machines** (`ArtifactChunks`, `ExternalActions`, `RowPaging`).
- **Helpers** (`Wrappers`, `Collections`, `Listings`, `Text`): absent values, ids, fresh ids and filters, sorted listings, UTF-8,
  substrings, words and letter case.

The operations are written the way the code writes them, over small functions and predicates. What these come to is
said once more in terms of rows, columns and the fields of a request, so that each acceptance rule and each effect has two
independent descriptions: `DreamRules`, `PurgeColumns`, `CuratorTheorems` and the lemmas named `...Iff` and `...Is`.

Tables are maps, sets or sequences of rows; ids are natural numbers, a new id is one no row has. Wording rules, digests
and fingerprints are arbitrary functions, a digest being taken to determine the row it digests. Clock readings, model
answers, failures and interleavings are inputs, and the theorems hold for all of them.

Where the code does not do what one would expect of it, the model follows the code:

- A recovery of a maintenance run can fail on a graph that already had an active connection to an archived Object. Two
  paths leave one: outcome capture looks at its target without locking it (`src/memory.rs:45-50`) and connects it later,
  and synthesis archives a retired Memory without its connections (`src/event_memory.rs:853-856`).
  `DreamJournal.UndoTheorem` says exactly when recovery succeeds, `DreamTheorems.DanglingEdgeBlocksUndo` gives an accepted
  plan that cannot be undone.
- `fail_curator_run` sets the status of a run to failed whatever it is. A run can therefore commit twice, as
  `CuratorRuns.SecondCommit` does; `CommitsCounted` counts the commits of every history. A worker that lost its run can
  commit it, as in `StaleCommit`, but only once the run has failed (`FencedUnlessFailed`); then its owner may still commit
  as well (`OwnerAfterFailure`), and `UnfencedIff` says when somebody else can. And the ten minutes of a claim run from the
  first claim, as in `EarlyTakeover`; `EarlyTakeoverIff` says which claims that hurts.
- Undoing a curator run also takes back the Chat summary the worker journaled under it, and it fails if the text before
  that summary would not be accepted today: `CuratorCommit.RunThenUndo`.
- A serializable apply looks for the cutover in a snapshot older than the writer lock it then takes. It is its caller's
  lease that keeps it fenced: `Cutover.LostLeaseBreaksFence`.
- The worker's filters run on the plan before names are trimmed, so they can leave a link to a dropped Memory that
  validation then refuses: `CuratorPlan.DropKeepsAcceptedIff` and `DropBreaksUntidyNames`.
- A resent external event is recognised only when it comes from the principal that reserved the action:
  `ExternalActions.ResendKnown`; `DoubleRecordIff` says which events are then recorded twice.
- One event whose Memory the description rules refuse undoes the capture pass that reaches it, and with it every later
  pass: `MemoryCapture.DrainsIff` and `StallsForever`. A note titled "check what the model generated" is one:
  `OutcomeRules.AwkwardRefused`.
- The cursor of a focused page of rows forgets the focus: `RowPaging.FocusForgotten` says when the next page keeps it all
  the same, `RowPaging.FocusLost` gives a table where it does not.

## Model

| member | source | states |
|---|---|---|
| DreamStore.Store.AddEdge | src/dreaming.rs:999-1031 | a connection is added exactly between two live, distinct Objects and only when no active one has its triple; otherwise nothing changes |
| DreamStore.Store.RetireMemory | src/dreaming.rs:1033-1081 | a retirement succeeds exactly when every active connection of the Memory is in the batch, current, editable and movable; it archives them and the Memory, having carried each to the survivor of a merge |
| DreamStore.Store.ApplyMerge | src/dreaming.rs:712-758 | accepted exactly for two untouched, current, eligible Memories of one event; the survivor is rewritten and names the merged Memory, the other is retired into it |
| DreamStore.Store.ApplyDisconnect | src/dreaming.rs:759-778 | accepted exactly for a current editable connection of the batch that is not evidence derivation; only it is archived |
| DreamStore.Store.ApplyConnect | src/dreaming.rs:779-858 | accepted exactly under the endpoint, kind and text rules; an existing connection is redescribed, else one new one appears |
| DreamStore.Store.ApplyPlan | src/dreaming.rs:543-886 | applied plans are a chain of accepted changes journaled once per target; a rejected plan or a preview leaves the store as it was, and a rejection names its reason |
| DreamStore.Store.Undo | src/dreaming.rs:1477-1573 | only a completed run is recovered, all or nothing, and what it does is the backwards replay of the journal; a reversed run is left alone |
| DreamJournal.UndoOne | src/dreaming.rs:1500-1560 | from a graph with the later entries undone, undoing one more succeeds exactly when the connection it changed had two live ends, and lands one step further back |
| DreamJournal.UndoTheorem | src/dreaming.rs:1477-1573 | with no write in between, recovery succeeds exactly when every connection the run changed had two live, distinct ends before it; then every Object and the set of active connections are back |
| DreamJournal.UndoSucceedsWhenSound | src/dreaming.rs:1477-1573 | in a graph without dangling connections recovery always succeeds |
| DreamJournal.LaterWriteBlocksUndo | src/dreaming.rs:1474-1505 | whatever was written since, recovering a journal that names each target once succeeds only if every target still has the revision the run gave it |
| DreamJournal.UndoKeepsSound | src/dreaming.rs:1500-1560 | whatever was written since, a recovery that succeeds leaves a sound graph sound, and changes only Memories and events and only what the run had changed |
| DreamTheorems.ApplyThenUndo | src/dreaming.rs:543-886 | applying any plan and recovering it restores the graph whenever recovery succeeds, and in a sound graph it does |
| DreamTheorems.DanglingEdgeBlocksUndo | src/dreaming.rs:1534-1544 | an accepted plan whose recovery fails: it disconnected a connection to an Object archived before |
| DreamTheorems.MergeIsSubstitution | src/dreaming.rs:712-758 | the active (source, kind, target) triples after merging b into s are the image of those before under b to s, without self-edges and repetitions |
| DreamTheorems.MergeKeepsEvidence | src/dreaming.rs:440-463 | the survivor keeps the evidence keys both Memories had |
| DreamTheorems.SoundThroughout | src/dreaming.rs:677-858 | after every single journaled change active connections have two live distinct ends and no two share a triple |
| DreamTheorems.OnlyEligibleChanged | src/dreaming.rs:465-495 | every row an accepted plan changes was eligible, or editable, and listed in the batch; all others are unchanged |
| DreamRules.OnlyOwnChanged | src/dreaming.rs:423-440 | an accepted plan changes only live Memories of the batch that nobody protected or locked and that the system's workers alone had written, and of them only texts, provenance, archiving, revision and writer; connections likewise |
| DreamRules.OwnMemoryIff | src/dreaming.rs:423-440 | which Memories maintenance may edit, column by column, with a receipt as the alternative to a known worker |
| DreamRules.RewriteIff | src/dreaming.rs:681-703 | a rewrite is accepted exactly for such a Memory at its reviewed revision, not yet edited by the plan, that rests on something, with texts that meet the rules; it writes the two texts |
| DreamRules.RetireIff | src/dreaming.rs:704-711 | a retirement is accepted exactly for such a Memory with at most 25 active connections, each open to maintenance; it archives the Memory and them |
| DreamRules.MergeIff | src/dreaming.rs:712-758 | a merge is accepted exactly for two such Memories on the same event, messages, receipt, time and Chat, when each connection of the first can be said of the second |
| DreamRules.MergeWrites | src/dreaming.rs:712-758 | what a merge writes in both Memories, in the connections archived and in each one moved |
| DreamRules.DisconnectIff | src/dreaming.rs:759-778 | a disconnection is accepted exactly for a reviewed connection open to maintenance that does not say where a Memory comes from; it archives that row |
| DreamRules.ConnectIff | src/dreaming.rs:779-858 | a connection is accepted exactly from a Memory as shown, of one of four kinds, to an end that is as shown or edited by the plan, when what is there already is open to maintenance |
| DreamRules.ConnectWrites | src/dreaming.rs:779-858 | an existing connection is redescribed, if it says something else; otherwise one new connection appears |
| DreamRules.CurrentIff | src/dreaming.rs:584-676 | what is revalidated before any change: every Memory, its approved connections and fingerprint, every connection shown, and the context of an approved batch |
| DreamRules.TouchedIff | src/dreaming.rs:677-690 | the Memories that count as edited so far are those rewritten, retired or merged |
| PurgeClosure.Close | src/reviewed_purge.rs:806-869 | the selection grows to the set reached by ownership paths, terminates, and keeps each row's reason |
| PurgeClosure.ClosureIsLeast | src/reviewed_purge.rs:806-869 | that set is contained in every set that holds the selections and is closed under ownership |
| PurgeClosure.ObjectsAndRunsAreSelected | src/reviewed_purge.rs:806-869 | ownership never adds an Object or a Run |
| PurgeClosure.SelectionIgnoresOrder | src/reviewed_purge.rs:806-869 | rows and reasons selected do not depend on the order of rows |
| PurgeClosure.EventFollowsTarget | src/reviewed_purge.rs:933-943 | without a history blocker an event is deleted exactly when its target is |
| PurgeClosure.Descendants | src/reviewed_purge.rs:344-358 | the loop finds exactly the runs reachable from the cancelled one by parent links |
| ReferenceScan.ScanIsSubstringTest | src/reviewed_purge.rs:728-743 | in any JSON value the dash-anchored byte scan says what naive substring search says, around multi-byte characters and at string ends too |
| PurgeManifest.CollectBlockers | src/reviewed_purge.rs:870-955 | the loops collect the blockers of proofs, foreign keys and rows, none skipped |
| PurgeManifest.BuildPreview | src/reviewed_purge.rs:767-1003 | a request is previewed exactly when its rows are selectable, stored with exactly the content selected, and distinct; the result is the manifest of the closure |
| PurgeManifest.RootsIff | src/reviewed_purge.rs:774-805 | under unique keys the selections accepted are exactly those whose rows are stored as selected, of nine tables and with a reason, none repeated; each keeps its own reason |
| PurgeColumns.SweptIff | src/reviewed_purge.rs:806-869 | a row not asked for is selected exactly when one of the columns that count for its table names a selected row |
| PurgeColumns.ManifestExact | src/reviewed_purge.rs:956-1003 | the manifest lists, counts, and exports exactly the selected rows and shows exactly the retained rows that mention a selected id |
| PurgeColumns.UnblockedIff | src/reviewed_purge.rs:870-995 | in columns, what empties the blocker list |
| PurgeColumns.BlockersReported | src/reviewed_purge.rs:870-995 | the list reports exactly the rows and keys that stand in the way, each with its reason |
| PurgeManifest.BlockersExact | src/reviewed_purge.rs:870-995 | the blocker list is empty exactly when no retained proof, cut foreign key, correction, erased history, retained cursor, active occurrence or unfinished run stands in the way |
| PurgeManifest.UnblockedKey | src/reviewed_purge.rs:881-919 | the preview's foreign key test fails exactly when deletion would leave that key dangling |
| PurgeManifest.PreviewIgnoresOrder | src/reviewed_purge.rs:1080-1092 | previewing permuted rows gives the same manifest and recovery export, so only a real change fails the hash comparison |
| PurgeManifest.UnblockedIsApproved | src/reviewed_purge.rs:1090-1097 | an empty blocker list of the preview, which sees the managed tables and three of those in part, gives everything the staged deletion of the whole database needs |
| PurgeManifest.UnblockedLiveIsApproved | src/reviewed_purge.rs:744-756 | so it does for the foreign keys of the schema the code runs on |
| PurgeManifest.LiveKeysInView | src/reviewed_purge.rs:700-725 | the preview sees the columns of every foreign key that could block |
| PurgeManifest.EntityDatabase | migrations/0038_events_and_entity_categories.sql:62-101 | a database with an Entity, its category and two names of it meets what the theorem asks |
| PurgeManifest.CommitPurge | src/reviewed_purge.rs:1074-1210 | a purge goes through exactly when the approved manifest is reproduced without a blocker; then the whole database is intact at every stage and only the selected rows are gone |
| PurgeDelete.LiveKeysFollow | migrations/0035_visual_artifacts.sql:9-41 | every foreign key of the migrated schema, those of never purged tables included, is one the deletion order copes with |
| PurgeDelete.NeverPurgedBlocks | migrations/0036_agent_corrections.sql:2-9 | a row of a table that is never purged blocks the deletion of what it names |
| PurgeDelete.BlockedColumns | src/reviewed_purge.rs:881-919 | a key blocks exactly when a retained row holds, in every column and none null, what a selected row has; the Chat of a reviewed Run does not count |
| PurgeDelete.LeftColumns | src/reviewed_purge.rs:1102-1128 | what a purge leaves are the unselected rows with every column as it was, but for the Chat of the reviewed Runs, which is null |
| PurgeDelete.StageIntact | src/reviewed_purge.rs:38-59 | for any foreign keys that follow the order, or come from tables outside it, no row dangles after detaching, after clearing cursors, and after each table, if none is blocked |
| PurgeDelete.Database.Prepare | src/reviewed_purge.rs:1102-1161 | afterwards reviewed Runs have no Chat and selected Chats no cursors, every other column is as before; it fails exactly when the number of Chats surprises it, which it does not for an approved purge |
| PurgeDelete.Database.DeleteSelected | src/reviewed_purge.rs:1162-1203 | each step deletes exactly the selected rows of one table, and for an approved purge the rows are intact after each |
| PurgeDelete.Database.Execute | src/reviewed_purge.rs:1015-1213 | a purge completes exactly when no row count surprises it, as for every approved one; it leaves every unselected row as it was but for the Chat of reviewed Runs, and nothing dangling; a failed one changes nothing |
| Cutover.CutoverFences | src/event_memory.rs:277-292 | in every interleaving there is one cutover, its baseline holds exactly what was committed before it, and only a dream apply without its lease commits behind it |
| Cutover.NothingBehindCutover | src/dreaming.rs:1146-1152 | as long as leases last nothing commits behind the cutover |
| Cutover.LastUnlessUnleased | src/dreaming.rs:1146-1152 | commit by commit: the cutover is the last entry exactly when no apply without its lease came behind it, and only dream passes and saved plans come there |
| Cutover.LostLeaseBreaksFence | src/dreaming.rs:554-583 | a saved plan that lost its lease commits after the cutover although it took the writer lock and looked again |
| Cutover.ActivatorFacts | src/event_memory.rs:277-292 | each step of an activation leaves it holding the locks it should, and its baseline snapshot is still the whole log when its row commits |
| Cutover.CapturerFacts | src/memory.rs:14-23 | each step of an outcome capture leaves its lock held and its look at the cutover still true when it commits |
| Cutover.CuratorFacts | src/curator.rs:472-493 | the same for a reconcile, whose second look is made under the writer lock |
| Cutover.DreamFacts | src/dreaming.rs:1277-1286 | the same for dream passes and saved plans, whose look is at the snapshot of their transaction, as long as the lease lasts |
| Cutover.RunKeeps | src/event_memory.rs:268-275 | in every interleaving all writers keep their locks and their knowledge, and the log stays fenced |
| CutoverProgress.EachFinishes | src/event_memory.rs:277-292 | a process that finds its locks free comes to its end by its own steps and gives the locks back; without a cutover it has committed exactly its one write, behind a cutover nothing |
| CutoverProgress.NeverStuck | src/dreaming.rs:1146-1152 | no interleaving leaves all unfinished processes waiting for each other |
| CutoverProgress.StartersOwnNothing | src/event_memory.rs:268-275 | in every interleaving a process that has not started owns no lock |
| CutoverProgress.BusyLockEnds | src/memory.rs:14-20 | outcome captures and saved plans end at once when another owns their first lock |
| CuratorPlan.Validate | src/curator.rs:825-917 | a plan is accepted exactly under the listed rules, and what comes back is its normal form |
| CuratorTheorems.AcceptedIff | src/curator.rs:825-917 | a plan is accepted exactly if it has at most a hundred operations and no update, well-formed Memories with distinct names, links that name stored Objects or its own Memories, and something each Memory rests on |
| CuratorTheorems.NormalForm | src/curator.rs:825-917 | an accepted plan only loses the white space around names and texts, and its kinds are the known ones |
| CuratorPlan.ValidateIdempotent | src/curator.rs:478-524 | validating an accepted plan again accepts it and changes nothing |
| CuratorPlan.Trim | src/domain.rs:52-65 | trimming leaves no outer white space and is the identity where there is none |
| CuratorPlan.DropLeavesNoReference | src/curator.rs:1102-1141 | every Memory left rests on human messages, no link names a dropped one, nothing else is gone |
| CuratorTheorems.DropIff | src/curator.rs:1102-1141 | exactly the Memories stay under whose name nothing is to be rejected, and the links that name no other |
| CuratorPlan.DropKeepsAcceptedIff | src/curator.rs:1102-1141 | an acceptable plan stays acceptable exactly when each of its links that names a dropped Memory, once trimmed, spells it as the plan does |
| CuratorPlan.DropBreaksUntidyNames | src/curator.rs:1102-1141 | a plan the filter makes unacceptable |
| CuratorPlan.UnambiguousIds | src/curator.rs:1148-1168 | the counting loop finds exactly the candidates no other candidate shares kind and title with |
| CuratorPlan.CountOneIff | src/curator.rs:1155-1166 | an identity is counted once exactly when no other candidate has it |
| CuratorPlan.FilterLinks | src/curator.rs:1143-1180 | exactly the links between new Memories, the Chat and those candidates are kept, in order, and the others counted |
| CuratorTheorems.ResolvedIff | src/curator.rs:1143-1180 | a link stays exactly when each end is a new Memory, the Chat, or a candidate alone with its kind and title |
| CuratorPlan.DropUnresolvedKeepsAccepted | src/curator.rs:1143-1180 | a plan whose Memories are grounded in the Chat stays accepted and grounded |
| CuratorRuns.CommitsCounted | src/runs.rs:844-857 | after every history a run has committed once per failure recorded over a settled run, plus once if it is settled now |
| CuratorRuns.FencedUnlessFailed | src/curator.rs:517-538 | in every history a commit that did not find the run failed is its claimant's, or the API's on a run nobody claimed |
| CuratorRuns.UnfencedIff | src/curator.rs:517-538 | after any history, somebody else than the owner can commit next exactly when the run is failed and a worker owns it or is still working on it |
| CuratorRuns.FencedWithoutFailures | src/curator.rs:517-522 | without recorded failures there is at most one commit, by the claimant of the running run or by the API on the queued one |
| CuratorRuns.ClaimIff | src/curator.rs:1923-1967 | a worker's claim succeeds exactly on a due queued or failed run, or one started over ten minutes ago, with attempts left; it writes owner, attempt and first start |
| CuratorRuns.RefusedCalls | src/curator.rs:451-463 | a repetition of the committed plan does nothing; any other call that does not commit owes a failure record, the API two for a bad plan |
| CuratorRuns.FailureAndUndo | src/runs.rs:844-857 | a recorded failure fails the run whatever its status; undo reverses a completed run and no other |
| CuratorRuns.CommitIff | src/curator.rs:494-529 | a call commits exactly when its input holds and the run is neither settled nor claimed by another; otherwise the run is unchanged |
| CuratorRuns.ClaimsBounded | src/curator.rs:1923-1967 | workers claim a run at most three times |
| CuratorRuns.StartKept | src/curator.rs:1936-1944 | the start of a run is never moved by later claims |
| CuratorRuns.TakeoverIff | src/curator.rs:1932-1938 | a claim on a claimed run succeeds exactly when attempts are left and its first start is more than ten minutes ago |
| CuratorRuns.EarlyTakeoverIff | src/curator.rs:1932-1944 | whatever happens next, a claimant can be taken over in the ten minutes after its claim exactly when it was not the last attempt and the run had been started before |
| CuratorRuns.FirstClaimSafe | src/curator.rs:1923-1935 | no claim takes a running run over within ten minutes of its first claim |
| CuratorRuns.SecondCommit | src/curator.rs:451-463 | a history in which one run commits two different plans |
| CuratorRuns.StaleCommit | src/curator.rs:517-538 | a history in which a worker whose run was taken over commits it once it has failed |
| CuratorRuns.OwnerAfterFailure | src/curator.rs:517-538 | a history in which an API call's failure is recorded over a claimed run, which its claimant then commits |
| CuratorRuns.EarlyTakeover | src/curator.rs:1932-1943 | a history in which a claimant is taken over after one second |
| CuratorCommit.Store.CreateMemories | src/curator.rs:556-585 | exactly the plan's Memories are added under fresh ids, journaled in order, and every old Object is unchanged |
| CuratorCommit.Store.CreateLinks | src/curator.rs:587-648 | afterwards every link of the plan holds, only links not held before were added, and it fails exactly on a self-link |
| CuratorCommit.Store.Commit | src/curator.rs:478-648 | a plan commits exactly when it is accepted, allowed and free of self-links; otherwise the store is unchanged |
| CuratorCommit.CommitGrounds | src/curator.rs:979-1024 | each new Memory rests on human messages of the window and has an active derived_from connection to its Chat |
| CuratorTheorems.PolicyIff | src/curator.rs:1216-1316 | which accepted plans the transaction allows: human messages of the window and a link to the Chat for each Memory; ends that are new, the Chat or retrieved, one of them a Memory, for each link |
| CuratorTheorems.AddedMemory | src/curator.rs:556-585 | each Memory is stored as proposed, on its messages and from the Chat |
| CuratorTheorems.AddedLink | src/curator.rs:1281-1316 | each connection a commit adds joins a Memory to Objects the run made or was shown, and cites messages of the window |
| CuratorTheorems.CommitAllowed | src/curator.rs:478-648 | every accepted plan that meets this commits |
| CuratorCommit.CommitKeepsSound | src/curator.rs:1216-1316 | a commit keeps active connections live, free of self-edges and unique |
| CuratorCommit.Undo | src/curator.rs:743-806 | the undo loop is the backwards replay of the run's journal |
| CuratorCommit.Store.Summarize | src/curator.rs:1848-1920 | the Chat is rewritten and journaled exactly when it is due, left to the system, unchanged since it was read, and the new text meets the rules |
| CuratorCommit.UndoIff | src/curator.rs:1496-1527 | whatever was journaled before and happened since, undo gets past a commit exactly when nobody changed what it added or linked it elsewhere, and has then archived exactly that |
| CuratorCommit.UndoSummaryIff | src/curator.rs:1546-1566 | with a Chat summary in front, undo succeeds exactly when moreover the Chat is live, unchanged since and its earlier text meets the rules, and it then has that text back |
| CuratorTheorems.UndoKeepsSound | src/curator.rs:743-806 | whatever was written since, an undo that succeeds leaves a sound graph sound |
| CuratorTheorems.EditedLinkBack | src/curator.rs:1496-1527 | a connection edited by a run and by nobody since is again what it was, unless another says the same |
| CuratorCommit.CommitThenUndo | src/curator.rs:696-823 | right after a commit undo gets past it, leaves every earlier row alone and archives the rest, on any graph whose connections name existing Objects |
| CuratorCommit.RunThenUndo | src/curator.rs:696-823 | right after a whole run, undo succeeds exactly when the Chat is live and the text its summary replaced meets the rules; every row is then as before |
| ChatWindows.TilesPartition | src/ingest.rs:1108-1202 | cuts are disjoint and cover exactly the messages up to the watermark |
| ChatWindows.ReloadMatches | src/curator.rs:951-977 | however many messages came in since, a run reloads exactly its cut, as many messages as it recorded |
| ChatWindows.PendingIsBacklog | src/ingest.rs:1116-1132 | the query behind the watermark's sequence finds exactly the messages not cut yet |
| ChatWindows.Chat.Insert | src/ingest.rs:1066-1106 | a message is appended exactly when its provider id is new, and the backlog grows by it |
| ChatWindows.Chat.QueueNextWindow | src/ingest.rs:1108-1202 | the next cut takes the whole backlog, for Codex at most a hundred; it is queued exactly when neither suppressed nor status-only, and moves the watermark either way |
| ChatWindows.Chat.InsertAll | src/codex.rs:254-276 | exactly the messages with unknown keys are appended, in order; a known key with other content refuses the batch |
| ChatWindows.Chat.Drain | src/codex.rs:321-341 | two rounds leave exactly the computed backlog |
| ChatWindows.Chat.Capture | src/codex.rs:155-341 | a batch is taken exactly when it has at most a hundred messages, repeats no message id and agrees with every known message of the same key; then exactly its messages with new keys are appended, the tiling is kept and the backlog is the computed one; else nothing changes |
| ChatWindows.BacklogBounded | src/codex.rs:318-341 | exactly which backlogs one capture catches up |
| ChatWindows.Session | src/codex.rs:155-341 | over any sequence of captures into a new Chat with curation on, at most 99 messages wait after each and none after each finishing one |
| ChatWindows.QueueInactive | src/ingest.rs:1236-1300 | every Chat due is cut to its last message, its messages unchanged |
| OutcomeRules.MilestoneIff | src/memory.rs:152-179 | an edited task in review or done is a milestone exactly when some word of its brief holds a link and is nowhere in the prior brief |
| OutcomeRules.KnownBriefIsNone | src/memory.rs:159-168 | a brief that was there before, alone or within a longer one, is never a milestone |
| OutcomeRules.JudgeIff | src/memory.rs:43-148 | when an event is passed over, when it is remembered and when it stops the pass, by the sentence that would be written |
| OutcomeRules.MilestoneIs | src/memory.rs:152-179 | a milestone is new evidence if the status stayed, else what the status says |
| OutcomeRules.TitleIs | src/memory.rs:88-105 | the Memory's title is what happened and the first 260 characters of the event's |
| OutcomeRules.CommentaryRefused | src/domain.rs:156-163 | an event whose title holds one of the forbidden phrases is refused, whatever else it says |
| OutcomeRules.AwkwardRefused | src/memory.rs:100-105 | a concrete note that is refused |
| MemoryCapture.Capture.Pass | src/memory.rs:13-148 | a pass checks off the 25 oldest open events and counts the Memories, or changes nothing when one of them is refused |
| MemoryCapture.BatchIsOldest | src/memory.rs:27-36 | a batch is the oldest open events in order, 25 or all there are |
| MemoryCapture.PassRecords | src/memory.rs:37-148 | a pass without a refused event records of each event of its batch whether it is remembered, of no other anything, and counts the Memories |
| MemoryCapture.OnceForGood | src/memory.rs:31-42 | an event checked off keeps its record through every later pass, so it is remembered at most once |
| MemoryCapture.StallsForever | src/memory.rs:100-105 | while a refused event is among the oldest open ones no pass checks anything off |
| MemoryCapture.AwkwardStalls | src/memory.rs:100-105 | a ledger with that note is never drained, and while it is among the oldest open events nothing is checked off |
| MemoryCapture.DrainsIff | src/memory.rs:10-33 | repeated passes check off every event, late commits included, exactly when no open event is refused |
| ArtifactChunks.DocumentBytes | src/embeddings.rs:137-139 | a document costs 43 bytes more than its title and body |
| ArtifactChunks.FindLimit | src/embeddings.rs:149-160 | a chunk may reach 6000 characters, pulled back to the last paragraph break of its second half |
| ArtifactChunks.FindEnd | src/embeddings.rs:161-179 | the bisection finds the greatest end whose document fits |
| ArtifactChunks.Chunks | src/embeddings.rs:141-190 | the chunks follow each other from the beginning, each ending where the rules say, up to the end of the content or a character that fits nowhere |
| ArtifactChunks.ChunkFits | src/embeddings.rs:28-30 | every chunk is within 6000 characters and its document within 8000 bytes |
| ArtifactChunks.ChunksOverlap | src/embeddings.rs:187-188 | starts increase without gaps; the overlap is exactly 600 whenever the chunk is longer than that |
| ArtifactChunks.CoverageIff | src/embeddings.rs:141-190 | the chunks cover all content exactly when every character fits a document of its own |
| ArtifactChunks.ShortTitleProgress | src/embeddings.rs:141-190 | with a title of at most 2000 bytes every chunk but the last has at least 1489 characters and each step advances by at least 889 |
| ArtifactChunks.ShortTitleCovers | src/embeddings.rs:141-190 | and nothing is lost |
| ExternalActions.FinalStays | src/external_actions.rs:439-460 | delivered, suppressed and failed are never left |
| ExternalActions.LegalIff | src/external_actions.rs:439-460 | a trace is legal exactly if every event may follow the one before it, and the last event tells the state |
| ExternalActions.CanDeliver | src/external_actions.rs:439-460 | from everywhere but suppressed or failed an action can still be delivered |
| ExternalActions.AcceptedOnce | src/external_actions.rs:439-460 | an action is accepted at most once and not attempted afterwards |
| ExternalActions.AttemptsReconciled | src/external_actions.rs:439-460 | between two consecutive attempts there is exactly one call for reconciliation, then exactly one "absent", and nothing else |
| ExternalActions.DeliveredHistory | src/external_actions.rs:439-460 | a delivered action was previewed, approved, attempted and accepted, in this order |
| ExternalActions.Ledger.Reserve | src/external_actions.rs:131-226 | an action is made exactly for a new key and a new identity, and a request repeated with nothing in its way gives the action it made; status stays the fold of the trace, keys and identities stay unique |
| ExternalActions.Ledger.Append | src/external_actions.rs:228-284 | an event is appended exactly when none of the sender's actions knows its key, the state is the expected one and the event may follow the last; otherwise nothing changes |
| ExternalActions.ResendKnown | src/external_actions.rs:332-347 | an event sent again is known, however much happened since, exactly when its sender reserved the action |
| ExternalActions.DoubleRecordIff | src/external_actions.rs:238-284 | the same request is recorded twice exactly when its sender did not reserve the action, the event's own result takes it again, and no other state was expected |
| RowPaging.DecodeEncode | src/schema.rs:730-747 | decoding an encoded cursor gives it back |
| RowPaging.LexStrict | src/schema.rs:599-612 | comparing composite keys column by column is a strict total order |
| RowPaging.ReadRows | src/schema.rs:543-664 | a page is the first rows wanted in key order, with a cursor to its last row exactly when there are more; bad cursors are refused first |
| RowPaging.BehindIsSuffix | src/schema.rs:599-617 | the rows behind a row's key are the rest of the table in order |
| RowPaging.ReadAll | src/schema.rs:543-664 | following the cursors gives every row once, in key order, for any page sizes and key length |
| RowPaging.ForeignCursor | src/schema.rs:563-577 | a cursor of another table, key length or schema version is refused, and none goes with a focus |
| RowPaging.FocusForgotten | src/schema.rs:595-664 | the cursor of a focused page leads to the next rows of the whole table; they stay in focus exactly when each of them is in focus by itself |
| RowPaging.FocusLost | src/schema.rs:586-664 | a table and a focus whose second page shows a row out of focus |
| AdvisoryContext.Fit | src/dreaming.rs:336-388 | the refilled batch is the greedy packing of what the batch had |
| AdvisoryContext.FitKeepsRequired | src/dreaming.rs:341-357 | Memories, connections and required evidence stay, in order; everything added was advisory in the batch |
| AdvisoryContext.FitWithinBudget | src/dreaming.rs:336-388 | the result is within the larger of the budget and what is required |
| AdvisoryContext.FitTargets | src/dreaming.rs:359-368 | targets take at most half the space left, and none that would fit it is left out |
| AdvisoryContext.FitLinksVisible | src/dreaming.rs:369-378 | a context link is kept only between visible Objects |
| AdvisoryContext.FitMaximal | src/dreaming.rs:341-384 | evidence is left out only if no Memory needs it and it is a link or mere context, and then because it no longer fits or a link's ends are not both shown |
| AdvisoryContext.LinksFirst | src/dreaming.rs:374-384 | a link with both ends shown that is left out would not have fitted before any context message was added either |
| AdvisoryContext.BytesAreText | src/dreaming.rs:329-332 | the size computed is the length of the JSON text |
| AdvisoryContext.FitKeepsComplete | src/dreaming.rs:390-412 | fitting never makes a complete batch incomplete |
| AdvisoryContext.Prepare | src/dreaming.rs:1305-1352 | the batch is the longest prefix that fits and is complete, else the first Memory alone; the model is called exactly when it has at most 24000 bytes, a hundred connections, no cut-off evidence and all evidence its Memories rest on |
| ReviewScan.FirstSeedTaken | src/dreaming.rs:150-183 | however the group is cut or extended, its first seed is in the batch |
| ReviewScan.SeedsAreFirst | src/dreaming.rs:150-165 | the seeds are the first versions still open, in order, 25 or all there are |
| ReviewScan.TakenIs | src/dreaming.rs:166-183 | the group is one seed after a failure, four after an earlier configuration's failure, else all seeds and up to 25 neighbours; a pass takes the prefix the model can be given |
| ReviewScan.PassedIs | src/dreaming.rs:1347-1471 | a review or a deferral settles what was taken; a failure is charged, and settles what is not to be retried or rode with a version that had failed twice |
| ReviewScan.PassProgress | src/dreaming.rs:1347-1471 | every pass that takes something uses up a remaining attempt |
| ReviewScan.ThirdFailureSettles | src/dreaming.rs:1455-1462 | a version is given up after its third failure, however batches were split |
| ReviewScan.Scan | src/dreaming.rs:1212-1244 | the scan takes at most three passes per version and, unless a failure stops it, ends with nothing left to take |

## Left out

- Cutover.CutoverFences: locks are taken by transactions that end; a session that outlives its transaction, and statement timeouts, are aborts at any point.
- Cutover.NothingBehindCutover: legacy writers are outcome capture, curator reconciles, dream passes and saved plans; `undo` of an old run is not a Memory extraction and is not fenced by the code.
- DreamStore.Store.ApplyPlan: the kinds of errors are one outcome, and the review fingerprint is an arbitrary function of the graph; the unique index over active connections is a precondition of the theorems.
- DreamStore.Store.Undo: the restoring of an Event's subtype row and the runs of other kinds this recovery also serves are not modelled.
- PurgeManifest.BuildPreview: the reconciliation plan is an input; the checks that build it (owner observations, placeholder replacement, configuration proofs) are not modelled, nor is the order in which errors are found.
- PurgeDelete.Database.Execute: receipts, table locks, request approval, the status update of a cancelled interaction and the new updated_at of a detached Run are not modelled. Of a future schema it is assumed that foreign keys of purgeable tables follow the delete order, that none refers to a column the purge clears, and that keys from the three partly read tables use columns that are read.
- CuratorRuns.CommitsCounted: available_at is constant and one run is considered at a time; claims are atomic, as SKIP LOCKED makes them.
- CuratorCommit.Store.Commit: supporting messages of connections and the stored result are not modelled; when a Chat summary is due is an input.
- ChatWindows.Chat.QueueNextWindow: transactions on one Chat come one after another; sequences that commit out of order are not modelled.
- ChatWindows.Chat.Capture: git receipts, coverage, participants, the batch's own replay key and the other field checks are not modelled; a message's time stands with its content.
- ArtifactChunks.Chunks: positions are unbounded, the source casts them to 32 bits.
- ExternalActions.Ledger.Append: which of several actions that know a key answers a resend is arbitrary; none of the answers changes anything.
- RowPaging.ReadRows: the JSON form of a cursor is a faithful encoding; text that is not ASCII in a cursor, and the text form of key values, are not modelled.
- AdvisoryContext.Fit: the size of an item is the length of its JSON text, a given number.
- ReviewScan.Scan: no other writer; a pause of the worker is a failure that stops the scan. Apply mode, where a review makes new versions, is not covered.
- OutcomeRules.Describable: of the description rules only the forbidden phrases are spelled out, the others are arbitrary; lower case is taken character by character.
- MemoryCapture.Capture.Pass: the Memory row and the links a remembered event gets; the world outside the ledger does not change between passes in the theorems on repeated passes.
- Event extraction and Memory synthesis after the cutover (`apply_events`, `apply_memories` and their plan checks).
- HTTP, authentication, configuration, search, embeddings calls, model calls, usage accounting, schema inspection, SQL text and triggers.
