# TodayAction connected commands, verified

TodayAction keeps an account's workspace on an authoritative server and lets the browser act on it
optimistically. A click is projected onto the local cache at once, written to a command journal in
IndexedDB and to a mirror in local storage, sent later under one durable identity, and settled by a
receipt, a refusal or a full read. This project models that protocol in Dafny and proves what it
keeps over every run, and it names the inputs on which the code does not keep it.

`dafny verify dfyconfig.toml` checks everything.

## How the model is built

| module | what it is | source |
|---|---|---|
| `WorkspaceDelta` | the field-scoped compare-and-patch algebra: patch, transaction, reverse, difference, wire validation | `src/workspaceDelta.ts` |
| `Interactions`, `InteractionOrder` | journal records, their dependency order, their transitive dependents | `src/cloud/instantCommandClient.ts` |
| `RowChain`, `CacheRow` | one cached row under a chain of pending changes: what an acknowledgement, a rejection and a rebuild rewrite, and what stays true of the row | `src/cloud/instantCommandClient.ts` |
| `JournalViews` | the journal seen from one entity | `src/cloud/instantCommandClient.ts` |
| `OptimisticCache` | the cache as a state machine over whole workspaces with its recorded proof, its clearing and its guarded full reads, and all its runs | `src/cloud/instantCommandClient.ts`, `src/db.ts` |
| `GenuineEdits` | what a genuine local edit keeps through every run | `src/cloud/instantCommandClient.ts`, `src/db.ts` |
| `RecoveryPlan` | what a recovery makes of the journal before it replaces the cache: confirmed, refused and retained commands, each retained one rebased over its ancestors | `src/cloud/instantCommandClient.ts` |
| `ClearedCache` | exactly when that plan gives a cleared cache back, at the same or a later revision | `src/cloud/instantCommandClient.ts`, `src/db.ts` |
| `CommittedRow`, `CommittedRecovery` | the same with commands committed before the clearing, from the commands and their receipts alone | `src/cloud/instantCommandClient.ts` |
| `ReplyOutcomes` | which receipts and refusals are projected, and what they leave | `src/cloud/instantCommandClient.ts` |
| `InstantClient` | the client object: methods and loops over the stores, each taking exactly one step of that machine | `src/cloud/instantCommandClient.ts`, `src/db.ts` |
| `ClientRuns` | the client and its server driven by any sequence of events | `src/cloud/instantCommandClient.ts`, `src/db.ts` |
| `Receiptless` | binding a receiptless acknowledgement to a read snapshot | `src/cloud/instantCommandClient.ts` |
| `ConnectedSystem` | authority, lossy network, journal, mirror, crashes and recovery as one state machine of twenty-four kinds of step; the tab may stop between any two of them | `src/cloud/instantCommandClient.ts`, `gateway/authoritativeCommands.ts` |
| `ConnectedSafety`, `ConnectedOrder`, `ConnectedReads`, `ConnectedProgress` | what holds in all its runs: safety, order and checkpoint, full reads, and what can still be reached | `src/cloud/instantCommandClient.ts` |
| `ConnectedReasons` | why a command is refused unsent | `src/cloud/instantCommandClient.ts` |
| `ConnectedConflicts` | when a conflict that was laid aside is depended upon again | `src/cloud/instantCommandClient.ts` |
| `ConnectedBases` | the base revisions that requests name | `src/cloud/instantCommandClient.ts` |
| `ConnectedScenario` | three runs that go wrong | `src/cloud/instantCommandClient.ts` |
| `JointJournal` | the cache and the protocol in joint steps on one journal and one server | `src/cloud/instantCommandClient.ts`, `src/db.ts` |
| `JointRecovery` | the client's recovery plan is what the protocol's full read settles | `src/cloud/instantCommandClient.ts` |
| `Authority` | the authority: admission of stale commands, evaluation, compare-and-swap under interference, guarded Undo, and the ledger as history | `gateway/authoritativeCommands.ts`, `supabase/migrations/20260923030000_cgr01_authoritative_commands.sql` |
| `ProjectionProof`, `ReadProjection` | the recorded-projection proof with its compaction and guarded replacement; the order-insensitive comparison of snapshots | `src/db.ts`, `src/cloud/workspaceFingerprint.ts` |
| `AccountLease` | account generations, and overlapping reads that replace the cache and move the checkpoint in two separate steps | `src/cloud/accountCacheLease.ts`, `src/cloud/authoritativeReadModelClient.ts` |
| `Consent` | batch consent with per-domain revisions, and the single-grant form | `supabase/migrations/20261003083410_scoped_management_consent_batch.sql`, `e2e/ownerManagementConsent.e2e.ts` |
| `Occurrences` | the occurrence version chain and re-import | `src/scheduleNodes.ts`, `src/db.ts` |

A field value is its canonical JSON text, since that text is what the code compares; a field holding
`undefined` is an absent field. A workspace is a map from (collection, id) to rows. Domain
evaluators are function parameters that return a new workspace or fail. Clocks, identifiers and
network outcomes are parameters or non-deterministic steps.

**The base and disturbed entities.** The client never stores the authoritative rows below its
optimistic ones; `OptimisticCache` carries them as `base` so that "the cache is the authoritative
state under the pending changes" can be said. Three steps can break that on an entity: a click whose
change was not computed from the cached row (`AddsAt`), a receipt that does not settle cleanly
(`SettlesAt`), and a withdrawal below which a receipt says something else than the row that stays
(`WithdrawsAt`). Each guard speaks of the records, receipts and rows that the step handles, and each
is exact: `RowSettle` and `RowWithdraw`, and `RowAdd` inside `BeginInv`, prove that the row's invariant
survives the step if and only if the guard holds. An entity is `disturbed` from the step that misses its guard, or
from a write by something else, until the next full read. `InstantClient.Client.Begin` and
`OptimisticCache.ExactReceiptIsClean` show that ordinary clicks and ordinary replies disturb nothing, and
`ReplyOutcomes` says for any receipt, field by field, when it is projected and disturbs nothing.

**Joint steps.** One transaction writes rows and journal, so `JointJournal` lets the cache and the
connected protocol take their steps together, on the same record, and lets the server of both commit
the same workspaces. A full read writes record by record: a kept record is a pending one whose row
stays open, a confirmed one a pending one whose row is confirmed, and no such record is left out;
`JointRecovery` proves that the client's own plan does so. It follows that in every joint run the cache
shows exactly the commands whose journal rows are open, over what the protocol's server held.

**Full reads.** A recovery samples the cache only while it is proved by its recorded deltas or was
cleared, and installs only while the cache and the reserved commands are still what it sampled and the
snapshot includes every receipt it found. `GenuineEdits` uses that to show that nothing which does not
know the value of a local edit overwrites it.

## Where the code keeps less than it promises

Each has a lemma with a concrete input, and a theorem with the exact condition or, for the repeated
send, with the exceptions.

- An Undo of a change that was already in place when it was made resurrects a value that the change
  never replaced (`ReverseOfRepeatedChangeResurrects`; exact in `ReverseRestores`).
- An acknowledgement brings a field back that a predecessor's receipt removed, when the optimistic
  change writes the field and the receipt leaves it alone (`SettlementRevivesRemovedField`; exact in
  `RowSettle` and, per row, in `SettleUpdate`).
- A rejection restores a confirmed predecessor's value over a later pending one when the pending
  command stays (`RollbackOverridesPending`), and loses a field that one confirmed predecessor
  removed and the next one brought back (`RollbackDropsReturnedField`). It is exact in `RowWithdraw`:
  for every field that a withdrawn change names, the oldest such change has no confirmed predecessor
  that decides the field, or what those receipts say (`RestoredFrom`) is what the remaining row holds.
- Rebuilding a cleared cache loses the third of three pending toggles of a field, whether or not
  anything has been committed, because every retained command is rebased over its retained ancestors
  too (`RebaseLosesThirdToggle`). With nothing committed the replay goes command by command as the
  commands were made if and only if no change sets a field to a value that an earlier one, as that was
  rebased, has left there, and the last of them to set the field left the value that the change was
  made on (`UncommittedRecovery`, and per row `RetainedExact`; the second half is idle unless the row is
  created in the middle of the chain, `OrdinaryChain`). With commands committed before, it does if and only
  if no pending change sets a field to a value that a receipt or an earlier change left there and a later
  one took away again, on entities that nobody else has written (`CommittedRecovery`, and per row
  `CommittedUpTo`). At any revision it is exact in `RecoveryExact` and, per row with the condition for
  being accepted, in `RebuildExact`.
- A command is sent although a predecessor is not confirmed: because a second failed rollback with an
  unreadable journal overwrote the first one's quarantine root (`SentOnRefusedPredecessor`), or because
  the predecessor is still being saved and has no journal row (`SentOnReservedPredecessor`). These are
  the only two situations, and all predecessors are confirmed if and only if each has a row and none
  has an unfinished withdrawal (`SentOnConfirmedPredecessors`).
- A click is made to depend on a conflict that was already rolled back and laid aside, and is then refused
  unsent (`ReservedOnRetiredConflict`). That happens only after a failed rollback with an unreadable journal,
  which quarantines every mirror and so takes the mark of a conflict from those that had it
  (`RetiredConflictIsNotReservedUpon`); and after one any new command may do it (`QuarantineOpensConflict`).
- After that overwriting an unfinished withdrawal cannot be carried out by itself any more, in any
  continuation: exactly when no mirror is held for it (`RollbackNeedsQuarantine`). Only a full read, its
  receipt or the rejection of a predecessor settles it (`ForgottenUntil`).
- A command that was sent twice can be withdrawn on the second reply and committed by the delayed
  first request (`WithdrawnThenCommitted`; the authority itself gives those two answers in
  `RefusedThenCommitted`; `WithdrawnWasNotCommitted`).
- Reads of one account are installed in order unless the cache was cleared in between under the same
  lease (`InstallsAreMonotone`). Within one tab an account change ends the older leases before it clears
  (`src/cloud/CloudContext.tsx:143-154`); but a sign-out in another tab clears the shared database under
  this tab's lease, and so does `clearLocalWorkspaceCache` called without an assertion
  (`e2e/instantInteraction.e2e.ts:848`). Two replacements may then be out of order and the checkpoint
  may end above what the cache was read from (`CheckpointOverOlderCache`; otherwise it does not,
  `CheckpointIsCached`).
- The read-projection comparison is neither symmetric (`EquivalentIsOneWay`; exact in
  `EquivalentTurnsAround`) nor, when an identifier is reused between the two kinds of row it ignores,
  transitive (`EquivalentChainBreaks`; exact in `EquivalentComposes`).

## Model

| member | source | states |
|---|---|---|
| WorkspaceDelta.PatchDeltaRow | src/workspaceDelta.ts:18-32 | The loop over the named fields refuses on the first field that is at neither side, and otherwise replaces exactly the fields that the change sets; missing rows and whole-row changes take their own branches. |
| WorkspaceDelta.PatchRowIdempotent | src/workspaceDelta.ts:17-32 | A second delivery of an accepted row change is accepted and changes nothing. |
| WorkspaceDelta.ReverseRow | src/workspaceDelta.ts:81-83 | The reverse of an accepted row change is always accepted, and gives the row back if and only if no field it sets was already at its postimage. |
| WorkspaceDelta.Transact | src/db.ts:1578-1605 | The transaction over the stores commits every change or none, as the all-or-nothing fold of checked patches. |
| WorkspaceDelta.ApplyByKey | src/db.ts:1584-1597 | The transaction commits if and only if every change is admitted on its own row, and each entity ends with its own change's result and no other's. |
| WorkspaceDelta.ApplyFrame | src/workspaceDelta.ts:17-32 | Unrelated newer fields are never replaced: every cell of every entity keeps its value unless the one change of that entity sets that field. |
| WorkspaceDelta.EditedFieldBlocks | src/workspaceDelta.ts:26 | One field edited to a third value, anywhere in the delta, stops the whole transaction. |
| WorkspaceDelta.ApplyIdempotent | src/db.ts:1584-1597 | A repeated delivery of a committed delta commits again and changes nothing. |
| WorkspaceDelta.ReverseRestores | src/workspaceDelta.ts:81-83 | Undoing a committed delta is always admitted, and restores the workspace if and only if every changed entity still held its recorded preimage. |
| WorkspaceDelta.ReverseOfRepeatedChangeResurrects | src/workspaceDelta.ts:18-32 | The concrete input on which undoing an accepted delta does not restore the workspace. |
| WorkspaceDelta.SeparateDeltasCommute | src/workspaceDelta.ts:17-32 | Deltas on different entities, or on fields that neither sets for the other, commit in both orders and end in the same workspace. |
| WorkspaceDelta.DiffWorkspaceDelta | src/workspaceDelta.ts:43-58 | The difference lists every changed entity exactly once, compacted, and no other, whatever order the keys are visited in. |
| WorkspaceDelta.DiffRoundTrip | src/workspaceDelta.ts:33-58 | The compacted difference rebuilds the second workspace from the first, and its reverse the first from the second. |
| WorkspaceDelta.DiffNamesChanges | src/workspaceDelta.ts:33-42 | An update in a difference names exactly the fields whose values differ on the two sides, and the identity. |
| WorkspaceDelta.ValidateWorkspaceDelta | src/workspaceDelta.ts:84-97 | The receiver's single pass accepts exactly the deltas with a safe base revision, at most a thousand changes, known collections, non-empty identifiers, unique keys, and rows of listed collections that carry their own identifier. |
| WorkspaceDelta.DiffIsValid | src/workspaceDelta.ts:84-97 | Every difference of two well-keyed workspaces passes that validation, except for its two size caps. |
| InteractionOrder.FindReady | src/cloud/instantCommandClient.ts:55 | The search returns the first record that waits for none of the remaining ones, or the length. |
| InteractionOrder.OrderInteractions | src/cloud/instantCommandClient.ts:51-60 | The splicing loop computes the ordering that OrderSpecification describes, or fails. |
| InteractionOrder.OrderSpecification | src/cloud/instantCommandClient.ts:51-60 | Ordering fails if and only if some records wait for each other in a cycle; otherwise it is a permutation, no record comes before a predecessor, and a record is overtaken by a later-created one only while one of its own predecessors still waits. |
| InteractionOrder.OrderIgnoresListing | e2e/instantInteraction.e2e.ts:726-745 | The order does not depend on how the database lists the records. |
| InteractionOrder.MonotoneClockOrder | src/cloud/instantCommandClient.ts:53-57 | When creation times respect dependency, the order is creation order. |
| InteractionOrder.CollectPass | src/cloud/instantCommandClient.ts:65-71 | One pass adds only unsettled records that the root reaches, and a pass that adds nothing has closed the set. |
| InteractionOrder.DependentInteractions | src/cloud/instantCommandClient.ts:61-73 | The passes end with exactly the unsettled records that a chain of dependencies leads to from the root, each once, in dependency order. |
| RowChain.Overlay | src/cloud/instantCommandClient.ts:450-453 | The loop replays the later changes without check, and fails exactly where an update finds no row. |
| RowChain.BaselineRow | src/cloud/instantCommandClient.ts:443-447 | The settlement starts from the command's preimage overlaid with its confirmed predecessors and the receipt's preimage. |
| RowChain.SettleRow | src/cloud/instantCommandClient.ts:438-455 | The settled patch leads from the baseline under the optimistic and later changes to the baseline under the accepted and later changes. |
| RowChain.SettleUpdate | src/cloud/instantCommandClient.ts:438-457 | An accepted settlement of an update leaves the confirmed row under the later changes if and only if, on the fields no later change decides, the baseline hides no difference from the authoritative row. |
| RowChain.SettlementRevivesRemovedField | src/cloud/instantCommandClient.ts:443-447 | The concrete chain on which an acknowledgement brings back a field that a predecessor's receipt removed. |
| RowChain.SettleWhole | src/cloud/instantCommandClient.ts:438-457 | Acknowledging a creation or a deletion always settles to the confirmed row under the later changes. |
| RowChain.SettleForeign | src/cloud/instantCommandClient.ts:438-457 | A server-side change on an entity without pending changes settles as itself. |
| RowChain.OverlayFields | src/cloud/instantCommandClient.ts:212-215 | The loop over the restored fields replaces or removes exactly those that the predecessor's receipt decides. |
| RowChain.RollbackChange | src/cloud/instantCommandClient.ts:204-219 | The inverse is the reversed change restored, predecessor by predecessor, to the confirmed receipts. |
| RowChain.RollbackOverridesPending | src/cloud/instantCommandClient.ts:205-219 | The concrete chain on which a rejection restores a confirmed value over a pending one that stays. |
| RowChain.RollbackDropsReturnedField | src/cloud/instantCommandClient.ts:210-216 | The concrete chain on which a rejection removes a field that the latest confirmed predecessor holds. |
| RowChain.RebaseFields | src/cloud/instantCommandClient.ts:264-276 | The loop over one retained update moves the fields it left alone to the receipt's values, keeps its own new values and never touches the identity. |
| RowChain.RebaseKeepsIntent | src/cloud/instantCommandClient.ts:253-278 | Over any number of receipts, a rebased change names no new field, sets no field the original left alone and sets none to another value. |
| RowChain.RebaseExact | src/cloud/instantCommandClient.ts:253-278 | An accepted replay of a rebased change gives the row the original would have given if and only if every field that rebasing dropped already holds the original's value. |
| RowChain.RebaseAccepted | src/cloud/instantCommandClient.ts:253-278 | A rebased change is accepted if and only if each field that now follows the receipts is where they left it, and each that is still wanted is where they left it or already new; a deletion needs the row as the receipts leave it, or gone. |
| RowChain.RebuildExact | src/cloud/instantCommandClient.ts:356-372 | Over the row of whatever revision, a retained chain rebased over its receipts is replayed without refusal and change by change as the original chain would be, if and only if every change fits the row below it and drops no field that is not already there. |
| RowChain.RetainedExact | src/cloud/instantCommandClient.ts:362-371 | A retained chain that no receipt has reached, each change rebased over the earlier ones as these were rebased, is replayed without refusal and change by change as it was made if and only if no change sets a field to a value that one of them, other than the last to name the field, has left there, and each was made on what that last one left. |
| RowChain.OrdinaryChain | src/cloud/instantCommandClient.ts:362-371 | For a chain that creates the row at most at its start that is the one condition that no change sets a field to a value that an earlier one has already left there. |
| RowChain.RebaseLosesThirdToggle | src/cloud/instantCommandClient.ts:264-274 | The concrete chain on which a rebuilt cache differs from the one that was never cleared, with nothing committed and just so with the first two commands committed. |
| CacheRow.RowWithdraw | src/cloud/instantCommandClient.ts:194-228 | Withdrawing the newest changes by their rewritten inverses gives back the row under the older ones if and only if, for every field a withdrawn change names, the oldest such change has no confirmed predecessor that decides the field or those receipts say what the remaining row holds. |
| CacheRow.RestoredFrom | src/cloud/instantCommandClient.ts:205-217 | What a withdrawal restores, from the receipts: nothing where one of them took the field away, else the last receipt's value, else the preimage. |
| CacheRow.RowSettle | src/cloud/instantCommandClient.ts:434-457 | An accepted acknowledgement of the oldest pending change moves it to the authoritative side of the row and its receipt into every later rollback, if and only if the baseline hides no difference and no later change stands on a value the receipt replaces. |
| JournalViews.OrderOn | src/cloud/instantCommandClient.ts:51-60 | On an entity whose records depend on each other, every dependency order of the whole journal is the order in which they were made. |
| JournalViews.CascadeTopological | src/cloud/instantCommandClient.ts:201 | A rejected root put before its ordered dependents is a duplicate-free dependency order of journal records. |
| JournalViews.CascadeSuffix | src/cloud/instantCommandClient.ts:61-73 | On each entity a rejection withdraws exactly the newest records there, in the order they were made. |
| OptimisticCache.BeginInv | src/cloud/instantCommandClient.ts:120-158 | A click keeps the cache invariant, whatever pending command already names its identity, as long as no commands wait for each other in a cycle. |
| OptimisticCache.AcknowledgeInv | src/cloud/instantCommandClient.ts:423-464 | A receipt keeps it, with its priors, dependents, settlement, journal move and checkpoint, also while a predecessor is pending; an entity on which one is becomes disturbed. |
| OptimisticCache.ExactReceiptIsClean | src/cloud/instantCommandClient.ts:438-457 | A receipt that confirms the command's change of an entity as it was made settles cleanly there, whatever other receipts have reached the later commands, if and only if no predecessor is still pending there. |
| OptimisticCache.ConfirmEmptyInv | src/cloud/instantCommandClient.ts:415-421 | Confirming a command that changed nothing locally keeps it and moves no checkpoint. |
| OptimisticCache.RejectInv | src/cloud/instantCommandClient.ts:194-228 | A rejection with all its dependents keeps it. |
| OptimisticCache.HoldInv | src/cloud/instantCommandClient.ts:236-251 | A receipt that cannot be projected, or a withdrawal that cannot be committed, keeps its records with that said in the journal, and keeps the invariant. |
| OptimisticCache.ClearInv | src/db.ts:1198-1220 | Clearing the cache empties rows and proofs, keeps the journal, and keeps the invariant with every emptied entity disturbed. |
| OptimisticCache.RunInv | src/cloud/instantCommandClient.ts:120-478 | The invariant holds in every state of every run of clicks, receipts, refusals, failed projections and rollbacks, local edits, clears, other writers, compactions and guarded full reads. |
| OptimisticCache.CacheIsBaseUnderPending | e2e/instantInteraction.e2e.ts:284-304 | In every state of every run, an undisturbed cached row is the last incorporated authoritative row with the unsettled changes applied in order. |
| OptimisticCache.ConvergesWhenDrained | e2e/instantInteraction.e2e.ts:284-304 | With an empty outbox, nothing disturbed and the current revision read, the whole cache is the server's snapshot. |
| OptimisticCache.RejectionRestores | e2e/instantInteraction.e2e.ts:333-356 | In every run, after a rejection an entity that was undisturbed holds its authoritative value under exactly the retained commands if and only if the receipts below the oldest withdrawn changes agree with it; exactly the root and its dependents are gone. |
| OptimisticCache.ReplayFolds | src/db.ts:1279-1292 | The replay in a full read leaves each row as the read row under exactly the retained changes, every one accepted under its check. |
| RecoveryPlan.AncestorsAreLeast | src/cloud/instantCommandClient.ts:362-364 | A retained record's ancestors are the least set with its predecessors and everything above its members. |
| RecoveryPlan.AncestorsAreStoodOn | src/cloud/instantCommandClient.ts:362-364 | They are exactly the identifiers that a chain of pending records leads up to from the record. |
| RecoveryPlan.FindAncestors | src/cloud/instantCommandClient.ts:362-364 | The passes over the records compute exactly that set. |
| RecoveryPlan.RefusedIsLeast | src/cloud/instantCommandClient.ts:351-355 | The refused records are the least set with those that the read does not vouch for or whose withdrawal is unfinished, and everything without a receipt behind its members. |
| RecoveryPlan.RefusedFall | src/cloud/instantCommandClient.ts:351-355 | They are exactly those from which a chain of records without receipts leads down to one that the read does not vouch for or whose withdrawal is unfinished. |
| RecoveryPlan.FindRefused | src/cloud/instantCommandClient.ts:354-355 | The passes until one refuses nothing more compute exactly that set. |
| RecoveryPlan.RebaseRecord | src/cloud/instantCommandClient.ts:253-278 | The loops rebase each change of a record over its own entity's changes among the sources in dependency order, and fail if and only if the record does not only create and the sources wait for each other. |
| RecoveryPlan.RetainInOrder | src/cloud/instantCommandClient.ts:356-371 | The loop over the retained records computes what KeptIsRebased describes, or gives up at the first record whose sources have no order. |
| RecoveryPlan.KeptIsRebased | src/cloud/instantCommandClient.ts:362-371 | A kept record that only creates is as it was; any other has each change rebased, oldest first, over its entity's changes in exactly the confirmed records, in the log or newly so, and the records kept before it that a chain of pending records leads up to. |
| RecoveryPlan.PlanRetains | src/cloud/instantCommandClient.ts:300-371 | Whatever receipts were found, the plan fits the journal: it confirms and keeps pending commands, none twice and none both, and keeps them in dependency order. |
| RecoveryPlan.PlanExists | src/cloud/instantCommandClient.ts:362-371 | A plan is made whenever the journal has no cycle, or no pending command does anything but create. |
| RecoveryPlan.MakePlan | src/cloud/instantCommandClient.ts:300-371 | Confirmed, refused and retained records are computed pass by pass; PlanRecords says record by record what they are. |
| RecoveryPlan.PlanRecords | src/cloud/instantCommandClient.ts:331-371 | A plan confirms exactly the pending commands with receipts, with the receipts' changes; it keeps, in dependency order, exactly the others that no chain without receipts leads down from to an unvouched or half-withdrawn one; and each that it keeps is rebased as KeptIsRebased says. |
| ClearedCache.RecoveryExact | src/cloud/instantCommandClient.ts:356-371 | Over the snapshot of whatever revision, with the sources that the code selects, the retained commands are replayed without refusal and command by command as they were made if and only if each rebased change fits the row below it and drops no field that is not already there. |
| ClearedCache.UncommittedRecovery | src/cloud/instantCommandClient.ts:300-373 | As long as no receipt has reached a pending command, a recovery of the cleared cache keeps every command; its replay is accepted and goes command by command as they were made, and so gives the whole cache back, if and only if on no entity a change sets a field to a value that an earlier retained one already left there. |
| CommittedRow.CommittedUpTo | src/cloud/instantCommandClient.ts:253-278 | On one row: a retained chain, rebased over the receipts of its confirmed ancestors and over itself as it was rebased, is replayed over the confirmed row without refusal and change by change as it was made if and only if no change sets a field to a value that a receipt or an earlier change left there and a later one took away again. |
| CommittedRow.DivergentReceipt | src/cloud/instantCommandClient.ts:365-370 | A child of a confirmed command whose receipt says something else than the command did is refused on the confirmed row as it was made, and accepted there once it is rebased over the receipt. |
| CommittedRecovery.CommittedRecovery | src/cloud/instantCommandClient.ts:300-373 | With commands committed before the clearing and no new receipt, a recovery keeps every pending command, each rebased over its confirmed ancestors in the log; its replay is accepted and goes command by command as they were made, and so gives the whole cache back, if and only if that condition holds on every entity; on entities where nobody else has written what the receipts decide. |
| ClearedCache.RecoveryGivesUnclearedCache | e2e/instantInteraction.e2e.ts:883-912 | At any revision and with whatever receipts the recovery found, the plan that the code makes, replayed over the snapshot, gives the whole cache of a client that was never cleared and has the same commands pending, when each change, rebased over the ancestors that the code selects, fits and drops nothing that is not there. |
| GenuineEdits.GenuineEditSurvives | src/cloud/instantCommandClient.ts:300-373 | Over every run, an edit to a value that neither the recorded deltas, nor an outstanding recovery, nor a cleared cache has there stays in its cell through clicks, receipts, failed projections, refusals, compactions and recoveries: the cache is not taken for a recorded one and no full read samples or replaces it, until somebody edits the entity again, clears the cache or writes a delta that names the very value. |
| GenuineEdits.EditRefusesDelta | src/cloud/instantCommandClient.ts:194-228 | A delta that sets the cell and does not name its value is refused whole. |
| GenuineEdits.EditBlocksReceipt | src/cloud/instantCommandClient.ts:423-478 | A receipt whose settlement would set the edited cell without naming its value cannot be projected; with Client.Acknowledge its record then stays, waiting for a projection. |
| GenuineEdits.RecordsKeepUp | src/db.ts:1522-1606 | In every state of every run without an edit or a clearing since the last full read, the recorded deltas lead from the recorded baseline to exactly the cache, so that a recovery may start unless a withdrawal is unfinished. |
| ReplyOutcomes.UpdateSettles | src/cloud/instantCommandClient.ts:438-457 | Acknowledging an update, on one row: the settled patch exists, and it is admitted and leaves the confirmed row under the later changes if and only if, in every field that no later change sets and that the receipt's preimage does not hold, the receipt sets what the command set, or the row is still what the last predecessor's receipt to hold the field, or else the command's preimage, says. |
| ReplyOutcomes.ReceiptGoesThrough | src/cloud/instantCommandClient.ts:423-478 | For a client that has incorporated everything before it: a receipt of the next revision is projected and disturbs nothing if and only if on every entity it agrees with the cache so, creates, updates or deletes as the command did, keeps what later commands were made on, and nothing is pending there that the command stands on, or nothing at all where it did nothing. |
| ReplyOutcomes.ReceiptShowsRevision | e2e/instantInteraction.e2e.ts:284-304 | Every row is then the next revision's row under the other pending commands. |
| ReplyOutcomes.RefusalGoesThrough | src/cloud/instantCommandClient.ts:194-228 | A refusal is projected, disturbs nothing and leaves every row the authoritative row under the commands that stay, whenever the receipts below each command that goes say what the row below it holds. |
| InstantClient.PendingPredecessors | src/cloud/instantCommandClient.ts:127-145 | An identifier is a predecessor of a new command if and only if the mirror lists its interaction, without a conflict, with a change of an object that the command changes too, or it is that of a pending record that changes such an object, or that changes the time planning while the command plans capacity. |
| InstantClient.RefusalSparesOthers | src/cloud/instantCommandClient.ts:127-145 | A command that plans no capacity stays pending through a refusal, whatever happened since it was clicked, if none of the commands that go was pending or reserved on an object of it at the click. |
| InstantClient.SettleAll | src/cloud/instantCommandClient.ts:438-455 | The loop over the accepted changes settles every one, and gives up only if no settlement exists. |
| InstantClient.ReverseRecord | src/cloud/instantCommandClient.ts:201-220 | One record's inverse restores each change to its confirmed predecessors in dependency order, or fails on a cycle. |
| InstantClient.SettleReceipt | src/cloud/instantCommandClient.ts:434-457 | Everything an acknowledgement computes: ordered priors, ordered dependents, settlements and the rows they commit to; it gives up if and only if no such settlement exists, however the dependents are listed. |
| InstantClient.Withdraw | src/cloud/instantCommandClient.ts:194-221 | The dependents in order and the rows after undoing them newest first and the root last; it gives up if and only if the dependents have no order or an inverse is refused. |
| InstantClient.ReplayKept | src/db.ts:1267-1292 | The loop over the retained commands on staged rows computes their fold over the snapshot, or fails exactly where it fails, and performs exactly one full-read step. |
| InstantClient.Client.constructor | src/db.ts:1224-1301 | The first read of an account is an initial state of the machine. |
| InstantClient.Client.Begin | src/cloud/instantCommandClient.ts:120-158 | A click succeeds if and only if its delta fits, and depends on exactly the commands that PendingPredecessors selects, written out over identifiers and keys; it takes exactly one begin step and, unless the mirror still lists a confirmed command, disturbs only entities whose change was not computed from the cached row. |
| InstantClient.Client.Acknowledge | src/cloud/instantCommandClient.ts:423-478 | A receipt takes exactly one acknowledgement step of the machine if and only if it can be settled; otherwise the rows stay and the record waits for a projection. |
| InstantClient.Client.ConfirmEmpty | src/cloud/instantCommandClient.ts:415-421 | An empty command is confirmed if and only if it has a receipt or the checkpoint stands at the acknowledged revision; the record moves to the log, rows and checkpoint stay. |
| InstantClient.Client.Reject | src/cloud/instantCommandClient.ts:194-252 | A refusal takes exactly one rejection step if and only if root and dependents can all be withdrawn; otherwise the rows stay and all of them are kept as an unfinished withdrawal. |
| InstantClient.Client.Recover | src/cloud/instantCommandClient.ts:300-373 | A recovery takes exactly one install step, with the plan made from the journal and the receipts it found, if and only if the plan exists, rows and reserved identifiers are what it sampled, no receipt that it found for a pending command is newer than the snapshot, the snapshot is not older than the checkpoint, and every rebased command fits in turn; otherwise it changes nothing. |
| InstantClient.CheckProof | src/db.ts:1522-1566 | The loop over the recorded deltas tells exactly whether they lead from the baseline to the cache while no withdrawal is unfinished. |
| InstantClient.Client.StartRecovery | src/cloud/instantCommandClient.ts:300-308 | A recovery samples the cache if and only if the recorded deltas lead from the baseline to it and no withdrawal is unfinished, or it was cleared and is still empty. |
| InstantClient.Client.Compact | src/db.ts:1546-1562 | Recorded deltas are folded into the baseline if and only if there are at least 64 and the cache is proved by them. |
| InstantClient.Client.Clear | src/db.ts:1198-1220 | Clearing takes exactly one clear step: rows and proof go, the journal stays. |
| InstantClient.Client.Hold | src/cloud/instantCommandClient.ts:236-251 | Records that can be neither settled nor withdrawn keep everything but their state. |
| InstantClient.Client.Edit | e2e/instantInteraction.e2e.ts:506-526 | A local edit by something else is the machine's edit step, which disturbs that one entity. |
| ClientRuns.Drive | src/cloud/instantCommandClient.ts:120-628 | Whatever clicks, receipts, refusals, reads, edits, clears and server writes happen after the first read, in any order and whether possible or not, the client's stores show the last state of a run of the machine over the server's history, and every undisturbed row is the last incorporated one under the pending changes. |
| ConnectedSafety.NextInv | src/cloud/instantCommandClient.ts:74-628 | All twenty-four kinds of step keep the invariant that ties receipts, sends, verdicts, journal rows, mirrors, reversals and recoveries together; replacing the cache and moving the checkpoint are two of them. |
| ConnectedSafety.RunInv | src/cloud/instantCommandClient.ts:74-628 | It holds in every state of every run, wherever the tab stopped, so in particular every open row still has its mirror. |
| ConnectedSafety.CommittedAtMostOnce | e2e/cgr02TodayVerticalSlice.e2e.ts:527-560 | Over every run with losses, late deliveries, failed lookups and restarts, each identity changes the server at most once, and only if it was sent and journaled. |
| ConnectedSafety.TerminalForever | e2e/instantInteraction.e2e.ts:1216-1238 | From any state to any later one, a terminal row is never rewritten and its command is neither sent nor reversed again, wherever the tab stopped between the two stores. |
| ConnectedSafety.ReversedAtMostOnce | src/cloud/instantCommandClient.ts:229-238 | No delta is reversed twice, and whatever was reversed is refused for good. |
| ConnectedSafety.CommitsInDependencyOrder | e2e/instantInteraction.e2e.ts:971-986 | In every state of every run, a regularly sent command's predecessors are confirmed, and their commits precede its own. |
| ConnectedSafety.WithdrawnWasNotCommitted | src/cloud/instantCommandClient.ts:194-252 | A withdrawn command was never committed, unless it was sent more than once or sent past the sender's blind spots. |
| ConnectedSafety.RejectionIsExact | e2e/instantInteraction.e2e.ts:570-588 | A rejection settles the root and every transitive dependent at once, touches no other row, sends nothing, and no dependent it withdraws had been regularly sent. |
| ConnectedOrder.NextForward | src/cloud/instantCommandClient.ts:74-628 | Whatever step is taken, a stored row keeps its predecessors and target, never becomes active again once it has left that state, waits for a projection only with a receipt or an acknowledgement, and is never rewritten once terminal. |
| ConnectedOrder.RunSound | src/cloud/instantCommandClient.ts:74-628 | In every state of every run dependencies follow the order of reservation, no reservation is lost from both stores, and every revision up to the checkpoint is in the cache, also between a replacement and its checkpoint. |
| ConnectedReads.CheckpointIsRead | src/cloud/instantCommandClient.ts:81-93 | In every run each revision up to the checkpoint was there at the first read, or came with a full read that replaced the cache, or is the receipt of a command that was settled in the cache. |
| ConnectedReads.CheckpointMoves | src/cloud/instantCommandClient.ts:374-390 | The checkpoint moves, upwards, only to the revision of a snapshot that this very recovery has already put into the cache, or to the exact next owned receipt; never by a receiptless acknowledgement. |
| ConnectedReads.HeldIsNeverSent | e2e/instantInteraction.e2e.ts:782-811 | From any state to any later one, a command whose receipt waits for a projection, or whose withdrawal is unfinished, is never sent again; only reads and receipts settle it. |
| ConnectedReads.ReceiptlessIsDecided | src/cloud/instantCommandClient.ts:279-361 | In every run a full read confirms a receiptless acknowledgement if and only if it read the acknowledged revision of the server and there every object is as the command left it, and makes it a conflict otherwise; confirming installs nothing, gives no compensation either way, and the Undo is refused. |
| ConnectedReads.ConfirmedIsVouchedFor | src/cloud/instantCommandClient.ts:331-361 | Conversely, in every run whatever counts as confirmed without a receipt was confirmed by a read that agreed at the acknowledged revision, or had changed nothing at a checkpoint that stood there. |
| ConnectedReads.SentOnConfirmedPredecessors | src/cloud/instantCommandClient.ts:504-511 | In every run each predecessor of a command that is sent is confirmed, or was refused and released without being rolled back, or is only reserved and never sent; all are confirmed if and only if all have rows and none has an unfinished withdrawal. |
| ConnectedBases.ChildFollowsParents | src/cloud/instantCommandClient.ts:512-515 | In every state of every run, every attempt of a regularly sent command names a base that the server has reached and that is no less than the revision of any predecessor's receipt, or of its acknowledgement where it has no receipt. |
| ConnectedBases.SentBaseIsLeast | src/cloud/instantCommandClient.ts:512 | In every run a command, regularly sent or not, is sent with the least base that is no less than the revision it was made on and those of its confirmed predecessors. |
| ConnectedProgress.SettleCommand | src/cloud/instantCommandClient.ts:480-540 | From every reachable idle state a command that is not shut can be settled, after the predecessors it waits for, whatever the server then answers: it ends confirmed, or was sent, or a command it depends on is refused or shut, or it would undo one acknowledged without a receipt; and so does everything settled on the way. |
| ConnectedProgress.QuarantinedMovesOn | src/cloud/instantCommandClient.ts:74-80 | From every state of every run, wherever it stopped, a command that a refused root holds in quarantine can go on until it is confirmed, or sent and refused, unless something it depends on is refused or shut itself; whether the root is still to be rolled back, is terminal already or was met by a full read. |
| ConnectedProgress.RollbackNeedsQuarantine | src/cloud/instantCommandClient.ts:562-575 | In every state of every run some continuation carries an unfinished withdrawal out by itself if and only if some mirror is held for it; otherwise none of any length does. |
| ConnectedProgress.ForgottenUntil | src/cloud/instantCommandClient.ts:243-249 | A withdrawal without any mirror stays that way in every run, and is never carried out by itself, until a full read, its receipt or the rejection of a command it depends on settles it. |
| ConnectedReasons.UnsentRefusalHasCause | src/cloud/instantCommandClient.ts:502-511 | In every run a command that is refused and was never sent failed to be prepared, or at some moment something it depends on was refused, waiting for its withdrawal or shut, or it was the Undo of a command acknowledged without a receipt. |
| JointJournal.DependentsAlike | src/cloud/instantCommandClient.ts:61-73 | The records that a rejection unwinds from the cache are exactly the rows that it withdraws in the journal. |
| JointJournal.NextTogether | src/db.ts:1578-1606 | Every joint step of cache and protocol keeps the pending records equal to the open rows, in state and dependencies, and the settled ones to the confirmed rows; across a full read that follows from the agreement before it and from what the read writes record by record. |
| JointJournal.CacheShowsOpenCommands | src/cloud/instantCommandClient.ts:120-628 | In every state of every joint run an undisturbed cached row is the last incorporated authoritative row under the changes of exactly the commands whose journal rows are open, and a base without gaps is what the protocol's server held at the cached revision. |
| JointJournal.JointRunConverges | e2e/instantInteraction.e2e.ts:284-304 | In every joint run, once no journal row is open, an undisturbed cache that has incorporated everything up to the server's revision is the server's workspace. |
| JointJournal.FullReadHeals | src/cloud/instantCommandClient.ts:300-373 | In every joint run, whatever was cached before a full read, each row after it is the row that the server held when it was read under the changes of exactly the commands that the read leaves open; with none open the cache is what was read. |
| JointRecovery.PlanRefusesAlike | src/cloud/instantCommandClient.ts:351-355 | When nothing was journaled since the read began, the passes of the client's plan refuse exactly the rows that the protocol's full read refuses. |
| JointRecovery.PlanPairs | src/cloud/instantCommandClient.ts:331-371 | Likewise the plan confirms and keeps exactly the records whose rows the protocol confirms and leaves open, so it is a full read of the joint machine. |
| JointJournal.SettledIsNeverShown | e2e/instantInteraction.e2e.ts:1216-1238 | Once a command is terminal in the journal, no later state of any joint run shows its change as pending or sends it, and it counts as incorporated if and only if it was confirmed. |
| Receiptless.BindPostimages | src/cloud/instantCommandClient.ts:279-290 | The loop gives up at the first object that is not as the command left it, and otherwise returns the bound changes in order. |
| Receiptless.BoundIffAgrees | src/cloud/instantCommandClient.ts:279-290 | Binding succeeds if and only if everything the command deleted is absent and everything else it changed is present, history rows aside. |
| Receiptless.BoundExactly | src/cloud/instantCommandClient.ts:279-290 | The bound delta has one change for each of the command's, history rows aside: the same object and preimage, and in every field that the command names what the snapshot holds. |
| Receiptless.BoundIsInstalled | src/cloud/instantCommandClient.ts:331-361 | The bound delta is one that the snapshot already holds: applying it is accepted and changes nothing. |
| ConnectedScenario.SentOnRefusedPredecessor | src/cloud/instantCommandClient.ts:243-249 | A reachable state from which a command is sent although its predecessor was refused and not rolled back. |
| ConnectedScenario.SentOnReservedPredecessor | src/cloud/instantCommandClient.ts:504-511 | A reachable state from which a command is sent although its predecessor has no journal row yet. |
| ConnectedScenario.WithdrawnThenCommitted | src/cloud/instantCommandClient.ts:516-540 | A reachable state, with a server whose verdict is a function of the command, its base and the revision that it meets, in which a withdrawn, reversed command has been committed by its delayed first request after somebody else's write. |
| ConnectedConflicts.RetiredConflictIsNotReservedUpon | src/cloud/instantCommandClient.ts:102-131 | In every run a conflict that was laid aside is named among a new command's reserved predecessors only if in between a rollback failed with an unreadable journal and quarantined every mirror. |
| ConnectedConflicts.QuarantineOpensConflict | src/cloud/instantCommandClient.ts:243-249 | After such a quarantine any new command may name any conflict that still has a mirror. |
| ConnectedConflicts.ReservedOnRetiredConflict | src/cloud/instantCommandClient.ts:131 | A reachable state in which a command is reserved on a conflict that was already reversed. |
| Authority.Intervening | gateway/authoritativeCommands.ts:307-347 | The pass over the intervening receipts reports a conflict if and only if one of them has no object records or, on an object that it shares with the command, a side names no field, a side claims the whole object, or a field of the one is a field of the other or lies below or above it; and it blames only such receipts. |
| Authority.ClashesExactly | gateway/authoritativeCommands.ts:307-347 | The test that the pass makes of one receipt holds exactly when that receipt has no object records or, on a shared object, is not independent in its fields, dotted paths compared as text. |
| Authority.StaleAdmission | gateway/authoritativeCommands.ts:307-347 | A command prepared on an older revision gets the answer that evaluating it gives if and only if every receipt since then has object records and, on each shared object, both sides named fields, none the whole object, and none equal to, below or above one of the other's as dotted paths; otherwise it gets a conflict. |
| Authority.RowAppended | supabase/migrations/20260923030000_cgr01_authoritative_commands.sql:96-152 | Appending a row whose delta is the difference to the new snapshot keeps the ledger valid: unique identities, consecutive revisions, recorded objects. |
| Authority.Workspaces.CompareAndSwap | supabase/migrations/20260923030000_cgr01_authoritative_commands.sql:11-156 | A known identity is answered or refused as reused, a moved revision loses, and otherwise snapshot, revision and one ledger row change together; the three other answers change nothing. |
| Authority.Workspaces.Decide | gateway/authoritativeCommands.ts:518-697 | A known identity gets its stored receipt or is refused as reused; any other gets exactly the verdict that StaleAdmission describes, after the impossible base and the already-current fact. |
| Authority.Workspaces.SwapAfter | supabase/migrations/20260923030000_cgr01_authoritative_commands.sql:50-94 | Whatever others commit first, the swap either adds exactly its row to the ledger that was read, loses to a longer ledger, or finds its identity taken. |
| Authority.Workspaces.Attempt | gateway/authoritativeCommands.ts:516-760 | One attempt with other writers between read and swap adds at most its own row, evaluated on the very snapshot it replaces, or loses to a writer that moved the revision; without other writers it carries the verdict out. |
| Authority.Workspaces.Execute | gateway/authoritativeCommands.ts:470-763 | Up to five attempts under one identity: a commit is the last row and was admitted against every receipt since its base; any other answer is justified and writes nothing; a known identity changes nothing at all; and a new command without other writers is committed if and only if its verdict is to write, and otherwise gets that answer. |
| Authority.Workspaces.DecideUndo | gateway/authoritativeCommands.ts:773-891 | An Undo is refused exactly for an unknown or uncompensated target, or one followed by a receipt without object records or with an object in common, and otherwise is the target's inverse applied to the current snapshot; no client revision is consulted. |
| Authority.BlockedExactly | gateway/authoritativeCommands.ts:851-885 | The test made of the later receipts holds exactly when one of them, or the target, has no object records, or one names an object that the target names. |
| Authority.UndoAdmission | gateway/authoritativeCommands.ts:851-885 | Undo commutes with unrelated later work: a target with a compensation is undone on the snapshot as it is now if and only if every receipt after it has object records and no object in common with it; otherwise the Undo is refused. |
| Authority.Workspaces.Undo | gateway/authoritativeCommands.ts:765-932 | Over all attempts, a refusable or repeated Undo gets its one answer and leaves the ledger alone, and a committed one is the last row; a new Undo without other writers is committed if and only if UndoAdmission admits it and the compensation fits. |
| Authority.SnapshotIsFoldOfLedger | e2e/accountWriteAdmission.e2e.ts:45-79 | Every snapshot of a valid history is the initial one with the recorded deltas of all receipts up to it, in commit order. |
| Authority.UntouchedBetween | gateway/authoritativeCommands.ts:325-334 | An object that no receipt between two revisions names is the same at both. |
| Authority.AdmittedSeesItsBase | gateway/authoritativeCommands.ts:572-579 | A stale command that was admitted finds every object that it claims as a whole unchanged since its base. |
| Authority.AdmittedSeesItsFields | gateway/authoritativeCommands.ts:307-347 | A stale command that was admitted finds every field that it asked for as it was at its base, whatever the receipts in between did to other fields, as long as they stayed within their scopes. |
| Authority.WrittenRowIsScoped | gateway/commandObjects.ts:178-183 | A committed row stays within its scopes on an object if and only if the command changed no field beside the ones it asked for there; objects it asked no field of are claimed whole. |
| Authority.UndoKeepsLaterWork | e2e/cgr01AuthoritativeCommand.e2e.ts:247-367 | After a committed Undo, whatever its compensation is, the target's objects are as before the target if and only if the compensation would have put them back at once, and every object it does not name is as the later work left it. |
| Authority.ReversedGivesBack | src/workspaceDelta.ts:81-83 | The reverse of the recorded delta is a compensation that puts them back. |
| Authority.UndoRefusedAfterLaterEdit | gateway/authoritativeCommands.ts:850-885 | A later receipt on a shared object, or one without object records, refuses the Undo. |
| Authority.RefusedThenCommitted | gateway/authoritativeCommands.ts:470-763 | One request under one identity, handled twice by the authority: refused, and then committed after somebody else's write. |
| ProjectionProof.PutRowViews | src/workspaceDelta.ts:66-71 | Replacing, appending or splicing one row of a list changes the view of that identifier only. |
| ProjectionProof.NormalIsView | src/db.ts:1532-1539 | Lists with unique identifiers have the same normal form if and only if they hold the same rows. |
| ProjectionProof.ApplyToListing | src/workspaceDelta.ts:59-80 | Applying a delta to listed collections succeeds exactly when the keyed transaction does, and shows the same workspace. |
| ProjectionProof.NormalListingIsView | src/db.ts:1532-1545 | Whole listings have the same normal form if and only if they hold the same rows. |
| ProjectionProof.KeyOrderIsView | src/db.ts:1240 | Two exports in primary-key order are the same text if and only if they hold the same rows. |
| ProjectionProof.ProofStore.Replace | src/db.ts:1224-1301 | Guarded replacement happens if and only if the cache still reads as the caller saw it, the baseline is not newer, every retained step is admitted and no write fails at whatever position; it leaves a proved store with one recorded delta per step that changes rows, and otherwise nothing changes at all. |
| ProjectionProof.ProofStore.Persist | src/db.ts:1578-1606 | Rows and proof commit together or not at all, and a verified store stays verified. |
| ProjectionProof.ProofStore.IsRecorded | src/db.ts:1522-1566 | The verdict is that baseline plus recorded deltas is the cache, whatever the listing order; compaction changes no verdict, now or after any later deltas. |
| ProjectionProof.ProofStore.Edit | e2e/instantInteraction.e2e.ts:782-811 | A genuine edit of a verified cache is never verified. |
| ReadProjection.EquivalentIsSeen | src/cloud/workspaceFingerprint.ts:39-64 | Two snapshots are equivalent if and only if their rules and every row that the comparison shows are equal, in any order of unique identifiers. |
| ReadProjection.EquivalentExactly | src/cloud/workspaceFingerprint.ts:29-64 | Row by row: rules count unless they are the default's, hydrated history never counts, remote ingestion audit counts only under an identifier that the local history has too, and every other row counts. |
| ReadProjection.EquivalentReflexive | e2e/cacheProjectionPersistence.e2e.ts:4-22 | Every snapshot is equivalent to itself. |
| ReadProjection.EquivalentComposes | src/cloud/workspaceFingerprint.ts:34-64 | Along a chain of snapshots it composes if and only if no identifier is hydrated history in the first, absent in the second and ingestion audit in the third. |
| ReadProjection.EquivalentTurnsAround | src/cloud/workspaceFingerprint.ts:29-64 | It can be turned around if and only if the remote side shows no ingestion audit that the local side lacks. |
| ReadProjection.EquivalentIsOneWay | src/cloud/workspaceFingerprint.ts:29-37 | A concrete cache and server snapshot that are equivalent in one direction only. |
| ReadProjection.EquivalentChainBreaks | src/cloud/workspaceFingerprint.ts:48-49 | Three concrete snapshots, each equivalent to the next, of which the first is not equivalent to the last. |
| AccountLease.Session.SetSession | src/cloud/accountCacheLease.ts:8-11 | An account switch ends every lease captured before it, at once; setting the same account ends none. |
| AccountLease.Session.BeginResolution | src/cloud/accountCacheLease.ts:13 | A new resolution ends every earlier lease, of the same account too. |
| AccountLease.Session.Capture | src/cloud/accountCacheLease.ts:17-24 | A lease is given if and only if the expected account is current, and it holds then. |
| AccountLease.NextInv | src/cloud/authoritativeReadModelClient.ts:60-227 | Every step of overlapping reads, commands, edits, clears and switches, with a stop possible between a replacement or a check and its checkpoint, keeps answers within the server's revisions and replacements below the cache's baseline. |
| AccountLease.InstallsAreMonotone | e2e/postClosureAccountRace.e2e.ts:143-193 | Over every schedule, the revisions read into the cache for one account never go down unless the cache was cleared in between under the same lease, and one generation reads for one account only. |
| AccountLease.ReadKeepsReceipts | src/cloud/authoritativeReadModelClient.ts:99-107 | Over every schedule, a read never replaces the cache below a receipt that moved the checkpoint. |
| AccountLease.CheckpointIsCached | src/cloud/authoritativeReadModelClient.ts:211-214 | The checkpoint that a read moves after its replacement was read into the cache under the same lease, and the cache is still at least that new unless it was cleared since. |
| AccountLease.CheckpointIsChecked | src/cloud/authoritativeReadModelClient.ts:108-113 | A read that replaces nothing moves the checkpoint only to the revision of a snapshot that it had found the cache to be equal to. |
| AccountLease.CheckpointOverOlderCache | src/cloud/authoritativeReadModelClient.ts:84-107 | A reachable state with two replacements out of order and the checkpoint above what the cache was read from, by a clear under the living lease between a replacement and its checkpoint. |
| AccountLease.LateResponseInstallsNothing | e2e/postClosureAccountRace.e2e.ts:202-252 | Once the account has changed, nothing captured before is written to the cache or to the checkpoint, not even when the first account is back. |
| AccountLease.ReadGoesThrough | src/cloud/authoritativeReadModelClient.ts:60-227 | From every reachable state whose account has nothing in the outbox, a read that nobody interrupts puts the server's snapshot into the cache and moves the checkpoint to its revision. |
| Consent.Stage | supabase/migrations/20261003083410_scoped_management_consent_batch.sql:59-119 | The loop over the choices stages the whole batch if and only if every choice is in a known domain, bound, and made on the grant as it is, identifier and revision. |
| Consent.Authority.Decide | supabase/migrations/20261003083410_scoped_management_consent_batch.sql:16-130 | A retry gets the stored receipts and changes nothing, a request that is refused for any of the listed reasons changes nothing, and otherwise every choice turns its grant as BatchDecides says and one event is stored; every grant's revision stays its initial one plus the receipts that moved it. |
| Consent.BatchGrows | supabase/migrations/20261003083410_scoped_management_consent_batch.sql:59-119 | Deciding one more domain from the staged grants extends the batch: every choice so far turned the grant that it was made on, and nothing else changed. |
| Consent.BatchDecides | supabase/migrations/20261003083410_scoped_management_consent_batch.sql:60-119 | Approval leaves the grant active, one revision on, or new at revision 1; revocation leaves an active grant revoked, one revision on, and a revoked one as it is; and the receipt says which, with the grant that was left. |
| Consent.BatchMoves | supabase/migrations/20261002123812_consumer_management_atomic_grants.sql:22-36 | Each grant's revision moves by exactly the receipts of the event that moved it. |
| Consent.BatchAdvances | e2e/scopedManagementConsent.e2e.ts:22-35 | A committed batch advances each chosen domain by one revision unless it was already revoked, its receipt is the new grant's proof, and neighbours keep theirs. |
| Consent.OwnerConsent.Post | e2e/ownerManagementConsent.e2e.ts:122-155 | A new request writes once and a retry reads its receipt; receipts, writes and the grant's revision stay equal and the receipts hold each revision once. |
| Occurrences.SupersedingKeepsHistory | src/scheduleNodes.ts:445-464 | Superseding adds one version and closes at most the latest one; no stored version's time, evidence, number or back link changes. |
| Occurrences.SupersedingKeepsChains | src/scheduleNodes.ts:445-464 | It keeps identifiers unique, versions distinct, and every link resolved with both ends one version apart. |
| Occurrences.ChainsAreAcyclic | e2e/postClosureHistoryUndo.e2e.ts:388-422 | Along any path of links the version grows by one each, so no chain comes back to itself. |
| Occurrences.SupersedingOneChain | src/scheduleNodes.ts:445-464 | Superseding an occurrence supersedes within its own chain and leaves every other chain as it was. |
| Occurrences.Schedule.Supersede | src/scheduleNodes.ts:445-464 | The in-place update and append produce exactly the superseded schedule, with chains kept. |
| Occurrences.Schedule.CloseVersion | src/scheduleNodes.ts:457-461 | The loop closes exactly the version with the identifier. |
| Occurrences.Schedule.Reimport | src/db.ts:1432-1469 | After both passes every chain has at most one new version, the one its latest version before the import and the workbook call for; no chain loses a version, and a workbook that calls for nothing is the identity on nodes. |
| Occurrences.ImportOutcome | src/db.ts:1432-1469 | An import that gives an occurrence of a workbook a new time, or gives one back that an import had emptied, makes its next version with the workbook's state and time and the evidence of both; one that empties it makes a next version cancelled as of the import, at its time, with its evidence and the import's signature; any other leaves the latest version as it is. |
| Occurrences.GivenBack | src/db.ts:1458-1467 | A time that one import emptied and a later one gives back is scheduled again, two versions on, with all the evidence. |
| Occurrences.UserCancellationStands | e2e/postClosureHistoryUndo.e2e.ts:479-507 | Through any number of imports, whatever the user cancelled or completed, and whatever no workbook owns, keeps its chain and its latest version until the user acts on it again. |
| Occurrences.StandingExactly | src/db.ts:1432-1469 | A latest version is safe from every workbook whatsoever if and only if no workbook owns it, or it ended otherwise than by an import. |
| Occurrences.CancellingStands | e2e/postClosureHistoryUndo.e2e.ts:479-507 | The version that a user's cancellation makes stays the latest through any later imports, even if an import had cancelled the occurrence before and its signature was carried along. |
| Occurrences.OwnVersionStands | src/scheduleNodes.ts:445-464 | A version that the user makes and that no workbook owns is the latest one, as it was drafted, through any number of imports, until the user acts on it again. |
| Occurrences.OmissionKeepsChain | src/db.ts:1393-1395 | Through any number of imports that do not mention it, an occurrence keeps its whole chain. |
| Occurrences.ReimportIsIdempotent | e2e/postClosureHistoryUndo.e2e.ts:424-477 | After an import the same workbook calls for nothing more, so importing it again is the identity. |

## Left out

- OptimisticCache.CacheIsBaseUnderPending: says nothing about disturbed entities; `CacheRow` proves for each step that missing its guard does break the row's invariant, but a broken invariant may still leave a row that happens to be right.
- OptimisticCache.AcknowledgeInv: takes a receipt's delta to be the difference of the two consecutive server snapshots, which `Authority` proves of its own receipts; deltas from a server that answers otherwise are not modelled.
- ClearedCache.RecoveryGivesUnclearedCache: goes one way for the whole cache, because a later change can make up for a field that an earlier one dropped; `RecoveryExact` and `UncommittedRecovery` go both ways command by command.
- CommittedRecovery.CommittedRecovery: asks that the receipts that a pending chain stands on are those of its oldest command's predecessors, say something only of fields that they set, and were incorporated over rows that nobody else wrote since; at other rows `RecoveryExact` has the condition record by record. Receipts found by the recovery itself are in `RecoveryPlan.PlanRecords` and `RecoveryExact`.
- ReplyOutcomes.RefusalGoesThrough: goes one way, because a later inverse can make up for an earlier one; that a withdrawal which is carried out restores the row is exact in `RowWithdraw`.
- GenuineEdits.GenuineEditSurvives: protects a cell until a delta names the edited value itself; an edit to the value that a pending command found or left there is indistinguishable from that command's.
- ConnectedSafety.WithdrawnWasNotCommitted: goes one way; `WithdrawnThenCommitted` shows that a repeated send really is an exception, but not every repeated send is one.
- ConnectedProgress.QuarantinedMovesOn: states that settling stays possible, not that it happens, and says nothing of how a root ends that is quarantined itself, because the source has no fairness to appeal to: a tab may stay offline for ever. A root that turned out confirmed closes its quarantine for good, and only a full read then settles what it held.
- Authority.UndoKeepsLaterWork: takes a compensation to be a list of changes with one per object; domain compensations are operations on the snapshot with their own clocks and audit rows.
- Authority.AdmittedSeesItsFields: takes the receipts in between to be scoped; the source records the scopes a command asked for without comparing them with the fields it changed.
- AccountLease.NextInv: whether a read finds its snapshot merely equivalent, the outbox recently used or the local workspace unbound, and so replaces nothing, is a choice of the step.
- The rebased delta that a full read writes into a retained journal row in `ConnectedSystem`; `RecoveryPlan` and `OptimisticCache` have it.
- RecoveryPlan.RetainInOrder: a command that ends as a conflict in this very read is not among its sources; it could be an ancestor of a retained one only behind a command that has a receipt although that predecessor has none.
- InstantClient.Client.Begin: asks for a journal without a cycle; that dependencies follow the order of reservation in every run is `ConnectedOrder.RunSound`.
- ConnectedBases.SentBaseIsLeast: gives an Undo request a base as well, which the source does not send; the server's judgement may ignore it.
- Accounts in the joint runs: leases and overlapping reads are in `AccountLease` alone, and the joint runs tie the two checkpoints by no equation, since the cache's moves with the receipt and the protocol's in a later step; they tie histories, snapshots, reads and records.
- Two recoveries overlapping in one browser realm, and the in-memory flight and tail maps beyond one request at a time.
- Two tabs of one account sharing the stores.
- The journal records' compensations and targets in `OptimisticCache`: an Undo is a command with its own delta there.
- Object aliases, occurrence groups and the sub-objects of time planning in the authority's object references; here an object is an entity.
- The management-grant, AI-capture and signed-proposal gates inside command execution, and the per-command object and field scopes, which are functions of the command.
- The strict base-revision admission of the synthetic servers in the journeys, which is a special case that refuses more.
- The singleton collections (time planning, decision rules, discovery profile, import metadata) in listings; as entities of a workspace they are included.
- Locale-aware text comparison, which is code-unit order here, and empty or missing identifiers in a listed collection.
- History rows that the cache materializes on its own during a replacement.
- Update and completion timestamps of schedule versions, the elapsed-unresolved state's own rules, and the derivation of occurrences from workbook rows; a workbook is a map from occurrences to their times.
- Whether the session has resolved yet, as a flag of its own.
- Cryptographic fingerprints, OAuth, HTTP, Supabase sessions and IndexedDB as interfaces.
- User interface, focus, layout, internationalization, latency, natural-language and mail interpretation, discovery and scheduling feasibility.
