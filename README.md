# Transactional item states and user-query serialisation, in Dafny

This project models two pieces of Apache Jackrabbit.

**The transactional item state manager** (`XAItemStateManager`). A JCR session bound to an XA transaction does not write its saves to the shared store at once. The manager merges them into one change log per transaction. The log is stored as an attribute of the transaction context. Reads go through a fixed chain:

1. the virtual item provider;
2. the change log in flight (the commit log), or else the bound transaction log;
3. the shared item state manager.

The two-phase resource protocol runs as follows:

- `prepare` recomputes the NodeReferences records of virtual nodes and starts the shared update.
- `commit` ends the update and resets the log.
- `rollback` cancels the update and discards the log.
- A failure of prepare, or a failure to end the update in commit, discards the log.
- A commit without a prepared update fails before the log is touched, so the log is kept.

The model is split across these files:

- `item_states.dfy`: item ids and states, REFERENCE values, NodeReferences records.
- `change_log.dfy`: the change log as a value, its reads, its merge, and the mutable `ChangeLog` object that transactions and managers share.
- `virtual_references.dfy`: the reference deltas a change log implies, and how each one lands on the virtual provider's records.
- `shared_state.dfy`: the shared store and its begin/end/cancel update.
- `xa_item_state_manager.dfy`: the manager class, the transaction context and the commit-log holder.

**The user-query XPath evaluator** (`XPathQueryEvaluator`). It turns a query's condition tree into an XPath string by appending to a buffer:

- Property, Contains, Impersonation, Not, And and Or conditions;
- typed values;
- the element selector, the bracketed condition and the order-by clause.

It then applies the max-count rule, runs the query and keeps the results the group rule admits. `xpath_query_evaluator.dfy` models the serialisation twice: as a reference function (`Serialize`), and as the evaluator class whose visit methods append to `xPath`. Each visit method is proved to append exactly `Serialize` of its condition when it succeeds, and to report `Serialize`'s error when it does not. This includes the `Or` visit, which inserts `(` back at the position where its output began.

`wrappers.dfy` and `property_types.dfy` hold the Option/Result/Outcome types and the JCR property types.

Two points where the model follows the code rather than what one would expect of a two-phase protocol:

- **Rollback and virtual references.** One would expect rollback to revert the reference deltas that prepare pushed to virtual nodes. `rollback` (XAItemStateManager.java:184-192) never touches the virtual provider. `XAItemStates.XAItemStateManager.Rollback` states that the provider's records are unchanged.
- **Prepare reads prior states through the log.** `prepare` runs `updateVirtualReferences`, which reads the prior state of a modified property through the manager's own `getItemState` (XAItemStateManager.java:354-355). `XAItemStates.XAItemStateManager.Prepare` models exactly that. The corrected walk is a separate member, `XAItemStates.XAItemStateManager.PrepareCorrected` (see Findings).

The ChangeLog class is not part of this model. Its bookkeeping is taken to be:

- an id sits in at most one of the added, modified and deleted lists;
- adding then deleting an item cancels out;
- a modification of an added item stays an addition;
- a merge replays the other log's additions, modifications and deletions, in that order;
- undo and reset both leave an empty log;
- committing a log removes its deleted states from the store, then writes its modified and added states.

## Model

Paths are relative to the repository root. X = `jackrabbit/src/main/java/org/apache/jackrabbit/core/state/XAItemStateManager.java`, Q = `jackrabbit-core/src/main/java/org/apache/jackrabbit/core/security/user/XPathQueryEvaluator.java` (written out in each row).

| member | source | states |
|---|---|---|
| ItemStates.ReferenceTargets | jackrabbit/src/main/java/org/apache/jackrabbit/core/state/XAItemStateManager.java:338-346 | only a REFERENCE property yields targets, one UUID per value in value order; nodes and other property types yield none |
| ChangeLogs.Get | jackrabbit/src/main/java/org/apache/jackrabbit/core/state/XAItemStateManager.java:229-235 | the log answers with a staged state exactly when the id was added or modified, and the state carries that id; it reports a deletion exactly when the id is only deleted |
| ChangeLogs.GetRefs | jackrabbit/src/main/java/org/apache/jackrabbit/core/state/XAItemStateManager.java:279-285 | the log answers with the record it holds for the target, and has one exactly when it staged one |
| ChangeLogs.RecordAdded | jackrabbit/src/main/java/org/apache/jackrabbit/core/state/XAItemStateManager.java:313-321 | after an addition the log reads the new state, keeps its lists duplicate-free and disjoint, and reads every other id as before |
| ChangeLogs.RecordModified | jackrabbit/src/main/java/org/apache/jackrabbit/core/state/XAItemStateManager.java:313-321 | a modification is read back, stays an addition when the item was added in the same log, and leaves other ids alone |
| ChangeLogs.RecordDeleted | jackrabbit/src/main/java/org/apache/jackrabbit/core/state/XAItemStateManager.java:313-321 | deleting an item added in the same log removes every trace of it; otherwise the log reports it deleted |
| ChangeLogs.AddAll | jackrabbit/src/main/java/org/apache/jackrabbit/core/state/XAItemStateManager.java:313-321 | recording a run of additions keeps the log well formed and makes each added id read as staged |
| ChangeLogs.ModifyAll | jackrabbit/src/main/java/org/apache/jackrabbit/core/state/XAItemStateManager.java:313-321 | recording a run of modifications keeps the log well formed and makes each modified id read as staged |
| ChangeLogs.DeleteAll | jackrabbit/src/main/java/org/apache/jackrabbit/core/state/XAItemStateManager.java:313-321 | recording a run of deletions keeps the log well formed and leaves no deleted id readable |
| ChangeLogs.GetMerge | jackrabbit/src/main/java/org/apache/jackrabbit/core/state/XAItemStateManager.java:313-321 | merging a save into the transaction log keeps it well formed; the merged log answers every id as the newer log does when that log mentions it, else as the older one, and an item added earlier and deleted now vanishes; reference records of the newer log win |
| ChangeLogs.MergeLogs | jackrabbit/src/main/java/org/apache/jackrabbit/core/state/XAItemStateManager.java:313-321 | merging two logs of well-formed states yields a log of well-formed states, and the other log's reference records replace this one's |
| ChangeLogs.MergeCancelsAddThenDelete | jackrabbit/src/main/java/org/apache/jackrabbit/core/state/XAItemStateManager.java:313-315 | an item added by an earlier save and deleted by a later one is, after the merge, neither staged nor deleted |
| ChangeLogs.AppliedMatchesOverlay | jackrabbit/src/main/java/org/apache/jackrabbit/core/state/XAItemStateManager.java:223-237 | for a valid log, the store the commit leaves (deleted states removed, modified and added states written, both defined from the three lists) answers every id as reading through the log did before: read-your-writes agrees with commit |
| ChangeLogs.Applied | jackrabbit/src/main/java/org/apache/jackrabbit/core/state/XAItemStateManager.java:171 | committing a log of well-formed states into a store that files every state under its own id yields such a store again |
| ChangeLogs.WrittenFind | jackrabbit/src/main/java/org/apache/jackrabbit/core/state/XAItemStateManager.java:171 | writing a keyed list into a store files exactly the listed ids, each with the state the list holds for it |
| ChangeLogs.ChangeLog.constructor | jackrabbit/src/main/java/org/apache/jackrabbit/core/state/XAItemStateManager.java:124 | a fresh change log is empty |
| ChangeLogs.ChangeLog.Merge | jackrabbit/src/main/java/org/apache/jackrabbit/core/state/XAItemStateManager.java:321 | the log becomes the merge of its old contents with the other log's |
| ChangeLogs.ChangeLog.Reset | jackrabbit/src/main/java/org/apache/jackrabbit/core/state/XAItemStateManager.java:177 | after a successful commit the log is empty |
| ChangeLogs.ChangeLog.Undo | jackrabbit/src/main/java/org/apache/jackrabbit/core/state/XAItemStateManager.java:190 | undo leaves an empty log |
| VirtualReferences.ApplyDelta | jackrabbit/src/main/java/org/apache/jackrabbit/core/state/XAItemStateManager.java:397-430 | a reference add/remove creates the target's record when the target is a virtual node without one, and otherwise creates or drops no record |
| VirtualReferences.ApplyDeltaCount | jackrabbit/src/main/java/org/apache/jackrabbit/core/state/XAItemStateManager.java:397-430 | an add raises the source's count in the target's record by one and a remove lowers it by one (never below zero), only when the target has a record or is virtual; no other count moves |
| VirtualReferences.NoReferencesNoDeltas | jackrabbit/src/main/java/org/apache/jackrabbit/core/state/XAItemStateManager.java:336-388 | a log with no REFERENCE property, whose prior states hold none either, implies no reference change |
| VirtualReferences.DeltasKeys | jackrabbit/src/main/java/org/apache/jackrabbit/core/state/XAItemStateManager.java:401-408 | after a run of deltas whose targets can all receive them, there is a record for exactly the old targets plus the new ones |
| VirtualReferences.AddsKeys | jackrabbit/src/main/java/org/apache/jackrabbit/core/state/XAItemStateManager.java:342-346 | adding a property's references leaves a record for each of its targets and drops none |
| VirtualReferences.RemovesKeys | jackrabbit/src/main/java/org/apache/jackrabbit/core/state/XAItemStateManager.java:380-384 | removing a property's references likewise creates records for virtual targets and drops none |
| VirtualReferences.AddsCount | jackrabbit/src/main/java/org/apache/jackrabbit/core/state/XAItemStateManager.java:341-346 | adding a property's references raises its count in each target's record by the number of values naming that target; other counts are unchanged |
| VirtualReferences.RemovesCount | jackrabbit/src/main/java/org/apache/jackrabbit/core/state/XAItemStateManager.java:379-384 | removing a property's references lowers its count in each record by the number of values naming the target, never below zero; other counts are unchanged |
| VirtualReferences.AddThenRemoveRestores | jackrabbit/src/main/java/org/apache/jackrabbit/core/state/XAItemStateManager.java:336-388 | when every target already has a record, adding a property's references and then removing the same references restores all records exactly |
| VirtualReferences.AddedReferenceRecorded | jackrabbit/src/main/java/org/apache/jackrabbit/core/state/XAItemStateManager.java:401-407 | after an added REFERENCE property is processed, each target it names has a record that holds the property |
| VirtualReferences.ModifiedRecordFollowsNewValue | jackrabbit/src/main/java/org/apache/jackrabbit/core/state/XAItemStateManager.java:350-373 | processing a modified property (old references removed, then new ones added) turns a record that matched the old value into one that matches the new value |
| VirtualReferences.VirtualProvider.GetNodeReferences | jackrabbit/src/main/java/org/apache/jackrabbit/core/state/XAItemStateManager.java:276-277 | the provider returns the record it holds for the target, and has one exactly for the targets it keeps one for |
| VirtualReferences.VirtualProvider.SetNodeReferences | jackrabbit/src/main/java/org/apache/jackrabbit/core/state/XAItemStateManager.java:407 | writing a record back replaces that target's record only |
| SharedState.SharedItemStateManager.constructor | jackrabbit/src/main/java/org/apache/jackrabbit/core/state/XAItemStateManager.java:101-107 | a store built from states filed under their own ids is valid |
| SharedState.SharedItemStateManager.BeginUpdate | jackrabbit/src/main/java/org/apache/jackrabbit/core/state/XAItemStateManager.java:151 | beginUpdate yields a new update of exactly the given log when the shared manager accepts it, else its failure |
| SharedState.SharedItemStateManager.End | jackrabbit/src/main/java/org/apache/jackrabbit/core/state/XAItemStateManager.java:171 | a successful end writes the log's states and reference records into the store; a failed one leaves the store untouched; a valid store stays valid when the log holds well-formed states |
| SharedState.SharedItemStateManager.Cancel | jackrabbit/src/main/java/org/apache/jackrabbit/core/state/XAItemStateManager.java:188 | a cancelled update is marked cancelled and writes nothing |
| SharedState.SharedItemStateManager.Store | jackrabbit/src/main/java/org/apache/jackrabbit/core/state/XAItemStateManager.java:323 | the unbound single-phase update: nothing changes when validation or end fails, else the log is applied; the store stays valid |
| XAItemStates.CommitLog.constructor | jackrabbit/src/main/java/org/apache/jackrabbit/core/state/XAItemStateManager.java:55-61 | the commit-log holder starts with no change log |
| XAItemStates.CommitLog.SetChanges | jackrabbit/src/main/java/org/apache/jackrabbit/core/state/XAItemStateManager.java:440-467 | the holder keeps the change log it is given, or none |
| XAItemStates.XAItemStateManager.constructor | jackrabbit/src/main/java/org/apache/jackrabbit/core/state/XAItemStateManager.java:101-107 | a new manager has no transaction log, no pending update, no virtual provider and no log in flight |
| XAItemStates.XAItemStateManager.WithDefaultName | jackrabbit/src/main/java/org/apache/jackrabbit/core/state/XAItemStateManager.java:89-92 | the two-argument constructor: like the other, with the change log kept under the default attribute name "ChangeLog" |
| XAItemStates.XAItemStateManager.SetVirtualProvider | jackrabbit/src/main/java/org/apache/jackrabbit/core/state/XAItemStateManager.java:112-114 | installs the provider and changes nothing else |
| XAItemStates.XAItemStateManager.Associate | jackrabbit/src/main/java/org/apache/jackrabbit/core/state/XAItemStateManager.java:119-129 | no transaction unbinds the manager; otherwise it binds to the log already stored under the attribute name, or to a fresh empty log that it stores there, so repeated associations share one log |
| XAItemStates.XAItemStateManager.BeforeOperation | jackrabbit/src/main/java/org/apache/jackrabbit/core/state/XAItemStateManager.java:134-139 | when the transaction has a log, that log goes in flight and reads go through it; otherwise the log in flight is unchanged |
| XAItemStates.XAItemStateManager.AfterOperation | jackrabbit/src/main/java/org/apache/jackrabbit/core/state/XAItemStateManager.java:197-199 | clears the log in flight, so reads fall back to the bound transaction log |
| XAItemStates.XAItemStateManager.GetChangeLog | jackrabbit/src/main/java/org/apache/jackrabbit/core/state/XAItemStateManager.java:206-212 | the log in flight wins over the bound log; there is none only when neither is set |
| XAItemStates.XAItemStateManager.Prepare | jackrabbit/src/main/java/org/apache/jackrabbit/core/state/XAItemStateManager.java:144-162 | without a log nothing happens; otherwise, with a virtual provider, the records receive exactly the log's reference deltas with prior states read, as written, through getItemState (so a property staged in the log in flight is its own prior state), and prepare succeeds iff those prior states are found and the shared manager accepts; then the update holds the log unchanged; every failure empties the log, is an UnableToPrepare and leaves the pending update as it was; the manager stays valid |
| XAItemStates.XAItemStateManager.PrepareCorrected | jackrabbit/src/main/java/org/apache/jackrabbit/core/state/XAItemStateManager.java:144-162 | prepare as evidently intended: the same protocol, but the reference deltas take the prior state of a modified property from the shared store, i.e. from before the transaction; it fails with NoSuchItemState iff such a prior state is missing |
| XAItemStates.XAItemStateManager.BeginOrDiscard | jackrabbit/src/main/java/org/apache/jackrabbit/core/state/XAItemStateManager.java:150-159 | beginUpdate either yields a fresh update of the log unchanged, or the log is emptied, the failure is an UnableToPrepare and the pending update is kept |
| XAItemStates.XAItemStateManager.Commit | jackrabbit/src/main/java/org/apache/jackrabbit/core/state/XAItemStateManager.java:167-179 | without a log nothing happens (store, update and log unchanged); without a prepared update it fails with the log and the store untouched; a successful end applies the update to the store and resets the log; a failed end leaves the store and the update's status unchanged, empties the log and is an UnableToCommit; the store and the manager stay valid, and no other log is touched |
| XAItemStates.XAItemStateManager.Rollback | jackrabbit/src/main/java/org/apache/jackrabbit/core/state/XAItemStateManager.java:184-192 | with a log, a pending update is cancelled and the log is always emptied; the virtual provider's records are left as they are; no other log is touched and the manager stays valid |
| XAItemStates.XAItemStateManager.GetItemState | jackrabbit/src/main/java/org/apache/jackrabbit/core/state/XAItemStateManager.java:223-237 | a virtual item wins; otherwise, with a log, a staged state is read back, a deleted one is absent and anything else comes from the shared store; for a valid log that is exactly what the store will hold once the log is committed; without a log it is the shared store's; found states carry the requested id |
| XAItemStates.XAItemStateManager.HasItemState | jackrabbit/src/main/java/org/apache/jackrabbit/core/state/XAItemStateManager.java:247-263 | an id exists exactly when getItemState finds it, so a deletion in the log hides a shared state and a staged state needs no store |
| XAItemStates.XAItemStateManager.GetNodeReferences | jackrabbit/src/main/java/org/apache/jackrabbit/core/state/XAItemStateManager.java:273-287 | the provider's record wins, then the log's, then the shared store's; None when no layer has one |
| XAItemStates.XAItemStateManager.HasNodeReferences | jackrabbit/src/main/java/org/apache/jackrabbit/core/state/XAItemStateManager.java:297-308 | a record exists exactly when getNodeReferences returns one |
| XAItemStates.XAItemStateManager.Update | jackrabbit/src/main/java/org/apache/jackrabbit/core/state/XAItemStateManager.java:317-325 | bound to a transaction, a save merges into the transaction log and leaves the shared store untouched; unbound, it is written through in one phase; the store stays valid, and the merged transaction log keeps its states well formed and stays a valid log when both logs were |
| XAItemStates.XAItemStateManager.AddVirtualReference | jackrabbit/src/main/java/org/apache/jackrabbit/core/state/XAItemStateManager.java:397-409 | the provider's records become exactly the result of one reference addition |
| XAItemStates.XAItemStateManager.RemoveVirtualReference | jackrabbit/src/main/java/org/apache/jackrabbit/core/state/XAItemStateManager.java:418-430 | the provider's records become exactly the result of one reference removal |
| XAItemStates.XAItemStateManager.AddVirtualReferences | jackrabbit/src/main/java/org/apache/jackrabbit/core/state/XAItemStateManager.java:342-346 | the loop over a property's values applies one addition per value, in order |
| XAItemStates.XAItemStateManager.RemoveVirtualReferences | jackrabbit/src/main/java/org/apache/jackrabbit/core/state/XAItemStateManager.java:380-384 | the loop over a property's values applies one removal per value, in order |
| XAItemStates.XAItemStateManager.AddedReferences | jackrabbit/src/main/java/org/apache/jackrabbit/core/state/XAItemStateManager.java:336-349 | the walk over added states applies the additions of their REFERENCE properties, in log order |
| XAItemStates.XAItemStateManager.ModifiedStateReferences | jackrabbit/src/main/java/org/apache/jackrabbit/core/state/XAItemStateManager.java:353-371 | for one modified property the prior value's references are removed before the new value's are added |
| XAItemStates.XAItemStateManager.ModifiedStep | jackrabbit/src/main/java/org/apache/jackrabbit/core/state/XAItemStateManager.java:351-372 | one iteration over a modified state with a known prior state extends the applied deltas by exactly that state's removal/addition deltas |
| XAItemStates.XAItemStateManager.ModifiedReferences | jackrabbit/src/main/java/org/apache/jackrabbit/core/state/XAItemStateManager.java:350-373 | the walk over modified states succeeds iff every modified property has a prior state, and then applies its removal/addition deltas in log order |
| XAItemStates.XAItemStateManager.DeletedReferences | jackrabbit/src/main/java/org/apache/jackrabbit/core/state/XAItemStateManager.java:374-387 | the walk over deleted states applies the removals of their REFERENCE properties, in log order |
| XAItemStates.XAItemStateManager.UpdateReferencesFrom | jackrabbit/src/main/java/org/apache/jackrabbit/core/state/XAItemStateManager.java:335-388 | added, then modified, then deleted states: the records end as the log's deltas applied in that order; the walk fails with NoSuchItemState iff a modified property has no prior state |
| XAItemStates.XAItemStateManager.UpdateVirtualReferences | jackrabbit/src/main/java/org/apache/jackrabbit/core/state/XAItemStateManager.java:335-388 | the corrected walk: prior states come from the shared store, so the records lose the old value's references and gain the new one's |
| XAItemStates.XAItemStateManager.ViewOf | jackrabbit/src/main/java/org/apache/jackrabbit/core/state/XAItemStateManager.java:354-355 | the prior states as written are exactly what getItemState finds for the modified ids |
| XAItemStates.XAItemStateManager.UpdateVirtualReferencesAsWritten | jackrabbit/src/main/java/org/apache/jackrabbit/core/state/XAItemStateManager.java:335-388 | the walk as written: prior states are read through the manager's own getItemState |
| XAItemStates.AsWrittenPriorIsStaged | jackrabbit/src/main/java/org/apache/jackrabbit/core/state/XAItemStateManager.java:354-355 | as written, the prior state of a property the log in flight stages is the staged (new) state |
| XAItemStates.AsWrittenPriorsKnown | jackrabbit/src/main/java/org/apache/jackrabbit/core/state/XAItemStateManager.java:52-56 | while the log being prepared is the one in flight, every modified property has a prior state as written, so the as-written walk never fails with NoSuchItemState |
| XAItemStates.StaleVirtualReference | jackrabbit/src/main/java/org/apache/jackrabbit/core/state/XAItemStateManager.java:350-373 | a concrete log where the as-written walk leaves a stale reference on a virtual node and the corrected walk removes it |
| XPathQueries.Format | jackrabbit-core/src/main/java/org/apache/jackrabbit/core/security/user/XPathQueryEvaluator.java:150-167 | formatting succeeds exactly for STRING, BOOLEAN, LONG, DOUBLE and DATE, and fails with the value's type otherwise |
| XPathQueries.FormatRoundTrip | jackrabbit-core/src/main/java/org/apache/jackrabbit/core/security/user/XPathQueryEvaluator.java:150-167 | the value's text can be read back from its formatted form: quoted for STRING/BOOLEAN, bare for LONG/DOUBLE, inside xs:dateTime('…') for DATE |
| XPathQueries.FormatInjective | jackrabbit-core/src/main/java/org/apache/jackrabbit/core/security/user/XPathQueryEvaluator.java:150-167 | two values of one type format alike only if they are equal |
| XPathQueries.SerializeFailsIff | jackrabbit-core/src/main/java/org/apache/jackrabbit/core/security/user/XPathQueryEvaluator.java:92-102 | a condition fails to serialise exactly when some non-EX property condition in it compares with a value of an unsupported type; EX never formats its value |
| XPathQueries.JoinedFailsIff | jackrabbit-core/src/main/java/org/apache/jackrabbit/core/security/user/XPathQueryEvaluator.java:124-146 | an And/Or fails exactly when one of its terms does |
| XPathQueries.OrOfOne | jackrabbit-core/src/main/java/org/apache/jackrabbit/core/security/user/XPathQueryEvaluator.java:124-146 | an And or Or of a single term serialises as that term, without parentheses |
| XPathQueries.OrParenthesised | jackrabbit-core/src/main/java/org/apache/jackrabbit/core/security/user/XPathQueryEvaluator.java:141-145 | an Or of two or more terms is its terms joined by " or ", wrapped in one pair of parentheses |
| XPathQueries.QueryTextShape | jackrabbit-core/src/main/java/org/apache/jackrabbit/core/security/user/XPathQueryEvaluator.java:58-75 | the query starts with //element(*,ntName); a '[' follows exactly when there is a condition; it ends with " order by col dir" when a sort column is set, and is just the selector when there is neither |
| XPathQueries.Limit | jackrabbit-core/src/main/java/org/apache/jackrabbit/core/security/user/XPathQueryEvaluator.java:78-85 | a positive max count limits the query to that many results, a negative one sets no limit |
| XPathQueries.SelectPredicate | jackrabbit-core/src/main/java/org/apache/jackrabbit/core/security/user/XPathQueryEvaluator.java:193-232 | no group name admits all; a name that is unknown or not a group admits none; otherwise the group's (declared or transitive) membership decides |
| XPathQueries.Filter | jackrabbit-core/src/main/java/org/apache/jackrabbit/core/security/user/XPathQueryEvaluator.java:234 | the kept results are admitted ones of the input and every admitted input is kept; with FilterOne and FilterAppend below, the result is fixed exactly: each admitted result, once per occurrence, in input order |
| XPathQueries.FilterOne | jackrabbit-core/src/main/java/org/apache/jackrabbit/core/security/user/XPathQueryEvaluator.java:234 | a single result is kept exactly when the selection admits it |
| XPathQueries.FilterAppend | jackrabbit-core/src/main/java/org/apache/jackrabbit/core/security/user/XPathQueryEvaluator.java:234 | filtering distributes over concatenation, so order and multiplicity of the admitted results are kept |
| XPathQueries.FilterAll | jackrabbit-core/src/main/java/org/apache/jackrabbit/core/security/user/XPathQueryEvaluator.java:194-195 | with no group name every result, including nodes that are no authorizable, is kept in order |
| XPathQueries.FilterNone | jackrabbit-core/src/main/java/org/apache/jackrabbit/core/security/user/XPathQueryEvaluator.java:199-200 | with an unknown or non-group name nothing is kept |
| XPathQueries.Results | jackrabbit-core/src/main/java/org/apache/jackrabbit/core/security/user/XPathQueryEvaluator.java:174-188 | each node becomes its authorizable, or none when it cannot be turned into one, in order |
| XPathQueries.XPathQueryEvaluator.constructor | jackrabbit-core/src/main/java/org/apache/jackrabbit/core/security/user/XPathQueryEvaluator.java:49-55 | a new evaluator has an empty buffer |
| XPathQueries.XPathQueryEvaluator.Accept | jackrabbit-core/src/main/java/org/apache/jackrabbit/core/security/user/XPathQueryEvaluator.java:65 | visiting any condition appends exactly its serialisation, or reports the serialisation's error |
| XPathQueries.XPathQueryEvaluator.VisitProperty | jackrabbit-core/src/main/java/org/apache/jackrabbit/core/security/user/XPathQueryEvaluator.java:92-102 | EX appends only the relative path; another op appends path, op token and formatted value, or fails for an unsupported type |
| XPathQueries.XPathQueryEvaluator.VisitContains | jackrabbit-core/src/main/java/org/apache/jackrabbit/core/security/user/XPathQueryEvaluator.java:104-110 | appends jcr:contains(path,'expr') |
| XPathQueries.XPathQueryEvaluator.VisitImpersonation | jackrabbit-core/src/main/java/org/apache/jackrabbit/core/security/user/XPathQueryEvaluator.java:112-116 | appends @rep:impersonators='name' |
| XPathQueries.XPathQueryEvaluator.VisitNot | jackrabbit-core/src/main/java/org/apache/jackrabbit/core/security/user/XPathQueryEvaluator.java:118-122 | appends not( + the sub-condition + ) |
| XPathQueries.XPathQueryEvaluator.VisitAnd | jackrabbit-core/src/main/java/org/apache/jackrabbit/core/security/user/XPathQueryEvaluator.java:124-130 | appends the terms joined by " and ", without parentheses |
| XPathQueries.XPathQueryEvaluator.VisitJoined | jackrabbit-core/src/main/java/org/apache/jackrabbit/core/security/user/XPathQueryEvaluator.java:125-129 | the counting loop puts the separator before every term but the first; the first failing term stops it with that term's error |
| XPathQueries.XPathQueryEvaluator.VisitOr | jackrabbit-core/src/main/java/org/apache/jackrabbit/core/security/user/XPathQueryEvaluator.java:132-146 | appends the terms joined by " or "; with more than one term the '(' inserted at the saved position lands exactly before the Or's own output |
| XPathQueries.XPathQueryEvaluator.AppendCondition | jackrabbit-core/src/main/java/org/apache/jackrabbit/core/security/user/XPathQueryEvaluator.java:62-67 | appends the condition in brackets, or nothing without one |
| XPathQueries.XPathQueryEvaluator.BuildQuery | jackrabbit-core/src/main/java/org/apache/jackrabbit/core/security/user/XPathQueryEvaluator.java:58-75 | appends the whole query string, or reports why it cannot be built |
| XPathQueries.XPathQueryEvaluator.Eval | jackrabbit-core/src/main/java/org/apache/jackrabbit/core/security/user/XPathQueryEvaluator.java:57-88 | builds the query onto the buffer; max count 0 returns nothing; otherwise the engine runs the query text with the count as limit (positive) or no limit (negative) and the group rule filters the results |

## Left out

- Thread-local state: the commit log is one holder per manager, not one per thread. Cross-thread isolation is not modelled.
- Logging throughout both classes.
- `ChangeLog.undo(sharedStateMgr)`: the model empties the log. The reconnection of states to the shared manager is not modelled.
- `SharedItemStateManager.beginUpdate`: its validation (staleness, referential integrity, locking) is the `verdict` parameter. The event-state factory is not modelled.
- `Update.end`: its failure is the `endFails` parameter. How `Update.end` persists is not modelled.
- NodeReferences records are multisets of source ids. The list order of the Java class is dropped. Add/remove follow the effect visible at the call sites: append one, remove one occurrence.
- Null value arrays (`vals != null`) are modelled as empty value sequences.
- XAItemStates.XAItemStateManager.UpdateVirtualReferences: when the walk stops with NoSuchItemState, the contract does not say which deltas were already applied.
- XAItemStates.XAItemStateManager.UpdateVirtualReferencesAsWritten: the same.
- XAItemStates.XAItemStateManager.Prepare: the class-cast failure for a prior state that is not a property cannot arise. Every prior state is filed under its own id, so a property id never yields a node.
- XAItemStates.XAItemStateManager.Commit: the NullPointerException for a commit without a prepared update is the `NoPreparedUpdate` result.
- XAItemStates.XAItemStateManager.GetNodeReferences: the base class's lookup is modelled as the shared store's records. Its NoSuchItemStateException is `None`.
- XPathQueries.XPathQueryEvaluator.Accept: on a formatting failure, the contract does not state what the buffer holds. The source has already appended the path and the operator.
- XPathQueries.XPathQueryEvaluator.Eval: the engine, node-to-authorizable conversion and group lookups are parameters:
  - `createQuery`/`execute`;
  - `getAuthorizable`;
  - `isMember`/`isDeclaredMember`, with a thrown exception folded into "false".
- Exceptions thrown by `createQuery`, `execute` and `getAuthorizable(groupName)` are not modelled. Result iterators are sequences.
- The query builder (relation-op tokens, sort-direction words, the condition classes) is not part of this model. Tokens and directions are carried as strings.
- No escaping or quoting correctness is claimed for the XPath text. The code does none.
- DavResourceFactoryImpl.java and SessionContext.java are not part of this model. They are WebDAV request plumbing and session accessors.

## Findings

| source | as written | input that shows it | evidently intended | confidence | as-written member | corrected member |
|---|---|---|---|---|---|---|
| jackrabbit/src/main/java/org/apache/jackrabbit/core/state/XAItemStateManager.java:354-355 | the "old" state of a modified property is read with `getItemState`. During prepare the transaction's log is in flight (lines 53-56, 229-235), so `getItemState` returns the modified state itself and old and new values coincide. | a REFERENCE property pointing at virtual node 7 is changed in the transaction to point nowhere. The walk removes the new value's references (none) and adds them back (none), so node 7's record keeps the property. | the old value's references are removed and the new value's are added, so the record follows the new value | medium, not executed | XAItemStates.XAItemStateManager.Prepare, XAItemStates.XAItemStateManager.UpdateVirtualReferencesAsWritten, XAItemStates.StaleVirtualReference | XAItemStates.XAItemStateManager.PrepareCorrected, XAItemStates.XAItemStateManager.UpdateVirtualReferences, VirtualReferences.ModifiedRecordFollowsNewValue |
