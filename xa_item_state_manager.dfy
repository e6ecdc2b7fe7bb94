/** The transactional item state manager: it collects the changes of repeated
    saves into one change log per transaction, answers reads through that log,
    and writes the log into the shared store in two phases (prepare, commit)
    or discards it (rollback). It also keeps the NodeReferences records of
    virtual nodes in step with the REFERENCE properties a transaction adds,
    modifies and deletes. */
module XAItemStates {
  import opened Wrappers
  import opened ItemStates
  import opened ChangeLogs
  import opened VirtualReferences
  import opened SharedState

  /** TransactionException, with the failure that caused it; a commit without
      a prepared update fails with a NullPointerException in the source. */
  datatype TransactionFailure =
    | UnableToPrepare(cause: StateFailure)
    | UnableToCommit(cause: StateFailure)
    | NoPreparedUpdate

  /** The attribute name the change log is stored under by default. */
  const DefaultAttributeName := "ChangeLog"

  /** The attributes a transaction context carries; the manager stores its
      change log among them. */
  class TransactionContext {
    var attributes: map<string, ChangeLog>

    constructor ()
      ensures attributes == map[]
    {
      attributes := map[];
    }
  }

  /** Holder of the change log that is being prepared, committed or rolled
      back; the source keeps one per thread, the model one per manager. */
  class CommitLog {
    var changes: ChangeLog?

    constructor ()
      ensures changes == null
    {
      changes := null;
    }

    method SetChanges(changes: ChangeLog?)
      modifies this
      ensures this.changes == changes
    {
      this.changes := changes;
    }
  }

  /** The ids of a run of states. */
  function Ids(states: seq<ItemState>): set<ItemId> {
    set k | 0 <= k < |states| :: states[k].Id()
  }

  class XAItemStateManager {
    const shared: SharedItemStateManager
    const attributeName: string
    const commitLog: CommitLog
    var virtualProvider: VirtualProvider?
    var txLog: ChangeLog?
    var update: Update?

    constructor (shared: SharedItemStateManager, attributeName: string)
      ensures this.shared == shared && this.attributeName == attributeName
      ensures fresh(commitLog) && commitLog.changes == null
      ensures virtualProvider == null && txLog == null && update == null
    {
      this.shared := shared;
      this.attributeName := attributeName;
      commitLog := new CommitLog();
      virtualProvider := null;
      txLog := null;
      update := null;
    }

    /** A manager that keeps its change logs under the default attribute
        name. */
    constructor WithDefaultName(shared: SharedItemStateManager)
      ensures this.shared == shared && attributeName == DefaultAttributeName
      ensures fresh(commitLog) && commitLog.changes == null
      ensures virtualProvider == null && txLog == null && update == null
    {
      this.shared := shared;
      attributeName := DefaultAttributeName;
      commitLog := new CommitLog();
      virtualProvider := null;
      txLog := null;
      update := null;
    }

    /** The stores the lookups read are well formed. */
    predicate Valid()
      reads this, commitLog, commitLog.changes, txLog, virtualProvider, shared
    {
      && shared.Valid()
      && (virtualProvider != null ==> WellKeyed(virtualProvider.items))
      && (commitLog.changes != null ==> WellFormed(commitLog.changes.contents))
      && (txLog != null ==> WellFormed(txLog.contents))
    }

    method SetVirtualProvider(virtualProvider: VirtualProvider?)
      modifies this
      ensures this.virtualProvider == virtualProvider
      ensures txLog == old(txLog) && update == old(update)
    {
      this.virtualProvider := virtualProvider;
    }

    //-------------------------------------------------------------------------
    // The resource protocol

    /** Binds the manager to the change log of `tx`, creating and storing an
        empty one if `tx` has none yet; `null` unbinds it. */
    method Associate(tx: TransactionContext?)
      modifies this, tx
      ensures tx == null ==> txLog == null
      ensures tx != null && attributeName in old(tx.attributes) ==>
                txLog == old(tx.attributes[attributeName]) && tx.attributes == old(tx.attributes)
      ensures tx != null && attributeName !in old(tx.attributes) ==>
                txLog != null && fresh(txLog) && txLog.contents == EmptyLog &&
                tx.attributes == old(tx.attributes)[attributeName := txLog]
      ensures virtualProvider == old(virtualProvider) && update == old(update)
    {
      var log: ChangeLog? := null;
      if tx != null {
        if attributeName in tx.attributes {
          log := tx.attributes[attributeName];
        } else {
          log := new ChangeLog();
          tx.attributes := tx.attributes[attributeName := log];
        }
      }
      txLog := log;
    }

    /** Makes the transaction's change log the one in flight, when it has one. */
    method BeforeOperation(tx: TransactionContext)
      modifies commitLog
      ensures attributeName in tx.attributes ==> commitLog.changes == tx.attributes[attributeName]
      ensures attributeName !in tx.attributes ==> commitLog.changes == old(commitLog.changes)
      ensures attributeName in tx.attributes ==> GetChangeLog() == tx.attributes[attributeName]
    {
      if attributeName in tx.attributes {
        commitLog.SetChanges(tx.attributes[attributeName]);
      }
    }

    /** Clears the change log in flight; reads fall back to the bound log. */
    method AfterOperation(tx: TransactionContext)
      modifies commitLog
      ensures commitLog.changes == null
      ensures GetChangeLog() == txLog
    {
      commitLog.SetChanges(null);
    }

    /** The change log reads go through: the one in flight, else the bound one. */
    function GetChangeLog(): (r: ChangeLog?)
      reads this, commitLog
      ensures commitLog.changes != null ==> r == commitLog.changes
      ensures commitLog.changes == null ==> r == txLog
      ensures r == null <==> commitLog.changes == null && txLog == null
    {
      var changeLog := commitLog.changes;
      if changeLog == null then txLog else changeLog
    }

    /** The change log `tx` keeps under this manager's attribute name, as a
        frame: the only log the protocol methods may change. */
    function TxLogFrame(tx: TransactionContext): set<ChangeLog>
      reads tx
    {
      if attributeName in tx.attributes then {tx.attributes[attributeName]} else {}
    }

    /** The tail of prepare: begin the shared update of `log`; a refusal
        discards the log. */
    method BeginOrDiscard(log: ChangeLog, verdict: Outcome<StateFailure>) returns (r: Outcome<TransactionFailure>)
      modifies this, log
      ensures virtualProvider == old(virtualProvider) && txLog == old(txLog)
      ensures r.Pass? <==> verdict.Pass?
      ensures r.Fail? ==> r == Fail(UnableToPrepare(verdict.error)) && log.contents == EmptyLog && update == old(update)
      ensures r.Pass? ==> update != null && fresh(update) && update.status == Begun &&
                          update.changes == old(log.contents) && log.contents == old(log.contents)
    {
      var b := shared.BeginUpdate(log.contents, verdict);
      if b.Err? {
        log.Undo();
        return Fail(UnableToPrepare(b.error));
      }
      update := b.value;
      return Pass;
    }

    /** Phase one, as written: recompute the references of virtual nodes,
        then start the update of the shared store. The prior state of a
        modified property is read through this manager's own getItemState. A
        transaction without a change log has nothing to prepare; a failure of
        either step discards the log. */
    method Prepare(tx: TransactionContext, verdict: Outcome<StateFailure>) returns (r: Outcome<TransactionFailure>)
      requires Valid()
      requires attributeName in tx.attributes ==> WellFormed(tx.attributes[attributeName].contents)
      modifies this, virtualProvider, TxLogFrame(tx)
      ensures Valid()
      ensures virtualProvider == old(virtualProvider) && txLog == old(txLog)
      ensures r.Fail? ==> update == old(update)
      ensures attributeName !in tx.attributes ==> r == Pass && update == old(update)
      ensures attributeName !in tx.attributes && virtualProvider != null ==>
                virtualProvider.references == old(virtualProvider.references)
      ensures attributeName in tx.attributes ==>
                var log := tx.attributes[attributeName];
                var olds := old(ViewOf(log.contents.modified));
                && (r.Pass? <==>
                      && (virtualProvider == null || OldStatesKnown(old(log.contents).modified, olds))
                      && verdict.Pass?)
                && (r.Fail? ==> log.contents == EmptyLog && r.error.UnableToPrepare?)
                && (r.Pass? ==> update != null && fresh(update) && update.status == Begun &&
                                update.changes == old(log.contents) && log.contents == old(log.contents))
      ensures attributeName in tx.attributes && verdict.Fail? &&
              (virtualProvider == null ||
               OldStatesKnown(old(tx.attributes[attributeName].contents).modified,
                              old(ViewOf(tx.attributes[attributeName].contents.modified)))) ==>
                r == Fail(UnableToPrepare(verdict.error))
      ensures attributeName in tx.attributes && virtualProvider != null &&
              OldStatesKnown(old(tx.attributes[attributeName].contents).modified,
                             old(ViewOf(tx.attributes[attributeName].contents.modified))) ==>
                virtualProvider.references ==
                ApplyDeltas(old(virtualProvider.references), virtualProvider.items,
                            ChangeDeltas(old(tx.attributes[attributeName].contents),
                                         old(ViewOf(tx.attributes[attributeName].contents.modified))))
    {
      if attributeName !in tx.attributes {
        return Pass;
      }
      var log := tx.attributes[attributeName];
      if virtualProvider != null {
        var v := UpdateVirtualReferencesAsWritten(log.contents);
        if v.Fail? {
          log.Undo();
          return Fail(UnableToPrepare(v.error));
        }
      }
      r := BeginOrDiscard(log, verdict);
    }

    /** Phase one as evidently intended: like Prepare, but the prior state of
        a modified property is the one in the shared store, i.e. from before
        the transaction. */
    method PrepareCorrected(tx: TransactionContext, verdict: Outcome<StateFailure>) returns (r: Outcome<TransactionFailure>)
      requires attributeName in tx.attributes ==> WellFormed(tx.attributes[attributeName].contents)
      requires shared.Valid()
      modifies this, virtualProvider, TxLogFrame(tx)
      ensures old(Valid()) ==> Valid()
      ensures virtualProvider == old(virtualProvider) && txLog == old(txLog)
      ensures r.Fail? ==> update == old(update)
      ensures attributeName !in tx.attributes ==> r == Pass && update == old(update)
      ensures attributeName !in tx.attributes && virtualProvider != null ==>
                virtualProvider.references == old(virtualProvider.references)
      ensures attributeName in tx.attributes ==>
                var log := tx.attributes[attributeName];
                && (r.Pass? <==>
                      && (virtualProvider == null || OldStatesKnown(old(log.contents).modified, shared.items))
                      && verdict.Pass?)
                && (r.Fail? ==> log.contents == EmptyLog && r.error.UnableToPrepare?)
                && (r.Pass? ==> update != null && fresh(update) && update.status == Begun &&
                                update.changes == old(log.contents) && log.contents == old(log.contents))
      ensures attributeName in tx.attributes && verdict.Fail? &&
              (virtualProvider == null || OldStatesKnown(old(tx.attributes[attributeName].contents).modified, shared.items)) ==>
                r == Fail(UnableToPrepare(verdict.error))
      ensures attributeName in tx.attributes && virtualProvider != null &&
              OldStatesKnown(old(tx.attributes[attributeName].contents).modified, shared.items) ==>
                virtualProvider.references ==
                ApplyDeltas(old(virtualProvider.references), virtualProvider.items,
                            ChangeDeltas(old(tx.attributes[attributeName].contents), shared.items))
    {
      if attributeName !in tx.attributes {
        return Pass;
      }
      var log := tx.attributes[attributeName];
      if virtualProvider != null {
        var v := UpdateVirtualReferences(log.contents);
        if v.Fail? {
          log.Undo();
          return Fail(UnableToPrepare(v.error));
        }
      }
      r := BeginOrDiscard(log, verdict);
    }

    /** Phase two: end the prepared update. On success the log is reset, on
        failure it is discarded; a commit without a prepared update fails
        before the log is touched. */
    method Commit(tx: TransactionContext, endFails: bool) returns (r: Outcome<TransactionFailure>)
      requires shared.Valid() && (update != null ==> WellFormed(update.changes))
      modifies shared, update, TxLogFrame(tx)
      ensures shared.Valid()
      ensures old(Valid()) ==> Valid()
      ensures attributeName !in tx.attributes ==>
                r == Pass && shared.items == old(shared.items) && shared.references == old(shared.references)
      ensures attributeName !in tx.attributes && update != null ==> update.status == old(update.status)
      ensures update == null ==> shared.items == old(shared.items) && shared.references == old(shared.references)
      ensures attributeName in tx.attributes && update == null ==>
                r == Fail(NoPreparedUpdate) && tx.attributes[attributeName].contents == old(tx.attributes[attributeName].contents)
      ensures attributeName in tx.attributes && update != null && endFails ==>
                && r == Fail(UnableToCommit(ItemStateFailure))
                && tx.attributes[attributeName].contents == EmptyLog
                && update.status == old(update.status)
                && shared.items == old(shared.items) && shared.references == old(shared.references)
      ensures attributeName in tx.attributes && update != null && !endFails ==>
                && r == Pass
                && tx.attributes[attributeName].contents == EmptyLog
                && update.status == Ended
                && shared.items == Applied(old(shared.items), update.changes)
                && shared.references == old(shared.references) + update.changes.refs
    {
      if attributeName !in tx.attributes {
        return Pass;
      }
      var log := tx.attributes[attributeName];
      if update == null {
        return Fail(NoPreparedUpdate);
      }
      var e := shared.End(update, endFails);
      if e.Fail? {
        log.Undo();
        return Fail(UnableToCommit(e.error));
      }
      log.Reset();
      return Pass;
    }

    /** Cancels the prepared update, if there is one, and discards the log.
        The references of virtual nodes are left as prepare made them. */
    method Rollback(tx: TransactionContext)
      modifies update, TxLogFrame(tx)
      ensures old(Valid()) ==> Valid()
      ensures attributeName in tx.attributes ==> tx.attributes[attributeName].contents == EmptyLog
      ensures attributeName in tx.attributes && update != null ==> update.status == Cancelled
      ensures attributeName !in tx.attributes && update != null ==> update.status == old(update.status)
      ensures virtualProvider != null ==> virtualProvider.references == old(virtualProvider.references)
    {
      if attributeName in tx.attributes {
        var log := tx.attributes[attributeName];
        if update != null {
          shared.Cancel(update);
        }
        log.Undo();
      }
    }

    //-------------------------------------------------------------------------
    // Reads

    /** The id belongs to the virtual provider, which answers first. */
    predicate VirtualHit(id: ItemId)
      reads this, virtualProvider
    {
      virtualProvider != null && virtualProvider.HasItemState(id)
    }

    /** The virtual provider first, then the change log, then the shared
        store; a state the log deletes is not found. */
    function GetItemState(id: ItemId): (r: ItemLookup)
      reads this, commitLog, commitLog.changes, txLog, virtualProvider, shared
      ensures VirtualHit(id) ==> r == Found(virtualProvider.items[id])
      ensures !VirtualHit(id) && GetChangeLog() != null ==> r == Overlay(GetChangeLog().contents, shared.items, id)
      ensures !VirtualHit(id) && GetChangeLog() != null && ChangeLogs.Valid(GetChangeLog().contents) ==>
                r == LookupIn(Applied(shared.items, GetChangeLog().contents), id)
      ensures !VirtualHit(id) && GetChangeLog() == null ==> r == LookupIn(shared.items, id)
      ensures Valid() && r.Found? ==> r.state.Id() == id && r.state.WellFormed()
    {
      if VirtualHit(id) then Found(virtualProvider.items[id])
      else
        var changeLog := GetChangeLog();
        if changeLog != null then
          AppliedMatchesOverlay(shared.items, changeLog.contents, id);
          match Get(changeLog.contents, id)
          case Staged(s) => Found(s)
          case Deleted => NoSuchItem
          case NotStaged => LookupIn(shared.items, id)
        else LookupIn(shared.items, id)
    }

    /** Whether the id can be read: a deletion in the log hides the shared
        state. */
    predicate HasItemState(id: ItemId)
      reads this, commitLog, commitLog.changes, txLog, virtualProvider, shared
      ensures HasItemState(id) <==> GetItemState(id).Found?
    {
      if VirtualHit(id) then true
      else
        var changeLog := GetChangeLog();
        if changeLog != null then
          match Get(changeLog.contents, id)
          case Staged(_) => true
          case Deleted => false
          case NotStaged => id in shared.items
        else id in shared.items
    }

    /** The NodeReferences record of a target: the virtual provider's, then
        the change log's, then the shared store's; None when none has one. */
    function GetNodeReferences(target: Uuid): (r: Option<multiset<ItemId>>)
      reads this, commitLog, commitLog.changes, txLog, virtualProvider, shared
      ensures virtualProvider != null && virtualProvider.HasNodeReferences(target) ==>
                r == Some(virtualProvider.references[target])
      ensures !(virtualProvider != null && virtualProvider.HasNodeReferences(target)) && GetChangeLog() != null &&
              target in GetChangeLog().contents.refs ==>
                r == Some(GetChangeLog().contents.refs[target])
      ensures !(virtualProvider != null && virtualProvider.HasNodeReferences(target)) &&
              (GetChangeLog() == null || target !in GetChangeLog().contents.refs) ==>
                r == (if target in shared.references then Some(shared.references[target]) else None)
    {
      if virtualProvider != null && virtualProvider.HasNodeReferences(target) then
        virtualProvider.GetNodeReferences(target)
      else
        var changeLog := GetChangeLog();
        var staged := if changeLog != null then GetRefs(changeLog.contents, target) else None;
        if staged.Some? then staged
        else if target in shared.references then Some(shared.references[target])
        else None
    }

    predicate HasNodeReferences(target: Uuid)
      reads this, commitLog, commitLog.changes, txLog, virtualProvider, shared
      ensures HasNodeReferences(target) <==> GetNodeReferences(target).Some?
    {
      if virtualProvider != null && virtualProvider.HasNodeReferences(target) then true
      else
        var changeLog := GetChangeLog();
        if changeLog != null && target in changeLog.contents.refs then true
        else target in shared.references
    }

    //-------------------------------------------------------------------------
    // Writes

    /** A save: bound to a transaction, the changes are merged into its log
        and the shared store is untouched; unbound, they are written through
        at once. */
    method Update(changes: ChangeLog, verdict: Outcome<StateFailure>, endFails: bool) returns (r: Outcome<StateFailure>)
      requires shared.Valid() && WellFormed(changes.contents) && (txLog != null ==> WellFormed(txLog.contents))
      modifies txLog, shared
      ensures shared.Valid()
      ensures txLog != null ==> WellFormed(txLog.contents)
      ensures txLog != null && ChangeLogs.Valid(old(txLog.contents)) && ChangeLogs.Valid(old(changes.contents)) ==>
                ChangeLogs.Valid(txLog.contents)
      ensures txLog != null ==> r == Pass && txLog.contents == MergeLogs(old(txLog.contents), old(changes.contents))
      ensures txLog != null ==> shared.items == old(shared.items) && shared.references == old(shared.references)
      ensures txLog == null && verdict.Fail? ==>
                r == verdict && shared.items == old(shared.items) && shared.references == old(shared.references)
      ensures txLog == null && verdict.Pass? && endFails ==>
                r == Fail(ItemStateFailure) && shared.items == old(shared.items) && shared.references == old(shared.references)
      ensures txLog == null && verdict.Pass? && !endFails ==>
                r == Pass && shared.items == Applied(old(shared.items), changes.contents) &&
                shared.references == old(shared.references) + changes.contents.refs
    {
      if txLog != null {
        if ChangeLogs.Valid(txLog.contents) && ChangeLogs.Valid(changes.contents) {
          GetMerge(txLog.contents, changes.contents, NodeId(0), 0);
        }
        txLog.Merge(changes);
        return Pass;
      }
      r := shared.Store(changes.contents, verdict, endFails);
    }

    //-------------------------------------------------------------------------
    // References of virtual nodes

    /** Records that `source` references `target`, if the target has a
        record or is a virtual node. */
    method AddVirtualReference(source: ItemId, target: Uuid)
      requires virtualProvider != null
      modifies virtualProvider
      ensures virtualProvider.references ==
                ApplyDelta(old(virtualProvider.references), virtualProvider.items, AddRef(source, target))
    {
      var refs := virtualProvider.GetNodeReferences(target);
      if refs.None? && virtualProvider.HasItemState(NodeId(target)) {
        refs := Some(multiset{});
      }
      if refs.Some? {
        virtualProvider.SetNodeReferences(target, refs.value + multiset{source});
      }
    }

    /** Drops one occurrence of `source` from the record of `target`, under
        the same condition. */
    method RemoveVirtualReference(source: ItemId, target: Uuid)
      requires virtualProvider != null
      modifies virtualProvider
      ensures virtualProvider.references ==
                ApplyDelta(old(virtualProvider.references), virtualProvider.items, RemoveRef(source, target))
    {
      var refs := virtualProvider.GetNodeReferences(target);
      if refs.None? && virtualProvider.HasItemState(NodeId(target)) {
        refs := Some(multiset{});
      }
      if refs.Some? {
        virtualProvider.SetNodeReferences(target, refs.value - multiset{source});
      }
    }

    /** One addVirtualReference per value of a REFERENCE property, in order. */
    method AddVirtualReferences(source: ItemId, targets: seq<Uuid>)
      requires virtualProvider != null
      modifies virtualProvider
      ensures virtualProvider.references ==
                ApplyDeltas(old(virtualProvider.references), virtualProvider.items, Adds(source, targets))
    {
      ghost var refs0 := virtualProvider.references;
      var i := 0;
      while i < |targets|
        invariant 0 <= i <= |targets|
        invariant virtualProvider.references == ApplyDeltas(refs0, virtualProvider.items, Adds(source, targets[..i]))
      {
        AddVirtualReference(source, targets[i]);
        assert Adds(source, targets[..i + 1]) == Adds(source, targets[..i]) + [AddRef(source, targets[i])];
        ApplyDeltasSnoc(refs0, virtualProvider.items, Adds(source, targets[..i]), AddRef(source, targets[i]));
        i := i + 1;
      }
      assert targets[..i] == targets;
    }

    /** One removeVirtualReference per value of a REFERENCE property, in order. */
    method RemoveVirtualReferences(source: ItemId, targets: seq<Uuid>)
      requires virtualProvider != null
      modifies virtualProvider
      ensures virtualProvider.references ==
                ApplyDeltas(old(virtualProvider.references), virtualProvider.items, Removes(source, targets))
    {
      ghost var refs0 := virtualProvider.references;
      var i := 0;
      while i < |targets|
        invariant 0 <= i <= |targets|
        invariant virtualProvider.references == ApplyDeltas(refs0, virtualProvider.items, Removes(source, targets[..i]))
      {
        RemoveVirtualReference(source, targets[i]);
        assert Removes(source, targets[..i + 1]) == Removes(source, targets[..i]) + [RemoveRef(source, targets[i])];
        ApplyDeltasSnoc(refs0, virtualProvider.items, Removes(source, targets[..i]), RemoveRef(source, targets[i]));
        i := i + 1;
      }
      assert targets[..i] == targets;
    }

    /** The walk over the added states: their references are added. */
    method AddedReferences(states: seq<ItemState>)
      requires virtualProvider != null && forall k :: 0 <= k < |states| ==> states[k].WellFormed()
      modifies virtualProvider
      ensures virtualProvider.references ==
                ApplyDeltas(old(virtualProvider.references), virtualProvider.items, AddedDeltas(states))
    {
      ghost var refs0 := virtualProvider.references;
      var i := 0;
      while i < |states|
        invariant 0 <= i <= |states|
        invariant virtualProvider.references == ApplyDeltas(refs0, virtualProvider.items, AddedDeltas(states[..i]))
      {
        var s := states[i];
        assert states[..i + 1][..i] == states[..i];
        if !s.IsNode() && s.IsReference() {
          AddVirtualReferences(s.Id(), ReferenceTargets(s));
        }
        ApplyDeltasAppend(refs0, virtualProvider.items, AddedDeltas(states[..i]), AddDeltas(s));
        i := i + 1;
      }
      assert states[..i] == states;
    }

    /** One modified property: the prior value's references are removed,
        then the new value's are added. */
    method ModifiedStateReferences(s: ItemState, o: ItemState)
      requires virtualProvider != null && s.WellFormed() && o.WellFormed()
      modifies virtualProvider
      ensures virtualProvider.references ==
                ApplyDeltas(old(virtualProvider.references), virtualProvider.items, RemoveDeltas(o) + AddDeltas(s))
    {
      ghost var refs0 := virtualProvider.references;
      if o.IsReference() {
        RemoveVirtualReferences(o.Id(), ReferenceTargets(o));
      }
      if s.IsReference() {
        AddVirtualReferences(s.Id(), ReferenceTargets(s));
      }
      ApplyDeltasAppend(refs0, virtualProvider.items, RemoveDeltas(o), AddDeltas(s));
    }

    /** One step of the walk over the modified states: the next state's
        deltas land on the records, which keep tracking the walk so far. */
    method ModifiedStep(states: seq<ItemState>, j: nat, olds: map<ItemId, ItemState>, ghost refs0: RefRecords)
      requires virtualProvider != null && j < |states| && forall k :: 0 <= k < |states| ==> states[k].WellFormed()
      requires WellKeyed(olds) && OldStatesKnown(states[..j], olds)
      requires !states[j].IsNode() ==> states[j].Id() in olds
      requires virtualProvider.references == ApplyDeltas(refs0, virtualProvider.items, ModifiedDeltas(states[..j], olds))
      modifies virtualProvider
      ensures OldStatesKnown(states[..j + 1], olds)
      ensures AllWellFormed(states[..j + 1])
      ensures virtualProvider.references == ApplyDeltas(refs0, virtualProvider.items, ModifiedDeltas(states[..j + 1], olds))
    {
      var s := states[j];
      ModifiedDeltasSnoc(states, j, olds);
      ghost var step := if s.IsNode() then [] else RemoveDeltas(olds[s.Id()]) + AddDeltas(s);
      if !s.IsNode() {
        ModifiedStateReferences(s, olds[s.Id()]);
      }
      ApplyDeltasAppend(refs0, virtualProvider.items, ModifiedDeltas(states[..j], olds), step);
    }

    /** The walk over the modified states; a property without a prior state
        in `olds` stops it with NoSuchItemState. */
    method ModifiedReferences(states: seq<ItemState>, olds: map<ItemId, ItemState>) returns (r: Outcome<StateFailure>)
      requires virtualProvider != null && forall k :: 0 <= k < |states| ==> states[k].WellFormed()
      requires WellKeyed(olds)
      modifies virtualProvider
      ensures r.Pass? <==> OldStatesKnown(states, olds)
      ensures r.Fail? ==> r.error == NoSuchItemState
      ensures r.Pass? ==>
                virtualProvider.references ==
                ApplyDeltas(old(virtualProvider.references), virtualProvider.items, ModifiedDeltas(states, olds))
    {
      ghost var refs0 := virtualProvider.references;
      var j := 0;
      while j < |states|
        invariant 0 <= j <= |states|
        invariant OldStatesKnown(states[..j], olds)
        invariant AllWellFormed(states[..j])
        invariant virtualProvider.references == ApplyDeltas(refs0, virtualProvider.items, ModifiedDeltas(states[..j], olds))
      {
        var s := states[j];
        if !s.IsNode() && s.Id() !in olds {
          assert !OldStatesKnown(states, olds) by {
            assert states[j] == s;
          }
          return Fail(NoSuchItemState);
        }
        ModifiedStep(states, j, olds, refs0);
        j := j + 1;
      }
      assert states[..j] == states;
      return Pass;
    }

    /** The walk over the deleted states: their references are removed. */
    method DeletedReferences(states: seq<ItemState>)
      requires virtualProvider != null && forall k :: 0 <= k < |states| ==> states[k].WellFormed()
      modifies virtualProvider
      ensures virtualProvider.references ==
                ApplyDeltas(old(virtualProvider.references), virtualProvider.items, DeletedDeltas(states))
    {
      ghost var refs0 := virtualProvider.references;
      var k := 0;
      while k < |states|
        invariant 0 <= k <= |states|
        invariant virtualProvider.references == ApplyDeltas(refs0, virtualProvider.items, DeletedDeltas(states[..k]))
      {
        var s := states[k];
        assert states[..k + 1][..k] == states[..k];
        if !s.IsNode() && s.IsReference() {
          RemoveVirtualReferences(s.Id(), ReferenceTargets(s));
        }
        ApplyDeltasAppend(refs0, virtualProvider.items, DeletedDeltas(states[..k]), RemoveDeltas(s));
        k := k + 1;
      }
      assert states[..k] == states;
    }

    /** Walks the added, then the modified, then the deleted states of
        `changes`, and applies their reference deltas; the prior state of a
        modified property is taken from `olds`. */
    method UpdateReferencesFrom(changes: Log, olds: map<ItemId, ItemState>) returns (r: Outcome<StateFailure>)
      requires virtualProvider != null && WellFormed(changes) && WellKeyed(olds)
      modifies virtualProvider
      ensures r.Pass? <==> OldStatesKnown(changes.modified, olds)
      ensures r.Fail? ==> r.error == NoSuchItemState
      ensures r.Pass? ==>
                virtualProvider.references ==
                ApplyDeltas(old(virtualProvider.references), virtualProvider.items, ChangeDeltas(changes, olds))
    {
      ghost var refs0 := virtualProvider.references;
      AddedReferences(changes.added);
      r := ModifiedReferences(changes.modified, olds);
      if r.Fail? {
        return;
      }
      DeletedReferences(changes.deleted);
      ghost var a := AddedDeltas(changes.added);
      ghost var m := ModifiedDeltas(changes.modified, olds);
      ApplyDeltasAppend(refs0, virtualProvider.items, a, m);
      ApplyDeltasAppend(refs0, virtualProvider.items, a + m, DeletedDeltas(changes.deleted));
    }

    /** updateVirtualReferences with the prior state of a modified property
        read from the shared store, i.e. as it was before the transaction. */
    method UpdateVirtualReferences(changes: Log) returns (r: Outcome<StateFailure>)
      requires virtualProvider != null && WellFormed(changes) && shared.Valid()
      modifies virtualProvider
      ensures r.Pass? <==> OldStatesKnown(changes.modified, shared.items)
      ensures r.Fail? ==> r.error == NoSuchItemState
      ensures r.Pass? ==>
                virtualProvider.references ==
                ApplyDeltas(old(virtualProvider.references), virtualProvider.items, ChangeDeltas(changes, shared.items))
    {
      r := UpdateReferencesFrom(changes, shared.items);
    }

    /** The prior states updateVirtualReferences reads as written: each
        modified id looked up through this manager's own reads. */
    function ViewOf(states: seq<ItemState>): (m: map<ItemId, ItemState>)
      reads this, commitLog, commitLog.changes, txLog, virtualProvider, shared
      ensures forall id :: id in m <==> id in Ids(states) && GetItemState(id).Found?
      ensures forall id :: id in m ==> GetItemState(id) == Found(m[id])
      ensures Valid() ==> WellKeyed(m)
    {
      map id | id in Ids(states) && GetItemState(id).Found? :: GetItemState(id).state
    }

    /** updateVirtualReferences as the source writes it: the prior state of a
        modified property is read through getItemState, which, while the
        transaction's log is in flight, answers with the modified state. */
    method UpdateVirtualReferencesAsWritten(changes: Log) returns (r: Outcome<StateFailure>)
      requires virtualProvider != null && WellFormed(changes) && Valid()
      modifies virtualProvider
      ensures r.Pass? <==> OldStatesKnown(changes.modified, old(ViewOf(changes.modified)))
      ensures r.Fail? ==> r.error == NoSuchItemState
      ensures r.Pass? ==>
                virtualProvider.references ==
                ApplyDeltas(old(virtualProvider.references), virtualProvider.items,
                            ChangeDeltas(changes, old(ViewOf(changes.modified))))
    {
      var olds := ViewOf(changes.modified);
      r := UpdateReferencesFrom(changes, olds);
    }
  }

  /** As written, the prior state read for a property the log in flight
      stages is the staged state itself, not the state before the
      transaction. */
  lemma AsWrittenPriorIsStaged(m: XAItemStateManager, states: seq<ItemState>, id: ItemId)
    requires id in Ids(states) && !m.VirtualHit(id) && m.GetChangeLog() != null
    requires Get(m.GetChangeLog().contents, id).Staged?
    ensures id in m.ViewOf(states) && m.ViewOf(states)[id] == Get(m.GetChangeLog().contents, id).state
  {
  }

  /** While the log being prepared is the one in flight, every modified id
      has a prior state as written, so the as-written walk never stops with
      NoSuchItemState. */
  lemma AsWrittenPriorsKnown(m: XAItemStateManager, states: seq<ItemState>)
    requires m.GetChangeLog() != null && m.GetChangeLog().contents.modified == states
    ensures OldStatesKnown(states, m.ViewOf(states))
  {
    forall k | 0 <= k < |states| && !states[k].IsNode()
      ensures states[k].Id() in m.ViewOf(states)
    {
      var id := states[k].Id();
      assert id in Ids(states);
      assert Has(states, id);
    }
  }

  /** A transaction changes a REFERENCE property that pointed at virtual
      node 7 so that it points nowhere. Read through the log, the "prior"
      state is the new one and node 7 keeps the stale reference; read from the
      shared store, the reference is dropped. */
  lemma StaleVirtualReference()
    ensures var p := PropertyId(1, "ref");
            var before := PropertyState(1, "ref", PropertyTypes.Reference, [UuidValue(7)]);
            var after := PropertyState(1, "ref", PropertyTypes.Reference, []);
            var log := Log([], [after], [], map[]);
            var store := map[p := before];
            var virtualItems := map[NodeId(7) := NodeState(7)];
            var refs := map[7 := multiset{p}];
            && Overlay(log, store, p) == Found(after)
            && 7 in ApplyDeltas(refs, virtualItems, ChangeDeltas(log, map[p := after]))
            && ApplyDeltas(refs, virtualItems, ChangeDeltas(log, map[p := after]))[7] == multiset{p}
            && 7 in ApplyDeltas(refs, virtualItems, ChangeDeltas(log, store))
            && ApplyDeltas(refs, virtualItems, ChangeDeltas(log, store))[7] == multiset{}
  {
    var p := PropertyId(1, "ref");
    var before := PropertyState(1, "ref", PropertyTypes.Reference, [UuidValue(7)]);
    var after := PropertyState(1, "ref", PropertyTypes.Reference, []);
    var log := Log([], [after], [], map[]);
    var store := map[p := before];
    var virtualItems := map[NodeId(7) := NodeState(7)];
    var refs := map[7 := multiset{p}];
    var olds := map[p := after];
    assert [after][..0] == [];
    assert ReferenceTargets(after) == [];
    assert ReferenceTargets(before) == [7];
    assert AddedDeltas([]) == [] && DeletedDeltas([]) == [];
    assert RemoveDeltas(after) == [] && AddDeltas(after) == [];
    assert ModifiedDeltas([after], olds) == ModifiedDeltas([], olds) + (RemoveDeltas(after) + AddDeltas(after));
    assert ChangeDeltas(log, olds) == [];
    assert RemoveDeltas(before) == [RemoveRef(p, 7)];
    assert ModifiedDeltas([after], store) == ModifiedDeltas([], store) + (RemoveDeltas(before) + AddDeltas(after));
    assert ChangeDeltas(log, store) == [RemoveRef(p, 7)];
    assert ApplyDeltas(refs, virtualItems, [RemoveRef(p, 7)]) ==
      ApplyDeltas(ApplyDelta(refs, virtualItems, RemoveRef(p, 7)), virtualItems, []);
    assert ApplyDeltas(refs, virtualItems, ChangeDeltas(log, olds)) == refs;
  }
}
