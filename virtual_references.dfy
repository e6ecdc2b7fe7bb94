/** Reference bookkeeping for virtual nodes: the deltas a change log implies
    for the NodeReferences records of the targets of REFERENCE properties, and
    how one delta lands on the virtual provider's records
    (XAItemStateManager.updateVirtualReferences, addVirtualReference and
    removeVirtualReference). */
module VirtualReferences {
  import opened Wrappers
  import opened ItemStates
  import opened ChangeLogs

  /** One addVirtualReference or removeVirtualReference call. */
  datatype RefDelta = AddRef(source: ItemId, target: Uuid) | RemoveRef(source: ItemId, target: Uuid)

  /** How often `p` occurs in the record of `t`; 0 when there is no record. */
  function Count(refs: RefRecords, t: Uuid, p: ItemId): nat {
    if t in refs then refs[t][p] else 0
  }

  /** A delta lands on the record of its target when that record exists or the
      target is a virtual node (a fresh empty record is created and written
      back); otherwise it is ignored. */
  function ApplyDelta(refs: RefRecords, virtualItems: map<ItemId, ItemState>, d: RefDelta): (r: RefRecords)
    ensures r.Keys == if d.target in refs || NodeId(d.target) in virtualItems then refs.Keys + {d.target} else refs.Keys
  {
    var record :=
      if d.target in refs then Some(refs[d.target])
      else if NodeId(d.target) in virtualItems then Some(multiset{})
      else None;
    match record
    case None => refs
    case Some(m) =>
      refs[d.target := if d.AddRef? then m + multiset{d.source} else m - multiset{d.source}]
  }

  /** One delta moves the count of its source in its target's record by one,
      when the target can receive it, and no other count. */
  lemma ApplyDeltaCount(refs: RefRecords, virtualItems: map<ItemId, ItemState>, d: RefDelta, t: Uuid, q: ItemId)
    ensures Count(ApplyDelta(refs, virtualItems, d), t, q) ==
      if t != d.target || q != d.source || !(d.target in refs || NodeId(d.target) in virtualItems) then Count(refs, t, q)
      else if d.AddRef? then Count(refs, t, q) + 1
      else if Count(refs, t, q) == 0 then 0
      else Count(refs, t, q) - 1
  {
  }

  /** The reference definition of the walk's effect: the deltas applied one
      after the other. The walk methods are proved equal to it. */
  function ApplyDeltas(refs: RefRecords, virtualItems: map<ItemId, ItemState>, ds: seq<RefDelta>): RefRecords
    decreases |ds|
  {
    if ds == [] then refs else ApplyDeltas(ApplyDelta(refs, virtualItems, ds[0]), virtualItems, ds[1..])
  }

  lemma {:induction false} ApplyDeltasAppend(refs: RefRecords, virtualItems: map<ItemId, ItemState>, a: seq<RefDelta>, b: seq<RefDelta>)
    ensures ApplyDeltas(refs, virtualItems, a + b) == ApplyDeltas(ApplyDeltas(refs, virtualItems, a), virtualItems, b)
    decreases |a|
  {
    if a == [] {
      assert a + b == b;
    } else {
      assert (a + b)[0] == a[0];
      assert (a + b)[1..] == a[1..] + b;
      assert ApplyDeltas(refs, virtualItems, a + b) ==
        ApplyDeltas(ApplyDelta(refs, virtualItems, a[0]), virtualItems, a[1..] + b);
      ApplyDeltasAppend(ApplyDelta(refs, virtualItems, a[0]), virtualItems, a[1..], b);
    }
  }

  /** One more delta lands on the records the earlier ones left. */
  lemma ApplyDeltasSnoc(refs: RefRecords, virtualItems: map<ItemId, ItemState>, ds: seq<RefDelta>, d: RefDelta)
    ensures ApplyDeltas(refs, virtualItems, ds + [d]) == ApplyDelta(ApplyDeltas(refs, virtualItems, ds), virtualItems, d)
  {
    ApplyDeltasAppend(refs, virtualItems, ds, [d]);
    assert [d][1..] == [];
  }

  //---------------------------------------------------------------------------
  // The deltas of a change log

  function Adds(source: ItemId, ts: seq<Uuid>): (ds: seq<RefDelta>)
    ensures |ds| == |ts| && forall k :: 0 <= k < |ts| ==> ds[k] == AddRef(source, ts[k])
  {
    seq(|ts|, k requires 0 <= k < |ts| => AddRef(source, ts[k]))
  }

  function Removes(source: ItemId, ts: seq<Uuid>): (ds: seq<RefDelta>)
    ensures |ds| == |ts| && forall k :: 0 <= k < |ts| ==> ds[k] == RemoveRef(source, ts[k])
  {
    seq(|ts|, k requires 0 <= k < |ts| => RemoveRef(source, ts[k]))
  }

  /** The references one state holds, as additions. */
  function AddDeltas(s: ItemState): seq<RefDelta>
    requires s.WellFormed()
  {
    Adds(s.Id(), ReferenceTargets(s))
  }

  /** The references one state holds, as removals. */
  function RemoveDeltas(s: ItemState): seq<RefDelta>
    requires s.WellFormed()
  {
    Removes(s.Id(), ReferenceTargets(s))
  }

  /** Additions for the added states, in order. */
  function AddedDeltas(states: seq<ItemState>): seq<RefDelta>
    requires forall k :: 0 <= k < |states| ==> states[k].WellFormed()
  {
    if states == [] then []
    else AddedDeltas(states[..|states| - 1]) + AddDeltas(states[|states| - 1])
  }

  /** Every modified property has a prior state in `olds`. */
  predicate OldStatesKnown(states: seq<ItemState>, olds: map<ItemId, ItemState>) {
    forall k :: 0 <= k < |states| && !states[k].IsNode() ==> states[k].Id() in olds
  }

  /** For each modified property, in order: the prior value's references are
      removed, then the new value's are added. */
  function ModifiedDeltas(states: seq<ItemState>, olds: map<ItemId, ItemState>): seq<RefDelta>
    requires forall k :: 0 <= k < |states| ==> states[k].WellFormed()
    requires WellKeyed(olds) && OldStatesKnown(states, olds)
  {
    if states == [] then []
    else
      var s := states[|states| - 1];
      ModifiedDeltas(states[..|states| - 1], olds) +
        (if s.IsNode() then [] else RemoveDeltas(olds[s.Id()]) + AddDeltas(s))
  }

  /** Removals for the deleted states, in order. */
  function DeletedDeltas(states: seq<ItemState>): seq<RefDelta>
    requires forall k :: 0 <= k < |states| ==> states[k].WellFormed()
  {
    if states == [] then []
    else DeletedDeltas(states[..|states| - 1]) + RemoveDeltas(states[|states| - 1])
  }

  /** All deltas of a log: added, then modified, then deleted states. */
  /** The deltas one more modified state contributes. */
  lemma ModifiedDeltasSnoc(states: seq<ItemState>, j: nat, olds: map<ItemId, ItemState>)
    requires j < |states| && forall k :: 0 <= k < |states| ==> states[k].WellFormed()
    requires WellKeyed(olds) && OldStatesKnown(states[..j], olds)
    requires !states[j].IsNode() ==> states[j].Id() in olds
    ensures OldStatesKnown(states[..j + 1], olds)
    ensures AllWellFormed(states[..j + 1])
    ensures ModifiedDeltas(states[..j + 1], olds) ==
              ModifiedDeltas(states[..j], olds) +
              (if states[j].IsNode() then [] else RemoveDeltas(olds[states[j].Id()]) + AddDeltas(states[j]))
  {
    assert states[..j + 1][..j] == states[..j];
    assert states[..j + 1][j] == states[j];
  }

  /** The reference definition of what updateVirtualReferences does: the
      deltas of the added, then the modified, then the deleted states. */
  function ChangeDeltas(changes: Log, olds: map<ItemId, ItemState>): seq<RefDelta>
    requires WellFormed(changes) && WellKeyed(olds) && OldStatesKnown(changes.modified, olds)
  {
    AddedDeltas(changes.added) + ModifiedDeltas(changes.modified, olds) + DeletedDeltas(changes.deleted)
  }

  //---------------------------------------------------------------------------
  // What the deltas do

  /** Only REFERENCE properties produce deltas. */
  predicate NoReferences(states: seq<ItemState>) {
    forall k :: 0 <= k < |states| ==> !states[k].IsReference()
  }

  lemma {:induction false} NoReferencesNoDeltas(changes: Log, olds: map<ItemId, ItemState>)
    requires WellFormed(changes) && WellKeyed(olds) && OldStatesKnown(changes.modified, olds)
    requires NoReferences(changes.added) && NoReferences(changes.modified) && NoReferences(changes.deleted)
    requires forall id :: id in olds ==> !olds[id].IsReference()
    ensures ChangeDeltas(changes, olds) == []
  {
    NoReferencesNoAdded(changes.added);
    NoReferencesNoModified(changes.modified, olds);
    NoReferencesNoDeleted(changes.deleted);
  }

  lemma {:induction false} NoReferencesNoAdded(states: seq<ItemState>)
    requires forall k :: 0 <= k < |states| ==> states[k].WellFormed()
    requires NoReferences(states)
    ensures AddedDeltas(states) == []
    decreases |states|
  {
    if states != [] {
      NoReferencesNoAdded(states[..|states| - 1]);
    }
  }

  lemma {:induction false} NoReferencesNoModified(states: seq<ItemState>, olds: map<ItemId, ItemState>)
    requires forall k :: 0 <= k < |states| ==> states[k].WellFormed()
    requires WellKeyed(olds) && OldStatesKnown(states, olds)
    requires NoReferences(states) && forall id :: id in olds ==> !olds[id].IsReference()
    ensures ModifiedDeltas(states, olds) == []
    decreases |states|
  {
    if states != [] {
      NoReferencesNoModified(states[..|states| - 1], olds);
    }
  }

  lemma {:induction false} NoReferencesNoDeleted(states: seq<ItemState>)
    requires forall k :: 0 <= k < |states| ==> states[k].WellFormed()
    requires NoReferences(states)
    ensures DeletedDeltas(states) == []
    decreases |states|
  {
    if states != [] {
      NoReferencesNoDeleted(states[..|states| - 1]);
    }
  }

  /** How many times `t` occurs in `ts`. */
  function Occurrences(ts: seq<Uuid>, t: Uuid): nat {
    if ts == [] then 0 else (if ts[0] == t then 1 else 0) + Occurrences(ts[1..], t)
  }

  /** A delta's target can receive it: it has a record or is a virtual node. */
  predicate Eligible(refs: RefRecords, virtualItems: map<ItemId, ItemState>, ts: seq<Uuid>) {
    forall k :: 0 <= k < |ts| ==> ts[k] in refs || NodeId(ts[k]) in virtualItems
  }

  /** The distinct targets in `ts`. */
  function Elements(ts: seq<Uuid>): set<Uuid> {
    if ts == [] then {} else {ts[0]} + Elements(ts[1..])
  }

  lemma {:induction false} EligibleTail(refs: RefRecords, refs1: RefRecords, virtualItems: map<ItemId, ItemState>, ts: seq<Uuid>)
    requires ts != [] && Eligible(refs, virtualItems, ts) && refs.Keys <= refs1.Keys
    ensures Eligible(refs1, virtualItems, ts[1..])
  {
    forall k | 0 <= k < |ts[1..]| ensures ts[1..][k] in refs1 || NodeId(ts[1..][k]) in virtualItems {
      assert ts[1..][k] == ts[k + 1];
    }
  }

  /** The targets of a run of deltas. */
  function Targets(ds: seq<RefDelta>): set<Uuid> {
    if ds == [] then {} else {ds[0].target} + Targets(ds[1..])
  }

  /** Applying a run of deltas whose targets can all receive them leaves a
      record for each target and drops none. */
  lemma {:induction false} DeltasKeys(refs: RefRecords, virtualItems: map<ItemId, ItemState>, ds: seq<RefDelta>)
    requires forall k :: 0 <= k < |ds| ==> ds[k].target in refs || NodeId(ds[k].target) in virtualItems
    ensures ApplyDeltas(refs, virtualItems, ds).Keys == refs.Keys + Targets(ds)
    decreases |ds|
  {
    if ds != [] {
      var refs1 := ApplyDelta(refs, virtualItems, ds[0]);
      assert refs1.Keys == refs.Keys + {ds[0].target};
      assert forall k :: 0 <= k < |ds[1..]| ==> ds[1..][k] == ds[k + 1];
      DeltasKeys(refs1, virtualItems, ds[1..]);
    }
  }

  lemma {:induction false} AddsTargets(p: ItemId, ts: seq<Uuid>)
    ensures Targets(Adds(p, ts)) == Elements(ts)
    decreases |ts|
  {
    if ts != [] {
      assert Adds(p, ts)[1..] == Adds(p, ts[1..]);
      AddsTargets(p, ts[1..]);
    }
  }

  lemma {:induction false} RemovesTargets(p: ItemId, ts: seq<Uuid>)
    ensures Targets(Removes(p, ts)) == Elements(ts)
    decreases |ts|
  {
    if ts != [] {
      assert Removes(p, ts)[1..] == Removes(p, ts[1..]);
      RemovesTargets(p, ts[1..]);
    }
  }

  /** Applying one addition per target of `ts` leaves a record for each of
      them and drops none. */
  lemma AddsKeys(refs: RefRecords, virtualItems: map<ItemId, ItemState>, p: ItemId, ts: seq<Uuid>)
    requires Eligible(refs, virtualItems, ts)
    ensures ApplyDeltas(refs, virtualItems, Adds(p, ts)).Keys == refs.Keys + Elements(ts)
  {
    DeltasKeys(refs, virtualItems, Adds(p, ts));
    AddsTargets(p, ts);
  }

  /** The same for removals. */
  lemma RemovesKeys(refs: RefRecords, virtualItems: map<ItemId, ItemState>, p: ItemId, ts: seq<Uuid>)
    requires Eligible(refs, virtualItems, ts)
    ensures ApplyDeltas(refs, virtualItems, Removes(p, ts)).Keys == refs.Keys + Elements(ts)
  {
    DeltasKeys(refs, virtualItems, Removes(p, ts));
    RemovesTargets(p, ts);
  }

  /** Adding `p` for every target in `ts` raises each eligible target's count
      of `p` by the number of times it occurs in `ts`, and no other count. */
  lemma {:induction false} AddsCount(refs: RefRecords, virtualItems: map<ItemId, ItemState>, p: ItemId, ts: seq<Uuid>, t: Uuid, q: ItemId)
    requires Eligible(refs, virtualItems, ts)
    ensures Count(ApplyDeltas(refs, virtualItems, Adds(p, ts)), t, q) ==
      Count(refs, t, q) + (if q == p then Occurrences(ts, t) else 0)
    decreases |ts|
  {
    if ts != [] {
      var refs1 := ApplyDelta(refs, virtualItems, AddRef(p, ts[0]));
      assert Adds(p, ts)[1..] == Adds(p, ts[1..]);
      EligibleTail(refs, refs1, virtualItems, ts);
      AddsCount(refs1, virtualItems, p, ts[1..], t, q);
      ApplyDeltaCount(refs, virtualItems, AddRef(p, ts[0]), t, q);
    }
  }

  /** Removing `p` for every target in `ts` lowers each eligible target's count
      of `p` by the number of times it occurs in `ts`, never below zero. */
  lemma {:induction false} RemovesCount(refs: RefRecords, virtualItems: map<ItemId, ItemState>, p: ItemId, ts: seq<Uuid>, t: Uuid, q: ItemId)
    requires Eligible(refs, virtualItems, ts)
    ensures Count(ApplyDeltas(refs, virtualItems, Removes(p, ts)), t, q) ==
      if q != p then Count(refs, t, q)
      else if Count(refs, t, q) <= Occurrences(ts, t) then 0
      else Count(refs, t, q) - Occurrences(ts, t)
    decreases |ts|
  {
    if ts != [] {
      var refs1 := ApplyDelta(refs, virtualItems, RemoveRef(p, ts[0]));
      assert Removes(p, ts)[1..] == Removes(p, ts[1..]);
      EligibleTail(refs, refs1, virtualItems, ts);
      RemovesCount(refs1, virtualItems, p, ts[1..], t, q);
      ApplyDeltaCount(refs, virtualItems, RemoveRef(p, ts[0]), t, q);
    }
  }

  /** Two record maps with the same keys and the same counts are equal. */
  lemma SameCountsSameRecords(a: RefRecords, b: RefRecords)
    requires a.Keys == b.Keys
    requires forall t, q :: Count(a, t, q) == Count(b, t, q)
    ensures a == b
  {
    forall t | t in a ensures a[t] == b[t] {
      forall q ensures a[t][q] == b[t][q] {
        assert Count(a, t, q) == Count(b, t, q);
      }
    }
  }

  lemma {:induction false} ElementsInKeys(refs: RefRecords, ts: seq<Uuid>)
    requires forall k :: 0 <= k < |ts| ==> ts[k] in refs
    ensures Elements(ts) <= refs.Keys
    decreases |ts|
  {
    if ts != [] {
      assert forall k :: 0 <= k < |ts[1..]| ==> ts[1..][k] == ts[k + 1];
      ElementsInKeys(refs, ts[1..]);
    }
  }

  lemma AddThenRemoveCount(refs: RefRecords, virtualItems: map<ItemId, ItemState>, p: ItemId, ts: seq<Uuid>, t: Uuid, q: ItemId)
    requires Eligible(refs, virtualItems, ts)
    requires Eligible(ApplyDeltas(refs, virtualItems, Adds(p, ts)), virtualItems, ts)
    ensures Count(ApplyDeltas(ApplyDeltas(refs, virtualItems, Adds(p, ts)), virtualItems, Removes(p, ts)), t, q) == Count(refs, t, q)
  {
    AddsCount(refs, virtualItems, p, ts, t, q);
    RemovesCount(ApplyDeltas(refs, virtualItems, Adds(p, ts)), virtualItems, p, ts, t, q);
  }

  /** Deltas whose targets all have records add no record. */
  lemma RecordedKeysStable(refs: RefRecords, virtualItems: map<ItemId, ItemState>, p: ItemId, ts: seq<Uuid>)
    requires forall k :: 0 <= k < |ts| ==> ts[k] in refs
    ensures Eligible(refs, virtualItems, ts)
    ensures ApplyDeltas(refs, virtualItems, Adds(p, ts)).Keys == refs.Keys
    ensures ApplyDeltas(refs, virtualItems, Removes(p, ts)).Keys == refs.Keys
  {
    ElementsInKeys(refs, ts);
    AddsKeys(refs, virtualItems, p, ts);
    RemovesKeys(refs, virtualItems, p, ts);
  }

  /** Reference symmetry: when every target already has a record, adding a
      property's references and later removing the same references restores
      every record exactly. */
  lemma AddThenRemoveRestores(refs: RefRecords, virtualItems: map<ItemId, ItemState>, p: ItemId, ts: seq<Uuid>)
    requires forall k :: 0 <= k < |ts| ==> ts[k] in refs
    ensures ApplyDeltas(refs, virtualItems, Adds(p, ts) + Removes(p, ts)) == refs
  {
    var mid := ApplyDeltas(refs, virtualItems, Adds(p, ts));
    var last := ApplyDeltas(mid, virtualItems, Removes(p, ts));
    ApplyDeltasAppend(refs, virtualItems, Adds(p, ts), Removes(p, ts));
    RecordedKeysStable(refs, virtualItems, p, ts);
    RecordedKeysStable(mid, virtualItems, p, ts);
    forall t, q ensures Count(last, t, q) == Count(refs, t, q) {
      AddThenRemoveCount(refs, virtualItems, p, ts, t, q);
    }
    SameCountsSameRecords(last, refs);
  }

  /** A reference to a virtual node that has no record yet creates the record,
      and the record holds the referencing property. */
  lemma AddedReferenceRecorded(refs: RefRecords, virtualItems: map<ItemId, ItemState>, p: ItemId, ts: seq<Uuid>, k: nat)
    requires Eligible(refs, virtualItems, ts) && k < |ts|
    ensures ts[k] in ApplyDeltas(refs, virtualItems, Adds(p, ts))
    ensures p in ApplyDeltas(refs, virtualItems, Adds(p, ts))[ts[k]]
  {
    AddsCount(refs, virtualItems, p, ts, ts[k], p);
    OccurrencesPositive(ts, k);
    assert Count(ApplyDeltas(refs, virtualItems, Adds(p, ts)), ts[k], p) > 0;
  }

  lemma {:induction false} OccurrencesPositive(ts: seq<Uuid>, k: nat)
    requires k < |ts|
    ensures Occurrences(ts, ts[k]) > 0
    decreases k
  {
    if k > 0 {
      assert ts[1..][k - 1] == ts[k];
      OccurrencesPositive(ts[1..], k - 1);
    }
  }

  /** Keys only grow, so a target that could receive a delta still can. */
  lemma EligibleGrows(refs: RefRecords, refs1: RefRecords, virtualItems: map<ItemId, ItemState>, ts: seq<Uuid>)
    requires Eligible(refs, virtualItems, ts) && refs.Keys <= refs1.Keys
    ensures Eligible(refs1, virtualItems, ts)
  {
  }

  /** What reference bookkeeping is for: when a target's record held the
      modified property as often as its prior value referenced the target,
      afterwards it holds the property as often as the new value references
      the target. */
  lemma ModifiedRecordFollowsNewValue(refs: RefRecords, virtualItems: map<ItemId, ItemState>, s: ItemState, o: ItemState, t: Uuid)
    requires s.WellFormed() && !s.IsNode() && o.WellFormed() && o.Id() == s.Id()
    requires Eligible(refs, virtualItems, ReferenceTargets(o)) && Eligible(refs, virtualItems, ReferenceTargets(s))
    requires Count(refs, t, s.Id()) == Occurrences(ReferenceTargets(o), t)
    ensures WellKeyed(map[s.Id() := o])
    ensures Count(ApplyDeltas(refs, virtualItems, ModifiedDeltas([s], map[s.Id() := o])), t, s.Id()) ==
      Occurrences(ReferenceTargets(s), t)
  {
    var p := s.Id();
    var olds := map[p := o];
    assert [s][..0] == [];
    assert ModifiedDeltas([s], olds) == RemoveDeltas(o) + AddDeltas(s);
    var mid := ApplyDeltas(refs, virtualItems, RemoveDeltas(o));
    ApplyDeltasAppend(refs, virtualItems, RemoveDeltas(o), AddDeltas(s));
    RemovesCount(refs, virtualItems, p, ReferenceTargets(o), t, p);
    RemovesKeys(refs, virtualItems, p, ReferenceTargets(o));
    EligibleGrows(refs, mid, virtualItems, ReferenceTargets(s));
    AddsCount(mid, virtualItems, p, ReferenceTargets(s), t, p);
  }

  //---------------------------------------------------------------------------

  /** The optional provider of virtual items: its items are fixed, its
      NodeReferences records are written back through setNodeReferences. */
  class VirtualProvider {
    const items: map<ItemId, ItemState>
    var references: RefRecords

    constructor (items: map<ItemId, ItemState>, references: RefRecords)
      ensures this.items == items && this.references == references
    {
      this.items := items;
      this.references := references;
    }

    predicate HasItemState(id: ItemId) {
      id in items
    }

    predicate HasNodeReferences(target: Uuid)
      reads this
    {
      target in references
    }

    function GetNodeReferences(target: Uuid): (r: Option<multiset<ItemId>>)
      reads this
      ensures r.Some? <==> HasNodeReferences(target)
      ensures r.Some? ==> r.value == references[target]
    {
      if target in references then Some(references[target]) else None
    }

    method SetNodeReferences(target: Uuid, sources: multiset<ItemId>)
      modifies this
      ensures references == old(references)[target := sources]
    {
      references := references[target := sources];
    }
  }
}
