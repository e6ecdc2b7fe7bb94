/** The change log a state manager stages its writes in: added, modified and
    deleted states, each list in insertion order (the source keeps them in
    linked maps), plus the reference records the log has touched.

    The ChangeLog class itself is not part of this model. Its bookkeeping is
    taken to be: an id sits in at most one of the three lists; a modification
    of an id the log added stays an addition; a deletion of an id the log
    added cancels the addition instead of recording a deletion; a merge
    replays the other log's additions, modifications and deletions in that
    order; undo and reset leave the log empty. */
module ChangeLogs {
  import opened Wrappers
  import opened ItemStates

  datatype Log = Log(added: seq<ItemState>, modified: seq<ItemState>, deleted: seq<ItemState>, refs: RefRecords)

  const EmptyLog := Log([], [], [], map[])

  //---------------------------------------------------------------------------
  // One list of states, keyed by id like the linked map it stands for

  /** The state stored under `id`, if any. */
  function Find(s: seq<ItemState>, id: ItemId): (r: Option<ItemState>)
    ensures r.Some? ==> r.value in s && r.value.Id() == id
    ensures r.None? ==> forall k :: 0 <= k < |s| ==> s[k].Id() != id
  {
    if s == [] then None
    else if s[0].Id() == id then Some(s[0])
    else Find(s[1..], id)
  }

  predicate Has(s: seq<ItemState>, id: ItemId) {
    Find(s, id).Some?
  }

  /** No id occurs twice. */
  predicate Unique(s: seq<ItemState>) {
    s == [] || (!Has(s[1..], s[0].Id()) && Unique(s[1..]))
  }

  /** Linked-map put: a state whose id is present replaces the old one in
      place, a new id goes to the end. */
  function Put(s: seq<ItemState>, st: ItemState): (r: seq<ItemState>)
    ensures forall id :: Find(r, id) == if id == st.Id() then Some(st) else Find(s, id)
    ensures Unique(s) ==> Unique(r)
    ensures forall k :: 0 <= k < |r| ==> r[k] == st || r[k] in s
  {
    if s == [] then [st]
    else if s[0].Id() == st.Id() then [st] + s[1..]
    else
      var rest := Put(s[1..], st);
      assert Find([s[0]] + rest, s[0].Id()) == Some(s[0]);
      assert forall id :: id != s[0].Id() ==> Find([s[0]] + rest, id) == Find(rest, id);
      [s[0]] + rest
  }

  /** Linked-map remove. */
  function Without(s: seq<ItemState>, x: ItemId): (r: seq<ItemState>)
    ensures forall id :: Find(r, id) == if id == x then None else Find(s, id)
    ensures Unique(s) ==> Unique(r)
    ensures forall k :: 0 <= k < |r| ==> r[k] in s
  {
    if s == [] then []
    else if s[0].Id() == x then Without(s[1..], x)
    else
      var rest := Without(s[1..], x);
      assert forall id :: id != s[0].Id() ==> Find([s[0]] + rest, id) == Find(rest, id);
      [s[0]] + rest
  }

  //---------------------------------------------------------------------------
  // Reading a log

  /** What a log says about an id: a staged state, a deletion (the source's
      ChangeLog.get throws NoSuchItemStateException), or nothing. */
  datatype Staging = Staged(state: ItemState) | Deleted | NotStaged

  /** ChangeLog.get: added states first, then modified ones, then deletions. */
  function Get(log: Log, id: ItemId): (r: Staging)
    ensures r.Staged? ==> r.state.Id() == id && (r.state in log.added || r.state in log.modified)
    ensures r.Staged? <==> Has(log.added, id) || Has(log.modified, id)
    ensures r.Deleted? <==> !Has(log.added, id) && !Has(log.modified, id) && Has(log.deleted, id)
  {
    match Find(log.added, id)
    case Some(s) => Staged(s)
    case None =>
      match Find(log.modified, id)
      case Some(s) => Staged(s)
      case None => if Has(log.deleted, id) then Deleted else NotStaged
  }

  /** ChangeLog.get for a reference record. */
  function GetRefs(log: Log, target: Uuid): (r: Option<multiset<ItemId>>)
    ensures r.Some? <==> target in log.refs
    ensures r.Some? ==> r.value == log.refs[target]
  {
    if target in log.refs then Some(log.refs[target]) else None
  }

  predicate AllWellFormed(s: seq<ItemState>) {
    forall k :: 0 <= k < |s| ==> s[k].WellFormed()
  }

  /** Every state the log stages is well formed. */
  predicate WellFormed(log: Log) {
    AllWellFormed(log.added) && AllWellFormed(log.modified) && AllWellFormed(log.deleted)
  }

  /** The log's own invariant: each list is keyed, and an id sits in at most
      one of added, modified and deleted. */
  ghost predicate Valid(log: Log) {
    && Unique(log.added) && Unique(log.modified) && Unique(log.deleted)
    && (forall id :: Has(log.added, id) ==> !Has(log.modified, id) && !Has(log.deleted, id))
    && (forall id :: Has(log.modified, id) ==> !Has(log.deleted, id))
  }

  //---------------------------------------------------------------------------
  // Recording operations

  /** ChangeLog.added: the state is staged as new. */
  function RecordAdded(log: Log, st: ItemState): (r: Log)
    ensures Valid(log) ==> Valid(r)
    ensures WellFormed(log) && st.WellFormed() ==> WellFormed(r)
    ensures Get(r, st.Id()) == Staged(st)
    ensures forall id :: id != st.Id() ==> Get(r, id) == Get(log, id)
    ensures forall id :: Has(r.added, id) <==> Has(log.added, id) || id == st.Id()
    ensures r.refs == log.refs
  {
    var r := log.(added := Put(log.added, st),
                  modified := Without(log.modified, st.Id()),
                  deleted := Without(log.deleted, st.Id()));
    assert forall id :: Has(r.added, id) <==> Has(log.added, id) || id == st.Id();
    assert forall id :: Has(r.modified, id) <==> Has(log.modified, id) && id != st.Id();
    assert forall id :: Has(r.deleted, id) <==> Has(log.deleted, id) && id != st.Id();
    r
  }

  /** ChangeLog.modified: a state the log added stays an addition, with its new
      value; any other is staged as modified. */
  function RecordModified(log: Log, st: ItemState): (r: Log)
    ensures Valid(log) ==> Valid(r)
    ensures WellFormed(log) && st.WellFormed() ==> WellFormed(r)
    ensures Get(r, st.Id()) == Staged(st)
    ensures forall id :: id != st.Id() ==> Get(r, id) == Get(log, id)
    ensures forall id :: Has(r.added, id) <==> Has(log.added, id)
    ensures r.refs == log.refs
  {
    if Has(log.added, st.Id()) then log.(added := Put(log.added, st))
    else
      var r := log.(modified := Put(log.modified, st), deleted := Without(log.deleted, st.Id()));
      assert forall id :: Has(r.modified, id) <==> Has(log.modified, id) || id == st.Id();
      assert forall id :: Has(r.deleted, id) <==> Has(log.deleted, id) && id != st.Id();
      r
  }

  /** ChangeLog.deleted: deleting what the log added cancels the addition;
      anything else is staged as deleted. */
  function RecordDeleted(log: Log, st: ItemState): (r: Log)
    ensures Valid(log) ==> Valid(r)
    ensures WellFormed(log) && st.WellFormed() ==> WellFormed(r)
    ensures Valid(log) ==> Get(r, st.Id()) == if Has(log.added, st.Id()) then NotStaged else Deleted
    ensures forall id :: id != st.Id() ==> Get(r, id) == Get(log, id)
    ensures forall id :: Has(r.added, id) <==> Has(log.added, id) && id != st.Id()
    ensures r.refs == log.refs
  {
    if Has(log.added, st.Id()) then log.(added := Without(log.added, st.Id()))
    else
      var r := log.(modified := Without(log.modified, st.Id()), deleted := Put(log.deleted, st));
      assert forall id :: Has(r.modified, id) <==> Has(log.modified, id) && id != st.Id();
      assert forall id :: Has(r.deleted, id) <==> Has(log.deleted, id) || id == st.Id();
      r
  }

  //---------------------------------------------------------------------------
  // Merging

  function AddAll(log: Log, s: seq<ItemState>): (r: Log)
    ensures Valid(log) ==> Valid(r)
    ensures WellFormed(log) && AllWellFormed(s) ==> WellFormed(r)
    ensures Unique(s) ==> forall id ::
      Get(r, id) == if Has(s, id) then Staged(Find(s, id).value) else Get(log, id)
    ensures forall id :: Has(r.added, id) <==> Has(log.added, id) || Has(s, id)
    ensures r.refs == log.refs
    decreases |s|
  {
    if s == [] then log
    else
      assert forall id :: Has(s, id) <==> id == s[0].Id() || Has(s[1..], id);
      AddAll(RecordAdded(log, s[0]), s[1..])
  }

  function ModifyAll(log: Log, s: seq<ItemState>): (r: Log)
    ensures Valid(log) ==> Valid(r)
    ensures WellFormed(log) && AllWellFormed(s) ==> WellFormed(r)
    ensures Unique(s) ==> forall id ::
      Get(r, id) == if Has(s, id) then Staged(Find(s, id).value) else Get(log, id)
    ensures forall id :: Has(r.added, id) <==> Has(log.added, id)
    ensures r.refs == log.refs
    decreases |s|
  {
    if s == [] then log
    else
      assert forall id :: Has(s, id) <==> id == s[0].Id() || Has(s[1..], id);
      ModifyAll(RecordModified(log, s[0]), s[1..])
  }

  function DeleteAll(log: Log, s: seq<ItemState>): (r: Log)
    ensures Valid(log) ==> Valid(r)
    ensures WellFormed(log) && AllWellFormed(s) ==> WellFormed(r)
    ensures Valid(log) && Unique(s) ==> forall id ::
      Get(r, id) == if !Has(s, id) then Get(log, id)
                    else if Has(log.added, id) then NotStaged
                    else Deleted
    ensures r.refs == log.refs
    decreases |s|
  {
    if s == [] then log
    else
      assert forall id :: Has(s, id) <==> id == s[0].Id() || Has(s[1..], id);
      DeleteAll(RecordDeleted(log, s[0]), s[1..])
  }

  /** ChangeLog.merge: folds the other log's additions, then its
      modifications, then its deletions into this one; the other log's
      reference records replace this one's. */
  function MergeLogs(log: Log, other: Log): (r: Log)
    ensures WellFormed(log) && WellFormed(other) ==> WellFormed(r)
    ensures r.refs == log.refs + other.refs
  {
    var r := DeleteAll(ModifyAll(AddAll(log, other.added), other.modified), other.deleted);
    r.(refs := log.refs + other.refs)
  }

  /** What merging does to every id: the other log's verdict wins, except that
      its deletion of an id this log added leaves the id unstaged. */
  lemma GetMerge(log: Log, other: Log, id: ItemId, target: Uuid)
    requires Valid(log) && Valid(other)
    ensures Valid(MergeLogs(log, other))
    ensures Get(MergeLogs(log, other), id) ==
      match Get(other, id)
      case Staged(s) => Staged(s)
      case Deleted => if Has(log.added, id) then NotStaged else Deleted
      case NotStaged => Get(log, id)
    ensures GetRefs(MergeLogs(log, other), target) ==
      if target in other.refs then GetRefs(other, target) else GetRefs(log, target)
  {
    var a := AddAll(log, other.added);
    var m := ModifyAll(a, other.modified);
    var d := DeleteAll(m, other.deleted);
    assert Get(MergeLogs(log, other), id) == Get(d, id);
    if Has(other.deleted, id) {
      assert !Has(other.added, id) && !Has(other.modified, id);
      assert Has(m.added, id) == Has(log.added, id);
    }
  }

  /** An addition followed, in a later merged log, by a deletion of the same
      id leaves no trace of the id in any of the three lists. */
  lemma MergeCancelsAddThenDelete(log: Log, other: Log, x: ItemId)
    requires Valid(log) && Valid(other)
    requires Has(log.added, x) && Get(other, x) == Deleted
    ensures var r := MergeLogs(log, other);
      !Has(r.added, x) && !Has(r.modified, x) && !Has(r.deleted, x)
  {
    GetMerge(log, other, x, 0);
  }

  //---------------------------------------------------------------------------
  // A log over a store

  /** The state an id has in the view of a log laid over a store: staged
      states shadow the store and staged deletions hide it. */
  function Overlay(log: Log, base: map<ItemId, ItemState>, id: ItemId): ItemLookup {
    match Get(log, id)
    case Staged(s) => Found(s)
    case Deleted => NoSuchItem
    case NotStaged => LookupIn(base, id)
  }

  /** A run of states written into a store one after the other, each under
      its own id; a later write of an id replaces an earlier one. */
  function Written(s: seq<ItemState>): (r: map<ItemId, ItemState>)
    ensures forall id :: id in r ==> r[id].Id() == id && r[id] in s
  {
    if s == [] then map[] else map[s[0].Id() := s[0]] + Written(s[1..])
  }

  /** In a keyed list the written store holds exactly the listed ids, each
      with the state the list keeps for it. */
  lemma {:induction false} WrittenFind(s: seq<ItemState>, id: ItemId)
    requires Unique(s)
    ensures id in Written(s) <==> Has(s, id)
    ensures id in Written(s) ==> Written(s)[id] == Find(s, id).value
  {
    if s != [] {
      WrittenFind(s[1..], id);
    }
  }

  /** The store once the log has been applied to it: the deleted states are
      removed, then the modified and the added states are written. */
  function Applied(base: map<ItemId, ItemState>, log: Log): (r: map<ItemId, ItemState>)
    ensures WellKeyed(base) && WellFormed(log) ==> WellKeyed(r)
  {
    var kept := map id | id in base && !Has(log.deleted, id) :: base[id];
    var r := kept + Written(log.modified) + Written(log.added);
    assert WellKeyed(base) && WellFormed(log) ==> WellKeyed(r) by {
      if WellKeyed(base) && WellFormed(log) {
        forall id | id in r
          ensures r[id].Id() == id && r[id].WellFormed()
        {
          if id in Written(log.added) {
            var k :| 0 <= k < |log.added| && log.added[k] == r[id];
          } else if id in Written(log.modified) {
            var k :| 0 <= k < |log.modified| && log.modified[k] == r[id];
          }
        }
      }
    }
    r
  }

  /** For a valid log, the store after commit answers every id as reading
      through the log did before: read-your-writes agrees with commit. */
  lemma AppliedMatchesOverlay(base: map<ItemId, ItemState>, log: Log, id: ItemId)
    ensures Valid(log) ==> LookupIn(Applied(base, log), id) == Overlay(log, base, id)
  {
    if Valid(log) {
      WrittenFind(log.added, id);
      WrittenFind(log.modified, id);
    }
  }

  //---------------------------------------------------------------------------

  /** The mutable change log object; transactions and state managers share it
      by reference. */
  class ChangeLog {
    var contents: Log

    constructor ()
      ensures contents == EmptyLog
    {
      contents := EmptyLog;
    }

    method Merge(other: ChangeLog)
      modifies this
      ensures contents == MergeLogs(old(contents), old(other.contents))
    {
      contents := MergeLogs(contents, other.contents);
    }

    /** Forgets every staged change, after a successful commit. */
    method Reset()
      modifies this
      ensures contents == EmptyLog
    {
      contents := EmptyLog;
    }

    /** Discards every staged change, after a failure or a rollback. */
    method Undo()
      modifies this
      ensures contents == EmptyLog
    {
      contents := EmptyLog;
    }
  }
}
