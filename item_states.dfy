/** Items of the content graph as the state managers see them: ids, node and
    property states, and the answer of a lookup. */
module ItemStates {
  import opened PropertyTypes

  /** The UUID of a node. */
  type Uuid = nat

  /** NodeId carries the node's UUID; PropertyId the parent node's UUID and the
      property's name. */
  datatype ItemId = NodeId(uuid: Uuid) | PropertyId(parent: Uuid, name: string)

  /** An internal value. A REFERENCE property holds UUIDs; the payload of any
      other value is irrelevant to this model and kept as text. */
  datatype InternalValue = UuidValue(uuid: Uuid) | OtherValue(text: string)

  datatype ItemState =
    | NodeState(uuid: Uuid)
    | PropertyState(parent: Uuid, name: string, ptype: PropertyType, values: seq<InternalValue>)
  {
    function Id(): ItemId {
      match this
      case NodeState(u) => NodeId(u)
      case PropertyState(p, n, _, _) => PropertyId(p, n)
    }

    predicate IsNode() { NodeState? }

    /** A property of type REFERENCE. */
    predicate IsReference() { PropertyState? && ptype == Reference }

    /** What the repository guarantees of every stored state: the values of a
        REFERENCE property are UUIDs (the cast in the source never fails). */
    predicate WellFormed() {
      IsReference() ==> forall k :: 0 <= k < |values| ==> values[k].UuidValue?
    }
  }

  /** The targets a state references: the UUIDs of a REFERENCE property, in
      value order, and nothing for any other state. */
  function ReferenceTargets(s: ItemState): (ts: seq<Uuid>)
    requires s.WellFormed()
    ensures s.IsReference() ==>
              |ts| == |s.values| && forall k :: 0 <= k < |ts| ==> s.values[k] == UuidValue(ts[k])
    ensures !s.IsReference() ==> ts == []
  {
    if s.IsReference() then seq(|s.values|, k requires 0 <= k < |s.values| => s.values[k].uuid)
    else []
  }

  /** A store of states keyed by id, every state under its own id. */
  predicate WellKeyed(m: map<ItemId, ItemState>) {
    forall id :: id in m ==> m[id].Id() == id && m[id].WellFormed()
  }

  /** NodeReferences records keyed by their target node's UUID: each record is
      the multiset of the ids of the properties that reference the target (the
      source keeps a list, adding to its end and removing one occurrence; the
      order is not modelled). */
  type RefRecords = map<Uuid, multiset<ItemId>>

  /** The answer of getItemState: a state, or NoSuchItemStateException. */
  datatype ItemLookup = Found(state: ItemState) | NoSuchItem

  function LookupIn(m: map<ItemId, ItemState>, id: ItemId): (r: ItemLookup)
    ensures r.Found? <==> id in m
  {
    if id in m then Found(m[id]) else NoSuchItem
  }
}
