/** The shared item state manager as the transactional layer sees it: a store
    of committed item states and NodeReferences records, and the two-phase
    update (beginUpdate, then end or cancel) that writes a change log into it.
    How the shared manager validates and locks is not modelled: the verdict of
    beginUpdate and the success of end are parameters. */
module SharedState {
  import opened Wrappers
  import opened ItemStates
  import opened ChangeLogs

  /** The checked exceptions an update of the shared store raises. */
  datatype StateFailure =
    | ReferentialIntegrity   // ReferentialIntegrityException
    | StaleItemState         // StaleItemStateException
    | NoSuchItemState        // NoSuchItemStateException
    | ItemStateFailure       // any other ItemStateException

  datatype UpdateStatus = Begun | Ended | Cancelled

  /** A started update: the change log it will write and where it stands. */
  class Update {
    const changes: Log
    var status: UpdateStatus

    constructor (changes: Log)
      ensures this.changes == changes && status == Begun
    {
      this.changes := changes;
      status := Begun;
    }
  }

  class SharedItemStateManager {
    var items: map<ItemId, ItemState>
    var references: RefRecords

    constructor (items: map<ItemId, ItemState>, references: RefRecords)
      requires WellKeyed(items)
      ensures this.items == items && this.references == references
      ensures Valid()
    {
      this.items := items;
      this.references := references;
    }

    /** Every committed state is filed under its own id. */
    predicate Valid()
      reads this
    {
      WellKeyed(items)
    }

    /** Starts an update of `changes`; `verdict` is the outcome of the shared
        manager's own checks (referential integrity, staleness, locking). */
    method BeginUpdate(changes: Log, verdict: Outcome<StateFailure>) returns (r: Result<Update, StateFailure>)
      ensures r.Ok? <==> verdict.Pass?
      ensures r.Ok? ==> fresh(r.value) && r.value.changes == changes && r.value.status == Begun
      ensures r.Err? ==> r.error == verdict.error
    {
      if verdict.Fail? {
        return Err(verdict.error);
      }
      var u := new Update(changes);
      return Ok(u);
    }

    /** Ends an update: unless the store fails (`fails`), every staged state
        is written, every deleted state removed and every modified
        NodeReferences record stored. */
    method End(u: Update, fails: bool) returns (r: Outcome<StateFailure>)
      requires Valid() && WellFormed(u.changes)
      modifies this, u
      ensures Valid()
      ensures fails ==> r == Fail(ItemStateFailure) && items == old(items) && references == old(references)
      ensures fails ==> u.status == old(u.status)
      ensures !fails ==> r == Pass && u.status == Ended
      ensures !fails ==> items == Applied(old(items), u.changes) && references == old(references) + u.changes.refs
    {
      if fails {
        return Fail(ItemStateFailure);
      }
      items := Applied(items, u.changes);
      references := references + u.changes.refs;
      u.status := Ended;
      return Pass;
    }

    /** Abandons an update; the store is left as it is. */
    method Cancel(u: Update)
      modifies u
      ensures u.status == Cancelled
    {
      u.status := Cancelled;
    }

    /** The single-phase update of a state manager that is not bound to a
        transaction: begin, then end at once. */
    method Store(changes: Log, verdict: Outcome<StateFailure>, endFails: bool) returns (r: Outcome<StateFailure>)
      requires Valid() && WellFormed(changes)
      modifies this
      ensures Valid()
      ensures verdict.Fail? ==> r == verdict && items == old(items) && references == old(references)
      ensures verdict.Pass? && endFails ==> r == Fail(ItemStateFailure) && items == old(items) && references == old(references)
      ensures verdict.Pass? && !endFails ==> r == Pass
      ensures verdict.Pass? && !endFails ==> items == Applied(old(items), changes) && references == old(references) + changes.refs
    {
      var b := BeginUpdate(changes, verdict);
      if b.Err? {
        return Fail(b.error);
      }
      r := End(b.value, endFails);
    }
  }
}
