/**
 * The two `onSnapshot` listeners and the process-wide `lastStatusMap` they
 * share: which document changes call `processEvent`, and what the map
 * records afterwards.
 */
module Tracker {
  import opened JsValues
  import opened Requests

  datatype ChangeType = Added | Modified | Removed

  /** One entry of `snap.docChanges()`: its type, `change.doc.id` and `change.doc.data()`. */
  datatype Change = Change(kind: ChangeType, id: string, data: DocData)

  /** A call `processEvent(data, docId, isWithdraw)` made by a listener. */
  datatype Call = Call(data: DocData, docId: string, isWithdraw: bool)

  /**
   * The names a plain JavaScript object inherits from `Object.prototype`
   * (those Firestore allows as document ids); reading one that the map does
   * not hold yields a function.
   */
  const PrototypeMembers: set<string> :=
    {"constructor", "hasOwnProperty", "isPrototypeOf", "propertyIsEnumerable",
     "toLocaleString", "toString", "valueOf"}

  /** What `lastStatusMap[id]` reads: a recorded value, `undefined`, or an inherited function. */
  datatype Slot = Held(value: Value) | InheritedFunction

  function Read(m: map<string, Value>, id: string): Slot {
    if id in m then Held(m[id])
    else if id in PrototypeMembers then InheritedFunction
    else Held(Undefined)
  }

  /** `prev !== status`: a function is never strictly equal to a field value. */
  predicate StrictlyDiffers(prev: Slot, status: Value) {
    match prev
    case Held(v) => v != status
    case InheritedFunction => true
  }

  /** Whether the listener calls `processEvent` for this change. */
  predicate Fires(m: map<string, Value>, c: Change) {
    c.kind == Added || (c.kind == Modified && StrictlyDiffers(Read(m, c.id), c.data.status))
  }

  /** The map after one change: the status is recorded exactly when `processEvent` is called. */
  function Record(m: map<string, Value>, c: Change): map<string, Value> {
    if Fires(m, c) then m[c.id := c.data.status] else m
  }

  /** The map after a batch of changes, handled in order. */
  function Replay(m: map<string, Value>, changes: seq<Change>): map<string, Value>
    decreases |changes|
  {
    if changes == [] then m
    else Record(Replay(m, changes[..|changes| - 1]), changes[|changes| - 1])
  }

  /** The `processEvent` calls a batch makes, in order. */
  function Dispatched(m: map<string, Value>, changes: seq<Change>, isWithdraw: bool): seq<Call>
    decreases |changes|
  {
    if changes == [] then []
    else
      var before := Replay(m, changes[..|changes| - 1]);
      var last := changes[|changes| - 1];
      Dispatched(m, changes[..|changes| - 1], isWithdraw)
      + (if Fires(before, last) then [Call(last.data, last.id, isWithdraw)] else [])
  }

  /** An `added` change always calls `processEvent` and records its status, whatever that status is. */
  lemma AddedDispatchesAndRecords(m: map<string, Value>, c: Change, isWithdraw: bool)
    requires c.kind == Added
    ensures Dispatched(m, [c], isWithdraw) == [Call(c.data, c.id, isWithdraw)]
    ensures Replay(m, [c]) == m[c.id := c.data.status]
  {
  }

  /** A `removed` change, or a `modified` one whose status is the recorded one, does nothing. */
  lemma UnchangedOrRemovedIgnored(m: map<string, Value>, c: Change, isWithdraw: bool)
    requires c.kind == Removed || (c.kind == Modified && Read(m, c.id) == Held(c.data.status))
    ensures Dispatched(m, [c], isWithdraw) == []
    ensures Replay(m, [c]) == m
  {
  }

  /**
   * A `modified` change whose status differs from what `lastStatusMap[id]`
   * reads calls `processEvent` once and records the new status, valid or
   * not; every other id reads as before.
   */
  lemma ChangedModifiedDispatches(m: map<string, Value>, c: Change, isWithdraw: bool)
    requires c.kind == Modified && StrictlyDiffers(Read(m, c.id), c.data.status)
    ensures Dispatched(m, [c], isWithdraw) == [Call(c.data, c.id, isWithdraw)]
    ensures Read(Replay(m, [c]), c.id) == Held(c.data.status)
    ensures forall id :: id != c.id ==> Read(Replay(m, [c]), id) == Read(m, id)
  {
  }

  /**
   * With no entry for the id, `lastStatusMap[id]` reads `undefined`: a
   * `modified` change then fires exactly when its status field is present.
   */
  lemma MissingEntryReadsUndefined(m: map<string, Value>, c: Change)
    requires c.kind == Modified && c.id !in m && c.id !in PrototypeMembers
    ensures Fires(m, c) <==> c.data.status != Undefined
  {
  }

  /** Handling two batches one after the other is handling their concatenation. */
  lemma {:induction false} ReplayAppend(m: map<string, Value>, a: seq<Change>, b: seq<Change>, isWithdraw: bool)
    ensures Replay(m, a + b) == Replay(Replay(m, a), b)
    ensures Dispatched(m, a + b, isWithdraw) == Dispatched(m, a, isWithdraw) + Dispatched(Replay(m, a), b, isWithdraw)
    decreases |b|
  {
    if b == [] {
      assert a + b == a;
    } else {
      var front := b[..|b| - 1];
      assert (a + b)[..|a + b| - 1] == a + front;
      assert (a + b)[|a + b| - 1] == b[|b| - 1];
      ReplayAppend(m, a, front, isWithdraw);
    }
  }

  /** Ids that no change of the batch mentions keep their entry, or their absence. */
  lemma {:induction false} ReplayFrame(m: map<string, Value>, changes: seq<Change>, id: string)
    requires forall k :: 0 <= k < |changes| ==> changes[k].id != id
    ensures id in Replay(m, changes) <==> id in m
    ensures id in m ==> Replay(m, changes)[id] == m[id]
    decreases |changes|
  {
    if changes != [] {
      ReplayFrame(m, changes[..|changes| - 1], id);
    }
  }

  /**
   * After a batch, an id reads the status of the last `added` or `modified`
   * change for it, whether or not that change called `processEvent`.
   */
  lemma {:induction false} ReflectsLastObserved(m: map<string, Value>, changes: seq<Change>, j: int)
    requires 0 <= j < |changes| && changes[j].kind != Removed
    requires forall k :: j < k < |changes| && changes[k].id == changes[j].id ==> changes[k].kind == Removed
    ensures Read(Replay(m, changes), changes[j].id) == Held(changes[j].data.status)
    decreases |changes|
  {
    var front := changes[..|changes| - 1];
    if j < |changes| - 1 {
      ReflectsLastObserved(m, front, j);
    }
  }

  /** A `modified` change repeating the last observed status of its id calls nothing and records nothing. */
  lemma NoRepeatedNotification(m: map<string, Value>, changes: seq<Change>, j: int, c: Change, isWithdraw: bool)
    requires 0 <= j < |changes| && changes[j].kind != Removed
    requires forall k :: j < k < |changes| && changes[k].id == changes[j].id ==> changes[k].kind == Removed
    requires c.kind == Modified && c.id == changes[j].id && c.data.status == changes[j].data.status
    ensures Dispatched(m, changes + [c], isWithdraw) == Dispatched(m, changes, isWithdraw)
    ensures Replay(m, changes + [c]) == Replay(m, changes)
  {
    ReflectsLastObserved(m, changes, j);
    assert (changes + [c])[..|changes|] == changes;
  }

  /** A run of `modified` changes of one id that all carry one status calls `processEvent` at most once. */
  lemma {:induction false} RepeatedStatusDispatchesOnce(m: map<string, Value>, changes: seq<Change>, id: string,
                                                          status: Value, isWithdraw: bool)
    requires forall k :: 0 <= k < |changes| ==>
      changes[k].kind == Modified && changes[k].id == id && changes[k].data.status == status
    ensures |Dispatched(m, changes, isWithdraw)| == if changes != [] && StrictlyDiffers(Read(m, id), status) then 1 else 0
    decreases |changes|
  {
    if |changes| == 1 {
      assert changes[..0] == [];
    } else if |changes| > 1 {
      var front := changes[..|changes| - 1];
      RepeatedStatusDispatchesOnce(m, front, id, status, isWithdraw);
      ReflectsLastObserved(m, front, |front| - 1);
    }
  }

  /** The change at position `j` of the batch calls `processEvent`. */
  predicate FiresAt(m: map<string, Value>, changes: seq<Change>, j: int) {
    0 <= j < |changes| && Fires(Replay(m, changes[..j]), changes[j])
  }

  /** Whether an earlier change fires does not depend on the changes after it. */
  lemma FiresAtPrefix(m: map<string, Value>, changes: seq<Change>, j: int)
    requires 0 <= j < |changes| - 1
    ensures FiresAt(m, changes, j) == FiresAt(m, changes[..|changes| - 1], j)
    ensures changes[j] == changes[..|changes| - 1][j]
  {
    assert changes[..j] == changes[..|changes| - 1][..j];
  }

  /** The calls of a batch are those of all but its last change, then the last one's if it fires. */
  lemma DispatchedSnoc(m: map<string, Value>, changes: seq<Change>, isWithdraw: bool)
    requires |changes| >= 1
    ensures var n := |changes| - 1;
      Dispatched(m, changes, isWithdraw) == Dispatched(m, changes[..n], isWithdraw)
        + (if FiresAt(m, changes, n) then [Call(changes[n].data, changes[n].id, isWithdraw)] else [])
  {
  }

  /** The positions, in increasing order, of the changes of a batch that call `processEvent`. */
  function FiringPositions(m: map<string, Value>, changes: seq<Change>): seq<nat>
    decreases |changes|
  {
    if changes == [] then []
    else
      var n := |changes| - 1;
      FiringPositions(m, changes[..n]) + (if FiresAt(m, changes, n) then [n] else [])
  }

  /** Every change that fires has its position listed. */
  lemma {:induction false} FiringPositionsComplete(m: map<string, Value>, changes: seq<Change>)
    ensures forall j :: FiresAt(m, changes, j) ==> j in FiringPositions(m, changes)
    decreases |changes|
  {
    if changes != [] {
      var n := |changes| - 1;
      FiringPositionsComplete(m, changes[..n]);
      forall j | FiresAt(m, changes, j) ensures j in FiringPositions(m, changes) {
        if j < n {
          FiresAtPrefix(m, changes, j);
        }
      }
    }
  }

  /**
   * The calls of a batch correspond one to one, in order, to the changes that
   * fire: `FiringPositions` lists, increasing, the positions of exactly those
   * changes, and the k-th call carries the data and id of the k-th of them.
   */
  lemma {:induction false} DispatchedFromChanges(m: map<string, Value>, changes: seq<Change>, isWithdraw: bool)
    ensures var idx := FiringPositions(m, changes);
      |idx| == |Dispatched(m, changes, isWithdraw)| <= |changes|
      && (forall k, l :: 0 <= k < l < |idx| ==> idx[k] < idx[l])
      && (forall k :: 0 <= k < |idx| ==>
            FiresAt(m, changes, idx[k])
            && Dispatched(m, changes, isWithdraw)[k] == Call(changes[idx[k]].data, changes[idx[k]].id, isWithdraw))
      && (forall j :: FiresAt(m, changes, j) ==> j in idx)
    decreases |changes|
  {
    FiringPositionsComplete(m, changes);
    if changes != [] {
      var n := |changes| - 1;
      var front := changes[..n];
      DispatchedFromChanges(m, front, isWithdraw);
      DispatchedSnoc(m, changes, isWithdraw);
      var before := FiringPositions(m, front);
      forall k | 0 <= k < |before|
        ensures FiresAt(m, changes, before[k])
        ensures Dispatched(m, changes, isWithdraw)[k]
          == Call(changes[before[k]].data, changes[before[k]].id, isWithdraw)
      {
        FiresAtPrefix(m, changes, before[k]);
      }
    }
  }

  /**
   * Both listeners share one map keyed by the bare id: once a deposit with
   * some id is recorded, a withdraw `modified` change for the same id with
   * the same status calls nothing.
   */
  lemma SharedAcrossCollections(m: map<string, Value>, id: string, deposit: DocData, withdraw: DocData)
    requires deposit.status == withdraw.status
    ensures
      var afterDeposit := Replay(m, [Change(Added, id, deposit)]);
      Dispatched(afterDeposit, [Change(Modified, id, withdraw)], true) == []
      && Replay(afterDeposit, [Change(Modified, id, withdraw)]) == afterDeposit
  {
  }

  /** The shared status cache and the change handler of both listeners. */
  class StatusTracker {
    var lastStatus: map<string, Value>

    constructor ()
      ensures lastStatus == map[]
    {
      lastStatus := map[];
    }

    /**
     * The `snap.docChanges().forEach(...)` body of the deposit listener
     * (`isWithdraw` false) or the withdraw listener (`isWithdraw` true).
     */
    method HandleChanges(changes: seq<Change>, isWithdraw: bool) returns (calls: seq<Call>)
      modifies this
      ensures lastStatus == Replay(old(lastStatus), changes)
      ensures calls == Dispatched(old(lastStatus), changes, isWithdraw)
    {
      ghost var start := lastStatus;
      calls := [];
      var i := 0;
      while i < |changes|
        invariant 0 <= i <= |changes|
        invariant lastStatus == Replay(start, changes[..i])
        invariant calls == Dispatched(start, changes[..i], isWithdraw)
      {
        var change := changes[i];
        if change.kind == Added {
          calls := calls + [Call(change.data, change.id, isWithdraw)];
          lastStatus := lastStatus[change.id := change.data.status];
        } else if change.kind == Modified {
          var prev := Read(lastStatus, change.id);
          if StrictlyDiffers(prev, change.data.status) {
            calls := calls + [Call(change.data, change.id, isWithdraw)];
            lastStatus := lastStatus[change.id := change.data.status];
          }
        }
        assert changes[..i + 1][..i] == changes[..i];
        i := i + 1;
      }
      assert changes[..i] == changes;
    }
  }
}
