/** A listener's change handling followed by `processEvent` on each call it makes. */
module Watcher {
  import opened JsValues
  import opened Wrappers
  import opened Requests
  import opened Composer
  import opened Registry
  import opened Events
  import opened Tracker

  /** A recipient exists for the method: its first registry record has a truthy `chatId`. */
  ghost predicate Reachable(registry: seq<Manager>, method': Value) {
    method' != Undefined && exists i :: IsFirstMatch(registry, method', i) && Truthy(registry[i].chatId)
  }

  /**
   * The first sighting of a document (`added`) with a valid status and a
   * reachable recipient makes exactly one call, and that call sends.
   */
  lemma AddedValidNotifiesOnce(m: map<string, Value>, c: Change, isWithdraw: bool, registry: seq<Manager>,
                               nowMillis: int, localeString: int -> string)
    requires c.kind == Added && ParseStatus(c.data.status).Some? && Reachable(registry, c.data.paymentMethod)
    ensures Dispatched(m, [c], isWithdraw) == [Call(c.data, c.id, isWithdraw)]
    ensures ProcessEvent(c.data, c.id, isWithdraw, registry, nowMillis, localeString).Send?
  {
  }

  /**
   * A `modified` change to a status outside the valid set still calls
   * `processEvent` and is recorded, but no message results.
   */
  lemma InvalidStatusRecordedWithoutMessage(m: map<string, Value>, c: Change, isWithdraw: bool,
                                            registry: seq<Manager>, nowMillis: int, localeString: int -> string)
    requires c.kind == Modified && StrictlyDiffers(Read(m, c.id), c.data.status)
    requires ParseStatus(c.data.status) == None
    ensures Dispatched(m, [c], isWithdraw) == [Call(c.data, c.id, isWithdraw)]
    ensures Read(Replay(m, [c]), c.id) == Held(c.data.status)
    ensures ProcessEvent(c.data, c.id, isWithdraw, registry, nowMillis, localeString) == Skipped(InvalidStatus)
  {
  }

  /**
   * Only the previous status is remembered: `pending`, then an invalid
   * status, then `pending` again calls `processEvent` three times, and the
   * first and third calls both send the pending message.
   */
  lemma PendingTwiceAcrossInvalidStatus(m: map<string, Value>, id: string, pending: DocData, other: DocData,
                                        isWithdraw: bool, registry: seq<Manager>,
                                        nowMillis: int, localeString: int -> string)
    requires pending.status == Text("pending") && ParseStatus(other.status) == None
    requires Reachable(registry, pending.paymentMethod)
    ensures
      var changes := [Change(Added, id, pending), Change(Modified, id, other), Change(Modified, id, pending)];
      Dispatched(m, changes, isWithdraw)
        == [Call(pending, id, isWithdraw), Call(other, id, isWithdraw), Call(pending, id, isWithdraw)]
      && ProcessEvent(pending, id, isWithdraw, registry, nowMillis, localeString).Send?
      && ProcessEvent(other, id, isWithdraw, registry, nowMillis, localeString) == Skipped(InvalidStatus)
  {
    var c0, c1, c2 := Change(Added, id, pending), Change(Modified, id, other), Change(Modified, id, pending);
    var changes := [c0, c1, c2];
    ReplayAppend(m, [c0], [c1], isWithdraw);
    AddedDispatchesAndRecords(m, c0, isWithdraw);
    var m1 := Replay(m, [c0]);
    ChangedModifiedDispatches(m1, c1, isWithdraw);
    var m2 := Replay(m1, [c1]);
    ChangedModifiedDispatches(m2, c2, isWithdraw);
    assert [c0] + [c1] == changes[..2];
    ReplayAppend(m, changes[..2], [c2], isWithdraw);
    assert changes[..2] + [c2] == changes;
  }
}
