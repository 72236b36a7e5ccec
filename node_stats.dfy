/**
 * The shared `nodeStats` record and the four wrappers installed over the
 * host's tree-mutation operations. Each wrapper bumps its operation counter,
 * classifies one node on the tree as it stands before the call, bumps
 * `attached` or `detached`, and only then hands the call to the host's
 * original operation, whose result it returns unchanged.
 *
 * The host's originals are parameters: functions from the tree before the
 * call and the call's arguments to the tree after it and the returned value.
 */
module NodeStatsStore {
  import opened Wrappers
  import opened Attachment
  import opened Counters

  class NodeStats {
    var appendChild: nat
    var removeChild: nat
    var replaceChild: nat
    var insertBefore: nat
    var attached: nat
    var detached: nat

    /** The six counters as a value. */
    function Snapshot(): Tally
      reads this
    {
      Tally(appendChild, removeChild, replaceChild, insertBefore, attached, detached)
    }

    /** The record as the module creates it: every counter zero. */
    constructor ()
      ensures Snapshot() == Tally(0, 0, 0, 0, 0, 0)
      ensures Balanced(Snapshot())
    {
      appendChild, removeChild, replaceChild, insertBefore := 0, 0, 0, 0;
      attached, detached := 0, 0;
    }

    /** Bump `attached` or `detached` by the classifier's answer for `n` on the tree `d`. */
    method RecordAttachment(d: Dom, n: NodeId)
      requires WellFormed(d) && n in d.parent
      modifies this
      ensures Snapshot() == CountClass(old(Snapshot()), IsAttached(d, n))
    {
      if IsAttached(d, n) {
        attached := attached + 1;
      } else {
        detached := detached + 1;
      }
    }

    /** `receiver.appendChild(newChild)`: classifies the receiver, then delegates. */
    method AppendChild<R>(d: Dom, receiver: NodeId, newChild: Option<NodeId>,
                          original: (Dom, NodeId, Option<NodeId>) -> (Dom, R))
      returns (d': Dom, result: R)
      requires WellFormed(d) && receiver in d.parent
      modifies this
      ensures Snapshot() == Intercept(d, old(Snapshot()), Call.AppendChild(receiver, newChild))
      ensures old(Balanced(Snapshot())) ==> Balanced(Snapshot())
      ensures (d', result) == original(d, receiver, newChild)
    {
      appendChild := appendChild + 1;
      RecordAttachment(d, receiver);
      var after := original(d, receiver, newChild);
      d', result := after.0, after.1;
    }

    /**
     * `receiver.removeChild(oldChild)`: classifies `oldChild`, then delegates.
     * When `oldChild` is null the classifier throws after `removeChild` was
     * bumped: nothing else changes and the original is not called.
     */
    method RemoveChild<R>(d: Dom, receiver: NodeId, oldChild: Option<NodeId>,
                          original: (Dom, NodeId, NodeId) -> (Dom, R))
      returns (outcome: Result<(Dom, R), Fault>)
      requires WellFormed(d) && (oldChild.Some? ==> oldChild.value in d.parent)
      modifies this
      ensures Snapshot() == Intercept(d, old(Snapshot()), Call.RemoveChild(receiver, oldChild))
      ensures oldChild.Some? && old(Balanced(Snapshot())) ==> Balanced(Snapshot())
      ensures oldChild.None? ==> outcome == Failure(NullDereference)
      ensures oldChild.Some? ==> outcome == Success(original(d, receiver, oldChild.value))
    {
      removeChild := removeChild + 1;
      match oldChild
      case None =>
        outcome := Failure(NullDereference);
      case Some(child) =>
        RecordAttachment(d, child);
        outcome := Success(original(d, receiver, child));
    }

    /**
     * `receiver.replaceChild(newChild, oldChild)`: classifies `oldChild`, the
     * node being replaced, then delegates; a null `oldChild` throws as in
     * `RemoveChild`.
     */
    method ReplaceChild<R>(d: Dom, receiver: NodeId, newChild: Option<NodeId>, oldChild: Option<NodeId>,
                           original: (Dom, NodeId, Option<NodeId>, NodeId) -> (Dom, R))
      returns (outcome: Result<(Dom, R), Fault>)
      requires WellFormed(d) && (oldChild.Some? ==> oldChild.value in d.parent)
      modifies this
      ensures Snapshot() == Intercept(d, old(Snapshot()), Call.ReplaceChild(receiver, newChild, oldChild))
      ensures oldChild.Some? && old(Balanced(Snapshot())) ==> Balanced(Snapshot())
      ensures oldChild.None? ==> outcome == Failure(NullDereference)
      ensures oldChild.Some? ==> outcome == Success(original(d, receiver, newChild, oldChild.value))
    {
      replaceChild := replaceChild + 1;
      match oldChild
      case None =>
        outcome := Failure(NullDereference);
      case Some(child) =>
        RecordAttachment(d, child);
        outcome := Success(original(d, receiver, newChild, child));
    }

    /** `receiver.insertBefore(newChild, refChild)`: classifies the receiver, then delegates. */
    method InsertBefore<R>(d: Dom, receiver: NodeId, newChild: Option<NodeId>, refChild: Option<NodeId>,
                           original: (Dom, NodeId, Option<NodeId>, Option<NodeId>) -> (Dom, R))
      returns (d': Dom, result: R)
      requires WellFormed(d) && receiver in d.parent
      modifies this
      ensures Snapshot() == Intercept(d, old(Snapshot()), Call.InsertBefore(receiver, newChild, refChild))
      ensures old(Balanced(Snapshot())) ==> Balanced(Snapshot())
      ensures (d', result) == original(d, receiver, newChild, refChild)
    {
      insertBefore := insertBefore + 1;
      RecordAttachment(d, receiver);
      var after := original(d, receiver, newChild, refChild);
      d', result := after.0, after.1;
    }
  }
}
