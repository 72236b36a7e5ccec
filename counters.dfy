/**
 * The six counters of `nodeStats` as a value, and what one intercepted call
 * does to them. The class in NodeStatsStore is specified by these functions.
 */
module Counters {
  import opened Wrappers
  import opened Attachment

  /** The six counters of the record at one moment. */
  datatype Tally = Tally(
    appendChild: nat,
    removeChild: nat,
    replaceChild: nat,
    insertBefore: nat,
    attached: nat,
    detached: nat)

  /** One call to an intercepted operation, with the receiver and its arguments (None is null). */
  datatype Call =
    | AppendChild(receiver: NodeId, newChild: Option<NodeId>)
    | RemoveChild(receiver: NodeId, oldChild: Option<NodeId>)
    | ReplaceChild(receiver: NodeId, newChild: Option<NodeId>, oldChild: Option<NodeId>)
    | InsertBefore(receiver: NodeId, newChild: Option<NodeId>, refChild: Option<NodeId>)

  /**
   * The node whose attachment the call records: the receiver for appendChild
   * and insertBefore, the child being taken out for removeChild and replaceChild.
   */
  function Target(call: Call): Option<NodeId> {
    match call
    case AppendChild(receiver, _) => Some(receiver)
    case RemoveChild(_, oldChild) => oldChild
    case ReplaceChild(_, _, oldChild) => oldChild
    case InsertBefore(receiver, _, _) => Some(receiver)
  }

  /** The classified node, when there is one, belongs to the tree. */
  ghost predicate TargetInTree(d: Dom, call: Call) {
    Target(call).Some? ==> Target(call).value in d.parent
  }

  /** Calls counted so far, over the four operation counters. */
  function Operations(c: Tally): nat {
    c.appendChild + c.removeChild + c.replaceChild + c.insertBefore
  }

  /** Calls classified so far. */
  function Classified(c: Tally): nat {
    c.attached + c.detached
  }

  /** Every counted call has been classified exactly once. */
  predicate Balanced(c: Tally) {
    Operations(c) == Classified(c)
  }

  /** No counter went down from `c` to `c'`. */
  predicate NoneDecreased(c: Tally, c': Tally) {
    && c.appendChild <= c'.appendChild
    && c.removeChild <= c'.removeChild
    && c.replaceChild <= c'.replaceChild
    && c.insertBefore <= c'.insertBefore
    && c.attached <= c'.attached
    && c.detached <= c'.detached
  }

  /** The first statement of each wrapper: the operation's own counter goes up by one. */
  function CountCall(c: Tally, call: Call): Tally {
    match call
    case AppendChild(_, _) => c.(appendChild := c.appendChild + 1)
    case RemoveChild(_, _) => c.(removeChild := c.removeChild + 1)
    case ReplaceChild(_, _, _) => c.(replaceChild := c.replaceChild + 1)
    case InsertBefore(_, _, _) => c.(insertBefore := c.insertBefore + 1)
  }

  /** The second statement: `attached` or `detached` goes up by one, as the classifier decides. */
  function CountClass(c: Tally, attached: bool): Tally {
    if attached then c.(attached := c.attached + 1) else c.(detached := c.detached + 1)
  }

  /**
   * The counters after one intercepted call on the tree `d` as it stands
   * before the call. When the classified node is null the classifier throws
   * after the operation counter was bumped, so neither `attached` nor
   * `detached` moves.
   */
  function Intercept(d: Dom, c: Tally, call: Call): (r: Tally)
    requires WellFormed(d) && TargetInTree(d, call)
    ensures NoneDecreased(c, r)
    ensures r.appendChild == c.appendChild + (if call.AppendChild? then 1 else 0)
    ensures r.removeChild == c.removeChild + (if call.RemoveChild? then 1 else 0)
    ensures r.replaceChild == c.replaceChild + (if call.ReplaceChild? then 1 else 0)
    ensures r.insertBefore == c.insertBefore + (if call.InsertBefore? then 1 else 0)
    ensures Target(call).None? ==> r.attached == c.attached && r.detached == c.detached
    ensures Target(call).Some? ==>
      var attached := IsAttached(d, Target(call).value);
      && r.attached == c.attached + (if attached then 1 else 0)
      && r.detached == c.detached + (if attached then 0 else 1)
  {
    var counted := CountCall(c, call);
    match Classify(d, Target(call))
    case Failure(_) => counted
    case Success(attached) => CountClass(counted, attached)
  }

  /**
   * Every call adds one to the operation counters. A call whose classified
   * node exists keeps the counters balanced; a null one unbalances them by one.
   */
  lemma InterceptBalance(d: Dom, c: Tally, call: Call)
    requires WellFormed(d) && TargetInTree(d, call)
    ensures Operations(Intercept(d, c, call)) == Operations(c) + 1
    ensures Target(call).Some? ==> (Balanced(Intercept(d, c, call)) <==> Balanced(c))
    ensures Target(call).None? ==>
      Operations(Intercept(d, c, call)) - Classified(Intercept(d, c, call)) == Operations(c) - Classified(c) + 1
  {
  }

  /** A call made on the tree as it stood at that moment. */
  datatype Event = Event(dom: Dom, call: Call)

  ghost predicate Feasible(e: Event) {
    WellFormed(e.dom) && TargetInTree(e.dom, e.call)
  }

  /** Every call of the sequence is made on a well-formed tree that holds its classified node. */
  ghost predicate AllFeasible(events: seq<Event>) {
    forall i | 0 <= i < |events| :: Feasible(events[i])
  }

  /** No call of the sequence has a null classified node. */
  ghost predicate NoNullTarget(events: seq<Event>) {
    forall i | 0 <= i < |events| :: Target(events[i].call).Some?
  }

  /** The counters after a sequence of intercepted calls, in order, starting from `c`. */
  function Replay(c: Tally, events: seq<Event>): Tally
    requires AllFeasible(events)
    decreases |events|
  {
    if events == [] then c
    else
      assert Feasible(events[0]);
      Replay(Intercept(events[0].dom, c, events[0].call), events[1..])
  }

  /** How many of the calls threw because their classified node was null. */
  function NullTargets(events: seq<Event>): nat {
    if events == [] then 0
    else (if Target(events[0].call).None? then 1 else 0) + NullTargets(events[1..])
  }

  /**
   * Over any sequence of calls, each one adds one to the operation counters,
   * and the operation counters run ahead of the classification counters by
   * exactly the number of calls whose classified node was null.
   */
  lemma {:induction false} ReplayCounts(c: Tally, events: seq<Event>)
    requires AllFeasible(events)
    ensures Operations(Replay(c, events)) == Operations(c) + |events|
    ensures Classified(Replay(c, events)) + NullTargets(events) == Classified(c) + |events|
    ensures NoneDecreased(c, Replay(c, events))
    decreases |events|
  {
    if events != [] {
      var c' := Intercept(events[0].dom, c, events[0].call);
      assert AllFeasible(events[1..]) by {
        forall i | 0 <= i < |events[1..]| ensures Feasible(events[1..][i]) {
          assert events[1..][i] == events[i + 1];
        }
      }
      ReplayCounts(c', events[1..]);
    }
  }

  /**
   * From a balanced record, any sequence of calls whose classified nodes are
   * never null leaves the record balanced; the record as created is balanced,
   * so the two families of counters always agree on the number of calls.
   */
  lemma {:induction false} ReplayKeepsBalance(c: Tally, events: seq<Event>)
    requires AllFeasible(events)
    requires NoNullTarget(events)
    requires Balanced(c)
    ensures Balanced(Replay(c, events))
    ensures Classified(Replay(c, events)) == Classified(c) + |events|
  {
    NoNullTargets(events);
    ReplayCounts(c, events);
  }

  lemma {:induction false} NoNullTargets(events: seq<Event>)
    requires NoNullTarget(events)
    ensures NullTargets(events) == 0
  {
    if events != [] {
      assert NoNullTarget(events[1..]) by {
        forall i | 0 <= i < |events[1..]| ensures Target(events[1..][i].call).Some? {
          assert events[1..][i] == events[i + 1];
        }
      }
      NoNullTargets(events[1..]);
    }
  }
}
