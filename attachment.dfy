/** The node tree as the counters see it, and the attachment classifier. */
module Attachment {
  import opened Wrappers

  type NodeId = nat

  /** The name that marks the document's top-level element. */
  const HtmlName: string := "HTML"

  /**
   * A snapshot of the host's node tree: each node's `parentNode` (None is
   * null) and its `nodeName`. The counters only ever read these two.
   */
  datatype Dom = Dom(parent: map<NodeId, Option<NodeId>>, name: map<NodeId, string>)

  /** Every node has a name, and every parent reference names a node of the tree. */
  ghost predicate Closed(d: Dom) {
    && d.name.Keys == d.parent.Keys
    && forall n {:trigger d.parent[n]} | n in d.parent && d.parent[n].Some? :: d.parent[n].value in d.parent
  }

  /** `rank` strictly decreases from each node to its parent, so no parent chain is a cycle. */
  ghost predicate RankedBy(d: Dom, rank: map<NodeId, nat>) {
    && rank.Keys == d.parent.Keys
    && forall n {:trigger d.parent[n]} | n in d.parent && d.parent[n].Some? ::
         d.parent[n].value in rank && rank[d.parent[n].value] < rank[n]
  }

  /** A tree the host can build: closed and free of parent cycles. */
  ghost predicate WellFormed(d: Dom) {
    Closed(d) && exists rank :: RankedBy(d, rank)
  }

  /** Some rank of a well-formed tree; it measures the remaining walk of the classifier. */
  ghost function Rank(d: Dom): (rank: map<NodeId, nat>)
    requires WellFormed(d)
    ensures RankedBy(d, rank)
  {
    var rank :| RankedBy(d, rank); rank
  }

  /** An element named HTML that has a parent: the node where the walk answers true. */
  predicate IsAnchor(d: Dom, n: NodeId)
    requires Closed(d) && n in d.parent
  {
    d.parent[n].Some? && d.name[n] == HtmlName
  }

  /**
   * The classifier `isAttached`. A node without a parent is detached, and this
   * is decided before the name is looked at, so a parentless element named
   * HTML is detached too. A node named HTML that has a parent is attached.
   * Any other node is classified as its parent is.
   */
  function IsAttached(d: Dom, n: NodeId): (r: bool)
    requires WellFormed(d) && n in d.parent
    ensures r ==> d.parent[n].Some?
    decreases Rank(d)[n]
  {
    if d.parent[n].None? then false
    else if d.name[n] == HtmlName then true
    else IsAttached(d, d.parent[n].value)
  }

  /** The JavaScript error raised when the classifier reads `parentNode` of null. */
  datatype Fault = NullDereference

  /**
   * The classifier applied to a reference that may be null: on null it throws,
   * because its first step dereferences the node.
   */
  function Classify(d: Dom, node: Option<NodeId>): (r: Result<bool, Fault>)
    requires WellFormed(d) && (node.Some? ==> node.value in d.parent)
    ensures r.Failure? <==> node.None?
    ensures r.Success? ==> r.value == IsAttached(d, node.value)
  {
    match node
    case None => Failure(NullDereference)
    case Some(n) => Success(IsAttached(d, n))
  }

  /** `p` follows parent links upward: each entry's parent is the next entry. */
  ghost predicate IsUpwardPath(d: Dom, p: seq<NodeId>) {
    && |p| > 0
    && (forall i | 0 <= i < |p| :: p[i] in d.parent)
    && (forall i | 0 <= i < |p| - 1 :: d.parent[p[i]] == Some(p[i + 1]))
  }

  /** `p` leads upward from `n` to an HTML element that has a parent. */
  ghost predicate AnchorPath(d: Dom, n: NodeId, p: seq<NodeId>)
    requires Closed(d)
  {
    IsUpwardPath(d, p) && p[0] == n && IsAnchor(d, p[|p| - 1])
  }

  /** If the walk answers true, some upward path from the node ends at an anchor. */
  lemma {:induction false} AttachedHasAnchorPath(d: Dom, n: NodeId)
    requires WellFormed(d) && n in d.parent
    requires IsAttached(d, n)
    ensures exists p :: AnchorPath(d, n, p)
    decreases Rank(d)[n]
  {
    if d.name[n] == HtmlName {
      assert AnchorPath(d, n, [n]);
    } else {
      var q := d.parent[n].value;
      AttachedHasAnchorPath(d, q);
      var p :| AnchorPath(d, q, p);
      var p' := [n] + p;
      assert forall i | 0 <= i < |p'| - 1 :: d.parent[p'[i]] == Some(p'[i + 1]) by {
        forall i | 0 <= i < |p'| - 1 ensures d.parent[p'[i]] == Some(p'[i + 1]) {
          if i > 0 { assert p'[i] == p[i - 1] && p'[i + 1] == p[i]; }
        }
      }
      assert AnchorPath(d, n, p');
    }
  }

  /** Conversely, a node with an upward path to an anchor is classified as attached. */
  lemma {:induction false} AnchorPathIsAttached(d: Dom, n: NodeId, p: seq<NodeId>)
    requires WellFormed(d) && n in d.parent
    requires AnchorPath(d, n, p)
    ensures IsAttached(d, n)
    decreases |p|
  {
    if |p| > 1 {
      assert d.parent[p[0]] == Some(p[1]);
      if d.name[n] != HtmlName {
        AnchorPathIsAttached(d, p[1], p[1..]);
      }
    }
  }

  /**
   * The classifier against a definition without recursion: a node is attached
   * exactly when an element named HTML that has a parent lies on its parent
   * chain, the node itself included.
   */
  lemma AttachedIffAnchorAncestor(d: Dom, n: NodeId)
    requires WellFormed(d) && n in d.parent
    ensures IsAttached(d, n) <==> exists p :: AnchorPath(d, n, p)
  {
    if IsAttached(d, n) {
      AttachedHasAnchorPath(d, n);
    } else if p :| AnchorPath(d, n, p) {
      AnchorPathIsAttached(d, n, p);
    }
  }

  /** A node named HTML is attached exactly when it has a parent: the parent test comes first. */
  lemma HtmlAttachedIffParented(d: Dom, n: NodeId)
    requires WellFormed(d) && n in d.parent && d.name[n] == HtmlName
    ensures IsAttached(d, n) <==> d.parent[n].Some?
  {
  }

  /** A node that is not an HTML element is attached exactly when its parent is. */
  lemma NonHtmlFollowsParent(d: Dom, n: NodeId)
    requires WellFormed(d) && n in d.parent && d.name[n] != HtmlName && d.parent[n].Some?
    ensures IsAttached(d, n) == IsAttached(d, d.parent[n].value)
  {
  }

  /** Attachment is inherited: every child of an attached node is attached. */
  lemma ChildOfAttachedIsAttached(d: Dom, n: NodeId)
    requires WellFormed(d) && n in d.parent && d.parent[n].Some?
    requires IsAttached(d, d.parent[n].value)
    ensures IsAttached(d, n)
  {
  }
}
