/** A client of the wrappers: the counters after a few calls on a small document. */
module Scenarios {
  import opened Wrappers
  import opened Attachment
  import opened Counters
  import opened NodeStatsStore

  const Document: NodeId := 0
  const Html: NodeId := 1
  const Body: NodeId := 2
  const Div: NodeId := 3
  const Span: NodeId := 4
  const Loose: NodeId := 5
  const LooseChild: NodeId := 6
  const LooseHtml: NodeId := 7

  /**
   * document > HTML > BODY > DIV is the live document; SPAN is a fresh
   * element, a DIV with a P child is a detached subtree, and an element named
   * HTML was created but never inserted.
   */
  function Page(): Dom {
    Dom(map n: NodeId | n <= LooseHtml :: ParentOf(n), map n: NodeId | n <= LooseHtml :: NameOf(n))
  }

  function ParentOf(n: NodeId): Option<NodeId> {
    if n == Html then Some(Document)
    else if n == Body then Some(Html)
    else if n == Div then Some(Body)
    else if n == LooseChild then Some(Loose)
    else None
  }

  function NameOf(n: NodeId): string {
    if n == Document then "#document"
    else if n == Html || n == LooseHtml then "HTML"
    else if n == Body then "BODY"
    else if n == Span then "SPAN"
    else if n == LooseChild then "P"
    else "DIV"
  }

  /** The host operations, as far as the counters can see them: they return some value. */
  function HostAppend(d: Dom, receiver: NodeId, arg: Option<NodeId>): (Dom, bool) { (d, true) }
  function HostRemove(d: Dom, receiver: NodeId, child: NodeId): (Dom, bool) { (d, true) }
  function HostInsert(d: Dom, receiver: NodeId, newChild: Option<NodeId>, refChild: Option<NodeId>): (Dom, bool) { (d, true) }
  function HostReplace(d: Dom, receiver: NodeId, newChild: Option<NodeId>, child: NodeId): (Dom, bool) { (d, true) }

  lemma PageWellFormed()
    ensures WellFormed(Page())
  {
    var d := Page();
    var rank := map n: NodeId | n <= LooseHtml :: if ParentOf(n) == None then 0 else if n == LooseChild then 1 else n;
    assert RankedBy(d, rank);
  }

  /**
   * DIV is attached through the HTML element under the document; the document
   * itself, the detached subtree and the parentless HTML element are not.
   */
  lemma PageClassification()
    ensures WellFormed(Page())
    ensures IsAttached(Page(), Div) && IsAttached(Page(), Body)
    ensures !IsAttached(Page(), Document) && !IsAttached(Page(), Loose)
    ensures !IsAttached(Page(), LooseChild) && !IsAttached(Page(), LooseHtml)
  {
    PageWellFormed();
    var d := Page();
    assert IsAttached(d, Html);
    assert IsAttached(d, Body);
    assert !IsAttached(d, Loose);
  }

  // Each scenario starts from a freshly created record and makes one call on
  // any tree whose nodes are classified as the scenario states; PageScenarios
  // runs every one of them on the example page.

  /** appendChild on a detached element is counted as detached. */
  method DetachedAppend(d: Dom, receiver: NodeId, child: NodeId)
    requires WellFormed(d) && receiver in d.parent && !IsAttached(d, receiver)
  {
    var stats := new NodeStats();
    var d', r := stats.AppendChild(d, receiver, Some(child), HostAppend);
    var after := stats.Snapshot();
    assert after == Tally(1, 0, 0, 0, 0, 1);
  }

  /** appendChild on an attached element is counted as attached. */
  method AttachedAppend(d: Dom, receiver: NodeId, child: NodeId)
    requires WellFormed(d) && receiver in d.parent && IsAttached(d, receiver)
  {
    var stats := new NodeStats();
    var d', r := stats.AppendChild(d, receiver, Some(child), HostAppend);
    var after := stats.Snapshot();
    assert after == Tally(1, 0, 0, 0, 1, 0);
  }

  /** removeChild classifies the child being removed, on the tree before removal, whatever the receiver. */
  method AttachedRemove(d: Dom, receiver: NodeId, child: NodeId)
    requires WellFormed(d) && child in d.parent && IsAttached(d, child)
  {
    var stats := new NodeStats();
    var outcome := stats.RemoveChild(d, receiver, Some(child), HostRemove);
    var after := stats.Snapshot();
    assert after == Tally(0, 1, 0, 0, 1, 0);
    assert outcome == Success((d, true));
  }

  /** replaceChild classifies the child being replaced, not the new child that takes its place. */
  method DetachedReplace(d: Dom, receiver: NodeId, newChild: NodeId, oldChild: NodeId)
    requires WellFormed(d) && newChild in d.parent && IsAttached(d, newChild)
    requires oldChild in d.parent && !IsAttached(d, oldChild)
  {
    var stats := new NodeStats();
    var outcome := stats.ReplaceChild(d, receiver, Some(newChild), Some(oldChild), HostReplace);
    var after := stats.Snapshot();
    assert after == Tally(0, 0, 1, 0, 0, 1);
  }

  /** insertBefore on an element named HTML that has no parent is detached: the parent test comes first. */
  method ParentlessHtmlInsert(d: Dom, receiver: NodeId, child: NodeId)
    requires WellFormed(d) && receiver in d.parent && d.parent[receiver].None? && d.name[receiver] == HtmlName
  {
    var stats := new NodeStats();
    var d', r := stats.InsertBefore(d, receiver, Some(child), None, HostInsert);
    var after := stats.Snapshot();
    assert after == Tally(0, 0, 0, 1, 0, 1);
  }

  /** removeChild(null) bumps removeChild, then throws: the counters fall out of balance. */
  method NullRemove(d: Dom, receiver: NodeId)
    requires WellFormed(d)
  {
    var stats := new NodeStats();
    var outcome := stats.RemoveChild(d, receiver, None, HostRemove);
    assert outcome == Failure(NullDereference);
    var after := stats.Snapshot();
    assert after == Tally(0, 1, 0, 0, 0, 0);
    assert !Balanced(after);
  }

  /**
   * The scenarios on the example page: a fresh SPAN appended to the detached
   * DIV and to the live DIV, the live DIV removed from BODY, the attached DIV
   * moved in place of the detached P, a SPAN inserted into the parentless
   * HTML element, and removeChild(null) on BODY.
   */
  method PageScenarios() {
    PageClassification();
    var d := Page();
    DetachedAppend(d, Loose, Span);
    AttachedAppend(d, Div, Span);
    AttachedRemove(d, Body, Div);
    DetachedReplace(d, Loose, Div, LooseChild);
    ParentlessHtmlInsert(d, LooseHtml, Span);
    NullRemove(d, Body);
  }
}
