# node-stats: DOM mutation counters

`node-stats.js` counts the calls a page makes to four DOM tree-mutation operations:
`appendChild`, `removeChild`, `replaceChild` and `insertBefore`. For each call it also
records whether the node it looks at was attached to a document. A shared record
`nodeStats` holds six counters, all starting at zero. The wrapper for each operation does
three things in order:

1. it bumps the operation's own counter;
2. it asks `isAttached` about one node and bumps `attached` or `detached`;
3. it calls the host's original operation and returns that operation's result.

`isAttached` walks up the `parentNode` chain. A node without a parent is detached. Otherwise,
a node named `HTML` is attached. Otherwise, the node is classified as its parent is.

The Dafny model:

- `wrappers.dfy` (module `Wrappers`): `Option`, where `None` stands for JavaScript's
  `null`, and `Result`, for a call that throws.
- `attachment.dfy` (module `Attachment`): the tree snapshot `Dom` maps each node to its
  `parentNode` and its `nodeName`. `WellFormed` demands that every parent is in the tree
  and that a rank decreases from child to parent, so no parent chain is a cycle.
  `IsAttached` is the classifier, with the code's order of checks. `Classify` applies
  it to a reference that may be null, and fails on null as the code does. Lemmas
  relate `IsAttached` to a definition without recursion: a node is attached exactly
  when its upward chain, the node included, contains an element named `HTML` that
  has a parent.
- `counters.dfy` (module `Counters`): the six counters as a value `Tally`, and `Intercept`, the
  effect of one wrapped call. `Replay` runs a sequence of calls. The lemmas cover
  conservation: the four operation counters and `attached + detached` both grow by
  one per call whose classified node is non-null.
- `node_stats.dfy` (module `NodeStatsStore`): the class `NodeStats`, which holds six `nat`
  fields that its four wrapper methods update in place. Each method is specified by
  `Intercept` on the tree as it stood before the call, and returns the host original's
  result unchanged. The host original is a function parameter from the tree and the
  arguments to the new tree and the returned value.
- `scenarios.dfy` (module `Scenarios`): a small page tree, facts about which of its nodes
  are attached, and client methods that run one wrapped call on a fresh record. Each
  client method proves the exact counters that call leaves. `PageScenarios` runs every
  client method on the page.

The model follows the code where a looser reading of `isAttached` would differ:

- `isAttached(null)` does not return false. Line 12 reads `null.parentNode` and throws.
  `Classify` returns `Failure(NullDereference)`. When `removeChild(null)` or
  `replaceChild(x, null)` is called, the operation counter has already gone up. Neither
  `attached` nor `detached` moves, the host operation is never reached, and the record
  is out of balance by one.
- An element named `HTML` is attached only when it has a parent. Line 12 is tested
  before line 13, so a parentless `HTML` element is detached. In a real page the root
  element's parent is the document node, so the page tree in `Scenarios` puts a
  `#document` node above `HTML`.

## Model

| member | source | states |
|---|---|---|
| `Attachment.IsAttached` | node-stats.js:10-15 | the classifier; a node it calls attached always has a parent, so parentless nodes (an `HTML` one included) are detached |
| `Attachment.Classify` | node-stats.js:10-12 | on a null reference the classifier fails (it dereferences `parentNode` first); on a node it answers as `IsAttached` |
| `Attachment.AttachedHasAnchorPath` | node-stats.js:10-15 | when the walk answers true, there is an upward `parentNode` path from the node to an element named `HTML` that has a parent |
| `Attachment.AnchorPathIsAttached` | node-stats.js:10-15 | conversely, any such upward path makes the walk answer true |
| `Attachment.AttachedIffAnchorAncestor` | node-stats.js:10-15 | the node is attached if and only if its parent chain (the node included) contains an `HTML` element with a parent |
| `Attachment.HtmlAttachedIffParented` | node-stats.js:12-13 | a node named `HTML` is attached exactly when its `parentNode` is non-null |
| `Attachment.NonHtmlFollowsParent` | node-stats.js:13-14 | a node with a parent and another name is attached exactly when its parent is |
| `Attachment.ChildOfAttachedIsAttached` | node-stats.js:12-14 | every child of an attached node is attached |
| `Counters.Intercept` | node-stats.js:18-47 | one wrapped call adds exactly one to its own operation counter and leaves the other three alone; with a non-null classified node it adds one to `attached` if that node is attached and to `detached` otherwise; with a null one neither moves; no counter decreases |
| `Counters.InterceptBalance` | node-stats.js:1-47 | every call adds exactly one to the operation counters; a call with a non-null classified node keeps `appendChild + removeChild + replaceChild + insertBefore == attached + detached`; a null one puts the operation side one ahead |
| `Counters.ReplayCounts` | node-stats.js:1-47 | after any sequence of calls the operation counters have grown by the number of calls, and `attached + detached` by the number of calls minus those whose classified node was null; no counter decreases |
| `Counters.ReplayKeepsBalance` | node-stats.js:1-47 | from a balanced record, calls that never classify null keep the two families of counters equal |
| `NodeStatsStore.NodeStats.constructor` | node-stats.js:1-8 | the record starts with all six counters zero, hence balanced |
| `NodeStatsStore.NodeStats.RecordAttachment` | node-stats.js:21 | bumps `attached` if the classifier says attached, `detached` otherwise, and nothing else |
| `NodeStatsStore.NodeStats.AppendChild` | node-stats.js:18-23 | counters become `Intercept` of the old counters with the receiver classified on the tree before the call; balance is kept; the host's `appendChild` result is returned unchanged |
| `NodeStatsStore.NodeStats.RemoveChild` | node-stats.js:26-31 | classifies `oldChild`, not the receiver; a null `oldChild` leaves `removeChild` bumped and fails before the host is called; otherwise returns the host's result unchanged |
| `NodeStatsStore.NodeStats.ReplaceChild` | node-stats.js:34-39 | classifies `oldChild`, not the receiver or `newChild`; a null `oldChild` fails as in `RemoveChild`; otherwise returns the host's result unchanged |
| `NodeStatsStore.NodeStats.InsertBefore` | node-stats.js:42-47 | classifies the receiver, whatever `newChild` and `refChild` are; balance is kept; the host's result is returned unchanged |
| `Scenarios.PageClassification` | node-stats.js:10-15 | on a page document > HTML > BODY > DIV, DIV and BODY are attached; the document node, a detached subtree and a parentless `HTML` element are not |

## Left out

- The host's own `appendChild`, `removeChild`, `replaceChild` and `insertBefore` (lines 22, 30, 38, 46) are browser code. Each is a function parameter of the wrapper. The model does not say how it changes the tree, and it never touches the counters.
- Installing the wrappers over `Node.prototype` (lines 17-18, 25-26, 33-34, 41-42) is a rewrite of a host object at load time and is not modelled. Running the script a second time is not modelled either: the model has one record and one set of wrappers, installed once.
- Errors thrown by the host operations are not modelled. The wrappers neither catch nor inspect them. The counters were already bumped before the host ran either way.
- Cyclic parent chains are excluded by `WellFormed`, which a real DOM tree always satisfies. On a cycle the source recurses without end.
- `nodeName` is an abstract string compared with `"HTML"`. The model has no case rules, such as lower-case names in XHTML documents.
- Node references outside the tree snapshot are excluded by a precondition. Values that are not nodes at all, such as `undefined`, are not modelled.
- `Intercept`, `NodeStats`: the counters are unbounded `nat`s. The source's counters are JavaScript Numbers, and above 2^53 `++` (lines 20-21, 28-29, 36-37, 44-45) no longer changes them. Past that point the "+1" of `Intercept` and the balance lemmas do not describe the source.
- `IsAttached`, `Classify`: the recursion at line 14 is limited by the engine's call stack. On a deep enough parent chain it throws a RangeError after the operation counter was bumped, the same shape as the null case. The model has no stack limit, so `Classify` fails only on null.
