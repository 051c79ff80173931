/**
  The element state of the whole pinned area, the `querySelectorAll` queries the collapse logic makes
  over it, and the `forEach` passes it runs over their results. A pass applies one `Op` to each listed
  element in turn; an id with no element in the map stands for null and is passed over.
*/
module Sweeps {
  import opened Base
  import opened Tree
  import opened Elements

  /** Every element's mutable state, by identity. */
  type Els = map<NodeId, Element>

  /**
    Layout as the browser reports it; the model reads it and never computes it. `computed` is
    `getComputedStyle` (it depends on the element's own inline style and attributes), `scrollHeight`
    the rendered height of an element given the state of the whole area.
  */
  datatype Layout = Layout(computed: (NodeId, Element) -> Box, scrollHeight: (NodeId, Els) -> nat)

  /** The selectors the logic queries with. */
  datatype Sel =
    | SiblingHiddenSel   // `[zen-pinned-sibling-hidden]`
    | MarkedFolderSel    // `zen-folder[zen-pinned-collapse-active]`
    | FolderSel          // `zen-folder`
    | FolderActiveSel    // `[folder-active]`
    | CollapsedItemSel   // `zen-folder, [is="tabbrowser-tab"], .tabbrowser-tab` with max-height `0px`

  predicate Matches(t: Tree, sel: Sel, n: NodeId, e: Element) {
    match sel
    case SiblingHiddenSel => SiblingHidden in e.attrs
    case MarkedFolderSel => IsFolder(t, n) && CollapseActive in e.attrs
    case FolderSel => IsFolder(t, n)
    case FolderActiveSel => FolderActive in e.attrs
    case CollapsedItemSel => (IsFolder(t, n) || IsTab(t, n)) && e.style.maxHeight == "0px"
  }

  /** The elements of `s`, in order, that lie strictly inside `root` and match `sel`. */
  function SelectIn(t: Tree, m: Els, root: NodeId, sel: Sel, s: seq<NodeId>): (r: seq<NodeId>)
    ensures forall n :: n in r <==> n in s && n in m && n != root && Contains(t, root, n) && Matches(t, sel, n, m[n])
    ensures NoDup(s) ==> NoDup(r)
    ensures |r| <= |s|
  {
    if s == [] then []
    else
      var init := s[..|s| - 1];
      var n := s[|s| - 1];
      assert s == init + [n];
      var r0 := SelectIn(t, m, root, sel, init);
      assert NoDup(s) ==> NoDup(init) && n !in init by {
        if NoDup(s) {
          forall i | 0 <= i < |init| ensures init[i] != n {
            assert init[i] == s[i];
          }
        }
      }
      if n in m && n != root && Contains(t, root, n) && Matches(t, sel, n, m[n]) then r0 + [n] else r0
  }

  /** `root.querySelectorAll(sel)`: the matching elements strictly inside `root`, in document order. */
  function Select(t: Tree, m: Els, root: NodeId, sel: Sel): (r: seq<NodeId>)
    ensures forall n :: n in r <==> n in t.order && n in m && n != root && Contains(t, root, n) && Matches(t, sel, n, m[n])
    ensures NoDup(t.order) ==> NoDup(r)
  {
    SelectIn(t, m, root, sel, t.order)
  }

  /** The body of each `forEach` pass. */
  datatype Op =
    | CollapseNested(computed: (NodeId, Element) -> Box) // the nested-item collapse of the immediate branch (lines 726-732)
    | FinalizeNestedOp    // the nested part of finalizeExpandedState (lines 541-550)
    | UnconcealOp         // cleanupActiveTabExpandZenStyle, first pass
    | UnmarkFolderOp      // cleanupActiveTabExpandZenStyle, second pass (corrected)
    | UnmarkFolderAsWrittenOp // cleanupActiveTabExpandZenStyle, second pass as written
    | MarkOnPathOp        // handleActiveTabCollapseZenStyle, chain marking
    | MarkIconOp(root: NodeId)  // handleActiveTabCollapseZenStyle, icons; `root` is the chain's last folder
    | ClearInlineOp       // clearStyles
    | ClearNestedFolder   // clearFolderInlineCollapseStyles, nested folders and their containers
    | UnmarkIfMarked(top: NodeId) // clearFolderInlineCollapseStyles, marker removal
    | ResetIconOp         // clearFolderInlineCollapseStyles, manual icon reset
    | UnmarkActiveOp      // `[folder-active]` clean-up

  /** Whether the pass body touches only the element it is given. */
  predicate Local(op: Op) {
    !op.ClearNestedFolder?
  }

  /** The effect of a local pass body on one element. */
  function Apply(t: Tree, op: Op, n: NodeId, e: Element): Element {
    match op
    case CollapseNested(computed) => CollapseToZero(CacheOriginalBox(e, computed(n, e)))
    case FinalizeNestedOp => FinalizeNested(e)
    case UnconcealOp => Unconceal(e)
    case UnmarkFolderOp => UnmarkFolder(e, HasIcon(t, n))
    case UnmarkFolderAsWrittenOp => UnmarkFolderAsWritten(e, HasIcon(t, n))
    case MarkOnPathOp => MarkOnPath(e)
    case MarkIconOp(root) => if HasIcon(t, n) then MarkIcon(e, n == root) else e
    case ClearInlineOp => ClearInline(e)
    case ClearNestedFolder => ClearInline(e)
    case UnmarkIfMarked(top) => if CollapseActive in e.attrs || n == top then e.(attrs := e.attrs - {CollapseActive, HasActive}) else e
    case ResetIconOp => if HasIcon(t, n) then ResetIcon(e) else e
    case UnmarkActiveOp => UnmarkActive(e)
  }

  /** A single write: `f(n)` for an element that exists, nothing for null. */
  function Put(m: Els, n: NodeId, e: Element): (r: Els)
    ensures r.Keys == m.Keys
  {
    if n in m then m[n := e] else m
  }

  /**
    The nested-folder step of `clearFolderInlineCollapseStyles` (lines 899-909): the folder and its own
    container are cleared, and the container is shown unless the folder is collapsed.
  */
  function ClearFolderAndContainer(t: Tree, m: Els, f: NodeId): (r: Els)
    requires f in m
    ensures r.Keys == m.Keys
  {
    var m1 := m[f := ClearInline(m[f])];
    match ContainerOf(t, f)
    case None => m1
    case Some(c) =>
      if c !in m1 then m1
      else
        var m2 := m1[c := ClearInline(m1[c])];
        if Collapsed in m[f].attrs then m2 else m2[c := RemoveAttr(m2[c], Hidden)]
  }

  /** One iteration of a pass. */
  function Step(t: Tree, m: Els, n: NodeId, op: Op): (r: Els)
    ensures r.Keys == m.Keys
  {
    if n !in m then m
    else if op.ClearNestedFolder? then ClearFolderAndContainer(t, m, n)
    else m[n := Apply(t, op, n, m[n])]
  }

  /** The elements one iteration may write. */
  function Footprint(t: Tree, op: Op, n: NodeId): set<NodeId> {
    if op.ClearNestedFolder? && ContainerOf(t, n).Some? then {n, ContainerOf(t, n).value} else {n}
  }

  /** `nodes.forEach(body)`, left to right. */
  function ForEach(t: Tree, m: Els, nodes: seq<NodeId>, op: Op): (r: Els)
    ensures r.Keys == m.Keys
    decreases |nodes|
  {
    if nodes == [] then m else ForEach(t, Step(t, m, nodes[0], op), nodes[1..], op)
  }

  lemma StepFrame(t: Tree, m: Els, n: NodeId, op: Op, x: NodeId)
    requires x in m && x !in Footprint(t, op, n)
    ensures Step(t, m, n, op)[x] == m[x]
  {
  }

  /** A pass leaves alone every element outside the footprints of its iterations. */
  lemma {:induction false} ForEachFrame(t: Tree, m: Els, nodes: seq<NodeId>, op: Op, x: NodeId)
    requires x in m && forall k :: 0 <= k < |nodes| ==> x !in Footprint(t, op, nodes[k])
    ensures ForEach(t, m, nodes, op)[x] == m[x]
    decreases |nodes|
  {
    if nodes != [] {
      StepFrame(t, m, nodes[0], op, x);
      forall k | 0 <= k < |nodes[1..]| ensures x !in Footprint(t, op, nodes[1..][k]) {
        assert nodes[1..][k] == nodes[k + 1];
      }
      ForEachFrame(t, Step(t, m, nodes[0], op), nodes[1..], op, x);
    }
  }

  /** A local pass over distinct elements applies its body exactly once to each listed element. */
  lemma {:induction false} ForEachAt(t: Tree, m: Els, nodes: seq<NodeId>, op: Op, x: NodeId)
    requires Local(op) && NoDup(nodes) && x in m
    ensures ForEach(t, m, nodes, op)[x] == if x in nodes then Apply(t, op, x, m[x]) else m[x]
    decreases |nodes|
  {
    if nodes != [] {
      NoDupTail(nodes);
      var m1 := Step(t, m, nodes[0], op);
      if nodes[0] == x {
        ForEachFrame(t, m1, nodes[1..], op, x);
      } else {
        ForEachAt(t, m1, nodes[1..], op, x);
      }
    }
  }

  /** Every iteration of `op` keeps `P` on every element it writes. */
  ghost predicate OpKeeps(t: Tree, op: Op, P: Element -> bool) {
    && (forall n, e :: P(e) ==> P(Apply(t, op, n, e)))
    && (op.ClearNestedFolder? ==> Keeps(P, Unhidden))
  }

  lemma StepKeeps(t: Tree, m: Els, n: NodeId, op: Op, x: NodeId, P: Element -> bool)
    requires x in m && P(m[x]) && OpKeeps(t, op, P)
    ensures P(Step(t, m, n, op)[x])
  {
    if n in m && op.ClearNestedFolder? {
      assert Keeps(P, ClearInline) by {
        forall e | P(e) ensures P(ClearInline(e)) { assert P(Apply(t, op, n, e)); }
      }
      ClearFolderKeeps(t, m, n, x, P);
    } else if n in m && n == x {
      assert P(Apply(t, op, n, m[n]));
    }
  }

  lemma ClearFolderKeeps(t: Tree, m: Els, f: NodeId, x: NodeId, P: Element -> bool)
    requires f in m && x in m && Keeps(P, ClearInline) && Keeps(P, Unhidden)
    requires P(m[x]) || (x == f && forall e :: P(ClearInline(e)))
    ensures P(ClearFolderAndContainer(t, m, f)[x])
  {
    var m1 := m[f := ClearInline(m[f])];
    assert P(m1[x]);
    match ContainerOf(t, f) {
      case None =>
      case Some(c) =>
        if c in m1 {
          var m2 := m1[c := ClearInline(m1[c])];
          assert P(m2[x]);
          if x == c {
            assert P(Unhidden(m2[c]));
          }
        }
    }
  }

  /** A property every iteration keeps survives the pass. */
  lemma {:induction false} ForEachKeeps(t: Tree, m: Els, nodes: seq<NodeId>, op: Op, x: NodeId, P: Element -> bool)
    requires x in m && P(m[x]) && OpKeeps(t, op, P)
    ensures P(ForEach(t, m, nodes, op)[x])
    decreases |nodes|
  {
    if nodes != [] {
      StepKeeps(t, m, nodes[0], op, x, P);
      ForEachKeeps(t, Step(t, m, nodes[0], op), nodes[1..], op, x, P);
    }
  }

  /** A property the iteration on `nodes[i]` establishes for that element and every iteration keeps holds after the pass. */
  lemma {:induction false} ForEachEstablishes(t: Tree, m: Els, nodes: seq<NodeId>, op: Op, i: nat, P: Element -> bool)
    requires i < |nodes| && nodes[i] in m && OpKeeps(t, op, P)
    requires forall e :: P(Apply(t, op, nodes[i], e))
    ensures P(ForEach(t, m, nodes, op)[nodes[i]])
    decreases |nodes|
  {
    var n := nodes[0];
    var m1 := Step(t, m, n, op);
    if i == 0 {
      if op.ClearNestedFolder? {
        assert forall e :: P(ClearInline(e)) by {
          forall e ensures P(ClearInline(e)) { assert P(Apply(t, op, n, e)); }
        }
        assert Keeps(P, ClearInline) by {
          forall e | P(e) ensures P(ClearInline(e)) { assert P(Apply(t, op, n, e)); }
        }
        ClearFolderKeeps(t, m, n, n, P);
      } else {
        assert P(Apply(t, op, n, m[n]));
      }
      ForEachKeeps(t, m1, nodes[1..], op, n, P);
    } else {
      assert nodes[1..][i - 1] == nodes[i];
      ForEachEstablishes(t, m1, nodes[1..], op, i - 1, P);
    }
  }

  /**
    After a pass of `ClearNestedFolder`, the container of the listed folder `nodes[i]` is in the state its
    own iteration leaves it in: cleared, and shown when the folder had no `collapsed` at that point (which
    is when it had none before the pass, since the pass never touches `collapsed`).
  */
  lemma {:induction false} ForEachClearsContainer(t: Tree, m: Els, nodes: seq<NodeId>, i: nat, c: NodeId, P: Element -> bool)
    requires i < |nodes| && nodes[i] in m && ContainerOf(t, nodes[i]) == Some(c) && c in m && c != nodes[i]
    requires Keeps(P, ClearInline) && Keeps(P, Unhidden)
    requires Collapsed in m[nodes[i]].attrs ==> forall e :: P(ClearInline(e))
    requires Collapsed !in m[nodes[i]].attrs ==> forall e :: P(Unhidden(ClearInline(e)))
    ensures P(ForEach(t, m, nodes, ClearNestedFolder)[c])
    decreases |nodes|
  {
    var op := ClearNestedFolder;
    var n := nodes[0];
    var m1 := Step(t, m, n, op);
    assert OpKeeps(t, op, P);
    if i == 0 {
      assert P(m1[c]);
      ForEachKeeps(t, m1, nodes[1..], op, c, P);
    } else {
      var f := nodes[i];
      var b := Collapsed in m[f].attrs;
      StepKeeps(t, m, n, op, f, (e: Element) => (Collapsed in e.attrs) == b);
      assert nodes[1..][i - 1] == f;
      ForEachClearsContainer(t, m1, nodes[1..], i - 1, c, P);
    }
  }
}
