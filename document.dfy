/**
  The pinned area as the script mutates it: a fixed shape and the state of every element, updated in
  place by the script's helpers. Each method runs the same loops and writes as its source function,
  except that the clean-up on expand (`CleanupActiveTabExpand`, and so `AnimatePinnedItemsImmediate`)
  also removes `collapsed` from each marked folder, the corrected write described in the README; each
  is proved to leave exactly the state the corresponding specification function describes; the
  properties of those functions are proved in the modules they live in.
*/
module Document {
  import opened Base
  import opened Tree
  import opened Elements
  import opened Sweeps
  import opened Measure
  import opened ActivePath
  import opened Animate
  import opened ClearStyles

  /** One more iteration of a pass, taken from the front of what is left. */
  lemma ForEachUnroll(t: Tree, m: Els, nodes: seq<NodeId>, i: nat, op: Op)
    requires i < |nodes|
    ensures ForEach(t, m, nodes[i..], op) == ForEach(t, Step(t, m, nodes[i], op), nodes[i + 1..], op)
  {
    assert nodes[i..][1..] == nodes[i + 1..];
  }

  /** A walk over `s` that has looked at `s[i]` has selected it or not, after what it selected before. */
  lemma SelectInNext(t: Tree, m: Els, root: NodeId, sel: Sel, s: seq<NodeId>, i: nat)
    requires i < |s|
    ensures SelectIn(t, m, root, sel, s[..i + 1]) ==
              SelectIn(t, m, root, sel, s[..i]) + (if s[i] in m && s[i] != root && Contains(t, root, s[i]) && Matches(t, sel, s[i], m[s[i]]) then [s[i]] else [])
  {
    assert s[..i + 1][..i] == s[..i];
  }

  /** Snapshots taken one element at a time, in list order. */
  lemma {:induction false} CapturesAppend(m: Els, ids: seq<NodeId>, n: NodeId)
    requires (forall k :: k in ids ==> k in m) && n in m
    ensures Captures(m, ids + [n]) == Captures(m, ids) + [Capture(n, m[n])]
    decreases |ids|
  {
    if ids != [] {
      assert (ids + [n])[1..] == ids[1..] + [n];
      CapturesAppend(m, ids[1..], n);
    }
  }

  /**
    The snapshot list grows by the element just looked at when it is a folder or tab inside the item
    whose max-height is `0px`, and otherwise stays as it was.
  */
  lemma CapturesNext(t: Tree, m: Els, item: NodeId, s: seq<NodeId>, i: nat, before: seq<Snapshot>)
    requires i < |s| && before == Captures(m, SelectIn(t, m, item, CollapsedItemSel, s[..i]))
    ensures var n := s[i];
            Captures(m, SelectIn(t, m, item, CollapsedItemSel, s[..i + 1])) ==
              if n in m && n != item && Contains(t, item, n) && (IsFolder(t, n) || IsTab(t, n)) && m[n].style.maxHeight == "0px"
              then before + [Snapshot(n, m[n].style.maxHeight, m[n].style.opacity, m[n].style.overflow,
                                      m[n].style.marginTop, m[n].style.marginBottom, m[n].style.paddingTop, m[n].style.paddingBottom)]
              else before
  {
    SelectInNext(t, m, item, CollapsedItemSel, s, i);
    var n := s[i];
    var ids := SelectIn(t, m, item, CollapsedItemSel, s[..i]);
    if n in m && n != item && Contains(t, item, n) && (IsFolder(t, n) || IsTab(t, n)) {
      CollapsedItemTest(t, n, m[n]);
    }
    if n in m && n != item && Contains(t, item, n) && Matches(t, CollapsedItemSel, n, m[n]) {
      assert SelectIn(t, m, item, CollapsedItemSel, s[..i + 1]) == ids + [n];
      CapturesAppend(m, ids, n);
    } else {
      assert SelectIn(t, m, item, CollapsedItemSel, s[..i + 1]) == ids;
    }
  }

  /** The whole walk over document order is the nested-collapsed snapshot. */
  lemma NestedCollapsedWalk(t: Tree, m: Els, item: NodeId)
    ensures NestedCollapsed(t, m, item) == Captures(m, SelectIn(t, m, item, CollapsedItemSel, t.order[..|t.order|]))
  {
    assert t.order[..|t.order|] == t.order;
  }

  /** The filter of lines 143-144 is the selector's own test. */
  lemma CollapsedItemTest(t: Tree, n: NodeId, e: Element)
    requires IsFolder(t, n) || IsTab(t, n)
    ensures Matches(t, CollapsedItemSel, n, e) <==> e.style.maxHeight == "0px"
  {
  }

  class PinnedArea {
    /** The shape of the area; the collapse logic never changes it. */
    const tree: Tree
    /** Every element's state; an id without an entry is null. */
    var els: Els

    constructor(t: Tree, m: Els)
      ensures tree == t && els == m
    {
      tree := t;
      els := m;
    }

    /** `cacheOriginalBoxMetrics(element)` (lines 105-115), `computed` being `getComputedStyle`. */
    method CacheOriginalBoxMetrics(n: NodeId, computed: (NodeId, Element) -> Box)
      modifies this
      ensures n in old(els) ==> els == old(els)[n := CacheOriginalBox(old(els)[n], computed(n, old(els)[n]))]
      ensures n !in old(els) ==> els == old(els)
    {
      if n !in els {
        return;
      }
      var e := els[n];
      if e.original.Some? {
        return;
      }
      els := els[n := e.(original := Some(computed(n, e)))];
    }

    /** `setCollapsedBoxStyles(element, collapsed)` (lines 117-133). */
    method SetCollapsedBoxStyles(n: NodeId, collapsed: bool)
      modifies this
      ensures n in old(els) ==> els == old(els)[n := WithBoxStyles(old(els)[n], collapsed)]
      ensures n !in old(els) ==> els == old(els)
    {
      if n !in els {
        return;
      }
      var e := els[n];
      var b := if collapsed then ZeroBox else OriginalOrUnset(e);
      els := els[n := e.(style := e.style.(marginTop := b.marginTop, marginBottom := b.marginBottom,
                                           paddingTop := b.paddingTop, paddingBottom := b.paddingBottom))];
    }

    /** `root.querySelectorAll(sel)`: a walk over the area in document order. */
    method QuerySelectorAll(root: NodeId, sel: Sel) returns (r: seq<NodeId>)
      ensures r == Select(tree, els, root, sel)
    {
      r := [];
      var i := 0;
      while i < |tree.order|
        invariant 0 <= i <= |tree.order|
        invariant r == SelectIn(tree, els, root, sel, tree.order[..i])
      {
        var n := tree.order[i];
        SelectInNext(tree, els, root, sel, tree.order, i);
        if n in els && n != root && Contains(tree, root, n) && Matches(tree, sel, n, els[n]) {
          r := r + [n];
        }
        i := i + 1;
      }
      assert tree.order[..i] == tree.order;
    }

    /**
      `getNestedCollapsedItems(parent)` (lines 136-156): every folder or tab inside `parent` whose
      max-height is `0px`, with its seven collapsing properties, in document order.
    */
    method GetNestedCollapsedItems(item: NodeId) returns (nested: seq<Snapshot>)
      ensures nested == NestedCollapsed(tree, els, item)
    {
      nested := [];
      var i := 0;
      while i < |tree.order|
        invariant 0 <= i <= |tree.order|
        invariant nested == Captures(els, SelectIn(tree, els, item, CollapsedItemSel, tree.order[..i]))
      {
        var n := tree.order[i];
        ghost var next := Captures(els, SelectIn(tree, els, item, CollapsedItemSel, tree.order[..i + 1]));
        CapturesNext(tree, els, item, tree.order, i, nested);
        if n in els && n != item && Contains(tree, item, n) && (IsFolder(tree, n) || IsTab(tree, n)) {
          var e := els[n];
          if e.style.maxHeight == "0px" {
            nested := nested + [Snapshot(n, e.style.maxHeight, e.style.opacity, e.style.overflow,
                                         e.style.marginTop, e.style.marginBottom, e.style.paddingTop, e.style.paddingBottom)];
          }
        }
        assert nested == next;
        i := i + 1;
      }
      NestedCollapsedWalk(tree, els, item);
    }

    /** `expandNestedForMeasurement(nestedItems)` (lines 159-169). */
    method ExpandNestedForMeasurement(nested: seq<Snapshot>)
      modifies this
      ensures els == ExpandNested(old(els), nested)
    {
      var i := 0;
      while i < |nested|
        invariant 0 <= i <= |nested|
        invariant ExpandNested(els, nested[i..]) == ExpandNested(old(els), nested)
      {
        assert nested[i..][1..] == nested[i + 1..];
        var n := nested[i].element;
        if n in els {
          var e := els[n];
          els := els[n := e.(style := e.style.(maxHeight := "", opacity := "", overflow := "",
                                               marginTop := "", marginBottom := "", paddingTop := "", paddingBottom := ""))];
        }
        i := i + 1;
      }
    }

    /** `restoreNestedCollapsed(nestedItems)` (lines 172-181). */
    method RestoreNestedCollapsed(nested: seq<Snapshot>)
      modifies this
      ensures els == RestoreNested(old(els), nested)
    {
      var i := 0;
      while i < |nested|
        invariant 0 <= i <= |nested|
        invariant RestoreNested(els, nested[i..]) == RestoreNested(old(els), nested)
      {
        assert nested[i..][1..] == nested[i + 1..];
        var s := nested[i];
        if s.element in els {
          var e := els[s.element];
          els := els[s.element := e.(style := e.style.(maxHeight := s.maxHeight, opacity := s.opacity, overflow := s.overflow,
                                                       marginTop := s.marginTop, marginBottom := s.marginBottom,
                                                       paddingTop := s.paddingTop, paddingBottom := s.paddingBottom))];
        }
        i := i + 1;
      }
    }

    /** One iteration of a `forEach` pass. */
    method StepAt(n: NodeId, op: Op)
      modifies this
      ensures els == Step(tree, old(els), n, op)
    {
      if n !in els {
        return;
      }
      if op.ClearNestedFolder? {
        var collapsed := Collapsed in els[n].attrs;
        els := els[n := ClearInline(els[n])];
        var c := ContainerOf(tree, n);
        if c.Some? && c.value in els {
          els := els[c.value := ClearInline(els[c.value])];
          if !collapsed {
            els := els[c.value := RemoveAttr(els[c.value], Hidden)];
          }
        }
      } else {
        els := els[n := Apply(tree, op, n, els[n])];
      }
    }

    /** `nodes.forEach(body)`, the body being `op`. */
    method RunPass(nodes: seq<NodeId>, op: Op)
      modifies this
      ensures els == ForEach(tree, old(els), nodes, op)
    {
      var i := 0;
      while i < |nodes|
        invariant 0 <= i <= |nodes|
        invariant ForEach(tree, els, nodes[i..], op) == ForEach(tree, old(els), nodes, op)
      {
        ForEachUnroll(tree, els, nodes, i, op);
        StepAt(nodes[i], op);
        i := i + 1;
      }
    }

    /**
      The climb of lines 188-193: from the tab's closest folder, push every folder while it lies inside
      the section, moving to the next enclosing folder.
    */
    method BuildFolderChain(active: NodeId, section: NodeId) returns (chain: seq<NodeId>)
      ensures chain == FolderChain(tree, active, section)
    {
      chain := [];
      var current := ClosestFolder(tree, active);
      while current.Some? && Contains(tree, section, current.value)
        invariant current.Some? ==> IsFolder(tree, current.value)
        invariant chain + ChainFrom(tree, current, section) == ChainFrom(tree, ClosestFolder(tree, active), section)
        decreases if current.Some? then Depth(tree, current.value) + 1 else 0
      {
        var c := current.value;
        assert ChainFrom(tree, current, section) == [c] + ChainFrom(tree, EnclosingFolder(tree, c), section);
        chain := chain + [c];
        current := EnclosingFolder(tree, c);
      }
    }

    /** Lines 255-291: one child of a chain folder's container. */
    method TreatChildAt(chain: seq<NodeId>, a: NodeId, x: NodeId)
      modifies this
      ensures els == TreatChild(tree, old(els), chain, a, x)
    {
      if x !in els || IsGroupStart(tree, x) {
        return;
      }
      var role := Classify(tree, chain, a, x);
      if role == ActiveLeaf {
        els := els[x := RevealActive(els[x])];
      } else if role == OnPath {
        els := els[x := KeepOnPath(els[x])];
        var labelContainer := LabelOf(tree, x);
        if labelContainer.Some? && labelContainer.value in els {
          els := els[labelContainer.value := Conceal(els[labelContainer.value])];
        }
      } else {
        els := els[x := Conceal(els[x])];
      }
    }

    /** Lines 246-292: one chain folder: its container is shown and every child treated. */
    method TreatLevelAt(chain: seq<NodeId>, a: NodeId, f: NodeId)
      modifies this
      ensures els == TreatLevel(tree, old(els), chain, a, f)
    {
      var container := ContainerOf(tree, f);
      if container.None? {
        return;
      }
      var c := container.value;
      if c in els {
        els := els[c := Unhidden(els[c])];
      }
      var kids := ChildrenOf(tree, c);
      ghost var target := TreatChildren(tree, els, chain, a, kids);
      var j := 0;
      while j < |kids|
        invariant 0 <= j <= |kids|
        invariant TreatChildren(tree, els, chain, a, kids[j..]) == target
      {
        assert kids[j..][1..] == kids[j + 1..];
        TreatChildAt(chain, a, kids[j]);
        j := j + 1;
      }
    }

    /** `handleActiveTabCollapseZenStyle(activeTab, pinnedSection)` (lines 184-300). */
    method HandleActiveTabCollapse(active: Option<NodeId>, section: Option<NodeId>)
      modifies this
      ensures els == HandleActive(tree, old(els), active, section)
    {
      if active.None? || section.None? {
        return;
      }
      var a := active.value;
      var chain := BuildFolderChain(a, section.value);
      if chain == [] {
        return;
      }
      RunPass(chain, MarkOnPathOp);
      if a in els {
        els := els[a := SetAttr(els[a], FolderActive, "true")];
      }
      RunPass(chain, MarkIconOp(chain[|chain| - 1]));
      assert els == MarkChain(tree, old(els), chain, a);
      ghost var target := TreatLevels(tree, els, chain, a, chain);
      var i := 0;
      while i < |chain|
        invariant 0 <= i <= |chain|
        invariant TreatLevels(tree, els, chain, a, chain[i..]) == target
      {
        assert chain[i..][1..] == chain[i + 1..];
        TreatLevelAt(chain, a, chain[i]);
        i := i + 1;
      }
      if a in els {
        els := els[a := RevealActive(els[a])];
      }
    }

    /** `cleanupActiveTabExpandZenStyle(activeTab, pinnedSection)` (lines 303-342), with the corrected folder write. */
    method CleanupActiveTabExpand(active: Option<NodeId>, section: Option<NodeId>)
      modifies this
      ensures els == Cleanup(tree, old(els), active, section)
    {
      if section.None? {
        return;
      }
      var hiddenSiblings := QuerySelectorAll(section.value, SiblingHiddenSel);
      RunPass(hiddenSiblings, UnconcealOp);
      var markedFolders := QuerySelectorAll(section.value, MarkedFolderSel);
      RunPass(markedFolders, UnmarkFolderOp);
      if active.Some? && active.value in els {
        els := els[active.value := UnmarkActive(els[active.value])];
      }
    }

    /** `measureFullHeight` (lines 386-401), `scrollHeight` read from the layout. */
    method MeasureFullHeight(item: NodeId, nested: seq<Snapshot>, L: Layout) returns (measured: nat)
      modifies this
      ensures measured == Measure.MeasureFullHeight(tree, L, old(els), item, nested).height
      ensures els == Measure.MeasureFullHeight(tree, L, old(els), item, nested).els
    {
      var wasHidden := HiddenContainer(tree, els, item);
      if wasHidden.Some? {
        els := els[wasHidden.value := RemoveAttr(els[wasHidden.value], Hidden)];
      }
      ExpandNestedForMeasurement(nested);
      measured := L.scrollHeight(item, els);
      RestoreNestedCollapsed(nested);
      if wasHidden.Some? {
        els := els[wasHidden.value := SetAttr(els[wasHidden.value], Hidden, "true")];
      }
    }

    /** One item of `animatePinnedItems` with `animate` false (lines 362-410, 657-737). */
    method AnimateItem(item: NodeId, collapse: bool, active: Option<NodeId>, L: Layout)
      modifies this
      ensures els == ItemStep(tree, L, old(els), item, collapse, active)
    {
      if item !in els || Skipped(tree, item, collapse, active) {
        return;
      }
      CacheOriginalBoxMetrics(item, L.computed);
      var nested := GetNestedCollapsedItems(item);
      if collapse && els[item].fullHeight.None? {
        var h := MeasureFullHeight(item, nested, L);
        els := els[item := els[item].(fullHeight := Some(h))];
      }
      if collapse {
        els := els[item := CollapseToZero(els[item])];
        RunPass(Ids(nested), CollapseNested(L.computed));
      } else {
        els := els[item := FinalizeExpanded(els[item], HasIcon(tree, item))];
        RunPass(Ids(nested), FinalizeNestedOp);
      }
    }

    /**
      `animatePinnedItems(items, collapse, false, workspaceId)` (lines 344-737): the active-tab
      treatment or its clean-up, then every item in turn. The active tab and the section are the
      workspace's stored tab and the section the script looks up.
    */
    method AnimatePinnedItemsImmediate(items: seq<NodeId>, collapse: bool, active: Option<NodeId>,
                                       section: Option<NodeId>, L: Layout)
      modifies this
      ensures els == AnimateImmediate(tree, L, old(els), items, collapse, active, section)
    {
      if collapse && active.Some? {
        var activeTabFolder := ClosestFolder(tree, active.value);
        if activeTabFolder.Some? && section.Some? && Contains(tree, section.value, activeTabFolder.value) {
          HandleActiveTabCollapse(active, section);
        }
      } else if !collapse && section.Some? {
        CleanupActiveTabExpand(active, section);
      }
      ghost var target := Items(tree, L, els, items, collapse, active);
      var i := 0;
      while i < |items|
        invariant 0 <= i <= |items|
        invariant Items(tree, L, els, items[i..], collapse, active) == target
      {
        assert items[i..][1..] == items[i + 1..];
        AnimateItem(items[i], collapse, active, L);
        i := i + 1;
      }
    }

    /** `clearFolderInlineCollapseStyles(folder)` (lines 867-958). */
    method ClearFolderInlineCollapseStyles(folder: NodeId)
      modifies this
      ensures els == ClearFolderInline(tree, old(els), folder)
    {
      if folder !in els {
        return;
      }
      ClearStylePasses(folder);
      ClearMarkerPasses(folder);
    }

    /** Lines 883-910: the folder, the marked elements inside, the main container and every nested folder. */
    method ClearStylePasses(folder: NodeId)
      requires folder in els
      modifies this
      ensures els == Styled(tree, old(els), folder)
    {
      els := els[folder := ClearInline(els[folder])];
      var marked := QuerySelectorAll(folder, SiblingHiddenSel);
      RunPass(marked, ClearInlineOp);
      var mainContainer := ContainerOf(tree, folder);
      if mainContainer.Some? && mainContainer.value in els {
        els := els[mainContainer.value := ClearInline(Unhidden(els[mainContainer.value]))];
      }
      assert els == Shown(tree, old(els), folder);
      var nestedFolders := QuerySelectorAll(folder, FolderSel);
      RunPass(nestedFolders, ClearNestedFolder);
    }

    /** Lines 913-958: markers removed, icons reset, `folder-active` cleared. */
    method ClearMarkerPasses(folder: NodeId)
      modifies this
      ensures els == Markers(tree, old(els), folder)
    {
      var markedFolders := QuerySelectorAll(folder, MarkedFolderSel);
      RunPass([folder] + markedFolders, UnmarkIfMarked(folder));
      var allFolders := QuerySelectorAll(folder, FolderSel);
      RunPass([folder] + allFolders, ResetIconOp);
      var activeTabs := QuerySelectorAll(folder, FolderActiveSel);
      RunPass(activeTabs, UnmarkActiveOp);
    }
  }
}
