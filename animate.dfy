/**
  The non-animated branch of `animatePinnedItems(items, collapse, animate = false, workspaceId)` (lines
  344-410, 509-553, 657-737): the active-path treatment or its clean-up first, then every item in turn.
  An item that is or contains the active tab is skipped on collapse; any other item caches its box
  metrics, snapshots its nested collapsed elements, caches its full height on collapse when none is
  stored, and is then collapsed to zero (with its nested elements) or restored to its native layout.
*/
module Animate {
  import opened Base
  import opened Tree
  import opened Elements
  import opened Sweeps
  import opened Measure
  import opened ActivePath

  /** Line 373: on collapse the active tab and every item containing it are left as they are. */
  predicate Skipped(t: Tree, item: NodeId, collapse: bool, active: Option<NodeId>) {
    collapse && active.Some? && Contains(t, item, active.value)
  }

  /** Lines 377-378: the box metrics of the item are cached. */
  function CacheItem(t: Tree, L: Layout, m: Els, item: NodeId): (r: Els)
    requires item in m
    ensures r.Keys == m.Keys
  {
    m[item := CacheOriginalBox(m[item], L.computed(item, m[item]))]
  }

  /** Lines 404-406: on collapse with no stored full height, measure it and store it. */
  function CacheFullHeight(t: Tree, L: Layout, m: Els, item: NodeId, snaps: seq<Snapshot>, collapse: bool): (r: Els)
    requires item in m
    ensures r.Keys == m.Keys
  {
    if collapse && m[item].fullHeight.None? then
      var ms := MeasureFullHeight(t, L, m, item, snaps);
      ms.els[item := ms.els[item].(fullHeight := Some(ms.height))]
    else m
  }

  /** One item of the non-animated branch (lines 362-410, 657-737 with the collapse-path dead code removed). */
  function ItemStep(t: Tree, L: Layout, m: Els, item: NodeId, collapse: bool, active: Option<NodeId>): (r: Els)
    ensures r.Keys == m.Keys
  {
    if item !in m || Skipped(t, item, collapse, active) then m
    else
      var m1 := CacheItem(t, L, m, item);
      var snaps := NestedCollapsed(t, m1, item);
      var m2 := CacheFullHeight(t, L, m1, item, snaps, collapse);
      if collapse then
        ForEach(t, m2[item := CollapseToZero(m2[item])], Ids(snaps), CollapseNested(L.computed))
      else
        ForEach(t, m2[item := FinalizeExpanded(m2[item], HasIcon(t, item))], Ids(snaps), FinalizeNestedOp)
  }

  /** `items.forEach(...)`. */
  function Items(t: Tree, L: Layout, m: Els, items: seq<NodeId>, collapse: bool, active: Option<NodeId>): (r: Els)
    ensures r.Keys == m.Keys
    decreases |items|
  {
    if items == [] then m else Items(t, L, ItemStep(t, L, m, items[0], collapse, active), items[1..], collapse, active)
  }

  /**
    Lines 352-359: on collapse with an active tab whose closest folder lies in the section, the active
    path is treated; on expand with a section, the clean-up runs; otherwise nothing.
  */
  function Prepare(t: Tree, m: Els, collapse: bool, active: Option<NodeId>, section: Option<NodeId>): (r: Els)
    ensures r.Keys == m.Keys
  {
    if collapse && active.Some? then
      var f := ClosestFolder(t, active.value);
      if f.Some? && section.Some? && Contains(t, section.value, f.value) then HandleActive(t, m, active, section) else m
    else if !collapse && section.Some? then Cleanup(t, m, active, section)
    else m
  }

  /** `animatePinnedItems` with `animate` false. */
  function AnimateImmediate(t: Tree, L: Layout, m: Els, items: seq<NodeId>, collapse: bool,
                            active: Option<NodeId>, section: Option<NodeId>): (r: Els)
    ensures r.Keys == m.Keys
  {
    Items(t, L, Prepare(t, m, collapse, active, section), items, collapse, active)
  }

  /**
    Lines 827-829: the expand target is the largest of the stored height (0 when none), the height
    measured now, and the current height (the stored one, or the one measured before when none).
  */
  function ExpandTarget(stored: Option<nat>, measuredBefore: nat, measuredNow: nat): (r: nat)
    ensures stored.Some? ==> r >= stored.value
    ensures r >= measuredNow
    ensures stored.None? ==> r >= measuredBefore
    ensures r == measuredNow || (stored.Some? && r == stored.value) || (stored.None? && r == measuredBefore)
  {
    var storedHeight := if stored.Some? then stored.value else 0;
    var current := if stored.Some? then stored.value else measuredBefore;
    var hi := if storedHeight >= measuredNow then storedHeight else measuredNow;
    if hi >= current then hi else current
  }

  // ---------------------------------------------------------------------------------------------
  // Properties of one item
  // ---------------------------------------------------------------------------------------------

  /** The skipped items are left exactly as they are. */
  lemma SkippedUnchanged(t: Tree, L: Layout, m: Els, item: NodeId, collapse: bool, active: Option<NodeId>)
    requires Skipped(t, item, collapse, active)
    ensures ItemStep(t, L, m, item, collapse, active) == m
  {
  }

  /** The nested snapshot never lists the item itself, and lists only elements inside it. */
  lemma SnapsInside(t: Tree, m: Els, item: NodeId, x: NodeId)
    requires x in Ids(NestedCollapsed(t, m, item))
    ensures x != item && Contains(t, item, x)
  {
  }

  /**
    The full height is cached only when absent: a stored height is kept, and a missing one becomes the
    item's scroll height in the measuring state. Nothing else of the item changes.
  */
  lemma FullHeightCachedOnce(t: Tree, L: Layout, m: Els, item: NodeId, snaps: seq<Snapshot>)
    requires Valid(t) && item in m && item !in Ids(snaps)
    ensures var e := CacheFullHeight(t, L, m, item, snaps, true)[item];
            && e.fullHeight == (if m[item].fullHeight.Some? then m[item].fullHeight
                                else Some(L.scrollHeight(item, MeasuringState(t, m, item, snaps))))
            && e.(fullHeight := m[item].fullHeight) == m[item]
  {
    if m[item].fullHeight.None? {
      assert HiddenContainer(t, m, item) != Some(item);
      MeasureFrame(t, L, m, item, snaps, item);
    }
  }

  /** On expand no height is measured or cached. */
  lemma ExpandCachesNothing(t: Tree, L: Layout, m: Els, item: NodeId, snaps: seq<Snapshot>)
    requires item in m
    ensures CacheFullHeight(t, L, m, item, snaps, false) == m
  {
  }

  /** After a collapse step the item is collapsed to zero with its box metrics cached and a full height stored. */
  lemma CollapseZeroesItem(t: Tree, L: Layout, m: Els, item: NodeId, active: Option<NodeId>)
    requires Valid(t) && item in m && !Skipped(t, item, true, active)
    ensures var e := ItemStep(t, L, m, item, true, active)[item];
            CollapsedToZero(e) && e.original.Some? && e.fullHeight.Some?
  {
    var m1 := CacheItem(t, L, m, item);
    var snaps := NestedCollapsed(t, m1, item);
    var m2 := CacheFullHeight(t, L, m1, item, snaps, true);
    var m3 := m2[item := CollapseToZero(m2[item])];
    FullHeightCachedOnce(t, L, m1, item, snaps);
    assert m2[item].original.Some?;
    forall k | 0 <= k < |Ids(snaps)| ensures item !in Footprint(t, CollapseNested(L.computed), Ids(snaps)[k]) {
      SnapsInside(t, m1, item, Ids(snaps)[k]);
    }
    ForEachFrame(t, m3, Ids(snaps), CollapseNested(L.computed), item);
  }

  /** After a collapse step every nested collapsed element is collapsed to zero with its box metrics cached. */
  lemma CollapseZeroesNested(t: Tree, L: Layout, m: Els, item: NodeId, active: Option<NodeId>, x: NodeId)
    requires NoDup(t.order) && item in m && !Skipped(t, item, true, active)
    requires x in m && x in Ids(NestedCollapsed(t, CacheItem(t, L, m, item), item))
    ensures var e := ItemStep(t, L, m, item, true, active)[x];
            CollapsedToZero(e) && e.original.Some?
  {
    var m1 := CacheItem(t, L, m, item);
    var snaps := NestedCollapsed(t, m1, item);
    var m2 := CacheFullHeight(t, L, m1, item, snaps, true);
    SnapsInside(t, m1, item, x);
    ForEachAt(t, m2[item := CollapseToZero(m2[item])], Ids(snaps), CollapseNested(L.computed), x);
  }

  /**
    After an expand step the item is back to its native layout without the animation class; when it
    carried `zen-pinned-collapse-active` it has lost every pinned-area marker and `collapsed`, and its
    icon shows open.
  */
  lemma ExpandRestoresItem(t: Tree, L: Layout, m: Els, item: NodeId, active: Option<NodeId>)
    requires item in m
    ensures var e := ItemStep(t, L, m, item, false, active)[item];
            && NativeLayout(e) && !e.animTarget
            && (CollapseActive in m[item].attrs ==>
                  CollapseActive !in e.attrs && CollapseCollapsed !in e.attrs && HasActive !in e.attrs
                  && Collapsed !in e.attrs
                  && (HasIcon(t, item) ==> IconState in e.attrs && e.attrs[IconState] == "open"
                                           && IconActive in e.attrs && e.attrs[IconActive] == "false"))
  {
    var m1 := CacheItem(t, L, m, item);
    var snaps := NestedCollapsed(t, m1, item);
    var m3 := m1[item := FinalizeExpanded(m1[item], HasIcon(t, item))];
    forall k | 0 <= k < |Ids(snaps)| ensures item !in Footprint(t, FinalizeNestedOp, Ids(snaps)[k]) {
      SnapsInside(t, m1, item, Ids(snaps)[k]);
    }
    ForEachFrame(t, m3, Ids(snaps), FinalizeNestedOp, item);
  }

  /** After an expand step every nested element that was collapsed is back to its native layout. */
  lemma ExpandRestoresNested(t: Tree, L: Layout, m: Els, item: NodeId, active: Option<NodeId>, x: NodeId)
    requires NoDup(t.order) && item in m
    requires x in m && x in Ids(NestedCollapsed(t, CacheItem(t, L, m, item), item))
    ensures var e := ItemStep(t, L, m, item, false, active)[x];
            NativeLayout(e) && !e.animTarget
  {
    var m1 := CacheItem(t, L, m, item);
    var snaps := NestedCollapsed(t, m1, item);
    SnapsInside(t, m1, item, x);
    ForEachAt(t, m1[item := FinalizeExpanded(m1[item], HasIcon(t, item))], Ids(snaps), FinalizeNestedOp, x);
  }

  /** Caching and measuring change nothing outside the item. */
  lemma CachingFrame(t: Tree, L: Layout, m: Els, item: NodeId, collapse: bool, x: NodeId)
    requires Valid(t) && item in m && x in m && !Contains(t, item, x)
    ensures var m1 := CacheItem(t, L, m, item);
            CacheFullHeight(t, L, m1, item, NestedCollapsed(t, m1, item), collapse)[x] == m[x]
  {
    var m1 := CacheItem(t, L, m, item);
    var snaps := NestedCollapsed(t, m1, item);
    if collapse && m1[item].fullHeight.None? {
      if HiddenContainer(t, m1, item).Some? {
        ContainerContained(t, item);
      }
      MeasureFrame(t, L, m1, item, snaps, x);
    }
  }

  /** One item step changes nothing outside the item. */
  lemma ItemStepFrame(t: Tree, L: Layout, m: Els, item: NodeId, collapse: bool, active: Option<NodeId>, x: NodeId)
    requires Valid(t) && x in m && !Contains(t, item, x)
    ensures ItemStep(t, L, m, item, collapse, active)[x] == m[x]
  {
    if item in m && !Skipped(t, item, collapse, active) {
      var m1 := CacheItem(t, L, m, item);
      var snaps := NestedCollapsed(t, m1, item);
      var m2 := CacheFullHeight(t, L, m1, item, snaps, collapse);
      CachingFrame(t, L, m, item, collapse, x);
      var op := if collapse then CollapseNested(L.computed) else FinalizeNestedOp;
      var m3 := if collapse then m2[item := CollapseToZero(m2[item])] else m2[item := FinalizeExpanded(m2[item], HasIcon(t, item))];
      assert x !in Ids(snaps);
      ForEachFrame(t, m3, Ids(snaps), op, x);
    }
  }

  // ---------------------------------------------------------------------------------------------
  // Properties of the whole branch
  // ---------------------------------------------------------------------------------------------

  /** Item `i` of the list can change `x`: `x` lies inside it and it is not skipped. */
  ghost predicate Reaches(t: Tree, item: NodeId, collapse: bool, active: Option<NodeId>, x: NodeId) {
    Contains(t, item, x) && !Skipped(t, item, collapse, active)
  }

  /** Items that cannot reach `x` leave it alone. */
  lemma {:induction false} ItemsFrame(t: Tree, L: Layout, m: Els, items: seq<NodeId>, collapse: bool,
                                      active: Option<NodeId>, x: NodeId)
    requires Valid(t) && x in m
    requires forall k :: 0 <= k < |items| ==> !Reaches(t, items[k], collapse, active, x)
    ensures Items(t, L, m, items, collapse, active)[x] == m[x]
    decreases |items|
  {
    if items != [] {
      if !Skipped(t, items[0], collapse, active) {
        ItemStepFrame(t, L, m, items[0], collapse, active, x);
      }
      forall k | 0 <= k < |items[1..]| ensures !Reaches(t, items[1..][k], collapse, active, x) {
        assert items[1..][k] == items[k + 1];
      }
      ItemsFrame(t, L, ItemStep(t, L, m, items[0], collapse, active), items[1..], collapse, active, x);
    }
  }

  /**
    On collapse every item that is not skipped ends collapsed to zero, provided no later item in the
    list contains it (the pinned items are siblings).
  */
  lemma {:induction false} CollapseZeroesItems(t: Tree, L: Layout, m: Els, items: seq<NodeId>, active: Option<NodeId>, i: nat)
    requires Valid(t) && i < |items| && items[i] in m && !Skipped(t, items[i], true, active)
    requires forall k :: i < k < |items| ==> !Reaches(t, items[k], true, active, items[i])
    ensures CollapsedToZero(Items(t, L, m, items, true, active)[items[i]])
    decreases |items|
  {
    var m1 := ItemStep(t, L, m, items[0], true, active);
    if i == 0 {
      CollapseZeroesItem(t, L, m, items[0], active);
      forall k | 0 <= k < |items[1..]| ensures !Reaches(t, items[1..][k], true, active, items[0]) {
        assert items[1..][k] == items[k + 1];
      }
      ItemsFrame(t, L, m1, items[1..], true, active, items[0]);
    } else {
      forall k | i - 1 < k < |items[1..]| ensures !Reaches(t, items[1..][k], true, active, items[i]) {
        assert items[1..][k] == items[k + 1];
      }
      assert items[1..][i - 1] == items[i];
      CollapseZeroesItems(t, L, m1, items[1..], active, i - 1);
    }
  }

  /**
    The active tab stays visible through a collapse: when its folder chain in the section is not empty,
    it ends with opacity, height, max-height and overflow unset and without `hidden`, whatever the items.
  */
  lemma ActiveStaysVisible(t: Tree, L: Layout, m: Els, items: seq<NodeId>, a: NodeId, s: NodeId)
    requires Valid(t) && a in m && FolderChain(t, a, s) != []
    ensures var e := AnimateImmediate(t, L, m, items, true, Some(a), Some(s))[a];
            && e.style.opacity == "" && e.style.height == "" && e.style.maxHeight == "" && e.style.overflow == ""
            && Hidden !in e.attrs
  {
    ActiveShown(t, m, a, s);
    PrepareTreatsPath(t, m, a, s);
    ItemsFrame(t, L, HandleActive(t, m, Some(a), Some(s)), items, true, Some(a), a);
  }

  /** With a folder chain in the section, the collapse starts with the active-path treatment. */
  lemma PrepareTreatsPath(t: Tree, m: Els, a: NodeId, s: NodeId)
    requires FolderChain(t, a, s) != []
    ensures Prepare(t, m, true, Some(a), Some(s)) == HandleActive(t, m, Some(a), Some(s))
  {
    var chain := FolderChain(t, a, s);
    assert Some(chain[0]) == ClosestFolder(t, a);
  }

  /**
    Every chain folder ends the collapse exactly as the active-path treatment left it: an item that
    contains a chain folder contains the active tab too, and is skipped.
  */
  lemma ChainUntouchedByItems(t: Tree, L: Layout, m: Els, items: seq<NodeId>, a: NodeId, s: NodeId, x: NodeId)
    requires Valid(t) && x in m && x in FolderChain(t, a, s)
    ensures AnimateImmediate(t, L, m, items, true, Some(a), Some(s))[x] == HandleActive(t, m, Some(a), Some(s))[x]
  {
    PrepareTreatsPath(t, m, a, s);
    assert Contains(t, x, a);
    forall k | 0 <= k < |items| ensures !Reaches(t, items[k], true, Some(a), x) {
      if Contains(t, items[k], x) {
        ContainsTransitive(t, items[k], x, a);
      }
    }
    ItemsFrame(t, L, HandleActive(t, m, Some(a), Some(s)), items, true, Some(a), x);
  }

  /** One collapse step keeps a concealed element concealed, whether it is the item, nested in it or elsewhere. */
  lemma ItemStepKeepsConcealed(t: Tree, L: Layout, m: Els, item: NodeId, active: Option<NodeId>, x: NodeId)
    requires Valid(t) && x in m && Concealed(m[x])
    ensures Concealed(ItemStep(t, L, m, item, true, active)[x])
  {
    if item in m && !Skipped(t, item, true, active) {
      var m1 := CacheItem(t, L, m, item);
      var snaps := NestedCollapsed(t, m1, item);
      var m2 := CacheFullHeight(t, L, m1, item, snaps, true);
      CachingKeepsConcealed(t, L, m, item, x);
      var m3 := m2[item := CollapseToZero(m2[item])];
      assert Concealed(m3[x]);
      ConcealedCollapseKeeps(t, L.computed);
      ForEachKeeps(t, m3, Ids(snaps), CollapseNested(L.computed), x, Concealed);
    }
  }

  /** Caching the box and measuring the full height keep a concealed element concealed. */
  lemma CachingKeepsConcealed(t: Tree, L: Layout, m: Els, item: NodeId, x: NodeId)
    requires Valid(t) && item in m && x in m && Concealed(m[x])
    ensures var m1 := CacheItem(t, L, m, item);
            Concealed(CacheFullHeight(t, L, m1, item, NestedCollapsed(t, m1, item), true)[x])
  {
    var m1 := CacheItem(t, L, m, item);
    var snaps := NestedCollapsed(t, m1, item);
    assert Concealed(m1[x]);
    if m1[item].fullHeight.None? {
      ContainerNotNested(t, m1, item);
      MeasureLeavesStateIntact(t, L, m1, item, snaps);
    }
  }

  lemma ConcealedCollapseKeeps(t: Tree, computed: (NodeId, Element) -> Box)
    ensures OpKeeps(t, CollapseNested(computed), Concealed)
  {
  }

  lemma {:induction false} ItemsKeepConcealed(t: Tree, L: Layout, m: Els, items: seq<NodeId>, active: Option<NodeId>, x: NodeId)
    requires Valid(t) && x in m && Concealed(m[x])
    ensures Concealed(Items(t, L, m, items, true, active)[x])
    decreases |items|
  {
    if items != [] {
      ItemStepKeepsConcealed(t, L, m, items[0], active, x);
      ItemsKeepConcealed(t, L, ItemStep(t, L, m, items[0], true, active), items[1..], active, x);
    }
  }

  /**
    Every sibling hidden at a chain level stays hidden through the collapse: it keeps
    `zen-pinned-sibling-hidden` and zero extent whatever the items (an item step on it or around it
    collapses it to zero again and puts back what it measured).
  */
  lemma SiblingStaysConcealed(t: Tree, L: Layout, m: Els, items: seq<NodeId>, a: NodeId, s: NodeId, k: nat, x: NodeId)
    requires Valid(t) && k < |FolderChain(t, a, s)| && x in m && ChildAt(t, FolderChain(t, a, s)[k], x)
    requires Classify(t, FolderChain(t, a, s), a, x) == Off
    ensures Concealed(AnimateImmediate(t, L, m, items, true, Some(a), Some(s))[x])
  {
    SiblingConcealed(t, m, a, s, k, x);
    PrepareTreatsPath(t, m, a, s);
    ItemsKeepConcealed(t, L, HandleActive(t, m, Some(a), Some(s)), items, Some(a), x);
  }

  // ---------------------------------------------------------------------------------------------
  // Collapse, then expand
  // ---------------------------------------------------------------------------------------------

  /** Every write of an expand step keeps `P`. */
  ghost predicate ExpandKeeps(t: Tree, P: Element -> bool) {
    && (forall e, b :: P(e) ==> P(CacheOriginalBox(e, b)))
    && (forall e, icon :: P(e) ==> P(FinalizeExpanded(e, icon)))
    && OpKeeps(t, FinalizeNestedOp, P)
  }

  lemma ItemStepExpandKeeps(t: Tree, L: Layout, m: Els, item: NodeId, active: Option<NodeId>, x: NodeId, P: Element -> bool)
    requires x in m && P(m[x]) && ExpandKeeps(t, P)
    ensures P(ItemStep(t, L, m, item, false, active)[x])
  {
    if item in m {
      var m1 := CacheItem(t, L, m, item);
      var snaps := NestedCollapsed(t, m1, item);
      assert P(m1[x]);
      var m3 := m1[item := FinalizeExpanded(m1[item], HasIcon(t, item))];
      assert P(m3[x]);
      ForEachKeeps(t, m3, Ids(snaps), FinalizeNestedOp, x, P);
    }
  }

  lemma {:induction false} ItemsExpandKeep(t: Tree, L: Layout, m: Els, items: seq<NodeId>, active: Option<NodeId>,
                                           x: NodeId, P: Element -> bool)
    requires x in m && P(m[x]) && ExpandKeeps(t, P)
    ensures P(Items(t, L, m, items, false, active)[x])
    decreases |items|
  {
    if items != [] {
      ItemStepExpandKeeps(t, L, m, items[0], active, x, P);
      ItemsExpandKeep(t, L, ItemStep(t, L, m, items[0], false, active), items[1..], active, x, P);
    }
  }

  lemma IconOpenExpandKeeps(t: Tree)
    ensures ExpandKeeps(t, IconOpen)
  {
    forall e, icon | IconOpen(e) ensures IconOpen(FinalizeExpanded(e, icon)) {
      if CollapseActive in e.attrs && !icon {
        var stripped := e.attrs - {CollapseActive, CollapseCollapsed, HasActive, Collapsed};
        assert stripped[IconState] == e.attrs[IconState] && stripped[IconActive] == e.attrs[IconActive];
      }
    }
    forall n, e | IconOpen(e) ensures IconOpen(Apply(t, FinalizeNestedOp, n, e)) {
      assert Apply(t, FinalizeNestedOp, n, e).attrs == e.attrs;
    }
  }

  lemma ReopenedExpandKeeps(t: Tree)
    ensures ExpandKeeps(t, Reopened)
  {
    forall e, icon | Reopened(e) ensures Reopened(FinalizeExpanded(e, icon)) {
      assert FinalizeExpanded(e, icon).attrs == e.attrs;
    }
    forall n, e | Reopened(e) ensures Reopened(Apply(t, FinalizeNestedOp, n, e)) {
      assert Apply(t, FinalizeNestedOp, n, e).attrs == e.attrs;
    }
  }

  lemma RevealedExpandKeeps(t: Tree)
    ensures ExpandKeeps(t, Revealed)
  {
    forall e, icon | Revealed(e) ensures Revealed(FinalizeExpanded(e, icon)) {
      var a := FinalizeExpanded(e, icon).attrs;
      assert a == e.attrs || a == (e.attrs - {CollapseActive, CollapseCollapsed, HasActive, Collapsed})
          || a == (e.attrs - {CollapseActive, CollapseCollapsed, HasActive, Collapsed})[IconState := "open"][IconActive := "false"];
    }
    forall n, e | Revealed(e) ensures Revealed(Apply(t, FinalizeNestedOp, n, e)) {
      assert Apply(t, FinalizeNestedOp, n, e).attrs == e.attrs;
    }
  }

  /**
    On expand every listed item ends in its native layout without the animation class, whatever it
    was before and whatever the other items are: later steps never put a style back on it.
  */
  lemma {:induction false} ExpandSettlesItems(t: Tree, L: Layout, m: Els, items: seq<NodeId>, active: Option<NodeId>, i: nat)
    requires i < |items| && items[i] in m
    ensures Settled(Items(t, L, m, items, false, active)[items[i]])
    decreases |items|
  {
    var m1 := ItemStep(t, L, m, items[0], false, active);
    assert ExpandKeeps(t, Settled);
    if i == 0 {
      ExpandRestoresItem(t, L, m, items[0], active);
      ItemsExpandKeep(t, L, m1, items[1..], active, items[0], Settled);
    } else {
      assert items[1..][i - 1] == items[i];
      ExpandSettlesItems(t, L, m1, items[1..], active, i - 1);
    }
  }

  /**
    Collapse then expand, for a chain folder below the section: it ends with neither pinned-area marker
    and without `collapsed`, and its icon shows open and inactive, whatever tab the expand is given.
  */
  lemma ChainReopened(t: Tree, L: Layout, m: Els, items: seq<NodeId>, a: NodeId, s: NodeId,
                      expandActive: Option<NodeId>, x: NodeId)
    requires Valid(t) && x in m && x in FolderChain(t, a, s) && x != s
    ensures var collapsed := AnimateImmediate(t, L, m, items, true, Some(a), Some(s));
            var e := AnimateImmediate(t, L, collapsed, items, false, expandActive, Some(s))[x];
            Reopened(e) && (HasIcon(t, x) ==> IconOpen(e))
  {
    var m1 := AnimateImmediate(t, L, m, items, true, Some(a), Some(s));
    assert CollapseActive in m1[x].attrs by {
      ChainUntouchedByItems(t, L, m, items, a, s, x);
      ChainMarked(t, m, a, s, x);
    }
    var m2 := Cleanup(t, m1, expandActive, Some(s));
    assert Reopened(m2[x]) && (HasIcon(t, x) ==> IconOpen(m2[x])) by {
      CleanupInside(t, m1, expandActive, s, x);
    }
    ExpandStartsWithCleanup(t, L, m1, items, expandActive, s);
    ReopenedExpandKeeps(t);
    ItemsExpandKeep(t, L, m2, items, expandActive, x, Reopened);
    if HasIcon(t, x) {
      IconOpenExpandKeeps(t);
      ItemsExpandKeep(t, L, m2, items, expandActive, x, IconOpen);
    }
  }

  /** With a section, the expand starts with the clean-up. */
  lemma ExpandStartsWithCleanup(t: Tree, L: Layout, m: Els, items: seq<NodeId>, active: Option<NodeId>, s: NodeId)
    ensures AnimateImmediate(t, L, m, items, false, active, Some(s)) == Items(t, L, Cleanup(t, m, active, Some(s)), items, false, active)
  {
  }

  /** `x` is a child of the chain level `k` that is off the path: a sibling the collapse hides. */
  ghost predicate OffPathChild(t: Tree, a: NodeId, s: NodeId, k: nat, x: NodeId) {
    k < |FolderChain(t, a, s)| && ChildAt(t, FolderChain(t, a, s)[k], x) && Classify(t, FolderChain(t, a, s), a, x) == Off
  }

  /** The clean-up that starts the expand shows a sibling the collapse left hidden. */
  lemma CleanupRevealsSibling(t: Tree, L: Layout, m: Els, items: seq<NodeId>, a: NodeId, s: NodeId,
                              expandActive: Option<NodeId>, k: nat, x: NodeId)
    requires Valid(t) && x in m && OffPathChild(t, a, s, k, x)
    ensures var collapsed := AnimateImmediate(t, L, m, items, true, Some(a), Some(s));
            Revealed(Cleanup(t, collapsed, expandActive, Some(s))[x])
  {
    var m1 := AnimateImmediate(t, L, m, items, true, Some(a), Some(s));
    SiblingStaysConcealed(t, L, m, items, a, s, k, x);
    ChildInside(t, a, s, k, x);
    CleanupInside(t, m1, expandActive, s, x);
  }

  /**
    Collapse then expand, for a sibling hidden at a chain level: it ends without the sibling marker and
    with opacity, height, max-height and overflow unset, whatever tab the expand is given.
  */
  lemma SiblingRevealed(t: Tree, L: Layout, m: Els, items: seq<NodeId>, a: NodeId, s: NodeId,
                        expandActive: Option<NodeId>, k: nat, x: NodeId)
    requires Valid(t) && x in m && OffPathChild(t, a, s, k, x)
    ensures var collapsed := AnimateImmediate(t, L, m, items, true, Some(a), Some(s));
            Revealed(AnimateImmediate(t, L, collapsed, items, false, expandActive, Some(s))[x])
  {
    var m1 := AnimateImmediate(t, L, m, items, true, Some(a), Some(s));
    var m2 := Cleanup(t, m1, expandActive, Some(s));
    CleanupRevealsSibling(t, L, m, items, a, s, expandActive, k, x);
    ExpandStartsWithCleanup(t, L, m1, items, expandActive, s);
    RevealedExpandKeeps(t);
    ItemsExpandKeep(t, L, m2, items, expandActive, x, Revealed);
  }
}
