/**
  `clearFolderInlineCollapseStyles(folder)` (lines 867-958), used when a folder is expanded by hand: the
  folder, every hidden sibling inside it, its own container, every nested folder and that folder's own
  container lose the inline collapse styles; the containers are shown (a nested one only when its folder
  is not collapsed); the pinned-area markers are removed; icons are reset to the folders' `collapsed`
  state; and every tab inside loses `folder-active`.
*/
module ClearStyles {
  import opened Base
  import opened Tree
  import opened Elements
  import opened Sweeps

  /** Lines 883-889: the folder itself, then every marked hidden sibling inside it. */
  function ClearOwnAndMarked(t: Tree, m: Els, folder: NodeId): (r: Els)
    requires folder in m
    ensures r.Keys == m.Keys
  {
    var m1 := m[folder := ClearInline(m[folder])];
    ForEach(t, m1, Select(t, m1, folder, SiblingHiddenSel), ClearInlineOp)
  }

  /** Lines 892-896: the folder's own container is shown and cleared. */
  function ShowMain(t: Tree, m: Els, folder: NodeId): (r: Els)
    ensures r.Keys == m.Keys
  {
    match ContainerOf(t, folder)
    case None => m
    case Some(c) => if c in m then m[c := ClearInline(Unhidden(m[c]))] else m
  }

  /** Lines 900-910: every nested folder and its own container. */
  function ClearNested(t: Tree, m: Els, folder: NodeId): (r: Els)
    ensures r.Keys == m.Keys
  {
    ForEach(t, m, Select(t, m, folder, FolderSel), ClearNestedFolder)
  }

  /** Lines 913-924: the folder and every marked nested folder lose both markers. */
  function UnmarkMarked(t: Tree, m: Els, folder: NodeId): (r: Els)
    ensures r.Keys == m.Keys
  {
    ForEach(t, m, [folder] + Select(t, m, folder, MarkedFolderSel), UnmarkIfMarked(folder))
  }

  /** Lines 928-952: the folder's and every nested folder's icon follows its `collapsed` attribute. */
  function ResetIcons(t: Tree, m: Els, folder: NodeId): (r: Els)
    ensures r.Keys == m.Keys
  {
    ForEach(t, m, [folder] + Select(t, m, folder, FolderSel), ResetIconOp)
  }

  /** Lines 955-958: every element inside with `folder-active` loses it and its indentation. */
  function UnmarkActiveTabs(t: Tree, m: Els, folder: NodeId): (r: Els)
    ensures r.Keys == m.Keys
  {
    ForEach(t, m, Select(t, m, folder, FolderActiveSel), UnmarkActiveOp)
  }

  /** The three marker passes that follow the style clearing. */
  function Markers(t: Tree, m: Els, folder: NodeId): (r: Els)
    ensures r.Keys == m.Keys
  {
    UnmarkActiveTabs(t, ResetIcons(t, UnmarkMarked(t, m, folder), folder), folder)
  }

  /** Lines 883-896: the folder, the marked elements inside and the folder's own container cleared. */
  function Shown(t: Tree, m: Els, folder: NodeId): (r: Els)
    requires folder in m
    ensures r.Keys == m.Keys
  {
    ShowMain(t, ClearOwnAndMarked(t, m, folder), folder)
  }

  /** Lines 883-910: every style pass. */
  function Styled(t: Tree, m: Els, folder: NodeId): (r: Els)
    requires folder in m
    ensures r.Keys == m.Keys
  {
    ClearNested(t, Shown(t, m, folder), folder)
  }

  /** `clearFolderInlineCollapseStyles(folder)`; nothing for a null folder. */
  function ClearFolderInline(t: Tree, m: Els, folder: NodeId): (r: Els)
    ensures r.Keys == m.Keys
  {
    if folder !in m then m
    else Markers(t, Styled(t, m, folder), folder)
  }

  /** An element strictly inside the folder. */
  predicate Inside(t: Tree, folder: NodeId, x: NodeId) {
    x in t.order && x != folder && Contains(t, folder, x)
  }

  // ---------------------------------------------------------------------------------------------
  // Passes that keep a property
  // ---------------------------------------------------------------------------------------------

  /** Every pass of the clearing keeps `P`. */
  ghost predicate AllKeep(t: Tree, folder: NodeId, P: Element -> bool) {
    && OpKeeps(t, ClearInlineOp, P) && OpKeeps(t, ClearNestedFolder, P)
    && OpKeeps(t, UnmarkIfMarked(folder), P) && OpKeeps(t, ResetIconOp, P) && OpKeeps(t, UnmarkActiveOp, P)
  }

  lemma ClearedKept(t: Tree, folder: NodeId)
    ensures AllKeep(t, folder, InlineCleared) && AllKeep(t, folder, ShownCleared)
  {
  }

  lemma MarksKept(t: Tree, folder: NodeId)
    ensures AllKeep(t, folder, HasCollapsed) && AllKeep(t, folder, LacksCollapsed) && AllKeep(t, folder, LacksSiblingMark)
  {
  }

  /** The three marker passes keep any property every pass keeps. */
  lemma MarkersKeep(t: Tree, m: Els, folder: NodeId, x: NodeId, P: Element -> bool)
    requires x in m && P(m[x]) && AllKeep(t, folder, P)
    ensures P(Markers(t, m, folder)[x])
  {
    var l1 := [folder] + Select(t, m, folder, MarkedFolderSel);
    ForEachKeeps(t, m, l1, UnmarkIfMarked(folder), x, P);
    var m1 := UnmarkMarked(t, m, folder);
    ForEachKeeps(t, m1, [folder] + Select(t, m1, folder, FolderSel), ResetIconOp, x, P);
    var m2 := ResetIcons(t, m1, folder);
    ForEachKeeps(t, m2, Select(t, m2, folder, FolderActiveSel), UnmarkActiveOp, x, P);
  }

  /** The folder heads the marker lists, which hold no element twice. */
  lemma HeadedDistinct(t: Tree, m: Els, folder: NodeId, sel: Sel)
    requires NoDup(t.order)
    ensures NoDup([folder] + Select(t, m, folder, sel))
  {
    var l := [folder] + Select(t, m, folder, sel);
    forall i, j | 0 <= i < j < |l| ensures l[i] != l[j] {
      if i == 0 {
        assert l[j] in Select(t, m, folder, sel);
      } else {
        assert l[i] == Select(t, m, folder, sel)[i - 1] && l[j] == Select(t, m, folder, sel)[j - 1];
      }
    }
  }

  /** The style passes on the folder: it is cleared, and `collapsed` is as it was. */
  lemma FolderStyles(t: Tree, m: Els, folder: NodeId, P: Element -> bool)
    requires folder in m && OpKeeps(t, ClearInlineOp, P) && OpKeeps(t, ClearNestedFolder, P)
    requires P(ClearInline(m[folder]))
    ensures P(Styled(t, m, folder)[folder])
  {
    var m1 := m[folder := ClearInline(m[folder])];
    ForEachKeeps(t, m1, Select(t, m1, folder, SiblingHiddenSel), ClearInlineOp, folder, P);
    var m2 := ClearOwnAndMarked(t, m, folder);
    ShowMainKeeps(t, m2, folder, folder, P);
    var m3 := Shown(t, m, folder);
    ForEachKeeps(t, m3, Select(t, m3, folder, FolderSel), ClearNestedFolder, folder, P);
  }

  // ---------------------------------------------------------------------------------------------
  // What clearFolderInlineCollapseStyles guarantees
  // ---------------------------------------------------------------------------------------------

  /** The inline styles of the folder are cleared, and `collapsed` is not touched. */
  lemma FolderCleared(t: Tree, m: Els, folder: NodeId)
    requires NoDup(t.order) && folder in m
    ensures var e := ClearFolderInline(t, m, folder)[folder];
            InlineCleared(e) && (Collapsed in e.attrs <==> Collapsed in m[folder].attrs)
  {
    var m4 := Styled(t, m, folder);
    ClearedKept(t, folder);
    MarksKept(t, folder);
    FolderStyles(t, m, folder, InlineCleared);
    MarkersKeep(t, m4, folder, folder, InlineCleared);
    if Collapsed in m[folder].attrs {
      FolderStyles(t, m, folder, HasCollapsed);
      MarkersKeep(t, m4, folder, folder, HasCollapsed);
    } else {
      FolderStyles(t, m, folder, LacksCollapsed);
      MarkersKeep(t, m4, folder, folder, LacksCollapsed);
    }
  }

  /**
    The folder loses both pinned-area markers, and its icon shows `close` exactly when it has
    `collapsed`, never active.
  */
  lemma FolderUnmarked(t: Tree, m: Els, folder: NodeId)
    requires NoDup(t.order) && folder in m
    ensures var e := ClearFolderInline(t, m, folder)[folder];
            && CollapseActive !in e.attrs && HasActive !in e.attrs
            && (HasIcon(t, folder) ==>
                  IconState in e.attrs && e.attrs[IconState] == (if Collapsed in m[folder].attrs then "close" else "open")
                  && IconActive in e.attrs && e.attrs[IconActive] == "false")
  {
    var m4 := Styled(t, m, folder);
    MarksKept(t, folder);
    if Collapsed in m[folder].attrs {
      FolderStyles(t, m, folder, HasCollapsed);
    } else {
      FolderStyles(t, m, folder, LacksCollapsed);
    }
    MarkersFolderAt(t, m4, folder);
    MarkersOnFolderUnmarks(t, folder, m4[folder]);
  }

  /** Lines 917-925 on the folder: it loses both markers whether or not it carries them. */
  lemma UnmarkMarkedFolder(t: Tree, m: Els, folder: NodeId)
    requires NoDup(t.order) && folder in m
    ensures UnmarkMarked(t, m, folder)[folder] == m[folder].(attrs := m[folder].attrs - {CollapseActive, HasActive})
  {
    HeadedDistinct(t, m, folder, MarkedFolderSel);
    ForEachAt(t, m, [folder] + Select(t, m, folder, MarkedFolderSel), UnmarkIfMarked(folder), folder);
  }

  /** Lines 917-925 inside the folder: only a folder carrying `zen-pinned-collapse-active` is unmarked. */
  lemma UnmarkMarkedInside(t: Tree, m: Els, folder: NodeId, x: NodeId)
    requires NoDup(t.order) && x in m && Inside(t, folder, x)
    ensures UnmarkMarked(t, m, folder)[x] ==
              if IsFolder(t, x) && CollapseActive in m[x].attrs then m[x].(attrs := m[x].attrs - {CollapseActive, HasActive}) else m[x]
  {
    HeadedDistinct(t, m, folder, MarkedFolderSel);
    ForEachAt(t, m, [folder] + Select(t, m, folder, MarkedFolderSel), UnmarkIfMarked(folder), x);
  }

  /** Lines 928-952 on the folder. */
  lemma ResetIconsFolder(t: Tree, m: Els, folder: NodeId)
    requires NoDup(t.order) && folder in m
    ensures ResetIcons(t, m, folder)[folder] == if HasIcon(t, folder) then ResetIcon(m[folder]) else m[folder]
  {
    HeadedDistinct(t, m, folder, FolderSel);
    ForEachAt(t, m, [folder] + Select(t, m, folder, FolderSel), ResetIconOp, folder);
  }

  /** Lines 928-952 inside the folder: every nested folder with an icon has it reset. */
  lemma ResetIconsInside(t: Tree, m: Els, folder: NodeId, x: NodeId)
    requires NoDup(t.order) && x in m && Inside(t, folder, x)
    ensures ResetIcons(t, m, folder)[x] == if HasIcon(t, x) then ResetIcon(m[x]) else m[x]
  {
    HeadedDistinct(t, m, folder, FolderSel);
    ForEachAt(t, m, [folder] + Select(t, m, folder, FolderSel), ResetIconOp, x);
  }

  /** Lines 955-958: the folder itself is not among the elements inside it. */
  lemma UnmarkActiveFolder(t: Tree, m: Els, folder: NodeId)
    requires NoDup(t.order) && folder in m
    ensures UnmarkActiveTabs(t, m, folder)[folder] == m[folder]
  {
    ForEachAt(t, m, Select(t, m, folder, FolderActiveSel), UnmarkActiveOp, folder);
  }

  /** Lines 955-958 inside the folder. */
  lemma UnmarkActiveInside(t: Tree, m: Els, folder: NodeId, x: NodeId)
    requires NoDup(t.order) && x in m && Inside(t, folder, x)
    ensures UnmarkActiveTabs(t, m, folder)[x] == if FolderActive in m[x].attrs then UnmarkActive(m[x]) else m[x]
  {
    ForEachAt(t, m, Select(t, m, folder, FolderActiveSel), UnmarkActiveOp, x);
  }

  /** The marker passes on the folder itself: both markers removed, icon reset. */
  function MarkersOnFolder(t: Tree, folder: NodeId, e: Element): Element {
    var e5 := e.(attrs := e.attrs - {CollapseActive, HasActive});
    if HasIcon(t, folder) then ResetIcon(e5) else e5
  }

  lemma MarkersFolderAt(t: Tree, m: Els, folder: NodeId)
    requires NoDup(t.order) && folder in m
    ensures Markers(t, m, folder)[folder] == MarkersOnFolder(t, folder, m[folder])
  {
    UnmarkMarkedFolder(t, m, folder);
    var m5 := UnmarkMarked(t, m, folder);
    ResetIconsFolder(t, m5, folder);
    UnmarkActiveFolder(t, ResetIcons(t, m5, folder), folder);
  }

  /** The folder loses both markers and its icon follows its `collapsed` attribute. */
  lemma MarkersOnFolderUnmarks(t: Tree, folder: NodeId, e: Element)
    ensures var r := MarkersOnFolder(t, folder, e);
            && CollapseActive !in r.attrs && HasActive !in r.attrs
            && (HasIcon(t, folder) ==>
                  IconState in r.attrs && r.attrs[IconState] == (if Collapsed in e.attrs then "close" else "open")
                  && IconActive in r.attrs && r.attrs[IconActive] == "false")
  {
  }

  /** The marker passes on one element inside the folder. */
  function MarkersOn(t: Tree, x: NodeId, e: Element): Element {
    var e5 := if IsFolder(t, x) && CollapseActive in e.attrs then e.(attrs := e.attrs - {CollapseActive, HasActive}) else e;
    var e6 := if HasIcon(t, x) then ResetIcon(e5) else e5;
    if FolderActive in e6.attrs then UnmarkActive(e6) else e6
  }

  lemma MarkersInsideAt(t: Tree, m: Els, folder: NodeId, x: NodeId)
    requires NoDup(t.order) && x in m && Inside(t, folder, x)
    ensures Markers(t, m, folder)[x] == MarkersOn(t, x, m[x])
  {
    UnmarkMarkedInside(t, m, folder, x);
    var m5 := UnmarkMarked(t, m, folder);
    ResetIconsInside(t, m5, folder, x);
    var m6 := ResetIcons(t, m5, folder);
    UnmarkActiveInside(t, m6, folder, x);
  }

  /**
    The marker passes on an element inside: `folder-active` and its indentation are removed; a folder
    loses `zen-pinned-collapse-active`, loses `has-active` exactly when it carried that marker, and its
    icon follows its `collapsed` attribute.
  */
  lemma MarkersOnUnmarks(t: Tree, x: NodeId, e: Element)
    ensures var r := MarkersOn(t, x, e);
            && FolderActive !in r.attrs && (FolderActive in e.attrs ==> r.style.folderIndent == "")
            && (IsFolder(t, x) ==>
                  && CollapseActive !in r.attrs
                  && (HasActive in r.attrs <==> HasActive in e.attrs && CollapseActive !in e.attrs)
                  && (HasIcon(t, x) ==>
                        IconState in r.attrs && r.attrs[IconState] == (if Collapsed in e.attrs then "close" else "open")
                        && IconActive in r.attrs && r.attrs[IconActive] == "false"))
    ensures !IsFolder(t, x) && FolderActive !in e.attrs ==> MarkersOn(t, x, e) == e
  {
  }

  // ---------------------------------------------------------------------------------------------
  // Elements inside the folder
  // ---------------------------------------------------------------------------------------------

  /** Showing the main container keeps what the nested-folder pass keeps. */
  lemma ShowMainKeeps(t: Tree, m: Els, folder: NodeId, x: NodeId, P: Element -> bool)
    requires x in m && P(m[x]) && OpKeeps(t, ClearNestedFolder, P)
    ensures P(ShowMain(t, m, folder)[x])
  {
    match ContainerOf(t, folder) {
      case None =>
      case Some(c) =>
        if c in m && x == c {
          assert P(Unhidden(m[c]));
          assert P(Apply(t, ClearNestedFolder, c, Unhidden(m[c])));
        }
    }
  }

  /** The style passes keep `SameMarks(a, _)`, given as `P`. */
  lemma MarksOpKeeps(t: Tree, a: Element, P: Element -> bool)
    requires forall e :: P(e) == SameMarks(a, e)
    ensures OpKeeps(t, ClearInlineOp, P) && OpKeeps(t, ClearNestedFolder, P)
  {
    forall n, e | P(e) ensures P(Apply(t, ClearInlineOp, n, e)) && P(Apply(t, ClearNestedFolder, n, e)) {
      assert SameMarks(a, ClearInline(e));
    }
    forall e | P(e) ensures P(Unhidden(e)) {
      assert SameMarks(a, Unhidden(e));
    }
  }

  /** The style passes change no attribute other than `hidden` and `zen-pinned-sibling-hidden`. */
  lemma StylesKeepMarks(t: Tree, m: Els, folder: NodeId, x: NodeId)
    requires folder in m && x in m
    ensures SameMarks(m[x], Shown(t, m, folder)[x]) && SameMarks(m[x], Styled(t, m, folder)[x])
  {
    var P := (e: Element) => SameMarks(m[x], e);
    MarksOpKeeps(t, m[x], P);
    var m1 := m[folder := ClearInline(m[folder])];
    assert P(m1[x]) by {
      if x == folder {
        assert P(Apply(t, ClearInlineOp, x, m[x]));
      }
    }
    ForEachKeeps(t, m1, Select(t, m1, folder, SiblingHiddenSel), ClearInlineOp, x, P);
    var m2 := ClearOwnAndMarked(t, m, folder);
    ShowMainKeeps(t, m2, folder, x, P);
    var m3 := Shown(t, m, folder);
    ForEachKeeps(t, m3, Select(t, m3, folder, FolderSel), ClearNestedFolder, x, P);
  }

  /** Lines 886-888 inside the folder: exactly the elements with the sibling marker are cleared. */
  lemma OwnAndMarkedInside(t: Tree, m: Els, folder: NodeId, x: NodeId)
    requires NoDup(t.order) && folder in m && x in m && Inside(t, folder, x)
    ensures ClearOwnAndMarked(t, m, folder)[x] == if SiblingHidden in m[x].attrs then ClearInline(m[x]) else m[x]
  {
    var m1 := m[folder := ClearInline(m[folder])];
    ForEachAt(t, m1, Select(t, m1, folder, SiblingHiddenSel), ClearInlineOp, x);
  }

  /** Lines 892-896, one element. */
  lemma ShowMainAt(t: Tree, m: Els, folder: NodeId, x: NodeId)
    requires x in m
    ensures ShowMain(t, m, folder)[x] == if ContainerOf(t, folder) == Some(x) then ClearInline(Unhidden(m[x])) else m[x]
  {
  }

  /** Lines 900-901: a nested folder is cleared. */
  lemma NestedFolderCleared(t: Tree, m: Els, folder: NodeId, x: NodeId)
    requires NoDup(t.order) && folder in m && x in m && Inside(t, folder, x) && IsFolder(t, x)
    ensures InlineCleared(Styled(t, m, folder)[x])
  {
    ClearedKept(t, folder);
    var m3 := Shown(t, m, folder);
    var l3 := Select(t, m3, folder, FolderSel);
    assert x in l3;
    var i :| 0 <= i < |l3| && l3[i] == x;
    ForEachEstablishes(t, m3, l3, ClearNestedFolder, i, InlineCleared);
  }

  /** Lines 886-888 and 900-901: an inside element loses the sibling marker; a marked one or a folder is cleared. */
  lemma StylesInside(t: Tree, m: Els, folder: NodeId, x: NodeId)
    requires NoDup(t.order) && folder in m && x in m && Inside(t, folder, x)
    ensures LacksSiblingMark(Styled(t, m, folder)[x])
    ensures SiblingHidden in m[x].attrs || IsFolder(t, x) ==> InlineCleared(Styled(t, m, folder)[x])
  {
    ClearedKept(t, folder);
    MarksKept(t, folder);
    OwnAndMarkedInside(t, m, folder, x);
    var m2 := ClearOwnAndMarked(t, m, folder);
    ShowMainAt(t, m2, folder, x);
    var m3 := Shown(t, m, folder);
    var l3 := Select(t, m3, folder, FolderSel);
    if SiblingHidden in m[x].attrs || ContainerOf(t, folder) == Some(x) {
      assert InlineCleared(m3[x]);
      ForEachKeeps(t, m3, l3, ClearNestedFolder, x, InlineCleared);
    } else {
      assert LacksSiblingMark(m3[x]);
      ForEachKeeps(t, m3, l3, ClearNestedFolder, x, LacksSiblingMark);
    }
    if IsFolder(t, x) {
      NestedFolderCleared(t, m, folder, x);
    }
  }

  /**
    Lines 886-888 and 900-901: every element inside the folder ends without the sibling marker, and every
    marked element and every nested folder is cleared.
  */
  lemma InsideCleared(t: Tree, m: Els, folder: NodeId, x: NodeId)
    requires NoDup(t.order) && folder in m && x in m && Inside(t, folder, x)
    ensures var e := ClearFolderInline(t, m, folder)[x];
            SiblingHidden !in e.attrs && (SiblingHidden in m[x].attrs || IsFolder(t, x) ==> InlineCleared(e))
  {
    var m4 := Styled(t, m, folder);
    ClearedKept(t, folder);
    MarksKept(t, folder);
    StylesInside(t, m, folder, x);
    MarkersKeep(t, m4, folder, x, LacksSiblingMark);
    if SiblingHidden in m[x].attrs || IsFolder(t, x) {
      MarkersKeep(t, m4, folder, x, InlineCleared);
    }
  }

  /**
    Lines 913-958 inside the folder: no element keeps `folder-active` (nor the indentation that came with
    it); a nested folder ends without `zen-pinned-collapse-active`, keeps `has-active` only when it did
    not carry that marker, and its icon shows its own `collapsed` state.
  */
  lemma InsideUnmarked(t: Tree, m: Els, folder: NodeId, x: NodeId)
    requires NoDup(t.order) && folder in m && x in m && Inside(t, folder, x)
    ensures var e := ClearFolderInline(t, m, folder)[x];
            && FolderActive !in e.attrs && (FolderActive in m[x].attrs ==> e.style.folderIndent == "")
            && (IsFolder(t, x) ==>
                  && CollapseActive !in e.attrs
                  && (HasActive in e.attrs <==> HasActive in m[x].attrs && CollapseActive !in m[x].attrs)
                  && (HasIcon(t, x) ==>
                        IconState in e.attrs && e.attrs[IconState] == (if Collapsed in m[x].attrs then "close" else "open")
                        && IconActive in e.attrs && e.attrs[IconActive] == "false"))
  {
    var m4 := Styled(t, m, folder);
    StylesKeepMarks(t, m, folder, x);
    var a, b := m[x].attrs, m4[x].attrs;
    assert (FolderActive in a <==> FolderActive in b) && (CollapseActive in a <==> CollapseActive in b)
        && (HasActive in a <==> HasActive in b) && (Collapsed in a <==> Collapsed in b);
    MarkersInsideAt(t, m4, folder, x);
    MarkersOnUnmarks(t, x, m4[x]);
  }

  /** The nested-folder pass leaves the container of a nested folder as that folder's own iteration did. */
  lemma NestedContainerStyled(t: Tree, m: Els, folder: NodeId, f: NodeId, c: NodeId, P: Element -> bool)
    requires NoDup(t.order) && folder in m && f in m && c in m && c != f
    requires Inside(t, folder, f) && IsFolder(t, f) && ContainerOf(t, f) == Some(c)
    requires Keeps(P, ClearInline) && Keeps(P, Unhidden)
    requires Collapsed in m[f].attrs ==> forall e :: P(ClearInline(e))
    requires Collapsed !in m[f].attrs ==> forall e :: P(Unhidden(ClearInline(e)))
    ensures P(Styled(t, m, folder)[c])
  {
    var m3 := Shown(t, m, folder);
    StylesKeepMarks(t, m, folder, f);
    assert Collapsed in m3[f].attrs <==> Collapsed in m[f].attrs;
    var l3 := Select(t, m3, folder, FolderSel);
    assert f in l3;
    var i :| 0 <= i < |l3| && l3[i] == f;
    ForEachClearsContainer(t, m3, l3, i, c, P);
  }

  /**
    Lines 902-909: the container of a nested folder is cleared, and shown unless that folder has
    `collapsed`.
  */
  lemma NestedContainerCleared(t: Tree, m: Els, folder: NodeId, f: NodeId, c: NodeId)
    requires Valid(t) && folder in m && f in m && c in m && Inside(t, folder, f) && IsFolder(t, f) && ContainerOf(t, f) == Some(c)
    ensures var e := ClearFolderInline(t, m, folder)[c];
            InlineCleared(e) && (Collapsed !in m[f].attrs ==> Hidden !in e.attrs)
  {
    ClearedKept(t, folder);
    assert c != f;
    var m4 := Styled(t, m, folder);
    if Collapsed in m[f].attrs {
      NestedContainerStyled(t, m, folder, f, c, InlineCleared);
      MarkersKeep(t, m4, folder, c, InlineCleared);
    } else {
      NestedContainerStyled(t, m, folder, f, c, ShownCleared);
      MarkersKeep(t, m4, folder, c, ShownCleared);
    }
  }

  /** Lines 892-896: the folder's own container is shown and cleared. */
  lemma MainContainerShown(t: Tree, m: Els, folder: NodeId, c: NodeId)
    requires folder in m && ContainerOf(t, folder) == Some(c) && c in m
    ensures ShownCleared(ClearFolderInline(t, m, folder)[c])
  {
    ClearedKept(t, folder);
    var m3 := Shown(t, m, folder);
    assert ShownCleared(m3[c]);
    ForEachKeeps(t, m3, Select(t, m3, folder, FolderSel), ClearNestedFolder, c, ShownCleared);
    MarkersKeep(t, Styled(t, m, folder), folder, c, ShownCleared);
  }

  // ---------------------------------------------------------------------------------------------
  // Nothing outside the folder changes
  // ---------------------------------------------------------------------------------------------

  /** Every pass whose list holds only elements inside the folder leaves an outside element alone. */
  lemma InsidePassFrame(t: Tree, m: Els, folder: NodeId, nodes: seq<NodeId>, op: Op, x: NodeId)
    requires Valid(t) && x in m && x != folder && !Contains(t, folder, x)
    requires forall n :: n in nodes ==> n == folder || Contains(t, folder, n)
    ensures ForEach(t, m, nodes, op)[x] == m[x]
  {
    forall k | 0 <= k < |nodes| ensures x !in Footprint(t, op, nodes[k]) {
      var n := nodes[k];
      assert n in nodes;
      if n == x {
        assert false;
      }
      if op.ClearNestedFolder? && ContainerOf(t, n).Some? {
        ContainerContained(t, n);
        ContainsTransitive(t, folder, n, ContainerOf(t, n).value);
      }
    }
    ForEachFrame(t, m, nodes, op, x);
  }

  /** `clearFolderInlineCollapseStyles` writes only the folder and elements inside it. */
  lemma ClearFrame(t: Tree, m: Els, folder: NodeId, x: NodeId)
    requires Valid(t) && x in m && x != folder && !Contains(t, folder, x)
    ensures ClearFolderInline(t, m, folder)[x] == m[x]
  {
    if folder in m {
      var m1 := m[folder := ClearInline(m[folder])];
      InsidePassFrame(t, m1, folder, Select(t, m1, folder, SiblingHiddenSel), ClearInlineOp, x);
      var m2 := ClearOwnAndMarked(t, m, folder);
      if ContainerOf(t, folder).Some? {
        ContainerContained(t, folder);
      }
      assert Shown(t, m, folder)[x] == m2[x];
      var m3 := Shown(t, m, folder);
      InsidePassFrame(t, m3, folder, Select(t, m3, folder, FolderSel), ClearNestedFolder, x);
      MarkersFrame(t, Styled(t, m, folder), folder, x);
    }
  }

  lemma MarkersFrame(t: Tree, m: Els, folder: NodeId, x: NodeId)
    requires Valid(t) && x in m && x != folder && !Contains(t, folder, x)
    ensures Markers(t, m, folder)[x] == m[x]
  {
    InsidePassFrame(t, m, folder, [folder] + Select(t, m, folder, MarkedFolderSel), UnmarkIfMarked(folder), x);
    var m5 := UnmarkMarked(t, m, folder);
    InsidePassFrame(t, m5, folder, [folder] + Select(t, m5, folder, FolderSel), ResetIconOp, x);
    var m6 := ResetIcons(t, m5, folder);
    InsidePassFrame(t, m6, folder, Select(t, m6, folder, FolderActiveSel), UnmarkActiveOp, x);
  }
}
