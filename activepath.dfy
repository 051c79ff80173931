/**
  Keeping the active tab visible in a collapsed pinned area (lines 183-342): the folders enclosing the
  active tab are marked, their icons set, and at every chain level the container's children are treated
  by their relation to the active tab; the clean-up on expand removes the markers again.
*/
module ActivePath {
  import opened Base
  import opened Tree
  import opened Elements
  import opened Sweeps

  /** `x` is a child of `f`'s own container that the level loop treats (it skips the group-start marker). */
  ghost predicate ChildAt(t: Tree, f: NodeId, x: NodeId) {
    ContainerOf(t, f).Some? && x in ChildrenOf(t, ContainerOf(t, f).value) && !IsGroupStart(t, x)
  }

  function Unhide(m: Els, n: NodeId): (r: Els)
    ensures r.Keys == m.Keys
  {
    if n in m then m[n := Unhidden(m[n])] else m
  }

  /** Lines 255-291: one container child, by its role against the active tab. */
  function TreatChild(t: Tree, m: Els, chain: seq<NodeId>, a: NodeId, x: NodeId): (r: Els)
    ensures r.Keys == m.Keys
  {
    if x !in m || IsGroupStart(t, x) then m
    else match Classify(t, chain, a, x)
      case ActiveLeaf => m[x := RevealActive(m[x])]
      case OnPath =>
        var m1 := m[x := KeepOnPath(m[x])];
        (match LabelOf(t, x)
         case None => m1
         case Some(l) => if l in m1 then m1[l := Conceal(m1[l])] else m1)
      case Off => m[x := Conceal(m[x])]
  }

  function TreatChildren(t: Tree, m: Els, chain: seq<NodeId>, a: NodeId, kids: seq<NodeId>): (r: Els)
    ensures r.Keys == m.Keys
    decreases |kids|
  {
    if kids == [] then m else TreatChildren(t, TreatChild(t, m, chain, a, kids[0]), chain, a, kids[1..])
  }

  /** Lines 246-292: one chain folder; nothing when it has no container. */
  function TreatLevel(t: Tree, m: Els, chain: seq<NodeId>, a: NodeId, f: NodeId): (r: Els)
    ensures r.Keys == m.Keys
  {
    match ContainerOf(t, f)
    case None => m
    case Some(c) => TreatChildren(t, Unhide(m, c), chain, a, ChildrenOf(t, c))
  }

  function TreatLevels(t: Tree, m: Els, chain: seq<NodeId>, a: NodeId, folders: seq<NodeId>): (r: Els)
    ensures r.Keys == m.Keys
    decreases |folders|
  {
    if folders == [] then m else TreatLevels(t, TreatLevel(t, m, chain, a, folders[0]), chain, a, folders[1..])
  }

  /** Lines 198-239: markers on the chain, `folder-active` on the tab, icons by position. */
  function MarkChain(t: Tree, m: Els, chain: seq<NodeId>, a: NodeId): (r: Els)
    requires chain != []
    ensures r.Keys == m.Keys
  {
    var m1 := ForEach(t, m, chain, MarkOnPathOp);
    var m2 := if a in m1 then m1[a := SetAttr(m1[a], FolderActive, "true")] else m1;
    ForEach(t, m2, chain, MarkIconOp(chain[|chain| - 1]))
  }

  /**
    `handleActiveTabCollapseZenStyle(activeTab, pinnedSection)`: nothing without a tab, a section or an
    enclosing folder inside the section; otherwise mark the chain, treat every level, and finally make
    sure the tab itself is visible.
  */
  function HandleActive(t: Tree, m: Els, active: Option<NodeId>, section: Option<NodeId>): (r: Els)
    ensures r.Keys == m.Keys
  {
    if active.None? || section.None? then m
    else
      var a := active.value;
      var chain := FolderChain(t, a, section.value);
      if chain == [] then m else Handled(t, m, chain, a)
  }

  /** Lines 197-300 for a non-empty chain. */
  function Handled(t: Tree, m: Els, chain: seq<NodeId>, a: NodeId): (r: Els)
    requires chain != []
    ensures r.Keys == m.Keys
  {
    var m4 := TreatLevels(t, MarkChain(t, m, chain, a), chain, a, chain);
    if a in m4 then m4[a := RevealActive(m4[a])] else m4
  }

  /**
    `cleanupActiveTabExpandZenStyle(activeTab, pinnedSection)`: every hidden sibling in the section is
    shown again, every marked folder loses its markers and `collapsed` and shows an open icon (the
    corrected write, `UnmarkFolder`), and the tab loses `folder-active` and its indentation.
  */
  function Cleanup(t: Tree, m: Els, active: Option<NodeId>, section: Option<NodeId>): (r: Els)
    ensures r.Keys == m.Keys
  {
    if section.None? then m
    else
      var m2 := UnmarkFolders(t, UnconcealSiblings(t, m, section.value), section.value);
      if active.Some? && active.value in m2 then m2[active.value := UnmarkActive(m2[active.value])] else m2
  }

  /** Lines 307-314: every element marked as a hidden sibling inside the section is shown and unmarked. */
  function UnconcealSiblings(t: Tree, m: Els, s: NodeId): (r: Els)
    ensures r.Keys == m.Keys
  {
    ForEach(t, m, Select(t, m, s, SiblingHiddenSel), UnconcealOp)
  }

  /** Lines 317-334, corrected: every marked folder inside the section loses its markers and `collapsed` and shows an open icon. */
  function UnmarkFolders(t: Tree, m: Els, s: NodeId): (r: Els)
    ensures r.Keys == m.Keys
  {
    ForEach(t, m, Select(t, m, s, MarkedFolderSel), UnmarkFolderOp)
  }

  /** Lines 317-334 as written: every marked folder inside the section loses its markers and shows an open icon. */
  function UnmarkFoldersAsWritten(t: Tree, m: Els, s: NodeId): (r: Els)
    ensures r.Keys == m.Keys
  {
    ForEach(t, m, Select(t, m, s, MarkedFolderSel), UnmarkFolderAsWrittenOp)
  }

  // ---------------------------------------------------------------------------------------------
  // Preservation through the level treatment
  // ---------------------------------------------------------------------------------------------

  /** `z` is the label container of a child the level treats as on the path. */
  ghost predicate LabelOfOnPath(t: Tree, chain: seq<NodeId>, a: NodeId, y: NodeId, z: NodeId) {
    !IsGroupStart(t, y) && Classify(t, chain, a, y) == OnPath && LabelOf(t, y) == Some(z)
  }

  /**
    What a treatment of children can do to an element `z`: reveal it (it is the tab), keep it (on the
    path), conceal it (an unrelated sibling, or the label of an on-path child). A property that every
    treatment `z` can receive keeps is still true afterwards.
  */
  lemma {:induction false} TreatChildrenKeeps(t: Tree, m: Els, chain: seq<NodeId>, a: NodeId, kids: seq<NodeId>,
                                              z: NodeId, P: Element -> bool)
    requires z in m && P(m[z])
    requires z == a ==> Keeps(P, RevealActive)
    requires Classify(t, chain, a, z) == OnPath ==> Keeps(P, KeepOnPath)
    requires Classify(t, chain, a, z) == Off ==> Keeps(P, Conceal)
    requires (forall y :: LabelOf(t, y) != Some(z)) || Keeps(P, Conceal)
    ensures P(TreatChildren(t, m, chain, a, kids)[z])
    decreases |kids|
  {
    if kids != [] {
      var x := kids[0];
      var m1 := TreatChild(t, m, chain, a, x);
      assert P(m1[z]) by {
        if x in m && !IsGroupStart(t, x) && Classify(t, chain, a, x) == OnPath && LabelOf(t, x) == Some(z) {
          assert Keeps(P, Conceal);
        }
      }
      TreatChildrenKeeps(t, m1, chain, a, kids[1..], z, P);
    }
  }

  /**
    How the treatment of child `y` settles `z` in a state satisfying `P`: `z` is `y` and an unrelated
    sibling, `z` is `y` and on the path, or `z` is the label of `y` on the path.
  */
  ghost predicate Reaches(t: Tree, chain: seq<NodeId>, a: NodeId, y: NodeId, z: NodeId, P: Element -> bool) {
    || (y == z && !IsGroupStart(t, z) && Classify(t, chain, a, z) == Off && forall e :: P(Conceal(e)))
    || (y == z && !IsGroupStart(t, z) && Classify(t, chain, a, z) == OnPath && forall e :: P(KeepOnPath(e)))
    || (LabelOfOnPath(t, chain, a, y, z) && forall e :: P(Conceal(e)))
  }

  /**
    An element that the treatment of the child at index `i` settles in `P` still satisfies `P` at the
    end, provided the treatments it can receive later keep `P`.
  */
  lemma {:induction false} TreatChildrenEstablishes(t: Tree, m: Els, chain: seq<NodeId>, a: NodeId, kids: seq<NodeId>,
                                                    z: NodeId, i: nat, P: Element -> bool)
    requires z in m && i < |kids| && kids[i] in m
    requires Reaches(t, chain, a, kids[i], z, P)
    requires z == a ==> Keeps(P, RevealActive)
    requires Classify(t, chain, a, z) == OnPath ==> Keeps(P, KeepOnPath)
    requires Classify(t, chain, a, z) == Off ==> Keeps(P, Conceal)
    requires (forall y :: LabelOf(t, y) != Some(z)) || Keeps(P, Conceal)
    ensures P(TreatChildren(t, m, chain, a, kids)[z])
    decreases |kids|
  {
    var m1 := TreatChild(t, m, chain, a, kids[0]);
    if i == 0 {
      assert P(m1[z]) by {
        if kids[0] == z && Classify(t, chain, a, z) == OnPath && LabelOf(t, z) == Some(z) {
          assert Keeps(P, Conceal);
        }
      }
      TreatChildrenKeeps(t, m1, chain, a, kids[1..], z, P);
    } else {
      assert kids[1..][i - 1] == kids[i];
      TreatChildrenEstablishes(t, m1, chain, a, kids[1..], z, i - 1, P);
    }
  }

  /** The level loop: the same, over every chain folder (containers are shown first, which must keep `P`). */
  lemma {:induction false} TreatLevelsKeeps(t: Tree, m: Els, chain: seq<NodeId>, a: NodeId, folders: seq<NodeId>,
                                            z: NodeId, P: Element -> bool)
    requires z in m && P(m[z])
    requires Keeps(P, Unhidden)
    requires z == a ==> Keeps(P, RevealActive)
    requires Classify(t, chain, a, z) == OnPath ==> Keeps(P, KeepOnPath)
    requires Classify(t, chain, a, z) == Off ==> Keeps(P, Conceal)
    requires (forall y :: LabelOf(t, y) != Some(z)) || Keeps(P, Conceal)
    ensures P(TreatLevels(t, m, chain, a, folders)[z])
    decreases |folders|
  {
    if folders != [] {
      var m1 := TreatLevel(t, m, chain, a, folders[0]);
      match ContainerOf(t, folders[0]) {
        case None =>
        case Some(c) =>
          TreatChildrenKeeps(t, Unhide(m, c), chain, a, ChildrenOf(t, c), z, P);
      }
      TreatLevelsKeeps(t, m1, chain, a, folders[1..], z, P);
    }
  }

  /** An element settled in `P` at level `j` (through child `y`) still satisfies `P` at the end. */
  lemma {:induction false} TreatLevelsEstablishes(t: Tree, m: Els, chain: seq<NodeId>, a: NodeId, folders: seq<NodeId>,
                                                  z: NodeId, j: nat, y: NodeId, P: Element -> bool)
    requires z in m && y in m && j < |folders| && ChildAt(t, folders[j], y)
    requires Reaches(t, chain, a, y, z, P)
    requires Keeps(P, Unhidden)
    requires z == a ==> Keeps(P, RevealActive)
    requires Classify(t, chain, a, z) == OnPath ==> Keeps(P, KeepOnPath)
    requires Classify(t, chain, a, z) == Off ==> Keeps(P, Conceal)
    requires (forall y :: LabelOf(t, y) != Some(z)) || Keeps(P, Conceal)
    ensures P(TreatLevels(t, m, chain, a, folders)[z])
    decreases |folders|
  {
    var m1 := TreatLevel(t, m, chain, a, folders[0]);
    if j == 0 {
      var c := ContainerOf(t, folders[0]).value;
      var kids := ChildrenOf(t, c);
      var i :| 0 <= i < |kids| && kids[i] == y;
      TreatChildrenEstablishes(t, Unhide(m, c), chain, a, kids, z, i, P);
      TreatLevelsKeeps(t, m1, chain, a, folders[1..], z, P);
    } else {
      assert folders[1..][j - 1] == folders[j];
      TreatLevelsEstablishes(t, m1, chain, a, folders[1..], z, j - 1, y, P);
    }
  }

  /** The treatment of children inside `s` leaves every element outside `s` alone. */
  lemma {:induction false} TreatChildrenFrame(t: Tree, m: Els, chain: seq<NodeId>, a: NodeId, kids: seq<NodeId>,
                                              z: NodeId, s: NodeId)
    requires Valid(t) && z in m && !Contains(t, s, z)
    requires forall k :: 0 <= k < |kids| ==> Contains(t, s, kids[k])
    ensures TreatChildren(t, m, chain, a, kids)[z] == m[z]
    decreases |kids|
  {
    if kids != [] {
      var x := kids[0];
      if LabelOf(t, x).Some? {
        LabelContained(t, x);
        ContainsTransitive(t, s, x, LabelOf(t, x).value);
      }
      forall k | 0 <= k < |kids[1..]| ensures Contains(t, s, kids[1..][k]) {
        assert kids[1..][k] == kids[k + 1];
      }
      TreatChildrenFrame(t, TreatChild(t, m, chain, a, x), chain, a, kids[1..], z, s);
    }
  }

  /** The level loop over folders inside `s` leaves every element outside `s` alone. */
  lemma {:induction false} TreatLevelsFrame(t: Tree, m: Els, chain: seq<NodeId>, a: NodeId, folders: seq<NodeId>,
                                            z: NodeId, s: NodeId)
    requires Valid(t) && z in m && !Contains(t, s, z)
    requires forall k :: 0 <= k < |folders| ==> Contains(t, s, folders[k])
    ensures TreatLevels(t, m, chain, a, folders)[z] == m[z]
    decreases |folders|
  {
    if folders != [] {
      var f := folders[0];
      var m1 := TreatLevel(t, m, chain, a, f);
      if ContainerOf(t, f).Some? {
        var c := ContainerOf(t, f).value;
        ContainerContained(t, f);
        ContainsTransitive(t, s, f, c);
        var kids := ChildrenOf(t, c);
        forall k | 0 <= k < |kids| ensures Contains(t, s, kids[k]) {
          ChildContained(t, c, kids[k]);
          ContainsTransitive(t, s, c, kids[k]);
        }
        TreatChildrenFrame(t, Unhide(m, c), chain, a, kids, z, s);
      }
      forall k | 0 <= k < |folders[1..]| ensures Contains(t, s, folders[1..][k]) {
        assert folders[1..][k] == folders[k + 1];
      }
      TreatLevelsFrame(t, m1, chain, a, folders[1..], z, s);
    }
  }

  /** A child of a chain folder's container is never a label container (their parents differ in kind). */
  lemma ContainerChildNotLabel(t: Tree, f: NodeId, x: NodeId)
    requires Valid(t) && ChildAt(t, f, x)
    ensures forall y :: LabelOf(t, y) != Some(x)
  {
  }

  // ---------------------------------------------------------------------------------------------
  // The chain markers (lines 198-239)
  // ---------------------------------------------------------------------------------------------

  /**
    After the marking passes a chain folder carries both markers, an icon shows close/active on the root
    and open elsewhere, only the root gains `collapsed`, and the tab gains `folder-active`.
  */
  lemma MarkChainAt(t: Tree, m: Els, chain: seq<NodeId>, a: NodeId, x: NodeId)
    requires chain != [] && NoDup(chain) && x in m
    ensures var e := MarkChain(t, m, chain, a)[x];
            var root := chain[|chain| - 1];
            && (x in chain ==> CollapseActive in e.attrs && e.attrs[CollapseActive] == "true"
                               && HasActive in e.attrs && e.attrs[HasActive] == "true")
            && (x in chain && HasIcon(t, x) ==>
                  IconState in e.attrs && e.attrs[IconState] == (if x == root then "close" else "open")
                  && IconActive in e.attrs && e.attrs[IconActive] == (if x == root then "true" else "false"))
            && (x == root && HasIcon(t, x) ==> Collapsed in e.attrs && e.attrs[Collapsed] == "true")
            && (!(x == root && HasIcon(t, x)) ==>
                  (Collapsed in e.attrs <==> Collapsed in m[x].attrs)
                  && (Collapsed in e.attrs ==> e.attrs[Collapsed] == m[x].attrs[Collapsed]))
            && (x == a ==> FolderActive in e.attrs && e.attrs[FolderActive] == "true")
  {
    var root := chain[|chain| - 1];
    var m1 := ForEach(t, m, chain, MarkOnPathOp);
    var m2 := if a in m1 then m1[a := SetAttr(m1[a], FolderActive, "true")] else m1;
    ForEachAt(t, m, chain, MarkOnPathOp, x);
    ForEachAt(t, m2, chain, MarkIconOp(root), x);
    var e1 := if x in chain then MarkOnPath(m[x]) else m[x];
    var e2 := if x == a then SetAttr(e1, FolderActive, "true") else e1;
    assert m2[x] == e2;
    MarkedElement(m[x], x in chain, x == a, HasIcon(t, x), x == root);
  }

  /** The marking passes change no style and neither `hidden` nor the sibling marker; other elements are untouched. */
  lemma MarkChainVisibility(t: Tree, m: Els, chain: seq<NodeId>, a: NodeId, x: NodeId)
    requires chain != [] && NoDup(chain) && x in m
    ensures var e := MarkChain(t, m, chain, a)[x];
            && e.style == m[x].style
            && (Hidden in e.attrs <==> Hidden in m[x].attrs)
            && (SiblingHidden in e.attrs <==> SiblingHidden in m[x].attrs)
            && (x !in chain && x != a ==> e == m[x])
  {
    var root := chain[|chain| - 1];
    var m1 := ForEach(t, m, chain, MarkOnPathOp);
    var m2 := if a in m1 then m1[a := SetAttr(m1[a], FolderActive, "true")] else m1;
    ForEachAt(t, m, chain, MarkOnPathOp, x);
    ForEachAt(t, m2, chain, MarkIconOp(root), x);
    var e1 := if x in chain then MarkOnPath(m[x]) else m[x];
    var e2 := if x == a then SetAttr(e1, FolderActive, "true") else e1;
    assert m2[x] == e2;
    MarkedElement(m[x], x in chain, x == a, HasIcon(t, x), x == root);
  }

  /** The three marking writes on one element, in order. */
  lemma MarkedElement(e0: Element, onChain: bool, isTab: bool, icon: bool, isRoot: bool)
    ensures var e1 := if onChain then MarkOnPath(e0) else e0;
            var e2 := if isTab then SetAttr(e1, FolderActive, "true") else e1;
            var e := if onChain && icon then MarkIcon(e2, isRoot) else e2;
            && e.style == e0.style
            && (onChain ==> CollapseActive in e.attrs && e.attrs[CollapseActive] == "true"
                            && HasActive in e.attrs && e.attrs[HasActive] == "true")
            && (onChain && icon ==>
                  IconState in e.attrs && e.attrs[IconState] == (if isRoot then "close" else "open")
                  && IconActive in e.attrs && e.attrs[IconActive] == (if isRoot then "true" else "false"))
            && (onChain && isRoot && icon ==> Collapsed in e.attrs && e.attrs[Collapsed] == "true")
            && (!(onChain && isRoot && icon) ==>
                  (Collapsed in e.attrs <==> Collapsed in e0.attrs)
                  && (Collapsed in e.attrs ==> e.attrs[Collapsed] == e0.attrs[Collapsed]))
            && (isTab ==> FolderActive in e.attrs && e.attrs[FolderActive] == "true")
            && (Hidden in e.attrs <==> Hidden in e0.attrs)
            && (SiblingHidden in e.attrs <==> SiblingHidden in e0.attrs)
            && (!onChain && !isTab ==> e == e0)
  {
  }

  // ---------------------------------------------------------------------------------------------
  // What handleActiveTabCollapseZenStyle guarantees
  // ---------------------------------------------------------------------------------------------

  /** With no enclosing folder inside the section nothing changes. */
  lemma NoChainNoChange(t: Tree, m: Els, a: NodeId, s: NodeId)
    requires FolderChain(t, a, s) == []
    ensures HandleActive(t, m, Some(a), Some(s)) == m
  {
  }

  /** The level loop and the final reveal only touch `hidden`, `zen-pinned-sibling-hidden` and styles. */
  lemma HandleActiveKeepsMarks(t: Tree, m: Els, a: NodeId, s: NodeId, x: NodeId)
    requires FolderChain(t, a, s) != [] && x in m
    ensures SameMarks(MarkChain(t, m, FolderChain(t, a, s), a)[x], HandleActive(t, m, Some(a), Some(s))[x])
  {
    HandledKeepsMarks(t, m, FolderChain(t, a, s), a, x);
  }

  lemma HandledKeepsMarks(t: Tree, m: Els, chain: seq<NodeId>, a: NodeId, x: NodeId)
    requires chain != [] && x in m
    ensures SameMarks(MarkChain(t, m, chain, a)[x], Handled(t, m, chain, a)[x])
  {
    var m0 := MarkChain(t, m, chain, a);
    var e0 := m0[x];
    var P := (e: Element) => SameMarks(e0, e);
    TreatLevelsKeeps(t, m0, chain, a, chain, x, P);
  }

  /**
    Every chain folder ends marked with `zen-pinned-collapse-active` and `has-active`; its icon shows
    close/active on the root and open elsewhere; only the root (when it has an icon) gains `collapsed`;
    the tab carries `folder-active`.
  */
  lemma ChainMarked(t: Tree, m: Els, a: NodeId, s: NodeId, x: NodeId)
    requires FolderChain(t, a, s) != [] && x in m
    ensures var chain := FolderChain(t, a, s);
            var root := chain[|chain| - 1];
            var e := HandleActive(t, m, Some(a), Some(s))[x];
            && (x in chain ==> CollapseActive in e.attrs && e.attrs[CollapseActive] == "true"
                               && HasActive in e.attrs && e.attrs[HasActive] == "true")
            && (x in chain && HasIcon(t, x) ==>
                  IconState in e.attrs && e.attrs[IconState] == (if x == root then "close" else "open")
                  && IconActive in e.attrs && e.attrs[IconActive] == (if x == root then "true" else "false"))
            && (x == root && HasIcon(t, x) ==> Collapsed in e.attrs && e.attrs[Collapsed] == "true")
            && (!(x == root && HasIcon(t, x)) ==>
                  (Collapsed in e.attrs <==> Collapsed in m[x].attrs)
                  && (Collapsed in e.attrs ==> e.attrs[Collapsed] == m[x].attrs[Collapsed]))
            && (x == a ==> FolderActive in e.attrs && e.attrs[FolderActive] == "true")
  {
    MarkChainAt(t, m, FolderChain(t, a, s), a, x);
    HandleActiveKeepsMarks(t, m, a, s, x);
  }

  /** The active tab ends visible: opacity, height, max-height and overflow unset, no `hidden`. */
  lemma ActiveShown(t: Tree, m: Els, a: NodeId, s: NodeId)
    requires FolderChain(t, a, s) != [] && a in m
    ensures var e := HandleActive(t, m, Some(a), Some(s))[a];
            && e.style.opacity == "" && e.style.height == "" && e.style.maxHeight == "" && e.style.overflow == ""
            && Hidden !in e.attrs
  {
  }

  /** Every unrelated child of a chain folder's container ends concealed. */
  lemma SiblingConcealed(t: Tree, m: Els, a: NodeId, s: NodeId, k: nat, x: NodeId)
    requires k < |FolderChain(t, a, s)| && x in m && ChildAt(t, FolderChain(t, a, s)[k], x)
    requires Classify(t, FolderChain(t, a, s), a, x) == Off
    ensures Concealed(HandleActive(t, m, Some(a), Some(s))[x])
  {
    var chain := FolderChain(t, a, s);
    var m0 := MarkChain(t, m, chain, a);
    TreatLevelsEstablishes(t, m0, chain, a, chain, x, k, x, Concealed);
  }

  /** The label container of every on-path child is concealed, so only the active tab shows through. */
  lemma LabelConcealed(t: Tree, m: Els, a: NodeId, s: NodeId, k: nat, y: NodeId)
    requires Valid(t) && k < |FolderChain(t, a, s)| && y in m && ChildAt(t, FolderChain(t, a, s)[k], y)
    requires Classify(t, FolderChain(t, a, s), a, y) == OnPath
    requires LabelOf(t, y).Some? && LabelOf(t, y).value in m && !Contains(t, LabelOf(t, y).value, a)
    ensures Concealed(HandleActive(t, m, Some(a), Some(s))[LabelOf(t, y).value])
  {
    var chain := FolderChain(t, a, s);
    HandledLabelConcealed(t, m, chain, a, k, y);
  }

  lemma HandledLabelConcealed(t: Tree, m: Els, chain: seq<NodeId>, a: NodeId, k: nat, y: NodeId)
    requires Valid(t) && k < |chain| && y in m && ChildAt(t, chain[k], y)
    requires forall j :: 0 <= j < |chain| ==> IsFolder(t, chain[j])
    requires Classify(t, chain, a, y) == OnPath
    requires LabelOf(t, y).Some? && LabelOf(t, y).value in m && !Contains(t, LabelOf(t, y).value, a)
    ensures Concealed(Handled(t, m, chain, a)[LabelOf(t, y).value])
  {
    var l := LabelOf(t, y).value;
    assert !IsFolder(t, l);
    assert Classify(t, chain, a, l) == Off;
    var m0 := MarkChain(t, m, chain, a);
    TreatLevelsEstablishes(t, m0, chain, a, chain, l, k, y, Concealed);
  }

  /** Every on-path child of a chain folder's container ends visible and clipped. */
  lemma OnPathKept(t: Tree, m: Els, a: NodeId, s: NodeId, k: nat, x: NodeId)
    requires Valid(t) && k < |FolderChain(t, a, s)| && x in m && ChildAt(t, FolderChain(t, a, s)[k], x)
    requires Classify(t, FolderChain(t, a, s), a, x) == OnPath
    ensures KeptOnPath(HandleActive(t, m, Some(a), Some(s))[x])
  {
    HandledOnPathKept(t, m, FolderChain(t, a, s), a, k, x);
  }

  lemma HandledOnPathKept(t: Tree, m: Els, chain: seq<NodeId>, a: NodeId, k: nat, x: NodeId)
    requires Valid(t) && k < |chain| && x in m && ChildAt(t, chain[k], x)
    requires Classify(t, chain, a, x) == OnPath
    ensures KeptOnPath(Handled(t, m, chain, a)[x])
  {
    var m0 := MarkChain(t, m, chain, a);
    ContainerChildNotLabel(t, chain[k], x);
    TreatLevelsEstablishes(t, m0, chain, a, chain, x, k, x, KeptOnPath);
  }

  /** An on-path child is never marked as a hidden sibling: the marker is as it was before. */
  lemma OnPathNotConcealed(t: Tree, m: Els, a: NodeId, s: NodeId, k: nat, x: NodeId)
    requires Valid(t) && k < |FolderChain(t, a, s)| && x in m && ChildAt(t, FolderChain(t, a, s)[k], x)
    requires Classify(t, FolderChain(t, a, s), a, x) == OnPath
    ensures SiblingHidden in HandleActive(t, m, Some(a), Some(s))[x].attrs <==> SiblingHidden in m[x].attrs
  {
    HandledNotConcealed(t, m, FolderChain(t, a, s), a, k, x);
  }

  lemma HandledNotConcealed(t: Tree, m: Els, chain: seq<NodeId>, a: NodeId, k: nat, x: NodeId)
    requires Valid(t) && NoDup(chain) && k < |chain| && x in m && ChildAt(t, chain[k], x)
    requires Classify(t, chain, a, x) == OnPath
    ensures SiblingHidden in Handled(t, m, chain, a)[x].attrs <==> SiblingHidden in m[x].attrs
  {
    var m0 := MarkChain(t, m, chain, a);
    ContainerChildNotLabel(t, chain[k], x);
    MarkChainVisibility(t, m, chain, a, x);
    if SiblingHidden in m[x].attrs {
      TreatLevelsKeeps(t, m0, chain, a, chain, x, HasSiblingMark);
    } else {
      TreatLevelsKeeps(t, m0, chain, a, chain, x, LacksSiblingMark);
    }
  }

  /** Nothing outside the pinned section changes. */
  lemma HandleActiveFrame(t: Tree, m: Els, a: NodeId, s: NodeId, x: NodeId)
    requires Valid(t) && x in m && !Contains(t, s, x)
    ensures HandleActive(t, m, Some(a), Some(s))[x] == m[x]
  {
    var chain := FolderChain(t, a, s);
    if chain != [] {
      assert x !in chain;
      assert x != a by {
        if x == a { ContainsTransitive(t, s, chain[0], a); }
      }
      MarkChainVisibility(t, m, chain, a, x);
      TreatLevelsFrame(t, MarkChain(t, m, chain, a), chain, a, chain, x, s);
    }
  }

  // ---------------------------------------------------------------------------------------------
  // What cleanupActiveTabExpandZenStyle guarantees (lines 303-342)
  // ---------------------------------------------------------------------------------------------

  /** An element strictly inside the section is listed by the section's queries when it matches. */
  lemma InsideIsQueried(t: Tree, s: NodeId, x: NodeId)
    requires Valid(t) && x != s && Contains(t, s, x)
    ensures x in t.order
  {
    ContainsDepth(t, s, x);
  }

  /** The first clean-up pass reaches exactly the marked elements inside the section. */
  lemma UnconcealSiblingsAt(t: Tree, m: Els, s: NodeId, x: NodeId)
    requires NoDup(t.order) && x in m
    ensures UnconcealSiblings(t, m, s)[x] ==
              if x in t.order && x != s && Contains(t, s, x) && SiblingHidden in m[x].attrs then Unconceal(m[x]) else m[x]
  {
    ForEachAt(t, m, Select(t, m, s, SiblingHiddenSel), UnconcealOp, x);
  }

  /** The second clean-up pass reaches exactly the marked folders inside the section. */
  lemma UnmarkFoldersAt(t: Tree, m: Els, s: NodeId, x: NodeId)
    requires NoDup(t.order) && x in m
    ensures UnmarkFolders(t, m, s)[x] ==
              if x in t.order && x != s && Contains(t, s, x) && IsFolder(t, x) && CollapseActive in m[x].attrs
              then UnmarkFolder(m[x], HasIcon(t, x)) else m[x]
  {
    ForEachAt(t, m, Select(t, m, s, MarkedFolderSel), UnmarkFolderOp, x);
  }

  /**
    Inside the section no element keeps `zen-pinned-sibling-hidden`; every element that had it has its
    four hiding properties unset; no folder keeps `zen-pinned-collapse-active`; and a folder that had it
    loses `has-active` and shows an open, inactive icon.
  */
  lemma CleanupInside(t: Tree, m: Els, active: Option<NodeId>, s: NodeId, x: NodeId)
    requires Valid(t) && x in m && x != s && Contains(t, s, x)
    ensures var e := Cleanup(t, m, active, Some(s))[x];
            && SiblingHidden !in e.attrs
            && (SiblingHidden in m[x].attrs ==>
                  e.style.opacity == "" && e.style.height == "" && e.style.maxHeight == "" && e.style.overflow == "")
            && (IsFolder(t, x) ==> CollapseActive !in e.attrs)
            && (IsFolder(t, x) && CollapseActive in m[x].attrs ==> HasActive !in e.attrs && Collapsed !in e.attrs)
            && (HasIcon(t, x) && CollapseActive in m[x].attrs ==>
                  IconState in e.attrs && e.attrs[IconState] == "open" && IconActive in e.attrs && e.attrs[IconActive] == "false")
  {
    InsideIsQueried(t, s, x);
    CleanupListed(t, m, active, s, x);
  }

  lemma CleanupListed(t: Tree, m: Els, active: Option<NodeId>, s: NodeId, x: NodeId)
    requires NoDup(t.order) && x in t.order && x in m && x != s && Contains(t, s, x)
    ensures var e := Cleanup(t, m, active, Some(s))[x];
            && SiblingHidden !in e.attrs
            && (SiblingHidden in m[x].attrs ==>
                  e.style.opacity == "" && e.style.height == "" && e.style.maxHeight == "" && e.style.overflow == "")
            && (IsFolder(t, x) ==> CollapseActive !in e.attrs)
            && (IsFolder(t, x) && CollapseActive in m[x].attrs ==> HasActive !in e.attrs && Collapsed !in e.attrs)
            && (HasIcon(t, x) && CollapseActive in m[x].attrs ==>
                  IconState in e.attrs && e.attrs[IconState] == "open" && IconActive in e.attrs && e.attrs[IconActive] == "false")
  {
    var e1 := if SiblingHidden in m[x].attrs then Unconceal(m[x]) else m[x];
    var e2 := if IsFolder(t, x) && CollapseActive in e1.attrs then UnmarkFolder(e1, HasIcon(t, x)) else e1;
    CleanupListedIs(t, m, active, s, x, e1, e2);
    CleanedElement(m[x], IsFolder(t, x), HasIcon(t, x), active == Some(x));
  }

  lemma CleanupListedIs(t: Tree, m: Els, active: Option<NodeId>, s: NodeId, x: NodeId, e1: Element, e2: Element)
    requires NoDup(t.order) && x in t.order && x in m && x != s && Contains(t, s, x)
    requires e1 == if SiblingHidden in m[x].attrs then Unconceal(m[x]) else m[x]
    requires e2 == if IsFolder(t, x) && CollapseActive in e1.attrs then UnmarkFolder(e1, HasIcon(t, x)) else e1
    ensures Cleanup(t, m, active, Some(s))[x] == if active == Some(x) then UnmarkActive(e2) else e2
  {
    var m1 := UnconcealSiblings(t, m, s);
    UnconcealSiblingsAt(t, m, s, x);
    UnmarkFoldersAt(t, m1, s, x);
  }

  /** The three clean-up writes on one element inside the section, in order. */
  lemma CleanedElement(e0: Element, folder: bool, icon: bool, isTab: bool)
    ensures var e1 := if SiblingHidden in e0.attrs then Unconceal(e0) else e0;
            var e2 := if folder && CollapseActive in e1.attrs then UnmarkFolder(e1, icon) else e1;
            var e := if isTab then UnmarkActive(e2) else e2;
            && SiblingHidden !in e.attrs
            && (SiblingHidden in e0.attrs ==>
                  e.style.opacity == "" && e.style.height == "" && e.style.maxHeight == "" && e.style.overflow == "")
            && (folder ==> CollapseActive !in e.attrs)
            && (folder && CollapseActive in e0.attrs ==> HasActive !in e.attrs && Collapsed !in e.attrs)
            && (folder && icon && CollapseActive in e0.attrs ==>
                  IconState in e.attrs && e.attrs[IconState] == "open" && IconActive in e.attrs && e.attrs[IconActive] == "false")
  {
  }

  /** The tab loses `folder-active` and its indentation. */
  lemma CleanupTab(t: Tree, m: Els, a: NodeId, s: NodeId)
    requires a in m
    ensures var e := Cleanup(t, m, Some(a), Some(s))[a];
            FolderActive !in e.attrs && e.style.folderIndent == ""
  {
  }

  /** Nothing outside the section changes, except the tab's own `folder-active` and indentation. */
  lemma CleanupFrame(t: Tree, m: Els, active: Option<NodeId>, s: NodeId, x: NodeId)
    requires Valid(t) && x in m && !Contains(t, s, x) && active != Some(x)
    ensures Cleanup(t, m, active, Some(s))[x] == m[x]
  {
    if x !in t.order {
      UnconcealSiblingsAt(t, m, s, x);
      UnmarkFoldersAt(t, UnconcealSiblings(t, m, s), s, x);
    } else {
      assert x !in t.nodes || (x != s ==> !Contains(t, s, x)) by {
        if x != s && Contains(t, s, x) { ContainsDepth(t, s, x); }
      }
      UnconcealSiblingsAt(t, m, s, x);
      UnmarkFoldersAt(t, UnconcealSiblings(t, m, s), s, x);
    }
  }

  /** A child of a chain folder's container lies strictly inside the section. */
  lemma ChildInside(t: Tree, a: NodeId, s: NodeId, k: nat, x: NodeId)
    requires Valid(t) && k < |FolderChain(t, a, s)| && ChildAt(t, FolderChain(t, a, s)[k], x)
    ensures x != s && Contains(t, s, x)
  {
    var f := FolderChain(t, a, s)[k];
    var c := ContainerOf(t, f).value;
    ContainerContained(t, f);
    ChildContained(t, c, x);
    ContainsTransitive(t, f, c, x);
    ContainsTransitive(t, s, f, x);
    ContainsDepth(t, f, x);
    if f != s { ContainsDepth(t, s, f); }
  }

  /** Expanding undoes the concealment: a sibling hidden on collapse is shown again and unmarked. */
  lemma CleanupUndoesConceal(t: Tree, m: Els, a: NodeId, s: NodeId, k: nat, x: NodeId)
    requires Valid(t) && k < |FolderChain(t, a, s)| && x in m && ChildAt(t, FolderChain(t, a, s)[k], x)
    requires Classify(t, FolderChain(t, a, s), a, x) == Off
    ensures var e := Cleanup(t, HandleActive(t, m, Some(a), Some(s)), Some(a), Some(s))[x];
            && SiblingHidden !in e.attrs
            && e.style.opacity == "" && e.style.height == "" && e.style.maxHeight == "" && e.style.overflow == ""
  {
    SiblingConcealed(t, m, a, s, k, x);
    ChildInside(t, a, s, k, x);
    CleanupInside(t, HandleActive(t, m, Some(a), Some(s)), Some(a), s, x);
  }

  /**
    Expanding undoes the chain markers: every chain folder below the section ends unmarked and without
    `collapsed`, its icon open.
  */
  lemma CleanupUnmarksChain(t: Tree, m: Els, a: NodeId, s: NodeId, x: NodeId)
    requires Valid(t) && x in m && x in FolderChain(t, a, s) && x != s
    ensures var e := Cleanup(t, HandleActive(t, m, Some(a), Some(s)), Some(a), Some(s))[x];
            && CollapseActive !in e.attrs && HasActive !in e.attrs && Collapsed !in e.attrs
            && (HasIcon(t, x) ==>
                  IconState in e.attrs && e.attrs[IconState] == "open" && IconActive in e.attrs && e.attrs[IconActive] == "false")
  {
    ChainMarked(t, m, a, s, x);
    CleanupInside(t, HandleActive(t, m, Some(a), Some(s)), Some(a), s, x);
  }

  /**
    The clean-up as written leaves the chain root natively collapsed: after a collapse with the active
    tab, the marked-folder pass of lines 317-334 removes `zen-pinned-collapse-active` from the root and
    opens its icon but keeps the `collapsed="true"` of line 232; the expand write of the root item
    (`finalizeExpandedState`, which clears `collapsed` only under `zen-pinned-collapse-active`, line 511)
    then leaves it as it is. The root ends collapsed with an open icon.
  */
  lemma RootKeepsCollapsedAsWritten(t: Tree, m: Els, a: NodeId, s: NodeId, root: NodeId)
    requires Valid(t) && FolderChain(t, a, s) != [] && root == FolderChain(t, a, s)[|FolderChain(t, a, s)| - 1]
    requires root in m && root != s && HasIcon(t, root)
    ensures var m1 := UnconcealSiblings(t, HandleActive(t, m, Some(a), Some(s)), s);
            var e := FinalizeExpanded(UnmarkFoldersAsWritten(t, m1, s)[root], true);
            && Collapsed in e.attrs && e.attrs[Collapsed] == "true"
            && IconState in e.attrs && e.attrs[IconState] == "open"
  {
    var m0 := HandleActive(t, m, Some(a), Some(s));
    var m1 := UnconcealSiblings(t, m0, s);
    var e0 := m0[root];
    assert CollapseActive in e0.attrs && Collapsed in e0.attrs && e0.attrs[Collapsed] == "true" by {
      ChainMarked(t, m, a, s, root);
    }
    assert root in t.order && Contains(t, s, root) by {
      InsideIsQueried(t, s, root);
    }
    var e1 := if SiblingHidden in e0.attrs then Unconceal(e0) else e0;
    UnconcealSiblingsAt(t, m0, s, root);
    assert m1[root] == e1;
    AsWrittenKeepsCollapsed(e0);
    UnmarkFoldersAsWrittenAt(t, m1, s, root);
  }

  /** The marked-folder pass as written reaches exactly the marked folders inside the section. */
  lemma UnmarkFoldersAsWrittenAt(t: Tree, m: Els, s: NodeId, x: NodeId)
    requires NoDup(t.order) && x in m
    ensures UnmarkFoldersAsWritten(t, m, s)[x] ==
              if x in t.order && x != s && Contains(t, s, x) && IsFolder(t, x) && CollapseActive in m[x].attrs
              then UnmarkFolderAsWritten(m[x], HasIcon(t, x)) else m[x]
  {
    ForEachAt(t, m, Select(t, m, s, MarkedFolderSel), UnmarkFolderAsWrittenOp, x);
  }

  /** The three writes the root meets on expand, as written: `collapsed` survives them. */
  lemma AsWrittenKeepsCollapsed(e0: Element)
    requires CollapseActive in e0.attrs && Collapsed in e0.attrs && e0.attrs[Collapsed] == "true"
    ensures var e1 := if SiblingHidden in e0.attrs then Unconceal(e0) else e0;
            var e := FinalizeExpanded(UnmarkFolderAsWritten(e1, true), true);
            && CollapseActive in e1.attrs
            && Collapsed in e.attrs && e.attrs[Collapsed] == "true"
            && IconState in e.attrs && e.attrs[IconState] == "open"
  {
  }
}
