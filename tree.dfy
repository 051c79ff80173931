/**
  The shape of the pinned area as the collapse logic sees it: zen-folder elements, tab elements and the
  sub-elements of a folder it looks up (its label container, its `.tab-group-container`, the
  `zen-tab-group-start` marker child). The shape is not changed by the collapse logic, so it is a value.
  This module also holds the DOM queries the logic makes (`contains`, `closest('zen-folder')`) and the
  active-path resolution: the chain of enclosing folders of the active tab and the classification of a
  container child against it.
*/
module Tree {
  import opened Base

  datatype Kind =
    | Folder(labelNode: Option<NodeId>, containerNode: Option<NodeId>, hasIcon: bool) // zen-folder; hasIcon: its icon svg exists
    | Tab          // a tab element (`[is="tabbrowser-tab"]`, `.tabbrowser-tab`)
    | GroupStart   // the `.zen-tab-group-start` child at the head of a folder's container
    | Container    // `.tab-group-container`
    | Label        // `.tab-group-label-container`
    | Other        // the pinned section itself, separators, anything else

  /** `depth` is the distance from the document root; a parent is strictly shallower than its child. */
  datatype Node = Node(kind: Kind, parent: Option<NodeId>, children: seq<NodeId>, depth: nat)

  /** `order` lists every element once, in document order (the order of `querySelectorAll`). */
  datatype Tree = Tree(nodes: map<NodeId, Node>, order: seq<NodeId>)

  /** The shape is a proper tree whose folder sub-elements are where the lookups expect them. */
  ghost predicate Valid(t: Tree) {
    && NoDup(t.order)
    && (forall n :: n in t.nodes <==> n in t.order)
    && (forall n :: n in t.nodes ==> NoDup(t.nodes[n].children))
    && (forall n, c :: n in t.nodes && c in t.nodes[n].children ==> c in t.nodes && t.nodes[c].parent == Some(n))
    && (forall n :: n in t.nodes && t.nodes[n].parent.Some? ==>
          t.nodes[n].parent.value in t.nodes && t.nodes[t.nodes[n].parent.value].depth < t.nodes[n].depth)
    && (forall f :: f in t.nodes && t.nodes[f].kind.Folder? && t.nodes[f].kind.labelNode.Some? ==>
          var l := t.nodes[f].kind.labelNode.value;
          l in t.nodes && t.nodes[l].kind.Label? && t.nodes[l].parent == Some(f))
    && (forall f :: f in t.nodes && t.nodes[f].kind.Folder? && t.nodes[f].kind.containerNode.Some? ==>
          var c := t.nodes[f].kind.containerNode.value;
          c in t.nodes && t.nodes[c].kind.Container? && t.nodes[c].parent == Some(f))
  }

  function Depth(t: Tree, n: NodeId): nat {
    if n in t.nodes then t.nodes[n].depth else 0
  }

  predicate IsFolder(t: Tree, n: NodeId) {
    n in t.nodes && t.nodes[n].kind.Folder?
  }

  predicate IsTab(t: Tree, n: NodeId) {
    n in t.nodes && t.nodes[n].kind.Tab?
  }

  predicate IsGroupStart(t: Tree, n: NodeId) {
    n in t.nodes && t.nodes[n].kind.GroupStart?
  }

  predicate HasIcon(t: Tree, n: NodeId) {
    IsFolder(t, n) && t.nodes[n].kind.hasIcon
  }

  /** `folder.querySelector('.tab-group-container')`: the folder's own container. */
  function ContainerOf(t: Tree, n: NodeId): Option<NodeId> {
    if IsFolder(t, n) then t.nodes[n].kind.containerNode else None
  }

  /** `child.querySelector('.tab-group-label-container')`: the folder's own label container. */
  function LabelOf(t: Tree, n: NodeId): Option<NodeId> {
    if IsFolder(t, n) then t.nodes[n].kind.labelNode else None
  }

  /** `Array.from(element.children)`. */
  function ChildrenOf(t: Tree, n: NodeId): seq<NodeId> {
    if n in t.nodes then t.nodes[n].children else []
  }

  /** `element.parentElement`; a parent that is not strictly shallower is treated as absent. */
  function Parent(t: Tree, n: NodeId): (r: Option<NodeId>)
    ensures r.Some? ==> n in t.nodes && r.value in t.nodes && Depth(t, r.value) < Depth(t, n)
    ensures Valid(t) && n in t.nodes ==> r == t.nodes[n].parent
  {
    if n in t.nodes && t.nodes[n].parent.Some? && t.nodes[n].parent.value in t.nodes
       && t.nodes[t.nodes[n].parent.value].depth < t.nodes[n].depth
    then t.nodes[n].parent
    else None
  }

  /** `a.contains(b)`: `b` is `a` or lies inside it. */
  predicate Contains(t: Tree, a: NodeId, b: NodeId)
    decreases Depth(t, b)
  {
    a == b || (Parent(t, b).Some? && Contains(t, a, Parent(t, b).value))
  }

  /** A strict container is an element of the tree and strictly shallower than what it contains. */
  lemma {:induction false} ContainsDepth(t: Tree, a: NodeId, b: NodeId)
    requires Contains(t, a, b) && a != b
    ensures a in t.nodes && b in t.nodes && Depth(t, a) < Depth(t, b)
    decreases Depth(t, b)
  {
    var p := Parent(t, b).value;
    if a != p {
      ContainsDepth(t, a, p);
    }
  }

  lemma {:induction false} ContainsTransitive(t: Tree, a: NodeId, b: NodeId, c: NodeId)
    requires Contains(t, a, b) && Contains(t, b, c)
    ensures Contains(t, a, c)
    decreases Depth(t, c)
  {
    if b != c {
      ContainsTransitive(t, a, b, Parent(t, c).value);
    }
  }

  /** Every child of an element lies inside it. */
  lemma ChildContained(t: Tree, n: NodeId, c: NodeId)
    requires Valid(t) && c in ChildrenOf(t, n)
    ensures Contains(t, n, c)
  {
    assert Parent(t, c) == Some(n);
  }

  /** A folder's label container lies inside the folder. */
  lemma LabelContained(t: Tree, f: NodeId)
    requires Valid(t) && LabelOf(t, f).Some?
    ensures Contains(t, f, LabelOf(t, f).value)
  {
    assert Parent(t, LabelOf(t, f).value) == Some(f);
  }

  /** A folder's own container lies inside the folder. */
  lemma ContainerContained(t: Tree, f: NodeId)
    requires Valid(t) && ContainerOf(t, f).Some?
    ensures Contains(t, f, ContainerOf(t, f).value)
  {
    assert Parent(t, ContainerOf(t, f).value) == Some(f);
  }

  /** `element.closest('zen-folder')`: the element itself when it is a folder, else its nearest folder ancestor. */
  function ClosestFolder(t: Tree, n: NodeId): (r: Option<NodeId>)
    ensures r.Some? ==> IsFolder(t, r.value) && Contains(t, r.value, n)
    ensures r.Some? ==> forall f :: IsFolder(t, f) && Contains(t, f, n) ==> Contains(t, f, r.value)
    ensures r.None? ==> forall f :: IsFolder(t, f) ==> !Contains(t, f, n)
    decreases Depth(t, n)
  {
    if IsFolder(t, n) then Some(n)
    else match Parent(t, n)
      case None => None
      case Some(p) => ClosestFolder(t, p)
  }

  /** `element.parentElement?.closest('zen-folder')`: the nearest folder strictly enclosing the element. */
  function EnclosingFolder(t: Tree, n: NodeId): (r: Option<NodeId>)
    ensures r.Some? ==> IsFolder(t, r.value) && Contains(t, r.value, n) && r.value != n
    ensures r.Some? ==> Depth(t, r.value) < Depth(t, n)
    ensures r.Some? ==> forall f :: IsFolder(t, f) && Contains(t, f, n) && f != n ==> Contains(t, f, r.value)
    ensures r.None? ==> forall f :: IsFolder(t, f) && f != n ==> !Contains(t, f, n)
  {
    match Parent(t, n)
    case None => None
    case Some(p) =>
      var r := ClosestFolder(t, p);
      assert r.Some? ==> Depth(t, r.value) < Depth(t, n) by {
        if r.Some? && r.value != p { ContainsDepth(t, r.value, p); }
      }
      assert forall f :: Contains(t, f, n) && f != n ==> Contains(t, f, p);
      r
  }

  /**
    The folder chain climbed from `cur` while the current folder lies inside `section` (lines 189-193):
    every element is a folder inside the section that contains the first one, and the later ones are
    strictly shallower than the first.
  */
  function ChainFrom(t: Tree, cur: Option<NodeId>, section: NodeId): (r: seq<NodeId>)
    ensures cur.None? ==> r == []
    ensures r != [] ==> cur.Some? && r[0] == cur.value
    ensures forall k :: 0 <= k < |r| ==> IsFolder(t, r[k]) && Contains(t, section, r[k]) && Contains(t, r[k], r[0])
    ensures forall k :: 0 < k < |r| ==> Depth(t, r[k]) < Depth(t, r[0])
    decreases if cur.Some? then Depth(t, cur.value) + 1 else 0
  {
    if cur.Some? && IsFolder(t, cur.value) && Contains(t, section, cur.value) then
      var c := cur.value;
      var next := EnclosingFolder(t, c);
      var rest := ChainFrom(t, next, section);
      forall k | 0 <= k < |rest| ensures Contains(t, rest[k], c) && Depth(t, rest[k]) < Depth(t, c) {
        ContainsTransitive(t, rest[k], next.value, c);
      }
      [c] + rest
    else []
  }

  /** Each element of the chain is the enclosing folder of the one before it. */
  lemma {:induction false} ChainLinks(t: Tree, cur: Option<NodeId>, section: NodeId)
    ensures forall k :: 0 <= k < |ChainFrom(t, cur, section)| - 1 ==>
              EnclosingFolder(t, ChainFrom(t, cur, section)[k]) == Some(ChainFrom(t, cur, section)[k + 1])
    decreases if cur.Some? then Depth(t, cur.value) + 1 else 0
  {
    if cur.Some? && IsFolder(t, cur.value) && Contains(t, section, cur.value) {
      var next := EnclosingFolder(t, cur.value);
      ChainLinks(t, next, section);
      var r := ChainFrom(t, cur, section);
      var rest := ChainFrom(t, next, section);
      assert r == [cur.value] + rest;
      forall k | 0 <= k < |r| - 1 ensures EnclosingFolder(t, r[k]) == Some(r[k + 1]) {
        if k > 0 {
          assert r[k] == rest[k - 1] && r[k + 1] == rest[k];
        } else {
          assert rest != [] && r[1] == rest[0] == next.value;
        }
      }
    }
  }

  /** The climb stops exactly at the first folder outside the section, or when no folder encloses the last one. */
  lemma {:induction false} ChainStops(t: Tree, cur: Option<NodeId>, section: NodeId)
    ensures var r := ChainFrom(t, cur, section);
            && (r == [] ==> cur.None? || !IsFolder(t, cur.value) || !Contains(t, section, cur.value))
            && (r != [] ==> EnclosingFolder(t, r[|r| - 1]).None? || !Contains(t, section, EnclosingFolder(t, r[|r| - 1]).value))
    decreases if cur.Some? then Depth(t, cur.value) + 1 else 0
  {
    if cur.Some? && IsFolder(t, cur.value) && Contains(t, section, cur.value) {
      var next := EnclosingFolder(t, cur.value);
      ChainStops(t, next, section);
      var r := ChainFrom(t, cur, section);
      var rest := ChainFrom(t, next, section);
      assert r == [cur.value] + rest;
      if rest == [] {
        assert r[|r| - 1] == cur.value;
      } else {
        assert r[|r| - 1] == rest[|rest| - 1];
      }
    }
  }

  /** No folder occurs twice in a chain: depths strictly decrease along it. */
  lemma {:induction false} ChainDistinct(t: Tree, cur: Option<NodeId>, section: NodeId)
    ensures NoDup(ChainFrom(t, cur, section))
    decreases if cur.Some? then Depth(t, cur.value) + 1 else 0
  {
    if cur.Some? && IsFolder(t, cur.value) && Contains(t, section, cur.value) {
      var next := EnclosingFolder(t, cur.value);
      ChainDistinct(t, next, section);
      var r := ChainFrom(t, cur, section);
      forall i, j | 0 <= i < j < |r| ensures r[i] != r[j] {
        if i > 0 {
          assert r[i] == ChainFrom(t, next, section)[i - 1] && r[j] == ChainFrom(t, next, section)[j - 1];
        } else {
          assert Depth(t, r[j]) < Depth(t, r[0]);
        }
      }
    }
  }

  /** The folder chain of the active tab, innermost first (`folderChain` in lines 188-193). */
  function FolderChain(t: Tree, active: NodeId, section: NodeId): (r: seq<NodeId>)
    ensures r != [] ==> Some(r[0]) == ClosestFolder(t, active)
    ensures forall k :: 0 <= k < |r| ==> IsFolder(t, r[k]) && Contains(t, section, r[k]) && Contains(t, r[k], active)
    ensures NoDup(r)
  {
    var cur := ClosestFolder(t, active);
    var r := ChainFrom(t, cur, section);
    forall k | 0 <= k < |r| ensures Contains(t, r[k], active) {
      ContainsTransitive(t, r[k], cur.value, active);
    }
    ChainDistinct(t, cur, section);
    r
  }

  datatype Role = ActiveLeaf | OnPath | Off

  /**
    The treatment a container child gets at a chain level (lines 257-259): the active tab itself, an
    element on the path to it (it contains the active tab or is a chain folder), or an unrelated sibling.
  */
  function Classify(t: Tree, chain: seq<NodeId>, active: NodeId, x: NodeId): (r: Role)
    ensures r == ActiveLeaf <==> x == active
    ensures r == Off <==> x != active && !Contains(t, x, active) && x !in chain
  {
    if x == active then ActiveLeaf
    else if Contains(t, x, active) || x in chain then OnPath
    else Off
  }

  /**
    Against the real folder chain the `folderChain.includes(child)` test adds nothing: a child is on the
    path exactly when it strictly contains the active tab.
  */
  lemma OnPathIsStrictAncestor(t: Tree, active: NodeId, section: NodeId, x: NodeId)
    ensures Classify(t, FolderChain(t, active, section), active, x) == OnPath
        <==> x != active && Contains(t, x, active)
  {
  }
}
