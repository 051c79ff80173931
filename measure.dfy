/**
  Measuring an item's full height while parts of it are collapsed (lines 136-181, 385-406): the nested
  collapsed elements are snapshotted, blanked for the measurement and written back, and a hidden
  container is shown for the measurement and hidden again.
*/
module Measure {
  import opened Base
  import opened Tree
  import opened Elements
  import opened Sweeps

  /** The elements a list of snapshots refers to, in order. */
  function Ids(snaps: seq<Snapshot>): (r: seq<NodeId>)
    ensures |r| == |snaps| && forall k :: 0 <= k < |r| ==> r[k] == snaps[k].element
  {
    if snaps == [] then [] else [snaps[0].element] + Ids(snaps[1..])
  }

  /** Each snapshot holds the seven properties its element has in `m`. */
  ghost predicate Faithful(m: Els, snaps: seq<Snapshot>) {
    forall k :: 0 <= k < |snaps| ==> snaps[k].element in m && snaps[k] == Capture(snaps[k].element, m[snaps[k].element])
  }

  /** A snapshot of each listed element, in list order. */
  function Captures(m: Els, ids: seq<NodeId>): (r: seq<Snapshot>)
    requires forall n :: n in ids ==> n in m
  {
    if ids == [] then [] else [Capture(ids[0], m[ids[0]])] + Captures(m, ids[1..])
  }

  /** The snapshots list exactly the given elements, each faithfully. */
  lemma {:induction false} CapturesFaithful(m: Els, ids: seq<NodeId>)
    requires forall n :: n in ids ==> n in m
    ensures Ids(Captures(m, ids)) == ids && Faithful(m, Captures(m, ids))
    decreases |ids|
  {
    if ids != [] {
      CapturesFaithful(m, ids[1..]);
      var r := Captures(m, ids);
      assert r == [Capture(ids[0], m[ids[0]])] + Captures(m, ids[1..]);
      assert Ids(r) == [ids[0]] + Ids(Captures(m, ids[1..]));
      forall k | 0 <= k < |r| ensures r[k].element in m && r[k] == Capture(r[k].element, m[r[k].element]) {
        if k > 0 {
          assert r[k] == Captures(m, ids[1..])[k - 1];
        }
      }
    }
  }

  /**
    `getNestedCollapsedItems(item)`: a faithful snapshot of exactly the folders and tabs strictly inside
    the item whose max-height is `0px`, in document order, each once.
  */
  function NestedCollapsed(t: Tree, m: Els, item: NodeId): (r: seq<Snapshot>)
    ensures Faithful(m, r)
    ensures forall n :: n in Ids(r) <==>
      n in t.order && n in m && n != item && Contains(t, item, n) && (IsFolder(t, n) || IsTab(t, n)) && m[n].style.maxHeight == "0px"
    ensures NoDup(t.order) ==> NoDup(Ids(r))
  {
    var ids := Select(t, m, item, CollapsedItemSel);
    CapturesFaithful(m, ids);
    Captures(m, ids)
  }

  /** `expandNestedForMeasurement`. */
  function ExpandNested(m: Els, snaps: seq<Snapshot>): (r: Els)
    ensures r.Keys == m.Keys
    decreases |snaps|
  {
    if snaps == [] then m
    else ExpandNested(ClearOne(m, snaps[0].element), snaps[1..])
  }

  function ClearOne(m: Els, n: NodeId): (r: Els)
    ensures r.Keys == m.Keys
  {
    if n in m then m[n := ClearForMeasure(m[n])] else m
  }

  lemma {:induction false} ExpandNestedAt(m: Els, snaps: seq<Snapshot>, x: NodeId)
    requires x in m
    ensures ExpandNested(m, snaps)[x] == if x in Ids(snaps) then ClearForMeasure(m[x]) else m[x]
    decreases |snaps|
  {
    if snaps != [] {
      assert Ids(snaps) == [snaps[0].element] + Ids(snaps[1..]);
      ExpandNestedAt(ClearOne(m, snaps[0].element), snaps[1..], x);
    }
  }

  /** `restoreNestedCollapsed`. */
  function RestoreNested(m: Els, snaps: seq<Snapshot>): (r: Els)
    ensures r.Keys == m.Keys
    decreases |snaps|
  {
    if snaps == [] then m
    else RestoreNested(RestoreOne(m, snaps[0]), snaps[1..])
  }

  function RestoreOne(m: Els, s: Snapshot): (r: Els)
    ensures r.Keys == m.Keys
  {
    if s.element in m then m[s.element := RestoreFrom(m[s.element], s)] else m
  }

  lemma {:induction false} RestoreOutside(m: Els, snaps: seq<Snapshot>, x: NodeId)
    requires x in m && x !in Ids(snaps)
    ensures RestoreNested(m, snaps)[x] == m[x]
    decreases |snaps|
  {
    if snaps != [] {
      assert Ids(snaps) == [snaps[0].element] + Ids(snaps[1..]);
      RestoreOutside(RestoreOne(m, snaps[0]), snaps[1..], x);
    }
  }

  /** Restoring distinct elements writes each one back from its own snapshot. */
  lemma {:induction false} RestoreAt(m: Els, snaps: seq<Snapshot>, k: nat)
    requires NoDup(Ids(snaps)) && k < |snaps| && snaps[k].element in m
    ensures RestoreNested(m, snaps)[snaps[k].element] == RestoreFrom(m[snaps[k].element], snaps[k])
    decreases |snaps|
  {
    var s := snaps[0];
    var rest := snaps[1..];
    var m1 := RestoreOne(m, s);
    assert RestoreNested(m, snaps) == RestoreNested(m1, rest);
    assert Ids(snaps) == [s.element] + Ids(rest);
    NoDupTail(Ids(snaps));
    assert Ids(snaps)[1..] == Ids(rest);
    if k == 0 {
      assert s.element !in Ids(rest);
      RestoreOutside(m1, rest, s.element);
    } else {
      assert rest[k - 1] == snaps[k];
      assert snaps[k].element == Ids(snaps)[k];
      assert snaps[k].element != s.element;
      assert m1[snaps[k].element] == m[snaps[k].element];
      RestoreAt(m1, rest, k - 1);
    }
  }

  /**
    Blanking and restoring leaves every listed element with exactly the seven properties its snapshot
    recorded, whatever they were in between.
  */
  lemma RestoreMatchesSnapshot(m: Els, snaps: seq<Snapshot>, k: nat)
    requires NoDup(Ids(snaps)) && k < |snaps| && snaps[k].element in m
    ensures Capture(snaps[k].element, RestoreNested(ExpandNested(m, snaps), snaps)[snaps[k].element]) == snaps[k]
  {
    RestoreAt(ExpandNested(m, snaps), snaps, k);
  }

  /** Round trip: blanking then restoring a faithful snapshot gives back the state it was taken from. */
  lemma RoundTrip(m: Els, snaps: seq<Snapshot>)
    requires NoDup(Ids(snaps)) && Faithful(m, snaps)
    ensures RestoreNested(ExpandNested(m, snaps), snaps) == m
  {
    var m1 := ExpandNested(m, snaps);
    var r := RestoreNested(m1, snaps);
    forall x | x in m ensures r[x] == m[x] {
      ExpandNestedAt(m, snaps, x);
      if x in Ids(snaps) {
        var k :| 0 <= k < |snaps| && Ids(snaps)[k] == x;
        RestoreAt(m1, snaps, k);
        RestoreUndoesClear(x, m[x]);
      } else {
        RestoreOutside(m1, snaps, x);
      }
    }
  }

  /** The folder's own container when it carries `hidden` (`wasHidden` in line 388). */
  function HiddenContainer(t: Tree, m: Els, item: NodeId): (r: Option<NodeId>)
    ensures r.Some? ==> r.value in m && Hidden in m[r.value].attrs && ContainerOf(t, item) == r
  {
    match ContainerOf(t, item)
    case None => None
    case Some(c) => if c in m && Hidden in m[c].attrs then Some(c) else None
  }

  /** The item's hidden container, shown. */
  function ShowContainer(t: Tree, m: Els, item: NodeId): (r: Els)
    ensures r.Keys == m.Keys
  {
    var hc := HiddenContainer(t, m, item);
    if hc.Some? then m[hc.value := RemoveAttr(m[hc.value], Hidden)] else m
  }

  /** The state the measurement is taken in: container shown, nested collapsed elements blanked. */
  function MeasuringState(t: Tree, m: Els, item: NodeId, snaps: seq<Snapshot>): (r: Els)
    ensures r.Keys == m.Keys
  {
    ExpandNested(ShowContainer(t, m, item), snaps)
  }

  datatype Measured = Measured(height: nat, els: Els)

  /** `measureFullHeight` (lines 386-401): the scroll height in the measuring state, and the state after. */
  function MeasureFullHeight(t: Tree, L: Layout, m: Els, item: NodeId, snaps: seq<Snapshot>): (r: Measured)
    ensures r.els.Keys == m.Keys
  {
    var hc := HiddenContainer(t, m, item);
    var m2 := MeasuringState(t, m, item, snaps);
    var m3 := RestoreNested(m2, snaps);
    Measured(L.scrollHeight(item, m2), if hc.Some? then m3[hc.value := SetAttr(m3[hc.value], Hidden, "true")] else m3)
  }

  /** After blanking, no listed element keeps any of the seven collapsing properties. */
  lemma ExpandedNative(m: Els, snaps: seq<Snapshot>, x: NodeId)
    requires x in m && x in Ids(snaps)
    ensures NativeLayout(ExpandNested(m, snaps)[x])
  {
    ExpandNestedAt(m, snaps, x);
    ClearedIsNative(m[x]);
  }

  /** In the measuring state no listed element keeps any of the seven collapsing properties. */
  lemma MeasuredExpanded(t: Tree, m: Els, item: NodeId, snaps: seq<Snapshot>, x: NodeId)
    requires x in m && x in Ids(snaps)
    ensures NativeLayout(MeasuringState(t, m, item, snaps)[x])
  {
    ExpandedNative(ShowContainer(t, m, item), snaps, x);
  }

  /** In the measuring state the item's hidden container is shown. */
  lemma MeasuredShown(t: Tree, m: Els, item: NodeId, snaps: seq<Snapshot>, c: NodeId)
    requires NoDup(Ids(snaps)) && HiddenContainer(t, m, item) == Some(c) && c !in Ids(snaps)
    ensures Hidden !in MeasuringState(t, m, item, snaps)[c].attrs
  {
    ExpandNestedAt(ShowContainer(t, m, item), snaps, c);
  }

  /**
    Measuring changes nothing but the value of a hidden container's `hidden` attribute (rewritten to
    `true`), provided the snapshot is faithful and does not list the container.
  */
  lemma MeasureLeavesStateIntact(t: Tree, L: Layout, m: Els, item: NodeId, snaps: seq<Snapshot>)
    requires NoDup(Ids(snaps)) && Faithful(m, snaps)
    requires HiddenContainer(t, m, item).Some? ==> HiddenContainer(t, m, item).value !in Ids(snaps)
    ensures var hc := HiddenContainer(t, m, item);
            MeasureFullHeight(t, L, m, item, snaps).els == if hc.Some? then m[hc.value := SetAttr(m[hc.value], Hidden, "true")] else m
  {
    var hc := HiddenContainer(t, m, item);
    var m1 := ShowContainer(t, m, item);
    assert Faithful(m1, snaps) by {
      forall k | 0 <= k < |snaps| ensures snaps[k].element in m1 && snaps[k] == Capture(snaps[k].element, m1[snaps[k].element]) {
        assert Ids(snaps)[k] == snaps[k].element;
      }
    }
    RoundTrip(m1, snaps);
    if hc.Some? {
      var c := hc.value;
      assert (m[c].attrs - {Hidden})[Hidden := "true"] == m[c].attrs[Hidden := "true"];
      assert SetAttr(m1[c], Hidden, "true") == SetAttr(m[c], Hidden, "true");
    }
  }

  /** A container is never among the nested collapsed items, which are folders and tabs. */
  lemma ContainerNotNested(t: Tree, m: Els, item: NodeId)
    requires Valid(t)
    ensures var hc := HiddenContainer(t, m, item);
            hc.Some? ==> hc.value !in Ids(NestedCollapsed(t, m, item))
  {
  }

  /** Measuring writes only the listed elements (and puts them back) and the item's hidden container. */
  lemma MeasureFrame(t: Tree, L: Layout, m: Els, item: NodeId, snaps: seq<Snapshot>, x: NodeId)
    requires x in m && x !in Ids(snaps) && HiddenContainer(t, m, item) != Some(x)
    ensures MeasureFullHeight(t, L, m, item, snaps).els[x] == m[x]
  {
    var m1 := ShowContainer(t, m, item);
    ExpandNestedAt(m1, snaps, x);
    RestoreOutside(ExpandNested(m1, snaps), snaps, x);
  }
}
