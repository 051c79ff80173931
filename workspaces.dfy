/**
  The per-workspace state store (lines 12-62): a collapsed flag and an active tab per workspace id,
  kept only for the session. A workspace id is a string; the empty string stands for every id
  JavaScript treats as false (null, undefined, ''), for which the setters do nothing and the getters
  answer the defaults.
*/
module Workspaces {
  import opened Base

  type WorkspaceId = string

  /** `activeTabStates` with one key removed, keeping the insertion order of the others. */
  function Without(order: seq<WorkspaceId>, id: WorkspaceId): (r: seq<WorkspaceId>)
    ensures forall k :: k in r <==> k in order && k != id
    ensures NoDup(order) ==> NoDup(r)
    ensures |r| <= |order|
  {
    if order == [] then []
    else if order[0] == id then Without(order[1..], id)
    else
      var rest := Without(order[1..], id);
      assert NoDup(order) ==> NoDup(order[1..]) && order[0] !in rest by {
        if NoDup(order) { NoDupTail(order); }
      }
      [order[0]] + rest
  }

  /** Deleting a key that is not there leaves the iteration order as it was. */
  lemma {:induction false} WithoutAbsent(order: seq<WorkspaceId>, id: WorkspaceId)
    requires id !in order
    ensures Without(order, id) == order
  {
    if order != [] {
      WithoutAbsent(order[1..], id);
      assert order == [order[0]] + order[1..];
    }
  }

  /**
    Deleting the key at position `k` of a duplicate-free order closes the gap: every other key keeps
    its place relative to the rest, as `Map.delete` does.
  */
  lemma {:induction false} WithoutAt(order: seq<WorkspaceId>, id: WorkspaceId, k: nat)
    requires NoDup(order) && k < |order| && order[k] == id
    ensures Without(order, id) == order[..k] + order[k + 1..]
  {
    NoDupTail(order);
    if k == 0 {
      WithoutAbsent(order[1..], id);
    } else {
      assert order[0] != id;
      WithoutAt(order[1..], id, k - 1);
      assert order[1..][..k - 1] == order[1..k];
      assert order[1..][k..] == order[k + 1..];
      assert order[..k] == [order[0]] + order[1..k];
    }
  }

  /**
    The position, in iteration order, of the first workspace whose active tab is `tab`: the entry
    `handleTabClose` stops at (lines 1392-1406).
  */
  function FirstHolding(order: seq<WorkspaceId>, tabs: map<WorkspaceId, NodeId>, tab: NodeId): (r: Option<nat>)
    ensures r.Some? ==> r.value < |order| && order[r.value] in tabs && tabs[order[r.value]] == tab
    ensures r.Some? ==> forall j :: 0 <= j < r.value ==> order[j] !in tabs || tabs[order[j]] != tab
    ensures r.None? ==> forall j :: 0 <= j < |order| ==> order[j] !in tabs || tabs[order[j]] != tab
  {
    if order == [] then None
    else if order[0] in tabs && tabs[order[0]] == tab then Some(0)
    else
      match FirstHolding(order[1..], tabs, tab)
      case None => None
      case Some(i) => Some(i + 1)
  }

  class WorkspaceStore {
    /** `collapsedStates`. */
    var collapsedStates: map<WorkspaceId, bool>
    /** `activeTabStates`. */
    var activeTabStates: map<WorkspaceId, NodeId>
    /** The keys of `activeTabStates` in the order a JavaScript Map iterates them (insertion order). */
    var activeOrder: seq<WorkspaceId>

    ghost predicate Valid()
      reads this
    {
      && NoDup(activeOrder)
      && (forall id :: id in activeTabStates <==> id in activeOrder)
      && "" !in collapsedStates
      && "" !in activeTabStates
    }

    constructor ()
      ensures Valid()
      ensures collapsedStates == map[] && activeTabStates == map[] && activeOrder == []
    {
      collapsedStates := map[];
      activeTabStates := map[];
      activeOrder := [];
    }

    /** `isWorkspaceCollapsed` (lines 36-40): false unless a true flag was stored for the id. */
    function IsCollapsed(id: WorkspaceId): (r: bool)
      reads this
      ensures id == "" || id !in collapsedStates ==> !r
      ensures id != "" && id in collapsedStates ==> r == collapsedStates[id]
    {
      id != "" && id in collapsedStates && collapsedStates[id]
    }

    /** `getWorkspaceActiveTab` (lines 49-52). */
    function ActiveTab(id: WorkspaceId): (r: Option<NodeId>)
      reads this
      ensures id == "" || id !in activeTabStates ==> r.None?
      ensures id != "" && id in activeTabStates ==> r == Some(activeTabStates[id])
    {
      if id != "" && id in activeTabStates then Some(activeTabStates[id]) else None
    }

    /** `setWorkspaceCollapsed` (lines 43-46). */
    method SetCollapsed(id: WorkspaceId, collapsed: bool)
      requires Valid()
      modifies this
      ensures Valid()
      ensures collapsedStates == if id == "" then old(collapsedStates) else old(collapsedStates)[id := collapsed]
      ensures activeTabStates == old(activeTabStates) && activeOrder == old(activeOrder)
      ensures id != "" ==> IsCollapsed(id) == collapsed
      ensures forall other :: other != id ==> IsCollapsed(other) == old(IsCollapsed(other))
    {
      if id == "" {
        return;
      }
      collapsedStates := collapsedStates[id := collapsed];
    }

    /**
      `setWorkspaceActiveTab` (lines 55-62): a tab is stored (a new key goes to the end of the
      iteration order, an existing key keeps its place), null deletes the entry.
    */
    method SetActiveTab(id: WorkspaceId, tab: Option<NodeId>)
      requires Valid()
      modifies this
      ensures Valid()
      ensures collapsedStates == old(collapsedStates)
      ensures activeTabStates ==
        if id == "" then old(activeTabStates)
        else if tab.Some? then old(activeTabStates)[id := tab.value]
        else old(activeTabStates) - {id}
      ensures id != "" ==> ActiveTab(id) == tab
      ensures forall other :: other != id ==> ActiveTab(other) == old(ActiveTab(other))
      ensures id == "" ==> activeOrder == old(activeOrder)
      ensures id != "" && tab.Some? ==>
        activeOrder == if id in old(activeTabStates) then old(activeOrder) else old(activeOrder) + [id]
      ensures id != "" && tab.None? ==> activeOrder == Without(old(activeOrder), id)
    {
      if id == "" {
        return;
      }
      if tab.Some? {
        if id !in activeTabStates {
          activeOrder := activeOrder + [id];
        }
        activeTabStates := activeTabStates[id := tab.value];
      } else {
        activeOrder := Without(activeOrder, id);
        activeTabStates := activeTabStates - {id};
      }
    }

    /**
      `handleTabClose` (lines 1387-1409), store part: the first workspace, in iteration order, whose
      active tab is the closed tab loses its entry; every other entry and every collapsed flag stay.
    */
    method HandleTabClose(closed: Option<NodeId>)
      requires Valid()
      modifies this
      ensures Valid()
      ensures collapsedStates == old(collapsedStates)
      ensures closed.None? ==> activeTabStates == old(activeTabStates) && activeOrder == old(activeOrder)
      ensures closed.Some? ==>
        match FirstHolding(old(activeOrder), old(activeTabStates), closed.value)
        case None => activeTabStates == old(activeTabStates) && activeOrder == old(activeOrder)
        case Some(i) =>
          && activeTabStates == old(activeTabStates) - {old(activeOrder)[i]}
          && activeOrder == Without(old(activeOrder), old(activeOrder)[i])
          && activeOrder == old(activeOrder)[..i] + old(activeOrder)[i + 1..]
    {
      if closed.None? {
        return;
      }
      var i := 0;
      while i < |activeOrder|
        invariant 0 <= i <= |activeOrder|
        invariant activeOrder == old(activeOrder) && activeTabStates == old(activeTabStates)
        invariant forall j :: 0 <= j < i ==> activeTabStates[activeOrder[j]] != closed.value
      {
        var id := activeOrder[i];
        if activeTabStates[id] == closed.value {
          FirstHoldingAt(activeOrder, activeTabStates, closed.value, i);
          WithoutAt(activeOrder, id, i);
          SetActiveTab(id, None);
          return;
        }
        i := i + 1;
      }
      FirstHoldingNone(activeOrder, activeTabStates, closed.value);
    }

    /**
      The flip in `toggleFolders` (lines 1079-1081): the new flag is the negation of the stored one
      (absent counts as expanded) and is stored for a real id.
    */
    method ToggleCollapsed(id: WorkspaceId) returns (isCollapsed: bool)
      requires Valid()
      modifies this
      ensures Valid()
      ensures isCollapsed == !old(IsCollapsed(id))
      ensures collapsedStates == if id == "" then old(collapsedStates) else old(collapsedStates)[id := isCollapsed]
      ensures activeTabStates == old(activeTabStates) && activeOrder == old(activeOrder)
    {
      var wasCollapsed := IsCollapsed(id);
      isCollapsed := !wasCollapsed;
      SetCollapsed(id, isCollapsed);
    }

    /**
      Two flips in a row, as two `toggleFolders` calls make them: the second undoes the first, so the
      flag reads as before (an absent flag reads as expanded), and no other workspace reads differently.
    */
    method ToggleTwice(id: WorkspaceId) returns (first: bool, second: bool)
      requires Valid()
      modifies this
      ensures Valid()
      ensures first == !old(IsCollapsed(id))
      ensures id != "" ==> second == !first
      ensures id == "" ==> first && second
      ensures IsCollapsed(id) == old(IsCollapsed(id))
      ensures forall other :: other != id ==> IsCollapsed(other) == old(IsCollapsed(other))
      ensures activeTabStates == old(activeTabStates) && activeOrder == old(activeOrder)
    {
      first := ToggleCollapsed(id);
      second := ToggleCollapsed(id);
    }
  }

  /** The scan stops at the first holder: a matching index with no earlier match is what FirstHolding finds. */
  lemma {:induction false} FirstHoldingAt(order: seq<WorkspaceId>, tabs: map<WorkspaceId, NodeId>, tab: NodeId, i: nat)
    requires i < |order| && order[i] in tabs && tabs[order[i]] == tab
    requires forall j :: 0 <= j < i ==> order[j] !in tabs || tabs[order[j]] != tab
    ensures FirstHolding(order, tabs, tab) == Some(i)
    decreases i
  {
    if i > 0 {
      FirstHoldingAt(order[1..], tabs, tab, i - 1);
    }
  }

  lemma {:induction false} FirstHoldingNone(order: seq<WorkspaceId>, tabs: map<WorkspaceId, NodeId>, tab: NodeId)
    requires forall j :: 0 <= j < |order| ==> order[j] !in tabs || tabs[order[j]] != tab
    ensures FirstHolding(order, tabs, tab) == None
    decreases |order|
  {
    if order != [] {
      FirstHoldingNone(order[1..], tabs, tab);
    }
  }
}
