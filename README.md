# Pinned-area collapse, modelled in Dafny

`zen-pinned-area-collapse.uc.js` is a browser userscript for the Zen browser. It lets the user
collapse and expand the pinned area of each workspace. That area is a tree of `zen-folder`
elements and tab elements. This project models the state logic underneath the DOM plumbing and
proves what it promises:

- **Workspace store** (`workspaces.dfy`). A class holding the two session maps: workspace id to
  collapsed flag, and workspace id to active tab. It also keeps the Map's insertion order, because
  `handleTabClose` stops at the first match in that order.
- **The shape of the pinned area** (`tree.dfy`). An immutable tree of folders, tabs, label
  containers and `.tab-group-container` elements, with the document order that `querySelectorAll`
  follows. It also holds `contains`, `closest('zen-folder')`, the folder chain of the active tab and
  the classification of a container child as the active tab, on the active path, or off it.
- **Element state** (`elements.dfy`). One element's inline style, attributes, cached `zenOriginal*`
  box metrics, cached `zenFullHeight` and the `zen-collapse-anim-target` class. Each per-element
  write of the script is a function here.
- **Queries and passes** (`sweeps.dfy`). `querySelectorAll` over the tree, in document order. A
  `forEach` pass of one per-element write over a list of elements, with frame and preservation
  lemmas.
- **Measurement** (`measure.dfy`). The nested-collapsed snapshot, the temporary expansion for
  measuring, and the restore. Also `measureFullHeight`, which un-hides the folder's container for the
  measurement.
- **Active path** (`activepath.dfy`). `handleActiveTabCollapseZenStyle` and
  `cleanupActiveTabExpandZenStyle`.
- **Immediate collapse and expand** (`animate.dfy`). The non-animated branch of `animatePinnedItems`,
  and the expand target height of the animated branch.
- **Clearing inline styles** (`clearstyles.dfy`). `clearFolderInlineCollapseStyles`.
- **The document object** (`document.dfy`). Class `PinnedArea` holds the element map and performs
  every operation in place, with the script's loops. Each method is proved to leave exactly the state
  that the specification function of its module describes.

Elements are identified by `NodeId`. An id with no element in the map plays the part of JavaScript's
`null`, and an operation given one does nothing. A workspace id is a string, and the empty string
stands for every id JavaScript treats as false. Layout reads (`getComputedStyle`, `scrollHeight`) are
opaque function parameters that return natural numbers or a box of four strings.

Both callers of `animatePinnedItems` clear the workspace's active tab before an expand (lines 996 and
1113), so an expand is given a null tab and the clean-up's tab branch (lines 338-341) is not reached
from them. The model keeps the tab a parameter; its expand lemmas hold for any tab, null included.

The clean-up's marked-folder write as written leaves `collapsed` on the chain root (see Findings). The
model uses the corrected write, which clears it; the as-written write is kept beside it.

## Model

| member | source | states |
|---|---|---|
| Workspaces.WorkspaceStore.IsCollapsed | zen-pinned-area-collapse.uc.js:36-40 | An empty (falsy) id, or an id never stored, reads as not collapsed. Otherwise the answer is the stored flag. |
| Workspaces.WorkspaceStore.ActiveTab | zen-pinned-area-collapse.uc.js:49-52 | An empty id, or an id without an entry, has no active tab. Otherwise the stored tab is returned. |
| Workspaces.WorkspaceStore.SetCollapsed | zen-pinned-area-collapse.uc.js:43-46 | An empty id leaves the store unchanged. Otherwise the getter returns the new flag for that id and the old answer for every other id. The active-tab map is untouched. |
| Workspaces.WorkspaceStore.SetActiveTab | zen-pinned-area-collapse.uc.js:55-62 | A tab is stored and read back; null deletes the entry, so the getter returns none. Every other id reads as before. A new key joins the end of the iteration order, an existing one keeps its place, a deleted one leaves it. |
| Workspaces.WorkspaceStore.HandleTabClose | zen-pinned-area-collapse.uc.js:1387-1409 | Only the first workspace, in Map iteration order, whose active tab is the closed tab loses its entry, and its key leaves the iteration order while the other keys keep theirs. Every other entry and every collapsed flag is unchanged. With no closed tab or no match, nothing changes. |
| Workspaces.WorkspaceStore.ToggleCollapsed | zen-pinned-area-collapse.uc.js:1079-1081 | The new flag is the negation of the old reading (absent counts as expanded), and it is stored for a non-empty id. |
| Workspaces.FirstHolding | zen-pinned-area-collapse.uc.js:1392-1406 | The index found holds the tab and no earlier workspace holds it; none means no workspace holds it. |
| Workspaces.Without | zen-pinned-area-collapse.uc.js:59-60 | Deleting a key keeps exactly the other keys, without duplicates, and never lengthens the order. |
| Workspaces.WithoutAbsent | zen-pinned-area-collapse.uc.js:59-60 | Deleting a key that is not stored leaves the iteration order unchanged. |
| Workspaces.WithoutAt | zen-pinned-area-collapse.uc.js:59-60 | Deleting the key at position k of a duplicate-free order gives the order with only that position removed, so the other keys keep their relative order. |
| Workspaces.WorkspaceStore.ToggleTwice | zen-pinned-area-collapse.uc.js:1079-1081 | Two flips of one workspace on the same store: for a real id they report opposite flags; in every case its flag reads as before, and no other workspace's flag and no active tab changes. |
| Elements.CacheIsWriteOnce | zen-pinned-area-collapse.uc.js:105-115 | Caching the box metrics is idempotent: a second call changes nothing. The cache holds the first computed box and nothing else of the element changes. |
| Elements.BoxStylesRoundTrip | zen-pinned-area-collapse.uc.js:117-133 | Collapsing zeroes margin and padding. Expanding writes back the cached originals, so collapse then expand restores the cached box. |
| Elements.BoxStylesUncached | zen-pinned-area-collapse.uc.js:127-132 | Expanding an element with no cached metrics leaves the four properties unset. |
| Elements.RestoreUndoesClear | zen-pinned-area-collapse.uc.js:158-181 | Restoring from a snapshot undoes the measurement clear of the same element. |
| Elements.ClearedIsNative | zen-pinned-area-collapse.uc.js:158-168 | The measurement clear leaves the seven properties unset. |
| Document.PinnedArea.CacheOriginalBoxMetrics | zen-pinned-area-collapse.uc.js:105-115 | The element's cache becomes the write-once cache of the computed box; a null element changes nothing. |
| Document.PinnedArea.SetCollapsedBoxStyles | zen-pinned-area-collapse.uc.js:117-133 | Only the element's four box properties are written, to zero or to the cached originals. |
| Sweeps.Select | zen-pinned-area-collapse.uc.js:139 | `querySelectorAll` returns exactly the matching elements strictly inside the root, each once. |
| Document.PinnedArea.QuerySelectorAll | zen-pinned-area-collapse.uc.js:139 | The loop over document order returns the selection and changes nothing. |
| Measure.NestedCollapsed | zen-pinned-area-collapse.uc.js:136-155 | The snapshot lists exactly the folders and tabs strictly inside the item whose max-height is `0px`, each once. Every entry holds that element's seven current properties. |
| Measure.CapturesFaithful | zen-pinned-area-collapse.uc.js:140-153 | Capturing a list of elements gives one faithful snapshot per element, in the same order. |
| Document.PinnedArea.GetNestedCollapsedItems | zen-pinned-area-collapse.uc.js:136-155 | The loop builds exactly that snapshot and changes nothing. |
| Measure.ExpandNestedAt | zen-pinned-area-collapse.uc.js:158-168 | A listed element gets its seven properties unset; any other element is untouched. |
| Measure.RestoreAt | zen-pinned-area-collapse.uc.js:171-181 | A listed element gets its seven properties from its own snapshot entry. |
| Measure.RestoreOutside | zen-pinned-area-collapse.uc.js:171-181 | Restoring leaves unlisted elements untouched. |
| Measure.RestoreMatchesSnapshot | zen-pinned-area-collapse.uc.js:136-181 | After expand then restore, every listed element's seven properties equal its snapshot. |
| Measure.RoundTrip | zen-pinned-area-collapse.uc.js:136-181 | Expand then restore with a faithful snapshot gives back the whole element map. |
| Document.PinnedArea.ExpandNestedForMeasurement | zen-pinned-area-collapse.uc.js:158-168 | The loop leaves the expanded state of the listed elements. |
| Document.PinnedArea.RestoreNestedCollapsed | zen-pinned-area-collapse.uc.js:171-181 | The loop leaves the restored state of the listed elements. |
| Measure.HiddenContainer | zen-pinned-area-collapse.uc.js:387-388 | A container is found only when it is the item's own container and carries `hidden`. |
| Measure.MeasuredExpanded | zen-pinned-area-collapse.uc.js:386-394 | While the height is read, every nested collapsed element has its native layout. |
| Measure.MeasuredShown | zen-pinned-area-collapse.uc.js:388-391 | While the height is read, the item's hidden container is shown. |
| Measure.MeasureLeavesStateIntact | zen-pinned-area-collapse.uc.js:386-399 | Measuring gives back the element map as it was, except that a container hidden before has `hidden` set to `true`. |
| Measure.ContainerNotNested | zen-pinned-area-collapse.uc.js:139 | The item's container is never in the nested snapshot, since the snapshot holds only folders and tabs. |
| Measure.MeasureFrame | zen-pinned-area-collapse.uc.js:386-399 | Measuring writes only the listed elements and the hidden container. |
| Document.PinnedArea.MeasureFullHeight | zen-pinned-area-collapse.uc.js:386-399 | The in-place steps return the measured height and leave the state that measuring specifies. |
| Tree.ContainsTransitive | zen-pinned-area-collapse.uc.js:258 | `contains` is transitive. |
| Tree.ContainsDepth | zen-pinned-area-collapse.uc.js:258 | A strict descendant lies deeper than its ancestor. |
| Tree.ClosestFolder | zen-pinned-area-collapse.uc.js:189 | `closest('zen-folder')` is a folder containing the element and lies inside every other such folder. None means no folder contains it. |
| Tree.EnclosingFolder | zen-pinned-area-collapse.uc.js:192 | `parentElement.closest('zen-folder')` is a folder strictly containing the element, shallower than it, and contained in every other folder that strictly contains the element. It is null exactly when no folder strictly contains the element. |
| Tree.ChainFrom | zen-pinned-area-collapse.uc.js:188-193 | Every chain member is a folder inside the section that contains the first member. Later members lie strictly higher. |
| Tree.ChainLinks | zen-pinned-area-collapse.uc.js:188-193 | Each chain member's next enclosing folder is the following member, so the chain is innermost first. |
| Tree.ChainStops | zen-pinned-area-collapse.uc.js:190 | The climb stops only when no enclosing folder is left or the next one is outside the section. |
| Tree.ChainDistinct | zen-pinned-area-collapse.uc.js:188-193 | No folder appears twice in the chain. |
| Tree.FolderChain | zen-pinned-area-collapse.uc.js:188-193 | A non-empty chain starts at the active tab's closest folder. Every member is a folder in the section containing the tab, each once. |
| Tree.OnPathIsStrictAncestor | zen-pinned-area-collapse.uc.js:257-259 | A child is on the path exactly when it strictly contains the active tab. |
| Document.PinnedArea.BuildFolderChain | zen-pinned-area-collapse.uc.js:188-193 | The `while` climb builds exactly the folder chain. |
| ActivePath.NoChainNoChange | zen-pinned-area-collapse.uc.js:195 | An empty chain leaves every element unchanged. |
| ActivePath.MarkChainAt | zen-pinned-area-collapse.uc.js:197-239 | The marking passes give each chain folder both markers. Its icon shows close/active on the root and open/inactive elsewhere. Only the root, and only when it has an icon, gains `collapsed`. The tab gains `folder-active`. |
| ActivePath.MarkChainVisibility | zen-pinned-area-collapse.uc.js:197-239 | The marking passes change no style, no `hidden` and no sibling marker, and touch nothing outside the chain and the tab. |
| ActivePath.ChainMarked | zen-pinned-area-collapse.uc.js:197-239 | After the whole collapse treatment, the chain markers, icons, root-only `collapsed` and `folder-active` hold as above. |
| ActivePath.HandleActiveKeepsMarks | zen-pinned-area-collapse.uc.js:245-300 | The level loop and the reveal change no attribute other than `hidden` and the sibling marker. |
| ActivePath.ActiveShown | zen-pinned-area-collapse.uc.js:295-300 | The active tab ends visible: four properties unset and no `hidden`. |
| ActivePath.SiblingConcealed | zen-pinned-area-collapse.uc.js:284-291 | Every off-path child of a chain level ends marked `zen-pinned-sibling-hidden` with zero opacity, height and max-height and hidden overflow. |
| ActivePath.OnPathKept | zen-pinned-area-collapse.uc.js:268-273 | An on-path child ends visible with hidden overflow and no `hidden`. |
| ActivePath.OnPathNotConcealed | zen-pinned-area-collapse.uc.js:268-283 | An on-path child gains no sibling marker of its own. |
| ActivePath.HandledNotConcealed | zen-pinned-area-collapse.uc.js:245-300 | The same, for the level loop over any chain without duplicates. |
| ActivePath.LabelConcealed | zen-pinned-area-collapse.uc.js:275-283 | The label container of an on-path child ends concealed and marked. |
| ActivePath.HandledLabelConcealed | zen-pinned-area-collapse.uc.js:245-300 | The same, for the level loop over any chain of folders. |
| ActivePath.TreatChildrenKeeps | zen-pinned-area-collapse.uc.js:254-292 | A property kept by each write a child can receive is kept through the pass over a container's children. |
| ActivePath.TreatChildrenEstablishes | zen-pinned-area-collapse.uc.js:254-292 | A property one child's write establishes survives the rest of the pass. |
| ActivePath.TreatLevelsKeeps | zen-pinned-area-collapse.uc.js:245-293 | Such a property is kept through all levels. |
| ActivePath.TreatLevelsEstablishes | zen-pinned-area-collapse.uc.js:245-293 | A property established at one level survives the later levels. |
| ActivePath.TreatChildrenFrame | zen-pinned-area-collapse.uc.js:254-292 | A pass over children inside the section touches nothing outside it. |
| ActivePath.TreatLevelsFrame | zen-pinned-area-collapse.uc.js:245-293 | The level loop touches nothing outside the section. |
| ActivePath.ContainerChildNotLabel | zen-pinned-area-collapse.uc.js:254-283 | A container's child is never a folder's label container. |
| ActivePath.HandleActiveFrame | zen-pinned-area-collapse.uc.js:184-301 | The collapse treatment changes nothing outside the pinned section. |
| Document.PinnedArea.TreatChildAt | zen-pinned-area-collapse.uc.js:255-291 | One child's treatment, written in place, leaves the state its specification describes. |
| Document.PinnedArea.TreatLevelAt | zen-pinned-area-collapse.uc.js:246-292 | One level's loop over the container's children leaves the state its specification describes. |
| Document.PinnedArea.HandleActiveTabCollapse | zen-pinned-area-collapse.uc.js:184-301 | The whole treatment, done in place, ends in the state `HandleActive` describes, so every property above holds of it. |
| ActivePath.UnconcealSiblingsAt | zen-pinned-area-collapse.uc.js:307-315 | Exactly the marked elements in the section are unmarked and have their four properties unset. |
| ActivePath.UnmarkFoldersAt | zen-pinned-area-collapse.uc.js:317-335 | Exactly the marked folders in the section lose both markers and `collapsed` (the corrected write, see Findings) and show an open, inactive icon. |
| ActivePath.CleanupInside | zen-pinned-area-collapse.uc.js:304-342 | After clean-up, no element in the section keeps the sibling marker and no folder keeps `zen-pinned-collapse-active`. A marked sibling has its four properties unset. A marked folder loses `has-active` and `collapsed` (corrected, see Findings) and shows an open, inactive icon. |
| ActivePath.CleanupListed | zen-pinned-area-collapse.uc.js:304-342 | The same, for an element listed in document order. |
| ActivePath.CleanupListedIs | zen-pinned-area-collapse.uc.js:304-342 | One element's clean-up is the three writes in order: unconceal, unmark, untab. |
| ActivePath.CleanedElement | zen-pinned-area-collapse.uc.js:307-341 | Those three writes leave no sibling marker and no `zen-pinned-collapse-active` on a folder. A concealed element gets its four properties unset, and a marked folder loses `has-active` and `collapsed` (corrected) and gets an open, inactive icon. |
| ActivePath.CleanupTab | zen-pinned-area-collapse.uc.js:337-341 | The active tab loses `folder-active` and its folder indentation. |
| ActivePath.CleanupFrame | zen-pinned-area-collapse.uc.js:304-342 | Clean-up changes nothing outside the section except the active tab. |
| ActivePath.ChildInside | zen-pinned-area-collapse.uc.js:246-255 | A child of a chain level lies strictly inside the section. |
| ActivePath.CleanupUndoesConceal | zen-pinned-area-collapse.uc.js:284-315 | Clean-up after collapse shows each sibling the collapse hid and removes its marker. |
| ActivePath.CleanupUnmarksChain | zen-pinned-area-collapse.uc.js:317-335 | Clean-up after collapse removes both markers and `collapsed` (corrected) from every chain folder below the section and opens its icon. |
| ActivePath.UnmarkFoldersAsWrittenAt | zen-pinned-area-collapse.uc.js:317-335 | As written, exactly the marked folders in the section lose both markers and show an open, inactive icon; `collapsed` stays. |
| ActivePath.AsWrittenKeepsCollapsed | zen-pinned-area-collapse.uc.js:307-335 | On a marked element carrying `collapsed="true"`, the clean-up writes as written, then the expand write of the item, leave `collapsed="true"` next to an open icon. |
| ActivePath.RootKeepsCollapsedAsWritten | zen-pinned-area-collapse.uc.js:317-335 | After a collapse with the active tab, the clean-up as written and the root item's expand write leave the chain root (when it has an icon) carrying `collapsed="true"` while its icon shows open. |
| Document.PinnedArea.CleanupActiveTabExpand | zen-pinned-area-collapse.uc.js:304-342 | The in-place clean-up ends in the state `Cleanup` describes (with the corrected folder write). |
| Sweeps.ForEachAt | zen-pinned-area-collapse.uc.js:309-315 | Helper of every `forEach` pass (lines 309, 320, 541, 726, 886 and 899, for example): a `forEach` of a one-element write over distinct elements applies the write once to each listed element and leaves the rest untouched. |
| Sweeps.ForEachFrame | zen-pinned-area-collapse.uc.js:541-550 | Helper of every `forEach` pass: an element outside every step's footprint is untouched. |
| Sweeps.ForEachKeeps | zen-pinned-area-collapse.uc.js:886-909 | Helper of every `forEach` pass: a property every write keeps survives the pass. |
| Sweeps.ForEachEstablishes | zen-pinned-area-collapse.uc.js:886-909 | Helper of every `forEach` pass: a property the write establishes on a listed element survives the rest of the pass. |
| Sweeps.ClearFolderKeeps | zen-pinned-area-collapse.uc.js:899-908 | One nested folder's clearing keeps any property kept by `clearStyles` and by un-hiding. |
| Sweeps.ForEachClearsContainer | zen-pinned-area-collapse.uc.js:899-908 | A nested folder's container ends cleared. It ends shown too when the folder is not collapsed. |
| Animate.ExpandTarget | zen-pinned-area-collapse.uc.js:827-829 | The target is at least the stored, measured and current heights, and equals one of them. |
| Animate.SkippedUnchanged | zen-pinned-area-collapse.uc.js:368-375 | On collapse, the active tab and every item containing it are left exactly as they were. |
| Animate.SnapsInside | zen-pinned-area-collapse.uc.js:136-155 | Every snapshot element lies strictly inside the item. |
| Animate.FullHeightCachedOnce | zen-pinned-area-collapse.uc.js:402-405 | A stored full height is kept. A missing one becomes the scroll height read in the measuring state. Nothing else of the item changes. |
| Animate.ExpandCachesNothing | zen-pinned-area-collapse.uc.js:402-405 | Expanding never caches a full height. |
| Animate.CollapseZeroesItem | zen-pinned-area-collapse.uc.js:721-724 | A collapsed item ends at zero extent with zeroed box, cached box metrics and a cached full height. |
| Animate.CollapseZeroesNested | zen-pinned-area-collapse.uc.js:726-732 | Every nested collapsed element ends at zero extent with zeroed box and cached metrics. |
| Animate.ExpandRestoresItem | zen-pinned-area-collapse.uc.js:509-553 | An expanded item ends in native layout without the animation class. When it carried `zen-pinned-collapse-active`, it loses that marker, `zen-pinned-collapse-collapsed`, `has-active` and `collapsed`, and its icon shows open and inactive. |
| Animate.ExpandRestoresNested | zen-pinned-area-collapse.uc.js:541-550 | Every nested collapsed element ends in native layout without the animation class. |
| Animate.CachingFrame | zen-pinned-area-collapse.uc.js:377-405 | Caching and measuring change nothing outside the item. |
| Animate.ItemStepFrame | zen-pinned-area-collapse.uc.js:362-737 | One item's step changes nothing outside that item. |
| Animate.ItemsFrame | zen-pinned-area-collapse.uc.js:362-737 | The item loop changes no element that no item reaches. |
| Animate.CollapseZeroesItems | zen-pinned-area-collapse.uc.js:362-737 | An item that is collapsed ends at zero extent, unless a later item reaches it. |
| Animate.ActiveStaysVisible | zen-pinned-area-collapse.uc.js:344-375 | After an immediate collapse, an active tab in a folder of the section stays visible, whatever the items. |
| Animate.PrepareTreatsPath | zen-pinned-area-collapse.uc.js:352-357 | With a folder chain in the section, the collapse starts with the active-path treatment. |
| Animate.ChainUntouchedByItems | zen-pinned-area-collapse.uc.js:344-375 | After an immediate collapse, every chain folder is exactly as the active-path treatment left it (markers, icon, the root's `collapsed`), whatever the items: an item containing it contains the active tab and is skipped. |
| Animate.CachingKeepsConcealed | zen-pinned-area-collapse.uc.js:377-405 | Caching the box metrics and measuring the full height keep a concealed element concealed. |
| Animate.ItemStepKeepsConcealed | zen-pinned-area-collapse.uc.js:362-737 | One collapse step keeps a concealed element concealed, whether it is the item, nested in it, or elsewhere. |
| Animate.ItemsKeepConcealed | zen-pinned-area-collapse.uc.js:362-737 | The collapse item loop keeps a concealed element concealed. |
| Animate.SiblingStaysConcealed | zen-pinned-area-collapse.uc.js:344-737 | After an immediate collapse, every off-path child of a chain level keeps `zen-pinned-sibling-hidden` and zero extent, whatever the items. |
| Animate.ExpandStartsWithCleanup | zen-pinned-area-collapse.uc.js:358-360 | With a section, the expand starts with the clean-up. |
| Animate.ItemStepExpandKeeps | zen-pinned-area-collapse.uc.js:509-553 | One expand step keeps any property that caching and the expand writes keep. |
| Animate.ItemsExpandKeep | zen-pinned-area-collapse.uc.js:362-737 | The expand item loop keeps such a property. |
| Animate.ExpandSettlesItems | zen-pinned-area-collapse.uc.js:344-737 | After an immediate expand, every listed item is in native layout without the animation class, whatever its state before and whatever the other items. |
| Animate.ChainReopened | zen-pinned-area-collapse.uc.js:304-553 | Collapse then expand: every chain folder below the section ends without either marker and without `collapsed`, its icon open and inactive (with the corrected clean-up; see Findings). |
| Animate.CleanupRevealsSibling | zen-pinned-area-collapse.uc.js:304-315 | After an immediate collapse, the clean-up that starts the expand shows every hidden off-path sibling again. |
| Animate.SiblingRevealed | zen-pinned-area-collapse.uc.js:284-315 | Collapse then expand: every sibling the collapse hid ends without the sibling marker and with opacity, height, max-height and overflow unset, whatever the items. |
| Document.PinnedArea.AnimateItem | zen-pinned-area-collapse.uc.js:362-737 | One item, done in place, ends in the state `ItemStep` describes. |
| Document.PinnedArea.AnimatePinnedItemsImmediate | zen-pinned-area-collapse.uc.js:344-737 | The whole non-animated call ends in the state `AnimateImmediate` describes. |
| ClearStyles.ClearedKept | zen-pinned-area-collapse.uc.js:867-958 | Every pass of the clearing keeps an element cleared, whether or not it is also shown. |
| ClearStyles.MarksKept | zen-pinned-area-collapse.uc.js:867-958 | Every pass keeps the presence or absence of `collapsed`, and the absence of the sibling marker. |
| ClearStyles.FolderStyles | zen-pinned-area-collapse.uc.js:883-909 | A property `clearStyles` gives the folder survives the later style passes. |
| ClearStyles.FolderCleared | zen-pinned-area-collapse.uc.js:867-958 | The folder ends cleared and keeps `collapsed` exactly when it had it. |
| ClearStyles.FolderUnmarked | zen-pinned-area-collapse.uc.js:912-951 | The folder loses both markers, and its icon (when it has one) shows close exactly when it is collapsed, never active. |
| ClearStyles.InsideCleared | zen-pinned-area-collapse.uc.js:883-909 | No element inside the folder keeps the sibling marker. Every previously marked element and every nested folder ends cleared. |
| ClearStyles.InsideUnmarked | zen-pinned-area-collapse.uc.js:912-957 | No element inside keeps `folder-active`, and its indentation is removed. A nested folder loses `zen-pinned-collapse-active`, and has `has-active` afterwards exactly when it had it and was not marked. Its icon shows close exactly when it is collapsed, never active. |
| ClearStyles.StylesKeepMarks | zen-pinned-area-collapse.uc.js:883-909 | The style passes change no attribute other than `hidden` and the sibling marker. |
| ClearStyles.NestedFolderCleared | zen-pinned-area-collapse.uc.js:899-900 | Every nested folder ends the style passes cleared. |
| ClearStyles.StylesInside | zen-pinned-area-collapse.uc.js:885-909 | After the style passes, nothing inside keeps the sibling marker, and marked elements and nested folders are cleared. |
| ClearStyles.NestedContainerStyled | zen-pinned-area-collapse.uc.js:899-908 | A nested folder's container gets any property `clearStyles` establishes (with un-hiding when the folder is not collapsed). |
| ClearStyles.NestedContainerCleared | zen-pinned-area-collapse.uc.js:899-908 | A nested folder's container ends cleared, and shown when that folder is not collapsed. |
| ClearStyles.MainContainerShown | zen-pinned-area-collapse.uc.js:890-895 | The folder's own container ends cleared and shown. |
| ClearStyles.ClearFrame | zen-pinned-area-collapse.uc.js:867-958 | Nothing outside the folder changes. |
| ClearStyles.MarkersFrame | zen-pinned-area-collapse.uc.js:911-957 | The marker passes change nothing outside the folder. |
| ClearStyles.MarkersOnFolderUnmarks | zen-pinned-area-collapse.uc.js:912-951 | The marker writes on the folder itself remove both markers and reset its icon. |
| ClearStyles.MarkersOnUnmarks | zen-pinned-area-collapse.uc.js:912-957 | The marker writes on an element inside remove `folder-active` and a folder's markers and reset its icon. They leave an unmarked non-folder as it was. |
| Document.PinnedArea.ClearFolderInlineCollapseStyles | zen-pinned-area-collapse.uc.js:867-958 | The in-place clearing ends in the state `ClearFolderInline` describes, so every property above holds of it. |
| Document.PinnedArea.ClearStylePasses | zen-pinned-area-collapse.uc.js:883-909 | The style loops end in the state the style passes describe. |
| Document.PinnedArea.ClearMarkerPasses | zen-pinned-area-collapse.uc.js:911-957 | The marker loops end in the state the marker passes describe. |

## Left out

- Chevron icon construction, rotation and hover handling: user-interface wiring with no state logic.
- Emoji-picker interception and double-click blocking: event glue around foreign objects.
- The animated branch's `requestAnimationFrame` and `transitionend` callbacks: these are rendering-frame timing. Only their expand target height is modelled (`Animate.ExpandTarget`).
- The `activeTabTargetHeight` precompute (lines 474-507) puts the style attribute back as it was. Its value is used only in unreachable code, so it changes nothing the model observes.
- The `containsActiveTab` collapse branches (lines 556-637, 659-719, 770-806) and `makePathToActiveTabVisible`: these cannot run. On collapse, any item that is or contains the active tab returns at line 374 before reaching them.
- Layout and floating-point reads (`getComputedStyle`, `scrollHeight`, `getBoundingClientRect`, `parseFloat`): these are opaque parameters returning natural numbers or strings.
- `gZenFolders.setFolderIndentation` and the `activeTabs` setter: host calls whose effect is not visible here. The indentation written by the host is represented only by its removal.
- The `collapsed` property setter in `finalizeExpandedState` is modelled by its fallback, removal of the `collapsed` attribute.
- `gZenFolders.updateFolderIcon` is modelled by its fallback, the manual icon reset.
- A folder's icon `svg` is represented by the `state` and `active` attributes kept on the folder itself. Its label and container are the folder's own sub-elements, found by the lookups at lines 224, 246, 276, 387, 891 and 901.
- `getWorkspaceId` and the lookup of the pinned section: their results are parameters (a workspace id, an optional section).
- `handleTabClose`'s DOM part (lines 1397-1403): it removes `data-zen-has-active` and the `zen-active-in-collapsed` class, which no modelled operation sets (`applyCollapsedState` and `toggleFolders` set them, at lines 991-992 and 1099-1100).
- `closeAllFoldersOnStartup`, the MutationObserver, initialisation retries, drag listeners, the injected CSS and logging: event and I/O plumbing.
- Workspaces.WorkspaceStore.HandleTabClose: states the store part only, because the DOM part is left out as above.

## Findings

| source | as written | input that shows it | evidently intended | confidence | as-written member | corrected member |
|---|---|---|---|---|---|---|
| zen-pinned-area-collapse.uc.js:317-335 | The clean-up removes `zen-pinned-collapse-active` and `has-active` from each marked folder and opens its icon, but keeps `collapsed`. The collapse set `collapsed="true"` on the chain root (line 232). `finalizeExpandedState` clears `collapsed` only while `zen-pinned-collapse-active` is present (line 511), and the clean-up has already removed it. | Folder F, with an icon, in the pinned section holds the active tab A. Collapse the workspace, then expand it. F ends with `collapsed="true"` while its icon shows open. | On expand every marked folder returns to its native state, `collapsed` included, as `finalizeExpandedState` does for a marked folder (lines 511-526). | medium; not executed | ActivePath.RootKeepsCollapsedAsWritten | Animate.ChainReopened |
