/**
  The mutable state of one element that the collapse logic reads and writes: its inline style
  properties, its attributes, the `dataset` entries it caches (original box metrics, full height)
  and whether it carries the `zen-collapse-anim-target` class. Each function here is one of the
  source's per-element updates; the lemmas state what the box-metric cache and the measurement
  snapshot promise (lines 105-181).
*/
module Elements {
  import opened Base

  /** `element.style.*` properties; "" is an unset property. `folderIndent` is `--zen-folder-indent`. */
  datatype Style = Style(
    maxHeight: string, opacity: string, overflow: string, height: string,
    marginTop: string, marginBottom: string, paddingTop: string, paddingBottom: string,
    folderIndent: string)

  /**
    Attributes: `hidden`, `collapsed`, `zen-pinned-sibling-hidden`, `zen-pinned-collapse-active`,
    `zen-pinned-collapse-collapsed`, `has-active`, `folder-active`, and the `state` and `active`
    attributes of a folder's own icon svg (kept on the folder).
  */
  datatype Attr = Hidden | Collapsed | SiblingHidden | CollapseActive | CollapseCollapsed | HasActive
                | FolderActive | IconState | IconActive

  /** Margin and padding, top and bottom, as `getComputedStyle` reports them. */
  datatype Box = Box(marginTop: string, marginBottom: string, paddingTop: string, paddingBottom: string)

  /**
    `original`: the `zenOriginal*` dataset entries (written all four at once, never deleted);
    `fullHeight`: `dataset.zenFullHeight`; `animTarget`: the `zen-collapse-anim-target` class.
  */
  datatype Element = Element(style: Style, attrs: map<Attr, string>, original: Option<Box>,
                             fullHeight: Option<nat>, animTarget: bool)

  /** One entry of `getNestedCollapsedItems`: the element and seven of its style properties. */
  datatype Snapshot = Snapshot(element: NodeId, maxHeight: string, opacity: string, overflow: string,
                               marginTop: string, marginBottom: string, paddingTop: string, paddingBottom: string)

  function BoxOf(s: Style): Box {
    Box(s.marginTop, s.marginBottom, s.paddingTop, s.paddingBottom)
  }

  function WithBox(s: Style, b: Box): Style {
    s.(marginTop := b.marginTop, marginBottom := b.marginBottom, paddingTop := b.paddingTop, paddingBottom := b.paddingBottom)
  }

  const ZeroBox := Box("0px", "0px", "0px", "0px")
  const UnsetBox := Box("", "", "", "")

  // ---- box-metric cache (lines 105-133) ----

  /** `cacheOriginalBoxMetrics`: record the computed box once; later calls change nothing. */
  function CacheOriginalBox(e: Element, computed: Box): Element {
    if e.original.Some? then e else e.(original := Some(computed))
  }

  /** `dataset.zenOriginal* || ''`. */
  function OriginalOrUnset(e: Element): Box {
    if e.original.Some? then e.original.value else UnsetBox
  }

  /** `setCollapsedBoxStyles`: zero margin and padding, or put back the cached originals. */
  function WithBoxStyles(e: Element, collapsed: bool): Element {
    e.(style := WithBox(e.style, if collapsed then ZeroBox else OriginalOrUnset(e)))
  }

  lemma CacheIsWriteOnce(e: Element, first: Box, later: Box)
    ensures CacheOriginalBox(CacheOriginalBox(e, first), later) == CacheOriginalBox(e, first)
    ensures CacheOriginalBox(e, first).original == if e.original.Some? then e.original else Some(first)
    ensures CacheOriginalBox(e, first).(original := e.original) == e
  {
  }

  lemma BoxStylesRoundTrip(e: Element, b: Box)
    requires e.original == Some(b)
    ensures BoxOf(WithBoxStyles(e, true).style) == ZeroBox
    ensures BoxOf(WithBoxStyles(WithBoxStyles(e, true), false).style) == b
    ensures BoxOf(WithBoxStyles(e, false).style) == b
    ensures WithBoxStyles(WithBoxStyles(e, true), false) == e.(style := WithBox(e.style, b))
  {
  }

  lemma BoxStylesUncached(e: Element)
    requires e.original.None?
    ensures BoxOf(WithBoxStyles(e, false).style) == UnsetBox
  {
  }

  // ---- measurement snapshot (lines 136-181) ----

  function Capture(n: NodeId, e: Element): Snapshot {
    Snapshot(n, e.style.maxHeight, e.style.opacity, e.style.overflow,
             e.style.marginTop, e.style.marginBottom, e.style.paddingTop, e.style.paddingBottom)
  }

  /** `expandNestedForMeasurement`, one element: the seven properties are unset. */
  function ClearForMeasure(e: Element): Element {
    e.(style := e.style.(maxHeight := "", opacity := "", overflow := "",
                         marginTop := "", marginBottom := "", paddingTop := "", paddingBottom := ""))
  }

  /** `restoreNestedCollapsed`, one element: the seven properties are written back from the snapshot. */
  function RestoreFrom(e: Element, s: Snapshot): Element {
    e.(style := e.style.(maxHeight := s.maxHeight, opacity := s.opacity, overflow := s.overflow,
                         marginTop := s.marginTop, marginBottom := s.marginBottom,
                         paddingTop := s.paddingTop, paddingBottom := s.paddingBottom))
  }

  lemma RestoreUndoesClear(n: NodeId, e: Element)
    ensures RestoreFrom(ClearForMeasure(e), Capture(n, e)) == e
  {
  }

  lemma ClearedIsNative(e: Element)
    ensures NativeLayout(ClearForMeasure(e))
  {
  }

  // ---- active-path treatment (lines 197-300) ----

  function SetAttr(e: Element, a: Attr, v: string): Element {
    e.(attrs := e.attrs[a := v])
  }

  function RemoveAttr(e: Element, a: Attr): Element {
    e.(attrs := e.attrs - {a})
  }

  /** `removeAttribute('hidden')`. */
  function Unhidden(e: Element): Element {
    RemoveAttr(e, Hidden)
  }

  /** Applying `f` keeps `P`. */
  ghost predicate Keeps(P: Element -> bool, f: Element -> Element) {
    forall e :: P(e) ==> P(f(e))
  }

  /** Every attribute other than `hidden` and `zen-pinned-sibling-hidden` is as it was. */
  ghost predicate SameMarks(a: Element, b: Element) {
    forall k :: k != Hidden && k != SiblingHidden ==> (k in a.attrs <==> k in b.attrs) && (k in a.attrs ==> a.attrs[k] == b.attrs[k])
  }

  /** Chain folder marker: `zen-pinned-collapse-active` and `has-active`. */
  function MarkOnPath(e: Element): Element {
    e.(attrs := e.attrs[CollapseActive := "true"][HasActive := "true"])
  }

  /** Icon of a chain folder: the root shows close/active and gets `collapsed`; the others show open. */
  function MarkIcon(e: Element, isRoot: bool): Element {
    if isRoot then e.(attrs := e.attrs[IconState := "close"][IconActive := "true"][Collapsed := "true"])
    else e.(attrs := e.attrs[IconState := "open"][IconActive := "false"])
  }

  /** The active tab: opacity, height, max-height and overflow unset, `hidden` removed. */
  function RevealActive(e: Element): Element {
    e.(style := e.style.(opacity := "", height := "", maxHeight := "", overflow := ""),
       attrs := e.attrs - {Hidden})
  }

  /** A subfolder on the path: visible, overflow hidden, `hidden` removed. */
  function KeepOnPath(e: Element): Element {
    e.(style := e.style.(opacity := "", overflow := "hidden"), attrs := e.attrs - {Hidden})
  }

  /** An unrelated sibling, or the label of an on-path subfolder: marked and given zero extent. */
  function Conceal(e: Element): Element {
    e.(style := e.style.(opacity := "0", height := "0", maxHeight := "0px", overflow := "hidden"),
       attrs := e.attrs[SiblingHidden := "true"])
  }

  /** What the level loop leaves on an on-path subfolder: visible, clipped, not `hidden`. */
  predicate KeptOnPath(e: Element) {
    e.style.opacity == "" && e.style.overflow == "hidden" && Hidden !in e.attrs
  }

  predicate Concealed(e: Element) {
    && SiblingHidden in e.attrs
    && e.style.opacity == "0" && e.style.height == "0" && e.style.maxHeight == "0px" && e.style.overflow == "hidden"
  }

  // ---- clean-up on expand (lines 303-342) ----

  function Unconceal(e: Element): Element {
    e.(style := e.style.(opacity := "", height := "", maxHeight := "", overflow := ""),
       attrs := e.attrs - {SiblingHidden})
  }

  /**
    Lines 320-334 as written: a marked folder loses both markers and shows an open icon, but keeps
    `collapsed`, which the collapse forced on the chain root (line 232).
  */
  function UnmarkFolderAsWritten(e: Element, hasIcon: bool): Element {
    var a := e.attrs - {CollapseActive, HasActive};
    e.(attrs := if hasIcon then a[IconState := "open"][IconActive := "false"] else a)
  }

  /**
    The marked-folder write of the clean-up, corrected: besides both markers it clears `collapsed`,
    as `finalizeExpandedState` does for a folder carrying `zen-pinned-collapse-active` (lines 511-526),
    so the open icon it sets matches the folder's native state.
  */
  function UnmarkFolder(e: Element, hasIcon: bool): Element {
    var a := e.attrs - {CollapseActive, HasActive, Collapsed};
    e.(attrs := if hasIcon then a[IconState := "open"][IconActive := "false"] else a)
  }

  function UnmarkActive(e: Element): Element {
    e.(attrs := e.attrs - {FolderActive}, style := e.style.(folderIndent := ""))
  }

  // ---- immediate collapse / expand of an item (lines 509-553, 657-737) ----

  /** Lines 721-724 (and 728-731 after caching): zero extent, box zeroed. */
  function CollapseToZero(e: Element): Element {
    WithBoxStyles(e.(style := e.style.(maxHeight := "0px", opacity := "0", overflow := "hidden")), true)
  }

  predicate CollapsedToZero(e: Element) {
    e.style.maxHeight == "0px" && e.style.opacity == "0" && e.style.overflow == "hidden" && BoxOf(e.style) == ZeroBox
  }

  /**
    `finalizeExpandedState`, the item itself: markers of the pinned-area flow are removed and the
    native collapsed flag cleared (when the item carries `zen-pinned-collapse-active`), then the seven
    properties are unset and the animation class removed.
  */
  function FinalizeExpanded(e: Element, hasIcon: bool): Element {
    var a :=
      if CollapseActive in e.attrs then
        var stripped := e.attrs - {CollapseActive, CollapseCollapsed, HasActive, Collapsed};
        if hasIcon then stripped[IconState := "open"][IconActive := "false"] else stripped
      else e.attrs;
    FinalizeNested(e.(attrs := a))
  }

  /** `finalizeExpandedState`, a nested element: the seven properties unset, animation class removed. */
  function FinalizeNested(e: Element): Element {
    ClearForMeasure(e).(animTarget := false)
  }

  /** The seven properties are all unset: the element is back to its native layout. */
  predicate NativeLayout(e: Element) {
    && e.style.maxHeight == "" && e.style.opacity == "" && e.style.overflow == ""
    && BoxOf(e.style) == UnsetBox
  }

  // ---- clearFolderInlineCollapseStyles (lines 867-958) ----

  /** `clearStyles`: eight properties unset, animation class, full height and sibling marker removed. */
  function ClearInline(e: Element): Element {
    e.(style := e.style.(maxHeight := "", opacity := "", overflow := "", height := "",
                         marginTop := "", marginBottom := "", paddingTop := "", paddingBottom := ""),
       animTarget := false, fullHeight := None, attrs := e.attrs - {SiblingHidden})
  }

  /** What `clearStyles` leaves: eight properties unset, no animation class, full height or sibling marker. */
  predicate InlineCleared(e: Element) {
    && e.style.maxHeight == "" && e.style.opacity == "" && e.style.overflow == "" && e.style.height == ""
    && BoxOf(e.style) == UnsetBox && !e.animTarget && e.fullHeight.None? && SiblingHidden !in e.attrs
  }

  /** `InlineCleared` and shown (no `hidden`): what a cleared container that is shown again ends in. */
  predicate ShownCleared(e: Element) {
    InlineCleared(e) && Hidden !in e.attrs
  }

  /** What the clean-up leaves on a sibling it shows again: no sibling marker, four properties unset. */
  predicate Revealed(e: Element) {
    && SiblingHidden !in e.attrs
    && e.style.opacity == "" && e.style.height == "" && e.style.maxHeight == "" && e.style.overflow == ""
  }

  /** A folder back in its native state: no pinned-area marker and no `collapsed`. */
  predicate Reopened(e: Element) {
    CollapseActive !in e.attrs && HasActive !in e.attrs && Collapsed !in e.attrs
  }

  /** The folder icon shows open and inactive. */
  predicate IconOpen(e: Element) {
    IconState in e.attrs && e.attrs[IconState] == "open" && IconActive in e.attrs && e.attrs[IconActive] == "false"
  }

  /** An expanded item: native layout and no animation class. */
  predicate Settled(e: Element) {
    NativeLayout(e) && !e.animTarget
  }

  predicate HasCollapsed(e: Element) {
    Collapsed in e.attrs
  }

  predicate LacksCollapsed(e: Element) {
    Collapsed !in e.attrs
  }

  predicate HasSiblingMark(e: Element) {
    SiblingHidden in e.attrs
  }

  predicate LacksSiblingMark(e: Element) {
    SiblingHidden !in e.attrs
  }

  /** Manual icon reset: `close` when the folder has `collapsed`, else `open`; never active. */
  function ResetIcon(e: Element): Element {
    e.(attrs := e.attrs[IconState := if Collapsed in e.attrs then "close" else "open"][IconActive := "false"])
  }
}
