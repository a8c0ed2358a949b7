/** The panel's drag and resize gestures and the lock that gates them.
    Pointer events and layout measurements are inputs; a gesture's persisted
    result is a `Write` output. The drag and resize records are independent,
    as in the panel: the machine is Idle when neither is active. */
module Gesture {
  import opened Wrappers

  const MinWidth: real := 50.0
  const NarrowBelow: real := 100.0
  const UnboundedWidth: real := 10000.0
  const DefaultIconSize: real := 32.0
  const TokenGap: real := 6.0
  const VisualsGap: real := 8.0
  /** Window padding (8 px each side) plus border (1 px each side). */
  const ChromeWidth: real := 18.0

  /** A child of the panel's visuals row: the token container or a sibling control. */
  datatype Child = Child(isTokensContainer: bool, offsetWidth: real)

  /** What the resize handler measures when a resize starts: the number of rendered
      tokens, the icon size setting and the visuals row (None when absent). */
  datatype Layout = Layout(tokenCount: nat, iconSizeSetting: real, visuals: Option<seq<Child>>)

  /** A measured bounding rectangle. */
  datatype Rect = Rect(left: real, top: real, width: real)

  datatype DragData = DragData(isDragging: bool, startX: real, startY: real, startLeft: real, startTop: real)

  datatype ResizeData = ResizeData(isResizing: bool, startX: real, startWidth: real, maxAllowedWidth: real)

  /** The panel as the gestures see it: whether each handle listens for presses
      (armed at render time unless locked), the two gesture records, and the inline
      left/top/width styles and the `narrow` class. */
  datatype Panel = Panel(
    dragArmed: bool, resizeArmed: bool,
    drag: DragData, resize: Option<ResizeData>,
    left: Option<real>, top: Option<real>, width: Option<real>, narrow: bool)

  datatype Event =
    | DragHandleDown(button: int, x: real, y: real, rect: Rect)
    | ResizeHandleDown(button: int, x: real, offsetWidth: real, layout: Layout)
    | PointerMove(x: real, y: real)
    | PointerUp(rect: Rect)
    | Rendered(savedWidth: Option<real>, locked: bool, hasDragHandle: bool, hasResizeHandle: bool)

  /** A setting the gesture persists. */
  datatype Write = SavePosition(top: real, left: real) | SaveWidth(width: real)

  predicate Dragging(p: Panel) { p.drag.isDragging }
  predicate Resizing(p: Panel) { p.resize.Some? && p.resize.value.isResizing }
  predicate Idle(p: Panel) { !Dragging(p) && !Resizing(p) }

  /** A resize record always carries a usable maximum. */
  predicate Valid(p: Panel) { p.resize.Some? ==> p.resize.value.maxAllowedWidth >= MinWidth }

  predicate IsPress(e: Event) { e.DragHandleDown? || e.ResizeHandleDown? }

  function MaxReal(a: real, b: real): real { if a >= b then a else b }
  function MinReal(a: real, b: real): real { if a <= b then a else b }

  // ---------------------------------------------------------------- resize bound

  /** Total width of the visuals row's children other than the token container. */
  function SiblingsWidth(cs: seq<Child>): real
  {
    if |cs| == 0 then 0.0
    else (if cs[0].isTokensContainer then 0.0 else cs[0].offsetWidth) + SiblingsWidth(cs[1..])
  }

  /** Number of the visuals row's children other than the token container. */
  function SiblingsCount(cs: seq<Child>): nat
  {
    if |cs| == 0 then 0
    else (if cs[0].isTokensContainer then 0 else 1) + SiblingsCount(cs[1..])
  }

  /** The icon size setting, 32 when unset (zero). */
  function IconSize(setting: real): real {
    if setting != 0.0 then setting else DefaultIconSize
  }

  /** Width of `n` tokens of size `size` laid out in one row. */
  function RowWidth(n: nat, size: real): real {
    (n as real) * size + (if n > 0 then (n - 1) as real else 0.0) * TokenGap
  }

  /** Widest the panel may be resized to: just wide enough for one row of tokens next
      to the sibling controls, so tokens never wrap; effectively unbounded when there
      are no tokens or no visuals row; never below the minimum width. */
  function MaxAllowedWidth(l: Layout): (w: real)
    ensures w >= MinWidth
    ensures l.tokenCount == 0 || l.visuals.None? ==> w == UnboundedWidth
    ensures l.tokenCount > 0 && l.visuals.Some? ==>
              w == MaxReal(MinWidth, RowWidth(l.tokenCount, IconSize(l.iconSizeSetting))
                                     + SiblingsWidth(l.visuals.value)
                                     + (SiblingsCount(l.visuals.value) as real) * VisualsGap + ChromeWidth)
  {
    var raw :=
      if l.tokenCount > 0 && l.visuals.Some? then
        var cs := l.visuals.value;
        RowWidth(l.tokenCount, IconSize(l.iconSizeSetting)) + SiblingsWidth(cs)
          + (SiblingsCount(cs) as real) * VisualsGap + ChromeWidth
      else UnboundedWidth;
    MaxReal(MinWidth, raw)
  }

  /** The room left for the token row at the maximum width holds exactly the rendered
      tokens in one row, and one more token (of positive size) would not fit. */
  lemma MaxWidthFitsOneRow(l: Layout)
    requires l.tokenCount > 0 && l.visuals.Some? && IconSize(l.iconSizeSetting) > 0.0
    requires MaxAllowedWidth(l) > MinWidth
    ensures var cs := l.visuals.value;
            var room := MaxAllowedWidth(l) - SiblingsWidth(cs) - (SiblingsCount(cs) as real) * VisualsGap - ChromeWidth;
            RowWidth(l.tokenCount, IconSize(l.iconSizeSetting)) == room
            && RowWidth(l.tokenCount + 1, IconSize(l.iconSizeSetting)) > room
  {
  }

  /** The width a resize applies for horizontal pointer offset `dx`. */
  function ResizeWidth(startWidth: real, dx: real, maxAllowed: real): (w: real)
    requires maxAllowed >= MinWidth
    ensures MinWidth <= w <= maxAllowed
    ensures MinWidth <= startWidth + dx <= maxAllowed ==> w == startWidth + dx
    ensures startWidth + dx < MinWidth ==> w == MinWidth
    ensures startWidth + dx > maxAllowed ==> w == maxAllowed
  {
    MinReal(MaxReal(MinWidth, startWidth + dx), maxAllowed)
  }

  /** Resizing follows the pointer: a pointer further right never gives a narrower panel. */
  lemma ResizeWidthMonotone(startWidth: real, dx1: real, dx2: real, maxAllowed: real)
    requires maxAllowed >= MinWidth && dx1 <= dx2
    ensures ResizeWidth(startWidth, dx1, maxAllowed) <= ResizeWidth(startWidth, dx2, maxAllowed)
  {
  }

  // ---------------------------------------------------------------- transitions

  /** The saved width as applied on render: a set (non-zero) width is written inline and
      decides the `narrow` class; an unset one leaves both alone. */
  function ApplySavedWidth(p: Panel, savedWidth: Option<real>): (q: Panel)
    ensures savedWidth.Some? && savedWidth.value != 0.0 ==>
              q.width == savedWidth && (q.narrow <==> savedWidth.value < NarrowBelow)
    ensures !(savedWidth.Some? && savedWidth.value != 0.0) ==> q == p
    ensures q.(width := p.width, narrow := p.narrow) == p
  {
    if savedWidth.Some? && savedWidth.value != 0.0 then
      p.(width := savedWidth, narrow := savedWidth.value < NarrowBelow)
    else p
  }

  /** A press on the drag handle: an armed handle and the primary button record the
      start; nothing else changes. */
  function OnDragDown(p: Panel, button: int, x: real, y: real, rect: Rect): (q: Panel)
    ensures q.(drag := p.drag) == p
    ensures q.resize == p.resize && q.left == p.left && q.top == p.top && q.width == p.width && q.narrow == p.narrow
    ensures p.dragArmed && button == 0 ==> q.drag == DragData(true, x, y, rect.left, rect.top)
    ensures !(p.dragArmed && button == 0) ==> q == p
  {
    if p.dragArmed && button == 0 then p.(drag := DragData(true, x, y, rect.left, rect.top)) else p
  }

  /** A press on the resize handle: an armed handle and the primary button record the
      start width and the bound; nothing else changes. */
  function OnResizeDown(p: Panel, button: int, x: real, offsetWidth: real, layout: Layout): (q: Panel)
    requires Valid(p)
    ensures Valid(q) && q.(resize := p.resize) == p
    ensures q.drag == p.drag && q.left == p.left && q.top == p.top && q.width == p.width && q.narrow == p.narrow
    ensures p.resizeArmed && button == 0 ==> q.resize == Some(ResizeData(true, x, offsetWidth, MaxAllowedWidth(layout)))
    ensures !(p.resizeArmed && button == 0) ==> q == p
  {
    if p.resizeArmed && button == 0 then p.(resize := Some(ResizeData(true, x, offsetWidth, MaxAllowedWidth(layout))))
    else p
  }

  /** A render: the saved width is re-applied and each handle listens exactly when the
      panel is unlocked and the handle is present; the gestures and the position stay. */
  function OnRender(p: Panel, savedWidth: Option<real>, locked: bool, hasDragHandle: bool, hasResizeHandle: bool): (q: Panel)
    ensures q.(dragArmed := p.dragArmed, resizeArmed := p.resizeArmed, width := p.width, narrow := p.narrow) == p
    ensures q.drag == p.drag && q.resize == p.resize && q.left == p.left && q.top == p.top
    ensures q.dragArmed == (!locked && hasDragHandle) && q.resizeArmed == (!locked && hasResizeHandle)
    ensures q.width == ApplySavedWidth(p, savedWidth).width && q.narrow == ApplySavedWidth(p, savedWidth).narrow
  {
    ApplySavedWidth(p, savedWidth).(dragArmed := !locked && hasDragHandle, resizeArmed := !locked && hasResizeHandle)
  }

  /** A pointer move seen by the drag listener: only the position changes, and only
      while dragging. */
  function OnDragMove(p: Panel, x: real, y: real): (q: Panel)
    ensures q.(left := p.left, top := p.top) == p
    ensures Dragging(p) ==> q.left == Some(p.drag.startLeft + (x - p.drag.startX))
                            && q.top == Some(p.drag.startTop + (y - p.drag.startY))
    ensures !Dragging(p) ==> q == p
  {
    if Dragging(p) then
      p.(left := Some(p.drag.startLeft + (x - p.drag.startX)), top := Some(p.drag.startTop + (y - p.drag.startY)))
    else p
  }

  /** A pointer move seen by the resize listener: only the width and `narrow` change,
      and only while resizing. */
  function OnResizeMove(p: Panel, x: real): (q: Panel)
    requires Valid(p)
    ensures q.(width := p.width, narrow := p.narrow) == p
    ensures Resizing(p) ==>
              q.width == Some(ResizeWidth(p.resize.value.startWidth, x - p.resize.value.startX, p.resize.value.maxAllowedWidth))
              && (q.narrow <==> q.width.value < NarrowBelow)
    ensures !Resizing(p) ==> q == p
  {
    if Resizing(p) then
      var r := p.resize.value;
      var w := ResizeWidth(r.startWidth, x - r.startX, r.maxAllowedWidth);
      p.(width := Some(w), narrow := w < NarrowBelow)
    else p
  }

  /** A pointer move reaches both listeners: the drag one first, then the resize one. */
  function OnMove(p: Panel, x: real, y: real): (q: Panel)
    requires Valid(p)
    ensures Valid(q) && q.drag == p.drag && q.resize == p.resize
    ensures q.dragArmed == p.dragArmed && q.resizeArmed == p.resizeArmed
    ensures Resizing(p) ==>
              q.width == Some(ResizeWidth(p.resize.value.startWidth, x - p.resize.value.startX, p.resize.value.maxAllowedWidth))
              && (q.narrow <==> q.width.value < NarrowBelow)
    ensures !Resizing(p) ==> q.width == p.width && q.narrow == p.narrow
    ensures Dragging(p) ==> q.left == Some(p.drag.startLeft + (x - p.drag.startX))
                            && q.top == Some(p.drag.startTop + (y - p.drag.startY))
    ensures !Dragging(p) ==> q.left == p.left && q.top == p.top
    ensures Idle(p) ==> q == p
  {
    OnResizeMove(OnDragMove(p, x, y), x)
  }

  /** The primary button is released: each active gesture ends and persists its result,
      the drag one the measured position and the resize one the inline (else measured) width. */
  function OnPointerUp(p: Panel, rect: Rect): (r: (Panel, seq<Write>))
    requires Valid(p)
    ensures Valid(r.0) && Idle(r.0)
    ensures r.1 == (if Dragging(p) then [SavePosition(rect.top, rect.left)] else [])
                   + (if Resizing(p) then [SaveWidth(p.width.GetOr(rect.width))] else [])
    ensures r.0.dragArmed == p.dragArmed && r.0.resizeArmed == p.resizeArmed && r.0.narrow == p.narrow
    ensures Dragging(p) ==> r.0.left == Some(rect.left) && r.0.top == Some(rect.top)
    ensures !Dragging(p) ==> r.0.left == p.left && r.0.top == p.top
    ensures Resizing(p) ==> r.0.width == Some(p.width.GetOr(rect.width))
    ensures !Resizing(p) ==> r.0.width == p.width
    ensures Idle(p) ==> r == (p, [])
  {
    var afterDrag :=
      if Dragging(p) then p.(drag := p.drag.(isDragging := false), left := Some(rect.left), top := Some(rect.top))
      else p;
    var dragWrites := if Dragging(p) then [SavePosition(rect.top, rect.left)] else [];
    if Resizing(p) then
      var w := p.width.GetOr(rect.width);
      (afterDrag.(resize := Some(p.resize.value.(isResizing := false)), width := Some(w)), dragWrites + [SaveWidth(w)])
    else (afterDrag, dragWrites)
  }

  /** One event. Presses start a gesture only on an armed handle and with the primary
      button; moves and releases act only on an active gesture; a release ends the
      gesture and persists its result; a render re-arms the handles from the lock. */
  function Step(p: Panel, e: Event): (r: (Panel, seq<Write>))
    requires Valid(p)
    ensures Valid(r.0)
    ensures !IsPress(e) && !e.PointerUp? ==> r.1 == []
    ensures Idle(p) && (e.PointerMove? || e.PointerUp?) ==> r == (p, [])
    ensures e.DragHandleDown? && (!p.dragArmed || e.button != 0) ==> r == (p, [])
    ensures e.ResizeHandleDown? && (!p.resizeArmed || e.button != 0) ==> r == (p, [])
    ensures e.PointerUp? ==> Idle(r.0)
    ensures e.PointerUp? ==> r.1 == (if Dragging(p) then [SavePosition(e.rect.top, e.rect.left)] else [])
                                    + (if Resizing(p) then [SaveWidth(p.width.GetOr(e.rect.width))] else [])
    ensures e.PointerMove? && Resizing(p) ==>
              r.0.width == Some(ResizeWidth(p.resize.value.startWidth, e.x - p.resize.value.startX, p.resize.value.maxAllowedWidth))
              && MinWidth <= r.0.width.value <= p.resize.value.maxAllowedWidth
              && (r.0.narrow <==> r.0.width.value < NarrowBelow)
    ensures e.PointerMove? && Resizing(p) && !Dragging(p) ==> r.0.resize == p.resize && !Dragging(r.0)
    ensures e.PointerMove? && Dragging(p) ==>
              r.0.left == Some(p.drag.startLeft + (e.x - p.drag.startX))
              && r.0.top == Some(p.drag.startTop + (e.y - p.drag.startY))
    ensures e.PointerUp? && Dragging(p) ==> r.0.left == Some(e.rect.left) && r.0.top == Some(e.rect.top)
    ensures e.PointerUp? && !Dragging(p) ==> r.0.left == p.left && r.0.top == p.top
    ensures e.PointerUp? && Resizing(p) ==> r.0.width == Some(p.width.GetOr(e.rect.width))
    ensures e.PointerUp? && !Resizing(p) ==> r.0.width == p.width
    ensures e.PointerUp? ==> r.0.narrow == p.narrow
    ensures e.Rendered? ==> r.0.drag == p.drag && r.0.resize == p.resize
    ensures e.Rendered? ==> r.0.dragArmed == (!e.locked && e.hasDragHandle)
                            && r.0.resizeArmed == (!e.locked && e.hasResizeHandle)
    ensures e.Rendered? && e.savedWidth.Some? && e.savedWidth.value != 0.0 ==>
              r.0.width == e.savedWidth && (r.0.narrow <==> e.savedWidth.value < NarrowBelow)
    ensures e.Rendered? && !(e.savedWidth.Some? && e.savedWidth.value != 0.0) ==>
              r.0.width == p.width && r.0.narrow == p.narrow
  {
    match e
    case DragHandleDown(button, x, y, rect) => (OnDragDown(p, button, x, y, rect), [])
    case ResizeHandleDown(button, x, offsetWidth, layout) => (OnResizeDown(p, button, x, offsetWidth, layout), [])
    case PointerMove(x, y) => (OnMove(p, x, y), [])
    case PointerUp(rect) => OnPointerUp(p, rect)
    case Rendered(savedWidth, locked, hasDragHandle, hasResizeHandle) =>
      (OnRender(p, savedWidth, locked, hasDragHandle, hasResizeHandle), [])
  }

  /** What each event leaves alone: only a render changes whether the handles listen
      or applies a width outside a resize; a press records its gesture and nothing else;
      a move changes the position only while dragging and the width only while resizing;
      a render never moves the panel. */
  lemma StepFrame(p: Panel, e: Event)
    requires Valid(p)
    ensures var q := Step(p, e).0;
            (e.Rendered? ==> q.left == p.left && q.top == p.top)
            && (!e.Rendered? ==> q.dragArmed == p.dragArmed && q.resizeArmed == p.resizeArmed)
            && (IsPress(e) ==> q.left == p.left && q.top == p.top && q.width == p.width && q.narrow == p.narrow)
            && (e.DragHandleDown? ==> q.resize == p.resize)
            && (e.ResizeHandleDown? ==> q.drag == p.drag)
            && (e.PointerMove? && !Resizing(p) ==> q.width == p.width && q.narrow == p.narrow)
            && (e.PointerMove? && !Dragging(p) ==> q.left == p.left && q.top == p.top)
  {
  }

  /** A sequence of events, with the writes they cause in order. */
  function Run(p: Panel, evs: seq<Event>): (r: (Panel, seq<Write>))
    requires Valid(p)
    ensures Valid(r.0)
    decreases |evs|
  {
    if |evs| == 0 then (p, [])
    else
      var first := Step(p, evs[0]);
      var rest := Run(first.0, evs[1..]);
      (rest.0, first.1 + rest.1)
  }

  predicate NoRenders(evs: seq<Event>) { forall k :: 0 <= k < |evs| ==> !evs[k].Rendered? }
  predicate AllMoves(evs: seq<Event>) { forall k :: 0 <= k < |evs| ==> evs[k].PointerMove? }

  // ---------------------------------------------------------------- properties

  /** A locked idle panel stays exactly as it is, and persists nothing, until the next
      render re-arms its handles: every press is ignored, and so is every move and release. */
  lemma {:induction false} LockedStaysIdle(p: Panel, evs: seq<Event>)
    requires Valid(p) && Idle(p) && !p.dragArmed && !p.resizeArmed
    requires NoRenders(evs)
    ensures Run(p, evs) == (p, [])
    decreases |evs|
  {
    if |evs| > 0 {
      assert Step(p, evs[0]) == (p, []);
      assert NoRenders(evs[1..]) by {
        forall k | 0 <= k < |evs[1..]| ensures !evs[1..][k].Rendered? {
          assert evs[1..][k] == evs[k + 1];
        }
      }
      LockedStaysIdle(p, evs[1..]);
      var first := Step(p, evs[0]);
      var rest := Run(first.0, evs[1..]);
      assert rest == (p, []);
      assert Run(p, evs) == (rest.0, first.1 + rest.1);
      assert first.1 + rest.1 == [];
    }
  }

  /** Locking does not interrupt a gesture in progress: a render keeps both records. */
  lemma LockKeepsGesture(p: Panel, savedWidth: Option<real>, hasDragHandle: bool, hasResizeHandle: bool)
    requires Valid(p)
    ensures var q := Step(p, Rendered(savedWidth, true, hasDragHandle, hasResizeHandle)).0;
            Dragging(q) == Dragging(p) && Resizing(q) == Resizing(p) && !q.dragArmed && !q.resizeArmed
  {
  }

  /** Dragging is purely additive and path-independent: after any non-empty run of
      moves, the panel sits at the start position plus the last pointer offset. */
  lemma {:induction false} DragFollowsLastMove(p: Panel, moves: seq<Event>)
    requires Valid(p) && Dragging(p) && !Resizing(p)
    requires |moves| > 0 && AllMoves(moves)
    ensures var q := Run(p, moves).0;
            var last := moves[|moves| - 1];
            Dragging(q) && !Resizing(q) && q.drag == p.drag && Run(p, moves).1 == []
            && q.left == Some(p.drag.startLeft + (last.x - p.drag.startX))
            && q.top == Some(p.drag.startTop + (last.y - p.drag.startY))
    decreases |moves|
  {
    var q := Step(p, moves[0]).0;
    if |moves| > 1 {
      DragFollowsLastMove(q, moves[1..]);
      assert moves[1..][|moves[1..]| - 1] == moves[|moves| - 1];
    }
  }

  /** A whole drag: press the armed handle, move, release. The panel returns to Idle
      and persists exactly one position; when the measured rectangle at release is where
      the drag put the panel, that position is the start plus the pointer offset, unclamped. */
  lemma DragGesture(p: Panel, x0: real, y0: real, start: Rect, moves: seq<Event>, release: Rect)
    requires Valid(p) && Idle(p) && p.dragArmed
    requires |moves| > 0 && AllMoves(moves)
    requires var q := Run(p, [DragHandleDown(0, x0, y0, start)] + moves).0;
             release.left == q.left.GetOr(release.left) && release.top == q.top.GetOr(release.top)
    ensures var last := moves[|moves| - 1];
            var r := Run(p, [DragHandleDown(0, x0, y0, start)] + moves + [PointerUp(release)]);
            Idle(r.0) && r.1 == [SavePosition(start.top + (last.y - y0), start.left + (last.x - x0))]
  {
    var down := DragHandleDown(0, x0, y0, start);
    var q1 := Step(p, down).0;
    DragFollowsLastMove(q1, moves);
    RunAppend(p, [down], moves);
    RunAppend(p, [down] + moves, [PointerUp(release)]);
  }

  /** Running two sequences one after the other is running their concatenation. */
  lemma {:induction false} RunAppend(p: Panel, a: seq<Event>, b: seq<Event>)
    requires Valid(p)
    ensures Run(p, a + b) == (Run(Run(p, a).0, b).0, Run(p, a).1 + Run(Run(p, a).0, b).1)
    decreases |a|
  {
    if |a| == 0 {
      assert a + b == b;
      assert Run(p, a) == (p, []);
      assert [] + Run(p, b).1 == Run(p, b).1;
    } else {
      var first := Step(p, a[0]);
      assert (a + b)[0] == a[0];
      assert (a + b)[1..] == a[1..] + b;
      RunAppend(first.0, a[1..], b);
      var mid := Run(first.0, a[1..]);
      var tail := Run(mid.0, b);
      assert Run(p, a) == (mid.0, first.1 + mid.1);
      assert Run(p, a + b) == (tail.0, first.1 + (mid.1 + tail.1));
      assert first.1 + (mid.1 + tail.1) == (first.1 + mid.1) + tail.1;
    }
  }

  /** A whole resize: press the armed handle, move at least once, release. The panel
      returns to Idle and persists exactly one width: the press-time width plus the last
      pointer offset, clamped to [50, maxAllowedWidth], whatever the pointer did before. */
  lemma ResizeGesture(p: Panel, x0: real, offsetWidth: real, layout: Layout, moves: seq<Event>, release: Rect)
    requires Valid(p) && Idle(p) && p.resizeArmed
    requires |moves| > 0 && AllMoves(moves)
    ensures var last := moves[|moves| - 1];
            var r := Run(p, [ResizeHandleDown(0, x0, offsetWidth, layout)] + moves + [PointerUp(release)]);
            Idle(r.0) && r.1 == [SaveWidth(ResizeWidth(offsetWidth, last.x - x0, MaxAllowedWidth(layout)))]
            && MinWidth <= r.1[0].width <= MaxAllowedWidth(layout)
  {
    var down := ResizeHandleDown(0, x0, offsetWidth, layout);
    var q1 := Step(p, down).0;
    ResizeFollowsLastMove(q1, moves);
    RunAppend(p, [down], moves);
    RunAppend(p, [down] + moves, [PointerUp(release)]);
  }

  /** A click on the resize handle with no move in between: the release saves the inline
      width as it stands (the measured width when none is set), without clamping it to
      [50, maxAllowedWidth]. */
  lemma ResizeClickWithoutMove(p: Panel, x0: real, offsetWidth: real, layout: Layout, release: Rect)
    requires Valid(p) && Idle(p) && p.resizeArmed
    ensures var r := Run(p, [ResizeHandleDown(0, x0, offsetWidth, layout), PointerUp(release)]);
            Idle(r.0) && r.1 == [SaveWidth(p.width.GetOr(release.width))]
  {
    var evs := [ResizeHandleDown(0, x0, offsetWidth, layout), PointerUp(release)];
    var first := Step(p, evs[0]);
    assert first.1 == [] && first.0.width == p.width && Resizing(first.0) && !Dragging(first.0);
    var second := Step(first.0, evs[1]);
    assert second.1 == [SaveWidth(p.width.GetOr(release.width))] && Idle(second.0);
    assert evs[1..] == [PointerUp(release)];
    assert Run(first.0, evs[1..]) == (Run(second.0, []).0, second.1 + Run(second.0, []).1);
    assert Run(second.0, []) == (second.0, []);
    assert second.1 + [] == second.1;
    assert Run(first.0, evs[1..]) == (second.0, second.1);
    assert first.1 + second.1 == second.1;
    assert Run(p, evs) == (second.0, first.1 + second.1);
  }

  /** The unclamped save is reachable: an inline width of 300 with a bound of 88 (two
      32-pixel tokens, no sibling controls) is saved as 300. */
  lemma ResizeClickKeepsWideWidth()
    ensures var p := Panel(false, true, DragData(false, 0.0, 0.0, 0.0, 0.0), None, None, None, Some(300.0), false);
            var layout := Layout(2, 32.0, Some([]));
            MaxAllowedWidth(layout) == 88.0
            && Run(p, [ResizeHandleDown(0, 0.0, 300.0, layout), PointerUp(Rect(0.0, 0.0, 300.0))]).1 == [SaveWidth(300.0)]
  {
    var p := Panel(false, true, DragData(false, 0.0, 0.0, 0.0, 0.0), None, None, None, Some(300.0), false);
    ResizeClickWithoutMove(p, 0.0, 300.0, Layout(2, 32.0, Some([])), Rect(0.0, 0.0, 300.0));
  }

  /** During a resize, after any non-empty run of moves, the inline width is the
      press-time width plus the last pointer offset, clamped to [50, maxAllowedWidth],
      and the `narrow` class marks widths under 100. */
  lemma {:induction false} ResizeFollowsLastMove(p: Panel, moves: seq<Event>)
    requires Valid(p) && Resizing(p) && !Dragging(p)
    requires |moves| > 0 && AllMoves(moves)
    ensures var q := Run(p, moves).0;
            var r := p.resize.value;
            var last := moves[|moves| - 1];
            Resizing(q) && !Dragging(q) && q.resize == p.resize && Run(p, moves).1 == []
            && q.width == Some(ResizeWidth(r.startWidth, last.x - r.startX, r.maxAllowedWidth))
            && MinWidth <= q.width.value <= r.maxAllowedWidth
            && (q.narrow <==> q.width.value < NarrowBelow)
    decreases |moves|
  {
    if |moves| > 1 {
      ResizeFollowsLastMove(Step(p, moves[0]).0, moves[1..]);
      assert moves[1..][|moves[1..]| - 1] == moves[|moves| - 1];
    }
  }

  /** The render that follows a resize re-applies the width the release saved: the
      inline width and the `narrow` class stay as the gesture left them, so the render
      and the gesture agree. */
  lemma RenderAfterResizeKeepsWidth(p: Panel, x0: real, offsetWidth: real, layout: Layout, moves: seq<Event>,
                                    release: Rect, locked: bool, hasDragHandle: bool, hasResizeHandle: bool)
    requires Valid(p) && Idle(p) && p.resizeArmed
    requires |moves| > 0 && AllMoves(moves)
    ensures var w := ResizeWidth(offsetWidth, moves[|moves| - 1].x - x0, MaxAllowedWidth(layout));
            var r := Run(p, [ResizeHandleDown(0, x0, offsetWidth, layout)] + moves + [PointerUp(release)]);
            var q := Step(r.0, Rendered(Some(w), locked, hasDragHandle, hasResizeHandle)).0;
            r.1 == [SaveWidth(w)] && r.0.width == Some(w) && q.width == r.0.width && q.narrow == r.0.narrow
  {
    var down := ResizeHandleDown(0, x0, offsetWidth, layout);
    var q1 := Step(p, down).0;
    ResizeFollowsLastMove(q1, moves);
    RunAppend(p, [down], moves);
    RunAppend(p, [down] + moves, [PointerUp(release)]);
    ResizeGesture(p, x0, offsetWidth, layout, moves, release);
  }

  /** A render that lands in the middle of a resize re-applies the previously saved
      width, and the release then saves that width unclamped: a move to 70 px, a render
      with a saved 300 px, and a release against a bound of 88 px save 300. */
  lemma RenderMidResizeSavesOldWidth()
    ensures var p := Panel(false, true, DragData(false, 0.0, 0.0, 0.0, 0.0), None, None, None, None, false);
            var layout := Layout(2, 32.0, Some([]));
            var evs := [ResizeHandleDown(0, 0.0, 100.0, layout), PointerMove(-30.0, 0.0),
                        Rendered(Some(300.0), false, true, true), PointerUp(Rect(0.0, 0.0, 300.0))];
            MaxAllowedWidth(layout) == 88.0 && Run(p, evs).1 == [SaveWidth(300.0)]
  {
    var p := Panel(false, true, DragData(false, 0.0, 0.0, 0.0, 0.0), None, None, None, None, false);
    var layout := Layout(2, 32.0, Some([]));
    var evs := [ResizeHandleDown(0, 0.0, 100.0, layout), PointerMove(-30.0, 0.0),
                Rendered(Some(300.0), false, true, true), PointerUp(Rect(0.0, 0.0, 300.0))];
    assert MaxAllowedWidth(layout) == 88.0;
    var s1 := Step(p, evs[0]);
    var s2 := Step(s1.0, evs[1]);
    assert s2.0.width == Some(70.0);
    var s3 := Step(s2.0, evs[2]);
    assert s3.0.width == Some(300.0) && Resizing(s3.0);
    var s4 := Step(s3.0, evs[3]);
    assert s4.1 == [SaveWidth(300.0)];
    assert evs[3..] == [evs[3]];
    assert Run(s4.0, []) == (s4.0, []);
    assert s4.1 + [] == s4.1;
    assert Run(s3.0, evs[3..]) == (s4.0, s4.1);
    assert evs[2..][1..] == evs[3..];
    assert s3.1 == [] && [] + s4.1 == s4.1;
    assert Run(s2.0, evs[2..]) == (s4.0, s4.1);
    assert evs[1..][1..] == evs[2..];
    assert s2.1 == [] && s1.1 == [];
    assert Run(s1.0, evs[1..]) == (s4.0, s4.1);
    assert Run(p, evs) == (s4.0, s4.1);
  }

  /** Only a render changes whether the handles listen: without one, any run of
      presses, moves and releases leaves both armed flags as they were. */
  lemma {:induction false} OnlyRenderArms(p: Panel, evs: seq<Event>)
    requires Valid(p) && NoRenders(evs)
    ensures Run(p, evs).0.dragArmed == p.dragArmed && Run(p, evs).0.resizeArmed == p.resizeArmed
    decreases |evs|
  {
    if |evs| > 0 {
      assert NoRenders(evs[1..]) by {
        forall k | 0 <= k < |evs[1..]| ensures !evs[1..][k].Rendered? {
          assert evs[1..][k] == evs[k + 1];
        }
      }
      StepFrame(p, evs[0]);
      OnlyRenderArms(Step(p, evs[0]).0, evs[1..]);
    }
  }

  /** Presses arrive only while the primary button is up, so only while no gesture is
      active; on such input a panel never drags and resizes at once. */
  lemma StepKeepsExclusive(p: Panel, e: Event)
    requires Valid(p) && !(Dragging(p) && Resizing(p))
    requires IsPress(e) ==> Idle(p)
    ensures !(Dragging(Step(p, e).0) && Resizing(Step(p, e).0))
  {
  }
}
