/**
 * `UIManager`'s part in a drag: the preview element that follows the pointer,
 * moved at most once per animation frame, and the tooltip. The element itself
 * and its styling are not modelled; what is kept is whether it exists, where
 * it was last placed, and the one pending `requestAnimationFrame` callback
 * with the coordinates it captured.
 */
module Preview {
  import opened Wrappers
  import opened DragContent

  /** The state of the preview and tooltip as values. */
  datatype Ui = Ui(
    hasPreview: bool,          // `dragPreview !== null`
    previewAt: Option<Point>,  // its `left`/`top`, once placed
    pendingUpdate: bool,
    frame: Option<Point>,      // the requested frame callback, not yet run or cancelled
    tooltip: Option<string>)   // the tooltip's text while it is displayed

  const NoUi := Ui(false, None, false, None, None)

  /** A frame is pending exactly while `pendingUpdate` is set, and only for an existing preview. */
  predicate Valid(u: Ui) {
    (u.pendingUpdate <==> u.frame.Some?) && (u.frame.Some? ==> u.hasPreview)
  }

  /**
   * `updateDragPreviewPosition(x, y)`: without a preview nothing happens; while
   * a frame is pending the request is dropped; otherwise one frame is
   * requested that will place the preview at `p`.
   */
  function UpdatePosition(u: Ui, p: Point): (r: Ui)
    ensures !u.hasPreview || u.pendingUpdate ==> r == u
    ensures u.hasPreview && !u.pendingUpdate ==> r.pendingUpdate && r.frame == Some(p)
    ensures r.hasPreview == u.hasPreview && r.previewAt == u.previewAt && r.tooltip == u.tooltip
    ensures Valid(u) ==> Valid(r)
  {
    if !u.hasPreview || u.pendingUpdate then u
    else u.(pendingUpdate := true, frame := Some(p))
  }

  /** The animation frame runs: the preview, if still there, moves to the captured point. */
  function RunFrame(u: Ui): (r: Ui)
    ensures u.frame.None? ==> r == u
    ensures u.frame.Some? ==> !r.pendingUpdate && r.frame.None?
    ensures u.frame.Some? && u.hasPreview ==> r.previewAt == u.frame
    ensures r.hasPreview == u.hasPreview && r.tooltip == u.tooltip
    ensures Valid(u) ==> Valid(r)
  {
    match u.frame
    case None => u
    case Some(p) =>
      u.(previewAt := if u.hasPreview then Some(p) else u.previewAt, pendingUpdate := false, frame := None)
  }

  /** `removeDragPreview`: cancel the pending frame and remove the element. */
  function RemovePreview(u: Ui): (r: Ui)
    ensures !r.hasPreview && !r.pendingUpdate && r.frame.None? && r.previewAt.None?
    ensures r.tooltip == u.tooltip
    ensures Valid(r)
  {
    u.(hasPreview := false, previewAt := None, pendingUpdate := false, frame := None)
  }

  /** `uiManager.dragPreview = preview`: a fresh, unplaced preview element. */
  function AttachPreview(u: Ui): (r: Ui)
    ensures r.hasPreview && r.previewAt.None?
    ensures r.pendingUpdate == u.pendingUpdate && r.frame == u.frame && r.tooltip == u.tooltip
    ensures Valid(u) ==> Valid(r)
  {
    u.(hasPreview := true, previewAt := None)
  }

  /** `showTooltip(event, text)`: an empty text leaves the tooltip as it was. */
  function ShowTooltip(u: Ui, text: string): (r: Ui)
    ensures text == [] ==> r == u
    ensures text != [] ==> r.tooltip == Some(text)
    ensures r.(tooltip := u.tooltip) == u
    ensures Valid(u) ==> Valid(r)
  {
    if text == [] then u else u.(tooltip := Some(text))
  }

  /** `hideTooltip`. */
  function HideTooltip(u: Ui): (r: Ui)
    ensures r.tooltip.None? && r.(tooltip := u.tooltip) == u
    ensures Valid(u) ==> Valid(r)
  {
    u.(tooltip := None)
  }

  /**
   * Requests coalesce by dropping: after a first request, further requests
   * before the frame runs change nothing, so the frame places the preview at
   * the first requested point, not the last.
   */
  lemma {:induction false} UpdatesCoalesce(u: Ui, ps: seq<Point>)
    requires Valid(u) && u.hasPreview && !u.pendingUpdate && ps != []
    ensures var r := UpdateAll(u, ps);
            r.frame == Some(ps[0]) && RunFrame(r).previewAt == Some(ps[0])
  {
    UpdateAllFrom(UpdatePosition(u, ps[0]), ps[1..]);
  }

  /** The preview after a run of position requests with no frame in between. */
  function UpdateAll(u: Ui, ps: seq<Point>): Ui
    decreases |ps|
  {
    if ps == [] then u else UpdateAll(UpdatePosition(u, ps[0]), ps[1..])
  }

  /** Once a frame is pending, further requests are dropped. */
  lemma {:induction false} UpdateAllFrom(u: Ui, ps: seq<Point>)
    requires u.pendingUpdate
    ensures UpdateAll(u, ps) == u
  {
    if ps != [] {
      UpdateAllFrom(UpdatePosition(u, ps[0]), ps[1..]);
    }
  }

  /**
   * `UIManager`, with the fields the drag touches. `animationFrame` stands
   * for `animationFrameId`: the callback requested and not yet run or
   * cancelled, with the point it captured.
   */
  class UIManager {
    var hasPreview: bool
    var previewAt: Option<Point>
    var pendingUpdate: bool
    var animationFrame: Option<Point>
    var tooltip: Option<string>

    /** The fields as a value. */
    ghost function View(): Ui
      reads this
    {
      Ui(hasPreview, previewAt, pendingUpdate, animationFrame, tooltip)
    }

    constructor ()
      ensures View() == NoUi
    {
      hasPreview, previewAt, pendingUpdate, animationFrame, tooltip := false, None, false, None, None;
    }

    /** `updateDragPreviewPosition`. */
    method UpdateDragPreviewPosition(p: Point)
      modifies this
      ensures View() == UpdatePosition(old(View()), p)
    {
      if !hasPreview {
        return;
      }
      if pendingUpdate {
        return;
      }
      pendingUpdate := true;
      animationFrame := Some(p);
    }

    /** The browser runs the pending animation-frame callback. */
    method RunAnimationFrame()
      modifies this
      ensures View() == RunFrame(old(View()))
    {
      if animationFrame.Some? {
        if hasPreview {
          previewAt := animationFrame;
        }
        pendingUpdate := false;
        animationFrame := None;
      }
    }

    /** `removeDragPreview`. */
    method RemoveDragPreview()
      modifies this
      ensures View() == RemovePreview(old(View()))
    {
      animationFrame := None;
      pendingUpdate := false;
      if hasPreview {
        hasPreview := false;
      }
      previewAt := None;
    }

    /** The assignment of a freshly created preview in `startDragging`. */
    method AttachDragPreview()
      modifies this
      ensures View() == AttachPreview(old(View()))
    {
      hasPreview := true;
      previewAt := None;
    }

    /** `showTooltip`. */
    method ShowTooltipText(text: string)
      modifies this
      ensures View() == ShowTooltip(old(View()), text)
    {
      if text != [] {
        tooltip := Some(text);
      }
    }

    /** `hideTooltip`. */
    method HideTooltipText()
      modifies this
      ensures View() == HideTooltip(old(View()))
    {
      tooltip := None;
    }
  }
}
