/**
 * The drag gesture of `DragToGo`, as values: the object's fields, the timers
 * it has scheduled with `setTimeout` (as explicit deadlines), and one
 * function per handler. `Dispatch` delivers an event through the listeners in
 * the order the browser calls them: the global blocker and the temporary
 * blocker (window, capture phase) before the handlers (document).
 */
module Gesture {
  import opened Wrappers
  import opened Strings
  import opened DragContent
  import Preview

  const DragThreshold: int := 5
  const ActuallyDraggedDelay: int := 50
  const PreventClicksDelay: int := 500
  const EscBlockDelay: int := 300
  const RestoreOnClickDelay: int := 200

  /** The callbacks the gesture hands to `setTimeout`. */
  datatype Task =
    | ClearActuallyDragged               // resetDragState: hasActuallyDragged = false
    | ClearPreventAllClicks              // handleMouseUp: preventAllClicks = false
    | EndEscBlock                        // handleKeyDown: clear both Esc flags, remove the temporary blocker
    | RestoreOnClick(element: nat, handler: nat)  // temporarilyDisableClickHandlers

  datatype Timer = Timer(due: int, task: Task)

  /** The timers in firing order: by deadline, and by scheduling order among equal deadlines. */
  predicate Sorted(ts: seq<Timer>) {
    forall i, j :: 0 <= i < j < |ts| ==> ts[i].due <= ts[j].due
  }

  /** A sorted queue stays sorted without its head. */
  lemma SortedTail(ts: seq<Timer>)
    requires Sorted(ts) && ts != []
    ensures Sorted(ts[1..])
  {
    forall i, j | 0 <= i < j < |ts| - 1 ensures ts[1..][i].due <= ts[1..][j].due {
      assert ts[1..][i] == ts[i + 1] && ts[1..][j] == ts[j + 1];
    }
  }

  /** In a sorted queue whose head is not due by `t`, no timer is. */
  lemma NoneDue(ts: seq<Timer>, t: int)
    requires Sorted(ts) && (ts == [] || ts[0].due > t)
    ensures forall x :: x in ts ==> x.due > t
  {
    forall x | x in ts ensures x.due > t {
      var i :| 0 <= i < |ts| && ts[i] == x;
      if i > 0 {
        assert ts[0].due <= ts[i].due;
      }
    }
  }

  /** Where a new timer goes: after every pending timer that is due no later. */
  function InsertAt(ts: seq<Timer>, tm: Timer): (k: nat)
    ensures k <= |ts|
    ensures k < |ts| ==> ts[k].due > tm.due
  {
    if ts == [] || ts[0].due > tm.due then 0 else 1 + InsertAt(ts[1..], tm)
  }

  /** Every timer before the insertion point is due no later than the new one. */
  lemma {:induction false} InsertAtAfter(ts: seq<Timer>, tm: Timer)
    ensures forall i :: 0 <= i < InsertAt(ts, tm) ==> ts[i].due <= tm.due
  {
    if ts != [] && ts[0].due <= tm.due {
      InsertAtAfter(ts[1..], tm);
      assert forall i :: 1 <= i < |ts| ==> ts[i] == ts[1..][i - 1];
    }
  }

  /** The pending timers after `setTimeout` adds `tm`. */
  function Insert(ts: seq<Timer>, tm: Timer): (r: seq<Timer>)
    ensures |r| == |ts| + 1
    ensures Sorted(ts) ==> Sorted(r)
  {
    var k := InsertAt(ts, tm);
    var r := ts[..k] + [tm] + ts[k..];
    assert Sorted(ts) ==> Sorted(r) by {
      if Sorted(ts) {
        InsertAtAfter(ts, tm);
        forall i, j | 0 <= i < j < |r| ensures r[i].due <= r[j].due {
          if j < k || i > k {
          } else if i == k {
            assert r[j] == ts[j - 1];
          } else {
            assert r[i] == ts[i];
          }
        }
      }
    }
    r
  }

  /** The new timer goes in after every timer due no later, before every timer due later; nothing else moves. */
  lemma InsertShape(ts: seq<Timer>, tm: Timer)
    ensures var k := InsertAt(ts, tm);
            Insert(ts, tm) == ts[..k] + [tm] + ts[k..]
            && (forall x :: x in Insert(ts, tm) <==> x in ts || x == tm)
  {
    var k := InsertAt(ts, tm);
    assert ts == ts[..k] + ts[k..];
  }

  /** Inserting a timer adds exactly that timer to the pending ones. */
  lemma InsertMultiset(ts: seq<Timer>, tm: Timer)
    ensures multiset(Insert(ts, tm)) == multiset(ts) + multiset{tm}
  {
    var k := InsertAt(ts, tm);
    calc {
      multiset(Insert(ts, tm));
      multiset(ts[..k] + [tm] + ts[k..]);
      multiset(ts[..k]) + multiset{tm} + multiset(ts[k..]);
      { assert ts == ts[..k] + ts[k..]; }
      multiset(ts) + multiset{tm};
    }
  }

  /** A queue with a timer inserted holds that timer and the old ones, and nothing else. */
  lemma InsertMembers(ts: seq<Timer>, tm: Timer)
    ensures forall x :: x in Insert(ts, tm) <==> x in ts || x == tm
  {
    InsertShape(ts, tm);
  }

  /** The fields of one `DragToGo` object that take part in the gesture. */
  datatype Drag = Drag(
    isDragging: bool,
    dragStartElement: Option<Element>,
    dragStartPosition: Point,
    currentMousePosition: Point,
    selectedText: string,
    dragContent: Option<Content>,
    hasActuallyDragged: bool)

  /** The suppression flags of `DragToGo`. */
  datatype Flags = Flags(
    ignoreNextMouseUp: bool,
    blockClicksAfterEsc: bool,
    escCancelledDrag: bool,
    preventAllClicks: bool,
    pluginDisabled: bool)

  /** Which of the extension's listeners are registered. */
  datatype Listeners = Listeners(
    handlers: bool,       // the DragToGo handlers (bindEvents)
    superBlocker: bool,   // the global super blocker
    tempBlocker: bool,    // the temporary super blocker
    routeHooks: bool)     // the single-page-application navigation hooks

  /**
   * One `DragToGo` object as far as the gesture goes, the page's `onclick`
   * handlers by element, the preview and tooltip, the clock, and the pending
   * timers.
   */
  datatype State = State(
    drag: Drag,
    flags: Flags,
    listeners: Listeners,
    onclick: map<nat, nat>,
    ui: Preview.Ui,
    now: int,
    timers: seq<Timer>)

  const IdleDrag: Drag := Drag(false, None, Point(0, 0), Point(0, 0), "", None, false)
  const NoFlags: Flags := Flags(false, false, false, false, false)
  const NoListeners: Listeners := Listeners(false, false, false, false)

  /** The object as the constructor leaves it, on a page with the given `onclick` handlers. */
  function Initial(onclick: map<nat, nat>, now: int): (s: State)
    ensures !s.drag.isDragging && s.drag.dragStartElement.None? && s.drag.dragContent.None?
    ensures s.timers == [] && s.listeners == NoListeners && s.flags == NoFlags
  {
    State(IdleDrag, NoFlags, NoListeners, onclick, Preview.NoUi, now, [])
  }

  /** `setTimeout(task, delay)`. */
  function Schedule(s: State, delay: int, task: Task): State {
    s.(timers := Insert(s.timers, Timer(s.now + delay, task)))
  }

  /**
   * `setTimeout` adds one timer, due `delay` after the clock, to the pending
   * ones, keeps them in firing order, and changes nothing else.
   */
  lemma ScheduleShape(s: State, delay: int, task: Task)
    ensures Schedule(s, delay, task).(timers := s.timers) == s
    ensures multiset(Schedule(s, delay, task).timers) == multiset(s.timers) + multiset{Timer(s.now + delay, task)}
    ensures Sorted(s.timers) ==> Sorted(Schedule(s, delay, task).timers)
  {
    var tm := Timer(s.now + delay, task);
    assert Schedule(s, delay, task).timers == Insert(s.timers, tm);
    InsertMultiset(s.timers, tm);
  }

  /** A timer's callback runs. No callback schedules another timer. */
  function Fire(s: State, task: Task): (r: State)
    ensures r.timers == s.timers && r.now == s.now && r.drag.(hasActuallyDragged := s.drag.hasActuallyDragged) == s.drag
    ensures r.ui == s.ui && r.listeners.(tempBlocker := s.listeners.tempBlocker) == s.listeners
    ensures r.flags.pluginDisabled == s.flags.pluginDisabled
    ensures r.flags.ignoreNextMouseUp == s.flags.ignoreNextMouseUp
    ensures task.ClearActuallyDragged? ==> !r.drag.hasActuallyDragged
    ensures !task.ClearActuallyDragged? ==> r.drag == s.drag
    ensures task.ClearPreventAllClicks? ==> !r.flags.preventAllClicks
    ensures task.EndEscBlock? ==> !r.flags.blockClicksAfterEsc && !r.flags.escCancelledDrag && !r.listeners.tempBlocker
    ensures task.RestoreOnClick? ==>
              r.onclick == if !s.flags.escCancelledDrag && !s.flags.blockClicksAfterEsc
                           then s.onclick[task.element := task.handler] else s.onclick
    ensures !task.RestoreOnClick? ==> r.onclick == s.onclick
    ensures !task.EndEscBlock? ==> r.flags.escCancelledDrag == s.flags.escCancelledDrag
                                   && r.flags.blockClicksAfterEsc == s.flags.blockClicksAfterEsc
                                   && r.listeners == s.listeners
  {
    match task
    case ClearActuallyDragged => s.(drag := s.drag.(hasActuallyDragged := false))
    case ClearPreventAllClicks => s.(flags := s.flags.(preventAllClicks := false))
    case EndEscBlock =>
      s.(flags := s.flags.(blockClicksAfterEsc := false, escCancelledDrag := false),
         listeners := s.listeners.(tempBlocker := false))
    case RestoreOnClick(el, h) =>
      if !s.flags.escCancelledDrag && !s.flags.blockClicksAfterEsc then s.(onclick := s.onclick[el := h]) else s
  }

  /** Run, in order, every pending timer due at or before `t`. */
  function RunDue(s: State, t: int): (r: State)
    ensures r.now == s.now
    ensures |r.timers| <= |s.timers| && r.timers == s.timers[|s.timers| - |r.timers|..]
    ensures r.timers == [] || r.timers[0].due > t
    decreases |s.timers|
  {
    if s.timers != [] && s.timers[0].due <= t then
      var r := RunDue(Fire(s.(timers := s.timers[1..]), s.timers[0].task), t);
      assert s.timers[1..][|s.timers| - 1 - |r.timers|..] == s.timers[|s.timers| - |r.timers|..];
      r
    else s
  }

  /** The event loop reaches time `t`: the due timers fire and the clock reads `t`. */
  function Advance(s: State, t: int): (r: State)
    requires s.now <= t
    ensures r.now == t
    ensures r.timers == [] || r.timers[0].due > t
  {
    RunDue(s, t).(now := t)
  }

  /**
   * `resetDragState` (and `cancelDrag` and `handleDragEnd`, which only call
   * it): the drag ends and its preview and tooltip go, the selected text and
   * `hasActuallyDragged` are kept, and a timer to clear the latter is set
   * 50 ms later.
   */
  function ResetDragState(s: State): (r: State)
    ensures !r.drag.isDragging && r.drag.dragStartElement.None? && r.drag.dragContent.None?
    ensures r.drag.selectedText == s.drag.selectedText && r.drag.hasActuallyDragged == s.drag.hasActuallyDragged
    ensures r.drag.dragStartPosition == s.drag.dragStartPosition
    ensures r.drag.currentMousePosition == s.drag.currentMousePosition
    ensures r.ui == Preview.RemovePreview(Preview.HideTooltip(s.ui))
    ensures r.timers == Insert(s.timers, Timer(s.now + ActuallyDraggedDelay, ClearActuallyDragged))
    ensures r.flags == s.flags && r.listeners == s.listeners && r.onclick == s.onclick && r.now == s.now
  {
    s.(drag := s.drag.(isDragging := false, dragStartElement := None, dragContent := None),
       ui := Preview.RemovePreview(Preview.HideTooltip(s.ui)),
       timers := Insert(s.timers, Timer(s.now + ActuallyDraggedDelay, ClearActuallyDragged)))
  }

  /** The square of the distance from `a` to `b`. */
  function SquaredDistance(a: Point, b: Point): (d: int)
    ensures d >= 0
  {
    (b.x - a.x) * (b.x - a.x) + (b.y - a.y) * (b.y - a.y)
  }

  /** The distance from `a` to `b` is more than the drag threshold: `Math.sqrt(dx² + dy²) > 5`, squared. */
  predicate Beyond(a: Point, b: Point) {
    SquaredDistance(a, b) > DragThreshold * DragThreshold
  }

  /**
   * The squared test is the source's `Math.sqrt(dx² + dy²) > 5`: for the
   * non-negative root `r` of the squared distance, `r > 5` exactly when
   * `Beyond` holds.
   */
  lemma BeyondIsRootTest(a: Point, b: Point, r: real)
    requires r >= 0.0 && r * r == SquaredDistance(a, b) as real
    ensures r > DragThreshold as real <==> Beyond(a, b)
  {
    var t := DragThreshold as real;
    if r > t {
      assert r * r > t * r >= t * t;
    } else {
      assert r * r <= t * r <= t * t;
    }
  }

  /**
   * `handleMouseDown`: only the main button counts; it records the start
   * element and point, re-reads the selection, clears `hasActuallyDragged`
   * and `ignoreNextMouseUp`, and classifies the content at once. It does not
   * touch `isDragging`.
   */
  function HandleMouseDown(s: State, button: int, at: Point, target: Element, sel: Selection): (r: State)
    ensures button != 0 ==> r == s
    ensures button == 0 ==>
              r.drag == Drag(s.drag.isDragging, Some(target), at, at, Trim(sel.text),
                             PrepareDragContent(Some(target), Trim(sel.text), MouseInSelection(sel, at)), false)
              && !r.flags.ignoreNextMouseUp
              && r.flags.(ignoreNextMouseUp := s.flags.ignoreNextMouseUp) == s.flags
              && r.listeners == s.listeners && r.onclick == s.onclick && r.ui == s.ui
              && r.now == s.now && r.timers == s.timers
  {
    if button != 0 then s
    else
      var text := Trim(sel.text);
      s.(drag := Drag(s.drag.isDragging, Some(target), at, at, text,
                      PrepareDragContent(Some(target), text, MouseInSelection(sel, at)), false),
         flags := s.flags.(ignoreNextMouseUp := false))
  }

  /**
   * `startDragging`: without content nothing happens; otherwise a preview is
   * created (its position request goes nowhere, since the manager holds no
   * preview yet) and handed to the manager.
   */
  function StartDragging(s: State): (r: State)
    ensures s.drag.dragContent.None? ==> r == s
    ensures s.drag.dragContent.Some? ==>
              r.ui == Preview.AttachPreview(Preview.UpdatePosition(s.ui, s.drag.currentMousePosition))
    ensures r.drag == s.drag && r.flags == s.flags && r.listeners == s.listeners
    ensures r.onclick == s.onclick && r.now == s.now && r.timers == s.timers
  {
    if s.drag.dragContent.None? then s
    else s.(ui := Preview.AttachPreview(Preview.UpdatePosition(s.ui, s.drag.currentMousePosition)))
  }

  /**
   * `handleMouseMove`: nothing without a start element; otherwise the pointer
   * position is recorded; the first move further than the threshold from the
   * start point starts the drag and raises `hasActuallyDragged` (even with no
   * content, when `startDragging` does nothing); while dragging, the preview
   * is asked to follow and the tooltip shows.
   */
  function HandleMouseMove(s: State, at: Point): (r: State)
    ensures s.drag.dragStartElement.None? ==> r == s
    ensures s.drag.dragStartElement.Some? ==> r.drag.currentMousePosition == at
    ensures r.drag.isDragging <==>
              s.drag.isDragging || (s.drag.dragStartElement.Some? && Beyond(s.drag.dragStartPosition, at))
    ensures r.drag.hasActuallyDragged <==>
              s.drag.hasActuallyDragged
              || (s.drag.dragStartElement.Some? && !s.drag.isDragging && Beyond(s.drag.dragStartPosition, at))
    ensures r.drag.dragStartElement == s.drag.dragStartElement && r.drag.dragStartPosition == s.drag.dragStartPosition
    ensures r.drag.dragContent == s.drag.dragContent && r.drag.selectedText == s.drag.selectedText
    ensures r.flags == s.flags && r.listeners == s.listeners && r.onclick == s.onclick
    ensures r.now == s.now && r.timers == s.timers
  {
    if s.drag.dragStartElement.None? then s
    else
      var s1 := s.(drag := s.drag.(currentMousePosition := at));
      var s2 := if Beyond(s.drag.dragStartPosition, at) && !s.drag.isDragging
                then StartDragging(s1.(drag := s1.drag.(isDragging := true, hasActuallyDragged := true)))
                else s1;
      if s2.drag.isDragging then
        s2.(ui := Preview.ShowTooltip(Preview.UpdatePosition(s2.ui, at),
                                      TooltipText(s2.drag.selectedText, s2.drag.dragStartElement)))
      else s2
  }

  /** What a mouse-up did: the new state, whether the event was stopped, and the action it started. */
  datatype UpResult = UpResult(state: State, stopped: bool, dispatched: Option<Content>)

  /** The drag carries content and really moved: a mouse-up now starts the action. */
  predicate ReadyToDrop(d: Drag) {
    d.isDragging && d.dragContent.Some? && d.hasActuallyDragged
  }

  /**
   * `handleMouseUp`: the mouse-up that follows an Esc is swallowed, clicks are
   * blocked for 500 ms and the drag is reset; otherwise a drag that really
   * moved and carries content starts its action; the state is reset either way.
   */
  function HandleMouseUp(s: State): (r: UpResult)
    ensures s.flags.ignoreNextMouseUp || s.flags.escCancelledDrag ==>
              r.stopped && r.dispatched.None?
              && r.state == ResetDragState(Schedule(
                   s.(flags := s.flags.(ignoreNextMouseUp := false, preventAllClicks := true)),
                   PreventClicksDelay, ClearPreventAllClicks))
    ensures !s.flags.ignoreNextMouseUp && !s.flags.escCancelledDrag ==>
              r.state == ResetDragState(s)
              && (r.dispatched.Some? <==> ReadyToDrop(s.drag))
              && (r.dispatched.Some? ==> r.dispatched == s.drag.dragContent)
              && (r.stopped <==> ReadyToDrop(s.drag))
  {
    if s.flags.ignoreNextMouseUp || s.flags.escCancelledDrag then
      var s1 := s.(flags := s.flags.(ignoreNextMouseUp := false, preventAllClicks := true));
      UpResult(ResetDragState(Schedule(s1, PreventClicksDelay, ClearPreventAllClicks)), true, None)
    else if ReadyToDrop(s.drag) then
      UpResult(ResetDragState(s), true, s.drag.dragContent)
    else
      UpResult(ResetDragState(s), false, None)
  }

  /** `handleClick`: the click is stopped. */
  predicate ClickBlocked(s: State) {
    s.flags.preventAllClicks || s.drag.hasActuallyDragged || s.flags.blockClicksAfterEsc || s.flags.escCancelledDrag
  }

  /** The state right after Escape, before the drag is cancelled. */
  function EscRaised(s: State): (r: State)
    ensures r.flags == s.flags.(ignoreNextMouseUp := true, blockClicksAfterEsc := true, escCancelledDrag := true)
    ensures r.listeners == s.listeners.(tempBlocker := true)
    ensures r.drag == s.drag && r.ui == s.ui && r.onclick == s.onclick && r.now == s.now
    ensures r.timers == Insert(s.timers, Timer(s.now + EscBlockDelay, EndEscBlock))
  {
    Schedule(s.(flags := s.flags.(ignoreNextMouseUp := true, blockClicksAfterEsc := true, escCancelledDrag := true),
                listeners := s.listeners.(tempBlocker := true)),
             EscBlockDelay, EndEscBlock)
  }

  /**
   * `handleKeyDown`: Escape during a drag raises the three Esc flags,
   * registers the temporary blocker, schedules their end 300 ms later and
   * cancels the drag; every other key, or Escape outside a drag, does nothing.
   * The boolean says whether the event was stopped.
   */
  function HandleKeyDown(s: State, key: string): (r: (State, bool))
    ensures !(key == "Escape" && s.drag.isDragging) ==> r == (s, false)
    ensures key == "Escape" && s.drag.isDragging ==> r == (ResetDragState(EscRaised(s)), true)
  {
    if key == "Escape" && s.drag.isDragging then (ResetDragState(EscRaised(s)), true) else (s, false)
  }

  /** `handleScroll`: while dragging, ask for the preview at the last pointer position. */
  function HandleScroll(s: State): (r: State)
    ensures !s.drag.isDragging ==> r == s
    ensures s.drag.isDragging ==> r == s.(ui := Preview.UpdatePosition(s.ui, s.drag.currentMousePosition))
  {
    if s.drag.isDragging then s.(ui := Preview.UpdatePosition(s.ui, s.drag.currentMousePosition)) else s
  }

  /** The mouse events the global blocker listens to. */
  datatype Kind = ClickKind | MouseUpKind | MouseDownKind

  /** The global blocker's decision: an Esc flag blocks every kind, a real drag blocks the click. */
  predicate SuperBlocks(s: State, kind: Kind) {
    s.flags.escCancelledDrag || s.flags.blockClicksAfterEsc || (s.drag.hasActuallyDragged && kind == ClickKind)
  }

  /**
   * `temporarilyDisableClickHandlers(target)`: a target with an `onclick`
   * loses it, and a timer to give it back is set 200 ms later.
   */
  function DisableClickHandlers(s: State, target: nat): (r: State)
    ensures target !in s.onclick ==> r == s
    ensures target in s.onclick ==>
              r.onclick == s.onclick - {target}
              && r.timers == Insert(s.timers, Timer(s.now + RestoreOnClickDelay, RestoreOnClick(target, s.onclick[target])))
    ensures r.drag == s.drag && r.flags == s.flags && r.listeners == s.listeners && r.ui == s.ui && r.now == s.now
  {
    if target in s.onclick then
      Schedule(s.(onclick := s.onclick - {target}), RestoreOnClickDelay, RestoreOnClick(target, s.onclick[target]))
    else s
  }

  /** An event as the listeners see it. */
  datatype Event =
    | MouseDown(button: int, at: Point, target: Element, selection: Selection)
    | MouseMove(at: Point)
    | MouseUp
    | Click(clicked: nat)
    | KeyDown(key: string)
    | Scroll
    | DragStart
    | DragEnd

  /**
   * The result of delivering an event: the new state, whether no listener of
   * the extension stopped its propagation, and the drag action a mouse-up
   * started. Click and mouse-down stops happen in the capture phase, before
   * the page's listeners. A mouse-up or key-down is heard at the document in
   * the bubble phase, so when it is stopped the page's own element listeners
   * have already seen it; only later document listeners and window listeners
   * miss it.
   */
  datatype Outcome = Outcome(state: State, delivered: bool, dispatched: Option<Content>)

  /** Deliver one event through the extension's listeners, in the browser's order. */
  function Dispatch(s: State, ev: Event): (r: Outcome)
    ensures !ev.MouseUp? ==> r.dispatched.None?
    ensures !s.listeners.handlers && !ev.Click? ==> r.state == s
    ensures r.state.listeners.handlers == s.listeners.handlers && r.state.listeners.superBlocker == s.listeners.superBlocker
    ensures r.state.now == s.now
  {
    match ev
    case MouseDown(button, at, target, sel) =>
      if s.listeners.superBlocker && SuperBlocks(s, MouseDownKind) then Outcome(s, false, None)
      else if s.listeners.handlers then Outcome(HandleMouseDown(s, button, at, target, sel), true, None)
      else Outcome(s, true, None)
    case MouseMove(at) =>
      if s.listeners.handlers then Outcome(HandleMouseMove(s, at), true, None) else Outcome(s, true, None)
    case MouseUp =>
      if s.listeners.superBlocker && SuperBlocks(s, MouseUpKind) then Outcome(s, false, None)
      else if s.listeners.tempBlocker then Outcome(s, false, None)
      else if s.listeners.handlers then
        var u := HandleMouseUp(s);
        Outcome(u.state, !u.stopped, u.dispatched)
      else Outcome(s, true, None)
    case Click(target) =>
      if s.listeners.superBlocker && SuperBlocks(s, ClickKind) then
        if s.flags.escCancelledDrag || s.flags.blockClicksAfterEsc then Outcome(DisableClickHandlers(s, target), false, None)
        else Outcome(s, false, None)
      else if s.listeners.tempBlocker then Outcome(s, false, None)
      else if s.listeners.handlers && ClickBlocked(s) then Outcome(s, false, None)
      else Outcome(s, true, None)
    case KeyDown(key) =>
      if s.listeners.handlers then
        var (s1, stopped) := HandleKeyDown(s, key);
        Outcome(s1, !stopped, None)
      else Outcome(s, true, None)
    case Scroll =>
      if s.listeners.handlers then Outcome(HandleScroll(s), true, None) else Outcome(s, true, None)
    case DragStart =>
      Outcome(s, true, None)
    case DragEnd =>
      if s.listeners.handlers then Outcome(ResetDragState(s), true, None) else Outcome(s, true, None)
  }

  /** `init` got past the blacklist check: handlers, global blocker and navigation hooks are registered. */
  function Install(s: State): (r: State)
    ensures r.listeners == s.listeners.(handlers := true, superBlocker := true, routeHooks := true)
    ensures r.(listeners := s.listeners) == s
  {
    s.(listeners := s.listeners.(handlers := true, superBlocker := true, routeHooks := true))
  }

  /** `disablePlugin`: reset the drag, unbind the handlers, hide the tooltip. The global blocker stays. */
  function DisablePlugin(s: State): (r: State)
    ensures r.listeners == s.listeners.(handlers := false) && r.flags == s.flags.(pluginDisabled := true)
    ensures r.drag == ResetDragState(s).drag && r.ui == ResetDragState(s).ui && r.timers == ResetDragState(s).timers
    ensures r.onclick == s.onclick && r.now == s.now
  {
    var s1 := ResetDragState(s);
    s1.(listeners := s1.listeners.(handlers := false), ui := Preview.HideTooltip(s1.ui),
        flags := s1.flags.(pluginDisabled := true))
  }

  /** `enablePlugin`: rebind the handlers only if an earlier `disablePlugin` unbound them. */
  function EnablePlugin(s: State): (r: State)
    ensures s.flags.pluginDisabled ==>
              r == s.(listeners := s.listeners.(handlers := true), flags := s.flags.(pluginDisabled := false))
    ensures !s.flags.pluginDisabled ==> r == s
  {
    if s.flags.pluginDisabled then
      s.(listeners := s.listeners.(handlers := true), flags := s.flags.(pluginDisabled := false))
    else s
  }

  /** The number of pending Esc-block timers. */
  function EscTimers(ts: seq<Timer>): (n: nat)
    ensures n <= |ts|
  {
    if ts == [] then 0 else (if ts[0].task.EndEscBlock? then 1 else 0) + EscTimers(ts[1..])
  }

  /** There is no Esc-block timer exactly when the count is zero. */
  lemma {:induction false} EscTimersZero(ts: seq<Timer>)
    ensures EscTimers(ts) == 0 <==> forall i :: 0 <= i < |ts| ==> !ts[i].task.EndEscBlock?
  {
    if ts != [] {
      EscTimersZero(ts[1..]);
      assert forall i :: 1 <= i < |ts| ==> ts[i] == ts[1..][i - 1];
    }
  }

  /**
   * What holds of every reachable state: the timers are in firing order; at
   * most one preview frame is pending; a preview exists only during a drag
   * and a drag only with a start element; the Esc flags and the temporary
   * blocker rise and fall together, with exactly one pending timer to end
   * them, and while they are up no drag is under way; the handlers and the
   * navigation hooks are registered only once the global blocker is, and the
   * plugin is disabled only through a navigation hook.
   */
  predicate Valid(s: State) {
    Sorted(s.timers)
    && Preview.Valid(s.ui)
    && (s.ui.hasPreview ==> s.drag.isDragging)
    && (s.drag.isDragging ==> s.drag.dragStartElement.Some?)
    && s.flags.blockClicksAfterEsc == s.flags.escCancelledDrag
    && s.listeners.tempBlocker == s.flags.escCancelledDrag
    && EscTimers(s.timers) == (if s.flags.escCancelledDrag then 1 else 0)
    && (s.flags.escCancelledDrag ==> !s.drag.isDragging && s.drag.dragStartElement.None?)
    && (s.listeners.handlers ==> s.listeners.superBlocker)
    && (s.listeners.routeHooks ==> s.listeners.superBlocker)
    && (s.flags.pluginDisabled ==> s.listeners.routeHooks)
  }
}
