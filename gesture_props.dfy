/**
 * What the gesture promises across several events: the state invariant is
 * kept by every event, timer and navigation step; the Esc flags hold for
 * exactly 300 ms; clicks and mouse-ups are suppressed exactly when the flags
 * say; a drag starts on the first move past the threshold and only then.
 */
module GestureProperties {
  import opened Wrappers
  import opened DragContent
  import Preview
  import opened Gesture

  // ---------------------------------------------------------------- timers

  /** Counting Esc-block timers distributes over concatenation. */
  lemma {:induction false} EscTimersConcat(a: seq<Timer>, b: seq<Timer>)
    ensures EscTimers(a + b) == EscTimers(a) + EscTimers(b)
  {
    if a == [] {
      assert a + b == b;
    } else {
      assert (a + b)[1..] == a[1..] + b;
      EscTimersConcat(a[1..], b);
    }
  }

  /** Adding a timer adds one Esc-block timer exactly when it is one. */
  lemma EscTimersInsert(ts: seq<Timer>, tm: Timer)
    ensures EscTimers(Insert(ts, tm)) == EscTimers(ts) + (if tm.task.EndEscBlock? then 1 else 0)
  {
    InsertShape(ts, tm);
    var k := InsertAt(ts, tm);
    EscTimersConcat(ts[..k] + [tm], ts[k..]);
    EscTimersConcat(ts[..k], [tm]);
    EscTimersConcat(ts[..k], ts[k..]);
    assert ts[..k] + ts[k..] == ts;
  }

  /** Some Esc-block timer is due at or before `t`. */
  predicate EscEndDue(ts: seq<Timer>, t: int) {
    exists x :: x in ts && x.due <= t && x.task.EndEscBlock?
  }

  /**
   * Running the due timers clears the Esc flag exactly when an Esc-block
   * timer was among them, and no timer ever raises it.
   */
  lemma {:induction false} RunDueEsc(s: State, t: int)
    requires Sorted(s.timers)
    ensures RunDue(s, t).flags.escCancelledDrag == (s.flags.escCancelledDrag && !EscEndDue(s.timers, t))
    ensures RunDue(s, t).flags.blockClicksAfterEsc == (s.flags.blockClicksAfterEsc && !EscEndDue(s.timers, t))
    decreases |s.timers|
  {
    var ts := s.timers;
    if ts != [] && ts[0].due <= t {
      SortedTail(ts);
      RunDueEsc(Fire(s.(timers := ts[1..]), ts[0].task), t);
      EscEndDueCons(ts, t);
    } else {
      NoneDue(ts, t);
    }
  }

  /** An Esc-block timer is due in the queue when it is the head or is due in the rest. */
  lemma EscEndDueCons(ts: seq<Timer>, t: int)
    requires ts != [] && ts[0].due <= t
    ensures EscEndDue(ts, t) == (ts[0].task.EndEscBlock? || EscEndDue(ts[1..], t))
  {
    assert ts == [ts[0]] + ts[1..];
  }

  // ------------------------------------------------------------- invariant

  /** The constructor's state is valid, and so is the state after `init` registers everything. */
  lemma InitialValid(onclick: map<nat, nat>, now: int)
    ensures Valid(Initial(onclick, now)) && Valid(Install(Initial(onclick, now)))
  {
  }

  /** Resetting the drag adds no Esc-block timer and keeps the timers in order. */
  lemma ResetTimers(s: State)
    ensures EscTimers(ResetDragState(s).timers) == EscTimers(s.timers)
    ensures Sorted(s.timers) ==> Sorted(ResetDragState(s).timers)
  {
    EscTimersInsert(s.timers, Timer(s.now + ActuallyDraggedDelay, ClearActuallyDragged));
  }

  /** Resetting the drag keeps the invariant. */
  lemma ResetValid(s: State)
    requires Valid(s)
    ensures Valid(ResetDragState(s))
  {
    ResetTimers(s);
  }

  /** Scheduling a timer other than the Esc-block timer keeps the invariant. */
  lemma ScheduleValid(s: State, delay: int, task: Task)
    requires Valid(s) && !task.EndEscBlock?
    ensures Valid(Schedule(s, delay, task))
  {
    EscTimersInsert(s.timers, Timer(s.now + delay, task));
  }

  /** The first pending timer firing keeps the invariant. */
  lemma FireValid(s: State)
    requires Valid(s) && s.timers != []
    ensures Valid(Fire(s.(timers := s.timers[1..]), s.timers[0].task))
  {
    assert s.timers == [s.timers[0]] + s.timers[1..];
    EscTimersConcat([s.timers[0]], s.timers[1..]);
  }

  /** Running the due timers keeps the invariant. */
  lemma {:induction false} RunDueValid(s: State, t: int)
    requires Valid(s)
    ensures Valid(RunDue(s, t))
    decreases |s.timers|
  {
    if s.timers != [] && s.timers[0].due <= t {
      FireValid(s);
      RunDueValid(Fire(s.(timers := s.timers[1..]), s.timers[0].task), t);
    }
  }

  /** Time passing keeps the invariant. */
  lemma AdvanceValid(s: State, t: int)
    requires Valid(s) && s.now <= t
    ensures Valid(Advance(s, t))
  {
    RunDueValid(s, t);
  }

  /** A delivered mouse-down keeps the invariant. */
  lemma MouseDownValid(s: State, button: int, at: Point, target: Element, sel: Selection)
    requires Valid(s)
    ensures Valid(Dispatch(s, MouseDown(button, at, target, sel)).state)
  {
  }

  /** A mouse move keeps the invariant. */
  lemma MouseMoveValid(s: State, at: Point)
    requires Valid(s)
    ensures Valid(Dispatch(s, MouseMove(at)).state)
  {
    if s.listeners.handlers && s.drag.dragStartElement.Some? {
      var s1 := s.(drag := s.drag.(currentMousePosition := at));
      if Beyond(s.drag.dragStartPosition, at) && !s.drag.isDragging {
        var s2 := s1.(drag := s1.drag.(isDragging := true, hasActuallyDragged := true));
        assert Valid(StartDragging(s2));
      }
    }
  }

  /** A mouse-up keeps the invariant. */
  lemma MouseUpValid(s: State)
    requires Valid(s)
    ensures Valid(Dispatch(s, MouseUp).state)
  {
    if s.listeners.handlers && !s.listeners.tempBlocker && !(s.listeners.superBlocker && SuperBlocks(s, MouseUpKind)) {
      if s.flags.ignoreNextMouseUp || s.flags.escCancelledDrag {
        var s1 := s.(flags := s.flags.(ignoreNextMouseUp := false, preventAllClicks := true));
        ScheduleValid(s1, PreventClicksDelay, ClearPreventAllClicks);
        ResetValid(Schedule(s1, PreventClicksDelay, ClearPreventAllClicks));
      } else {
        ResetValid(s);
      }
    }
  }

  /** A click keeps the invariant. */
  lemma ClickValid(s: State, target: nat)
    requires Valid(s)
    ensures Valid(Dispatch(s, Click(target)).state)
  {
    if target in s.onclick {
      var s1 := s.(onclick := s.onclick - {target});
      ScheduleValid(s1, RestoreOnClickDelay, RestoreOnClick(target, s.onclick[target]));
    }
  }

  /** The state right after Escape raises the flags, before the drag is reset. */
  lemma EscRaisedShape(s: State)
    requires Valid(s) && s.drag.isDragging
    ensures var e := EscRaised(s);
            Sorted(e.timers) && EscTimers(e.timers) == 1
  {
    EscTimersInsert(s.timers, Timer(s.now + EscBlockDelay, EndEscBlock));
  }

  /** Escape during a drag leaves a state that keeps the invariant. */
  lemma EscapeValid(s: State)
    requires Valid(s) && s.drag.isDragging
    ensures Valid(ResetDragState(EscRaised(s)))
  {
    EscRaisedShape(s);
    ResetTimers(EscRaised(s));
  }

  /** A key press keeps the invariant. */
  lemma KeyDownValid(s: State, key: string)
    requires Valid(s)
    ensures Valid(Dispatch(s, KeyDown(key)).state)
  {
    if s.listeners.handlers && key == "Escape" && s.drag.isDragging {
      EscapeValid(s);
    }
  }

  /** Every event keeps the invariant. */
  lemma DispatchValid(s: State, ev: Event)
    requires Valid(s)
    ensures Valid(Dispatch(s, ev).state)
  {
    match ev
    case MouseDown(button, at, target, sel) => MouseDownValid(s, button, at, target, sel);
    case MouseMove(at) => MouseMoveValid(s, at);
    case MouseUp => MouseUpValid(s);
    case Click(target) => ClickValid(s, target);
    case KeyDown(key) => KeyDownValid(s, key);
    case Scroll =>
    case DragStart =>
    case DragEnd => if s.listeners.handlers { ResetValid(s); }
  }

  /** No event installs or removes the navigation hooks, or disables the plugin. */
  lemma DispatchKeepsHooks(s: State, ev: Event)
    ensures Dispatch(s, ev).state.listeners.routeHooks == s.listeners.routeHooks
    ensures Dispatch(s, ev).state.flags.pluginDisabled == s.flags.pluginDisabled
  {
  }

  /** Navigation keeps the invariant: disabling (from a navigation hook) and enabling. */
  lemma PluginToggleValid(s: State)
    requires Valid(s) && s.listeners.routeHooks
    ensures Valid(DisablePlugin(s)) && Valid(EnablePlugin(s))
  {
    ResetValid(s);
  }

  // --------------------------------------------------------- suppression

  /**
   * While an Esc flag is up, the global blocker stops every mouse-down,
   * mouse-up and click before any handler sees it: nothing is delivered,
   * nothing is dispatched and the drag and its flags do not change (a click
   * only takes away its target's `onclick`).
   */
  lemma EscBlocksMouse(s: State, ev: Event)
    requires Valid(s) && s.listeners.superBlocker && s.flags.escCancelledDrag
    requires ev.MouseDown? || ev.MouseUp? || ev.Click?
    ensures var r := Dispatch(s, ev);
            !r.delivered && r.dispatched.None? && r.state.drag == s.drag && r.state.flags == s.flags
            && (!ev.Click? ==> r.state == s)
  {
  }

  /** With the handlers registered, a click reaches the page exactly when `handleClick` would let it through. */
  lemma ClickDeliveredIff(s: State, target: nat)
    requires Valid(s) && s.listeners.handlers
    ensures Dispatch(s, Click(target)).delivered <==> !ClickBlocked(s)
  {
  }

  /**
   * Outside the Esc aftermath, a mouse-up starts the drag action exactly when
   * the drag carries content and really moved, and the action is that content.
   */
  lemma MouseUpDispatchIff(s: State)
    requires Valid(s) && s.listeners.handlers
    requires !s.flags.escCancelledDrag && !s.flags.ignoreNextMouseUp
    ensures var r := Dispatch(s, MouseUp);
            (r.dispatched.Some? <==> ReadyToDrop(s.drag))
            && (r.dispatched.Some? ==> r.dispatched == s.drag.dragContent)
            && !r.state.drag.isDragging && r.state.drag.dragContent.None?
  {
  }

  /** Before Escape there is no Esc-block timer, so the one Escape schedules is the only one. */
  lemma NoEscTimerWhileDragging(s: State, x: Timer)
    requires Valid(s) && s.drag.isDragging && x in s.timers
    ensures !x.task.EndEscBlock?
  {
    EscTimersZero(s.timers);
    var i :| 0 <= i < |s.timers| && s.timers[i] == x;
  }

  /**
   * Escape during a drag opens a window of exactly 300 ms: at any later time
   * `t`, the Esc flags are still up if and only if `t` is less than 300 ms
   * after the key press.
   */
  lemma EscWindow(s: State, t: int)
    requires Valid(s) && s.listeners.handlers && s.drag.isDragging && s.now <= t
    ensures var s1 := Dispatch(s, KeyDown("Escape")).state;
            var r := Advance(s1, t);
            (r.flags.escCancelledDrag <==> t < s.now + EscBlockDelay)
            && (r.flags.blockClicksAfterEsc <==> t < s.now + EscBlockDelay)
  {
    var s1 := ResetDragState(EscRaised(s));
    assert Dispatch(s, KeyDown("Escape")).state == s1;
    EscTimerAfterKey(s);
    RunDueEsc(s1, t);
    assert EscEndDue(s1.timers, t) <==> t >= s.now + EscBlockDelay;
  }

  /** After Escape the flags are up and the only Esc-block timer is due 300 ms later. */
  lemma EscTimerAfterKey(s: State)
    requires Valid(s) && s.listeners.handlers && s.drag.isDragging
    ensures var s1 := ResetDragState(EscRaised(s));
            Sorted(s1.timers) && s1.flags.escCancelledDrag && s1.flags.blockClicksAfterEsc
            && Timer(s.now + EscBlockDelay, EndEscBlock) in s1.timers
            && forall x :: x in s1.timers && x.task.EndEscBlock? ==> x.due == s.now + EscBlockDelay
  {
    var e := EscRaised(s);
    var s1 := ResetDragState(e);
    EscRaisedShape(s);
    ResetTimers(e);
    var esc := Timer(s.now + EscBlockDelay, EndEscBlock);
    InsertMembers(s.timers, esc);
    InsertMembers(e.timers, Timer(s.now + ActuallyDraggedDelay, ClearActuallyDragged));
    forall x | x in s1.timers && x.task.EndEscBlock? ensures x.due == s.now + EscBlockDelay {
      assert x in e.timers;
      if x in s.timers {
        NoEscTimerWhileDragging(s, x);
      }
    }
  }

  /**
   * No timer touches `ignoreNextMouseUp`, `pluginDisabled`, the drag other
   * than `hasActuallyDragged`, the preview, or any listener but the temporary blocker.
   */
  lemma {:induction false} RunDueKeeps(s: State, t: int)
    ensures var r := RunDue(s, t);
            r.flags.ignoreNextMouseUp == s.flags.ignoreNextMouseUp
            && r.flags.pluginDisabled == s.flags.pluginDisabled
            && r.drag.(hasActuallyDragged := s.drag.hasActuallyDragged) == s.drag
            && r.listeners.(tempBlocker := s.listeners.tempBlocker) == s.listeners
            && r.ui == s.ui
    decreases |s.timers|
  {
    if s.timers != [] && s.timers[0].due <= t {
      RunDueKeeps(Fire(s.(timers := s.timers[1..]), s.timers[0].task), t);
    }
  }

  /**
   * An Esc-cancelled drag never fires: the first mouse-up after Escape, at any
   * time, starts no action (inside the window the blocker stops it; after
   * it, `ignoreNextMouseUp` swallows it).
   */
  lemma EscThenMouseUpNoAction(s: State, t: int)
    requires Valid(s) && s.listeners.handlers && s.drag.isDragging && s.now <= t
    ensures var s1 := Dispatch(s, KeyDown("Escape")).state;
            Dispatch(Advance(s1, t), MouseUp).dispatched.None?
  {
    var s1 := Dispatch(s, KeyDown("Escape")).state;
    RunDueKeeps(s1, t);
    assert Advance(s1, t).flags.ignoreNextMouseUp;
  }

  // ----------------------------------------------------------- threshold

  /** The state after a run of mouse moves. */
  function Moves(s: State, ps: seq<Point>): State
    decreases |ps|
  {
    if ps == [] then s else Moves(HandleMouseMove(s, ps[0]), ps[1..])
  }

  /**
   * From a mouse-down and no drag, a run of moves starts the drag exactly when
   * some move went further than the threshold from the start point, and
   * `hasActuallyDragged` then rises with it; the start, the content and the
   * flags stay as the mouse-down left them.
   */
  lemma {:induction false} ThresholdOnce(s: State, ps: seq<Point>)
    requires s.drag.dragStartElement.Some? && !s.drag.isDragging && !s.drag.hasActuallyDragged
    ensures var r := Moves(s, ps);
            (r.drag.isDragging <==> exists i :: 0 <= i < |ps| && Beyond(s.drag.dragStartPosition, ps[i]))
            && (r.drag.hasActuallyDragged <==> r.drag.isDragging)
            && r.drag.dragStartElement == s.drag.dragStartElement && r.drag.dragContent == s.drag.dragContent
            && r.drag.dragStartPosition == s.drag.dragStartPosition && r.flags == s.flags && r.timers == s.timers
    decreases |ps|
  {
    if ps != [] {
      var s1 := HandleMouseMove(s, ps[0]);
      if s1.drag.isDragging {
        StaysDragging(s1, ps[1..]);
      } else {
        ThresholdOnce(s1, ps[1..]);
        assert forall i :: 1 <= i < |ps| ==> ps[i] == ps[1..][i - 1];
      }
    }
  }

  /** Once under way, a drag stays under way through any moves, with `hasActuallyDragged` up. */
  lemma {:induction false} StaysDragging(s: State, ps: seq<Point>)
    requires s.drag.isDragging && s.drag.hasActuallyDragged && s.drag.dragStartElement.Some?
    ensures var r := Moves(s, ps);
            r.drag.isDragging && r.drag.hasActuallyDragged
            && r.drag.dragStartElement == s.drag.dragStartElement && r.drag.dragContent == s.drag.dragContent
            && r.drag.dragStartPosition == s.drag.dragStartPosition && r.flags == s.flags && r.timers == s.timers
    decreases |ps|
  {
    if ps != [] {
      StaysDragging(HandleMouseMove(s, ps[0]), ps[1..]);
    }
  }
}
