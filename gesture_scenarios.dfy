/**
 * Two timing windows in which the gesture's timers work against the user,
 * and the one trace of `resetDragState` that is not idempotent.
 */
module GestureScenarios {
  import opened Wrappers
  import opened Strings
  import opened DragContent
  import opened Gesture
  import opened GestureProperties

  // ------------------------------------------------------ pending timers

  /** A timer that would give element `target` its `onclick` back. */
  predicate RestoresTarget(tm: Timer, target: nat) {
    tm.task.RestoreOnClick? && tm.task.element == target
  }

  /** Every pending restore for `target` is followed by an Esc-block timer, so it fires while the flags are up. */
  predicate RestoresGuarded(ts: seq<Timer>, target: nat) {
    forall i :: 0 <= i < |ts| && RestoresTarget(ts[i], target) ==>
      exists j :: i < j < |ts| && ts[j].task.EndEscBlock?
  }

  /** The timers still pending once those due by `t` have run: the queue with its due prefix removed. */
  function Pending(ts: seq<Timer>, t: int): (r: seq<Timer>)
    ensures |r| <= |ts| && r == ts[|ts| - |r|..]
    decreases |ts|
  {
    if ts != [] && ts[0].due <= t then Pending(ts[1..], t) else ts
  }

  /** The timers `RunDue` leaves are `Pending`'s, whatever the callbacks do. */
  lemma {:induction false} RunDueTimers(s: State, t: int)
    ensures RunDue(s, t).timers == Pending(s.timers, t)
    decreases |s.timers|
  {
    if s.timers != [] && s.timers[0].due <= t {
      RunDueTimers(Fire(s.(timers := s.timers[1..]), s.timers[0].task), t);
    }
  }

  /** In a sorted queue, a timer due after `t` is still pending. */
  lemma {:induction false} PendingKeepsLater(ts: seq<Timer>, t: int, x: Timer)
    requires Sorted(ts) && x in ts && x.due > t
    ensures x in Pending(ts, t)
    decreases |ts|
  {
    if ts != [] && ts[0].due <= t {
      assert ts == [ts[0]] + ts[1..];
      PendingKeepsLater(ts[1..], t, x);
    }
  }

  /** Every pending timer was in the queue. */
  lemma PendingFrom(ts: seq<Timer>, t: int, x: Timer)
    requires x in Pending(ts, t)
    ensures x in ts
  {
    var r := Pending(ts, t);
    var i :| 0 <= i < |r| && r[i] == x;
    assert x == ts[|ts| - |r| + i];
  }

  /** An element that has lost its `onclick` stays without it while every restore for it is guarded. */
  lemma {:induction false} RunDueKeepsLost(s: State, t: int, target: nat)
    requires Valid(s) && target !in s.onclick && RestoresGuarded(s.timers, target)
    ensures target !in RunDue(s, t).onclick
    decreases |s.timers|
  {
    var ts := s.timers;
    if ts != [] && ts[0].due <= t {
      var s1 := Fire(s.(timers := ts[1..]), ts[0].task);
      FireValid(s);
      if RestoresTarget(ts[0], target) {
        var j :| 0 < j < |ts| && ts[j].task.EndEscBlock?;
        EscTimersZero(ts);
        assert s.flags.escCancelledDrag;
      }
      forall i | 0 <= i < |ts[1..]| && RestoresTarget(ts[1..][i], target)
        ensures exists j :: i < j < |ts[1..]| && ts[1..][j].task.EndEscBlock?
      {
        assert RestoresTarget(ts[i + 1], target);
        var j :| i + 1 < j < |ts| && ts[j].task.EndEscBlock?;
        assert ts[1..][j - 1] == ts[j];
      }
      RunDueKeepsLost(s1, t, target);
    }
  }

  /** A timer clearing `hasActuallyDragged` is due by `t`. */
  predicate ClearDue(ts: seq<Timer>, t: int) {
    exists x :: x in ts && x.due <= t && x.task.ClearActuallyDragged?
  }

  /** Running the due timers clears `hasActuallyDragged` exactly when a clearing timer was due; none raises it. */
  lemma {:induction false} RunDueActuallyDragged(s: State, t: int)
    requires Sorted(s.timers)
    ensures RunDue(s, t).drag.hasActuallyDragged == (s.drag.hasActuallyDragged && !ClearDue(s.timers, t))
    decreases |s.timers|
  {
    var ts := s.timers;
    if ts != [] && ts[0].due <= t {
      SortedTail(ts);
      RunDueActuallyDragged(Fire(s.(timers := ts[1..]), ts[0].task), t);
      ClearDueCons(ts, t);
    } else {
      NoneDue(ts, t);
    }
  }

  /** A clearing timer is due in the queue when it is the head or is due in the rest. */
  lemma ClearDueCons(ts: seq<Timer>, t: int)
    requires ts != [] && ts[0].due <= t
    ensures ClearDue(ts, t) == (ts[0].task.ClearActuallyDragged? || ClearDue(ts[1..], t))
  {
    assert ts == [ts[0]] + ts[1..];
  }

  // ------------------------------------------------- the lost onclick

  /** The pending timers after Escape are the earlier ones and the two Escape schedules. */
  lemma TimersAfterKey(s: State, x: Timer)
    requires x in ResetDragState(EscRaised(s)).timers
    ensures x in s.timers || x == Timer(s.now + EscBlockDelay, EndEscBlock)
            || x == Timer(s.now + ActuallyDraggedDelay, ClearActuallyDragged)
  {
    InsertMembers(s.timers, Timer(s.now + EscBlockDelay, EndEscBlock));
    InsertMembers(EscRaised(s).timers, Timer(s.now + ActuallyDraggedDelay, ClearActuallyDragged));
  }

  /** A restore inserted before an Esc-block timer is guarded. */
  lemma GuardedInsert(ts: seq<Timer>, tm: Timer, target: nat, m: nat)
    requires forall x :: x in ts ==> !RestoresTarget(x, target)
    requires m < |ts| && ts[m].task.EndEscBlock? && ts[m].due > tm.due
    ensures RestoresGuarded(Insert(ts, tm), target)
  {
    InsertShape(ts, tm);
    InsertAtAfter(ts, tm);
    var k := InsertAt(ts, tm);
    var r := Insert(ts, tm);
    assert m >= k;
    forall i | 0 <= i < |r| && i != k ensures !RestoresTarget(r[i], target) {
      if i < k {
        assert r[i] == ts[i];
      } else {
        assert r[i] == ts[i - 1];
      }
    }
    assert r[m + 1] == ts[m];
  }

  /**
   * A click while the Esc flags are up and every Esc-block timer is due more
   * than 200 ms later: the click is stopped, the target loses its `onclick`
   * and the one restore for it is guarded.
   */
  lemma ClickDuringEscWindow(s: State, target: nat)
    requires Valid(s) && s.flags.escCancelledDrag && s.listeners.superBlocker
    requires forall x :: x in s.timers ==> !RestoresTarget(x, target)
    requires forall x :: x in s.timers && x.task.EndEscBlock? ==> x.due > s.now + RestoreOnClickDelay
    ensures var o := Dispatch(s, Click(target));
            !o.delivered && Valid(o.state) && target !in o.state.onclick && RestoresGuarded(o.state.timers, target)
  {
    var s3 := DisableClickHandlers(s, target);
    assert Dispatch(s, Click(target)) == Outcome(s3, false, None);
    DispatchValid(s, Click(target));
    if target in s.onclick {
      EscTimersZero(s.timers);
      var m :| 0 <= m < |s.timers| && s.timers[m].task.EndEscBlock?;
      assert s.timers[m] in s.timers;
      GuardedInsert(s.timers, Timer(s.now + RestoreOnClickDelay, RestoreOnClick(target, s.onclick[target])), target, m);
    } else {
      forall i | 0 <= i < |s3.timers| ensures !RestoresTarget(s3.timers[i], target) {
        assert s3.timers[i] in s.timers;
      }
    }
  }

  /** A timer pending after Escape and `c`, with `c` less than 100 ms after the key. */
  lemma TimerAfterEarlyEsc(s: State, target: nat, c: int, x: Timer)
    requires Valid(s) && s.listeners.handlers && s.drag.isDragging
    requires forall i :: 0 <= i < |s.timers| ==> !RestoresTarget(s.timers[i], target)
    requires s.now <= c < s.now + EscBlockDelay - RestoreOnClickDelay
    requires x in RunDue(ResetDragState(EscRaised(s)), c).timers
    ensures !RestoresTarget(x, target)
    ensures x.task.EndEscBlock? ==> x.due > c + RestoreOnClickDelay
  {
    RunDueTimers(ResetDragState(EscRaised(s)), c);
    PendingFrom(ResetDragState(EscRaised(s)).timers, c, x);
    TimersAfterKey(s, x);
    if x in s.timers {
      NoEscTimerWhileDragging(s, x);
    }
  }

  /** Less than 100 ms after Escape, the flags are up and the Esc-block timer is more than 200 ms away. */
  lemma EarlyAfterEsc(s: State, target: nat, c: int)
    requires Valid(s) && s.listeners.handlers && s.drag.isDragging
    requires forall i :: 0 <= i < |s.timers| ==> !RestoresTarget(s.timers[i], target)
    requires s.now <= c < s.now + EscBlockDelay - RestoreOnClickDelay
    ensures var s2 := Advance(ResetDragState(EscRaised(s)), c);
            Valid(s2) && s2.flags.escCancelledDrag && s2.listeners.superBlocker && s2.now == c
            && (forall x :: x in s2.timers ==> !RestoresTarget(x, target))
            && (forall x :: x in s2.timers && x.task.EndEscBlock? ==> x.due > s2.now + RestoreOnClickDelay)
  {
    var s1 := ResetDragState(EscRaised(s));
    assert Dispatch(s, KeyDown("Escape")).state == s1;
    KeyDownValid(s, "Escape");
    EscWindow(s, c);
    AdvanceValid(s1, c);
    RunDueKeeps(s1, c);
    forall x | x in Advance(s1, c).timers
      ensures !RestoresTarget(x, target)
      ensures x.task.EndEscBlock? ==> x.due > c + RestoreOnClickDelay
    {
      TimerAfterEarlyEsc(s, target, c, x);
    }
  }

  /**
   * A click that lands less than 100 ms after Escape takes away its target's
   * `onclick` for good: the restore is due 200 ms after the click, before the
   * Esc flags fall 300 ms after the key, so it finds them up and does nothing.
   */
  lemma OnclickLostAfterEarlyClick(s: State, target: nat, c: int, t: int)
    requires Valid(s) && s.listeners.handlers && s.drag.isDragging
    requires forall i :: 0 <= i < |s.timers| ==> !RestoresTarget(s.timers[i], target)
    requires s.now <= c < s.now + EscBlockDelay - RestoreOnClickDelay && c <= t
    ensures var s1 := Dispatch(s, KeyDown("Escape")).state;
            var o := Dispatch(Advance(s1, c), Click(target));
            !o.delivered && target !in Advance(o.state, t).onclick
  {
    assert Dispatch(s, KeyDown("Escape")).state == ResetDragState(EscRaised(s));
    var s2 := Advance(ResetDragState(EscRaised(s)), c);
    EarlyAfterEsc(s, target, c);
    ClickDuringEscWindow(s2, target);
    RunDueKeepsLost(Dispatch(s2, Click(target)).state, t, target);
  }

  // ----------------------------------------------- the stale 50 ms timer

  /** Less than 50 ms after a reset, the reset's timer is still pending and nothing blocks a new drag. */
  lemma SoonAfterReset(s: State, d: int)
    requires Valid(s) && s.listeners.handlers && !s.flags.escCancelledDrag
    requires s.now <= d < s.now + ActuallyDraggedDelay
    ensures var s1 := Advance(ResetDragState(s), d);
            Valid(s1) && s1.listeners.handlers && !s1.flags.escCancelledDrag && !s1.drag.isDragging
            && Timer(s.now + ActuallyDraggedDelay, ClearActuallyDragged) in s1.timers
  {
    var s0 := ResetDragState(s);
    ResetValid(s);
    StalePending(s, d);
    RunDueEsc(s0, d);
    RunDueKeeps(s0, d);
    AdvanceValid(s0, d);
  }

  /** The timer a reset sets is still pending at any time before it is due. */
  lemma StalePending(s: State, d: int)
    requires Sorted(s.timers) && d < s.now + ActuallyDraggedDelay
    ensures Timer(s.now + ActuallyDraggedDelay, ClearActuallyDragged) in RunDue(ResetDragState(s), d).timers
  {
    var s0 := ResetDragState(s);
    var stale := Timer(s.now + ActuallyDraggedDelay, ClearActuallyDragged);
    InsertMembers(s.timers, stale);
    ResetTimers(s);
    RunDueTimers(s0, d);
    PendingKeepsLater(s0.timers, d, stale);
  }

  /** A mouse-down on content and a move past the threshold start a drag that really moved. */
  lemma DownThenMove(s: State, at: Point, target: Element, sel: Selection, p: Point)
    requires Valid(s) && s.listeners.handlers && !s.flags.escCancelledDrag && !s.drag.isDragging
    requires PrepareDragContent(Some(target), Trim(sel.text), MouseInSelection(sel, at)).Some?
    requires Beyond(at, p)
    ensures var s3 := Dispatch(Dispatch(s, MouseDown(0, at, target, sel)).state, MouseMove(p)).state;
            Valid(s3) && s3.listeners.handlers && s3.drag.isDragging && s3.drag.hasActuallyDragged
            && s3.drag.dragContent.Some? && !s3.flags.ignoreNextMouseUp && !s3.flags.escCancelledDrag
            && s3.timers == s.timers && s3.now == s.now
  {
    var s2 := HandleMouseDown(s, 0, at, target, sel);
    assert Dispatch(s, MouseDown(0, at, target, sel)).state == s2;
    MouseDownValid(s, 0, at, target, sel);
    assert Dispatch(s2, MouseMove(p)).state == HandleMouseMove(s2, p);
    MouseMoveValid(s2, p);
  }

  /** Once a clearing timer has come due, a drag that moved is released as one that did not. */
  lemma ReleaseAfterClear(s: State, t: int, x: Timer)
    requires Valid(s) && s.listeners.handlers && !s.flags.escCancelledDrag && !s.flags.ignoreNextMouseUp
    requires s.drag.isDragging && s.now <= t
    requires x in s.timers && x.due <= t && x.task.ClearActuallyDragged?
    ensures var s4 := Advance(s, t);
            s4.drag.isDragging && !s4.drag.hasActuallyDragged && Dispatch(s4, MouseUp).dispatched.None?
  {
    RunDueActuallyDragged(s, t);
    RunDueEsc(s, t);
    RunDueKeeps(s, t);
    AdvanceValid(s, t);
    MouseUpDispatchIff(Advance(s, t));
  }

  /**
   * A new drag that starts less than 50 ms after the previous one was reset
   * and is released after that reset's timer fired starts no action: the
   * timer clears the new drag's `hasActuallyDragged`, and the mouse-up then
   * treats the drag as one that never moved.
   */
  lemma StaleTimerDropsQuickRedrag(s: State, d: int, at: Point, target: Element, sel: Selection,
                                    p: Point, t: int)
    requires Valid(s) && s.listeners.handlers && !s.flags.escCancelledDrag
    requires s.now <= d < s.now + ActuallyDraggedDelay <= t
    requires PrepareDragContent(Some(target), Trim(sel.text), MouseInSelection(sel, at)).Some?
    requires Beyond(at, p)
    ensures var s1 := Advance(ResetDragState(s), d);
            var s3 := Dispatch(Dispatch(s1, MouseDown(0, at, target, sel)).state, MouseMove(p)).state;
            var s4 := Advance(s3, t);
            s3.drag.isDragging && s3.drag.hasActuallyDragged && s4.drag.isDragging
            && !s4.drag.hasActuallyDragged && Dispatch(s4, MouseUp).dispatched.None?
  {
    var s1 := Advance(ResetDragState(s), d);
    SoonAfterReset(s, d);
    DownThenMove(s1, at, target, sel, p);
    var s3 := Dispatch(Dispatch(s1, MouseDown(0, at, target, sel)).state, MouseMove(p)).state;
    ReleaseAfterClear(s3, t, Timer(s.now + ActuallyDraggedDelay, ClearActuallyDragged));
  }

  // ------------------------------------------------------- reset twice

  /**
   * `resetDragState` twice leaves the drag, preview and flags as once; the
   * only trace of the second call is a second timer to clear
   * `hasActuallyDragged` at the same deadline.
   */
  lemma ResetTwice(s: State)
    ensures var r1 := ResetDragState(s);
            var r2 := ResetDragState(r1);
            r2.drag == r1.drag && r2.ui == r1.ui && r2.flags == r1.flags && r2.listeners == r1.listeners
            && r2.onclick == r1.onclick && |r2.timers| == |r1.timers| + 1
            && (forall x :: x in r2.timers <==> x in r1.timers)
  {
    var tm := Timer(s.now + ActuallyDraggedDelay, ClearActuallyDragged);
    InsertShape(s.timers, tm);
    InsertShape(Insert(s.timers, tm), tm);
  }
}
