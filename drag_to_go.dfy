/**
 * The `DragToGo` object of the content script with its fields updated in
 * place. The object's fields are kept in the groups `Gesture` and
 * `SiteFilter` give them (`drag`, `flags`, `listeners`, `config`); each
 * method mirrors one method of the source and states its new state as the
 * matching transition of `Gesture` or `SiteFilter` applied to the old one,
 * through the ghost view `GestureView()`. Besides the object's own fields
 * the class holds the parts of the page the object acts on: the elements'
 * `onclick` handlers, the location, the clock and the pending `setTimeout`
 * callbacks.
 */
module ContentScript {
  import opened Wrappers
  import opened Strings
  import opened Utils
  import opened DragContent
  import opened Preview
  import opened Gesture
  import opened SiteFilter
  import GestureProperties

  class DragToGo {
    var drag: Drag              // isDragging, dragStartElement, ..., hasActuallyDragged
    var flags: Flags            // ignoreNextMouseUp, blockClicksAfterEsc, escCancelledDrag, preventAllClicks, pluginDisabled
    var listeners: Listeners    // which listeners are registered
    var config: Config          // blacklist, searchEngine, blacklistRegexps, currentUrl, ..., isLoadingSettings
    const uiManager: UIManager
    // the page and its event loop
    var locationHref: string
    var locationHost: string
    var onclick: map<nat, nat>
    var now: int
    var timers: seq<Timer>

    /** The gesture fields, the page's handlers, the preview, the clock and the timers, as a `Gesture.State`. */
    ghost function GestureView(): State
      reads this, uiManager
    {
      State(drag, flags, listeners, onclick, uiManager.View(), now, timers)
    }

    /** The gesture invariant, and handlers bound exactly while the hooks are in and the plugin is enabled. */
    ghost predicate Valid()
      reads this, uiManager
    {
      Gesture.Valid(GestureView()) && Bound(GestureView())
    }

    /** `new DragToGo()` up to its call of `init`, on a page at `href` with the given `onclick` handlers. */
    constructor (pageOnclick: map<nat, nat>, clock: int, href: string, host: string)
      ensures GestureView() == Initial(pageOnclick, clock) && config == InitialConfig
      ensures locationHref == href && locationHost == host && Valid()
    {
      drag, flags, listeners, config := IdleDrag, NoFlags, NoListeners, InitialConfig;
      uiManager := new UIManager();
      locationHref, locationHost := href, host;
      onclick, now, timers := pageOnclick, clock, [];
    }

    /** `setTimeout(task, delay)`. */
    method SetTimeout(delay: int, task: Task)
      modifies this
      ensures GestureView() == Schedule(old(GestureView()), delay, task)
      ensures config == old(config) && locationHref == old(locationHref) && locationHost == old(locationHost)
    {
      timers := Insert(timers, Timer(now + delay, task));
    }

    // ------------------------------------------------------------ gesture

    /** `resetDragState`. */
    method ResetDragState()
      modifies this, uiManager
      ensures GestureView() == Gesture.ResetDragState(old(GestureView()))
      ensures config == old(config) && locationHref == old(locationHref) && locationHost == old(locationHost)
    {
      drag := drag.(isDragging := false, dragStartElement := None, dragContent := None);
      uiManager.HideTooltipText();
      uiManager.RemoveDragPreview();
      SetTimeout(ActuallyDraggedDelay, ClearActuallyDragged);
    }

    /** `handleMouseDown`, with the selection and the point read from the event. */
    method HandleMouseDown(button: int, at: Point, target: Element, sel: Selection)
      modifies this
      ensures GestureView() == Gesture.HandleMouseDown(old(GestureView()), button, at, target, sel)
      ensures config == old(config) && locationHref == old(locationHref) && locationHost == old(locationHost)
    {
      if button != 0 {
        return;
      }
      var text := Trim(sel.text);
      var inside := IsMouseInSelectedText(sel, at);
      var content := PrepareDragContent(Some(target), text, inside);
      drag := Drag(drag.isDragging, Some(target), at, at, text, content, false);
      flags := flags.(ignoreNextMouseUp := false);
    }

    /** `startDragging`: a preview is created for content, and handed to the manager. */
    method StartDragging()
      modifies uiManager
      ensures GestureView() == Gesture.StartDragging(old(GestureView()))
    {
      if drag.dragContent.None? {
        return;
      }
      uiManager.UpdateDragPreviewPosition(drag.currentMousePosition);
      uiManager.AttachDragPreview();
    }

    /** `handleMouseMove`. */
    method HandleMouseMove(at: Point)
      modifies this, uiManager
      ensures GestureView() == Gesture.HandleMouseMove(old(GestureView()), at)
      ensures config == old(config) && locationHref == old(locationHref) && locationHost == old(locationHost)
    {
      if drag.dragStartElement.None? {
        return;
      }
      drag := drag.(currentMousePosition := at);
      if Beyond(drag.dragStartPosition, at) && !drag.isDragging {
        drag := drag.(isDragging := true, hasActuallyDragged := true);
        StartDragging();
      }
      if drag.isDragging {
        uiManager.UpdateDragPreviewPosition(drag.currentMousePosition);
        uiManager.ShowTooltipText(TooltipText(drag.selectedText, drag.dragStartElement));
      }
    }

    /** `handleMouseUp`: whether the event was stopped, and the content whose action it started. */
    method HandleMouseUp() returns (stopped: bool, dispatched: Option<Content>)
      modifies this, uiManager
      ensures var u := Gesture.HandleMouseUp(old(GestureView()));
              GestureView() == u.state && stopped == u.stopped && dispatched == u.dispatched
      ensures config == old(config) && locationHref == old(locationHref) && locationHost == old(locationHost)
    {
      if flags.ignoreNextMouseUp || flags.escCancelledDrag {
        flags := flags.(ignoreNextMouseUp := false, preventAllClicks := true);
        SetTimeout(PreventClicksDelay, ClearPreventAllClicks);
        ResetDragState();
        return true, None;
      }
      stopped, dispatched := false, None;
      if drag.isDragging && drag.dragContent.Some? && drag.hasActuallyDragged {
        stopped, dispatched := true, drag.dragContent;
      }
      ResetDragState();
    }

    /** `handleClick`: whether the click is stopped. */
    method HandleClick() returns (blocked: bool)
      ensures blocked == ClickBlocked(GestureView())
    {
      if flags.preventAllClicks {
        return true;
      }
      blocked := drag.hasActuallyDragged || flags.blockClicksAfterEsc || flags.escCancelledDrag;
    }

    /** `handleKeyDown`: whether the key was stopped. */
    method HandleKeyDown(key: string) returns (stopped: bool)
      modifies this, uiManager
      ensures (GestureView(), stopped) == Gesture.HandleKeyDown(old(GestureView()), key)
      ensures config == old(config) && locationHref == old(locationHref) && locationHost == old(locationHost)
    {
      if key == "Escape" && drag.isDragging {
        flags := flags.(ignoreNextMouseUp := true, blockClicksAfterEsc := true, escCancelledDrag := true);
        listeners := listeners.(tempBlocker := true);
        SetTimeout(EscBlockDelay, EndEscBlock);
        ResetDragState();
        return true;
      }
      return false;
    }

    /** `handleScroll`. */
    method HandleScroll()
      modifies uiManager
      ensures GestureView() == Gesture.HandleScroll(old(GestureView()))
    {
      if drag.isDragging {
        uiManager.UpdateDragPreviewPosition(drag.currentMousePosition);
      }
    }

    /** `temporarilyDisableClickHandlers(target)`. */
    method TemporarilyDisableClickHandlers(target: nat)
      modifies this
      ensures GestureView() == DisableClickHandlers(old(GestureView()), target)
      ensures config == old(config) && locationHref == old(locationHref) && locationHost == old(locationHost)
    {
      if target !in onclick {
        return;
      }
      var original := onclick[target];
      onclick := onclick - {target};
      SetTimeout(RestoreOnClickDelay, RestoreOnClick(target, original));
    }

    /** The global blocker on a click, mouse-up or mouse-down of `target`: whether it stopped the event. */
    method SuperBlocker(kind: Kind, target: nat) returns (blocked: bool)
      modifies this
      ensures blocked == SuperBlocks(old(GestureView()), kind)
      ensures kind == ClickKind && (old(flags.escCancelledDrag) || old(flags.blockClicksAfterEsc)) ==>
                GestureView() == DisableClickHandlers(old(GestureView()), target)
      ensures !(kind == ClickKind && (old(flags.escCancelledDrag) || old(flags.blockClicksAfterEsc))) ==>
                GestureView() == old(GestureView())
      ensures config == old(config) && locationHref == old(locationHref) && locationHost == old(locationHost)
    {
      if flags.escCancelledDrag || flags.blockClicksAfterEsc {
        if kind == ClickKind {
          TemporarilyDisableClickHandlers(target);
        }
        return true;
      }
      return drag.hasActuallyDragged && kind == ClickKind;
    }

    /** A pending `setTimeout` callback runs. */
    method RunTask(task: Task)
      modifies this
      ensures GestureView() == Fire(old(GestureView()), task)
      ensures config == old(config) && locationHref == old(locationHref) && locationHost == old(locationHost)
    {
      match task
      case ClearActuallyDragged => drag := drag.(hasActuallyDragged := false);
      case ClearPreventAllClicks => flags := flags.(preventAllClicks := false);
      case EndEscBlock =>
        flags := flags.(blockClicksAfterEsc := false, escCancelledDrag := false);
        listeners := listeners.(tempBlocker := false);
      case RestoreOnClick(element, handler) =>
        if !flags.escCancelledDrag && !flags.blockClicksAfterEsc {
          onclick := onclick[element := handler];
        }
    }

    /** The event loop runs, in order, every callback due by time `t`. */
    method RunDueTimers(t: int)
      modifies this
      ensures GestureView() == RunDue(old(GestureView()), t)
      ensures config == old(config) && locationHref == old(locationHref) && locationHost == old(locationHost)
    {
      ghost var target := RunDue(GestureView(), t);
      while timers != [] && timers[0].due <= t
        invariant RunDue(GestureView(), t) == target
        invariant config == old(config) && locationHref == old(locationHref) && locationHost == old(locationHost)
        decreases |timers|
      {
        ghost var g := GestureView();
        var task := timers[0].task;
        timers := timers[1..];
        RunTask(task);
        assert GestureView() == Fire(g.(timers := g.timers[1..]), g.timers[0].task);
      }
    }

    /** The clock reads `t`. */
    method SetClock(t: int)
      modifies this
      ensures GestureView() == old(GestureView()).(now := t)
      ensures config == old(config) && locationHref == old(locationHref) && locationHost == old(locationHost)
    {
      now := t;
    }

    /** The event loop reaches time `t`: every timer due by then runs, and the clock reads `t`. */
    method AdvanceClock(t: int)
      requires now <= t
      modifies this
      ensures GestureView() == Advance(old(GestureView()), t)
      ensures config == old(config) && locationHref == old(locationHref) && locationHost == old(locationHost)
      ensures old(Valid()) ==> Valid()
    {
      ghost var g := GestureView();
      if Valid() {
        GestureProperties.AdvanceValid(g, t);
        GestureProperties.RunDueKeeps(g, t);
      }
      RunDueTimers(t);
      SetClock(t);
    }

    /**
     * One event through the listeners, in the browser's order: whether no
     * listener of the extension stopped its propagation, and the action
     * started. A stopped mouse-up or key-down was heard at the document in
     * the bubble phase, after the page's own element listeners.
     */
    method DeliverEvent(ev: Event) returns (delivered: bool, dispatched: Option<Content>)
      requires Valid()
      modifies this, uiManager
      ensures var o := Dispatch(old(GestureView()), ev);
              GestureView() == o.state && delivered == o.delivered && dispatched == o.dispatched
      ensures config == old(config) && locationHref == old(locationHref) && locationHost == old(locationHost)
      ensures Valid()
    {
      ghost var g := GestureView();
      GestureProperties.DispatchValid(g, ev);
      GestureProperties.DispatchKeepsHooks(g, ev);
      delivered, dispatched := true, None;
      match ev {
        case MouseDown(button, at, target, sel) =>
          delivered := DeliverMouseDown(button, at, target, sel);
        case MouseMove(at) =>
          if listeners.handlers {
            HandleMouseMove(at);
          }
        case MouseUp =>
          delivered, dispatched := DeliverMouseUp();
        case Click(target) =>
          delivered := DeliverClick(target);
        case KeyDown(key) =>
          if listeners.handlers {
            var stopped := HandleKeyDown(key);
            delivered := !stopped;
          }
        case Scroll =>
          if listeners.handlers {
            HandleScroll();
          }
        case DragStart =>
        case DragEnd =>
          if listeners.handlers {
            ResetDragState();
          }
      }
    }

    /** A mouse-down through the global blocker, then the handler. */
    method DeliverMouseDown(button: int, at: Point, target: Element, sel: Selection) returns (delivered: bool)
      modifies this
      ensures var o := Dispatch(old(GestureView()), MouseDown(button, at, target, sel));
              GestureView() == o.state && delivered == o.delivered
      ensures config == old(config) && locationHref == old(locationHref) && locationHost == old(locationHost)
    {
      var blocked := false;
      if listeners.superBlocker {
        blocked := SuperBlocker(MouseDownKind, target.id);
      }
      delivered := !blocked;
      if !blocked && listeners.handlers {
        HandleMouseDown(button, at, target, sel);
      }
    }

    /** A mouse-up through the global blocker, the temporary blocker, then the handler. */
    method DeliverMouseUp() returns (delivered: bool, dispatched: Option<Content>)
      modifies this, uiManager
      ensures var o := Dispatch(old(GestureView()), MouseUp);
              GestureView() == o.state && delivered == o.delivered && dispatched == o.dispatched
      ensures config == old(config) && locationHref == old(locationHref) && locationHost == old(locationHost)
    {
      delivered, dispatched := true, None;
      var blocked := false;
      if listeners.superBlocker {
        blocked := SuperBlocker(MouseUpKind, 0);
      }
      if blocked || listeners.tempBlocker {
        delivered := false;
      } else if listeners.handlers {
        var stopped;
        stopped, dispatched := HandleMouseUp();
        delivered := !stopped;
      }
    }

    /** A click through the global blocker, the temporary blocker, then the handler. */
    method DeliverClick(target: nat) returns (delivered: bool)
      modifies this
      ensures var o := Dispatch(old(GestureView()), Click(target));
              GestureView() == o.state && delivered == o.delivered
      ensures config == old(config) && locationHref == old(locationHref) && locationHost == old(locationHost)
    {
      delivered := true;
      var blocked := false;
      if listeners.superBlocker {
        blocked := SuperBlocker(ClickKind, target);
      }
      if blocked || listeners.tempBlocker {
        delivered := false;
      } else if listeners.handlers {
        var stopped := HandleClick();
        delivered := !stopped;
      }
    }

    // --------------------------------------------------------- site filter

    /** `compileBlacklistRegexps`. */
    method CompileBlacklistRegexps()
      modifies this
      ensures config == Compiled(old(config), locationHref, locationHost)
      ensures GestureView() == old(GestureView()) && locationHref == old(locationHref) && locationHost == old(locationHost)
    {
      config := config.(blacklistRegexps := config.blacklist, currentUrl := locationHref, currentHost := locationHost);
    }

    /** `shouldReloadSettings`. */
    method ShouldReloadSettings() returns (reload: bool)
      ensures reload == ShouldReload(config, now)
    {
      reload := config.settingsCache.None? || now - config.settingsLastLoaded > CacheTimeout;
    }

    /** `loadSettings`, where `loaded` is what `SettingsManager.loadSettings` answers. */
    method LoadSettings(loaded: Settings)
      modifies this
      ensures config == SiteFilter.LoadSettings(old(config), now, loaded, locationHref, locationHost)
      ensures GestureView() == old(GestureView()) && locationHref == old(locationHref) && locationHost == old(locationHost)
    {
      if config.isLoadingSettings {
        return;
      }
      var reload := ShouldReloadSettings();
      if !reload {
        return;
      }
      config := config.(isLoadingSettings := true);
      config := config.(settingsCache := Some(loaded), settingsLastLoaded := now);
      if HasBlacklist(loaded) {
        config := config.(blacklist := loaded["blacklist"].items, searchEngine := EngineSetting(loaded));
      } else {
        config := config.(blacklist := [], searchEngine := DefaultEngine);
      }
      CompileBlacklistRegexps();
      config := config.(isLoadingSettings := false);
    }

    /** `isBlacklisted`. */
    method IsBlacklisted() returns (blacklisted: bool)
      modifies this
      ensures (config, blacklisted) == CheckBlacklist(old(config), locationHref, locationHost)
      ensures GestureView() == old(GestureView()) && locationHref == old(locationHref) && locationHost == old(locationHost)
    {
      if config.currentUrl != locationHref || config.currentHost != locationHost {
        CompileBlacklistRegexps();
      }
      blacklisted := Glob.AnyPatternHits(config.blacklistRegexps, config.currentUrl, config.currentHost, true);
    }

    /** `disablePlugin`. */
    method DisablePlugin()
      modifies this, uiManager
      ensures GestureView() == Gesture.DisablePlugin(old(GestureView()))
      ensures config == old(config) && locationHref == old(locationHref) && locationHost == old(locationHost)
    {
      ResetDragState();
      listeners := listeners.(handlers := false);
      uiManager.HideTooltipText();
      flags := flags.(pluginDisabled := true);
    }

    /** `enablePlugin`. */
    method EnablePlugin()
      modifies this
      ensures GestureView() == Gesture.EnablePlugin(old(GestureView()))
      ensures config == old(config) && locationHref == old(locationHref) && locationHost == old(locationHost)
    {
      if flags.pluginDisabled {
        listeners := listeners.(handlers := true);
        flags := flags.(pluginDisabled := false);
      }
    }

    /** `init`, with `loaded` the answer of its settings load. */
    method Init(loaded: Settings)
      modifies this
      ensures (GestureView(), config) == SiteFilter.Init(old(GestureView()), old(config), now, loaded, locationHref, locationHost)
      ensures locationHref == old(locationHref) && locationHost == old(locationHost)
      ensures old(Valid()) && old(listeners) == NoListeners ==> Valid()
    {
      LoadSettings(loaded);
      var blacklisted := IsBlacklisted();
      if blacklisted {
        return;
      }
      listeners := listeners.(handlers := true, routeHooks := true, superBlocker := true);
    }

    /** `handleRouteChange`, with `loaded` the answer of a settings load should one be needed. */
    method HandleRouteChange(loaded: Settings)
      modifies this, uiManager
      ensures (GestureView(), config) == RouteChange(old(GestureView()), old(config), now, loaded, locationHref, locationHost)
      ensures locationHref == old(locationHref) && locationHost == old(locationHost)
    {
      if locationHref == config.currentUrl && locationHost == config.currentHost {
        return;
      }
      var blacklisted := RecheckSite(loaded);
      ApplyBlacklisted(blacklisted);
    }

    /** The second half of `handleRouteChange`: disable the plugin on a blacklisted page, enable it otherwise. */
    method ApplyBlacklisted(blacklisted: bool)
      modifies this, uiManager
      ensures GestureView() == if blacklisted then Gesture.DisablePlugin(old(GestureView())) else Gesture.EnablePlugin(old(GestureView()))
      ensures config == old(config) && locationHref == old(locationHref) && locationHost == old(locationHost)
    {
      if blacklisted {
        DisablePlugin();
      } else {
        EnablePlugin();
      }
    }

    /** The first half of `handleRouteChange`: reload stale settings or recompile, then `isBlacklisted`. */
    method RecheckSite(loaded: Settings) returns (blacklisted: bool)
      modifies this
      ensures var c1 := if ShouldReload(old(config), now) then SiteFilter.LoadSettings(old(config), now, loaded, locationHref, locationHost)
                        else Compiled(old(config), locationHref, locationHost);
              (config, blacklisted) == CheckBlacklist(c1, locationHref, locationHost)
      ensures GestureView() == old(GestureView()) && locationHref == old(locationHref) && locationHost == old(locationHost)
    {
      var reload := ShouldReloadSettings();
      if reload {
        LoadSettings(loaded);
      } else {
        CompileBlacklistRegexps();
      }
      blacklisted := IsBlacklisted();
    }

    /** The page moves to `href` without reloading; the hooks `init` installed report it. */
    method Navigate(href: string, host: string, loaded: Settings)
      modifies this, uiManager
      ensures (GestureView(), config) == SiteFilter.Navigate(old(GestureView()), old(config), now, loaded, href, host)
      ensures locationHref == href && locationHost == host
      ensures old(Valid()) ==> Valid()
    {
      if Valid() {
        NavigateValid(GestureView(), config, now, loaded, href, host);
      }
      locationHref, locationHost := href, host;
      if listeners.routeHooks {
        HandleRouteChange(loaded);
      }
    }
  }
}
