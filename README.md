# Drag-n-Go, modelled in Dafny

Drag-n-Go (拖拽即走) is a Chrome extension. In a web page you drag a text
selection, an image or a link and release it, and a new tab opens: a search
for the text, or the image or the link itself. This project models four of
its scripts and proves properties of them:

- **The content script** (`content.js`, module `ContentScript` with the
  value-level modules `Gesture`, `GestureProperties`, `GestureScenarios`,
  `DragContent`, `Preview`, `Actions`, `Security`, `SiteFilter`).
  - The gesture: the `DragToGo` mouse, key, click and scroll handlers, and
    `resetDragState`.
  - The timers the handlers arm: clear `hasActuallyDragged` after 50 ms,
    stop blocking clicks after 500 ms, end the Escape block after 300 ms,
    and give back an element's `onclick` after 200 ms.
  - The global click blocker, and `temporarilyDisableClickHandlers`.
  - What a drag carries (`prepareDragContent`, `isMouseInSelectedText`).
  - What its release does: `getSearchUrl` with `encodeURIComponent`, the
    `SecurityManager` URL check, `openUrl`, `processDragAction` and
    `safeSendMessage` with its `window.open` fallback.
  - The site blacklist: `compileBlacklistRegexps`, `isBlacklisted`, the
    30-second settings cache, `init`, and `handleRouteChange` on
    single-page navigation.
  - The preview bookkeeping of `UIManager`.
- **The shared utilities** (`utils.js`, module `Utils`): the
  `SettingsManager` cache with its loading flag, `Logger`'s warning
  throttle, and `safeExtensionCall`.
- **The popup** (`popup.js`, module `Popup`): whether the active tab is
  blacklisted, the status it shows, and the button that adds the site to the
  blacklist or removes it.
- **The options page** (`options.js`, module `Options`): parsing the
  blacklist textarea, the default list, loading, saving and resetting.

Supporting modules: `Wrappers` (Option), `Strings` (JavaScript's `trim`,
`split`, `join`, `toLowerCase`, `includes`), `Glob` (the blacklist pattern
language), and `UriEncoding` (`encodeURIComponent`).

How the model is built:

- **Value functions with a class beside them.** The content script's
  handlers are functions on a `Gesture.State` value. The class
  `ContentScript.DragToGo` holds the same fields and updates them in place.
  Each of its methods is proved to leave exactly the state the
  corresponding function computes. The constructor, `AdvanceClock`,
  `DeliverEvent`, `Init` and `Navigate` also keep the invariant `Valid()`;
  for the single handlers and timers the `GestureProperties` lemmas state
  which of them keep it (`ScheduleValid` excludes the Escape timer, whose
  flags `HandleKeyDown` raises with it).
- **The event loop as a queue.** Timers are a queue sorted by due time.
  `RunDueTimers` runs the callbacks that are due in a `while` loop, and
  `AdvanceClock` moves the clock forward.
- **Blacklist patterns.** A pattern is read the way both scripts read it:
  each `*` becomes `.*` and the result is given to `new RegExp`. The
  content script matches case-insensitively and the popup case-sensitively.
  `Glob` gives this pattern language its meaning as unanchored regular
  expression search over `.` and `.*`.
- **Browser answers are inputs.** Things the browser reports are
  parameters: what storage answers, whether the extension context is still
  valid, what `new URL` parses, whether the user confirmed, and the time.

Two behaviours of the code that are easy to miss:

- **Preview updates while a frame is pending.** `updateDragPreviewPosition`
  drops a new position while an animation frame is pending; it does not
  overwrite the pending one. `Preview.UpdatesCoalesce` proves that the
  first position after a frame wins.
- **The popup's status line.** `updateStatus` ignores its text argument, so
  the popup never shows "已在黑名单中" or "特殊页面". It only shows enabled or
  disabled (`Popup.RenderedText`).

## Model

| member | source | states |
|---|---|---|
| Strings.TrimStartShape | options.js:58 | `TrimStart` leaves a suffix of the input; what it dropped is all whitespace; the suffix does not start with whitespace |
| Strings.TrimStart | options.js:58 | the leading whitespace `trim` drops, by recursion on the first character; its shape is the contract of `TrimStartShape` |
| Strings.TrimEnd | options.js:58 | the trailing whitespace `trim` drops, by recursion on the last character; its shape is the contract of `TrimEndShape` |
| Strings.TrimEndShape | options.js:58 | `TrimEnd` leaves a prefix of the input; what it dropped is all whitespace; the prefix does not end with whitespace |
| Strings.Trim | options.js:58-60 | the result is trimmed and lies inside the input; it is empty exactly when the input is all whitespace |
| Strings.TrimOfTrimmed | options.js:60 | trimming a trimmed string changes nothing |
| Strings.Contains | utils.js:284-286 | `includes`: true exactly when the substring occurs at some offset |
| Strings.LowerChar | content.js:378-413 | `toLowerCase` on one character: ASCII capitals become lower case, everything else is kept |
| Strings.Lower | content.js:378-413 | `toLowerCase` keeps the length and lowers each character |
| Strings.Split | options.js:60 | `split` gives at least one piece, and no piece holds the separator |
| Strings.SplitNoSep | options.js:60 | a string without the separator splits into itself alone |
| Strings.SplitAppend | options.js:60 | a separator after a separator-free piece splits that piece off first |
| Strings.SplitJoin | options.js:50 | splitting the join of separator-free pieces gives back the pieces |
| Strings.JoinSplit | options.js:50 | joining the pieces of a split gives back the string |
| Strings.Join | options.js:50 | `join`: the pieces with one separator between neighbours; `SplitJoin` and `JoinSplit` make it the inverse of `Split` |
| Glob.PrefixMatchSound | content.js:653-666 | a prefix match means the pattern fully matches some prefix of the text |
| Glob.PrefixMatchComplete | content.js:653-666 | a full match of some prefix is found as a prefix match |
| Glob.Search | content.js:671-690 | `RegExp.test`: a prefix match tried at every start position from left to right; `SearchIsOccurs` gives its meaning |
| Glob.SearchIsOccurs | content.js:671-690 | `RegExp.test` as implemented holds exactly when the pattern matches some substring of the text |
| Glob.AnyPatternHits | content.js:671-690 | `some`: true exactly when some pattern matches the URL or the hostname; false for an empty list |
| UriEncoding.HexDigit | content.js:1424 | a hexadecimal digit is an unreserved character |
| UriEncoding.Utf8 | content.js:1424 | a character encodes to 1 to 4 octets below 256; exactly the ASCII characters encode to themselves |
| UriEncoding.PercentEscape | content.js:1424 | each octet becomes three characters, and a non-empty escape starts with `%` |
| UriEncoding.EscapedConcat | content.js:1424 | two texts of unreserved characters and `%` join into another |
| UriEncoding.PercentEscapeAlphabet | content.js:1424 | a percent escape holds only unreserved characters and `%` |
| UriEncoding.EncodeChar | content.js:1424 | an unreserved character is kept; any other becomes 3 to 12 characters starting with `%` |
| UriEncoding.EncodeComponent | content.js:1424 | the output is no shorter than the input |
| UriEncoding.EncodeAlphabet | content.js:1424 | the output of `encodeURIComponent` holds only unreserved characters and `%` |
| UriEncoding.EncodeAsciiEscaped | content.js:1424 | a reserved ASCII character becomes `%` and its two hexadecimal digits |
| UriEncoding.DecodeEscape | content.js:1424 | decoding `%` and the two digits of an ASCII code gives that character, and decoding goes on after it |
| UriEncoding.DecodeEncodeChar | content.js:1424 | decoding the encoding of one ASCII character gives it back, and decoding goes on after it |
| UriEncoding.HexValue | content.js:1424 | the inverse of `HexDigit` on the sixteen digits |
| UriEncoding.DecodeEncodeAscii | content.js:1424 | decoding the encoding of an ASCII string gives the string back |
| UriEncoding.EncodeConcat | content.js:1424 | the encoding of a concatenation is the concatenation of the encodings |
| UriEncoding.EncodeUnreserved | content.js:1424 | a string of unreserved characters encodes to itself |
| UriEncoding.EncodeSpacedText | content.js:1424 | text of unreserved characters and spaces encodes with each space written as `%20` and nothing else changed |
| Security.IsPrivateIP | content.js:418-427 | true exactly when the hostname starts with one of the private prefixes (10., 192.168., 172.16. to 172.31., 169.254.) |
| Security.IsUrlSafe | content.js:378-413 | safe exactly when the URL parses, its lower-cased protocol is http, https, ftp or ftps, and its lower-cased host is neither local nor private; a dangerous protocol is never safe |
| Security.PublicFirstOctet | content.js:418-427 | a hostname not starting with `10.`, `172.`, `192.` or `169.` is never private |
| Security.Second172Octet | content.js:418-427 | after `172.`, a two-digit second octet makes the address private exactly when it lies from 16 to 31 |
| DragContent.LinkOf | content.js:1187-1250 | an anchor is its own link; any other element gives its enclosing anchor |
| DragContent.Shorten | content.js:1187-1250 | a text of at most n characters is kept; a longer one becomes its first n characters and "..." |
| DragContent.IsMouseInSelectedText | content.js:1151-1182 | true exactly when the selection is not blank, has a range, and one of its rectangles holds the point |
| DragContent.AnyRectContains | content.js:1170-1177 | the loop over the rectangles answers true exactly when one of them holds the point |
| DragContent.LinkDisplay | content.js:1187-1250 | a link shows its trimmed text, shortened, or its href when that text is blank |
| DragContent.PrepareDragContent | content.js:1187-1250 | text, image and link content each arise exactly under their own rule, in that priority, carrying the selection, the image source or the link's href |
| DragContent.NoContentIffNoRule | content.js:1187-1250 | there is no content exactly when no rule applies |
| DragContent.TextPreviewIsPrefix | content.js:1187-1250 | the text preview is the full text, or its first 50 characters and "..." |
| DragContent.TooltipText | content.js:984-1003 | the tooltip shows the search of the selection, or the image or link hint, and is empty exactly when none applies |
| DragContent.TooltipCanDisagree | content.js:984-1003 | dragging a link with a selection outside it, the tooltip offers a search while the drag carries the link |
| Preview.UpdatePosition | content.js:317-334 | without a preview, or with a frame pending, nothing changes; otherwise a frame is requested for the point |
| Preview.RunFrame | content.js:323-333 | the pending frame moves the preview to its point and clears the pending state |
| Preview.RemovePreview | content.js:339-350 | no preview, no pending frame or position remain; the tooltip is kept |
| Preview.AttachPreview | content.js:1255-1273 | a preview is attached, not yet positioned |
| Preview.ShowTooltip | content.js:280-297 | an empty text changes nothing; otherwise only the tooltip changes |
| Preview.HideTooltip | content.js:302-312 | only the tooltip is cleared |
| Preview.UpdatesCoalesce | content.js:317-334 | of a burst of moves before a frame runs, the first position is the one drawn |
| Preview.UpdateAllFrom | content.js:317-334 | while a frame is pending, every further update is dropped |
| Preview.UIManager.constructor | content.js:63-69 | a new manager shows nothing |
| Preview.UIManager.UpdateDragPreviewPosition | content.js:317-334 | the manager's new state is `UpdatePosition` of the old one |
| Preview.UIManager.RunAnimationFrame | content.js:323-333 | the manager's new state is `RunFrame` of the old one |
| Preview.UIManager.RemoveDragPreview | content.js:339-350 | the manager's new state is `RemovePreview` of the old one |
| Preview.UIManager.AttachDragPreview | content.js:1255-1273 | the manager's new state is `AttachPreview` of the old one |
| Preview.UIManager.ShowTooltipText | content.js:280-297 | the manager's new state is `ShowTooltip` of the old one |
| Preview.UIManager.HideTooltipText | content.js:302-312 | the manager's new state is `HideTooltip` of the old one |
| Gesture.InsertAt | content.js:1505-1507 | the position of a new timer lies in the queue, before the first timer due later |
| Gesture.InsertAtAfter | content.js:1505-1507 | every timer before the new one is due no later |
| Gesture.InsertMembers | content.js:1505-1507 | the new queue holds exactly the old timers and the new one |
| Gesture.SortedTail | content.js:1505-1507 | the timers after the first one are still in order |
| Gesture.NoneDue | content.js:1505-1507 | when the first timer is not due, no timer is |
| Gesture.Insert | content.js:1505-1507 | scheduling adds exactly one timer and keeps the queue sorted |
| Gesture.InsertShape | content.js:1505-1507 | the new queue is the old one with the timer inserted, and holds exactly the old timers and the new one |
| Gesture.InsertMultiset | content.js:1505-1507 | scheduling a timer adds exactly that timer to the queue's multiset and removes none |
| Gesture.Initial | content.js:431-468 | the constructor's state: not dragging, no content, no timers, no listeners, no flags |
| Gesture.ScheduleShape | content.js:1505-1507 | `setTimeout` adds exactly one timer, due the delay after the clock, keeps the queue in firing order, and changes nothing else |
| Gesture.Fire | content.js:748-752 | each callback changes only its own fields; the onclick restore only happens when neither Escape flag is up |
| Gesture.RunDue | content.js:1505-1507 | the due timers run and are removed from the front; no timer due by then remains |
| Gesture.Advance | content.js:1505-1507 | the clock reaches the time and no timer due by then remains |
| Gesture.ResetDragState | content.js:1487-1508 | drag fields cleared, preview and tooltip removed, the 50 ms timer armed, everything else kept |
| Gesture.SquaredDistance | content.js:952-972 | the squared distance is never negative; `BeyondIsRootTest` ties the threshold test on it to the source's square root |
| Gesture.BeyondIsRootTest | content.js:952-972 | for the non-negative square root of the squared distance, `> 5` holds exactly when the squared test `> 25` does |
| Gesture.HandleMouseDown | content.js:934-947 | buttons other than the left one are ignored; the left one records the content, the position and the selection and clears `ignoreNextMouseUp` |
| Gesture.StartDragging | content.js:1255-1273 | with content a preview is attached; without it nothing changes |
| Gesture.HandleMouseMove | content.js:952-972 | the drag starts exactly once the pointer is more than 5 pixels away, and `hasActuallyDragged` is raised exactly then or kept |
| Gesture.HandleMouseUp | content.js:1012-1037 | after Escape or `ignoreNextMouseUp` the state is reset with clicks blocked for 500 ms; otherwise an action is dispatched, and the event stopped, exactly for a drag that moved and has content |
| Gesture.EscRaised | content.js:1063-1085 | Escape raises the three flags and the temporary blocker, and arms the 300 ms timer |
| Gesture.HandleKeyDown | content.js:1063-1085 | only Escape during a drag does anything: it raises the Escape block and resets the drag, and the key is stopped |
| Gesture.ClickBlocked | content.js:1042-1058 | `handleClick` stops the click when `preventAllClicks`, `hasActuallyDragged` or an Escape flag is up; `ClickDeliveredIff` states the delivery rule |
| Gesture.HandleScroll | content.js:1142-1146 | during a drag the preview follows the pointer; otherwise nothing changes |
| Gesture.SuperBlocks | content.js:698-719 | the global blocker stops every mouse event while an Escape flag is up, and a click after a real drag; `EscBlocksMouse` states its effect |
| Gesture.DisableClickHandlers | content.js:738-753 | an element with an `onclick` loses it, and a 200 ms restore is armed; other elements are untouched |
| Gesture.Dispatch | content.js:697-719 | only a mouse-up dispatches an action; without handlers only a click can change anything; the listeners stay as they were |
| Gesture.Install | content.js:473-499 | init binds the handlers, the blocker and the navigation hooks and changes nothing else |
| Gesture.DisablePlugin | content.js:580-585 | the handlers are unbound, the plugin is marked disabled, and the drag is reset |
| Gesture.EnablePlugin | content.js:590-595 | a disabled plugin is re-enabled with its handlers bound; an enabled one is untouched |
| Gesture.EscTimers | content.js:1076-1080 | counts the Escape-block timers, at most one per timer |
| Gesture.EscTimersZero | content.js:1076-1080 | the count is zero exactly when no timer is an Escape-block timer |
| GestureProperties.EscTimersConcat | content.js:1076-1080 | Escape timers of a concatenation add up |
| GestureProperties.EscTimersInsert | content.js:1076-1080 | inserting a timer adds one Escape timer exactly when it is one |
| GestureProperties.RunDueEsc | content.js:1076-1080 | the Escape flags are down after running the due timers exactly when they were down or an Escape timer was due |
| GestureProperties.EscEndDueCons | content.js:1076-1080 | an Escape timer is due when the first one is, or one after it is |
| GestureProperties.InitialValid | content.js:431-499 | the constructor's state and the state after init keep the invariant |
| GestureProperties.ResetTimers | content.js:1487-1508 | `resetDragState` adds no Escape timer and keeps the queue in order |
| GestureProperties.ResetValid | content.js:1487-1508 | `resetDragState` keeps the invariant |
| GestureProperties.ScheduleValid | content.js:1505-1507 | scheduling any timer but the Escape one keeps the invariant |
| GestureProperties.FireValid | content.js:748-752 | running the first timer keeps the invariant |
| GestureProperties.RunDueValid | content.js:1505-1507 | running the due timers keeps the invariant |
| GestureProperties.AdvanceValid | content.js:1505-1507 | advancing the clock keeps the invariant |
| GestureProperties.MouseDownValid | content.js:934-947 | a mouse-down keeps the invariant |
| GestureProperties.MouseMoveValid | content.js:952-972 | a mouse-move keeps the invariant |
| GestureProperties.MouseUpValid | content.js:1012-1037 | a mouse-up keeps the invariant |
| GestureProperties.ClickValid | content.js:1042-1058 | a click keeps the invariant |
| GestureProperties.EscRaisedShape | content.js:1063-1085 | Escape during a drag leaves one Escape timer and the flags all up |
| GestureProperties.EscapeValid | content.js:1063-1085 | Escape during a drag keeps the invariant |
| GestureProperties.KeyDownValid | content.js:1063-1085 | a key press keeps the invariant |
| GestureProperties.DispatchValid | content.js:697-719 | every event keeps the invariant |
| GestureProperties.DispatchKeepsHooks | content.js:697-719 | no event installs or removes the navigation hooks or disables the plugin |
| GestureProperties.PluginToggleValid | content.js:580-595 | disabling and enabling the plugin keep the invariant |
| GestureProperties.EscBlocksMouse | content.js:698-719 | while the Escape block is up, the global blocker swallows mouse-downs, mouse-ups and clicks; mouse events change nothing |
| GestureProperties.ClickDeliveredIff | content.js:1042-1058 | a click reaches the page exactly when no blocking flag is up |
| GestureProperties.MouseUpDispatchIff | content.js:1012-1037 | a plain mouse-up dispatches the drag's content exactly for a drag that moved, and always ends the drag |
| GestureProperties.NoEscTimerWhileDragging | content.js:1063-1085 | no Escape timer is pending during a drag |
| GestureProperties.EscWindow | content.js:1076-1080 | after Escape, clicks stay blocked exactly until 300 ms have passed |
| GestureProperties.EscTimerAfterKey | content.js:1076-1080 | after Escape the only Escape timer is due 300 ms after the key |
| GestureProperties.RunDueKeeps | content.js:1505-1507 | timers change only the flags, `hasActuallyDragged`, the blocker and `onclick`, never the rest |
| GestureProperties.EscThenMouseUpNoAction | content.js:1012-1037 | the release after Escape never dispatches an action, whatever time it comes |
| GestureProperties.ThresholdOnce | content.js:952-972 | over any run of moves the drag starts at most once, and `hasActuallyDragged` matches it |
| GestureProperties.StaysDragging | content.js:952-972 | once a drag has started, further moves keep it going |
| GestureScenarios.Pending | content.js:1505-1507 | the pending timers are a suffix of the queue |
| GestureScenarios.RunDueTimers | content.js:1505-1507 | the timers left after running are the pending ones, whatever the callbacks do |
| GestureScenarios.PendingKeepsLater | content.js:1505-1507 | a timer due later stays pending |
| GestureScenarios.PendingFrom | content.js:1505-1507 | every pending timer was in the queue |
| GestureScenarios.RunDueKeepsLost | content.js:748-752 | while every restore is followed by an Escape timer, an element that lost its `onclick` stays without it |
| GestureScenarios.RunDueActuallyDragged | content.js:1505-1507 | `hasActuallyDragged` is down after the due timers exactly when it was down or a clearing timer was due |
| GestureScenarios.ClearDueCons | content.js:1505-1507 | a clearing timer is due when the first one is, or one after it is |
| GestureScenarios.TimersAfterKey | content.js:1063-1085 | after Escape the queue holds the old timers and the two new ones only |
| GestureScenarios.GuardedInsert | content.js:738-753 | a restore armed before the Escape timer's due time is guarded |
| GestureScenarios.ClickDuringEscWindow | content.js:698-719 | a click early in the Escape window takes the element's `onclick` away, and the restore comes while the block is still up |
| GestureScenarios.TimerAfterEarlyEsc | content.js:1076-1080 | less than 100 ms after Escape no restore is pending and the Escape timer is more than 200 ms away |
| GestureScenarios.EarlyAfterEsc | content.js:1076-1080 | at that moment the flags are still up |
| GestureScenarios.OnclickLostAfterEarlyClick | content.js:738-753 | an element clicked less than 100 ms after Escape never gets its `onclick` back |
| GestureScenarios.SoonAfterReset | content.js:1505-1507 | less than 50 ms after a reset the clearing timer is pending and nothing blocks a new drag |
| GestureScenarios.StalePending | content.js:1505-1507 | the timer a reset sets is still pending at any earlier time |
| GestureScenarios.DownThenMove | content.js:934-972 | a mouse-down on content and a move past the threshold start a drag that has moved |
| GestureScenarios.ReleaseAfterClear | content.js:1012-1037 | once a clearing timer has come due, the release of a drag that moved dispatches nothing |
| GestureScenarios.StaleTimerDropsQuickRedrag | content.js:1505-1507 | a new drag started less than 50 ms after a reset, and released after the old timer fires, opens nothing |
| GestureScenarios.ResetTwice | content.js:1487-1508 | a second reset adds one more timer and changes nothing else |
| Actions.EngineBase | content.js:1426-1436 | bing, baidu and duckduckgo have their own URLs; every other engine is Google |
| Actions.SearchUrl | content.js:1423-1437 | what follows the engine's URL holds only unreserved characters and `%` |
| Actions.SearchUrlRecoversText | content.js:1423-1437 | for ASCII text, decoding what follows the engine's URL gives the text back |
| Actions.SearchUrlInjective | content.js:1423-1437 | two different ASCII texts give different search URLs |
| Actions.SearchUrlOfSpacedText | content.js:1423-1437 | for any engine, a text of unreserved characters and spaces gives the engine's URL followed by the text with each space written as `%20` |
| Actions.OpenRequest | content.js:1443-1452 | a URL is sent exactly when it is non-empty and safe |
| Actions.DragRequest | content.js:1300-1355 | text opens its search and images and links open their own URL, each only when non-blank (and safe, for URLs); no content opens nothing |
| Actions.OpenedUrlsAreSafe | content.js:1443-1452 | every image or link URL that is opened passed the safety check |
| Actions.Fallback | content.js:1362-1374 | without a URL the fallback rejects with its message; with one it succeeds exactly when `window.open` does |
| Actions.FailureMessage | content.js:1376-1400 | the message of the error caught after an unsuccessful call: the rejection's own; for no reply, the `TypeError` of reading `success` from `undefined`; otherwise the reply's `error`, or "未知错误" when that is empty |
| Actions.SafeSendMessage | content.js:1361-1402 | the message is sent exactly when the direct call succeeds or the fallback opens the URL; the window opens at most twice, and twice exactly when a context error failed the first fallback |
| Utils.Overlay | utils.js:38-115 | stored values override the defaults, key by key |
| Utils.Requested | utils.js:38-115 | the cached values of the requested keys, and no other |
| Utils.CachedResult | utils.js:38-115 | the defaults, overridden by the cached values of the requested keys |
| Utils.SettingsManager.constructor | utils.js:11-14 | no cache, timestamp 0, not loading |
| Utils.SettingsManager.IsCacheValid | utils.js:19-22 | a cache exists and was stamped less than 30 s ago; `SaveThenLoad` states what a load inside that window answers |
| Utils.SettingsManager.ClearCache | utils.js:27-30 | the cache is dropped and its timestamp reset |
| Utils.SettingsManager.BeginLoad | utils.js:38-71 | a valid cache answers at once, a load in flight makes the caller wait, otherwise a fetch starts with the loading flag up |
| Utils.SettingsManager.ResumeAfterWait | utils.js:51-71 | after waiting, a valid cache answers; otherwise the waiter fetches itself |
| Utils.SettingsManager.CompleteFetch | utils.js:71-115 | a fetched answer is cached with its time and overlays the defaults; a failed one leaves the defaults; the loading flag ends down |
| Utils.SettingsManager.LoadSettings | utils.js:38-115 | the cache answers while valid; otherwise the fetch result, cached, or the defaults on failure |
| Utils.SettingsManager.SaveSettings | utils.js:122-156 | succeeds exactly when storage does, and then merges the saved values into the cache |
| Utils.CacheRoundTrip | utils.js:38-156 | a load from the cache after a save gives the saved values for the saved keys |
| Utils.SaveThenLoad | utils.js:38-156 | a load within 30 s of a save returns the saved values |
| Utils.OverlappingLoads | utils.js:38-115 | the second of two overlapping loads reads the first one's result from the cache |
| Utils.Logger.constructor | utils.js:164-166 | no warning has been shown |
| Utils.Logger.ShouldShowWarning | utils.js:178-188 | a warning shows exactly when it was never shown or last shown more than 10 s ago, and the time is then recorded |
| Utils.WarningDue | utils.js:178-188 | a warning is due when never shown, or last shown more than 10 s ago; `ThrottleWindowHolds` states the window |
| Utils.ThrottleWindowHolds | utils.js:178-188 | after a warning shows, it is suppressed exactly for the next 10 s |
| Utils.IsContextError | utils.js:284-286 | the three messages that mean the context or the port is gone; `SafeExtensionCall` runs the fallback exactly for them |
| Utils.SafeExtensionCall | utils.js:275-298 | the API is called exactly when the context is valid; the fallback runs exactly for a context error and then gives the result; any other error is passed on |
| SiteFilter.Compiled | content.js:653-666 | one expression per pattern, compiled for the current location; nothing else changes |
| SiteFilter.ShouldReload | content.js:600-605 | reload when no settings were cached or they are more than 30 s old; `LoadLeavesCacheFresh` states that a load clears it |
| SiteFilter.EngineSetting | content.js:629-643 | the engine is the loaded string, or Google when there is none |
| SiteFilter.AfterLoad | content.js:610-648 | the answer is cached with its time; a list blacklist is taken with its engine, anything else gives no blacklist and Google; the list is compiled |
| SiteFilter.LoadSettings | content.js:610-648 | a load in flight or a fresh cache changes nothing; otherwise the load is taken |
| SiteFilter.LoadLeavesCacheFresh | content.js:600-605 | after a load the cache needs no reload at that moment |
| SiteFilter.LoadTwice | content.js:600-648 | a second load at the same moment changes nothing |
| SiteFilter.CheckBlacklist | content.js:671-690 | recompiles only when the location moved, and answers whether some compiled pattern matches the URL or the host (`Glob.AnyPatternHits`, whose contract is the existential) |
| SiteFilter.CompiledAnswers | content.js:671-690 | with the patterns compiled, the answer is the blacklist's own |
| SiteFilter.RouteChange | content.js:549-575 | a navigation to the location already handled changes nothing |
| SiteFilter.Init | content.js:473-499 | init changes only the listeners, installing all of them or none, and compiles for the location; `InitBindsIff` states when it binds |
| SiteFilter.RouteChangeBindsIff | content.js:549-595 | after a navigation to a new location the handlers are bound exactly when the page is not blacklisted |
| SiteFilter.InitBindsIff | content.js:473-499 | after init the handlers and the hooks are bound exactly when the page is not blacklisted |
| SiteFilter.NavigateValid | content.js:504-575 | a navigation keeps the gesture invariant and the binding rule |
| SiteFilter.Navigate | content.js:504-575 | without the hooks nothing happens; a navigation never installs or removes the hooks or the global blocker, and leaves the page's `onclick` handlers and the clock |
| SiteFilter.BlacklistedAtStartStaysOff | content.js:473-499 | a page blacklisted when the script starts never gets the extension, whatever routes follow |
| SiteFilter.NavigateAllBound | content.js:504-575 | with the hooks installed, the binding rule survives any run of navigations |
| ContentScript.DragToGo.constructor | content.js:431-468 | the fields as the constructor sets them, on the given page; the invariant holds |
| ContentScript.DragToGo.SetTimeout | content.js:1505-1507 | the state becomes `Gesture.Schedule` of the old one |
| ContentScript.DragToGo.ResetDragState | content.js:1487-1508 | the state becomes `Gesture.ResetDragState` of the old one |
| ContentScript.DragToGo.HandleMouseDown | content.js:934-947 | the state becomes `Gesture.HandleMouseDown` of the old one |
| ContentScript.DragToGo.StartDragging | content.js:1255-1273 | the state becomes `Gesture.StartDragging` of the old one |
| ContentScript.DragToGo.HandleMouseMove | content.js:952-972 | the state becomes `Gesture.HandleMouseMove` of the old one |
| ContentScript.DragToGo.HandleMouseUp | content.js:1012-1037 | the state, the stop and the dispatched content are `Gesture.HandleMouseUp`'s |
| ContentScript.DragToGo.HandleClick | content.js:1042-1058 | the click is stopped exactly when a blocking flag is up |
| ContentScript.DragToGo.HandleKeyDown | content.js:1063-1085 | the state and the stop are `Gesture.HandleKeyDown`'s |
| ContentScript.DragToGo.HandleScroll | content.js:1142-1146 | the state becomes `Gesture.HandleScroll` of the old one |
| ContentScript.DragToGo.TemporarilyDisableClickHandlers | content.js:738-753 | the state becomes `Gesture.DisableClickHandlers` of the old one |
| ContentScript.DragToGo.SuperBlocker | content.js:698-719 | the event is stopped exactly as `Gesture.SuperBlocks` says; a blocked click also takes the target's `onclick` away |
| ContentScript.DragToGo.RunTask | content.js:748-752 | the state becomes `Gesture.Fire` of the old one |
| ContentScript.DragToGo.RunDueTimers | content.js:1505-1507 | the loop leaves the state `Gesture.RunDue` computes |
| ContentScript.DragToGo.SetClock | content.js:1505-1507 | only the clock changes |
| ContentScript.DragToGo.AdvanceClock | content.js:1505-1507 | the state becomes `Gesture.Advance` of the old one, and the invariant is kept |
| ContentScript.DragToGo.DeliverEvent | content.js:18-40 | the state, the delivery and the dispatch are `Gesture.Dispatch`'s, and the invariant is kept |
| ContentScript.DragToGo.DeliverMouseDown | content.js:698-719 | a mouse-down's state and delivery are `Gesture.Dispatch`'s |
| ContentScript.DragToGo.DeliverMouseUp | content.js:698-719 | a mouse-up's state, delivery and dispatch are `Gesture.Dispatch`'s |
| ContentScript.DragToGo.DeliverClick | content.js:698-719 | a click's state and delivery are `Gesture.Dispatch`'s |
| ContentScript.DragToGo.CompileBlacklistRegexps | content.js:653-666 | the settings fields become `SiteFilter.Compiled` of the old ones |
| ContentScript.DragToGo.ShouldReloadSettings | content.js:600-605 | reload when there is no cache or it is more than 30 s old |
| ContentScript.DragToGo.LoadSettings | content.js:610-648 | the settings fields become `SiteFilter.LoadSettings` of the old ones |
| ContentScript.DragToGo.IsBlacklisted | content.js:671-690 | the fields and the answer are `SiteFilter.CheckBlacklist`'s |
| ContentScript.DragToGo.DisablePlugin | content.js:580-585 | the state becomes `Gesture.DisablePlugin` of the old one |
| ContentScript.DragToGo.EnablePlugin | content.js:590-595 | the state becomes `Gesture.EnablePlugin` of the old one |
| ContentScript.DragToGo.Init | content.js:473-499 | the state becomes `SiteFilter.Init` of the old one, and the invariant holds after it |
| ContentScript.DragToGo.HandleRouteChange | content.js:549-575 | the state becomes `SiteFilter.RouteChange` of the old one |
| ContentScript.DragToGo.RecheckSite | content.js:559-568 | stale settings are reloaded, fresh ones recompiled, and the answer is `SiteFilter.CheckBlacklist`'s |
| ContentScript.DragToGo.ApplyBlacklisted | content.js:568-574 | a blacklisted page gets `Gesture.DisablePlugin`, any other `Gesture.EnablePlugin` |
| ContentScript.DragToGo.Navigate | content.js:504-575 | the location moves and the state becomes `SiteFilter.Navigate` of the old one; the invariant is kept |
| Popup.IsUrlBlacklisted | popup.js:88-93 | true exactly when some pattern matches the URL or the hostname, case-sensitively; false for an empty list |
| Popup.BlacklistedMeansOccurs | popup.js:88-93 | the same answer in terms of pattern occurrences in the URL or the hostname |
| Popup.WithSite | popup.js:130-142 | adding the site appends its pattern `*.hostname/*` to the list |
| Popup.WithoutSite | popup.js:136-139 | removal keeps exactly the patterns that match neither the URL nor the hostname |
| Popup.WithoutSiteConcat | popup.js:136-139 | removal keeps the order of the list |
| Popup.RemovedNotBlacklisted | popup.js:136-139 | after removal the site is no longer blacklisted |
| Popup.RemoveUnlistedKeeps | popup.js:136-139 | removing a site that is not listed keeps the list |
| Popup.AddedAnswers | popup.js:142 | adding keeps every earlier answer and adds the answer of the new pattern |
| Popup.AtomsPrefix | popup.js:88-93 | literal pattern characters matching the text below them extend a prefix match |
| Popup.SearchFrom | popup.js:88-93 | a match at any offset is found |
| Popup.AddedBlacklisted | popup.js:130-142 | after adding, a URL of the form `…X.host/…` is blacklisted for that host |
| Popup.SpecialIgnoresBlacklist | popup.js:64-68 | a chrome://, chrome-extension:// or edge:// page is special whatever the blacklist |
| Popup.StatusOf | popup.js:55-83 | `checkCurrentSiteStatus`'s decision: no URL, then a URL that does not parse (`None`), then special, listed or allowed; `SpecialIgnoresBlacklist` states its priority |
| Popup.StatusLine | popup.js:98-108 | the status line is decided by `enabled` alone; the button is untouched |
| Popup.RenderedText | popup.js:74-82 | the text reads enabled exactly for an allowed site, and never shows the message handed to it otherwise |
| Popup.RenderedToggle | popup.js:74-82 | the button offers removal exactly for a listed site, addition for an allowed one, and is hidden on a special page |
| Popup.Render | popup.js:57-82 | the display for a status: the status line and the toggle button; `RenderedText` and `RenderedToggle` state what it shows |
| Popup.PopupManager.constructor | popup.js:6-20 | the popup before init: empty blacklist, not blacklisted, nothing stored or reloaded, buttons not bound |
| Popup.PopupManager.LoadSettings | popup.js:47-50 | only the blacklist changes |
| Popup.PopupManager.UpdateStatus | popup.js:98-108 | the display becomes `StatusLine` of the old one, nothing else changes |
| Popup.PopupManager.CheckCurrentSiteStatus | popup.js:55-83 | the display and the blacklisted flag follow `StatusOf`; a URL that does not parse throws and changes nothing |
| Popup.PopupManager.ShowSiteStatus | popup.js:57-82 | the display becomes `Render` of the old one for the status |
| Popup.PopupManager.ToggleCurrentSite | popup.js:123-155 | without a tab, a parse or a save nothing changes; otherwise the new list is stored, the status re-checked and the tab reloaded, and a listed site ends unlisted |
| Popup.PopupManager.CommitBlacklist | popup.js:145-150 | the list is kept and stored, the status shown is `Render` of the new list's, and the tab is reloaded |
| Popup.PopupManager.Init | popup.js:25-30 | the status follows the loaded list, and the buttons are bound exactly when the status check did not throw |
| Options.TrimKeepsOut | options.js:60 | trimming introduces no character |
| Options.Entries | options.js:60 | `map(trim).filter(line => line)`: the trimmed non-empty lines in order; `EntriesTrimmed`, `EntriesAvoid` and `EntriesConcat` state its properties |
| Options.EntriesTrimmed | options.js:60 | at most one entry per line, each non-empty and trimmed |
| Options.EntriesAvoid | options.js:60 | a character in no line is in no entry |
| Options.EntriesConcat | options.js:60 | entries keep the order of their lines |
| Options.ParseBlacklist | options.js:58-61 | blank text gives no list, otherwise the entries of its lines; `ParseBlacklistClean`, `ParseJoin` and `ParseIdempotent` state its properties |
| Options.ParseBlacklistClean | options.js:58-61 | blank text gives no entries; every entry is non-empty, trimmed and on one line |
| Options.JoinEnds | options.js:50 | the join begins with the first piece and ends with the last |
| Options.EntriesOfClean | options.js:60 | clean lines are their own entries |
| Options.ParseJoin | options.js:50-61 | a list of clean entries, shown in the textarea and saved, reads back as the same list |
| Options.ParseIdempotent | options.js:50-61 | parsing what a parse shows gives the same list |
| Options.DefaultBlacklist | options.js:105-116 | the eight default patterns of `getDefaultBlacklist`; `DefaultBlacklistClean` states they are clean |
| Options.DefaultBlacklistText | options.js:93 | the textarea text of the defaults, joined by newlines; `DefaultsRoundTrip` reads it back |
| Options.DefaultBlacklistClean | options.js:105-116 | eight clean default patterns |
| Options.DefaultsRoundTrip | options.js:93 | the textarea of the defaults reads back as the defaults |
| Options.DefaultSettings | options.js:84-87 | the two keys, with the default list and Google |
| Options.SavedSettings | options.js:62-65 | the settings `saveSettings` writes: the parsed textarea and the selected engine |
| Options.OptionsManager.constructor | options.js:6-15 | an empty page sharing the given settings cache |
| Options.OptionsManager.ShowStatus | options.js:121-125 | the message and its class are shown; nothing else changes |
| Options.OptionsManager.HideStatus | options.js:127-129 | the status box is hidden |
| Options.OptionsManager.LoadSettings | options.js:42-52 | the answer holds both keys and is the cached result while the cache is valid, else the fetched values over the defaults, else the defaults, so a failed fetch shows the default list and Google; the form shows the answer as `ShowList` does; nothing is saved |
| Options.OptionsManager.ShowList | options.js:50-51 | a list is shown joined by newlines and a string engine is selected; anything else leaves the field as it was |
| Options.OptionsManager.SaveSettings | options.js:57-70 | the parsed text and the engine are saved; success exactly when storage succeeds; the matching message is shown |
| Options.OptionsManager.ReportSave | options.js:69 | the saved or failed message is shown with its class; the form is untouched |
| Options.OptionsManager.ResetSettings | options.js:82-100 | without confirmation nothing happens; otherwise the defaults are saved, and only on success the form shows them, with the matching message |
| Options.OptionsManager.ShowDefaults | options.js:93-95 | the form shows the given text and Google, with the reset message |

## Left out

- The DOM: elements, styles, the tooltip and message boxes, the preview's markup, and listener registration (`bindEvents`, `unbindEvents`, `EventHelper`). They appear only as the fields that say what is shown or bound.
- The history patching and the 500 ms debounce of `setupSPASupport`, and `initializeWhenReady`. A navigation is delivered to `handleRouteChange` directly.
- `background.js`, which receives the `openTab` message. background.js is not part of this model.
- Concurrency: the `async` functions run to completion one after another. A load in flight is a flag. The wait loop of `SettingsManager.loadSettings`, which polls every 50 ms for at most 20 attempts (about 1 s), is one wait step. Its timing and its attempt limit are not modelled.
- Coordinates: `Point` and `Rect` hold integers, where the browser reports `clientX`, `clientY` and the rectangles of `getClientRects` as doubles. Fractional positions and floating-point rounding in the threshold and the rectangle tests are not modelled.
- DragContent.Shorten: lengths are counted in Unicode code points (Dafny's `char`), where JavaScript's `length` and `substring` count UTF-16 code units. The two differ only for characters outside the Basic Multilingual Plane, which take two units in JavaScript; a cut in the middle of such a pair, which leaves a lone surrogate, cannot be represented. Only the displayed text is affected: the search uses the full text.
- DragContent.LinkDisplay: its 50-character cut goes through `Shorten`, so it counts code points, not UTF-16 units.
- DragContent.TextPreviewIsPrefix: its "first 50 characters" are code points, not UTF-16 units.
- DragContent.TooltipText: `substring(0, 20)` and `length > 20` are taken over code points, not UTF-16 units.
- Parsing by `new URL` and `Date.now()`: each is a parameter, as are the reply of `chrome.runtime.sendMessage`, whether `window.open` throws, storage results, and `confirm`.
- Glob.AnyPatternHits: the blacklist patterns are read as regular expressions over `*` and `.` only. Other metacharacters, and patterns that fail to compile, are not modelled.
- UriEncoding.DecodeEncodeAscii: the round trip of `encodeURIComponent` is proved for ASCII text only. Lone surrogates, which make `encodeURIComponent` throw, are not modelled.
- SiteFilter.EngineSetting: a non-string `searchEngine` is treated as Google, which is what `getSearchUrl` does with it.
- Actions.SafeSendMessage: `window.open` is assumed to behave the same on both fallback attempts.
- `autoSave` and its 1 s debounce, and `openOptionsPage`: each only calls `saveSettings` or a browser API.
- Options.OptionsManager.ResetSettings: its contract does not state that the textarea text parses back to the defaults. `Options.DefaultsRoundTrip` states that separately.
- Options.OptionsManager.ShowStatus: the 3 s timer is not scheduled. `HideStatus` is what it runs.
- Options.OptionsManager.ShowList: the model's field holds whatever string `searchEngine` is, and a value that is not a string leaves it as it was. The page's `<select>` is assigned the value directly: a string that names none of its options (or a non-string whose string form names none) leaves it with no selection, whose value then reads as "".
- `Logger.log`, `warn` and `error`, `setSuppressWarnings`, and `showUserMessage`: they only write to the console or the page.
