/**
 * The toolbar popup: whether the site of the active tab is blacklisted, the
 * status it shows for it, and the button that adds the site to the blacklist
 * or removes it. The popup matches patterns case-sensitively, unlike the
 * content script. The tab query, `new URL(...).hostname`, the storage write
 * and the tab reload are outside calls: their answers are parameters and the
 * reload requests are recorded.
 */
module Popup {
  import opened Wrappers
  import opened Glob

  /** The active tab as `chrome.tabs.query` reports it; `url` is empty when the tab has none. */
  datatype Tab = Tab(id: nat, url: string)

  /**
   * `isUrlBlacklisted(url, hostname)`: some pattern, with `*` read as `.*`
   * and no `i` flag, is found in the URL or in the hostname.
   */
  function IsUrlBlacklisted(blacklist: seq<string>, url: string, hostname: string): (r: bool)
    ensures r <==> exists k :: 0 <= k < |blacklist| && PatternHits(blacklist[k], url, hostname, false)
    ensures blacklist == [] ==> !r
  {
    AnyPatternHits(blacklist, url, hostname, false)
  }

  /** The answer in terms of the pattern language: some pattern has an occurrence in the URL or the hostname. */
  lemma BlacklistedMeansOccurs(blacklist: seq<string>, url: string, hostname: string)
    ensures IsUrlBlacklisted(blacklist, url, hostname) <==>
            exists k :: 0 <= k < |blacklist| && (Occurs(blacklist[k], url, false) || Occurs(blacklist[k], hostname, false))
  {
    forall k | 0 <= k < |blacklist|
      ensures PatternHits(blacklist[k], url, hostname, false) <==>
              Occurs(blacklist[k], url, false) || Occurs(blacklist[k], hostname, false)
    {
      SearchIsOccurs(blacklist[k], url, false);
      SearchIsOccurs(blacklist[k], hostname, false);
    }
  }

  /** The pattern the popup writes for a site: star, dot, the hostname, slash, star. */
  function SitePattern(hostname: string): string {
    "*." + hostname + "/*"
  }

  /** The list `toggleCurrentSite` saves to add the site: the old list with the site's pattern appended. */
  function WithSite(blacklist: seq<string>, hostname: string): (r: seq<string>)
    ensures |r| == |blacklist| + 1 && r[..|blacklist|] == blacklist
    ensures r[|blacklist|] == "*." + hostname + "/*"
  {
    blacklist + [SitePattern(hostname)]
  }

  /** The list `toggleCurrentSite` saves to remove the site: the patterns that match neither the URL nor the hostname. */
  function WithoutSite(blacklist: seq<string>, url: string, hostname: string): (r: seq<string>)
    ensures |r| <= |blacklist|
    ensures forall k :: 0 <= k < |r| ==> !PatternHits(r[k], url, hostname, false)
    ensures forall p :: p in r <==> p in blacklist && !PatternHits(p, url, hostname, false)
    decreases |blacklist|
  {
    if blacklist == [] then []
    else
      var rest := WithoutSite(blacklist[1..], url, hostname);
      assert forall p :: p in blacklist <==> p == blacklist[0] || p in blacklist[1..];
      if PatternHits(blacklist[0], url, hostname, false) then rest else [blacklist[0]] + rest
  }

  /** Removal keeps the order: it works piece by piece. */
  lemma {:induction false} WithoutSiteConcat(a: seq<string>, b: seq<string>, url: string, hostname: string)
    ensures WithoutSite(a + b, url, hostname) == WithoutSite(a, url, hostname) + WithoutSite(b, url, hostname)
    decreases |a|
  {
    if a == [] {
      assert a + b == b;
    } else {
      assert (a + b)[0] == a[0];
      assert (a + b)[1..] == a[1..] + b;
      WithoutSiteConcat(a[1..], b, url, hostname);
    }
  }

  /** After the site is removed, the popup no longer finds it blacklisted. */
  lemma RemovedNotBlacklisted(blacklist: seq<string>, url: string, hostname: string)
    ensures !IsUrlBlacklisted(WithoutSite(blacklist, url, hostname), url, hostname)
  {
  }

  /** Removing a site that is not blacklisted keeps the list as it was. */
  lemma {:induction false} RemoveUnlistedKeeps(blacklist: seq<string>, url: string, hostname: string)
    requires !IsUrlBlacklisted(blacklist, url, hostname)
    ensures WithoutSite(blacklist, url, hostname) == blacklist
    decreases |blacklist|
  {
    if blacklist != [] {
      assert !PatternHits(blacklist[0], url, hostname, false);
      assert forall k :: 0 <= k < |blacklist[1..]| ==> blacklist[1..][k] == blacklist[k + 1];
      RemoveUnlistedKeeps(blacklist[1..], url, hostname);
      assert [blacklist[0]] + blacklist[1..] == blacklist;
    }
  }

  /** Adding the site keeps every earlier answer and adds the answer of the site's pattern. */
  lemma AddedAnswers(blacklist: seq<string>, hostname: string, url: string, host: string)
    ensures IsUrlBlacklisted(WithSite(blacklist, hostname), url, host) <==>
            IsUrlBlacklisted(blacklist, url, host) || PatternHits(SitePattern(hostname), url, host, false)
  {
    var r := WithSite(blacklist, hostname);
    assert forall k :: 0 <= k < |blacklist| ==> r[k] == blacklist[k];
  }

  /** Pattern characters that each match the text character below them, followed by a match of the rest. */
  lemma {:induction false} AtomsPrefix(lit: string, rest: string, s: string, ic: bool)
    requires |lit| <= |s| && '*' !in lit
    requires forall i :: 0 <= i < |lit| ==> AtomMatches(lit[i], s[i], ic)
    requires PrefixMatch(rest, s[|lit|..], ic)
    ensures PrefixMatch(lit + rest, s, ic)
    decreases |lit|
  {
    if lit == [] {
      assert lit + rest == rest;
    } else {
      assert (lit + rest)[0] == lit[0];
      assert (lit + rest)[1..] == lit[1..] + rest;
      assert s[1..][|lit| - 1..] == s[|lit|..];
      AtomsPrefix(lit[1..], rest, s[1..], ic);
    }
  }

  /** A match starting at any offset is found by the search. */
  lemma {:induction false} SearchFrom(p: string, s: string, k: nat, ic: bool)
    requires k <= |s| && PrefixMatch(p, s[k..], ic)
    ensures Search(p, s, ic)
    decreases k
  {
    if k == 0 {
      assert s[0..] == s;
    } else {
      assert s[1..][k - 1..] == s[k..];
      SearchFrom(p, s[1..], k - 1, ic);
    }
  }

  /**
   * Once the site is added, the popup finds it blacklisted on every URL that
   * carries the hostname after some character and before a `/`, such as
   * `https://` + hostname + `/` + path.
   */
  lemma AddedBlacklisted(blacklist: seq<string>, before: string, hostname: string, after: string)
    requires before != [] && !IsLineTerminator(before[|before| - 1]) && '*' !in hostname
    ensures IsUrlBlacklisted(WithSite(blacklist, hostname), before + hostname + "/" + after, hostname)
  {
    var url := before + hostname + "/" + after;
    var k := |before| - 1;
    var s := url[k..];
    var lit := "." + hostname + "/";
    assert s == [before[k]] + hostname + "/" + after;
    forall i | 0 <= i < |lit|
      ensures AtomMatches(lit[i], s[i], false)
    {
      if i > 0 {
        assert lit[i] == s[i];
      }
    }
    assert PrefixMatch("*", s[|lit|..], false);
    AtomsPrefix(lit, "*", s, false);
    assert SitePattern(hostname) == "*" + (lit + "*");
    assert SitePattern(hostname)[1..] == lit + "*";
    SearchFrom(SitePattern(hostname), url, k, false);
    AddedAnswers(blacklist, hostname, url, hostname);
  }

  /** Pages the extension cannot run on. */
  predicate IsSpecialPage(url: string) {
    "chrome://" <= url || "chrome-extension://" <= url || "edge://" <= url
  }

  /** What `checkCurrentSiteStatus` concluded about the active tab. */
  datatype SiteStatus = NoUrl | Special | Listed | Allowed

  /**
   * `checkCurrentSiteStatus`'s decision, given the hostname `new URL` gives
   * the tab's URL (`None` when it throws, which escapes the method).
   */
  function StatusOf(tab: Option<Tab>, hostname: Option<string>, blacklist: seq<string>): Option<SiteStatus> {
    if tab.None? || tab.value.url == [] then Some(NoUrl)
    else if hostname.None? then None
    else if IsSpecialPage(tab.value.url) then Some(Special)
    else if IsUrlBlacklisted(blacklist, tab.value.url, hostname.value) then Some(Listed)
    else Some(Allowed)
  }

  /** A special page gets its status without the blacklist being consulted. */
  lemma SpecialIgnoresBlacklist(tab: Tab, hostname: string, a: seq<string>, b: seq<string>)
    requires tab.url != [] && IsSpecialPage(tab.url)
    ensures StatusOf(Some(tab), Some(hostname), a) == Some(Special) == StatusOf(Some(tab), Some(hostname), b)
  {
  }

  const EnabledIcon: string := "\U{2705}"
  const DisabledIcon: string := "\U{274C}"
  /** "插件已启用", plugin enabled. */
  const EnabledText: string := "\U{63D2}\U{4EF6}\U{5DF2}\U{542F}\U{7528}"
  /** "插件已禁用", plugin disabled. */
  const DisabledText: string := "\U{63D2}\U{4EF6}\U{5DF2}\U{7981}\U{7528}"
  const EnabledItemClass: string := "status-item"
  const DisabledItemClass: string := "status-item disabled"
  /** "从黑名单移除", remove from the blacklist. */
  const RemoveLabel: string := "\U{4ECE}\U{9ED1}\U{540D}\U{5355}\U{79FB}\U{9664}"
  /** "添加到黑名单", add to the blacklist. */
  const AddLabel: string := "\U{6DFB}\U{52A0}\U{5230}\U{9ED1}\U{540D}\U{5355}"
  const RemoveClass: string := "btn btn-secondary remove"
  const AddClass: string := "btn btn-secondary"

  /** The messages `checkCurrentSiteStatus` hands to `updateStatus`, one per outcome. */
  function StatusMessage(st: SiteStatus): string {
    match st
    case NoUrl => "\U{65E0}\U{6CD5}\U{68C0}\U{67E5}\U{72B6}\U{6001}"
    case Special => "\U{7279}\U{6B8A}\U{9875}\U{9762}\U{FF0C}\U{63D2}\U{4EF6}\U{4E0D}\U{53EF}\U{7528}"
    case Listed => "\U{5DF2}\U{5728}\U{9ED1}\U{540D}\U{5355}\U{4E2D}\U{FF0C}\U{63D2}\U{4EF6}\U{5DF2}\U{7981}\U{7528}"
    case Allowed => EnabledText
  }

  /** What the popup shows: the status line, and the toggle button's label, class and visibility. */
  datatype Display = Display(icon: string, text: string, itemClass: string,
                             toggleText: string, toggleClass: string, toggleHidden: bool)

  /** `updateStatus(enabled, statusText)`: the status line, decided by `enabled` alone. */
  function StatusLine(d: Display, enabled: bool, statusText: string): (r: Display)
    ensures r.text == (if enabled then EnabledText else DisabledText)
    ensures r.icon == (if enabled then EnabledIcon else DisabledIcon)
    ensures r.itemClass == (if enabled then EnabledItemClass else DisabledItemClass)
    ensures r.toggleText == d.toggleText && r.toggleClass == d.toggleClass && r.toggleHidden == d.toggleHidden
  {
    if enabled then d.(icon := EnabledIcon, text := EnabledText, itemClass := EnabledItemClass)
    else d.(icon := DisabledIcon, text := DisabledText, itemClass := DisabledItemClass)
  }

  /** The display `checkCurrentSiteStatus` leaves for a status. */
  function Render(d: Display, st: SiteStatus): Display {
    match st
    case NoUrl => StatusLine(d, false, StatusMessage(st))
    case Special => StatusLine(d, false, StatusMessage(st)).(toggleHidden := true)
    case Listed => StatusLine(d, false, StatusMessage(st)).(toggleText := RemoveLabel, toggleClass := RemoveClass)
    case Allowed => StatusLine(d, true, StatusMessage(st)).(toggleText := AddLabel, toggleClass := AddClass)
  }

  /**
   * The status text says enabled exactly for an allowed site, and otherwise
   * the one disabled text: the specific messages are never shown.
   */
  lemma RenderedText(d: Display, st: SiteStatus)
    ensures Render(d, st).text == (if st == Allowed then EnabledText else DisabledText)
    ensures st != Allowed ==> Render(d, st).text != StatusMessage(st)
  {
  }

  /** The button offers removal exactly for a blacklisted site and addition exactly for an allowed one. */
  lemma RenderedToggle(d: Display, st: SiteStatus)
    ensures st == Listed ==> Render(d, st).toggleText == RemoveLabel && Render(d, st).toggleClass == RemoveClass
    ensures st == Allowed ==> Render(d, st).toggleText == AddLabel && Render(d, st).toggleClass == AddClass
    ensures (st == NoUrl || st == Special) ==> Render(d, st).toggleText == d.toggleText
    ensures Render(d, st).toggleHidden <==> d.toggleHidden || st == Special
  {
  }

  /** `PopupManager`, with the elements it writes as string fields. */
  class PopupManager {
    var currentTab: Option<Tab>
    var blacklist: seq<string>
    var isCurrentSiteBlacklisted: bool
    var statusIcon: string
    var statusText: string
    var statusItemClass: string
    var toggleText: string
    var toggleClass: string
    var toggleHidden: bool
    /** The blacklist last written by `chrome.storage.sync.set`, if any. */
    var stored: Option<seq<string>>
    /** The tabs passed to `chrome.tabs.reload`, in order. */
    var reloads: seq<nat>
    /** `bindEvents` has run: the buttons answer clicks. */
    var eventsBound: bool

    /** The elements as a value. */
    ghost function Shown(): Display
      reads this
    {
      Display(statusIcon, statusText, statusItemClass, toggleText, toggleClass, toggleHidden)
    }

    /** The constructor up to `init`, with the answer of the tab query. */
    constructor (tab: Option<Tab>)
      ensures currentTab == tab && blacklist == [] && !isCurrentSiteBlacklisted
      ensures stored == None && reloads == [] && !eventsBound
    {
      currentTab, blacklist, isCurrentSiteBlacklisted := tab, [], false;
      statusIcon, statusText, statusItemClass := "", "", "";
      toggleText, toggleClass, toggleHidden := "", "", false;
      stored, reloads, eventsBound := None, [], false;
    }

    /** `loadSettings`, with `loaded` the blacklist `SettingsManager.loadSettings` answers (default `[]`). */
    method LoadSettings(loaded: seq<string>)
      modifies this
      ensures blacklist == loaded
      ensures currentTab == old(currentTab) && isCurrentSiteBlacklisted == old(isCurrentSiteBlacklisted)
      ensures Shown() == old(Shown()) && stored == old(stored) && reloads == old(reloads)
      ensures eventsBound == old(eventsBound)
    {
      blacklist := loaded;
    }

    /** `updateStatus(enabled, statusText)`: `statusText` is not used. */
    method UpdateStatus(enabled: bool, message: string)
      modifies this
      ensures Shown() == StatusLine(old(Shown()), enabled, message)
      ensures currentTab == old(currentTab) && blacklist == old(blacklist)
      ensures isCurrentSiteBlacklisted == old(isCurrentSiteBlacklisted)
      ensures stored == old(stored) && reloads == old(reloads) && eventsBound == old(eventsBound)
    {
      if enabled {
        statusIcon := EnabledIcon;
        statusText := EnabledText;
        statusItemClass := EnabledItemClass;
      } else {
        statusIcon := DisabledIcon;
        statusText := DisabledText;
        statusItemClass := DisabledItemClass;
      }
    }

    /**
     * `checkCurrentSiteStatus`, with `hostname` what `new URL(url).hostname`
     * gives for the tab's URL; `threw` when that throws, leaving everything as it was.
     */
    method CheckCurrentSiteStatus(hostname: Option<string>) returns (threw: bool)
      modifies this
      ensures var st := StatusOf(old(currentTab), hostname, old(blacklist));
              (threw <==> st.None?)
              && (threw ==> Shown() == old(Shown()))
              && (!threw ==> Shown() == Render(old(Shown()), st.value))
              && (st == Some(Listed) ==> isCurrentSiteBlacklisted)
              && (st == Some(Allowed) ==> !isCurrentSiteBlacklisted)
              && (st != Some(Listed) && st != Some(Allowed) ==> isCurrentSiteBlacklisted == old(isCurrentSiteBlacklisted))
      ensures currentTab == old(currentTab) && blacklist == old(blacklist)
      ensures stored == old(stored) && reloads == old(reloads) && eventsBound == old(eventsBound)
    {
      if currentTab.None? || currentTab.value.url == [] {
        ShowSiteStatus(NoUrl);
        return false;
      }
      var url := currentTab.value.url;
      if hostname.None? {
        return true;
      }
      if IsSpecialPage(url) {
        ShowSiteStatus(Special);
        return false;
      }
      isCurrentSiteBlacklisted := IsUrlBlacklisted(blacklist, url, hostname.value);
      if isCurrentSiteBlacklisted {
        ShowSiteStatus(Listed);
      } else {
        ShowSiteStatus(Allowed);
      }
      return false;
    }

    /** The writes `checkCurrentSiteStatus` makes for a status: `updateStatus`, then the toggle button. */
    method ShowSiteStatus(st: SiteStatus)
      modifies this
      ensures Shown() == Render(old(Shown()), st)
      ensures currentTab == old(currentTab) && blacklist == old(blacklist)
      ensures isCurrentSiteBlacklisted == old(isCurrentSiteBlacklisted)
      ensures stored == old(stored) && reloads == old(reloads) && eventsBound == old(eventsBound)
    {
      UpdateStatus(st == Allowed, StatusMessage(st));
      match st
      case NoUrl =>
      case Special =>
        toggleHidden := true;
      case Listed =>
        toggleText := RemoveLabel;
        toggleClass := RemoveClass;
      case Allowed =>
        toggleText := AddLabel;
        toggleClass := AddClass;
    }

    /**
     * `toggleCurrentSite`, with `hostname` the parse of the tab's URL and
     * `saved` whether `chrome.storage.sync.set` succeeds. Every failure is
     * caught and leaves the popup as it was.
     */
    method ToggleCurrentSite(hostname: Option<string>, saved: bool)
      modifies this
      ensures var tab := old(currentTab);
              var done := tab.Some? && tab.value.url != [] && hostname.Some? && saved;
              (!done ==> blacklist == old(blacklist) && stored == old(stored) && reloads == old(reloads)
                         && Shown() == old(Shown()) && isCurrentSiteBlacklisted == old(isCurrentSiteBlacklisted))
              && (done ==>
                    var updated := if old(isCurrentSiteBlacklisted)
                                   then WithoutSite(old(blacklist), tab.value.url, hostname.value)
                                   else WithSite(old(blacklist), hostname.value);
                    blacklist == updated && stored == Some(updated) && reloads == old(reloads) + [tab.value.id]
                    && Shown() == Render(old(Shown()), StatusOf(tab, hostname, updated).value)
                    && (old(isCurrentSiteBlacklisted) && !IsSpecialPage(tab.value.url) ==> !isCurrentSiteBlacklisted))
      ensures currentTab == old(currentTab) && eventsBound == old(eventsBound)
    {
      if currentTab.None? || currentTab.value.url == [] {
        return;
      }
      if hostname.None? {
        return;
      }
      var url := currentTab.value.url;
      var newBlacklist;
      if isCurrentSiteBlacklisted {
        newBlacklist := WithoutSite(blacklist, url, hostname.value);
        RemovedNotBlacklisted(blacklist, url, hostname.value);
      } else {
        newBlacklist := WithSite(blacklist, hostname.value);
      }
      if !saved {
        return;
      }
      CommitBlacklist(newBlacklist, hostname);
    }

    /** What `toggleCurrentSite` does once the list is saved: keep it, show the new status, reload the tab. */
    method CommitBlacklist(newBlacklist: seq<string>, hostname: Option<string>)
      requires currentTab.Some? && currentTab.value.url != [] && hostname.Some?
      modifies this
      ensures currentTab == old(currentTab) && eventsBound == old(eventsBound)
      ensures var st := StatusOf(currentTab, hostname, newBlacklist);
              st.Some? && Shown() == Render(old(Shown()), st.value)
              && (st == Some(Listed) ==> isCurrentSiteBlacklisted)
              && (st == Some(Allowed) ==> !isCurrentSiteBlacklisted)
              && (st != Some(Listed) && st != Some(Allowed) ==> isCurrentSiteBlacklisted == old(isCurrentSiteBlacklisted))
      ensures blacklist == newBlacklist && stored == Some(newBlacklist) && reloads == old(reloads) + [currentTab.value.id]
    {
      stored := Some(newBlacklist);
      blacklist := newBlacklist;
      var _ := CheckCurrentSiteStatus(hostname);
      reloads := reloads + [currentTab.value.id];
    }

    /**
     * `init` after the tab query: load the blacklist, show the status, bind
     * the buttons. When the tab's URL does not parse, the status check throws
     * and the buttons are never bound.
     */
    method Init(loaded: seq<string>, hostname: Option<string>)
      modifies this
      ensures var st := StatusOf(currentTab, hostname, loaded);
              blacklist == loaded
              && (eventsBound <==> st.Some? || old(eventsBound))
              && (st.Some? ==> Shown() == Render(old(Shown()), st.value))
      ensures currentTab == old(currentTab) && stored == old(stored) && reloads == old(reloads)
    {
      LoadSettings(loaded);
      var threw := CheckCurrentSiteStatus(hostname);
      if threw {
        return;
      }
      eventsBound := true;
    }
  }
}
