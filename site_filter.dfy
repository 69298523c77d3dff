/**
 * The content script's site filter: the settings it caches, the blacklist it
 * compiles, `isBlacklisted`, and what `init` and a single-page navigation do
 * with the answer. State is a `Config` value (the `DragToGo` fields of that
 * part) next to the gesture's `State`; the page location is an input.
 */
module SiteFilter {
  import opened Wrappers
  import opened Glob
  import opened Utils
  import opened Gesture
  import GestureProperties

  /** The settings fields of `DragToGo`; `blacklistRegexps` holds the patterns compiled (see `Compiled`). */
  datatype Config = Config(
    blacklist: seq<string>,
    searchEngine: string,
    blacklistRegexps: seq<string>,
    currentUrl: string,
    currentHost: string,
    settingsCache: Option<Settings>,
    settingsLastLoaded: int,
    isLoadingSettings: bool)

  const DefaultEngine: string := "google"

  /** The constructor's values. */
  const InitialConfig: Config := Config([], DefaultEngine, [], "", "", None, 0, false)

  /**
   * `compileBlacklistRegexps`: every pattern becomes a case-insensitive
   * expression (`*` read as `.*`), and the location is remembered. In the
   * pattern language of `Glob` no pattern fails to compile, so none is dropped.
   */
  function Compiled(c: Config, href: string, host: string): (r: Config)
    ensures r.blacklistRegexps == c.blacklist && r.currentUrl == href && r.currentHost == host
    ensures r.(blacklistRegexps := c.blacklistRegexps, currentUrl := c.currentUrl, currentHost := c.currentHost) == c
  {
    c.(blacklistRegexps := c.blacklist, currentUrl := href, currentHost := host)
  }

  /** `shouldReloadSettings`: no cache yet, or the cache is more than 30 s old. */
  predicate ShouldReload(c: Config, now: int) {
    c.settingsCache.None? || now - c.settingsLastLoaded > CacheTimeout
  }

  /** The `searchEngine` of loaded settings; anything but a string behaves as Google in `getSearchUrl`. */
  function EngineSetting(loaded: Settings): (r: string)
    ensures r == DefaultEngine || ("searchEngine" in loaded && loaded["searchEngine"] == Str(r))
  {
    if "searchEngine" in loaded && loaded["searchEngine"].Str? then loaded["searchEngine"].s else DefaultEngine
  }

  /** The loaded settings carry a list under `blacklist`. */
  predicate HasBlacklist(loaded: Settings) {
    "blacklist" in loaded && loaded["blacklist"].StrList?
  }

  /**
   * The body of `loadSettings` once `SettingsManager.loadSettings` answered
   * `loaded` at time `now`: the answer is cached; a list under `blacklist` is
   * taken with the engine, and anything else makes compiling throw, so the
   * defaults (no blacklist, Google) are taken instead. Either way the
   * blacklist is compiled for the location.
   */
  function AfterLoad(c: Config, loaded: Settings, now: int, href: string, host: string): (r: Config)
    ensures r.settingsCache == Some(loaded) && r.settingsLastLoaded == now && r.isLoadingSettings == c.isLoadingSettings
    ensures HasBlacklist(loaded) ==> r.blacklist == loaded["blacklist"].items && r.searchEngine == EngineSetting(loaded)
    ensures !HasBlacklist(loaded) ==> r.blacklist == [] && r.searchEngine == DefaultEngine
    ensures r.blacklistRegexps == r.blacklist && r.currentUrl == href && r.currentHost == host
  {
    var c1 := c.(settingsCache := Some(loaded), settingsLastLoaded := now);
    if HasBlacklist(loaded) then
      Compiled(c1.(blacklist := loaded["blacklist"].items, searchEngine := EngineSetting(loaded)), href, host)
    else
      Compiled(c1.(blacklist := [], searchEngine := DefaultEngine), href, host)
  }

  /** `loadSettings`: nothing while a load is in flight or the cache is fresh. */
  function LoadSettings(c: Config, now: int, loaded: Settings, href: string, host: string): (r: Config)
    ensures c.isLoadingSettings || !ShouldReload(c, now) ==> r == c
    ensures !c.isLoadingSettings && ShouldReload(c, now) ==> r == AfterLoad(c, loaded, now, href, host)
  {
    if c.isLoadingSettings || !ShouldReload(c, now) then c else AfterLoad(c, loaded, now, href, host)
  }

  /** A load leaves the cache fresh unless another load was in flight. */
  lemma LoadLeavesCacheFresh(c: Config, now: int, loaded: Settings, href: string, host: string)
    requires !c.isLoadingSettings
    ensures !ShouldReload(LoadSettings(c, now, loaded, href, host), now)
  {
  }

  /** A second load at the same moment changes nothing: the first one left the cache fresh. */
  lemma LoadTwice(c: Config, now: int, a: Settings, b: Settings, href: string, host: string)
    requires !c.isLoadingSettings
    ensures var c1 := LoadSettings(c, now, a, href, host);
            LoadSettings(c1, now, b, href, host) == c1
  {
    LoadLeavesCacheFresh(c, now, a, href, host);
  }

  /**
   * `isBlacklisted`: recompile if the location moved since the last compile,
   * then ask whether some pattern matches the URL or the hostname, ignoring
   * case. The answer comes with the new fields.
   */
  function CheckBlacklist(c: Config, href: string, host: string): (r: (Config, bool))
    ensures r.0.currentUrl == href && r.0.currentHost == host
    ensures r.1 == AnyPatternHits(r.0.blacklistRegexps, href, host, true)
    ensures c.currentUrl != href || c.currentHost != host ==> r.0 == Compiled(c, href, host)
    ensures c.currentUrl == href && c.currentHost == host ==> r.0 == c
  {
    var c1 := if c.currentUrl != href || c.currentHost != host then Compiled(c, href, host) else c;
    (c1, AnyPatternHits(c1.blacklistRegexps, c1.currentUrl, c1.currentHost, true))
  }

  /** The page is blacklisted under the settings in force: some pattern of the blacklist matches it. */
  predicate BlacklistedBy(c: Config, href: string, host: string) {
    AnyPatternHits(c.blacklist, href, host, true)
  }

  /** After a compile for the location, `isBlacklisted` answers for the blacklist itself. */
  lemma CompiledAnswers(c: Config, href: string, host: string)
    requires c.blacklistRegexps == c.blacklist
    ensures CheckBlacklist(c, href, host).1 == BlacklistedBy(c, href, host)
  {
  }

  /**
   * `init` after its settings load: on a blacklisted page it stops; otherwise
   * it binds the handlers, installs the navigation hooks and the global blocker.
   */
  function Init(g: State, c: Config, now: int, loaded: Settings, href: string, host: string): (r: (State, Config))
    ensures r.0.(listeners := g.listeners) == g
    ensures r.0.listeners == g.listeners || r.0 == Install(g)
    ensures r.1.currentUrl == href && r.1.currentHost == host
  {
    var (c2, b) := CheckBlacklist(LoadSettings(c, now, loaded, href, host), href, host);
    if b then (g, c2) else (Install(g), c2)
  }

  /**
   * `handleRouteChange`: nothing if the location is the one last compiled
   * for; otherwise reload stale settings or recompile, then disable the plugin
   * on a blacklisted page and enable it on any other.
   */
  function RouteChange(g: State, c: Config, now: int, loaded: Settings, href: string, host: string): (r: (State, Config))
    ensures c.currentUrl == href && c.currentHost == host ==> r == (g, c)
  {
    if c.currentUrl == href && c.currentHost == host then (g, c)
    else
      var c1 := if ShouldReload(c, now) then LoadSettings(c, now, loaded, href, host) else Compiled(c, href, host);
      var (c2, b) := CheckBlacklist(c1, href, host);
      if b then (DisablePlugin(g), c2) else (EnablePlugin(g), c2)
  }

  /** The handlers are bound exactly while the navigation hooks are installed and the plugin is not disabled. */
  predicate Bound(g: State) {
    g.listeners.handlers <==> g.listeners.routeHooks && !g.flags.pluginDisabled
  }

  /**
   * After a navigation to a new location, the handlers are bound exactly when
   * the page is not blacklisted under the settings then in force, and the
   * plugin's disabled flag says the opposite.
   */
  lemma RouteChangeBindsIff(g: State, c: Config, now: int, loaded: Settings, href: string, host: string)
    requires g.listeners.routeHooks && Bound(g)
    requires c.currentUrl != href || c.currentHost != host
    ensures var r := RouteChange(g, c, now, loaded, href, host);
            (r.0.listeners.handlers <==> !BlacklistedBy(r.1, href, host))
            && Bound(r.0) && r.0.listeners.routeHooks && r.1.currentUrl == href && r.1.currentHost == host
  {
    var c1 := if ShouldReload(c, now) then LoadSettings(c, now, loaded, href, host) else Compiled(c, href, host);
    if c1 == c {
      // a load in flight: `loadSettings` returned at once, and `isBlacklisted` compiles
      CompiledAnswers(Compiled(c, href, host), href, host);
    } else {
      assert c1.blacklistRegexps == c1.blacklist && c1.currentUrl == href && c1.currentHost == host;
      CompiledAnswers(c1, href, host);
    }
  }

  /** `init` leaves the handlers bound exactly when the page is not blacklisted. */
  lemma InitBindsIff(g: State, c: Config, now: int, loaded: Settings, href: string, host: string)
    requires !c.isLoadingSettings && ShouldReload(c, now) && g.listeners == NoListeners
    ensures var r := Init(g, c, now, loaded, href, host);
            (r.0.listeners.handlers <==> !BlacklistedBy(r.1, href, host))
            && (r.0.listeners.routeHooks <==> r.0.listeners.handlers)
  {
    CompiledAnswers(AfterLoad(c, loaded, now, href, host), href, host);
  }

  /** A navigation as the hooks deliver it: `handleRouteChange` runs only where `init` installed them. */
  function Navigate(g: State, c: Config, now: int, loaded: Settings, href: string, host: string): (r: (State, Config))
    ensures !g.listeners.routeHooks ==> r == (g, c)
    ensures r.0.listeners.routeHooks == g.listeners.routeHooks && r.0.listeners.superBlocker == g.listeners.superBlocker
    ensures r.0.onclick == g.onclick && r.0.now == g.now
  {
    if g.listeners.routeHooks then RouteChange(g, c, now, loaded, href, host) else (g, c)
  }

  /** One navigation: the new location, the time, and what a settings load would answer. */
  datatype Visit = Visit(href: string, host: string, now: int, loaded: Settings)

  /** A navigation keeps the gesture invariant and `Bound`. */
  lemma NavigateValid(g: State, c: Config, now: int, loaded: Settings, href: string, host: string)
    requires Gesture.Valid(g) && Bound(g)
    ensures var r := Navigate(g, c, now, loaded, href, host);
            Gesture.Valid(r.0) && Bound(r.0)
  {
    if g.listeners.routeHooks && (c.currentUrl != href || c.currentHost != host) {
      GestureProperties.PluginToggleValid(g);
      RouteChangeBindsIff(g, c, now, loaded, href, host);
    }
  }

  /** The state after a run of navigations. */
  function NavigateAll(g: State, c: Config, vs: seq<Visit>): (State, Config)
    decreases |vs|
  {
    if vs == [] then (g, c)
    else
      var r := Navigate(g, c, vs[0].now, vs[0].loaded, vs[0].href, vs[0].host);
      NavigateAll(r.0, r.1, vs[1..])
  }

  /**
   * A page found blacklisted when the script starts never gets the extension,
   * whatever routes it later moves to: `init` returned before installing the
   * navigation hooks, so no route change is ever handled.
   */
  lemma {:induction false} BlacklistedAtStartStaysOff(g: State, c: Config, vs: seq<Visit>)
    requires !g.listeners.routeHooks && !g.listeners.handlers
    ensures var r := NavigateAll(g, c, vs);
            r.0 == g && !r.0.listeners.handlers
    decreases |vs|
  {
    if vs != [] {
      BlacklistedAtStartStaysOff(g, c, vs[1..]);
    }
  }

  /** With the hooks installed, `Bound` survives every run of navigations. */
  lemma {:induction false} NavigateAllBound(g: State, c: Config, vs: seq<Visit>)
    requires g.listeners.routeHooks && Bound(g)
    ensures var r := NavigateAll(g, c, vs);
            Bound(r.0) && r.0.listeners.routeHooks
    decreases |vs|
  {
    if vs != [] {
      var v := vs[0];
      var r := Navigate(g, c, v.now, v.loaded, v.href, v.host);
      if c.currentUrl != v.href || c.currentHost != v.host {
        RouteChangeBindsIff(g, c, v.now, v.loaded, v.href, v.host);
      }
      NavigateAllBound(r.0, r.1, vs[1..]);
    }
  }
}
