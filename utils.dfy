/**
 * The shared helpers of utils.js: the settings cache `SettingsManager`, the
 * warning throttle of `Logger`, and the error classification of
 * `safeExtensionCall`. The clock (`Date.now()`) is a parameter, and every call
 * into `chrome.storage.sync` is replaced by its outcome, supplied by the caller.
 */
module Utils {
  import opened Wrappers
  import opened Strings

  /** A stored setting: the model knows strings and lists of strings. */
  datatype Value = Str(s: string) | StrList(items: seq<string>)

  type Settings = map<string, Value>

  const CacheTimeout: int := 30000
  const ThrottleWindow: int := 10000

  /** `{ ...base, ...over }`: every key of either, the value of `over` where it has one. */
  function Overlay(base: Settings, over: Settings): (r: Settings)
    ensures r.Keys == base.Keys + over.Keys
    ensures forall k :: k in over ==> r[k] == over[k]
    ensures forall k :: k in base && k !in over ==> r[k] == base[k]
  {
    map k | k in base.Keys + over.Keys :: if k in over then over[k] else base[k]
  }

  /** The keys of `cache` that were asked for (`keys.forEach(... hasOwnProperty ...)`). */
  function Requested(cache: Settings, keys: seq<string>): (r: Settings)
    ensures r.Keys == (set k | k in keys) * cache.Keys
    ensures forall k :: k in r ==> r[k] == cache[k]
  {
    map k | k in cache && k in keys :: cache[k]
  }

  /** The answer of a load served from the cache. */
  function CachedResult(cache: Settings, keys: seq<string>, defaults: Settings): (r: Settings)
    ensures r.Keys == defaults.Keys + (set k | k in keys) * cache.Keys
    ensures forall k :: k in keys && k in cache ==> r[k] == cache[k]
    ensures forall k :: k in defaults && !(k in keys && k in cache) ==> r[k] == defaults[k]
  {
    Overlay(defaults, Requested(cache, keys))
  }

  /** What `chrome.storage.sync.get` did, seen from the load. */
  datatype FetchOutcome =
    | ApiMissing                 // `chrome.storage.sync` is not there
    | ContextInvalid             // `chrome.runtime.id` is gone
    | Fetched(result: Settings)  // the promise resolved with `result`
    | FetchThrew(message: string)

  /** What `chrome.storage.sync.set` did, seen from the save. */
  datatype StoreOutcome = StoreApiMissing | StoreContextInvalid | Stored | StoreThrew(message: string)

  /** Where a load stands after its synchronous part. */
  datatype LoadStep =
    | Served(result: Settings)  // answered from a valid cache
    | MustWait                  // another load is in flight; poll for it
    | MustFetch                 // this load owns the fetch now

  /** `SettingsManager`: the static cache fields become the fields of one object. */
  class SettingsManager {
    var cache: Option<Settings>
    var cacheTimestamp: int
    var isLoading: bool

    constructor ()
      ensures cache == None && cacheTimestamp == 0 && !isLoading
    {
      cache, cacheTimestamp, isLoading := None, 0, false;
    }

    /** `isCacheValid`: a cache exists and is younger than 30 s. */
    predicate IsCacheValid(now: int)
      reads this
    {
      cache.Some? && now - cacheTimestamp < CacheTimeout
    }

    /** `clearCache`. */
    method ClearCache()
      modifies this
      ensures cache == None && cacheTimestamp == 0 && isLoading == old(isLoading)
    {
      cache, cacheTimestamp := None, 0;
    }

    /**
     * The part of `loadSettings` that runs before its first `await`: serve from
     * a valid cache, or see that another load is in flight, or claim the fetch.
     */
    method BeginLoad(keys: seq<string>, defaults: Settings, now: int) returns (step: LoadStep)
      modifies this
      ensures old(IsCacheValid(now)) ==> step == Served(CachedResult(old(cache).value, keys, defaults))
      ensures !old(IsCacheValid(now)) && old(isLoading) ==> step == MustWait
      ensures !old(IsCacheValid(now)) && !old(isLoading) ==> step == MustFetch && isLoading
      ensures cache == old(cache) && cacheTimestamp == old(cacheTimestamp)
      ensures step != MustFetch ==> isLoading == old(isLoading)
    {
      if IsCacheValid(now) {
        step := Served(CachedResult(cache.value, keys, defaults));
      } else if isLoading {
        step := MustWait;
      } else {
        isLoading := true;
        step := MustFetch;
      }
    }

    /**
     * The check after the polling loop: reuse what the awaited load cached if it
     * is valid now, and otherwise claim a fetch of our own.
     */
    method ResumeAfterWait(keys: seq<string>, defaults: Settings, now: int) returns (step: LoadStep)
      modifies this
      ensures old(IsCacheValid(now)) ==> step == Served(CachedResult(old(cache).value, keys, defaults)) && isLoading == old(isLoading)
      ensures !old(IsCacheValid(now)) ==> step == MustFetch && isLoading
      ensures cache == old(cache) && cacheTimestamp == old(cacheTimestamp)
    {
      if IsCacheValid(now) {
        step := Served(CachedResult(cache.value, keys, defaults));
      } else {
        isLoading := true;
        step := MustFetch;
      }
    }

    /**
     * The rest of `loadSettings` once the fetch has settled: a successful fetch
     * merges into the cache and stamps it; every failure answers the defaults,
     * never throws and leaves the cache alone; `finally` clears `isLoading`.
     */
    method CompleteFetch(defaults: Settings, now: int, outcome: FetchOutcome) returns (r: Settings)
      modifies this
      ensures !isLoading
      ensures outcome.Fetched? ==>
                cache == Some(Overlay(old(cache).GetOr(map[]), outcome.result))
                && cacheTimestamp == now
                && r == Overlay(defaults, outcome.result)
      ensures !outcome.Fetched? ==>
                cache == old(cache) && cacheTimestamp == old(cacheTimestamp) && r == defaults
    {
      match outcome {
        case Fetched(result) =>
          cache := Some(Overlay(cache.GetOr(map[]), result));
          cacheTimestamp := now;
          r := Overlay(defaults, result);
        case _ =>
          r := defaults;
      }
      isLoading := false;
    }

    /**
     * `loadSettings` run to completion without another call interleaving at its
     * `await`s. A load that finds another in flight goes straight to the
     * post-wait check (the polling time is not modelled).
     */
    method LoadSettings(keys: seq<string>, defaults: Settings, now: int, outcome: FetchOutcome) returns (r: Settings)
      modifies this
      ensures old(IsCacheValid(now)) ==>
                r == CachedResult(old(cache).value, keys, defaults)
                && cache == old(cache) && cacheTimestamp == old(cacheTimestamp) && isLoading == old(isLoading)
      ensures !old(IsCacheValid(now)) ==> !isLoading
      ensures !old(IsCacheValid(now)) && outcome.Fetched? ==>
                cache == Some(Overlay(old(cache).GetOr(map[]), outcome.result))
                && cacheTimestamp == now
                && r == Overlay(defaults, outcome.result)
      ensures !old(IsCacheValid(now)) && !outcome.Fetched? ==>
                cache == old(cache) && cacheTimestamp == old(cacheTimestamp) && r == defaults
    {
      var step := BeginLoad(keys, defaults, now);
      if step == MustWait {
        step := ResumeAfterWait(keys, defaults, now);
      }
      if step.Served? {
        r := step.result;
      } else {
        r := CompleteFetch(defaults, now, outcome);
      }
    }

    /**
     * `saveSettings`: on success the settings are merged into the cache, the
     * cache is stamped and the answer is true; on any failure the answer is
     * false and the cache is untouched. It never throws.
     */
    method SaveSettings(settings: Settings, now: int, outcome: StoreOutcome) returns (ok: bool)
      modifies this
      ensures ok <==> outcome == Stored
      ensures ok ==> cache == Some(Overlay(old(cache).GetOr(map[]), settings)) && cacheTimestamp == now
      ensures !ok ==> cache == old(cache) && cacheTimestamp == old(cacheTimestamp)
      ensures isLoading == old(isLoading)
    {
      if outcome == Stored {
        cache := Some(Overlay(cache.GetOr(map[]), settings));
        cacheTimestamp := now;
        ok := true;
      } else {
        ok := false;
      }
    }
  }

  /**
   * Save-then-load round trip on the values: a load served from the cache that
   * a save merged `saved` into answers `saved[k]` for every requested key of `saved`.
   */
  lemma CacheRoundTrip(old_cache: Settings, saved: Settings, keys: seq<string>, defaults: Settings)
    ensures var r := CachedResult(Overlay(old_cache, saved), keys, defaults);
            forall k :: k in keys && k in saved ==> k in r && r[k] == saved[k]
  {
  }

  /**
   * Save-then-load round trip on the object: after a successful save at `t0`,
   * a load at `t1` less than 30 s later does not fetch and answers `saved[k]`
   * for every requested key `k` of `saved`.
   */
  method SaveThenLoad(m: SettingsManager, saved: Settings, t0: int, t1: int,
                      keys: seq<string>, defaults: Settings, fetch: FetchOutcome)
      returns (r: Settings)
    requires t0 <= t1 < t0 + CacheTimeout
    modifies m
    ensures forall k :: k in keys && k in saved ==> k in r && r[k] == saved[k]
  {
    var ok := m.SaveSettings(saved, t0, Stored);
    r := m.LoadSettings(keys, defaults, t1, fetch);
    CacheRoundTrip(old(m.cache).GetOr(map[]), saved, keys, defaults);
  }

  /**
   * Two loads overlapping at their `await`s cost one fetch: when the first
   * load's fetch succeeds and the second resumes within 30 s, the second is
   * served from the cache and its answer carries the fetched values.
   */
  method OverlappingLoads(m: SettingsManager, keys: seq<string>, defaults: Settings,
                          now: int, later: int, result: Settings)
      returns (first: Settings, second: Settings)
    requires !m.IsCacheValid(now) && !m.isLoading
    requires now <= later < now + CacheTimeout
    modifies m
    ensures first == Overlay(defaults, result)
    ensures forall k :: k in keys && k in result ==> k in second && second[k] == result[k]
  {
    var a := m.BeginLoad(keys, defaults, now);
    var b := m.BeginLoad(keys, defaults, now);
    assert a == MustFetch && b == MustWait;
    first := m.CompleteFetch(defaults, now, Fetched(result));
    var resumed := m.ResumeAfterWait(keys, defaults, later);
    second := resumed.result;
  }

  /** `Logger`: its per-message throttle map. */
  class Logger {
    var warningThrottle: map<string, int>

    constructor ()
      ensures warningThrottle == map[]
    {
      warningThrottle := map[];
    }

    /**
     * `shouldShowWarning`: true on the first sighting of `message` (a recorded
     * time of 0 counts as none, as `!lastShown` does) or once more than 10 s
     * have passed; the time is recorded only when the answer is true.
     */
    method ShouldShowWarning(message: string, now: int) returns (show: bool)
      modifies this
      ensures show <==> WarningDue(old(warningThrottle), message, now)
      ensures warningThrottle == if show then old(warningThrottle)[message := now] else old(warningThrottle)
    {
      show := WarningDue(warningThrottle, message, now);
      if show {
        warningThrottle := warningThrottle[message := now];
      }
    }
  }

  /** The throttle decision on a throttle map. */
  predicate WarningDue(throttle: map<string, int>, message: string, now: int) {
    message !in throttle || throttle[message] == 0 || now - throttle[message] > ThrottleWindow
  }

  /**
   * Within the window after a warning was shown at `shown`, the same warning
   * is held back; strictly after it, it shows again.
   */
  lemma ThrottleWindowHolds(throttle: map<string, int>, message: string, shown: int, now: int)
    requires shown != 0
    ensures !WarningDue(throttle[message := shown], message, now) <==> now - shown <= ThrottleWindow
  {
  }

  /** The three messages that mean the extension's context or port has gone away. */
  predicate IsContextError(message: string) {
    Contains(message, "Extension context invalidated")
    || Contains(message, "message port closed")
    || Contains(message, "receiving end does not exist")
  }

  /** How an asynchronous call settled: resolved with a value or rejected with a message. */
  datatype Attempt<T> = Resolves(value: T) | Rejects(message: string)

  /** What `safeExtensionCall` did and how it settled. */
  datatype CallReport<T> = CallReport(apiCalled: bool, fallbackCalled: bool, outcome: Attempt<T>)

  const ContextInvalidatedMessage: string := "Extension context invalidated"

  /**
   * `safeExtensionCall(apiCall, fallback)`: when the context is gone the API
   * is not called and the failure reads "Extension context invalidated"; a
   * failure whose message names a lost context or port goes to the fallback
   * when one is given; every other failure is rethrown unchanged.
   */
  function SafeExtensionCall<T>(contextValid: bool, call: Attempt<T>, fallback: Option<Attempt<T>>): (r: CallReport<T>)
    ensures r.apiCalled <==> contextValid
    ensures r.fallbackCalled <==>
              fallback.Some? && (!contextValid || (call.Rejects? && IsContextError(call.message)))
    ensures r.fallbackCalled ==> r.outcome == fallback.value
    ensures !r.fallbackCalled && contextValid ==> r.outcome == call
    ensures !r.fallbackCalled && !contextValid ==> r.outcome == Rejects(ContextInvalidatedMessage)
  {
    var failure: Option<string> :=
      if !contextValid then Some(ContextInvalidatedMessage)
      else if call.Rejects? then Some(call.message)
      else None;
    assert IsContextError(ContextInvalidatedMessage) by {
      assert "Extension context invalidated" <= ContextInvalidatedMessage[0..];
    }
    match failure
    case None => CallReport(true, false, call)
    case Some(message) =>
      if IsContextError(message) && fallback.Some? then CallReport(contextValid, true, fallback.value)
      else CallReport(contextValid, false, Rejects(message))
  }
}
