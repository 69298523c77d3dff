/**
 * The options page: the blacklist textarea holds one pattern per line, saving
 * parses it back into a list, and reset writes the default settings. Storage
 * goes through the shared `SettingsManager`; whether a write succeeds, whether
 * the user confirms the reset, and the clock are parameters.
 */
module Options {
  import opened Wrappers
  import opened Strings
  import opened Utils

  /** A character that is absent from `s` is absent from its trim. */
  lemma TrimKeepsOut(s: string, c: char)
    requires c !in s
    ensures c !in Trim(s)
  {
    var r := Trim(s);
    var k :| 0 <= k <= |s| && r <= s[k..];
    forall i | 0 <= i < |r|
      ensures r[i] != c
    {
      assert r[i] == s[k..][i];
    }
  }

  /** `.map(line => line.trim()).filter(line => line)`. */
  function Entries(lines: seq<string>): seq<string>
    decreases |lines|
  {
    if lines == [] then []
    else
      var t := Trim(lines[0]);
      var rest := Entries(lines[1..]);
      if t == [] then rest else [t] + rest
  }

  /** At most one entry per line, each non-empty and trimmed. */
  lemma {:induction false} EntriesTrimmed(lines: seq<string>)
    ensures |Entries(lines)| <= |lines|
    ensures forall k :: 0 <= k < |Entries(lines)| ==> Entries(lines)[k] != [] && IsTrimmed(Entries(lines)[k])
    decreases |lines|
  {
    if lines != [] {
      EntriesTrimmed(lines[1..]);
      if Trim(lines[0]) != [] {
        TrimmedCons(Trim(lines[0]), Entries(lines[1..]));
      }
    }
  }

  /** Adding a non-empty trimmed piece in front of non-empty trimmed pieces. */
  lemma TrimmedCons(t: string, rest: seq<string>)
    requires t != [] && IsTrimmed(t)
    requires forall k :: 0 <= k < |rest| ==> rest[k] != [] && IsTrimmed(rest[k])
    ensures forall k :: 0 <= k < |[t] + rest| ==> ([t] + rest)[k] != [] && IsTrimmed(([t] + rest)[k])
  {
    assert forall k :: 1 <= k < |[t] + rest| ==> ([t] + rest)[k] == rest[k - 1];
  }

  /** A character no line holds is in no entry. */
  lemma {:induction false} EntriesAvoid(lines: seq<string>, c: char)
    requires forall j :: 0 <= j < |lines| ==> c !in lines[j]
    ensures forall k :: 0 <= k < |Entries(lines)| ==> c !in Entries(lines)[k]
    decreases |lines|
  {
    if lines != [] {
      assert forall j :: 0 <= j < |lines[1..]| ==> lines[1..][j] == lines[j + 1];
      EntriesAvoid(lines[1..], c);
      if Trim(lines[0]) != [] {
        TrimKeepsOut(lines[0], c);
        AvoidCons(Trim(lines[0]), Entries(lines[1..]), c);
      }
    }
  }

  /** Adding a piece without `c` in front of pieces without `c`. */
  lemma AvoidCons(t: string, rest: seq<string>, c: char)
    requires c !in t && forall k :: 0 <= k < |rest| ==> c !in rest[k]
    ensures forall k :: 0 <= k < |[t] + rest| ==> c !in ([t] + rest)[k]
  {
    assert forall k :: 1 <= k < |[t] + rest| ==> ([t] + rest)[k] == rest[k - 1];
  }

  /** The entries keep the order of their lines. */
  lemma {:induction false} EntriesConcat(a: seq<string>, b: seq<string>)
    ensures Entries(a + b) == Entries(a) + Entries(b)
    decreases |a|
  {
    if a == [] {
      assert a + b == b;
    } else {
      assert (a + b)[0] == a[0];
      assert (a + b)[1..] == a[1..] + b;
      EntriesConcat(a[1..], b);
    }
  }

  /**
   * The blacklist `saveSettings` reads from the textarea: blank text is the
   * empty list; otherwise the trimmed text is split at newlines, every line
   * trimmed, and the empty ones dropped.
   */
  function ParseBlacklist(text: string): seq<string> {
    var t := Trim(text);
    if t == [] then [] else Entries(Split(t, '\n'))
  }

  /** A list entry the textarea can hold: non-empty, trimmed, on one line. */
  predicate IsCleanEntry(e: string) {
    e != [] && IsTrimmed(e) && '\n' !in e
  }

  /** Blank text gives no entries; every entry the parse gives is clean. */
  lemma ParseBlacklistClean(text: string)
    ensures IsBlank(text) ==> ParseBlacklist(text) == []
    ensures forall k :: 0 <= k < |ParseBlacklist(text)| ==> IsCleanEntry(ParseBlacklist(text)[k])
  {
    var t := Trim(text);
    if t != [] {
      var lines := Split(t, '\n');
      EntriesTrimmed(lines);
      EntriesAvoid(lines, '\n');
    }
  }

  /** The join of a list of non-empty pieces starts with the first piece's first character and ends with the last one's last. */
  lemma {:induction false} JoinEnds(l: seq<string>, sep: char)
    requires l != [] && forall k :: 0 <= k < |l| ==> l[k] != []
    ensures var j := Join(l, sep);
            j != [] && j[0] == l[0][0] && j[|j| - 1] == l[|l| - 1][|l[|l| - 1]| - 1]
    decreases |l|
  {
    if |l| > 1 {
      JoinEnds(l[1..], sep);
    }
  }

  /** Clean lines are their own entries. */
  lemma {:induction false} EntriesOfClean(l: seq<string>)
    requires forall k :: 0 <= k < |l| ==> IsCleanEntry(l[k])
    ensures Entries(l) == l
    decreases |l|
  {
    if l != [] {
      TrimOfTrimmed(l[0]);
      assert forall k :: 0 <= k < |l[1..]| ==> l[1..][k] == l[k + 1];
      EntriesOfClean(l[1..]);
      assert Entries(l) == [l[0]] + Entries(l[1..]);
      assert [l[0]] + l[1..] == l;
    }
  }

  /**
   * Parsing what `loadSettings` writes into the textarea (the list joined
   * with newlines) gives back the list, for every list of clean entries.
   */
  lemma ParseJoin(l: seq<string>)
    requires forall k :: 0 <= k < |l| ==> IsCleanEntry(l[k])
    ensures ParseBlacklist(Join(l, '\n')) == l
  {
    if l != [] {
      var j := Join(l, '\n');
      JoinEnds(l, '\n');
      assert IsTrimmed(j);
      TrimOfTrimmed(j);
      SplitJoin(l, '\n');
      EntriesOfClean(l);
    }
  }

  /** Saving a parse and loading it back shows the same list: the text of a parse is stable. */
  lemma ParseIdempotent(text: string)
    ensures ParseBlacklist(Join(ParseBlacklist(text), '\n')) == ParseBlacklist(text)
  {
    ParseBlacklistClean(text);
    ParseJoin(ParseBlacklist(text));
  }

  /** `getDefaultBlacklist`. */
  function DefaultBlacklist(): seq<string> {
    ["*.trello.com/*", "*.figma.com/*", "*.miro.com/*", "*.draw.io/*",
     "*.canva.com/*", "*.notion.so/*", "*.airtable.com/*", "*.monday.com/*"]
  }

  /** The eight defaults are clean entries, so the textarea can hold them. */
  lemma DefaultBlacklistClean()
    ensures |DefaultBlacklist()| == 8
    ensures forall k :: 0 <= k < |DefaultBlacklist()| ==> IsCleanEntry(DefaultBlacklist()[k])
  {
  }

  /** The textarea text `loadSettings` and `resetSettings` write for the defaults. */
  function DefaultBlacklistText(): string {
    Join(DefaultBlacklist(), '\n')
  }

  /** The textarea text of the defaults reads back as the defaults. */
  lemma DefaultsRoundTrip()
    ensures ParseBlacklist(DefaultBlacklistText()) == DefaultBlacklist()
  {
    DefaultBlacklistClean();
    ParseJoin(DefaultBlacklist());
  }

  const DefaultSearchEngine: string := "google"

  /** The settings `resetSettings` saves and the defaults `loadSettings` asks with. */
  function DefaultSettings(): (r: Settings)
    ensures r.Keys == {"blacklist", "searchEngine"}
    ensures r["blacklist"] == StrList(DefaultBlacklist()) && r["searchEngine"] == Str(DefaultSearchEngine)
  {
    map["blacklist" := StrList(DefaultBlacklist()), "searchEngine" := Str(DefaultSearchEngine)]
  }

  /** The settings `saveSettings` writes for the textarea text and the selected engine. */
  function SavedSettings(text: string, engine: string): Settings {
    map["blacklist" := StrList(ParseBlacklist(text)), "searchEngine" := Str(engine)]
  }

  /** "✅ 设置已保存", settings saved. */
  const SavedMessage: string := "\U{2705} \U{8BBE}\U{7F6E}\U{5DF2}\U{4FDD}\U{5B58}"
  /** "❌ 保存设置失败", saving failed. */
  const SaveFailedMessage: string := "\U{274C} \U{4FDD}\U{5B58}\U{8BBE}\U{7F6E}\U{5931}\U{8D25}"
  /** "🔄 已恢复默认设置", defaults restored. */
  const ResetMessage: string := "\U{1F504} \U{5DF2}\U{6062}\U{590D}\U{9ED8}\U{8BA4}\U{8BBE}\U{7F6E}"
  /** "❌ 重置设置失败", reset failed. */
  const ResetFailedMessage: string := "\U{274C} \U{91CD}\U{7F6E}\U{8BBE}\U{7F6E}\U{5931}\U{8D25}"

  /** `OptionsManager`, with the textarea, the select and the status box as fields. */
  class OptionsManager {
    var blacklistText: string
    var searchEngine: string
    var statusMessage: string
    var statusClass: string
    var statusShown: bool
    /** Every settings object handed to `SettingsManager.saveSettings`, in order. */
    var sent: seq<Settings>
    const settingsManager: SettingsManager

    /** The page before `init`, sharing the cache object `manager`. */
    constructor (manager: SettingsManager)
      ensures settingsManager == manager && sent == [] && !statusShown
      ensures blacklistText == "" && searchEngine == ""
    {
      blacklistText, searchEngine := "", "";
      statusMessage, statusClass, statusShown := "", "", false;
      sent := [];
      settingsManager := manager;
    }

    /** `showStatus(message, type)`; the timer that hides it again is `HideStatus`. */
    method ShowStatus(message: string, kind: string)
      modifies this
      ensures statusMessage == message && statusClass == "status " + kind && statusShown
      ensures blacklistText == old(blacklistText) && searchEngine == old(searchEngine) && sent == old(sent)
    {
      statusMessage := message;
      statusClass := "status " + kind;
      statusShown := true;
    }

    /** The 3 s timer of `showStatus` fires. */
    method HideStatus()
      modifies this
      ensures !statusShown && statusMessage == old(statusMessage) && statusClass == old(statusClass)
      ensures blacklistText == old(blacklistText) && searchEngine == old(searchEngine) && sent == old(sent)
    {
      statusShown := false;
    }

    /**
     * `loadSettings`, with the clock and the storage answer for
     * `SettingsManager.loadSettings`; `settings` is what that load answered.
     * A valid cache answers for itself; otherwise a fetched answer overrides
     * the defaults, and a failed fetch leaves the defaults, so the form shows
     * the default list and Google. A blacklist that is not a list makes the
     * join throw, and the fields stay as they were.
     */
    method LoadSettings(now: int, outcome: FetchOutcome) returns (settings: Settings)
      modifies this, settingsManager
      ensures "blacklist" in settings && "searchEngine" in settings
      ensures old(settingsManager.IsCacheValid(now)) ==>
                settings == CachedResult(old(settingsManager.cache).value, ["blacklist", "searchEngine"], DefaultSettings())
                && settingsManager.cache == old(settingsManager.cache)
      ensures !old(settingsManager.IsCacheValid(now)) && outcome.Fetched? ==>
                settings == Overlay(DefaultSettings(), outcome.result)
                && settingsManager.cache == Some(Overlay(old(settingsManager.cache).GetOr(map[]), outcome.result))
                && settingsManager.cacheTimestamp == now
      ensures !old(settingsManager.IsCacheValid(now)) && !outcome.Fetched? ==>
                settings == DefaultSettings()
                && blacklistText == DefaultBlacklistText() && searchEngine == DefaultSearchEngine
      ensures settings["blacklist"].StrList? ==>
                blacklistText == Join(settings["blacklist"].items, '\n')
                && (settings["searchEngine"].Str? ==> searchEngine == settings["searchEngine"].s)
                && (!settings["searchEngine"].Str? ==> searchEngine == old(searchEngine))
      ensures !settings["blacklist"].StrList? ==>
                blacklistText == old(blacklistText) && searchEngine == old(searchEngine)
      ensures sent == old(sent) && statusShown == old(statusShown) && statusMessage == old(statusMessage)
      ensures statusClass == old(statusClass)
    {
      settings := settingsManager.LoadSettings(["blacklist", "searchEngine"], DefaultSettings(), now, outcome);
      ShowList(settings);
    }

    /** The assignments at the end of `loadSettings`, for the answer `settings`. */
    method ShowList(settings: Settings)
      requires "searchEngine" in settings
      modifies this
      ensures "blacklist" in settings && settings["blacklist"].StrList? ==>
                blacklistText == Join(settings["blacklist"].items, '\n')
                && (settings["searchEngine"].Str? ==> searchEngine == settings["searchEngine"].s)
                && (!settings["searchEngine"].Str? ==> searchEngine == old(searchEngine))
      ensures !("blacklist" in settings && settings["blacklist"].StrList?) ==>
                blacklistText == old(blacklistText) && searchEngine == old(searchEngine)
      ensures sent == old(sent) && statusShown == old(statusShown) && statusMessage == old(statusMessage)
      ensures statusClass == old(statusClass)
    {
      if !("blacklist" in settings && settings["blacklist"].StrList?) {
        return;
      }
      blacklistText := Join(settings["blacklist"].items, '\n');
      if settings["searchEngine"].Str? {
        searchEngine := settings["searchEngine"].s;
      }
    }

    /** `saveSettings`, with the clock and how the storage write ends. */
    method SaveSettings(now: int, outcome: StoreOutcome) returns (ok: bool)
      modifies this, settingsManager
      ensures var saved := SavedSettings(old(blacklistText), old(searchEngine));
              sent == old(sent) + [saved]
              && (ok <==> outcome == Stored)
              && (ok ==> settingsManager.cache == Some(Overlay(old(settingsManager.cache).GetOr(map[]), saved)))
      ensures statusShown && statusMessage == (if ok then SavedMessage else SaveFailedMessage)
      ensures statusClass == (if ok then "status success" else "status error")
      ensures blacklistText == old(blacklistText) && searchEngine == old(searchEngine)
    {
      var settings := SavedSettings(blacklistText, searchEngine);
      sent := sent + [settings];
      ok := settingsManager.SaveSettings(settings, now, outcome);
      ReportSave(ok);
    }

    /** The status `saveSettings` shows once the write has ended. */
    method ReportSave(ok: bool)
      modifies this
      ensures statusShown && statusMessage == (if ok then SavedMessage else SaveFailedMessage)
      ensures statusClass == (if ok then "status success" else "status error")
      ensures blacklistText == old(blacklistText) && searchEngine == old(searchEngine) && sent == old(sent)
    {
      if ok {
        ShowStatus(SavedMessage, "success");
      } else {
        ShowStatus(SaveFailedMessage, "error");
      }
    }

    /** What a successful reset does: the textarea shows `text`, the select the default engine, and the status says so. */
    method ShowDefaults(text: string)
      modifies this
      ensures blacklistText == text && searchEngine == DefaultSearchEngine
      ensures statusShown && statusMessage == ResetMessage && statusClass == "status success" && sent == old(sent)
    {
      blacklistText := text;
      searchEngine := DefaultSearchEngine;
      ShowStatus(ResetMessage, "success");
    }

    /**
     * `resetSettings`, with the user's answer to `confirm`: the defaults are
     * saved, and the textarea and select show them only when the save succeeded.
     */
    method ResetSettings(confirmed: bool, now: int, outcome: StoreOutcome) returns (ok: bool)
      modifies this, settingsManager
      ensures !confirmed ==> !ok && sent == old(sent) && blacklistText == old(blacklistText)
                             && searchEngine == old(searchEngine) && statusShown == old(statusShown)
      ensures confirmed ==> sent == old(sent) + [DefaultSettings()] && (ok <==> outcome == Stored)
      ensures confirmed && ok ==>
                blacklistText == DefaultBlacklistText() && searchEngine == DefaultSearchEngine
                && statusShown && statusMessage == ResetMessage && statusClass == "status success"
      ensures confirmed && !ok ==>
                blacklistText == old(blacklistText) && searchEngine == old(searchEngine)
                && statusShown && statusMessage == ResetFailedMessage && statusClass == "status error"
    {
      ok := false;
      if !confirmed {
        return;
      }
      var defaults := DefaultSettings();
      sent := sent + [defaults];
      ok := settingsManager.SaveSettings(defaults, now, outcome);
      if ok {
        ShowDefaults(DefaultBlacklistText());
      } else {
        ShowStatus(ResetFailedMessage, "error");
      }
    }
  }
}
