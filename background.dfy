/**
 * `browser_extension/background.js`: the extension's service worker. It
 * holds whether the booster runs, on which tab and when next, schedules
 * the `naukriActivity` alarm, asks the content script of the tab to act,
 * and keeps the activity statistics in local storage.
 *
 * Times are milliseconds since the epoch, passed in by the caller; the
 * jittered interval `Math.round(activityInterval * variation)` is passed
 * in as `actualMinutes` wherever a handler schedules.
 */
module Background {
  import opened Common
  import Text

  const DefaultInterval: int := 5
  const DefaultMode: string := "stealth"
  const MsPerMinute: int := 60000

  // ---------------------------------------------------------------------
  // Stored values

  /** The statistics in `chrome.storage.local`; None is a key never written. */
  datatype Stats = Stats(total: Option<int>, successful: Option<int>, failed: Option<int>)

  /** `x || 0` on a stored counter. */
  function Counter(x: Option<int>): int
  {
    x.GetOr(0)
  }

  /** `chrome.storage.local` as this worker writes it. */
  datatype Local = Local(
    isActive: bool,
    currentTabId: Option<int>,
    nextActivityTime: Option<int>,
    stats: Stats,
    lastActivity: Option<string>)

  /** `chrome.storage.sync`: the settings the popup saves. */
  datatype Settings = Settings(interval: Option<int>, mode: Option<string>)

  /** `settings.interval || 5`: a missing or zero interval is replaced. */
  function IntervalOr(x: Option<int>): (r: int)
    ensures r != 0
    ensures x.Some? && x.value != 0 ==> r == x.value
    ensures x.None? || x.value == 0 ==> r == DefaultInterval
  {
    if x.Some? && x.value != 0 then x.value else DefaultInterval
  }

  /** `settings.mode || 'stealth'`: a missing or empty mode is replaced. */
  function ModeOr(x: Option<string>): (r: string)
    ensures r != ""
    ensures x.Some? && x.value != "" ==> r == x.value
    ensures x.None? || x.value == "" ==> r == DefaultMode
  {
    if x.Some? && x.value != "" then x.value else DefaultMode
  }

  /** A stored number that JavaScript treats as true: present and not 0. */
  predicate Truthy(t: Option<int>)
  {
    t.Some? && t.value != 0
  }

  // ---------------------------------------------------------------------
  // Statistics

  /**
   * The statistics after `handleActivityResult`: the total and exactly
   * one of the two outcome counters go up by one from their stored value
   * (a missing one counting as 0), and the other is left as stored.
   */
  function RecordResult(st: Stats, success: bool): (r: Stats)
    ensures r.total == Some(Counter(st.total) + 1)
    ensures success ==> r.successful == Some(Counter(st.successful) + 1) && r.failed == st.failed
    ensures !success ==> r.failed == Some(Counter(st.failed) + 1) && r.successful == st.successful
  {
    var total := Some(Counter(st.total) + 1);
    if success then Stats(total, Some(Counter(st.successful) + 1), st.failed)
    else Stats(total, st.successful, Some(Counter(st.failed) + 1))
  }

  /** The counters `onInstalled` writes. */
  const Zeroed: Stats := Stats(Some(0), Some(0), Some(0))

  function Replay(st: Stats, results: seq<bool>): Stats
  {
    if results == [] then st else RecordResult(Replay(st, results[..|results| - 1]), results[|results| - 1])
  }

  /**
   * From the installed zeros, the total is the number of results, the
   * successes are the true ones, and total == successful + failed.
   */
  lemma {:induction false} ReplayFromZero(results: seq<bool>)
    ensures var st := Replay(Zeroed, results);
      Counter(st.total) == |results|
      && Counter(st.successful) == CountTrue(results)
      && Counter(st.total) == Counter(st.successful) + Counter(st.failed)
      && st.total.Some? && st.successful.Some? && st.failed.Some?
  {
    if results != [] {
      var init := results[..|results| - 1];
      ReplayFromZero(init);
      assert results == init + [results[|results| - 1]];
      CountTrueAppend(init, results[|results| - 1]);
    }
  }

  /** Even from missing counters, total == successful + failed holds after any results. */
  lemma {:induction false} ReplayFromMissing(results: seq<bool>)
    ensures var st := Replay(Stats(None, None, None), results);
      Counter(st.total) == Counter(st.successful) + Counter(st.failed) == |results|
  {
    if results != [] {
      ReplayFromMissing(results[..|results| - 1]);
    }
  }

  // ---------------------------------------------------------------------
  // Startup arithmetic

  /** `Math.ceil(remaining / 60000)` for a positive remaining time. */
  function RemainingMinutes(remaining: int): (m: int)
    requires remaining > 0
    ensures m >= 1
    ensures (m - 1) * MsPerMinute < remaining <= m * MsPerMinute
  {
    (remaining + MsPerMinute - 1) / MsPerMinute
  }

  /** What `chrome.tabs.get(currentTabId)` gave. */
  datatype TabLookup = Tab(url: string) | NoSuchTab | OtherError

  predicate OnNaukri(url: string)
  {
    Text.Contains(url, "naukri.com")
  }

  /**
   * The worker's variables, the one alarm it uses and the two storage
   * areas. `alarm` is the delay in minutes of the pending `naukriActivity`
   * alarm.
   */
  class Worker {
    var isActive: bool
    var currentTabId: Option<int>
    var activityInterval: int
    var activityMode: string
    var nextActivityTime: Option<int>
    var alarm: Option<int>
    var local: Local
    var sync: Settings

    /**
     * Running means having a tab; a next time or a pending alarm exist
     * only while running.
     */
    predicate Valid()
      reads this
    {
      (isActive <==> currentTabId.Some?)
      && (nextActivityTime.Some? ==> isActive)
      && (alarm.Some? ==> isActive)
    }

    /** A freshly started worker over whatever storage holds. */
    constructor (local: Local, sync: Settings)
      ensures Valid()
      ensures !isActive && currentTabId.None? && nextActivityTime.None? && alarm.None?
      ensures activityInterval == DefaultInterval && activityMode == DefaultMode
      ensures this.local == local && this.sync == sync
    {
      isActive := false;
      currentTabId := None;
      activityInterval := DefaultInterval;
      activityMode := DefaultMode;
      nextActivityTime := None;
      alarm := None;
      this.local := local;
      this.sync := sync;
    }

    /** `onInstalled`: zeroed statistics and the default settings. */
    method OnInstalled()
      requires Valid()
      modifies this
      ensures Valid()
      ensures local == old(local).(isActive := false, stats := Zeroed, lastActivity := Some("Never"))
      ensures sync == Settings(Some(DefaultInterval), Some(DefaultMode))
      ensures isActive == old(isActive) && currentTabId == old(currentTabId) && nextActivityTime == old(nextActivityTime)
      ensures alarm == old(alarm) && activityInterval == old(activityInterval) && activityMode == old(activityMode)
    {
      local := local.(isActive := false, stats := Zeroed, lastActivity := Some("Never"));
      sync := Settings(Some(DefaultInterval), Some(DefaultMode));
    }

    /**
     * `scheduleNextActivity`: nothing when not running; otherwise the next
     * time is `actualMinutes` from now, the alarm is replaced, and the time
     * is stored.
     */
    method ScheduleNextActivity(now: int, actualMinutes: int)
      requires Valid()
      modifies this
      ensures Valid()
      ensures !old(isActive) ==> nextActivityTime == old(nextActivityTime) && alarm == old(alarm) && local == old(local)
      ensures old(isActive) ==> (nextActivityTime == Some(now + actualMinutes * MsPerMinute)
        && alarm == Some(actualMinutes)
        && local == old(local).(nextActivityTime := Some(now + actualMinutes * MsPerMinute)))
      ensures isActive == old(isActive) && currentTabId == old(currentTabId)
      ensures activityInterval == old(activityInterval) && activityMode == old(activityMode) && sync == old(sync)
    {
      if !isActive {
        return;
      }
      var next := now + actualMinutes * MsPerMinute;
      nextActivityTime := Some(next);
      alarm := Some(actualMinutes);
      local := local.(nextActivityTime := Some(next));
    }

    /**
     * `startActivityBooster`: the stored settings with their fallbacks,
     * running on the given tab, the state stored, and the first activity
     * scheduled.
     */
    method StartActivityBooster(tabId: int, now: int, actualMinutes: int)
      requires Valid()
      modifies this
      ensures Valid()
      ensures isActive && currentTabId == Some(tabId)
      ensures activityInterval == IntervalOr(old(sync).interval) && activityMode == ModeOr(old(sync).mode)
      ensures nextActivityTime == Some(now + actualMinutes * MsPerMinute) && alarm == Some(actualMinutes)
      ensures local == old(local).(isActive := true, currentTabId := Some(tabId),
        nextActivityTime := Some(now + actualMinutes * MsPerMinute))
      ensures sync == old(sync)
    {
      activityInterval := IntervalOr(sync.interval);
      activityMode := ModeOr(sync.mode);
      isActive := true;
      currentTabId := Some(tabId);
      local := local.(isActive := true, currentTabId := Some(tabId));
      ScheduleNextActivity(now, actualMinutes);
    }

    /** `stopActivityBooster`: not running, no tab, no next time, no alarm, and all of it stored. */
    method StopActivityBooster()
      requires Valid()
      modifies this
      ensures Valid()
      ensures !isActive && currentTabId.None? && nextActivityTime.None? && alarm.None?
      ensures local == old(local).(isActive := false, currentTabId := None, nextActivityTime := None)
      ensures activityInterval == old(activityInterval) && activityMode == old(activityMode) && sync == old(sync)
    {
      isActive := false;
      currentTabId := None;
      nextActivityTime := None;
      alarm := None;
      local := local.(isActive := false, currentTabId := None, nextActivityTime := None);
    }

    /** `updateSettings`: the new settings, and a new schedule only while running. */
    method UpdateSettings(interval: int, mode: string, now: int, actualMinutes: int)
      requires Valid()
      modifies this
      ensures Valid()
      ensures activityInterval == interval && activityMode == mode
      ensures isActive == old(isActive) && currentTabId == old(currentTabId) && sync == old(sync)
      ensures !old(isActive) ==> nextActivityTime == old(nextActivityTime) && alarm == old(alarm) && local == old(local)
      ensures old(isActive) ==> (nextActivityTime == Some(now + actualMinutes * MsPerMinute) && alarm == Some(actualMinutes)
        && local == old(local).(nextActivityTime := Some(now + actualMinutes * MsPerMinute)))
    {
      activityInterval := interval;
      activityMode := mode;
      if isActive {
        ScheduleNextActivity(now, actualMinutes);
      }
    }

    /**
     * `performScheduledActivity`: returns the mode sent to the content
     * script, if any. Nothing is sent when not running or without a tab; a
     * tab off naukri.com or a tab that no longer exists stops the booster;
     * any other lookup error changes nothing.
     */
    method PerformScheduledActivity(tab: TabLookup) returns (sent: Option<string>)
      requires Valid()
      modifies this
      ensures Valid()
      ensures sent.Some? <==> old(isActive) && Truthy(old(currentTabId)) && tab.Tab? && OnNaukri(tab.url)
      ensures sent.Some? ==> sent.value == activityMode
      ensures var stops := old(isActive) && Truthy(old(currentTabId)) && (tab.NoSuchTab? || (tab.Tab? && !OnNaukri(tab.url)));
        if stops then (!isActive && currentTabId.None? && nextActivityTime.None? && alarm.None?
          && local == old(local).(isActive := false, currentTabId := None, nextActivityTime := None))
        else (isActive == old(isActive) && currentTabId == old(currentTabId) && nextActivityTime == old(nextActivityTime)
          && alarm == old(alarm) && local == old(local))
      ensures activityInterval == old(activityInterval) && activityMode == old(activityMode) && sync == old(sync)
    {
      sent := None;
      if !isActive || !Truthy(currentTabId) {
        return;
      }
      match tab
      case Tab(url) =>
        if !OnNaukri(url) {
          StopActivityBooster();
        } else {
          sent := Some(activityMode);
        }
      case NoSuchTab =>
        StopActivityBooster();
      case OtherError =>
    }

    /**
     * `handleActivityResult`: the statistics recorded and the time of the
     * activity stored, then the next activity scheduled.
     */
    method HandleActivityResult(success: bool, when: string, now: int, actualMinutes: int)
      requires Valid()
      modifies this
      ensures Valid()
      ensures local.stats == RecordResult(old(local).stats, success)
      ensures local.lastActivity == Some(when)
      ensures local.isActive == old(local).isActive && local.currentTabId == old(local).currentTabId
      ensures old(isActive) ==> (nextActivityTime == Some(now + actualMinutes * MsPerMinute) && alarm == Some(actualMinutes)
        && local.nextActivityTime == nextActivityTime)
      ensures !old(isActive) ==> (nextActivityTime == old(nextActivityTime) && alarm == old(alarm)
        && local.nextActivityTime == old(local).nextActivityTime)
      ensures isActive == old(isActive) && currentTabId == old(currentTabId)
      ensures activityInterval == old(activityInterval) && activityMode == old(activityMode) && sync == old(sync)
    {
      local := local.(stats := RecordResult(local.stats, success), lastActivity := Some(when));
      ScheduleNextActivity(now, actualMinutes);
    }

    /** `tabs.onUpdated`: the tracked tab navigating to a non-empty URL off naukri.com stops the booster. */
    method OnTabUpdated(tabId: int, changedUrl: Option<string>)
      requires Valid()
      modifies this
      ensures Valid()
      ensures var stops := old(currentTabId) == Some(tabId) && changedUrl.Some? && changedUrl.value != ""
          && !OnNaukri(changedUrl.value);
        if stops then (!isActive && currentTabId.None? && nextActivityTime.None? && alarm.None?
          && local == old(local).(isActive := false, currentTabId := None, nextActivityTime := None))
        else (isActive == old(isActive) && currentTabId == old(currentTabId) && nextActivityTime == old(nextActivityTime)
          && alarm == old(alarm) && local == old(local))
      ensures activityInterval == old(activityInterval) && activityMode == old(activityMode) && sync == old(sync)
    {
      if currentTabId == Some(tabId) && changedUrl.Some? && changedUrl.value != "" && !OnNaukri(changedUrl.value) {
        StopActivityBooster();
      }
    }

    /** `tabs.onRemoved`: removing the tracked tab stops the booster; any other tab changes nothing. */
    method OnTabRemoved(tabId: int)
      requires Valid()
      modifies this
      ensures Valid()
      ensures old(currentTabId) == Some(tabId) ==> (!isActive && currentTabId.None? && nextActivityTime.None? && alarm.None?
        && local == old(local).(isActive := false, currentTabId := None, nextActivityTime := None))
      ensures old(currentTabId) != Some(tabId) ==> (isActive == old(isActive) && currentTabId == old(currentTabId)
        && nextActivityTime == old(nextActivityTime) && alarm == old(alarm) && local == old(local))
      ensures activityInterval == old(activityInterval) && activityMode == old(activityMode) && sync == old(sync)
    {
      if currentTabId == Some(tabId) {
        StopActivityBooster();
      }
    }

    /**
     * `runtime.onStartup`: a stored running state with a tab is taken
     * back; then a stored next time (any stored ISO string counts) that has passed
     * runs the activity at once
     * (`tab` is what the lookup then gives), and one still ahead sets the
     * alarm to the remaining whole minutes, rounded up.
     */
    method OnStartup(now: int, tab: TabLookup) returns (sent: Option<string>)
      requires Valid()
      modifies this
      ensures Valid()
      ensures !(old(local).isActive && Truthy(old(local).currentTabId)) ==>
        sent.None? && isActive == old(isActive) && currentTabId == old(currentTabId)
        && nextActivityTime == old(nextActivityTime) && alarm == old(alarm) && local == old(local)
      ensures old(local).isActive && Truthy(old(local).currentTabId) && old(local).nextActivityTime.None? ==>
        sent.None? && isActive && currentTabId == old(local).currentTabId
        && nextActivityTime == old(nextActivityTime) && alarm == old(alarm) && local == old(local)
      ensures var next := old(local).nextActivityTime;
        old(local).isActive && Truthy(old(local).currentTabId) && next.Some? && now < next.value ==>
          sent.None? && isActive && currentTabId == old(local).currentTabId
          && nextActivityTime == old(nextActivityTime) && alarm == Some(RemainingMinutes(next.value - now))
          && local == old(local)
      ensures var next := old(local).nextActivityTime;
        old(local).isActive && Truthy(old(local).currentTabId) && next.Some? && now >= next.value ==>
          (sent.Some? <==> tab.Tab? && OnNaukri(tab.url))
          && (sent.Some? ==> sent.value == activityMode)
      ensures var next := old(local).nextActivityTime;
        var stops := tab.NoSuchTab? || (tab.Tab? && !OnNaukri(tab.url));
        old(local).isActive && Truthy(old(local).currentTabId) && next.Some? && now >= next.value ==>
          if stops then (!isActive && currentTabId.None? && nextActivityTime.None? && alarm.None?
            && local == old(local).(isActive := false, currentTabId := None, nextActivityTime := None))
          else (isActive && currentTabId == old(local).currentTabId && nextActivityTime == old(nextActivityTime)
            && alarm == old(alarm) && local == old(local))
      ensures activityInterval == old(activityInterval) && activityMode == old(activityMode) && sync == old(sync)
    {
      sent := None;
      if !(local.isActive && Truthy(local.currentTabId)) {
        return;
      }
      isActive := true;
      currentTabId := local.currentTabId;
      match local.nextActivityTime
      case None =>
      case Some(scheduled) =>
        if now >= scheduled {
          sent := PerformScheduledActivity(tab);
        } else {
          alarm := Some(RemainingMinutes(scheduled - now));
        }
    }

    /** `testActivity`: with a tab, the activity is requested in the current mode, `normal` when empty. */
    method TestActivity() returns (sent: Option<string>)
      ensures sent.Some? <==> Truthy(currentTabId)
      ensures sent.Some? ==> sent.value == if activityMode == "" then "normal" else activityMode
    {
      if !Truthy(currentTabId) {
        return None;
      }
      return Some(if activityMode == "" then "normal" else activityMode);
    }
  }
}
