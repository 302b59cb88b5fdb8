/**
 * `auto_refresh_advanced.py` with `config.py`: a page refresher whose page
 * loads and refreshes are retried, with quick-pick URLs and defaults taken
 * from the configuration.
 */
module AutoRefreshAdvanced {
  import opened Common
  import opened Text
  import Prompts

  // ---------------------------------------------------------------------
  // Configuration (`config.py`)

  const DefaultRefreshMinutes: int := 5
  const DefaultUrl: string := ""
  const RetryDelay: nat := 5
  const MaxRetries: nat := 3

  const QuickUrls: map<string, string> := map[
    "1" := "https://github.com", "2" := "https://stackoverflow.com", "3" := "https://news.ycombinator.com",
    "4" := "https://reddit.com", "5" := "https://twitter.com"]
  const FavoriteUrls: map<string, string> := map[]

  /** `refresh_interval or (default_refresh_interval * 60)`: None and 0 take the default. */
  function EffectiveInterval(requested: Option<int>): (seconds: int)
    ensures requested.Some? && requested.value != 0 ==> seconds == requested.value
    ensures requested.None? || requested.value == 0 ==> seconds == DefaultRefreshMinutes * 60
  {
    match requested
    case Some(s) => if s != 0 then s else DefaultRefreshMinutes * 60
    case None => DefaultRefreshMinutes * 60
  }

  // ---------------------------------------------------------------------
  // Retries

  /**
   * The outcome of `for attempt in range(limit)` over driver calls: whether
   * one succeeded, how many attempts were made, how many retry delays were
   * slept. `answers[k]` says whether attempt `k` succeeded; a missing answer
   * is a failure.
   */
  datatype RetryOutcome = RetryOutcome(ok: bool, attempts: nat, sleeps: nat)

  predicate Succeeds(answers: seq<bool>, k: nat)
  {
    k < |answers| && answers[k]
  }

  function RetryFrom(answers: seq<bool>, k: nat, limit: nat): RetryOutcome
    decreases limit - k
  {
    if k >= limit then RetryOutcome(false, k, if k > 0 then k - 1 else 0)
    else if Succeeds(answers, k) then RetryOutcome(true, k + 1, k)
    else RetryFrom(answers, k + 1, limit)
  }

  function Retry(answers: seq<bool>, limit: nat): RetryOutcome
  {
    RetryFrom(answers, 0, limit)
  }

  /**
   * Success exactly when one of the first `limit` attempts succeeds; then
   * the last attempt made is the first success. A retry delay separates
   * consecutive attempts and none follows the last one.
   */
  lemma {:induction false} RetryFromMeaning(answers: seq<bool>, k: nat, limit: nat)
    requires k <= limit
    requires forall j :: 0 <= j < k ==> !Succeeds(answers, j)
    ensures var r := RetryFrom(answers, k, limit);
      (r.ok <==> exists j :: 0 <= j < limit && Succeeds(answers, j))
      && r.attempts <= limit
      && (r.ok ==> 0 < r.attempts && Succeeds(answers, r.attempts - 1)
                   && forall j :: 0 <= j < r.attempts - 1 ==> !Succeeds(answers, j))
      && (!r.ok ==> r.attempts == limit)
      && r.sleeps == (if r.attempts > 0 then r.attempts - 1 else 0)
    decreases limit - k
  {
    if k < limit && !Succeeds(answers, k) {
      RetryFromMeaning(answers, k + 1, limit);
    }
  }

  lemma RetryMeaning(answers: seq<bool>, limit: nat)
    ensures var r := Retry(answers, limit);
      (r.ok <==> exists j :: 0 <= j < limit && Succeeds(answers, j))
      && r.attempts <= limit
      && (r.ok ==> 0 < r.attempts && Succeeds(answers, r.attempts - 1)
                   && forall j :: 0 <= j < r.attempts - 1 ==> !Succeeds(answers, j))
      && (!r.ok ==> r.attempts == limit)
      && r.sleeps == (if r.attempts > 0 then r.attempts - 1 else 0)
  {
    RetryFromMeaning(answers, 0, limit);
  }

  /** With the configured three retries: at most four attempts and fifteen seconds of delay. */
  lemma RetryBudget(answers: seq<bool>)
    ensures var r := Retry(answers, MaxRetries + 1);
      r.attempts <= 4 && r.sleeps * RetryDelay <= 15
  {
    RetryMeaning(answers, MaxRetries + 1);
  }

  /** The script's refresher object. */
  class AdvancedWebPageRefresher {
    var url: string
    var refreshInterval: int
    var maxRetries: nat

    constructor (url: string, refreshInterval: Option<int>)
      ensures this.url == url && this.refreshInterval == EffectiveInterval(refreshInterval)
      ensures maxRetries == MaxRetries
    {
      this.url := url;
      this.refreshInterval := EffectiveInterval(refreshInterval);
      this.maxRetries := MaxRetries;
    }

    /**
     * The retry loop shared by `load_page` and `refresh_page`: try, and on
     * failure sleep `retry_delay` unless it was the last attempt.
     */
    method RetryLoop(answers: seq<bool>) returns (r: RetryOutcome)
      ensures r == Retry(answers, maxRetries + 1)
    {
      var attempt := 0;
      var sleeps := 0;
      while attempt < maxRetries + 1
        invariant 0 <= attempt <= maxRetries + 1
        invariant sleeps == if attempt <= maxRetries then attempt else maxRetries
        invariant Retry(answers, maxRetries + 1) == RetryFrom(answers, attempt, maxRetries + 1)
      {
        if attempt < |answers| && answers[attempt] {
          return RetryOutcome(true, attempt + 1, sleeps);
        }
        if attempt < maxRetries {
          sleeps := sleeps + 1;
        }
        attempt := attempt + 1;
      }
      return RetryOutcome(false, attempt, sleeps);
    }

    /** `load_page`: `driver.get(url)` retried. */
    method LoadPage(answers: seq<bool>) returns (r: RetryOutcome)
      ensures r == Retry(answers, maxRetries + 1)
    {
      r := RetryLoop(answers);
    }

    /** `refresh_page`: `driver.refresh()` retried; the source repeats `load_page`'s loop, so this is the same RetryLoop. */
    method RefreshPage(answers: seq<bool>) returns (r: RetryOutcome)
      ensures r == Retry(answers, maxRetries + 1)
    {
      r := RetryLoop(answers);
    }

    /**
     * `start_auto_refresh`: nothing happens unless the driver starts and the
     * page loads; then each cycle sleeps the interval and refreshes, and the
     * counter counts the refreshes that succeeded within their retries.
     * `cycles` holds each cycle's refresh answers until Ctrl+C. A negative
     * interval makes the first `time.sleep` raise; the handler ends the run
     * before any refresh.
     */
    method StartAutoRefresh(setupOk: bool, load: seq<bool>, cycles: seq<seq<bool>>) returns (started: bool, refreshCount: nat, waited: int)
      ensures started == (setupOk && Retry(load, maxRetries + 1).ok)
      ensures started && refreshInterval >= 0 ==> refreshCount == RefreshCount(cycles, maxRetries + 1)
      ensures started && refreshInterval >= 0 ==> waited == |cycles| * refreshInterval + RetryWaits(cycles, maxRetries + 1)
      ensures started && refreshInterval < 0 ==> refreshCount == 0 && waited == 0
      ensures !started ==> refreshCount == 0 && waited == 0
    {
      refreshCount, waited := 0, 0;
      if !setupOk {
        return false, 0, 0;
      }
      var loaded := LoadPage(load);
      if !loaded.ok {
        return false, 0, 0;
      }
      started := true;
      if refreshInterval < 0 {
        return;
      }
      var i := 0;
      while i < |cycles|
        invariant 0 <= i <= |cycles|
        invariant refreshCount == RefreshCount(cycles[..i], maxRetries + 1)
        invariant waited == i * refreshInterval + RetryWaits(cycles[..i], maxRetries + 1)
      {
        assert cycles[..i + 1][..i] == cycles[..i];
        waited := waited + refreshInterval;
        var r := RefreshPage(cycles[i]);
        waited := waited + r.sleeps * RetryDelay;
        if r.ok {
          refreshCount := refreshCount + 1;
        }
        i := i + 1;
      }
      assert cycles[..i] == cycles;
    }
  }

  /** Cycles whose refresh succeeded within its retries. */
  function RefreshCount(cycles: seq<seq<bool>>, limit: nat): (n: nat)
    ensures n <= |cycles|
  {
    if cycles == [] then 0
    else RefreshCount(cycles[..|cycles| - 1], limit) + (if Retry(cycles[|cycles| - 1], limit).ok then 1 else 0)
  }

  /** Seconds spent in retry delays over the cycles. */
  function RetryWaits(cycles: seq<seq<bool>>, limit: nat): int
  {
    if cycles == [] then 0
    else RetryWaits(cycles[..|cycles| - 1], limit) + Retry(cycles[|cycles| - 1], limit).sleeps * RetryDelay
  }

  /** A cycle whose every refresh attempt fails is not counted, and the loop goes on. */
  lemma FailedCycleNotCounted(cycles: seq<seq<bool>>, failing: seq<bool>, limit: nat)
    requires forall j :: 0 <= j < limit ==> !Succeeds(failing, j)
    ensures RefreshCount(cycles + [failing], limit) == RefreshCount(cycles, limit)
  {
    RetryMeaning(failing, limit);
    assert (cycles + [failing])[..|cycles|] == cycles;
  }

  /** At the configured settings each cycle waits at least the interval and at most 15 s more. */
  lemma {:induction false} RetryWaitsBound(cycles: seq<seq<bool>>)
    ensures 0 <= RetryWaits(cycles, MaxRetries + 1) <= 15 * |cycles|
  {
    if cycles != [] {
      RetryWaitsBound(cycles[..|cycles| - 1]);
      RetryBudget(cycles[|cycles| - 1]);
    }
  }

  // ---------------------------------------------------------------------
  // URL and interval prompts

  /** `{**QUICK_URLS, **FAVORITE_URLS}`: a favorite with the same key wins. */
  function AllUrls(): map<string, string>
  {
    QuickUrls + FavoriteUrls
  }

  /**
   * The merge `{**quick, **favorites}` for any two maps: it has the keys of
   * both, a favorite wins on a shared key, and a quick URL is kept where no
   * favorite has its key.
   */
  lemma FavoritesOverride(quick: map<string, string>, favorites: map<string, string>, key: string)
    ensures key in quick + favorites <==> key in quick || key in favorites
    ensures key in favorites ==> (quick + favorites)[key] == favorites[key]
    ensures key in quick && key !in favorites ==> (quick + favorites)[key] == quick[key]
  {
  }

  /** `show_quick_urls` once the list was shown: the URL of the chosen key, if it is one. */
  function QuickUrl(all: map<string, string>, choice: string): (r: Option<string>)
    ensures r.Some? <==> Strip(choice) in all
    ensures r.Some? ==> r.value == all[Strip(choice)]
  {
    var key := Strip(choice);
    if key in all then Some(all[key]) else None
  }

  /** The answers the user gives, prompt by prompt; None where `input()` has nothing left. */
  datatype Answers = Answers(
    useDefault: Option<string>,
    quickChoice: Option<string>,
    urlLines: seq<string>,
    intervals: seq<Prompts.IntervalAnswer>)

  datatype Session = Session(url: string, interval: int)

  /** Whether the answer to "Use default URL?" accepts it. */
  predicate AcceptsDefault(answer: string)
  {
    var a := Lower(Strip(answer));
    a == "y" || a == "yes" || a == ""
  }

  /** The URL `get_user_input` settles on, or None when the prompts run out. */
  function ChosenUrl(defaultUrl: string, all: map<string, string>, a: Answers): Option<string>
  {
    var fromDefault: Option<Option<string>> :=
      if defaultUrl == [] then Some(None)
      else match a.useDefault
        case None => None
        case Some(ans) => Some(if AcceptsDefault(ans) then Some(defaultUrl) else None);
    match fromDefault
    case None => None
    case Some(d) =>
      if d.Some? && d.value != [] then d
      else
        var quick: Option<Option<string>> :=
          if all == map[] then Some(None)
          else match a.quickChoice
            case None => None
            case Some(c) => Some(QuickUrl(all, c));
        match quick
        case None => None
        case Some(q) =>
          if q.Some? && q.value != [] then q
          else Prompts.UrlAnswer(a.urlLines, false)
  }

  /** The default URL is not taken: there is none, or the answer was not `y`, `yes` or empty. */
  predicate DefaultDeclined(defaultUrl: string, a: Answers)
  {
    defaultUrl == [] || (a.useDefault.Some? && Lower(Strip(a.useDefault.value)) !in ["y", "yes", ""])
  }

  /**
   * The URL stage by stage, for any default URL and any URL map: a
   * non-empty default is taken exactly on `y`, `yes` or an empty answer;
   * once it is declined, an empty map goes straight to the typed URL, and
   * otherwise a key with a non-empty URL wins over the typed URL.
   */
  lemma ChosenUrlStages(defaultUrl: string, all: map<string, string>, a: Answers)
    ensures defaultUrl != [] && a.useDefault.None? ==> ChosenUrl(defaultUrl, all, a).None?
    ensures defaultUrl != [] && a.useDefault.Some? && Lower(Strip(a.useDefault.value)) in ["y", "yes", ""] ==>
      ChosenUrl(defaultUrl, all, a) == Some(defaultUrl)
    ensures DefaultDeclined(defaultUrl, a) && all == map[] ==>
      ChosenUrl(defaultUrl, all, a) == Prompts.UrlAnswer(a.urlLines, false)
    ensures DefaultDeclined(defaultUrl, a) && all != map[] && a.quickChoice.None? ==>
      ChosenUrl(defaultUrl, all, a).None?
    ensures var c := a.quickChoice;
      DefaultDeclined(defaultUrl, a) && all != map[] && c.Some? && Strip(c.value) in all && all[Strip(c.value)] != [] ==>
        ChosenUrl(defaultUrl, all, a) == Some(all[Strip(c.value)])
    ensures var c := a.quickChoice;
      DefaultDeclined(defaultUrl, a) && all != map[] && c.Some? && (Strip(c.value) !in all || all[Strip(c.value)] == []) ==>
        ChosenUrl(defaultUrl, all, a) == Prompts.UrlAnswer(a.urlLines, false)
    ensures UserInput(defaultUrl, all, a).Some? <==>
      ChosenUrl(defaultUrl, all, a).Some? && Prompts.IntervalSeconds(a.intervals, DefaultRefreshMinutes).Some?
    ensures UserInput(defaultUrl, all, a).Some? ==>
      UserInput(defaultUrl, all, a).value
      == Session(ChosenUrl(defaultUrl, all, a).value, Prompts.IntervalSeconds(a.intervals, DefaultRefreshMinutes).value)
  {
    if a.useDefault.Some? {
      var ans := Lower(Strip(a.useDefault.value));
      assert AcceptsDefault(a.useDefault.value) <==> ans in ["y", "yes", ""];
    }
  }

  /** `get_user_input`: the URL, then the interval in whole seconds. */
  function UserInput(defaultUrl: string, all: map<string, string>, a: Answers): Option<Session>
  {
    match ChosenUrl(defaultUrl, all, a)
    case None => None
    case Some(url) =>
      match Prompts.IntervalSeconds(a.intervals, DefaultRefreshMinutes)
      case None => None
      case Some(s) => Some(Session(url, s))
  }

  method GetUserInput(defaultUrl: string, all: map<string, string>, a: Answers) returns (s: Option<Session>)
    ensures s == UserInput(defaultUrl, all, a)
  {
    var url: Option<string> := None;
    if defaultUrl != [] {
      if a.useDefault.None? {
        return None;
      }
      if AcceptsDefault(a.useDefault.value) {
        url := Some(defaultUrl);
      }
    }
    if url.None? || url.value == [] {
      var quick: Option<string> := None;
      if all != map[] {
        if a.quickChoice.None? {
          return None;
        }
        quick := QuickUrl(all, a.quickChoice.value);
      }
      if quick.Some? && quick.value != [] {
        url := quick;
      } else {
        var typed, _ := Prompts.ReadUrl(a.urlLines, false);
        if typed.None? {
          return None;
        }
        url := typed;
      }
    }
    var seconds, _ := Prompts.ReadInterval(a.intervals, DefaultRefreshMinutes);
    if seconds.None? {
      return None;
    }
    return Some(Session(url.value, seconds.value));
  }

  /**
   * With the shipped configuration (no default URL, five quick URLs), a
   * quick key picks its URL as listed, and anything else falls back to the
   * typed URL, normalised.
   */
  lemma ShippedChoice(a: Answers)
    requires a.quickChoice.Some?
    ensures Strip(a.quickChoice.value) in QuickUrls ==>
      ChosenUrl(DefaultUrl, AllUrls(), a) == Some(QuickUrls[Strip(a.quickChoice.value)])
    ensures Strip(a.quickChoice.value) !in QuickUrls ==>
      ChosenUrl(DefaultUrl, AllUrls(), a) == Prompts.UrlAnswer(a.urlLines, false)
  {
    assert AllUrls() == QuickUrls;
    assert "1" in QuickUrls;
    var key := Strip(a.quickChoice.value);
    if key in QuickUrls {
      assert QuickUrls[key] != [];
    }
  }

  /**
   * An interval that truncates to 0 seconds (less than a second's worth of
   * minutes) is replaced by the five-minute default when the refresher is
   * built, since `0 or 300` is 300.
   */
  lemma ZeroIntervalFallsBack(answers: seq<Prompts.IntervalAnswer>)
    requires Prompts.IntervalSeconds(answers, DefaultRefreshMinutes) == Some(0)
    ensures EffectiveInterval(Prompts.IntervalSeconds(answers, DefaultRefreshMinutes)) == 300
  {
  }

  /** Any interval that reaches the refresher is positive. */
  lemma SessionIntervalPositive(defaultUrl: string, all: map<string, string>, a: Answers)
    requires UserInput(defaultUrl, all, a).Some?
    ensures EffectiveInterval(Some(UserInput(defaultUrl, all, a).value.interval)) > 0
  {
    Prompts.IntervalSecondsProps(a.intervals, DefaultRefreshMinutes);
  }
}
