/**
 * `browser_extension/popup.js`: the extension's popup. It shows the stored
 * statistics with a success rate, the running state with a countdown to
 * the next activity, and sends start requests only from a Naukri tab.
 */
module Popup {
  import opened Common
  import Text
  import Background

  // ---------------------------------------------------------------------
  // Arithmetic

  /**
   * `Math.round(successful / total * 100)` with total = successful + failed,
   * as integer half-up rounding; None is the `-` shown when the total is
   * not positive.
   */
  function SuccessRate(successful: int, failed: int): (r: Option<int>)
    ensures r.None? <==> successful + failed <= 0
    ensures r.Some? ==> var t := successful + failed;
      2 * r.value * t <= 200 * successful + t < 2 * (r.value + 1) * t
    ensures r.Some? && successful >= 0 && failed >= 0 ==> 0 <= r.value <= 100
  {
    var t := successful + failed;
    if t <= 0 then None
    else
      var rate := (200 * successful + t) / (2 * t);
      RateBounds(successful, t, rate);
      Some(rate)
  }

  lemma ProductSign(t: int, x: int)
    requires t > 0
    ensures x > 0 ==> t * x > 0
    ensures x < 0 ==> t * x < 0
  {
  }

  lemma RateBounds(s: int, t: int, rate: int)
    requires 0 < t && rate == (200 * s + t) / (2 * t)
    ensures 2 * rate * t <= 200 * s + t < 2 * (rate + 1) * t
    ensures 0 <= s <= t ==> 0 <= rate <= 100
  {
    var q := 200 * s + t;
    assert q == 2 * t * rate + q % (2 * t);
    assert 0 <= q % (2 * t) < 2 * t;
    assert 2 * t * rate <= q < 2 * t * rate + 2 * t;
    ProductSign(2 * t, rate - 100);
    ProductSign(2 * t, rate + 1);
    assert 2 * t * (rate - 100) == 2 * t * rate - 200 * t;
    assert 2 * t * (rate + 1) == 2 * t * rate + 2 * t;
  }

  /** The two extremes: all succeeded is 100%, none succeeded is 0%. */
  lemma SuccessRateExtremes(n: nat)
    requires n > 0
    ensures SuccessRate(n, 0) == Some(100)
    ensures SuccessRate(0, n) == Some(0)
  {
    var r := SuccessRate(n, 0).value;
    ProductSign(n, 2 * r - 201);
    ProductSign(n, 2 * r - 199);
    assert n * (2 * r - 201) == 2 * r * n - 201 * n;
    assert n * (2 * r - 199) == 2 * (r + 1) * n - 201 * n;
    var z := SuccessRate(0, n).value;
    ProductSign(n, 2 * z - 1);
    ProductSign(n, 2 * z + 1);
    assert n * (2 * z - 1) == 2 * z * n - n;
    assert n * (2 * z + 1) == 2 * (z + 1) * n - n;
  }

  /** `minutes = floor(diff / 60000)`, `seconds = floor((diff % 60000) / 1000)` for a positive `diff`. */
  function Countdown(diff: int): (r: (nat, nat))
    requires diff > 0
    ensures r.1 < 60
    ensures r.0 * 60000 + r.1 * 1000 <= diff < r.0 * 60000 + (r.1 + 1) * 1000
  {
    ((diff / 60000) as nat, (diff % 60000) / 1000)
  }

  // ---------------------------------------------------------------------
  // The view

  /** What the popup shows for the next activity. */
  datatype NextText = In(minutes: nat, seconds: nat) | Soon | Calculating | Dash

  /**
   * The next-activity text: `-` when stopped; `Calculating...` without a
   * stored time; the countdown while the time is ahead; `Soon` once it has
   * passed.
   */
  function NextTextFor(isActive: bool, next: Option<int>, now: int): (r: NextText)
    ensures !isActive <==> r == Dash
    ensures r == Calculating <==> isActive && next.None?
    ensures r.In? <==> isActive && next.Some? && next.value > now
    ensures r == Soon <==> isActive && next.Some? && next.value <= now
    ensures r.In? ==> r.seconds < 60
    ensures r.In? ==> r.minutes * 60000 + r.seconds * 1000 <= next.value - now < r.minutes * 60000 + (r.seconds + 1) * 1000
  {
    if !isActive then Dash
    else match next
      case None => Calculating
      case Some(t) => if t - now > 0 then In(Countdown(t - now).0, Countdown(t - now).1) else Soon
  }

  /** The popup's text fields and the hidden flags of its two buttons. */
  class View {
    var totalText: int
    var lastText: string
    var rateText: Option<int>
    var statusText: string
    var startHidden: bool
    var stopHidden: bool
    var nextText: NextText

    constructor ()
      ensures totalText == 0 && lastText == "" && rateText.None? && statusText == ""
      ensures !startHidden && !stopHidden && nextText == Dash
    {
      totalText, lastText, rateText, statusText := 0, "", None, "";
      startHidden, stopHidden, nextText := false, false, Dash;
    }

    /**
     * `loadStats`: the stored total (0 when missing), the last activity
     * (`Never` when missing or empty), and the success rate over
     * successful + failed.
     */
    method LoadStats(local: Background.Local)
      modifies this
      ensures totalText == Background.Counter(local.stats.total)
      ensures lastText == if local.lastActivity.Some? && local.lastActivity.value != "" then local.lastActivity.value else "Never"
      ensures rateText == SuccessRate(Background.Counter(local.stats.successful), Background.Counter(local.stats.failed))
      ensures statusText == old(statusText) && startHidden == old(startHidden) && stopHidden == old(stopHidden)
      ensures nextText == old(nextText)
    {
      totalText := Background.Counter(local.stats.total);
      lastText := if local.lastActivity.Some? && local.lastActivity.value != "" then local.lastActivity.value else "Never";
      rateText := SuccessRate(Background.Counter(local.stats.successful), Background.Counter(local.stats.failed));
    }

    /**
     * `updateStatus`: running shows Stop and hides Start, stopped the
     * reverse, so exactly one of the two is visible; the next-activity
     * text is the countdown, `Soon`, `Calculating...` or `-`.
     */
    method UpdateStatus(local: Background.Local, now: int)
      modifies this
      ensures startHidden == local.isActive && stopHidden == !local.isActive
      ensures startHidden != stopHidden
      ensures statusText == if local.isActive then "Active" else "Inactive"
      ensures nextText == NextTextFor(local.isActive, local.nextActivityTime, now)
      ensures totalText == old(totalText) && lastText == old(lastText) && rateText == old(rateText)
    {
      if local.isActive {
        statusText := "Active";
        startHidden := true;
        stopHidden := false;
        match local.nextActivityTime {
          case None => nextText := Calculating;
          case Some(t) =>
            var diff := t - now;
            if diff > 0 {
              var (m, s) := Countdown(diff);
              nextText := In(m, s);
            } else {
              nextText := Soon;
            }
        }
      } else {
        statusText := "Inactive";
        startHidden := false;
        stopHidden := true;
        nextText := Dash;
      }
    }
  }

  // ---------------------------------------------------------------------
  // Requests

  /** What the popup sends or shows in response to a button. */
  datatype Request =
    | SaveSettings(interval: int, mode: string)
    | Start(tabId: int)
    | TestActivity
    | Notice(text: string, isError: bool)

  const NotOnNaukri: string := "Please navigate to your Naukri profile page first!"

  /** `startActivityBooster`: from a tab off naukri.com only the error notice; otherwise save the settings, then start. */
  function StartRequests(url: string, tabId: int, interval: int, mode: string): (r: seq<Request>)
    ensures Text.Contains(url, "naukri.com") ==> r == [SaveSettings(interval, mode), Start(tabId)]
    ensures !Text.Contains(url, "naukri.com") ==> r == [Notice(NotOnNaukri, true)]
  {
    if !Text.Contains(url, "naukri.com") then [Notice(NotOnNaukri, true)]
    else [SaveSettings(interval, mode), Start(tabId)]
  }
}
