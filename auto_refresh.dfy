/**
 * `auto_refresh.py`: asks for a URL and an interval, opens the page and
 * refreshes it at that interval until interrupted.
 */
module AutoRefresh {
  import opened Common
  import Prompts

  /** Constructor default: five minutes. */
  const DefaultInterval: int := 300

  /** Minutes used for a blank interval answer. */
  const DefaultMinutes: int := 5

  /** Extra wait after a failed refresh. */
  const FailureWait: int := 5

  /**
   * Seconds waited by a loop over the given refresh results: the interval
   * before every refresh and five more seconds after each failed one.
   */
  function Waited(interval: int, oks: seq<bool>): int
  {
    if oks == [] then 0
    else Waited(interval, oks[..|oks| - 1]) + interval + (if oks[|oks| - 1] then 0 else FailureWait)
  }

  lemma {:induction false} WaitedTotal(interval: int, oks: seq<bool>)
    ensures Waited(interval, oks) == |oks| * interval + FailureWait * (|oks| - CountTrue(oks))
  {
    if oks != [] {
      WaitedTotal(interval, oks[..|oks| - 1]);
    }
  }

  class WebPageRefresher {
    const url: string
    const refreshInterval: int

    constructor (url: string, refreshInterval: int)
      ensures this.url == url && this.refreshInterval == refreshInterval
    {
      this.url := url;
      this.refreshInterval := refreshInterval;
    }

    /** `WebPageRefresher(url)` with the interval left out. */
    constructor WithDefaultInterval(url: string)
      ensures this.url == url && refreshInterval == DefaultInterval
    {
      this.url := url;
      this.refreshInterval := DefaultInterval;
    }

    /**
     * `start_auto_refresh`: nothing is entered unless the driver starts and
     * the page loads. Each pass waits the interval and refreshes, counting
     * only a successful refresh and waiting five more seconds after a
     * failed one. A negative interval makes the first `time.sleep` raise,
     * which ends the loop at once. `oks` holds each refresh's result until
     * the user interrupts.
     */
    method StartAutoRefresh(setupOk: bool, loadOk: bool, oks: seq<bool>) returns (entered: bool, refreshCount: nat, waited: int)
      ensures entered == (setupOk && loadOk)
      ensures entered && refreshInterval >= 0 ==> refreshCount == CountTrue(oks) && waited == Waited(refreshInterval, oks)
      ensures !entered || refreshInterval < 0 ==> refreshCount == 0 && waited == 0
    {
      refreshCount, waited := 0, 0;
      if !setupOk || !loadOk {
        return false, 0, 0;
      }
      entered := true;
      if refreshInterval < 0 {
        return;
      }
      var i := 0;
      while i < |oks|
        invariant 0 <= i <= |oks|
        invariant refreshCount == CountTrue(oks[..i]) && waited == Waited(refreshInterval, oks[..i])
      {
        assert oks[..i + 1][..i] == oks[..i];
        waited := waited + refreshInterval;
        if oks[i] {
          refreshCount := refreshCount + 1;
        } else {
          waited := waited + FailureWait;
        }
        i := i + 1;
      }
      assert oks[..i] == oks;
    }
  }

  /** A run's refresh count never exceeds its passes, and every failure costs exactly five extra seconds. */
  lemma RefreshAccounting(interval: int, oks: seq<bool>)
    requires interval >= 0
    ensures CountTrue(oks) <= |oks|
    ensures Waited(interval, oks) == |oks| * interval + 5 * (|oks| - CountTrue(oks))
    ensures Waited(interval, oks + [false]) == Waited(interval, oks) + interval + 5
    ensures CountTrue(oks + [false]) == CountTrue(oks)
  {
    WaitedTotal(interval, oks);
    CountTrueAppend(oks, false);
    assert (oks + [false])[..|oks + [false]| - 1] == oks;
  }

  /**
   * `main`: the prompts, then a refresher for the answers. When the
   * answers run out, `input()` raises and nothing starts.
   */
  method RunScript(urlLines: seq<string>, intervals: seq<Prompts.IntervalAnswer>, setupOk: bool, loadOk: bool, oks: seq<bool>)
    returns (started: bool, refreshCount: nat)
    ensures var url := Prompts.UrlAnswer(urlLines, false);
      var seconds := Prompts.IntervalSeconds(intervals, DefaultMinutes);
      started <==> url.Some? && seconds.Some? && setupOk && loadOk
    ensures started ==> refreshCount == CountTrue(oks)
    ensures !started ==> refreshCount == 0
  {
    var url, seconds := Prompts.GetUserInput(urlLines, false, intervals, DefaultMinutes);
    if url.None? || seconds.None? {
      return false, 0;
    }
    Prompts.IntervalSecondsProps(intervals, DefaultMinutes);
    var refresher := new WebPageRefresher(url.value, seconds.value);
    var waited;
    started, refreshCount, waited := refresher.StartAutoRefresh(setupOk, loadOk, oks);
  }

  /** A blank interval answer gives the same five minutes as the constructor default. */
  lemma BlankIntervalIsDefault(rest: seq<Prompts.IntervalAnswer>)
    ensures Prompts.IntervalSeconds([Prompts.Blank] + rest, DefaultMinutes) == Some(DefaultInterval)
  {
    Prompts.IntervalSecondsProps([Prompts.Blank] + rest, DefaultMinutes);
  }
}
