/**
 * `naukri_job_apply_simple.py`: walks the first job cards of a search page,
 * picks an apply button per card and clicks it by script, up to a number
 * of applications.
 */
module JobApplySimple {
  import opened Common
  import opened Browser

  const TitleSelector: string := ".title a, .jobTupleHeader a, .job-title a"

  const UnknownJob: string := "Unknown Job"

  const ApplySelectors: seq<string> := [
    ".apply-button", ".btn-apply", "[data-ga-track='Apply']", ".applyButton",
    "button[title*='Apply']", "a[title*='Apply']"]

  const SubmitSelectors: seq<string> := [
    "button[type='submit']", ".btn-submit", ".submit-btn", "input[type='submit']"]

  // ---------------------------------------------------------------------
  // Title

  /** The card's title text, or "Unknown Job" when the lookup or the text read raises. */
  function JobTitle(card: Page): string
  {
    FirstText(card, Css([TitleSelector])).GetOr(UnknownJob)
  }

  lemma JobTitleCases(card: Page)
    ensures var loc := Locator(CssSelector, TitleSelector);
      var e := FindElement(card, loc);
      JobTitle(card) == if e.Some? && !e.value.stale then Text.Strip(e.value.text) else UnknownJob
  {
    var locs := Css([TitleSelector]);
    assert locs[0] == Locator(CssSelector, TitleSelector);
    assert locs[1..] == [];
    assert FirstText(card, locs[1..]) == None;
  }

  // ---------------------------------------------------------------------
  // Apply button selection

  /**
   * The selector loop that assigns `apply_button`: a query that raises
   * leaves the variable as it was, a found element is assigned, and the
   * loop stops at the first one whose `is_displayed()` answers True (a
   * probe that raises moves on with the element still assigned).
   */
  function ChooseFrom(card: Page, locs: seq<Locator>, carried: Option<WebElement>): Option<WebElement>
  {
    if locs == [] then carried
    else match FindElement(card, locs[0])
      case None => ChooseFrom(card, locs[1..], carried)
      case Some(e) =>
        if !e.stale && e.displayed then Some(e) else ChooseFrom(card, locs[1..], Some(e))
  }

  method ChooseApplyButton(card: Page) returns (button: Option<WebElement>)
    ensures button == ChooseFrom(card, Css(ApplySelectors), None)
  {
    var locs := Css(ApplySelectors);
    button := None;
    var i := 0;
    while i < |locs|
      invariant 0 <= i <= |locs|
      invariant ChooseFrom(card, locs, None) == ChooseFrom(card, locs[i..], button)
    {
      assert locs[i..][1..] == locs[i + 1..];
      var found := FindElement(card, locs[i]);
      if found.Some? {
        button := found;
        if !found.value.stale && found.value.displayed {
          return;
        }
      }
      i := i + 1;
    }
    assert locs[i..] == [];
  }

  /** The first element of each locator that has one, in locator order. */
  function Matches(card: Page, locs: seq<Locator>): seq<WebElement>
  {
    if locs == [] then []
    else match FindElement(card, locs[0])
      case None => Matches(card, locs[1..])
      case Some(e) => [e] + Matches(card, locs[1..])
  }

  /** Reports displayed without raising. */
  predicate Shown(e: WebElement)
  {
    !e.stale && e.displayed
  }

  function FirstShown(es: seq<WebElement>): Option<WebElement>
  {
    if es == [] then None else if Shown(es[0]) then Some(es[0]) else FirstShown(es[1..])
  }

  /**
   * The selection quirk stated independently of the loop: the first
   * displayed match in selector order; with none displayed, the match of
   * the last selector that matched; with no match at all, what was there
   * before.
   */
  lemma {:induction false} ChooseMeaning(card: Page, locs: seq<Locator>, carried: Option<WebElement>)
    ensures var ms := Matches(card, locs);
      ChooseFrom(card, locs, carried) ==
        if FirstShown(ms).Some? then FirstShown(ms)
        else if ms == [] then carried
        else Some(ms[|ms| - 1])
  {
    if locs != [] {
      var e := FindElement(card, locs[0]);
      if e.Some? {
        ChooseMeaning(card, locs[1..], Some(e.value));
      } else {
        ChooseMeaning(card, locs[1..], carried);
      }
    }
  }

  /** The button is None exactly when no selector matched at all. */
  lemma ApplyButtonNone(card: Page)
    ensures ChooseFrom(card, Css(ApplySelectors), None).None? <==> Matches(card, Css(ApplySelectors)) == []
  {
    ChooseMeaning(card, Css(ApplySelectors), None);
    var ms := Matches(card, Css(ApplySelectors));
    if ms != [] && FirstShown(ms).None? {
      assert Some(ms[|ms| - 1]).Some?;
    }
  }

  // ---------------------------------------------------------------------
  // Popup

  /**
   * `handle_apply_popup`: `find_element` per submit selector, clicking the
   * first displayed match; a raising query, probe or click moves on.
   */
  method HandleApplyPopup(page: Page) returns (clicked: Option<WebElement>)
    ensures clicked == FirstActionable(page, Css(SubmitSelectors), false)
  {
    clicked := ActOnFirst(page, Css(SubmitSelectors), false);
  }

  // ---------------------------------------------------------------------
  // The card loop

  /**
   * One card as the browser answers for it: whether the scroll script ran,
   * the card's subtree, and the page once the apply button was clicked.
   */
  datatype Card = Card(scrollOk: bool, content: Page, afterClick: Page)

  /** The card counts as applied: scrolled, a button chosen, and its script click went through. */
  predicate Applies(c: Card)
  {
    var b := ChooseFrom(c.content, Css(ApplySelectors), None);
    c.scrollOk && b.Some? && b.value.scriptable
  }

  function Outcomes(cards: seq<Card>): (r: seq<bool>)
    ensures |r| == |cards|
    ensures forall i :: 0 <= i < |cards| ==> r[i] == Applies(cards[i])
  {
    if cards == [] then [] else [Applies(cards[0])] + Outcomes(cards[1..])
  }

  /**
   * The applied counter after the remaining outcomes, starting from
   * `applied`; the loop breaks as soon as the counter reaches `max`.
   */
  function Applied(applied: nat, max: int, oks: seq<bool>): nat
    decreases |oks|
  {
    if oks == [] || applied >= max then applied
    else Applied(applied + (if oks[0] then 1 else 0), max, oks[1..])
  }

  /**
   * The counter never passes the cap when it starts below it, grows only
   * on successful cards, and counts every success while the cap cannot be
   * reached early.
   */
  lemma {:induction false} AppliedBounds(applied: nat, max: int, oks: seq<bool>)
    ensures applied <= Applied(applied, max, oks) <= applied + CountTrue(oks)
    ensures applied <= max ==> Applied(applied, max, oks) <= max
    ensures applied + |oks| <= max ==> Applied(applied, max, oks) == applied + CountTrue(oks)
    decreases |oks|
  {
    if oks != [] {
      assert oks == [oks[0]] + oks[1..];
      CountTruePrepend(oks[0], oks[1..]);
      if applied < max {
        AppliedBounds(applied + (if oks[0] then 1 else 0), max, oks[1..]);
      }
    }
  }

  /** From a fresh run, the applications are exactly the successful cards among the first `max`. */
  lemma FreshRunCountsSuccesses(cards: seq<Card>, max: int)
    ensures var n := SliceLength(|cards|, max);
      Applied(0, max, Outcomes(cards[..n])) == (if max >= 0 then CountTrue(Outcomes(cards[..n])) else 0)
  {
    var n := SliceLength(|cards|, max);
    if max >= 0 {
      AppliedBounds(0, max, Outcomes(cards[..n]));
    }
  }

  class SimpleJobApply {
    var appliedCount: nat
    var foundCount: nat

    constructor ()
      ensures appliedCount == 0 && foundCount == 0
    {
      appliedCount := 0;
      foundCount := 0;
    }

    /**
     * One card: scroll, read the title, choose a button and click it by
     * script, then handle the popup. `ok` says whether it counts.
     */
    method ProcessCard(c: Card) returns (title: string, button: Option<WebElement>, ok: bool)
      ensures c.scrollOk ==> title == JobTitle(c.content) && button == ChooseFrom(c.content, Css(ApplySelectors), None)
      ensures ok == Applies(c)
    {
      title, button, ok := "", None, false;
      if !c.scrollOk {
        return;
      }
      title := FirstText(c.content, Css([TitleSelector])).GetOr(UnknownJob);
      button := ChooseApplyButton(c.content);
      if button.Some? && button.value.scriptable {
        var _ := HandleApplyPopup(c.afterClick);
        ok := true;
      }
    }

    /**
     * `find_and_apply_jobs`: with no cards nothing changes; otherwise
     * `found_count` becomes the number of cards and the counter advances
     * over the first `max` cards, stopping at the cap.
     */
    method FindAndApplyJobs(cards: seq<Card>, max: int)
      modifies this
      ensures cards == [] ==> appliedCount == old(appliedCount) && foundCount == old(foundCount)
      ensures cards != [] ==> foundCount == |cards|
      ensures cards != [] ==> appliedCount == Applied(old(appliedCount), max, Outcomes(cards[..SliceLength(|cards|, max)]))
    {
      if cards == [] {
        return;
      }
      foundCount := |cards|;
      var todo := cards[..SliceLength(|cards|, max)];
      ghost var oks := Outcomes(todo);
      ghost var start := appliedCount;
      var i := 0;
      while i < |todo|
        invariant 0 <= i <= |todo|
        invariant foundCount == |cards|
        invariant Applied(start, max, oks) == Applied(appliedCount, max, oks[i..])
      {
        assert oks[i..][1..] == oks[i + 1..];
        if appliedCount >= max {
          return;
        }
        var _, _, ok := ProcessCard(todo[i]);
        if ok {
          appliedCount := appliedCount + 1;
        }
        i := i + 1;
      }
      assert oks[i..] == [];
    }
  }
}
