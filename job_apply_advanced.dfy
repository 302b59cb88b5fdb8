/**
 * `naukri_job_apply_advanced.py`: reads job cards from a search result
 * page, decides which jobs suit an iOS developer with one to four years of
 * experience, applies to them, and fills and submits application forms.
 */
module JobApplyAdvanced {
  import opened Common
  import opened Text
  import opened Browser

  // ---------------------------------------------------------------------
  // Job information read from a card

  datatype JobInfo = JobInfo(title: string, company: string, location: string, experience: string, postedDate: string)

  const TitleSelectors: seq<string> := [
    "a[data-jid]", "a[href*='/job-listings-']", "a[href*='/jobs-']", ".styles_jd__job-title__rZ4Xy a",
    ".styles_jhc__job-title__2s2pY a", "[class*='job-title'] a", "a[data-job-title]", ".title a",
    ".jobTupleHeader a", ".job-title a", "h3 a", "h4 a"]
  const CompanySelectors: seq<string> := [
    ".styles_jhc__company-name__2dD8V", ".styles_jd__company-name__1bM3z", "[class*='company-name']",
    "[class*='companyName']", ".subTitle a", ".companyInfo .ellipsis", ".comp-name a", "[data-company-name]"]
  const LocationSelectors: seq<string> := [".locWdth, .location, .job-location, [data-job-location]"]
  const ExperienceSelectors: seq<string> := [".expwdth, .experience, .job-experience, [data-job-experience]"]
  const DateSelectors: seq<string> := [".jobTupleFooter .fleft, .posted-date, .job-posted-date, [data-posted-date]"]

  const UnknownJob: string := "Unknown Job"

  /** One field of `extract_job_info`: the first selector that answers, else the default. */
  function Field(card: Page, sels: seq<string>, default: string): string
  {
    FirstText(card, Css(sels)).GetOr(default)
  }

  /** What `extract_job_info` reads from a card. */
  function JobInfoOf(card: Page): JobInfo
  {
    JobInfo(
      Field(card, TitleSelectors, UnknownJob),
      Field(card, CompanySelectors, "Unknown Company"),
      Field(card, LocationSelectors, "Unknown Location"),
      Field(card, ExperienceSelectors, "Not specified"),
      Field(card, DateSelectors, "Unknown"))
  }

  /** The `for selector in selectors: try: ... break` loop behind one field. */
  method ReadField(card: Page, sels: seq<string>, default: string) returns (value: string)
    ensures value == Field(card, sels, default)
  {
    var locs := Css(sels);
    value := default;
    var i := 0;
    while i < |locs|
      invariant 0 <= i <= |locs|
      invariant FirstText(card, locs) == FirstText(card, locs[i..])
    {
      assert locs[i..][1..] == locs[i + 1..];
      var found := FindElement(card, locs[i]);
      if found.Some? && !found.value.stale {
        return Text.Strip(found.value.text);
      }
      i := i + 1;
    }
  }

  method ExtractJobInfo(card: Page) returns (info: JobInfo)
    ensures info == JobInfoOf(card)
  {
    var title := ReadField(card, TitleSelectors, UnknownJob);
    var company := ReadField(card, CompanySelectors, "Unknown Company");
    var location := ReadField(card, LocationSelectors, "Unknown Location");
    var experience := ReadField(card, ExperienceSelectors, "Not specified");
    var posted := ReadField(card, DateSelectors, "Unknown");
    info := JobInfo(title, company, location, experience, posted);
  }

  /** A field falls back to its default exactly when no selector's element could be read. */
  lemma {:induction false} FieldDefault(card: Page, locs: seq<Locator>)
    ensures FirstText(card, locs).None? <==>
      forall k :: 0 <= k < |locs| ==> FindElement(card, locs[k]).None? || FindElement(card, locs[k]).value.stale
  {
    if locs != [] {
      FirstTextDefault(card, locs);
    }
  }

  lemma {:induction false} FirstTextDefault(card: Page, locs: seq<Locator>)
    requires locs != []
    ensures FirstText(card, locs).None? <==>
      forall k :: 0 <= k < |locs| ==> FindElement(card, locs[k]).None? || FindElement(card, locs[k]).value.stale
  {
    if |locs| > 1 {
      FirstTextDefault(card, locs[1..]);
    }
    assert forall k :: 1 <= k < |locs| ==> locs[k] == locs[1..][k - 1];
  }

  /** On a card that answers nothing, every field takes its default. */
  lemma EmptyCardDefaults()
    ensures JobInfoOf(map[]) == JobInfo(UnknownJob, "Unknown Company", "Unknown Location", "Not specified", "Unknown")
  {
    FieldDefault(map[], Css(TitleSelectors));
    FieldDefault(map[], Css(CompanySelectors));
    FieldDefault(map[], Css(LocationSelectors));
    FieldDefault(map[], Css(ExperienceSelectors));
    FieldDefault(map[], Css(DateSelectors));
  }

  // ---------------------------------------------------------------------
  // Experience text

  predicate IsDigit(c: char)
  {
    '0' <= c <= '9'
  }

  /** Length of the run of digits at the start of `s`. */
  function LeadingDigits(s: string): (n: nat)
    ensures n <= |s|
    ensures forall i :: 0 <= i < n ==> IsDigit(s[i])
    ensures n < |s| ==> !IsDigit(s[n])
  {
    if s == [] || !IsDigit(s[0]) then 0 else 1 + LeadingDigits(s[1..])
  }

  predicate AllDigits(d: string)
  {
    forall i :: 0 <= i < |d| ==> IsDigit(d[i])
  }

  predicate NoDigits(s: string)
  {
    forall i :: 0 <= i < |s| ==> !IsDigit(s[i])
  }

  /** `re.findall(r'\d+', s)`: the maximal runs of digits, left to right. */
  function DigitRuns(s: string): (runs: seq<string>)
    ensures forall k :: 0 <= k < |runs| ==> runs[k] != [] && AllDigits(runs[k])
    decreases |s|
  {
    if s == [] then []
    else if IsDigit(s[0]) then
      var n := LeadingDigits(s);
      [s[..n]] + DigitRuns(s[n..])
    else DigitRuns(s[1..])
  }

  /** `int(d)` for a run of decimal digits. */
  function ParseNat(d: string): nat
    requires AllDigits(d)
  {
    if d == [] then 0 else 10 * ParseNat(d[..|d| - 1]) + (d[|d| - 1] as int - '0' as int)
  }

  /** The experience range as the first and last number in the text. */
  function ExperienceRange(experience: string): Option<(nat, nat)>
  {
    var runs := DigitRuns(experience);
    if runs == [] then None
    else
      var lo := ParseNat(runs[0]);
      var hi := if |runs| > 1 then ParseNat(runs[|runs| - 1]) else lo;
      Some((lo, hi))
  }

  /** The experience test on the lower-cased text: the stated range meets 1 to 4 years. */
  predicate ExperienceFits(experience: string)
  {
    if experience != [] && experience != "not specified" then
      match ExperienceRange(experience)
      case None => true
      case Some((lo, hi)) => lo <= 4 && hi >= 1
    else true
  }

  /** Text without digits, empty text and "not specified" never rule a job out. */
  lemma ExperienceWithoutNumbers(experience: string)
    requires NoDigits(experience)
    ensures ExperienceFits(experience)
  {
    NoDigitsNoRuns(experience);
  }

  lemma {:induction false} NoDigitsNoRuns(s: string)
    requires NoDigits(s)
    ensures DigitRuns(s) == []
    decreases |s|
  {
    if s != [] {
      NoDigitsNoRuns(s[1..]);
    }
  }

  /** The runs of a number followed by more text begin with that number. */
  lemma {:induction false} DigitRunsPrefix(d: string, rest: string)
    requires d != [] && AllDigits(d) && (rest == [] || !IsDigit(rest[0]))
    ensures DigitRuns(d + rest) == [d] + DigitRuns(rest)
  {
    var s := d + rest;
    LeadingDigitsOf(d, rest);
    assert s[..|d|] == d && s[|d|..] == rest;
  }

  lemma {:induction false} LeadingDigitsOf(d: string, rest: string)
    requires AllDigits(d) && (rest == [] || !IsDigit(rest[0]))
    ensures LeadingDigits(d + rest) == |d|
    decreases |d|
  {
    if d != [] {
      assert (d + rest)[1..] == d[1..] + rest;
      LeadingDigitsOf(d[1..], rest);
    } else {
      assert d + rest == rest;
    }
  }

  /**
   * A text "lo<sep>hi<rest>" whose separator and tail hold no digits, such
   * as "2-5 yrs", has `lo` and `hi` as its range.
   */
  lemma RangeText(lo: string, sep: string, hi: string, rest: string)
    requires lo != [] && AllDigits(lo) && hi != [] && AllDigits(hi)
    requires sep != [] && NoDigits(sep) && NoDigits(rest)
    ensures ExperienceRange(lo + sep + hi + rest) == Some((ParseNat(lo), ParseNat(hi)))
  {
    var s := lo + sep + hi + rest;
    RangeRuns(lo, sep, hi, rest);
    RangeOfRuns(s, lo, hi);
  }

  lemma RangeRuns(lo: string, sep: string, hi: string, rest: string)
    requires lo != [] && AllDigits(lo) && hi != [] && AllDigits(hi)
    requires sep != [] && NoDigits(sep) && NoDigits(rest)
    ensures DigitRuns(lo + sep + hi + rest) == [lo] + [hi]
  {
    var tail := sep + hi + rest;
    RangeTail(sep, hi, rest);
    assert tail[0] == sep[0];
    DigitRunsPrefix(lo, tail);
    assert lo + sep + hi + rest == lo + tail;
  }

  /** The runs of "<sep>hi<rest>" are just `hi`. */
  lemma RangeTail(sep: string, hi: string, rest: string)
    requires hi != [] && AllDigits(hi) && NoDigits(sep) && NoDigits(rest)
    ensures DigitRuns(sep + hi + rest) == [hi]
  {
    assert rest == [] || !IsDigit(rest[0]);
    DigitRunsPrefix(hi, rest);
    NoDigitsNoRuns(rest);
    NoDigitsBefore(sep, hi + rest);
    assert sep + hi + rest == sep + (hi + rest);
  }

  lemma {:induction false} NoDigitsBefore(sep: string, s: string)
    requires NoDigits(sep)
    ensures DigitRuns(sep + s) == DigitRuns(s)
    decreases |sep|
  {
    if sep != [] {
      assert (sep + s)[1..] == sep[1..] + s;
      NoDigitsBefore(sep[1..], s);
    } else {
      assert sep + s == s;
    }
  }

  lemma RangeOfRuns(s: string, lo: string, hi: string)
    requires AllDigits(lo) && AllDigits(hi) && DigitRuns(s) == [lo] + [hi]
    ensures ExperienceRange(s) == Some((ParseNat(lo), ParseNat(hi)))
  {
  }

  // ---------------------------------------------------------------------
  // Suitability

  const AdvIosTerms: seq<string> := [
    "ios", "iphone", "swift", "objective-c", "xcode", "mobile app", "mobile application",
    "mobile developer", "app developer", "mobile development"]
  const AdvExcludeTerms: seq<string> := [
    "android only", "backend only", "devops", "data scientist", "data analyst", "manual testing only"]
  const RecentTerms: seq<string> := [
    "few minutes", "minutes ago", "hour ago", "hours ago", "today", "1 day", "2 days", "3 days",
    "4 days", "5 days", "6 days", "7 days"]

  /** The unused `is_recent` flag that `is_suitable_job` computes and prints. */
  predicate IsRecent(info: JobInfo)
  {
    AnyIn(RecentTerms, Lower(info.postedDate))
  }

  predicate HasIosTerm(info: JobInfo)
  {
    AnyIn(AdvIosTerms, Lower(info.title)) || info.title == UnknownJob
  }

  /** `is_suitable_job`. */
  predicate IsSuitableJob(info: JobInfo)
  {
    HasIosTerm(info) && !AnyIn(AdvExcludeTerms, Lower(info.title)) && ExperienceFits(Lower(info.experience))
  }

  /** A card whose title could not be read passes the term test. */
  lemma UnknownTitlePasses(info: JobInfo)
    requires info.title == UnknownJob
    ensures HasIosTerm(info)
  {
  }

  /** The posting date, recent or not, never changes the decision. */
  lemma PostedDateIgnored(info: JobInfo, posted: string)
    ensures IsSuitableJob(info.(postedDate := posted)) == IsSuitableJob(info)
  {
  }

  // ---------------------------------------------------------------------
  // Apply buttons

  const ApplySelectors: seq<string> := [
    "button[data-ga-track*='apply']", "a[data-ga-track*='apply']", "button[data-ga-track*='Apply']",
    "a[data-ga-track*='Apply']", ".styles_apply-button__2mQCg", ".styles_jhc__apply-button__3F_bI",
    "button[class*='apply']", "a[class*='apply']", ".apply-button", ".btn-apply", "[data-ga-track='Apply']",
    ".applyButton", "button[title*='Apply']", "a[title*='Apply']", ".job-apply-btn", "button",
    "a[role='button']", "input[type='submit']", "input[type='button']", ".btn", "[role='button']"]

  /** `(element.get_attribute(name) or '').lower()`. */
  function AttrLower(e: WebElement, name: string): string
  {
    if name in e.attributes then Lower(e.attributes[name]) else []
  }

  const ApplyWord: string := "apply"

  /** The eight `apply_indicators` of `find_apply_buttons`, as written. */
  predicate ApplyIndicated(e: WebElement)
  {
    var t := Lower(Text.Strip(e.text));
    Contains(t, ApplyWord) || Contains(t, "apply now") || t == ApplyWord
      || Contains(AttrLower(e, "title"), ApplyWord) || Contains(AttrLower(e, "aria-label"), ApplyWord)
      || Contains(AttrLower(e, "data-ga-track"), ApplyWord) || Contains(AttrLower(e, "class"), ApplyWord)
      || Contains(AttrLower(e, "id"), ApplyWord)
  }

  /** The indicators reduce to: "apply" occurs, ignoring case, in the text or one of five attributes. */
  lemma ApplyIndicatedIff(e: WebElement)
    ensures ApplyIndicated(e) <==>
      Contains(Lower(e.text), ApplyWord)
      || exists n :: n in ["title", "aria-label", "data-ga-track", "class", "id"] && Contains(AttrLower(e, n), ApplyWord)
  {
    TextIndicators(e.text);
    AttrIndicators(e);
  }

  /** The three text indicators together: "apply" in the lower-cased text. */
  lemma TextIndicators(text: string)
    ensures var t := Lower(Text.Strip(text));
      (Contains(t, ApplyWord) || Contains(t, "apply now") || t == ApplyWord) <==> Contains(Lower(text), ApplyWord)
  {
    var t := Lower(Text.Strip(text));
    ContainsLowerStrip(text, ApplyWord);
    if Contains(t, "apply now") {
      ContainsPrefixWord(t, "apply now", ApplyWord);
    }
    if t == ApplyWord {
      ContainsSelf(ApplyWord);
    }
  }

  lemma AttrIndicators(e: WebElement)
    ensures (Contains(AttrLower(e, "title"), ApplyWord) || Contains(AttrLower(e, "aria-label"), ApplyWord)
      || Contains(AttrLower(e, "data-ga-track"), ApplyWord) || Contains(AttrLower(e, "class"), ApplyWord)
      || Contains(AttrLower(e, "id"), ApplyWord))
      <==> exists n :: n in ["title", "aria-label", "data-ga-track", "class", "id"] && Contains(AttrLower(e, n), ApplyWord)
  {
    var names := ["title", "aria-label", "data-ga-track", "class", "id"];
    if exists n :: n in names && Contains(AttrLower(e, n), ApplyWord) {
      var n :| n in names && Contains(AttrLower(e, n), ApplyWord);
      assert n == "title" || n == "aria-label" || n == "data-ga-track" || n == "class" || n == "id";
    }
  }

  /** An element `find_apply_buttons` keeps: displayed, enabled and indicating "apply". */
  predicate IsApplyButton(e: WebElement)
  {
    Usable(e) && ApplyIndicated(e)
  }

  /**
   * `find_apply_buttons`: every selector, every element, appending the apply
   * buttons; an element whose probe raises ends that selector's list.
   */
  method FindApplyButtons(context: Page) returns (buttons: seq<WebElement>)
    ensures buttons == CollectWhere(context, Css(ApplySelectors), IsApplyButton)
    ensures forall e :: e in buttons ==> Usable(e) && ApplyIndicated(e) && e in Candidates(context, Css(ApplySelectors))
  {
    buttons := CollectAll(context, Css(ApplySelectors), IsApplyButton);
    CollectSound(context, Css(ApplySelectors), IsApplyButton);
  }

  /**
   * On a page where no probe raises, the buttons are exactly the usable
   * candidates that indicate "apply", in selector order.
   */
  lemma ApplyButtonsFlat(context: Page)
    requires NoneStale(Candidates(context, Css(ApplySelectors)))
    ensures CollectWhere(context, Css(ApplySelectors), IsApplyButton) == Filter(Candidates(context, Css(ApplySelectors)), IsApplyButton)
  {
    CollectFlat(context, Css(ApplySelectors), IsApplyButton);
  }

  // ---------------------------------------------------------------------
  // Forms

  const SubmitSelectors: seq<string> := [
    "button[type='submit']", "input[type='submit']", ".btn-submit", ".submit-btn",
    "button:contains('Submit')", "button:contains('Apply')", "a:contains('Submit')"]

  /**
   * `fill_form_field`: the first displayed and enabled field, in selector
   * order, that accepts `clear()` and `send_keys(value)` is filled; the
   * returned flag says whether one was.
   */
  method FillFormField(context: Page, selectors: seq<string>, value: string) returns (filled: bool, field: Option<WebElement>)
    ensures field == FirstActionable(context, Css(selectors), true)
    ensures filled <==> field.Some?
  {
    field := ActOnFirst(context, Css(selectors), true);
    filled := field.Some?;
  }

  /** `submit_application_form`: at most one button is clicked, the first that accepts the click. */
  method SubmitApplicationForm(page: Page) returns (submitted: bool, button: Option<WebElement>)
    ensures button == FirstActionable(page, Css(SubmitSelectors), true)
    ensures submitted <==> button.Some?
  {
    button := ActOnFirst(page, Css(SubmitSelectors), true);
    submitted := button.Some?;
  }

  // ---------------------------------------------------------------------
  // The application loop

  const CardSelectors: seq<string> := [
    "article[data-jid]", "div[data-job-id]", "article[data-job-id]", ".srp-jobtuple-wrapper", ".jobTuple",
    ".job-tuple", ".cust-job-tuple", ".styles_jhc__job-tuple__jAWS4", "[class*='job-tuple']", "[class*='jobTuple']"]

  /** Job cards: the list of the first selector, in order, that returns a non-empty list. */
  function FirstNonEmpty(page: Page, locs: seq<Locator>): (cards: seq<WebElement>)
  {
    if locs == [] then []
    else if locs[0] in page && page[locs[0]] != [] then page[locs[0]]
    else FirstNonEmpty(page, locs[1..])
  }

  method FindJobCards(page: Page) returns (cards: seq<WebElement>)
    ensures cards == FirstNonEmpty(page, Css(CardSelectors))
  {
    var locs := Css(CardSelectors);
    var i := 0;
    while i < |locs|
      invariant 0 <= i <= |locs|
      invariant FirstNonEmpty(page, locs) == FirstNonEmpty(page, locs[i..])
    {
      assert locs[i..][1..] == locs[i + 1..];
      if locs[i] in page && page[locs[i]] != [] {
        return page[locs[i]];
      }
      i := i + 1;
    }
    return [];
  }

  /** The cards come from the first selector with a non-empty answer; earlier ones gave nothing. */
  lemma {:induction false} FirstNonEmptyIsFirst(page: Page, locs: seq<Locator>)
    ensures var cards := FirstNonEmpty(page, locs);
      (cards != [] ==> exists k :: 0 <= k < |locs| && locs[k] in page && cards == page[locs[k]]
                         && forall j :: 0 <= j < k ==> locs[j] !in page || page[locs[j]] == [])
      && (cards == [] ==> forall k :: 0 <= k < |locs| ==> locs[k] !in page || page[locs[k]] == [])
  {
    if locs != [] {
      FirstNonEmptyIsFirst(page, locs[1..]);
      var cards := FirstNonEmpty(page, locs);
      if !(locs[0] in page && page[locs[0]] != []) {
        if cards != [] {
          var k :| 0 <= k < |locs[1..]| && locs[1..][k] in page && cards == page[locs[1..][k]]
                   && forall j :: 0 <= j < k ==> locs[1..][j] !in page || page[locs[1..][j]] == [];
          assert locs[k + 1] == locs[1..][k];
          forall j | 0 <= j < k + 1 ensures locs[j] !in page || page[locs[j]] == [] {
            if j > 0 {
              assert locs[j] == locs[1..][j - 1];
            }
          }
        } else {
          forall k | 0 <= k < |locs| ensures locs[k] !in page || page[locs[k]] == [] {
            if k > 0 {
              assert locs[k] == locs[1..][k - 1];
            }
          }
        }
      }
    }
  }

  /**
   * What the browser does with one card: whether its scroll script
   * succeeds, the card's subtree, and whether `apply_to_job` returned True.
   */
  datatype CardRun = CardRun(scrollOk: bool, card: Page, applyResult: bool)

  /** How the loop body ends for one card. */
  datatype CardStep = Unscrolled | Unsuitable | Attempted(applied: bool)

  function StepOf(r: CardRun): CardStep
  {
    if !r.scrollOk then Unscrolled
    else if IsSuitableJob(JobInfoOf(r.card)) then Attempted(r.applyResult)
    else Unsuitable
  }

  function Steps(runs: seq<CardRun>): (steps: seq<CardStep>)
    ensures |steps| == |runs|
    ensures forall k :: 0 <= k < |runs| ==> steps[k] == StepOf(runs[k])
  {
    if runs == [] then [] else [StepOf(runs[0])] + Steps(runs[1..])
  }

  /** The loop body up to the counters: scroll, read the card, judge it, apply. */
  method JudgeCard(r: CardRun) returns (step: CardStep)
    ensures step == StepOf(r)
  {
    if !r.scrollOk {
      return Unscrolled;
    }
    var info := ExtractJobInfo(r.card);
    if IsSuitableJob(info) {
      return Attempted(r.applyResult);
    }
    return Unsuitable;
  }

  datatype Counters = Counters(applied: nat, found: nat, skipped: nat)

  function Count(c: Counters, step: CardStep): Counters
  {
    match step
    case Unscrolled => c
    case Attempted(true) => c.(applied := c.applied + 1)
    case _ => c.(skipped := c.skipped + 1)
  }

  /**
   * The `for job_card in job_cards[:max_applications * 2]` loop from
   * counters `c` with `n` cards examined so far: final counters and the
   * number of cards examined.
   */
  function ProcessCards(c: Counters, n: nat, max: int, steps: seq<CardStep>): (Counters, nat)
    decreases |steps|
  {
    if steps == [] || c.applied >= max then (c, n)
    else ProcessCards(Count(c, steps[0]), n + 1, max, steps[1..])
  }

  /** Number of cards whose scroll succeeded. */
  function CountScrolled(steps: seq<CardStep>): nat
  {
    if steps == [] then 0 else (if steps[0].Unscrolled? then 0 else 1) + CountScrolled(steps[1..])
  }

  /**
   * The loop examines no more cards than it is given, never lifts
   * `applied_count` past `max_applications` from below it, leaves
   * `found_count` alone, and each examined card whose scroll succeeded moved
   * exactly one of `applied_count` / `skipped_count`.
   */
  lemma {:induction false} ProcessCardsBounds(c: Counters, n: nat, max: int, steps: seq<CardStep>)
    ensures var (c', n') := ProcessCards(c, n, max, steps);
      n <= n' <= n + |steps|
      && (c.applied <= max ==> c'.applied <= max)
      && c.applied <= c'.applied && c.skipped <= c'.skipped && c'.found == c.found
      && (c'.applied - c.applied) + (c'.skipped - c.skipped) == CountScrolled(steps[..n' - n])
    decreases |steps|
  {
    if steps != [] && c.applied < max {
      ProcessCardsBounds(Count(c, steps[0]), n + 1, max, steps[1..]);
      var (c2, n2) := ProcessCards(Count(c, steps[0]), n + 1, max, steps[1..]);
      assert steps[..n2 - n][1..] == steps[1..][..n2 - n - 1];
    } else {
      assert steps[..0] == [];
    }
  }

  /** The script object's counters. */
  class AdvancedJobApply {
    var appliedCount: nat
    var foundCount: nat
    var skippedCount: nat

    constructor ()
      ensures appliedCount == 0 && foundCount == 0 && skippedCount == 0
    {
      appliedCount, foundCount, skippedCount := 0, 0, 0;
    }

    function Snapshot(): Counters
      reads this
    {
      Counters(appliedCount, foundCount, skippedCount)
    }

    /**
     * `find_and_apply_jobs`: the cards of the first card selector that
     * answers; nothing changes when there are none; otherwise `found_count`
     * is their number and the first `2 * max_applications` are examined.
     * `runs` holds the browser's answers for each card.
     */
    method FindAndApplyJobs(page: Page, max: int, runs: seq<CardRun>) returns (examined: nat)
      requires |runs| == |FirstNonEmpty(page, Css(CardSelectors))|
      modifies this
      ensures var cards := FirstNonEmpty(page, Css(CardSelectors));
        if cards == [] then Snapshot() == old(Snapshot()) && examined == 0
        else (Snapshot(), examined) == ProcessCards(old(Snapshot()).(found := |cards|), 0, max, Steps(runs[..SliceLength(|cards|, 2 * max)]))
    {
      var cards := FindJobCards(page);
      if cards == [] {
        return 0;
      }
      foundCount := |cards|;
      examined := ExamineCards(runs[..SliceLength(|cards|, 2 * max)], max);
    }

    /** One examined card: judge it and move the counter its step names. */
    method CountCard(todo: seq<CardRun>, i: nat)
      requires i < |todo|
      modifies this
      ensures Snapshot() == Count(old(Snapshot()), Steps(todo)[i])
    {
      var step := JudgeCard(todo[i]);
      var c := Count(Snapshot(), step);
      appliedCount, skippedCount := c.applied, c.skipped;
    }

    /** The loop over the examined cards, stopping once `max` applications were made. */
    method ExamineCards(todo: seq<CardRun>, max: int) returns (examined: nat)
      modifies this
      ensures (Snapshot(), examined) == ProcessCards(old(Snapshot()), 0, max, Steps(todo))
    {
      ghost var steps := Steps(todo);
      ghost var start := Snapshot();
      examined := 0;
      var i := 0;
      while i < |todo|
        invariant 0 <= i <= |todo|
        invariant examined == i
        invariant ProcessCards(start, 0, max, steps) == ProcessCards(Snapshot(), examined, max, steps[i..])
      {
        assert steps[i..][1..] == steps[i + 1..];
        if appliedCount >= max {
          break;
        }
        examined := examined + 1;
        CountCard(todo, i);
        i := i + 1;
      }
    }
  }
}
