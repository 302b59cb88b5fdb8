# Naukri profile and job automation: a verified model

The repository is a set of automation scripts with one browser extension.

- **Browser_Auto_Refresh_Script Python scripts** drive a browser through Selenium:
  - `auto_refresh.py` and `auto_refresh_advanced.py` reload a page at an interval;
  - `naukri_auto_activity.py`, `naukri_session_activity.py` and `naukri_stealth_activity.py` keep a Naukri profile "active" by clicking Edit and then Save at an interval;
  - `naukri_job_apply_simple.py`, `naukri_job_apply_advanced.py` and `naukri_job_auto_apply.py` walk job search results and apply to suitable jobs.
- **The Chrome extension under `browser_extension/`** has three parts:
  - a background service worker that schedules the activity and keeps statistics;
  - a content script that finds the buttons and clicks them;
  - a popup that shows the state.

This project models the decision logic inside those browser calls. The browser itself is an oracle:

- A page is a map from locators to the element lists `find_elements` returns. A locator the page has no entry for makes the query raise.
- An element carries the flags the scripts probe:
  - `is_displayed` and `is_enabled`;
  - `stale`: any probe raises;
  - `interactable`: a native click or `send_keys` works;
  - `scriptable`: a script click works.
- The user's answers to the prompts are a finite list of lines. When the list runs out, `input()` raises.
- A `while True` loop runs over a finite sequence of per-cycle browser answers, standing for the cycles before Ctrl+C.
- Times, random picks and the randomised intervals are parameters.
- The extension's storage areas, its variables and its single alarm are fields of a class.

The model is organised as follows:

- **Shared modules:**
  - `Common` (Option, counting, sums, slices);
  - `Text` (Python string operations on `seq<char>`);
  - `Browser` (the Selenium oracle and the lookup patterns every script repeats);
  - `Prompts` (the URL and interval prompts).
- **One module per core file:** `AutoRefresh`, `AutoRefreshAdvanced`, `AutoActivity`, `SessionActivity`, `StealthActivity`, `JobApplySimple`, `JobApplyAdvanced`, `JobAutoApply`, `Background`, `Content` and `Popup`.

Loops in the source are Dafny `while` loops proved against recursive specification functions, and the properties are lemmas about those functions. Objects whose fields the source updates are Dafny classes:

- the refreshers;
- the job-apply objects;
- the auto-apply ledger;
- the extension worker;
- the popup view.

## Model

| member | source | states |
|---|---|---|
| Common.SliceLength | naukri_job_apply_simple.py:79 | `len(xs[:m])`: never more than the list, never more than a non-negative `m`, and equal to one of the two |
| Text.IndexOf | naukri_job_auto_apply.py:254-261 | `str.find`: present exactly when the word occurs; the index found is an occurrence and no earlier one exists |
| Text.SplitJoin | naukri_job_auto_apply.py:254-261 | `sep.join(s.split(sep)) == s`: splitting loses nothing |
| Text.SplitPartsAvoidSep | naukri_job_auto_apply.py:254-261 | no part of `s.split(sep)` contains `sep` |
| Text.SplitLastIsSuffix | naukri_job_auto_apply.py:261 | the last part of a split is a suffix of the string that does not contain the separator |
| Text.LastPartIsLast | naukri_job_auto_apply.py:261 | the last-part function is `s.split(sep)[-1]` |
| Text.LastPartSuffix | naukri_job_auto_apply.py:261 | the last part of a split is a suffix of the string that does not contain the separator |
| Text.LastPartAfterSep | naukri_job_auto_apply.py:261 | the last part of a split is the whole string or starts right after an occurrence of the separator |
| Text.ContainsLowerStrip | naukri_job_apply_advanced.py:705-708 | a word without outer spaces occurs in `s.strip().lower()` exactly when it occurs in `s.lower()` |
| Browser.FindElement | naukri_job_apply_simple.py:111-112 | `find_element`: the first element of the locator's list; None exactly where Selenium raises |
| Browser.ScanElements | naukri_auto_activity.py:117-123 | the inner element loop finds a usable element all of whose predecessors were probed without raising and were not usable; None means none was reached |
| Browser.ScanLoop | naukri_auto_activity.py:117-123 | the `for element in elements` loop returns what ScanElements states |
| Browser.FindFirstUsable | naukri_auto_activity.py:114-123 | the selector-then-element lookup returns the first usable element in priority order, or None |
| Browser.FirstUsableSound | naukri_session_activity.py:210-219 | a found element is displayed, enabled and returned by one of the locators |
| Browser.FirstUsableNone | naukri_session_activity.py:210-219 | None only when no locator's scan reached a usable element |
| Browser.FirstUsablePriority | naukri_stealth_activity.py:277-289 | the first locator whose scan succeeds decides; later locators are never consulted |
| Browser.FirstOfAppend | naukri_stealth_activity.py:277-289 | the first usable element of a concatenation comes from the first part when it has one |
| Browser.ScanWithoutStale | naukri_auto_activity.py:117-123 | with no probe raising, the element scan is the first usable element of the list |
| Browser.FirstUsableFlat | naukri_auto_activity.py:114-123 | with no probe raising, the lookup is the first usable element of all candidates in locator order |
| Browser.ActOnFirst | naukri_job_apply_advanced.py:811-822 | the `for selector: try: find_element ... act` loop acts on the first element that is displayed, enabled when required, and accepts the interaction |
| Browser.FirstActionableIsFirst | naukri_job_apply_simple.py:158-167 | at most one element is acted on: the first match of some locator k, with every earlier locator passed over; None means every locator was passed over |
| Browser.KeepLoop | naukri_job_apply_advanced.py:697-725 | the inner collect loop keeps the passing elements in order, stopping at the first probe that raises |
| Browser.CollectAll | naukri_job_apply_advanced.py:694-725 | the outer collect loop appends each locator's contribution in locator order |
| Browser.FilterAppend | naukri_job_apply_advanced.py:694-725 | filtering distributes over concatenation |
| Browser.KeepWithoutStale | naukri_job_apply_advanced.py:697-725 | with no probe raising, one locator's contribution is the plain filter of its list |
| Browser.CollectFlat | naukri_job_apply_advanced.py:694-725 | with no probe raising, a collect-all lookup is exactly the passing candidates in locator order, duplicates kept |
| Browser.NoneStaleSplit | naukri_job_apply_advanced.py:694-725 | no-raise on a concatenation holds on both parts |
| Browser.CollectSound | naukri_job_apply_advanced.py:694-725 | every collected element passed the test and came from one of the locators |
| Browser.KeepSound | naukri_job_apply_advanced.py:697-725 | every element kept from one list passed the test and is in that list |
| Prompts.NormalizeUrl | auto_refresh.py:136-137 | the result always names a scheme; a URL with `http://` or `https://` is unchanged; any other URL gets `https://` prepended |
| Prompts.NormalizeUrlIdempotent | auto_refresh.py:136-137 | normalising twice is normalising once |
| Prompts.NormalizeUrlKeepsUrl | auto_refresh.py:136-137 | the typed URL is kept whole at the end of the normalised one |
| Prompts.FirstAcceptable | naukri_session_activity.py:394-401 | the index of the first answer the prompt accepts, with every earlier answer rejected |
| Prompts.ReadUrl | naukri_session_activity.py:394-401 | the URL prompt returns the first acceptable answer, stripped and normalised, after reading exactly the answers up to it; None after all answers ran out |
| Prompts.FirstAcceptableAt | naukri_session_activity.py:394-401 | an acceptable answer with only rejected answers before it is the one taken |
| Prompts.FirstAcceptableNone | naukri_session_activity.py:394-401 | with every answer rejected, nothing is taken |
| Prompts.UrlAnswerShape | naukri_stealth_activity.py:443-450 | an accepted URL names its scheme, and never starts with `#` where comments are refused |
| Prompts.UrlAnswerSkipsBlank | auto_refresh.py:133-140 | an answer that strips to nothing makes the prompt ask again |
| Prompts.UrlAnswerSkipsComment | naukri_session_activity.py:396-401 | where comments are refused, a `#` answer makes the prompt ask again |
| Prompts.UrlAnswerKeepsComment | naukri_auto_activity.py:246-254 | where comments are allowed, a `#` answer is taken as the URL |
| Prompts.FirstAcceptableSkips | auto_refresh.py:131-140 | a rejected first answer leaves the outcome to the remaining answers |
| Prompts.FirstInterval | auto_refresh.py:143-158 | the index of the answer that ends the interval prompt (blank or positive) with every earlier one non-numeric or not positive |
| Prompts.ReadInterval | auto_refresh.py:143-158 | the interval prompt: a blank answer takes the default, a number that is not positive and a non-number ask again, and the minutes become `int(m * 60)` seconds, truncated |
| Prompts.FirstIntervalAt | auto_refresh.py:143-158 | an ending answer with only re-prompting answers before it is the one taken |
| Prompts.IntervalSecondsProps | auto_refresh.py:143-158 | an accepted interval is never negative; a blank first answer gives the default minutes in seconds |
| Prompts.TinyIntervalIsZero | auto_refresh.py:150-158 | a positive answer below one second's worth of minutes truncates to 0 seconds |
| Prompts.WholeMinutes | auto_refresh.py:150-158 | whole minutes convert to exactly 60 seconds each |
| Prompts.GetUserInput | naukri_session_activity.py:382-420 | `get_user_input`: the URL prompt and then the interval prompt; with no URL there is no interval |
| AutoRefresh.WaitedTotal | auto_refresh.py:95-105 | over n refreshes the loop waits n intervals plus 5 s for each failed refresh |
| AutoRefresh.WebPageRefresher.constructor | auto_refresh.py:25-35 | the refresher keeps the URL and interval it was given |
| AutoRefresh.WebPageRefresher.WithDefaultInterval | auto_refresh.py:25 | without an interval, the refresher waits 300 seconds |
| AutoRefresh.WebPageRefresher.StartAutoRefresh | auto_refresh.py:79-113 | the loop is entered exactly when the driver starts and the page loads; the count is the number of successful refreshes; the wait is the intervals plus 5 s per failure; a negative interval ends the loop at once |
| AutoRefresh.RefreshAccounting | auto_refresh.py:99-105 | the count never exceeds the passes; a failed refresh adds 5 s of waiting and nothing to the count |
| AutoRefresh.RunScript | auto_refresh.py:159-171 | something starts exactly when both prompts give an answer and the driver and page come up; the count is then the successful refreshes |
| AutoRefresh.BlankIntervalIsDefault | auto_refresh.py:143-146 | a blank interval answer gives 300 seconds, the same as the constructor default |
| AutoRefreshAdvanced.EffectiveInterval | auto_refresh_advanced.py:63 | `refresh_interval or default * 60`: None and 0 take 300 seconds; any other value is kept |
| AutoRefreshAdvanced.RetryFrom | auto_refresh_advanced.py:119-138 | the retry loop continued from attempt k; stated by RetryFromMeaning |
| AutoRefreshAdvanced.Retry | auto_refresh_advanced.py:119-138 | the retry loop from the first attempt; stated by RetryMeaning and RetryBudget |
| AutoRefreshAdvanced.RetryFromMeaning | auto_refresh_advanced.py:119-138 | the retry loop continued from attempt k succeeds exactly when some attempt below the limit does; the last attempt made is then the first success; otherwise it makes all the attempts; one delay separates consecutive attempts |
| AutoRefreshAdvanced.RetryMeaning | auto_refresh_advanced.py:119-138 | at most `max_retries + 1` attempts; True at the first success; all attempts made when every one fails; a delay only between attempts, never after the last |
| AutoRefreshAdvanced.RetryBudget | config.py:29-30 | with three retries and a 5 s delay: at most four attempts and 15 s of delay |
| AutoRefreshAdvanced.AdvancedWebPageRefresher.constructor | auto_refresh_advanced.py:54-66 | the refresher takes the effective interval and the configured `max_retries` |
| AutoRefreshAdvanced.AdvancedWebPageRefresher.RetryLoop | auto_refresh_advanced.py:119-138 | the `for attempt in range(max_retries + 1)` loop computes Retry |
| AutoRefreshAdvanced.AdvancedWebPageRefresher.LoadPage | auto_refresh_advanced.py:117-138 | `load_page` is the retry loop over `driver.get` |
| AutoRefreshAdvanced.AdvancedWebPageRefresher.RefreshPage | auto_refresh_advanced.py:140-154 | `refresh_page` is the same retry loop over `driver.refresh` |
| AutoRefreshAdvanced.AdvancedWebPageRefresher.StartAutoRefresh | auto_refresh_advanced.py:156-191 | entered exactly when the driver starts and the page loads within its retries; with a non-negative interval the counter counts only the cycles whose refresh succeeded and the wait is the intervals plus the retry delays; a negative interval makes the first sleep raise, so the run ends with no refresh and no wait |
| AutoRefreshAdvanced.RefreshCount | auto_refresh_advanced.py:171-182 | the number of counted cycles never exceeds the cycles |
| AutoRefreshAdvanced.FailedCycleNotCounted | auto_refresh_advanced.py:176-182 | a cycle whose every attempt fails adds nothing to the counter |
| AutoRefreshAdvanced.RetryWaitsBound | auto_refresh_advanced.py:140-154 | the retry delays add at most 15 s to each cycle |
| AutoRefreshAdvanced.FavoritesOverride | auto_refresh_advanced.py:204 | for any two maps, `{**quick, **favorites}` has the keys of both; a favorite wins on a shared key; a quick URL is kept where no favorite has its key |
| AutoRefreshAdvanced.AllUrls | auto_refresh_advanced.py:204 | the shipped `{**QUICK_URLS, **FAVORITE_URLS}`; used by ShippedChoice, merge stated by FavoritesOverride |
| AutoRefreshAdvanced.QuickUrl | auto_refresh_advanced.py:202-221 | a URL comes back exactly when the stripped choice is a key, and it is the URL listed under that key |
| AutoRefreshAdvanced.ChosenUrlStages | auto_refresh_advanced.py:223-275 | for any default URL and URL map: a non-empty default is asked about and taken exactly on `y`, `yes` or an empty answer; once it is declined, an empty map goes straight to the typed-URL prompt, a chosen key with a non-empty URL wins over the typed URL, and any other choice falls back to the typed URL; the session exists exactly when both the URL and the interval were read |
| AutoRefreshAdvanced.ChosenUrl | auto_refresh_advanced.py:225-255 | the URL `get_user_input` settles on; stated by ChosenUrlStages and ShippedChoice |
| AutoRefreshAdvanced.UserInput | auto_refresh_advanced.py:223-275 | the URL and interval of `get_user_input`; stated by ChosenUrlStages and SessionIntervalPositive, computed by GetUserInput |
| AutoRefreshAdvanced.GetUserInput | auto_refresh_advanced.py:223-275 | `get_user_input`: the default URL when accepted, else a quick URL when chosen, else the typed URL normalised; then the interval; None once the answers run out |
| AutoRefreshAdvanced.ShippedChoice | auto_refresh_advanced.py:230-255 | with the shipped configuration, a quick key gives its listed URL and any other answer falls back to the typed URL |
| AutoRefreshAdvanced.ZeroIntervalFallsBack | auto_refresh_advanced.py:63 | an interval answer that truncates to 0 seconds becomes 300 seconds in the refresher |
| AutoRefreshAdvanced.SessionIntervalPositive | auto_refresh_advanced.py:258-275 | every interval that reaches the refresher is positive |
| AutoActivity.FindEditButton | naukri_auto_activity.py:100-123 | `find_edit_button` is the first usable match over its Edit selectors |
| AutoActivity.FindSaveButton | naukri_auto_activity.py:125-150 | `find_save_button` is the first usable match over its Save selectors |
| AutoActivity.Activity | naukri_auto_activity.py:152-183 | the steps of `perform_activity`; stated by ActivityOutcomes |
| AutoActivity.PerformActivity | naukri_auto_activity.py:152-183 | `perform_activity` returns the result and the clicks and keys Activity states |
| AutoActivity.ActivityOutcomes | naukri_auto_activity.py:158-179 | True exactly when both buttons are found and both script clicks go through; a missing Save sends Escape and fails; a missing Edit clicks nothing |
| AutoActivity.Successes | naukri_auto_activity.py:205-219 | the successes never exceed the cycles |
| AutoActivity.SuccessesAppend | naukri_auto_activity.py:205-219 | the `activity_count` of two runs in a row is the sum of their counts |
| AutoActivity.AllSuccessesIff | naukri_auto_activity.py:205-219 | every cycle counts exactly when every cycle's activity succeeded |
| AutoActivity.StartAutoActivity | naukri_auto_activity.py:185-227 | entered exactly when the driver and profile come up; the count is the successful cycles; the page refreshes on every cycle, whatever the outcome |
| AutoActivity.AllFailuresCountNothing | naukri_auto_activity.py:207-213 | a run of failures counts nothing |
| AutoActivity.CommentAccepted | naukri_auto_activity.py:246-254 | this script accepts a `#` answer as a URL |
| AutoActivity.BlankIntervalIsFiveMinutes | naukri_auto_activity.py:258-271 | a blank interval answer gives 300 seconds |
| SessionActivity.HandleLoginIfNeeded | naukri_session_activity.py:101-129 | a URL that is not a login page gives True without prompting; after a login prompt the result is True exactly when the URL then names a profile page |
| SessionActivity.LoginUrlIgnoresCase | naukri_session_activity.py:104-123 | both URL tests ignore letter case |
| SessionActivity.FindEditButton | naukri_session_activity.py:180-219 | `find_edit_button` is the first usable match over its Edit selectors |
| SessionActivity.FindSaveButton | naukri_session_activity.py:221-258 | `find_save_button` is the first usable match over its Save selectors |
| SessionActivity.Activity | naukri_session_activity.py:260-319 | the steps of `perform_activity`; stated by ActivitySuccess, ScrolledEditSucceeds and MissingSaveFails |
| SessionActivity.PerformActivity | naukri_session_activity.py:260-319 | `perform_activity` returns the result and the actions Activity states |
| SessionActivity.ActivitySuccess | naukri_session_activity.py:260-319 | a success is a Save clicked after Edit, or a scrolled-to Edit clicked by script; sending Escape always means failure |
| SessionActivity.ScrolledEditSucceeds | naukri_session_activity.py:298-313 | an Edit button found only after scrolling gives True with no Save click |
| SessionActivity.MissingSaveFails | naukri_session_activity.py:282-296 | a clicked Edit with no Save button sends Escape and returns False |
| SessionActivity.TrailingFailures | naukri_session_activity.py:351-359 | the current failure streak is no longer than the run |
| SessionActivity.Run | naukri_session_activity.py:340-363 | the counters of the activity loop after a run of results; stated by RunMeaning and SuccessResets |
| SessionActivity.RunMeaning | naukri_session_activity.py:340-363 | after any run: the activity count is the successes; the failure counter is the current streak modulo 3, so it stays below 3; a refresh happened exactly at every third consecutive failure |
| SessionActivity.SuccessResets | naukri_session_activity.py:347-359 | a success resets the streak to 0; two later failures do not refresh; a third one does |
| SessionActivity.Results | naukri_session_activity.py:345-350 | one result per cycle, each that cycle's activity result |
| SessionActivity.StartAutoActivity | naukri_session_activity.py:321-371 | entered exactly when the driver and profile come up; the counters are then Run of the cycle results |
| StealthActivity.FindEditButtonStealthily | naukri_stealth_activity.py:259-289 | the first usable match over the Edit selectors |
| StealthActivity.FindSaveButtonStealthily | naukri_stealth_activity.py:291-313 | the first usable match over the Save selectors, or None |
| StealthActivity.StealthClick | naukri_stealth_activity.py:177-201 | False exactly when both the action-chain click and the script click fail |
| StealthActivity.PerformStealthActivity | naukri_stealth_activity.py:315-360 | `perform_stealth_activity` returns the result and the actions StealthActivity states |
| StealthActivity.StealthActivityIff | naukri_stealth_activity.py:325-356 | True exactly when an Edit button is found and clicked and then a Save button is found and clicked |
| StealthActivity.Chunks | naukri_stealth_activity.py:401-405 | n sleeps, each of 30 s |
| StealthActivity.ChunkedWait | naukri_stealth_activity.py:400-412 | the wait is `actual // 30` sleeps of 30 s, then one sleep of `actual % 30` when it is positive |
| StealthActivity.SumChunks | naukri_stealth_activity.py:400-405 | n chunks add up to 30 n seconds |
| StealthActivity.ChunkedWaitTotal | naukri_stealth_activity.py:400-412 | the sleeps add up to the chosen interval; the remainder sleep lies in 1..29 |
| StealthActivity.Successes | naukri_stealth_activity.py:390-394 | the successes never exceed the cycles |
| StealthActivity.SuccessesAppend | naukri_stealth_activity.py:390-394 | the `activity_count` of two runs in a row is the sum of their counts |
| StealthActivity.AllSuccessesIff | naukri_stealth_activity.py:390-394 | every cycle counts exactly when every cycle's stealth activity succeeded |
| StealthActivity.StartStealthAutoActivity | naukri_stealth_activity.py:362-420 | entered exactly when the driver and profile come up; the count is the successful cycles; the time waited is the sum of the chosen intervals |
| JobApplySimple.JobTitleCases | naukri_job_apply_simple.py:91-97 | the title is the stripped text of the title element, or `Unknown Job` when there is none or reading it raises |
| JobApplySimple.ChooseFrom | naukri_job_apply_simple.py:109-116 | the button the selector loop leaves in `apply_button`; stated by ChooseMeaning and ApplyButtonNone |
| JobApplySimple.ChooseApplyButton | naukri_job_apply_simple.py:109-116 | the selector loop that assigns `apply_button` computes ChooseFrom |
| JobApplySimple.ChooseMeaning | naukri_job_apply_simple.py:109-116 | the chosen button is the first displayed match; with none displayed, the match of the last selector that matched; with no match, what was there before |
| JobApplySimple.ApplyButtonNone | naukri_job_apply_simple.py:109-118 | `apply_button` stays None exactly when no selector matched |
| JobApplySimple.HandleApplyPopup | naukri_job_apply_simple.py:145-170 | `handle_apply_popup` clicks at most one element, the first displayed submit match |
| JobApplySimple.Outcomes | naukri_job_apply_simple.py:118-131 | one outcome per card, each whether that card counts as applied |
| JobApplySimple.Applied | naukri_job_apply_simple.py:79-131 | `applied_count` after the capped card loop; stated by AppliedBounds and FreshRunCountsSuccesses |
| JobApplySimple.AppliedBounds | naukri_job_apply_simple.py:79-81 | starting below the cap, `applied_count` never passes `max_applications`; it grows only on successful cards; away from the cap it counts every one |
| JobApplySimple.FreshRunCountsSuccesses | naukri_job_apply_simple.py:79-131 | from 0, the count is exactly the successful cards among the first `max_applications` |
| JobApplySimple.SimpleJobApply.constructor | naukri_job_apply_simple.py:20-23 | both counters start at 0 |
| JobApplySimple.SimpleJobApply.ProcessCard | naukri_job_apply_simple.py:83-136 | one card: the title and button as stated above; it counts exactly when the scroll works, a button is chosen and its script click works |
| JobApplySimple.SimpleJobApply.FindAndApplyJobs | naukri_job_apply_simple.py:61-143 | no cards changes nothing; otherwise `found_count` is the number of cards and `applied_count` advances over the first `max_applications` cards, stopping at the cap |
| JobApplyAdvanced.JobInfoOf | naukri_job_apply_advanced.py:321-424 | the five fields of `extract_job_info`; stated by ExtractJobInfo, FieldDefault and EmptyCardDefaults |
| JobApplyAdvanced.ReadField | naukri_job_apply_advanced.py:345-355 | one field of `extract_job_info`: the text of the first selector that answers, else the default |
| JobApplyAdvanced.ExtractJobInfo | naukri_job_apply_advanced.py:321-424 | the five fields read in the source's selector order, each with its own default |
| JobApplyAdvanced.FieldDefault | naukri_job_apply_advanced.py:323-329 | a field keeps its default exactly when no selector's element could be read |
| JobApplyAdvanced.FirstTextDefault | naukri_job_apply_advanced.py:345-355 | the same for a non-empty selector list |
| JobApplyAdvanced.EmptyCardDefaults | naukri_job_apply_advanced.py:323-329 | a card that answers nothing gives `Unknown Job`, `Unknown Company`, `Unknown Location`, `Not specified`, `Unknown` |
| JobApplyAdvanced.LeadingDigits | naukri_job_apply_advanced.py:447 | the leading run of digits is maximal |
| JobApplyAdvanced.DigitRuns | naukri_job_apply_advanced.py:447 | `re.findall(r'\d+')`: every run found is a non-empty string of digits |
| JobApplyAdvanced.ExperienceFits | naukri_job_apply_advanced.py:443-453 | the experience test of `is_suitable_job`; stated by ExperienceWithoutNumbers and RangeText |
| JobApplyAdvanced.ExperienceWithoutNumbers | naukri_job_apply_advanced.py:443-453 | text without digits never rules a job out |
| JobApplyAdvanced.NoDigitsNoRuns | naukri_job_apply_advanced.py:447 | text without digits has no runs |
| JobApplyAdvanced.DigitRunsPrefix | naukri_job_apply_advanced.py:447 | a number followed by a non-digit is the first run |
| JobApplyAdvanced.LeadingDigitsOf | naukri_job_apply_advanced.py:447 | the leading run of a number followed by a non-digit is that number |
| JobApplyAdvanced.RangeText | naukri_job_apply_advanced.py:447-451 | in "lo-hi yrs"-shaped text, with no digits in the separator or the tail, the range is (lo, hi): the first and the last number |
| JobApplyAdvanced.RangeRuns | naukri_job_apply_advanced.py:447 | such text has exactly the runs lo and hi |
| JobApplyAdvanced.RangeTail | naukri_job_apply_advanced.py:447 | a separator, a number and a digit-free tail have that number as their only run |
| JobApplyAdvanced.NoDigitsBefore | naukri_job_apply_advanced.py:447 | digit-free text in front adds no runs |
| JobApplyAdvanced.RangeOfRuns | naukri_job_apply_advanced.py:448-451 | with two runs, the range is the first and the last |
| JobApplyAdvanced.IsSuitableJob | naukri_job_apply_advanced.py:426-469 | `is_suitable_job`: the title test and the experience test; stated by UnknownTitlePasses and PostedDateIgnored |
| JobApplyAdvanced.UnknownTitlePasses | naukri_job_apply_advanced.py:435-437 | a title equal to `Unknown Job` passes the iOS-term test |
| JobApplyAdvanced.PostedDateIgnored | naukri_job_apply_advanced.py:455-469 | the posting date, recent or not, never changes the decision |
| JobApplyAdvanced.ApplyIndicated | naukri_job_apply_advanced.py:701-715 | the eight indicators of `find_apply_buttons`; stated by ApplyIndicatedIff |
| JobApplyAdvanced.IsApplyButton | naukri_job_apply_advanced.py:697-715 | displayed, enabled and indicating apply; stated by FindApplyButtons and ApplyButtonsFlat |
| JobApplyAdvanced.ApplyIndicatedIff | naukri_job_apply_advanced.py:701-715 | the eight indicators hold exactly when "apply" occurs, ignoring case, in the text or in one of title, aria-label, data-ga-track, class or id |
| JobApplyAdvanced.TextIndicators | naukri_job_apply_advanced.py:701-708 | the three text indicators together mean "apply" occurs in the lower-cased text |
| JobApplyAdvanced.AttrIndicators | naukri_job_apply_advanced.py:709-715 | the five attribute indicators mean "apply" occurs in one of those attributes |
| JobApplyAdvanced.FindApplyButtons | naukri_job_apply_advanced.py:661-725 | `find_apply_buttons` is the collect-all lookup; every element returned is displayed, enabled, indicates "apply" and came from a selector |
| JobApplyAdvanced.ApplyButtonsFlat | naukri_job_apply_advanced.py:693-725 | with no probe raising, the buttons are exactly the usable indicating candidates in selector order, duplicates kept |
| JobApplyAdvanced.FillFormField | naukri_job_apply_advanced.py:809-822 | only the first displayed and enabled field that accepts the keys is filled; True exactly when one was |
| JobApplyAdvanced.SubmitApplicationForm | naukri_job_apply_advanced.py:872-896 | at most one button is clicked, the first that accepts the click; True exactly when one did |
| JobApplyAdvanced.FirstNonEmpty | naukri_job_apply_advanced.py:269-278 | the card-selector loop that stops at the first non-empty list; stated by FirstNonEmptyIsFirst |
| JobApplyAdvanced.FindJobCards | naukri_job_apply_advanced.py:269-278 | the cards are the list of the first card selector that returns a non-empty list |
| JobApplyAdvanced.FirstNonEmptyIsFirst | naukri_job_apply_advanced.py:269-278 | non-empty cards come from some selector k, with every earlier selector empty or raising; no cards means every selector was |
| JobApplyAdvanced.StepOf | naukri_job_apply_advanced.py:293-309 | how the loop body ends for one card: unscrolled, unsuitable, or an attempt with `apply_to_job`'s result; computed by JudgeCard |
| JobApplyAdvanced.Count | naukri_job_apply_advanced.py:300-307 | the counter a step moves: `applied_count` on a successful attempt, `skipped_count` on a failed attempt or an unsuitable job, none when the scroll raised; stated by ProcessCardsBounds |
| JobApplyAdvanced.ProcessCards | naukri_job_apply_advanced.py:287-316 | the card loop, breaking at the cap; stated by ProcessCardsBounds and computed by ExamineCards |
| JobApplyAdvanced.Steps | naukri_job_apply_advanced.py:287-316 | one step per card, each that card's step |
| JobApplyAdvanced.JudgeCard | naukri_job_apply_advanced.py:289-309 | the loop body up to the counters: unscrolled, unsuitable, or an attempt with `apply_to_job`'s result |
| JobApplyAdvanced.ProcessCardsBounds | naukri_job_apply_advanced.py:287-316 | the loop examines no more cards than given; `applied_count` never passes the cap from below; `found_count` is left alone; each examined card whose scroll worked moves exactly one of `applied_count` / `skipped_count` |
| JobApplyAdvanced.AdvancedJobApply.constructor | naukri_job_apply_advanced.py:30-51 | the three counters start at 0 |
| JobApplyAdvanced.AdvancedJobApply.FindAndApplyJobs | naukri_job_apply_advanced.py:246-319 | without cards nothing changes; otherwise `found_count` is their number and the first `2 * max_applications` cards are processed |
| JobApplyAdvanced.AdvancedJobApply.CountCard | naukri_job_apply_advanced.py:289-309 | one card moves the counter its step names |
| JobApplyAdvanced.AdvancedJobApply.ExamineCards | naukri_job_apply_advanced.py:287-316 | the card loop, stopping once the cap is reached, computes ProcessCards |
| JobAutoApply.ExtractJobId | naukri_job_auto_apply.py:252-263 | the three branches of `extract_job_id`; what each gives is stated by the ExtractJobId lemmas below |
| JobAutoApply.ExtractJobIdListings | naukri_job_auto_apply.py:256-257 | with `job-listings-` in the URL, the ID is the text between the first occurrence and the next, cut at `?`, whatever else the URL holds |
| JobAutoApply.ExtractJobIdJobPath | naukri_job_auto_apply.py:258-259 | without `job-listings-`, the same rule with `/job/` |
| JobAutoApply.ExtractJobIdLastSegment | naukri_job_auto_apply.py:260-261 | otherwise the ID is the text after the last `/` (all of the URL when it has none), cut at `?`: a suffix that holds no `/` and starts at the beginning or right after a `/` |
| JobAutoApply.ExtractJobIdIsLastPart | naukri_job_auto_apply.py:260-261 | without either marker, the ID is the last `/`-part of the URL cut at `?` |
| JobAutoApply.ExtractJobIdHasNoQuery | naukri_job_auto_apply.py:252-263 | an ID never contains `?` |
| JobAutoApply.ExtractJobIdStopsAtMarker | naukri_job_auto_apply.py:256-257 | an ID found after `job-listings-` never contains a second `job-listings-` |
| JobAutoApply.IsIosRelevant | naukri_job_auto_apply.py:265-279 | `is_ios_relevant`: some iOS term and no excluded term in the lower-cased title; stated by the three lemmas below |
| JobAutoApply.IosRelevantIgnoresCase | naukri_job_auto_apply.py:265-279 | the relevance test ignores letter case |
| JobAutoApply.ExcludedTermWins | naukri_job_auto_apply.py:275-279 | a title with an excluded term is never relevant |
| JobAutoApply.IosTermSuffices | naukri_job_auto_apply.py:267-279 | a title with an iOS term and no excluded term is relevant |
| JobAutoApply.ApplyStep | naukri_job_auto_apply.py:281-341 | one `apply_to_job` call on the ledger and counters; its accounting is stated by ApplyStepAlreadyApplied, ApplyStepAccounting and ApplyStepTracks |
| JobAutoApply.ApplyStepAlreadyApplied | naukri_job_auto_apply.py:285-289 | a job already in the ledger returns False; only `jobs_skipped` rises by 1 |
| JobAutoApply.ApplyStepAccounting | naukri_job_auto_apply.py:281-341 | each call moves exactly one of applied / skipped / errors by one; True exactly when `jobs_applied` rises, and exactly when a new ID joins the ledger; no ID ever leaves it |
| JobAutoApply.ApplyStepTracks | naukri_job_auto_apply.py:314-332 | the ledger stays the loaded IDs plus one new ID per application |
| JobAutoApply.ProcessJobs | naukri_job_auto_apply.py:396-408 | the job loop of one keyword, stopping at the cap; stated by ProcessJobsKeeps |
| JobAutoApply.ProcessSearches | naukri_job_auto_apply.py:386-408 | the keyword loop over the searches; stated by ProcessSearchesKeeps and RunCap |
| JobAutoApply.ProcessJobsKeeps | naukri_job_auto_apply.py:396-408 | over one keyword's jobs: `applications_made` rises with `jobs_applied`; it does not pass the cap from below; the ledger only grows and keeps its invariant |
| JobAutoApply.ProcessSearchesKeeps | naukri_job_auto_apply.py:386-408 | the same over all keywords |
| JobAutoApply.RunCap | naukri_job_auto_apply.py:383-408 | from 0, the session makes between 0 and `max(max_applications, 0)` applications, and that is the rise in `jobs_applied` |
| JobAutoApply.LoadedIds | naukri_job_auto_apply.py:59-68 | a stored `applied_jobs` list loads as its set; an absent, unreadable or keyless file gives the empty set |
| JobAutoApply.NoDuplicatesCard | naukri_job_auto_apply.py:70-80 | a list without duplicates is as long as its set |
| JobAutoApply.SaveLoadRoundTrip | naukri_job_auto_apply.py:59-80 | saving the set as a list and loading it back gives the same set |
| JobAutoApply.AutoApply.constructor | naukri_job_auto_apply.py:32-57 | the ledger starts as the loaded IDs, with every counter at 0 |
| JobAutoApply.AutoApply.ApplyToJob | naukri_job_auto_apply.py:281-341 | `apply_to_job` updates the ledger and counters as ApplyStep states and keeps the ledger invariant |
| JobAutoApply.AutoApply.ApplyToListings | naukri_job_auto_apply.py:396-408 | the `for job in jobs` loop, breaking at the cap, computes ProcessJobs |
| JobAutoApply.AutoApply.RunJobSearchAndApply | naukri_job_auto_apply.py:374-414 | the keyword loop computes ProcessSearches; at most `max(max_applications, 0)` applications, equal to the rise in `jobs_applied` |
| JobAutoApply.AutoApply.SaveHistory | naukri_job_auto_apply.py:70-80 | `list(self.applied_jobs)`: each ID exactly once, and it loads back as the same set |
| Background.IntervalOr | browser_extension/background.js:91-92 | `settings.interval \|\| 5`: a missing or zero interval becomes 5; any other value is kept |
| Background.ModeOr | browser_extension/background.js:93-94 | `settings.mode \|\| 'stealth'`: a missing or empty mode becomes `stealth` |
| Background.RecordResult | browser_extension/background.js:239-250 | the total and exactly one of successful / failed rise by one from their stored value, a missing counter counting as 0; the other is left as stored |
| Background.Replay | browser_extension/background.js:239-250 | the statistics after a sequence of activity results; stated by ReplayFromZero and ReplayFromMissing |
| Background.ReplayFromZero | browser_extension/background.js:14-20 | from the installed zeros: the total is the number of results, the successes are the true ones, and total = successful + failed |
| Background.ReplayFromMissing | browser_extension/background.js:239-250 | even from missing counters, total = successful + failed = the number of results |
| Background.RemainingMinutes | browser_extension/background.js:306 | `Math.ceil(remaining / 60000)` is at least 1 and the least whole number of minutes covering the remaining time |
| Background.Worker.constructor | browser_extension/background.js:3-7 | not running, no tab, no next time, interval 5, mode `stealth` |
| Background.Worker.OnInstalled | browser_extension/background.js:10-26 | the counters are zeroed, `lastActivity` is `Never`, and the settings are the defaults |
| Background.Worker.ScheduleNextActivity | browser_extension/background.js:149-172 | nothing happens when not running; otherwise the next time is `actualMinutes` ahead, the alarm is replaced, and the time is stored |
| Background.Worker.StartActivityBooster | browser_extension/background.js:88-113 | running on the given tab, the settings with their fallbacks, the state stored, and the first activity scheduled |
| Background.Worker.StopActivityBooster | browser_extension/background.js:115-137 | not running, no tab, no next time, no alarm, all stored |
| Background.Worker.UpdateSettings | browser_extension/background.js:139-147 | the new settings; a new schedule only while running |
| Background.Worker.PerformScheduledActivity | browser_extension/background.js:174-208 | a request goes out exactly when running on a tab that is on naukri.com; a tab off naukri.com or a tab that no longer exists stops the booster; any other error changes nothing |
| Background.Worker.HandleActivityResult | browser_extension/background.js:230-267 | the statistics recorded as RecordResult and the time stored, then the next activity scheduled |
| Background.Worker.OnTabUpdated | browser_extension/background.js:270-275 | the tracked tab navigating off naukri.com stops the booster; anything else changes nothing |
| Background.Worker.OnTabRemoved | browser_extension/background.js:278-283 | removing the tracked tab stops the booster; any other tab changes nothing |
| Background.Worker.OnStartup | browser_extension/background.js:286-318 | without a stored running state and tab nothing changes; otherwise the running state and tab are taken back from storage; without a stored time nothing else changes (any stored time, the epoch included, counts as present); a future time sets the alarm to the remaining minutes rounded up; a past time runs the scheduled activity on the restored tab: the mode is sent exactly when the tab is on naukri.com, a missing or off-site tab stops the booster and clears the stored state, and otherwise alarm, next time and storage stay as they were |
| Background.Worker.TestActivity | browser_extension/background.js:62-76 | a request goes out exactly when there is a tab, in the current mode or `normal` when it is empty |
| Content.ParseSelector | browser_extension/content.js:186-195 | how one CSS entry is read: plain, `:contains` with its needle, or one the quote match rejects; stated by ParseContains |
| Content.QuotedText | browser_extension/content.js:189 | the group of `/"([^"]*)"/`: text between the first two double quotes, itself free of quotes |
| Content.ParseContains | browser_extension/content.js:186-189 | `base:contains("needle")` parses back to its base and needle when the base holds no `:contains` or quote and the needle no quote |
| Content.ContainsSelectorLayout | browser_extension/content.js:153-155 | where base, marker, quotes and needle sit in a `:contains` selector |
| Content.ContainsSelectorMarker | browser_extension/content.js:186-188 | such a selector contains the marker, and the text before it is the base |
| Content.ContainsSelectorQuotes | browser_extension/content.js:189 | its first quoted text is the needle |
| Content.IndexOfFromIs | browser_extension/content.js:188-189 | a search finds the first occurrence after its start |
| Content.MarkerAtBoundary | browser_extension/content.js:188 | the marker is first found right after a base that does not contain it |
| Content.QuoteAt | browser_extension/content.js:189 | the first quote after a position is at the first quote character |
| Content.KeepMentioning | browser_extension/content.js:191-195 | the text filter keeps, in document order, the elements whose lower-cased text includes the lower-cased needle |
| Content.KeepVisible | browser_extension/content.js:229-235 | the visibility filter keeps, in order, the elements with positive width and height, not disabled, display not `none`, visibility not `hidden` |
| Content.CssPushed | browser_extension/content.js:185-203 | one CSS entry pushes its query's elements, text-filtered for `:contains`, and nothing when the query or the quote match throws |
| Content.CollectCss | browser_extension/content.js:184-204 | the CSS pass appends every entry's elements in list order |
| Content.CollectXPath | browser_extension/content.js:217-226 | the XPath pass appends every expression's snapshot in list order after the CSS ones |
| Content.FindButtons | browser_extension/content.js:181-235 | the visible candidates, CSS entries first and XPath expressions after, duplicates kept |
| Content.VisibleOfAppend | browser_extension/content.js:229-235 | the filter distributes over concatenation |
| Content.VisibleOfMembers | browser_extension/content.js:229-235 | the filter keeps exactly the visible candidates |
| Content.MentioningMembers | browser_extension/content.js:191-195 | the text filter keeps exactly the elements that mention the needle, ignoring case |
| Content.FoundInListOrder | browser_extension/content.js:183-235 | the result is the visible CSS matches followed by the visible XPath matches |
| Content.FindEditButtons | browser_extension/content.js:150-236 | `findEditButtons` over its Edit selectors |
| Content.FindSaveButtons | browser_extension/content.js:238-315 | `findSaveButtons` over its Save selectors |
| Content.ConfigFor | browser_extension/content.js:8-27 | every mode's configuration has `minDelay < maxDelay` and is one of the three listed |
| Content.ConfigFallback | browser_extension/content.js:322 | an unknown mode gets the stealth delays; `normal` and `aggressive` get their own |
| Content.PerformActivity | browser_extension/content.js:318-399 | the mode's configuration; the result of Activity; the Edit button picked is one of the visible ones; the Save button used is the first visible one |
| Content.Activity | browser_extension/content.js:318-399 | the steps of `performActivity`; stated by ActivityOutcome and PerformActivity |
| Content.ActivityOutcome | browser_extension/content.js:333-393 | success exactly when an Edit button exists and the chosen one is clicked, then a Save button exists and the first is clicked; success exactly when the message is the completion message; no Edit button reports that first |
| Popup.SuccessRate | browser_extension/popup.js:70-76 | `-` exactly when the total is not positive; otherwise `round(successful / total * 100)` as half-up rounding, in 0..100 for non-negative counters |
| Popup.RateBounds | browser_extension/popup.js:72 | the half-up quotient is the rounded percentage, and lies in 0..100 when 0 <= successful <= total |
| Popup.SuccessRateExtremes | browser_extension/popup.js:70-76 | all successes show 100%, none show 0% |
| Popup.Countdown | browser_extension/popup.js:94-99 | for a positive `diff`, `seconds < 60` and `minutes * 60000 + seconds * 1000 <= diff` with less than a second left over |
| Popup.NextTextFor | browser_extension/popup.js:84-111 | `-` exactly when stopped; `Calculating...` exactly without a stored time; a countdown exactly while the time is ahead; `Soon` exactly once a stored time has passed |
| Popup.View.constructor | browser_extension/popup.js:3-15 | a blank view |
| Popup.View.LoadStats | browser_extension/popup.js:60-78 | the total (0 when missing), the last activity (`Never` when missing) and the success rate over successful + failed |
| Popup.View.UpdateStatus | browser_extension/popup.js:80-114 | exactly one of Start / Stop is visible, as `isActive` says; the status text; the next-activity text of NextTextFor |
| Popup.StartRequests | browser_extension/popup.js:121-147 | from a tab off naukri.com only the error notice; otherwise save the settings, then start on that tab |

## Left out

- Browser and driver setup, Chrome options, the stealth script injection, window and tab switching are not modelled. Whether the driver started and the page loaded are boolean parameters.
- Sleeps, waits and logging are not modelled, nor `print`, mouse movement, `random_scroll`, `randomDelay`, `simulateHumanMouseMove` and scroll-into-view.
- Randomness is a parameter. This covers the ±20% interval variation of `start_stealth_auto_activity` and `scheduleNextActivity` (the resulting whole seconds or minutes are parameters), the random Edit button of `performActivity` (an index taken modulo the list length), and `scrollProbability`.
- Floating point is not modelled:
  - `float(input) * 60` is modelled on reals with truncation toward zero;
  - `inf` and `nan` answers are left out;
  - `Math.round` of the success rate is integer half-up rounding on the exact quotient;
  - `variation` is left out.
- Dates are left out: `Date` objects and `toISOString` / `toLocaleString` strings are integers of milliseconds and a caller-supplied string.
- `calculate_experience` is left out because it depends on the clock and `relativedelta`.
- Chrome extension APIs are not modelled: storage, alarms, messaging, scripting and notifications, and promise ordering. Each handler runs to completion on the worker's state. The stored and in-memory alarm are the same field.
- `injectContentScript` and the retry through it are left out. So are `getStatus`, which only reads state, and the popup's `showNotification` timing and CSS classes.
- Unicode is left out: `lower()`, `strip()` and `\d` are their ASCII versions.
- The Python scripts' `:contains(...)` CSS selectors are not a valid Selenium selector, so every query made with one raises. They are modelled as locators absent from the page.
- The `extract_job_id` fallback to `str(hash(job_url))` is left out. For a string URL, every split index exists, so that branch is never reached.
- `handle_application_popup` and the job-apply-advanced `apply_to_job` are left out, because their outcome is an oracle answer (`applyResult`). The same goes for `handle_naukri_application`, `fill_application_form`, relocation and dropdown handling, external applications, login waits, search and filter navigation, and `get_job_listings` / `extract_job_data`.
- `load_profile` waits are left out, as are the failure of `driver.refresh()` inside the activity loops and the failure of the history file write.
- In the extension, `parseInt` of the settings, a `config[mode]` lookup of an inherited property name, and `testExtension` are left out.
- Cleanup, `KeyboardInterrupt` handling and summaries are left out.
- JobApplyAdvanced.ExperienceFits is stated by lemmas for digit-free text and for "lo-sep-hi-tail" shaped text. There is no single lemma for every possible experience text.
- JobApplyAdvanced.AdvancedJobApply.FindAndApplyJobs requires one browser answer per card found. The source reads those answers from the browser as it goes.
- JobAutoApply.AutoApply.RunJobSearchAndApply requires one search answer per keyword. The source performs the searches.
