/**
 * `naukri_session_activity.py`: keeps a Naukri profile active by clicking
 * Edit and then Save at an interval, reusing a logged-in browser session,
 * and refreshing the page after three failures in a row.
 */
module SessionActivity {
  import opened Common
  import opened Text
  import opened Browser

  // ---------------------------------------------------------------------
  // Login detection

  /** A lower-cased current URL that names a login, sign-in or auth page. */
  predicate IsLoginUrl(url: string)
  {
    var u := Lower(url);
    Contains(u, "login") || Contains(u, "signin") || Contains(u, "auth")
  }

  predicate IsProfileUrl(url: string)
  {
    var u := Lower(url);
    Contains(u, "profile") || Contains(u, "mnjuser")
  }

  /**
   * `handle_login_if_needed`: `url` is the current URL; when it is a login
   * page the user is asked to log in, and `urlAfterLogin` is the URL once
   * they press Enter (None when `input()` has nothing left, which raises and
   * is caught).
   */
  function HandleLoginIfNeeded(url: string, urlAfterLogin: Option<string>): (ok: bool)
    ensures !IsLoginUrl(url) ==> ok
    ensures IsLoginUrl(url) ==> (ok <==> urlAfterLogin.Some? && IsProfileUrl(urlAfterLogin.value))
  {
    if IsLoginUrl(url) then
      match urlAfterLogin
      case Some(after) => IsProfileUrl(after)
      case None => false
    else true
  }

  /** Case does not matter to the classification. */
  lemma LoginUrlIgnoresCase(url: string)
    ensures IsLoginUrl(Lower(url)) == IsLoginUrl(url)
    ensures IsProfileUrl(Lower(url)) == IsProfileUrl(url)
  {
    LowerIdempotent(url);
  }

  // ---------------------------------------------------------------------
  // Buttons

  const EditSelectors: seq<string> := [
    "//button[contains(text(), 'Edit')]", "//a[contains(text(), 'Edit')]", "//span[contains(text(), 'Edit')]",
    "//div[contains(text(), 'Edit')]", "//button[contains(@class, 'edit')]", "//a[contains(@class, 'edit')]",
    "//span[contains(@class, 'edit')]", "//i[contains(@class, 'edit')]/parent::*",
    "//i[contains(@class, 'pencil')]/parent::*", "//button[@title='Edit']", "//a[@title='Edit']",
    "//button[@aria-label='Edit']", "//a[@aria-label='Edit']",
    "//button[contains(@class, 'naukri-button') and contains(text(), 'Edit')]", "//a[contains(@class, 'edit-link')]",
    "//span[contains(@class, 'edit-icon')]/parent::*"]

  const SaveSelectors: seq<string> := [
    "//button[contains(text(), 'Save')]", "//a[contains(text(), 'Save')]", "//span[contains(text(), 'Save')]",
    "//button[contains(text(), 'Update')]", "//button[contains(text(), 'Submit')]", "//button[contains(text(), 'Done')]",
    "//button[contains(@class, 'save')]", "//a[contains(@class, 'save')]", "//button[contains(@class, 'submit')]",
    "//button[contains(@class, 'update')]", "//button[@title='Save']", "//a[@title='Save']",
    "//input[@type='submit'][contains(@value, 'Save')]", "//button[@type='submit']", "//form//button[last()]",
    "//div[contains(@class, 'form-actions')]//button"]

  /** `find_edit_button`: the shared Browser.FindFirstUsable lookup, as in every activity script, over this script's Edit selectors. */
  method FindEditButton(page: Page) returns (r: Option<WebElement>)
    ensures r == FirstUsable(page, XPaths(EditSelectors))
  {
    r := FindFirstUsable(page, XPaths(EditSelectors));
  }

  /** `find_save_button`: the same shared lookup over this script's Save selectors. */
  method FindSaveButton(page: Page) returns (r: Option<WebElement>)
    ensures r == FirstUsable(page, XPaths(SaveSelectors))
  {
    r := FindFirstUsable(page, XPaths(SaveSelectors));
  }

  // ---------------------------------------------------------------------
  // One activity

  /**
   * The page as the activity sees it: before any click, after clicking
   * Edit, and after scrolling half-way when no Edit button was found.
   */
  datatype Scene = Scene(before: Page, afterEdit: Page, afterScroll: Page)

  /** What the activity does to the page, in order. */
  datatype Action = ClickEdit | ClickSave | SendEscape | Scroll | ScriptClickEdit

  /** `element.click()`, falling back to a script click; false when both raise. */
  predicate Clicks(e: WebElement)
  {
    e.interactable || e.scriptable
  }

  /** `perform_activity`: its result and the actions it takes. */
  function Activity(s: Scene): (bool, seq<Action>)
  {
    match FirstUsable(s.before, XPaths(EditSelectors))
    case Some(edit) =>
      if !Clicks(edit) then (false, [ClickEdit])
      else (
        match FirstUsable(s.afterEdit, XPaths(SaveSelectors))
        case Some(save) => (Clicks(save), [ClickEdit, ClickSave])
        case None => (false, [ClickEdit, SendEscape]))
    case None =>
      match FirstUsable(s.afterScroll, XPaths(EditSelectors))
      case Some(edit) => (edit.scriptable, [Scroll, ScriptClickEdit])
      case None => (false, [Scroll])
  }

  method PerformActivity(s: Scene) returns (ok: bool, actions: seq<Action>)
    ensures (ok, actions) == Activity(s)
  {
    var edit := FindEditButton(s.before);
    if edit.Some? {
      if !edit.value.interactable && !edit.value.scriptable {
        return false, [ClickEdit];
      }
      var save := FindSaveButton(s.afterEdit);
      if save.Some? {
        return save.value.interactable || save.value.scriptable, [ClickEdit, ClickSave];
      }
      return false, [ClickEdit, SendEscape];
    }
    var again := FindEditButton(s.afterScroll);
    if again.Some? {
      return again.value.scriptable, [Scroll, ScriptClickEdit];
    }
    return false, [Scroll];
  }

  /**
   * Success means Save was clicked after Edit, or, with no Edit button in
   * view, one that appeared after scrolling was clicked and Save was never
   * looked for.
   */
  lemma ActivitySuccess(s: Scene)
    ensures var (ok, actions) := Activity(s);
      ok ==> actions == [ClickEdit, ClickSave] || actions == [Scroll, ScriptClickEdit]
    ensures var (ok, actions) := Activity(s);
      actions == [ClickEdit, SendEscape] ==> !ok
  {
  }

  /** An Edit button found only after scrolling is enough: no Save click, result True. */
  lemma ScrolledEditSucceeds(s: Scene)
    requires FirstUsable(s.before, XPaths(EditSelectors)).None?
    requires var e := FirstUsable(s.afterScroll, XPaths(EditSelectors)); e.Some? && e.value.scriptable
    ensures Activity(s) == (true, [Scroll, ScriptClickEdit])
    ensures ClickSave !in Activity(s).1
  {
  }

  /** A clicked Edit with no Save button sends Escape and fails. */
  lemma MissingSaveFails(s: Scene)
    requires var e := FirstUsable(s.before, XPaths(EditSelectors)); e.Some? && Clicks(e.value)
    requires FirstUsable(s.afterEdit, XPaths(SaveSelectors)).None?
    ensures Activity(s) == (false, [ClickEdit, SendEscape])
  {
  }

  // ---------------------------------------------------------------------
  // The activity loop

  const MaxFailures: nat := 3

  datatype LoopState = LoopState(activityCount: nat, failedAttempts: nat, refreshes: nat)

  /** One pass of the `while True` body after `perform_activity` returned `ok`. */
  function Next(st: LoopState, ok: bool): LoopState
  {
    if ok then st.(activityCount := st.activityCount + 1, failedAttempts := 0)
    else if st.failedAttempts + 1 >= MaxFailures then st.(failedAttempts := 0, refreshes := st.refreshes + 1)
    else st.(failedAttempts := st.failedAttempts + 1)
  }

  /** The loop's state after the given results, from the zeroed start. */
  function Run(results: seq<bool>): LoopState
  {
    if results == [] then LoopState(0, 0, 0) else Next(Run(results[..|results| - 1]), results[|results| - 1])
  }

  /** Failures at the end of the results, since the last success. */
  function TrailingFailures(results: seq<bool>): (n: nat)
    ensures n <= |results|
  {
    if results == [] || results[|results| - 1] then 0 else TrailingFailures(results[..|results| - 1]) + 1
  }

  /** Cycles that end on a failure that is a multiple of three failures in a row. */
  function RefreshPoints(results: seq<bool>): nat
  {
    if results == [] then 0
    else RefreshPoints(results[..|results| - 1]) + (if !results[|results| - 1] && TrailingFailures(results) % MaxFailures == 0 then 1 else 0)
  }

  /**
   * The counters after any run: activities count the successes, the
   * failure counter is the current failure streak modulo three and so stays
   * below three, and a refresh happened exactly at every third consecutive
   * failure.
   */
  lemma {:induction false} RunMeaning(results: seq<bool>)
    ensures var st := Run(results);
      st.activityCount == CountTrue(results)
      && st.failedAttempts == TrailingFailures(results) % MaxFailures
      && st.failedAttempts < MaxFailures
      && st.refreshes == RefreshPoints(results)
  {
    if results != [] {
      var init := results[..|results| - 1];
      RunMeaning(init);
      assert results == init + [results[|results| - 1]];
    }
  }

  /** A success resets the failure streak, so the next refresh needs three new failures. */
  lemma SuccessResets(results: seq<bool>)
    ensures Run(results + [true]).failedAttempts == 0
    ensures Run(results + [true, false, false]).refreshes == Run(results).refreshes
    ensures Run(results + [true, false, false, false]).refreshes == Run(results).refreshes + 1
  {
    var a := results + [true];
    var b := a + [false];
    var c := b + [false];
    var d := c + [false];
    assert a[..|a| - 1] == results;
    assert b[..|b| - 1] == a;
    assert c[..|c| - 1] == b;
    assert d[..|d| - 1] == c;
    assert results + [true, false, false] == c;
    assert results + [true, false, false, false] == d;
  }

  /** Each cycle's result. */
  function Results(scenes: seq<Scene>): (r: seq<bool>)
    ensures |r| == |scenes|
    ensures forall i :: 0 <= i < |scenes| ==> r[i] == Activity(scenes[i]).0
  {
    if scenes == [] then [] else Results(scenes[..|scenes| - 1]) + [Activity(scenes[|scenes| - 1]).0]
  }

  /**
   * `start_auto_activity`: nothing runs unless the driver starts and the
   * profile loads; then each cycle performs the activity and updates the
   * counters. `scenes` holds each cycle's pages until Ctrl+C.
   */
  method StartAutoActivity(setupOk: bool, profileLoaded: bool, scenes: seq<Scene>) returns (started: bool, st: LoopState)
    ensures started == (setupOk && profileLoaded)
    ensures st == if started then Run(Results(scenes)) else LoopState(0, 0, 0)
  {
    st := LoopState(0, 0, 0);
    if !setupOk || !profileLoaded {
      return false, st;
    }
    started := true;
    var activityCount, failedAttempts, refreshes := 0, 0, 0;
    ghost var results := Results(scenes);
    var i := 0;
    while i < |scenes|
      invariant 0 <= i <= |scenes|
      invariant LoopState(activityCount, failedAttempts, refreshes) == Run(results[..i])
    {
      assert results[..i + 1][..i] == results[..i];
      var ok, _ := PerformActivity(scenes[i]);
      if ok {
        activityCount := activityCount + 1;
        failedAttempts := 0;
      } else {
        failedAttempts := failedAttempts + 1;
        if failedAttempts >= MaxFailures {
          refreshes := refreshes + 1;
          failedAttempts := 0;
        }
      }
      i := i + 1;
    }
    assert results[..i] == results;
    st := LoopState(activityCount, failedAttempts, refreshes);
  }
}
