/**
 * `naukri_auto_activity.py`: the plain profile activity bot. It clicks Edit
 * and then Save by script at an interval and refreshes the page after
 * every wait.
 */
module AutoActivity {
  import opened Common
  import opened Browser
  import Prompts
  import Text

  const EditSelectors: seq<string> := [
    "//button[contains(text(), 'Edit')]", "//a[contains(text(), 'Edit')]", "//span[contains(text(), 'Edit')]",
    "//div[contains(text(), 'Edit')]", "//button[contains(@class, 'edit')]", "//a[contains(@class, 'edit')]",
    "//i[contains(@class, 'edit')]/parent::*", "//button[@title='Edit']", "//a[@title='Edit']"]

  const SaveSelectors: seq<string> := [
    "//button[contains(text(), 'Save')]", "//a[contains(text(), 'Save')]", "//span[contains(text(), 'Save')]",
    "//div[contains(text(), 'Save')]", "//button[contains(@class, 'save')]", "//a[contains(@class, 'save')]",
    "//button[@title='Save']", "//a[@title='Save']", "//input[@type='submit'][contains(@value, 'Save')]",
    "//button[contains(text(), 'Update')]", "//button[contains(text(), 'Submit')]"]

  /** `find_edit_button`: the first displayed and enabled match, selector by selector. */
  method FindEditButton(page: Page) returns (r: Option<WebElement>)
    ensures r == FirstUsable(page, XPaths(EditSelectors))
  {
    r := FindFirstUsable(page, XPaths(EditSelectors));
  }

  /** `find_save_button`: the same lookup over its own selectors. */
  method FindSaveButton(page: Page) returns (r: Option<WebElement>)
    ensures r == FirstUsable(page, XPaths(SaveSelectors))
  {
    r := FindFirstUsable(page, XPaths(SaveSelectors));
  }

  /** The page before any click and after the Edit click. */
  datatype Scene = Scene(before: Page, afterEdit: Page)

  datatype Action = ScriptClickEdit | ScriptClickSave | SendEscape

  /**
   * `perform_activity`: both clicks are script clicks, and a click that
   * raises ends the activity with False.
   */
  function Activity(s: Scene): (bool, seq<Action>)
  {
    match FirstUsable(s.before, XPaths(EditSelectors))
    case None => (false, [])
    case Some(edit) =>
      if !edit.scriptable then (false, [ScriptClickEdit])
      else (
        match FirstUsable(s.afterEdit, XPaths(SaveSelectors))
        case None => (false, [ScriptClickEdit, SendEscape])
        case Some(save) => (save.scriptable, [ScriptClickEdit, ScriptClickSave]))
  }

  method PerformActivity(s: Scene) returns (ok: bool, actions: seq<Action>)
    ensures (ok, actions) == Activity(s)
  {
    var edit := FindEditButton(s.before);
    if edit.None? {
      return false, [];
    }
    if !edit.value.scriptable {
      return false, [ScriptClickEdit];
    }
    var save := FindSaveButton(s.afterEdit);
    if save.None? {
      return false, [ScriptClickEdit, SendEscape];
    }
    return save.value.scriptable, [ScriptClickEdit, ScriptClickSave];
  }

  /**
   * Success exactly when both buttons are found and both script clicks go
   * through; a missing Save sends Escape and fails; a missing Edit clicks
   * nothing.
   */
  lemma ActivityOutcomes(s: Scene)
    ensures Activity(s).0 <==>
      (var edit := FirstUsable(s.before, XPaths(EditSelectors));
       var save := FirstUsable(s.afterEdit, XPaths(SaveSelectors));
       edit.Some? && edit.value.scriptable && save.Some? && save.value.scriptable)
    ensures FirstUsable(s.before, XPaths(EditSelectors)).None? ==> Activity(s) == (false, [])
    ensures var edit := FirstUsable(s.before, XPaths(EditSelectors));
      edit.Some? && edit.value.scriptable && FirstUsable(s.afterEdit, XPaths(SaveSelectors)).None? ==>
        Activity(s) == (false, [ScriptClickEdit, SendEscape])
  {
  }

  /** Cycles whose activity succeeded. */
  function Successes(scenes: seq<Scene>): (n: nat)
    ensures n <= |scenes|
  {
    if scenes == [] then 0
    else Successes(scenes[..|scenes| - 1]) + (if Activity(scenes[|scenes| - 1]).0 then 1 else 0)
  }

  /**
   * `start_auto_activity`: nothing runs unless the driver starts and the
   * profile loads; each cycle performs the activity, counts a success,
   * waits the interval and refreshes the page, whatever the outcome.
   */
  method StartAutoActivity(setupOk: bool, profileLoaded: bool, scenes: seq<Scene>) returns (started: bool, activityCount: nat, refreshes: nat)
    ensures started == (setupOk && profileLoaded)
    ensures started ==> activityCount == Successes(scenes) && refreshes == |scenes|
    ensures !started ==> activityCount == 0 && refreshes == 0
  {
    activityCount, refreshes := 0, 0;
    if !setupOk || !profileLoaded {
      return false, 0, 0;
    }
    started := true;
    var i := 0;
    while i < |scenes|
      invariant 0 <= i <= |scenes|
      invariant activityCount == Successes(scenes[..i]) && refreshes == i
    {
      assert scenes[..i + 1][..i] == scenes[..i];
      var ok, _ := PerformActivity(scenes[i]);
      if ok {
        activityCount := activityCount + 1;
      }
      refreshes := refreshes + 1;
      i := i + 1;
    }
    assert scenes[..i] == scenes;
  }

  /** A run in which every cycle fails counts nothing but still refreshes every cycle. */
  lemma {:induction false} AllFailuresCountNothing(scenes: seq<Scene>)
    requires forall i :: 0 <= i < |scenes| ==> !Activity(scenes[i]).0
    ensures Successes(scenes) == 0
  {
    if scenes != [] {
      AllFailuresCountNothing(scenes[..|scenes| - 1]);
    }
  }

  /** The success count of two runs in a row is the sum of their counts. */
  lemma {:induction false} SuccessesAppend(first: seq<Scene>, second: seq<Scene>)
    ensures Successes(first + second) == Successes(first) + Successes(second)
  {
    if second == [] {
      assert first + second == first;
    } else {
      SuccessesAppend(first, second[..|second| - 1]);
      assert (first + second)[..|first + second| - 1] == first + second[..|second| - 1];
    }
  }

  /** Every cycle counts exactly when every cycle's activity succeeded. */
  lemma {:induction false} AllSuccessesIff(scenes: seq<Scene>)
    ensures Successes(scenes) == |scenes| <==> forall i :: 0 <= i < |scenes| ==> Activity(scenes[i]).0
  {
    if scenes != [] {
      var init := scenes[..|scenes| - 1];
      AllSuccessesIff(init);
      assert forall i :: 0 <= i < |init| ==> init[i] == scenes[i];
    }
  }

  /** This script accepts an answer starting with `#` as a URL. */
  lemma CommentAccepted(line: string, rest: seq<string>)
    requires Text.Strip(line) != [] && Text.Strip(line)[0] == '#'
    ensures Prompts.UrlAnswer([line] + rest, false) == Some(Prompts.NormalizeUrl(Text.Strip(line)))
  {
    Prompts.UrlAnswerKeepsComment(line, rest);
  }

  /** A blank interval answer gives five minutes, 300 seconds. */
  lemma BlankIntervalIsFiveMinutes(rest: seq<Prompts.IntervalAnswer>)
    ensures Prompts.IntervalSeconds([Prompts.Blank] + rest, 5) == Some(300)
  {
    Prompts.IntervalSecondsProps([Prompts.Blank] + rest, 5);
  }
}
