/**
 * `naukri_stealth_activity.py`: the Edit-then-Save profile activity with
 * human-like clicks and a randomised interval that is waited out in
 * 30-second chunks.
 */
module StealthActivity {
  import opened Common
  import opened Text
  import opened Browser

  const EditSelectors: seq<string> := [
    "//button[contains(text(), 'Edit')]", "//a[contains(text(), 'Edit')]", "//span[contains(text(), 'Edit')]",
    "//div[contains(text(), 'Edit')]", "//button[contains(@class, 'edit')]", "//a[contains(@class, 'edit')]",
    "//i[contains(@class, 'edit')]/parent::*", "//button[@title='Edit']", "//a[@title='Edit']"]

  const SaveSelectors: seq<string> := [
    "//button[contains(text(), 'Save')]", "//a[contains(text(), 'Save')]", "//button[contains(text(), 'Update')]",
    "//button[contains(text(), 'Submit')]", "//button[contains(@class, 'save')]", "//button[@type='submit']"]

  /** `find_edit_button_stealthily`: the shared Browser.FindFirstUsable lookup over this script's Edit selectors. */
  method FindEditButtonStealthily(page: Page) returns (r: Option<WebElement>)
    ensures r == FirstUsable(page, XPaths(EditSelectors))
  {
    r := FindFirstUsable(page, XPaths(EditSelectors));
  }

  /** `find_save_button_stealthily`: the same shared lookup over this script's Save selectors. */
  method FindSaveButtonStealthily(page: Page) returns (r: Option<WebElement>)
    ensures r == FirstUsable(page, XPaths(SaveSelectors))
  {
    r := FindFirstUsable(page, XPaths(SaveSelectors));
  }

  /**
   * `stealth_click`: an action-chain click, falling back to a script click;
   * False only when both raise.
   */
  method StealthClick(e: WebElement) returns (clicked: bool)
    ensures clicked <==> e.interactable || e.scriptable
    ensures !e.interactable ==> clicked == e.scriptable
  {
    if e.interactable {
      return true;
    }
    return e.scriptable;
  }

  /** The page before any click and after the Edit click. */
  datatype Scene = Scene(before: Page, afterEdit: Page)

  datatype Action = ClickEdit | ClickSave | SendEscape

  /** `perform_stealth_activity`: its result and the clicks and keys it sends. */
  function StealthActivity(s: Scene): (bool, seq<Action>)
  {
    match FirstUsable(s.before, XPaths(EditSelectors))
    case None => (false, [])
    case Some(edit) =>
      if !(edit.interactable || edit.scriptable) then (false, [ClickEdit])
      else (
        match FirstUsable(s.afterEdit, XPaths(SaveSelectors))
        case None => (false, [ClickEdit, SendEscape])
        case Some(save) => (save.interactable || save.scriptable, [ClickEdit, ClickSave]))
  }

  method PerformStealthActivity(s: Scene) returns (ok: bool, actions: seq<Action>)
    ensures (ok, actions) == StealthActivity(s)
  {
    var edit := FindEditButtonStealthily(s.before);
    if edit.None? {
      return false, [];
    }
    var clicked := StealthClick(edit.value);
    if !clicked {
      return false, [ClickEdit];
    }
    var save := FindSaveButtonStealthily(s.afterEdit);
    if save.None? {
      return false, [ClickEdit, SendEscape];
    }
    clicked := StealthClick(save.value);
    return clicked, [ClickEdit, ClickSave];
  }

  /** True exactly when an Edit button is found and clicked, then a Save button is found and clicked. */
  lemma StealthActivityIff(s: Scene)
    ensures StealthActivity(s).0 <==>
      (var edit := FirstUsable(s.before, XPaths(EditSelectors));
       var save := FirstUsable(s.afterEdit, XPaths(SaveSelectors));
       edit.Some? && (edit.value.interactable || edit.value.scriptable)
       && save.Some? && (save.value.interactable || save.value.scriptable))
    ensures StealthActivity(s).0 ==> StealthActivity(s).1 == [ClickEdit, ClickSave]
  {
  }

  // ---------------------------------------------------------------------
  // Chunked waiting

  const Chunk: nat := 30

  /** `n` sleeps of 30 seconds. */
  function Chunks(n: nat): (s: seq<int>)
    ensures |s| == n && forall i :: 0 <= i < n ==> s[i] == Chunk
  {
    if n == 0 then [] else Chunks(n - 1) + [Chunk]
  }

  /**
   * The sleeps `start_stealth_auto_activity` performs between activities:
   * `actual // 30` chunks, then the remainder when it is positive.
   */
  method ChunkedWait(actual: nat) returns (sleeps: seq<int>)
    ensures sleeps == Chunks(actual / Chunk) + (if actual % Chunk > 0 then [actual % Chunk] else [])
  {
    var chunks := actual / Chunk;
    sleeps := [];
    var i := 0;
    while i < chunks
      invariant 0 <= i <= chunks
      invariant sleeps == Chunks(i)
    {
      sleeps := sleeps + [Chunk];
      i := i + 1;
    }
    var remaining := actual % Chunk;
    if remaining > 0 {
      sleeps := sleeps + [remaining];
    }
  }

  lemma {:induction false} SumChunks(n: nat)
    ensures Sum(Chunks(n)) == n * Chunk
  {
    if n > 0 {
      SumChunks(n - 1);
      SumAppend(Chunks(n - 1), [Chunk]);
    }
  }

  /**
   * The fixed sleeps add up to the chosen interval; every sleep but a
   * final remainder is 30 s, and the remainder lies in 1..29.
   */
  lemma ChunkedWaitTotal(actual: nat)
    ensures var plan := Chunks(actual / Chunk) + (if actual % Chunk > 0 then [actual % Chunk] else []);
      Sum(plan) == actual
      && (forall i :: 0 <= i < actual / Chunk ==> plan[i] == Chunk)
      && (|plan| > actual / Chunk ==> 1 <= plan[|plan| - 1] <= 29)
  {
    var tail := if actual % Chunk > 0 then [actual % Chunk] else [];
    SumChunks(actual / Chunk);
    SumAppend(Chunks(actual / Chunk), tail);
    assert Sum(tail) == actual % Chunk;
  }

  // ---------------------------------------------------------------------
  // The activity loop

  /** One cycle: its pages and the interval the variation produced. */
  datatype Cycle = Cycle(scene: Scene, actualInterval: nat)

  /** Cycles whose activity succeeded. */
  function Successes(cycles: seq<Cycle>): (n: nat)
    ensures n <= |cycles|
  {
    if cycles == [] then 0
    else Successes(cycles[..|cycles| - 1]) + (if StealthActivity(cycles[|cycles| - 1].scene).0 then 1 else 0)
  }

  /** The success count of two runs in a row is the sum of their counts. */
  lemma {:induction false} SuccessesAppend(first: seq<Cycle>, second: seq<Cycle>)
    ensures Successes(first + second) == Successes(first) + Successes(second)
  {
    if second == [] {
      assert first + second == first;
    } else {
      SuccessesAppend(first, second[..|second| - 1]);
      assert (first + second)[..|first + second| - 1] == first + second[..|second| - 1];
    }
  }

  /** Every cycle counts exactly when every cycle's stealth activity succeeded. */
  lemma {:induction false} AllSuccessesIff(cycles: seq<Cycle>)
    ensures Successes(cycles) == |cycles| <==> forall i :: 0 <= i < |cycles| ==> StealthActivity(cycles[i].scene).0
  {
    if cycles != [] {
      var init := cycles[..|cycles| - 1];
      AllSuccessesIff(init);
      assert forall i :: 0 <= i < |init| ==> init[i] == cycles[i];
    }
  }

  function TotalInterval(cycles: seq<Cycle>): nat
  {
    if cycles == [] then 0 else TotalInterval(cycles[..|cycles| - 1]) + cycles[|cycles| - 1].actualInterval
  }

  /**
   * `start_stealth_auto_activity`: nothing runs unless the driver starts and
   * the profile loads; each cycle performs the activity, counts a success,
   * and then waits out its interval in chunks.
   */
  method StartStealthAutoActivity(setupOk: bool, profileLoaded: bool, cycles: seq<Cycle>) returns (started: bool, activityCount: nat, waited: int)
    ensures started == (setupOk && profileLoaded)
    ensures started ==> activityCount == Successes(cycles) && waited == TotalInterval(cycles)
    ensures !started ==> activityCount == 0 && waited == 0
  {
    activityCount, waited := 0, 0;
    if !setupOk || !profileLoaded {
      return false, 0, 0;
    }
    started := true;
    var i := 0;
    while i < |cycles|
      invariant 0 <= i <= |cycles|
      invariant activityCount == Successes(cycles[..i])
      invariant waited == TotalInterval(cycles[..i])
    {
      assert cycles[..i + 1][..i] == cycles[..i];
      var ok, _ := PerformStealthActivity(cycles[i].scene);
      if ok {
        activityCount := activityCount + 1;
      }
      var sleeps := ChunkedWait(cycles[i].actualInterval);
      ChunkedWaitTotal(cycles[i].actualInterval);
      waited := waited + Sum(sleeps);
      i := i + 1;
    }
    assert cycles[..i] == cycles;
  }
}
