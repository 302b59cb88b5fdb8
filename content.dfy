/**
 * `browser_extension/content.js`: the content script on Naukri pages. It
 * collects candidate Edit and Save buttons from CSS selectors (handling a
 * jQuery-style `:contains("...")` by hand) and XPath expressions, keeps the
 * visible ones, and runs the edit-then-save sequence for a mode.
 *
 * The document is an oracle: what `querySelectorAll` and
 * `document.evaluate` return per selector (a selector it has no entry for
 * throws, which the script ignores), and for each element the properties
 * the filter reads and whether `simulateHumanClick` resolves to true.
 */
module Content {
  import opened Common
  import opened Text

  datatype Element = Element(
    id: nat,
    textContent: string,
    width: int,
    height: int,
    disabled: bool,
    display: string,
    visibility: string,
    clicks: bool)

  datatype Document = Document(css: map<string, seq<Element>>, xpath: map<string, seq<Element>>)

  const Marker: string := ":contains"

  // ---------------------------------------------------------------------
  // Selector parsing

  /** How the script treats one entry of a CSS selector list. */
  datatype Selector =
    | Plain(selector: string)
    | TextFilter(base: string, needle: string)
    | Broken  // `selector.match(...)` gave null, so reading `[1]` throws

  /** The group of the first match of `/"([^"]*)"/`: the text between the first two double quotes. */
  function QuotedText(s: string): (r: Option<string>)
    ensures r.Some? ==> !Contains(r.value, "\"")
  {
    match IndexOf(s, "\"")
    case None => None
    case Some(i) =>
      match IndexOfFrom(s, "\"", i + 1)
      case None => None
      case Some(j) =>
        NoQuoteBetween(s, i + 1, j);
        Some(s[i + 1..j])
  }

  /** A one-character needle occurs exactly where that character is. */
  lemma CharAt(s: string, c: char, j: int)
    ensures ContainsAt(s, [c], j) <==> 0 <= j < |s| && s[j] == c
  {
    if 0 <= j < |s| {
      assert s[j..j + 1] == [s[j]];
    }
  }

  lemma NoQuoteBetween(s: string, a: nat, b: nat)
    requires a <= b <= |s|
    requires forall j :: a <= j < b ==> !ContainsAt(s, "\"", j)
    ensures !Contains(s[a..b], "\"")
  {
    forall k | 0 <= k < b - a
      ensures !ContainsAt(s[a..b], "\"", k)
    {
      CharAt(s[a..b], '"', k);
      CharAt(s, '"', a + k);
    }
  }

  /**
   * A selector that includes `:contains` is split there: the text before
   * the first occurrence is the CSS selector queried and the first quoted
   * text is the needle.
   */
  function ParseSelector(sel: string): Selector
  {
    if !Contains(sel, Marker) then Plain(sel)
    else match QuotedText(sel)
      case None => Broken
      case Some(needle) => TextFilter(PrefixBefore(sel, Marker), needle)
  }

  /** `IndexOfFrom` finds `k` when `w` occurs there and nowhere between `from` and `k`. */
  lemma IndexOfFromIs(s: string, w: string, from: nat, k: nat)
    requires from <= k && ContainsAt(s, w, k)
    requires forall j :: from <= j < k ==> !ContainsAt(s, w, j)
    ensures IndexOfFrom(s, w, from) == Some(k)
  {
    var r := IndexOfFrom(s, w, from);
    assert r.Some?;
    assert !(r.value < k);
    assert !(k < r.value);
  }

  /** The marker cannot start before `n` and run past it when a marker also starts at `n`. */
  lemma MarkerStraddle(s: string, n: nat, j: nat)
    requires j < n < j + |Marker| && ContainsAt(s, Marker, n)
    ensures !ContainsAt(s, Marker, j)
  {
    assert s[n] == ':' by {
      assert s[n..n + |Marker|][0] == s[n];
    }
    var k := n - j;
    assert 1 <= k < |Marker| && Marker[k] != ':';
    if j + |Marker| <= |s| {
      assert s[j..j + |Marker|][k] == s[n];
      assert s[j..j + |Marker|] != Marker;
    }
  }

  /** No occurrence of the marker starts inside a base that does not contain it. */
  lemma MarkerAtBoundary(base: string, rest: string)
    requires !Contains(base, Marker) && |rest| >= |Marker| && rest[..|Marker|] == Marker
    ensures IndexOf(base + rest, Marker) == Some(|base|)
  {
    var s := base + rest;
    var n := |base|;
    assert s[n..n + |Marker|] == rest[..|Marker|];
    forall j | 0 <= j < n
      ensures !ContainsAt(s, Marker, j)
    {
      if j + |Marker| <= n {
        assert s[j..j + |Marker|] == base[j..j + |Marker|];
        assert !ContainsAt(base, Marker, j);
      } else {
        MarkerStraddle(s, n, j);
      }
    }
    IndexOfFromIs(s, Marker, 0, n);
  }

  /** The first quote after `from` is at the first index whose character is a quote. */
  lemma QuoteAt(s: string, from: nat, k: nat)
    requires from <= k < |s| && s[k] == '"'
    requires forall j :: from <= j < k ==> s[j] != '"'
    ensures IndexOfFrom(s, "\"", from) == Some(k)
  {
    CharAt(s, '"', k);
    forall j | from <= j < k
      ensures !ContainsAt(s, "\"", j)
    {
      CharAt(s, '"', j);
    }
    IndexOfFromIs(s, "\"", from, k);
  }

  /** The selector `base:contains("needle")` as the script's authors write it. */
  function ContainsSelector(base: string, needle: string): string
  {
    base + Marker + "(\"" + needle + "\")"
  }

  /** Where the pieces of `ContainsSelector` sit. */
  lemma ContainsSelectorLayout(base: string, needle: string)
    ensures var s := ContainsSelector(base, needle);
      var q := |base| + |Marker| + 1;
      && |s| == q + |needle| + 3
      && s[..|base|] == base
      && s[|base|..|base| + |Marker|] == Marker
      && s[|base| + |Marker|] == '('
      && s[q] == '"' && s[q + 1 + |needle|] == '"'
      && s[q + 1..q + 1 + |needle|] == needle
  {
  }

  lemma ContainsSelectorMarker(base: string, needle: string)
    requires !Contains(base, Marker)
    ensures Contains(ContainsSelector(base, needle), Marker)
    ensures PrefixBefore(ContainsSelector(base, needle), Marker) == base
  {
    var s := ContainsSelector(base, needle);
    ContainsSelectorLayout(base, needle);
    assert s == base + s[|base|..];
    MarkerAtBoundary(base, s[|base|..]);
  }

  lemma ContainsSelectorQuotes(base: string, needle: string)
    requires forall k :: 0 <= k < |base| ==> base[k] != '"'
    requires forall k :: 0 <= k < |needle| ==> needle[k] != '"'
    ensures QuotedText(ContainsSelector(base, needle)) == Some(needle)
  {
    var s := ContainsSelector(base, needle);
    ContainsSelectorLayout(base, needle);
    var n := |base|;
    var q := n + |Marker| + 1;
    forall j | 0 <= j < q
      ensures s[j] != '"'
    {
      if j < n {
        assert s[j] == s[..n][j];
      } else if j < n + |Marker| {
        assert s[j] == s[n..n + |Marker|][j - n];
      }
    }
    QuoteAt(s, 0, q);
    var e := q + 1 + |needle|;
    forall j | q + 1 <= j < e
      ensures s[j] != '"'
    {
      assert s[j] == s[q + 1..e][j - q - 1];
    }
    QuoteAt(s, q + 1, e);
  }

  /**
   * Writing a selector as `base:contains("needle")` and parsing it gives
   * back `base` and `needle`, for a base without `:contains` or quotes and a
   * needle without quotes.
   */
  lemma ParseContains(base: string, needle: string)
    requires !Contains(base, Marker)
    requires forall k :: 0 <= k < |base| ==> base[k] != '"'
    requires forall k :: 0 <= k < |needle| ==> needle[k] != '"'
    ensures ParseSelector(ContainsSelector(base, needle)) == TextFilter(base, needle)
  {
    ContainsSelectorMarker(base, needle);
    ContainsSelectorQuotes(base, needle);
  }

  // ---------------------------------------------------------------------
  // Collection

  /** `el.textContent.toLowerCase().includes(text.toLowerCase())`. */
  predicate Mentions(e: Element, needle: string)
  {
    Contains(Lower(e.textContent), Lower(needle))
  }

  function Mentioning(es: seq<Element>, needle: string): seq<Element>
  {
    if es == [] then []
    else Mentioning(es[..|es| - 1], needle) + (if Mentions(es[|es| - 1], needle) then [es[|es| - 1]] else [])
  }

  /** What one CSS entry pushes, in document order. */
  function CssMatches(doc: Document, sel: string): seq<Element>
  {
    match ParseSelector(sel)
    case Plain(s) => if s in doc.css then doc.css[s] else []
    case TextFilter(base, needle) => if base in doc.css then Mentioning(doc.css[base], needle) else []
    case Broken => []
  }

  function CssCollect(doc: Document, sels: seq<string>): seq<Element>
  {
    if sels == [] then [] else CssCollect(doc, sels[..|sels| - 1]) + CssMatches(doc, sels[|sels| - 1])
  }

  function XPathCollect(doc: Document, xs: seq<string>): seq<Element>
  {
    if xs == [] then []
    else XPathCollect(doc, xs[..|xs| - 1]) + (if xs[|xs| - 1] in doc.xpath then doc.xpath[xs[|xs| - 1]] else [])
  }

  /** Every element pushed: the CSS selectors in list order, then the XPath ones. */
  function Candidates(doc: Document, css: seq<string>, xs: seq<string>): seq<Element>
  {
    CssCollect(doc, css) + XPathCollect(doc, xs)
  }

  /** The script's visibility filter. */
  predicate Visible(e: Element)
  {
    e.width > 0 && e.height > 0 && !e.disabled && e.display != "none" && e.visibility != "hidden"
  }

  function VisibleOf(es: seq<Element>): seq<Element>
  {
    if es == [] then []
    else VisibleOf(es[..|es| - 1]) + (if Visible(es[|es| - 1]) then [es[|es| - 1]] else [])
  }

  method KeepMentioning(es: seq<Element>, needle: string) returns (kept: seq<Element>)
    ensures kept == Mentioning(es, needle)
  {
    kept := [];
    var i := 0;
    while i < |es|
      invariant 0 <= i <= |es|
      invariant kept == Mentioning(es[..i], needle)
    {
      assert es[..i + 1][..i] == es[..i];
      if Contains(Lower(es[i].textContent), Lower(needle)) {
        kept := kept + [es[i]];
      }
      i := i + 1;
    }
    assert es[..i] == es;
  }

  method KeepVisible(es: seq<Element>) returns (kept: seq<Element>)
    ensures kept == VisibleOf(es)
  {
    kept := [];
    var i := 0;
    while i < |es|
      invariant 0 <= i <= |es|
      invariant kept == VisibleOf(es[..i])
    {
      assert es[..i + 1][..i] == es[..i];
      var e := es[i];
      if e.width > 0 && e.height > 0 && !e.disabled && e.display != "none" && e.visibility != "hidden" {
        kept := kept + [e];
      }
      i := i + 1;
    }
    assert es[..i] == es;
  }

  /** What the script pushes for one CSS entry; a query that throws pushes nothing. */
  method CssPushed(doc: Document, sel: string) returns (pushed: seq<Element>)
    ensures pushed == CssMatches(doc, sel)
  {
    pushed := [];
    match ParseSelector(sel) {
      case Plain(s) =>
        if s in doc.css {
          pushed := doc.css[s];
        }
      case TextFilter(base, needle) =>
        if base in doc.css {
          pushed := KeepMentioning(doc.css[base], needle);
        }
      case Broken =>
    }
  }

  /** The CSS pass: every entry's elements appended in list order. */
  method CollectCss(doc: Document, css: seq<string>) returns (elements: seq<Element>)
    ensures elements == CssCollect(doc, css)
  {
    elements := [];
    var i := 0;
    while i < |css|
      invariant 0 <= i <= |css|
      invariant elements == CssCollect(doc, css[..i])
    {
      assert css[..i + 1][..i] == css[..i];
      var pushed := CssPushed(doc, css[i]);
      elements := elements + pushed;
      i := i + 1;
    }
    assert css[..i] == css;
  }

  /** The XPath pass, appended after what is already collected. */
  method CollectXPath(doc: Document, xs: seq<string>, start: seq<Element>) returns (elements: seq<Element>)
    ensures elements == start + XPathCollect(doc, xs)
  {
    elements := start;
    var j := 0;
    while j < |xs|
      invariant 0 <= j <= |xs|
      invariant elements == start + XPathCollect(doc, xs[..j])
    {
      assert xs[..j + 1][..j] == xs[..j];
      if xs[j] in doc.xpath {
        elements := elements + doc.xpath[xs[j]];
      }
      j := j + 1;
    }
    assert xs[..j] == xs;
  }

  /** The shared body of `findEditButtons` and `findSaveButtons`. */
  method FindButtons(doc: Document, css: seq<string>, xs: seq<string>) returns (r: seq<Element>)
    ensures r == VisibleOf(Candidates(doc, css, xs))
  {
    var fromCss := CollectCss(doc, css);
    var elements := CollectXPath(doc, xs, fromCss);
    r := KeepVisible(elements);
  }

  lemma {:induction false} VisibleOfAppend(a: seq<Element>, b: seq<Element>)
    ensures VisibleOf(a + b) == VisibleOf(a) + VisibleOf(b)
    decreases |b|
  {
    if b == [] {
      assert a + b == a;
    } else {
      assert (a + b)[..|a + b| - 1] == a + b[..|b| - 1];
      VisibleOfAppend(a, b[..|b| - 1]);
    }
  }

  /** The filter keeps exactly the visible candidates. */
  lemma {:induction false} VisibleOfMembers(es: seq<Element>)
    ensures forall e :: e in VisibleOf(es) <==> e in es && Visible(e)
  {
    if es != [] {
      var init := es[..|es| - 1];
      VisibleOfMembers(init);
      assert es == init + [es[|es| - 1]];
    }
  }

  /** A text filter keeps exactly the elements whose text mentions the needle, ignoring case. */
  lemma {:induction false} MentioningMembers(es: seq<Element>, needle: string)
    ensures forall e :: e in Mentioning(es, needle) <==> e in es && Mentions(e, needle)
  {
    if es != [] {
      var init := es[..|es| - 1];
      MentioningMembers(init, needle);
      assert es == init + [es[|es| - 1]];
    }
  }

  /**
   * List order is kept: the buttons from the CSS selectors come before
   * those from the XPath expressions, each group filtered separately.
   */
  lemma FoundInListOrder(doc: Document, css: seq<string>, xs: seq<string>)
    ensures VisibleOf(Candidates(doc, css, xs)) == VisibleOf(CssCollect(doc, css)) + VisibleOf(XPathCollect(doc, xs))
  {
    VisibleOfAppend(CssCollect(doc, css), XPathCollect(doc, xs));
  }

  const EditCss: seq<string> := [
    "button:contains(\"Edit\")", "a:contains(\"Edit\")", "span:contains(\"Edit\")",
    "button[title*=\"Edit\"]", "a[title*=\"Edit\"]", "button[aria-label*=\"Edit\"]", "a[aria-label*=\"Edit\"]",
    "button[class*=\"edit\"]", "a[class*=\"edit\"]", "span[class*=\"edit\"]",
    "i[class*=\"edit\"]", "i[class*=\"pencil\"]", "svg[class*=\"edit\"]",
    ".edit-btn", ".edit-link", ".edit-icon", "[data-action=\"edit\"]", "[data-testid*=\"edit\"]"]

  const EditXPath: seq<string> := [
    "//button[contains(text(), \"Edit\")]", "//a[contains(text(), \"Edit\")]", "//span[contains(text(), \"Edit\")]",
    "//button[contains(@title, \"Edit\")]", "//a[contains(@title, \"Edit\")]",
    "//button[contains(@class, \"edit\")]", "//a[contains(@class, \"edit\")]"]

  const SaveCss: seq<string> := [
    "button:contains(\"Save\")", "button:contains(\"Update\")", "button:contains(\"Submit\")", "a:contains(\"Save\")",
    "button[type=\"submit\"]", "input[type=\"submit\"]", "button[title*=\"Save\"]", "button[aria-label*=\"Save\"]",
    "button[class*=\"save\"]", "button[class*=\"submit\"]", "button[class*=\"update\"]",
    ".save-btn", ".submit-btn", ".update-btn", "[data-action=\"save\"]", "[data-testid*=\"save\"]"]

  const SaveXPath: seq<string> := [
    "//button[contains(text(), \"Save\")]", "//button[contains(text(), \"Update\")]",
    "//button[contains(text(), \"Submit\")]", "//input[@type=\"submit\"]", "//button[@type=\"submit\"]"]

  function EditButtons(doc: Document): seq<Element>
  {
    VisibleOf(Candidates(doc, EditCss, EditXPath))
  }

  function SaveButtons(doc: Document): seq<Element>
  {
    VisibleOf(Candidates(doc, SaveCss, SaveXPath))
  }

  method FindEditButtons(doc: Document) returns (r: seq<Element>)
    ensures r == EditButtons(doc)
  {
    r := FindButtons(doc, EditCss, EditXPath);
  }

  method FindSaveButtons(doc: Document) returns (r: seq<Element>)
    ensures r == SaveButtons(doc)
  {
    r := FindButtons(doc, SaveCss, SaveXPath);
  }

  // ---------------------------------------------------------------------
  // Modes

  /** The delays of a mode's configuration, in milliseconds. */
  datatype ModeConfig = ModeConfig(minDelay: int, maxDelay: int)

  const Stealth: ModeConfig := ModeConfig(1000, 3000)
  const Normal: ModeConfig := ModeConfig(500, 1500)
  const Aggressive: ModeConfig := ModeConfig(100, 500)

  /** `config[mode] || config.stealth`. */
  function ConfigFor(mode: string): (c: ModeConfig)
    ensures c.minDelay < c.maxDelay
    ensures c == Stealth || c == Normal || c == Aggressive
  {
    if mode == "normal" then Normal
    else if mode == "aggressive" then Aggressive
    else Stealth
  }

  /** An unknown mode gets the stealth delays; the three named modes get their own. */
  lemma ConfigFallback(mode: string)
    ensures mode != "normal" && mode != "aggressive" ==> ConfigFor(mode) == ConfigFor("stealth")
    ensures ConfigFor("normal") != ConfigFor("stealth") && ConfigFor("aggressive") != ConfigFor("stealth")
  {
  }

  // ---------------------------------------------------------------------
  // The activity

  const NoEdit: string := "No edit buttons found on page"
  const EditClickFailed: string := "Failed to click edit button"
  const NoSave: string := "No save buttons found after edit"
  const SaveClickFailed: string := "Failed to click save button"
  const Completed: string := "Edit and save completed successfully"

  datatype Outcome = Outcome(success: bool, message: string)

  /**
   * `performActivity` once its delays are over: `pick` is the random index
   * `Math.floor(Math.random() * n)` among the `n` edit buttons, taken
   * modulo `n`; `afterEdit` is the document once the Edit click has
   * taken effect.
   */
  function Activity(before: Document, pick: nat, afterEdit: Document): Outcome
  {
    var edits := EditButtons(before);
    if |edits| == 0 then Outcome(false, NoEdit)
    else if !edits[pick % |edits|].clicks then Outcome(false, EditClickFailed)
    else
      var saves := SaveButtons(afterEdit);
      if |saves| == 0 then Outcome(false, NoSave)
      else if !saves[0].clicks then Outcome(false, SaveClickFailed)
      else Outcome(true, Completed)
  }

  /** Runs the activity and reports which configuration, edit button and save button it used. */
  method PerformActivity(mode: string, before: Document, pick: nat, afterEdit: Document)
    returns (config: ModeConfig, result: Outcome, edit: Option<Element>, save: Option<Element>)
    ensures config == ConfigFor(mode)
    ensures result == Activity(before, pick, afterEdit)
    ensures edit.Some? <==> |EditButtons(before)| > 0
    ensures edit.Some? ==> edit.value in EditButtons(before)
    ensures save.Some? ==> |SaveButtons(afterEdit)| > 0 && save.value == SaveButtons(afterEdit)[0]
    ensures result.success ==> save.Some? && save.value.clicks && edit.value.clicks
  {
    config := ConfigFor(mode);
    edit, save := None, None;
    var edits := FindEditButtons(before);
    if |edits| == 0 {
      return config, Outcome(false, NoEdit), None, None;
    }
    var e := edits[pick % |edits|];
    edit := Some(e);
    if !e.clicks {
      return config, Outcome(false, EditClickFailed), edit, None;
    }
    var saves := FindSaveButtons(afterEdit);
    if |saves| == 0 {
      return config, Outcome(false, NoSave), edit, None;
    }
    save := Some(saves[0]);
    if !saves[0].clicks {
      return config, Outcome(false, SaveClickFailed), edit, save;
    }
    result := Outcome(true, Completed);
  }

  /**
   * Success exactly when some edit button exists, the chosen one is
   * clicked, some save button exists and the first one is clicked; a
   * failure reports the first step that failed.
   */
  lemma ActivityOutcome(before: Document, pick: nat, afterEdit: Document)
    ensures var edits := EditButtons(before);
      var saves := SaveButtons(afterEdit);
      Activity(before, pick, afterEdit).success <==>
        |edits| > 0 && edits[pick % |edits|].clicks && |saves| > 0 && saves[0].clicks
    ensures var r := Activity(before, pick, afterEdit);
      r.success <==> r.message == Completed
    ensures |EditButtons(before)| == 0 ==> Activity(before, pick, afterEdit).message == NoEdit
  {
  }
}
