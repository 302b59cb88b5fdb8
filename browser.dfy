/**
 * The Selenium WebDriver as the scripts see it: an oracle that answers
 * element queries. A page (or the subtree of one element) is the list of
 * elements each locator returns; a locator the page has no entry for makes
 * the query raise. Every script's lookups are built from the few patterns
 * defined here.
 */
module Browser {
  import opened Common
  import Text

  /** How a Selenium locator addresses elements (`By.XPATH`, `By.CSS_SELECTOR`, ...). */
  datatype By = XPath | CssSelector | ClassName | TagName | Id | Name

  datatype Locator = Locator(how: By, selector: string)

  /**
   * What the driver reports about one element when a script probes it.
   * `stale`: every probe (`is_displayed`, `text`, `get_attribute`) raises.
   * `interactable`: a native `click()`, `clear()` or `send_keys()` succeeds.
   * `scriptable`: `execute_script("arguments[0].click();", e)` succeeds.
   * `attributes`: the attributes that are present; `get_attribute` of any
   * other name gives None.
   */
  datatype WebElement = WebElement(
    id: nat,
    displayed: bool,
    enabled: bool,
    stale: bool,
    text: string,
    attributes: map<string, string>,
    interactable: bool,
    scriptable: bool)

  /** The answers of `find_elements` per locator; a missing locator raises. */
  type Page = map<Locator, seq<WebElement>>

  function XPaths(sels: seq<string>): (r: seq<Locator>)
    ensures |r| == |sels|
    ensures forall i :: 0 <= i < |sels| ==> r[i] == Locator(XPath, sels[i])
  {
    seq(|sels|, i requires 0 <= i < |sels| => Locator(XPath, sels[i]))
  }

  function Css(sels: seq<string>): (r: seq<Locator>)
    ensures |r| == |sels|
    ensures forall i :: 0 <= i < |sels| ==> r[i] == Locator(CssSelector, sels[i])
  {
    seq(|sels|, i requires 0 <= i < |sels| => Locator(CssSelector, sels[i]))
  }

  /** `find_element`: the first match, or None where Selenium raises. */
  function FindElement(page: Page, loc: Locator): (r: Option<WebElement>)
    ensures r.Some? <==> loc in page && |page[loc]| > 0
    ensures r.Some? ==> r.value == page[loc][0]
  {
    if loc in page && |page[loc]| > 0 then Some(page[loc][0]) else None
  }

  /** `element.is_displayed() and element.is_enabled()` answered True. */
  predicate Usable(e: WebElement)
  {
    !e.stale && e.displayed && e.enabled
  }

  /** Nothing before index `i` is usable, and nothing before it raised. */
  predicate PassedOver(es: seq<WebElement>, i: int)
  {
    0 <= i <= |es| && forall j :: 0 <= j < i ==> !es[j].stale && !Usable(es[j])
  }

  /**
   * The inner loop of a first-match lookup over one locator's elements: the
   * first usable element, unless probing an element raises first, which
   * abandons the rest of that locator's list.
   */
  function ScanElements(es: seq<WebElement>): (r: Option<WebElement>)
    ensures r.Some? ==> exists i :: 0 <= i < |es| && es[i] == r.value && Usable(es[i]) && PassedOver(es, i)
    ensures r.None? ==> forall i :: 0 <= i < |es| && PassedOver(es, i) ==> !Usable(es[i])
  {
    if es == [] then None
    else if es[0].stale then None
    else if es[0].displayed && es[0].enabled then Some(es[0])
    else
      var r := ScanElements(es[1..]);
      assert forall i :: 1 <= i <= |es| && PassedOver(es, i) ==> PassedOver(es[1..], i - 1);
      assert forall i :: 0 <= i < |es| - 1 && PassedOver(es[1..], i) ==> PassedOver(es, i + 1);
      r
  }

  function ScanLocator(page: Page, loc: Locator): Option<WebElement>
  {
    if loc in page then ScanElements(page[loc]) else None
  }

  /**
   * The selector-priority lookup every script repeats: locators in order,
   * then elements in order, and the first usable element or None.
   */
  function FirstUsable(page: Page, locs: seq<Locator>): Option<WebElement>
  {
    if locs == [] then None
    else match ScanLocator(page, locs[0])
      case Some(e) => Some(e)
      case None => FirstUsable(page, locs[1..])
  }

  /** The inner `for element in elements` loop of a lookup. */
  method ScanLoop(es: seq<WebElement>) returns (r: Option<WebElement>)
    ensures r == ScanElements(es)
  {
    var j := 0;
    while j < |es|
      invariant 0 <= j <= |es|
      invariant ScanElements(es) == ScanElements(es[j..])
    {
      assert es[j..][1..] == es[j + 1..];
      if es[j].stale {
        return None;
      }
      if es[j].displayed && es[j].enabled {
        return Some(es[j]);
      }
      j := j + 1;
    }
    return None;
  }

  /** The lookup as the scripts write it: a `for` over locators around a `for` over elements. */
  method FindFirstUsable(page: Page, locs: seq<Locator>) returns (r: Option<WebElement>)
    ensures r == FirstUsable(page, locs)
  {
    var i := 0;
    while i < |locs|
      invariant 0 <= i <= |locs|
      invariant FirstUsable(page, locs) == FirstUsable(page, locs[i..])
    {
      assert locs[i..][1..] == locs[i + 1..];
      if locs[i] in page {
        var found := ScanLoop(page[locs[i]]);
        if found.Some? {
          return found;
        }
      }
      i := i + 1;
    }
    return None;
  }

  /** A found element is usable and was returned by one of the locators. */
  lemma {:induction false} FirstUsableSound(page: Page, locs: seq<Locator>)
    ensures var r := FirstUsable(page, locs);
      r.Some? ==> Usable(r.value) && exists k :: 0 <= k < |locs| && locs[k] in page && r.value in page[locs[k]]
  {
    if locs != [] {
      FirstUsableSound(page, locs[1..]);
      var r := FirstUsable(page, locs);
      if ScanLocator(page, locs[0]).Some? {
        assert locs[0] in page && r.value in page[locs[0]];
      } else if r.Some? {
        var k :| 0 <= k < |locs[1..]| && locs[1..][k] in page && r.value in page[locs[1..][k]];
        assert locs[k + 1] == locs[1..][k];
      }
    }
  }

  /** None means that no locator's scan reached a usable element. */
  lemma {:induction false} FirstUsableNone(page: Page, locs: seq<Locator>)
    requires FirstUsable(page, locs).None?
    ensures forall k :: 0 <= k < |locs| ==> ScanLocator(page, locs[k]).None?
  {
    if locs != [] {
      FirstUsableNone(page, locs[1..]);
      forall k | 1 <= k < |locs| ensures ScanLocator(page, locs[k]).None? {
        assert locs[k] == locs[1..][k - 1];
      }
    }
  }

  /** Once a locator's scan succeeds, later locators are never consulted. */
  lemma {:induction false} FirstUsablePriority(page: Page, locs: seq<Locator>, k: nat)
    requires k < |locs| && ScanLocator(page, locs[k]).Some?
    requires forall j :: 0 <= j < k ==> ScanLocator(page, locs[j]).None?
    ensures FirstUsable(page, locs) == ScanLocator(page, locs[k])
  {
    if k > 0 {
      forall j | 0 <= j < k - 1 ensures ScanLocator(page, locs[1..][j]).None? {
        assert locs[1..][j] == locs[j + 1];
      }
      FirstUsablePriority(page, locs[1..], k - 1);
    }
  }

  /** Every element the locators return, in locator order (missing locators give nothing). */
  function Candidates(page: Page, locs: seq<Locator>): seq<WebElement>
  {
    if locs == [] then []
    else (if locs[0] in page then page[locs[0]] else []) + Candidates(page, locs[1..])
  }

  predicate NoneStale(es: seq<WebElement>)
  {
    forall i :: 0 <= i < |es| ==> !es[i].stale
  }

  /** First usable element of a flat list. */
  function FirstOf(es: seq<WebElement>): (r: Option<WebElement>)
    ensures r.Some? ==> Usable(r.value)
  {
    if es == [] then None
    else if Usable(es[0]) then Some(es[0])
    else FirstOf(es[1..])
  }

  lemma {:induction false} FirstOfAppend(a: seq<WebElement>, b: seq<WebElement>)
    ensures FirstOf(a + b) == if FirstOf(a).Some? then FirstOf(a) else FirstOf(b)
  {
    if a != [] {
      assert (a + b)[1..] == a[1..] + b;
      FirstOfAppend(a[1..], b);
    } else {
      assert a + b == b;
    }
  }

  lemma {:induction false} ScanWithoutStale(es: seq<WebElement>)
    requires NoneStale(es)
    ensures ScanElements(es) == FirstOf(es)
  {
    if es != [] {
      ScanWithoutStale(es[1..]);
    }
  }

  /**
   * On a page where no probe raises, the lookup finds the first usable
   * element of all candidates in locator order: an element found through
   * the n-th locator means that no earlier locator returned a usable one.
   */
  lemma {:induction false} FirstUsableFlat(page: Page, locs: seq<Locator>)
    requires NoneStale(Candidates(page, locs))
    ensures FirstUsable(page, locs) == FirstOf(Candidates(page, locs))
  {
    if locs != [] {
      var head := if locs[0] in page then page[locs[0]] else [];
      var rest := Candidates(page, locs[1..]);
      assert Candidates(page, locs) == head + rest;
      assert forall i :: 0 <= i < |head| ==> head[i] == (head + rest)[i];
      assert forall i :: 0 <= i < |rest| ==> rest[i] == (head + rest)[|head| + i];
      ScanWithoutStale(head);
      FirstUsableFlat(page, locs[1..]);
      FirstOfAppend(head, rest);
    }
  }

  /**
   * `find_element` per locator, acting on the first element that is
   * displayed (and enabled, when `needEnabled`) and accepts the native
   * interaction; a query that raises, a probe that raises or an interaction
   * that raises moves on to the next locator.
   */
  predicate Accepts(o: Option<WebElement>, needEnabled: bool)
  {
    o.Some? && !o.value.stale && o.value.displayed && (needEnabled ==> o.value.enabled) && o.value.interactable
  }

  function FirstActionable(page: Page, locs: seq<Locator>, needEnabled: bool): Option<WebElement>
  {
    if locs == [] then None
    else if Accepts(FindElement(page, locs[0]), needEnabled) then FindElement(page, locs[0])
    else FirstActionable(page, locs[1..], needEnabled)
  }

  /** The `for selector in selectors: try: find_element ...` loop. */
  method ActOnFirst(page: Page, locs: seq<Locator>, needEnabled: bool) returns (acted: Option<WebElement>)
    ensures acted == FirstActionable(page, locs, needEnabled)
  {
    var i := 0;
    while i < |locs|
      invariant 0 <= i <= |locs|
      invariant FirstActionable(page, locs, needEnabled) == FirstActionable(page, locs[i..], needEnabled)
    {
      assert locs[i..][1..] == locs[i + 1..];
      var found := FindElement(page, locs[i]);
      if found.Some? {
        var e := found.value;
        if !e.stale && e.displayed && (!needEnabled || e.enabled) && e.interactable {
          return found;
        }
      }
      i := i + 1;
    }
    assert locs[i..] == [];
    return None;
  }

  /**
   * At most one element is acted on: the acted element is the first match
   * of locator `k`, and every earlier locator was passed over.
   */
  lemma {:induction false} FirstActionableIsFirst(page: Page, locs: seq<Locator>, needEnabled: bool)
    ensures var r := FirstActionable(page, locs, needEnabled);
      (r.Some? ==> exists k :: 0 <= k < |locs| && r == FindElement(page, locs[k]) && Accepts(r, needEnabled)
                     && forall j :: 0 <= j < k ==> !Accepts(FindElement(page, locs[j]), needEnabled))
      && (r.None? ==> forall k :: 0 <= k < |locs| ==> !Accepts(FindElement(page, locs[k]), needEnabled))
  {
    if locs != [] {
      FirstActionableIsFirst(page, locs[1..], needEnabled);
      var r := FirstActionable(page, locs, needEnabled);
      if !Accepts(FindElement(page, locs[0]), needEnabled) {
        if r.Some? {
          var k :| 0 <= k < |locs[1..]| && r == FindElement(page, locs[1..][k]) && Accepts(r, needEnabled)
                   && forall j :: 0 <= j < k ==> !Accepts(FindElement(page, locs[1..][j]), needEnabled);
          assert locs[k + 1] == locs[1..][k];
          forall j | 0 <= j < k + 1 ensures !Accepts(FindElement(page, locs[j]), needEnabled) {
            if j > 0 {
              assert locs[j] == locs[1..][j - 1];
            }
          }
        } else {
          forall k | 0 <= k < |locs| ensures !Accepts(FindElement(page, locs[k]), needEnabled) {
            if k > 0 {
              assert locs[k] == locs[1..][k - 1];
            }
          }
        }
      }
    }
  }

  /**
   * One locator's list in a collect-all lookup: the elements that pass
   * `keep`, in order, until a probe raises, which abandons the rest of the
   * list but keeps what was collected before it.
   */
  function KeepWhere(es: seq<WebElement>, keep: WebElement -> bool): seq<WebElement>
  {
    if es == [] || es[0].stale then []
    else (if keep(es[0]) then [es[0]] else []) + KeepWhere(es[1..], keep)
  }

  /** A collect-all lookup: every locator's contribution, in locator order. */
  function CollectWhere(page: Page, locs: seq<Locator>, keep: WebElement -> bool): seq<WebElement>
  {
    if locs == [] then []
    else (if locs[0] in page then KeepWhere(page[locs[0]], keep) else []) + CollectWhere(page, locs[1..], keep)
  }

  /** The inner loop over one locator's elements. */
  method KeepLoop(es: seq<WebElement>, keep: WebElement -> bool) returns (kept: seq<WebElement>)
    ensures kept == KeepWhere(es, keep)
  {
    kept := [];
    var j := 0;
    while j < |es|
      invariant 0 <= j <= |es|
      invariant kept + KeepWhere(es[j..], keep) == KeepWhere(es, keep)
    {
      assert es[j..][1..] == es[j + 1..];
      if es[j].stale {
        assert kept + [] == kept;
        return;
      }
      if keep(es[j]) {
        kept := kept + [es[j]];
      }
      j := j + 1;
    }
  }

  /** The outer loop, appending each locator's contribution. */
  method CollectAll(page: Page, locs: seq<Locator>, keep: WebElement -> bool) returns (found: seq<WebElement>)
    ensures found == CollectWhere(page, locs, keep)
  {
    found := [];
    var i := 0;
    while i < |locs|
      invariant 0 <= i <= |locs|
      invariant found + CollectWhere(page, locs[i..], keep) == CollectWhere(page, locs, keep)
    {
      assert locs[i..][1..] == locs[i + 1..];
      if locs[i] in page {
        var more := KeepLoop(page[locs[i]], keep);
        found := found + more;
      }
      i := i + 1;
    }
    assert locs[i..] == [];
  }

  /** The elements of a flat list that pass `keep`. */
  function Filter(es: seq<WebElement>, keep: WebElement -> bool): seq<WebElement>
  {
    if es == [] then [] else (if keep(es[0]) then [es[0]] else []) + Filter(es[1..], keep)
  }

  lemma {:induction false} FilterAppend(a: seq<WebElement>, b: seq<WebElement>, keep: WebElement -> bool)
    ensures Filter(a + b, keep) == Filter(a, keep) + Filter(b, keep)
  {
    if a == [] {
      assert a + b == b;
    } else {
      assert (a + b)[1..] == a[1..] + b;
      FilterAppend(a[1..], b, keep);
    }
  }

  lemma {:induction false} KeepWithoutStale(es: seq<WebElement>, keep: WebElement -> bool)
    requires NoneStale(es)
    ensures KeepWhere(es, keep) == Filter(es, keep)
  {
    if es != [] {
      KeepWithoutStale(es[1..], keep);
    }
  }

  /**
   * On a page where no probe raises, a collect-all lookup returns exactly
   * the candidates that pass `keep`, in locator order, an element returned
   * by two locators appearing twice.
   */
  lemma {:induction false} CollectFlat(page: Page, locs: seq<Locator>, keep: WebElement -> bool)
    requires NoneStale(Candidates(page, locs))
    ensures CollectWhere(page, locs, keep) == Filter(Candidates(page, locs), keep)
  {
    if locs != [] {
      var head := if locs[0] in page then page[locs[0]] else [];
      var rest := Candidates(page, locs[1..]);
      assert Candidates(page, locs) == head + rest;
      NoneStaleSplit(head, rest);
      KeepWithoutStale(head, keep);
      CollectFlat(page, locs[1..], keep);
      FilterAppend(head, rest, keep);
    }
  }

  lemma NoneStaleSplit(a: seq<WebElement>, b: seq<WebElement>)
    requires NoneStale(a + b)
    ensures NoneStale(a) && NoneStale(b)
  {
    assert forall i :: 0 <= i < |a| ==> a[i] == (a + b)[i];
    assert forall i :: 0 <= i < |b| ==> b[i] == (a + b)[|a| + i];
  }

  /** Whatever a collect-all lookup returns passed `keep` and came from one of the locators. */
  lemma {:induction false} CollectSound(page: Page, locs: seq<Locator>, keep: WebElement -> bool)
    ensures forall e :: e in CollectWhere(page, locs, keep) ==> keep(e) && e in Candidates(page, locs)
  {
    if locs != [] {
      CollectSound(page, locs[1..], keep);
      var head := if locs[0] in page then page[locs[0]] else [];
      KeepSound(head, keep);
      assert Candidates(page, locs) == head + Candidates(page, locs[1..]);
    }
  }

  lemma {:induction false} KeepSound(es: seq<WebElement>, keep: WebElement -> bool)
    ensures forall e :: e in KeepWhere(es, keep) ==> keep(e) && e in es
  {
    if es != [] && !es[0].stale {
      KeepSound(es[1..], keep);
      assert es == [es[0]] + es[1..];
    }
  }

  /**
   * `find_element(...).text.strip()` over a list of locators, keeping the
   * first one that answers: the text of the first locator whose query and
   * text read both succeed.
   */
  function FirstText(page: Page, locs: seq<Locator>): (r: Option<string>)
  {
    if locs == [] then None
    else match FindElement(page, locs[0])
      case Some(e) =>
        if e.stale then FirstText(page, locs[1..])
        else Some(Text.Strip(e.text))
      case None => FirstText(page, locs[1..])
  }
}
