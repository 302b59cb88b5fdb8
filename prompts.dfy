/**
 * The terminal prompts the scripts open before starting: the URL prompt
 * loops and the interval prompt loop. The user's answers are a finite list
 * of lines; when the list runs out, `input()` raises and the prompt gives
 * nothing.
 */
module Prompts {
  import opened Common
  import opened Text

  const Http: string := "http://"
  const Https: string := "https://"

  /** `url.startswith(('http://', 'https://'))`. */
  predicate HasScheme(url: string)
  {
    StartsWith(url, Http) || StartsWith(url, Https)
  }

  /** `'https://' + url` unless the URL already names its scheme. */
  function NormalizeUrl(url: string): (r: string)
    ensures HasScheme(r)
    ensures HasScheme(url) ==> r == url
    ensures !HasScheme(url) ==> r == Https + url
  {
    if HasScheme(url) then url else Https + url
  }

  lemma NormalizeUrlIdempotent(url: string)
    ensures NormalizeUrl(NormalizeUrl(url)) == NormalizeUrl(url)
  {
  }

  /** The original text is kept at the end of the normalised URL. */
  lemma NormalizeUrlKeepsUrl(url: string)
    ensures var r := NormalizeUrl(url);
      |url| <= |r| && r[|r| - |url|..] == url
  {
  }

  /**
   * A stripped answer the URL prompt accepts: non-empty, and, in the
   * scripts that reject comments, not starting with `#`.
   */
  predicate AcceptableUrl(answer: string, rejectComment: bool)
  {
    answer != [] && !(rejectComment && answer[0] == '#')
  }

  /** A raw line that the prompt accepts once stripped. */
  predicate AcceptableLine(line: string, rejectComment: bool)
  {
    AcceptableUrl(Strip(line), rejectComment)
  }

  /** Index of the first acceptable answer, or None. */
  function FirstAcceptable(lines: seq<string>, rejectComment: bool): (r: Option<nat>)
    ensures r.Some? ==> r.value < |lines| && AcceptableLine(lines[r.value], rejectComment)
    ensures forall k :: 0 <= k < |lines| && (r.None? || k < r.value) ==> !AcceptableLine(lines[k], rejectComment)
  {
    if lines == [] then None
    else if AcceptableLine(lines[0], rejectComment) then Some(0)
    else match FirstAcceptable(lines[1..], rejectComment)
      case None => None
      case Some(k) => Some(k + 1)
  }

  /** What the URL prompt returns: the first acceptable answer, stripped and normalised. */
  function UrlAnswer(lines: seq<string>, rejectComment: bool): Option<string>
  {
    match FirstAcceptable(lines, rejectComment)
    case None => None
    case Some(k) => Some(NormalizeUrl(Strip(lines[k])))
  }

  /**
   * `while True: url = input(...).strip(); if <acceptable>: normalise; break`.
   * `used` is how many answers were read.
   */
  method ReadUrl(lines: seq<string>, rejectComment: bool) returns (url: Option<string>, used: nat)
    ensures url == UrlAnswer(lines, rejectComment)
    ensures url.Some? ==> used == FirstAcceptable(lines, rejectComment).value + 1
    ensures url.None? ==> used == |lines|
  {
    used := 0;
    while used < |lines|
      invariant 0 <= used <= |lines|
      invariant forall k :: 0 <= k < used ==> !AcceptableLine(lines[k], rejectComment)
    {
      var answer := Strip(lines[used]);
      used := used + 1;
      if answer != [] && !(rejectComment && answer[0] == '#') {
        FirstAcceptableAt(lines, rejectComment, used - 1);
        return Some(NormalizeUrl(answer)), used;
      }
    }
    FirstAcceptableNone(lines, rejectComment);
    return None, used;
  }

  lemma {:induction false} FirstAcceptableAt(lines: seq<string>, rejectComment: bool, k: nat)
    requires k < |lines| && AcceptableLine(lines[k], rejectComment)
    requires forall j :: 0 <= j < k ==> !AcceptableLine(lines[j], rejectComment)
    ensures FirstAcceptable(lines, rejectComment) == Some(k)
  {
    var r := FirstAcceptable(lines, rejectComment);
    if r.None? || r.value > k {
    } else if r.value < k {
    }
  }

  lemma FirstAcceptableNone(lines: seq<string>, rejectComment: bool)
    requires forall j :: 0 <= j < |lines| ==> !AcceptableLine(lines[j], rejectComment)
    ensures FirstAcceptable(lines, rejectComment) == None
  {
  }

  /** An accepted URL is never empty, names its scheme, and is never a comment line. */
  lemma UrlAnswerShape(lines: seq<string>, rejectComment: bool)
    ensures var u := UrlAnswer(lines, rejectComment);
      u.Some? ==> HasScheme(u.value) && (rejectComment ==> u.value[0] != '#')
  {
  }

  /** Answers that strip to nothing are passed over: the prompt asks again. */
  lemma UrlAnswerSkipsBlank(line: string, rest: seq<string>, rejectComment: bool)
    requires Strip(line) == []
    ensures UrlAnswer([line] + rest, rejectComment) == UrlAnswer(rest, rejectComment)
  {
    FirstAcceptableSkips([line] + rest, rejectComment);
    assert ([line] + rest)[1..] == rest;
  }

  /** Where comments are refused, a `#` answer is passed over and the prompt asks again. */
  lemma UrlAnswerSkipsComment(line: string, rest: seq<string>)
    requires Strip(line) != [] && Strip(line)[0] == '#'
    ensures UrlAnswer([line] + rest, true) == UrlAnswer(rest, true)
  {
    FirstAcceptableSkips([line] + rest, true);
    assert ([line] + rest)[1..] == rest;
  }

  /** Where comments are allowed, a `#` answer is accepted as a URL. */
  lemma UrlAnswerKeepsComment(line: string, rest: seq<string>)
    requires Strip(line) != [] && Strip(line)[0] == '#'
    ensures UrlAnswer([line] + rest, false) == Some(NormalizeUrl(Strip(line)))
  {
  }

  lemma FirstAcceptableSkips(lines: seq<string>, rejectComment: bool)
    requires lines != [] && !AcceptableLine(lines[0], rejectComment)
    ensures UrlAnswer(lines, rejectComment) == UrlAnswer(lines[1..], rejectComment)
  {
    match FirstAcceptable(lines[1..], rejectComment)
    case None =>
    case Some(k) =>
      assert lines[k + 1] == lines[1..][k];
  }

  /** One answer to the interval prompt, after `strip()` and `float()`. */
  datatype IntervalAnswer = Blank | NotANumber | Minutes(m: real)

  /** Python's `int(x)` on a float: truncation toward zero. */
  function Truncate(x: real): int
  {
    if x >= 0.0 then x.Floor else -((-x).Floor)
  }

  /** Index of the first answer that ends the interval prompt. */
  function FirstInterval(answers: seq<IntervalAnswer>): (r: Option<nat>)
    ensures r.Some? ==> r.value < |answers| && (answers[r.value].Blank? || (answers[r.value].Minutes? && answers[r.value].m > 0.0))
    ensures forall k :: 0 <= k < |answers| && (r.None? || k < r.value) ==> answers[k].NotANumber? || (answers[k].Minutes? && answers[k].m <= 0.0)
  {
    if answers == [] then None
    else if answers[0].Blank? || (answers[0].Minutes? && answers[0].m > 0.0) then Some(0)
    else match FirstInterval(answers[1..])
      case None => None
      case Some(k) => Some(k + 1)
  }

  /** `int(interval_minutes * 60)` for the answer that ended the prompt. */
  function IntervalSeconds(answers: seq<IntervalAnswer>, defaultMinutes: int): Option<int>
  {
    match FirstInterval(answers)
    case None => None
    case Some(k) =>
      if answers[k].Blank? then Some(defaultMinutes * 60) else Some(Truncate(answers[k].m * 60.0))
  }

  /**
   * The interval prompt: a blank answer takes the default, a number that is
   * not positive or not a number asks again, and the accepted minutes are
   * converted to whole seconds.
   */
  method ReadInterval(answers: seq<IntervalAnswer>, defaultMinutes: int) returns (seconds: Option<int>, used: nat)
    ensures seconds == IntervalSeconds(answers, defaultMinutes)
    ensures seconds.Some? ==> used == FirstInterval(answers).value + 1
    ensures seconds.None? ==> used == |answers|
  {
    used := 0;
    while used < |answers|
      invariant 0 <= used <= |answers|
      invariant forall k :: 0 <= k < used ==> answers[k].NotANumber? || (answers[k].Minutes? && answers[k].m <= 0.0)
    {
      var a := answers[used];
      used := used + 1;
      if a.Blank? {
        FirstIntervalAt(answers, used - 1);
        return Some(defaultMinutes * 60), used;
      }
      if a.Minutes? {
        if a.m <= 0.0 {
          continue;
        }
        FirstIntervalAt(answers, used - 1);
        return Some(Truncate(a.m * 60.0)), used;
      }
    }
    return None, used;
  }

  lemma {:induction false} FirstIntervalAt(answers: seq<IntervalAnswer>, k: nat)
    requires k < |answers| && (answers[k].Blank? || (answers[k].Minutes? && answers[k].m > 0.0))
    requires forall j :: 0 <= j < k ==> answers[j].NotANumber? || (answers[j].Minutes? && answers[j].m <= 0.0)
    ensures FirstInterval(answers) == Some(k)
  {
    var r := FirstInterval(answers);
    if r.None? || r.value > k {
    } else if r.value < k {
    }
  }

  /** The accepted interval is never negative; a blank answer gives the default in seconds. */
  lemma IntervalSecondsProps(answers: seq<IntervalAnswer>, defaultMinutes: int)
    requires defaultMinutes >= 0
    ensures var s := IntervalSeconds(answers, defaultMinutes);
      s.Some? ==> s.value >= 0
    ensures answers != [] && answers[0].Blank? ==> IntervalSeconds(answers, defaultMinutes) == Some(defaultMinutes * 60)
  {
    match FirstInterval(answers)
    case None =>
    case Some(k) =>
      if answers[k].Minutes? {
        assert answers[k].m * 60.0 > 0.0;
      }
  }

  /** A positive answer of less than a second's worth of minutes gives 0 seconds. */
  lemma TinyIntervalIsZero(rest: seq<IntervalAnswer>)
    ensures IntervalSeconds([Minutes(0.01)] + rest, 5) == Some(0)
  {
  }

  /** Whole minutes convert exactly. */
  lemma WholeMinutes(n: nat, rest: seq<IntervalAnswer>)
    requires n > 0
    ensures IntervalSeconds([Minutes(n as real)] + rest, 5) == Some(60 * n)
  {
    assert (n as real) * 60.0 == (60 * n) as real;
  }

  /**
   * The `get_user_input` of the scripts that ask for a URL and an interval:
   * the URL prompt, then the interval prompt; None where the answers run out.
   */
  method GetUserInput(urlLines: seq<string>, rejectComment: bool, intervals: seq<IntervalAnswer>, defaultMinutes: int)
    returns (url: Option<string>, seconds: Option<int>)
    ensures url == UrlAnswer(urlLines, rejectComment)
    ensures url.Some? ==> seconds == IntervalSeconds(intervals, defaultMinutes)
    ensures url.None? ==> seconds.None?
  {
    var used;
    url, used := ReadUrl(urlLines, rejectComment);
    seconds := None;
    if url.Some? {
      seconds, used := ReadInterval(intervals, defaultMinutes);
    }
  }
}
