/**
 * The string operations the scripts rely on, as Python (`in`, `split`,
 * `lower`, `strip`, `startswith`) and JavaScript (`includes`,
 * `toLowerCase`) define them on ASCII text.
 */
module Text {
  import opened Common

  /** `w` occurs in `s` starting at index `i`. */
  predicate ContainsAt(s: string, w: string, i: int)
  {
    0 <= i && i + |w| <= |s| && s[i..i + |w|] == w
  }

  /** Python's `w in s`, JavaScript's `s.includes(w)`. */
  predicate Contains(s: string, w: string)
  {
    exists i | 0 <= i <= |s| - |w| :: ContainsAt(s, w, i)
  }

  predicate StartsWith(s: string, p: string)
  {
    |p| <= |s| && s[..|p|] == p
  }

  /** Index of the first occurrence of `w` in `s` at or after `from`. */
  function IndexOfFrom(s: string, w: string, from: nat): (r: Option<nat>)
    ensures r.Some? ==> from <= r.value && ContainsAt(s, w, r.value)
    ensures forall j :: from <= j && (r.None? || j < r.value) ==> !ContainsAt(s, w, j)
    decreases |s| - from
  {
    if from + |w| > |s| then None
    else if s[from..from + |w|] == w then Some(from)
    else IndexOfFrom(s, w, from + 1)
  }

  /** Index of the first occurrence of `w` in `s` (JavaScript's `indexOf`). */
  function IndexOf(s: string, w: string): (r: Option<nat>)
    ensures r.Some? <==> Contains(s, w)
    ensures r.Some? ==> ContainsAt(s, w, r.value)
    ensures forall j :: 0 <= j && (r.None? || j < r.value) ==> !ContainsAt(s, w, j)
  {
    IndexOfFrom(s, w, 0)
  }

  /** Python's `s.split(sep)` for a non-empty separator. */
  function Split(s: string, sep: string): (parts: seq<string>)
    requires sep != []
    ensures |parts| >= 1
    decreases |s|
  {
    match IndexOf(s, sep)
    case None => [s]
    case Some(i) => [s[..i]] + Split(s[i + |sep|..], sep)
  }

  /** Python's `sep.join(parts)`. */
  function Join(parts: seq<string>, sep: string): string
  {
    if parts == [] then []
    else if |parts| == 1 then parts[0]
    else parts[0] + sep + Join(parts[1..], sep)
  }

  /** The text of `s` up to the first `sep`, or all of `s`. */
  function PrefixBefore(s: string, sep: string): string
  {
    match IndexOf(s, sep)
    case None => s
    case Some(i) => s[..i]
  }

  /** Splitting and joining with the same separator gives the string back. */
  lemma {:induction false} SplitJoin(s: string, sep: string)
    requires sep != []
    ensures Join(Split(s, sep), sep) == s
    decreases |s|
  {
    match IndexOf(s, sep)
    case None =>
    case Some(i) =>
      var rest := s[i + |sep|..];
      var tail := Split(rest, sep);
      SplitJoin(rest, sep);
      assert ContainsAt(s, sep, i);
      var parts := [s[..i]] + tail;
      assert Split(s, sep) == parts;
      assert parts[1..] == tail;
      assert Join(parts, sep) == s[..i] + sep + Join(tail, sep);
      assert s == s[..i] + sep + rest;
  }

  /** No piece produced by `split` contains the separator. */
  lemma {:induction false} SplitPartsAvoidSep(s: string, sep: string, k: nat)
    requires sep != []
    requires k < |Split(s, sep)|
    ensures !Contains(Split(s, sep)[k], sep)
    decreases |s|
  {
    match IndexOf(s, sep)
    case None =>
    case Some(i) =>
      var rest := s[i + |sep|..];
      assert Split(s, sep) == [s[..i]] + Split(rest, sep);
      if k == 0 {
        NoEarlierOccurrence(s, sep, i);
      } else {
        SplitPartsAvoidSep(rest, sep, k - 1);
        assert Split(s, sep)[k] == Split(rest, sep)[k - 1];
      }
  }

  /** The text before the first occurrence of `w` does not contain `w`. */
  lemma NoEarlierOccurrence(s: string, w: string, i: nat)
    requires w != [] && i <= |s|
    requires forall j :: 0 <= j < i ==> !ContainsAt(s, w, j)
    ensures !Contains(s[..i], w)
  {
    forall j | 0 <= j <= i - |w|
      ensures !ContainsAt(s[..i], w, j)
    {
      assert !ContainsAt(s, w, j);
      assert s[j..j + |w|] == s[..i][j..j + |w|];
    }
  }

  /** `s.split(sep)[0]` is the text before the first separator. */
  lemma SplitFirst(s: string, sep: string)
    requires sep != []
    ensures Split(s, sep)[0] == PrefixBefore(s, sep)
  {
  }

  /**
   * When the separator occurs, `s.split(sep)[1]` exists and is the text
   * between its first occurrence and the next one (or the end).
   */
  lemma SplitSecond(s: string, sep: string)
    requires sep != [] && Contains(s, sep)
    ensures |Split(s, sep)| >= 2
    ensures Split(s, sep)[1] == PrefixBefore(s[IndexOf(s, sep).value + |sep|..], sep)
  {
    var i := IndexOf(s, sep).value;
    SplitFirst(s[i + |sep|..], sep);
  }

  /** `s.split(sep)[-1]` is a suffix of `s` that does not contain `sep`. */
  lemma {:induction false} SplitLastIsSuffix(s: string, sep: string)
    requires sep != []
    ensures var last := Split(s, sep)[|Split(s, sep)| - 1];
      |last| <= |s| && s[|s| - |last|..] == last && !Contains(last, sep)
    decreases |s|
  {
    SplitPartsAvoidSep(s, sep, |Split(s, sep)| - 1);
    match IndexOf(s, sep)
    case None =>
    case Some(i) =>
      SplitLastIsSuffix(s[i + |sep|..], sep);
  }

  /** The last part of `s.split(sep)`, following the same recursion. */
  function LastPart(s: string, sep: string): string
    requires sep != []
    decreases |s|
  {
    match IndexOf(s, sep)
    case None => s
    case Some(i) => LastPart(s[i + |sep|..], sep)
  }

  /** `LastPart` is `s.split(sep)[-1]`. */
  lemma {:induction false} LastPartIsLast(s: string, sep: string)
    requires sep != []
    ensures LastPart(s, sep) == Split(s, sep)[|Split(s, sep)| - 1]
    decreases |s|
  {
    if IndexOf(s, sep).Some? {
      var i := IndexOf(s, sep).value;
      SplitLastStep(s, sep);
      LastPartIsLast(s[i + |sep|..], sep);
    }
  }

  /** The last `n` characters of `s` are all of it, or come right after `sep`. */
  predicate FollowsSep(s: string, sep: string, n: nat)
  {
    n == |s| || (n + |sep| <= |s| && s[|s| - n - |sep|..|s| - n] == sep)
  }

  /** The last part is a suffix of `s` that does not contain `sep`. */
  lemma {:induction false} LastPartSuffix(s: string, sep: string)
    requires sep != []
    ensures var last := LastPart(s, sep);
      |last| <= |s| && s[|s| - |last|..] == last && !Contains(last, sep)
    decreases |s|
  {
    if IndexOf(s, sep).Some? {
      var i := IndexOf(s, sep).value;
      var rest := s[i + |sep|..];
      LastPartSuffix(rest, sep);
      var last := LastPart(rest, sep);
      assert s[|s| - |last|..] == rest[|rest| - |last|..];
    }
  }

  /** The last part is all of `s`, or it starts right after an occurrence of `sep`. */
  lemma {:induction false} LastPartAfterSep(s: string, sep: string)
    requires sep != []
    ensures FollowsSep(s, sep, |LastPart(s, sep)|)
    decreases |s|
  {
    if IndexOf(s, sep).Some? {
      var i := IndexOf(s, sep).value;
      LastPartAfterSep(s[i + |sep|..], sep);
      AfterSepShift(s, sep, i, |LastPart(s[i + |sep|..], sep)|);
    }
  }

  /** A suffix that follows `sep` in the text after the separator at `i` follows one in `s`. */
  lemma AfterSepShift(s: string, sep: string, i: nat, n: nat)
    requires i + |sep| <= |s| && s[i..i + |sep|] == sep
    requires FollowsSep(s[i + |sep|..], sep, n)
    ensures FollowsSep(s, sep, n)
  {
    var rest := s[i + |sep|..];
    if n != |rest| {
      var j := |rest| - n - |sep|;
      assert s[i + |sep| + j..i + |sep| + j + |sep|] == rest[j..j + |sep|];
      assert |s| - n - |sep| == i + |sep| + j;
    }
  }

  /** After the first separator, the last part of `s` is the last part of the rest. */
  lemma SplitLastStep(s: string, sep: string)
    requires sep != [] && IndexOf(s, sep).Some?
    ensures var i := IndexOf(s, sep).value;
      i + |sep| <= |s| && Split(s, sep)[|Split(s, sep)| - 1] == Split(s[i + |sep|..], sep)[|Split(s[i + |sep|..], sep)| - 1]
  {
    var i := IndexOf(s, sep).value;
    SplitUnfold(s, sep);
    LastOfCons(s[..i], Split(s[i + |sep|..], sep));
  }

  /** One step of `split`: the text before the first separator, then the split of the rest. */
  lemma SplitUnfold(s: string, sep: string)
    requires sep != [] && IndexOf(s, sep).Some?
    ensures var i := IndexOf(s, sep).value;
      i + |sep| <= |s| && Split(s, sep) == [s[..i]] + Split(s[i + |sep|..], sep)
  {
  }

  lemma LastOfCons<T>(x: T, xs: seq<T>)
    requires xs != []
    ensures ([x] + xs)[|[x] + xs| - 1] == xs[|xs| - 1]
  {
  }

  /** `PrefixBefore` gives a prefix of `s` free of `sep`. */
  lemma PrefixBeforeProps(s: string, sep: string)
    requires sep != []
    ensures var p := PrefixBefore(s, sep);
      |p| <= |s| && s[..|p|] == p && !Contains(p, sep)
  {
    SplitFirst(s, sep);
    SplitPartsAvoidSep(s, sep, 0);
  }

  /** A prefix of a string that does not contain `w` does not contain it either. */
  lemma NotContainsPrefix(s: string, n: nat, w: string)
    requires n <= |s| && !Contains(s, w)
    ensures !Contains(s[..n], w)
  {
    if Contains(s[..n], w) {
      var j :| 0 <= j <= n - |w| && ContainsAt(s[..n], w, j);
      assert s[j..j + |w|] == s[..n][j..j + |w|];
      assert ContainsAt(s, w, j);
    }
  }

  /** An occurrence of `u` that starts with `w` is an occurrence of `w`. */
  lemma ContainsPrefixWord(s: string, u: string, w: string)
    requires StartsWith(u, w) && Contains(s, u)
    ensures Contains(s, w)
  {
    var i :| 0 <= i <= |s| - |u| && ContainsAt(s, u, i);
    assert s[i..i + |w|] == u[..|w|];
    assert ContainsAt(s, w, i);
  }

  lemma ContainsSelf(w: string)
    ensures Contains(w, w)
  {
    assert ContainsAt(w, w, 0);
  }

  // ---------------------------------------------------------------------
  // Case folding (ASCII)

  function LowerChar(c: char): char
  {
    if 'A' <= c <= 'Z' then (c as int + 32) as char else c
  }

  /** Python's `s.lower()` / JavaScript's `s.toLowerCase()` on ASCII letters. */
  function Lower(s: string): (r: string)
    ensures |r| == |s|
    ensures forall i :: 0 <= i < |s| ==> r[i] == LowerChar(s[i])
  {
    if s == [] then [] else [LowerChar(s[0])] + Lower(s[1..])
  }

  lemma LowerSlice(s: string, a: nat, b: nat)
    requires a <= b <= |s|
    ensures Lower(s[a..b]) == Lower(s)[a..b]
  {
  }

  /** Lower-casing twice is lower-casing once. */
  lemma LowerIdempotent(s: string)
    ensures Lower(Lower(s)) == Lower(s)
  {
  }

  /** Python's `any(term in s for term in terms)`. */
  predicate AnyIn(terms: seq<string>, s: string)
  {
    exists k | 0 <= k < |terms| :: Contains(s, terms[k])
  }

  // ---------------------------------------------------------------------
  // Whitespace stripping

  /** Python's `str.isspace` on one ASCII character. */
  predicate IsSpace(c: char)
  {
    var n := c as int;
    n == 32 || 9 <= n <= 13 || 28 <= n <= 31
  }

  function TrimStart(s: string): string
  {
    if s != [] && IsSpace(s[0]) then TrimStart(s[1..]) else s
  }

  function TrimEnd(s: string): string
  {
    if s != [] && IsSpace(s[|s| - 1]) then TrimEnd(s[..|s| - 1]) else s
  }

  /** Only whitespace is removed at the front, and the result does not start with any. */
  lemma {:induction false} TrimStartSpaces(s: string)
    ensures var r := TrimStart(s);
      |r| <= |s| && r == s[|s| - |r|..]
      && (forall i :: 0 <= i < |s| - |r| ==> IsSpace(s[i])) && (r != [] ==> !IsSpace(r[0]))
  {
    if s != [] && IsSpace(s[0]) {
      TrimStartSpaces(s[1..]);
      var r := TrimStart(s);
      forall i | 1 <= i < |s| - |r| ensures IsSpace(s[i]) {
        assert s[i] == s[1..][i - 1];
      }
    }
  }

  /** Only whitespace is removed at the back, and the result does not end with any. */
  lemma {:induction false} TrimEndSpaces(s: string)
    ensures var r := TrimEnd(s);
      |r| <= |s| && r == s[..|r|]
      && (forall i :: |r| <= i < |s| ==> IsSpace(s[i])) && (r != [] ==> !IsSpace(r[|r| - 1]))
  {
    if s != [] && IsSpace(s[|s| - 1]) {
      TrimEndSpaces(s[..|s| - 1]);
      var r := TrimEnd(s);
      forall i | |r| <= i < |s| - 1 ensures IsSpace(s[i]) {
        assert s[i] == s[..|s| - 1][i];
      }
    }
  }

  /** Python's `s.strip()`: leading and trailing whitespace removed. */
  function Strip(s: string): (r: string)
  {
    TrimEnd(TrimStart(s))
  }

  /** The stripped text is a slice of `s` with only whitespace outside it. */
  lemma StripIsSlice(s: string) returns (a: nat, b: nat)
    ensures a <= b <= |s| && Strip(s) == s[a..b]
    ensures forall i :: 0 <= i < a ==> IsSpace(s[i])
    ensures forall i :: b <= i < |s| ==> IsSpace(s[i])
    ensures a < b ==> !IsSpace(s[a]) && !IsSpace(s[b - 1])
  {
    var t := TrimStart(s);
    TrimStartSpaces(s);
    a := |s| - |t|;
    var r := TrimEnd(t);
    TrimEndSpaces(t);
    b := a + |r|;
    assert Strip(s) == r == t[..|r|] == s[a..b];
    forall i | b <= i < |s| ensures IsSpace(s[i]) {
      assert s[i] == t[i - a];
    }
  }

  lemma LowerKeepsSpace(c: char)
    ensures IsSpace(LowerChar(c)) <==> IsSpace(c)
  {
  }

  /** An occurrence inside a slice is an occurrence in the whole string. */
  lemma ContainsInSlice(t: string, a: nat, b: nat, w: string)
    requires a <= b <= |t| && Contains(t[a..b], w)
    ensures Contains(t, w)
  {
    var i :| 0 <= i <= (b - a) - |w| && ContainsAt(t[a..b], w, i);
    forall k | 0 <= k < |w|
      ensures t[a + i + k] == w[k]
    {
      assert t[a..b][i..i + |w|][k] == w[k];
    }
    assert t[a + i..a + i + |w|] == w;
    assert ContainsAt(t, w, a + i);
  }

  /** An occurrence lying between `a` and `b` is an occurrence in the slice. */
  lemma SliceContains(t: string, a: nat, b: nat, w: string, j: nat)
    requires a <= j && j + |w| <= b <= |t| && ContainsAt(t, w, j)
    ensures Contains(t[a..b], w)
  {
    forall k | 0 <= k < |w|
      ensures t[a..b][j - a + k] == w[k]
    {
      assert t[j..j + |w|][k] == w[k];
    }
    assert t[a..b][j - a..j - a + |w|] == w;
    assert ContainsAt(t[a..b], w, j - a);
  }

  /**
   * Looking for a word without whitespace in the stripped, lower-cased
   * text finds it exactly when it occurs in the lower-cased text.
   */
  lemma ContainsLowerStrip(s: string, w: string)
    requires w != [] && forall k :: 0 <= k < |w| ==> !IsSpace(w[k])
    ensures Contains(Lower(Strip(s)), w) <==> Contains(Lower(s), w)
  {
    var a, b := StripIsSlice(s);
    LowerSlice(s, a, b);
    var ls := Lower(s);
    assert Lower(Strip(s)) == ls[a..b];
    if Contains(ls[a..b], w) {
      ContainsInSlice(ls, a, b, w);
    }
    if Contains(ls, w) {
      var j :| 0 <= j <= |ls| - |w| && ContainsAt(ls, w, j);
      assert ls[j] == w[0] && ls[j + |w| - 1] == w[|w| - 1];
      LowerKeepsSpace(s[j]);
      LowerKeepsSpace(s[j + |w| - 1]);
      SliceContains(ls, a, b, w, j);
    }
  }
}
