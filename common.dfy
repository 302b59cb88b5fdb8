/** Small shared vocabulary: an optional value and counting over sequences. */
module Common {

  datatype Option<T> = None | Some(value: T) {
    function GetOr(default: T): T {
      match this
      case Some(v) => v
      case None => default
    }
  }

  /** Number of `true` entries of a sequence of outcomes. */
  function CountTrue(s: seq<bool>): (n: nat)
    ensures n <= |s|
  {
    if s == [] then 0 else (if s[|s| - 1] then 1 else 0) + CountTrue(s[..|s| - 1])
  }

  lemma {:induction false} CountTrueAppend(s: seq<bool>, b: bool)
    ensures CountTrue(s + [b]) == CountTrue(s) + (if b then 1 else 0)
  {
    assert (s + [b])[..|s + [b]| - 1] == s;
  }

  /** Sum of a sequence of integers. */
  function Sum(s: seq<int>): int
  {
    if s == [] then 0 else Sum(s[..|s| - 1]) + s[|s| - 1]
  }

  lemma {:induction false} SumAppend(a: seq<int>, b: seq<int>)
    ensures Sum(a + b) == Sum(a) + Sum(b)
    decreases |b|
  {
    if b == [] {
      assert a + b == a;
    } else {
      assert (a + b)[..|a + b| - 1] == a + b[..|b| - 1];
      SumAppend(a, b[..|b| - 1]);
    }
  }

  /** Python's `len(s[:m])` for a list of length `len`; a negative `m` counts from the end. */
  function SliceLength(len: nat, m: int): (n: nat)
    ensures n <= len
    ensures m >= 0 ==> n <= m && (n == m || n == len)
  {
    if m >= 0 then (if m < len then m else len)
    else if len + m > 0 then len + m else 0
  }

  lemma {:induction false} CountTruePrepend(b: bool, s: seq<bool>)
    ensures CountTrue([b] + s) == (if b then 1 else 0) + CountTrue(s)
    decreases |s|
  {
    if s == [] {
      assert [b] + s == [b];
    } else {
      var init := s[..|s| - 1];
      assert ([b] + s)[..|[b] + s| - 1] == [b] + init;
      CountTruePrepend(b, init);
    }
  }
}
