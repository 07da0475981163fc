/**
 * Python's sequence operators that the scripts rely on: repetition
 * (`s * k`, for both `str` and `list`) and `str.join`.
 */
module Strings {

  /**
   * Python's `s * k`: `k` copies of `s` laid end to end; empty when `k <= 0`.
   * Python raises instead when `RepeatOverflows(s, k)`; callers check that first.
   */
  function Repeat<T>(s: seq<T>, k: int): (r: seq<T>)
    ensures |r| == if k <= 0 then 0 else k * |s|
    decreases if k <= 0 then 0 else k
  {
    if k <= 0 then [] else s + Repeat(s, k - 1)
  }

  /** The largest value of a C `Py_ssize_t` on a 64-bit build: the longest a `str` can be. */
  const SsizeMax: int := 0x7fff_ffff_ffff_ffff

  /** `k` converts to a `Py_ssize_t`, as the count of `s * k` must. */
  predicate FitsIndex(k: int)
  {
    -SsizeMax - 1 <= k <= SsizeMax
  }

  /**
   * `str * k` raises `OverflowError` instead of repeating: the count is not
   * index-sized, or the repeated text would be longer than `SsizeMax`.
   */
  predicate RepeatOverflows<T>(s: seq<T>, k: int)
  {
    !FitsIndex(k) || (k > 0 && k * |s| > SsizeMax)
  }

  /**
   * For an index-sized count, `str * k` overflows exactly when its result
   * would be longer than the longest `str`; a count of zero or less never
   * overflows.
   */
  lemma RepeatOverflowsExactly<T>(s: seq<T>, k: int)
    requires FitsIndex(k)
    ensures RepeatOverflows(s, k) <==> |Repeat(s, k)| > SsizeMax
    ensures k <= 0 ==> !RepeatOverflows(s, k)
  {
  }

  /** Copy `i` of `s * k` sits at offset `i * len(s)` and is `s` itself. */
  lemma {:induction false} RepeatAt<T>(s: seq<T>, k: int, i: nat, j: nat)
    requires i < k && j < |s|
    ensures i * |s| + j < |Repeat(s, k)| && Repeat(s, k)[i * |s| + j] == s[j]
    decreases k
  {
    var rest := Repeat(s, k - 1);
    assert Repeat(s, k) == s + rest;
    if i == 0 {
      assert Repeat(s, k)[j] == s[j];
    } else {
      RepeatAt(s, k - 1, i - 1, j);
      assert (i - 1) * |s| + j == i * |s| + j - |s|;
    }
  }

  /** A one-element sequence repeated `k` times has length `max(k, 0)` and holds only that element. */
  lemma RepeatSingle<T>(x: T, k: int)
    ensures |Repeat([x], k)| == if k <= 0 then 0 else k
    ensures forall j :: 0 <= j < |Repeat([x], k)| ==> Repeat([x], k)[j] == x
  {
    forall j | 0 <= j < |Repeat([x], k)|
      ensures Repeat([x], k)[j] == x
    {
      RepeatAt([x], k, j, 0);
    }
  }

  /** Repetition adds no new elements. */
  lemma {:induction false} RepeatMembers<T>(s: seq<T>, k: int, x: T)
    requires x in Repeat(s, k)
    ensures x in s
    decreases if k <= 0 then 0 else k
  {
    assert k > 0;
    if x !in s {
      assert x in Repeat(s, k - 1);
      RepeatMembers(s, k - 1, x);
    }
  }

  /** The combined length of a list of sequences. */
  function TotalLength<T>(parts: seq<seq<T>>): nat
  {
    if |parts| == 0 then 0 else |parts[0]| + TotalLength(parts[1..])
  }

  /** Python's `sep.join(parts)`: the parts in order, one separator between each neighbouring pair. */
  function Join<T>(sep: seq<T>, parts: seq<seq<T>>): seq<T>
  {
    if |parts| == 0 then []
    else if |parts| == 1 then parts[0]
    else parts[0] + sep + Join(sep, parts[1..])
  }

  /** The joined length is the parts' total length plus one separator per neighbouring pair. */
  lemma {:induction false} JoinLength<T>(sep: seq<T>, parts: seq<seq<T>>)
    ensures |Join(sep, parts)| == TotalLength(parts) + (if |parts| == 0 then 0 else (|parts| - 1) * |sep|)
  {
    if |parts| > 1 {
      JoinLength(sep, parts[1..]);
    }
  }

  /** A joined sequence holds only what its parts and its separator hold. */
  lemma {:induction false} JoinMembers<T>(sep: seq<T>, parts: seq<seq<T>>, x: T)
    requires x in Join(sep, parts)
    ensures x in sep || exists i :: 0 <= i < |parts| && x in parts[i]
  {
    if |parts| > 1 && x !in parts[0] && x !in sep {
      JoinMembers(sep, parts[1..], x);
      var i :| 0 <= i < |parts[1..]| && x in parts[1..][i];
      assert x in parts[i + 1];
    }
  }

  /** `n` copies of one part have `n` times its length in all. */
  lemma {:induction false} RepeatTotalLength<T>(x: seq<T>, n: int)
    ensures TotalLength(Repeat([x], n)) == if n <= 0 then 0 else n * |x|
    decreases if n <= 0 then 0 else n
  {
    if n > 0 {
      var parts := Repeat([x], n);
      assert parts == [x] + Repeat([x], n - 1);
      assert parts[1..] == Repeat([x], n - 1);
      RepeatTotalLength(x, n - 1);
    }
  }

  /** Occurrences of `x` in `s`. */
  function Count<T(==)>(s: seq<T>, x: T): nat
  {
    if |s| == 0 then 0 else (if s[0] == x then 1 else 0) + Count(s[1..], x)
  }

  /** Counting distributes over concatenation. */
  lemma {:induction false} CountAppend<T>(a: seq<T>, b: seq<T>, x: T)
    ensures Count(a + b, x) == Count(a, x) + Count(b, x)
  {
    if |a| > 0 {
      assert (a + b)[1..] == a[1..] + b;
      CountAppend(a[1..], b, x);
    } else {
      assert a + b == b;
    }
  }
}
