/** Python's slice semantics on sequences (and so on `str` and `list`). */
module PySlices {

  /** Normalises a Python slice bound against a sequence of length `n`:
      a negative bound counts from the end, and the result is clamped to `[0, n]`. */
  function Bound(i: int, n: nat): (b: nat)
    ensures b <= n
    ensures 0 <= i <= n ==> b == i
    ensures i > n ==> b == n
    ensures i < 0 ==> b == if i + n < 0 then 0 else i + n
  {
    if i < 0 then (if i + n < 0 then 0 else i + n)
    else if i > n then n
    else i
  }

  /** `s[i:j]` */
  function Slice<T>(s: seq<T>, i: int, j: int): (r: seq<T>)
    ensures |r| <= |s|
    ensures Bound(i, |s|) < Bound(j, |s|) ==> r == s[Bound(i, |s|)..Bound(j, |s|)]
    ensures Bound(j, |s|) <= Bound(i, |s|) ==> r == []
  {
    var lo, hi := Bound(i, |s|), Bound(j, |s|);
    if lo < hi then s[lo..hi] else []
  }

  /** `s[:n]` */
  function Take<T>(s: seq<T>, n: int): (r: seq<T>)
    ensures 0 <= n ==> r == s[..if n < |s| then n else |s|]
    ensures n < 0 ==> r == s[..if |s| + n < 0 then 0 else |s| + n]
  {
    Slice(s, 0, n)
  }

  /** `s[n:]` */
  function Drop<T>(s: seq<T>, n: int): (r: seq<T>)
    ensures 0 <= n ==> r == s[if n < |s| then n else |s|..]
    ensures n < 0 ==> r == s[if |s| + n < 0 then 0 else |s| + n..]
  {
    Slice(s, n, |s|)
  }

  /** `s[-k:]` for a positive `k` is the last `k` elements (or all of them). */
  lemma LastK<T>(s: seq<T>, k: int)
    requires k > 0
    ensures |Drop(s, -k)| == if k < |s| then k else |s|
    ensures Drop(s, -k) == s[|s| - |Drop(s, -k)|..]
  {
  }
}
