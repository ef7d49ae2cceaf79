/**
 * Python's slice semantics on sequences. A bound `i` of `s[i:j]` is first
 * shifted by `len(s)` when negative and then clamped into `0..len(s)`; a slice
 * whose normalised start lies past its normalised stop is empty. Every slice in
 * the modelled code (`h[-n:]`, `h[:-k]`, `v[2:-1]`, `p[:50]`, `f[:-3]`,
 * `r[start:end]`) goes through these functions.
 */
module PySlice {

  /** The index a Python slice bound `i` denotes in a sequence of length `n`. */
  function Bound(i: int, n: nat): (r: nat)
    ensures r <= n
    ensures 0 <= i <= n ==> r == i
    ensures i < 0 <= n + i ==> r == n + i
    ensures n + i < 0 ==> r == 0
    ensures i > n ==> r == n
  {
    if i < 0 then (if n + i >= 0 then n + i else 0)
    else if i <= n then i else n
  }

  /** `s[i:]` */
  function From<T>(s: seq<T>, i: int): (r: seq<T>)
    ensures |r| <= |s|
    ensures 0 <= i <= |s| ==> r == s[i..]
    ensures i < 0 <= |s| + i ==> r == s[|s| + i..]
    ensures |s| + i < 0 ==> r == s
    ensures i >= |s| ==> r == []
  {
    s[Bound(i, |s|)..]
  }

  /** `s[:j]` */
  function Upto<T>(s: seq<T>, j: int): (r: seq<T>)
    ensures |r| <= |s|
    ensures 0 <= j <= |s| ==> r == s[..j]
    ensures j < 0 <= |s| + j ==> r == s[..|s| + j]
    ensures |s| + j <= 0 ==> r == []
    ensures j >= |s| ==> r == s
  {
    s[..Bound(j, |s|)]
  }

  /** `s[i:j]` */
  function Between<T>(s: seq<T>, i: int, j: int): (r: seq<T>)
    ensures |r| <= |s|
    ensures 0 <= i <= j <= |s| ==> r == s[i..j]
    ensures 0 <= i <= |s| && j < 0 && i <= |s| + j ==> r == s[i..|s| + j]
    ensures Bound(i, |s|) >= Bound(j, |s|) ==> r == []
  {
    var a, b := Bound(i, |s|), Bound(j, |s|);
    if a <= b then s[a..b] else []
  }

  /** `s[-n:]` for a positive `n` keeps the last `min(n, len(s))` elements. */
  lemma LastN<T>(s: seq<T>, n: int)
    requires n >= 1
    ensures From(s, -n) == s[(if |s| >= n then |s| - n else 0)..]
    ensures |From(s, -n)| == if n <= |s| then n else |s|
  {
  }

  /** `s[-0:]` is `s[0:]`: the whole sequence. */
  lemma MinusZero<T>(s: seq<T>)
    ensures From(s, -0) == s
  {
  }
}
