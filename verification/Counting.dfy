/** How many elements of a range of a sequence satisfy a test, and what one update does to it. */
module Counting {
  function Count<T>(s: seq<T>, p: T -> bool, lo: nat, hi: nat): (c: nat)
    requires lo <= hi <= |s|
    ensures c <= hi - lo
    decreases hi
  {
    if lo == hi then 0 else Count(s, p, lo, hi - 1) + (if p(s[hi - 1]) then 1 else 0)
  }

  lemma {:induction false} CountUpdate<T>(s: seq<T>, p: T -> bool, lo: nat, hi: nat, i: nat, x: T)
    requires lo <= hi <= |s| && i < |s|
    ensures Count(s[i := x], p, lo, hi) ==
            Count(s, p, lo, hi) +
            (if lo <= i < hi then (if p(x) then 1 else 0) - (if p(s[i]) then 1 else 0) else 0)
    decreases hi
  {
    if lo < hi { CountUpdate(s, p, lo, hi - 1, i, x); }
  }

  lemma {:induction false} CountSplit<T>(s: seq<T>, p: T -> bool, lo: nat, mid: nat, hi: nat)
    requires lo <= mid <= hi <= |s|
    ensures Count(s, p, lo, hi) == Count(s, p, lo, mid) + Count(s, p, mid, hi)
    decreases hi
  {
    if mid < hi { CountSplit(s, p, lo, mid, hi - 1); }
  }

  /** The count is zero exactly when nothing matches, full exactly when everything does. */
  lemma {:induction false} CountExtremes<T>(s: seq<T>, p: T -> bool, lo: nat, hi: nat)
    requires lo <= hi <= |s|
    ensures Count(s, p, lo, hi) == 0 <==> forall i :: lo <= i < hi ==> !p(s[i])
    ensures Count(s, p, lo, hi) == hi - lo <==> forall i :: lo <= i < hi ==> p(s[i])
    decreases hi
  {
    if lo < hi { CountExtremes(s, p, lo, hi - 1); }
  }

  /** Distinct numbers below `m` are at most `m`. */
  lemma {:induction false} Pigeonhole(s: seq<nat>, m: nat)
    requires forall i :: 0 <= i < |s| ==> s[i] < m
    requires forall i, j :: 0 <= i < j < |s| ==> s[i] != s[j]
    ensures |s| <= m
    decreases m
  {
    if s != [] {
      assert s[0] < m;
      if i :| 0 <= i < |s| && s[i] == m - 1 {
        Pigeonhole(s[..i] + s[i + 1..], m - 1);
      } else {
        Pigeonhole(s, m - 1);
      }
    }
  }
}
