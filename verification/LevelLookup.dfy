/**
 Searching a level: its runs are sorted and do not overlap, each a metadata page with its first and
 last key.
 */
module LevelLookup {
  import opened Keys
  import opened PageCodec
  import opened PipeMerger

  datatype Run = Run(key: Key, end: Key, page: Page)

  // A run's bounds are its page's first and last key, and its keys rise strictly.
  ghost predicate RunOk(r: Run) {
    && StreamPageOk(r.page) && Sorted(Decode(r.page))
    && r.key == Decode(r.page)[0].key && r.end == Decode(r.page)[NumKeys(r.page) - 1].key
  }

  ghost predicate RunsOk(runs: seq<Run>) {
    && (forall i :: 0 <= i < |runs| ==> RunOk(runs[i]))
    && (forall i, j :: 0 <= i < j < |runs| ==> Before(runs[i].end, runs[j].key))
  }

  predicate AtMost(a: Key, b: Key) { a == b || Before(a, b) }

  lemma AtMostTransitive(a: Key, b: Key, c: Key)
    requires AtMost(a, b) && AtMost(b, c)
    ensures AtMost(a, c) && (a != b || b != c ==> Before(a, c))
  {
    if a != b && b != c { BeforeTransitive(a, b, c); }
  }

  // A key of a run lies between its bounds.
  lemma KeyInBounds(r: Run, i: nat)
    requires RunOk(r) && i < |Decode(r.page)|
    ensures AtMost(r.key, Decode(r.page)[i].key) && AtMost(Decode(r.page)[i].key, r.end) && AtMost(r.key, r.end)
  {
    hide StreamPageOk, Decode, NumKeys;
    PageShape(r.page);
  }

  // Run keys rise strictly.
  lemma RunKeysRise(runs: seq<Run>, i: nat, j: nat)
    requires RunsOk(runs) && i < j < |runs|
    ensures Before(runs[i].key, runs[j].key) && Before(runs[i].end, runs[j].end) && Before(runs[i].end, runs[j].key)
  {
    hide RunOk;
    BoundsRise(runs[i]);
    BoundsRise(runs[j]);
    AtMostTransitive(runs[i].key, runs[i].end, runs[j].key);
    AtMostTransitive(runs[i].end, runs[j].key, runs[j].end);
  }

  lemma BoundsRise(r: Run)
    requires RunOk(r)
    ensures AtMost(r.key, r.end)
  {
    hide StreamPageOk, Decode, NumKeys;
    PageShape(r.page);
    KeyInBounds(r, 0);
  }

  // Division as in C, toward zero.
  function CDiv2(x: int): int { if x >= 0 then x / 2 else -(-x / 2) }

  /** `array_find_run`: the last run that starts at or before the key, or the first run; none when the
      level is empty. */
  method FindRun(runs: seq<Run>, lpa: Key) returns (r: int)
    requires RunsOk(runs)
    ensures runs == [] <==> r == -1
    ensures runs != [] ==> 0 <= r < |runs|
    ensures runs != [] ==> r == 0 || AtMost(runs[r].key, lpa)
    ensures forall j :: r < j < |runs| && 0 <= r ==> Before(lpa, runs[j].key)
  {
    hide RunOk, Before;
    if runs == [] { return -1; }
    var start, end := 0, |runs| - 1;
    r := CDiv2(start + end);
    while true
      invariant 0 <= start <= end + 1 && -1 <= end < |runs| && start <= end
      invariant r == CDiv2(start + end)
      invariant forall j :: 0 <= j < start ==> Before(runs[j].key, lpa)
      invariant forall j :: end < j < |runs| ==> Before(lpa, runs[j].key)
      decreases end - start
    {
      CmpMeans(runs[r].key, lpa);
      var res := Cmp(runs[r].key, lpa);
      forall j | 0 <= j < r ensures Before(runs[j].key, runs[r].key) { RunKeysRise(runs, j, r); }
      forall j | r < j < |runs| ensures Before(runs[r].key, runs[j].key) { RunKeysRise(runs, r, j); }
      if res > 0 {
        forall j | r < j < |runs| ensures Before(lpa, runs[j].key) { BeforeTransitive(lpa, runs[r].key, runs[j].key); }
        end := r - 1;
      } else if res < 0 {
        forall j | 0 <= j < r ensures Before(runs[j].key, lpa) { BeforeTransitive(runs[j].key, runs[r].key, lpa); }
        start := r + 1;
      } else {
        return;
      }
      r := CDiv2(start + end);
      if start > end { return; }
    }
  }

  /** `array_find_keyset`: the number, from 1, of the page's entry with that key; 0 if there is none. */
  method FindKeyset(page: Page, lpa: Key) returns (k: nat)
    requires StreamPageOk(page) && Sorted(Decode(page))
    ensures k <= NumKeys(page) == |Decode(page)|
    ensures k == 0 <==> lpa !in KeysOf(Decode(page))
    ensures k != 0 ==> Decode(page)[k - 1].key == lpa && PpaAt(page, k) == Decode(page)[k - 1].ppa
  {
    hide StreamPageOk, Decode, NumKeys, KeyAt, PpaAt, Before;
    PageShape(page);
    ghost var d := Decode(page);
    var s, e := 1, NumKeys(page);
    while s <= e
      invariant 1 <= s <= e + 1 <= NumKeys(page) + 1
      invariant forall j :: 0 <= j < s - 1 ==> d[j].key != lpa
      invariant forall j :: e <= j < |d| ==> d[j].key != lpa
    {
      var mid := (s + e) / 2;
      EntryOfPage(page, mid);
      CmpMeans(KeyAt(page, mid), lpa);
      var res := Cmp(KeyAt(page, mid), lpa);
      if res == 0 {
        assert d[mid - 1] in d;
        return mid;
      } else if res < 0 {
        forall j | 0 <= j < mid ensures d[j].key != lpa { SortedApart(d, j, mid - 1, lpa); }
        s := mid + 1;
      } else {
        forall j | mid - 1 <= j < |d| ensures d[j].key != lpa { SortedApart(d, mid - 1, j, lpa); }
        e := mid - 1;
      }
    }
    k := 0;
  }

  /** `array_find_idx_lower_bound`: the number, from 1, of the first entry at or behind the key; one
      more than the number of entries when all come before it. */
  method FindIdxLowerBound(page: Page, lpa: Key) returns (k: nat)
    requires StreamPageOk(page) && Sorted(Decode(page))
    ensures 1 <= k <= NumKeys(page) + 1 && |Decode(page)| == NumKeys(page)
    ensures forall j :: 0 <= j < k - 1 ==> Before(Decode(page)[j].key, lpa)
    ensures forall j :: k - 1 <= j < NumKeys(page) ==> AtMost(lpa, Decode(page)[j].key)
  {
    hide StreamPageOk, Decode, NumKeys, KeyAt, PpaAt, Before;
    PageShape(page);
    ghost var d := Decode(page);
    var s, e, mid, res := 1, NumKeys(page), 0, 0;
    while s <= e
      invariant 1 <= s <= e + 1 <= NumKeys(page) + 1
      invariant forall j :: 0 <= j < s - 1 ==> Before(d[j].key, lpa)
      invariant forall j :: e <= j < |d| ==> AtMost(lpa, d[j].key)
      invariant s > e ==> (res < 0 && mid + 1 == s) || (res > 0 && mid == s)
    {
      mid := (s + e) / 2;
      EntryOfPage(page, mid);
      CmpMeans(KeyAt(page, mid), lpa);
      res := Cmp(KeyAt(page, mid), lpa);
      if res == 0 {
        return mid;
      } else if res < 0 {
        forall j | 0 <= j < mid - 1 ensures Before(d[j].key, lpa) { BeforeTransitive(d[j].key, d[mid - 1].key, lpa); }
        s := mid + 1;
      } else {
        forall j | mid <= j < |d| ensures Before(lpa, d[j].key) { BeforeTransitive(lpa, d[mid - 1].key, d[j].key); }
        e := mid - 1;
      }
    }
    k := if res < 0 then mid + 1 else mid;
  }

  /** `a_key_iter`: a cursor over a page's entries. */
  class KeyIter {
    const page: Page
    var idx: nat

    constructor (page: Page, from: nat)
      requires from >= 1
      ensures this.page == page && idx == from
    {
      this.page, idx := page, from;
    }

    /** `array_key_iter_nxt`: the page's entries from where the cursor started, in order, then none. */
    method Next() returns (r: Option<Entry>)
      requires StreamPageOk(page) && 1 <= idx
      modifies this
      ensures |Decode(page)| == NumKeys(page)
      ensures old(idx) <= NumKeys(page) ==> r == Some(Decode(page)[old(idx) - 1]) && idx == old(idx) + 1
      ensures old(idx) > NumKeys(page) ==> r == None && idx == old(idx)
    {
      hide StreamPageOk, Decode, KeyAt, PpaAt;
      PageShape(page);
      if idx <= NumKeys(page) { OffsetSmall(page, idx); }
      if idx > NumKeys(page) || U16(page, idx) == 65535 { return None; }
      EntryOfPage(page, idx);
      r := Some(Entry(KeyAt(page, idx), PpaAt(page, idx)));
      idx := idx + 1;
    }
  }

  lemma OffsetSmall(page: Page, k: nat)
    requires StreamPageOk(page) && 1 <= k <= NumKeys(page)
    ensures |page| == PAGESIZE && U16(page, k) <= PAGESIZE
  {
    assert EntryAt(page, Decode(page), k - 1);
    OffMonotone(Decode(page), k - 1, k);
  }

  lemma SortedApart(d: seq<Entry>, i: nat, j: nat, lpa: Key)
    requires Sorted(d) && i <= j < |d|
    ensures Before(d[j].key, lpa) ==> d[i].key != lpa
    ensures Before(lpa, d[i].key) ==> d[j].key != lpa
  {
    Trichotomy(d[i].key, lpa);
    Trichotomy(d[j].key, lpa);
  }

  ghost predicate HoldsKey(runs: seq<Run>, i: nat, k: Key)
    requires RunsOk(runs) && i < |runs|
  {
    k in KeysOf(Decode(runs[i].page))
  }

  // Only the last run starting at or before a key can hold it.
  lemma OnlyThatRun(runs: seq<Run>, r: nat, lpa: Key, i: nat)
    requires RunsOk(runs) && r < |runs| && i < |runs| && (r == 0 || AtMost(runs[r].key, lpa))
    requires forall j :: r < j < |runs| ==> Before(lpa, runs[j].key)
    requires HoldsKey(runs, i, lpa)
    ensures i == r
  {
    hide StreamPageOk, Decode, NumKeys;
    assert RunOk(runs[i]);
    PageShape(runs[i].page);
    var d := Decode(runs[i].page);
    var e :| e in d && e.key == lpa;
    var j :| 0 <= j < |d| && d[j] == e;
    KeyInBounds(runs[i], j);
    if i < r {
      AtMostTransitive(lpa, runs[i].end, runs[r].key);
      AtMostTransitive(runs[r].key, lpa, runs[r].key);
      RunKeysRise(runs, i, r);
      BeforeAndAtMost(lpa, runs[i].end, runs[r].key);
    } else if r < i {
      BeforeAndAtMost2(lpa, runs[i].key);
    }
  }

  lemma BeforeAndAtMost(lpa: Key, a: Key, b: Key)
    requires AtMost(lpa, a) && Before(a, b)
    ensures !AtMost(b, lpa)
  {
    if lpa != a { BeforeTransitive(lpa, a, b); }
    Trichotomy(lpa, b);
  }

  lemma BeforeAndAtMost2(lpa: Key, a: Key)
    requires Before(lpa, a)
    ensures !AtMost(a, lpa)
  {
    Trichotomy(lpa, a);
  }

  /** Searching the run found, a level lookup succeeds exactly when some run holds the key, and then
      gives that run's entry. */
  method LevelFind(runs: seq<Run>, lpa: Key) returns (ppa: Option<nat>)
    requires RunsOk(runs)
    ensures ppa.None? <==> forall i: nat :: i < |runs| ==> !HoldsKey(runs, i, lpa)
    ensures ppa.Some? ==>
      exists i: nat :: i < |runs| && HoldsKey(runs, i, lpa) && Entry(lpa, ppa.value) in Decode(runs[i].page)
  {
    hide StreamPageOk, Decode, NumKeys, Before, AtMost;
    var r := FindRun(runs, lpa);
    if r == -1 { return None; }
    assert RunOk(runs[r]);
    forall i: nat | i < |runs| && HoldsKey(runs, i, lpa) ensures i == r { OnlyThatRun(runs, r, lpa, i); }
    var k := FindKeyset(runs[r].page, lpa);
    if k == 0 { return None; }
    PageShape(runs[r].page);
    ppa := Some(PpaAt(runs[r].page, k));
    assert Decode(runs[r].page)[k - 1] in Decode(runs[r].page);
    assert HoldsKey(runs, r, lpa);
  }

  /** The first run that ends at or behind `lpa`; -1 if all end before it. */
  ghost predicate IsLowerBound(runs: seq<Run>, lpa: Key, r: int) {
    && -1 <= r < |runs|
    && (forall j :: 0 <= j < (if r == -1 then |runs| else r) ==> Before(runs[j].end, lpa))
    && (r != -1 ==> AtMost(lpa, runs[r].end))
  }

  /** `array_bound_search` with `islower`. */
  method BoundSearch(runs: seq<Run>, lpa: Key) returns (r: int)
    requires RunsOk(runs)
    ensures IsLowerBound(runs, lpa, r)
  {
    hide RunOk, Before;
    var start, end, mid := 0, |runs| - 1, 0;
    var res1, res2 := 0, 0;
    while start <= end
      invariant 0 <= start <= end + 1 <= |runs|
      invariant forall j :: 0 <= j < start ==> Before(runs[j].end, lpa)
      invariant forall j :: end < j < |runs| ==> Before(lpa, runs[j].key)
      invariant runs == [] ==> res1 == res2 == 0
      invariant start > end && runs != [] ==>
        (res1 > 0 && mid == start && mid < |runs|) || (res1 <= 0 && res2 < 0 && mid + 1 == start)
    {
      mid := (start + end) / 2;
      CmpMeans(runs[mid].key, lpa);
      CmpMeans(runs[mid].end, lpa);
      BoundsRise(runs[mid]);
      res1 := Cmp(runs[mid].key, lpa);
      res2 := Cmp(runs[mid].end, lpa);
      if res1 <= 0 && res2 >= 0 {
        forall j | 0 <= j < mid ensures Before(runs[j].end, lpa) {
          RunKeysRise(runs, j, mid);
          AtMostTransitive(runs[j].end, runs[mid].key, lpa);
        }
        return mid;
      }
      if res1 > 0 {
        forall j | mid < j < |runs| ensures Before(lpa, runs[j].key) {
          RunKeysRise(runs, mid, j);
          BeforeTransitive(lpa, runs[mid].key, runs[j].key);
        }
        end := mid - 1;
      } else if res2 < 0 {
        forall j | 0 <= j < mid ensures Before(runs[j].end, lpa) {
          RunKeysRise(runs, j, mid);
          BeforeTransitive(runs[j].end, runs[mid].end, lpa);
        }
        start := mid + 1;
      }
    }
    if res1 > 0 {
      r := mid;
      BoundsRise(runs[mid]);
      AtMostTransitive(lpa, runs[mid].key, runs[mid].end);
    } else if res2 < 0 && mid < |runs| - 1 {
      r := mid + 1;
      BoundsRise(runs[r]);
      AtMostTransitive(lpa, runs[r].key, runs[r].end);
    } else {
      r := -1;
    }
  }
}
