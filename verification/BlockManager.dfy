/**
 One partition of the flash block manager: the validity bitmap, the per-grain out-of-band records,
 the superblock write pointers and counters, and the superblock allocator.  Superblocks and pages
 are numbered from the partition's first superblock.
 */
module BlockManager {
  import opened Common
  import opened Counting

  const GRAIN_PER_PAGE: nat := 4
  const PPS: nat := 65536
  // Grains of a superblock.
  const GPS: nat := 262144

  datatype Oob = Oob(isTpage: bool, lpa: nat, length: nat)

  const CLEARED: Oob := Oob(false, 0, 0)

  predicate IsSet(b: bool) { b }

  predicate IsZero(w: int) { w == 0 }

  function SblkOf(grain: nat): nat { grain / GPS }

  // `s` with positions `[lo, hi)` replaced by `x`.
  function Fill<T>(s: seq<T>, lo: nat, hi: nat, x: T): (t: seq<T>)
    ensures |t| == |s|
    ensures forall i :: 0 <= i < |s| ==> t[i] == if lo <= i < hi then x else s[i]
  {
    seq(|s|, i requires 0 <= i < |s| => if lo <= i < hi then x else s[i])
  }

  // Set bits of superblock `b`.
  function SetBits(valid: seq<bool>, b: nat): nat
    requires (b + 1) * GPS <= |valid|
  {
    Count(valid, IsSet, b * GPS, (b + 1) * GPS)
  }

  /** Every superblock's counter is its number of set bits. */
  ghost predicate CountsOk(valid: seq<bool>, cnt: seq<int>) {
    && |valid| == |cnt| * GPS
    && forall b :: 0 <= b < |cnt| ==> cnt[b] == SetBits(valid, b)
  }

  // Only pages below the write pointer hold valid grains.
  ghost predicate BelowPointers(valid: seq<bool>, wp: seq<nat>) {
    && |valid| == |wp| * GPS
    && forall g :: 0 <= g < |valid| && valid[g] ==> g - SblkOf(g) * GPS < wp[SblkOf(g)] * GRAIN_PER_PAGE
  }

  lemma CountsAfterSet(valid: seq<bool>, cnt: seq<int>, g: nat, v: bool)
    requires CountsOk(valid, cnt) && g < |valid| && valid[g] != v
    ensures CountsOk(valid[g := v], cnt[SblkOf(g) := cnt[SblkOf(g)] + (if v then 1 else -1)])
  {
    forall b | 0 <= b < |cnt|
      ensures SetBits(valid[g := v], b) ==
              SetBits(valid, b) + (if b == SblkOf(g) then (if v then 1 else -1) else 0)
    {
      CountUpdate(valid, IsSet, b * GPS, (b + 1) * GPS, g, v);
    }
  }

  // ----- the search for the next active superblock -----

  // First superblock of `[lo, hi)` that is not the reserve and not full; -1 if there is none.
  function FirstOpen(wp: seq<nat>, rsv: nat, lo: nat, hi: nat): (i: int)
    requires lo <= hi <= |wp|
    ensures i == -1 || lo <= i < hi
    ensures i != -1 ==> i != rsv && wp[i] < PPS
    ensures forall j :: lo <= j < (if i == -1 then hi else i) ==> j == rsv || wp[j] >= PPS
    decreases hi - lo
  {
    if lo == hi then -1
    else if lo != rsv && wp[lo] < PPS then lo
    else FirstOpen(wp, rsv, lo + 1, hi)
  }

  // The superblock chosen when the cursor stands at `start`: after it, else before it, never it.
  function NextOpen(wp: seq<nat>, rsv: nat, start: nat): (i: int)
    requires start < |wp|
    ensures i == -1 || 0 <= i < |wp|
  {
    var after := FirstOpen(wp, rsv, start + 1, |wp|);
    if after != -1 then after else FirstOpen(wp, rsv, 0, start)
  }

  // A superblock that can become active.
  ghost predicate IsOpen(wp: seq<nat>, rsv: nat, b: int) { 0 <= b < |wp| && b != rsv && wp[b] < PPS }

  // Where the search starts: at the cursor; while there is none, at the first open superblock.
  ghost predicate IsStart(wp: seq<nat>, rsv: nat, cursor: int, s: int) {
    if cursor == -1 then IsOpen(wp, rsv, s) && forall b :: b < s ==> !IsOpen(wp, rsv, b) else s == cursor
  }

  /** What holds of one partition between two allocations.  `active` is -1 before the first one. */
  ghost predicate AllocOk(wp: seq<nat>, free: int, cursor: int, rsv: nat, active: int) {
    && rsv < |wp| && wp[rsv] == 0
    && -1 <= active < |wp| && active != rsv
    && free == Count<int>(wp, IsZero, 0, |wp|)
    && (forall b :: 0 <= b < |wp| ==> wp[b] <= PPS)
    && (forall b :: 0 <= b < |wp| && b != active ==> wp[b] == 0 || wp[b] == PPS)
    && (active != -1 ==> wp[active] > 0)
    && -1 <= cursor < |wp|
    && (active == -1 ==> cursor == -1)
    && (cursor == -1 ==> active == -1 && forall b :: 0 <= b < |wp| ==> wp[b] == 0)
    && (free >= 2 && cursor != -1 ==> wp[cursor] > 0)
  }

  // A superblock that is empty and not the reserve, when at least two are empty.
  lemma {:induction false} SecondEmpty(wp: seq<nat>, rsv: nat, hi: nat) returns (b: nat)
    requires hi <= |wp| && Count<int>(wp, IsZero, 0, hi) >= (if rsv < hi then 2 else 1)
    ensures b < hi && b != rsv && wp[b] == 0
    decreases hi
  {
    if hi - 1 != rsv && wp[hi - 1] == 0 {
      b := hi - 1;
    } else {
      b := SecondEmpty(wp, rsv, hi - 1);
    }
  }

  // At most one superblock is empty exactly if none but the empty reserve is.
  lemma OnlyReserveEmpty(wp: seq<nat>, rsv: nat)
    requires rsv < |wp| && wp[rsv] == 0
    ensures Count<int>(wp, IsZero, 0, |wp|) <= 1 <==> forall b :: 0 <= b < |wp| && wp[b] == 0 ==> b == rsv
  {
    var w := wp[rsv := 1];
    CountUpdate<int>(wp, IsZero, 0, |wp|, rsv, 1);
    CountExtremes<int>(w, IsZero, 0, |wp|);
    assert forall b :: 0 <= b < |wp| && b != rsv ==> w[b] == wp[b];
  }

  /** While garbage collection is not needed the search never fails, and it finds an empty superblock. */
  lemma SearchFinds(wp: seq<nat>, free: int, cursor: int, rsv: nat, active: int)
    requires AllocOk(wp, free, cursor, rsv, active) && free > 1 && |wp| >= 3
    requires active == -1 || wp[active] >= PPS
    ensures var start := if cursor == -1 then FirstOpen(wp, rsv, 0, |wp|) else cursor;
      && 0 <= start < |wp|
      && var r := NextOpen(wp, rsv, start);
         0 <= r < |wp| && r != rsv && r != active && wp[r] == 0
  {
    var start := if cursor == -1 then FirstOpen(wp, rsv, 0, |wp|) else cursor;
    if cursor == -1 {
      var c := if rsv == 0 then 1 else 0;
      assert c != rsv && wp[c] < PPS;
      var d := if rsv != 2 then 2 else if start == 0 then 1 else 0;
      assert start != d ==> wp[d] < PPS;
      var e := if rsv != 1 then 1 else 2;
      assert wp[e] < PPS;
    } else {
      var b := SecondEmpty(wp, rsv, |wp|);
      assert b != start && wp[b] < PPS;
    }
  }

  lemma AllocReserve(wp: seq<nat>, free: int, cursor: int, rsv: nat, active: int)
    requires AllocOk(wp, free, cursor, rsv, active)
    ensures rsv < |wp| && wp[rsv] == 0 && -1 <= active < |wp| && -1 <= cursor < |wp| && active != rsv
    ensures forall b :: 0 <= b < |wp| ==> wp[b] <= PPS
  {
  }

  // Collection is not needed before the first allocation.
  lemma NoCollectionAtFirst(wp: seq<nat>, free: int, cursor: int, rsv: nat, active: int)
    requires AllocOk(wp, free, cursor, rsv, active) && |wp| >= 3
    ensures active == -1 ==> free > 1
  {
    CountExtremes<int>(wp, IsZero, 0, |wp|);
  }

  /** The active superblock has room for a page, and taking it leaves the allocator right. */
  ghost predicate OneMoreOk(wp: seq<nat>, free: int, cursor: int, rsv: nat, active: int) {
    0 <= active < |wp| && wp[active] < PPS && AllocOk(wp[active := wp[active] + 1], free, cursor, rsv, active)
  }

  lemma AfterActivate(wp: seq<nat>, free: int, cursor: int, rsv: nat, active: int, r: nat)
    requires AllocOk(wp, free, cursor, rsv, active) && free > 1 && (active == -1 || wp[active] >= PPS)
    requires r < |wp| && r != rsv && wp[r] == 0
    ensures OneMoreOk(wp, free - 1, r, rsv, r)
  {
    CountUpdate<int>(wp, IsZero, 0, |wp|, r, 1);
  }

  lemma AfterPage(wp: seq<nat>, free: int, cursor: int, rsv: nat, active: nat)
    requires AllocOk(wp, free, cursor, rsv, active) && active < |wp| && wp[active] < PPS
    ensures OneMoreOk(wp, free, cursor, rsv, active)
  {
    CountUpdate<int>(wp, IsZero, 0, |wp|, active, wp[active] + 1);
  }

  /** Collecting victim `v` into the reserve with `k < PPS` pages keeps the allocator: the reserve
      becomes active, with room, and the trimmed victim the reserve. */
  lemma AfterCollection(wp: seq<nat>, free: int, cursor: int, rsv: nat, active: nat, v: nat, k: nat)
    requires AllocOk(wp, free, cursor, rsv, active) && free <= 1
    requires active < |wp| && wp[active] >= PPS && v < |wp| && v != rsv && wp[v] >= PPS && k < PPS
    ensures OneMoreOk(wp[rsv := k][v := 0], free, cursor, v, rsv)
  {
    var wp' := wp[rsv := k + 1][v := 0];
    CountUpdate<int>(wp, IsZero, 0, |wp|, rsv, k + 1);
    CountUpdate<int>(wp[rsv := k + 1], IsZero, 0, |wp|, v, 0);
    assert wp[rsv := k][v := 0][rsv := k + 1] == wp';
  }

  // `dftl_bm_init`: everything empty, the first superblock is the reserve.
  lemma InitAllocOk(n: nat)
    requires n > 0
    ensures AllocOk(seq(n, _ => 0), n, -1, 0, -1)
  {
    CountExtremes<int>(seq(n, _ => 0), IsZero, 0, n);
  }

  /** Superblock `v` is the one garbage collection picks: full, not the reserve, with the fewest valid
      grains, and the first such. */
  ghost predicate IsTarget(wp: seq<nat>, cnt: seq<int>, rsv: nat, v: int) {
    && |cnt| == |wp| && 0 <= v < |wp| && v != rsv && wp[v] >= PPS && cnt[v] < wp[v] * GRAIN_PER_PAGE
    && (forall b :: 0 <= b < |wp| && b != rsv && wp[b] >= PPS ==> cnt[v] <= cnt[b])
    && (forall b :: 0 <= b < v && b != rsv && wp[b] >= PPS ==> cnt[v] < cnt[b])
  }

  ghost predicate NoTarget(wp: seq<nat>, cnt: seq<int>, rsv: nat) { forall u :: !IsTarget(wp, cnt, rsv, u) }

  lemma TargetFacts(wp: seq<nat>, cnt: seq<int>, rsv: nat, v: int)
    requires IsTarget(wp, cnt, rsv, v)
    ensures 0 <= v < |wp| && v != rsv && wp[v] >= PPS && |cnt| == |wp| && cnt[v] < wp[v] * GRAIN_PER_PAGE
  {
  }

  // A target is there exactly if something is one.
  lemma TargetsAre(wp: seq<nat>, cnt: seq<int>, rsv: nat, v: int)
    requires IsTarget(wp, cnt, rsv, v)
    ensures !NoTarget(wp, cnt, rsv)
  {
  }

  lemma TargetUnique(wp: seq<nat>, cnt: seq<int>, rsv: nat, v: int, u: int)
    requires IsTarget(wp, cnt, rsv, v) && IsTarget(wp, cnt, rsv, u)
    ensures v == u
  {
  }

  // Among the first `i` superblocks `v` is the first full one with the fewest valid grains, the reserve
  // apart; -1 if there is no full one.
  ghost predicate Fewest(wp: seq<nat>, cnt: seq<int>, rsv: nat, i: nat, v: int) {
    && |cnt| == |wp| && i <= |wp| && -1 <= v < i
    && (v == -1 ==> forall b :: 0 <= b < i && b != rsv ==> wp[b] < PPS)
    && (v != -1 ==> v != rsv && wp[v] >= PPS)
    && (v != -1 ==> forall b :: 0 <= b < i && b != rsv && wp[b] >= PPS ==> cnt[v] <= cnt[b])
    && (v != -1 ==> forall b :: 0 <= b < v && b != rsv && wp[b] >= PPS ==> cnt[v] < cnt[b])
  }

  lemma FewestIsTarget(wp: seq<nat>, cnt: seq<int>, rsv: nat, v: int)
    requires Fewest(wp, cnt, rsv, |wp|, v) && forall b :: 0 <= b < |wp| ==> cnt[b] <= GPS
    ensures v != -1 && cnt[v] < wp[v] * GRAIN_PER_PAGE ==> IsTarget(wp, cnt, rsv, v)
    ensures v == -1 || cnt[v] >= wp[v] * GRAIN_PER_PAGE ==> NoTarget(wp, cnt, rsv)
    ensures (v == -1 || cnt[v] >= wp[v] * GRAIN_PER_PAGE) && (forall b :: 0 <= b < |wp| ==> wp[b] <= PPS) ==>
              forall b :: 0 <= b < |wp| && b != rsv && wp[b] >= PPS ==> cnt[b] == GPS
  {
  }

  lemma {:induction false} SomeFewest(wp: seq<nat>, cnt: seq<int>, rsv: nat, i: nat) returns (v: int)
    requires |cnt| == |wp| && i <= |wp|
    ensures Fewest(wp, cnt, rsv, i, v)
    decreases i
  {
    if i == 0 { return -1; }
    v := SomeFewest(wp, cnt, rsv, i - 1);
    if i - 1 != rsv && wp[i - 1] >= PPS && (v == -1 || cnt[i - 1] < cnt[v]) { v := i - 1; }
  }

  /** When collection is due and finds no victim, every superblock but the reserve is full of valid grains. */
  lemma NoTargetMeansFull(wp: seq<nat>, valid: seq<bool>, cnt: seq<int>, free: int, cursor: int, rsv: nat, active: nat)
    requires AllocOk(wp, free, cursor, rsv, active) && free <= 1 && active < |wp| && wp[active] >= PPS
    requires |cnt| == |wp| && CountsOk(valid, cnt) && NoTarget(wp, cnt, rsv)
    ensures forall g :: 0 <= g < |valid| && SblkOf(g) != rsv ==> valid[g]
  {
    hide IsTarget;
    OnlyReserveEmpty(wp, rsv);
    var v := SomeFewest(wp, cnt, rsv, |wp|);
    forall b | 0 <= b < |wp| ensures cnt[b] <= GPS { assert cnt[b] == SetBits(valid, b); }
    FewestIsTarget(wp, cnt, rsv, v);
    forall g | 0 <= g < |valid| && SblkOf(g) != rsv ensures valid[g] {
      var b := SblkOf(g);
      assert cnt[b] == GPS == SetBits(valid, b);
      CountExtremes(valid, IsSet, b * GPS, (b + 1) * GPS);
    }
  }

  class Manager {
    const n: nat
    var valid: seq<bool>
    var oob: seq<Oob>
    var wp: seq<nat>
    var validCnt: seq<int>
    var freeCnt: int
    var cursor: int
    var rsv: nat

    ghost predicate Valid()
      reads this
    {
      && |wp| == |validCnt| == n && |oob| == |valid| == n * GPS
      && CountsOk(valid, validCnt) && BelowPointers(valid, wp)
    }

    constructor (n: nat)
      requires n > 0
      ensures Valid() && AllocOk(wp, freeCnt, cursor, rsv, -1)
      ensures this.n == freeCnt == n && forall g :: 0 <= g < |valid| ==> !valid[g]
    {
      this.n := n;
      valid := seq(n * GPS, _ => false);
      oob := seq(n * GPS, _ => CLEARED);
      wp := seq(n, _ => 0);
      validCnt := seq(n, _ => 0);
      freeCnt, cursor, rsv := n, -1, 0;
      new;
      InitAllocOk(n);
      forall b | 0 <= b < n ensures SetBits(valid, b) == 0 {
        CountExtremes(valid, IsSet, b * GPS, (b + 1) * GPS);
      }
    }

    method ValidateGrain(g: nat)
      requires Valid() && g < |valid| && !valid[g]
      requires g - SblkOf(g) * GPS < wp[SblkOf(g)] * GRAIN_PER_PAGE
      modifies this`valid, this`validCnt
      ensures Valid() && valid == old(valid)[g := true]
    {
      CountsAfterSet(valid, validCnt, g, true);
      valid := valid[g := true];
      validCnt := validCnt[SblkOf(g) := validCnt[SblkOf(g)] + 1];
    }

    method InvalidateGrain(g: nat)
      requires Valid() && g < |valid| && valid[g]
      modifies this`valid, this`validCnt
      ensures Valid() && valid == old(valid)[g := false]
    {
      CountsAfterSet(valid, validCnt, g, false);
      valid := valid[g := false];
      validCnt := validCnt[SblkOf(g) := validCnt[SblkOf(g)] - 1];
    }

    // `dftl_validate_page` on the four grains of page `p`.
    method ValidatePage(p: nat)
      requires Valid() && (p + 1) * GRAIN_PER_PAGE <= |valid|
      requires forall g :: p * GRAIN_PER_PAGE <= g < (p + 1) * GRAIN_PER_PAGE ==> !valid[g]
      requires p % PPS < wp[p / PPS]
      modifies this`valid, this`validCnt
      ensures Valid() && valid == Fill(old(valid), p * GRAIN_PER_PAGE, (p + 1) * GRAIN_PER_PAGE, true)
    {
      for i := 0 to GRAIN_PER_PAGE
        invariant Valid()
        invariant valid == Fill(old(valid), p * GRAIN_PER_PAGE, p * GRAIN_PER_PAGE + i, true)
      {
        ValidateGrain(p * GRAIN_PER_PAGE + i);
      }
    }

    method InvalidatePage(p: nat)
      requires Valid() && (p + 1) * GRAIN_PER_PAGE <= |valid|
      requires forall g :: p * GRAIN_PER_PAGE <= g < (p + 1) * GRAIN_PER_PAGE ==> valid[g]
      modifies this`valid, this`validCnt
      ensures Valid() && valid == Fill(old(valid), p * GRAIN_PER_PAGE, (p + 1) * GRAIN_PER_PAGE, false)
    {
      for i := 0 to GRAIN_PER_PAGE
        invariant Valid()
        invariant valid == Fill(old(valid), p * GRAIN_PER_PAGE, p * GRAIN_PER_PAGE + i, false)
      {
        InvalidateGrain(p * GRAIN_PER_PAGE + i);
      }
    }

    method SetOob(g: nat, o: Oob)
      requires Valid() && g < |oob|
      modifies this`oob
      ensures Valid() && oob == old(oob)[g := o]
    {
      oob := oob[g := o];
    }

    method CheckFull(b: nat) returns (full: bool)
      requires b < |wp|
      ensures full <==> wp[b] >= PPS
    {
      full := wp[b] >= PPS;
    }

    /** The next page of superblock `b`.  Its assertions are compiled out, so past the end it names
        the first page of the superblock behind. */
    method GetPageNum(b: nat) returns (p: nat)
      requires Valid() && b < n
      modifies this`wp
      ensures Valid() && p == b * PPS + old(wp[b]) && wp == old(wp)[b := old(wp[b]) + 1]
    {
      p := b * PPS + wp[b];
      wp := wp[b := wp[b] + 1];
    }

    /** `dftl_isgc_needed`: needed exactly when no superblock but the reserve is empty. */
    method IsGcNeeded(ghost active: int) returns (needed: bool)
      requires AllocOk(wp, freeCnt, cursor, rsv, active)
      ensures needed <==> forall b :: 0 <= b < |wp| && wp[b] == 0 ==> b == rsv
      ensures needed <==> freeCnt <= 1
    {
      OnlyReserveEmpty(wp, rsv);
      needed := freeCnt <= 1;
    }

    /** `dftl_get_active_sblk` for a non-reserve superblock; -1 stands for NULL.  From where it starts the search
        goes up to the end, then from the first superblock on; it never comes back with where it started. */
    method GetActive() returns (r: int)
      requires Valid()
      requires cursor == -1 ==> FirstOpen(wp, rsv, 0, n) != -1
      requires -1 <= cursor < n
      modifies this`cursor, this`freeCnt
      ensures r == NextOpen(wp, rsv, if old(cursor) == -1 then FirstOpen(wp, rsv, 0, n) else old(cursor))
      ensures forall s :: IsStart(wp, rsv, old(cursor), s) && r != -1 ==> IsOpen(wp, rsv, r) && r != s
      ensures forall s, b :: IsStart(wp, rsv, old(cursor), s) && IsOpen(wp, rsv, b) && b != s ==>
        r != -1 && if r > s then b < s || b >= r else r <= b < s
      ensures exists s :: IsStart(wp, rsv, old(cursor), s)
      ensures cursor == r
      ensures freeCnt == old(freeCnt) - (if r != -1 && wp[r] == 0 then 1 else 0)
    {
      hide CountsOk, BelowPointers, FirstOpen;
      var start: int;
      if cursor == -1 { start := SearchOpen(0, n); } else { start := cursor; }
      assert IsStart(wp, rsv, cursor, start);
      var after := SearchOpen(start + 1, n);
      if after != -1 { r := after; } else { r := SearchOpen(0, start); }
      cursor := r;
      if r != -1 && wp[r] == 0 { freeCnt := freeCnt - 1; }
    }

    // One scanning loop of the search.
    method SearchOpen(lo: nat, hi: nat) returns (i: int)
      requires Valid() && lo <= hi <= n
      ensures i == FirstOpen(wp, rsv, lo, hi)
    {
      var j := lo;
      while j < hi
        invariant lo <= j <= hi && FirstOpen(wp, rsv, lo, hi) == FirstOpen(wp, rsv, j, hi)
      {
        var full := CheckFull(j);
        if j != rsv && !full { return j; }
        j := j + 1;
      }
      i := -1;
    }

    /** `dftl_get_gc_target`: the full non-reserve superblock with the fewest valid grains, the first
        of them; -1 stands for `abort`. */
    method GetGcTarget() returns (v: int)
      requires Valid()
      ensures v == -1 || IsTarget(wp, validCnt, rsv, v)
      ensures v == -1 <==> NoTarget(wp, validCnt, rsv)
      ensures v == -1 && (forall b :: 0 <= b < n ==> wp[b] <= PPS) ==>
                forall b :: 0 <= b < n && b != rsv && wp[b] >= PPS ==> validCnt[b] == GPS
    {
      CntBound();
      hide CountsOk, BelowPointers, IsTarget;
      v := -1;
      var min: int := NIL;
      for i := 0 to n
        invariant Fewest(wp, validCnt, rsv, i, v) && min == if v == -1 then NIL else validCnt[v]
      {
        var full := CheckFull(i);
        if i != rsv && full && validCnt[i] < min {
          v, min := i, validCnt[i];
        }
      }
      FewestIsTarget(wp, validCnt, rsv, v);
      if v != -1 && validCnt[v] >= wp[v] * GRAIN_PER_PAGE { v := -1; }
    }

    lemma CntBound()
      requires Valid()
      ensures forall b :: 0 <= b < n ==> validCnt[b] <= GPS
    {
    }

    /** `dftl_trim_segment`: forgets the superblock's pages; its validity bits are already clear. */
    method Trim(b: nat)
      requires Valid() && b < n
      requires forall g :: b * GPS <= g < (b + 1) * GPS ==> !valid[g]
      modifies this`wp, this`validCnt, this`oob
      ensures Valid() && wp == old(wp)[b := 0]
      ensures oob == Fill(old(oob), b * GPS, (b + 1) * GPS, CLEARED)
    {
      wp := wp[b := 0];
      CountExtremes(valid, IsSet, b * GPS, (b + 1) * GPS);
      validCnt := validCnt[b := 0];
      oob := Fill(oob, b * GPS, (b + 1) * GPS, CLEARED);
    }

    method ChangeReserve(b: nat)
      modifies this`rsv
      ensures rsv == b
    {
      rsv := b;
    }
  }
}
