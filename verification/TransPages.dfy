/**
 The paged mapping table: one translation page (`cmt` entry) covers 512 consecutive mapping slots;
 a page not in memory has its last copy in the MAP partition of flash.  `tppa` is the forward map
 from entries to flash pages, the out-of-band records are the reverse map.
 */
module TransPages {
  import opened Common
  import opened Counting
  import opened BlockManager

  // A mapping slot: the first grain of the item it maps (or NIL) and the key's fingerprint.
  datatype Pte = Pte(ppa: nat, fp: nat)

  // A surviving item of data garbage collection: the slot that maps it and its new first grain.
  datatype Node = Node(lpa: nat, ppa: nat)

  function Dir(lpa: nat): nat { lpa / EPP }

  /** The four grains of every page are valid together. */
  ghost predicate Uniform(valid: seq<bool>) {
    forall g :: 0 <= g < |valid| ==> 0 <= g - g % 4 < |valid| && valid[g] == valid[g - g % 4]
  }

  // Entry `e` has its flash copy, and the copy names it.
  ghost predicate Forward(tppa: seq<nat>, valid: seq<bool>, oob: seq<Oob>, e: nat)
    requires e < |tppa| && |oob| == |valid|
  {
    tppa[e] != NIL ==>
      && 4 * tppa[e] + 3 < |valid| && valid[4 * tppa[e]]
      && oob[4 * tppa[e]] == Oob(true, e, 4096)
  }

  // The valid page `p` is the flash copy of the entry it names, which is not one in `moving`.
  ghost predicate Backward(tppa: seq<nat>, oob: seq<Oob>, moving: set<nat>, p: nat)
    requires 4 * p < |oob|
  {
    var e := oob[4 * p].lpa;
    e < |tppa| && e !in moving && tppa[e] == p
  }

  /** Forward and reverse map agree, except for the entries in `moving`, whose pages garbage
      collection has read and not yet rewritten. */
  ghost predicate MapOk(tppa: seq<nat>, dirty: seq<bool>, valid: seq<bool>, oob: seq<Oob>, moving: set<nat>) {
    && |oob| == |valid| && |valid| % 4 == 0 && |valid| <= 4 * NIL && |dirty| == |tppa|
    && Uniform(valid)
    && (forall e :: 0 <= e < |tppa| && e !in moving ==> Forward(tppa, valid, oob, e))
    && (forall p :: 0 <= p && 4 * p < |valid| && valid[4 * p] ==> Backward(tppa, oob, moving, p))
    && (forall e :: 0 <= e < |tppa| && dirty[e] ==> tppa[e] == NIL)
    && (forall e :: e in moving ==> e < |tppa| && tppa[e] != NIL)
  }

  /** With nothing moving, the valid pages and the entries with a flash copy are in bijection, and a
      dirty entry has no copy. */
  lemma Bijection(tppa: seq<nat>, dirty: seq<bool>, valid: seq<bool>, oob: seq<Oob>)
    requires MapOk(tppa, dirty, valid, oob, {})
    ensures forall p :: 0 <= p && 4 * p < |valid| ==>
      (valid[4 * p] <==> exists e: nat :: e < |tppa| && tppa[e] == p)
    ensures forall e, f :: 0 <= e < f < |tppa| && tppa[e] == tppa[f] ==> tppa[e] == NIL
    ensures forall e :: 0 <= e < |tppa| && dirty[e] ==> tppa[e] == NIL
  {
    forall p | 0 <= p && 4 * p < |valid|
      ensures valid[4 * p] <==> exists e: nat :: e < |tppa| && tppa[e] == p
    {
      if valid[4 * p] {
        assert Backward(tppa, oob, {}, p);
        assert tppa[oob[4 * p].lpa] == p;
      }
      forall e: nat | e < |tppa| && tppa[e] == p ensures valid[4 * p] {
        assert Forward(tppa, valid, oob, e);
      }
    }
    forall e, f | 0 <= e < f < |tppa| && tppa[e] == tppa[f] ensures tppa[e] == NIL {
      assert Forward(tppa, valid, oob, e) && Forward(tppa, valid, oob, f);
    }
  }

  lemma UniformFill(valid: seq<bool>, p: nat, b: bool)
    requires Uniform(valid) && |valid| % 4 == 0
    ensures Uniform(Fill(valid, p * 4, (p + 1) * 4, b))
  {
    forall g | 0 <= g < |valid| ensures p * 4 <= g < (p + 1) * 4 <==> p * 4 <= g - g % 4 < (p + 1) * 4 {
      assert g - g % 4 == 4 * (g / 4);
    }
  }

  // Other pages' copies are not touched by the bits and the record of page `p`.
  lemma OtherForward(tppa: seq<nat>, valid: seq<bool>, oob: seq<Oob>, t': seq<nat>, o: seq<Oob>, p: nat, b: bool,
                     f: nat)
    requires |oob| == |valid| == |o| && f < |tppa| == |t'| && Forward(tppa, valid, oob, f) && t'[f] == tppa[f] != p
    requires forall g :: 0 <= g < |o| && g != 4 * p ==> o[g] == oob[g]
    ensures Forward(t', Fill(valid, p * 4, (p + 1) * 4, b), o, f)
  {
  }

  // Page `p` leaves the map: its bits are cleared and its entry moves, or forgets its copy.
  lemma PageDropped(tppa: seq<nat>, dirty: seq<bool>, valid: seq<bool>, oob: seq<Oob>, moving: set<nat>, p: nat)
    requires MapOk(tppa, dirty, valid, oob, moving) && 4 * p < |valid| && valid[4 * p]
    ensures var v := Fill(valid, p * 4, (p + 1) * 4, false);
      var e := oob[4 * p].lpa;
      && e < |tppa| && tppa[e] == p && e !in moving
      && MapOk(tppa, dirty, v, oob, moving + {e})
      && MapOk(tppa[e := NIL], dirty, v, oob, moving)
  {
    hide Uniform;
    var v := Fill(valid, p * 4, (p + 1) * 4, false);
    var e := oob[4 * p].lpa;
    UniformFill(valid, p, false);
    assert Backward(tppa, oob, moving, p);
    forall f | 0 <= f < |tppa| && f !in moving && f != e
      ensures Forward(tppa, v, oob, f) && Forward(tppa[e := NIL], v, oob, f)
    {
      assert Forward(tppa, valid, oob, f);
    }
    forall q | 0 <= q && 4 * q < |v| && v[4 * q]
      ensures Backward(tppa, oob, moving + {e}, q) && Backward(tppa[e := NIL], oob, moving, q)
    {
      assert Backward(tppa, oob, moving, q);
    }
  }

  // The unused page `p` becomes the copy of `e`, which had none or was moving.
  lemma PageAdded(tppa: seq<nat>, dirty: seq<bool>, valid: seq<bool>, oob: seq<Oob>, moving: set<nat>, p: nat, e: nat)
    requires MapOk(tppa, dirty, valid, oob, moving) && 4 * p + 3 < |valid| && !valid[4 * p]
    requires e < |tppa| && (tppa[e] == NIL || e in moving) && !dirty[e]
    ensures MapOk(tppa[e := p], dirty, Fill(valid, p * 4, (p + 1) * 4, true),
                  oob[4 * p := Oob(true, e, 4096)], moving - {e})
  {
    hide Uniform;
    var t', v, o, m := tppa[e := p], Fill(valid, p * 4, (p + 1) * 4, true),
                       oob[4 * p := Oob(true, e, 4096)], moving - {e};
    UniformFill(valid, p, true);
    forall f | 0 <= f < |t'| && f !in m ensures Forward(t', v, o, f) {
      if f != e {
        assert Forward(tppa, valid, oob, f);
        if tppa[f] != NIL { OtherForward(tppa, valid, oob, t', o, p, true, f); }
      }
    }
    forall q | 0 <= q && 4 * q < |v| && v[4 * q] ensures Backward(t', o, m, q) {
      if q != p { assert Backward(tppa, oob, moving, q); }
    }
  }

  // Entry `d`, without a copy, becomes dirty or clean.
  lemma MarkDirty(tppa: seq<nat>, dirty: seq<bool>, valid: seq<bool>, oob: seq<Oob>, d: nat, mark: bool)
    requires MapOk(tppa, dirty, valid, oob, {}) && d < |tppa| && (mark ==> tppa[d] == NIL)
    ensures MapOk(tppa, dirty[d := mark], valid, oob, {})
  {
  }

  lemma MapIsUniform(tppa: seq<nat>, dirty: seq<bool>, valid: seq<bool>, oob: seq<Oob>)
    requires MapOk(tppa, dirty, valid, oob, {})
    ensures Uniform(valid) && |dirty| == |tppa|
  {
  }

  lemma MovingHasCopy(tppa: seq<nat>, dirty: seq<bool>, valid: seq<bool>, oob: seq<Oob>, moving: set<nat>, e: nat)
    requires MapOk(tppa, dirty, valid, oob, moving) && e in moving
    ensures e < |tppa| && |dirty| == |tppa| && tppa[e] != NIL && !dirty[e]
  {
  }

  // A dirty entry has no copy.
  lemma DirtyHasNoCopy(tppa: seq<nat>, dirty: seq<bool>, valid: seq<bool>, oob: seq<Oob>, moving: set<nat>, e: nat)
    requires MapOk(tppa, dirty, valid, oob, moving) && e < |tppa|
    ensures |dirty| == |tppa| && (dirty[e] ==> tppa[e] == NIL)
    ensures e in moving ==> tppa[e] != NIL
  {
  }

  // Clearing records of grains that are not valid leaves the map alone.
  lemma MapForgetsRecords(tppa: seq<nat>, dirty: seq<bool>, valid: seq<bool>, oob: seq<Oob>, lo: nat, hi: nat)
    requires MapOk(tppa, dirty, valid, oob, {}) && forall g :: lo <= g < hi && g < |valid| ==> !valid[g]
    ensures MapOk(tppa, dirty, valid, Fill(oob, lo, hi, CLEARED), {})
  {
    var o := Fill(oob, lo, hi, CLEARED);
    forall e | 0 <= e < |tppa| ensures Forward(tppa, valid, o, e) { assert Forward(tppa, valid, oob, e); }
    forall p | 0 <= p && 4 * p < |valid| && valid[4 * p] ensures Backward(tppa, o, {}, p) {
      assert Backward(tppa, oob, {}, p);
    }
  }

  lemma NothingMapped(tppa: seq<nat>, dirty: seq<bool>, valid: seq<bool>, oob: seq<Oob>)
    requires |oob| == |valid| && |valid| % 4 == 0 && |valid| <= 4 * NIL && |dirty| == |tppa|
    requires forall g :: 0 <= g < |valid| ==> !valid[g]
    requires forall e :: 0 <= e < |tppa| ==> tppa[e] == NIL && !dirty[e]
    ensures MapOk(tppa, dirty, valid, oob, {})
  {
  }

  // Pages at or past the write pointer are unused.
  lemma PageUnused(valid: seq<bool>, wp: seq<nat>, p: nat)
    requires BelowPointers(valid, wp) && 4 * p + 3 < |valid| && p % PPS >= wp[p / PPS]
    ensures forall g :: 4 * p <= g < 4 * p + 4 ==> !valid[g]
  {
    forall g | 4 * p <= g < 4 * p + 4 ensures !valid[g] {
      assert SblkOf(g) == p / PPS;
    }
  }

  // A superblock with fewer than all grains valid has a page that is not valid.
  lemma SomePageFree(valid: seq<bool>, cnt: seq<int>, v: nat) returns (j: nat)
    requires CountsOk(valid, cnt) && Uniform(valid) && v < |cnt| && cnt[v] < GPS
    ensures j < PPS && !valid[4 * (v * PPS + j)]
  {
    CountExtremes(valid, IsSet, v * GPS, (v + 1) * GPS);
    var g :| v * GPS <= g < (v + 1) * GPS && !valid[g];
    j := (g - v * GPS) / 4;
    assert g - g % 4 == 4 * (v * PPS + j);
  }

  // ----- the nodes of a collection, sorted by slot as `qsort` leaves them -----

  predicate SortedNodes(s: seq<Node>) {
    forall i, j :: 0 <= i < j < |s| ==> s[i].lpa <= s[j].lpa
  }

  // Every slot occurs at most once.
  ghost predicate DistinctSlots(s: seq<Node>) {
    forall i, j :: 0 <= i < j < |s| ==> s[i].lpa != s[j].lpa
  }

  function InsertNode(x: Node, s: seq<Node>): (t: seq<Node>)
    requires SortedNodes(s)
    ensures |t| == |s| + 1 && forall y :: y in t <==> y == x || y in s
  {
    if s == [] || x.lpa <= s[0].lpa then [x] + s else [s[0]] + InsertNode(x, s[1..])
  }

  function SortNodes(s: seq<Node>): (t: seq<Node>)
    ensures |t| == |s| && SortedNodes(t) && forall y :: y in t <==> y in s
  {
    if s == [] then []
    else
      InsertSorts(s[0], SortNodes(s[1..]));
      InsertNode(s[0], SortNodes(s[1..]))
  }

  // The head of a sorted list bounds the rest.
  lemma HeadApart(s: seq<Node>, y: Node)
    requires s != [] && y in s[1..]
    ensures SortedNodes(s) ==> s[0].lpa <= y.lpa
  {
    var k :| 0 <= k < |s[1..]| && s[1..][k] == y;
    assert s[k + 1] == y;
  }

  lemma {:induction false} InsertSorts(x: Node, s: seq<Node>)
    requires SortedNodes(s)
    ensures SortedNodes(InsertNode(x, s))
  {
    if s != [] && x.lpa > s[0].lpa {
      InsertSorts(x, s[1..]);
      var t := InsertNode(x, s[1..]);
      forall k | 0 <= k < |t| ensures s[0].lpa <= t[k].lpa {
        assert t[k] in t;
        if t[k] in s[1..] { HeadApart(s, t[k]); }
      }
    }
  }

  lemma {:induction false} InsertPermutes(x: Node, s: seq<Node>)
    requires SortedNodes(s)
    ensures multiset(InsertNode(x, s)) == multiset{x} + multiset(s)
  {
    if s != [] && x.lpa > s[0].lpa {
      InsertPermutes(x, s[1..]);
      assert s == [s[0]] + s[1..];
    }
  }

  /** Sorting loses and doubles no node. */
  lemma {:induction false} SortPermutes(s: seq<Node>)
    ensures multiset(SortNodes(s)) == multiset(s)
  {
    if s != [] {
      SortPermutes(s[1..]);
      InsertPermutes(s[0], SortNodes(s[1..]));
      assert s == [s[0]] + s[1..];
    }
  }

  // The slot `l`, once `e0`, points to the new place of a node of that slot.
  ghost predicate MovedTo(e: Pte, e0: Pte, s: seq<Node>, l: nat) {
    exists x :: x in s && x.lpa == l && e == e0.(ppa := x.ppa)
  }

  // `t` is `t0` with slots of nodes of `s` pointing to new places, those of the done nodes among them.
  ghost predicate Patched(t: seq<Pte>, t0: seq<Pte>, s: seq<Node>, done: seq<bool>) {
    && |t| == |t0| && |done| == |s|
    && (forall k :: 0 <= k < |s| ==>
          s[k].lpa < |t| && (done[k] ==> MovedTo(t[s[k].lpa], t0[s[k].lpa], s, s[k].lpa)))
    && (forall l :: 0 <= l < |t| ==> t[l] == t0[l] || MovedTo(t[l], t0[l], s, l))
  }

  lemma PatchOne(t: seq<Pte>, t0: seq<Pte>, s: seq<Node>, done: seq<bool>, i: nat)
    requires Patched(t, t0, s, done) && i < |s|
    ensures Patched(t[s[i].lpa := t[s[i].lpa].(ppa := s[i].ppa)], t0, s, done[i := true])
  {
    var l := s[i].lpa;
    var e := t[l].(ppa := s[i].ppa);
    assert e.fp == t0[l].fp;
    assert MovedTo(e, t0[l], s, l) by { assert s[i] in s; }
  }

  lemma PatchedAll(t: seq<Pte>, t0: seq<Pte>, nodes: seq<Node>, s: seq<Node>, done: seq<bool>)
    requires Patched(t, t0, s, done) && forall k :: 0 <= k < |s| ==> done[k]
    requires forall y :: y in s <==> y in nodes
    ensures forall x :: x in nodes ==> x.lpa < |t| && MovedTo(t[x.lpa], t0[x.lpa], nodes, x.lpa)
    ensures forall l :: 0 <= l < |t| && (forall x :: x in nodes ==> x.lpa != l) ==> t[l] == t0[l]
  {
    forall x | x in nodes ensures x.lpa < |t| && MovedTo(t[x.lpa], t0[x.lpa], nodes, x.lpa) {
      var k :| 0 <= k < |s| && s[k] == x;
      var y :| y in s && y.lpa == x.lpa && t[x.lpa] == t0[x.lpa].(ppa := y.ppa);
      assert y in nodes;
    }
    forall l | 0 <= l < |t| && (forall x :: x in nodes ==> x.lpa != l) ensures t[l] == t0[l] {
      assert !MovedTo(t[l], t0[l], s, l);
    }
  }

  lemma PatchedAtFirst(t: seq<Pte>, s: seq<Node>)
    requires forall x :: x in s ==> x.lpa < |t|
    ensures Patched(t, t, s, seq(|s|, _ => false))
  {
    forall k | 0 <= k < |s| ensures s[k].lpa < |t| { assert s[k] in s; }
  }

  // Some node is for a slot of page `e`.
  ghost predicate HasNodeOf(s: seq<Node>, e: nat) { exists x :: x in s && Dir(x.lpa) == e }

  // Pages in memory and those of no node have a copy if they had one.
  ghost predicate SameCopies(s: seq<Node>, res: seq<bool>, tppa0: seq<nat>, tppa: seq<nat>) {
    && |tppa| == |tppa0| == |res|
    && forall e :: 0 <= e < |tppa| && (res[e] || !HasNodeOf(s, e)) ==> (tppa[e] == NIL <==> tppa0[e] == NIL)
  }

  lemma SameCopiesAtFirst(s: seq<Node>, res: seq<bool>, tppa: seq<nat>)
    requires |tppa| == |res|
    ensures SameCopies(s, res, tppa, tppa)
  {
  }

  lemma SameCopiesMore(s: seq<Node>, res: seq<bool>, tppa0: seq<nat>, tppa1: seq<nat>, tppa: seq<nat>, i: nat)
    requires SameCopies(s, res, tppa0, tppa1) && |tppa| == |tppa1| && i < |s| && Dir(s[i].lpa) < |res|
    requires !res[Dir(s[i].lpa)]
    requires forall f :: 0 <= f < |tppa| && f != Dir(s[i].lpa) ==> (tppa[f] == NIL <==> tppa1[f] == NIL)
    ensures SameCopies(s, res, tppa0, tppa)
  {
    NodeIsOf(s, i);
  }

  lemma NodeIsOf(s: seq<Node>, i: nat)
    requires i < |s|
    ensures HasNodeOf(s, Dir(s[i].lpa))
  {
    assert s[i] in s;
  }

  ghost function Elems(s: seq<nat>): set<nat> { set x | x in s }

  // Pages of the nodes that missed the cache.
  ghost function MissDirs(s: seq<Node>, skip: seq<bool>, lo: nat): set<nat>
    requires |skip| == |s|
  {
    set k | lo <= k < |s| && !skip[k] :: Dir(s[k].lpa)
  }

  lemma MissDirsLater(s: seq<Node>, skip: seq<bool>, i: nat, j: nat, d: nat)
    requires |skip| == |s| && i <= j <= |s| && forall k :: i <= k < j ==> skip[k] || Dir(s[k].lpa) == d
    ensures MissDirs(s, skip, i) <= MissDirs(s, skip, j) + {d}
    ensures (forall k :: i <= k < j ==> skip[k]) ==> MissDirs(s, skip, i) <= MissDirs(s, skip, j)
    ensures MissDirs(s, skip, |s|) == {}
  {
  }

  // Where an entry's slots survive: in memory as a dirty page, or on flash.
  ghost function BackedBy(tppa: seq<nat>, dirty: seq<bool>): set<nat>
    requires |dirty| == |tppa|
  {
    set e | 0 <= e < |tppa| && (dirty[e] || tppa[e] != NIL)
  }

  lemma CopyInRange(tppa: seq<nat>, dirty: seq<bool>, valid: seq<bool>, oob: seq<Oob>, d: nat)
    requires MapOk(tppa, dirty, valid, oob, {}) && d < |tppa| && tppa[d] != NIL
    ensures 4 * tppa[d] + 3 < |valid| && oob[4 * tppa[d]].lpa == d && |oob| == |valid|
    ensures forall g :: 4 * tppa[d] <= g < 4 * tppa[d] + 4 ==> valid[g]
  {
    assert Forward(tppa, valid, oob, d);
    forall g | 4 * tppa[d] <= g < 4 * tppa[d] + 4 ensures valid[g] {
      assert g - g % 4 == 4 * tppa[d];
    }
  }

  // The `j`th page outside superblock `rsv`.
  function PageBeside(rsv: nat, j: nat): nat { if j < rsv * PPS then j else j + PPS }

  /** With every page outside superblock `rsv` a valid copy, and entry `e` without one, there are more
      entries than those pages. */
  lemma CopiesBound(tppa: seq<nat>, dirty: seq<bool>, valid: seq<bool>, oob: seq<Oob>, n: nat, rsv: nat, e: nat)
    requires MapOk(tppa, dirty, valid, oob, {}) && |valid| == n * GPS && rsv < n
    requires forall g :: 0 <= g < |valid| && SblkOf(g) != rsv ==> valid[g]
    requires e < |tppa| && tppa[e] == NIL
    ensures (n - 1) * PPS < |tppa|
  {
    var k := (n - 1) * PPS;
    forall j: nat | j < k
      ensures var p := PageBeside(rsv, j); 4 * p < |valid| && oob[4 * p].lpa < |tppa| && tppa[oob[4 * p].lpa] == p
    {
      var p := PageBeside(rsv, j);
      assert SblkOf(4 * p) != rsv;
      assert Backward(tppa, oob, {}, p);
    }
    hide MapOk;
    var s: seq<nat> := seq(k, j requires 0 <= j < k => oob[4 * PageBeside(rsv, j)].lpa) + [e];
    forall i, j | 0 <= i < j < |s| ensures s[i] != s[j] {
      assert j < k ==> PageBeside(rsv, i) < PageBeside(rsv, j);
    }
    Pigeonhole(s, |tppa|);
  }

  class Cache {
    const bm: Manager
    var tActive: int
    var tReserve: nat
    var tppa: seq<nat>
    var dirty: seq<bool>
    var resident: seq<bool>
    var table: seq<Pte>

    ghost predicate Shape()
      reads this, bm
    {
      && bm.Valid() && 3 <= bm.n && bm.n * PPS <= NIL
      && |tppa| == |dirty| == |resident| && |table| == |tppa| * EPP
      && tReserve == bm.rsv
    }

    /** Whenever a page may be allocated: the allocator and the reverse map are right. */
    ghost predicate Inv()
      reads this, bm
    {
      && Shape() && AllocOk(bm.wp, bm.freeCnt, bm.cursor, bm.rsv, tActive)
      && MapOk(tppa, dirty, bm.valid, bm.oob, {})
    }

    // Between operations moreover only entries in memory are dirty.
    ghost predicate DirtyResident()
      reads this
    {
      |dirty| == |resident| && forall e :: 0 <= e < |dirty| && dirty[e] ==> resident[e]
    }

    // The entries whose slots survive; see `BackedBy`.
    ghost function Backed(): set<nat>
      requires |dirty| == |tppa|
      reads this
    {
      BackedBy(tppa, dirty)
    }

    /** The next page allocation aborts: the active superblock is full, collection is due and has no victim. */
    ghost predicate Stuck()
      reads this, bm
    {
      && 0 <= tActive < |bm.wp| && bm.wp[tActive] >= PPS && bm.freeCnt <= 1
      && NoTarget(bm.wp, bm.validCnt, bm.rsv)
    }

    // There are no more entries than pages outside the reserve.
    ghost predicate Roomy()
      reads this
    {
      |tppa| <= (bm.n - 1) * PPS
    }

    /** With as many pages outside the reserve as entries, an entry without a copy can always be written. */
    lemma RoomyNotStuck(e: nat)
      requires Inv() && e < |tppa| && tppa[e] == NIL && Roomy()
      ensures !Stuck()
    {
      hide MapOk, IsTarget;
      if Stuck() {
        NoTargetMeansFull(bm.wp, bm.valid, bm.validCnt, bm.freeCnt, bm.cursor, bm.rsv, tActive);
        CopiesBound(tppa, dirty, bm.valid, bm.oob, bm.n, bm.rsv, e);
      }
    }

    // An empty table of `m` translation pages over a fresh MAP partition of `n` superblocks.
    constructor (m: nat, n: nat)
      requires 3 <= n && n * PPS <= NIL
      ensures Inv() && DirtyResident() && fresh(bm) && |tppa| == m && bm.n == n && !Stuck()
      ensures tppa == seq(m, _ => NIL) && dirty == seq(m, _ => false) && resident == seq(m, _ => false)
      ensures forall l :: 0 <= l < |table| ==> table[l].ppa == NIL
    {
      bm := new Manager(n);
      tActive, tReserve := -1, 0;
      tppa, dirty, resident := seq(m, _ => NIL), seq(m, _ => false), seq(m, _ => false);
      table := seq(m * EPP, _ => Pte(NIL, 0));
      new;
      tReserve := bm.rsv;
      NothingMapped(tppa, dirty, bm.valid, bm.oob);
    }

    /** `tpage_gc`: moves the victim's valid pages to the reserve, redirects their entries, trims the
        victim and swaps roles.  `ok` is false when the source aborts for want of a victim. */
    method TpageGc() returns (ok: bool, ghost k: nat)
      requires Inv() && bm.freeCnt <= 1 && 0 <= tActive && bm.wp[tActive] >= PPS
      modifies this`tppa, this`tActive, this`tReserve, bm
      ensures ok <==> !old(Stuck())
      ensures !ok ==> Stuck()
      ensures ok ==> Shape() && k < PPS
      ensures ok ==> MapOk(tppa, dirty, bm.valid, bm.oob, {})
      ensures ok ==> forall e :: 0 <= e < |tppa| ==> (tppa[e] == NIL <==> old(tppa[e]) == NIL)
      ensures ok ==> |tppa| == old(|tppa|) && tActive == old(bm.rsv) && bm.rsv != old(bm.rsv)
      ensures ok ==> bm.freeCnt == old(bm.freeCnt) && bm.cursor == old(bm.cursor)
      ensures ok ==> bm.rsv < bm.n && old(bm.wp)[bm.rsv] >= PPS
      ensures ok ==> bm.wp == old(bm.wp)[old(bm.rsv) := k][bm.rsv := 0]
    {
      hide MapOk, AllocOk, CountsOk, BelowPointers, Uniform, IsTarget, NoTarget;
      AllocReserve(bm.wp, bm.freeCnt, bm.cursor, bm.rsv, tActive);
      k := 0;
      var target := bm.GetGcTarget();
      if target == -1 { return false, k; }
      TargetFacts(bm.wp, bm.validCnt, bm.rsv, target);
      var moved := ReadValidTpages(target);
      k := |moved|;
      WriteValidTpages(moved, target);
      MapForgetsRecords(tppa, dirty, bm.valid, bm.oob, target * GPS, (target + 1) * GPS);
      bm.Trim(target);
      tActive := tReserve;
      bm.ChangeReserve(target);
      tReserve := target;
      ok := true;
    }

    // One page of the victim: if valid it is read and invalidated, and its entry starts moving.
    method VisitTpage(p: nat, moved: seq<nat>) returns (moved': seq<nat>)
      requires Shape() && MapOk(tppa, dirty, bm.valid, bm.oob, Elems(moved)) && 4 * p + 3 < |bm.valid|
      requires forall i, j :: 0 <= i < j < |moved| ==> moved[i] != moved[j]
      modifies bm`valid, bm`validCnt
      ensures Shape() && MapOk(tppa, dirty, bm.valid, bm.oob, Elems(moved'))
      ensures forall i, j :: 0 <= i < j < |moved'| ==> moved'[i] != moved'[j]
      ensures bm.valid == Fill(old(bm.valid), p * 4, (p + 1) * 4, false)
      ensures |moved'| == |moved| + if old(bm.valid[4 * p]) then 1 else 0
    {
      assert forall g :: 4 * p <= g < 4 * p + 4 ==> g - g % 4 == 4 * p;
      if bm.valid[4 * p] {
        PageDropped(tppa, dirty, bm.valid, bm.oob, Elems(moved), p);
        var e := bm.oob[4 * p].lpa;
        bm.InvalidatePage(p);
        moved' := moved + [e];
        assert Elems(moved') == Elems(moved) + {e};
        assert forall i :: 0 <= i < |moved| ==> moved[i] in Elems(moved);
      } else {
        assert bm.valid == Fill(bm.valid, p * 4, (p + 1) * 4, false);
        moved' := moved;
      }
    }

    // First loop: the victim's valid pages are read and invalidated.
    method ReadValidTpages(v: nat) returns (moved: seq<nat>)
      requires Inv() && v < bm.n && v != bm.rsv && bm.validCnt[v] < GPS
      modifies bm`valid, bm`validCnt
      ensures bm.Valid() && MapOk(tppa, dirty, bm.valid, bm.oob, Elems(moved))
      ensures |moved| < PPS && forall i, j :: 0 <= i < j < |moved| ==> moved[i] != moved[j]
      ensures forall g :: v * GPS <= g < (v + 1) * GPS ==> !bm.valid[g]
    {
      hide MapOk, AllocOk, CountsOk, BelowPointers;
      MapIsUniform(tppa, dirty, bm.valid, bm.oob);
      ghost var hole := SomePageFree(bm.valid, bm.validCnt, v);
      ghost var base := v * GPS;
      moved := [];
      assert Elems(moved) == {};
      for i := 0 to PPS
        invariant Shape() && MapOk(tppa, dirty, bm.valid, bm.oob, Elems(moved))
        invariant |moved| + (if hole < i then 1 else 0) <= i
        invariant forall a, b :: 0 <= a < b < |moved| ==> moved[a] != moved[b]
        invariant forall g :: base <= g < base + 4 * i ==> !bm.valid[g]
        invariant !bm.valid[base + 4 * hole]
      {
        moved := VisitTpage(v * PPS + i, moved);
      }
    }

    // Page `p` is written as the copy of entry `e`: validated, labelled and recorded.
    method PutTpage(p: nat, e: nat, ghost moving: set<nat>)
      requires Shape() && MapOk(tppa, dirty, bm.valid, bm.oob, moving)
      requires 4 * p + 3 < |bm.valid| && p % PPS < bm.wp[p / PPS]
      requires forall g :: 4 * p <= g < 4 * p + 4 ==> !bm.valid[g]
      requires e < |tppa| && (tppa[e] == NIL || e in moving) && !dirty[e]
      modifies this`tppa, bm`valid, bm`validCnt, bm`oob
      ensures Shape() && MapOk(tppa, dirty, bm.valid, bm.oob, moving - {e})
      ensures tppa == old(tppa)[e := p]
      ensures bm.valid == Fill(old(bm.valid), p * 4, (p + 1) * 4, true)
    {
      PageAdded(tppa, dirty, bm.valid, bm.oob, moving, p, e);
      bm.ValidatePage(p);
      bm.SetOob(4 * p, Oob(true, e, 4096));
      tppa := tppa[e := p];
    }

    // Second loop: the moving entries get pages of the empty reserve.
    method WriteValidTpages(moved: seq<nat>, ghost v: nat)
      requires Shape() && MapOk(tppa, dirty, bm.valid, bm.oob, Elems(moved))
      requires |moved| < PPS && forall i, j :: 0 <= i < j < |moved| ==> moved[i] != moved[j]
      requires bm.rsv < bm.n && bm.wp[bm.rsv] == 0 && v < bm.n && v != bm.rsv
      requires forall g :: v * GPS <= g < (v + 1) * GPS ==> !bm.valid[g]
      modifies this`tppa, bm`valid, bm`validCnt, bm`oob, bm`wp
      ensures Shape() && MapOk(tppa, dirty, bm.valid, bm.oob, {})
      ensures |tppa| == old(|tppa|)
      ensures forall e :: 0 <= e < |tppa| ==> (tppa[e] == NIL <==> old(tppa[e]) == NIL)
      ensures bm.wp == old(bm.wp)[bm.rsv := |moved|]
      ensures forall g :: v * GPS <= g < (v + 1) * GPS ==> !bm.valid[g]
    {
      hide MapOk, AllocOk, CountsOk, BelowPointers, Uniform;
      assert moved[0..] == moved;
      for i := 0 to |moved|
        invariant Shape() && MapOk(tppa, dirty, bm.valid, bm.oob, Elems(moved[i..]))
        invariant |tppa| == old(|tppa|)
        invariant forall e :: 0 <= e < |tppa| ==> (tppa[e] == NIL <==> old(tppa[e]) == NIL)
        invariant bm.wp == old(bm.wp)[bm.rsv := i]
        invariant forall g :: v * GPS <= g < (v + 1) * GPS ==> !bm.valid[g]
      {
        ghost var moving := Elems(moved[i..]);
        var e := moved[i];
        assert e in moving && moving - {e} == Elems(moved[i + 1..]);
        MovingHasCopy(tppa, dirty, bm.valid, bm.oob, moving, e);
        PageUnused(bm.valid, bm.wp, bm.rsv * PPS + i);
        var p := bm.GetPageNum(tReserve);
        PutTpage(p, e, moving);
      }
      assert Elems(moved[|moved|..]) == {};
    }

    // Another superblock becomes active.
    method Activate()
      requires Inv() && bm.freeCnt > 1 && (tActive == -1 || bm.wp[tActive] >= PPS)
      modifies this`tActive, bm`cursor, bm`freeCnt
      ensures Shape() && OneMoreOk(bm.wp, bm.freeCnt, bm.cursor, bm.rsv, tActive)
    {
      hide MapOk, AllocOk, CountsOk, BelowPointers, Uniform, OneMoreOk;
      AllocReserve(bm.wp, bm.freeCnt, bm.cursor, bm.rsv, tActive);
      SearchFinds(bm.wp, bm.freeCnt, bm.cursor, bm.rsv, tActive);
      ghost var free0, cur0, act0 := bm.freeCnt, bm.cursor, tActive;
      tActive := bm.GetActive();
      AfterActivate(bm.wp, free0, cur0, bm.rsv, act0, tActive);
    }

    // The branch of `tp_alloc` that makes the active superblock one with room.
    method MakeRoom() returns (ok: bool)
      requires Inv()
      modifies this`tppa, this`tActive, this`tReserve, bm
      ensures ok <==> !old(Stuck())
      ensures !ok ==> Stuck()
      ensures ok ==> Shape() && OneMoreOk(bm.wp, bm.freeCnt, bm.cursor, bm.rsv, tActive)
      ensures ok ==> MapOk(tppa, dirty, bm.valid, bm.oob, {}) && |tppa| == old(|tppa|)
      ensures ok ==> forall e :: 0 <= e < |tppa| ==> (tppa[e] == NIL <==> old(tppa[e]) == NIL)
    {
      hide MapOk, AllocOk, CountsOk, BelowPointers, Uniform, IsTarget, NoTarget, OneMoreOk;
      ghost var wp0, free0, cur0, rsv0, act0 := bm.wp, bm.freeCnt, bm.cursor, bm.rsv, tActive;
      AllocReserve(wp0, free0, cur0, rsv0, act0);
      NoCollectionAtFirst(wp0, free0, cur0, rsv0, act0);
      var full := true;
      if tActive != -1 { full := bm.CheckFull(tActive); }
      if full {
        var needed := bm.IsGcNeeded(tActive);
        if needed {
          ghost var k;
          ok, k := TpageGc();
          if ok { AfterCollection(wp0, free0, cur0, rsv0, act0, bm.rsv, k); }
        } else {
          Activate();
          ok := true;
        }
      } else {
        AfterPage(wp0, free0, cur0, rsv0, act0);
        ok := true;
      }
    }

    /** `tp_alloc`: a page no one uses, inside the active superblock, or an abort.  Collection in the
        middle leaves every other fact about the map as it was. */
    method TpAlloc() returns (ok: bool, p: nat)
      requires Inv()
      modifies this`tppa, this`tActive, this`tReserve, bm
      ensures ok <==> !old(Stuck())
      ensures !ok ==> Stuck()
      ensures ok ==> Inv()
      ensures ok ==> 4 * p + 3 < |bm.valid| && p / PPS == tActive && p % PPS + 1 == bm.wp[tActive]
      ensures ok ==> forall g :: 4 * p <= g < 4 * p + 4 ==> !bm.valid[g]
      ensures ok ==> |tppa| == old(|tppa|)
      ensures ok ==> forall e :: 0 <= e < |tppa| ==> (tppa[e] == NIL <==> old(tppa[e]) == NIL)
    {
      hide IsTarget, NoTarget;
      p := 0;
      ok := MakeRoom();
      if ok {
        PageUnused(bm.valid, bm.wp, tActive * PPS + bm.wp[tActive]);
        p := bm.GetPageNum(tActive);
      }
    }

    /** `dftl_cache_update`: a resident entry becomes dirty and gives up its flash copy. */
    method Update(lpa: nat, pte: Pte)
      requires Inv() && DirtyResident() && lpa < |table|
      modifies this`tppa, this`dirty, this`table, bm`valid, bm`validCnt
      ensures Inv() && DirtyResident()
      ensures table == old(table)[lpa := pte]
      ensures tppa == if resident[Dir(lpa)] then old(tppa)[Dir(lpa) := NIL] else old(tppa)
      ensures dirty == if resident[Dir(lpa)] then old(dirty)[Dir(lpa) := true] else old(dirty)
      ensures old(Backed()) <= Backed()
    {
      hide MapOk, AllocOk, CountsOk, BelowPointers, Uniform;
      var d := Dir(lpa);
      table := table[lpa := pte];
      if resident[d] {
        DirtyHasNoCopy(tppa, dirty, bm.valid, bm.oob, {}, d);
        if tppa[d] != NIL && !dirty[d] {
          Forget(d);
        }
        MarkDirty(tppa, dirty, bm.valid, bm.oob, d, true);
        dirty := dirty[d := true];
      }
    }

    // The flash copy of entry `d` is invalidated and forgotten.
    method Forget(d: nat)
      requires Inv() && d < |tppa| && tppa[d] != NIL
      modifies this`tppa, bm`valid, bm`validCnt
      ensures Inv() && tppa == old(tppa)[d := NIL]
    {
      hide MapOk, AllocOk, CountsOk, BelowPointers, Uniform;
      CopyInRange(tppa, dirty, bm.valid, bm.oob, d);
      PageDropped(tppa, dirty, bm.valid, bm.oob, {}, tppa[d]);
      bm.InvalidatePage(tppa[d]);
      tppa := tppa[d := NIL];
    }

    /** `dftl_cache_list_up`: entry `e` comes into memory; `victim`, the LRU's choice when the cache
        is full and -1 otherwise, leaves it and is written out when dirty, as `wrote` tells. */
    method ListUp(e: nat, victim: int) returns (ok: bool, wrote: bool)
      requires Inv() && DirtyResident() && e < |tppa| && -1 <= victim < |tppa|
      modifies this`tppa, this`dirty, this`resident, this`tActive, this`tReserve, bm
      ensures wrote <==> victim != -1 && old(dirty)[victim]
      ensures ok <==> !(wrote && old(Stuck()))
      ensures !ok ==> Stuck()
      ensures old(Roomy()) ==> ok && Roomy()
      ensures ok ==> Inv() && DirtyResident() && |tppa| == old(|tppa|)
      ensures ok ==> resident == (if victim == -1 then old(resident) else old(resident)[victim := false])[e := true]
      ensures ok ==> dirty == if victim == -1 then old(dirty) else old(dirty)[victim := false]
      ensures ok ==> forall f :: 0 <= f < |tppa| ==>
        (tppa[f] != NIL <==> old(tppa[f]) != NIL || (f == victim && old(dirty)[f]))
      ensures ok ==> old(Backed()) <= Backed()
    {
      hide MapOk, AllocOk, CountsOk, BelowPointers, Uniform, IsTarget, NoTarget;
      ok, wrote := true, false;
      if victim != -1 {
        resident := resident[victim := false];
        DirtyHasNoCopy(tppa, dirty, bm.valid, bm.oob, {}, victim);
        if dirty[victim] {
          wrote := true;
          ok := WriteBack(victim);
          if !ok { return; }
        }
      }
      resident := resident[e := true];
    }

    // Entry `e`, which has no copy, is written to flash and is clean from then on.
    method WriteBack(e: nat) returns (ok: bool)
      requires Inv() && e < |tppa| && tppa[e] == NIL
      modifies this`tppa, this`dirty, this`tActive, this`tReserve, bm
      ensures ok <==> !old(Stuck())
      ensures !ok ==> Stuck()
      ensures old(Roomy()) ==> ok && Roomy()
      ensures ok ==> Inv() && |tppa| == old(|tppa|) && tppa[e] != NIL && dirty == old(dirty)[e := false]
      ensures ok ==> forall f :: 0 <= f < |tppa| && f != e ==> (tppa[f] == NIL <==> old(tppa[f]) == NIL)
      ensures ok ==> old(Backed()) + {e} <= Backed()
    {
      hide MapOk, AllocOk, CountsOk, BelowPointers, Uniform, IsTarget, NoTarget;
      if Roomy() { RoomyNotStuck(e); }
      var p;
      ok, p := TpAlloc();
      if ok {
        MarkDirty(tppa, dirty, bm.valid, bm.oob, e, false);
        dirty := dirty[e := false];
        PutTpage(p, e, {});
        assert {} - {e} == {};
      }
    }

    /** `_do_bulk_mapping_update`: the slots of moved items point to their new places, in memory for
        resident entries and by rewriting the translation page for the others. */
    method BulkMappingUpdate(nodes: seq<Node>) returns (ok: bool)
      requires Inv() && DirtyResident() && forall x :: x in nodes ==> x.lpa < |table|
      modifies this`tppa, this`dirty, this`table, this`tActive, this`tReserve, bm
      ensures !ok ==> Stuck() && exists x :: x in nodes && !resident[Dir(x.lpa)]
      ensures old(Roomy()) ==> ok && Roomy()
      ensures ok ==> Inv() && DirtyResident() && |table| == old(|table|)
      ensures ok ==> forall x :: x in nodes ==> MovedTo(table[x.lpa], old(table[x.lpa]), nodes, x.lpa)
      ensures ok ==> forall l :: 0 <= l < |table| && (forall x :: x in nodes ==> x.lpa != l) ==>
                       table[l] == old(table[l])
      ensures ok ==> forall x :: x in nodes && resident[Dir(x.lpa)] ==> dirty[Dir(x.lpa)] && tppa[Dir(x.lpa)] == NIL
      ensures ok ==> forall x :: x in nodes && !resident[Dir(x.lpa)] ==> !dirty[Dir(x.lpa)] && tppa[Dir(x.lpa)] != NIL
      ensures ok ==> |tppa| == old(|tppa|) && forall e :: 0 <= e < |tppa| && !HasNodeOf(nodes, e) ==>
                       dirty[e] == old(dirty[e]) && (tppa[e] == NIL <==> old(tppa[e]) == NIL)
      ensures ok ==> old(Backed()) <= Backed()
    {
      hide MapOk, AllocOk, CountsOk, BelowPointers, Uniform, IsTarget, NoTarget;
      var s := SortNodes(nodes);
      assert forall e: nat :: HasNodeOf(s, e) <==> HasNodeOf(nodes, e);
      var skip := UpdateHits(s);
      ghost var done;
      forall k | 0 <= k < |s| ensures Dir(s[k].lpa) < |tppa| { assert s[k] in s; }
      ok, done := RewriteMisses(s, skip, old(table));
      if ok {
        PatchedAll(table, old(table), nodes, s, done);
      } else {
        var k :| 0 <= k < |s| && !skip[k];
        assert s[k] in nodes;
      }
    }

    // Read loop: hits are updated in memory, the copies of missing entries are invalidated.
    method UpdateHits(s: seq<Node>) returns (skip: seq<bool>)
      requires Inv() && DirtyResident() && forall x :: x in s ==> x.lpa < |table|
      modifies this`tppa, this`dirty, this`table, bm`valid, bm`validCnt
      ensures Inv() && DirtyResident() && |tppa| == old(|tppa|) && Patched(table, old(table), s, skip)
      ensures |skip| == |s| && forall i :: 0 <= i < |s| ==> skip[i] == resident[Dir(s[i].lpa)]
      ensures forall i :: 0 <= i < |s| ==> tppa[Dir(s[i].lpa)] == NIL && dirty[Dir(s[i].lpa)] == skip[i]
      ensures forall e :: 0 <= e < |tppa| && !HasNodeOf(s, e) ==> dirty[e] == old(dirty[e]) && tppa[e] == old(tppa[e])
      ensures old(Backed()) <= Backed() + MissDirs(s, skip, 0)
    {
      hide MapOk, AllocOk, CountsOk, BelowPointers, Uniform, Patched, BackedBy, HasNodeOf;
      PatchedAtFirst(table, s);
      skip := seq(|s|, _ => false);
      forall k | 0 <= k < |s| ensures s[k].lpa < |table| { assert s[k] in s; }
      for i := 0 to |s|
        invariant Inv() && DirtyResident() && |tppa| == old(|tppa|) && Patched(table, old(table), s, skip)
        invariant |skip| == |s| && forall k :: 0 <= k < i ==> skip[k] == resident[Dir(s[k].lpa)]
        invariant forall k :: 0 <= k < i ==> tppa[Dir(s[k].lpa)] == NIL && dirty[Dir(s[k].lpa)] == skip[k]
        invariant forall e :: 0 <= e < |tppa| && !HasNodeOf(s, e) ==>
          dirty[e] == old(dirty[e]) && tppa[e] == old(tppa[e])
        invariant forall k :: i <= k < |s| ==> !skip[k]
        invariant old(Backed()) <= Backed() + MissDirs(s, skip, 0)
      {
        skip := UpdateOrForget(s, skip, i, old(table));
        NodeIsOf(s, i);
      }
    }

    // One node of the read loop.
    method UpdateOrForget(s: seq<Node>, skip: seq<bool>, i: nat, ghost t0: seq<Pte>) returns (skip': seq<bool>)
      requires Inv() && DirtyResident() && i < |s| && s[i].lpa < |table|
      requires Patched(table, t0, s, skip) && |skip| == |s| && !skip[i]
      modifies this`tppa, this`dirty, this`table, bm`valid, bm`validCnt
      ensures Inv() && DirtyResident() && |tppa| == old(|tppa|) && Patched(table, t0, s, skip')
      ensures skip' == skip[i := resident[Dir(s[i].lpa)]]
      ensures tppa == old(tppa)[Dir(s[i].lpa) := NIL]
      ensures dirty == if skip'[i] then old(dirty)[Dir(s[i].lpa) := true] else old(dirty)
      ensures old(Backed()) + MissDirs(s, skip, 0) <= Backed() + MissDirs(s, skip', 0)
    {
      hide MapOk, AllocOk, CountsOk, BelowPointers, Uniform, Patched;
      var lpa := s[i].lpa;
      var d := Dir(lpa);
      if resident[d] {
        PatchOne(table, t0, s, skip, i);
        Update(lpa, table[lpa].(ppa := s[i].ppa));
        skip' := skip[i := true];
        assert forall e :: e in MissDirs(s, skip, 0) && e != d ==> e in MissDirs(s, skip', 0);
        assert d in Backed();
      } else {
        skip' := skip;
        assert d in MissDirs(s, skip, 0);
        if tppa[d] != NIL { Forget(d); }
      }
    }

    // Write loop: runs of nodes of one missing entry are patched together, then its page is written.
    method RewriteMisses(s: seq<Node>, skip: seq<bool>, ghost t0: seq<Pte>)
      returns (ok: bool, ghost done: seq<bool>)
      requires Inv() && DirtyResident() && SortedNodes(s) && Patched(table, t0, s, skip)
      requires forall k :: 0 <= k < |s| ==> Dir(s[k].lpa) < |tppa|
      requires |skip| == |s| && forall i :: 0 <= i < |s| ==> skip[i] == resident[Dir(s[i].lpa)]
      requires forall i :: 0 <= i < |s| && !skip[i] ==> tppa[Dir(s[i].lpa)] == NIL
      modifies this`tppa, this`dirty, this`table, this`tActive, this`tReserve, bm
      ensures !ok ==> Stuck() && exists k :: 0 <= k < |s| && !skip[k]
      ensures ok ==> dirty == old(dirty) && |tppa| == old(|tppa|)
      ensures ok ==> forall i :: 0 <= i < |s| && !skip[i] ==> tppa[Dir(s[i].lpa)] != NIL
      ensures ok ==> SameCopies(s, resident, old(tppa), tppa)
      ensures old(Roomy()) ==> ok && Roomy()
      ensures ok ==> Inv() && DirtyResident() && Patched(table, t0, s, done)
      ensures ok ==> |done| == |s| && forall k :: 0 <= k < |s| ==> done[k]
      ensures ok ==> old(Backed()) + MissDirs(s, skip, 0) <= Backed()
    {
      hide MapOk, AllocOk, CountsOk, BelowPointers, Uniform, Patched, BackedBy, MissDirs, IsTarget, NoTarget,
           SameCopies;
      MissDirsLater(s, skip, |s|, |s|, 0);
      SameCopiesAtFirst(s, resident, tppa);
      var i := 0;
      done := skip;
      while i < |s|
        invariant 0 <= i <= |s| && Inv() && DirtyResident() && |tppa| == old(|tppa|)
        invariant forall k :: 0 <= k < |s| ==> Dir(s[k].lpa) < |tppa|
        invariant Patched(table, t0, s, done) && |done| == |s| && forall k :: 0 <= k < |s| && (k < i || skip[k]) ==>
          done[k]
        invariant forall k :: i <= k < |s| && !skip[k] ==> tppa[Dir(s[k].lpa)] == NIL
        invariant forall k :: 0 <= k < i && !skip[k] ==> tppa[Dir(s[k].lpa)] != NIL
        invariant dirty == old(dirty) && SameCopies(s, resident, old(tppa), tppa)
        invariant old(Backed()) + MissDirs(s, skip, 0) <= Backed() + MissDirs(s, skip, i)
      {
        var d := Dir(s[i].lpa);
        if skip[i] {
          MissDirsLater(s, skip, i, i + 1, d);
          i := i + 1;
          continue;
        }
        ghost var tppa1 := tppa;
        var j;
        ok, j, done := RewriteRun(s, i, d, t0, done);
        if !ok { return; }
        SameCopiesMore(s, resident, old(tppa), tppa1, tppa, i);
        MissDirsLater(s, skip, i, j, d);
        i := j;
      }
      ok := true;
    }

    // The run of nodes of missing entry `d` that starts at `i` is patched and its page written.
    method RewriteRun(s: seq<Node>, i: nat, d: nat, ghost t0: seq<Pte>, ghost done0: seq<bool>)
      returns (ok: bool, j: nat, ghost done: seq<bool>)
      requires Inv() && DirtyResident() && Patched(table, t0, s, done0)
      requires i < |s| && Dir(s[i].lpa) == d < |tppa| && !resident[d] && tppa[d] == NIL
      modifies this`tppa, this`dirty, this`table, this`tActive, this`tReserve, bm
      ensures !ok ==> Stuck()
      ensures old(Roomy()) ==> ok && Roomy()
      ensures ok ==> Inv() && DirtyResident() && Patched(table, t0, s, done)
      ensures i < j <= |s| && (forall k :: i <= k < j ==> Dir(s[k].lpa) == d) && (j < |s| ==> Dir(s[j].lpa) != d)
      ensures |done| == |done0| == |s| && forall k :: 0 <= k < |s| ==> done[k] == (done0[k] || i <= k < j)
      ensures ok ==> dirty == old(dirty) && |tppa| == old(|tppa|) && tppa[d] != NIL
      ensures ok ==> forall f :: 0 <= f < |tppa| && f != d ==> (tppa[f] == NIL <==> old(tppa[f]) == NIL)
      ensures ok ==> old(Backed()) + {d} <= Backed()
    {
      hide MapOk, AllocOk, CountsOk, BelowPointers, Uniform, Patched, BackedBy, IsTarget, NoTarget;
      j, done := PatchRun(s, i, d, t0, done0);
      ok := WriteBack(d);
    }

    // Patches the run of nodes of entry `d` that starts at `i`; returns where it ends.
    method PatchRun(s: seq<Node>, i: nat, d: nat, ghost t0: seq<Pte>, ghost done0: seq<bool>)
      returns (j: nat, ghost done: seq<bool>)
      requires i < |s| && Dir(s[i].lpa) == d && Patched(table, t0, s, done0)
      modifies this`table
      ensures i < j <= |s| && Patched(table, t0, s, done) && |table| == old(|table|)
      ensures |done| == |done0| == |s| && forall k :: 0 <= k < |s| ==> done[k] == (done0[k] || i <= k < j)
      ensures j < |s| ==> Dir(s[j].lpa) != d
      ensures forall k :: i <= k < j ==> Dir(s[k].lpa) == d
    {
      j, done := i, done0;
      while j < |s| && Dir(s[j].lpa) == d
        invariant i <= j <= |s| && Patched(table, t0, s, done)
        invariant forall k :: 0 <= k < |s| ==> done[k] == (done0[k] || i <= k < j)
        invariant forall k :: i <= k < j ==> Dir(s[k].lpa) == d
      {
        PatchOne(table, t0, s, done, j);
        table := table[s[j].lpa := table[s[j].lpa].(ppa := s[j].ppa)];
        j, done := j + 1, done[j := true];
      }
    }
  }
}
