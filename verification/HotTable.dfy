/**
 The hot mapping table: a bounded-probe hash table of promoted entries with one counter per heat
 state, a byte budget for cached keys, and an incremental rehash that runs when the table grows or
 shrinks.
 */
module HotTable {
  import opened Common
  import Counting

  const MAX_PROBE: nat := 50
  const REHASH_MAX_PROBE: nat := 3200
  const STATE_NUM: nat := 6
  const HOT_STATE_MAX: nat := 5
  // Entries in this state or above survive a rehash.
  const DEFAULT_STATE: nat := 2
  const MAX_CACHED_KEY_LEN: nat := 32

  datatype Slot = Slot(lpa: nat, ppa: nat, fp: nat, state: nat, keyLen: nat)

  const VACANT: Slot := Slot(NIL, NIL, 0, 0, 0)

  predicate Taken(x: Slot) { x.lpa != NIL }

  predicate Warm(x: Slot) { Taken(x) && x.state >= DEFAULT_STATE }

  // ----- totals over slots -----

  // What is added up: entries in one state, entries, or bytes of cached keys.
  datatype Weight = InState(s: nat) | Entries | KeyBytes

  function Worth(x: Slot, w: Weight): nat {
    match w
    case InState(s) => if Taken(x) && x.state == s then 1 else 0
    case Entries => if Taken(x) then 1 else 0
    case KeyBytes => x.keyLen
  }

  function Sum(t: seq<Slot>, w: Weight): nat {
    if t == [] then 0 else Sum(t[..|t| - 1], w) + Worth(t[|t| - 1], w)
  }

  lemma {:induction false} SumUpdate(t: seq<Slot>, w: Weight, k: nat, x: Slot)
    requires k < |t|
    ensures Sum(t[k := x], w) + Worth(t[k], w) == Sum(t, w) + Worth(x, w)
  {
    var n := |t| - 1;
    if k < n {
      assert t[k := x][..n] == t[..n][k := x];
      SumUpdate(t[..n], w, k, x);
    } else {
      assert t[k := x][..n] == t[..n];
    }
  }

  lemma {:induction false} SumConcat(s: seq<Slot>, t: seq<Slot>, w: Weight)
    ensures Sum(s + t, w) == Sum(s, w) + Sum(t, w)
    decreases |t|
  {
    if t == [] {
      assert s + t == s;
    } else {
      var n := |t| - 1;
      assert (s + t)[..|s + t| - 1] == s + t[..n];
      SumConcat(s, t[..n], w);
    }
  }

  // All slots vacant: nothing counts.
  lemma {:induction false} SumVacant(t: seq<Slot>, w: Weight)
    requires forall k :: 0 <= k < |t| ==> t[k] == VACANT
    ensures Sum(t, w) == 0
  {
    if t != [] { SumVacant(t[..|t| - 1], w); }
  }

  lemma {:induction false} SumAtLeast(t: seq<Slot>, w: Weight, k: nat)
    requires k < |t|
    ensures Worth(t[k], w) <= Sum(t, w)
  {
    if k < |t| - 1 { SumAtLeast(t[..|t| - 1], w, k); }
  }

  /** The entries in the six states are all entries. */
  lemma {:induction false} StatesAreAll(t: seq<Slot>)
    requires forall k :: 0 <= k < |t| ==> t[k].state < STATE_NUM
    ensures Sum(t, InState(0)) + Sum(t, InState(1)) + Sum(t, InState(2)) + Sum(t, InState(3)) + Sum(t, InState(4))
            + Sum(t, InState(5)) == Sum(t, Entries)
  {
    if t != [] { StatesAreAll(t[..|t| - 1]); }
  }

  // Fewer entries than slots leave a vacant one.
  lemma {:induction false} SomeVacant(t: seq<Slot>) returns (k: nat)
    requires Sum(t, Entries) < |t|
    ensures k < |t| && !Taken(t[k])
  {
    if Taken(t[|t| - 1]) {
      k := SomeVacant(t[..|t| - 1]);
    } else {
      k := |t| - 1;
    }
  }

  // ----- the probe chain -----

  // `hot_probe_advance`: a page and a position in it, stepped on.
  function Advance(d: nat, p: nat, step: nat, pages: nat): (q: (nat, nat))
    requires pages > 0 && p < EPP
    ensures q.0 < pages && q.1 < EPP
  {
    ((d + (p + step * step) / EPP) % pages, (p + step * step) % EPP)
  }

  // Where the chain of `lpa` is after `j` steps.
  function Probe(lpa: nat, pages: nat, j: nat): (q: (nat, nat))
    requires pages > 0
    ensures q.0 < pages && q.1 < EPP
  {
    if j == 0 then Home(lpa, pages)
    else
      var q := Probe(lpa, pages, j - 1);
      Advance(q.0, q.1, j, pages)
  }

  function Home(lpa: nat, pages: nat): (q: (nat, nat))
    requires pages > 0
    ensures q.0 < pages && q.1 < EPP
  {
    HomeInRange(lpa, pages);
    (lpa % (pages * EPP) / EPP, lpa % (pages * EPP) % EPP)
  }

  lemma HomeInRange(lpa: nat, pages: nat)
    requires pages > 0
    ensures lpa % (pages * EPP) / EPP < pages
  {
    var r := lpa % (pages * EPP);
    assert r < pages * EPP;
  }

  function Index(q: (nat, nat)): nat { q.0 * EPP + q.1 }

  // The slot of the chain of `lpa` after `j` steps.
  function ChainSlot(lpa: nat, pages: nat, j: nat): (k: nat)
    requires pages > 0
    ensures k < pages * EPP
  {
    Index(Probe(lpa, pages, j))
  }

  lemma Remainder(a: nat, m: nat, q: nat, r: nat)
    requires a == m * q + r && r < m
    ensures a % m == r
  {
    var d := a / m;
    assert m * d <= a < m * (d + 1) && m * q <= a < m * (q + 1);
    assert d < q + 1 && q < d + 1;
  }

  // `x` slots further on from position `p` of page `d`.
  lemma FurtherOn(d: nat, p: nat, x: nat, pages: nat)
    requires pages > 0
    ensures (d * EPP + p + x) % (pages * EPP) == (d + (p + x) / EPP) % pages * EPP + (p + x) % EPP
  {
    var u := d + (p + x) / EPP;
    var w := u / pages;
    assert u == w * pages + u % pages;
    assert d * EPP + p + x == u * EPP + (p + x) % EPP;
    assert w * pages * EPP == pages * EPP * w;
    Remainder(d * EPP + p + x, pages * EPP, w, u % pages * EPP + (p + x) % EPP);
  }

  /** Each step of a chain goes on by the square of its number, round and round the slots in use; the first slot
      is the lpa itself, modulo their number. */
  lemma ChainStep(lpa: nat, pages: nat, j: nat)
    requires pages > 0
    ensures ChainSlot(lpa, pages, 0) == lpa % (pages * EPP)
    ensures ChainSlot(lpa, pages, j + 1) == (ChainSlot(lpa, pages, j) + (j + 1) * (j + 1)) % (pages * EPP)
  {
    var q, x := Probe(lpa, pages, j), (j + 1) * (j + 1);
    FurtherOn(q.0, q.1, x, pages);
  }

  // Slot `k` is on the first fifty of the chain of the entry it holds.
  ghost predicate OnOwnChain(t: seq<Slot>, pages: nat, k: nat)
    requires k < |t| && pages > 0
  {
    exists j: nat :: j < MAX_PROBE && ChainSlot(t[k].lpa, pages, j) == k
  }

  ghost predicate AllOnChain(t: seq<Slot>, pages: nat)
    requires pages > 0
  {
    forall k :: 0 <= k < |t| && Taken(t[k]) ==> OnOwnChain(t, pages, k)
  }

  /** Every entry is there once. */
  ghost predicate Distinct(t: seq<Slot>) {
    forall j, k :: 0 <= j < k < |t| && Taken(t[j]) ==> t[j].lpa != t[k].lpa
  }

  // ----- what a scan of the chain finds -----

  ghost predicate ChainLacks(t: seq<Slot>, pages: nat, lpa: nat, n: nat)
    requires 0 < pages && pages * EPP <= |t|
  {
    forall j: nat :: j < n ==> t[ChainSlot(lpa, pages, j)].lpa != lpa
  }

  // The first vacant slot among the first `n` of the chain; -1 if there is none.
  ghost predicate FirstVacant(t: seq<Slot>, pages: nat, lpa: nat, n: nat, k: int)
    requires 0 < pages && pages * EPP <= |t|
  {
    if k == -1 then forall j: nat :: j < n ==> Taken(t[ChainSlot(lpa, pages, j)])
    else exists i: nat :: i < n && k == ChainSlot(lpa, pages, i) && !Taken(t[k])
                          && forall j: nat :: j < i ==> Taken(t[ChainSlot(lpa, pages, j)])
  }

  // The last of the coldest entries among the first `n` of the chain; -1 if there is no entry.
  ghost predicate Coldest(t: seq<Slot>, pages: nat, lpa: nat, n: nat, k: int)
    requires 0 < pages && pages * EPP <= |t|
  {
    if k == -1 then forall j: nat :: j < n ==> !Taken(t[ChainSlot(lpa, pages, j)])
    else exists i: nat :: i < n && k == ChainSlot(lpa, pages, i) && Taken(t[k])
                          && forall j: nat :: j < n && Taken(t[ChainSlot(lpa, pages, j)]) ==>
                               t[k].state <= t[ChainSlot(lpa, pages, j)].state
                                 && (j > i ==> t[k].state < t[ChainSlot(lpa, pages, j)].state)
  }

  /** The counters are exact. */
  ghost predicate Counts(t: seq<Slot>, hist: seq<nat>, valid: nat) {
    && |hist| == STATE_NUM && valid == Sum(t, Entries)
    && (forall s :: 0 <= s < STATE_NUM ==> hist[s] == Sum(t, InState(s)))
    && forall k :: 0 <= k < |t| ==> t[k].state < STATE_NUM && (!Taken(t[k]) ==> t[k] == VACANT)
  }

  function Dec(hist: seq<nat>, s: nat): (h: seq<nat>)
    ensures |h| == |hist|
  {
    if s < |hist| && hist[s] > 0 then hist[s := hist[s] - 1] else hist
  }

  function Inc(hist: seq<nat>, s: nat): (h: seq<nat>)
    ensures |h| == |hist|
  {
    if s < |hist| then hist[s := hist[s] + 1] else hist
  }

  // Slot `k` taken by `x`: its old state is counted down, if it was taken, and the new one up.
  lemma CountsPut(t: seq<Slot>, hist: seq<nat>, valid: nat, k: nat, x: Slot)
    requires Counts(t, hist, valid) && k < |t| && Taken(x) && x.state < STATE_NUM
    ensures Counts(t[k := x], Inc(if Taken(t[k]) then Dec(hist, t[k].state) else hist, x.state),
                   if Taken(t[k]) then valid else valid + 1)
    ensures Sum(t[k := x], KeyBytes) + t[k].keyLen == Sum(t, KeyBytes) + x.keyLen
  {
    hide Sum;
    forall w ensures Sum(t[k := x], w) + Worth(t[k], w) == Sum(t, w) + Worth(x, w) && Worth(t[k], w) <= Sum(t, w) {
      SumUpdate(t, w, k, x);
      SumAtLeast(t, w, k);
    }
    var h := Inc(if Taken(t[k]) then Dec(hist, t[k].state) else hist, x.state);
    forall s | 0 <= s < STATE_NUM ensures h[s] == Sum(t[k := x], InState(s)) {
      assert Sum(t[k := x], InState(s)) + Worth(t[k], InState(s)) == Sum(t, InState(s)) + Worth(x, InState(s));
    }
  }

  lemma CountsVacate(t: seq<Slot>, hist: seq<nat>, valid: nat, k: nat)
    requires Counts(t, hist, valid) && k < |t| && Taken(t[k])
    ensures valid > 0 && Counts(t[k := VACANT], Dec(hist, t[k].state), valid - 1)
    ensures Sum(t[k := VACANT], KeyBytes) + t[k].keyLen == Sum(t, KeyBytes)
  {
    hide Sum;
    forall w ensures Sum(t[k := VACANT], w) + Worth(t[k], w) == Sum(t, w) && Worth(t[k], w) <= Sum(t, w) {
      SumUpdate(t, w, k, VACANT);
      SumAtLeast(t, w, k);
    }
    var h := Dec(hist, t[k].state);
    forall s | 0 <= s < STATE_NUM ensures h[s] == Sum(t[k := VACANT], InState(s)) {
      assert Sum(t[k := VACANT], InState(s)) + Worth(t[k], InState(s)) == Sum(t, InState(s));
    }
  }

  // ----- where a rehash puts entries -----

  // The slots a rehash tries for `lpa`: its chain, then the whole table in order.
  function Visit(lpa: nat, pages: nat, i: nat): (k: nat)
    requires pages > 0 && i < REHASH_MAX_PROBE + pages * EPP
    ensures k < pages * EPP
  {
    if i < REHASH_MAX_PROBE then ChainSlot(lpa, pages, i) else i - REHASH_MAX_PROBE
  }

  // The slot holds an entry of another lpa.
  predicate Foreign(x: Slot, lpa: nat) { Taken(x) && x.lpa != lpa }

  // Slot `k`, tried after `i` foreign ones, is not foreign.
  ghost predicate FirstAt(t: seq<Slot>, pages: nat, lpa: nat, k: nat, i: nat)
    requires 0 < pages && pages * EPP <= |t|
  {
    && i < REHASH_MAX_PROBE + pages * EPP && Visit(lpa, pages, i) == k && !Foreign(t[k], lpa)
    && forall j: nat :: j < i ==> Foreign(t[Visit(lpa, pages, j)], lpa)
  }

  // The slot a rehash takes for `lpa`.
  ghost predicate FirstFree(t: seq<Slot>, pages: nat, lpa: nat, k: nat)
    requires 0 < pages && pages * EPP <= |t|
  {
    exists i: nat :: FirstAt(t, pages, lpa, k, i)
  }

  /** That is the first of the 3200 slots of its chain that is vacant or its own; if there is none of these, the
      first such slot of the table. */
  lemma FirstFreeMeans(t: seq<Slot>, pages: nat, lpa: nat, k: nat)
    requires 0 < pages && pages * EPP <= |t|
    ensures FirstFree(t, pages, lpa, k) <==>
      k < pages * EPP && !Foreign(t[k], lpa)
      && ((exists i: nat :: i < 3200 && ChainSlot(lpa, pages, i) == k
                            && forall j: nat :: j < i ==> Foreign(t[ChainSlot(lpa, pages, j)], lpa))
          || ((forall j: nat :: j < 3200 ==> Foreign(t[ChainSlot(lpa, pages, j)], lpa))
              && forall m :: 0 <= m < k ==> Foreign(t[m], lpa)))
  {
    hide ChainSlot, Foreign;
    if FirstFree(t, pages, lpa, k) {
      var i: nat :| FirstAt(t, pages, lpa, k, i);
      if i < 3200 {
        forall j: nat | j < i ensures Foreign(t[ChainSlot(lpa, pages, j)], lpa) {
          assert Foreign(t[Visit(lpa, pages, j)], lpa);
        }
      } else {
        forall j: nat | j < 3200 ensures Foreign(t[ChainSlot(lpa, pages, j)], lpa) {
          assert Foreign(t[Visit(lpa, pages, j)], lpa);
        }
        forall m: nat | m < k ensures Foreign(t[m], lpa) { assert Foreign(t[Visit(lpa, pages, 3200 + m)], lpa); }
      }
    } else if k < pages * EPP && !Foreign(t[k], lpa) {
      forall i: nat | i < 3200 && ChainSlot(lpa, pages, i) == k
        ensures exists j: nat :: j < i && !Foreign(t[ChainSlot(lpa, pages, j)], lpa)
      {
        assert !FirstAt(t, pages, lpa, k, i);
      }
      assert !FirstAt(t, pages, lpa, k, 3200 + k);
    }
  }

  lemma FirstFreeIsOne(t: seq<Slot>, pages: nat, lpa: nat, j: nat, k: nat)
    requires 0 < pages && pages * EPP <= |t| && FirstFree(t, pages, lpa, j) && FirstFree(t, pages, lpa, k)
    ensures j == k
  {
    hide Visit;
    var a: nat :| FirstAt(t, pages, lpa, j, a);
    var b: nat :| FirstAt(t, pages, lpa, k, b);
  }

  // Every entry lies where a rehash would look for it first.
  ghost predicate FirstFit(t: seq<Slot>, pages: nat)
    requires 0 < pages && pages * EPP <= |t|
  {
    forall k :: 0 <= k < |t| && Taken(t[k]) ==> FirstFree(t, pages, t[k].lpa, k)
  }

  // Taking its first free slot for `x` leaves the others' where they are.
  lemma FirstFitPut(t: seq<Slot>, pages: nat, k: nat, x: Slot)
    requires 0 < pages && pages * EPP <= |t| && FirstFit(t, pages) && Taken(x) && FirstFree(t, pages, x.lpa, k)
    ensures k < pages * EPP && FirstFit(t[k := x], pages)
  {
    hide Visit;
    var i: nat :| FirstAt(t, pages, x.lpa, k, i);
    var t' := t[k := x];
    forall m | 0 <= m < |t| && Taken(t'[m]) ensures FirstFree(t', pages, t'[m].lpa, m) {
      if m == k {
        forall j: nat | j < i ensures Foreign(t'[Visit(x.lpa, pages, j)], x.lpa) {
          assert Foreign(t[Visit(x.lpa, pages, j)], x.lpa);
        }
        assert FirstAt(t', pages, x.lpa, k, i);
      } else {
        var lpa := t[m].lpa;
        var n: nat :| FirstAt(t, pages, lpa, m, n);
        if lpa == x.lpa {
          FirstFreeIsOne(t, pages, lpa, m, k);
        } else {
          forall j: nat | j < n ensures Foreign(t'[Visit(lpa, pages, j)], lpa) {
            assert Foreign(t[Visit(lpa, pages, j)], lpa);
          }
          assert FirstAt(t', pages, lpa, m, n);
        }
      }
    }
  }

  // The last entry of its lpa in `s`.
  ghost predicate Last(s: seq<Slot>, x: Slot) {
    exists i :: 0 <= i < |s| && s[i] == x && LpaEnds(s, i)
  }

  // No entry behind `i` has its lpa.
  ghost predicate LpaEnds(s: seq<Slot>, i: nat)
    requires i < |s|
  {
    forall j :: i < j < |s| ==> s[j].lpa != s[i].lpa
  }

  ghost predicate Singles(s: seq<Slot>) { forall i, j :: 0 <= i < j < |s| ==> s[i].lpa != s[j].lpa }

  // The table holds exactly the last entries of `s`.
  ghost predicate Holds(t: seq<Slot>, s: seq<Slot>) {
    forall x :: Taken(x) ==> (x in t <==> Last(s, x))
  }

  // Some entry of the table has the lpa exactly if one of `s` has.
  lemma HoldsLpa(t: seq<Slot>, s: seq<Slot>, lpa: nat)
    requires Holds(t, s) && lpa != NIL
    ensures (exists k :: 0 <= k < |t| && t[k].lpa == lpa) <==> exists i :: 0 <= i < |s| && s[i].lpa == lpa
  {
    if k :| 0 <= k < |t| && t[k].lpa == lpa {
      assert t[k] in t && Last(s, t[k]);
    }
    if i :| 0 <= i < |s| && s[i].lpa == lpa {
      var j := LastOf(s, i);
      assert Last(s, s[j]);
      assert s[j] in t;
    }
  }

  lemma {:induction false} LastOf(s: seq<Slot>, i: nat) returns (j: nat)
    requires i < |s|
    ensures j < |s| && s[j].lpa == s[i].lpa && LpaEnds(s, j)
    decreases |s| - i
  {
    if n :| i < n < |s| && s[n].lpa == s[i].lpa {
      j := LastOf(s, n);
    } else {
      j := i;
    }
  }

  // One more entry put where it belongs.
  lemma HoldsPut(t: seq<Slot>, s: seq<Slot>, k: nat, x: Slot)
    requires Holds(t, s) && Distinct(t) && k < |t| && Taken(x) && !Foreign(t[k], x.lpa)
    requires forall m :: 0 <= m < |t| && m != k ==> t[m].lpa != x.lpa
    ensures Holds(t[k := x], s + [x]) && Distinct(t[k := x])
  {
    var t', s' := t[k := x], s + [x];
    forall y | Taken(y) ensures y in t' <==> Last(s', y) {
      if y.lpa == x.lpa {
        assert LpaEnds(s', |s|) && s'[|s|] == x;
        assert t'[k] == x;
      } else {
        if y in t' {
          assert y in t;
          assert Last(s, y);
          var i :| 0 <= i < |s| && s[i] == y && LpaEnds(s, i);
          assert s'[i] == y && LpaEnds(s', i);
        }
        if Last(s', y) {
          var i :| 0 <= i < |s'| && s'[i] == y && LpaEnds(s', i);
          forall j | i < j < |s| ensures s[j].lpa != s[i].lpa { assert s'[j] == s[j]; }
          assert s[i] == y && LpaEnds(s, i);
          assert y in t;
          var m :| 0 <= m < |t| && t[m] == y;
          assert t'[m] == y;
        }
      }
    }
  }

  lemma SinglesMore(s: seq<Slot>, x: Slot)
    ensures Singles(s + [x]) <==> Singles(s) && forall i :: 0 <= i < |s| ==> s[i].lpa != x.lpa
  {
    var s' := s + [x];
    if Singles(s') {
      forall i, j | 0 <= i < j < |s| ensures s[i].lpa != s[j].lpa { assert s'[i].lpa != s'[j].lpa; }
      forall i | 0 <= i < |s| ensures s[i].lpa != x.lpa { assert s'[i].lpa != s'[|s|].lpa; }
    }
  }

  datatype Phase = Idle | Collect | Insert

  class Table {
    // Pages that can be in use, and those that are.
    const cap: nat
    var pages: nat
    // Pages left to the cold side.
    var cold: nat
    var table: seq<Slot>
    var hist: seq<nat>
    var valid: nat
    // Key bytes not used, of those there are.
    var free: nat
    var budget: nat
    // The rehash: what it does next, the slot to be scanned, the entries saved and the next to insert.
    var phase: Phase
    var scanPage: nat
    var scanGrain: nat
    var saved: seq<Slot>
    var insertIdx: nat
    var placed: nat
    var dropped: nat
    // The table when the rehash began.
    ghost var origin: seq<Slot>
    // By how much `valid` is over the number of entries, and key bytes that are neither free nor cached.
    ghost var extra: nat
    ghost var lost: nat

    ghost predicate Shape()
      reads this
    {
      0 < pages <= cap && |table| == cap * EPP && forall k :: pages * EPP <= k < |table| ==> table[k] == VACANT
    }

    /** Between rehashes: counters and key bytes are exact, but for `extra` and `lost`. */
    ghost predicate Valid()
      reads this
    {
      && Shape() && phase == Idle && extra <= valid && Counts(table, hist, valid - extra)
      && free + Sum(table, KeyBytes) + lost == budget
    }

    // An empty table.
    constructor (cap: nat, pages: nat, cold: nat, budget: nat)
      requires 0 < pages <= cap
      ensures Valid() && Distinct(table) && AllOnChain(table, this.pages) && extra == lost == 0
      ensures this.pages == pages && this.cap == cap && this.cold == cold && this.budget == budget
      ensures forall k :: 0 <= k < |table| ==> table[k] == VACANT
    {
      this.cap, this.pages, this.cold, this.budget, free := cap, pages, cold, budget, budget;
      table, hist, valid := seq(cap * EPP, _ => VACANT), [0, 0, 0, 0, 0, 0], 0;
      phase, scanPage, scanGrain, saved, insertIdx, placed, dropped, origin := Idle, 0, 0, [], 0, 0, 0, [];
      extra, lost := 0, 0;
      new;
      forall w ensures Sum(table, w) == 0 { SumVacant(table, w); }
    }

    // The probe loop of a promotion.
    method Scan(lpa: nat) returns (found: int, empty: int, victim: int)
      requires Shape() && lpa != NIL && forall k :: 0 <= k < |table| ==> table[k].state < STATE_NUM
      ensures found == -1 || FirstOwn(table, pages, lpa, found)
      ensures found == -1 ==> ChainLacks(table, pages, lpa, MAX_PROBE)
      ensures found == -1 ==>
        FirstVacant(table, pages, lpa, MAX_PROBE, empty) && Coldest(table, pages, lpa, MAX_PROBE, victim)
    {
      hide Probe, Advance, Home, FirstVacant, Coldest, Sum;
      found, empty, victim := -1, -1, -1;
      ScanStarts(table, pages, lpa);
      var victimState := HOT_STATE_MAX + 1;
      var q := Home(lpa, pages);
      for probe := 0 to MAX_PROBE
        invariant q == Probe(lpa, pages, probe) && ChainLacks(table, pages, lpa, probe)
        invariant FirstVacant(table, pages, lpa, probe, empty) && Coldest(table, pages, lpa, probe, victim)
        invariant -1 <= victim < |table|
          && victimState == if victim == -1 then HOT_STATE_MAX + 1 else table[victim].state
        invariant -1 <= empty
      {
        var k := Index(q);
        assert k == ChainSlot(lpa, pages, probe);
        if table[k].lpa == lpa { return k, empty, victim; }
        ScanOn(table, pages, lpa, probe, empty, victim);
        if !Taken(table[k]) {
          if empty < 0 { empty := k; }
        } else if table[k].state <= victimState {
          victimState, victim := table[k].state, k;
        }
        ProbeNext(lpa, pages, probe);
        q := Advance(q.0, q.1, probe + 1, pages);
      }
    }

    /** `hot_promote_place_grain`: an entry already on the chain is brought up to date; else the first
        vacant slot of the chain is taken, or its last coldest entry displaced unless that is warmer than
        the newcomer. */
    method Promote(lpa: nat, ppa: nat, fp: nat, coldCnt: nat) returns (ok: bool)
      requires Valid() && lpa != NIL
      modifies this`table, this`hist, this`valid, this`free
      ensures Valid()
      ensures !ok ==> table == old(table)
      ensures !ok <==> old(Blocked(table, pages, lpa, coldCnt))
      ensures ok ==> exists k: nat :: k < |old(table)| && Chosen(old(table), pages, lpa, k)
                                      && table == old(table)[k := Promoted(old(table)[k], lpa, ppa, fp, coldCnt)]
      ensures ok ==> |table| == |old(table)| && forall k: nat :: k < |table| && Chosen(old(table), pages, lpa, k) ==>
        && table[k].lpa == lpa && table[k].ppa == ppa && table[k].fp == fp
        && table[k].state == (if coldCnt <= 5 then coldCnt else 5)
        && table[k].keyLen == (if old(table)[k].lpa == lpa then old(table)[k].keyLen else 0)
        && forall m :: 0 <= m < |table| && m != k ==> table[m] == old(table)[m]
      ensures ok ==> exists j: nat :: j < MAX_PROBE && table[ChainSlot(lpa, pages, j)].lpa == lpa
      ensures old(Distinct(table) && AllOnChain(table, pages)) ==> Distinct(table) && AllOnChain(table, pages)
      ensures old(Distinct(table)) && ok ==> (Distinct(table) <==> old(OnlyOnChain(table, pages, lpa)))
    {
      hide Probe, Sum, FirstVacant, Coldest, ChainLacks, Distinct, AllOnChain, ChainSlot;
      ghost var t := table;
      var found, empty, victim := Scan(lpa);
      ScanMeans(table, pages, lpa, found, empty, victim);
      if found == -1 && empty == -1 && coldCnt < table[victim].state { return false; }
      var k := if found != -1 then found else if empty != -1 then empty else victim;
      var x := Promoted(table[k], lpa, ppa, fp, coldCnt);
      ok := true;
      ChosenOnChain(table, pages, lpa, k);
      CountsPut(table, hist, valid - extra, k, x);
      if Taken(table[k]) { hist := Dec(hist, table[k].state); } else { valid := valid + 1; }
      if table[k].lpa != lpa { free := free + table[k].keyLen; }
      hist := Inc(hist, x.state);
      table := table[k := x];
      PromotedDistinct(t, pages, lpa, k, x);
      forall m: nat | m < |t| && Chosen(t, pages, lpa, m) ensures m == k { ChosenIsOne(t, pages, lpa, k, m); }
    }

    /** After a promotion a lookup of the entry is a hit and gives its page and fingerprint. */
    method PromoteAndHit(lpa: nat, ppa: nat, fp: nat, coldCnt: nat) returns (ok: bool, hit: bool, k: nat)
      requires Valid() && lpa != NIL
      modifies this`table, this`hist, this`valid, this`free
      ensures Valid() && (ok <==> !old(Blocked(table, pages, lpa, coldCnt)))
      ensures ok ==> hit && k < |table| && table[k].lpa == lpa && table[k].ppa == ppa && table[k].fp == fp
    {
      hide Sum, Counts, Distinct, AllOnChain, ChainSlot, Chosen, FirstOwn;
      ghost var t := table;
      ok := Promote(lpa, ppa, fp, coldCnt);
      hit, k := false, 0;
      if ok {
        ghost var m: nat :| m < |t| && Chosen(t, pages, lpa, m);
        ghost var t1 := table;
        hit, k := IsHit(lpa);
        HitIsChosen(t, t1, pages, lpa, m, k);
      }
    }

    /** `dftl_cache_hot_is_hit`: finds an entry, the first of its lpa among the first fifty of its chain, and
        warms it by one. */
    method IsHit(lpa: nat) returns (hit: bool, k: nat)
      requires Valid() && lpa != NIL
      modifies this`table, this`hist
      ensures Valid()
      ensures hit <==> exists j: nat :: j < MAX_PROBE && old(table)[ChainSlot(lpa, pages, j)].lpa == lpa
      ensures hit ==> k < |table| == |old(table)| && FirstOwn(old(table), pages, lpa, k)
      ensures hit ==>
        && table[k].lpa == lpa && table[k].ppa == old(table[k].ppa) && table[k].fp == old(table[k].fp)
        && table[k].keyLen == old(table[k].keyLen)
        && table[k].state == (if old(table[k].state) < 5 then old(table[k].state) + 1 else 5)
        && forall m :: 0 <= m < |table| && m != k ==> table[m] == old(table)[m]
      ensures !hit ==> table == old(table)
      ensures old(Distinct(table) && AllOnChain(table, pages)) ==> Distinct(table) && AllOnChain(table, pages)
    {
      hide Probe, Advance, Home, Sum, Distinct, AllOnChain;
      k := 0;
      var q := Home(lpa, pages);
      ProbeStarts(lpa, pages);
      for probe := 0 to MAX_PROBE
        invariant table == old(table) && hist == old(hist) && Valid()
        invariant q == Probe(lpa, pages, probe) && ChainLacks(table, pages, lpa, probe)
      {
        k := Index(q);
        assert k == ChainSlot(lpa, pages, probe);
        if table[k].lpa == lpa {
          CountsPut(table, hist, valid - extra, k, Raised(table[k]));
          RaisedDistinct(table, pages, k);
          if table[k].state < HOT_STATE_MAX {
            hist := Inc(Dec(hist, table[k].state), table[k].state + 1);
            table := table[k := Raised(table[k])];
          }
          assert table == old(table)[k := Raised(old(table)[k])];
          return true, k;
        }
        ProbeNext(lpa, pages, probe);
        q := Advance(q.0, q.1, probe + 1, pages);
      }
      hit := false;
    }

    /** A key that was read for a check is cached with its entry, if the budget allows. */
    method CacheKey(k: nat, len: nat, isGhost: bool) returns (ok: bool)
      requires Valid() && k < |table| && Taken(table[k])
      modifies this`table, this`free
      ensures Valid()
      ensures ok <==> old(table[k].keyLen) == 0 && !isGhost && len <= MAX_CACHED_KEY_LEN && len <= old(free)
      ensures table == if ok then old(table)[k := old(table[k]).(keyLen := len)] else old(table)
    {
      hide Sum;
      ok := table[k].keyLen == 0 && !isGhost && len <= MAX_CACHED_KEY_LEN && free >= len;
      if ok {
        SetKey(table, hist, valid - extra, k, len);
        table := table[k := table[k].(keyLen := len)];
        free := free - len;
      }
    }

    /** `adaptive_clear_hot_page`: a page's entries are dropped and their key bytes given back. */
    method ClearPage(d: nat)
      requires Valid() && d < cap
      modifies this`table, this`hist, this`valid, this`free
      ensures Valid() && table == Cleared(old(table), d * EPP, (d + 1) * EPP)
    {
      hide Sum, Counts;
      assert table == Cleared(table, d * EPP, d * EPP);
      for j := 0 to EPP
        invariant Valid() && table == Cleared(old(table), d * EPP, d * EPP + j)
      {
        ClearSlot(d * EPP + j);
      }
    }

    method ClearSlot(k: nat)
      requires Valid() && k < |table|
      modifies this`table, this`hist, this`valid, this`free
      ensures Valid() && table == old(table)[k := VACANT]
    {
      hide Sum;
      var x := table[k];
      SumAtLeast(table, KeyBytes, k);
      if Taken(x) {
        CountsVacate(table, hist, valid - extra, k);
        hist := Dec(hist, x.state);
        if valid > 0 { valid := valid - 1; }
        if x.keyLen != 0 && free < budget { free := free + x.keyLen; }
      } else {
        assert table[k := VACANT] == table;
      }
      table := table[k := VACANT];
    }

    /** `adaptive_expand_key_cache`: only a used-up budget grows, by `chunk` bytes and up to `most`, paid
        for with cold pages. */
    method ExpandKeyCache(chunk: nat, most: nat, minCold: nat) returns (ok: bool)
      requires Valid()
      modifies this`free, this`budget, this`cold
      ensures Valid()
      ensures var pagesFor := if (chunk + 4095) / 4096 == 0 then 1 else (chunk + 4095) / 4096;
        && (ok <==> old(free) == 0 && old(budget) < most && old(cold) > minCold + pagesFor - 1)
        && (ok ==> cold == old(cold) - pagesFor)
        && (ok ==> budget == if old(budget) + chunk > most then most else old(budget) + chunk)
        && (ok ==> budget - free == old(budget))
        && (!ok ==> cold == old(cold) && budget == old(budget) && free == old(free))
    {
      if free != 0 { return false; }
      if budget >= most { return false; }
      var newBudget := budget + chunk;
      if newBudget > most { newBudget := most; }
      var pagesFor := (chunk + 4095) / 4096;
      if pagesFor == 0 { pagesFor := 1; }
      if cold <= minCold + pagesFor - 1 { return false; }
      cold := cold - pagesFor;
      free, budget := newBudget - (budget - free), newBudget;
      ok := true;
    }

    function ScanAt(): nat
      reads this
    {
      scanPage * EPP + scanGrain
    }

    /** COLLECT: behind the scan every slot is vacant and its warm entries are saved. */
    ghost predicate Collecting()
      reads this
    {
      && Shape() && phase == Collect && scanGrain < EPP && scanPage <= pages && (scanPage == pages ==> scanGrain == 0)
      && OriginOk(origin, pages) && |origin| == |table|
      && hist == [0, 0, 0, 0, 0, 0] && valid == placed == dropped == insertIdx == extra == 0
      && (forall k :: 0 <= k < |table| ==> table[k] == if k < ScanAt() then VACANT else origin[k])
      && saved == WarmOf(origin[..ScanAt()])
      && free + Sum(table, KeyBytes) + Sum(saved, KeyBytes) + lost == budget
    }

    /** INSERT: of the saved entries inserted so far the table holds the last of each lpa, once, where the
        search of an insertion finds it; `extra` is over zero exactly if some lpa came twice. */
    ghost predicate Inserting()
      reads this
    {
      && Shape() && phase == Insert && OriginOk(origin, pages) && saved == WarmOf(origin[..pages * EPP])
      && extra <= insertIdx == placed <= |saved| && dropped == 0 && Counts(table, hist, placed - extra)
      && Distinct(table) && FirstFit(table, pages) && Holds(table, saved[..insertIdx])
      && (extra == 0 <==> Singles(saved[..insertIdx]))
      && free + Sum(table, KeyBytes) + Sum(saved[insertIdx..], KeyBytes) + lost == budget
    }

    /** Done: of the warm entries there were the table holds the last of each lpa, once, and nothing was
        dropped.  The count is that of the warm entries, and exact exactly if none was there twice. */
    ghost predicate Done()
      reads this
    {
      && Valid() && Distinct(table) && dropped == 0 && pages * EPP <= |origin|
      && (forall x :: Taken(x) ==> (x in table <==> LastWarm(origin[..pages * EPP], x)))
      && valid == |WarmOf(origin[..pages * EPP])| && (extra == 0 <==> SingleWarm(origin[..pages * EPP]))
    }

    // `hot_rehash_begin`.
    method Begin()
      requires Valid()
      modifies this`phase, this`scanPage, this`scanGrain, this`saved, this`insertIdx, this`placed, this`dropped
      modifies this`valid, this`hist, this`origin, this`extra
      ensures Collecting() && origin == old(table)
    {
      hide Sum, Counts, OriginOk, WarmOf, Taken, Warm;
      CountedIsOk(table, hist, valid - extra, pages);
      ResetCounters();
      NothingSaved();
      saved, scanPage, scanGrain, phase := [], 0, 0, Collect;
      origin := table;
      assert ScanAt() == 0;
      assert origin[..ScanAt()] == [];
    }

    method ResetCounters()
      modifies this`valid, this`hist, this`insertIdx, this`placed, this`dropped, this`extra
      ensures hist == [0, 0, 0, 0, 0, 0] && valid == placed == dropped == insertIdx == extra == 0
    {
      insertIdx, placed, dropped, valid, hist, extra := 0, 0, 0, 0, [0, 0, 0, 0, 0, 0], 0;
    }

    // Slots still to be scanned and entries still to be inserted.
    ghost function Left(): nat
      requires Collecting() || Inserting() || phase == Idle
      reads this
    {
      match phase
      case Idle => 0
      case Collect => 2 * (pages * EPP - ScanAt()) + |saved| + 2
      case Insert => |saved| - insertIdx + 1
    }

    /** `hot_rehash_step_locked`: as many slots are scanned, or entries inserted, as the budget says, or all that
        are left; any positive budget brings the rehash closer to its end. */
    method Step(work: nat)
      requires Collecting() || Inserting()
      modifies this`table, this`hist, this`valid, this`free, this`phase, this`scanPage, this`scanGrain, this`saved
      modifies this`insertIdx, this`placed, this`dropped, this`extra, this`lost
      ensures Collecting() || Inserting() || (phase == Idle && Done())
      ensures old(phase) == Collect && old(ScanAt()) + work < pages * EPP ==>
        phase == Collect && ScanAt() == old(ScanAt()) + work
      ensures old(phase) == Collect && old(ScanAt()) + work >= pages * EPP ==> phase == Insert && insertIdx == 0
      ensures old(phase) == Insert && old(insertIdx) + work < |old(saved)| ==>
        phase == Insert && insertIdx == old(insertIdx) + work
      ensures old(phase) == Insert && old(insertIdx) + work >= |old(saved)| ==> phase == Idle
      ensures old(extra) <= extra && (extra == old(extra) ==> lost == old(lost))
      ensures work > 0 ==> Left() < old(Left())
    {
      if phase == Collect { CollectSome(work); } else { InsertSome(work); }
    }

    method CollectSome(budget0: nat)
      requires Collecting()
      modifies this`table, this`hist, this`free, this`phase, this`scanPage, this`scanGrain, this`saved
      ensures Collecting() || Inserting()
      ensures old(ScanAt()) + budget0 < pages * EPP ==> phase == Collect && ScanAt() == old(ScanAt()) + budget0
      ensures old(ScanAt()) + budget0 >= pages * EPP ==> phase == Insert && insertIdx == 0
      ensures budget0 > 0 ==> Left() < old(Left())
    {
      hide Sum, OriginOk, Counts, Distinct, WarmOf, FirstFit, Holds, Singles;
      var work := 0;
      while work < budget0 && scanPage < pages
        invariant Collecting() && 0 <= work <= budget0 && Left() + work <= old(Left())
        invariant ScanAt() == old(ScanAt()) + work
      {
        CollectOne();
        work := work + 1;
      }
      if scanPage >= pages {
        CollectedAll();
        phase := Insert;
      }
    }

    // One slot scanned.
    method CollectOne()
      requires Collecting() && scanPage < pages
      modifies this`table, this`hist, this`free, this`scanPage, this`scanGrain, this`saved
      ensures Collecting() && Left() < old(Left()) && ScanAt() == old(ScanAt()) + 1
    {
      hide Sum, Counts, Distinct, WarmOf, OriginOk;
      Scanned();
      TakeOut(scanPage * EPP + scanGrain);
      NextScan();
    }

    method TakeOut(k: nat)
      requires k < |table| && (!Taken(table[k]) ==> table[k] == VACANT) && (table[k].keyLen == 0 || free < budget)
      modifies this`table, this`hist, this`free, this`saved
      ensures table == old(table)[k := VACANT]
        && hist == if Taken(old(table)[k]) then Dec(old(hist), old(table)[k].state) else old(hist)
      ensures saved == if Warm(old(table)[k]) then old(saved) + [old(table)[k]] else old(saved)
      ensures free == old(free) + if Warm(old(table)[k]) then 0 else old(table)[k].keyLen
    {
      var x := table[k];
      if Taken(x) {
        if Warm(x) {
          saved := saved + [x];
        } else if x.keyLen != 0 && free < budget {
          free := free + x.keyLen;
        }
        hist := Dec(hist, x.state);
        table := table[k := VACANT];
      }
    }

    method NextScan()
      requires scanGrain < EPP
      modifies this`scanPage, this`scanGrain
      ensures ScanAt() == old(ScanAt()) + 1 && scanGrain < EPP
      ensures scanPage == old(scanPage) || (scanPage == old(scanPage) + 1 && scanGrain == 0)
    {
      scanGrain := scanGrain + 1;
      if scanGrain >= EPP { scanGrain, scanPage := 0, scanPage + 1; }
    }

    // What scanning the next slot does to the totals and the saved entries.
    lemma Scanned()
      requires Collecting() && scanPage < pages
      ensures var s := ScanAt(); var x := table[s];
        && WarmOf(origin[..s + 1]) == (if Warm(x) then saved + [x] else saved)
        && (!Taken(x) ==> x == VACANT) && Dec(hist, x.state) == hist && (x.keyLen == 0 || free < budget)
        && Sum(table[s := VACANT], KeyBytes) + x.keyLen == Sum(table, KeyBytes)
        && Sum(saved + [x], KeyBytes) == Sum(saved, KeyBytes) + x.keyLen
    {
      hide Sum, Counts, Distinct, WarmOf;
      var s := ScanAt();
      var x := table[s];
      assert origin[..s + 1] == origin[..s] + [x];
      WarmMore(origin[..s], x);
      SlotOk(origin, pages, s);
      SumUpdate(table, KeyBytes, s, VACANT);
      SumConcat(saved, [x], KeyBytes);
      SumOfOne(x);
    }

    // With everything scanned the table is empty and the counters match.
    lemma CollectedAll()
      requires Collecting() && scanPage >= pages
      ensures Counts(table, hist, 0) && Distinct(table) && Sum(table, KeyBytes) == 0 && saved[0..] == saved
      ensures saved == WarmOf(origin[..pages * EPP])
      ensures FirstFit(table, pages) && Holds(table, saved[..0]) && Singles(saved[..0])
    {
      forall w ensures Sum(table, w) == 0 { SumVacant(table, w); }
    }

    method InsertSome(budget0: nat)
      requires Inserting()
      modifies this`table, this`hist, this`valid, this`free, this`phase, this`scanPage, this`scanGrain, this`saved
      modifies this`insertIdx, this`placed, this`dropped, this`extra, this`lost
      ensures Inserting() || (phase == Idle && Done())
      ensures if old(insertIdx) + budget0 < |old(saved)| then phase == Insert && insertIdx == old(insertIdx) + budget0
        else phase == Idle
      ensures old(extra) <= extra && (extra == old(extra) ==> lost == old(lost))
      ensures budget0 > 0 ==> Left() < old(Left())
    {
      hide Sum, OriginOk, Counts, Distinct, WarmOf, FirstFit, Holds, Singles;
      var work := 0;
      while work < budget0 && insertIdx < |saved|
        invariant Inserting() && 0 <= work <= budget0 && Left() + work <= old(Left())
        invariant saved == old(saved) && insertIdx == old(insertIdx) + work
        invariant old(extra) <= extra && (extra == old(extra) ==> lost == old(lost))
        decreases |saved| - insertIdx
      {
        InsertOne();
        work := work + 1;
      }
      if insertIdx >= |saved| { Finish(); }
    }

    /** One saved entry inserted.  An entry of its lpa already there is replaced: it stays counted, and the
        bytes of its key are lost. */
    method InsertOne()
      requires Inserting() && insertIdx < |saved|
      modifies this`table, this`hist, this`free, this`insertIdx, this`placed, this`dropped, this`extra, this`lost
      ensures Inserting() && insertIdx == old(insertIdx) + 1 && saved == old(saved)
      ensures extra == old(extra) ==> lost == old(lost)
      ensures var x := saved[insertIdx - 1];
        exists k: nat :: k < |old(table)| && FirstFree(old(table), pages, x.lpa, k) && table == old(table)[k := x]
          && extra == old(extra) + (if Taken(old(table)[k]) then 1 else 0) && lost == old(lost) + old(table)[k].keyLen
    {
      hide Sum, WarmOf, Counts, Distinct, OriginOk, FirstFit, FirstFree, Holds, Singles;
      Room();
      ghost var x := saved[insertIdx];
      ghost var t := table;
      var k := PlaceOrDrop(saved[insertIdx]);
      Put(t, old(hist), k);
      if Taken(t[k]) { extra := extra + 1; }
      lost := lost + t[k].keyLen;
      insertIdx := insertIdx + 1;
    }

    // There is room for the next saved entry.
    lemma Room()
      requires Inserting() && insertIdx < |saved|
      ensures Warm(saved[insertIdx]) && saved[insertIdx].state < STATE_NUM
      ensures exists k :: 0 <= k < pages * EPP && !Taken(table[k])
    {
      hide Counts, FirstFit, Holds, Singles, Distinct;
      WarmOfAre(origin[..pages * EPP]);
      WarmStates(origin, pages);
      assert saved[insertIdx] in saved;
      CountOfEntries(table, hist, placed - extra);
      assert table == table[..pages * EPP] + table[pages * EPP..];
      SumConcat(table[..pages * EPP], table[pages * EPP..], Entries);
      var k := SomeVacant(table[..pages * EPP]);
    }

    // The entry `saved[insertIdx]` put into slot `k` of the table `t`.
    lemma Put(t: seq<Slot>, h: seq<nat>, k: nat)
      requires insertIdx < |saved| && 0 < pages && pages * EPP <= |t| && k < |t| && insertIdx == placed - 1
      requires Warm(saved[insertIdx]) && saved[insertIdx].state < STATE_NUM && extra <= insertIdx
      requires Counts(t, h, insertIdx - extra) && Distinct(t) && FirstFit(t, pages) && Holds(t, saved[..insertIdx])
      requires FirstFree(t, pages, saved[insertIdx].lpa, k) && (extra == 0 <==> Singles(saved[..insertIdx]))
      ensures var x := saved[insertIdx]; var t' := t[k := x];
        && Counts(t', Inc(if Taken(t[k]) then Dec(h, t[k].state) else h, x.state),
                  insertIdx + 1 - extra - (if Taken(t[k]) then 1 else 0))
        && Distinct(t') && FirstFit(t', pages) && Holds(t', saved[..insertIdx + 1])
        && (extra == 0 && !Taken(t[k]) <==> Singles(saved[..insertIdx + 1])) && (Taken(t[k]) || t[k].keyLen == 0)
        && Sum(t', KeyBytes) + Sum(saved[insertIdx + 1..], KeyBytes) + t[k].keyLen ==
           Sum(t, KeyBytes) + Sum(saved[insertIdx..], KeyBytes)
    {
      hide Sum, FirstAt, Holds, Distinct, FirstFit, Singles;
      var x, s := saved[insertIdx], saved[..insertIdx];
      OwnIsFirst(t, pages, x.lpa, k);
      CountsPut(t, h, insertIdx - extra, k, x);
      FirstFitPut(t, pages, k, x);
      HoldsPut(t, s, k, x);
      HoldsLpa(t, s, x.lpa);
      SinglesMore(s, x);
      assert saved[..insertIdx + 1] == s + [x];
      assert saved[insertIdx..] == [x] + saved[insertIdx + 1..];
      SumConcat([x], saved[insertIdx + 1..], KeyBytes);
      SumOfOne(x);
    }

    /** `x` goes to the first slot tried that is vacant or holds its own entry; with no such slot it is
        dropped and its key bytes given back. */
    method PlaceOrDrop(x: Slot) returns (k: int)
      requires Shape() && Taken(x)
      modifies this`table, this`hist, this`free, this`placed, this`dropped
      ensures k == -1 <==> forall j :: 0 <= j < pages * EPP ==> Foreign(old(table)[j], x.lpa)
      ensures k != -1 ==> 0 <= k < pages * EPP && FirstFree(old(table), pages, x.lpa, k) && table == old(table)[k := x]
      ensures k != -1 ==> placed == old(placed) + 1 && dropped == old(dropped) && free == old(free)
      ensures k != -1 ==>
        hist == Inc(if Taken(old(table)[k]) then Dec(old(hist), old(table)[k].state) else old(hist), x.state)
      ensures k == -1 ==>
        dropped == old(dropped) + 1 && placed == old(placed) && table == old(table) && hist == old(hist)
      ensures k == -1 ==> free == old(free) + if old(free) < budget then x.keyLen else 0
    {
      k := FindSlot(x.lpa);
      if k == -1 {
        if x.keyLen != 0 && free < budget { free := free + x.keyLen; }
        dropped := dropped + 1;
      } else {
        if Taken(table[k]) { hist := Dec(hist, table[k].state); }
        table := table[k := x];
        hist := Inc(hist, x.state);
        placed := placed + 1;
      }
    }

    // `hot_rehash_place_entry`: a slot for `lpa`, first along its chain, then anywhere.
    method FindSlot(lpa: nat) returns (k: int)
      requires Shape() && lpa != NIL
      ensures k == -1 || (0 <= k < pages * EPP && FirstFree(table, pages, lpa, k) && !Foreign(table[k], lpa))
      ensures k == -1 ==> forall j :: 0 <= j < pages * EPP ==> Foreign(table[j], lpa)
    {
      hide Advance, Home, Probe;
      var q: (nat, nat) := Home(lpa, pages);
      ProbeStarts(lpa, pages);
      for probe := 1 to REHASH_MAX_PROBE + 1
        invariant q == Probe(lpa, pages, probe - 1)
        invariant forall j: nat :: j < probe - 1 ==> Foreign(table[Visit(lpa, pages, j)], lpa)
      {
        k := Index(q);
        assert k == Visit(lpa, pages, probe - 1);
        if table[k].lpa == NIL || table[k].lpa == lpa {
          assert FirstAt(table, pages, lpa, k, probe - 1);
          return k;
        }
        ProbeNext(lpa, pages, probe - 1);
        q := Advance(q.0, q.1, probe, pages);
      }
      for d := 0 to pages
        invariant forall j: nat :: j < REHASH_MAX_PROBE + d * EPP ==> Foreign(table[Visit(lpa, pages, j)], lpa)
      {
        for p := 0 to EPP
          invariant forall j: nat :: j < REHASH_MAX_PROBE + d * EPP + p ==> Foreign(table[Visit(lpa, pages, j)], lpa)
        {
          k := d * EPP + p;
          assert k == Visit(lpa, pages, REHASH_MAX_PROBE + k);
          if table[k].lpa == NIL || table[k].lpa == lpa {
            assert FirstAt(table, pages, lpa, k, REHASH_MAX_PROBE + k);
            return k;
          }
        }
      }
      k := -1;
      forall j | 0 <= j < pages * EPP ensures Foreign(table[j], lpa) {
        assert Visit(lpa, pages, REHASH_MAX_PROBE + j) == j;
      }
    }

    // `hot_rehash_finish_locked`.
    method Finish()
      requires Inserting() && insertIdx == |saved|
      modifies this`valid, this`phase, this`scanPage, this`scanGrain, this`saved, this`insertIdx
      ensures phase == Idle && Done()
    {
      hide WarmOf, Counts, FirstFit, Singles, SingleWarm, Holds, LastWarm, Sum, Distinct;
      WarmOfLast(origin[..pages * EPP]);
      WarmOfSingles(origin[..pages * EPP]);
      NothingSaved();
      assert saved[..insertIdx] == saved;
      assert saved[insertIdx..] == [];
      HoldsMeans(table, saved);
      valid, phase := placed, Idle;
      scanPage, scanGrain, saved, insertIdx := 0, 0, [], 0;
    }

    /** `hot_rehash_drain_all`, with any positive amount of work at each tick. */
    method DrainAll()
      requires Collecting()
      modifies this`table, this`hist, this`valid, this`free, this`phase, this`scanPage, this`scanGrain, this`saved
      modifies this`insertIdx, this`placed, this`dropped, this`extra, this`lost
      ensures phase == Idle && Done() && origin == old(origin) && budget == old(budget)
      ensures extra == 0 ==> lost == old(lost)
    {
      hide Done;
      while phase != Idle
        invariant Collecting() || Inserting() || (phase == Idle && Done())
        invariant extra == 0 ==> lost == old(lost)
        decreases Left()
      {
        var work: nat :| work > 0;
        Step(work);
      }
    }

    // The pages `[lo, hi)` cleared one by one.
    method ClearPages(lo: nat, hi: nat)
      requires Valid() && lo <= hi <= cap
      modifies this`table, this`hist, this`valid, this`free
      ensures Valid() && table == Cleared(old(table), lo * EPP, hi * EPP)
    {
      hide Sum, Counts;
      assert table == Cleared(table, lo * EPP, lo * EPP);
      for d := lo to hi
        invariant Valid() && table == Cleared(old(table), lo * EPP, d * EPP)
      {
        ClearPage(d);
      }
    }

    /** A rehash of the table `t`: its warm entries stay, of several of one lpa the last; then the count is
        exact if and only if there were no such several, and then no key byte is lost either. */
    twostate predicate Rehashed(t: seq<Slot>)
      reads this
    {
      && Valid() && Distinct(table) && (forall x :: Taken(x) ==> (x in table <==> LastWarm(t, x)))
      && valid == |WarmOf(t)| && (extra == 0 <==> SingleWarm(t)) && (SingleWarm(t) ==> lost == old(lost))
      && (Distinct(t) ==>
            SingleWarm(t) && forall x: Slot :: x.lpa != NIL ==> (x in table <==> x in t && x.state >= 2))
    }

    method Rehash()
      requires Valid()
      modifies this
      ensures Rehashed(old(table[..pages * EPP]))
      ensures pages == old(pages) && cold == old(cold) && budget == old(budget)
    {
      hide Sum, Counts, Distinct, LastWarm, SingleWarm, WarmOf;
      ghost var t := table[..pages * EPP];
      Begin();
      DrainAll();
      if Distinct(t) { DistinctWarm(t); }
    }

    /** `adaptive_expand_hot_from_cold`: `chunk` pages move from the cold side and the table is rehashed. */
    method Expand(chunk: nat, minCold: nat) returns (ok: bool)
      requires Valid()
      modifies this
      ensures Valid() && budget == old(budget) && pages + cold == old(pages + cold)
      ensures ok <==> old(cold) > minCold + chunk - 1 && old(pages) + chunk <= cap
      ensures ok ==> pages == old(pages) + chunk && Rehashed(old(table))
      ensures !ok ==> pages == old(pages) && table == old(table) && extra == old(extra) && lost == old(lost)
    {
      hide Sum, Counts, Distinct, LastWarm, SingleWarm, WarmOf;
      if cold <= minCold + chunk - 1 { return false; }
      if pages + chunk > cap { return false; }
      ghost var t := table;
      cold, pages := cold - chunk, pages + chunk;
      ClearPages(pages - chunk, pages);
      assert table == t;
      Rehash();
      WarmInFront(t, pages * EPP);
      WarmOfInFront(t, pages * EPP);
      if Distinct(t) { DistinctWarm(t); }
      ok := true;
    }

    /** `adaptive_shrink_hot_to_cold`: the last `chunk` pages are cleared and given to the cold side, and
        the rest is rehashed. */
    method Shrink(chunk: nat, minHot: nat, total: nat) returns (ok: bool)
      requires Valid() && minHot > 0
      modifies this
      ensures Valid() && budget == old(budget) && pages + cold == old(pages + cold)
      ensures ok <==> old(pages) > minHot + chunk - 1 && old(cold) + chunk <= total
      ensures ok ==> pages == old(pages) - chunk && Rehashed(old(table)[..pages * EPP])
      ensures !ok ==> pages == old(pages) && table == old(table) && extra == old(extra) && lost == old(lost)
    {
      hide Sum, Counts, Distinct, LastWarm, SingleWarm, WarmOf;
      if pages <= minHot + chunk - 1 { return false; }
      if cold + chunk > total { return false; }
      ghost var t := table;
      ClearPages(pages - chunk, pages);
      pages := pages - chunk;
      cold := cold + chunk;
      assert table[..pages * EPP] == t[..pages * EPP];
      Rehash();
      ok := true;
    }
  }

  function Heat(coldCnt: nat): nat { if coldCnt > HOT_STATE_MAX then HOT_STATE_MAX else coldCnt }

  // The slot after a promotion: the key of the same entry is kept, another's is not.
  function Promoted(x: Slot, lpa: nat, ppa: nat, fp: nat, coldCnt: nat): Slot {
    Slot(lpa, ppa, fp, Heat(coldCnt), if x.lpa == lpa then x.keyLen else 0)
  }

  function Raised(x: Slot): Slot { x.(state := if x.state < HOT_STATE_MAX then x.state + 1 else x.state) }

  // The entry of `lpa` is at slot `k`, one of the first fifty of its chain.
  ghost predicate OnChain(t: seq<Slot>, pages: nat, lpa: nat, k: int)
    requires 0 < pages && pages * EPP <= |t|
  {
    0 <= k < |t| && t[k].lpa == lpa && exists j: nat :: j < MAX_PROBE && ChainSlot(lpa, pages, j) == k
  }

  // And it is the first of them with an entry of `lpa`.
  ghost predicate FirstOwn(t: seq<Slot>, pages: nat, lpa: nat, k: int)
    requires 0 < pages && pages * EPP <= |t|
  {
    && 0 <= k < |t| && t[k].lpa == lpa
    && exists j: nat :: j < MAX_PROBE && ChainSlot(lpa, pages, j) == k && ChainLacks(t, pages, lpa, j)
  }

  // Nothing of `lpa` lies elsewhere.
  ghost predicate OnlyOnChain(t: seq<Slot>, pages: nat, lpa: nat)
    requires 0 < pages && pages * EPP <= |t|
  {
    forall k :: 0 <= k < |t| && t[k].lpa == lpa ==> OnChain(t, pages, lpa, k)
  }

  /** A promotion is refused: the first fifty of the chain are other, warmer entries. */
  ghost predicate Blocked(t: seq<Slot>, pages: nat, lpa: nat, coldCnt: nat)
    requires 0 < pages && pages * EPP <= |t|
  {
    forall j: nat :: j < MAX_PROBE ==>
      var x := t[ChainSlot(lpa, pages, j)]; Taken(x) && x.lpa != lpa && x.state > coldCnt
  }

  /** The slot a promotion uses. */
  ghost predicate Chosen(t: seq<Slot>, pages: nat, lpa: nat, k: nat)
    requires 0 < pages && pages * EPP <= |t|
  {
    && k < |t|
    && (FirstOwn(t, pages, lpa, k)
        || (ChainLacks(t, pages, lpa, MAX_PROBE)
            && (FirstVacant(t, pages, lpa, MAX_PROBE, k)
                || (FirstVacant(t, pages, lpa, MAX_PROBE, -1) && Coldest(t, pages, lpa, MAX_PROBE, k)))))
  }

  lemma ProbeStarts(lpa: nat, pages: nat)
    requires pages > 0
    ensures Home(lpa, pages) == Probe(lpa, pages, 0)
  {
  }

  lemma ProbeNext(lpa: nat, pages: nat, j: nat)
    requires pages > 0
    ensures Probe(lpa, pages, j + 1) == Advance(Probe(lpa, pages, j).0, Probe(lpa, pages, j).1, j + 1, pages)
  {
  }

  lemma ScanStarts(t: seq<Slot>, pages: nat, lpa: nat)
    requires 0 < pages && pages * EPP <= |t|
    ensures FirstVacant(t, pages, lpa, 0, -1) && Coldest(t, pages, lpa, 0, -1)
      && Home(lpa, pages) == Probe(lpa, pages, 0)
  {
  }

  // One more slot of the chain seen.
  lemma ScanOn(t: seq<Slot>, pages: nat, lpa: nat, j: nat, empty: int, victim: int)
    requires 0 < pages && pages * EPP <= |t| && -1 <= empty && -1 <= victim < |t|
    requires FirstVacant(t, pages, lpa, j, empty) && Coldest(t, pages, lpa, j, victim)
    ensures var k := ChainSlot(lpa, pages, j);
      && FirstVacant(t, pages, lpa, j + 1, if !Taken(t[k]) && empty < 0 then k else empty)
      && Coldest(t, pages, lpa, j + 1,
                 if Taken(t[k]) && (victim == -1 || t[k].state <= t[victim].state) then k else victim)
  {
    hide ChainSlot;
    var k := ChainSlot(lpa, pages, j);
    if !Taken(t[k]) && empty < 0 { assert FirstVacant(t, pages, lpa, j + 1, k); }
    if Taken(t[k]) && (victim == -1 || t[k].state <= t[victim].state) {
      assert Coldest(t, pages, lpa, j + 1, k);
    }
  }

  // What the scan's three results say about a promotion.
  lemma ScanMeans(t: seq<Slot>, pages: nat, lpa: nat, found: int, empty: int, victim: int)
    requires 0 < pages && pages * EPP <= |t| && lpa != NIL
    requires found == -1 || FirstOwn(t, pages, lpa, found)
    requires found == -1 ==> ChainLacks(t, pages, lpa, MAX_PROBE)
    requires found == -1 ==> FirstVacant(t, pages, lpa, MAX_PROBE, empty) && Coldest(t, pages, lpa, MAX_PROBE, victim)
    ensures found == -1 && empty != -1 ==> 0 <= empty < |t| && !Taken(t[empty]) && Chosen(t, pages, lpa, empty)
    ensures found == -1 && empty == -1 ==>
      0 <= victim < |t| && Taken(t[victim]) && t[victim].lpa != lpa && Chosen(t, pages, lpa, victim)
    ensures found != -1 ==> Chosen(t, pages, lpa, found)
    ensures forall c: nat :: Blocked(t, pages, lpa, c) <==> found == -1 && empty == -1 && c < t[victim].state
  {
    hide ChainSlot;
    if found == -1 && empty == -1 {
      assert Taken(t[ChainSlot(lpa, pages, 0)]);
    }
  }

  lemma ChosenOnChain(t: seq<Slot>, pages: nat, lpa: nat, k: nat)
    requires 0 < pages && pages * EPP <= |t| && Chosen(t, pages, lpa, k)
    ensures k < pages * EPP <= |t| && exists j: nat :: j < MAX_PROBE && ChainSlot(lpa, pages, j) == k
    ensures t[k].lpa == lpa || ChainLacks(t, pages, lpa, MAX_PROBE)
  {
    hide ChainSlot;
  }

  lemma FirstOwnIsOne(t: seq<Slot>, pages: nat, lpa: nat, k: nat, m: nat)
    requires 0 < pages && pages * EPP <= |t| && FirstOwn(t, pages, lpa, k) && FirstOwn(t, pages, lpa, m)
    ensures k == m
  {
    hide ChainSlot;
    var i: nat :| i < MAX_PROBE && ChainSlot(lpa, pages, i) == k && ChainLacks(t, pages, lpa, i);
    var j: nat :| j < MAX_PROBE && ChainSlot(lpa, pages, j) == m && ChainLacks(t, pages, lpa, j);
  }

  // There is one slot a promotion uses.
  lemma ChosenIsOne(t: seq<Slot>, pages: nat, lpa: nat, k: nat, m: nat)
    requires 0 < pages && pages * EPP <= |t| && Chosen(t, pages, lpa, k) && Chosen(t, pages, lpa, m)
    ensures k == m
  {
    hide ChainSlot;
    if ChainLacks(t, pages, lpa, MAX_PROBE) {
      assert !FirstOwn(t, pages, lpa, k) && !FirstOwn(t, pages, lpa, m);
    } else {
      FirstOwnIsOne(t, pages, lpa, k, m);
    }
  }

  // A hit behind a promotion finds the slot the promotion used.
  lemma HitIsChosen(t: seq<Slot>, t': seq<Slot>, pages: nat, lpa: nat, k: nat, m: nat)
    requires 0 < pages && pages * EPP <= |t| == |t'| && Chosen(t, pages, lpa, k) && FirstOwn(t', pages, lpa, m)
    requires t'[k].lpa == lpa && forall i :: 0 <= i < |t| && i != k ==> t'[i] == t[i]
    ensures m == k
  {
    hide ChainSlot, Chosen;
    ChosenOnChain(t, pages, lpa, k);
    var j: nat :| j < MAX_PROBE && ChainSlot(lpa, pages, j) == m && ChainLacks(t', pages, lpa, j);
    if m != k && !ChainLacks(t, pages, lpa, MAX_PROBE) {
      ChosenIsFirst(t, pages, lpa, k);
    }
  }

  lemma ChosenIsFirst(t: seq<Slot>, pages: nat, lpa: nat, k: nat)
    requires 0 < pages && pages * EPP <= |t| && Chosen(t, pages, lpa, k) && !ChainLacks(t, pages, lpa, MAX_PROBE)
    ensures FirstOwn(t, pages, lpa, k)
  {
  }

  /** A promotion keeps entries single exactly when no entry of its own was out of reach of its probes. */
  lemma PromotedDistinct(t: seq<Slot>, pages: nat, lpa: nat, k: nat, x: Slot)
    requires 0 < pages && pages * EPP <= |t| && lpa != NIL && x.lpa == lpa && k < |t| && Chosen(t, pages, lpa, k)
    ensures Distinct(t) && AllOnChain(t, pages) ==> Distinct(t[k := x]) && AllOnChain(t[k := x], pages)
    ensures Distinct(t) ==> (Distinct(t[k := x]) <==> OnlyOnChain(t, pages, lpa))
  {
    hide ChainSlot, Chosen;
    ChosenOnChain(t, pages, lpa, k);
    var t' := t[k := x];
    if Distinct(t) {
      if OnlyOnChain(t, pages, lpa) {
        forall m | 0 <= m < |t| && m != k ensures t[m].lpa != lpa {
          assert t[m].lpa == lpa ==> OnChain(t, pages, lpa, m);
        }
      } else {
        var m :| 0 <= m < |t| && t[m].lpa == lpa && !OnChain(t, pages, lpa, m);
        assert t'[m].lpa == lpa == t'[k].lpa;
      }
      if AllOnChain(t, pages) {
        forall m | 0 <= m < |t| && t[m].lpa == lpa ensures OnChain(t, pages, lpa, m) { assert OnOwnChain(t, pages, m); }
        forall m | 0 <= m < |t'| && Taken(t'[m]) ensures OnOwnChain(t', pages, m) {
          if m != k { assert OnOwnChain(t, pages, m); }
        }
      }
    }
  }

  lemma RaisedDistinct(t: seq<Slot>, pages: nat, k: nat)
    requires 0 < pages && k < |t|
    ensures Distinct(t) && AllOnChain(t, pages) ==>
      Distinct(t[k := Raised(t[k])]) && AllOnChain(t[k := Raised(t[k])], pages)
  {
    hide ChainSlot;
    var t' := t[k := Raised(t[k])];
    assert forall m :: 0 <= m < |t| ==> t'[m].lpa == t[m].lpa;
    if AllOnChain(t, pages) {
      forall m | 0 <= m < |t'| && Taken(t'[m]) ensures OnOwnChain(t', pages, m) { assert OnOwnChain(t, pages, m); }
    }
  }

  // A key cached with an entry that had none.
  lemma SetKey(t: seq<Slot>, hist: seq<nat>, valid: nat, k: nat, len: nat)
    requires Counts(t, hist, valid) && k < |t| && Taken(t[k])
    ensures Counts(t[k := t[k].(keyLen := len)], hist, valid)
    ensures Sum(t[k := t[k].(keyLen := len)], KeyBytes) + t[k].keyLen == Sum(t, KeyBytes) + len
  {
    hide Sum;
    var x := t[k].(keyLen := len);
    forall w ensures Sum(t[k := x], w) + Worth(t[k], w) == Sum(t, w) + Worth(x, w) { SumUpdate(t, w, k, x); }
    forall s | 0 <= s < STATE_NUM ensures hist[s] == Sum(t[k := x], InState(s)) {
      assert Sum(t[k := x], InState(s)) + Worth(t[k], InState(s)) == Sum(t, InState(s)) + Worth(x, InState(s));
    }
  }

  // The slots `[lo, hi)` emptied.
  function Cleared(t: seq<Slot>, lo: nat, hi: nat): (c: seq<Slot>)
    ensures |c| == |t| && forall k :: 0 <= k < |t| ==> c[k] == if lo <= k < hi then VACANT else t[k]
  {
    seq(|t|, k requires 0 <= k < |t| => if lo <= k < hi then VACANT else t[k])
  }

  // ----- the rehash -----

  function WarmOf(t: seq<Slot>): (w: seq<Slot>)
    ensures |w| <= |t|
  {
    if t == [] then []
    else if Warm(t[|t| - 1]) then WarmOf(t[..|t| - 1]) + [t[|t| - 1]]
    else WarmOf(t[..|t| - 1])
  }

  lemma WarmMore(t: seq<Slot>, x: Slot)
    ensures WarmOf(t + [x]) == if Warm(x) then WarmOf(t) + [x] else WarmOf(t)
  {
    assert (t + [x])[..|t|] == t;
  }

  // A table a rehash can start from.
  ghost predicate OriginOk(t: seq<Slot>, pages: nat) {
    && pages * EPP <= |t|
    && forall k :: 0 <= k < |t| ==> t[k].state < STATE_NUM && (!Taken(t[k]) ==> t[k] == VACANT)
  }

  lemma SlotOk(t: seq<Slot>, pages: nat, k: nat)
    requires OriginOk(t, pages) && k < |t|
    ensures !Taken(t[k]) ==> t[k] == VACANT
    ensures t[k].state < STATE_NUM
  {
  }

  lemma NothingSaved()
    ensures WarmOf([]) == [] && Sum([], KeyBytes) == 0
  {
  }

  lemma SumOfOne(x: Slot)
    ensures Sum([x], KeyBytes) == x.keyLen
  {
    assert [x][..0] == [];
  }

  lemma {:induction false} WarmOfAre(t: seq<Slot>)
    ensures forall x :: x in WarmOf(t) <==> x in t && Warm(x)
  {
    if t != [] {
      WarmOfAre(t[..|t| - 1]);
      assert t == t[..|t| - 1] + [t[|t| - 1]];
    }
  }

  lemma HoldsMeans(t: seq<Slot>, s: seq<Slot>)
    requires Holds(t, s)
    ensures forall x :: Taken(x) ==> (x in t <==> Last(s, x))
  {
  }

  /** `x` is warm, and behind it no warm entry has its lpa. */
  ghost predicate LastWarm(t: seq<Slot>, x: Slot) {
    exists k :: 0 <= k < |t| && t[k] == x && Warm(x) && WarmEnds(t, k)
  }

  ghost predicate WarmEnds(t: seq<Slot>, k: nat)
    requires k < |t|
  {
    forall m :: k < m < |t| && Warm(t[m]) ==> t[m].lpa != t[k].lpa
  }

  /** No two warm entries have one lpa. */
  ghost predicate SingleWarm(t: seq<Slot>) {
    forall j, k :: 0 <= j < k < |t| && Warm(t[j]) && Warm(t[k]) ==> t[j].lpa != t[k].lpa
  }

  // The last saved entries are the last warm ones.
  lemma {:induction false} WarmOfLast(t: seq<Slot>)
    ensures forall x :: Last(WarmOf(t), x) <==> LastWarm(t, x)
  {
    if t != [] {
      var n := |t| - 1;
      var s, y, w := t[..n], t[n], WarmOf(t[..n]);
      WarmOfLast(s);
      forall x ensures Last(WarmOf(t), x) <==> LastWarm(t, x) {
        LastWarmMore(s, y, x);
        assert t == s + [y];
        if Warm(y) { LastMore(w, y, x); }
      }
    }
  }

  lemma LastMore(s: seq<Slot>, y: Slot, x: Slot)
    ensures Last(s + [y], x) <==> x == y || (Last(s, x) && x.lpa != y.lpa)
  {
    var s' := s + [y];
    if x == y {
      assert s'[|s|] == x && LpaEnds(s', |s|);
    } else {
      if Last(s', x) {
        var i :| 0 <= i < |s'| && s'[i] == x && LpaEnds(s', i);
        assert s'[|s|].lpa != x.lpa;
        forall j | i < j < |s| ensures s[j].lpa != s[i].lpa { assert s'[j] == s[j]; }
        assert s[i] == x && LpaEnds(s, i);
      }
      if Last(s, x) && x.lpa != y.lpa {
        var i :| 0 <= i < |s| && s[i] == x && LpaEnds(s, i);
        assert s'[i] == x && LpaEnds(s', i);
      }
    }
  }

  lemma LastWarmMore(s: seq<Slot>, y: Slot, x: Slot)
    ensures LastWarm(s + [y], x) <==> (x == y && Warm(y)) || (LastWarm(s, x) && !(Warm(y) && x.lpa == y.lpa))
  {
    var s' := s + [y];
    if x == y && Warm(y) {
      assert s'[|s|] == x && WarmEnds(s', |s|);
    } else {
      if LastWarm(s', x) {
        var i :| 0 <= i < |s'| && s'[i] == x && Warm(x) && WarmEnds(s', i);
        assert Warm(s'[|s|]) ==> s'[|s|].lpa != x.lpa;
        forall j | i < j < |s| && Warm(s[j]) ensures s[j].lpa != s[i].lpa { assert s'[j] == s[j]; }
        assert s[i] == x && WarmEnds(s, i);
      }
      if LastWarm(s, x) && !(Warm(y) && x.lpa == y.lpa) {
        var i :| 0 <= i < |s| && s[i] == x && Warm(x) && WarmEnds(s, i);
        assert s'[i] == x && WarmEnds(s', i);
      }
    }
  }

  // Saved entries are single exactly if the warm ones were.
  lemma {:induction false} WarmOfSingles(t: seq<Slot>)
    ensures Singles(WarmOf(t)) <==> SingleWarm(t)
  {
    if t != [] {
      var n := |t| - 1;
      var s, y, w := t[..n], t[n], WarmOf(t[..n]);
      WarmOfSingles(s);
      WarmOfAre(s);
      assert t == s + [y];
      SingleWarmMore(s, y);
      if Warm(y) {
        SinglesMore(w, y);
        if i :| 0 <= i < |w| && w[i].lpa == y.lpa { assert w[i] in w; }
        if k :| 0 <= k < n && Warm(s[k]) && s[k].lpa == y.lpa {
          assert s[k] in w;
        }
      }
    }
  }

  lemma SingleWarmMore(s: seq<Slot>, y: Slot)
    ensures SingleWarm(s + [y]) <==>
            SingleWarm(s) && forall k :: 0 <= k < |s| && Warm(s[k]) && Warm(y) ==> s[k].lpa != y.lpa
  {
    var s' := s + [y];
    if SingleWarm(s') {
      forall j, k | 0 <= j < k < |s| && Warm(s[j]) && Warm(s[k]) ensures s[j].lpa != s[k].lpa {
        assert s'[j].lpa != s'[k].lpa;
      }
      forall k | 0 <= k < |s| && Warm(s[k]) && Warm(y) ensures s[k].lpa != y.lpa { assert s'[k].lpa != s'[|s|].lpa; }
    }
  }

  // With every entry there once, the last warm entries are the warm entries.
  lemma DistinctWarm(t: seq<Slot>)
    requires Distinct(t)
    ensures SingleWarm(t) && forall x :: LastWarm(t, x) <==> x in t && Warm(x)
  {
    forall x | x in t && Warm(x) ensures LastWarm(t, x) {
      var k :| 0 <= k < |t| && t[k] == x;
      assert WarmEnds(t, k);
    }
  }

  // Vacant slots behind do not matter.
  lemma WarmInFront(t: seq<Slot>, n: nat)
    requires n <= |t| && forall k :: n <= k < |t| ==> t[k] == VACANT
    ensures SingleWarm(t[..n]) <==> SingleWarm(t)
    ensures forall x :: LastWarm(t[..n], x) <==> LastWarm(t, x)
  {
    var s := t[..n];
    if SingleWarm(s) {
      forall j, k | 0 <= j < k < |t| && Warm(t[j]) && Warm(t[k]) ensures t[j].lpa != t[k].lpa {
        assert s[j].lpa != s[k].lpa;
      }
    }
    if SingleWarm(t) {
      forall j, k | 0 <= j < k < n && Warm(s[j]) && Warm(s[k]) ensures s[j].lpa != s[k].lpa {
        assert t[j].lpa != t[k].lpa;
      }
    }
    forall x ensures LastWarm(s, x) <==> LastWarm(t, x) {
      if LastWarm(s, x) {
        var k :| 0 <= k < n && s[k] == x && Warm(x) && WarmEnds(s, k);
        forall m | k < m < |t| && Warm(t[m]) ensures t[m].lpa != t[k].lpa { assert s[m] == t[m]; }
        assert t[k] == x && WarmEnds(t, k);
      }
      if LastWarm(t, x) {
        var k :| 0 <= k < |t| && t[k] == x && Warm(x) && WarmEnds(t, k);
        forall m | k < m < n && Warm(s[m]) ensures s[m].lpa != s[k].lpa { assert t[m] == s[m]; }
        assert s[k] == x && WarmEnds(s, k);
      }
    }
  }

  lemma {:induction false} WarmOfInFront(t: seq<Slot>, n: nat)
    requires n <= |t| && forall k :: n <= k < |t| ==> t[k] == VACANT
    ensures WarmOf(t[..n]) == WarmOf(t)
  {
    if n == |t| {
      assert t[..n] == t;
    } else {
      WarmOfInFront(t[..|t| - 1], n);
      assert t[..|t| - 1][..n] == t[..n];
    }
  }

  // An entry of that lpa can only be in the slot taken for it.
  lemma OwnIsFirst(t: seq<Slot>, pages: nat, lpa: nat, k: nat)
    requires 0 < pages && pages * EPP <= |t| && lpa != NIL && FirstFit(t, pages) && FirstFree(t, pages, lpa, k)
    ensures k < pages * EPP && !Foreign(t[k], lpa)
    ensures forall m :: 0 <= m < |t| && m != k ==> t[m].lpa != lpa
  {
    hide FirstAt;
    forall m | 0 <= m < |t| && t[m].lpa == lpa ensures m == k { FirstFreeIsOne(t, pages, lpa, m, k); }
    var i: nat :| FirstAt(t, pages, lpa, k, i);
    FirstAtFacts(t, pages, lpa, k, i);
  }

  lemma FirstAtFacts(t: seq<Slot>, pages: nat, lpa: nat, k: nat, i: nat)
    requires 0 < pages && pages * EPP <= |t| && FirstAt(t, pages, lpa, k, i)
    ensures k < pages * EPP && !Foreign(t[k], lpa)
  {
  }

  lemma WarmStates(t: seq<Slot>, pages: nat)
    requires OriginOk(t, pages)
    ensures forall x :: x in t[..pages * EPP] ==> x.state < STATE_NUM
    ensures |WarmOf(t[..pages * EPP])| <= pages * EPP
  {
  }

  lemma CountedIsOk(t: seq<Slot>, hist: seq<nat>, valid: nat, pages: nat)
    requires Counts(t, hist, valid) && pages * EPP <= |t|
    ensures OriginOk(t, pages)
  {
  }

  lemma CountOfEntries(t: seq<Slot>, hist: seq<nat>, valid: nat)
    requires Counts(t, hist, valid)
    ensures Sum(t, Entries) == valid
  {
  }

  // ----- entries beyond their probes -----

  // A lookup of `lpa` finds an entry.
  ghost predicate Reached(t: seq<Slot>, pages: nat, lpa: nat)
    requires 0 < pages && pages * EPP <= |t|
  {
    exists j: nat :: j < MAX_PROBE && t[ChainSlot(lpa, pages, j)].lpa == lpa
  }

  lemma {:induction false} SameChain(a: nat, b: nat, pages: nat, j: nat)
    requires pages > 0 && Home(a, pages) == Home(b, pages)
    ensures Probe(a, pages, j) == Probe(b, pages, j)
  {
    if j > 0 { SameChain(a, b, pages, j - 1); }
  }

  ghost predicate OneHome(s: seq<nat>, pages: nat)
    requires pages > 0
  {
    && (forall i, j :: 0 <= i < j < |s| ==> s[i] != s[j])
    && forall i, j :: 0 <= i < j < |s| ==> Home(s[i], pages) == Home(s[j], pages)
  }

  // The steps at which the lpas are found.
  lemma {:induction false} Steps(t: seq<Slot>, pages: nat, s: seq<nat>) returns (js: seq<nat>)
    requires 0 < pages && pages * EPP <= |t| && forall i :: 0 <= i < |s| ==> Reached(t, pages, s[i])
    ensures |js| == |s|
    ensures forall i :: 0 <= i < |s| ==> js[i] < MAX_PROBE && t[ChainSlot(s[i], pages, js[i])].lpa == s[i]
  {
    hide ChainSlot;
    js := [];
    if s != [] {
      var n := |s| - 1;
      js := Steps(t, pages, s[..n]);
      var j: nat :| j < MAX_PROBE && t[ChainSlot(s[n], pages, j)].lpa == s[n];
      js := js + [j];
    }
  }

  /** Of more than fifty lpas with one home some lookup fails, whatever the table holds. */
  lemma Crowded(t: seq<Slot>, pages: nat, s: seq<nat>)
    requires 0 < pages && pages * EPP <= |t| && OneHome(s, pages) && |s| > MAX_PROBE
    ensures exists i :: 0 <= i < |s| && !Reached(t, pages, s[i])
  {
    hide Home, Probe, Reached;
    if forall i :: 0 <= i < |s| ==> Reached(t, pages, s[i]) {
      var js := Steps(t, pages, s);
      forall i, k | 0 <= i < k < |js| ensures js[i] != js[k] { SameChain(s[i], s[k], pages, js[i]); }
      Counting.Pigeonhole(js, MAX_PROBE);
    }
  }

  ghost predicate HasLpa(t: seq<Slot>, lpa: nat) { exists k :: 0 <= k < |t| && t[k].lpa == lpa }

  lemma MissedIsOff(t: seq<Slot>, pages: nat, lpa: nat)
    requires 0 < pages && pages * EPP <= |t| && HasLpa(t, lpa) && !Reached(t, pages, lpa) && lpa != NIL
    ensures !AllOnChain(t, pages)
  {
    hide ChainSlot;
    var k :| 0 <= k < |t| && t[k].lpa == lpa;
    assert AllOnChain(t, pages) ==> OnOwnChain(t, pages, k);
  }

  /** So a table with entries for all of them has one beyond its fifty probes. */
  lemma CrowdedOffChain(t: seq<Slot>, pages: nat, s: seq<nat>)
    requires 0 < pages && pages * EPP <= |t| && OneHome(s, pages) && |s| > MAX_PROBE
    requires forall i :: 0 <= i < |s| ==> s[i] != NIL && HasLpa(t, s[i])
    ensures !AllOnChain(t, pages)
  {
    hide ChainSlot, OneHome, Reached, AllOnChain, HasLpa;
    Crowded(t, pages, s);
    var i :| 0 <= i < |s| && !Reached(t, pages, s[i]);
    MissedIsOff(t, pages, s[i]);
  }

  // Lpas with one home in a table of `chunk` more pages.
  function Crowd(pages: nat, chunk: nat, i: nat): nat { (pages + chunk) * EPP * i }

  // The page of their homes in a table of `pages` pages.
  function HomePage(pages: nat, chunk: nat, i: nat): (d: nat)
    requires pages > 0
    ensures d < pages
  {
    i * chunk % pages
  }

  /** Fifty-one steps of `chunk` pages through a table of `pages` pages, round and round, never come to a page
      twice. */
  ghost predicate Spread(pages: nat, chunk: nat)
    requires pages > 0
  {
    forall d: nat :: 0 < d <= MAX_PROBE ==> HomePage(pages, chunk, d) != 0
  }

  /** So it is for the hot pages and the chunk of the configured store, whose mapping table of 699050 pages has
      all slots of the crowd. */
  lemma ConfiguredSpread()
    ensures Spread(3277, 642) && forall i :: 0 <= i <= MAX_PROBE ==> Crowd(3277, 642, i) < 699050 * EPP
  {
    forall d: nat | 0 < d <= MAX_PROBE ensures HomePage(3277, 642, d) != 0 {
      // 642 times 2690 is 1 more than 527 times 3277.
      var q := d * 642 / 3277;
      assert d * 642 == 3277 * q ==> d == 3277 * (2690 * q - 527 * d);
    }
  }

  lemma CrowdHomes(pages: nat, chunk: nat, i: nat)
    requires pages > 0
    ensures Home(Crowd(pages, chunk, i), pages) == (HomePage(pages, chunk, i), 0)
    ensures Home(Crowd(pages, chunk, i), pages + chunk) == (0, 0)
    ensures Crowd(pages, chunk, i) != NIL
    ensures ChainSlot(Crowd(pages, chunk, i), pages, 0) == HomePage(pages, chunk, i) * EPP
  {
    var lpa, d, q := Crowd(pages, chunk, i), HomePage(pages, chunk, i), i * chunk / pages;
    CrowdSplit(pages, chunk, i, q, d);
    Remainder(lpa, pages * EPP, i + q, d * EPP);
    Remainder(lpa, (pages + chunk) * EPP, i, 0);
    CrowdEven(pages, chunk, i);
  }

  lemma CrowdSplit(pages: nat, chunk: nat, i: nat, q: nat, d: nat)
    requires i * chunk == pages * q + d && d < pages
    ensures Crowd(pages, chunk, i) == pages * EPP * (i + q) + d * EPP && d * EPP < pages * EPP
  {
    assert Crowd(pages, chunk, i) == pages * EPP * i + i * chunk * EPP;
    assert i * chunk * EPP == pages * q * EPP + d * EPP;
  }

  lemma CrowdEven(pages: nat, chunk: nat, i: nat)
    ensures Crowd(pages, chunk, i) % 2 == 0 && Crowd(pages, chunk, i) != NIL
  {
    assert Crowd(pages, chunk, i) == 2 * (EPP / 2 * ((pages + chunk) * i));
  }

  lemma CrowdApart(pages: nat, chunk: nat, i: nat, j: nat)
    requires i < j && pages > 0
    ensures Crowd(pages, chunk, i) < Crowd(pages, chunk, j)
  {
    assert (pages + chunk) * EPP * i < (pages + chunk) * EPP * j;
  }

  lemma SameRemainder(a: nat, b: nat, m: nat)
    requires m > 0 && a <= b && a % m == b % m
    ensures (b - a) % m == 0
  {
    var q := b / m - a / m;
    assert a == m * (a / m) + a % m && b == m * (b / m) + b % m;
    assert b - a == m * q;
    assert q < 0 ==> m * q + m <= 0;
    Remainder(b - a, m, q, 0);
  }

  lemma HomesApart(pages: nat, chunk: nat, i: nat, j: nat)
    requires pages > 0 && i < j <= i + MAX_PROBE && Spread(pages, chunk)
    ensures HomePage(pages, chunk, i) != HomePage(pages, chunk, j)
  {
    assert HomePage(pages, chunk, j - i) != 0;
    assert (j - i) * chunk == j * chunk - i * chunk;
    if i * chunk % pages == j * chunk % pages { SameRemainder(i * chunk, j * chunk, pages); }
  }

  // The first `n` lpas, each in its home.
  ghost predicate CrowdIn(t: seq<Slot>, pages: nat, chunk: nat, n: nat)
    requires 0 < pages && pages * EPP <= |t|
  {
    && (forall k :: 0 <= k < |t| && Taken(t[k]) ==> exists i :: 0 <= i < n && k == HomePage(pages, chunk, i) * EPP)
    && forall i :: 0 <= i < n ==> IsCrowd(t[HomePage(pages, chunk, i) * EPP], pages, chunk, i)
  }

  predicate IsCrowd(x: Slot, pages: nat, chunk: nat, i: nat) {
    x.lpa == Crowd(pages, chunk, i) && x.state == HOT_STATE_MAX
  }

  // A new lpa with a vacant home goes there.
  lemma HomeIsChosen(t: seq<Slot>, pages: nat, lpa: nat, k: nat)
    requires 0 < pages && pages * EPP <= |t| && Chosen(t, pages, lpa, k) && !HasLpa(t, lpa)
    requires !Taken(t[ChainSlot(lpa, pages, 0)])
    ensures k == ChainSlot(lpa, pages, 0)
  {
    hide ChainSlot;
  }

  lemma CrowdVacant(t: seq<Slot>, pages: nat, chunk: nat, i: nat)
    requires 0 < pages && pages * EPP <= |t| && CrowdIn(t, pages, chunk, i) && i <= MAX_PROBE && Spread(pages, chunk)
    ensures !Taken(t[ChainSlot(Crowd(pages, chunk, i), pages, 0)]) && !HasLpa(t, Crowd(pages, chunk, i))
    ensures !Blocked(t, pages, Crowd(pages, chunk, i), HOT_STATE_MAX)
  {
    hide ChainSlot, Crowd, Home, HomePage, Spread;
    var lpa := Crowd(pages, chunk, i);
    CrowdHomes(pages, chunk, i);
    forall k | 0 <= k < |t| && Taken(t[k]) ensures t[k].lpa != lpa && k != HomePage(pages, chunk, i) * EPP {
      var m :| 0 <= m < i && k == HomePage(pages, chunk, m) * EPP;
      assert IsCrowd(t[k], pages, chunk, m);
      CrowdApart(pages, chunk, m, i);
      HomesApart(pages, chunk, m, i);
    }
    assert !Taken(t[ChainSlot(lpa, pages, 0)]);
  }

  lemma CrowdMore(t: seq<Slot>, pages: nat, chunk: nat, i: nat, x: Slot)
    requires 0 < pages && pages * EPP <= |t| && CrowdIn(t, pages, chunk, i) && i <= MAX_PROBE && Spread(pages, chunk)
    requires IsCrowd(x, pages, chunk, i)
    ensures CrowdIn(t[HomePage(pages, chunk, i) * EPP := x], pages, chunk, i + 1)
  {
    hide Crowd, HomePage, Spread, IsCrowd;
    var k0 := HomePage(pages, chunk, i) * EPP;
    var t' := t[k0 := x];
    forall m | 0 <= m < i + 1 ensures IsCrowd(t'[HomePage(pages, chunk, m) * EPP], pages, chunk, m) {
      if m < i { HomesApart(pages, chunk, m, i); }
    }
    forall k | 0 <= k < |t'| && Taken(t'[k])
      ensures exists m :: 0 <= m < i + 1 && k == HomePage(pages, chunk, m) * EPP
    {
      if k != k0 { var m :| 0 <= m < i && k == HomePage(pages, chunk, m) * EPP; }
    }
  }

  // Fifty-one lpas are promoted into an empty table of `pages` pages.
  method PromoteCrowd(t: Table, pages: nat, chunk: nat)
    requires t.Valid() && t.pages == pages && Spread(pages, chunk) && Distinct(t.table) && AllOnChain(t.table, pages)
    requires forall k :: 0 <= k < |t.table| ==> t.table[k] == VACANT
    modifies t`table, t`hist, t`valid, t`free
    ensures t.Valid() && Distinct(t.table) && AllOnChain(t.table, pages)
    ensures CrowdIn(t.table, pages, chunk, MAX_PROBE + 1)
  {
    hide Sum, Counts, Distinct, AllOnChain, Home, Probe, ChainSlot, Crowd, Chosen, CrowdIn, Blocked, HomePage, Spread;
    NoCrowd(t.table, pages, chunk);
    for i := 0 to MAX_PROBE + 1
      invariant t.Valid() && Distinct(t.table) && AllOnChain(t.table, pages) && CrowdIn(t.table, pages, chunk, i)
    {
      ghost var t0, lpa := t.table, Crowd(pages, chunk, i);
      CrowdHomes(pages, chunk, i);
      CrowdVacant(t0, pages, chunk, i);
      var ok := t.Promote(Crowd(pages, chunk, i), 0, 0, HOT_STATE_MAX);
      ghost var k: nat :| k < |t0| && Chosen(t0, pages, lpa, k)
        && t.table == t0[k := Promoted(t0[k], lpa, 0, 0, HOT_STATE_MAX)];
      HomeIsChosen(t0, pages, lpa, k);
      CrowdMore(t0, pages, chunk, i, Promoted(t0[k], lpa, 0, 0, HOT_STATE_MAX));
    }
  }

  lemma NoCrowd(t: seq<Slot>, pages: nat, chunk: nat)
    requires 0 < pages && pages * EPP <= |t| && forall k :: 0 <= k < |t| ==> t[k] == VACANT
    ensures CrowdIn(t, pages, chunk, 0)
  {
  }

  // The first of the fifty-one lpas that a lookup does not find.
  method FindMissed(t: Table, pages: nat, chunk: nat) returns (lpa: nat)
    requires t.Valid() && t.pages == pages + chunk && pages > 0 && HotCrowd(t.table, pages, chunk)
    modifies t`table, t`hist
    ensures t.Valid() && t.table == old(t.table) && lpa != NIL && !Reached(t.table, pages + chunk, lpa)
    ensures HasLpa(t.table, lpa)
  {
    hide Sum, Counts, Home, Probe, ChainSlot, Crowd, Reached;
    CrowdIsMissed(t.table, pages, chunk);
    for i := 0 to MAX_PROBE + 1
      invariant t.Valid() && t.table == old(t.table)
      invariant forall n :: 0 <= n < i ==> Reached(t.table, pages + chunk, Crowd(pages, chunk, n))
    {
      lpa := Crowd(pages, chunk, i);
      CrowdHomes(pages, chunk, i);
      var hit, k := t.IsHit(lpa);
      MissedMeans(old(t.table), pages + chunk, lpa, hit);
      if !hit { return; }
      assert Raised(old(t.table)[k]) == old(t.table)[k];
    }
    assert false;
  }

  lemma MissedMeans(t: seq<Slot>, pages: nat, lpa: nat, hit: bool)
    requires 0 < pages && pages * EPP <= |t|
    requires hit <==> exists j: nat :: j < MAX_PROBE && t[ChainSlot(lpa, pages, j)].lpa == lpa
    ensures hit <==> Reached(t, pages, lpa)
  {
  }

  // The table has an entry for each of the fifty-one lpas, and all its entries are as warm as can be.
  ghost predicate HotCrowd(t: seq<Slot>, pages: nat, chunk: nat) {
    && (forall i: nat :: i <= MAX_PROBE ==> HasLpa(t, Crowd(pages, chunk, i)))
    && forall k :: 0 <= k < |t| && Taken(t[k]) ==> t[k].state == HOT_STATE_MAX
  }

  lemma CrowdIsMissed(t: seq<Slot>, pages: nat, chunk: nat)
    requires pages > 0 && (pages + chunk) * EPP <= |t|
    ensures exists i: nat :: i <= MAX_PROBE && !Reached(t, pages + chunk, Crowd(pages, chunk, i))
  {
    hide Crowd, Home, Reached;
    var s := seq(MAX_PROBE + 1, i requires 0 <= i => Crowd(pages, chunk, i));
    forall i, j | 0 <= i < j < |s|
      ensures s[i] != s[j] && Home(s[i], pages + chunk) == Home(s[j], pages + chunk)
    {
      CrowdApart(pages, chunk, i, j);
      CrowdHomes(pages, chunk, i);
      CrowdHomes(pages, chunk, j);
    }
    Crowded(t, pages + chunk, s);
  }

  // A rehash that keeps the warm entries keeps the crowd.
  lemma CrowdStays(t: seq<Slot>, t': seq<Slot>, pages: nat, chunk: nat)
    requires pages > 0 && pages * EPP <= |t| && CrowdIn(t, pages, chunk, MAX_PROBE + 1)
    requires forall x :: Taken(x) ==> (x in t' <==> x in t && Warm(x))
    ensures HotCrowd(t', pages, chunk)
  {
    hide Crowd, HomePage;
    forall i: nat | i <= MAX_PROBE ensures HasLpa(t', Crowd(pages, chunk, i)) {
      CrowdHomes(pages, chunk, i);
      var x := t[HomePage(pages, chunk, i) * EPP];
      assert IsCrowd(x, pages, chunk, i);
      assert x in t && Warm(x);
      var k :| 0 <= k < |t'| && t'[k] == x;
    }
    forall k | 0 <= k < |t'| && Taken(t'[k]) ensures t'[k].state == HOT_STATE_MAX {
      assert t'[k] in t' && t'[k] in t;
      var m :| 0 <= m < |t| && t[m] == t'[k];
      var i :| 0 <= i < MAX_PROBE + 1 && m == HomePage(pages, chunk, i) * EPP;
      assert IsCrowd(t[m], pages, chunk, i);
    }
  }

  // Promoting an entry that no lookup finds puts a second one beside it.
  lemma Doubled(t: seq<Slot>, pages: nat, lpa: nat, k: nat, x: Slot)
    requires 0 < pages && pages * EPP <= |t| && Chosen(t, pages, lpa, k) && !Reached(t, pages, lpa) && HasLpa(t, lpa)
    requires lpa != NIL && x.lpa == lpa && x.state == HOT_STATE_MAX
    requires forall m :: 0 <= m < |t| && Taken(t[m]) ==> t[m].state == HOT_STATE_MAX
    ensures !Distinct(t[k := x]) && !SingleWarm(t[k := x])
  {
    hide ChainSlot;
    ChosenOnChain(t, pages, lpa, k);
    var m :| 0 <= m < |t| && t[m].lpa == lpa;
    var t' := t[k := x];
    assert m != k;
    assert t'[m].lpa == t'[k].lpa && Warm(t'[m]) && Warm(t'[k]);
  }

  // An entry of the crowd that no lookup finds is promoted.
  method PromoteMissed(t: Table, pages: nat, chunk: nat) returns (lpa: nat)
    requires t.Valid() && t.pages == pages + chunk && pages > 0 && HotCrowd(t.table, pages, chunk)
    modifies t`table, t`hist, t`valid, t`free
    ensures t.Valid() && HasLpa(old(t.table), lpa) && !Reached(old(t.table), pages + chunk, lpa)
    ensures !AllOnChain(old(t.table), pages + chunk) && !Distinct(t.table) && !SingleWarm(t.table)
  {
    hide Sum, Home, Probe, ChainSlot, Crowd, Reached, Distinct, AllOnChain, HotCrowd, Chosen, SingleWarm, HasLpa;
    lpa := FindMissed(t, pages, chunk);
    ghost var missed := t.table;
    MissedIsOff(missed, pages + chunk, lpa);
    StillHot(missed, pages, chunk);
    NeverBlocked(missed, pages + chunk, lpa);
    var ok := t.Promote(lpa, 0, 0, HOT_STATE_MAX);
    ghost var k: nat :| k < |missed| && Chosen(missed, pages + chunk, lpa, k)
      && t.table == missed[k := Promoted(missed[k], lpa, 0, 0, HOT_STATE_MAX)];
    Doubled(missed, pages + chunk, lpa, k, Promoted(missed[k], lpa, 0, 0, HOT_STATE_MAX));
  }

  /** A run that doubles an entry, for any size of the table and of the chunk it grows by over which
      fifty-one steps are spread.  Fifty-one entries are promoted, each into its home; the table grows by a
      chunk and all get one home, so a lookup misses one that is there; promoting it makes a second entry; and
      after the table has grown once more the count of its entries is wrong. */
  method RehashDoubles(pages: nat, chunk: nat, minCold: nat, budget: nat)
    returns (t: Table, ghost missed: seq<Slot>, lpa: nat, ghost doubled: seq<Slot>)
    requires pages > 0 && Spread(pages, chunk)
    ensures (pages + chunk) * EPP <= |missed| && HasLpa(missed, lpa) && !Reached(missed, pages + chunk, lpa)
    ensures Distinct(missed) && !AllOnChain(missed, pages + chunk) && !Distinct(doubled)
    ensures t.Valid() && t.pages == pages + 2 * chunk && t.valid > Sum(t.table, Entries)
  {
    hide Sum, Home, Probe, ChainSlot, Crowd, Reached, Distinct, AllOnChain, CrowdIn, HotCrowd, Chosen, LastWarm,
         SingleWarm, WarmOf, HasLpa, Spread;
    t := new Table(pages + 2 * chunk, pages, minCold + 2 * chunk, budget);
    PromoteCrowd(t, pages, chunk);
    ghost var t0 := t.table;
    SomeChunk(pages, chunk);
    var ok := t.Expand(chunk, minCold);
    CrowdStays(t0, t.table, pages, chunk);
    missed := t.table;
    lpa := PromoteMissed(t, pages, chunk);
    doubled := t.table;
    ok := t.Expand(chunk, minCold);
    CountOfEntries(t.table, t.hist, t.valid - t.extra);
  }

  lemma SomeChunk(pages: nat, chunk: nat)
    requires pages > 0 && Spread(pages, chunk)
    ensures chunk > 0
  {
    assert HomePage(pages, chunk, 1) != 0;
  }

  lemma StillHot(t: seq<Slot>, pages: nat, chunk: nat)
    requires HotCrowd(t, pages, chunk)
    ensures forall m :: 0 <= m < |t| && Taken(t[m]) ==> t[m].state == HOT_STATE_MAX
  {
  }

  lemma NeverBlocked(t: seq<Slot>, pages: nat, lpa: nat)
    requires 0 < pages && pages * EPP <= |t|
    requires forall m :: 0 <= m < |t| && Taken(t[m]) ==> t[m].state == HOT_STATE_MAX
    ensures !Blocked(t, pages, lpa, HOT_STATE_MAX)
  {
    hide ChainSlot;
    var x := t[ChainSlot(lpa, pages, 0)];
  }
}
