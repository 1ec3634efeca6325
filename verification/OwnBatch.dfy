/**
 A run in which garbage collection takes the items of the batch it interrupts.  On a device of three
 data superblocks full write buffers are stored until a buffer finds fewer pages left than it needs; the
 superblock its first items have just filled is then the one with the fewest valid grains.
 */
module OwnBatch {
  import opened Common
  import opened Counting
  import opened BlockManager
  import opened TransPages
  import opened Packing
  import opened Items
  import opened DataGc
  import opened Keys
  import opened ProbeTable

  // Entries of a write buffer, which is flushed when it is full.
  const MAX_WRITE_BUF: nat := 256

  // Keys, two buffers of them, whose first slots are those of a table of one page in order.
  ghost predicate OwnSlots(h: Hashing, ks: seq<Key>) {
    |ks| == EPP && forall i :: 0 <= i < |ks| ==> Slot(h, ks[i], 0, EPP) == i
  }

  function KeysOf(ks: seq<Key>, a: nat): (keys: seq<Key>)
    requires (a + 1) * MAX_WRITE_BUF <= |ks|
    ensures |keys| == MAX_WRITE_BUF && forall i :: 0 <= i < |keys| ==> keys[i] == ks[a * MAX_WRITE_BUF + i]
  {
    ks[a * MAX_WRITE_BUF..(a + 1) * MAX_WRITE_BUF]
  }

  // Every mapped slot stores the key whose first slot it is.
  ghost predicate AtHome(t: seq<Pte>, rk: seq<Key>, ks: seq<Key>) {
    |t| == |rk| == |ks| == EPP && forall l :: 0 <= l < |t| && t[l].ppa != NIL ==> rk[l] == ks[l]
  }

  // The keys of buffer `a` are stored, as items of `len` grains on the pages `[lo, hi)`.
  ghost predicate BufferOn(t: seq<Pte>, oob: seq<Oob>, a: nat, len: nat, lo: int, hi: int) {
    forall l :: a * MAX_WRITE_BUF <= l < (a + 1) * MAX_WRITE_BUF ==> ItemOn(t, oob, l, len, lo, hi)
  }

  // Slot `l` maps an item of `len` grains on these pages.
  ghost predicate ItemOn(t: seq<Pte>, oob: seq<Oob>, l: int, len: nat, lo: int, hi: int) {
    && 0 <= l < |t| && t[l].ppa < |oob| && t[l].ppa != NIL
    && lo * PAGE <= t[l].ppa < hi * PAGE && oob[t[l].ppa].length == len
  }

  lemma SameItemsOn(t: seq<Pte>, oob0: seq<Oob>, oob: seq<Oob>, a: nat, len: nat, lo: int, hi: int)
    requires BufferOn(t, oob0, a, len, lo, hi) && SameMeaning(t, oob, t, oob0)
    ensures BufferOn(t, oob, a, len, lo, hi)
  {
    forall l | a * MAX_WRITE_BUF <= l < (a + 1) * MAX_WRITE_BUF ensures ItemOn(t, oob, l, len, lo, hi) {
      assert ItemOn(t, oob0, l, len, lo, hi);
      assert SameSlot(t[l], oob, t[l], oob0);
    }
  }

  // Between two flushes of the run.
  ghost predicate Ready(kv: KvStore, ks: seq<Key>)
    reads kv, kv.store, kv.store.bm, kv.store.cache, kv.store.cache.bm
  {
    && kv.Inv() && kv.store.placed == {} && kv.store.cache.Roomy() && kv.store.bm.n == 3
    && kv.capacity == 2 && |kv.store.cache.tppa| == 1
    && OwnSlots(kv.h, ks) && AtHome(kv.store.cache.table, kv.realKeys, ks)
  }

  // ----- one flush -----

  lemma PagesOfBuffer(lens: seq<nat>, len: nat)
    requires |lens| == MAX_WRITE_BUF && (len == 1 || len == 4) && forall i :: 0 <= i < |lens| ==> lens[i] == len
    ensures NeededOf(BatchItems(lens)) == 64 * len
  {
    var s := BatchItems(lens);
    NumAll(s, len, 1);
    NumAll(s, len, 2);
    NumAll(s, len, 3);
    NumAll(s, len, 4);
  }

  lemma DistinctKeys(h: Hashing, ks: seq<Key>)
    requires OwnSlots(h, ks)
    ensures forall i, j :: 0 <= i < j < |ks| ==> ks[i] != ks[j]
  {
    forall i, j | 0 <= i < j < |ks| ensures ks[i] != ks[j] {
      assert Slot(h, ks[i], 0, EPP) != Slot(h, ks[j], 0, EPP);
    }
  }

  // The first `i` entries of buffer `a` are stored, each in its first slot; nothing else has changed.
  ghost predicate Mapped(t0: seq<Pte>, t: seq<Pte>, a: nat, es: seq<Entry>, i: nat) {
    && |t| == |t0|
    && forall l :: 0 <= l < |t| ==>
         if a * MAX_WRITE_BUF <= l < a * MAX_WRITE_BUF + i && l - a * MAX_WRITE_BUF < |es|
         then t[l].ppa == es[l - a * MAX_WRITE_BUF].ppa
         else t[l] == t0[l]
  }

  // Buffer `a` in the middle of its mapping, `i` entries stored.
  ghost predicate HalfMapped(kv: KvStore, ks: seq<Key>, t0: seq<Pte>, oob0: seq<Oob>, a: nat, es: seq<Entry>,
                             pr: seq<Progress>, i: nat)
    reads kv, kv.store, kv.store.bm, kv.store.cache, kv.store.cache.bm
  {
    && kv.Running(es, pr) && |pr| == |es| == MAX_WRITE_BUF && a < 2 && OwnSlots(kv.h, ks)
    && (forall j :: 0 <= j < |es| ==> pr[j] == Progress(0, Fresh, j < i) && es[j].key == ks[a * MAX_WRITE_BUF + j])
    && AtHome(kv.store.cache.table, kv.realKeys, ks) && Mapped(t0, kv.store.cache.table, a, es, i)
    && SameLengths(oob0, kv.store.bm.oob) && |kv.store.cache.tppa| == 1 && kv.store.cache.resident == [true]
  }

  // An entry finds its first slot empty or its own.
  method MapNext(kv: KvStore, ks: seq<Key>, ghost t0: seq<Pte>, ghost oob0: seq<Oob>, a: nat, es: seq<Entry>,
                 pr: seq<Progress>, i: nat)
    returns (pr': seq<Progress>)
    requires HalfMapped(kv, ks, t0, oob0, a, es, pr, i) && i < MAX_WRITE_BUF
    modifies kv, kv.store`starts, kv.store`placed, kv.store.bm`valid, kv.store.bm`validCnt, kv.store.bm`oob
    modifies kv.store.cache`tppa, kv.store.cache`dirty, kv.store.cache`table, kv.store.cache.bm`valid,
             kv.store.cache.bm`validCnt
    ensures HalfMapped(kv, ks, t0, oob0, a, es, pr', i + 1)
    ensures old(kv.store.cache.Roomy()) ==> kv.store.cache.Roomy()
  {
    hide LiveOk, OwnedOk, CountsOk, BelowPointers, MapOk, AllocOk, TableOk, BackedBy, AllProgressOk, WrittenOk, BatchOk,
         Slot, NoTarget, WaitOnHand, AnchoredBy;
    pr' := kv.Finish(es, pr, i, 0);
  }

  method MapBuffer(kv: KvStore, ks: seq<Key>, a: nat, es: seq<Entry>, pr0: seq<Progress>)
    requires HalfMapped(kv, ks, kv.store.cache.table, kv.store.bm.oob, a, es, pr0, 0)
    modifies kv, kv.store`starts, kv.store`placed, kv.store.bm`valid, kv.store.bm`validCnt, kv.store.bm`oob
    modifies kv.store.cache`tppa, kv.store.cache`dirty, kv.store.cache`table, kv.store.cache.bm`valid,
             kv.store.cache.bm`validCnt
    ensures kv.Inv() && kv.store.placed == {} && AtHome(kv.store.cache.table, kv.realKeys, ks)
    ensures Mapped(old(kv.store.cache.table), kv.store.cache.table, a, es, MAX_WRITE_BUF)
    ensures SameLengths(old(kv.store.bm.oob), kv.store.bm.oob) && |kv.store.cache.tppa| == 1
    ensures old(kv.store.cache.Roomy()) ==> kv.store.cache.Roomy()
  {
    hide LiveOk, OwnedOk, CountsOk, BelowPointers, MapOk, AllocOk, TableOk, BackedBy, AllProgressOk, WrittenOk, BatchOk,
         NoTarget, WaitOnHand, AnchoredBy, OwnSlots, AtHome, Mapped, SameLengths;
    var pr := pr0;
    for i := 0 to MAX_WRITE_BUF
      invariant HalfMapped(kv, ks, old(kv.store.cache.table), old(kv.store.bm.oob), a, es, pr, i)
      invariant old(kv.store.cache.Roomy()) ==> kv.store.cache.Roomy()
    {
      pr := MapNext(kv, ks, old(kv.store.cache.table), old(kv.store.bm.oob), a, es, pr, i);
    }
    BatchEnds(kv.h, kv.store.cache.table, kv.realKeys, es, pr);
  }

  // The mapped buffer lies where its items were placed, the other one where it was.
  lemma BufferMapped(t0: seq<Pte>, t: seq<Pte>, oob0: seq<Oob>, oob: seq<Oob>, placed: set<nat>, keys: seq<Key>,
                     lens: seq<nat>, a: nat, es: seq<Entry>, len: nat, lo: int, hi: int)
    requires Mapped(t0, t, a, es, MAX_WRITE_BUF) && SameLengths(oob0, oob) && |t| == EPP && a < 2 && |oob0| <= NIL
    requires |es| == |keys| == |lens| == MAX_WRITE_BUF && forall i :: 0 <= i < |lens| ==> lens[i] == len
    requires forall i :: 0 <= i < |es| ==> EntryIs(oob0, keys, lens, es, i)
    requires placed == (set e | e in es :: e.ppa) && NewOn({}, placed, lo, hi)
    ensures BufferOn(t, oob, a, len, lo, hi)
  {
    forall l | a * MAX_WRITE_BUF <= l < (a + 1) * MAX_WRITE_BUF ensures ItemOn(t, oob, l, len, lo, hi) {
      var i := l - a * MAX_WRITE_BUF;
      assert EntryIs(oob0, keys, lens, es, i);
      assert es[i] in es;
      assert es[i].ppa in placed;
    }
  }

  lemma OtherStays(t0: seq<Pte>, t: seq<Pte>, oob0: seq<Oob>, oob: seq<Oob>, a: nat, b: nat, es: seq<Entry>,
                   len: nat, lo: int, hi: int)
    requires Mapped(t0, t, a, es, MAX_WRITE_BUF) && SameLengths(oob0, oob) && a < 2 && b < 2 && b != a
    requires BufferOn(t0, oob0, b, len, lo, hi)
    ensures BufferOn(t, oob, b, len, lo, hi)
  {
    forall l | b * MAX_WRITE_BUF <= l < (b + 1) * MAX_WRITE_BUF ensures ItemOn(t, oob, l, len, lo, hi) {
      assert ItemOn(t0, oob0, l, len, lo, hi);
    }
  }

  // The entries of buffer `a` get their places.
  method PlaceBuffer(kv: KvStore, ks: seq<Key>, a: nat, lens: seq<nat>, ghost len: nat) returns (es: seq<Entry>)
    requires Ready(kv, ks) && a < 2 && (len == 1 || len == 4)
    requires |lens| == MAX_WRITE_BUF && forall i :: 0 <= i < |lens| ==> lens[i] == len
    requires 64 * len <= kv.store.ActiveRoom() && 64 * len <= kv.store.FreePages()
    modifies kv.store, kv.store.bm, kv.store.cache, kv.store.cache.bm
    ensures kv.Inv() && BatchOk(es) && |es| == MAX_WRITE_BUF
    ensures unchanged(kv.store.cache) && unchanged(kv.store.cache.bm)
    ensures kv.store.FreePages() == old(kv.store.FreePages()) - 64 * len && kv.store.placed == set e | e in es :: e.ppa
    ensures TakenFrom(old(kv.store.bm.wp), old(kv.store.dActive), kv.store.bm.wp, kv.store.dActive, 64 * len)
    ensures NewOn({}, kv.store.placed, kv.store.dActive * PPS + old(kv.store.bm.wp)[kv.store.dActive],
                  kv.store.dActive * PPS + kv.store.bm.wp[kv.store.dActive])
    ensures forall i :: 0 <= i < |es| ==> EntryIs(kv.store.bm.oob, KeysOf(ks, a), lens, es, i)
    ensures SameMeaning(kv.store.cache.table, kv.store.bm.oob, kv.store.cache.table, old(kv.store.bm.oob))
  {
    hide LiveOk, OwnedOk, CountsOk, BelowPointers, MapOk, AllocOk, TableOk, BackedBy, BatchOk, SameMeaning,
         IsBatchPlace, NoTarget, Clear, NeededOf, Slot, AnchoredBy, AtHome, TakenFrom, NewOn;
    DistinctKeys(kv.h, ks);
    PagesOfBuffer(lens, len);
    kv.InvFacts();
    var r := kv.store.PlaceBatch(lens);
    MeaningKeepsTable(kv.h, old(kv.store.cache.table), old(kv.store.bm.oob), kv.store.cache.table, kv.store.bm.oob,
                      kv.realKeys, kv.maxTry);
    es := kv.EntriesOf(KeysOf(ks, a), lens, r.nodes);
  }

  // Its mapping starts: the page of the table is brought into memory.
  method OpenBuffer(kv: KvStore, ks: seq<Key>, a: nat, lens: seq<nat>, es: seq<Entry>) returns (pr: seq<Progress>)
    requires kv.Inv() && BatchOk(es) && |es| == |lens| == MAX_WRITE_BUF && a < 2 && OwnSlots(kv.h, ks)
    requires kv.capacity == 2 && |kv.store.cache.tppa| == 1 && kv.store.cache.Roomy()
    requires AtHome(kv.store.cache.table, kv.realKeys, ks) && kv.store.placed == set e | e in es :: e.ppa
    requires forall i :: 0 <= i < |es| ==> EntryIs(kv.store.bm.oob, KeysOf(ks, a), lens, es, i)
    modifies kv`written, kv`bare, kv.store.cache`tppa, kv.store.cache`dirty, kv.store.cache`resident
    modifies kv.store.cache`tActive, kv.store.cache`tReserve, kv.store.cache.bm
    ensures HalfMapped(kv, ks, kv.store.cache.table, kv.store.bm.oob, a, es, pr, 0) && kv.store.cache.Roomy()
  {
    hide LiveOk, OwnedOk, CountsOk, BelowPointers, MapOk, AllocOk, TableOk, BackedBy, AllProgressOk, WrittenOk, BatchOk,
         NoTarget, Slot, AnchoredBy, AtHome;
    pr := seq(|es|, _ => Progress(0, Fresh, false));
    kv.written := seq(HT, _ => []);
    kv.InvFacts();
    if !kv.store.cache.resident[0] {
      var ok, wrote := kv.BringInFor(0, -1);
    }
    kv.InvFacts();
    WaitStarts(kv.h, es, pr, |kv.realKeys|, kv.store.cache.resident, kv.store.cache.tppa);
    BatchStarts(kv.h, kv.store.cache.table, kv.realKeys, kv.maxTry, es, pr, kv.written);
    forall i | 0 <= i < |es| ensures es[i].key == ks[a * MAX_WRITE_BUF + i] {
      assert EntryIs(kv.store.bm.oob, KeysOf(ks, a), lens, es, i);
    }
  }

  /** A buffer of items of one length is flushed, on pages of one superblock. */
  method FlushBuffer(kv: KvStore, ks: seq<Key>, a: nat, len: nat)
    requires Ready(kv, ks) && a < 2 && (len == 1 || len == 4)
    requires 64 * len <= kv.store.ActiveRoom() && 64 * len <= kv.store.FreePages()
    modifies kv, kv.store, kv.store.bm, kv.store.cache, kv.store.cache.bm
    ensures Ready(kv, ks) && kv.store.FreePages() == old(kv.store.FreePages()) - 64 * len
    ensures TakenFrom(old(kv.store.bm.wp), old(kv.store.dActive), kv.store.bm.wp, kv.store.dActive, 64 * len)
    ensures BufferOn(kv.store.cache.table, kv.store.bm.oob, a, len,
                     kv.store.dActive * PPS + old(kv.store.bm.wp)[kv.store.dActive],
                     kv.store.dActive * PPS + kv.store.bm.wp[kv.store.dActive])
    ensures forall b, m, lo, hi ::
      b < 2 && b != a && BufferOn(old(kv.store.cache.table), old(kv.store.bm.oob), b, m, lo, hi) ==>
      BufferOn(kv.store.cache.table, kv.store.bm.oob, b, m, lo, hi)
  {
    hide LiveOk, OwnedOk, CountsOk, BelowPointers, MapOk, AllocOk, TableOk, BackedBy, AllProgressOk, WrittenOk, BatchOk,
         SameMeaning, NoTarget, Slot, AnchoredBy, NewOn, Mapped, BufferOn, SameLengths, OwnSlots, WaitOnHand;
    var lens := seq(MAX_WRITE_BUF, _ => len);
    ghost var t0, oob0 := kv.store.cache.table, kv.store.bm.oob;
    var es := PlaceBuffer(kv, ks, a, lens, len);
    var pr := OpenBuffer(kv, ks, a, lens, es);
    ghost var oob1, placed1 := kv.store.bm.oob, kv.store.placed;
    ghost var lo, hi :=
      kv.store.dActive * PPS + old(kv.store.bm.wp)[kv.store.dActive],
      kv.store.dActive * PPS + kv.store.bm.wp[kv.store.dActive];
    var keys := KeysOf(ks, a);
    MapBuffer(kv, ks, a, es, pr);
    BufferMapped(t0, kv.store.cache.table, oob1, kv.store.bm.oob, placed1, keys, lens, a, es, len, lo, hi);
    forall b, m, lo, hi | b < 2 && b != a && BufferOn(t0, oob0, b, m, lo, hi)
      ensures BufferOn(kv.store.cache.table, kv.store.bm.oob, b, m, lo, hi)
    {
      SameItemsOn(t0, oob0, oob1, b, m, lo, hi);
      OtherStays(t0, kv.store.cache.table, oob1, kv.store.bm.oob, a, b, es, m, lo, hi);
    }
  }

  /** The keys of the second buffer are stored `n` times over, in one superblock: what counts is the last time. */
  method FlushMany(kv: KvStore, ks: seq<Key>, n: nat)
    requires Ready(kv, ks) && 0 < n && 64 * n <= kv.store.ActiveRoom() && 64 * n <= kv.store.FreePages()
    modifies kv, kv.store, kv.store.bm, kv.store.cache, kv.store.cache.bm
    ensures Ready(kv, ks) && kv.store.FreePages() == old(kv.store.FreePages()) - 64 * n
    ensures TakenFrom(old(kv.store.bm.wp), old(kv.store.dActive), kv.store.bm.wp, kv.store.dActive, 64 * n)
    ensures BufferOn(kv.store.cache.table, kv.store.bm.oob, 1, 1,
                     kv.store.dActive * PPS + kv.store.bm.wp[kv.store.dActive] - 64,
                     kv.store.dActive * PPS + kv.store.bm.wp[kv.store.dActive])
    ensures forall m, lo, hi ::
      BufferOn(old(kv.store.cache.table), old(kv.store.bm.oob), 0, m, lo, hi) ==>
      BufferOn(kv.store.cache.table, kv.store.bm.oob, 0, m, lo, hi)
  {
    hide Ready, BufferOn;
    for i := 0 to n
      invariant Ready(kv, ks) && kv.store.FreePages() == old(kv.store.FreePages()) - 64 * i
      invariant i == 0 ==> kv.store.bm.wp == old(kv.store.bm.wp) && kv.store.dActive == old(kv.store.dActive)
      invariant i > 0 ==>
        && TakenFrom(old(kv.store.bm.wp), old(kv.store.dActive), kv.store.bm.wp, kv.store.dActive, 64 * i)
        && BufferOn(kv.store.cache.table, kv.store.bm.oob, 1, 1,
                    kv.store.dActive * PPS + kv.store.bm.wp[kv.store.dActive] - 64,
                    kv.store.dActive * PPS + kv.store.bm.wp[kv.store.dActive])
      invariant forall m, lo, hi ::
        BufferOn(old(kv.store.cache.table), old(kv.store.bm.oob), 0, m, lo, hi) ==>
        BufferOn(kv.store.cache.table, kv.store.bm.oob, 0, m, lo, hi)
    {
      ghost var wp1, act1 := kv.store.bm.wp, kv.store.dActive;
      FlushBuffer(kv, ks, 1, 1);
      if i > 0 {
        TakenMore(old(kv.store.bm.wp), old(kv.store.dActive), wp1, act1, kv.store.bm.wp, kv.store.dActive, 64 * i, 64);
      }
    }
  }

  // ----- the buffer that is interrupted -----

  /** A batch larger than the pages left, all of them in one superblock, is placed on these; then a
      collection is due. */
  method PlaceUntilDue(s: Store, lens: seq<nat>)
    requires s.Inv() && s.placed == {} && forall i :: 0 <= i < |lens| ==> 1 <= lens[i] <= PAGE
    requires 0 < s.FreePages() < NeededOf(BatchItems(lens)) && s.FreePages() == s.ActiveRoom()
    requires |s.cache.table| > 0
    modifies s, s.bm, s.cache, s.cache.bm
    ensures s.Inv() && s.placed != {} && s.Due() && unchanged(s.cache) && unchanged(s.cache.bm)
    ensures TakenFrom(old(s.bm.wp), old(s.dActive), s.bm.wp, s.dActive, old(s.FreePages()))
    ensures NewOn({}, s.placed, s.dActive * PPS + old(s.bm.wp)[s.dActive], s.dActive * PPS + s.bm.wp[s.dActive])
    ensures SameMeaning(s.cache.table, s.bm.oob, s.cache.table, old(s.bm.oob))
  {
    hide LiveOk, OwnedOk, NodesOk, CountsOk, BelowPointers, SameMeaning, MapOk, AllocOk, Waiting, Take, FillPage, Pack,
         IsTarget, NoTarget, Clear, BackedBy, HoldsItemsOf;
    var b := s.FillBuckets(lens);
    PagesOfBatch(lens, b);
    var nodes: seq<Node> := [];
    ghost var out: seq<Item> := [];
    NoNodes(s.bm.oob, s.placed, -1, true);
    MeaningRefl(s.cache.table, s.bm.valid, s.bm.oob, s.starts, s.placed);
    ghost var k := 0;
    s.DueWithoutPages();
    while !s.Due()
      invariant s.Inv() && BucketsOk(b) && |out| == |nodes| && |s.cache.table| > 0 && (k > 0 ==> |nodes| > 0)
      invariant NodesOk(s.bm.oob, s.placed, -1, true, nodes, out) && s.placed == Ppas(nodes)
      invariant SameMeaning(s.cache.table, s.bm.oob, old(s.cache.table), old(s.bm.oob))
      invariant s.FreePages() == old(s.FreePages()) - k && unchanged(s.cache) && unchanged(s.cache.bm)
      invariant 0 <= k && s.FreePages() >= 0 && |Pack(b)| == NeededOf(BatchItems(lens)) - k
      invariant OnOne(old(s.bm.wp), old(s.dActive), s.bm.wp, s.dActive, s.placed, k, old(s.ActiveRoom()))
      invariant s.Due() <==> s.FreePages() == 0
      decreases s.FreePages()
    {
      PackNext(b);
      ghost var wp1, act1, placed1 := s.bm.wp, s.dActive, s.placed;
      var r;
      r, b, out := s.PlacePage(b, nodes, out, old(s.cache.table), old(s.bm.oob));
      OnOneMore(old(s.bm.wp), old(s.dActive), wp1, act1, placed1, s.bm.wp, s.dActive, s.placed, k,
                old(s.ActiveRoom()));
      nodes, k := r.nodes, k + 1;
      s.DueWithoutPages();
    }
    assert nodes[0].ppa in Ppas(nodes);
  }

  // Items of a page each account for four grains.
  lemma {:induction false} ManyPages(valid: seq<bool>, ps: seq<nat>, lo: nat, hi: nat)
    requires lo <= hi <= |valid| && forall i :: 0 <= i < |ps| ==> lo <= ps[i] && ps[i] + 4 <= hi && ps[i] % 4 == 0
    requires forall i, g :: 0 <= i < |ps| && ps[i] <= g < ps[i] + 4 ==> valid[g]
    requires forall i, j :: 0 <= i < j < |ps| ==> ps[i] != ps[j]
    ensures Count(valid, IsSet, lo, hi) >= 4 * |ps|
    decreases |ps|
  {
    if ps != [] {
      var rest, p := ps[..|ps| - 1], ps[|ps| - 1];
      var v1 := valid[p := false];
      var v2 := v1[p + 1 := false];
      var v3 := v2[p + 2 := false];
      var v4 := v3[p + 3 := false];
      CountUpdate(valid, IsSet, lo, hi, p, false);
      CountUpdate(v1, IsSet, lo, hi, p + 1, false);
      CountUpdate(v2, IsSet, lo, hi, p + 2, false);
      CountUpdate(v3, IsSet, lo, hi, p + 3, false);
      forall i, g | 0 <= i < |rest| && rest[i] <= g < rest[i] + 4 ensures v4[g] { assert rest[i] == ps[i] != p; }
      ManyPages(v4, rest, lo, hi);
    }
  }

  // The superblock with the first buffer keeps its 1024 grains valid.
  lemma ManyValid(s: Store, x: nat, lo: int, hi: int)
    requires s.Inv() && x < s.bm.n && |s.cache.table| == EPP && |s.bm.oob| <= NIL
    requires BufferOn(s.cache.table, s.bm.oob, 0, 4, lo, hi) && x * PPS <= lo && hi <= (x + 1) * PPS
    ensures s.bm.validCnt[x] >= 4 * MAX_WRITE_BUF
  {
    hide LiveOk, OwnedOk, MapOk, AllocOk, BelowPointers;
    var t, valid, oob := s.cache.table, s.bm.valid, s.bm.oob;
    forall l | 0 <= l < MAX_WRITE_BUF
      ensures t[l].ppa < |oob| && Intact(valid, oob, t[l].ppa) && oob[t[l].ppa].length == 4 && oob[t[l].ppa].lpa == l
      ensures x * GPS <= t[l].ppa < (x + 1) * GPS
    {
      assert ItemOn(t, oob, l, 4, lo, hi);
      MappedItem(t, valid, oob, s.starts, s.placed, {}, l);
    }
    var ps := seq(MAX_WRITE_BUF, i requires 0 <= i < MAX_WRITE_BUF => t[i].ppa);
    ManyPages(valid, ps, x * GPS, (x + 1) * GPS);
    assert s.bm.validCnt[x] == SetBits(valid, x);
  }

  // A mapped item outside superblock `x` is one of the second buffer.
  lemma SecondBuffer(t: seq<Pte>, oob: seq<Oob>, x: nat, lo: int, hi: int, lo1: int, hi1: int, l: nat)
    requires l < |t| == EPP && SblkOf(t[l].ppa) != x
    requires BufferOn(t, oob, 0, 4, lo, hi) && x * PPS <= lo && hi <= (x + 1) * PPS && BufferOn(t, oob, 1, 1, lo1, hi1)
    ensures lo1 * PAGE <= t[l].ppa
  {
    assert l < MAX_WRITE_BUF ==> ItemOn(t, oob, l, 4, lo, hi);
    assert l >= MAX_WRITE_BUF ==> ItemOn(t, oob, l, 1, lo1, hi1);
  }

  // The item a valid grain belongs to, in the grain's superblock.
  lemma StartOf(t: seq<Pte>, valid: seq<bool>, oob: seq<Oob>, starts: set<nat>, placed: set<nat>, g: nat)
    returns (p: nat)
    requires LiveOk(starts, valid, oob) && OwnedOk(t, oob, starts, placed, {}) && g < |valid| && valid[g]
    ensures p in starts && p <= g && SblkOf(p) == SblkOf(g) && p < |oob|
    ensures p !in placed ==> oob[p].lpa < |t| && t[oob[p].lpa].ppa == p
  {
    assert Covered(starts, oob, g);
    p :| p in starts && Covers(oob, p, g);
    SameSuperblock(valid, oob, p, g);
    assert p !in placed ==> Names(t, oob[p].lpa, {}, p);
  }

  lemma SameSuperblock(valid: seq<bool>, oob: seq<Oob>, p: nat, g: nat)
    requires |oob| == |valid| && Intact(valid, oob, p) && Covers(oob, p, g)
    ensures SblkOf(p) == SblkOf(g)
  {
  }

  // A valid grain of superblock `y` lies on the pages of the last buffers.
  lemma OnlyLastValid(s: Store, x: nat, y: nat, lo: int, hi: int, lo1: int, hi1: int, g: nat)
    requires s.Inv() && x != y && |s.cache.table| == EPP
    requires g < |s.bm.valid| && s.bm.valid[g] && SblkOf(g) == y
    requires BufferOn(s.cache.table, s.bm.oob, 0, 4, lo, hi) && x * PPS <= lo && hi <= (x + 1) * PPS
    requires BufferOn(s.cache.table, s.bm.oob, 1, 1, lo1, hi1) && NewOn({}, s.placed, lo1, hi1 + 64)
    ensures lo1 * PAGE <= g
  {
    hide LiveOk, OwnedOk, MapOk, AllocOk, BelowPointers, CountsOk, BufferOn, IsTarget;
    var p := StartOf(s.cache.table, s.bm.valid, s.bm.oob, s.starts, s.placed, g);
    if p !in s.placed { SecondBuffer(s.cache.table, s.bm.oob, x, lo, hi, lo1, hi1, s.bm.oob[p].lpa); }
  }

  // So it has 512 valid grains at most: those of the last two times 64 pages.
  lemma FewValid(s: Store, x: nat, y: nat, lo: int, hi: int)
    requires s.Inv() && x != y && y < s.bm.n && |s.cache.table| == EPP
    requires BufferOn(s.cache.table, s.bm.oob, 0, 4, lo, hi) && x * PPS <= lo && hi <= (x + 1) * PPS
    requires BufferOn(s.cache.table, s.bm.oob, 1, 1, (y + 1) * PPS - 128, (y + 1) * PPS - 64)
    requires NewOn({}, s.placed, (y + 1) * PPS - 128, (y + 1) * PPS)
    ensures s.bm.validCnt[y] <= 512
  {
    hide LiveOk, OwnedOk, MapOk, AllocOk, BelowPointers, BufferOn, NewOn;
    var end := (y + 1) * GPS;
    forall g | y * GPS <= g < end - 512 ensures !s.bm.valid[g] {
      if s.bm.valid[g] { OnlyLastValid(s, x, y, lo, hi, (y + 1) * PPS - 128, (y + 1) * PPS - 64, g); }
    }
    CountSplit(s.bm.valid, IsSet, y * GPS, end - 512, end);
    CountExtremes(s.bm.valid, IsSet, y * GPS, end - 512);
    assert s.bm.validCnt[y] == SetBits(s.bm.valid, y);
  }

  // Of two full superblocks and the reserve, the one with fewer valid grains is the next victim.
  lemma FewerIsTarget(s: Store, x: nat, y: nat)
    requires s.Inv() && s.bm.n == 3 && x < 3 && y < 3 && x != y
    requires s.bm.wp[x] == s.bm.wp[y] == PPS && s.bm.validCnt[y] < s.bm.validCnt[x] && s.bm.validCnt[y] <= 512
    ensures IsTarget(s.bm.wp, s.bm.validCnt, s.bm.rsv, y)
  {
    hide LiveOk, OwnedOk, MapOk, AllocOk, BelowPointers, CountsOk;
    AllocReserve(s.bm.wp, s.bm.freeCnt, s.bm.cursor, s.bm.rsv, s.dActive);
  }

  // An empty store of three data superblocks and a mapping table of one page, which the cache takes.
  method EmptyStore(h: Hashing, ks: seq<Key>) returns (kv: KvStore)
    requires OwnSlots(h, ks)
    ensures fresh(kv) && fresh(kv.store) && fresh(kv.store.bm) && fresh(kv.store.cache) && fresh(kv.store.cache.bm)
    ensures Ready(kv, ks) && kv.store.dActive == -1 && kv.store.FreePages() == 2 * PPS
  {
    hide LiveOk, OwnedOk, CountsOk, BelowPointers, MapOk, AllocOk, TableOk, BackedBy, Slot, AnchoredBy;
    kv := new KvStore(h, 1, 2, 3, 3);
    kv.InvFacts();
  }

  /** The run up to the last buffer.  The first buffer's items fill 256 pages of superblock `x` and stay there.
      The second buffer's, of a grain each, are stored again and again until `x` is full and `y` is but for 64
      pages. */
  method FillStore(h: Hashing, ks: seq<Key>) returns (kv: KvStore, ghost x: nat, ghost y: nat)
    requires OwnSlots(h, ks)
    ensures fresh(kv) && fresh(kv.store) && fresh(kv.store.bm) && fresh(kv.store.cache) && fresh(kv.store.cache.bm)
    ensures Ready(kv, ks) && x < 3 && y < 3 && x != y && kv.store.dActive == y && kv.store.FreePages() == 64
    ensures |kv.store.bm.wp| == 3 && kv.store.bm.wp[x] == PPS && kv.store.bm.wp[y] == PPS - 64
    ensures BufferOn(kv.store.cache.table, kv.store.bm.oob, 0, 4, x * PPS, x * PPS + 256)
    ensures BufferOn(kv.store.cache.table, kv.store.bm.oob, 1, 1, (y + 1) * PPS - 128, (y + 1) * PPS - 64)
  {
    hide LiveOk, OwnedOk, CountsOk, BelowPointers, MapOk, AllocOk, TableOk, BackedBy, OwnSlots, AnchoredBy, BufferOn,
         AtHome;
    kv := EmptyStore(h, ks);
    FlushBuffer(kv, ks, 0, 4);
    x := kv.store.dActive;
    FlushMany(kv, ks, 1020);
    FlushMany(kv, ks, 1023);
    y := kv.store.dActive;
  }

  /** Then the second buffer's keys are stored with four grains each.  After 64 pages a collection is due, and
      its victim is the superblock just filled. */
  method StoreAtRisk(h: Hashing, ks: seq<Key>) returns (kv: KvStore)
    requires OwnSlots(h, ks)
    ensures fresh(kv) && fresh(kv.store) && fresh(kv.store.bm) && fresh(kv.store.cache) && fresh(kv.store.cache.bm)
    ensures kv.store.Inv() && kv.store.Due() && 0 <= kv.store.dActive && kv.store.cache.Roomy()
    ensures kv.store.placed != {} && IsTarget(kv.store.bm.wp, kv.store.bm.validCnt, kv.store.bm.rsv, kv.store.dActive)
    ensures forall q :: q in kv.store.placed ==> SblkOf(q) == kv.store.dActive
  {
    hide LiveOk, OwnedOk, CountsOk, BelowPointers, MapOk, TableOk, BackedBy, SameMeaning, NoTarget, IsTarget,
         AnchoredBy, BufferOn, AllocOk, OwnSlots;
    ghost var x, y;
    kv, x, y := FillStore(h, ks);
    var lens := seq(MAX_WRITE_BUF, _ => 4);
    PagesOfBuffer(lens, 4);
    ghost var t, oob0 := kv.store.cache.table, kv.store.bm.oob;
    PlaceUntilDue(kv.store, lens);
    SameItemsOn(t, oob0, kv.store.bm.oob, 0, 4, x * PPS, x * PPS + 256);
    SameItemsOn(t, oob0, kv.store.bm.oob, 1, 1, (y + 1) * PPS - 128, (y + 1) * PPS - 64);
    ManyValid(kv.store, x, x * PPS, x * PPS + 256);
    FewValid(kv.store, x, y, x * PPS, x * PPS + 256);
    FewerIsTarget(kv.store, x, y);
  }

  /** Collected, they are gone: where the write buffer has them no grain is valid. */
  method CollectOwnBatch(h: Hashing, ks: seq<Key>) returns (kv: KvStore)
    requires OwnSlots(h, ks)
    ensures kv.store.Shape() && kv.store.placed != {} && !kv.store.ItemsOk({})
    ensures forall q :: q in kv.store.placed ==>
      q < |kv.store.bm.valid| == |kv.store.bm.oob| && !kv.store.bm.valid[q] && kv.store.bm.oob[q] == CLEARED
  {
    hide CountsOk, BelowPointers, AllocOk, LiveOk, OwnedOk, MapOk, IsTarget, NoTarget, SameMeaning, HoldsItemsOf,
         PagesToRead, Pack;
    kv := StoreAtRisk(h, ks);
    ghost var y, wp, cnt, rsv := kv.store.dActive, kv.store.bm.wp, kv.store.bm.validCnt, kv.store.bm.rsv;
    TargetsAre(wp, cnt, rsv, y);
    ghost var v, k, b;
    var ok, read;
    ok, read, v, k, b := kv.store.DpageGc();
    TargetUnique(wp, cnt, rsv, v, y);
  }
}
