/**
 Keys in the mapping table: open addressing with quadratic probing.  The write path moves each
 entry of a placed batch along its probe walk in any order the retry queue allows; the read path
 walks the same slots up to the largest count ever used.
 */
module ProbeTable {
  import opened Common
  import opened Counting
  import opened BlockManager
  import opened TransPages
  import opened Items
  import opened DataGc
  import Packing
  import opened Keys

  const MAX_HASH_COLLISION: nat := 1024
  // Buckets of the per-batch table, twice the write buffer.
  const HT: nat := 512

  // The hash and the fingerprint of a key, arbitrary functions.
  datatype Hashing = Hashing(hash: Key -> nat, fp: Key -> nat)

  /** `get_lpa`: the slot tried at count `c`, in 32-bit arithmetic. */
  function Slot(h: Hashing, k: Key, c: nat, n: nat): (l: nat)
    requires n > 0
    ensures l < n
  {
    ((h.hash(k) + c + c * c) % 0x1_0000_0000) % n
  }

  // The 32-bit position tried at count `c`, reached step by step.
  function Tried(h: Hashing, k: Key, c: nat): nat {
    if c == 0 then h.hash(k) % 0x1_0000_0000 else (Tried(h, k, c - 1) + 2 * c) % 0x1_0000_0000
  }

  lemma WrapAdd(a: nat, b: nat)
    ensures (a % 0x1_0000_0000 + b) % 0x1_0000_0000 == (a + b) % 0x1_0000_0000
  {
  }

  lemma NextSquare(c: nat)
    ensures (c + 1) + (c + 1) * (c + 1) == c + c * c + (2 * c + 2)
  {
  }

  lemma {:induction false} TriedIs(h: Hashing, k: Key, c: nat)
    ensures Tried(h, k, c) == (h.hash(k) + c + c * c) % 0x1_0000_0000
  {
    if c > 0 {
      TriedIs(h, k, c - 1);
      NextSquare(c - 1);
      WrapAdd(h.hash(k) + (c - 1) + (c - 1) * (c - 1), 2 * c);
    }
  }

  /** Each try is two positions further from the last than that was from the one before, in 32 bits and then
      modulo the table. */
  lemma TriesSpread(h: Hashing, k: Key, c: nat, n: nat)
    requires n > 0
    ensures Slot(h, k, c, n) == Tried(h, k, c) % n
    ensures Tried(h, k, 0) == h.hash(k) % 0x1_0000_0000
    ensures Tried(h, k, c + 1) == (Tried(h, k, c) + 2 * c + 2) % 0x1_0000_0000
  {
    TriedIs(h, k, c);
  }

  lemma SlotUnwrapped(h: Hashing, k: Key, c: nat, n: nat, x: nat)
    requires n > 0 && x == h.hash(k) + c + c * c < 0x1_0000_0000
    ensures Slot(h, k, c, n) == x % n
  {
  }

  /** Without a wrap in 32 bits just modulo the table, the first at the hash. */
  lemma NextSlot(h: Hashing, k: Key, c: nat, n: nat)
    requires n > 0 && h.hash(k) + (c + 1) + (c + 1) * (c + 1) < 0x1_0000_0000
    ensures Slot(h, k, 0, n) == h.hash(k) % n
    ensures Slot(h, k, c + 1, n) == (Slot(h, k, c, n) + 2 * c + 2) % n
  {
    hide Slot;
    var x := h.hash(k) + c + c * c;
    NextSquare(c);
    SlotUnwrapped(h, k, 0, n, h.hash(k));
    SlotUnwrapped(h, k, c, n, x);
    SlotUnwrapped(h, k, c + 1, n, x + 2 * c + 2);
    ModAdd(x, 2 * c + 2, n);
  }

  lemma ModAdd(x: nat, y: nat, n: nat)
    requires n > 0
    ensures (x % n + y) % n == (x + y) % n
  {
    var q, r := (x % n + y) / n, (x % n + y) % n;
    assert x % n + y == q * n + r;
    assert x + y == (x / n + q) * n + r;
    Remainder(x + y, n, x / n + q, r);
  }

  lemma Remainder(a: nat, m: nat, q: nat, r: nat)
    requires a == q * m + r && r < m
    ensures a % m == r
  {
    var d := a / m;
    assert m * d <= a < m * (d + 1) && m * q <= a < m * (q + 1);
    assert d < q + 1 && q < d + 1;
  }

  // The walk of `k` passes its slot at count `d`: the slot holds another key.
  predicate Passes(h: Hashing, t: seq<Pte>, rk: seq<Key>, k: Key, d: nat)
    requires |t| == |rk| > 0
  {
    t[Slot(h, k, d, |t|)].ppa != NIL && rk[Slot(h, k, d, |t|)] != k
  }

  ghost predicate WalksTo(h: Hashing, t: seq<Pte>, rk: seq<Key>, k: Key, c: nat)
    requires |t| == |rk| > 0
  {
    forall d: nat :: d < c ==> Passes(h, t, rk, k, d)
  }

  // Slot `l` is reached by the key it holds at count `c`.
  ghost predicate HomeAt(h: Hashing, t: seq<Pte>, rk: seq<Key>, l: nat, c: nat)
    requires |t| == |rk| > 0 && l < |t|
  {
    Slot(h, rk[l], c, |t|) == l && WalksTo(h, t, rk, rk[l], c)
  }

  ghost predicate Reached(h: Hashing, t: seq<Pte>, rk: seq<Key>, l: nat, maxTry: nat)
    requires |t| == |rk| > 0 && l < |t|
  {
    exists c: nat :: c <= maxTry && HomeAt(h, t, rk, l, c)
  }

  /** Every mapped slot has its key's fingerprint and lies on the key's walk, at a count not above the
      largest one used, with every earlier slot of the walk holding another key. */
  ghost predicate TableOk(h: Hashing, t: seq<Pte>, rk: seq<Key>, maxTry: nat) {
    && |t| == |rk| > 0
    && forall l :: 0 <= l < |t| && t[l].ppa != NIL ==> t[l].fp == h.fp(rk[l]) && Reached(h, t, rk, l, maxTry)
  }

  // Slot `l` stores key `k`.
  predicate Stores(t: seq<Pte>, rk: seq<Key>, l: nat, k: Key) {
    l < |t| == |rk| && t[l].ppa != NIL && rk[l] == k
  }

  /** A key is stored in at most one slot. */
  lemma OneSlotPerKey(h: Hashing, t: seq<Pte>, rk: seq<Key>, maxTry: nat, k: Key, l: nat, m: nat)
    requires TableOk(h, t, rk, maxTry) && Stores(t, rk, l, k) && Stores(t, rk, m, k)
    ensures l == m
  {
    hide Slot;
    assert Reached(h, t, rk, l, maxTry) && Reached(h, t, rk, m, maxTry);
    var c: nat :| c <= maxTry && HomeAt(h, t, rk, l, c);
    var d: nat :| d <= maxTry && HomeAt(h, t, rk, m, d);
    assert WalksTo(h, t, rk, k, c) && WalksTo(h, t, rk, k, d);
    assert c < d ==> Passes(h, t, rk, k, c);
    assert d < c ==> Passes(h, t, rk, k, d);
  }

  // Mapped slots keep their keys.
  ghost predicate Grown(t0: seq<Pte>, rk0: seq<Key>, t: seq<Pte>, rk: seq<Key>) {
    && |t| == |t0| == |rk| == |rk0|
    && forall l :: 0 <= l < |t| && t0[l].ppa != NIL ==> t[l].ppa != NIL && rk[l] == rk0[l]
  }

  lemma WalkShorter(h: Hashing, t: seq<Pte>, rk: seq<Key>, k: Key, c: nat, d: nat)
    requires |t| == |rk| > 0 && WalksTo(h, t, rk, k, c) && d <= c
    ensures WalksTo(h, t, rk, k, d)
  {
  }

  lemma WalkStays(h: Hashing, t0: seq<Pte>, rk0: seq<Key>, t: seq<Pte>, rk: seq<Key>, k: Key, c: nat)
    requires Grown(t0, rk0, t, rk) && |t| > 0 && WalksTo(h, t0, rk0, k, c)
    ensures WalksTo(h, t, rk, k, c)
  {
    forall d: nat | d < c ensures Passes(h, t, rk, k, d) {
      assert Passes(h, t0, rk0, k, d);
    }
  }

  function Max(a: nat, b: nat): nat { if a > b then a else b }

  /** Storing `k` where its walk ends, in an empty slot or its own, keeps the table right. */
  lemma StoreKeeps(h: Hashing, t: seq<Pte>, rk: seq<Key>, maxTry: nat, k: Key, c: nat, pte: Pte)
    requires TableOk(h, t, rk, maxTry) && WalksTo(h, t, rk, k, c) && pte.ppa != NIL && pte.fp == h.fp(k)
    requires var l := Slot(h, k, c, |t|); t[l].ppa == NIL || rk[l] == k
    ensures var l := Slot(h, k, c, |t|);
      Grown(t, rk, t[l := pte], rk[l := k]) && TableOk(h, t[l := pte], rk[l := k], Max(maxTry, c))
  {
    hide Slot;
    var l := Slot(h, k, c, |t|);
    var t', rk', m := t[l := pte], rk[l := k], Max(maxTry, c);
    forall i | 0 <= i < |t'| && t'[i].ppa != NIL ensures t'[i].fp == h.fp(rk'[i]) && Reached(h, t', rk', i, m) {
      if i == l {
        WalkStays(h, t, rk, t', rk', k, c);
        assert HomeAt(h, t', rk', i, c);
      } else {
        assert Reached(h, t, rk, i, maxTry);
        var d: nat :| d <= maxTry && HomeAt(h, t, rk, i, d);
        WalkStays(h, t, rk, t', rk', rk[i], d);
        assert HomeAt(h, t', rk', i, d);
      }
    }
  }

  // Garbage collection changes where items lie, not which slot stores which key.
  lemma MeaningKeepsTable(h: Hashing, t0: seq<Pte>, oob0: seq<Oob>, t: seq<Pte>, oob: seq<Oob>, rk: seq<Key>,
                          maxTry: nat)
    requires SameMeaning(t, oob, t0, oob0) && TableOk(h, t0, rk, maxTry)
    ensures TableOk(h, t, rk, maxTry) && Grown(t0, rk, t, rk)
  {
    forall l | 0 <= l < |t| ensures t[l].fp == t0[l].fp && (t[l].ppa == NIL <==> t0[l].ppa == NIL) {
      assert SameSlot(t[l], oob, t0[l], oob0);
    }
    forall l | 0 <= l < |t| && t[l].ppa != NIL ensures t[l].fp == h.fp(rk[l]) && Reached(h, t, rk, l, maxTry) {
      assert Reached(h, t0, rk, l, maxTry);
      var d: nat :| d <= maxTry && HomeAt(h, t0, rk, l, d);
      WalkStays(h, t0, rk, t, rk, rk[l], d);
      assert HomeAt(h, t, rk, l, d);
    }
  }

  // ----- the read walk -----

  /** The slot a read of `k` that has reached count `c` ends at; -1 when it finds nothing. */
  function Lookup(h: Hashing, t: seq<Pte>, rk: seq<Key>, maxTry: nat, k: Key, c: nat): (r: int)
    requires |t| == |rk| > 0
    ensures -1 <= r < |t|
    decreases maxTry + 1 - c
  {
    if c > maxTry then -1
    else
      var l := Slot(h, k, c, |t|);
      if t[l].fp != h.fp(k) then Lookup(h, t, rk, maxTry, k, c + 1)
      else if t[l].ppa == NIL then -1
      else if Cmp(k, rk[l]) == 0 then l
      else Lookup(h, t, rk, maxTry, k, c + 1)
  }

  lemma {:induction false} LookupReaches(h: Hashing, t: seq<Pte>, rk: seq<Key>, maxTry: nat, k: Key, c: nat, l: nat,
                                         home: nat)
    requires TableOk(h, t, rk, maxTry) && Stores(t, rk, l, k) && HomeAt(h, t, rk, l, home) && c <= home <= maxTry
    ensures Lookup(h, t, rk, maxTry, k, c) == l
    decreases home - c
  {
    hide Slot;
    CmpMeans(k, rk[Slot(h, k, c, |t|)]);
    if c < home {
      assert Passes(h, t, rk, k, c);
      LookupReaches(h, t, rk, maxTry, k, c + 1, l, home);
    }
  }

  lemma {:induction false} LookupHonest(h: Hashing, t: seq<Pte>, rk: seq<Key>, maxTry: nat, k: Key, c: nat)
    requires |t| == |rk| > 0
    ensures var r := Lookup(h, t, rk, maxTry, k, c); r == -1 || Stores(t, rk, r, k)
    decreases maxTry + 1 - c
  {
    hide Slot;
    if c <= maxTry {
      CmpMeans(k, rk[Slot(h, k, c, |t|)]);
      LookupHonest(h, t, rk, maxTry, k, c + 1);
    }
  }

  /** The walk over counts 0 to `maxTry` finds exactly the stored keys, each in its slot. */
  lemma LookupExact(h: Hashing, t: seq<Pte>, rk: seq<Key>, maxTry: nat, k: Key)
    requires TableOk(h, t, rk, maxTry)
    ensures forall l: nat :: Stores(t, rk, l, k) <==> Lookup(h, t, rk, maxTry, k, 0) == l
  {
    LookupHonest(h, t, rk, maxTry, k, 0);
    forall l: nat | Stores(t, rk, l, k) ensures Lookup(h, t, rk, maxTry, k, 0) == l {
      assert Reached(h, t, rk, l, maxTry);
      var c: nat :| c <= maxTry && HomeAt(h, t, rk, l, c);
      LookupReaches(h, t, rk, maxTry, k, 0, l, c);
    }
  }

  // ----- the write path -----

  // An entry of the batch: its key and the first grain of its placed item.
  datatype Entry = Entry(key: Key, ppa: nat)

  // Where an entry resumes: from the start, after its page was read, after a victim was written,
  // or after its key was compared.
  datatype Jump = Fresh | ListUp | Complete | Rewrite

  datatype Progress = Progress(cnt: nat, jump: Jump, done: bool)

  ghost predicate BatchOk(es: seq<Entry>) {
    forall i, j :: 0 <= i < j < |es| ==> es[i].key != es[j].key && es[i].ppa != es[j].ppa
  }

  ghost function DoneKeys(es: seq<Entry>, pr: seq<Progress>): set<Key>
    requires |pr| == |es|
  {
    set i | 0 <= i < |es| && pr[i].done :: es[i].key
  }

  ghost function OpenPpas(es: seq<Entry>, pr: seq<Progress>): set<nat>
    requires |pr| == |es|
  {
    set i | 0 <= i < |es| && !pr[i].done :: es[i].ppa
  }

  // Key `k` is stored with the item at `p`.
  ghost predicate StoredAt(t: seq<Pte>, rk: seq<Key>, k: Key, p: nat) {
    exists l: nat :: Stores(t, rk, l, k) && t[l].ppa == p
  }

  // An entry is done and stored, or its walk has come to its count, at its own slot when it has
  // compared keys there.
  ghost predicate ProgressOk(h: Hashing, t: seq<Pte>, rk: seq<Key>, e: Entry, p: Progress)
    requires |t| == |rk| > 0
  {
    && (p.done ==> StoredAt(t, rk, e.key, e.ppa))
    && (!p.done ==> WalksTo(h, t, rk, e.key, p.cnt))
    && (!p.done && p.jump == Rewrite ==> Stores(t, rk, Slot(h, e.key, p.cnt, |t|), e.key))
  }

  ghost predicate AllProgressOk(h: Hashing, t: seq<Pte>, rk: seq<Key>, es: seq<Entry>, pr: seq<Progress>) {
    && |t| == |rk| > 0 && |pr| == |es|
    && forall i :: 0 <= i < |es| ==> ProgressOk(h, t, rk, es[i], pr[i])
  }

  // Slot `l` was written by this batch.
  ghost predicate IsWritten(t: seq<Pte>, rk: seq<Key>, doneKeys: set<Key>, l: nat) {
    l < |t| == |rk| && t[l].ppa != NIL && rk[l] in doneKeys
  }

  // `d_htable_find`.
  predicate Listed(bucket: seq<seq<nat>>, p: nat, l: nat)
    requires |bucket| == HT
  {
    l in bucket[p % HT]
  }

  /** The batch table lists, by the place of its item, exactly the slots this batch has written. */
  ghost predicate WrittenOk(bucket: seq<seq<nat>>, t: seq<Pte>, rk: seq<Key>, doneKeys: set<Key>) {
    && |bucket| == HT && |t| == |rk|
    && (forall p: nat, l: nat :: Listed(bucket, p, l) ==> IsWritten(t, rk, doneKeys, l))
    && (forall l: nat :: IsWritten(t, rk, doneKeys, l) ==> Listed(bucket, t[l].ppa, l))
  }

  // What the batch has changed so far: nothing stored under a key that is not its own.
  ghost predicate OnlyBatch(t0: seq<Pte>, rk0: seq<Key>, t: seq<Pte>, rk: seq<Key>, keys: set<Key>) {
    && Grown(t0, rk0, t, rk)
    && forall l :: 0 <= l < |t| && t[l].ppa != NIL && rk[l] !in keys ==> t[l] == t0[l] && rk[l] == rk0[l]
  }

  ghost function Keyset(es: seq<Entry>): set<Key> { set e | e in es :: e.key }

  // Entry `i`, still open, is stored at its slot: everything kept per batch follows.
  lemma EntryStored(h: Hashing, t: seq<Pte>, rk: seq<Key>, maxTry: nat, es: seq<Entry>, pr: seq<Progress>, i: nat,
                    c: nat)
    requires TableOk(h, t, rk, maxTry) && AllProgressOk(h, t, rk, es, pr) && BatchOk(es)
    requires i < |es| && !pr[i].done && WalksTo(h, t, rk, es[i].key, c) && es[i].ppa != NIL
    requires var l := Slot(h, es[i].key, c, |t|); t[l].ppa == NIL || rk[l] == es[i].key
    ensures var l := Slot(h, es[i].key, c, |t|);
      AllProgressOk(h, t[l := Pte(es[i].ppa, h.fp(es[i].key))], rk[l := es[i].key], es,
        pr[i := Progress(c, Fresh, true)])
  {
    hide Slot;
    var k, l := es[i].key, Slot(h, es[i].key, c, |t|);
    var pte := Pte(es[i].ppa, h.fp(k));
    var t', rk', pr' := t[l := pte], rk[l := k], pr[i := Progress(c, Fresh, true)];
    StoreKeeps(h, t, rk, maxTry, k, c, pte);
    forall j | 0 <= j < |es| ensures ProgressOk(h, t', rk', es[j], pr'[j]) {
      assert ProgressOk(h, t, rk, es[j], pr[j]);
      if j == i {
        assert Stores(t', rk', l, k);
      } else {
        assert es[j].key != k by { if j < i { } else { assert i < j; } }
        if pr[j].done {
          var m: nat :| Stores(t, rk, m, es[j].key) && t[m].ppa == es[j].ppa;
          assert Stores(t', rk', m, es[j].key);
        } else {
          WalkStays(h, t, rk, t', rk', es[j].key, pr[j].cnt);
        }
      }
    }
  }

  lemma WrittenMore(bucket: seq<seq<nat>>, t: seq<Pte>, rk: seq<Key>, doneKeys: set<Key>, l: nat, k: Key, pte: Pte)
    requires WrittenOk(bucket, t, rk, doneKeys) && k !in doneKeys && l < |t| && (t[l].ppa == NIL || rk[l] == k)
    requires pte.ppa != NIL && forall m :: 0 <= m < |t| && t[m].ppa != NIL && rk[m] == k ==> m == l
    ensures WrittenOk(AddListed(bucket, pte.ppa, l), t[l := pte], rk[l := k], doneKeys + {k})
  {
    var bucket', t', rk' := AddListed(bucket, pte.ppa, l), t[l := pte], rk[l := k];
    assert |bucket'| == HT && |t'| == |rk'|;
    forall p: nat, m: nat | Listed(bucket', p, m) ensures IsWritten(t', rk', doneKeys + {k}, m) {
      if m != l { assert IsWritten(t, rk, doneKeys, m); }
    }
    forall m: nat | IsWritten(t', rk', doneKeys + {k}, m) ensures Listed(bucket', t'[m].ppa, m) {
      if m != l { assert IsWritten(t, rk, doneKeys, m); }
    }
  }

  // `d_htable_insert`.
  function AddListed(bucket: seq<seq<nat>>, p: nat, l: nat): (b: seq<seq<nat>>)
    requires |bucket| == HT
    ensures |b| == HT
    ensures forall q: nat, m: nat :: Listed(b, q, m) <==> Listed(bucket, q, m) || (m == l && q % HT == p % HT)
  {
    var b := p % HT;
    assert forall m :: m in bucket[b] + [l] <==> m in bucket[b] || m == l;
    bucket[b := bucket[b] + [l]]
  }

  lemma ProgressShape(h: Hashing, t: seq<Pte>, rk: seq<Key>, es: seq<Entry>, pr: seq<Progress>)
    requires AllProgressOk(h, t, rk, es, pr)
    ensures |pr| == |es| && |t| == |rk| > 0
  {
  }

  lemma WrittenShape(bucket: seq<seq<nat>>, t: seq<Pte>, rk: seq<Key>, doneKeys: set<Key>)
    requires WrittenOk(bucket, t, rk, doneKeys)
    ensures |bucket| == HT
  {
  }

  lemma OnlyBatchMore(t0: seq<Pte>, rk0: seq<Key>, t: seq<Pte>, rk: seq<Key>, keys: set<Key>, l: nat, k: Key, pte: Pte)
    requires OnlyBatch(t0, rk0, t, rk, keys) && k in keys && l < |t| && (t[l].ppa == NIL || rk[l] == k)
      && pte.ppa != NIL
    ensures OnlyBatch(t0, rk0, t[l := pte], rk[l := k], keys)
  {
  }

  // Entry `i` finishing: its key joins the done ones, its place leaves the open ones.
  lemma OneMoreDone(es: seq<Entry>, pr: seq<Progress>, i: nat, p: Progress)
    requires BatchOk(es) && |pr| == |es| && i < |es| && !pr[i].done && p.done
    ensures es[i].key !in DoneKeys(es, pr) && es[i].ppa in OpenPpas(es, pr)
    ensures DoneKeys(es, pr[i := p]) == DoneKeys(es, pr) + {es[i].key}
    ensures OpenPpas(es, pr[i := p]) == OpenPpas(es, pr) - {es[i].ppa}
  {
    var pr' := pr[i := p];
    forall j | 0 <= j < |es| && j != i ensures es[j].key != es[i].key && es[j].ppa != es[i].ppa {
      if j < i { } else { assert i < j; }
    }
    forall x | x in OpenPpas(es, pr) - {es[i].ppa} ensures x in OpenPpas(es, pr') {
      var j :| 0 <= j < |es| && !pr[j].done && es[j].ppa == x;
      assert !pr'[j].done;
    }
    forall x | x in DoneKeys(es, pr) + {es[i].key} ensures x in DoneKeys(es, pr') {
      if x == es[i].key {
        assert pr'[i].done;
      } else {
        var j :| 0 <= j < |es| && pr[j].done && es[j].key == x;
        assert pr'[j].done;
      }
    }
  }

  function Ahead(jump: Jump): nat {
    match jump
    case Fresh => 4
    case ListUp => 3
    case Complete => 2
    case Rewrite => 1
  }

  // Steps an entry can still take: five per count, fewer the later it resumes.
  function Left(p: Progress): nat {
    if p.done then 0
    else if p.cnt > MAX_HASH_COLLISION then 1
    else 5 * (MAX_HASH_COLLISION + 1 - p.cnt) + Ahead(p.jump)
  }

  lemma LeftDrops(c: nat, jump: Jump)
    requires c <= MAX_HASH_COLLISION
    ensures Left(Progress(c + 1, Fresh, false)) < Left(Progress(c, jump, false))
    ensures jump != Rewrite ==> Left(Progress(c, Rewrite, false)) < Left(Progress(c, jump, false))
    ensures jump == Fresh ==> Left(Progress(c, ListUp, false)) < Left(Progress(c, jump, false))
    ensures jump == Fresh || jump == ListUp ==> Left(Progress(c, Complete, false)) < Left(Progress(c, jump, false))
  {
  }

  function AllLeft(pr: seq<Progress>): nat {
    if pr == [] then 0 else Left(pr[0]) + AllLeft(pr[1..])
  }

  lemma {:induction false} LeftUpdate(pr: seq<Progress>, i: nat, p: Progress)
    requires i < |pr|
    ensures AllLeft(pr[i := p]) == AllLeft(pr) - Left(pr[i]) + Left(p)
  {
    if i == 0 {
      assert pr[i := p][1..] == pr[1..];
    } else {
      assert pr[i := p][1..] == pr[1..][i - 1 := p];
      LeftUpdate(pr[1..], i - 1, p);
    }
  }

  lemma BatchStarts(h: Hashing, t: seq<Pte>, rk: seq<Key>, maxTry: nat, es: seq<Entry>, pr: seq<Progress>,
                    bucket: seq<seq<nat>>)
    requires TableOk(h, t, rk, maxTry) && |pr| == |es|
    requires forall i :: 0 <= i < |es| ==> pr[i] == Progress(0, Fresh, false)
    requires |bucket| == HT && forall b :: 0 <= b < HT ==> bucket[b] == []
    ensures AllProgressOk(h, t, rk, es, pr) && WrittenOk(bucket, t, rk, DoneKeys(es, pr))
    ensures OpenPpas(es, pr) == (set e | e in es :: e.ppa) && OnlyBatch(t, rk, t, rk, Keyset(es))
  {
    hide Slot;
    assert DoneKeys(es, pr) == {};
    forall x | x in (set e | e in es :: e.ppa) ensures x in OpenPpas(es, pr) {
      var e :| e in es && e.ppa == x;
      var i :| 0 <= i < |es| && es[i] == e;
      assert !pr[i].done;
    }
  }

  lemma BatchEnds(h: Hashing, t: seq<Pte>, rk: seq<Key>, es: seq<Entry>, pr: seq<Progress>)
    requires AllProgressOk(h, t, rk, es, pr) && forall i :: 0 <= i < |pr| ==> pr[i].done
    ensures OpenPpas(es, pr) == {} && forall e :: e in es ==> StoredAt(t, rk, e.key, e.ppa)
  {
    forall e | e in es ensures StoredAt(t, rk, e.key, e.ppa) {
      var i :| 0 <= i < |es| && es[i] == e;
      assert ProgressOk(h, t, rk, es[i], pr[i]);
    }
  }

  // What the batch has stored had not overflowed before.
  lemma StoredNotOver(h: Hashing, t0: seq<Pte>, rk0: seq<Key>, t: seq<Pte>, rk: seq<Key>, maxTry: nat, es: seq<Entry>)
    requires OnlyBatch(t0, rk0, t, rk, Keyset(es)) && TableOk(h, t, rk, maxTry) && maxTry <= MAX_HASH_COLLISION
    requires forall e :: e in es ==> StoredAt(t, rk, e.key, e.ppa)
    ensures |t0| == |rk0| > 0 && forall e :: e in es ==> !WalksTo(h, t0, rk0, e.key, MAX_HASH_COLLISION + 1)
  {
    hide Slot;
    forall e | e in es ensures !WalksTo(h, t0, rk0, e.key, MAX_HASH_COLLISION + 1) {
      assert StoredAt(t, rk, e.key, e.ppa);
      var l: nat :| Stores(t, rk, l, e.key) && t[l].ppa == e.ppa;
      assert Reached(h, t, rk, l, maxTry);
      var c: nat :| c <= maxTry && HomeAt(h, t, rk, l, c);
      FoundPasses(h, t, rk, e.key, c + 1);
      if WalksTo(h, t0, rk0, e.key, MAX_HASH_COLLISION + 1) {
        WalkStays(h, t0, rk0, t, rk, e.key, MAX_HASH_COLLISION + 1);
      }
    }
  }

  // While a stored key's walk has not come to its slot, it goes on: the slot in front is mapped and the
  // count within bounds.
  lemma StoredWalk(h: Hashing, t: seq<Pte>, rk: seq<Key>, maxTry: nat, k: Key, l: nat, c: nat)
    requires TableOk(h, t, rk, maxTry) && Stores(t, rk, l, k) && WalksTo(h, t, rk, k, c)
    ensures c <= maxTry && t[Slot(h, k, c, |t|)].ppa != NIL
    ensures Stores(t, rk, Slot(h, k, c, |t|), k) || WalksTo(h, t, rk, k, c + 1)
    ensures Stores(t, rk, Slot(h, k, c, |t|), k) ==> t[Slot(h, k, c, |t|)].fp == h.fp(k)
  {
    hide Slot;
    assert Reached(h, t, rk, l, maxTry);
    var d: nat :| d <= maxTry && HomeAt(h, t, rk, l, d);
    assert d < c ==> Passes(h, t, rk, k, d);
    assert c < d ==> Passes(h, t, rk, k, c);
  }

  // Whether key `k` is stored with an item of `len` grains.
  ghost predicate Holds(t: seq<Pte>, rk: seq<Key>, oob: seq<Oob>, k: Key, len: nat) {
    exists l: nat :: Stores(t, rk, l, k) && t[l].ppa < |oob| && oob[t[l].ppa].length == len
  }

  ghost predicate IsStored(t: seq<Pte>, rk: seq<Key>, k: Key) { exists l: nat :: Stores(t, rk, l, k) }

  // A read's walk has lost nothing: if its key is stored, the slots behind it hold other keys.
  ghost predicate OnTrack(h: Hashing, t: seq<Pte>, rk: seq<Key>, k: Key, c: nat)
    requires |t| == |rk| > 0
  {
    IsStored(t, rk, k) ==> WalksTo(h, t, rk, k, c)
  }

  lemma StaysOnTrack(h: Hashing, t: seq<Pte>, rk: seq<Key>, maxTry: nat, k: Key, c: nat)
    requires TableOk(h, t, rk, maxTry) && OnTrack(h, t, rk, k, c)
    ensures IsStored(t, rk, k) ==> c <= maxTry && t[Slot(h, k, c, |t|)].ppa != NIL
    ensures !Stores(t, rk, Slot(h, k, c, |t|), k) ==> OnTrack(h, t, rk, k, c + 1)
    ensures Stores(t, rk, Slot(h, k, c, |t|), k) ==> t[Slot(h, k, c, |t|)].fp == h.fp(k)
  {
    hide Slot, TableOk, WalksTo;
    if IsStored(t, rk, k) {
      var l: nat :| Stores(t, rk, l, k);
      StoredWalk(h, t, rk, maxTry, k, l, c);
    }
  }

  /** A walk under way stays on track while other operations store keys in between, provided its own
      key was already stored. */
  lemma TrackSurvives(h: Hashing, t0: seq<Pte>, rk0: seq<Key>, t: seq<Pte>, rk: seq<Key>, k: Key, c: nat)
    requires Grown(t0, rk0, t, rk) && |t| > 0 && OnTrack(h, t0, rk0, k, c) && IsStored(t0, rk0, k)
    ensures IsStored(t, rk, k) && OnTrack(h, t, rk, k, c)
  {
    var l: nat :| Stores(t0, rk0, l, k);
    assert Stores(t, rk, l, k);
    WalkStays(h, t0, rk0, t, rk, k, c);
  }

  lemma TrackStarts(h: Hashing, t: seq<Pte>, rk: seq<Key>, maxTry: nat, k: Key)
    requires TableOk(h, t, rk, maxTry)
    ensures |t| == |rk| > 0 && OnTrack(h, t, rk, k, 0)
  {
  }

  // How one stretch of a read ends: with a slot, without one, or waiting for flash.
  datatype ReadStep = Found(l: nat) | NotFound | Later(c: nat, jump: Jump) | ReadAborted

  // Entry `i` carries key `i` and the place of an item of length `i`.
  ghost predicate EntryIs(oob: seq<Oob>, keys: seq<Key>, lens: seq<nat>, es: seq<Entry>, i: nat)
    requires i < |es| == |keys| == |lens|
  {
    es[i].key == keys[i] && es[i].ppa < |oob| && oob[es[i].ppa].length == lens[i]
  }

  lemma NodeOfEntry(oob: seq<Oob>, keys: seq<Key>, lens: seq<nat>, nodes: seq<Node>, es: seq<Entry>, i: nat)
    returns (a: nat)
    requires i < |es| == |keys| == |lens| && HasNode(nodes, i) && es[i].key == keys[i]
    requires forall x :: x in nodes ==> IsBatchPlace(oob, lens, x)
    requires forall a :: 0 <= a < |nodes| ==> nodes[a].lpa < |es| && es[nodes[a].lpa].ppa == nodes[a].ppa
    ensures a < |nodes| && nodes[a].lpa == i && nodes[a].ppa == es[i].ppa && EntryIs(oob, keys, lens, es, i)
  {
    var x :| x in nodes && x.lpa == i;
    a :| 0 <= a < |nodes| && nodes[a] == x;
    assert IsBatchPlace(oob, lens, x);
  }

  lemma EntriesRight(oob: seq<Oob>, keys: seq<Key>, lens: seq<nat>, nodes: seq<Node>, es: seq<Entry>)
    requires |keys| == |lens| == |nodes| == |es| && DistinctSlots(nodes) && DistinctPlaces(nodes)
    requires forall i, j :: 0 <= i < j < |keys| ==> keys[i] != keys[j]
    requires forall x :: x in nodes ==> IsBatchPlace(oob, lens, x)
    requires forall i :: 0 <= i < |lens| ==> HasNode(nodes, i)
    requires forall i :: 0 <= i < |es| ==> es[i].key == keys[i]
    requires forall a :: 0 <= a < |nodes| ==> nodes[a].lpa < |es| && es[nodes[a].lpa].ppa == nodes[a].ppa
    ensures BatchOk(es) && (set e | e in es :: e.ppa) == Ppas(nodes)
    ensures forall i :: 0 <= i < |es| ==> EntryIs(oob, keys, lens, es, i)
  {
    hide IsBatchPlace, HasNode, EntryIs, DistinctSlots;
    forall i | 0 <= i < |es| ensures EntryIs(oob, keys, lens, es, i) && es[i].ppa in Ppas(nodes) {
      var a := NodeOfEntry(oob, keys, lens, nodes, es, i);
      assert nodes[a] in nodes;
    }
    forall p | p in Ppas(nodes) ensures p in (set e | e in es :: e.ppa) {
      var a :| 0 <= a < |nodes| && nodes[a].ppa == p;
      assert es[nodes[a].lpa] in es;
    }
    forall i, j | 0 <= i < j < |es| ensures es[i].key != es[j].key && es[i].ppa != es[j].ppa {
      var a := NodeOfEntry(oob, keys, lens, nodes, es, i);
      var b := NodeOfEntry(oob, keys, lens, nodes, es, j);
      assert a < b || b < a;
    }
  }

  // Garbage collection leaves which slots are mapped, and the lengths behind them.
  lemma MeaningKeepsMapped(t0: seq<Pte>, oob0: seq<Oob>, t: seq<Pte>, oob: seq<Oob>)
    requires SameMeaning(t, oob, t0, oob0)
    ensures forall l :: 0 <= l < |t| ==> (t[l].ppa == NIL <==> t0[l].ppa == NIL)
    ensures |t| == |t0|
    ensures forall rk, k, len :: Holds(t, rk, oob, k, len) <==> Holds(t0, rk, oob0, k, len)
  {
    forall l | 0 <= l < |t|
      ensures t[l].ppa == NIL <==> t0[l].ppa == NIL
      ensures t[l].ppa != NIL ==>
        t[l].ppa < |oob| && t0[l].ppa < |oob0| && oob[t[l].ppa].length == oob0[t0[l].ppa].length
    {
      assert SameSlot(t[l], oob, t0[l], oob0);
    }
    forall rk, k, len ensures Holds(t, rk, oob, k, len) <==> Holds(t0, rk, oob0, k, len) {
      if Holds(t, rk, oob, k, len) {
        var l: nat :| Stores(t, rk, l, k) && t[l].ppa < |oob| && oob[t[l].ppa].length == len;
        assert Stores(t0, rk, l, k);
      }
      if Holds(t0, rk, oob0, k, len) {
        var l: nat :| Stores(t0, rk, l, k) && t0[l].ppa < |oob0| && oob0[t0[l].ppa].length == len;
        assert Stores(t, rk, l, k);
      }
    }
  }

  lemma BatchHeld(t0: seq<Pte>, rk0: seq<Key>, oob0: seq<Oob>, t1: seq<Pte>, oob1: seq<Oob>,
                  t: seq<Pte>, rk: seq<Key>, oob: seq<Oob>, keys: seq<Key>, lens: seq<nat>, es: seq<Entry>)
    requires |es| == |keys| == |lens| && forall i :: 0 <= i < |es| ==> EntryIs(oob1, keys, lens, es, i)
    requires forall e :: e in es ==> StoredAt(t, rk, e.key, e.ppa)
    requires OnlyBatch(t1, rk0, t, rk, Keyset(es)) && SameLengths(oob1, oob)
    requires forall k, len :: Holds(t1, rk0, oob1, k, len) <==> Holds(t0, rk0, oob0, k, len)
    ensures forall i :: 0 <= i < |keys| ==> Holds(t, rk, oob, keys[i], lens[i])
    ensures forall k, len :: k !in keys ==> (Holds(t, rk, oob, k, len) <==> Holds(t0, rk0, oob0, k, len))
  {
    forall i | 0 <= i < |keys| ensures Holds(t, rk, oob, keys[i], lens[i]) {
      assert EntryIs(oob1, keys, lens, es, i) && es[i] in es;
      assert StoredAt(t, rk, es[i].key, es[i].ppa);
    }
    forall k | k in Keyset(es) ensures k in keys {
      var e :| e in es && e.key == k;
      var i :| 0 <= i < |es| && es[i] == e;
      assert EntryIs(oob1, keys, lens, es, i);
    }
    forall k, len | k !in keys ensures Holds(t, rk, oob, k, len) <==> Holds(t1, rk0, oob1, k, len) {
      OthersHeld(t1, rk0, oob1, t, rk, oob, Keyset(es), k, len);
    }
  }

  lemma OthersHeld(t1: seq<Pte>, rk1: seq<Key>, oob1: seq<Oob>, t: seq<Pte>, rk: seq<Key>, oob: seq<Oob>,
                   keys: set<Key>, k: Key, len: nat)
    requires OnlyBatch(t1, rk1, t, rk, keys) && SameLengths(oob1, oob) && k !in keys
    ensures Holds(t, rk, oob, k, len) <==> Holds(t1, rk1, oob1, k, len)
  {
    if Holds(t, rk, oob, k, len) {
      var l: nat :| Stores(t, rk, l, k) && t[l].ppa < |oob| && oob[t[l].ppa].length == len;
      assert Stores(t1, rk1, l, k);
    }
    if Holds(t1, rk1, oob1, k, len) {
      var l: nat :| Stores(t1, rk1, l, k) && t1[l].ppa < |oob1| && oob1[t1[l].ppa].length == len;
      assert Stores(t, rk, l, k);
    }
  }

  // Pages neither in memory nor on flash stay so, but for `d`.
  ghost predicate StaysOut(res0: seq<bool>, tppa0: seq<nat>, res: seq<bool>, tppa: seq<nat>, d: int) {
    && |res0| == |tppa0| == |res| == |tppa|
    && forall e :: 0 <= e < |res| && e != d && !res0[e] && tppa0[e] == NIL ==> !res[e] && tppa[e] == NIL
  }

  // The pages of the slots from count `c0` up to `c` of the walk of `k` are in memory or on flash, `but` apart.
  ghost predicate OnHand(h: Hashing, k: Key, n: nat, res: seq<bool>, tppa: seq<nat>, but: int, c0: nat, c: nat) {
    && n > 0 && |res| == |tppa|
    && forall d: nat :: c0 <= d < c ==> PageOnHand(res, tppa, but, Dir(Slot(h, k, d, n)))
  }

  predicate PageOnHand(res: seq<bool>, tppa: seq<nat>, but: int, e: nat)
    requires |res| == |tppa|
  {
    e == but || (e < |res| && (res[e] || tppa[e] != NIL))
  }

  lemma OnHandMore(h: Hashing, k: Key, n: nat, res: seq<bool>, tppa: seq<nat>, but: int, c0: nat, c: nat)
    requires OnHand(h, k, n, res, tppa, but, c0, c) && PageOnHand(res, tppa, but, Dir(Slot(h, k, c, n)))
    ensures OnHand(h, k, n, res, tppa, but, c0, c + 1)
  {
    hide Slot;
  }

  lemma OnHandNone(h: Hashing, k: Key, n: nat, res: seq<bool>, tppa: seq<nat>, but: int, c0: nat)
    requires n > 0 && |res| == |tppa|
    ensures OnHand(h, k, n, res, tppa, but, c0, c0)
  {
  }

  // One stretch of a read behind another.
  lemma OnHandJoin(h: Hashing, k: Key, n: nat, res0: seq<bool>, tppa0: seq<nat>, res: seq<bool>, tppa: seq<nat>,
                   but: int,
                   c0: nat, c: nat, end: nat)
    requires OnHand(h, k, n, res0, tppa0, -1, 0, c0) && OnHand(h, k, n, res, tppa, but, c, end) && c <= c0
    requires StaysOut(res0, tppa0, res, tppa, -1) && forall d :: 0 <= d < |res| && d == but ==> res[d] || tppa[d] != NIL
    requires forall d: nat :: c <= d < end ==> Dir(Slot(h, k, d, n)) < |res|
    ensures OnHand(h, k, n, res0, tppa0, -1, 0, end)
  {
    hide Slot;
    forall d: nat | d < end ensures PageOnHand(res0, tppa0, -1, Dir(Slot(h, k, d, n))) {
      if d >= c { assert PageOnHand(res, tppa, but, Dir(Slot(h, k, d, n))); }
    }
  }

  // One page more is asked for: `d`, which is on hand unless it is the one exempt.
  lemma StaysStep(res0: seq<bool>, tppa0: seq<nat>, res1: seq<bool>, tppa1: seq<nat>, res: seq<bool>, tppa: seq<nat>,
                  but: int,
                  but1: int, d: nat)
    requires StaysOut(res0, tppa0, res1, tppa1, but) && StaysOut(res1, tppa1, res, tppa, d) && |res1| == |tppa1|
    requires PageOnHand(res1, tppa1, but1, d) && (but1 == but || but1 == -1)
    ensures StaysOut(res0, tppa0, res, tppa, but) && |res0| == |tppa0| && PageOnHand(res0, tppa0, but, d)
    ensures StaysIn(res0, tppa0, res1, tppa1) && StaysIn(res1, tppa1, res, tppa) ==> StaysIn(res0, tppa0, res, tppa)
  {
  }

  lemma StaysOn(res0: seq<bool>, tppa0: seq<nat>, res1: seq<bool>, tppa1: seq<nat>, res: seq<bool>, tppa: seq<nat>,
                d: int)
    requires StaysOut(res0, tppa0, res1, tppa1, -1) && StaysOut(res1, tppa1, res, tppa, d)
    requires 0 <= d < |res1| ==> res1[d] || tppa1[d] != NIL
    ensures StaysOut(res0, tppa0, res, tppa, -1)
    ensures StaysIn(res0, tppa0, res1, tppa1) && StaysIn(res1, tppa1, res, tppa) ==> StaysIn(res0, tppa0, res, tppa)
  {
  }

  // Before and after a stretch of a read.
  lemma StaysAtFirst(res: seq<bool>, tppa: seq<nat>, but: int)
    requires |res| == |tppa|
    ensures StaysOut(res, tppa, res, tppa, but) && StaysIn(res, tppa, res, tppa)
  {
  }

  // Pages in memory or on flash stay so.
  ghost predicate StaysIn(res0: seq<bool>, tppa0: seq<nat>, res: seq<bool>, tppa: seq<nat>) {
    && |res0| == |tppa0| == |res| == |tppa|
    && forall e :: 0 <= e < |res| && (res0[e] || tppa0[e] != NIL) ==> res[e] || tppa[e] != NIL
  }

  // A walk ends where its key is.
  lemma FoundPasses(h: Hashing, t: seq<Pte>, rk: seq<Key>, k: Key, end: nat)
    requires |t| == |rk| > 0 && end > 0 && rk[Slot(h, k, end - 1, |t|)] == k
    ensures forall c: nat :: WalksTo(h, t, rk, k, c) ==> c < end
  {
    hide Slot;
    forall c: nat | WalksTo(h, t, rk, k, c) ensures c < end {
      assert end <= c ==> Passes(h, t, rk, k, end - 1);
    }
  }

  // The pages of the slots at which open entries wait are in memory or on flash.
  ghost predicate WaitOnHand(h: Hashing, es: seq<Entry>, pr: seq<Progress>, n: nat, res: seq<bool>, tppa: seq<nat>) {
    && |pr| == |es| && n > 0 && |res| == |tppa|
    && forall i :: 0 <= i < |es| && !pr[i].done && pr[i].jump != Fresh ==>
         PageOnHand(res, tppa, -1, Dir(Slot(h, es[i].key, pr[i].cnt, n)))
  }

  lemma WaitStays(h: Hashing, es: seq<Entry>, pr: seq<Progress>, n: nat, res0: seq<bool>, tppa0: seq<nat>,
                  res: seq<bool>, tppa: seq<nat>)
    requires WaitOnHand(h, es, pr, n, res0, tppa0) && StaysIn(res0, tppa0, res, tppa)
    ensures WaitOnHand(h, es, pr, n, res, tppa)
  {
    hide Slot;
  }

  lemma WaitMore(h: Hashing, es: seq<Entry>, pr: seq<Progress>, n: nat, res: seq<bool>, tppa: seq<nat>, i: nat,
                 p: Progress)
    requires WaitOnHand(h, es, pr, n, res, tppa) && i < |es|
    requires !p.done && p.jump != Fresh ==> PageOnHand(res, tppa, -1, Dir(Slot(h, es[i].key, p.cnt, n)))
    ensures WaitOnHand(h, es, pr[i := p], n, res, tppa)
  {
    hide Slot;
  }

  // Entry `i` is stored on page `d`, which gives up its copy if it is in memory.
  lemma WaitDone(h: Hashing, es: seq<Entry>, pr: seq<Progress>, n: nat, res: seq<bool>, tppa: seq<nat>,
                 tppa': seq<nat>, i: nat, p: Progress, d: nat)
    requires WaitOnHand(h, es, pr, n, res, tppa) && i < |es| && p.done && d < |tppa|
    requires tppa' == if res[d] then tppa[d := NIL] else tppa
    ensures WaitOnHand(h, es, pr[i := p], n, res, tppa')
  {
    hide Slot;
  }

  lemma WaitStarts(h: Hashing, es: seq<Entry>, pr: seq<Progress>, n: nat, res: seq<bool>, tppa: seq<nat>)
    requires |pr| == |es| && n > 0 && |res| == |tppa| && forall i :: 0 <= i < |pr| ==> pr[i].jump == Fresh
    ensures WaitOnHand(h, es, pr, n, res, tppa)
  {
    hide Slot;
  }

  lemma WaitAt(h: Hashing, es: seq<Entry>, pr: seq<Progress>, n: nat, res: seq<bool>, tppa: seq<nat>, i: nat)
    requires WaitOnHand(h, es, pr, n, res, tppa) && i < |es| && !pr[i].done && pr[i].jump != Fresh
    ensures PageOnHand(res, tppa, -1, Dir(Slot(h, es[i].key, pr[i].cnt, n)))
  {
    hide Slot;
  }

  lemma CopyIsBacked(tppa: seq<nat>, dirty: seq<bool>, d: nat)
    requires |dirty| == |tppa| && d < |tppa|
    ensures tppa[d] != NIL ==> d in BackedBy(tppa, dirty)
  {
  }

  lemma SomeSet(s: seq<bool>)
    requires Count(s, IsSet, 0, |s|) > 0
    ensures exists v: nat :: v < |s| && s[v]
  {
    CountExtremes(s, IsSet, 0, |s|);
  }

  ghost predicate AnchoredBy(t: seq<Pte>, orphans: set<nat>, backed: set<nat>) {
    forall l :: 0 <= l < |t| && t[l].ppa != NIL ==> Dir(l) in orphans || Dir(l) in backed
  }

  // Slot `l` is written, on a page that has a copy or changes or becomes an orphan.
  lemma AnchoredPut(t: seq<Pte>, orphans: set<nat>, backed: set<nat>, l: nat, pte: Pte, orphans': set<nat>,
                    backed': set<nat>)
    requires AnchoredBy(t, orphans, backed) && orphans <= orphans' && backed <= backed' && l < |t|
    requires Dir(l) in orphans' || Dir(l) in backed'
    ensures AnchoredBy(t[l := pte], orphans', backed')
  {
  }

  // What the data check decides; see `Check`.
  datatype Verdict = Empty | Skip | Same | Different

  ghost predicate SameLengths(oob0: seq<Oob>, oob: seq<Oob>) {
    |oob| == |oob0| && forall g :: 0 <= g < |oob| ==> oob[g].length == oob0[g].length
  }

  // Where the walk of `k` ends, nowhere else `k` is stored.
  lemma OwnSlot(h: Hashing, t: seq<Pte>, rk: seq<Key>, maxTry: nat, k: Key, c: nat)
    requires TableOk(h, t, rk, maxTry) && WalksTo(h, t, rk, k, c)
    requires var l := Slot(h, k, c, |t|); t[l].ppa == NIL || rk[l] == k
    ensures forall m :: 0 <= m < |t| && t[m].ppa != NIL && rk[m] == k ==> m == Slot(h, k, c, |t|)
  {
    hide Slot;
    forall m | 0 <= m < |t| && t[m].ppa != NIL && rk[m] == k ensures m == Slot(h, k, c, |t|) {
      assert Reached(h, t, rk, m, maxTry);
      var d: nat :| d <= maxTry && HomeAt(h, t, rk, m, d);
      assert d < c ==> Passes(h, t, rk, k, d);
      assert c < d ==> Passes(h, t, rk, k, c);
    }
  }

  // A compared or skipped slot: the walk goes on behind it.
  lemma WalkOn(h: Hashing, t: seq<Pte>, rk: seq<Key>, k: Key, c: nat)
    requires |t| == |rk| > 0 && WalksTo(h, t, rk, k, c) && Passes(h, t, rk, k, c)
    ensures WalksTo(h, t, rk, k, c + 1)
  {
  }

  // A mapped slot with another fingerprint, or written by this batch, holds another key.
  lemma OtherKey(h: Hashing, t: seq<Pte>, rk: seq<Key>, maxTry: nat, bucket: seq<seq<nat>>, doneKeys: set<Key>,
                 k: Key, l: nat)
    requires TableOk(h, t, rk, maxTry) && l < |t| && t[l].ppa != NIL && k !in doneKeys
    requires WrittenOk(bucket, t, rk, doneKeys)
    requires t[l].fp != h.fp(k) || Listed(bucket, t[l].ppa, l)
    ensures rk[l] != k
  {
    if t[l].fp == h.fp(k) { assert IsWritten(t, rk, doneKeys, l); }
  }

  lemma OpenProgress(h: Hashing, t: seq<Pte>, rk: seq<Key>, es: seq<Entry>, pr: seq<Progress>, i: nat)
    requires AllProgressOk(h, t, rk, es, pr) && i < |es| && !pr[i].done && BatchOk(es)
    ensures WalksTo(h, t, rk, es[i].key, pr[i].cnt) && es[i].key !in DoneKeys(es, pr)
    ensures pr[i].jump == Rewrite ==> Stores(t, rk, Slot(h, es[i].key, pr[i].cnt, |t|), es[i].key)
  {
    assert ProgressOk(h, t, rk, es[i], pr[i]);
    OneMoreDone(es, pr, i, Progress(0, Fresh, true));
  }

  // Entry `i` waits to resume elsewhere.
  lemma Waits(h: Hashing, t: seq<Pte>, rk: seq<Key>, es: seq<Entry>, pr: seq<Progress>, i: nat, p: Progress)
    requires AllProgressOk(h, t, rk, es, pr) && i < |es| && !pr[i].done && !p.done && ProgressOk(h, t, rk, es[i], p)
    ensures AllProgressOk(h, t, rk, es, pr[i := p])
    ensures DoneKeys(es, pr[i := p]) == DoneKeys(es, pr) && OpenPpas(es, pr[i := p]) == OpenPpas(es, pr)
  {
    var pr' := pr[i := p];
    assert forall j :: 0 <= j < |es| ==> pr'[j].done == pr[j].done;
    forall j | 0 <= j < |es| ensures ProgressOk(h, t, rk, es[j], pr'[j]) {
      assert ProgressOk(h, t, rk, es[j], pr[j]);
    }
  }

  class KvStore {
    const store: Store
    const h: Hashing
    // Pages the cache takes (`max_cached_tpages`).
    const capacity: nat
    // The key stored in each slot, meaningful for mapped slots.
    var realKeys: seq<Key>
    // The largest count any key was stored at.
    var maxTry: nat
    // The batch table: per bucket, the slots written by the running batch.
    var written: seq<seq<nat>>
    // Translation pages that were written to after they had left the cache without a flash copy.
    ghost var orphans: set<nat>
    // How often a page left the cache without a flash copy.
    ghost var bare: nat

    // A mapped slot's page is dirty in memory or has a flash copy, unless it is an orphan.
    ghost predicate Anchored()
      requires |store.cache.dirty| == |store.cache.tppa|
      reads this, store.cache
    {
      AnchoredBy(store.cache.table, orphans, store.cache.Backed())
    }

    ghost predicate Inv()
      reads this, store, store.bm, store.cache, store.cache.bm
    {
      && store.Inv() && TableOk(h, store.cache.table, realKeys, maxTry) && maxTry <= MAX_HASH_COLLISION && Anchored()
      && capacity > 0 && (bare == 0 ==> orphans == {}) && (|store.cache.tppa| < capacity ==> bare == 0)
    }

    lemma InvFacts()
      requires Inv()
      ensures TableOk(h, store.cache.table, realKeys, maxTry) && store.cache.Inv()
        && |store.cache.table| == |realKeys| > 0
      ensures |store.cache.resident| == |store.cache.dirty| == |store.cache.tppa|
        && |realKeys| == |store.cache.tppa| * EPP
      ensures store.bm != store.cache.bm
    {
      hide LiveOk, OwnedOk, CountsOk, BelowPointers, MapOk, AllocOk, BackedBy;
    }

    // A read can get at slot `l`: its page is in memory or has a flash copy.
    predicate Readable(l: nat)
      requires Dir(l) < |store.cache.resident| == |store.cache.tppa|
      reads store.cache
    {
      store.cache.resident[Dir(l)] || store.cache.tppa[Dir(l)] != NIL
    }

    // The walk of `k` passes all the slots a key may be stored at.
    ghost predicate Overflows(k: Key)
      reads this, store, store.cache
    {
      |store.cache.table| == |realKeys| > 0 && WalksTo(h, store.cache.table, realKeys, k, MAX_HASH_COLLISION + 1)
    }

    /** A batch in the middle of its mapping update: open entries are placed and not mapped. */
    ghost predicate Running(es: seq<Entry>, pr: seq<Progress>)
      reads this, store, store.bm, store.cache, store.cache.bm
    {
      && Inv() && BatchOk(es) && AllProgressOk(h, store.cache.table, realKeys, es, pr)
      && WrittenOk(written, store.cache.table, realKeys, DoneKeys(es, pr))
      && store.placed == OpenPpas(es, pr) && (bare == 0 ==> Waiting(es, pr))
    }

    // The pages open entries wait at are on hand.
    ghost predicate Waiting(es: seq<Entry>, pr: seq<Progress>)
      reads this, store.cache
    {
      WaitOnHand(h, es, pr, |realKeys|, store.cache.resident, store.cache.tppa)
    }

    // The page of slot `l` is on hand.
    predicate HasPage(l: nat)
      reads store.cache
    {
      |store.cache.resident| == |store.cache.tppa| && PageOnHand(store.cache.resident, store.cache.tppa, -1, Dir(l))
    }

    predicate InMemory(l: nat)
      reads store.cache
    {
      Dir(l) < |store.cache.resident| && store.cache.resident[Dir(l)]
    }

    // How many pages are in memory.
    ghost function Cached(): nat
      reads store.cache
    {
      Count(store.cache.resident, IsSet, 0, |store.cache.resident|)
    }

    // The cache is full (`is_full`).
    predicate Full()
      reads store.cache
    {
      Count(store.cache.resident, IsSet, 0, |store.cache.resident|) >= capacity
    }

    // An empty store of `slots` translation pages, of which `capacity` fit in memory.
    constructor (h: Hashing, slots: nat, capacity: nat, n: nat, t: nat)
      requires 0 < slots && 0 < capacity && 3 <= n && n * GPS <= NIL && 3 <= t && t * PPS <= NIL
      ensures Inv() && store.placed == {} && orphans == {} && this.h == h && this.capacity == capacity
      ensures |store.cache.table| == slots * EPP
      ensures forall l :: 0 <= l < |store.cache.table| ==> store.cache.table[l].ppa == NIL
      ensures store.cache.tppa == seq(slots, _ => NIL)
        && store.cache.dirty == store.cache.resident == seq(slots, _ => false)
      ensures store.bm.n == n && store.dActive == -1
      ensures store.FreePages() == (n - 1) * PPS && (store.cache.Roomy() <==> slots <= (t - 1) * PPS)
      ensures fresh(store) && fresh(store.bm) && fresh(store.cache) && fresh(store.cache.bm)
    {
      this.h, this.capacity := h, capacity;
      store := new Store(slots, n, t);
      realKeys, maxTry, written, orphans, bare := seq(slots * EPP, _ => []), 0, [], {}, 0;
    }

    // The item slot `l` maps gives up its grains; from then on the slot is moving.
    method GiveUpOld(l: nat) returns (ghost moving: set<nat>)
      requires store.Inv() && l < |store.cache.table|
      modifies store`starts, store.bm`valid, store.bm`validCnt
      ensures store.Shape() && store.ItemsOk(moving)
      ensures moving == if store.cache.table[l].ppa == NIL then {} else {l}
    {
      hide LiveOk, OwnedOk, CountsOk, BelowPointers, MapOk, AllocOk;
      moving := {};
      var q := store.cache.table[l].ppa;
      if q != NIL {
        moving := {l};
        MappedItem(store.cache.table, store.bm.valid, store.bm.oob, store.starts, store.placed, {}, l);
        TakeAway(store.cache.table, store.bm.oob, store.starts, store.placed, {}, q);
        DropItem(store.starts, store.bm.valid, store.bm.oob, q);
        assert {} + {l} == {l};
        var len := store.bm.oob[q].length;
        for i := 0 to len
          invariant store.bm.Valid() && store.bm.valid == Fill(old(store.bm.valid), q, q + i, false)
          invariant store.starts == old(store.starts)
        {
          store.bm.InvalidateGrain(q + i);
        }
        store.starts := store.starts - {q};
      }
    }

    /** Slot `l` drops the item it maps, if any, and maps the placed item at `p`, which is labelled
        with the slot. */
    method Remap(l: nat, p: nat, fp: nat)
      requires store.Inv() && l < |store.cache.table| && p in store.placed
      modifies store`starts, store`placed, store.bm`valid, store.bm`validCnt, store.bm`oob
      modifies store.cache`tppa, store.cache`dirty, store.cache`table, store.cache.bm`valid, store.cache.bm`validCnt
      ensures store.Inv() && store.placed == old(store.placed) - {p}
      ensures store.cache.table == old(store.cache.table)[l := Pte(p, fp)]
      ensures p < |store.bm.oob| && p < NIL && store.bm.oob == old(store.bm.oob)[p := old(store.bm.oob[p].(lpa := l))]
      ensures old(store.cache.Backed()) <= store.cache.Backed()
      ensures store.cache.resident[Dir(l)] ==> Dir(l) in store.cache.Backed()
      ensures store.cache.tppa == if store.cache.resident[Dir(l)] then old(store.cache.tppa)[Dir(l) := NIL]
        else old(store.cache.tppa)
      ensures store.cache.dirty == if store.cache.resident[Dir(l)] then old(store.cache.dirty)[Dir(l) := true]
        else old(store.cache.dirty)
    {
      hide LiveOk, OwnedOk, CountsOk, BelowPointers, MapOk, AllocOk;
      PlacedItem(store.cache.table, store.bm.valid, store.bm.oob, store.starts, store.placed, {}, p);
      ghost var moving := GiveUpOld(l);
      ghost var t1 := store.cache.table;
      store.cache.Update(l, Pte(p, fp));
      var o := store.bm.oob[p].(lpa := l);
      MapPlaced(t1, store.bm.oob, store.starts, store.placed, moving, l, p, Pte(p, fp), o);
      RelabelItem(store.starts, store.bm.valid, store.bm.oob, p, o);
      store.bm.SetOob(p, o);
      store.placed := store.placed - {p};
      assert moving - {l} == {};
    }

    // Key `k` is stored at count `c` of its walk, with the placed item at `p`, and the slot listed.
    method Put(k: Key, p: nat, c: nat)
      requires Inv() && c <= MAX_HASH_COLLISION && p in store.placed && |store.cache.table| == |realKeys| > 0
      requires |written| == HT && WalksTo(h, store.cache.table, realKeys, k, c)
      requires var l := Slot(h, k, c, |store.cache.table|);
        (store.cache.table[l].ppa == NIL || realKeys[l] == k) && (bare == 0 ==> HasPage(l))
      modifies this`realKeys, this`maxTry, this`written, this`orphans
      modifies store`starts, store`placed, store.bm`valid, store.bm`validCnt, store.bm`oob
      modifies store.cache`tppa, store.cache`dirty, store.cache`table, store.cache.bm`valid, store.cache.bm`validCnt
      ensures Inv() && store.placed == old(store.placed) - {p}
      ensures var l := Slot(h, k, c, |old(store.cache.table)|);
        && store.cache.table == old(store.cache.table)[l := Pte(p, h.fp(k))]
        && realKeys == old(realKeys)[l := k] && written == AddListed(old(written), p, l) && p < NIL
        && orphans == old(orphans) + (if Readable(l) then {} else {Dir(l)})
        && store.cache.tppa ==
          (if store.cache.resident[Dir(l)] then old(store.cache.tppa)[Dir(l) := NIL] else old(store.cache.tppa))
        && store.cache.dirty ==
          (if store.cache.resident[Dir(l)] then old(store.cache.dirty)[Dir(l) := true] else old(store.cache.dirty))
      ensures SameLengths(old(store.bm.oob), store.bm.oob) && maxTry == if c > old(maxTry) then c else old(maxTry)
    {
      hide LiveOk, OwnedOk, CountsOk, BelowPointers, MapOk, AllocOk, Slot, TableOk, WalksTo, AnchoredBy, BackedBy,
           AddListed, Cache.Inv;
      InvFacts();
      ghost var t0, rk0 := store.cache.table, realKeys;
      var l := Slot(h, k, c, |store.cache.table|);
      Remap(l, p, h.fp(k));
      realKeys := realKeys[l := k];
      written := AddListed(written, p, l);
      maxTry := Max(maxTry, c);
      StoreKeeps(h, t0, rk0, old(maxTry), k, c, Pte(p, h.fp(k)));
      if !Readable(l) { orphans := orphans + {Dir(l)}; }
      CopyIsBacked(store.cache.tppa, store.cache.dirty, Dir(l));
      AnchoredPut(t0, old(orphans), old(store.cache.Backed()), l, Pte(p, h.fp(k)), orphans, store.cache.Backed());
    }

    /** `wb_update` and `wb_direct_update`: entry `i`, come to count `c`, is stored at its slot. */
    method Finish(es: seq<Entry>, pr: seq<Progress>, i: nat, c: nat) returns (pr': seq<Progress>)
      requires Running(es, pr) && i < |es| && !pr[i].done && c <= MAX_HASH_COLLISION
      requires WalksTo(h, store.cache.table, realKeys, es[i].key, c)
      requires var l := Slot(h, es[i].key, c, |store.cache.table|);
        (store.cache.table[l].ppa == NIL || realKeys[l] == es[i].key) && (bare == 0 ==> HasPage(l))
      modifies this, store`starts, store`placed, store.bm`valid, store.bm`validCnt, store.bm`oob
      modifies store.cache`tppa, store.cache`dirty, store.cache`table, store.cache.bm`valid, store.cache.bm`validCnt
      ensures Running(es, pr') && pr' == pr[i := Progress(c, Fresh, true)] && bare == old(bare)
      ensures var l := Slot(h, es[i].key, c, |old(store.cache.table)|);
        && store.cache.table == old(store.cache.table)[l := Pte(es[i].ppa, h.fp(es[i].key))]
        && realKeys == old(realKeys)[l := es[i].key] && es[i].ppa < NIL
        && orphans == old(orphans) + (if Readable(l) then {} else {Dir(l)})
        && store.cache.tppa ==
          (if store.cache.resident[Dir(l)] then old(store.cache.tppa)[Dir(l) := NIL] else old(store.cache.tppa))
        && store.cache.dirty ==
          (if store.cache.resident[Dir(l)] then old(store.cache.dirty)[Dir(l) := true] else old(store.cache.dirty))
      ensures SameLengths(old(store.bm.oob), store.bm.oob) && maxTry == if c > old(maxTry) then c else old(maxTry)
    {
      hide LiveOk, OwnedOk, CountsOk, BelowPointers, MapOk, AllocOk, Slot, TableOk, AllProgressOk, WrittenOk, WalksTo,
           BatchOk, WaitOnHand, AnchoredBy, BackedBy, DoneKeys, OpenPpas, AddListed, Inv;
      InvFacts();
      ghost var t0, rk0 := store.cache.table, realKeys;
      var k, p := es[i].key, es[i].ppa;
      var l := Slot(h, k, c, |store.cache.table|);
      ProgressShape(h, t0, rk0, es, pr);
      WrittenShape(written, t0, rk0, DoneKeys(es, pr));
      pr' := pr[i := Progress(c, Fresh, true)];
      OneMoreDone(es, pr, i, pr'[i]);
      assert p in store.placed;
      OwnSlot(h, t0, rk0, maxTry, k, c);
      Put(k, p, c);
      EntryStored(h, t0, rk0, old(maxTry), es, pr, i, c);
      WrittenMore(old(written), t0, rk0, DoneKeys(es, pr), l, k, Pte(p, h.fp(k)));
      if bare == 0 {
        WaitDone(h, es, pr, |realKeys|, old(store.cache.resident), old(store.cache.tppa), store.cache.tppa, i, pr'[i],
          Dir(l));
      }
    }

    // `list_up`: page `d` comes into memory, when the cache is full for a page it chooses.
    method BringIn(d: nat) returns (ok: bool, wrote: bool)
      requires Inv() && d < |store.cache.tppa|
      modifies this`bare, store.cache`tppa, store.cache`dirty, store.cache`resident
      modifies store.cache`tActive, store.cache`tReserve, store.cache.bm
      ensures !ok ==> store.cache.Stuck() && !old(store.cache.Roomy())
      ensures ok ==> Inv() && store.cache.resident[d] && (old(store.cache.Roomy()) ==> store.cache.Roomy())
      ensures ok && old(Cached()) < capacity ==> store.cache.resident == old(store.cache.resident)[d := true]
      ensures ok && old(Cached()) <= capacity ==> Cached() <= capacity
      ensures ok ==> old(store.cache.Backed()) <= store.cache.Backed() && old(bare) <= bare
      ensures ok ==> StaysOut(old(store.cache.resident), old(store.cache.tppa), store.cache.resident, store.cache.tppa,
        d)
      ensures ok && bare == old(bare) ==>
        StaysIn(old(store.cache.resident), old(store.cache.tppa), store.cache.resident, store.cache.tppa)
    {
      hide LiveOk, OwnedOk, CountsOk, BelowPointers, MapOk, AllocOk, TableOk, BackedBy, Count;
      assert store.cache.Shape();
      var victim: int := -1;
      if Full() {
        SomeSet(store.cache.resident);
        var v: nat :| v < |store.cache.resident| && store.cache.resident[v];
        victim := v;
      }
      ok, wrote := BringInFor(d, victim);
    }

    // The same with the page that leaves, or -1, given.
    method BringInFor(d: nat, victim: int) returns (ok: bool, wrote: bool)
      requires Inv() && d < |store.cache.tppa| && -1 <= victim < |store.cache.tppa|
      requires |store.cache.resident| == |store.cache.tppa| && (victim != -1 <==> Full())
        && (victim != -1 ==> store.cache.resident[victim])
      modifies this`bare, store.cache`tppa, store.cache`dirty, store.cache`resident
      modifies store.cache`tActive, store.cache`tReserve, store.cache.bm
      ensures wrote <==> victim != -1 && |old(store.cache.dirty)| > victim && old(store.cache.dirty)[victim]
      ensures !ok ==> store.cache.Stuck() && !old(store.cache.Roomy())
      ensures ok ==> Inv() && store.cache.resident[d] && (old(store.cache.Roomy()) ==> store.cache.Roomy())
      ensures ok ==>
        store.cache.resident ==
        (if victim == -1 then old(store.cache.resident) else old(store.cache.resident)[victim := false])[d := true]
      ensures ok && old(Cached()) <= capacity ==> Cached() <= capacity
      ensures ok ==> store.cache.dirty == if victim == -1 then old(store.cache.dirty)
        else old(store.cache.dirty)[victim := false]
      ensures ok ==> |store.cache.tppa| == |old(store.cache.tppa)| && forall f :: 0 <= f < |store.cache.tppa| ==>
        (store.cache.tppa[f] != NIL <==> old(store.cache.tppa[f]) != NIL || (f == victim && old(store.cache.dirty)[f]))
      ensures ok ==> old(store.cache.Backed()) <= store.cache.Backed()
      ensures bare == old(bare) + if victim != -1
        && old(!store.cache.dirty[victim] && store.cache.tppa[victim] == NIL) then 1 else 0
      ensures ok ==> StaysOut(old(store.cache.resident), old(store.cache.tppa), store.cache.resident, store.cache.tppa,
        d)
      ensures ok && bare == old(bare) ==>
        StaysIn(old(store.cache.resident), old(store.cache.tppa), store.cache.resident, store.cache.tppa)
    {
      hide LiveOk, OwnedOk, CountsOk, BelowPointers, MapOk, AllocOk, TableOk, BackedBy, Count;
      assert store.cache.Shape();
      if victim != -1 && !store.cache.dirty[victim] && store.cache.tppa[victim] == NIL { bare := bare + 1; }
      ghost var r0 := store.cache.resident;
      ghost var r1 := if victim == -1 then r0 else r0[victim := false];
      if victim != -1 { CountUpdate(r0, IsSet, 0, |r0|, victim, false); }
      CountUpdate(r1, IsSet, 0, |r1|, d, true);
      ok, wrote := store.cache.ListUp(d, victim);
    }

    /** What a slot in memory tells entry `i`: store here, walk on at once, or wait for a key read. */
    method Check(es: seq<Entry>, pr: seq<Progress>, i: nat, c: nat, l: nat) returns (v: Verdict)
      requires Running(es, pr) && i < |es| && !pr[i].done && WalksTo(h, store.cache.table, realKeys, es[i].key, c)
      requires l == Slot(h, es[i].key, c, |store.cache.table|)
      ensures v == Empty <==> store.cache.table[l].ppa == NIL
      ensures
        var ruledOut := store.cache.table[l].fp != h.fp(es[i].key)
          || (|written| == HT && Listed(written, store.cache.table[l].ppa, l));
        v == Skip <==> store.cache.table[l].ppa != NIL && ruledOut
      ensures v == Different ==> realKeys[l] != es[i].key
      ensures v == Skip || v == Different ==> WalksTo(h, store.cache.table, realKeys, es[i].key, c + 1)
      ensures v == Same ==> Stores(store.cache.table, realKeys, l, es[i].key)
    {
      hide LiveOk, OwnedOk, CountsOk, BelowPointers, MapOk, AllocOk, TableOk, BackedBy, AllProgressOk, WrittenOk,
           WalksTo, Slot, BatchOk;
      var k := es[i].key;
      var pte := store.cache.table[l];
      if pte.ppa == NIL { return Empty; }
      ProgressShape(h, store.cache.table, realKeys, es, pr);
      WrittenShape(written, store.cache.table, realKeys, DoneKeys(es, pr));
      OpenProgress(h, store.cache.table, realKeys, es, pr, i);
      CmpMeans(k, realKeys[l]);
      if pte.fp != h.fp(k) || Listed(written, pte.ppa, l) {
        OtherKey(h, store.cache.table, realKeys, maxTry, written, DoneKeys(es, pr), k, l);
        v := Skip;
      } else if Cmp(k, realKeys[l]) == 0 {
        return Same;
      } else {
        v := Different;
      }
      WalkOn(h, store.cache.table, realKeys, k, c);
    }

    /** Entry `i` runs from where it resumes until it is stored or has to wait; `ok` is false when the
        source aborts. */
    method Advance(es: seq<Entry>, pr: seq<Progress>, i: nat, ghost t0: seq<Pte>, ghost rk0: seq<Key>,
                   ghost oob0: seq<Oob>)
      returns (ok: bool, pr': seq<Progress>)
      requires Running(es, pr) && i < |es| && !pr[i].done
      requires OnlyBatch(t0, rk0, store.cache.table, realKeys, Keyset(es)) && SameLengths(oob0, store.bm.oob)
      modifies this, store`starts, store`placed, store.bm`valid, store.bm`validCnt, store.bm`oob
      modifies store.cache, store.cache.bm
      ensures !ok ==> Overflows(es[i].key) || (store.cache.Stuck() && !old(store.cache.Roomy()))
      ensures !ok && old(store.cache.Roomy()) ==>
        Running(es, pr') && OnlyBatch(t0, rk0, store.cache.table, realKeys, Keyset(es))
      ensures ok && old(store.cache.Roomy()) ==> store.cache.Roomy()
      ensures ok ==> Running(es, pr') && |pr'| == |pr| && AllLeft(pr') < AllLeft(pr)
      ensures ok ==> OnlyBatch(t0, rk0, store.cache.table, realKeys, Keyset(es)) && SameLengths(oob0, store.bm.oob)
      ensures ok ==> old(orphans) <= orphans && old(maxTry) <= maxTry
    {
      hide LiveOk, OwnedOk, CountsOk, BelowPointers, MapOk, AllocOk, TableOk, BackedBy, AllProgressOk, WrittenOk,
           WalksTo, Slot, BatchOk, OnlyBatch, Left, NoTarget, StaysOut,
           StaysIn, Inv, WaitOnHand;
      ProgressShape(h, store.cache.table, realKeys, es, pr);
      var c, jump := pr[i].cnt, pr[i].jump;
      pr' := pr;
      OpenProgress(h, store.cache.table, realKeys, es, pr, i);
      if jump == Rewrite && c <= MAX_HASH_COLLISION {
        LeftDrops(c, jump);
        InvFacts();
        if bare == 0 { WaitAt(h, es, pr, |realKeys|, store.cache.resident, store.cache.tppa, i); }
        pr' := Finishing(es, pr, i, c, t0, rk0, oob0);
        return true, pr';
      }
      while true
        invariant Running(es, pr) && |store.cache.table| == |realKeys| > 0
          && WalksTo(h, store.cache.table, realKeys, es[i].key, c)
        invariant (old(store.cache.Roomy()) ==> store.cache.Roomy()) && (jump == Rewrite ==> c > MAX_HASH_COLLISION)
        invariant jump == Fresh || (jump == pr[i].jump && c == pr[i].cnt)
        invariant Left(Progress(c, jump, false)) <= Left(pr[i]) && orphans == old(orphans) && maxTry == old(maxTry)
        invariant OnlyBatch(t0, rk0, store.cache.table, realKeys, Keyset(es)) && SameLengths(oob0, store.bm.oob)
        decreases MAX_HASH_COLLISION + 1 - c
      {
        if c > MAX_HASH_COLLISION {
          WalkShorter(h, store.cache.table, realKeys, es[i].key, c, MAX_HASH_COLLISION + 1);
          return false, pr;
        }
        LeftDrops(c, jump);
        InvFacts();
        var go;
        ok, go, pr' := Acquire(es, pr, i, c, jump);
        if !ok || !go { return; }
        go, pr' := Decide(es, pr, i, c, jump, t0, rk0, oob0);
        if !go { return true, pr'; }
        c, jump := c + 1, Fresh;
      }
    }

    // The page of count `c` is brought in, unless entry `i` has to wait for it.
    method Acquire(es: seq<Entry>, pr: seq<Progress>, i: nat, c: nat, jump: Jump)
      returns (ok: bool, go: bool, pr': seq<Progress>)
      requires Running(es, pr) && i < |es| && !pr[i].done && c <= MAX_HASH_COLLISION && jump != Rewrite
      requires jump == Fresh || (jump == pr[i].jump && c == pr[i].cnt)
      requires WalksTo(h, store.cache.table, realKeys, es[i].key, c) && Left(Progress(c, jump, false)) <= Left(pr[i])
      modifies this`bare, store.cache`tppa, store.cache`dirty, store.cache`resident
      modifies store.cache`tActive, store.cache`tReserve, store.cache.bm
      ensures !ok ==> store.cache.Stuck() && !old(store.cache.Roomy())
      ensures ok ==> old(store.cache.Roomy()) ==> store.cache.Roomy()
      ensures ok && go ==> Running(es, pr)
      ensures ok && go && bare == 0 ==> HasPage(Slot(h, es[i].key, c, |realKeys|))
      ensures ok && go && jump != Complete ==> InMemory(Slot(h, es[i].key, c, |realKeys|))
      ensures ok && !go ==> Running(es, pr') && |pr'| == |pr| && AllLeft(pr') < AllLeft(pr)
    {
      hide LiveOk, OwnedOk, CountsOk, BelowPointers, MapOk, AllocOk, TableOk, BackedBy, AllProgressOk, WrittenOk,
           WalksTo, Slot, BatchOk, OnlyBatch, Left,
           NoTarget, StaysOut, StaysIn, WaitOnHand;
      ProgressShape(h, store.cache.table, realKeys, es, pr);
      LeftDrops(c, jump);
      go, pr' := true, pr;
      var next;
      ghost var res, tppa := store.cache.resident, store.cache.tppa;
      if bare == 0 && jump == Complete { WaitAt(h, es, pr, |realKeys|, res, tppa, i); }
      ok, next := Fetch(jump, Dir(Slot(h, es[i].key, c, |store.cache.table|)));
      if ok && bare == 0 { WaitStays(h, es, pr, |realKeys|, res, tppa, store.cache.resident, store.cache.tppa); }
      if ok && next != Fresh {
        go := false;
        pr' := Suspend(es, pr, i, Progress(c, next, false));
      }
    }

    // The data check at count `c`: entry `i` is stored, waits, or walks on.
    method Decide(es: seq<Entry>, pr: seq<Progress>, i: nat, c: nat, jump: Jump, ghost t0: seq<Pte>,
                  ghost rk0: seq<Key>,
                  ghost oob0: seq<Oob>)
      returns (go: bool, pr': seq<Progress>)
      requires Running(es, pr) && i < |es| && !pr[i].done && c <= MAX_HASH_COLLISION
      requires WalksTo(h, store.cache.table, realKeys, es[i].key, c)
      requires bare == 0 ==> HasPage(Slot(h, es[i].key, c, |realKeys|))
      requires jump != Rewrite && Left(Progress(c, jump, false)) <= Left(pr[i])
      requires OnlyBatch(t0, rk0, store.cache.table, realKeys, Keyset(es)) && SameLengths(oob0, store.bm.oob)
      modifies this, store`starts, store`placed, store.bm`valid, store.bm`validCnt, store.bm`oob
      modifies store.cache`tppa, store.cache`dirty, store.cache`table, store.cache.bm`valid, store.cache.bm`validCnt
      ensures go ==> unchanged(this) && unchanged(store, store.bm, store.cache, store.cache.bm)
      ensures go ==> WalksTo(h, store.cache.table, realKeys, es[i].key, c + 1)
      ensures !go ==> Running(es, pr') && |pr'| == |pr| && AllLeft(pr') < AllLeft(pr)
      ensures !go ==> OnlyBatch(t0, rk0, store.cache.table, realKeys, Keyset(es)) && SameLengths(oob0, store.bm.oob)
      ensures !go ==> old(orphans) <= orphans && old(maxTry) <= maxTry
      ensures !go && old(store.cache.Roomy()) ==> store.cache.Roomy()
    {
      hide LiveOk, OwnedOk, CountsOk, BelowPointers, MapOk, AllocOk, TableOk, BackedBy, AllProgressOk, WrittenOk,
           WalksTo, Slot, BatchOk, OnlyBatch, Left, WaitOnHand, HasPage;
      ProgressShape(h, store.cache.table, realKeys, es, pr);
      LeftDrops(c, jump);
      go, pr' := false, pr;
      var l := Slot(h, es[i].key, c, |store.cache.table|);
      var v := Check(es, pr, i, c, l);
      match v {
        case Empty => pr' := Finishing(es, pr, i, c, t0, rk0, oob0);
        case Same => pr' := Suspend(es, pr, i, Progress(c, Rewrite, false));
        case Different => pr' := Suspend(es, pr, i, Progress(c + 1, Fresh, false));
        case Skip => go := true;
      }
    }

    // Page `d` is made available; `next` is where to resume when that takes a flash operation, else `Fresh`.
    method Fetch(jump: Jump, d: nat) returns (ok: bool, next: Jump)
      requires Inv() && d < |store.cache.tppa|
      modifies this`bare, store.cache`tppa, store.cache`dirty, store.cache`resident
      modifies store.cache`tActive, store.cache`tReserve, store.cache.bm
      ensures !ok ==> store.cache.Stuck() && !old(store.cache.Roomy())
      ensures ok ==> Inv() && |store.cache.tppa| == old(|store.cache.tppa|)
      ensures ok && old(store.cache.Roomy()) ==> store.cache.Roomy()
      ensures ok ==> old(store.cache.Backed()) <= store.cache.Backed() && old(bare) <= bare
      ensures ok ==> StaysOut(old(store.cache.resident), old(store.cache.tppa), store.cache.resident, store.cache.tppa,
        d)
      ensures ok && bare == old(bare) ==>
        StaysIn(old(store.cache.resident), old(store.cache.tppa), store.cache.resident, store.cache.tppa)
      ensures ok && next != Fresh ==> store.cache.resident[d] || store.cache.tppa[d] != NIL
      ensures next == Fresh || (next == ListUp && jump == Fresh)
        || (next == Complete && (jump == Fresh || jump == ListUp))
      ensures ok && jump == Fresh && next != ListUp ==> store.cache.resident[d]
      ensures ok && jump == ListUp ==> store.cache.resident[d]
      ensures jump != Fresh && jump != ListUp ==> unchanged(this) && unchanged(store.cache)
    {
      hide LiveOk, OwnedOk, CountsOk, BelowPointers, MapOk, AllocOk, TableOk, BackedBy;
      ok, next := true, Fresh;
      assert store.cache.Shape();
      if jump == ListUp || (jump == Fresh && !store.cache.resident[d]) {
        if jump == Fresh && store.cache.tppa[d] != NIL { return true, ListUp; }
        var wrote;
        ok, wrote := BringIn(d);
        if wrote { next := Complete; }
      }
    }

    // Entry `i` goes back to the retry queue.
    method Suspend(es: seq<Entry>, pr: seq<Progress>, i: nat, p: Progress) returns (pr': seq<Progress>)
      requires Running(es, pr) && i < |es| && !pr[i].done && !p.done && Left(p) < Left(pr[i])
      requires ProgressOk(h, store.cache.table, realKeys, es[i], p)
      requires bare == 0 && p.jump != Fresh && |realKeys| > 0 ==> HasPage(Slot(h, es[i].key, p.cnt, |realKeys|))
      ensures Running(es, pr') && pr' == pr[i := p] && AllLeft(pr') < AllLeft(pr)
    {
      hide LiveOk, OwnedOk, CountsOk, BelowPointers, MapOk, AllocOk, TableOk, BackedBy, AllProgressOk, WrittenOk,
           WalksTo, Slot, BatchOk, WaitOnHand;
      ProgressShape(h, store.cache.table, realKeys, es, pr);
      Waits(h, store.cache.table, realKeys, es, pr, i, p);
      LeftUpdate(pr, i, p);
      if bare == 0 { WaitMore(h, es, pr, |realKeys|, store.cache.resident, store.cache.tppa, i, p); }
      pr' := pr[i := p];
    }

    // Entry `i` is stored.
    method Finishing(es: seq<Entry>, pr: seq<Progress>, i: nat, c: nat, ghost t0: seq<Pte>, ghost rk0: seq<Key>,
                     ghost oob0: seq<Oob>)
      returns (pr': seq<Progress>)
      requires Running(es, pr) && i < |es| && !pr[i].done && c <= MAX_HASH_COLLISION
      requires WalksTo(h, store.cache.table, realKeys, es[i].key, c)
      requires var l := Slot(h, es[i].key, c, |store.cache.table|);
        (store.cache.table[l].ppa == NIL || realKeys[l] == es[i].key) && (bare == 0 ==> HasPage(l))
      requires OnlyBatch(t0, rk0, store.cache.table, realKeys, Keyset(es)) && SameLengths(oob0, store.bm.oob)
      modifies this, store`starts, store`placed, store.bm`valid, store.bm`validCnt, store.bm`oob
      modifies store.cache`tppa, store.cache`dirty, store.cache`table, store.cache.bm`valid, store.cache.bm`validCnt
      ensures Running(es, pr') && |pr'| == |pr| && AllLeft(pr') < AllLeft(pr)
      ensures OnlyBatch(t0, rk0, store.cache.table, realKeys, Keyset(es)) && SameLengths(oob0, store.bm.oob)
      ensures old(orphans) <= orphans && old(maxTry) <= maxTry && (old(store.cache.Roomy()) ==> store.cache.Roomy())
    {
      hide LiveOk, OwnedOk, CountsOk, BelowPointers, MapOk, AllocOk, TableOk, BackedBy, AllProgressOk, WrittenOk,
           WalksTo, Slot, BatchOk, OnlyBatch, WaitOnHand, HasPage;
      ghost var t, rk := store.cache.table, realKeys;
      ProgressShape(h, t, rk, es, pr);
      pr' := Finish(es, pr, i, c);
      assert es[i] in es;
      OnlyBatchMore(t0, rk0, t, rk, Keyset(es), Slot(h, es[i].key, c, |t|), es[i].key, Pte(es[i].ppa, h.fp(es[i].key)));
      LeftUpdate(pr, i, pr'[i]);
    }

    /** `_do_wb_mapping_update` on a placed batch, the ready entry being any open one at each turn.
        Every key of the batch ends up stored with its new item, and nothing stored under any other
        key has changed, even if it fails over a key with no slot. */
    method MappingUpdate(es: seq<Entry>) returns (ok: bool)
      requires Inv() && BatchOk(es) && written == seq(HT, _ => [])
      requires store.placed == set e | e in es :: e.ppa
      modifies this, store`starts, store`placed, store.bm`valid, store.bm`validCnt, store.bm`oob
      modifies store.cache, store.cache.bm
      ensures !ok ==> (exists e :: e in es && Overflows(e.key)) || (store.cache.Stuck() && !old(store.cache.Roomy()))
      ensures !ok && old(store.cache.Roomy()) ==>
        Inv() && OnlyBatch(old(store.cache.table), old(realKeys), store.cache.table, realKeys, Keyset(es))
      ensures ok ==> forall e :: e in es ==> !old(Overflows(e.key))
      ensures ok && old(store.cache.Roomy()) ==> store.cache.Roomy()
      ensures ok ==> Inv() && store.placed == {}
      ensures ok ==> forall e :: e in es ==> StoredAt(store.cache.table, realKeys, e.key, e.ppa)
      ensures ok ==> OnlyBatch(old(store.cache.table), old(realKeys), store.cache.table, realKeys, Keyset(es))
      ensures ok ==> SameLengths(old(store.bm.oob), store.bm.oob)
      ensures ok ==> old(orphans) <= orphans && old(maxTry) <= maxTry
    {
      hide LiveOk, OwnedOk, CountsOk, BelowPointers, MapOk, AllocOk, TableOk, BackedBy, AllProgressOk, WrittenOk,
           BatchOk, OnlyBatch, WalksTo, NoTarget, WaitOnHand;
      var pr := seq(|es|, _ => Progress(0, Fresh, false));
      InvFacts();
      WaitStarts(h, es, pr, |realKeys|, store.cache.resident, store.cache.tppa);
      BatchStarts(h, store.cache.table, realKeys, maxTry, es, pr, written);
      while exists i :: 0 <= i < |pr| && !pr[i].done
        invariant Running(es, pr) && |pr| == |es| && (old(store.cache.Roomy()) ==> store.cache.Roomy())
        invariant OnlyBatch(old(store.cache.table), old(realKeys), store.cache.table, realKeys, Keyset(es))
        invariant SameLengths(old(store.bm.oob), store.bm.oob)
        invariant old(orphans) <= orphans && old(maxTry) <= maxTry
        decreases AllLeft(pr)
      {
        var i :| 0 <= i < |pr| && !pr[i].done;
        ok, pr := Advance(es, pr, i, old(store.cache.table), old(realKeys), old(store.bm.oob));
        if !ok {
          assert es[i] in es;
          return;
        }
      }
      BatchEnds(h, store.cache.table, realKeys, es, pr);
      StoredNotOver(h, old(store.cache.table), old(realKeys), store.cache.table, realKeys, maxTry, es);
      ok := true;
    }

    // On its way to its slot the walk of `k` meets a page neither in memory nor on flash.
    ghost predicate MeetsUnreadable(k: Key)
      reads this, store, store.cache
    {
      && |store.cache.table| == |realKeys| > 0 && |store.cache.table| == |store.cache.tppa| * EPP
      && |store.cache.resident| == |store.cache.tppa|
      && exists c: nat :: WalksTo(h, store.cache.table, realKeys, k, c) && !Readable(Slot(h, k, c, |store.cache.table|))
    }

    // It meets a page with neither a flash copy nor changes kept in memory: one that can become unreadable.
    ghost predicate MeetsUnbacked(k: Key)
      reads this, store, store.cache
    {
      && |store.cache.table| == |realKeys| > 0 && |store.cache.dirty| == |store.cache.tppa|
      && exists c: nat :: WalksTo(h, store.cache.table, realKeys, k, c)
                          && Dir(Slot(h, k, c, |store.cache.table|)) !in store.cache.Backed()
    }

    // The page a resumed read has waited for; -1 for a fresh one.
    function ResumedAt(k: Key, c: nat, jump: Jump): int
      requires |store.cache.table| > 0
      reads this, store, store.cache
    {
      if jump == Fresh then -1 else Dir(Slot(h, k, c, |store.cache.table|))
    }

    /** `__demand_get` behind a buffer miss, from where it resumes to where it ends or waits.  What it
        finds is stored; it passes readable pages only; and it misses a stored key only at a page that is
        not readable and had neither a copy nor changes in memory when the read went on. */
    method ReadOn(k: Key, c0: nat, jump0: Jump) returns (r: ReadStep, ghost end: nat)
      requires Inv() && OnTrack(h, store.cache.table, realKeys, k, c0)
      modifies this`bare, store.cache`tppa, store.cache`dirty, store.cache`resident
      modifies store.cache`tActive, store.cache`tReserve, store.cache.bm
      ensures r.ReadAborted? ==> store.cache.Stuck() && !old(store.cache.Roomy())
      ensures !r.ReadAborted? ==> Inv() && (old(store.cache.Roomy()) ==> store.cache.Roomy()) && old(bare) <= bare
      ensures !r.ReadAborted? ==> old(store.cache.Backed()) <= store.cache.Backed()
      ensures !r.ReadAborted? ==>
        StaysOut(old(store.cache.resident), old(store.cache.tppa), store.cache.resident, store.cache.tppa,
          ResumedAt(k, c0, jump0))
      ensures !r.ReadAborted? && bare == old(bare) ==>
        StaysIn(old(store.cache.resident), old(store.cache.tppa), store.cache.resident, store.cache.tppa)
      ensures !r.ReadAborted? ==>
        c0 <= end && OnHand(h, k, |realKeys|, old(store.cache.resident), old(store.cache.tppa),
          ResumedAt(k, c0, jump0), c0, end)
      ensures r.Found? ==>
        Stores(store.cache.table, realKeys, r.l, k) && end > 0 && r.l == Slot(h, k, end - 1, |store.cache.table|)
      ensures r.NotFound? && IsStored(store.cache.table, realKeys, k) ==>
        var l := Slot(h, k, end, |store.cache.table|);
        && WalksTo(h, store.cache.table, realKeys, k, end) && !Readable(l) && Dir(l) in orphans
        && Dir(l) !in old(store.cache.Backed())
      ensures r.Later? ==>
        OnTrack(h, store.cache.table, realKeys, k, r.c)
        && r.c == (if r.jump == Fresh then end else end - 1) <= maxTry + 1
      ensures r.Later? && r.jump != Fresh ==> end > 0 && Readable(Slot(h, k, r.c, |store.cache.table|))
      ensures r.Later? ==>
        r.c > c0 || (r.c == c0 && jump0 == Fresh && r.jump != Fresh)
        || (r.c == c0 && jump0 == ListUp && r.jump == Complete)
    {
      hide LiveOk, OwnedOk, CountsOk, BelowPointers, MapOk, AllocOk, TableOk, BackedBy, WalksTo, Slot, OnTrack,
           IsStored, NoTarget, StaysOut, StaysIn, OnHand, PageOnHand, Inv, Cache.Inv, AnchoredBy;
      InvFacts();
      TrackStarts(h, store.cache.table, realKeys, maxTry, k);
      var c, jump := c0, jump0;
      end := c0;
      StaysAtFirst(store.cache.resident, store.cache.tppa, ResumedAt(k, c0, jump0));
      OnHandNone(h, k, |realKeys|, store.cache.resident, store.cache.tppa, ResumedAt(k, c0, jump0), c0);
      while c <= maxTry
        invariant c0 <= c == end && (c == c0 ==> jump == jump0) && (c != c0 ==> jump == Fresh)
        invariant Inv() && |store.cache.table| == |realKeys| > 0 && |realKeys| == |store.cache.tppa| * EPP
        invariant |store.cache.resident| == |store.cache.dirty| == |store.cache.tppa|
        invariant OnTrack(h, store.cache.table, realKeys, k, c)
        invariant (old(store.cache.Roomy()) ==> store.cache.Roomy()) && old(bare) <= bare
        invariant old(store.cache.Backed()) <= store.cache.Backed()
        invariant StaysOut(old(store.cache.resident), old(store.cache.tppa), store.cache.resident, store.cache.tppa,
          ResumedAt(k, c0, jump0))
        invariant bare == old(bare) ==>
          StaysIn(old(store.cache.resident), old(store.cache.tppa), store.cache.resident, store.cache.tppa)
        invariant OnHand(h, k, |realKeys|, old(store.cache.resident), old(store.cache.tppa), ResumedAt(k, c0, jump0),
          c0, c)
        decreases maxTry + 1 - c
      {
        ghost var res1, tppa1 := store.cache.resident, store.cache.tppa;
        var go, passed;
        go, r, passed := ReadSlot(k, c, jump);
        if !passed { return; }
        InvFacts();
        StaysStep(old(store.cache.resident), old(store.cache.tppa), res1, tppa1, store.cache.resident, store.cache.tppa,
                  ResumedAt(k, c0, jump0), ResumedAt(k, c, jump), Dir(Slot(h, k, c, |store.cache.table|)));
        OnHandMore(h, k, |realKeys|, old(store.cache.resident), old(store.cache.tppa), ResumedAt(k, c0, jump0), c0, c);
        end := c + 1;
        if !go { return; }
        c, jump := c + 1, Fresh;
      }
      StaysOnTrack(h, store.cache.table, realKeys, maxTry, k, c);
      r := NotFound;
    }

    // The slot at count `c` of a read: where it ends or waits, unless it goes on; `passed` tells whether the
    // slot's page was there or could be read.
    method ReadSlot(k: Key, c: nat, jump: Jump) returns (go: bool, r: ReadStep, passed: bool)
      requires Inv() && |store.cache.table| == |realKeys| > 0 && OnTrack(h, store.cache.table, realKeys, k, c)
        && c <= maxTry
      modifies this`bare, store.cache`tppa, store.cache`dirty, store.cache`resident
      modifies store.cache`tActive, store.cache`tReserve, store.cache.bm
      ensures r.ReadAborted? ==> store.cache.Stuck() && !old(store.cache.Roomy()) && !passed
      ensures !r.ReadAborted? ==> Inv() && (old(store.cache.Roomy()) ==> store.cache.Roomy()) && old(bare) <= bare
      ensures !r.ReadAborted? ==> old(store.cache.Backed()) <= store.cache.Backed()
      ensures !r.ReadAborted? ==>
        StaysOut(old(store.cache.resident), old(store.cache.tppa), store.cache.resident, store.cache.tppa,
                 if passed then Dir(Slot(h, k, c, |store.cache.table|)) else -1)
      ensures !r.ReadAborted? && bare == old(bare) ==>
        StaysIn(old(store.cache.resident), old(store.cache.tppa), store.cache.resident, store.cache.tppa)
      ensures passed ==>
        PageOnHand(old(store.cache.resident), old(store.cache.tppa), ResumedAt(k, c, jump),
        Dir(Slot(h, k, c, |store.cache.table|)))
      ensures !passed && !r.ReadAborted? ==> r.NotFound? && !go
      ensures !passed && !r.ReadAborted? ==>
        store.cache.resident == old(store.cache.resident) && store.cache.tppa == old(store.cache.tppa)
      ensures !passed && !r.ReadAborted? && IsStored(store.cache.table, realKeys, k) ==>
        var l := Slot(h, k, c, |store.cache.table|);
        WalksTo(h, store.cache.table, realKeys, k, c) && !Readable(l) && Dir(l) in orphans
          && Dir(l) !in store.cache.Backed()
      ensures go ==> passed && OnTrack(h, store.cache.table, realKeys, k, c + 1)
      ensures r.Found? ==>
        && passed && r.l == Slot(h, k, c, |store.cache.table|) && Stores(store.cache.table, realKeys, r.l, k)
        && (jump == Fresh || jump == ListUp ==> InMemory(r.l))
      ensures !go && r.NotFound? && passed ==> !IsStored(store.cache.table, realKeys, k)
      ensures !go && r.Later? ==> passed && OnTrack(h, store.cache.table, realKeys, k, r.c)
      ensures !go && r.Later? && r.jump == Fresh ==> r.c == c + 1
      ensures !go && r.Later? && r.jump != Fresh ==>
        && r.c == c && Readable(Slot(h, k, c, |store.cache.table|))
        && (jump == Fresh || (jump == ListUp && r.jump == Complete))
    {
      hide LiveOk, OwnedOk, CountsOk, BelowPointers, MapOk, AllocOk, TableOk, BackedBy, WalksTo, Slot, OnTrack,
           IsStored, NoTarget,
           StaysOut, StaysIn;
      go, passed := false, false;
      var l := Slot(h, k, c, |store.cache.table|);
      StaysOnTrack(h, store.cache.table, realKeys, maxTry, k, c);
      if jump == Fresh && !store.cache.resident[Dir(l)] && store.cache.tppa[Dir(l)] == NIL {
        UnreadableIsOrphan(k, c, l);
        StaysAtFirst(store.cache.resident, store.cache.tppa, -1);
        return false, NotFound, false;
      }
      var ok, next := Fetch(jump, Dir(l));
      if !ok { return false, ReadAborted, false; }
      passed := true;
      if next != Fresh { return false, Later(c, next), passed; }
      var pte := store.cache.table[l];
      CmpMeans(k, realKeys[l]);
      if pte.fp == h.fp(k) {
        if pte.ppa == NIL { return false, NotFound, passed; }
        if Cmp(k, realKeys[l]) == 0 { return false, Found(l), passed; }
        return false, Later(c + 1, Fresh), passed;
      }
      go, r := true, NotFound;
    }

    lemma UnreadableIsOrphan(k: Key, c: nat, l: nat)
      requires Inv() && |store.cache.table| == |realKeys| > 0 && l == Slot(h, k, c, |store.cache.table|)
      requires IsStored(store.cache.table, realKeys, k) ==> store.cache.table[l].ppa != NIL
      requires !Readable(l) && OnTrack(h, store.cache.table, realKeys, k, c)
      ensures IsStored(store.cache.table, realKeys, k) ==>
        WalksTo(h, store.cache.table, realKeys, k, c) && Dir(l) in orphans && Dir(l) !in store.cache.Backed()
    {
      hide LiveOk, OwnedOk, CountsOk, BelowPointers, MapOk, AllocOk, TableOk, IsStored, Slot, WalksTo;
    }

    /** While no page has ever left memory without a copy or changes, every page with a mapped slot has a copy or
        changes in memory. */
    lemma AllBacked(k: Key)
      requires Inv() && bare == 0
      ensures IsStored(store.cache.table, realKeys, k) ==> !MeetsUnbacked(k)
    {
      hide LiveOk, OwnedOk, CountsOk, BelowPointers, MapOk, AllocOk, TableOk, BackedBy, Slot, WalksTo;
      if IsStored(store.cache.table, realKeys, k) {
        var l: nat :| Stores(store.cache.table, realKeys, l, k);
        forall c: nat | WalksTo(h, store.cache.table, realKeys, k, c)
          ensures Dir(Slot(h, k, c, |store.cache.table|)) in store.cache.Backed()
        {
          StoredWalk(h, store.cache.table, realKeys, maxTry, k, l, c);
        }
      }
    }

    /** A read run to its end.  A stored key is found whenever all pages on its walk have a flash copy or
        changes in memory, and missed whenever one of them is neither in memory nor on flash.  In between it
        depends on what the read itself evicts: as long as it evicts no page without a copy, it misses a
        stored key if and only if one of those pages is unreadable.  In a store no page has ever left
        without a copy or changes, no stored key is missed; that is so when the cache takes more pages than
        there are. */
    method Get(k: Key) returns (r: ReadStep)
      requires Inv()
      modifies this`bare, store.cache`tppa, store.cache`dirty, store.cache`resident
      modifies store.cache`tActive, store.cache`tReserve, store.cache.bm
      ensures r.ReadAborted? ==> store.cache.Stuck() && !old(store.cache.Roomy())
      ensures !r.ReadAborted? ==> Inv() && !r.Later? && old(store.cache.Backed()) <= store.cache.Backed()
      ensures r.Found? ==> Stores(store.cache.table, realKeys, r.l, k)
      ensures r.NotFound? && IsStored(store.cache.table, realKeys, k) ==> old(MeetsUnbacked(k))
      ensures r.NotFound? && old(bare) == 0 ==> !IsStored(store.cache.table, realKeys, k)
      ensures r.NotFound? && |store.cache.tppa| < capacity ==> !IsStored(store.cache.table, realKeys, k)
      ensures old(MeetsUnreadable(k)) ==> r.NotFound? || r.ReadAborted?
      ensures !r.ReadAborted? && bare == old(bare) && IsStored(store.cache.table, realKeys, k) ==>
        (r.NotFound? <==> old(MeetsUnreadable(k)))
    {
      hide LiveOk, OwnedOk, CountsOk, BelowPointers, MapOk, AllocOk, TableOk, BackedBy, WalksTo, Slot, OnTrack,
           IsStored, NoTarget;
      var c, jump := 0, Fresh;
      TrackStarts(h, store.cache.table, realKeys, maxTry, k);
      if bare == 0 { AllBacked(k); }
      ghost var end := 0;
      OnHandNone(h, k, |realKeys|, store.cache.resident, store.cache.tppa, -1, 0);
      while true
        invariant Inv() && |store.cache.table| == |realKeys| > 0 && OnTrack(h, store.cache.table, realKeys, k, c)
          && c <= maxTry + 1
        invariant (old(store.cache.Roomy()) ==> store.cache.Roomy()) && old(bare) <= bare
        invariant end == (if jump == Fresh then c else c + 1)
        invariant jump != Fresh ==> Readable(Slot(h, k, c, |store.cache.table|))
        invariant old(store.cache.Backed()) <= store.cache.Backed()
        invariant StaysOut(old(store.cache.resident), old(store.cache.tppa), store.cache.resident, store.cache.tppa, -1)
        invariant bare == old(bare) ==>
          StaysIn(old(store.cache.resident), old(store.cache.tppa), store.cache.resident, store.cache.tppa)
        invariant OnHand(h, k, |realKeys|, old(store.cache.resident), old(store.cache.tppa), -1, 0, end)
        decreases maxTry + 1 - c, if jump == Fresh then 2 else if jump == ListUp then 1 else 0
      {
        ghost var res1, tppa1, end0 := store.cache.resident, store.cache.tppa, end;
        r, end := ReadOn(k, c, jump);
        if r.ReadAborted? { return; }
        StaysOn(old(store.cache.resident), old(store.cache.tppa), res1, tppa1, store.cache.resident, store.cache.tppa,
          ResumedAt(k, c, jump));
        OnHandJoin(h, k, |realKeys|, old(store.cache.resident), old(store.cache.tppa), res1, tppa1,
          ResumedAt(k, c, jump), end0, c, end);
        if !r.Later? {
          if r.Found? { FoundPasses(h, store.cache.table, realKeys, k, end); }
          return;
        }
        c, jump := r.c, r.jump;
      }
    }

    /** A full write buffer: every item is placed, then mapped.  Afterwards each key of the buffer is
        stored with its new length, and every other key exactly as before. */
    method Flush(keys: seq<Key>, lens: seq<nat>) returns (ok: bool)
      requires Inv() && store.placed == {} && |keys| == |lens|
      requires forall i, j :: 0 <= i < j < |keys| ==> keys[i] != keys[j]
      requires forall i :: 0 <= i < |lens| ==> 1 <= lens[i] <= 4
      modifies this, store, store.bm, store.cache, store.cache.bm
      ensures !ok ==> || store.OutOfSpace() || store.cache.Stuck() || (store.Due() && !store.CollectionSafe())
                      || (0 <= store.dActive < |store.bm.wp| && store.bm.wp[store.dActive] == PPS + 1)
                      || exists i :: 0 <= i < |keys| && Overflows(keys[i])
      ensures !ok && old(store.cache.Roomy()) && old(store.FreePages()) >= Packing.NeededOf(BatchItems(lens)) ==>
        exists i :: 0 <= i < |keys| && Overflows(keys[i])
      ensures ok ==> forall i :: 0 <= i < |keys| ==> !old(Overflows(keys[i]))
      ensures ok ==> Inv() && store.placed == {}
      ensures ok ==> forall i :: 0 <= i < |keys| ==> Holds(store.cache.table, realKeys, store.bm.oob, keys[i], lens[i])
      ensures ok ==> forall k, len :: k !in keys ==>
        (Holds(store.cache.table, realKeys, store.bm.oob, k, len)
         <==> Holds(old(store.cache.table), old(realKeys), old(store.bm.oob), k, len))
    {
      hide LiveOk, OwnedOk, CountsOk, BelowPointers, MapOk, AllocOk, TableOk, BackedBy, SameMeaning, Holds, OnlyBatch,
           IsBatchPlace,
           WalksTo, NoTarget, Clear, Packing.NeededOf;
      TrackStarts(h, store.cache.table, realKeys, maxTry, []);
      var r := store.PlaceBatch(lens);
      if !r.Placed? { return false; }
      MeaningKeepsTable(h, old(store.cache.table), old(store.bm.oob), store.cache.table, store.bm.oob, realKeys,
        maxTry);
      MeaningKeepsMapped(old(store.cache.table), old(store.bm.oob), store.cache.table, store.bm.oob);
      var es := EntriesOf(keys, lens, r.nodes);
      ghost var t1, oob1 := store.cache.table, store.bm.oob;
      written := seq(HT, _ => []);
      ok := MappingUpdate(es);
      forall i | 0 <= i < |keys| ensures es[i].key == keys[i] && es[i] in es {
        assert EntryIs(oob1, keys, lens, es, i);
      }
      OverflowsAlike(es, keys);
      if ok {
        forall i | 0 <= i < |keys| && old(Overflows(keys[i])) ensures false {
          WalkStays(h, old(store.cache.table), old(realKeys), t1, old(realKeys), keys[i], MAX_HASH_COLLISION + 1);
        }
        BatchHeld(old(store.cache.table), old(realKeys), old(store.bm.oob), t1, oob1,
                  store.cache.table, realKeys, store.bm.oob, keys, lens, es);
      }
    }

    lemma OverflowsAlike(es: seq<Entry>, keys: seq<Key>)
      requires |es| == |keys| && forall i :: 0 <= i < |es| ==> es[i].key == keys[i]
      ensures (exists e :: e in es && Overflows(e.key)) ==> exists i :: 0 <= i < |keys| && Overflows(keys[i])
    {
      if e :| e in es && Overflows(e.key) {
        var i :| 0 <= i < |es| && es[i] == e;
        assert Overflows(keys[i]);
      }
    }

    // The entries of the batch, in the order of its keys.
    method EntriesOf(keys: seq<Key>, lens: seq<nat>, nodes: seq<Node>) returns (es: seq<Entry>)
      requires |keys| == |lens| == |nodes| && DistinctSlots(nodes) && DistinctPlaces(nodes)
      requires forall i, j :: 0 <= i < j < |keys| ==> keys[i] != keys[j]
      requires forall x :: x in nodes ==> IsBatchPlace(store.bm.oob, lens, x)
      requires forall i :: 0 <= i < |lens| ==> HasNode(nodes, i)
      ensures BatchOk(es) && |es| == |keys| && (set e | e in es :: e.ppa) == Ppas(nodes)
      ensures forall i :: 0 <= i < |es| ==> EntryIs(store.bm.oob, keys, lens, es, i)
    {
      var ppas: seq<nat> := seq(|keys|, _ => 0);
      for j := 0 to |nodes|
        invariant |ppas| == |keys|
        invariant forall a :: 0 <= a < j ==> nodes[a].lpa < |ppas| && ppas[nodes[a].lpa] == nodes[a].ppa
      {
        assert nodes[j] in nodes;
        ppas := ppas[nodes[j].lpa := nodes[j].ppa];
      }
      es := seq(|keys|, i requires 0 <= i < |keys| => Entry(keys[i], ppas[i]));
      EntriesRight(store.bm.oob, keys, lens, nodes, es);
    }
  }

  // ----- batches of a key or two -----

  lemma {:induction false} NumOfOnes(s: seq<Packing.Item>, t: nat)
    requires forall i :: 0 <= i < |s| ==> s[i].len == 1
    ensures Packing.Num(s, t) == if t == 1 then |s| else 0
  {
    if s != [] { NumOfOnes(s[1..], t); }
  }

  lemma OnePageNeeded(lens: seq<nat>)
    requires lens == [1] || lens == [1, 1]
    ensures Packing.NeededOf(BatchItems(lens)) == 1
  {
    hide Packing.Num;
    var s := BatchItems(lens);
    NumOfOnes(s, 1);
    NumOfOnes(s, 2);
    NumOfOnes(s, 3);
    NumOfOnes(s, 4);
  }

  lemma OneOfTwo()
    ensures Count([false, false], IsSet, 0, 2) == 0
    ensures Count([true, false], IsSet, 0, 2) == Count([false, true], IsSet, 0, 2) == 1
  {
    CountExtremes([false, false], IsSet, 0, 2);
    CountSplit([true, false], IsSet, 0, 1, 2);
    CountExtremes([true, false], IsSet, 0, 1);
    CountExtremes([true, false], IsSet, 1, 2);
    CountSplit([false, true], IsSet, 0, 1, 2);
    CountExtremes([false, true], IsSet, 0, 1);
    CountExtremes([false, true], IsSet, 1, 2);
  }

  // Where the run's three keys go: two slots of page 0 and one of page 1.
  ghost predicate ThreeKeys(h: Hashing) { h.hash([1]) == 0 && h.hash([3]) == 1 && h.hash([2]) == EPP }

  lemma ThreeSlots(h: Hashing)
    requires ThreeKeys(h)
    ensures Slot(h, [1], 0, 2 * EPP) == 0 && Slot(h, [3], 0, 2 * EPP) == 1 && Slot(h, [2], 0, 2 * EPP) == EPP
    ensures Dir(0) == 0 && Dir(1) == 0 && Dir(EPP) == 1
  {
  }

  // A batch of entries, none stored yet.
  method PlaceKeys(kv: KvStore, keys: seq<Key>, lens: seq<nat>) returns (es: seq<Entry>, pr: seq<Progress>)
    requires kv.Inv() && kv.store.placed == {} && kv.store.FreePages() >= 1 && (lens == [1] || lens == [1, 1])
    requires |keys| == |lens| && forall i, j :: 0 <= i < j < |keys| ==> keys[i] != keys[j]
    modifies kv`written, kv.store, kv.store.bm, kv.store.cache, kv.store.cache.bm
    ensures kv.Running(es, pr) && |es| == |keys| && pr == seq(|es|, _ => Progress(0, Fresh, false))
    ensures forall i :: 0 <= i < |keys| ==> es[i].key == keys[i]
    ensures kv.written == seq(HT, _ => []) && kv.store.placed == set e | e in es :: e.ppa
    ensures kv.store.FreePages() == old(kv.store.FreePages()) - 1 && unchanged(kv.store.cache)
      && unchanged(kv.store.cache.bm)
  {
    hide LiveOk, OwnedOk, CountsOk, BelowPointers, MapOk, AllocOk, TableOk, BackedBy, SameMeaning, IsBatchPlace,
         NoTarget, Clear,
         Packing.NeededOf, AllProgressOk, WrittenOk, BatchOk, WaitOnHand;
    OnePageNeeded(lens);
    TrackStarts(kv.h, kv.store.cache.table, kv.realKeys, kv.maxTry, []);
    var r := kv.store.PlaceBatch(lens);
    es := kv.EntriesOf(keys, lens, r.nodes);
    forall i | 0 <= i < |keys| ensures es[i].key == keys[i] { assert EntryIs(kv.store.bm.oob, keys, lens, es, i); }
    pr := seq(|es|, _ => Progress(0, Fresh, false));
    kv.written := seq(HT, _ => []);
    WaitStarts(kv.h, es, pr, |kv.realKeys|, kv.store.cache.resident, kv.store.cache.tppa);
    BatchStarts(kv.h, kv.store.cache.table, kv.realKeys, kv.maxTry, es, pr, kv.written);
  }

  // ----- two keys of one home -----

  // Slot `l`, which stores `k`, is the one mapped slot.
  ghost predicate OnlySlot(t: seq<Pte>, rk: seq<Key>, l: nat, k: Key) {
    Stores(t, rk, l, k) && forall m :: 0 <= m < |t| && m != l ==> t[m].ppa == NIL
  }

  ghost predicate NoSlot(t: seq<Pte>) { forall m :: 0 <= m < |t| ==> t[m].ppa == NIL }

  // The first key stored has the first slot of its walk, and its walk ends there in any case.
  lemma FirstAtHome(h: Hashing, t0: seq<Pte>, rk0: seq<Key>, t: seq<Pte>, rk: seq<Key>, maxTry: nat, k: Key)
    requires NoSlot(t0) && OnlyBatch(t0, rk0, t, rk, {k}) && TableOk(h, t, rk, maxTry)
    ensures !WalksTo(h, t, rk, k, 1)
    ensures IsStored(t, rk, k) ==> OnlySlot(t, rk, Slot(h, k, 0, |t|), k)
  {
    hide Slot;
    assert WalksTo(h, t, rk, k, 1) ==> Passes(h, t, rk, k, 0);
    if IsStored(t, rk, k) {
      var l: nat :| Stores(t, rk, l, k);
      assert Reached(h, t, rk, l, maxTry);
      var c: nat :| c <= maxTry && HomeAt(h, t, rk, l, c);
      if c > 0 { WalkShorter(h, t, rk, k, c, 1); }
      forall m: nat | m < |t| && t[m].ppa != NIL ensures m == l {
        OneSlotPerKey(h, t, rk, maxTry, k, l, m);
      }
    }
  }

  // A second key with the same first slot has the next one of its walk.
  lemma SecondBehind(h: Hashing, t0: seq<Pte>, rk0: seq<Key>, t: seq<Pte>, rk: seq<Key>, maxTry: nat, k: Key, k': Key)
    requires |t0| > 0 && OnlySlot(t0, rk0, Slot(h, k', 0, |t0|), k) && k' != k
    requires Slot(h, k', 1, |t0|) != Slot(h, k', 0, |t0|)
    requires OnlyBatch(t0, rk0, t, rk, {k'}) && TableOk(h, t, rk, maxTry)
    ensures !WalksTo(h, t, rk, k', 2) && Stores(t, rk, Slot(h, k', 0, |t|), k)
    ensures IsStored(t, rk, k') ==> Stores(t, rk, Slot(h, k', 1, |t|), k')
  {
    hide Slot;
    assert WalksTo(h, t, rk, k', 2) ==> Passes(h, t, rk, k', 1);
    if IsStored(t, rk, k') {
      var l: nat :| Stores(t, rk, l, k');
      assert Reached(h, t, rk, l, maxTry);
      var c: nat :| c <= maxTry && HomeAt(h, t, rk, l, c);
      if c > 1 { WalkShorter(h, t, rk, k', c, 2); }
    }
  }

  // A key is placed and mapped.
  method StoreKey(kv: KvStore, k: Key) returns (ok: bool)
    requires kv.Inv() && kv.store.placed == {} && kv.store.FreePages() >= 1 && kv.store.cache.Roomy()
    modifies kv, kv.store, kv.store.bm, kv.store.cache, kv.store.cache.bm
    ensures kv.Inv() && OnlyBatch(old(kv.store.cache.table), old(kv.realKeys), kv.store.cache.table, kv.realKeys, {k})
    ensures !ok ==> kv.Overflows(k)
    ensures ok ==> IsStored(kv.store.cache.table, kv.realKeys, k) && kv.store.placed == {} && kv.store.cache.Roomy()
    ensures kv.store.FreePages() == old(kv.store.FreePages()) - 1
  {
    hide LiveOk, OwnedOk, CountsOk, BelowPointers, MapOk, AllocOk, TableOk, BackedBy, AllProgressOk, WrittenOk,
         OnlyBatch, WalksTo, NoTarget, WaitOnHand, AnchoredBy;
    var es, pr := PlaceKeys(kv, [k], [1]);
    ok := kv.MappingUpdate(es);
    assert es == [es[0]];
    assert Keyset(es) == {k};
    if ok { assert StoredAt(kv.store.cache.table, kv.realKeys, es[0].key, es[0].ppa); }
  }

  lemma TwoOn(x: nat, n: nat)
    requires n > 2
    ensures (x % n + 2) % n != x % n
  {
    var r := x % n;
    Remainder(r + 2, n, if r + 2 < n then 0 else 1, if r + 2 < n then r + 2 else r + 2 - n);
  }

  lemma HomesOfTwo(h: Hashing, k: Key, n: nat, x: nat)
    requires n > 2 && h.hash(k) == x && x + 2 < 0x1_0000_0000
    ensures Slot(h, k, 0, n) == x % n && Slot(h, k, 1, n) == (x % n + 2) % n != x % n
  {
    hide Slot;
    NextSlot(h, k, 0, n);
    TwoOn(x, n);
  }

  // Two keys with one first slot are stored one after the other.
  method StoreTwo(kv: KvStore, k: Key, k': Key)
    requires kv.Inv() && kv.store.placed == {} && kv.store.FreePages() >= 2 && kv.store.cache.Roomy()
    requires k != k' && |kv.realKeys| > 0 && Slot(kv.h, k, 0, |kv.realKeys|) == Slot(kv.h, k', 0, |kv.realKeys|)
    requires Slot(kv.h, k', 1, |kv.realKeys|) != Slot(kv.h, k', 0, |kv.realKeys|) && NoSlot(kv.store.cache.table)
    modifies kv, kv.store, kv.store.bm, kv.store.cache, kv.store.cache.bm
    ensures kv.Inv() && |kv.realKeys| == |old(kv.realKeys)|
    ensures Stores(kv.store.cache.table, kv.realKeys, Slot(kv.h, k, 0, |kv.realKeys|), k)
    ensures Stores(kv.store.cache.table, kv.realKeys, Slot(kv.h, k', 1, |kv.realKeys|), k')
  {
    hide LiveOk, OwnedOk, CountsOk, BelowPointers, MapOk, AllocOk, TableOk, BackedBy, OnlyBatch, WalksTo, NoTarget,
         AnchoredBy, IsStored, Slot, OnlySlot, NoSlot;
    kv.InvFacts();
    ghost var t0, rk0 := kv.store.cache.table, kv.realKeys;
    var ok := StoreKey(kv, k);
    kv.InvFacts();
    ghost var t1, rk1 := kv.store.cache.table, kv.realKeys;
    FirstAtHome(kv.h, t0, rk0, t1, rk1, kv.maxTry, k);
    BatchSize(t0, rk0, t1, rk1, {k});
    if !ok { WalkShorter(kv.h, t1, rk1, k, MAX_HASH_COLLISION + 1, 1); }
    ok := StoreKey(kv, k');
    kv.InvFacts();
    SecondBehind(kv.h, t1, rk1, kv.store.cache.table, kv.realKeys, kv.maxTry, k, k');
    BatchSize(t1, rk1, kv.store.cache.table, kv.realKeys, {k'});
    if !ok { WalkShorter(kv.h, kv.store.cache.table, kv.realKeys, k', MAX_HASH_COLLISION + 1, 2); }
  }

  lemma BatchSize(t0: seq<Pte>, rk0: seq<Key>, t: seq<Pte>, rk: seq<Key>, keys: set<Key>)
    requires OnlyBatch(t0, rk0, t, rk, keys)
    ensures |t| == |t0| == |rk| == |rk0|
  {
  }

  /** Two keys of one hash stored one after the other in an empty store of any size: the first is in slot
      `x % n`, the second two slots further on. */
  method CollideRun(h: Hashing, k: Key, k': Key, slots: nat, capacity: nat, n: nat, x: nat) returns (kv: KvStore)
    requires k != k' && h.hash(k) == h.hash(k') == x && x + 2 < 0x1_0000_0000
    requires 0 < slots <= 2 * PPS && 0 < capacity && n == slots * EPP
    ensures kv.Inv() && |kv.store.cache.table| == n
    ensures Stores(kv.store.cache.table, kv.realKeys, x % n, k)
    ensures Stores(kv.store.cache.table, kv.realKeys, (x % n + 2) % n, k')
  {
    hide LiveOk, OwnedOk, CountsOk, BelowPointers, MapOk, AllocOk, TableOk, BackedBy, AnchoredBy, Slot;
    kv := new KvStore(h, slots, capacity, 3, 3);
    kv.InvFacts();
    HomesOfTwo(h, k, n, x);
    HomesOfTwo(h, k', n, x);
    StoreTwo(kv, k, k');
    kv.InvFacts();
  }

  // ----- a run that makes an orphan -----

  // The table with the slots of `used` mapped and no others.
  ghost predicate Uses(t: seq<Pte>, used: set<nat>) {
    |t| == 2 * EPP && forall l: nat :: l < |t| ==> (t[l].ppa != NIL <==> l in used)
  }

  // An empty store with a batch of one key placed and its page in memory.
  method OpenFirst(h: Hashing) returns (kv: KvStore, es: seq<Entry>, pr: seq<Progress>)
    requires ThreeKeys(h)
    ensures fresh(kv) && fresh(kv.store) && fresh(kv.store.bm) && fresh(kv.store.cache) && fresh(kv.store.cache.bm)
    ensures kv.capacity == 1 && kv.h == h && kv.Running(es, pr) && kv.store.FreePages() >= 1 && kv.store.cache.Roomy()
    ensures |es| == |pr| == 1 && es[0].key == [1] && pr[0] == Progress(0, Fresh, false) && kv.orphans == {}
    ensures Uses(kv.store.cache.table, {}) && kv.store.cache.resident == [true, false]
    ensures kv.store.cache.dirty == [false, false] && kv.store.cache.tppa == [NIL, NIL]
  {
    hide LiveOk, OwnedOk, CountsOk, BelowPointers, MapOk, AllocOk, TableOk, BackedBy, AllProgressOk, WrittenOk, BatchOk,
         NoTarget, WaitOnHand, AnchoredBy, Count;
    kv := new KvStore(h, 2, 1, 3, 3);
    es, pr := PlaceKeys(kv, [[1]], [1]);
    OneOfTwo();
    assert kv.store.cache.resident == [false, false];
    var ok, wrote := kv.BringInFor(0, -1);
    kv.InvFacts();
    WaitStarts(h, es, pr, |kv.realKeys|, kv.store.cache.resident, kv.store.cache.tppa);
  }

  // The first key is stored, and its page is in memory.
  method StoreFirst(h: Hashing) returns (kv: KvStore)
    requires ThreeKeys(h)
    ensures fresh(kv) && fresh(kv.store) && fresh(kv.store.bm) && fresh(kv.store.cache) && fresh(kv.store.cache.bm)
    ensures kv.capacity == 1 && kv.h == h && kv.Inv() && kv.store.placed == {} && kv.store.FreePages() >= 1
    ensures Uses(kv.store.cache.table, {0}) && kv.orphans == {} && kv.store.cache.Roomy()
    ensures kv.store.cache.resident == kv.store.cache.dirty == [true, false] && kv.store.cache.tppa == [NIL, NIL]
  {
    hide LiveOk, OwnedOk, CountsOk, BelowPointers, MapOk, AllocOk, TableOk, BackedBy, AllProgressOk, WrittenOk, BatchOk,
         Slot, NoTarget, WaitOnHand, AnchoredBy;
    ThreeSlots(h);
    var es, pr;
    kv, es, pr := OpenFirst(h);
    ProgressShape(h, kv.store.cache.table, kv.realKeys, es, pr);
    pr := kv.Finish(es, pr, 0, 0);
    assert OpenPpas(es, pr) == {};
  }

  // The other two are under way: the entry for page 1 has brought it in and waits for the page it put out,
  // which was written; the entry for page 0 has brought that back and put out page 1, which had no copy.
  method SwapPages(kv: KvStore) returns (es: seq<Entry>, pr: seq<Progress>)
    requires kv.capacity == 1 && ThreeKeys(kv.h) && kv.Inv() && kv.store.placed == {} && kv.store.FreePages() >= 1
      && kv.store.cache.Roomy()
    requires Uses(kv.store.cache.table, {0})
    requires kv.store.cache.resident == kv.store.cache.dirty == [true, false] && kv.store.cache.tppa == [NIL, NIL]
    modifies kv`written, kv`bare, kv.store, kv.store.bm, kv.store.cache, kv.store.cache.bm
    ensures kv.Running(es, pr) && |es| == |pr| == 2 && es[0].key == [2] && es[1].key == [3]
    ensures pr == [Progress(0, Complete, false), Progress(0, ListUp, false)]
    ensures kv.bare > 0 && kv.store.cache.Roomy() && Uses(kv.store.cache.table, {0})
    ensures kv.store.cache.resident == [true, false] && kv.store.cache.tppa[0] != NIL
      && kv.store.cache.tppa[1..] == [NIL]
  {
    hide LiveOk, OwnedOk, CountsOk, BelowPointers, MapOk, AllocOk, TableOk, BackedBy, AllProgressOk, WrittenOk,
         BatchOk, Slot, NoTarget;
    hide KvStore.Inv, Uses;
    kv.InvFacts();
    es, pr := PlaceKeys(kv, [[2], [3]], [1, 1]);
    PutOut(kv, es, pr);
    pr := kv.Suspend(es, pr, 0, Progress(0, Complete, false));
    pr := kv.Suspend(es, pr, 1, Progress(0, ListUp, false));
    OneOfTwo();
    var ok, wrote := kv.BringInFor(0, 1);
  }

  method PutOut(kv: KvStore, es: seq<Entry>, pr: seq<Progress>)
    requires kv.capacity == 1 && kv.Running(es, pr) && kv.store.cache.Roomy()
    requires kv.store.cache.resident == kv.store.cache.dirty == [true, false] && kv.store.cache.tppa == [NIL, NIL]
    modifies kv`bare, kv.store.cache`tppa, kv.store.cache`dirty, kv.store.cache`resident
    modifies kv.store.cache`tActive, kv.store.cache`tReserve, kv.store.cache.bm
    ensures kv.Running(es, pr) && kv.store.cache.Roomy() && kv.store.cache.resident == [false, true]
    ensures kv.store.cache.dirty == [false, false] && kv.bare == old(kv.bare)
    ensures |kv.store.cache.tppa| == 2 && kv.store.cache.tppa[0] != NIL && kv.store.cache.tppa[1] == NIL
  {
    hide LiveOk, OwnedOk, CountsOk, BelowPointers, MapOk, AllocOk, TableOk, BackedBy, AllProgressOk, WrittenOk,
         BatchOk, NoTarget;
    OneOfTwo();
    var ok, wrote := kv.BringInFor(1, 0);
  }

  // The entry for page 0 is stored.
  method FinishThird(kv: KvStore) returns (es: seq<Entry>, pr: seq<Progress>)
    requires kv.capacity == 1 && ThreeKeys(kv.h) && kv.Inv() && kv.store.placed == {} && kv.store.FreePages() >= 1
      && kv.store.cache.Roomy()
    requires Uses(kv.store.cache.table, {0})
    requires kv.store.cache.resident == kv.store.cache.dirty == [true, false] && kv.store.cache.tppa == [NIL, NIL]
    modifies kv, kv.store, kv.store.bm, kv.store.cache, kv.store.cache.bm
    ensures kv.Running(es, pr) && |es| == |pr| == 2 && es[0].key == [2]
    ensures !pr[0].done && pr[0].cnt == 0 && pr[1].done
    ensures kv.bare > 0 && kv.store.cache.Roomy() && Uses(kv.store.cache.table, {0, 1})
    ensures kv.store.cache.resident == [true, false] && |kv.store.cache.tppa| == 2 && kv.store.cache.tppa[1] == NIL
  {
    hide LiveOk, OwnedOk, CountsOk, BelowPointers, MapOk, AllocOk, TableOk, BackedBy, AllProgressOk, WrittenOk, BatchOk,
         Slot, NoTarget, WaitOnHand, AnchoredBy;
    ThreeSlots(kv.h);
    es, pr := SwapPages(kv);
    ProgressShape(kv.h, kv.store.cache.table, kv.realKeys, es, pr);
    pr := kv.Finish(es, pr, 1, 0);
  }

  /** A run, with a cache of one page, that leaves a stored key on a page no read can get at. */
  method OrphanRun(h: Hashing) returns (kv: KvStore)
    requires ThreeKeys(h)
    ensures fresh(kv) && fresh(kv.store.cache) && fresh(kv.store.cache.bm)
    ensures kv.Inv() && kv.store.placed == {} && kv.store.cache.Roomy()
    ensures IsStored(kv.store.cache.table, kv.realKeys, [2]) && kv.MeetsUnreadable([2])
  {
    hide LiveOk, OwnedOk, CountsOk, BelowPointers, MapOk, AllocOk, TableOk, BackedBy, AllProgressOk, WrittenOk, BatchOk,
         Slot, NoTarget, WaitOnHand, AnchoredBy;
    ThreeSlots(h);
    kv := StoreFirst(h);
    var es, pr := FinishThird(kv);
    ProgressShape(h, kv.store.cache.table, kv.realKeys, es, pr);
    pr := kv.Finish(es, pr, 0, 0);
    assert OpenPpas(es, pr) == {};
    assert Stores(kv.store.cache.table, kv.realKeys, EPP, [2]);
    assert WalksTo(h, kv.store.cache.table, kv.realKeys, [2], 0);
    assert !kv.Readable(Slot(h, [2], 0, |kv.store.cache.table|));
  }

  /** A read then answers that the key does not exist. */
  method StoredIsMissed(h: Hashing) returns (kv: KvStore, r: ReadStep)
    requires ThreeKeys(h)
    ensures kv.Inv() && IsStored(kv.store.cache.table, kv.realKeys, [2]) && r.NotFound?
  {
    hide LiveOk, OwnedOk, CountsOk, BelowPointers, MapOk, AllocOk, TableOk, BackedBy, NoTarget, IsStored;
    kv := OrphanRun(h);
    r := kv.Get([2]);
  }
}
