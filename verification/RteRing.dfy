/**
 The multi-producer/multi-consumer ring, as a machine whose steps are the single shared-memory
 accesses of the C code: read a head, read the opposite tail, compare-and-swap the head, copy one
 object, test the own tail, store it.  Any interleaving of any number of threads is a sequence of
 `Action`s.

 Decisions are taken on the 32-bit wrapped counters only (`ph`, `pt`, `ch`, `ct` and the `seen`,
 `next` a thread holds).  Beside them the state carries history: the same counters unwrapped
 (`phAt`, ...), the object given to every position (`log`) and the object read from it (`recv`).
 */
module RteRing {
  import Arith

  const WRAP: nat := 0x1_0000_0000

  type u32 = x: int | 0 <= x < 0x1_0000_0000

  type Obj = nat

  // RTE_RING_QUEUE_FIXED or RTE_RING_QUEUE_VARIABLE.
  datatype Behavior = Fixed | Variable

  // `turn`: the tail test of `update_tail` has been passed, and the tail is to be stored next.
  datatype Producer =
    | PIdle(ret: nat)
    | PStart(objs: seq<Obj>, beh: Behavior)
    | PRead(objs: seq<Obj>, beh: Behavior, seen: u32, at: nat)
    | PCas(objs: seq<Obj>, beh: Behavior, n: nat, seen: u32, next: u32, at: nat)
    | PCopy(objs: seq<Obj>, n: nat, seen: u32, next: u32, at: nat, k: nat, turn: bool)

  datatype Consumer =
    | CIdle(objs: seq<Obj>)
    | CStart(max: nat, beh: Behavior)
    | CRead(max: nat, beh: Behavior, seen: u32, at: nat)
    | CCas(max: nat, beh: Behavior, n: nat, seen: u32, next: u32, at: nat)
    | CCopy(n: nat, seen: u32, next: u32, at: nat, got: seq<Obj>, turn: bool)

  datatype Ring = Ring(
    size: nat, capacity: u32, sp: bool, sc: bool,
    ph: u32, pt: u32, ch: u32, ct: u32,
    slots: seq<Obj>,
    prods: seq<Producer>, cons: seq<Consumer>,
    phAt: nat, ptAt: nat, chAt: nat, ctAt: nat,
    log: seq<Obj>, recv: map<nat, Obj>)

  datatype Action =
    | Enqueue(i: nat, objs: seq<Obj>, beh: Behavior)
    | Dequeue(i: nat, n: nat, beh: Behavior)
    | ProdStep(i: nat)
    | ConsStep(i: nat)

  // A counter as the 32-bit field holds it.
  function Wrap(u: nat): u32 { Arith.Rem(u, WRAP) }

  // 32-bit addition and subtraction.
  function Add32(a: u32, b: nat): u32 { Wrap(a + b) }

  function Sub32(a: u32, b: u32): u32 { if a >= b then a - b else a + WRAP - b }

  // The number of objects taken when `n` are asked for and `free` are available.
  function Granted(n: nat, free: nat, beh: Behavior): (g: nat)
    ensures g <= n && g <= free
    ensures free >= n ==> g == n
    ensures beh == Fixed ==> g == 0 || g == n
  {
    if n > free then (if beh == Fixed then 0 else free) else n
  }

  // `head & mask`: the slot a counter value, wrapped or not, falls on.
  function Slot(r: Ring, x: nat): (s: nat)
    requires r.size > 0
    ensures s < r.size
  {
    Arith.Rem(x, r.size)
  }

  ghost predicate Shape(r: Ring) {
    && 0 < r.size <= WRAP && WRAP % r.size == 0 && |r.slots| == r.size
    && r.capacity < r.size
    && (r.sp ==> |r.prods| <= 1) && (r.sc ==> |r.cons| <= 1)
  }

  /** One access by producer `i`.  Spinning in `update_tail` leaves the state as it is. */
  function StepProducer(r: Ring, i: nat): (r': Ring)
    requires Shape(r) && i < |r.prods|
    ensures Shape(r')
  {
    match r.prods[i]
    case PIdle(_) => r
    case PStart(objs, beh) =>
      r.(prods := r.prods[i := PRead(objs, beh, r.ph, r.phAt)])
    case PRead(objs, beh, seen, at) =>
      var free := Sub32(Add32(r.capacity, r.ct), seen);
      var n := Granted(|objs|, free, beh);
      if n == 0 then r.(prods := r.prods[i := PIdle(0)])
      else r.(prods := r.prods[i := PCas(objs, beh, n, seen, Add32(seen, n), at)])
    case PCas(objs, beh, n, seen, next, at) =>
      if r.sp || r.ph == seen then
        r.(ph := next, phAt := r.phAt + n, log := r.log + objs[..if n <= |objs| then n else |objs|],
           prods := r.prods[i := PCopy(objs, n, seen, next, at, 0, false)])
      else r.(prods := r.prods[i := PStart(objs, beh)])
    case PCopy(objs, n, seen, next, at, k, turn) =>
      if k < n && k < |objs| then
        r.(slots := r.slots[Slot(r, seen + k) := objs[k]],
           prods := r.prods[i := PCopy(objs, n, seen, next, at, k + 1, false)])
      else if r.sp || turn then
        r.(pt := next, ptAt := at + n, prods := r.prods[i := PIdle(n)])
      else if r.pt == seen then r.(prods := r.prods[i := PCopy(objs, n, seen, next, at, k, true)])
      else r
  }

  /** One access by consumer `i`. */
  function StepConsumer(r: Ring, i: nat): (r': Ring)
    requires Shape(r) && i < |r.cons|
    ensures Shape(r')
  {
    match r.cons[i]
    case CIdle(_) => r
    case CStart(max, beh) =>
      r.(cons := r.cons[i := CRead(max, beh, r.ch, r.chAt)])
    case CRead(max, beh, seen, at) =>
      var n := Granted(max, Sub32(r.pt, seen), beh);
      if n == 0 then r.(cons := r.cons[i := CIdle([])])
      else r.(cons := r.cons[i := CCas(max, beh, n, seen, Add32(seen, n), at)])
    case CCas(max, beh, n, seen, next, at) =>
      if r.sc || r.ch == seen then
        r.(ch := next, chAt := r.chAt + n, cons := r.cons[i := CCopy(n, seen, next, at, [], false)])
      else r.(cons := r.cons[i := CStart(max, beh)])
    case CCopy(n, seen, next, at, got, turn) =>
      if |got| < n then
        var x := r.slots[Slot(r, seen + |got|)];
        r.(recv := r.recv[at + |got| := x],
           cons := r.cons[i := CCopy(n, seen, next, at, got + [x], false)])
      else if r.sc || turn then
        r.(ct := next, ctAt := at + n, cons := r.cons[i := CIdle(got)])
      else if r.ct == seen then r.(cons := r.cons[i := CCopy(n, seen, next, at, got, true)])
      else r
  }

  function Step(r: Ring, a: Action): (r': Ring)
    requires Shape(r)
    ensures Shape(r')
  {
    match a
    case Enqueue(i, objs, beh) =>
      if i < |r.prods| && r.prods[i].PIdle? then r.(prods := r.prods[i := PStart(objs, beh)]) else r
    case Dequeue(i, n, beh) =>
      if i < |r.cons| && r.cons[i].CIdle? then r.(cons := r.cons[i := CStart(n, beh)]) else r
    case ProdStep(i) => if i < |r.prods| then StepProducer(r, i) else r
    case ConsStep(i) => if i < |r.cons| then StepConsumer(r, i) else r
  }

  /** The one assumption on timing: fewer than 2^32 positions are handed out between a thread's
      read of a head and its compare-and-swap on it. */
  ghost predicate Timely(r: Ring, a: Action) {
    match a
    case ProdStep(i) => i < |r.prods| && r.prods[i].PCas? ==> r.phAt - r.prods[i].at < WRAP
    case ConsStep(i) => i < |r.cons| && r.cons[i].CCas? ==> r.chAt - r.cons[i].at < WRAP
    case _ => true
  }

  ghost predicate Counters(r: Ring) {
    && r.ph == Wrap(r.phAt) && r.pt == Wrap(r.ptAt)
    && r.ch == Wrap(r.chAt) && r.ct == Wrap(r.ctAt)
    && r.ctAt <= r.chAt <= r.ptAt <= r.phAt <= r.ctAt + r.capacity
    && |r.log| == r.phAt
  }

  ghost predicate ProducerOk(r: Ring, p: Producer)
    requires Shape(r) && |r.log| == r.phAt
  {
    match p
    case PIdle(_) => true
    case PStart(_, _) => true
    case PRead(objs, beh, seen, at) => seen == Wrap(at) && at <= r.phAt && (r.sp ==> at == r.phAt)
    case PCas(objs, beh, n, seen, next, at) =>
      && seen == Wrap(at) && at <= r.phAt && (r.sp ==> at == r.phAt)
      && 1 <= n <= |objs| && (beh == Fixed ==> n == |objs|) && next == Wrap(at + n)
      && (r.phAt == at ==> at + n <= r.ctAt + r.capacity)
    case PCopy(objs, n, seen, next, at, k, turn) =>
      && (turn ==> k == n && at == r.ptAt) && seen == Wrap(at) && next == Wrap(at + n)
      && 1 <= n <= |objs| && k <= n && r.ptAt <= at && at + n <= r.phAt
      && objs[..n] == r.log[at..at + n] && Holding(r, at, at + k)
  }

  // Positions `[lo, hi)` are in their slots.
  ghost predicate Holding(r: Ring, lo: nat, hi: nat)
    requires Shape(r) && |r.log| == r.phAt && hi <= r.phAt
  {
    forall j :: lo <= j < hi ==> r.slots[Slot(r, j)] == r.log[j]
  }

  ghost predicate ConsumerOk(r: Ring, c: Consumer)
    requires Shape(r) && |r.log| == r.phAt
  {
    match c
    case CIdle(_) => true
    case CStart(_, _) => true
    case CRead(max, beh, seen, at) => seen == Wrap(at) && at <= r.chAt && (r.sc ==> at == r.chAt)
    case CCas(max, beh, n, seen, next, at) =>
      && seen == Wrap(at) && at <= r.chAt && (r.sc ==> at == r.chAt)
      && 1 <= n <= max && (beh == Fixed ==> n == max) && next == Wrap(at + n)
      && (r.chAt == at ==> at + n <= r.ptAt)
    case CCopy(n, seen, next, at, got, turn) =>
      && (turn ==> |got| == n && at == r.ctAt) && seen == Wrap(at) && next == Wrap(at + n)
      && 1 <= n && |got| <= n && r.ctAt <= at && at + n <= r.chAt <= r.phAt
      && got == r.log[at..at + |got|]
      && (forall j :: at <= j < at + |got| ==> j in r.recv)
      && (forall j :: at + |got| <= j < at + n ==> j !in r.recv)
  }

  // Producer `i` holds position `p`: reserved, not yet published.
  ghost predicate PHolds(r: Ring, i: nat, p: nat) {
    i < |r.prods| && r.prods[i].PCopy? && r.prods[i].at <= p < r.prods[i].at + r.prods[i].n
  }

  ghost predicate CHolds(r: Ring, i: nat, p: nat) {
    i < |r.cons| && r.cons[i].CCopy? && r.cons[i].at <= p < r.cons[i].at + r.cons[i].n
  }

  ghost predicate PHeld(r: Ring, p: nat) { exists i :: PHolds(r, i, p) }

  ghost predicate CHeld(r: Ring, p: nat) { exists i :: CHolds(r, i, p) }

  // In-flight reservations are disjoint and tile the gap between tail and head.
  ghost predicate ProducersTile(r: Ring) {
    && (forall i, j, p :: PHolds(r, i, p) && PHolds(r, j, p) ==> i == j)
    && (forall p :: r.ptAt <= p < r.phAt ==> PHeld(r, p))
  }

  ghost predicate ConsumersTile(r: Ring) {
    && (forall i, j, p :: CHolds(r, i, p) && CHolds(r, j, p) ==> i == j)
    && (forall p :: r.ctAt <= p < r.chAt ==> CHeld(r, p))
  }

  // Published, unreleased positions still hold their object; what was received is what was sent.
  ghost predicate Contents(r: Ring)
    requires Shape(r) && Counters(r)
  {
    && Holding(r, r.ctAt, r.ptAt)
    && (forall p :: p in r.recv ==> p < r.chAt && r.recv[p] == r.log[p])
    && (forall p :: 0 <= p < r.ctAt ==> p in r.recv)
  }

  ghost predicate Inv(r: Ring) {
    && Shape(r) && Counters(r)
    && (forall i :: 0 <= i < |r.prods| ==> ProducerOk(r, r.prods[i]))
    && (forall i :: 0 <= i < |r.cons| ==> ConsumerOk(r, r.cons[i]))
    && ProducersTile(r) && ConsumersTile(r) && Contents(r)
  }

  /** `rte_ring_init`: all counters zero, every thread outside the ring. */
  ghost predicate Init(r: Ring) {
    && Shape(r)
    && r.ph == r.pt == r.ch == r.ct == 0 && r.phAt == r.ptAt == r.chAt == r.ctAt == 0
    && r.log == [] && r.recv == map[]
    && (forall i :: 0 <= i < |r.prods| ==> r.prods[i].PIdle?)
    && (forall i :: 0 <= i < |r.cons| ==> r.cons[i].CIdle?)
  }

  // ----- wrapped arithmetic -----

  // A counter and its wrapped image fall on the same slots, because the size divides 2^32.
  lemma SlotOfWrapped(r: Ring, at: nat, k: nat)
    requires Shape(r)
    ensures Slot(r, Wrap(at) + k) == Slot(r, at + k)
  {
    var c := WRAP / r.size;
    assert c * r.size == WRAP;
    Arith.RemOfMultiple(at, k, c, r.size, WRAP);
  }

  /** The wrapped subtraction is exact whenever the true difference fits in 32 bits. */
  lemma {:induction false} Sub32Exact(a: nat, b: nat)
    requires b <= a < b + WRAP
    ensures Sub32(Wrap(a), Wrap(b)) == a - b
    decreases b
  {
    if b >= WRAP {
      Sub32Exact(a - WRAP, b - WRAP);
    } else if a >= WRAP {
      assert Arith.Rem(a - WRAP, WRAP) == a - WRAP;
    }
  }

  // Equal images of counters less than 2^32 apart are equal counters.
  lemma WrapInjective(a: nat, b: nat)
    requires a <= b < a + WRAP && Wrap(a) == Wrap(b)
    ensures a == b
  {
    if a < b { Arith.RemDiffer(a, b, WRAP); }
  }

  // ----- every step keeps the invariant -----

  // Nothing but the program counters of non-holding threads changes hands.
  ghost predicate SameHolders(r: Ring, r': Ring) {
    && (forall i, p :: PHolds(r', i, p) <==> PHolds(r, i, p))
    && (forall i, p :: CHolds(r', i, p) <==> CHolds(r, i, p))
  }

  lemma SameTiling(r: Ring, r': Ring)
    requires r'.ptAt == r.ptAt && r'.phAt == r.phAt && r'.ctAt == r.ctAt && r'.chAt == r.chAt
    requires ProducersTile(r) && ConsumersTile(r) && SameHolders(r, r')
    ensures ProducersTile(r') && ConsumersTile(r')
  {
    forall p | r.ptAt <= p < r.phAt ensures PHeld(r', p) {
      assert PHeld(r, p);
      var i :| PHolds(r, i, p);
      assert PHolds(r', i, p);
    }
    forall p | r.ctAt <= p < r.chAt ensures CHeld(r', p) {
      assert CHeld(r, p);
      var i :| CHolds(r, i, p);
      assert CHolds(r', i, p);
    }
  }

  lemma ProducerStarts(r: Ring, i: nat)
    requires Inv(r) && i < |r.prods| && (r.prods[i].PIdle? || r.prods[i].PStart?)
    ensures Inv(StepProducer(r, i))
  {
    SameTiling(r, StepProducer(r, i));
  }

  // What reading the opposite tail after the head yields, for the thread alone.
  lemma RoomIsReal(r: Ring, p: Producer)
    requires Shape(r) && Counters(r) && p.PRead? && ProducerOk(r, p)
    ensures p.at == r.phAt ==> Sub32(Add32(r.capacity, r.ct), p.seen) == r.capacity + r.ctAt - p.at
  {
    if p.at == r.phAt {
      Arith.RemAdd(r.ctAt, r.capacity, WRAP);
      Sub32Exact(r.ctAt + r.capacity, p.at);
    }
  }

  lemma ProducerReadsTail(r: Ring, i: nat)
    requires Inv(r) && i < |r.prods| && r.prods[i].PRead?
    ensures Inv(StepProducer(r, i))
  {
    var PRead(objs, beh, seen, at) := r.prods[i];
    var free := Sub32(Add32(r.capacity, r.ct), seen);
    RoomIsReal(r, r.prods[i]);
    var n := Granted(|objs|, free, beh);
    Arith.RemAdd(at, n, WRAP);
    var p' := if n == 0 then PIdle(0) else PCas(objs, beh, n, seen, Add32(seen, n), at);
    assert ProducerOk(r, p');
    MovesQuietly(r, i, p');
  }

  // Only the threads' states differ.
  ghost predicate SameRing(r: Ring, r': Ring) {
    r' == r.(prods := r'.prods, cons := r'.cons) && |r'.prods| == |r.prods| && |r'.cons| == |r.cons|
  }

  lemma RightStays(r: Ring, r': Ring)
    requires Shape(r) && Counters(r) && SameRing(r, r')
    ensures Shape(r') && Counters(r') && (Contents(r) ==> Contents(r'))
    ensures forall q :: ProducerOk(r', q) <==> ProducerOk(r, q)
    ensures forall q :: ConsumerOk(r', q) <==> ConsumerOk(r, q)
  {
    assert forall lo: nat, hi: nat :: hi <= r.phAt ==> (Holding(r', lo, hi) <==> Holding(r, lo, hi));
  }

  // Replacing one state by another that is right and holds the same positions keeps everything.
  lemma MovesQuietly(r: Ring, i: nat, p': Producer)
    requires Inv(r) && i < |r.prods| && r.prods[i].PCopy? == p'.PCopy? && ProducerOk(r, p')
    requires p'.PCopy? ==> p'.at == r.prods[i].at && p'.n == r.prods[i].n
    ensures Inv(r.(prods := r.prods[i := p']))
  {
    hide ProducerOk, ConsumerOk, Contents, Counters, Holding;
    var r' := r.(prods := r.prods[i := p']);
    RightStays(r, r');
    SameTiling(r, r');
  }

  // ----- a producer reserves, copies and publishes -----

  // The rest of the ring when `n` more positions are handed to producers.
  ghost predicate Grown(r: Ring, r': Ring) {
    && Shape(r) && Shape(r') && Counters(r) && Counters(r')
    && r'.size == r.size && r'.capacity == r.capacity && r'.slots == r.slots && r'.recv == r.recv
    && r'.sp == r.sp && r'.sc == r.sc
    && r'.ctAt == r.ctAt && r'.chAt == r.chAt && r'.ptAt == r.ptAt && r'.phAt >= r.phAt
    && r'.log[..r.phAt] == r.log
  }

  lemma LogSlice(r: Ring, r': Ring, lo: nat, hi: nat)
    requires Grown(r, r') && lo <= hi <= r.phAt
    ensures r'.log[lo..hi] == r.log[lo..hi]
  {
    assert r'.phAt >= r.phAt && r'.log[..r.phAt] == r.log && |r'.log| >= r.phAt;
    hide *;
    SliceOfPrefix(r'.log, r.phAt, lo, hi);
  }

  lemma SliceOfPrefix(s: seq<Obj>, n: nat, lo: nat, hi: nat)
    requires lo <= hi <= n <= |s|
    ensures s[lo..hi] == s[..n][lo..hi]
  {
  }

  lemma ProducerGrown(r: Ring, r': Ring, q: Producer)
    requires Grown(r, r') && ProducerOk(r, q)
    requires r.sp && (q.PRead? || q.PCas?) ==> r'.phAt == r.phAt
    ensures ProducerOk(r', q)
  {
    if q.PCopy? { LogSlice(r, r', q.at, q.at + q.n); }
  }

  lemma ConsumerGrown(r: Ring, r': Ring, c: Consumer)
    requires Grown(r, r') && ConsumerOk(r, c)
    ensures ConsumerOk(r', c)
  {
    if c.CCopy? { LogSlice(r, r', c.at, c.at + |c.got|); }
  }

  // The ring after producer `i` won positions `[phAt, phAt + n)`.
  ghost function Reserved(r: Ring, i: nat): Ring
    requires i < |r.prods| && r.prods[i].PCas? && r.prods[i].n <= |r.prods[i].objs|
  {
    var p := r.prods[i];
    r.(ph := p.next, phAt := r.phAt + p.n, log := r.log + p.objs[..p.n],
       prods := r.prods[i := PCopy(p.objs, p.n, p.seen, p.next, p.at, 0, false)])
  }

  lemma ReservesTile(r: Ring, i: nat)
    requires Inv(r) && i < |r.prods| && r.prods[i].PCas? && r.prods[i].at == r.phAt
    ensures ProducersTile(Reserved(r, i)) && ConsumersTile(Reserved(r, i))
  {
    var p := r.prods[i];
    var r' := Reserved(r, i);
    assert ProducerOk(r, p);
    forall j: nat, x: nat | PHolds(r', j, x) && j != i ensures PHolds(r, j, x) && x < r.phAt {
      assert ProducerOk(r, r.prods[j]);
    }
    forall x | r'.ptAt <= x < r'.phAt ensures PHeld(r', x) {
      if x < r.phAt {
        assert PHeld(r, x);
        var j :| PHolds(r, j, x);
        assert PHolds(r', j, x);
      } else {
        assert PHolds(r', i, x);
      }
    }
    ConsumersUntouched(r, r');
  }

  lemma ConsumersUntouched(r: Ring, r': Ring)
    requires ConsumersTile(r) && r'.cons == r.cons && r'.ctAt == r.ctAt && r'.chAt == r.chAt
    ensures ConsumersTile(r')
  {
    forall x | r'.ctAt <= x < r'.chAt ensures CHeld(r', x) {
      assert CHeld(r, x);
      var j :| CHolds(r, j, x);
      assert CHolds(r', j, x);
    }
    assert forall i, p :: CHolds(r', i, p) <==> CHolds(r, i, p);
  }

  lemma ProducersUntouched(r: Ring, r': Ring)
    requires ProducersTile(r) && r'.prods == r.prods && r'.ptAt == r.ptAt && r'.phAt == r.phAt
    ensures ProducersTile(r')
  {
    forall x | r'.ptAt <= x < r'.phAt ensures PHeld(r', x) {
      assert PHeld(r, x);
      var j :| PHolds(r, j, x);
      assert PHolds(r', j, x);
    }
    assert forall i, p :: PHolds(r', i, p) <==> PHolds(r, i, p);
  }

  lemma Reserves(r: Ring, i: nat)
    requires Inv(r) && i < |r.prods| && r.prods[i].PCas? && r.prods[i].at == r.phAt
    ensures Inv(Reserved(r, i))
  {
    var p := r.prods[i];
    assert ProducerOk(r, p);
    var r' := Reserved(r, i);
    assert Grown(r, r');
    forall j | 0 <= j < |r'.prods| ensures ProducerOk(r', r'.prods[j]) {
      if j == i {
        assert r'.log[p.at..p.at + p.n] == p.objs[..p.n];
      } else {
        ProducerGrown(r, r', r.prods[j]);
      }
    }
    forall j | 0 <= j < |r'.cons| ensures ConsumerOk(r', r'.cons[j]) {
      ConsumerGrown(r, r', r.cons[j]);
    }
    ReservesTile(r, i);
  }

  lemma ProducerSwaps(r: Ring, i: nat)
    requires Inv(r) && i < |r.prods| && r.prods[i].PCas? && Timely(r, ProdStep(i))
    ensures Inv(StepProducer(r, i))
    ensures StepProducer(r, i).prods[i].PCopy? <==> r.phAt == r.prods[i].at
  {
    var p := r.prods[i];
    assert ProducerOk(r, p);
    if r.sp || r.ph == p.seen {
      WrapInjective(p.at, r.phAt);
      Reserves(r, i);
      assert StepProducer(r, i) == Reserved(r, i);
    } else {
      MovesQuietly(r, i, PStart(p.objs, p.beh));
    }
  }

  // The ring after object `k` of producer `i` is stored.
  ghost function Stored(r: Ring, i: nat): Ring
    requires Shape(r) && i < |r.prods| && r.prods[i].PCopy? && r.prods[i].k < |r.prods[i].objs|
  {
    var p := r.prods[i];
    r.(slots := r.slots[Slot(r, p.at + p.k) := p.objs[p.k]],
       prods := r.prods[i := PCopy(p.objs, p.n, p.seen, p.next, p.at, p.k + 1, false)])
  }

  // A store at position `x` leaves the slots of all other live positions alone.
  lemma StoreElsewhere(r: Ring, x: nat, o: Obj, y: nat)
    requires Shape(r) && Counters(r) && r.ctAt <= x < r.phAt && r.ctAt <= y < r.phAt && x != y
    ensures r.slots[Slot(r, x) := o][Slot(r, y)] == r.slots[Slot(r, y)]
  {
    if x < y { Arith.RemDiffer(x, y, r.size); } else { Arith.RemDiffer(y, x, r.size); }
  }

  // A store at a live position `x` outside `[lo, hi)` leaves those positions in their slots.
  lemma HoldingElsewhere(r: Ring, r': Ring, x: nat, o: Obj, lo: nat, hi: nat)
    requires Shape(r) && Counters(r) && r.ctAt <= lo <= hi <= r.phAt && Holding(r, lo, hi)
    requires r.ctAt <= x < r.phAt && (x < lo || hi <= x)
    requires Shape(r') && r'.size == r.size && r'.log == r.log && r'.phAt == r.phAt
    requires r'.slots == r.slots[Slot(r, x) := o]
    ensures Holding(r', lo, hi)
  {
    forall y | lo <= y < hi ensures r'.slots[Slot(r', y)] == r'.log[y] {
      StoreElsewhere(r, x, o, y);
    }
  }

  lemma OwnStore(r: Ring, i: nat)
    requires Shape(r) && Counters(r) && i < |r.prods|
    requires r.prods[i].PCopy? && r.prods[i].k < r.prods[i].n && ProducerOk(r, r.prods[i])
    ensures ProducerOk(Stored(r, i), Stored(r, i).prods[i])
  {
    hide Slot, Wrap, Holding, ProducerOk;
    var p := r.prods[i];
    CopyBounds(r, p);
    var r' := Stored(r, i);
    HoldingElsewhere(r, r', p.at + p.k, p.objs[p.k], p.at, p.at + p.k);
    SameSlots(r, r', p.at + p.k);
    HoldingOneMore(r', p.at, p.at + p.k);
    CopyOn(r, p, r');
  }

  lemma CopyOn(r: Ring, p: Producer, r': Ring)
    requires Shape(r) && |r.log| == r.phAt && p.PCopy? && ProducerOk(r, p) && p.k < p.n
    requires Shape(r') && r'.log == r.log && r'.phAt == r.phAt && r'.ptAt == r.ptAt
    requires Holding(r', p.at, p.at + p.k + 1)
    ensures ProducerOk(r', PCopy(p.objs, p.n, p.seen, p.next, p.at, p.k + 1, false))
  {
    hide Slot, Wrap, Holding;
  }

  lemma SameSlots(r: Ring, r': Ring, x: nat)
    requires r.size == r'.size > 0
    ensures Slot(r', x) == Slot(r, x)
  {
  }

  lemma HoldingOneMore(r: Ring, lo: nat, hi: nat)
    requires Shape(r) && |r.log| == r.phAt && hi < r.phAt
    requires Holding(r, lo, hi) && r.slots[Slot(r, hi)] == r.log[hi]
    ensures Holding(r, lo, hi + 1)
  {
    hide Slot;
  }

  lemma StepIsStore(r: Ring, i: nat)
    requires Shape(r) && i < |r.prods| && r.prods[i].PCopy?
    requires r.prods[i].k < r.prods[i].n <= |r.prods[i].objs| && r.prods[i].seen == Wrap(r.prods[i].at)
    ensures StepProducer(r, i) == Stored(r, i)
  {
    SlotOfWrapped(r, r.prods[i].at, r.prods[i].k);
  }

  lemma OtherStore(r: Ring, i: nat, j: nat)
    requires Inv(r) && i < |r.prods| && r.prods[i].PCopy? && r.prods[i].k < r.prods[i].n
    requires j < |r.prods| && j != i && ProducerOk(r, r.prods[i])
    ensures ProducerOk(Stored(r, i), r.prods[j])
  {
    hide Slot, Wrap, Contents, ConsumersTile, ConsumerOk;
    var p, q := r.prods[i], r.prods[j];
    assert ProducerOk(r, q);
    var x := p.at + p.k;
    if q.PCopy? {
      assert PHolds(r, i, x) && !PHolds(r, j, x);
      HoldingElsewhere(r, Stored(r, i), x, p.objs[p.k], q.at, q.at + q.k);
    }
  }

  lemma StoreKeeps(r: Ring, i: nat)
    requires Inv(r) && i < |r.prods| && r.prods[i].PCopy? && r.prods[i].k < r.prods[i].n
    ensures ProducerOk(r, r.prods[i]) && Inv(Stored(r, i))
  {
    hide ProducerOk, ConsumerOk, Holding, Slot, Wrap, ProducersTile, ConsumersTile;
    var p := r.prods[i];
    assert ProducerOk(r, p);
    CopyBounds(r, p);
    StoredProducers(r, i);
    StoredConsumers(r, i);
    StoredTiles(r, i);
    HoldingElsewhere(r, Stored(r, i), p.at + p.k, p.objs[p.k], r.ctAt, r.ptAt);
  }

  lemma StoredProducers(r: Ring, i: nat)
    requires Inv(r) && i < |r.prods| && r.prods[i].PCopy? && r.prods[i].k < r.prods[i].n <= |r.prods[i].objs|
    ensures forall j :: 0 <= j < |r.prods| ==> ProducerOk(Stored(r, i), Stored(r, i).prods[j])
  {
    assert ProducerOk(r, r.prods[i]);
    OwnStore(r, i);
    hide ProducerOk, ConsumerOk, Holding, Slot, ProducersTile, ConsumersTile;
    forall j | 0 <= j < |r.prods| ensures ProducerOk(Stored(r, i), Stored(r, i).prods[j]) {
      if j != i { OtherStore(r, i, j); }
    }
  }

  lemma StoredConsumers(r: Ring, i: nat)
    requires Inv(r) && i < |r.prods| && r.prods[i].PCopy? && r.prods[i].k < r.prods[i].n <= |r.prods[i].objs|
    ensures forall j :: 0 <= j < |r.cons| ==> ConsumerOk(Stored(r, i), r.cons[j])
  {
    hide ProducerOk, ConsumerOk, Holding, Slot, ProducersTile, ConsumersTile;
    forall j | 0 <= j < |r.cons| ensures ConsumerOk(Stored(r, i), r.cons[j]) {
      ConsumerStored(r, i, r.cons[j]);
    }
  }

  lemma CopyBounds(r: Ring, p: Producer)
    requires Shape(r) && |r.log| == r.phAt && p.PCopy? && ProducerOk(r, p)
    ensures p.k <= p.n <= |p.objs| && r.ptAt <= p.at && p.at + p.n <= r.phAt && Holding(r, p.at, p.at + p.k)
    ensures p.k < p.n ==> r.log[p.at + p.k] == p.objs[p.k]
  {
    hide Slot, Wrap, Holding;
    if p.k < p.n { assert r.log[p.at + p.k] == r.log[p.at..p.at + p.n][p.k] == p.objs[..p.n][p.k]; }
  }

  lemma ConsumerStored(r: Ring, i: nat, c: Consumer)
    requires Shape(r) && |r.log| == r.phAt && ConsumerOk(r, c)
    requires i < |r.prods| && r.prods[i].PCopy? && r.prods[i].k < |r.prods[i].objs|
    ensures ConsumerOk(Stored(r, i), c)
  {
  }

  lemma StoredTiles(r: Ring, i: nat)
    requires Shape(r) && ProducersTile(r) && ConsumersTile(r)
    requires i < |r.prods| && r.prods[i].PCopy? && r.prods[i].k < |r.prods[i].objs|
    ensures ProducersTile(Stored(r, i)) && ConsumersTile(Stored(r, i))
  {
    hide Slot;
    SameTiling(r, Stored(r, i));
  }

  lemma Stores(r: Ring, i: nat)
    requires Inv(r) && i < |r.prods| && r.prods[i].PCopy? && r.prods[i].k < r.prods[i].n
    ensures Inv(StepProducer(r, i))
  {
    StoreKeeps(r, i);
    StepIsStore(r, i);
  }

  // With everything copied, the tail names this producer's first position exactly when it may publish.
  lemma TurnToPublish(r: Ring, i: nat)
    requires Inv(r) && i < |r.prods| && r.prods[i].PCopy?
    requires r.sp || r.prods[i].turn || r.pt == r.prods[i].seen
    ensures r.prods[i].at == r.ptAt
  {
    var p := r.prods[i];
    assert ProducerOk(r, p);
    if r.pt == p.seen {
      WrapInjective(r.ptAt, p.at);
    } else if !p.turn {
      assert PHeld(r, r.ptAt);
      var j :| PHolds(r, j, r.ptAt);
    }
  }

  ghost function Published(r: Ring, i: nat): Ring
    requires i < |r.prods| && r.prods[i].PCopy?
  {
    var p := r.prods[i];
    r.(pt := p.next, ptAt := p.at + p.n, prods := r.prods[i := PIdle(p.n)])
  }

  lemma PublishTiles(r: Ring, i: nat)
    requires Inv(r) && i < |r.prods| && r.prods[i].PCopy? && r.prods[i].at == r.ptAt
    ensures ProducersTile(Published(r, i)) && ConsumersTile(Published(r, i))
    ensures forall j :: 0 <= j < |r.prods| && j != i && r.prods[j].PCopy? ==>
              r.prods[j].at >= r.prods[i].at + r.prods[i].n
  {
    var p := r.prods[i];
    var r' := Published(r, i);
    forall x | r'.ptAt <= x < r'.phAt ensures PHeld(r', x) {
      assert PHeld(r, x);
      var j :| PHolds(r, j, x);
      assert PHolds(r', j, x);
    }
    forall j: nat, x: nat | PHolds(r', j, x) ensures PHolds(r, j, x) {}
    forall j | 0 <= j < |r.prods| && j != i && r.prods[j].PCopy? ensures r.prods[j].at >= p.at + p.n {
      var q := r.prods[j];
      assert ProducerOk(r, q) && ProducerOk(r, p);
      if q.at < p.at + p.n {
        assert PHolds(r, j, q.at) && PHolds(r, i, q.at);
        assert false;
      }
    }
    ConsumersUntouched(r, r');
  }

  lemma Publishes(r: Ring, i: nat)
    requires Inv(r) && i < |r.prods| && r.prods[i].PCopy? && r.prods[i].k == r.prods[i].n
    requires r.prods[i].at == r.ptAt
    ensures Inv(Published(r, i))
  {
    var p := r.prods[i];
    assert ProducerOk(r, p);
    var r' := Published(r, i);
    PublishTiles(r, i);
    forall j | 0 <= j < |r'.prods| ensures ProducerOk(r', r'.prods[j]) {
      assert j != i ==> ProducerOk(r, r.prods[j]);
    }
    forall j | 0 <= j < |r'.cons| ensures ConsumerOk(r', r'.cons[j]) {
      assert ConsumerOk(r, r.cons[j]);
    }
  }

  lemma ProducerFinishes(r: Ring, i: nat)
    requires Inv(r) && i < |r.prods| && r.prods[i].PCopy? && r.prods[i].k == r.prods[i].n
    ensures Inv(StepProducer(r, i))
  {
    var p := r.prods[i];
    if r.sp || p.turn {
      TurnToPublish(r, i);
      Publishes(r, i);
      assert StepProducer(r, i) == Published(r, i);
    } else if r.pt == p.seen {
      TurnToPublish(r, i);
      TakesTurn(r, i);
    }
  }

  // The tail test passed: it stays so until this producer stores the tail.
  lemma TakesTurn(r: Ring, i: nat)
    requires Inv(r) && i < |r.prods| && r.prods[i].PCopy? && r.prods[i].k == r.prods[i].n
    requires r.prods[i].at == r.ptAt
    ensures Inv(r.(prods := r.prods[i := r.prods[i].(turn := true)]))
  {
    assert ProducerOk(r, r.prods[i]);
    MovesQuietly(r, i, r.prods[i].(turn := true));
  }

  // ----- a consumer reserves, copies and releases -----

  lemma ConsumerMovesQuietly(r: Ring, i: nat, c': Consumer)
    requires Inv(r) && i < |r.cons| && r.cons[i].CCopy? == c'.CCopy? && ConsumerOk(r, c')
    requires c'.CCopy? ==> c'.at == r.cons[i].at && c'.n == r.cons[i].n
    ensures Inv(r.(cons := r.cons[i := c']))
  {
    hide ProducerOk, ConsumerOk, Contents, Counters, Holding;
    var r' := r.(cons := r.cons[i := c']);
    RightStays(r, r');
    SameTiling(r, r');
  }

  lemma ConsumerReadsTail(r: Ring, i: nat)
    requires Inv(r) && i < |r.cons| && r.cons[i].CRead?
    ensures Inv(StepConsumer(r, i))
  {
    var CRead(max, beh, seen, at) := r.cons[i];
    assert ConsumerOk(r, r.cons[i]);
    if at == r.chAt { Sub32Exact(r.ptAt, at); }
    var n := Granted(max, Sub32(r.pt, seen), beh);
    Arith.RemAdd(at, n, WRAP);
    var c' := if n == 0 then CIdle([]) else CCas(max, beh, n, seen, Add32(seen, n), at);
    assert ConsumerOk(r, c');
    ConsumerMovesQuietly(r, i, c');
  }

  ghost function Claimed(r: Ring, i: nat): Ring
    requires i < |r.cons| && r.cons[i].CCas?
  {
    var c := r.cons[i];
    r.(ch := c.next, chAt := r.chAt + c.n, cons := r.cons[i := CCopy(c.n, c.seen, c.next, c.at, [], false)])
  }

  lemma ClaimTiles(r: Ring, i: nat)
    requires Inv(r) && i < |r.cons| && r.cons[i].CCas? && r.cons[i].at == r.chAt
    ensures ProducersTile(Claimed(r, i)) && ConsumersTile(Claimed(r, i))
  {
    var r' := Claimed(r, i);
    assert ConsumerOk(r, r.cons[i]);
    forall j: nat, x: nat | CHolds(r', j, x) && j != i ensures CHolds(r, j, x) && x < r.chAt {
      assert ConsumerOk(r, r.cons[j]);
    }
    forall x | r'.ctAt <= x < r'.chAt ensures CHeld(r', x) {
      if x < r.chAt {
        assert CHeld(r, x);
        var j :| CHolds(r, j, x);
        assert CHolds(r', j, x);
      } else {
        assert CHolds(r', i, x);
      }
    }
    ProducersUntouched(r, r');
  }

  lemma Claims(r: Ring, i: nat)
    requires Inv(r) && i < |r.cons| && r.cons[i].CCas? && r.cons[i].at == r.chAt
    ensures Inv(Claimed(r, i))
  {
    var r' := Claimed(r, i);
    assert ConsumerOk(r, r.cons[i]);
    forall j | 0 <= j < |r'.prods| ensures ProducerOk(r', r'.prods[j]) {
      assert ProducerOk(r, r.prods[j]);
    }
    forall j | 0 <= j < |r'.cons| ensures ConsumerOk(r', r'.cons[j]) {
      assert j != i ==> ConsumerOk(r, r.cons[j]);
    }
    ClaimTiles(r, i);
  }

  lemma ConsumerSwaps(r: Ring, i: nat)
    requires Inv(r) && i < |r.cons| && r.cons[i].CCas? && Timely(r, ConsStep(i))
    ensures Inv(StepConsumer(r, i))
    ensures StepConsumer(r, i).cons[i].CCopy? <==> r.chAt == r.cons[i].at
  {
    var c := r.cons[i];
    assert ConsumerOk(r, c);
    if r.sc || r.ch == c.seen {
      WrapInjective(c.at, r.chAt);
      Claims(r, i);
      assert StepConsumer(r, i) == Claimed(r, i);
    } else {
      ConsumerMovesQuietly(r, i, CStart(c.max, c.beh));
    }
  }

  // The ring after consumer `i` read its next object.
  ghost function Loaded(r: Ring, i: nat): Ring
    requires Shape(r) && i < |r.cons| && r.cons[i].CCopy?
  {
    var c := r.cons[i];
    var y := c.at + |c.got|;
    var x := r.slots[Slot(r, y)];
    r.(recv := r.recv[y := x], cons := r.cons[i := CCopy(c.n, c.seen, c.next, c.at, c.got + [x], false)])
  }

  lemma LoadIsRight(r: Ring, i: nat)
    requires Inv(r) && i < |r.cons| && r.cons[i].CCopy? && |r.cons[i].got| < r.cons[i].n
    ensures ConsumerOk(r, r.cons[i]) && r.cons[i].at + |r.cons[i].got| < |r.log|
    ensures var y := r.cons[i].at + |r.cons[i].got|; y !in r.recv && r.slots[Slot(r, y)] == r.log[y]
  {
    var c := r.cons[i];
    assert ConsumerOk(r, c);
    var y := c.at + |c.got|;
    assert Holding(r, r.ctAt, r.ptAt);
    assert r.slots[Slot(r, y)] == r.log[y];
  }

  lemma LoadedIsRight(r: Ring, i: nat)
    requires Shape(r) && Counters(r) && i < |r.cons| && r.cons[i].CCopy? && ConsumerOk(r, r.cons[i])
    requires |r.cons[i].got| < r.cons[i].n
    requires var y := r.cons[i].at + |r.cons[i].got|; r.slots[Slot(r, y)] == r.log[y]
    ensures ConsumerOk(Loaded(r, i), Loaded(r, i).cons[i])
  {
    var c := r.cons[i];
    var y := c.at + |c.got|;
    var r' := Loaded(r, i);
    hide Slot, Wrap;
    assert r.log[c.at..y + 1] == r.log[c.at..y] + [r.log[y]];
    assert r'.cons[i].got == r.log[c.at..y + 1];
    assert r'.recv.Keys == r.recv.Keys + {y};
  }

  lemma LoadKeeps(r: Ring, i: nat)
    requires Inv(r) && i < |r.cons| && r.cons[i].CCopy? && |r.cons[i].got| < r.cons[i].n
    ensures Inv(Loaded(r, i))
  {
    hide ProducerOk, ConsumerOk, Holding, Slot;
    LoadIsRight(r, i);
    LoadedIsRight(r, i);
    LoadBounds(r, r.cons[i]);
    var r' := Loaded(r, i);
    forall j | 0 <= j < |r'.prods| ensures ProducerOk(r', r'.prods[j]) {
      ProducerLoaded(r, i, r.prods[j]);
    }
    forall j | 0 <= j < |r'.cons| ensures ConsumerOk(r', r'.cons[j]) {
      if j != i { OtherLoaded(r, i, j); }
    }
    HoldingLoaded(r, i);
    SameTiling(r, r');
  }

  lemma LoadBounds(r: Ring, c: Consumer)
    requires Shape(r) && |r.log| == r.phAt && c.CCopy? && ConsumerOk(r, c)
    ensures r.ctAt <= c.at && c.at + c.n <= r.chAt <= r.phAt
  {
  }

  lemma ProducerLoaded(r: Ring, i: nat, p: Producer)
    requires Shape(r) && |r.log| == r.phAt && ProducerOk(r, p) && i < |r.cons| && r.cons[i].CCopy?
    ensures ProducerOk(Loaded(r, i), p)
  {
  }

  lemma HoldingLoaded(r: Ring, i: nat)
    requires Shape(r) && Counters(r) && Holding(r, r.ctAt, r.ptAt) && i < |r.cons| && r.cons[i].CCopy?
    ensures Holding(Loaded(r, i), r.ctAt, r.ptAt)
  {
  }

  lemma OtherLoaded(r: Ring, i: nat, j: nat)
    requires Shape(r) && |r.log| == r.phAt && ConsumersTile(r) && i < |r.cons| && j < |r.cons| && i != j
    requires r.cons[i].CCopy? && |r.cons[i].got| < r.cons[i].n && ConsumerOk(r, r.cons[j])
    ensures ConsumerOk(Loaded(r, i), r.cons[j])
  {
    OthersNotLoaded(r, i, j);
  }

  lemma OthersNotLoaded(r: Ring, i: nat, j: nat)
    requires ConsumersTile(r) && i < |r.cons| && j < |r.cons| && i != j
    requires r.cons[i].CCopy? && |r.cons[i].got| < r.cons[i].n
    ensures r.cons[j].CCopy? ==>
              var y := r.cons[i].at + |r.cons[i].got|;
              !(r.cons[j].at <= y < r.cons[j].at + r.cons[j].n)
  {
    var y := r.cons[i].at + |r.cons[i].got|;
    assert CHolds(r, i, y);
    assert !CHolds(r, j, y);
  }

  lemma StepIsLoad(r: Ring, i: nat)
    requires Shape(r) && i < |r.cons| && r.cons[i].CCopy?
    requires |r.cons[i].got| < r.cons[i].n && r.cons[i].seen == Wrap(r.cons[i].at)
    ensures StepConsumer(r, i) == Loaded(r, i)
  {
    SlotOfWrapped(r, r.cons[i].at, |r.cons[i].got|);
  }

  lemma Loads(r: Ring, i: nat)
    requires Inv(r) && i < |r.cons| && r.cons[i].CCopy? && |r.cons[i].got| < r.cons[i].n
    ensures Inv(StepConsumer(r, i))
  {
    LoadKeeps(r, i);
    assert ConsumerOk(r, r.cons[i]);
    StepIsLoad(r, i);
  }

  ghost function Released(r: Ring, i: nat): Ring
    requires i < |r.cons| && r.cons[i].CCopy?
  {
    var c := r.cons[i];
    r.(ct := c.next, ctAt := c.at + c.n, cons := r.cons[i := CIdle(c.got)])
  }

  lemma TurnToRelease(r: Ring, i: nat)
    requires Inv(r) && i < |r.cons| && r.cons[i].CCopy?
    requires r.sc || r.cons[i].turn || r.ct == r.cons[i].seen
    ensures r.cons[i].at == r.ctAt
  {
    var c := r.cons[i];
    assert ConsumerOk(r, c);
    if r.ct == c.seen {
      WrapInjective(r.ctAt, c.at);
    } else if !c.turn {
      assert CHeld(r, r.ctAt);
      var j :| CHolds(r, j, r.ctAt);
    }
  }

  lemma ReleaseTiles(r: Ring, i: nat)
    requires Inv(r) && i < |r.cons| && r.cons[i].CCopy? && r.cons[i].at == r.ctAt
    ensures ProducersTile(Released(r, i)) && ConsumersTile(Released(r, i))
    ensures forall j :: 0 <= j < |r.cons| && j != i && r.cons[j].CCopy? ==>
              r.cons[j].at >= r.cons[i].at + r.cons[i].n
  {
    var c := r.cons[i];
    var r' := Released(r, i);
    forall x | r'.ctAt <= x < r'.chAt ensures CHeld(r', x) {
      assert CHeld(r, x);
      var j :| CHolds(r, j, x);
      assert CHolds(r', j, x);
    }
    forall j: nat, x: nat | CHolds(r', j, x) ensures CHolds(r, j, x) {}
    forall j | 0 <= j < |r.cons| && j != i && r.cons[j].CCopy? ensures r.cons[j].at >= c.at + c.n {
      var q := r.cons[j];
      assert ConsumerOk(r, q) && ConsumerOk(r, c);
      if q.at < c.at + c.n {
        assert CHolds(r, j, q.at) && CHolds(r, i, q.at);
        assert false;
      }
    }
    ProducersUntouched(r, r');
  }

  lemma Releases(r: Ring, i: nat)
    requires Inv(r) && i < |r.cons| && r.cons[i].CCopy? && |r.cons[i].got| == r.cons[i].n
    requires r.cons[i].at == r.ctAt
    ensures Inv(Released(r, i))
  {
    var r' := Released(r, i);
    assert ConsumerOk(r, r.cons[i]);
    ReleaseTiles(r, i);
    forall j | 0 <= j < |r'.prods| ensures ProducerOk(r', r'.prods[j]) {
      assert ProducerOk(r, r.prods[j]);
    }
    forall j | 0 <= j < |r'.cons| ensures ConsumerOk(r', r'.cons[j]) {
      assert j != i ==> ConsumerOk(r, r.cons[j]);
    }
  }

  lemma ConsumerFinishes(r: Ring, i: nat)
    requires Inv(r) && i < |r.cons| && r.cons[i].CCopy? && |r.cons[i].got| == r.cons[i].n
    ensures Inv(StepConsumer(r, i))
  {
    if r.sc || r.cons[i].turn {
      TurnToRelease(r, i);
      Releases(r, i);
      assert StepConsumer(r, i) == Released(r, i);
    } else if r.ct == r.cons[i].seen {
      TurnToRelease(r, i);
      ConsumerTakesTurn(r, i);
    }
  }

  lemma ConsumerTakesTurn(r: Ring, i: nat)
    requires Inv(r) && i < |r.cons| && r.cons[i].CCopy? && |r.cons[i].got| == r.cons[i].n && r.cons[i].at == r.ctAt
    ensures Inv(r.(cons := r.cons[i := r.cons[i].(turn := true)]))
  {
    assert ConsumerOk(r, r.cons[i]);
    ConsumerMovesQuietly(r, i, r.cons[i].(turn := true));
  }

  // ----- whole runs -----

  lemma ProducerStepKeeps(r: Ring, i: nat)
    requires Inv(r) && i < |r.prods| && Timely(r, ProdStep(i))
    ensures Inv(StepProducer(r, i))
  {
    assert ProducerOk(r, r.prods[i]);
    match r.prods[i]
    case PIdle(_) => ProducerStarts(r, i);
    case PStart(_, _) => ProducerStarts(r, i);
    case PRead(_, _, _, _) => ProducerReadsTail(r, i);
    case PCas(_, _, _, _, _, _) => ProducerSwaps(r, i);
    case PCopy(_, n, _, _, _, k, _) => if k < n { Stores(r, i); } else { ProducerFinishes(r, i); }
  }

  lemma ConsumerStepKeeps(r: Ring, i: nat)
    requires Inv(r) && i < |r.cons| && Timely(r, ConsStep(i))
    ensures Inv(StepConsumer(r, i))
  {
    assert ConsumerOk(r, r.cons[i]);
    match r.cons[i]
    case CIdle(_) =>
    case CStart(max, beh) => ConsumerMovesQuietly(r, i, CRead(max, beh, r.ch, r.chAt));
    case CRead(_, _, _, _) => ConsumerReadsTail(r, i);
    case CCas(_, _, _, _, _, _) => ConsumerSwaps(r, i);
    case CCopy(n, _, _, _, got, _) => if |got| < n { Loads(r, i); } else { ConsumerFinishes(r, i); }
  }

  /** Any access by any thread keeps the invariant. */
  lemma StepKeeps(r: Ring, a: Action)
    requires Inv(r) && Timely(r, a)
    ensures Inv(Step(r, a))
  {
    match a
    case Enqueue(i, objs, beh) =>
      if i < |r.prods| && r.prods[i].PIdle? { MovesQuietly(r, i, PStart(objs, beh)); }
    case Dequeue(i, n, beh) =>
      if i < |r.cons| && r.cons[i].CIdle? { ConsumerMovesQuietly(r, i, CStart(n, beh)); }
    case ProdStep(i) => if i < |r.prods| { ProducerStepKeeps(r, i); }
    case ConsStep(i) => if i < |r.cons| { ConsumerStepKeeps(r, i); }
  }

  ghost function Run(r: Ring, acts: seq<Action>): (r': Ring)
    requires Shape(r)
    ensures Shape(r')
    decreases |acts|
  {
    if acts == [] then r else Run(Step(r, acts[0]), acts[1..])
  }

  // Every compare-and-swap of the run is timely.
  ghost predicate TimelyRun(r: Ring, acts: seq<Action>)
    requires Shape(r)
    decreases |acts|
  {
    acts != [] ==> Timely(r, acts[0]) && TimelyRun(Step(r, acts[0]), acts[1..])
  }

  lemma {:induction false} RunKeeps(r: Ring, acts: seq<Action>)
    requires Inv(r) && TimelyRun(r, acts)
    ensures Inv(Run(r, acts))
    decreases |acts|
  {
    if acts != [] {
      StepKeeps(r, acts[0]);
      RunKeeps(Step(r, acts[0]), acts[1..]);
    }
  }

  lemma InitIsRight(r: Ring)
    requires Init(r)
    ensures Inv(r)
  {
  }

  /** Protocol safety: after any timely interleaving of any threads, the tails and heads are ordered
      and never more than `capacity` apart, the 32-bit fields are their images, in-flight
      reservations of a side never overlap and cover the whole gap between its tail and head, and
      every object received is the one sent at that position. */
  lemma RunsAreSafe(r0: Ring, acts: seq<Action>, r: Ring)
    requires Init(r0) && TimelyRun(r0, acts) && r == Run(r0, acts)
    ensures r.ctAt <= r.chAt <= r.ptAt <= r.phAt <= r.ctAt + r.capacity
    ensures r.ph == Wrap(r.phAt) && r.pt == Wrap(r.ptAt) && r.ch == Wrap(r.chAt) && r.ct == Wrap(r.ctAt)
    ensures forall i, j, p :: PHolds(r, i, p) && PHolds(r, j, p) ==> i == j
    ensures forall i, j, p :: CHolds(r, i, p) && CHolds(r, j, p) ==> i == j
    ensures forall p :: r.ptAt <= p < r.phAt ==> PHeld(r, p)
    ensures forall p :: r.ctAt <= p < r.chAt ==> CHeld(r, p)
    ensures forall p :: p in r.recv ==> p < |r.log| && r.recv[p] == r.log[p]
    ensures r.ctAt == r.phAt ==> r.recv == map p | 0 <= p < |r.log| :: r.log[p]
  {
    InitIsRight(r0);
    RunKeeps(r0, acts);
  }

  /** Until it is released every published object is in the slot of its position, modulo the size. */
  lemma PublishedInSlots(r: Ring, p: nat)
    requires Inv(r) && r.ctAt <= p < r.ptAt
    ensures r.slots[p % r.size] == r.log[p]
  {
    Arith.RemIsMod(p, r.size);
    assert Slot(r, p) == p % r.size;
  }

  // `recv'` is what was received before, or that and the next object consumer `i` is owed.
  ghost predicate Receives(r: Ring, i: nat, recv': map<nat, Obj>) {
    || recv' == r.recv
    || (&& i < |r.cons| && r.cons[i].CCopy? && |r.cons[i].got| < r.cons[i].n
        && var p := r.cons[i].at + |r.cons[i].got|;
           p !in r.recv && p < |r.log| && recv' == r.recv[p := r.log[p]])
  }

  lemma ConsumerStepHistory(r: Ring, i: nat)
    requires Inv(r) && i < |r.cons|
    ensures Receives(r, i, StepConsumer(r, i).recv)
  {
    var c := r.cons[i];
    if c.CCopy? && |c.got| < c.n {
      LoadIsRight(r, i);
      CopyImage(r, c);
      StepIsLoad(r, i);
      hide StepConsumer, Inv, Slot, ConsumerOk;
      assert Receives(r, i, Loaded(r, i).recv);
    } else {
      NothingReceived(r, i);
    }
  }

  lemma CopyImage(r: Ring, c: Consumer)
    requires Shape(r) && |r.log| == r.phAt && c.CCopy? && ConsumerOk(r, c)
    ensures c.seen == Wrap(c.at)
  {
  }

  lemma NothingReceived(r: Ring, i: nat)
    requires Shape(r) && i < |r.cons| && !(r.cons[i].CCopy? && |r.cons[i].got| < r.cons[i].n)
    ensures StepConsumer(r, i).recv == r.recv
  {
  }

  lemma ConsumerStepSends(r: Ring, i: nat)
    requires Shape(r) && i < |r.cons|
    ensures StepConsumer(r, i).log == r.log
  {
  }

  lemma ProducerStepHistory(r: Ring, i: nat)
    requires Shape(r) && i < |r.prods|
    ensures r.log <= StepProducer(r, i).log && StepProducer(r, i).recv == r.recv
  {
  }

  /** Nothing sent or received is ever changed, and a position is received at most once. */
  lemma HistoryOnlyGrows(r: Ring, a: Action)
    requires Inv(r)
    ensures r.log <= Step(r, a).log
    ensures if a.ConsStep? then Receives(r, a.i, Step(r, a).recv) else Step(r, a).recv == r.recv
  {
    assert Shape(r);
    hide Inv, StepConsumer, StepProducer;
    if a.ConsStep? && a.i < |r.cons| {
      ConsumerStepHistory(r, a.i);
      ConsumerStepSends(r, a.i);
    } else if a.ProdStep? && a.i < |r.prods| {
      ProducerStepHistory(r, a.i);
    }
  }

  /** A dequeue that returns objects returns consecutive positions of the send order, in that order,
      and they are the oldest unreleased ones. */
  lemma DequeueIsFifo(r: Ring, i: nat)
    requires Inv(r) && i < |r.cons| && r.cons[i].CCopy? && StepConsumer(r, i).cons[i].CIdle?
    ensures var c := r.cons[i];
      && c.at == r.ctAt && r.ctAt + c.n <= |r.log|
      && StepConsumer(r, i).cons[i].objs == r.log[r.ctAt..r.ctAt + c.n]
      && StepConsumer(r, i).ctAt == r.ctAt + c.n
  {
    assert ConsumerOk(r, r.cons[i]);
    TurnToRelease(r, i);
  }

  // `x` is less than `k` over a multiple of 2^32.
  ghost predicate Near(x: nat, k: nat) { exists m: nat :: m * WRAP <= x < m * WRAP + k }

  lemma RemIsNear(x: nat, k: nat)
    ensures Arith.Rem(x, WRAP) < k <==> Near(x, k)
    ensures x < WRAP ==> Arith.Rem(x, WRAP) == x
  {
    var q := Arith.RemQuotient(x, WRAP);
    if m: nat :| m * WRAP <= x < m * WRAP + k && k <= WRAP {
      Arith.DivUnique(q, Arith.Rem(x, WRAP), m, x - m * WRAP, WRAP);
    }
  }

  /** The wrapped subtraction loses multiples of 2^32. */
  lemma {:induction false} Sub32Near(a: nat, b: nat)
    requires b <= a
    ensures Sub32(Wrap(a), Wrap(b)) == Arith.Rem(a - b, WRAP)
    decreases a
  {
    if a - b >= WRAP { Sub32Near(a - WRAP, b); } else { Sub32Exact(a, b); }
  }

  // The free entries there are beyond the head a producer read, and what it makes of them.
  lemma FreeSeen(r: Ring, i: nat)
    requires Inv(r) && i < |r.prods| && r.prods[i].PRead?
    ensures var p := r.prods[i]; var free := r.capacity + r.ctAt - p.at;
      && free >= 0 && p.at <= r.phAt && Sub32(Add32(r.capacity, r.ct), p.seen) == Arith.Rem(free, WRAP)
      && p.seen == Wrap(p.at) && r.phAt <= r.ctAt + r.capacity && (p.at == r.phAt ==> free <= r.capacity)
  {
    var p := r.prods[i];
    assert ProducerOk(r, p);
    Arith.RemAdd(r.ctAt, r.capacity, WRAP);
    Sub32Near(r.ctAt + r.capacity, p.at);
  }

  /** A producer gives up exactly when it has nothing to enqueue or the entries beyond the head it read are
      fewer than it asks for, or over a multiple of 2^32 by fewer; unless that head is 2^32 entries behind,
      the ring then really lacks the room asked for (any room, when a partial enqueue would do). */
  lemma RefusalIsHonest(r: Ring, i: nat)
    requires Inv(r) && i < |r.prods| && r.prods[i].PRead?
    ensures var p := r.prods[i]; var free := r.capacity + r.ctAt - p.at;
      var asked := if p.beh == Fixed then |p.objs| else 1;
      && free >= 0 && (StepProducer(r, i).prods[i].PIdle? <==> p.objs == [] || Near(free, asked))
      && (free < WRAP && p.objs != [] && Near(free, asked) ==> r.phAt + asked > r.ctAt + r.capacity)
  {
    var p := r.prods[i];
    FreeSeen(r, i);
    RemIsNear(r.capacity + r.ctAt - p.at, if p.beh == Fixed then |p.objs| else 1);
  }

  /** How many objects a producer goes on with: all it has if there is room for them beyond the head it read, and
      else none, or, when a partial enqueue will do, as many as there is room for.  That room is counted modulo
      2^32, which loses nothing while the head is current. */
  lemma ReservesMost(r: Ring, i: nat, r': Ring)
    requires Inv(r) && i < |r.prods| && r.prods[i].PRead? && r' == StepProducer(r, i) && i < |r'.prods|
    ensures var p := r.prods[i]; var free := r.capacity + r.ctAt - p.at;
      && free >= 0 && (p.at == r.phAt ==> free % WRAP == free <= r.capacity)
      && r'.prods[i] ==
         if p.objs != [] && |p.objs| <= free % WRAP
         then PCas(p.objs, p.beh, |p.objs|, p.seen, Wrap(p.at + |p.objs|), p.at)
         else if p.objs != [] && p.beh == Variable && free % WRAP > 0
         then PCas(p.objs, p.beh, free % WRAP, p.seen, Wrap(p.at + free % WRAP), p.at)
         else PIdle(0)
  {
    hide StepProducer, Inv, Wrap, Sub32;
    FreeSeen(r, i);
    InvFacts(r);
    ProducerSees(r, i, r');
    var p := r.prods[i];
    var free := r.capacity + r.ctAt - p.at;
    Arith.RemIsMod(free, WRAP);
    AddWrapped(p.at, |p.objs|);
    AddWrapped(p.at, free % WRAP);
  }

  lemma AddWrapped(at: nat, n: nat)
    ensures Add32(Wrap(at), n) == Wrap(at + n)
  {
    Arith.RemAdd(at, n, WRAP);
  }

  lemma ProducerSees(r: Ring, i: nat, r': Ring)
    requires Shape(r) && i < |r.prods| && r.prods[i].PRead? && r' == StepProducer(r, i) && i < |r'.prods|
    ensures var p := r.prods[i]; var n := Granted(|p.objs|, Sub32(Add32(r.capacity, r.ct), p.seen), p.beh);
      r'.prods[i] == if n == 0 then PIdle(0) else PCas(p.objs, p.beh, n, p.seen, Add32(p.seen, n), p.at)
  {
    hide Wrap, Sub32, Granted;
  }

  /** The free count a producer computes is at most the capacity exactly while the entries beyond the head it
      read are, but for multiples of 2^32; unless that head is 2^32 entries behind, exactly while no slot
      behind it has been released. */
  lemma FreeWithinCapacity(r: Ring, i: nat)
    requires Inv(r) && i < |r.prods| && r.prods[i].PRead?
    ensures var p := r.prods[i]; var free := r.capacity + r.ctAt - p.at;
      var seen := Sub32(Add32(r.capacity, r.ct), p.seen);
      && free >= 0 && (seen <= r.capacity <==> Near(free, r.capacity + 1))
      && (free < WRAP ==> (seen <= r.capacity <==> r.ctAt <= p.at))
  {
    FreeSeen(r, i);
    RemIsNear(r.capacity + r.ctAt - r.prods[i].at, r.capacity + 1);
  }

  // The same for the entries a consumer sees.
  lemma EntriesSeen(r: Ring, i: nat)
    requires Inv(r) && i < |r.cons| && r.cons[i].CRead?
    ensures var c := r.cons[i];
      && c.at <= r.chAt <= r.ptAt && Sub32(r.pt, c.seen) == Arith.Rem(r.ptAt - c.at, WRAP)
      && c.seen == Wrap(c.at) && (c.at == r.chAt ==> r.ptAt - c.at <= r.capacity)
  {
    assert ConsumerOk(r, r.cons[i]);
    Sub32Near(r.ptAt, r.cons[i].at);
  }

  /** A consumer gives up exactly in the same way, and then as honestly. */
  lemma EmptyIsHonest(r: Ring, i: nat)
    requires Inv(r) && i < |r.cons| && r.cons[i].CRead?
    ensures var c := r.cons[i]; var asked := if c.beh == Fixed then c.max else 1;
      && c.at <= r.ptAt && (StepConsumer(r, i).cons[i].CIdle? <==> c.max == 0 || Near(r.ptAt - c.at, asked))
      && (r.ptAt - c.at < WRAP && Near(r.ptAt - c.at, asked) ==> r.chAt + asked > r.ptAt)
  {
    var c := r.cons[i];
    EntriesSeen(r, i);
    RemIsNear(r.ptAt - c.at, if c.beh == Fixed then c.max else 1);
  }

  /** And goes on with as many as it asked for if they are published beyond the head it read, and else with none,
      or, when a partial dequeue will do, with all that are, counted in the same way. */
  lemma ClaimsMost(r: Ring, i: nat, r': Ring)
    requires Inv(r) && i < |r.cons| && r.cons[i].CRead? && r' == StepConsumer(r, i) && i < |r'.cons|
    ensures var c := r.cons[i]; var there := r.ptAt - c.at;
      && there >= 0 && (c.at == r.chAt ==> there % WRAP == there <= r.capacity)
      && r'.cons[i] ==
         if c.max > 0 && c.max <= there % WRAP then CCas(c.max, c.beh, c.max, c.seen, Wrap(c.at + c.max), c.at)
         else if c.max > 0 && c.beh == Variable && there % WRAP > 0
         then CCas(c.max, c.beh, there % WRAP, c.seen, Wrap(c.at + there % WRAP), c.at)
         else CIdle([])
  {
    hide StepConsumer, Inv, Wrap, Sub32;
    EntriesSeen(r, i);
    InvFacts(r);
    ConsumerSees(r, i, r');
    var c := r.cons[i];
    var there := r.ptAt - c.at;
    Arith.RemIsMod(there, WRAP);
    AddWrapped(c.at, c.max);
    AddWrapped(c.at, there % WRAP);
  }

  lemma ConsumerSees(r: Ring, i: nat, r': Ring)
    requires Shape(r) && i < |r.cons| && r.cons[i].CRead? && r' == StepConsumer(r, i) && i < |r'.cons|
    ensures var c := r.cons[i]; var n := Granted(c.max, Sub32(r.pt, c.seen), c.beh);
      r'.cons[i] == if n == 0 then CIdle([]) else CCas(c.max, c.beh, n, c.seen, Add32(c.seen, n), c.at)
  {
    hide Wrap, Sub32, Granted;
  }

  // Only the state of producer `i` changes when it reads a head or a tail.
  lemma ProducerReads(r: Ring, i: nat, r': Ring)
    requires Shape(r) && i < |r.prods| && (r.prods[i].PStart? || r.prods[i].PRead?) && r' == StepProducer(r, i)
    ensures i < |r'.prods| && r' == r.(prods := r.prods[i := r'.prods[i]])
    ensures r.prods[i].PStart? ==> r'.prods[i] == PRead(r.prods[i].objs, r.prods[i].beh, r.ph, r.phAt)
  {
  }

  // Nothing beside its own state and what it reserves changes when it swaps the head.
  lemma ProducerWins(r: Ring, i: nat, r': Ring)
    requires Inv(r) && i < |r.prods| && r.prods[i].PCas? && r.prods[i].at == r.phAt && r' == StepProducer(r, i)
    ensures i < |r'.prods| && r'.prods[i].PCopy? && r'.prods[i].at == r.phAt && r'.prods[i].n == r.prods[i].n
    ensures r.prods[i].n <= |r.prods[i].objs| && r'.log == r.log + r.prods[i].objs[..r.prods[i].n]
    ensures r'.phAt == r.phAt + r.prods[i].n && r'.ptAt == r.ptAt
  {
    assert ProducerOk(r, r.prods[i]);
    ProducerSwaps(r, i);
  }

  /** With no other thread in between a producer gets what there is room for at its first try. */
  lemma AloneReserves(r: Ring, i: nat, r1: Ring, r2: Ring, r3: Ring)
    requires Inv(r) && i < |r.prods| && r.prods[i].PStart? && r1 == StepProducer(r, i)
    requires i < |r1.prods| && r2 == StepProducer(r1, i) && i < |r2.prods| && r3 == StepProducer(r2, i)
    ensures 0 <= r.capacity + r.ctAt - r.phAt <= r.capacity
    ensures var p := r.prods[i]; var room := r.capacity + r.ctAt - r.phAt;
      var n := if |p.objs| <= room then |p.objs| else if p.beh == Fixed then 0 else room;
      && (n == 0 ==> r2 == r.(prods := r.prods[i := PIdle(0)]))
      && (n > 0 ==> i < |r3.prods| && r3.prods[i].PCopy? && r3.prods[i].at == r.phAt && r3.prods[i].n == n)
      && (n > 0 ==> r3.phAt == r.phAt + n && r3.log == r.log + p.objs[..n] && r3.ptAt == r.ptAt)
  {
    hide StepProducer, Inv;
    InvFacts(r);
    ProducerReads(r, i, r1);
    ProducerStarts(r, i);
    ReservesMost(r1, i, r2);
    ProducerReads(r1, i, r2);
    ProducerReadsTail(r1, i);
    if r2.prods[i].PCas? { ProducerWins(r2, i, r3); }
  }

  lemma InvFacts(r: Ring)
    requires Inv(r)
    ensures Shape(r) && r.ctAt <= r.chAt <= r.ptAt <= r.phAt <= r.ctAt + r.capacity && |r.log| == r.phAt
  {
  }

  // Only the state of consumer `i` changes when it reads a head or a tail.
  lemma ConsumerReads(r: Ring, i: nat, r': Ring)
    requires Shape(r) && i < |r.cons| && (r.cons[i].CStart? || r.cons[i].CRead?) && r' == StepConsumer(r, i)
    ensures i < |r'.cons| && r' == r.(cons := r.cons[i := r'.cons[i]])
    ensures r.cons[i].CStart? ==> r'.cons[i] == CRead(r.cons[i].max, r.cons[i].beh, r.ch, r.chAt)
  {
  }

  lemma ConsumerWins(r: Ring, i: nat, r': Ring)
    requires Inv(r) && i < |r.cons| && r.cons[i].CCas? && r.cons[i].at == r.chAt && r' == StepConsumer(r, i)
    ensures i < |r'.cons| && r'.cons[i].CCopy? && r'.cons[i].at == r.chAt && r'.cons[i].n == r.cons[i].n
    ensures r'.chAt == r.chAt + r.cons[i].n && r'.ctAt == r.ctAt && r'.recv == r.recv
  {
    assert ConsumerOk(r, r.cons[i]);
    ConsumerSwaps(r, i);
  }

  /** So does a consumer with what is published. */
  lemma AloneClaims(r: Ring, i: nat, r1: Ring, r2: Ring, r3: Ring)
    requires Inv(r) && i < |r.cons| && r.cons[i].CStart? && r1 == StepConsumer(r, i)
    requires i < |r1.cons| && r2 == StepConsumer(r1, i) && i < |r2.cons| && r3 == StepConsumer(r2, i)
    ensures 0 <= r.ptAt - r.chAt <= r.capacity
    ensures var c := r.cons[i]; var there := r.ptAt - r.chAt;
      var n := if c.max <= there then c.max else if c.beh == Fixed then 0 else there;
      && (n == 0 ==> r2 == r.(cons := r.cons[i := CIdle([])]))
      && (n > 0 ==> i < |r3.cons| && r3.cons[i].CCopy? && r3.cons[i].at == r.chAt && r3.cons[i].n == n)
      && (n > 0 ==> r3.chAt == r.chAt + n && r3.ctAt == r.ctAt && r3.recv == r.recv)
  {
    hide StepConsumer, Inv;
    InvFacts(r);
    ConsumerReads(r, i, r1);
    ConsumerStepKeeps(r, i);
    ClaimsMost(r1, i, r2);
    ConsumerReads(r1, i, r2);
    ConsumerStepKeeps(r1, i);
    if r2.cons[i].CCas? { ConsumerWins(r2, i, r3); }
  }

  lemma PublishEnds(r: Ring, i: nat, r': Ring)
    requires Inv(r) && i < |r.prods| && r.prods[i].PCopy? && r' == StepProducer(r, i)
    requires i < |r'.prods| && r'.prods[i].PIdle?
    ensures r.prods[i].at == r.ptAt && r'.ptAt == r.ptAt + r.prods[i].n && r'.prods[i].ret == r.prods[i].n
    ensures 1 <= r.prods[i].n <= |r.prods[i].objs| && r'.ptAt <= |r.log|
    ensures r.log[r.ptAt..r'.ptAt] == r.prods[i].objs[..r.prods[i].n]
  {
    assert ProducerOk(r, r.prods[i]);
    TurnToPublish(r, i);
  }

  /** The number an enqueue ends with is that of the positions it publishes, which hold its first objects; at a
      refusal it is 0. */
  lemma EndsWithItsCount(r: Ring, i: nat, r': Ring)
    requires Inv(r) && i < |r.prods| && !r.prods[i].PIdle? && r' == StepProducer(r, i)
    requires i < |r'.prods| && r'.prods[i].PIdle?
    ensures var n := r'.prods[i].ret;
      && r'.ptAt == r.ptAt + n <= |r.log| && n <= |r.prods[i].objs|
      && r.log[r.ptAt..r'.ptAt] == r.prods[i].objs[..n]
      && (n == 0 <==> r.prods[i].PRead?)
  {
    hide StepProducer, Inv;
    InvFacts(r);
    if r.prods[i].PCopy? {
      PublishEnds(r, i, r');
    } else if r.prods[i].PRead? {
      ReservesMost(r, i, r');
      ProducerReads(r, i, r');
    } else {
      SwapEndsNothing(r, i, r');
    }
  }

  lemma SwapEndsNothing(r: Ring, i: nat, r': Ring)
    requires Shape(r) && i < |r.prods| && (r.prods[i].PStart? || r.prods[i].PCas?) && r' == StepProducer(r, i)
    ensures i < |r'.prods| && !r'.prods[i].PIdle?
  {
  }

  lemma ReleaseEnds(r: Ring, i: nat, r': Ring)
    requires Inv(r) && i < |r.cons| && r.cons[i].CCopy? && r' == StepConsumer(r, i)
    requires i < |r'.cons| && r'.cons[i].CIdle?
    ensures r.ctAt < r'.ctAt <= |r.log| && r'.cons[i].objs == r.log[r.ctAt..r'.ctAt]
  {
    assert ConsumerOk(r, r.cons[i]);
    TurnToRelease(r, i);
  }

  lemma ClaimEndsNothing(r: Ring, i: nat, r': Ring)
    requires Shape(r) && i < |r.cons| && (r.cons[i].CStart? || r.cons[i].CCas?) && r' == StepConsumer(r, i)
    ensures i < |r'.cons| && !r'.cons[i].CIdle?
  {
  }

  /** The objects a dequeue ends with are those of the positions it releases; at a refusal there are none. */
  lemma EndsWithItsObjects(r: Ring, i: nat, r': Ring)
    requires Inv(r) && i < |r.cons| && !r.cons[i].CIdle? && r' == StepConsumer(r, i)
    requires i < |r'.cons| && r'.cons[i].CIdle?
    ensures r.ctAt <= r'.ctAt <= |r.log| && r'.cons[i].objs == r.log[r.ctAt..r'.ctAt]
    ensures r'.cons[i].objs == [] <==> r.cons[i].CRead?
  {
    hide StepConsumer, Inv;
    InvFacts(r);
    if r.cons[i].CCopy? {
      ReleaseEnds(r, i, r');
    } else if r.cons[i].CRead? {
      ClaimsMost(r, i, r');
      ConsumerReads(r, i, r');
    } else {
      ClaimEndsNothing(r, i, r');
    }
  }

  // The enqueue of `objs` has not ended.
  ghost predicate Enqueues(p: Producer, objs: seq<Obj>, beh: Behavior) {
    !p.PIdle? && p.objs == objs && (p.PCopy? || p.beh == beh)
  }

  // The dequeue of `max` objects has not ended.
  ghost predicate Dequeues(c: Consumer, max: nat, beh: Behavior) {
    !c.CIdle? && (c.CCopy? || (c.max == max && c.beh == beh))
  }

  // An idle thread called goes about what it was called with.
  lemma CallStarts(r: Ring, i: nat, objs: seq<Obj>, max: nat, beh: Behavior)
    requires Shape(r)
    ensures i < |r.prods| && r.prods[i].PIdle? ==>
      Enqueues(Step(r, Enqueue(i, objs, beh)).prods[i], objs, beh)
    ensures i < |r.cons| && r.cons[i].CIdle? ==> Dequeues(Step(r, Dequeue(i, max, beh)).cons[i], max, beh)
  {
    hide StepProducer, StepConsumer;
  }

  /** What an enqueue was called with stays with it until it ends, however often its compare-and-swap fails. */
  lemma EnqueueStays(r: Ring, i: nat, objs: seq<Obj>, beh: Behavior, r': Ring)
    requires Shape(r) && i < |r.prods| && Enqueues(r.prods[i], objs, beh) && r' == StepProducer(r, i)
    ensures i < |r'.prods| && (r'.prods[i].PIdle? || Enqueues(r'.prods[i], objs, beh))
  {
    hide Wrap, Sub32, Granted, Slot;
  }

  /** And with a dequeue. */
  lemma DequeueStays(r: Ring, i: nat, max: nat, beh: Behavior, r': Ring)
    requires Shape(r) && i < |r.cons| && Dequeues(r.cons[i], max, beh) && r' == StepConsumer(r, i)
    ensures i < |r'.cons| && (r'.cons[i].CIdle? || Dequeues(r'.cons[i], max, beh))
  {
    hide Wrap, Sub32, Granted, Slot;
  }

  /** The entries a consumer counts are fewer than the slots exactly while those published beyond the head it
      read are, but for multiples of 2^32; while none of them has been released they are. */
  lemma EntriesWithinSize(r: Ring, i: nat)
    requires Inv(r) && i < |r.cons| && r.cons[i].CRead?
    ensures var c := r.cons[i]; var seen := Sub32(r.pt, c.seen);
      && c.at <= r.ptAt && (seen <= r.size - 1 <==> Near(r.ptAt - c.at, r.size))
      && (r.ptAt - c.at < WRAP ==> (seen <= r.size - 1 <==> r.ptAt <= c.at + r.size - 1))
      && (r.ctAt <= c.at ==> seen <= r.size - 1)
  {
    EntriesSeen(r, i);
    RemIsNear(r.ptAt - r.cons[i].at, r.size);
  }

  // A timely run from `r` to `r'`.
  ghost predicate Leads(r: Ring, acts: seq<Action>, r': Ring) {
    Shape(r) && Run(r, acts) == r' && TimelyRun(r, acts)
  }

  lemma {:induction false} LeadsOn(r: Ring, acts: seq<Action>, r': Ring, a: Action)
    requires Leads(r, acts, r') && Timely(r', a)
    ensures Shape(r') && Leads(r, acts + [a], Step(r', a))
    decreases |acts|
  {
    if acts == [] {
      assert [] + [a] == [a] && [a][1..] == [];
    } else {
      LeadsOn(Step(r, acts[0]), acts[1..], r', a);
      assert (acts + [a])[1..] == acts[1..] + [a];
    }
  }

  // A ring for one object, with two producers and a consumer.
  function Small(p: Producer, q: Producer, c: Consumer, ph: u32, pt: u32, ch: u32, ct: u32, slot: Obj,
                 got: bool): Ring {
    Ring(2, 1, false, false, ph, pt, ch, ct, [slot, 0], [p, q], [c], ph, pt, ch, ct,
         if ph == 0 then [] else [7], if got then (map[])[0 := 7] else map[])
  }

  lemma SmallNumbers()
    ensures Wrap(0) == 0 && Wrap(1) == 1 && Wrap(2) == 2 && Arith.Rem(0, 2) == 0
  {
  }

  lemma On(r0: Ring, acts: seq<Action>, r: Ring, a: Action, r': Ring) returns (acts': seq<Action>, r'': Ring)
    requires Leads(r0, acts, r) && Shape(r) && Timely(r, a) && r' == Step(r, a)
    ensures Leads(r0, acts', r'') && r'' == r'
  {
    LeadsOn(r0, acts, r, a);
    acts', r'' := acts + [a], r';
  }

  // Both producers read the head.
  lemma BothRead() returns (r0: Ring, acts: seq<Action>, r: Ring)
    ensures r0 == Small(PIdle(0), PIdle(0), CIdle([]), 0, 0, 0, 0, 0, false) && Leads(r0, acts, r)
    ensures r == Small(PRead([7], Fixed, 0, 0), PRead([7], Fixed, 0, 0), CIdle([]), 0, 0, 0, 0, 0, false)
  {
    SmallNumbers();
    r0 := Small(PIdle(0), PIdle(0), CIdle([]), 0, 0, 0, 0, 0, false);
    assert Leads(r0, [], r0);
    hide Leads, Wrap;
    acts, r := [], r0;
    acts, r := On(r0, acts, r, Enqueue(0, [7], Fixed),
      Small(PStart([7], Fixed), PIdle(0), CIdle([]), 0, 0, 0, 0, 0, false));
    acts, r := On(r0, acts, r, ProdStep(0), Small(PRead([7], Fixed, 0, 0), PIdle(0), CIdle([]), 0, 0, 0, 0, 0, false));
    acts, r := On(r0, acts, r, Enqueue(1, [7], Fixed),
      Small(PRead([7], Fixed, 0, 0), PStart([7], Fixed), CIdle([]), 0, 0, 0, 0, 0, false));
    acts, r := On(r0, acts, r, ProdStep(1),
      Small(PRead([7], Fixed, 0, 0), PRead([7], Fixed, 0, 0), CIdle([]), 0, 0, 0, 0, 0, false));
  }

  // The other one reserves and stores an object.
  lemma OtherStores() returns (r0: Ring, acts: seq<Action>, r: Ring)
    ensures r0 == Small(PIdle(0), PIdle(0), CIdle([]), 0, 0, 0, 0, 0, false) && Leads(r0, acts, r)
    ensures r == Small(PRead([7], Fixed, 0, 0), PCopy([7], 1, 0, 1, 0, 1, false), CIdle([]), 1, 0, 0, 0, 7, false)
  {
    r0, acts, r := BothRead();
    SmallNumbers();
    var p, c := PRead([7], Fixed, 0, 0), CIdle([]);
    hide Leads, Wrap;
    acts, r := On(r0, acts, r, ProdStep(1), Small(p, PCas([7], Fixed, 1, 0, 1, 0), c, 0, 0, 0, 0, 0, false));
    acts, r := On(r0, acts, r, ProdStep(1), Small(p, PCopy([7], 1, 0, 1, 0, 0, false), c, 1, 0, 0, 0, 0, false));
    acts, r := On(r0, acts, r, ProdStep(1), Small(p, PCopy([7], 1, 0, 1, 0, 1, false), c, 1, 0, 0, 0, 7, false));
  }

  // It publishes it.
  lemma Overtaken() returns (r0: Ring, acts: seq<Action>, r: Ring)
    ensures r0 == Small(PIdle(0), PIdle(0), CIdle([]), 0, 0, 0, 0, 0, false) && Leads(r0, acts, r)
    ensures r == Small(PRead([7], Fixed, 0, 0), PIdle(1), CIdle([]), 1, 1, 0, 0, 7, false)
  {
    r0, acts, r := OtherStores();
    SmallNumbers();
    var p, c := PRead([7], Fixed, 0, 0), CIdle([]);
    hide Leads, Wrap;
    acts, r := On(r0, acts, r, ProdStep(1), Small(p, PCopy([7], 1, 0, 1, 0, 1, true), c, 1, 0, 0, 0, 7, false));
    acts, r := On(r0, acts, r, ProdStep(1), Small(p, PIdle(1), c, 1, 1, 0, 0, 7, false));
  }

  // A consumer claims it.
  lemma Claimed7() returns (r0: Ring, acts: seq<Action>, r: Ring)
    ensures r0 == Small(PIdle(0), PIdle(0), CIdle([]), 0, 0, 0, 0, 0, false) && Leads(r0, acts, r)
    ensures r == Small(PRead([7], Fixed, 0, 0), PIdle(1), CCopy(1, 0, 1, 0, [], false), 1, 1, 1, 0, 7, false)
  {
    r0, acts, r := Overtaken();
    SmallNumbers();
    var p, q := PRead([7], Fixed, 0, 0), PIdle(1);
    hide Leads, Wrap;
    acts, r := On(r0, acts, r, Dequeue(0, 1, Fixed), Small(p, q, CStart(1, Fixed), 1, 1, 0, 0, 7, false));
    acts, r := On(r0, acts, r, ConsStep(0), Small(p, q, CRead(1, Fixed, 0, 0), 1, 1, 0, 0, 7, false));
    acts, r := On(r0, acts, r, ConsStep(0), Small(p, q, CCas(1, Fixed, 1, 0, 1, 0), 1, 1, 0, 0, 7, false));
    acts, r := On(r0, acts, r, ConsStep(0), Small(p, q, CCopy(1, 0, 1, 0, [], false), 1, 1, 1, 0, 7, false));
  }

  /** That a free count can exceed the capacity: on a ring for one object, a producer reads the head, another
      one enqueues an object and a consumer takes it; the first then counts two free entries. */
  lemma FreeBeyondCapacity() returns (r0: Ring, acts: seq<Action>, r: Ring)
    ensures Init(r0) && r0.capacity == 1 && TimelyRun(r0, acts) && r == Run(r0, acts)
    ensures |r.prods| == 2 && r.prods[0].PRead? && Sub32(Add32(r.capacity, r.ct), r.prods[0].seen) == 2
  {
    r0, acts, r := Claimed7();
    SmallNumbers();
    var p, q := PRead([7], Fixed, 0, 0), PIdle(1);
    hide Leads, Wrap;
    assert [] + [r.slots[0]] == [7] && Slot(r, 0) == 0;
    acts, r := On(r0, acts, r, ConsStep(0), Small(p, q, CCopy(1, 0, 1, 0, [7], false), 1, 1, 1, 0, 7, true));
    acts, r := On(r0, acts, r, ConsStep(0), Small(p, q, CCopy(1, 0, 1, 0, [7], true), 1, 1, 1, 0, 7, true));
    acts, r := On(r0, acts, r, ConsStep(0), Small(p, q, CIdle([7]), 1, 1, 1, 1, 7, true));
    LeadsRuns(r0, acts, r);
  }

  // A ring for one object, with a producer and two consumers.
  function Twin(p: Producer, c: Consumer, d: Consumer, ph: u32, pt: u32, ch: u32, ct: u32, slots: seq<Obj>,
                log: seq<Obj>,
                got: bool): Ring {
    Ring(2, 1, false, false, ph, pt, ch, ct, slots, [p], [c, d], ph, pt, ch, ct, log,
         if got then (map[])[0 := 7] else map[])
  }

  // One consumer reads the head.
  lemma TwinReads() returns (r0: Ring, acts: seq<Action>, r: Ring)
    ensures r0 == Twin(PIdle(0), CIdle([]), CIdle([]), 0, 0, 0, 0, [0, 0], [], false) && Leads(r0, acts, r)
    ensures r == Twin(PRead([7], Fixed, 0, 0), CRead(1, Fixed, 0, 0), CIdle([]), 0, 0, 0, 0, [0, 0], [], false)
  {
    SmallNumbers();
    var i, c := CIdle([]), CRead(1, Fixed, 0, 0);
    r0 := Twin(PIdle(0), i, i, 0, 0, 0, 0, [0, 0], [], false);
    assert Leads(r0, [], r0);
    hide Leads, Wrap;
    acts, r := [], r0;
    acts, r := On(r0, acts, r, Dequeue(0, 1, Fixed),
      Twin(PIdle(0), CStart(1, Fixed), i, 0, 0, 0, 0, [0, 0], [], false));
    acts, r := On(r0, acts, r, ConsStep(0), Twin(PIdle(0), c, i, 0, 0, 0, 0, [0, 0], [], false));
    acts, r := On(r0, acts, r, Enqueue(0, [7], Fixed), Twin(PStart([7], Fixed), c, i, 0, 0, 0, 0, [0, 0], [], false));
    acts, r := On(r0, acts, r, ProdStep(0), Twin(PRead([7], Fixed, 0, 0), c, i, 0, 0, 0, 0, [0, 0], [], false));
  }

  // An object is reserved and stored.
  lemma StoredBehind() returns (r0: Ring, acts: seq<Action>, r: Ring)
    ensures r0 == Twin(PIdle(0), CIdle([]), CIdle([]), 0, 0, 0, 0, [0, 0], [], false) && Leads(r0, acts, r)
    ensures r == Twin(PCopy([7], 1, 0, 1, 0, 1, false), CRead(1, Fixed, 0, 0), CIdle([]), 1, 0, 0, 0, [7, 0], [7],
      false)
  {
    r0, acts, r := TwinReads();
    SmallNumbers();
    var i, c := CIdle([]), CRead(1, Fixed, 0, 0);
    hide Leads, Wrap;
    acts, r := On(r0, acts, r, ProdStep(0), Twin(PCas([7], Fixed, 1, 0, 1, 0), c, i, 0, 0, 0, 0, [0, 0], [], false));
    acts, r := On(r0, acts, r, ProdStep(0),
      Twin(PCopy([7], 1, 0, 1, 0, 0, false), c, i, 1, 0, 0, 0, [0, 0], [7], false));
    acts, r := On(r0, acts, r, ProdStep(0),
      Twin(PCopy([7], 1, 0, 1, 0, 1, false), c, i, 1, 0, 0, 0, [7, 0], [7], false));
  }

  // It is published.
  lemma HeadRead() returns (r0: Ring, acts: seq<Action>, r: Ring)
    ensures r0 == Twin(PIdle(0), CIdle([]), CIdle([]), 0, 0, 0, 0, [0, 0], [], false) && Leads(r0, acts, r)
    ensures r == Twin(PIdle(1), CRead(1, Fixed, 0, 0), CIdle([]), 1, 1, 0, 0, [7, 0], [7], false)
  {
    r0, acts, r := StoredBehind();
    SmallNumbers();
    var i, c := CIdle([]), CRead(1, Fixed, 0, 0);
    hide Leads, Wrap;
    acts, r := On(r0, acts, r, ProdStep(0),
      Twin(PCopy([7], 1, 0, 1, 0, 1, true), c, i, 1, 0, 0, 0, [7, 0], [7], false));
    acts, r := On(r0, acts, r, ProdStep(0), Twin(PIdle(1), c, i, 1, 1, 0, 0, [7, 0], [7], false));
  }

  // The other consumer claims it.
  lemma OtherClaims() returns (r0: Ring, acts: seq<Action>, r: Ring)
    ensures r0 == Twin(PIdle(0), CIdle([]), CIdle([]), 0, 0, 0, 0, [0, 0], [], false) && Leads(r0, acts, r)
    ensures r == Twin(PIdle(1), CRead(1, Fixed, 0, 0), CCopy(1, 0, 1, 0, [], false), 1, 1, 1, 0, [7, 0], [7], false)
  {
    r0, acts, r := HeadRead();
    SmallNumbers();
    var p, c := PIdle(1), CRead(1, Fixed, 0, 0);
    hide Leads, Wrap;
    acts, r := On(r0, acts, r, Dequeue(1, 1, Fixed), Twin(p, c, CStart(1, Fixed), 1, 1, 0, 0, [7, 0], [7], false));
    acts, r := On(r0, acts, r, ConsStep(1), Twin(p, c, CRead(1, Fixed, 0, 0), 1, 1, 0, 0, [7, 0], [7], false));
    acts, r := On(r0, acts, r, ConsStep(1), Twin(p, c, CCas(1, Fixed, 1, 0, 1, 0), 1, 1, 0, 0, [7, 0], [7], false));
    acts, r := On(r0, acts, r, ConsStep(1), Twin(p, c, CCopy(1, 0, 1, 0, [], false), 1, 1, 1, 0, [7, 0], [7], false));
  }

  // It takes it.
  lemma OtherTakes() returns (r0: Ring, acts: seq<Action>, r: Ring)
    ensures r0 == Twin(PIdle(0), CIdle([]), CIdle([]), 0, 0, 0, 0, [0, 0], [], false) && Leads(r0, acts, r)
    ensures r == Twin(PIdle(1), CRead(1, Fixed, 0, 0), CIdle([7]), 1, 1, 1, 1, [7, 0], [7], true)
  {
    r0, acts, r := OtherClaims();
    SmallNumbers();
    var p, c := PIdle(1), CRead(1, Fixed, 0, 0);
    hide Leads, Wrap;
    assert [] + [r.slots[0]] == [7] && Slot(r, 0) == 0;
    acts, r := On(r0, acts, r, ConsStep(1), Twin(p, c, CCopy(1, 0, 1, 0, [7], false), 1, 1, 1, 0, [7, 0], [7], true));
    acts, r := On(r0, acts, r, ConsStep(1), Twin(p, c, CCopy(1, 0, 1, 0, [7], true), 1, 1, 1, 0, [7, 0], [7], true));
    acts, r := On(r0, acts, r, ConsStep(1), Twin(p, c, CIdle([7]), 1, 1, 1, 1, [7, 0], [7], true));
  }

  // Another object is about to be enqueued.
  lemma SecondStarts() returns (r0: Ring, acts: seq<Action>, r: Ring)
    ensures r0 == Twin(PIdle(0), CIdle([]), CIdle([]), 0, 0, 0, 0, [0, 0], [], false) && Leads(r0, acts, r)
    ensures r == Twin(PCas([8], Fixed, 1, 1, 2, 1), CRead(1, Fixed, 0, 0), CIdle([7]), 1, 1, 1, 1, [7, 0], [7], true)
  {
    r0, acts, r := OtherTakes();
    SmallNumbers();
    var c, d := CRead(1, Fixed, 0, 0), CIdle([7]);
    hide Leads, Wrap;
    acts, r := On(r0, acts, r, Enqueue(0, [8], Fixed), Twin(PStart([8], Fixed), c, d, 1, 1, 1, 1, [7, 0], [7], true));
    acts, r := On(r0, acts, r, ProdStep(0), Twin(PRead([8], Fixed, 1, 1), c, d, 1, 1, 1, 1, [7, 0], [7], true));
    acts, r := On(r0, acts, r, ProdStep(0), Twin(PCas([8], Fixed, 1, 1, 2, 1), c, d, 1, 1, 1, 1, [7, 0], [7], true));
  }

  // It is stored.
  lemma SecondStored() returns (r0: Ring, acts: seq<Action>, r: Ring)
    ensures r0 == Twin(PIdle(0), CIdle([]), CIdle([]), 0, 0, 0, 0, [0, 0], [], false) && Leads(r0, acts, r)
    ensures r == Twin(PCopy([8], 1, 1, 2, 1, 1, false), CRead(1, Fixed, 0, 0), CIdle([7]), 2, 1, 1, 1, [7, 8], [7, 8],
      true)
  {
    r0, acts, r := SecondStarts();
    SmallNumbers();
    var c, d := CRead(1, Fixed, 0, 0), CIdle([7]);
    hide Leads, Wrap;
    acts, r := On(r0, acts, r, ProdStep(0),
      Twin(PCopy([8], 1, 1, 2, 1, 0, false), c, d, 2, 1, 1, 1, [7, 0], [7, 8], true));
    acts, r := On(r0, acts, r, ProdStep(0),
      Twin(PCopy([8], 1, 1, 2, 1, 1, false), c, d, 2, 1, 1, 1, [7, 8], [7, 8], true));
  }

  /** That the entries a consumer counts can exceed the slots but one: it reads the head, another consumer
      takes an object, and a second one is enqueued; the first then counts two entries in a ring for one. */
  lemma EntriesBeyondSize() returns (r0: Ring, acts: seq<Action>, r: Ring)
    ensures Init(r0) && r0.size == 2 && TimelyRun(r0, acts) && r == Run(r0, acts)
    ensures |r.cons| == 2 && r.cons[0].CRead? && Sub32(r.pt, r.cons[0].seen) == 2
  {
    r0, acts, r := SecondStored();
    SmallNumbers();
    var c, d := CRead(1, Fixed, 0, 0), CIdle([7]);
    hide Leads, Wrap;
    acts, r := On(r0, acts, r, ProdStep(0),
      Twin(PCopy([8], 1, 1, 2, 1, 1, true), c, d, 2, 1, 1, 1, [7, 8], [7, 8], true));
    acts, r := On(r0, acts, r, ProdStep(0), Twin(PIdle(1), c, d, 2, 2, 1, 1, [7, 8], [7, 8], true));
    LeadsRuns(r0, acts, r);
  }

  lemma LeadsRuns(r0: Ring, acts: seq<Action>, r: Ring)
    requires Leads(r0, acts, r)
    ensures Shape(r0) && TimelyRun(r0, acts) && r == Run(r0, acts)
  {
  }

  /** No deadlock in `update_tail`: while any reservation is in flight, the oldest one can move.  The same for
      consumers below. */
  lemma OldestCanMove(r: Ring)
    requires Inv(r) && r.ptAt < r.phAt
    ensures exists i: nat :: i < |r.prods| && PHolds(r, i, r.ptAt) && StepProducer(r, i) != r
  {
    assert PHeld(r, r.ptAt);
    var i: nat :| PHolds(r, i, r.ptAt);
    assert ProducerOk(r, r.prods[i]);
    assert StepProducer(r, i).prods[i] != r.prods[i];
  }

  lemma OldestCanRelease(r: Ring)
    requires Inv(r) && r.ctAt < r.chAt
    ensures exists i: nat :: i < |r.cons| && CHolds(r, i, r.ctAt) && StepConsumer(r, i) != r
  {
    assert CHeld(r, r.ctAt);
    var i: nat :| CHolds(r, i, r.ctAt);
    assert ConsumerOk(r, r.cons[i]);
    assert StepConsumer(r, i).cons[i] != r.cons[i];
  }
}
