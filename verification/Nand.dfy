/**
 The NAND simulator: consecutive pages are striped over 32 LUNs, each busy until its last command is
 done; a line of 65536 pages is written strictly in order and erased as a whole.
 */
module Nand {
  const LUNS_PER_CH: nat := 8
  const TT_LUNS: nat := 32
  const PGS_PER_LINE: nat := 65536
  const TT_LINES: nat := 1178
  const TT_PGS: nat := 77201408
  const READ_LATENCY: nat := 50000
  const WRITE_LATENCY: nat := 500000
  const ERASE_LATENCY: nat := 5000000
  const LIMIT32: nat := 0x1_0000_0000

  // A physical page address, the one plane left out.
  datatype Ppa = Ppa(ch: nat, lun: nat, blk: nat, pg: nat)

  /** `pgidx2ppa`. */
  function PageToPpa(p: nat): Ppa {
    Ppa(p % 4, p / 4 % 8, p / 32 % 1178, p / 37696 % 2048)
  }

  // The LUN of a page, numbered as the statistics number it.
  function LunOf(p: nat): (f: nat)
    ensures f < TT_LUNS
  {
    PageToPpa(p).ch * LUNS_PER_CH + PageToPpa(p).lun
  }

  function LineOf(p: nat): nat { p / PGS_PER_LINE }

  lemma PartsOfPage(p: nat)
    ensures p == 32 * (p / 32) + 4 * (p / 4 % 8) + p % 4
  {
    var q := p / 4;
    assert p == 4 * q + p % 4;
    assert q == 8 * (q / 8) + q % 8;
    assert q / 8 == p / 32;
  }

  lemma BlockOfPage(p: nat)
    requires p < TT_PGS
    ensures p / 32 == 1178 * (p / 37696 % 2048) + p / 32 % 1178
  {
    assert p / 37696 == p / 32 / 1178;
  }

  /** An address is a page's number in digits: channel, LUN of the channel, block, page of the block. */
  lemma AddressDigits(p: nat)
    requires p < TT_PGS
    ensures var a := PageToPpa(p);
      && a.ch < 4 && a.lun < 8 && a.blk < 1178 && a.pg < 2048
      && p == a.ch + 4 * (a.lun + 8 * (a.blk + 1178 * a.pg))
  {
    PartsOfPage(p);
    BlockOfPage(p);
  }

  lemma LunDigitsAre(p: nat)
    ensures PageToPpa(p).ch < 4 && PageToPpa(p).lun < 8
    ensures p == 32 * (p / 32) + 4 * PageToPpa(p).lun + PageToPpa(p).ch
  {
    PartsOfPage(p);
  }

  lemma SameLun(p: nat)
    ensures PageToPpa(p + 32).ch == PageToPpa(p).ch && PageToPpa(p + 32).lun == PageToPpa(p).lun
  {
    LunDigitsAre(p);
    LunDigitsAre(p + 32);
    hide PageToPpa;
    assert (p + 32) / 32 == p / 32 + 1;
  }

  /** The next 32 pages are a block further on, each on its LUN; behind the last block, a page. */
  lemma NextRow(p: nat)
    requires p + 32 < TT_PGS
    ensures var a := PageToPpa(p);
      PageToPpa(p + 32) == if a.blk < 1177 then a.(blk := a.blk + 1) else a.(blk := 0, pg := a.pg + 1)
  {
    hide PageToPpa;
    var a, b := PageToPpa(p), PageToPpa(p + 32);
    SameLun(p);
    AddressDigits(p);
    AddressDigits(p + 32);
    assert b.blk + 1178 * b.pg == a.blk + 1178 * a.pg + 1;
  }

  /** Different pages of the device have different addresses. */
  lemma AddressesDiffer(p: nat, q: nat)
    requires p < TT_PGS && q < TT_PGS && PageToPpa(p) == PageToPpa(q)
    ensures p == q
  {
    PartsOfPage(p);
    PartsOfPage(q);
    BlockOfPage(p);
    BlockOfPage(q);
  }

  /** Two pages share a LUN exactly if they are a multiple of 32 apart. */
  lemma Striping(p: nat, q: nat)
    ensures LunOf(p) == LunOf(q) <==> p % 32 == q % 32
  {
    LunDigits(p);
    LunDigits(q);
    hide LunOf;
  }

  lemma LunDigits(p: nat)
    ensures LunOf(p) == p % 4 * 8 + p / 4 % 8 && p % 32 == 4 * (p / 4 % 8) + p % 4
  {
    PartsOfPage(p);
  }

  // ----- commands queueing on a LUN -----

  // How many of the first `n` pages of a run fall on the LUN of its page `d`.
  function Rounds(n: nat, d: nat): nat { if d < n then (n - d - 1) / 32 + 1 else 0 }

  lemma RoundsNext(n: nat, d: nat)
    requires d < 32
    ensures Rounds(n + 1, d) == Rounds(n, d) + if n % 32 == d then 1 else 0
  {
  }

  function Later(a: nat, b: nat): nat { if a < b then b else a }

  /** When a LUN free from `a` on is done with `c` commands of `lat` each, issued at `stime`. */
  function DoneAt(a: nat, stime: nat, c: nat, lat: nat): nat {
    if c == 0 then a else Later(DoneAt(a, stime, c - 1, lat), stime) + lat
  }

  lemma {:induction false} DoneAtIs(a: nat, stime: nat, c: nat, lat: nat)
    ensures DoneAt(a, stime, c, lat) == if c == 0 then a else Later(a, stime) + c * lat
  {
    if c > 1 {
      DoneAtIs(a, stime, c - 1, lat);
      assert (c - 1) * lat + lat == c * lat;
    }
  }

  // The LUN of the `d`th page from `p` on.
  function LunAt(p: nat, d: nat): (f: nat)
    ensures f < TT_LUNS
  {
    LunOf(p + d)
  }

  lemma SameRemainder(p: nat, d: nat, e: nat)
    ensures (p + d) % 32 == (p + e) % 32 <==> d % 32 == e % 32
  {
    AddRemainder(p, d);
    AddRemainder(p, e);
  }

  lemma AddRemainder(p: nat, d: nat)
    ensures (p + d) % 32 == if p % 32 + d % 32 < 32 then p % 32 + d % 32 else p % 32 + d % 32 - 32
  {
  }

  lemma LunAtIs(p: nat, d: nat, e: nat)
    ensures LunAt(p, d) == LunAt(p, e) <==> d % 32 == e % 32
  {
    hide LunOf;
    Striping(p + d, p + e);
    SameRemainder(p, d, e);
  }

  // The LUN times after `k` commands of `lat` each on the pages from `p` on.
  ghost predicate Queued(avail: seq<nat>, avail0: seq<nat>, p: nat, k: nat, stime: nat, lat: nat) {
    && |avail| == |avail0| == TT_LUNS
    && forall d :: 0 <= d < 32 ==> avail[LunAt(p, d)] == DoneAt(avail0[LunAt(p, d)], stime, Rounds(k, d), lat)
  }

  // Each LUN's command count after `k` commands on the pages from `p` on.
  ghost predicate Counted(nr: seq<nat>, nr0: seq<nat>, p: nat, k: nat) {
    && |nr| == |nr0| == TT_LUNS
    && forall d :: 0 <= d < 32 ==> nr[LunAt(p, d)] == nr0[LunAt(p, d)] + Rounds(k, d)
  }

  // `m` is the latest time any of the LUNs used by `k` commands from `p` on is done, 0 for none.
  ghost predicate IsLatest(avail: seq<nat>, p: nat, k: nat, m: nat)
    requires |avail| == TT_LUNS
  {
    && (forall d :: 0 <= d < 32 && d < k ==> avail[LunAt(p, d)] <= m)
    && (if k == 0 then m == 0 else exists d :: 0 <= d < 32 && d < k && avail[LunAt(p, d)] == m)
  }

  lemma DoneAtNext(a: nat, stime: nat, c: nat, lat: nat)
    ensures DoneAt(a, stime, c + 1, lat) == Later(DoneAt(a, stime, c, lat), stime) + lat
  {
  }

  /** One more command, on the next page's LUN. */
  lemma OneMoreQueued(avail: seq<nat>, avail0: seq<nat>, p: nat, k: nat, stime: nat, lat: nat, m: nat)
    requires Queued(avail, avail0, p, k, stime, lat) && IsLatest(avail, p, k, m) && lat > 0
    ensures var f := LunAt(p, k); var t := Later(avail[f], stime) + lat;
      Queued(avail[f := t], avail0, p, k + 1, stime, lat) && IsLatest(avail[f := t], p, k + 1, Later(m, t))
  {
    hide LunAt, DoneAt, Rounds;
    var f := LunAt(p, k);
    var t := Later(avail[f], stime) + lat;
    var avail', e := avail[f := t], k % 32;
    LunAtIs(p, k, e);
    forall d | 0 <= d < 32
      ensures avail'[LunAt(p, d)] == DoneAt(avail0[LunAt(p, d)], stime, Rounds(k + 1, d), lat)
      ensures avail'[LunAt(p, d)] == if d == e then t else avail[LunAt(p, d)]
    {
      RoundsNext(k, d);
      LunAtIs(p, d, k);
      DoneAtNext(avail0[LunAt(p, d)], stime, Rounds(k, d), lat);
    }
    LatestNext(avail, avail', p, k, m, t);
  }

  lemma OneMoreCounted(nr: seq<nat>, nr0: seq<nat>, p: nat, k: nat)
    requires Counted(nr, nr0, p, k)
    ensures var f := LunAt(p, k); Counted(nr[f := nr[f] + 1], nr0, p, k + 1)
  {
    hide LunAt, Rounds;
    forall d | 0 <= d < 32
      ensures Rounds(k + 1, d) == Rounds(k, d) + if LunAt(p, d) == LunAt(p, k) then 1 else 0
    {
      RoundsNext(k, d);
      LunAtIs(p, d, k);
    }
  }

  lemma LatestNext(avail: seq<nat>, avail': seq<nat>, p: nat, k: nat, m: nat, t: nat)
    requires |avail| == |avail'| == TT_LUNS && IsLatest(avail, p, k, m)
    requires forall d :: 0 <= d < 32 ==> avail'[LunAt(p, d)] == if d == k % 32 then t else avail[LunAt(p, d)]
    requires avail[LunAt(p, k % 32)] < t
    ensures IsLatest(avail', p, k + 1, Later(m, t))
  {
    hide LunAt;
    var e := k % 32;
    assert avail'[LunAt(p, e)] == t && e <= k;
    if k > 0 && m > t {
      var d :| 0 <= d < 32 && d < k && avail[LunAt(p, d)] == m;
      assert avail'[LunAt(p, d)] == m;
    }
  }

  /** On LUNs that are all idle, `n` pages take exactly as many command times as fall on one LUN, that is
      `n / 32` rounded up. */
  lemma IdleLatency(avail: seq<nat>, avail0: seq<nat>, p: nat, n: nat, stime: nat, lat: nat, m: nat)
    requires Queued(avail, avail0, p, n, stime, lat) && IsLatest(avail, p, n, m) && n > 0
    requires forall f :: 0 <= f < TT_LUNS ==> avail0[f] <= stime
    ensures m == stime + (n + 31) / 32 * lat
  {
    hide LunAt, DoneAt;
    forall d | 0 <= d < 32 && d < n
      ensures avail[LunAt(p, d)] == stime + Rounds(n, d) * lat && Rounds(n, d) * lat <= Rounds(n, 0) * lat
    {
      DoneAtIs(avail0[LunAt(p, d)], stime, Rounds(n, d), lat);
      TimesMonotone(Rounds(n, d), Rounds(n, 0), lat);
    }
    assert Rounds(n, 0) == (n + 31) / 32;
    assert avail[LunAt(p, 0)] == stime + Rounds(n, 0) * lat;
  }

  lemma TimesMonotone(a: nat, b: nat, lat: nat)
    requires a <= b
    ensures a * lat <= b * lat
  {
  }

  // ----- the device -----

  // Pages of a line written so far: those below its write pointer.
  ghost predicate LinesOk(state: seq<bool>, wp: seq<nat>) {
    && |state| == TT_PGS && |wp| == TT_LINES && (forall l :: 0 <= l < TT_LINES ==> wp[l] <= PGS_PER_LINE)
    && forall p :: 0 <= p < TT_PGS ==> (state[p] <==> p - LineOf(p) * PGS_PER_LINE < wp[LineOf(p)])
  }

  lemma Sizes(state: seq<bool>, wp: seq<nat>)
    requires LinesOk(state, wp)
    ensures |state| == TT_PGS && |wp| == TT_LINES
  {
  }

  /** Pages `[p, p + n)` are next in order: the first where its line's pointer stands, and every line
      begun in the run still empty. */
  ghost predicate InOrder(wp: seq<nat>, p: nat, n: nat)
    requires |wp| == TT_LINES && p + n <= TT_PGS
  {
    && (n > 0 ==> wp[LineOf(p)] == p - LineOf(p) * PGS_PER_LINE)
    && forall q :: p < q < p + n && q % PGS_PER_LINE == 0 ==> wp[LineOf(q)] == 0
  }

  lemma NotInOrder(wp: seq<nat>, p: nat, k: nat, n: nat)
    requires |wp| == TT_LINES && p + n <= TT_PGS && 0 < k <= n && !InOrder(wp, p, k)
    ensures !InOrder(wp, p, n)
  {
  }

  // The write pointers after pages `[p, p + n)` were written in order.
  ghost predicate Moved(wp: seq<nat>, wp0: seq<nat>, p: nat, n: nat) {
    && |wp| == |wp0| == TT_LINES
    && forall l :: 0 <= l < TT_LINES ==> wp[l] == wp0[l] + InLine(l, p, n)
  }

  // How many of the pages `[p, p + n)` are in line `l`.
  function InLine(l: nat, p: nat, n: nat): nat {
    var lo := Later(p, l * PGS_PER_LINE);
    var hi := if p + n < (l + 1) * PGS_PER_LINE then p + n else (l + 1) * PGS_PER_LINE;
    if lo < hi then hi - lo else 0
  }

  lemma InLineNext(l: nat, p: nat, n: nat)
    ensures InLine(l, p, n + 1) == InLine(l, p, n) + if LineOf(p + n) == l then 1 else 0
  {
  }

  /** With the pages before it written in order, a page is next in its line exactly if the run with it is
      in order too. */
  lemma NextInOrder(wp: seq<nat>, wp0: seq<nat>, p: nat, k: nat)
    requires |wp0| == TT_LINES && p + k < TT_PGS && InOrder(wp0, p, k) && Moved(wp, wp0, p, k)
    ensures LineOf(p + k) < TT_LINES
    ensures wp[LineOf(p + k)] == p + k - LineOf(p + k) * PGS_PER_LINE <==> InOrder(wp0, p, k + 1)
  {
    var q, l := p + k, LineOf(p + k);
    var s := l * PGS_PER_LINE;
    assert s <= q < s + PGS_PER_LINE;
    assert wp[l] == wp0[l] + InLine(l, p, k);
    LineStart(l);
    if k > 0 && p >= s {
      LineUnique(p, l);
      LineUnique(q, l);
      assert InLine(l, p, k) == k;
    } else if k > 0 && s < q {
      assert InLine(l, p, k) == q - s;
    } else if k > 0 {
      assert InLine(l, p, k) == 0;
    }
  }

  lemma LineStart(l: nat)
    ensures LineOf(l * PGS_PER_LINE) == l && l * PGS_PER_LINE % PGS_PER_LINE == 0
  {
  }

  lemma LineUnique(p: nat, l: nat)
    requires l * PGS_PER_LINE <= p < (l + 1) * PGS_PER_LINE
    ensures LineOf(p) == l && (p % PGS_PER_LINE == 0 <==> p == l * PGS_PER_LINE)
  {
  }

  lemma MovedNext(wp: seq<nat>, wp0: seq<nat>, p: nat, k: nat)
    requires p + k < TT_PGS && Moved(wp, wp0, p, k)
    ensures var l := LineOf(p + k); l < TT_LINES && Moved(wp[l := wp[l] + 1], wp0, p, k + 1)
  {
    hide InLine;
    forall l | 0 <= l < TT_LINES
      ensures InLine(l, p, k + 1) == InLine(l, p, k) + if LineOf(p + k) == l then 1 else 0
    {
      InLineNext(l, p, k);
    }
  }

  lemma LinesNext(state: seq<bool>, wp: seq<nat>, q: nat)
    requires LinesOk(state, wp) && q < TT_PGS && wp[LineOf(q)] == q - LineOf(q) * PGS_PER_LINE
    ensures LinesOk(state[q := true], wp[LineOf(q) := wp[LineOf(q)] + 1])
  {
  }

  lemma LinesErased(state: seq<bool>, state': seq<bool>, wp: seq<nat>, l: nat)
    requires LinesOk(state, wp) && l < TT_LINES && |state'| == TT_PGS
    requires forall p :: 0 <= p < TT_PGS ==> state'[p] == (LineOf(p) != l && state[p])
    ensures LinesOk(state', wp[l := 0])
  {
  }

  // Each LUN holds one of 32 consecutive pages from the start of a line on.
  lemma LunHolds(p: nat, f: nat)
    requires p % PGS_PER_LINE == 0 && f < TT_LUNS
    ensures var d := f % 8 * 4 + f / 8; d < 32 && LunAt(p, d) == f
  {
    var m, d := p / PGS_PER_LINE * 2048, f % 8 * 4 + f / 8;
    assert p == 32 * m;
    hide LunOf;
    Digits(m, f % 8, f / 8);
    LunDigits(p + d);
    assert f == f / 8 * 8 + f % 8;
  }

  lemma Digits(m: nat, a: nat, b: nat)
    requires a < 8 && b < 4
    ensures (32 * m + (a * 4 + b)) % 4 == b && (32 * m + (a * 4 + b)) / 4 % 8 == a
  {
    assert (32 * m + (a * 4 + b)) / 4 == 8 * m + a;
  }

  /** An erase of a line gives every LUN exactly one command. */
  lemma ErasesEachLun(avail: seq<nat>, avail0: seq<nat>, nr: seq<nat>, nr0: seq<nat>, p: nat, stime: nat)
    requires p % PGS_PER_LINE == 0 && Queued(avail, avail0, p, 32, stime, ERASE_LATENCY) && Counted(nr, nr0, p, 32)
    ensures forall f :: 0 <= f < TT_LUNS ==> avail[f] == Later(avail0[f], stime) + ERASE_LATENCY && nr[f] == nr0[f] + 1
  {
    hide LunAt;
    forall f | 0 <= f < TT_LUNS
      ensures avail[f] == Later(avail0[f], stime) + ERASE_LATENCY && nr[f] == nr0[f] + 1
    {
      LunHolds(p, f);
      var d := f % 8 * 4 + f / 8;
      DoneAtIs(avail0[LunAt(p, d)], stime, 1, ERASE_LATENCY);
      assert Rounds(32, d) == 1;
    }
  }

  lemma NothingQueued(avail: seq<nat>, nr: seq<nat>, p: nat, stime: nat, lat: nat)
    requires |avail| == |nr| == TT_LUNS
    ensures Queued(avail, avail, p, 0, stime, lat) && IsLatest(avail, p, 0, 0) && Counted(nr, nr, p, 0)
  {
  }

  lemma NothingMoved(wp: seq<nat>, p: nat)
    requires |wp| == TT_LINES && p < TT_PGS
    ensures InOrder(wp, p, 0) && Moved(wp, wp, p, 0)
  {
  }

  lemma IdleMeans(avail: seq<nat>, avail0: seq<nat>, p: nat, n: nat, stime: nat, lat: nat, m: nat)
    requires Queued(avail, avail0, p, n, stime, lat) && |avail| == TT_LUNS && IsLatest(avail, p, n, m) && n > 0
    requires Idle(avail0, stime)
    ensures m == stime + (n + 31) / 32 * lat
  {
    IdleLatency(avail, avail0, p, n, stime, lat, m);
  }

  lemma LatestOfAll(avail: seq<nat>, p: nat, m: nat, m': nat, bound: nat)
    requires |avail| == TT_LUNS && p % PGS_PER_LINE == 0 && IsLatest(avail, p, 32, m)
    ensures m < bound <==> forall f :: 0 <= f < TT_LUNS ==> avail[f] < bound
    ensures IsLatest(avail, p, 32, m') <==> m == m'
  {
    hide LunAt;
    forall f | 0 <= f < TT_LUNS
      ensures avail[f] <= m
    {
      LunHolds(p, f);
    }
    var d :| 0 <= d < 32 && avail[LunAt(p, d)] == m;
    if IsLatest(avail, p, 32, m') {
      var e :| 0 <= e < 32 && avail[LunAt(p, e)] == m';
      assert avail[LunAt(p, d)] <= m' && avail[LunAt(p, e)] <= m;
    }
  }

  // A run of pages from `p` stops at its page `k`: those before it, and only those, are in order and written.
  ghost predicate StopsAt(wp0: seq<nat>, wp: seq<nat>, avail0: seq<nat>, avail: seq<nat>, p: nat, k: nat, stime: nat)
    requires |wp0| == TT_LINES && p + k < TT_PGS
  {
    && InOrder(wp0, p, k) && !InOrder(wp0, p, k + 1)
    && Moved(wp, wp0, p, k) && Queued(avail, avail0, p, k, stime, WRITE_LATENCY)
  }

  lemma WrittenIs(state: seq<bool>, wp: seq<nat>, q: nat)
    requires LinesOk(state, wp) && q < TT_PGS
    ensures |state| == TT_PGS && |wp| == TT_LINES && LineOf(q) < TT_LINES
    ensures state[q] <==> q - LineOf(q) * PGS_PER_LINE < wp[LineOf(q)]
  {
  }

  datatype Outcome = Done(lat: nat) | Overwrite | OutOfOrder | Unwritten

  ghost predicate Idle(avail: seq<nat>, stime: nat) {
    forall f :: 0 <= f < |avail| ==> avail[f] <= stime
  }

  class Ssd {
    var state: seq<bool>
    var lineWp: seq<nat>
    // When each LUN is done with the commands given to it.
    var avail: seq<nat>
    // Commands each LUN was given.
    var nrReads: seq<nat>
    var nrWrites: seq<nat>
    var nrErases: seq<nat>

    ghost predicate Valid()
      reads this
    {
      LinesOk(state, lineWp) && |avail| == |nrReads| == |nrWrites| == |nrErases| == TT_LUNS
    }

    // `ssd_init`.
    constructor ()
      ensures Valid() && Idle(avail, 0)
      ensures forall l :: 0 <= l < TT_LINES ==> lineWp[l] == 0
    {
      state, lineWp := seq(TT_PGS, _ => false), seq(TT_LINES, _ => 0);
      avail, nrReads := seq(TT_LUNS, _ => 0), seq(TT_LUNS, _ => 0);
      nrWrites, nrErases := seq(TT_LUNS, _ => 0), seq(TT_LUNS, _ => 0);
    }

    // `ssd_advance_status`: a command of `cost` on the LUN `f`; returns how long it takes from `stime`.
    method AdvanceStatus(f: nat, cost: nat, stime: nat) returns (lat: nat)
      requires |avail| == TT_LUNS && f < TT_LUNS
      modifies this`avail
      ensures var t := Later(old(avail)[f], stime) + cost; avail == old(avail)[f := t] && lat == t - stime
    {
      var nandStime := if avail[f] < stime then stime else avail[f];
      avail := avail[f := nandStime + cost];
      lat := avail[f] - stime;
    }

    /** `ssd_write_ppa`: `n` pages from `p` on.  It succeeds exactly when they are next in order in their
        lines, and then takes until the last LUN is done; a failing run has written the pages before. */
    method Write(p: nat, n: nat, stime: nat) returns (r: Outcome)
      requires Valid() && n > 0 && p + n <= TT_PGS
      modifies this`state, this`lineWp, this`avail, this`nrWrites
      ensures Valid()
      ensures r.Done? <==> InOrder(old(lineWp), p, n)
      ensures r.Done? ==> Moved(lineWp, old(lineWp), p, n) && Queued(avail, old(avail), p, n, stime, WRITE_LATENCY)
      ensures r.Done? ==> IsLatest(avail, p, n, stime + r.lat) && Counted(nrWrites, old(nrWrites), p, n)
      ensures r.Done? && Idle(old(avail), stime) ==> r.lat == (n + 31) / 32 * WRITE_LATENCY
      ensures !r.Done? ==>
        exists k: nat :: (k < n && StopsAt(old(lineWp), lineWp, old(avail), avail, p, k, stime)
                          && r == if old(state)[p + k] then Overwrite else OutOfOrder)
    {
      hide LunAt, LinesOk, InOrder, Moved, Queued, Counted, IsLatest, Idle;
      Sizes(state, lineWp);
      var k: nat, maxEtime: nat := 0, 0;
      NothingMoved(lineWp, p);
      NothingQueued(avail, nrWrites, p, stime, WRITE_LATENCY);
      while k < n
        invariant k <= n && Valid() && InOrder(old(lineWp), p, k) && Moved(lineWp, old(lineWp), p, k)
        invariant |state| == TT_PGS && |lineWp| == TT_LINES
        invariant forall q :: p + k <= q < TT_PGS ==> state[q] == old(state)[q]
        invariant Queued(avail, old(avail), p, k, stime, WRITE_LATENCY) && IsLatest(avail, p, k, maxEtime)
        invariant Counted(nrWrites, old(nrWrites), p, k)
        invariant k > 0 ==> maxEtime >= stime
      {
        var q := p + k;
        NextInOrder(lineWp, old(lineWp), p, k);
        WrittenIs(state, lineWp, q);
        if state[q] {
          NotInOrder(old(lineWp), p, k + 1, n);
          assert StopsAt(old(lineWp), lineWp, old(avail), avail, p, k, stime);
          return Overwrite;
        }
        var l := LineOf(q);
        if lineWp[l] != q - l * PGS_PER_LINE {
          NotInOrder(old(lineWp), p, k + 1, n);
          assert StopsAt(old(lineWp), lineWp, old(avail), avail, p, k, stime);
          return OutOfOrder;
        }
        LinesNext(state, lineWp, q);
        MovedNext(lineWp, old(lineWp), p, k);
        state := state[q := true];
        lineWp := lineWp[l := lineWp[l] + 1];
        var f := LunAt(p, k);
        OneMoreCounted(nrWrites, old(nrWrites), p, k);
        nrWrites := nrWrites[f := nrWrites[f] + 1];
        OneMoreQueued(avail, old(avail), p, k, stime, WRITE_LATENCY, maxEtime);
        var lat := AdvanceStatus(f, WRITE_LATENCY, stime);
        var etime := stime + lat;
        maxEtime := if etime > maxEtime then etime else maxEtime;
        k := k + 1;
      }
      if Idle(old(avail), stime) { IdleMeans(avail, old(avail), p, n, stime, WRITE_LATENCY, maxEtime); }
      r := Done(maxEtime - stime);
    }

    /** `ssd_read_ppa`: succeeds exactly when all the pages are written. */
    method Read(p: nat, n: nat, stime: nat) returns (r: Outcome)
      requires Valid() && n > 0 && p + n <= TT_PGS
      modifies this`avail, this`nrReads
      ensures Valid()
      ensures r == Unwritten || r.Done?
      ensures r.Done? <==> forall q :: p <= q < p + n ==> state[q]
      ensures r.Done? ==> Queued(avail, old(avail), p, n, stime, READ_LATENCY)
      ensures r.Done? ==> IsLatest(avail, p, n, stime + r.lat) && Counted(nrReads, old(nrReads), p, n)
      ensures r.Done? && Idle(old(avail), stime) ==> r.lat == (n + 31) / 32 * READ_LATENCY
    {
      hide LunAt, LinesOk, Queued, Counted, IsLatest, Idle;
      assert |state| == TT_PGS && |lineWp| == TT_LINES by { Sizes(state, lineWp); }
      var k: nat, maxEtime: nat := 0, 0;
      NothingQueued(avail, nrReads, p, stime, READ_LATENCY);
      while k < n
        invariant k <= n && Valid() && forall q :: p <= q < p + k ==> state[q]
        invariant Queued(avail, old(avail), p, k, stime, READ_LATENCY) && IsLatest(avail, p, k, maxEtime)
        invariant Counted(nrReads, old(nrReads), p, k)
        invariant k > 0 ==> maxEtime >= stime
      {
        if !state[p + k] { return Unwritten; }
        var f := LunAt(p, k);
        OneMoreCounted(nrReads, old(nrReads), p, k);
        nrReads := nrReads[f := nrReads[f] + 1];
        OneMoreQueued(avail, old(avail), p, k, stime, READ_LATENCY, maxEtime);
        var lat := AdvanceStatus(f, READ_LATENCY, stime);
        var etime := stime + lat;
        maxEtime := if etime > maxEtime then etime else maxEtime;
        k := k + 1;
      }
      if Idle(old(avail), stime) { IdleMeans(avail, old(avail), p, n, stime, READ_LATENCY, maxEtime); }
      r := Done(maxEtime - stime);
    }

    /** `ssd_trim_block`: erases the line, one command on each LUN.  The longest latency is kept in 32 bits,
        so it is right exactly while it fits. */
    method Trim(p: nat, stime: nat) returns (lat: nat)
      requires Valid() && p < TT_PGS && p % PGS_PER_LINE == 0
      modifies this`state, this`lineWp, this`avail, this`nrErases
      ensures Valid() && lineWp == old(lineWp)[LineOf(p) := 0]
      ensures forall q :: 0 <= q < TT_PGS ==> state[q] == (LineOf(q) != LineOf(p) && old(state)[q])
      ensures forall f :: 0 <= f < TT_LUNS ==>
        avail[f] == Later(old(avail)[f], stime) + ERASE_LATENCY && nrErases[f] == old(nrErases)[f] + 1
      ensures IsLatest(avail, p, 32, stime + lat) <==> forall f :: 0 <= f < TT_LUNS ==> avail[f] < stime + LIMIT32
      ensures Idle(old(avail), stime) ==> lat == ERASE_LATENCY
    {
      hide LunAt, LinesOk, Queued, Counted, IsLatest, Idle;
      Sizes(state, lineWp);
      var i: nat, maxlat: nat := 0, 0;
      // The end of the longest command.
      ghost var m: nat := 0;
      NothingQueued(avail, nrErases, p, stime, ERASE_LATENCY);
      while i < TT_LUNS
        invariant i <= TT_LUNS && maxlat < LIMIT32 && (if i > 0 then m > stime else m == 0)
          && |avail| == |nrErases| == TT_LUNS
        invariant Queued(avail, old(avail), p, i, stime, ERASE_LATENCY) && IsLatest(avail, p, i, m)
        invariant Counted(nrErases, old(nrErases), p, i)
        invariant m < stime + LIMIT32 ==> maxlat == if i == 0 then 0 else m - stime
        invariant state == old(state) && lineWp == old(lineWp)
      {
        var f := LunAt(p, i);
        OneMoreCounted(nrErases, old(nrErases), p, i);
        nrErases := nrErases[f := nrErases[f] + 1];
        OneMoreQueued(avail, old(avail), p, i, stime, ERASE_LATENCY, m);
        m := Later(m, Later(avail[f], stime) + ERASE_LATENCY);
        var took := AdvanceStatus(f, ERASE_LATENCY, stime);
        assert took < LIMIT32 ==> took % LIMIT32 == took;
        if took > maxlat {
          maxlat := took % LIMIT32;
        }
        i := i + 1;
      }
      ErasesEachLun(avail, old(avail), nrErases, old(nrErases), p, stime);
      LatestOfAll(avail, p, m, stime + maxlat, stime + LIMIT32);
      if Idle(old(avail), stime) { IdleMeans(avail, old(avail), p, 32, stime, ERASE_LATENCY, m); }
      var l := LineOf(p);
      ghost var was := state;
      state := state[..p] + seq(PGS_PER_LINE, _ => false) + state[p + PGS_PER_LINE..];
      LinesErased(was, state, lineWp, l);
      lineWp := lineWp[l := 0];
      lat := maxlat;
    }
  }
}
