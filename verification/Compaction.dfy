/**
 Compaction of the tree: the memtable or a full level is merged into the next level, whose runs are
 written anew.  What the tree means is what the newest level holding a key says about it.
 */
module Compaction {
  import opened Common
  import opened Keys
  import opened PageCodec
  import opened PipeMerger
  import opened LevelLookup

  // `key_min`: 255 zero bytes.
  function KeyMin(): (k: Key)
    ensures |k| == 255 && forall i :: 0 <= i < 255 ==> k[i] == 0
  {
    seq(255, _ => 0)
  }

  // The run holds only keys before `KeyMin`.
  predicate EndsLow(r: Run) { Before(r.end, KeyMin()) }

  function Pages(runs: seq<Run>): (p: seq<Page>)
    ensures |p| == |runs| && forall i :: 0 <= i < |runs| ==> p[i] == runs[i].page
  {
    seq(|runs|, i requires 0 <= i < |runs| => runs[i].page)
  }

  lemma PagesAreStream(runs: seq<Run>)
    requires RunsOk(runs)
    ensures StreamOk(Pages(runs))
  {
    hide StreamPageOk, Decode, NumKeys;
    forall i | 0 <= i < |runs| ensures StreamPageOk(Pages(runs)[i]) { assert RunOk(runs[i]); }
  }

  /** The entries of a level, in order. */
  ghost function Contents(runs: seq<Run>): seq<Entry>
    requires RunsOk(runs)
  {
    PagesAreStream(runs);
    DecodeAll(Pages(runs))
  }

  // ----- what the tree means -----

  // The data page an entry list gives for a key.
  ghost function Find(s: seq<Entry>, k: Key): Option<nat> {
    if s == [] then None else if s[0].key == k then Some(s[0].ppa) else Find(s[1..], k)
  }

  /** The data page of a key: what the newest level that has the key says. */
  ghost function Lookup(levels: seq<seq<Entry>>, k: Key): Option<nat> {
    if levels == [] then None
    else if Find(levels[0], k).Some? then Find(levels[0], k)
    else Lookup(levels[1..], k)
  }

  lemma {:induction false} FindIn(s: seq<Entry>, k: Key)
    requires Sorted(s)
    ensures Find(s, k).None? <==> k !in KeysOf(s)
    ensures forall p: nat :: Find(s, k) == Some(p) <==> Entry(k, p) in s
  {
    if s != [] {
      SortedTail(s);
      FindIn(s[1..], k);
      KeysOfCons(s);
      NotIn(s[0].key, s[1..]);
    }
  }

  // Merging two adjacent levels does not change what they say together.
  lemma MergeFinds(lo: seq<Entry>, hi: seq<Entry>, k: Key)
    requires Sorted(lo) && Sorted(hi)
    ensures Sorted(Merged(lo, hi))
    ensures Find(Merged(lo, hi), k) == if Find(hi, k).Some? then Find(hi, k) else Find(lo, k)
  {
    var m := Merged(lo, hi);
    MergeMeaning(lo, hi);
    FindIn(lo, k);
    FindIn(hi, k);
    FindIn(m, k);
    assert forall p: nat :: Entry(k, p) in m <==> Survives(lo, hi, Entry(k, p));
    assert forall p: nat :: Find(m, k) == Some(p) <==> Survives(lo, hi, Entry(k, p));
    if Find(hi, k).Some? {
      assert Survives(lo, hi, Entry(k, Find(hi, k).value));
    } else if Find(lo, k).Some? {
      assert Survives(lo, hi, Entry(k, Find(lo, k).value));
    }
  }

  lemma {:induction false} LookupConcat(a: seq<seq<Entry>>, b: seq<seq<Entry>>, k: Key)
    ensures Lookup(a + b, k) == if Lookup(a, k).Some? then Lookup(a, k) else Lookup(b, k)
  {
    if a == [] {
      assert a + b == b;
    } else {
      assert (a + b)[1..] == a[1..] + b;
      LookupConcat(a[1..], b, k);
    }
  }

  /** Emptying a level into the next one, merged, leaves every key's meaning as it was. */
  lemma MergeKeepsLookup(pre: seq<seq<Entry>>, hi: seq<Entry>, lo: seq<Entry>, post: seq<seq<Entry>>, k: Key)
    requires Sorted(lo) && Sorted(hi)
    ensures Lookup(pre + [[], Merged(lo, hi)] + post, k) == Lookup(pre + [hi, lo] + post, k)
  {
    var m: seq<seq<Entry>>, n := [[], Merged(lo, hi)], [hi, lo];
    MergeFinds(lo, hi, k);
    assert m[1..] == [Merged(lo, hi)] && [Merged(lo, hi)][1..] == [];
    assert n[1..] == [lo] && [lo][1..] == [];
    assert Lookup(m, k) == Lookup([Merged(lo, hi)], k);
    assert Lookup(n, k) == Lookup(m, k);
    LookupConcat(pre + m, post, k);
    LookupConcat(pre + n, post, k);
    LookupConcat(pre, m, k);
    LookupConcat(pre, n, k);
  }

  // ----- levels of runs -----

  // Entries of one run in front of those of the following.
  lemma {:induction false} ContentsSorted(runs: seq<Run>)
    requires RunsOk(runs)
    ensures Sorted(Contents(runs)) && (runs != [] ==> Contents(runs) != [])
    ensures runs != [] ==> forall e :: e in Contents(runs) ==> AtMost(runs[0].key, e.key)
    ensures runs != [] ==> forall e :: e in Contents(runs) ==> AtMost(e.key, runs[|runs| - 1].end)
  {
    hide StreamPageOk, Decode, NumKeys, Before;
    if runs != [] {
      ContentsOfTail(runs);
      var d, rest := Decode(runs[0].page), runs[1..];
      ContentsSorted(rest);
      assert RunOk(runs[0]);
      PageShape(runs[0].page);
      forall i | 0 <= i < |d|
        ensures AtMost(runs[0].key, d[i].key) && AtMost(d[i].key, runs[0].end)
      {
        KeyInBounds(runs[0], i);
      }
      if rest != [] {
        RunKeysRise(runs, 0, 1);
        BoundsRise(rest[|rest| - 1]);
        forall e | e in Contents(rest) ensures Before(runs[0].end, e.key) && AtMost(runs[0].key, e.key) {
          AtMostTransitive(runs[0].end, rest[0].key, e.key);
          BeforeAfter(runs[0].end, rest[0].key, e.key);
          BoundsRise(runs[0]);
          AtMostTransitive(runs[0].key, runs[0].end, e.key);
        }
        forall i | 0 <= i < |d| ensures AtMost(d[i].key, runs[|runs| - 1].end) {
          RunKeysRise(runs, 0, |runs| - 1);
          AtMostTransitive(d[i].key, runs[0].end, runs[|runs| - 1].end);
        }
      }
      SortedJoin(d, Contents(rest), runs[0].end);
    }
  }

  lemma BeforeAfter(a: Key, b: Key, c: Key)
    requires Before(a, b) && AtMost(b, c)
    ensures Before(a, c)
  {
    if b != c { BeforeTransitive(a, b, c); }
  }

  lemma SortedJoin(s: seq<Entry>, t: seq<Entry>, k: Key)
    requires Sorted(s) && Sorted(t)
    requires (forall e :: e in s ==> AtMost(e.key, k)) && forall e :: e in t ==> Before(k, e.key)
    ensures Sorted(s + t)
  {
    var u := s + t;
    forall i, j | 0 <= i < j < |u| ensures Before(u[i].key, u[j].key) {
      if i < |s| <= j {
        assert u[i] in s && u[j] in t;
        if u[i].key != k { BeforeTransitive(u[i].key, k, u[j].key); }
      }
    }
  }

  lemma ContentsOfTail(runs: seq<Run>)
    requires RunsOk(runs) && runs != []
    ensures RunsOk(runs[1..]) && Pages(runs[1..]) == Pages(runs)[1..] && StreamPageOk(runs[0].page)
    ensures |runs[0].page| == PAGESIZE && NumKeys(runs[0].page) <= MAX_KEYS
    ensures Contents(runs) == Decode(runs[0].page) + Contents(runs[1..])
  {
    hide StreamPageOk, Decode, NumKeys, Before;
    assert RunOk(runs[0]);
    PageShape(runs[0].page);
    PagesAreStream(runs);
  }

  // A new run behind the others.
  lemma RunsMore(runs: seq<Run>, r: Run)
    requires RunsOk(runs) && RunOk(r) && (runs != [] ==> Before(runs[|runs| - 1].end, r.key))
    ensures RunsOk(runs + [r])
  {
    hide RunOk, Before;
    var s := runs + [r];
    forall i, j | 0 <= i < j < |s| ensures Before(s[i].end, s[j].key) {
      if j == |runs| && i < |runs| - 1 {
        RunKeysRise(runs, i, |runs| - 1);
        BeforeTransitive(runs[i].end, runs[|runs| - 1].end, r.key);
      }
    }
  }

  // ----- from output pages to runs -----

  lemma {:induction false} FlatSplit(pieces: seq<seq<Entry>>, i: nat)
    requires i < |pieces|
    ensures Flat(pieces) == Flat(pieces[..i]) + (pieces[i] + Flat(pieces[i + 1..]))
  {
    if i == 0 {
      assert pieces[..0] == [];
    } else {
      FlatSplit(pieces[1..], i - 1);
      assert pieces[1..][..i - 1] == pieces[..i][1..];
      assert pieces[1..][i..] == pieces[i + 1..];
      assert Flat(pieces[..i]) == pieces[0] + Flat(pieces[..i][1..]);
    }
  }

  lemma SortedParts(s: seq<Entry>, t: seq<Entry>)
    requires Sorted(s + t)
    ensures Sorted(s) && Sorted(t)
    ensures forall i, j :: 0 <= i < |s| && 0 <= j < |t| ==> Before(s[i].key, t[j].key)
  {
    var u := s + t;
    forall i, j | 0 <= i < j < |t| ensures Before(t[i].key, t[j].key) { assert Before(u[|s| + i].key, u[|s| + j].key); }
    forall i, j | 0 <= i < j < |s| ensures Before(s[i].key, s[j].key) { assert Before(u[i].key, u[j].key); }
    forall i, j | 0 <= i < |s| && 0 <= j < |t|
      ensures Before(s[i].key, t[j].key)
    {
      assert Before(u[i].key, u[|s| + j].key);
    }
  }

  // A piece of a sorted list is sorted, and the piece before ends before it begins.
  lemma PieceFits(pieces: seq<seq<Entry>>, i: nat)
    requires i < |pieces| && Sorted(Flat(pieces)) && forall p :: p in pieces ==> PieceOk(p)
    ensures pieces[i] != [] && Sorted(pieces[i])
    ensures i > 0 ==> pieces[i - 1] != [] && Before(pieces[i - 1][|pieces[i - 1]| - 1].key, pieces[i][0].key)
  {
    assert pieces[i] in pieces;
    FlatSplit(pieces, i);
    SortedParts(Flat(pieces[..i]), pieces[i] + Flat(pieces[i + 1..]));
    SortedParts(pieces[i], Flat(pieces[i + 1..]));
    if i > 0 {
      var q := pieces[i - 1];
      assert q in pieces;
      FlatSplit(pieces, i - 1);
      SortedParts(Flat(pieces[..i - 1]), q + Flat(pieces[i..]));
      SortedParts(q, Flat(pieces[i..]));
      assert pieces[i..][0] == pieces[i];
      assert Flat(pieces[i..])[0] == pieces[i][0];
    }
  }

  /** `array_pipe_make_run`: a run with its page's first and last key as bounds. */
  method MakeRun(data: Page) returns (r: Run)
    requires StreamPageOk(data)
    ensures r.page == data && |Decode(data)| == NumKeys(data) >= 1
    ensures r.key == Decode(data)[0].key && r.end == Decode(data)[NumKeys(data) - 1].key
  {
    hide StreamPageOk, Decode, KeyAt, PpaAt;
    PageShape(data);
    EntryOfPage(data, 1);
    EntryOfPage(data, NumKeys(data));
    r := Run(KeyAt(data, 1), KeyAt(data, NumKeys(data)), data);
  }

  class Level {
    const idx: nat
    const mNum: nat
    var runs: seq<Run>

    // `array_init`.
    constructor (mNum: nat, idx: nat)
      ensures runs == [] && this.mNum == mNum && this.idx == idx
    {
      this.mNum, this.idx, runs := mNum, idx, [];
    }

    // `array_insert`; `ok` is false when the source aborts on a full level.
    method Insert(r: Run) returns (ok: bool)
      modifies this
      ensures ok <==> |old(runs)| < mNum
      ensures runs == if ok then old(runs) + [r] else old(runs)
    {
      ok := |runs| < mNum;
      if ok { runs := runs + [r]; }
    }
  }

  // ----- which runs a compaction reads -----

  // The run from which `array_range_find_compaction` collects, asked for everything from `KeyMin` on.
  ghost function UseFrom(runs: seq<Run>): (s: nat)
    ensures s <= |runs|
  {
    var s := FirstEnding(runs, 0);
    if s == |runs| then 0 else s
  }

  // The first run from `i` on that does not end before `KeyMin`.
  ghost function FirstEnding(runs: seq<Run>, i: nat): (s: nat)
    requires i <= |runs|
    ensures i <= s <= |runs|
    ensures forall j :: i <= j < s ==> EndsLow(runs[j])
    ensures s < |runs| ==> !EndsLow(runs[s])
    decreases |runs| - i
  {
    if i == |runs| || !EndsLow(runs[i]) then i else FirstEnding(runs, i + 1)
  }

  /** The runs read: all from the first that does not end before `KeyMin`; all, if every run does. */
  ghost function Used(runs: seq<Run>): seq<Run> { runs[UseFrom(runs)..] }

  method RangeFindCompaction(runs: seq<Run>) returns (found: seq<Run>)
    requires RunsOk(runs)
    ensures found == Used(runs) && (runs != [] ==> found != [])
  {
    hide RunOk, Before;
    var target := BoundSearch(runs, KeyMin());
    LowerBoundIsFirst(runs, target);
    if target == -1 { target := 0; }
    found := runs[target..];
  }

  lemma LowerBoundIsFirst(runs: seq<Run>, r: int)
    requires IsLowerBound(runs, KeyMin(), r)
    ensures UseFrom(runs) == if r == -1 then 0 else r
    ensures runs != [] ==> UseFrom(runs) < |runs|
  {
    hide Before;
    var s := FirstEnding(runs, 0);
    if r != -1 { NotBefore(runs[r].end); }
  }

  lemma NotBefore(k: Key)
    requires AtMost(KeyMin(), k)
    ensures !Before(k, KeyMin())
  {
    Trichotomy(k, KeyMin());
  }

  /** Nothing is skipped exactly when the first run does not end before `KeyMin`, or every run does. */
  lemma SkipsNothing(runs: seq<Run>)
    ensures Used(runs) == runs <==>
      (runs == [] || !EndsLow(runs[0]) || forall i :: 0 <= i < |runs| ==> EndsLow(runs[i]))
  {
    hide Before;
    assert runs[0..] == runs;
    var s := FirstEnding(runs, 0);
    if s != 0 && s != |runs| {
      assert |Used(runs)| < |runs|;
      assert EndsLow(runs[0]) && !EndsLow(runs[s]);
    }
  }

  // Only shorter keys of zero bytes come before `KeyMin`.
  predicate AllZero(k: Key) { |k| < 255 && forall i :: 0 <= i < |k| ==> k[i] == 0 }

  lemma BeforeMin(k: Key)
    ensures Before(k, KeyMin()) <==> AllZero(k)
  {
    var p := Part(k, KeyMin());
    if Before(k, KeyMin()) {
      forall i | 0 <= i < |k| ensures k[i] == 0 { SamePrefix(k, KeyMin(), p, i); }
    }
  }

  /** What one level gets: the upper entries if it was empty, else the merge of the entries read. */
  ghost function Result(origin: seq<Run>, upper: seq<Entry>): seq<Entry>
    requires RunsOk(origin)
  {
    UsedOk(origin);
    if origin == [] then upper else Merged(Contents(Used(origin)), upper)
  }

  lemma UsedOk(runs: seq<Run>)
    requires RunsOk(runs)
    ensures RunsOk(Used(runs))
  {
    hide RunOk, Before;
  }

  // A memtable cut for a page: sorted, within a page's limits, and of two keys at least.
  ghost predicate MemOk(mem: seq<Entry>) {
    Sorted(mem) && AllOk(mem) && 2 <= |mem| <= MAX_KEYS && Bytes(mem) <= PAGESIZE - KEYBITMAP
  }

  // One the cut of a memtable hands over: of as many keys as it takes, or too long for any key more.
  ghost predicate CutOff(mem: seq<Entry>) {
    MemOk(mem) && (|mem| == MAX_KEYS || Bytes(mem) + 259 >= PAGESIZE - KEYBITMAP)
  }

  // A whole memtable as a single run.
  method MemRun(mem: seq<Entry>) returns (r: Run)
    requires MemOk(mem)
    ensures RunHolds(r, mem) && RunsOk([r]) && Contents([r]) == mem
  {
    var page, first, last := EncodeTable(mem);
    r := Run(first.value, last.value, page[..]);
    OneRun(r, mem);
  }

  lemma OneRun(r: Run, mem: seq<Entry>)
    requires PageOk(r.page) && Decode(r.page) == mem && mem != [] && Sorted(mem)
    requires r.key == mem[0].key && r.end == mem[|mem| - 1].key
    ensures RunOk(r) && RunsOk([r]) && Contents([r]) == mem
  {
    assert |Decode(r.page)| == NumKeys(r.page);
    ContentsOfTail([r]);
    assert [r][1..] == [];
  }

  ghost predicate RunHolds(r: Run, piece: seq<Entry>) { StreamPageOk(r.page) && Decode(r.page) == piece }

  // The runs' pages hold these pieces, one each.
  ghost predicate RunsAre(runs: seq<Run>, pieces: seq<seq<Entry>>) {
    |runs| == |pieces| && forall i :: 0 <= i < |runs| ==> RunHolds(runs[i], pieces[i])
  }

  // The merged pages become the runs of the new level, one by one.
  method InsertPages(t: Level, data: seq<Page>, ghost pieces: seq<seq<Entry>>) returns (ok: bool)
    requires t.runs == [] && StreamOk(data) && |data| == |pieces| && Sorted(Flat(pieces))
    requires forall i :: 0 <= i < |data| ==> Decode(data[i]) == pieces[i]
    requires forall p :: p in pieces ==> PieceOk(p)
    modifies t
    ensures ok <==> |data| <= t.mNum
    ensures ok ==> RunsOk(t.runs) && Contents(t.runs) == Flat(pieces) && RunsAre(t.runs, pieces)
  {
    hide StreamPageOk, Decode, NumKeys, PieceOk, Before, Sorted;
    for i := 0 to |data|
      invariant |t.runs| == i <= t.mNum || (i == 0 && t.runs == [])
      invariant RunsOk(t.runs) && forall j :: 0 <= j < i ==> t.runs[j].page == data[j]
    {
      var r := MakeRun(data[i]);
      PageShape(data[i]);
      PieceFits(pieces, i);
      if i > 0 { LastRun(t.runs, data[i - 1], pieces[i - 1]); }
      RunsMore(t.runs, r);
      ok := t.Insert(r);
      if !ok { return; }
    }
    ok := true;
    assert Pages(t.runs) == data;
    PagesOfPieces(data, pieces);
  }

  lemma LastRun(runs: seq<Run>, page: Page, piece: seq<Entry>)
    requires RunsOk(runs) && runs != [] && runs[|runs| - 1].page == page && StreamPageOk(page) && Decode(page) == piece
    ensures piece != [] && runs[|runs| - 1].end == piece[|piece| - 1].key
  {
    assert RunOk(runs[|runs| - 1]);
    PageShape(page);
  }

  /** `partial_leveling` with `compaction_subprocessing`: the runs read of the original level and the
      upper pages are merged, cut, and inserted into the new level `t`.  `ok` is false when the source
      aborts on a full level or runs past its page list. */
  method PartialLeveling(t: Level, origin: Level, upper: seq<Page>, ghost hi: seq<Entry>)
    returns (ok: bool, dropped: seq<nat>)
    requires t.runs == [] && t != origin && RunsOk(origin.runs) && origin.runs != []
    requires StreamOk(upper) && upper != [] && DecodeAll(upper) == hi && Sorted(hi)
    modifies t
    ensures ok ==> RunsOk(t.runs) && Contents(t.runs) == Result(origin.runs, hi) && |t.runs| <= t.mNum
    ensures ok ==> RunsAre(t.runs, Cut([], Result(origin.runs, hi)))
    ensures ok ==> RunsOk(Used(origin.runs)) && dropped == Shared(Contents(Used(origin.runs)), KeysOf(hi))
    ensures ok <==> HasRoom(t.mNum, origin.runs, hi, |upper|)
  {
    hide RunOk, Before, StreamPageOk, Cut, Merged, Dropped, Sorted;
    var found := RangeFindCompaction(origin.runs);
    UsedOk(origin.runs);
    PagesAreStream(found);
    ContentsSorted(found);
    ghost var lo := Contents(found);
    var data;
    ok, data, dropped := Merge(Pages(found), upper);
    MergedPagesHold(Pages(found), upper);
    MergeMeaning(lo, hi);
    DroppedExactly(lo, hi);
    if ok {
      ok := InsertPages(t, data, MergedPages(Pages(found), upper));
    }
  }

  ghost predicate TreeOk(d: seq<seq<Run>>) { forall i :: 0 <= i < |d| ==> RunsOk(d[i]) }

  // The runs of all levels, newest first.
  ghost function Runs(disk: seq<Level>): (d: seq<seq<Run>>)
    reads disk
    ensures |d| == |disk| && forall i :: 0 <= i < |d| ==> d[i] == disk[i].runs
  {
    seq(|disk|, i requires 0 <= i < |disk| reads disk => disk[i].runs)
  }

  // Their entries.
  ghost function Tree(d: seq<seq<Run>>): (t: seq<seq<Entry>>)
    requires TreeOk(d)
    ensures |t| == |d| && forall i :: 0 <= i < |t| ==> t[i] == Contents(d[i])
  {
    seq(|d|, i requires 0 <= i < |d| && RunsOk(d[i]) => Contents(d[i]))
  }

  /** A compaction of `n` upper pages holding `hi` finds room: the level takes as many runs as the output
      has pages, and so does the merger's page list. */
  ghost predicate HasRoom(mNum: nat, origin: seq<Run>, hi: seq<Entry>, n: nat)
    requires RunsOk(origin)
  {
    var m := |Cut([], Result(origin, hi))|;
    if origin == [] then n <= mNum else m <= mNum && m <= |Used(origin)| + n + RESULT_PADDING
  }

  // What the runs of level 0 hold after a memtable went into it: the memtable alone, or the merge cut.
  ghost function Pieces(origin: seq<Run>, mem: seq<Entry>): seq<seq<Entry>>
    requires RunsOk(origin)
  {
    if origin == [] then [mem] else Cut([], Result(origin, mem))
  }

  class Lsm {
    // `LSM.disk`, level 0 first.
    var disk: seq<Level>
    // `LSM.LEVELCACHING`: levels above it keep their pages in memory.
    const levelCaching: nat
    // Runs at which a level counts as full.
    const fullAt: seq<nat>

    // How many runs each level takes.
    const mNums: seq<nat>

    ghost predicate Valid()
      reads this, disk
    {
      && |mNums| == |fullAt| == |disk| && TreeOk(Runs(disk))
      && (forall i :: 0 <= i < |disk| ==> disk[i].idx == i && disk[i].mNum == mNums[i])
      && (forall i :: 0 <= i < |disk| ==> fullAt[i] > 0 && |disk[i].runs| <= mNums[i])
      && forall i, j :: 0 <= i < j < |disk| ==> mNums[i] <= mNums[j]
    }

    constructor (mNums: seq<nat>, fullAt: seq<nat>, levelCaching: nat)
      requires |fullAt| == |mNums| && forall i :: 0 <= i < |fullAt| ==> fullAt[i] > 0
      requires forall i, j :: 0 <= i < j < |mNums| ==> mNums[i] <= mNums[j]
      ensures Valid() && this.mNums == mNums && this.fullAt == fullAt && this.levelCaching == levelCaching
      ensures Runs(disk) == seq(|mNums|, _ => [])
    {
      this.mNums, this.fullAt, this.levelCaching, disk := mNums, fullAt, levelCaching, [];
      new;
      EmptyLevel();
      for n := 0 to |mNums|
        invariant |disk| == n && forall i :: 0 <= i < n ==> fresh(disk[i]) && disk[i].idx == i
        invariant forall i :: 0 <= i < n ==> disk[i].runs == [] && disk[i].mNum == mNums[i]
      {
        var l := new Level(mNums[n], n);
        disk := disk + [l];
      }
    }

    // The runs of level `from` a compaction reads: all of a cached level.
    ghost function Upper(d: seq<seq<Run>>, from: nat): seq<Run>
      requires from < |d|
    {
      if from < levelCaching then d[from] else Used(d[from])
    }

    // What level `from + 1` holds after level `from` was compacted into it.
    ghost function Target(d: seq<seq<Run>>, from: nat): seq<Entry>
      requires from + 1 < |d| && TreeOk(d)
    {
      UsedOk(d[from]);
      if d[from + 1] == [] then Contents(d[from]) else Result(d[from + 1], Contents(Upper(d, from)))
    }

    // The level behind `from` has no room for it.
    ghost predicate NoRoom(d: seq<seq<Run>>, from: nat)
      requires from + 1 < |d| == |mNums| && TreeOk(d)
    {
      UsedOk(d[from]);
      d[from + 1] != [] && !HasRoom(mNums[from + 1], d[from + 1], Contents(Upper(d, from)), |Upper(d, from)|)
    }

    /** Compacting level `from` into the next skips no run of either; into an empty level all runs move. */
    ghost predicate Whole(d: seq<seq<Run>>, from: nat)
      requires from + 1 < |d|
    {
      d[from + 1] == [] || (Upper(d, from) == d[from] && Used(d[from + 1]) == d[from + 1])
    }

    // The levels `d` with level `from` emptied into the next.
    ghost predicate Emptied(d: seq<seq<Run>>, d': seq<seq<Run>>, from: nat)
      requires from + 1 < |d| && TreeOk(d)
    {
      |d'| == |d| && d' == d[from := []][from + 1 := d'[from + 1]] && NextIs(d, from, d'[from + 1])
    }

    // What level `from + 1` becomes: level `from` as it is, or the two merged and cut.
    ghost predicate NextIs(d: seq<seq<Run>>, from: nat, runs: seq<Run>)
      requires from + 1 < |d| && TreeOk(d)
    {
      if d[from + 1] == [] then runs == d[from] else RunsAre(runs, Cut([], Target(d, from)))
    }

    ghost predicate IsFull(d: seq<seq<Run>>, i: nat)
      requires i < |d| == |fullAt|
    {
      |d[i]| >= fullAt[i]
    }

    // The states of a cascade: in state `i` level `i` is full, and emptying it gives the next state.
    ghost predicate Cascades(trail: seq<seq<seq<Run>>>) {
      && trail != [] && |trail| <= |fullAt|
        && (forall i :: 0 <= i < |trail| ==> |trail[i]| == |fullAt| && TreeOk(trail[i]))
      && forall i :: 0 <= i < |trail| - 1 ==> IsFull(trail[i], i) && Emptied(trail[i], trail[i + 1], i)
    }

    // No step of the cascade skips a run.
    ghost predicate AllWhole(trail: seq<seq<seq<Run>>>)
      requires Cascades(trail)
    {
      forall i :: 0 <= i < |trail| - 1 ==> Whole(trail[i], i)
    }

    lemma ValidFacts()
      requires Valid()
      ensures |mNums| == |fullAt| == |disk| && TreeOk(Runs(disk))
      ensures forall i :: 0 <= i < |disk| ==> disk[i].idx == i && disk[i].mNum == mNums[i]
      ensures forall i :: 0 <= i < |disk| ==> fullAt[i] > 0 && |disk[i].runs| <= mNums[i]
      ensures forall i :: 0 <= i < |disk| - 1 ==> mNums[i] <= mNums[i + 1]
    {
    }

    // Level `i` is replaced (`level_change`).
    method SetLevel(i: nat, l: Level)
      requires Valid() && i < |disk| && l.idx == i && l.mNum == mNums[i] && |l.runs| <= mNums[i] && RunsOk(l.runs)
      modifies this`disk
      ensures Valid() && |disk| == |old(disk)| && Runs(disk) == old(Runs(disk))[i := l.runs]
    {
      hide RunsOk;
      disk := disk[i := l];
    }

    /** `leveling` of a memtable into level 0. */
    method LevelMemtable(mem: seq<Entry>) returns (ok: bool)
      requires Valid() && |disk| > 0 && MemOk(mem)
      modifies this`disk
      ensures Valid() && (!ok ==> disk == old(disk))
      ensures var d, d' := old(Runs(disk)), Runs(disk);
        && (ok <==> HasRoom(mNums[0], d[0], mem, 1))
        && (ok ==> d' == d[0 := d'[0]] && RunsAre(d'[0], Pieces(d[0], mem)) && Contents(d'[0]) == Result(d[0], mem))
        && (ok && Used(d[0]) == d[0] ==> forall k :: Lookup(Tree(d'), k) == Lookup([mem] + Tree(d), k))
        && (ok && NoneZero([mem] + Tree(d)) ==> Used(d[0]) == d[0] && NoneZero(Tree(d')))
    {
      hide RunOk, RunsOk, Before, StreamPageOk, Cut, Merged, Sorted, Result, MemOk, Decode, Contents, Used, HasRoom;
      hide NoneZero, Lookup, RunsAre, Pieces, Valid;
      ValidFacts();
      ghost var d := Runs(disk);
      var to := disk[0];
      var target := new Level(to.mNum, to.idx);
      ok := FillFromMemtable(target, to, mem);
      if !ok { return; }
      SetLevel(0, target);
      ValidFacts();
      assert Tree(Runs(disk)) == Tree(d)[0 := Result(d[0], mem)];
      MemLookup(d[0], mem, Tree(d));
    }

    /** `leveling` of level `from` into the next one. */
    method LevelInto(from: nat) returns (ok: bool)
      requires Valid() && from + 1 < |disk| && disk[from].runs != []
      modifies this`disk
      ensures Valid() && (!ok ==> disk == old(disk))
      ensures var d, d' := old(Runs(disk)), Runs(disk);
        && (ok <==> !NoRoom(d, from))
        && (ok ==> Emptied(d, d', from) && Contents(d'[from + 1]) == Target(d, from))
        && (ok && Whole(d, from) ==> forall k :: Lookup(Tree(d'), k) == Lookup(Tree(d), k))
        && (NoneZero(Tree(d)) ==> Whole(d, from) && NoneZero(Tree(d')))
    {
      hide RunOk, RunsOk, Before, StreamPageOk, Cut, Merged, Sorted, Result, Decode, Contents, Used, HasRoom;
      hide NoneZero, Lookup, RunsAre, Whole, NoRoom, Target, NextIs, Valid;
      ValidFacts();
      ghost var d := Runs(disk);
      var src, to := disk[from], disk[from + 1];
      StepLookup(d, from);
      var target := new Level(to.mNum, to.idx);
      EmptyLevel();
      ok := FillNext(target, src, to, d, from);
      if !ok { return; }
      var emptied := new Level(src.mNum, src.idx);
      SetLevel(from, emptied);
      SetLevel(from + 1, target);
      ValidFacts();
      EmptiedTree(d, Runs(disk), from, target.runs);
    }

    method FillNext(target: Level, src: Level, to: Level, ghost d: seq<seq<Run>>, from: nat) returns (ok: bool)
      requires target.runs == [] && target != src && target != to && target.mNum == to.mNum
      requires from + 1 < |d| == |mNums| && TreeOk(d) && d[from] == src.runs != [] && d[from + 1] == to.runs
      requires to.mNum == mNums[from + 1] >= mNums[from] >= |src.runs|
      modifies target
      ensures ok <==> !NoRoom(d, from)
      ensures ok ==> |target.runs| <= to.mNum && RunsOk(target.runs) && Contents(target.runs) == Target(d, from)
      ensures ok ==> NextIs(d, from, target.runs)
    {
      hide RunOk, RunsOk, Before, StreamPageOk, Cut, Merged, Sorted, Result, Decode, Contents, Used, HasRoom, RunsAre;
      UsedOk(src.runs);
      ok := Fill(target, src, to, from < levelCaching);
    }

    lemma EmptiedTree(d: seq<seq<Run>>, d': seq<seq<Run>>, from: nat, runs: seq<Run>)
      requires from + 1 < |d| && TreeOk(d) && RunsOk(runs) && Contents(runs) == Target(d, from)
      requires |d'| == |d| && d'[from] == [] && d'[from + 1] == runs
      requires forall i :: 0 <= i < |d| && i != from && i != from + 1 ==> d'[i] == d[i]
      ensures TreeOk(d') && d' == d[from := []][from + 1 := runs]
      ensures Tree(d') == Tree(d)[from := []][from + 1 := Target(d, from)]
    {
      hide RunOk, RunsOk, Contents, Target;
      EmptyLevel();
    }

    // What compacting a level does to the tree.
    lemma StepLookup(d: seq<seq<Run>>, from: nat)
      requires from + 1 < |d| && TreeOk(d)
      ensures var tree' := Tree(d)[from := []][from + 1 := Target(d, from)];
        && (Whole(d, from) ==> forall k :: Lookup(tree', k) == Lookup(Tree(d), k))
        && (NoneZero(Tree(d)) ==> Whole(d, from) && NoneZero(tree'))
    {
      hide RunOk, RunsOk, Before, StreamPageOk, Merged, Sorted, Decode, Contents, Used, Lookup, NoneZero;
      var tree := Tree(d);
      ContentsSorted(d[from]);
      ContentsSorted(d[from + 1]);
      StepIsMerge(tree, from);
      EmptyLevel();
      if NoneZero(tree) {
        ReadsAll(d[from], tree, from);
        ReadsAll(d[from + 1], tree, from + 1);
      }
    }

    /** `compaction_cascading`: full levels are emptied downwards from level 0.  The cascade ends well at a
        level that is not full or at the last one, and aborts at a full level for which the next has no
        room.  If no step skips a run, every key means what it meant before; without short keys of zero
        bytes no step does. */
    method Cascade() returns (ok: bool, ghost trail: seq<seq<seq<Run>>>)
      requires Valid() && |disk| > 0
      modifies this`disk
      ensures Valid() && trail != [] && Cascades(trail) && trail[0] == old(Runs(disk))
        && trail[|trail| - 1] == Runs(disk)
      ensures ok <==> |trail| == |disk| || !IsFull(Runs(disk), |trail| - 1)
      ensures !ok ==> NoRoom(Runs(disk), |trail| - 1)
      ensures AllWhole(trail) ==> forall k :: Lookup(Tree(Runs(disk)), k) == Lookup(old(Tree(Runs(disk))), k)
      ensures old(NoneZero(Tree(Runs(disk)))) ==> AllWhole(trail) && NoneZero(Tree(Runs(disk)))
    {
      hide RunOk, RunsOk, Before, StreamPageOk, Cut, Merged, Sorted, Decode, Contents, Used, HasRoom, Lookup, NoneZero;
      hide NoRoom, Target, Emptied, Whole, Tree, TreeOk, Valid, Cascades, AllWhole;
      ValidFacts();
      FirstOfTrail(Runs(disk));
      var start := 0;
      trail := [Runs(disk)];
      ghost var tree := Tree(Runs(disk));
      while |disk[start].runs| >= fullAt[start]
        invariant 0 <= start < |disk| == |fullAt| == |mNums| && Valid() && TreeOk(Runs(disk))
        invariant |trail| == start + 1 && Cascades(trail) && trail[0] == old(Runs(disk)) && trail[start] == Runs(disk)
        invariant AllWhole(trail) ==> forall k :: Lookup(Tree(Runs(disk)), k) == Lookup(tree, k)
        invariant NoneZero(tree) ==> AllWhole(trail) && NoneZero(Tree(Runs(disk)))
        decreases |disk| - start
      {
        if start + 1 == |disk| { break; }
        ghost var trail0 := trail;
        ok := LevelInto(start);
        if !ok { return; }
        ValidFacts();
        trail := trail + [Runs(disk)];
        TrailMore(trail0, Runs(disk));
        start := start + 1;
      }
      ok := true;
    }

    lemma FirstOfTrail(d: seq<seq<Run>>)
      requires TreeOk(d) && 0 < |d| == |fullAt|
      ensures Cascades([d]) && AllWhole([d])
    {
    }

    lemma TrailMore(trail: seq<seq<seq<Run>>>, d: seq<seq<Run>>)
      requires Cascades(trail) && |trail| < |fullAt| == |d| && TreeOk(d)
      requires var n := |trail| - 1; IsFull(trail[n], n) && Emptied(trail[n], d, n)
      ensures Cascades(trail + [d])
      ensures AllWhole(trail + [d]) <==> AllWhole(trail) && Whole(trail[|trail| - 1], |trail| - 1)
    {
      hide Emptied, Whole, TreeOk, IsFull;
      var t := trail + [d];
      assert forall i :: 0 <= i < |trail| ==> t[i] == trail[i];
      if AllWhole(trail) && Whole(trail[|trail| - 1], |trail| - 1) {
        forall i | 0 <= i < |t| - 1 ensures Whole(t[i], i) { if i < |trail| - 1 { assert Whole(trail[i], i); } }
      }
      if AllWhole(t) {
        assert Whole(t[|trail| - 1], |trail| - 1);
        forall i | 0 <= i < |trail| - 1 ensures Whole(trail[i], i) { assert Whole(t[i], i); }
      }
    }

    /** A cut memtable is compacted into level 0 and full levels cascade.  The source aborts exactly when
        level 0 has no room for the memtable, which leaves the tree as it was and `trail` empty, or where
        the cascade does.  If no run is skipped, every key means what the memtable, and behind it the
        tree, said; without short keys of zero bytes none is. */
    method Compact(mem: seq<Entry>) returns (ok: bool, ghost trail: seq<seq<seq<Run>>>)
      requires Valid() && |disk| > 0 && MemOk(mem)
      modifies this`disk
      ensures Valid() && (trail == [] ==> !ok && disk == old(disk))
      ensures trail != [] ==> Cascades(trail) && trail[|trail| - 1] == Runs(disk)
      ensures trail != [] ==> (ok <==> |trail| == |disk| || !IsFull(Runs(disk), |trail| - 1))
      ensures trail != [] && !ok ==> NoRoom(Runs(disk), |trail| - 1)
      ensures var d, d' := old(Runs(disk)), Runs(disk);
        && (trail == [] <==> !HasRoom(mNums[0], d[0], mem, 1))
        && (trail != [] ==> trail[0] == d[0 := trail[0][0]] && RunsAre(trail[0][0], Pieces(d[0], mem)))
        && (trail != [] && Used(d[0]) == d[0] && AllWhole(trail) ==>
              forall k :: Lookup(Tree(d'), k) == Lookup([mem] + Tree(d), k))
        && (trail != [] && NoneZero([mem] + Tree(d)) ==> Used(d[0]) == d[0] && AllWhole(trail) && NoneZero(Tree(d')))
    {
      hide RunOk, RunsOk, Before, StreamPageOk, Cut, Merged, Sorted, Decode, Contents, Used, HasRoom, Lookup, NoneZero;
      hide NoRoom, Target, Emptied, Whole, RunsAre, Pieces, Result, Valid, Cascades, AllWhole;
      ValidFacts();
      trail := [];
      ok := LevelMemtable(mem);
      ValidFacts();
      if !ok { return; }
      ok, trail := Cascade();
    }
  }

  // The new level 0 is filled from the memtable and the old level 0.
  method FillFromMemtable(target: Level, to: Level, mem: seq<Entry>) returns (ok: bool)
    requires target.runs == [] && target != to && target.mNum == to.mNum && RunsOk(to.runs) && MemOk(mem)
    modifies target
    ensures ok <==> HasRoom(to.mNum, to.runs, mem, 1)
    ensures ok ==> RunsOk(target.runs) && Contents(target.runs) == Result(to.runs, mem) && |target.runs| <= target.mNum
    ensures ok ==> RunsAre(target.runs, Pieces(to.runs, mem))
  {
    hide RunOk, RunsOk, Before, StreamPageOk, Cut, Merged, Sorted, Result, MemOk, Decode, Contents, Used;
    var r := MemRun(mem);
    if to.runs == [] {
      ok := target.Insert(r);
      ResultOfEmpty(mem);
      assert ok ==> target.runs == [r];
    } else {
      ghost var d;
      MemIsStream(r, mem);
      ok, d := PartialLeveling(target, to, [r.page], mem);
    }
  }

  // The new target level is filled from the source level and the old target.
  method Fill(target: Level, src: Level, to: Level, cached: bool) returns (ok: bool)
    requires target.runs == [] && target != src && target != to && target.mNum == to.mNum
    requires RunsOk(src.runs) && RunsOk(to.runs) && src.runs != []
    modifies target
    ensures var read := if cached then src.runs else Used(src.runs);
      && RunsOk(read)
      && (ok <==> to.runs == [] || HasRoom(to.mNum, to.runs, Contents(read), |read|))
      && (ok && to.runs != [] ==>
            && |target.runs| <= to.mNum && RunsOk(target.runs)
              && Contents(target.runs) == Result(to.runs, Contents(read))
            && RunsAre(target.runs, Cut([], Result(to.runs, Contents(read)))))
    ensures ok && to.runs == [] ==> target.runs == src.runs
  {
    hide RunOk, RunsOk, Before, StreamPageOk, Cut, Merged, Sorted, Result, Decode, Contents, HasRoom;
    UsedOk(src.runs);
    if to.runs == [] {
      target.runs := src.runs;
      return true;
    }
    var data;
    if cached { data := src.runs; } else { data := RangeFindCompaction(src.runs); }
    ContentsSorted(data);
    UpperIsStream(data);
    ghost var d;
    ok, d := PartialLeveling(target, to, Pages(data), Contents(data));
  }

  // No key of the tree is a string of fewer than 255 zero bytes.
  ghost predicate NoneZero(tree: seq<seq<Entry>>) {
    forall i, e :: 0 <= i < |tree| && e in tree[i] ==> !AllZero(e.key)
  }

  // Of a level without such keys all runs are read.
  lemma ReadsAll(runs: seq<Run>, tree: seq<seq<Entry>>, i: nat)
    requires RunsOk(runs) && i < |tree| && tree[i] == Contents(runs) && NoneZero(tree)
    ensures Used(runs) == runs && Sorted(tree[i])
    ensures forall hi :: Result(runs, hi) == Merged(tree[i], hi)
  {
    hide StreamPageOk, Decode, NumKeys, Before;
    ContentsSorted(runs);
    if runs == [] {
      EmptyLevel();
    } else {
      ContentsOfTail(runs);
      assert RunOk(runs[0]);
      PageShape(runs[0].page);
      var d := Decode(runs[0].page);
      assert d[|d| - 1] in Contents(runs);
      BeforeMin(runs[0].end);
      SkipsNothing(runs);
    }
  }

  // A level merged into the next, seen from the whole tree.
  lemma StepIsMerge(tree: seq<seq<Entry>>, i: nat)
    requires i + 1 < |tree| && Sorted(tree[i]) && Sorted(tree[i + 1])
    ensures var tree' := tree[i := []][i + 1 := Merged(tree[i + 1], tree[i])];
      (NoneZero(tree) ==> NoneZero(tree')) && forall k :: Lookup(tree', k) == Lookup(tree, k)
    ensures tree[i + 1] == [] ==> Merged(tree[i + 1], tree[i]) == tree[i]
  {
    hide Sorted, AllZero;
    var hi, lo := tree[i], tree[i + 1];
    var pre, post := tree[..i], tree[i + 2..];
    var tree' := tree[i := []][i + 1 := Merged(lo, hi)];
    assert tree == pre + [hi, lo] + post;
    assert tree' == pre + [[], Merged(lo, hi)] + post;
    forall k ensures Lookup(tree', k) == Lookup(tree, k) { MergeKeepsLookup(pre, hi, lo, post, k); }
    MergedFrom(lo, hi);
  }

  lemma MemApart(mem: seq<Entry>, tree: seq<seq<Entry>>)
    requires NoneZero([mem] + tree)
    ensures NoneZero(tree) && forall e :: e in mem ==> !AllZero(e.key)
  {
    var all := [mem] + tree;
    assert all[0] == mem;
    forall i, e: Entry | 0 <= i < |tree| && e in tree[i] ensures !AllZero(e.key) { assert all[i + 1] == tree[i]; }
  }

  lemma MemIsMerge(mem: seq<Entry>, tree: seq<seq<Entry>>)
    requires tree != [] && Sorted(mem) && Sorted(tree[0])
    ensures var tree' := tree[0 := Merged(tree[0], mem)];
      (NoneZero([mem] + tree) ==> NoneZero(tree')) && forall k :: Lookup(tree', k) == Lookup([mem] + tree, k)
  {
    hide Sorted, AllZero;
    var all, tree' := [mem] + tree, tree[0 := Merged(tree[0], mem)];
    StepIsMerge(all, 0);
    var all' := all[0 := []][1 := Merged(all[1], all[0])];
    assert all'[1..] == tree';
    forall k ensures Lookup(tree', k) == Lookup(all, k) { assert Lookup(all', k) == Lookup(all'[1..], k); }
    if NoneZero(all) {
      forall i, e: Entry | 0 <= i < |tree'| && e in tree'[i] ensures !AllZero(e.key) { assert all'[i + 1] == tree'[i]; }
    }
  }

  // What compacting a memtable does to the tree.
  lemma MemLookup(runs: seq<Run>, mem: seq<Entry>, tree: seq<seq<Entry>>)
    requires RunsOk(runs) && tree != [] && tree[0] == Contents(runs) && MemOk(mem)
    ensures var tree' := tree[0 := Result(runs, mem)];
      && (Used(runs) == runs ==> forall k :: Lookup(tree', k) == Lookup([mem] + tree, k))
      && (NoneZero([mem] + tree) ==> Used(runs) == runs && NoneZero(tree'))
  {
    hide RunOk, RunsOk, Before, Merged, Sorted, Contents, Used, Lookup, NoneZero;
    ContentsSorted(runs);
    EmptyLevel();
    MergedUnderNothing(mem);
    MemIsMerge(mem, tree);
    if NoneZero([mem] + tree) {
      MemApart(mem, tree);
      ReadsAll(runs, tree, 0);
    }
  }

  lemma EmptyLevel()
    ensures RunsOk([]) && Contents([]) == []
  {
  }

  lemma MergedUnderNothing(hi: seq<Entry>)
    ensures Merged([], hi) == hi
  {
  }

  lemma ResultOfEmpty(hi: seq<Entry>)
    ensures RunsOk([]) && Result([], hi) == hi
  {
  }

  lemma MemIsStream(r: Run, mem: seq<Entry>)
    requires RunsOk([r]) && Contents([r]) == mem && MemOk(mem)
    ensures StreamOk([r.page]) && DecodeAll([r.page]) == mem && Sorted(mem)
  {
    PagesAreStream([r]);
    assert Pages([r]) == [r.page];
  }

  lemma UpperIsStream(runs: seq<Run>)
    requires RunsOk(runs)
    ensures StreamOk(Pages(runs)) && DecodeAll(Pages(runs)) == Contents(runs) && (runs != [] ==> Pages(runs) != [])
  {
    PagesAreStream(runs);
  }

  // ----- what skipping leading runs loses -----

  // The level's entries are those of the runs skipped, then those of the runs read.
  lemma {:induction false} ContentsSplit(runs: seq<Run>, i: nat)
    requires RunsOk(runs) && i <= |runs|
    ensures RunsOk(runs[..i]) && RunsOk(runs[i..]) && Contents(runs) == Contents(runs[..i]) + Contents(runs[i..])
  {
    hide StreamPageOk, Decode, NumKeys, Before, RunOk;
    if i == 0 {
      assert runs[..0] == [] && runs[0..] == runs;
      EmptyLevel();
    } else {
      ContentsOfTail(runs);
      ContentsOfTail(runs[..i]);
      ContentsSplit(runs[1..], i - 1);
      assert runs[1..][..i - 1] == runs[..i][1..] && runs[1..][i - 1..] == runs[i..];
      assert runs[..i][0] == runs[0];
    }
  }

  /** An entry of a skipped run that the upper level does not replace is gone after the compaction. */
  lemma SkippedIsLost(origin: seq<Run>, hi: seq<Entry>, e: Entry)
    requires RunsOk(origin) && origin != [] && Sorted(hi) && e.key !in KeysOf(hi)
    requires RunsOk(origin[..UseFrom(origin)]) && e in Contents(origin[..UseFrom(origin)])
    ensures Find(Contents(origin), e.key) == Some(e.ppa)
    ensures Find(Result(origin, hi), e.key) == None
  {
    var u := UseFrom(origin);
    ContentsSplit(origin, u);
    var a, b := Contents(origin[..u]), Contents(origin[u..]);
    ContentsSorted(origin);
    FindIn(Contents(origin), e.key);
    LaterLacks(a, b, e);
    MergeFinds(b, hi, e.key);
    FindIn(b, e.key);
    FindIn(hi, e.key);
  }

  lemma LaterLacks(a: seq<Entry>, b: seq<Entry>, e: Entry)
    requires Sorted(a + b) && e in a
    ensures Sorted(b) && e.key !in KeysOf(b)
  {
    hide Before;
    SortedParts(a, b);
    var i :| 0 <= i < |a| && a[i] == e;
    Trichotomy(e.key, e.key);
    forall x | x in b ensures x.key != e.key {
      var j :| 0 <= j < |b| && b[j] == x;
      assert Before(a[i].key, b[j].key);
    }
  }

  // In a sorted list split in two, a key is in one part only.
  lemma FindSplit(a: seq<Entry>, b: seq<Entry>, k: Key)
    requires Sorted(a + b)
    ensures Sorted(a) && Sorted(b) && Find(a + b, k) == if Find(a, k).Some? then Find(a, k) else Find(b, k)
    ensures Find(a, k).Some? ==> Find(b, k).None?
  {
    hide Before;
    SortedParts(a, b);
    FindIn(a, k);
    FindIn(b, k);
    FindIn(a + b, k);
    if Find(a, k).Some? {
      var e := Entry(k, Find(a, k).value);
      LaterLacks(a, b, e);
      assert e in a + b;
    } else {
      assert forall p: nat :: Entry(k, p) in a + b <==> Entry(k, p) in b;
      if Find(b, k).Some? { assert Entry(k, Find(b, k).value) in a + b; }
      if Find(a + b, k).Some? { assert Entry(k, Find(a + b, k).value) in b; }
    }
  }

  // The list `new` says about `k` what `upper` says, and behind it `lower`.
  ghost predicate SaysSame(new': seq<Entry>, upper: seq<Entry>, lower: seq<Entry>, k: Key) {
    Find(new', k) == if Find(upper, k).Some? then Find(upper, k) else Find(lower, k)
  }

  ghost predicate SaysTheSame(new': seq<Entry>, upper: seq<Entry>, lower: seq<Entry>) {
    forall k :: SaysSame(new', upper, lower, k)
  }

  ghost predicate AllIn(a: seq<Entry>, b: seq<Entry>) { forall e :: e in a ==> e in b }

  ghost predicate KeysIn(a: seq<Entry>, b: seq<Entry>) { forall e :: e in a ==> e.key in KeysOf(b) }

  /** Leveling the entries `hi` read, behind the entries `a` skipped, of one level into the next: the two
      levels say together what they said before exactly if the level below still has every entry skipped
      above, and every entry skipped below has its key among those read above. */
  lemma LevelingExact(a: seq<Entry>, hi: seq<Entry>, origin: seq<Run>)
    requires RunsOk(origin) && origin != [] && Sorted(a + hi)
    ensures RunsOk(Used(origin)) && RunsOk(origin[..UseFrom(origin)])
    ensures SaysTheSame(Result(origin, hi), a + hi, Contents(origin)) <==>
            AllIn(a, Contents(Used(origin))) && KeysIn(Contents(origin[..UseFrom(origin)]), hi)
  {
    var u := UseFrom(origin);
    hide RunOk, Before, Contents, Sorted, Merged, RunsOk, SaysTheSame, AllIn, KeysIn;
    ContentsSplit(origin, u);
    ContentsSorted(origin);
    EntriesExact(a, hi, Contents(origin[..u]), Contents(origin[u..]));
  }

  lemma EntriesExact(a: seq<Entry>, hi: seq<Entry>, b: seq<Entry>, lo: seq<Entry>)
    requires Sorted(a + hi) && Sorted(b + lo)
    ensures SaysTheSame(Merged(lo, hi), a + hi, b + lo) <==> AllIn(a, lo) && KeysIn(b, hi)
  {
    hide Sorted, Merged, Find, KeysOf, SaysSame;
    if SaysTheSame(Merged(lo, hi), a + hi, b + lo) {
      forall e | e in a ensures e in lo {
        OneKeyExact(a, hi, b, lo, e.key);
        assert SaysSame(Merged(lo, hi), a + hi, b + lo, e.key) && Entry(e.key, e.ppa) == e;
      }
      forall e | e in b ensures e.key in KeysOf(hi) {
        OneKeyExact(a, hi, b, lo, e.key);
        assert SaysSame(Merged(lo, hi), a + hi, b + lo, e.key) && Entry(e.key, e.ppa) == e;
      }
    }
    if AllIn(a, lo) && KeysIn(b, hi) {
      forall k ensures SaysSame(Merged(lo, hi), a + hi, b + lo, k) {
        OneKeyExact(a, hi, b, lo, k);
      }
    }
  }

  lemma OneKeyExact(a: seq<Entry>, hi: seq<Entry>, b: seq<Entry>, lo: seq<Entry>, k: Key)
    requires Sorted(a + hi) && Sorted(b + lo)
    ensures SaysSame(Merged(lo, hi), a + hi, b + lo, k) <==>
        (forall p: nat :: Entry(k, p) in a ==> Entry(k, p) in lo)
          && (forall p: nat :: Entry(k, p) in b ==> k in KeysOf(hi))
  {
    FindSplit(a, hi, k);
    FindSplit(b, lo, k);
    MergeFinds(lo, hi, k);
    FindIn(a, k);
    FindIn(b, k);
    FindIn(hi, k);
    FindIn(lo, k);
    hide Sorted, Find, KeysOf, Merged;
    if Find(a, k).Some? { assert Entry(k, Find(a, k).value) in a; }
    if Find(b, k).Some? { assert Entry(k, Find(b, k).value) in b; }
  }

  // ----- a run that loses keys -----

  function Zero(n: nat): (k: Key)
    ensures |k| == n
  {
    seq(n, _ => 0)
  }

  // The keys of byte `c` and up to `n - 1` zero bytes behind it, the shortest first.
  function Ladder(c: Byte, n: nat): (s: seq<Entry>)
    ensures |s| == n && forall i :: 0 <= i < n ==> s[i] == Entry([c] + Zero(i), i)
  {
    seq(n, i requires 0 <= i => Entry([c] + Zero(i), i))
  }

  lemma {:induction false} LadderBytes(c: Byte, n: nat)
    ensures Bytes(Ladder(c, n)) == 4 * n + n * (n + 1) / 2
  {
    if n > 0 {
      LadderBytes(c, n - 1);
      assert Ladder(c, n)[..n - 1] == Ladder(c, n - 1);
      assert n * (n + 1) == (n - 1) * n + 2 * n;
      hide Ladder;
    }
  }

  lemma LadderSorted(c: Byte, n: nat)
    ensures Sorted(Ladder(c, n))
  {
    forall i, j | 0 <= i < j < n ensures Before(Ladder(c, n)[i].key, Ladder(c, n)[j].key) {
      var a, b := [c] + Zero(i), [c] + Zero(j);
      assert b[..i + 1] == a == a[..i + 1];
      PartUnique(a, b, i + 1);
    }
  }

  lemma ByteOrder(a: Key, b: Key)
    requires a != [] && b != [] && a[0] < b[0]
    ensures Before(a, b)
  {
    PartUnique(a, b, 0);
  }

  lemma LadderOk(c: Byte, n: nat)
    requires c < 128 && n <= 74
    ensures AllOk(Ladder(c, n))
  {
  }

  lemma Triangle(n: nat)
    requires n <= 74
    ensures n * (n + 1) <= 5550
  {
  }

  lemma LadderFits(c: Byte, n: nat)
    requires c < 128 && 2 <= n <= 74
    ensures Off(Ladder(c, n), n) == KEYBITMAP + 4 * n + n * (n + 1) / 2
    ensures MemOk(Ladder(c, n))
  {
    hide Off, Bytes, Before, Sorted, AllOk, Ladder;
    LadderBytes(c, n);
    LadderSorted(c, n);
    LadderOk(c, n);
    OffIsBytes(Ladder(c, n), n);
    assert Ladder(c, n)[..n] == Ladder(c, n);
    Triangle(n);
  }

  /** 74 keys of a ladder are a piece the cut of a memtable hands over, too long for any key more; they fill
      a page, and exactly those of zero bytes come before `KeyMin`. */
  lemma LadderFillsPage(c: Byte)
    requires c < 128
    ensures CutOff(Ladder(c, 74)) && Bytes(Ladder(c, 74)) == 3071 && Off(Ladder(c, 74), 74) == PAGESIZE - 1
    ensures Before([c] + Zero(73), KeyMin()) <==> c == 0
  {
    LadderFits(c, 74);
    LadderBytes(c, 74);
    BeforeMin([c] + Zero(73));
    assert ([c] + Zero(73))[0] == c;
  }

  // What fits on the open page goes there.
  lemma {:induction false} CutFits(cur: seq<Entry>, s: seq<Entry>, rest: seq<Entry>)
    requires |cur| + |s| < KIDX_LIMIT && KEYBITMAP + Payload(cur) + Payload(s) <= PAGESIZE
    ensures Cut(cur, s + rest) == Cut(cur + s, rest)
    decreases |s|
  {
    if s == [] {
      assert cur + s == cur && s + rest == rest;
    } else {
      var e := s[0];
      assert s == [e] + s[1..] && (s + rest)[1..] == s[1..] + rest;
      PayloadConcat([e], s[1..]);
      PayloadConcat(cur, [e]);
      OffAppend([], e);
      assert [] + [e] == [e];
      CutFits(cur + [e], s[1..], rest);
      assert cur + [e] + s[1..] == cur + s;
    }
  }

  // A list in front of another is merged with it by putting the two together.
  lemma {:induction false} MergedApart(lo: seq<Entry>, hi: seq<Entry>)
    requires forall i, j :: 0 <= i < |lo| && 0 <= j < |hi| ==> Before(lo[i].key, hi[j].key)
    ensures Merged(lo, hi) == lo + hi
    decreases |lo|
  {
    hide Before, Cmp;
    if lo != [] && hi != [] {
      assert Before(lo[0].key, hi[0].key);
      CmpMeans(lo[0].key, hi[0].key);
      MergedApart(lo[1..], hi);
      assert lo + hi == [lo[0]] + (lo[1..] + hi);
    }
  }

  // Two ladders merged are a page each.
  lemma LaddersCut(c: Byte, d: Byte)
    requires c < d < 128
    ensures Cut([], Merged(Ladder(c, 74), Ladder(d, 74))) == [Ladder(c, 74), Ladder(d, 74)]
  {
    hide Off, Before, Merged, Bytes, MemOk, Cut;
    var s, t := Ladder(c, 74), Ladder(d, 74);
    LadderFillsPage(c);
    LadderFillsPage(d);
    forall i, j | 0 <= i < |s| && 0 <= j < |t| ensures Before(s[i].key, t[j].key) { ByteOrder(s[i].key, t[j].key); }
    MergedApart(s, t);
    CutPages(s, t);
  }

  lemma CutPages(s: seq<Entry>, t: seq<Entry>)
    requires |s| == |t| == 74 && Off(s, 74) == Off(t, 74) == PAGESIZE - 1
    ensures Cut([], s + t) == [s, t]
  {
    hide Off;
    OffOfNothing();
    CutFits([], s, t);
    assert [] + s == s;
    var u, v := [t[0]], t[1..];
    assert t == u + v && Full(s, t[0]);
    PayloadConcat(u, v);
    CutFits(u, v, []);
    assert v + [] == v;
    CutNothing(t);
    assert Cut(s, t) == [s] + Cut(u, v);
  }

  lemma RunsOfPieces(runs: seq<Run>, pieces: seq<seq<Entry>>)
    requires RunsOk(runs) && RunsAre(runs, pieces)
    ensures Contents(runs) == Flat(pieces)
    ensures forall i :: 0 <= i < |runs| ==> pieces[i] != [] && runs[i].end == pieces[i][|pieces[i]| - 1].key
  {
    hide StreamPageOk, Decode, NumKeys, Before;
    PagesAreStream(runs);
    forall i | 0 <= i < |runs|
      ensures |Pages(runs)[i]| == PAGESIZE && NumKeys(Pages(runs)[i]) <= MAX_KEYS && Decode(Pages(runs)[i]) == pieces[i]
      ensures pieces[i] != [] && runs[i].end == pieces[i][|pieces[i]| - 1].key
    {
      assert RunHolds(runs[i], pieces[i]) && RunOk(runs[i]);
      PageShape(runs[i].page);
    }
    PagesOfPieces(Pages(runs), pieces);
  }

  lemma FlatOne(piece: seq<Entry>)
    ensures Flat([piece]) == piece
  {
  }

  lemma FlatTwo(s: seq<Entry>, t: seq<Entry>)
    ensures Flat([s, t]) == s + t
  {
    assert [s, t][1..] == [t];
    FlatOne(t);
  }

  lemma PiecesFrom(runs: seq<Run>, lo: seq<Entry>, mem: seq<Entry>)
    requires RunsOk(runs) && runs != [] && RunsOk(Used(runs)) && Contents(Used(runs)) == lo
    ensures Pieces(runs, mem) == Cut([], Merged(lo, mem))
  {
  }

  // Level 0 after the first ladder, and after the second.
  lemma AfterFirst(runs: seq<Run>)
    requires RunsOk(runs) && RunsAre(runs, [Ladder(0, 74)])
    ensures Used(runs) == runs && Pieces(runs, Ladder(1, 74)) == [Ladder(0, 74), Ladder(1, 74)]
  {
    hide RunOk, RunsOk, Before, Contents, Cut, Merged, MemOk, Off, UseFrom, Flat, Used, RunHolds, KeyMin, Pieces, Bytes;
    RunsOfPieces(runs, [Ladder(0, 74)]);
    FlatOne(Ladder(0, 74));
    LadderFillsPage(0);
    SkipsNothing(runs);
    LaddersCut(0, 1);
    PiecesFrom(runs, Ladder(0, 74), Ladder(1, 74));
  }

  lemma AfterSecond(runs: seq<Run>)
    requires RunsOk(runs) && RunsAre(runs, [Ladder(0, 74), Ladder(1, 74)])
    ensures Used(runs) == runs[1..] && Pieces(runs, Ladder(2, 74)) == [Ladder(1, 74), Ladder(2, 74)]
    ensures Find(Contents(runs), [0]) == Some(0)
  {
    hide RunOk, RunsOk, Before, Contents, Cut, Merged, MemOk, Off, Decode, StreamPageOk, Bytes;
    RunsOfPieces(runs, [Ladder(0, 74), Ladder(1, 74)]);
    LadderFillsPage(0);
    LadderFillsPage(1);
    assert EndsLow(runs[0]);
    assert !EndsLow(runs[1]);
    assert UseFrom(runs) == 1 by { assert FirstEnding(runs, 0) == FirstEnding(runs, 1) == 1; }
    UsedOk(runs);
    assert RunsAre(runs[1..], [Ladder(1, 74)]) by { assert RunHolds(runs[1], Ladder(1, 74)); }
    RunsOfPieces(runs[1..], [Ladder(1, 74)]);
    FlatOne(Ladder(1, 74));
    LaddersCut(1, 2);
    PiecesFrom(runs, Ladder(1, 74), Ladder(2, 74));
    assert Ladder(0, 74)[0] == Entry([0], 0) by { assert [0] + Zero(0) == [0]; }
    FlatTwo(Ladder(0, 74), Ladder(1, 74));
    assert Contents(runs)[0] == Entry([0], 0);
  }

  // A compaction of level 0 that does not fill it.
  method CompactInto0(t: Lsm, mem: seq<Entry>, ghost pieces: seq<seq<Entry>>)
    requires t.Valid() && |t.disk| > 0 && CutOff(mem) && Pieces(Runs(t.disk)[0], mem) == pieces
    requires 1 <= |pieces| <= 2 <= t.mNums[0] && |pieces| < t.fullAt[0]
    modifies t`disk
    ensures t.Valid() && |t.disk| == |old(t.disk)|
    ensures Runs(t.disk) == old(Runs(t.disk))[0 := Runs(t.disk)[0]] && RunsAre(Runs(t.disk)[0], pieces)
  {
    hide RunOk, RunsOk, Before, Contents, Cut, Merged, Used, MemOk, Lookup;
    var ok, trail := t.Compact(mem);
    assert !t.IsFull(trail[0], 0);
  }

  /** A run that loses keys, of three pieces as the cut of a memtable hands them over, one after the other in
      key order.  The keys of 1 to 74 zero bytes are compacted and fill a page; after those that begin with
      byte 1 have been compacted too, every key is there; compacting those that begin with byte 2 skips the
      run of the zero keys, and the key of one zero byte is gone. */
  method ZeroKeysAreLost(t: Lsm) returns (ghost before: seq<seq<Run>>)
    requires t.Valid() && |t.disk| > 0 && Runs(t.disk) == seq(|t.disk|, _ => [])
    requires t.mNums[0] >= 2 && t.fullAt[0] > 2
    modifies t`disk
    ensures TreeOk(before) && Lookup(Tree(before), [0]) == Some(0)
    ensures t.Valid() && Lookup(Tree(Runs(t.disk)), [0]) == None
  {
    hide RunOk, RunsOk, Before, Contents, Cut, Merged, Used, CutOff, RunsAre, Pieces, Bytes, Off;
    ghost var n := |t.disk|;
    LadderFillsPage(0);
    LadderFillsPage(1);
    LadderFillsPage(2);
    PiecesOfEmpty(Ladder(0, 74));
    CompactInto0(t, Ladder(0, 74), [Ladder(0, 74)]);
    t.ValidFacts();
    AfterFirst(Runs(t.disk)[0]);
    CompactInto0(t, Ladder(1, 74), [Ladder(0, 74), Ladder(1, 74)]);
    t.ValidFacts();
    before := Runs(t.disk);
    AfterSecond(before[0]);
    assert Tree(before)[0] == Contents(before[0]);
    CompactInto0(t, Ladder(2, 74), [Ladder(1, 74), Ladder(2, 74)]);
    t.ValidFacts();
    RunsOfPieces(Runs(t.disk)[0], [Ladder(1, 74), Ladder(2, 74)]);
    FlatTwo(Ladder(1, 74), Ladder(2, 74));
    ZeroIsNowhere(Runs(t.disk));
  }

  lemma PiecesOfEmpty(mem: seq<Entry>)
    ensures RunsOk([]) && Pieces([], mem) == [mem]
  {
  }

  lemma ZeroIsNowhere(d: seq<seq<Run>>)
    requires TreeOk(d) && d != [] && Contents(d[0]) == Ladder(1, 74) + Ladder(2, 74)
    requires forall i :: 1 <= i < |d| ==> d[i] == []
    ensures Lookup(Tree(d), [0]) == None
  {
    hide RunsOk, Contents;
    var t := Tree(d);
    var s := Ladder(1, 74) + Ladder(2, 74);
    forall i | 0 <= i < |s| ensures s[i].key != [0] { assert s[i].key[0] != 0; }
    EmptyLevel();
    NotFound(s, [0]);
    LookupNothing(t[1..], [0]);
  }

  lemma {:induction false} NotFound(s: seq<Entry>, k: Key)
    requires forall i :: 0 <= i < |s| ==> s[i].key != k
    ensures Find(s, k) == None
  {
    if s != [] { NotFound(s[1..], k); }
  }

  lemma {:induction false} LookupNothing(tree: seq<seq<Entry>>, k: Key)
    requires forall i :: 0 <= i < |tree| ==> tree[i] == []
    ensures Lookup(tree, k) == None
  {
    if tree != [] { LookupNothing(tree[1..], k); }
  }
}
