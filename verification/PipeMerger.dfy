/**
 Merging two streams of metadata pages.  A reader walks the entries of a stream, a writer cuts what it
 is given into pages; of two entries with one key the upper stream's survives and the lower one's
 data page is invalidated.
 */
module PipeMerger {
  import opened Common
  import opened Keys
  import opened PageCodec

  type Page = seq<Byte>

  // `LSM.result_padding`: output pages allowed beyond the input pages.
  const RESULT_PADDING: nat := 500

  // ----- streams -----

  ghost predicate StreamPageOk(p: Page) {
    PageOk(p) && NumKeys(p) >= 1
  }

  ghost predicate StreamOk(pages: seq<Page>) {
    forall i :: 0 <= i < |pages| ==> StreamPageOk(pages[i])
  }

  /** The entries of a stream of pages, in order. */
  ghost function DecodeAll(pages: seq<Page>): seq<Entry>
    requires StreamOk(pages)
  {
    if pages == [] then [] else Decode(pages[0]) + DecodeAll(pages[1..])
  }

  lemma PageShape(page: Page)
    requires StreamPageOk(page)
    ensures |page| == PAGESIZE && 1 <= NumKeys(page) <= MAX_KEYS && |Decode(page)| == NumKeys(page)
  {
  }

  lemma {:induction false} DecodeAllOk(pages: seq<Page>)
    requires StreamOk(pages)
    ensures AllOk(DecodeAll(pages))
  {
    if pages != [] { DecodeAllOk(pages[1..]); }
  }

  lemma EntryOfPage(page: Page, k: nat)
    requires StreamPageOk(page) && 1 <= k <= NumKeys(page)
    ensures |Decode(page)| == NumKeys(page) && Decode(page)[k - 1] == Entry(KeyAt(page, k), PpaAt(page, k))
  {
  }

  lemma RestSplit(d: seq<Entry>, k: nat, tail: seq<Entry>)
    requires 1 <= k <= |d|
    ensures d[k - 1..] + tail == [d[k - 1]] + (d[k..] + tail)
  {
  }

  /** `p_body` as a cursor over input pages. */
  class Reader {
    const pages: seq<Page>
    var started: bool
    var pidx: nat
    var kidx: nat
    var maxKey: nat

    ghost predicate Valid()
      reads this
    {
      && StreamOk(pages) && pages != []
      && (started ==> 1 <= pidx <= |pages| && maxKey == NumKeys(pages[pidx - 1]) && 1 <= kidx <= maxKey + 1)
      && (!started ==> pidx == 0)
    }

    /** The entries not read yet. */
    ghost function Rest(): seq<Entry>
      requires Valid()
      reads this
    {
      (if started then Decode(pages[pidx - 1])[kidx - 1..] else []) + DecodeAll(pages[pidx..])
    }

    constructor (pages: seq<Page>)
      requires StreamOk(pages) && pages != []
      ensures Valid() && Rest() == DecodeAll(pages) && this.pages == pages
    {
      this.pages := pages;
      started, pidx, kidx, maxKey := false, 0, 0, 0;
      new;
      assert pages[0..] == pages;
    }

    lemma NothingLeft()
      requires Valid() && started && pidx >= |pages| && kidx > maxKey
      ensures Rest() == []
    {
      PageShape(pages[pidx - 1]);
    }

    // `new_page_set`, reading.
    method NextPage()
      requires Valid() && pidx < |pages| && (started ==> kidx > maxKey)
      modifies this
      ensures Valid() && started && Rest() == old(Rest()) && kidx <= maxKey && pidx == old(pidx) + 1
    {
      assert pages[pidx..] == [pages[pidx]] + pages[pidx + 1..];
      started, kidx, maxKey := true, 1, NumKeys(pages[pidx]);
      pidx := pidx + 1;
      assert Decode(pages[pidx - 1])[0..] == Decode(pages[pidx - 1]);
    }

    /** `pbody_get_next_key`: the next entry, or none at the end, where the source returns a key of
        length 255, which no stored key has. */
    method GetNextKey() returns (r: Option<Entry>)
      requires Valid()
      modifies this
      ensures Valid()
      ensures old(Rest()) == [] ==> r == None && Rest() == []
      ensures old(Rest()) != [] ==> r == Some(old(Rest())[0]) && Rest() == old(Rest())[1..]
    {
      hide PageOk, NumKeys, Decode, KeyAt, PpaAt, DecodeAll, StreamPageOk;
      if !started || (pidx < |pages| && kidx > maxKey) {
        NextPage();
      }
      PageShape(pages[pidx - 1]);
      if pidx >= |pages| && kidx > maxKey {
        NothingLeft();
        return None;
      }
      var page := pages[pidx - 1];
      EntryOfPage(page, kidx);
      RestSplit(Decode(page), kidx, DecodeAll(pages[pidx..]));
      r := Some(Entry(KeyAt(page, kidx), PpaAt(page, kidx)));
      kidx := kidx + 1;
    }
  }

  // ----- cutting into pages -----

  // `cur` is full: the next entry starts another page.
  predicate Full(cur: seq<Entry>, e: Entry) {
    |cur| + 1 >= KIDX_LIMIT || Off(cur, |cur|) + Size(e) > PAGESIZE
  }

  /** How `rest` is cut into pages when `cur` is already on the open one. */
  function Cut(cur: seq<Entry>, rest: seq<Entry>): seq<seq<Entry>>
    decreases |rest|
  {
    if rest == [] then (if cur == [] then [] else [cur])
    else if cur != [] && Full(cur, rest[0]) then [cur] + Cut([rest[0]], rest[1..])
    else Cut(cur + [rest[0]], rest[1..])
  }

  // A piece fits a page.
  predicate PieceOk(p: seq<Entry>) {
    1 <= |p| < KIDX_LIMIT && Off(p, |p|) <= PAGESIZE
  }

  lemma {:induction false} CutKeeps(cur: seq<Entry>, rest: seq<Entry>)
    requires AllOk(rest) && (cur == [] || PieceOk(cur))
    ensures Flat(Cut(cur, rest)) == cur + rest
    ensures forall p :: p in Cut(cur, rest) ==> PieceOk(p)
    decreases |rest|
  {
    if rest == [] {
      if cur != [] { assert Flat([cur]) == cur + Flat([]); }
    } else {
      assert EntryOk(rest[0]) && rest == [rest[0]] + rest[1..];
      OffAppend(cur, rest[0]);
      OffAppend([], rest[0]);
      assert [] + [rest[0]] == [rest[0]];
      if cur != [] && Full(cur, rest[0]) {
        CutKeeps([rest[0]], rest[1..]);
        var c := Cut([rest[0]], rest[1..]);
        assert ([cur] + c)[1..] == c;
      } else {
        CutKeeps(cur + [rest[0]], rest[1..]);
        assert cur + [rest[0]] + rest[1..] == cur + rest;
      }
    }
  }

  // Bytes a page holds at least when it is closed for the next entry.
  const MIN_CLOSED: nat := 2545

  lemma {:induction false} MinBytes(cur: seq<Entry>, i: nat)
    requires AllOk(cur) && i <= |cur|
    ensures Off(cur, i) >= KEYBITMAP + 5 * i
  {
    if i > 0 { MinBytes(cur, i - 1); }
  }

  lemma FullIsLong(cur: seq<Entry>, e: Entry)
    requires AllOk(cur) && EntryOk(e) && Full(cur, e)
    ensures Off(cur, |cur|) - KEYBITMAP >= MIN_CLOSED
  {
    MinBytes(cur, |cur|);
  }

  // Bytes from `KEYBITMAP` on.
  function Payload(s: seq<Entry>): nat { Off(s, |s|) - KEYBITMAP }

  lemma {:induction false} PayloadConcat(s: seq<Entry>, t: seq<Entry>)
    ensures Payload(s + t) == Payload(s) + Payload(t)
    decreases |t|
  {
    if t == [] {
      assert s + t == s;
    } else {
      var u, e := t[..|t| - 1], t[|t| - 1];
      PayloadConcat(s, u);
      assert s + t == (s + u) + [e] && t == u + [e];
      OffAppend(s + u, e);
      OffAppend(u, e);
    }
  }

  /** Every page but the last holds at least 2545 bytes of entries. */
  lemma {:induction false} CutBound(cur: seq<Entry>, rest: seq<Entry>)
    requires AllOk(cur) && AllOk(rest)
    ensures (|Cut(cur, rest)| - 1) * MIN_CLOSED <= Payload(cur + rest)
    decreases |rest|
  {
    if rest == [] {
    } else if cur != [] && Full(cur, rest[0]) {
      CutBound([rest[0]], rest[1..]);
      FullIsLong(cur, rest[0]);
      assert [rest[0]] + rest[1..] == rest;
      PayloadConcat(cur, rest);
    } else {
      assert cur + [rest[0]] + rest[1..] == cur + rest;
      CutBound(cur + [rest[0]], rest[1..]);
    }
  }

  /** And a page is closed only for an entry it has no room for: with it the table would be full, or the bytes of
      the page would not do. */
  lemma {:induction false} CutGreedy(cur: seq<Entry>, rest: seq<Entry>, i: nat)
    requires AllOk(rest) && (cur == [] || PieceOk(cur)) && i + 1 < |Cut(cur, rest)|
    ensures var p, q := Cut(cur, rest)[i], Cut(cur, rest)[i + 1];
      q != [] && (|p| >= 509 || Off(p, |p|) + 4 + |q[0].key| > 4096)
    decreases |rest|
  {
    assert rest == [rest[0]] + rest[1..];
    assert EntryOk(rest[0]);
    OffAppend(cur, rest[0]);
    OffAppend([], rest[0]);
    assert [] + [rest[0]] == [rest[0]];
    if cur != [] && Full(cur, rest[0]) {
      if i > 0 { CutGreedy([rest[0]], rest[1..], i - 1); } else { CutStarts([rest[0]], rest[1..]); }
    } else {
      CutGreedy(cur + [rest[0]], rest[1..], i);
    }
  }

  // The first page begins as the open one does.
  lemma {:induction false} CutStarts(cur: seq<Entry>, rest: seq<Entry>)
    requires cur != []
    ensures Cut(cur, rest) != [] && Cut(cur, rest)[0] != [] && Cut(cur, rest)[0][0] == cur[0]
    decreases |rest|
  {
    if rest != [] && !Full(cur, rest[0]) { CutStarts(cur + [rest[0]], rest[1..]); }
  }

  lemma OffOfNothing()
    ensures Off([], 0) == KEYBITMAP
  {
  }

  /** `p_body` as a writer. */
  class Writer {
    const maxPage: nat
    var buf: array?<Byte>
    var kidx: nat
    var length: nat
    var pidx: nat
    // Closed pages.
    var data: seq<Page>
    ghost var cur: seq<Entry>

    ghost predicate Valid()
      reads this, buf
    {
      && StreamOk(data) && AllOk(cur)
      && (buf == null ==> kidx == 0 && pidx == 0 && data == [] && cur == [])
      && (buf != null ==>
            && buf.Length == PAGESIZE && Encodes(buf[..], cur) && PieceOk(cur)
            && kidx == |cur| + 1 && length == Off(cur, |cur|) && pidx == |data| + 1 <= maxPage)
    }

    // The closed pages' entries, page by page.
    ghost function Pieces(): seq<seq<Entry>>
      requires StreamOk(data)
      reads this
    {
      seq(|data|, i requires 0 <= i < |data| reads this requires StreamOk(data) => Decode(data[i]))
    }

    constructor (maxPage: nat)
      ensures Valid() && cur == [] && data == [] && buf == null && this.maxPage == maxPage
    {
      this.maxPage := maxPage;
      buf, kidx, length, pidx, data, cur := null, 0, 0, 0, [], [];
    }

    // The open page is finished and joins the closed ones.
    method ClosePage()
      requires Valid() && buf != null
      modifies this`data, buf
      ensures data == old(data) + [buf[..]] && StreamOk(data) && StreamPageOk(buf[..]) && Decode(buf[..]) == cur
    {
      PutEnds(buf, kidx, length, cur);
      ClosedIsOk(buf[..], cur);
      data := data + [buf[..]];
    }

    // The open page, if any, is closed and another one begun, unless the page list is full.
    method StartPage() returns (ok: bool)
      requires Valid()
      modifies this, buf
      ensures ok <==> old(pidx) < maxPage
      ensures buf == old(buf) || fresh(buf)
      ensures StreamOk(data) && Pieces() == old(Pieces()) + if old(buf) == null then [] else [old(cur)]
      ensures ok ==> buf != null && fresh(buf) && buf.Length == PAGESIZE && Encodes(buf[..], []) && cur == []
      ensures ok ==> kidx == 1 && length == KEYBITMAP && pidx == old(pidx) + 1 == |data| + 1
    {
      hide PageOk, Decode, Encodes, Cut, Off, NumKeys;
      ghost var pieces0, cur0 := Pieces(), cur;
      if buf != null {
        ClosePage();
        assert Pieces() == pieces0 + [cur0];
      }
      if pidx >= maxPage { return false; }
      buf := new Byte[PAGESIZE](_ => 0);
      kidx, length, pidx := 1, KEYBITMAP, pidx + 1;
      cur := [];
      FreshPage(buf[..]);
      ok := true;
    }

    /** `pbody_insert_new_key` with `flush` off: `e` is written, on a new page if the open one is full.
        `ok` is false when the page list has no room for another page. */
    method InsertNewKey(e: Entry) returns (ok: bool)
      requires Valid() && EntryOk(e)
      modifies this, buf
      ensures buf == old(buf) || fresh(buf)
      ensures ok ==> Valid() && buf != null
      ensures ok ==> forall rest :: Pieces() + Cut(cur, rest) == old(Pieces() + Cut(cur, [e] + rest))
      ensures ok <==> old(buf != null && !Full(cur, e)) || old(pidx) < maxPage
    {
      hide PageOk, Decode, Encodes, Cut, Off, NumKeys;
      ghost var pieces0, cur0 := Pieces(), cur;
      CutStep(cur, e);
      OffOfNothing();
      ok := true;
      if buf == null || kidx >= KIDX_LIMIT || length + Size(e) > PAGESIZE {
        ok := StartPage();
        if !ok { return; }
      }
      PutEntry(buf, kidx, length, e, cur);
      assert [] + [e] == [e];
      cur := cur + [e];
      kidx, length := kidx + 1, length + Size(e);
      forall rest ensures Pieces() + Cut(cur, rest) == pieces0 + Cut(cur0, [e] + rest) {
        assert (pieces0 + [cur0]) + Cut(cur, rest) == pieces0 + ([cur0] + Cut(cur, rest));
      }
    }

    /** `pbody_insert_new_key` with `flush` on: the open page, if any, is closed. */
    method Flush()
      requires Valid()
      modifies this`data, buf
      ensures StreamOk(data) && Pieces() == old(Pieces() + Cut(cur, []))
    {
      if kidx > 1 { ClosePage(); }
    }
  }

  lemma CutStep(cur: seq<Entry>, e: Entry)
    ensures forall rest ::
      Cut(cur, [e] + rest) == (if cur != [] && Full(cur, e) then [cur] + Cut([e], rest) else Cut(cur + [e], rest))
  {
    forall rest
      ensures Cut(cur, [e] + rest) == if cur != [] && Full(cur, e) then [cur] + Cut([e], rest) else Cut(cur + [e], rest)
    {
      assert ([e] + rest)[0] == e && ([e] + rest)[1..] == rest;
    }
  }

  // ----- the merge -----

  /** What the merge writes: both lists by key, the upper entry standing for both of a shared key. */
  function Merged(lo: seq<Entry>, hi: seq<Entry>): seq<Entry>
    decreases |lo| + |hi|
  {
    if lo == [] then hi
    else if hi == [] then lo
    else
      var c := Cmp(lo[0].key, hi[0].key);
      if c < 0 then [lo[0]] + Merged(lo[1..], hi)
      else if c > 0 then [hi[0]] + Merged(lo, hi[1..])
      else [hi[0]] + Merged(lo[1..], hi[1..])
  }

  /** The data pages it invalidates. */
  function Dropped(lo: seq<Entry>, hi: seq<Entry>): seq<nat>
    decreases |lo| + |hi|
  {
    if lo == [] || hi == [] then []
    else
      var c := Cmp(lo[0].key, hi[0].key);
      if c < 0 then Dropped(lo[1..], hi)
      else if c > 0 then Dropped(lo, hi[1..])
      else [lo[0].ppa] + Dropped(lo[1..], hi[1..])
  }

  ghost predicate Sorted(s: seq<Entry>) {
    forall i, j :: 0 <= i < j < |s| ==> Before(s[i].key, s[j].key)
  }

  ghost function KeysOf(s: seq<Entry>): set<Key> { set e | e in s :: e.key }

  // All keys of `s` come behind `k`.
  ghost predicate Behind(k: Key, s: seq<Entry>) {
    forall e :: e in s ==> Before(k, e.key)
  }

  // A sorted list is a head in front of a sorted tail.
  lemma SortedTail(s: seq<Entry>)
    requires Sorted(s) && s != []
    ensures Sorted(s[1..]) && Behind(s[0].key, s[1..])
    ensures forall e :: e in s <==> e == s[0] || e in s[1..]
  {
  }

  lemma SortedCons(e: Entry, s: seq<Entry>)
    requires Sorted(s) && Behind(e.key, s)
    ensures Sorted([e] + s)
  {
  }

  lemma BehindBoth(k: Key, lo: seq<Entry>, hi: seq<Entry>)
    requires Behind(k, lo) && Behind(k, hi)
    ensures Behind(k, Merged(lo, hi))
  {
    MergedFrom(lo, hi);
  }

  // Nothing else gets into the merge.
  lemma {:induction false} MergedFrom(lo: seq<Entry>, hi: seq<Entry>)
    ensures forall e :: e in Merged(lo, hi) ==> e in lo || e in hi
    decreases |lo| + |hi|
  {
    if lo != [] && hi != [] {
      var c := Cmp(lo[0].key, hi[0].key);
      if c < 0 {
        MergedFrom(lo[1..], hi);
      } else if c > 0 {
        MergedFrom(lo, hi[1..]);
      } else {
        MergedFrom(lo[1..], hi[1..]);
      }
    }
  }

  // Keys in front of the other list's head are in front of all of it.
  lemma BehindHead(k: Key, s: seq<Entry>)
    requires Sorted(s) && s != [] && Before(k, s[0].key)
    ensures Behind(k, s)
  {
    forall e | e in s ensures Before(k, e.key) {
      SortedTail(s);
      if e != s[0] { BeforeTransitive(k, s[0].key, e.key); }
    }
  }

  lemma NotIn(k: Key, s: seq<Entry>)
    requires Behind(k, s)
    ensures k !in KeysOf(s)
  {
    Trichotomy(k, k);
  }

  // `e` survives a merge of `lo` under `hi`.
  ghost predicate Survives(lo: seq<Entry>, hi: seq<Entry>, e: Entry) {
    e in hi || (e in lo && e.key !in KeysOf(hi))
  }

  /** The merge of two strictly increasing lists is one, and holds exactly the upper entries and those
      lower entries whose key the upper list does not have. */
  lemma {:induction false} MergeMeaning(lo: seq<Entry>, hi: seq<Entry>)
    requires Sorted(lo) && Sorted(hi)
    ensures Sorted(Merged(lo, hi))
    ensures forall e :: e in Merged(lo, hi) <==> Survives(lo, hi, e)
    decreases |lo| + |hi|
  {
    if lo != [] && hi != [] {
      var a, b := lo[0], hi[0];
      SortedTail(lo);
      SortedTail(hi);
      CmpMeans(a.key, b.key);
      var c := Cmp(a.key, b.key);
      if c < 0 {
        MergeMeaning(lo[1..], hi);
        BehindHead(a.key, hi);
        NotIn(a.key, hi);
        BehindBoth(a.key, lo[1..], hi);
        SortedCons(a, Merged(lo[1..], hi));
      } else if c > 0 {
        MergeMeaning(lo, hi[1..]);
        BehindHead(b.key, lo);
        BehindBoth(b.key, lo, hi[1..]);
        SortedCons(b, Merged(lo, hi[1..]));
        HeadShadowsNone(lo, hi);
      } else {
        MergeMeaning(lo[1..], hi[1..]);
        BehindBoth(b.key, lo[1..], hi[1..]);
        SortedCons(b, Merged(lo[1..], hi[1..]));
        HeadShadowsOne(lo, hi);
      }
    }
  }

  // The upper head comes before all lower keys: what it shadows is nothing.
  lemma HeadShadowsNone(lo: seq<Entry>, hi: seq<Entry>)
    requires hi != [] && Behind(hi[0].key, lo)
    ensures forall e :: Survives(lo, hi, e) <==> e == hi[0] || Survives(lo, hi[1..], e)
  {
    NotIn(hi[0].key, lo);
    KeysOfCons(hi);
  }

  lemma HeadShadowsOne(lo: seq<Entry>, hi: seq<Entry>)
    requires lo != [] && hi != [] && lo[0].key == hi[0].key && Behind(lo[0].key, lo[1..])
    ensures forall e :: Survives(lo, hi, e) <==> e == hi[0] || Survives(lo[1..], hi[1..], e)
  {
    NotIn(lo[0].key, lo[1..]);
    KeysOfCons(hi);
    assert forall e :: e in lo <==> e == lo[0] || e in lo[1..];
  }

  lemma KeysOfCons(s: seq<Entry>)
    requires s != []
    ensures KeysOf(s) == {s[0].key} + KeysOf(s[1..])
    ensures forall e :: e in s <==> e == s[0] || e in s[1..]
  {
    assert forall e :: e in s <==> e == s[0] || e in s[1..];
  }

  // The data pages of entries with a key in `keys`.
  ghost function Shared(lo: seq<Entry>, keys: set<Key>): seq<nat> {
    if lo == [] then []
    else (if lo[0].key in keys then [lo[0].ppa] else []) + Shared(lo[1..], keys)
  }

  lemma {:induction false} SharedIgnores(lo: seq<Entry>, keys: set<Key>, k: Key)
    requires k !in KeysOf(lo)
    ensures Shared(lo, keys + {k}) == Shared(lo, keys)
  {
    if lo != [] {
      KeysOfCons(lo);
      SharedIgnores(lo[1..], keys, k);
    }
  }

  lemma {:induction false} SharedNothing(lo: seq<Entry>)
    ensures Shared(lo, {}) == []
  {
    if lo != [] { SharedNothing(lo[1..]); }
  }

  /** Invalidated are the lower entries of the shared keys, each once, and nothing else. */
  lemma {:induction false} DroppedExactly(lo: seq<Entry>, hi: seq<Entry>)
    requires Sorted(lo) && Sorted(hi)
    ensures Dropped(lo, hi) == Shared(lo, KeysOf(hi))
    decreases |lo| + |hi|
  {
    if hi == [] {
      assert KeysOf(hi) == {};
      SharedNothing(lo);
    } else if lo != [] {
      var a, b := lo[0], hi[0];
      SortedTail(lo);
      SortedTail(hi);
      KeysOfCons(hi);
      CmpMeans(a.key, b.key);
      var c := Cmp(a.key, b.key);
      if c < 0 {
        BehindHead(a.key, hi);
        NotIn(a.key, hi);
        DroppedExactly(lo[1..], hi);
      } else if c > 0 {
        BehindHead(b.key, lo);
        NotIn(b.key, lo);
        SharedIgnores(lo, KeysOf(hi[1..]), b.key);
        assert KeysOf(hi) == KeysOf(hi[1..]) + {b.key};
        DroppedExactly(lo, hi[1..]);
      } else {
        NotIn(a.key, lo[1..]);
        SharedIgnores(lo[1..], KeysOf(hi[1..]), b.key);
        assert KeysOf(hi) == KeysOf(hi[1..]) + {b.key};
        DroppedExactly(lo[1..], hi[1..]);
      }
    }
  }

  lemma {:induction false} MergedOk(lo: seq<Entry>, hi: seq<Entry>)
    requires AllOk(lo) && AllOk(hi)
    ensures AllOk(Merged(lo, hi)) && Payload(Merged(lo, hi)) <= Payload(lo) + Payload(hi)
    decreases |lo| + |hi|
  {
    if lo != [] && hi != [] {
      var c := Cmp(lo[0].key, hi[0].key);
      assert lo == [lo[0]] + lo[1..] && hi == [hi[0]] + hi[1..];
      PayloadConcat([lo[0]], lo[1..]);
      PayloadConcat([hi[0]], hi[1..]);
      if c < 0 {
        MergedOk(lo[1..], hi);
        PayloadConcat([lo[0]], Merged(lo[1..], hi));
      } else if c > 0 {
        MergedOk(lo, hi[1..]);
        PayloadConcat([hi[0]], Merged(lo, hi[1..]));
      } else {
        MergedOk(lo[1..], hi[1..]);
        PayloadConcat([hi[0]], Merged(lo[1..], hi[1..]));
      }
    }
  }

  lemma MergedNothing()
    ensures Merged([], []) == [] && Dropped([], []) == []
  {
  }

  lemma CutNothing(cur: seq<Entry>)
    ensures Cut(cur, []) == if cur == [] then [] else [cur]
  {
  }

  lemma {:induction false} CutNeedsPage(cur: seq<Entry>, rest: seq<Entry>)
    requires cur != [] || rest != []
    ensures |Cut(cur, rest)| >= 1
    decreases |rest|
  {
    if rest != [] {
      if !(cur != [] && Full(cur, rest[0])) { CutNeedsPage(cur + [rest[0]], rest[1..]); }
    }
  }

  // When `e` does not fit the open page, at least that page and one more follow the closed ones.
  lemma CutOverruns(pieces: seq<seq<Entry>>, cur: seq<Entry>, e: Entry, rest: seq<Entry>)
    ensures |pieces + Cut(cur, [e] + rest)| >= |pieces| + (if cur != [] && Full(cur, e) then 2 else 1)
  {
    CutStep(cur, e);
    CutNeedsPage([e], rest);
    CutNeedsPage(cur, [e] + rest);
  }

  // What a cursor still has to give: the entry in hand and the reader's rest.
  ghost function Ahead(e: Option<Entry>, rest: seq<Entry>): seq<Entry> {
    (if e.Some? then [e.value] else []) + rest
  }

  /** The pages of a merge: the entries of both streams, merged and cut. */
  ghost function MergedPages(lower: seq<Page>, upper: seq<Page>): seq<seq<Entry>>
    requires StreamOk(lower) && StreamOk(upper)
  {
    Cut([], Merged(DecodeAll(lower), DecodeAll(upper)))
  }

  lemma MergeStep(lo: seq<Entry>, hi: seq<Entry>, dropped: seq<nat>)
    requires lo != [] || hi != []
    ensures
      var c := if lo == [] then 1 else if hi == [] then -1 else Cmp(lo[0].key, hi[0].key);
      var e := if c < 0 then lo[0] else hi[0];
      var lo' := if c > 0 then lo else lo[1..];
      var hi' := if c < 0 then hi else hi[1..];
      && Merged(lo, hi) == [e] + Merged(lo', hi')
      && dropped + Dropped(lo, hi) == dropped + (if c == 0 then [lo[0].ppa] else []) + Dropped(lo', hi')
  {
    if lo == [] {
      assert hi == [hi[0]] + hi[1..];
    } else if hi == [] {
      assert lo == [lo[0]] + lo[1..];
    }
  }

  lemma AheadOk(e: Option<Entry>, rest: seq<Entry>)
    requires AllOk(Ahead(e, rest))
    ensures e.Some? ==> EntryOk(e.value) && Ahead(e, rest) == [e.value] + rest
    ensures e.Some? ==> Ahead(e, rest)[0] == e.value && Ahead(e, rest)[1..] == rest && AllOk(rest)
    ensures e.None? ==> Ahead(e, rest) == rest
  {
    if e.Some? {
      assert EntryOk(Ahead(e, rest)[0]);
      forall i | 0 <= i < |rest| ensures EntryOk(rest[i]) { assert Ahead(e, rest)[i + 1] == rest[i]; }
    }
  }

  // What the cursors of a merge still have, and what the writer has of the whole.
  ghost predicate CursorOk(r: Reader, e: Option<Entry>, left: seq<Entry>)
    reads r
  {
    r.Valid() && (e.None? ==> r.Rest() == []) && Ahead(e, r.Rest()) == left && AllOk(left)
  }

  // The cursor moves on.
  method Advance(r: Reader, e: Option<Entry>, ghost left: seq<Entry>) returns (e': Option<Entry>)
    requires CursorOk(r, e, left) && e.Some?
    modifies r
    ensures left != [] && CursorOk(r, e', left[1..])
  {
    hide AllOk, Reader.Valid, Reader.Rest;
    AheadOk(e, r.Rest());
    e' := r.GetNextKey();
    TakeNext(e', old(r.Rest()), r.Rest());
  }

  lemma TakeNext(e: Option<Entry>, rest: seq<Entry>, rest': seq<Entry>)
    requires rest == [] ==> e == None && rest' == []
    requires rest != [] ==> e == Some(rest[0]) && rest' == rest[1..]
    ensures Ahead(e, rest') == rest
  {
  }

  lemma CursorFacts(r: Reader, e: Option<Entry>, left: seq<Entry>)
    requires CursorOk(r, e, left)
    ensures e.Some? <==> left != []
    ensures e.Some? ==> EntryOk(e.value) && left[0] == e.value
    ensures AllOk(left)
  {
    AheadOk(e, r.Rest());
  }

  ghost predicate WriterOk(w: Writer, rest: seq<Entry>, all: seq<seq<Entry>>)
    reads w, w.buf
  {
    w.Valid() && w.Pieces() + Cut(w.cur, rest) == all
  }

  // The writer takes `e`, unless that would be one page too many.
  method Write(w: Writer, e: Entry, ghost rest: seq<Entry>, ghost all: seq<seq<Entry>>) returns (ok: bool)
    requires WriterOk(w, [e] + rest, all) && EntryOk(e) && w.maxPage > 0
    modifies w, w.buf
    ensures w.buf == old(w.buf) || fresh(w.buf)
    ensures ok ==> WriterOk(w, rest, all)
    ensures !ok ==> |all| > w.maxPage
  {
    hide PageOk, Cut, Encodes, Off;
    CutOverruns(w.Pieces(), w.cur, e, rest);
    ok := w.InsertNewKey(e);
  }

  // One round of the merge: the smaller key is written, of equal ones the upper.
  method MergeOne(lp: Reader, hp: Reader, rp: Writer, lk: Option<Entry>, hk: Option<Entry>, dropped: seq<nat>,
                  ghost lo: seq<Entry>, ghost hi: seq<Entry>, ghost all: seq<seq<Entry>>)
    returns (ok: bool, lk': Option<Entry>, hk': Option<Entry>, dropped': seq<nat>, ghost lo': seq<Entry>,
             ghost hi': seq<Entry>)
    requires CursorOk(lp, lk, lo) && CursorOk(hp, hk, hi) && WriterOk(rp, Merged(lo, hi), all)
    requires lp != hp && rp.maxPage > 0 && (lk.Some? || hk.Some?)
    modifies lp, hp, rp, rp.buf
    ensures rp.buf == old(rp.buf) || fresh(rp.buf)
    ensures ok ==> CursorOk(lp, lk', lo') && CursorOk(hp, hk', hi') && WriterOk(rp, Merged(lo', hi'), all)
    ensures ok ==> dropped' + Dropped(lo', hi') == dropped + Dropped(lo, hi) && |lo'| + |hi'| < |lo| + |hi|
    ensures !ok ==> |all| > rp.maxPage
  {
    hide *;
    lk', hk', dropped', lo', hi' := lk, hk, dropped, lo, hi;
    CursorFacts(lp, lk, lo);
    CursorFacts(hp, hk, hi);
    MergeStep(lo, hi, dropped);
    var nextPop, e;
    if lk.None? {
      e, nextPop := hk.value, 1;
    } else if hk.None? {
      e, nextPop := lk.value, -1;
    } else {
      nextPop := Cmp(lk.value.key, hk.value.key);
      e := if nextPop < 0 then lk.value else hk.value;
      if nextPop == 0 { dropped' := dropped + [lk.value.ppa]; }
    }
    if nextPop <= 0 { lo' := lo[1..]; }
    if nextPop >= 0 { hi' := hi[1..]; }
    ok := Write(rp, e, Merged(lo', hi'), all);
    if !ok { return; }
    if nextPop <= 0 { lk' := Advance(lp, lk, lo); }
    if nextPop >= 0 { hk' := Advance(hp, hk, hi); }
  }

  /** `array_pipe_merger`: the output pages are the merge cut into pages, and the invalidated data
      pages those of `Dropped`.  `ok` is false exactly when the output needs more pages than the inputs
      have and the padding allows, where the source runs past its page list. */
  method Merge(lower: seq<Page>, upper: seq<Page>) returns (ok: bool, data: seq<Page>, dropped: seq<nat>)
    requires StreamOk(lower) && StreamOk(upper) && lower != [] && upper != []
    ensures ok <==> |MergedPages(lower, upper)| <= |lower| + |upper| + RESULT_PADDING
    ensures ok ==> StreamOk(data) && |data| == |MergedPages(lower, upper)|
    ensures ok ==> forall i :: 0 <= i < |data| ==> Decode(data[i]) == MergedPages(lower, upper)[i]
    ensures ok ==> dropped == Dropped(DecodeAll(lower), DecodeAll(upper))
  {
    hide PageOk, Cut, Merged, Dropped, DecodeAll, Encodes, Off, AllOk, Reader.Valid, Reader.Rest, Writer.Valid,
         Writer.Pieces;
    ghost var all := MergedPages(lower, upper);
    ghost var lo, hi := DecodeAll(lower), DecodeAll(upper);
    DecodeAllOk(lower);
    DecodeAllOk(upper);
    var lp := new Reader(lower);
    var hp := new Reader(upper);
    var rp := new Writer(|lower| + |upper| + RESULT_PADDING);
    data, dropped := [], [];
    var lk := lp.GetNextKey();
    TakeNext(lk, lo, lp.Rest());
    var hk := hp.GetNextKey();
    TakeNext(hk, hi, hp.Rest());
    NothingWritten(rp, Merged(lo, hi));
    while lk.Some? || hk.Some?
      invariant CursorOk(lp, lk, lo) && CursorOk(hp, hk, hi) && WriterOk(rp, Merged(lo, hi), all)
      invariant fresh(lp) && fresh(hp) && fresh(rp) && lp != hp && (rp.buf == null || fresh(rp.buf))
      invariant dropped + Dropped(lo, hi) == Dropped(DecodeAll(lower), DecodeAll(upper))
      decreases |lo| + |hi|
    {
      ok, lk, hk, dropped, lo, hi := MergeOne(lp, hp, rp, lk, hk, dropped, lo, hi, all);
      if !ok { return; }
    }
    CursorFacts(lp, lk, lo);
    CursorFacts(hp, hk, hi);
    MergedNothing();
    FlushGives(rp, all);
    rp.Flush();
    PiecesAre(rp);
    data, ok := rp.data, true;
    assert dropped + [] == dropped;
  }

  lemma NothingWritten(w: Writer, rest: seq<Entry>)
    requires w.Valid() && w.data == [] && w.cur == []
    ensures WriterOk(w, rest, Cut([], rest))
  {
    assert w.Pieces() == [];
  }

  lemma FlushGives(w: Writer, all: seq<seq<Entry>>)
    requires WriterOk(w, [], all)
    ensures w.Valid() && w.Pieces() + Cut(w.cur, []) == all && |all| <= w.maxPage
  {
    CutNothing(w.cur);
  }

  lemma PiecesAre(w: Writer)
    requires StreamOk(w.data)
    ensures |w.Pieces()| == |w.data| && forall i :: 0 <= i < |w.data| ==> w.Pieces()[i] == Decode(w.data[i])
  {
  }

  // ----- how many pages a merge can need -----

  lemma {:induction false} StreamPayload(pages: seq<Page>)
    requires StreamOk(pages)
    ensures Payload(DecodeAll(pages)) <= (PAGESIZE - KEYBITMAP) * |pages|
  {
    hide U16, U32, KeyAt, PpaAt;
    if pages != [] {
      StreamPayload(pages[1..]);
      PayloadConcat(Decode(pages[0]), DecodeAll(pages[1..]));
      assert StreamPageOk(pages[0]) && Closed(pages[0], Decode(pages[0]));
    }
  }

  /** Up to 2400 input pages the padding is always enough. */
  lemma PaddingSuffices(lower: seq<Page>, upper: seq<Page>)
    requires StreamOk(lower) && StreamOk(upper) && |lower| + |upper| <= 2400
    ensures |MergedPages(lower, upper)| <= |lower| + |upper| + RESULT_PADDING
  {
    hide Cut, Merged, DecodeAll, Payload;
    var lo, hi := DecodeAll(lower), DecodeAll(upper);
    DecodeAllOk(lower);
    DecodeAllOk(upper);
    StreamPayload(lower);
    StreamPayload(upper);
    MergedOk(lo, hi);
    CutBound([], Merged(lo, hi));
    assert [] + Merged(lo, hi) == Merged(lo, hi);
    PaddingArithmetic(|MergedPages(lower, upper)|, |lower| + |upper|);
  }

  lemma PaddingArithmetic(m: nat, n: nat)
    requires n <= 2400 && (m - 1) * MIN_CLOSED <= (PAGESIZE - KEYBITMAP) * n
    ensures m <= n + RESULT_PADDING
  {
  }

  /** The pages of a merge hold the merge, in order, none empty and none over its limits. */
  lemma MergedPagesHold(lower: seq<Page>, upper: seq<Page>)
    requires StreamOk(lower) && StreamOk(upper)
    ensures Flat(MergedPages(lower, upper)) == Merged(DecodeAll(lower), DecodeAll(upper))
    ensures forall p :: p in MergedPages(lower, upper) ==> PieceOk(p)
  {
    DecodeAllOk(lower);
    DecodeAllOk(upper);
    MergedOk(DecodeAll(lower), DecodeAll(upper));
    CutKeeps([], Merged(DecodeAll(lower), DecodeAll(upper)));
  }

  // Pages that decode to the pieces of a list decode to the list.
  lemma {:induction false} PagesOfPieces(data: seq<Page>, pieces: seq<seq<Entry>>)
    requires StreamOk(data) && |data| == |pieces| && forall i :: 0 <= i < |data| ==> Decode(data[i]) == pieces[i]
    ensures DecodeAll(data) == Flat(pieces)
  {
    hide StreamPageOk, PageOk, Decode, NumKeys;
    if data != [] {
      PageShape(data[0]);
      PagesOfPieces(data[1..], pieces[1..]);
    }
  }
}
