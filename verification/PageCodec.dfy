/**
 Metadata pages of the tree.  The first kilobyte of a 4 KB page is a table of 16-bit numbers: the
 number of keys, the offset of each entry, and the offset behind the last one; entries follow, each a
 32-bit page number and the key's bytes.
 */
module PageCodec {
  import opened Keys

  const PAGESIZE: nat := 4096
  const KEYBITMAP: nat := 1024
  // A writer closes a page when its next table index gets here.
  const KIDX_LIMIT: nat := 510
  // The most keys whose table fits.
  const MAX_KEYS: nat := 510
  const LIMIT32: nat := 0x1_0000_0000

  datatype Entry = Entry(key: Key, ppa: nat)

  /** What the store accepts: a key of 1 to 254 bytes, its first byte not negative as a `char`. */
  predicate EntryOk(e: Entry) {
    0 < |e.key| < 255 && e.key[0] < 128 && e.ppa < LIMIT32
  }

  predicate AllOk(s: seq<Entry>) {
    forall i :: 0 <= i < |s| ==> EntryOk(s[i])
  }

  // ----- numbers in bytes, little-endian -----

  // Two bytes as a number.
  function Word(lo: int, hi: int): int { lo + 256 * hi }

  function U16(page: seq<Byte>, i: nat): (v: nat)
    requires 2 * i + 1 < |page|
    ensures v < 65536
  {
    Word(page[2 * i], page[2 * i + 1])
  }

  function U32(page: seq<Byte>, o: nat): (v: nat)
    requires o + 3 < |page|
  {
    Word(page[o], page[o + 1]) + 65536 * Word(page[o + 2], page[o + 3])
  }

  function Le16(v: nat): (b: seq<Byte>)
    requires v < 65536
    ensures |b| == 2 && Word(b[0], b[1]) == v
  {
    [v % 256, v / 256]
  }

  function Le32(v: nat): (b: seq<Byte>)
    requires v < LIMIT32
    ensures |b| == 4 && Word(b[0], b[1]) + 65536 * Word(b[2], b[3]) == v
  {
    Le16(v % 65536) + Le16(v / 65536)
  }

  // `page` with `bytes` written at offset `o`.
  function Put(page: seq<Byte>, o: nat, bytes: seq<Byte>): (p: seq<Byte>)
    requires o + |bytes| <= |page|
    ensures |p| == |page|
    ensures forall b :: 0 <= b < |page| ==> p[b] == if o <= b < o + |bytes| then bytes[b - o] else page[b]
  {
    page[..o] + bytes + page[o + |bytes|..]
  }

  // ----- the layout -----

  // Bytes an entry takes (`KEYLEN`).
  function Size(e: Entry): nat { 4 + |e.key| }

  function Off(cur: seq<Entry>, i: nat): (o: nat)
    requires i <= |cur|
    ensures KEYBITMAP + 4 * i <= o
  {
    if i == 0 then KEYBITMAP else Off(cur, i - 1) + Size(cur[i - 1])
  }

  lemma {:induction false} OffMonotone(cur: seq<Entry>, i: nat, j: nat)
    requires i <= j <= |cur|
    ensures Off(cur, i) <= Off(cur, j) && (i < j ==> Off(cur, i) + Size(cur[i]) <= Off(cur, j))
    decreases j
  {
    if i < j {
      if i < j - 1 { OffMonotone(cur, i, j - 1); }
    }
  }

  lemma {:induction false} OffPrefix(cur: seq<Entry>, e: Entry, i: nat)
    requires i <= |cur|
    ensures Off(cur + [e], i) == Off(cur, i)
  {
    if i > 0 { OffPrefix(cur, e, i - 1); }
  }

  lemma OffAppend(cur: seq<Entry>, e: Entry)
    ensures Off(cur + [e], |cur| + 1) == Off(cur, |cur|) + Size(e)
  {
    OffPrefix(cur, e, |cur|);
  }

  // Entry `i` of `cur` is where the table says, byte for byte.
  ghost predicate EntryAt(page: seq<Byte>, cur: seq<Entry>, i: nat)
    requires |page| == PAGESIZE && i < |cur| <= MAX_KEYS
  {
    var o, o' := Off(cur, i), Off(cur, i + 1);
    && o' <= PAGESIZE && U16(page, i + 1) == o
    && U32(page, o) == cur[i].ppa && page[o + 4..o'] == cur[i].key
  }

  // The entries `cur` lie in the page; its first and last table numbers are still open.
  ghost predicate Encodes(page: seq<Byte>, cur: seq<Entry>) {
    && |page| == PAGESIZE && |cur| <= MAX_KEYS && Off(cur, |cur|) <= PAGESIZE
    && forall i :: 0 <= i < |cur| ==> EntryAt(page, cur, i)
  }

  ghost predicate Closed(page: seq<Byte>, cur: seq<Entry>) {
    Encodes(page, cur) && U16(page, 0) == |cur| && U16(page, |cur| + 1) == Off(cur, |cur|)
  }

  // ----- reading -----

  function NumKeys(page: seq<Byte>): nat
    requires |page| == PAGESIZE
  {
    U16(page, 0)
  }

  // Length of key `k` (from 1), in the 8 bits a key length has.
  function KeyLen(page: seq<Byte>, k: nat): nat
    requires |page| == PAGESIZE && k + 1 < KEYBITMAP / 2
  {
    (U16(page, k + 1) - U16(page, k) - 4) % 256
  }

  // Key number `k`; the empty key if the table points outside the page.
  function KeyAt(page: seq<Byte>, k: nat): Key
    requires |page| == PAGESIZE && k + 1 < KEYBITMAP / 2
  {
    var o := U16(page, k) + 4;
    if o + KeyLen(page, k) <= |page| then page[o..o + KeyLen(page, k)] else []
  }

  function PpaAt(page: seq<Byte>, k: nat): nat
    requires |page| == PAGESIZE && k + 1 < KEYBITMAP / 2
  {
    if U16(page, k) + 4 <= |page| then U32(page, U16(page, k)) else 0
  }

  /** The entries a page holds. */
  function Decode(page: seq<Byte>): seq<Entry>
    requires |page| == PAGESIZE && NumKeys(page) <= MAX_KEYS
  {
    seq(NumKeys(page), i requires 0 <= i < NumKeys(page) => Entry(KeyAt(page, i + 1), PpaAt(page, i + 1)))
  }

  lemma SmallLength(n: int)
    requires 0 <= n < 256
    ensures n % 256 == n
  {
  }

  lemma ReadsEntry(page: seq<Byte>, cur: seq<Entry>, i: nat)
    requires Closed(page, cur) && AllOk(cur) && i < |cur|
    ensures KeyAt(page, i + 1) == cur[i].key && PpaAt(page, i + 1) == cur[i].ppa && KeyLen(page, i + 1) == |cur[i].key|
  {
    hide Word, U16, U32;
    assert EntryAt(page, cur, i) && EntryOk(cur[i]);
    if i + 1 < |cur| { assert EntryAt(page, cur, i + 1); }
    SmallLength(U16(page, i + 2) - U16(page, i + 1) - 4);
  }

  /** Reading back what was written gives the same entries, and the table's offsets rise strictly from
      1024 to at most 4096, its last index being at most 511. */
  lemma RoundTrip(page: seq<Byte>, cur: seq<Entry>)
    requires Closed(page, cur) && AllOk(cur)
    ensures NumKeys(page) == |cur| && |cur| + 1 <= 511 && Decode(page) == cur
    ensures cur != [] ==> U16(page, 1) == KEYBITMAP
    ensures U16(page, |cur| + 1) <= PAGESIZE
    ensures forall i :: 1 <= i <= |cur| ==> U16(page, i) < U16(page, i + 1)
  {
    hide Word, U16, U32, KeyLen, KeyAt, PpaAt;
    forall i | 0 <= i < |cur| ensures Decode(page)[i] == cur[i] {
      ReadsEntry(page, cur, i);
    }
    if cur != [] { assert EntryAt(page, cur, 0); }
    forall i | 1 <= i <= |cur| ensures U16(page, i) < U16(page, i + 1) {
      assert EntryAt(page, cur, i - 1);
      if i < |cur| { assert EntryAt(page, cur, i); }
    }
  }

  /** A page as the tree keeps it: closed over its own, acceptable entries. */
  ghost predicate PageOk(page: seq<Byte>) {
    && |page| == PAGESIZE && NumKeys(page) <= MAX_KEYS
    && Closed(page, Decode(page)) && AllOk(Decode(page))
  }

  lemma ClosedIsOk(page: seq<Byte>, cur: seq<Entry>)
    requires Closed(page, cur) && AllOk(cur)
    ensures PageOk(page) && Decode(page) == cur
  {
    RoundTrip(page, cur);
  }

  // ----- writing -----

  lemma FieldsStay(page: seq<Byte>, page': seq<Byte>, i: nat, o: nat, o': nat)
    requires |page| == |page'| && 2 * i + 3 < |page| && o + 4 <= o' <= |page|
    requires page'[2 * i + 2] == page[2 * i + 2] && page'[2 * i + 3] == page[2 * i + 3]
    requires forall b :: o <= b < o' ==> page'[b] == page[b]
    ensures U16(page', i + 1) == U16(page, i + 1) && U32(page', o) == U32(page, o)
      && page'[o + 4..o'] == page[o + 4..o']
  {
    hide Word;
  }

  // Bytes of the table behind its first number, and of the entries, unchanged: so is entry `i`.
  lemma EntryStays(page: seq<Byte>, page': seq<Byte>, cur: seq<Entry>, i: nat)
    requires Encodes(page, cur) && |page'| == PAGESIZE && i < |cur|
    requires forall b :: 2 <= b < 2 * |cur| + 2 ==> page'[b] == page[b]
    requires forall b :: KEYBITMAP <= b < Off(cur, |cur|) ==> page'[b] == page[b]
    ensures EntryAt(page', cur, i)
  {
    hide Word, Off, U16, U32, EntryAt;
    OffMonotone(cur, i, |cur|);
    OffMonotone(cur, i + 1, |cur|);
    OffMonotone(cur, i, i + 1);
    SameEntry(page, page', cur, i, Off(cur, i), Off(cur, i + 1));
  }

  lemma SameEntry(page: seq<Byte>, page': seq<Byte>, cur: seq<Entry>, i: nat, o: nat, o': nat)
    requires |page| == |page'| == PAGESIZE && i < |cur| <= MAX_KEYS && EntryAt(page, cur, i)
    requires o == Off(cur, i) && o' == Off(cur, i + 1) && o + 4 <= o' <= PAGESIZE
    requires page'[2 * i + 2] == page[2 * i + 2] && page'[2 * i + 3] == page[2 * i + 3]
    requires forall b :: o <= b < o' ==> page'[b] == page[b]
    ensures EntryAt(page', cur, i)
  {
    hide Word, Off, U16, U32;
    FieldsStay(page, page', i, o, o');
  }

  // The page after `memcpy`ing the page number and the key, and noting the offset.
  function WithEntry(page: seq<Byte>, cur: seq<Entry>, e: Entry): (p: seq<Byte>)
    requires |page| == PAGESIZE && |cur| < MAX_KEYS && Off(cur, |cur|) + Size(e) <= PAGESIZE && e.ppa < LIMIT32
    ensures |p| == PAGESIZE
  {
    var o := Off(cur, |cur|);
    Put(Put(Put(page, o, Le32(e.ppa)), o + 4, e.key), 2 * (|cur| + 1), Le16(o))
  }

  lemma PutReads16(page: seq<Byte>, i: nat, v: nat)
    requires 2 * i + 1 < |page| && v < 65536
    ensures U16(Put(page, 2 * i, Le16(v)), i) == v
  {
    hide Le16, Word, Put;
  }

  lemma PutReads32(page: seq<Byte>, o: nat, v: nat)
    requires o + 3 < |page| && v < LIMIT32
    ensures U32(Put(page, o, Le32(v)), o) == v
  {
    hide Le32, Word, Put;
  }

  lemma PutReads(page: seq<Byte>, o: nat, x: seq<Byte>)
    requires o + |x| <= |page|
    ensures Put(page, o, x)[o..o + |x|] == x
  {
    hide Put;
  }

  // What is read outside the bytes written.
  lemma PutApart(page: seq<Byte>, o: nat, x: seq<Byte>, lo: nat, hi: nat)
    requires o + |x| <= |page| && lo <= hi <= |page| && (hi <= o || o + |x| <= lo)
    ensures Put(page, o, x)[lo..hi] == page[lo..hi]
    ensures lo + 4 == hi ==> U32(Put(page, o, x), lo) == U32(page, lo)
  {
    hide Put, Word;
  }

  // Writing an entry leaves the table in front of its number and the entries before it alone.
  lemma NewEntryApart(page: seq<Byte>, cur: seq<Entry>, e: Entry)
    requires |page| == PAGESIZE && |cur| < MAX_KEYS && Off(cur, |cur|) + Size(e) <= PAGESIZE && e.ppa < LIMIT32
    ensures forall b :: 2 <= b < 2 * |cur| + 2 || KEYBITMAP <= b < Off(cur, |cur|) ==>
      WithEntry(page, cur, e)[b] == page[b]
  {
    hide Off, Put;
  }

  // A page number, a key and a table number written one after the other are read back.
  lemma PutsRead(page: seq<Byte>, o: nat, ppa: nat, key: Key, i: nat)
    requires 2 * i + 2 <= o && o + 4 + |key| <= |page| && ppa < LIMIT32 && o < 65536
    ensures var p := Put(Put(Put(page, o, Le32(ppa)), o + 4, key), 2 * i, Le16(o));
      U16(p, i) == o && U32(p, o) == ppa && p[o + 4..o + 4 + |key|] == key
  {
    hide Put, Le16, Le32, U16, U32;
    var p1 := Put(page, o, Le32(ppa));
    var p2 := Put(p1, o + 4, key);
    PutReads16(p2, i, o);
    assert U32(Put(p2, 2 * i, Le16(o)), o) == ppa by {
      PutReads32(page, o, ppa);
      PutApart(p1, o + 4, key, o, o + 4);
      PutApart(p2, 2 * i, Le16(o), o, o + 4);
    }
    assert Put(p2, 2 * i, Le16(o))[o + 4..o + 4 + |key|] == key by {
      PutReads(p1, o + 4, key);
      PutApart(p2, 2 * i, Le16(o), o + 4, o + 4 + |key|);
    }
  }

  lemma NewEntryReads(page: seq<Byte>, cur: seq<Entry>, e: Entry)
    requires |page| == PAGESIZE && |cur| < MAX_KEYS && Off(cur, |cur|) + Size(e) <= PAGESIZE && e.ppa < LIMIT32
    ensures var p, o := WithEntry(page, cur, e), Off(cur, |cur|);
      && U16(p, |cur| + 1) == o && U32(p, o) == e.ppa && p[o + 4..o + 4 + |e.key|] == e.key
  {
    hide Put, Le16, Le32, Off, U16, U32;
    PutsRead(page, Off(cur, |cur|), e.ppa, e.key, |cur| + 1);
  }

  lemma WriteEntry(page: seq<Byte>, cur: seq<Entry>, e: Entry)
    requires Encodes(page, cur) && |cur| < MAX_KEYS && Off(cur, |cur|) + Size(e) <= PAGESIZE && e.ppa < LIMIT32
    ensures Encodes(WithEntry(page, cur, e), cur + [e])
    ensures Off(cur + [e], |cur| + 1) == Off(cur, |cur|) + Size(e)
  {
    hide WithEntry, U16, U32, EntryAt, Off;
    var p, cur' := WithEntry(page, cur, e), cur + [e];
    OffAppend(cur, e);
    NewEntryReads(page, cur, e);
    NewEntryApart(page, cur, e);
    forall i | 0 <= i < |cur'| ensures EntryAt(p, cur', i) {
      if i < |cur| {
        EntryStays(page, p, cur, i);
        EntryAtPrefix(p, cur, e, i);
      } else {
        LastEntryAt(p, cur, e);
      }
    }
  }

  lemma EntryAtPrefix(page: seq<Byte>, cur: seq<Entry>, e: Entry, i: nat)
    requires |page| == PAGESIZE && i < |cur| < MAX_KEYS && EntryAt(page, cur, i)
    ensures EntryAt(page, cur + [e], i)
  {
    OffPrefix(cur, e, i);
    OffPrefix(cur, e, i + 1);
  }

  lemma LastEntryAt(page: seq<Byte>, cur: seq<Entry>, e: Entry)
    requires |page| == PAGESIZE && |cur| < MAX_KEYS && Off(cur, |cur|) + Size(e) <= PAGESIZE
    requires var o := Off(cur, |cur|);
      U16(page, |cur| + 1) == o && U32(page, o) == e.ppa && page[o + 4..o + 4 + |e.key|] == e.key
    ensures EntryAt(page, cur + [e], |cur|)
  {
    hide Off, U16, U32;
    var cur' := cur + [e];
    OffPrefix(cur, e, |cur|);
    OffAppend(cur, e);
    assert cur'[|cur|] == e && Off(cur', |cur| + 1) == Off(cur, |cur|) + 4 + |e.key|;
  }

  // The page with its first and last table numbers filled in.
  function WithEnds(page: seq<Byte>, cur: seq<Entry>): (p: seq<Byte>)
    requires |page| == PAGESIZE && |cur| <= MAX_KEYS && Off(cur, |cur|) <= PAGESIZE
    ensures |p| == PAGESIZE
  {
    Put(Put(page, 0, Le16(|cur|)), 2 * (|cur| + 1), Le16(Off(cur, |cur|)))
  }

  lemma WriteEnds(page: seq<Byte>, cur: seq<Entry>)
    requires Encodes(page, cur)
    ensures Closed(WithEnds(page, cur), cur)
  {
    var p := WithEnds(page, cur);
    forall i | 0 <= i < |cur| ensures EntryAt(p, cur, i) { EntryStays(page, p, cur, i); }
  }

  // `memcpy` into a page buffer.
  method CopyInto(buf: array<Byte>, o: nat, bytes: seq<Byte>)
    requires o + |bytes| <= buf.Length
    modifies buf
    ensures buf[..] == Put(old(buf[..]), o, bytes)
  {
    for i := 0 to |bytes|
      invariant forall b :: 0 <= b < buf.Length ==> buf[b] == if o <= b < o + i then bytes[b - o] else old(buf[b])
    {
      buf[o + i] := bytes[i];
    }
    assert buf[..] == Put(old(buf[..]), o, bytes);
  }

  // One entry at the end of the page.
  method PutEntry(buf: array<Byte>, kidx: nat, length: nat, e: Entry, ghost cur: seq<Entry>)
    requires buf.Length == PAGESIZE && Encodes(buf[..], cur) && kidx == |cur| + 1 && length == Off(cur, |cur|)
    requires kidx <= MAX_KEYS && length + Size(e) <= PAGESIZE && e.ppa < LIMIT32
    modifies buf
    ensures Encodes(buf[..], cur + [e]) && Off(cur + [e], |cur| + 1) == length + Size(e)
  {
    WriteEntry(buf[..], cur, e);
    CopyInto(buf, length, Le32(e.ppa));
    CopyInto(buf, length + 4, e.key);
    CopyInto(buf, 2 * kidx, Le16(length));
  }

  method PutEnds(buf: array<Byte>, kidx: nat, length: nat, ghost cur: seq<Entry>)
    requires buf.Length == PAGESIZE && Encodes(buf[..], cur) && kidx == |cur| + 1 && length == Off(cur, |cur|)
    modifies buf
    ensures Closed(buf[..], cur)
  {
    WriteEnds(buf[..], cur);
    CopyInto(buf, 0, Le16(kidx - 1));
    CopyInto(buf, 2 * kidx, Le16(length));
  }

  lemma FreshPage(page: seq<Byte>)
    requires |page| == PAGESIZE
    ensures Encodes(page, [])
  {
  }

  // Bytes of a list of entries.
  function Bytes(s: seq<Entry>): nat { if s == [] then 0 else Bytes(s[..|s| - 1]) + Size(s[|s| - 1]) }

  lemma {:induction false} OffIsBytes(s: seq<Entry>, i: nat)
    requires i <= |s|
    ensures Off(s, i) == KEYBITMAP + Bytes(s[..i])
  {
    if i > 0 {
      OffIsBytes(s, i - 1);
      assert s[..i][..i - 1] == s[..i - 1];
    }
  }

  datatype Option<T> = None | Some(value: T)

  /** `array_mem_cvt2table`, and `array_skip_cvt2_data` but for the two bounds: a cut memtable as one
      page.  `first` and `last` are the bounds noted for the run; the last one is noted only when
      there are two keys or more. */
  method EncodeTable(mem: seq<Entry>) returns (page: array<Byte>, first: Option<Key>, last: Option<Key>)
    requires AllOk(mem) && |mem| <= MAX_KEYS && Bytes(mem) <= PAGESIZE - KEYBITMAP
    ensures fresh(page) && page.Length == PAGESIZE && PageOk(page[..]) && Decode(page[..]) == mem
    ensures first == if |mem| >= 1 then Some(mem[0].key) else None
    ensures last == if |mem| >= 2 then Some(mem[|mem| - 1].key) else None
  {
    first, last := None, None;
    page := new Byte[PAGESIZE](_ => 0);
    var idx, dataStart := 1, KEYBITMAP;
    FreshPage(page[..]);
    assert mem[..0] == [];
    for i := 0 to |mem|
      invariant fresh(page) && idx == i + 1 && Encodes(page[..], mem[..i]) && dataStart == Off(mem[..i], i)
      invariant first == if i >= 1 then Some(mem[0].key) else None
      invariant last == if i == |mem| >= 2 then Some(mem[|mem| - 1].key) else None
    {
      if idx == 1 { first := Some(mem[i].key); } else if idx == |mem| { last := Some(mem[i].key); }
      assert mem[..i + 1] == mem[..i] + [mem[i]];
      TableFits(mem, i);
      PutEntry(page, idx, dataStart, mem[i], mem[..i]);
      dataStart := dataStart + Size(mem[i]);
      idx := idx + 1;
    }
    assert mem[..|mem|] == mem;
    PutEnds(page, idx, dataStart, mem);
    ClosedIsOk(page[..], mem);
  }

  lemma TableFits(mem: seq<Entry>, i: nat)
    requires i < |mem| && Bytes(mem) <= PAGESIZE - KEYBITMAP
    ensures Off(mem[..i], i) + Size(mem[i]) <= PAGESIZE
  {
    OffIsBytes(mem, |mem|);
    assert mem[..|mem|] == mem;
    OffMonotone(mem, i, |mem|);
    OffIsBytes(mem, i);
    OffIsBytes(mem[..i], i);
    assert mem[..i][..i] == mem[..i];
  }
}
