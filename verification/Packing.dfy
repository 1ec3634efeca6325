/**
 Packing items of one to four grains into four-grain pages: fill each page with the longest item
 that still fits, until nothing fits.  Items of one length wait in one bucket, used as a stack.
 */
module Packing {
  import opened Common

  const PAGE: nat := 4

  // An item and the slot (or batch position) it belongs to.
  datatype Item = Item(lpa: nat, len: nat)

  // `bucket[len]`: the items of that length still to be placed; `bucket[0]` stays empty.
  type Buckets = seq<seq<Item>>

  ghost predicate BucketsOk(b: Buckets) {
    |b| == PAGE + 1 && b[0] == [] && forall t, k :: 0 <= t <= PAGE && 0 <= k < |b[t]| ==> b[t][k].len == t
  }

  function Total(b: Buckets): nat
    requires |b| == PAGE + 1
  {
    |b[1]| + |b[2]| + |b[3]| + |b[4]|
  }

  // The longest length up to `t` with an item waiting; 0 if there is none.
  function Longest(b: Buckets, t: nat): (u: nat)
    requires |b| == PAGE + 1 && t <= PAGE
    ensures u <= t && (u != 0 ==> b[u] != [])
    ensures forall v :: u < v <= t ==> b[v] == []
  {
    if t == 0 || b[t] != [] then t else Longest(b, t - 1)
  }

  // One item taken from bucket `t`.
  function Take(b: Buckets, t: nat): (b': Buckets)
    requires BucketsOk(b) && 1 <= t <= PAGE && b[t] != []
    ensures BucketsOk(b') && Total(b') == Total(b) - 1
  {
    b[t := b[t][..|b[t]| - 1]]
  }

  function Top(b: Buckets, t: nat): Item
    requires |b| == PAGE + 1 && t <= PAGE && b[t] != []
  {
    b[t][|b[t]| - 1]
  }

  /** The items one page with `remain` free grains receives, and what is left. */
  function FillPage(b: Buckets, remain: nat): (r: (seq<Item>, Buckets))
    requires BucketsOk(b) && remain <= PAGE
    ensures BucketsOk(r.1) && Total(b) == |r.0| + Total(r.1)
    decreases remain
  {
    var t := Longest(b, remain);
    if t == 0 then ([], b)
    else
      var rest := FillPage(Take(b, t), remain - t);
      ([Top(b, t)] + rest.0, rest.1)
  }

  lemma FirstItem(b: Buckets)
    requires BucketsOk(b) && Total(b) > 0
    ensures Longest(b, PAGE) != 0 && FillPage(b, PAGE).0 != []
  {
    assert b[1] != [] || b[2] != [] || b[3] != [] || b[4] != [];
  }

  /** All pages, in the order they are written. */
  function Pack(b: Buckets): (pages: seq<seq<Item>>)
    requires BucketsOk(b)
    decreases Total(b)
  {
    if Total(b) == 0 then []
    else
      FirstItem(b);
      var r := FillPage(b, PAGE);
      [r.0] + Pack(r.1)
  }

  // ----- every item exactly once, inside one page -----

  function Grains(page: seq<Item>): nat {
    if page == [] then 0 else page[0].len + Grains(page[1..])
  }

  function Waiting(b: Buckets): multiset<Item>
    requires |b| == PAGE + 1
  {
    multiset(b[1]) + multiset(b[2]) + multiset(b[3]) + multiset(b[4])
  }

  lemma TakeWaiting(b: Buckets, t: nat)
    requires BucketsOk(b) && 1 <= t <= PAGE && b[t] != []
    ensures Waiting(b) == multiset{Top(b, t)} + Waiting(Take(b, t))
  {
    assert b[t] == b[t][..|b[t]| - 1] + [Top(b, t)];
  }

  lemma {:induction false} FillPageConserves(b: Buckets, remain: nat)
    requires BucketsOk(b) && remain <= PAGE
    ensures var r := FillPage(b, remain);
      Waiting(b) == multiset(r.0) + Waiting(r.1) && Grains(r.0) <= remain
    decreases remain
  {
    var t := Longest(b, remain);
    if t != 0 {
      TakeWaiting(b, t);
      FillPageConserves(Take(b, t), remain - t);
    }
  }

  /** Packing places every waiting item exactly once and overfills no page. */
  lemma {:induction false} PackConserves(b: Buckets)
    requires BucketsOk(b)
    ensures multiset(Flat(Pack(b))) == Waiting(b)
    ensures forall page :: page in Pack(b) ==> Grains(page) <= PAGE
    decreases Total(b)
  {
    if Total(b) == 0 {
      assert b[1] == [] && b[2] == [] && b[3] == [] && b[4] == [];
    } else {
      FirstItem(b);
      var r := FillPage(b, PAGE);
      FillPageConserves(b, PAGE);
      PackConserves(r.1);
      assert Flat(Pack(b)) == r.0 + Flat(Pack(r.1));
    }
  }

  // ----- no packing uses fewer pages -----

  // How many items of length `t` a list holds.
  function Num(s: seq<Item>, t: nat): nat {
    if s == [] then 0 else (if s[0].len == t then 1 else 0) + Num(s[1..], t)
  }

  // Pages needed for `n1`, ..., `n4` items of each length: the ones fill the gaps beside the threes.
  function Needed(n1: nat, n2: nat, n3: nat, n4: nat): nat {
    n4 + n3 + (2 * n2 + (if n1 > n3 then n1 - n3 else 0) + 3) / 4
  }

  function PagesFor(b: Buckets): nat
    requires |b| == PAGE + 1
  {
    Needed(|b[1]|, |b[2]|, |b[3]|, |b[4]|)
  }

  // `c` is `b` with `k` ones fewer.
  ghost predicate FewerOnes(b: Buckets, c: Buckets, k: nat)
    requires |b| == |c| == PAGE + 1
  {
    |c[1]| + k == |b[1]| && c[2] == b[2] && c[3] == b[3] && c[4] == b[4]
  }

  lemma {:induction false} FillOnes(b: Buckets, remain: nat)
    requires BucketsOk(b) && remain <= PAGE
    requires forall t :: 2 <= t <= remain ==> b[t] == []
    ensures FewerOnes(b, FillPage(b, remain).1, if |b[1]| < remain then |b[1]| else remain)
    decreases remain
  {
    var t := Longest(b, remain);
    if t != 0 {
      assert t == 1;
      FillOnes(Take(b, 1), remain - 1);
    } else {
      assert remain == 0 || b[1] == [];
    }
  }

  lemma GreedyThree(b: Buckets)
    requires BucketsOk(b) && b[4] == [] && b[3] != []
    ensures PagesFor(b) == 1 + PagesFor(FillPage(b, PAGE).1)
  {
    assert Longest(b, PAGE) == 3;
    FillOnes(Take(b, 3), 1);
  }

  lemma GreedyTwo(b: Buckets)
    requires BucketsOk(b) && b[4] == [] && b[3] == [] && b[2] != []
    ensures PagesFor(b) == 1 + PagesFor(FillPage(b, PAGE).1)
  {
    assert Longest(b, PAGE) == 2;
    var c := Take(b, 2);
    if c[2] != [] {
      assert Longest(c, 2) == 2;
      assert FillPage(Take(c, 2), 0).1 == Take(c, 2);
    } else {
      FillOnes(c, 2);
    }
  }

  /** Every page of the greedy packing lowers the number of pages needed by one. */
  lemma GreedyPage(b: Buckets)
    requires BucketsOk(b) && Total(b) > 0
    ensures PagesFor(b) == 1 + PagesFor(FillPage(b, PAGE).1)
  {
    if b[4] != [] {
      assert FillPage(Take(b, 4), 0).1 == Take(b, 4);
    } else if b[3] != [] {
      GreedyThree(b);
    } else if b[2] != [] {
      GreedyTwo(b);
    } else {
      FillOnes(b, PAGE);
    }
  }

  lemma {:induction false} PackCount(b: Buckets)
    requires BucketsOk(b)
    ensures |Pack(b)| == PagesFor(b)
    decreases Total(b)
  {
    if Total(b) > 0 {
      FirstItem(b);
      GreedyPage(b);
      PackCount(FillPage(b, PAGE).1);
    }
  }

  // The counts of a page are bounded by its grains.
  lemma {:induction false} PageCounts(page: seq<Item>)
    requires forall x :: x in page ==> 1 <= x.len <= PAGE
    ensures Num(page, 1) + 2 * Num(page, 2) + 3 * Num(page, 3) + 4 * Num(page, 4) == Grains(page)
  {
    if page != [] {
      assert page[0] in page;
      PageCounts(page[1..]);
    }
  }

  lemma {:induction false} NumConcat(s: seq<Item>, u: seq<Item>, t: nat)
    ensures Num(s + u, t) == Num(s, t) + Num(u, t)
  {
    if s == [] {
      assert s + u == u;
    } else {
      assert (s + u)[1..] == s[1..] + u;
      NumConcat(s[1..], u, t);
    }
  }

  // Adding one page of items raises the number of pages needed by at most one.
  lemma NeededSubadditive(n1: nat, n2: nat, n3: nat, n4: nat, p1: nat, p2: nat, p3: nat, p4: nat)
    requires p1 + 2 * p2 + 3 * p3 + 4 * p4 <= 4
    ensures Needed(n1 + p1, n2 + p2, n3 + p3, n4 + p4) <= Needed(n1, n2, n3, n4) + 1
  {
    assert p4 == 0 || (p4 == 1 && p3 == 0 && p2 == 0 && p1 == 0);
    assert p3 == 0 || (p3 == 1 && p2 == 0 && p1 <= 1);
  }

  function NeededOf(s: seq<Item>): nat { Needed(Num(s, 1), Num(s, 2), Num(s, 3), Num(s, 4)) }

  /** Any packing whatever has at least that many pages. */
  lemma {:induction false} LowerBound(pages: seq<seq<Item>>)
    requires forall page :: page in pages ==> Grains(page) <= PAGE
    requires forall x :: x in Flat(pages) ==> 1 <= x.len <= PAGE
    ensures |pages| >= NeededOf(Flat(pages))
  {
    if pages != [] {
      var p, rest := pages[0], Flat(pages[1..]);
      assert pages[0] in pages;
      assert Flat(pages) == p + rest;
      assert forall x :: x in p || x in rest ==> x in Flat(pages);
      LowerBound(pages[1..]);
      PageCounts(p);
      NumConcat(p, rest, 1);
      NumConcat(p, rest, 2);
      NumConcat(p, rest, 3);
      NumConcat(p, rest, 4);
      NeededSubadditive(Num(rest, 1), Num(rest, 2), Num(rest, 3), Num(rest, 4),
                        Num(p, 1), Num(p, 2), Num(p, 3), Num(p, 4));
    }
  }

  // ----- the greedy packing is optimal -----

  lemma {:induction false} NumRemove(s: seq<Item>, k: nat, t: nat)
    requires k < |s|
    ensures Num(s, t) == Num(s[..k] + s[k + 1..], t) + if s[k].len == t then 1 else 0
  {
    assert s == s[..k] + [s[k]] + s[k + 1..];
    NumConcat(s[..k] + [s[k]], s[k + 1..], t);
    NumConcat(s[..k], [s[k]], t);
    NumConcat(s[..k], s[k + 1..], t);
  }

  // Counts by length depend on the multiset only.
  lemma {:induction false} NumOfMultiset(s: seq<Item>, u: seq<Item>, t: nat)
    requires multiset(s) == multiset(u)
    ensures Num(s, t) == Num(u, t)
    decreases |s|
  {
    if s == [] {
      assert |multiset(u)| == 0;
    } else {
      assert s[0] in multiset(u);
      var k :| 0 <= k < |u| && u[k] == s[0];
      assert s == [s[0]] + s[1..];
      assert u == u[..k] + [u[k]] + u[k + 1..];
      assert multiset(s[1..]) == multiset(s) - multiset{s[0]};
      assert multiset(u[..k] + u[k + 1..]) == multiset(u) - multiset{u[k]};
      NumOfMultiset(s[1..], u[..k] + u[k + 1..], t);
      NumRemove(u, k, t);
    }
  }

  lemma {:induction false} NumAll(s: seq<Item>, len: nat, t: nat)
    requires forall k :: 0 <= k < |s| ==> s[k].len == len
    ensures Num(s, t) == if t == len then |s| else 0
  {
    if s != [] { NumAll(s[1..], len, t); }
  }

  // The waiting items as one list.
  function Queue(b: Buckets): seq<Item>
    requires |b| == PAGE + 1
  {
    b[1] + b[2] + b[3] + b[4]
  }

  lemma QueueCounts(b: Buckets, t: nat)
    requires BucketsOk(b) && 1 <= t <= PAGE
    ensures Num(Queue(b), t) == |b[t]|
  {
    NumConcat(b[1] + b[2] + b[3], b[4], t);
    NumConcat(b[1] + b[2], b[3], t);
    NumConcat(b[1], b[2], t);
    NumAll(b[1], 1, t);
    NumAll(b[2], 2, t);
    NumAll(b[3], 3, t);
    NumAll(b[4], 4, t);
  }

  /** No arrangement of the same items on four-grain pages uses fewer pages than the greedy one. */
  lemma GreedyIsOptimal(b: Buckets, pages: seq<seq<Item>>)
    requires BucketsOk(b) && multiset(Flat(pages)) == Waiting(b)
    requires forall page :: page in pages ==> Grains(page) <= PAGE
    ensures |Pack(b)| <= |pages|
  {
    var q, f := Queue(b), Flat(pages);
    assert multiset(q) == multiset(f);
    forall x | x in f ensures 1 <= x.len <= PAGE {
      assert x in multiset(q);
    }
    LowerBound(pages);
    forall t | 1 <= t <= PAGE ensures Num(f, t) == |b[t]| {
      NumOfMultiset(q, f, t);
      QueueCounts(b, t);
    }
    PackCount(b);
  }

  /** Three-grain items waste a grain a page: as many of them as a superblock has pages need them all,
      though they fill only three quarters of its grains. */
  lemma ThreesWasteGrains(b: Buckets)
    requires BucketsOk(b) && b[1] == [] && b[2] == [] && b[4] == []
    ensures |Pack(b)| == |b[3]| && (b[3] != [] ==> 3 * |b[3]| < PAGE * |Pack(b)|)
  {
    PackCount(b);
  }
}
