/**
 Data pages: allocation, single-stream garbage collection and the placing of a full write buffer.
 A collection reads the victim's pages, packs the surviving items into the reserve superblock,
 redirects their mapping slots, trims the victim and swaps the roles of victim and reserve.
 */
module DataGc {
  import opened Common
  import opened Counting
  import opened BlockManager
  import opened TransPages
  import opened Packing
  import opened Items

  // ----- what a collection has gathered -----

  ghost function Lpas(got: seq<Item>): set<nat> { set x | x in got :: x.lpa }

  // The item is the one slot `x.lpa` maps, in superblock `v`, with its length.
  ghost predicate IsItemOf(table: seq<Pte>, oob: seq<Oob>, v: nat, x: Item) {
    && x.lpa < |table| && table[x.lpa].ppa < |oob| <= NIL
    && SblkOf(table[x.lpa].ppa) == v && oob[table[x.lpa].ppa].length == x.len && 1 <= x.len <= PAGE
  }

  ghost predicate GotOk(table: seq<Pte>, oob: seq<Oob>, v: nat, got: seq<Item>) {
    && (forall k :: 0 <= k < |got| ==> IsItemOf(table, oob, v, got[k]))
    && (forall i, j :: 0 <= i < j < |got| ==> got[i].lpa != got[j].lpa)
  }

  // An item to be copied: of one to four grains, labelled with a slot of the table.
  ghost predicate ItemFits(table: seq<Pte>, x: Item) { x.lpa < |table| && 1 <= x.len <= PAGE }

  // What is known of the gathered items; all of `GotOk` when the victim is `safe`.
  ghost predicate GotPart(safe: bool, table: seq<Pte>, oob: seq<Oob>, v: nat, got: seq<Item>) {
    (forall x :: x in got ==> ItemFits(table, x)) && (safe ==> GotOk(table, oob, v, got))
  }

  function Push(b: Buckets, x: Item): (b': Buckets)
    requires BucketsOk(b) && 1 <= x.len <= PAGE
    ensures BucketsOk(b') && Waiting(b') == Waiting(b) + multiset{x} && Total(b') == Total(b) + 1
  {
    b[x.len := b[x.len] + [x]]
  }

  lemma NothingWaits()
    ensures Waiting([[], [], [], [], []]) == multiset{} && Flat<Item>([]) == [] && Grains([]) == 0
  {
  }

  lemma NothingGot(table: seq<Pte>, oob: seq<Oob>, v: nat)
    ensures GotOk(table, oob, v, []) && GotPart(true, table, oob, v, []) && Lpas([]) == {}
  {
  }

  lemma GotMore(table: seq<Pte>, oob: seq<Oob>, v: nat, got: seq<Item>, x: Item)
    requires GotOk(table, oob, v, got) && IsItemOf(table, oob, v, x) && x.lpa !in Lpas(got)
    ensures GotOk(table, oob, v, got + [x]) && Lpas(got + [x]) == Lpas(got) + {x.lpa}
  {
    var g' := got + [x];
    forall i, j | 0 <= i < j < |g'| ensures g'[i].lpa != g'[j].lpa {
      assert got[i] in got;
    }
    assert forall y :: y in g' <==> y in got || y == x;
  }

  lemma GotPartMore(table: seq<Pte>, oob: seq<Oob>, v: nat, got: seq<Item>, x: Item)
    requires GotPart(false, table, oob, v, got) && ItemFits(table, x)
    ensures GotPart(false, table, oob, v, got + [x])
  {
  }

  lemma GotPartHalves(safe: bool, table: seq<Pte>, oob: seq<Oob>, v: nat, got: seq<Item>)
    ensures GotPart(safe, table, oob, v, got) <==>
            GotPart(false, table, oob, v, got) && (safe ==> GotOk(table, oob, v, got))
  {
  }

  lemma {:induction false} FlatAppend(pages: seq<seq<Item>>, page: seq<Item>)
    ensures Flat(pages + [page]) == Flat(pages) + page
  {
    if pages == [] {
      assert pages + [page] == [page];
    } else {
      assert (pages + [page])[1..] == pages[1..] + [page];
      FlatAppend(pages[1..], page);
    }
  }

  lemma {:induction false} GrainsAppend(page: seq<Item>, x: Item)
    ensures Grains(page + [x]) == Grains(page) + x.len
  {
    if page == [] {
      assert page + [x] == [x];
    } else {
      assert (page + [x])[1..] == page[1..] + [x];
      GrainsAppend(page[1..], x);
    }
  }

  // ----- what packing has written -----

  // The label an item is written with: its slot when it is copied, 0 when a batch places it.
  function Label(batch: bool, y: Item): Oob { Oob(false, if batch then 0 else y.lpa, y.len) }

  // Node `x` is the new place, outside superblock `v`, of item `y`.
  ghost predicate IsPlaceOf(oob: seq<Oob>, placed: set<nat>, v: int, batch: bool, x: Node, y: Item) {
    && x.lpa == y.lpa && x.ppa in placed && x.ppa < |oob| && SblkOf(x.ppa) != v
    && oob[x.ppa] == Label(batch, y)
  }

  ghost predicate NodesOk(oob: seq<Oob>, placed: set<nat>, v: int, batch: bool, nodes: seq<Node>, out: seq<Item>) {
    && |nodes| == |out| && DistinctPlaces(nodes)
    && forall k :: 0 <= k < |nodes| ==> IsPlaceOf(oob, placed, v, batch, nodes[k], out[k])
  }

  ghost predicate DistinctPlaces(nodes: seq<Node>) {
    forall i, j :: 0 <= i < j < |nodes| ==> nodes[i].ppa != nodes[j].ppa
  }

  // Outside superblock `r` nothing has changed.
  ghost predicate SameElsewhere(valid: seq<bool>, oob: seq<Oob>, valid0: seq<bool>, oob0: seq<Oob>, r: nat) {
    && |valid| == |valid0| == |oob| == |oob0|
    && forall g :: 0 <= g < |valid| && SblkOf(g) != r ==> valid[g] == valid0[g] && oob[g] == oob0[g]
  }

  // What is in `placed` beyond `placed0` lies on the pages `[lo, hi)`.
  ghost predicate NewOn(placed0: set<nat>, placed: set<nat>, lo: int, hi: int) {
    forall q :: q in placed && q !in placed0 ==> lo * PAGE <= q < hi * PAGE
  }

  ghost function Ppas(nodes: seq<Node>): set<nat> { set x | x in nodes :: x.ppa }

  lemma NoNodes(oob: seq<Oob>, placed: set<nat>, v: int, batch: bool)
    ensures NodesOk(oob, placed, v, batch, [], []) && Ppas([]) == {}
  {
  }

  lemma AllPlaced(b: Buckets, oob: seq<Oob>, placed: set<nat>, v: int, batch: bool, nodes: seq<Node>, out: seq<Item>)
    requires BucketsOk(b) && Total(b) == 0 && NodesOk(oob, placed, v, batch, nodes, out)
    ensures Waiting(b) == multiset{} && Pack(b) == [] && Ppas(nodes) <= placed
  {
    assert b[1] == [] && b[2] == [] && b[3] == [] && b[4] == [];
  }

  lemma NodesMore(oob: seq<Oob>, placed: set<nat>, v: int, batch: bool, nodes: seq<Node>, out: seq<Item>, q: nat,
                  y: Item)
    requires NodesOk(oob, placed, v, batch, nodes, out) && q !in placed && q < |oob| && SblkOf(q) != v
    ensures NodesOk(oob[q := Label(batch, y)], placed + {q}, v, batch, nodes + [Node(y.lpa, q)], out + [y])
    ensures Ppas(nodes + [Node(y.lpa, q)]) == Ppas(nodes) + {q}
  {
    assert forall x :: x in nodes + [Node(y.lpa, q)] <==> x in nodes || x == Node(y.lpa, q);
  }

  // Records of placed items unchanged, the places stay right.
  lemma NodesStay(oob: seq<Oob>, oob': seq<Oob>, placed: set<nat>, v: int, batch: bool, nodes: seq<Node>,
                  out: seq<Item>)
    requires NodesOk(oob, placed, v, batch, nodes, out) && |oob'| == |oob|
    requires forall q :: q in placed && q < |oob| ==> oob'[q] == oob[q]
    ensures NodesOk(oob', placed, v, batch, nodes, out)
  {
  }

  // With everything placed, the nodes are one per gathered item.
  lemma NodesCover(got: seq<Item>, out: seq<Item>, nodes: seq<Node>)
    requires forall i, j :: 0 <= i < j < |got| ==> got[i].lpa != got[j].lpa
    requires multiset(out) == multiset(got) && |nodes| == |out|
    requires forall k :: 0 <= k < |nodes| ==> nodes[k].lpa == out[k].lpa
    ensures DistinctSlots(nodes)
    ensures forall x :: x in nodes ==> x.lpa in Lpas(got)
    ensures forall l :: l in Lpas(got) ==> exists x :: x in nodes && x.lpa == l
  {
    forall k | 0 <= k < |out| ensures out[k] in got { assert out[k] in multiset(got); }
    forall l | l in Lpas(got) ensures exists x :: x in nodes && x.lpa == l {
      var y :| y in got && y.lpa == l;
      assert y in multiset(out);
      var k :| 0 <= k < |out| && out[k] == y;
      assert nodes[k] in nodes;
    }
    forall i, j | 0 <= i < j < |nodes| ensures nodes[i].lpa != nodes[j].lpa {
      if out[i].lpa == out[j].lpa {
        assert out[i] == out[j] by {
          var a :| 0 <= a < |got| && got[a] == out[i];
          var c :| 0 <= c < |got| && got[c] == out[j];
        }
        TwiceInOut(out, i, j);
        OnceInGot(got, out[i]);
      }
    }
  }

  lemma TwiceInOut(out: seq<Item>, i: nat, j: nat)
    requires i < j < |out| && out[i] == out[j]
    ensures multiset(out)[out[i]] >= 2
  {
    assert out == out[..i] + [out[i]] + out[i + 1..j] + [out[j]] + out[j + 1..];
  }

  lemma {:induction false} OnceInGot(got: seq<Item>, y: Item)
    requires forall i, j :: 0 <= i < j < |got| ==> got[i].lpa != got[j].lpa
    ensures multiset(got)[y] <= 1
  {
    if got != [] {
      assert got == [got[0]] + got[1..];
      OnceInGot(got[1..], y);
      assert y == got[0] ==> y !in got[1..];
      assert y in got[1..] <==> y in multiset(got[1..]);
    }
  }

  // ----- what a collection leaves as it was -----

  // With each slot moved once, it points to its own node.
  lemma MovedOnce(e: Pte, e0: Pte, nodes: seq<Node>, x: Node)
    requires DistinctSlots(nodes) && x in nodes && MovedTo(e, e0, nodes, x.lpa)
    ensures e == e0.(ppa := x.ppa)
  {
    var y :| y in nodes && y.lpa == x.lpa && e == e0.(ppa := y.ppa);
    var i :| 0 <= i < |nodes| && nodes[i] == x;
    var j :| 0 <= j < |nodes| && nodes[j] == y;
    assert !(i < j) && !(j < i);
  }

  // Slots of gathered items point to the copies, all others are untouched.
  ghost predicate Redirected(table: seq<Pte>, table0: seq<Pte>, nodes: seq<Node>) {
    && |table| == |table0|
    && (forall x :: x in nodes ==> x.lpa < |table| && table[x.lpa] == table0[x.lpa].(ppa := x.ppa))
    && (forall l :: 0 <= l < |table| && (forall x :: x in nodes ==> x.lpa != l) ==> table[l] == table0[l])
  }

  lemma CopyHasLength(table0: seq<Pte>, oob0: seq<Oob>, oob: seq<Oob>, placed: set<nat>, v: nat,
                      got: seq<Item>, out: seq<Item>, nodes: seq<Node>, x: Node)
    requires GotOk(table0, oob0, v, got) && NodesOk(oob, placed, v, false, nodes, out) && multiset(out) == multiset(got)
    requires x in nodes && |oob| <= NIL
    ensures x.lpa < |table0| && table0[x.lpa].ppa < |oob0| && table0[x.lpa].ppa < NIL && x.ppa < |oob|
    ensures oob[x.ppa].length == oob0[table0[x.lpa].ppa].length && SblkOf(x.ppa) != v
  {
    var k :| 0 <= k < |nodes| && nodes[k] == x;
    assert IsPlaceOf(oob, placed, v, false, nodes[k], out[k]);
    assert out[k] in multiset(got);
    var a :| 0 <= a < |got| && got[a] == out[k];
    assert IsItemOf(table0, oob0, v, got[a]);
  }

  /** Redirecting the gathered slots to the copies keeps every slot's meaning, and no slot is left
      pointing into the victim. */
  lemma RedirectKeepsMeaning(table0: seq<Pte>, oob0: seq<Oob>, table: seq<Pte>, oob: seq<Oob>,
                             placed: set<nat>, v: nat, r: nat, got: seq<Item>, out: seq<Item>, nodes: seq<Node>)
    requires GotOk(table0, oob0, v, got) && NodesOk(oob, placed, v, false, nodes, out) && multiset(out) == multiset(got)
    requires |oob| == |oob0| <= NIL && v != r && Redirected(table, table0, nodes)
    requires forall g :: 0 <= g < |oob| && SblkOf(g) != r ==> oob[g] == oob0[g]
    requires forall l :: 0 <= l < |table0| && l !in Lpas(got) && table0[l].ppa != NIL ==>
               table0[l].ppa < |oob| && SblkOf(table0[l].ppa) != v && SblkOf(table0[l].ppa) != r
    requires forall l :: l in Lpas(got) ==> exists x :: x in nodes && x.lpa == l
    requires forall x :: x in nodes ==> x.lpa in Lpas(got)
    ensures SameMeaning(table, oob, table0, oob0)
    ensures forall l :: 0 <= l < |table| && table[l].ppa != NIL ==> SblkOf(table[l].ppa) != v
  {
    forall l | 0 <= l < |table|
      ensures SameSlot(table[l], oob, table0[l], oob0)
      ensures table[l].ppa != NIL ==> SblkOf(table[l].ppa) != v
    {
      if l in Lpas(got) {
        var x :| x in nodes && x.lpa == l;
        CopyHasLength(table0, oob0, oob, placed, v, got, out, nodes, x);
      } else {
        assert table[l] == table0[l];
      }
    }
  }

  // A mapped slot not gathered from victim `v` points neither into `v` nor into the empty reserve `r`.
  ghost predicate PointsElsewhere(table: seq<Pte>, moving: set<nat>, size: nat, v: nat, r: nat) {
    forall l :: 0 <= l < |table| && l !in moving && table[l].ppa != NIL ==>
      table[l].ppa < size && SblkOf(table[l].ppa) != v && SblkOf(table[l].ppa) != r
  }

  lemma OthersPointElsewhere(table: seq<Pte>, valid: seq<bool>, oob: seq<Oob>, starts: set<nat>, placed: set<nat>,
                             moving: set<nat>, wp: seq<nat>, v: nat, r: nat)
    requires LiveOk(starts, valid, oob) && OwnedOk(table, oob, starts, placed, moving)
    requires BelowPointers(valid, wp) && r < |wp| && wp[r] == 0
    requires forall g :: v * GPS <= g < (v + 1) * GPS && g < |valid| ==> !valid[g]
    ensures PointsElsewhere(table, moving, |oob|, v, r)
  {
    forall l | 0 <= l < |table| && l !in moving && table[l].ppa != NIL
      ensures table[l].ppa < |oob| && SblkOf(table[l].ppa) != v && SblkOf(table[l].ppa) != r
    {
      assert Intact(valid, oob, table[l].ppa);
    }
  }

  lemma MeaningAfterTrim(table: seq<Pte>, oob: seq<Oob>, table0: seq<Pte>, oob0: seq<Oob>, v: nat)
    requires SameMeaning(table, oob, table0, oob0)
    requires forall l :: 0 <= l < |table| && table[l].ppa != NIL ==> SblkOf(table[l].ppa) != v
    ensures SameMeaning(table, Fill(oob, v * GPS, (v + 1) * GPS, CLEARED), table0, oob0)
  {
    var oob' := Fill(oob, v * GPS, (v + 1) * GPS, CLEARED);
    forall l | 0 <= l < |table| ensures SameSlot(table[l], oob', table0[l], oob0) {
      assert SameSlot(table[l], oob, table0[l], oob0);
    }
  }

  // What erasing the victim's records leaves, provided its grains are invalid: all of it if the batch had
  // nothing there.
  lemma AfterErasing(table: seq<Pte>, table0: seq<Pte>, valid: seq<bool>, oob: seq<Oob>, oob0: seq<Oob>,
                     starts: set<nat>, placed: set<nat>, v: nat)
    requires LiveOk(starts, valid, oob) && forall g :: v * GPS <= g < (v + 1) * GPS && g < |valid| ==> !valid[g]
    requires Clear(placed, v) ==> OwnedOk(table, oob, starts, placed, {}) && SameMeaning(table, oob, table0, oob0)
    requires Clear(placed, v) ==> forall l :: 0 <= l < |table| && table[l].ppa != NIL ==> SblkOf(table[l].ppa) != v
    ensures var oob1 := Fill(oob, v * GPS, (v + 1) * GPS, CLEARED);
      && LiveOk(starts, valid, oob1) && (OwnedOk(table, oob1, starts, placed, {}) <==> Clear(placed, v))
      && (Clear(placed, v) ==> SameMeaning(table, oob1, table0, oob0))
  {
    hide LiveOk, OwnedOk, SameMeaning;
    ForgetRecords(starts, valid, oob, v * GPS, (v + 1) * GPS);
    var oob1 := Fill(oob, v * GPS, (v + 1) * GPS, CLEARED);
    if Clear(placed, v) {
      OwnedSameRecords(table, oob, oob1, starts, placed, {});
      MeaningAfterTrim(table, oob, table0, oob0, v);
    } else {
      var q :| q in placed && SblkOf(q) == v;
      PlacedNowhere(table, valid, oob1, starts, placed, q, v);
    }
  }

  lemma NodesFacts(oob: seq<Oob>, placed: set<nat>, v: int, nodes: seq<Node>, out: seq<Item>)
    requires NodesOk(oob, placed, v, false, nodes, out)
    ensures forall k :: 0 <= k < |nodes| ==> nodes[k].lpa == out[k].lpa
    ensures forall x :: x in nodes ==> x.ppa in Ppas(nodes) && x.ppa < |oob| && oob[x.ppa].lpa == x.lpa
    ensures |nodes| == |out|
  {
    forall x | x in nodes ensures x.ppa < |oob| && oob[x.ppa].lpa == x.lpa {
      var k :| 0 <= k < |nodes| && nodes[k] == x;
      assert IsPlaceOf(oob, placed, v, false, nodes[k], out[k]);
    }
  }

  // The places of copied items are for slots of the table.
  lemma NodesInTable(table: seq<Pte>, oob0: seq<Oob>, v: nat, got: seq<Item>, out: seq<Item>, nodes: seq<Node>)
    requires GotPart(false, table, oob0, v, got) && multiset(out) == multiset(got) && |nodes| == |out|
    requires forall k :: 0 <= k < |nodes| ==> nodes[k].lpa == out[k].lpa
    ensures forall x :: x in nodes ==> x.lpa < |table|
  {
    forall x | x in nodes ensures x.lpa < |table| {
      var k :| 0 <= k < |nodes| && nodes[k] == x;
      assert out[k] in multiset(got);
      assert ItemFits(table, out[k]);
    }
  }

  lemma GotFacts(table: seq<Pte>, oob: seq<Oob>, v: nat, got: seq<Item>)
    requires GotOk(table, oob, v, got)
    ensures forall i, j :: 0 <= i < j < |got| ==> got[i].lpa != got[j].lpa
    ensures forall l :: l in Lpas(got) ==> l < |table|
  {
    forall l | l in Lpas(got) ensures l < |table| {
      var y :| y in got && y.lpa == l;
      var k :| 0 <= k < |got| && got[k] == y;
      assert IsItemOf(table, oob, v, got[k]);
    }
  }

  /** `b` holds exactly the items that mapped slots keep in superblock `v`. */
  ghost predicate HoldsItemsOf(table: seq<Pte>, oob: seq<Oob>, v: nat, b: Buckets) {
    && BucketsOk(b)
    && exists got ::
        && GotOk(table, oob, v, got) && Waiting(b) == multiset(got)
        && forall l :: 0 <= l < |table| && table[l].ppa != NIL && SblkOf(table[l].ppa) == v ==> l in Lpas(got)
  }

  lemma GatheredAll(table: seq<Pte>, oob: seq<Oob>, v: nat, r: nat, b: Buckets, got: seq<Item>)
    requires BucketsOk(b) && GotOk(table, oob, v, got) && Waiting(b) == multiset(got)
    requires PointsElsewhere(table, Lpas(got), |oob|, v, r)
    ensures HoldsItemsOf(table, oob, v, b)
  {
  }

  lemma PlacedNotInReserve(table: seq<Pte>, valid: seq<bool>, oob: seq<Oob>, starts: set<nat>, placed: set<nat>,
                           wp: seq<nat>, r: nat)
    requires LiveOk(starts, valid, oob) && OwnedOk(table, oob, starts, placed, {})
    requires BelowPointers(valid, wp) && r < |wp| && wp[r] == 0
    ensures forall q :: q in placed ==> q < |oob| && SblkOf(q) != r
  {
    forall q | q in placed ensures q < |oob| && SblkOf(q) != r {
      assert Intact(valid, oob, q);
    }
  }

  lemma MeaningRefl(table: seq<Pte>, valid: seq<bool>, oob: seq<Oob>, starts: set<nat>, placed: set<nat>)
    requires LiveOk(starts, valid, oob) && OwnedOk(table, oob, starts, placed, {})
    ensures SameMeaning(table, oob, table, oob)
  {
    forall l | 0 <= l < |table| ensures SameSlot(table[l], oob, table[l], oob) {
      if table[l].ppa != NIL { assert Intact(valid, oob, table[l].ppa); }
    }
  }

  lemma MeaningSize(table: seq<Pte>, oob: seq<Oob>, table0: seq<Pte>, oob0: seq<Oob>)
    requires SameMeaning(table, oob, table0, oob0)
    ensures |table| == |table0| && |oob| == |oob0|
  {
  }

  lemma MeaningTrans(table: seq<Pte>, oob: seq<Oob>, table1: seq<Pte>, oob1: seq<Oob>, table0: seq<Pte>, oob0: seq<Oob>)
    requires SameMeaning(table, oob, table1, oob1) && SameMeaning(table1, oob1, table0, oob0)
    ensures SameMeaning(table, oob, table0, oob0)
  {
    forall l | 0 <= l < |table| ensures SameSlot(table[l], oob, table0[l], oob0) {
      assert SameSlot(table[l], oob, table1[l], oob1) && SameSlot(table1[l], oob1, table0[l], oob0);
    }
  }

  // How placing a batch ends: every item placed; an abort; a superblock run past; or a collection due
  // that would take grains of this very batch, which nothing maps yet.
  datatype PlaceResult = Placed(nodes: seq<Node>) | PlaceAborted | RanPastEnd | BatchAtRisk

  ghost function BatchItems(lens: seq<nat>): seq<Item> { seq(|lens|, i requires 0 <= i < |lens| => Item(i, lens[i])) }

  // Item `x.lpa` of the batch lies at `x.ppa`, labelled with its length and no slot.
  ghost predicate IsBatchPlace(oob: seq<Oob>, lens: seq<nat>, x: Node) {
    x.lpa < |lens| && x.ppa < |oob| && oob[x.ppa] == Oob(false, 0, lens[x.lpa])
  }

  lemma BatchPrefix(lens: seq<nat>, i: nat)
    requires i <= |lens|
    ensures i == 0 ==> BatchItems(lens[..i]) == []
    ensures i < |lens| ==> BatchItems(lens[..i + 1]) == BatchItems(lens[..i]) + [Item(i, lens[i])]
  {
  }

  // Position `i` of the batch has a node.
  ghost predicate HasNode(nodes: seq<Node>, i: nat) { exists x :: x in nodes && x.lpa == i }

  // A node for every position leaves nothing of `placed` out.
  lemma NodesArePlaced(oob: seq<Oob>, placed: set<nat>, v: int, batch: bool, nodes: seq<Node>, out: seq<Item>)
    requires NodesOk(oob, placed, v, batch, nodes, out) && placed - Ppas(nodes) == {}
    ensures placed == Ppas(nodes)
  {
    forall q | q in Ppas(nodes) ensures q in placed {
      var k :| 0 <= k < |nodes| && nodes[k].ppa == q;
      assert IsPlaceOf(oob, placed, v, batch, nodes[k], out[k]);
    }
    forall q | q in placed ensures q in Ppas(nodes) { assert q in placed - Ppas(nodes) || q in Ppas(nodes); }
  }

  // Writing records of new items only, a batch leaves every slot's meaning alone.
  lemma MeaningKept(table: seq<Pte>, valid: seq<bool>, oob: seq<Oob>, oob': seq<Oob>, starts: set<nat>,
                    placed: set<nat>,
                    table0: seq<Pte>, oob0: seq<Oob>)
    requires LiveOk(starts, valid, oob) && OwnedOk(table, oob, starts, placed, {})
    requires SameMeaning(table, oob, table0, oob0) && |oob'| == |oob|
    requires forall p :: p in starts && p < |oob| ==> oob'[p] == oob[p]
    ensures SameMeaning(table, oob', table0, oob0)
  {
    forall l | 0 <= l < |table| ensures SameSlot(table[l], oob', table0[l], oob0) {
      assert SameSlot(table[l], oob, table0[l], oob0);
    }
  }

  lemma BatchCovered(oob: seq<Oob>, placed: set<nat>, lens: seq<nat>, nodes: seq<Node>, out: seq<Item>)
    requires NodesOk(oob, placed, -1, true, nodes, out) && multiset(out) == multiset(BatchItems(lens))
    ensures DistinctSlots(nodes) && DistinctPlaces(nodes) && |nodes| == |lens|
    ensures forall x :: x in nodes ==> IsBatchPlace(oob, lens, x)
    ensures forall i :: 0 <= i < |lens| ==> HasNode(nodes, i)
  {
    var got := BatchItems(lens);
    NodesCover(got, out, nodes);
    assert |multiset(out)| == |out| && |multiset(got)| == |got|;
    forall x | x in nodes ensures IsBatchPlace(oob, lens, x) {
      var k :| 0 <= k < |nodes| && nodes[k] == x;
      assert IsPlaceOf(oob, placed, -1, true, nodes[k], out[k]);
      assert out[k] in multiset(got);
      var a :| 0 <= a < |got| && got[a] == out[k];
    }
    forall i | 0 <= i < |lens| ensures HasNode(nodes, i) {
      assert got[i] in got;
      assert i in Lpas(got);
    }
  }

  lemma PackNext(b: Buckets)
    requires BucketsOk(b)
    ensures |Pack(b)| == if Total(b) > 0 then 1 + |Pack(FillPage(b, PAGE).1)| else 0
  {
    if Total(b) > 0 { FirstItem(b); }
  }

  // A batch in its buckets takes as many pages as its lengths need.
  lemma PagesOfBatch(lens: seq<nat>, b: Buckets)
    requires BucketsOk(b) && Waiting(b) == multiset(BatchItems(lens))
    ensures |Pack(b)| == NeededOf(BatchItems(lens))
  {
    hide Needed, BatchItems, Pack, Num;
    PackCount(b);
    assert multiset(Queue(b)) == Waiting(b);
    forall t | 1 <= t <= PAGE ensures |b[t]| == Num(BatchItems(lens), t) {
      QueueCounts(b, t);
      NumOfMultiset(Queue(b), BatchItems(lens), t);
    }
  }

  // What `dp_alloc` comes back with: a page; the page behind a superblock it has run past; or not at all.
  datatype DpResult = Page(p: nat) | PastEnd(p: nat) | Aborted

  // `k` pages have been allocated, all in superblock `act`: the active one, or an empty one where that was
  // full.
  ghost predicate TakenFrom(wp0: seq<nat>, act0: int, wp: seq<nat>, act: int, k: nat) {
    && -1 <= act0 < |wp0| && 0 <= act < |wp0| && wp == wp0[act := wp0[act] + k]
    && if act0 == -1 || wp0[act0] >= PPS then act != act0 && wp0[act] == 0 else act == act0
  }

  // What the first `k` pages of a batch have taken, as long as the superblock has room for them.
  ghost predicate OnOne(wp0: seq<nat>, act0: int, wp: seq<nat>, act: int, placed: set<nat>, k: int, room: int) {
    && k >= 0 && (k == 0 ==> wp == wp0 && act == act0 && placed == {})
    && (0 < k <= room ==>
          TakenFrom(wp0, act0, wp, act, k) && NewOn({}, placed, act * PPS + wp0[act], act * PPS + wp[act]))
  }

  lemma OnOneMore(wp0: seq<nat>, act0: int, wp1: seq<nat>, act1: int, placed1: set<nat>, wp: seq<nat>, act: int,
                  placed: set<nat>, k: int, room: int)
    requires OnOne(wp0, act0, wp1, act1, placed1, k, room) && TakenFrom(wp1, act1, wp, act, 1)
    requires NewOn(placed1, placed, act * PPS + wp[act] - 1, act * PPS + wp[act])
    requires room == if 0 <= act0 < |wp0| && wp0[act0] < PPS then PPS - wp0[act0] else PPS
    ensures OnOne(wp0, act0, wp, act, placed, k + 1, room)
  {
    if 0 < k < room { TakenMore(wp0, act0, wp1, act1, wp, act, k, 1); }
  }

  lemma TakenMore(wp0: seq<nat>, act0: int, wp1: seq<nat>, act1: int, wp: seq<nat>, act: int, k: nat, j: nat)
    requires TakenFrom(wp0, act0, wp1, act1, k) && k > 0 && wp1[act1] < PPS && TakenFrom(wp1, act1, wp, act, j)
    ensures TakenFrom(wp0, act0, wp, act, k + j) && act == act1
  {
  }

  // None of the grains `placed` lies in superblock `v`.
  ghost predicate Clear(placed: set<nat>, v: nat) { forall q :: q in placed ==> SblkOf(q) != v }

  // None lies in the superblock a collection picks.
  ghost predicate SafeFor(wp: seq<nat>, cnt: seq<int>, rsv: nat, placed: set<nat>) {
    forall t: nat :: IsTarget(wp, cnt, rsv, t) ==> Clear(placed, t)
  }

  lemma SafeIsClear(wp: seq<nat>, cnt: seq<int>, rsv: nat, placed: set<nat>, v: nat)
    requires IsTarget(wp, cnt, rsv, v)
    ensures SafeFor(wp, cnt, rsv, placed) <==> Clear(placed, v)
  {
    hide IsTarget, Clear;
    forall t: nat | IsTarget(wp, cnt, rsv, t) && Clear(placed, v) ensures Clear(placed, t) {
      TargetUnique(wp, cnt, rsv, t, v);
    }
  }

  ghost predicate ContainsValid(valid: seq<bool>, p: nat) {
    exists g :: 4 * p <= g < 4 * p + 4 && g < |valid| && valid[g]
  }

  /** The pages of superblock `v` with a valid grain, and no others, in order. */
  ghost predicate IsReadList(valid: seq<bool>, v: nat, pages: seq<nat>) {
    && (forall i :: 0 <= i < |pages| ==> v * PPS <= pages[i] < (v + 1) * PPS)
    && (forall i, j :: 0 <= i < j < |pages| ==> pages[i] < pages[j])
    && forall p: nat :: v * PPS <= p < (v + 1) * PPS ==> (p in pages <==> ContainsValid(valid, p))
  }

  // Superblock `v` has `n` pages to read.
  ghost predicate PagesToRead(valid: seq<bool>, v: nat, n: nat) {
    exists pages :: IsReadList(valid, v, pages) && |pages| == n
  }

  // Every valid grain is on a page read.
  lemma ReadListCovers(valid: seq<bool>, v: nat, pages: seq<nat>)
    requires IsReadList(valid, v, pages)
    ensures forall g: nat :: v * GPS <= g < (v + 1) * GPS && g < |valid| && valid[g] ==> g / 4 in pages
  {
    forall g: nat | v * GPS <= g < (v + 1) * GPS && g < |valid| && valid[g] ensures g / 4 in pages {
      assert ContainsValid(valid, g / 4);
    }
  }

  lemma GrainsOfPage(p: nat, offset: nat)
    requires offset < 4
    ensures forall g :: 4 * p <= g < 4 * p + 4 ==>
      SblkOf(g) == p / PPS && g - SblkOf(g) * GPS < (p % PPS + 1) * GRAIN_PER_PAGE
    ensures (4 * p + offset) % 4 == offset
  {
  }

  class Store {
    const bm: Manager
    const cache: Cache
    var dActive: int
    var dReserve: nat
    // First grains of the live items, and of those placed by the running batch and not yet mapped.
    ghost var starts: set<nat>
    ghost var placed: set<nat>

    ghost predicate Shape()
      reads this, bm, cache, cache.bm
    {
      && bm != cache.bm && bm.Valid() && 3 <= bm.n && bm.n * GPS <= NIL && dReserve == bm.rsv
      && cache.Inv() && cache.DirtyResident()
    }

    /** Layout and ownership of all items; see `LiveOk` and `OwnedOk`. */
    ghost predicate ItemsOk(moving: set<nat>)
      reads this, bm, cache
    {
      LiveOk(starts, bm.valid, bm.oob) && OwnedOk(cache.table, bm.oob, starts, placed, moving)
    }

    // The part of that a collection keeps whatever its victim, and all of it when the victim is `safe`.
    ghost predicate Layout(safe: bool, moving: set<nat>)
      reads this, bm, cache
    {
      && LiveOk(starts, bm.valid, bm.oob) && placed <= starts && Labelled(cache.table, bm.oob, starts)
      && (safe ==> OwnedOk(cache.table, bm.oob, starts, placed, moving))
    }

    lemma LayoutIs(moving: set<nat>)
      ensures Layout(true, moving) <==> ItemsOk(moving)
    {
      hide LiveOk, OwnedOk, Labelled;
      if ItemsOk(moving) { OwnedIsLabelled(cache.table, bm.oob, starts, placed, moving); }
    }

    ghost predicate Inv()
      reads this, bm, cache, cache.bm
    {
      Shape() && AllocOk(bm.wp, bm.freeCnt, bm.cursor, bm.rsv, dActive) && ItemsOk({})
    }

    // An empty store over fresh partitions of `n` data and `t` MAP superblocks.
    constructor (slots: nat, n: nat, t: nat)
      requires 3 <= n && n * GPS <= NIL && 3 <= t && t * PPS <= NIL
      ensures Inv() && fresh(bm) && fresh(cache) && fresh(cache.bm) && starts == placed == {}
      ensures |cache.table| == slots * EPP && forall l :: 0 <= l < |cache.table| ==> cache.table[l].ppa == NIL
      ensures cache.tppa == seq(slots, _ => NIL) && cache.dirty == cache.resident == seq(slots, _ => false)
      ensures bm.n == n && dActive == -1 && FreePages() == (n - 1) * PPS && !Due()
      ensures cache.Roomy() <==> slots <= (t - 1) * PPS
    {
      bm := new Manager(n);
      cache := new Cache(slots, t);
      dActive, dReserve, starts, placed := -1, 0, {}, {};
      new;
      dReserve := bm.rsv;
    }

    // `contains_valid_grain`.
    method ContainsValidGrain(p: nat) returns (r: bool)
      requires 4 * p + 3 < |bm.valid|
      ensures r <==> ContainsValid(bm.valid, p)
    {
      for i := 0 to GRAIN_PER_PAGE
        invariant forall g :: 4 * p <= g < 4 * p + i ==> !bm.valid[g]
      {
        if bm.valid[4 * p + i] { return true; }
      }
      r := false;
    }

    // The pages of superblock `v` that contain valid grains, in order.
    method BulkReadPages(v: nat) returns (pages: seq<nat>)
      requires bm.Valid() && v < bm.n
      ensures |pages| <= PPS && IsReadList(bm.valid, v, pages)
    {
      hide CountsOk, BelowPointers, ContainsValid;
      pages := [];
      for i := 0 to PPS
        invariant |pages| <= i && forall k :: 0 <= k < |pages| ==> v * PPS <= pages[k] < v * PPS + i
        invariant forall k, j :: 0 <= k < j < |pages| ==> pages[k] < pages[j]
        invariant forall p: nat :: v * PPS <= p < v * PPS + i ==> (p in pages <==> ContainsValid(bm.valid, p))
      {
        var r := ContainsValidGrain(v * PPS + i);
        if r { pages := pages + [v * PPS + i]; }
      }
    }

    // One valid item of the victim: its grains are invalidated and it waits in its bucket.
    method TakeItem(g: nat, b: Buckets, ghost v: nat, ghost got: seq<Item>, ghost safe: bool)
      returns (b': Buckets, x: Item)
      requires bm.Valid() && Layout(safe, Lpas(got)) && |bm.valid| <= NIL
      requires GotPart(safe, cache.table, bm.oob, v, got) && BucketsOk(b)
      requires g in starts && SblkOf(g) == v && (safe ==> g !in placed)
      modifies this`starts, this`placed, bm`valid, bm`validCnt
      ensures bm.Valid() && Layout(safe, Lpas(got + [x])) && GotPart(safe, cache.table, bm.oob, v, got + [x])
      ensures BucketsOk(b') && Waiting(b') == Waiting(b) + multiset{x}
      ensures 1 <= x.len && g % 4 + x.len <= 4 && bm.valid == Fill(old(bm.valid), g, g + x.len, false)
      ensures starts == old(starts) - {g} && placed == old(placed) - {g}
    {
      hide LiveOk, OwnedOk, GotOk, GotPart, CountsOk, BelowPointers;
      StartIsIntact(starts, bm.valid, bm.oob, g);
      var o := bm.oob[g];
      x := Item(o.lpa, o.length);
      GotPartHalves(safe, cache.table, bm.oob, v, got);
      GotPartMore(cache.table, bm.oob, v, got, x);
      if safe {
        TakeAway(cache.table, bm.oob, starts, placed, Lpas(got), g);
        GotMore(cache.table, bm.oob, v, got, x);
      }
      GotPartHalves(safe, cache.table, bm.oob, v, got + [x]);
      DropItem(starts, bm.valid, bm.oob, g);
      b' := Push(b, x);
      for i := 0 to o.length
        invariant bm.Valid() && bm.valid == Fill(old(bm.valid), g, g + i, false)
        invariant starts == old(starts) && placed == old(placed)
      {
        bm.InvalidateGrain(g + i);
      }
      starts, placed := starts - {g}, placed - {g};
      assert safe ==> placed == old(placed);
    }

    // One valid grain of a page: the item that starts there is taken.
    method TakeItemOfPage(p: nat, j: nat, b: Buckets, ghost v: nat, ghost got: seq<Item>, ghost items: seq<Item>,
                          ghost valid0: seq<bool>, ghost safe: bool)
      returns (b': Buckets, x: Item, ghost items': seq<Item>)
      requires bm.Valid() && Layout(safe, Lpas(got + items)) && |bm.valid| <= NIL
      requires GotPart(safe, cache.table, bm.oob, v, got + items) && BucketsOk(b)
      requires v * PPS <= p < (v + 1) * PPS && 4 * p + 3 < |bm.valid| && j < 4 && bm.valid[4 * p + j]
      requires j == 0 || !bm.valid[4 * p + j - 1]
      requires safe ==> Clear(placed, v)
      requires bm.valid == Fill(valid0, 4 * p, 4 * p + j, false)
      modifies this`starts, this`placed, bm`valid, bm`validCnt
      ensures bm.Valid() && Layout(safe, Lpas(got + items')) && GotPart(safe, cache.table, bm.oob, v, got + items')
      ensures BucketsOk(b') && Waiting(b') == Waiting(b) + multiset{x}
      ensures multiset(items') == multiset(items) + multiset{x}
      ensures 1 <= x.len && j + x.len <= 4 && Grains(items') == Grains(items) + x.len
      ensures bm.valid == Fill(valid0, 4 * p, 4 * p + j + x.len, false)
      ensures starts <= old(starts) && placed <= old(placed) && (safe ==> placed == old(placed))
    {
      hide LiveOk, OwnedOk, GotPart, Labelled, CountsOk, BelowPointers, Waiting, Grains;
      var g := 4 * p + j;
      ScanMeetsStart(starts, bm.valid, bm.oob, g);
      b', x := TakeItem(g, b, v, got + items, safe);
      GrainsAppend(items, x);
      assert got + items + [x] == got + (items + [x]);
      items' := items + [x];
    }

    /** One page of the victim, grain by grain, skipping over whole items. */
    method ScanPage(p: nat, b: Buckets, ghost v: nat, ghost got: seq<Item>, ghost safe: bool)
      returns (b': Buckets, ghost items: seq<Item>)
      requires bm.Valid() && Layout(safe, Lpas(got)) && |bm.valid| <= NIL
      requires GotPart(safe, cache.table, bm.oob, v, got) && BucketsOk(b)
      requires v * PPS <= p < (v + 1) * PPS && 4 * p + 3 < |bm.valid|
      requires safe ==> Clear(placed, v)
      modifies this`starts, this`placed, bm`valid, bm`validCnt
      ensures bm.Valid() && Layout(safe, Lpas(got + items)) && GotPart(safe, cache.table, bm.oob, v, got + items)
      ensures BucketsOk(b') && Waiting(b') == Waiting(b) + multiset(items) && Grains(items) <= PAGE
      ensures bm.valid == Fill(old(bm.valid), 4 * p, 4 * p + 4, false)
      ensures starts <= old(starts) && placed <= old(placed) && (safe ==> placed == old(placed))
    {
      hide LiveOk, OwnedOk, GotPart, Labelled, CountsOk, BelowPointers, Waiting;
      b', items := b, [];
      var j := 0;
      assert got + items == got;
      assert bm.valid == Fill(old(bm.valid), 4 * p, 4 * p, false);
      while j < GRAIN_PER_PAGE
        invariant 0 <= j <= 4 && bm.Valid() && Layout(safe, Lpas(got + items))
        invariant GotPart(safe, cache.table, bm.oob, v, got + items)
        invariant BucketsOk(b') && Waiting(b') == Waiting(b) + multiset(items) && Grains(items) <= j
        invariant bm.valid == Fill(old(bm.valid), 4 * p, 4 * p + j, false)
        invariant starts <= old(starts) && placed <= old(placed) && (safe ==> placed == old(placed))
      {
        if bm.valid[4 * p + j] {
          var x;
          b', x, items := TakeItemOfPage(p, j, b', v, got, items, old(bm.valid), safe);
          j := j + (x.len - 1);
        }
        j := j + 1;
      }
    }

    /** All pages read: every grain of the victim is invalid, its items wait in the buckets, and they
        came from at most as many pages as were read. */
    method CollectItems(pages: seq<nat>, ghost v: nat, ghost safe: bool)
      returns (b: Buckets, ghost got: seq<Item>, ghost arr: seq<seq<Item>>)
      requires bm.Valid() && Layout(safe, {}) && |bm.valid| <= NIL && v < bm.n
      requires safe ==> Clear(placed, v)
      requires forall i :: 0 <= i < |pages| ==> v * PPS <= pages[i] < (v + 1) * PPS
      requires forall g :: v * GPS <= g < (v + 1) * GPS && bm.valid[g] ==> g / 4 in pages
      modifies this`starts, this`placed, bm`valid, bm`validCnt
      ensures bm.Valid() && Layout(safe, Lpas(got)) && GotPart(safe, cache.table, bm.oob, v, got)
      ensures BucketsOk(b) && Waiting(b) == multiset(got)
      ensures |arr| == |pages| && Flat(arr) == got && forall a :: a in arr ==> Grains(a) <= PAGE
      ensures forall g :: v * GPS <= g < (v + 1) * GPS ==> !bm.valid[g]
      ensures forall g :: 0 <= g < |bm.valid| && SblkOf(g) != v ==> bm.valid[g] == old(bm.valid[g])
      ensures starts <= old(starts) && placed <= old(placed) && (safe ==> placed == old(placed))
    {
      hide LiveOk, OwnedOk, GotPart, Labelled, CountsOk, BelowPointers, Waiting, Grains, Flat;
      NothingWaits();
      b, got, arr := [[], [], [], [], []], [], [];
      NothingGot(cache.table, bm.oob, v);
      GotPartHalves(true, cache.table, bm.oob, v, got);
      GotPartHalves(safe, cache.table, bm.oob, v, got);
      for i := 0 to |pages|
        invariant bm.Valid() && Layout(safe, Lpas(got)) && GotPart(safe, cache.table, bm.oob, v, got)
        invariant BucketsOk(b) && Waiting(b) == multiset(got)
        invariant |arr| == i && Flat(arr) == got && forall a :: a in arr ==> Grains(a) <= PAGE
        invariant forall g :: v * GPS <= g < (v + 1) * GPS && bm.valid[g] ==> g / 4 in pages[i..]
        invariant forall g :: 0 <= g < |bm.valid| && SblkOf(g) != v ==> bm.valid[g] == old(bm.valid[g])
        invariant starts <= old(starts) && placed <= old(placed) && (safe ==> placed == old(placed))
      {
        ghost var items;
        b, items := ScanPage(pages[i], b, v, got, safe);
        FlatAppend(arr, items);
        got, arr := got + items, arr + [items];
      }
    }

    // An item is written at grain `q`: labelled, validated, and live though not mapped.
    method PlaceItem(q: nat, o: Oob, ghost moving: set<nat>, ghost safe: bool)
      requires bm.Valid() && Layout(safe, moving) && o.lpa < |cache.table|
      requires !o.isTpage && 1 <= o.length && q % 4 + o.length <= 4 && q + o.length <= |bm.valid|
      requires forall g :: q <= g < q + o.length ==> !bm.valid[g]
      requires forall g :: q <= g < q + o.length ==> g - SblkOf(g) * GPS < bm.wp[SblkOf(g)] * GRAIN_PER_PAGE
      modifies this`starts, this`placed, bm`valid, bm`validCnt, bm`oob
      ensures bm.Valid() && Layout(safe, moving) && q !in old(starts)
      ensures starts == old(starts) + {q} && placed == old(placed) + {q}
      ensures bm.oob == old(bm.oob)[q := o] && bm.valid == Fill(old(bm.valid), q, q + o.length, true)
    {
      hide LiveOk, OwnedOk, CountsOk, BelowPointers;
      AddItem(starts, bm.valid, bm.oob, q, o);
      if safe { PlaceNew(cache.table, bm.oob, starts, placed, moving, q, o); }
      bm.SetOob(q, o);
      for i := 0 to o.length
        invariant bm.Valid() && bm.valid == Fill(old(bm.valid), q, q + i, true)
        invariant starts == old(starts) && placed == old(placed) && bm.oob == old(bm.oob)[q := o]
      {
        bm.ValidateGrain(q + i);
      }
      starts, placed := starts + {q}, placed + {q};
    }

    // The longest waiting item that still fits, searched downwards.
    method FindLongest(b: Buckets, remain: nat) returns (t: nat)
      requires BucketsOk(b) && remain <= PAGE
      ensures t == Longest(b, remain)
    {
      t := remain;
      while t != 0 && b[t] == []
        invariant t <= remain && Longest(b, remain) == Longest(b, t)
      {
        t := t - 1;
      }
    }

    // The next item goes to grain `4 * p + offset` of superblock `r`.
    method WriteItem(p: nat, offset: nat, b0: Buckets, t: nat, nodes0: seq<Node>, ghost out0: seq<Item>,
                     batch: bool, ghost r: nat, ghost v: int, ghost moving: set<nat>, ghost safe: bool)
      returns (b: Buckets, nodes: seq<Node>, ghost out: seq<Item>)
      requires BucketsOk(b0) && forall x :: x in Waiting(b0) ==> Label(batch, x).lpa < |cache.table|
      requires bm.Valid() && Layout(safe, moving) && NodesOk(bm.oob, placed, v, batch, nodes0, out0)
      requires r != v && 1 <= t && offset + t <= PAGE && b0[t] != []
      requires r < bm.n && p / PPS == r && p % PPS < bm.wp[r] <= PPS
      requires forall g :: 4 * p + offset <= g < 4 * p + 4 ==> !bm.valid[g]
      modifies this`starts, this`placed, bm`valid, bm`validCnt, bm`oob
      ensures bm.Valid() && Layout(safe, moving) && NodesOk(bm.oob, placed, v, batch, nodes, out)
      ensures b == Take(b0, t) && multiset(out) + Waiting(b) == multiset(out0) + Waiting(b0)
      ensures |nodes| == |nodes0| + 1 && |out| == |out0| + 1
      ensures placed - Ppas(nodes) == old(placed) - Ppas(nodes0)
      ensures old(placed) <= placed && old(starts) <= starts && NewOn(old(placed), placed, p, p + 1)
      ensures forall g :: 4 * p + offset + t <= g < 4 * p + 4 ==> !bm.valid[g]
      ensures SameElsewhere(bm.valid, bm.oob, old(bm.valid), old(bm.oob), r)
      ensures forall s :: s in old(starts) && s < |bm.oob| ==> bm.oob[s] == old(bm.oob)[s]
    {
      hide LiveOk, OwnedOk, Labelled, NodesOk, CountsOk, BelowPointers, Waiting, SblkOf;
      var x := Top(b0, t);
      TakeWaiting(b0, t);
      assert x in Waiting(b0);
      b := Take(b0, t);
      var q := 4 * p + offset;
      UnusedIsNoStart(bm.valid, bm.oob, starts, placed, q);
      GrainsOfPage(p, offset);
      NodesMore(bm.oob, placed, v, batch, nodes0, out0, q, x);
      PlaceItem(q, Label(batch, x), moving, safe);
      nodes, out := nodes0 + [Node(x.lpa, q)], out0 + [x];
    }

    /** One page of superblock `r` is filled. */
    method WritePage(p: nat, b0: Buckets, nodes0: seq<Node>, ghost out0: seq<Item>, batch: bool, ghost r: nat,
                     ghost v: int, ghost moving: set<nat>, ghost safe: bool)
      returns (b: Buckets, nodes: seq<Node>, ghost out: seq<Item>)
      requires BucketsOk(b0) && forall x :: x in Waiting(b0) ==> Label(batch, x).lpa < |cache.table|
      requires bm.Valid() && Layout(safe, moving) && NodesOk(bm.oob, placed, v, batch, nodes0, out0)
      requires r != v && r < bm.n && p / PPS == r && p % PPS < bm.wp[r] <= PPS
      requires forall g :: 4 * p <= g < 4 * p + 4 ==> !bm.valid[g]
      modifies this`starts, this`placed, bm`valid, bm`validCnt, bm`oob
      ensures bm.Valid() && Layout(safe, moving) && NodesOk(bm.oob, placed, v, batch, nodes, out)
      ensures b == FillPage(b0, PAGE).1 && multiset(out) + Waiting(b) == multiset(out0) + Waiting(b0)
      ensures |nodes| + Total(b) == |nodes0| + Total(b0) && |out| + |nodes0| == |out0| + |nodes|
      ensures placed - Ppas(nodes) == old(placed) - Ppas(nodes0)
      ensures old(placed) <= placed && old(starts) <= starts && NewOn(old(placed), placed, p, p + 1)
      ensures SameElsewhere(bm.valid, bm.oob, old(bm.valid), old(bm.oob), r)
      ensures forall s :: s in old(starts) && s < |bm.oob| ==> bm.oob[s] == old(bm.oob)[s]
    {
      hide LiveOk, OwnedOk, Labelled, NodesOk, CountsOk, BelowPointers, Waiting, Take;
      b, nodes, out := b0, nodes0, out0;
      var offset := 0;
      var remain := PAGE;
      while remain > 0
        invariant remain + offset == PAGE && bm.Valid() && Layout(safe, moving) && BucketsOk(b)
        invariant forall x :: x in Waiting(b) ==> Label(batch, x).lpa < |cache.table|
        invariant NodesOk(bm.oob, placed, v, batch, nodes, out)
        invariant FillPage(b0, PAGE).1 == FillPage(b, remain).1
        invariant multiset(out) + Waiting(b) == multiset(out0) + Waiting(b0)
        invariant |nodes| + Total(b) == |nodes0| + Total(b0) && |out| + |nodes0| == |out0| + |nodes|
        invariant placed - Ppas(nodes) == old(placed) - Ppas(nodes0)
        invariant old(placed) <= placed && old(starts) <= starts && NewOn(old(placed), placed, p, p + 1)
        invariant forall g :: 4 * p + offset <= g < 4 * p + 4 ==> !bm.valid[g]
        invariant SameElsewhere(bm.valid, bm.oob, old(bm.valid), old(bm.oob), r)
        invariant forall s :: s in old(starts) && s < |bm.oob| ==> bm.oob[s] == old(bm.oob)[s]
      {
        var t := FindLongest(b, remain);
        if t == 0 { break; }
        TakeWaiting(b, t);
        b, nodes, out := WriteItem(p, offset, b, t, nodes, out, batch, r, v, moving, safe);
        offset, remain := offset + t, remain - t;
      }
    }

    /** `_do_bulk_write_valid_items`, second half: the gathered items are packed into the reserve. */
    method WriteItems(b0: Buckets, ghost got: seq<Item>, ghost v: nat, ghost safe: bool)
      returns (nodes: seq<Node>, ghost k: nat)
      requires bm.Valid() && dReserve == bm.rsv < bm.n && bm.wp[bm.rsv] == 0 && v != bm.rsv
      requires Layout(safe, Lpas(got)) && BucketsOk(b0) && Waiting(b0) == multiset(got) && |Pack(b0)| <= PPS
      requires forall x :: x in got ==> x.lpa < |cache.table|
      modifies this`starts, this`placed, bm`valid, bm`validCnt, bm`oob, bm`wp
      ensures bm.Valid() && Layout(safe, Lpas(got)) && k == |Pack(b0)|
      ensures exists out :: multiset(out) == multiset(got) && NodesOk(bm.oob, placed, v, false, nodes, out)
      ensures placed == old(placed) + Ppas(nodes) && old(placed) !! Ppas(nodes)
      ensures bm.wp == old(bm.wp)[bm.rsv := k]
      ensures SameElsewhere(bm.valid, bm.oob, old(bm.valid), old(bm.oob), bm.rsv)
    {
      hide LiveOk, OwnedOk, Labelled, NodesOk, CountsOk, BelowPointers, Waiting, Take, FillPage;
      var b := b0;
      var nrItems := Total(b0);
      ghost var out: seq<Item>;
      nodes, out, k := [], [], 0;
      NoNodes(bm.oob, placed, v, false);
      assert bm.wp[bm.rsv := 0] == bm.wp;
      while |nodes| < nrItems
        invariant bm.Valid() && Layout(safe, Lpas(got)) && BucketsOk(b) && |nodes| + Total(b) == nrItems
        invariant NodesOk(bm.oob, placed, v, false, nodes, out) && |Pack(b0)| == k + |Pack(b)| && |out| == |nodes|
        invariant multiset(out) + Waiting(b) == multiset(got)
        invariant placed - Ppas(nodes) == old(placed) && old(placed) <= placed
        invariant bm.wp == old(bm.wp)[bm.rsv := k]
        invariant SameElsewhere(bm.valid, bm.oob, old(bm.valid), old(bm.oob), bm.rsv)
        decreases Total(b)
      {
        FirstItem(b);
        assert Total(b) == |FillPage(b, PAGE).0| + Total(FillPage(b, PAGE).1);
        PageUnused(bm.valid, bm.wp, bm.rsv * PPS + k);
        var p := bm.GetPageNum(dReserve);
        k := k + 1;
        assert Waiting(b) <= multiset(got);
        b, nodes, out := WritePage(p, b, nodes, out, false, bm.rsv, v, Lpas(got), safe);
      }
      AllPlaced(b, bm.oob, placed, v, false, nodes, out);
    }

    // The victim's items are read, dropped and written to the reserve; their slots still move.
    method CopyVictim(v: nat, ghost safe: bool)
      returns (nodes: seq<Node>, read: nat, ghost got: seq<Item>, ghost out: seq<Item>, ghost k: nat, ghost b: Buckets)
      requires bm.Valid() && dReserve == bm.rsv < bm.n && bm.wp[bm.rsv] == 0 && v < bm.n && v != bm.rsv
      requires Layout(safe, {}) && |bm.valid| <= NIL && (safe ==> Clear(placed, v))
      modifies this`starts, this`placed, bm`valid, bm`validCnt, bm`oob, bm`wp
      ensures bm.Valid() && Layout(safe, Lpas(got)) && GotPart(safe, cache.table, old(bm.oob), v, got)
      ensures NodesOk(bm.oob, placed, v, false, nodes, out) && multiset(out) == multiset(got)
      ensures safe ==> placed == old(placed) + Ppas(nodes) && old(placed) !! Ppas(nodes)
      ensures safe ==> PointsElsewhere(cache.table, Lpas(got), |bm.oob|, v, bm.rsv)
      ensures forall g :: v * GPS <= g < (v + 1) * GPS ==> !bm.valid[g]
      ensures |bm.oob| == |old(bm.oob)|
      ensures forall g :: 0 <= g < |bm.oob| && SblkOf(g) != bm.rsv ==> bm.oob[g] == old(bm.oob[g])
      ensures bm.wp == old(bm.wp)[bm.rsv := k] && BucketsOk(b) && k == |Pack(b)| <= read <= PPS
      ensures PagesToRead(old(bm.valid), v, read)
      ensures safe ==> HoldsItemsOf(cache.table, old(bm.oob), v, b)
    {
      hide LiveOk, OwnedOk, Labelled, NodesOk, GotOk, CountsOk, BelowPointers, Waiting, FillPage, Pack, PointsElsewhere,
           HoldsItemsOf, ContainsValid;
      var pages := BulkReadPages(v);
      ReadListCovers(bm.valid, v, pages);
      assert PagesToRead(bm.valid, v, |pages|);
      hide PagesToRead;
      read := |pages|;
      var b0;
      ghost var arr;
      b0, got, arr := CollectItems(pages, v, safe);
      b := b0;
      GreedyIsOptimal(b0, arr);
      assert bm.oob == old(bm.oob);
      if safe {
        OthersPointElsewhere(cache.table, bm.valid, bm.oob, starts, placed, Lpas(got), bm.wp, v, bm.rsv);
        GatheredAll(cache.table, bm.oob, v, bm.rsv, b0, got);
      }
      nodes, k := WriteItems(b0, got, v, safe);
      out :| multiset(out) == multiset(got) && NodesOk(bm.oob, placed, v, false, nodes, out);
    }

    // The slots of the copied items are redirected.
    method Redirect(nodes: seq<Node>, ghost got: seq<Item>, ghost out: seq<Item>, ghost placed0: set<nat>,
                    ghost oob0: seq<Oob>, ghost v: nat, ghost safe: bool)
      returns (ok: bool)
      requires bm != cache.bm && bm.Valid() && |bm.oob| <= NIL && cache.Inv() && cache.DirtyResident()
      requires Layout(safe, Lpas(got)) && GotPart(safe, cache.table, oob0, v, got)
      requires NodesOk(bm.oob, placed, v, false, nodes, out) && multiset(out) == multiset(got)
      requires safe ==> placed == placed0 + Ppas(nodes) && placed0 !! Ppas(nodes)
      requires v != bm.rsv && (safe ==> PointsElsewhere(cache.table, Lpas(got), |bm.oob|, v, bm.rsv))
      requires |bm.oob| == |oob0| && forall g :: 0 <= g < |bm.oob| && SblkOf(g) != bm.rsv ==> bm.oob[g] == oob0[g]
      modifies this`placed, cache, cache.bm
      ensures !ok ==> cache.Stuck()
      ensures old(cache.Roomy()) ==> ok && cache.Roomy()
      ensures ok ==> cache.Inv() && cache.DirtyResident() && |cache.table| == old(|cache.table|)
      ensures ok ==> placed == placed0 && bm.Valid() && LiveOk(starts, bm.valid, bm.oob)
      ensures ok && safe ==> OwnedOk(cache.table, bm.oob, starts, placed, {})
      ensures ok && safe ==> SameMeaning(cache.table, bm.oob, old(cache.table), oob0)
      ensures ok && safe ==>
        forall l :: 0 <= l < |cache.table| && cache.table[l].ppa != NIL ==> SblkOf(cache.table[l].ppa) != v
      ensures ok ==> old(cache.Backed()) <= cache.Backed()
    {
      hide LiveOk, OwnedOk, Labelled, NodesOk, GotOk, CountsOk, BelowPointers, MapOk, AllocOk, SameMeaning, BackedBy,
           MovedTo;
      ghost var table0 := cache.table;
      NodesFacts(bm.oob, placed, v, nodes, out);
      GotPartHalves(safe, table0, oob0, v, got);
      NodesInTable(table0, oob0, v, got, out, nodes);
      ok := cache.BulkMappingUpdate(nodes);
      if ok && safe {
        GotFacts(table0, oob0, v, got);
        NodesCover(got, out, nodes);
        forall x | x in nodes ensures cache.table[x.lpa] == table0[x.lpa].(ppa := x.ppa) {
          MovedOnce(cache.table[x.lpa], table0[x.lpa], nodes, x);
        }
        RedirectKeepsMeaning(table0, oob0, cache.table, bm.oob, placed, v, bm.rsv, got, out, nodes);
        MapAll(table0, cache.table, bm.oob, starts, placed0, Lpas(got), nodes, Ppas(nodes));
      }
      placed := placed0;
    }

    /** `dpage_gc_dvalue`.  The reserve, now active, holds the victim's items on `k` pages, no more than the
        `read` pages read.  Every item keeps its owner, and then every mapping slot its meaning, if and only
        if the victim held no item that the running batch has placed and not yet mapped; what the batch had
        there is erased.  `ok` is false when the source aborts. */
    method DpageGc() returns (ok: bool, read: nat, ghost v: nat, ghost k: nat, ghost b: Buckets)
      requires Inv() && bm.freeCnt <= 1 && 0 <= dActive && bm.wp[dActive] >= PPS
      modifies this, bm, cache, cache.bm
      ensures old(OutOfSpace()) ==> !ok && OutOfSpace()
      ensures !ok ==> old(OutOfSpace()) || cache.Stuck()
      ensures old(cache.Roomy()) ==> cache.Roomy() && (ok <==> !old(OutOfSpace()))
      ensures ok ==> Shape() && placed == old(placed)
      ensures ok ==> IsTarget(old(bm.wp), old(bm.validCnt), old(bm.rsv), v)
      ensures ok ==>
        && (ItemsOk({}) <==> Clear(placed, v))
        && (Clear(placed, v) ==> SameMeaning(cache.table, bm.oob, old(cache.table), old(bm.oob)))
      ensures ok ==> forall g :: v * GPS <= g < (v + 1) * GPS ==> !bm.valid[g] && bm.oob[g] == CLEARED
      ensures ok && Clear(placed, v) ==>
        && HoldsItemsOf(old(cache.table), old(bm.oob), v, b)
        && (forall l :: 0 <= l < |cache.table| && cache.table[l].ppa != NIL ==> SblkOf(cache.table[l].ppa) != v)
        && (forall q :: q in placed ==> q < |bm.oob| == |old(bm.oob)| && bm.oob[q] == old(bm.oob)[q])
      ensures ok ==> |bm.oob| == |old(bm.oob)| && PagesToRead(old(bm.valid), v, read)
      ensures ok ==> BucketsOk(b) && k == |Pack(b)| <= read <= PPS
      ensures ok ==> dActive == old(bm.rsv) && bm.rsv == v
      ensures ok ==> bm.wp == old(bm.wp)[old(bm.rsv) := k][v := 0]
      ensures ok ==> bm.freeCnt == old(bm.freeCnt) && bm.cursor == old(bm.cursor)
      ensures ok ==> old(cache.Backed()) <= cache.Backed()
    {
      hide AllocOk, BackedBy, LiveOk, OwnedOk, Labelled, NodesOk, GotPart, CountsOk, BelowPointers, Waiting, Pack,
           MapOk, SameMeaning,
           PointsElsewhere, HoldsItemsOf, PagesToRead, IsTarget, NoTarget;
      read, v, k, b := 0, 0, 0, [];
      AllocReserve(bm.wp, bm.freeCnt, bm.cursor, bm.rsv, dActive);
      var target := bm.GetGcTarget();
      if target == -1 { return false, read, v, k, b; }
      TargetFacts(bm.wp, bm.validCnt, bm.rsv, target);
      v := target;
      ghost var safe := Clear(placed, v);
      TargetsAre(bm.wp, bm.validCnt, bm.rsv, target);
      PlacedNotInReserve(cache.table, bm.valid, bm.oob, starts, placed, bm.wp, bm.rsv);
      LayoutIs({});
      ghost var got, out;
      var nodes;
      nodes, read, got, out, k, b := CopyVictim(target, safe);
      ok := Redirect(nodes, got, out, old(placed), old(bm.oob), target, safe);
      if !ok { return; }
      AfterErasing(cache.table, old(cache.table), bm.valid, bm.oob, old(bm.oob), starts, placed, v);
      Retire(target);
    }

    // The victim is trimmed and becomes the reserve; the old reserve is active.
    method Retire(v: nat)
      requires bm.Valid() && v < bm.n && forall g :: v * GPS <= g < (v + 1) * GPS ==> !bm.valid[g]
      modifies this`dActive, this`dReserve, bm`wp, bm`validCnt, bm`oob, bm`rsv
      ensures bm.Valid() && bm.oob == Fill(old(bm.oob), v * GPS, (v + 1) * GPS, CLEARED) && bm.wp == old(bm.wp)[v := 0]
      ensures dActive == old(dReserve) && dReserve == bm.rsv == v
    {
      bm.Trim(v);
      dActive := dReserve;
      bm.ChangeReserve(v);
      dReserve := v;
    }

    // No item of the running batch lies in the superblock a collection would pick.
    ghost predicate CollectionSafe()
      reads this, bm
    {
      SafeFor(bm.wp, bm.validCnt, bm.rsv, placed)
    }

    // A page is about to be allocated and the active superblock cannot give it.
    predicate Exhausted()
      reads this, bm
    {
      dActive == -1 || (0 <= dActive < |bm.wp| && bm.wp[dActive] >= PPS)
    }

    // The next allocation collects.
    predicate Due()
      reads this, bm
    {
      Exhausted() && bm.freeCnt <= 1
    }

    // A collection is due and finds no victim.
    ghost predicate OutOfSpace()
      reads this, bm
    {
      Due() && NoTarget(bm.wp, bm.validCnt, bm.rsv)
    }

    // Pages that can be allocated before a collection is due.
    ghost function FreePages(): int
      reads this, bm
    {
      (bm.freeCnt - 1) * PPS + if 0 <= dActive < |bm.wp| then PPS - bm.wp[dActive] else 0
    }

    // Pages the active superblock can give, or the one that takes its place.
    ghost function ActiveRoom(): int
      reads this, bm
    {
      if 0 <= dActive < |bm.wp| && bm.wp[dActive] < PPS then PPS - bm.wp[dActive] else PPS
    }

    // A collection is due exactly when the pages have run out.
    lemma DueWithoutPages()
      requires Inv()
      ensures FreePages() >= 0 && (Due() <==> FreePages() == 0)
    {
      hide LiveOk, OwnedOk, CountsOk, BelowPointers, MapOk;
      NoCollectionAtFirst(bm.wp, bm.freeCnt, bm.cursor, bm.rsv, dActive);
      CountExtremes<int>(bm.wp, IsZero, 0, |bm.wp|);
    }

    // The branch of `dp_alloc` that makes another superblock active.  After a collection it has room
    // exactly when the victim's items do not need all its pages.
    method MakeRoom() returns (ok: bool)
      requires Inv()
      modifies this, bm, cache, cache.bm
      ensures old(OutOfSpace()) ==> !ok
      ensures !ok ==> old(Due()) && (OutOfSpace() || cache.Stuck())
      ensures !ok && old(cache.Roomy()) ==> OutOfSpace()
      ensures old(cache.Roomy()) ==> cache.Roomy() && (ok <==> !old(OutOfSpace()))
      ensures ok ==> Shape() && placed == old(placed) && |bm.oob| == |old(bm.oob)|
      ensures ok ==> (ItemsOk({}) <==> old(Due() ==> CollectionSafe()))
      ensures ok && old(Due() ==> CollectionSafe()) ==>
        && SameMeaning(cache.table, bm.oob, old(cache.table), old(bm.oob))
        && forall q :: q in placed ==> q < |bm.oob| && bm.oob[q] == old(bm.oob)[q]
      ensures ok ==> 0 <= dActive < bm.n && bm.wp[dActive] <= PPS
      ensures ok && bm.wp[dActive] < PPS ==> OneMoreOk(bm.wp, bm.freeCnt, bm.cursor, bm.rsv, dActive)
      ensures ok && old(Due() && CollectionSafe()) ==> exists v: nat, b ::
          && IsTarget(old(bm.wp), old(bm.validCnt), old(bm.rsv), v)
          && HoldsItemsOf(old(cache.table), old(bm.oob), v, b) && bm.wp[dActive] == |Pack(b)|
      ensures ok && !old(Due()) ==> bm.wp[dActive] < PPS && FreePages() == old(FreePages())
      ensures !old(Due()) ==> unchanged(cache) && unchanged(cache.bm) && bm.wp == old(bm.wp)
      ensures !old(Due()) ==> TakenFrom(old(bm.wp), old(dActive), bm.wp, dActive, 0)
      ensures ok ==> old(cache.Backed()) <= cache.Backed()
    {
      hide AllocOk, BackedBy, LiveOk, OwnedOk, CountsOk, BelowPointers, SameMeaning, HoldsItemsOf, MapOk, Pack,
           IsTarget, NoTarget, Clear,
           FirstOpen, NextOpen;
      ghost var wp0, free0, cur0, rsv0, act0 := bm.wp, bm.freeCnt, bm.cursor, bm.rsv, dActive;
      AllocReserve(wp0, free0, cur0, rsv0, act0);
      NoCollectionAtFirst(wp0, free0, cur0, rsv0, act0);
      MeaningRefl(cache.table, bm.valid, bm.oob, starts, placed);
      PlacedNotInReserve(cache.table, bm.valid, bm.oob, starts, placed, bm.wp, bm.rsv);
      var full := true;
      if dActive != -1 { full := bm.CheckFull(dActive); }
      if full {
        var needed := bm.IsGcNeeded(dActive);
        if needed {
          ok := Collect();
        } else {
          SearchFinds(wp0, free0, cur0, rsv0, act0);
          dActive := bm.GetActive();
          AfterActivate(wp0, free0, cur0, rsv0, act0, dActive);
          ok := true;
        }
      } else {
        AfterPage(wp0, free0, cur0, rsv0, act0);
        ok := true;
      }
    }

    // A collection is due.
    method Collect() returns (ok: bool)
      requires Inv() && Due() && 0 <= dActive
      modifies this, bm, cache, cache.bm
      ensures old(OutOfSpace()) ==> !ok
      ensures !ok ==> OutOfSpace() || cache.Stuck()
      ensures old(cache.Roomy()) ==> cache.Roomy() && (ok <==> !old(OutOfSpace())) && (!ok ==> OutOfSpace())
      ensures ok ==> Shape() && placed == old(placed) && |bm.oob| == |old(bm.oob)|
      ensures ok ==> (ItemsOk({}) <==> old(CollectionSafe()))
      ensures ok && old(CollectionSafe()) ==>
        && SameMeaning(cache.table, bm.oob, old(cache.table), old(bm.oob))
        && forall q :: q in placed ==> q < |bm.oob| && bm.oob[q] == old(bm.oob)[q]
      ensures ok ==> 0 <= dActive < bm.n && bm.wp[dActive] <= PPS
      ensures ok && bm.wp[dActive] < PPS ==> OneMoreOk(bm.wp, bm.freeCnt, bm.cursor, bm.rsv, dActive)
      ensures ok && old(CollectionSafe()) ==> exists v: nat, b ::
          && IsTarget(old(bm.wp), old(bm.validCnt), old(bm.rsv), v)
          && HoldsItemsOf(old(cache.table), old(bm.oob), v, b) && bm.wp[dActive] == |Pack(b)|
      ensures ok ==> old(cache.Backed()) <= cache.Backed()
    {
      hide AllocOk, BackedBy, LiveOk, OwnedOk, CountsOk, BelowPointers, SameMeaning, HoldsItemsOf, MapOk, Pack,
           IsTarget, NoTarget, Clear,
           PagesToRead;
      ghost var wp0, free0, cur0, rsv0, act0 := bm.wp, bm.freeCnt, bm.cursor, bm.rsv, dActive;
      AllocReserve(wp0, free0, cur0, rsv0, act0);
      ghost var v, k, b;
      var nrValidPages;
      ok, nrValidPages, v, k, b := DpageGc();
      if ok {
        TargetFacts(wp0, old(bm.validCnt), rsv0, v);
        SafeIsClear(wp0, old(bm.validCnt), rsv0, placed, v);
        if k < PPS { AfterCollection(wp0, free0, cur0, rsv0, act0, v, k); }
      }
    }

    /** `dp_alloc`: an unused page inside the active superblock; or, when a collection's survivors
        fill every page of the reserve, a page number past its end; or an abort, when a collection is due
        and there is no victim, or the mapping of its items cannot be written. */
    method DpAlloc() returns (r: DpResult)
      requires Inv()
      modifies this, bm, cache, cache.bm
      ensures old(OutOfSpace()) ==> r.Aborted?
      ensures r.Aborted? ==> old(Due()) && (OutOfSpace() || cache.Stuck())
      ensures r.Aborted? && old(cache.Roomy()) ==> OutOfSpace()
      ensures old(cache.Roomy()) ==> cache.Roomy() && (r.Aborted? <==> old(OutOfSpace()))
      ensures !old(Due()) ==> TakenFrom(old(bm.wp), old(dActive), bm.wp, dActive, 1)
      ensures !old(Due()) ==> r.Page? && FreePages() == old(FreePages()) - 1 && unchanged(cache) && unchanged(cache.bm)
      ensures r.Page? ==> Shape() && placed == old(placed) && |bm.oob| == |old(bm.oob)|
      ensures r.Page? ==> (Inv() <==> old(Due() ==> CollectionSafe()))
      ensures r.Page? && old(Due() ==> CollectionSafe()) ==>
        && SameMeaning(cache.table, bm.oob, old(cache.table), old(bm.oob))
        && forall q :: q in placed ==> q < |bm.oob| && bm.oob[q] == old(bm.oob)[q]
      ensures r.Page? ==> 4 * r.p + 3 < |bm.valid| && r.p / PPS == dActive && r.p % PPS + 1 == bm.wp[dActive] <= PPS
      ensures r.Page? ==> forall g :: 4 * r.p <= g < 4 * r.p + 4 ==> !bm.valid[g]
      ensures r.PastEnd? ==> 0 <= dActive < |bm.wp| && bm.wp[dActive] == PPS + 1 && r.p == (dActive + 1) * PPS
      ensures !r.Aborted? && old(Due() && CollectionSafe()) ==> exists v: nat, b ::
          && IsTarget(old(bm.wp), old(bm.validCnt), old(bm.rsv), v)
          && HoldsItemsOf(old(cache.table), old(bm.oob), v, b)
          && (r.Page? <==> |Pack(b)| < PPS)
      ensures r.Page? ==> old(cache.Backed()) <= cache.Backed()
    {
      hide AllocOk, BackedBy, LiveOk, OwnedOk, CountsOk, BelowPointers, SameMeaning, HoldsItemsOf, MapOk, Pack,
           IsTarget, NoTarget, Clear;
      var ok := MakeRoom();
      if !ok { return Aborted; }
      if bm.wp[dActive] < PPS {
        PageUnused(bm.valid, bm.wp, dActive * PPS + bm.wp[dActive]);
      }
      var p := bm.GetPageNum(dActive);
      r := if p / PPS == dActive then Page(p) else PastEnd(p);
    }

    // Whether the next allocation would collect a superblock holding items of the batch.
    method AtRisk(nodes: seq<Node>) returns (risk: bool)
      requires Inv() && placed == Ppas(nodes)
      ensures risk <==> Due() && !CollectionSafe()
    {
      hide LiveOk, OwnedOk, IsTarget, MapOk, CountsOk, BelowPointers;
      if bm.freeCnt > 1 || !Exhausted() { return false; }
      var t := bm.GetGcTarget();
      for i := 0 to |nodes|
        invariant t != -1 ==> forall k :: 0 <= k < i ==> SblkOf(nodes[k].ppa) != t
      {
        if SblkOf(nodes[i].ppa) == t {
          assert nodes[i] in nodes;
          return true;
        }
      }
      forall u: nat | IsTarget(bm.wp, bm.validCnt, bm.rsv, u) ensures Clear(placed, u) {
        TargetUnique(bm.wp, bm.validCnt, bm.rsv, u, t);
        forall q | q in placed ensures SblkOf(q) != u { var x :| x in nodes && x.ppa == q; }
      }
      risk := false;
    }

    // The batch is sorted into buckets by length.
    method FillBuckets(lens: seq<nat>) returns (b: Buckets)
      requires forall i :: 0 <= i < |lens| ==> 1 <= lens[i] <= PAGE
      ensures BucketsOk(b) && Waiting(b) == multiset(BatchItems(lens)) && Total(b) == |lens|
    {
      hide Waiting, BatchItems;
      NothingWaits();
      b := [[], [], [], [], []];
      BatchPrefix(lens, 0);
      for i := 0 to |lens|
        invariant BucketsOk(b) && Waiting(b) == multiset(BatchItems(lens[..i])) && Total(b) == i
      {
        BatchPrefix(lens, i);
        b := Push(b, Item(i, lens[i]));
      }
      assert lens[..|lens|] == lens;
    }

    /** `_do_wb_assign_ppa`: every item of a full write buffer gets its own grains inside one page,
        and everything mapped keeps its meaning across the collections this may take.  That is so
        whenever there are pages enough without a collection; else it may end before a collection that
        would take items of this batch, at one without a victim, or behind a superblock's end. */
    method PlaceBatch(lens: seq<nat>) returns (r: PlaceResult)
      requires Inv() && placed == {} && forall i :: 0 <= i < |lens| ==> 1 <= lens[i] <= PAGE
      requires |cache.table| > 0
      modifies this, bm, cache, cache.bm
      ensures old(FreePages()) >= NeededOf(BatchItems(lens)) ==>
        r.Placed? && FreePages() == old(FreePages()) - NeededOf(BatchItems(lens)) && unchanged(cache)
          && unchanged(cache.bm)
      ensures 0 < NeededOf(BatchItems(lens)) <= old(ActiveRoom()) && old(FreePages()) >= NeededOf(BatchItems(lens)) ==>
        && TakenFrom(old(bm.wp), old(dActive), bm.wp, dActive, NeededOf(BatchItems(lens)))
        && NewOn({}, placed, dActive * PPS + old(bm.wp)[dActive], dActive * PPS + bm.wp[dActive])
      ensures r.BatchAtRisk? ==> Inv() && Due() && !CollectionSafe()
      ensures r.PlaceAborted? ==> OutOfSpace() || cache.Stuck()
      ensures r.PlaceAborted? && old(cache.Roomy()) ==> OutOfSpace()
      ensures r.RanPastEnd? ==> 0 <= dActive < |bm.wp| && bm.wp[dActive] == PPS + 1
      ensures old(cache.Roomy()) ==> cache.Roomy()
      ensures r.Placed? ==> Inv() && placed == Ppas(r.nodes)
      ensures r.Placed? ==> SameMeaning(cache.table, bm.oob, old(cache.table), old(bm.oob))
      ensures r.Placed? ==> DistinctSlots(r.nodes) && DistinctPlaces(r.nodes) && |r.nodes| == |lens|
      ensures r.Placed? ==> forall x :: x in r.nodes ==> IsBatchPlace(bm.oob, lens, x)
      ensures r.Placed? ==> forall i :: 0 <= i < |lens| ==> HasNode(r.nodes, i)
      ensures r.Placed? ==> old(cache.Backed()) <= cache.Backed()
    {
      hide BackedBy, LiveOk, OwnedOk, NodesOk, CountsOk, BelowPointers, SameMeaning, MapOk, AllocOk, Waiting, Take,
           FillPage, Pack,
           HoldsItemsOf, IsTarget, NoTarget, Clear;
      var b := FillBuckets(lens);
      PagesOfBatch(lens, b);
      var nodes: seq<Node> := [];
      ghost var out: seq<Item> := [];
      NoNodes(bm.oob, placed, -1, true);
      MeaningRefl(cache.table, bm.valid, bm.oob, starts, placed);
      while |nodes| < |lens|
        invariant Inv() && BucketsOk(b) && |nodes| + Total(b) == |lens| && |out| == |nodes| && |cache.table| > 0
        invariant NodesOk(bm.oob, placed, -1, true, nodes, out) && placed == Ppas(nodes)
        invariant multiset(out) + Waiting(b) == multiset(BatchItems(lens))
        invariant SameMeaning(cache.table, bm.oob, old(cache.table), old(bm.oob))
        invariant old(cache.Backed()) <= cache.Backed() && (old(cache.Roomy()) ==> cache.Roomy())
        invariant old(FreePages()) >= NeededOf(BatchItems(lens)) ==>
          && FreePages() == old(FreePages()) - NeededOf(BatchItems(lens)) + |Pack(b)|
          && unchanged(cache) && unchanged(cache.bm)
        invariant old(FreePages()) >= NeededOf(BatchItems(lens)) ==>
          OnOne(old(bm.wp), old(dActive), bm.wp, dActive, placed, NeededOf(BatchItems(lens)) - |Pack(b)|,
            old(ActiveRoom()))
        decreases Total(b)
      {
        PackNext(b);
        ghost var wp1, act1, placed1, k := bm.wp, dActive, placed, NeededOf(BatchItems(lens)) - |Pack(b)|;
        r, b, out := PlacePage(b, nodes, out, old(cache.table), old(bm.oob));
        if !r.Placed? { return; }
        if old(FreePages()) >= NeededOf(BatchItems(lens)) {
          OnOneMore(old(bm.wp), old(dActive), wp1, act1, placed1, bm.wp, dActive, placed, k, old(ActiveRoom()));
        }
        nodes := r.nodes;
      }
      PackNext(b);
      AllPlaced(b, bm.oob, placed, -1, true, nodes, out);
      BatchCovered(bm.oob, placed, lens, nodes, out);
      r := Placed(nodes);
    }

    // A page is allocated and filled with items of the batch, or the batch ends.
    method PlacePage(b0: Buckets, nodes0: seq<Node>, ghost out0: seq<Item>, ghost table0: seq<Pte>,
                     ghost oob0: seq<Oob>)
      returns (r: PlaceResult, b: Buckets, ghost out: seq<Item>)
      requires Inv() && BucketsOk(b0) && Total(b0) > 0 && |out0| == |nodes0|
      requires NodesOk(bm.oob, placed, -1, true, nodes0, out0) && placed == Ppas(nodes0)
      requires SameMeaning(cache.table, bm.oob, table0, oob0) && |cache.table| > 0
      modifies this, bm, cache, cache.bm
      ensures old(FreePages()) > 0 ==> r.Placed? && FreePages() == old(FreePages()) - 1
      ensures old(FreePages()) > 0 ==> unchanged(cache) && unchanged(cache.bm)
      ensures old(FreePages()) > 0 ==>
        && TakenFrom(old(bm.wp), old(dActive), bm.wp, dActive, 1)
        && NewOn(old(placed), placed, dActive * PPS + bm.wp[dActive] - 1, dActive * PPS + bm.wp[dActive])
      ensures r.BatchAtRisk? ==> Inv() && Due() && !CollectionSafe()
      ensures r.PlaceAborted? ==> OutOfSpace() || cache.Stuck()
      ensures r.PlaceAborted? && old(cache.Roomy()) ==> OutOfSpace()
      ensures r.RanPastEnd? ==> 0 <= dActive < |bm.wp| && bm.wp[dActive] == PPS + 1
      ensures old(cache.Roomy()) ==> cache.Roomy()
      ensures r.Placed? ==>
        Inv() && BucketsOk(b) && |out| == |r.nodes| && Total(b) < Total(b0) && b == FillPage(b0, PAGE).1
      ensures r.Placed? ==> NodesOk(bm.oob, placed, -1, true, r.nodes, out) && placed == Ppas(r.nodes)
      ensures r.Placed? ==> |r.nodes| + Total(b) == |nodes0| + Total(b0) && |cache.table| == old(|cache.table|)
      ensures r.Placed? ==> multiset(out) + Waiting(b) == multiset(out0) + Waiting(b0)
      ensures r.Placed? ==> SameMeaning(cache.table, bm.oob, table0, oob0) && old(cache.Backed()) <= cache.Backed()
    {
      hide BackedBy, LiveOk, OwnedOk, NodesOk, CountsOk, BelowPointers, SameMeaning, MapOk, AllocOk, Waiting, Take,
           FillPage, Pack,
           HoldsItemsOf, IsTarget, NoTarget, Clear;
      b, out := b0, out0;
      DueWithoutPages();
      var risk := AtRisk(nodes0);
      if risk { return BatchAtRisk, b, out; }
      ghost var table1, oob1 := cache.table, bm.oob;
      var a := DpAlloc();
      if a.Aborted? { return PlaceAborted, b, out; }
      if a.PastEnd? { return RanPastEnd, b, out; }
      NodesStay(oob1, bm.oob, placed, -1, true, nodes0, out0);
      MeaningTrans(cache.table, bm.oob, table1, oob1, table0, oob0);
      MeaningSize(cache.table, bm.oob, table1, oob1);
      var nodes;
      b, nodes, out := FillOnePage(a.p, b0, nodes0, out0, table0, oob0);
      r := Placed(nodes);
    }

    // One page of the batch.
    method FillOnePage(p: nat, b0: Buckets, nodes0: seq<Node>, ghost out0: seq<Item>,
                       ghost table0: seq<Pte>, ghost oob0: seq<Oob>)
      returns (b: Buckets, nodes: seq<Node>, ghost out: seq<Item>)
      requires Inv() && BucketsOk(b0) && Total(b0) > 0 && |out0| == |nodes0|
      requires NodesOk(bm.oob, placed, -1, true, nodes0, out0) && placed == Ppas(nodes0)
      requires 4 * p + 3 < |bm.valid| && p / PPS == dActive && p % PPS < bm.wp[dActive] <= PPS
      requires forall g :: 4 * p <= g < 4 * p + 4 ==> !bm.valid[g]
      requires SameMeaning(cache.table, bm.oob, table0, oob0) && |cache.table| > 0
      modifies this`starts, this`placed, bm`valid, bm`validCnt, bm`oob
      ensures Inv() && BucketsOk(b) && |out| == |nodes| && Total(b) < Total(b0) && b == FillPage(b0, PAGE).1
      ensures NodesOk(bm.oob, placed, -1, true, nodes, out) && placed == Ppas(nodes)
      ensures |nodes| + Total(b) == |nodes0| + Total(b0)
      ensures multiset(out) + Waiting(b) == multiset(out0) + Waiting(b0)
      ensures SameMeaning(cache.table, bm.oob, table0, oob0) && NewOn(old(placed), placed, p, p + 1)
    {
      hide LiveOk, OwnedOk, Labelled, NodesOk, CountsOk, BelowPointers, SameMeaning, MapOk, AllocOk, Waiting, Take,
           FillPage, Pack;
      LayoutIs({});
      FirstItem(b0);
      assert Total(b0) == |FillPage(b0, PAGE).0| + Total(FillPage(b0, PAGE).1);
      ghost var oob1, starts1, valid1, placed1 := bm.oob, starts, bm.valid, placed;
      b, nodes, out := WritePage(p, b0, nodes0, out0, true, dActive, -1, {}, true);
      LayoutIs({});
      NodesArePlaced(bm.oob, placed, -1, true, nodes, out);
      MeaningKept(cache.table, valid1, oob1, bm.oob, starts1, placed1, table0, oob0);
    }
  }
}
