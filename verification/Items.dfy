/**
 What the data partition stores: items of one to four grains inside one page.  `starts` are the
 first grains of the live items; the out-of-band record at a start gives the item's length and the
 mapping slot it belongs to.
 */
module Items {
  import opened Common
  import opened BlockManager
  import opened TransPages

  // The record at `p` is that of a well-formed item, and all grains of the item are valid.
  ghost predicate Intact(valid: seq<bool>, oob: seq<Oob>, p: nat)
    requires |oob| == |valid|
  {
    && p < |oob| && !oob[p].isTpage && 1 <= oob[p].length && p % 4 + oob[p].length <= 4 && p + oob[p].length <= |valid|
    && valid[p] && forall g :: p <= g < p + oob[p].length ==> valid[g]
  }

  // Grain `g` belongs to the item at `p`.
  ghost predicate Covers(oob: seq<Oob>, p: nat, g: nat) {
    p < |oob| && p <= g < p + oob[p].length
  }

  ghost predicate Covered(starts: set<nat>, oob: seq<Oob>, g: nat) {
    exists p :: p in starts && Covers(oob, p, g)
  }

  /** The valid grains are exactly the grains of the live items, and no two items share one. */
  ghost predicate LiveOk(starts: set<nat>, valid: seq<bool>, oob: seq<Oob>) {
    && |oob| == |valid|
    && (forall p :: p in starts ==> Intact(valid, oob, p))
    && (forall p, q, g :: p in starts && q in starts && Covers(oob, p, g) && Covers(oob, q, g) ==> p == q)
    && (forall g :: 0 <= g < |valid| && valid[g] ==> Covered(starts, oob, g))
  }

  /** Forward map (`table`) and reverse map (`oob`) agree.  Items in `placed` are not mapped yet;
      slots in `moving` point to items that garbage collection has taken away. */
  ghost predicate OwnedOk(table: seq<Pte>, oob: seq<Oob>, starts: set<nat>, placed: set<nat>, moving: set<nat>) {
    && placed <= starts && (forall p :: p in placed && p < |oob| ==> oob[p].lpa < |table|)
    && (forall l :: 0 <= l < |table| && l !in moving && table[l].ppa != NIL ==>
          table[l].ppa in starts && table[l].ppa !in placed)
    && (forall l :: 0 <= l < |table| && l !in moving && table[l].ppa != NIL && table[l].ppa < |oob| ==>
          oob[table[l].ppa].lpa == l)
    && (forall p :: p in starts && p !in placed ==> p < |oob| && Names(table, oob[p].lpa, moving, p))
    && (forall l :: l in moving ==> l < |table| && table[l].ppa != NIL)
  }

  // Slot `l` maps the item at `p`.
  ghost predicate Names(table: seq<Pte>, l: nat, moving: set<nat>, p: nat) {
    l < |table| && l !in moving && table[l].ppa == p
  }

  lemma StartIsIntact(starts: set<nat>, valid: seq<bool>, oob: seq<Oob>, p: nat)
    requires LiveOk(starts, valid, oob) && p in starts
    ensures |oob| == |valid| && Intact(valid, oob, p)
  {
  }

  // The record of every live item names a slot of the table.
  ghost predicate Labelled(table: seq<Pte>, oob: seq<Oob>, starts: set<nat>) {
    forall p :: p in starts && p < |oob| ==> oob[p].lpa < |table|
  }

  lemma OwnedIsLabelled(table: seq<Pte>, oob: seq<Oob>, starts: set<nat>, placed: set<nat>, moving: set<nat>)
    requires OwnedOk(table, oob, starts, placed, moving)
    ensures placed <= starts && Labelled(table, oob, starts)
  {
    forall p | p in starts && p < |oob| ensures oob[p].lpa < |table| {
      if p !in placed { assert Names(table, oob[p].lpa, moving, p); }
    }
  }

  // No live item starts on an unused grain.
  lemma UnusedIsNoStart(valid: seq<bool>, oob: seq<Oob>, starts: set<nat>, placed: set<nat>, q: nat)
    requires LiveOk(starts, valid, oob) && placed <= starts && q < |valid| && !valid[q]
    ensures q !in starts && q !in placed
  {
    assert q in starts ==> Intact(valid, oob, q);
  }

  // The item at `p` is gone.
  lemma DropItem(starts: set<nat>, valid: seq<bool>, oob: seq<Oob>, p: nat)
    requires LiveOk(starts, valid, oob) && p in starts
    ensures Intact(valid, oob, p)
    ensures LiveOk(starts - {p}, Fill(valid, p, p + oob[p].length, false), oob)
  {
    var v, s := Fill(valid, p, p + oob[p].length, false), starts - {p};
    StartIsIntact(starts, valid, oob, p);
    forall q, g: nat | q in s && Covers(oob, q, g) ensures !Covers(oob, p, g) { assert q != p; }
    forall q | q in s ensures Intact(v, oob, q) {
      StartIsIntact(starts, valid, oob, q);
      forall g: nat | q <= g < q + oob[q].length ensures v[g] {
        assert Covers(oob, q, g);
      }
    }
    forall g | 0 <= g < |v| && v[g] ensures Covered(s, oob, g) {
      assert Covered(starts, oob, g);
      var q :| q in starts && Covers(oob, q, g);
    }
  }

  // An item that was there stays apart from one laid down on unused grains.
  lemma StaysApart(valid: seq<bool>, oob: seq<Oob>, p: nat, o: Oob, q: nat)
    requires |oob| == |valid| && p < |oob| && q != p && Intact(valid, oob, q) && p + o.length <= |valid|
    requires forall g :: p <= g < p + o.length ==> !valid[g]
    ensures Intact(Fill(valid, p, p + o.length, true), oob[p := o], q)
    ensures forall g :: Covers(oob[p := o], q, g) <==> Covers(oob, q, g)
    ensures forall g :: Covers(oob, q, g) ==> !Covers(oob[p := o], p, g)
  {
    forall g: nat | Covers(oob, q, g) ensures !Covers(oob[p := o], p, g) { assert valid[g]; }
  }

  // An item is laid down on unused grains.
  lemma AddItem(starts: set<nat>, valid: seq<bool>, oob: seq<Oob>, p: nat, o: Oob)
    requires LiveOk(starts, valid, oob) && p < |oob|
    requires !o.isTpage && 1 <= o.length && p % 4 + o.length <= 4 && p + o.length <= |valid|
    requires forall g :: p <= g < p + o.length ==> !valid[g]
    ensures p !in starts
    ensures LiveOk(starts + {p}, Fill(valid, p, p + o.length, true), oob[p := o])
  {
    hide Intact;
    var v, s, o' := Fill(valid, p, p + o.length, true), starts + {p}, oob[p := o];
    UnusedStart(starts, valid, oob, p);
    NewIsIntact(valid, oob, p, o);
    forall q | q in starts
      ensures Intact(v, o', q)
      ensures forall g: nat :: Covers(o', q, g) <==> Covers(oob, q, g)
      ensures forall g: nat :: Covers(o', q, g) ==> !Covers(o', p, g)
    {
      StaysApart(valid, oob, p, o, q);
    }
    forall g | 0 <= g < |v| && v[g] ensures Covered(s, o', g) {
      if valid[g] {
        assert Covered(starts, oob, g);
        var q :| q in starts && Covers(oob, q, g);
        assert Covers(o', q, g) && q in s;
      } else {
        assert Covers(o', p, g) && p in s;
      }
    }
  }

  lemma UnusedStart(starts: set<nat>, valid: seq<bool>, oob: seq<Oob>, p: nat)
    requires LiveOk(starts, valid, oob) && p < |valid| && !valid[p]
    ensures p !in starts
  {
    assert p in starts ==> Intact(valid, oob, p);
  }

  lemma NewIsIntact(valid: seq<bool>, oob: seq<Oob>, p: nat, o: Oob)
    requires |oob| == |valid| && p < |oob|
    requires !o.isTpage && 1 <= o.length && p % 4 + o.length <= 4 && p + o.length <= |valid|
    ensures Intact(Fill(valid, p, p + o.length, true), oob[p := o], p)
  {
  }

  // Giving an item another owner does not touch the layout.
  lemma RelabelItem(starts: set<nat>, valid: seq<bool>, oob: seq<Oob>, p: nat, o: Oob)
    requires LiveOk(starts, valid, oob) && p < |oob| && o.length == oob[p].length && o.isTpage == oob[p].isTpage
    ensures LiveOk(starts, valid, oob[p := o])
  {
    var o' := oob[p := o];
    forall q | q in starts ensures Intact(valid, o', q) { assert Intact(valid, oob, q); }
    assert forall q, g :: Covers(o', q, g) <==> Covers(oob, q, g);
    forall g | 0 <= g < |valid| && valid[g] ensures Covered(starts, o', g) {
      assert Covered(starts, oob, g);
      var q :| q in starts && Covers(oob, q, g);
      assert Covers(o', q, g);
    }
  }

  // Clearing records of grains that are not valid does not touch the layout.
  lemma ForgetRecords(starts: set<nat>, valid: seq<bool>, oob: seq<Oob>, lo: nat, hi: nat)
    requires LiveOk(starts, valid, oob) && forall g :: lo <= g < hi && g < |valid| ==> !valid[g]
    ensures LiveOk(starts, valid, Fill(oob, lo, hi, CLEARED))
    ensures forall p :: p in starts ==> p < |oob| && Fill(oob, lo, hi, CLEARED)[p] == oob[p]
  {
    var o' := Fill(oob, lo, hi, CLEARED);
    forall q | q in starts ensures o'[q] == oob[q] && Intact(valid, o', q) { assert Intact(valid, oob, q); }
    assert forall q, g :: q in starts ==> (Covers(o', q, g) <==> Covers(oob, q, g));
    forall g | 0 <= g < |valid| && valid[g] ensures Covered(starts, o', g) {
      assert Covered(starts, oob, g);
      var q :| q in starts && Covers(oob, q, g);
      assert Covers(o', q, g);
    }
  }

  lemma FirstOfItem(valid: seq<bool>, oob: seq<Oob>, p: nat, g: nat)
    requires |oob| == |valid| && Intact(valid, oob, p) && Covers(oob, p, g) && g < |valid|
    requires g % 4 == 0 || !valid[g - 1]
    ensures g == p
  {
  }

  /** Scanning a page grain by grain and skipping whole items only ever meets items at their start. */
  lemma ScanMeetsStart(starts: set<nat>, valid: seq<bool>, oob: seq<Oob>, g: nat)
    requires LiveOk(starts, valid, oob) && g < |valid| && valid[g] && (g % 4 == 0 || !valid[g - 1])
    ensures g in starts
  {
    hide Intact;
    assert Covered(starts, oob, g);
    var p :| p in starts && Covers(oob, p, g);
    FirstOfItem(valid, oob, p, g);
  }

  /** Where no grain of superblock `v` is valid, an item placed there has no owner's claim left. */
  lemma PlacedNowhere(table: seq<Pte>, valid: seq<bool>, oob: seq<Oob>, starts: set<nat>, placed: set<nat>, q: nat,
                      v: nat)
    requires LiveOk(starts, valid, oob) && q in placed && SblkOf(q) == v
    requires forall g :: v * GPS <= g < (v + 1) * GPS && g < |valid| ==> !valid[g]
    ensures !OwnedOk(table, oob, starts, placed, {})
  {
    if q in starts { StartIsIntact(starts, valid, oob, q); }
  }

  // ----- ownership -----

  lemma MappedItem(table: seq<Pte>, valid: seq<bool>, oob: seq<Oob>, starts: set<nat>, placed: set<nat>,
                   moving: set<nat>, l: nat)
    requires LiveOk(starts, valid, oob) && OwnedOk(table, oob, starts, placed, moving)
    requires l < |table| && l !in moving && table[l].ppa != NIL
    ensures table[l].ppa in starts && table[l].ppa !in placed && |oob| == |valid|
    ensures Intact(valid, oob, table[l].ppa) && oob[table[l].ppa].lpa == l
  {
    assert Intact(valid, oob, table[l].ppa);
  }

  lemma PlacedItem(table: seq<Pte>, valid: seq<bool>, oob: seq<Oob>, starts: set<nat>, placed: set<nat>,
                   moving: set<nat>, p: nat)
    requires LiveOk(starts, valid, oob) && OwnedOk(table, oob, starts, placed, moving) && p in placed
    ensures p in starts && p < |oob| == |valid|
  {
    assert Intact(valid, oob, p);
  }

  // The mapped item at `p` is taken away; its slot is moving from then on.
  lemma TakeAway(table: seq<Pte>, oob: seq<Oob>, starts: set<nat>, placed: set<nat>, moving: set<nat>, p: nat)
    requires OwnedOk(table, oob, starts, placed, moving) && p in starts && p !in placed
    requires p < |oob| <= NIL
    ensures Names(table, oob[p].lpa, moving, p)
    ensures OwnedOk(table, oob, starts - {p}, placed, moving + {oob[p].lpa})
  {
    var l := oob[p].lpa;
    assert Names(table, l, moving, p);
    forall q | q in starts - {p} && q !in placed ensures q < |oob| && Names(table, oob[q].lpa, moving + {l}, q) {
      assert Names(table, oob[q].lpa, moving, q);
    }
  }

  // A new item is placed; no slot points to it yet.
  lemma PlaceNew(table: seq<Pte>, oob: seq<Oob>, starts: set<nat>, placed: set<nat>, moving: set<nat>, p: nat, o: Oob)
    requires OwnedOk(table, oob, starts, placed, moving) && p !in starts && p < |oob| && o.lpa < |table|
    ensures OwnedOk(table, oob[p := o], starts + {p}, placed + {p}, moving)
  {
    forall q | q in starts && q !in placed
      ensures q < |oob| && Names(table, oob[p := o][q].lpa, moving, q)
    {
      assert Names(table, oob[q].lpa, moving, q);
    }
  }

  // Slot `l`, empty or moving, is pointed to the placed item `p`, which is labelled with it.
  lemma MapPlaced(table: seq<Pte>, oob: seq<Oob>, starts: set<nat>, placed: set<nat>, moving: set<nat>,
                  l: nat, p: nat, pte: Pte, o: Oob)
    requires OwnedOk(table, oob, starts, placed, moving) && p in placed && p < |oob| <= NIL
    requires l < |table| && (l in moving || table[l].ppa == NIL) && pte.ppa == p && o.lpa == l
    ensures OwnedOk(table[l := pte], oob[p := o], starts, placed - {p}, moving - {l})
  {
    var t', o', pl, m := table[l := pte], oob[p := o], placed - {p}, moving - {l};
    forall q | q in starts && q !in pl ensures q < |o'| && Names(t', o'[q].lpa, m, q) {
      if q != p { assert Names(table, oob[q].lpa, moving, q); }
    }
  }

  // All moving slots are pointed to their items' new places at once.
  lemma MapAll(table: seq<Pte>, table': seq<Pte>, oob: seq<Oob>, starts: set<nat>, placed: set<nat>,
               moving: set<nat>, nodes: seq<Node>, newcomers: set<nat>)
    requires OwnedOk(table, oob, starts, placed + newcomers, moving) && |oob| <= NIL && placed !! newcomers
    requires |table'| == |table| && DistinctSlots(nodes)
    requires forall x :: x in nodes ==>
      x.lpa in moving && x.ppa in newcomers && x.ppa < |oob| && oob[x.ppa].lpa == x.lpa
    requires forall l :: l in moving ==> exists x :: x in nodes && x.lpa == l
    requires forall p :: p in newcomers ==> exists x :: x in nodes && x.ppa == p
    requires forall x :: x in nodes ==> table'[x.lpa].ppa == x.ppa
    requires forall l :: 0 <= l < |table| && l !in moving ==> table'[l] == table[l]
    ensures OwnedOk(table', oob, starts, placed, {})
  {
    forall l | 0 <= l < |table'| && table'[l].ppa != NIL
      ensures table'[l].ppa in starts && table'[l].ppa !in placed
      ensures table'[l].ppa < |oob| ==> oob[table'[l].ppa].lpa == l
    {
      if l in moving {
        var x :| x in nodes && x.lpa == l;
      }
    }
    forall p | p in starts && p !in placed ensures p < |oob| && Names(table', oob[p].lpa, {}, p) {
      if p in newcomers {
        var x :| x in nodes && x.ppa == p;
      } else {
        assert Names(table, oob[p].lpa, moving, p);
      }
    }
  }

  // Ownership only reads the records of live items.
  lemma OwnedSameRecords(table: seq<Pte>, oob: seq<Oob>, oob': seq<Oob>, starts: set<nat>, placed: set<nat>,
                         moving: set<nat>)
    requires OwnedOk(table, oob, starts, placed, moving) && |oob'| == |oob|
    requires forall p :: p in starts ==> p < |oob| && oob'[p] == oob[p]
    ensures OwnedOk(table, oob', starts, placed, moving)
  {
  }

  /** What a reader of the mapping can tell: which slots are mapped, their fingerprints, and the
      lengths of the items behind them. */
  ghost predicate SameMeaning(table: seq<Pte>, oob: seq<Oob>, table0: seq<Pte>, oob0: seq<Oob>) {
    && |table| == |table0| && |oob| == |oob0|
    && forall l :: 0 <= l < |table| ==> SameSlot(table[l], oob, table0[l], oob0)
  }

  ghost predicate SameSlot(e: Pte, oob: seq<Oob>, e0: Pte, oob0: seq<Oob>) {
    && e.fp == e0.fp && (e.ppa == NIL <==> e0.ppa == NIL)
    && (e.ppa != NIL ==> e.ppa < |oob| && e0.ppa < |oob0| && oob[e.ppa].length == oob0[e0.ppa].length)
  }
}
