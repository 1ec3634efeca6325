/** A piece cut off the memtable fits one metadata page, so it can be compacted, and fills it. */
module Memtable {
  import opened Keys
  import opened PageCodec
  import opened PipeMerger
  import C = Compaction
  import S = SkipLists

  // The entries of a piece whose nodes have been given data pages, kept in `value`.
  ghost function Entries(nodes: seq<S.Node>): (s: seq<Entry>)
    reads nodes
    ensures |s| == |nodes| && forall i :: 0 <= i < |s| ==> s[i] == Entry(nodes[i].key, nodes[i].value)
  {
    seq(|nodes|, i requires 0 <= i < |nodes| reads nodes => Entry(nodes[i].key, nodes[i].value))
  }

  lemma {:induction false} BytesAreLength(nodes: seq<S.Node>)
    ensures Bytes(Entries(nodes)) == S.Length(nodes)
  {
    if nodes != [] {
      var init := nodes[..|nodes| - 1];
      BytesAreLength(init);
      assert Entries(nodes)[..|nodes| - 1] == Entries(init);
    }
  }

  /** Every piece the cut hands over is what `leveling` takes as a memtable, with no room for a key more. */
  lemma PieceIsMemtable(p: S.SkipList)
    requires S.PieceOk(p) && AllOk(Entries(p.nodes))
    ensures C.CutOff(Entries(p.nodes))
  {
    hide S.LinkedAt, Before;
    BytesAreLength(p.nodes);
    var c, s := p.Chained(), Entries(p.nodes);
    forall i, j | 0 <= i < j < |s| ensures Before(s[i].key, s[j].key) {
      S.KeysRise(c, i + 1, j + 1);
    }
  }
}
