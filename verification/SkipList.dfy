/**
 The skip lists: the write buffer's ordered map and the tree's memtable.  A list is a chain of nodes
 behind its header; at each level the nodes that are tall enough are linked, the last one back to the
 header.  Heights come from a random generator and are left open here.
 */
module SkipLists {
  import opened Keys

  // Pointer levels in use: 1 to `TOP`, one less than the source's MAX_L.
  const TOP: nat := 29
  // `KEYBITMAP / 2 - 2` and `PAGESIZE - KEYBITMAP`.
  const NUM_LIMIT: nat := 510
  const SIZE_LIMIT: nat := 3072

  // The header's key, behind every key stored: as many bytes of ones as a key may have (`key_max`), which is
  // not the same for both stores.
  function KeyMax(n: nat): (k: Key)
    ensures |k| == n && forall i :: 0 <= i < n ==> k[i] == 255
  {
    seq(n, _ => 255)
  }

  class Node {
    const key: Key
    const height: nat
    var value: nat
    // `list[1..height]`; position 0 is not used.
    var next: seq<Node>

    constructor (key: Key, height: nat, value: nat)
      ensures this.key == key && this.height == height && this.value == value && next == seq(height + 1, _ => this)
    {
      this.key, this.height, this.value := key, height, value;
      new;
      next := seq(height + 1, _ => this);
    }
  }

  // A header that points to itself at every level.
  ghost predicate AllSelf(r: Node)
    reads r
  {
    |r.next| == TOP + 1 && forall i :: 0 <= i <= TOP ==> r.next[i] == r
  }

  // ----- which node comes next at a level, told from the heights alone -----

  function Heights(chain: seq<Node>): (h: seq<nat>)
    ensures |h| == |chain| && forall k :: 0 <= k < |chain| ==> h[k] == chain[k].height
  {
    seq(|chain|, k requires 0 <= k < |chain| => chain[k].height)
  }

  // The first position behind `k` of height `i` or more; 0, the header's, if there is none.
  function Next(h: seq<nat>, k: nat, i: nat): (j: nat)
    requires k < |h|
    ensures j == 0 || (k < j < |h| && h[j] >= i)
    ensures forall t :: k < t < (if j == 0 then |h| else j) ==> h[t] < i
    decreases |h| - k
  {
    if k + 1 == |h| then 0 else if h[k + 1] >= i then k + 1 else Next(h, k + 1, i)
  }

  ghost predicate IsNext(h: seq<nat>, k: nat, i: nat, j: nat) {
    && k < |h| && (j == 0 || (k < j < |h| && h[j] >= i))
    && forall t :: k < t < (if j == 0 then |h| else j) ==> h[t] < i
  }

  lemma NextUnique(h: seq<nat>, k: nat, i: nat, j: nat)
    requires IsNext(h, k, i, j)
    ensures Next(h, k, i) == j
  {
  }

  // A position behind a new one at `m`.
  function Shift(m: nat, t: nat): nat { if t < m then t else t + 1 }

  function Inserted(h: seq<nat>, m: nat, c: nat): (h': seq<nat>)
    requires 0 < m <= |h|
    ensures |h'| == |h| + 1 && h'[m] == c
    ensures forall t :: 0 <= t < m ==> h'[t] == h[t]
    ensures forall t :: m < t < |h'| ==> h'[t] == h[t - 1]
  {
    h[..m] + [c] + h[m..]
  }

  // A new element of height `c` at position `m` is the next one for those before it that look past it.
  lemma NextOverInserted(h: seq<nat>, m: nat, c: nat, k: nat, i: nat)
    requires 0 < m <= |h| && k < m && (Next(h, k, i) == 0 || Next(h, k, i) >= m) && i <= c
    ensures Next(Inserted(h, m, c), k, i) == m
  {
    hide Inserted;
    NextUnique(Inserted(h, m, c), k, i, m);
  }

  // For all others the next one stays, wherever it moves.
  lemma NextApart(h: seq<nat>, m: nat, c: nat, k: nat, i: nat)
    requires 0 < m <= |h| && k < |h| && (i > c || k >= m || 0 < Next(h, k, i) < m)
    ensures Next(Inserted(h, m, c), Shift(m, k), i) == Shift(m, Next(h, k, i))
  {
    hide Inserted, Next;
    var h', k', j := Inserted(h, m, c), Shift(m, k), Next(h, k, i);
    forall t | k' < t < (if j == 0 then |h'| else Shift(m, j)) ensures h'[t] < i {
      if t < m { assert h[t] < i; } else if t > m { assert h[t - 1] < i; }
    }
    NextUnique(h', k', i, Shift(m, j));
  }

  // The new element looks where the one before it looked.
  lemma NextFromInserted(h: seq<nat>, m: nat, c: nat, i: nat)
    requires 0 < m <= |h|
    ensures Next(Inserted(h, m, c), m, i) == Shift(m, Next(h, m - 1, i))
  {
    hide Inserted, Next;
    var h', j := Inserted(h, m, c), Next(h, m - 1, i);
    forall t | m < t < (if j == 0 then |h'| else Shift(m, j)) ensures h'[t] < i { assert h[t - 1] < i; }
    NextUnique(h', m, i, Shift(m, j));
  }

  // The last position up to `m` of height `i` or more.
  function Prev(h: seq<nat>, m: nat, i: nat): (j: nat)
    requires m < |h| && h[0] >= i
    ensures j <= m && h[j] >= i
    ensures forall t :: j < t <= m ==> h[t] < i
  {
    if h[m] >= i then m else Prev(h, m - 1, i)
  }

  // Only that one looks past `m`.
  lemma PrevLooksPast(h: seq<nat>, m: nat, i: nat, k: nat)
    requires m < |h| && h[0] >= i && k <= m && h[k] >= i
    ensures (Next(h, k, i) == 0 || Next(h, k, i) > m) <==> k == Prev(h, m, i)
    ensures Next(h, Prev(h, m, i), i) == Next(h, m, i)
  {
    var p := Prev(h, m, i);
    var j := Next(h, k, i);
    if k < p { assert j != 0 && j <= p; }
    assert IsNext(h, p, i, Next(h, m, i));
    NextUnique(h, p, i, Next(h, m, i));
  }

  // ----- a linked chain -----

  ghost predicate Chain(chain: seq<Node>)
    reads chain
  {
    && chain != [] && chain[0].height == TOP && chain[0].key == KeyMax(|chain[0].key|)
    && (forall k :: 0 <= k < |chain| ==> |chain[k].next| == chain[k].height + 1 && 1 <= chain[k].height <= TOP)
    && (forall j, k :: 0 <= j < k < |chain| ==> chain[j] != chain[k])
    && (forall k :: 1 <= k < |chain| ==> Before(chain[k].key, chain[0].key))
    && (forall j, k :: 1 <= j < k < |chain| ==> Before(chain[j].key, chain[k].key))
  }

  // The node at position `k`, if tall enough, points at level `i` to the next such node.
  ghost predicate PointsOn(chain: seq<Node>, k: nat, i: nat)
    requires k < |chain|
    reads chain
  {
    i <= chain[k].height && i < |chain[k].next| ==> chain[k].next[i] == chain[Next(Heights(chain), k, i)]
  }

  /** At level `i` every node tall enough points to the next such node, the last one to the header. */
  ghost predicate LinkedAt(chain: seq<Node>, i: nat)
    reads chain
  {
    forall k :: 0 <= k < |chain| ==> PointsOn(chain, k, i)
  }

  ghost predicate Linked(chain: seq<Node>)
    reads chain
  {
    Chain(chain) && forall i :: 1 <= i <= TOP ==> LinkedAt(chain, i)
  }

  // The height of the tallest node behind the header.
  function Tallest(h: seq<nat>): nat
    requires h != []
  {
    if |h| == 1 then 0
    else
      var t := Tallest(h[..|h| - 1]);
      if h[|h| - 1] > t then h[|h| - 1] else t
  }

  lemma {:induction false} TallestIs(h: seq<nat>)
    requires h != []
    ensures forall k :: 1 <= k < |h| ==> h[k] <= Tallest(h)
    ensures |h| > 1 ==> exists k :: 1 <= k < |h| && h[k] == Tallest(h)
    ensures |h| == 1 ==> Tallest(h) == 0
  {
    if |h| > 1 {
      var g := h[..|h| - 1];
      TallestIs(g);
      if h[|h| - 1] > Tallest(g) {
        assert h[|h| - 1] == Tallest(h);
      } else if |g| > 1 {
        var k :| 1 <= k < |g| && g[k] == Tallest(g);
        assert h[k] == Tallest(h);
      }
    }
  }

  lemma TallestUnique(h: seq<nat>, t: nat)
    requires h != [] && (forall k :: 1 <= k < |h| ==> h[k] <= t)
    requires |h| == 1 ==> t == 0
    requires |h| > 1 ==> exists k :: 1 <= k < |h| && h[k] == t
    ensures Tallest(h) == t
  {
    TallestIs(h);
  }

  // Bytes of a list of nodes (`KEYLEN` each).
  function Length(nodes: seq<Node>): nat {
    if nodes == [] then 0 else Length(nodes[..|nodes| - 1]) + |nodes[|nodes| - 1].key| + 4
  }

  lemma {:induction false} LengthConcat(s: seq<Node>, t: seq<Node>)
    ensures Length(s + t) == Length(s) + Length(t)
    decreases |t|
  {
    if t == [] {
      assert s + t == s;
    } else {
      LengthConcat(s, t[..|t| - 1]);
      assert (s + t)[..|s + t| - 1] == s + t[..|t| - 1];
    }
  }

  /** From `x0`, position `k0`, along level `i` up to the last key before `key`. */
  method Walk(ghost chain: seq<Node>, x0: Node, key: Key, i: nat, ghost k0: nat) returns (x: Node, ghost k: nat)
    requires Chain(chain) && LinkedAt(chain, i) && 1 <= i <= TOP && k0 < |chain| && x0 == chain[k0] && x0.height >= i
    requires !Before(chain[0].key, key)
    ensures k0 <= k < |chain| && x == chain[k] && LeftAt(chain, key, i, k)
    ensures k > k0 ==> Before(x.key, key)
  {
    hide Before, Next;
    x, k := x0, k0;
    PointsAt(chain, k, i);
    CmpMeans(x.next[i].key, key);
    while Cmp(x.next[i].key, key) < 0
      invariant k0 <= k < |chain| && x == chain[k] && x.height >= i && |x.next| == x.height + 1
      invariant k > k0 ==> Before(x.key, key)
      invariant x.next[i] == chain[Next(Heights(chain), k, i)] && x.next[i].height >= i
      invariant Cmp(x.next[i].key, key) < 0 <==> Before(x.next[i].key, key)
      decreases |chain| - k
    {
      k := Next(Heights(chain), k, i);
      x := x.next[i];
      PointsAt(chain, k, i);
      CmpMeans(x.next[i].key, key);
    }
  }

  class SkipList {
    var level: nat
    var size: nat
    var allLength: nat
    var header: Node
    // The nodes behind the header, in key order.
    ghost var nodes: seq<Node>

    ghost function Chained(): (c: seq<Node>)
      reads this
      ensures |c| == |nodes| + 1
    {
      [header] + nodes
    }

    /** Linked at every level, with `level` the tallest node's height, or 0 or 1 if there is no node. */
    ghost predicate Shape()
      reads this, Chained()
    {
      && Linked(Chained())
      && (nodes != [] ==> level == Tallest(Heights(Chained())))
      && (nodes == [] ==> level <= 1)
    }

    ghost predicate Valid()
      reads this, Chained()
    {
      Shape() && size == |nodes|
    }

    // The recorded length is that of the keys in the list.
    ghost predicate LengthRight()
      reads this
    {
      allLength == Length(nodes)
    }

    // `skiplist_init`, the largest key having `maxLen` bytes.
    constructor (maxLen: nat)
      ensures Valid() && LengthRight() && nodes == [] && size == allLength == 0 && level == 1
      ensures fresh(header) && header.key == KeyMax(maxLen) && header.height == TOP && AllSelf(header)
    {
      header := new Node(KeyMax(maxLen), TOP, 0);
      level, size, allLength, nodes := 1, 0, 0, [];
      new;
      LoneIsLinked(header);
      assert Chained() == [header];
    }

    // Down all levels: `x` is the last node before `key`, and `update[i]` where level `i` was left.
    method Path(key: Key) returns (update: seq<Node>, x: Node, ghost k: nat)
      requires Valid() && !Before(header.key, key)
      ensures IsSpot(Chained(), key, k) && k < |Chained()| && x == Chained()[k]
      ensures |update| == TOP + 1 && level <= TOP && Chained()[0].height == TOP
      ensures forall i :: 1 <= i <= level ==> update[i] == Chained()[Prev(Heights(Chained()), k, i)]
    {
      hide Before, Next, Prev, LeftAt, Chain, LinkedAt, IsSpot;
      ghost var chain, h := Chained(), Heights(Chained());
      HeadIsTop(chain);
      ghost var ks: seq<nat> := seq(TOP + 1, _ => 0);
      LevelInRange();
      var first := header;
      update := seq(TOP + 1, _ => first);
      x, k := header, 0;
      var i := level;
      while i >= 1
        invariant 0 <= i <= level <= TOP && k < |chain| && x == chain[k] && x.height >= i
        invariant k > 0 ==> Before(x.key, key)
        invariant |update| == |ks| == TOP + 1
        invariant forall l :: i < l <= level ==> LeftAt(chain, key, l, ks[l]) && ks[l] <= k && update[l] == chain[ks[l]]
        invariant i < level ==> ks[i + 1] == k
      {
        x, k := Walk(chain, x, key, i, k);
        LeftIsTall(chain, key, i, k);
        update, ks := update[i := x], ks[i := k];
        i := i - 1;
      }
      if level >= 1 {
        SpotFound(chain, key, k);
      } else {
        SpotOfNone(chain, key);
      }
      SpotInRange(chain, key, k);
      forall l | 1 <= l <= level ensures update[l] == chain[Prev(h, k, l)] { LeftIsPrev(chain, key, l, ks[l], k); }
    }

    lemma LevelInRange()
      requires Valid()
      ensures level <= TOP && (nodes != [] ==> level >= 1)
    {
      TallestIs(Heights(Chained()));
      if nodes != [] { assert Heights(Chained())[1] >= 1; }
    }

    // Key `k` is in the list with value `v`.
    ghost predicate Holds(k: Key, v: nat)
      reads this, nodes
    {
      exists x :: x in nodes && x.key == k && x.value == v
    }

    /** `skiplist_insert`, the new node's height coming from the generator: a map update. */
    method Insert(key: Key, value: nat, height: nat) returns (n: Node)
      requires Valid() && Before(key, header.key) && 1 <= height <= TOP
      modifies this, Chained()
      ensures Valid() && n in nodes && n.key == key && (fresh(n) ==> n.height == height)
      ensures fresh(n) <==> old(forall x :: x in nodes ==> x.key != key)
      ensures forall k, v :: Holds(k, v) <==> if k == key then v == value else old(Holds(k, v))
      ensures header == old(header) && (nodes == old(nodes) || fresh(n))
      ensures forall x :: x in nodes ==> x in old(nodes) || fresh(x)
      ensures size == old(size) + if old(exists x :: x in nodes && x.key == key) then 0 else 1
      ensures old(LengthRight()) ==> LengthRight()
    {
      hide IsSpot, Linked, Before, Heights, Tallest, Length, Prev;
      ghost var chain := Chained();
      var update, x;
      ghost var k;
      Trichotomy(key, header.key);
      update, x, k := Path(key);
      FoundAtSpot(chain, key, k);
      if x.next[1].key == key {
        n := x.next[1];
        OnlyHolder(chain, k + 1);
        SetValue(n, value);
      } else {
        n := AddNode(key, value, height, update, k);
      }
    }

    // The value of a node is replaced.
    method SetValue(n: Node, value: nat)
      requires Valid() && n in nodes
      modifies n`value
      ensures Valid() && n.value == value
    {
      hide Before, Next, Heights, Tallest;
      ghost var chain := Chained();
      LinkedIs(chain);
      ghost var was := Nexts(chain);
      n.value := value;
      assert Nexts(chain) == was;
      LinkedIs(chain);
    }

    // A new node behind position `k`.
    method AddNode(key: Key, value: nat, height: nat, update0: seq<Node>, ghost k: nat) returns (n: Node)
      requires Valid() && Before(key, header.key) && 1 <= height <= TOP && IsSpot(Chained(), key, k)
      requires forall x :: x in nodes ==> x.key != key
      requires |update0| == TOP + 1 && level <= TOP && Chained()[0].height == TOP
      requires forall i :: 1 <= i <= level ==> update0[i] == Chained()[Prev(Heights(Chained()), k, i)]
      modifies this, Chained()`next
      ensures Valid() && fresh(n) && n.key == key && n.value == value && n.height == height
      ensures k <= |old(nodes)| && nodes == old(nodes)[..k] + [n] + old(nodes)[k..]
      ensures header == old(header) && size == old(size) + 1
      ensures old(LengthRight()) ==> LengthRight()
    {
      hide IsSpot, Linked, Before, Heights, Tallest, Length, Prev, Next, With, Inserted;
      ghost var chain := Chained();
      LinkedParts(chain);
      SpotInRange(chain, key, k);
      AboveLevel(k);
      NotMax(chain, key);
      var update := ExtendPath(height, update0, k);
      n := LinkNew(chain, key, value, height, update, k);
      Grow(n, k);
    }

    // The list's own fields after node `n` was linked in behind position `k`.
    method Grow(n: Node, ghost k: nat)
      requires k <= |nodes| && Linked(With(Chained(), k, n)) && size == |nodes|
      requires level == if n.height > Tallest(Heights(Chained())) then n.height else Tallest(Heights(Chained()))
      modifies this`size, this`allLength, this`nodes
      ensures Valid() && nodes == old(nodes)[..k] + [n] + old(nodes)[k..] && size == old(size) + 1
      ensures old(LengthRight()) ==> LengthRight()
    {
      hide Linked, Heights, Tallest, Length, Inserted;
      HeightsWith(Chained(), k, n);
      TallestInserted(Heights(Chained()), k + 1, n.height);
      LengthInserted(nodes, k, n);
      ghost var chain := Chained();
      size, allLength := size + 1, allLength + |n.key| + 4;
      nodes := nodes[..k] + [n] + nodes[k..];
      assert Chained() == With(chain, k, n);
    }

    // Levels above the list's are entered from the header.
    method ExtendPath(height: nat, update0: seq<Node>, ghost k: nat) returns (update: seq<Node>)
      requires height <= TOP && |update0| == TOP + 1 && k < |Chained()| && header.height == TOP && level <= TOP
      requires forall i :: 1 <= i <= level ==> update0[i] == Chained()[Prev(Heights(Chained()), k, i)]
      requires forall i :: level < i <= TOP ==> Prev(Heights(Chained()), k, i) == 0
      modifies this`level
      ensures level == if height > old(level) then height else old(level)
      ensures |update| == TOP + 1
      ensures forall i :: 1 <= i <= height ==> update[i] == Chained()[Prev(Heights(Chained()), k, i)]
    {
      hide Heights, Prev;
      update := update0;
      if height > level {
        for i := level + 1 to height + 1
          invariant |update| == TOP + 1
          invariant forall l :: 1 <= l < i ==> update[l] == Chained()[Prev(Heights(Chained()), k, l)]
        {
          update := update[i := header];
        }
        level := height;
      }
    }

    // No node reaches above `level`.
    lemma AboveLevel(k: nat)
      requires Valid() && k < |Chained()|
      ensures nodes == [] ==> Tallest(Heights(Chained())) == 0
      ensures Chained()[0].height == TOP && level <= TOP
      ensures forall i :: level < i <= TOP ==> Prev(Heights(Chained()), k, i) == 0
    {
      hide Linked, Next;
      var h := Heights(Chained());
      LinkedParts(Chained());
      LevelInRange();
      TallestIs(h);
      forall i | level < i <= TOP ensures Prev(h, k, i) == 0 {
      }
    }

    /** `skiplist_delete`: removes the key; -1 for an empty list, -2 for a key that is not there.  The
        recorded length is not lowered. */
    method Delete(key: Key) returns (rc: int)
      requires Valid() && Before(key, header.key)
      modifies this, Chained()`next
      ensures Valid() && header == old(header) && allLength == old(allLength)
      ensures rc == -1 <==> old(nodes) == []
      ensures rc == -2 <==> old(nodes) != [] && forall x :: x in old(nodes) ==> x.key != key
      ensures rc != 0 ==> rc == -1 || rc == -2
      ensures rc != 0 ==> nodes == old(nodes)
      ensures forall k, v :: Holds(k, v) <==> k != key && old(Holds(k, v))
      ensures rc == 0 ==>
        exists k: nat :: k < |old(nodes)| && old(nodes)[k].key == key && nodes == old(nodes)[..k] + old(nodes)[k + 1..]
    {
      hide IsSpot, Linked, Before, Heights, Tallest, Length, Prev, Next, With;
      if size == 0 { return -1; }
      ghost var chain := Chained();
      var update, x;
      ghost var k;
      Trichotomy(key, header.key);
      update, x, k := Path(key);
      SpotInRange(chain, key, k);
      FoundAtSpot(chain, key, k);
      x := x.next[1];
      CmpMeans(x.key, key);
      if Cmp(x.key, key) != 0 { return -2; }
      OnlyHolder(chain, k + 1);
      RemovedMembers(nodes, k);
      assert chain[1..k + 1] + chain[k + 2..] == nodes[..k] + nodes[k + 1..];
      RemoveNode(x, update, k);
      assert old(nodes)[k] == x;
      assert forall n :: n in nodes ==> n in old(nodes) && n.key != key;
      assert forall n :: n in old(nodes) && n.key != key ==> n in nodes;
      rc := 0;
    }

    // The node at `nodes[k]` is taken out.
    method RemoveNode(x: Node, update: seq<Node>, ghost k: nat)
      requires Valid() && k < |nodes| && nodes[k] == x && |update| == TOP + 1 && level <= TOP
        && Chained()[0].height == TOP
      requires forall i :: 1 <= i <= level ==> update[i] == Chained()[Prev(Heights(Chained()), k, i)]
      modifies this`level, this`size, this`nodes, Chained()`next
      ensures Valid() && nodes == old(nodes)[..k] + old(nodes)[k + 1..]
    {
      hide Linked, Before, Heights, Tallest, Length, Prev, Next, With;
      ghost var rest := nodes[..k] + nodes[k + 1..];
      ghost var chain := [header] + rest;
      WithAgain(header, nodes, k);
      NodeBelowTallest(k + 1);
      level := Bypass(chain, x, update, level, k);
      nodes := rest;
      size := size - 1;
      assert Chained() == chain;
      LoneHeader(Heights(chain));
    }

    lemma NodeBelowTallest(k: nat)
      requires Valid() && 1 <= k < |Chained()|
      ensures Chained()[k].height <= level
    {
      TallestIs(Heights(Chained()));
      assert Heights(Chained())[k] <= level;
    }

    /** `skiplist_divide`: the nodes up to `target` move to a list of their own, the others stay.  For the
        header as target everything moves.  Sizes and lengths are left to the caller. */
    method Divide(target: Node, ghost t: nat) returns (res: SkipList)
      requires Shape() && (target == header || (t < |nodes| && target == nodes[t]))
      modifies this, Chained()`next
      ensures fresh(res) && Shape() && res.Shape() && this != res
      ensures target == old(header) ==>
        res.nodes == old(nodes) && nodes == [] && res.header == old(header) && fresh(header)
      ensures target == old(header) ==>
        res.size == old(size) && res.allLength == old(allLength) && size == allLength == 0
      ensures target != old(header) ==> res.nodes == old(nodes)[..t + 1] && nodes == old(nodes)[t + 1..]
      ensures target != old(header) ==>
        header == old(header) && fresh(res.header) && size == old(size) && allLength == old(allLength)
    {
      hide Linked, Before, Heights, Tallest, Prev, Next, LeftOf, RightOf;
      BottomLinks(Chained(), 0);
      res := new SkipList(|header.key|);
      if target == header {
        Swap(res);
      } else {
        DivideBehind(res, target, t);
      }
    }

    // The two lists change places.
    method Swap(res: SkipList)
      requires this != res
      modifies this, res
      ensures level == old(res.level) && size == old(res.size) && allLength == old(res.allLength)
      ensures header == old(res.header) && nodes == old(res.nodes)
      ensures res.level == old(level) && res.size == old(size) && res.allLength == old(allLength)
      ensures res.header == old(header) && res.nodes == old(nodes)
    {
      level, res.level := res.level, level;
      size, res.size := res.size, size;
      allLength, res.allLength := res.allLength, allLength;
      header, res.header := res.header, header;
      nodes, res.nodes := res.nodes, nodes;
    }

    // The nodes up to `target` move behind the header of the empty list `res`.
    method DivideBehind(res: SkipList, target: Node, ghost t: nat)
      requires Shape() && t < |nodes| && target == nodes[t] && this != res && res.nodes == []
      requires res.header !in Chained() && res.header.height == TOP && res.header.key == header.key
        && AllSelf(res.header)
      modifies this`level, this`nodes, res`level, res`nodes, Chained()`next, res.header`next
      ensures Shape() && res.Shape()
      ensures res.nodes == old(nodes)[..t + 1] && nodes == old(nodes)[t + 1..]
    {
      hide Linked, Before, Heights, Tallest, Prev, Next, LeftOf, RightOf, Halfway;
      ghost var chain, m := Chained(), t + 1;
      ghost var r := res.header;
      TargetPlace(t);
      res.level := level;
      DivideAtTop(res, m);
      DivideUpper(res, target, m);
      DivideLower(res, target, m);
      DivideEnd(chain, m, r);
      SidesAre(chain, header, nodes, r, t);
      if |nodes| > m { SomeHeight(RightOf(chain, m)); }
      if level == 0 { level := 1; }
      res.nodes, nodes := nodes[..t + 1], nodes[t + 1..];
    }

    lemma TargetPlace(t: nat)
      requires Shape() && t < |nodes|
      ensures Chained()[t + 1] == nodes[t] && 1 <= nodes[t].height <= level <= TOP && Chained()[0].height == TOP
      ensures level == Tallest(Heights(Chained())) && nodes[t] != header
    {
      hide Before, Tallest, LinkedAt;
      ghost var h := Heights(Chained());
      TallestIs(h);
      assert h[t + 1] <= Tallest(h);
      var k :| 1 <= k < |h| && h[k] == Tallest(h);
    }

    // A division in progress: levels above `i` are done, and both levels count what is known of them.
    ghost predicate Dividing(res: SkipList, m: nat, i: nat)
      reads this, res, Chained(), res.header
    {
      var a := Tallest(Heights(LeftOf(Chained(), if m < |Chained()| then m else 0, res.header)));
      var b := Tallest(Heights(RightOf(Chained(), if m < |Chained()| then m else 0)));
      && 1 <= m < |Chained()| && header.height == TOP && this != res && header != res.header && i <= TOP
      && Halfway(Chained(), m, res.header, i)
      && level == (if i > b then i else b) && res.level == (if i > a then i else a)
    }

    // Levels above the list's own have nothing to divide.
    lemma DivideAtTop(res: SkipList, m: nat)
      requires this != res && 1 <= m < |Chained()| && Linked(Chained())
        && level == Tallest(Heights(Chained())) == res.level <= TOP
      requires res.header !in Chained() && res.header.height == TOP && AllSelf(res.header)
      requires header.height == TOP
      ensures Dividing(res, m, level)
    {
      hide Linked, Before, Heights, Tallest, Prev, Next, LeftOf, RightOf;
      var chain, r := Chained(), res.header;
      DivideStart(chain, m, r);
      TallestOfSides(chain, m, r);
      forall l | level < l <= TOP ensures Prev(Heights(chain), m, l) == 0 { SideEmpty(chain, m, r, l); }
      DivideDown(chain, m, r, TOP, level);
    }

    // The levels above the target, each divided behind its last node on the left, if there is one.
    method DivideUpper(res: SkipList, target: Node, ghost m: nat)
      requires Dividing(res, m, level) && level == Tallest(Heights(Chained())) && target == Chained()[m]
      requires 1 <= target.height <= level
      modifies this`level, res`level, Chained()`next, res.header`next
      ensures Dividing(res, m, target.height)
    {
      hide Halfway, Tallest, Heights, Next, Prev, OnWay, LeftOf, RightOf;
      ghost var k: nat := FirstAtTop(res, m);
      var x := header.next[level];
      var i := level;
      while i > target.height
        invariant target.height <= i <= TOP && Dividing(res, m, i) && target == Chained()[m]
        invariant k < |Chained()| && OnWay(Chained(), m, i, k) && x == Chained()[k]
      {
        x, k := UpperLevel(res, target, m, x, k, i);
        i := i - 1;
      }
    }

    lemma FirstAtTop(res: SkipList, m: nat) returns (k: nat)
      requires Dividing(res, m, level) && level == Tallest(Heights(Chained())) && 1 <= level <= TOP
      ensures |header.next| == TOP + 1 && k < |Chained()| && header.next[level] == Chained()[k]
        && OnWay(Chained(), m, level, k)
    {
      hide LeftOf, RightOf, Divided, Before;
      var h := Heights(Chained());
      TallestIs(h);
      PointsAt(Chained(), 0, level);
      k := Next(h, 0, level);
      assert |h| > 1;
      var j :| 1 <= j < |h| && h[j] == level;
    }

    // One level above the target; returns where the next one is entered.
    method UpperLevel(res: SkipList, target: Node, ghost m: nat, x0: Node, ghost k0: nat, i: nat)
      returns (x: Node, ghost k: nat)
      requires Dividing(res, m, i) && target == Chained()[m] && 1 <= target.height < i
      requires k0 < |Chained()| && OnWay(Chained(), m, i, k0) && x0 == Chained()[k0]
      modifies this`level, res`level, header`next, Chained()`next, res.header`next
      ensures Dividing(res, m, i - 1) && k < |Chained()| && OnWay(Chained(), m, i - 1, k) && x == Chained()[k]
    {
      hide Halfway, Tallest, Heights, Next, Prev, OnWay, LeftOf, RightOf, Chain, LinkedAt, Divided;
      ghost var chain, r := Chained(), res.header;
      HalfwayParts(chain, m, r, i);
      var none;
      x, k, none := WalkLeft(chain, m, r, x0, target, i, k0);
      SomeSide(chain, m, r, i, k);
      FirstBelow(chain, m, i, k);
      if none {
        PointsAt(chain, 0, i - 1);
        LevelOnRight(res, m, i);
        x, k := header.next[i - 1], Next(Heights(chain), 0, i - 1);
      } else {
        PrevIsLeft(chain, m, i);
        LevelOnLeft(res, x, m, i);
      }
    }

    // A level without a node on the left: the new list is lower.
    method LevelOnRight(res: SkipList, ghost m: nat, i: nat)
      requires Dividing(res, m, i) && i >= 1 && Prev(Heights(Chained()), m, i) == 0
      requires i <= Tallest(Heights(LeftOf(Chained(), m, res.header))) || i <= Tallest(Heights(RightOf(Chained(), m)))
      modifies res`level
      ensures Dividing(res, m, i - 1)
    {
      hide Halfway, Tallest, Heights, Next, Prev, LeftOf, RightOf;
      SideEmpty(Chained(), m, res.header, i);
      DivideNone(Chained(), m, res.header, i);
      res.level := res.level - 1;
    }

    // A level with a last node `x` on the left, divided behind it.
    method LevelOnLeft(res: SkipList, x: Node, ghost m: nat, i: nat)
      requires Dividing(res, m, i) && i >= 1 && header.height == TOP && Prev(Heights(Chained()), m, i) > 0
      requires x == Chained()[Prev(Heights(Chained()), m, i)]
      modifies this`level, header`next, x`next, res.header`next
      ensures Dividing(res, m, i - 1)
    {
      hide Halfway, Tallest, Heights, Next, Prev, LeftOf, RightOf;
      SideEmpty(Chained(), m, res.header, i);
      var atEnd := DivideOne(Chained(), m, header, res.header, x, i);
      if atEnd { level := level - 1; }
    }

    // The levels of the target, divided behind it.
    method DivideLower(res: SkipList, target: Node, ghost m: nat)
      requires 1 <= m < |Chained()| && target == Chained()[m] && 1 <= target.height <= TOP
        && Dividing(res, m, target.height)
      modifies this`level, Chained()`next, res.header`next
      ensures Dividing(res, m, 0)
    {
      hide Halfway, Tallest, Heights, Next, Prev, LeftOf, RightOf;
      ghost var chain := Chained();
      var i := target.height;
      while i >= 1
        invariant 0 <= i <= target.height && Dividing(res, m, i)
      {
        TargetIsLast(chain, m, i);
        LevelOnLeft(res, target, m, i);
        i := i - 1;
      }
    }

    // Key lengths are stored in 8 bits.
    ghost predicate ShortKeys()
      reads this
    {
      |header.key| <= 255 && forall n :: n in nodes ==> |n.key| <= 255
    }

    // The key behind the first `k` nodes; the header's behind all.
    ghost function NextKey(k: nat): Key
      reads this
    {
      if k < |nodes| then nodes[k].key else header.key
    }

    /** `skiplist_cutting_header`: over its limits the list gives up its first nodes, between two and 510 of
        them and less than 3072 bytes, and as many as that allows; else it returns itself. */
    method CuttingHeader() returns (res: SkipList)
      requires Valid() && LengthRight() && ShortKeys()
      modifies this, Chained()`next
      ensures Valid() && LengthRight() && header == old(header) && ShortKeys()
      ensures res == this <==> old(allLength) < SIZE_LIMIT && old(size) < NUM_LIMIT
      ensures res == this ==> nodes == old(nodes) && size == old(size) && allLength == old(allLength)
      ensures res != this ==>
        fresh(res) && fresh(res.header) && res.Valid() && res.LengthRight() && res.nodes + nodes == old(nodes)
      ensures res != this ==> 2 <= res.size <= NUM_LIMIT && res.allLength < SIZE_LIMIT
      ensures res != this ==> res.size == NUM_LIMIT || res.allLength + |NextKey(0)| + 4 >= SIZE_LIMIT
    {
      hide Linked, Before, Heights, Tallest, Prev, Next, Length;
      if allLength < SIZE_LIMIT && size < NUM_LIMIT { return this; }
      var temp, length, idx := CutPoint();
      ghost var all := nodes;
      CutAmounts(all, idx);
      res := Divide(temp, idx - 1);
      res.size, res.allLength := idx, length;
      size, allLength := size - idx, allLength - length;
    }

    // The last node the piece takes, its length and its number of nodes.
    method CutPoint() returns (temp: Node, length: nat, idx: nat)
      requires Valid() && LengthRight() && ShortKeys() && (allLength >= SIZE_LIMIT || size >= NUM_LIMIT)
      ensures 2 <= idx <= NUM_LIMIT && idx <= |nodes| && temp == nodes[idx - 1] && temp != header
      ensures length == Length(nodes[..idx]) < SIZE_LIMIT
      ensures idx == NUM_LIMIT || length + |NextKey(idx)| + 4 >= SIZE_LIMIT
    {
      hide Before, Heights, Tallest, Prev, Next, Length;
      LengthOfNothing();
      BottomLinks(Chained(), 0);
      temp, length, idx := header.next[1], 0, 0;
      assert nodes[..0] == [];
      while temp != header
        invariant idx <= |nodes| && temp == (if idx < |nodes| then nodes[idx] else header)
          && length == Length(nodes[..idx])
        invariant idx > 0 ==> length + |temp.key| + 4 < SIZE_LIMIT && idx < NUM_LIMIT
        invariant idx < 2 ==> length <= 300 * idx
        decreases |nodes| - idx
      {
        HeaderApart(Chained(), idx);
        LengthNext(nodes, idx);
        BottomLinks(Chained(), idx + 1);
        length := length + |temp.key| + 4;
        idx := idx + 1;
        NextShort(idx);
        if length + |temp.next[1].key| + 4 >= SIZE_LIMIT || idx >= NUM_LIMIT { return; }
        temp := temp.next[1];
      }
      HeaderApart(Chained(), idx);
      LengthOfAll(nodes, idx);
    }

    lemma NextShort(k: nat)
      requires ShortKeys() && k <= |nodes|
      ensures k < |nodes| ==> |nodes[k].key| <= 255
      ensures |header.key| <= 255
    {
    }

    /** `skiplist_find`: the node of the key, if the list has one. */
    method FindNode(key: Key) returns (r: Node?)
      requires Valid() && Before(key, header.key)
      ensures r != null ==> r in nodes && r.key == key && Holds(key, r.value)
      ensures r == null ==> forall v :: !Holds(key, v)
    {
      hide Before, Linked, IsSpot;
      if size == 0 { return null; }
      var update, x;
      ghost var k;
      Trichotomy(key, header.key);
      update, x, k := Path(key);
      FoundAtSpot(Chained(), key, k);
      if x.next[1].key == key { r := x.next[1]; } else { r := null; }
    }
  }

  // `k` is the last position whose key comes before `key`.
  ghost predicate IsSpot(chain: seq<Node>, key: Key, k: nat) {
    && k < |chain| && (forall t :: 1 <= t <= k ==> Before(chain[t].key, key))
    && forall t :: k < t < |chain| ==> !Before(chain[t].key, key)
  }

  // Level `l` was left at position `k`: tall enough, and nothing at that level follows before `key`.
  ghost predicate LeftAt(chain: seq<Node>, key: Key, l: nat, k: nat) {
    && k < |chain| && chain[k].height >= l
    && var j := Next(Heights(chain), k, l); j == 0 || !Before(chain[j].key, key)
  }

  lemma LeftIsTall(chain: seq<Node>, key: Key, l: nat, k: nat)
    requires LeftAt(chain, key, l, k)
    ensures k < |chain| && chain[k].height >= l
  {
  }

  lemma SpotOfNone(chain: seq<Node>, key: Key)
    requires |chain| == 1
    ensures IsSpot(chain, key, 0)
  {
  }

  lemma AllBefore(chain: seq<Node>, key: Key, k: nat)
    requires Chain(chain) && k < |chain| && (k > 0 ==> Before(chain[k].key, key))
    ensures forall t :: 1 <= t <= k ==> Before(chain[t].key, key)
  {
    hide Before;
    forall t | 1 <= t <= k ensures Before(chain[t].key, key) {
      if t < k { BeforeTransitive(chain[t].key, chain[k].key, key); }
    }
  }

  lemma LeftIsPrev(chain: seq<Node>, key: Key, l: nat, kl: nat, k: nat)
    requires LeftAt(chain, key, l, kl) && kl <= k && IsSpot(chain, key, k) && chain[0].height >= l
    ensures kl == Prev(Heights(chain), k, l)
  {
    var h := Heights(chain);
    var p := Prev(h, k, l);
    var j := Next(h, kl, l);
  }

  lemma NextAtBottom(chain: seq<Node>, k: nat)
    requires Chain(chain) && k < |chain|
    ensures Next(Heights(chain), k, 1) == if k + 1 < |chain| then k + 1 else 0
  {
    hide Before;
  }

  // The walk at level 1 ends at the spot.
  lemma SpotFound(chain: seq<Node>, key: Key, k: nat)
    requires Chain(chain) && LeftAt(chain, key, 1, k) && (k > 0 ==> Before(chain[k].key, key))
    ensures IsSpot(chain, key, k)
  {
    hide Before, Next;
    AllBefore(chain, key, k);
    NextAtBottom(chain, k);
    forall t | k < t < |chain| ensures !Before(chain[t].key, key) {
      if k + 1 < t && Before(chain[t].key, key) { BeforeTransitive(chain[k + 1].key, chain[t].key, key); }
    }
  }

  // Behind the spot of `key` is its node, if the chain has one.
  lemma FoundAtSpot(chain: seq<Node>, key: Key, k: nat)
    requires Linked(chain) && IsSpot(chain, key, k) && Before(key, chain[0].key)
    ensures |chain[k].next| > 1 && chain[k].next[1] == if k + 1 < |chain| then chain[k + 1] else chain[0]
    ensures chain[k].next[1].key == key ==> k + 1 < |chain|
    ensures chain[k].next[1].key != key ==> forall n :: n in chain[1..] ==> n.key != key
  {
    hide Before;
    PointsAt(chain, k, 1);
    NextAtBottom(chain, k);
    SpotHolds(chain, key, k);
    Trichotomy(key, chain[0].key);
  }

  // A key in the chain is right behind its spot.
  lemma SpotHolds(chain: seq<Node>, key: Key, k: nat)
    requires Chain(chain) && IsSpot(chain, key, k)
    ensures forall t :: 1 <= t < |chain| && chain[t].key == key ==> t == k + 1
  {
    hide Before;
    forall t | 1 <= t < |chain| && chain[t].key == key ensures t == k + 1 {
      Trichotomy(key, key);
      if k + 1 < t { KeysRise(chain, k + 1, t); }
    }
  }

  lemma KeysRise(chain: seq<Node>, j: nat, k: nat)
    requires Chain(chain) && 1 <= j < k < |chain|
    ensures Before(chain[j].key, chain[k].key)
  {
  }

  // ----- linking a node in -----

  // Two pointer lists that differ at level `l` at most.
  ghost predicate AgreeBut(a: seq<Node>, b: seq<Node>, l: nat) {
    |a| == |b| && forall i :: 0 <= i < |a| && i != l ==> a[i] == b[i]
  }

  lemma OneSlot(a: seq<Node>, b: seq<Node>, l: nat)
    requires a == b || (l < |a| && l < |b| && a == b[l := a[l]])
    ensures AgreeBut(a, b, l)
  {
  }

  // Only the pointers of level `l` differ.
  ghost predicate SameBut(now: seq<seq<Node>>, was: seq<seq<Node>>, l: nat) {
    |now| == |was| && forall s :: 0 <= s < |was| ==> AgreeBut(now[s], was[s], l)
  }

  ghost function Nexts(chain: seq<Node>): (w: seq<seq<Node>>)
    reads chain
    ensures |w| == |chain| && forall k :: 0 <= k < |chain| ==> w[k] == chain[k].next
  {
    seq(|chain|, k requires 0 <= k < |chain| reads chain => chain[k].next)
  }

  // `was` are pointers that link the chain at level `l`.
  ghost predicate Links(chain: seq<Node>, l: nat, was: seq<seq<Node>>) {
    |was| == |chain| && forall k :: 0 <= k < |chain| && l <= chain[k].height && l < |was[k]| ==>
      was[k][l] == chain[Next(Heights(chain), k, l)]
  }

  lemma LinksAre(chain: seq<Node>, l: nat)
    ensures Links(chain, l, Nexts(chain)) <==> LinkedAt(chain, l)
  {
    hide Next;
    if Links(chain, l, Nexts(chain)) {
      forall k: nat | k < |chain| ensures PointsOn(chain, k, l) { }
    }
    if LinkedAt(chain, l) {
      forall k: nat | k < |chain| && l <= chain[k].height && l < |Nexts(chain)[k]|
        ensures Nexts(chain)[k][l] == chain[Next(Heights(chain), k, l)]
      {
        assert PointsOn(chain, k, l);
      }
    }
  }

  // A level whose pointers were left alone stays linked.
  lemma StaysLinked(chain: seq<Node>, i: nat, was: seq<seq<Node>>, l: nat)
    requires SameBut(Nexts(chain), was, l) && Links(chain, i, was) && i != l
    ensures LinkedAt(chain, i)
  {
    hide Next;
    forall k | 0 <= k < |chain|
      ensures AgreeBut(chain[k].next, was[k], l)
    {
      assert AgreeBut(Nexts(chain)[k], was[k], l);
    }
    LinksAre(chain, i);
  }

  // The chain with `n` behind position `k`.
  ghost function With(chain: seq<Node>, k: nat, n: Node): (c: seq<Node>)
    requires k < |chain|
    ensures |c| == |chain| + 1 && c[k + 1] == n
    ensures forall t :: 0 <= t <= k ==> c[t] == chain[t]
    ensures forall t :: k + 1 < t < |c| ==> c[t] == chain[t - 1]
  {
    chain[..k + 1] + [n] + chain[k + 1..]
  }

  lemma HeightsWith(chain: seq<Node>, k: nat, n: Node)
    requires k < |chain|
    ensures Heights(With(chain, k, n)) == Inserted(Heights(chain), k + 1, n.height)
  {
    assert Heights(With(chain, k, n)) == Inserted(Heights(chain), k + 1, n.height);
  }

  // `u` points at level `l` to `n`, which points where `u` did.
  method Splice(u: Node, n: Node, l: nat)
    requires u != n && l < |u.next| && l < |n.next|
    modifies u`next, n`next
    ensures u.next == old(u.next)[l := n] && n.next == old(n.next)[l := old(u.next[l])]
  {
    n.next := n.next[l := u.next[l]];
    u.next := u.next[l := n];
  }

  lemma ButForTwo(chain: seq<Node>, was: seq<seq<Node>>, l: nat)
    requires |was| == |chain| && forall s :: 0 <= s < |chain| ==> AgreeBut(chain[s].next, was[s], l)
    ensures SameBut(Nexts(chain), was, l)
  {
    hide AgreeBut;
  }

  /** One level of an insertion: the node before points to the new one, which points on. */
  method LinkLevel(ghost chain: seq<Node>, n: Node, u: Node, ghost k: nat, l: nat)
    requires Chain(chain) && n !in chain && k < |chain| && 1 <= l <= n.height <= TOP && |n.next| == n.height + 1
    requires LinkedAt(chain, l) && u == chain[Prev(Heights(chain), k, l)]
    modifies u`next, n`next
    ensures LinkedAt(With(chain, k, n), l)
    ensures SameBut(Nexts(chain), old(Nexts(chain)), l) && |n.next| == old(|n.next|)
    ensures SameBut(Nexts(With(chain, k, n)), old(Nexts(With(chain, k, n))), l)
  {
    hide Next, Prev, Before, With, LinkedAt, Heights, Chain, AgreeBut, Links, SameBut;
    HeadIsTop(chain);
    ghost var p := Prev(Heights(chain), k, l);
    ghost var c := With(chain, k, n);
    PointsAt(chain, p, l);
    ghost var was, was' := Nexts(chain), Nexts(c);
    LinksAre(chain, l);
    PlacesOf(chain, p);
    Splice(u, n, l);
    LevelDone(chain, n, k, l, was);
    forall s | 0 <= s < |chain| ensures AgreeBut(chain[s].next, was[s], l) { OneSlot(chain[s].next, was[s], l); }
    forall s | 0 <= s < |c| ensures AgreeBut(c[s].next, was'[s], l) { OneSlot(c[s].next, was'[s], l); }
    ButForTwo(chain, was, l);
    ButForTwo(c, was', l);
  }

  lemma HeadIsTop(chain: seq<Node>)
    requires Chain(chain)
    ensures chain != [] && chain[0].height == TOP
  {
  }

  lemma PlacesOf(chain: seq<Node>, p: nat)
    requires Chain(chain) && p < |chain|
    ensures forall s :: 0 <= s < |chain| && s != p ==> chain[s] != chain[p]
  {
  }

  // The same nodes with as many pointers each are still a chain.
  lemma ChainStays(chain: seq<Node>, was: seq<seq<Node>>, l: nat)
    requires SameBut(Nexts(chain), was, l) && |was| == |chain| && ChainOf(chain, was)
    ensures Chain(chain)
  {
    forall k | 0 <= k < |chain| ensures |chain[k].next| == |was[k]| { assert AgreeBut(Nexts(chain)[k], was[k], l); }
  }

  // `Chain` of nodes that have the pointers `was`.
  ghost predicate ChainOf(chain: seq<Node>, was: seq<seq<Node>>) {
    && chain != [] && chain[0].height == TOP && chain[0].key == KeyMax(|chain[0].key|) && |was| == |chain|
    && (forall k :: 0 <= k < |chain| ==> |was[k]| == chain[k].height + 1 && 1 <= chain[k].height <= TOP)
    && (forall j, k :: 0 <= j < k < |chain| ==> chain[j] != chain[k])
    && (forall k :: 1 <= k < |chain| ==> Before(chain[k].key, chain[0].key))
    && (forall j, k :: 1 <= j < k < |chain| ==> Before(chain[j].key, chain[k].key))
  }

  lemma ChainIs(chain: seq<Node>)
    ensures Chain(chain) <==> ChainOf(chain, Nexts(chain))
  {
  }

  lemma LinkedParts(chain: seq<Node>)
    ensures Linked(chain) <==> Chain(chain) && forall i :: 1 <= i <= TOP ==> LinkedAt(chain, i)
    ensures Chain(chain) ==> chain != [] && chain[0].height == TOP
  {
  }

  lemma PointsAt(chain: seq<Node>, k: nat, l: nat)
    requires Chain(chain) && k < |chain| && LinkedAt(chain, l) && l <= chain[k].height
    ensures |chain[k].next| > l && chain[k].next[l] == chain[Next(Heights(chain), k, l)]
  {
    hide Next;
    assert PointsOn(chain, k, l);
  }

  // After the two assignments of a level the longer chain is linked there.
  lemma LevelDone(chain: seq<Node>, n: Node, k: nat, l: nat, was: seq<seq<Node>>)
    requires k < |chain| && 1 <= l <= n.height && chain[0].height >= l && Links(chain, l, was)
    requires var p := Prev(Heights(chain), k, l);
      && l < |n.next| && n.next[l] == chain[Next(Heights(chain), p, l)]
      && l < |chain[p].next| && chain[p].next[l] == n
      && forall s: nat :: s < |chain| && s != p ==> chain[s].next == was[s]
    ensures LinkedAt(With(chain, k, n), l)
  {
    hide Next, Prev, With;
    var c := With(chain, k, n);
    HeightsWith(chain, k, n);
    forall t: nat | t <= |chain| ensures PointsOn(c, t, l) {
      if l <= c[t].height { LinkedOne(chain, n, k, l, t); }
    }
  }

  // Where position `t` of the longer chain looks at level `l`, told from the shorter one.
  lemma LinkedNew(chain: seq<Node>, n: Node, k: nat, l: nat)
    requires k < |chain| && l <= n.height && chain[0].height >= l
    ensures var c, h := With(chain, k, n), Heights(chain);
      c[Next(Inserted(h, k + 1, n.height), k + 1, l)] == chain[Next(h, Prev(h, k, l), l)]
  {
    hide Next, Prev, With, Inserted, Heights;
    var h := Heights(chain);
    NextFromInserted(h, k + 1, n.height, l);
    PrevLooksPast(h, k, l, Prev(h, k, l));
  }

  lemma LinkedOld(chain: seq<Node>, n: Node, k: nat, l: nat, s: nat)
    requires k < |chain| && l <= n.height && s < |chain| && chain[0].height >= l && l <= chain[s].height
    ensures var c, h := With(chain, k, n), Heights(chain);
      c[Next(Inserted(h, k + 1, n.height), Shift(k + 1, s), l)] ==
        if s == Prev(h, k, l) then n else chain[Next(h, s, l)]
  {
    hide Next, Prev, With, Inserted, Heights;
    var h := Heights(chain);
    if s <= k { PrevLooksPast(h, k, l, s); }
    if s == Prev(h, k, l) {
      NextOverInserted(h, k + 1, n.height, s, l);
    } else {
      NextApart(h, k + 1, n.height, s, l);
    }
  }

  lemma LinkedOne(chain: seq<Node>, n: Node, k: nat, l: nat, t: nat)
    requires k < |chain| && l <= n.height && t <= |chain| && chain[0].height >= l
    requires t != k + 1 ==> l <= chain[if t <= k then t else t - 1].height
    ensures var c, h := With(chain, k, n), Heights(chain);
      c[Next(Inserted(h, k + 1, n.height), t, l)] ==
        if t == k + 1 then chain[Next(h, Prev(h, k, l), l)]
        else
          var s := if t <= k then t else t - 1;
          if s == Prev(h, k, l) then n else chain[Next(h, s, l)]
  {
    hide Next, Prev, With, Inserted, Heights;
    if t == k + 1 {
      LinkedNew(chain, n, k, l);
    } else {
      LinkedOld(chain, n, k, l, if t <= k then t else t - 1);
    }
  }

  // Above the new node's height nothing has changed.
  lemma LinkedAbove(chain: seq<Node>, n: Node, k: nat, l: nat)
    requires k < |chain| && l > n.height && LinkedAt(chain, l)
    ensures LinkedAt(With(chain, k, n), l)
  {
    hide Next, With;
    var c := With(chain, k, n);
    forall t: nat | t < |c| ensures PointsOn(c, t, l) { PointsAbove(chain, n, k, l, t); }
  }

  lemma PointsAbove(chain: seq<Node>, n: Node, k: nat, l: nat, t: nat)
    requires k < |chain| && l > n.height && LinkedAt(chain, l) && t <= |chain|
    ensures PointsOn(With(chain, k, n), t, l)
  {
    hide Next, With, Heights, Inserted;
    HeightsWith(chain, k, n);
    if t != k + 1 {
      var s := if t <= k then t else t - 1;
      assert PointsOn(chain, s, l);
      NextApart(Heights(chain), k + 1, n.height, s, l);
    }
  }

  // A node between its neighbours in key order.
  lemma ChainWith(chain: seq<Node>, n: Node, k: nat)
    requires Chain(chain) && n !in chain && k < |chain| && IsSpot(chain, n.key, k) && Before(n.key, chain[0].key)
    requires forall x :: x in chain ==> x.key != n.key
    requires |n.next| == n.height + 1 && 1 <= n.height <= TOP
    ensures Chain(With(chain, k, n))
  {
    hide Before, With;
    var c := With(chain, k, n);
    forall i, j | 1 <= i < j < |c| ensures Before(c[i].key, c[j].key) {
      if j == k + 1 {
        assert Before(chain[i].key, n.key);
      } else if i == k + 1 {
        assert chain[j - 1] in chain;
        Trichotomy(n.key, chain[j - 1].key);
      }
    }
  }

  // A new node, linked in behind position `k`.
  method LinkNew(ghost chain: seq<Node>, key: Key, value: nat, height: nat, update: seq<Node>, ghost k: nat)
    returns (n: Node)
    requires Linked(chain) && k < |chain| && 1 <= height <= TOP
    requires IsSpot(chain, key, k) && Before(key, chain[0].key) && forall x :: x in chain ==> x.key != key
    requires |update| == TOP + 1 && chain[0].height == TOP
    requires forall l :: 1 <= l <= height ==> update[l] == chain[Prev(Heights(chain), k, l)]
    modifies chain`next
    ensures fresh(n) && n.key == key && n.value == value && n.height == height && Linked(With(chain, k, n))
  {
    hide Linked, IsSpot, Before, Heights, Prev, With;
    n := new Node(key, height, value);
    LinkIn(chain, n, update, k);
  }

  /** The whole insertion of pointers, level by level. */
  method LinkIn(ghost chain: seq<Node>, n: Node, update: seq<Node>, ghost k: nat)
    requires Linked(chain) && n !in chain && k < |chain| && 1 <= n.height <= TOP && |n.next| == n.height + 1
    requires IsSpot(chain, n.key, k) && Before(n.key, chain[0].key) && forall x :: x in chain ==> x.key != n.key
    requires |update| == TOP + 1 && forall l :: 1 <= l <= n.height ==> update[l] == chain[Prev(Heights(chain), k, l)]
    modifies chain`next, n`next
    ensures Linked(With(chain, k, n))
  {
    hide *;
    LinkedParts(chain);
    for l := 1 to n.height + 1
      invariant Chain(chain) && |n.next| == n.height + 1
      invariant forall i :: 1 <= i < l ==> LinkedAt(With(chain, k, n), i)
      invariant forall i :: l <= i <= TOP ==> LinkedAt(chain, i)
    {
      LinkOneLevel(chain, n, update[l], k, l);
    }
    forall i | n.height < i <= TOP ensures LinkedAt(With(chain, k, n), i) { LinkedAbove(chain, n, k, i); }
    ChainWith(chain, n, k);
    LinkedParts(With(chain, k, n));
  }

  // One level, with all others kept.
  method LinkOneLevel(ghost chain: seq<Node>, n: Node, u: Node, ghost k: nat, l: nat)
    requires Chain(chain) && n !in chain && k < |chain| && 1 <= l <= n.height <= TOP && |n.next| == n.height + 1
    requires chain[0].height == TOP && u == chain[Prev(Heights(chain), k, l)]
    requires forall i :: 1 <= i < l ==> LinkedAt(With(chain, k, n), i)
    requires forall i :: l <= i <= TOP ==> LinkedAt(chain, i)
    modifies u`next, n`next
    ensures Chain(chain) && |n.next| == n.height + 1
    ensures forall i :: 1 <= i <= l ==> LinkedAt(With(chain, k, n), i)
    ensures forall i :: l < i <= TOP ==> LinkedAt(chain, i)
  {
    hide *;
    ghost var c := With(chain, k, n);
    ghost var was, was' := Nexts(chain), Nexts(c);
    ChainIs(chain);
    forall i: nat ensures Links(chain, i, was) <==> LinkedAt(chain, i) { LinksAre(chain, i); }
    forall i: nat ensures Links(c, i, was') <==> LinkedAt(c, i) { LinksAre(c, i); }
    LinkLevel(chain, n, u, k, l);
    ChainStays(chain, was, l);
    forall i | l < i <= TOP ensures LinkedAt(chain, i) { StaysLinked(chain, i, was, l); }
    forall i | 1 <= i < l ensures LinkedAt(c, i) { StaysLinked(c, i, was', l); }
  }

  // `Linked`, told from the nodes and their pointers.
  ghost predicate LinkedOf(chain: seq<Node>, was: seq<seq<Node>>) {
    ChainOf(chain, was) && forall i :: 1 <= i <= TOP ==> Links(chain, i, was)
  }

  lemma LinkedIs(chain: seq<Node>)
    ensures Linked(chain) <==> LinkedOf(chain, Nexts(chain))
  {
    hide Links, LinkedAt, Before, Next;
    ChainIs(chain);
    forall i: nat ensures Links(chain, i, Nexts(chain)) <==> LinkedAt(chain, i) { LinksAre(chain, i); }
  }

  lemma OnlyHolder(chain: seq<Node>, k: nat)
    requires Linked(chain) && 1 <= k < |chain|
    ensures forall t :: 1 <= t < |chain| && chain[t].key == chain[k].key ==> t == k
    ensures forall n :: n in chain[1..k] + chain[k + 1..] ==> n.key != chain[k].key
  {
    hide Before;
    forall t | 1 <= t < |chain| && t != k ensures chain[t].key != chain[k].key {
      if t < k { KeysDiffer(chain, t, k); } else { KeysDiffer(chain, k, t); }
    }
  }

  lemma KeysDiffer(chain: seq<Node>, j: nat, k: nat)
    requires Linked(chain) && 1 <= j < k < |chain|
    ensures chain[j].key != chain[k].key
  {
    Trichotomy(chain[j].key, chain[j].key);
  }

  lemma SpotInRange(chain: seq<Node>, key: Key, k: nat)
    requires IsSpot(chain, key, k)
    ensures k < |chain|
  {
  }

  lemma NotMax(chain: seq<Node>, key: Key)
    requires Chain(chain) && Before(key, chain[0].key) && forall x :: x in chain[1..] ==> x.key != key
    ensures forall x :: x in chain ==> x.key != key
  {
    Trichotomy(key, chain[0].key);
    assert chain == [chain[0]] + chain[1..];
  }

  lemma TallestInserted(h: seq<nat>, m: nat, c: nat)
    requires 0 < m <= |h|
    ensures Tallest(Inserted(h, m, c)) == if c > Tallest(h) then c else Tallest(h)
  {
    hide Tallest, Inserted;
    var h', t := Inserted(h, m, c), Tallest(h);
    TallestIs(h);
    forall k | 1 <= k < |h'| ensures h'[k] <= if c > t then c else t {
      if k != m { assert h'[k] == h[if k < m then k else k - 1]; }
    }
    if c > t || |h| == 1 {
      assert h'[m] == c;
    } else {
      var k :| 1 <= k < |h| && h[k] == t;
      assert h'[if k < m then k else k + 1] == t;
    }
    TallestUnique(h', if c > t then c else t);
  }

  lemma LengthInserted(nodes: seq<Node>, k: nat, n: Node)
    requires k <= |nodes|
    ensures Length(nodes[..k] + [n] + nodes[k..]) == Length(nodes) + |n.key| + 4
  {
    hide Length;
    LengthConcat(nodes[..k] + [n], nodes[k..]);
    LengthConcat(nodes[..k], [n]);
    LengthConcat(nodes[..k], nodes[k..]);
    assert nodes == nodes[..k] + nodes[k..];
    LengthOfOne(n);
  }

  lemma LengthOfOne(n: Node)
    ensures Length([n]) == |n.key| + 4
  {
    assert [n][..0] == [];
  }

  // ----- unlinking a node -----

  lemma {:induction false} PrevOfPrefix(h: seq<nat>, g: seq<nat>, m: nat, i: nat)
    requires m < |h| && m < |g| && h[0] == g[0] >= i && forall t :: 0 <= t <= m ==> h[t] == g[t]
    ensures Prev(h, m, i) == Prev(g, m, i)
  {
    if h[m] < i { PrevOfPrefix(h, g, m - 1, i); }
  }

  // Level `l` of a chain from which a node behind position `k` is being taken out: the one before it is
  // still to be pointed on.
  ghost predicate Bypassable(chain: seq<Node>, k: nat, l: nat, was: seq<seq<Node>>) {
    && k < |chain| == |was| && chain[0].height >= l
    && forall s: nat :: s < |chain| ==> PointedOn(chain, k, l, was, s)
  }

  // The node at `s`, if it is not the one to be redirected, points on with its pointers `was[s]`.
  ghost predicate PointedOn(chain: seq<Node>, k: nat, l: nat, was: seq<seq<Node>>, s: nat)
    requires k < |chain| == |was| && chain[0].height >= l && s < |chain|
  {
    s != Prev(Heights(chain), k, l) && l <= chain[s].height && l < |was[s]| ==>
      was[s][l] == chain[Next(Heights(chain), s, l)]
  }

  lemma BypassFrom(chain: seq<Node>, x: Node, k: nat, l: nat)
    requires k < |chain| && chain[0].height >= l && l <= x.height && LinkedAt(With(chain, k, x), l)
    requires l < |x.next|
    ensures Bypassable(chain, k, l, Nexts(chain))
    ensures x.next[l] == chain[Next(Heights(chain), Prev(Heights(chain), k, l), l)]
  {
    hide Next, Prev, With, Heights, Inserted, LinkedAt, PointedOn;
    forall s: nat | s < |chain| ensures PointedOn(chain, k, l, Nexts(chain), s) {
      StillPoints(chain, x, k, l, s);
    }
    LinkedPoint(chain, x, k, l, k + 1);
    LinkedOne(chain, x, k, l, k + 1);
  }

  lemma StillPoints(chain: seq<Node>, x: Node, k: nat, l: nat, s: nat)
    requires k < |chain| && chain[0].height >= l && l <= x.height && LinkedAt(With(chain, k, x), l) && s < |chain|
    ensures PointedOn(chain, k, l, Nexts(chain), s)
  {
    hide Next, Prev, Heights, Inserted, LinkedAt;
    if s != Prev(Heights(chain), k, l) && l <= chain[s].height && l < |chain[s].next| {
      var t := if s <= k then s else s + 1;
      LinkedPoint(chain, x, k, l, t);
      LinkedOne(chain, x, k, l, t);
    }
  }

  lemma LinkedPoint(chain: seq<Node>, x: Node, k: nat, l: nat, t: nat)
    requires k < |chain| && LinkedAt(With(chain, k, x), l) && t <= |chain|
    requires l <= (if t == k + 1 then x else chain[if t <= k then t else t - 1]).height
    ensures var c := With(chain, k, x); var j := Next(Inserted(Heights(chain), k + 1, x.height), t, l);
      j < |c| && (l < |c[t].next| ==> c[t].next[l] == c[j])
  {
    hide Next, Prev, Heights, Inserted;
    HeightsWith(chain, k, x);
    assert PointsOn(With(chain, k, x), t, l);
  }

  // Above the node's height the shorter chain is linked already.
  lemma BypassAbove(chain: seq<Node>, x: Node, k: nat, l: nat)
    requires k < |chain| && l > x.height && LinkedAt(With(chain, k, x), l)
    ensures LinkedAt(chain, l)
  {
    hide Next, With, PointsOn;
    forall s: nat | s < |chain| ensures PointsOn(chain, s, l) { PointsOnWithout(chain, x, k, l, s); }
  }

  lemma PointsOnWithout(chain: seq<Node>, x: Node, k: nat, l: nat, s: nat)
    requires k < |chain| && l > x.height && LinkedAt(With(chain, k, x), l) && s < |chain|
    ensures PointsOn(chain, s, l)
  {
    hide Next, With, Heights, Inserted;
    var c := With(chain, k, x);
    HeightsWith(chain, k, x);
    assert PointsOn(c, if s <= k then s else s + 1, l);
    NextApart(Heights(chain), k + 1, x.height, s, l);
  }

  // The node before now points where the one taken out did.
  lemma Bypassed(chain: seq<Node>, k: nat, l: nat, was: seq<seq<Node>>)
    requires Bypassable(chain, k, l, was)
    requires var p := Prev(Heights(chain), k, l);
      && l < |chain[p].next| && chain[p].next[l] == chain[Next(Heights(chain), p, l)]
      && forall s: nat :: s < |chain| && s != p ==> chain[s].next == was[s]
    ensures LinkedAt(chain, l)
  {
    hide Next, Prev;
    forall s: nat | s < |chain| ensures PointsOn(chain, s, l) { assert PointedOn(chain, k, l, was, s); }
  }

  lemma ChainWithout(chain: seq<Node>, x: Node, k: nat)
    requires k < |chain| && Chain(With(chain, k, x))
    ensures Chain(chain) && x !in chain && 1 <= x.height <= TOP && |x.next| == x.height + 1
  {
    hide Before, With;
    var c := With(chain, k, x);
    forall s | 0 <= s < |chain| ensures chain[s] == c[if s <= k then s else s + 1] && chain[s] != x { }
    forall i, j | 0 <= i < j < |chain| ensures chain[i] != chain[j] && (1 <= i ==> Before(chain[i].key, chain[j].key)) {
      assert c[if i <= k then i else i + 1] != c[if j <= k then j else j + 1];
      if 1 <= i { KeysRise(c, if i <= k then i else i + 1, if j <= k then j else j + 1); }
    }
    assert c[k + 1] == x;
  }

  // A level is empty exactly if it is above the tallest node.
  lemma LevelEmpty(h: seq<nat>, k: nat, i: nat)
    requires k < |h| && h[0] >= i >= 1
    ensures Prev(h, k, i) == 0 && Next(h, 0, i) == 0 <==> i > Tallest(h)
  {
    hide Tallest;
    TallestIs(h);
    if i <= Tallest(h) {
      var t :| 1 <= t < |h| && h[t] == Tallest(h);
    }
  }

  /** One level of a removal; `empty` tells whether the level has no node left. */
  method BypassLevel(ghost chain: seq<Node>, x: Node, u: Node, ghost k: nat, l: nat) returns (empty: bool)
    requires Chain(chain) && x !in chain && k < |chain| && 1 <= l <= x.height <= TOP && |x.next| == x.height + 1
    requires LinkedAt(With(chain, k, x), l) && u == chain[Prev(Heights(chain), k, l)]
    modifies u`next
    ensures LinkedAt(chain, l) && SameBut(Nexts(chain), old(Nexts(chain)), l)
    ensures SameBut(Nexts(With(chain, k, x)), old(Nexts(With(chain, k, x))), l)
    ensures empty <==> l > Tallest(Heights(chain))
  {
    hide Next, Prev, Before, With, LinkedAt, Heights, Tallest, AgreeBut, SameBut;
    ghost var p := Prev(Heights(chain), k, l);
    ghost var c := With(chain, k, x);
    ghost var was, was' := Nexts(chain), Nexts(c);
    BypassFrom(chain, x, k, l);
    PlacesOf(chain, p);
    u.next := u.next[l := x.next[l]];
    empty := u == u.next[l];
    Bypassed(chain, k, l, was);
    forall s | 0 <= s < |chain| ensures AgreeBut(chain[s].next, was[s], l) { OneSlot(chain[s].next, was[s], l); }
    forall s | 0 <= s < |c| ensures AgreeBut(c[s].next, was'[s], l) { OneSlot(c[s].next, was'[s], l); }
    ButForTwo(chain, was, l);
    ButForTwo(c, was', l);
    LevelEmpty(Heights(chain), k, l);
    PlacesOf(chain, Next(Heights(chain), p, l));
  }

  // One level of a removal, with all others kept.
  method BypassOneLevel(ghost chain: seq<Node>, x: Node, u: Node, ghost k: nat, l: nat) returns (empty: bool)
    requires k < |chain| && Chain(chain) && x !in chain && 1 <= l <= x.height <= TOP && |x.next| == x.height + 1
    requires chain[0].height == TOP && u == chain[Prev(Heights(chain), k, l)]
    requires forall i :: 1 <= i <= l ==> LinkedAt(With(chain, k, x), i)
    requires forall i :: l < i <= TOP ==> LinkedAt(chain, i)
    modifies u`next
    ensures Chain(chain) && |x.next| == x.height + 1
    ensures forall i :: 1 <= i < l ==> LinkedAt(With(chain, k, x), i)
    ensures forall i :: l <= i <= TOP ==> LinkedAt(chain, i)
    ensures empty <==> l > Tallest(Heights(chain))
  {
    hide *;
    ghost var c := With(chain, k, x);
    ghost var was, was' := Nexts(chain), Nexts(c);
    ChainIs(chain);
    forall i: nat ensures Links(chain, i, was) <==> LinkedAt(chain, i) { LinksAre(chain, i); }
    forall i: nat ensures Links(c, i, was') <==> LinkedAt(c, i) { LinksAre(c, i); }
    UsedIsInChain(chain, u, Prev(Heights(chain), k, l));
    empty := BypassLevel(chain, x, u, k, l);
    ChainStays(chain, was, l);
    forall i | l < i <= TOP ensures LinkedAt(chain, i) { StaysLinked(chain, i, was, l); }
    forall i | 1 <= i < l ensures LinkedAt(c, i) { StaysLinked(c, i, was', l); }
  }

  lemma UsedIsInChain(chain: seq<Node>, u: Node, p: nat)
    requires p < |chain| && u == chain[p]
    ensures u in chain
  {
  }

  /** The whole removal of pointers, from the top of `x` down; `level` drops with each level emptied. */
  method Bypass(ghost chain: seq<Node>, x: Node, update: seq<Node>, level0: nat, ghost k: nat) returns (level: nat)
    requires k < |chain| && Linked(With(chain, k, x)) && |update| == TOP + 1
    requires forall l :: 1 <= l <= x.height ==> update[l] == With(chain, k, x)[Prev(Heights(With(chain, k, x)), k, l)]
    requires With(chain, k, x)[0].height == TOP && x.height <= TOP
    requires level0 == Tallest(Heights(With(chain, k, x)))
    modifies With(chain, k, x)`next
    ensures Linked(chain) && level == Tallest(Heights(chain))
  {
    hide *;
    ghost var c, t := With(chain, k, x), Tallest(Heights(chain));
    LinkedParts(c);
    ChainWithout(chain, x, k);
    HeadOf(chain, x, k);
    UpdateBelow(chain, x, k);
    TallestWith(chain, x, k);
    forall i | x.height < i <= TOP ensures LinkedAt(chain, i) { BypassAbove(chain, x, k, i); }
    level := level0;
    var i := x.height;
    while i >= 1
      invariant 0 <= i <= x.height && Chain(chain) && |x.next| == x.height + 1
      invariant forall l :: 1 <= l <= i ==> LinkedAt(c, l)
      invariant forall l :: i < l <= TOP ==> LinkedAt(chain, l)
      invariant level == if i > t then i else t
    {
      var empty := BypassOneLevel(chain, x, update[i], k, i);
      if empty { level := level - 1; }
      i := i - 1;
    }
    LinkedParts(chain);
  }

  lemma HeadOf(chain: seq<Node>, x: Node, k: nat)
    requires k < |chain|
    ensures With(chain, k, x)[0] == chain[0] && x in With(chain, k, x)
  {
    assert With(chain, k, x)[k + 1] == x;
  }

  // The nodes before `x` are the same with and without it.
  lemma UpdateBelow(chain: seq<Node>, x: Node, k: nat)
    requires k < |chain| && chain[0].height == TOP
    ensures forall l :: 1 <= l <= TOP ==>
      With(chain, k, x)[Prev(Heights(With(chain, k, x)), k, l)] == chain[Prev(Heights(chain), k, l)]
  {
    hide With, Prev;
    forall l | 1 <= l <= TOP
      ensures With(chain, k, x)[Prev(Heights(With(chain, k, x)), k, l)] == chain[Prev(Heights(chain), k, l)]
    {
      PrevOfPrefix(Heights(With(chain, k, x)), Heights(chain), k, l);
    }
  }

  lemma TallestWith(chain: seq<Node>, x: Node, k: nat)
    requires k < |chain|
    ensures Tallest(Heights(With(chain, k, x))) == if x.height > Tallest(Heights(chain)) then x.height
      else Tallest(Heights(chain))
  {
    hide *;
    HeightsWith(chain, k, x);
    TallestInserted(Heights(chain), k + 1, x.height);
  }

  lemma WithAgain(header: Node, nodes: seq<Node>, k: nat)
    requires k < |nodes|
    ensures With([header] + (nodes[..k] + nodes[k + 1..]), k, nodes[k]) == [header] + nodes
  {
  }

  lemma RemovedMembers(nodes: seq<Node>, k: nat)
    requires k < |nodes|
    ensures forall n :: n in nodes <==> n == nodes[k] || n in nodes[..k] + nodes[k + 1..]
  {
    assert nodes == nodes[..k] + [nodes[k]] + nodes[k + 1..];
  }

  lemma LoneHeader(h: seq<nat>)
    requires h != []
    ensures |h| == 1 ==> Tallest(h) == 0
  {
  }

  // ----- dividing a chain behind position `m` -----

  // The nodes up to position `m` behind a header of their own, and the others behind the old header.
  ghost function LeftOf(chain: seq<Node>, m: nat, r: Node): (c: seq<Node>)
    requires m < |chain|
    ensures |c| == m + 1 && c[0] == r && forall k :: 1 <= k <= m ==> c[k] == chain[k]
  {
    [r] + chain[1..m + 1]
  }

  ghost function RightOf(chain: seq<Node>, m: nat): (c: seq<Node>)
    requires m < |chain|
    ensures |c| == |chain| - m && c[0] == chain[0] && forall k :: m < k < |chain| ==> c[k - m] == chain[k]
  {
    [chain[0]] + chain[m + 1..]
  }

  lemma NextLeft(h: seq<nat>, m: nat, g: seq<nat>, k: nat, i: nat)
    requires k <= m < |h| && |g| == m + 1 && forall t :: 1 <= t <= m ==> g[t] == h[t]
    ensures Next(g, k, i) == if 0 < Next(h, k, i) <= m then Next(h, k, i) else 0
  {
    hide Next;
    var j := Next(h, k, i);
    NextUnique(g, k, i, if 0 < j <= m then j else 0);
  }

  lemma NextRight(h: seq<nat>, m: nat, g: seq<nat>, k: nat, i: nat)
    requires m <= k < |h| && |g| == |h| - m && forall t :: m < t < |h| ==> g[t - m] == h[t]
    ensures Next(g, k - m, i) == if Next(h, k, i) == 0 then 0 else Next(h, k, i) - m
  {
    hide Next;
    var j := Next(h, k, i);
    forall t | k - m < t < (if j == 0 then |g| else j - m) ensures g[t] < i { assert h[t + m] < i; }
    NextUnique(g, k - m, i, if j == 0 then 0 else j - m);
  }

  // What the pointers of level `l` are after it was divided: the last node on the left, if there is one,
  // points to the new header `r`, which points to the first; the old header points to the first on the right.
  ghost predicate Divided(chain: seq<Node>, m: nat, r: Node, l: nat, now: seq<seq<Node>>, rnow: seq<Node>)
    requires m < |chain| == |now| && chain[0].height >= l
  {
    var h := Heights(chain);
    var p := Prev(h, m, l);
    && l < |rnow| && l < |now[0]|
    && rnow[l] == (if p == 0 then r else chain[Next(h, 0, l)])
    && now[0][l] == chain[Next(h, m, l)]
    && forall s :: 1 <= s < |chain| && l <= chain[s].height && l < |now[s]| ==>
         now[s][l] == if s == p then r else chain[Next(h, s, l)]
  }

  lemma DividedLeft(chain: seq<Node>, m: nat, r: Node, l: nat)
    requires m < |chain| && chain[0].height == r.height >= l && Divided(chain, m, r, l, Nexts(chain), r.next)
    ensures LinkedAt(LeftOf(chain, m, r), l)
  {
    hide Next, Prev, LeftOf;
    var c, h := LeftOf(chain, m, r), Heights(chain);
    forall k: nat | k <= m ensures PointsOn(c, k, l) {
      if l <= c[k].height {
        NextLeft(h, m, Heights(c), k, l);
        PrevLooksPast(h, m, l, k);
        PrevLooksPast(h, m, l, 0);
      }
    }
  }

  lemma DividedRight(chain: seq<Node>, m: nat, r: Node, l: nat)
    requires m < |chain| && chain[0].height >= l && Divided(chain, m, r, l, Nexts(chain), r.next)
    ensures LinkedAt(RightOf(chain, m), l)
  {
    hide PointsOn, Divided, RightOf;
    var c := RightOf(chain, m);
    forall k: nat | k < |c| ensures PointsOn(c, k, l) { DividedPoints(chain, m, r, l, c, k); }
  }

  lemma DividedPoints(chain: seq<Node>, m: nat, r: Node, l: nat, c: seq<Node>, k: nat)
    requires m < |chain| && chain[0].height >= l && Divided(chain, m, r, l, Nexts(chain), r.next)
    requires c == RightOf(chain, m) && k < |c|
    ensures PointsOn(c, k, l)
  {
    hide Next, Prev, RightOf;
    if l <= c[k].height { NextRight(Heights(chain), m, Heights(c), k + m, l); }
    if k > 0 && l <= c[k].height {
      assert c[k] == chain[k + m];
    }
  }

  lemma DividedStays(chain: seq<Node>, m: nat, r: Node, i: nat, was: seq<seq<Node>>, rwas: seq<Node>,
                     now: seq<seq<Node>>, rnow: seq<Node>, l: nat)
    requires m < |chain| == |was| && chain[0].height >= i && Divided(chain, m, r, i, was, rwas)
    requires SameBut(now, was, l) && AgreeBut(rnow, rwas, l) && i != l
    ensures Divided(chain, m, r, i, now, rnow)
  {
    hide Next, Prev;
    assert AgreeBut(now[0], was[0], l);
    forall s | 1 <= s < |chain| && i <= chain[s].height && i < |now[s]| ensures now[s][i] == was[s][i] && i < |was[s]| {
      assert AgreeBut(now[s], was[s], l);
    }
  }

  // A level without nodes on the left needs nothing.
  lemma NothingOnLeft(chain: seq<Node>, m: nat, r: Node, l: nat)
    requires Chain(chain) && m < |chain| && 1 <= l <= TOP && LinkedAt(chain, l) && Prev(Heights(chain), m, l) == 0
    requires l < |r.next| && r.next[l] == r
    ensures Divided(chain, m, r, l, Nexts(chain), r.next)
  {
    hide Next, Prev, Before;
    PrevLooksPast(Heights(chain), m, l, 0);
    LinksAre(chain, l);
  }

  // `r` takes over what `header` points to up to `x`, `header` what `x` points to.
  method Regroup(header: Node, r: Node, x: Node, l: nat)
    requires header != r && header != x && r != x && l < |header.next| && l < |r.next| && l < |x.next|
    modifies header`next, r`next, x`next
    ensures header.next == old(header.next)[l := old(x.next[l])]
    ensures r.next == old(r.next)[l := old(header.next[l])] && x.next == old(x.next)[l := r]
  {
    var first, rest := header.next[l], x.next[l];
    header.next := header.next[l := rest];
    r.next := r.next[l := first];
    x.next := x.next[l := r];
  }

  /** One level divided behind `x`, its last node on the left. */
  method DivideLevel(ghost chain: seq<Node>, ghost m: nat, header: Node, r: Node, x: Node, l: nat) returns (atEnd: bool)
    requires Chain(chain) && m < |chain| && header == chain[0] && r !in chain && 1 <= l <= TOP && |r.next| == TOP + 1
    requires LinkedAt(chain, l) && Prev(Heights(chain), m, l) > 0 && x == chain[Prev(Heights(chain), m, l)]
    modifies header`next, r`next, x`next
    ensures Divided(chain, m, r, l, Nexts(chain), r.next)
    ensures SameBut(Nexts(chain), old(Nexts(chain)), l) && AgreeBut(r.next, old(r.next), l)
    ensures atEnd <==> Next(Heights(chain), m, l) == 0
  {
    hide Next, Prev, Before, LinkedAt, Heights, AgreeBut, SameBut;
    ghost var h, p := Heights(chain), Prev(Heights(chain), m, l);
    ghost var was := Nexts(chain);
    PrevLooksPast(h, m, l, p);
    PointsAt(chain, p, l);
    PointsAt(chain, 0, l);
    LinksAre(chain, l);
    PlacesOf(chain, p);
    PlacesOf(chain, 0);
    atEnd := x.next[l] == header;
    Regroup(header, r, x, l);
    forall s | 0 <= s < |chain| ensures AgreeBut(chain[s].next, was[s], l) { OneSlot(chain[s].next, was[s], l); }
    OneSlot(r.next, old(r.next), l);
    ButForTwo(chain, was, l);
  }

  // In the middle of a division: levels above `i` are divided, the others are as before.
  ghost predicate Halfway(chain: seq<Node>, m: nat, r: Node, i: nat)
    reads chain, r
  {
    && Chain(chain) && m < |chain| && r !in chain && r.height == TOP && |r.next| == TOP + 1
    && (forall l :: i < l <= TOP ==> Divided(chain, m, r, l, Nexts(chain), r.next))
    && forall l :: 1 <= l <= i && l <= TOP ==> LinkedAt(chain, l) && r.next[l] == r
  }

  lemma HalfwayParts(chain: seq<Node>, m: nat, r: Node, i: nat)
    requires Halfway(chain, m, r, i)
    ensures Chain(chain) && m < |chain| && r !in chain && r.height == TOP && |r.next| == TOP + 1
      && chain[0].height == TOP
    ensures forall l :: i < l <= TOP ==> Divided(chain, m, r, l, Nexts(chain), r.next)
    ensures forall l :: 1 <= l <= i && l <= TOP ==> LinkedAt(chain, l) && r.next[l] == r
  {
  }

  lemma HalfwayMake(chain: seq<Node>, m: nat, r: Node, i: nat)
    requires Chain(chain) && m < |chain| && r !in chain && r.height == TOP && |r.next| == TOP + 1
    requires forall l :: i < l <= TOP ==> Divided(chain, m, r, l, Nexts(chain), r.next)
    requires forall l :: 1 <= l <= i && l <= TOP ==> LinkedAt(chain, l) && r.next[l] == r
    ensures Halfway(chain, m, r, i)
  {
  }

  // The pointers of `r` at other levels.
  lemma AgreeAt(a: seq<Node>, b: seq<Node>, l: nat)
    requires AgreeBut(a, b, l)
    ensures |a| == |b| && forall i :: 0 <= i < |a| && i != l ==> a[i] == b[i]
  {
  }

  // The next level down, divided.
  method DivideOne(ghost chain: seq<Node>, ghost m: nat, header: Node, r: Node, x: Node, i: nat) returns (atEnd: bool)
    requires Halfway(chain, m, r, i) && 1 <= i <= TOP && m < |chain| && header == chain[0] && chain[0].height == TOP
    requires Prev(Heights(chain), m, i) > 0 && x == chain[Prev(Heights(chain), m, i)]
    modifies header`next, r`next, x`next
    ensures Halfway(chain, m, r, i - 1)
    ensures atEnd <==> Next(Heights(chain), m, i) == 0
  {
    hide *;
    HalfwayParts(chain, m, r, i);
    ghost var was, rwas := Nexts(chain), r.next;
    ChainIs(chain);
    forall l: nat ensures Links(chain, l, was) <==> LinkedAt(chain, l) { LinksAre(chain, l); }
    atEnd := DivideLevel(chain, m, header, r, x, i);
    ChainStays(chain, was, i);
    AgreeAt(r.next, rwas, i);
    forall l | i < l <= TOP ensures Divided(chain, m, r, l, Nexts(chain), r.next) {
      DividedStays(chain, m, r, l, was, rwas, Nexts(chain), r.next, i);
    }
    forall l | 1 <= l <= i - 1 ensures LinkedAt(chain, l) { StaysLinked(chain, l, was, i); }
    HalfwayMake(chain, m, r, i - 1);
  }

  // The next level down has no node on the left.
  lemma DivideNone(chain: seq<Node>, m: nat, r: Node, i: nat)
    requires Halfway(chain, m, r, i) && 1 <= i <= TOP && m < |chain| && chain[0].height == TOP
      && Prev(Heights(chain), m, i) == 0
    ensures Halfway(chain, m, r, i - 1)
  {
    hide *;
    HalfwayParts(chain, m, r, i);
    NothingOnLeft(chain, m, r, i);
    HalfwayMake(chain, m, r, i - 1);
  }

  lemma DivideStart(chain: seq<Node>, m: nat, r: Node)
    requires Linked(chain) && m < |chain| && r !in chain && r.height == TOP && AllSelf(r)
    ensures Halfway(chain, m, r, TOP)
  {
    hide LinkedAt, Before;
  }

  // No node of the left part is as tall, or no node of the right part.
  lemma SideEmpty(chain: seq<Node>, m: nat, r: Node, l: nat)
    requires m < |chain| && 1 <= l <= chain[0].height
    ensures Prev(Heights(chain), m, l) == 0 <==> l > Tallest(Heights(LeftOf(chain, m, r)))
    ensures Next(Heights(chain), m, l) == 0 <==> l > Tallest(Heights(RightOf(chain, m)))
  {
    hide LeftOf, RightOf, Tallest, Prev, Next;
    var h, a, b := Heights(chain), Heights(LeftOf(chain, m, r)), Heights(RightOf(chain, m));
    TallestIs(a);
    TallestIs(b);
    var p, q := Prev(h, m, l), Next(h, m, l);
    if p > 0 { assert a[p] >= l; }
    if q > 0 { assert b[q - m] >= l; }
    if l <= Tallest(a) {
      var k :| 1 <= k < |a| && a[k] == Tallest(a);
      assert h[k] >= l;
    }
    if l <= Tallest(b) {
      var k :| 1 <= k < |b| && b[k] == Tallest(b);
      assert h[k + m] >= l;
    }
  }

  lemma TallestOfSides(chain: seq<Node>, m: nat, r: Node)
    requires m < |chain|
    ensures var a, b := Tallest(Heights(LeftOf(chain, m, r))), Tallest(Heights(RightOf(chain, m)));
      Tallest(Heights(chain)) == if a > b then a else b
  {
    hide LeftOf, RightOf, Tallest;
    var h, a, b := Heights(chain), Heights(LeftOf(chain, m, r)), Heights(RightOf(chain, m));
    TallestIs(h);
    TallestIs(a);
    TallestIs(b);
    forall k | 1 <= k < |h| ensures h[k] <= Tallest(a) || h[k] <= Tallest(b) {
      if k <= m { assert a[k] == h[k]; } else { assert b[k - m] == h[k]; }
    }
    if |a| > 1 {
      var k :| 1 <= k < |a| && a[k] == Tallest(a);
      assert h[k] == Tallest(a);
    }
    if |b| > 1 {
      var k :| 1 <= k < |b| && b[k] == Tallest(b);
      assert h[k + m] == Tallest(b);
    }
  }

  lemma DivideEnd(chain: seq<Node>, m: nat, r: Node)
    requires Halfway(chain, m, r, 0) && r.key == chain[0].key
    ensures m < |chain| && Linked(LeftOf(chain, m, r)) && Linked(RightOf(chain, m))
  {
    hide *;
    HalfwayParts(chain, m, r, 0);
    ChainSides(chain, m, r);
    forall l | 1 <= l <= TOP ensures LinkedAt(LeftOf(chain, m, r), l) && LinkedAt(RightOf(chain, m), l) {
      DividedLeft(chain, m, r, l);
      DividedRight(chain, m, r, l);
    }
    LinkedParts(LeftOf(chain, m, r));
    LinkedParts(RightOf(chain, m));
  }

  lemma ChainSides(chain: seq<Node>, m: nat, r: Node)
    requires Chain(chain) && m < |chain| && r !in chain && r.height == TOP && |r.next| == TOP + 1
      && r.key == chain[0].key
    ensures Chain(LeftOf(chain, m, r)) && Chain(RightOf(chain, m))
  {
    hide LeftOf, RightOf, Before;
    var a, b := LeftOf(chain, m, r), RightOf(chain, m);
    forall k | 1 <= k < |a| ensures a[k] == chain[k] && a[k] in chain { }
    forall k | 1 <= k < |b| ensures b[k] == chain[k + m] { }
  }

  // Levels without a node on the left, from the top down to `i`.
  lemma {:induction false} DivideDown(chain: seq<Node>, m: nat, r: Node, top: nat, i: nat)
    requires i <= top <= TOP && Halfway(chain, m, r, top) && m < |chain| && chain[0].height == TOP
    requires forall l :: i < l <= top ==> Prev(Heights(chain), m, l) == 0
    ensures Halfway(chain, m, r, i)
    decreases top - i
  {
    hide *;
    if i < top {
      DivideNone(chain, m, r, top);
      DivideDown(chain, m, r, top - 1, i);
    }
  }

  // The position a walk for the dividing key is at: on the left, or at the level's first node.
  ghost predicate OnWay(chain: seq<Node>, m: nat, i: nat, k: nat) {
    1 <= k < |chain| && 1 <= i <= chain[0].height && chain[k].height >= i && (k <= m || k == Next(Heights(chain), 0, i))
  }

  // Where the walk along level `i` for the key at `m`, a lower node, ends.
  lemma WalkEnds(chain: seq<Node>, m: nat, i: nat, k: nat, k': nat)
    requires Chain(chain) && 1 <= m < |chain| && chain[m].height < i && OnWay(chain, m, i, k)
    requires k <= k' < |chain| && chain[k'].height >= i && (k' > k ==> Before(chain[k'].key, chain[m].key))
    requires var j := Next(Heights(chain), k', i); j == 0 || !Before(chain[j].key, chain[m].key)
    ensures Before(chain[m].key, chain[k'].key) <==> Prev(Heights(chain), m, i) == 0
    ensures Prev(Heights(chain), m, i) != 0 ==> k' == Prev(Heights(chain), m, i)
    ensures OnWay(chain, m, i, k')
  {
    hide Before, Next, Prev;
    var h := Heights(chain);
    var p := Prev(h, m, i);
    KeyOrder(chain, k', m);
    if k <= m {
      LandsLeft(chain, m, i, k');
    } else {
      FirstIsRight(h, m, i, k);
    }
  }

  lemma KeyOrder(chain: seq<Node>, a: nat, b: nat)
    requires Chain(chain) && 1 <= a < |chain| && 1 <= b < |chain|
    ensures Before(chain[a].key, chain[b].key) <==> a < b
    ensures Before(chain[b].key, chain[a].key) <==> b < a
  {
    hide Before;
    Trichotomy(chain[a].key, chain[b].key);
    Trichotomy(chain[a].key, chain[a].key);
    if a < b { KeysRise(chain, a, b); } else if b < a { KeysRise(chain, b, a); }
  }

  lemma LandsLeft(chain: seq<Node>, m: nat, i: nat, k: nat)
    requires Chain(chain) && 1 <= m < |chain| && 1 <= k < m && chain[0].height >= i
      && chain[m].height < i <= chain[k].height
    requires var j := Next(Heights(chain), k, i); j == 0 || !Before(chain[j].key, chain[m].key)
    ensures k == Prev(Heights(chain), m, i)
  {
    hide Before, Next, Prev;
    var j := Next(Heights(chain), k, i);
    if j != 0 { KeyOrder(chain, j, m); }
    PrevLooksPast(Heights(chain), m, i, k);
  }

  lemma FirstIsRight(h: seq<nat>, m: nat, i: nat, k: nat)
    requires m < k < |h| && h[0] >= i && k == Next(h, 0, i)
    ensures Prev(h, m, i) == 0
  {
    hide Next, Prev;
    PrevLooksPast(h, m, i, 0);
  }

  // The walk of a division along level `i`.
  method WalkLeft(ghost chain: seq<Node>, ghost m: nat, ghost r: Node, x0: Node, target: Node, i: nat, ghost k0: nat)
    returns (x: Node, ghost k: nat, none: bool)
    requires Halfway(chain, m, r, i) && 1 <= m < |chain| && target == chain[m] && target.height < i <= TOP
    requires OnWay(chain, m, i, k0) && x0 == chain[k0]
    ensures OnWay(chain, m, i, k) && x == chain[k] && (none <==> Prev(Heights(chain), m, i) == 0)
    ensures !none ==> k == Prev(Heights(chain), m, i)
  {
    hide Before, Next, Prev, LinkedAt, Divided, Heights;
    MaxBehind(chain, m);
    x, k := Walk(chain, x0, target.key, i, k0);
    WalkEnds(chain, m, i, k0, k);
    CmpMeans(x.key, target.key);
    none := Cmp(x.key, target.key) > 0;
  }

  lemma MaxBehind(chain: seq<Node>, m: nat)
    requires Chain(chain) && 1 <= m < |chain|
    ensures !Before(chain[0].key, chain[m].key)
  {
    Trichotomy(chain[m].key, chain[0].key);
  }

  // At a lower level too there is a first node, and a node on the way there.
  lemma FirstBelow(chain: seq<Node>, m: nat, i: nat, k: nat)
    requires OnWay(chain, m, i, k) && i >= 2
    ensures var f := Next(Heights(chain), 0, i - 1); f > 0 && OnWay(chain, m, i - 1, f)
    ensures k <= m ==> OnWay(chain, m, i - 1, k)
  {
    hide Next;
    var f := Next(Heights(chain), 0, i - 1);
    assert Heights(chain)[k] >= i - 1;
  }

  // A level with a node on the way has one on the left or on the right.
  lemma SomeSide(chain: seq<Node>, m: nat, r: Node, i: nat, k: nat)
    requires OnWay(chain, m, i, k) && m < |chain|
    ensures 1 <= k < |chain|
    ensures i <= Tallest(Heights(LeftOf(chain, m, r))) || i <= Tallest(Heights(RightOf(chain, m)))
  {
    hide Tallest, LeftOf, RightOf, Next;
    TallestOfSides(chain, m, r);
    TallestIs(Heights(chain));
    assert Heights(chain)[k] >= i;
  }

  lemma PrevIsLeft(chain: seq<Node>, m: nat, i: nat)
    requires m < |chain| && chain[0].height >= i
    ensures Prev(Heights(chain), m, i) <= m
  {
  }

  lemma TargetIsLast(chain: seq<Node>, m: nat, i: nat)
    requires m < |chain| && chain[0].height >= i && chain[m].height >= i
    ensures Prev(Heights(chain), m, i) == m
  {
  }

  lemma SomeHeight(chain: seq<Node>)
    requires Linked(chain) && |chain| > 1
    ensures Tallest(Heights(chain)) >= 1
  {
    hide LinkedAt, Before, Tallest;
    TallestIs(Heights(chain));
    assert Heights(chain)[1] >= 1;
  }

  lemma SidesAre(chain: seq<Node>, header: Node, nodes: seq<Node>, r: Node, t: nat)
    requires chain == [header] + nodes && t < |nodes|
    ensures LeftOf(chain, t + 1, r) == [r] + nodes[..t + 1]
    ensures RightOf(chain, t + 1) == [header] + nodes[t + 1..]
    ensures nodes[t + 1..] == [] ==> Tallest(Heights([header] + nodes[t + 1..])) == 0
  {
  }

  lemma LengthOfAll(nodes: seq<Node>, k: nat)
    requires k <= |nodes|
    ensures k == |nodes| ==> Length(nodes[..k]) == Length(nodes)
  {
    if k == |nodes| { assert nodes[..k] == nodes; }
  }

  lemma LengthOfNothing()
    ensures Length([]) == 0
  {
  }

  lemma LengthNext(nodes: seq<Node>, k: nat)
    requires k < |nodes|
    ensures Length(nodes[..k + 1]) == Length(nodes[..k]) + |nodes[k].key| + 4
  {
    assert nodes[..k + 1][..k] == nodes[..k];
  }

  // At level 1 every node points to the one behind it.
  lemma BottomLinks(chain: seq<Node>, k: nat)
    requires Linked(chain) && k < |chain|
    ensures |chain[k].next| > 1 && chain[k].next[1] == (if k + 1 < |chain| then chain[k + 1] else chain[0])
    ensures chain[0].key == KeyMax(|chain[0].key|)
  {
    hide Before, Next;
    assert LinkedAt(chain, 1);
    PointsAt(chain, k, 1);
    NextAtBottom(chain, k);
  }

  lemma HeaderApart(chain: seq<Node>, k: nat)
    requires Chain(chain) && k < |chain|
    ensures chain[0].key == KeyMax(|chain[0].key|) && (k + 1 < |chain| ==> chain[k + 1] != chain[0])
  {
    hide Before;
  }

  // A piece and the rest have the whole's length and nodes.
  lemma CutAmounts(nodes: seq<Node>, k: nat)
    requires k <= |nodes|
    ensures Length(nodes[..k]) + Length(nodes[k..]) == Length(nodes) && nodes[..k] + nodes[k..] == nodes
  {
    hide Length;
    LengthConcat(nodes[..k], nodes[k..]);
    assert nodes[..k] + nodes[k..] == nodes;
  }

  // ----- the memtable, cut into pieces -----

  // `FLUSH_CHECK_NUM`.
  const FLUSH_CHECK_NUM: nat := 64

  ghost function AllNodes(pieces: seq<SkipList>): seq<Node>
    reads pieces
  {
    if pieces == [] then [] else AllNodes(pieces[..|pieces| - 1]) + pieces[|pieces| - 1].nodes
  }

  /** A piece as it is handed to the compaction thread: of 510 nodes, or too long for any key of 255 bytes. */
  ghost predicate PieceOk(p: SkipList)
    reads p, p.Chained()
  {
    && p.Valid() && p.LengthRight() && 2 <= p.size <= NUM_LIMIT && p.allLength < SIZE_LIMIT
    && (p.size == NUM_LIMIT || p.allLength + 259 >= SIZE_LIMIT)
  }

  ghost predicate NoneShared(a: seq<Node>, b: seq<Node>) {
    forall i, j :: 0 <= i < |a| && 0 <= j < |b| ==> a[i] != b[j]
  }

  // The pieces are lists of their own, sharing no node with the memtable.
  ghost predicate Apart(mem: SkipList, pieces: seq<SkipList>)
    reads mem, pieces
  {
    && (forall p :: p in pieces ==> p != mem && NoneShared(p.Chained(), mem.Chained()))
    && forall i, j :: 0 <= i < j < |pieces| ==> pieces[i] != pieces[j]
  }

  /** One more cut.  The pieces cut before stay as they are, and the new one follows them in key order. */
  method CutNext(mem: SkipList, ghost pieces: seq<SkipList>) returns (t: SkipList, ghost pieces': seq<SkipList>)
    requires mem.Valid() && mem.LengthRight() && mem.ShortKeys()
    requires (forall p :: p in pieces ==> PieceOk(p)) && Apart(mem, pieces)
    modifies mem, mem.Chained()`next
    ensures mem.Valid() && mem.LengthRight() && mem.ShortKeys() && mem.header == old(mem.header)
    ensures (forall p :: p in pieces' ==> PieceOk(p)) && Apart(mem, pieces')
    ensures pieces' == (if t == mem then pieces else pieces + [t]) && (t == mem || fresh(t))
    ensures AllNodes(pieces') + mem.nodes == old(AllNodes(pieces) + mem.nodes)
    ensures |mem.nodes| <= |old(mem.nodes)| && mem.nodes == old(mem.nodes)[|old(mem.nodes)| - |mem.nodes|..]
    ensures t == mem <==> old(mem.allLength) < SIZE_LIMIT && old(mem.size) < NUM_LIMIT
    ensures t == mem ==> mem.nodes == old(mem.nodes) && mem.size == old(mem.size) && mem.allLength == old(mem.allLength)
    ensures t != mem ==> |mem.nodes| < |old(mem.nodes)|
  {
    hide Linked, Before, Heights, Tallest, Prev, Next, Length, SkipList.ShortKeys, SkipList.LengthRight,
         SkipList.Shape, AllNodes;
    NodesApart(mem);
    ApartParts(mem, pieces);
    ChainedIs(mem);
    ghost var chain, all, nodes0 := mem.Chained(), AllNodes(pieces), mem.nodes;
    t := mem.CuttingHeader();
    ChainedIs(mem);
    pieces' := pieces;
    forall p | p in pieces ensures PieceOk(p) && p.Chained() == old(p.Chained()) { }
    assert AllNodes(pieces) == all;
    if t != mem {
      pieces' := pieces + [t];
      ChainedIs(t);
      NextIsShort(mem);
      PieceMade(t);
      AllNodesMore(pieces, t);
      assert all + (t.nodes + mem.nodes) == (all + t.nodes) + mem.nodes;
      ChainCut(chain, nodes0, t, mem);
      forall p | p in pieces ensures NoneShared(p.Chained(), mem.Chained()) {
        StillApart(p.Chained(), chain, mem.Chained(), |t.nodes|);
      }
    }
    ApartMake(mem, pieces');
  }

  lemma ChainedIs(p: SkipList)
    ensures p.Chained() == [p.header] + p.nodes && |p.Chained()| == |p.nodes| + 1
  {
  }

  lemma NextIsShort(p: SkipList)
    requires p.ShortKeys()
    ensures |p.NextKey(0)| <= 255
  {
  }

  lemma PieceMade(p: SkipList)
    requires p.Valid() && p.LengthRight() && 2 <= p.size <= NUM_LIMIT && p.allLength < SIZE_LIMIT
    requires p.size == NUM_LIMIT || p.allLength + 259 >= SIZE_LIMIT
    ensures PieceOk(p) && |p.nodes| >= 2
  {
    hide Linked, Length;
  }

  lemma AllNodesMore(pieces: seq<SkipList>, t: SkipList)
    ensures AllNodes(pieces + [t]) == AllNodes(pieces) + t.nodes
  {
    assert (pieces + [t])[..|pieces|] == pieces;
  }

  lemma ApartParts(mem: SkipList, pieces: seq<SkipList>)
    requires Apart(mem, pieces)
    ensures forall p :: p in pieces ==> p != mem && NoneShared(p.Chained(), mem.Chained())
    ensures forall i, j :: 0 <= i < j < |pieces| ==> pieces[i] != pieces[j]
    ensures forall p, i, j :: p in pieces && 0 <= i < |p.Chained()| && 0 <= j < |mem.Chained()| ==>
      p.Chained()[i] != mem.Chained()[j]
  {
    forall p, i, j | p in pieces && 0 <= i < |p.Chained()| && 0 <= j < |mem.Chained()|
      ensures p.Chained()[i] != mem.Chained()[j]
    {
      assert NoneShared(p.Chained(), mem.Chained());
    }
  }

  lemma ApartMake(mem: SkipList, pieces: seq<SkipList>)
    requires forall p :: p in pieces ==> p != mem && NoneShared(p.Chained(), mem.Chained())
    requires forall i, j :: 0 <= i < j < |pieces| ==> pieces[i] != pieces[j]
    ensures Apart(mem, pieces)
  {
    hide NoneShared;
  }

  lemma ChainCut(chain: seq<Node>, nodes0: seq<Node>, t: SkipList, mem: SkipList)
    requires t.nodes + mem.nodes == nodes0 && chain == [mem.header] + nodes0 && t.header !in chain
    requires forall i, j :: 0 <= i < j < |chain| ==> chain[i] != chain[j]
    ensures NoneShared(t.Chained(), mem.Chained())
    ensures |mem.Chained()| == |chain| - |t.nodes| && chain[0] == mem.Chained()[0]
    ensures forall i :: 1 <= i < |mem.Chained()| ==> mem.Chained()[i] == chain[i + |t.nodes|]
    ensures mem.nodes == nodes0[|t.nodes|..]
  {
    hide NoneShared;
    SplitApart(chain, t.Chained(), mem.Chained(), |t.nodes|);
  }

  // Cutting distinct nodes in two leaves nothing shared.
  lemma SplitApart(chain: seq<Node>, a: seq<Node>, b: seq<Node>, n: nat)
    requires n < |chain| && |a| == n + 1 && |b| == |chain| - n && a[0] !in chain && chain[0] == b[0]
    requires forall i :: 1 <= i <= n ==> a[i] == chain[i]
    requires forall i :: 1 <= i < |b| ==> b[i] == chain[i + n]
    requires forall i, j :: 0 <= i < j < |chain| ==> chain[i] != chain[j]
    ensures NoneShared(a, b)
  {
    forall i, j | 0 <= i < |a| && 0 <= j < |b| ensures a[i] != b[j] {
      var c := if j == 0 then 0 else j + n;
      assert b[j] == chain[c];
      if i > 0 { assert a[i] == chain[i] && i != c; }
    }
  }

  lemma StillApart(p: seq<Node>, chain: seq<Node>, b: seq<Node>, n: nat)
    requires NoneShared(p, chain) && |b| == |chain| - n && n < |chain| && b != [] && chain[0] == b[0]
    requires forall i :: 1 <= i < |b| ==> b[i] == chain[i + n]
    ensures NoneShared(p, b)
  {
    forall i, j | 0 <= i < |p| && 0 <= j < |b| ensures p[i] != b[j] {
      assert b[j] == chain[if j == 0 then 0 else j + n];
    }
  }

  lemma NodesApart(mem: SkipList)
    requires mem.Valid()
    ensures forall i, j :: 0 <= i < j < |mem.Chained()| ==> mem.Chained()[i] != mem.Chained()[j]
  {
    hide Before, LinkedAt;
  }

  /** `compaction_check`: while the memtable is over its limits its front is cut off and handed over, in
      key order, until it is within them. */
  method CompactionCheck(mem: SkipList) returns (pieces: seq<SkipList>)
    requires mem.Valid() && mem.LengthRight() && mem.ShortKeys()
    modifies mem, mem.Chained()`next
    ensures mem.Valid() && mem.LengthRight() && mem.ShortKeys()
    ensures (forall p :: p in pieces ==> PieceOk(p) && fresh(p)) && Apart(mem, pieces)
    ensures AllNodes(pieces) + mem.nodes == old(mem.nodes)
    ensures pieces != [] <==> old(mem.size >= FLUSH_CHECK_NUM && (mem.allLength >= SIZE_LIMIT || mem.size >= NUM_LIMIT))
    ensures old(mem.size) >= FLUSH_CHECK_NUM ==> mem.allLength < SIZE_LIMIT && mem.size < NUM_LIMIT
  {
    hide *;
    pieces := [];
    ChainedIs(mem);
    NothingCut(mem);
    if mem.size < FLUSH_CHECK_NUM { return; }
    var t2: SkipList? := null;
    var last := false;
    ghost var held: seq<SkipList> := [];
    while !last
      invariant mem.Valid() && mem.LengthRight() && mem.ShortKeys() && mem.header == old(mem.header)
      invariant (forall p :: p in held ==> PieceOk(p) && fresh(p)) && Apart(mem, held)
      invariant AllNodes(held) + mem.nodes == old(mem.nodes)
      invariant held == if t2 == null || t2 == mem then pieces else pieces + [t2]
      invariant last ==> t2 == mem && pieces != [] && mem.allLength < SIZE_LIMIT && mem.size < NUM_LIMIT
      invariant !last ==> t2 != mem
      invariant t2 == null ==> pieces == [] && mem.size == old(mem.size) && mem.allLength == old(mem.allLength)
      invariant t2 != null ==> old(mem.allLength >= SIZE_LIMIT || mem.size >= NUM_LIMIT)
      decreases |mem.nodes|, if last then 0 else 1
    {
      var t;
      if t2 != null {
        t := t2;
      } else {
        NodesLeft(mem, old(mem.Chained()), old(mem.nodes), held);
        t, held := CutNext(mem, held);
        if t == mem { break; }
      }
      NodesLeft(mem, old(mem.Chained()), old(mem.nodes), held);
      t2, held := CutNext(mem, held);
      pieces := pieces + [t];
      if t2 == mem { last := true; }
    }
  }

  lemma NodesLeft(mem: SkipList, chain: seq<Node>, nodes0: seq<Node>, held: seq<SkipList>)
    requires chain == [mem.header] + nodes0 && AllNodes(held) + mem.nodes == nodes0
    ensures var n := |AllNodes(held)|;
      && |mem.Chained()| + n == |chain|
      && forall i :: 0 <= i < |mem.Chained()| ==> mem.Chained()[i] == chain[if i == 0 then 0 else i + n]
    ensures |mem.nodes| <= |nodes0|
  {
    hide AllNodes;
    var n := |AllNodes(held)|;
    forall i | 0 <= i < |mem.Chained()| ensures mem.Chained()[i] == chain[if i == 0 then 0 else i + n] {
      if i > 0 { assert mem.nodes[i - 1] == nodes0[i - 1 + n]; }
    }
  }

  lemma NothingCut(mem: SkipList)
    ensures AllNodes([]) + mem.nodes == mem.nodes && Apart(mem, []) && AllNodes([]) == []
  {
  }

  // ----- the write buffer's iterator -----

  /** `sk_iter`: the nodes in key order, one at a time. */
  class NodeIter {
    const list: SkipList
    var now: Node
    // Nodes given out so far.
    ghost var given: nat

    ghost predicate Valid()
      reads this, list, list.Chained()
    {
      list.Valid() && given <= |list.nodes| && now == list.Chained()[given]
    }

    constructor (list: SkipList)
      requires list.Valid()
      ensures Valid() && this.list == list && given == 0
    {
      this.list, now, given := list, list.header, 0;
    }

    /** `skiplist_get_next`. */
    method Next() returns (r: Node?)
      requires Valid()
      modifies this
      ensures Valid()
      ensures old(given) < |list.nodes| ==> r == list.nodes[old(given)] && given == old(given) + 1
      ensures old(given) == |list.nodes| ==> r == null && given == old(given)
    {
      hide Linked, Before, Heights, Tallest;
      BottomLinks(list.Chained(), given);
      HeaderIsNoNode(list.Chained(), given);
      if now.next[1] == list.header { return null; }
      now, given := now.next[1], given + 1;
      r := now;
    }
  }

  lemma HeaderIsNoNode(chain: seq<Node>, k: nat)
    requires Linked(chain) && k < |chain|
    ensures k + 1 < |chain| ==> chain[k + 1] != chain[0]
  {
    hide Before, LinkedAt;
  }

  lemma LoneIsLinked(header: Node)
    requires header.key == KeyMax(|header.key|) && header.height == TOP && AllSelf(header)
    ensures Linked([header]) && Length([]) == 0
  {
  }
}
