/**
 Keys: byte strings compared byte by byte, a proper prefix coming first.  `Cmp` is the source's
 comparison; `Before` says what order it is.
 */
module Keys {
  type Byte = b: int | 0 <= b < 256

  type Key = seq<Byte>

  // `memcmp` of the first `n` bytes from position `i` on.
  function MemCmp(a: Key, b: Key, i: nat, n: nat): int
    requires i <= n <= |a| && n <= |b|
    decreases n - i
  {
    if i == n then 0 else if a[i] != b[i] then a[i] - b[i] else MemCmp(a, b, i + 1, n)
  }

  function Cmp(a: Key, b: Key): int {
    if |a| == 0 && |b| == 0 then 0
    else if |a| == 0 then -1
    else if |b| == 0 then 1
    else
      var r := MemCmp(a, b, 0, if |a| > |b| then |b| else |a|);
      if r != 0 || |a| == |b| then r else if |a| < |b| then -1 else 1
  }

  // The first position where two keys part: a differing byte or the end of one of them.
  function Part(a: Key, b: Key): (i: nat)
    ensures i <= |a| && i <= |b| && a[..i] == b[..i]
    ensures i < |a| && i < |b| ==> a[i] != b[i]
  {
    if a == [] || b == [] || a[0] != b[0] then 0
    else
      var i := Part(a[1..], b[1..]) + 1;
      assert a[..i] == [a[0]] + a[1..][..i - 1];
      assert b[..i] == [b[0]] + b[1..][..i - 1];
      i
  }

  /** `a` comes before `b`: at the first position where they part, `a` ends or has the smaller byte. */
  predicate Before(a: Key, b: Key) {
    var i := Part(a, b);
    i < |b| && (i == |a| || a[i] < b[i])
  }

  lemma {:induction false} MemCmpStops(a: Key, b: Key, i: nat, n: nat)
    requires i <= n <= |a| && n <= |b| && i <= Part(a, b)
    ensures var p := Part(a, b); MemCmp(a, b, i, n) == if p < n then a[p] as int - b[p] as int else 0
    decreases n - i
  {
    var p := Part(a, b);
    if i < n {
      if i < p {
        SamePrefix(a, b, p, i);
        MemCmpStops(a, b, i + 1, n);
      }
    }
  }

  lemma SamePrefix(a: Key, b: Key, i: nat, k: nat)
    requires k < i <= |a| && i <= |b| && a[..i] == b[..i]
    ensures a[k] == b[k]
  {
    assert a[k] == a[..i][k];
  }

  lemma PartOfSame(a: Key, b: Key)
    ensures Part(a, b) == |a| == |b| <==> a == b
  {
    assert a[..|a|] == a && b[..|b|] == b;
  }

  /** The comparison is exactly that order: negative, zero and positive mean before, equal and after. */
  lemma CmpMeans(a: Key, b: Key)
    ensures Cmp(a, b) < 0 <==> Before(a, b)
    ensures Cmp(a, b) == 0 <==> a == b
    ensures Cmp(a, b) > 0 <==> Before(b, a)
  {
    PartOfSame(a, b);
    PartSymmetric(a, b);
    if |a| != 0 && |b| != 0 {
      MemCmpStops(a, b, 0, if |a| > |b| then |b| else |a|);
    }
  }

  // Two positions that both look like the parting of `a` and `b` are the same.
  lemma PartUnique(a: Key, b: Key, i: nat)
    requires i <= |a| && i <= |b| && a[..i] == b[..i]
    requires i == |a| || i == |b| || a[i] != b[i]
    ensures i == Part(a, b)
  {
    var p := Part(a, b);
    if i < p {
      SamePrefix(a, b, p, i);
    } else if p < i {
      SamePrefix(a, b, i, p);
    }
  }

  lemma PartSymmetric(a: Key, b: Key)
    ensures Part(a, b) == Part(b, a)
  {
    PartUnique(b, a, Part(a, b));
  }

  /** The order is total and transitive. */
  lemma Trichotomy(a: Key, b: Key)
    ensures Before(a, b) || a == b || Before(b, a)
    ensures !(Before(a, b) && Before(b, a)) && !Before(a, a)
  {
    PartOfSame(a, b);
    PartOfSame(a, a);
    PartSymmetric(a, b);
  }

  lemma BeforeTransitive(a: Key, b: Key, c: Key)
    requires Before(a, b) && Before(b, c)
    ensures Before(a, c)
  {
    var i, j := Part(a, b), Part(b, c);
    var m := if i < j then i else j;
    assert a[..m] == a[..i][..m] == b[..i][..m] == b[..m];
    assert c[..m] == c[..j][..m] == b[..j][..m];
    if i < j {
      assert b[i] == b[..j][i] == c[..j][i] == c[i];
    } else if j < i {
      assert b[j] == b[..i][j] == a[..i][j] == a[j];
    }
    PartUnique(a, c, m);
  }
}
