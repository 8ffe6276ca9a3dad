/** Byte strings in lexicographic order. */
module Lex {
  import opened Bytes

  type Key = seq<Byte>

  /** The first place where two strings differ, or where the shorter one ends. */
  function DiffFrom(a: Key, b: Key, i: nat): (d: nat)
    requires i <= |a| && i <= |b|
    ensures i <= d <= |a| && d <= |b| && (d < |a| && d < |b| ==> a[d] != b[d])
    ensures forall j | i <= j < d :: a[j] == b[j]
    decreases |a| - i
  {
    if i == |a| || i == |b| || a[i] != b[i] then i else DiffFrom(a, b, i + 1)
  }

  function Diff(a: Key, b: Key): nat { DiffFrom(a, b, 0) }

  predicate Less(a: Key, b: Key)
  {
    var d := Diff(a, b);
    d < |b| && (d == |a| || a[d] < b[d])
  }

  predicate HasPrefix(k: Key, p: Key) { |p| <= |k| && forall j | 0 <= j < |p| :: k[j] == p[j] }

  /** Where two strings agree up to a place, that place decides. */
  lemma LessAt(a: Key, b: Key, i: nat)
    requires i <= |a| && i < |b| && (forall j | 0 <= j < i :: a[j] == b[j])
    requires i == |a| || a[i] < b[i]
    ensures Less(a, b)
  {
    assert Diff(a, b) == i;
  }

  lemma Irreflexive(a: Key)
    ensures !Less(a, a)
  {
  }

  lemma Total(a: Key, b: Key)
    ensures a == b || Less(a, b) || Less(b, a)
  {
    var d := Diff(a, b);
    if d == |a| && d == |b| {
      assert a == b;
    } else if d < |b| && (d == |a| || a[d] < b[d]) {
      LessAt(a, b, d);
    } else {
      LessAt(b, a, d);
    }
  }

  lemma Transitive(a: Key, b: Key, c: Key)
    requires Less(a, b) && Less(b, c)
    ensures Less(a, c)
  {
    var d, e := Diff(a, b), Diff(b, c);
    LessAt(a, c, if d < e then d else e);
  }

  lemma Asymmetric(a: Key, b: Key)
    requires Less(a, b)
    ensures !Less(b, a)
  {
    if Less(b, a) {
      Transitive(a, b, a);
      Irreflexive(a);
    }
  }

  /** No string lies between a string and the same string followed by a zero byte. */
  lemma SuccessorIsNext(a: Key, b: Key)
    ensures Less(a, b) <==> !Less(b, a + [0])
  {
    var next := a + [0];
    if Less(a, b) {
      var d := Diff(a, b);
      if d < |a| {
        LessAt(next, b, d);
        Asymmetric(next, b);
      } else {
        NextLe(a, b);
      }
    } else {
      Total(a, b);
      LessAt(a, next, |a|);
      if a != b { Transitive(b, a, next); }
    }
  }

  lemma NextLe(a: Key, b: Key)
    requires |a| < |b| && forall j | 0 <= j < |a| :: a[j] == b[j]
    ensures !Less(b, a + [0])
  {
    var next := a + [0];
    if b[|a|] == 0 {
      assert Diff(b, next) == |next|;
    } else {
      LessAt(next, b, |a|);
      Asymmetric(next, b);
    }
  }

  ghost predicate Ascending(s: seq<Key>) { forall i, j | 0 <= i < j < |s| :: Less(s[i], s[j]) }

  lemma AscendingDistinct(s: seq<Key>)
    requires Ascending(s)
    ensures forall i, j | 0 <= i < j < |s| :: s[i] != s[j]
  {
    forall i, j | 0 <= i < j < |s| ensures s[i] != s[j] { Irreflexive(s[i]); }
  }

  /** The first `n` of a set of keys: ascending, and everything left out comes later. */
  ghost predicate IsFirst(page: seq<Key>, all: set<Key>, n: nat)
  {
    && Ascending(page)
    && (forall k <- page :: k in all)
    && |page| <= n
    && (|page| < n ==> forall k <- all :: k in page)
    && (forall k <- all, q <- page | k !in page :: Less(q, k))
  }
}
