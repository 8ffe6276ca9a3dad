/** The file a key of the file-system bucket names (internal/bucket/fsbucket.go): its path is cleaned. */
module Paths {
  import opened Bytes
  import opened Lex

  const SLASH: Byte := 47
  const DOT: Byte := 46

  /** The components between the slashes, empty ones included. */
  function Components(k: Key): (c: seq<Key>)
    ensures |c| > 0
  {
    if k == [] then [[]]
    else
      var c, last := Components(k[..|k| - 1]), k[|k| - 1];
      if last == SLASH then c + [[]] else c[..|c| - 1] + [c[|c| - 1] + [last]]
  }

  function Join(c: seq<Key>): Key
    requires |c| > 0
  {
    if |c| == 1 then c[0] else Join(c[..|c| - 1]) + [SLASH] + c[|c| - 1]
  }

  lemma {:induction false} JoinComponents(k: Key)
    ensures Join(Components(k)) == k
    decreases |k|
  {
    if k != [] {
      var front, last := k[..|k| - 1], k[|k| - 1];
      JoinComponents(front);
      var c := Components(front);
      var d := Components(k);
      assert k == front + [last];
      if last == SLASH { assert d[..|d| - 1] == c; } else { assert d[..|d| - 1] == c[..|c| - 1]; }
    }
  }

  /** A component that cleaning leaves alone. */
  predicate Ordinary(c: Key) { c != [] && c != [DOT] && c != [DOT, DOT] }

  predicate Plain(k: Key) { forall c <- Components(k) :: Ordinary(c) }

  /** Cleaning a rooted path: empty and dot components go, a dot-dot takes the one before it along. */
  function Cleaned(c: seq<Key>): seq<Key>
  {
    if c == [] then []
    else
      var front, last := Cleaned(c[..|c| - 1]), c[|c| - 1];
      if Ordinary(last) then front + [last]
      else if last == [DOT, DOT] && front != [] then front[..|front| - 1]
      else front
  }

  /** The file of a key, by the directories on the way to it. */
  function FileOf(k: Key): seq<Key> { Cleaned(Components(k)) }

  lemma {:induction false} OrdinaryStay(c: seq<Key>)
    requires forall x <- c :: Ordinary(x)
    ensures Cleaned(c) == c
    decreases |c|
  {
    if c != [] {
      OrdinaryStay(c[..|c| - 1]);
      assert c[|c| - 1] in c;
    }
  }

  /** Plain keys name different files. */
  lemma PlainKeysDiffer(k: Key, k': Key)
    requires Plain(k) && Plain(k') && FileOf(k) == FileOf(k')
    ensures k == k'
  {
    OrdinaryStay(Components(k));
    OrdinaryStay(Components(k'));
    JoinComponents(k);
    JoinComponents(k');
  }

  /** A plain key stays plain when its last component gets another ordinary byte. */
  lemma PlainGrows(k: Key, b: Byte)
    requires Plain(k) && b != SLASH && b != DOT
    ensures Plain(k + [b])
  {
    var c, d := Components(k), Components(k + [b]);
    assert (k + [b])[..|k|] == k;
    assert d == c[..|c| - 1] + [c[|c| - 1] + [b]];
    forall x | x in d ensures Ordinary(x) {
      if x != c[|c| - 1] + [b] { assert x in c; } else { assert x[|x| - 1] == b; }
    }
  }

  /** One byte more. */
  function Grown(c: seq<Key>, b: Byte): seq<Key>
    requires |c| > 0
  {
    if b == SLASH then c + [[]] else c[..|c| - 1] + [c[|c| - 1] + [b]]
  }

  lemma GrownAfter(a: seq<Key>, e: seq<Key>, b: Byte)
    requires |e| > 0
    ensures Grown(a + e, b) == a + Grown(e, b)
  {
    assert (a + e)[..|a + e| - 1] == a + e[..|e| - 1];
  }

  lemma NextByte(k: Key, b: Byte)
    ensures Components(k + [b]) == Grown(Components(k), b)
  {
    assert (k + [b])[..|k|] == k;
  }

  lemma NextComponent(c: seq<Key>, x: Key)
    ensures x == [] ==> Cleaned(c + [x]) == Cleaned(c)
    ensures Ordinary(x) ==> Cleaned(c + [x]) == Cleaned(c) + [x]
  {
    assert (c + [x])[..|c|] == c;
  }

  /** Other keys need not: with two slashes for one, the file is the same. */
  lemma OneFileTwoNames(k: Key, b: Byte)
    requires b != SLASH && b != DOT
    ensures FileOf(k + [SLASH] + [b]) == FileOf(k + [SLASH] + [SLASH] + [b]) && !Plain(k + [SLASH] + [SLASH] + [b])
  {
    var c := Components(k);
    NextByte(k, SLASH);
    NextByte(k + [SLASH], SLASH);
    NextByte(k + [SLASH], b);
    NextByte(k + [SLASH] + [SLASH], b);
    assert (c + [[]])[..|c|] == c && (c + [[]] + [[]])[..|c| + 1] == c + [[]] && [] + [b] == [b];
    NextComponent(c, [b]);
    NextComponent(c, []);
    NextComponent(c + [[]], [b]);
    assert (c + [[]] + [[b]])[|c|] == [];
  }

  /** The part of a key up to its last slash. */
  function UpToSlash(p: Key): (d: Key)
    ensures HasPrefix(p, d) && (d == [] || d[|d| - 1] == SLASH) && SLASH !in p[|d|..]
  {
    if p == [] || p[|p| - 1] == SLASH then p else UpToSlash(p[..|p| - 1])
  }

  lemma DirEnds(d: Key)
    requires d == [] || d[|d| - 1] == SLASH
    ensures var c := Components(d); c == c[..|c| - 1] + [[]]
  {
  }

  lemma NoBytes()
    ensures Components([]) == [[]]
  {
  }

  /** After a slash components begin anew. */
  lemma {:induction false} ComponentsSplit(d: Key, r: Key)
    requires d == [] || d[|d| - 1] == SLASH
    ensures var c := Components(d); Components(d + r) == c[..|c| - 1] + Components(r)
    decreases |r|
  {
    hide Components, Grown;
    var c := Components(d);
    var a := c[..|c| - 1];
    if r == [] {
      DirEnds(d);
      NoBytes();
      assert d + r == d;
    } else {
      var front, b := r[..|r| - 1], r[|r| - 1];
      assert d + r == (d + front) + [b] && r == front + [b];
      ComponentsSplit(d, front);
      NextByte(d + front, b);
      NextByte(front, b);
      GrownAfter(a, Components(front), b);
    }
  }

  lemma {:induction false} NoSlash(r: Key)
    requires SLASH !in r
    ensures Components(r) == [r]
    decreases |r|
  {
    if r != [] {
      NoSlash(r[..|r| - 1]);
      assert r[..|r| - 1] + [r[|r| - 1]] == r && r[|r| - 1] in r;
    }
  }

  /** A component that is not ordinary leads no deeper. */
  lemma LeadsUp(front: seq<Key>, last: Key)
    requires (forall x <- front :: Ordinary(x)) && !Ordinary(last)
    ensures Cleaned(front + [last]) <= front
  {
    OrdinaryStay(front);
    assert (front + [last])[..|front|] == front;
  }

  /** A file lies in a directory, or below. */
  predicate Within(k: Key, dir: seq<Key>) { dir <= Components(k) }

  /** The directory part of a plain key is what it says. */
  lemma PlainDir(d: Key, r: Key)
    requires (d == [] || d[|d| - 1] == SLASH) && Plain(d + r)
    ensures var c := Components(d); FileOf(d) == c[..|c| - 1] && Within(d + r, FileOf(d)) && forall x <- c[..|c| - 1] :: Ordinary(x)
  {
    ComponentsSplit(d, r);
    DirEnds(d);
    var c := Components(d);
    var front := c[..|c| - 1];
    assert forall x <- front :: x in front + Components(r);
    OrdinaryStay(front);
    NextComponent(front, []);
    assert c == front + [[]];
  }
}
