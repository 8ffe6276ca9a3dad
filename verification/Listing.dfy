/**
 Bounded listing of a file-system bucket (internal/bucket/fsbucket.go) and the paging loop that
 reads it to the end (internal/compaction/compaction.go).
 */
module Listing {
  import opened Bytes
  import opened Lex
  import opened Paths

  const TMP: Key := [46, 116, 109, 112]

  predicate HasSuffix(k: Key, s: Key) { |s| <= |k| && k[|k| - |s|..] == s }

  /** The keys a page is chosen from. */
  predicate Matches(k: Key, prefix: Key, after: Key) { HasPrefix(k, prefix) && !HasSuffix(k, TMP) && Less(after, k) }

  ghost function Matching(keys: set<Key>, prefix: Key, after: Key): set<Key>
  {
    set k | k in keys && Matches(k, prefix, after)
  }

  // ------------------------------------------------------------------ what is walked

  /** The directory walked for a prefix, cleaned: the one it names, or else its parent. */
  function WalkBase(prefix: Key, isDir: bool): seq<Key>
  {
    FileOf(if isDir then prefix else UpToSlash(prefix))
  }

  /** Every file whose key has the prefix is under the directory walked, unless a plain prefix names a directory. */
  predicate WalksAll(prefix: Key, isDir: bool) { !isDir || !Plain(prefix) }

  lemma WalkCovers(prefix: Key, isDir: bool, k: Key)
    requires WalksAll(prefix, isDir) && Plain(k) && HasPrefix(k, prefix)
    ensures Within(k, WalkBase(prefix, isDir))
  {
    var d := UpToSlash(prefix);
    assert k == d + k[|d|..];
    PlainDir(d, k[|d|..]);
    if isDir { NamesUpwards(prefix, k); }
  }

  /** A prefix of a plain key that is not plain ends in a slash or a dot component, and names no deeper directory. */
  lemma NamesUpwards(prefix: Key, k: Key)
    requires !Plain(prefix) && Plain(k) && HasPrefix(k, prefix)
    ensures Within(k, FileOf(prefix))
  {
    var d := UpToSlash(prefix);
    assert k == d + k[|d|..] && prefix == d + prefix[|d|..];
    hide UpToSlash, Cleaned;
    UpwardsFrom(d, prefix[|d|..], k[|d|..]);
  }

  lemma UpwardsFrom(d: Key, last: Key, r: Key)
    requires (d == [] || d[|d| - 1] == SLASH) && SLASH !in last && !Plain(d + last) && Plain(d + r)
    ensures Within(d + r, FileOf(d + last))
  {
    hide Components, Cleaned;
    PlainDir(d, r);
    ComponentsSplit(d, last);
    NoSlash(last);
    var c := Components(d);
    var front := c[..|c| - 1];
    assert forall x <- front + [last] :: x in front || x == last;
    LeadsUp(front, last);
  }

  /** A plain prefix that names a directory misses a sibling it also matches. */
  lemma WalkMissesSiblings(prefix: Key, isDir: bool) returns (k: Key)
    requires !WalksAll(prefix, isDir)
    ensures Plain(k) && Matches(k, prefix, []) && !Within(k, WalkBase(prefix, isDir))
  {
    k := prefix + [120];
    PlainGrows(prefix, 120);
    OrdinaryStay(Components(prefix));
    NextByte(prefix, 120);
    var c := Components(prefix);
    assert Components(k)[|c| - 1] == c[|c| - 1] + [120] != c[|c| - 1];
    assert |k| >= |TMP| ==> k[|k| - |TMP|..][3] == 120;
    LessAt([], k, 0);
  }

  /** So the condition is exact. */
  lemma WalkExactly(prefix: Key, isDir: bool)
    ensures (forall k | Plain(k) && Matches(k, prefix, []) :: Within(k, WalkBase(prefix, isDir))) <==> WalksAll(prefix, isDir)
  {
    if WalksAll(prefix, isDir) {
      forall k | Plain(k) && Matches(k, prefix, []) ensures Within(k, WalkBase(prefix, isDir)) { WalkCovers(prefix, isDir, k); }
    } else {
      var k := WalkMissesSiblings(prefix, isDir);
    }
  }

  // ------------------------------------------------------------------ the bounded selection

  /** sort.Strings after one append: the new key takes its place among the sorted ones. */
  method SortIn(kept: seq<Key>, key: Key) returns (r: seq<Key>)
    requires Ascending(kept) && key !in kept
    ensures Ascending(r) && |r| == |kept| + 1 && forall k :: k in r <==> k in kept || k == key
  {
    var j := |kept|;
    while j > 0 && Less(key, kept[j - 1])
      invariant 0 <= j <= |kept| && forall i | j <= i < |kept| :: Less(key, kept[i])
    {
      j := j - 1;
    }
    if j > 0 { Total(kept[j - 1], key); }
    Placed(kept, key, j);
    r := kept[..j] + [key] + kept[j..];
  }

  lemma Placed(kept: seq<Key>, key: Key, j: nat)
    requires Ascending(kept) && j <= |kept| && (forall i | j <= i < |kept| :: Less(key, kept[i]))
    requires j > 0 ==> Less(kept[j - 1], key)
    ensures var r := kept[..j] + [key] + kept[j..]; Ascending(r) && forall k :: k in r <==> k in kept || k == key
  {
    forall i | 0 <= i < j ensures Less(kept[i], key) { if i < j - 1 { Transitive(kept[i], kept[j - 1], key); } }
    hide Less;
    PlacedOrder(kept, key, j);
    assert kept == kept[..j] + kept[j..];
    hide Ascending;
  }

  lemma PlacedOrder(kept: seq<Key>, key: Key, j: nat)
    requires Ascending(kept) && j <= |kept| && (forall i | j <= i < |kept| :: Less(key, kept[i]))
    requires forall i | 0 <= i < j :: Less(kept[i], key)
    ensures Ascending(kept[..j] + [key] + kept[j..])
  {
    hide Less;
    var r := kept[..j] + [key] + kept[j..];
    assert forall i | 0 <= i < |r| :: r[i] == if i < j then kept[i] else if i == j then key else kept[i - 1];
  }

  /** The first n of a growing set, while fewer than n are kept. */
  lemma KeepMore(kept: seq<Key>, all: set<Key>, n: nat, key: Key, r: seq<Key>)
    requires IsFirst(kept, all, n) && |kept| < n && key !in all
    requires Ascending(r) && |r| == |kept| + 1 && forall k :: k in r <==> k in kept || k == key
    ensures IsFirst(r, all + {key}, n)
  {
    hide Less, Ascending;
  }

  /** The first n of a growing set, when a smaller key pushes the largest kept one out. */
  lemma KeepSmaller(kept: seq<Key>, all: set<Key>, n: nat, key: Key, r: seq<Key>)
    requires IsFirst(kept, all, n) && |kept| == n > 0 && key !in all && Less(key, kept[n - 1])
    requires Ascending(r) && |r| == n && forall k :: k in r <==> k in kept[..n - 1] || k == key
    ensures IsFirst(r, all + {key}, n)
  {
    var last := kept[n - 1];
    assert kept == kept[..n - 1] + [last];
    forall k, q | k in all + {key} && q in r && k !in r ensures Less(q, k) {
      if k == last {
        if q != key { LastIsLargest(kept, q); }
      } else if q == key {
        assert k !in kept && last in kept;
        Transitive(key, last, k);
      } else {
        assert q in kept && k !in kept;
      }
    }
  }

  lemma LastIsLargest(kept: seq<Key>, q: Key)
    requires Ascending(kept) && kept != [] && q in kept[..|kept| - 1]
    ensures Less(q, kept[|kept| - 1])
  {
    var i :| 0 <= i < |kept| - 1 && kept[..|kept| - 1][i] == q;
    assert kept[i] == q;
  }

  lemma KeepSame(kept: seq<Key>, all: set<Key>, n: nat, key: Key)
    requires IsFirst(kept, all, n) && |kept| == n > 0 && key !in all && !Less(key, kept[n - 1])
    ensures IsFirst(kept, all + {key}, n)
  {
    var last := kept[n - 1];
    assert last in kept && last in all;
    Total(key, last);
    forall q | q in kept ensures Less(q, key) {
      if q != last {
        assert kept == kept[..n - 1] + [last];
        LastIsLargest(kept, q);
        Transitive(q, last, key);
      }
    }
    hide Less, Ascending;
  }

  /** One file of the walk. */
  method Consider(kept: seq<Key>, key: Key, n: nat, ghost all: set<Key>) returns (r: seq<Key>)
    requires n > 0 && IsFirst(kept, all, n) && key !in all
    ensures IsFirst(r, all + {key}, n)
  {
    hide Less, Ascending;
    assert key !in kept;
    if |kept| < n {
      r := SortIn(kept, key);
      KeepMore(kept, all, n, key, r);
    } else if Less(key, kept[|kept| - 1]) {
      Front(kept);
      r := SortIn(kept[..|kept| - 1], key);
      KeepSmaller(kept, all, n, key, r);
    } else {
      KeepSame(kept, all, n, key);
      r := kept;
    }
  }

  lemma Front(kept: seq<Key>)
    requires Ascending(kept) && kept != []
    ensures Ascending(kept[..|kept| - 1]) && forall k <- kept[..|kept| - 1] :: k in kept
  {
  }

  /** The walk keeps the first n matching keys, and never more than n. */
  method Walk(files: seq<Key>, ghost keys: set<Key>, prefix: Key, after: Key, n: nat) returns (kept: seq<Key>, ghost most: nat)
    requires n > 0 && (forall i, j | 0 <= i < j < |files| :: files[i] != files[j]) && forall k :: k in files <==> k in keys
    ensures IsFirst(kept, Matching(keys, prefix, after), n) && most <= n
  {
    kept, most := [], 0;
    ghost var all: set<Key> := {};
    var i := 0;
    while i < |files|
      invariant 0 <= i <= |files|
      invariant forall k :: k in all <==> k in files[..i] && Matches(k, prefix, after)
      invariant IsFirst(kept, all, n) && most <= n
    {
      var key := files[i];
      assert key !in files[..i] && files[..i + 1] == files[..i] + [key];
      if HasPrefix(key, prefix) && !HasSuffix(key, TMP) && Less(after, key) {
        kept := Consider(kept, key, n, all);
        all := all + {key};
        most := if |kept| > most then |kept| else most;
      }
      i := i + 1;
    }
    assert files[..i] == files;
    assert all == Matching(keys, prefix, after);
  }

  /** The files under the directory walked. */
  function Walked(tree: set<Key>, isDir: bool, prefix: Key): set<Key>
  {
    set k | k in tree && Within(k, WalkBase(prefix, isDir))
  }

  function PageLimit(limit: int): nat { if limit <= 0 then 100 else limit }

  /** ListPage. `isDir` is what the file system says of the cleaned prefix; the keys of files are plain. */
  method ListPage(tree: set<Key>, isDir: bool, prefix: Key, after: Key, limit: int)
    returns (page: seq<Key>, next: Key, ghost most: nat)
    requires forall k <- tree :: Plain(k)
    ensures IsPage(page, next, Matching(Walked(tree, isDir, prefix), prefix, after), PageLimit(limit))
    ensures WalksAll(prefix, isDir) ==> IsPage(page, next, Matching(tree, prefix, after), PageLimit(limit))
    ensures most <= PageLimit(limit) + 1
  {
    var n := PageLimit(limit);
    var walked := Walked(tree, isDir, prefix);
    var files := Enumerate(walked);
    ghost var all := Matching(walked, prefix, after);
    var kept;
    kept, most := Walk(files, walked, prefix, after, n + 1);
    assert [] !in all by { assert [] in Components([]); }
    if WalksAll(prefix, isDir) { SameMatching(tree, walked, prefix, isDir, after); }
    hide Less, Ascending, Matches;
    Cut(kept, all, n);
    if |kept| > n {
      page, next := kept[..n], kept[n - 1];
    } else {
      page, next := kept, [];
    }
  }

  lemma SameMatching(tree: set<Key>, walked: set<Key>, prefix: Key, isDir: bool, after: Key)
    requires WalksAll(prefix, isDir) && walked == Walked(tree, isDir, prefix) && forall k <- tree :: Plain(k)
    ensures Matching(walked, prefix, after) == Matching(tree, prefix, after)
  {
    forall k | k in Matching(tree, prefix, after) ensures k in Matching(walked, prefix, after) { WalkCovers(prefix, isDir, k); }
    assert forall k | k in Matching(walked, prefix, after) :: k in Matching(tree, prefix, after);
  }

  /** A page is the first n keys; its cursor is its last key if anything is left, and empty if not. */
  ghost predicate IsPage(page: seq<Key>, next: Key, all: set<Key>, n: nat)
  {
    && IsFirst(page, all, n)
    && (next == [] <==> forall k <- all :: k in page)
    && (next != [] ==> |page| == n > 0 && next == page[n - 1])
  }

  /** One key more than the page tells whether anything is left. */
  lemma Cut(kept: seq<Key>, all: set<Key>, n: nat)
    requires n > 0 && IsFirst(kept, all, n + 1) && [] !in all
    ensures |kept| > n ==> IsPage(kept[..n], kept[n - 1], all, n)
    ensures |kept| <= n ==> IsPage(kept, [], all, n)
  {
    if |kept| > n { CutLonger(kept, all, n); }
  }

  lemma CutLonger(kept: seq<Key>, all: set<Key>, n: nat)
    requires n > 0 && IsFirst(kept, all, n + 1) && [] !in all && |kept| == n + 1
    ensures IsPage(kept[..n], kept[n - 1], all, n)
  {
    var page, last := kept[..n], kept[n];
    assert kept == page + [last] && last in kept && kept[n - 1] in kept;
    assert last !in page by { AscendingDistinct(kept); hide Less; }
    forall k, q | k in all && q in page && k !in page ensures Less(q, k) {
      if k == last { LastIsLargest(kept, q); }
    }
    assert Ascending(page) by { Front(kept); }
    hide Less, Ascending;
    assert forall k <- page :: k in kept;
  }

  // ------------------------------------------------------------------ paging to the end

  function Elements(page: seq<Key>): set<Key> { set i | 0 <= i < |page| :: page[i] }

  lemma {:induction false} ElementsCount(page: seq<Key>)
    requires forall i, j | 0 <= i < j < |page| :: page[i] != page[j]
    ensures |Elements(page)| == |page|
  {
    if page != [] {
      var front, last := page[..|page| - 1], page[|page| - 1];
      ElementsCount(front);
      assert Elements(page) == Elements(front) + {last};
      assert last !in Elements(front);
    }
  }

  /** Going on from the cursor leaves exactly what the page left out. */
  lemma NextPage(keys: set<Key>, prefix: Key, after: Key, page: seq<Key>, next: Key, n: nat)
    requires IsPage(page, next, Matching(keys, prefix, after), n) && next != []
    ensures Less(after, next)
    ensures Matching(keys, prefix, next) == Matching(keys, prefix, after) - Elements(page)
  {
    var rest := Matching(keys, prefix, after);
    assert next in page && next in rest;
    forall k ensures k in Matching(keys, prefix, next) <==> k in rest && k !in Elements(page) {
      NextKey(keys, prefix, after, page, next, n, k);
    }
  }

  lemma NextKey(keys: set<Key>, prefix: Key, after: Key, page: seq<Key>, next: Key, n: nat, k: Key)
    requires IsPage(page, next, Matching(keys, prefix, after), n) && next != [] && next in Matching(keys, prefix, after)
    ensures k in Matching(keys, prefix, next) <==> k in Matching(keys, prefix, after) && k !in Elements(page)
  {
    var rest := Matching(keys, prefix, after);
    if k in Matching(keys, prefix, next) {
      Transitive(after, next, k);
      if k in page { NotPastLast(page, k); Asymmetric(next, k); }
    }
    if k in rest && k !in Elements(page) { assert k !in page && next in page; }
  }

  lemma NotPastLast(page: seq<Key>, k: Key)
    requires Ascending(page) && k in page
    ensures k == page[|page| - 1] || Less(k, page[|page| - 1])
  {
    var i :| 0 <= i < |page| && page[i] == k;
  }

  /** The keys listed so far, and what is still to come from the cursor. */
  ghost predicate Listed(sizes: map<Key, int>, tree: map<Key, int>, all: set<Key>, rest: set<Key>)
  {
    sizes.Keys <= all && rest == all - sizes.Keys && forall k <- sizes :: k in tree && sizes[k] == tree[k]
  }

  method AddPage(was: map<Key, int>, page: seq<Key>, tree: map<Key, int>, ghost all: set<Key>, ghost rest: set<Key>)
    returns (sizes: map<Key, int>)
    requires Listed(was, tree, all, rest) && all <= tree.Keys
    requires forall k <- page :: k in rest
    ensures Listed(sizes, tree, all, rest - Elements(page))
  {
    sizes := was;
    var i := 0;
    while i < |page|
      invariant 0 <= i <= |page|
      invariant forall k :: k in sizes <==> k in was || k in page[..i]
      invariant forall k <- sizes :: k in tree && sizes[k] == tree[k]
    {
      assert page[i] in page && page[..i + 1] == page[..i] + [page[i]];
      sizes := sizes[page[i] := tree[page[i]]];
      i := i + 1;
    }
    assert page[..i] == page;
  }

  /**
   listObjectSizes: follows the cursor to its end, at most 100000 pages of 1000 keys. It succeeds
   exactly when the listing fits, and then reports every listed key once, with its size.
   */
  method ListSizes(tree: map<Key, int>, isDir: bool, prefix: Key) returns (sizes: map<Key, int>, ok: bool)
    requires forall k <- tree :: Plain(k)
    ensures var all := Matching(Walked(tree.Keys, isDir, prefix), prefix, []);
            && (ok <==> |all| <= 100_000_000)
            && (forall k <- sizes :: k in all && k in tree && sizes[k] == tree[k])
            && (ok ==> sizes.Keys == all)
  {
    ghost var keys := Walked(tree.Keys, isDir, prefix);
    ghost var all := Matching(keys, prefix, []);
    MatchingIn(keys, prefix, []);
    assert keys <= tree.Keys;
    sizes, ok := map[], false;
    var after: Key := [];
    var i := 0;
    hide Less, Ascending, IsFirst, Matching, Elements, Listed, Walked, IsPage;
    Nothing(tree, all);
    while i < 100_000
      invariant 0 <= i <= 100_000
      invariant Listed(sizes, tree, all, Matching(keys, prefix, after))
      invariant |all| == 1000 * i + |Matching(keys, prefix, after)| && (i > 0 ==> |Matching(keys, prefix, after)| > 0)
    {
      var page, next, most := ListPage(tree.Keys, isDir, prefix, after, 1000);
      ghost var rest := Matching(keys, prefix, after);
      PageParts(page, next, rest, 1000);
      sizes := AddPage(sizes, page, tree, all, rest);
      if next == [] {
        assert rest - Elements(page) == {};
        Everything(sizes, tree, all, rest - Elements(page));
        return sizes, true;
      }
      NextPage(keys, prefix, after, page, next, 1000);
      Left(rest, page);
      assert Matching(keys, prefix, next) == rest - Elements(page);
      after := next;
      i := i + 1;
    }
    Everything(sizes, tree, all, Matching(keys, prefix, after));
    return sizes, false;
  }

  lemma Nothing(tree: map<Key, int>, all: set<Key>)
    ensures Listed(map[], tree, all, all)
  {
  }

  lemma Everything(sizes: map<Key, int>, tree: map<Key, int>, all: set<Key>, rest: set<Key>)
    requires Listed(sizes, tree, all, rest)
    ensures (rest == {} ==> sizes.Keys == all) && forall k <- sizes :: k in all && k in tree && sizes[k] == tree[k]
  {
    assert forall k <- all :: k in sizes.Keys || k in rest;
  }

  /** A page that is not the last takes its keys out and leaves some. */
  lemma Left(rest: set<Key>, page: seq<Key>)
    requires Elements(page) <= rest && (forall k :: k in page <==> k in Elements(page)) && exists k :: k in rest && k !in page
    ensures |rest - Elements(page)| == |rest| - |Elements(page)| > 0
  {
    hide Elements;
    var k :| k in rest && k !in page;
    assert k in rest - Elements(page);
    assert |rest - Elements(page)| + |Elements(page)| == |rest|;
  }

  lemma MatchingIn(keys: set<Key>, prefix: Key, after: Key)
    ensures Matching(keys, prefix, after) <= keys
  {
  }

  lemma PageParts(page: seq<Key>, next: Key, rest: set<Key>, n: nat)
    requires IsPage(page, next, rest, n)
    ensures |Elements(page)| == |page| <= n && Elements(page) <= rest
    ensures forall k :: k in page <==> k in Elements(page)
    ensures next == [] ==> Elements(page) == rest
    ensures forall k <- page :: k in rest
    ensures next != [] ==> |page| == n && exists k :: k in rest && k !in page
  {
    AscendingDistinct(page);
    ElementsCount(page);
  }
}
