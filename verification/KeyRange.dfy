/**
 Ordered listing of a cell's keys by prefix (internal/cellstore/cellstore.go): the range a prefix
 stands for, one page of keys, and following the pages.
 */
module KeyRange {
  import opened Bytes
  import opened Lex

  /** A row of the key table; `expires` 0 means never. */
  datatype Row = Row(key: Key, expires: int)

  predicate Live(r: Row, now: int) { r.expires == 0 || r.expires > now }

  // ------------------------------------------------------------------ the range of a prefix

  /** The successor of the prefix cut at its last byte below 0xff, if it has one. */
  predicate IsBound(prefix: Key, i: int, hi: Key)
  {
    && 0 <= i < |prefix| && prefix[i] != 255 && (forall j | i < j < |prefix| :: prefix[j] == 255)
    && hi == prefix[..i] + [prefix[i] + 1]
  }

  lemma AtLeastPrefix(k: Key, prefix: Key)
    requires HasPrefix(k, prefix)
    ensures !Less(k, prefix)
  {
  }

  lemma BelowBound(k: Key, prefix: Key, i: nat, hi: Key)
    requires IsBound(prefix, i, hi) && HasPrefix(k, prefix)
    ensures Less(k, hi)
  {
    assert hi[i] == prefix[i] + 1 && forall j | 0 <= j < i :: hi[j] == prefix[j];
    LessAt(k, hi, i);
  }

  /** A key at or after the prefix without having it differs from it upwards, at some byte below 0xff. */
  lemma DiffersUp(k: Key, prefix: Key)
    requires !Less(k, prefix) && !HasPrefix(k, prefix)
    ensures var d := Diff(k, prefix);
            d < |k| && d < |prefix| && k[d] > prefix[d] && forall j | 0 <= j < d :: k[j] == prefix[j]
  {
  }

  lemma PastBound(k: Key, prefix: Key, i: nat, hi: Key)
    requires IsBound(prefix, i, hi) && !Less(k, prefix) && !HasPrefix(k, prefix)
    ensures !Less(k, hi)
  {
    DiffersUp(k, prefix);
    var d := Diff(k, prefix);
    assert d <= i;
    assert hi[i] == prefix[i] + 1 && forall j | 0 <= j < i :: hi[j] == prefix[j];
    if d < i || k[i] > hi[i] {
      LessAt(hi, k, d);
      Asymmetric(hi, k);
    } else {
      assert Diff(k, hi) == |hi|;
    }
  }

  /** prefixUpperBound: keys with the prefix are exactly those from it up to the bound, or to the end. */
  method PrefixUpperBound(prefix: Key) returns (hi: Key, ok: bool)
    ensures ok <==> exists i :: 0 <= i < |prefix| && prefix[i] != 255
    ensures forall k :: HasPrefix(k, prefix) <==> !Less(k, prefix) && (ok ==> Less(k, hi))
  {
    var b := new Byte[|prefix|](i requires 0 <= i < |prefix| => prefix[i]);
    var i := |prefix| - 1;
    while i >= 0
      invariant -1 <= i < |prefix| && b[..] == prefix
      invariant forall j | i < j < |prefix| :: prefix[j] == 255
    {
      if b[i] != 255 {
        assert b[..][i] == prefix[i];
        b[i] := b[i] + 1;
        hi, ok := b[..i + 1], true;
        assert hi == prefix[..i] + [prefix[i] + 1];
        Bounded(prefix, i, hi);
        return;
      }
      assert b[..][i] == prefix[i];
      i := i - 1;
    }
    Unbounded(prefix);
    return [], false;
  }

  lemma Bounded(prefix: Key, i: nat, hi: Key)
    requires IsBound(prefix, i, hi)
    ensures forall k :: HasPrefix(k, prefix) <==> !Less(k, prefix) && Less(k, hi)
  {
    forall k ensures HasPrefix(k, prefix) <==> !Less(k, prefix) && Less(k, hi) {
      if HasPrefix(k, prefix) {
        AtLeastPrefix(k, prefix);
        BelowBound(k, prefix, i, hi);
      } else if !Less(k, prefix) {
        PastBound(k, prefix, i, hi);
      }
    }
  }

  lemma Unbounded(prefix: Key)
    requires forall j | 0 <= j < |prefix| :: prefix[j] == 255
    ensures forall k :: HasPrefix(k, prefix) <==> !Less(k, prefix)
  {
    forall k ensures HasPrefix(k, prefix) <==> !Less(k, prefix) {
      if HasPrefix(k, prefix) { AtLeastPrefix(k, prefix); } else if !Less(k, prefix) { DiffersUp(k, prefix); }
    }
  }

  // ------------------------------------------------------------------ one page

  /** The table's index: keys in ascending order. */
  ghost predicate Indexed(rows: seq<Row>) { forall i, j | 0 <= i < j < |rows| :: Less(rows[i].key, rows[j].key) }

  /** Where the page starts: at the prefix, or just after the cursor. */
  function Lower(prefix: Key, after: Key): Key { if after == [] then prefix else after + [0] }

  predicate Selects(r: Row, lo: Key, prefix: Key, now: int)
  {
    !Less(r.key, lo) && (HasPrefix(r.key, prefix) || Less(r.key, prefix)) && Live(r, now)
  }

  /** The keys the query selects from the first n rows. */
  ghost function Selected(rows: seq<Row>, n: nat, lo: Key, prefix: Key, now: int): set<Key>
    requires n <= |rows|
  {
    set i | 0 <= i < n && Selects(rows[i], lo, prefix, now) :: rows[i].key
  }

  function Limit(limit: int): nat { if limit <= 0 || limit > 1000 then 100 else limit }

  lemma AppendFirst(out: seq<Key>, all: set<Key>, n: nat, k: Key)
    requires IsFirst(out, all, n) && |out| < n && forall q <- all :: Less(q, k)
    ensures IsFirst(out + [k], all + {k}, n)
  {
    var out' := out + [k];
    assert forall i | 0 <= i < |out| :: out'[i] == out[i] && out[i] in out;
    hide Less;
  }

  lemma SkipFirst(out: seq<Key>, all: set<Key>, n: nat, k: Key)
    requires IsFirst(out, all, n) && |out| == n && forall q <- all :: Less(q, k)
    ensures IsFirst(out, all + {k}, n)
  {
    hide Less, Ascending;
  }

  /** The query behind List: rows in index order, within the range, live, up to the limit. */
  method List(rows: seq<Row>, prefix: Key, after: Key, limit: int, now: int) returns (out: seq<Key>)
    requires Indexed(rows)
    ensures IsFirst(out, Selected(rows, |rows|, Lower(prefix, after), prefix, now), Limit(limit))
  {
    var n, lo := Limit(limit), Lower(prefix, after);
    var hi, bounded := PrefixUpperBound(prefix);
    out := [];
    var i := 0;
    assert Selected(rows, 0, lo, prefix, now) == {};
    while i < |rows|
      invariant 0 <= i <= |rows|
      invariant IsFirst(out, Selected(rows, i, lo, prefix, now), n)
    {
      var k := rows[i].key;
      ghost var all := Selected(rows, i, lo, prefix, now);
      InRange(k, prefix, hi, bounded);
      assert forall q <- all :: Less(q, k);
      assert Selected(rows, i + 1, lo, prefix, now) == if Selects(rows[i], lo, prefix, now) then all + {k} else all;
      if !Less(k, lo) && Live(rows[i], now) && (!bounded || Less(k, hi)) {
        if |out| < n {
          AppendFirst(out, all, n, k);
          out := out + [k];
        } else {
          SkipFirst(out, all, n, k);
        }
      }
      i := i + 1;
    }
  }

  /** Below the bound: the keys with the prefix and everything before them. */
  lemma InRange(k: Key, prefix: Key, hi: Key, bounded: bool)
    requires forall x :: HasPrefix(x, prefix) <==> !Less(x, prefix) && (bounded ==> Less(x, hi))
    requires bounded ==> Less(prefix, hi)
    ensures (!bounded || Less(k, hi)) <==> HasPrefix(k, prefix) || Less(k, prefix)
  {
    if bounded && Less(k, prefix) { Transitive(k, prefix, hi); }
  }

  // ------------------------------------------------------------------ what a page holds

  /** The live keys with the prefix that come after the cursor. */
  ghost function Wanted(rows: seq<Row>, prefix: Key, after: Key, now: int): set<Key>
  {
    set i | 0 <= i < |rows| && HasPrefix(rows[i].key, prefix) && Live(rows[i], now)
            && (after == [] || Less(after, rows[i].key)) :: rows[i].key
  }

  /** The cursor lies in the prefix or after it; List takes any cursor and does not look. */
  predicate CursorFits(prefix: Key, after: Key) { !Less(Lower(prefix, after), prefix) }

  lemma SelectsWanted(r: Row, prefix: Key, after: Key, now: int)
    requires CursorFits(prefix, after)
    ensures Selects(r, Lower(prefix, after), prefix, now)
            <==> HasPrefix(r.key, prefix) && Live(r, now) && (after == [] || Less(after, r.key))
  {
    var lo, k := Lower(prefix, after), r.key;
    if after != [] { SuccessorIsNext(after, k); }
    if HasPrefix(k, prefix) { AtLeastPrefix(k, prefix); }
    if Less(k, prefix) && !Less(k, lo) {
      Total(lo, k);
      if lo != k { Transitive(lo, k, prefix); }
    }
  }

  /** With a fitting cursor a page is chosen from the live keys with the prefix after it. */
  lemma PageIsInPrefix(rows: seq<Row>, prefix: Key, after: Key, now: int)
    requires CursorFits(prefix, after)
    ensures Selected(rows, |rows|, Lower(prefix, after), prefix, now) == Wanted(rows, prefix, after, now)
  {
    forall i | 0 <= i < |rows| ensures Selects(rows[i], Lower(prefix, after), prefix, now)
        <==> HasPrefix(rows[i].key, prefix) && Live(rows[i], now) && (after == [] || Less(after, rows[i].key)) {
      SelectsWanted(rows[i], prefix, after, now);
    }
    hide Selects, HasPrefix, Less;
  }

  /** With any other cursor there is a table whose page leaves the prefix. */
  lemma PageLeavesPrefix(prefix: Key, after: Key, now: int) returns (rows: seq<Row>)
    requires !CursorFits(prefix, after)
    ensures Indexed(rows) && exists k :: k in Selected(rows, |rows|, Lower(prefix, after), prefix, now) && !HasPrefix(k, prefix)
  {
    var lo := Lower(prefix, after);
    rows := [Row(lo, 0)];
    Irreflexive(lo);
    assert Selects(rows[0], lo, prefix, now);
    if HasPrefix(lo, prefix) { AtLeastPrefix(lo, prefix); }
    assert lo in Selected(rows, 1, lo, prefix, now);
  }

  // ------------------------------------------------------------------ following the pages

  /** The last key of a full page is a fitting cursor, and what is wanted after it is what the page left. */
  lemma NextCursor(rows: seq<Row>, prefix: Key, after: Key, now: int, page: seq<Key>, n: nat)
    requires IsFirst(page, Wanted(rows, prefix, after, now), n) && page != [] && page[|page| - 1] != []
    ensures var last := page[|page| - 1];
            && CursorFits(prefix, last)
            && Wanted(rows, prefix, last, now) == Wanted(rows, prefix, after, now) - (set k | k in page)
  {
    var last, all := page[|page| - 1], Wanted(rows, prefix, after, now);
    assert last in page && last in all;
    AtLeastPrefix(last, prefix);
    CursorInPrefix(prefix, last);
    forall k ensures k in Wanted(rows, prefix, last, now) <==> k in all && k !in page { AfterLast(rows, prefix, after, now, page, n, k); }
  }

  lemma CursorInPrefix(prefix: Key, last: Key)
    requires last != [] && !Less(last, prefix)
    ensures CursorFits(prefix, last)
  {
    var lo := last + [0];
    LessAt(last, lo, |last|);
    if Less(lo, prefix) { Transitive(last, lo, prefix); }
  }

  lemma AfterLast(rows: seq<Row>, prefix: Key, after: Key, now: int, page: seq<Key>, n: nat, k: Key)
    requires IsFirst(page, Wanted(rows, prefix, after, now), n) && page != [] && page[|page| - 1] != []
    ensures k in Wanted(rows, prefix, page[|page| - 1], now) <==> k in Wanted(rows, prefix, after, now) && k !in page
  {
    var last, all := page[|page| - 1], Wanted(rows, prefix, after, now);
    assert last in page && last in all;
    if k in Wanted(rows, prefix, last, now) {
      if after != [] { Transitive(after, last, k); }
      if k in page {
        var i :| 0 <= i < |page| && page[i] == k;
        if i == |page| - 1 { Irreflexive(k); } else { Asymmetric(last, k); }
      }
    }
    if k in all && k !in page { assert Less(last, k); }
  }

  /** Pages that follow one another stay ascending together. */
  lemma JoinPages(out: seq<Key>, page: seq<Key>)
    requires Ascending(out) && Ascending(page) && forall q <- out, k <- page :: Less(q, k)
    ensures Ascending(out + page)
  {
    var all := out + page;
    hide Less;
    forall i, j | 0 <= i < j < |all| ensures Less(all[i], all[j]) {
      if i < |out| <= j { assert out[i] in out && page[j - |out|] in page; }
    }
  }

  /** Keys already listed, and what is wanted after the cursor. */
  ghost predicate Progress(out: seq<Key>, all: set<Key>, rest: set<Key>)
  {
    && Ascending(out) && (forall k <- out :: k in all && k !in rest) && (forall k <- all :: k in out || k in rest) && rest <= all
    && forall q <- out, k <- rest :: Less(q, k)
  }

  lemma AddPage(out: seq<Key>, all: set<Key>, rest: set<Key>, page: seq<Key>, n: nat)
    requires Progress(out, all, rest) && IsFirst(page, rest, n)
    ensures Progress(out + page, all, rest - set k | k in page)
  {
    assert forall k <- page :: k in rest;
    JoinPages(out, page);
    hide Less, Ascending;
  }

  /** The pages lead on: there is room beside an empty key, or none is wanted. The empty key is no cursor. */
  ghost predicate Pages(rows: seq<Row>, prefix: Key, n: nat, now: int) { n > 1 || [] !in Wanted(rows, prefix, [], now) }

  /** Following the pages from an empty cursor lists every live key with the prefix once, in order. */
  method ListAll(rows: seq<Row>, prefix: Key, limit: int, now: int) returns (out: seq<Key>)
    requires Indexed(rows) && Pages(rows, prefix, Limit(limit), now)
    ensures Ascending(out) && forall k :: k in out <==> k in Wanted(rows, prefix, [], now)
  {
    var n, after := Limit(limit), [];
    ghost var all := Wanted(rows, prefix, [], now);
    out := [];
    Irreflexive(prefix);
    ghost var rest := all;
    while true
      invariant CursorFits(prefix, after) && rest == Wanted(rows, prefix, after, now)
      invariant Progress(out, all, rest)
      decreases |rest|
    {
      PageIsInPrefix(rows, prefix, after, now);
      var page := List(rows, prefix, after, limit, now);
      AddPage(out, all, rest, page, n);
      out := out + page;
      if |page| < n {
        assert rest - (set k | k in page) == {};
        return;
      }
      LastNotEmpty(rows, prefix, after, now, page, n);
      NextCursor(rows, prefix, after, now, page, n);
      assert page[n - 1] in page && page[n - 1] in rest;
      rest := rest - set k | k in page;
      after := page[n - 1];
    }
  }

  lemma LastNotEmpty(rows: seq<Row>, prefix: Key, after: Key, now: int, page: seq<Key>, n: nat)
    requires IsFirst(page, Wanted(rows, prefix, after, now), n) && |page| == n > 0 && Pages(rows, prefix, n, now)
    ensures page[n - 1] != []
  {
    assert page[n - 1] in page && page[n - 1] in Wanted(rows, prefix, [], now);
    if n > 1 { assert Less(page[0], page[n - 1]); }
  }

  /** A full first page ends in a usable cursor exactly when the pages lead on. */
  lemma PagesExactly(rows: seq<Row>, prefix: Key, now: int, page: seq<Key>, n: nat)
    requires IsFirst(page, Wanted(rows, prefix, [], now), n) && |page| == n > 0
    ensures Pages(rows, prefix, n, now) <==> page[n - 1] != []
  {
    if Pages(rows, prefix, n, now) { LastNotEmpty(rows, prefix, [], now, page, n); } else { OnlyEmptyKey(rows, prefix, now, page); }
  }

  lemma OnlyEmptyKey(rows: seq<Row>, prefix: Key, now: int, page: seq<Key>)
    requires IsFirst(page, Wanted(rows, prefix, [], now), 1) && [] in Wanted(rows, prefix, [], now)
    ensures page == [[]]
  {
    assert |page| < 1 ==> [] in page;
    assert page[0] in page;
    if page[0] != [] { LessAt([], page[0], 0); Asymmetric([], page[0]); }
  }

  /** When they do not, the page read from the first page's own cursor is the first page again. */
  lemma EmptyKeyRepeats(rows: seq<Row>, prefix: Key, now: int, n: nat, first: seq<Key>, second: seq<Key>)
    requires n > 0 && !Pages(rows, prefix, n, now) && IsFirst(first, Wanted(rows, prefix, [], now), n)
    requires first != [] ==> IsFirst(second, Wanted(rows, prefix, first[|first| - 1], now), n)
    ensures first == [[]] && second == first
  {
    OnlyEmptyKey(rows, prefix, now, first);
    OnlyEmptyKey(rows, prefix, now, second);
  }
}
