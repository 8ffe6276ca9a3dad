/** Choosing local cell files to delete under a disk budget (internal/cellstore/disk.go). */
module DiskEviction {
  import opened Bytes
  import opened Lex

  /** `owned` and `safe` are what the janitor answers for the file when asked. */
  datatype DiskFile = DiskFile(path: Key, bytes: int, alloc: int, modified: int, owned: bool, safe: bool)

  /** The accounting size: allocated bytes when known, else the apparent size. */
  function DiskBytes(f: DiskFile): int { if f.alloc > 0 then f.alloc else f.bytes }

  function SumFirst(files: seq<DiskFile>, n: nat): int
    requires n <= |files|
  {
    if n == 0 then 0 else SumFirst(files, n - 1) + DiskBytes(files[n - 1])
  }

  function TotalBytes(files: seq<DiskFile>): int { SumFirst(files, |files|) }

  predicate Within(plan: seq<nat>, files: seq<DiskFile>) { forall a | 0 <= a < |plan| :: plan[a] < |files| }

  /** The size of the first n chosen files. */
  function Freed(files: seq<DiskFile>, plan: seq<nat>, n: nat): int
    requires Within(plan, files) && n <= |plan|
  {
    if n == 0 then 0 else Freed(files, plan, n - 1) + DiskBytes(files[plan[n - 1]])
  }

  predicate Eligible(f: DiskFile) { !f.owned || f.safe }

  /** Least recently used first, paths breaking ties. */
  predicate Older(a: DiskFile, b: DiskFile)
  {
    if a.modified != b.modified then a.modified < b.modified else Less(a.path, b.path)
  }

  lemma OlderTransitive(a: DiskFile, b: DiskFile, c: DiskFile)
    requires Older(a, b) && Older(b, c)
    ensures Older(a, c)
  {
    if a.modified == b.modified == c.modified { Transitive(a.path, b.path, c.path); }
  }

  lemma OlderTotal(a: DiskFile, b: DiskFile)
    requires a.path != b.path
    ensures Older(a, b) || Older(b, a)
  {
    Lex.Total(a.path, b.path);
  }

  /** Files are listed once each. */
  ghost predicate Listed(files: seq<DiskFile>) { forall i, j | 0 <= i < j < |files| :: files[i].path != files[j].path }

  /** An ordering of the first n files, oldest first. */
  ghost predicate Ordered(files: seq<DiskFile>, order: seq<nat>, n: nat)
  {
    && n <= |files|
    && (forall i: nat :: i in order <==> i < n)
    && Within(order, files)
    && (forall a, b | 0 <= a < b < |order| :: Older(files[order[a]], files[order[b]]))
  }

  lemma Placed(files: seq<DiskFile>, order: seq<nat>, n: nat, j: nat)
    requires Listed(files) && Ordered(files, order, n) && n < |files| && j <= |order|
    requires forall a | j <= a < |order| :: Older(files[n], files[order[a]])
    requires forall a | 0 <= a < j :: Older(files[order[a]], files[n])
    ensures Ordered(files, order[..j] + [n] + order[j..], n + 1)
  {
    hide Older, Listed;
    PlacedMembers(order, n, j);
    PlacedOrder(files, order, n, j);
  }

  lemma PlacedMembers(order: seq<nat>, n: nat, j: nat)
    requires j <= |order|
    ensures forall i: nat :: i in order[..j] + [n] + order[j..] <==> i in order || i == n
  {
    assert order == order[..j] + order[j..];
  }

  lemma PlacedOrder(files: seq<DiskFile>, order: seq<nat>, n: nat, j: nat)
    requires Within(order, files) && n < |files| && j <= |order|
    requires forall a, b | 0 <= a < b < |order| :: Older(files[order[a]], files[order[b]])
    requires forall a | j <= a < |order| :: Older(files[n], files[order[a]])
    requires forall a | 0 <= a < j :: Older(files[order[a]], files[n])
    ensures var r := order[..j] + [n] + order[j..];
            Within(r, files) && forall a, b | 0 <= a < b < |r| :: Older(files[r[a]], files[r[b]])
  {
    var r := order[..j] + [n] + order[j..];
    hide Older;
    assert forall a | 0 <= a < |r| :: r[a] == if a < j then order[a] else if a == j then n else order[a - 1];
  }

  /** sort.Slice of the indices: each file takes its place among the ones before it. */
  method SortByAge(files: seq<DiskFile>) returns (order: seq<nat>)
    requires Listed(files)
    ensures Ordered(files, order, |files|)
  {
    order := [];
    var n := 0;
    while n < |files|
      invariant 0 <= n <= |files| && Ordered(files, order, n)
    {
      var j := |order|;
      while j > 0 && Older(files[n], files[order[j - 1]])
        invariant 0 <= j <= |order| && forall a | j <= a < |order| :: Older(files[n], files[order[a]])
      {
        j := j - 1;
      }
      Before(files, order, n, j);
      Placed(files, order, n, j);
      order := order[..j] + [n] + order[j..];
      n := n + 1;
    }
  }

  lemma Before(files: seq<DiskFile>, order: seq<nat>, n: nat, j: nat)
    requires Listed(files) && Ordered(files, order, n) && n < |files| && j <= |order|
    requires j == 0 || !Older(files[n], files[order[j - 1]])
    ensures forall a | 0 <= a < j :: Older(files[order[a]], files[n])
  {
    if j > 0 {
      assert order[j - 1] in order;
      OlderTotal(files[order[j - 1]], files[n]);
      forall a | 0 <= a < j ensures Older(files[order[a]], files[n]) {
        if a < j - 1 { OlderTransitive(files[order[a]], files[order[j - 1]], files[n]); }
      }
    }
  }

  /** The eligible ones among the first n of the order. */
  function Candidates(files: seq<DiskFile>, order: seq<nat>, n: nat): (r: seq<nat>)
    requires n <= |order| && Within(order, files)
    ensures Within(r, files) && forall a | 0 <= a < |r| :: Eligible(files[r[a]])
  {
    if n == 0 then []
    else if Eligible(files[order[n - 1]]) then Candidates(files, order, n - 1) + [order[n - 1]]
    else Candidates(files, order, n - 1)
  }

  lemma {:induction false} FreedPrefix(files: seq<DiskFile>, plan: seq<nat>, i: nat, n: nat)
    requires Within(plan, files) && i < |files| && n <= |plan|
    ensures Within(plan + [i], files) && Freed(files, plan + [i], n) == Freed(files, plan, n)
  {
    if n > 0 { FreedPrefix(files, plan, i, n - 1); }
  }

  lemma {:induction false} CandidatesGrow(files: seq<DiskFile>, order: seq<nat>, n: nat, m: nat)
    requires n <= m <= |order| && Within(order, files)
    ensures Candidates(files, order, n) <= Candidates(files, order, m)
    decreases m
  {
    if n < m { CandidatesGrow(files, order, n, m - 1); }
  }

  /** The files on disk fit the budget. */
  predicate Fits(files: seq<DiskFile>, maxBytes: int) { maxBytes <= 0 || TotalBytes(files) <= maxBytes }

  /**
   SelectDiskEvictions: nothing when the files fit. Otherwise the oldest eligible files, exactly as
   many as are needed: with one fewer the budget is exceeded, and it is met unless every eligible
   file is chosen.
   */
  method Select(files: seq<DiskFile>, maxBytes: int) returns (plan: seq<nat>, ghost order: seq<nat>)
    requires Listed(files)
    ensures Within(plan, files) && forall a | 0 <= a < |plan| :: Eligible(files[plan[a]])
    ensures Fits(files, maxBytes) ==> plan == []
    ensures !Fits(files, maxBytes) ==>
              && Ordered(files, order, |files|) && plan <= Candidates(files, order, |order|)
              && (TotalBytes(files) - Freed(files, plan, |plan|) <= maxBytes || plan == Candidates(files, order, |order|))
    ensures plan != [] ==> TotalBytes(files) - Freed(files, plan, |plan| - 1) > maxBytes
  {
    plan, order := [], [];
    if maxBytes <= 0 { return; }
    var total, i := 0, 0;
    while i < |files|
      invariant 0 <= i <= |files| && total == SumFirst(files, i)
    {
      total := total + DiskBytes(files[i]);
      i := i + 1;
    }
    if total <= maxBytes { return; }
    var sorted := SortByAge(files);
    order := sorted;
    plan := Pick(files, sorted, maxBytes, total);
  }

  method Pick(files: seq<DiskFile>, order: seq<nat>, maxBytes: int, all: int) returns (plan: seq<nat>)
    requires Within(order, files)
    ensures Within(plan, files) && plan <= Candidates(files, order, |order|) && forall a | 0 <= a < |plan| :: Eligible(files[plan[a]])
    ensures all - Freed(files, plan, |plan|) <= maxBytes || plan == Candidates(files, order, |order|)
    ensures plan != [] ==> all - Freed(files, plan, |plan| - 1) > maxBytes
  {
    plan := [];
    var total, a := all, 0;
    while a < |order|
      invariant 0 <= a <= |order| && plan == Candidates(files, order, a) && total == all - Freed(files, plan, |plan|)
      invariant plan != [] ==> all - Freed(files, plan, |plan| - 1) > maxBytes
    {
      if total <= maxBytes {
        CandidatesGrow(files, order, a, |order|);
        return;
      }
      var i := order[a];
      if !(files[i].owned && !files[i].safe) {
        FreedPrefix(files, plan, i, |plan|);
        plan, total := plan + [i], total - DiskBytes(files[i]);
      }
      a := a + 1;
    }
  }
}
