/** Streaming a database file as the parts of a full snapshot (internal/cellstore/cellstore.go). */
module SnapshotStream {
  import opened Bytes

  const DEFAULT_PART_BYTES := 8_388_608

  datatype Error = TooSmall | BadPageSize | TooManyPages | BudgetTooSmall | Stopped

  datatype Result = Done(pageSize: nat, commit: nat) | Err(error: Error)

  /** One call of the part callback. */
  datatype Call = Call(part: nat, total: nat, firstPage: nat, pages: seq<seq<Byte>>)

  /** The page size field of the header, section 1.3.2 of the SQLite database file format. */
  function PageSize(file: seq<Byte>): nat
    requires |file| >= 100
  {
    var high: int, low: int := file[16], file[17];
    var field := 256 * high + low;
    if field == 1 then 65536 else field
  }

  /** snapshotPagesPerPart. */
  function PerPart(ps: nat, partBytes: int): int
    requires ps > 0
  {
    (partBytes - 44 - 24) / (12 + ps)
  }

  /** What a part may cost: the segment header, the page-map header and each page with its index entry. */
  function PartCost(count: nat, ps: nat): nat { 44 + 24 + count * (12 + ps) }

  /** The pages per part are as many as the cost allows. */
  lemma WithinBudget(ps: nat, partBytes: int, count: nat)
    requires ps > 0 && count > 0
    ensures count <= PerPart(ps, partBytes) <==> PartCost(count, ps) <= partBytes
  {
    var q, d := PerPart(ps, partBytes), 12 + ps;
    assert q * d <= partBytes - 68 < q * d + d;
    if count <= q { assert count * d <= q * d; } else { assert (q + 1) * d <= count * d; }
  }

  /** A page as it is stored: compressed when that is shorter. */
  function Frame(page: seq<Byte>, lz4: seq<Byte> -> seq<Byte>): seq<Byte> { if |lz4(page)| < |page| then lz4(page) else page }

  /** The bytes of a part in the WAL3 format, and in the older WAL2 one of fixed frames. */
  function EncodedSize(pages: seq<seq<Byte>>, lz4: seq<Byte> -> seq<Byte>): nat
  {
    if pages == [] then 44 + 24 else EncodedSize(pages[..|pages| - 1], lz4) + 12 + |Frame(pages[|pages| - 1], lz4)|
  }

  function FixedSize(pages: seq<seq<Byte>>): nat
  {
    if pages == [] then 44 + 20 else FixedSize(pages[..|pages| - 1]) + 4 + |pages[|pages| - 1]|
  }

  /** No encoding of a part exceeds its cost, and one whose pages do not compress reaches it. */
  lemma {:induction false} EncodingFits(pages: seq<seq<Byte>>, ps: nat, lz4: seq<Byte> -> seq<Byte>)
    requires forall j | 0 <= j < |pages| :: |pages[j]| == ps
    ensures FixedSize(pages) <= PartCost(|pages|, ps) && EncodedSize(pages, lz4) <= PartCost(|pages|, ps)
    ensures EncodedSize(pages, lz4) == PartCost(|pages|, ps) <==> forall j | 0 <= j < |pages| :: |lz4(pages[j])| >= ps
    decreases |pages|
  {
    if pages != [] {
      var front, n := pages[..|pages| - 1], |pages|;
      EncodingFits(front, ps, lz4);
      assert forall j | 0 <= j < n - 1 :: pages[j] == front[j];
      assert n * (12 + ps) == (n - 1) * (12 + ps) + 12 + ps;
    }
  }

  /** The offset of unit n, each `size` long. */
  function At(n: nat, size: nat): nat { n * size }

  lemma AtMono(a: nat, b: nat, size: nat)
    requires a <= b
    ensures At(a, size) <= At(b, size)
  {
  }

  lemma AtAdd(a: nat, b: nat, size: nat)
    ensures At(a + b, size) == At(a, size) + At(b, size) && At(1, size) == size && At(0, size) == 0
  {
  }

  /** Page i, counting from 0. */
  function Page(file: seq<Byte>, ps: nat, i: nat): (p: seq<Byte>)
    requires At(i + 1, ps) <= |file|
    ensures |p| == ps
  {
    AtAdd(i, 1, ps);
    file[At(i, ps)..At(i + 1, ps)]
  }

  /** The pages from first up to end. */
  function PagesFrom(file: seq<Byte>, ps: nat, first: nat, end: nat): (r: seq<seq<Byte>>)
    requires first <= end && At(end, ps) <= |file|
    ensures |r| == end - first
    decreases end - first
  {
    if first == end then []
    else
      AtMono(first + 1, end, ps);
      [Page(file, ps, first)] + PagesFrom(file, ps, first + 1, end)
  }

  lemma {:induction false} PagesSplit(file: seq<Byte>, ps: nat, a: nat, b: nat, c: nat)
    requires a <= b <= c && At(c, ps) <= |file|
    ensures At(b, ps) <= |file| && PagesFrom(file, ps, a, c) == PagesFrom(file, ps, a, b) + PagesFrom(file, ps, b, c)
    decreases b - a
  {
    AtMono(b, c, ps);
    hide At, Page;
    if a < b { PagesSplit(file, ps, a + 1, b, c); }
  }

  lemma {:induction false} PagesAt(file: seq<Byte>, ps: nat, first: nat, end: nat, j: nat)
    requires first <= end && At(end, ps) <= |file| && j < end - first
    ensures At(first + j + 1, ps) <= |file| && PagesFrom(file, ps, first, end)[j] == Page(file, ps, first + j)
    decreases j
  {
    AtMono(first + j + 1, end, ps);
    hide At, Page;
    if j > 0 { PagesAt(file, ps, first + 1, end, j - 1); }
  }

  /** Page j of a run of pages is the page of the file. */
  lemma PageOfRun(file: seq<Byte>, ps: nat, first: nat, count: nat, j: nat)
    requires At(first + count, ps) <= |file| && j < count
    ensures At(first + count, ps) == At(first, ps) + At(count, ps)
    ensures At(j, ps) <= At(j + 1, ps) <= At(count, ps) && At(first + j + 1, ps) <= |file|
    ensures file[At(first, ps)..At(first + count, ps)][At(j, ps)..At(j + 1, ps)] == Page(file, ps, first + j)
  {
    AtMono(j, j + 1, ps);
    AtMono(j + 1, count, ps);
    AtMono(first + j + 1, first + count, ps);
    AtAdd(first, count, ps);
    AtAdd(first, j, ps);
    AtAdd(first, j + 1, ps);
    hide At;
    var lo, hi := At(first, ps), At(first + count, ps);
    assert file[lo..hi][At(j, ps)..At(j + 1, ps)] == file[lo + At(j, ps)..lo + At(j + 1, ps)];
  }

  /** The pages of all calls, in order. */
  function Sent(calls: seq<Call>): seq<seq<Byte>>
  {
    if calls == [] then [] else Sent(calls[..|calls| - 1]) + calls[|calls| - 1].pages
  }

  /** Every call is numbered, says how many there are, names its first page and fits the budget. */
  ghost predicate WellNumbered(calls: seq<Call>, total: nat, perPart: nat, ps: nat, partBytes: int)
  {
    forall i | 0 <= i < |calls| ::
      && calls[i].part == i && calls[i].total == total && calls[i].firstPage == 1 + At(i, perPart)
      && 0 < |calls[i].pages| <= perPart && PartCost(|calls[i].pages|, ps) <= partBytes
      && forall j | 0 <= j < |calls[i].pages| :: |calls[i].pages[j]| == ps
  }

  /** What is refused before anything is sent. */
  function Refusal(file: seq<Byte>, partBytes: int): Option<Error>
  {
    if |file| < 100 then Some(TooSmall)
    else
      var ps := PageSize(file);
      if ps == 0 || |file| % ps != 0 then Some(BadPageSize)
      else if |file| / ps > 0xffff_ffff then Some(TooManyPages)
      else if PerPart(ps, partBytes) < 1 then Some(BudgetTooSmall)
      else None
  }

  /** f.ReadAt into the shared buffer. */
  method ReadAt(file: seq<Byte>, buf: array<Byte>, n: nat, offset: nat)
    requires n <= buf.Length && offset + n <= |file|
    modifies buf
    ensures buf[..n] == file[offset..offset + n]
  {
    var i := 0;
    while i < n
      invariant 0 <= i <= n && buf[..i] == file[offset..offset + i]
    {
      buf[i] := file[offset + i];
      i := i + 1;
    }
  }

  /** The sub-slices of the buffer handed to the callback. */
  method CutPages(file: seq<Byte>, ps: nat, first: nat, count: nat, run: seq<Byte>) returns (pages: seq<seq<Byte>>)
    requires At(first + count, ps) <= |file| && At(first, ps) <= At(first + count, ps) && run == file[At(first, ps)..At(first + count, ps)]
    ensures pages == PagesFrom(file, ps, first, first + count)
  {
    pages := [];
    var i := 0;
    ghost var want := PagesFrom(file, ps, first, first + count);
    hide At, Page, PagesFrom;
    while i < count
      invariant 0 <= i <= count && |pages| == i && forall j | 0 <= j < i :: pages[j] == want[j]
    {
      PageOfRun(file, ps, first, count, i);
      PagesAt(file, ps, first, first + count, i);
      pages := pages + [run[At(i, ps)..At(i + 1, ps)]];
      i := i + 1;
    }
  }

  lemma {:induction false} PagesSized(file: seq<Byte>, ps: nat, first: nat, end: nat)
    requires first <= end && At(end, ps) <= |file|
    ensures forall j | 0 <= j < end - first :: |PagesFrom(file, ps, first, end)[j]| == ps
  {
    forall j | 0 <= j < end - first ensures |PagesFrom(file, ps, first, end)[j]| == ps { PagesAt(file, ps, first, end, j); }
  }

  lemma SentStep(calls: seq<Call>, c: Call)
    ensures Sent(calls + [c]) == Sent(calls) + c.pages
  {
    assert (calls + [c])[..|calls|] == calls;
  }

  function Total(commit: nat, perPart: nat): nat
    requires perPart > 0
  {
    (commit + perPart - 1) / perPart
  }

  /** The parts before the last are full and do not yet reach the end; the last one does. */
  lemma PartsCover(commit: nat, perPart: nat, part: nat)
    requires perPart > 0
    ensures part < Total(commit, perPart) <==> At(part, perPart) < commit
  {
    var t := Total(commit, perPart);
    assert commit <= At(t, perPart) < commit + perPart;
    if part < t {
      AtMono(part, t - 1, perPart);
      AtAdd(t - 1, 1, perPart);
    } else {
      AtMono(t, part, perPart);
    }
  }

  lemma NumberedStep(calls: seq<Call>, c: Call, total: nat, perPart: nat, ps: nat, partBytes: int)
    requires WellNumbered(calls, total, perPart, ps, partBytes)
    requires c.part == |calls| && c.total == total && c.firstPage == 1 + At(|calls|, perPart)
    requires 0 < |c.pages| <= perPart && PartCost(|c.pages|, ps) <= partBytes && forall j | 0 <= j < |c.pages| :: |c.pages[j]| == ps
    ensures WellNumbered(calls + [c], total, perPart, ps, partBytes)
  {
    var all := calls + [c];
    hide PartCost, At;
    assert forall i | 0 <= i < |calls| :: all[i] == calls[i];
  }

  /** One part: read, cut and sent. */
  method SendPart(file: seq<Byte>, ps: nat, commit: nat, perPart: nat, partBytes: int, part: nat, firstPage: nat, buf: array<Byte>)
    returns (c: Call, count: nat)
    requires ps > 0 && At(commit, ps) <= |file| && perPart > 0 && perPart <= PerPart(ps, partBytes) && At(part, perPart) < commit
    requires buf.Length == At(perPart, ps) && firstPage == 1 + At(part, perPart)
    modifies buf
    ensures count == Min(perPart, commit - At(part, perPart)) && c == Call(part, Total(commit, perPart), firstPage, c.pages)
    ensures At(At(part, perPart) + count, ps) <= |file| && c.pages == PagesFrom(file, ps, At(part, perPart), At(part, perPart) + count)
    ensures (forall j | 0 <= j < |c.pages| :: |c.pages[j]| == ps) && PartCost(|c.pages|, ps) <= partBytes
  {
    var first := At(part, perPart);
    count := perPart;
    if commit - first < count { count := commit - first; }
    WithinBudget(ps, partBytes, count);
    hide At, PartCost, PerPart, PagesFrom, Total;
    AtMono(first + count, commit, ps);
    AtMono(count, perPart, ps);
    AtAdd(first, count, ps);
    ReadAt(file, buf, At(count, ps), At(first, ps));
    var pages := CutPages(file, ps, first, count, buf[..At(count, ps)]);
    PagesSized(file, ps, first, first + count);
    c := Call(part, Total(commit, perPart), firstPage, pages);
  }

  /**
   snapshotStream: the parts sent are numbered from 0, name their own first page and fit the budget,
   and a stream that is not stopped has sent every page of the file once, in order.
   */
  method Stream(file: seq<Byte>, partBytes: int, stopAt: Option<nat>) returns (r: Result, calls: seq<Call>)
    ensures var budget := if partBytes <= 0 then DEFAULT_PART_BYTES else partBytes;
            match Refusal(file, budget)
            case Some(e) => r == Err(e) && calls == []
            case None =>
              var ps := PageSize(file);
              var commit, perPart := |file| / ps, PerPart(ps, budget);
              && At(commit, ps) == |file|
              && WellNumbered(calls, Total(commit, perPart), perPart, ps, budget)
              && (r.Done? <==> stopAt.None? || stopAt.value >= Total(commit, perPart))
              && (r.Done? ==> r == Done(ps, commit) && |calls| == Total(commit, perPart)
                              && Sent(calls) == PagesFrom(file, ps, 0, commit) && Join(Sent(calls)) == file)
              && (r.Err? ==> r.error.Stopped? && |calls| == stopAt.value + 1)
  {
    var budget := if partBytes <= 0 then DEFAULT_PART_BYTES else partBytes;
    calls := [];
    if |file| < 100 { return Err(TooSmall), []; }
    var ps := PageSize(file);
    if ps == 0 || |file| % ps != 0 { return Err(BadPageSize), []; }
    if |file| / ps > 0xffff_ffff { return Err(TooManyPages), []; }
    var commit := |file| / ps;
    var perPart := PerPart(ps, budget);
    if perPart < 1 { return Err(BudgetTooSmall), []; }
    assert At(commit, ps) == |file|;
    r, calls := SendAll(file, ps, commit, perPart, budget, stopAt);
  }

  method SendAll(file: seq<Byte>, ps: nat, commit: nat, perPart: nat, budget: int, stopAt: Option<nat>)
    returns (r: Result, calls: seq<Call>)
    requires ps > 0 && At(commit, ps) == |file| && commit <= 0xffff_ffff && perPart > 0 && perPart == PerPart(ps, budget)
    ensures WellNumbered(calls, Total(commit, perPart), perPart, ps, budget)
    ensures r.Done? <==> stopAt.None? || stopAt.value >= Total(commit, perPart)
    ensures r.Done? ==> r == Done(ps, commit) && |calls| == Total(commit, perPart)
    ensures r.Done? ==> Sent(calls) == PagesFrom(file, ps, 0, commit) && Join(Sent(calls)) == file
    ensures r.Err? ==> r.error.Stopped? && |calls| == stopAt.value + 1
  {
    calls := [];
    var total := Total(commit, perPart);
    var buf := new Byte[At(perPart, ps)](i => 0);
    var firstPage, part := 1, 0;
    ghost var done := 0;
    hide WellNumbered, Sent, PagesFrom, Total, PerPart, PartCost, At;
    NoCalls(file, ps, total, perPart, budget);
    while part < total
      invariant 0 <= part <= total && |calls| == part && (stopAt.Some? ==> stopAt.value >= part)
      invariant done == Min(At(part, perPart), commit) && firstPage == Low32(1 + done)
      invariant At(done, ps) <= |file| && Sent(calls) == PagesFrom(file, ps, 0, done)
      invariant WellNumbered(calls, total, perPart, ps, budget)
    {
      PartsCover(commit, perPart, part);
      var c, count := SendPart(file, ps, commit, perPart, budget, part, firstPage, buf);
      SentStep(calls, c);
      PagesSplit(file, ps, 0, done, done + count);
      NumberedStep(calls, c, total, perPart, ps, budget);
      calls := calls + [c];
      if stopAt == Some(part) { return Err(Stopped), calls; }
      done := done + count;
      firstPage := Low32(firstPage + count);
      NextDone(part, perPart, commit, count);
      part := part + 1;
    }
    PartsCover(commit, perPart, part);
    PagesAreTheFile(file, ps, 0, commit);
    AtAdd(0, 0, ps);
    assert file[0..|file|] == file;
    return Done(ps, commit), calls;
  }

  lemma NoCalls(file: seq<Byte>, ps: nat, total: nat, perPart: nat, budget: int)
    ensures WellNumbered([], total, perPart, ps, budget) && Sent([]) == []
    ensures At(0, perPart) == 0 && At(0, ps) <= |file| && PagesFrom(file, ps, 0, 0) == []
  {
  }

  lemma NextDone(part: nat, perPart: nat, commit: nat, count: nat)
    requires At(part, perPart) < commit && count == Min(perPart, commit - At(part, perPart))
    ensures At(part, perPart) + count == Min(At(part + 1, perPart), commit)
  {
    AtAdd(part, 1, perPart);
    hide At;
  }

  function Join(pages: seq<seq<Byte>>): seq<Byte>
  {
    if pages == [] then [] else pages[0] + Join(pages[1..])
  }

  /** The pages, put together, are the file: nothing is left out. */
  lemma {:induction false} PagesAreTheFile(file: seq<Byte>, ps: nat, first: nat, end: nat)
    requires first <= end && At(end, ps) <= |file|
    ensures At(first, ps) <= At(end, ps) && Join(PagesFrom(file, ps, first, end)) == file[At(first, ps)..At(end, ps)]
    decreases end - first
  {
    AtMono(first, end, ps);
    if first < end {
      AtMono(first + 1, end, ps);
      AtMono(first, first + 1, ps);
      PagesAreTheFile(file, ps, first + 1, end);
      hide At;
      var all := PagesFrom(file, ps, first, end);
      assert all[1..] == PagesFrom(file, ps, first + 1, end);
      JoinRuns(file, At(first, ps), At(first + 1, ps), At(end, ps));
    }
  }

  lemma JoinRuns(file: seq<Byte>, a: nat, b: nat, c: nat)
    requires a <= b <= c <= |file|
    ensures file[a..b] + file[b..c] == file[a..c]
  {
  }
}
