/**
 The object names of a level-0 chain (internal/ltx/ltx.go) and the strict recognizer compaction uses
 on them (internal/compaction/compaction.go).
 */
module SegmentNames {
  import opened Bytes
  import opened Decimal

  const MAX_SNAPSHOT_PARTS: nat := 0x8000

  /** The objects whose name alone tells where they end. */
  datatype Name =
    | Single(start: nat, end: nat)     // one delta segment
    | Deltas(start: nat, end: nat)     // a batch of delta segments
    | Whole(end: nat)                  // a snapshot in one part
    | Paged(end: nat, part: nat)       // one part of a snapshot

  predicate Proper(n: Name)
  {
    && n.end <= MAX_UINT64
    && (n.Single? || n.Deltas? ==> n.start <= n.end)
    && (n.Paged? ==> n.part < MAX_SNAPSHOT_PARTS)
  }

  /** ltx.SegmentName and ltx.BatchName. */
  function Render(n: Name): string
  {
    match n
    case Single(s, e) => Format(s) + "-" + Format(e) + ".ltx"
    case Deltas(s, e) => Format(s) + "-" + Format(e) + ".d.batch"
    case Whole(e) => Format(e) + ".snapshot"
    case Paged(e, p) => Format(e) + "." + ("p" + Format(p)) + ".snapshot"
  }

  /** What the recognizer reports: the end txid, and whether the object holds exactly one segment. */
  datatype Covered = Covered(end: nat, countable: bool)

  /** strings.IndexByte. */
  function IndexOf(s: string, c: char): (i: Option<nat>)
    ensures i.Some? ==> i.value < |s| && s[i.value] == c && c !in s[..i.value]
    ensures i.None? ==> c !in s
  {
    if s == [] then None
    else if s[0] == c then Some(0)
    else
      var rest := IndexOf(s[1..], c);
      assert rest.Some? ==> s[..rest.value + 1] == [s[0]] + s[1..][..rest.value];
      if rest.Some? then Some(rest.value + 1) else None
  }

  /** strings.CutSuffix. */
  function CutSuffix(s: string, suffix: string): (base: Option<string>)
    ensures base.Some? ==> s == base.value + suffix
  {
    if |s| >= |suffix| && s[|s| - |suffix|..] == suffix then Some(s[..|s| - |suffix|]) else None
  }

  /** canonicalUint followed by strconv.ParseUint. */
  function CanonicalNumber(s: string, max: nat): (n: Option<nat>)
  {
    if !Canonical(s) then None
    else
      match ParseUint(s, max)
      case Ok(v) => Some(v)
      case _ => None
  }

  function PartEnd(txid: string, part: string): Option<nat>
  {
    if part == "" || part[0] != 'p' then None
    else
      match (CanonicalNumber(txid, MAX_UINT64), CanonicalNumber(part[1..], 0xffff_ffff))
      case (Some(n), Some(p)) => if p >= MAX_SNAPSHOT_PARTS then None else Some(n)
      case _ => None
  }

  function SnapshotEnd(base: string): Option<nat>
  {
    if base == "" then None
    else
      match IndexOf(base, '.')
      case Some(dot) => PartEnd(base[..dot], base[dot + 1..])
      case None => CanonicalNumber(base, MAX_UINT64)
  }

  function RangeEnd(base: string): Option<nat>
  {
    match IndexOf(base, '-')
    case None => None
    case Some(i) =>
      if i == 0 || i == |base| - 1 then None
      else
        match (CanonicalNumber(base[..i], MAX_UINT64), CanonicalNumber(base[i + 1..], MAX_UINT64))
        case (Some(start), Some(end)) => if end < start then None else Some(end)
        case _ => None
  }

  /** strictCoveredNameEnd. */
  function Recognize(name: string): Option<Covered>
  {
    match CutSuffix(name, ".snapshot")
    case Some(base) => (match SnapshotEnd(base) case Some(e) => Some(Covered(e, true)) case None => None)
    case None =>
      match CutSuffix(name, ".ltx")
      case Some(base) => (match RangeEnd(base) case Some(e) => Some(Covered(e, true)) case None => None)
      case None =>
        match CutSuffix(name, ".d.batch")
        case Some(base) => (match RangeEnd(base) case Some(e) => Some(Covered(e, false)) case None => None)
        case None => None
  }

  // ------------------------------------------------------------------ numbers and separators

  lemma NumberReadsBack(n: nat, max: nat)
    requires n <= max
    ensures CanonicalNumber(Format(n), max) == Some(n)
  {
    FormatCanonical(n);
    ParseUintOfFormat(n, max);
  }

  lemma NumberIsRendered(s: string, max: nat)
    requires CanonicalNumber(s, max).Some?
    ensures s == Format(CanonicalNumber(s, max).value) && CanonicalNumber(s, max).value <= max
  {
    FormatOfValue(s);
  }

  lemma {:induction false} FirstIndex(a: string, c: char, b: string)
    requires c !in a
    ensures IndexOf(a + [c] + b, c) == Some(|a|)
  {
    var s := a + [c] + b;
    if a != [] {
      assert s[0] == a[0] && a[0] in a && s[1..] == a[1..] + [c] + b;
      FirstIndex(a[1..], c, b);
    }
  }

  lemma DigitsOnly(n: nat)
    ensures '-' !in Format(n) && '.' !in Format(n)
  {
  }

  // ------------------------------------------------------------------ the two halves of a name

  lemma RangeReadsBack(s: nat, e: nat)
    requires s <= e <= MAX_UINT64
    ensures RangeEnd(Format(s) + "-" + Format(e)) == Some(e)
  {
    var base := Format(s) + "-" + Format(e);
    DigitsOnly(s);
    SplitAt(Format(s), '-', Format(e));
    NumberReadsBack(s, MAX_UINT64);
    NumberReadsBack(e, MAX_UINT64);
  }

  lemma RangeIsRendered(base: string) returns (s: nat)
    requires RangeEnd(base).Some?
    ensures s <= RangeEnd(base).value <= MAX_UINT64 && base == Format(s) + "-" + Format(RangeEnd(base).value)
  {
    var i := IndexOf(base, '-').value;
    NumberIsRendered(base[..i], MAX_UINT64);
    NumberIsRendered(base[i + 1..], MAX_UINT64);
    s := CanonicalNumber(base[..i], MAX_UINT64).value;
    assert base == base[..i] + "-" + base[i + 1..];
  }

  lemma WholeReadsBack(e: nat)
    requires e <= MAX_UINT64
    ensures SnapshotEnd(Format(e)) == Some(e)
  {
    DigitsOnly(e);
    NumberReadsBack(e, MAX_UINT64);
    hide Format, CanonicalNumber;
    assert IndexOf(Format(e), '.').None?;
  }

  lemma PartReadsBack(e: nat, p: nat)
    requires e <= MAX_UINT64 && p < MAX_SNAPSHOT_PARTS
    ensures PartEnd(Format(e), "p" + Format(p)) == Some(e)
  {
    assert ("p" + Format(p))[1..] == Format(p);
    NumberReadsBack(e, MAX_UINT64);
    NumberReadsBack(p, 0xffff_ffff);
    hide Format, CanonicalNumber;
  }

  lemma PagedReadsBack(e: nat, p: nat)
    requires e <= MAX_UINT64 && p < MAX_SNAPSHOT_PARTS
    ensures SnapshotEnd(Format(e) + "." + ("p" + Format(p))) == Some(e)
  {
    DigitsOnly(e);
    PartReadsBack(e, p);
    hide Format, PartEnd, CanonicalNumber;
    SplitAt(Format(e), '.', "p" + Format(p));
  }

  /** Where the first separator falls, and what it separates. */
  lemma SplitAt(a: string, c: char, b: string)
    requires c !in a
    ensures var s := a + [c] + b; IndexOf(s, c) == Some(|a|) && s[..|a|] == a && s[|a| + 1..] == b && s != []
  {
    FirstIndex(a, c, b);
  }

  lemma JoinAt(s: string, i: nat)
    requires i < |s|
    ensures s == s[..i] + [s[i]] + s[i + 1..]
  {
  }

  lemma PartIsRendered(txid: string, part: string) returns (p: nat)
    requires PartEnd(txid, part).Some?
    ensures var e := PartEnd(txid, part).value;
            e <= MAX_UINT64 && p < MAX_SNAPSHOT_PARTS && txid == Format(e) && part == "p" + Format(p)
  {
    NumberIsRendered(txid, MAX_UINT64);
    NumberIsRendered(part[1..], 0xffff_ffff);
    p := CanonicalNumber(part[1..], 0xffff_ffff).value;
    hide Format, CanonicalNumber;
    assert part == [part[0]] + part[1..];
  }

  lemma SnapshotIsRendered(base: string) returns (n: Name)
    requires SnapshotEnd(base).Some?
    ensures Proper(n) && n.end == SnapshotEnd(base).value
    ensures n.Whole? || n.Paged?
    ensures Render(n) == base + ".snapshot"
  {
    var dot := IndexOf(base, '.');
    if dot.None? {
      NumberIsRendered(base, MAX_UINT64);
      n := Whole(SnapshotEnd(base).value);
    } else {
      var i := dot.value;
      var p := PartIsRendered(base[..i], base[i + 1..]);
      n := Paged(SnapshotEnd(base).value, p);
      JoinAt(base, i);
      hide Format, PartEnd, SnapshotEnd, IndexOf;
    }
  }

  // ------------------------------------------------------------------ exactness

  predicate Countable(n: Name) { !n.Deltas? }

  /** The last letters of the three suffixes tell them apart. */
  lemma SuffixesDiffer(base: string)
    ensures CutSuffix(base + ".ltx", ".snapshot").None?
    ensures CutSuffix(base + ".d.batch", ".snapshot").None?
    ensures CutSuffix(base + ".d.batch", ".ltx").None?
  {
    LastLetter(base, ".ltx", ".snapshot");
    LastLetter(base, ".d.batch", ".snapshot");
    LastLetter(base, ".d.batch", ".ltx");
  }

  lemma LastLetter(base: string, a: string, b: string)
    requires a != [] && b != [] && a[|a| - 1] != b[|b| - 1]
    ensures CutSuffix(base + a, b).None?
  {
    var s := base + a;
    if |s| >= |b| { assert s[|s| - |b|..][|b| - 1] == s[|s| - 1] == a[|a| - 1]; }
  }

  lemma CutsBack(base: string, suffix: string)
    ensures CutSuffix(base + suffix, suffix) == Some(base)
  {
    var s := base + suffix;
    assert s[|s| - |suffix|..] == suffix && s[..|s| - |suffix|] == base;
  }

  /** Every name the writer renders is recognized, with its end and its count. */
  lemma RecognizesRendered(n: Name)
    requires Proper(n)
    ensures Recognize(Render(n)) == Some(Covered(n.end, Countable(n)))
  {
    match n
    case Single(s, e) =>
      RangeReadsBack(s, e);
      var base := Format(s) + "-" + Format(e);
      SuffixesDiffer(base);
      CutsBack(base, ".ltx");
    case Deltas(s, e) =>
      RangeReadsBack(s, e);
      var base := Format(s) + "-" + Format(e);
      SuffixesDiffer(base);
      CutsBack(base, ".d.batch");
    case Whole(e) =>
      WholeReadsBack(e);
      CutsBack(Format(e), ".snapshot");
    case Paged(e, p) =>
      PagedReadsBack(e, p);
      CutsBack(Format(e) + "." + ("p" + Format(p)), ".snapshot");
  }

  /** Every recognized name is one the writer renders. */
  lemma RecognizedIsRendered(name: string) returns (n: Name)
    requires Recognize(name).Some?
    ensures Proper(n) && Render(n) == name && Recognize(name).value == Covered(n.end, Countable(n))
  {
    var a := CutSuffix(name, ".snapshot");
    if a.Some? {
      n := SnapshotIsRendered(a.value);
    } else {
      var b := CutSuffix(name, ".ltx");
      if b.Some? {
        var s := RangeIsRendered(b.value);
        n := Single(s, RangeEnd(b.value).value);
      } else {
        var c := CutSuffix(name, ".d.batch");
        var s := RangeIsRendered(c.value);
        n := Deltas(s, RangeEnd(c.value).value);
      }
    }
  }

  lemma FormatInjective(a: nat, b: nat)
    requires Format(a) == Format(b)
    ensures a == b
  {
    ValueOfFormat(a);
    ValueOfFormat(b);
  }

  lemma SplitsAlike(a: nat, b: string, a': nat, b': string, c: char)
    requires (c == '-' || c == '.') && Format(a) + [c] + b == Format(a') + [c] + b'
    ensures a == a' && b == b'
  {
    DigitsOnly(a);
    DigitsOnly(a');
    SplitAt(Format(a), c, b);
    SplitAt(Format(a'), c, b');
    assert Format(a) == Format(a') by { hide Format; }
    FormatInjective(a, a');
  }

  /** The name without its suffix. */
  function Stem(n: Name): string
  {
    match n
    case Single(s, e) => Format(s) + "-" + Format(e)
    case Deltas(s, e) => Format(s) + "-" + Format(e)
    case Whole(e) => Format(e)
    case Paged(e, p) => Format(e) + "." + ("p" + Format(p))
  }

  function Suffix(n: Name): string { if n.Single? then ".ltx" else if n.Deltas? then ".d.batch" else ".snapshot" }

  lemma StemAndSuffix(n: Name, m: Name)
    requires Render(n) == Render(m)
    ensures Suffix(n) == Suffix(m) && Stem(n) == Stem(m)
  {
    assert Render(n) == Stem(n) + Suffix(n) && Render(m) == Stem(m) + Suffix(m);
    hide Render, Stem;
    SuffixesDiffer(Stem(n));
    SuffixesDiffer(Stem(m));
    CutsBack(Stem(n), Suffix(n));
    CutsBack(Stem(m), Suffix(m));
  }

  /** No two objects share a name. */
  lemma RenderedOnce(n: Name, m: Name)
    requires Render(n) == Render(m)
    ensures n == m
  {
    StemAndSuffix(n, m);
    DotTells(n);
    DotTells(m);
    hide Render;
    if n.Single? || n.Deltas? {
      SplitsAlike(n.start, Format(n.end), m.start, Format(m.end), '-');
      FormatInjective(n.end, m.end);
    } else if n.Whole? && m.Whole? {
      FormatInjective(n.end, m.end);
    } else if n.Paged? && m.Paged? {
      SplitsAlike(n.end, "p" + Format(n.part), m.end, "p" + Format(m.part), '.');
      SameTail(Format(n.part), Format(m.part));
      FormatInjective(n.part, m.part);
    }
  }

  lemma DotTells(n: Name)
    ensures n.Whole? ==> '.' !in Stem(n)
    ensures n.Paged? ==> '.' in Stem(n)
  {
    DigitsOnly(n.end);
    if n.Paged? { assert Stem(n)[|Format(n.end)|] == '.'; }
  }

  lemma SameTail(a: string, b: string)
    requires "p" + a == "p" + b
    ensures a == b
  {
    assert ("p" + a)[1..] == a && ("p" + b)[1..] == b;
  }
}
