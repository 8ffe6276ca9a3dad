/**
 The text of the marker beside a sparse paged cache (internal/cellstore/pagedmarker.go).

 A crash can leave any prefix of the text being written. No such prefix reads as a clean marker.
 */
module PagedMarker {
  import opened Bytes
  import opened Decimal

  /** What readPagedMarker reports about a marker file that exists. */
  datatype Reading = Malformed | Valid(pageSize: int, commit: int, txid: nat, clean: bool)

  predicate IsSpace(c: char)
  {
    var n := c as int;
    || n == 0x20 || 0x09 <= n <= 0x0d || n == 0x85 || n == 0xa0 || n == 0x1680 || 0x2000 <= n <= 0x200a
    || n == 0x2028 || n == 0x2029 || n == 0x202f || n == 0x205f || n == 0x3000
  }

  /** strings.Fields of `s`, with `word` read so far. */
  function Scan(s: string, word: string): seq<string>
  {
    var done := if word == [] then [] else [word];
    if s == [] then done
    else if IsSpace(s[0]) then done + Scan(s[1..], [])
    else Scan(s[1..], word + [s[0]])
  }

  function Fields(s: string): seq<string> { Scan(s, []) }

  /** The third field: a number out of range reads as the largest, anything else unreadable as zero. */
  function TxidOf(s: string): nat
  {
    match ParseUint(s, MAX_UINT64)
    case Ok(n) => n
    case Range => MAX_UINT64
    case Syntax => 0
  }

  function Read(text: string): Reading
  {
    var parts := Fields(text);
    if |parts| < 2 || |parts| > 4 then Malformed
    else
      match (ParseInt(parts[0]), ParseInt(parts[1]))
      case (Ok(ps), Ok(cm)) =>
        if ps <= 0 || cm <= 0 then Malformed
        else
          var txid := if |parts| >= 3 then TxidOf(parts[2]) else 0;
          if |parts| < 4 then Valid(ps, cm, txid, false)
          else if parts[3] == "1" then Valid(ps, cm, txid, true)
          else if parts[3] == "0" then Valid(ps, cm, txid, false)
          else Malformed
      case _ => Malformed
  }

  function FormatInt(n: int): (s: string)
    ensures s != [] && forall c <- s :: IsDigit(c) || c == '-'
  {
    if n < 0 then "-" + Format(-n) else Format(n)
  }

  function Flag(clean: bool): string { if clean then "1" else "0" }

  /** What writePagedMarker writes. */
  function Render(pageSize: int, commit: int, txid: nat, clean: bool): string
  {
    FormatInt(pageSize) + " " + (FormatInt(commit) + " " + (Format(txid) + " " + Flag(clean)))
  }

  ghost predicate Word(s: string) { s != [] && forall c <- s :: !IsSpace(c) }

  lemma {:induction false} ScanWord(s: string, word: string)
    requires forall c <- s :: !IsSpace(c)
    ensures Scan(s, word) == if word + s == [] then [] else [word + s]
    decreases |s|
  {
    if s == [] {
      assert word + s == word;
    } else {
      assert s[0] in s && forall c <- s[1..] :: c in s;
      ScanWord(s[1..], word + [s[0]]);
      assert word + [s[0]] + s[1..] == word + s;
    }
  }

  lemma {:induction false} ScanSplit(a: string, b: string, word: string)
    ensures Scan(a + " " + b, word) == Scan(a, word) + Scan(b, [])
    decreases |a|
  {
    var s := a + " " + b;
    if a == [] {
      assert s[0] == ' ' && s[1..] == b;
    } else {
      assert s[0] == a[0] && s[1..] == a[1..] + " " + b;
      if IsSpace(a[0]) { ScanSplit(a[1..], b, []); } else { ScanSplit(a[1..], b, word + [a[0]]); }
    }
  }

  /** A word and a blank in front of a text add one field. */
  lemma FirstField(w: string, rest: string)
    requires Word(w)
    ensures Fields(w + " " + rest) == [w] + Fields(rest)
  {
    ScanSplit(w, rest, []);
    ScanWord(w, []);
    assert [] + w == w;
  }

  lemma NumberIsWord(n: int)
    ensures Word(FormatInt(n))
    ensures n >= 0 ==> Word(Format(n))
  {
    forall c | IsDigit(c) || c == '-' ensures !IsSpace(c) { }
  }

  lemma FieldsOfRender(ps: int, cm: int, txid: nat, clean: bool)
    ensures Fields(Render(ps, cm, txid, clean)) == [FormatInt(ps), FormatInt(cm), Format(txid), Flag(clean)]
  {
    NumberIsWord(ps);
    NumberIsWord(cm);
    NumberIsWord(txid);
    ScanWord(Flag(clean), []);
    assert [] + Flag(clean) == Flag(clean);
    FirstField(Format(txid), Flag(clean));
    FirstField(FormatInt(cm), Format(txid) + " " + Flag(clean));
    FirstField(FormatInt(ps), FormatInt(cm) + " " + (Format(txid) + " " + Flag(clean)));
  }

  /** A written marker reads back as written. */
  lemma MarkerRoundTrip(ps: int, cm: int, txid: nat, clean: bool)
    requires 0 < ps <= MAX_INT64 && 0 < cm <= MAX_INT64 && txid <= MAX_UINT64
    ensures Read(Render(ps, cm, txid, clean)) == Valid(ps, cm, txid, clean)
  {
    FieldsOfRender(ps, cm, txid, clean);
    ParseIntOfFormat(ps);
    ParseIntOfFormat(cm);
    ParseUintOfFormat(txid, MAX_UINT64);
  }

  /** How many blanks a text holds. */
  function Blanks(s: string): nat
  {
    if s == [] then 0 else (if IsSpace(s[0]) then 1 else 0) + Blanks(s[1..])
  }

  /** Each blank ends at most one field, and a text ending in a blank has no other. */
  lemma {:induction false} FieldsAtMost(s: string, word: string)
    ensures |Scan(s, word)| <= Blanks(s) + 1
    ensures s != [] && IsSpace(s[|s| - 1]) ==> |Scan(s, word)| <= Blanks(s)
    decreases |s|
  {
    if s != [] {
      var next := if IsSpace(s[0]) then [] else word + [s[0]];
      FieldsAtMost(s[1..], next);
      if |s| == 1 { assert s[1..] == []; } else { assert s[1..][|s| - 2] == s[|s| - 1]; }
    }
  }

  lemma {:induction false} BlanksConcat(a: string, b: string)
    ensures Blanks(a + b) == Blanks(a) + Blanks(b)
  {
    if a == [] {
      assert a + b == b;
    } else {
      BlanksConcat(a[1..], b);
      assert (a + b)[0] == a[0] && (a + b)[1..] == a[1..] + b;
    }
  }

  lemma {:induction false} WordHasNoBlank(w: string)
    requires forall c <- w :: !IsSpace(c)
    ensures Blanks(w) == 0
  {
    if w != [] {
      assert w[0] in w && forall c <- w[1..] :: c in w;
      WordHasNoBlank(w[1..]);
    }
  }

  lemma BlanksOfRender(ps: int, cm: int, txid: nat, clean: bool)
    ensures Blanks(Render(ps, cm, txid, clean)) == 3
  {
    var a, b, c, d := FormatInt(ps), FormatInt(cm), Format(txid), Flag(clean);
    NumberIsWord(ps);
    NumberIsWord(cm);
    NumberIsWord(txid);
    WordHasNoBlank(a);
    WordHasNoBlank(b);
    WordHasNoBlank(c);
    WordHasNoBlank(d);
    assert Blanks(" ") == 1;
    BlanksConcat(a, " ");
    BlanksConcat(a + " ", b + " " + (c + " " + d));
    BlanksConcat(b, " ");
    BlanksConcat(b + " ", c + " " + d);
    BlanksConcat(c, " ");
    BlanksConcat(c + " ", d);
  }

  /** Of all prefixes of a marker being written, only the whole clean text reads as clean. */
  lemma TornNeverClean(ps: int, cm: int, txid: nat, clean: bool, n: nat)
    requires n <= |Render(ps, cm, txid, clean)|
    ensures var r := Read(Render(ps, cm, txid, clean)[..n]);
            r.Valid? && r.clean ==> clean && n == |Render(ps, cm, txid, clean)|
  {
    var text := Render(ps, cm, txid, clean);
    FieldsOfRender(ps, cm, txid, clean);
    if n == |text| { assert text[..n] == text; } else { TornFields(ps, cm, txid, clean, n); }
    hide Render, Fields;
  }

  lemma TornFields(ps: int, cm: int, txid: nat, clean: bool, n: nat)
    requires n < |Render(ps, cm, txid, clean)|
    ensures |Fields(Render(ps, cm, txid, clean)[..n])| <= 3
  {
    BlanksOfRender(ps, cm, txid, clean);
    RenderEnds(ps, cm, txid, clean);
    hide Render;
    PrefixFields(Render(ps, cm, txid, clean), n);
  }

  lemma RenderEnds(ps: int, cm: int, txid: nat, clean: bool)
    ensures var text := Render(ps, cm, txid, clean);
            |text| > 1 && text[|text| - 2] == ' ' && text[|text| - 1] == Flag(clean)[0]
  {
  }

  /** A text whose last blank comes just before its last character loses a field with it. */
  lemma PrefixFields(text: string, n: nat)
    requires n < |text| && |text| > 1 && text[|text| - 2] == ' '
    ensures |Fields(text[..n])| <= Blanks(text)
  {
    var front := text[..|text| - 1];
    assert text == front + text[|text| - 1..];
    BlanksConcat(front, text[|text| - 1..]);
    FieldsAtMost(text[..n], []);
    if n < |front| {
      assert front == text[..n] + front[n..];
      BlanksConcat(text[..n], front[n..]);
      LastBlank(front[n..]);
    }
  }

  lemma {:induction false} LastBlank(s: string)
    requires s != [] && IsSpace(s[|s| - 1])
    ensures Blanks(s) >= 1
  {
    if |s| > 1 {
      assert s[1..][|s| - 2] == s[|s| - 1];
      LastBlank(s[1..]);
    }
  }

  lemma EmptyIsMalformed()
    ensures Read("") == Malformed
  {
  }
}
