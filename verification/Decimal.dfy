/** Decimal text as strconv writes and reads it. */
module Decimal {
  import opened Bytes

  const MAX_INT64: int := 0x7fff_ffff_ffff_ffff
  const MAX_UINT64: int := 0xffff_ffff_ffff_ffff

  predicate IsDigit(c: char) { '0' <= c <= '9' }

  predicate AllDigits(s: string) { forall c <- s :: IsDigit(c) }

  function DigitOf(c: char): (d: nat)
    requires IsDigit(c)
    ensures d < 10
  {
    c as int - '0' as int
  }

  function CharOf(d: nat): (c: char)
    requires d < 10
    ensures IsDigit(c) && DigitOf(c) == d
  {
    ('0' as int + d) as char
  }

  /** strconv.FormatUint(n, 10). */
  function Format(n: nat): (s: string)
    ensures s != [] && AllDigits(s)
  {
    if n < 10 then [CharOf(n)] else Format(n / 10) + [CharOf(n % 10)]
  }

  /** The number a digit string denotes. */
  function Value(s: string): (n: nat)
    requires AllDigits(s)
  {
    if s == [] then 0 else 10 * Value(s[..|s| - 1]) + DigitOf(s[|s| - 1])
  }

  /** canonicalUint: nonempty, all digits, no leading zero unless the text is a single digit. */
  predicate Canonical(s: string)
  {
    s != [] && !(|s| > 1 && s[0] == '0') && AllDigits(s)
  }

  lemma {:induction false} FormatLength(n: nat)
    ensures |Format(n)| == 1 <==> n < 10
    ensures n != 0 ==> Format(n)[0] != '0'
    ensures n == 0 ==> Format(n) == "0"
  {
    if n >= 10 { FormatLength(n / 10); }
  }

  lemma {:induction false} ValueOfFormat(n: nat)
    ensures Value(Format(n)) == n
  {
    if n >= 10 {
      ValueOfFormat(n / 10);
      var s := Format(n);
      assert s[..|s| - 1] == Format(n / 10);
    }
  }

  lemma FormatCanonical(n: nat)
    ensures Canonical(Format(n))
  {
    FormatLength(n);
  }

  lemma {:induction false} NonzeroLead(s: string)
    requires s != [] && AllDigits(s) && s[0] != '0'
    ensures Value(s) > 0
    decreases |s|
  {
    if |s| > 1 { NonzeroLead(s[..|s| - 1]); }
  }

  /** A canonical text is the rendering of the number it denotes, so no number has two. */
  lemma {:induction false} FormatOfValue(s: string)
    requires Canonical(s)
    ensures Format(Value(s)) == s
    decreases |s|
  {
    if |s| == 1 {
      assert Value(s[..0]) == 0;
    } else {
      var front := s[..|s| - 1];
      FormatOfValue(front);
      NonzeroLead(front);
      assert s == front + [s[|s| - 1]];
    }
  }

  /** strconv's outcomes: the number, a syntax error, or a range error (reported with the bound). */
  datatype Outcome = Ok(n: int) | Syntax | Range

  /** How many digits the text starts with. */
  function DigitRun(s: string): (k: nat)
    ensures k <= |s| && AllDigits(s[..k]) && (k < |s| ==> !IsDigit(s[k]))
    ensures AllDigits(s) <==> k == |s|
  {
    if s == [] || !IsDigit(s[0]) then 0 else 1 + DigitRun(s[1..])
  }

  /** strconv.ParseUint(s, 10, bits) with the largest value `max`: the first thing wrong decides. */
  function ParseUint(s: string, max: nat): (r: Outcome)
    ensures r.Ok? <==> s != [] && AllDigits(s) && Value(s) <= max
    ensures r.Ok? ==> r.n == Value(s)
  {
    if s == [] then Syntax
    else
      var k := DigitRun(s);
      assert k == |s| ==> s[..k] == s;
      if Value(s[..k]) > max then Range
      else if k < |s| then Syntax
      else Ok(Value(s))
  }

  /** strconv.ParseInt(s, 10, 64): an optional sign, then digits. */
  function ParseInt(s: string): (r: Outcome)
    ensures r.Ok? ==> -MAX_INT64 - 1 <= r.n <= MAX_INT64
  {
    if s == [] then Syntax
    else
      var negative := s[0] == '-';
      var digits := if negative || s[0] == '+' then s[1..] else s;
      if digits == [] || !AllDigits(digits) then Syntax
      else
        var v: int := Value(digits);
        if negative then (if v > MAX_INT64 + 1 then Range else Ok(-v))
        else if v > MAX_INT64 then Range
        else Ok(v)
  }

  lemma ParseUintOfFormat(n: nat, max: nat)
    requires n <= max
    ensures ParseUint(Format(n), max) == Ok(n)
  {
    ValueOfFormat(n);
  }

  lemma ParseIntOfFormat(n: nat)
    requires n <= MAX_INT64
    ensures ParseInt(Format(n)) == Ok(n)
  {
    ValueOfFormat(n);
    assert IsDigit(Format(n)[0]);
  }
}
