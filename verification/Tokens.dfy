/** The fencing tokens of the segmented authority (internal/bucket/segmented.go). */
module Tokens {
  import opened Bytes
  import opened Decimal
  import opened Frames

  /** What a token identifies: a byte position in one incarnation of one window's segment. */
  datatype Token =
    | SegmentToken(window: nat, instance: Instance, length: nat)
    | LegacyToken(length: nat)

  predicate Representable(t: Token)
  {
    0 < t.length <= MAX_INT64 && (t.SegmentToken? ==> t.window <= MAX_INT64)
  }

  function HexDigit(d: nat): (c: char)
    requires d < 16
    ensures c != ':' && HexValue(c) == Some(d)
  {
    if d < 10 then ('0' as int + d) as char else ('a' as int + d - 10) as char
  }

  function HexValue(c: char): (d: Option<nat>)
    ensures d.Some? ==> d.value < 16
  {
    if '0' <= c <= '9' then Some(c as int - '0' as int)
    else if 'a' <= c <= 'f' then Some(c as int - 'a' as int + 10)
    else if 'A' <= c <= 'F' then Some(c as int - 'A' as int + 10)
    else None
  }

  /** hex.EncodeToString. */
  function Hex(b: seq<Byte>): (s: string)
    ensures |s| == 2 * |b| && ':' !in s
  {
    if b == [] then []
    else
      var hi: int := b[0] / 16;
      [HexDigit(hi), HexDigit(b[0] % 16)] + Hex(b[1..])
  }

  /** hex.DecodeString. */
  function Unhex(s: string): (b: Option<seq<Byte>>)
  {
    if s == [] then Some([])
    else if |s| == 1 then None
    else
      match (HexValue(s[0]), HexValue(s[1]), Unhex(s[2..]))
      case (Some(hi), Some(lo), Some(rest)) => Some([16 * hi + lo] + rest)
      case _ => None
  }

  lemma {:induction false} UnhexOfHex(b: seq<Byte>)
    ensures Unhex(Hex(b)) == Some(b)
  {
    if b != [] {
      UnhexOfHex(b[1..]);
      var s := Hex(b);
      assert s[2..] == Hex(b[1..]);
      var hi: int, lo: int := b[0] / 16, b[0] % 16;
      assert HexValue(s[0]) == Some(hi) && HexValue(s[1]) == Some(lo);
      assert b == [b[0]] + b[1..];
    }
  }

  /** strings.Split(s, ":"). */
  function SplitColon(s: string): (parts: seq<string>)
    ensures |parts| >= 1
  {
    if s == [] then [[]]
    else
      var rest := SplitColon(s[1..]);
      if s[0] == ':' then [[]] + rest else [[s[0]] + rest[0]] + rest[1..]
  }

  lemma {:induction false} SplitAtColon(a: string, s: string)
    requires ':' !in a
    ensures SplitColon(a + ":" + s) == [a] + SplitColon(s)
  {
    var all := a + ":" + s;
    if a == [] {
      assert all[1..] == s;
    } else {
      assert all[1..] == a[1..] + ":" + s;
      SplitAtColon(a[1..], s);
      assert a == [a[0]] + a[1..];
    }
  }

  lemma {:induction false} SplitNoColon(a: string)
    requires ':' !in a
    ensures SplitColon(a) == [a]
  {
    if a != [] {
      SplitNoColon(a[1..]);
      assert a == [a[0]] + a[1..];
    }
  }

  /** authoritySegment.token. */
  function Render(t: Token): (s: string)
  {
    match t
    case LegacyToken(length) => "l:" + Format(length)
    case SegmentToken(window, instance, length) =>
      "s" + Format(window) + ":" + Hex(instance) + ":" + Format(length)
  }

  /** parseSegmentToken. */
  function Parse(s: string): (t: Option<Token>)
    ensures t.Some? ==> Representable(t.value)
  {
    if s != [] && s[0] == 's' then
      var parts := SplitColon(s);
      if |parts| != 3 then None
      else
        match (ParseInt(parts[0][1..]), Unhex(parts[1]), ParseInt(parts[2]))
        case (Ok(window), Some(raw), Ok(length)) =>
          if window < 0 || |raw| != 8 || length <= 0 then None
          else Some(SegmentToken(window, raw, length))
        case _ => None
    else if |s| >= 2 && s[..2] == "l:" then
      match ParseInt(s[2..])
      case Ok(length) => if length <= 0 then None else Some(LegacyToken(length))
      case _ => None
    else
      match ParseInt(s)
      case Ok(length) => if length > 0 then Some(LegacyToken(length)) else None
      case _ => None
  }

  lemma FormatHasNoColon(n: nat)
    ensures ':' !in Format(n)
  {
    assert forall c <- Format(n) :: IsDigit(c);
  }

  lemma SplitRendered(window: nat, instance: Instance, length: nat)
    ensures SplitColon(Render(SegmentToken(window, instance, length)))
            == ["s" + Format(window), Hex(instance), Format(length)]
  {
    hide Format, Hex;
    FormatHasNoColon(window);
    FormatHasNoColon(length);
    var head, tail := "s" + Format(window), Hex(instance) + ":" + Format(length);
    assert Render(SegmentToken(window, instance, length)) == head + ":" + tail;
    SplitAtColon(head, tail);
    SplitAtColon(Hex(instance), Format(length));
    SplitNoColon(Format(length));
  }

  /** A token handed out by a read comes back as what it identified: callers may store it as text. */
  lemma TokenRoundTrip(t: Token)
    requires Representable(t)
    ensures Parse(Render(t)) == Some(t)
  {
    hide Format, Hex, ParseInt, Unhex, SplitColon;
    ParseIntOfFormat(t.length);
    var s := Render(t);
    match t
    case LegacyToken(length) =>
      assert s[2..] == Format(length) && s[..2] == "l:";
    case SegmentToken(window, instance, length) =>
      SplitRendered(window, instance, length);
      ParseIntOfFormat(window);
      UnhexOfHex(instance);
      assert ("s" + Format(window))[1..] == Format(window);
  }

  /** Distinct record positions never share a token. */
  lemma TokensAreDistinct(t: Token, u: Token)
    requires Representable(t) && Representable(u) && Render(t) == Render(u)
    ensures t == u
  {
    TokenRoundTrip(t);
    TokenRoundTrip(u);
  }

  /** A decimal token issued before segmentation still names the same legacy position. */
  lemma DecimalTokenIsLegacy(length: nat)
    requires 0 < length <= MAX_INT64
    ensures Parse(Format(length)) == Some(LegacyToken(length))
  {
    ParseIntOfFormat(length);
    assert IsDigit(Format(length)[0]);
  }
}
