/** Bounded reads of an object body (internal/bucket/bounds.go). */
module TailReader {
  import opened Bytes
  import Decimal

  const MAX_INT64 := Decimal.MAX_INT64
  const BUFFER := 32768
  const DEFAULT_MAX := 536_870_912
  const PROBE := 4096

  datatype Outcome = TooLarge | Failed | Ok(data: seq<Byte>)

  function Flatten(chunks: seq<seq<Byte>>): seq<Byte>
  {
    if chunks == [] then [] else Flatten(chunks[..|chunks| - 1]) + chunks[|chunks| - 1]
  }

  function MaxOf(max: int): nat { if max <= 0 then DEFAULT_MAX else max }

  /** How much of a body the limited reader lets through. */
  function LimitOf(max: nat): nat { if max < MAX_INT64 then max + 1 else max }

  function Limited(body: seq<Byte>, max: nat): seq<Byte> { if |body| <= LimitOf(max) then body else body[..LimitOf(max)] }

  /** The last n bytes. */
  function Last(s: seq<Byte>, n: nat): seq<Byte> { if |s| <= n then s else s[|s| - n..] }

  /** How many tail bytes are kept. */
  function Kept(n: int, max: nat): nat
  {
    var n1 := if n <= 0 then PROBE else n;
    if n1 > max then max else n1
  }

  /** A body read in some chunks: each fits the buffer, and together they are the limited body if it ends. */
  predicate Reads(chunks: seq<seq<Byte>>, eof: bool, body: seq<Byte>, max: nat)
  {
    && (forall i | 0 <= i < |chunks| :: |chunks[i]| <= BUFFER)
    && Flatten(chunks) <= Limited(body, max)
    && (eof ==> Flatten(chunks) == Limited(body, max))
  }

  lemma FlattenStep(chunks: seq<seq<Byte>>, i: nat)
    requires i < |chunks|
    ensures Flatten(chunks[..i + 1]) == Flatten(chunks[..i]) + chunks[i]
  {
    assert chunks[..i + 1][..i] == chunks[..i];
  }

  lemma {:induction false} FlattenLonger(chunks: seq<seq<Byte>>, i: nat)
    requires i <= |chunks|
    ensures |Flatten(chunks[..i])| <= |Flatten(chunks)|
    decreases |chunks| - i
  {
    if i < |chunks| {
      FlattenStep(chunks, i);
      FlattenLonger(chunks, i + 1);
    } else {
      assert chunks[..i] == chunks;
    }
  }

  lemma LastOfAppend(s: seq<Byte>, tail: seq<Byte>, c: seq<Byte>, n: nat)
    requires Last(s, n) == Last(tail, n) && |tail| <= |s| && (|tail| < |s| ==> |tail| >= n)
    ensures Last(s + c, n) == Last(tail + c, n)
  {
    if |tail| < |s| {
      assert Last(s, n) == s[|s| - n..] && Last(tail, n) == tail[|tail| - n..];
      var m := |c|;
      if n <= m {
        assert (s + c)[|s| + m - n..] == c[m - n..] == (tail + c)[|tail| + m - n..];
      } else {
        assert (s + c)[|s| + m - n..] == s[|s| - (n - m)..] + c;
        assert (tail + c)[|tail| + m - n..] == tail[|tail| - (n - m)..] + c;
        assert s[|s| - (n - m)..] == s[|s| - n..][m..] && tail[|tail| - (n - m)..] == tail[|tail| - n..][m..];
      }
    } else {
      assert |s| == |tail|;
    }
  }

  lemma FullEnough(chunks: seq<seq<Byte>>, eof: bool, body: seq<Byte>, max: nat)
    requires Reads(chunks, eof, body, max) && eof
    ensures |Flatten(chunks)| > max <==> |body| > max && max < MAX_INT64
    ensures |Flatten(chunks)| <= max ==> Flatten(chunks) == if |body| <= max then body else body[..max]
  {
  }

  /**
   readTailBounded: whatever the chunks, it keeps the last n bytes of a body within the limit and
   refuses a longer one, and its buffer never holds more than two tails and one chunk.
   */
  method ReadTail(chunks: seq<seq<Byte>>, eof: bool, ghost body: seq<Byte>, n: int, declared: int, max: int)
    returns (r: Outcome, ghost most: nat)
    requires Reads(chunks, eof, body, MaxOf(max))
    ensures var m, s := MaxOf(max), Flatten(chunks);
            r == if declared > m || |s| > m then TooLarge else if !eof then Failed else Ok(Last(s, Kept(n, m)))
    ensures most <= 2 * Kept(n, MaxOf(max)) + BUFFER
  {
    var m := MaxOf(max);
    most := 0;
    if declared > m { return TooLarge, 0; }
    var k := Kept(n, m);
    var tail, read, i := [], 0, 0;
    ghost var s: seq<Byte> := [];
    assert chunks[..0] == [];
    while i < |chunks|
      invariant 0 <= i <= |chunks| && s == Flatten(chunks[..i]) && read == |s| <= m
      invariant |tail| <= |s| && (|tail| < |s| ==> |tail| >= k) && Last(s, k) == Last(tail, k)
      invariant |tail| <= 2 * k && most <= 2 * k + BUFFER
    {
      var c := chunks[i];
      FlattenStep(chunks, i);
      if |c| > 0 {
        read := read + |c|;
        if read > m {
          FlattenLonger(chunks, i + 1);
          return TooLarge, most;
        }
        LastOfAppend(s, tail, c, k);
        s, tail := s + c, tail + c;
        most := if |tail| > most then |tail| else most;
        if |tail| > 2 * k { tail := tail[|tail| - k..]; }
      }
      i := i + 1;
    }
    assert chunks[..i] == chunks;
    if !eof { return Failed, most; }
    if |tail| > k { tail := tail[|tail| - k..]; }
    return Ok(tail), most;
  }

  /** With the stream read to its end: success exactly within the limit, and then the body's own tail. */
  lemma TailOfBody(chunks: seq<seq<Byte>>, body: seq<Byte>, n: int, declared: int, max: int)
    requires Reads(chunks, true, body, MaxOf(max)) && |body| <= MAX_INT64
    ensures var m, s := MaxOf(max), Flatten(chunks);
            && (declared <= m && |s| <= m <==> declared <= m && |body| <= m)
            && (|s| <= m ==> Last(s, Kept(n, m)) == Last(body, Kept(n, m)))
            && |Last(body, Kept(n, m))| == Min(|body|, Kept(n, m))
  {
    FullEnough(chunks, true, body, MaxOf(max));
  }

  /** readAllBounded: the whole body within the limit, or a refusal. */
  method ReadAll(chunks: seq<seq<Byte>>, eof: bool, ghost body: seq<Byte>, declared: int, max: int) returns (r: Outcome)
    requires Reads(chunks, eof, body, MaxOf(max))
    ensures var m, s := MaxOf(max), Flatten(chunks);
            r == if declared > m then TooLarge else if !eof then Failed else if |s| > m then TooLarge else Ok(s)
    ensures r.Ok? && |body| <= MAX_INT64 ==> r.data == body
  {
    var m := MaxOf(max);
    if declared > m { return TooLarge; }
    var data, i := [], 0;
    assert chunks[..0] == [];
    while i < |chunks|
      invariant 0 <= i <= |chunks| && data == Flatten(chunks[..i])
    {
      FlattenStep(chunks, i);
      data := data + chunks[i];
      i := i + 1;
    }
    assert chunks[..i] == chunks;
    if !eof { return Failed; }
    if |data| > m { return TooLarge; }
    FullEnough(chunks, eof, body, m);
    return Ok(data);
  }
}
