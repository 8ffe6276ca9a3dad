/**
 The two record framings of the authority logs (internal/bucket/appendbucket.go and
 internal/bucket/segmented.go) and the tail-probe reader of a segment.

 CHL1:  magic(4) op(1) length(4) crc(4) payload
 CHL2:  magic(4) op(1) instance(8) length(4) payload frame-length(4) crc(4)

 The checksum is a parameter: nothing here depends on which function it is.
 */
module Frames {
  import opened Bytes

  type Crc = seq<Byte> -> U32
  type Instance = i: seq<Byte> | |i| == 8 witness [0, 0, 0, 0, 0, 0, 0, 0]

  const V1_HEADER := 13
  const SEG_HEADER := 17
  const SEG_OVERHEAD := 25
  const SEG_FOOTER := 8
  const SEG_PROBE_BYTES := 4096

  const CHL1: seq<Byte> := [67, 72, 76, 49]
  const CHL2: seq<Byte> := [67, 72, 76, 50]
  const NO_INSTANCE: Instance := [0, 0, 0, 0, 0, 0, 0, 0]

  /** One decoded frame; `legacy` marks CHL1, which carries no instance. */
  datatype Frame = Frame(value: seq<Byte>, deleted: bool, instance: Instance, legacy: bool)

  datatype Parsed = Parsed(frame: Frame, size: nat)

  /** Which framings a reader accepts: AppendAuthority reads CHL1 only. */
  datatype Dialect = LegacyOnly | Mixed

  function Op(deleted: bool): Byte { if deleted then 1 else 0 }

  // ------------------------------------------------------------------ encoding

  function V1Head(n: nat, deleted: bool): (head: seq<Byte>)
    ensures |head| == 9
  {
    CHL1 + [Op(deleted)] + PutU32(n)
  }

  function V1Frame(crc: Crc, data: seq<Byte>, deleted: bool): (out: seq<Byte>)
    ensures |out| == V1_HEADER + |data|
  {
    var head := V1Head(|data|, deleted);
    head + PutU32(crc(head + data)) + data
  }

  function SegHead(n: nat, deleted: bool, instance: Instance): (head: seq<Byte>)
    ensures |head| == SEG_HEADER
  {
    CHL2 + [Op(deleted)] + instance + PutU32(n)
  }

  function SegFrame(crc: Crc, data: seq<Byte>, deleted: bool, instance: Instance): (out: seq<Byte>)
    ensures |out| == SEG_OVERHEAD + |data|
  {
    var body := SegHead(|data|, deleted, instance) + data;
    body + PutU32(SEG_OVERHEAD + |data|) + PutU32(crc(body))
  }

  // ------------------------------------------------------------------ decoding

  /** decodeSegmentFrame: the argument must be exactly one CHL2 frame. */
  function DecodeSegFrame(crc: Crc, frame: seq<Byte>): (r: Option<Frame>)
  {
    if |frame| < SEG_OVERHEAD || frame[..4] != CHL2 || frame[4] > 1 then None
    else
      var n := WordAt(frame, 13);
      if SEG_OVERHEAD + n != |frame| then None
      else if WordAt(frame, SEG_HEADER + n) != Low32(|frame|) then None
      else if WordAt(frame, SEG_HEADER + n + 4) != crc(frame[..SEG_HEADER + n]) then None
      else Some(Frame(frame[SEG_HEADER..SEG_HEADER + n], frame[4] == 1, frame[5..13], false))
  }

  /** The frame a scan consumes at the front of `raw`. */
  function ParseOne(crc: Crc, d: Dialect, raw: seq<Byte>): (r: Option<Parsed>)
    ensures r.Some? ==> 0 < r.value.size <= |raw|
  {
    if |raw| >= 4 && raw[..4] == CHL1 then
      if |raw| < V1_HEADER || raw[4] > 1 then None
      else
        var n := WordAt(raw, 5);
        if n > |raw| - V1_HEADER then None
        else if crc(raw[..9] + raw[V1_HEADER..V1_HEADER + n]) != WordAt(raw, 9) then None
        else Some(Parsed(Frame(raw[V1_HEADER..V1_HEADER + n], raw[4] == 1, NO_INSTANCE, true), V1_HEADER + n))
    else if d == Mixed && |raw| >= 4 && raw[..4] == CHL2 then
      if |raw| < SEG_OVERHEAD then None
      else
        var size := SEG_OVERHEAD + WordAt(raw, 13);
        if size > |raw| then None
        else match DecodeSegFrame(crc, raw[..size])
          case None => None
          case Some(f) => Some(Parsed(f, size))
    else None
  }

  /** The last frame of an object made of whole frames; None for the empty or a corrupt object. */
  function DecodeAll(crc: Crc, d: Dialect, raw: seq<Byte>): (r: Option<Frame>)
    decreases |raw|
  {
    match ParseOne(crc, d, raw)
    case None => None
    case Some(p) => if p.size == |raw| then Some(p.frame) else DecodeAll(crc, d, raw[p.size..])
  }

  // ------------------------------------------------------------------ one frame, round trip

  /** A word written at an offset is read back there. */
  lemma WordSlice(s: seq<Byte>, i: nat, n: nat)
    requires i + 4 <= |s| && s[i..i + 4] == PutU32(n)
    ensures WordAt(s, i) == Low32(n)
  {
    hide PutU32, Low32;
    var w := s[i..i + 4];
    assert w[0] == s[i] && w[1] == s[i + 1] && w[2] == s[i + 2] && w[3] == s[i + 3];
  }

  lemma PrefixWord(s: seq<Byte>, head: seq<Byte>, i: nat)
    requires |head| <= |s| && i + 4 <= |head| && s[..|head|] == head
    ensures WordAt(s, i) == WordAt(head, i)
  {
    assert head[i] == s[i] && head[i + 1] == s[i + 1] && head[i + 2] == s[i + 2] && head[i + 3] == s[i + 3];
  }

  lemma SegHeadLayout(n: nat, deleted: bool, instance: Instance)
    ensures var head := SegHead(n, deleted, instance);
            head[..4] == CHL2 && head[4] == Op(deleted) && head[5..13] == instance && WordAt(head, 13) == Low32(n)
  {
    hide PutU32, Low32;
    var head := SegHead(n, deleted, instance);
    assert head[13..17] == PutU32(n);
    WordSlice(head, 13, n);
  }

  lemma V1HeadLayout(n: nat, deleted: bool)
    ensures var head := V1Head(n, deleted);
            head[..4] == CHL1 && head[4] == Op(deleted) && WordAt(head, 5) == Low32(n)
  {
    hide PutU32, Low32;
    var head := V1Head(n, deleted);
    assert head[5..9] == PutU32(n);
    WordSlice(head, 5, n);
  }

  lemma SegParts(crc: Crc, data: seq<Byte>, deleted: bool, instance: Instance)
    ensures var out, n := SegFrame(crc, data, deleted, instance), |data|;
            && out[..SEG_HEADER] == SegHead(n, deleted, instance)
            && out[SEG_HEADER..SEG_HEADER + n] == data
            && out[SEG_HEADER + n..SEG_HEADER + n + 4] == PutU32(SEG_OVERHEAD + n)
            && out[SEG_HEADER + n + 4..SEG_HEADER + n + 8] == PutU32(crc(out[..SEG_HEADER + n]))
  {
    hide SegHead, PutU32;
    var out, body := SegFrame(crc, data, deleted, instance), SegHead(|data|, deleted, instance) + data;
    assert out[..SEG_HEADER + |data|] == body;
  }

  /** Where each field of a CHL2 frame lies. */
  lemma SegFrameLayout(crc: Crc, data: seq<Byte>, deleted: bool, instance: Instance)
    ensures var out := SegFrame(crc, data, deleted, instance); var n := |data|;
            && out[..4] == CHL2 && out[4] == Op(deleted) && out[5..13] == instance
            && WordAt(out, 13) == Low32(n)
            && out[SEG_HEADER..SEG_HEADER + n] == data
            && WordAt(out, SEG_HEADER + n) == Low32(SEG_OVERHEAD + n)
            && WordAt(out, SEG_HEADER + n + 4) == crc(out[..SEG_HEADER + n])
  {
    hide SegHead, PutU32, WordAt, SegFrame;
    var out, n := SegFrame(crc, data, deleted, instance), |data|;
    var head := SegHead(n, deleted, instance);
    SegParts(crc, data, deleted, instance);
    SegHeadLayout(n, deleted, instance);
    assert out[..4] == head[..4] && out[4] == head[4] && out[5..13] == head[5..13];
    PrefixWord(out, head, 13);
    WordSlice(out, SEG_HEADER + n, SEG_OVERHEAD + n);
    WordSlice(out, SEG_HEADER + n + 4, crc(out[..SEG_HEADER + n]));
  }

  /** A CHL2 frame decodes to what was encoded exactly when its payload length fits 32 bits. */
  lemma SegRoundTrip(crc: Crc, data: seq<Byte>, deleted: bool, instance: Instance)
    ensures DecodeSegFrame(crc, SegFrame(crc, data, deleted, instance))
            == if |data| < TWO32 then Some(Frame(data, deleted, instance, false)) else None
  {
    hide SegFrame, WordAt;
    SegFrameLayout(crc, data, deleted, instance);
  }

  lemma V1Parts(crc: Crc, data: seq<Byte>, deleted: bool, rest: seq<Byte>)
    ensures var raw, n := V1Frame(crc, data, deleted) + rest, |data|;
            && raw[..9] == V1Head(n, deleted)
            && raw[9..13] == PutU32(crc(raw[..9] + data))
            && raw[V1_HEADER..V1_HEADER + n] == data
  {
    hide V1Head, PutU32;
    var raw := V1Frame(crc, data, deleted) + rest;
    assert raw[..9] == V1Head(|data|, deleted);
  }

  lemma V1FrameLayout(crc: Crc, data: seq<Byte>, deleted: bool, rest: seq<Byte>)
    ensures var raw := V1Frame(crc, data, deleted) + rest; var n := |data|;
            && raw[..4] == CHL1 && raw[4] == Op(deleted) && WordAt(raw, 5) == Low32(n)
            && raw[V1_HEADER..V1_HEADER + n] == data
            && WordAt(raw, 9) == crc(raw[..9] + data)
  {
    hide V1Head, PutU32, WordAt, V1Frame;
    var raw, head := V1Frame(crc, data, deleted) + rest, V1Head(|data|, deleted);
    V1Parts(crc, data, deleted, rest);
    V1HeadLayout(|data|, deleted);
    assert raw[..4] == head[..4] && raw[4] == head[4];
    PrefixWord(raw, head, 5);
    WordSlice(raw, 9, crc(raw[..9] + data));
  }

  /** A CHL1 frame followed by anything parses to what was encoded, for a payload that fits 32 bits. */
  lemma V1ParsesFirst(crc: Crc, d: Dialect, data: seq<Byte>, deleted: bool, rest: seq<Byte>)
    requires |data| < TWO32
    ensures ParseOne(crc, d, V1Frame(crc, data, deleted) + rest)
            == Some(Parsed(Frame(data, deleted, NO_INSTANCE, true), V1_HEADER + |data|))
  {
    hide V1Frame, WordAt;
    V1FrameLayout(crc, data, deleted, rest);
  }

  // ------------------------------------------------------------------ whole objects

  /** What a scan consumes first does not depend on what follows it. */
  lemma ParseStable(crc: Crc, d: Dialect, raw: seq<Byte>, rest: seq<Byte>)
    requires ParseOne(crc, d, raw).Some?
    ensures ParseOne(crc, d, raw + rest) == ParseOne(crc, d, raw)
  {
    var all := raw + rest;
    var p := ParseOne(crc, d, raw).value;
    assert all[..4] == raw[..4];
    if raw[..4] == CHL1 {
      assert all[..9] == raw[..9];
      var n := WordAt(raw, 5);
      assert all[V1_HEADER..V1_HEADER + n] == raw[V1_HEADER..V1_HEADER + n];
    } else {
      assert all[..p.size] == raw[..p.size];
    }
  }

  /** Appending one parseable frame makes it the object's value: the whole point of an append log. */
  lemma {:induction false} AppendDecodes(crc: Crc, d: Dialect, raw: seq<Byte>, frame: seq<Byte>)
    requires raw == [] || DecodeAll(crc, d, raw).Some?
    requires ParseOne(crc, d, frame).Some? && ParseOne(crc, d, frame).value.size == |frame|
    ensures DecodeAll(crc, d, raw + frame) == Some(ParseOne(crc, d, frame).value.frame)
    decreases |raw|
  {
    hide ParseOne;
    if raw == [] {
      assert raw + frame == frame;
    } else {
      ParseStable(crc, d, raw, frame);
      var p := ParseOne(crc, d, raw).value;
      if p.size == |raw| {
        assert (raw + frame)[p.size..] == frame;
      } else {
        AppendDecodes(crc, d, raw[p.size..], frame);
        assert (raw + frame)[p.size..] == raw[p.size..] + frame;
      }
    }
  }

  /** Where the last frame of a decodable object starts. */
  lemma {:induction false} LastFrameStart(crc: Crc, d: Dialect, raw: seq<Byte>) returns (k: nat)
    requires DecodeAll(crc, d, raw).Some?
    ensures k < |raw|
    ensures ParseOne(crc, d, raw[k..]) == Some(Parsed(DecodeAll(crc, d, raw).value, |raw| - k))
    decreases |raw|
  {
    hide ParseOne;
    var p := ParseOne(crc, d, raw).value;
    if p.size == |raw| {
      k := 0;
      assert raw[0..] == raw;
    } else {
      var j := LastFrameStart(crc, d, raw[p.size..]);
      k := p.size + j;
      assert raw[p.size..][j..] == raw[k..];
    }
  }

  // ------------------------------------------------------------------ the tail probe

  /** What readSegmentAt returns: the frame and the object length that goes into the token. */
  datatype Reading = Reading(frame: Frame, length: nat)

  /** The decode of the whole object, the fallback of the probe. */
  function FullRead(crc: Crc, raw: seq<Byte>): (r: Option<Reading>)
  {
    match DecodeAll(crc, Mixed, raw)
    case None => None
    case Some(f) => Some(Reading(f, |raw|))
  }

  /** The part of the provider's answer (the last `got` bytes) the probe keeps. */
  function KeptTail(raw: seq<Byte>, got: nat): (tail: seq<Byte>)
    requires got <= |raw|
  {
    var answer := raw[|raw| - got..];
    if |answer| > SEG_PROBE_BYTES then answer[|answer| - SEG_PROBE_BYTES..] else answer
  }

  /**
   readSegmentAt on an object `raw` whose provider answered the suffix request with its last
   `got` bytes. A frame longer than the probe is fetched with a ranged read into a variable
   that shadows the one decoded afterwards, so the bytes decoded in that case are empty.
   */
  function ProbeRead(crc: Crc, raw: seq<Byte>, got: nat): (r: Option<Reading>)
    requires got <= |raw|
  {
    var tail := KeptTail(raw, got);
    if |raw| == 0 then None
    else if |tail| >= SEG_FOOTER then
      var frameLen := WordAt(tail, |tail| - SEG_FOOTER);
      if SEG_OVERHEAD <= frameLen <= |raw| then
        var frame := if frameLen <= |tail| then tail[|tail| - frameLen..] else [];
        match DecodeSegFrame(crc, frame)
        case Some(f) => Some(Reading(f, |raw|))
        case None => FullRead(crc, raw)
      else FullRead(crc, raw)
    else FullRead(crc, raw)
  }

  /** The frame the probe decodes from the end of the object, when it decodes one at all. */
  function ProbeCandidate(crc: Crc, raw: seq<Byte>, got: nat): (r: Option<Frame>)
    requires got <= |raw|
  {
    var visible := Min(got, SEG_PROBE_BYTES);
    if visible < SEG_FOOTER then None
    else
      var frameLen := WordAt(raw, |raw| - SEG_FOOTER);
      if SEG_OVERHEAD <= frameLen <= visible then DecodeSegFrame(crc, raw[|raw| - frameLen..]) else None
  }

  lemma KeptTailIsSuffix(raw: seq<Byte>, got: nat)
    requires got <= |raw|
    ensures KeptTail(raw, got) == raw[|raw| - Min(got, SEG_PROBE_BYTES)..]
  {
  }

  lemma SuffixWord(raw: seq<Byte>, last: seq<Byte>)
    requires SEG_FOOTER <= |last| <= |raw| && raw[|raw| - |last|..] == last
    ensures WordAt(raw, |raw| - SEG_FOOTER) == WordAt(last, |last| - SEG_FOOTER)
  {
    var i, j := |raw| - SEG_FOOTER, |last| - SEG_FOOTER;
    assert raw[i] == last[j] && raw[i + 1] == last[j + 1] && raw[i + 2] == last[j + 2] && raw[i + 3] == last[j + 3];
  }

  lemma NoEmptyFrame(crc: Crc)
    ensures DecodeSegFrame(crc, []) == None && FullRead(crc, []) == None
  {
  }

  /** The probe is a function of the visible suffix, with the full decode as its fallback. */
  lemma ProbeByCandidate(crc: Crc, raw: seq<Byte>, got: nat)
    requires got <= |raw|
    ensures ProbeRead(crc, raw, got)
            == match ProbeCandidate(crc, raw, got)
               case Some(f) => Some(Reading(f, |raw|))
               case None => FullRead(crc, raw)
  {
    hide DecodeSegFrame, DecodeAll, FullRead, KeptTail;
    NoEmptyFrame(crc);
    KeptTailIsSuffix(raw, got);
    var tail := KeptTail(raw, got);
    if |tail| >= SEG_FOOTER {
      SuffixWord(raw, tail);
      var frameLen := WordAt(raw, |raw| - SEG_FOOTER);
      if SEG_OVERHEAD <= frameLen <= |tail| {
        assert tail[|tail| - frameLen..] == raw[|raw| - frameLen..];
      }
    }
  }

  lemma FooterNamesLength(crc: Crc, frame: seq<Byte>)
    requires DecodeSegFrame(crc, frame).Some?
    ensures SEG_OVERHEAD <= |frame| < TWO32 + SEG_OVERHEAD
    ensures WordAt(frame, |frame| - SEG_FOOTER) == Low32(|frame|)
  {
  }

  lemma SegSuffix(crc: Crc, last: seq<Byte>)
    requires ParseOne(crc, Mixed, last).Some?
    requires var p := ParseOne(crc, Mixed, last).value; p.size == |last| && !p.frame.legacy
    ensures DecodeSegFrame(crc, last) == Some(ParseOne(crc, Mixed, last).value.frame)
  {
    assert last[..|last|] == last;
  }

  /**
   Whatever part of the tail the provider returned, the probe of an object whose newest frame is
   CHL2 reads the same value, tombstone flag, instance and length as decoding the whole object:
   older frames may be of either kind and the newest one may or may not fit the probe.
   */
  lemma ProbeAgreesWithFullRead(crc: Crc, raw: seq<Byte>, got: nat)
    requires got <= |raw|
    requires FullRead(crc, raw).Some? && !FullRead(crc, raw).value.frame.legacy
    ensures ProbeRead(crc, raw, got) == FullRead(crc, raw)
  {
    hide ParseOne, DecodeSegFrame, ProbeRead;
    var k := LastFrameStart(crc, Mixed, raw);
    var last := raw[k..];
    SegSuffix(crc, last);
    FooterNamesLength(crc, last);
    SuffixWord(raw, last);
    ProbeByCandidate(crc, raw, got);
    if ProbeCandidate(crc, raw, got).Some? {
      assert raw[|raw| - |last|..] == last;
    }
  }

  /** The bytes end in a CHL2 frame: the length word before the last checksum delimits one that decodes. */
  predicate EndsInFrame(crc: Crc, s: seq<Byte>)
  {
    && |s| >= SEG_FOOTER
    && var n := WordAt(s, |s| - SEG_FOOTER); SEG_OVERHEAD <= n <= |s| && DecodeSegFrame(crc, s[|s| - n..]).Some?
  }

  /**
   For every object, decodable or not, and every answer of the provider: the probe agrees with the
   full decode exactly when the tail it keeps does not end in a CHL2 frame, or the object's newest
   frame is one. Bytes that look like a frame without being one mislead it, whether they lie in the
   newest CHL1 payload, begin in an earlier one, or follow garbage.
   */
  lemma ProbeAgreesExactly(crc: Crc, raw: seq<Byte>, got: nat)
    requires got <= |raw|
    ensures ProbeRead(crc, raw, got) == FullRead(crc, raw)
            <==> (!EndsInFrame(crc, KeptTail(raw, got))
                  || (DecodeAll(crc, Mixed, raw).Some? && !DecodeAll(crc, Mixed, raw).value.legacy))
  {
    ProbeByCandidate(crc, raw, got);
    CandidateInTail(crc, raw, got);
    hide DecodeAll, ProbeRead, ProbeCandidate, KeptTail, EndsInFrame, DecodeSegFrame;
    if DecodeAll(crc, Mixed, raw).Some? && !DecodeAll(crc, Mixed, raw).value.legacy { ProbeAgreesWithFullRead(crc, raw, got); }
  }

  lemma CandidateInTail(crc: Crc, raw: seq<Byte>, got: nat)
    requires got <= |raw|
    ensures ProbeCandidate(crc, raw, got).Some? <==> EndsInFrame(crc, KeptTail(raw, got))
    ensures ProbeCandidate(crc, raw, got).Some? ==> !ProbeCandidate(crc, raw, got).value.legacy
  {
    hide DecodeSegFrame, WordAt, KeptTail;
    DecodedIsSegment(crc, raw, got);
    KeptTailIsSuffix(raw, got);
    var tail := KeptTail(raw, got);
    if |tail| >= SEG_FOOTER {
      SuffixWord(raw, tail);
      var n := WordAt(raw, |raw| - SEG_FOOTER);
      if SEG_OVERHEAD <= n <= |tail| { SameSuffix(raw, tail, n); }
    }
  }

  lemma SameSuffix(raw: seq<Byte>, tail: seq<Byte>, n: nat)
    requires n <= |tail| <= |raw| && raw[|raw| - |tail|..] == tail
    ensures tail[|tail| - n..] == raw[|raw| - n..]
  {
  }

  lemma DecodedIsSegment(crc: Crc, raw: seq<Byte>, got: nat)
    requires got <= |raw|
    ensures ProbeCandidate(crc, raw, got).Some? ==> !ProbeCandidate(crc, raw, got).value.legacy
  {
    hide WordAt;
  }

  /** A CHL1 record whose payload is a CHL2 frame: the probe returns the payload's inner value. */
  lemma ProbeMisreadsNestedFrame(crc: Crc, inner: seq<Byte>, instance: Instance)
    requires |inner| <= 100
    ensures var nested := SegFrame(crc, inner, false, instance);
            var raw := V1Frame(crc, nested, false);
            && FullRead(crc, raw) == Some(Reading(Frame(nested, false, NO_INSTANCE, true), |raw|))
            && ProbeRead(crc, raw, |raw|) == Some(Reading(Frame(inner, false, instance, false), |raw|))
  {
    hide ParseOne, DecodeSegFrame, ProbeRead, SegFrame, V1Frame, WordAt;
    var nested := SegFrame(crc, inner, false, instance);
    var raw := V1Frame(crc, nested, false);
    V1FrameLayout(crc, nested, false, []);
    V1ParsesFirst(crc, Mixed, nested, false, []);
    assert raw + [] == raw;
    SegRoundTrip(crc, inner, false, instance);
    SegFrameLayout(crc, inner, false, instance);
    assert raw[|raw| - |nested|..] == nested;
    SuffixWord(raw, nested);
    FooterNamesLength(crc, nested);
    ProbeByCandidate(crc, raw, |raw|);
  }

  // ------------------------------------------------------------------ logs of frames

  /** A record written to a log; a log is what a segment or a CHL1 record holds. */
  datatype Entry = Entry(value: seq<Byte>, deleted: bool, instance: Instance)

  predicate Storable(e: Entry) { |e.value| < TWO32 && (e.deleted ==> e.value == []) }

  function EntrySize(e: Entry): nat { SEG_OVERHEAD + |e.value| }

  function LogSize(log: seq<Entry>): (n: nat)
    ensures n >= SEG_OVERHEAD * |log|
  {
    if log == [] then 0 else LogSize(log[..|log| - 1]) + EntrySize(log[|log| - 1])
  }

  function LogBytes(crc: Crc, log: seq<Entry>): (raw: seq<Byte>)
    ensures |raw| == LogSize(log)
  {
    if log == [] then []
    else
      var e := log[|log| - 1];
      LogBytes(crc, log[..|log| - 1]) + SegFrame(crc, e.value, e.deleted, e.instance)
  }

  lemma SegParsesWhole(crc: Crc, e: Entry)
    requires Storable(e)
    ensures var out := SegFrame(crc, e.value, e.deleted, e.instance);
            ParseOne(crc, Mixed, out) == Some(Parsed(Frame(e.value, e.deleted, e.instance, false), |out|))
  {
    var out := SegFrame(crc, e.value, e.deleted, e.instance);
    SegRoundTrip(crc, e.value, e.deleted, e.instance);
    SegFrameLayout(crc, e.value, e.deleted, e.instance);
    assert out[..|out|] == out;
  }

  lemma {:induction false} LogDecodes(crc: Crc, log: seq<Entry>)
    requires log != [] && forall e <- log :: Storable(e)
    ensures var e := log[|log| - 1];
            DecodeAll(crc, Mixed, LogBytes(crc, log)) == Some(Frame(e.value, e.deleted, e.instance, false))
    decreases |log|
  {
    var front, e := log[..|log| - 1], log[|log| - 1];
    SegParsesWhole(crc, e);
    if front != [] {
      LogDecodes(crc, front);
    }
    AppendDecodes(crc, Mixed, LogBytes(crc, front), SegFrame(crc, e.value, e.deleted, e.instance));
  }

  /** Reading the stored bytes of any nonempty log through the probe yields its last entry and its size. */
  lemma ProbeReadsLog(crc: Crc, log: seq<Entry>, got: nat)
    requires log != [] && (forall e <- log :: Storable(e)) && got <= LogSize(log)
    ensures var e := log[|log| - 1];
            ProbeRead(crc, LogBytes(crc, log), got)
            == Some(Reading(Frame(e.value, e.deleted, e.instance, false), LogSize(log)))
  {
    LogDecodes(crc, log);
    ProbeAgreesWithFullRead(crc, LogBytes(crc, log), got);
  }

  // ------------------------------------------------------------------ the loops of the source

  /** encodeFrame: fill a zeroed buffer, checksum last over everything but the checksum field. */
  method EncodeFrame(crc: Crc, data: seq<Byte>, deleted: bool) returns (out: array<Byte>)
    ensures fresh(out) && out[..] == V1Frame(crc, data, deleted)
  {
    hide PutU32;
    out := new Byte[V1_HEADER + |data|](_ => 0);
    CopyInto(out, 0, CHL1);
    assert out[..4] == CHL1 && out[4] == out[4..][0] == 0;
    if deleted { out[4] := 1; }
    assert out[..5] == out[..4] + [out[4]];
    CopyInto(out, 5, PutU32(|data|));
    ghost var head := V1Head(|data|, deleted);
    assert out[..V1_HEADER] == head + out[9..13];
    CopyInto(out, V1_HEADER, data);
    assert out[..] == out[..V1_HEADER + |data|];
    assert out[..9] == head && out[V1_HEADER..] == data;
    CopyInto(out, 9, PutU32(crc(out[..9] + out[V1_HEADER..])));
    assert out[..] == out[..13] + out[13..];
  }

  /** encodeSegmentFrame. */
  method EncodeSegmentFrame(crc: Crc, data: seq<Byte>, deleted: bool, instance: Instance) returns (out: array<Byte>)
    ensures fresh(out) && out[..] == SegFrame(crc, data, deleted, instance)
  {
    hide PutU32;
    var n := |data|;
    out := new Byte[SEG_OVERHEAD + n](_ => 0);
    CopyInto(out, 0, CHL2);
    assert out[..4] == CHL2 && out[4] == out[4..][0] == 0;
    if deleted { out[4] := 1; }
    assert out[..5] == out[..4] + [out[4]];
    CopyInto(out, 5, instance);
    CopyInto(out, 13, PutU32(n));
    CopyInto(out, SEG_HEADER, data);
    var sum := crc(out[..SEG_HEADER + n]);
    CopyInto(out, SEG_HEADER + n, PutU32(SEG_OVERHEAD + n));
    CopyInto(out, SEG_HEADER + n + 4, PutU32(sum));
    assert out[..] == out[..SEG_OVERHEAD + n];
  }

  /** copy(a[at:], s) */
  method CopyInto(a: array<Byte>, at: nat, s: seq<Byte>)
    requires at + |s| <= a.Length
    modifies a
    ensures a[..at + |s|] == old(a[..at]) + s
    ensures a[at + |s|..] == old(a[at + |s|..])
  {
    for i := 0 to |s|
      invariant a[..at] == old(a[..at]) && a[at..at + i] == s[..i] && a[at + |s|..] == old(a[at + |s|..])
    {
      a[at + i] := s[i];
    }
  }

  /** decodeFrames and decodeAnyFrames: consume whole frames, keep the last one. */
  method DecodeFrames(crc: Crc, d: Dialect, stored: seq<Byte>) returns (r: Option<Frame>)
    ensures r == DecodeAll(crc, d, stored)
  {
    if |stored| == 0 { return None; }
    var raw := stored;
    r := None;
    while |raw| != 0
      invariant raw == [] ==> r.Some? && r == DecodeAll(crc, d, stored)
      invariant raw != [] ==> DecodeAll(crc, d, raw) == DecodeAll(crc, d, stored)
      decreases |raw|
    {
      var p := ParseOne(crc, d, raw);
      if p.None? { return None; }
      r := Some(p.value.frame);
      raw := raw[p.value.size..];
    }
  }
}
