/**
 SegmentedAuthority (internal/bucket/segmented.go) with its operations run one at a time under a
 window clock that never goes back but may advance at any read, also in the middle of an operation.
 The bucket holds bytes; `logs` is the abstraction every operation keeps in step with them.
 */
module SegmentedAuthority {
  import opened Bytes
  import opened Frames
  import opened Tokens
  import opened SegmentViews

  datatype Result = Ok(token: Token) | ErrPrecondition | ErrFull

  // ------------------------------------------------------------------ what the newest record depends on

  lemma {:induction false} BoundIrrelevant(segs: Segments, b: int, b': int)
    requires b <= b' && forall w | w in segs :: w < b
    ensures NewestBelow(segs, b') == NewestBelow(segs, b)
    decreases b' - b
  {
    if b < b' { BoundIrrelevant(segs, b, b' - 1); }
  }

  lemma NewestIs(segs: Segments, b: int, w: int)
    requires 0 <= w < b && w in segs && forall x | x in segs :: x <= w
    ensures NewestBelow(segs, b) == w
  {
  }

  lemma NoneBelow(segs: Segments, b: int)
    requires forall x | x in segs :: !(0 <= x < b)
    ensures NewestBelow(segs, b) == -1
  {
  }

  /** Collecting windows that are not the newest changes nothing a reader sees. */
  lemma CollectionInvisible(segs: Segments, segs': Segments, legacy: Option<Legacy>, b: int, newest: int)
    requires 0 <= newest < b && newest in segs && (forall w | w in segs :: w <= newest)
    requires newest in segs' && forall w | w in segs' :: w in segs && segs'[w] == segs[w]
    ensures NewestView(segs', legacy, b) == NewestView(segs, legacy, b)
  {
    NewestIs(segs, b, newest);
    NewestIs(segs', b, newest);
  }

  // ------------------------------------------------------------------ which tokens a CAS or delete accepts

  /** higherSegment(window) at clock h2: it looks at h2 and h2-1 only; h2+1 does not exist here. */
  predicate HigherSeen(segs: Segments, window: int, h2: int)
  {
    (h2 > window && h2 in segs) || (h2 - 1 > window && h2 - 1 in segs)
  }

  /** A segment token passes the checks of CAS and ConditionalDelete at clocks h <= h2. */
  predicate Accepts(segs: Segments, token: Token, h: int, h2: int)
  {
    && token.SegmentToken?
    && var v := ReadWindow(segs, token.window);
       && Names(v, token) && Live(v)
       && !HigherSeen(segs, token.window, h2)
       && (token.window < h ==> ReadWindow(segs, h).Absent?)
  }

  ghost predicate Windows(segs: Segments, clock: int)
  {
    forall w | w in segs :: 0 <= w <= clock && segs[w] != []
  }

  /** The token of the newest live record always passes, however old its window. */
  lemma CurrentTokenPasses(segs: Segments, token: Token, h: int, h2: int)
    requires Windows(segs, h) && h <= h2 && token.SegmentToken?
    requires NewestBelow(segs, h + 1) == token.window
    requires Names(ReadWindow(segs, token.window), token) && Live(ReadWindow(segs, token.window))
    ensures Accepts(segs, token, h, h2)
  {
  }

  /**
   A superseded token that still names the last entry of a retained segment is refused exactly when
   the newest window is the current one or one of the two that higherSegment looks at.
   */
  lemma StaleTokenRefusedExactly(segs: Segments, token: Token, h: int, h2: int)
    requires Windows(segs, h) && h <= h2 && token.SegmentToken?
    requires Names(ReadWindow(segs, token.window), token) && Live(ReadWindow(segs, token.window))
    requires NewestBelow(segs, h + 1) > token.window
    ensures !Accepts(segs, token, h, h2)
            <==> exists w | w in segs && w > token.window :: w == h || w == h2 || w == h2 - 1
  {
    if exists w | w in segs && w > token.window :: w == h || w == h2 || w == h2 - 1 {
      var w :| w in segs && w > token.window && (w == h || w == h2 || w == h2 - 1);
      assert !ReadWindow(segs, w).Absent?;
    }
  }

  /** So no superseded token whose window is at most two behind the clock is ever accepted. */
  lemma RecentStaleTokenRefused(segs: Segments, token: Token, h: int, h2: int)
    requires Windows(segs, h) && h <= h2 && token.SegmentToken? && h2 - 2 <= token.window
    requires NewestBelow(segs, h + 1) > token.window
    ensures !Accepts(segs, token, h, h2)
  {
    var w := NewestBelow(segs, h + 1);
    assert w == h2 || w == h2 - 1;
  }

  /**
   The limit is real. A token of window w, already used to roll the record into window w + 1, is
   accepted again at window w + 3 or later: the fence is lost after two idle windows.
   */
  lemma StaleTokenAcceptedAfterIdleWindows(e: Entry, f: Entry, w: nat, h: int)
    requires !e.deleted && h >= w + 3
    ensures var segs := map[w as int := [e], w + 1 := [f]];
            && Windows(segs, h) && NewestBelow(segs, h + 1) == w + 1
            && Accepts(segs, SegmentToken(w, e.instance, EntrySize(e)), h, h)
  {
    var segs := map[w as int := [e], w + 1 := [f]];
    NewestIs(segs, h + 1, w + 1);
    assert [e][..0] == [];
    assert LogSize([e]) == EntrySize(e);
  }

  /** Where the newest record lies among the windows. */
  lemma ViewFacts(logs: Segments, legacy: Option<Legacy>, clock: int)
    requires Windows(logs, clock) && clock >= 0
    ensures var v := NewestView(logs, legacy, clock + 1);
            && (v.InSegment? ==> v.window in logs && v == ReadWindow(logs, v.window) && forall w | w in logs :: w <= v.window)
            && (!v.InSegment? ==> logs == map[] && v == ReadLegacy(legacy))
  {
  }

  lemma LogSizeSnoc(log: seq<Entry>, e: Entry)
    ensures LogSize(log + [e]) == LogSize(log) + EntrySize(e)
  {
    assert (log + [e])[..|log|] == log;
  }

  function LogAt(logs: Segments, w: int): seq<Entry> { if w in logs then logs[w] else [] }

  /** An entry appended in a window no older than any other becomes the newest record. */
  lemma AppendedView(logs: Segments, legacy: Option<Legacy>, clock: int, w: int, e: Entry)
    requires Windows(logs, clock) && 0 <= w <= clock && forall x | x in logs :: x <= w
    ensures var logs' := logs[w := LogAt(logs, w) + [e]];
            && Windows(logs', clock) && (forall x | x in logs' :: x <= w)
            && NewestView(logs', legacy, clock + 1) == InSegment(w, e, LogSize(LogAt(logs, w)) + EntrySize(e))
  {
    hide LogSize, EntrySize, NewestBelow;
    LogSizeSnoc(LogAt(logs, w), e);
    NewestIs(logs[w := LogAt(logs, w) + [e]], clock + 1, w);
  }

  // ------------------------------------------------------------------ the authority

  /** What newestWindow looks for at clock h. */
  ghost function NewestSegment(logs: Segments, h: int): View
  {
    var w := NewestBelow(logs, h + 1);
    if w >= 0 then ReadWindow(logs, w) else Absent
  }

  /** The bytes of one object are the frames of a log within the cap. */
  ghost predicate StoredLog(crc: Crc, max: int, raw: seq<Byte>, log: seq<Entry>)
  {
    raw == LogBytes(crc, log) && LogSize(log) <= max && forall e <- log :: Storable(e)
  }

  ghost predicate Stored(crc: Crc, max: int, objects: map<int, seq<Byte>>, logs: Segments)
  {
    objects.Keys == logs.Keys && forall w | w in logs :: StoredLog(crc, max, objects[w], logs[w])
  }

  lemma KeysAgree(crc: Crc, max: int, objects: map<int, seq<Byte>>, logs: Segments)
    requires Stored(crc, max, objects, logs)
    ensures objects.Keys == logs.Keys
  {
  }

  ghost predicate LegacyOk(crc: Crc, fence: bool, raw: Option<seq<Byte>>)
  {
    raw.Some? ==> raw.value != [] && (fence || DecodeAll(crc, Mixed, raw.value).Some?)
  }

  /** readLegacy: a decodable log, or a plain value for a resource fence. */
  function DecodeLegacy(crc: Crc, raw: Option<seq<Byte>>): Option<Legacy>
  {
    match raw
    case None => None
    case Some(raw) =>
      match DecodeAll(crc, Mixed, raw)
      case Some(f) => Some(Legacy(f.value, f.deleted, |raw|))
      case None => Some(Legacy(raw, false, |raw|))
  }

  lemma SizeOf(e: Entry)
    ensures EntrySize(e) == SEG_OVERHEAD + |e.value| && LogSize([]) == 0
  {
  }

  lemma StoredAppend(crc: Crc, max: int, raw: seq<Byte>, log: seq<Entry>, e: Entry)
    requires (raw == [] && log == []) || StoredLog(crc, max, raw, log)
    requires Storable(e) && LogSize(log) + EntrySize(e) <= max
    ensures StoredLog(crc, max, raw + SegFrame(crc, e.value, e.deleted, e.instance), log + [e])
  {
    hide SegFrame, EntrySize;
    assert (log + [e])[..|log|] == log;
  }


  class Authority {
    const crc: Crc
    const max: int
    /** The key ends in /resource-fence.json: its legacy object may be plain bytes. */
    const fence: bool

    var clock: nat
    var objects: map<int, seq<Byte>>
    var legacyRaw: Option<seq<Byte>>
    ghost var logs: Segments

    ghost predicate Valid()
      reads this
    {
      && Stored(crc, max, objects, logs)
      && Windows(logs, clock)
      && LegacyOk(crc, fence, legacyRaw)
    }

    function LegacyRecord(): Option<Legacy>
      reads this
    {
      DecodeLegacy(crc, legacyRaw)
    }

    /** The record as users see it. */
    ghost function Current(): View
      reads this
    {
      NewestView(logs, LegacyRecord(), clock + 1)
    }

    twostate predicate SameRecord()
      reads this
    {
      objects == old(objects) && logs == old(logs) && legacyRaw == old(legacyRaw) && Current() == old(Current())
    }

    constructor (crc: Crc, max: int, fence: bool, now: nat, legacyRaw: Option<seq<Byte>>)
      requires LegacyOk(crc, fence, legacyRaw)
      ensures Valid() && this.crc == crc && this.max == max && this.fence == fence && clock == now
      ensures objects == map[] && this.legacyRaw == legacyRaw && Current() == ReadLegacy(LegacyRecord())
    {
      this.crc, this.max, this.fence, this.clock, this.legacyRaw := crc, max, fence, now, legacyRaw;
      objects, logs := map[], map[];
      new;
      NoneBelow(logs, clock + 1);
    }

    /** window(): time may have passed since the last look. */
    method Window() returns (h: nat)
      requires Valid()
      modifies this`clock
      ensures Valid() && clock >= old(clock) && h == clock && Current() == old(Current())
    {
      hide Stored, LegacyOk, DecodeLegacy, NewestBelow;
      var passed: nat :| passed >= 0;
      clock := clock + passed;
      BoundIrrelevant(logs, old(clock) + 1, clock + 1);
      h := clock;
    }

    /** nearBoundary(): reads the clock again; either answer is possible. */
    method NearBoundary() returns (near: bool)
      requires Valid()
      modifies this`clock
      ensures Valid() && clock >= old(clock) && Current() == old(Current())
    {
      var _ := Window();
      near := *;
    }

    /** readSegmentAt, through the tail probe; the provider may answer with any part of the tail. */
    method ReadSegmentAt(w: int) returns (v: View)
      requires Valid()
      ensures v == ReadWindow(logs, w)
    {
      if w !in objects { return Absent; }
      var raw := objects[w];
      var got: nat :| got <= |raw|;
      ProbeReadsLog(crc, logs[w], got);
      var reading := ProbeRead(crc, raw, got).value;
      v := InSegment(w, Entry(reading.frame.value, reading.frame.deleted, reading.frame.instance), reading.length);
    }

    /** newestWindow: h, h+1 near the boundary, then the windows behind. */
    method NewestWindow() returns (v: View)
      requires Valid()
      modifies this`clock
      ensures Valid() && clock >= old(clock) && Current() == old(Current()) && v == NewestSegment(logs, clock)
    {
      hide NewestBelow, LogSize, NewestView, Stored, LegacyOk, DecodeLegacy;
      var now := Window();
      var h: int := now;
      v := ReadSegmentAt(h);
      var near := NearBoundary();
      BoundIrrelevant(logs, h + 1, clock + 1);
      if near {
        var future := ReadSegmentAt(h + 1);
        if !future.Absent? { assert false; } // no peer is ahead of this clock
      }
      if v.Absent? {
        v := OlderWindow(h);
      } else {
        NewestIs(logs, h + 1, h);
      }
    }

    /** The window segment a read finds behind an absent window h: h-1, h-2, then a listing. */
    method OlderWindow(h: int) returns (v: View)
      requires Valid() && h <= clock && forall w | w in logs :: w < h
      ensures v == NewestSegment(logs, h)
    {
      hide NewestBelow, LogSize, Stored, LegacyOk;
      for back := 1 to 3
        invariant forall w | w in logs :: w <= h - back
      {
        v := ReadSegmentAt(h - back);
        if !v.Absent? {
          NewestIs(logs, h + 1, h - back);
          return;
        }
      }
      var newest := ListNewest();
      if newest >= 0 {
        NewestIs(logs, h + 1, newest);
        v := ReadSegmentAt(newest);
      } else {
        NoneBelow(logs, h + 1);
        v := Absent;
      }
    }

    /** data.List of the key's windows, in no particular order. */
    method List() returns (keys: seq<int>)
      ensures forall w :: w in keys <==> w in objects
    {
      keys := Enumerate(objects.Keys);
    }

    /** The largest window among the listed keys, or -1. */
    method ListNewest() returns (newest: int)
      requires Valid()
      ensures newest == -1 ==> logs == map[]
      ensures newest != -1 ==> newest in logs && forall w | w in logs :: w <= newest
    {
      hide LegacyOk, DecodeLegacy, NewestBelow, StoredLog;
      var keys := List();
      newest := -1;
      for i := 0 to |keys|
        invariant newest == -1 || newest in keys
        invariant forall j | 0 <= j < i :: keys[j] <= newest
      {
        if keys[i] > newest { newest := keys[i]; }
      }
      assert forall w | w in logs :: w in keys;
    }

    /** latest: the newest window, else the legacy object. */
    method Latest() returns (v: View)
      requires Valid()
      modifies this`clock
      ensures Valid() && clock >= old(clock) && v == Current() == old(Current())
    {
      v := NewestWindow();
      if v.Absent? { v := ReadLegacy(LegacyRecord()); }
    }

    /** Get: the value and the token that would change it. */
    method Get() returns (value: Option<seq<Byte>>, token: Option<Token>)
      requires Valid()
      modifies this`clock
      ensures Valid() && Current() == old(Current())
      ensures !Live(Current()) ==> value == None && token == None
      ensures Live(Current()) ==>
                && value == Some(if Current().InSegment? then Current().entry.value else Current().legacy.value)
                && token == Some(TokenOf(Current()))
    {
      var v := Latest();
      match v
      case Absent => return None, None;
      case InSegment(_, e, _) => if e.deleted { return None, None; } return Some(e.value), Some(TokenOf(v));
      case InLegacy(l) => if l.deleted { return None, None; } return Some(l.value), Some(TokenOf(v));
    }

    /** appendAt: refuse past the cap; the provider appends only at the object's current length. */
    method AppendAt(window: int, pos: nat, e: Entry) returns (r: Result)
      requires Valid() && 0 <= window <= clock && Storable(e)
      modifies this`objects, this`logs
      ensures Valid()
      ensures var log := LogAt(old(logs), window);
              if pos + EntrySize(e) > max then r == ErrFull && objects == old(objects) && logs == old(logs)
              else if LogSize(log) != pos then r == ErrPrecondition && objects == old(objects) && logs == old(logs)
              else r == Ok(SegmentToken(window, e.instance, pos + EntrySize(e))) && logs == old(logs)[window := log + [e]]
    {
      hide LegacyOk, DecodeLegacy, LogBytes, SegFrame, LogSize, EntrySize;
      SizeOf(e);
      var frame := SegFrame(crc, e.value, e.deleted, e.instance);
      if pos + |frame| > max { return ErrFull; }
      var length := if window in objects then |objects[window]| else 0;
      ghost var log := LogAt(logs, window);
      if length != pos { return ErrPrecondition; }
      StoredAppend(crc, max, if window in objects then objects[window] else [], log, e);
      objects := objects[window := (if window in objects then objects[window] else []) + frame];
      logs := logs[window := log + [e]];
      r := Ok(SegmentToken(window, e.instance, pos + |frame|));
    }

    /** data.Delete of one window's object. */
    method Remove(w: int)
      requires Valid()
      modifies this`objects, this`logs
      ensures Valid() && objects == old(objects) - {w} && logs == old(logs) - {w}
    {
      objects := objects - {w};
      logs := logs - {w};
    }

    /** gc: the three windows behind the retained previous one. */
    method Gc(window: int)
      requires Valid() && window in logs && forall w | w in logs :: w <= window
      modifies this`objects, this`logs
      ensures Valid() && logs == old(logs) - {window - 2, window - 3, window - 4}
      ensures Current() == old(Current())
    {
      hide Stored, LegacyOk, DecodeLegacy, NewestView;
      var w := window - 2;
      while w >= window - 4
        invariant window - 5 <= w <= window - 2 && Valid()
        invariant forall x | x in logs :: x in old(logs) && logs[x] == old(logs)[x]
        invariant forall x | x in old(logs) :: x in logs <==> !(w < x <= window - 2)
      {
        Remove(w);
        w := w - 1;
      }
      CollectionInvisible(old(logs), logs, LegacyRecord(), clock + 1, window);
    }

    /** deepGC: list the key's windows and delete all behind the previous one. */
    method DeepGc(window: int)
      requires Valid() && window in logs && forall w | w in logs :: w <= window
      modifies this`objects, this`logs
      ensures Valid() && Current() == old(Current())
      ensures forall w | w in logs :: w >= window - 1 && w in old(logs) && logs[w] == old(logs)[w]
      ensures forall w | w in old(logs) && w >= window - 1 :: w in logs
    {
      hide LegacyOk, DecodeLegacy, NewestView, Stored;
      KeysAgree(crc, max, objects, logs);
      var keys := List();
      for i := 0 to |keys|
        invariant Valid()
        invariant forall w | w in logs :: w in old(logs) && logs[w] == old(logs)[w]
        invariant forall w | w in old(logs) && w >= window - 1 :: w in logs
        invariant forall w | w in logs && w < window - 1 :: w in keys[i..]
      {
        if keys[i] < window - 1 { Remove(keys[i]); }
      }
      CollectionInvisible(old(logs), logs, LegacyRecord(), clock + 1, window);
    }

    /** What a write of this many bytes needs in window `at`, above the record when it lies there. */
    predicate Overflows(v: View, at: nat, bytes: nat)
    {
      (if v.InSegment? && v.window == at then v.length else 0) + SEG_OVERHEAD + bytes > max
    }

    /** A write took effect: the record is now this entry, and the token names it. */
    ghost predicate Wrote(r: Result, value: seq<Byte>, deleted: bool)
      reads this
    {
      && Current().InSegment? && Current().entry.value == value && Current().entry.deleted == deleted
      && Current().window >= 0 && r == Ok(TokenOf(Current()))
    }

    /**
     The common end of every write: append, re-read, drop the migrated legacy object and collect.
     A re-read finds contention only when another writer ran in between.
     */
    method Publish(window: int, pos: nat, e: Entry, migrated: bool, deep: bool) returns (r: Result)
      requires Valid() && 0 <= window <= clock && Storable(e)
      requires (forall w | w in logs :: w <= window) && LogSize(LogAt(logs, window)) == pos
      modifies this
      ensures Valid() && clock >= old(clock)
      ensures r == if pos + EntrySize(e) > max then ErrFull else Ok(SegmentToken(window, e.instance, pos + EntrySize(e)))
      ensures !r.Ok? ==> SameRecord()
      ensures r.Ok? ==> Current() == InSegment(window, e, pos + EntrySize(e))
      ensures r.Ok? ==> legacyRaw == if migrated then None else old(legacyRaw)
      ensures r.Ok? && deep ==> forall w | w in objects :: w >= window - 1
    {
      hide LogSize, EntrySize, NewestView, NewestBelow, DecodeLegacy, LegacyOk, StoredLog;
      AppendedView(logs, LegacyRecord(), clock, window, e);
      r := AppendAt(window, pos, e);
      if r.Ok? {
        var curr := Latest();
        if !(curr == InSegment(window, e, pos + EntrySize(e))) { assert false; }
        if migrated { DropLegacy(); }
        if deep { DeepGc(window); } else { Gc(window); }
      }
    }

    /** ConditionalCreate: creates exactly when no live record exists, unless the segment is full. */
    method ConditionalCreate(data: seq<Byte>, drawn: Instance) returns (r: Result, ghost at: nat)
      requires Valid() && |data| < TWO32
      modifies this
      ensures Valid() && old(clock) <= at <= clock
      ensures !r.Ok? ==> SameRecord()
      ensures r.ErrPrecondition? <==> old(Live(Current()))
      ensures r.ErrFull? <==> !r.ErrPrecondition? && Overflows(old(Current()), at, |data|)
      ensures r.Ok? ==> Wrote(r, data, false) && Current().window == at && Supersedes(Current(), old(Current()))
      ensures r.Ok? ==> (forall w | w in objects :: w >= Current().window - 1) && (old(Current()).InLegacy? ==> legacyRaw == None)
    {
      hide LogSize, EntrySize, NewestView, NewestBelow, DecodeLegacy, LegacyOk, StoredLog;
      var seg := Latest();
      var now := Window();
      at := now;
      ViewFacts(logs, LegacyRecord(), clock);
      if Live(seg) { return ErrPrecondition, at; }
      var window: int, pos: nat, instance := now, 0, drawn;
      if seg.InSegment? {
        if seg.window > window { assert false; } // nothing lives ahead of the clock
        if seg.window == window { pos, instance := seg.length, seg.entry.instance; }
      }
      WindowSize(logs, window);
      SizeOf(Entry(data, false, instance));
      r := Publish(window, pos, Entry(data, false, instance), seg.InLegacy?, true);
    }

    /** higherSegment: windows h2+1 (near the boundary), h2 and h2-1, when above the given one. */
    method HigherSegment(window: int) returns (higher: bool, ghost h2: nat)
      requires Valid()
      modifies this`clock
      ensures Valid() && old(clock) <= h2 <= clock && Current() == old(Current())
      ensures higher == HigherSeen(logs, window, h2)
    {
      hide NewestView, DecodeLegacy, LegacyOk, Stored, LogSize;
      var now := Window();
      var h: int := now;
      h2 := now;
      for k := 0 to 3
        invariant Valid() && old(clock) <= h2 <= clock && Current() == old(Current()) && h == h2
        invariant k >= 1 ==> h + 1 <= window || h + 1 !in logs
        invariant k >= 2 ==> h <= window || h !in logs
        invariant k >= 3 ==> h - 1 <= window || h - 1 !in logs
        invariant forall w | w in logs :: w <= h
      {
        var candidate := h + 1 - k;
        if candidate > window {
          var skip := false;
          if candidate == h + 1 {
            var near := NearBoundary();
            skip := !near;
          }
          if !skip {
            var v := ReadSegmentAt(candidate);
            if !v.Absent? { return true, h2; }
          }
        }
      }
      higher := false;
    }

    /** CAS and ConditionalDelete: replace the record the token names by a value or a tombstone. */
    method Replace(token: Option<Token>, data: seq<Byte>, deleted: bool, drawn: Instance)
      returns (r: Result, ghost h: nat, ghost h2: nat)
      requires Valid() && |data| < TWO32 && (deleted ==> data == [])
      modifies this
      ensures Valid() && old(clock) <= h <= h2 <= clock
      ensures !r.Ok? ==> SameRecord()
      ensures r.ErrPrecondition? <==>
                !(token.Some? && if token.value.SegmentToken? then Accepts(old(logs), token.value, h, h2)
                                 else old(Current()).InLegacy? && Live(old(Current())) && TokenOf(old(Current())) == token.value)
      ensures r.ErrFull? <==> !r.ErrPrecondition? && Overflows(old(Current()), h, |data|)
      ensures r.Ok? ==> Wrote(r, data, deleted) && Current().window == h
      ensures r.Ok? ==> Supersedes(Current(), old(Current())) && token.Some? && Spent(token.value, Current())
      ensures r.Ok? && old(Current()).InLegacy? ==> legacyRaw == None
    {
      hide LogSize, EntrySize, NewestView, NewestBelow, DecodeLegacy, LegacyOk, StoredLog, HigherSeen;
      var now := Window();
      h, h2 := now, now;
      ViewFacts(logs, LegacyRecord(), clock);
      if token.None? { return ErrPrecondition, h, h2; }
      SizeOf(Entry(data, deleted, drawn));
      if token.value.LegacyToken? {
        r, h2 := ReplaceLegacy(token.value, data, deleted, drawn, now);
      } else {
        r, h2 := ReplaceSegment(token.value, data, deleted, drawn, now);
      }
    }

    method ReplaceLegacy(token: Token, data: seq<Byte>, deleted: bool, drawn: Instance, h: nat) returns (r: Result, ghost h2: nat)
      requires Valid() && |data| < TWO32 && (deleted ==> data == []) && h == clock && token.LegacyToken?
      modifies this
      ensures Valid() && h <= h2 <= clock
      ensures !r.Ok? ==> SameRecord()
      ensures r.ErrPrecondition? <==>
                !(old(Current()).InLegacy? && Live(old(Current())) && TokenOf(old(Current())) == token)
      ensures r.ErrFull? <==> !r.ErrPrecondition? && Overflows(old(Current()), h, |data|)
      ensures r.Ok? ==> Wrote(r, data, deleted) && Current().window == h && legacyRaw == None
      ensures r.Ok? ==> Supersedes(Current(), old(Current())) && Spent(token, Current())
    {
      hide LogSize, EntrySize, NewestView, NewestBelow, DecodeLegacy, LegacyOk, StoredLog;
      h2 := h;
      ViewFacts(logs, LegacyRecord(), clock);
      var seg := ReadLegacy(LegacyRecord());
      if !Live(seg) || TokenOf(seg) != token { return ErrPrecondition, h2; }
      var windowed := NewestWindow();
      h2 := clock;
      if !windowed.Absent? { return ErrPrecondition, h2; }
      var e := Entry(data, deleted, drawn);
      SizeOf(e);
      WindowSize(logs, h);
      r := Publish(h, 0, e, true, !deleted);
    }

    method ReplaceSegment(token: Token, data: seq<Byte>, deleted: bool, drawn: Instance, h: nat) returns (r: Result, ghost h2: nat)
      requires Valid() && |data| < TWO32 && (deleted ==> data == []) && h == clock && token.SegmentToken?
      modifies this
      ensures Valid() && h <= h2 <= clock
      ensures !r.Ok? ==> SameRecord()
      ensures r.ErrPrecondition? <==> !Accepts(old(logs), token, h, h2)
      ensures r.ErrFull? <==> !r.ErrPrecondition? && Overflows(old(Current()), h, |data|)
      ensures r.Ok? ==> Wrote(r, data, deleted) && Current().window == h
      ensures r.Ok? ==> Supersedes(Current(), old(Current())) && Spent(token, Current())
    {
      hide LogSize, EntrySize, NewestView, NewestBelow, DecodeLegacy, LegacyOk, StoredLog, HigherSeen;
      h2 := h;
      ViewFacts(logs, LegacyRecord(), clock);
      var seg := ReadSegmentAt(token.window);
      if !Names(seg, token) || !Live(seg) { return ErrPrecondition, h2; }
      var higher;
      higher, h2 := HigherSegment(token.window);
      if higher { return ErrPrecondition, h2; }
      SizeOf(Entry(data, deleted, drawn));
      SizeOf(Entry(data, deleted, token.instance));
      WindowSize(logs, h);
      if token.window < h {
        var current := ReadSegmentAt(h);
        if !current.Absent? { return ErrPrecondition, h2; }
        r := Publish(h, 0, Entry(data, deleted, drawn), false, true);
      } else {
        r := Publish(token.window, token.length, Entry(data, deleted, token.instance), false, false);
      }
    }

    /** The token names the live record. */
    ghost predicate Holds(token: Option<Token>)
      reads this
      requires Valid()
    {
      token.Some? && Live(Current()) && Names(Current(), token.value)
    }

    /** The token is at most two windows behind the clock, the limit of higherSegment. */
    predicate Recent(token: Option<Token>)
      reads this
    {
      token.Some? && token.value.SegmentToken? ==> token.value.window + 2 >= clock
    }

    /**
     CAS. The holder of the current token always wins, unless the segment of the window it writes in
     is full; a holder of a superseded token at most two windows old always loses and changes
     nothing. A CAS that wins supersedes the token it used.
     */
    method CAS(data: seq<Byte>, token: Option<Token>, drawn: Instance) returns (r: Result, ghost at: nat)
      requires Valid() && |data| < TWO32
      modifies this
      ensures Valid() && old(clock) <= at <= clock
      ensures !r.Ok? ==> SameRecord()
      ensures r.Ok? ==> Wrote(r, data, false) && Current().window == at
      ensures r.Ok? ==> Supersedes(Current(), old(Current())) && Holds(Some(r.token))
      ensures r.Ok? ==> token.Some? && Spent(token.value, Current()) && !Holds(token)
      ensures old(Holds(token)) ==> !r.ErrPrecondition?
      ensures !old(Holds(token)) && Recent(token) ==> r.ErrPrecondition?
      ensures r.ErrFull? <==> !r.ErrPrecondition? && Overflows(old(Current()), at, |data|)
    {
      ghost var h2;
      ghost var logs0, legacy0, clock0 := logs, LegacyRecord(), clock;
      r, at, h2 := Replace(token, data, false, drawn);
      if token.Some? && token.value.SegmentToken? { TokenVerdict(logs0, legacy0, clock0, token, at, h2); }
    }

    /** ConditionalDelete: the same fence, leaving a tombstone. */
    method ConditionalDelete(token: Option<Token>, drawn: Instance) returns (r: Result, ghost at: nat)
      requires Valid()
      modifies this
      ensures Valid() && old(clock) <= at <= clock
      ensures !r.Ok? ==> SameRecord()
      ensures r.Ok? ==> Wrote(r, [], true) && Current().window == at && !Live(Current())
      ensures r.Ok? ==> Supersedes(Current(), old(Current())) && token.Some? && Spent(token.value, Current()) && !Holds(token)
      ensures old(Holds(token)) ==> !r.ErrPrecondition?
      ensures !old(Holds(token)) && Recent(token) ==> r.ErrPrecondition?
      ensures r.ErrFull? <==> !r.ErrPrecondition? && Overflows(old(Current()), at, 0)
    {
      ghost var h2;
      ghost var logs0, legacy0, clock0 := logs, LegacyRecord(), clock;
      r, at, h2 := Replace(token, [], true, drawn);
      if token.Some? && token.value.SegmentToken? { TokenVerdict(logs0, legacy0, clock0, token, at, h2); }
    }

    /** Put: replace whatever is there; one attempt is enough when nothing runs in between. */
    method Put(data: seq<Byte>, drawn: Instance) returns (r: Result, ghost at: nat)
      requires Valid() && |data| < TWO32
      modifies this
      ensures Valid() && old(clock) <= at <= clock
      ensures r.Ok? ==> Wrote(r, data, false) && Current().window == at && Supersedes(Current(), old(Current()))
      ensures !r.Ok? ==> SameRecord() && r.ErrFull?
      ensures r.ErrFull? <==> Overflows(old(Current()), at, |data|)
    {
      hide LogSize, EntrySize, NewestView, DecodeLegacy, LegacyOk, StoredLog;
      r := ErrPrecondition;
      at := clock;
      var attempt := 0;
      while attempt < 8 && r.ErrPrecondition?
        invariant Valid() && 0 <= attempt <= 8 && old(clock) <= at <= clock
        invariant attempt == 0 ==> r.ErrPrecondition?
        invariant attempt > 0 ==> !r.ErrPrecondition?
        invariant r.Ok? ==> Wrote(r, data, false) && Current().window == at && Supersedes(Current(), old(Current()))
        invariant !r.Ok? ==> SameRecord()
        invariant attempt > 0 ==> (r.ErrFull? <==> Overflows(old(Current()), at, |data|))
      {
        var seg := Latest();
        ViewFacts(logs, LegacyRecord(), clock);
        if !Live(seg) {
          r, at := ConditionalCreate(data, drawn);
        } else {
          r, at := CAS(data, Some(TokenOf(seg)), drawn);
        }
        attempt := attempt + 1;
      }
    }

    function ValueOf(v: View): seq<Byte>
    {
      match v case Absent => [] case InSegment(_, e, _) => e.value case InLegacy(l) => l.value
    }

    /** Touch: carry a live record into the current window without changing its value. */
    method Touch(drawn: Instance) returns (full: bool, ghost at: nat)
      requires Valid()
      requires Live(Current()) ==> |ValueOf(Current())| < TWO32
      modifies this
      ensures Valid() && old(clock) <= at <= clock
      ensures Live(Current()) == old(Live(Current())) && (Live(Current()) ==> ValueOf(Current()) == old(ValueOf(Current())))
      ensures old(Live(Current())) && !full ==> Current().InSegment? && Current().window >= at
      ensures Current() == old(Current()) || Supersedes(Current(), old(Current()))
      ensures full ==> SameRecord()
      ensures full <==> old(Live(Current()) && !(Current().InSegment? && Current().window >= at)
                            && SEG_OVERHEAD + |ValueOf(Current())| > max)
    {
      hide LogSize, EntrySize, NewestView, DecodeLegacy, LegacyOk, StoredLog;
      full := false;
      var seg := Latest();
      ViewFacts(logs, LegacyRecord(), clock);
      at := clock;
      if !Live(seg) { return; }
      var h := Window();
      at := h;
      if seg.InSegment? && seg.window >= h { return; }
      var r, _ := CAS(ValueOf(seg), Some(TokenOf(seg)), drawn);
      full := r.ErrFull?;
    }

    /** data.Delete of the legacy object, once a window segment holds the record. */
    method DropLegacy()
      requires Valid() && logs != map[]
      modifies this`legacyRaw
      ensures Valid() && legacyRaw == None && Current() == old(Current())
    {
      ViewFacts(logs, LegacyRecord(), clock);
      legacyRaw := None;
    }
  }

  /** The record has moved on: a later window, or a longer segment of the same one. */
  predicate Supersedes(v: View, was: View)
  {
    && v.InSegment?
    && (was.InSegment? ==> v.window > was.window || (v.window == was.window && v.length > was.length))
  }

  /** The token names a record this one came after. */
  predicate Spent(token: Token, v: View)
  {
    && v.InSegment?
    && (token.SegmentToken? ==> v.window > token.window || (v.window == token.window && v.length > token.length))
  }

  lemma SpentStays(token: Token, v: View, v': View)
    requires Spent(token, v) && (v' == v || Supersedes(v', v))
    ensures Spent(token, v') && !Names(v', token)
  {
  }

  datatype Call =
    | DoCreate(data: seq<Byte>, drawn: Instance)
    | DoCas(data: seq<Byte>, token: Option<Token>, drawn: Instance)
    | DoDelete(token: Option<Token>, drawn: Instance)
    | DoPut(data: seq<Byte>, drawn: Instance)
    | DoTouch(drawn: Instance)
    | DoGet

  predicate Framable(call: Call)
  {
    match call
    case DoCreate(data, _) => |data| < TWO32
    case DoCas(data, _, _) => |data| < TWO32
    case DoPut(data, _) => |data| < TWO32
    case _ => true
  }

  method Serve(a: Authority, call: Call)
    requires a.Valid() && Framable(call)
    modifies a
    ensures a.Valid() && (a.Current() == old(a.Current()) || Supersedes(a.Current(), old(a.Current())))
  {
    match call
    case DoCreate(data, drawn) => var _, _ := a.ConditionalCreate(data, drawn);
    case DoCas(data, token, drawn) => var _, _ := a.CAS(data, token, drawn);
    case DoDelete(token, drawn) => var _, _ := a.ConditionalDelete(token, drawn);
    case DoPut(data, drawn) => var _, _ := a.Put(data, drawn);
    case DoTouch(drawn) =>
      var v := a.Latest();
      if |a.ValueOf(v)| < TWO32 { var _, _ := a.Touch(drawn); }
    case DoGet => var _, _ := a.Get();
  }

  method ServeAll(a: Authority, calls: seq<Call>)
    requires a.Valid() && forall c <- calls :: Framable(c)
    modifies a
    ensures a.Valid() && (a.Current() == old(a.Current()) || Supersedes(a.Current(), old(a.Current())))
  {
    for i := 0 to |calls|
      invariant a.Valid() && (a.Current() == old(a.Current()) || Supersedes(a.Current(), old(a.Current())))
    {
      Serve(a, calls[i]);
    }
  }

  /**
   The fence over a whole run: after a CAS that won, and whatever calls follow it, the token it used
   never names the record again, and a second CAS with it is refused without effect while the token
   is at most two windows old.
   */
  method UsedTokenIsSpent(a: Authority, token: Option<Token>, data: seq<Byte>, calls: seq<Call>, again: seq<Byte>, drawn: Instance)
    returns (first: Result, second: Result, ghost met: View)
    requires a.Valid() && |data| < TWO32 && |again| < TWO32 && forall c <- calls :: Framable(c)
    modifies a
    ensures a.Valid()
    ensures first.Ok? ==> token.Some? && Spent(token.value, met) && !Names(met, token.value)
    ensures first.Ok? && a.Recent(token) ==> second.ErrPrecondition? && a.Current() == met
    ensures first.Ok? && calls == [] ==> met.InSegment? && met.entry.value == data && Names(met, first.token)
  {
    ghost var at;
    first, at := a.CAS(data, token, drawn);
    ghost var won := a.Current();
    if calls != [] { ServeAll(a, calls); }
    met := a.Current();
    if first.Ok? { SpentStays(token.value, won, met); }
    second, at := a.CAS(again, token, drawn);
  }

  /** What the acceptance of a token means for the record: the current one passes, a recent other does not. */
  lemma TokenVerdict(logs: Segments, legacy: Option<Legacy>, clock: nat, token: Option<Token>, h: nat, h2: nat)
    requires Windows(logs, clock) && clock <= h <= h2 && token.Some? && token.value.SegmentToken?
    ensures var v := NewestView(logs, legacy, clock + 1);
            && (Live(v) && Names(v, token.value) ==> Accepts(logs, token.value, h, h2))
            && (!(Live(v) && Names(v, token.value)) && token.value.window + 2 >= h2 ==> !Accepts(logs, token.value, h, h2))
  {
    hide LogSize;
    var v, t := NewestView(logs, legacy, clock + 1), token.value;
    ViewFacts(logs, legacy, clock);
    BoundIrrelevant(logs, clock + 1, h + 1);
    if Live(v) && Names(v, t) {
      CurrentTokenPasses(logs, t, h, h2);
    } else if t.window + 2 >= h2 && NewestBelow(logs, h + 1) > t.window {
      RecentStaleTokenRefused(logs, t, h, h2);
    }
  }

  lemma WindowSize(logs: Segments, w: int)
    ensures var v := ReadWindow(logs, w); LogSize(LogAt(logs, w)) == if v.InSegment? then v.length else 0
  {
  }
}
