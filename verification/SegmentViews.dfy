/** The stored form of one logical authority key (internal/bucket/segmented.go) and what a reader sees of it. */
module SegmentViews {
  import opened Bytes
  import opened Frames
  import opened Tokens

  /** A pre-segmentation record: its decoded value and the byte length its token carries. */
  datatype Legacy = Legacy(value: seq<Byte>, deleted: bool, length: nat)

  type Segments = map<int, seq<Entry>>

  /** The newest record a reader can see, with what its token names. */
  datatype View =
    | Absent
    | InSegment(window: int, entry: Entry, length: nat)
    | InLegacy(legacy: Legacy)

  function Last(log: seq<Entry>): Entry requires log != [] { log[|log| - 1] }

  function ReadWindow(segs: Segments, w: int): View
  {
    if w in segs && segs[w] != [] then InSegment(w, Last(segs[w]), LogSize(segs[w])) else Absent
  }

  function ReadLegacy(legacy: Option<Legacy>): View
  {
    if legacy.Some? then InLegacy(legacy.value) else Absent
  }

  predicate Live(v: View)
  {
    match v
    case Absent => false
    case InSegment(_, e, _) => !e.deleted
    case InLegacy(l) => !l.deleted
  }

  function TokenOf(v: View): Token
    requires !v.Absent? && (v.InSegment? ==> v.window >= 0)
  {
    match v
    case InSegment(w, e, n) => SegmentToken(w, e.instance, n)
    case InLegacy(l) => LegacyToken(l.length)
  }

  predicate Names(v: View, token: Token)
  {
    !v.Absent? && (v.InSegment? ==> v.window >= 0) && TokenOf(v) == token
  }

  /** The largest window present below a bound, or -1. */
  function NewestBelow(segs: Segments, bound: int): (w: int)
    ensures w == -1 || (w in segs && 0 <= w < bound)
    ensures forall x | x in segs && 0 <= x < bound :: x <= w
    decreases bound
  {
    if bound <= 0 then -1
    else if bound - 1 in segs then bound - 1
    else NewestBelow(segs, bound - 1)
  }

  /** The record an uninterrupted reader sees: the newest window below a bound, else the legacy object. */
  function NewestView(segs: Segments, legacy: Option<Legacy>, bound: int): View
  {
    var w := NewestBelow(segs, bound);
    if w >= 0 then ReadWindow(segs, w) else ReadLegacy(legacy)
  }
}
