/**
 SegmentedAuthority (internal/bucket/segmented.go) inside one time window, away from its boundary.

 Any number of clients run Get, ConditionalCreate, CAS and ConditionalDelete on one logical key.
 Every object read, list, append and delete is one atomic step, and the steps of different calls
 interleave freely; the garbage collection a call runs after its append is part of the run too.
 The window clock `h` stays put and no peer's clock is ahead, so nothing lives beyond window h.
 */
module SegmentedWindow {
  import opened Bytes
  import opened Frames
  import opened Tokens
  import opened SegmentViews

  /** The window, the byte cap of a segment, and what the bucket held when the run began. */
  datatype Config = Config(h: int, max: int, segs0: Segments, legacy0: Option<Legacy>)

  ghost predicate ConfigOk(c: Config)
  {
    && c.h >= 0
    && (forall w | w in c.segs0 :: 0 <= w <= c.h && c.segs0[w] != [])
    && (c.legacy0.Some? ==> c.legacy0.value.length > 0)
  }

  datatype Op =
    | Get
    | Create(data: seq<Byte>)
    | Cas(data: seq<Byte>, token: Token)
    | Delete(token: Token)

  /** Where a scan for the newest record stands: windows h, h-1, h-2, a listing, the legacy object. */
  datatype Scan = AtH | AtH1 | AtH2 | Listing | AtListed(window: int) | AtLegacy

  datatype Why = ForGet | ForCreate | ForMigration | ForRecheck

  /** The reads a CAS or delete makes with a segment token before it appends. */
  datatype Check = OwnWindow | ProbeH | ProbeH1 | CurrentH

  datatype Reply = Found(view: View) | NotFound | Written(token: Token) | Precondition | Full | Failed

  datatype Phase =
    | Scanning(scan: Scan, why: Why)
    | CheckingLegacy
    | Checking(check: Check)
    | Appending(pos: nat, reuse: Option<Instance>)
    | Cleaning(dropLegacy: bool, list: bool, victims: set<int>)
    | Done(reply: Reply)

  /**
   `basis` is the record or absence the call validated; `seen` how many writes had landed then or,
   until it validates one, when the call began.
   */
  datatype Call = Call(op: Op, phase: Phase, basis: View, seen: nat, landed: Option<Token>)

  datatype Landing = Landing(id: nat, op: Op, entry: Entry)

  datatype State = State(segs: Segments, legacy: Option<Legacy>, calls: map<nat, Call>, history: seq<Landing>)

  datatype Step =
    | Invoke(id: nat, op: Op)
    | Go(id: nat, drawn: Instance)           // the call's next read, list, append or legacy delete
    | Collect(id: nat, window: int, ok: bool) // one delete of its garbage collection; errors are ignored
    | Fault(id: nat)                          // its next object operation fails with a transport error
    | Abandon(id: nat)                        // the client dies, or loses the reply to its append

  function Init(c: Config): State { State(c.segs0, c.legacy0, map[], []) }

  // ------------------------------------------------------------------ reading

  /** The record an uninterrupted reader sees. */
  function Newest(c: Config, segs: Segments, legacy: Option<Legacy>): View
  {
    NewestView(segs, legacy, c.h + 1)
  }

  function Payload(op: Op): seq<Byte>
  {
    match op case Create(d) => d case Cas(d, _) => d case _ => []
  }

  // ------------------------------------------------------------------ the steps of the source

  function Finish(call: Call, reply: Reply): Call { call.(phase := Done(reply)) }

  /** The append a call issues, once it has validated `basis`. */
  function Prepare(c: Config, s: State, call: Call, basis: View, seen: nat): Call
  {
    var same := basis.InSegment? && basis.window == c.h;
    call.(phase := Appending(if same then basis.length else 0, if same then Some(basis.entry.instance) else None),
          basis := basis, seen := seen)
  }

  /** After its append a call may re-read the record before it cleans up. */
  function Landed(c: Config, call: Call, basis: View, token: Token): Call
  {
    var call' := call.(landed := Some(token));
    if !call.op.Create? && basis.InSegment? && basis.window == c.h then
      call'.(phase := Cleaning(false, false, {c.h - 2, c.h - 3, c.h - 4}))
    else call'.(phase := Scanning(AtH, ForRecheck))
  }

  /** The outcome of a scan: the segment found, or that there is none. */
  function Concluded(c: Config, s: State, call: Call, v: View, seen: nat, why: Why): Call
  {
    match why
    case ForGet => Finish(call, if Live(v) then Found(v) else NotFound)
    case ForCreate => if Live(v) then Finish(call, Precondition) else Prepare(c, s, call, v, seen)
    case ForMigration =>
      if v.Absent? then Prepare(c, s, call, call.basis, seen) else Finish(call, Precondition)
    case ForRecheck =>
      if v.Absent? || call.landed.None? then Finish(call, if call.op.Create? then Failed else Precondition)
      else
        var mine := v.InSegment? && v.window == c.h
                    && (call.op.Create? ==> v.length == call.landed.value.length)
                    && (call.op.Delete? ==> v.entry.deleted);
        if !mine then Finish(call, Precondition)
        else
          var fromLegacy := call.basis.InLegacy?;
          if call.op.Delete? && fromLegacy then
            call.(phase := Cleaning(true, false, {c.h - 2, c.h - 3, c.h - 4}))
          else call.(phase := Cleaning(fromLegacy, true, {}))
  }

  function Scanned(c: Config, s: State, call: Call, scan: Scan, why: Why): Call
  {
    var now := |s.history|;
    match scan
    case AtH =>
      var v := ReadWindow(s.segs, c.h);
      if !v.Absent? then Concluded(c, s, call, v, now, why) else call.(phase := Scanning(AtH1, why))
    case AtH1 =>
      var v := ReadWindow(s.segs, c.h - 1);
      if !v.Absent? then Concluded(c, s, call, v, 0, why) else call.(phase := Scanning(AtH2, why))
    case AtH2 =>
      var v := ReadWindow(s.segs, c.h - 2);
      if !v.Absent? then Concluded(c, s, call, v, 0, why) else call.(phase := Scanning(Listing, why))
    case Listing =>
      var w := NewestBelow(s.segs, c.h + 1);
      if w >= 0 then call.(phase := Scanning(AtListed(w), why)) else NoWindow(c, s, call, why)
    case AtListed(w) =>
      // a window collected since the listing reads as not found
      var v := ReadWindow(s.segs, w);
      if !v.Absent? then Concluded(c, s, call, v, if w == c.h then now else 0, why) else NoWindow(c, s, call, why)
    case AtLegacy => Concluded(c, s, call, ReadLegacy(s.legacy), 0, why)
  }

  /** newestWindow found nothing: latest turns to the legacy object, a migration goes ahead. */
  function NoWindow(c: Config, s: State, call: Call, why: Why): Call
  {
    if why == ForMigration then Concluded(c, s, call, Absent, 0, why) else call.(phase := Scanning(AtLegacy, why))
  }

  /** The reads of a CAS or delete whose token names a segment; higherSegment probes h, then h-1. */
  function Checked(c: Config, s: State, call: Call, check: Check, token: Token): Call
    requires token.SegmentToken?
  {
    var w := token.window;
    match check
    case OwnWindow =>
      var v := ReadWindow(s.segs, w);
      if v.Absent? || !Names(v, token) || !Live(v) then Finish(call, Precondition)
      else if w >= c.h then Prepare(c, s, call, v, |s.history|)
      else call.(phase := Checking(ProbeH), basis := v)
    case ProbeH =>
      if !ReadWindow(s.segs, c.h).Absent? then Finish(call, Precondition)
      else call.(phase := Checking(if w < c.h - 1 then ProbeH1 else CurrentH))
    case ProbeH1 =>
      if !ReadWindow(s.segs, c.h - 1).Absent? then Finish(call, Precondition)
      else call.(phase := Checking(CurrentH))
    case CurrentH =>
      if !ReadWindow(s.segs, c.h).Absent? then Finish(call, Precondition)
      else Prepare(c, s, call, call.basis, 0)
  }

  function EntryOf(op: Op, instance: Instance): Entry { Entry(Payload(op), op.Delete?, instance) }

  function Appended(c: Config, s: State, id: nat, pos: nat, reuse: Option<Instance>, drawn: Instance): State
    requires id in s.calls
  {
    var call := s.calls[id];
    var e := EntryOf(call.op, if reuse.Some? then reuse.value else drawn);
    var log := if c.h in s.segs then s.segs[c.h] else [];
    if pos + EntrySize(e) > c.max then s.(calls := s.calls[id := Finish(call, Full)])
    else if LogSize(log) != pos || c.h < 0 then s.(calls := s.calls[id := Finish(call, Precondition)])
    else s.(segs := s.segs[c.h := log + [e]],
            history := s.history + [Landing(id, call.op, e)],
            calls := s.calls[id := Landed(c, call, call.basis, SegmentToken(c.h, e.instance, pos + EntrySize(e)))])
  }

  function Cleaned(c: Config, s: State, id: nat, dropLegacy: bool, list: bool, victims: set<int>): State
    requires id in s.calls
  {
    var call := s.calls[id];
    if dropLegacy then
      s.(legacy := None, calls := s.calls[id := call.(phase := Cleaning(false, list, victims))])
    else if list then
      var stale := set w | w in s.segs && w < c.h - 1;
      s.(calls := s.calls[id := call.(phase := Cleaning(false, false, stale))])
    else if victims == {} && call.landed.Some? then
      s.(calls := s.calls[id := Finish(call, Written(call.landed.value))])
    else s
  }

  function Going(c: Config, s: State, id: nat, drawn: Instance): State
    requires id in s.calls
  {
    var call := s.calls[id];
    match call.phase
    case Scanning(scan, why) => s.(calls := s.calls[id := Scanned(c, s, call, scan, why)])
    case CheckingLegacy =>
      var v := ReadLegacy(s.legacy);
      var next := if !(call.op.Cas? || call.op.Delete?) || !Live(v) || !Names(v, call.op.token) then Finish(call, Precondition)
                  else call.(phase := Scanning(AtH, ForMigration), basis := v);
      s.(calls := s.calls[id := next])
    case Checking(check) =>
      if (call.op.Cas? || call.op.Delete?) && call.op.token.SegmentToken?
      then s.(calls := s.calls[id := Checked(c, s, call, check, call.op.token)]) else s
    case Appending(pos, reuse) => Appended(c, s, id, pos, reuse, drawn)
    case Cleaning(dropLegacy, list, victims) => Cleaned(c, s, id, dropLegacy, list, victims)
    case Done(_) => s
  }

  function Started(op: Op, now: nat): Call
  {
    var phase := match op
      case Get => Scanning(AtH, ForGet)
      case Create(_) => Scanning(AtH, ForCreate)
      case Cas(_, t) => if t.LegacyToken? then CheckingLegacy else Checking(OwnWindow)
      case Delete(t) => if t.LegacyToken? then CheckingLegacy else Checking(OwnWindow);
    Call(op, phase, Absent, now, None)
  }

  /** What an operation does with an error: cleaning up ignores it, a re-check takes it for contention. */
  function Faulted(call: Call): Call
  {
    match call.phase
    case Done(_) => call
    case Cleaning(dropLegacy, list, victims) => call.(phase := Cleaning(false, list && dropLegacy, victims))
    case Scanning(_, why) => Finish(call, if why == ForRecheck && !call.op.Create? then Precondition else Failed)
    case _ => Finish(call, Failed)
  }

  function Collected(s: State, id: nat, window: int, ok: bool): State
    requires id in s.calls
  {
    var call := s.calls[id];
    if call.phase.Cleaning? && window in call.phase.victims then
      s.(segs := if ok then s.segs - {window} else s.segs,
         calls := s.calls[id := call.(phase := call.phase.(victims := call.phase.victims - {window}))])
    else s
  }

  function Apply(c: Config, s: State, step: Step): State
  {
    match step
    case Invoke(id, op) => if id in s.calls then s else s.(calls := s.calls[id := Started(op, |s.history|)])
    case Go(id, drawn) => if id in s.calls then Going(c, s, id, drawn) else s
    case Collect(id, w, ok) => if id in s.calls then Collected(s, id, w, ok) else s
    case Fault(id) => if id in s.calls then s.(calls := s.calls[id := Faulted(s.calls[id])]) else s
    case Abandon(id) =>
      if id in s.calls && !s.calls[id].phase.Done? then s.(calls := s.calls[id := Finish(s.calls[id], Failed)]) else s
  }

  function Run(c: Config, steps: seq<Step>): State
  {
    if steps == [] then Init(c) else Apply(c, Run(c, steps[..|steps| - 1]), steps[|steps| - 1])
  }

  // ------------------------------------------------------------------ the record the writes describe

  function After(c: Config, v: View, l: Landing): View
  {
    var base := if v.InSegment? && v.window == c.h then v.length else 0;
    InSegment(c.h, l.entry, base + EntrySize(l.entry))
  }

  /** The newest record after the first n writes of the run. */
  function Replay(c: Config, history: seq<Landing>, n: nat): View
    requires n <= |history|
  {
    if n == 0 then Newest(c, c.segs0, c.legacy0) else After(c, Replay(c, history, n - 1), history[n - 1])
  }

  /** What an operation must have found to be entitled to write. */
  predicate Entitled(v: View, op: Op)
  {
    match op
    case Get => false
    case Create(_) => !Live(v)
    case Cas(_, t) => Live(v) && Names(v, t)
    case Delete(t) => Live(v) && Names(v, t)
  }

  ghost predicate Legal(c: Config, history: seq<Landing>)
  {
    forall i | 0 <= i < |history| :: Justified(c, history, i)
  }

  /** The i-th write was entitled by the record it found, and wrote a tombstone iff it was a delete. */
  ghost predicate Justified(c: Config, history: seq<Landing>, i: nat)
    requires i < |history|
  {
    Entitled(Replay(c, history, i), history[i].op) && history[i].entry.deleted == history[i].op.Delete?
  }

  /** Tokens the caller may hold: none that was already superseded before the last two windows. */
  predicate StepOk(c: Config, step: Step)
  {
    step.Invoke? && (step.op.Cas? || step.op.Delete?) && step.op.token.SegmentToken? ==>
      forall w | w in c.segs0 && w > step.op.token.window :: w >= c.h - 1
  }

  // ------------------------------------------------------------------ what every step keeps

  /** Nothing below h changes before the first write lands in h; nothing in h is ever removed. */
  ghost predicate StoreOk(c: Config, s: State)
  {
    && (forall w | w in s.segs :: 0 <= w <= c.h && s.segs[w] != [])
    && (forall w | w in s.segs && w < c.h :: w in c.segs0 && s.segs[w] == c.segs0[w])
    && (c.h - 1 in c.segs0 ==> c.h - 1 in s.segs)
    && (c.h in c.segs0 ==> c.h in s.segs)
    && (c.h !in s.segs ==> s.segs == c.segs0 && s.legacy == c.legacy0 && s.history == [])
    && (s.legacy.Some? ==> s.legacy == c.legacy0)
    && (c.h in s.segs && c.h !in c.segs0 ==> s.history != [])
    && (c.h in s.segs ==> Replay(c, s.history, |s.history|) == ReadWindow(s.segs, c.h))
  }

  /** What a scan knows at each stage, whatever happened meanwhile. */
  ghost predicate ScanOk(c: Config, s: State, scan: Scan)
  {
    match scan
    case AtH => true
    case AtH1 => c.h !in c.segs0
    case AtH2 => c.h !in c.segs0 && c.h - 1 !in c.segs0
    case Listing => c.h !in c.segs0 && c.h - 1 !in c.segs0 && (c.h in s.segs || c.h - 2 !in c.segs0)
    case AtListed(w) =>
      && c.h !in c.segs0
      && (w == c.h ==> c.h in s.segs)
      && (w != c.h ==> w == NewestBelow(c.segs0, c.h + 1) && 0 <= w < c.h - 2)
    case AtLegacy => c.h !in c.segs0 && Unlisted(c, s)
  }

  /** A scan that turns to the legacy object saw no window, or one collected before it was read. */
  ghost predicate Unlisted(c: Config, s: State)
  {
    var w := NewestBelow(c.segs0, c.h + 1);
    w >= 0 ==> c.h in s.segs && w !in s.segs && w < c.h - 2
  }

  ghost predicate CheckOk(c: Config, s: State, call: Call, check: Check, token: Token)
    requires token.SegmentToken?
  {
    var w := token.window;
    && (forall x | x in c.segs0 && x > w :: x >= c.h - 1)
    && (check != OwnWindow ==>
          && w < c.h && w in c.segs0 && call.basis == ReadWindow(c.segs0, w)
          && Entitled(call.basis, call.op))
    && (check == ProbeH1 || check == CurrentH ==> c.h !in c.segs0)
    && (check == CurrentH ==> w == c.h - 1 || c.h - 1 !in c.segs0)
  }

  /** A validated basis: the newest record now or, failing that, when window h had none. */
  ghost predicate BasisOk(c: Config, s: State, call: Call, pos: nat)
  {
    && Entitled(call.basis, call.op)
    && if pos == 0 then
         c.h in s.segs || call.basis == Newest(c, c.segs0, c.legacy0)
       else
         && call.seen <= |s.history| && Replay(c, s.history, call.seen) == call.basis
         && call.basis.InSegment? && call.basis.window == c.h && call.basis.length == pos
  }

  predicate InH(c: Config, v: View) { v.InSegment? && v.window == c.h }

  predicate HasId(history: seq<Landing>, id: nat)
  {
    exists i | 0 <= i < |history| :: history[i].id == id
  }

  ghost predicate CallOk(c: Config, s: State, id: nat)
    requires id in s.calls
  {
    var call := s.calls[id];
    && (call.landed.Some? <==> HasId(s.history, id))
    && (call.landed.Some? ==> c.h in s.segs)
    && match call.phase
       case Scanning(scan, why) =>
         && ScanOk(c, s, scan)
         && (why == ForRecheck <==> call.landed.Some?)
         && (why == ForRecheck ==> scan == AtH && (call.op.Create? || !InH(c, call.basis)))
         && (why == ForGet <==> call.op.Get?)
         && (why == ForGet ==> call.seen <= |s.history| && (scan != AtH ==> call.seen == 0))
         && (why == ForCreate ==> call.op.Create?)
         && (why == ForMigration ==> call.basis == ReadLegacy(c.legacy0) && Entitled(call.basis, call.op))
       case CheckingLegacy => call.landed.None?
       case Checking(check) =>
         && call.landed.None? && (call.op.Cas? || call.op.Delete?) && call.op.token.SegmentToken?
         && CheckOk(c, s, call, check, call.op.token)
       case Appending(pos, _) => call.landed.None? && BasisOk(c, s, call, pos)
       case Cleaning(_, _, victims) => call.landed.Some? && (forall w | w in victims :: w < c.h - 1)
       case Done(reply) =>
         && (reply.Written? ==> call.landed == Some(reply.token))
         && (reply.Full? || reply.Found? || reply.NotFound? ==> call.landed.None?)
  }

  ghost predicate Inv(c: Config, s: State)
  {
    && StoreOk(c, s)
    && Legal(c, s.history)
    && (forall id | id in s.calls :: CallOk(c, s, id))
    && (forall i | 0 <= i < |s.history| :: s.history[i].id in s.calls)
    && (forall i, j | 0 <= i < j < |s.history| :: s.history[i].id != s.history[j].id)
  }

  lemma {:induction false} ReplayExtends(c: Config, history: seq<Landing>, more: seq<Landing>, n: nat)
    requires n <= |history|
    ensures Replay(c, history + more, n) == Replay(c, history, n)
  {
    if n > 0 {
      ReplayExtends(c, history, more, n - 1);
      assert (history + more)[n - 1] == history[n - 1];
    }
  }

  /** Once a write has landed the record is in window h, and each further write makes it longer. */
  lemma {:induction false} LengthsGrow(c: Config, history: seq<Landing>, i: nat, j: nat)
    requires i <= j <= |history|
    requires Replay(c, history, i).InSegment? && Replay(c, history, i).window == c.h
    ensures Replay(c, history, j).InSegment? && Replay(c, history, j).window == c.h
    ensures Replay(c, history, i).length + SEG_OVERHEAD * (j - i) <= Replay(c, history, j).length
    decreases j
  {
    if i < j { LengthsGrow(c, history, i, j - 1); }
  }

  lemma HasIdExtends(history: seq<Landing>, l: Landing, id: nat)
    ensures HasId(history + [l], id) <==> HasId(history, id) || l.id == id
  {
    var all := history + [l];
    if HasId(history, id) {
      var i :| 0 <= i < |history| && history[i].id == id;
      assert all[i].id == id;
    }
    if l.id == id { assert all[|history|].id == id; }
  }

  /** A call that does not move keeps what it knows: the store only moves forward. */
  lemma CallOkMono(c: Config, s: State, s': State, id: nat, more: seq<Landing>)
    requires id in s.calls && id in s'.calls && s'.calls[id] == s.calls[id] && CallOk(c, s, id)
    requires s'.history == s.history + more && (HasId(s'.history, id) <==> HasId(s.history, id))
    requires (c.h in s.segs ==> c.h in s'.segs) && forall w | w in s'.segs :: w == c.h || w in s.segs
    ensures CallOk(c, s', id)
  {
    hide Replay, HasId, Newest, ReadWindow, ReadLegacy, Entitled;
    var call := s.calls[id];
    if call.phase.Appending? && call.phase.pos != 0 { ReplayExtends(c, s.history, more, call.seen); }
  }

  lemma OthersKeep(c: Config, s: State, s': State, id: nat)
    requires forall k | k in s.calls :: CallOk(c, s, k)
    requires s'.history == s.history && (c.h in s.segs ==> c.h in s'.segs)
    requires forall w | w in s'.segs :: w == c.h || w in s.segs
    requires id in s'.calls && s'.calls == s.calls[id := s'.calls[id]] && CallOk(c, s', id)
    ensures forall k | k in s'.calls :: CallOk(c, s', k)
  {
    hide CallOk;
    forall k | k in s'.calls ensures CallOk(c, s', k) {
      if k != id {
        assert s'.history == s.history + [];
        CallOkMono(c, s, s', k, []);
      }
    }
  }

  // ------------------------------------------------------------------ scans

  /** Where the newest record is when window h and perhaps h-1 are empty. */
  lemma NewestAt(c: Config, segs: Segments, legacy: Option<Legacy>, w: int)
    requires c.h >= 0 && (forall x | x in segs :: 0 <= x <= c.h && segs[x] != [])
    requires w in segs && (forall x | w < x <= c.h :: x !in segs)
    ensures Newest(c, segs, legacy) == ReadWindow(segs, w)
  {
  }

  /** What a scan may conclude: the record in window h now, or the one that preceded window h. */
  ghost predicate Sound(c: Config, s: State, v: View, seen: nat)
  {
    if v.InSegment? && v.window == c.h then
      seen == |s.history| && v == ReadWindow(s.segs, c.h)
    else
      c.h in s.segs || v == Newest(c, c.segs0, c.legacy0)
  }

  lemma PrepareOk(c: Config, s: State, call: Call, v: View, seen: nat)
    requires StoreOk(c, s) && Sound(c, s, v, seen) && Entitled(v, call.op)
    ensures var call' := Prepare(c, s, call, v, seen); BasisOk(c, s, call', call'.phase.pos)
  {
    hide Replay, Newest, Entitled, EntrySize;
    if v.InSegment? && v.window == c.h {
      assert v.length >= SEG_OVERHEAD;
    }
  }

  lemma ConcludedOk(c: Config, s: State, id: nat, v: View, seen: nat, why: Why)
    requires StoreOk(c, s) && id in s.calls && CallOk(c, s, id) && s.calls[id].phase.Scanning? && s.calls[id].phase.why == why
    requires v.Absent? && why == ForMigration ==> Sound(c, s, s.calls[id].basis, seen)
    requires why != ForMigration ==> Sound(c, s, v, seen)
    ensures var s' := s.(calls := s.calls[id := Concluded(c, s, s.calls[id], v, seen, why)]); CallOk(c, s', id)
  {
    hide Replay, Newest, HasId, ReadWindow, StoreOk;
    var call := s.calls[id];
    if why == ForCreate && !Live(v) { PrepareOk(c, s, call, v, seen); }
    if why == ForMigration && v.Absent? { PrepareOk(c, s, call, call.basis, seen); }
  }

  lemma NoWindowOk(c: Config, s: State, id: nat, why: Why)
    requires StoreOk(c, s) && id in s.calls && CallOk(c, s, id) && s.calls[id].phase.Scanning? && s.calls[id].phase.why == why
    requires c.h !in c.segs0 && Unlisted(c, s) && why != ForRecheck && (why == ForGet ==> s.calls[id].seen == 0)
    ensures var s' := s.(calls := s.calls[id := NoWindow(c, s, s.calls[id], why)]); CallOk(c, s', id)
  {
    hide Replay, HasId, StoreOk, Concluded, Entitled;
    if why == ForMigration { ConcludedOk(c, s, id, Absent, 0, why); }
  }

  lemma ScannedOk(c: Config, s: State, id: nat)
    requires ConfigOk(c) && StoreOk(c, s) && id in s.calls && CallOk(c, s, id) && s.calls[id].phase.Scanning?
    ensures var call := s.calls[id];
            var s' := s.(calls := s.calls[id := Scanned(c, s, call, call.phase.scan, call.phase.why)]); CallOk(c, s', id)
  {
    hide Replay, HasId, Concluded, NoWindow, Entitled, LogSize, Names;
    var call, now := s.calls[id], |s.history|;
    var scan, why := call.phase.scan, call.phase.why;
    match scan
    case AtH =>
      var v := ReadWindow(s.segs, c.h);
      if !v.Absent? { ConcludedOk(c, s, id, v, now, why); }
    case AtH1 =>
      var v := ReadWindow(s.segs, c.h - 1);
      if !v.Absent? {
        NewestAt(c, c.segs0, c.legacy0, c.h - 1);
        ConcludedOk(c, s, id, v, 0, why);
      }
    case AtH2 =>
      var v := ReadWindow(s.segs, c.h - 2);
      if !v.Absent? {
        NewestAt(c, c.segs0, c.legacy0, c.h - 2);
        ConcludedOk(c, s, id, v, 0, why);
      }
    case Listing =>
      if NewestBelow(s.segs, c.h + 1) < 0 { NoWindowOk(c, s, id, why); }
    case AtListed(w) =>
      var v := ReadWindow(s.segs, w);
      if v.Absent? { NoWindowOk(c, s, id, why); }
      else { ConcludedOk(c, s, id, v, if w == c.h then now else 0, why); }
    case AtLegacy =>
      ConcludedOk(c, s, id, ReadLegacy(s.legacy), 0, why);
  }

  // ------------------------------------------------------------------ token checks

  lemma CheckedOk(c: Config, s: State, id: nat)
    requires ConfigOk(c) && StoreOk(c, s) && id in s.calls && CallOk(c, s, id) && s.calls[id].phase.Checking?
    ensures var call := s.calls[id];
            var s' := s.(calls := s.calls[id := Checked(c, s, call, call.phase.check, call.op.token)]); CallOk(c, s', id)
  {
    hide Replay, HasId, LogSize;
    var call := s.calls[id];
    var check, token := call.phase.check, call.op.token;
    var w := token.window;
    match check
    case OwnWindow =>
      var v := ReadWindow(s.segs, w);
      if !v.Absent? && Names(v, token) && Live(v) && w >= c.h { PrepareOk(c, s, call, v, |s.history|); }
    case ProbeH =>
    case ProbeH1 =>
    case CurrentH =>
      if ReadWindow(s.segs, c.h).Absent? {
        NewestAt(c, c.segs0, c.legacy0, w);
        PrepareOk(c, s, call, call.basis, 0);
      }
  }

  lemma GoKeepsNoLanding(c: Config, s: State, id: nat, drawn: Instance)
    requires ConfigOk(c) && Inv(c, s) && id in s.calls && !s.calls[id].phase.Appending? && !s.calls[id].phase.Cleaning?
    ensures Inv(c, Going(c, s, id, drawn))
  {
    hide Replay, HasId, StoreOk, Legal, Scanned, Checked;
    var call, s' := s.calls[id], Going(c, s, id, drawn);
    assert CallOk(c, s, id);
    match call.phase
    case Scanning(scan, why) => ScannedOk(c, s, id); SameStore(c, s, s'); OthersKeep(c, s, s', id);
    case Checking(check) => CheckedOk(c, s, id); SameStore(c, s, s'); OthersKeep(c, s, s', id);
    case CheckingLegacy => LegacyCheckedOk(c, s, id, drawn); SameStore(c, s, s'); OthersKeep(c, s, s', id);
    case Done(_) =>
  }

  lemma LegacyCheckedOk(c: Config, s: State, id: nat, drawn: Instance)
    requires StoreOk(c, s) && id in s.calls && CallOk(c, s, id) && s.calls[id].phase.CheckingLegacy?
    ensures CallOk(c, Going(c, s, id, drawn), id)
  {
    hide Replay, HasId;
  }

  lemma SameStore(c: Config, s: State, s': State)
    requires StoreOk(c, s) && Legal(c, s.history)
    requires s'.segs == s.segs && s'.legacy == s.legacy && s'.history == s.history
    ensures StoreOk(c, s') && Legal(c, s'.history)
  {
    hide Replay, Legal;
  }

  // ------------------------------------------------------------------ landing and cleaning up

  /** The append is accepted only on top of what its caller validated. */
  lemma LandsOnBasis(c: Config, s: State, id: nat)
    requires ConfigOk(c) && StoreOk(c, s) && id in s.calls && CallOk(c, s, id) && s.calls[id].phase.Appending?
    requires LogSize(if c.h in s.segs then s.segs[c.h] else []) == s.calls[id].phase.pos
    ensures Replay(c, s.history, |s.history|) == s.calls[id].basis == Newest(c, s.segs, s.legacy)
    ensures Entitled(s.calls[id].basis, s.calls[id].op)
  {
    hide HasId, Entitled, EntrySize;
    var call := s.calls[id];
    if c.h in s.segs {
      assert LogSize(s.segs[c.h]) >= SEG_OVERHEAD;
      LengthsGrow(c, s.history, call.seen, |s.history|);
      NewestAt(c, s.segs, s.legacy, c.h);
    } else {
      assert call.phase.pos == 0;
    }
  }

  lemma LegalExtends(c: Config, history: seq<Landing>, l: Landing)
    requires Legal(c, history) && Entitled(Replay(c, history, |history|), l.op) && l.entry.deleted == l.op.Delete?
    ensures Legal(c, history + [l])
  {
    hide Entitled, Replay;
    var all := history + [l];
    forall i | 0 <= i < |all| ensures Justified(c, all, i) {
      ReplayExtends(c, history, [l], i);
      if i < |history| { assert Justified(c, history, i) && all[i] == history[i]; }
    }
  }

  predicate Accepts(c: Config, s: State, id: nat, drawn: Instance)
    requires id in s.calls && s.calls[id].phase.Appending?
  {
    var call := s.calls[id];
    var reuse := call.phase.reuse;
    var e := EntryOf(call.op, if reuse.Some? then reuse.value else drawn);
    && call.phase.pos + EntrySize(e) <= c.max
    && LogSize(if c.h in s.segs then s.segs[c.h] else []) == call.phase.pos
  }

  lemma RefusedKeeps(c: Config, s: State, id: nat, drawn: Instance)
    requires ConfigOk(c) && Inv(c, s) && id in s.calls && s.calls[id].phase.Appending? && !Accepts(c, s, id, drawn)
    ensures Inv(c, Going(c, s, id, drawn))
  {
    hide Replay, HasId, StoreOk, Legal, LogSize, EntrySize, EntryOf;
    var s' := Going(c, s, id, drawn);
    assert CallOk(c, s, id);
    SameStore(c, s, s');
    OthersKeep(c, s, s', id);
  }

  lemma AcceptedStore(c: Config, s: State, id: nat, drawn: Instance)
    requires ConfigOk(c) && Inv(c, s) && id in s.calls && s.calls[id].phase.Appending? && Accepts(c, s, id, drawn)
    ensures var s', call := Going(c, s, id, drawn), s.calls[id];
            && StoreOk(c, s') && Legal(c, s'.history)
            && |s'.history| == |s.history| + 1 && s'.history[..|s.history|] == s.history
            && s'.history[|s.history|].id == id && s'.history[|s.history|].op == call.op
            && s'.calls == s.calls[id := s'.calls[id]] && c.h in s'.segs
            && s'.calls[id].landed.Some? && s'.calls[id].op == call.op
  {
    var call, s' := s.calls[id], Going(c, s, id, drawn);
    assert CallOk(c, s, id);
    LandsOnBasis(c, s, id);
    var l := s'.history[|s.history|];
    LegalExtends(c, s.history, l);
    hide HasId, Entitled, Legal, CallOk;
    ReplayExtends(c, s.history, [l], |s.history|);
    LandedView(c, s, s', l);
  }

  lemma LandedView(c: Config, s: State, s': State, l: Landing)
    requires ConfigOk(c) && StoreOk(c, s) && c.h >= 0
    requires s'.history == s.history + [l]
    requires s'.segs == s.segs[c.h := (if c.h in s.segs then s.segs[c.h] else []) + [l.entry]] && s'.legacy == s.legacy
    requires Replay(c, s'.history, |s.history|) == Replay(c, s.history, |s.history|) == Newest(c, s.segs, s.legacy)
    ensures StoreOk(c, s')
  {
    hide EntrySize, NewestBelow, Newest;
    var log, n := if c.h in s.segs then s.segs[c.h] else [], |s.history|;
    NewestNotAhead(c, s.segs, s.legacy);
    var v := Replay(c, s.history, n);
    assert (if v.InSegment? && v.window == c.h then v.length else 0) == LogSize(log);
    assert (log + [l.entry])[..|log|] == log;
    assert s'.history[n] == l && |s'.history| == n + 1;
    assert Replay(c, s'.history, n + 1) == ReadWindow(s'.segs, c.h);
    hide Replay, ReadWindow;
  }

  lemma NewestNotAhead(c: Config, segs: Segments, legacy: Option<Legacy>)
    ensures var v := Newest(c, segs, legacy); v.InSegment? && v.window == c.h ==> c.h in segs
  {
  }

  lemma AcceptedCalls(c: Config, s: State, id: nat, drawn: Instance, k: nat)
    requires ConfigOk(c) && Inv(c, s) && id in s.calls && s.calls[id].phase.Appending? && Accepts(c, s, id, drawn)
    requires k in Going(c, s, id, drawn).calls
    ensures CallOk(c, Going(c, s, id, drawn), k)
  {
    hide Replay, Legal, LogSize, EntrySize, StoreOk;
    var s' := Going(c, s, id, drawn);
    AcceptedStore(c, s, id, drawn);
    var l := s'.history[|s.history|];
    assert s'.history == s.history + [l];
    assert CallOk(c, s, id);
    HasIdExtends(s.history, l, k);
    if k != id {
      assert CallOk(c, s, k);
      CallOkMono(c, s, s', k, [l]);
    }
  }

  lemma AcceptedKeeps(c: Config, s: State, id: nat, drawn: Instance)
    requires ConfigOk(c) && Inv(c, s) && id in s.calls && s.calls[id].phase.Appending? && Accepts(c, s, id, drawn)
    ensures Inv(c, Going(c, s, id, drawn))
  {
    hide Legal, StoreOk, HasId;
    var s' := Going(c, s, id, drawn);
    AcceptedStore(c, s, id, drawn);
    forall k | k in s'.calls ensures CallOk(c, s', k) { AcceptedCalls(c, s, id, drawn, k); }
    assert CallOk(c, s, id);
    NewIdDistinct(s.history, s'.history);
    hide Going, CallOk;
  }

  lemma NewIdDistinct(history: seq<Landing>, all: seq<Landing>)
    requires |all| == |history| + 1 && all[..|history|] == history && !HasId(history, all[|history|].id)
    requires forall i, j | 0 <= i < j < |history| :: history[i].id != history[j].id
    ensures forall i, j | 0 <= i < j < |all| :: all[i].id != all[j].id
    ensures forall i | 0 <= i < |all| :: i < |history| ==> all[i] == history[i]
  {
    assert forall i | 0 <= i < |history| :: all[i] == all[..|history|][i];
  }

  lemma ShrunkStore(c: Config, s: State, s': State)
    requires StoreOk(c, s) && c.h in s.segs && s'.history == s.history && (s'.legacy == s.legacy || s'.legacy == None)
    requires forall w | w in s'.segs :: w in s.segs && s'.segs[w] == s.segs[w]
    requires forall w | w in s.segs && w !in s'.segs :: w < c.h - 1
    ensures StoreOk(c, s')
  {
    hide Replay;
    assert c.h in s'.segs;
  }

  lemma CleanKeeps(c: Config, s: State, id: nat, drawn: Instance)
    requires ConfigOk(c) && Inv(c, s) && id in s.calls && s.calls[id].phase.Cleaning?
    ensures Inv(c, Going(c, s, id, drawn))
  {
    hide Replay, HasId, StoreOk, Legal;
    var s' := Going(c, s, id, drawn);
    assert CallOk(c, s, id);
    ShrunkStore(c, s, s');
    OthersKeep(c, s, s', id);
  }

  lemma CollectKeeps(c: Config, s: State, id: nat, w: int, ok: bool)
    requires ConfigOk(c) && Inv(c, s) && id in s.calls
    ensures Inv(c, Collected(s, id, w, ok))
  {
    hide Replay, HasId, StoreOk, Legal;
    var s' := Collected(s, id, w, ok);
    assert CallOk(c, s, id);
    if s.calls[id].phase.Cleaning? && w in s.calls[id].phase.victims {
      ShrunkStore(c, s, s');
      OthersKeep(c, s, s', id);
    }
  }

  lemma StartKeeps(c: Config, s: State, id: nat, op: Op)
    requires ConfigOk(c) && Inv(c, s) && id !in s.calls && StepOk(c, Invoke(id, op))
    ensures Inv(c, s.(calls := s.calls[id := Started(op, |s.history|)]))
  {
    hide Replay, StoreOk, Legal;
    var s' := s.(calls := s.calls[id := Started(op, |s.history|)]);
    SameStore(c, s, s');
    OthersKeep(c, s, s', id);
  }

  lemma FaultKeeps(c: Config, s: State, id: nat, call: Call)
    requires ConfigOk(c) && Inv(c, s) && id in s.calls
    requires call == Finish(s.calls[id], Failed) || call == Faulted(s.calls[id])
    ensures Inv(c, s.(calls := s.calls[id := call]))
  {
    hide Replay, StoreOk, Legal, HasId;
    var s' := s.(calls := s.calls[id := call]);
    assert CallOk(c, s, id);
    SameStore(c, s, s');
    OthersKeep(c, s, s', id);
  }

  lemma ApplyKeeps(c: Config, s: State, step: Step)
    requires ConfigOk(c) && Inv(c, s) && StepOk(c, step)
    ensures Inv(c, Apply(c, s, step))
  {
    hide Inv, Going, Collected, StepOk;
    match step
    case Invoke(id, op) => if id !in s.calls { StartKeeps(c, s, id, op); }
    case Go(id, drawn) =>
      if id in s.calls {
        match s.calls[id].phase
        case Appending(_, _) =>
          if Accepts(c, s, id, drawn) { AcceptedKeeps(c, s, id, drawn); } else { RefusedKeeps(c, s, id, drawn); }
        case Cleaning(_, _, _) => CleanKeeps(c, s, id, drawn);
        case _ => GoKeepsNoLanding(c, s, id, drawn);
      }
    case Collect(id, w, ok) => if id in s.calls { CollectKeeps(c, s, id, w, ok); }
    case Fault(id) => if id in s.calls { FaultKeeps(c, s, id, Faulted(s.calls[id])); }
    case Abandon(id) => if id in s.calls { FaultKeeps(c, s, id, Finish(s.calls[id], Failed)); }
  }

  /** Every run from any bucket contents keeps the invariant. */
  lemma {:induction false} RunKeeps(c: Config, steps: seq<Step>)
    requires ConfigOk(c) && forall step <- steps :: StepOk(c, step)
    ensures Inv(c, Run(c, steps))
    decreases |steps|
  {
    if steps == [] {
      if c.h in c.segs0 { NewestAt(c, c.segs0, c.legacy0, c.h); }
    } else {
      RunKeeps(c, steps[..|steps| - 1]);
      ApplyKeeps(c, Run(c, steps[..|steps| - 1]), steps[|steps| - 1]);
    }
  }

  // ------------------------------------------------------------------ the guarantees

  /**
   In every run, a step that lands a frame lands it directly on top of the record or absence its
   caller validated: at that moment the newest record in the bucket is that basis, the basis
   entitles the operation, and afterwards the newest record is the frame just written.
   */
  lemma LandingExtendsBasis(c: Config, steps: seq<Step>, step: Step)
    requires ConfigOk(c) && (forall x <- steps :: StepOk(c, x)) && StepOk(c, step)
    requires Apply(c, Run(c, steps), step).history != Run(c, steps).history
    ensures var s := Run(c, steps); var s' := Apply(c, s, step);
            && step.Go? && step.id in s.calls && s.calls[step.id].phase.Appending?
            && Newest(c, s.segs, s.legacy) == s.calls[step.id].basis
            && Entitled(s.calls[step.id].basis, s.calls[step.id].op)
            && var v := Newest(c, s'.segs, s'.legacy);
               && v.InSegment? && v.window == c.h && s'.calls[step.id].landed == Some(TokenOf(v))
               && v.entry.value == Payload(s.calls[step.id].op) && v.entry.deleted == s.calls[step.id].op.Delete?
  {
    var s := Run(c, steps);
    RunKeeps(c, steps);
    hide Run;
    OnlyAppendsLand(c, s, step);
    LandingView(c, s, step.id, step.drawn);
  }

  lemma OnlyAppendsLand(c: Config, s: State, step: Step)
    requires Apply(c, s, step).history != s.history
    ensures step.Go? && step.id in s.calls && s.calls[step.id].phase.Appending? && Accepts(c, s, step.id, step.drawn)
  {
    hide LogSize, Scanned, Checked;
  }

  lemma LandingView(c: Config, s: State, id: nat, drawn: Instance)
    requires ConfigOk(c) && Inv(c, s) && id in s.calls && s.calls[id].phase.Appending? && Accepts(c, s, id, drawn)
    ensures var s' := Going(c, s, id, drawn);
            && Newest(c, s.segs, s.legacy) == s.calls[id].basis
            && Entitled(s.calls[id].basis, s.calls[id].op)
            && var v := Newest(c, s'.segs, s'.legacy);
               && v.InSegment? && v.window == c.h && s'.calls[id].landed == Some(TokenOf(v))
               && v.entry.value == Payload(s.calls[id].op) && v.entry.deleted == s.calls[id].op.Delete?
  {
    hide HasId, Legal, Replay, NewestBelow, Newest, Entitled;
    var s' := Going(c, s, id, drawn);
    assert CallOk(c, s, id);
    LandsOnBasis(c, s, id);
    AcceptedStore(c, s, id, drawn);
    NewestAt(c, s'.segs, s'.legacy, c.h);
    var log' := s'.segs[c.h];
    assert log'[..|log'| - 1] == if c.h in s.segs then s.segs[c.h] else [];
  }

  function Consumes(op: Op): Option<Token>
  {
    match op case Cas(_, t) => Some(t) case Delete(t) => Some(t) case _ => None
  }

  /** No token is won twice in a run, whatever mixture of CAS and delete calls carries it. */
  lemma TokenWonOnce(c: Config, steps: seq<Step>, i: nat, j: nat)
    requires ConfigOk(c) && forall step <- steps :: StepOk(c, step)
    requires i < j < |Run(c, steps).history|
    requires Consumes(Run(c, steps).history[i].op).Some?
    ensures Consumes(Run(c, steps).history[i].op) != Consumes(Run(c, steps).history[j].op)
  {
    RunKeeps(c, steps);
    var h := Run(c, steps).history;
    hide Run, Inv;
    TokenNotRevived(c, h, i, j);
  }

  lemma ReplayStep(c: Config, h: seq<Landing>, n: nat)
    requires n < |h|
    ensures Replay(c, h, n + 1) == InSegment(c.h, h[n].entry, Replay(c, h, n + 1).length)
    ensures var v := Replay(c, h, n);
            Replay(c, h, n + 1).length > if v.InSegment? && v.window == c.h then v.length else 0
  {
    assert EntrySize(h[n].entry) > 0;
  }

  lemma TokenNotRevived(c: Config, h: seq<Landing>, i: nat, j: nat)
    requires Legal(c, h) && i < j < |h| && Consumes(h[i].op).Some?
    ensures Consumes(h[i].op) != Consumes(h[j].op)
  {
    hide Replay, After;
    assert Justified(c, h, i) && Justified(c, h, j);
    hide Legal;
    ReplayStep(c, h, i);
    LengthsGrow(c, h, i + 1, j);
  }

  /** An observed absence is won once: between two accepted creates there is an accepted delete. */
  lemma AbsenceWonOnce(c: Config, steps: seq<Step>, i: nat, j: nat)
    requires ConfigOk(c) && forall step <- steps :: StepOk(c, step)
    requires i < j < |Run(c, steps).history|
    requires Run(c, steps).history[i].op.Create? && Run(c, steps).history[j].op.Create?
    ensures exists k | i < k < j :: Run(c, steps).history[k].op.Delete?
  {
    RunKeeps(c, steps);
    var h := Run(c, steps).history;
    hide Run, Inv;
    CreateFollowsDelete(c, h, j);
    assert h[j - 1].op.Delete? && i < j - 1;
  }

  lemma CreateFollowsDelete(c: Config, h: seq<Landing>, j: nat)
    requires Legal(c, h) && 0 < j < |h| && h[j].op.Create?
    ensures h[j - 1].op.Delete?
  {
    hide Replay, After;
    assert Justified(c, h, j) && Justified(c, h, j - 1);
    ReplayStep(c, h, j - 1);
  }

  // ------------------------------------------------------------------ refusals after a landing

  /** What is newest in the bucket is what the writes of the run say. */
  lemma NewestIsReplay(c: Config, s: State)
    requires ConfigOk(c) && Inv(c, s)
    ensures Newest(c, s.segs, s.legacy) == Replay(c, s.history, |s.history|)
  {
    hide Legal, CallOk;
    if c.h in s.segs { NewestAt(c, s.segs, s.legacy, c.h); }
  }

  /** The write of call id, the i-th of the run, made the record that its token names. */
  ghost predicate FrameAt(c: Config, s: State, id: nat, i: nat)
    requires id in s.calls
  {
    && i < |s.history| && s.history[i].id == id && s.history[i].op == s.calls[id].op
    && s.calls[id].landed.Some? && Names(Replay(c, s.history, i + 1), s.calls[id].landed.value)
  }

  ghost predicate FramesNamed(c: Config, s: State)
  {
    forall id | id in s.calls && s.calls[id].landed.Some? :: exists i: nat :: FrameAt(c, s, id, i)
  }

  lemma ScannedStays(c: Config, s: State, call: Call, scan: Scan, why: Why)
    ensures var next := Scanned(c, s, call, scan, why); next.op == call.op && next.landed == call.landed
  {
    hide ReadWindow, ReadLegacy, NewestBelow, Live;
  }

  lemma CheckedStays(c: Config, s: State, call: Call, check: Check, token: Token)
    requires token.SegmentToken?
    ensures var next := Checked(c, s, call, check, token); next.op == call.op && next.landed == call.landed
  {
    hide ReadWindow, Names, Live;
  }

  lemma GoingStays(c: Config, s: State, id: nat, drawn: Instance)
    requires id in s.calls && Going(c, s, id, drawn).history == s.history
    ensures var s' := Going(c, s, id, drawn);
            && s'.calls == s.calls[id := s'.calls[id]]
            && s'.calls[id].landed == s.calls[id].landed && s'.calls[id].op == s.calls[id].op
  {
    hide Scanned, Checked, LogSize, EntrySize, ReadLegacy, Names;
    var call := s.calls[id];
    match call.phase
    case Scanning(scan, why) => ScannedStays(c, s, call, scan, why);
    case Checking(check) =>
      if (call.op.Cas? || call.op.Delete?) && call.op.token.SegmentToken? { CheckedStays(c, s, call, check, call.op.token); }
    case _ =>
  }

  lemma LandedStays(c: Config, s: State, step: Step)
    requires Apply(c, s, step).history == s.history
    ensures forall k | k in Apply(c, s, step).calls ::
              && Apply(c, s, step).calls[k].landed == (if k in s.calls then s.calls[k].landed else None)
              && (k in s.calls ==> Apply(c, s, step).calls[k].op == s.calls[k].op)
  {
    hide Going;
    if step.Go? && step.id in s.calls { GoingStays(c, s, step.id, step.drawn); }
  }

  lemma FrameExtends(c: Config, s: State, s': State, id: nat, i: nat)
    requires id in s.calls && id in s'.calls && FrameAt(c, s, id, i)
    requires s'.calls[id].landed == s.calls[id].landed && s'.calls[id].op == s.calls[id].op
    requires s.history <= s'.history
    ensures FrameAt(c, s', id, i)
  {
    var more := s'.history[|s.history|..];
    assert s'.history == s.history + more;
    ReplayExtends(c, s.history, more, i + 1);
  }

  lemma LandedFrame(c: Config, s: State, step: Step)
    requires ConfigOk(c) && Inv(c, s) && StepOk(c, step) && Apply(c, s, step).history != s.history
    ensures var s' := Apply(c, s, step);
            && step.Go? && step.id in s'.calls && FrameAt(c, s', step.id, |s.history|)
            && s.history <= s'.history && s'.calls == s.calls[step.id := s'.calls[step.id]]
  {
    OnlyAppendsLand(c, s, step);
    ApplyKeeps(c, s, step);
    AcceptedStore(c, s, step.id, step.drawn);
    LandingView(c, s, step.id, step.drawn);
    var s' := Apply(c, s, step);
    assert s' == Going(c, s, step.id, step.drawn);
    hide Going, Inv, Apply, Newest, Replay;
    NewestIsReplay(c, s');
  }

  lemma FramesNamedKeeps(c: Config, s: State, step: Step)
    requires ConfigOk(c) && Inv(c, s) && StepOk(c, step) && FramesNamed(c, s)
    ensures FramesNamed(c, Apply(c, s, step))
  {
    var s' := Apply(c, s, step);
    if s'.history == s.history { LandedStays(c, s, step); } else { LandedFrame(c, s, step); }
    hide Apply, Inv, Replay;
    forall id | id in s'.calls && s'.calls[id].landed.Some? ensures exists i: nat :: FrameAt(c, s', id, i) {
      if s'.history != s.history && id == step.id {
        assert FrameAt(c, s', id, |s.history|);
      } else {
        var i: nat :| FrameAt(c, s, id, i);
        FrameExtends(c, s, s', id, i);
      }
    }
  }

  lemma {:induction false} RunNamesFrames(c: Config, steps: seq<Step>)
    requires ConfigOk(c) && forall step <- steps :: StepOk(c, step)
    ensures FramesNamed(c, Run(c, steps))
  {
    if steps != [] {
      var front := steps[..|steps| - 1];
      RunNamesFrames(c, front);
      RunKeeps(c, front);
      hide FramesNamed, Inv, Apply;
      FramesNamedKeeps(c, Run(c, front), steps[|steps| - 1]);
    }
  }

  /**
   A call told it wrote has landed, with the token of the record its frame made; a call told the
   segment is full has not; a call that never landed left no trace; none lands twice.
   */
  lemma RepliesAreHonest(c: Config, steps: seq<Step>, id: nat)
    requires ConfigOk(c) && (forall x <- steps :: StepOk(c, x)) && id in Run(c, steps).calls
    ensures var s := Run(c, steps);
            && (s.calls[id].landed.Some? <==> HasId(s.history, id))
            && (s.calls[id].landed.Some? ==> exists i: nat :: FrameAt(c, s, id, i))
            && (s.calls[id].phase.Done? && s.calls[id].phase.reply.Written? ==>
                  s.calls[id].landed == Some(s.calls[id].phase.reply.token))
            && (s.calls[id].phase == Done(Full) ==> s.calls[id].landed.None?)
            && (forall i, j | 0 <= i < j < |s.history| :: s.history[i].id != s.history[j].id)
  {
    RunKeeps(c, steps);
    RunNamesFrames(c, steps);
    assert CallOk(c, Run(c, steps), id);
    hide Run;
  }

  /** The last write of the run made the record now in window h. */
  lemma LastWrite(c: Config, s: State)
    requires Inv(c, s) && s.history != [] && c.h in s.segs
    ensures var v, last := ReadWindow(s.segs, c.h), s.history[|s.history| - 1];
            v == Replay(c, s.history, |s.history|) && v.InSegment? && v.entry.deleted == last.op.Delete?
  {
    assert Justified(c, s.history, |s.history| - 1);
    hide CallOk, Legal;
    ReplayStep(c, s.history, |s.history| - 1);
  }

  /** The frame of a call is the newest exactly when no other write landed after it. */
  lemma NewestFrame(c: Config, s: State, id: nat)
    requires ConfigOk(c) && Inv(c, s) && FramesNamed(c, s) && id in s.calls && s.calls[id].landed.Some?
    ensures s.history != [] && c.h in s.segs
    ensures var v := ReadWindow(s.segs, c.h);
            && v.InSegment? && v.entry.deleted == s.history[|s.history| - 1].op.Delete?
            && (v.length == s.calls[id].landed.value.length <==> s.history[|s.history| - 1].id == id)
  {
    var i: nat :| FrameAt(c, s, id, i);
    var n := |s.history|;
    assert CallOk(c, s, id);
    assert s.history[n - 1].id == id ==> i == n - 1;
    LastWrite(c, s);
    hide Inv, CallOk, FramesNamed;
    ReplayStep(c, s.history, i);
    LengthsGrow(c, s.history, i + 1, n);
    hide Replay, ReadWindow;
  }

  /**
   A landed call that still has its re-check to make reports contention exactly when it is a create
   and another write has landed on top of it, or a delete and the record has been revived; an
   error in the re-check counts as contention for a CAS and for a delete. Calls whose basis was in
   the current window make no re-check at all.
   */
  lemma ContentionExactly(c: Config, steps: seq<Step>, id: nat, drawn: Instance)
    requires ConfigOk(c) && forall step <- steps :: StepOk(c, step)
    requires id in Run(c, steps).calls && Run(c, steps).calls[id].landed.Some? && Run(c, steps).calls[id].phase.Scanning?
    ensures var s := Run(c, steps); var call := s.calls[id];
            && call.phase == Scanning(AtH, ForRecheck) && (call.op.Create? || !InH(c, call.basis)) && s.history != []
            && var last := s.history[|s.history| - 1];
               && (Apply(c, s, Go(id, drawn)).calls[id].phase == Done(Precondition) <==>
                     (call.op.Create? && last.id != id) || (call.op.Delete? && !last.op.Delete?))
               && (Apply(c, s, Fault(id)).calls[id].phase == Done(Precondition) <==> !call.op.Create?)
  {
    var s := Run(c, steps);
    RunKeeps(c, steps);
    RunNamesFrames(c, steps);
    hide Run;
    NewestFrame(c, s, id);
    assert CallOk(c, s, id);
    hide Inv, CallOk, FramesNamed, ReadWindow;
  }

  /** Another write landed after the one of call id; a live one, if asked. */
  ghost predicate Overtaken(history: seq<Landing>, id: nat, live: bool)
  {
    exists i, j | 0 <= i < j < |history| :: history[i].id == id && (live ==> !history[j].op.Delete?)
  }

  lemma OvertakenExtends(history: seq<Landing>, all: seq<Landing>, id: nat, live: bool)
    requires Overtaken(history, id, live) && history <= all
    ensures Overtaken(all, id, live)
  {
    var i, j :| 0 <= i < j < |history| && history[i].id == id && (live ==> !history[j].op.Delete?);
    assert all[i] == history[i] && all[j] == history[j];
  }

  lemma OvertakenByLast(c: Config, s: State, id: nat)
    requires ConfigOk(c) && Inv(c, s) && id in s.calls && s.calls[id].landed.Some?
    requires s.history != [] && s.history[|s.history| - 1].id != id
    ensures Overtaken(s.history, id, !s.history[|s.history| - 1].op.Delete?)
  {
    assert CallOk(c, s, id);
    hide Inv, CallOk;
    var i :| 0 <= i < |s.history| && s.history[i].id == id;
    assert i < |s.history| - 1;
  }

  /** Why a call that landed may have been refused all the same. */
  ghost predicate Excused(c: Config, s: State, steps: seq<Step>, id: nat)
    requires id in s.calls
  {
    var call := s.calls[id];
    || (call.op.Create? && Overtaken(s.history, id, false))
    || (call.op.Delete? && !InH(c, call.basis) && Overtaken(s.history, id, true))
    || ((call.op.Cas? || call.op.Delete?) && !InH(c, call.basis) && Fault(id) in steps)
  }

  lemma ExcusedExtends(c: Config, s: State, s': State, steps: seq<Step>, step: Step, id: nat)
    requires id in s.calls && id in s'.calls && s'.calls[id] == s.calls[id] && s.history <= s'.history && Excused(c, s, steps, id)
    ensures Excused(c, s', steps + [step], id)
  {
    hide Overtaken;
    var call := s.calls[id];
    if call.op.Create? && Overtaken(s.history, id, false) { OvertakenExtends(s.history, s'.history, id, false); }
    if call.op.Delete? && Overtaken(s.history, id, true) { OvertakenExtends(s.history, s'.history, id, true); }
  }

  /** Only a re-check or an error in it refuses a call that has landed. */
  lemma GoRefuses(c: Config, s: State, id: nat, drawn: Instance)
    requires Inv(c, s) && id in s.calls && !s.calls[id].phase.Done?
    requires Going(c, s, id, drawn).calls[id].phase == Done(Precondition) && Going(c, s, id, drawn).calls[id].landed.Some?
    ensures var call, s' := s.calls[id], Going(c, s, id, drawn);
            && call.phase.Scanning? && s'.history == s.history
            && s'.calls[id].op == call.op && s'.calls[id].basis == call.basis && s'.calls[id].landed == call.landed
  {
    assert CallOk(c, s, id);
    hide Inv, LogSize, EntrySize, ReadLegacy, Names, HasId, Replay, Newest, StoreOk, Checked, Scanned;
    var call := s.calls[id];
    match call.phase
    case Scanning(scan, why) =>
      ScannedStays(c, s, call, scan, why);
      ScannedBasis(c, s, call, scan, why);
    case Checking(check) => CheckedStays(c, s, call, check, call.op.token);
    case _ =>
  }

  lemma ScannedBasis(c: Config, s: State, call: Call, scan: Scan, why: Why)
    ensures var next := Scanned(c, s, call, scan, why); next.phase.Done? ==> next.basis == call.basis
  {
    hide ReadWindow, ReadLegacy, NewestBelow, Live;
  }

  lemma RefusedBy(c: Config, s: State, step: Step, id: nat)
    requires ConfigOk(c) && Inv(c, s) && StepOk(c, step) && id in Apply(c, s, step).calls
    requires Apply(c, s, step).calls[id].phase == Done(Precondition) && Apply(c, s, step).calls[id].landed.Some?
    ensures var s' := Apply(c, s, step);
            && id in s.calls && s.history <= s'.history
            && (s.calls[id].phase.Done? ==> s'.calls[id] == s.calls[id])
            && (!s.calls[id].phase.Done? ==>
                  && s.calls[id].phase.Scanning? && s'.history == s.history && s.calls[id].landed.Some?
                  && (step == Fault(id) || (step.Go? && step.id == id))
                  && s'.calls[id].op == s.calls[id].op && s'.calls[id].basis == s.calls[id].basis)
  {
    if id in s.calls { assert CallOk(c, s, id); }
    hide Inv, Going, HasId, Replay;
    match step
    case Go(k, drawn) =>
      if k in s.calls {
        if k == id && !s.calls[k].phase.Done? { GoRefuses(c, s, k, drawn); } else { GoOther(c, s, k, drawn, id); }
      }
    case _ =>
  }

  lemma GoOther(c: Config, s: State, k: nat, drawn: Instance, id: nat)
    requires k in s.calls && (k != id || s.calls[k].phase.Done?)
    ensures var s' := Going(c, s, k, drawn);
            s.history <= s'.history && (id in s'.calls ==> id in s.calls && s'.calls[id] == s.calls[id])
  {
    hide Scanned, Checked, LogSize, EntrySize, ReadLegacy, Names;
  }

  /**
   ErrPrecondition after a landing has one of three reasons, over every run: a create another write
   landed on; a delete from a lower basis whose record was revived; a CAS or delete from a lower
   basis whose re-check failed. Every other refused call never landed and left no trace.
   */
  lemma {:induction false} RefusedCallsDidNotLand(c: Config, steps: seq<Step>, id: nat)
    requires ConfigOk(c) && forall step <- steps :: StepOk(c, step)
    requires id in Run(c, steps).calls && Run(c, steps).calls[id].phase == Done(Precondition)
    ensures Run(c, steps).calls[id].landed.Some? ==> Excused(c, Run(c, steps), steps, id)
    ensures !Excused(c, Run(c, steps), steps, id) ==> !HasId(Run(c, steps).history, id)
  {
    RunKeeps(c, steps);
    var s' := Run(c, steps);
    assert CallOk(c, s', id);
    if steps != [] && s'.calls[id].landed.Some? {
      var front, step := steps[..|steps| - 1], steps[|steps| - 1];
      var s := Run(c, front);
      assert steps == front + [step];
      RunKeeps(c, front);
      RefusedBy(c, s, step, id);
      hide Inv, CallOk, HasId, Excused;
      if s.calls[id].phase.Done? {
        RefusedCallsDidNotLand(c, front, id);
        ExcusedExtends(c, s, s', front, step, id);
      } else {
        ContentionExcused(c, front, step, id);
      }
    }
  }

  lemma FrameOp(c: Config, s: State, id: nat)
    requires ConfigOk(c) && Inv(c, s) && FramesNamed(c, s) && id in s.calls && s.calls[id].landed.Some?
    ensures !s.calls[id].op.Get? && s.history != []
    ensures s.calls[id].op.Delete? && !s.history[|s.history| - 1].op.Delete? ==> s.history[|s.history| - 1].id != id
  {
    var i: nat :| FrameAt(c, s, id, i);
    assert Justified(c, s.history, i);
    hide Replay, CallOk, StoreOk;
  }

  lemma ContentionExcused(c: Config, steps: seq<Step>, step: Step, id: nat)
    requires ConfigOk(c) && (forall x <- steps :: StepOk(c, x)) && id in Run(c, steps).calls
    requires Run(c, steps).calls[id].landed.Some? && Run(c, steps).calls[id].phase.Scanning?
    requires step == Fault(id) || (step.Go? && step.id == id)
    requires var s, s' := Run(c, steps), Apply(c, Run(c, steps), step);
             && id in s'.calls && s'.calls[id].phase == Done(Precondition) && s'.history == s.history
             && s'.calls[id].op == s.calls[id].op && s'.calls[id].basis == s.calls[id].basis
    ensures Excused(c, Apply(c, Run(c, steps), step), steps + [step], id)
  {
    var s := Run(c, steps);
    hide Run, Apply, Inv, FramesNamed, StepOk;
    RunKeeps(c, steps);
    RunNamesFrames(c, steps);
    ContentionExactly(c, steps, id, if step.Go? then step.drawn else [0, 0, 0, 0, 0, 0, 0, 0]);
    FrameOp(c, s, id);
    if step.Go? { OvertakenByLast(c, s, id); }
  }

  // ------------------------------------------------------------------ what a Get may answer

  predicate Answers(reply: Reply, v: View) { reply == if Live(v) then Found(v) else NotFound }

  /** The answer is the newest record at some point since the call began, as of this state. */
  ghost predicate Right(c: Config, s: State, since: nat, reply: Reply)
  {
    exists k | since <= k <= |s.history| :: Answers(reply, Replay(c, s.history, k))
  }

  /** This step ends Get call id with an answer. */
  predicate Replies(c: Config, s: State, step: Step, id: nat)
  {
    && id in s.calls && s.calls[id].op == Get && !s.calls[id].phase.Done?
    && id in Apply(c, s, step).calls
    && var p := Apply(c, s, step).calls[id].phase; p.Done? && (p.reply.Found? || p.reply.NotFound?)
  }

  /** The window the call listed has been collected, or the legacy object it turned to has been migrated. */
  ghost predicate Missed(c: Config, s: State, call: Call)
  {
    && call.phase == Scanning(AtLegacy, ForGet)
    && var w := NewestBelow(c.segs0, c.h + 1); if w >= 0 then w !in s.segs else s.legacy != c.legacy0
  }

  /** Only its own read ends a Get with an answer, and that changes no one else. */
  lemma ReplyStep(c: Config, s: State, step: Step, id: nat)
    requires Inv(c, s) && Replies(c, s, step, id)
    ensures var s' := Apply(c, s, step);
            && step.Go? && step.id == id && s.calls[id].phase.Scanning? && s.calls[id].phase.why == ForGet
            && s'.history == s.history
            && s'.calls[id] == Scanned(c, s, s.calls[id], s.calls[id].phase.scan, ForGet)
  {
    assert CallOk(c, s, id);
    hide Inv, Scanned, Checked, LogSize, EntrySize, ReadLegacy, Names, HasId, Replay;
  }

  /** Where a Get that does not end at the legacy object found its answer. */
  lemma WindowReply(c: Config, s: State, id: nat)
    requires ConfigOk(c) && Inv(c, s) && id in s.calls && s.calls[id].phase.Scanning? && s.calls[id].phase.why == ForGet
    requires s.calls[id].phase.scan != AtLegacy
    requires Scanned(c, s, s.calls[id], s.calls[id].phase.scan, ForGet).phase.Done?
    ensures var call := s.calls[id];
            Right(c, s, call.seen, Scanned(c, s, call, call.phase.scan, ForGet).phase.reply)
  {
    assert CallOk(c, s, id);
    hide Legal, LogSize, Names, Entitled, HasId, CallOk;
    var call := s.calls[id];
    var reply := Scanned(c, s, call, call.phase.scan, ForGet).phase.reply;
    assert ScanOk(c, s, call.phase.scan) && call.seen <= |s.history| && (call.phase.scan != AtH ==> call.seen == 0) by { assert CallOk(c, s, id); }
    match call.phase.scan
    case AtH => assert Answers(reply, Replay(c, s.history, |s.history|));
    case AtH1 =>
      NewestAt(c, c.segs0, c.legacy0, c.h - 1);
      assert Answers(reply, Replay(c, s.history, 0));
    case AtH2 =>
      NewestAt(c, c.segs0, c.legacy0, c.h - 2);
      assert Answers(reply, Replay(c, s.history, 0));
    case AtListed(w) =>
      if w == c.h {
        assert Answers(reply, Replay(c, s.history, |s.history|));
      } else {
        NewestAt(c, c.segs0, c.legacy0, w);
        assert Answers(reply, Replay(c, s.history, 0));
      }
    case _ =>
  }

  /** Some record since the call began was a tombstone, or none existed yet. */
  ghost predicate OnceGone(c: Config, s: State, since: nat)
  {
    exists k | since <= k <= |s.history| :: !Live(Replay(c, s.history, k))
  }

  lemma LaterInH(c: Config, s: State, k: nat)
    requires 0 < k <= |s.history|
    ensures Replay(c, s.history, k).InSegment?
  {
  }

  /** A Get that ends at the legacy object, told from what happened since it listed the windows. */
  lemma LegacyReply(c: Config, s: State, id: nat)
    requires ConfigOk(c) && Inv(c, s) && id in s.calls && s.calls[id].phase == Scanning(AtLegacy, ForGet)
    ensures var call := s.calls[id];
            var reply := Scanned(c, s, call, AtLegacy, ForGet).phase.reply;
            && call.seen == 0 && Answers(reply, ReadLegacy(s.legacy))
            && (!Missed(c, s, call) ==> Answers(reply, Replay(c, s.history, 0)))
            && (Missed(c, s, call) ==> (Right(c, s, 0, reply) <==> reply.NotFound? && OnceGone(c, s, 0)))
  {
    assert CallOk(c, s, id) && StoreOk(c, s);
    hide Inv, LogSize, Names, Entitled, HasId, CallOk;
    var call := s.calls[id];
    assert ScanOk(c, s, AtLegacy) && call.seen == 0 by { assert CallOk(c, s, id); }
    var reply := Scanned(c, s, call, AtLegacy, ForGet).phase.reply;
    if Missed(c, s, call) { MissedReply(c, s, reply); }
  }

  lemma MissedReply(c: Config, s: State, reply: Reply)
    requires Answers(reply, ReadLegacy(s.legacy)) && (s.legacy.Some? ==> s.legacy == c.legacy0)
    requires forall w | w in c.segs0 :: c.segs0[w] != []
    requires NewestBelow(c.segs0, c.h + 1) >= 0 || s.legacy != c.legacy0
    ensures Right(c, s, 0, reply) <==> reply.NotFound? && OnceGone(c, s, 0)
  {
    forall k | 0 <= k <= |s.history|
      ensures Answers(reply, Replay(c, s.history, k)) <==> reply.NotFound? && !Live(Replay(c, s.history, k))
    {
      if k > 0 { LaterInH(c, s, k); }
    }
  }

  /**
   Every answer of a Get, in every run, is the newest record at some point of the call unless the
   window it listed was collected before it read it, or the legacy object it turned to was migrated
   meanwhile; and then it is right exactly when it says not found and the record was gone at some point.
   */
  lemma GetReplyExactly(c: Config, steps: seq<Step>, step: Step, id: nat)
    requires ConfigOk(c) && (forall x <- steps :: StepOk(c, x)) && StepOk(c, step)
    requires Replies(c, Run(c, steps), step, id)
    ensures var s := Run(c, steps); var s' := Apply(c, s, step);
            var call, reply := s.calls[id], s'.calls[id].phase.reply;
            Right(c, s', call.seen, reply) <==> !Missed(c, s, call) || (reply.NotFound? && OnceGone(c, s', call.seen))
  {
    var s := Run(c, steps);
    RunKeeps(c, steps);
    hide Run;
    ReplyStep(c, s, step, id);
    var call, s' := s.calls[id], Apply(c, s, step);
    var reply := s'.calls[id].phase.reply;
    hide Apply, Inv, Scanned, Replay;
    SameRight(c, s, s', call.seen, reply);
    if call.phase.scan == AtLegacy { LegacyReply(c, s, id); } else { WindowReply(c, s, id); }
  }

  lemma SameRight(c: Config, s: State, s': State, since: nat, reply: Reply)
    requires s'.history == s.history
    ensures Right(c, s', since, reply) <==> Right(c, s, since, reply)
    ensures OnceGone(c, s', since) <==> OnceGone(c, s, since)
  {
  }

  /**
   What a caller can know beforehand: no segment holds a frame, or the record is absent, or in one
   of the windows read without a listing, or gone from both the windows and the legacy object.
   */
  predicate Steady(c: Config)
  {
    || c.max < SEG_OVERHEAD
    || match Newest(c, c.segs0, c.legacy0)
       case Absent => true
       case InSegment(w, e, _) => w >= c.h - 2 || (e.deleted && !Live(ReadLegacy(c.legacy0)))
       case InLegacy(l) => l.deleted
  }

  lemma {:induction false} NoRoomNoWrite(c: Config, steps: seq<Step>)
    requires c.max < SEG_OVERHEAD
    ensures Run(c, steps).history == []
  {
    if steps != [] {
      NoRoomNoWrite(c, steps[..|steps| - 1]);
      var s, step := Run(c, steps[..|steps| - 1]), steps[|steps| - 1];
      hide Run;
      if Apply(c, s, step).history != s.history {
        OnlyAppendsLand(c, s, step);
        hide Apply, LogSize;
        assert false;
      }
    }
  }

  /** From a steady bucket every answer of every Get of every run is right. */
  lemma GetRightWhenSteady(c: Config, steps: seq<Step>, step: Step, id: nat)
    requires ConfigOk(c) && Steady(c) && (forall x <- steps :: StepOk(c, x)) && StepOk(c, step)
    requires Replies(c, Run(c, steps), step, id)
    ensures var s := Run(c, steps);
            Right(c, Apply(c, s, step), s.calls[id].seen, Apply(c, s, step).calls[id].phase.reply)
  {
    var s := Run(c, steps);
    GetReplyExactly(c, steps, step, id);
    RunKeeps(c, steps);
    if c.max < SEG_OVERHEAD { NoRoomNoWrite(c, steps); }
    hide Run;
    ReplyStep(c, s, step, id);
    var call, s' := s.calls[id], Apply(c, s, step);
    if Missed(c, s, call) {
      assert CallOk(c, s, id);
      hide Apply, Right, Scanned;
      LegacyReply(c, s, id);
      SteadyMiss(c, s);
      assert !Live(Replay(c, s'.history, 0));
    }
  }

  lemma SteadyMiss(c: Config, s: State)
    requires ConfigOk(c) && Steady(c) && StoreOk(c, s) && c.h !in c.segs0 && Unlisted(c, s)
    requires c.max < SEG_OVERHEAD ==> s.history == []
    requires var w := NewestBelow(c.segs0, c.h + 1); if w >= 0 then w !in s.segs else s.legacy != c.legacy0
    ensures !Live(ReadLegacy(s.legacy)) && !Live(Newest(c, c.segs0, c.legacy0))
  {
    hide Replay;
  }

  // ------------------------------------------------------------------ limits of the code

  lemma Extend(c: Config, steps: seq<Step>, s: State, step: Step) returns (steps': seq<Step>, s': State)
    requires s == Run(c, steps)
    ensures steps' == steps + [step] && s' == Apply(c, s, step) && s' == Run(c, steps')
  {
    steps', s' := steps + [step], Apply(c, s, step);
    assert steps'[..|steps'| - 1] == steps;
  }

  /** Three reads find nothing in windows h, h-1 and h-2; the call then lists. */
  lemma ScanThree(c: Config, steps: seq<Step>, s: State, id: nat, d: Instance) returns (steps': seq<Step>, s': State)
    requires s == Run(c, steps) && (forall x <- steps :: StepOk(c, x)) && id in s.calls
    requires c.h !in s.segs && c.h - 1 !in s.segs && c.h - 2 !in s.segs
    requires s.calls[id].phase.Scanning? && s.calls[id].phase.scan == AtH
    ensures s' == Run(c, steps') && forall x <- steps' :: StepOk(c, x)
    ensures s' == s.(calls := s.calls[id := s.calls[id].(phase := Scanning(Listing, s.calls[id].phase.why))])
  {
    hide Run, NoWindow, Concluded;
    var why := s.calls[id].phase.why;
    var c0 := s.calls[id];
    var t1, s1 := Extend(c, steps, s, Go(id, d));
    assert s1 == s.(calls := s.calls[id := c0.(phase := Scanning(AtH1, why))]);
    var t2, s2 := Extend(c, t1, s1, Go(id, d));
    assert s2 == s.(calls := s.calls[id := c0.(phase := Scanning(AtH2, why))]);
    steps', s' := Extend(c, t2, s2, Go(id, d));
    assert s' == s.(calls := s.calls[id := c0.(phase := Scanning(Listing, why))]);
  }

  /** The listing of a bucket without windows, and what follows it. */
  lemma ScanEmpty(c: Config, steps: seq<Step>, s: State, id: nat, d: Instance) returns (steps': seq<Step>, s': State)
    requires s == Run(c, steps) && s.segs == map[] && id in s.calls
    requires s.calls[id].phase.Scanning? && s.calls[id].phase.scan == AtH && s.calls[id].phase.why != ForRecheck
    requires forall x <- steps :: StepOk(c, x)
    ensures s' == Run(c, steps') && forall x <- steps' :: StepOk(c, x)
    ensures s'.segs == s.segs && s'.legacy == s.legacy && s'.history == s.history
    ensures s'.calls == s.calls[id := NoWindow(c, s, s.calls[id], s.calls[id].phase.why)]
  {
    hide Run, NoWindow;
    var t, s3 := ScanThree(c, steps, s, id, d);
    steps', s' := Extend(c, t, s3, Go(id, d));
    SameNoWindow(c, s, s3, id, s.calls[id].phase.why);
  }

  /** The only record is in a window behind h-2: a scan lists it and goes on to read it. */
  lemma ScanListed(c: Config, steps: seq<Step>, s: State, id: nat, d: Instance, w: int) returns (steps': seq<Step>, s': State)
    requires s == Run(c, steps) && (forall x <- steps :: StepOk(c, x)) && id in s.calls
    requires NewestBelow(s.segs, c.h + 1) == w && 0 <= w < c.h - 2
    requires s.calls[id].phase.Scanning? && s.calls[id].phase.scan == AtH
    ensures s' == Run(c, steps') && forall x <- steps' :: StepOk(c, x)
    ensures s' == s.(calls := s.calls[id := s.calls[id].(phase := Scanning(AtListed(w), s.calls[id].phase.why))])
  {
    hide Run, NoWindow, Concluded;
    var t, s3 := ScanThree(c, steps, s, id, d);
    steps', s' := Extend(c, t, s3, Go(id, d));
    assert s'.calls == s.calls[id := s.calls[id].(phase := Scanning(AtListed(w), s.calls[id].phase.why))];
  }

  lemma SameNoWindow(c: Config, s: State, s': State, id: nat, why: Why)
    requires id in s.calls && id in s'.calls && s'.calls[id].(phase := s.calls[id].phase) == s.calls[id]
    ensures NoWindow(c, s', s'.calls[id], why) == NoWindow(c, s, s.calls[id], why)
  {
  }

  lemma RunNil(c: Config)
    ensures Run(c, []) == Init(c)
  {
  }

  lemma OneEntry(e: Entry)
    ensures LogSize([]) == 0 && LogSize([e]) == EntrySize(e)
  {
    assert [e][..0] == [];
  }

  lemma TwoEntries(e: Entry, f: Entry)
    ensures LogSize([e, f]) == EntrySize(e) + EntrySize(f)
  {
    OneEntry(e);
    assert [e, f][..1] == [e];
  }

  /** A call about to append at position zero of an absent window lands. */
  lemma LandFirst(c: Config, steps: seq<Step>, s: State, id: nat, d: Instance) returns (steps': seq<Step>, s': State)
    requires c.h >= 0 && s == Run(c, steps) && (forall x <- steps :: StepOk(c, x)) && c.h !in s.segs && id in s.calls
    requires s.calls[id].phase == Appending(0, None) && SEG_OVERHEAD + |Payload(s.calls[id].op)| <= c.max
    requires s.calls[id].op.Create? || !InH(c, s.calls[id].basis)
    ensures s' == Run(c, steps') && forall x <- steps' :: StepOk(c, x)
    ensures var call := s.calls[id]; var e := EntryOf(call.op, d);
            && s'.segs == s.segs[c.h := [e]] && s'.legacy == s.legacy
            && s'.history == s.history + [Landing(id, call.op, e)]
            && s'.calls == s.calls[id := call.(phase := Scanning(AtH, ForRecheck),
                                              landed := Some(SegmentToken(c.h, d, EntrySize(e))))]
  {
    hide Run;
    var e := EntryOf(s.calls[id].op, d);
    OneEntry(e);
    assert [] + [e] == [e];
    steps', s' := Extend(c, steps, s, Go(id, d));
  }

  /** Call 1 creates a record in an empty bucket and is about to re-check it. */
  lemma CreateLands(c: Config, a: seq<Byte>, d: Instance) returns (steps: seq<Step>, s: State)
    requires ConfigOk(c) && c.segs0 == map[] && c.legacy0 == None && c.max >= SEG_OVERHEAD + |a|
    ensures s == Run(c, steps) && forall x <- steps :: StepOk(c, x)
    ensures var e := Entry(a, false, d);
            && s.segs == map[c.h := [e]] && s.history == [Landing(1, Create(a), e)] && s.calls.Keys == {1}
            && s.calls[1].op == Create(a) && s.calls[1].phase == Scanning(AtH, ForRecheck)
            && s.calls[1].landed == Some(SegmentToken(c.h, d, EntrySize(e)))
  {
    hide Run, LogSize, Newest, EntrySize;
    RunNil(c);
    steps, s := Extend(c, [], Init(c), Invoke(1, Create(a)));
    steps, s := ScanEmpty(c, steps, s, 1, d);
    steps, s := Extend(c, steps, s, Go(1, d));
    assert s.calls[1].phase == Appending(0, None) && s.calls[1].op == Create(a);
    hide Apply;
    steps, s := LandFirst(c, steps, s, 1, d);
  }

  /** Call 2 replaces the one entry of window h. */
  lemma CasLands(c: Config, steps: seq<Step>, s: State, e: Entry, b: seq<Byte>) returns (steps': seq<Step>, s': State)
    requires c.h >= 0 && s == Run(c, steps) && (forall x <- steps :: StepOk(c, x)) && 2 !in s.calls
    requires c.h in s.segs && s.segs[c.h] == [e] && !e.deleted && EntrySize(e) + SEG_OVERHEAD + |b| <= c.max
    ensures s' == Run(c, steps') && forall x <- steps' :: StepOk(c, x)
    ensures s'.calls - {2} == s.calls && s'.segs == s.segs[c.h := [e, Entry(b, false, e.instance)]]
    ensures s.history <= s'.history
  {
    hide Run, LogSize, EntrySize;
    OneEntry(e);
    var tok := SegmentToken(c.h, e.instance, EntrySize(e));
    steps', s' := Extend(c, steps, s, Invoke(2, Cas(b, tok)));
    var s1 := s';
    steps', s' := Extend(c, steps', s', Go(2, e.instance));
    assert s'.calls == s1.calls[2 := Prepare(c, s1, s1.calls[2], InSegment(c.h, e, EntrySize(e)), |s1.history|)];
    steps', s' := Extend(c, steps', s', Go(2, e.instance));
    assert EntrySize(Entry(b, false, e.instance)) == SEG_OVERHEAD + |b| by { SizeOf(Entry(b, false, e.instance)); }
    assert [e] + [Entry(b, false, e.instance)] == [e, Entry(b, false, e.instance)];
  }

  lemma SizeOf(e: Entry)
    ensures EntrySize(e) == SEG_OVERHEAD + |e.value|
  {
  }

  /**
   ErrPrecondition does not mean that nothing was written: a create whose frame landed, and was
   legitimately replaced before its re-check, reports contention.
   */
  lemma ContentionAfterLanding(c: Config, a: seq<Byte>, b: seq<Byte>, d: Instance) returns (steps: seq<Step>)
    requires ConfigOk(c) && c.segs0 == map[] && c.legacy0 == None && c.max >= 2 * SEG_OVERHEAD + |a| + |b|
    ensures forall x <- steps :: StepOk(c, x)
    ensures var s := Run(c, steps);
            1 in s.calls && s.calls[1].phase == Done(Precondition) && s.calls[1].landed.Some? && HasId(s.history, 1)
  {
    hide Run, LogSize, Newest;
    var e, f := Entry(a, false, d), Entry(b, false, d);
    var t, s := CreateLands(c, a, d);
    var h0 := s.history;
    t, s := CasLands(c, t, s, e, b);
    assert 1 in s.calls - {2} && s.history[0] == h0[0];
    TwoEntries(e, f);
    steps, s := Extend(c, t, s, Go(1, d));
    assert s.history[0].id == 1;
  }

  /** Call 2 migrates the legacy record of an otherwise empty bucket and deletes the old object. */
  lemma MigrationLands(c: Config, steps: seq<Step>, s: State, v: seq<Byte>, d: Instance) returns (steps': seq<Step>, s': State)
    requires ConfigOk(c) && s == Run(c, steps) && (forall x <- steps :: StepOk(c, x)) && 2 !in s.calls && s.history == []
    requires s.segs == map[] && s.legacy == c.legacy0 && c.legacy0.Some? && !c.legacy0.value.deleted
    requires c.max >= SEG_OVERHEAD + |v|
    ensures s' == Run(c, steps') && forall x <- steps' :: StepOk(c, x)
    ensures s'.calls - {2} == s.calls && s'.legacy == None && s'.segs == map[c.h := [Entry(v, false, d)]]
    ensures |s'.history| == 1 && s'.history[0].entry == Entry(v, false, d)
  {
    hide Run, LogSize, Newest, EntrySize;
    var op := Cas(v, LegacyToken(c.legacy0.value.length));
    steps', s' := Extend(c, steps, s, Invoke(2, op));
    var s1 := s';
    steps', s' := Extend(c, steps', s', Go(2, d));
    assert s'.calls == s1.calls[2 := Call(op, Scanning(AtH, ForMigration), InLegacy(c.legacy0.value), 0, None)];
    var s2 := s';
    steps', s' := ScanEmpty(c, steps', s', 2, d);
    assert s'.calls == s.calls[2 := Prepare(c, s2, s2.calls[2], InLegacy(c.legacy0.value), 0)];
    steps', s' := LandFirst(c, steps', s', 2, d);
    var s3 := s';
    steps', s' := Extend(c, steps', s', Go(2, d));
    assert s'.calls == s.calls[2 := s3.calls[2].(phase := Cleaning(true, true, {}))];
    steps', s' := Extend(c, steps', s', Go(2, d));
  }

  /**
   A reader can miss a record that is never absent: while a legacy record is migrated into
   window h and its old object deleted, a Get that listed the windows just before reports not found.
   */
  lemma GetMissesMigratingRecord(c: Config, v: seq<Byte>, d: Instance) returns (steps: seq<Step>, step: Step)
    requires ConfigOk(c) && c.segs0 == map[] && c.max >= SEG_OVERHEAD + |v|
    requires c.legacy0.Some? && !c.legacy0.value.deleted
    ensures (forall x <- steps :: StepOk(c, x)) && StepOk(c, step) && Replies(c, Run(c, steps), step, 1)
    ensures var s' := Apply(c, Run(c, steps), step);
            && Run(c, steps).calls[1].seen == 0 && s'.calls[1].phase == Done(NotFound) && !Right(c, s', 0, NotFound)
            && (forall i | 0 <= i <= |s'.history| :: Live(Replay(c, s'.history, i)))
  {
    hide Run, LogSize, Newest;
    RunNil(c);
    var t, s := Extend(c, [], Init(c), Invoke(1, Get));
    t, s := ScanEmpty(c, t, s, 1, d);
    steps, s := MigrationLands(c, t, s, v, d);
    assert 1 in s.calls - {2};
    step := Go(1, d);
    MigratedLive(c, s.history);
    hide Replay;
  }

  lemma MigratedLive(c: Config, h: seq<Landing>)
    requires ConfigOk(c) && c.segs0 == map[] && c.legacy0.Some? && !c.legacy0.value.deleted
    requires |h| == 1 && !h[0].entry.deleted
    ensures forall i | 0 <= i <= |h| :: Live(Replay(c, h, i))
  {
  }

  /** A record in a window behind h-2, as newest of the bucket. */
  predicate Behind(c: Config, w: int) { NewestBelow(c.segs0, c.h + 1) == w && 0 <= w < c.h - 2 }

  /** Who may replace it: a CAS while it is live, a create once it is gone. */
  function RollOver(v: View): Op
    requires v.InSegment? && v.window >= 0
  {
    if Live(v) then Cas([], TokenOf(v)) else Create([])
  }

  /** The checks of that CAS all pass, and it is about to append at position zero of window h. */
  lemma CasPrepares(c: Config, steps: seq<Step>, s: State, w: int, d: Instance) returns (steps': seq<Step>, s': State)
    requires ConfigOk(c) && Behind(c, w) && s == Run(c, steps) && (forall x <- steps :: StepOk(c, x))
    requires s.segs == c.segs0 && 2 !in s.calls && Live(ReadWindow(c.segs0, w))
    ensures s' == Run(c, steps') && forall x <- steps' :: StepOk(c, x)
    ensures var v := ReadWindow(c.segs0, w);
            s' == s.(calls := s.calls[2 := Call(RollOver(v), Appending(0, None), v, 0, None)])
  {
    hide Run, LogSize, NewestBelow;
    var v, n := ReadWindow(c.segs0, w), |s.history|;
    var op := RollOver(v);
    assert w in c.segs0 && forall x | x in c.segs0 :: x <= w;
    var t1, s1 := Extend(c, steps, s, Invoke(2, op));
    var t2, s2 := Extend(c, t1, s1, Go(2, d));
    assert s2 == s.(calls := s.calls[2 := Call(op, Checking(ProbeH), v, n, None)]);
    var t3, s3 := Extend(c, t2, s2, Go(2, d));
    assert s3 == s.(calls := s.calls[2 := Call(op, Checking(ProbeH1), v, n, None)]);
    var t4, s4 := Extend(c, t3, s3, Go(2, d));
    assert s4 == s.(calls := s.calls[2 := Call(op, Checking(CurrentH), v, n, None)]);
    steps', s' := Extend(c, t4, s4, Go(2, d));
    assert s' == s.(calls := s.calls[2 := Call(op, Appending(0, None), v, 0, None)]);
  }

  /** A create finds the tombstone and is about to append at position zero of window h. */
  lemma CreatePrepares(c: Config, steps: seq<Step>, s: State, w: int, d: Instance) returns (steps': seq<Step>, s': State)
    requires ConfigOk(c) && Behind(c, w) && s == Run(c, steps) && (forall x <- steps :: StepOk(c, x))
    requires s.segs == c.segs0 && 2 !in s.calls && !Live(ReadWindow(c.segs0, w))
    ensures s' == Run(c, steps') && forall x <- steps' :: StepOk(c, x)
    ensures var v := ReadWindow(c.segs0, w);
            && v.InSegment? && v.window == w
            && s' == s.(calls := s.calls[2 := Call(RollOver(v), Appending(0, None), v, 0, None)])
  {
    hide Run, LogSize;
    var v, n := ReadWindow(c.segs0, w), |s.history|;
    var op := RollOver(v);
    var t1, s1 := Extend(c, steps, s, Invoke(2, op));
    var t2, s2 := ScanListed(c, t1, s1, 2, d, w);
    assert s2 == s.(calls := s.calls[2 := Call(op, Scanning(AtListed(w), ForCreate), Absent, n, None)]);
    hide NewestBelow;
    steps', s' := Extend(c, t2, s2, Go(2, d));
    assert s' == s.(calls := s.calls[2 := Call(op, Appending(0, None), v, 0, None)]);
  }

  /** It lands, passes its re-check, lists and collects the window the record came from. */
  lemma RollOverCollects(c: Config, steps: seq<Step>, s: State, w: int, d: Instance) returns (steps': seq<Step>, s': State)
    requires ConfigOk(c) && Behind(c, w) && s == Run(c, steps) && (forall x <- steps :: StepOk(c, x))
    requires s.segs == c.segs0 && s.history == [] && 2 in s.calls && c.max >= SEG_OVERHEAD
    requires var v := ReadWindow(c.segs0, w);
             v.InSegment? && v.window == w && s.calls[2] == Call(RollOver(v), Appending(0, None), v, 0, None)
    ensures s' == Run(c, steps') && forall x <- steps' :: StepOk(c, x)
    ensures s'.calls - {2} == s.calls - {2} && s'.legacy == s.legacy && w !in s'.segs
    ensures |s'.history| == 1 && s'.history[0].entry == Entry([], false, d)
  {
    hide Run, LogSize, Newest, EntrySize, NewestBelow;
    var e := Entry([], false, d);
    var t1, s1 := LandFirst(c, steps, s, 2, d);
    OneEntry(e);
    var t2, s2 := Extend(c, t1, s1, Go(2, d));
    assert s2 == s1.(calls := s1.calls[2 := s1.calls[2].(phase := Cleaning(false, true, {}))]);
    var t3, s3 := Extend(c, t2, s2, Go(2, d));
    assert w in s1.segs && w < c.h - 1;
    assert s3.segs == s1.segs && s3.calls - {2} == s1.calls - {2} && s3.calls[2].phase.Cleaning? && w in s3.calls[2].phase.victims;
    steps', s' := Extend(c, t3, s3, Collect(2, w, true));
  }

  /**
   The other way to miss it: a record in a window behind h-2 is listed, then carried into window h
   and its old window collected before the read. The Get reports not found, or the value of a
   legacy object left over from long before.
   */
  lemma GetMissesCollectedRecord(c: Config, w: int, d: Instance) returns (steps: seq<Step>, step: Step)
    requires ConfigOk(c) && Behind(c, w) && c.max >= SEG_OVERHEAD
    requires Live(ReadWindow(c.segs0, w)) || Live(ReadLegacy(c.legacy0))
    ensures (forall x <- steps :: StepOk(c, x)) && StepOk(c, step) && Replies(c, Run(c, steps), step, 1)
    ensures Run(c, steps).calls[1].seen == 0
    ensures var s' := Apply(c, Run(c, steps), step);
            && Answers(s'.calls[1].phase.reply, ReadLegacy(c.legacy0)) && !Right(c, s', 0, s'.calls[1].phase.reply)
  {
    hide Run, LogSize, Newest, Replay;
    RunNil(c);
    var t, s := Extend(c, [], Init(c), Invoke(1, Get));
    t, s := ScanListed(c, t, s, 1, d, w);
    assert s.calls == map[1 := Call(Get, Scanning(AtListed(w), ForGet), Absent, 0, None)];
    hide Apply, NewestBelow;
    var get := s.calls[1];
    if Live(ReadWindow(c.segs0, w)) { t, s := CasPrepares(c, t, s, w, d); } else { t, s := CreatePrepares(c, t, s, w, d); }
    t, s := RollOverCollects(c, t, s, w, d);
    assert 1 in s.calls - {2} && s.calls[1] == get;
    steps, step := LastReads(c, t, s, w, d);
    RolledOver(c, s, w);
  }

  /** The listed window is gone, so the reader turns to the legacy object. */
  lemma LastReads(c: Config, steps: seq<Step>, s: State, w: int, d: Instance) returns (steps': seq<Step>, step: Step)
    requires s == Run(c, steps) && (forall x <- steps :: StepOk(c, x)) && w !in s.segs
    requires 1 in s.calls && s.calls[1] == Call(Get, Scanning(AtListed(w), ForGet), Absent, 0, None)
    ensures (forall x <- steps' :: StepOk(c, x)) && StepOk(c, step) && Replies(c, Run(c, steps'), step, 1)
    ensures Run(c, steps').calls[1].seen == 0
    ensures var s' := Apply(c, Run(c, steps'), step);
            Answers(s'.calls[1].phase.reply, ReadLegacy(s.legacy)) && s'.history == s.history
  {
    hide Run, LogSize, Newest, NewestBelow;
    var s1;
    steps', s1 := Extend(c, steps, s, Go(1, d));
    assert s1 == s.(calls := s.calls[1 := Call(Get, Scanning(AtLegacy, ForGet), Absent, 0, None)]);
    step := Go(1, d);
  }

  /** None of the two records of that run is what the reader answered. */
  lemma RolledOver(c: Config, s: State, w: int)
    requires ConfigOk(c) && Behind(c, w) && |s.history| == 1 && !s.history[0].entry.deleted
    requires Live(ReadWindow(c.segs0, w)) || Live(ReadLegacy(c.legacy0))
    ensures forall s': State, reply | s'.history == s.history && Answers(reply, ReadLegacy(c.legacy0)) :: !Right(c, s', 0, reply)
  {
    assert Replay(c, s.history, 0) == ReadWindow(c.segs0, w);
    assert Replay(c, s.history, 1).InSegment? && Live(Replay(c, s.history, 1));
  }

  ghost predicate AlwaysRight(c: Config)
  {
    forall steps: seq<Step>, step: Step, id: nat |
      (forall x <- steps :: StepOk(c, x)) && StepOk(c, step) && Replies(c, Run(c, steps), step, id) ::
      Right(c, Apply(c, Run(c, steps), step), Run(c, steps).calls[id].seen, Apply(c, Run(c, steps), step).calls[id].phase.reply)
  }

  /** Every Get of every run is right if and only if the bucket was steady when the run began. */
  lemma GetRightExactly(c: Config, d: Instance)
    requires ConfigOk(c)
    ensures AlwaysRight(c) <==> Steady(c)
  {
    if Steady(c) {
      forall steps: seq<Step>, step: Step, id: nat |
        (forall x <- steps :: StepOk(c, x)) && StepOk(c, step) && Replies(c, Run(c, steps), step, id)
        ensures Right(c, Apply(c, Run(c, steps), step), Run(c, steps).calls[id].seen,
                      Apply(c, Run(c, steps), step).calls[id].phase.reply)
      {
        GetRightWhenSteady(c, steps, step, id);
      }
    } else {
      var steps, step := GetGoesWrong(c, d);
    }
  }

  lemma GetGoesWrong(c: Config, d: Instance) returns (steps: seq<Step>, step: Step)
    requires ConfigOk(c) && !Steady(c)
    ensures (forall x <- steps :: StepOk(c, x)) && StepOk(c, step) && Replies(c, Run(c, steps), step, 1)
    ensures var s := Run(c, steps);
            !Right(c, Apply(c, s, step), s.calls[1].seen, Apply(c, s, step).calls[1].phase.reply)
  {
    var v := Newest(c, c.segs0, c.legacy0);
    if v.InSegment? {
      steps, step := GetMissesCollectedRecord(c, v.window, d);
    } else {
      steps, step := GetMissesMigratingRecord(c, [], d);
    }
  }
}
