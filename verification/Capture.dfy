/**
 Capture of one cell's writes into its durable chain (internal/cellcapture/cellcapture.go), for
 every interleaving of Ensure calls, writers, capture loops, evictions and epoch changes.

 A transaction is identified by a number; the local file is the sequence of its transactions and
 its txid is the length. The chain is what a restore yields. Contracts of the packages below: a
 capture created at a position of the write-ahead log emits every later transaction once, numbered
 on from the baseline it was given; a snapshot is the whole file, labelled with its txid, and
 re-anchors the capture; the bucket takes nothing for an epoch that is no longer current; and a
 lookup for an epoch says how long the chain was at the end of it. Drop runs whatever calls are
 under way, since timers ensure and write without a request of their own. A cell whose ownership
 went elsewhere is reopened from the chain before this node serves it again.
 */
module Capture {
  import opened Bytes

  type Thread = nat
  type Id = nat
  type Tx = nat

  /**
   The file, the bucket and who owns the cell. `begun`: the current epoch has a marker or snapshot.
   `lost`: another node has written since this file was restored. `behind`: the file was restored
   from a chain missing its newest part. `closed`: the length of the chain at the end of an epoch.
   */
  datatype World = World(
    local: seq<Tx>, chain: seq<Tx>, begun: bool, epoch: nat, own: bool, lost: bool, behind: bool, closed: map<nat, nat>)

  /**
   Init: not started, its baseline being decided. Live: the loop runs. Dead: the loop has ended.
   Void: Ensure gave up on it, so the loop ended without having run.
   */
  datatype Mode = Init | Live | Dead | Void

  /** A capture: where it reads in the file, the txid it is at, and whether it was cancelled. */
  datatype Cap = Cap(epoch: nat, cursor: nat, next: nat, cancelled: bool, mode: Mode)

  /** Where a call of Ensure is, and the write that follows it. */
  datatype Phase =
    | Idle
    | Owned(e: nat)
    | Based(e: nat, b: nat)
    | Waiting(e: nat, id: Id)
    | Deciding(e: nat, b: nat, id: Id)
    | Asking(e: nat, b: nat, id: Id)
    | Asked(e: nat, b: nat, id: Id, has: bool)
    | Measured(e: nat, b: nat, id: Id, has: bool, d: nat)
    | Marking(e: nat, b: nat, id: Id)
    | Snapping(e: nat, b: nat, id: Id)
    | Granted(e: nat)
    | Wrote(n: nat)

  /** What Drop leaves for the next Ensure; `ran`: the capture had been started. */
  datatype Hint = Hint(epoch: nat, durable: nat, ran: bool)

  /**
   `broken`: the bucket was given a segment or snapshot that leaves a hole or contradicts the chain.
   `drops`: the captures a Drop is waiting for.
   */
  datatype State = State(
    w: World, broken: bool, caps: map<Id, Cap>, reg: Option<Id>, newId: Id, hint: Option<Hint>, drops: set<Id>,
    threads: map<Thread, Phase>, acked: seq<Tx>)

  const Start := State(World([], [], false, 0, true, false, false, map[]), false, map[], None, 0, None, {}, map[], [])

  /** Whether a writer of epoch markers is configured, and if not, whether the cell is a large one. */
  datatype Marker = HasWriter | NoneSmall | NoneLarge

  datatype Step =
    | Own(t: Thread)
    | Base(t: Thread)
    | Enter(t: Thread)
    | Ready(t: Thread)
    | TakeHint(t: Thread)
    | Ask(t: Thread, ok: bool, seen: bool)
    | Measure(t: Thread, ok: bool)
    | Compare(t: Thread, marker: Marker)
    | Mark(t: Thread, ok: bool)
    | Snap(t: Thread, ok: bool)
    | Write(t: Thread, tx: Tx)
    | Wait(t: Thread)
    | Leave(t: Thread)
    | Emit(id: Id)
    | Rebase(id: Id, reset: bool)
    | Fail(id: Id)
    | Cancel
    | Drop
    | LeaveHint(id: Id, ok: bool)
    | Advance(own: bool)
    | Foreign(txs: seq<Tx>)
    | Reopen(n: nat)

  // ------------------------------------------------------------------ the bucket

  /** A marker at `cut` opens the epoch where the chain ends; anywhere else it would cut or skip. */
  function LandMarker(s: State, cut: nat): State
  {
    if s.w.begun then s
    else s.(w := s.w.(begun := true), broken := s.broken || cut != |s.w.chain|)
  }

  function LandDelta(s: State, txid: nat, tx: Tx): State
  {
    if s.w.begun && txid == |s.w.chain| + 1 then s.(w := s.w.(chain := s.w.chain + [tx]))
    else if s.w.begun && 0 < txid <= |s.w.chain| && s.w.chain[txid - 1] == tx then s
    else s.(broken := true)
  }

  function LandSnapshot(s: State): State
  {
    s.(w := s.w.(chain := s.w.local, begun := true), broken := s.broken || !(s.w.chain <= s.w.local))
  }

  // ------------------------------------------------------------------ Ensure

  function PhaseOf(s: State, t: Thread): Phase { if t in s.threads then s.threads[t] else Idle }

  function Put(s: State, t: Thread, p: Phase): State { s.(threads := s.threads[t := p]) }

  predicate OwnsCap(p: Phase) { p.Deciding? || p.Asking? || p.Asked? || p.Measured? || p.Marking? || p.Snapping? }

  /** Ensure gives up: its capture is cancelled, stopped and taken out of the manager. */
  function GiveUp(s: State, t: Thread, id: Id): State
    requires id in s.caps
  {
    Put(s.(caps := s.caps[id := s.caps[id].(cancelled := true, mode := Void)], reg := if s.reg == Some(id) then None else s.reg),
        t, Idle)
  }

  function CancelReg(s: State): State
  {
    if s.reg.Some? && s.reg.value in s.caps
    then s.(caps := s.caps[s.reg.value := s.caps[s.reg.value].(cancelled := true)], reg := None)
    else s.(reg := None)
  }

  function DoEnter(s: State, t: Thread, e: nat, b: nat): State
  {
    if s.reg.Some? && s.reg.value in s.caps && s.caps[s.reg.value].epoch == e then Put(s, t, Waiting(e, s.reg.value))
    else
      var s1 := CancelReg(s);
      Put(s1.(caps := s1.caps[s.newId := Cap(e, |s.w.local|, b, false, Init)], reg := Some(s.newId), newId := s.newId + 1),
          t, Deciding(e, b, s.newId))
  }

  /** Once the capture waited for is ready, whatever capture is registered by then decides. */
  function DoReady(s: State, t: Thread, e: nat, id: Id): State
  {
    if id in s.caps && s.caps[id].mode.Init? then s
    else if s.reg.Some? && s.reg.value in s.caps && s.caps[s.reg.value].epoch == e then
      if s.caps[s.reg.value].mode.Dead? then Put(CancelReg(s), t, Owned(e)) else Put(s, t, Granted(e))
    else Put(s, t, Owned(e))
  }

  function GoLive(s: State, t: Thread, e: nat, id: Id): State
    requires id in s.caps
  {
    Put(s.(caps := s.caps[id := s.caps[id].(mode := Live)]), t, Granted(e))
  }

  /** takeHint: the epoch and the baseline, not the txid the file has by now. */
  predicate Matches(hint: Option<Hint>, e: nat, b: nat) { hint.Some? && hint.value.epoch == e && hint.value.durable == b }

  function DoTakeHint(s: State, t: Thread, e: nat, b: nat, id: Id): State
    requires id in s.caps
  {
    if Matches(s.hint, e, b) then GoLive(s.(hint := None), t, e, id)
    else Put(s.(hint := None), t, Asking(e, b, id))
  }

  function DoAsk(s: State, t: Thread, e: nat, b: nat, id: Id, ok: bool, seen: bool): State
  {
    if !ok then Put(s, t, Snapping(e, b, id))
    else Put(s, t, Asked(e, b, id, seen && (e == s.w.epoch ==> s.w.begun)))
  }

  function DoMeasure(s: State, t: Thread, p: Phase, ok: bool): State
    requires p.Asked?
  {
    if !ok then Put(s, t, Snapping(p.e, p.b, p.id))
    else if p.e == s.w.epoch then Put(s, t, Measured(p.e, p.b, p.id, p.has, |s.w.chain|))
    else if p.e in s.w.closed then Put(s, t, Measured(p.e, p.b, p.id, p.has, s.w.closed[p.e]))
    else s
  }

  function DoCompare(s: State, t: Thread, p: Phase, marker: Marker): State
    requires p.Measured? && p.id in s.caps
  {
    if p.d == 0 then Put(s, t, Snapping(p.e, p.b, p.id))
    else if p.d > |s.w.local| then GiveUp(s, t, p.id)
    else if p.d == p.b == |s.w.local| then
      if p.has then GoLive(s, t, p.e, p.id)
      else
        match marker
        case HasWriter => Put(s, t, Marking(p.e, p.b, p.id))
        case NoneSmall => Put(s, t, Snapping(p.e, p.b, p.id))
        case NoneLarge => GiveUp(s, t, p.id)
    else Put(s, t, Snapping(p.e, p.b, p.id))
  }

  function DoMark(s: State, t: Thread, e: nat, b: nat, id: Id, ok: bool): State
    requires id in s.caps
  {
    if !ok then GiveUp(s, t, id)
    else GoLive(if e == s.w.epoch then LandMarker(s, b) else s, t, e, id)
  }

  function DoSnap(s: State, t: Thread, e: nat, id: Id, ok: bool): State
    requires id in s.caps
  {
    if !ok || e != s.w.epoch then GiveUp(s, t, id)
    else
      var n := |s.w.local|;
      var s1 := LandSnapshot(s);
      Put(s1.(caps := s.caps[id := s.caps[id].(cursor := n, next := n, mode := Live)]), t, Granted(e))
  }

  function Ensure(s: State, step: Step, t: Thread, p: Phase): State
  {
    match step
    case Own(_) => if p.Idle? && s.w.own && !s.w.lost then Put(s, t, Owned(s.w.epoch)) else s
    case Base(_) => if p.Owned? then Put(s, t, Based(p.e, |s.w.local|)) else s
    case Enter(_) => if p.Based? then DoEnter(s, t, p.e, p.b) else s
    case Ready(_) => if p.Waiting? then DoReady(s, t, p.e, p.id) else s
    case TakeHint(_) => if p.Deciding? && p.id in s.caps then DoTakeHint(s, t, p.e, p.b, p.id) else s
    case Ask(_, ok, seen) => if p.Asking? then DoAsk(s, t, p.e, p.b, p.id, ok, seen) else s
    case Measure(_, ok) => if p.Asked? then DoMeasure(s, t, p, ok) else s
    case Compare(_, marker) => if p.Measured? && p.id in s.caps then DoCompare(s, t, p, marker) else s
    case Mark(_, ok) => if p.Marking? && p.id in s.caps then DoMark(s, t, p.e, p.b, p.id, ok) else s
    case Snap(_, ok) => if p.Snapping? && p.id in s.caps then DoSnap(s, t, p.e, p.id, ok) else s
    case Write(_, tx) =>
      if p.Granted? then Put(s.(w := s.w.(local := s.w.local + [tx])), t, Wrote(|s.w.local| + 1)) else s
    case Wait(_) =>
      if p.Wrote? && s.reg.Some? && s.reg.value in s.caps && p.n <= s.caps[s.reg.value].next && p.n <= |s.w.local|
      then Put(s.(acked := if p.n > |s.acked| then s.w.local[..p.n] else s.acked), t, Idle) else s
    case Leave(_) => if p.Owned? || p.Based? || p.Waiting? || p.Granted? || p.Wrote? then Put(s, t, Idle) else s
    case _ => s
  }

  // ------------------------------------------------------------------ loops, evictions, epochs

  function DoEmit(s: State, id: Id): State
  {
    if id !in s.caps || !s.caps[id].mode.Live? || s.caps[id].cursor >= |s.w.local| then s
    else
      var c := s.caps[id];
      if c.epoch != s.w.epoch then s.(caps := s.caps[id := c.(mode := Dead)])
      else LandDelta(s, c.next + 1, s.w.local[c.cursor]).(caps := s.caps[id := c.(cursor := c.cursor + 1, next := c.next + 1)])
  }

  /** A checkpoint's snapshot re-anchors the loop; a background baseline does not. */
  function DoRebase(s: State, id: Id, reset: bool): State
  {
    if id !in s.caps || !s.caps[id].mode.Live? || s.caps[id].epoch != s.w.epoch then s
    else
      var n := |s.w.local|;
      LandSnapshot(s).(caps := if reset then s.caps[id := s.caps[id].(cursor := n, next := n)] else s.caps)
  }

  function DoFail(s: State, id: Id): State
  {
    if id in s.caps && s.caps[id].mode.Live? then s.(caps := s.caps[id := s.caps[id].(mode := Dead)]) else s
  }

  predicate AllIdle(s: State) { forall t <- s.threads :: s.threads[t].Idle? }

  /** Drop cancels the capture and waits for its loop to end. */
  function DoDrop(s: State): State
  {
    if s.reg.None? || s.reg.value !in s.caps then s
    else CancelReg(s).(drops := s.drops + {s.reg.value})
  }

  /** Then it leaves the capture's watermark as a hint, unless it was told to stop waiting. */
  function DoLeaveHint(s: State, id: Id, ok: bool): State
  {
    if id !in s.drops || id !in s.caps || !(s.caps[id].mode.Dead? || s.caps[id].mode.Void? || !ok) then s
    else
      var c := s.caps[id];
      s.(drops := s.drops - {id}, hint := if ok && c.next > 0 then Some(Hint(c.epoch, c.next, c.mode.Dead?)) else s.hint)
  }

  function DoAdvance(s: State, own: bool): State
  {
    s.(w := s.w.(closed := s.w.closed[s.w.epoch := |s.w.chain|], epoch := s.w.epoch + 1, begun := false, own := own))
  }

  /** Another owner's epoch extends the chain. */
  function DoForeign(s: State, txs: seq<Tx>): State
  {
    if s.w.own then s else s.(w := s.w.(chain := s.w.chain + txs, lost := true))
  }

  /** The file is deleted and restored, from the whole chain or from a listing that missed the end. */
  function DoReopen(s: State, n: nat): State
  {
    if s.drops != {} || s.reg.Some? || (exists i <- s.caps :: s.caps[i].mode.Init? || s.caps[i].mode.Live?) || n > |s.w.chain| then s
    else s.(w := s.w.(local := s.w.chain[..n], lost := false, behind := n < |s.w.chain|), caps := map[], hint := None)
  }

  function Around(s: State, step: Step): State
  {
    match step
    case Emit(id) => DoEmit(s, id)
    case Rebase(id, reset) => DoRebase(s, id, reset)
    case Fail(id) => DoFail(s, id)
    case Cancel => CancelReg(s)
    case Drop => DoDrop(s)
    case LeaveHint(id, ok) => DoLeaveHint(s, id, ok)
    case Advance(own) => DoAdvance(s, own)
    case Foreign(txs) => DoForeign(s, txs)
    case Reopen(n) => DoReopen(s, n)
    case _ => s
  }

  predicate OfThread(step: Step)
  {
    !(step.Emit? || step.Rebase? || step.Fail? || step.Cancel? || step.Drop? || step.LeaveHint? || step.Advance? || step.Foreign?
      || step.Reopen?)
  }

  function Apply(s: State, step: Step): State
  {
    if OfThread(step) then Ensure(s, step, step.t, PhaseOf(s, step.t)) else Around(s, step)
  }

  function Run(steps: seq<Step>): State
  {
    if steps == [] then Start else Apply(Run(steps[..|steps| - 1]), steps[|steps| - 1])
  }

  // ------------------------------------------------------------------ the invariant

  /** The file and the chain have the same first n transactions. */
  predicate Agree(w: World, n: nat)
  {
    n <= |w.local| && n <= |w.chain| && w.local[..n] == w.chain[..n]
  }

  predicate Away(w: World) { !w.own || w.lost }

  predicate WorldOk(w: World)
  {
    && (!w.lost && !w.behind ==> w.chain <= w.local)
    && (w.behind ==> |w.local| < |w.chain|)
  }

  /** A length of the chain that a lookup may report. */
  predicate Durable(w: World, d: nat)
  {
    if w.behind then d > |w.local| else Agree(w, d)
  }

  predicate EpochOk(w: World, e: nat)
  {
    && e <= w.epoch && (Away(w) ==> e < w.epoch)
    && (e < w.epoch ==> e in w.closed && Durable(w, w.closed[e]))
  }

  predicate CapOk(w: World, c: Cap)
  {
    && c.epoch <= w.epoch && (Away(w) ==> c.epoch < w.epoch)
    && c.next <= c.cursor <= |w.local|
    && (c.mode.Live? || c.mode.Dead? ==> !w.behind && c.next == c.cursor && Agree(w, c.next) && (c.epoch == w.epoch ==> w.begun))
  }

  predicate PhaseOk(w: World, p: Phase)
  {
    match p
    case Idle => true
    case Owned(e) => EpochOk(w, e)
    case Based(e, b) => EpochOk(w, e) && b <= |w.local|
    case Waiting(e, _) => EpochOk(w, e)
    case Deciding(e, b, _) => EpochOk(w, e)
    case Asking(e, b, _) => EpochOk(w, e)
    case Asked(e, b, _, has) => EpochOk(w, e) && (e == w.epoch && has ==> w.begun)
    case Measured(e, b, _, has, d) =>
      EpochOk(w, e) && (e == w.epoch && has ==> w.begun) && Durable(w, d) && (e == w.epoch && !w.begun ==> d == |w.chain|)
    case Marking(e, b, _) => EpochOk(w, e) && !w.behind && Agree(w, b) && (e == w.epoch && !w.begun ==> b == |w.chain|)
    case Snapping(e, b, _) => EpochOk(w, e) && (e == w.epoch ==> !w.behind)
    case Granted(_) => !w.behind
    case Wrote(n) => n <= |w.local|
  }

  /** A call deciding on a capture is the only one to touch it. */
  predicate Link(caps: map<Id, Cap>, p: Phase)
  {
    OwnsCap(p) ==>
      && p.id in caps && caps[p.id].mode.Init? && caps[p.id].epoch == p.e && caps[p.id].next == p.b
      && (p.Marking? ==> caps[p.id].cursor == p.b)
  }

  predicate ThreadOk(s: State, p: Phase) { PhaseOk(s.w, p) && Link(s.caps, p) }

  /** What the file and the chain have in common reaches to n, and the epoch has begun if it is the current one. */
  predicate Anchored(w: World, e: nat, n: nat) { !w.behind && Agree(w, n) && (e == w.epoch ==> w.begun) }

  /** The watermark of a capture that ran is a true one, for as long as the file stays. */
  predicate HintOk(s: State)
  {
    s.hint.Some? ==> s.hint.value.epoch <= s.w.epoch && (s.hint.value.ran ==> Anchored(s.w, s.hint.value.epoch, s.hint.value.durable))
  }

  ghost predicate CapsOk(s: State)
  {
    forall i <- s.caps ::
      CapOk(s.w, s.caps[i]) && i < s.newId && (!s.caps[i].cancelled ==> s.reg == Some(i)) && (s.caps[i].mode.Void? ==> s.reg != Some(i))
  }

  ghost predicate ThreadsOk(s: State)
  {
    && (forall t <- s.threads :: ThreadOk(s, s.threads[t]))
    && (forall t, u | t in s.threads && u in s.threads && t != u && OwnsCap(s.threads[t]) && OwnsCap(s.threads[u]) ::
          s.threads[t].id != s.threads[u].id)
  }

  ghost predicate Inv(s: State)
  {
    !s.broken && WorldOk(s.w) && HintOk(s) && CapsOk(s) && ThreadsOk(s)
  }

  // ------------------------------------------------------------------ what the world may do meanwhile

  /** The file and the chain grow, within an epoch. */
  predicate Grows(w: World, w': World)
  {
    && w'.epoch == w.epoch && w'.own == w.own && w'.lost == w.lost && w'.behind == w.behind && w'.closed == w.closed
    && w.local <= w'.local && w.chain <= w'.chain && (w.begun ==> w'.begun)
    && (w.behind ==> w'.local == w.local)
    && (!w'.begun ==> w'.chain == w.chain)
  }

  lemma AgreeGrows(w: World, w': World, n: nat)
    requires Agree(w, n) && w.local <= w'.local && w.chain <= w'.chain
    ensures Agree(w', n)
  {
    assert w'.local[..n] == w.local[..n] && w'.chain[..n] == w.chain[..n];
  }

  lemma EpochGrows(w: World, w': World, e: nat)
    requires EpochOk(w, e) && Grows(w, w')
    ensures EpochOk(w', e)
  {
    if e < w.epoch && !w.behind { AgreeGrows(w, w', w.closed[e]); }
  }

  lemma CapGrows(w: World, w': World, c: Cap)
    requires CapOk(w, c) && Grows(w, w')
    ensures CapOk(w', c)
  {
    if c.mode.Live? || c.mode.Dead? { AgreeGrows(w, w', c.next); }
  }

  lemma HintGrows(s: State, s': State)
    requires HintOk(s) && Grows(s.w, s'.w) && s'.hint == s.hint
    ensures HintOk(s')
  {
    if s.hint.Some? && s.hint.value.ran { AgreeGrows(s.w, s'.w, s.hint.value.durable); }
  }

  lemma PhaseGrows(w: World, w': World, p: Phase)
    requires PhaseOk(w, p) && Grows(w, w')
    ensures PhaseOk(w', p)
  {
    if !p.Idle? && !p.Granted? && !p.Wrote? { EpochGrows(w, w', p.e); }
    if p.Measured? && !w.behind { AgreeGrows(w, w', p.d); }
    if p.Marking? { AgreeGrows(w, w', p.b); }
    hide EpochOk;
  }

  /** Captures other threads are deciding on stay as they are, up to cancellation. */
  ghost predicate KeepsInit(s: State, s': State, mine: Option<Id>)
  {
    forall i | i in s.caps && s.caps[i].mode.Init? && Some(i) != mine ::
      i in s'.caps && s'.caps[i].(cancelled := false) == s.caps[i].(cancelled := false)
  }

  lemma OtherThread(s: State, s': State, p: Phase, mine: Option<Id>)
    requires ThreadOk(s, p) && Grows(s.w, s'.w) && KeepsInit(s, s', mine)
    requires OwnsCap(p) ==> Some(p.id) != mine
    ensures ThreadOk(s', p)
  {
    PhaseGrows(s.w, s'.w, p);
    hide PhaseOk, Grows;
  }

  /** The capture the thread is deciding on, if any. */
  function Mine(p: Phase): Option<Id> { if OwnsCap(p) then Some(p.id) else None }

  lemma ThreadsMove(s: State, s': State, t: Thread, p': Phase)
    requires ThreadsOk(s) && s'.threads == s.threads[t := p'] && Grows(s.w, s'.w)
    requires KeepsInit(s, s', Mine(PhaseOf(s, t)))
    requires ThreadOk(s', p')
    requires OwnsCap(p') ==> Mine(PhaseOf(s, t)) == Some(p'.id) || p'.id !in s.caps
    ensures ThreadsOk(s')
  {
    hide ThreadOk, Grows, KeepsInit;
    forall u | u in s'.threads ensures ThreadOk(s', s'.threads[u]) {
      if u != t { OtherThread(s, s', s.threads[u], Mine(PhaseOf(s, t))); }
    }
    forall u | u in s.threads && OwnsCap(s.threads[u]) ensures s.threads[u].id in s.caps { OwnedIn(s, s.threads[u]); }
  }

  lemma OwnedIn(s: State, p: Phase)
    requires ThreadOk(s, p) && OwnsCap(p)
    ensures p.id in s.caps && s.caps[p.id].mode.Init? && s.caps[p.id].epoch == p.e && s.caps[p.id].next == p.b
  {
  }

  // ------------------------------------------------------------------ the steps of Ensure

  lemma Unchanged(w: World)
    ensures Grows(w, w)
  {
  }

  /** Steps that move nothing but the caller. */
  lemma PlainMove(s: State, t: Thread, p': Phase)
    requires Inv(s) && ThreadOk(s, p')
    requires OwnsCap(p') ==> Mine(PhaseOf(s, t)) == Some(p'.id)
    ensures Inv(Put(s, t, p'))
  {
    var s' := Put(s, t, p');
    Unchanged(s.w);
    assert ThreadOk(s', p');
    hide ThreadOk, HintOk, WorldOk, CapOk, Grows;
    ThreadsMove(s, s', t, p');
  }

  lemma ThreadAt(s: State, t: Thread)
    requires Inv(s)
    ensures ThreadOk(s, PhaseOf(s, t))
  {
    hide HintOk, WorldOk, CapsOk;
  }

  /** The registered capture is cancelled and let go. */
  lemma CancelKeeps(s: State)
    requires Inv(s)
    ensures Inv(CancelReg(s)) && CancelReg(s).reg.None? && KeepsInit(s, CancelReg(s), None)
    ensures CancelReg(s).w == s.w && CancelReg(s).threads == s.threads && CancelReg(s).hint == s.hint
  {
    var s' := CancelReg(s);
    assert CapsOk(s') by { hide CapOk; CancelCaps(s); }
    assert ThreadsOk(s') by { CancelThreads(s); }
  }

  lemma CancelCaps(s: State)
    requires CapsOk(s)
    ensures CapsOk(CancelReg(s))
  {
    var s' := CancelReg(s);
    forall i | i in s'.caps ensures CapOk(s'.w, s'.caps[i]) && i < s'.newId && (!s'.caps[i].cancelled ==> s'.reg == Some(i)) {
      assert i in s.caps && CapOk(s.w, s.caps[i]) && i < s.newId;
    }
    assert s'.reg.None?;
  }

  lemma CancelThreads(s: State)
    requires ThreadsOk(s)
    ensures ThreadsOk(CancelReg(s))
  {
    var s' := CancelReg(s);
    Unchanged(s.w);
    assert KeepsInit(s, s', None);
    hide ThreadOk, Grows, KeepsInit;
    forall u | u in s'.threads ensures ThreadOk(s', s'.threads[u]) { OtherThread(s, s', s.threads[u], None); }
  }

  /** A new capture reads from the end of the file, at or past the baseline. */
  lemma NewKeeps(s: State, t: Thread, e: nat, b: nat)
    requires Inv(s) && s.reg.None? && PhaseOf(s, t) == Based(e, b)
    ensures Inv(Put(s.(caps := s.caps[s.newId := Cap(e, |s.w.local|, b, false, Init)], reg := Some(s.newId), newId := s.newId + 1),
                    t, Deciding(e, b, s.newId)))
  {
    ThreadAt(s, t);
    var c := Cap(e, |s.w.local|, b, false, Init);
    var p' := Deciding(e, b, s.newId);
    var s' := Put(s.(caps := s.caps[s.newId := c], reg := Some(s.newId), newId := s.newId + 1), t, p');
    assert CapOk(s.w, c);
    assert forall i <- s.caps :: i < s.newId;
    Unchanged(s.w);
    assert ThreadOk(s', p');
    assert HintOk(s');
    hide ThreadOk, HintOk, WorldOk, CapOk, Grows;
    ThreadsMove(s, s', t, p');
  }

  lemma EnterKeeps(s: State, t: Thread)
    requires Inv(s) && PhaseOf(s, t).Based?
    ensures Inv(DoEnter(s, t, PhaseOf(s, t).e, PhaseOf(s, t).b))
  {
    var p := PhaseOf(s, t);
    ThreadAt(s, t);
    if s.reg.Some? && s.reg.value in s.caps && s.caps[s.reg.value].epoch == p.e {
      PlainMove(s, t, Waiting(p.e, s.reg.value));
    } else {
      CancelKeeps(s);
      hide Inv;
      NewKeeps(CancelReg(s), t, p.e, p.b);
    }
  }

  /** Ensure returns early with a capture still being decided on. */
  predicate GrantsEarly(s: State, t: Thread)
  {
    var p := PhaseOf(s, t);
    && p.Waiting? && !(p.id in s.caps && s.caps[p.id].mode.Init?)
    && s.reg.Some? && s.reg.value in s.caps && s.caps[s.reg.value].epoch == p.e && s.caps[s.reg.value].mode.Init?
  }

  lemma ReadyKeeps(s: State, t: Thread)
    requires Inv(s) && PhaseOf(s, t).Waiting? && !(s.w.behind && GrantsEarly(s, t))
    ensures Inv(DoReady(s, t, PhaseOf(s, t).e, PhaseOf(s, t).id))
  {
    var p := PhaseOf(s, t);
    ThreadAt(s, t);
    if p.id in s.caps && s.caps[p.id].mode.Init? {
    } else if s.reg.Some? && s.reg.value in s.caps && s.caps[s.reg.value].epoch == p.e {
      assert CapOk(s.w, s.caps[s.reg.value]);
      if s.caps[s.reg.value].mode.Dead? {
        CancelKeeps(s);
        PlainMove(CancelReg(s), t, Owned(p.e));
      } else {
        PlainMove(s, t, Granted(p.e));
      }
    } else {
      PlainMove(s, t, Owned(p.e));
    }
  }

  lemma GiveUpKeeps(s: State, t: Thread)
    requires Inv(s) && OwnsCap(PhaseOf(s, t)) && PhaseOf(s, t).id in s.caps
    ensures Inv(GiveUp(s, t, PhaseOf(s, t).id))
  {
    var id := PhaseOf(s, t).id;
    var s' := GiveUp(s, t, id);
    Unchanged(s.w);
    assert KeepsInit(s, s', Some(id));
    assert CapOk(s.w, s.caps[id]);
    assert CapsOk(s') by { assert CapOk(s'.w, s'.caps[id]); hide CapOk; }
    hide ThreadOk, WorldOk, CapOk, Grows, KeepsInit;
    assert ThreadOk(s', Idle) by { IdleOk(s'); }
    ThreadsMove(s, s', t, Idle);
  }

  lemma IdleOk(s: State)
    ensures ThreadOk(s, Idle)
  {
  }

  /** A capture may go on where the chain ends: its position, its number and the chain agree. */
  lemma LiveKeeps(s: State, t: Thread, w': World)
    requires Inv(s) && OwnsCap(PhaseOf(s, t)) && Grows(s.w, w') && WorldOk(w') && !w'.behind && w'.local == s.w.local
    requires var p := PhaseOf(s, t);
             p.id in s.caps && s.caps[p.id].cursor == p.b && Agree(w', p.b) && (p.e == w'.epoch ==> w'.begun)
    ensures Inv(GoLive(s.(w := w'), t, PhaseOf(s, t).e, PhaseOf(s, t).id))
  {
    var p := PhaseOf(s, t);
    ThreadAt(s, t);
    OwnedIn(s, p);
    var s' := GoLive(s.(w := w'), t, p.e, p.id);
    LiveCaps(s, w', p.id);
    HintGrows(s, s');
    assert KeepsInit(s, s', Some(p.id));
    assert ThreadOk(s', Granted(p.e));
    hide ThreadOk, WorldOk, CapOk, Grows, KeepsInit, CapsOk, HintOk;
    ThreadsMove(s, s', t, Granted(p.e));
  }

  lemma LiveCaps(s: State, w': World, id: Id)
    requires CapsOk(s) && Grows(s.w, w') && !w'.behind && id in s.caps
    requires var c := s.caps[id]; c.cursor == c.next && Agree(w', c.next) && (c.epoch == w'.epoch ==> w'.begun)
    ensures CapsOk(s.(w := w', caps := s.caps[id := s.caps[id].(mode := Live)]))
  {
    var s' := s.(w := w', caps := s.caps[id := s.caps[id].(mode := Live)]);
    forall i | i in s'.caps ensures CapOk(w', s'.caps[i]) { CapGrows(s.w, w', s.caps[i]); }
    hide CapOk, Grows;
  }

  /** The call resumes on a hint. */
  predicate Resumes(s: State, t: Thread)
  {
    var p := PhaseOf(s, t);
    p.Deciding? && p.id in s.caps && Matches(s.hint, p.e, p.b)
  }

  /**
   What canResume would have found out: nobody wrote between the call's baseline and its capture,
   and the chain has that baseline, in an epoch that has begun.
   */
  predicate Fits(s: State, t: Thread)
    requires Resumes(s, t)
  {
    var p := PhaseOf(s, t);
    s.caps[p.id].cursor == p.b && Anchored(s.w, p.e, p.b)
  }

  lemma TakeHintKeeps(s: State, t: Thread)
    requires Inv(s) && PhaseOf(s, t).Deciding? && (Resumes(s, t) ==> Fits(s, t))
    ensures PhaseOf(s, t).id in s.caps
    ensures Inv(DoTakeHint(s, t, PhaseOf(s, t).e, PhaseOf(s, t).b, PhaseOf(s, t).id))
  {
    var p, s1 := PhaseOf(s, t), s.(hint := None);
    ThreadAt(s, t);
    OwnedIn(s, p);
    Unchanged(s.w);
    NoHint(s);
    if Matches(s.hint, p.e, p.b) {
      LiveKeeps(s1, t, s1.w);
      assert s1.(w := s1.w) == s1;
    } else {
      PlainMove(s1, t, Asking(p.e, p.b, p.id));
    }
  }

  lemma NoHint(s: State)
    requires Inv(s)
    ensures Inv(s.(hint := None))
  {
    var s1 := s.(hint := None);
    forall u | u in s1.threads ensures ThreadOk(s1, s1.threads[u]) { assert ThreadOk(s, s.threads[u]); }
  }

  /** The call is about to decide, in the current epoch, on a file behind the chain. */
  predicate Blind(s: State, t: Thread)
  {
    var p := PhaseOf(s, t);
    s.w.behind && (p.Asking? || p.Asked?) && p.e == s.w.epoch
  }

  lemma AskKeeps(s: State, t: Thread, ok: bool, seen: bool)
    requires Inv(s) && PhaseOf(s, t).Asking? && (ok || !Blind(s, t))
    ensures Inv(DoAsk(s, t, PhaseOf(s, t).e, PhaseOf(s, t).b, PhaseOf(s, t).id, ok, seen))
  {
    var p := PhaseOf(s, t);
    ThreadAt(s, t);
    hide Inv;
    if !ok { PlainMove(s, t, Snapping(p.e, p.b, p.id)); }
    else { PlainMove(s, t, Asked(p.e, p.b, p.id, seen && (p.e == s.w.epoch ==> s.w.begun))); }
  }

  lemma ChainIsDurable(s: State, e: nat)
    requires WorldOk(s.w) && EpochOk(s.w, e)
    ensures e == s.w.epoch ==> Durable(s.w, |s.w.chain|)
    ensures e < s.w.epoch ==> e in s.w.closed && Durable(s.w, s.w.closed[e])
  {
    if e == s.w.epoch && !s.w.behind { assert s.w.chain[..|s.w.chain|] == s.w.chain; }
  }

  lemma MeasureKeeps(s: State, t: Thread, ok: bool)
    requires Inv(s) && PhaseOf(s, t).Asked? && (ok || !Blind(s, t))
    ensures Inv(DoMeasure(s, t, PhaseOf(s, t), ok))
  {
    var p := PhaseOf(s, t);
    ThreadAt(s, t);
    ChainIsDurable(s, p.e);
    hide Inv, Durable;
    if !ok { PlainMove(s, t, Snapping(p.e, p.b, p.id)); }
    else if p.e == s.w.epoch { PlainMove(s, t, Measured(p.e, p.b, p.id, p.has, |s.w.chain|)); }
    else { PlainMove(s, t, Measured(p.e, p.b, p.id, p.has, s.w.closed[p.e])); }
  }

  lemma CompareKeeps(s: State, t: Thread, marker: Marker)
    requires Inv(s) && PhaseOf(s, t).Measured?
    ensures PhaseOf(s, t).id in s.caps
    ensures Inv(DoCompare(s, t, PhaseOf(s, t), marker))
  {
    var p := PhaseOf(s, t);
    ThreadAt(s, t);
    OwnedIn(s, p);
    if p.d == 0 {
      hide Inv;
      PlainMove(s, t, Snapping(p.e, p.b, p.id));
    } else if p.d > |s.w.local| {
      GiveUpKeeps(s, t);
    } else if p.d == p.b == |s.w.local| {
      AgreedKeeps(s, t, marker);
    } else {
      hide Inv;
      PlainMove(s, t, Snapping(p.e, p.b, p.id));
    }
  }

  /** File, baseline and chain have the same txid: the capture's position is the baseline too. */
  lemma AgreedKeeps(s: State, t: Thread, marker: Marker)
    requires Inv(s) && PhaseOf(s, t).Measured? && PhaseOf(s, t).id in s.caps
    requires var p := PhaseOf(s, t); 0 < p.d == p.b == |s.w.local|
    ensures Inv(DoCompare(s, t, PhaseOf(s, t), marker))
  {
    var p := PhaseOf(s, t);
    ThreadAt(s, t);
    OwnedIn(s, p);
    assert CapOk(s.w, s.caps[p.id]);
    assert s.caps[p.id].cursor == p.b;
    if p.has {
      Unchanged(s.w);
      LiveKeeps(s, t, s.w);
      assert s.(w := s.w) == s;
    } else if marker.HasWriter? {
      hide Inv;
      PlainMove(s, t, Marking(p.e, p.b, p.id));
    } else if marker.NoneSmall? {
      hide Inv;
      PlainMove(s, t, Snapping(p.e, p.b, p.id));
    } else {
      GiveUpKeeps(s, t);
    }
  }

  lemma MarkKeeps(s: State, t: Thread, ok: bool)
    requires Inv(s) && PhaseOf(s, t).Marking?
    ensures PhaseOf(s, t).id in s.caps
    ensures Inv(DoMark(s, t, PhaseOf(s, t).e, PhaseOf(s, t).b, PhaseOf(s, t).id, ok))
  {
    var p := PhaseOf(s, t);
    ThreadAt(s, t);
    OwnedIn(s, p);
    if !ok {
      GiveUpKeeps(s, t);
    } else if p.e == s.w.epoch {
      var w' := s.w.(begun := true);
      LiveKeeps(s, t, w');
      assert LandMarker(s, p.b) == s.(w := w');
    } else {
      Unchanged(s.w);
      LiveKeeps(s, t, s.w);
      assert s.(w := s.w) == s;
    }
  }

  /** A snapshot of a file that extends the chain. */
  lemma SnapshotGrows(s: State)
    requires Inv(s) && s.w.own && !s.w.lost && !s.w.behind
    ensures var s1 := LandSnapshot(s);
            !s1.broken && Grows(s.w, s1.w) && WorldOk(s1.w) && Agree(s1.w, |s.w.local|) && s1.w.begun
  {
  }

  lemma AnchoredCaps(s: State, w': World, id: Id)
    requires CapsOk(s) && Grows(s.w, w') && !w'.behind && id in s.caps && Agree(w', |w'.local|) && w'.begun
    ensures CapsOk(s.(w := w', caps := s.caps[id := s.caps[id].(cursor := |w'.local|, next := |w'.local|, mode := Live)]))
  {
    var s' := s.(w := w', caps := s.caps[id := s.caps[id].(cursor := |w'.local|, next := |w'.local|, mode := Live)]);
    forall i | i in s'.caps ensures CapOk(w', s'.caps[i]) { CapGrows(s.w, w', s.caps[i]); }
    hide CapOk, Grows;
  }

  lemma SnapKeeps(s: State, t: Thread, ok: bool)
    requires Inv(s) && PhaseOf(s, t).Snapping?
    ensures PhaseOf(s, t).id in s.caps
    ensures Inv(DoSnap(s, t, PhaseOf(s, t).e, PhaseOf(s, t).id, ok))
  {
    var p := PhaseOf(s, t);
    ThreadAt(s, t);
    OwnedIn(s, p);
    if !ok || p.e != s.w.epoch {
      GiveUpKeeps(s, t);
    } else {
      SnapshotGrows(s);
      var s' := DoSnap(s, t, p.e, p.id, ok);
      AnchoredCaps(s, s'.w, p.id);
      assert KeepsInit(s, s', Some(p.id));
      assert ThreadOk(s', Granted(p.e));
      hide ThreadOk, WorldOk, CapOk, Grows, KeepsInit, CapsOk;
      ThreadsMove(s, s', t, Granted(p.e));
    }
  }

  lemma WriteKeeps(s: State, t: Thread, tx: Tx)
    requires Inv(s) && PhaseOf(s, t).Granted?
    ensures Inv(Put(s.(w := s.w.(local := s.w.local + [tx])), t, Wrote(|s.w.local| + 1)))
  {
    var w' := s.w.(local := s.w.local + [tx]);
    var s' := Put(s.(w := w'), t, Wrote(|s.w.local| + 1));
    ThreadAt(s, t);
    assert Grows(s.w, w') && WorldOk(w');
    HintGrows(s, s');
    forall i | i in s'.caps ensures CapOk(w', s'.caps[i]) { CapGrows(s.w, w', s.caps[i]); }
    assert ThreadOk(s', s'.threads[t]);
    hide ThreadOk, WorldOk, CapOk, Grows;
    ThreadsMove(s, s', t, s'.threads[t]);
  }

  lemma AckedFree(s: State, acked: seq<Tx>)
    requires Inv(s)
    ensures Inv(s.(acked := acked))
  {
    var s' := s.(acked := acked);
    forall u | u in s'.threads ensures ThreadOk(s', s'.threads[u]) { assert ThreadOk(s, s.threads[u]); }
  }

  /**
   What the guarantees of the chain ask of a run: no resume on a hint that does not fit, no file
   replaced under a call, and no blind snapshot or early return on a file behind the chain.
   */
  predicate StepOk(s: State, step: Step)
  {
    && (step.TakeHint? && Resumes(s, step.t) ==> Fits(s, step.t))
    && (step.Reopen? ==> AllIdle(s))
    && ((step.Ask? || step.Measure?) && !step.ok ==> !Blind(s, step.t))
    && (step.Ready? && GrantsEarly(s, step.t) ==> !s.w.behind)
  }

  lemma LeaveKeeps(s: State, t: Thread)
    requires Inv(s) && Mine(PhaseOf(s, t)).None?
    ensures Inv(Put(s, t, Idle))
  {
    IdleOk(s);
    hide Inv;
    PlainMove(s, t, Idle);
  }

  lemma OwnKeeps(s: State, t: Thread)
    requires Inv(s)
    ensures PhaseOf(s, t).Idle? && s.w.own && !s.w.lost ==> Inv(Put(s, t, Owned(s.w.epoch)))
    ensures PhaseOf(s, t).Owned? ==> Inv(Put(s, t, Based(PhaseOf(s, t).e, |s.w.local|)))
  {
    ThreadAt(s, t);
    hide Inv;
    if PhaseOf(s, t).Idle? && s.w.own && !s.w.lost { PlainMove(s, t, Owned(s.w.epoch)); }
    if PhaseOf(s, t).Owned? { PlainMove(s, t, Based(PhaseOf(s, t).e, |s.w.local|)); }
  }

  lemma EnsureKeeps(s: State, step: Step)
    requires Inv(s) && StepOk(s, step) && OfThread(step)
    ensures Inv(Apply(s, step))
  {
    var t := step.t;
    var p := PhaseOf(s, t);
    hide Inv, DoEnter, DoReady, DoTakeHint, DoAsk, DoMeasure, DoCompare, DoMark, DoSnap;
    match step
    case Own(_) => OwnKeeps(s, t);
    case Base(_) => OwnKeeps(s, t);
    case Enter(_) => if p.Based? { EnterKeeps(s, t); }
    case Ready(_) => if p.Waiting? { ReadyKeeps(s, t); }
    case TakeHint(_) => if p.Deciding? { TakeHintKeeps(s, t); }
    case Ask(_, ok, seen) => if p.Asking? { AskKeeps(s, t, ok, seen); }
    case Measure(_, ok) => if p.Asked? { MeasureKeeps(s, t, ok); }
    case Compare(_, marker) => if p.Measured? { CompareKeeps(s, t, marker); }
    case Mark(_, ok) => if p.Marking? { MarkKeeps(s, t, ok); }
    case Snap(_, ok) => if p.Snapping? { SnapKeeps(s, t, ok); }
    case Write(_, tx) => if p.Granted? { WriteKeeps(s, t, tx); }
    case Wait(_) =>
      if p.Wrote? && p.n <= |s.w.local| {
        var acked := if p.n > |s.acked| then s.w.local[..p.n] else s.acked;
        AckedFree(s, acked);
        LeaveKeeps(s.(acked := acked), t);
      }
    case Leave(_) => if !OwnsCap(p) { LeaveKeeps(s, t); }
  }

  // ------------------------------------------------------------------ the steps around it

  /** No call moves, the world grows. */
  lemma ThreadsStay(s: State, s': State)
    requires ThreadsOk(s) && s'.threads == s.threads && Grows(s.w, s'.w) && KeepsInit(s, s', None)
    ensures ThreadsOk(s')
  {
    hide ThreadOk, Grows, KeepsInit;
    forall u | u in s'.threads ensures ThreadOk(s', s'.threads[u]) { OtherThread(s, s', s.threads[u], None); }
  }

  /** The next segment of a live capture is the next transaction of the chain, or one it has. */
  lemma EmitLands(s: State, id: Id)
    requires Inv(s) && id in s.caps && s.caps[id].mode.Live? && s.caps[id].cursor < |s.w.local| && s.caps[id].epoch == s.w.epoch
    ensures var c := s.caps[id]; var s1 := LandDelta(s, c.next + 1, s.w.local[c.cursor]);
            && !s1.broken && Grows(s.w, s1.w) && WorldOk(s1.w) && s1.w.local == s.w.local && Agree(s1.w, c.next + 1)
            && s1 == s.(w := s1.w)
  {
    var c := s.caps[id];
    assert CapOk(s.w, c);
    hide CapsOk, ThreadsOk, HintOk;
    assert s.w.chain <= s.w.local && c.next <= |s.w.chain|;
    if |s.w.chain| > c.next { assert s.w.chain[c.next] == s.w.local[c.next]; }
  }

  lemma EmitKeeps(s: State, id: Id)
    requires Inv(s)
    ensures Inv(DoEmit(s, id))
  {
    if id !in s.caps || !s.caps[id].mode.Live? || s.caps[id].cursor >= |s.w.local| { return; }
    var s', c := DoEmit(s, id), s.caps[id];
    if c.epoch != s.w.epoch {
      DeadKeeps(s, id);
    } else {
      EmitLands(s, id);
      assert CapsOk(s') by { EmitCaps(s, s', id); }
      assert KeepsInit(s, s', None);
      HintGrows(s, s');
      hide ThreadOk, WorldOk, CapOk, Grows, KeepsInit, CapsOk, HintOk;
      ThreadsStay(s, s');
    }
  }

  lemma EmitCaps(s: State, s': State, id: Id)
    requires CapsOk(s) && id in s.caps && s.caps[id].mode.Live? && Grows(s.w, s'.w) && s'.newId == s.newId && s'.reg == s.reg
    requires s.caps[id].cursor < |s.w.local| && s'.w.local == s.w.local && Agree(s'.w, s.caps[id].next + 1)
    requires s'.caps == s.caps[id := s.caps[id].(cursor := s.caps[id].cursor + 1, next := s.caps[id].next + 1)]
    ensures CapsOk(s')
  {
    forall i | i in s'.caps ensures CapOk(s'.w, s'.caps[i]) { CapGrows(s.w, s'.w, s.caps[i]); }
    hide CapOk, Grows;
  }

  lemma DeadKeeps(s: State, id: Id)
    requires Inv(s) && id in s.caps && s.caps[id].mode.Live?
    ensures Inv(s.(caps := s.caps[id := s.caps[id].(mode := Dead)]))
  {
    var s' := s.(caps := s.caps[id := s.caps[id].(mode := Dead)]);
    Unchanged(s.w);
    assert CapOk(s.w, s.caps[id]);
    assert CapsOk(s') by { assert CapOk(s.w, s.caps[id].(mode := Dead)); hide CapOk; }
    assert KeepsInit(s, s', None);
    HintGrows(s, s');
    hide ThreadOk, WorldOk, CapOk, Grows, KeepsInit, CapsOk, HintOk;
    ThreadsStay(s, s');
  }

  lemma RebaseKeeps(s: State, id: Id, reset: bool)
    requires Inv(s)
    ensures Inv(DoRebase(s, id, reset))
  {
    if id !in s.caps || !s.caps[id].mode.Live? || s.caps[id].epoch != s.w.epoch { return; }
    var s' := DoRebase(s, id, reset);
    assert CapOk(s.w, s.caps[id]);
    SnapshotGrows(s);
    assert CapsOk(s') by {
      if reset { AnchoredCaps(s, s'.w, id); }
      else { forall i | i in s'.caps ensures CapOk(s'.w, s'.caps[i]) { CapGrows(s.w, s'.w, s.caps[i]); } }
    }
    assert KeepsInit(s, s', None);
    HintGrows(s, s');
    hide ThreadOk, WorldOk, CapOk, Grows, KeepsInit, CapsOk, HintOk;
    ThreadsStay(s, s');
  }

  lemma DropKeeps(s: State)
    requires Inv(s)
    ensures Inv(DoDrop(s))
  {
    CancelKeeps(s);
    if s.reg.Some? && s.reg.value in s.caps { AsideKeeps(CancelReg(s), s.hint, s.drops + {s.reg.value}); }
  }

  /** Hints and drops under way concern no call and no capture. */
  lemma AsideKeeps(s: State, hint: Option<Hint>, drops: set<Id>)
    requires Inv(s) && HintOk(s.(hint := hint))
    ensures Inv(s.(hint := hint, drops := drops))
  {
    var s' := s.(hint := hint, drops := drops);
    forall u | u in s'.threads ensures ThreadOk(s', s'.threads[u]) { assert ThreadOk(s, s.threads[u]); }
    hide ThreadOk, CapOk, WorldOk;
  }

  lemma LeaveHintKeeps(s: State, id: Id, ok: bool)
    requires Inv(s)
    ensures Inv(DoLeaveHint(s, id, ok))
  {
    var s' := DoLeaveHint(s, id, ok);
    if s' != s {
      assert CapOk(s.w, s.caps[id]);
      AsideKeeps(s, s'.hint, s'.drops);
    }
  }

  /** The epochs of the calls under way become past ones. */
  lemma EpochPasses(s: State, own: bool, e: nat)
    requires WorldOk(s.w) && EpochOk(s.w, e)
    ensures EpochOk(DoAdvance(s, own).w, e) && e < s.w.epoch + 1
  {
    ChainIsDurable(s, e);
  }

  lemma AdvanceKeeps(s: State, own: bool)
    requires Inv(s)
    ensures Inv(DoAdvance(s, own))
  {
    var s' := DoAdvance(s, own);
    assert CapsOk(s') by {
      forall i | i in s'.caps ensures CapOk(s'.w, s'.caps[i]) { assert CapOk(s.w, s.caps[i]); }
      hide CapOk;
    }
    forall u | u in s'.threads ensures ThreadOk(s', s'.threads[u]) { AdvanceThread(s, own, s.threads[u]); }
    hide ThreadOk, CapsOk;
  }

  lemma AdvanceThread(s: State, own: bool, p: Phase)
    requires WorldOk(s.w) && ThreadOk(s, p)
    ensures ThreadOk(DoAdvance(s, own), p)
  {
    if !p.Idle? && !p.Granted? && !p.Wrote? { EpochPasses(s, own, p.e); }
    hide EpochOk, WorldOk;
  }

  lemma ForeignThread(s: State, txs: seq<Tx>, p: Phase)
    requires !s.w.own && ThreadOk(s, p)
    ensures ThreadOk(DoForeign(s, txs), p)
  {
    var w, w' := s.w, DoForeign(s, txs).w;
    assert w.chain <= w'.chain;
    if !p.Idle? && !p.Granted? && !p.Wrote? && !w.behind { AgreeGrows(w, w', w.closed[p.e]); }
    if p.Measured? && !w.behind { AgreeGrows(w, w', p.d); }
    if p.Marking? { AgreeGrows(w, w', p.b); }
    hide Agree;
  }

  lemma ForeignKeeps(s: State, txs: seq<Tx>)
    requires Inv(s)
    ensures Inv(DoForeign(s, txs))
  {
    if s.w.own { return; }
    var s' := DoForeign(s, txs);
    assert s.w.chain <= s'.w.chain;
    if s.hint.Some? && s.hint.value.ran { AgreeGrows(s.w, s'.w, s.hint.value.durable); }
    assert CapsOk(s') by {
      forall i | i in s'.caps ensures CapOk(s'.w, s'.caps[i]) {
        assert CapOk(s.w, s.caps[i]);
        if s.caps[i].mode.Live? || s.caps[i].mode.Dead? { AgreeGrows(s.w, s'.w, s.caps[i].next); }
      }
      hide CapOk;
    }
    forall u | u in s'.threads ensures ThreadOk(s', s'.threads[u]) { ForeignThread(s, txs, s.threads[u]); }
    hide ThreadOk, CapsOk;
  }

  lemma ReopenKeeps(s: State, n: nat)
    requires Inv(s) && AllIdle(s)
    ensures Inv(DoReopen(s, n))
  {
    var s' := DoReopen(s, n);
    if s' != s {
      forall u | u in s'.threads ensures ThreadOk(s', s'.threads[u]) { IdleOk(s'); }
    }
  }

  lemma FailKeeps(s: State, id: Id)
    requires Inv(s)
    ensures Inv(DoFail(s, id))
  {
    if id in s.caps && s.caps[id].mode.Live? { DeadKeeps(s, id); }
  }

  lemma ApplyKeeps(s: State, step: Step)
    requires Inv(s) && StepOk(s, step)
    ensures Inv(Apply(s, step))
  {
    if OfThread(step) {
      EnsureKeeps(s, step);
    } else {
      hide Inv, AllIdle, DoEmit, DoRebase, DoFail, CancelReg, DoDrop, DoLeaveHint, DoAdvance, DoForeign, DoReopen;
      match step
      case Emit(id) => EmitKeeps(s, id);
      case Rebase(id, reset) => RebaseKeeps(s, id, reset);
      case Fail(id) => FailKeeps(s, id);
      case Cancel => CancelKeeps(s);
      case Drop => DropKeeps(s);
      case LeaveHint(id, ok) => LeaveHintKeeps(s, id, ok);
      case Advance(own) => AdvanceKeeps(s, own);
      case Foreign(txs) => ForeignKeeps(s, txs);
      case Reopen(n) => ReopenKeeps(s, n);
    }
  }

  // ------------------------------------------------------------------ what every run guarantees

  ghost predicate RunOk(steps: seq<Step>)
  {
    forall i | 0 <= i < |steps| :: StepOk(Run(steps[..i]), steps[i])
  }

  lemma PrefixOk(steps: seq<Step>)
    requires RunOk(steps) && steps != []
    ensures RunOk(steps[..|steps| - 1]) && StepOk(Run(steps[..|steps| - 1]), steps[|steps| - 1])
  {
    var front := steps[..|steps| - 1];
    hide StepOk, Run;
    forall i | 0 <= i < |front| ensures StepOk(Run(front[..i]), front[i]) { assert front[..i] == steps[..i]; }
  }

  lemma {:induction false} RunKeeps(steps: seq<Step>)
    requires RunOk(steps)
    ensures Inv(Run(steps))
  {
    if steps != [] {
      PrefixOk(steps);
      RunKeeps(steps[..|steps| - 1]);
      ApplyKeeps(Run(steps[..|steps| - 1]), steps[|steps| - 1]);
    }
  }

  /** The bucket is never given a segment, marker or snapshot that leaves a hole or forks the chain. */
  lemma NoHoleNoFork(steps: seq<Step>)
    requires RunOk(steps)
    ensures var s := Run(steps); !s.broken && (!s.w.lost && !s.w.behind ==> s.w.chain <= s.w.local)
  {
    RunKeeps(steps);
  }

  /**
   A capture past its decision reads the file exactly where its own txid is, that txid is in the
   chain with the same transactions, and in the current epoch a marker or snapshot came first.
   */
  lemma CaptureIsAnchored(steps: seq<Step>, id: Id)
    requires RunOk(steps) && id in Run(steps).caps && (Run(steps).caps[id].mode.Live? || Run(steps).caps[id].mode.Dead?)
    ensures var w, c := Run(steps).w, Run(steps).caps[id];
            c.cursor == c.next && Agree(w, c.next) && (c.epoch == w.epoch ==> w.begun)
  {
    RunKeeps(steps);
    var s := Run(steps);
    hide Run;
    assert CapOk(s.w, s.caps[id]);
  }

  ghost predicate RegOk(s: State)
  {
    forall i <- s.caps :: i < s.newId && (!s.caps[i].cancelled ==> s.reg == Some(i))
  }

  lemma ThreadKeepsReg(s: State, step: Step)
    requires RegOk(s) && OfThread(step)
    ensures RegOk(Apply(s, step))
  {
    hide RegOk, Apply;
    if step.Mark? || step.Snap? || step.Compare? || step.TakeHint? { DecisionKeepsReg(s, step); } else { CallKeepsReg(s, step); }
  }

  lemma DecisionKeepsReg(s: State, step: Step)
    requires RegOk(s) && (step.Mark? || step.Snap? || step.Compare? || step.TakeHint?)
    ensures RegOk(Apply(s, step))
  {
    LandsAside(s);
    hide LandMarker, LandSnapshot, DoEnter, DoReady, DoAsk, DoMeasure;
  }

  lemma CallKeepsReg(s: State, step: Step)
    requires RegOk(s) && OfThread(step) && !(step.Mark? || step.Snap? || step.Compare? || step.TakeHint?)
    ensures RegOk(Apply(s, step))
  {
    hide DoMark, DoSnap, DoCompare, DoTakeHint;
  }

  lemma LandsAside(s: State)
    ensures forall b :: LandMarker(s, b).caps == s.caps && LandMarker(s, b).reg == s.reg && LandMarker(s, b).newId == s.newId
    ensures LandSnapshot(s).caps == s.caps && LandSnapshot(s).reg == s.reg && LandSnapshot(s).newId == s.newId
  {
  }

  lemma AroundKeepsReg(s: State, step: Step)
    requires RegOk(s) && !OfThread(step)
    ensures RegOk(Apply(s, step))
  {
  }

  /** In every run whatsoever, at most one capture of the cell is not cancelled: the registered one. */
  lemma {:induction false} OneCapture(steps: seq<Step>)
    ensures RegOk(Run(steps))
  {
    if steps != [] {
      OneCapture(steps[..|steps| - 1]);
      var s, step := Run(steps[..|steps| - 1]), steps[|steps| - 1];
      hide RegOk, Apply;
      if OfThread(step) { ThreadKeepsReg(s, step); } else { AroundKeepsReg(s, step); }
    }
  }

  // ------------------------------------------------------------------ acknowledgements

  /** The chain only grows. */
  lemma ChainGrows(s: State, step: Step)
    requires Inv(s)
    ensures s.w.chain <= Apply(s, step).w.chain
  {
    if step.Emit? {
      var id := step.id;
      if id in s.caps && s.caps[id].mode.Live? && s.caps[id].cursor < |s.w.local| && s.caps[id].epoch == s.w.epoch {
        EmitLands(s, id);
      }
    } else if step.Rebase? {
      if step.id in s.caps { assert CapOk(s.w, s.caps[step.id]); }
      RebaseGrows(s, step.id, step.reset);
    } else if step.Snap? {
      SnapGrowsChain(s, step.t, step.ok);
    } else {
      hide Inv;
      OtherChains(s, step);
    }
  }

  lemma RebaseGrows(s: State, id: Id, reset: bool)
    requires Inv(s) && (id in s.caps ==> CapOk(s.w, s.caps[id]))
    ensures s.w.chain <= DoRebase(s, id, reset).w.chain
  {
    hide CapsOk, ThreadsOk, HintOk;
  }

  lemma SnapGrowsChain(s: State, t: Thread, ok: bool)
    requires Inv(s)
    ensures s.w.chain <= Apply(s, Snap(t, ok)).w.chain
  {
    ThreadAt(s, t);
    hide CapsOk, ThreadsOk, HintOk;
  }

  lemma OtherChains(s: State, step: Step)
    requires !step.Emit? && !step.Rebase? && !step.Snap?
    ensures s.w.chain <= Apply(s, step).w.chain
  {
  }

  /** Waiting on a capture that is past its decision. */
  predicate WaitOk(s: State, step: Step)
  {
    step.Wait? && s.reg.Some? && s.reg.value in s.caps ==> !s.caps[s.reg.value].mode.Init?
  }

  lemma WaitAcks(s: State, t: Thread)
    requires Inv(s) && WaitOk(s, Wait(t)) && s.acked <= s.w.chain
    ensures Apply(s, Wait(t)).acked <= s.w.chain
  {
    var p := PhaseOf(s, t);
    if p.Wrote? && s.reg.Some? && s.reg.value in s.caps && p.n <= s.caps[s.reg.value].next && p.n <= |s.w.local| {
      var c := s.caps[s.reg.value];
      assert CapOk(s.w, c);
      assert s.w.local[..p.n] == s.w.local[..c.next][..p.n] == s.w.chain[..c.next][..p.n] == s.w.chain[..p.n];
    }
  }

  lemma OthersAckNothing(s: State, step: Step)
    requires !step.Wait?
    ensures Apply(s, step).acked == s.acked
  {
  }

  ghost predicate AckRunOk(steps: seq<Step>)
  {
    forall i | 0 <= i < |steps| :: WaitOk(Run(steps[..i]), steps[i])
  }

  /** Every acknowledged transaction, with all before it, is in the chain. */
  lemma {:induction false} AckedIsDurable(steps: seq<Step>)
    requires RunOk(steps) && AckRunOk(steps)
    ensures Run(steps).acked <= Run(steps).w.chain
  {
    if steps != [] {
      var front, step := steps[..|steps| - 1], steps[|steps| - 1];
      PrefixOk(steps);
      AckPrefixOk(steps);
      AckedIsDurable(front);
      RunKeeps(front);
      var s := Run(front);
      hide Inv, Apply, RunOk, AckRunOk;
      ChainGrows(s, step);
      if step.Wait? { WaitAcks(s, step.t); } else { OthersAckNothing(s, step); }
    }
  }

  lemma AckPrefixOk(steps: seq<Step>)
    requires AckRunOk(steps) && steps != []
    ensures AckRunOk(steps[..|steps| - 1]) && WaitOk(Run(steps[..|steps| - 1]), steps[|steps| - 1])
  {
    var front := steps[..|steps| - 1];
    hide WaitOk, Run;
    forall i | 0 <= i < |front| ensures WaitOk(Run(front[..i]), front[i]) { assert front[..i] == steps[..i]; }
  }

  // ------------------------------------------------------------------ when a hint may be trusted

  /** The hint of a capture that ran is always true: then only a write before Enter can make it unfit. */
  lemma HintIsTrue(steps: seq<Step>, t: Thread)
    requires RunOk(steps) && Resumes(Run(steps), t) && Run(steps).hint.value.ran
    ensures var s := Run(steps); var p := PhaseOf(s, t);
            Agree(s.w, p.b) && (Fits(s, t) <==> s.caps[p.id].cursor == p.b)
  {
    RunKeeps(steps);
  }

  /** What the two guarantees say of a state. */
  predicate Holds(s: State)
  {
    !s.broken && (!s.w.lost && !s.w.behind ==> s.w.chain <= s.w.local) && s.acked <= s.w.chain
  }

  function RunFrom(s: State, steps: seq<Step>): State
  {
    if steps == [] then s else Apply(RunFrom(s, steps[..|steps| - 1]), steps[|steps| - 1])
  }

  ghost predicate OkFrom(s: State, steps: seq<Step>)
  {
    forall i | 0 <= i < |steps| :: StepOk(RunFrom(s, steps[..i]), steps[i]) && WaitOk(RunFrom(s, steps[..i]), steps[i])
  }

  lemma OkPrefix(s: State, steps: seq<Step>)
    requires OkFrom(s, steps) && steps != []
    ensures var front := steps[..|steps| - 1];
            OkFrom(s, front) && StepOk(RunFrom(s, front), steps[|steps| - 1]) && WaitOk(RunFrom(s, front), steps[|steps| - 1])
  {
    var front := steps[..|steps| - 1];
    hide StepOk, WaitOk, RunFrom;
    forall i | 0 <= i < |front|
      ensures StepOk(RunFrom(s, front[..i]), front[i]) && WaitOk(RunFrom(s, front[..i]), front[i])
    {
      assert front[..i] == steps[..i];
    }
  }

  lemma {:induction false} SafeFrom(s: State, more: seq<Step>)
    requires Inv(s) && s.acked <= s.w.chain && OkFrom(s, more)
    ensures Inv(RunFrom(s, more)) && RunFrom(s, more).acked <= RunFrom(s, more).w.chain && Holds(RunFrom(s, more))
    decreases |more|
  {
    if more != [] {
      var front, step := more[..|more| - 1], more[|more| - 1];
      OkPrefix(s, more);
      SafeFrom(s, front);
      var u := RunFrom(s, front);
      assert RunFrom(s, more) == Apply(u, step);
      hide Apply, RunFrom, OkFrom;
      ApplyKeeps(u, step);
      hide Inv;
      ChainGrows(u, step);
      if step.Wait? { WaitAcks(u, step.t); } else { OthersAckNothing(u, step); }
      assert Inv(Apply(u, step));
      InvHolds(Apply(u, step));
    } else {
      InvHolds(s);
    }
  }

  lemma InvHolds(s: State)
    requires Inv(s) && s.acked <= s.w.chain
    ensures Holds(s)
  {
  }

  lemma {:induction false} Prepend(s: State, step: Step, more: seq<Step>)
    ensures RunFrom(s, [step] + more) == RunFrom(Apply(s, step), more)
    decreases |more|
  {
    var all := [step] + more;
    if more != [] {
      Prepend(s, step, more[..|more| - 1]);
      assert all[..|all| - 1] == [step] + more[..|more| - 1];
    }
  }

  /** Writes and emissions are subject to no hypothesis. */
  lemma PlainOk(s: State, more: seq<Step>)
    requires forall m <- more :: m.Write? || m.Emit?
    ensures OkFrom(s, more)
  {
    hide RunFrom;
    assert forall i | 0 <= i < |more| :: more[i] in more;
  }

  lemma EmitIs(u: State, id: Id)
    requires id in u.caps && u.caps[id].mode.Live? && u.caps[id].epoch == u.w.epoch && u.caps[id].cursor < |u.w.local|
    ensures var c := u.caps[id];
            Apply(u, Emit(id)) ==
            LandDelta(u, c.next + 1, u.w.local[c.cursor]).(caps := u.caps[id := c.(cursor := c.cursor + 1, next := c.next + 1)])
  {
  }

  /**
   A running capture reads the file further on than it numbers, or numbers within a chain it does
   not read; x is the last transaction of the file and found nowhere else.
   */
  predicate Lags(u: State, id: Id, x: Tx)
  {
    && !u.broken && !u.w.lost && u.w.begun && id in u.caps && u.caps[id].mode.Live? && u.caps[id].epoch == u.w.epoch
    && u.caps[id].next <= u.caps[id].cursor < |u.w.local|
    && x !in u.w.chain && u.w.local[|u.w.local| - 1] == x && x !in u.w.local[..|u.w.local| - 1]
    && var c := u.caps[id];
       if u.w.behind then c.next + |u.w.local| - c.cursor <= |u.w.chain|
       else c.next < c.cursor && u.w.chain <= u.w.local && c.next <= |u.w.chain|
  }

  lemma LagStep(u: State, id: Id, x: Tx)
    requires Lags(u, id, x)
    ensures var u' := Apply(u, Emit(id));
            Holds(u') ==> Lags(u', id, x) && u'.w.local == u.w.local && u'.caps[id].cursor == u.caps[id].cursor + 1
  {
    var c, n := u.caps[id], |u.w.local|;
    EmitIs(u, id);
    hide Apply;
    var u' := Apply(u, Emit(id));
    if c.cursor == n - 1 {
      if !u.w.behind { assert u.w.local[..n - 1][c.next] != x; }
      if c.next == |u.w.chain| { assert u'.w.chain[c.next] == x; }
    } else {
      assert u.w.local[..n - 1][c.cursor] != x;
    }
  }

  /** Sooner or later it contradicts the chain, at the latest with x. */
  lemma Lag(u: State, id: Id, x: Tx) returns (more: seq<Step>)
    requires Lags(u, id, x)
    ensures (forall m <- more :: m == Emit(id)) && !Holds(RunFrom(u, more))
    decreases |u.w.local| - u.caps[id].cursor
  {
    var u' := Apply(u, Emit(id));
    LagStep(u, id, x);
    assert RunFrom(u, [Emit(id)]) == u' by { assert [Emit(id)][..0] == []; }
    hide Apply, Holds, RunFrom;
    if !Holds(u') {
      more := [Emit(id)];
    } else {
      var rest := Lag(u', id, x);
      Prepend(u, Emit(id), rest);
      more := [Emit(id)] + rest;
    }
  }

  /** A number above all of a sequence. */
  function Above(txs: seq<Tx>): (x: Tx)
    ensures x !in txs && forall i | 0 <= i < |txs| :: txs[i] < x
  {
    if txs == [] then 0
    else
      var x, last := Above(txs[..|txs| - 1]), txs[|txs| - 1];
      assert forall i | 0 <= i < |txs| - 1 :: txs[i] == txs[..|txs| - 1][i];
      if last >= x then last + 1 else x
  }

  /** After a resume that does not fit, the caller's own write is enough to break a guarantee. */
  lemma MisfitBreaks(s: State, t: Thread) returns (more: seq<Step>)
    requires Inv(s) && Resumes(s, t) && PhaseOf(s, t).e == s.w.epoch && !Fits(s, t)
    ensures OkFrom(Apply(s, TakeHint(t)), more) && !Holds(RunFrom(Apply(s, TakeHint(t)), more))
  {
    var p, s1 := PhaseOf(s, t), Apply(s, TakeHint(t));
    ThreadAt(s, t);
    OwnedIn(s, p);
    assert CapOk(s.w, s.caps[p.id]);
    var x := Above(s.w.local + s.w.chain);
    var u := Apply(s1, Write(t, x));
    var c := Cap(p.e, s.caps[p.id].cursor, p.b, s.caps[p.id].cancelled, Live);
    assert u.w == s.w.(local := s.w.local + [x]) && p.id in u.caps && u.caps[p.id] == c && !u.broken;
    Misfit(s, t);
    hide Apply, Inv, CapOk, Fits;
    var rest := LagAfter(s.w, u, p.id, x);
    more := [Write(t, x)] + rest;
    Prepend(s1, Write(t, x), rest);
    PlainOk(s1, more);
  }

  lemma Misfit(s: State, t: Thread)
    requires Inv(s) && Resumes(s, t) && PhaseOf(s, t).e == s.w.epoch && !Fits(s, t)
    ensures var p := PhaseOf(s, t);
            && !s.w.lost && (s.w.behind ==> |s.w.local| < |s.w.chain|) && (!s.w.behind ==> s.w.chain <= s.w.local)
            && (!s.w.begun || s.w.behind || p.b > |s.w.chain| || s.caps[p.id].cursor > p.b)
  {
    ThreadAt(s, t);
    OwnedIn(s, PhaseOf(s, t));
    assert CapOk(s.w, s.caps[PhaseOf(s, t).id]);
  }

  lemma LagAfter(w: World, u: State, id: Id, x: Tx) returns (more: seq<Step>)
    requires x !in w.local && x !in w.chain && u.w == w.(local := w.local + [x]) && !u.broken && !w.lost
    requires id in u.caps && u.caps[id].mode.Live? && u.caps[id].epoch == w.epoch && u.caps[id].next <= u.caps[id].cursor <= |w.local|
    requires (w.behind ==> |w.local| < |w.chain|) && (!w.behind ==> w.chain <= w.local)
    requires !w.begun || w.behind || u.caps[id].next > |w.chain| || u.caps[id].cursor > u.caps[id].next
    ensures (forall m <- more :: m == Emit(id)) && !Holds(RunFrom(u, more))
  {
    var c := u.caps[id];
    assert u.w.local[..|w.local|] == w.local;
    if !w.begun || c.next > |w.chain| {
      EmitIs(u, id);
      more := [Emit(id)];
      assert more[..0] == [];
    } else {
      more := Lag(u, id, x);
    }
  }

  /**
   Exactly when a resume in the current epoch may be trusted: every continuation of the run keeps
   the chain whole and its acknowledgements in it if and only if the hint fits.
   */
  lemma HintExactly(steps: seq<Step>, t: Thread)
    requires RunOk(steps) && AckRunOk(steps) && Resumes(Run(steps), t) && PhaseOf(Run(steps), t).e == Run(steps).w.epoch
    ensures var s := Run(steps); var s1 := Apply(s, TakeHint(t));
            (forall more | OkFrom(s1, more) :: Holds(RunFrom(s1, more))) <==> Fits(s, t)
  {
    var s := Run(steps);
    var s1 := Apply(s, TakeHint(t));
    RunKeeps(steps);
    AckedIsDurable(steps);
    hide Run, Inv, Holds, OkFrom, RunFrom;
    if Fits(s, t) {
      ApplyKeeps(s, TakeHint(t));
      ChainGrows(s, TakeHint(t));
      OthersAckNothing(s, TakeHint(t));
      forall more | OkFrom(s1, more) ensures Holds(RunFrom(s1, more)) { SafeFrom(s1, more); }
    } else {
      var more := MisfitBreaks(s, t);
    }
  }

  // ------------------------------------------------------------------ when a failed lookup and an early wait do no harm

  /** The snapshot that a failed lookup leads to cuts a chain the file is behind. */
  lemma BlindSnapBreaks(s: State, s1: State, t: Thread) returns (more: seq<Step>)
    requires Inv(s) && Blind(s, t)
    requires s1 == Put(s, t, Snapping(PhaseOf(s, t).e, PhaseOf(s, t).b, PhaseOf(s, t).id))
    ensures OkFrom(s1, more) && !Holds(RunFrom(s1, more))
  {
    ThreadAt(s, t);
    OwnedIn(s, PhaseOf(s, t));
    more := [Snap(t, true)];
    assert more[..0] == [];
  }

  /**
   Exactly when a failed lookup may be taken for "no chain": every continuation of the run keeps the
   chain whole and its acknowledgements in it if and only if the file is not behind the chain, or
   the call's epoch is already past.
   */
  lemma FailedLookupExactly(steps: seq<Step>, t: Thread, step: Step)
    requires RunOk(steps) && AckRunOk(steps)
    requires (step.Ask? && PhaseOf(Run(steps), t).Asking?) || (step.Measure? && PhaseOf(Run(steps), t).Asked?)
    requires step.t == t && !step.ok
    ensures var s := Run(steps); var s1 := Apply(s, step);
            (forall more | OkFrom(s1, more) :: Holds(RunFrom(s1, more))) <==> !Blind(s, t)
  {
    var s := Run(steps);
    var s1 := Apply(s, step);
    RunKeeps(steps);
    AckedIsDurable(steps);
    hide Run, Inv, Holds, OkFrom, RunFrom;
    if Blind(s, t) {
      var more := BlindSnapBreaks(s, s1, t);
    } else {
      ApplyKeeps(s, step);
      ChainGrows(s, step);
      OthersAckNothing(s, step);
      forall more | OkFrom(s1, more) ensures Holds(RunFrom(s1, more)) { SafeFrom(s1, more); }
    }
  }

  /** The wait of a writer is over: the registered capture counts its transaction as durable. */
  predicate WaitEnds(s: State, t: Thread)
  {
    var p := PhaseOf(s, t);
    p.Wrote? && s.reg.Some? && s.reg.value in s.caps && p.n <= s.caps[s.reg.value].next && p.n <= |s.w.local|
  }

  /**
   Exactly when a wait that ends tells the truth: the capture is past its decision, or all up to that
   transaction was acknowledged before or is in the chain all the same.
   */
  lemma EarlyWaitExactly(steps: seq<Step>, t: Thread)
    requires RunOk(steps) && AckRunOk(steps) && WaitEnds(Run(steps), t)
    ensures var s := Run(steps); var n, acked := PhaseOf(s, t).n, Apply(s, Wait(t)).acked;
            && (acked <= s.w.chain <==> WaitOk(s, Wait(t)) || n <= |s.acked| || Agree(s.w, n))
            && (!s.w.lost && !s.w.behind ==> (acked <= s.w.chain <==> WaitOk(s, Wait(t)) || n <= |s.w.chain|))
  {
    var s := Run(steps);
    RunKeeps(steps);
    AckedIsDurable(steps);
    hide Run;
    assert WorldOk(s.w);
    if WaitOk(s, Wait(t)) { WaitAcks(s, t); }
    hide Inv;
    WaitGives(s, t);
  }

  lemma WaitGives(s: State, t: Thread)
    requires WaitEnds(s, t) && s.acked <= s.w.chain && WorldOk(s.w)
    ensures var n, acked := PhaseOf(s, t).n, Apply(s, Wait(t)).acked;
            && (acked <= s.w.chain <==> n <= |s.acked| || Agree(s.w, n))
            && (!s.w.lost && !s.w.behind ==> (acked <= s.w.chain <==> n <= |s.w.chain|))
  {
    var n := PhaseOf(s, t).n;
    assert Apply(s, Wait(t)).acked == if n > |s.acked| then s.w.local[..n] else s.acked;
    if n <= |s.w.chain| { assert s.w.chain[..n] <= s.w.chain; }
  }

  // ------------------------------------------------------------------ where the hypotheses are needed

  lemma Extend(steps: seq<Step>, x: Step, y: Step)
    ensures Run(steps + [x, y]) == Apply(Apply(Run(steps), x), y)
  {
    var all := steps + [x, y];
    assert all[..|all| - 1] == steps + [x] && (steps + [x])[..|steps|] == steps;
  }

  function W(local: seq<Tx>, chain: seq<Tx>, behind: bool): World { World(local, chain, true, 0, true, false, behind, map[]) }

  /** A first Ensure of a new cell takes a snapshot of the empty file. */
  lemma FirstRun() returns (steps: seq<Step>)
    ensures Run(steps) == State(W([], [], false).(begun := false), false, map[0 := Cap(0, 0, 0, false, Init)], Some(0), 1, None, {},
                                map[0 := Asking(0, 0, 0)], [])
  {
    Extend([], Own(0), Base(0));
    steps := [Own(0), Base(0)];
    assert [] + steps == steps;
    assert Run(steps) == Start.(threads := map[0 := Based(0, 0)]);
    hide Run;
    Extend(steps, Enter(0), TakeHint(0));
    steps := steps + [Enter(0), TakeHint(0)];
  }

  lemma GrantedRun() returns (steps: seq<Step>)
    ensures Run(steps) == State(W([], [], false), false, map[0 := Cap(0, 0, 0, false, Live)], Some(0), 1, None, {}, map[0 := Granted(0)], [])
  {
    steps := FirstRun();
    hide Run;
    Extend(steps, Ask(0, true, false), Measure(0, true));
    steps := steps + [Ask(0, true, false), Measure(0, true)];
    assert Run(steps).threads == map[0 := Measured(0, 0, 0, false, 0)];
    Extend(steps, Compare(0, HasWriter), Snap(0, true));
    steps := steps + [Compare(0, HasWriter), Snap(0, true)];
  }

  /** The first write is in the file; its capture fails before it is in the chain. */
  lemma FailedRun() returns (steps: seq<Step>)
    ensures Run(steps) == State(W([7], [], false), false, map[0 := Cap(0, 0, 0, false, Dead)], Some(0), 1, None, {}, map[0 := Wrote(1)], [])
  {
    steps := GrantedRun();
    hide Run;
    Extend(steps, Write(0, 7), Fail(0));
    steps := steps + [Write(0, 7), Fail(0)];
  }

  lemma RetriedRun() returns (steps: seq<Step>)
    ensures Run(steps) == State(W([7], [], false), false, map[0 := Cap(0, 0, 0, false, Dead)], Some(0), 1, None, {},
                                map[0 := Wrote(1), 1 := Based(0, 1)], [])
  {
    steps := FailedRun();
    hide Run;
    Extend(steps, Own(1), Base(1));
    steps := steps + [Own(1), Base(1)];
  }

  lemma RetryRun() returns (steps: seq<Step>)
    ensures Run(steps) == State(W([7], [], false), false, map[0 := Cap(0, 0, 0, true, Dead)], None, 1, None, {},
                                map[0 := Wrote(1), 1 := Owned(0)], [])
  {
    steps := RetriedRun();
    hide Run;
    Extend(steps, Enter(1), Ready(1));
    steps := steps + [Enter(1), Ready(1)];
  }

  /** Another call replaces the failed capture and is about to decide. */
  lemma ReplacedRun() returns (steps: seq<Step>)
    ensures Run(steps) == State(W([7], [], false), false, map[0 := Cap(0, 0, 0, true, Dead), 1 := Cap(0, 1, 1, false, Init)],
                                Some(1), 2, None, {}, map[0 := Wrote(1), 1 := Deciding(0, 1, 1)], [])
  {
    steps := RetryRun();
    hide Run;
    Extend(steps, Base(1), Enter(1));
    steps := steps + [Base(1), Enter(1)];
  }

  /**
   A capture counts its baseline as durable from the start, so a writer that waits while the
   capture is still being decided on is told its transaction is durable before it is.
   */
  lemma EarlyWaitAcksTooMuch() returns (steps: seq<Step>)
    ensures Run(steps).acked == [7] && Run(steps).w.chain == []
  {
    steps := ReplacedRun();
    hide Run;
    Extend(steps, Wait(0), Cancel);
    steps := steps + [Wait(0), Cancel];
  }

  /** One write is durable, and the cell is then restored from a listing that missed it. */
  lemma DurableRun() returns (steps: seq<Step>)
    ensures Run(steps) == State(W([7], [7], false), false, map[0 := Cap(0, 1, 1, false, Live)], Some(0), 1, None, {}, map[0 := Wrote(1)], [])
  {
    steps := GrantedRun();
    hide Run;
    Extend(steps, Write(0, 7), Emit(0));
    steps := steps + [Write(0, 7), Emit(0)];
  }

  lemma BehindRun() returns (steps: seq<Step>)
    ensures Run(steps) == State(W([], [7], true), false, map[], None, 1, None, {}, map[0 := Idle], [])
  {
    steps := DurableRun();
    hide Run;
    Extend(steps, Leave(0), Cancel);
    steps := steps + [Leave(0), Cancel];
    assert Run(steps) == State(W([7], [7], false), false, map[0 := Cap(0, 1, 1, true, Live)], None, 1, None, {}, map[0 := Idle], []);
    Extend(steps, Fail(0), Reopen(0));
    steps := steps + [Fail(0), Reopen(0)];
  }

  lemma BehindAskingRun() returns (steps: seq<Step>)
    ensures Run(steps) == State(W([], [7], true), false, map[1 := Cap(0, 0, 0, false, Init)], Some(1), 2, None, {},
                                map[0 := Asking(0, 0, 1)], [])
  {
    steps := BehindRun();
    hide Run;
    Extend(steps, Own(0), Base(0));
    steps := steps + [Own(0), Base(0)];
    assert Run(steps) == State(W([], [7], true), false, map[], None, 1, None, {}, map[0 := Based(0, 0)], []);
    Extend(steps, Enter(0), TakeHint(0));
    steps := steps + [Enter(0), TakeHint(0)];
  }

  /** A lookup that fails is taken for "no chain": a file behind the chain is snapshotted over it. */
  lemma FailedLookupRollsBack() returns (steps: seq<Step>)
    ensures Run(steps).broken
  {
    steps := BehindAskingRun();
    hide Run;
    Extend(steps, Ask(0, false, false), Snap(0, true));
    steps := steps + [Ask(0, false, false), Snap(0, true)];
  }

  lemma SecondRun() returns (steps: seq<Step>)
    ensures Run(steps) == State(W([], [7], true), false, map[1 := Cap(0, 0, 0, false, Init)], Some(1), 2, None, {},
                                map[0 := Asking(0, 0, 1), 1 := Based(0, 0)], [])
  {
    steps := BehindAskingRun();
    hide Run;
    Extend(steps, Own(1), Base(1));
    steps := steps + [Own(1), Base(1)];
  }

  /** Thread 1 waits for the capture thread 0 decides on; thread 2 has read its baseline. */
  lemma QueuedRun() returns (steps: seq<Step>)
    ensures Run(steps) == State(W([], [7], true), false, map[1 := Cap(0, 0, 0, false, Init)], Some(1), 2, None, {},
                                map[0 := Asking(0, 0, 1), 1 := Waiting(0, 1), 2 := Based(0, 0)], [])
  {
    steps := SecondRun();
    hide Run;
    var s := Run(steps);
    Extend(steps, Enter(1), Own(2));
    steps := steps + [Enter(1), Own(2)];
    assert Run(steps) == s.(threads := map[0 := Asking(0, 0, 1), 1 := Waiting(0, 1), 2 := Owned(0)]);
    Extend(steps, Base(2), Leave(0));
    steps := steps + [Base(2), Leave(0)];
  }

  /** Thread 0 finds the file behind and gives up, as it should. */
  lemma RefusedRun() returns (steps: seq<Step>)
    ensures Run(steps) == State(W([], [7], true), false, map[1 := Cap(0, 0, 0, true, Void)], None, 2, None, {},
                                map[0 := Idle, 1 := Waiting(0, 1), 2 := Based(0, 0)], [])
  {
    steps := QueuedRun();
    hide Run;
    var s := Run(steps);
    Extend(steps, Ask(0, true, true), Measure(0, true));
    steps := steps + [Ask(0, true, true), Measure(0, true)];
    assert Run(steps) == s.(threads := map[0 := Measured(0, 0, 1, true, 1), 1 := Waiting(0, 1), 2 := Based(0, 0)]);
    Extend(steps, Compare(0, HasWriter), Cancel);
    steps := steps + [Compare(0, HasWriter), Cancel];
  }

  /** Thread 2 registers a capture; thread 1 wakes and takes it for a running one. */
  lemma WokenRun() returns (steps: seq<Step>)
    ensures Run(steps) == State(W([], [7], true), false, map[1 := Cap(0, 0, 0, true, Void), 2 := Cap(0, 0, 0, false, Init)], Some(2), 3, None, {},
                                map[0 := Idle, 1 := Granted(0), 2 := Deciding(0, 0, 2)], [])
  {
    steps := RefusedRun();
    hide Run;
    Extend(steps, Enter(2), Ready(1));
    steps := steps + [Enter(2), Ready(1)];
  }

  /** Then it writes. */
  lemma MisledRun() returns (steps: seq<Step>)
    ensures Run(steps) == State(W([8], [7], true), false, map[1 := Cap(0, 0, 0, true, Void), 2 := Cap(0, 0, 0, false, Init)], Some(2), 3, None, {},
                                map[0 := Idle, 1 := Wrote(1), 2 := Asking(0, 0, 2)], [])
  {
    steps := WokenRun();
    hide Run;
    Extend(steps, TakeHint(2), Write(1, 8));
    steps := steps + [TakeHint(2), Write(1, 8)];
  }

  /**
   A call that waited for one capture returns on whatever capture is registered when it wakes, even
   one still being decided on. On a file behind the chain its write hides that the file is behind,
   and the snapshot that follows replaces a durable transaction by another of the same txid.
   */
  lemma EarlyReturnForks() returns (steps: seq<Step>)
    ensures Run(steps).broken
  {
    steps := MisledRun();
    hide Run;
    var s := Run(steps);
    Extend(steps, Ask(2, true, true), Measure(2, true));
    steps := steps + [Ask(2, true, true), Measure(2, true)];
    assert Run(steps) == s.(threads := map[0 := Idle, 1 := Wrote(1), 2 := Measured(0, 0, 2, true, 1)]);
    Extend(steps, Compare(2, HasWriter), Snap(2, true));
    steps := steps + [Compare(2, HasWriter), Snap(2, true)];
    var chain: seq<Tx>, local: seq<Tx> := [7], [8];
    assert chain[0] != local[0] && !(chain <= local);
  }

  /** The writer's transaction is durable and acknowledged, and it ensures again. */
  lemma AckedRun() returns (steps: seq<Step>)
    ensures Run(steps) == State(W([7], [7], false), false, map[0 := Cap(0, 1, 1, false, Live)], Some(0), 1, None, {},
                                map[0 := Owned(0)], [7])
  {
    steps := DurableRun();
    hide Run;
    assert Run(steps).w.local[..1] == Run(steps).w.local;
    Extend(steps, Wait(0), Own(0));
    steps := steps + [Wait(0), Own(0)];
  }

  /** It has been granted; the file and the chain both hold its first transaction. */
  lemma WriterRun() returns (steps: seq<Step>)
    ensures Run(steps) == State(W([7], [7], false), false, map[0 := Cap(0, 1, 1, false, Live)], Some(0), 1, None, {},
                                map[0 := Granted(0)], [7])
  {
    steps := AckedRun();
    hide Run;
    var s := Run(steps);
    Extend(steps, Base(0), Enter(0));
    steps := steps + [Base(0), Enter(0)];
    assert Run(steps) == s.(threads := map[0 := Waiting(0, 0)]);
    Extend(steps, Ready(0), Leave(9));
    steps := steps + [Ready(0), Leave(9)];
  }

  /** The cell is evicted under that writer, which leaves a hint. */
  lemma DroppedRun() returns (steps: seq<Step>)
    ensures Run(steps) == State(W([7], [7], false), false, map[0 := Cap(0, 1, 1, true, Dead)], None, 1, Some(Hint(0, 1, true)), {},
                                map[0 := Granted(0)], [7])
  {
    steps := WriterRun();
    hide Run;
    var s := Run(steps);
    Extend(steps, Drop, Fail(0));
    steps := steps + [Drop, Fail(0)];
    assert Run(steps) == s.(caps := map[0 := Cap(0, 1, 1, true, Dead)], reg := None, drops := {0});
    Extend(steps, LeaveHint(0, true), Leave(9));
    steps := steps + [LeaveHint(0, true), Leave(9)];
  }

  /** A second call reads its baseline, the writer writes, and the second call enters. */
  lemma OverlapRun() returns (steps: seq<Step>)
    ensures Run(steps) == State(W([7, 8], [7], false), false, map[0 := Cap(0, 1, 1, true, Dead), 1 := Cap(0, 2, 1, false, Init)],
                                Some(1), 2, Some(Hint(0, 1, true)), {}, map[0 := Wrote(2), 1 := Deciding(0, 1, 1)], [7])
  {
    steps := DroppedRun();
    hide Run;
    var s := Run(steps);
    Extend(steps, Own(1), Base(1));
    steps := steps + [Own(1), Base(1)];
    assert Run(steps) == s.(threads := map[0 := Granted(0), 1 := Based(0, 1)]);
    Extend(steps, Write(0, 8), Enter(1));
    steps := steps + [Write(0, 8), Enter(1)];
    var local: seq<Tx> := [7, 8];
    assert s.w.local + [8] == local;
  }

  lemma SkippedRun() returns (steps: seq<Step>)
    ensures Run(steps) == State(W([7, 8, 9], [7], false), false, map[0 := Cap(0, 1, 1, true, Dead), 1 := Cap(0, 2, 1, false, Live)],
                                Some(1), 2, None, {}, map[0 := Wrote(2), 1 := Wrote(3)], [7])
  {
    steps := OverlapRun();
    hide Run;
    var local: seq<Tx> := [7, 8, 9];
    assert Run(steps).w.local + [9] == local;
    Extend(steps, TakeHint(1), Write(1, 9));
    steps := steps + [TakeHint(1), Write(1, 9)];
  }

  /**
   takeHint compares the hint with the baseline only. A write between the baseline and the capture
   is then skipped: the chain goes on with the next one in its place, and the skipped one is acknowledged.
   */
  lemma ResumeLeavesHole() returns (steps: seq<Step>)
    ensures var s := Run(steps); s.w.local == [7, 8, 9] && s.w.chain == [7, 9] && s.acked == [7, 8]
  {
    steps := SkippedRun();
    hide Run;
    var s := Run(steps);
    var chain: seq<Tx>, acked: seq<Tx> := [7, 9], [7, 8];
    assert s.w.chain + [9] == chain && s.w.local[..2] == acked;
    Extend(steps, Emit(1), Wait(0));
    steps := steps + [Emit(1), Wait(0)];
  }

  /** A Drop meets a capture still being decided on; the decision then fails. */
  lemma DroppedEarlyRun() returns (steps: seq<Step>)
    ensures Run(steps) == State(W([7], [], false), false, map[0 := Cap(0, 0, 0, true, Dead), 1 := Cap(0, 1, 1, true, Init)],
                                None, 2, None, {1}, map[0 := Wrote(1), 1 := Asking(0, 1, 1)], [])
  {
    steps := ReplacedRun();
    hide Run;
    Extend(steps, Drop, TakeHint(1));
    steps := steps + [Drop, TakeHint(1)];
  }

  lemma VoidRun() returns (steps: seq<Step>)
    ensures Run(steps) == State(W([7], [], false), false, map[0 := Cap(0, 0, 0, true, Dead), 1 := Cap(0, 1, 1, true, Void)],
                                None, 2, None, {1}, map[0 := Wrote(1), 1 := Idle], [])
  {
    steps := DroppedEarlyRun();
    hide Run;
    Extend(steps, Ask(1, false, false), Snap(1, false));
    steps := steps + [Ask(1, false, false), Snap(1, false)];
  }

  lemma LyingRun() returns (steps: seq<Step>)
    ensures Run(steps) == State(W([7], [], false), false, map[0 := Cap(0, 0, 0, true, Dead), 1 := Cap(0, 1, 1, true, Void)],
                                None, 2, Some(Hint(0, 1, false)), {}, map[0 := Wrote(1), 1 := Owned(0)], [])
  {
    steps := VoidRun();
    hide Run;
    Extend(steps, LeaveHint(1, true), Own(1));
    steps := steps + [LeaveHint(1, true), Own(1)];
  }

  lemma BelievedRun() returns (steps: seq<Step>)
    ensures var s := Run(steps);
            && s.w == W([7], [], false) && s.reg == Some(2) && 2 in s.caps && s.caps[2] == Cap(0, 1, 1, false, Init)
            && s.hint == Some(Hint(0, 1, false)) && s.acked == [] && PhaseOf(s, 0) == Wrote(1) && PhaseOf(s, 1) == Deciding(0, 1, 2)
  {
    steps := LyingRun();
    hide Run;
    Extend(steps, Base(1), Enter(1));
    steps := steps + [Base(1), Enter(1)];
  }

  /**
   A capture counts its baseline as durable before anything is. Dropped while Ensure decides, and then
   given up, it leaves that baseline as a hint, and the next Ensure resumes on a chain that lacks it.
   */
  lemma GivenUpCaptureLies() returns (steps: seq<Step>)
    ensures Run(steps).acked == [7] && Run(steps).w.chain == []
  {
    steps := BelievedRun();
    hide Run;
    Extend(steps, TakeHint(1), Wait(0));
    steps := steps + [TakeHint(1), Wait(0)];
    var acked: seq<Tx> := [7];
    assert acked[..1] == acked;
  }

  /** The file of a granted writer is replaced by an older one, and it writes to that. */
  lemma ReplacedFileRun() returns (steps: seq<Step>)
    ensures Run(steps) == State(W([8], [7], true), false, map[], None, 1, None, {}, map[0 := Wrote(1)], [7])
  {
    steps := WriterRun();
    hide Run;
    var s := Run(steps);
    Extend(steps, Cancel, Fail(0));
    steps := steps + [Cancel, Fail(0)];
    assert Run(steps) == s.(caps := map[0 := Cap(0, 1, 1, true, Dead)], reg := None);
    Extend(steps, Reopen(0), Write(0, 8));
    steps := steps + [Reopen(0), Write(0, 8)];
  }

  lemma ForkedRun() returns (steps: seq<Step>)
    ensures Run(steps) == State(W([8], [7], true), false, map[1 := Cap(0, 1, 1, false, Init)], Some(1), 2, None, {},
                                map[0 := Wrote(1), 1 := Asking(0, 1, 1)], [7])
  {
    steps := ReplacedFileRun();
    hide Run;
    var s := Run(steps);
    Extend(steps, Own(1), Base(1));
    steps := steps + [Own(1), Base(1)];
    assert Run(steps) == s.(threads := map[0 := Wrote(1), 1 := Based(0, 1)]);
    Extend(steps, Enter(1), TakeHint(1));
    steps := steps + [Enter(1), TakeHint(1)];
  }

  lemma ResumedRun() returns (steps: seq<Step>)
    ensures Run(steps) == State(W([8], [7], true), false, map[1 := Cap(0, 1, 1, false, Live)], Some(1), 2, None, {},
                                map[0 := Wrote(1), 1 := Granted(0)], [7])
  {
    steps := ForkedRun();
    hide Run;
    var s := Run(steps);
    Extend(steps, Ask(1, true, true), Measure(1, true));
    steps := steps + [Ask(1, true, true), Measure(1, true)];
    assert Run(steps) == s.(threads := map[0 := Wrote(1), 1 := Measured(0, 1, 1, true, 1)]);
    Extend(steps, Compare(1, HasWriter), Leave(9));
    steps := steps + [Compare(1, HasWriter), Leave(9)];
  }

  lemma DivergedRun() returns (steps: seq<Step>)
    ensures Run(steps) == State(W([8, 9], [7, 9], true), false, map[1 := Cap(0, 2, 2, false, Live)], Some(1), 2, None, {},
                                map[0 := Wrote(1), 1 := Wrote(2)], [7])
  {
    steps := ResumedRun();
    hide Run;
    var s := Run(steps);
    var local: seq<Tx>, chain: seq<Tx> := [8, 9], [7, 9];
    assert s.w.local + [9] == local && s.w.chain + [9] == chain;
    Extend(steps, Write(1, 9), Emit(1));
    steps := steps + [Write(1, 9), Emit(1)];
  }

  /**
   Its transaction takes the number of a durable one, a capture resumes on that number, and later
   writes are acknowledged on a file the chain does not have.
   */
  lemma ReopenUnderWriterForks() returns (steps: seq<Step>)
    ensures var s := Run(steps); s.w.local == [8, 9] && s.w.chain == [7, 9] && s.acked == [8, 9]
  {
    steps := DivergedRun();
    hide Run;
    var s := Run(steps);
    assert s.w.local[..2] == s.w.local;
    Extend(steps, Wait(1), Leave(9));
    steps := steps + [Wait(1), Leave(9)];
  }
}
