/**
 AppendAuthority (internal/bucket/appendbucket.go): a compare-and-swap record kept as one framed
 log per key, written only by "append if the object's length equals position".

 Many clients run Get, ConditionalCreate, CAS and ConditionalDelete on one key. A call is a read
 followed, when the read allows it, by one atomic append; between the two any number of steps of
 other calls may happen. A run is any sequence of such steps.
 */
module AppendAuthority {
  import opened Bytes
  import opened Frames

  /** max <= 0 is the unbounded authority. */
  datatype Config = Config(crc: Crc, max: int)

  /** A token is the record's byte length; a text that is no positive number is refused unread. */
  datatype Op =
    | Get
    | Create(data: seq<Byte>)
    | Cas(data: seq<Byte>, token: int)
    | Delete(token: int)

  datatype Reply =
    | Found(value: seq<Byte>, token: nat)
    | Written(token: nat)
    | NotFound
    | Precondition
    | Full
    | Failed

  /**
   A call in flight. `from`, `seen` and `to` count the writes accepted when the call began, when it
   read and when it ended; `at` is the number of accepted writes its reply is explained by.
   */
  datatype Call =
    | Awaiting(op: Op, attempt: nat, from: nat)
    | Appending(op: Op, pos: nat, seen: nat, from: nat)
    | Done(op: Op, reply: Reply, at: nat, from: nat, to: nat)

  datatype Accepted = Accepted(id: nat, op: Op)

  datatype State = State(stored: Option<seq<Byte>>, calls: map<nat, Call>, history: seq<Accepted>)

  const Init := State(None, map[], [])

  datatype Step =
    | Invoke(id: nat, op: Op)  // a client calls
    | Observe(id: nat)         // its read
    | Land(id: nat)            // its append
    | Fault(id: nat)           // a transport error or cancellation, with no effect on the object
    | Expose                   // the provider shows the object empty while a first append is in flight

  // ------------------------------------------------------------------ the steps of the source

  function Length(stored: Option<seq<Byte>>): nat
  {
    if stored.Some? then |stored.value| else 0
  }

  function Payload(op: Op): seq<Byte>
  {
    match op case Create(d) => d case Cas(d, _) => d case _ => []
  }

  function FrameOf(c: Config, op: Op): (frame: seq<Byte>)
    ensures |frame| == V1_HEADER + |Payload(op)|
  {
    V1Frame(c.crc, Payload(op), op.Delete?)
  }

  function Finish(s: State, id: nat, reply: Reply, at: nat): State
    requires id in s.calls
  {
    s.(calls := s.calls[id := Done(s.calls[id].op, reply, at, s.calls[id].from, |s.history|)])
  }

  /** What the read of a call decides, given the stored bytes. */
  function Observed(c: Config, s: State, id: nat): State
    requires id in s.calls && s.calls[id].Awaiting?
  {
    var call, now := s.calls[id], |s.history|;
    if (call.op.Cas? || call.op.Delete?) && call.op.token <= 0 then Finish(s, id, Precondition, now)
    else if s.stored.None? then
      match call.op
      case Get => Finish(s, id, NotFound, now)
      case Create(_) => s.(calls := s.calls[id := Appending(call.op, 0, now, call.from)])
      case _ => Finish(s, id, Precondition, now)
    else if s.stored.value == [] then
      // empty is never absence: observe again, five times in all
      if call.attempt == 4 then Finish(s, id, Failed, now)
      else s.(calls := s.calls[id := call.(attempt := call.attempt + 1)])
    else
      var raw := s.stored.value;
      match DecodeAll(c.crc, LegacyOnly, raw)
      case None => Finish(s, id, Failed, now)
      case Some(f) =>
        match call.op
        case Get => Finish(s, id, if f.deleted then NotFound else Found(f.value, |raw|), now)
        case Create(_) =>
          if f.deleted then s.(calls := s.calls[id := Appending(call.op, |raw|, now, call.from)])
          else Finish(s, id, Precondition, now)
        case _ =>
          if f.deleted || call.op.token != |raw| then Finish(s, id, Precondition, now)
          else s.(calls := s.calls[id := Appending(call.op, |raw|, now, call.from)])
  }

  /** The appends refused before they are sent. */
  predicate OverCap(c: Config, op: Op, pos: nat)
  {
    c.max > 0 && (pos > c.max || V1_HEADER + |Payload(op)| > c.max - pos)
  }

  predicate Accepts(c: Config, s: State, id: nat)
    requires id in s.calls && s.calls[id].Appending?
  {
    !OverCap(c, s.calls[id].op, s.calls[id].pos) && Length(s.stored) == s.calls[id].pos
  }

  /** The bounded append: refuse past the cap, otherwise let the provider compare the position. */
  function Landed(c: Config, s: State, id: nat): State
    requires id in s.calls && s.calls[id].Appending?
  {
    var call, frame := s.calls[id], FrameOf(c, s.calls[id].op);
    if OverCap(c, call.op, call.pos) then Finish(s, id, Full, |s.history|)
    else if Length(s.stored) != call.pos then
      Finish(s, id, Precondition, if call.op.Create? then call.seen + 1 else |s.history|)
    else
      var raw := (if s.stored.Some? then s.stored.value else []) + frame;
      var s' := s.(stored := Some(raw), history := s.history + [Accepted(id, call.op)]);
      Finish(s', id, Written(|raw|), |s'.history|)
  }

  function Apply(c: Config, s: State, step: Step): State
  {
    match step
    case Invoke(id, op) =>
      if id in s.calls then s else s.(calls := s.calls[id := Awaiting(op, 0, |s.history|)])
    case Observe(id) => if id in s.calls && s.calls[id].Awaiting? then Observed(c, s, id) else s
    case Land(id) => if id in s.calls && s.calls[id].Appending? then Landed(c, s, id) else s
    case Fault(id) =>
      if id in s.calls && !s.calls[id].Done? then Finish(s, id, Failed, |s.history|) else s
    case Expose => if s.stored.None? then s.(stored := Some([])) else s
  }

  function Run(c: Config, steps: seq<Step>): State
  {
    if steps == [] then Init else Apply(c, Run(c, steps[..|steps| - 1]), steps[|steps| - 1])
  }

  // ------------------------------------------------------------------ the register it implements

  /** A record as its users see it: a value or nothing, and the token that would change it. */
  datatype Register = Register(value: Option<seq<Byte>>, version: nat)

  predicate Allowed(r: Register, op: Op)
  {
    match op
    case Get => false
    case Create(_) => r.value.None?
    case Cas(_, token) => r.value.Some? && token == r.version
    case Delete(token) => r.value.Some? && token == r.version
  }

  function After(r: Register, op: Op): Register
  {
    Register(if op.Delete? then None else Some(Payload(op)), r.version + V1_HEADER + |Payload(op)|)
  }

  /** The register after the first n accepted writes. */
  function Replay(history: seq<Accepted>, n: nat): (r: Register)
    requires n <= |history|
  {
    if n == 0 then Register(None, 0) else After(Replay(history, n - 1), history[n - 1].op)
  }

  /** Every accepted write was allowed by the register it found. */
  ghost predicate Legal(history: seq<Accepted>)
  {
    forall i | 0 <= i < |history| :: Allowed(Replay(history, i), history[i].op)
  }

  /** The reply is what the register answers after `at` accepted writes. */
  ghost predicate Explained(history: seq<Accepted>, id: nat, op: Op, reply: Reply, at: nat)
    requires at <= |history|
  {
    var r := Replay(history, at);
    match reply
    case Found(v, token) => op.Get? && r == Register(Some(v), token)
    case NotFound => op.Get? && r.value.None?
    case Written(token) => at > 0 && history[at - 1] == Accepted(id, op) && r.version == token
    case Precondition => !op.Get? && !Allowed(r, op)
    case Full => true
    case Failed => true
  }

  predicate HasId(history: seq<Accepted>, id: nat)
  {
    exists i | 0 <= i < |history| :: history[i].id == id
  }

  // ------------------------------------------------------------------ what every step keeps

  /** The stored bytes are the register: absent or empty is version 0 with no value. */
  ghost predicate Stores(c: Config, stored: Option<seq<Byte>>, r: Register)
  {
    && Length(stored) == r.version
    && (r.version == 0 ==> r.value.None?)
    && (r.version > 0 ==>
          var f := DecodeAll(c.crc, LegacyOnly, stored.value);
          f.Some? && r.value == if f.value.deleted then None else Some(f.value.value))
  }

  ghost predicate CallOk(s: State, id: nat)
    requires id in s.calls
  {
    var call, now := s.calls[id], |s.history|;
    && (call.op.Create? || call.op.Cas? ==> |Payload(call.op)| < TWO32)
    && match call
       case Awaiting(op, _, from) => from <= now && !HasId(s.history, id)
       case Appending(op, pos, seen, from) =>
         && from <= seen <= now && !op.Get? && !HasId(s.history, id)
         && Replay(s.history, seen).version == pos
         && Allowed(Replay(s.history, seen), op)
       case Done(op, reply, at, from, to) =>
         && from <= at <= to <= now && Explained(s.history, id, op, reply, at)
         && (HasId(s.history, id) <==> reply.Written?)
  }

  ghost predicate Inv(c: Config, s: State)
  {
    && Legal(s.history)
    && Stores(c, s.stored, Replay(s.history, |s.history|))
    && (forall id | id in s.calls :: CallOk(s, id))
    && (forall i | 0 <= i < |s.history| :: s.history[i].id in s.calls)
    && (forall i, j | 0 <= i < j < |s.history| :: s.history[i].id != s.history[j].id)
    && (c.max > 0 ==> Length(s.stored) <= c.max)
  }

  /** Payloads a length field can describe; the codec's own limit. */
  predicate StepOk(step: Step)
  {
    step.Invoke? ==> |Payload(step.op)| < TWO32
  }

  lemma {:induction false} ReplayExtends(history: seq<Accepted>, more: seq<Accepted>, n: nat)
    requires n <= |history|
    ensures Replay(history + more, n) == Replay(history, n)
  {
    if n > 0 {
      ReplayExtends(history, more, n - 1);
      assert (history + more)[n - 1] == history[n - 1];
    }
  }

  lemma CallOkExtends(s: State, s': State, id: nat, e: Accepted)
    requires id in s.calls && id in s'.calls && s'.calls[id] == s.calls[id] && CallOk(s, id)
    requires s'.history == s.history + [e] && e.id != id
    ensures CallOk(s', id)
  {
    hide Allowed, After, Payload;
    var call := s.calls[id];
    if call.Appending? { ReplayExtends(s.history, [e], call.seen); }
    if call.Done? {
      ReplayExtends(s.history, [e], call.at);
      if call.at > 0 { assert s'.history[call.at - 1] == s.history[call.at - 1]; }
    }
    HasIdExtends(s.history, e, id);
  }

  lemma HasIdExtends(history: seq<Accepted>, e: Accepted, id: nat)
    ensures HasId(history + [e], id) <==> HasId(history, id) || e.id == id
  {
    var h := history + [e];
    if HasId(history, id) {
      var i :| 0 <= i < |history| && history[i].id == id;
      assert h[i].id == id;
    }
    if e.id == id { assert h[|history|].id == id; }
  }

  /** Appending the operation's frame turns the stored register into the one after the operation. */
  lemma AppendStores(c: Config, stored: Option<seq<Byte>>, r: Register, op: Op)
    requires Stores(c, stored, r) && Allowed(r, op) && |Payload(op)| < TWO32
    ensures Stores(c, Some((if stored.Some? then stored.value else []) + FrameOf(c, op)), After(r, op))
  {
    hide ParseOne, DecodeAll, V1Frame;
    var raw, frame := if stored.Some? then stored.value else [], FrameOf(c, op);
    V1ParsesFirst(c.crc, LegacyOnly, Payload(op), op.Delete?, []);
    assert frame + [] == frame;
    AppendDecodes(c.crc, LegacyOnly, raw, frame);
  }

  /** A refused append changes nothing and its reply is explained by the register. */
  lemma RefusedOk(c: Config, s: State, id: nat)
    requires id in s.calls && s.calls[id].Appending? && CallOk(s, id) && !Accepts(c, s, id)
    requires Legal(s.history) && Length(s.stored) == Replay(s.history, |s.history|).version
    ensures var s' := Landed(c, s, id); s'.history == s.history && s'.stored == s.stored && CallOk(s', id)
  {
    hide Length, FrameOf, OverCap, HasId, Replay, Legal;
    var call := s.calls[id];
    if !OverCap(c, call.op, call.pos) && call.op.Create? {
      assert |s.history| > call.seen;
      CreatedNext(s.history, call.seen);
    }
  }

  /** The first write accepted after a moment with no record created one. */
  lemma CreatedNext(history: seq<Accepted>, n: nat)
    requires n < |history| && Legal(history) && Replay(history, n).value.None?
    ensures Replay(history, n + 1).value.Some?
  {
    assert Allowed(Replay(history, n), history[n].op);
  }

  /** Nothing landed since the read of a call whose append is accepted. */
  lemma AcceptedAtOnce(c: Config, s: State, id: nat)
    requires id in s.calls && s.calls[id].Appending? && CallOk(s, id) && Accepts(c, s, id)
    requires Length(s.stored) == Replay(s.history, |s.history|).version
    ensures s.calls[id].seen == |s.history|
    ensures Allowed(Replay(s.history, |s.history|), s.calls[id].op)
  {
    hide Allowed, Length, OverCap, HasId;
    VersionsGrow(s.history, s.calls[id].seen, |s.history|);
  }

  /** An accepted append takes the register one write further. */
  lemma AcceptedReplay(c: Config, s: State, id: nat)
    requires Inv(c, s) && id in s.calls && s.calls[id].Appending? && Accepts(c, s, id)
    ensures var s', call := Landed(c, s, id), s.calls[id]; var now := |s.history|;
            && s'.history == s.history + [Accepted(id, call.op)]
            && Replay(s'.history, now + 1) == After(Replay(s.history, now), call.op)
            && Stores(c, s'.stored, Replay(s'.history, now + 1))
            && (c.max > 0 ==> Length(s'.stored) <= c.max)
  {
    hide DecodeAll, V1Frame, Allowed;
    assert CallOk(s, id);
    AcceptedAtOnce(c, s, id);
    ReplayExtends(s.history, [Accepted(id, s.calls[id].op)], |s.history|);
    AppendStores(c, s.stored, Replay(s.history, |s.history|), s.calls[id].op);
  }

  lemma LegalExtends(history: seq<Accepted>, e: Accepted)
    requires Legal(history) && Allowed(Replay(history, |history|), e.op)
    ensures Legal(history + [e])
  {
    hide Allowed, Replay;
    var h := history + [e];
    forall i | 0 <= i < |h| ensures Allowed(Replay(h, i), h[i].op) {
      ReplayExtends(history, [e], i);
      if i < |history| { assert h[i] == history[i]; }
    }
  }

  /** An accepted append keeps every other call's account of the past and completes its own. */
  lemma AcceptedCallsOk(c: Config, s: State, id: nat, k: nat)
    requires Inv(c, s) && id in s.calls && s.calls[id].Appending? && Accepts(c, s, id) && k in s.calls
    ensures k in Landed(c, s, id).calls && CallOk(Landed(c, s, id), k)
  {
    hide Allowed, FrameOf, Stores, Replay, After, HasId, OverCap;
    var s', e := Landed(c, s, id), Accepted(id, s.calls[id].op);
    AcceptedReplay(c, s, id);
    assert CallOk(s, k) && CallOk(s, id);
    if k != id { CallOkExtends(s, s', k, e); }
    else {
      assert s'.stored.Some? && s'.calls[id].reply == Written(Length(s'.stored));
      assert Stores(c, s'.stored, Replay(s'.history, |s'.history|));
      StoresLength(c, s'.stored, Replay(s'.history, |s'.history|));
      HasIdExtends(s.history, e, id);
    }
  }

  lemma StoresLength(c: Config, stored: Option<seq<Byte>>, r: Register)
    requires Stores(c, stored, r)
    ensures Length(stored) == r.version
  {
  }

  lemma LandKeeps(c: Config, s: State, id: nat)
    requires Inv(c, s) && id in s.calls && s.calls[id].Appending?
    ensures Inv(c, Landed(c, s, id))
  {
    hide Allowed, After, FrameOf, Stores, Replay, Explained, HasId, Legal;
    var call, s' := s.calls[id], Landed(c, s, id);
    assert CallOk(s, id);
    StoresLength(c, s.stored, Replay(s.history, |s.history|));
    if Accepts(c, s, id) {
      AcceptedReplay(c, s, id);
      AcceptedAtOnce(c, s, id);
      LegalExtends(s.history, Accepted(id, call.op));
      forall k | k in s'.calls ensures CallOk(s', k) { AcceptedCallsOk(c, s, id, k); }
      NewIdDistinct(s.history, Accepted(id, call.op));
    } else {
      RefusedOk(c, s, id);
      assert forall k | k in s'.calls && k != id :: k in s.calls && s'.calls[k] == s.calls[k];
      hide Landed;
      forall k | k in s'.calls ensures CallOk(s', k) {
        if k != id { assert CallOk(s, k); }
      }
    }
  }

  lemma NewIdDistinct(history: seq<Accepted>, e: Accepted)
    requires !HasId(history, e.id)
    requires forall i, j | 0 <= i < j < |history| :: history[i].id != history[j].id
    ensures var h := history + [e]; forall i, j | 0 <= i < j < |h| :: h[i].id != h[j].id
  {
  }

  /** Each accepted write makes the record strictly longer. */
  lemma {:induction false} VersionsGrow(history: seq<Accepted>, i: nat, j: nat)
    requires i <= j <= |history|
    ensures Replay(history, i).version + V1_HEADER * (j - i) <= Replay(history, j).version
    decreases j
  {
    if i < j { VersionsGrow(history, i, j - 1); }
  }

  /** What a read decides is explained by, or remembers, the register at the moment of the read. */
  lemma ObservedOk(c: Config, s: State, id: nat)
    requires Inv(c, s) && id in s.calls && s.calls[id].Awaiting?
    ensures var s' := Observed(c, s, id);
            s'.history == s.history && s'.stored == s.stored && id in s'.calls && CallOk(s', id)
  {
    hide DecodeAll, Replay, HasId;
    assert CallOk(s, id);
    var r := Replay(s.history, |s.history|);
    assert Stores(c, s.stored, r);
  }

  lemma ObserveKeeps(c: Config, s: State, id: nat)
    requires Inv(c, s) && id in s.calls && s.calls[id].Awaiting?
    ensures Inv(c, Observed(c, s, id))
  {
    hide DecodeAll, After, Replay, HasId, Stores, Explained;
    var s' := Observed(c, s, id);
    ObservedOk(c, s, id);
    assert forall k | k in s'.calls && k != id :: k in s.calls && s'.calls[k] == s.calls[k];
    hide Observed;
    forall k | k in s'.calls ensures CallOk(s', k) {
      if k != id { assert CallOk(s, k); }
    }
  }

  lemma ApplyKeeps(c: Config, s: State, step: Step)
    requires Inv(c, s) && StepOk(step)
    ensures Inv(c, Apply(c, s, step))
  {
    hide DecodeAll, After, Landed, Observed, Replay;
    var s' := Apply(c, s, step);
    match step
    case Observe(id) => if id in s.calls && s.calls[id].Awaiting? { ObserveKeeps(c, s, id); }
    case Land(id) => if id in s.calls && s.calls[id].Appending? { LandKeeps(c, s, id); }
    case _ =>
      assert s'.history == s.history;
      forall k | k in s'.calls ensures CallOk(s', k) {
        if k in s.calls { assert CallOk(s, k); }
        else if HasId(s.history, k) { assert false; }
      }
  }

  /** Every run keeps the invariant. */
  lemma {:induction false} RunKeeps(c: Config, steps: seq<Step>)
    requires forall step <- steps :: StepOk(step)
    ensures Inv(c, Run(c, steps))
    decreases |steps|
  {
    if steps != [] {
      RunKeeps(c, steps[..|steps| - 1]);
      ApplyKeeps(c, Run(c, steps[..|steps| - 1]), steps[|steps| - 1]);
    }
  }

  // ------------------------------------------------------------------ what users of the record may rely on

  /**
   Linearizability. After any run: the accepted writes form a legal history of the register, the
   stored bytes are the register that history leads to, and every finished call got the reply the
   register gives at some point between the call's start and its end. A call that was not told it
   wrote is not in the history at all.
   */
  lemma Linearizable(c: Config, steps: seq<Step>, id: nat)
    requires forall step <- steps :: StepOk(step)
    requires var s := Run(c, steps); id in s.calls && s.calls[id].Done?
    ensures var s := Run(c, steps); var call := s.calls[id];
            && Legal(s.history)
            && Stores(c, s.stored, Replay(s.history, |s.history|))
            && call.from <= call.at <= call.to <= |s.history|
            && Explained(s.history, id, call.op, call.reply, call.at)
            && (HasId(s.history, id) <==> call.reply.Written?)
  {
    RunKeeps(c, steps);
    assert CallOk(Run(c, steps), id);
  }

  lemma StepForward(c: Config, s: State, step: Step, id: nat)
    ensures var s' := Apply(c, s, step);
            && s.history <= s'.history
            && (id in s.calls ==> id in s'.calls && s'.calls[id].from == s.calls[id].from)
            && (id in s.calls && s.calls[id].Done? ==> s'.calls[id] == s.calls[id])
            && (id !in s.calls && id in s'.calls ==> s'.calls[id].from == |s.history|)
  {
    hide DecodeAll, V1Frame;
  }

  /** A finished call stays as it is, and a call that begins later begins after everything so far. */
  lemma {:induction false} CallsInTime(c: Config, steps: seq<Step>, more: seq<Step>, a: nat, b: nat)
    requires a in Run(c, steps).calls && Run(c, steps).calls[a].Done? && b !in Run(c, steps).calls
    ensures var s, s' := Run(c, steps), Run(c, steps + more);
            && s.history <= s'.history && a in s'.calls && s'.calls[a] == s.calls[a]
            && (b in s'.calls ==> |s.history| <= s'.calls[b].from)
    decreases |more|
  {
    if more == [] {
      assert steps + more == steps;
    } else {
      var front, last := more[..|more| - 1], more[|more| - 1];
      CallsInTime(c, steps, front, a, b);
      var all := steps + more;
      assert all[..|all| - 1] == steps + front;
      var s := Run(c, steps + front);
      assert Run(c, all) == Apply(c, s, last);
      hide Run, Apply;
      StepForward(c, s, last, a);
      StepForward(c, s, last, b);
    }
  }

  /** Real time: a call that ended before another began is explained no later than it. */
  lemma RealTimeOrder(c: Config, steps: seq<Step>, more: seq<Step>, a: nat, b: nat)
    requires forall step <- steps + more :: StepOk(step)
    requires a in Run(c, steps).calls && Run(c, steps).calls[a].Done? && b !in Run(c, steps).calls
    requires b in Run(c, steps + more).calls && Run(c, steps + more).calls[b].Done?
    ensures var s := Run(c, steps + more); a in s.calls && s.calls[a].Done? && s.calls[a].at <= s.calls[a].to <= s.calls[b].from <= s.calls[b].at
  {
    CallsInTime(c, steps, more, a, b);
    assert forall step <- steps :: step in steps + more;
    RunKeeps(c, steps);
    RunKeeps(c, steps + more);
    assert CallOk(Run(c, steps), a) && CallOk(Run(c, steps + more), b);
    hide Run;
  }

  function Consumes(op: Op): Option<int>
  {
    match op case Cas(_, t) => Some(t) case Delete(t) => Some(t) case _ => None
  }

  /** No token is used up twice: at most one CAS or delete carrying it ever succeeds. */
  lemma TokenWonOnce(c: Config, steps: seq<Step>, i: nat, j: nat)
    requires forall step <- steps :: StepOk(step)
    requires i < |Run(c, steps).history| && j < |Run(c, steps).history|
    requires Consumes(Run(c, steps).history[i].op).Some?
    requires Consumes(Run(c, steps).history[i].op) == Consumes(Run(c, steps).history[j].op)
    ensures i == j
  {
    RunKeeps(c, steps);
    var h := Run(c, steps).history;
    assert Allowed(Replay(h, i), h[i].op) && Allowed(Replay(h, j), h[j].op);
    if i < j { VersionsGrow(h, i, j); }
    if j < i { VersionsGrow(h, j, i); }
  }

  /** A bounded record never outgrows its cap, and no step ever shortens or rewrites it. */
  lemma RecordOnlyGrows(c: Config, steps: seq<Step>, step: Step)
    requires (forall x <- steps :: StepOk(x)) && StepOk(step)
    ensures var s := Run(c, steps); var s' := Apply(c, s, step);
            && (s.stored.Some? ==> s'.stored.Some? && s.stored.value <= s'.stored.value)
            && (c.max > 0 ==> Length(s'.stored) <= c.max)
            && (s'.history != s.history ==> Length(s.stored) + V1_HEADER <= Length(s'.stored))
  {
    RunKeeps(c, steps);
    ApplyKeeps(c, Run(c, steps), step);
    GrowsBy(c, Run(c, steps), step);
  }

  lemma GrowsBy(c: Config, s: State, step: Step)
    ensures var s' := Apply(c, s, step);
            && (s.stored.Some? ==> s'.stored.Some? && s.stored.value <= s'.stored.value)
            && (s'.history != s.history ==> Length(s.stored) + V1_HEADER <= Length(s'.stored))
  {
    hide DecodeAll, V1Frame;
  }
}
