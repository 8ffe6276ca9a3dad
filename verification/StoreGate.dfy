/**
 The request, open and eviction gate of the cell store (internal/cellstore/cellstore.go).

 Every section under the store mutex, and every file or handle action between two sections, is
 one atomic step; any number of threads run BeginRequest, Cell, forget and evictOne on any number
 of scopes. Waiting on the condition variable is a step that is not enabled yet.
 */
module StoreGate {
  import opened Bytes

  /** Scopes are only compared, so numbers stand for their names. */
  type Scope = nat
  type Handle = nat
  type Thread = nat

  /** What a thread is in the middle of. */
  datatype Act =
    | Idle
    | Opening(scope: Scope)                                  // Cell: marked opening, lock released
    | Opened(scope: Scope, handle: Handle)                   // SQLite is open, not yet published
    | Published(scope: Scope, handle: Handle)                // in the cache, still marked opening
    | Aborted(scope: Scope)                                  // the open failed, still marked opening
    | Verifying(scope: Scope)                                // forget: gate held, verify runs
    | Closing(scope: Scope, taken: Option<Handle>, purge: bool)  // handle taken out of the cache
    | Removing(scope: Scope)                                 // forget: deleting the files
    | Clearing(scope: Scope)                                 // about to release the gate

  /** `pin` is the scope BeginRequest admitted the thread to, `has` the handle Cell gave it there. */
  datatype Proc = Proc(pin: Option<Scope>, has: Option<Handle>, act: Act)

  /** busy, opening and evicting as in the store; the two gates also name the thread that set them. */
  datatype State = State(
    procs: map<Thread, Proc>,
    busy: map<Scope, nat>,
    opening: map<Scope, Thread>,
    evicting: map<Scope, Thread>,
    cells: map<Scope, Handle>,
    live: map<Handle, Scope>,
    files: set<Scope>,
    next: Handle)

  const Init := State(map[], map[], map[], map[], map[], map[], {}, 0)

  datatype Step =
    | Begin(t: Thread, k: Scope)      // BeginRequestContext
    | End(t: Thread)                  // the function it returned
    | Cell(t: Thread, k: Scope)       // Cell: hit, or start of an open
    | Discard(t: Thread)              // the open path drops a file set it cannot use
    | OpenCell(t: Thread, ok: bool)   // hydrate and open outside the lock
    | Publish(t: Thread)
    | ClearOpening(t: Thread)
    | Gate(t: Thread, k: Scope)       // forget / TryInvalidate: take the eviction gate
    | Verify(t: Thread, ok: bool)
    | EvictOne(t: Thread, k: Scope)   // evictOne's choice, gate and removal in one section
    | CloseHandle(t: Thread)
    | RemoveFiles(t: Thread, ok: bool)
    | ClearGate(t: Thread)

  function Busy(s: State, k: Scope): nat { if k in s.busy then s.busy[k] else 0 }

  function ProcOf(s: State, t: Thread): Proc { if t in s.procs then s.procs[t] else Proc(None, None, Idle) }

  function Put(s: State, t: Thread, p: Proc): State { s.(procs := s.procs[t := p]) }

  function DoCell(s: State, t: Thread, p: Proc, k: Scope): State
  {
    if !p.act.Idle? || k in s.evicting || k in s.opening then s
    else if k in s.cells then Put(s, t, if p.pin == Some(k) then p.(has := Some(s.cells[k])) else p)
    else Put(s.(opening := s.opening[k := t]), t, p.(act := Opening(k)))
  }

  /** removeCellFileSet in the open path: a torn marker, or a source that cannot be attached. */
  function DoDiscard(s: State, t: Thread, p: Proc): State
  {
    if !p.act.Opening? then s else Put(s.(files := s.files - {p.act.scope}), t, p)
  }

  function DoOpen(s: State, t: Thread, p: Proc, ok: bool): State
  {
    if !p.act.Opening? then s
    else if !ok then Put(s, t, p.(act := Aborted(p.act.scope)))
    else
      var k := p.act.scope;
      Put(s.(live := s.live[s.next := k], files := s.files + {k}, next := s.next + 1), t, p.(act := Opened(k, s.next)))
  }

  function DoClearOpening(s: State, t: Thread, p: Proc): State
  {
    if p.act.Published? then
      var k, h := p.act.scope, p.act.handle;
      Put(s.(opening := s.opening - {k}), t, Proc(p.pin, if p.pin == Some(k) then Some(h) else p.has, Idle))
    else if p.act.Aborted? then Put(s.(opening := s.opening - {p.act.scope}), t, p.(act := Idle))
    else s
  }

  /** After verify, the cached handle (if any) leaves the cache. */
  function DoVerify(s: State, t: Thread, p: Proc, ok: bool): State
  {
    if !p.act.Verifying? then s
    else
      var k := p.act.scope;
      if !ok then Put(s, t, p.(act := Clearing(k)))
      else if k in s.cells then Put(s.(cells := s.cells - {k}), t, p.(act := Closing(k, Some(s.cells[k]), true)))
      else Put(s, t, p.(act := Closing(k, None, true)))
  }

  function DoClose(s: State, t: Thread, p: Proc): State
  {
    if !p.act.Closing? then s
    else
      var live := if p.act.taken.Some? then s.live - {p.act.taken.value} else s.live;
      Put(s.(live := live), t, p.(act := if p.act.purge then Removing(p.act.scope) else Clearing(p.act.scope)))
  }

  function DoEnd(s: State, t: Thread, p: Proc): State
  {
    if p.pin.None? || !p.act.Idle? then s
    else
      var k := p.pin.value;
      var n := if Busy(s, k) > 0 then Busy(s, k) - 1 else 0;
      Put(s.(busy := if n == 0 then s.busy - {k} else s.busy[k := n]), t, Proc(None, None, Idle))
  }

  function DoBegin(s: State, t: Thread, p: Proc, k: Scope): State
  {
    if p.pin.Some? || !p.act.Idle? || k in s.evicting then s
    else Put(s.(busy := s.busy[k := Busy(s, k) + 1]), t, p.(pin := Some(k), has := None))
  }

  function DoPublish(s: State, t: Thread, p: Proc): State
  {
    if !p.act.Opened? then s
    else Put(s.(cells := s.cells[p.act.scope := p.act.handle]), t, p.(act := Published(p.act.scope, p.act.handle)))
  }

  function DoGate(s: State, t: Thread, p: Proc, k: Scope): State
  {
    if !p.act.Idle? || k in s.evicting || k in s.opening || Busy(s, k) > 0 then s
    else Put(s.(evicting := s.evicting[k := t]), t, p.(act := Verifying(k)))
  }

  function DoEvictOne(s: State, t: Thread, p: Proc, k: Scope): State
  {
    if !p.act.Idle? || k !in s.cells || k in s.evicting || k in s.opening || Busy(s, k) > 0 then s
    else Put(s.(evicting := s.evicting[k := t], cells := s.cells - {k}), t, p.(act := Closing(k, Some(s.cells[k]), false)))
  }

  function DoRemove(s: State, t: Thread, p: Proc, ok: bool): State
  {
    if !p.act.Removing? then s
    else Put(s.(files := if ok then s.files - {p.act.scope} else s.files), t, p.(act := Clearing(p.act.scope)))
  }

  function DoClearGate(s: State, t: Thread, p: Proc): State
  {
    if !p.act.Clearing? then s else Put(s.(evicting := s.evicting - {p.act.scope}), t, p.(act := Idle))
  }

  function Apply(s: State, step: Step): State
  {
    var t := step.t;
    var p := ProcOf(s, t);
    match step
    case Begin(_, k) => DoBegin(s, t, p, k)
    case End(_) => DoEnd(s, t, p)
    case Cell(_, k) => DoCell(s, t, p, k)
    case Discard(_) => DoDiscard(s, t, p)
    case OpenCell(_, ok) => DoOpen(s, t, p, ok)
    case Publish(_) => DoPublish(s, t, p)
    case ClearOpening(_) => DoClearOpening(s, t, p)
    case Gate(_, k) => DoGate(s, t, p, k)
    case Verify(_, ok) => DoVerify(s, t, p, ok)
    case EvictOne(_, k) => DoEvictOne(s, t, p, k)
    case CloseHandle(_) => DoClose(s, t, p)
    case RemoveFiles(_, ok) => DoRemove(s, t, p, ok)
    case ClearGate(_) => DoClearGate(s, t, p)
  }

  function Run(steps: seq<Step>): State
  {
    if steps == [] then Init else Apply(Run(steps[..|steps| - 1]), steps[|steps| - 1])
  }

  // ------------------------------------------------------------------ the invariant

  /** The threads admitted to a scope. */
  function Pinned(s: State, k: Scope): set<Thread>
  {
    set t | t in s.procs && s.procs[t].pin == Some(k)
  }

  predicate Opens(a: Act, k: Scope)
  {
    (a.Opening? || a.Opened? || a.Published? || a.Aborted?) && a.scope == k
  }

  predicate Evicts(a: Act, k: Scope)
  {
    (a.Verifying? || a.Closing? || a.Removing? || a.Clearing?) && a.scope == k
  }

  ghost predicate OpeningOk(s: State)
  {
    && (forall k | k in s.opening :: s.opening[k] in s.procs && Opens(s.procs[s.opening[k]].act, k))
    && (forall t, k | t in s.procs && Opens(s.procs[t].act, k) :: k in s.opening && s.opening[k] == t)
  }

  ghost predicate EvictingOk(s: State)
  {
    && (forall k | k in s.evicting :: s.evicting[k] in s.procs && Evicts(s.procs[s.evicting[k]].act, k))
    && (forall t, k | t in s.procs && Evicts(s.procs[t].act, k) :: k in s.evicting && s.evicting[k] == t)
  }

  /** The gates say exactly which thread opens or evicts a scope. */
  ghost predicate GatesOk(s: State) { OpeningOk(s) && EvictingOk(s) }

  /** Eviction excludes opening and admitted requests. */
  ghost predicate Excludes(s: State)
  {
    forall k | k in s.evicting :: k !in s.opening && Busy(s, k) == 0
  }

  ghost predicate CountsOk(s: State)
  {
    && (forall k :: Busy(s, k) == |Pinned(s, k)|)
    && (forall k | k in s.busy :: s.busy[k] > 0)
  }

  /** A thread's own account of the handle it is opening or closing. */
  ghost predicate ActOk(s: State, a: Act)
  {
    match a
    case Opening(k) => k !in s.cells
    case Aborted(k) => k !in s.cells
    case Opened(k, h) => k !in s.cells && h in s.live && s.live[h] == k && k in s.files
    case Published(k, h) => k in s.cells && s.cells[k] == h
    case Closing(k, h, _) => k !in s.cells && (h.Some? ==> h.value in s.live && s.live[h.value] == k)
    case Removing(k) => k !in s.cells
    case _ => true
  }

  /** Where a live handle is held: the cache, the thread that opened it, or the one closing it. */
  ghost predicate Held(s: State, h: Handle)
    requires h in s.live
  {
    var k := s.live[h];
    || (k in s.cells && s.cells[k] == h)
    || (k in s.opening && ProcOf(s, s.opening[k]).act == Opened(k, h))
    || (k in s.evicting && var a := ProcOf(s, s.evicting[k]).act; a.Closing? && a.taken == Some(h))
  }

  ghost predicate HandlesOk(s: State)
  {
    && (forall t | t in s.procs :: ActOk(s, s.procs[t].act))
    && (forall k | k in s.cells :: s.cells[k] in s.live && s.live[s.cells[k]] == k && k in s.files)
    && (forall h | h in s.live :: h < s.next && Held(s, h))
  }

  /** A request that got its handle still has it: the very one in the cache. */
  ghost predicate GrantsOk(s: State)
  {
    forall t | t in s.procs && s.procs[t].has.Some? ::
      s.procs[t].pin.Some? && s.procs[t].pin.value in s.cells && s.cells[s.procs[t].pin.value] == s.procs[t].has.value
  }

  ghost predicate Inv(s: State)
  {
    GatesOk(s) && Excludes(s) && CountsOk(s) && HandlesOk(s) && GrantsOk(s)
  }

  // ------------------------------------------------------------------ every step keeps it

  /** Steps that change no pin change no count. */
  lemma SamePins(s: State, s': State)
    requires CountsOk(s) && s'.busy == s.busy
    requires forall t :: ProcOf(s', t).pin == ProcOf(s, t).pin
    ensures CountsOk(s')
  {
    forall k ensures Busy(s', k) == |Pinned(s', k)| {
      PinnedByProc(s, k);
      PinnedByProc(s', k);
      assert Pinned(s', k) == Pinned(s, k);
      assert Busy(s, k) == |Pinned(s, k)|;
    }
  }

  lemma PinnedByProc(s: State, k: Scope)
    ensures forall t :: t in Pinned(s, k) <==> ProcOf(s, t).pin == Some(k)
  {
  }

  lemma BeginCounts(s: State, t: Thread, k: Scope)
    requires CountsOk(s) && ProcOf(s, t).pin.None?
    ensures CountsOk(Put(s.(busy := s.busy[k := Busy(s, k) + 1]), t, Proc(Some(k), None, ProcOf(s, t).act)))
  {
    var s' := Put(s.(busy := s.busy[k := Busy(s, k) + 1]), t, Proc(Some(k), None, ProcOf(s, t).act));
    forall j ensures Busy(s', j) == |Pinned(s', j)| {
      assert Busy(s, j) == |Pinned(s, j)|;
      PinAdds(s, s', t, k, j);
    }
  }

  lemma PinAdds(s: State, s': State, t: Thread, k: Scope, j: Scope)
    requires ProcOf(s, t).pin.None? && t in s'.procs && s'.procs == s.procs[t := s'.procs[t]] && s'.procs[t].pin == Some(k)
    ensures |Pinned(s', j)| == |Pinned(s, j)| + if j == k then 1 else 0
  {
    if j == k { assert Pinned(s', j) == Pinned(s, j) + {t}; } else { assert Pinned(s', j) == Pinned(s, j); }
  }

  lemma EndCounts(s: State, t: Thread)
    requires CountsOk(s) && ProcOf(s, t).pin.Some? && ProcOf(s, t).act.Idle?
    ensures CountsOk(DoEnd(s, t, ProcOf(s, t)))
  {
    var k, s' := ProcOf(s, t).pin.value, DoEnd(s, t, ProcOf(s, t));
    forall j ensures Busy(s', j) == |Pinned(s', j)| {
      assert Busy(s, j) == |Pinned(s, j)|;
      if j == k {
        assert t in Pinned(s, k);
        assert Pinned(s', k) == Pinned(s, k) - {t};
      } else { assert Pinned(s', j) == Pinned(s, j); }
    }
  }

  lemma BusyWhenPinned(s: State, t: Thread)
    requires CountsOk(s) && ProcOf(s, t).pin.Some?
    ensures Busy(s, ProcOf(s, t).pin.value) > 0
  {
    var k := ProcOf(s, t).pin.value;
    assert t in Pinned(s, k);
    assert Busy(s, k) == |Pinned(s, k)|;
    assert Pinned(s, k) != {};
  }

  /** Of all gates of one kind, the moving thread t then holds at most that of k; no other thread's moves. */
  ghost predicate OneFollows(g: map<Scope, Thread>, g': map<Scope, Thread>, t: Thread, k: Scope, holds: bool)
  {
    && (forall j | j in g && g[j] != t :: j in g' && g'[j] == g[j])
    && (forall j | j in g' && g'[j] != t :: j in g && g[j] == g'[j])
    && (forall j :: (j == k && holds) <==> j in g' && g'[j] == t)
  }

  ghost predicate GatesFollow(s: State, s': State, t: Thread, a': Act, k: Scope)
  {
    && (a'.Idle? || a'.scope == k)
    && OneFollows(s.opening, s'.opening, t, k, Opens(a', k))
    && OneFollows(s.evicting, s'.evicting, t, k, Evicts(a', k))
  }

  lemma GatesMove(s: State, s': State, t: Thread, p': Proc, k: Scope)
    requires GatesOk(s) && s'.procs == s.procs[t := p'] && GatesFollow(s, s', t, p'.act, k)
    ensures GatesOk(s')
  {
    assert OpeningOk(s) && EvictingOk(s);
    ScopeOnly(p'.act, k);
    hide Opens, Evicts, OneFollows, OpeningOk, EvictingOk;
    OpeningMoves(s, s', t, p', k);
    EvictingMoves(s, s', t, p', k);
  }

  lemma OpeningMoves(s: State, s': State, t: Thread, p': Proc, k: Scope)
    requires OpeningOk(s) && s'.procs == s.procs[t := p'] && OneFollows(s.opening, s'.opening, t, k, Opens(p'.act, k))
    requires forall j :: Opens(p'.act, j) ==> j == k
    ensures OpeningOk(s')
  {
    hide Opens;
  }

  lemma EvictingMoves(s: State, s': State, t: Thread, p': Proc, k: Scope)
    requires EvictingOk(s) && s'.procs == s.procs[t := p'] && OneFollows(s.evicting, s'.evicting, t, k, Evicts(p'.act, k))
    requires forall j :: Evicts(p'.act, j) ==> j == k
    ensures EvictingOk(s')
  {
    hide Evicts;
  }

  /** A thread between acts on scope k, or about to start one where both gates are free, is alone there. */
  predicate Owns(s: State, t: Thread, k: Scope)
  {
    var a := ProcOf(s, t).act;
    if a.Idle? then k !in s.opening && k !in s.evicting else a.scope == k
  }

  lemma Alone(s: State, t: Thread, k: Scope, u: Thread)
    requires GatesOk(s) && Excludes(s) && Owns(s, t, k) && u in s.procs && u != t
    ensures s.procs[u].act.Idle? || s.procs[u].act.scope != k
  {
    if !s.procs[u].act.Idle? && s.procs[u].act.scope == k {
      GateOf(s, u);
      if !ProcOf(s, t).act.Idle? { GateOf(s, t); }
    }
  }

  /** A thread in the middle of an act holds the gate of its scope. */
  lemma GateOf(s: State, t: Thread)
    requires GatesOk(s) && !ProcOf(s, t).act.Idle?
    ensures var a := ProcOf(s, t).act;
            && (Opens(a, a.scope) ==> a.scope in s.opening && s.opening[a.scope] == t)
            && (Evicts(a, a.scope) ==> a.scope in s.evicting && s.evicting[a.scope] == t)
            && (Opens(a, a.scope) <==> !Evicts(a, a.scope))
  {
    assert t in s.procs && s.procs[t].act == ProcOf(s, t).act;
  }

  /** Everything that is not about scope k is as before. */
  ghost predicate ElsewhereSame(s: State, s': State, k: Scope)
  {
    && (forall j | j != k :: (j in s'.cells <==> j in s.cells) && (j in s.cells ==> s'.cells[j] == s.cells[j]))
    && (forall j | j != k :: j in s'.files <==> j in s.files)
    && (forall j | j != k :: (j in s'.opening <==> j in s.opening) && (j in s.opening ==> s'.opening[j] == s.opening[j]))
    && (forall j | j != k :: (j in s'.evicting <==> j in s.evicting) && (j in s.evicting ==> s'.evicting[j] == s.evicting[j]))
    && (forall h | h in s.live && s.live[h] != k :: h in s'.live && s'.live[h] == s.live[h])
    && (forall h | h in s'.live && s'.live[h] != k :: h in s.live && s.live[h] == s'.live[h])
    && s.next <= s'.next
  }

  /** What the move must establish about scope k itself. */
  ghost predicate HereOk(s': State, t: Thread, p': Proc, k: Scope)
  {
    && ActOk(s', p'.act)
    && (k in s'.cells ==> s'.cells[k] in s'.live && s'.live[s'.cells[k]] == k && k in s'.files)
    && (forall h | h in s'.live && s'.live[h] == k :: h < s'.next && Held(s', h))
  }

  lemma ActElsewhere(s: State, s': State, k: Scope, a: Act)
    requires ElsewhereSame(s, s', k) && ActOk(s, a) && (a.Idle? || a.scope != k)
    ensures ActOk(s', a)
  {
  }

  lemma HeldElsewhere(s: State, s': State, t: Thread, p': Proc, k: Scope, h: Handle)
    requires GatesOk(s) && Owns(s, t, k) && ElsewhereSame(s, s', k) && s'.procs == s.procs[t := p']
    requires h in s.live && s.live[h] != k && h in s'.live && s'.live[h] == s.live[h] && Held(s, h)
    ensures Held(s', h)
  {
    var j := s.live[h];
    if j in s.opening && ProcOf(s, s.opening[j]).act == Opened(j, h) { assert s.opening[j] != t; }
    if j in s.evicting && ProcOf(s, s.evicting[j]).act.Closing? {
      assert s.evicting[j] in s.procs && Evicts(s.procs[s.evicting[j]].act, j);
    }
  }

  lemma HandlesMove(s: State, s': State, t: Thread, p': Proc, k: Scope)
    requires GatesOk(s) && Excludes(s) && HandlesOk(s) && Owns(s, t, k)
    requires s'.procs == s.procs[t := p'] && ElsewhereSame(s, s', k) && HereOk(s', t, p', k)
    ensures HandlesOk(s')
  {
    hide GatesOk, Excludes, Owns, Held, ActOk;
    forall u | u in s'.procs ensures ActOk(s', s'.procs[u].act) {
      if u != t {
        Alone(s, t, k, u);
        ActElsewhere(s, s', k, s.procs[u].act);
      }
    }
    forall h | h in s'.live ensures h < s'.next && Held(s', h) {
      if s'.live[h] != k { HeldElsewhere(s, s', t, p', k, h); }
    }
  }

  /** Admitted requests keep their handles as long as no scope with an admitted request loses its cell. */
  lemma GrantsMove(s: State, s': State, t: Thread, p': Proc)
    requires GrantsOk(s) && CountsOk(s) && s'.procs == s.procs[t := p']
    requires forall j | j in s.cells && Busy(s, j) > 0 :: j in s'.cells && s'.cells[j] == s.cells[j]
    requires p'.has.Some? ==> p'.pin.Some? && p'.pin.value in s'.cells && s'.cells[p'.pin.value] == p'.has.value
    ensures GrantsOk(s')
  {
    hide CountsOk, Busy;
    forall u | u in s'.procs && s'.procs[u].has.Some?
      ensures s'.procs[u].pin.Some? && s'.procs[u].pin.value in s'.cells && s'.cells[s'.procs[u].pin.value] == s'.procs[u].has.value
    {
      if u != t { BusyWhenPinned(s, u); }
    }
  }

  // ------------------------------------------------------------------ the steps, one by one

  lemma BeginKeeps(s: State, t: Thread, k: Scope)
    requires Inv(s) && ProcOf(s, t).pin.None? && ProcOf(s, t).act.Idle? && k !in s.evicting
    ensures Inv(DoBegin(s, t, ProcOf(s, t), k))
  {
    hide ActOk, Held, CountsOk, Pinned;
    var s' := DoBegin(s, t, ProcOf(s, t), k);
    BeginCounts(s, t, k);
    IdleFollows(s, s', t);
    GatesMove(s, s', t, s'.procs[t], 0);
    SameHandles(s, s', t, s'.procs[t]);
    GrantsMove(s, s', t, s'.procs[t]);
  }

  lemma EndKeeps(s: State, t: Thread)
    requires Inv(s)
    ensures Inv(DoEnd(s, t, ProcOf(s, t)))
  {
    if !(ProcOf(s, t).pin.Some? && ProcOf(s, t).act.Idle?) { return; }
    hide HandlesOk, CountsOk, GatesOk, GrantsOk;
    var s', p' := DoEnd(s, t, ProcOf(s, t)), Proc(None, None, Idle);
    EndCounts(s, t);
    BusyWhenPinned(s, t);
    assert s'.procs == s.procs[t := p'] && s'.cells == s.cells && s'.opening == s.opening && s'.evicting == s.evicting;
    SameHandles(s, s', t, p');
    GrantsMove(s, s', t, p');
    IdleFollows(s, s', t);
    GatesMove(s, s', t, p', 0);
  }

  lemma IdleFollows(s: State, s': State, t: Thread)
    requires GatesOk(s) && ProcOf(s, t).act.Idle? && s'.opening == s.opening && s'.evicting == s.evicting
    ensures GatesFollow(s, s', t, Idle, 0)
  {
  }

  /** Moves of an idle thread that stay idle touch no handle. */
  lemma SameHandles(s: State, s': State, t: Thread, p': Proc)
    requires HandlesOk(s) && ProcOf(s, t).act.Idle? && p'.act.Idle? && s'.procs == s.procs[t := p']
    requires s'.cells == s.cells && s'.live == s.live && s'.files == s.files && s'.next == s.next
    requires s'.opening == s.opening && s'.evicting == s.evicting
    ensures HandlesOk(s')
  {
    forall h | h in s'.live ensures Held(s', h) { assert Held(s, h); }
    forall u | u in s'.procs ensures ActOk(s', s'.procs[u].act) { if u != t { assert ActOk(s, s.procs[u].act); } }
  }

  /** Cell on a cached scope: nothing moves but the caller's note of its handle. */
  lemma CellHitKeeps(s: State, t: Thread, k: Scope)
    requires Inv(s) && ProcOf(s, t).act.Idle? && k !in s.evicting && k !in s.opening && k in s.cells
    ensures Inv(DoCell(s, t, ProcOf(s, t), k))
  {
    hide HandlesOk, CountsOk, GatesOk, GrantsOk;
    var s' := DoCell(s, t, ProcOf(s, t), k);
    var p' := s'.procs[t];
    SamePins(s, s');
    SameHandles(s, s', t, p');
    IdleFollows(s, s', t);
    GatesMove(s, s', t, p', 0);
    assert GrantsOk(s') by { HitGrants(s, s', t, p', k); }
  }

  lemma HitGrants(s: State, s': State, t: Thread, p': Proc, k: Scope)
    requires GrantsOk(s) && CountsOk(s) && s'.procs == s.procs[t := p'] && s'.cells == s.cells && k in s.cells
    requires p' == ProcOf(s, t) || (p'.pin == Some(k) && p'.has == Some(s.cells[k]))
    ensures GrantsOk(s')
  {
    GrantsMove(s, s', t, p');
  }

  /** The gate conditions when thread t, owner of scope k, moves between acts on k. */
  lemma FollowsHere(s: State, s': State, t: Thread, a': Act, k: Scope)
    requires GatesOk(s) && Excludes(s) && Owns(s, t, k) && (a'.Idle? || a'.scope == k) && (ProcOf(s, t).act.Idle? ==> !a'.Idle?)
    requires s'.opening == if Opens(a', k) then s.opening[k := t] else s.opening - {k}
    requires s'.evicting == if Evicts(a', k) then s.evicting[k := t] else s.evicting - {k}
    ensures GatesFollow(s, s', t, a', k)
  {
    OnlyGate(s, t, k);
    hide GatesOk, Owns, Opens, Evicts, Excludes, OneFollows;
    OneGateMoves(s.opening, s'.opening, t, k, Opens(a', k));
    OneGateMoves(s.evicting, s'.evicting, t, k, Evicts(a', k));
  }

  lemma OneGateMoves(g: map<Scope, Thread>, g': map<Scope, Thread>, t: Thread, k: Scope, holds: bool)
    requires (forall j | j in g && g[j] == t :: j == k) && (k in g ==> g[k] == t)
    requires g' == if holds then g[k := t] else g - {k}
    ensures OneFollows(g, g', t, k, holds)
  {
  }

  lemma ScopeOnly(a: Act, k: Scope)
    requires a.Idle? || a.scope == k
    ensures forall j :: Opens(a, j) || Evicts(a, j) ==> j == k
  {
  }

  /** A thread holds no gate but that of the scope it acts on, and there only its own. */
  lemma OnlyGate(s: State, t: Thread, k: Scope)
    requires GatesOk(s) && Excludes(s) && Owns(s, t, k)
    ensures forall j | j in s.opening && s.opening[j] == t :: j == k
    ensures forall j | j in s.evicting && s.evicting[j] == t :: j == k
    ensures k in s.opening ==> s.opening[k] == t
    ensures k in s.evicting ==> s.evicting[k] == t
  {
    if !ProcOf(s, t).act.Idle? { GateOf(s, t); }
    forall j | j in s.opening && s.opening[j] == t ensures j == k { assert Opens(s.procs[t].act, j); }
    forall j | j in s.evicting && s.evicting[j] == t ensures j == k { assert Evicts(s.procs[t].act, j); }
  }

  /** Everything a move on scope k has to show. */
  lemma MoveKeeps(s: State, s': State, t: Thread, p': Proc, k: Scope)
    requires Inv(s) && Owns(s, t, k) && s'.procs == s.procs[t := p'] && s'.busy == s.busy
    requires p'.pin == ProcOf(s, t).pin && (p'.act.Idle? || p'.act.scope == k) && (ProcOf(s, t).act.Idle? ==> !p'.act.Idle?)
    requires s'.opening == if Opens(p'.act, k) then s.opening[k := t] else s.opening - {k}
    requires s'.evicting == if Evicts(p'.act, k) then s.evicting[k := t] else s.evicting - {k}
    requires Evicts(p'.act, k) ==> Busy(s, k) == 0
    requires ElsewhereSame(s, s', k) && HereOk(s', t, p', k)
    requires Busy(s, k) > 0 && k in s.cells ==> k in s'.cells && s'.cells[k] == s.cells[k]
    requires p'.has == ProcOf(s, t).has || (p'.pin == Some(k) && k in s'.cells && p'.has == Some(s'.cells[k]))
    ensures Inv(s')
  {
    hide HandlesOk, CountsOk, GatesOk, GrantsOk, HereOk, GatesFollow;
    SamePins(s, s');
    FollowsHere(s, s', t, p'.act, k);
    GatesMove(s, s', t, p', k);
    HandlesMove(s, s', t, p', k);
    MoveGrants(s, s', t, p', k);
    assert forall j :: Busy(s', j) == Busy(s, j);
  }

  lemma MoveGrants(s: State, s': State, t: Thread, p': Proc, k: Scope)
    requires GrantsOk(s) && CountsOk(s) && s'.procs == s.procs[t := p'] && ElsewhereSame(s, s', k)
    requires p'.pin == ProcOf(s, t).pin
    requires Busy(s, k) > 0 && k in s.cells ==> k in s'.cells && s'.cells[k] == s.cells[k]
    requires p'.has == ProcOf(s, t).has || (p'.pin == Some(k) && k in s'.cells && p'.has == Some(s'.cells[k]))
    ensures GrantsOk(s')
  {
    if ProcOf(s, t).has.Some? { BusyWhenPinned(s, t); }
    GrantsMove(s, s', t, p');
  }

  /** While t acts on k, any live handle of k is the one its act accounts for, or the cached one. */
  lemma HandlesHere(s: State, t: Thread, k: Scope)
    requires Inv(s) && Owns(s, t, k)
    ensures var a := ProcOf(s, t).act;
            forall h | h in s.live && s.live[h] == k ::
              h < s.next && ((k in s.cells && s.cells[k] == h) || a == Opened(k, h) || (a.Closing? && a.taken == Some(h)))
  {
    hide CountsOk, GrantsOk;
    OnlyGate(s, t, k);
    forall h | h in s.live && s.live[h] == k
      ensures var a := ProcOf(s, t).act;
              h < s.next && ((k in s.cells && s.cells[k] == h) || a == Opened(k, h) || (a.Closing? && a.taken == Some(h)))
    {
      assert Held(s, h);
    }
  }

  lemma GateShape(s: State, t: Thread, k: Scope)
    requires Inv(s) && Owns(s, t, k)
    ensures var a := ProcOf(s, t).act;
            && s.opening == (if Opens(a, k) then s.opening[k := t] else s.opening - {k})
            && s.evicting == (if Evicts(a, k) then s.evicting[k := t] else s.evicting - {k})
            && (Evicts(a, k) ==> Busy(s, k) == 0)
  {
    if !ProcOf(s, t).act.Idle? { GateOf(s, t); }
  }

  lemma CellMissHere(s: State, t: Thread, k: Scope)
    requires Inv(s) && ProcOf(s, t).act.Idle? && k !in s.evicting && k !in s.opening && k !in s.cells
    ensures var s' := DoCell(s, t, ProcOf(s, t), k); t in s'.procs && HereOk(s', t, s'.procs[t], k)
  {
    hide GatesOk, Excludes, CountsOk, GrantsOk;
    GateShape(s, t, k);
    HandlesHere(s, t, k);
  }

  lemma CellMissElsewhere(s: State, t: Thread, k: Scope)
    requires Inv(s) && ProcOf(s, t).act.Idle? && k !in s.evicting && k !in s.opening && k !in s.cells
    ensures ElsewhereSame(s, DoCell(s, t, ProcOf(s, t), k), k)
  {
    FreshHandle(s);
    hide Inv;
  }

  lemma CellMissKeeps(s: State, t: Thread, k: Scope)
    requires Inv(s) && ProcOf(s, t).act.Idle? && k !in s.evicting && k !in s.opening && k !in s.cells
    ensures Inv(DoCell(s, t, ProcOf(s, t), k))
  {
    var s' := DoCell(s, t, ProcOf(s, t), k);
    CellMissHere(s, t, k);
    GateShape(s, t, k);
    CellMissElsewhere(s, t, k);
    hide Inv, HereOk, ElsewhereSame;
    MoveKeeps(s, s', t, s'.procs[t], k);
  }

  lemma OpenOkHere(s: State, t: Thread)
    requires Inv(s) && ProcOf(s, t).act.Opening?
    ensures var s' := DoOpen(s, t, ProcOf(s, t), true); t in s'.procs && HereOk(s', t, s'.procs[t], ProcOf(s, t).act.scope)
  {
    hide GatesOk, Excludes, CountsOk, GrantsOk;
    var k := ProcOf(s, t).act.scope;
    GateShape(s, t, k);
    HandlesHere(s, t, k);
    assert t in s.procs && ActOk(s, s.procs[t].act);
  }

  lemma OpenOkElsewhere(s: State, t: Thread)
    requires Inv(s) && ProcOf(s, t).act.Opening?
    ensures ElsewhereSame(s, DoOpen(s, t, ProcOf(s, t), true), ProcOf(s, t).act.scope)
  {
    FreshHandle(s);
    hide Inv;
  }

  lemma OpenOkKeeps(s: State, t: Thread)
    requires Inv(s) && ProcOf(s, t).act.Opening?
    ensures Inv(DoOpen(s, t, ProcOf(s, t), true))
  {
    var s' := DoOpen(s, t, ProcOf(s, t), true);
    var k := ProcOf(s, t).act.scope;
    OpenOkHere(s, t);
    GateShape(s, t, k);
    OpenOkElsewhere(s, t);
    hide Inv, HereOk, ElsewhereSame;
    MoveKeeps(s, s', t, s'.procs[t], k);
  }

  lemma DiscardHere(s: State, t: Thread)
    requires Inv(s) && ProcOf(s, t).act.Opening?
    ensures var s' := DoDiscard(s, t, ProcOf(s, t)); t in s'.procs && HereOk(s', t, s'.procs[t], ProcOf(s, t).act.scope)
  {
    hide GatesOk, Excludes, CountsOk, GrantsOk;
    var k := ProcOf(s, t).act.scope;
    GateShape(s, t, k);
    HandlesHere(s, t, k);
    assert t in s.procs && ActOk(s, s.procs[t].act);
  }

  lemma DiscardKeeps(s: State, t: Thread)
    requires Inv(s) && ProcOf(s, t).act.Opening?
    ensures Inv(DoDiscard(s, t, ProcOf(s, t)))
  {
    var s' := DoDiscard(s, t, ProcOf(s, t));
    var k := ProcOf(s, t).act.scope;
    DiscardHere(s, t);
    GateShape(s, t, k);
    OwnActOk(s, t);
    hide Inv, HereOk;
    MoveKeeps(s, s', t, s'.procs[t], k);
  }

  lemma OpenFailedHere(s: State, t: Thread)
    requires Inv(s) && ProcOf(s, t).act.Opening?
    ensures var s' := DoOpen(s, t, ProcOf(s, t), false); t in s'.procs && HereOk(s', t, s'.procs[t], ProcOf(s, t).act.scope)
  {
    hide GatesOk, Excludes, CountsOk, GrantsOk;
    var k := ProcOf(s, t).act.scope;
    GateShape(s, t, k);
    HandlesHere(s, t, k);
    assert t in s.procs && ActOk(s, s.procs[t].act);
  }

  lemma OpenFailedKeeps(s: State, t: Thread)
    requires Inv(s) && ProcOf(s, t).act.Opening?
    ensures Inv(DoOpen(s, t, ProcOf(s, t), false))
  {
    var s' := DoOpen(s, t, ProcOf(s, t), false);
    var k := ProcOf(s, t).act.scope;
    OpenFailedHere(s, t);
    GateShape(s, t, k);
    FreshHandle(s);
    hide Inv, HereOk;
    MoveKeeps(s, s', t, s'.procs[t], k);
  }

  lemma PublishHere(s: State, t: Thread)
    requires Inv(s) && ProcOf(s, t).act.Opened?
    ensures var s' := DoPublish(s, t, ProcOf(s, t)); t in s'.procs && HereOk(s', t, s'.procs[t], ProcOf(s, t).act.scope)
  {
    hide GatesOk, Excludes, CountsOk, GrantsOk;
    var k := ProcOf(s, t).act.scope;
    GateShape(s, t, k);
    HandlesHere(s, t, k);
    assert t in s.procs && ActOk(s, s.procs[t].act);
  }

  lemma PublishElsewhere(s: State, t: Thread)
    requires Inv(s) && ProcOf(s, t).act.Opened?
    ensures ElsewhereSame(s, DoPublish(s, t, ProcOf(s, t)), ProcOf(s, t).act.scope)
  {
    FreshHandle(s);
    OwnActOk(s, t);
    hide Inv;
  }

  lemma PublishKeeps(s: State, t: Thread)
    requires Inv(s) && ProcOf(s, t).act.Opened?
    ensures Inv(DoPublish(s, t, ProcOf(s, t)))
  {
    var s' := DoPublish(s, t, ProcOf(s, t));
    var k := ProcOf(s, t).act.scope;
    PublishHere(s, t);
    GateShape(s, t, k);
    PublishElsewhere(s, t);
    OwnActOk(s, t);
    hide Inv, HereOk, ElsewhereSame;
    MoveKeeps(s, s', t, s'.procs[t], k);
  }

  lemma ClearPublishedHere(s: State, t: Thread)
    requires Inv(s) && ProcOf(s, t).act.Published?
    ensures var s' := DoClearOpening(s, t, ProcOf(s, t)); t in s'.procs && HereOk(s', t, s'.procs[t], ProcOf(s, t).act.scope)
  {
    hide GatesOk, Excludes, CountsOk, GrantsOk;
    var k := ProcOf(s, t).act.scope;
    GateShape(s, t, k);
    HandlesHere(s, t, k);
    assert t in s.procs && ActOk(s, s.procs[t].act);
  }

  lemma ClearPublishedElsewhere(s: State, t: Thread)
    requires Inv(s) && ProcOf(s, t).act.Published?
    ensures ElsewhereSame(s, DoClearOpening(s, t, ProcOf(s, t)), ProcOf(s, t).act.scope)
  {
    FreshHandle(s);
    OwnActOk(s, t);
    hide Inv;
  }

  lemma ClearPublishedKeeps(s: State, t: Thread)
    requires Inv(s) && ProcOf(s, t).act.Published?
    ensures Inv(DoClearOpening(s, t, ProcOf(s, t)))
  {
    var s' := DoClearOpening(s, t, ProcOf(s, t));
    var k := ProcOf(s, t).act.scope;
    ClearPublishedHere(s, t);
    GateShape(s, t, k);
    ClearPublishedElsewhere(s, t);
    OwnActOk(s, t);
    hide Inv, HereOk, ElsewhereSame;
    MoveKeeps(s, s', t, s'.procs[t], k);
  }

  lemma ClearAbortedHere(s: State, t: Thread)
    requires Inv(s) && ProcOf(s, t).act.Aborted?
    ensures var s' := DoClearOpening(s, t, ProcOf(s, t)); t in s'.procs && HereOk(s', t, s'.procs[t], ProcOf(s, t).act.scope)
  {
    hide GatesOk, Excludes, CountsOk, GrantsOk;
    var k := ProcOf(s, t).act.scope;
    GateShape(s, t, k);
    HandlesHere(s, t, k);
    assert t in s.procs && ActOk(s, s.procs[t].act);
  }

  lemma ClearAbortedElsewhere(s: State, t: Thread)
    requires Inv(s) && ProcOf(s, t).act.Aborted?
    ensures ElsewhereSame(s, DoClearOpening(s, t, ProcOf(s, t)), ProcOf(s, t).act.scope)
  {
    FreshHandle(s);
    hide Inv;
  }

  lemma ClearAbortedKeeps(s: State, t: Thread)
    requires Inv(s) && ProcOf(s, t).act.Aborted?
    ensures Inv(DoClearOpening(s, t, ProcOf(s, t)))
  {
    var s' := DoClearOpening(s, t, ProcOf(s, t));
    var k := ProcOf(s, t).act.scope;
    ClearAbortedHere(s, t);
    GateShape(s, t, k);
    ClearAbortedElsewhere(s, t);
    hide Inv, HereOk, ElsewhereSame;
    MoveKeeps(s, s', t, s'.procs[t], k);
  }

  lemma GateHere(s: State, t: Thread, k: Scope)
    requires Inv(s) && ProcOf(s, t).act.Idle? && k !in s.evicting && k !in s.opening && Busy(s, k) == 0
    ensures var s' := DoGate(s, t, ProcOf(s, t), k); t in s'.procs && HereOk(s', t, s'.procs[t], k)
  {
    hide GatesOk, Excludes, CountsOk, GrantsOk;
    GateShape(s, t, k);
    HandlesHere(s, t, k);
  }

  lemma GateElsewhere(s: State, t: Thread, k: Scope)
    requires Inv(s) && ProcOf(s, t).act.Idle? && k !in s.evicting && k !in s.opening && Busy(s, k) == 0
    ensures ElsewhereSame(s, DoGate(s, t, ProcOf(s, t), k), k)
  {
    FreshHandle(s);
    hide Inv;
  }

  lemma GateKeeps(s: State, t: Thread, k: Scope)
    requires Inv(s) && ProcOf(s, t).act.Idle? && k !in s.evicting && k !in s.opening && Busy(s, k) == 0
    ensures Inv(DoGate(s, t, ProcOf(s, t), k))
  {
    var s' := DoGate(s, t, ProcOf(s, t), k);
    GateHere(s, t, k);
    GateShape(s, t, k);
    GateElsewhere(s, t, k);
    hide Inv, HereOk, ElsewhereSame;
    MoveKeeps(s, s', t, s'.procs[t], k);
  }

  lemma VerifyOkHere(s: State, t: Thread)
    requires Inv(s) && ProcOf(s, t).act.Verifying?
    ensures var s' := DoVerify(s, t, ProcOf(s, t), true); t in s'.procs && HereOk(s', t, s'.procs[t], ProcOf(s, t).act.scope)
  {
    hide GatesOk, Excludes, CountsOk, GrantsOk;
    var k := ProcOf(s, t).act.scope;
    GateShape(s, t, k);
    HandlesHere(s, t, k);
    assert t in s.procs && ActOk(s, s.procs[t].act);
  }

  lemma VerifyOkElsewhere(s: State, t: Thread)
    requires Inv(s) && ProcOf(s, t).act.Verifying?
    ensures ElsewhereSame(s, DoVerify(s, t, ProcOf(s, t), true), ProcOf(s, t).act.scope)
  {
    FreshHandle(s);
    hide Inv;
  }

  lemma VerifyOkKeeps(s: State, t: Thread)
    requires Inv(s) && ProcOf(s, t).act.Verifying?
    ensures Inv(DoVerify(s, t, ProcOf(s, t), true))
  {
    var s' := DoVerify(s, t, ProcOf(s, t), true);
    var k := ProcOf(s, t).act.scope;
    VerifyOkHere(s, t);
    GateShape(s, t, k);
    VerifyOkElsewhere(s, t);
    hide Inv, HereOk, ElsewhereSame;
    MoveKeeps(s, s', t, s'.procs[t], k);
  }

  lemma VerifyFailedHere(s: State, t: Thread)
    requires Inv(s) && ProcOf(s, t).act.Verifying?
    ensures var s' := DoVerify(s, t, ProcOf(s, t), false); t in s'.procs && HereOk(s', t, s'.procs[t], ProcOf(s, t).act.scope)
  {
    hide GatesOk, Excludes, CountsOk, GrantsOk;
    var k := ProcOf(s, t).act.scope;
    GateShape(s, t, k);
    HandlesHere(s, t, k);
    assert t in s.procs && ActOk(s, s.procs[t].act);
  }

  lemma VerifyFailedKeeps(s: State, t: Thread)
    requires Inv(s) && ProcOf(s, t).act.Verifying?
    ensures Inv(DoVerify(s, t, ProcOf(s, t), false))
  {
    var s' := DoVerify(s, t, ProcOf(s, t), false);
    var k := ProcOf(s, t).act.scope;
    VerifyFailedHere(s, t);
    GateShape(s, t, k);
    FreshHandle(s);
    hide Inv, HereOk;
    MoveKeeps(s, s', t, s'.procs[t], k);
  }

  lemma EvictOneHere(s: State, t: Thread, k: Scope)
    requires Inv(s) && ProcOf(s, t).act.Idle? && k in s.cells && k !in s.evicting && k !in s.opening && Busy(s, k) == 0
    ensures var s' := DoEvictOne(s, t, ProcOf(s, t), k); t in s'.procs && HereOk(s', t, s'.procs[t], k)
  {
    hide GatesOk, Excludes, CountsOk, GrantsOk;
    GateShape(s, t, k);
    HandlesHere(s, t, k);
  }

  lemma EvictOneKeeps(s: State, t: Thread, k: Scope)
    requires Inv(s) && ProcOf(s, t).act.Idle? && k in s.cells && k !in s.evicting && k !in s.opening && Busy(s, k) == 0
    ensures Inv(DoEvictOne(s, t, ProcOf(s, t), k))
  {
    var s' := DoEvictOne(s, t, ProcOf(s, t), k);
    EvictOneHere(s, t, k);
    GateShape(s, t, k);
    FreshHandle(s);
    hide Inv, HereOk;
    MoveKeeps(s, s', t, s'.procs[t], k);
  }

  lemma CloseHere(s: State, t: Thread)
    requires Inv(s) && ProcOf(s, t).act.Closing?
    ensures var s' := DoClose(s, t, ProcOf(s, t)); t in s'.procs && HereOk(s', t, s'.procs[t], ProcOf(s, t).act.scope)
  {
    hide GatesOk, Excludes, CountsOk, GrantsOk;
    var k := ProcOf(s, t).act.scope;
    GateShape(s, t, k);
    HandlesHere(s, t, k);
    assert t in s.procs && ActOk(s, s.procs[t].act);
  }

  lemma CloseElsewhere(s: State, t: Thread)
    requires Inv(s) && ProcOf(s, t).act.Closing?
    ensures ElsewhereSame(s, DoClose(s, t, ProcOf(s, t)), ProcOf(s, t).act.scope)
  {
    FreshHandle(s);
    OwnActOk(s, t);
    hide Inv;
  }

  lemma CloseKeeps(s: State, t: Thread)
    requires Inv(s) && ProcOf(s, t).act.Closing?
    ensures Inv(DoClose(s, t, ProcOf(s, t)))
  {
    var s' := DoClose(s, t, ProcOf(s, t));
    var k := ProcOf(s, t).act.scope;
    CloseHere(s, t);
    GateShape(s, t, k);
    CloseElsewhere(s, t);
    hide Inv, HereOk, ElsewhereSame;
    MoveKeeps(s, s', t, s'.procs[t], k);
  }

  lemma RemoveHere(s: State, t: Thread, ok: bool)
    requires Inv(s) && ProcOf(s, t).act.Removing?
    ensures var s' := DoRemove(s, t, ProcOf(s, t), ok); t in s'.procs && HereOk(s', t, s'.procs[t], ProcOf(s, t).act.scope)
  {
    hide GatesOk, Excludes, CountsOk, GrantsOk;
    var k := ProcOf(s, t).act.scope;
    GateShape(s, t, k);
    HandlesHere(s, t, k);
    assert t in s.procs && ActOk(s, s.procs[t].act);
  }

  lemma RemoveKeeps(s: State, t: Thread, ok: bool)
    requires Inv(s) && ProcOf(s, t).act.Removing?
    ensures Inv(DoRemove(s, t, ProcOf(s, t), ok))
  {
    var s' := DoRemove(s, t, ProcOf(s, t), ok);
    var k := ProcOf(s, t).act.scope;
    RemoveHere(s, t, ok);
    GateShape(s, t, k);
    FreshHandle(s);
    hide Inv, HereOk;
    MoveKeeps(s, s', t, s'.procs[t], k);
  }

  lemma ClearGateHere(s: State, t: Thread)
    requires Inv(s) && ProcOf(s, t).act.Clearing?
    ensures var s' := DoClearGate(s, t, ProcOf(s, t)); t in s'.procs && HereOk(s', t, s'.procs[t], ProcOf(s, t).act.scope)
  {
    hide GatesOk, Excludes, CountsOk, GrantsOk;
    var k := ProcOf(s, t).act.scope;
    GateShape(s, t, k);
    HandlesHere(s, t, k);
    assert t in s.procs && ActOk(s, s.procs[t].act);
  }

  lemma ClearGateElsewhere(s: State, t: Thread)
    requires Inv(s) && ProcOf(s, t).act.Clearing?
    ensures ElsewhereSame(s, DoClearGate(s, t, ProcOf(s, t)), ProcOf(s, t).act.scope)
  {
    FreshHandle(s);
    hide Inv;
  }

  lemma ClearGateKeeps(s: State, t: Thread)
    requires Inv(s) && ProcOf(s, t).act.Clearing?
    ensures Inv(DoClearGate(s, t, ProcOf(s, t)))
  {
    var s' := DoClearGate(s, t, ProcOf(s, t));
    var k := ProcOf(s, t).act.scope;
    ClearGateHere(s, t);
    GateShape(s, t, k);
    ClearGateElsewhere(s, t);
    hide Inv, HereOk, ElsewhereSame;
    MoveKeeps(s, s', t, s'.procs[t], k);
  }

  lemma FreshHandle(s: State)
    requires Inv(s)
    ensures s.next !in s.live
  {
    hide GatesOk, Excludes, CountsOk, GrantsOk, Held;
  }

  lemma OwnActOk(s: State, t: Thread)
    requires Inv(s) && t in s.procs
    ensures ActOk(s, s.procs[t].act)
  {
    hide GatesOk, Excludes, CountsOk, GrantsOk, Held;
  }

  lemma CellKeeps(s: State, t: Thread, k: Scope)
    requires Inv(s)
    ensures Inv(DoCell(s, t, ProcOf(s, t), k))
  {
    hide Inv;
    if ProcOf(s, t).act.Idle? && k !in s.evicting && k !in s.opening {
      if k in s.cells { CellHitKeeps(s, t, k); } else { CellMissKeeps(s, t, k); }
    }
  }

  lemma ApplyKeeps(s: State, step: Step)
    requires Inv(s)
    ensures Inv(Apply(s, step))
  {
    hide Inv;
    var t := step.t;
    var p := ProcOf(s, t);
    match step
    case Begin(_, k) => if p.pin.None? && p.act.Idle? && k !in s.evicting { BeginKeeps(s, t, k); }
    case End(_) => EndKeeps(s, t);
    case Cell(_, k) => CellKeeps(s, t, k);
    case Discard(_) => if p.act.Opening? { DiscardKeeps(s, t); }
    case OpenCell(_, ok) => if p.act.Opening? { if ok { OpenOkKeeps(s, t); } else { OpenFailedKeeps(s, t); } }
    case Publish(_) => if p.act.Opened? { PublishKeeps(s, t); }
    case ClearOpening(_) =>
      if p.act.Published? { ClearPublishedKeeps(s, t); } else if p.act.Aborted? { ClearAbortedKeeps(s, t); }
    case Gate(_, k) => if p.act.Idle? && k !in s.evicting && k !in s.opening && Busy(s, k) == 0 { GateKeeps(s, t, k); }
    case Verify(_, ok) => if p.act.Verifying? { if ok { VerifyOkKeeps(s, t); } else { VerifyFailedKeeps(s, t); } }
    case EvictOne(_, k) =>
      if p.act.Idle? && k in s.cells && k !in s.evicting && k !in s.opening && Busy(s, k) == 0 { EvictOneKeeps(s, t, k); }
    case CloseHandle(_) => if p.act.Closing? { CloseKeeps(s, t); }
    case RemoveFiles(_, ok) => if p.act.Removing? { RemoveKeeps(s, t, ok); }
    case ClearGate(_) => if p.act.Clearing? { ClearGateKeeps(s, t); }
  }

  lemma InitHolds()
    ensures Inv(Init)
  {
    forall k ensures Busy(Init, k) == |Pinned(Init, k)| { assert Pinned(Init, k) == {}; }
  }

  /** Every run keeps the invariant. */
  lemma {:induction false} RunKeeps(steps: seq<Step>)
    ensures Inv(Run(steps))
    decreases |steps|
  {
    if steps == [] {
      InitHolds();
    } else {
      RunKeeps(steps[..|steps| - 1]);
      ApplyKeeps(Run(steps[..|steps| - 1]), steps[|steps| - 1]);
    }
  }

  // ------------------------------------------------------------------ the guarantees

  /** In every reachable state, evicting a scope excludes opening it and every admitted request. */
  lemma EvictionExcludes(steps: seq<Step>, k: Scope)
    requires k in Run(steps).evicting
    ensures k !in Run(steps).opening && Pinned(Run(steps), k) == {}
  {
    RunKeeps(steps);
    assert Busy(Run(steps), k) == |Pinned(Run(steps), k)|;
  }

  /** In every reachable state a scope has at most one live handle. */
  lemma OneLiveHandle(steps: seq<Step>, h1: Handle, h2: Handle)
    requires h1 in Run(steps).live && h2 in Run(steps).live && Run(steps).live[h1] == Run(steps).live[h2]
    ensures h1 == h2
  {
    RunKeeps(steps);
    var s := Run(steps);
    hide Run;
    AtMostOne(s, h1, h2);
  }

  lemma AtMostOne(s: State, h1: Handle, h2: Handle)
    requires Inv(s) && h1 in s.live && h2 in s.live && s.live[h1] == s.live[h2]
    ensures h1 == h2
  {
    hide CountsOk, GrantsOk;
    var k := s.live[h1];
    assert Held(s, h1) && Held(s, h2);
    if k in s.opening { assert ActOk(s, s.procs[s.opening[k]].act); }
    if k in s.evicting { assert ActOk(s, s.procs[s.evicting[k]].act); }
  }

  /** A thread may take away the files of scope k: in a forget, or in an open that cannot use them. */
  predicate MayRemove(a: Act, k: Scope) { a == Removing(k) || a == Opening(k) }

  /**
   The files of a scope are deleted only while it is out of the cache and none of its handles is
   open; by a forget only when no request is pinned to it either.
   */
  lemma RemovalMeetsNoHandle(steps: seq<Step>, t: Thread, k: Scope)
    requires MayRemove(ProcOf(Run(steps), t).act, k)
    ensures var s := Run(steps);
            && k !in s.cells && (forall h | h in s.live :: s.live[h] != k)
            && (ProcOf(s, t).act.Removing? ==> k !in s.opening && Pinned(s, k) == {})
  {
    RunKeeps(steps);
    var s := Run(steps);
    hide Run;
    GateOf(s, t);
    OwnActOk(s, t);
    assert Busy(s, k) == |Pinned(s, k)|;
    NoHandleLeft(s, t, k);
  }

  lemma NoHandleLeft(s: State, t: Thread, k: Scope)
    requires Inv(s) && MayRemove(ProcOf(s, t).act, k)
    ensures forall h | h in s.live :: s.live[h] != k
  {
    GateOf(s, t);
    OwnActOk(s, t);
    forall h | h in s.live ensures s.live[h] != k { assert Held(s, h); }
  }

  /**
   Files go away only by a forget, or by an open that holds the opening gate, and then they meet no
   handle; an eviction never removes them.
   */
  lemma FilesGoUnderAGate(steps: seq<Step>, step: Step, k: Scope)
    requires k in Run(steps).files && k !in Apply(Run(steps), step).files
    ensures var s := Run(steps);
            && (step.RemoveFiles? || step.Discard?) && MayRemove(ProcOf(s, step.t).act, k)
            && ((k in s.evicting && s.evicting[k] == step.t) || (k in s.opening && s.opening[k] == step.t))
            && k !in s.cells && forall h | h in s.live :: s.live[h] != k
  {
    RunKeeps(steps);
    var s := Run(steps);
    FilesStay(s, step, k);
    RemovalMeetsNoHandle(steps, step.t, k);
    hide Run;
    GateOf(s, step.t);
  }

  lemma FilesStay(s: State, step: Step, k: Scope)
    requires k in s.files && k !in Apply(s, step).files
    ensures (step.RemoveFiles? || step.Discard?) && MayRemove(ProcOf(s, step.t).act, k)
  {
    hide ProcOf, Apply;
    if step.RemoveFiles? || step.Discard? { Removes(s, step, k); }
    else if step.Begin? || step.End? || step.Cell? || step.OpenCell? || step.Publish? || step.ClearOpening? { RequestFiles(s, step, k); }
    else { EvictFiles(s, step, k); }
  }

  lemma Removes(s: State, step: Step, k: Scope)
    requires (step.RemoveFiles? || step.Discard?) && k in s.files && k !in Apply(s, step).files
    ensures MayRemove(ProcOf(s, step.t).act, k)
  {
    hide ProcOf;
  }

  lemma RequestFiles(s: State, step: Step, k: Scope)
    requires (step.Begin? || step.End? || step.Cell? || step.OpenCell? || step.Publish? || step.ClearOpening?) && k in s.files
    ensures k in Apply(s, step).files
  {
    hide ProcOf, Busy, DoDiscard, DoGate, DoVerify, DoEvictOne, DoClose, DoRemove, DoClearGate;
  }

  lemma EvictFiles(s: State, step: Step, k: Scope)
    requires (step.Gate? || step.Verify? || step.EvictOne? || step.CloseHandle? || step.ClearGate?) && k in s.files
    ensures k in Apply(s, step).files
  {
    hide ProcOf, Busy, DoDiscard, DoBegin, DoEnd, DoCell, DoOpen, DoPublish, DoClearOpening, DoRemove;
  }

  /** The steps that take a cached scope k out of the cache: its eviction, or its forget once verified. */
  predicate Uncaches(s: State, step: Step, k: Scope)
  {
    || (step.EvictOne? && step.k == k && ProcOf(s, step.t).act.Idle? && k !in s.evicting && k !in s.opening && Busy(s, k) == 0)
    || (step.Verify? && step.ok && ProcOf(s, step.t).act == Verifying(k))
  }

  /** Exactly those: a handle leaves the cache by no other step, and by each of them. */
  lemma UncachedExactly(steps: seq<Step>, step: Step, k: Scope)
    requires k in Run(steps).cells
    ensures var s, s' := Run(steps), Apply(Run(steps), step);
            !(k in s'.cells && s'.cells[k] == s.cells[k]) <==> Uncaches(s, step, k)
  {
    RunKeeps(steps);
    hide Run;
    KeepsCell(Run(steps), step, k);
  }

  /**
   A cached handle stays cached, open and backed by its files through any continuation without
   those: opens, failed verifications, and evictions and forgets of other scopes never touch it.
   */
  lemma {:induction false} CachedStays(steps: seq<Step>, more: seq<Step>, k: Scope)
    requires k in Run(steps).cells && forall i | 0 <= i < |more| :: !Uncaches(Run(steps + more[..i]), more[i], k)
    ensures var s := Run(steps + more); var h := Run(steps).cells[k];
            k in s.cells && s.cells[k] == h && h in s.live && s.live[h] == k && k in s.files
    decreases |more|
  {
    hide Inv, Apply, Run, Uncaches;
    RunKeeps(steps + more);
    if more == [] {
      assert steps + more == steps;
      CachedIsOpen(Run(steps), k);
    } else {
      var front, last := more[..|more| - 1], more[|more| - 1];
      forall i | 0 <= i < |front| ensures !Uncaches(Run(steps + front[..i]), front[i], k) { assert front[..i] == more[..i]; }
      CachedStays(steps, front, k);
      RunKeeps(steps + front);
      LastStep(steps, more);
      KeepsCell(Run(steps + front), last, k);
      CachedIsOpen(Run(steps + more), k);
    }
  }

  lemma LastStep(steps: seq<Step>, more: seq<Step>)
    requires more != []
    ensures Run(steps + more) == Apply(Run(steps + more[..|more| - 1]), more[|more| - 1])
  {
    hide Apply;
    var all := steps + more;
    assert all[..|all| - 1] == steps + more[..|more| - 1];
  }

  lemma CachedIsOpen(s: State, k: Scope)
    requires Inv(s) && k in s.cells
    ensures s.cells[k] in s.live && s.live[s.cells[k]] == k && k in s.files
  {
    hide GatesOk, Excludes, CountsOk, GrantsOk, Held, ActOk;
  }

  lemma KeepsCell(s: State, step: Step, k: Scope)
    requires Inv(s) && k in s.cells
    ensures var s' := Apply(s, step); !(k in s'.cells && s'.cells[k] == s.cells[k]) <==> Uncaches(s, step, k)
  {
    if step.Publish? {
      if ProcOf(s, step.t).act.Opened? { OwnActOk(s, step.t); }
      hide Inv;
    } else {
      hide Inv, ProcOf, Busy;
    }
  }

  /**
   A thread admitted to a scope never waits on its eviction: the gate is free, so its call to Cell
   either returns the cached handle, starts the open, or waits for another thread's open.
   */
  lemma AdmittedNeverBlockedByEviction(steps: seq<Step>, t: Thread, k: Scope)
    requires ProcOf(Run(steps), t) == Proc(Some(k), ProcOf(Run(steps), t).has, Idle)
    ensures var s := Run(steps); var s' := Apply(s, Cell(t, k));
            && k !in s.evicting
            && (k !in s.opening ==>
                  if k in s.cells then ProcOf(s', t).has == Some(s.cells[k]) else ProcOf(s', t).act == Opening(k))
  {
    RunKeeps(steps);
    BusyWhenPinned(Run(steps), t);
  }

  /**
   A handle granted to an admitted request stays open, cached and backed by its files through any
   continuation of the run in which the request does not end.
   */
  lemma {:induction false} GrantSurvives(steps: seq<Step>, more: seq<Step>, t: Thread, k: Scope, h: Handle)
    requires ProcOf(Run(steps), t).pin == Some(k) && ProcOf(Run(steps), t).has == Some(h)
    requires forall x <- more :: x != End(t)
    ensures var s := Run(steps + more);
            && ProcOf(s, t).pin == Some(k) && ProcOf(s, t).has == Some(h)
            && k in s.cells && s.cells[k] == h && h in s.live && s.live[h] == k && k in s.files
    decreases |more|
  {
    hide Inv, Apply, Run;
    RunKeeps(steps + more);
    if more == [] {
      assert steps + more == steps;
      GrantIsCached(Run(steps), t);
    } else {
      var front, last := more[..|more| - 1], more[|more| - 1];
      assert last in more && forall x <- front :: x in more;
      GrantSurvives(steps, front, t, k, h);
      RunKeeps(steps + front);
      LastStep(steps, more);
      KeepsGrant(Run(steps + front), last, t, k, h);
      GrantIsCached(Run(steps + more), t);
    }
  }

  lemma KeepsGrant(s: State, step: Step, t: Thread, k: Scope, h: Handle)
    requires Inv(s) && ProcOf(s, t).pin == Some(k) && ProcOf(s, t).has == Some(h) && step != End(t)
    ensures var s' := Apply(s, step); ProcOf(s', t).pin == Some(k) && ProcOf(s', t).has == Some(h)
  {
    hide Inv, Apply;
    if step.Begin? || step.End? || step.Cell? || step.ClearOpening? {
      RequestStep(s, step, t, k, h);
    } else if step.Discard? || step.OpenCell? || step.Publish? {
      QuietOpen(s, step, t);
    } else if step.Gate? || step.Verify? {
      QuietGate(s, step, t);
    } else {
      QuietClose(s, step, t);
    }
  }

  lemma RequestStep(s: State, step: Step, t: Thread, k: Scope, h: Handle)
    requires Inv(s) && ProcOf(s, t).pin == Some(k) && ProcOf(s, t).has == Some(h) && step != End(t)
    requires step.Begin? || step.End? || step.Cell? || step.ClearOpening?
    ensures var s' := Apply(s, step); ProcOf(s', t).pin == Some(k) && ProcOf(s', t).has == Some(h)
  {
    GrantIsCached(s, t);
    OwnActOk(s, t);
    hide Inv, DoOpen, DoDiscard, DoPublish, DoGate, DoVerify, DoEvictOne, DoClose, DoRemove, DoClearGate;
  }

  /** The other steps change neither pins nor granted handles. */
  lemma QuietOpen(s: State, step: Step, t: Thread)
    requires step.Discard? || step.OpenCell? || step.Publish?
    ensures var s' := Apply(s, step); ProcOf(s', t).pin == ProcOf(s, t).pin && ProcOf(s', t).has == ProcOf(s, t).has
  {
    hide DoBegin, DoEnd, DoCell, DoClearOpening, DoEvictOne, DoClose, DoRemove, DoClearGate, DoGate, DoVerify;
  }

  lemma QuietGate(s: State, step: Step, t: Thread)
    requires step.Gate? || step.Verify?
    ensures var s' := Apply(s, step); ProcOf(s', t).pin == ProcOf(s, t).pin && ProcOf(s', t).has == ProcOf(s, t).has
  {
    hide DoBegin, DoEnd, DoCell, DoClearOpening, DoEvictOne, DoClose, DoRemove, DoClearGate, DoOpen, DoDiscard, DoPublish;
  }

  lemma QuietClose(s: State, step: Step, t: Thread)
    requires step.EvictOne? || step.CloseHandle? || step.RemoveFiles? || step.ClearGate?
    ensures var s' := Apply(s, step); ProcOf(s', t).pin == ProcOf(s, t).pin && ProcOf(s', t).has == ProcOf(s, t).has
  {
    hide DoBegin, DoEnd, DoCell, DoClearOpening, DoOpen, DoDiscard, DoPublish, DoGate, DoVerify;
  }

  lemma GrantIsCached(s: State, t: Thread)
    requires Inv(s) && ProcOf(s, t).has.Some?
    ensures t in s.procs && s.procs[t].pin.Some? && s.procs[t].pin.value in s.cells
    ensures var k := s.procs[t].pin.value;
            && s.cells[k] == s.procs[t].has.value && s.cells[k] in s.live && s.live[s.cells[k]] == k && k in s.files
  {
    hide GatesOk, Excludes, CountsOk, Held, ActOk;
  }
}
