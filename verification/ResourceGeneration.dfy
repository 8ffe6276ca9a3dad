/**
 Admission of requests under a resource generation (internal/cellstore/resource_generation.go), on
 one cell, for every interleaving of its callers.

 Generations are numbered by the order in which they became authoritative (0 is the empty one of a
 resource never deleted), so they never repeat. Forget's gate is the one of StoreGate: it is taken
 at an instant with no pinned request. A restart loses every request, lock and gate and keeps the
 marker file, which is replaced by a rename.
 */
module ResourceGeneration {
  import opened Bytes

  type Thread = nat
  type Gen = nat

  datatype Act =
    | Idle
    | Snap(g: Gen)                    // has read the authoritative generation
    | Comparing(g: Gen)               // FromSnapshot: holds the lock
    | Rechecking(g: Gen)              // holds the lock, about to ask the authority again
    | Reading                         // BeginResourceRequest: holds the lock, about to ask
    | Verified(g: Gen, bind: bool)    // ensureResourceGenerationLocked
    | Draining(g: Gen, bind: bool)    // Forget waits for the requests in flight
    | Gated(g: Gen, bind: bool)       // Forget holds the gate and removes the files
    | Writing(g: Gen, bind: bool)     // about to rename the marker into place
    | Ready(g: Gen)                   // ensure returned without error
    | Binding(g: Gen)                 // BeginResourceRequest: ensured, still holds the lock
    | Pinned(g: Gen, bind: bool)      // counted by the gate, about to ask the authority
    | Admitted(g: Gen)
    | Guest                           // a request without a generation
    | Evicting                        // an eviction or another Forget

  /**
   `file`: the generation of the request that created the local file, if there is one; a request
   without a generation restores the authoritative one. `drained`:
   the generations for which Forget has had the cell to itself.
   */
  datatype State = State(
    auth: Gen, marker: Gen, file: Option<Gen>, lock: Option<Thread>, gate: Option<Thread>,
    acts: map<Thread, Act>, drained: set<Gen>)

  const Init := State(0, 0, None, None, None, map[], {0})

  datatype Step =
    | Advance                                  // the resource is deleted: a new generation
    | Restart
    | Ask(t: Thread)
    | LockSnapshot(t: Thread)
    | LockChecked(t: Thread)
    | LockBind(t: Thread)
    | LockBlind(t: Thread, g: Gen)             // EnsureResourceGeneration without the authority callback
    | Compare(t: Thread)
    | Recheck(t: Thread)
    | ReadUnderLock(t: Thread)
    | Ensure(t: Thread)
    | TakeGate(t: Thread)
    | FreeGate(t: Thread, ok: bool)
    | Rename(t: Thread, renamed: bool, ok: bool)
    | Pin(t: Thread)
    | Check(t: Thread)
    | OpenFile(t: Thread)
    | Finish(t: Thread, wipe: bool)            // wipe: the eviction was a Forget
    | GiveUp(t: Thread)
    | GuestBegin(t: Thread)
    | EvictBegin(t: Thread)

  function ActOf(s: State, t: Thread): Act { if t in s.acts then s.acts[t] else Idle }

  function Put(s: State, t: Thread, a: Act): State { s.(acts := s.acts[t := a]) }

  /** Leaves the lock and stops. */
  function Leave(s: State, t: Thread, a: Act): State { Put(s.(lock := None), t, a) }

  predicate IsPin(a: Act) { a.Pinned? || a.Admitted? || a.Guest? }

  predicate Drained(s: State) { forall t <- s.acts :: !IsPin(s.acts[t]) }

  function Lock(s: State, t: Thread, a: Act): State
  {
    if s.lock.None? then Put(s.(lock := Some(t)), t, a) else s
  }

  function Ensured(s: State, t: Thread, g: Gen, bind: bool): State
  {
    if bind then Put(s, t, Binding(g)) else Leave(s, t, Ready(g))
  }

  function DoEnsure(s: State, t: Thread, g: Gen, bind: bool): State
  {
    if s.marker == g then Ensured(s, t, g, bind)
    else if g == 0 then Leave(s, t, Idle)
    else Put(s, t, Draining(g, bind))
  }

  function DoRename(s: State, t: Thread, g: Gen, bind: bool, renamed: bool, ok: bool): State
  {
    var s1 := if renamed || ok then s.(marker := g) else s;
    if ok then Ensured(s1, t, g, bind) else Leave(s1, t, Idle)
  }

  function DoCheck(s: State, t: Thread, g: Gen, bind: bool): State
  {
    var s1 := if bind then s.(lock := None) else s;
    Put(s1, t, if s.auth == g then Admitted(g) else Idle)
  }

  function DoGiveUp(s: State, t: Thread, a: Act): State
  {
    match a
    case Snap(_) => Put(s, t, Idle)
    case Ready(_) => Put(s, t, Idle)
    case Comparing(_) => Leave(s, t, Idle)
    case Rechecking(_) => Leave(s, t, Idle)
    case Reading => Leave(s, t, Idle)
    case Verified(_, _) => Leave(s, t, Idle)
    case Draining(_, _) => Leave(s, t, Idle)
    case Binding(_) => Leave(s, t, Idle)
    case _ => s
  }

  function DoFinish(s: State, t: Thread, a: Act, wipe: bool): State
  {
    if a.Admitted? || a.Guest? then Put(s, t, Idle)
    else if a.Evicting? then Put(s.(gate := None, file := if wipe then None else s.file), t, Idle)
    else s
  }

  /** The steps of a thread that asks, locks and compares. */
  function Prepare(s: State, step: Step, t: Thread, a: Act): State
  {
    match step
    case Ask(_) => if a.Idle? then Put(s, t, Snap(s.auth)) else s
    case LockSnapshot(_) => if a.Snap? then Lock(s, t, Comparing(a.g)) else s
    case LockChecked(_) => if a.Snap? then Lock(s, t, Rechecking(a.g)) else s
    case LockBind(_) => if a.Idle? then Lock(s, t, Reading) else s
    case LockBlind(_, g) => if a.Idle? then Lock(s, t, Verified(g, false)) else s
    case Compare(_) =>
      if !a.Comparing? then s else if s.marker == a.g then Leave(s, t, Ready(a.g)) else Put(s, t, Rechecking(a.g))
    case Recheck(_) =>
      if !a.Rechecking? then s else if s.auth == a.g then Put(s, t, Verified(a.g, false)) else Leave(s, t, Idle)
    case ReadUnderLock(_) => if a.Reading? then Put(s, t, Verified(s.auth, true)) else s
    case Ensure(_) => if a.Verified? then DoEnsure(s, t, a.g, a.bind) else s
    case _ => s
  }

  /** The steps that drain, mark and admit. */
  function Admit(s: State, step: Step, t: Thread, a: Act): State
  {
    match step
    case TakeGate(_) =>
      if a.Draining? && s.gate.None? && Drained(s)
      then Put(s.(gate := Some(t), drained := s.drained + {a.g}), t, Gated(a.g, a.bind)) else s
    case FreeGate(_, ok) =>
      if !a.Gated? then s
      else if ok then Put(s.(gate := None, file := None), t, Writing(a.g, a.bind))
      else Leave(s.(gate := None), t, Idle)
    case Rename(_, renamed, ok) => if a.Writing? then DoRename(s, t, a.g, a.bind, renamed, ok) else s
    case Pin(_) =>
      if s.gate.Some? then s
      else if a.Ready? then Put(s, t, Pinned(a.g, false))
      else if a.Binding? then Put(s, t, Pinned(a.g, true))
      else s
    case Check(_) => if a.Pinned? then DoCheck(s, t, a.g, a.bind) else s
    case OpenFile(_) =>
      if (a.Admitted? || a.Guest?) && s.file.None? then Put(s.(file := Some(if a.Admitted? then a.g else s.auth)), t, a) else s
    case Finish(_, wipe) => DoFinish(s, t, a, wipe)
    case GiveUp(_) => DoGiveUp(s, t, a)
    case GuestBegin(_) => if a.Idle? && s.gate.None? then Put(s, t, Guest) else s
    case EvictBegin(_) => if a.Idle? && s.gate.None? && Drained(s) then Put(s.(gate := Some(t)), t, Evicting) else s
    case _ => s
  }

  function Apply(s: State, step: Step): State
  {
    if step.Advance? then s.(auth := s.auth + 1)
    else if step.Restart? then s.(lock := None, gate := None, acts := map[])
    else
      var a := ActOf(s, step.t);
      Admit(Prepare(s, step, step.t, a), step, step.t, a)
  }

  function Run(steps: seq<Step>): State
  {
    if steps == [] then Init else Apply(Run(steps[..|steps| - 1]), steps[|steps| - 1])
  }

  /** A generation ensured without the authority callback has been authoritative already. */
  predicate StepOk(s: State, step: Step) { step.LockBlind? ==> step.g <= s.auth }

  ghost predicate RunOk(steps: seq<Step>)
  {
    forall i | 0 <= i < |steps| :: StepOk(Run(steps[..i]), steps[i])
  }

  // ------------------------------------------------------------------ the invariant

  ghost predicate GensOk(s: State)
  {
    (forall d <- s.drained :: d <= s.auth) && s.marker in s.drained
  }

  /** What a thread's generation is known to be, step by step. */
  predicate ActOk(s: State, a: Act)
  {
    match a
    case Snap(g) => g <= s.auth
    case Comparing(g) => g <= s.auth
    case Rechecking(g) => g <= s.auth
    case Verified(g, _) => g <= s.auth
    case Draining(g, _) => g <= s.auth
    case Gated(g, _) => g in s.drained
    case Writing(g, _) => g in s.drained
    case Ready(g) => g in s.drained
    case Binding(g) => g in s.drained
    case Pinned(g, _) => g in s.drained
    case Admitted(g) => g in s.drained && forall d <- s.drained :: d <= g
    case _ => true
  }

  ghost predicate Inv(s: State)
  {
    GensOk(s) && forall t <- s.acts :: ActOk(s, s.acts[t])
  }

  /** A move that drains no new generation. */
  lemma MoveKeeps(s: State, s': State, t: Thread, a': Act)
    requires Inv(s) && s'.acts == s.acts[t := a'] && s'.auth == s.auth && s'.drained == s.drained
    requires s'.marker == s.marker || s'.marker in s.drained
    requires ActOk(s', a')
    ensures Inv(s')
  {
    forall u | u in s'.acts ensures ActOk(s', s'.acts[u]) { if u != t { assert ActOk(s, s.acts[u]); } }
  }

  lemma PrepareKeeps(s: State, step: Step, t: Thread)
    requires Inv(s) && StepOk(s, step)
    ensures Inv(Prepare(s, step, t, ActOf(s, t)))
  {
    var s' := Prepare(s, step, t, ActOf(s, t));
    if s' != s {
      if t in s.acts { assert ActOk(s, s.acts[t]); }
      assert GensOk(s);
      hide Inv;
      MoveKeeps(s, s', t, s'.acts[t]);
    }
  }

  /** Draining happens with no admitted request about, so no older one survives it. */
  lemma DrainKeeps(s: State, t: Thread, g: Gen, bind: bool)
    requires Inv(s) && ActOf(s, t) == Draining(g, bind) && Drained(s)
    ensures Inv(Put(s.(gate := Some(t), drained := s.drained + {g}), t, Gated(g, bind)))
  {
    var s' := Put(s.(gate := Some(t), drained := s.drained + {g}), t, Gated(g, bind));
    assert ActOk(s, s.acts[t]);
    forall u | u in s'.acts ensures ActOk(s', s'.acts[u]) {
      if u != t { assert ActOk(s, s.acts[u]) && !IsPin(s.acts[u]); }
    }
  }

  lemma AdmitKeeps(s: State, step: Step, t: Thread)
    requires Inv(s)
    ensures Inv(Admit(s, step, t, ActOf(s, t)))
  {
    var a, s' := ActOf(s, t), Admit(s, step, t, ActOf(s, t));
    if s' != s {
      if step.TakeGate? {
        DrainKeeps(s, t, a.g, a.bind);
      } else {
        if t in s.acts { assert ActOk(s, s.acts[t]); }
        assert GensOk(s);
        hide Inv, Drained;
        MoveKeeps(s, s', t, s'.acts[t]);
      }
    }
  }

  /** A step either prepares or admits. */
  lemma OneHalf(s: State, step: Step)
    requires !step.Advance? && !step.Restart?
    ensures var a := ActOf(s, step.t);
            Apply(s, step) == Prepare(s, step, step.t, a) || Apply(s, step) == Admit(s, step, step.t, a)
  {
    hide Drained;
  }

  lemma ApplyKeeps(s: State, step: Step)
    requires Inv(s) && StepOk(s, step)
    ensures Inv(Apply(s, step))
  {
    if step.Advance? {
      var s' := Apply(s, step);
      forall t | t in s'.acts ensures ActOk(s', s'.acts[t]) { assert ActOk(s, s.acts[t]); }
    } else if !step.Restart? {
      var t := step.t;
      PrepareKeeps(s, step, t);
      AdmitKeeps(s, step, t);
      OneHalf(s, step);
      hide Inv, Apply, Prepare, Admit;
    }
  }

  lemma PrefixOk(steps: seq<Step>)
    requires RunOk(steps) && steps != []
    ensures RunOk(steps[..|steps| - 1]) && StepOk(Run(steps[..|steps| - 1]), steps[|steps| - 1])
  {
    var front := steps[..|steps| - 1];
    hide StepOk, Run;
    forall i | 0 <= i < |front| ensures StepOk(Run(front[..i]), front[i]) {
      assert front[..i] == steps[..i];
    }
  }

  lemma {:induction false} RunKeeps(steps: seq<Step>)
    requires RunOk(steps)
    ensures Inv(Run(steps))
  {
    if steps != [] {
      PrefixOk(steps);
      RunKeeps(steps[..|steps| - 1]);
      ApplyKeeps(Run(steps[..|steps| - 1]), steps[|steps| - 1]);
    }
  }

  /** Requests admitted and not yet finished all have the same generation. */
  lemma NoOverlap(steps: seq<Step>, t: Thread, u: Thread)
    requires RunOk(steps)
    requires ActOf(Run(steps), t).Admitted? && ActOf(Run(steps), u).Admitted?
    ensures ActOf(Run(steps), t) == ActOf(Run(steps), u)
  {
    RunKeeps(steps);
    var s := Run(steps);
    assert ActOk(s, s.acts[t]) && ActOk(s, s.acts[u]);
  }

  // ------------------------------------------------------------------ marker, file and lock

  /** The acts of a thread that holds the generation lock. */
  predicate Holds(a: Act)
  {
    || a.Comparing? || a.Rechecking? || a.Reading? || a.Verified? || a.Draining? || a.Gated? || a.Writing?
    || a.Binding? || (a.Pinned? && a.bind)
  }

  /** Until the marker names its generation a thread is ahead of it, afterwards never. */
  predicate OrderOk(s: State, a: Act)
  {
    match a
    case Verified(g, _) => s.marker <= g
    case Draining(g, _) => s.marker <= g
    case Gated(g, _) => s.marker <= g
    case Writing(g, _) => s.marker <= g && (s.file.Some? ==> g <= s.file.value)
    case Ready(g) => g <= s.marker
    case Binding(g) => g <= s.marker
    case Pinned(g, _) => g <= s.marker
    case Admitted(g) => g <= s.marker
    case _ => true
  }

  predicate Ordered(s: State, t: Thread, a: Act) { (Holds(a) ==> s.lock == Some(t)) && OrderOk(s, a) }

  ghost predicate Lineage(s: State)
  {
    && Inv(s)
    && (forall t <- s.acts :: Ordered(s, t, s.acts[t]))
    && FileOk(s)
  }

  /** The file is of the marker's generation, or of a later one that no admitted request can see. */
  ghost predicate FileOk(s: State)
  {
    s.file.Some? ==> s.file.value == s.marker || (s.marker < s.file.value <= s.auth && NoneAdmitted(s))
  }

  ghost predicate NoneAdmitted(s: State) { forall t <- s.acts :: !s.acts[t].Admitted? }

  /** A request without a generation restores a file only while the marker is authoritative, or nobody is admitted. */
  ghost predicate GuestOk(s: State, step: Step)
  {
    step.OpenFile? && ActOf(s, step.t).Guest? && s.file.None? ==> s.marker == s.auth || NoneAdmitted(s)
  }

  /** A move that leaves marker and file alone, or removes the file. */
  lemma OrderMoves(s: State, s': State, t: Thread, a': Act)
    requires Lineage(s) && Inv(s') && s'.acts == s.acts[t := a'] && s'.marker == s.marker
    requires s'.file == s.file || s'.file.None?
    requires s'.lock == s.lock || Holds(ActOf(s, t)) || s.lock.None?
    requires Ordered(s', t, a') && s'.auth == s.auth && (a'.Admitted? ==> s.auth <= s.marker)
    ensures Lineage(s')
  {
    assert FileOk(s');
    hide Inv, OrderOk, FileOk;
    forall u | u in s'.acts ensures Ordered(s', u, s'.acts[u]) {
      if u != t {
        assert Ordered(s, u, s.acts[u]);
        if t in s.acts { assert Ordered(s, t, s.acts[t]); }
        SameOrder(s, s', s.acts[u]);
      }
    }
  }

  lemma SameOrder(s: State, s': State, a: Act)
    requires OrderOk(s, a) && s'.marker == s.marker && (s'.file == s.file || s'.file.None?)
    ensures OrderOk(s', a)
  {
  }

  lemma PrepareOrders(s: State, step: Step, t: Thread)
    requires Lineage(s) && !step.LockBlind?
    ensures Lineage(Prepare(s, step, t, ActOf(s, t)))
  {
    var s' := Prepare(s, step, t, ActOf(s, t));
    if s' != s {
      PrepareKeeps(s, step, t);
      assert GensOk(s);
      if t in s.acts { assert Ordered(s, t, s.acts[t]); }
      hide Inv, Lineage;
      OrderMoves(s, s', t, s'.acts[t]);
    }
  }

  /** The marker moves on only under the lock, with the file gone or already of that generation. */
  lemma RenameOrders(s: State, t: Thread, g: Gen, bind: bool, renamed: bool, ok: bool)
    requires Lineage(s) && ActOf(s, t) == Writing(g, bind)
    requires Inv(DoRename(s, t, g, bind, renamed, ok))
    ensures Lineage(DoRename(s, t, g, bind, renamed, ok))
  {
    var s' := DoRename(s, t, g, bind, renamed, ok);
    assert Ordered(s, t, s.acts[t]) && ActOk(s, s.acts[t]);
    RenamedFile(s, s', t, g);
    hide Inv, FileOk;
    forall u | u in s'.acts ensures Ordered(s', u, s'.acts[u]) {
      if u != t { assert Ordered(s, u, s.acts[u]); }
    }
  }

  lemma RenamedFile(s: State, s': State, t: Thread, g: Gen)
    requires Inv(s) && FileOk(s) && g in s.drained && s.marker <= g && (s.file.Some? ==> g <= s.file.value)
    requires s'.file == s.file && s'.auth == s.auth && (s'.marker == s.marker || s'.marker == g)
    requires t in s'.acts && s'.acts == s.acts[t := s'.acts[t]] && !s'.acts[t].Admitted?
    requires forall u <- s.acts :: OrderOk(s, s.acts[u])
    ensures FileOk(s')
  {
    if s.file.Some? && s'.marker == g < s.file.value {
      forall u | u in s'.acts ensures !s'.acts[u].Admitted? {
        if u != t { assert ActOk(s, s.acts[u]) && OrderOk(s, s.acts[u]); }
      }
    }
  }

  /** A request without a generation restores the authoritative file. */
  lemma GuestOrders(s: State, t: Thread)
    requires Lineage(s) && ActOf(s, t) == Guest && s.file.None? && (s.marker == s.auth || NoneAdmitted(s))
    requires Inv(Put(s.(file := Some(s.auth)), t, Guest))
    ensures Lineage(Put(s.(file := Some(s.auth)), t, Guest))
  {
    var s' := Put(s.(file := Some(s.auth)), t, Guest);
    assert s.marker in s.drained && s.marker <= s.auth;
    forall u | u in s'.acts ensures Ordered(s', u, s'.acts[u]) {
      assert Ordered(s, u, s.acts[u]) && ActOk(s, s.acts[u]);
    }
  }

  /** A new file is of the generation the marker names. */
  lemma OpenOrders(s: State, t: Thread, g: Gen)
    requires Lineage(s) && ActOf(s, t) == Admitted(g) && s.file.None?
    requires Inv(Put(s.(file := Some(g)), t, Admitted(g)))
    ensures Lineage(Put(s.(file := Some(g)), t, Admitted(g)))
  {
    var s' := Put(s.(file := Some(g)), t, Admitted(g));
    assert Ordered(s, t, s.acts[t]) && ActOk(s, s.acts[t]) && s.marker in s.drained;
    forall u | u in s'.acts ensures Ordered(s', u, s'.acts[u]) {
      assert Ordered(s, u, s.acts[u]) && ActOk(s, s.acts[u]);
    }
  }

  lemma AdmitOrders(s: State, step: Step, t: Thread)
    requires Lineage(s) && GuestOk(s, step) && (step.Advance? || step.Restart? || step.t == t)
    ensures Lineage(Admit(s, step, t, ActOf(s, t)))
  {
    var a, s' := ActOf(s, t), Admit(s, step, t, ActOf(s, t));
    if s' != s {
      AdmitKeeps(s, step, t);
      if step.Rename? {
        RenameOrders(s, t, a.g, a.bind, step.renamed, step.ok);
      } else if step.OpenFile? && a.Admitted? {
        OpenOrders(s, t, a.g);
      } else if step.OpenFile? {
        GuestOrders(s, t);
      } else {
        if t in s.acts { assert Ordered(s, t, s.acts[t]); }
        hide Inv, Lineage, Drained, FileOk, GuestOk;
        OrderMoves(s, s', t, s'.acts[t]);
      }
    }
  }

  lemma ApplyOrders(s: State, step: Step)
    requires Lineage(s) && !step.LockBlind? && GuestOk(s, step)
    ensures Lineage(Apply(s, step)) && s.marker <= Apply(s, step).marker
  {
    if step.Advance? || step.Restart? {
      ApplyKeeps(s, step);
      var s' := Apply(s, step);
      hide Inv;
      forall t | t in s'.acts ensures Ordered(s', t, s'.acts[t]) { assert Ordered(s, t, s.acts[t]); }
    } else {
      var t := step.t;
      PrepareOrders(s, step, t);
      AdmitOrders(s, step, t);
      OneHalf(s, step);
      MarkerMoves(s, step, t);
      hide Inv, Lineage, Apply, Prepare, Admit;
    }
  }

  lemma MarkerMoves(s: State, step: Step, t: Thread)
    requires Lineage(s)
    ensures s.marker <= Prepare(s, step, t, ActOf(s, t)).marker && s.marker <= Admit(s, step, t, ActOf(s, t)).marker
  {
    if t in s.acts { assert Ordered(s, t, s.acts[t]); }
    hide Inv, Lineage, Drained;
  }

  /** Every ensure asks the authority, and requests without a generation keep to their condition. */
  ghost predicate Asked(steps: seq<Step>)
  {
    forall i | 0 <= i < |steps| :: !steps[i].LockBlind? && GuestOk(Run(steps[..i]), steps[i])
  }

  lemma AskedPrefix(steps: seq<Step>)
    requires Asked(steps) && steps != []
    ensures var front, last := steps[..|steps| - 1], steps[|steps| - 1];
            Asked(front) && !last.LockBlind? && GuestOk(Run(front), last)
  {
    var front := steps[..|steps| - 1];
    hide GuestOk, Run;
    forall i | 0 <= i < |front| ensures !front[i].LockBlind? && GuestOk(Run(front[..i]), front[i]) {
      assert front[..i] == steps[..i];
    }
  }

  lemma {:induction false} RunOrders(steps: seq<Step>)
    requires Asked(steps)
    ensures Lineage(Run(steps))
  {
    if steps != [] {
      var front, last := steps[..|steps| - 1], steps[|steps| - 1];
      AskedPrefix(steps);
      RunOrders(front);
      hide Asked;
      ApplyOrders(Run(front), last);
    }
  }

  /**
   When every ensure asks the authority, an admitted request runs under the generation the marker
   names, and the local file it finds was created under that generation too.
   */
  lemma AdmittedFindsItsOwnFile(steps: seq<Step>, t: Thread)
    requires Asked(steps) && ActOf(Run(steps), t).Admitted?
    ensures var s := Run(steps); ActOf(s, t).g == s.marker && (s.file.Some? ==> s.file.value == s.marker)
  {
    RunOrders(steps);
    var s := Run(steps);
    hide Run;
    assert Ordered(s, t, s.acts[t]) && ActOk(s, s.acts[t]);
  }

  /** All admitted requests find a file of their own generation, if any. */
  ghost predicate OwnFiles(s: State)
  {
    forall t <- s.acts :: s.acts[t].Admitted? && s.file.Some? ==> s.file.value == s.acts[t].g
  }

  /** And a request without a generation takes that away exactly when it does not keep to its condition. */
  lemma GuestExactly(steps: seq<Step>, t: Thread)
    requires Asked(steps)
    ensures OwnFiles(Apply(Run(steps), OpenFile(t))) <==> GuestOk(Run(steps), OpenFile(t))
  {
    var s := Run(steps);
    RunOrders(steps);
    hide Run, Apply, Lineage;
    if GuestOk(s, OpenFile(t)) {
      ApplyOrders(s, OpenFile(t));
      OwnFilesOf(Apply(s, OpenFile(t)));
    } else {
      GuestOpens(s, t);
    }
  }

  lemma GuestOpens(s: State, t: Thread)
    requires Lineage(s) && !GuestOk(s, OpenFile(t))
    ensures !OwnFiles(Apply(s, OpenFile(t)))
  {
    var s' := Apply(s, OpenFile(t));
    assert s' == Put(s.(file := Some(s.auth)), t, Guest);
    hide Apply;
    var u :| u in s.acts && s.acts[u].Admitted?;
    assert Ordered(s, u, s.acts[u]) && ActOk(s, s.acts[u]) && s.marker in s.drained && s.marker <= s.auth;
    assert u in s'.acts && s'.acts[u] == s.acts[u];
  }

  lemma OwnFilesOf(s: State)
    requires Lineage(s)
    ensures OwnFiles(s)
  {
    forall t | t in s.acts && s.acts[t].Admitted? && s.file.Some? ensures s.file.value == s.acts[t].g {
      assert Ordered(s, t, s.acts[t]) && ActOk(s, s.acts[t]);
    }
  }

  /** The marker never names an earlier generation again. */
  lemma {:induction false} MarkerOnlyAdvances(steps: seq<Step>, more: seq<Step>)
    requires Asked(steps + more)
    ensures Run(steps).marker <= Run(steps + more).marker
    decreases |more|
  {
    if more == [] {
      assert steps + more == steps;
    } else {
      var front, all := more[..|more| - 1], steps + more;
      assert all[..|all| - 1] == steps + front && all[|all| - 1] == more[|more| - 1];
      AskedPrefix(all);
      MarkerOnlyAdvances(steps, front);
      RunOrders(steps + front);
      Extend(steps + front, more[|more| - 1]);
      assert steps + front + [more[|more| - 1]] == all;
      hide Run, Apply, Lineage, Asked;
      ApplyOrders(Run(steps + front), more[|more| - 1]);
    }
  }

  lemma Extend(steps: seq<Step>, step: Step)
    ensures Run(steps + [step]) == Apply(Run(steps), step)
  {
    var all := steps + [step];
    assert all[..|all| - 1] == steps;
  }

  /** Thread 0 is ready for generation 0. */
  lemma ReadyRun() returns (steps: seq<Step>)
    ensures Run(steps) == Init.(acts := map[0 := Ready(0)])
  {
    Extend([], Ask(0));
    assert [] + [Ask(0)] == [Ask(0)];
    var s0 := Run([Ask(0)]);
    assert s0 == Init.(acts := map[0 := Snap(0)]);
    hide Run;
    Extend([Ask(0)], LockSnapshot(0));
    Extend([Ask(0)] + [LockSnapshot(0)], Compare(0));
    steps := [Ask(0)] + [LockSnapshot(0)] + [Compare(0)];
  }

  /** Thread 2 drains for generation 1 while the authority still says 0. */
  lemma BlindDrainRun() returns (steps: seq<Step>)
    ensures Run(steps) == Init.(lock := Some(2), gate := Some(2), acts := map[0 := Ready(0), 2 := Gated(1, false)], drained := {0, 1})
  {
    steps := ReadyRun();
    hide Run;
    Extend(steps, LockBlind(2, 1));
    steps := steps + [LockBlind(2, 1)];
    assert Run(steps) == Init.(lock := Some(2), acts := map[0 := Ready(0), 2 := Verified(1, false)]);
    Extend(steps, Ensure(2));
    steps := steps + [Ensure(2)];
    assert Run(steps) == Init.(lock := Some(2), acts := map[0 := Ready(0), 2 := Draining(1, false)]);
    Extend(steps, TakeGate(2));
    steps := steps + [TakeGate(2)];
  }

  lemma BlindRun() returns (steps: seq<Step>)
    ensures Run(steps) == Init.(marker := 1, acts := map[0 := Ready(0), 2 := Ready(1)], drained := {0, 1})
  {
    steps := BlindDrainRun();
    hide Run;
    Extend(steps, FreeGate(2, true));
    steps := steps + [FreeGate(2, true)];
    assert Run(steps) == Init.(lock := Some(2), acts := map[0 := Ready(0), 2 := Writing(1, false)], drained := {0, 1});
    Extend(steps, Rename(2, true, true));
    steps := steps + [Rename(2, true, true)];
  }

  lemma EarlyRun() returns (steps: seq<Step>)
    ensures Run(steps) == Init.(auth := 1, marker := 1, acts := map[0 := Admitted(0), 2 := Ready(1)], drained := {0, 1})
  {
    steps := BlindRun();
    hide Run;
    Extend(steps, Pin(0));
    steps := steps + [Pin(0)];
    assert Run(steps) == Init.(marker := 1, acts := map[0 := Pinned(0, false), 2 := Ready(1)], drained := {0, 1});
    Extend(steps, Check(0));
    steps := steps + [Check(0)];
    assert Run(steps) == Init.(marker := 1, acts := map[0 := Admitted(0), 2 := Ready(1)], drained := {0, 1});
    Extend(steps, Advance);
    steps := steps + [Advance];
  }

  /** An ensure that neither asks the authority nor waits for it lets two generations overlap. */
  lemma OverlapWithoutAuthority() returns (steps: seq<Step>)
    ensures ActOf(Run(steps), 0) == Admitted(0) && ActOf(Run(steps), 2) == Admitted(1)
  {
    steps := EarlyRun();
    hide Run;
    Extend(steps, Pin(2));
    steps := steps + [Pin(2)];
    assert Run(steps) == Init.(auth := 1, marker := 1, acts := map[0 := Admitted(0), 2 := Pinned(1, false)], drained := {0, 1});
    Extend(steps, Check(2));
    steps := steps + [Check(2)];
  }

  // ------------------------------------------------------------------ exactly when such an ensure does no harm

  /** The lock and the gate are with the threads that took them. */
  ghost predicate LocksOk(s: State)
  {
    && (forall t <- s.acts :: Holds(s.acts[t]) ==> s.lock == Some(t))
    && (s.gate.Some? ==> s.gate.value in s.acts && (s.acts[s.gate.value].Evicting? || s.acts[s.gate.value].Gated?))
  }

  lemma LocksKeep(s: State, step: Step)
    requires LocksOk(s)
    ensures LocksOk(Apply(s, step))
  {
    if !step.Advance? && !step.Restart? {
      PrepareLocks(s, step, step.t);
      AdmitLocks(s, step, step.t);
      OneHalf(s, step);
      hide Apply, LocksOk, Prepare, Admit;
    }
  }

  lemma PrepareLocks(s: State, step: Step, t: Thread)
    requires LocksOk(s)
    ensures LocksOk(Prepare(s, step, t, ActOf(s, t)))
  {
  }

  lemma AdmitLocks(s: State, step: Step, t: Thread)
    requires LocksOk(s)
    ensures LocksOk(Admit(s, step, t, ActOf(s, t)))
  {
    hide Drained;
  }

  lemma {:induction false} RunLocks(steps: seq<Step>)
    ensures LocksOk(Run(steps))
  {
    if steps != [] {
      RunLocks(steps[..|steps| - 1]);
      hide LocksOk, Apply;
      LocksKeep(Run(steps[..|steps| - 1]), steps[|steps| - 1]);
    }
  }

  function RunFrom(s: State, steps: seq<Step>): State
  {
    if steps == [] then s else Apply(RunFrom(s, steps[..|steps| - 1]), steps[|steps| - 1])
  }

  ghost predicate OkFrom(s: State, steps: seq<Step>)
  {
    forall i | 0 <= i < |steps| :: StepOk(RunFrom(s, steps[..i]), steps[i])
  }

  /** Requests of two generations are admitted at once. */
  ghost predicate Overlaps(s: State)
  {
    exists t, u :: ActOf(s, t).Admitted? && ActOf(s, u).Admitted? && ActOf(s, t) != ActOf(s, u)
  }

  predicate Sighted(steps: seq<Step>) { forall x <- steps :: !x.LockBlind? }

  lemma SightedOk(s: State, steps: seq<Step>)
    requires Sighted(steps)
    ensures OkFrom(s, steps)
  {
    hide RunFrom;
    assert forall i | 0 <= i < |steps| :: steps[i] in steps;
  }

  lemma {:induction false} Then(s: State, a: seq<Step>, b: seq<Step>)
    ensures RunFrom(s, a + b) == RunFrom(RunFrom(s, a), b)
    decreases |b|
  {
    if b == [] {
      assert a + b == a;
    } else {
      Then(s, a, b[..|b| - 1]);
      assert (a + b)[..|a + b| - 1] == a + b[..|b| - 1];
    }
  }

  lemma One(s: State, x: Step)
    ensures RunFrom(s, [x]) == Apply(s, x)
  {
    assert [x][..0] == [];
  }

  lemma Two(s: State, x: Step, y: Step)
    ensures RunFrom(s, [x, y]) == Apply(Apply(s, x), y)
  {
    hide Apply, RunFrom;
    One(s, x);
    One(Apply(s, x), y);
    Then(s, [x], [y]);
    assert [x] + [y] == [x, y];
  }

  lemma {:induction false} InvFrom(s: State, more: seq<Step>)
    requires Inv(s) && OkFrom(s, more)
    ensures Inv(RunFrom(s, more))
    decreases |more|
  {
    if more != [] {
      var front := more[..|more| - 1];
      assert OkFrom(s, front) by {
        forall i | 0 <= i < |front| ensures StepOk(RunFrom(s, front[..i]), front[i]) { assert front[..i] == more[..i]; }
      }
      InvFrom(s, front);
      assert StepOk(RunFrom(s, front), more[|more| - 1]);
      hide Inv, OkFrom, StepOk;
      ApplyKeeps(RunFrom(s, front), more[|more| - 1]);
    }
  }

  lemma InvApart(s: State)
    requires Inv(s)
    ensures !Overlaps(s)
  {
    forall t, u | ActOf(s, t).Admitted? && ActOf(s, u).Admitted? ensures ActOf(s, t) == ActOf(s, u) {
      assert ActOk(s, s.acts[t]) && ActOk(s, s.acts[u]);
    }
  }

  /** The threads that keep Forget waiting. */
  ghost function InTheWay(s: State): set<Thread> { set u | u in s.acts && (IsPin(s.acts[u]) || s.acts[u].Evicting?) }

  /** One of them ends its request or its eviction. */
  lemma EndsOne(s: State, u: Thread) returns (more: seq<Step>)
    requires u in InTheWay(s) && !(s.acts[u].Pinned? && s.acts[u].bind)
    ensures Sighted(more)
    ensures RunFrom(s, more) == s.(acts := s.acts[u := Idle], gate := if s.acts[u].Evicting? then None else s.gate)
  {
    if s.acts[u].Pinned? {
      var s1 := Apply(s, Check(u));
      if s1.acts[u].Admitted? {
        more := [Check(u), Finish(u, false)];
        Two(s, Check(u), Finish(u, false));
        assert Apply(s1, Finish(u, false)).acts == s.acts[u := Idle];
      } else {
        more := [Check(u)];
        One(s, Check(u));
      }
    } else {
      more := [Finish(u, false)];
      One(s, Finish(u, false));
    }
  }

  predicate Calm(s: State) { s.gate.None? && Drained(s) }

  /** All of them do, while thread t holds the lock. */
  lemma Settles(s: State, t: Thread) returns (more: seq<Step>)
    requires LocksOk(s) && s.lock == Some(t) && t in s.acts && s.acts[t].Verified?
    ensures Sighted(more)
    ensures var s' := RunFrom(s, more);
            && LocksOk(s') && Calm(s') && t in s'.acts && s'.acts[t] == s.acts[t]
            && s'.lock == s.lock && s'.auth == s.auth && s'.marker == s.marker
    decreases |InTheWay(s)|
  {
    hide RunFrom;
    if InTheWay(s) == {} {
      assert forall u <- s.acts :: u !in InTheWay(s);
      more := [];
      assert RunFrom(s, more) == s by { Nothing(s); }
    } else {
      var u :| u in InTheWay(s);
      var first := EndsOne(s, u);
      var s1 := RunFrom(s, first);
      assert InTheWay(s1) == InTheWay(s) - {u};
      var rest := Settles(s1, t);
      Then(s, first, rest);
      more := first + rest;
    }
  }

  lemma Nothing(s: State)
    ensures RunFrom(s, []) == s
  {
  }

  /** Ensure drains the cell and moves the marker. */
  lemma Moves(s: State, t: Thread, g: Gen, bind: bool) returns (more: seq<Step>)
    requires t in s.acts && s.acts[t] == Verified(g, bind) && Calm(s) && g != 0
    ensures Sighted(more)
    ensures var s' := RunFrom(s, more);
            && s'.acts == s.acts[t := if bind then Binding(g) else Ready(g)] && s'.marker == g && s'.gate.None?
            && s'.auth == s.auth && s'.lock == if bind then s.lock else None
  {
    if s.marker == g {
      more := [Ensure(t)];
      One(s, Ensure(t));
    } else {
      var s2 := s.(gate := Some(t), drained := s.drained + {g}, acts := s.acts[t := Gated(g, bind)]);
      Two(s, Ensure(t), TakeGate(t));
      TakesGate(s, t, g, bind);
      Two(s2, FreeGate(t, true), Rename(t, true, true));
      Marks(s2, t, g, bind);
      more := [Ensure(t), TakeGate(t)] + [FreeGate(t, true), Rename(t, true, true)];
      Then(s, [Ensure(t), TakeGate(t)], [FreeGate(t, true), Rename(t, true, true)]);
    }
  }

  lemma TakesGate(s: State, t: Thread, g: Gen, bind: bool)
    requires t in s.acts && s.acts[t] == Verified(g, bind) && Calm(s) && g != 0 && s.marker != g
    ensures Apply(Apply(s, Ensure(t)), TakeGate(t))
            == s.(gate := Some(t), drained := s.drained + {g}, acts := s.acts[t := Gated(g, bind)])
  {
    var s1 := Apply(s, Ensure(t));
    assert s1 == Put(s, t, Draining(g, bind));
    assert Drained(s1);
    assert Apply(s1, TakeGate(t)).acts == s.acts[t := Gated(g, bind)];
  }

  lemma Marks(s: State, t: Thread, g: Gen, bind: bool)
    requires t in s.acts && s.acts[t] == Gated(g, bind)
    ensures var s' := Apply(Apply(s, FreeGate(t, true)), Rename(t, true, true));
            && s'.acts == s.acts[t := if bind then Binding(g) else Ready(g)] && s'.marker == g && s'.gate.None?
            && s'.auth == s.auth && s'.lock == if bind then s.lock else None
  {
    var s1 := Apply(s, FreeGate(t, true));
    assert s1 == Put(s.(gate := None, file := None), t, Writing(g, bind));
  }

  /** A request that asks for everything under the lock is admitted under the authoritative generation. */
  lemma Enters(s: State, u: Thread) returns (more: seq<Step>)
    requires Calm(s) && s.lock.None? && u !in s.acts && s.auth > 0
    ensures Sighted(more)
    ensures var s' := RunFrom(s, more);
            s'.acts == s.acts[u := Admitted(s.auth)] && s'.gate.None? && s'.auth == s.auth
  {
    hide RunFrom, Apply;
    var s1 := s.(lock := Some(u), acts := s.acts[u := Verified(s.auth, true)]);
    Asks(s, u);
    Two(s, LockBind(u), ReadUnderLock(u));
    assert Drained(s1);
    var move := Moves(s1, u, s.auth, true);
    var s2 := RunFrom(s1, move);
    Two(s2, Pin(u), Check(u));
    PinsAndChecks(s2, u, s.auth);
    var head, tail := [LockBind(u), ReadUnderLock(u)], [Pin(u), Check(u)];
    Then(s, head, move);
    Then(s, head + move, tail);
    more := head + move + tail;
    assert s.acts[u := Verified(s.auth, true)][u := Binding(s.auth)][u := Admitted(s.auth)] == s.acts[u := Admitted(s.auth)];
  }

  lemma Asks(s: State, u: Thread)
    requires s.lock.None? && u !in s.acts
    ensures Apply(Apply(s, LockBind(u)), ReadUnderLock(u)) == s.(lock := Some(u), acts := s.acts[u := Verified(s.auth, true)])
  {
    var s1 := Apply(s, LockBind(u));
    assert s1 == Put(s.(lock := Some(u)), u, Reading);
    assert Apply(s1, ReadUnderLock(u)).acts == s.acts[u := Verified(s.auth, true)];
  }

  lemma PinsAndChecks(s: State, u: Thread, g: Gen)
    requires u in s.acts && (s.acts[u] == Binding(g) || s.acts[u] == Ready(g)) && s.gate.None? && s.auth == g
    ensures var s' := Apply(Apply(s, Pin(u)), Check(u));
            s'.acts == s.acts[u := Admitted(g)] && s'.gate.None? && s'.auth == s.auth && s'.marker == s.marker
  {
    var s1 := Apply(s, Pin(u));
    assert s1 == Put(s, u, Pinned(g, s.acts[u].Binding?));
    assert Apply(s1, Check(u)).acts == s.acts[u := Admitted(g)];
  }

  /** The resource is deleted n times. */
  lemma Advances(s: State, n: nat) returns (more: seq<Step>)
    ensures Sighted(more) && RunFrom(s, more) == s.(auth := s.auth + n)
  {
    more := [];
    for i := 0 to n
      invariant Sighted(more) && RunFrom(s, more) == s.(auth := s.auth + i)
    {
      One(RunFrom(s, more), Advance);
      Then(s, more, [Advance]);
      more := more + [Advance];
    }
  }

  /** A blind ensure of a generation yet to come: it moves the marker, a request of today enters, and tomorrow its own does. */
  lemma BlindOverlaps(s: State, t: Thread, g: Gen) returns (more: seq<Step>)
    requires LocksOk(s) && s.lock == Some(t) && t in s.acts && s.acts[t] == Verified(g, false)
    requires g > s.auth && (s.auth > 0 || g > 1)
    ensures Sighted(more) && Overlaps(RunFrom(s, more))
  {
    hide RunFrom, Apply;
    var a := Settles(s, t);
    var s1 := RunFrom(s, a);
    var b := Moves(s1, t, g, false);
    var s2 := RunFrom(s1, b);
    assert Drained(s2);
    var c := Advances(s2, if s.auth == 0 then 1 else 0);
    var s3 := RunFrom(s2, c);
    var u := Unused(s3.acts.Keys);
    var d := Enters(s3, u);
    var s4 := RunFrom(s3, d);
    var e := Advances(s4, g - s4.auth);
    var s5 := RunFrom(s4, e);
    Two(s5, Pin(t), Check(t));
    PinsAndChecks(s5, t, g);
    var s6 := RunFrom(s5, [Pin(t), Check(t)]);
    assert ActOf(s6, u) == Admitted(s3.auth) && ActOf(s6, t) == Admitted(g);
    Then(s, a, b);
    Then(s, a + b, c);
    Then(s, a + b + c, d);
    Then(s, a + b + c + d, e);
    Then(s, a + b + c + d + e, [Pin(t), Check(t)]);
    more := a + b + c + d + e + [Pin(t), Check(t)];
  }

  lemma Unused(used: set<Thread>) returns (u: Thread)
    ensures u !in used && forall v <- used :: v < u
    decreases |used|
  {
    u := 0;
    if used != {} {
      var v :| v in used;
      var w := Unused(used - {v});
      u := if w <= v then v + 1 else w;
      assert forall x <- used :: x == v || x in used - {v};
    }
  }

  /**
   Exactly when an ensure without the authority callback does no harm: unless the very first deletion
   is the one it names, every continuation of the run keeps generations apart if and only if the
   generation has been authoritative already.
   */
  lemma BlindExactly(steps: seq<Step>, t: Thread, g: Gen)
    requires RunOk(steps) && ActOf(Run(steps), t).Idle? && Run(steps).lock.None? && (Run(steps).auth > 0 || g != 1)
    ensures var s := Run(steps); var s1 := Apply(s, LockBlind(t, g));
            (forall more | OkFrom(s1, more) :: !Overlaps(RunFrom(s1, more))) <==> g <= s.auth
  {
    var s := Run(steps);
    var s1 := Apply(s, LockBlind(t, g));
    RunKeeps(steps);
    RunLocks(steps);
    assert s1 == Put(s.(lock := Some(t)), t, Verified(g, false));
    LocksKeep(s, LockBlind(t, g));
    if g <= s.auth {
      ApplyKeeps(s, LockBlind(t, g));
      hide Run, Inv, Apply, OkFrom, RunFrom, Overlaps;
      forall more | OkFrom(s1, more) ensures !Overlaps(RunFrom(s1, more)) {
        InvFrom(s1, more);
        InvApart(RunFrom(s1, more));
      }
    } else {
      hide Run, Inv, Apply, OkFrom, RunFrom, Overlaps, LocksOk;
      var more := BlindOverlaps(s1, t, g);
      SightedOk(s1, more);
    }
  }
}
