/**
 The per-key locks of the file-system bucket (internal/bucket/fsbucket.go): lock objects are made on
 demand, counted, and forgotten when nobody uses them. Every section under locksMu is one step, and
 so is taking or leaving a key's own mutex.
 */
module KeyLocks {
  import opened Bytes
  import opened Lex
  import Paths

  type Id = nat
  type Thread = nat

  /** Where a thread is between acquire and the end of its release. */
  datatype Phase =
    | Out
    | Waiting(key: Key, id: Id)
    | Holding(key: Key, id: Id)
    | Leaving(key: Key, id: Id)

  /** A lock object: its count of users and the thread inside its mutex. */
  datatype Lock = Lock(refs: nat, owner: Option<Thread>)

  datatype State = State(locks: map<Key, Id>, objects: map<Id, Lock>, threads: map<Thread, Phase>, next: Id)

  const Init := State(map[], map[], map[], 0)

  datatype Step = Acquire(t: Thread, k: Key) | Enter(t: Thread) | Leave(t: Thread) | Release(t: Thread)

  function PhaseOf(s: State, t: Thread): Phase { if t in s.threads then s.threads[t] else Out }

  function Put(s: State, t: Thread, p: Phase): State { s.(threads := s.threads[t := p]) }

  function Refs(s: State, id: Id): nat { if id in s.objects then s.objects[id].refs else 0 }

  function Owner(s: State, id: Id): Option<Thread> { if id in s.objects then s.objects[id].owner else None }

  function DoAcquire(s: State, t: Thread, k: Key): State
  {
    if k in s.locks then
      var id := s.locks[k];
      Put(s.(objects := s.objects[id := Lock(Refs(s, id) + 1, Owner(s, id))]), t, Waiting(k, id))
    else
      Put(State(s.locks[k := s.next], s.objects[s.next := Lock(1, None)], s.threads, s.next + 1), t, Waiting(k, s.next))
  }

  function DoRelease(s: State, t: Thread, k: Key, id: Id): State
  {
    var n := if Refs(s, id) > 0 then Refs(s, id) - 1 else 0;
    Put(s.(objects := s.objects[id := Lock(n, Owner(s, id))], locks := if n == 0 then s.locks - {k} else s.locks), t, Out)
  }

  function Apply(s: State, step: Step): State
  {
    var t := step.t;
    match (step, PhaseOf(s, t))
    case (Acquire(_, k), Out) => DoAcquire(s, t, k)
    case (Enter(_), Waiting(k, id)) =>
      if Owner(s, id).None? then Put(s.(objects := s.objects[id := Lock(Refs(s, id), Some(t))]), t, Holding(k, id)) else s
    case (Leave(_), Holding(k, id)) => Put(s.(objects := s.objects[id := Lock(Refs(s, id), None)]), t, Leaving(k, id))
    case (Release(_), Leaving(k, id)) => DoRelease(s, t, k, id)
    case _ => s
  }

  function Run(steps: seq<Step>): State
  {
    if steps == [] then Init else Apply(Run(steps[..|steps| - 1]), steps[|steps| - 1])
  }

  // ------------------------------------------------------------------ the invariant

  /** The threads counted by a lock object. */
  function Users(s: State, id: Id): set<Thread> { set t | t in s.threads && !s.threads[t].Out? && s.threads[t].id == id }

  /** Every thread on a key uses the object the map names, and inside its mutex exactly as the object says. */
  predicate ThreadOk(s: State, t: Thread, p: Phase)
  {
    !p.Out? ==> p.key in s.locks && s.locks[p.key] == p.id && (p.Holding? <==> Owner(s, p.id) == Some(t))
  }

  ghost predicate ThreadsOk(s: State) { forall t <- s.threads :: ThreadOk(s, t, s.threads[t]) }

  ghost predicate LocksOk(s: State)
  {
    && (forall k <- s.locks :: s.locks[k] < s.next && Refs(s, s.locks[k]) > 0)
    && (forall j, k | j in s.locks && k in s.locks && j != k :: s.locks[j] != s.locks[k])
    && (forall k <- s.locks :: Owner(s, s.locks[k]).Some? ==> PhaseOf(s, Owner(s, s.locks[k]).value) == Holding(k, s.locks[k]))
  }

  ghost predicate CountsOk(s: State) { forall k <- s.locks :: Refs(s, s.locks[k]) == |Users(s, s.locks[k])| }

  ghost predicate Inv(s: State) { ThreadsOk(s) && LocksOk(s) && CountsOk(s) }

  predicate Uses(p: Phase, id: Id) { !p.Out? && p.id == id }

  lemma Joins(s: State, s': State, t: Thread, p': Phase, id: Id)
    requires s'.threads == s.threads[t := p'] && Uses(p', id) && !Uses(PhaseOf(s, t), id)
    ensures |Users(s', id)| == |Users(s, id)| + 1
  {
    assert Users(s', id) == Users(s, id) + {t};
  }

  lemma Quits(s: State, s': State, t: Thread, p': Phase, id: Id)
    requires s'.threads == s.threads[t := p'] && !Uses(p', id) && Uses(PhaseOf(s, t), id)
    ensures |Users(s', id)| == |Users(s, id)| - 1
  {
    assert t in Users(s, id);
    assert Users(s', id) == Users(s, id) - {t};
  }

  lemma Stays(s: State, s': State, t: Thread, p': Phase, id: Id)
    requires s'.threads == s.threads[t := p'] && Uses(p', id) == Uses(PhaseOf(s, t), id)
    ensures Users(s', id) == Users(s, id)
  {
  }

  /** Other threads keep their object as long as its entry and owner stay. */
  lemma OthersOk(s: State, s': State, t: Thread, p': Phase)
    requires ThreadsOk(s) && s'.threads == s.threads[t := p'] && ThreadOk(s', t, p')
    requires forall u | u in s.threads && u != t && !s.threads[u].Out? ::
               && s.threads[u].key in s'.locks && s'.locks[s.threads[u].key] == s.threads[u].id
               && (Owner(s', s.threads[u].id) == Some(u) <==> Owner(s, s.threads[u].id) == Some(u))
    ensures ThreadsOk(s')
  {
    forall u | u in s'.threads ensures ThreadOk(s', u, s'.threads[u]) { if u != t { assert ThreadOk(s, u, s.threads[u]); } }
  }

  lemma KnownIds(s: State)
    requires ThreadsOk(s) && LocksOk(s)
    ensures forall u | u in s.threads && !s.threads[u].Out? ::
              s.threads[u].key in s.locks && s.locks[s.threads[u].key] == s.threads[u].id < s.next
  {
    forall u | u in s.threads && !s.threads[u].Out?
      ensures s.threads[u].key in s.locks && s.locks[s.threads[u].key] == s.threads[u].id < s.next {
      assert ThreadOk(s, u, s.threads[u]);
    }
  }

  lemma JoinKeeps(s: State, t: Thread, k: Key)
    requires Inv(s) && PhaseOf(s, t).Out? && k in s.locks
    ensures Inv(DoAcquire(s, t, k))
  {
    var s', p' := DoAcquire(s, t, k), Waiting(k, s.locks[k]);
    KnownIds(s);
    assert LocksOk(s') by { hide CountsOk, ThreadsOk; }
    assert Owner(s, p'.id) != Some(t);
    OthersOk(s, s', t, p');
    forall j | j in s'.locks ensures Refs(s', s'.locks[j]) == |Users(s', s'.locks[j])| {
      assert Refs(s, s.locks[j]) == |Users(s, s.locks[j])|;
      if j == k { Joins(s, s', t, p', p'.id); } else { Stays(s, s', t, p', s.locks[j]); }
    }
  }

  lemma NewKeeps(s: State, t: Thread, k: Key)
    requires Inv(s) && PhaseOf(s, t).Out? && k !in s.locks
    ensures Inv(DoAcquire(s, t, k))
  {
    var s', p' := DoAcquire(s, t, k), Waiting(k, s.next);
    KnownIds(s);
    NewLocks(s, t, k);
    NewCounts(s, t, k);
    hide LocksOk, CountsOk;
    OthersOk(s, s', t, p');
  }

  lemma NewLocks(s: State, t: Thread, k: Key)
    requires LocksOk(s) && PhaseOf(s, t).Out? && k !in s.locks
    ensures LocksOk(DoAcquire(s, t, k))
  {
  }

  lemma NewCounts(s: State, t: Thread, k: Key)
    requires Inv(s) && PhaseOf(s, t).Out? && k !in s.locks
    ensures CountsOk(DoAcquire(s, t, k))
  {
    var s', p' := DoAcquire(s, t, k), Waiting(k, s.next);
    NoUsers(s);
    assert forall j <- s.locks :: s.locks[j] < s.next;
    hide ThreadsOk, LocksOk, Users;
    forall j | j in s'.locks ensures Refs(s', s'.locks[j]) == |Users(s', s'.locks[j])| {
      if j == k {
        Joins(s, s', t, p', s.next);
      } else {
        assert Refs(s, s.locks[j]) == |Users(s, s.locks[j])|;
        Stays(s, s', t, p', s.locks[j]);
      }
    }
  }

  lemma AcquireKeeps(s: State, t: Thread, k: Key)
    requires Inv(s) && PhaseOf(s, t).Out?
    ensures Inv(DoAcquire(s, t, k))
  {
    hide Inv;
    if k in s.locks { JoinKeeps(s, t, k); } else { NewKeeps(s, t, k); }
  }

  lemma NoUsers(s: State)
    requires ThreadsOk(s) && LocksOk(s)
    ensures Users(s, s.next) == {}
  {
    KnownIds(s);
  }

  lemma EnterKeeps(s: State, t: Thread)
    requires Inv(s) && PhaseOf(s, t).Waiting? && Owner(s, PhaseOf(s, t).id).None?
    ensures Inv(Apply(s, Enter(t)))
  {
    MutexKeeps(s, t, Holding(PhaseOf(s, t).key, PhaseOf(s, t).id), Some(t));
  }

  lemma LeaveKeeps(s: State, t: Thread)
    requires Inv(s) && PhaseOf(s, t).Holding?
    ensures Inv(Apply(s, Leave(t)))
  {
    MutexKeeps(s, t, Leaving(PhaseOf(s, t).key, PhaseOf(s, t).id), None);
  }

  /** Taking or leaving the mutex changes no count. */
  lemma MutexKeeps(s: State, t: Thread, p': Phase, owner: Option<Thread>)
    requires Inv(s) && !PhaseOf(s, t).Out? && !p'.Out? && p'.key == PhaseOf(s, t).key && p'.id == PhaseOf(s, t).id
    requires (p'.Holding? && owner == Some(t) && Owner(s, p'.id).None?) || (p'.Leaving? && owner.None? && PhaseOf(s, t).Holding?)
    ensures Inv(Put(s.(objects := s.objects[p'.id := Lock(Refs(s, p'.id), owner)]), t, p'))
  {
    var s' := Put(s.(objects := s.objects[p'.id := Lock(Refs(s, p'.id), owner)]), t, p');
    assert ThreadOk(s, t, s.threads[t]);
    KnownIds(s);
    assert LocksOk(s') by { hide CountsOk, ThreadsOk; }
    OthersOk(s, s', t, p');
    forall j | j in s'.locks ensures Refs(s', s'.locks[j]) == |Users(s', s'.locks[j])| {
      assert Refs(s, s.locks[j]) == |Users(s, s.locks[j])|;
      Stays(s, s', t, p', s.locks[j]);
    }
  }

  lemma ReleaseKeeps(s: State, t: Thread)
    requires Inv(s) && PhaseOf(s, t).Leaving?
    ensures Inv(DoRelease(s, t, PhaseOf(s, t).key, PhaseOf(s, t).id))
  {
    var k, id := PhaseOf(s, t).key, PhaseOf(s, t).id;
    var s' := DoRelease(s, t, k, id);
    KnownIds(s);
    assert ThreadOk(s, t, s.threads[t]) && Owner(s, id) != Some(t);
    assert Refs(s, id) == |Users(s, id)|;
    Quits(s, s', t, Out, id);
    if Refs(s, id) == 1 { LastUser(s, s', t, id); }
    assert LocksOk(s') by { ReleaseLocks(s, t); }
    OthersOk(s, s', t, Out);
    forall j | j in s'.locks ensures Refs(s', s'.locks[j]) == |Users(s', s'.locks[j])| {
      assert Refs(s, s.locks[j]) == |Users(s, s.locks[j])|;
      if j != k { Stays(s, s', t, Out, s.locks[j]); }
    }
  }

  lemma ReleaseLocks(s: State, t: Thread)
    requires LocksOk(s) && PhaseOf(s, t).Leaving? && PhaseOf(s, t).key in s.locks && s.locks[PhaseOf(s, t).key] == PhaseOf(s, t).id
    ensures LocksOk(DoRelease(s, t, PhaseOf(s, t).key, PhaseOf(s, t).id))
  {
  }

  lemma LastUser(s: State, s': State, t: Thread, id: Id)
    requires s'.threads == s.threads[t := Out] && |Users(s', id)| == 0
    ensures forall u | u in s.threads && u != t && !s.threads[u].Out? :: s.threads[u].id != id
  {
    assert Users(s', id) == {};
    forall u | u in s.threads && u != t && !s.threads[u].Out? ensures s.threads[u].id != id {
      assert s'.threads[u] == s.threads[u];
      assert u !in Users(s', id);
    }
  }

  lemma ApplyKeeps(s: State, step: Step)
    requires Inv(s)
    ensures Inv(Apply(s, step))
  {
    var t := step.t;
    hide Inv, DoAcquire, DoRelease;
    match (step, PhaseOf(s, t))
    case (Acquire(_, k), Out) => AcquireKeeps(s, t, k);
    case (Enter(_), Waiting(_, id)) => if Owner(s, id).None? { EnterKeeps(s, t); }
    case (Leave(_), Holding(_, _)) => LeaveKeeps(s, t);
    case (Release(_), Leaving(_, _)) => ReleaseKeeps(s, t);
    case _ =>
  }

  lemma {:induction false} RunKeeps(steps: seq<Step>)
    ensures Inv(Run(steps))
  {
    if steps != [] {
      RunKeeps(steps[..|steps| - 1]);
      ApplyKeeps(Run(steps[..|steps| - 1]), steps[|steps| - 1]);
    }
  }

  /** Operations on one key exclude each other, although its lock object comes and goes. */
  lemma OneHolder(steps: seq<Step>, t: Thread, u: Thread)
    requires PhaseOf(Run(steps), t).Holding? && PhaseOf(Run(steps), u).Holding? && PhaseOf(Run(steps), t).key == PhaseOf(Run(steps), u).key
    ensures t == u
  {
    RunKeeps(steps);
    var s := Run(steps);
    assert ThreadOk(s, t, s.threads[t]) && ThreadOk(s, u, s.threads[u]);
  }

  predicate Holds(s: State, t: Thread, k: Key) { PhaseOf(s, t).Holding? && PhaseOf(s, t).key == k }

  /** A thread alone with a key comes to hold it, whatever else is held. */
  lemma TakesFree(steps: seq<Step>, t: Thread, k: Key) returns (steps': seq<Step>)
    requires PhaseOf(Run(steps), t).Out? && k !in Run(steps).locks
    ensures Holds(Run(steps'), t, k) && forall u | u != t :: PhaseOf(Run(steps'), u) == PhaseOf(Run(steps), u)
    ensures Run(steps').locks.Keys == Run(steps).locks.Keys + {k}
  {
    var one := steps + [Acquire(t, k)];
    steps' := one + [Enter(t)];
    assert one[..|one| - 1] == steps && steps'[..|steps'| - 1] == one;
  }

  /** Two keys exclude each other exactly when they are the same, byte for byte. */
  lemma ExclusionExactly(k: Key, k': Key)
    ensures (forall steps, t, u | Holds(Run(steps), t, k) && Holds(Run(steps), u, k') :: t == u) <==> k == k'
  {
    if k == k' {
      forall steps, t, u | Holds(Run(steps), t, k) && Holds(Run(steps), u, k') ensures t == u { OneHolder(steps, t, u); }
    } else {
      assert Run([]) == Init;
      var steps := TakesFree([], 1, k);
      var more := TakesFree(steps, 2, k');
      assert Holds(Run(more), 1, k) && Holds(Run(more), 2, k');
    }
  }

  /** So a file has one user at a time among keys that cleaning leaves alone. */
  lemma OneHolderPerFile(steps: seq<Step>, t: Thread, u: Thread)
    requires PhaseOf(Run(steps), t).Holding? && PhaseOf(Run(steps), u).Holding?
    requires Paths.Plain(PhaseOf(Run(steps), t).key) && Paths.Plain(PhaseOf(Run(steps), u).key)
    requires Paths.FileOf(PhaseOf(Run(steps), t).key) == Paths.FileOf(PhaseOf(Run(steps), u).key)
    ensures t == u
  {
    Paths.PlainKeysDiffer(PhaseOf(Run(steps), t).key, PhaseOf(Run(steps), u).key);
    OneHolder(steps, t, u);
  }

  /** Two names of one file take two locks, and both are held at once. */
  lemma TwoHoldersOneFile(k: Key, b: Byte) returns (steps: seq<Step>, t: Thread, u: Thread)
    requires b != Paths.SLASH && b != Paths.DOT
    ensures t != u && PhaseOf(Run(steps), t).Holding? && PhaseOf(Run(steps), u).Holding?
    ensures Paths.FileOf(PhaseOf(Run(steps), t).key) == Paths.FileOf(PhaseOf(Run(steps), u).key)
  {
    Paths.OneFileTwoNames(k, b);
    var one, two := k + [Paths.SLASH] + [b], k + [Paths.SLASH] + [Paths.SLASH] + [b];
    hide Paths.FileOf, Run;
    ExclusionExactly(one, two);
    steps, t, u :| Holds(Run(steps), t, one) && Holds(Run(steps), u, two) && t != u;
  }

  /** The map holds an entry for a key exactly while some thread uses the key. */
  lemma NoLeak(steps: seq<Step>, k: Key)
    ensures k in Run(steps).locks <==> exists t :: !PhaseOf(Run(steps), t).Out? && PhaseOf(Run(steps), t).key == k
  {
    RunKeeps(steps);
    var s := Run(steps);
    hide Run;
    if k in s.locks {
      assert Users(s, s.locks[k]) != {};
      UserOf(s, k);
    }
    forall t | !PhaseOf(s, t).Out? && PhaseOf(s, t).key == k ensures k in s.locks { assert ThreadOk(s, t, s.threads[t]); }
  }

  lemma UserOf(s: State, k: Key)
    requires Inv(s) && k in s.locks && Users(s, s.locks[k]) != {}
    ensures exists t :: !PhaseOf(s, t).Out? && PhaseOf(s, t).key == k
  {
    KnownIds(s);
    var t :| t in Users(s, s.locks[k]);
    assert PhaseOf(s, t) == s.threads[t];
  }
}
