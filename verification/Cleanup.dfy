/**
 The lease on a resource's cleanup job (internal/control/cleanup.go): one row of resource_cleanups,
 the retirement floors, and any number of workers. Each transaction is one step; the clock is an
 input that only moves forward, and identifiers are numbered in the order they are drawn.
 */
module Cleanup {
  import opened Bytes

  type Worker = nat

  const LEASE_MS := 120000
  const MAX_ATTEMPTS := 10

  datatype Status = Pending | Running | Complete | Failed

  /** `token` 0 is the empty lease token. */
  datatype Row = Row(job: nat, scope: nat, status: Status, attempts: nat, token: nat, until: int, retryAt: int, updated: int)

  /** `ids`: the next identifier to draw. */
  datatype Table = Table(row: Option<Row>, floors: map<nat, nat>, now: nat, ids: nat)

  const Empty := Table(None, map[], 0, 1)

  /** What a worker keeps of the row it claimed. */
  datatype Handle = Handle(job: nat, scope: nat, token: nat, attempts: nat)

  // ------------------------------------------------------------------ the transactions

  /** DeleteResource: a new job replaces whatever row there is. */
  function Enqueued(t: Table, scope: nat): Table
  {
    t.(row := Some(Row(t.ids, scope, Pending, 0, 0, 0, 0, t.now)), ids := t.ids + 1)
  }

  predicate Claimable(t: Table, job: nat)
  {
    && t.row.Some? && t.row.value.job == job && t.row.value.attempts < MAX_ATTEMPTS
    && var r := t.row.value;
    (((r.status.Pending? || r.status.Failed?) && r.retryAt <= t.now) || (r.status.Running? && r.until <= t.now))
  }

  function Claimed(t: Table, job: nat): Table
  {
    if Claimable(t, job)
    then var r := t.row.value;
      t.(row := Some(r.(status := Running, attempts := r.attempts + 1, updated := t.now, token := t.ids, until := t.now + LEASE_MS)),
         ids := t.ids + 1)
    else t.(ids := t.ids + 1)
  }

  /** The condition of Finish and Continue: the handle's lease is the one in the row. */
  predicate Holds(t: Table, h: Handle)
  {
    t.row.Some? && t.row.value.job == h.job && t.row.value.token == h.token && t.row.value.status.Running?
  }

  /** Seconds to wait after the given number of attempts: doubling, up to 64. */
  function Backoff(attempts: nat): nat { Shifted(if attempts > 6 then 6 else attempts) }

  function Shifted(n: nat): nat { if n == 0 then 1 else 2 * Shifted(n - 1) }

  /** After a failure the wait doubles with every attempt, up to 64 seconds. */
  lemma BackoffDoubles(attempts: nat)
    ensures Backoff(attempts + 1) == if attempts < 6 then 2 * Backoff(attempts) else 64
  {
    assert Shifted(3) == 8 && Shifted(6) == 64;
  }

  lemma BackoffBounds(attempts: nat)
    ensures 1 <= Backoff(attempts) <= 64
  {
    assert Shifted(3) == 8 && Shifted(6) == 64 && Shifted(1) == 2 && Shifted(5) == 32;
  }

  function Floor(t: Table, scope: nat): nat { if scope in t.floors then t.floors[scope] else 0 }

  function Finished(t: Table, h: Handle, ok: bool, epoch: nat): Table
  {
    if !Holds(t, h) then t
    else
      var r := t.row.value.(status := if ok then Complete else Failed, updated := t.now, token := 0, until := 0,
                            retryAt := if ok then 0 else t.now + 1000 * Backoff(h.attempts));
      t.(row := Some(r),
         floors := if ok then t.floors[h.scope := Max(Floor(t, h.scope), epoch)] else t.floors)
  }

  function Continued(t: Table, h: Handle): Table
  {
    if !Holds(t, h) then t
    else
      var r := t.row.value;
      t.(row := Some(r.(status := Pending, attempts := if r.attempts > 0 then r.attempts - 1 else 0, token := 0, until := 0,
                        retryAt := 0, updated := t.now)))
  }

  predicate Retriable(t: Table)
  {
    t.row.Some? && var r := t.row.value; (r.status.Pending? || r.status.Failed? || (r.status.Running? && r.until <= t.now))
  }

  function Retried(t: Table): Table
  {
    if !Retriable(t) then t
    else t.(row := Some(t.row.value.(status := Pending, attempts := 0, token := 0, until := 0, retryAt := 0, updated := t.now)))
  }

  function Pruned(t: Table, before: int): Table
  {
    if t.row.Some? && t.row.value.status.Complete? && t.row.value.updated < before then t.(row := None) else t
  }

  /** The purge of an app removes the row, whatever state it is in. */
  function Purged(t: Table): Table { t.(row := None) }

  /** The row is under the lease with this token. */
  predicate Under(t: Table, token: nat) { t.row.Some? && t.row.value.status.Running? && t.row.value.token == token }

  /** Tokens are drawn before they are used; the budget holds; a lease is out exactly while running. */
  predicate RowOk(t: Table)
  {
    && t.ids > 0
    && (t.row.Some? ==>
          var r := t.row.value;
          && r.job < t.ids && r.token < t.ids && r.attempts <= MAX_ATTEMPTS
          && (r.status.Running? <==> r.token > 0) && (r.status.Running? ==> r.attempts > 0))
  }

  // ------------------------------------------------------------------ the table in place

  class Store {
    var row: Option<Row>
    var floors: map<nat, nat>
    var now: nat
    var ids: nat

    function Model(): Table
      reads this
    {
      Table(row, floors, now, ids)
    }

    ghost predicate Valid()
      reads this
    {
      RowOk(Model())
    }

    constructor ()
      ensures Valid() && Model() == Empty
    {
      row, floors, now, ids := None, map[], 0, 1;
    }

    /** A new deletion: a job of its own, free to be claimed, and every lease still out is void. */
    method Enqueue(scope: nat) returns (job: nat)
      requires Valid()
      modifies `row, `ids
      ensures Valid() && Model() == Enqueued(old(Model()), scope)
      ensures Claimable(Model(), job) && (old(row).Some? ==> old(row).value.job != job)
      ensures forall h :: !Holds(Model(), h)
    {
      job := ids;
      row := Some(Row(job, scope, Pending, 0, 0, 0, 0, now));
      ids := ids + 1;
    }

    /**
     A claim wins the job for two minutes under a token nobody else has, and takes it from whoever
     held it before. It never takes it from a lease that has not run out.
     */
    method Claim(job: nat) returns (claimed: bool, token: nat)
      requires Valid()
      modifies `row, `ids
      ensures Valid() && Model() == Claimed(old(Model()), job)
      ensures !claimed ==> row == old(row)
      ensures claimed ==> Under(Model(), token) && row.value.job == job && row.value.until == now + LEASE_MS
      ensures claimed ==> forall h | old(Holds(Model(), h)) :: !Holds(Model(), h)
      ensures claimed ==> row.value.attempts == old(row).value.attempts + 1 <= MAX_ATTEMPTS
      ensures old(row).Some? && old(row).value.status.Running? && old(row).value.until > now ==> !claimed
    {
      token := ids;
      ids := ids + 1;
      claimed := false;
      if row.Some? && row.value.job == job && row.value.attempts < 10 {
        var r := row.value;
        if ((r.status.Pending? || r.status.Failed?) && r.retryAt <= now) || (r.status.Running? && r.until <= now) {
          row := Some(r.(status := Running, attempts := r.attempts + 1, updated := now, token := token, until := now + 120000));
          claimed := true;
        }
      }
    }

    /** The read that follows a claim: the worker takes whatever lease the row is under then. */
    method ReadBack() returns (h: Option<Handle>)
      requires Valid()
      ensures row.Some? && row.value.status.Running? ==> h.Some? && Holds(Model(), h.value)
      ensures h.Some? && !Holds(Model(), h.value) ==> forall token :: !Under(Model(), token)
      ensures h.None? <==> row.None?
    {
      if row.None? { return None; }
      var r := row.value;
      return Some(Handle(r.job, r.scope, r.token, r.attempts));
    }

    /**
     Finishing under the row's lease ends it: the scope's floor has reached the epoch, or the job
     waits before its next attempt, at most 64 seconds. Under any other lease nothing changes.
     */
    method Finish(h: Handle, ok: bool, epoch: nat) returns (stale: bool)
      requires Valid()
      modifies `row, `floors
      ensures Valid() && Model() == Finished(old(Model()), h, ok, epoch)
      ensures stale <==> !old(Holds(Model(), h))
      ensures stale ==> Model() == old(Model())
      ensures !stale ==> forall g :: !Holds(Model(), g)
      ensures !stale && ok ==> row.value.status.Complete? && Floor(Model(), h.scope) >= epoch
      ensures forall scope :: Floor(Model(), scope) >= Floor(old(Model()), scope)
      ensures !stale && !ok ==> !Claimable(Model(), h.job) && now < row.value.retryAt <= now + 64000
    {
      var retryAt := 0;
      if !ok {
        var shift, wait := Min(h.attempts, 6), 1;
        var i := 0;
        while i < shift
          invariant 0 <= i <= shift && wait == Shifted(i)
        {
          wait := 2 * wait;
          i := i + 1;
        }
        retryAt := now + 1000 * wait;
      }
      BackoffBounds(h.attempts);
      stale := !(row.Some? && row.value.job == h.job && row.value.token == h.token && row.value.status.Running?);
      if stale { return; }
      row := Some(row.value.(status := if ok then Complete else Failed, updated := now, token := 0, until := 0, retryAt := retryAt));
      if ok {
        floors := floors[h.scope := if h.scope in floors then Max(floors[h.scope], epoch) else epoch];
      }
    }

    /** Progress under the row's lease gives the job back, unspent and free to be claimed at once. */
    method Continue(h: Handle) returns (stale: bool)
      requires Valid()
      modifies `row
      ensures Valid() && Model() == Continued(old(Model()), h)
      ensures stale <==> !old(Holds(Model(), h))
      ensures stale ==> row == old(row)
      ensures !stale ==> Claimable(Model(), h.job) && row.value.attempts == old(row).value.attempts - 1
      ensures !stale ==> forall g :: !Holds(Model(), g)
    {
      stale := !(row.Some? && row.value.job == h.job && row.value.token == h.token && row.value.status.Running?);
      if stale { return; }
      var r := row.value;
      row := Some(r.(status := Pending, attempts := Max(r.attempts - 1, 0), token := 0, until := 0, retryAt := 0, updated := now));
    }

    /** A retry refills the budget and frees the job at once, but touches neither a complete job nor a current lease. */
    method Retry() returns (stale: bool)
      requires Valid()
      modifies `row
      ensures Valid() && Model() == Retried(old(Model()))
      ensures stale ==> row == old(row)
      ensures !stale ==> row.Some? && row.value.attempts == 0 && Claimable(Model(), row.value.job) && forall g :: !Holds(Model(), g)
      ensures stale <==> old(row).None? || old(row).value.status.Complete? || (old(row).value.status.Running? && old(row).value.until > now)
    {
      stale := true;
      if row.Some? {
        var r := row.value;
        if r.status.Pending? || r.status.Failed? || (r.status.Running? && r.until <= now) {
          row := Some(r.(status := Pending, attempts := 0, token := 0, until := 0, retryAt := 0, updated := now));
          stale := false;
        }
      }
    }

    /** Pruning takes no lease away and makes no job claimable or not. */
    method Prune(before: int)
      requires Valid()
      modifies `row
      ensures Valid() && Model() == Pruned(old(Model()), before)
      ensures row != old(row) ==> row.None? && old(row).value.status.Complete? && old(row).value.updated < before
      ensures forall h :: Holds(Model(), h) <==> old(Holds(Model(), h))
      ensures forall job :: Claimable(Model(), job) <==> old(Claimable(Model(), job))
    {
      if row.Some? && row.value.status.Complete? && row.value.updated < before { row := None; }
    }

    /** The purge of the app: nobody holds the job any more, nobody can claim or retry it, and the floors stay. */
    method Purge()
      requires Valid()
      modifies `row
      ensures Valid() && Model() == Purged(old(Model()))
      ensures !Retriable(Model()) && (forall h :: !Holds(Model(), h)) && (forall job :: !Claimable(Model(), job))
      ensures forall scope :: Floor(Model(), scope) == Floor(old(Model()), scope)
    {
      row := None;
    }

    /** A lease that validates can be finished now, and until it runs out nobody can claim or retry the job. */
    method Validate(h: Handle) returns (ok: bool)
      requires Valid()
      ensures ok <==> Holds(Model(), h) && row.value.until > now
      ensures ok ==> !Retriable(Model()) && forall job :: !Claimable(Model(), job)
      ensures ok ==> forall g | Holds(Model(), g) :: g.token == h.token && g.job == h.job
    {
      ok := row.Some? && row.value.job == h.job && row.value.status.Running? && row.value.token == h.token && row.value.until > now;
    }
  }

  // ------------------------------------------------------------------ any number of workers

  datatype Phase = Out | JustClaimed | In(h: Handle)

  datatype World = World(t: Table, workers: map<Worker, Phase>)

  datatype Step =
    | Tick(ms: nat)
    | Enqueue(scope: nat)
    | Claim(w: Worker, job: nat)
    | Read(w: Worker)
    | Finish(w: Worker, ok: bool, epoch: nat)
    | Continue(w: Worker)
    | Retry
    | Prune(before: int)
    | Purge

  function PhaseOf(s: World, w: Worker): Phase { if w in s.workers then s.workers[w] else Out }

  function Apply(s: World, step: Step): World
  {
    match step
    case Tick(ms) => s.(t := s.t.(now := s.t.now + ms))
    case Enqueue(scope) => s.(t := Enqueued(s.t, scope))
    case Claim(w, job) =>
      World(Claimed(s.t, job), if Claimable(s.t, job) then s.workers[w := JustClaimed] else s.workers)
    case Read(w) =>
      if PhaseOf(s, w).JustClaimed? then
        var r := s.t.row;
        s.(workers := s.workers[w := if r.None? then Out else In(Handle(r.value.job, r.value.scope, r.value.token, r.value.attempts))])
      else s
    case Finish(w, ok, epoch) => if PhaseOf(s, w).In? then s.(t := Finished(s.t, PhaseOf(s, w).h, ok, epoch)) else s
    case Continue(w) => if PhaseOf(s, w).In? then s.(t := Continued(s.t, PhaseOf(s, w).h)) else s
    case Retry => s.(t := Retried(s.t))
    case Prune(before) => s.(t := Pruned(s.t, before))
    case Purge => s.(t := Purged(s.t))
  }

  function Run(steps: seq<Step>): World
  {
    if steps == [] then World(Empty, map[]) else Apply(Run(steps[..|steps| - 1]), steps[|steps| - 1])
  }

  // ------------------------------------------------------------------ the invariant

  ghost predicate Inv(s: World)
  {
    RowOk(s.t) && forall w | w in s.workers && s.workers[w].In? :: s.workers[w].h.token < s.t.ids
  }

  lemma ApplyKeeps(s: World, step: Step)
    requires Inv(s)
    ensures Inv(Apply(s, step)) && s.t.ids <= Apply(s, step).t.ids
  {
  }

  lemma {:induction false} RunKeeps(steps: seq<Step>)
    ensures Inv(Run(steps))
  {
    if steps != [] {
      RunKeeps(steps[..|steps| - 1]);
      ApplyKeeps(Run(steps[..|steps| - 1]), steps[|steps| - 1]);
    }
  }

  /** A job is never claimed more than ten times without progress or a reset, and a lease is out only while running. */
  lemma BudgetHolds(steps: seq<Step>)
    requires Run(steps).t.row.Some?
    ensures var r := Run(steps).t.row.value; r.attempts <= 10 && (r.status.Running? <==> r.token > 0)
  {
    RunKeeps(steps);
  }

  lemma Extend(steps: seq<Step>, more: seq<Step>)
    requires more != []
    ensures var front := more[..|more| - 1]; Run(steps + more) == Apply(Run(steps + front), more[|more| - 1])
  {
    var all, front := steps + more, more[..|more| - 1];
    assert all[..|all| - 1] == steps + front;
  }

  /** Once complete, a job's row changes only by being pruned, purged with its app or replaced by a new deletion. */
  lemma {:induction false} CompleteStays(steps: seq<Step>, more: seq<Step>)
    requires Run(steps).t.row.Some? && Run(steps).t.row.value.status.Complete?
    requires forall x <- more :: !x.Enqueue? && !x.Prune? && !x.Purge?
    ensures Run(steps + more).t.row == Run(steps).t.row
    decreases |more|
  {
    if more == [] {
      assert steps + more == steps;
    } else {
      var front := more[..|more| - 1];
      assert more[|more| - 1] in more && forall x <- front :: x in more;
      CompleteStays(steps, front);
      Extend(steps, more);
    }
  }

  /** The retirement floor of a scope never goes down. */
  lemma {:induction false} FloorNeverFalls(steps: seq<Step>, more: seq<Step>, scope: nat)
    ensures Floor(Run(steps).t, scope) <= Floor(Run(steps + more).t, scope)
    decreases |more|
  {
    if more == [] {
      assert steps + more == steps;
    } else {
      FloorNeverFalls(steps, more[..|more| - 1], scope);
      Extend(steps, more);
    }
  }

  // ------------------------------------------------------------------ leases

  /** A step that ends the lease of a worker's handle: Finish or Continue with an effect. */
  predicate Ends(s: World, step: Step, token: nat)
  {
    (step.Finish? || step.Continue?) && PhaseOf(s, step.w).In? && PhaseOf(s, step.w).h.token == token && Holds(s.t, PhaseOf(s, step.w).h)
  }

  /** Under one lease the row does not change, and a lease that is over never comes back. */
  lemma LeaseStep(s: World, step: Step, token: nat)
    requires Inv(s) && token < s.t.ids
    ensures Under(Apply(s, step).t, token) ==> Under(s.t, token) && Apply(s, step).t.row == s.t.row
  {
  }

  lemma {:induction false} LeaseIsFrozen(steps: seq<Step>, more: seq<Step>, token: nat)
    requires token < Run(steps).t.ids && Under(Run(steps + more).t, token)
    ensures Under(Run(steps).t, token) && Run(steps + more).t.row == Run(steps).t.row
    decreases |more|
  {
    if more == [] {
      assert steps + more == steps;
    } else {
      var front := more[..|more| - 1];
      Extend(steps, more);
      RunKeeps(steps + front);
      IdsGrow(steps, front);
      LeaseStep(Run(steps + front), more[|more| - 1], token);
      LeaseIsFrozen(steps, front, token);
    }
  }

  lemma {:induction false} IdsGrow(steps: seq<Step>, more: seq<Step>)
    ensures Run(steps).t.ids <= Run(steps + more).t.ids
    decreases |more|
  {
    if more == [] {
      assert steps + more == steps;
    } else {
      IdsGrow(steps, more[..|more| - 1]);
      Extend(steps, more);
      RunKeeps(steps + more[..|more| - 1]);
      ApplyKeeps(Run(steps + more[..|more| - 1]), more[|more| - 1]);
    }
  }

  /** Every claim is finished or continued at most once, by whoever holds its token. */
  lemma ClaimEndsOnce(steps: seq<Step>, step: Step, more: seq<Step>, again: Step, token: nat)
    requires Ends(Run(steps), step, token)
    ensures !Ends(Run(steps + [step] + more), again, token)
  {
    RunKeeps(steps);
    Extend(steps, [step]);
    assert [step][..0] == [] && steps + [] == steps;
    var s1 := steps + [step];
    IdsGrow(steps, [step]);
    if Under(Run(s1 + more).t, token) { LeaseIsFrozen(s1, more, token); }
  }

  /** A claim followed, however much later, by its Continue leaves the failure budget as it was. */
  lemma ContinueRestoresBudget(steps: seq<Step>, w: Worker, job: nat, more: seq<Step>, v: Worker)
    requires Claimable(Run(steps).t, job)
    requires Ends(Run(steps + [Claim(w, job)] + more), Continue(v), Run(steps).t.ids)
    ensures var s := Run(steps + [Claim(w, job)] + more);
            Apply(s, Continue(v)).t.row.value.attempts == Run(steps).t.row.value.attempts
  {
    Extend(steps, [Claim(w, job)]);
    assert [Claim(w, job)][..0] == [] && steps + [] == steps;
    LeaseIsFrozen(steps + [Claim(w, job)], more, Run(steps).t.ids);
  }

  /** Until its lease runs out a claim is displaced only by its own end, a new deletion or the purge of the app. */
  lemma {:induction false} LeaseLasts(steps: seq<Step>, more: seq<Step>, token: nat)
    requires Under(Run(steps).t, token) && Run(steps + more).t.now < Run(steps).t.row.value.until
    requires forall x <- more :: !x.Enqueue? && !x.Purge?
    requires forall i | 0 <= i < |more| :: !Ends(Run(steps + more[..i]), more[i], token)
    ensures Under(Run(steps + more).t, token) && Run(steps + more).t.row == Run(steps).t.row
    decreases |more|
  {
    if more == [] {
      assert steps + more == steps;
    } else {
      var front, last := more[..|more| - 1], more[|more| - 1];
      assert last in more && forall x <- front :: x in more;
      Extend(steps, more);
      forall i | 0 <= i < |front| ensures !Ends(Run(steps + front[..i]), front[i], token) {
        assert front[..i] == more[..i] && !Ends(Run(steps + more[..i]), more[i], token);
      }
      assert !Ends(Run(steps + front), last, token);
      RunKeeps(steps + front);
      var s := Run(steps + front);
      ClockMoves(s, last);
      hide Run, Apply, Ends, Under;
      LeaseLasts(steps, front, token);
      LeaseStays(s, last, token);
    }
  }

  lemma ClockMoves(s: World, step: Step)
    ensures s.t.now <= Apply(s, step).t.now
  {
  }

  lemma LeaseStays(s: World, step: Step, token: nat)
    requires Inv(s) && Under(s.t, token) && !step.Enqueue? && !step.Purge? && !Ends(s, step, token)
    requires Apply(s, step).t.now < s.t.row.value.until
    ensures Under(Apply(s, step).t, token) && Apply(s, step).t.row == s.t.row
  {
  }

  lemma OneStep(steps: seq<Step>, step: Step)
    ensures Run(steps + [step]) == Apply(Run(steps), step)
  {
    Extend(steps, [step]);
    assert [step][..0] == [] && steps + [] == steps;
  }

  /** Only the most recent claim can be finished or continued: no claim has been drawn after its token. */
  lemma OnlyLatestClaimEnds(steps: seq<Step>, w: Worker, job: nat, more: seq<Step>, step: Step, token: nat)
    requires Claimable(Run(steps).t, job) && Ends(Run(steps + [Claim(w, job)] + more), step, token)
    ensures token >= Run(steps).t.ids
  {
    OneStep(steps, Claim(w, job));
    if token < Run(steps).t.ids {
      LeaseIsFrozen(steps + [Claim(w, job)], more, token);
    }
  }

  /** A step that takes the row from the lease with this token: a claim, a retry, a new deletion, a purge, or its own end. */
  predicate Displaces(s: World, step: Step, token: nat)
  {
    || (step.Claim? && Claimable(s.t, step.job))
    || (step.Retry? && Retriable(s.t))
    || step.Enqueue?
    || step.Purge?
    || Ends(s, step, token)
  }

  lemma UnderStep(s: World, step: Step, token: nat)
    requires Inv(s) && Under(s.t, token) && token < s.t.ids
    ensures Under(Apply(s, step).t, token) <==> !Displaces(s, step, token)
  {
  }

  /** No step of the continuation has displaced the lease. */
  ghost predicate Undisturbed(steps: seq<Step>, more: seq<Step>, token: nat)
  {
    forall i | 0 <= i < |more| :: !Displaces(Run(steps + more[..i]), more[i], token)
  }

  lemma UndisturbedStep(steps: seq<Step>, more: seq<Step>, token: nat)
    requires more != []
    ensures var front := more[..|more| - 1];
            Undisturbed(steps, more, token) <==> Undisturbed(steps, front, token) && !Displaces(Run(steps + front), more[|more| - 1], token)
  {
    var front := more[..|more| - 1];
    hide Run, Displaces;
    assert forall i | 0 <= i < |front| :: front[..i] == more[..i] && front[i] == more[i];
    if Undisturbed(steps, front, token) && !Displaces(Run(steps + front), more[|more| - 1], token) {
      forall i | 0 <= i < |more| ensures !Displaces(Run(steps + more[..i]), more[i], token) {
        if i < |front| { assert !Displaces(Run(steps + front[..i]), front[i], token); }
      }
    }
    if Undisturbed(steps, more, token) {
      forall i | 0 <= i < |front| ensures !Displaces(Run(steps + front[..i]), front[i], token) {
        assert !Displaces(Run(steps + more[..i]), more[i], token);
      }
    }
  }

  /** A lease stands exactly as long as no step has displaced it. */
  lemma {:induction false} LeaseStandsExactly(steps: seq<Step>, more: seq<Step>, token: nat)
    requires Under(Run(steps).t, token)
    ensures Under(Run(steps + more).t, token) <==> Undisturbed(steps, more, token)
    decreases |more|
  {
    if more == [] {
      assert steps + more == steps;
    } else {
      var front, last := more[..|more| - 1], more[|more| - 1];
      RunKeeps(steps);
      RunKeeps(steps + front);
      hide Run, Displaces, Apply, Undisturbed;
      Extend(steps, more);
      IdsGrow(steps, front);
      var s := Run(steps + front);
      UndisturbedStep(steps, more, token);
      LeaseStandsExactly(steps, front, token);
      if Under(s.t, token) { UnderStep(s, last, token); } else { LeaseStep(s, last, token); }
    }
  }

  /** A worker reads back its own claim exactly when no step has displaced it, however late the read. */
  lemma ReadBackIsOwn(steps: seq<Step>, w: Worker, job: nat, more: seq<Step>)
    requires Claimable(Run(steps).t, job) && PhaseOf(Run(steps + [Claim(w, job)] + more), w).JustClaimed?
    ensures var p := PhaseOf(Apply(Run(steps + [Claim(w, job)] + more), Read(w)), w);
            p.In? && p.h.token == Run(steps).t.ids <==> Undisturbed(steps + [Claim(w, job)], more, Run(steps).t.ids)
  {
    RunKeeps(steps);
    RunKeeps(steps + [Claim(w, job)] + more);
    hide Run, Displaces;
    OneStep(steps, Claim(w, job));
    var begun, token := steps + [Claim(w, job)], Run(steps).t.ids;
    assert Under(Run(begun).t, token) && token > 0;
    LeaseStandsExactly(begun, more, token);
    var s := Run(begun + more);
    assert Under(s.t, token) <==> s.t.row.Some? && s.t.row.value.token == token;
    hide Claimable;
    ReadsRow(s, w);
  }

  lemma ReadsRow(s: World, w: Worker)
    requires PhaseOf(s, w).JustClaimed?
    ensures var p := PhaseOf(Apply(s, Read(w)), w);
            if s.t.row.Some? then p.In? && p.h.token == s.t.row.value.token else p.Out?
  {
  }

  /**
   The claim and the read of the row are two transactions. A worker that is held up between them for
   longer than the lease reads back another worker's claim, and can end it.
   */
  lemma LateReadTakesOver() returns (steps: seq<Step>)
    ensures var s := Run(steps); PhaseOf(s, 1).JustClaimed? && PhaseOf(s, 0).In? && PhaseOf(s, 0).h.token == 3
    ensures Ends(Run(steps), Finish(0, true, 0), 3)
  {
    steps := [];
    OneStep(steps, Enqueue(0));
    steps := steps + [Enqueue(0)];
    OneStep(steps, Claim(0, 1));
    steps := steps + [Claim(0, 1)];
    var r := Row(1, 0, Running, 1, 2, LEASE_MS, 0, 0);
    assert Run(steps) == World(Table(Some(r), map[], 0, 3), map[0 := JustClaimed]);
    hide Run;
    OneStep(steps, Tick(LEASE_MS));
    steps := steps + [Tick(LEASE_MS)];
    OneStep(steps, Claim(1, 1));
    steps := steps + [Claim(1, 1)];
    OneStep(steps, Read(0));
    steps := steps + [Read(0)];
  }
}
