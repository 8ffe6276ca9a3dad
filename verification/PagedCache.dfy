/**
 Opening, hydrating, checkpointing, closing and forgetting one cell's local file, with a crash
 possible between any two file operations (internal/cellstore/cellstore.go, pagedmarker.go).

 The open path of a scope is serialized by the store's gate (StoreGate), so one program counter is
 enough; the background hydrator and a checkpoint's marker rewrite interleave with the live handle.
 A write needs no request, so it may also land while Close is under way, until the database is closed.
 Writing a marker truncates the file first and then writes the text, and a crash in between leaves
 any prefix. The page source and the restore hook are inputs of the steps: a restore makes a
 complete file appear at once (it is written aside and renamed), Prepare makes a sparse one.
 */
module PagedCache {
  import opened Bytes
  import opened Decimal
  import PM = PagedMarker

  /**
   `sparse`: pages are missing. `txid`: the newest txid the file is known to hold, from its source or
   from writes (0: not known). `acked`: the newest one this node acknowledged into it. `late`: a
   write landed in it after its last Close had read the txid and before the database was closed.
   */
  datatype File = File(sparse: bool, txid: nat, acked: nat, late: bool)

  /** A page source; txid 0 stands for a source that does not tell. */
  datatype Source = Source(pageSize: int, commit: int, txid: nat)

  datatype Lookup = NoHook | LookupFailed | NoSource | Found(src: Source)

  datatype Hydration = NoHydrate | HydrateFailed | NothingThere | Restored

  /** Why a file set is being removed. */
  datatype Why = Forgotten | Torn | FailedAttach(src: Source)

  /** A checkpoint's rewrite of the marker under a live handle. */
  datatype Job = NoJob | Cutting(pageSize: int, commit: int, txid: nat) | Writing(pageSize: int, commit: int, txid: nat)

  datatype Pc =
    | Closed
    | Leftover(txid: nat)                                         // marker without a file: remove it
    | Cold(missing: bool, was: Option<PM.Reading>, txid: nat)     // ask for a page source
    | Marking(src: Source, reuse: bool, seen: nat)                // truncate the marker (seen: the txid it had)
    | Filling(src: Source, reuse: bool, seen: nat)                // write the dirty marker
    | Attaching(src: Source, reuse: bool, seen: nat)              // Register or Prepare
    | Dropping(why: Why)                                          // remove the database
    | Unmarking(why: Why)                                         // then the marker
    | Missing                                                     // restore
    | Opening(paged: bool)                                        // openCell
    | Open(paged: bool, job: Job)
    | Draining(txid: nat, known: bool)                            // Close: the txid is read, the database still open
    | Sealing(pageSize: int, commit: int, txid: nat)              // Close: truncate the marker
    | Sealed(pageSize: int, commit: int, txid: nat)               // Close: write the clean marker
    | Releasing

  datatype State = State(db: Option<File>, marker: Option<string>, registered: bool, pc: Pc)

  const Init := State(None, None, false, Closed)

  datatype Step =
    | Begin
    | DropLeftover(ok: bool)
    | Look(found: Lookup)
    | Cut(ok: bool)
    | Fill(n: nat)
    | Attach(ok: bool, touched: bool)
    | DropDb(ok: bool)
    | DropMarker(ok: bool)
    | Hydrate(result: Hydration)
    | OpenCell(ok: bool)
    | Write(t: nat)
    | Complete
    | Unmark
    | Persist(t: nat)
    | Close(t: nat, known: bool)
    | CloseDb(ok: bool)
    | Release
    | Forget
    | Crash(n: nat)

  function ReadOf(marker: Option<string>): Option<PM.Reading>
  {
    if marker.Some? then Some(PM.Read(marker.value)) else None
  }

  predicate IsClean(r: Option<PM.Reading>) { r.Some? && r.value.Valid? && r.value.clean }

  predicate IsDirty(r: Option<PM.Reading>) { r.Some? && r.value.Valid? && !r.value.clean }

  function Prefix(text: string, n: nat): string { if n < |text| then text[..n] else text }

  function TxOf(r: PM.Reading): nat { if r.Valid? then r.txid else 0 }

  // ------------------------------------------------------------------ the open path

  function DoBegin(s: State): State
  {
    var r := ReadOf(s.marker);
    if !s.pc.Closed? then s
    else if s.db.None? && r.Some? then s.(pc := Leftover(TxOf(r.value)))
    else if IsDirty(r) then s
    else if s.db.None? then s.(pc := Cold(true, None, 0))
    else if r.Some? then s.(pc := Cold(false, r, TxOf(r.value)))
    else s.(pc := Opening(false))
  }

  function DoDropLeftover(s: State, ok: bool): State
  {
    if !s.pc.Leftover? then s
    else s.(marker := if ok then None else s.marker, pc := Cold(true, None, s.pc.txid))
  }

  predicate Older(src: Source, txid: nat) { txid > 0 && src.txid > 0 && src.txid < txid }

  predicate Reuses(was: Option<PM.Reading>, src: Source, txid: nat)
  {
    && was.Some? && was.value.Valid? && was.value.pageSize == src.pageSize && was.value.commit == src.commit
    && !(txid > 0 && src.txid > 0 && txid != src.txid)
  }

  function DoLook(s: State, found: Lookup): State
  {
    if !s.pc.Cold? then s
    else
      var was, txid := s.pc.was, s.pc.txid;
      var asks := s.pc.missing || (was.Some? && was.value.Valid?);
      if asks && found.LookupFailed? then s.(pc := Closed)
      else if asks && found.Found? then
        if Older(found.src, txid) then s.(pc := Closed)
        else s.(pc := Marking(found.src, !s.pc.missing && Reuses(was, found.src, txid), txid))
      else if was.Some? then s.(pc := if was.value.Valid? then Closed else Dropping(Torn))
      else s.(pc := Missing)
  }

  function DirtyText(src: Source): string { PM.Render(src.pageSize, src.commit, src.txid, false) }

  function DoCut(s: State, ok: bool): State
  {
    match s.pc
    case Marking(src, reuse, seen) => if ok then s.(marker := Some(""), pc := Filling(src, reuse, seen)) else s.(pc := Closed)
    case Sealing(ps, cm, t) => if ok then s.(marker := Some(""), pc := Sealed(ps, cm, t)) else s.(pc := Releasing)
    case Open(paged, Cutting(ps, cm, t)) =>
      if ok then s.(marker := Some(""), pc := Open(paged, Writing(ps, cm, t))) else s.(pc := Open(paged, NoJob))
    case _ => s
  }

  function DoFill(s: State, n: nat): State
  {
    match s.pc
    case Filling(src, reuse, seen) =>
      var text := DirtyText(src);
      s.(marker := Some(Prefix(text, n)), pc := if n >= |text| then Attaching(src, reuse, seen) else Closed)
    case Sealed(ps, cm, t) => s.(marker := Some(Prefix(PM.Render(ps, cm, t, true), n)), pc := Releasing)
    case Open(paged, Writing(ps, cm, t)) =>
      s.(marker := Some(Prefix(PM.Render(ps, cm, t, false), n)), pc := Open(paged, NoJob))
    case _ => s
  }

  /** Register keeps the file; Prepare makes it a sparse copy of the source. */
  function DoAttach(s: State, ok: bool, touched: bool): State
  {
    if !s.pc.Attaching? then s
    else
      var txid := s.pc.src.txid;
      var db := if !s.pc.reuse && (ok || touched) then Some(File(true, txid, 0, false))
                else if s.pc.reuse && ok && s.db.Some? then Some(s.db.value.(txid := Max(s.db.value.txid, txid)))
                else s.db;
      if ok then s.(db := db, registered := true, pc := Opening(true))
      else s.(db := db, pc := Dropping(FailedAttach(s.pc.src)))
  }

  function DoDropDb(s: State, ok: bool): State
  {
    if !s.pc.Dropping? then s
    else if ok then s.(db := None, pc := Unmarking(s.pc.why))
    else s.(pc := Closed)
  }

  function DoDropMarker(s: State, ok: bool): State
  {
    if !s.pc.Unmarking? then s
    else if ok then s.(marker := None, pc := if s.pc.why.Torn? then Missing else Closed)
    else s.(pc := Closed)
  }

  function DoHydrate(s: State, result: Hydration): State
  {
    if !s.pc.Missing? then s
    else
      match result
      case NoHydrate => s.(pc := if s.marker.Some? then Closed else Opening(false))
      case HydrateFailed => s.(pc := Closed)
      case NothingThere => s.(pc := Opening(false))
      case Restored => s.(db := Some(File(false, 0, 0, false)), pc := Opening(false))
  }

  function DoOpenCell(s: State, ok: bool): State
  {
    if !s.pc.Opening? then s
    else
      var paged := s.pc.paged || s.registered;
      if !paged && s.marker.Some? then s.(pc := Closed)
      else if !ok then s.(registered := s.registered && !s.pc.paged, pc := Closed)
      else s.(db := if s.db.None? then Some(File(false, 0, 0, false)) else s.db, pc := Open(paged, NoJob))
  }

  // ------------------------------------------------------------------ the live handle and its end

  /** Tx does not look whether Close has begun. */
  function DoWrite(s: State, t: nat): State
  {
    if (s.pc.Open? || s.pc.Draining?) && s.db.Some? && t > s.db.value.txid
    then s.(db := Some(s.db.value.(txid := t, acked := t, late := s.db.value.late || s.pc.Draining?)))
    else s
  }

  predicate Paged(pc: Pc) { pc.Draining? || (pc.Open? && pc.paged) }

  /** The hydrator or a snapshot has materialized every page. */
  function DoComplete(s: State): State
  {
    if Paged(s.pc) && s.db.Some? then s.(db := Some(s.db.value.(sparse := false))) else s
  }

  function DoUnmark(s: State): State
  {
    if Paged(s.pc) && s.db.Some? && !s.db.value.sparse then s.(marker := None) else s
  }

  /** The txid the handle reads is at least the newest known one. */
  predicate Knows(s: State, t: nat) { s.db.Some? && s.db.value.txid <= t <= MAX_UINT64 }

  function DoPersist(s: State, t: nat): State
  {
    var r := ReadOf(s.marker);
    if s.pc.Open? && s.pc.paged && s.pc.job.NoJob? && r.Some? && r.value.Valid? && Knows(s, t)
    then s.(pc := Open(true, Cutting(r.value.pageSize, r.value.commit, t)))
    else s
  }

  /** Close first reads the txid, if it can. */
  function DoClose(s: State, t: nat, known: bool): State
  {
    if !s.pc.Open? || !s.pc.job.NoJob? || s.db.None? then s
    else if !s.pc.paged then s.(pc := Closed)
    else if known && !Knows(s, t) then s
    else s.(db := Some(s.db.value.(txid := if known then t else s.db.value.txid, late := false)), pc := Draining(t, known))
  }

  /** Then it closes the database; the clean marker that follows has the txid read before. */
  function DoCloseDb(s: State, ok: bool): State
  {
    var r := ReadOf(s.marker);
    if !s.pc.Draining? then s
    else if ok && s.pc.known && r.Some? && r.value.Valid? then s.(pc := Sealing(r.value.pageSize, r.value.commit, s.pc.txid))
    else s.(pc := Releasing)
  }

  function DoRelease(s: State): State
  {
    if s.pc.Releasing? then s.(registered := false, pc := Closed) else s
  }

  function DoForget(s: State): State
  {
    if s.pc.Closed? then s.(pc := Dropping(Forgotten)) else s
  }

  function CrashMarker(s: State, n: nat): Option<string>
  {
    match s.pc
    case Filling(src, _, _) => Some(Prefix(DirtyText(src), n))
    case Sealed(ps, cm, t) => Some(Prefix(PM.Render(ps, cm, t, true), n))
    case Open(_, Writing(ps, cm, t)) => Some(Prefix(PM.Render(ps, cm, t, false), n))
    case _ => s.marker
  }

  function DoCrash(s: State, n: nat): State
  {
    State(s.db, CrashMarker(s, n), false, Closed)
  }

  function Apply(s: State, step: Step): State
  {
    match step
    case Begin => DoBegin(s)
    case DropLeftover(ok) => DoDropLeftover(s, ok)
    case Look(found) => DoLook(s, found)
    case Cut(ok) => DoCut(s, ok)
    case Fill(n) => DoFill(s, n)
    case Attach(ok, touched) => DoAttach(s, ok, touched)
    case DropDb(ok) => DoDropDb(s, ok)
    case DropMarker(ok) => DoDropMarker(s, ok)
    case Hydrate(result) => DoHydrate(s, result)
    case OpenCell(ok) => DoOpenCell(s, ok)
    case Write(t) => DoWrite(s, t)
    case Complete => DoComplete(s)
    case Unmark => DoUnmark(s)
    case Persist(t) => DoPersist(s, t)
    case Close(t, known) => DoClose(s, t, known)
    case CloseDb(ok) => DoCloseDb(s, ok)
    case Release => DoRelease(s)
    case Forget => DoForget(s)
    case Crash(n) => DoCrash(s, n)
  }

  function Run(steps: seq<Step>): State
  {
    if steps == [] then Init else Apply(Run(steps[..|steps| - 1]), steps[|steps| - 1])
  }

  // ------------------------------------------------------------------ the invariant

  /** What the file is known to hold goes beyond a txid Close has read exactly when a write came late. */
  predicate Tells(s: State, t: nat) { s.db.Some? ==> (s.db.value.txid <= t <==> !s.db.value.late) }

  /** A sparse file has its marker, and a clean marker covers what the file is known to hold, late writes excepted. */
  predicate FilesOk(s: State)
  {
    && (s.db.Some? && s.db.value.sparse ==> s.marker.Some?)
    && (s.db.Some? ==> s.db.value.acked <= s.db.value.txid)
    && (IsClean(ReadOf(s.marker)) ==> Tells(s, TxOf(PM.Read(s.marker.value))))
  }

  /** Nothing the file is known to hold is newer than what the source is known to hold, late writes excepted. */
  predicate Covered(s: State, src: Source)
  {
    src.txid > 0 && s.db.Some? && !s.db.value.late ==> s.db.value.txid <= src.txid
  }

  predicate InRange(ps: int, cm: int, t: nat)
  {
    0 < ps <= MAX_INT64 && 0 < cm <= MAX_INT64 && t <= MAX_UINT64
  }

  predicate PcOk(s: State)
  {
    match s.pc
    case Closed => !s.registered
    case Leftover(_) => !s.registered && s.db.None?
    case Cold(missing, was, txid) =>
      && !s.registered && (missing <==> s.db.None?)
      && (missing ==> was.None?)
      && (!missing ==> was.Some? && was == ReadOf(s.marker) && txid == TxOf(was.value) && !IsDirty(was))
    case Marking(src, _, seen) => !s.registered && Covered(s, src) && !Older(src, seen)
    case Filling(src, _, seen) => !s.registered && Covered(s, src) && !Older(src, seen) && s.marker == Some("")
    case Attaching(src, reuse, seen) =>
      !s.registered && Covered(s, src) && !Older(src, seen) && s.marker == Some(DirtyText(src)) && (reuse ==> s.db.Some?)
    case Dropping(why) =>
      && !s.registered
      && (why.Torn? ==> ReadOf(s.marker) == Some(PM.Malformed))
      && (why.FailedAttach? ==> Covered(s, why.src))
    case Unmarking(_) => !s.registered && s.db.None?
    case Missing => !s.registered && s.db.None?
    case Opening(paged) => s.registered == paged && (paged ==> s.db.Some? && s.marker.Some? && !IsClean(ReadOf(s.marker)))
    case Open(paged, job) =>
      && s.registered == paged && s.db.Some? && !IsClean(ReadOf(s.marker))
      && (!paged ==> s.marker.None? && job.NoJob?)
      && (job.Writing? ==> s.marker.None? || s.marker == Some(""))
    case Draining(t, known) => s.registered && s.db.Some? && !IsClean(ReadOf(s.marker)) && (known ==> t <= MAX_UINT64 && t <= s.db.value.txid && Tells(s, t))
    case Sealing(ps, cm, t) => InRange(ps, cm, t) && s.db.Some? && !IsClean(ReadOf(s.marker)) && Tells(s, t)
    case Sealed(ps, cm, t) => InRange(ps, cm, t) && s.db.Some? && Tells(s, t) && s.marker == Some("")
    case Releasing => true
  }

  predicate Inv(s: State) { FilesOk(s) && PcOk(s) && ReuseOk(s) }

  predicate ReuseOk(s: State)
  {
    match s.pc
    case Marking(_, reuse, _) => reuse ==> s.db.Some?
    case Filling(_, reuse, _) => reuse ==> s.db.Some?
    case _ => true
  }

  lemma InitHolds()
    ensures Inv(Init)
  {
  }

  lemma EmptyNotClean()
    ensures !IsClean(ReadOf(Some("")))
  {
    PM.EmptyIsMalformed();
  }

  lemma DirtyNotClean(ps: int, cm: int, t: nat, n: nat)
    ensures !IsClean(ReadOf(Some(Prefix(PM.Render(ps, cm, t, false), n))))
  {
    var text := PM.Render(ps, cm, t, false);
    hide PM.Render, PM.Read;
    var k := if n <= |text| then n else |text|;
    assert Prefix(text, n) == text[..k];
    PM.TornNeverClean(ps, cm, t, false, k);
  }

  lemma SealCovers(ps: int, cm: int, t: nat, n: nat)
    requires InRange(ps, cm, t)
    ensures var r := ReadOf(Some(Prefix(PM.Render(ps, cm, t, true), n))); IsClean(r) ==> r.value.txid == t
  {
    var text := PM.Render(ps, cm, t, true);
    PM.MarkerRoundTrip(ps, cm, t, true);
    hide PM.Render, PM.Read;
    if n >= |text| {
      assert Prefix(text, n) == text;
    } else {
      PM.TornNeverClean(ps, cm, t, true, n);
    }
  }

  lemma ReadingInRange(text: string)
    ensures var r := PM.Read(text); r.Valid? ==> 0 < r.pageSize <= MAX_INT64 && 0 < r.commit <= MAX_INT64
  {
  }

  lemma ProbeKeeps(s: State, step: Step)
    requires Inv(s) && (step.Begin? || step.DropLeftover? || step.Look?)
    ensures Inv(Apply(s, step))
  {
    hide PM.Render, PM.Read;
  }

  lemma AttachKeeps(s: State, step: Step)
    requires Inv(s) && (step.Attach? || step.OpenCell?)
    ensures Inv(Apply(s, step))
  {
    if s.pc.Attaching? { DirtyNotClean(s.pc.src.pageSize, s.pc.src.commit, s.pc.src.txid, |DirtyText(s.pc.src)|); }
    hide PM.Render, PM.Read;
  }

  lemma RebuildKeeps(s: State, step: Step)
    requires Inv(s) && (step.DropDb? || step.DropMarker? || step.Hydrate?)
    ensures Inv(Apply(s, step))
  {
    hide PM.Render, PM.Read;
  }

  lemma CutKeeps(s: State, step: Step)
    requires Inv(s) && step.Cut?
    ensures Inv(Apply(s, step))
  {
    EmptyNotClean();
    hide PM.Render, PM.Read;
  }

  /** What a write to the marker leaves, whole or torn, is clean only when it may be. */
  lemma TornText(s: State, n: nat)
    requires Inv(s)
    ensures s.pc.Filling? ==> !IsClean(ReadOf(Some(Prefix(DirtyText(s.pc.src), n))))
    ensures s.pc.Sealed? ==>
              var r := ReadOf(Some(Prefix(PM.Render(s.pc.pageSize, s.pc.commit, s.pc.txid, true), n)));
              IsClean(r) ==> r.value.txid == s.pc.txid
    ensures s.pc.Open? && s.pc.job.Writing? ==>
              !IsClean(ReadOf(Some(Prefix(PM.Render(s.pc.job.pageSize, s.pc.job.commit, s.pc.job.txid, false), n))))
  {
    match s.pc
    case Filling(src, _, _) => DirtyNotClean(src.pageSize, src.commit, src.txid, n);
    case Sealed(ps, cm, t) => SealCovers(ps, cm, t, n);
    case Open(_, Writing(ps, cm, t)) => DirtyNotClean(ps, cm, t, n);
    case _ =>
  }

  lemma FillKeeps(s: State, step: Step)
    requires Inv(s) && step.Fill?
    ensures Inv(Apply(s, step))
  {
    TornText(s, step.n);
    hide PM.Render, PM.Read;
  }

  lemma CrashKeeps(s: State, step: Step)
    requires Inv(s) && step.Crash?
    ensures Inv(Apply(s, step))
  {
    TornText(s, step.n);
    hide PM.Render, PM.Read;
  }

  lemma HandleKeeps(s: State, step: Step)
    requires Inv(s)
    requires step.Write? || step.Complete? || step.Unmark? || step.Persist? || step.Close? || step.CloseDb? || step.Release? || step.Forget?
    ensures Inv(Apply(s, step))
  {
    if s.marker.Some? { ReadingInRange(s.marker.value); }
    hide PM.Render, PM.Read;
  }

  lemma ApplyKeeps(s: State, step: Step)
    requires Inv(s)
    ensures Inv(Apply(s, step))
  {
    hide Inv, Apply;
    if step.Cut? {
      CutKeeps(s, step);
    } else if step.Fill? {
      FillKeeps(s, step);
    } else if step.Crash? {
      CrashKeeps(s, step);
    } else if step.Write? || step.Complete? || step.Unmark? || step.Persist? || step.Close? || step.CloseDb? || step.Release? || step.Forget? {
      HandleKeeps(s, step);
    } else if step.Begin? || step.DropLeftover? || step.Look? {
      ProbeKeeps(s, step);
    } else if step.Attach? || step.OpenCell? {
      AttachKeeps(s, step);
    } else {
      RebuildKeeps(s, step);
    }
  }

  lemma {:induction false} RunKeeps(steps: seq<Step>)
    ensures Inv(Run(steps))
  {
    if steps == [] {
      InitHolds();
    } else {
      RunKeeps(steps[..|steps| - 1]);
      ApplyKeeps(Run(steps[..|steps| - 1]), steps[|steps| - 1]);
    }
  }

  // ------------------------------------------------------------------ what every run guarantees

  /** A file that lacks pages always has its marker beside it, whatever crashed and when. */
  lemma SparseHasMarker(steps: seq<Step>)
    ensures var s := Run(steps); s.db.Some? && s.db.value.sparse ==> s.marker.Some?
  {
    RunKeeps(steps);
  }

  /** A handle of the base VFS only ever serves a complete file with no marker. */
  lemma BaseHandleIsComplete(steps: seq<Step>)
    ensures var s := Run(steps); s.pc.Open? && !s.pc.paged ==> s.db.Some? && !s.db.value.sparse && s.marker.None?
  {
    RunKeeps(steps);
  }

  /**
   Register and Prepare never meet a source known to be older than the marker this open found, nor,
   unless a write came late, than the file, by its source or by its writes.
   */
  lemma NeverAnOlderSource(steps: seq<Step>)
    ensures var s := Run(steps);
            s.pc.Attaching? && s.pc.src.txid > 0 ==>
              && s.pc.seen <= s.pc.src.txid
              && (s.db.Some? && !s.db.value.late ==> s.db.value.acked <= s.db.value.txid <= s.pc.src.txid)
  {
    RunKeeps(steps);
  }

  /** The txid of the marker the open under way found; None once it has left the paged path. */
  function Seen(pc: Pc): Option<nat>
  {
    match pc
    case Leftover(txid) => Some(txid)
    case Cold(_, _, txid) => Some(txid)
    case Marking(_, _, seen) => Some(seen)
    case Filling(_, _, seen) => Some(seen)
    case Attaching(_, _, seen) => Some(seen)
    case _ => None
  }

  lemma SeenStays(s: State, step: Step)
    requires Inv(s) && !s.pc.Closed?
    ensures Seen(Apply(s, step).pc).None? || Seen(Apply(s, step).pc) == Seen(s.pc)
  {
    hide PM.Read, PM.Render;
  }

  lemma BeginSees(s: State)
    requires s.pc.Closed? && s.marker.Some?
    ensures Seen(DoBegin(s).pc).None? || Seen(DoBegin(s).pc) == Some(TxOf(PM.Read(s.marker.value)))
  {
    hide PM.Read, PM.Render;
  }

  /**
   An open that finds a marker at txid m, clean beside its file or left over without one, attaches
   only a source that does not tell its txid or has at least m: the cache never goes back.
   */
  lemma {:induction false} OpenNeverGoesBack(steps: seq<Step>, more: seq<Step>)
    requires Run(steps).pc.Closed? && Run(steps).marker.Some?
    requires forall i | 0 <= i <= |more| :: !Run(steps + [Begin] + more[..i]).pc.Closed?
    ensures var s, m := Run(steps + [Begin] + more), TxOf(PM.Read(Run(steps).marker.value));
            && (Seen(s.pc).Some? ==> Seen(s.pc).value == m)
            && (s.pc.Attaching? ==> s.pc.src.txid == 0 || m <= s.pc.src.txid)
    decreases |more|
  {
    var begun := steps + [Begin];
    RunKeeps(begun + more);
    hide Run, PM.Read, PM.Render, Apply;
    if more == [] {
      assert begun + more == begun;
      Extend(steps, Begin);
      BeginSees(Run(steps));
      BeginIsBegin(Run(steps));
    } else {
      var front, last := more[..|more| - 1], more[|more| - 1];
      assert begun + front + [last] == begun + more;
      Extend(begun + front, last);
      RunKeeps(begun + front);
      forall i | 0 <= i <= |front| ensures !Run(begun + front[..i]).pc.Closed? { assert front[..i] == more[..i]; }
      OpenNeverGoesBack(steps, front);
      assert front[..|front|] == front;
      SeenStays(Run(begun + front), last);
    }
  }

  lemma BeginIsBegin(s: State)
    ensures Apply(s, Begin) == DoBegin(s)
  {
  }

  /**
   A clean marker, wherever a crash left it, covers everything its file is known to hold if and only
   if no write landed between the last Close's reading of the txid and its closing of the database.
   */
  lemma CleanMarkerCovers(steps: seq<Step>)
    ensures var s := Run(steps);
            IsClean(ReadOf(s.marker)) && s.db.Some? ==>
              && s.db.value.acked <= s.db.value.txid
              && (s.db.value.txid <= TxOf(PM.Read(s.marker.value)) <==> !s.db.value.late)
  {
    RunKeeps(steps);
  }

  /** No write lands while a Close has the database still open. */
  ghost predicate Quiet(steps: seq<Step>)
  {
    forall i | 0 <= i < |steps| && steps[i].Write? :: !Run(steps[..i]).pc.Draining?
  }

  lemma LateBy(s: State, step: Step)
    requires s.db.Some? ==> !s.db.value.late
    requires step.Write? ==> !s.pc.Draining?
    ensures Apply(s, step).db.Some? ==> !Apply(s, step).db.value.late
  {
    hide PM.Read, PM.Render;
  }

  /** Then no file is ever late, and both results above hold without exception. */
  lemma {:induction false} QuietIsNeverLate(steps: seq<Step>)
    requires Quiet(steps)
    ensures Run(steps).db.Some? ==> !Run(steps).db.value.late
  {
    if steps != [] {
      var front, last := steps[..|steps| - 1], steps[|steps| - 1];
      hide Apply;
      forall i | 0 <= i < |front| && front[i].Write? ensures !Run(front[..i]).pc.Draining? {
        assert front[..i] == steps[..i] && front[i] == steps[i];
      }
      QuietIsNeverLate(front);
      LateBy(Run(front), last);
    }
  }

  /** A cache left dirty is untouched by any number of opens and crashes, until it is forgotten. */
  lemma {:induction false} DirtyCacheStays(steps: seq<Step>, more: seq<Step>)
    requires var s := Run(steps); s.pc.Closed? && s.db.Some? && IsDirty(ReadOf(s.marker))
    requires forall x <- more :: !x.Forget?
    ensures Run(steps + more) == Run(steps)
    decreases |more|
  {
    if more == [] {
      assert steps + more == steps;
    } else {
      var front, all := more[..|more| - 1], steps + more;
      assert forall x <- front :: x in more;
      DirtyCacheStays(steps, front);
      assert all[..|all| - 1] == steps + front && all[|all| - 1] == more[|more| - 1] && more[|more| - 1] in more;
      RunKeeps(steps);
      StaysPut(Run(steps), more[|more| - 1]);
    }
  }

  lemma StaysPut(s: State, step: Step)
    requires Inv(s) && s.pc.Closed? && s.db.Some? && IsDirty(ReadOf(s.marker)) && !step.Forget?
    ensures Apply(s, step) == s
  {
    hide PM.Read, PM.Render;
  }

  /** Acknowledged writes leave the local file. */
  predicate Loses(s: State, s': State) { s.db.Some? && (s'.db.None? || s'.db.value.acked < s.db.value.acked) }

  /** The file is removed, or rebuilt from a source over acknowledged writes. */
  predicate TakesAway(s: State, step: Step)
  {
    && s.db.Some?
    && ((step == DropDb(true) && s.pc.Dropping?)
        || (step.Attach? && s.pc.Attaching? && !s.pc.reuse && (step.ok || step.touched) && s.db.value.acked > 0))
  }

  /**
   Exactly these steps take acknowledged writes out of the local file: removing it, and rebuilding
   it. A removal is a forget, a discard under a malformed marker, or follows an attachment that
   failed; and a source that tells its txid covers what an attachment replaces or gives up, unless a
   write came late.
   */
  lemma LossHasAReason(steps: seq<Step>, step: Step)
    ensures var s := Run(steps);
            && (Loses(s, Apply(s, step)) <==> TakesAway(s, step))
            && (TakesAway(s, step) ==>
                  || s.pc == Dropping(Forgotten)
                  || (s.pc == Dropping(Torn) && ReadOf(s.marker) == Some(PM.Malformed))
                  || (s.pc.Dropping? && s.pc.why.FailedAttach? && Covered(s, s.pc.why.src))
                  || (s.pc.Attaching? && Covered(s, s.pc.src)))
  {
    RunKeeps(steps);
    var s := Run(steps);
    hide Run, PM.Read, PM.Render;
    LossExactly(s, step);
  }

  lemma LossExactly(s: State, step: Step)
    requires Inv(s)
    ensures Loses(s, Apply(s, step)) <==> TakesAway(s, step)
  {
    hide PM.Read, PM.Render;
  }

  lemma Extend(steps: seq<Step>, step: Step)
    ensures Run(steps + [step]) == Apply(Run(steps), step)
  {
    var all := steps + [step];
    assert all[..|all| - 1] == steps;
  }

  /** Two more steps of a run. */
  lemma ExtendTwice(steps: seq<Step>, x: Step, y: Step)
    ensures Run(steps + [x, y]) == Apply(Apply(Run(steps), x), y)
  {
    hide Run, Apply;
    Extend(steps, x);
    Extend(steps + [x], y);
    assert steps + [x] + [y] == steps + [x, y];
  }

  lemma StartedRun() returns (steps: seq<Step>)
    ensures Run(steps) == State(None, Some(""), false, Filling(Source(4096, 1, 5), false, 0)) && Forget !in steps
  {
    var look := Look(Found(Source(4096, 1, 5)));
    ExtendTwice([], Begin, look);
    steps := [Begin, look];
    assert [] + steps == steps && Run(steps) == State(None, None, false, Marking(Source(4096, 1, 5), false, 0));
    hide Run;
    Extend(steps, Cut(true));
    steps := steps + [Cut(true)];
  }

  /** The marker is filled and the source attached. */
  lemma AttachedRun() returns (steps: seq<Step>)
    ensures Run(steps) == State(Some(File(true, 5, 0, false)), Some(PM.Render(4096, 1, 5, false)), true, Opening(true))
    ensures Forget !in steps
  {
    var fill := Fill(|DirtyText(Source(4096, 1, 5))|);
    steps := StartedRun();
    hide Run, PM.Read, PM.Render;
    ExtendTwice(steps, fill, Attach(true, false));
    steps := steps + [fill, Attach(true, false)];
  }

  /** A first open of a cell served from a source at txid 5, and a write acknowledged as txid t. */
  lemma WrittenRun(t: nat) returns (steps: seq<Step>)
    requires t > 5
    ensures Run(steps) == State(Some(File(true, t, t, false)), Some(PM.Render(4096, 1, 5, false)), true, Open(true, NoJob))
    ensures Forget !in steps
  {
    steps := AttachedRun();
    hide Run, PM.Read, PM.Render;
    ExtendTwice(steps, OpenCell(true), Write(t));
    steps := steps + [OpenCell(true), Write(t)];
  }

  /** The database is closed, and the clean close truncates the marker. */
  lemma SealedRun(steps: seq<Step>, f: File, t: nat)
    requires Run(steps) == State(Some(f), Some(PM.Render(4096, 1, 5, false)), true, Draining(t, true))
    ensures Run(steps + [CloseDb(true), Cut(true)]) == State(Some(f), Some(""), true, Sealed(4096, 1, t))
  {
    PM.MarkerRoundTrip(4096, 1, 5, false);
    hide Run, PM.Read, PM.Render;
    ExtendTwice(steps, CloseDb(true), Cut(true));
  }

  lemma ClosingRun(steps: seq<Step>)
    requires Run(steps) == State(Some(File(true, 9, 9, false)), Some(PM.Render(4096, 1, 5, false)), true, Open(true, NoJob))
    ensures Run(steps + [Close(9, true), CloseDb(true), Cut(true)]) == State(Some(File(true, 9, 9, false)), Some(""), true, Sealed(4096, 1, 9))
  {
    hide Run, PM.Read, PM.Render;
    Extend(steps, Close(9, true));
    SealedRun(steps + [Close(9, true)], File(true, 9, 9, false), 9);
    assert steps + [Close(9, true)] + [CloseDb(true), Cut(true)] == steps + [Close(9, true), CloseDb(true), Cut(true)];
  }

  lemma RestoredRun(steps: seq<Step>)
    requires Run(steps) == State(None, None, false, Missing)
    ensures Run(steps + [Hydrate(Restored), OpenCell(true)]) == State(Some(File(false, 0, 0, false)), None, false, Open(false, NoJob))
  {
    hide Run, PM.Read, PM.Render;
    ExtendTwice(steps, Hydrate(Restored), OpenCell(true));
  }

  /** Then the process dies. */
  lemma TornRun(steps: seq<Step>)
    requires Run(steps) == State(Some(File(true, 9, 9, false)), Some(""), true, Sealed(4096, 1, 9))
    ensures Run(steps + [Crash(0)]) == State(Some(File(true, 9, 9, false)), Some(""), false, Closed)
  {
    hide Run, PM.Render;
    Extend(steps, Crash(0));
    assert Prefix(PM.Render(4096, 1, 9, true), 0) == "";
  }

  lemma DiscardRun(steps: seq<Step>)
    requires Run(steps) == State(Some(File(true, 9, 9, false)), Some(""), false, Closed)
    ensures Run(steps + [Begin, Look(NoSource)] + [DropDb(true), DropMarker(true)]) == State(None, None, false, Missing)
  {
    PM.EmptyIsMalformed();
    hide Run, PM.Read, PM.Render;
    ExtendTwice(steps, Begin, Look(NoSource));
    ExtendTwice(steps + [Begin, Look(NoSource)], DropDb(true), DropMarker(true));
  }

  /**
   Rewriting the marker is not atomic: a crash between its truncation and its text, during a clean
   close, makes the next open discard the cache, acknowledged writes included, although nobody
   forgot it.
   */
  lemma TornCloseDiscardsWrites() returns (steps: seq<Step>, more: seq<Step>)
    ensures Run(steps).pc.Open? && Run(steps).db == Some(File(true, 9, 9, false))
    ensures Forget !in steps + more
    ensures Run(steps + more) == State(Some(File(false, 0, 0, false)), None, false, Open(false, NoJob))
  {
    steps := WrittenRun(9);
    hide Run, PM.Read, PM.Render, Apply;
    ClosingRun(steps);
    TornRun(steps + [Close(9, true), CloseDb(true), Cut(true)]);
    var torn := steps + [Close(9, true), CloseDb(true), Cut(true)] + [Crash(0)];
    DiscardRun(torn);
    var gone := torn + [Begin, Look(NoSource)] + [DropDb(true), DropMarker(true)];
    RestoredRun(gone);
    more := [Close(9, true), CloseDb(true), Cut(true), Crash(0), Begin, Look(NoSource), DropDb(true), DropMarker(true),
             Hydrate(Restored), OpenCell(true)];
    assert gone + [Hydrate(Restored), OpenCell(true)] == steps + more;
  }

  // ------------------------------------------------------------------ writes that come late

  /** One open of the cache, from Begin until it would end. */
  ghost predicate OneOpen(steps: seq<Step>, more: seq<Step>)
  {
    more != [] && more[0] == Begin && forall i | 0 < i <= |more| :: !Run(steps + more[..i]).pc.Closed?
  }

  lemma FileStays(s: State, step: Step)
    requires Seen(Apply(s, step).pc).Some? && (s.pc.Closed? ==> step == Begin)
    ensures Apply(s, step).db == s.db && (s.pc.Closed? || Seen(s.pc).Some?)
  {
    hide PM.Read, PM.Render;
  }

  /** Up to the attachment an open leaves the file as it is. */
  lemma {:induction false} OpenKeepsFile(steps: seq<Step>, more: seq<Step>)
    requires Run(steps).pc.Closed? && OneOpen(steps, more) && Seen(Run(steps + more).pc).Some?
    ensures Run(steps + more).db == Run(steps).db
    decreases |more|
  {
    var front, last := more[..|more| - 1], more[|more| - 1];
    var s := Run(steps + front);
    assert steps + front + [last] == steps + more;
    Extend(steps + front, last);
    hide Run, Apply;
    if |more| == 1 {
      assert steps + front == steps;
      FileStays(s, last);
    } else {
      assert more[..|front|] == front;
      FileStays(s, last);
      forall i | 0 < i <= |front| ensures !Run(steps + front[..i]).pc.Closed? { assert front[..i] == more[..i]; }
      OpenKeepsFile(steps, front);
    }
  }

  /** The next open would attach a source that is known to be older than the file. */
  ghost predicate MayGoBack(steps: seq<Step>)
  {
    exists more ::
      && OneOpen(steps, more)
      && var s := Run(steps + more);
         s.pc.Attaching? && s.db.Some? && 0 < s.pc.src.txid < s.db.value.txid
  }

  lemma LooksUp(s: State, src: Source)
    requires s.pc.Closed? && s.db.Some? && IsClean(ReadOf(s.marker)) && src.txid >= TxOf(PM.Read(s.marker.value))
    ensures var r := PM.Read(s.marker.value);
            && Apply(s, Begin) == s.(pc := Cold(false, Some(r), TxOf(r)))
            && Apply(Apply(s, Begin), Look(Found(src))) == s.(pc := Marking(src, Reuses(Some(r), src, TxOf(r)), TxOf(r)))
  {
    hide PM.Read, PM.Render;
  }

  lemma Remarks(s: State)
    requires s.pc.Marking?
    ensures Apply(s, Cut(true)) == s.(marker := Some(""), pc := Filling(s.pc.src, s.pc.reuse, s.pc.seen))
    ensures Apply(Apply(s, Cut(true)), Fill(|DirtyText(s.pc.src)|))
            == s.(marker := Some(DirtyText(s.pc.src)), pc := Attaching(s.pc.src, s.pc.reuse, s.pc.seen))
  {
    hide PM.Read, PM.Render;
  }

  /** The open that is offered src and goes on to attach it. */
  function OpenSteps(src: Source): seq<Step> { [Begin, Look(Found(src)), Cut(true), Fill(|DirtyText(src)|)] }

  lemma OpensFirst(steps: seq<Step>, src: Source)
    requires var s := Run(steps); s.pc.Closed? && s.db.Some? && IsClean(ReadOf(s.marker)) && src.txid >= TxOf(PM.Read(s.marker.value))
    ensures var s, r := Run(steps), PM.Read(Run(steps).marker.value);
            && !Run(steps + [Begin]).pc.Closed?
            && Run(steps + [Begin] + [Look(Found(src))]) == s.(pc := Marking(src, Reuses(Some(r), src, TxOf(r)), TxOf(r)))
  {
    LooksUp(Run(steps), src);
    hide Run, PM.Read, PM.Render, Apply, Reuses;
    Extend(steps, Begin);
    Extend(steps + [Begin], Look(Found(src)));
  }

  lemma OpensThen(steps: seq<Step>)
    requires Run(steps).pc.Marking?
    ensures var s, pc := Run(steps), Run(steps).pc;
            && !Run(steps + [Cut(true)]).pc.Closed?
            && Run(steps + [Cut(true)] + [Fill(|DirtyText(pc.src)|)])
               == s.(marker := Some(DirtyText(pc.src)), pc := Attaching(pc.src, pc.reuse, pc.seen))
  {
    Remarks(Run(steps));
    hide Run, PM.Read, PM.Render, Apply, DirtyText;
    Extend(steps, Cut(true));
    Extend(steps + [Cut(true)], Fill(|DirtyText(Run(steps).pc.src)|));
  }

  /** An open that is offered a source at least as new as the clean marker goes on to attach it. */
  lemma OpenWith(steps: seq<Step>, src: Source)
    requires var s := Run(steps); s.pc.Closed? && s.db.Some? && IsClean(ReadOf(s.marker)) && src.txid >= TxOf(PM.Read(s.marker.value))
    ensures OneOpen(steps, OpenSteps(src))
    ensures var s, r := Run(steps), PM.Read(Run(steps).marker.value);
            Run(steps + OpenSteps(src)) == s.(marker := Some(DirtyText(src)), pc := Attaching(src, Reuses(Some(r), src, TxOf(r)), TxOf(r)))
  {
    var more := OpenSteps(src);
    hide Run, PM.Read, PM.Render, Apply, Reuses, DirtyText;
    var t2 := steps + [Begin] + [Look(Found(src))];
    OpensFirst(steps, src);
    OpensThen(t2);
    assert t2 + [Cut(true)] + [Fill(|DirtyText(src)|)] == steps + more;
    FourSteps(steps, more);
  }

  lemma FourSteps(steps: seq<Step>, more: seq<Step>)
    requires |more| == 4 && more[0] == Begin
    requires !Run(steps + [more[0]]).pc.Closed? && !Run(steps + [more[0]] + [more[1]]).pc.Closed?
    requires !Run(steps + [more[0]] + [more[1]] + [more[2]]).pc.Closed? && !Run(steps + more).pc.Closed?
    ensures OneOpen(steps, more)
  {
    hide Run;
    forall i | 0 < i <= |more| ensures !Run(steps + more[..i]).pc.Closed? {
      if i == 1 { assert steps + more[..1] == steps + [more[0]]; }
      else if i == 2 { assert steps + more[..2] == steps + [more[0]] + [more[1]]; }
      else if i == 3 { assert steps + more[..3] == steps + [more[0]] + [more[1]] + [more[2]]; }
      else { assert more[..4] == more; }
    }
  }

  /**
   Exactly when the next open of a cache closed cleanly may attach a source known to be older than
   the file: a write came late, and there is an older txid to name.
   */
  lemma GoesBackExactly(steps: seq<Step>)
    requires var s := Run(steps); s.pc.Closed? && s.db.Some? && IsClean(ReadOf(s.marker))
    ensures MayGoBack(steps) <==> Run(steps).db.value.late && Run(steps).db.value.txid > 1
  {
    var s := Run(steps);
    CleanMarkerCovers(steps);
    if MayGoBack(steps) {
      var more :| OneOpen(steps, more)
                  && var s' := Run(steps + more); s'.pc.Attaching? && s'.db.Some? && 0 < s'.pc.src.txid < s'.db.value.txid;
      OpenKeepsFile(steps, more);
      NeverAnOlderSource(steps + more);
    }
    if s.db.value.late && s.db.value.txid > 1 {
      OpenWith(steps, Source(1, 1, Max(TxOf(PM.Read(s.marker.value)), 1)));
    }
  }

  /** A write lands after Close has read the txid: the clean marker is behind the file. */
  lemma LateRun() returns (steps: seq<Step>)
    ensures Run(steps) == State(Some(File(true, 9, 9, true)), Some(PM.Render(4096, 1, 5, false)), true, Draining(8, true))
    ensures Forget !in steps
  {
    steps := WrittenRun(8);
    hide Run, PM.Read, PM.Render;
    ExtendTwice(steps, Close(8, true), Write(9));
    steps := steps + [Close(8, true), Write(9)];
  }

  lemma BehindRun() returns (steps: seq<Step>)
    ensures Run(steps) == State(Some(File(true, 9, 9, true)), Some(PM.Render(4096, 1, 8, true)), false, Closed)
    ensures Forget !in steps
  {
    steps := LateRun();
    SealedRun(steps, File(true, 9, 9, true), 8);
    steps := steps + [CloseDb(true), Cut(true)];
    hide Run, PM.Read, PM.Render;
    var fill := Fill(|PM.Render(4096, 1, 8, true)|);
    ExtendTwice(steps, fill, Release);
    steps := steps + [fill, Release];
  }

  /** And the next open rebuilds the cache over that write, from a source that never had it. */
  lemma LateWriteIsLost() returns (steps: seq<Step>, more: seq<Step>)
    ensures Run(steps).db == Some(File(true, 9, 9, true)) && Run(steps).marker == Some(PM.Render(4096, 1, 8, true))
    ensures Forget !in steps + more
    ensures Run(steps + more).db == Some(File(true, 8, 0, false)) && Run(steps + more).pc == Opening(true)
  {
    steps := BehindRun();
    PM.MarkerRoundTrip(4096, 1, 8, true);
    var open := OpenSteps(Source(4096, 2, 8));
    OpenWith(steps, Source(4096, 2, 8));
    hide Run, PM.Read, PM.Render;
    more := open + [Attach(true, false)];
    Extend(steps + open, Attach(true, false));
    assert steps + open + [Attach(true, false)] == steps + more;
  }
}
