/** Reservations are given back: a finished run holds nothing unless its end is unknown, a locked
    session always has its holder, and runs do reach their ends. */
module ExecutionRelease {
  import opened Options
  import opened ExecutionProtocol
  import opened ExecutionSafety

  // ------------------------------------------------------------ a finished run holds nothing

  /** Ended with a known state: the owner has stopped and the reservation was given back. */
  predicate FreeInv(r: Rec) {
    r.terminalAt.Some? && r.state != Unknown ==> !r.holds && OwnerFinished(r.owner)
  }

  /** An owner that ended with an exception: its stop is never confirmed, and the end is unknown. */
  predicate RaisedInv(r: Rec) {
    r.owner.OwnerRaised? ==>
      r.settle.NoSettle? && !r.ownerStop.Ok? && (r.terminalAt.Some? ==> r.state == Unknown)
  }

  /** A run that waits for its settlement has told its caller. */
  predicate ToldInv(r: Rec) {
    !r.settle.NoSettle? ==> !r.started.Unset?
  }

  predicate Ended(r: Rec) {
    FreeInv(r) && RaisedInv(r) && ToldInv(r)
  }

  predicate Good(r: Rec) {
    RecInv(r) && Ended(r)
  }

  lemma ReservedFrees(c: Cell, prep: Preparation, now: nat)
    requires Good(c.rec) && (c.rec.owner.NotBegun? || c.rec.owner.AwaitLock?)
    ensures Ended(Reserved(c, prep, now).rec)
  {
  }

  lemma OwnerBeginFrees(c: Cell, expired: bool, waits: bool, prep: Preparation, now: nat)
    requires Good(c.rec)
    ensures Ended(OwnerBegin(c, expired, waits, prep, now).rec)
  {
    if c.rec.owner.NotBegun? { ReservedFrees(c, prep, now); }
  }

  lemma OwnerAcquireFrees(c: Cell, prep: Preparation, now: nat)
    requires Good(c.rec)
    ensures Ended(OwnerAcquire(c, prep, now).rec) && Ended(OwnerLockTimeout(c, now).rec)
  {
    if c.rec.owner.AwaitLock? { ReservedFrees(c, prep, now); }
  }

  lemma OwnerHookFrees(c: Cell, end: HookEnd, now: nat)
    requires Good(c.rec)
    ensures Ended(OwnerHook(c, end, now).rec)
  {
  }

  lemma OwnerProbeFrees(c: Cell, end: ProbeEnd, now: nat)
    requires Good(c.rec)
    ensures Ended(OwnerProbe(c, end, now).rec)
  {
  }

  lemma OwnerSendFrees(c: Cell, end: SendEnd, now: nat)
    requires Good(c.rec)
    ensures Ended(OwnerSend(c, end, now).rec)
  {
  }

  lemma SettleFrees(c: Cell, end: SettleEnd, now: nat)
    requires Good(c.rec)
    ensures Ended(Settle(c, end, now).rec)
  {
  }

  lemma CleanupEndFrees(c: Cell, expired: bool, now: nat)
    requires Good(c.rec)
    ensures Ended(CleanupEnd(c, expired, now).rec)
  {
  }

  lemma ClaimFrees(r: Rec, flag: bool)
    requires Good(r)
    ensures Ended(TimeoutCancel(r)) && Ended(ExplicitCancel(r, flag)) && Ended(CleanupLaunch(r))
  {
  }

  lemma CleanupFrees(r: Rec, flag: bool)
    requires Good(r)
    ensures Ended(EngineCancelEnd(r, flag)) && Ended(OwnerStopEnd(r, flag)) && Ended(NativeEnds(r))
  {
  }

  lemma TasksFree(r: Rec)
    requires Good(r)
    ensures Ended(CleanupTasksBegin(r))
  {
  }

  lemma StretchFrees(c: Cell, t: Stretch, now: nat)
    requires Good(c.rec)
    ensures Good(Local(c, t, now).rec)
  {
    StretchKeeps(c, t, now);
    match t
    case OBegin(expired, waits, prep) => OwnerBeginFrees(c, expired, waits, prep, now);
    case OAcquire(prep) => OwnerAcquireFrees(c, prep, now);
    case OLockTimeout => OwnerAcquireFrees(c, Built, now);
    case OHook(end) => OwnerHookFrees(c, end, now);
    case OProbe(end) => OwnerProbeFrees(c, end, now);
    case OSend(end) => OwnerSendFrees(c, end, now);
    case DoSettle(end) => SettleFrees(c, end, now);
    case WorkerEnd(expired) => CleanupEndFrees(c, expired, now);
    case Cancel(expired) => ClaimFrees(c.rec, expired);
    case Deadline => ClaimFrees(c.rec, false);
    case Launch => ClaimFrees(c.rec, false);
    case TasksBegin => TasksFree(c.rec);
    case EngineEnd(normally) => CleanupFrees(c.rec, normally);
    case StopEnd(expired) => CleanupFrees(c.rec, expired);
    case NativeEnd => CleanupFrees(c.rec, false);
  }

  // ------------------------------------------------------------ a locked session has its holder

  ghost predicate HeldByARecord(s: System, session: string) {
    exists i :: 0 <= i < |s.recs| && s.recs[i].holds && s.recs[i].request.sessionRef == session
  }

  ghost predicate LocksHeld(s: System) {
    forall x :: x in s.locked ==> x in s.outside || HeldByARecord(s, x)
  }

  ghost predicate AllFree(s: System) {
    (forall i :: 0 <= i < |s.recs| ==> Ended(s.recs[i])) && LocksHeld(s)
  }

  lemma OnRecordKeepsHolders(s: System, i: nat, t: Stretch)
    requires Inv(s) && i < |s.recs| && LocksHeld(s)
    ensures LocksHeld(OnRecord(s, i, t))
  {
    StretchKeeps(CellAt(s, i), t, s.now);
    var s' := OnRecord(s, i, t);
    var mine := s.recs[i].request.sessionRef;
    forall x | x in s'.locked ensures x in s'.outside || HeldByARecord(s', x) {
      if x == mine && s'.recs[i].holds && !s.recs[i].holds {
        assert s'.recs[i].request.sessionRef == x;
      } else if x !in s.outside {
        assert x in s.locked;
        var j :| 0 <= j < |s.recs| && s.recs[j].holds && s.recs[j].request.sessionRef == x;
        assert s'.recs[j].holds && s'.recs[j].request.sessionRef == x;
      }
    }
  }

  lemma AppendKeepsHolders(s: System, r: Rec, registry: seq<nat>)
    requires LocksHeld(s)
    ensures LocksHeld(s.(recs := s.recs + [r], registry := registry))
  {
    var s' := s.(recs := s.recs + [r], registry := registry);
    forall x | x in s'.locked && x !in s'.outside ensures HeldByARecord(s', x) {
      var j :| 0 <= j < |s.recs| && s.recs[j].holds && s.recs[j].request.sessionRef == x;
      assert s'.recs[j] == s.recs[j];
    }
  }

  lemma NextFrees(s: System, e: Event)
    requires Inv(s) && AllFree(s)
    ensures AllFree(Next(s, e))
  {
    var s' := Next(s, e);
    match e {
      case Admit(request, window) => if s' != s { AppendKeepsHolders(s, NewRec(request), s'.registry); }
      case Restore(request, state, published) =>
        if s' != s { AppendKeepsHolders(s, RestoredRec(request, state, published, s.now), s'.registry); }
      case On(i, t) =>
        if i < |s.recs| {
          StretchFrees(CellAt(s, i), t, s.now);
          OnRecordKeepsHolders(s, i, t);
        }
      case _ =>
        assert forall x :: HeldByARecord(s, x) ==> HeldByARecord(s', x);
    }
  }

  lemma {:induction false} RunFrees(s: System, es: seq<Event>)
    requires Inv(s) && AllFree(s)
    ensures AllFree(Run(s, es))
    decreases |es|
  {
    if es != [] {
      NextKeepsInv(s, es[0]);
      NextFrees(s, es[0]);
      RunFrees(Next(s, es[0]), es[1..]);
    }
  }

  lemma ReachableIsFree(s: System)
    requires Reachable(s)
    ensures Inv(s) && AllFree(s)
  {
    ReachableKeepsInv(s);
    var es: seq<Event> :| Run(Empty, es) == s;
    RunFrees(Empty, es);
  }

  // ------------------------------------------------------------ the main results about reservations

  /** In every reachable state a run that ended with a known state has given its reservation back and
      its owner has stopped. */
  lemma FinishedHoldsNothing(s: System, i: nat)
    requires Reachable(s) && i < |s.recs| && s.recs[i].terminalAt.Some? && s.recs[i].state != Unknown
    ensures !s.recs[i].holds && OwnerFinished(s.recs[i].owner)
  {
    ReachableIsFree(s);
  }

  /** In every reachable state a session is locked exactly when an outside holder has it or one of its
      invocations does. */
  lemma LockedIffHeld(s: System, session: string)
    requires Reachable(s)
    ensures session in s.locked <==> session in s.outside || HeldByARecord(s, session)
  {
    ReachableIsFree(s);
  }

  /** An owner that could not write the session marker ends the run unknown. */
  lemma RaisedEndsUnknown(s: System, i: nat)
    requires Reachable(s) && i < |s.recs| && s.recs[i].owner.OwnerRaised? && s.recs[i].terminalAt.Some?
    ensures s.recs[i].state == Unknown
  {
    ReachableIsFree(s);
  }
}
