/** What every run of the execution service keeps, whatever the interleaving of owner, deadline,
    cancel, settlement and cleanup, and however engine, hooks and clocks answer. */
module ExecutionSafety {
  import opened Options
  import opened ExecutionProtocol

  // ------------------------------------------------------------ one record

  /** The halt of the native work is proved: it settled, it was refused without ambiguity, or
      both retained cleanup tasks finished without error. */
  predicate Confirmed(r: Rec) {
    r.settledSeen || r.rejected || (r.engineCancel.Ok? && r.ownerStop.Ok?)
  }

  /** Something was handed to the engine and nothing yet proves that it stopped. */
  predicate Unconfirmed(r: Rec) {
    r.possibleSend && !Confirmed(r)
  }

  predicate BeforeSend(o: OwnerPc) {
    (o.NotBegun? || o.AwaitLock? || o.AwaitHook? || o.AwaitProbe?)
  }

  predicate SendInv(r: Rec) {
    && r.sends <= 1
    && (r.possibleSend <==> r.sends == 1)
    && (r.possibleSend <==> !r.native.Unregistered?)
    && (BeforeSend(r.owner) ==> !r.possibleSend && !r.rejected && !r.settledSeen && r.settle.NoSettle?)
    && (r.owner.AwaitSend? ==> r.possibleSend && !r.rejected && !r.settledSeen && r.settle.NoSettle?)
    && (!r.settle.NoSettle? ==> r.possibleSend && OwnerFinished(r.owner))
    && (r.settledSeen || r.rejected || r.engineCancel.Ok? ==> !r.native.Live?)
  }

  predicate HoldInv(r: Rec) {
    && ((r.owner.AwaitHook? || r.owner.AwaitProbe? || r.owner.AwaitSend?) ==> r.holds)
    && ((r.owner.NotBegun? || r.owner.AwaitLock? || r.owner.NoOwner?) ==> !r.holds)
    && (Unconfirmed(r) ==> r.holds)
  }

  predicate CleanupInv(r: Rec) {
    && (!r.cleanup.NoCleanup? ==> r.terminal)
    && ((r.cleanup.NoCleanup? || r.cleanup.Claimed?) <==> r.engineCancel.NotCreated?)
    && ((r.cleanup.NoCleanup? || r.cleanup.Claimed?) <==> r.ownerStop.NotCreated?)
    && (r.cleanup.Launched? <==> r.engineCancel.Queued?)
    && (r.cleanup.Launched? <==> r.ownerStop.Queued?)
    && ((r.ownerStop.Active? || r.ownerStop.Ok? || r.ownerStop.Raised?) ==> r.cancelRequested || OwnerFinished(r.owner))
    && (r.ownerStop.Ok? ==> OwnerFinished(r.owner))
  }

  predicate OnceInv(r: Rec) {
    && r.claims == (if r.cleanup.NoCleanup? then 0 else 1)
    && r.resolutions == (if r.started.Unset? then 0 else 1)
    && (r.terminalAt.Some? <==> r.terminal && (r.cleanup.NoCleanup? || r.cleanup.CleanupDone?))
    && (r.cleanup.CleanupDone? ==> r.state == r.finalState || r.state == Unknown)
  }

  predicate RecInv(r: Rec) {
    SendInv(r) && HoldInv(r) && CleanupInv(r) && OnceInv(r)
  }

  /** How one stretch may change the reservation of its record and the lock of its session. */
  predicate LockMove(c: Cell, d: Cell) {
    if c.rec.holds == d.rec.holds then d.locked == c.locked
    else if d.rec.holds then !c.locked && d.locked
    else !d.locked
  }

  /** Once `terminal_at` is set, state, time and outcome never change again. */
  predicate Frozen(r: Rec, q: Rec) {
    r.terminalAt.Some? ==> q.state == r.state && q.terminalAt == r.terminalAt && q.terminal
  }

  /** A record only moves towards its end: no cleanup, resolution, send or proof is undone, and
      a reservation that guards unconfirmed work is given up only by confirming it. */
  predicate Onward(r: Rec, q: Rec) {
    && q.request == r.request
    && Frozen(r, q)
    && r.claims <= q.claims && r.sends <= q.sends && r.resolutions <= q.resolutions
    && (!r.started.Unset? ==> q.started == r.started)
    && (!r.cleanup.NoCleanup? ==> !q.cleanup.NoCleanup? && q.finalState == r.finalState)
    && (r.possibleSend ==> q.possibleSend)
    && (Confirmed(r) ==> Confirmed(q))
    && (Unconfirmed(r) && !q.holds ==> Confirmed(q))
  }

  lemma OnwardTransitive(p: Rec, q: Rec, r: Rec)
    requires RecInv(p) && RecInv(q) && RecInv(r) && Onward(p, q) && Onward(q, r)
    ensures Onward(p, r)
  {
  }

  /** What one stretch of any task keeps of its record and of the session lock. */
  predicate Keeps(c: Cell, d: Cell) {
    RecInv(d.rec) && LockMove(c, d) && Onward(c.rec, d.rec)
  }

  lemma TakeoverKeeps(c: Cell, prep: Preparation, now: nat)
    requires RecInv(c.rec) && !c.locked && (c.rec.owner.NotBegun? || c.rec.owner.AwaitLock?)
    requires c.rec.terminal
    ensures Keeps(c, Reserved(c, prep, now))
  {
  }

  lemma ReservedFailureKeeps(c: Cell, prep: Preparation, now: nat)
    requires RecInv(c.rec) && !c.locked && (c.rec.owner.NotBegun? || c.rec.owner.AwaitLock?)
    requires !c.rec.terminal && (prep.DeadlineExpired? || prep.SessionError? || prep.BuildError?)
    ensures Keeps(c, Reserved(c, prep, now))
  {
  }

  lemma PreparationKeeps(c: Cell, prep: Preparation, now: nat)
    requires RecInv(c.rec) && !c.locked && (c.rec.owner.NotBegun? || c.rec.owner.AwaitLock?)
    ensures Keeps(c, Reserved(c, prep, now))
  {
    if c.rec.terminal { TakeoverKeeps(c, prep, now); }
    else if prep.DeadlineExpired? || prep.SessionError? || prep.BuildError? { ReservedFailureKeeps(c, prep, now); }
  }

  lemma OwnerBeginKeeps(c: Cell, expired: bool, waits: bool, prep: Preparation, now: nat)
    requires RecInv(c.rec)
    ensures Keeps(c, OwnerBegin(c, expired, waits, prep, now))
  {
    if c.rec.owner.NotBegun? && !c.locked { PreparationKeeps(c, prep, now); }
  }

  lemma OwnerAcquireKeeps(c: Cell, prep: Preparation, now: nat)
    requires RecInv(c.rec)
    ensures Keeps(c, OwnerAcquire(c, prep, now))
  {
    if c.rec.owner.AwaitLock? && !c.locked { PreparationKeeps(c, prep, now); }
  }

  lemma OwnerLockTimeoutKeeps(c: Cell, now: nat)
    requires RecInv(c.rec)
    ensures Keeps(c, OwnerLockTimeout(c, now))
  {
  }

  lemma AfterGateKeeps(c: Cell, buildOk: bool, now: nat)
    requires RecInv(c.rec) && c.rec.owner.AwaitHook? && !c.rec.terminal
    ensures Keeps(c, AfterGate(c, buildOk, now))
  {
  }

  lemma WithoutEngineKeeps(c: Cell, state: RunState, now: nat)
    requires RecInv(c.rec) && (c.rec.owner.AwaitHook? || c.rec.owner.AwaitProbe?)
    ensures Keeps(c, EndOwner(FinishWithoutEngine(c, state, now), OwnerReturned))
  {
  }

  lemma PreSendFailureKeeps(c: Cell, now: nat)
    requires RecInv(c.rec) && (c.rec.owner.AwaitHook? || c.rec.owner.AwaitProbe?)
    ensures Keeps(c, EndOwner(FailBeforeStarted(c, true, now), OwnerReturned))
  {
  }

  lemma OwnerCancelledKeeps(c: Cell)
    requires RecInv(c.rec) && c.rec.cancelRequested && !c.rec.owner.NoOwner?
    ensures Keeps(c, EndOwner(c, OwnerCancelled)) && Keeps(c, c)
  {
  }

  lemma HookExitKeeps(c: Cell, code: int, buildOk: bool, now: nat)
    requires RecInv(c.rec) && c.rec.owner.AwaitHook?
    ensures Keeps(c, OwnerHook(c, Exited(code, buildOk), now))
  {
    if !c.rec.terminal {
      AfterGateKeeps(c, buildOk, now);
      WithoutEngineKeeps(c, Skipped, now);
      WithoutEngineKeeps(c, Failed, now);
    }
  }

  lemma OwnerHookKeeps(c: Cell, end: HookEnd, now: nat)
    requires RecInv(c.rec)
    ensures Keeps(c, OwnerHook(c, end, now))
  {
    if c.rec.owner.AwaitHook? {
      match end
      case Exited(code, buildOk) => HookExitKeeps(c, code, buildOk, now);
      case HookFailed => WithoutEngineKeeps(c, Failed, now);
      case HookTimedOut => PreSendFailureKeeps(c, now);
      case HookError => PreSendFailureKeeps(c, now);
      case HookCancelled => if c.rec.cancelRequested { OwnerCancelledKeeps(c); }
    }
  }

  lemma EngineStartKeeps(c: Cell, now: nat)
    requires RecInv(c.rec) && c.rec.owner.AwaitProbe? && !c.rec.cancelRequested
    ensures Keeps(c, OwnerProbe(c, ToolsListed(false), now))
  {
  }

  lemma OwnerProbeKeeps(c: Cell, end: ProbeEnd, now: nat)
    requires RecInv(c.rec)
    ensures Keeps(c, OwnerProbe(c, end, now))
  {
    if c.rec.owner.AwaitProbe? {
      if c.rec.cancelRequested { OwnerCancelledKeeps(c); }
      else if end.ToolsMissing? { WithoutEngineKeeps(c, Failed, now); }
      else if end.expired { PreSendFailureKeeps(c, now); }
      else { EngineStartKeeps(c, now); }
    }
  }

  lemma ReceiptKeeps(c: Cell, marked: bool, now: nat)
    requires RecInv(c.rec) && c.rec.owner.AwaitSend?
    ensures Keeps(c, OwnerSend(c, Receipt(marked), now))
  {
  }

  lemma RejectionKeeps(c: Cell, now: nat)
    requires RecInv(c.rec) && c.rec.owner.AwaitSend?
    ensures Keeps(c, OwnerSend(c, CleanlyRejected, now))
  {
  }

  lemma UnprovenSendKeeps(c: Cell, final: RunState)
    requires RecInv(c.rec) && c.rec.owner.AwaitSend?
    ensures Keeps(c, FailAfterPossibleSend(c, final))
  {
  }

  lemma OwnerSendKeeps(c: Cell, end: SendEnd, now: nat)
    requires RecInv(c.rec)
    ensures Keeps(c, OwnerSend(c, end, now))
  {
    if c.rec.owner.AwaitSend? {
      match end
      case Receipt(marked) => ReceiptKeeps(c, marked, now);
      case CleanlyRejected => RejectionKeeps(c, now);
      case Ambiguous => UnprovenSendKeeps(c, Unknown);
      case TimedOut => UnprovenSendKeeps(c, Failed);
      case SendCancelled => if c.rec.cancelRequested { OwnerCancelledKeeps(c); }
    }
  }

  lemma SettledKeeps(c: Cell, outcome: RunState, now: nat)
    requires RecInv(c.rec) && c.rec.settle.SettleWaiting?
    ensures Keeps(c, Settle(c, Settled(outcome), now))
  {
  }

  lemma ClaimKeeps(r: Rec, final: RunState)
    requires RecInv(r) && !r.terminal
    ensures RecInv(EnsureCleanup(r, final)) && Onward(r, EnsureCleanup(r, final))
  {
  }

  lemma SettleTaskEndKeeps(r: Rec)
    requires RecInv(r) && r.settle.SettleWaiting?
    ensures RecInv(r.(settle := SettleDone)) && Onward(r, r.(settle := SettleDone))
  {
  }

  lemma LostKeeps(c: Cell, now: nat)
    requires RecInv(c.rec) && c.rec.settle.SettleWaiting?
    ensures Keeps(c, Settle(c, ObservationLost, now))
  {
    SettleTaskEndKeeps(c.rec);
    if !c.rec.terminal {
      var r := c.rec.(settle := SettleDone);
      ClaimKeeps(r, Unknown);
      OnwardTransitive(c.rec, r, EnsureCleanup(r, Unknown));
    }
  }

  lemma SettleKeeps(c: Cell, end: SettleEnd, now: nat)
    requires RecInv(c.rec)
    ensures Keeps(c, Settle(c, end, now))
  {
    if c.rec.settle.SettleWaiting? {
      match end
      case Settled(outcome) => SettledKeeps(c, outcome, now);
      case ObservationLost => LostKeeps(c, now);
    }
  }

  lemma TimeoutKeeps(c: Cell)
    requires RecInv(c.rec)
    ensures Keeps(c, c.(rec := TimeoutCancel(c.rec)))
  {
  }

  lemma CancelKeeps(c: Cell, expired: bool)
    requires RecInv(c.rec)
    ensures Keeps(c, c.(rec := ExplicitCancel(c.rec, expired)))
  {
    if expired { TimeoutKeeps(c); }
  }

  lemma CleanupLaunchKeeps(c: Cell)
    requires RecInv(c.rec)
    ensures Keeps(c, c.(rec := CleanupLaunch(c.rec)))
  {
  }

  lemma CleanupBeginKeeps(c: Cell)
    requires RecInv(c.rec)
    ensures Keeps(c, c.(rec := CleanupTasksBegin(c.rec)))
  {
  }

  lemma EngineEndKeeps(c: Cell, normally: bool)
    requires RecInv(c.rec)
    ensures Keeps(c, c.(rec := EngineCancelEnd(c.rec, normally)))
  {
  }

  lemma OwnerStopKeeps(c: Cell, expired: bool)
    requires RecInv(c.rec)
    ensures Keeps(c, c.(rec := OwnerStopEnd(c.rec, expired)))
  {
  }

  lemma NativeEndKeeps(c: Cell)
    requires RecInv(c.rec)
    ensures Keeps(c, c.(rec := NativeEnds(c.rec)))
  {
  }

  lemma CleanupEndKeeps(c: Cell, expired: bool, now: nat)
    requires RecInv(c.rec)
    ensures Keeps(c, CleanupEnd(c, expired, now))
  {
    CleanupEndRec(c, expired, now);
    CleanupEndLock(c, expired, now);
    CleanupEndOnward(c, expired, now);
  }

  lemma CleanupEndRec(c: Cell, expired: bool, now: nat)
    requires RecInv(c.rec)
    ensures RecInv(CleanupEnd(c, expired, now).rec)
  {
  }

  lemma CleanupEndLock(c: Cell, expired: bool, now: nat)
    requires RecInv(c.rec)
    ensures LockMove(c, CleanupEnd(c, expired, now))
  {
  }

  lemma CleanupEndOnward(c: Cell, expired: bool, now: nat)
    requires RecInv(c.rec)
    ensures Onward(c.rec, CleanupEnd(c, expired, now).rec)
  {
  }

  lemma StretchKeeps(c: Cell, t: Stretch, now: nat)
    requires RecInv(c.rec)
    ensures Keeps(c, Local(c, t, now))
  {
    match t
    case OBegin(expired, waits, prep) => OwnerBeginKeeps(c, expired, waits, prep, now);
    case OAcquire(prep) => OwnerAcquireKeeps(c, prep, now);
    case OLockTimeout => OwnerLockTimeoutKeeps(c, now);
    case OHook(end) => OwnerHookKeeps(c, end, now);
    case OProbe(end) => OwnerProbeKeeps(c, end, now);
    case OSend(end) => OwnerSendKeeps(c, end, now);
    case DoSettle(end) => SettleKeeps(c, end, now);
    case Deadline => TimeoutKeeps(c);
    case Cancel(expired) => CancelKeeps(c, expired);
    case Launch => CleanupLaunchKeeps(c);
    case TasksBegin => CleanupBeginKeeps(c);
    case EngineEnd(normally) => EngineEndKeeps(c, normally);
    case StopEnd(expired) => OwnerStopKeeps(c, expired);
    case NativeEnd => NativeEndKeeps(c);
    case WorkerEnd(expired) => CleanupEndKeeps(c, expired, now);
  }

  // ------------------------------------------------------------ the whole service

  ghost predicate LockInv(s: System) {
    && s.outside <= s.locked
    && (forall i :: 0 <= i < |s.recs| && s.recs[i].holds ==>
          s.recs[i].request.sessionRef in s.locked && s.recs[i].request.sessionRef !in s.outside)
    && (forall i, j :: 0 <= i < j < |s.recs| && s.recs[i].holds && s.recs[j].holds ==>
          s.recs[i].request.sessionRef != s.recs[j].request.sessionRef)
  }

  ghost predicate IdsUnique(s: System)
    requires Indexed(s)
  {
    forall j, k :: 0 <= j < k < |s.registry| ==>
      s.recs[s.registry[j]].request.invocationId != s.recs[s.registry[k]].request.invocationId
  }

  ghost predicate Inv(s: System) {
    && Indexed(s) && IdsUnique(s) && LockInv(s)
    && (forall i :: 0 <= i < |s.recs| ==> RecInv(s.recs[i]))
  }

  /** Eviction keeps the order of the dictionary and removes only evictable records. */
  lemma {:induction false} DropKeeps(recs: seq<Rec>, registry: seq<nat>, now: nat, window: nat, n: nat)
    requires forall k :: 0 <= k < |registry| ==> registry[k] < |recs|
    requires forall j, k :: 0 <= j < k < |registry| ==> registry[j] != registry[k]
    ensures var kept := Drop(recs, registry, now, window, n);
      && (forall j, k :: 0 <= j < k < |kept| ==> kept[j] != kept[k])
      && (forall i :: i in registry && i !in kept ==> Evictable(recs[i], now, window))
  {
    if registry != [] && n != 0 {
      var rest := registry[1..];
      var evicted := Evictable(recs[registry[0]], now, window);
      DropKeeps(recs, rest, now, window, if evicted then n - 1 else n);
      assert registry == [registry[0]] + rest;
      var kept := Drop(recs, rest, now, window, if evicted then n - 1 else n);
      assert Drop(recs, registry, now, window, n) == if evicted then kept else [registry[0]] + kept;
      assert registry[0] !in kept;
    }
  }

  /** One round of the eviction loop. */
  lemma DropStep(recs: seq<Rec>, registry: seq<nat>, now: nat, window: nat, n: nat, k: nat, kept: seq<nat>)
    requires forall j :: 0 <= j < |registry| ==> registry[j] < |recs|
    requires k < |registry|
    ensures kept + Drop(recs, registry[k..], now, window, n)
         == if n > 0 && Evictable(recs[registry[k]], now, window)
            then kept + Drop(recs, registry[k + 1..], now, window, n - 1)
            else kept + [registry[k]] + Drop(recs, registry[k + 1..], now, window, n)
  {
    assert registry[k..][1..] == registry[k + 1..];
    if n == 0 { assert registry[k..] == [registry[k]] + registry[k + 1..]; }
  }

  /** Asked for at least one eviction, it shrinks the registry exactly when one is possible. */
  lemma {:induction false} DropShrinksIff(recs: seq<Rec>, registry: seq<nat>, now: nat, window: nat, n: nat)
    requires forall k :: 0 <= k < |registry| ==> registry[k] < |recs|
    requires n > 0
    ensures |Drop(recs, registry, now, window, n)| < |registry|
       <==> exists k :: 0 <= k < |registry| && Evictable(recs[registry[k]], now, window)
  {
    if registry != [] && !Evictable(recs[registry[0]], now, window) {
      DropShrinksIff(recs, registry[1..], now, window, n);
      assert registry == [registry[0]] + registry[1..];
    }
  }

  ghost predicate DistinctPlaces(recs: seq<Rec>, registry: seq<nat>) {
    && (forall k :: 0 <= k < |registry| ==> registry[k] < |recs|)
    && (forall j, k :: 0 <= j < k < |registry| ==> registry[j] != registry[k])
  }

  /** Of two evictable records the older one goes first. */
  lemma {:induction false} DropTakesTheOldest(recs: seq<Rec>, registry: seq<nat>, now: nat, window: nat, n: nat,
                                              i: nat, j: nat)
    requires DistinctPlaces(recs, registry) && i < j < |registry| && Evictable(recs[registry[i]], now, window)
    requires registry[j] !in Drop(recs, registry, now, window, n)
    ensures registry[i] !in Drop(recs, registry, now, window, n)
  {
    var rest := registry[1..];
    assert registry[j] in registry && registry[0] !in rest;
    if n > 0 && i > 0 {
      assert registry[i] == rest[i - 1] && registry[j] == rest[j - 1];
      var evicted := Evictable(recs[registry[0]], now, window);
      DropTakesTheOldest(recs, rest, now, window, if evicted then n - 1 else n, i - 1, j - 1);
    }
  }

  /** It stops short of `n` records only when no evictable one is left. */
  lemma {:induction false} DropStopsShort(recs: seq<Rec>, registry: seq<nat>, now: nat, window: nat, n: nat)
    requires DistinctPlaces(recs, registry) && |Drop(recs, registry, now, window, n)| > |registry| - n
    ensures forall i :: i in Drop(recs, registry, now, window, n) ==> !Evictable(recs[i], now, window)
  {
    if registry != [] && n > 0 {
      var rest := registry[1..];
      var evicted := Evictable(recs[registry[0]], now, window);
      DropStopsShort(recs, rest, now, window, if evicted then n - 1 else n);
    }
  }

  lemma IdsDiffer(s: System)
    requires Indexed(s) && IdsUnique(s)
    ensures forall i, j :: i in s.registry && j in s.registry && i != j ==>
      s.recs[i].request.invocationId != s.recs[j].request.invocationId
  {
  }

  lemma AppendKeepsInv(s: System, kept: seq<nat>, r: Rec)
    requires Inv(s) && RecInv(r) && !r.holds
    requires forall i :: i in kept ==> i in s.registry
    requires forall j, k :: 0 <= j < k < |kept| ==> kept[j] != kept[k]
    requires forall k :: 0 <= k < |s.registry| ==> s.recs[s.registry[k]].request.invocationId != r.request.invocationId
    ensures Inv(s.(recs := s.recs + [r], registry := kept + [|s.recs|]))
  {
    var s' := s.(recs := s.recs + [r], registry := kept + [|s.recs|]);
    IdsDiffer(s);
    forall k | 0 <= k < |kept|
      ensures kept[k] < |s.recs| && s'.recs[kept[k]] == s.recs[kept[k]] && kept[k] in s.registry {
      assert kept[k] in s.registry;
    }
    assert IdsUnique(s') by {
      forall j, k | 0 <= j < k < |s'.registry|
        ensures s'.recs[s'.registry[j]].request.invocationId != s'.recs[s'.registry[k]].request.invocationId
      {
        assert kept[j] in s.registry;
        if k < |kept| { assert kept[k] in s.registry; }
      }
    }
  }

  lemma OnRecordKeepsInv(s: System, i: nat, t: Stretch)
    requires Inv(s) && i < |s.recs|
    ensures Inv(OnRecord(s, i, t))
  {
    StretchKeeps(CellAt(s, i), t, s.now);
    var s' := OnRecord(s, i, t);
    assert forall k :: 0 <= k < |s.recs| ==> s'.recs[k].request == s.recs[k].request;
    assert LockInv(s');
  }

  lemma StartKeepsInv(s: System, request: Request, window: nat)
    requires Inv(s)
    ensures Inv(Start(s, request, window).0)
  {
    if Start(s, request, window).1.Admitted? {
      ReserveKeeps(s, window);
      AppendKeepsInv(s, Reserve(s, window).value, NewRec(request));
    }
  }

  /** What makes room keeps every record that may not be evicted. */
  lemma ReserveKeeps(s: System, window: nat)
    requires Inv(s) && Reserve(s, window).Some?
    ensures var kept := Reserve(s, window).value;
      && (forall i :: i in kept ==> i in s.registry)
      && (forall j, k :: 0 <= j < k < |kept| ==> kept[j] != kept[k])
      && (forall i :: i in s.registry && i !in kept ==>
            |s.registry| >= MAX_RETAINED_RUNS && i < |s.recs| && Evictable(s.recs[i], s.now, window))
  {
    if |s.registry| >= MAX_RETAINED_RUNS {
      DropKeeps(s.recs, s.registry, s.now, window, |s.registry| - MAX_RETAINED_RUNS + 1);
    } else {
      assert Reserve(s, window) == Some(s.registry);
    }
  }

  lemma AdoptKeepsInv(s: System, request: Request, state: RunState, published: bool)
    requires Inv(s)
    ensures Inv(Adopt(s, request, state, published))
  {
    if Find(s.recs, s.registry, request.invocationId).None? {
      AppendKeepsInv(s, s.registry, RestoredRec(request, state, published, s.now));
    }
  }

  lemma NextKeepsInv(s: System, e: Event)
    requires Inv(s)
    ensures Inv(Next(s, e))
  {
    match e
    case Admit(request, window) => StartKeepsInv(s, request, window);
    case Restore(request, state, published) => AdoptKeepsInv(s, request, state, published);
    case On(i, t) => if i < |s.recs| { OnRecordKeepsInv(s, i, t); }
    case _ =>
  }

  /** The state after a run of events from `s`. */
  ghost function Run(s: System, es: seq<Event>): System
    requires Inv(s)
    decreases |es|
  {
    if es == [] then s
    else
      NextKeepsInv(s, es[0]);
      Run(Next(s, es[0]), es[1..])
  }

  lemma {:induction false} RunKeepsInv(s: System, es: seq<Event>)
    requires Inv(s)
    ensures Inv(Run(s, es))
    decreases |es|
  {
    if es != [] {
      NextKeepsInv(s, es[0]);
      RunKeepsInv(Next(s, es[0]), es[1..]);
    }
  }

  /** Every state some run reaches from the empty service. */
  ghost predicate Reachable(s: System) {
    exists es: seq<Event> :: Run(Empty, es) == s
  }

  lemma ReachableKeepsInv(s: System)
    requires Reachable(s)
    ensures Inv(s)
  {
    var es: seq<Event> :| Run(Empty, es) == s;
    RunKeepsInv(Empty, es);
  }

  lemma NextKeepsRecord(s: System, e: Event, i: nat)
    requires Inv(s) && i < |s.recs|
    ensures |s.recs| <= |Next(s, e).recs| && Onward(s.recs[i], Next(s, e).recs[i])
  {
    if e.On? && e.index == i {
      StretchKeeps(CellAt(s, i), e.stretch, s.now);
    }
  }

  lemma {:induction false} RunKeepsRecords(s: System, es: seq<Event>, i: nat)
    requires Inv(s) && i < |s.recs|
    ensures |s.recs| <= |Run(s, es).recs| && RecInv(Run(s, es).recs[i])
    ensures Onward(s.recs[i], Run(s, es).recs[i])
    decreases |es|
  {
    if es != [] {
      NextKeepsInv(s, es[0]);
      NextKeepsRecord(s, es[0], i);
      var s1 := Next(s, es[0]);
      RunKeepsRecords(s1, es[1..], i);
      OnwardTransitive(s.recs[i], s1.recs[i], Run(s1, es[1..]).recs[i]);
    }
  }

  // ------------------------------------------------------------ the main results

  /** In every reachable state an invocation whose send may have reached the engine holds the
      reservation of its session until its end is proved, and no one else does: no other
      invocation and no outside holder. */
  lemma UnconfirmedWorkHoldsTheSession(s: System, i: nat)
    requires Reachable(s) && i < |s.recs| && Unconfirmed(s.recs[i])
    ensures s.recs[i].holds
    ensures s.recs[i].request.sessionRef in s.locked && s.recs[i].request.sessionRef !in s.outside
    ensures forall j :: 0 <= j < |s.recs| && j != i && s.recs[j].holds ==>
              s.recs[j].request.sessionRef != s.recs[i].request.sessionRef
  {
    ReachableKeepsInv(s);
  }

  /** Two invocations of one session never have native work at once. */
  lemma NoConcurrentNativeWork(s: System, i: nat, j: nat)
    requires Reachable(s) && i < |s.recs| && j < |s.recs|
    requires s.recs[i].request.sessionRef == s.recs[j].request.sessionRef
    requires s.recs[i].native.Live? && s.recs[j].native.Live?
    ensures i == j
  {
    ReachableKeepsInv(s);
    assert RecInv(s.recs[i]) && RecInv(s.recs[j]);
    assert Unconfirmed(s.recs[i]) && Unconfirmed(s.recs[j]);
  }

  /** The engine is started at most once per record, one cleanup is claimed at most, `started`
      is resolved at most once, and a retained invocation id has a single record. */
  lemma OnceEach(s: System, i: nat)
    requires Reachable(s) && i < |s.recs|
    ensures s.recs[i].sends <= 1 && s.recs[i].claims <= 1 && s.recs[i].resolutions <= 1
    ensures forall j, k :: j in s.registry && k in s.registry && j != k && j < |s.recs| && k < |s.recs| ==>
              s.recs[j].request.invocationId != s.recs[k].request.invocationId
  {
    ReachableKeepsInv(s);
    IdsDiffer(s);
    assert RecInv(s.recs[i]);
  }

  /** A retry with the same data joins the retained record and changes nothing; different data
      under a retained id is refused and changes nothing. */
  lemma RetryJoins(s: System, request: Request, window: nat, i: nat)
    requires Inv(s) && i in s.registry && i < |s.recs|
    requires s.recs[i].request.invocationId == request.invocationId
    ensures Next(s, Admit(request, window)) == s
    ensures Start(s, request, window).1 == if s.recs[i].request == request then Joined else Conflict
  {
    IdsDiffer(s);
    var k :| 0 <= k < |s.registry| && s.registry[k] == i;
    var found := Find(s.recs, s.registry, request.invocationId);
    assert found.Some?;
  }

  /** Whatever happens later, a finished record keeps its state and its time. */
  lemma FinishedStaysFinished(s: System, es: seq<Event>, i: nat)
    requires Reachable(s) && i < |s.recs| && s.recs[i].terminalAt.Some?
    ensures Inv(s) && i < |Run(s, es).recs|
    ensures Run(s, es).recs[i].state == s.recs[i].state && Run(s, es).recs[i].terminalAt == s.recs[i].terminalAt
  {
    ReachableKeepsInv(s);
    RunKeepsRecords(s, es, i);
  }

  /** Where a claim by the deadline or by an explicit cancel leads. */
  function ClaimedEnd(t: Stretch): RunState {
    if t.Deadline? then Failed else Cancelled
  }

  lemma ClaimTakes(r: Rec)
    requires CleanupInv(r) && !r.terminal
    ensures var q := TimeoutCancel(r); q.terminal && q.cleanup.Claimed? && q.finalState == Failed
    ensures var q := ExplicitCancel(r, false); q.terminal && q.cleanup.Claimed? && q.finalState == Cancelled
  {
  }

  /** The first claim decides how an unfinished invocation ends, whatever fires afterwards: the
      deadline makes it failed and never cancelled, an explicit cancel makes it cancelled, and
      either way it may end unknown when the halt is not proved. */
  lemma FirstClaimDecides(s: System, es: seq<Event>, i: nat, t: Stretch)
    requires Reachable(s) && i < |s.recs| && !s.recs[i].terminal
    requires t == Deadline || t == Cancel(false)
    ensures Inv(s) && Inv(Next(s, On(i, t))) && i < |Run(Next(s, On(i, t)), es).recs|
    ensures var r := Run(Next(s, On(i, t)), es).recs[i];
      r.terminal && (r.terminalAt.Some? ==> r.state == ClaimedEnd(t) || r.state == Unknown)
  {
    ReachableKeepsInv(s);
    ClaimTakes(s.recs[i]);
    NextKeepsInv(s, On(i, t));
    RunKeepsRecords(Next(s, On(i, t)), es, i);
  }

  /** Finished, known, without reservation or unfinished cleanup task, and past the window. */
  predicate MayLeave(r: Rec, now: nat, window: nat) {
    && r.terminal && r.terminalAt.Some? && now >= r.terminalAt.value + window && r.state != Unknown && !r.holds
    && !r.cleanup.Claimed? && !r.cleanup.Launched? && !r.cleanup.Observing?
    && !r.engineCancel.Queued? && !r.engineCancel.Active? && !r.ownerStop.Queued? && !r.ownerStop.Active?
  }

  /** Exactly such records can be evicted. */
  lemma EvictableIff(r: Rec, now: nat, window: nat)
    ensures Evictable(r, now, window) <==> MayLeave(r, now, window)
  {
  }

  /** Only such records leave the registry, and only for a start that finds it full. */
  lemma OnlyEvictableRecordsLeave(s: System, request: Request, window: nat, i: nat)
    requires Inv(s) && i in s.registry && i < |s.recs|
    requires i !in Start(s, request, window).0.registry
    ensures |s.registry| >= 1024 && MayLeave(s.recs[i], s.now, window)
  {
    var kept := Reserve(s, window).value;
    assert i !in kept by {
      assert forall k :: k in kept ==> k in kept + [|s.recs|];
    }
    ReserveKeeps(s, window);
    EvictableIff(s.recs[i], s.now, window);
  }

  lemma OtherEventsKeepTheRegistry(s: System, e: Event, i: nat)
    requires Inv(s) && i in s.registry && !e.Admit?
    ensures i in Next(s, e).registry
  {
    if e.Restore? && Next(s, e) != s { assert Next(s, e).registry == s.registry + [|s.recs|]; }
  }

  /** A start never grows the registry past the larger of the bound and its previous size. */
  lemma StartKeepsTheBound(s: System, request: Request, window: nat)
    requires Inv(s)
    ensures var after := |Start(s, request, window).0.registry|;
      after <= if |s.registry| > 1024 then |s.registry| else 1024
  {
    if |s.registry| >= MAX_RETAINED_RUNS && AnyEvictable(s, window) {
      DropShrinksIff(s.recs, s.registry, s.now, window, |s.registry| - MAX_RETAINED_RUNS + 1);
    }
  }

  /** A registry grown only by starts never exceeds the bound. */
  lemma {:induction false} StartsAloneStayBounded(s: System, es: seq<Event>)
    requires Inv(s) && |s.registry| <= 1024
    requires forall k :: 0 <= k < |es| ==> !es[k].Restore?
    ensures |Run(s, es).registry| <= 1024
    decreases |es|
  {
    if es != [] {
      NextKeepsInv(s, es[0]);
      if es[0].Admit? { StartKeepsTheBound(s, es[0].request, es[0].window); }
      StartsAloneStayBounded(Next(s, es[0]), es[1..]);
    }
  }

  predicate FinishedState(state: RunState) {
    state == Completed || state == Failed || state == Cancelled || state == Skipped
  }

  /** A start admits a new record unless the id is retained or a full registry has nothing to evict. */
  lemma AdmittedIff(s: System, request: Request, window: nat)
    requires Inv(s)
    ensures var (s', answer) := Start(s, request, window);
      && (answer.Admitted? <==>
            (forall i :: i in s.registry ==> s.recs[i].request.invocationId != request.invocationId)
            && (|s.registry| < 1024 || exists i :: i in s.registry && MayLeave(s.recs[i], s.now, window)))
      && (answer.Admitted? ==>
            s'.recs == s.recs + [NewRec(request)] && |s.recs| in s'.registry
            && s'.locked == s.locked && s'.now == s.now)
      && (!answer.Admitted? ==> s' == s)
  {
    forall i: nat | i in s.registry
      ensures i < |s.recs| && (Evictable(s.recs[i], s.now, window) <==> MayLeave(s.recs[i], s.now, window)) {
      EvictableIff(s.recs[i], s.now, window);
    }
    var f := Find(s.recs, s.registry, request.invocationId);
    if f.None? {
      forall i | i in s.registry ensures s.recs[i].request.invocationId != request.invocationId {
        var k :| 0 <= k < |s.registry| && s.registry[k] == i;
      }
    }
    assert AnyEvictable(s, window) <==> exists i :: i in s.registry && Evictable(s.recs[i], s.now, window);
  }

  /** A run that a snapshot brings is adopted exactly if it is finished and its id is new: finished now, in
      its state, without any task. */
  lemma AdoptedIff(s: System, request: Request, state: RunState, published: bool)
    requires Inv(s)
    ensures var s' := Next(s, Restore(request, state, published));
      var fresh' := forall i :: i in s.registry ==> s.recs[i].request.invocationId != request.invocationId;
      if FinishedState(state) && fresh' then
        && |s'.recs| == |s.recs| + 1 && s'.recs[..|s.recs|] == s.recs && s'.registry == s.registry + [|s.recs|]
        && s'.locked == s.locked
        && var r := s'.recs[|s.recs|];
           && r.request == request && r.state == state && r.terminalAt == Some(s.now) && r.terminal && !r.holds
           && r.started == (if published then Published else Errored) && r.sends == 0 && r.owner.NoOwner?
      else s' == s
  {
    var f := Find(s.recs, s.registry, request.invocationId);
    if f.None? {
      forall i | i in s.registry ensures s.recs[i].request.invocationId != request.invocationId {
        var k :| 0 <= k < |s.registry| && s.registry[k] == i;
      }
    }
  }

  /** An outside holder takes a free session, and only its own unlock frees it; time goes on. */
  lemma OutsideTakes(s: System, session: string, elapsed: nat)
    requires Inv(s)
    ensures var s' := Next(s, LockOutside(session));
      (session in s'.outside <==> session in s.outside || session !in s.locked) && session in s'.locked
      && s'.recs == s.recs && forall x :: x != session ==> (x in s'.locked <==> x in s.locked)
    ensures var s' := Next(s, UnlockOutside(session));
      session !in s'.outside && (session in s'.locked <==> session in s.locked && session !in s.outside)
      && s'.recs == s.recs && forall x :: x != session ==> (x in s'.locked <==> x in s.locked)
    ensures Next(s, Tick(elapsed)) == s.(now := s.now + elapsed)
  {
  }
}
