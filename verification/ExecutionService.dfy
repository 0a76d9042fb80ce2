/** The execution service as objects that its tasks update in place. Every method is one
    await-free stretch, or one of the helpers the stretches share, and is tied to the function
    of the same name in ExecutionProtocol. */
module ExecutionService {
  import opened Options
  import opened ExecutionProtocol
  import opened ExecutionSafety

  /** One session's asyncio lock: only whether it is held. */
  class SessionLock {
    const session: string
    var locked: bool

    constructor (session: string)
      ensures !locked && this.session == session
    {
      this.session := session;
      locked := false;
    }

    method Unlock()
      modifies this
      ensures !locked
    {
      locked := false;
    }
  }

  class Invocation {
    const request: Request
    const lock: SessionLock
    ghost const at: nat   // its place among all invocations ever created
    var state: RunState
    var terminal: bool
    var terminalAt: Option<nat>
    var started: Signal
    var owner: OwnerPc
    var cancelRequested: bool
    var settle: SettlePc
    var cleanup: CleanupPc
    var finalState: RunState
    var engineCancel: TaskPc
    var ownerStop: TaskPc
    var reservation: SessionLock?
    var possibleSend: bool
    var native: Native
    ghost var sends: nat
    ghost var claims: nat
    ghost var resolutions: nat
    ghost var settledSeen: bool
    ghost var rejected: bool

    /** A reservation is always the lock of the invocation's own session. */
    ghost predicate Valid()
      reads this
    {
      reservation == null || reservation == lock
    }

    ghost function View(): Rec
      reads this
    {
      Rec(request, state, terminal, terminalAt, started, owner, cancelRequested, settle, cleanup, finalState,
          engineCancel, ownerStop, reservation != null, possibleSend, native,
          sends, claims, resolutions, settledSeen, rejected)
    }

    ghost function Now(): Cell
      reads this, lock
    {
      Cell(View(), lock.locked)
    }

    constructor (request: Request, lock: SessionLock, ghost at: nat)
      ensures Valid() && View() == NewRec(request) && this.lock == lock && this.at == at
    {
      this.request := request;
      this.at := at;
      this.lock := lock;
      state, terminal, terminalAt, started := Preparing, false, None, Unset;
      owner, cancelRequested, settle := NotBegun, false, NoSettle;
      cleanup, finalState, engineCancel, ownerStop := NoCleanup, Unknown, NotCreated, NotCreated;
      reservation, possibleSend, native := null, false, Unregistered;
      sends, claims, resolutions, settledSeen, rejected := 0, 0, 0, false, false;
    }

    constructor Restored(request: Request, lock: SessionLock, state: RunState, published: bool, now: nat, ghost at: nat)
      ensures Valid() && View() == RestoredRec(request, state, published, now) && this.lock == lock && this.at == at
    {
      this.request := request;
      this.at := at;
      this.lock := lock;
      this.state, terminal, terminalAt := state, true, Some(now);
      started := if published then Published else Errored;
      owner, cancelRequested, settle := NoOwner, false, NoSettle;
      cleanup, finalState, engineCancel, ownerStop := NoCleanup, Unknown, NotCreated, NotCreated;
      reservation, possibleSend, native := null, false, Unregistered;
      sends, claims, resolutions, settledSeen, rejected := 0, 0, 1, false, false;
    }

    predicate MayBeEvicted(now: nat, window: nat)
      reads this
      ensures MayBeEvicted(now, window) == Evictable(View(), now, window)
    {
      && terminal && terminalAt.Some? && reservation == null
      && (cleanup.NoCleanup? || cleanup.CleanupDone?)
      && state != Unknown
      && (engineCancel.NotCreated? || engineCancel.Ok? || engineCancel.Raised?)
      && (ownerStop.NotCreated? || ownerStop.Ok? || ownerStop.Raised?)
      && now - terminalAt.value >= window
    }

    // ---------------------------------------------------------- shared bookkeeping

    method Resolve(signal: Signal)
      requires Valid()
      modifies this
      ensures Valid() && View() == ExecutionProtocol.Resolve(old(View()), signal)
    {
      if started.Unset? {
        started := signal;
        resolutions := resolutions + 1;
      }
    }

    /** Reads and clears the captured reservation, then releases exactly that lock. */
    method ReleaseSessionLock()
      requires Valid()
      modifies this, lock
      ensures Valid() && Now() == Release(old(Now()))
    {
      var captured := reservation;
      reservation := null;
      if captured != null {
        captured.Unlock();
      }
    }

    method FailBeforeStarted(release: bool, now: nat)
      requires Valid()
      modifies this, lock
      ensures Valid() && Now() == ExecutionProtocol.FailBeforeStarted(old(Now()), release, now)
    {
      if terminal { return; }
      terminal, state, terminalAt := true, Failed, Some(now);
      Resolve(Errored);
      if release {
        ReleaseSessionLock();
      }
    }

    method FinishWithoutEngine(outcome: RunState, now: nat)
      requires Valid()
      modifies this, lock
      ensures Valid() && Now() == ExecutionProtocol.FinishWithoutEngine(old(Now()), outcome, now)
    {
      if terminal { return; }
      terminal, state, terminalAt := true, outcome, Some(now);
      Resolve(Published);
      ReleaseSessionLock();
    }

    method EnsureCleanup(final: RunState)
      requires Valid()
      modifies this
      ensures Valid() && View() == ExecutionProtocol.EnsureCleanup(old(View()), final)
    {
      if cleanup.NoCleanup? {
        terminal, cleanup, finalState := true, Claimed, final;
        claims := claims + 1;
      }
    }

    // ---------------------------------------------------------- the owner task

    method AfterGate(buildOk: bool, now: nat)
      requires Valid()
      modifies this, lock
      ensures Valid() && Now() == ExecutionProtocol.AfterGate(old(Now()), buildOk, now)
    {
      state := Sending;
      if buildOk {
        owner := AwaitProbe;
      } else {
        assert Now() == Cell(old(View()).(state := Sending), old(lock.locked));
        FailBeforeStarted(true, now);
        owner := OwnerReturned;
      }
    }

    method Reserved(prep: Preparation, now: nat)
      requires Valid() && reservation == null
      modifies this, lock
      ensures Valid() && Now() == ExecutionProtocol.Reserved(old(Now()), prep, now)
    {
      lock.locked := true;
      reservation := lock;
      if terminal {
        owner := OwnerReturned;
        return;
      }
      if prep.DeadlineExpired? || prep.SessionError? {
        FailBeforeStarted(true, now);
        owner := OwnerReturned;
        return;
      }
      state := Preparing;
      if prep.RunsHook? {
        owner := AwaitHook;
      } else {
        AfterGate(prep.Built?, now);
      }
    }

    method OwnerBegin(expired: bool, waits: bool, prep: Preparation, now: nat)
      requires Valid() && (owner.NotBegun? ==> reservation == null)
      modifies this, lock
      ensures Valid() && Now() == ExecutionProtocol.OwnerBegin(old(Now()), expired, waits, prep, now)
    {
      if !owner.NotBegun? { return; }
      if cancelRequested {
        owner := OwnerCancelled;
      } else if expired {
        FailBeforeStarted(false, now);
        owner := OwnerReturned;
      } else if lock.locked || waits {
        owner := AwaitLock;
      } else {
        Reserved(prep, now);
      }
    }

    method OwnerAcquire(prep: Preparation, now: nat)
      requires Valid() && (owner.AwaitLock? ==> reservation == null)
      modifies this, lock
      ensures Valid() && Now() == ExecutionProtocol.OwnerAcquire(old(Now()), prep, now)
    {
      if !owner.AwaitLock? { return; }
      if cancelRequested {
        owner := OwnerCancelled;
      } else if !lock.locked {
        Reserved(prep, now);
      }
    }

    method OwnerLockTimeout(now: nat)
      requires Valid()
      modifies this, lock
      ensures Valid() && Now() == ExecutionProtocol.OwnerLockTimeout(old(Now()), now)
    {
      if !owner.AwaitLock? { return; }
      FailBeforeStarted(false, now);
      owner := OwnerReturned;
    }

    method OwnerHook(end: HookEnd, now: nat)
      requires Valid()
      modifies this, lock
      ensures Valid() && Now() == ExecutionProtocol.OwnerHook(old(Now()), end, now)
    {
      if !owner.AwaitHook? { return; }
      match end {
        case HookFailed =>
          FinishWithoutEngine(Failed, now);
          owner := OwnerReturned;
        case HookCancelled =>
          if cancelRequested { owner := OwnerCancelled; }
        case Exited(code, buildOk) =>
          if terminal {
            owner := OwnerReturned;
          } else if code == 0 {
            AfterGate(buildOk, now);
          } else {
            FinishWithoutEngine(if code == SKIP_EXIT_CODE then Skipped else Failed, now);
            owner := OwnerReturned;
          }
        case _ =>
          FailBeforeStarted(true, now);
          owner := OwnerReturned;
      }
    }

    method OwnerProbe(end: ProbeEnd, now: nat)
      requires Valid()
      modifies this, lock
      ensures Valid() && Now() == ExecutionProtocol.OwnerProbe(old(Now()), end, now)
    {
      if !owner.AwaitProbe? { return; }
      if cancelRequested {
        owner := OwnerCancelled;
      } else if end.ToolsMissing? {
        FinishWithoutEngine(Failed, now);
        owner := OwnerReturned;
      } else if end.expired {
        FailBeforeStarted(true, now);
        owner := OwnerReturned;
      } else {
        possibleSend := true;
        native, owner := Live, AwaitSend;
        sends := sends + 1;
      }
    }

    method FailAfterPossibleSend(final: RunState)
      requires Valid()
      modifies this
      ensures Valid() && View() == ExecutionProtocol.FailAfterPossibleSend(Cell(old(View()), false), final).rec
    {
      if !terminal {
        EnsureCleanup(final);
        Resolve(Errored);
      }
      owner := OwnerReturned;
    }

    method SendRejected(now: nat)
      requires Valid()
      modifies this, lock
      ensures Valid() && Now() == ExecutionProtocol.SendRejected(old(Now()), now)
    {
      native, rejected := Over, true;
      assert Now() == Cell(old(View()).(native := Over, rejected := true), old(lock.locked));
      FailBeforeStarted(true, now);
      owner := OwnerReturned;
    }

    method ReceiptLanded(marked: bool)
      requires Valid()
      modifies this
      ensures Valid() && View() == ExecutionProtocol.ReceiptLanded(old(View()), marked)
    {
      if !marked {
        owner := OwnerRaised;
      } else if terminal {
        owner := OwnerReturned;
      } else {
        state, settle, owner := Running, SettleWaiting, OwnerReturned;
        Resolve(Published);
      }
    }

    method OwnerSend(end: SendEnd, now: nat)
      requires Valid()
      modifies this, lock
      ensures Valid() && Now() == ExecutionProtocol.OwnerSend(old(Now()), end, now)
    {
      if !owner.AwaitSend? { return; }
      match end {
        case SendCancelled =>
          if cancelRequested { owner := OwnerCancelled; }
        case CleanlyRejected =>
          SendRejected(now);
        case Ambiguous =>
          FailAfterPossibleSend(Unknown);
        case TimedOut =>
          FailAfterPossibleSend(Failed);
        case Receipt(marked) =>
          ReceiptLanded(marked);
      }
    }

    // ---------------------------------------------------------- the other triggers

    method HoldUntilSettled(end: SettleEnd, now: nat)
      requires Valid()
      modifies this, lock
      ensures Valid() && Now() == Settle(old(Now()), end, now)
    {
      if !settle.SettleWaiting? { return; }
      match end {
        case ObservationLost =>
          settle := SettleDone;
          if !terminal { EnsureCleanup(Unknown); }
        case Settled(outcome) =>
          if !native.Over? { return; }
          settle, settledSeen := SettleDone, true;
          if !terminal {
            state, terminal, terminalAt := outcome, true, Some(now);
            ReleaseSessionLock();
          }
      }
    }

    method TimeoutCancel()
      requires Valid()
      modifies this
      ensures Valid() && View() == ExecutionProtocol.TimeoutCancel(old(View()))
    {
      if terminal { return; }
      Resolve(Errored);
      EnsureCleanup(Failed);
    }

    method ExplicitCancel(expired: bool)
      requires Valid()
      modifies this
      ensures Valid() && View() == ExecutionProtocol.ExplicitCancel(old(View()), expired)
    {
      if !cleanup.NoCleanup? || terminal { return; }
      if expired {
        TimeoutCancel();
      } else {
        Resolve(Revoked);
        EnsureCleanup(Cancelled);
      }
    }

    // ---------------------------------------------------------- the cleanup worker

    method CleanupLaunch()
      requires Valid()
      modifies this
      ensures Valid() && View() == ExecutionProtocol.CleanupLaunch(old(View()))
    {
      if cleanup.Claimed? {
        cleanup, engineCancel, ownerStop := Launched, Queued, Queued;
      }
    }

    method CleanupTasksBegin()
      requires Valid()
      modifies this
      ensures Valid() && View() == ExecutionProtocol.CleanupTasksBegin(old(View()))
    {
      if !cleanup.Launched? { return; }
      cleanup := Observing;
      engineCancel := if native.Unregistered? then Ok else Active;
      if OwnerFinished(owner) {
        ownerStop := if owner.OwnerRaised? then Raised else Ok;
      } else {
        ownerStop, cancelRequested := Active, true;
      }
    }

    method EngineCancelEnd(normally: bool)
      requires Valid()
      modifies this
      ensures Valid() && View() == ExecutionProtocol.EngineCancelEnd(old(View()), normally)
    {
      if engineCancel.Active? && (normally ==> native.Over?) {
        engineCancel := if normally then Ok else Raised;
      }
    }

    method OwnerStopEnd(expired: bool)
      requires Valid()
      modifies this
      ensures Valid() && View() == ExecutionProtocol.OwnerStopEnd(old(View()), expired)
    {
      if !ownerStop.Active? { return; }
      if OwnerFinished(owner) {
        ownerStop := if owner.OwnerRaised? then Raised else Ok;
      } else if expired {
        ownerStop := Raised;
      }
    }

    method CleanupEnd(expired: bool, now: nat)
      requires Valid()
      modifies this, lock
      ensures Valid() && Now() == ExecutionProtocol.CleanupEnd(old(Now()), expired, now)
    {
      var done := (engineCancel.Ok? || engineCancel.Raised?) && (ownerStop.Ok? || ownerStop.Raised?);
      if !cleanup.Observing? || (!done && !expired) { return; }
      cleanup, terminalAt := CleanupDone, Some(now);
      if engineCancel.Ok? && ownerStop.Ok? {
        state := finalState;
        ReleaseSessionLock();
      } else {
        state := Unknown;
      }
    }

    method NativeEnds()
      requires Valid()
      modifies this
      ensures Valid() && View() == ExecutionProtocol.NativeEnds(old(View()))
    {
      if native.Live? { native := Over; }
    }

    /** The stretch a task of this invocation runs next. */
    method Perform(t: Stretch, now: nat)
      requires Valid() && (owner.NotBegun? || owner.AwaitLock? ==> reservation == null)
      modifies this, lock
      ensures Valid() && Now() == Local(old(Now()), t, now)
    {
      match t {
        case OBegin(expired, waits, prep) => OwnerBegin(expired, waits, prep, now);
        case OAcquire(prep) => OwnerAcquire(prep, now);
        case OLockTimeout => OwnerLockTimeout(now);
        case OHook(end) => OwnerHook(end, now);
        case OProbe(end) => OwnerProbe(end, now);
        case OSend(end) => OwnerSend(end, now);
        case DoSettle(end) => HoldUntilSettled(end, now);
        case Deadline => TimeoutCancel();
        case Cancel(expired) => ExplicitCancel(expired);
        case Launch => CleanupLaunch();
        case TasksBegin => CleanupTasksBegin();
        case EngineEnd(normally) => EngineCancelEnd(normally);
        case StopEnd(expired) => OwnerStopEnd(expired);
        case WorkerEnd(expired) => CleanupEnd(expired, now);
        case NativeEnd => NativeEnds();
      }
    }
  }

  class Service {
    var invocations: seq<Invocation>         // the retained dictionary, in insertion order
    var locks: map<string, SessionLock>      // the session registry's locks; never dropped
    var now: nat
    ghost var records: seq<Invocation>       // every invocation ever created
    ghost var model: System                  // the protocol state these objects represent

    ghost predicate Valid()
      reads this, records, locks.Values
    {
      && Indexed(model) && model.now == now
      && Places(invocations, model.registry)
      && |model.recs| == |records|
      && (forall i :: 0 <= i < |records| ==> Represents(records[i], i, model.recs[i], locks))
      && (forall r :: r in locks ==> locks[r].session == r && (r in model.locked <==> locks[r].locked))
      && model.locked <= locks.Keys
    }

    static ghost predicate Represents(inv: Invocation, i: nat, r: Rec, locks: map<string, SessionLock>)
      reads inv
    {
      && inv.Valid() && inv.at == i && inv.View() == r
      && inv.request.sessionRef in locks && inv.lock == locks[inv.request.sessionRef]
    }

    ghost predicate Places(invs: seq<Invocation>, at: seq<nat>)
      reads this
    {
      |invs| == |at| && forall k :: 0 <= k < |at| ==> at[k] < |records| && invs[k] == records[at[k]]
    }

    constructor ()
      ensures Valid() && model == Empty
    {
      invocations, locks, now := [], map[], 0;
      records, model := [], Empty;
    }

    /** One stretch of one task: only its record and the lock of its session change. */
    method RunStretch(ghost i: nat, inv: Invocation, t: Stretch)
      requires Valid() && i < |records| && records[i] == inv && HoldInv(model.recs[i])
      modifies inv, inv.lock, this`model
      ensures Valid() && model == OnRecord(old(model), i, t)
    {
      inv.Perform(t, now);
      model := Put(model, i, inv.Now());
    }

    /** A lock taken or given back by a caller that holds no invocation. */
    method LockOutside(lock: SessionLock)
      requires Valid() && lock.session in locks && locks[lock.session] == lock
      modifies this`model, lock
      ensures Valid() && model == Next(old(model), ExecutionProtocol.LockOutside(lock.session))
    {
      model := Next(model, ExecutionProtocol.LockOutside(lock.session));
      lock.locked := true;
    }

    method UnlockOutside(lock: SessionLock)
      requires Valid() && lock.session in model.outside && lock.session in locks && locks[lock.session] == lock
      modifies this`model, lock
      ensures Valid() && model == Next(old(model), ExecutionProtocol.UnlockOutside(lock.session))
    {
      model := Next(model, ExecutionProtocol.UnlockOutside(lock.session));
      lock.Unlock();
    }

    /** The lock of a session, created unlocked on first use and never replaced. */
    method LockOf(session: string) returns (lock: SessionLock)
      requires Valid()
      modifies this`locks
      ensures Valid() && session in locks && lock == locks[session]
      ensures if session in old(locks) then locks == old(locks) else fresh(lock) && locks == old(locks)[session := lock]
    {
      if session in locks { return locks[session]; }
      lock := new SessionLock(session);
      locks := locks[session := lock];
    }

    method Advance(elapsed: nat)
      requires Valid()
      modifies this`now, this`model
      ensures Valid() && model == Next(old(model), Tick(elapsed))
    {
      now := now + elapsed;
      model := model.(now := now);
    }

    method Lookup(id: string) returns (found: Invocation?)
      requires Valid()
      ensures var at := Find(model.recs, model.registry, id);
        if at.None? then found == null else found == records[at.value]
    {
      var k := 0;
      while k < |invocations|
        invariant 0 <= k <= |invocations|
        invariant Find(model.recs, model.registry, id) == Find(model.recs, model.registry[k..], id)
      {
        if invocations[k].request.invocationId == id { return invocations[k]; }
        k := k + 1;
      }
      found := null;
    }

    /** Pops the first `excess` evictable invocations, in insertion order. */
    method Evict(excess: nat, window: nat) returns (kept: seq<Invocation>, ghost keptAt: seq<nat>)
      requires Valid()
      ensures keptAt == Drop(model.recs, model.registry, now, window, excess)
      ensures Places(kept, keptAt)
    {
      ghost var recs, registry := model.recs, model.registry;
      var left, k := excess, 0;
      kept, keptAt := [], [];
      assert registry[0..] == registry;
      while k < |invocations|
        invariant 0 <= k <= |invocations| && 0 <= left
        invariant Drop(recs, registry, now, window, excess) == keptAt + Drop(recs, registry[k..], now, window, left)
        invariant Places(kept, keptAt)
      {
        left, kept, keptAt := EvictOrKeep(k, left, window, kept, keptAt);
        k := k + 1;
      }
      assert registry[k..] == [];
    }

    /** One round of the loop. */
    method EvictOrKeep(k: nat, left: nat, window: nat, kept: seq<Invocation>, ghost keptAt: seq<nat>)
      returns (left': nat, kept': seq<Invocation>, ghost keptAt': seq<nat>)
      requires Valid() && k < |invocations| && Places(kept, keptAt)
      ensures Places(kept', keptAt')
      ensures keptAt' + Drop(model.recs, model.registry[k + 1..], now, window, left')
           == keptAt + Drop(model.recs, model.registry[k..], now, window, left)
    {
      var inv := invocations[k];
      DropStep(model.recs, model.registry, now, window, left, k, keptAt);
      assert model.recs[model.registry[k]] == inv.View();
      if left > 0 && inv.MayBeEvicted(now, window) {
        left', kept', keptAt' := left - 1, kept, keptAt;
      } else {
        left', kept', keptAt' := left, kept + [inv], keptAt + [model.registry[k]];
      }
    }

    /** Makes room for one more record, or refuses. */
    method ReserveCapacity(window: nat) returns (kept: seq<Invocation>, ghost keptAt: seq<nat>, full: bool)
      requires Valid()
      ensures Reserve(model, window) == if full then None else Some(keptAt)
      ensures Places(kept, keptAt) && forall j, k :: 0 <= j < k < |keptAt| ==> keptAt[j] != keptAt[k]
    {
      if |invocations| < MAX_RETAINED_RUNS { return invocations, model.registry, false; }
      ghost var excess := |model.registry| - MAX_RETAINED_RUNS + 1;
      kept, keptAt := Evict(|invocations| - MAX_RETAINED_RUNS + 1, window);
      full := |kept| == |invocations|;
      DropShrinksIff(model.recs, model.registry, now, window, excess);
      DropKeeps(model.recs, model.registry, now, window, excess);
    }

    /** Adds a record to the dictionary that is left after the evictions. */
    method Retain(inv: Invocation, kept: seq<Invocation>, ghost keptAt: seq<nat>)
      requires Valid() && Represents(inv, |records|, inv.View(), locks)
      requires Places(kept, keptAt) && forall j, k :: 0 <= j < k < |keptAt| ==> keptAt[j] != keptAt[k]
      modifies this`invocations, this`records, this`model
      ensures Valid() && records == old(records) + [inv]
      ensures model == old(model).(recs := old(model.recs) + [inv.View()], registry := keptAt + [|old(records)|])
    {
      model := model.(recs := model.recs + [inv.View()], registry := keptAt + [|records|]);
      records := records + [inv];
      invocations := kept + [inv];
    }

    /** A new record whose owner task is still to begin. */
    method Create(request: Request, kept: seq<Invocation>, ghost keptAt: seq<nat>) returns (inv: Invocation)
      requires Valid()
      requires Places(kept, keptAt) && forall j, k :: 0 <= j < k < |keptAt| ==> keptAt[j] != keptAt[k]
      modifies this
      ensures Valid() && fresh(inv) && records == old(records) + [inv]
      ensures model == old(model).(recs := old(model.recs) + [NewRec(request)], registry := keptAt + [|old(records)|])
    {
      var lock := LockOf(request.sessionRef);
      inv := new Invocation(request, lock, |records|);
      Retain(inv, kept, keptAt);
    }

    /** start(): joins a retained invocation, or admits a new one with its owner task to begin. */
    method Start(request: Request, window: nat) returns (inv: Invocation?, admission: Admission)
      requires Valid()
      modifies this
      ensures Valid()
      ensures (model, admission) == ExecutionProtocol.Start(old(model), request, window)
      ensures admission.Admitted? ==> fresh(inv) && records == old(records) + [inv]
      ensures admission.Joined? ==>
        inv == old(records)[Find(old(model).recs, old(model).registry, request.invocationId).value]
    {
      inv := Lookup(request.invocationId);
      if inv != null {
        admission := if inv.request == request then Joined else Conflict;
        return;
      }
      var kept, keptAt, full := ReserveCapacity(window);
      if full { return null, CapacityExceeded; }
      inv := Create(request, kept, keptAt);
      admission := Admitted;
    }

    /** Adopts a finished run of a snapshot; a run that is known or not finished is left alone. */
    method AdoptRestoredRun(request: Request, state: RunState, published: bool)
      requires Valid()
      modifies this
      ensures Valid() && model == Adopt(old(model), request, state, published)
    {
      var known := Lookup(request.invocationId);
      if known == null && (state.Completed? || state.Failed? || state.Cancelled? || state.Skipped?) {
        var lock := LockOf(request.sessionRef);
        var inv := new Invocation.Restored(request, lock, state, published, now, |records|);
        Retain(inv, invocations, model.registry);
      }
    }
  }
}
