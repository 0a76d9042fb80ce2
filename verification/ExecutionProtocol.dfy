/** The invocation protocol of the execution service as a transition system on values.
    One function per await-free stretch of runtime/src/ach_runtime/execution/service.py; the
    class in ExecutionService.dfy performs the same stretches by updating objects in place. */
module ExecutionProtocol {
  import opened Options

  const MAX_RETAINED_RUNS := 1024
  const SKIP_EXIT_CODE := 78

  datatype RunState = Preparing | Sending | Running | Completed | Failed | Cancelled | Skipped | Unknown

  datatype Request = Request(invocationId: string, sessionRef: string, payload: string)

  /** The shared `started` future: pending, a published Started, an exception, or cancelled. */
  datatype Signal = Unset | Published | Errored | Revoked

  /** Where the owner task is suspended, or how it ended. */
  datatype OwnerPc =
    | NotBegun | AwaitLock | AwaitHook | AwaitProbe | AwaitSend
    | OwnerReturned | OwnerRaised | OwnerCancelled | NoOwner

  datatype SettlePc = NoSettle | SettleWaiting | SettleDone

  /** The single cleanup worker: claimed, then its two tasks are created back to back, then
      their first stretches run, then it observes both until its last stretch. */
  datatype CleanupPc = NoCleanup | Claimed | Launched | Observing | CleanupDone

  datatype TaskPc = NotCreated | Queued | Active | Ok | Raised

  /** The native side as the abstract engine sees it. */
  datatype Native = Unregistered | Live | Over

  /** One `_Invocation` record. The last five fields are history that no stretch reads. */
  datatype Rec = Rec(
    request: Request, state: RunState, terminal: bool, terminalAt: Option<nat>, started: Signal,
    owner: OwnerPc, cancelRequested: bool, settle: SettlePc,
    cleanup: CleanupPc, finalState: RunState, engineCancel: TaskPc, ownerStop: TaskPc,
    holds: bool, possibleSend: bool, native: Native,
    sends: nat, claims: nat, resolutions: nat, settledSeen: bool, rejected: bool)

  /** A record together with the lock of its session. */
  datatype Cell = Cell(rec: Rec, locked: bool)

  function NewRec(request: Request): Rec {
    Rec(request, Preparing, false, None, Unset, NotBegun, false, NoSettle, NoCleanup, Unknown,
        NotCreated, NotCreated, false, false, Unregistered, 0, 0, 0, false, false)
  }

  /** A record adopted from a snapshot: terminal from the start, with no task of its own. */
  function RestoredRec(request: Request, state: RunState, published: bool, now: nat): Rec {
    NewRec(request).(state := state, terminal := true, terminalAt := Some(now), owner := NoOwner,
                     started := if published then Published else Errored, resolutions := 1)
  }

  predicate OwnerFinished(o: OwnerPc) {
    (o.OwnerReturned? || o.OwnerRaised? || o.OwnerCancelled? || o.NoOwner?)
  }

  // ------------------------------------------------------------ the shared bookkeeping

  function Resolve(r: Rec, signal: Signal): Rec {
    if r.started.Unset? then r.(started := signal, resolutions := r.resolutions + 1) else r
  }

  function Release(c: Cell): Cell {
    if c.rec.holds then Cell(c.rec.(holds := false), false) else c
  }

  function FailBeforeStarted(c: Cell, release: bool, now: nat): Cell {
    if c.rec.terminal then c
    else
      var r := Resolve(c.rec.(terminal := true, state := Failed, terminalAt := Some(now)), Errored);
      if release then Release(Cell(r, c.locked)) else Cell(r, c.locked)
  }

  function FinishWithoutEngine(c: Cell, state: RunState, now: nat): Cell {
    if c.rec.terminal then c
    else
      var r := Resolve(c.rec.(terminal := true, state := state, terminalAt := Some(now)), Published);
      Release(Cell(r, c.locked))
  }

  function EnsureCleanup(r: Rec, final: RunState): Rec {
    if !r.cleanup.NoCleanup? then r
    else r.(terminal := true, cleanup := Claimed, finalState := final, claims := r.claims + 1)
  }

  function EndOwner(c: Cell, pc: OwnerPc): Cell {
    c.(rec := c.rec.(owner := pc))
  }

  // ------------------------------------------------------------ the owner task

  /** What preparation runs into between the reservation and its next suspension. */
  datatype Preparation = DeadlineExpired | SessionError | RunsHook | BuildError | Built

  datatype HookEnd = Exited(code: int, buildOk: bool) | HookFailed | HookTimedOut | HookError | HookCancelled

  datatype ProbeEnd = ToolsListed(expired: bool) | ToolsMissing

  datatype SendEnd = Receipt(marked: bool) | CleanlyRejected | Ambiguous | TimedOut | SendCancelled

  function AfterGate(c: Cell, buildOk: bool, now: nat): Cell {
    var c1 := c.(rec := c.rec.(state := Sending));
    if buildOk then EndOwner(c1, AwaitProbe)
    else EndOwner(FailBeforeStarted(c1, true, now), OwnerReturned)
  }

  /** The stretch that starts with a successful acquire: ownership is recorded before anything
      else, and a claim that came first leaves the reservation to its cleanup. */
  function Reserved(c: Cell, prep: Preparation, now: nat): Cell {
    var c1 := Cell(c.rec.(holds := true), true);
    if c1.rec.terminal then EndOwner(c1, OwnerReturned)
    else match prep
      case DeadlineExpired => EndOwner(FailBeforeStarted(c1, true, now), OwnerReturned)
      case SessionError => EndOwner(FailBeforeStarted(c1, true, now), OwnerReturned)
      case RunsHook => EndOwner(c1.(rec := c1.rec.(state := Preparing)), AwaitHook)
      case BuildError => AfterGate(c1.(rec := c1.rec.(state := Preparing)), false, now)
      case Built => AfterGate(c1.(rec := c1.rec.(state := Preparing)), true, now)
  }

  /** First stretch. A task cancelled before it begins never runs its coroutine. */
  function OwnerBegin(c: Cell, expired: bool, waits: bool, prep: Preparation, now: nat): Cell {
    if !c.rec.owner.NotBegun? then c
    else if c.rec.cancelRequested then EndOwner(c, OwnerCancelled)
    else if expired then EndOwner(FailBeforeStarted(c, false, now), OwnerReturned)
    else if c.locked || waits then EndOwner(c, AwaitLock)
    else Reserved(c, prep, now)
  }

  /** The acquire returns: only while the lock is free, and never past a delivered cancellation. */
  function OwnerAcquire(c: Cell, prep: Preparation, now: nat): Cell {
    if !c.rec.owner.AwaitLock? then c
    else if c.rec.cancelRequested then EndOwner(c, OwnerCancelled)
    else if c.locked then c
    else Reserved(c, prep, now)
  }

  function OwnerLockTimeout(c: Cell, now: nat): Cell {
    if !c.rec.owner.AwaitLock? then c
    else EndOwner(FailBeforeStarted(c, false, now), OwnerReturned)
  }

  function OwnerHook(c: Cell, end: HookEnd, now: nat): Cell {
    if !c.rec.owner.AwaitHook? then c
    else match end
      case HookFailed => EndOwner(FinishWithoutEngine(c, Failed, now), OwnerReturned)
      case HookTimedOut => EndOwner(FailBeforeStarted(c, true, now), OwnerReturned)
      case HookError => EndOwner(FailBeforeStarted(c, true, now), OwnerReturned)
      case HookCancelled => if c.rec.cancelRequested then EndOwner(c, OwnerCancelled) else c
      case Exited(code, buildOk) =>
        if c.rec.terminal then EndOwner(c, OwnerReturned)
        else if code == SKIP_EXIT_CODE then EndOwner(FinishWithoutEngine(c, Skipped, now), OwnerReturned)
        else if code != 0 then EndOwner(FinishWithoutEngine(c, Failed, now), OwnerReturned)
        else AfterGate(c, buildOk, now)
  }

  /** The tool probe never swallows a cancellation. Nothing here looks at `terminal`: a claim
      whose tasks have not begun yet does not stop the send. */
  function OwnerProbe(c: Cell, end: ProbeEnd, now: nat): Cell {
    if !c.rec.owner.AwaitProbe? then c
    else if c.rec.cancelRequested then EndOwner(c, OwnerCancelled)
    else match end
      case ToolsMissing => EndOwner(FinishWithoutEngine(c, Failed, now), OwnerReturned)
      case ToolsListed(expired) =>
        if expired then EndOwner(FailBeforeStarted(c, true, now), OwnerReturned)
        else EndOwner(c.(rec := c.rec.(possibleSend := true, native := Live, sends := c.rec.sends + 1)),
                      AwaitSend)
  }

  function OwnerSend(c: Cell, end: SendEnd, now: nat): Cell {
    if !c.rec.owner.AwaitSend? then c
    else match end
      case SendCancelled => if c.rec.cancelRequested then EndOwner(c, OwnerCancelled) else c
      case CleanlyRejected => SendRejected(c, now)
      case Ambiguous => FailAfterPossibleSend(c, Unknown)
      case TimedOut => FailAfterPossibleSend(c, Failed)
      case Receipt(marked) => c.(rec := ReceiptLanded(c.rec, marked))
  }

  function SendRejected(c: Cell, now: nat): Cell {
    var c1 := c.(rec := c.rec.(native := Over, rejected := true));
    EndOwner(FailBeforeStarted(c1, true, now), OwnerReturned)
  }

  /** Started is never published past a claim; a session marker that cannot be written ends the
      owner with an exception and publishes nothing. */
  function ReceiptLanded(r: Rec, marked: bool): Rec {
    if !marked then r.(owner := OwnerRaised)
    else if r.terminal then r.(owner := OwnerReturned)
    else Resolve(r.(state := Running, settle := SettleWaiting, owner := OwnerReturned), Published)
  }

  function FailAfterPossibleSend(c: Cell, final: RunState): Cell {
    if c.rec.terminal then EndOwner(c, OwnerReturned)
    else EndOwner(c.(rec := Resolve(EnsureCleanup(c.rec, final), Errored)), OwnerReturned)
  }

  // ------------------------------------------------------------ the other triggers

  datatype SettleEnd = Settled(outcome: RunState) | ObservationLost

  /** `wait_settled` returns only when the native work is over. */
  function Settle(c: Cell, end: SettleEnd, now: nat): Cell {
    if !c.rec.settle.SettleWaiting? then c
    else match end
      case ObservationLost =>
        if c.rec.terminal then c.(rec := c.rec.(settle := SettleDone))
        else c.(rec := EnsureCleanup(c.rec.(settle := SettleDone), Unknown))
      case Settled(outcome) =>
        if !c.rec.native.Over? then c
        else
          var r := c.rec.(settle := SettleDone, settledSeen := true);
          if r.terminal then c.(rec := r)
          else Release(Cell(r.(state := outcome, terminal := true, terminalAt := Some(now)), c.locked))
  }

  function TimeoutCancel(r: Rec): Rec {
    if r.terminal then r else EnsureCleanup(Resolve(r, Errored), Failed)
  }

  /** The public cancel, and close() for every unfinished invocation. */
  function ExplicitCancel(r: Rec, expired: bool): Rec {
    if !r.cleanup.NoCleanup? || r.terminal then r
    else if expired then TimeoutCancel(r)
    else EnsureCleanup(Resolve(r, Revoked), Cancelled)
  }

  // ------------------------------------------------------------ the cleanup worker

  function CleanupLaunch(r: Rec): Rec {
    if !r.cleanup.Claimed? then r
    else r.(cleanup := Launched, engineCancel := Queued, ownerStop := Queued)
  }

  /** The first stretches of engine cancel and owner stop. The two tasks are created in adjacent
      statements and the ready queue is first-in first-out, so nothing runs between them.
      Cancelling an invocation the engine never registered returns at once. */
  function CleanupTasksBegin(r: Rec): Rec {
    if !r.cleanup.Launched? then r
    else
      var r1 := r.(cleanup := Observing, engineCancel := if r.native.Unregistered? then Ok else Active);
      if OwnerFinished(r1.owner) then r1.(ownerStop := if r1.owner.OwnerRaised? then Raised else Ok)
      else r1.(ownerStop := Active, cancelRequested := true)
  }

  /** `engine.cancel` returns normally only when the native work is halted. */
  function EngineCancelEnd(r: Rec, normally: bool): Rec {
    if !r.engineCancel.Active? || (normally && !r.native.Over?) then r
    else r.(engineCancel := if normally then Ok else Raised)
  }

  function OwnerStopEnd(r: Rec, expired: bool): Rec {
    if !r.ownerStop.Active? then r
    else if OwnerFinished(r.owner) then r.(ownerStop := if r.owner.OwnerRaised? then Raised else Ok)
    else if expired then r.(ownerStop := Raised)
    else r
  }

  /** The last stretch of the worker: both tasks done, or the observation expired. */
  function CleanupEnd(c: Cell, expired: bool, now: nat): Cell {
    var r := c.rec;
    var done := (r.engineCancel.Ok? || r.engineCancel.Raised?) && (r.ownerStop.Ok? || r.ownerStop.Raised?);
    if !r.cleanup.Observing? || (!done && !expired) then c
    else
      var r1 := r.(cleanup := CleanupDone, terminalAt := Some(now));
      if r.engineCancel.Ok? && r.ownerStop.Ok?
      then Release(Cell(r1.(state := r.finalState), c.locked))
      else Cell(r1.(state := Unknown), c.locked)
  }

  function NativeEnds(r: Rec): Rec {
    if r.native.Live? then r.(native := Over) else r
  }

  datatype Stretch =
    | OBegin(expired: bool, waits: bool, prep: Preparation)
    | OAcquire(prep: Preparation)
    | OLockTimeout
    | OHook(hookEnd: HookEnd)
    | OProbe(probeEnd: ProbeEnd)
    | OSend(sendEnd: SendEnd)
    | DoSettle(settleEnd: SettleEnd)
    | Deadline
    | Cancel(expired: bool)
    | Launch
    | TasksBegin
    | EngineEnd(normally: bool)
    | StopEnd(expired: bool)
    | WorkerEnd(expired: bool)
    | NativeEnd

  function Local(c: Cell, t: Stretch, now: nat): Cell {
    match t
    case OBegin(expired, waits, prep) => OwnerBegin(c, expired, waits, prep, now)
    case OAcquire(prep) => OwnerAcquire(c, prep, now)
    case OLockTimeout => OwnerLockTimeout(c, now)
    case OHook(end) => OwnerHook(c, end, now)
    case OProbe(end) => OwnerProbe(c, end, now)
    case OSend(end) => OwnerSend(c, end, now)
    case DoSettle(end) => Settle(c, end, now)
    case Deadline => c.(rec := TimeoutCancel(c.rec))
    case Cancel(expired) => c.(rec := ExplicitCancel(c.rec, expired))
    case Launch => c.(rec := CleanupLaunch(c.rec))
    case TasksBegin => c.(rec := CleanupTasksBegin(c.rec))
    case EngineEnd(normally) => c.(rec := EngineCancelEnd(c.rec, normally))
    case StopEnd(expired) => c.(rec := OwnerStopEnd(c.rec, expired))
    case WorkerEnd(expired) => CleanupEnd(c, expired, now)
    case NativeEnd => c.(rec := NativeEnds(c.rec))
  }

  // ------------------------------------------------------------ the registry

  /** Every record ever created is kept in `recs`; `registry` is the retained dictionary, as
      indices in insertion order. `locked` is the session locks that are held, `outside` those
      held by restore, retire or hydration rather than by an invocation. */
  datatype System = System(recs: seq<Rec>, registry: seq<nat>, locked: set<string>, outside: set<string>, now: nat)

  const Empty := System([], [], {}, {}, 0)

  predicate Evictable(r: Rec, now: nat, window: nat) {
    && r.terminal && r.terminalAt.Some? && !r.holds
    && (r.cleanup.NoCleanup? || r.cleanup.CleanupDone?)
    && r.state != Unknown
    && (r.engineCancel.NotCreated? || r.engineCancel.Ok? || r.engineCancel.Raised?)
    && (r.ownerStop.NotCreated? || r.ownerStop.Ok? || r.ownerStop.Raised?)
    && now - r.terminalAt.value >= window
  }

  ghost predicate Indexed(s: System) {
    && (forall k :: 0 <= k < |s.registry| ==> s.registry[k] < |s.recs|)
    && (forall j, k :: 0 <= j < k < |s.registry| ==> s.registry[j] != s.registry[k])
  }

  /** The retained record of an invocation id. */
  function Find(recs: seq<Rec>, registry: seq<nat>, id: string): (r: Option<nat>)
    requires forall k :: 0 <= k < |registry| ==> registry[k] < |recs|
    ensures r.Some? ==> r.value in registry && r.value < |recs| && recs[r.value].request.invocationId == id
    ensures r.None? ==> forall k :: 0 <= k < |registry| ==> recs[registry[k]].request.invocationId != id
  {
    if registry == [] then None
    else if recs[registry[0]].request.invocationId == id then Some(registry[0])
    else Find(recs, registry[1..], id)
  }

  /** The registry without its first `n` evictable records, in order. */
  function Drop(recs: seq<Rec>, registry: seq<nat>, now: nat, window: nat, n: nat): (kept: seq<nat>)
    requires forall k :: 0 <= k < |registry| ==> registry[k] < |recs|
    ensures forall i :: i in kept ==> i in registry
    ensures |registry| - n <= |kept| <= |registry|
  {
    if registry == [] || n == 0 then registry
    else if Evictable(recs[registry[0]], now, window) then Drop(recs, registry[1..], now, window, n - 1)
    else [registry[0]] + Drop(recs, registry[1..], now, window, n)
  }

  datatype Admission = Admitted | Joined | Conflict | CapacityExceeded

  predicate AnyEvictable(s: System, window: nat)
    requires Indexed(s)
  {
    exists k :: 0 <= k < |s.registry| && Evictable(s.recs[s.registry[k]], s.now, window)
  }

  function Reserve(s: System, window: nat): Option<seq<nat>>
    requires Indexed(s)
  {
    if |s.registry| < MAX_RETAINED_RUNS then Some(s.registry)
    else if !AnyEvictable(s, window) then None
    else Some(Drop(s.recs, s.registry, s.now, window, |s.registry| - MAX_RETAINED_RUNS + 1))
  }

  function Start(s: System, request: Request, window: nat): (System, Admission)
    requires Indexed(s)
  {
    match Find(s.recs, s.registry, request.invocationId)
    case Some(i) => if s.recs[i].request == request then (s, Joined) else (s, Conflict)
    case None =>
      match Reserve(s, window)
      case None => (s, CapacityExceeded)
      case Some(kept) =>
        (s.(recs := s.recs + [NewRec(request)], registry := kept + [|s.recs|]), Admitted)
  }

  function Adopt(s: System, request: Request, state: RunState, published: bool): System
    requires Indexed(s)
  {
    if Find(s.recs, s.registry, request.invocationId).Some?
       || !(state.Completed? || state.Failed? || state.Cancelled? || state.Skipped?) then s
    else s.(recs := s.recs + [RestoredRec(request, state, published, s.now)], registry := s.registry + [|s.recs|])
  }

  datatype Event =
    | Admit(request: Request, window: nat)
    | Restore(request: Request, state: RunState, published: bool)
    | LockOutside(session: string)
    | UnlockOutside(session: string)
    | Tick(elapsed: nat)
    | On(index: nat, stretch: Stretch)

  function CellAt(s: System, i: nat): Cell
    requires i < |s.recs|
  {
    Cell(s.recs[i], s.recs[i].request.sessionRef in s.locked)
  }

  function Put(s: System, i: nat, c: Cell): System
    requires i < |s.recs|
  {
    var session := s.recs[i].request.sessionRef;
    s.(recs := s.recs[i := c.rec], locked := if c.locked then s.locked + {session} else s.locked - {session})
  }

  function OnRecord(s: System, i: nat, t: Stretch): System
    requires i < |s.recs|
  {
    Put(s, i, Local(CellAt(s, i), t, s.now))
  }

  function Next(s: System, e: Event): System
    requires Indexed(s)
  {
    match e
    case Admit(request, window) => Start(s, request, window).0
    case Restore(request, state, published) => Adopt(s, request, state, published)
    case LockOutside(session) =>
      if session in s.locked then s else s.(locked := s.locked + {session}, outside := s.outside + {session})
    case UnlockOutside(session) =>
      if session in s.outside then s.(locked := s.locked - {session}, outside := s.outside - {session}) else s
    case Tick(elapsed) => s.(now := s.now + elapsed)
    case On(i, t) => if i < |s.recs| then OnRecord(s, i, t) else s
  }
}
