/** How runs end: which stretch ends an unfinished run and how, which one claims its cleanup, and that
    from every reachable state the end can be reached. */
module ExecutionEnds {
  import opened Options
  import opened ExecutionProtocol
  import opened ExecutionSafety
  import opened ExecutionRelease

  // ------------------------------------------------------------ the ends

  predicate Refuses(prep: Preparation) {
    prep.DeadlineExpired? || prep.SessionError? || prep.BuildError?
  }

  /** The stretch ends an unfinished run at once. */
  predicate EndsNow(c: Cell, t: Stretch) {
    match t
    case OBegin(expired, waits, prep) =>
      c.rec.owner.NotBegun? && !c.rec.cancelRequested && (expired || (!c.locked && !waits && Refuses(prep)))
    case OAcquire(prep) => c.rec.owner.AwaitLock? && !c.rec.cancelRequested && !c.locked && Refuses(prep)
    case OLockTimeout => c.rec.owner.AwaitLock?
    case OHook(Exited(code, buildOk)) => c.rec.owner.AwaitHook? && (code != 0 || !buildOk)
    case OHook(HookCancelled) => false
    case OHook(_) => c.rec.owner.AwaitHook?
    case OProbe(ToolsMissing) => c.rec.owner.AwaitProbe? && !c.rec.cancelRequested
    case OProbe(ToolsListed(expired)) => c.rec.owner.AwaitProbe? && !c.rec.cancelRequested && expired
    case OSend(CleanlyRejected) => c.rec.owner.AwaitSend?
    case DoSettle(Settled(_)) => c.rec.settle.SettleWaiting? && c.rec.native.Over?
    case _ => false
  }

  /** A hook that exits with the agreed code skips the run; the engine decides a settled one. */
  function EndState(t: Stretch): RunState {
    match t
    case OHook(Exited(code, _)) => if code == 78 then Skipped else Failed
    case DoSettle(Settled(outcome)) => outcome
    case _ => Failed
  }

  /** What the caller that waits for the start is told. */
  function EndSignal(t: Stretch): Signal {
    match t
    case OHook(Exited(code, _)) => if code == 0 then Errored else Published
    case OHook(HookFailed) => Published
    case OProbe(ToolsMissing) => Published
    case DoSettle(_) => Published
    case _ => Errored
  }

  ghost predicate EndedBy(c: Cell, d: Cell, t: Stretch, now: nat) {
    && d.rec.terminalAt == Some(now) && d.rec.state == EndState(t) && d.rec.terminal
    && !d.rec.holds && OwnerFinished(d.rec.owner) && (c.rec.holds ==> !d.locked)
    && d.rec.started == if c.rec.started.Unset? then EndSignal(t) else c.rec.started
  }

  lemma BeginEnds(c: Cell, t: Stretch, now: nat)
    requires Good(c.rec) && !c.rec.terminal && (t.OBegin? || t.OAcquire? || t.OLockTimeout?)
    ensures var d := Local(c, t, now);
      if EndsNow(c, t) then EndedBy(c, d, t, now) else d.rec.terminalAt.None?
  {
  }

  lemma HookEnds(c: Cell, t: Stretch, now: nat)
    requires Good(c.rec) && !c.rec.terminal && t.OHook?
    ensures var d := Local(c, t, now);
      if EndsNow(c, t) then EndedBy(c, d, t, now) else d.rec.terminalAt.None?
  {
  }

  lemma ProbeEnds(c: Cell, t: Stretch, now: nat)
    requires Good(c.rec) && !c.rec.terminal && t.OProbe?
    ensures var d := Local(c, t, now);
      if EndsNow(c, t) then EndedBy(c, d, t, now) else d.rec.terminalAt.None?
  {
  }

  lemma SendEnds(c: Cell, t: Stretch, now: nat)
    requires Good(c.rec) && !c.rec.terminal && (t.OSend? || t.DoSettle?)
    ensures var d := Local(c, t, now);
      if EndsNow(c, t) then EndedBy(c, d, t, now) else d.rec.terminalAt.None?
  {
  }

  lemma OthersEndNothing(c: Cell, t: Stretch, now: nat)
    requires Good(c.rec) && !c.rec.terminal
    requires !t.OBegin? && !t.OAcquire? && !t.OLockTimeout? && !t.OHook? && !t.OProbe? && !t.OSend? && !t.DoSettle?
    ensures !EndsNow(c, t) && Local(c, t, now).rec.terminalAt.None?
  {
  }

  lemma OneEnds(c: Cell, t: Stretch, now: nat)
    requires Good(c.rec) && !c.rec.terminal
    ensures var d := Local(c, t, now);
      if EndsNow(c, t) then EndedBy(c, d, t, now) else d.rec.terminalAt.None?
  {
    if t.OBegin? || t.OAcquire? || t.OLockTimeout? { BeginEnds(c, t, now); }
    else if t.OHook? { HookEnds(c, t, now); }
    else if t.OProbe? { ProbeEnds(c, t, now); }
    else if t.OSend? || t.DoSettle? { SendEnds(c, t, now); }
    else { OthersEndNothing(c, t, now); }
  }

  /** An unfinished run ends at once exactly where it should, in the state and with the answer to the
      caller that belong to the stretch, and its reservation is given back. */
  lemma EndsExactly(s: System, i: nat, t: Stretch)
    requires Reachable(s) && i < |s.recs| && !s.recs[i].terminal
    ensures Inv(s)
    ensures var c, d := CellAt(s, i), CellAt(Next(s, On(i, t)), i);
      if EndsNow(c, t) then EndedBy(c, d, t, s.now) else d.rec.terminalAt.None?
  {
    ReachableIsFree(s);
    CellMoves(s, i, t);
    OneEnds(CellAt(s, i), t, s.now);
  }

  lemma CellMoves(s: System, i: nat, t: Stretch)
    requires Inv(s) && i < |s.recs|
    ensures Inv(Next(s, On(i, t))) && |Next(s, On(i, t)).recs| == |s.recs| && Next(s, On(i, t)).now == s.now
    ensures CellAt(Next(s, On(i, t)), i) == Local(CellAt(s, i), t, s.now)
    ensures forall j :: 0 <= j < |s.recs| && j != i ==> Next(s, On(i, t)).recs[j] == s.recs[j]
    ensures Next(s, On(i, t)).outside == s.outside
  {
    NextKeepsInv(s, On(i, t));
    StretchKeeps(CellAt(s, i), t, s.now);
  }

  /** What the engine settled is what the run ends with, whatever happens afterwards. */
  lemma SettlementDecides(s: System, es: seq<Event>, i: nat, outcome: RunState)
    requires Reachable(s) && i < |s.recs| && !s.recs[i].terminal
    requires s.recs[i].settle.SettleWaiting? && s.recs[i].native.Over?
    ensures Inv(s) && Inv(Next(s, On(i, DoSettle(Settled(outcome)))))
    ensures var later := Run(Next(s, On(i, DoSettle(Settled(outcome)))), es);
      i < |later.recs| && later.recs[i].state == outcome && later.recs[i].terminalAt == Some(s.now)
  {
    var t := DoSettle(Settled(outcome));
    EndsExactly(s, i, t);
    NextKeepsInv(s, On(i, t));
    CellMoves(s, i, t);
    RunKeepsRecords(Next(s, On(i, t)), es, i);
  }

  // ------------------------------------------------------------ the claims

  /** The stretch claims the cleanup of an unfinished run. */
  predicate ClaimsNow(r: Rec, t: Stretch) {
    || t.Deadline? || t.Cancel?
    || (t.OSend? && r.owner.AwaitSend? && (t.sendEnd.Ambiguous? || t.sendEnd.TimedOut?))
    || (t == DoSettle(ObservationLost) && r.settle.SettleWaiting?)
  }

  /** What a confirmed halt makes of the run: an explicit cancel after the deadline is the deadline, and
      an end that nobody saw stays unknown. */
  function ClaimState(t: Stretch): RunState {
    if t == Cancel(false) then Cancelled
    else if t == OSend(Ambiguous) || t == DoSettle(ObservationLost) then Unknown
    else Failed
  }

  function ClaimSignal(t: Stretch): Signal {
    if t == Cancel(false) then Revoked else Errored
  }

  ghost predicate ClaimedBy(c: Cell, d: Cell, t: Stretch) {
    && (!d.rec.cleanup.NoCleanup? <==> ClaimsNow(c.rec, t))
    && (ClaimsNow(c.rec, t) ==>
          d.rec.terminal && d.rec.terminalAt.None? && d.rec.finalState == ClaimState(t) && d.rec.holds == c.rec.holds
          && d.rec.started == if c.rec.started.Unset? then ClaimSignal(t) else c.rec.started)
  }

  lemma BeginClaims(c: Cell, t: Stretch, now: nat)
    requires Good(c.rec) && !c.rec.terminal && (t.OBegin? || t.OAcquire? || t.OLockTimeout?)
    ensures ClaimedBy(c, Local(c, t, now), t)
  {
  }

  lemma HookClaims(c: Cell, t: Stretch, now: nat)
    requires Good(c.rec) && !c.rec.terminal && t.OHook?
    ensures ClaimedBy(c, Local(c, t, now), t)
  {
  }

  lemma SendClaims(c: Cell, t: Stretch, now: nat)
    requires Good(c.rec) && !c.rec.terminal && (t.OProbe? || t.OSend?)
    ensures ClaimedBy(c, Local(c, t, now), t)
  {
  }

  lemma SettleClaims(c: Cell, t: Stretch, now: nat)
    requires Good(c.rec) && !c.rec.terminal && t.DoSettle?
    ensures ClaimedBy(c, Local(c, t, now), t)
  {
  }

  lemma OtherClaims(c: Cell, t: Stretch, now: nat)
    requires Good(c.rec) && !c.rec.terminal && (t.Deadline? || t.Cancel?)
    ensures ClaimedBy(c, Local(c, t, now), t)
  {
    if t.Deadline? { DeadlineClaims(c, now); } else { CancelClaims(c, t.expired, now); }
  }

  lemma CancelClaims(c: Cell, expired: bool, now: nat)
    requires Good(c.rec) && !c.rec.terminal
    ensures ClaimedBy(c, Local(c, Cancel(expired), now), Cancel(expired))
  {
  }

  lemma DeadlineClaims(c: Cell, now: nat)
    requires Good(c.rec) && !c.rec.terminal
    ensures ClaimedBy(c, Local(c, Deadline, now), Deadline)
  {
  }

  lemma CleanupClaims(c: Cell, t: Stretch, now: nat)
    requires Good(c.rec) && !c.rec.terminal
    requires t.Launch? || t.TasksBegin? || t.EngineEnd? || t.StopEnd? || t.WorkerEnd? || t.NativeEnd?
    ensures ClaimedBy(c, Local(c, t, now), t)
  {
  }

  /** Which stretches claim the cleanup of an unfinished run, with which end and which answer to the
      caller. */
  lemma ClaimsExactly(c: Cell, t: Stretch, now: nat)
    requires Good(c.rec) && !c.rec.terminal
    ensures ClaimedBy(c, Local(c, t, now), t)
  {
    if t.OBegin? || t.OAcquire? || t.OLockTimeout? { BeginClaims(c, t, now); }
    else if t.OHook? { HookClaims(c, t, now); }
    else if t.OProbe? || t.OSend? { SendClaims(c, t, now); }
    else if t.DoSettle? { SettleClaims(c, t, now); }
    else if t.Deadline? || t.Cancel? { OtherClaims(c, t, now); }
    else { CleanupClaims(c, t, now); }
  }

  /** Every first claim decides the end, whatever fires afterwards: the state that belongs to the claim,
      or unknown when the halt is not proved. */
  lemma ClaimDecides(s: System, es: seq<Event>, i: nat, t: Stretch)
    requires Reachable(s) && i < |s.recs| && !s.recs[i].terminal && ClaimsNow(s.recs[i], t)
    ensures Inv(s) && Inv(Next(s, On(i, t))) && i < |Run(Next(s, On(i, t)), es).recs|
    ensures var r := Run(Next(s, On(i, t)), es).recs[i];
      r.terminal && (r.terminalAt.Some? ==> r.state == ClaimState(t) || r.state == Unknown)
  {
    ReachableIsFree(s);
    ClaimsExactly(CellAt(s, i), t, s.now);
    CellMoves(s, i, t);
    RunKeepsRecords(Next(s, On(i, t)), es, i);
  }

  /** The cleanup worker gives the reservation back exactly when both retained tasks ended without
      error; otherwise the run ends unknown and keeps it. */
  lemma CleanupDecides(c: Cell, expired: bool, now: nat)
    requires Good(c.rec) && c.rec.cleanup.Observing?
    requires expired || (OwnerStopped(c.rec) && (c.rec.engineCancel.Ok? || c.rec.engineCancel.Raised?))
    ensures var d, confirmed := CleanupEnd(c, expired, now), c.rec.engineCancel.Ok? && c.rec.ownerStop.Ok?;
      && d.rec.terminalAt == Some(now) && d.rec.cleanup.CleanupDone?
      && d.rec.state == (if confirmed then c.rec.finalState else Unknown)
      && d.rec.holds == (c.rec.holds && !confirmed) && (c.rec.holds && confirmed ==> !d.locked)
  {
  }

  predicate OwnerStopped(r: Rec) {
    r.ownerStop.Ok? || r.ownerStop.Raised?
  }

  // ------------------------------------------------------------ runs that reach their end

  function LocalRun(c: Cell, ts: seq<Stretch>, now: nat): Cell
    decreases |ts|
  {
    if ts == [] then c else LocalRun(Local(c, ts[0], now), ts[1..], now)
  }

  function OnAll(i: nat, ts: seq<Stretch>): (es: seq<Event>)
    ensures |es| == |ts|
  {
    if ts == [] then [] else [On(i, ts[0])] + OnAll(i, ts[1..])
  }

  /** Stretches of one invocation move its record and the lock of its session, and nothing else. */
  lemma {:induction false} RunOfOne(s: System, i: nat, ts: seq<Stretch>)
    requires Inv(s) && i < |s.recs|
    ensures var s' := Run(s, OnAll(i, ts));
      && Inv(s') && |s'.recs| == |s.recs| && s'.outside == s.outside
      && CellAt(s', i) == LocalRun(CellAt(s, i), ts, s.now)
      && forall j :: 0 <= j < |s.recs| && j != i ==> s'.recs[j] == s.recs[j]
    decreases |ts|
  {
    if ts != [] {
      CellMoves(s, i, ts[0]);
      RunOfOne(Next(s, On(i, ts[0])), i, ts[1..]);
      var es := OnAll(i, ts);
      assert es[0] == On(i, ts[0]) && es[1..] == OnAll(i, ts[1..]);
    }
  }

  lemma LocalTwo(c: Cell, a: Stretch, ts: seq<Stretch>, now: nat)
    ensures LocalRun(c, [a] + ts, now) == LocalRun(Local(c, a, now), ts, now)
  {
    assert ([a] + ts)[1..] == ts;
  }

  lemma {:induction false} LocalJoins(c: Cell, ts: seq<Stretch>, us: seq<Stretch>, now: nat)
    ensures LocalRun(c, ts + us, now) == LocalRun(LocalRun(c, ts, now), us, now)
    decreases |ts|
  {
    if ts == [] {
      assert ts + us == us;
    } else {
      assert ts + us == [ts[0]] + (ts[1..] + us) && ts == [ts[0]] + ts[1..];
      LocalTwo(c, ts[0], ts[1..] + us, now);
      LocalTwo(c, ts[0], ts[1..], now);
      LocalJoins(Local(c, ts[0], now), ts[1..], us, now);
    }
  }

  /** With a hook or without: reserved, sent, started. */
  function ToTheStart(hook: bool): seq<Stretch> {
    (if hook then [OBegin(false, false, RunsHook), OHook(Exited(0, true))] else [OBegin(false, false, Built)])
    + [OProbe(ToolsListed(false)), OSend(Receipt(true))]
  }

  lemma StartSends(request: Request, hook: bool, now: nat)
    ensures var d := LocalRun(Cell(NewRec(request), false), ToTheStart(hook), now);
      && d.rec.owner.OwnerReturned? && d.rec.settle.SettleWaiting? && d.rec.native.Live? && d.rec.sends == 1
      && d.rec.state == Running && d.rec.started.Published? && !d.rec.terminal && d.rec.holds && d.locked
  {
    var c := Cell(NewRec(request), false);
    var tail := [OProbe(ToolsListed(false)), OSend(Receipt(true))];
    if hook {
      assert ToTheStart(hook) == [OBegin(false, false, RunsHook)] + ([OHook(Exited(0, true))] + tail);
      LocalTwo(c, OBegin(false, false, RunsHook), [OHook(Exited(0, true))] + tail, now);
      LocalTwo(Local(c, OBegin(false, false, RunsHook), now), OHook(Exited(0, true)), tail, now);
    } else {
      assert ToTheStart(hook) == [OBegin(false, false, Built)] + tail;
      LocalTwo(c, OBegin(false, false, Built), tail, now);
    }
    var e := LocalRun(c, ToTheStart(hook)[..|ToTheStart(hook)| - 2], now);
    var r := if hook then Local(Local(c, OBegin(false, false, RunsHook), now), OHook(Exited(0, true)), now)
             else Local(c, OBegin(false, false, Built), now);
    assert tail == [OProbe(ToolsListed(false))] + [OSend(Receipt(true))];
    LocalTwo(r, OProbe(ToolsListed(false)), [OSend(Receipt(true))], now);
    assert [OSend(Receipt(true))] == [OSend(Receipt(true))] + [];
    LocalTwo(Local(r, OProbe(ToolsListed(false)), now), OSend(Receipt(true)), [], now);
  }

  /** From every reachable state: an admitted run whose session is free can be reserved, sent, started and
      settled, with or without a hook, and ends as the engine says, its session free again. */
  lemma ARunCompletes(s: System, i: nat, hook: bool, outcome: RunState)
    requires Reachable(s) && i < |s.recs| && s.recs[i] == NewRec(s.recs[i].request)
    requires s.recs[i].request.sessionRef !in s.locked
    ensures Inv(s)
    ensures var s' := Run(s, OnAll(i, ToTheStart(hook) + [NativeEnd, DoSettle(Settled(outcome))]));
      && i < |s'.recs| && s'.recs[i].state == outcome && s'.recs[i].terminalAt == Some(s.now)
      && s'.recs[i].started.Published? && s'.recs[i].sends == 1 && !s'.recs[i].holds
      && s'.recs[i].request.sessionRef !in s'.locked
  {
    ReachableKeepsInv(s);
    var end := [NativeEnd, DoSettle(Settled(outcome))];
    var c := CellAt(s, i);
    RunOfOne(s, i, ToTheStart(hook) + end);
    LocalJoins(c, ToTheStart(hook), end, s.now);
    StartSends(c.rec.request, hook, s.now);
    var d := LocalRun(c, ToTheStart(hook), s.now);
    assert end == [NativeEnd] + ([DoSettle(Settled(outcome))] + []);
    LocalTwo(d, NativeEnd, [DoSettle(Settled(outcome))] + [], s.now);
    LocalTwo(Local(d, NativeEnd, s.now), DoSettle(Settled(outcome)), [], s.now);
  }

  // ------------------------------------------------------------ cleanups that free the session

  /** How an owner whose cancellation was requested stops. */
  function OwnerStops(o: OwnerPc): seq<Stretch> {
    match o
    case NotBegun => [OBegin(false, false, Built)]
    case AwaitLock => [OAcquire(Built)]
    case AwaitHook => [OHook(HookCancelled)]
    case AwaitProbe => [OProbe(ToolsMissing)]
    case AwaitSend => [OSend(SendCancelled)]
    case _ => []
  }

  const Claiming := [Launch, TasksBegin]
  const Confirm := [NativeEnd, EngineEnd(true), StopEnd(false), WorkerEnd(false)]

  lemma OneStretch(c: Cell, t: Stretch, now: nat)
    ensures LocalRun(c, [t], now) == Local(c, t, now)
  {
    assert [t] == [t] + [];
    LocalTwo(c, t, [], now);
  }

  /** The claim, and the two tasks are created. */
  lemma LaunchRun(c: Cell, t: Stretch, now: nat)
    requires Good(c.rec) && !c.rec.terminal && (t == Deadline || t == Cancel(false))
    ensures var d := Local(Local(c, t, now), Launch, now);
      && Good(d.rec) && d.rec.cleanup.Launched? && d.rec.finalState == ClaimedEnd(t) && d.rec.owner == c.rec.owner
      && d.rec.terminal && d.rec.holds == c.rec.holds && d.locked == c.locked
  {
    var a := Local(c, t, now);
    StretchFrees(c, t, now);
    ClaimRuns(c, t, now);
    StretchFrees(a, Launch, now);
    LaunchRuns(a, now);
  }

  lemma ClaimRuns(c: Cell, t: Stretch, now: nat)
    requires Good(c.rec) && !c.rec.terminal && (t == Deadline || t == Cancel(false))
    ensures var d := Local(c, t, now);
      && d.rec.cleanup.Claimed? && d.rec.finalState == ClaimedEnd(t) && d.rec.owner == c.rec.owner
      && d.rec.terminal && d.rec.holds == c.rec.holds && d.locked == c.locked
  {
    ClaimTakes(c.rec);
  }

  lemma LaunchRuns(c: Cell, now: nat)
    requires c.rec.cleanup.Claimed?
    ensures var d := Local(c, Launch, now);
      && d.rec.cleanup.Launched? && d.rec.finalState == c.rec.finalState && d.rec.owner == c.rec.owner
      && d.rec.terminal == c.rec.terminal && d.rec.holds == c.rec.holds && d.locked == c.locked
  {
  }

  lemma TasksStart(c: Cell, now: nat)
    requires Good(c.rec) && c.rec.cleanup.Launched?
    ensures var d := Local(c, TasksBegin, now);
      && Good(d.rec) && d.rec.cleanup.Observing? && d.rec.finalState == c.rec.finalState && d.rec.owner == c.rec.owner
      && d.rec.terminal && d.rec.holds == c.rec.holds && d.locked == c.locked
      && (if OwnerFinished(d.rec.owner) then (d.rec.owner.OwnerRaised? || d.rec.ownerStop.Ok?)
          else d.rec.ownerStop.Active? && d.rec.cancelRequested)
      && (d.rec.engineCancel.Ok? || (d.rec.engineCancel.Active? && !d.rec.native.Unregistered?))
  {
    StretchFrees(c, TasksBegin, now);
  }

  lemma TasksRun(c: Cell, t: Stretch, now: nat)
    ensures LocalRun(c, [t] + Claiming, now) == Local(Local(Local(c, t, now), Launch, now), TasksBegin, now)
  {
    var a := Local(c, t, now);
    LocalTwo(c, t, Claiming, now);
    assert Claiming == [Launch] + [TasksBegin];
    LocalTwo(a, Launch, [TasksBegin], now);
    OneStretch(Local(a, Launch, now), TasksBegin, now);
  }

  lemma OwnerStopsRun(c: Cell, now: nat)
    requires Good(c.rec) && c.rec.cleanup.Observing? && (OwnerFinished(c.rec.owner) || c.rec.cancelRequested)
    ensures var d := LocalRun(c, OwnerStops(c.rec.owner), now);
      && d.locked == c.locked && OwnerFinished(d.rec.owner) && Good(d.rec)
      && d.rec == c.rec.(owner := d.rec.owner) && (d.rec.owner.OwnerRaised? ==> c.rec.owner.OwnerRaised?)
  {
    if !OwnerFinished(c.rec.owner) {
      var t := OwnerStops(c.rec.owner)[0];
      OneStretch(c, t, now);
      StretchFrees(c, t, now);
    }
  }

  lemma ConfirmRun(c: Cell, now: nat)
    requires Good(c.rec) && c.rec.cleanup.Observing? && OwnerFinished(c.rec.owner) && !c.rec.owner.OwnerRaised?
    requires c.rec.ownerStop.Ok? || c.rec.ownerStop.Active?
    requires c.rec.engineCancel.Ok? || (c.rec.engineCancel.Active? && !c.rec.native.Unregistered?)
    ensures var d := LocalRun(c, Confirm, now);
      && d.rec.state == c.rec.finalState && d.rec.terminalAt == Some(now) && !d.rec.holds
      && (c.rec.holds ==> !d.locked)
  {
    var a := Local(c, NativeEnd, now);
    var b := Local(a, EngineEnd(true), now);
    var e := Local(b, StopEnd(false), now);
    assert Confirm == [NativeEnd] + ([EngineEnd(true)] + ([StopEnd(false)] + [WorkerEnd(false)]));
    LocalTwo(c, NativeEnd, [EngineEnd(true)] + ([StopEnd(false)] + [WorkerEnd(false)]), now);
    LocalTwo(a, EngineEnd(true), [StopEnd(false)] + [WorkerEnd(false)], now);
    LocalTwo(b, StopEnd(false), [WorkerEnd(false)], now);
    OneStretch(e, WorkerEnd(false), now);
    EngineStops(c, now);
    assert e.rec.ownerStop.Ok? && e.rec.engineCancel.Ok?;
  }

  /** A registered invocation whose engine cancel is under way has native work that can end. */
  lemma EngineStops(c: Cell, now: nat)
    requires Good(c.rec) && c.rec.cleanup.Observing? && (c.rec.engineCancel.Ok? || c.rec.engineCancel.Active?)
    requires c.rec.engineCancel.Active? ==> !c.rec.native.Unregistered?
    ensures Local(Local(c, NativeEnd, now), EngineEnd(true), now).rec
         == c.rec.(engineCancel := Ok, native := if c.rec.native.Live? then Over else c.rec.native)
    ensures Local(Local(c, NativeEnd, now), EngineEnd(true), now).locked == c.locked
  {
  }

  /** From every reachable state: an unfinished run whose owner has not raised can be brought to its end by
      the deadline or by a cancel, in the state that belongs to it, and gives its session back. */
  lemma AClaimReachesItsEnd(s: System, i: nat, t: Stretch)
    requires Reachable(s) && i < |s.recs| && !s.recs[i].terminal && !s.recs[i].owner.OwnerRaised?
    requires t == Deadline || t == Cancel(false)
    ensures Inv(s)
    ensures var s' := Run(s, OnAll(i, ([t] + Claiming) + (OwnerStops(s.recs[i].owner) + Confirm)));
      && i < |s'.recs| && s'.recs[i].state == ClaimedEnd(t) && s'.recs[i].terminalAt == Some(s.now)
      && !s'.recs[i].holds && (s.recs[i].holds ==> s'.recs[i].request.sessionRef !in s'.locked)
  {
    ReachableIsFree(s);
    var c, stops := CellAt(s, i), OwnerStops(s.recs[i].owner);
    RunOfOne(s, i, ([t] + Claiming) + (stops + Confirm));
    LocalJoins(c, [t] + Claiming, stops + Confirm, s.now);
    TasksRun(c, t, s.now);
    LaunchRun(c, t, s.now);
    TasksStart(Local(Local(c, t, s.now), Launch, s.now), s.now);
    var d := LocalRun(c, [t] + Claiming, s.now);
    LocalJoins(d, stops, Confirm, s.now);
    OwnerStopsRun(d, s.now);
    ConfirmRun(LocalRun(d, stops, s.now), s.now);
    StretchesKeepRequest(c, ([t] + Claiming) + (stops + Confirm), s.now);
  }

  lemma {:induction false} StretchesKeepRequest(c: Cell, ts: seq<Stretch>, now: nat)
    requires Good(c.rec)
    ensures LocalRun(c, ts, now).rec.request == c.rec.request
    decreases |ts|
  {
    if ts != [] {
      StretchKeeps(c, ts[0], now);
      StretchFrees(c, ts[0], now);
      StretchesKeepRequest(Local(c, ts[0], now), ts[1..], now);
    }
  }
}
