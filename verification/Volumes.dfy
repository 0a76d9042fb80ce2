/** Workspace volumes of one agent: the backend's calls as atomic steps of its sequential loop,
    interleaved with everything the cluster does on its own. Times are in nanoseconds. */
module Volumes {
  import opened Options

  const SECOND := 1_000_000_000
  const DAY := 24 * 3600 * SECOND
  const SWEEP_EVERY := 600 * SECOND

  // ------------------------------------------------------------ the cluster

  datatype Phase = Deleting | OtherPhase

  /** A sandbox goes by its current name, or by the one earlier operators gave it. */
  datatype Which = Current | Legacy

  function Other(which: Which): Which {
    if which.Current? then Legacy else Current
  }

  datatype Key = Key(workspace: string, which: Which)

  /** One sandbox: its gateway record, whether its workload pod exists, and whether it was created
      with the Workspace's volume. */
  datatype Slot = Slot(record: Option<Phase>, pod: bool, mounts: bool)

  const Empty := Slot(None, false, false)

  /** A volume claim: its detached-at mark, and whether its deletion was requested. */
  datatype Claim = Claim(mark: Option<int>, deleting: bool)

  type Claims = map<string, Claim>

  // ------------------------------------------------------------ the operations on claims

  /** RFC 3339 keeps whole seconds. */
  function Stamp(now: int): int {
    now / SECOND * SECOND
  }

  /** `ensureVolume`: false when the claim is being deleted. */
  function EnsureVolume(claims: Claims, n: string): (bool, Claims) {
    if n !in claims then (true, claims[n := Claim(None, false)])
    else if claims[n].deleting then (false, claims)
    else (true, claims[n := claims[n].(mark := None)])
  }

  function MarkDetached(claims: Claims, n: string, now: int): Claims {
    if n !in claims || claims[n].mark.Some? || claims[n].deleting then claims
    else claims[n := claims[n].(mark := Some(Stamp(now)))]
  }

  predicate Expired(mark: Option<int>, now: int, keep: int) {
    mark.Some? && now - mark.value >= keep
  }

  /** How long a detached claim is kept: `days` when the agent's Workspaces have volumes. */
  function Keep(days: Option<nat>): int {
    if days.Some? then days.value * DAY else 0
  }

  /** A requested deletion: the claim goes at once, or when its finalizers let it. */
  function Doomed(claims: Claims, n: string, atOnce: bool): Claims {
    if n !in claims then claims
    else if atOnce then claims - {n}
    else claims[n := claims[n].(deleting := true)]
  }

  // ------------------------------------------------------------ the loop

  datatype Purpose = Ensure(volume: bool) | Retire

  /** What one listed claim looked like. */
  datatype Item = Item(name: string, mark: Option<int>)

  /** The next call of the loop. */
  datatype Doing =
    | Idle
    | AskCurrent(n: string, why: Purpose)
    | AskLegacy(n: string, why: Purpose)
    | AskLegacyPod(n: string, why: Purpose)
    | AskRecord(n: string, which: Which, why: Purpose)
    | DeleteRecord(n: string, which: Which)
    | AskPod(n: string, which: Which, why: Purpose)
    | PrepareVolume(n: string)
    | CreateUnit(n: string, mounts: bool)
    | Detach(n: string)
    | Sweeping(items: seq<Item>, at: nat, keep: int)

  datatype System = System(
    slots: map<Key, Slot>, claims: Claims, clock: int, swept: Option<int>, doing: Doing)

  function SlotOf(s: System, k: Key): Slot {
    if k in s.slots then s.slots[k] else Empty
  }

  predicate Exists(s: System, k: Key) {
    SlotOf(s, k).record.Some? || SlotOf(s, k).pod
  }

  /** An existing sandbox of the Workspace has its volume mounted. */
  predicate Mounted(s: System, n: string) {
    || (Exists(s, Key(n, Current)) && SlotOf(s, Key(n, Current)).mounts)
    || (Exists(s, Key(n, Legacy)) && SlotOf(s, Key(n, Legacy)).mounts)
  }

  // ------------------------------------------------------------ steps

  /** How one call ended. A call that failed may still have been applied; a failing create may then
      have left a record, or a workload pod without one. */
  datatype Outcome = Outcome(failed: bool, applied: bool, phase: Phase, orphan: bool, atOnce: bool) {
    predicate TookEffect() { !failed || applied }
  }

  /** What the cluster does on its own. */
  datatype Change =
    | Tick(to: int)
    | PodAppears(key: Key)
    | PodGoes(key: Key)
    | PhaseChanges(key: Key, phase: Phase)
    | RecordGoes(key: Key)
    | ClaimDoomed(name: string, atOnce: bool)

  datatype Step =
    | Meanwhile(change: Change)
    | Begin(workspace: string, why: Purpose)
    | BeginSweep(listed: seq<string>, days: Option<nat>, failed: bool)
    | Go(outcome: Outcome)

  function Update(s: System, k: Key, slot: Slot): System {
    s.(slots := s.slots[k := slot])
  }

  function Cluster(s: System, change: Change): System {
    match change
    case Tick(to) => if to > s.clock then s.(clock := to) else s
    case PodAppears(k) =>
      if SlotOf(s, k).record.Some? then Update(s, k, SlotOf(s, k).(pod := true)) else s
    case PodGoes(k) => if Exists(s, k) then Update(s, k, SlotOf(s, k).(pod := false)) else s
    case PhaseChanges(k, phase) =>
      if SlotOf(s, k).record.Some? then Update(s, k, SlotOf(s, k).(record := Some(phase))) else s
    case RecordGoes(k) => if Exists(s, k) then Update(s, k, SlotOf(s, k).(record := None)) else s
    case ClaimDoomed(n, atOnce) => s.(claims := Doomed(s.claims, n, atOnce))
  }

  predicate IsListing(listed: seq<string>, claims: Claims) {
    && (forall n <- claims :: n in listed)
    && (forall i :: 0 <= i < |listed| ==> listed[i] in claims)
    && (forall i, j :: 0 <= i < j < |listed| ==> listed[i] != listed[j])
  }

  function Items(listed: seq<string>, claims: Claims): (items: seq<Item>)
    requires forall i :: 0 <= i < |listed| ==> listed[i] in claims
    ensures |items| == |listed|
    ensures forall i :: 0 <= i < |items| ==> items[i] == Item(listed[i], claims[listed[i]].mark)
  {
    seq(|listed|, i requires 0 <= i < |listed| => Item(listed[i], claims[listed[i]].mark))
  }

  /** `Sweep` up to its listing: at most once per interval. */
  function SweepBegins(s: System, listed: seq<string>, days: Option<nat>, failed: bool): System {
    if s.swept.Some? && s.clock - s.swept.value < SWEEP_EVERY then s
    else if failed || !IsListing(listed, s.claims) then s
    else s.(swept := Some(s.clock), doing := Sweeping(Items(listed, s.claims), 0, Keep(days)))
  }

  /** One round of the sweep: keep the claim, or request its deletion. */
  function SweepOne(s: System, o: Outcome): System
    requires s.doing.Sweeping?
  {
    var d := s.doing;
    if d.at >= |d.items| then s.(doing := Idle)
    else if !Expired(d.items[d.at].mark, s.clock, d.keep) then s.(doing := d.(at := d.at + 1))
    else s.(claims := if o.TookEffect() then Doomed(s.claims, d.items[d.at].name, o.atOnce) else s.claims,
            doing := if o.failed then Idle else d.(at := d.at + 1))
  }

  /** A pod that is there already stays, with what it mounts. */
  function Made(s: System, k: Key, mounts: bool, o: Outcome): System {
    var was := SlotOf(s, k);
    var mounts' := mounts || (was.pod && was.mounts);
    if !o.TookEffect() || was.record.Some? then s
    else if o.failed && o.orphan then Update(s, k, Slot(None, true, mounts'))
    else Update(s, k, Slot(Some(o.phase), was.pod, mounts'))
  }

  /** The pending call of the loop, made now. A read that fails ends the operation. */
  function Call(s: System, o: Outcome): System {
    match s.doing
    case Idle => s
    case Sweeping(_, _, _) => SweepOne(s, o)
    case AskCurrent(n, why) =>
      if o.failed then s.(doing := Idle)
      else if SlotOf(s, Key(n, Current)).record.Some? then s.(doing := AskRecord(n, Current, why))
      else s.(doing := AskLegacy(n, why))
    case AskLegacy(n, why) =>
      if o.failed then s.(doing := Idle)
      else if SlotOf(s, Key(n, Legacy)).record.Some? then s.(doing := AskRecord(n, Legacy, why))
      else s.(doing := AskLegacyPod(n, why))
    case AskLegacyPod(n, why) =>
      if o.failed then s.(doing := Idle)
      else s.(doing := AskRecord(n, if SlotOf(s, Key(n, Legacy)).pod then Legacy else Current, why))
    case AskRecord(n, which, why) =>
      if o.failed then s.(doing := Idle)
      else if SlotOf(s, Key(n, which)).record.None? then s.(doing := AskPod(n, which, why))
      else if why.Retire? && SlotOf(s, Key(n, which)).record != Some(Deleting) then s.(doing := DeleteRecord(n, which))
      else s.(doing := Idle)
    case DeleteRecord(n, which) =>
      var k := Key(n, which);
      var s' := s.(doing := Idle);
      if o.TookEffect() && SlotOf(s, k).record.Some?
      then Update(s', k, SlotOf(s, k).(record := if o.atOnce then None else Some(Deleting))) else s'
    case AskPod(n, which, why) =>
      if o.failed || SlotOf(s, Key(n, which)).pod then s.(doing := Idle)
      else if why.Retire? then s.(doing := Detach(n))
      else s.(doing := if why.volume then PrepareVolume(n) else CreateUnit(n, false))
    case PrepareVolume(n) =>
      var (ok, claims) := EnsureVolume(s.claims, n);
      s.(claims := if o.TookEffect() then claims else s.claims,
         doing := if ok && !o.failed then CreateUnit(n, true) else Idle)
    case CreateUnit(n, mounts) => Made(s, Key(n, Current), mounts, o).(doing := Idle)
    case Detach(n) =>
      s.(claims := if o.TookEffect() then MarkDetached(s.claims, n, s.clock) else s.claims, doing := Idle)
  }

  function Next(s: System, step: Step): System {
    match step
    case Begin(n, why) => if s.doing.Idle? then s.(doing := AskCurrent(n, why)) else s
    case BeginSweep(listed, days, failed) => if s.doing.Idle? then SweepBegins(s, listed, days, failed) else s
    case Go(o) => Call(s, o)
    case Meanwhile(change) => Cluster(s, change)
  }

  function Run(s: System, steps: seq<Step>): System {
    if steps == [] then s else Next(Run(s, steps[..|steps| - 1]), steps[|steps| - 1])
  }
}
