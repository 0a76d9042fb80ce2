/** A mounted volume carries no detached-at mark, so the sweep never deletes it; and what the sweep
    deletes has been unmounted for its retention, to the second the mark keeps. */
module VolumeSafety {
  import opened Options
  import opened Volumes

  ghost predicate MountedUnmarked(s: System) {
    forall n :: Mounted(s, n) && n in s.claims ==> s.claims[n].mark.None?
  }

  predicate Absent(s: System, n: string) {
    !Exists(s, Key(n, Current)) && !Exists(s, Key(n, Legacy))
  }

  predicate Both(s: System, n: string) {
    Exists(s, Key(n, Current)) && Exists(s, Key(n, Legacy))
  }

  /** Of the current name at most a pod is left, and if that has the volume mounted, there is no
      claim or it is being deleted: nothing that could be marked. */
  predicate Harmless(s: System, n: string) {
    && SlotOf(s, Key(n, Current)).record.None?
    && (SlotOf(s, Key(n, Current)).pod && SlotOf(s, Key(n, Current)).mounts ==> n !in s.claims || s.claims[n].deleting)
  }

  /** The former sandbox has the volume mounted, and its claim is being deleted: it cannot be marked,
      nor made anew while it is there. */
  predicate Held(s: System, n: string) {
    && Exists(s, Key(n, Legacy)) && SlotOf(s, Key(n, Legacy)).mounts
    && n in s.claims && s.claims[n].deleting
  }

  /** Wherever a Workspace exists under both names, the current one is harmless; in a cluster that
      keeps a claim as long as a sandbox mounts it, it may be held by the former one instead. */
  ghost predicate GuardedIn(s: System, protects: bool) {
    forall n :: Both(s, n) ==> Harmless(s, n) || (protects && Held(s, n))
  }

  ghost predicate Guarded(s: System) {
    GuardedIn(s, false)
  }

  /** What a run is about: the Workspaces that began under both names, and whether the cluster keeps a
      claim as long as a sandbox mounts it. */
  datatype Premise = Premise(two: iset<string>, protects: bool)

  ghost function PremiseOf(s: System, protects: bool): Premise {
    Premise((iset n | Both(s, n)), protects)
  }

  ghost function Twofold(s: System): Premise {
    PremiseOf(s, false)
  }

  ghost predicate Tolerated(s: System, p: Premise, n: string) {
    n in p.two && (Harmless(s, n) || (p.protects && Held(s, n)))
  }

  ghost predicate LegacyOut(s: System, p: Premise, n: string) {
    !Exists(s, Key(n, Legacy)) || (p.protects && n in p.two && Held(s, n))
  }

  /** The current name is gone, or a harmless pod is left of it, if the Workspace began under both. */
  ghost predicate CurrentOut(s: System, p: Premise, n: string) {
    Harmless(s, n) && (n !in p.two ==> !Exists(s, Key(n, Current)))
  }

  ghost predicate Vacant(s: System, p: Premise, n: string) {
    LegacyOut(s, p, n) && CurrentOut(s, p, n)
  }

  /** What the calls made so far have established. */
  ghost predicate Known(s: System, p: Premise) {
    match s.doing
    case AskLegacy(n, _) => SlotOf(s, Key(n, Current)).record.None?
    case AskLegacyPod(n, _) => SlotOf(s, Key(n, Current)).record.None? && SlotOf(s, Key(n, Legacy)).record.None?
    case AskRecord(n, Current, _) => LegacyOut(s, p, n)
    case AskRecord(n, Legacy, _) => CurrentOut(s, p, n)
    case AskPod(n, Current, _) => LegacyOut(s, p, n) && SlotOf(s, Key(n, Current)).record.None?
    case AskPod(n, Legacy, _) => CurrentOut(s, p, n) && SlotOf(s, Key(n, Legacy)).record.None?
    case PrepareVolume(n) => Vacant(s, p, n)
    case CreateUnit(n, mounts) =>
      && LegacyOut(s, p, n) && SlotOf(s, Key(n, Current)).record.None?
      && (n !in p.two ==> !Exists(s, Key(n, Current))) && (mounts && n in s.claims ==> s.claims[n].mark.None?)
    case Detach(n) => Vacant(s, p, n)
    case Sweeping(items, _, _) =>
      forall i :: 0 <= i < |items| && items[i].name in s.claims ==> s.claims[items[i].name].mark == items[i].mark
    case _ => true
  }

  ghost predicate Inv(s: System, p: Premise) {
    && (forall n :: Both(s, n) ==> Tolerated(s, p, n))
    && MountedUnmarked(s) && Known(s, p)
  }

  /** No claim vanishes that a sandbox has mounted. */
  ghost predicate Spares(s: System, s': System) {
    forall n :: n in s.claims && Mounted(s, n) ==> n in s'.claims
  }

  /** The cluster alone makes nothing exist that did not, and never touches a mark. */
  ghost predicate OnlyFewer(s: System, s': System) {
    && (forall k :: Exists(s', k) ==> Exists(s, k) && SlotOf(s', k).mounts == SlotOf(s, k).mounts)
    && (forall k :: SlotOf(s, k).record.None? ==> SlotOf(s', k).record.None?)
    && (forall n :: n in s'.claims ==> n in s.claims && s'.claims[n].mark == s.claims[n].mark)
    && (forall n :: n in s'.claims && s.claims[n].deleting ==> s'.claims[n].deleting)
  }

  lemma ClusterOnlyFewer(s: System, change: Change)
    ensures OnlyFewer(s, Cluster(s, change)) && Cluster(s, change).doing == s.doing
    ensures Cluster(s, change).swept == s.swept && Cluster(s, change).clock >= s.clock
  {
  }

  lemma FewerKeeps(s: System, p: Premise, s': System)
    requires Inv(s, p) && OnlyFewer(s, s') && s'.doing == s.doing && (p.protects ==> Spares(s, s'))
    ensures Inv(s', p)
  {
    forall n | Mounted(s', n) && n in s'.claims ensures s'.claims[n].mark.None? { assert Mounted(s, n); }
    forall n | Both(s', n) ensures Tolerated(s', p, n) { assert Both(s, n); }
  }

  /** A call that changes no slot and only these claims. */
  lemma ClaimsKeep(s: System, p: Premise, s': System)
    requires Inv(s, p) && s'.slots == s.slots && (p.protects ==> Spares(s, s'))
    requires forall n :: Mounted(s, n) && n in s'.claims ==> s'.claims[n].mark.None?
    requires forall n :: Both(s, n) && n in s'.claims ==> n in s.claims && (s.claims[n].deleting ==>
        s'.claims[n].deleting)
    ensures (forall n :: Both(s', n) ==> Tolerated(s', p, n)) && MountedUnmarked(s')
  {
    forall n | Mounted(s', n) && n in s'.claims ensures s'.claims[n].mark.None? { assert Mounted(s, n); }
    forall n | Both(s', n) ensures Tolerated(s', p, n) { assert Both(s, n); }
  }

  lemma SweepOneKeeps(s: System, p: Premise, o: Outcome)
    requires Inv(s, p) && s.doing.Sweeping? && (p.protects ==> Spares(s, SweepOne(s, o)))
    ensures Inv(SweepOne(s, o), p)
  {
    ClaimsKeep(s, p, SweepOne(s, o));
  }

  lemma MadeKeeps(s: System, p: Premise, o: Outcome)
    requires Inv(s, p) && s.doing.CreateUnit?
    ensures Inv(Call(s, o), p)
  {
    var s' := Call(s, o);
    forall n | Mounted(s', n) && n in s'.claims ensures s'.claims[n].mark.None? {
      if n != s.doing.n { assert Mounted(s, n); }
    }
    forall n | Both(s', n) ensures Tolerated(s', p, n) {
      if n != s.doing.n { assert Both(s, n); }
    }
  }

  lemma DeleteRecordKeeps(s: System, p: Premise, o: Outcome)
    requires Inv(s, p) && s.doing.DeleteRecord?
    ensures Inv(Call(s, o), p)
  {
    var s' := Call(s, o);
    forall n | Mounted(s', n) && n in s'.claims ensures s'.claims[n].mark.None? { assert Mounted(s, n); }
    forall n | Both(s', n) ensures Tolerated(s', p, n) { assert Both(s, n); }
  }

  lemma PrepareKeeps(s: System, p: Premise, o: Outcome)
    requires Inv(s, p) && s.doing.PrepareVolume?
    ensures Inv(Call(s, o), p)
  {
    ClaimsKeep(s, p, Call(s, o));
  }

  lemma DetachKeeps(s: System, p: Premise, o: Outcome)
    requires Inv(s, p) && s.doing.Detach?
    ensures Inv(Call(s, o), p)
  {
    ClaimsKeep(s, p, Call(s, o));
  }

  lemma ReadKeeps(s: System, p: Premise, o: Outcome)
    requires Inv(s, p) && !s.doing.Sweeping? && !s.doing.CreateUnit? && !s.doing.DeleteRecord?
    requires !s.doing.PrepareVolume? && !s.doing.Detach?
    ensures Inv(Call(s, o), p)
  {
    ClaimsKeep(s, p, Call(s, o));
    ReadKnows(s, p, o);
  }

  lemma ReadKnows(s: System, p: Premise, o: Outcome)
    requires Inv(s, p) && !s.doing.Sweeping? && !s.doing.CreateUnit? && !s.doing.DeleteRecord?
    requires !s.doing.PrepareVolume? && !s.doing.Detach?
    ensures Known(Call(s, o), p)
  {
    match s.doing {
      case AskCurrent(n, _) => assert Both(s, n) ==> Tolerated(s, p, n);
      case AskLegacy(n, _) => assert Both(s, n) ==> Tolerated(s, p, n);
      case AskLegacyPod(n, _) => assert Both(s, n) ==> Tolerated(s, p, n);
      case _ =>
    }
  }

  lemma CallKeeps(s: System, p: Premise, o: Outcome)
    requires Inv(s, p) && (p.protects ==> Spares(s, Call(s, o)))
    ensures Inv(Call(s, o), p)
  {
    if s.doing.Sweeping? { SweepOneKeeps(s, p, o); }
    else if s.doing.CreateUnit? { MadeKeeps(s, p, o); }
    else if s.doing.DeleteRecord? { DeleteRecordKeeps(s, p, o); }
    else if s.doing.PrepareVolume? { PrepareKeeps(s, p, o); }
    else if s.doing.Detach? { DetachKeeps(s, p, o); }
    else { ReadKeeps(s, p, o); }
  }

  lemma NextKeeps(s: System, p: Premise, step: Step)
    requires Inv(s, p) && (p.protects ==> Spares(s, Next(s, step)))
    ensures Inv(Next(s, step), p) && Next(s, step).clock >= s.clock
  {
    match step
    case Go(o) => CallKeeps(s, p, o);
    case Begin(_, _) => ClaimsKeep(s, p, Next(s, step));
    case BeginSweep(_, _, _) => ClaimsKeep(s, p, Next(s, step));
    case Meanwhile(change) =>
      ClusterOnlyFewer(s, change);
      FewerKeeps(s, p, Cluster(s, change));
  }

  /** The cluster kept every claim as long as a sandbox mounted it. */
  ghost predicate Protected(s: System, steps: seq<Step>) {
    steps != [] ==>
      var init := steps[..|steps| - 1];
      Protected(s, init) && Spares(Run(s, init), Run(s, steps))
  }

  lemma {:induction false} RunKeeps(s: System, p: Premise, steps: seq<Step>)
    requires Inv(s, p) && (p.protects ==> Protected(s, steps))
    ensures Inv(Run(s, steps), p) && Run(s, steps).clock >= s.clock
  {
    if steps != [] {
      RunKeeps(s, p, steps[..|steps| - 1]);
      NextKeeps(Run(s, steps[..|steps| - 1]), p, steps[|steps| - 1]);
    }
  }

  /** Where the loop starts: nothing in progress, no mounted volume marked, and a Workspace that exists
      under both names is guarded. */
  ghost predicate Initial(s: System) {
    s.doing.Idle? && Guarded(s) && MountedUnmarked(s)
  }

  lemma InitialRun(s: System, steps: seq<Step>)
    requires Initial(s)
    ensures Inv(Run(s, steps), Twofold(s)) && Run(s, steps).clock >= s.clock
  {
    RunKeeps(s, Twofold(s), steps);
  }

  // ------------------------------------------------------------ the main results

  /** Over every run, whatever the cluster does and whichever calls fail half-way: a volume mounted
      by an existing sandbox never carries a detached-at mark. */
  lemma MountedIsNeverMarked(s: System, steps: seq<Step>, n: string)
    requires Initial(s) && Mounted(Run(s, steps), n) && n in Run(s, steps).claims
    ensures Run(s, steps).claims[n].mark.None?
  {
    InitialRun(s, steps);
  }

  /** A mark is a lower bound for the end of the last use: everything that had the volume mounted
      did so before the mark's second was over. */
  ghost predicate UnusedSince(s: System, steps: seq<Step>, k: nat, n: string, at: int)
    requires k <= |steps|
  {
    forall i :: 0 <= i <= k && Mounted(Run(s, steps[..i]), n) ==> Run(s, steps[..i]).clock < at + SECOND
  }

  lemma StampIsClose(now: int)
    ensures Stamp(now) <= now < Stamp(now) + SECOND
  {
  }

  /** Where a mark comes from: it was there, or this step stamped it on a volume that nothing mounts,
      of a Workspace whose sandbox was confirmed absent. */
  lemma MarkArises(s: System, p: Premise, step: Step, n: string)
    requires Inv(s, p) && n in Next(s, step).claims && Next(s, step).claims[n].mark.Some?
    ensures || (n in s.claims && s.claims[n].mark == Next(s, step).claims[n].mark)
            || (&& n in s.claims && s.claims[n].mark.None? && s.doing == Detach(n) && step.Go?
                && Next(s, step).claims[n].mark == Some(Stamp(s.clock)) && Next(s, step).clock == s.clock
                && Vacant(s, p, n) && !Mounted(s, n))
  {
  }

  lemma MarkMeansUnused(s: System, steps: seq<Step>, k: nat, n: string)
    requires Initial(s) && k <= |steps|
    requires var now := Run(s, steps[..k]); n in now.claims && now.claims[n].mark.Some?
    ensures UnusedSince(s, steps, k, n, Run(s, steps[..k]).claims[n].mark.value)
  {
    MarkHasItsDetach(s, steps, k, n);
    if j: nat :| StampedAt(s, steps, j, k, n) {
      StampIsClose(Run(s, steps[..j]).clock);
      forall i | 0 <= i <= k && Mounted(Run(s, steps[..i]), n)
        ensures Run(s, steps[..i]).clock <= Run(s, steps[..j]).clock
      {
        UsesComeBefore(s, steps, j, k, n, i);
      }
    }
  }

  lemma NeverBack(s: System, step: Step)
    ensures Next(s, step).clock >= s.clock
  {
  }

  lemma {:induction false} ClockGrows(s: System, steps: seq<Step>, i: nat, k: nat)
    requires i <= k <= |steps|
    ensures Run(s, steps[..i]).clock <= Run(s, steps[..k]).clock
  {
    if i < k {
      assert steps[..k][..k - 1] == steps[..k - 1];
      ClockGrows(s, steps, i, k - 1);
      NeverBack(Run(s, steps[..k - 1]), steps[k - 1]);
    }
  }

  /** The sweep's next call requests the deletion of this claim. */
  predicate SweepDeletes(s: System, o: Outcome, n: string) {
    && s.doing.Sweeping? && s.doing.at < |s.doing.items| && s.doing.items[s.doing.at].name == n
    && n in s.claims && SweepOne(s, o).claims != s.claims
  }

  /** The sweep deletes only what no existing sandbox mounts and what has been detached for the
      retention: over the whole run, the volume was last mounted more than `keep` minus one second
      ago, the second that the mark does not keep. */
  lemma SweptVolumesWereUnused(s: System, steps: seq<Step>, o: Outcome, n: string, i: nat)
    requires Initial(s) && SweepDeletes(Run(s, steps), o, n) && i <= |steps|
    ensures var now := Run(s, steps);
      && !Mounted(now, n) && Expired(now.claims[n].mark, now.clock, now.doing.keep)
      && (Mounted(Run(s, steps[..i]), n) ==> now.clock - Run(s, steps[..i]).clock > now.doing.keep - SECOND)
  {
    InitialRun(s, steps);
    assert steps[..|steps|] == steps;
    MarkMeansUnused(s, steps, |steps|, n);
  }

  /** While the agent's Workspaces have volumes, the retention is its days; afterwards a detached
      volume goes at once. */
  lemma SweepKeepsForItsDays(s: System, listed: seq<string>, days: Option<nat>)
    requires s.doing.Idle? && IsListing(listed, s.claims)
    ensures var s' := SweepBegins(s, listed, days, false);
      if s.swept.Some? && s.clock - s.swept.value < 600_000_000_000 then s' == s
      else s'.doing.Sweeping? && s'.doing.keep == (if days.Some? then days.value * 86_400_000_000_000 else 0)
           && s'.swept == Some(s.clock) && |s'.doing.items| == |s.claims|
  {
    if !(s.swept.Some? && s.clock - s.swept.value < 600_000_000_000) { ListingLength(listed, s.claims); }
  }

  /** A listing that failed does not count as a sweep. */
  lemma FailedListingIsTriedAgain(s: System, listed: seq<string>, days: Option<nat>, later: int)
    requires s.doing.Idle? && later >= s.clock && IsListing(listed, s.claims)
    ensures Next(s, BeginSweep(listed, days, true)) == s
    ensures s.swept.None? || s.clock - s.swept.value >= 600_000_000_000 ==>
              var again := Next(Next(s, Meanwhile(Tick(later))), BeginSweep(listed, days, false));
              again.doing.Sweeping? && again.swept == Some(later)
  {
  }

  /** A create makes a sandbox only where there is none, and takes over a pod that is there with what it mounts. */
  lemma SandboxIsMade(s: System, n: string, mounts: bool, o: Outcome)
    requires s.doing == CreateUnit(n, mounts)
    ensures var s', k := Next(s, Go(o)), Key(n, Current);
      var was, now := SlotOf(s, k), SlotOf(s', k);
      && s'.claims == s.claims && s'.doing.Idle? && (forall j :: j != k ==> SlotOf(s', j) == SlotOf(s, j))
      && (was.record.Some? || (o.failed && !o.applied) ==> now == was)
      && (was.record.None? && (!o.failed || o.applied) ==>
            && (now.mounts <==> mounts || (was.pod && was.mounts)) && (was.pod ==> now.pod)
            && (now.record.None? <==> o.failed && o.orphan) && (now.record.None? ==> now.pod)
            && (now.record.Some? ==> now.pod == was.pod))
  {
  }

  lemma {:induction false} ListingLength(listed: seq<string>, claims: Claims)
    requires IsListing(listed, claims)
    ensures |listed| == |claims|
  {
    if listed != [] {
      var last, rest := listed[|listed| - 1], claims - {listed[|listed| - 1]};
      assert IsListing(listed[..|listed| - 1], rest);
      ListingLength(listed[..|listed| - 1], rest);
      assert claims == rest[last := claims[last]];
    } else {
      assert claims == map[];
    }
  }

  /** Nobody but the Workspace's next sandbox takes a mark away, and nothing moves it. */
  lemma MarkStays(s: System, p: Premise, step: Step, n: string)
    requires Inv(s, p) && n in s.claims && s.claims[n].mark.Some? && n in Next(s, step).claims
    ensures Next(s, step).claims[n].mark == s.claims[n].mark
         || (s.doing == PrepareVolume(n) && Next(s, step).claims[n].mark.None?)
  {
  }

  // ------------------------------------------------------------ a second that the mark does not keep

  lemma RunAt(s: System, steps: seq<Step>, k: nat)
    requires k < |steps|
    ensures Run(s, steps[..k + 1]) == Next(Run(s, steps[..k]), steps[k])
  {
    assert steps[..k + 1][..k] == steps[..k];
  }

  /** Step `j` stamped the claim, and it has kept this mark up to step `k`. */
  ghost predicate StampedAt(s: System, steps: seq<Step>, j: nat, k: nat, n: string) {
    && j < k <= |steps|
    && var at := Run(s, steps[..j]);
       at.doing == Detach(n) && n in at.claims && at.claims[n].mark.None?
       && forall l :: j < l <= k ==>
             n in Run(s, steps[..l]).claims && Run(s, steps[..l]).claims[n].mark == Some(Stamp(at.clock))
  }

  ghost predicate NeverMounted(s: System, steps: seq<Step>, k: nat, n: string) {
    k <= |steps| && forall i :: 0 <= i <= k ==> !Mounted(Run(s, steps[..i]), n)
  }

  /** A mark was stamped by some step of the run, or the run began with it and never mounted the volume. */
  lemma {:induction false} MarkHasItsDetach(s: System, steps: seq<Step>, k: nat, n: string)
    requires Initial(s) && k <= |steps|
    requires var now := Run(s, steps[..k]); n in now.claims && now.claims[n].mark.Some?
    ensures (exists j :: StampedAt(s, steps, j, k, n)) || NeverMounted(s, steps, k, n)
  {
    InitialRun(s, steps[..k]);
    if k > 0 {
      var l := k - 1;
      LastStep(s, steps, l, n);
      if !StampedAt(s, steps, l, k, n) {
        MarkHasItsDetach(s, steps, l, n);
        if j :| StampedAt(s, steps, j, l, n) { StampGoesOn(s, steps, j, l, n); }
      }
    }
  }

  /** The last step stamped the claim, or found it with its mark. */
  lemma LastStep(s: System, steps: seq<Step>, k: nat, n: string)
    requires Initial(s) && k < |steps|
    requires var now := Run(s, steps[..k + 1]); n in now.claims && now.claims[n].mark.Some?
    ensures StampedAt(s, steps, k, k + 1, n)
         || (n in Run(s, steps[..k]).claims
             && Run(s, steps[..k]).claims[n].mark == Run(s, steps[..k + 1]).claims[n].mark)
  {
    var before, now := Run(s, steps[..k]), Run(s, steps[..k + 1]);
    RunAt(s, steps, k);
    InitialRun(s, steps[..k]);
    MarkArises(before, Twofold(s), steps[k], n);
    if !(n in before.claims && before.claims[n].mark == now.claims[n].mark) { StampBegins(s, steps, k, n); }
  }

  lemma StampBegins(s: System, steps: seq<Step>, j: nat, n: string)
    requires j < |steps|
    requires var at, next := Run(s, steps[..j]), Run(s, steps[..j + 1]);
      && at.doing == Detach(n) && n in at.claims && at.claims[n].mark.None?
      && n in next.claims && next.claims[n].mark == Some(Stamp(at.clock))
    ensures StampedAt(s, steps, j, j + 1, n)
  {
  }

  lemma StampGoesOn(s: System, steps: seq<Step>, j: nat, k: nat, n: string)
    requires StampedAt(s, steps, j, k, n) && k < |steps|
    requires var before, now := Run(s, steps[..k]), Run(s, steps[..k + 1]);
      n in now.claims && n in before.claims && now.claims[n].mark == before.claims[n].mark
    ensures StampedAt(s, steps, j, k + 1, n)
  {
  }

  /** After the stamp the volume was not mounted any more. */
  lemma UsesComeBefore(s: System, steps: seq<Step>, j: nat, k: nat, n: string, i: nat)
    requires Initial(s) && StampedAt(s, steps, j, k, n) && i <= k && Mounted(Run(s, steps[..i]), n)
    ensures i <= j && Run(s, steps[..i]).clock <= Run(s, steps[..j]).clock
  {
    InitialRun(s, steps[..i]);
    if i <= j { ClockGrows(s, steps, i, j); }
  }

  /** At the end of the run the sweep is about to delete a volume that was mounted less than `keep` ago. */
  ghost predicate UsedWithin(s: System, steps: seq<Step>, n: string, keep: int) {
    exists i :: 0 <= i <= |steps| && Mounted(Run(s, steps[..i]), n)
                && Run(s, steps).clock - Run(s, steps[..i]).clock < keep
  }

  ghost predicate UsedUntil(s: System, steps: seq<Step>, n: string, at: int) {
    exists i :: 0 <= i <= |steps| && Mounted(Run(s, steps[..i]), n) && Run(s, steps[..i]).clock == at
  }

  /** A deletion is early only while the sweep's clock is below the detach clock plus the retention,
      and exactly then if the volume was in use until it was detached. */
  lemma SweptEarlyIff(s: System, steps: seq<Step>, o: Outcome, n: string, j: nat)
    requires Initial(s) && SweepDeletes(Run(s, steps), o, n) && StampedAt(s, steps, j, |steps|, n)
    ensures var now, detached := Run(s, steps), Run(s, steps[..j]).clock;
      && now.clock >= Stamp(detached) + now.doing.keep
      && (UsedWithin(s, steps, n, now.doing.keep) ==> now.clock < detached + now.doing.keep)
      && (UsedUntil(s, steps, n, detached) ==>
            (UsedWithin(s, steps, n, now.doing.keep) <==> now.clock < detached + now.doing.keep))
  {
    var now, detached := Run(s, steps), Run(s, steps[..j]).clock;
    InitialRun(s, steps);
    assert steps[..|steps|] == steps;
    if UsedWithin(s, steps, n, now.doing.keep) {
      var i :| 0 <= i <= |steps| && Mounted(Run(s, steps[..i]), n)
               && now.clock - Run(s, steps[..i]).clock < now.doing.keep;
      UsesComeBefore(s, steps, j, |steps|, n, i);
    }
  }

  /** A run that detaches the volume at `detached` and ends before the sweep's call that deletes it,
      though it was mounted less than `days` ago. */
  ghost predicate EarlySweep(s: System, steps: seq<Step>, o: Outcome, n: string, j: nat, detached: int, days: nat) {
    && Initial(s) && SweepDeletes(Run(s, steps), o, n) && Run(s, steps).doing.keep == days * DAY
    && StampedAt(s, steps, j, |steps|, n) && Run(s, steps[..j]).clock == detached
    && UsedWithin(s, steps, n, days * DAY)
  }

  const Fine := Outcome(false, true, OtherPhase, false, false)

  /** A Workspace whose sandbox is still there at `now`. */
  function InUse(n: string, now: int): System {
    System(map[Key(n, Current) := Slot(Some(OtherPhase), false, true)], map[n := Claim(None, false)], now, None, Idle)
  }

  /** The record goes between two reads of Remove, and the next sweep comes as soon as the mark allows. */
  function SweepSoon(n: string, now: int, days: nat): seq<Step> {
    [Begin(n, Retire), Go(Fine), Meanwhile(RecordGoes(Key(n, Current))), Go(Fine), Go(Fine), Go(Fine),
     Meanwhile(Tick(Stamp(now) + days * DAY)), BeginSweep([n], Some(days), false)]
  }

  lemma RecordAsked(n: string, now: int, days: nat)
    ensures Run(InUse(n, now), SweepSoon(n, now, days)[..2]) == InUse(n, now).(doing := AskRecord(n, Current, Retire))
  {
    var s, p := InUse(n, now), SweepSoon(n, now, days);
    assert p[..0] == [];
    RunAt(s, p, 0);
    RunAt(s, p, 1);
  }

  lemma FoundGone(n: string, now: int, days: nat)
    ensures var s := Run(InUse(n, now), SweepSoon(n, now, days)[..4]);
      s.doing == AskPod(n, Current, Retire) && s.slots == map[Key(n, Current) := Slot(None, false, true)]
      && s.claims == map[n := Claim(None, false)] && s.clock == now && s.swept.None?
  {
    var s, p := InUse(n, now), SweepSoon(n, now, days);
    RecordAsked(n, now, days);
    RunAt(s, p, 2);
    assert Run(s, p[..3]) == Update(Run(s, p[..2]), Key(n, Current), Slot(None, false, true));
    RunAt(s, p, 3);
  }

  lemma DetachedNow(n: string, now: int, days: nat)
    ensures var s := Run(InUse(n, now), SweepSoon(n, now, days)[..5]);
      s.doing == Detach(n) && s.claims == map[n := Claim(None, false)] && s.clock == now && s.swept.None?
  {
    FoundGone(n, now, days);
    RunAt(InUse(n, now), SweepSoon(n, now, days), 4);
  }

  lemma MarkedNow(n: string, now: int, days: nat)
    ensures var s := Run(InUse(n, now), SweepSoon(n, now, days)[..6]);
      s.doing.Idle? && s.claims == map[n := Claim(Some(Stamp(now)), false)] && s.clock == now && s.swept.None?
  {
    DetachedNow(n, now, days);
    RunAt(InUse(n, now), SweepSoon(n, now, days), 5);
  }

  /** The claim carries its mark when the sweep begins. */
  lemma MarkedLater(n: string, now: int, days: nat)
    requires days > 0
    ensures var s := Run(InUse(n, now), SweepSoon(n, now, days)[..7]);
      && s.doing.Idle? && s.claims == map[n := Claim(Some(Stamp(now)), false)]
      && s.clock == Stamp(now) + days * DAY && s.swept.None?
  {
    MarkedNow(n, now, days);
    RunAt(InUse(n, now), SweepSoon(n, now, days), 6);
  }

  lemma SweepHasBegun(n: string, now: int, days: nat)
    requires days > 0
    ensures var s := Run(InUse(n, now), SweepSoon(n, now, days));
      && s.doing == Sweeping([Item(n, Some(Stamp(now)))], 0, days * DAY)
      && s.claims == map[n := Claim(Some(Stamp(now)), false)] && s.clock == Stamp(now) + days * DAY
  {
    var s, p := InUse(n, now), SweepSoon(n, now, days);
    MarkedLater(n, now, days);
    RunAt(s, p, 7);
    assert p[..8] == p;
    var claims := Run(s, p[..7]).claims;
    assert IsListing([n], claims);
    assert Items([n], claims) == [Item(n, Some(Stamp(now)))];
  }

  lemma StampedNow(n: string, now: int, days: nat)
    requires days > 0
    ensures StampedAt(InUse(n, now), SweepSoon(n, now, days), 5, 8, n)
    ensures Run(InUse(n, now), SweepSoon(n, now, days)[..5]).clock == now
  {
    var s, p := InUse(n, now), SweepSoon(n, now, days);
    DetachedNow(n, now, days);
    MarkedNow(n, now, days);
    MarkedLater(n, now, days);
    SweepHasBegun(n, now, days);
    assert p[..8] == p;
    forall l | 5 < l <= 8 ensures n in Run(s, p[..l]).claims && Run(s, p[..l]).claims[n].mark == Some(Stamp(now)) {
      assert l == 6 || l == 7 || l == 8;
    }
  }

  lemma InUseIsInitial(n: string, now: int)
    ensures Initial(InUse(n, now)) && Mounted(InUse(n, now), n)
  {
  }

  lemma SweptSoon(n: string, now: int, days: nat)
    requires days > 0 && now % SECOND != 0
    ensures EarlySweep(InUse(n, now), SweepSoon(n, now, days), Fine, n, 5, now, days)
  {
    var s, p := InUse(n, now), SweepSoon(n, now, days);
    StampedNow(n, now, days);
    SweepHasBegun(n, now, days);
    InUseIsInitial(n, now);
    assert p[..0] == [] && Run(s, p[..0]) == s;
    assert UsedWithin(s, p, n, days * DAY);
  }

  lemma StampOfAWhole(now: int)
    ensures now % SECOND == 0 ==> Stamp(now) == now
  {
  }

  lemma EarlyNeedsAFraction(s: System, steps: seq<Step>, o: Outcome, n: string, j: nat, detached: int, days: nat)
    requires EarlySweep(s, steps, o, n, j, detached, days)
    ensures days > 0 && detached % SECOND != 0
  {
    SweptEarlyIff(s, steps, o, n, j);
    assert steps[..|steps|] == steps;
    ClockGrows(s, steps, j, |steps|);
    StampOfAWhole(detached);
  }

  /** Some run sweeps a volume early that was detached at a given moment exactly when the retention is
      not zero and the moment is not a whole second. */
  lemma EarlySweepIff(n: string, detached: int, days: nat)
    ensures (exists s, steps, o, j :: EarlySweep(s, steps, o, n, j, detached, days))
         <==> days > 0 && detached % SECOND != 0
  {
    if s, steps, o, j :| EarlySweep(s, steps, o, n, j, detached, days) {
      EarlyNeedsAFraction(s, steps, o, n, j, detached, days);
    }
    if days > 0 && detached % SECOND != 0 { SweptSoon(n, detached, days); }
  }

  // ------------------------------------------------------------ the exact condition on the two names

  lemma RunOne(s: System, steps: seq<Step>, step: Step)
    ensures Run(s, steps + [step]) == Next(Run(s, steps), step)
  {
    assert (steps + [step])[..|steps|] == steps;
  }

  /** Some run leads there, in a cluster that keeps mounted claims if `protects`. */
  ghost predicate Reaches(s: System, t: System, protects: bool) {
    exists steps :: Run(s, steps) == t && (protects ==> Protected(s, steps))
  }

  lemma Start(s: System, protects: bool)
    ensures Reaches(s, s, protects)
  {
    assert Run(s, []) == s && Protected(s, []);
  }

  lemma ReachStep(s: System, t: System, protects: bool, step: Step) returns (t': System)
    requires Reaches(s, t, protects) && (protects ==> Spares(t, Next(t, step)))
    ensures t' == Next(t, step) && Reaches(s, t', protects)
  {
    var steps :| Run(s, steps) == t && (protects ==> Protected(s, steps));
    RunOne(s, steps, step);
    t' := Next(t, step);
    assert (steps + [step])[..|steps + [step]| - 1] == steps;
    assert Run(s, steps + [step]) == t' && (protects ==> Protected(s, steps + [step]));
  }

  /** Both names exist, of the current one the pod, which has the volume mounted. */
  predicate Exposed(t: System, n: string) {
    && t.doing.Idle? && SlotOf(t, Key(n, Current)) == Slot(None, true, true) && Exists(t, Key(n, Legacy))
    && n in t.claims && t.claims[n] == Claim(None, false)
  }

  /** Its sandbox goes by the former name. */
  lemma LegacyIsAsked(s: System, r: System, protects: bool, n: string) returns (t: System)
    requires Reaches(s, r, protects) && Exposed(r, n)
    ensures Reaches(s, t, protects) && t == r.(doing := AskRecord(n, Legacy, Retire))
  {
    t := ReachStep(s, r, protects, Begin(n, Retire));
    t := ReachStep(s, t, protects, Go(Fine));
    t := ReachStep(s, t, protects, Go(Fine));
    if t.doing.AskLegacyPod? { t := ReachStep(s, t, protects, Go(Fine)); }
  }

  /** That sandbox is found gone. */
  lemma LegacyIsGone(s: System, r: System, protects: bool, n: string) returns (t: System)
    requires Reaches(s, r, protects) && Exposed(r, n)
    ensures Reaches(s, t, protects) && t.doing == Detach(n) && t.claims == r.claims
    ensures SlotOf(t, Key(n, Current)) == SlotOf(r, Key(n, Current))
  {
    t := LegacyIsAsked(s, r, protects, n);
    t := SandboxVanishes(s, t, protects, Key(n, Legacy));
    assert SlotOf(t, Key(n, Current)) == SlotOf(r, Key(n, Current));
    t := ReachStep(s, t, protects, Go(Fine));
    t := ReachStep(s, t, protects, Go(Fine));
  }

  /** And the volume is marked. */
  lemma ExposedIsMarked(s: System, r: System, protects: bool, n: string) returns (t: System)
    requires Reaches(s, r, protects) && Exposed(r, n)
    ensures Reaches(s, t, protects) && !MountedUnmarked(t)
  {
    t := LegacyIsGone(s, r, protects, n);
    t := ReachStep(s, t, protects, Go(Fine));
    assert Mounted(t, n);
  }

  /** A sandbox vanishes. */
  lemma SandboxVanishes(s: System, r: System, protects: bool, k: Key) returns (t: System)
    requires Reaches(s, r, protects)
    ensures Reaches(s, t, protects) && !Exists(t, k) && t.doing == r.doing && t.claims == r.claims
    ensures forall k' :: k' != k ==> SlotOf(t, k') == SlotOf(r, k')
  {
    t := ReachStep(s, r, protects, Meanwhile(RecordGoes(k)));
    t := ReachStep(s, t, protects, Meanwhile(PodGoes(k)));
  }

  /** A current sandbox that has a record vanishes while it is looked for, and so does a claim that is
      being deleted, unless the former sandbox protects it. */
  lemma RecordVanishes(s: System, protects: bool, n: string) returns (t: System)
    requires s.doing.Idle? && SlotOf(s, Key(n, Current)).record.Some? && Exists(s, Key(n, Legacy))
    requires protects ==> !Held(s, n)
    ensures Reaches(s, t, protects) && t.doing == AskRecord(n, Current, Ensure(true))
    ensures Exists(t, Key(n, Legacy)) && !Exists(t, Key(n, Current)) && (n in t.claims ==> !t.claims[n].deleting)
  {
    Start(s, protects);
    t := ReachStep(s, s, protects, Begin(n, Ensure(true)));
    t := ReachStep(s, t, protects, Go(Fine));
    t := SandboxVanishes(s, t, protects, Key(n, Current));
    assert SlotOf(t, Key(n, Legacy)) == SlotOf(s, Key(n, Legacy));
    if n in t.claims && t.claims[n].deleting {
      t := ReachStep(s, t, protects, Meanwhile(ClaimDoomed(n, true)));
    }
  }

  lemma VolumeIsNext(s: System, r: System, protects: bool, n: string) returns (t: System)
    requires Reaches(s, r, protects) && r.doing == AskRecord(n, Current, Ensure(true)) && !Exists(r, Key(n, Current))
    ensures Reaches(s, t, protects) && t == r.(doing := PrepareVolume(n))
  {
    t := ReachStep(s, r, protects, Go(Fine));
    t := ReachStep(s, t, protects, Go(Fine));
  }

  lemma VolumeIsPrepared(s: System, r: System, protects: bool, n: string) returns (t: System)
    requires Reaches(s, r, protects) && r.doing == AskRecord(n, Current, Ensure(true))
    requires !Exists(r, Key(n, Current)) && (n in r.claims ==> !r.claims[n].deleting)
    ensures Reaches(s, t, protects) && t.doing == CreateUnit(n, true) && t.slots == r.slots
    ensures n in t.claims && t.claims[n] == Claim(None, false)
  {
    t := VolumeIsNext(s, r, protects, n);
    t := ReachStep(s, t, protects, Go(Fine));
  }

  /** It is made anew, with the volume, and its record goes before its pod. */
  lemma RecordIsExposed(s: System, protects: bool, n: string) returns (t: System)
    requires s.doing.Idle? && SlotOf(s, Key(n, Current)).record.Some? && Exists(s, Key(n, Legacy))
    requires protects ==> !Held(s, n)
    ensures Reaches(s, t, protects) && Exposed(t, n)
  {
    t := RecordVanishes(s, protects, n);
    t := VolumeIsPrepared(s, t, protects, n);
    t := ReachStep(s, t, protects, Go(Fine));
    t := ReachStep(s, t, protects, Meanwhile(PodAppears(Key(n, Current))));
    t := ReachStep(s, t, protects, Meanwhile(RecordGoes(Key(n, Current))));
  }

  /** From every start that is not guarded some run marks a mounted volume. */
  lemma TwoNamesBreakIt(s: System, protects: bool)
    requires s.doing.Idle? && MountedUnmarked(s) && !GuardedIn(s, protects)
    ensures exists steps :: (protects ==> Protected(s, steps)) && !MountedUnmarked(Run(s, steps))
  {
    var n :| Both(s, n) && !(Harmless(s, n) || (protects && Held(s, n)));
    var t := s;
    Start(s, protects);
    if SlotOf(s, Key(n, Current)).record.Some? {
      t := RecordIsExposed(s, protects, n);
    } else {
      assert Mounted(s, n);
    }
    t := ExposedIsMarked(s, t, protects, n);
    var steps :| Run(s, steps) == t && (protects ==> Protected(s, steps));
    assert !MountedUnmarked(Run(s, steps));
  }

  lemma GuardedRun(s: System, protects: bool, steps: seq<Step>)
    requires s.doing.Idle? && MountedUnmarked(s) && GuardedIn(s, protects) && (protects ==> Protected(s, steps))
    ensures MountedUnmarked(Run(s, steps))
  {
    RunKeeps(s, PremiseOf(s, protects), steps);
  }

  /** No run ever marks a mounted volume exactly when every Workspace that starts under both names is
      guarded: of its current name at most a pod is left, and its volume cannot be marked if that pod
      has it mounted. */
  lemma NeverMarkedIff(s: System)
    requires s.doing.Idle? && MountedUnmarked(s)
    ensures (forall steps :: MountedUnmarked(Run(s, steps))) <==> Guarded(s)
  {
    if Guarded(s) {
      forall steps ensures MountedUnmarked(Run(s, steps)) { GuardedRun(s, false, steps); }
    } else {
      TwoNamesBreakIt(s, false);
    }
  }

  /** In a cluster that keeps a claim as long as a sandbox mounts it, one more kind of start is safe:
      the former sandbox has the volume mounted while its claim is being deleted. */
  lemma NeverMarkedWhenProtectedIff(s: System)
    requires s.doing.Idle? && MountedUnmarked(s)
    ensures (forall steps :: Protected(s, steps) ==> MountedUnmarked(Run(s, steps))) <==> GuardedIn(s, true)
  {
    if GuardedIn(s, true) {
      forall steps | Protected(s, steps) ensures MountedUnmarked(Run(s, steps)) { GuardedRun(s, true, steps); }
    } else {
      TwoNamesBreakIt(s, true);
    }
  }
}
