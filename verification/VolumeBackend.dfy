/** The unit backend of one agent as an object. Before each of its calls the cluster moves on its
    own; every method is proved to take only steps of the machine in Volumes. */
module VolumeBackend {
  import opened Options
  import opened Volumes
  import opened VolumeSafety

  /** What the cluster does before the k-th call, and how that call ends. */
  datatype World = World(changes: nat -> seq<Change>, outcomes: nat -> Outcome)

  predicate IsRead(d: Doing) {
    d.AskCurrent? || d.AskLegacy? || d.AskLegacyPod? || d.AskRecord? || d.AskPod?
  }

  /** What the reads of one Workspace found. */
  datatype Found = Failed | Record(which: Which) | PodOnly(which: Which) | Nothing

  /** Calls of the operation, and what the cluster does in between. */
  ghost predicate Moved(before: seq<Step>, after: seq<Step>) {
    before <= after && forall k :: |before| <= k < |after| ==> after[k].Go? || after[k].Meanwhile?
  }

  /** One operation from its first step on. */
  ghost predicate Whole(before: seq<Step>, after: seq<Step>, first: Step) {
    |before| < |after| && after[|before|] == first && Moved(before + [first], after)
  }

  predicate EndsWith(trace: seq<Step>, o: Outcome) {
    trace != [] && trace[|trace| - 1] == Go(o)
  }

  /** The last call failed. */
  predicate EndsFailed(trace: seq<Step>) {
    trace != [] && trace[|trace| - 1].Go? && trace[|trace| - 1].outcome.failed
  }

  lemma MovedOn(a: seq<Step>, b: seq<Step>, c: seq<Step>)
    requires Moved(a, b) && Moved(b, c)
    ensures Moved(a, c)
  {
  }

  lemma WholeOn(a: seq<Step>, first: Step, b: seq<Step>, c: seq<Step>)
    requires Whole(a, b, first) && Moved(b, c)
    ensures Whole(a, c, first)
  {
    MovedOn(a + [first], b, c);
  }

  /** A sweep of everything listed is a sweep of everything. */
  lemma SweptAll(listed: seq<string>, before: Claims, after: Claims, now: int, keep: int)
    requires IsListing(listed, before)
    requires forall n :: n in after ==> n in before && after[n].mark == before[n].mark
    requires var items := Items(listed, before);
      forall i :: 0 <= i < |items| && items[i].name in after && Expired(items[i].mark, now, keep) ==>
        after[items[i].name].deleting
    ensures forall n :: n in after && Expired(after[n].mark, now, keep) ==> after[n].deleting
  {
    var items := Items(listed, before);
    forall n | n in after && Expired(after[n].mark, now, keep) ensures after[n].deleting {
      var i :| 0 <= i < |listed| && listed[i] == n;
      assert items[i] == Item(n, before[n].mark);
    }
  }

  class Backend {
    const world: World
    var slots: map<Key, Slot>
    var claims: Claims
    var clock: int
    var swept: Option<int>
    var calls: nat
    ghost const start: System
    ghost var model: System
    ghost var trace: seq<Step>

    ghost predicate Follows()
      reads this
    {
      && Initial(start) && model == Run(start, trace)
      && model.slots == slots && model.claims == claims && model.clock == clock && model.swept == swept
    }

    ghost predicate Valid()
      reads this
    {
      Follows() && model.doing.Idle?
    }

    constructor (world: World, s: System)
      requires Initial(s)
      ensures Valid() && model == s && trace == []
    {
      this.world := world;
      slots, claims, clock, swept, calls := s.slots, s.claims, s.clock, s.swept, 0;
      start, model, trace := s, s, [];
    }

    /** What the last step of the machine was made from. */
    ghost function LastCall(): Doing
      reads this
    {
      if trace == [] then Idle else Run(start, trace[..|trace| - 1]).doing
    }

    /** The fields were changed as one step of the machine changes them. */
    ghost method Took(step: Step)
      requires Initial(start) && model == Run(start, trace)
      requires var next := Next(model, step);
        next.slots == slots && next.claims == claims && next.clock == clock && next.swept == swept
      modifies this`model, this`trace
      ensures Follows() && model == Next(old(model), step) && trace == old(trace) + [step]
      ensures LastCall() == old(model.doing)
    {
      RunOne(start, trace, step);
      assert (trace + [step])[..|trace|] == trace;
      model, trace := Next(model, step), trace + [step];
    }

    function SlotAt(k: Key): Slot
      reads this
    {
      if k in slots then slots[k] else Empty
    }

    method Apply(change: Change)
      requires Follows()
      modifies this
      ensures Follows() && model == Cluster(old(model), change) && Moved(old(trace), trace)
    {
      match change {
        case Tick(to) => if to > clock { clock := to; }
        case PodAppears(k) =>
          if SlotAt(k).record.Some? { slots := slots[k := SlotAt(k).(pod := true)]; }
        case PodGoes(k) =>
          if SlotAt(k).record.Some? || SlotAt(k).pod { slots := slots[k := SlotAt(k).(pod := false)]; }
        case PhaseChanges(k, phase) =>
          if SlotAt(k).record.Some? { slots := slots[k := SlotAt(k).(record := Some(phase))]; }
        case RecordGoes(k) =>
          if SlotAt(k).record.Some? || SlotAt(k).pod { slots := slots[k := SlotAt(k).(record := None)]; }
        case ClaimDoomed(n, atOnce) => claims := Doomed(claims, n, atOnce);
      }
      Took(Meanwhile(change));
    }

    /** The cluster moves on, then the next call ends as the world decides. */
    method Await() returns (o: Outcome)
      requires Follows()
      modifies this
      ensures Follows() && model.doing == old(model.doing) && OnlyFewer(old(model), model)
      ensures model.swept == old(model.swept) && model.clock >= old(model.clock) && Moved(old(trace), trace)
    {
      var changes := world.changes(calls);
      var i := 0;
      while i < |changes|
        invariant 0 <= i <= |changes|
        invariant Follows() && model.doing == old(model.doing) && OnlyFewer(old(model), model)
        invariant model.swept == old(model.swept) && model.clock >= old(model.clock) && Moved(old(trace), trace)
      {
        ghost var before := model;
        Apply(changes[i]);
        ClusterOnlyFewer(before, changes[i]);
        FewerTransitive(old(model), before, model);
        i := i + 1;
      }
      o := world.outcomes(calls);
      calls := calls + 1;
    }

    /** A call that only reads. */
    method Ask() returns (o: Outcome)
      requires Follows() && IsRead(model.doing)
      modifies this
      ensures Follows() && OnlyFewer(old(model), model) && Moved(old(trace), trace) && EndsWith(trace, o)
      ensures LastCall() == old(model.doing)
      ensures model.doing == Call(model.(doing := old(model.doing)), o).doing
    {
      o := Await();
      Took(Go(o));
    }

    /** The name a Workspace's sandbox goes by, or none when a call failed. */
    method SandboxFor(n: string, ghost why: Purpose) returns (which: Option<Which>)
      requires Follows() && model.doing == AskCurrent(n, why)
      modifies this
      ensures Follows() && Moved(old(trace), trace) && (which.None? <==> EndsFailed(trace)) && IsRead(LastCall())
      ensures model.doing == if which.Some? then AskRecord(n, which.value, why) else Idle
    {
      var o := Ask();
      if o.failed { return None; }
      if SlotAt(Key(n, Current)).record.Some? { return Some(Current); }
      o := Ask();
      if o.failed { return None; }
      if SlotAt(Key(n, Legacy)).record.Some? { return Some(Legacy); }
      o := Ask();
      if o.failed { return None; }
      return Some(if SlotAt(Key(n, Legacy)).pod then Legacy else Current);
    }

    /** What the reads found, and what the machine is to do about it. */
    ghost predicate LookedUp(n: string, why: Purpose, found: Found)
      reads this
    {
      match found
      case Failed => model.doing.Idle?
      case Record(which) =>
        SlotAt(Key(n, which)).record.Some?
        && model.doing == (if why.Retire? && SlotAt(Key(n, which)).record != Some(Deleting)
                           then Doing.DeleteRecord(n, which) else Idle)
      case PodOnly(which) => model.doing.Idle? && SlotAt(Key(n, which)).record.None? && SlotAt(Key(n, which)).pod
      case Nothing =>
        model.doing == if why.Retire? then Detach(n)
                       else if why.volume then Doing.PrepareVolume(n) else CreateUnit(n, false)
    }

    /** Both names, the record and the pod, one read after another. */
    method Look(n: string, why: Purpose) returns (found: Found)
      requires Valid()
      modifies this
      ensures Follows() && Whole(old(trace), trace, Begin(n, why)) && (found.Failed? <==> EndsFailed(trace))
      ensures IsRead(LastCall()) && LookedUp(n, why, found)
    {
      Took(Begin(n, why));
      ghost var begun := trace;
      var which := SandboxFor(n, why);
      WholeOn(old(trace), Begin(n, why), begun, trace);
      if which.None? { return Failed; }
      ghost var named := trace;
      found := LookAt(n, which.value, why);
      WholeOn(old(trace), Begin(n, why), named, trace);
    }

    /** The record, and without one the pod. */
    method LookAt(n: string, which: Which, why: Purpose) returns (found: Found)
      requires Follows() && model.doing == AskRecord(n, which, why)
      modifies this
      ensures Follows() && Moved(old(trace), trace) && (found.Failed? <==> EndsFailed(trace))
      ensures IsRead(LastCall()) && LookedUp(n, why, found)
    {
      var k := Key(n, which);
      var o := Ask();
      if o.failed { return Failed; }
      if SlotAt(k).record.Some? { return Record(which); }
      assert SlotOf(model, k).record.None?;
      o := Ask();
      assert SlotOf(model, k).record.None?;
      if o.failed { return Failed; }
      return if SlotAt(k).pod then PodOnly(which) else Nothing;
    }

    /** `Remove`: what it reports gone is gone, and the volume it leaves is marked. What remains without a
        failure is being deleted, or is a pod without its record. It fails exactly with its last call, and the
        unit is gone exactly when that call was the detach. */
    method Remove(n: string) returns (remaining: bool, failed: bool, ghost which: Which)
      requires Valid()
      modifies this
      ensures Valid() && Whole(old(trace), trace, Begin(n, Retire)) && (failed <==> EndsFailed(trace))
      ensures !failed ==> (remaining <==> !LastCall().Detach?)
      ensures !remaining && !failed ==>
        Vacant(model, Twofold(start), n) && (n in claims ==> claims[n].mark.Some? || claims[n].deleting)
      ensures remaining && !failed ==>
        SlotAt(Key(n, which)).record.None? || SlotAt(Key(n, which)).record == Some(Deleting)
      ensures remaining ==> !failed
    {
      var found := Look(n, Retire);
      ghost var looked := trace;
      which := Current;
      match found {
        case Failed => return false, true, Current;
        case PodOnly(w) => return true, false, w;
        case Record(w) =>
          failed := false;
          if SlotAt(Key(n, w)).record != Some(Deleting) { failed := DeleteRecord(n, w); }
          WholeOn(old(trace), Begin(n, Retire), looked, trace);
          return !failed, failed, w;
        case Nothing =>
          var o := Await();
          InitialRun(start, trace);
          failed := MarkDetached(n, o);
          WholeOn(old(trace), Begin(n, Retire), looked, trace);
          remaining := false;
      }
    }

    method DeleteRecord(n: string, which: Which) returns (failed: bool)
      requires Follows() && model.doing == Doing.DeleteRecord(n, which)
      modifies this
      ensures Valid() && Moved(old(trace), trace) && (failed <==> EndsFailed(trace))
      ensures trace != [] && trace[|trace| - 1].Go? && LastCall() == old(model.doing)
      ensures !failed ==> SlotAt(Key(n, which)).record.None? || SlotAt(Key(n, which)).record == Some(Deleting)
    {
      var o := Await();
      var k := Key(n, which);
      if o.TookEffect() && SlotAt(k).record.Some? {
        slots := slots[k := SlotAt(k).(record := if o.atOnce then None else Some(Deleting))];
      }
      Took(Go(o));
      failed := o.failed;
    }

    /** `markDetached` stamps a claim once. */
    method MarkDetached(n: string, o: Outcome) returns (failed: bool)
      requires Follows() && model.doing == Detach(n) && Vacant(model, Twofold(start), n)
      modifies this
      ensures Valid() && Vacant(model, Twofold(start), n) && failed == o.failed
      ensures trace == old(trace) + [Go(o)] && LastCall() == old(model.doing)
      ensures claims == if o.TookEffect() then Volumes.MarkDetached(old(claims), n, clock) else old(claims)
    {
      if o.TookEffect() {
        if n in claims && claims[n].mark.None? && !claims[n].deleting {
          claims := claims[n := claims[n].(mark := Some(Stamp(clock)))];
        }
      }
      Took(Go(o));
      failed := o.failed;
    }

    /** `State` and, for an absent unit, `Create`: a new sandbox with the volume finds its claim
        unmarked. It is made exactly when the last call was a create and did not fail. */
    method EnsureUnit(n: string, volume: bool) returns (created: bool)
      requires Valid()
      modifies this
      ensures Valid() && Whole(old(trace), trace, Begin(n, Ensure(volume)))
      ensures created <==> LastCall().CreateUnit? && !EndsFailed(trace)
      ensures created ==> SlotAt(Key(n, Current)).record.Some? && (volume ==> SlotAt(Key(n, Current)).mounts)
      ensures created && SlotAt(Key(n, Current)).mounts ==> volume || Both(start, n)
      ensures created && volume && n in claims ==> claims[n].mark.None?
    {
      var found := Look(n, Ensure(volume));
      if found != Nothing { return false; }
      ghost var looked := trace;
      if volume {
        var ready := TakeVolume(n);
        WholeOn(old(trace), Begin(n, Ensure(volume)), looked, trace);
        if !ready { return false; }
      }
      ghost var ready := trace;
      created := MakeUnit(n, volume);
      WholeOn(old(trace), Begin(n, Ensure(volume)), ready, trace);
    }

    method TakeVolume(n: string) returns (ready: bool)
      requires Follows() && model.doing == Doing.PrepareVolume(n)
      modifies this
      ensures Follows() && Moved(old(trace), trace) && LastCall() == old(model.doing)
      ensures model.doing == if ready then CreateUnit(n, true) else Idle
    {
      var o := Await();
      ready := PrepareVolume(n, o);
    }

    method MakeUnit(n: string, volume: bool) returns (created: bool)
      requires Follows() && model.doing == CreateUnit(n, volume)
      modifies this
      ensures Valid() && Moved(old(trace), trace) && LastCall() == old(model.doing)
      ensures created <==> !EndsFailed(trace)
      ensures created ==> SlotAt(Key(n, Current)).record.Some? && (volume ==> SlotAt(Key(n, Current)).mounts)
      ensures created && SlotAt(Key(n, Current)).mounts ==> volume || Both(start, n)
      ensures created && volume && n in claims ==> claims[n].mark.None?
    {
      var o := Await();
      InitialRun(start, trace);
      created := MakeSandbox(n, volume, o);
      InitialRun(start, trace);
      assert created && volume ==> Mounted(model, n);
    }

    /** `ensureVolume`: a missing claim is made, a marked one loses its mark, a dying one is refused. */
    method PrepareVolume(n: string, o: Outcome) returns (ready: bool)
      requires Follows() && model.doing == Doing.PrepareVolume(n)
      modifies this
      ensures Follows() && trace == old(trace) + [Go(o)] && LastCall() == old(model.doing)
      ensures model.doing == if ready then CreateUnit(n, true) else Idle
      ensures ready <==> !o.failed && !(n in old(claims) && old(claims[n].deleting))
      ensures ready ==> n in claims && claims[n] == Claim(None, false)
    {
      ready := !o.failed;
      if n !in claims {
        if o.TookEffect() { claims := claims[n := Claim(None, false)]; }
      } else if claims[n].deleting {
        ready := false;
      } else if o.TookEffect() {
        claims := claims[n := claims[n].(mark := None)];
      }
      Took(Go(o));
    }

    method MakeSandbox(n: string, mounts: bool, o: Outcome) returns (created: bool)
      requires Follows() && model.doing == CreateUnit(n, mounts) && SlotAt(Key(n, Current)).record.None?
      modifies this
      ensures Valid() && trace == old(trace) + [Go(o)] && LastCall() == old(model.doing) && (created <==> !o.failed)
      ensures var was, now := old(SlotAt(Key(n, Current))), SlotAt(Key(n, Current));
        created ==> now.record.Some? && now.pod == was.pod && (now.mounts <==> mounts || (was.pod && was.mounts))
    {
      var k := Key(n, Current);
      if o.TookEffect() {
        var was := SlotAt(k);
        var mounts' := mounts || (was.pod && was.mounts);
        slots := slots[k := if o.failed && o.orphan then Slot(None, true, mounts')
                            else Slot(Some(o.phase), was.pod, mounts')];
      }
      Took(Go(o));
      created := !o.failed;
    }

    method SweepItem(items: seq<Item>, at: nat, keep: int) returns (failed: bool)
      requires Follows() && at < |items| && model.doing == Sweeping(items, at, keep)
      modifies this
      ensures Follows() && Moved(old(trace), trace) && model.clock >= old(model.clock)
      ensures (failed ==> EndsFailed(trace)) && swept == old(swept)
      ensures model.doing == if failed then Idle else Sweeping(items, at + 1, keep)
      ensures forall n :: n in claims ==> n in old(claims) && claims[n].mark == old(claims[n].mark)
                                          && (old(claims[n].deleting) ==> claims[n].deleting)
      ensures !failed && items[at].name in claims && Expired(items[at].mark, old(clock), keep) ==>
        claims[items[at].name].deleting
    {
      var o := Await();
      failed := false;
      if Expired(items[at].mark, clock, keep) {
        if o.TookEffect() { claims := Doomed(claims, items[at].name, o.atOnce); }
        failed := o.failed;
      }
      Took(Go(o));
    }

    /** `Sweep`: after one that ran to its end, no claim is left alone whose retention had passed
        when it began. It ends early exactly with a deletion that failed; a listing that failed is tried
        again the next time. */
    method Sweep(listed: seq<string>, days: Option<nat>, listFails: bool) returns (ran: bool, failed: bool)
      requires Valid() && IsListing(listed, claims)
      modifies this
      ensures Valid()
      ensures var due := old(swept.None? || clock - swept.value >= SWEEP_EVERY);
        (ran <==> due && !listFails) && (!ran ==> (failed <==> due) && claims == old(claims) && swept == old(swept))
      ensures ran ==> Whole(old(trace), trace, BeginSweep(listed, days, false)) && (failed <==> EndsFailed(trace))
      ensures ran ==> swept == Some(old(clock))
      ensures ran && !failed ==>
        forall n :: n in claims && Expired(claims[n].mark, old(clock), Keep(days)) ==> claims[n].deleting
    {
      if swept.Some? && clock - swept.value < SWEEP_EVERY { return false, false; }
      if listFails {
        Took(BeginSweep(listed, days, true));
        return false, true;
      }
      var items, keep := Items(listed, claims), Keep(days);
      swept := Some(clock);
      Took(BeginSweep(listed, days, false));
      ran := true;
      ghost var begun := trace;
      failed := SweepItems(items, keep);
      WholeOn(old(trace), BeginSweep(listed, days, false), begun, trace);
      if !failed { SweptAll(listed, old(claims), claims, old(clock), keep); }
    }

    method SweepItems(items: seq<Item>, keep: int) returns (failed: bool)
      requires Follows() && model.doing == Sweeping(items, 0, keep)
      modifies this
      ensures Valid() && Moved(old(trace), trace) && swept == old(swept) && (failed <==> EndsFailed(trace))
      ensures forall n :: n in claims ==> n in old(claims) && claims[n].mark == old(claims[n].mark)
      ensures !failed ==>
          forall i :: 0 <= i < |items| && items[i].name in claims && Expired(items[i].mark, old(clock), keep) ==>
        claims[items[i].name].deleting
    {
      var at := 0;
      while at < |items|
        invariant 0 <= at <= |items| && Follows() && Moved(old(trace), trace) && swept == old(swept)
        invariant model.doing == Sweeping(items, at, keep) && model.clock >= old(clock)
        invariant forall n :: n in claims ==> n in old(claims) && claims[n].mark == old(claims[n].mark)
        invariant forall i :: 0 <= i < at && items[i].name in claims && Expired(items[i].mark, old(clock), keep) ==>
                    claims[items[i].name].deleting
      {
        failed := SweepItem(items, at, keep);
        if failed { return; }
        at := at + 1;
      }
      Took(Go(Outcome(false, true, OtherPhase, false, false)));
      failed := false;
    }
  }

  lemma FewerTransitive(a: System, b: System, c: System)
    requires OnlyFewer(a, b) && OnlyFewer(b, c)
    ensures OnlyFewer(a, c)
  {
  }
}
