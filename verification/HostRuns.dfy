/** Rounds exist: from every world the environment can progress and an error-free pass can follow, so
    there are runs of every length. */
module HostRuns {
  import opened Options
  import opened HostPass
  import opened HostSafety
  import opened HostConvergence
  import opened HostRounds

  // ------------------------------------------------------------ what a world answers

  /** The error-free answer of a world in which at most the given names have units. */
  function Reply(world: World, names: seq<string>, c: Call): (a: Answer)
    requires forall n :: !UnitOf(world, n).Absent? ==> n in names
    ensures AnswerFits(world, Entry(c, a))
  {
    Answer(None,
           if c.State? then UnitOf(world, c.name) else Absent,
           c.Remove? && !UnitOf(world, c.name).Absent?,
           if c.Register? && RegOf(world, c.name).Some? && RegOf(world, c.name).value.baseURL != c.url
           then AlreadyRegistered else Registered,
           names, Listing("", "", false, []))
  }

  /** The given answers, with another one at `k`. */
  function With(ans: Answers, k: nat, a: Answer): Answers {
    (j: nat) => if j == k then a else ans(j)
  }

  /** Alike up to the end of a log. */
  ghost predicate AlikeUpTo(ans: Answers, ans': Answers, n: nat) {
    forall j: nat :: j < n ==> ans'(j) == ans(j)
  }

  // ------------------------------------------------------------ later answers do not matter

  lemma {:induction false} WalkSame(ans: Answers, ans': Answers, url: Addresses, log: Log, ws: seq<Workspace>, n: nat)
    requires n <= |ws| && AlikeUpTo(ans, ans', |Walk(ans, url, log, ws, n).log|)
    ensures Walk(ans', url, log, ws, n) == Walk(ans, url, log, ws, n)
  {
    if n > 0 {
      WalkLonger(ans, url, log, ws, n - 1);
      WalkSame(ans, ans', url, log, ws, n - 1);
      OneMoreSame(ans, ans', url, log, ws, n - 1);
    }
  }

  lemma WalkLonger(ans: Answers, url: Addresses, log: Log, ws: seq<Workspace>, n: nat)
    requires n < |ws|
    ensures |Walk(ans, url, log, ws, n).log| <= |Walk(ans, url, log, ws, n + 1).log|
  {
    WalkGrows(ans, url, log, ws, n + 1);
  }

  lemma OneMoreSame(ans: Answers, ans': Answers, url: Addresses, log: Log, ws: seq<Workspace>, n: nat)
    requires n < |ws| && AlikeUpTo(ans, ans', |Walk(ans, url, log, ws, n + 1).log|)
    requires Walk(ans', url, log, ws, n) == Walk(ans, url, log, ws, n)
    ensures Walk(ans', url, log, ws, n + 1) == Walk(ans, url, log, ws, n + 1)
  {
    var p := Walk(ans, url, log, ws, n);
    if !p.stopped { VisitSame(ans, ans', url, p.log, ws[n]); }
  }

  lemma VisitSame(ans: Answers, ans': Answers, url: Addresses, log: Log, w: Workspace)
    requires AlikeUpTo(ans, ans', |Visit(ans, url, log, w).log|)
    ensures Visit(ans', url, log, w) == Visit(ans, url, log, w)
  {
    if w.desired == "running" { EnsureRunningSame(ans, ans', url, log, w); }
  }

  lemma EnsureRunningSame(ans: Answers, ans': Answers, url: Addresses, log: Log, w: Workspace)
    requires AlikeUpTo(ans, ans', |EnsureRunning(ans, url, log, w).log|)
    ensures EnsureRunning(ans', url, log, w) == EnsureRunning(ans, url, log, w)
  {
    assert ans'(|log|) == ans(|log|);
  }

  lemma {:induction false} ClearSame(ans: Answers, ans': Answers, start: Progress, listed: set<string>,
                                     owned: seq<string>,
                                     n: nat)
    requires n <= |owned| && AlikeUpTo(ans, ans', |Clear(ans, start, listed, owned, n).log|)
    ensures Clear(ans', start, listed, owned, n) == Clear(ans, start, listed, owned, n)
  {
    if n > 0 {
      ClearExtends(ans, start, listed, owned, n);
      ClearSame(ans, ans', start, listed, owned, n - 1);
    }
  }

  // ------------------------------------------------------------ one Workspace after another

  /** At most the given names have units. */
  ghost predicate Named(world: World, names: seq<string>) {
    forall n :: !UnitOf(world, n).Absent? ==> n in names
  }

  /** The log was answered as the world answers, from entry `from` on. */
  ghost predicate Served(world: World, names: seq<string>, log: Log, from: nat) {
    from <= |log| && Fits(world, log, from, |log|) && Named(After(world, log, from, |log|), names)
  }

  lemma NothingServed(world: World, names: seq<string>, log: Log)
    requires Named(world, names)
    ensures Served(world, names, log, |log|) && After(world, log, |log|, |log|) == world
  {
  }

  predicate Creates(c: Call, names: seq<string>) {
    c.Create? ==> c.workspace.name in names
  }

  /** One more call, answered as the world answers. */
  lemma OneServed(world: World, names: seq<string>, log: Log, from: nat, e: Entry)
    requires Served(world, names, log, from) && Creates(e.call, names)
    requires AnswerFits(After(world, log, from, |log|), e)
    ensures Served(world, names, log + [e], from)
    ensures After(world, log + [e], from, |log| + 1) == Effect(After(world, log, from, |log|), e.call)
  {
    PrefixDecides(world, log, log + [e], from, |log|);
    EffectNamed(After(world, log, from, |log|), names, e.call);
  }

  lemma EffectNamed(world: World, names: seq<string>, c: Call)
    requires Named(world, names) && Creates(c, names)
    ensures Named(Effect(world, c), names)
  {
    forall n | !UnitOf(Effect(world, c), n).Absent? ensures n in names {
      assert !UnitOf(world, n).Absent? || (c.Create? && c.workspace.name == n);
    }
  }

  /** Two parts of a log, served one after the other. */
  lemma ServedOn(world: World, names: seq<string>, log: Log, more: Log, from: nat)
    requires Served(world, names, log, from) && log <= more
    requires Served(After(world, log, from, |log|), names, more, |log|)
    ensures Served(world, names, more, from)
  {
    PrefixDecides(world, log, more, from, |log|);
    FitsSplits(world, more, from, |log|, |more|);
  }

  lemma RunServed(start: Answers, url: Addresses, names: seq<string>, log: Log, w: Workspace, world: World)
    returns (ans: Answers)
    requires Named(world, names) && w.name in names
    ensures AlikeUpTo(start, ans, |log|)
    ensures var v := EnsureRunning(ans, url, log, w); log <= v.log && Served(world, names, v.log, |log|)
  {
    var k := |log|;
    var first := Reply(world, names, State(w.name));
    ans := With(start, k, first);
    var seen := log + [Entry(State(w.name), first)];
    NothingServed(world, names, log);
    OneServed(world, names, log, k, Entry(State(w.name), first));
    match UnitOf(world, w.name) {
      case Absent =>
        if w.instance.None? {
          var loaded, made := Reply(world, names, Load), Reply(world, names, Create(w));
          ans := With(With(ans, k + 1, loaded), k + 2, made);
          OneServed(world, names, seen, k, Entry(Load, loaded));
          OneServed(world, names, seen + [Entry(Load, loaded)], k, Entry(Create(w), made));
        }
      case Terminating =>
      case Lost =>
        var call := if w.instance.None? then Remove(w.name) else Delete(w.name, w.instance.value.instanceId);
        var answer := Reply(world, names, call);
        ans := With(ans, k + 1, answer);
        OneServed(world, names, seen, k, Entry(call, answer));
      case _ =>
        var call := Register(w.name, url(w.name, w.port));
        var answer := Reply(world, names, call);
        ans := With(ans, k + 1, answer);
        OneServed(world, names, seen, k, Entry(call, answer));
    }
  }

  lemma RetireServed(start: Answers, names: seq<string>, log: Log, w: Workspace, world: World) returns (ans: Answers)
    requires Named(world, names)
    ensures AlikeUpTo(start, ans, |log|)
    ensures var v := Retire(ans, log, w); log <= v.log && Served(world, names, v.log, |log|)
  {
    var k := |log|;
    var first := Reply(world, names, Remove(w.name));
    var asked := log + [Entry(Remove(w.name), first)];
    NothingServed(world, names, log);
    OneServed(world, names, log, k, Entry(Remove(w.name), first));
    var mid, call := After(world, asked, k, k + 1), Delete(w.name, ListedId(w));
    var second := Reply(mid, names, call);
    OneServed(world, names, asked, k, Entry(call, second));
    ans := With(With(start, k, first), k + 1, second);
  }

  lemma VisitServed(start: Answers, url: Addresses, names: seq<string>, log: Log, w: Workspace, world: World)
    returns (ans: Answers)
    requires Named(world, names) && w.name in names
    ensures AlikeUpTo(start, ans, |log|)
    ensures var v := Visit(ans, url, log, w); log <= v.log && Served(world, names, v.log, |log|)
  {
    if w.desired == "running" {
      ans := RunServed(start, url, names, log, w, world);
    } else if w.desired == "released" {
      ans := RetireServed(start, names, log, w, world);
    } else {
      ans := start;
      NothingServed(world, names, log);
    }
  }

  lemma {:induction false} WalkServed(start: Answers, url: Addresses, names: seq<string>, log: Log, ws: seq<Workspace>,
                                      n: nat, world: World) returns (ans: Answers)
    requires n <= |ws| && Named(world, names) && forall i :: 0 <= i < |ws| ==> ws[i].name in names
    ensures AlikeUpTo(start, ans, |log|)
    ensures var p := Walk(ans, url, log, ws, n); log <= p.log && Served(world, names, p.log, |log|)
  {
    if n == 0 {
      ans := start;
      NothingServed(world, names, log);
    } else {
      var earlier := WalkServed(start, url, names, log, ws, n - 1, world);
      var q := Walk(earlier, url, log, ws, n - 1);
      if q.stopped {
        ans := earlier;
      } else {
        var mid := After(world, q.log, |log|, |q.log|);
        ans := VisitServed(earlier, url, names, q.log, ws[n - 1], mid);
        WalkSame(earlier, ans, url, log, ws, n - 1);
        ServedOn(world, names, q.log, Visit(ans, url, q.log, ws[n - 1]).log, |log|);
      }
    }
  }

  lemma {:induction false} ClearServed(start: Answers, names: seq<string>, p: Progress, listed: set<string>,
                                       owned: seq<string>,
                                       n: nat, world: World) returns (ans: Answers)
    requires n <= |owned| && Named(world, names)
    ensures AlikeUpTo(start, ans, |p.log|)
    ensures var c := Clear(ans, p, listed, owned, n); p.log <= c.log && Served(world, names, c.log, |p.log|)
  {
    if n == 0 {
      ans := start;
      NothingServed(world, names, p.log);
    } else {
      var earlier := ClearServed(start, names, p, listed, owned, n - 1, world);
      var q := Clear(earlier, p, listed, owned, n - 1);
      if q.stopped || owned[n - 1] in listed {
        ans := earlier;
      } else {
        var call := Remove(owned[n - 1]);
        var answer := Reply(After(world, q.log, |p.log|, |q.log|), names, call);
        ans := With(earlier, |q.log|, answer);
        ClearSame(earlier, ans, p, listed, owned, n - 1);
        OneServed(world, names, q.log, |p.log|, Entry(call, answer));
      }
    }
  }

  // ------------------------------------------------------------ a whole pass

  /** Clearing what is owned, and the sweep after it. */
  lemma SweepServed(start: Answers, names: seq<string>, p: Progress, listed: set<string>, world: World)
    returns (ans: Answers)
    requires Named(world, names)
    ensures AlikeUpTo(start, ans, |p.log|)
    ensures var c := Clear(ans, p, listed, names, |names|);
      && p.log <= c.log && Served(world, names, c.log, |p.log|)
      && Served(world, names, Ask(ans, c.log, Sweep), |p.log|)
  {
    var later := ClearServed(start, names, p, listed, names, |names|, world);
    var c := Clear(later, p, listed, names, |names|);
    var swept := Reply(After(world, c.log, |p.log|, |c.log|), names, Sweep);
    ans := With(later, |c.log|, swept);
    ClearSame(later, ans, p, listed, names, |names|);
    OneServed(world, names, c.log, |p.log|, Entry(Sweep, swept));
  }

  lemma AfterWalkServed(start: Answers, names: seq<string>, walked: Progress, ws: seq<Workspace>, world: World)
    returns (ans: Answers)
    requires Named(world, names)
    ensures AlikeUpTo(start, ans, |walked.log|)
    ensures var p := AfterWalk(ans, walked, ws); walked.log <= p.log && Served(world, names, p.log, |walked.log|)
  {
    var k := |walked.log|;
    NothingServed(world, names, walked.log);
    if walked.stopped {
      ans := start;
    } else {
      var owned := Reply(world, names, Owned);
      var asked := walked.log + [Entry(Owned, owned)];
      OneServed(world, names, walked.log, k, Entry(Owned, owned));
      ans := SweepServed(With(start, k, owned), names, walked.(log := asked), Names(ws), world);
      assert ans(k) == owned;
      var c := Clear(ans, walked.(log := asked), Names(ws), names, |names|);
      ServedOn(world, names, asked, if c.faults == [] then Ask(ans, c.log, Sweep) else c.log, k);
    }
  }

  lemma PassServed(url: Addresses, names: seq<string>, ws: seq<Workspace>, world: World) returns (ans: Answers)
    requires Named(world, names) && forall i :: 0 <= i < |ws| ==> ws[i].name in names
    ensures var log := Pass(ans, url, [], ws).log; Fits(world, log, 0, |log|)
  {
    var loaded := Reply(world, names, Load);
    var log := [Entry(Load, loaded)];
    NothingServed(world, names, []);
    OneServed(world, names, [], 0, log[0]);
    assert [] + log == log;
    var before := WalkServed((j: nat) => loaded, url, names, log, ws, |ws|, world);
    var walked := Walk(before, url, log, ws, |ws|);
    ServedOn(world, names, log, walked.log, 0);
    ans := AfterWalkServed(before, names, walked, ws, After(world, walked.log, 0, |walked.log|));
    WalkSame(before, ans, url, log, ws, |ws|);
    ServedOn(world, names, walked.log, AfterWalk(ans, walked, ws).log, 0);
    assert ans(0) == loaded && Ask(ans, [], Load) == log;
  }

  // ------------------------------------------------------------ the environment

  /** One name further, if any can advance. */
  lemma SomeProgress(world: World) returns (mid: World)
    ensures Progresses(world, mid)
    ensures forall n :: !UnitOf(mid, n).Absent? ==> !UnitOf(world, n).Absent?
  {
    mid := world;
    if n :| Enabled(CellOf(world, n)) {
      var c := CellOf(world, n);
      if c.unit.Terminating? { mid := world.(units := world.units - {n}); }
      else if c.unit.Starting? { mid := world.(units := world.units[n := Started]); }
      else { mid := world.(regs := world.regs - {n}); }
      assert Advances(c, CellOf(mid, n));
    }
  }

  lemma {:induction false} InSomeOrder(s: set<string>) returns (names: seq<string>)
    ensures forall n :: n in s ==> n in names
  {
    names := [];
    if n :| n in s {
      var rest := InSomeOrder(s - {n});
      names := rest + [n];
    }
  }

  // ------------------------------------------------------------ the main results

  /** From every world the environment can progress, and an error-free pass can follow. */
  lemma RoundExists(want: seq<Workspace>, url: Addresses, world: World)
    ensures exists mid, ans, world' :: Round(want, url, world, mid, ans, world')
  {
    var mid := SomeProgress(world);
    var names := InSomeOrder(mid.units.Keys + Names(want));
    var shown := Shown(want, mid);
    forall i | 0 <= i < |shown| ensures shown[i].name in names { assert want[i].name in Names(want); }
    var ans := PassServed(url, names, shown, mid);
    var log := Pass(ans, url, [], shown).log;
    assert Round(want, url, world, mid, ans, After(mid, log, 0, |log|));
  }

  /** So there are runs of every length, and by the result about all runs each that is long enough
      ends where every running Workspace is started and registered. */
  lemma {:induction false} RunExists(want: seq<Workspace>, url: Addresses, world: World, n: nat)
    returns (worlds: seq<World>, mids: seq<World>, anss: seq<Answers>)
    ensures |mids| == n && IsRun(want, url, worlds, mids, anss) && worlds[0] == world
  {
    if n == 0 {
      worlds, mids, anss := [world], [], [];
    } else {
      var ws, ms, as_ := RunExists(want, url, world, n - 1);
      RoundExists(want, url, ws[n - 1]);
      var mid, ans, world' :| Round(want, url, ws[n - 1], mid, ans, world');
      worlds, mids, anss := ws + [world'], ms + [mid], as_ + [ans];
    }
  }
}
