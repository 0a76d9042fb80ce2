/** What the pending flag of a pass means: it is set exactly when some unit is still on its way. */
module HostPending {
  import opened Options
  import opened HostPass
  import opened HostSafety
  import opened HostConvergence

  /** A running Workspace that a later pass must look at again soon: its unit is being made, goes
      away or was lost, or starts without being registered at its address. */
  predicate RunWaits(c: Cell, address: string) {
    match c.unit
    case Absent => c.reg.None?
    case Starting => !At(c, address)
    case Started => false
    case _ => true
  }

  predicate VisitWaits(c: Cell, w: Workspace, address: string) {
    (w.desired == "running" && RunWaits(c, address)) || (w.desired == "released" && !c.unit.Absent?)
  }

  lemma VisitPending(ans: Answers, url: Addresses, log: Log, w: Workspace, world: World)
    requires w.instance == RegOf(world, w.name)
    requires var v := Visit(ans, url, log, w); Fits(world, v.log, |log|, |v.log|)
    ensures Visit(ans, url, log, w).pending <==> VisitWaits(CellOf(world, w.name), w, url(w.name, w.port))
  {
    var v, k := Visit(ans, url, log, w), |log|;
    if w.desired == "running" || w.desired == "released" {
      FirstCall(ans, url, log, w);
      assert |v.log| > k && After(world, v.log, k, k) == world;
      FitsSplits(world, v.log, k, k + 1, |v.log|);
      assert Fits(world, v.log, k, k + 1) && AnswerFits(world, v.log[k]);
    }
  }

  /** One of the first `n` listed Workspaces is waited for. */
  ghost predicate SomeWait(world: World, ws: seq<Workspace>, n: nat, url: Addresses)
    requires n <= |ws|
  {
    exists i :: 0 <= i < n && VisitWaits(CellOf(world, ws[i].name), ws[i], url(ws[i].name, ws[i].port))
  }

  lemma {:induction false} WalkPending(ans: Answers, url: Addresses, log: Log, ws: seq<Workspace>, n: nat, world: World)
    requires n <= |ws| && Distinct(ws) && Reflects(ws, world)
    requires var p := Walk(ans, url, log, ws, n); |log| <= |p.log| && Fits(world, p.log, |log|, |p.log|)
    ensures Walk(ans, url, log, ws, n).pending <==> SomeWait(world, ws, n, url)
  {
    if n > 0 {
      WalkFits(ans, url, log, ws, n - 1, world);
      WalkPending(ans, url, log, ws, n - 1, world);
      WalkMoves(ans, url, log, ws, n - 1, world);
      OneMoreWait(ans, url, log, ws, n - 1, world);
    }
  }

  lemma OneMoreWait(ans: Answers, url: Addresses, log: Log, ws: seq<Workspace>, n: nat, world: World)
    requires n < |ws| && Distinct(ws) && Reflects(ws, world)
    requires var q, p := Walk(ans, url, log, ws, n), Walk(ans, url, log, ws, n + 1);
      && q.faults == [] && !q.stopped && |log| <= |q.log| <= |p.log|
      && Walked(world, After(world, q.log, |log|, |q.log|), ws, n, url)
      && Fits(After(world, q.log, |log|, |q.log|), p.log, |q.log|, |p.log|)
      && (q.pending <==> SomeWait(world, ws, n, url))
    ensures Walk(ans, url, log, ws, n + 1).pending <==> SomeWait(world, ws, n + 1, url)
  {
    var q, p := Walk(ans, url, log, ws, n), Walk(ans, url, log, ws, n + 1);
    VisitNextPending(ans, url, q, p, ws, n, world, After(world, q.log, |log|, |q.log|));
  }

  lemma VisitNextPending(ans: Answers, url: Addresses, q: Progress, p: Progress, ws: seq<Workspace>, n: nat,
                         world: World, before: World)
    requires n < |ws| && Distinct(ws) && ws[n].instance == RegOf(world, ws[n].name)
    requires !q.stopped && q.faults == [] && p == Note(q, Visit(ans, url, q.log, ws[n]))
    requires Walked(world, before, ws, n, url) && (q.pending <==> SomeWait(world, ws, n, url))
    requires |q.log| <= |p.log| && Fits(before, p.log, |q.log|, |p.log|)
    ensures p.pending <==> SomeWait(world, ws, n + 1, url)
  {
    NotYetListed(ws, n);
    assert CellOf(before, ws[n].name) == CellOf(world, ws[n].name);
    VisitMoves(ans, url, q.log, ws[n], before);
    VisitPending(ans, url, q.log, ws[n], before);
    var waits := VisitWaits(CellOf(world, ws[n].name), ws[n], url(ws[n].name, ws[n].port));
    assert SomeWait(world, ws, n + 1, url) <==> SomeWait(world, ws, n, url) || waits;
  }

  /** One of the first `n` owned units is unlisted and not gone yet. */
  ghost predicate SomeLeft(world: World, listed: set<string>, owned: seq<string>, n: nat)
    requires n <= |owned|
  {
    exists i :: 0 <= i < n && owned[i] !in listed && !UnitOf(world, owned[i]).Absent?
  }

  lemma {:induction false} ClearPending(ans: Answers, start: Progress, listed: set<string>, owned: seq<string>,
                                        n: nat, world: World)
    requires n <= |owned| && !start.stopped && start.faults == []
    requires var p := Clear(ans, start, listed, owned, n);
      |start.log| <= |p.log| && Fits(world, p.log, |start.log|, |p.log|)
    ensures Clear(ans, start, listed, owned, n).pending <==> start.pending || SomeLeft(world, listed, owned, n)
  {
    if n > 0 {
      ClearFits(ans, start, listed, owned, n - 1, world);
      ClearPending(ans, start, listed, owned, n - 1, world);
      OneMorePending(ans, start, listed, owned, n - 1, world);
    }
  }

  lemma OneMorePending(ans: Answers, start: Progress, listed: set<string>, owned: seq<string>, n: nat, world: World)
    requires n < |owned| && !start.stopped && start.faults == []
    requires var q, p := Clear(ans, start, listed, owned, n), Clear(ans, start, listed, owned, n + 1);
      && |start.log| <= |q.log| <= |p.log| && Fits(world, q.log, |start.log|, |q.log|)
      && Fits(After(world, q.log, |start.log|, |q.log|), p.log, |q.log|, |p.log|)
      && (q.pending <==> start.pending || SomeLeft(world, listed, owned, n))
    ensures Clear(ans, start, listed, owned, n + 1).pending <==> start.pending || SomeLeft(world, listed, owned, n + 1)
  {
    var q, p := Clear(ans, start, listed, owned, n), Clear(ans, start, listed, owned, n + 1);
    ClearMoves(ans, start, listed, owned, n, world);
    if owned[n] in listed {
      LeftOneMore(world, listed, owned, n);
    } else {
      ClearNextPending(ans, q, p, start.pending, listed, owned, n, world, After(world, q.log, |start.log|, |q.log|));
    }
  }

  lemma ClearNextPending(ans: Answers, q: Progress, p: Progress, earlier: bool, listed: set<string>,
                         owned: seq<string>, n: nat,
                         world: World, before: World)
    requires n < |owned| && owned[n] !in listed && Cleared(world, before, listed, owned, n)
    requires var a := ans(|q.log|);
      p == Note(q, Visited(Ask(ans, q.log, Remove(owned[n])), a.fault.None? && a.remaining, a.fault))
    requires q.pending <==> earlier || SomeLeft(world, listed, owned, n)
    requires |q.log| <= |p.log| && Fits(before, p.log, |q.log|, |p.log|)
    ensures p.pending <==> earlier || SomeLeft(world, listed, owned, n + 1)
  {
    ClearedKeepsAbsence(world, before, listed, owned, n);
    LeftOneMore(world, listed, owned, n);
    assert After(before, p.log, |q.log|, |q.log|) == before;
    assert AnswerFits(before, p.log[|q.log|]);
  }

  lemma ClearedKeepsAbsence(world: World, before: World, listed: set<string>, owned: seq<string>, n: nat)
    requires n < |owned| && Cleared(world, before, listed, owned, n)
    ensures UnitOf(before, owned[n]).Absent? <==> UnitOf(world, owned[n]).Absent?
  {
    var m := owned[n];
    assert CellOf(before, m)
        == if m !in listed && m in owned[..n] then RemoveCell(CellOf(world, m)) else CellOf(world, m);
  }

  lemma LeftOneMore(world: World, listed: set<string>, owned: seq<string>, n: nat)
    requires n < |owned|
    ensures SomeLeft(world, listed, owned, n + 1) <==>
      SomeLeft(world, listed, owned, n) || (owned[n] !in listed && !UnitOf(world, owned[n]).Absent?)
  {
  }

  /** An error-free pass reports pending exactly when a running Workspace is not settled, or a unit
      that must not exist is not gone yet; otherwise the loop may poll slowly. */
  lemma PendingMeansOnItsWay(ans: Answers, url: Addresses, ws: seq<Workspace>, world: World)
    requires Distinct(ws) && Reflects(ws, world)
    requires var log := Pass(ans, url, [], ws).log; Fits(world, log, 0, |log|)
    ensures Pass(ans, url, [], ws).pending <==>
      SomeWait(world, ws, |ws|, url) || exists n :: n !in Names(ws) && !UnitOf(world, n).Absent?
  {
    var p, loaded := Pass(ans, url, [], ws), Ask(ans, [], Load);
    PassStartsWithLoad(ans, url, ws);
    assert p.log[0] == loaded[0];
    FitsSplits(world, p.log, 0, 1, |p.log|);
    assert Fits(world, p.log, 0, 0) && After(world, p.log, 0, 0) == world && After(world, p.log, 0, 1) == world;
    assert ans(0).fault.None?;
    var walked := Walk(ans, url, loaded, ws, |ws|);
    WalkGrows(ans, url, loaded, ws, |ws|);
    AfterWalkExtends(ans, walked, ws);
    FitsSplits(world, p.log, 1, |walked.log|, |p.log|);
    PrefixDecides(world, walked.log, p.log, 1, |walked.log|);
    WalkMoves(ans, url, loaded, ws, |ws|, world);
    WalkPending(ans, url, loaded, ws, |ws|, world);
    var after := After(world, walked.log, 1, |walked.log|);
    AfterWalkPending(ans, walked, ws, after);
    forall n | n !in Names(ws) ensures UnitOf(after, n) == UnitOf(world, n) {
      assert CellOf(after, n) == WalkCell(CellOf(world, n), ws, |ws|, n, url);
      ListedIsNamed(ws, n);
    }
  }

  lemma AfterWalkPending(ans: Answers, walked: Progress, ws: seq<Workspace>, world: World)
    requires !walked.stopped && walked.faults == []
    requires var log := AfterWalk(ans, walked, ws).log; |walked.log| <= |log| && Fits(world, log, |walked.log|, |log|)
    ensures AfterWalk(ans, walked, ws).pending <==>
      walked.pending || exists n :: n !in Names(ws) && !UnitOf(world, n).Absent?
  {
    var p, k := AfterWalk(ans, walked, ws), |walked.log|;
    var asked, o := Ask(ans, walked.log, Owned), ans(k);
    if o.fault.None? { ClearExtends(ans, walked.(log := asked), Names(ws), o.owned, |o.owned|); }
    assert p.log[k] == asked[k];
    FitsSplits(world, p.log, k, k + 1, |p.log|);
    assert After(world, p.log, k, k) == world && After(world, p.log, k, k + 1) == world;
    assert AnswerFits(world, p.log[k]);
    var start := walked.(log := asked);
    var cleared := Clear(ans, start, Names(ws), o.owned, |o.owned|);
    FitsSplits(world, p.log, k + 1, |cleared.log|, |p.log|);
    PrefixDecides(world, cleared.log, p.log, k + 1, |cleared.log|);
    ClearPending(ans, start, Names(ws), o.owned, |o.owned|, world);
    assert SomeLeft(world, Names(ws), o.owned, |o.owned|)
         <==> exists n :: n !in Names(ws) && !UnitOf(world, n).Absent? by {
      forall n | n !in Names(ws) && !UnitOf(world, n).Absent? ensures SomeLeft(world, Names(ws), o.owned, |o.owned|) {
        assert n in o.owned;
      }
    }
  }
}
