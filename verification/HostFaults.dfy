/** A pass reports every fault that it met, in order, and nothing else. */
module HostFaults {
  import opened Options
  import opened HostPass

  /** The fault that one call shows. A registration may be refused without one, and what the sweep of detached
      volumes meets is only logged. */
  function FaultOf(e: Entry): Option<Fault> {
    if e.call.Sweep? then None
    else if e.answer.fault.Some? then e.answer.fault
    else if e.call.Register? && e.answer.outcome.NotDesired? then Some(NoLongerDesired)
    else None
  }

  /** The faults from one call on, in order. */
  function FaultsIn(log: Log, from: nat): seq<Fault> {
    if |log| <= from then []
    else
      var before, f := FaultsIn(log[..|log| - 1], from), FaultOf(log[|log| - 1]);
      if f.Some? then before + [f.value] else before
  }

  lemma OneMoreCall(log: Log, from: nat, e: Entry)
    requires from <= |log|
    ensures FaultsIn(log + [e], from) ==
      if FaultOf(e).Some? then FaultsIn(log, from) + [FaultOf(e).value] else FaultsIn(log, from)
  {
    assert (log + [e])[..|log|] == log;
  }

  /** A log that went on, by calls with at most this fault. */
  ghost predicate Adds(log: Log, log': Log, from: nat, fault: Option<Fault>) {
    && log <= log'
    && FaultsIn(log', from) == if fault.Some? then FaultsIn(log, from) + [fault.value] else FaultsIn(log, from)
  }

  lemma AskAdds(ans: Answers, log: Log, from: nat, call: Call)
    requires from <= |log|
    ensures Adds(log, Ask(ans, log, call), from, FaultOf(Entry(call, ans(|log|))))
  {
    OneMoreCall(log, from, Entry(call, ans(|log|)));
  }

  lemma MakeUnitAdds(ans: Answers, log: Log, from: nat, w: Workspace)
    requires from <= |log|
    ensures Adds(log, MakeUnit(ans, log, w).log, from, MakeUnit(ans, log, w).fault)
  {
    AskAdds(ans, log, from, Load);
    AskAdds(ans, Ask(ans, log, Load), from, Create(w));
  }

  lemma EnsureRunningAdds(ans: Answers, url: Addresses, log: Log, from: nat, w: Workspace)
    requires from <= |log|
    ensures Adds(log, EnsureRunning(ans, url, log, w).log, from, EnsureRunning(ans, url, log, w).fault)
  {
    var seen, a := Ask(ans, log, State(w.name)), ans(|log|);
    AskAdds(ans, log, from, State(w.name));
    if a.fault.None? {
      match a.state {
        case Absent => MakeUnitAdds(ans, seen, from, w);
        case Terminating =>
        case Lost =>
          if w.instance.None? { AskAdds(ans, seen, from, Remove(w.name)); }
          else { AskAdds(ans, seen, from, Delete(w.name, w.instance.value.instanceId)); }
        case _ => AskAdds(ans, seen, from, Register(w.name, url(w.name, w.port)));
      }
    }
  }

  lemma VisitAdds(ans: Answers, url: Addresses, log: Log, from: nat, w: Workspace)
    requires from <= |log|
    ensures Adds(log, Visit(ans, url, log, w).log, from, Visit(ans, url, log, w).fault)
  {
    EnsureRunningAdds(ans, url, log, from, w);
    AskAdds(ans, log, from, Remove(w.name));
    AskAdds(ans, Ask(ans, log, Remove(w.name)), from, Delete(w.name, ListedId(w)));
  }

  /** What was noted is what was met, and an outage made the pass pending and ended it. */
  ghost predicate Noted(p: Progress, from: nat) {
    && from < |p.log| && p.faults == FaultsIn(p.log, from)
    && (p.stopped <==> GatewayUnavailable in p.faults) && (p.stopped ==> p.pending)
  }

  lemma NoteNotes(p: Progress, v: Visited, from: nat)
    requires Noted(p, from) && !p.stopped && Adds(p.log, v.log, from, v.fault)
    ensures Noted(Note(p, v), from)
  {
  }

  lemma {:induction false} WalkNotes(ans: Answers, url: Addresses, log: Log, from: nat, ws: seq<Workspace>, n: nat)
    requires from < |log| && n <= |ws| && FaultsIn(log, from) == []
    ensures Noted(Walk(ans, url, log, ws, n), from)
  {
    if n > 0 {
      var p := Walk(ans, url, log, ws, n - 1);
      WalkNotes(ans, url, log, from, ws, n - 1);
      if !p.stopped {
        VisitAdds(ans, url, p.log, from, ws[n - 1]);
        NoteNotes(p, Visit(ans, url, p.log, ws[n - 1]), from);
      }
    }
  }

  lemma {:induction false} ClearNotes(ans: Answers, start: Progress, from: nat, listed: set<string>,
                                      owned: seq<string>, n: nat)
    requires Noted(start, from) && n <= |owned|
    ensures Noted(Clear(ans, start, listed, owned, n), from)
  {
    if n > 0 {
      var p := Clear(ans, start, listed, owned, n - 1);
      ClearNotes(ans, start, from, listed, owned, n - 1);
      if !p.stopped && owned[n - 1] !in listed {
        var a := ans(|p.log|);
        AskAdds(ans, p.log, from, Remove(owned[n - 1]));
        NoteNotes(p, Visited(Ask(ans, p.log, Remove(owned[n - 1])), a.fault.None? && a.remaining, a.fault), from);
      }
    }
  }

  /** The calls after which an outage is met while units are looked after. */
  predicate OfAUnit(call: Call) {
    !call.Load? && !call.Owned? && !call.Sweep?
  }

  lemma AfterWalkNotes(ans: Answers, walked: Progress, from: nat, ws: seq<Workspace>)
    requires Noted(walked, from)
    ensures var p := AfterWalk(ans, walked, ws);
      from < |p.log| && p.faults == FaultsIn(p.log, from)
      && (GatewayUnavailable in p.faults && OfAUnit(p.log[|p.log| - 1].call) ==> p.pending)
  {
    if !walked.stopped {
      var asked, o := Ask(ans, walked.log, Owned), ans(|walked.log|);
      AskAdds(ans, walked.log, from, Owned);
      if o.fault.None? {
        ClearNotes(ans, walked.(log := asked), from, Names(ws), o.owned, |o.owned|);
        var cleared := Clear(ans, walked.(log := asked), Names(ws), o.owned, |o.owned|);
        AskAdds(ans, cleared.log, from, Sweep);
      }
    }
  }

  /** For every listing and every answer pattern: a pass fails exactly with the faults its calls met, in their
      order; an outage met at a unit makes it pending. */
  lemma EveryFaultIsReported(ans: Answers, url: Addresses, log: Log, ws: seq<Workspace>)
    ensures var p := Pass(ans, url, log, ws);
      |log| < |p.log| && p.faults == FaultsIn(p.log, |log|)
      && (GatewayUnavailable in p.faults && OfAUnit(p.log[|p.log| - 1].call) ==> p.pending)
  {
    var loaded := Ask(ans, log, Load);
    AskAdds(ans, log, |log|, Load);
    if ans(|log|).fault.None? {
      WalkNotes(ans, url, loaded, |log|, ws, |ws|);
      AfterWalkNotes(ans, Walk(ans, url, loaded, ws, |ws|), |log|, ws);
    }
  }
}
