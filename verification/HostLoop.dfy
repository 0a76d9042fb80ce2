/** The host loop as an object: its methods call the backend and the host API one after another,
    and each is proved to make exactly the calls of its function in HostPass. */
module HostLoop {
  import opened Options
  import M = HostPass
  import opened HostPass

  /** The backend and the control unit together: whatever is called, the next answer comes back. */
  class Surroundings {
    const answers: Answers
    var log: Log

    constructor (answers: Answers)
      ensures this.answers == answers && log == []
    {
      this.answers := answers;
      log := [];
    }

    method Call(c: Call) returns (a: Answer)
      modifies this
      ensures log == Ask(answers, old(log), c) && a == answers(|old(log)|)
    {
      a := answers(|log|);
      log := log + [Entry(c, a)];
    }
  }

  lemma {:induction false} WalkStops(ans: Answers, url: Addresses, log: Log, ws: seq<Workspace>, i: nat, n: nat)
    requires i <= n <= |ws| && Walk(ans, url, log, ws, i).stopped
    ensures Walk(ans, url, log, ws, n) == Walk(ans, url, log, ws, i)
  {
    if i < n { WalkStops(ans, url, log, ws, i, n - 1); }
  }

  lemma {:induction false} ClearStops(ans: Answers, start: Progress, listed: set<string>, owned: seq<string>, i: nat,
                                      n: nat)
    requires i <= n <= |owned| && Clear(ans, start, listed, owned, i).stopped
    ensures Clear(ans, start, listed, owned, n) == Clear(ans, start, listed, owned, i)
  {
    if i < n { ClearStops(ans, start, listed, owned, i, n - 1); }
  }

  class Host {
    const world: Surroundings
    const url: Addresses
    var gatewayDown: bool
    var gatewayReported: Option<bool>

    constructor (world: Surroundings, url: Addresses)
      ensures this.world == world && this.url == url && Now() == HostState(false, None)
    {
      this.world, this.url := world, url;
      gatewayDown, gatewayReported := false, None;
    }

    ghost function Now(): HostState
      reads this
    {
      HostState(gatewayDown, gatewayReported)
    }

    method MakeUnit(w: Workspace) returns (pending: bool, fault: Option<Fault>)
      modifies world
      ensures Visited(world.log, pending, fault) == M.MakeUnit(world.answers, old(world.log), w)
    {
      pending := true;
      var a := world.Call(Load);
      if a.fault.Some? { return true, a.fault; }
      a := world.Call(Create(w));
      fault := a.fault;
    }

    method EnsureRunning(w: Workspace) returns (pending: bool, fault: Option<Fault>)
      modifies world
      ensures Visited(world.log, pending, fault) == M.EnsureRunning(world.answers, url, old(world.log), w)
    {
      var a := world.Call(State(w.name));
      if a.fault.Some? { return false, a.fault; }
      match a.state {
        case Absent =>
          if w.instance.Some? { return false, None; }
          pending, fault := MakeUnit(w);
          return;
        case Terminating =>
          return true, None;
        case Lost =>
          if w.instance.None? {
            a := world.Call(Remove(w.name));
            return true, a.fault;
          }
          if w.instance.value.instanceId.Some? && w.instance.value.baseURL == url(w.name, w.port) {
            a := world.Call(Delete(w.name, w.instance.value.instanceId));
            return true, a.fault;
          }
          return true, None;
        case _ =>
      }
      var want := url(w.name, w.port);
      if w.instance.Some? && w.instance.value.baseURL == want { return false, None; }
      if a.state != Started { return true, None; }
      a := world.Call(Register(w.name, want));
      if a.fault.Some? { return false, a.fault; }
      if a.outcome.NotDesired? { return false, Some(NoLongerDesired); }
      return false, None;
    }

    method Retire(w: Workspace) returns (pending: bool, fault: Option<Fault>)
      modifies world
      ensures Visited(world.log, pending, fault) == M.Retire(world.answers, old(world.log), w)
    {
      var a := world.Call(Remove(w.name));
      if a.fault.Some? || a.remaining { return a.remaining, a.fault; }
      var id := None;
      if w.instance.Some? { id := w.instance.value.instanceId; }
      a := world.Call(Delete(w.name, id));
      return false, a.fault;
    }

    method Pass(ws: seq<Workspace>) returns (pending: bool, faults: seq<Fault>)
      modifies world, this
      ensures var p := M.Pass(world.answers, url, old(world.log), ws);
        && pending == p.pending && faults == p.faults
        && (world.log, Now()) == AfterPass(world.answers, old(Now()), p)
    {
      var ran;
      pending, faults, ran := Reconcile(ws);
      if ran {
        gatewayDown := GatewayUnavailable in faults;
        SyncGateway();
      }
    }

    method Reconcile(ws: seq<Workspace>) returns (pending: bool, faults: seq<Fault>, ran: bool)
      modifies world
      ensures Passed(world.log, pending, faults, ran) == M.Pass(world.answers, url, old(world.log), ws)
    {
      var a := world.Call(Load);
      if a.fault.Some? { return false, [a.fault.value], false; }
      var stopped, listed;
      pending, faults, stopped, listed := VisitListed(ws);
      if stopped { return true, faults, true; }
      a := world.Call(Owned);
      if a.fault.Some? { return pending, faults + [a.fault.value], true; }
      pending, faults, stopped := RemoveUnlisted(pending, faults, listed, a.owned);
      if |faults| == 0 { a := world.Call(Sweep); }
      return pending, faults, true;
    }

    /** The first loop: each listed Workspace, until the gateway is found unavailable. */
    method VisitListed(ws: seq<Workspace>)
      returns (pending: bool, faults: seq<Fault>, stopped: bool, listed: set<string>)
      modifies world
      ensures Progress(world.log, pending, faults, stopped) == Walk(world.answers, url, old(world.log), ws, |ws|)
      ensures !stopped ==> listed == Names(ws)
    {
      pending, faults, stopped, listed := false, [], false, {};
      var i := 0;
      while i < |ws|
        invariant 0 <= i <= |ws| && !stopped && listed == Names(ws[..i])
        invariant Progress(world.log, pending, faults, false) == Walk(world.answers, url, old(world.log), ws, i)
      {
        var w := ws[i];
        assert ws[..i + 1] == ws[..i] + [w];
        listed := listed + {w.name};
        var p, e := false, None;
        if w.desired == "running" {
          p, e := EnsureRunning(w);
        } else if w.desired == "released" {
          p, e := Retire(w);
        }
        if e.Some? {
          faults := faults + [e.value];
          if e.value.GatewayUnavailable? {
            pending, stopped := true, true;
            WalkStops(world.answers, url, old(world.log), ws, i + 1, |ws|);
            return;
          }
        } else {
          pending := pending || p;
        }
        i := i + 1;
      }
      assert ws[..|ws|] == ws;
    }

    /** The second loop: each owned unit that no listed Workspace asks for. */
    method RemoveUnlisted(pending0: bool, faults0: seq<Fault>, listed: set<string>, owned: seq<string>)
      returns (pending: bool, faults: seq<Fault>, stopped: bool)
      modifies world
      ensures Progress(world.log, pending, faults, stopped) ==
        Clear(world.answers, Progress(old(world.log), pending0, faults0, false), listed, owned, |owned|)
    {
      pending, faults, stopped := pending0, faults0, false;
      ghost var start := Progress(world.log, pending0, faults0, false);
      var i := 0;
      while i < |owned|
        invariant 0 <= i <= |owned| && !stopped
        invariant Progress(world.log, pending, faults, false) == Clear(world.answers, start, listed, owned, i)
      {
        if owned[i] !in listed {
          var a := world.Call(Remove(owned[i]));
          if a.fault.Some? {
            faults := faults + [a.fault.value];
            if a.fault.value.GatewayUnavailable? {
              pending, stopped := true, true;
              ClearStops(world.answers, start, listed, owned, i + 1, |owned|);
              return;
            }
          } else {
            pending := pending || a.remaining;
          }
        }
        i := i + 1;
      }
    }

    method SyncGateway()
      modifies world, this`gatewayReported
      ensures (world.log, Now()) == M.SyncGateway(world.answers, old(world.log), old(Now()))
    {
      if gatewayReported == Some(!gatewayDown) { return; }
      var a := world.Call(ReportGateway(!gatewayDown));
      if a.fault.None? { gatewayReported := Some(!gatewayDown); }
    }

    method Adopt(s: LoopState, l: Listing) returns (s': LoopState, faults: seq<Fault>)
      modifies world, this
      ensures Synced(world.log, Now(), s', faults) == M.Adopt(world.answers, old(world.log), old(Now()), s, l)
    {
      s', faults := s, [];
      var a := world.Call(Load);
      if a.fault.Some? {
        SyncGateway();
        return s, [a.fault.value];
      }
      a := world.Call(Live);
      gatewayDown := a.fault == Some(GatewayUnavailable);
      if a.fault.Some? {
        SyncGateway();
        return s, [a.fault.value];
      }
      a := world.Call(SendInventory(l.epoch, a.owned));
      if a.fault.Some? {
        if a.fault.value.StaleEpoch? { return s.(cursor := ""), []; }
        return s, [a.fault.value];
      }
      s' := s.(epoch := l.epoch, cursor := "");
      SyncGateway();
    }

    method Sync(s: LoopState) returns (s': LoopState, faults: seq<Fault>)
      modifies world, this
      ensures Synced(world.log, Now(), s', faults) == M.Sync(world.answers, url, old(world.log), old(Now()), s)
    {
      var wait := 30;
      if s.pending { wait := 2; }
      var a := world.Call(List(s.cursor, wait));
      if a.fault.Some? { return s.(cursor := ""), [a.fault.value]; }
      var l := a.listing;
      if l.epoch != s.epoch { gatewayReported := None; }
      if l.epoch != s.epoch && l.adopting {
        s', faults := Adopt(s, l);
        return;
      }
      if l.adopting { return s.(cursor := ""), [StillAdopting]; }
      var pending;
      pending, faults := Pass(l.workspaces);
      s' := LoopState(l.epoch, if faults == [] then l.cursor else "", pending);
    }
  }
}
