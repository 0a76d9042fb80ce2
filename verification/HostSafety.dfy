/** "Cannot see" is not "gone": what a pass may remove and confirm, whatever the backend and the
    control unit answer. */
module HostSafety {
  import opened Options
  import opened HostPass

  /** The calls that change a unit or what the control unit believes of one. */
  predicate Mutates(c: Call) {
    c.Create? || c.Remove? || c.Register? || c.Delete?
  }

  predicate SawGatewayDown(e: Entry) {
    e.answer.fault == Some(GatewayUnavailable)
  }

  predicate Answered(e: Entry, c: Call) {
    e.call == c && e.answer.fault.None?
  }

  predicate Found(e: Entry, name: string, state: UnitState) {
    Answered(e, State(name)) && e.answer.state == state
  }

  predicate RemovalAllowed(log: Log, k: nat, ws: seq<Workspace>)
    requires k < |log| && log[k].call.Remove?
  {
    var n := log[k].call.name;
    || (exists w <- ws :: w.name == n && w.desired == "released")
    || (k > 0 && Found(log[k - 1], n, Lost)
        && exists w <- ws :: w.name == n && w.desired == "running" && w.instance.None?)
    || (n !in Names(ws) && exists j :: 0 <= j < k && Answered(log[j], Owned) && n in log[j].answer.owned)
  }

  predicate ConfirmationAllowed(log: Log, k: nat, ws: seq<Workspace>, url: Addresses)
    requires k < |log| && log[k].call.Delete?
  {
    var n, id := log[k].call.name, log[k].call.id;
    k > 0
    && (|| (Answered(log[k - 1], Remove(n)) && !log[k - 1].answer.remaining
            && exists w <- ws :: w.name == n && w.desired == "released" && id == ListedId(w))
        || (Found(log[k - 1], n, Lost)
            && exists w <- ws :: w.name == n && w.desired == "running" && w.instance.Some?
                 && w.instance.value.baseURL == url(w.name, w.port) && id.Some? && id == w.instance.value.instanceId))
  }

  predicate CreationAllowed(log: Log, k: nat, ws: seq<Workspace>)
    requires k < |log| && log[k].call.Create?
  {
    var w := log[k].call.workspace;
    && w in ws && w.desired == "running" && w.instance.None?
    && k > 1 && Answered(log[k - 1], Load) && Found(log[k - 2], w.name, Absent)
  }

  predicate RegistrationAllowed(log: Log, k: nat, ws: seq<Workspace>, url: Addresses)
    requires k < |log| && log[k].call.Register?
  {
    && k > 0 && Found(log[k - 1], log[k].call.name, Started)
    && exists w <- ws :: w.name == log[k].call.name && w.desired == "running" && url(w.name, w.port) == log[k].call.url
         && (w.instance.Some? ==> w.instance.value.baseURL != url(w.name, w.port))
  }

  predicate Allowed(log: Log, k: nat, ws: seq<Workspace>, url: Addresses)
    requires k < |log|
  {
    match log[k].call
    case Remove(_) => RemovalAllowed(log, k, ws)
    case Delete(_, _) => ConfirmationAllowed(log, k, ws, url)
    case Create(_) => CreationAllowed(log, k, ws)
    case Register(_, _) => RegistrationAllowed(log, k, ws, url)
    case Load => true
    case State(_) => true
    case Owned => true
    case Sweep => true
    case _ => false
  }

  /** From entry `from` on: every call is allowed, and nothing follows a gateway outage. */
  ghost predicate Safe(log: Log, from: nat, ws: seq<Workspace>, url: Addresses) {
    && (forall k :: from <= k < |log| ==> Allowed(log, k, ws, url))
    && (forall k :: from <= k < |log| && SawGatewayDown(log[k]) ==> k == |log| - 1)
  }

  predicate EndsInOutage(log: Log, from: nat) {
    from < |log| && SawGatewayDown(log[|log| - 1])
  }

  lemma AllowedLater(log: Log, more: Log, k: nat, ws: seq<Workspace>, url: Addresses)
    requires k < |log| && log <= more && Allowed(log, k, ws, url)
    ensures Allowed(more, k, ws, url)
  {
    if log[k].call.Remove? && log[k].call.name !in Names(ws) {
      assert forall j :: 0 <= j < k ==> more[j] == log[j];
    }
  }

  lemma SafeExtends(log: Log, more: Log, from: nat, ws: seq<Workspace>, url: Addresses)
    requires Safe(log, from, ws, url) && log <= more && from <= |log|
    requires !EndsInOutage(log, from) && Safe(more, |log|, ws, url)
    ensures Safe(more, from, ws, url)
  {
    forall k | from <= k < |log| ensures Allowed(more, k, ws, url) { AllowedLater(log, more, k, ws, url); }
    assert forall k :: from <= k < |log| ==> more[k] == log[k];
  }

  // ------------------------------------------------------------ one Workspace

  lemma EnsureRunningSafe(ans: Answers, url: Addresses, log: Log, ws: seq<Workspace>, w: Workspace)
    requires w in ws && w.desired == "running"
    ensures var v := EnsureRunning(ans, url, log, w);
      && log <= v.log && Safe(v.log, |log|, ws, url)
      && (EndsInOutage(v.log, |log|) <==> v.fault == Some(GatewayUnavailable))
  {
  }

  lemma RetireSafe(ans: Answers, url: Addresses, log: Log, ws: seq<Workspace>, w: Workspace)
    requires w in ws && w.desired == "released"
    ensures var v := Retire(ans, log, w);
      && log <= v.log && Safe(v.log, |log|, ws, url)
      && (EndsInOutage(v.log, |log|) <==> v.fault == Some(GatewayUnavailable))
  {
  }

  lemma VisitSafe(ans: Answers, url: Addresses, log: Log, ws: seq<Workspace>, w: Workspace)
    requires w in ws
    ensures var v := Visit(ans, url, log, w);
      && log <= v.log && Safe(v.log, |log|, ws, url)
      && (EndsInOutage(v.log, |log|) <==> v.fault == Some(GatewayUnavailable))
  {
    if w.desired == "running" { EnsureRunningSafe(ans, url, log, ws, w); }
    else if w.desired == "released" { RetireSafe(ans, url, log, ws, w); }
  }

  // ------------------------------------------------------------ the loops of a pass

  ghost predicate SafeProgress(p: Progress, from: nat, ws: seq<Workspace>, url: Addresses) {
    && from <= |p.log| && Safe(p.log, from, ws, url)
    && (EndsInOutage(p.log, from) <==> p.stopped) && (p.stopped <==> GatewayUnavailable in p.faults)
  }

  lemma NoteSafe(p: Progress, v: Visited, from: nat, ws: seq<Workspace>, url: Addresses)
    requires SafeProgress(p, from, ws, url) && !p.stopped && p.log <= v.log && Safe(v.log, |p.log|, ws, url)
    requires EndsInOutage(v.log, |p.log|) <==> v.fault == Some(GatewayUnavailable)
    ensures SafeProgress(Note(p, v), from, ws, url)
  {
    SafeExtends(p.log, v.log, from, ws, url);
  }

  lemma {:induction false} WalkSafe(ans: Answers, url: Addresses, log: Log, ws: seq<Workspace>, n: nat, from: nat)
    requires n <= |ws| && SafeProgress(Progress(log, false, [], false), from, ws, url)
    ensures SafeProgress(Walk(ans, url, log, ws, n), from, ws, url) && log <= Walk(ans, url, log, ws, n).log
  {
    if n > 0 {
      var p := Walk(ans, url, log, ws, n - 1);
      WalkSafe(ans, url, log, ws, n - 1, from);
      if !p.stopped {
        VisitSafe(ans, url, p.log, ws, ws[n - 1]);
        NoteSafe(p, Visit(ans, url, p.log, ws[n - 1]), from, ws, url);
      }
    }
  }

  lemma {:induction false} ClearSafe(ans: Answers, url: Addresses, start: Progress, ws: seq<Workspace>,
                                     owned: seq<string>, n: nat, from: nat, j: nat)
    requires n <= |owned| && SafeProgress(start, from, ws, url) && !start.stopped
    requires j < |start.log| && Answered(start.log[j], Owned) && start.log[j].answer.owned == owned
    ensures var p := Clear(ans, start, Names(ws), owned, n);
      SafeProgress(p, from, ws, url) && start.log <= p.log
  {
    if n > 0 {
      var p := Clear(ans, start, Names(ws), owned, n - 1);
      ClearSafe(ans, url, start, ws, owned, n - 1, from, j);
      if !p.stopped && owned[n - 1] !in Names(ws) {
        var a := ans(|p.log|);
        var log := Ask(ans, p.log, Remove(owned[n - 1]));
        assert log[j] == start.log[j];
        assert RemovalAllowed(log, |p.log|, ws);
        NoteSafe(p, Visited(log, a.fault.None? && a.remaining, a.fault), from, ws, url);
      }
    }
  }

  lemma AfterWalkSafe(ans: Answers, url: Addresses, walked: Progress, ws: seq<Workspace>, from: nat)
    requires SafeProgress(walked, from, ws, url)
    ensures walked.log <= AfterWalk(ans, walked, ws).log && Safe(AfterWalk(ans, walked, ws).log, from, ws, url)
  {
    if !walked.stopped {
      var asked, o := Ask(ans, walked.log, Owned), ans(|walked.log|);
      SafeExtends(walked.log, asked, from, ws, url);
      if o.fault.None? {
        ClearSafe(ans, url, walked.(log := asked), ws, o.owned, |o.owned|, from, |walked.log|);
        var cleared := Clear(ans, walked.(log := asked), Names(ws), o.owned, |o.owned|);
        if cleared.faults == [] {
          SafeExtends(cleared.log, Ask(ans, cleared.log, Sweep), from, ws, url);
        }
      }
    }
  }

  // ------------------------------------------------------------ the main results

  /** For every listing and every pattern of answers: removals, confirmations, creations and
      registrations happen only where they are allowed, and nothing follows a gateway outage. */
  lemma PassIsSafe(ans: Answers, url: Addresses, log: Log, ws: seq<Workspace>)
    ensures log <= Pass(ans, url, log, ws).log && Safe(Pass(ans, url, log, ws).log, |log|, ws, url)
  {
    var loaded := Ask(ans, log, Load);
    if ans(|log|).fault.None? {
      WalkSafe(ans, url, loaded, ws, |ws|, |log|);
      AfterWalkSafe(ans, url, Walk(ans, url, loaded, ws, |ws|), ws, |log|);
    }
  }

  lemma NothingAfterAnOutage(ans: Answers, url: Addresses, log: Log, ws: seq<Workspace>, j: nat, k: nat)
    requires var p := Pass(ans, url, log, ws);
      |log| <= j < k < |p.log| && Mutates(p.log[k].call)
    ensures !SawGatewayDown(Pass(ans, url, log, ws).log[j])
  {
    PassIsSafe(ans, url, log, ws);
  }

  lemma SyncGatewayIsSilent(ans: Answers, log: Log, h: HostState)
    ensures var told := SyncGateway(ans, log, h).0;
      log <= told && forall k :: |log| <= k < |told| ==> !Mutates(told[k].call)
  {
  }

  lemma SyncedPassIsSafe(ans: Answers, url: Addresses, log: Log, h: HostState, ws: seq<Workspace>)
    ensures var told := AfterPass(ans, h, Pass(ans, url, log, ws)).0;
      && log <= told
      && (forall k :: |log| <= k < |told| && Mutates(told[k].call) ==> Allowed(told, k, ws, url))
      && (forall j, k :: |log| <= j < k < |told| && Mutates(told[k].call) ==> !SawGatewayDown(told[j]))
  {
    PassIsSafe(ans, url, log, ws);
    var p := Pass(ans, url, log, ws);
    var told := AfterPass(ans, h, p).0;
    if p.ran { SyncGatewayIsSilent(ans, p.log, h.(gatewayDown := GatewayUnavailable in p.faults)); }
    assert forall k :: |log| <= k < |p.log| ==> told[k] == p.log[k];
    forall k | |log| <= k < |p.log| ensures Allowed(told, k, ws, url) {
      AllowedLater(p.log, told, k, ws, url);
    }
  }

  /** One iteration of the loop changes nothing while the control unit is adopting; otherwise the
      changes are those of a pass over the listing it was given. */
  lemma SyncWaitsForAdoption(ans: Answers, url: Addresses, log: Log, h: HostState, s: LoopState)
    ensures var r := Sync(ans, url, log, h, s);
      && |log| < |r.log| && log <= r.log && r.log[|log|].call.List?
      && (r.log[|log|].answer.fault.Some? || r.log[|log|].answer.listing.adopting ==>
            forall k :: |log| <= k < |r.log| ==> !Mutates(r.log[k].call))
      && (forall k :: |log| <= k < |r.log| && Mutates(r.log[k].call) ==>
            Allowed(r.log, k, r.log[|log|].answer.listing.workspaces, url))
      && (forall j, k :: |log| < j < k < |r.log| && Mutates(r.log[k].call) ==> !SawGatewayDown(r.log[j]))
  {
    var asked, a := Ask(ans, log, List(s.cursor, if s.pending then 2 else 30)), ans(|log|);
    if a.fault.None? {
      var l := a.listing;
      var h0 := if l.epoch != s.epoch then h.(gatewayReported := None) else h;
      if l.adopting {
        if l.epoch != s.epoch { AdoptIsSilent(ans, asked, h0, s, l); }
      } else {
        SyncedPassIsSafe(ans, url, asked, h0, l.workspaces);
        assert AfterPass(ans, h0, Pass(ans, url, asked, l.workspaces)).0[|log|] == asked[|log|];
      }
    }
  }

  /** The listing is of an epoch that this loop has not seen, and adopts. */
  predicate AsksForInventory(a: Answer, s: LoopState) {
    a.fault.None? && a.listing.adopting && a.listing.epoch != s.epoch
  }

  /** The inventory is sent exactly when such a listing was answered and the Agent and its live units could
      be read: at once after them, for that epoch, and with the units that were read. While the control
      unit adopts, the loop takes its epoch exactly when the inventory was accepted. */
  lemma InventoryIff(ans: Answers, url: Addresses, log: Log, h: HostState, s: LoopState)
    ensures var r, n := Sync(ans, url, log, h, s), |log|;
      var asked := AsksForInventory(ans(n), s);
      var sends := asked && ans(n + 1).fault.None? && ans(n + 2).fault.None?;
      && n < |r.log| && r.log[n].call == List(s.cursor, if s.pending then 2 else 30)
      && (asked ==> n + 1 < |r.log| && r.log[n + 1].call == Load)
      && (asked && ans(n + 1).fault.None? ==> n + 2 < |r.log| && r.log[n + 2].call == Live)
      && (sends ==> n + 3 < |r.log| && r.log[n + 3].call == SendInventory(ans(n).listing.epoch, ans(n + 2).owned))
      && (forall k :: n <= k < |r.log| && r.log[k].call.SendInventory? ==> sends && k == n + 3)
      && (asked ==> (r.loop.epoch == ans(n).listing.epoch <==> sends && ans(n + 3).fault.None?))
  {
    var asked, a := Ask(ans, log, List(s.cursor, if s.pending then 2 else 30)), ans(|log|);
    if AsksForInventory(a, s) {
      AdoptSends(ans, asked, h.(gatewayReported := None), s, a.listing);
    } else {
      OthersSendNone(ans, url, log, h, s);
    }
  }

  lemma OthersSendNone(ans: Answers, url: Addresses, log: Log, h: HostState, s: LoopState)
    requires !AsksForInventory(ans(|log|), s)
    ensures var r, asked := Sync(ans, url, log, h, s), Ask(ans, log, List(s.cursor, if s.pending then 2 else 30));
      asked <= r.log && forall k :: |log| <= k < |r.log| ==> !r.log[k].call.SendInventory?
  {
    var asked, a := Ask(ans, log, List(s.cursor, if s.pending then 2 else 30)), ans(|log|);
    var h0 := if a.listing.epoch != s.epoch then h.(gatewayReported := None) else h;
    PassSendsNone(ans, url, asked, h0, a.listing.workspaces);
  }

  lemma AdoptSends(ans: Answers, log: Log, h: HostState, s: LoopState, l: Listing)
    ensures var r, n := Adopt(ans, log, h, s, l), |log|;
      var sends := ans(n).fault.None? && ans(n + 1).fault.None?;
      && log <= r.log && n < |r.log| && r.log[n].call == Load
      && (ans(n).fault.None? ==> n + 1 < |r.log| && r.log[n + 1].call == Live)
      && (sends ==> n + 2 < |r.log| && r.log[n + 2].call == SendInventory(l.epoch, ans(n + 1).owned))
      && (forall k :: n <= k < |r.log| && r.log[k].call.SendInventory? ==> sends && k == n + 2)
      && (r.loop == s.(epoch := l.epoch, cursor := "") || r.loop.epoch == s.epoch)
      && (l.epoch != s.epoch ==> (r.loop.epoch == l.epoch <==> sends && ans(n + 2).fault.None?))
  {
  }

  /** How such an iteration ends: a stale epoch is no failure and asks for the next listing at once; any other
      failure leaves the loop as it was. The control unit is told of the gateway unless the inventory failed. */
  lemma AdoptionEnds(ans: Answers, url: Addresses, log: Log, h: HostState, s: LoopState)
    requires AsksForInventory(ans(|log|), s)
    ensures var r, n := Sync(ans, url, log, h, s), |log|;
      var read := if ans(n + 1).fault.Some? then ans(n + 1).fault else ans(n + 2).fault;
      var sent := if read.Some? then read else ans(n + 3).fault;
      && r.faults == (if sent.None? || (read.None? && sent == Some(StaleEpoch)) then [] else [sent.value])
      && r.loop == (if sent.None? then s.(epoch := ans(n).listing.epoch, cursor := "")
                    else if r.faults == [] then s.(cursor := "") else s)
      && r.host.gatewayDown ==
           (if ans(n + 1).fault.Some? then h.gatewayDown else ans(n + 2).fault == Some(GatewayUnavailable))
      && (r.log[|r.log| - 1].call == ReportGateway(!r.host.gatewayDown) <==> read.Some? || sent.None?)
  {
  }

  lemma PassSendsNone(ans: Answers, url: Addresses, log: Log, h: HostState, ws: seq<Workspace>)
    ensures var told := AfterPass(ans, h, Pass(ans, url, log, ws)).0;
      log <= told && forall k :: |log| <= k < |told| ==> !told[k].call.SendInventory?
  {
    PassIsSafe(ans, url, log, ws);
    var p := Pass(ans, url, log, ws);
    var told := AfterPass(ans, h, p).0;
    if p.ran { GatewayReports(ans, p.log, h.(gatewayDown := GatewayUnavailable in p.faults)); }
    assert p.log <= told;
    forall k | |log| <= k < |told| ensures !told[k].call.SendInventory? {
      if k < |p.log| { assert told[k] == p.log[k] && Allowed(p.log, k, ws, url); }
    }
  }

  /** The sweep of detached volumes is the last call of a pass without errors, and of no other. */
  lemma SweepsIffClean(ans: Answers, url: Addresses, log: Log, ws: seq<Workspace>, k: nat)
    requires var p := Pass(ans, url, log, ws); |log| <= k < |p.log|
    ensures var p := Pass(ans, url, log, ws);
      p.log[k].call.Sweep? <==> p.ran && p.faults == [] && k == |p.log| - 1
  {
    var loaded := Ask(ans, log, Load);
    if ans(|log|).fault.None? {
      var walked := Walk(ans, url, loaded, ws, |ws|);
      WalkSweepsNot(ans, url, loaded, ws, |ws|, k);
      WalkSafe(ans, url, loaded, ws, |ws|, |log|);
      AfterWalkSweeps(ans, walked, ws, k);
    }
  }

  lemma VisitSweepsNot(ans: Answers, url: Addresses, log: Log, w: Workspace, k: nat)
    requires |log| <= k < |Visit(ans, url, log, w).log|
    ensures !Visit(ans, url, log, w).log[k].call.Sweep?
  {
  }

  lemma {:induction false} WalkSweepsNot(ans: Answers, url: Addresses, log: Log, ws: seq<Workspace>, n: nat, k: nat)
    requires n <= |ws|
    ensures |log| <= k < |Walk(ans, url, log, ws, n).log| ==> !Walk(ans, url, log, ws, n).log[k].call.Sweep?
  {
    if n > 0 {
      WalkSweepsNot(ans, url, log, ws, n - 1, k);
      var q := Walk(ans, url, log, ws, n - 1);
      WalkSafe(ans, url, log, ws, n - 1, |log|);
      var v := Visit(ans, url, q.log, ws[n - 1]);
      VisitSafe(ans, url, q.log, ws, ws[n - 1]);
      if |q.log| <= k < |v.log| { VisitSweepsNot(ans, url, q.log, ws[n - 1], k); }
    }
  }

  lemma {:induction false} ClearSweepsNot(ans: Answers, start: Progress, listed: set<string>, owned: seq<string>,
                                          n: nat, k: nat)
    requires n <= |owned|
    ensures var p := Clear(ans, start, listed, owned, n); |start.log| <= k < |p.log| ==> !p.log[k].call.Sweep?
  {
    if n > 0 {
      ClearSweepsNot(ans, start, listed, owned, n - 1, k);
      ClearExtends(ans, start, listed, owned, n - 1);
    }
  }

  lemma AfterWalkSweeps(ans: Answers, walked: Progress, ws: seq<Workspace>, k: nat)
    requires var p := AfterWalk(ans, walked, ws); k < |p.log| && (k < |walked.log| ==> !walked.log[k].call.Sweep?)
    requires walked.stopped ==> walked.faults != []
    ensures var p := AfterWalk(ans, walked, ws); p.log[k].call.Sweep? <==> p.faults == [] && k == |p.log| - 1
  {
    if !walked.stopped {
      var asked, o := Ask(ans, walked.log, Owned), ans(|walked.log|);
      if o.fault.None? {
        ClearSweepsNot(ans, walked.(log := asked), Names(ws), o.owned, |o.owned|, k);
        ClearExtends(ans, walked.(log := asked), Names(ws), o.owned, |o.owned|);
      }
    }
  }

  /** An accepted inventory, and a reconciled listing, make the listed epoch the loop's. After a failed
      pass, or an accepted inventory, the next listing is asked for at once. */
  lemma SyncRemembers(ans: Answers, url: Addresses, log: Log, h: HostState, s: LoopState)
    ensures var r := Sync(ans, url, log, h, s);
      var a := ans(|log|);
      && (a.fault.Some? ==> r.loop == s.(cursor := "") && r.host == h)
      && (a.fault.None? && r.loop.epoch != s.epoch ==> r.loop.epoch == a.listing.epoch)
      && (a.fault.None? && !a.listing.adopting ==>
            r.loop.epoch == a.listing.epoch && r.loop.cursor == if r.faults == [] then a.listing.cursor else "")
      && (a.fault.None? && a.listing.adopting && a.listing.epoch == s.epoch ==>
            r.faults == [StillAdopting] && r.loop == s.(cursor := ""))
      && (a.fault.None? && a.listing.adopting ==>
            r.loop.pending == s.pending && (r.faults == [] ==> r.loop.cursor == ""))
      && (a.fault.None? && !a.listing.adopting ==>
            var asked := Ask(ans, log, List(s.cursor, if s.pending then 2 else 30));
            var p := Pass(ans, url, asked, a.listing.workspaces);
            r.faults == p.faults && r.loop.pending == p.pending)
  {
  }

  /** A report of the gateway is made exactly when the control unit was last told something else, and
      what it was told is what the last backend call saw; a report that failed is made again. */
  lemma GatewayReports(ans: Answers, log: Log, h: HostState)
    ensures var (told, h') := SyncGateway(ans, log, h);
      && (told == log <==> h.gatewayReported == Some(!h.gatewayDown))
      && (told != log ==> told == log + [Entry(ReportGateway(!h.gatewayDown), ans(|log|))])
      && h' == (if told != log && ans(|log|).fault.Some? then h else h.(gatewayReported := Some(!h.gatewayDown)))
  {
    assert log != log + [Entry(ReportGateway(!h.gatewayDown), ans(|log|))];
  }

  /** After a pass with errors the gateway counts as down exactly when the last answer said so; a pass
      without errors ends with the sweep, and the gateway counts as available. */
  lemma PassNotesTheGateway(ans: Answers, url: Addresses, log: Log, ws: seq<Workspace>, h: HostState)
    requires Pass(ans, url, log, ws).ran
    ensures var p := Pass(ans, url, log, ws);
      if p.faults == [] then |p.log| > 0 && p.log[|p.log| - 1].call.Sweep? && !AfterPass(ans, h, p).1.gatewayDown
      else AfterPass(ans, h, p).1.gatewayDown <==> EndsInOutage(p.log, |log|)
  {
    var loaded := Ask(ans, log, Load);
    WalkSafe(ans, url, loaded, ws, |ws|, |log|);
    AfterWalkNotes(ans, url, Walk(ans, url, loaded, ws, |ws|), ws, |log|);
  }

  lemma AfterWalkNotes(ans: Answers, url: Addresses, walked: Progress, ws: seq<Workspace>, from: nat)
    requires SafeProgress(walked, from, ws, url)
    ensures var p := AfterWalk(ans, walked, ws);
      if p.faults == [] then |p.log| > 0 && p.log[|p.log| - 1].call.Sweep?
      else GatewayUnavailable in p.faults <==> EndsInOutage(p.log, from)
  {
    if !walked.stopped {
      var asked, o := Ask(ans, walked.log, Owned), ans(|walked.log|);
      SafeExtends(walked.log, asked, from, ws, url);
      if o.fault.None? {
        ClearSafe(ans, url, walked.(log := asked), ws, o.owned, |o.owned|, from, |walked.log|);
      }
    }
  }

  lemma AdoptIsSilent(ans: Answers, log: Log, h: HostState, s: LoopState, l: Listing)
    ensures var r := Adopt(ans, log, h, s, l);
      log <= r.log && forall k :: |log| <= k < |r.log| ==> !Mutates(r.log[k].call)
  {
  }

  /** One failing Workspace does not stop the others: unless the gateway is unavailable, every
      listed Workspace is looked at or asked to go. */
  lemma EveryWorkspaceIsVisited(ans: Answers, url: Addresses, log: Log, ws: seq<Workspace>, i: nat)
    requires i < |ws| && Pass(ans, url, log, ws).ran
    requires GatewayUnavailable !in Pass(ans, url, log, ws).faults
    ensures VisitedIn(Pass(ans, url, log, ws).log, |log|, ws[i])
  {
    var loaded := Ask(ans, log, Load);
    var walked := Walk(ans, url, loaded, ws, |ws|);
    WalkSafe(ans, url, loaded, ws, |ws|, |log|);
    AfterWalkExtends(ans, walked, ws);
    WalkVisits(ans, url, loaded, ws, |ws|, i);
  }

  /** The units were listed at `at`, and each that no Workspace names was asked to go afterwards. */
  ghost predicate ClearedFrom(log: Log, at: nat, ws: seq<Workspace>) {
    && at < |log| && log[at].call == Owned
    && (log[at].answer.fault.None? ==>
          forall i :: 0 <= i < |log[at].answer.owned| && log[at].answer.owned[i] !in Names(ws) ==>
            Calls(log, at, Remove(log[at].answer.owned[i])))
  }

  /** And so is every owned unit that no Workspace names. */
  lemma EveryOtherUnitIsAskedToGo(ans: Answers, url: Addresses, log: Log, ws: seq<Workspace>)
    requires Pass(ans, url, log, ws).ran
    requires GatewayUnavailable !in Pass(ans, url, log, ws).faults
    ensures exists at :: |log| <= at && ClearedFrom(Pass(ans, url, log, ws).log, at, ws)
  {
    var p, loaded := Pass(ans, url, log, ws), Ask(ans, log, Load);
    var walked := Walk(ans, url, loaded, ws, |ws|);
    WalkSafe(ans, url, loaded, ws, |ws|, |log|);
    AfterWalkExtends(ans, walked, ws);
    AfterWalkClears(ans, walked, ws);
    assert ClearedFrom(p.log, |walked.log|, ws);
  }

  lemma AfterWalkClears(ans: Answers, walked: Progress, ws: seq<Workspace>)
    requires !walked.stopped && GatewayUnavailable !in AfterWalk(ans, walked, ws).faults
    ensures ClearedFrom(AfterWalk(ans, walked, ws).log, |walked.log|, ws)
  {
    var asked, o, at := Ask(ans, walked.log, Owned), ans(|walked.log|), |walked.log|;
    if o.fault.None? {
      var start, log := walked.(log := asked), AfterWalk(ans, walked, ws).log;
      var cleared := Clear(ans, start, Names(ws), o.owned, |o.owned|);
      ClearExtends(ans, start, Names(ws), o.owned, |o.owned|);
      StoppedByOutage(ans, start, Names(ws), o.owned, |o.owned|);
      assert cleared.log <= log && log[at] == asked[at];
      forall i | 0 <= i < |o.owned| && o.owned[i] !in Names(ws) ensures Calls(log, at, Remove(o.owned[i])) {
        ClearVisits(ans, start, Names(ws), o.owned, |o.owned|, i);
        CallsLater(cleared.log, |asked|, log, at, Remove(o.owned[i]));
      }
    }
  }

  lemma CallsLater(log: Log, from: nat, more: Log, from': nat, c: Call)
    requires Calls(log, from, c) && log <= more && from' <= from
    ensures Calls(more, from', c)
  {
    var k :| from <= k < |log| && log[k].call == c;
    assert more[k] == log[k];
  }

  lemma {:induction false} StoppedByOutage(ans: Answers, start: Progress, listed: set<string>, owned: seq<string>,
                                           n: nat)
    requires n <= |owned| && !start.stopped
    ensures Clear(ans, start, listed, owned, n).stopped ==>
        GatewayUnavailable in Clear(ans, start, listed, owned, n).faults
  {
    if n > 0 { StoppedByOutage(ans, start, listed, owned, n - 1); }
  }

  lemma {:induction false} ClearVisits(ans: Answers, start: Progress, listed: set<string>, owned: seq<string>, n: nat,
                                       i: nat)
    requires i < n <= |owned| && owned[i] !in listed && !Clear(ans, start, listed, owned, n).stopped
    ensures Calls(Clear(ans, start, listed, owned, n).log, |start.log|, Remove(owned[i]))
  {
    var p, q := Clear(ans, start, listed, owned, n - 1), Clear(ans, start, listed, owned, n);
    ClearExtends(ans, start, listed, owned, n - 1);
    if i < n - 1 {
      ClearVisits(ans, start, listed, owned, n - 1, i);
      assert p.log <= q.log;
      CallsLater(p.log, |start.log|, q.log, |start.log|, Remove(owned[i]));
    } else {
      assert q.log[|p.log|].call == Remove(owned[i]);
    }
  }

  ghost predicate Calls(log: Log, from: nat, c: Call) {
    exists k :: from <= k < |log| && log[k].call == c
  }

  /** A running Workspace was looked at, a released one was asked to go. */
  ghost predicate VisitedIn(log: Log, from: nat, w: Workspace) {
    && (w.desired == "running" ==> Calls(log, from, State(w.name)))
    && (w.desired == "released" ==> Calls(log, from, Remove(w.name)))
  }

  lemma {:induction false} ClearExtends(ans: Answers, start: Progress, listed: set<string>, owned: seq<string>, n: nat)
    requires n <= |owned|
    ensures var p := Clear(ans, start, listed, owned, n); start.log <= p.log && start.faults <= p.faults
  {
    if n > 0 { ClearExtends(ans, start, listed, owned, n - 1); }
  }

  lemma AfterWalkExtends(ans: Answers, walked: Progress, ws: seq<Workspace>)
    ensures walked.log <= AfterWalk(ans, walked, ws).log && walked.faults <= AfterWalk(ans, walked, ws).faults
  {
    if !walked.stopped {
      var asked, o := Ask(ans, walked.log, Owned), ans(|walked.log|);
      if o.fault.None? { ClearExtends(ans, walked.(log := asked), Names(ws), o.owned, |o.owned|); }
    }
  }

  lemma FirstCall(ans: Answers, url: Addresses, log: Log, w: Workspace)
    ensures VisitedIn(Visit(ans, url, log, w).log, |log|, w)
  {
    var v := Visit(ans, url, log, w);
    if w.desired == "running" { assert v.log[|log|].call == State(w.name); }
    else if w.desired == "released" { assert v.log[|log|].call == Remove(w.name); }
  }

  lemma VisitedLater(log: Log, from: nat, more: Log, from': nat, w: Workspace)
    requires VisitedIn(log, from, w) && log <= more && from' <= from
    ensures VisitedIn(more, from', w)
  {
    assert forall k :: 0 <= k < |log| ==> more[k] == log[k];
  }

  lemma {:induction false} WalkVisits(ans: Answers, url: Addresses, log: Log, ws: seq<Workspace>, n: nat, i: nat)
    requires i < n <= |ws| && !Walk(ans, url, log, ws, n).stopped
    ensures VisitedIn(Walk(ans, url, log, ws, n).log, |log|, ws[i])
  {
    var p := Walk(ans, url, log, ws, n - 1);
    var v := Visit(ans, url, p.log, ws[n - 1]);
    WalkSafe(ans, url, log, ws, n - 1, |log|);
    VisitSafe(ans, url, p.log, ws, ws[n - 1]);
    if i < n - 1 {
      WalkVisits(ans, url, log, ws, n - 1, i);
      VisitedLater(p.log, |log|, v.log, |log|, ws[i]);
    } else {
      FirstCall(ans, url, p.log, ws[i]);
      VisitedLater(v.log, |p.log|, v.log, |log|, ws[i]);
    }
  }
}
