/** The host loop as functions on values. Every backend and host API call is recorded together
    with its answer; the answer of the k-th call is arbitrary. */
module HostPass {
  import opened Options

  datatype UnitState = Absent | Terminating | Starting | Started | Lost

  datatype Fault = GatewayUnavailable | NoLongerDesired | StillAdopting | StaleEpoch | OtherFault(text: string)

  datatype RegisterOutcome = Registered | NotDesired | AlreadyRegistered

  datatype Instance = Instance(instanceId: Option<string>, baseURL: string)

  datatype Workspace = Workspace(name: string, desired: string, port: int, instance: Option<Instance>)

  datatype Listing = Listing(cursor: string, epoch: string, adopting: bool, workspaces: seq<Workspace>)

  datatype Call =
    | Load
    | State(name: string) | Create(workspace: Workspace) | Remove(name: string) | Owned | Live | Sweep
    | List(cursor: string, wait: nat) | Register(name: string, url: string) | Delete(name: string, id: Option<string>)
    | SendInventory(epoch: string, units: seq<string>) | ReportGateway(available: bool)

  datatype Answer = Answer(
    fault: Option<Fault>, state: UnitState, remaining: bool, outcome: RegisterOutcome,
    owned: seq<string>, listing: Listing)

  datatype Entry = Entry(call: Call, answer: Answer)

  type Answers = nat -> Answer

  /** The address of a unit, from its Workspace's name and its launch port. */
  type Addresses = (string, int) -> string

  type Log = seq<Entry>

  function Ask(ans: Answers, log: Log, call: Call): Log {
    log + [Entry(call, ans(|log|))]
  }

  // ------------------------------------------------------------ one Workspace

  datatype Visited = Visited(log: Log, pending: bool, fault: Option<Fault>)

  /** `create`: load the Agent and its profile, then create the unit. */
  function MakeUnit(ans: Answers, log: Log, w: Workspace): Visited {
    var loaded := Ask(ans, log, Load);
    if ans(|log|).fault.Some? then Visited(loaded, true, ans(|log|).fault)
    else Visited(Ask(ans, loaded, Create(w)), true, ans(|loaded|).fault)
  }

  function EnsureRunning(ans: Answers, url: Addresses, log: Log, w: Workspace): Visited {
    var seen, a := Ask(ans, log, State(w.name)), ans(|log|);
    if a.fault.Some? then Visited(seen, false, a.fault)
    else match a.state
      case Absent => if w.instance.Some? then Visited(seen, false, None) else MakeUnit(ans, seen, w)
      case Terminating => Visited(seen, true, None)
      case Lost =>
        if w.instance.None? then Visited(Ask(ans, seen, Remove(w.name)), true, ans(|seen|).fault)
        else if w.instance.value.instanceId.Some? && w.instance.value.baseURL == url(w.name, w.port) then
          Visited(Ask(ans, seen, Delete(w.name, w.instance.value.instanceId)), true, ans(|seen|).fault)
        else Visited(seen, true, None)
      case _ =>
        if w.instance.Some? && w.instance.value.baseURL == url(w.name, w.port) then Visited(seen, false, None)
        else if a.state.Starting? then Visited(seen, true, None)
        else
          var told, b := Ask(ans, seen, Register(w.name, url(w.name, w.port))), ans(|seen|);
          Visited(told, false, if b.fault.Some? then b.fault
                               else if b.outcome.NotDesired? then Some(NoLongerDesired) else None)
  }

  function ListedId(w: Workspace): Option<string> {
    if w.instance.Some? then w.instance.value.instanceId else None
  }

  function Retire(ans: Answers, log: Log, w: Workspace): Visited {
    var asked, a := Ask(ans, log, Remove(w.name)), ans(|log|);
    if a.fault.Some? || a.remaining then Visited(asked, a.remaining, a.fault)
    else Visited(Ask(ans, asked, Delete(w.name, ListedId(w))), false, ans(|asked|).fault)
  }

  function Visit(ans: Answers, url: Addresses, log: Log, w: Workspace): Visited {
    if w.desired == "running" then EnsureRunning(ans, url, log, w)
    else if w.desired == "released" then Retire(ans, log, w)
    else Visited(log, false, None)
  }

  // ------------------------------------------------------------ one pass

  /** `stopped`: the gateway was found unavailable, which ends the pass. */
  datatype Progress = Progress(log: Log, pending: bool, faults: seq<Fault>, stopped: bool)

  function Note(p: Progress, v: Visited): Progress {
    if v.fault == Some(GatewayUnavailable) then Progress(v.log, true, p.faults + [v.fault.value], true)
    else if v.fault.Some? then Progress(v.log, p.pending, p.faults + [v.fault.value], false)
    else Progress(v.log, p.pending || v.pending, p.faults, false)
  }

  function Walk(ans: Answers, url: Addresses, log: Log, ws: seq<Workspace>, n: nat): Progress
    requires n <= |ws|
  {
    if n == 0 then Progress(log, false, [], false)
    else
      var p := Walk(ans, url, log, ws, n - 1);
      if p.stopped then p else Note(p, Visit(ans, url, p.log, ws[n - 1]))
  }

  function Names(ws: seq<Workspace>): set<string> {
    set w <- ws :: w.name
  }

  /** The units that no listed Workspace asks for, removed in the order they are owned. */
  function Clear(ans: Answers, start: Progress, listed: set<string>, owned: seq<string>, n: nat): Progress
    requires n <= |owned|
  {
    if n == 0 then start
    else
      var p := Clear(ans, start, listed, owned, n - 1);
      if p.stopped || owned[n - 1] in listed then p
      else
        var a := ans(|p.log|);
        Note(p, Visited(Ask(ans, p.log, Remove(owned[n - 1])), a.fault.None? && a.remaining, a.fault))
  }

  /** `ran`: the Agent was loaded, so the gateway's availability was noted afterwards. */
  datatype Passed = Passed(log: Log, pending: bool, faults: seq<Fault>, ran: bool)

  /** The list is complete: a Workspace that is not listed must have no unit. */
  function AfterWalk(ans: Answers, walked: Progress, ws: seq<Workspace>): Passed {
    if walked.stopped then Passed(walked.log, true, walked.faults, true)
    else
      var asked, o := Ask(ans, walked.log, Owned), ans(|walked.log|);
      if o.fault.Some? then Passed(asked, walked.pending, walked.faults + [o.fault.value], true)
      else
        var cleared := Clear(ans, walked.(log := asked), Names(ws), o.owned, |o.owned|);
        Passed(if cleared.faults == [] then Ask(ans, cleared.log, Sweep) else cleared.log,
               cleared.pending, cleared.faults, true)
  }

  function Pass(ans: Answers, url: Addresses, log: Log, ws: seq<Workspace>): Passed {
    var loaded, a := Ask(ans, log, Load), ans(|log|);
    if a.fault.Some? then Passed(loaded, false, [a.fault.value], false)
    else AfterWalk(ans, Walk(ans, url, loaded, ws, |ws|), ws)
  }

  // ------------------------------------------------------------ one iteration of the loop

  datatype HostState = HostState(gatewayDown: bool, gatewayReported: Option<bool>)

  datatype LoopState = LoopState(epoch: string, cursor: string, pending: bool)

  datatype Synced = Synced(log: Log, host: HostState, loop: LoopState, faults: seq<Fault>)

  function SyncGateway(ans: Answers, log: Log, h: HostState): (Log, HostState) {
    if h.gatewayReported == Some(!h.gatewayDown) then (log, h)
    else
      var told := Ask(ans, log, ReportGateway(!h.gatewayDown));
      (told, if ans(|log|).fault.Some? then h else h.(gatewayReported := Some(!h.gatewayDown)))
  }

  /** Adopting: load the Agent, list the live units, send the inventory. */
  function Adopt(ans: Answers, log: Log, h: HostState, s: LoopState, l: Listing): Synced {
    var loaded := Ask(ans, log, Load);
    if ans(|log|).fault.Some? then
      var (told, h1) := SyncGateway(ans, loaded, h);
      Synced(told, h1, s, [ans(|log|).fault.value])
    else
      var seen, a := Ask(ans, loaded, Live), ans(|loaded|);
      var h1 := h.(gatewayDown := a.fault == Some(GatewayUnavailable));
      if a.fault.Some? then
        var (told, h2) := SyncGateway(ans, seen, h1);
        Synced(told, h2, s, [a.fault.value])
      else
        var sent, b := Ask(ans, seen, SendInventory(l.epoch, a.owned)), ans(|seen|);
        if b.fault == Some(StaleEpoch) then Synced(sent, h1, s.(cursor := ""), [])
        else if b.fault.Some? then Synced(sent, h1, s, [b.fault.value])
        else
          var (told, h2) := SyncGateway(ans, sent, h1);
          Synced(told, h2, s.(epoch := l.epoch, cursor := ""), [])
  }

  function AfterPass(ans: Answers, h: HostState, p: Passed): (Log, HostState) {
    if !p.ran then (p.log, h)
    else SyncGateway(ans, p.log, h.(gatewayDown := GatewayUnavailable in p.faults))
  }

  function Sync(ans: Answers, url: Addresses, log: Log, h: HostState, s: LoopState): Synced {
    var asked, a := Ask(ans, log, List(s.cursor, if s.pending then 2 else 30)), ans(|log|);
    if a.fault.Some? then Synced(asked, h, s.(cursor := ""), [a.fault.value])
    else
      var l := a.listing;
      var h0 := if l.epoch != s.epoch then h.(gatewayReported := None) else h;
      if l.epoch != s.epoch && l.adopting then Adopt(ans, asked, h0, s, l)
      else if l.adopting then Synced(asked, h0, s.(cursor := ""), [StillAdopting])
      else
        var p := Pass(ans, url, asked, l.workspaces);
        var (told, h1) := AfterPass(ans, h0, p);
        Synced(told, h1, LoopState(l.epoch, if p.faults == [] then l.cursor else "", p.pending), p.faults)
  }
}
