/** A fixed listing is reached. Error-free passes alternate with progress of the environment:
    terminating units vanish, starting ones start, and the control unit drops an instance whose
    unit is gone or lost. */
module HostConvergence {
  import opened Options
  import opened HostPass
  import opened HostSafety

  /** What exists: the units, and the registrations the control unit holds. */
  datatype World = World(units: map<string, UnitState>, regs: map<string, Instance>)

  /** One Workspace name of a world. */
  datatype Cell = Cell(unit: UnitState, reg: Option<Instance>)

  function UnitOf(world: World, n: string): UnitState {
    if n in world.units then world.units[n] else Absent
  }

  function RegOf(world: World, n: string): Option<Instance> {
    if n in world.regs then Some(world.regs[n]) else None
  }

  function CellOf(world: World, n: string): Cell {
    Cell(UnitOf(world, n), RegOf(world, n))
  }

  // ------------------------------------------------------------ error-free answers and their effect

  /** An empty id is not sent. */
  function Sent(id: Option<string>): Option<string> {
    if id == Some("") then None else id
  }

  function Effect(world: World, c: Call): World {
    match c
    case Create(w) =>
      if UnitOf(world, w.name).Absent? then world.(units := world.units[w.name := Starting]) else world
    case Remove(n) =>
      if UnitOf(world, n).Absent? then world else world.(units := world.units[n := Terminating])
    case Register(n, u) =>
      if n in world.regs then world else world.(regs := world.regs[n := Instance(None, u)])
    case Delete(n, id) =>
      if n in world.regs && (world.regs[n].instanceId.None? || world.regs[n].instanceId == Sent(id))
      then world.(regs := world.regs - {n}) else world
    case _ => world
  }

  ghost predicate AnswerFits(world: World, e: Entry) {
    && e.answer.fault.None?
    && match e.call
       case State(n) => e.answer.state == UnitOf(world, n)
       case Remove(n) => e.answer.remaining <==> !UnitOf(world, n).Absent?
       case Register(n, u) =>
         e.answer.outcome == if n !in world.regs || world.regs[n].baseURL == u then Registered else AlreadyRegistered
       case Owned => forall n :: !UnitOf(world, n).Absent? ==> n in e.answer.owned
       case _ => true
  }

  ghost function After(world: World, log: Log, from: nat, to: nat): World
    requires to <= |log|
  {
    if to <= from then world else Effect(After(world, log, from, to - 1), log[to - 1].call)
  }

  ghost predicate Fits(world: World, log: Log, from: nat, to: nat)
    requires to <= |log|
  {
    to <= from || (Fits(world, log, from, to - 1) && AnswerFits(After(world, log, from, to - 1), log[to - 1]))
  }

  lemma {:induction false} PrefixDecides(world: World, log: Log, more: Log, from: nat, to: nat)
    requires to <= |log| && log <= more
    ensures After(world, more, from, to) == After(world, log, from, to)
    ensures Fits(world, more, from, to) == Fits(world, log, from, to)
  {
    if to > from { PrefixDecides(world, log, more, from, to - 1); }
  }

  lemma {:induction false} FitsSplits(world: World, log: Log, from: nat, mid: nat, to: nat)
    requires from <= mid <= to <= |log|
    ensures After(world, log, from, to) == After(After(world, log, from, mid), log, mid, to)
    ensures Fits(world, log, from, to)
         <==> Fits(world, log, from, mid) && Fits(After(world, log, from, mid), log, mid, to)
  {
    if to > mid { FitsSplits(world, log, from, mid, to - 1); }
  }

  /** What holds of a log holds of its beginning, and of the rest from where that leads. */
  lemma FitsInParts(world: World, log: Log, more: Log, from: nat)
    requires from <= |log| && log <= more && Fits(world, more, from, |more|)
    ensures var mid := After(world, log, from, |log|);
      && Fits(world, log, from, |log|) && Fits(mid, more, |log|, |more|)
      && After(world, more, from, |more|) == After(mid, more, |log|, |more|)
  {
    FitsSplits(world, more, from, |log|, |more|);
    PrefixDecides(world, log, more, from, |log|);
  }

  // ------------------------------------------------------------ what a visit does to one name

  function RemoveCell(c: Cell): Cell {
    if c.unit.Absent? then c else c.(unit := Terminating)
  }

  function UnregisterCell(c: Cell): Cell {
    if c.reg.Some? && (c.reg.value.instanceId.None? || c.reg.value.instanceId != Some("")) then c.(reg := None) else c
  }

  predicate At(c: Cell, address: string) {
    c.reg.Some? && c.reg.value.baseURL == address
  }

  function RunCell(c: Cell, address: string): Cell {
    match c.unit
    case Absent => if c.reg.Some? then c else c.(unit := Starting)
    case Lost =>
      if c.reg.None? then RemoveCell(c)
      else if At(c, address) && c.reg.value.instanceId.Some? then UnregisterCell(c) else c
    case Started => if c.reg.None? then c.(reg := Some(Instance(None, address))) else c
    case _ => c
  }

  function VisitCell(c: Cell, w: Workspace, address: string): Cell {
    if w.desired == "running" then RunCell(c, address)
    else if w.desired == "released" then (if c.unit.Absent? then UnregisterCell(c) else RemoveCell(c))
    else c
  }

  ghost predicate OnlyMoves(world: World, world': World, n: string, c: Cell) {
    && CellOf(world', n) == c
    && forall m :: m != n ==> CellOf(world', m) == CellOf(world, m)
  }

  lemma RunVisit(ans: Answers, url: Addresses, log: Log, w: Workspace, world: World)
    requires w.instance == RegOf(world, w.name)
    requires var v := EnsureRunning(ans, url, log, w); Fits(world, v.log, |log|, |v.log|)
    ensures var v := EnsureRunning(ans, url, log, w);
      v.fault.None? && OnlyMoves(world, After(world, v.log, |log|, |v.log|), w.name,
                                 RunCell(CellOf(world, w.name), url(w.name, w.port)))
  {
    var v, k := EnsureRunning(ans, url, log, w), |log|;
    assert |v.log| > k;
    assert After(world, v.log, k, k) == world;
    assert Fits(world, v.log, k, k + 1) && After(world, v.log, k, k + 1) == world;
    assert AnswerFits(world, v.log[k]) && v.log[k].answer.state == UnitOf(world, w.name);
    if |v.log| > k + 2 { assert Fits(world, v.log, k, k + 2) && After(world, v.log, k, k + 2) == world; }
  }

  lemma RetireVisit(ans: Answers, log: Log, w: Workspace, world: World)
    requires w.instance == RegOf(world, w.name) && w.desired == "released"
    requires var v := Retire(ans, log, w); Fits(world, v.log, |log|, |v.log|)
    ensures var v := Retire(ans, log, w);
      v.fault.None?
      && OnlyMoves(world, After(world, v.log, |log|, |v.log|), w.name, VisitCell(CellOf(world, w.name), w, ""))
  {
    var v, k := Retire(ans, log, w), |log|;
    assert After(world, v.log, k, k) == world;
    if |v.log| > k + 1 { assert After(world, v.log, k, k + 1) == world; }
  }

  lemma VisitMoves(ans: Answers, url: Addresses, log: Log, w: Workspace, world: World)
    requires w.instance == RegOf(world, w.name)
    requires var v := Visit(ans, url, log, w); Fits(world, v.log, |log|, |v.log|)
    ensures var v := Visit(ans, url, log, w);
      v.fault.None? && OnlyMoves(world, After(world, v.log, |log|, |v.log|), w.name,
                                 VisitCell(CellOf(world, w.name), w, url(w.name, w.port)))
  {
    if w.desired == "running" { RunVisit(ans, url, log, w, world); }
    else if w.desired == "released" { RetireVisit(ans, log, w, world); }
  }

  // ------------------------------------------------------------ what a pass does to every name

  ghost predicate Distinct(ws: seq<Workspace>) {
    forall i, j :: 0 <= i < j < |ws| ==> ws[i].name != ws[j].name
  }

  ghost predicate Reflects(ws: seq<Workspace>, world: World) {
    forall i :: 0 <= i < |ws| ==> ws[i].instance == RegOf(world, ws[i].name)
  }

  /** The position of a name among the first `n` entries of the listing. */
  function Listed(ws: seq<Workspace>, n: nat, name: string): (at: Option<nat>)
    requires n <= |ws|
    ensures at.Some? ==> at.value < n && ws[at.value].name == name
    ensures at.None? ==> forall i :: 0 <= i < n ==> ws[i].name != name
  {
    if n == 0 then None else if ws[n - 1].name == name then Some(n - 1) else Listed(ws, n - 1, name)
  }

  function WalkCell(c: Cell, ws: seq<Workspace>, n: nat, name: string, url: Addresses): Cell
    requires n <= |ws|
  {
    var at := Listed(ws, n, name);
    if at.None? then c else VisitCell(c, ws[at.value], url(name, ws[at.value].port))
  }

  /** After the first `n` entries every listed name moved once. */
  ghost predicate Walked(world: World, after: World, ws: seq<Workspace>, n: nat, url: Addresses)
    requires n <= |ws|
  {
    forall m :: CellOf(after, m) == WalkCell(CellOf(world, m), ws, n, m, url)
  }

  lemma WalkedOneMore(world: World, before: World, after: World, ws: seq<Workspace>, n: nat, url: Addresses)
    requires n < |ws| && Distinct(ws) && Walked(world, before, ws, n, url)
    requires OnlyMoves(before, after, ws[n].name,
                       VisitCell(CellOf(before, ws[n].name), ws[n], url(ws[n].name, ws[n].port)))
    ensures Walked(world, after, ws, n + 1, url)
  {
    NotYetListed(ws, n);
    forall m ensures CellOf(after, m) == WalkCell(CellOf(world, m), ws, n + 1, m, url) {
      assert CellOf(before, m) == WalkCell(CellOf(world, m), ws, n, m, url);
    }
  }

  lemma NotYetListed(ws: seq<Workspace>, n: nat)
    requires n < |ws| && Distinct(ws)
    ensures Listed(ws, n, ws[n].name).None?
  {
  }

  lemma VisitNext(ans: Answers, url: Addresses, q: Progress, p: Progress, ws: seq<Workspace>, n: nat, world: World,
                  before: World)
    requires n < |ws| && Distinct(ws) && ws[n].instance == RegOf(world, ws[n].name)
    requires !q.stopped && q.faults == [] && p == Note(q, Visit(ans, url, q.log, ws[n]))
    requires Walked(world, before, ws, n, url)
    requires |q.log| <= |p.log| && Fits(before, p.log, |q.log|, |p.log|)
    ensures p.faults == [] && !p.stopped && Walked(world, After(before, p.log, |q.log|, |p.log|), ws, n + 1, url)
  {
    NotYetListed(ws, n);
    assert CellOf(before, ws[n].name) == CellOf(world, ws[n].name);
    VisitMoves(ans, url, q.log, ws[n], before);
    WalkedOneMore(world, before, After(before, p.log, |q.log|, |p.log|), ws, n, url);
  }

  lemma {:induction false} WalkMoves(ans: Answers, url: Addresses, log: Log, ws: seq<Workspace>, n: nat, world: World)
    requires n <= |ws| && Distinct(ws) && Reflects(ws, world)
    requires var p := Walk(ans, url, log, ws, n); |log| <= |p.log| && Fits(world, p.log, |log|, |p.log|)
    ensures var p := Walk(ans, url, log, ws, n);
      && p.faults == [] && !p.stopped
      && Walked(world, After(world, p.log, |log|, |p.log|), ws, n, url)
  {
    if n > 0 {
      WalkFits(ans, url, log, ws, n - 1, world);
      WalkMoves(ans, url, log, ws, n - 1, world);
      OneMoreMove(ans, url, log, ws, n - 1, world);
    }
  }

  lemma OneMoreMove(ans: Answers, url: Addresses, log: Log, ws: seq<Workspace>, n: nat, world: World)
    requires n < |ws| && Distinct(ws) && Reflects(ws, world)
    requires var q, p := Walk(ans, url, log, ws, n), Walk(ans, url, log, ws, n + 1);
      && q.faults == [] && !q.stopped && |log| <= |q.log| <= |p.log|
      && Walked(world, After(world, q.log, |log|, |q.log|), ws, n, url)
      && Fits(After(world, q.log, |log|, |q.log|), p.log, |q.log|, |p.log|)
    ensures var q, p := Walk(ans, url, log, ws, n), Walk(ans, url, log, ws, n + 1);
      && p.faults == [] && !p.stopped
      && Walked(world, After(After(world, q.log, |log|, |q.log|), p.log, |q.log|, |p.log|), ws, n + 1, url)
  {
    var q, p := Walk(ans, url, log, ws, n), Walk(ans, url, log, ws, n + 1);
    VisitNext(ans, url, q, p, ws, n, world, After(world, q.log, |log|, |q.log|));
  }

  /** What fits a longer walk fits its beginning. */
  lemma WalkFits(ans: Answers, url: Addresses, log: Log, ws: seq<Workspace>, n: nat, world: World)
    requires n < |ws|
    requires var p := Walk(ans, url, log, ws, n + 1); |log| <= |p.log| && Fits(world, p.log, |log|, |p.log|)
    ensures var q, p := Walk(ans, url, log, ws, n), Walk(ans, url, log, ws, n + 1);
      && |log| <= |q.log| <= |p.log| && Fits(world, q.log, |log|, |q.log|)
      && Fits(After(world, q.log, |log|, |q.log|), p.log, |q.log|, |p.log|)
      && After(world, p.log, |log|, |p.log|) == After(After(world, q.log, |log|, |q.log|), p.log, |q.log|, |p.log|)
  {
    WalkGrows(ans, url, log, ws, n);
    WalkGrows(ans, url, log, ws, n + 1);
    FitsInParts(world, Walk(ans, url, log, ws, n).log, Walk(ans, url, log, ws, n + 1).log, |log|);
  }

  lemma {:induction false} WalkGrows(ans: Answers, url: Addresses, log: Log, ws: seq<Workspace>, n: nat)
    requires n <= |ws|
    ensures log <= Walk(ans, url, log, ws, n).log
    ensures n > 0 ==> Walk(ans, url, log, ws, n - 1).log <= Walk(ans, url, log, ws, n).log
  {
    if n > 0 {
      WalkGrows(ans, url, log, ws, n - 1);
      VisitSafe(ans, url, Walk(ans, url, log, ws, n - 1).log, ws, ws[n - 1]);
    }
  }

  /** Of the first `n` owned names, the unlisted ones were asked to go. */
  ghost predicate Cleared(world: World, after: World, listed: set<string>, owned: seq<string>, n: nat)
    requires n <= |owned|
  {
    forall m ::
      CellOf(after, m) == if m !in listed && m in owned[..n] then RemoveCell(CellOf(world, m)) else CellOf(world, m)
  }

  lemma ClearedOneMore(world: World, before: World, listed: set<string>, owned: seq<string>, n: nat)
    requires n < |owned| && Cleared(world, before, listed, owned, n)
    ensures Cleared(world, if owned[n] in listed then before else Effect(before, Remove(owned[n])),
                    listed, owned, n + 1)
  {
    var after := if owned[n] in listed then before else Effect(before, Remove(owned[n]));
    assert owned[..n + 1] == owned[..n] + [owned[n]];
    forall m ensures CellOf(after, m) ==
      if m !in listed && m in owned[..n + 1] then RemoveCell(CellOf(world, m)) else CellOf(world, m)
    {
      assert m in owned[..n + 1] <==> m in owned[..n] || m == owned[n];
    }
  }

  /** What fits the whole fits its beginning. */
  lemma ClearFits(ans: Answers, start: Progress, listed: set<string>, owned: seq<string>, n: nat, world: World)
    requires n < |owned|
    requires var p := Clear(ans, start, listed, owned, n + 1);
      |start.log| <= |p.log| && Fits(world, p.log, |start.log|, |p.log|)
    ensures var q, p := Clear(ans, start, listed, owned, n), Clear(ans, start, listed, owned, n + 1);
      && |start.log| <= |q.log| <= |p.log| && Fits(world, q.log, |start.log|, |q.log|)
      && Fits(After(world, q.log, |start.log|, |q.log|), p.log, |q.log|, |p.log|)
      && After(world, p.log, |start.log|, |p.log|)
         == After(After(world, q.log, |start.log|, |q.log|), p.log, |q.log|, |p.log|)
  {
    ClearExtends(ans, start, listed, owned, n);
    FitsInParts(world, Clear(ans, start, listed, owned, n).log,
                Clear(ans, start, listed, owned, n + 1).log, |start.log|);
  }

  lemma {:induction false} ClearMoves(ans: Answers, start: Progress, listed: set<string>, owned: seq<string>, n: nat,
                                      world: World)
    requires n <= |owned| && !start.stopped && start.faults == []
    requires var p := Clear(ans, start, listed, owned, n);
      |start.log| <= |p.log| && Fits(world, p.log, |start.log|, |p.log|)
    ensures var p := Clear(ans, start, listed, owned, n);
      && p.faults == [] && !p.stopped
      && Cleared(world, After(world, p.log, |start.log|, |p.log|), listed, owned, n)
  {
    if n > 0 {
      var q, p := Clear(ans, start, listed, owned, n - 1), Clear(ans, start, listed, owned, n);
      ClearFits(ans, start, listed, owned, n - 1, world);
      ClearMoves(ans, start, listed, owned, n - 1, world);
      ClearedNext(ans, q, p, listed, owned, n - 1, world, After(world, q.log, |start.log|, |q.log|));
    }
  }

  lemma ClearedNext(ans: Answers, q: Progress, p: Progress, listed: set<string>, owned: seq<string>, n: nat,
                    world: World, before: World)
    requires n < |owned| && !q.stopped && q.faults == [] && Cleared(world, before, listed, owned, n)
    requires var a := ans(|q.log|);
      p == if owned[n] in listed then q
           else Note(q, Visited(Ask(ans, q.log, Remove(owned[n])), a.fault.None? && a.remaining, a.fault))
    requires Fits(before, p.log, |q.log|, |p.log|)
    ensures p.faults == [] && !p.stopped && Cleared(world, After(before, p.log, |q.log|, |p.log|), listed, owned, n + 1)
  {
    ClearedOneMore(world, before, listed, owned, n);
    assert After(before, p.log, |q.log|, |q.log|) == before;
  }

  /** An error-free pass visits every listed name once and removes every other unit. */
  function PassCell(c: Cell, ws: seq<Workspace>, name: string, url: Addresses): Cell {
    if Listed(ws, |ws|, name).Some? then WalkCell(c, ws, |ws|, name, url) else RemoveCell(c)
  }

  lemma PassMoves(ans: Answers, url: Addresses, ws: seq<Workspace>, world: World)
    requires Distinct(ws) && Reflects(ws, world)
    requires var log := Pass(ans, url, [], ws).log; Fits(world, log, 0, |log|)
    ensures var p := Pass(ans, url, [], ws);
      && p.faults == []
      && forall m :: CellOf(After(world, p.log, 0, |p.log|), m) == PassCell(CellOf(world, m), ws, m, url)
  {
    var p, loaded := Pass(ans, url, [], ws), Ask(ans, [], Load);
    PassLoads(ans, url, ws, world);
    var walked := Walk(ans, url, loaded, ws, |ws|);
    WalkGrows(ans, url, loaded, ws, |ws|);
    AfterWalkExtends(ans, walked, ws);
    FitsInParts(world, walked.log, p.log, 1);
    WalkMoves(ans, url, loaded, ws, |ws|, world);
    AfterWalkMoves(ans, walked, ws, After(world, walked.log, 1, |walked.log|));
    forall m ensures (m in Names(ws)) == Listed(ws, |ws|, m).Some? { ListedIsNamed(ws, m); }
  }

  /** Loading succeeds and changes nothing. */
  lemma PassLoads(ans: Answers, url: Addresses, ws: seq<Workspace>, world: World)
    requires var log := Pass(ans, url, [], ws).log; Fits(world, log, 0, |log|)
    ensures var log := Pass(ans, url, [], ws).log;
      && ans(0).fault.None? && |log| > 0 && Fits(world, log, 1, |log|)
      && After(world, log, 0, |log|) == After(world, log, 1, |log|)
  {
    var log, loaded := Pass(ans, url, [], ws).log, Ask(ans, [], Load);
    PassStartsWithLoad(ans, url, ws);
    assert |loaded| == 1 && log[0] == loaded[0];
    FitsInParts(world, loaded, log, 0);
    assert Fits(world, loaded, 0, 0) && After(world, loaded, 0, 0) == world && After(world, loaded, 0, 1) == world;
  }

  lemma ListedIsNamed(ws: seq<Workspace>, m: string)
    ensures m in Names(ws) <==> Listed(ws, |ws|, m).Some?
  {
    var at := Listed(ws, |ws|, m);
    if at.Some? { assert ws[at.value] in ws; }
  }

  lemma PassStartsWithLoad(ans: Answers, url: Addresses, ws: seq<Workspace>)
    ensures Ask(ans, [], Load) <= Pass(ans, url, [], ws).log
  {
    var loaded := Ask(ans, [], Load);
    if ans(0).fault.None? {
      WalkGrows(ans, url, loaded, ws, |ws|);
      AfterWalkExtends(ans, Walk(ans, url, loaded, ws, |ws|), ws);
    }
  }

  lemma AfterWalkMoves(ans: Answers, walked: Progress, ws: seq<Workspace>, world: World)
    requires !walked.stopped && walked.faults == []
    requires var log := AfterWalk(ans, walked, ws).log; |walked.log| <= |log| && Fits(world, log, |walked.log|, |log|)
    ensures var p := AfterWalk(ans, walked, ws);
      && p.faults == []
      && forall m :: CellOf(After(world, p.log, |walked.log|, |p.log|), m) ==
           if m in Names(ws) then CellOf(world, m) else RemoveCell(CellOf(world, m))
  {
    var p, k := AfterWalk(ans, walked, ws), |walked.log|;
    var asked, o := Ask(ans, walked.log, Owned), ans(k);
    if o.fault.None? { ClearExtends(ans, walked.(log := asked), Names(ws), o.owned, |o.owned|); }
    assert p.log[k] == asked[k];
    FitsSplits(world, p.log, k, k + 1, |p.log|);
    assert After(world, p.log, k, k) == world && After(world, p.log, k, k + 1) == world;
    assert AnswerFits(world, p.log[k]);
    var start := walked.(log := asked);
    var cleared := Clear(ans, start, Names(ws), o.owned, |o.owned|);
    FitsSplits(world, p.log, k + 1, |cleared.log|, |p.log|);
    PrefixDecides(world, cleared.log, p.log, k + 1, |cleared.log|);
    ClearMoves(ans, start, Names(ws), o.owned, |o.owned|, world);
    assert o.owned[..|o.owned|] == o.owned;
    assert After(world, p.log, k + 1, |p.log|) == After(world, cleared.log, k + 1, |cleared.log|);
  }
}
