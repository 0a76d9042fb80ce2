/** Runs of rounds over a fixed listing: the measure, and the state every run reaches. */
module HostRounds {
  import opened Options
  import opened HostPass
  import opened HostConvergence

  // ------------------------------------------------------------ progress of the environment

  /** The control unit drops a registration whose unit is gone or lost. A unit that lives keeps its
      registration, even at an address that is not its own. */
  predicate Droppable(c: Cell) {
    c.reg.Some? && (c.unit.Absent? || c.unit.Lost?)
  }

  predicate Enabled(c: Cell) {
    c.unit.Terminating? || c.unit.Starting? || Droppable(c)
  }

  predicate Advances(c: Cell, c': Cell) {
    c'.unit != c.unit || (c.reg.Some? && c'.reg.None?)
  }

  /** One name over one stretch of the environment's progress; an instance id may become known. */
  predicate MayBecome(c: Cell, c': Cell) {
    && (c'.unit == c.unit || (c.unit.Terminating? && c'.unit.Absent?) || (c.unit.Starting? && c'.unit.Started?))
    && (|| (c.reg.None? && c'.reg.None?)
        || (c.reg.Some? && c'.reg.Some? && c'.reg.value.baseURL == c.reg.value.baseURL)
        || (Droppable(c) && c'.reg.None?))
  }

  /** Nothing breaks, and whenever something can advance, something does. */
  ghost predicate Progresses(world: World, world': World) {
    && (forall n :: MayBecome(CellOf(world, n), CellOf(world', n)))
    && (forall n :: Enabled(CellOf(world, n)) ==> exists m :: Advances(CellOf(world, m), CellOf(world', m)))
  }

  /** The fixed listing as the control unit shows it in a given world. */
  function Shown(want: seq<Workspace>, world: World): (ws: seq<Workspace>)
    ensures |ws| == |want| && forall i :: 0 <= i < |ws| ==> ws[i] == want[i].(instance := RegOf(world, want[i].name))
  {
    seq(|want|, i requires 0 <= i < |want| => want[i].(instance := RegOf(world, want[i].name)))
  }

  /** Environment progress from `world` to `mid`, then an error-free pass over the listing. */
  ghost predicate Round(want: seq<Workspace>, url: Addresses, world: World, mid: World, ans: Answers, world': World) {
    && Progresses(world, mid)
    && var log := Pass(ans, url, [], Shown(want, mid)).log;
       Fits(mid, log, 0, |log|) && world' == After(mid, log, 0, |log|)
  }

  /** `worlds[i]` to `worlds[i + 1]` is one round, for every `i`. */
  ghost predicate IsRun(want: seq<Workspace>, url: Addresses, worlds: seq<World>, mids: seq<World>,
                        anss: seq<Answers>) {
    && |worlds| == |mids| + 1 && |mids| == |anss|
    && forall i :: 0 <= i < |mids| ==> Round(want, url, worlds[i], mids[i], anss[i], worlds[i + 1])
  }

  // ------------------------------------------------------------ the goal and the measure

  predicate GoalCell(c: Cell, want: seq<Workspace>, n: string) {
    var at := Listed(want, |want|, n);
    if at.None? || want[at.value].desired == "released" then c.unit.Absent?
    else want[at.value].desired == "running" ==> c.unit.Started? && c.reg.Some?
  }

  /** Every running Workspace is started and registered; no released or unlisted unit exists. */
  ghost predicate Reached(want: seq<Workspace>, world: World) {
    forall n :: GoalCell(CellOf(world, n), want, n)
  }

  function RunRank(c: Cell): nat {
    var r := if c.reg.Some? then 1 else 0;
    match c.unit
    case Started => 1 - r
    case Starting => 2
    case Absent => 3 + r
    case Terminating => 4 + r
    case Lost => 5 + r
  }

  function GoneRank(c: Cell): nat {
    (match c.unit case Absent => 0 case Terminating => 1 case Starting => 3 case _ => 2)
    + if c.reg.Some? then 1 else 0
  }

  function IdleRank(c: Cell): nat {
    (if c.unit.Terminating? || c.unit.Starting? then 1 else 0) + if c.reg.Some? then 1 else 0
  }

  function Rank(c: Cell, want: seq<Workspace>, n: string): nat {
    var at := Listed(want, |want|, n);
    if at.None? || want[at.value].desired == "released" then GoneRank(c)
    else if want[at.value].desired == "running" then RunRank(c)
    else IdleRank(c)
  }

  /** The distance of a world from the goal, over the names that occur in it. */
  function Measure(names: seq<string>, world: World, want: seq<Workspace>): nat {
    if names == [] then 0
    else Rank(CellOf(world, names[0]), want, names[0]) + Measure(names[1..], world, want)
  }

  ghost predicate Covers(names: seq<string>, world: World, want: seq<Workspace>) {
    && (forall n :: CellOf(world, n) != Cell(Absent, None) ==> n in names)
    && forall i :: 0 <= i < |want| ==> want[i].name in names
  }

  // ------------------------------------------------------------ one name over one round

  lemma ProgressRanks(c: Cell, c': Cell, want: seq<Workspace>, n: string)
    requires MayBecome(c, c')
    ensures Rank(c', want, n) <= Rank(c, want, n)
    ensures Advances(c, c') ==> Rank(c', want, n) < Rank(c, want, n)
  {
  }

  lemma {:induction false} ShownLists(want: seq<Workspace>, world: World, n: nat, name: string)
    requires n <= |want|
    ensures Listed(Shown(want, world), n, name) == Listed(want, n, name)
  {
    if n > 0 { ShownLists(want, world, n - 1, name); }
  }

  lemma PassRanks(c: Cell, want: seq<Workspace>, world: World, n: string, url: Addresses)
    ensures var c' := PassCell(c, Shown(want, world), n, url);
      && Rank(c', want, n) <= Rank(c, want, n)
      && (!GoalCell(c, want, n) && !Enabled(c) ==> Rank(c', want, n) < Rank(c, want, n))
  {
    ShownLists(want, world, |want|, n);
  }

  lemma GoalStays(c: Cell, c': Cell, want: seq<Workspace>, world: World, n: string, url: Addresses)
    requires MayBecome(c, c') && GoalCell(c, want, n)
    ensures GoalCell(PassCell(c', Shown(want, world), n, url), want, n)
  {
    ShownLists(want, world, |want|, n);
  }

  /** A name that nothing moved has no more distance than before; one that can move on its own is
      enabled in both worlds. */
  lemma StillEnabled(c: Cell, c': Cell)
    requires MayBecome(c, c') && !Advances(c, c')
    ensures Enabled(c') <==> Enabled(c)
  {
  }

  // ------------------------------------------------------------ one round

  lemma RoundCells(want: seq<Workspace>, url: Addresses, world: World, mid: World, ans: Answers, world': World,
                   n: string)
    requires Distinct(want) && Round(want, url, world, mid, ans, world')
    ensures MayBecome(CellOf(world, n), CellOf(mid, n))
    ensures CellOf(world', n) == PassCell(CellOf(mid, n), Shown(want, mid), n, url)
  {
    PassMoves(ans, url, Shown(want, mid), mid);
  }

  lemma RoundRank(want: seq<Workspace>, url: Addresses, world: World, mid: World, ans: Answers, world': World,
                  n: string)
    requires Distinct(want) && Round(want, url, world, mid, ans, world')
    ensures Rank(CellOf(world', n), want, n) <= Rank(CellOf(mid, n), want, n) <= Rank(CellOf(world, n), want, n)
  {
    RoundCells(want, url, world, mid, ans, world', n);
    ProgressRanks(CellOf(world, n), CellOf(mid, n), want, n);
    PassRanks(CellOf(mid, n), want, mid, n, url);
  }

  /** A round that starts short of the goal brings some name closer. */
  lemma SomeNameCloser(want: seq<Workspace>, url: Addresses, world: World, mid: World, ans: Answers, world': World)
    returns (n: string)
    requires Distinct(want) && Round(want, url, world, mid, ans, world') && !Reached(want, world)
    ensures Rank(CellOf(world', n), want, n) < Rank(CellOf(world, n), want, n)
  {
    if m :| Advances(CellOf(world, m), CellOf(mid, m)) {
      n := m;
      RoundCells(want, url, world, mid, ans, world', n);
      ProgressRanks(CellOf(world, n), CellOf(mid, n), want, n);
      PassRanks(CellOf(mid, n), want, mid, n, url);
    } else {
      n :| !GoalCell(CellOf(world, n), want, n);
      RoundCells(want, url, world, mid, ans, world', n);
      var c, c' := CellOf(world, n), CellOf(mid, n);
      StillEnabled(c, c');
      assert !Enabled(c);
      assert GoalCell(c', want, n) == GoalCell(c, want, n);
      ProgressRanks(c, c', want, n);
      PassRanks(c', want, mid, n, url);
    }
  }

  lemma RoundKeepsNames(names: seq<string>, want: seq<Workspace>, url: Addresses, world: World, mid: World,
                        ans: Answers, world': World)
    requires Distinct(want) && Round(want, url, world, mid, ans, world') && Covers(names, world, want)
    ensures Covers(names, world', want)
  {
    forall n | CellOf(world', n) != Cell(Absent, None) ensures n in names {
      RoundCells(want, url, world, mid, ans, world', n);
      ShownLists(want, mid, |want|, n);
    }
  }

  lemma {:induction false} MeasureFalls(names: seq<string>, world: World, world': World, want: seq<Workspace>)
    requires forall n :: Rank(CellOf(world', n), want, n) <= Rank(CellOf(world, n), want, n)
    ensures Measure(names, world', want) <= Measure(names, world, want)
    ensures (exists n :: n in names && Rank(CellOf(world', n), want, n) < Rank(CellOf(world, n), want, n)) ==>
      Measure(names, world', want) < Measure(names, world, want)
  {
    if names != [] { MeasureFalls(names[1..], world, world', want); }
  }

  /** Every round strictly decreases the measure until the goal is reached, and keeps the goal. */
  lemma RoundDecreases(names: seq<string>, want: seq<Workspace>, url: Addresses, world: World, mid: World,
                       ans: Answers, world': World)
    requires Distinct(want) && Round(want, url, world, mid, ans, world') && Covers(names, world, want)
    ensures Covers(names, world', want)
    ensures if Reached(want, world) then Reached(want, world')
            else Measure(names, world', want) < Measure(names, world, want)
  {
    RoundKeepsNames(names, want, url, world, mid, ans, world');
    if Reached(want, world) {
      forall n ensures GoalCell(CellOf(world', n), want, n) {
        RoundCells(want, url, world, mid, ans, world', n);
        GoalStays(CellOf(world, n), CellOf(mid, n), want, mid, n, url);
      }
    } else {
      var n := SomeNameCloser(want, url, world, mid, ans, world');
      forall m ensures Rank(CellOf(world', m), want, m) <= Rank(CellOf(world, m), want, m) {
        RoundRank(want, url, world, mid, ans, world', m);
      }
      if n !in names { NowhereRanksLow(names, want, world, world', n); }
      MeasureFalls(names, world, world', want);
    }
  }

  lemma NowhereRanksLow(names: seq<string>, want: seq<Workspace>, world: World, world': World, n: string)
    requires Covers(names, world, want) && Covers(names, world', want) && n !in names
    ensures Rank(CellOf(world, n), want, n) == Rank(CellOf(world', n), want, n)
  {
    assert CellOf(world, n) == Cell(Absent, None) && CellOf(world', n) == Cell(Absent, None);
  }

  // ------------------------------------------------------------ the main result

  lemma {:induction false} RunFalls(names: seq<string>, want: seq<Workspace>, url: Addresses,
                                    worlds: seq<World>, mids: seq<World>, anss: seq<Answers>, i: nat)
    requires Distinct(want) && IsRun(want, url, worlds, mids, anss) && Covers(names, worlds[0], want) && i < |worlds|
    ensures Covers(names, worlds[i], want)
    ensures Reached(want, worlds[i]) || Measure(names, worlds[i], want) + i <= Measure(names, worlds[0], want)
  {
    if i > 0 {
      RunFalls(names, want, url, worlds, mids, anss, i - 1);
      RoundDecreases(names, want, url, worlds[i - 1], mids[i - 1], anss[i - 1], worlds[i]);
    }
  }

  /** From any unit states and registrations, every run of rounds over a fixed listing reaches the
      goal within as many rounds as the measure of the first world, and never leaves it. */
  lemma EveryRunReachesTheListing(names: seq<string>, want: seq<Workspace>, url: Addresses,
                                  worlds: seq<World>, mids: seq<World>, anss: seq<Answers>, i: nat)
    requires Distinct(want) && IsRun(want, url, worlds, mids, anss) && Covers(names, worlds[0], want)
    requires Measure(names, worlds[0], want) <= i < |worlds|
    ensures Reached(want, worlds[i])
  {
    RunFalls(names, want, url, worlds, mids, anss, i);
    if !Reached(want, worlds[i]) {
      var n :| !GoalCell(CellOf(worlds[i], n), want, n);
      assert Rank(CellOf(worlds[i], n), want, n) > 0;
      assert n in names;
      MeasureCounts(names, worlds[i], want, n);
    }
  }

  /** The unit of a running Workspace lives, and the control unit holds it at another address. */
  predicate Elsewhere(c: Cell, want: seq<Workspace>, n: string, url: Addresses) {
    var at := Listed(want, |want|, n);
    && at.Some? && want[at.value].desired == "running"
    && (c.unit.Starting? || c.unit.Started?) && c.reg.Some? && !At(c, url(n, want[at.value].port))
  }

  ghost predicate SomeElsewhere(want: seq<Workspace>, url: Addresses, world: World) {
    exists n :: Elsewhere(CellOf(world, n), want, n, url)
  }

  /** Every running Workspace is registered at its own address. */
  ghost predicate AtHome(want: seq<Workspace>, url: Addresses, world: World) {
    forall i :: 0 <= i < |want| && want[i].desired == "running" ==>
      At(CellOf(world, want[i].name), url(want[i].name, want[i].port))
  }

  /** Neither the environment nor a pass puts a live unit elsewhere, or brings it home. */
  lemma ElsewhereStays(c: Cell, c': Cell, want: seq<Workspace>, world: World, n: string, url: Addresses)
    requires MayBecome(c, c')
    ensures Elsewhere(PassCell(c', Shown(want, world), n, url), want, n, url) <==> Elsewhere(c, want, n, url)
  {
    ShownLists(want, world, |want|, n);
  }

  lemma {:induction false} RunKeepsElsewhere(want: seq<Workspace>, url: Addresses, worlds: seq<World>, mids: seq<World>,
                                             anss: seq<Answers>, i: nat, n: string)
    requires Distinct(want) && IsRun(want, url, worlds, mids, anss) && i < |worlds|
    ensures Elsewhere(CellOf(worlds[i], n), want, n, url) <==> Elsewhere(CellOf(worlds[0], n), want, n, url)
  {
    if i > 0 {
      RunKeepsElsewhere(want, url, worlds, mids, anss, i - 1, n);
      RoundCells(want, url, worlds[i - 1], mids[i - 1], anss[i - 1], worlds[i], n);
      ElsewhereStays(CellOf(worlds[i - 1], n), CellOf(mids[i - 1], n), want, mids[i - 1], n, url);
    }
  }

  lemma ListedWhere(want: seq<Workspace>, i: nat)
    requires Distinct(want) && i < |want|
    ensures Listed(want, |want|, want[i].name) == Some(i)
  {
  }

  lemma HomeOrElsewhere(want: seq<Workspace>, url: Addresses, world: World)
    requires Distinct(want) && Reached(want, world)
    ensures AtHome(want, url, world) <==> !SomeElsewhere(want, url, world)
  {
    forall i | 0 <= i < |want| && want[i].desired == "running"
      ensures At(CellOf(world, want[i].name), url(want[i].name, want[i].port))
              <==> !Elsewhere(CellOf(world, want[i].name), want, want[i].name, url)
    {
      ListedWhere(want, i);
      assert GoalCell(CellOf(world, want[i].name), want, want[i].name);
    }
  }

  /** Every run ends with each running Workspace at its own address exactly when it began with no
      live unit registered at another one. */
  lemma OwnAddressesIff(names: seq<string>, want: seq<Workspace>, url: Addresses,
                        worlds: seq<World>, mids: seq<World>, anss: seq<Answers>, i: nat)
    requires Distinct(want) && IsRun(want, url, worlds, mids, anss) && Covers(names, worlds[0], want)
    requires Measure(names, worlds[0], want) <= i < |worlds|
    ensures AtHome(want, url, worlds[i]) <==> !SomeElsewhere(want, url, worlds[0])
  {
    EveryRunReachesTheListing(names, want, url, worlds, mids, anss, i);
    HomeOrElsewhere(want, url, worlds[i]);
    forall n ensures Elsewhere(CellOf(worlds[i], n), want, n, url) <==> Elsewhere(CellOf(worlds[0], n), want, n, url) {
      RunKeepsElsewhere(want, url, worlds, mids, anss, i, n);
    }
  }

  lemma {:induction false} MeasureCounts(names: seq<string>, world: World, want: seq<Workspace>, n: string)
    requires n in names
    ensures Rank(CellOf(world, n), want, n) <= Measure(names, world, want)
  {
    if n != names[0] { MeasureCounts(names[1..], world, want, n); }
  }

  /** Every name is at most six rounds from its goal. */
  lemma {:induction false} MeasureIsBounded(names: seq<string>, world: World, want: seq<Workspace>)
    ensures Measure(names, world, want) <= 6 * |names|
  {
    if names != [] { MeasureIsBounded(names[1..], world, want); }
  }
}
