/** Ownership of a process tree. The kernel's process table changes between any two reads; every
    read is of one process at one moment. */
module Processes {
  import opened Options

  datatype Pid = Pid(number: int)

  datatype Identity = Identity(pid: Pid, start: int)

  datatype Stat = Stat(start: int, parent: Pid, state: char)

  /** One process as a read shows it. */
  datatype Proc = Proc(id: Identity, parent: Pid, state: char)

  /** The table at every moment, and how the process directory lists at every moment. */
  datatype History = History(table: nat -> map<Pid, Stat>, listing: nat -> seq<Pid>)

  function ReadAt(h: History, t: nat, pid: Pid): Option<Proc> {
    var table := h.table(t);
    if pid in table then Some(Proc(Identity(pid, table[pid].start), table[pid].parent, table[pid].state)) else None
  }

  /** The read at `t` shows this very process. */
  predicate Shows(h: History, t: nat, id: Identity) {
    ReadAt(h, t, id.pid).Some? && ReadAt(h, t, id.pid).value.id == id
  }

  predicate Alive(h: History, t: nat, id: Identity) {
    Shows(h, t, id) && ReadAt(h, t, id.pid).value.state != 'Z'
  }

  /** A process is the recorded one while its pid has the same start time; a zombie is not alive. */
  lemma AliveIff(h: History, t: nat, id: Identity)
    ensures Shows(h, t, id) <==> id.pid in h.table(t) && h.table(t)[id.pid].start == id.start
    ensures Alive(h, t, id) <==> Shows(h, t, id) && h.table(t)[id.pid].state != 'Z'
  {
  }

  // ------------------------------------------------------------ what one search sees

  /** The first `n` reads of a directory listing, one after another. */
  function ScanFirst(h: History, t: nat, pids: seq<Pid>, n: nat): (scan: seq<Proc>)
    requires n <= |pids|
  {
    if n == 0 then []
    else
      var r, before := ReadAt(h, t + n - 1, pids[n - 1]), ScanFirst(h, t, pids, n - 1);
      if r.Some? then before + [r.value] else before
  }

  lemma ScanNext(h: History, t: nat, pids: seq<Pid>, n: nat)
    requires n < |pids|
    ensures var r, before := ReadAt(h, t + n, pids[n]), ScanFirst(h, t, pids, n);
      ScanFirst(h, t, pids, n + 1) == if r.Some? then before + [r.value] else before
  {
  }

  function ScanAt(h: History, t: nat): seq<Proc> {
    ScanFirst(h, t + 1, h.listing(t), |h.listing(t)|)
  }

  /** The recorded processes that are still there, each read once, in order. */
  function ActiveAt(h: History, t: nat, roots: seq<Identity>): (pids: seq<Pid>)
  {
    if roots == [] then []
    else
      var n := |roots| - 1;
      var before := ActiveAt(h, t, roots[..n]);
      if Shows(h, t + n, roots[n]) then before + [roots[n].pid] else before
  }

  /** A search starts from exactly the recorded processes whose own read still shows them. */
  lemma {:induction false} ActiveIff(h: History, t: nat, roots: seq<Identity>, pid: Pid)
    ensures pid in ActiveAt(h, t, roots) <==>
      exists i :: 0 <= i < |roots| && roots[i].pid == pid && Shows(h, t + i, roots[i])
  {
    if roots != [] {
      var n := |roots| - 1;
      ActiveIff(h, t, roots[..n], pid);
      assert forall i :: 0 <= i < n ==> roots[..n][i] == roots[i];
    }
  }

  /** It sees exactly what the reads of the listed processes show. */
  lemma {:induction false} ScannedIff(h: History, t: nat, pids: seq<Pid>, n: nat, e: Proc)
    requires n <= |pids|
    ensures e in ScanFirst(h, t, pids, n) <==> exists i :: 0 <= i < n && ReadAt(h, t + i, pids[i]) == Some(e)
  {
    if n > 0 { ScannedIff(h, t, pids, n - 1, e); }
  }

  predicate IsChild(scan: seq<Proc>, parent: Pid, pid: Pid) {
    exists e <- scan :: e.parent == parent && e.id.pid == pid
  }

  ghost predicate IsPath(scan: seq<Proc>, roots: seq<Pid>, path: seq<Pid>) {
    |path| > 0 && path[0] in roots && forall i, j :: 0 <= i < j < |path| && j == i + 1 ==>
        IsChild(scan, path[i], path[j])
  }

  /** Reachable by parent links from one of the roots. */
  ghost predicate Reachable(scan: seq<Proc>, roots: seq<Pid>, pid: Pid) {
    exists path :: IsPath(scan, roots, path) && path[|path| - 1] == pid
  }

  function Pids(found: seq<Proc>): set<Pid> {
    set e <- found :: e.id.pid
  }

  /** Exactly the reachable processes, the roots aside, each once and as it was scanned. */
  ghost predicate AreDescendants(scan: seq<Proc>, roots: seq<Pid>, found: seq<Proc>) {
    && (forall i :: 0 <= i < |found| ==> found[i] in scan)
    && (forall i, j :: 0 <= i < j < |found| ==> found[i].id.pid != found[j].id.pid)
    && (forall pid :: pid in Pids(found) <==> pid !in roots && Reachable(scan, roots, pid))
  }

  /** What a search that begins at a moment has found, from the roots that still match then. */
  ghost predicate FoundFrom(h: History, at: nat, roots: seq<Identity>, found: seq<Proc>) {
    AreDescendants(ScanAt(h, at), ActiveAt(h, at + 1 + |h.listing(at)|, roots), found)
  }

  lemma FoundByThen(h: History, at: nat, roots: seq<Identity>, active: seq<Pid>, found: seq<Proc>)
    requires AreDescendants(ScanAt(h, at), active, found)
    requires active == ActiveAt(h, at + 1 + |h.listing(at)|, roots)
    ensures FoundFrom(h, at, roots, found)
  {
  }

  lemma RootReachable(scan: seq<Proc>, roots: seq<Pid>, pid: Pid)
    requires pid in roots
    ensures Reachable(scan, roots, pid)
  {
    assert IsPath(scan, roots, [pid]) && [pid][|[pid]| - 1] == pid;
  }

  lemma ChildReachable(scan: seq<Proc>, roots: seq<Pid>, parent: Pid, e: Proc)
    requires Reachable(scan, roots, parent) && e in scan && e.parent == parent
    ensures Reachable(scan, roots, e.id.pid)
  {
    var path :| IsPath(scan, roots, path) && path[|path| - 1] == parent;
    var longer := path + [e.id.pid];
    assert forall i :: 0 <= i < |path| ==> longer[i] == path[i];
    assert IsPath(scan, roots, longer) && longer[|longer| - 1] == e.id.pid;
  }

  /** A set that holds the roots and, with every process, its children holds all that is reachable. */
  lemma {:induction false} ClosedHoldsPath(scan: seq<Proc>, roots: seq<Pid>, seen: set<Pid>, path: seq<Pid>)
    requires IsPath(scan, roots, path)
    requires forall pid :: pid in roots ==> pid in seen
    requires forall e :: e in scan && e.parent in seen ==> e.id.pid in seen
    ensures path[|path| - 1] in seen
  {
    if |path| > 1 {
      var init := path[..|path| - 1];
      assert IsPath(scan, roots, init) by {
        forall i, j | 0 <= i < j < |init| && j == i + 1 ensures IsChild(scan, init[i], init[j]) {
          assert IsChild(scan, path[i], path[j]);
        }
      }
      ClosedHoldsPath(scan, roots, seen, init);
      var i, j := |path| - 2, |path| - 1;
      assert path[i] == init[|init| - 1] && path[i] in seen;
      assert IsChild(scan, path[i], path[j]);
      var e :| e in scan && e.parent == path[i] && e.id.pid == path[j];
      assert e.parent in seen;
    } else {
      assert path[0] in seen;
    }
  }

  /** The children of one process, in the order they were scanned. */
  function ChildrenOf(scan: seq<Proc>, parent: Pid): seq<Proc> {
    if scan == [] then []
    else
      var n := |scan| - 1;
      var before := ChildrenOf(scan[..n], parent);
      if scan[n].parent == parent then before + [scan[n]] else before
  }

  lemma {:induction false} InChildren(scan: seq<Proc>, parent: Pid, e: Proc)
    ensures e in ChildrenOf(scan, parent) <==> e in scan && e.parent == parent
  {
    if scan != [] {
      var n := |scan| - 1;
      InChildren(scan[..n], parent, e);
      assert scan == scan[..n] + [scan[n]];
    }
  }

  function Kids(children: map<Pid, seq<Proc>>, parent: Pid): seq<Proc> {
    if parent in children then children[parent] else []
  }

  /** The dictionary groups the scanned processes by parent. */
  ghost predicate Groups(children: map<Pid, seq<Proc>>, scan: seq<Proc>) {
    forall p {:trigger Kids(children, p)} :: Kids(children, p) == ChildrenOf(scan, p)
  }

  lemma GroupsMore(children: map<Pid, seq<Proc>>, scan: seq<Proc>, e: Proc)
    requires Groups(children, scan)
    ensures Groups(children[e.parent := Kids(children, e.parent) + [e]], scan + [e])
  {
    var children' := children[e.parent := Kids(children, e.parent) + [e]];
    forall p ensures Kids(children', p) == ChildrenOf(scan + [e], p) {
      assert (scan + [e])[..|scan|] == scan;
      assert Kids(children, p) == ChildrenOf(scan, p);
    }
  }

  lemma NoneGrouped()
    ensures Groups(map[], [])
  {
  }

  method Grouped(children: map<Pid, seq<Proc>>, ghost scan: seq<Proc>, e: Proc) returns (r: map<Pid, seq<Proc>>)
    requires Groups(children, scan)
    ensures Groups(r, scan + [e])
  {
    GroupsMore(children, scan, e);
    r := children[e.parent := Kids(children, e.parent) + [e]];
  }

  // ------------------------------------------------------------ the reads

  class Kernel {
    const history: History
    var now: nat

    constructor (history: History)
      ensures this.history == history && now == 0
    {
      this.history, now := history, 0;
    }

    method Read(pid: Pid) returns (info: Option<Proc>)
      modifies this
      ensures info == ReadAt(history, old(now), pid) && now == old(now) + 1
    {
      info := ReadAt(history, now, pid);
      now := now + 1;
    }

    method List() returns (pids: seq<Pid>)
      modifies this
      ensures pids == history.listing(old(now)) && now == old(now) + 1
    {
      pids := history.listing(now);
      now := now + 1;
    }

    /** The whole table, grouped by parent. */
    method Scan() returns (children: map<Pid, seq<Proc>>)
      modifies this
      ensures now == old(now) + 1 + |history.listing(old(now))|
      ensures Groups(children, ScanAt(history, old(now)))
    {
      var pids := List();
      children := ReadAll(pids);
    }

    method ReadAll(pids: seq<Pid>) returns (children: map<Pid, seq<Proc>>)
      modifies this
      ensures now == old(now) + |pids| && Groups(children, ScanFirst(history, old(now), pids, |pids|))
    {
      children := map[];
      var i := 0;
      ghost var t, scan: seq<Proc> := now, [];
      NoneGrouped();
      while i < |pids|
        invariant 0 <= i <= |pids| && now == t + i
        invariant scan == ScanFirst(history, t, pids, i) && Groups(children, scan)
      {
        var info := Read(pids[i]);
        ScanNext(history, t, pids, i);
        if info.Some? {
          children := Grouped(children, scan, info.value);
          scan := scan + [info.value];
        }
        i := i + 1;
      }
    }

    method Active(roots: seq<Identity>) returns (active: seq<Pid>)
      modifies this
      ensures active == ActiveAt(history, old(now), roots) && now == old(now) + |roots|
    {
      active := [];
      var i := 0;
      while i < |roots|
        invariant 0 <= i <= |roots| && now == old(now) + i
        invariant active == ActiveAt(history, old(now), roots[..i])
      {
        assert roots[..i + 1][..i] == roots[..i];
        var info := Read(roots[i].pid);
        if info.Some? && info.value.id == roots[i] { active := active + [roots[i].pid]; }
        i := i + 1;
      }
      assert roots[..i] == roots;
    }

    /** `_linux_descendants`: the worklist finds exactly what is reachable from the roots that still
        match, without these. */
    method Descendants(roots: seq<Identity>) returns (found: seq<Proc>)
      modifies this
      ensures roots == [] ==> found == [] && now == old(now)
      ensures roots != [] ==> now == old(now) + 1 + |history.listing(old(now))| + |roots|
      ensures roots != [] ==> FoundFrom(history, old(now), roots, found)
    {
      if |roots| == 0 { return []; }
      ghost var start := now;
      var children := Scan();
      ghost var t := now;
      var active := Active(roots);
      found := Worklist(ScanAt(history, start), children, active);
      assert active == ActiveAt(history, t, roots) && t == start + 1 + |history.listing(start)|;
      FoundByThen(history, start, roots, active, found);
    }
  }

  predicate Within(found: seq<Proc>, scan: seq<Proc>) {
    && (forall i :: 0 <= i < |found| ==> found[i] in scan)
    && (forall i, j :: 0 <= i < j < |found| ==> found[i].id.pid != found[j].id.pid)
  }

  /** The state of the search: what was found is reachable, and the children of everything that is
      no longer waiting were found. `busy` is the process whose children are being visited. */
  ghost predicate Searching(scan: seq<Proc>, active: seq<Pid>, seen: set<Pid>, found: seq<Proc>, pending: seq<Pid>,
                            busy: Option<Pid>) {
    && Within(found, scan)
    && (forall p :: p in seen <==> p in active || p in Pids(found))
    && (forall p :: p in active ==> p !in Pids(found))
    && (forall p :: p in pending ==> p in seen)
    && (forall p {:trigger Reachable(scan, active, p)} :: p in seen ==> Reachable(scan, active, p))
    && (forall e :: e in scan && e.parent in seen && e.parent !in pending && busy != Some(e.parent) ==>
          e.id.pid in seen)
  }

  /** How many scanned processes were not found yet. */
  function Left(scan: seq<Proc>, found: seq<Proc>): nat {
    |Pids(scan) - Pids(found)|
  }

  lemma OneLess(scan: seq<Proc>, found: seq<Proc>, e: Proc)
    requires e in scan && e.id.pid !in Pids(found)
    ensures Pids(found + [e]) == Pids(found) + {e.id.pid} && Left(scan, found + [e]) == Left(scan, found) - 1
  {
    assert Pids(found + [e]) == Pids(found) + {e.id.pid};
    assert e.id.pid in Pids(scan) - Pids(found);
    assert Pids(scan) - Pids(found + [e]) == (Pids(scan) - Pids(found)) - {e.id.pid};
  }

  lemma FoundOne(scan: seq<Proc>, active: seq<Pid>, seen: set<Pid>, found: seq<Proc>, pending: seq<Pid>, busy: Pid,
                 e: Proc)
    requires Searching(scan, active, seen, found, pending, Some(busy)) && busy in seen
    requires e in scan && e.parent == busy && e.id.pid !in seen
    ensures Searching(scan, active, seen + {e.id.pid}, found + [e], pending + [e.id.pid], Some(busy))
    ensures Left(scan, found + [e]) == Left(scan, found) - 1
  {
    ChildReachable(scan, active, busy, e);
    OneLess(scan, found, e);
    assert e.id.pid !in active;
    WithinOne(scan, found, e);
    StillClosed(scan, seen, pending, busy, e.id.pid);
    assert forall p :: p in pending + [e.id.pid] ==> p in pending || p == e.id.pid;
  }

  lemma WithinOne(scan: seq<Proc>, found: seq<Proc>, e: Proc)
    requires Within(found, scan) && e in scan && e.id.pid !in Pids(found)
    ensures Within(found + [e], scan)
  {
    forall i | 0 <= i < |found|
      ensures found[i].id.pid != e.id.pid { assert found[i] in found && found[i].id.pid in Pids(found); }
  }

  lemma StillClosed(scan: seq<Proc>, seen: set<Pid>, pending: seq<Pid>, busy: Pid, pid: Pid)
    requires forall x :: x in scan && x.parent in seen && x.parent !in pending && busy != x.parent ==> x.id.pid in seen
    ensures forall x :: x in scan && x.parent in seen + {pid} && x.parent !in pending + [pid] && busy != x.parent
              ==> x.id.pid in seen + {pid}
  {
    assert (pending + [pid])[|pending|] == pid;
    assert forall p :: p in pending ==> p in pending + [pid];
  }

  lemma SearchEnds(scan: seq<Proc>, active: seq<Pid>, seen: set<Pid>, found: seq<Proc>)
    requires Searching(scan, active, seen, found, [], None)
    ensures AreDescendants(scan, active, found)
  {
    forall pid | pid !in active && Reachable(scan, active, pid) ensures pid in Pids(found) {
      var path :| IsPath(scan, active, path) && path[|path| - 1] == pid;
      ClosedHoldsPath(scan, active, seen, path);
    }
  }

  lemma Popped(scan: seq<Proc>, active: seq<Pid>, seen: set<Pid>, found: seq<Proc>, pending: seq<Pid>)
    requires Searching(scan, active, seen, found, pending, None) && pending != []
    ensures var parent := pending[|pending| - 1];
      parent in seen && Searching(scan, active, seen, found, pending[..|pending| - 1], Some(parent))
  {
    var parent, rest := pending[|pending| - 1], pending[..|pending| - 1];
    assert parent in pending;
    assert forall p :: p in pending ==> p in rest || p == parent;
  }

  lemma AllVisited(scan: seq<Proc>, active: seq<Pid>, seen: set<Pid>, found: seq<Proc>, pending: seq<Pid>, parent: Pid)
    requires Searching(scan, active, seen, found, pending, Some(parent))
    requires AllSeen(ChildrenOf(scan, parent), |ChildrenOf(scan, parent)|, seen)
    ensures Searching(scan, active, seen, found, pending, None)
  {
    forall x | x in scan && x.parent == parent ensures x.id.pid in seen { InChildren(scan, parent, x); }
  }

  /** The children of one process join what was seen. */
  method VisitKids(ghost scan: seq<Proc>, active: seq<Pid>, kids: seq<Proc>, parent: Pid,
                   seen0: set<Pid>, found0: seq<Proc>, pending0: seq<Pid>)
    returns (seen: set<Pid>, found: seq<Proc>, pending: seq<Pid>)
    requires kids == ChildrenOf(scan, parent) && parent in seen0
    requires Searching(scan, active, seen0, found0, pending0, Some(parent))
    ensures Searching(scan, active, seen, found, pending, None)
    ensures 2 * Left(scan, found) + |pending| <= 2 * Left(scan, found0) + |pending0|
  {
    seen, found, pending := seen0, found0, pending0;
    var i := 0;
    while i < |kids|
      invariant 0 <= i <= |kids| && parent in seen
      invariant Searching(scan, active, seen, found, pending, Some(parent))
      invariant AllSeen(kids, i, seen)
      invariant 2 * Left(scan, found) + |pending| <= 2 * Left(scan, found0) + |pending0|
    {
      InChildren(scan, parent, kids[i]);
      seen, found, pending := VisitKid(scan, active, kids[i], parent, seen, found, pending);
      i := i + 1;
    }
    AllVisited(scan, active, seen, found, pending, parent);
  }

  predicate AllSeen(kids: seq<Proc>, n: nat, seen: set<Pid>)
    requires n <= |kids|
  {
    forall j :: 0 <= j < n ==> kids[j].id.pid in seen
  }

  method VisitKid(ghost scan: seq<Proc>, active: seq<Pid>, e: Proc, parent: Pid,
                  seen0: set<Pid>, found0: seq<Proc>, pending0: seq<Pid>)
    returns (seen: set<Pid>, found: seq<Proc>, pending: seq<Pid>)
    requires e in scan && e.parent == parent && parent in seen0
    requires Searching(scan, active, seen0, found0, pending0, Some(parent))
    ensures Searching(scan, active, seen, found, pending, Some(parent)) && seen0 <= seen && e.id.pid in seen
    ensures 2 * Left(scan, found) + |pending| <= 2 * Left(scan, found0) + |pending0|
  {
    if e.id.pid in seen0 { return seen0, found0, pending0; }
    FoundOne(scan, active, seen0, found0, pending0, parent, e);
    return seen0 + {e.id.pid}, found0 + [e], pending0 + [e.id.pid];
  }

  method Worklist(ghost scan: seq<Proc>, children: map<Pid, seq<Proc>>, active: seq<Pid>) returns (found: seq<Proc>)
    requires Groups(children, scan)
    ensures AreDescendants(scan, active, found)
  {
    var pending, seen := active, set p <- active;
    found := [];
    forall p | p in active ensures Reachable(scan, active, p) { RootReachable(scan, active, p); }
    while |pending| > 0
      invariant Searching(scan, active, seen, found, pending, None)
      decreases 2 * Left(scan, found) + |pending|
    {
      var parent := pending[|pending| - 1];
      Popped(scan, active, seen, found, pending);
      assert Kids(children, parent) == ChildrenOf(scan, parent);
      seen, found, pending :=
        VisitKids(scan, active, Kids(children, parent), parent, seen, found, pending[..|pending| - 1]);
    }
    SearchEnds(scan, active, seen, found);
  }

  // ------------------------------------------------------------ ownership

  datatype Signal = Terminate | Kill

  /** A signal, the identity it was meant for, and the moment of the read before it. */
  datatype Sent = Sent(id: Identity, signal: Signal, at: nat)

  predicate HasPid(owned: seq<Identity>, pid: Pid) {
    exists id <- owned :: id.pid == pid
  }

  /** `setdefault` for every found process: a pid that is recorded keeps its identity. */
  function Absorb(owned: seq<Identity>, found: seq<Proc>): (r: seq<Identity>)
    ensures owned <= r
  {
    if found == [] then owned
    else
      var before := Absorb(owned, found[..|found| - 1]);
      var e := found[|found| - 1];
      if HasPid(before, e.id.pid) then before else before + [e.id]
  }

  lemma AbsorbNext(owned: seq<Identity>, found: seq<Proc>, i: nat)
    requires i < |found|
    ensures var before := Absorb(owned, found[..i]);
      Absorb(owned, found[..i + 1]) == if HasPid(before, found[i].id.pid) then before else before + [found[i].id]
  {
    assert found[..i + 1][..i] == found[..i];
  }

  ghost predicate DistinctPids(found: seq<Proc>) {
    forall i, j :: 0 <= i < j < |found| ==> found[i].id.pid != found[j].id.pid
  }

  /** After a refresh every descendant's pid is recorded: under its own identity, unless the pid was
      recorded before, which keeps the older one. */
  lemma {:induction false} EveryDescendantIsRecorded(owned: seq<Identity>, found: seq<Proc>, e: Proc)
    requires DistinctPids(found) && e in found
    ensures HasPid(Absorb(owned, found), e.id.pid)
    ensures e.id in Absorb(owned, found) <==> e.id in owned || !HasPid(owned, e.id.pid)
  {
    var n := |found| - 1;
    var before := Absorb(owned, found[..n]);
    assert found == found[..n] + [found[n]];
    if e == found[n] {
      OthersKeepApart(owned, found[..n], e.id);
    } else {
      assert e in found[..n];
      EveryDescendantIsRecorded(owned, found[..n], e);
    }
  }

  lemma {:induction false} OthersKeepApart(owned: seq<Identity>, found: seq<Proc>, id: Identity)
    requires forall x :: x in found ==> x.id.pid != id.pid
    ensures HasPid(Absorb(owned, found), id.pid) <==> HasPid(owned, id.pid)
    ensures id in Absorb(owned, found) <==> id in owned
  {
    if found != [] {
      var n := |found| - 1;
      assert found[n] in found;
      OthersKeepApart(owned, found[..n], id);
    }
  }

  /** The recorded processes that are alive, each read once, in order. */
  function LiveAt(h: History, t: nat, owned: seq<Identity>): seq<Identity> {
    if owned == [] then []
    else
      var n := |owned| - 1;
      var before := LiveAt(h, t, owned[..n]);
      if Alive(h, t + n, owned[n]) then before + [owned[n]] else before
  }

  lemma {:induction false} NoneLive(h: History, t: nat, owned: seq<Identity>)
    ensures LiveAt(h, t, owned) == [] <==> forall i :: 0 <= i < |owned| ==> !Alive(h, t + i, owned[i])
  {
    if owned != [] {
      var n := |owned| - 1;
      NoneLive(h, t, owned[..n]);
      assert forall i :: 0 <= i < n ==> owned[..n][i] == owned[i];
    }
  }

  /** One signal for every recorded process that is alive when it is read, in order, and no other. */
  function SignalsFrom(h: History, t: nat, owned: seq<Identity>, signal: Signal): seq<Sent> {
    if owned == [] then []
    else
      var n := |owned| - 1;
      var before := SignalsFrom(h, t, owned[..n], signal);
      if Alive(h, t + n, owned[n]) then before + [Sent(owned[n], signal, t + n)] else before
  }

  /** Every recorded process that is alive at its own read gets the signal, and only those do. */
  lemma {:induction false} SignalledIff(h: History, t: nat, owned: seq<Identity>, signal: Signal, x: Sent)
    ensures x in SignalsFrom(h, t, owned, signal) <==>
      exists i :: 0 <= i < |owned| && x == Sent(owned[i], signal, t + i) && Alive(h, t + i, owned[i])
  {
    if owned != [] {
      var n := |owned| - 1;
      SignalledIff(h, t, owned[..n], signal, x);
      assert forall i :: 0 <= i < n ==> owned[..n][i] == owned[i];
    }
  }

  /** In the order of the reads, so none is signalled twice. */
  lemma {:induction false} SignalledInOrder(h: History, t: nat, owned: seq<Identity>, signal: Signal)
    ensures forall x :: x in SignalsFrom(h, t, owned, signal) ==> t <= x.at < t + |owned|
    ensures forall i, j :: 0 <= i < j < |SignalsFrom(h, t, owned, signal)| ==>
              SignalsFrom(h, t, owned, signal)[i].at < SignalsFrom(h, t, owned, signal)[j].at
  {
    if owned != [] {
      var n := |owned| - 1;
      var before := SignalsFrom(h, t, owned[..n], signal);
      SignalledInOrder(h, t, owned[..n], signal);
      assert forall i :: 0 <= i < |before| ==> before[i] in before;
    }
  }

  // ------------------------------------------------------------ searches between the signals

  /** One search for descendants: when it began, and what it found. */
  datatype Search = Search(at: nat, found: seq<Proc>)

  /** What the search finds from these roots; without any it is left out. */
  ghost predicate Finds(h: History, s: Search, roots: seq<Identity>) {
    if roots == [] then s.found == [] else FoundFrom(h, s.at, roots, s.found)
  }

  /** What is recorded after some searches. */
  function Grown(owned: seq<Identity>, searches: seq<Search>): (r: seq<Identity>)
    ensures owned <= r
  {
    if searches == [] then owned
    else Absorb(Grown(owned, searches[..|searches| - 1]), searches[|searches| - 1].found)
  }

  /** One after the other, each from what was recorded by then. */
  ghost predicate Searched(h: History, t: nat, owned: seq<Identity>, searches: seq<Search>) {
    && (forall i :: 0 <= i < |searches| ==>
          t <= searches[i].at && Finds(h, searches[i], Grown(owned, searches[..i])))
    && (forall i, j :: 0 <= i < j < |searches| ==> searches[i].at <= searches[j].at)
  }

  lemma OneMoreSearch(h: History, t: nat, owned: seq<Identity>, searches: seq<Search>, s: Search)
    requires Searched(h, t, owned, searches) && Finds(h, s, Grown(owned, searches)) && t <= s.at
    requires forall i :: 0 <= i < |searches| ==> searches[i].at <= s.at
    ensures Searched(h, t, owned, searches + [s])
    ensures Grown(owned, searches + [s]) == Absorb(Grown(owned, searches), s.found)
  {
    var all := searches + [s];
    assert all[..|searches|] == searches;
    forall i | 0 <= i < |all| ensures t <= all[i].at && Finds(h, all[i], Grown(owned, all[..i])) {
      assert i < |searches| ==> all[..i] == searches[..i] && all[i] == searches[i];
    }
  }

  /** One round of signals: when it began, to whom, and the searches made in its window. */
  datatype Round = Round(at: nat, owned: seq<Identity>, searches: seq<Search>)

  function SignalsOf(h: History, r: Option<Round>, signal: Signal): seq<Sent> {
    if r.Some? then SignalsFrom(h, r.value.at, r.value.owned, signal) else []
  }

  /** What is known after a round, if there is one. */
  function Known(owned: seq<Identity>, r: Option<Round>): seq<Identity> {
    if r.Some? then Grown(owned, r.value.searches) else owned
  }

  /** The signals go to everything known at that moment; the searches come after them. */
  ghost predicate Signalling(h: History, t: nat, owned: seq<Identity>, r: Option<Round>) {
    r.Some? ==>
      r.value.owned == owned && t <= r.value.at
      && Searched(h, r.value.at + |owned|, owned, r.value.searches)
  }

  /** The first moment after the signals of a round. */
  function AfterSignals(t: nat, r: Option<Round>): nat {
    if r.Some? then r.value.at + |r.value.owned| else t
  }

  class OwnedProcessGroup {
    const kernel: Kernel
    var owned: seq<Identity>
    var sent: seq<Sent>

    constructor (kernel: Kernel, leader: Pid)
      modifies kernel
      ensures this.kernel == kernel && sent == []
      ensures owned == var r := ReadAt(kernel.history, old(kernel.now), leader); if r.Some? then [r.value.id] else []
    {
      this.kernel, sent, owned := kernel, [], [];
      new;
      var info := kernel.Read(leader);
      if info.Some? { owned := [info.value.id]; }
    }

    /** Records every descendant of the recorded processes that still match. Nothing is forgotten. */
    method Refresh() returns (ghost found: seq<Proc>)
      modifies this`owned, kernel
      ensures old(owned) == [] ==> found == [] && kernel.now == old(kernel.now)
      ensures owned == Absorb(old(owned), found) && kernel.now >= old(kernel.now)
      ensures old(owned) != [] ==> FoundFrom(kernel.history, old(kernel.now), old(owned), found)
    {
      if |owned| == 0 { return []; }
      var descendants := kernel.Descendants(owned);
      found := descendants;
      AbsorbFound(descendants);
    }

    /** `setdefault` for each of them. */
    method AbsorbFound(found: seq<Proc>)
      modifies this`owned
      ensures owned == Absorb(old(owned), found)
    {
      var i := 0;
      assert found[..0] == [];
      while i < |found|
        invariant 0 <= i <= |found| && owned == Absorb(old(owned), found[..i])
      {
        AbsorbNext(old(owned), found, i);
        if !HasPid(owned, found[i].id.pid) { owned := owned + [found[i].id]; }
        i := i + 1;
      }
      assert found[..i] == found;
    }

    method Live() returns (live: seq<Identity>)
      modifies kernel
      ensures live == LiveAt(kernel.history, old(kernel.now), owned) && kernel.now == old(kernel.now) + |owned|
    {
      live := [];
      var i := 0;
      while i < |owned|
        invariant 0 <= i <= |owned| && kernel.now == old(kernel.now) + i
        invariant live == LiveAt(kernel.history, old(kernel.now), owned[..i])
      {
        assert owned[..i + 1][..i] == owned[..i];
        var info := kernel.Read(owned[i].pid);
        if info.Some? && info.value.id == owned[i] && info.value.state != 'Z' { live := live + [owned[i]]; }
        i := i + 1;
      }
      assert owned[..i] == owned;
    }

    /** Every recorded process that is alive when it is read gets the signal, in order, and no other. */
    method Signalled(signal: Signal)
      modifies this`sent, kernel
      ensures kernel.now == old(kernel.now) + |owned|
      ensures sent == old(sent) + SignalsFrom(kernel.history, old(kernel.now), owned, signal)
    {
      var i := 0;
      while i < |owned|
        invariant 0 <= i <= |owned| && kernel.now == old(kernel.now) + i
        invariant sent == old(sent) + SignalsFrom(kernel.history, old(kernel.now), owned[..i], signal)
      {
        assert owned[..i + 1][..i] == owned[..i];
        var at := kernel.now;
        var info := kernel.Read(owned[i].pid);
        if info.Some? && info.value.id == owned[i] && info.value.state != 'Z' {
          sent := sent + [Sent(owned[i], signal, at)];
        }
        i := i + 1;
      }
      assert owned[..i] == owned;
    }

    /** Nothing but searches since `t`. */
    ghost predicate Since(t: nat, known: seq<Identity>, searches: seq<Search>)
      reads this, kernel
    {
      && Searched(kernel.history, t, known, searches) && owned == Grown(known, searches) && t <= kernel.now
      && forall i :: 0 <= i < |searches| ==> searches[i].at <= kernel.now
    }

    /** One refresh and one look. */
    method SearchAndLook(ghost t: nat, ghost known: seq<Identity>, ghost before: seq<Search>)
      returns (gone: bool, ghost searches: seq<Search>)
      requires Since(t, known, before)
      modifies this`owned, kernel
      ensures Since(t, known, searches) && |searches| == |before| + 1 && before <= searches
      ensures kernel.now >= old(kernel.now) && (gone <==> SeenGone())
    {
      ghost var at := kernel.now;
      ghost var found := Refresh();
      OneMoreSearch(kernel.history, t, known, before, Search(at, found));
      searches := before + [Search(at, found)];
      gone := Look();
    }

    /** A refresh and a look, as often as the window allows. */
    method Poll(rounds: nat) returns (gone: bool, ghost searches: seq<Search>)
      modifies this`owned, kernel
      ensures Since(old(kernel.now), old(owned), searches)
      ensures |searches| <= rounds && (!gone ==> |searches| == rounds)
      ensures gone ==> SeenGone()
    {
      var i := 0;
      ghost var t, known := kernel.now, owned;
      gone, searches := false, [];
      while i < rounds
        invariant 0 <= i <= rounds && |searches| == i && Since(t, known, searches)
      {
        gone, searches := SearchAndLook(t, known, searches);
        if gone { return; }
        i := i + 1;
      }
    }

    method Look() returns (gone: bool)
      modifies kernel
      ensures kernel.now >= old(kernel.now) && (gone <==> SeenGone())
    {
      ghost var t := kernel.now;
      var live := Live();
      gone := |live| == 0;
      NoneLive(kernel.history, t, owned);
      assert kernel.now - |owned| == t;
    }

    /** The last reads were one of every recorded process, and none showed it alive. */
    ghost predicate SeenGone()
      reads this, kernel
    {
      && |owned| <= kernel.now
      && forall i :: 0 <= i < |owned| ==> !Alive(kernel.history, kernel.now - |owned| + i, owned[i])
    }

    /** A round of signals, and the looks that its window allows. */
    method SignalAndPoll(signal: Signal, rounds: nat) returns (gone: bool, ghost round: Round)
      modifies this, kernel
      ensures round.at == old(kernel.now) && Signalling(kernel.history, round.at, old(owned), Some(round))
      ensures Since(round.at + |old(owned)|, old(owned), round.searches)
      ensures |round.searches| <= rounds && (!gone ==> |round.searches| == rounds)
      ensures sent == old(sent) + SignalsFrom(kernel.history, round.at, round.owned, signal)
      ensures kernel.now >= round.at + |round.owned| && (gone ==> SeenGone())
    {
      ghost var at, before := kernel.now, owned;
      Signalled(signal);
      ghost var searches;
      gone, searches := Poll(rounds);
      round := Round(at, before, searches);
    }

    /** The grace phase, unless it is skipped. */
    method Terminating(force: bool, rounds: nat) returns (gone: bool, ghost term: Option<Round>)
      modifies this, kernel
      ensures term.None? <==> force
      ensures Signalling(kernel.history, old(kernel.now), old(owned), term) && owned == Known(old(owned), term)
      ensures sent == old(sent) + SignalsOf(kernel.history, term, Terminate)
      ensures kernel.now >= AfterSignals(old(kernel.now), term)
      ensures (gone ==> SeenGone()) && (force ==> !gone)
      ensures !gone && !force ==> |term.value.searches| == rounds
    {
      gone, term := false, None;
      if !force {
        ghost var round;
        gone, round := SignalAndPoll(Terminate, rounds);
        term := Some(round);
      }
    }

    /** The kill, and after its window one more search and look. */
    method Killing(rounds: nat) returns (confirmed: bool, ghost kill: Option<Round>)
      modifies this, kernel
      ensures kill.Some? && Signalling(kernel.history, old(kernel.now), old(owned), kill)
      ensures owned == Known(old(owned), kill)
      ensures sent == old(sent) + SignalsOf(kernel.history, kill, Kill)
      ensures confirmed <==> SeenGone()
      ensures |kill.value.searches| <= rounds + 1 && (!confirmed ==> |kill.value.searches| == rounds + 1)
    {
      ghost var known := owned;
      ghost var round;
      confirmed, round := SignalAndPoll(Kill, rounds);
      if !confirmed {
        ghost var searches;
        confirmed, searches := SearchAndLook(round.at + |known|, known, round.searches);
        round := round.(searches := searches);
      }
      kill := Some(round);
    }

    /** `kill_and_confirm` where there is a process directory: true exactly when no recorded process
        was alive at its last observation. `termRounds` and `killRounds` are how often the two
        windows allow another look. */
    method KillAndConfirm(force: bool, termRounds: nat, killRounds: nat)
      returns (confirmed: bool, ghost found: seq<Proc>, ghost term: Option<Round>, ghost kill: Option<Round>)
      modifies this, kernel
      ensures confirmed <==> SeenGone()
      ensures Finds(kernel.history, Search(old(kernel.now), found), old(owned))
      ensures Signalling(kernel.history, old(kernel.now), Absorb(old(owned), found), term)
      ensures Signalling(kernel.history, AfterSignals(old(kernel.now), term),
                         Known(Absorb(old(owned), found), term), kill)
      ensures owned == Known(Known(Absorb(old(owned), found), term), kill)
      ensures sent == old(sent) + SignalsOf(kernel.history, term, Terminate) + SignalsOf(kernel.history, kill, Kill)
      ensures (force ==> term.None?) && (kill.None? ==> confirmed) && (!force && term.None? ==> confirmed)
      ensures term.Some? && kill.Some? ==> |term.value.searches| == termRounds
      ensures !confirmed ==> |kill.value.searches| == killRounds + 1
    {
      found := Refresh();
      term, kill := None, None;
      ghost var h, before := kernel.history, sent;
      confirmed := Look();
      if confirmed { NothingSent(before); return; }
      confirmed, term := Terminating(force, termRounds);
      assert sent == before + SignalsOf(h, term, Terminate);
      if confirmed { NothingSent(sent); return; }
      confirmed, kill := Killing(killRounds);
    }
  }

  lemma NothingSent(sent: seq<Sent>)
    ensures sent + [] == sent
  {
  }
}
