/** Busy periods form a laminar family, closed periods are final, and settlements map
    invocations injectively to closed periods that contain their own delivery. */
module OpencodePeriods {
  import opened Options
  import opened OpencodeModel

  /** Two periods of the family, the first started earlier: apart, or the second inside. */
  predicate ApartOrInside(p: Period, q: Period) {
    && p.start < q.start
    && (p.end.Some? ==> p.end.value < q.start || (q.end.Some? && q.end.value < p.end.value))
  }

  ghost predicate Laminar(busy: seq<Period>) {
    forall i, j :: 0 <= i < j < |busy| ==> ApartOrInside(busy[i], busy[j])
  }

  predicate PeriodInv(p: Period, last: int) {
    && p.start <= last
    && (p.end.Some? <==> p.outcome.Some?)
    && (p.end.Some? ==> p.start < p.end.value <= last)
    && (p.end.None? ==> !p.used && p.result.None? && p.error.None?)
  }

  ghost predicate BusyInv(busy: seq<Period>, last: int) {
    Laminar(busy) && forall i :: 0 <= i < |busy| ==> PeriodInv(busy[i], last)
  }

  /** The new family keeps every period; a closed one may at most become used. */
  ghost predicate ClosedKept(busy: seq<Period>, busy': seq<Period>) {
    && |busy| <= |busy'|
    && forall i :: 0 <= i < |busy| && busy[i].end.Some? ==>
         busy'[i] == busy[i].(used := busy'[i].used) && (busy[i].used ==> busy'[i].used)
  }

  lemma OnOpenKeepsFrame(p: Period, k: Kind, d: Data)
    ensures var q := OnOpen(p, k, d);
      q.start == p.start && q.end == p.end && q.outcome == p.outcome && q.error == p.error
      && q.used == p.used && q.result == p.result
  {
  }

  lemma DurableKeepsBusy(busy: seq<Period>, last: int, sid: string, k: Kind, d: Data, at: int)
    requires BusyInv(busy, last) && last < at
    ensures BusyInv(ApplyDurable(busy, sid, k, d, at), at)
    ensures ClosedKept(busy, ApplyDurable(busy, sid, k, d, at))
  {
    var top := TopOpen(busy);
    if !k.ExecutionStarted? && top.Some? {
      OnOpenKeepsFrame(busy[top.value], k, d);
    }
  }

  // ------------------------------------------------------------ settlements

  /** An invocation that a period settled: the period is closed, taken, contains the delivery
      of this invocation and determines what was reported. */
  ghost predicate SettlementInv(busy: seq<Period>, v: Inv) {
    && (!v.settled ==> v.period.None?)
    && (v.period.Some? ==>
          && v.period.value < |busy| && v.deliveredSeq.Some? && v.inputId.Some?
          && var p := busy[v.period.value];
             p.used && Covers(p, v.deliveredSeq.value)
             && v.result == p.result && v.usage == UsageRecord(UsageFor(p, v.inputId))
             && (p.outcome == Some(v.outcome) || v.outcome == Cancelled)
             && (p.error.Some? ==> v.error == p.error))
  }

  ghost predicate InvsInv(busy: seq<Period>, invs: seq<Inv>) {
    && (forall i :: 0 <= i < |invs| ==> SettlementInv(busy, invs[i]))
    && (forall i :: 0 <= i < |invs| && invs[i].inputId.None? ==> !invs[i].delivered)
    && (forall i, j :: 0 <= i < j < |invs| && invs[i].period.Some? ==> invs[i].period != invs[j].period)
  }

  ghost predicate SessionInv(s: Session) {
    && BusyInv(s.busy, s.lastSeq)
    && InvsInv(s.busy, s.invs)
    && (forall i :: 0 <= i < |s.invs| ==> s.invs[i].baseline <= |s.log|)
  }

  lemma ClosedKeptSettles(busy: seq<Period>, busy': seq<Period>, v: Inv)
    requires ClosedKept(busy, busy') && SettlementInv(busy, v)
    ensures SettlementInv(busy', v)
  {
    if v.period.Some? {
      var p, p' := busy[v.period.value], busy'[v.period.value];
      assert p' == p.(used := p'.used);
      SameUsage(p.compactions, p, p', v.inputId, p.usage);
    }
  }

  lemma {:induction false} SameUsage(cs: seq<Compaction>, p: Period, q: Period, id: Option<string>, u: Usage)
    requires p.delivered == q.delivered
    ensures AddCompactions(u, cs, p, id) == AddCompactions(u, cs, q, id)
  {
    if cs != [] { SameUsage(cs[..|cs| - 1], p, q, id, u); }
  }

  lemma MarkUsedKeeps(busy: seq<Period>, last: int, p: nat)
    requires BusyInv(busy, last) && p < |busy| && busy[p].end.Some?
    ensures BusyInv(busy[p := busy[p].(used := true)], last)
    ensures ClosedKept(busy, busy[p := busy[p].(used := true)])
  {
  }

  lemma ClosedKeptTransitive(a: seq<Period>, b: seq<Period>, c: seq<Period>)
    requires ClosedKept(a, b) && ClosedKept(b, c)
    ensures ClosedKept(a, c)
  {
    forall i | 0 <= i < |a| && a[i].end.Some?
      ensures c[i] == a[i].(used := c[i].used) && (a[i].used ==> c[i].used)
    {
      assert b[i].end.Some?;
    }
  }

  /** One round of `_resolve_pending`: no two invocations take the same period, because a period
      is taken only while it is unused. */
  lemma ResolveOneKeeps(busy: seq<Period>, last: int, invs: seq<Inv>, i: nat)
    requires BusyInv(busy, last) && InvsInv(busy, invs) && i < |invs|
    ensures var (busy', v) := ResolveOne(busy, invs[i]);
      BusyInv(busy', last) && ClosedKept(busy, busy') && InvsInv(busy', invs[i := v])
  {
    var v := invs[i];
    if Awaiting(v) && Settling(busy, v.deliveredSeq.value).Some? {
      var p := Settling(busy, v.deliveredSeq.value).value;
      var busy' := busy[p := busy[p].(used := true)];
      MarkUsedKeeps(busy, last, p);
      SameUsage(busy[p].compactions, busy[p], busy'[p], v.inputId, busy[p].usage);
      forall j | 0 <= j < |invs| && j != i
        ensures SettlementInv(busy', invs[j]) && invs[j].period != Some(p)
      {
        ClosedKeptSettles(busy, busy', invs[j]);
      }
    }
  }

  lemma {:induction false} ResolveKeeps(busy: seq<Period>, last: int, invs: seq<Inv>, n: nat)
    requires BusyInv(busy, last) && InvsInv(busy, invs) && n <= |invs|
    ensures var (busy', invs') := Resolve(busy, invs, n);
      BusyInv(busy', last) && ClosedKept(busy, busy') && InvsInv(busy', invs')
  {
    if n > 0 {
      ResolveKeeps(busy, last, invs, n - 1);
      var before := Resolve(busy, invs, n - 1);
      ResolveNextKeeps(busy, before.0, last, before.1, n - 1);
      ResolveStep(busy, invs, n);
    }
  }

  lemma ResolveStep(busy: seq<Period>, invs: seq<Inv>, n: nat)
    requires 0 < n <= |invs|
    ensures var before := Resolve(busy, invs, n - 1);
      var one := ResolveOne(before.0, before.1[n - 1]);
      Resolve(busy, invs, n) == (one.0, before.1[n - 1 := one.1])
  {
  }

  lemma ResolveNextKeeps(busy: seq<Period>, b: seq<Period>, last: int, invs: seq<Inv>, i: nat)
    requires BusyInv(b, last) && ClosedKept(busy, b) && InvsInv(b, invs) && i < |invs|
    ensures var (b1, v) := ResolveOne(b, invs[i]);
      BusyInv(b1, last) && ClosedKept(busy, b1) && InvsInv(b1, invs[i := v])
  {
    ResolveOneKeeps(b, last, invs, i);
    ClosedKeptTransitive(busy, b, ResolveOne(b, invs[i]).0);
  }

  lemma {:induction false} ReplayKeeps(busy: seq<Period>, v: Inv, sid: string, log: seq<(Event, bool)>)
    requires SettlementInv(busy, v) && v.inputId.Some?
    ensures var v' := Replay(v, sid, log);
      SettlementInv(busy, v') && v'.inputId == v.inputId && v'.period == v.period && v'.settled == v.settled
      && v'.baseline == v.baseline
  {
    if log != [] { ReplayKeeps(busy, v, sid, log[..|log| - 1]); }
  }

  lemma FoldKeeps(s: Session, e: Event)
    requires SessionInv(s) && Accepts(s, e)
    ensures SessionInv(Fold(s, e)) && ClosedKept(s.busy, Fold(s, e).busy)
  {
    var s' := Fold(s, e);
    if e.durable.Some? {
      DurableKeepsBusy(s.busy, s.lastSeq, s.sid, e.kind, e.data, e.durable.value.seq_);
    }
    forall i | 0 <= i < |s.invs|
      ensures SettlementInv(s'.busy, s'.invs[i]) && s'.invs[i].period == s.invs[i].period
    {
      ClosedKeptSettles(s.busy, s'.busy, s.invs[i]);
    }
  }

  lemma ResolvePendingKeeps(s: Session)
    requires SessionInv(s)
    ensures SessionInv(ResolvePending(s)) && ClosedKept(s.busy, ResolvePending(s).busy)
  {
    ResolveKeeps(s.busy, s.lastSeq, s.invs, |s.invs|);
    ResolveBaselines(s.busy, s.invs, |s.invs|);
  }

  lemma ReceiptKeeps(s: Session, i: nat, id: string)
    requires SessionInv(s) && i < |s.invs| && s.invs[i].inputId.None?
    ensures SessionInv(ReceiptArrives(s, i, id)) && ClosedKept(s.busy, ReceiptArrives(s, i, id).busy)
  {
    var v := s.invs[i];
    var v1 := v.(inputId := Some(id), outcome := if v.outcome.Unknown? then Running else v.outcome);
    ReplayKeeps(s.busy, v1, s.sid, s.log[v.baseline..]);
    var s1 := s.(invs := s.invs[i := Replay(v1, s.sid, s.log[v.baseline..])]);
    assert SessionInv(s1);
    ResolvePendingKeeps(s1);
  }

  /** Every operation keeps the session invariant and every closed period. */
  lemma DoKeeps(s: Session, op: Op)
    requires SessionInv(s)
    ensures SessionInv(Do(s, op)) && ClosedKept(s.busy, Do(s, op).busy)
  {
    match op
    case Receive(e) =>
      if Accepts(s, e) {
        FoldKeeps(s, e);
        ResolvePendingKeeps(Fold(s, e));
        ClosedKeptTransitive(s.busy, Fold(s, e).busy, Do(s, op).busy);
      }
    case Receipt(i, id) => if i < |s.invs| && s.invs[i].inputId.None? { ReceiptKeeps(s, i, id); }
    case _ => QuietKeeps(s, op);
  }

  lemma QuietKeeps(s: Session, op: Op)
    requires SessionInv(s) && !op.Receive? && !op.Receipt?
    ensures SessionInv(Do(s, op)) && ClosedKept(s.busy, Do(s, op).busy)
  {
  }

  lemma {:induction false} ResolveBaselines(busy: seq<Period>, invs: seq<Inv>, n: nat)
    requires n <= |invs|
    ensures forall i :: 0 <= i < |invs| ==> Resolve(busy, invs, n).1[i].baseline == invs[i].baseline
  {
    if n > 0 { ResolveBaselines(busy, invs, n - 1); }
  }

  // ------------------------------------------------------------ the main results

  lemma {:induction false} RunKeeps(sid: string, ops: seq<Op>)
    ensures SessionInv(Run(Fresh(sid), ops))
  {
    if ops != [] {
      RunKeeps(sid, ops[..|ops| - 1]);
      DoKeeps(Run(Fresh(sid), ops[..|ops| - 1]), ops[|ops| - 1]);
    }
  }

  /** Over every stream: periods are disjoint or nested, in the order of their starts. */
  lemma PeriodsAreLaminar(sid: string, ops: seq<Op>, i: nat, j: nat)
    requires i < j < |Run(Fresh(sid), ops).busy|
    ensures var p, q := Run(Fresh(sid), ops).busy[i], Run(Fresh(sid), ops).busy[j];
      p.start < q.start
      && (p.end.Some? && q.end.Some? ==> p.end.value < q.start || q.end.value < p.end.value)
      && (p.end.Some? && q.end.None? ==> p.end.value < q.start)
  {
    RunKeeps(sid, ops);
  }

  /** Whatever is received later, a closed period only ever becomes used. */
  lemma {:induction false} ClosedPeriodsAreFinal(s: Session, ops: seq<Op>, i: nat)
    requires SessionInv(s) && i < |s.busy| && s.busy[i].end.Some?
    ensures SessionInv(Run(s, ops)) && ClosedKept(s.busy, Run(s, ops).busy)
    ensures i < |Run(s, ops).busy| && Run(s, ops).busy[i] == s.busy[i].(used := Run(s, ops).busy[i].used)
  {
    if ops != [] {
      var init := ops[..|ops| - 1];
      ClosedPeriodsAreFinal(s, init, i);
      DoKeeps(Run(s, init), ops[|ops| - 1]);
      ClosedKeptTransitive(s.busy, Run(s, init).busy, Run(s, ops).busy);
    }
  }

  /** Over every stream: an invocation settled from the stream took a closed period that contains
      its own delivery, and no two invocations took the same. */
  lemma SettlementsAreInjective(sid: string, ops: seq<Op>, i: nat, j: nat)
    requires var s := Run(Fresh(sid), ops);
      i < |s.invs| && j < |s.invs| && s.invs[i].period.Some? && i != j
    ensures var s := Run(Fresh(sid), ops);
      && s.invs[i].period != s.invs[j].period
      && s.invs[i].period.value < |s.busy| && s.invs[i].deliveredSeq.Some?
      && Covers(s.busy[s.invs[i].period.value], s.invs[i].deliveredSeq.value)
      && s.busy[s.invs[i].period.value].used
  {
    RunKeeps(sid, ops);
  }
}
