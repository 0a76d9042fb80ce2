/** Whose usage an event counts for. A reference attribution over the accepted durable events is
    defined beside the interpreter: every terminal event has at most one target period, and the
    counters a settlement reports are the sums of what is attributed to that invocation. */
module OpencodeUsage {
  import opened Options
  import opened OpencodeModel
  import opened OpencodePeriods

  // ------------------------------------------------------------ busy periods from the log alone

  /** The accepted durable events of a log, in order. */
  function Durables(log: seq<(Event, bool)>): (acc: seq<Event>)
    ensures forall k :: 0 <= k < |acc| ==> acc[k].durable.Some?
  {
    if log == [] then []
    else
      var last := log[|log| - 1];
      Durables(log[..|log| - 1]) + (if last.1 && last.0.durable.Some? then [last.0] else [])
  }

  function BusyOf(sid: string, acc: seq<Event>): seq<Period>
    requires forall k :: 0 <= k < |acc| ==> acc[k].durable.Some?
  {
    if acc == [] then []
    else
      var e := acc[|acc| - 1];
      ApplyDurable(BusyOf(sid, acc[..|acc| - 1]), sid, e.kind, e.data, e.durable.value.seq_)
  }

  function Unmarked(p: Period): Period { p.(used := false) }

  /** Equal but for the marks that settlements leave. */
  ghost predicate SameButMarks(busy: seq<Period>, ref: seq<Period>) {
    |busy| == |ref| && forall j :: 0 <= j < |busy| ==> Unmarked(busy[j]) == Unmarked(ref[j])
  }

  lemma {:induction false} TopOpenIgnoresMarks(busy: seq<Period>, ref: seq<Period>)
    requires SameButMarks(busy, ref)
    ensures TopOpen(busy) == TopOpen(ref)
  {
    if busy != [] {
      assert Unmarked(busy[|busy| - 1]) == Unmarked(ref[|ref| - 1]);
      TopOpenIgnoresMarks(busy[..|busy| - 1], ref[..|ref| - 1]);
    }
  }

  lemma OnOpenIgnoresMarks(p: Period, q: Period, k: Kind, d: Data)
    requires Unmarked(p) == Unmarked(q)
    ensures Unmarked(OnOpen(p, k, d)) == Unmarked(OnOpen(q, k, d))
  {
    assert p == q.(used := p.used);
    OnOpenKeepsMark(q, p.used, k, d);
  }

  lemma OnOpenKeepsMark(p: Period, used: bool, k: Kind, d: Data)
    ensures OnOpen(p.(used := used), k, d) == OnOpen(p, k, d).(used := used)
  {
  }

  lemma DurableIgnoresMarks(busy: seq<Period>, ref: seq<Period>, sid: string, k: Kind, d: Data, at: int)
    requires SameButMarks(busy, ref)
    ensures SameButMarks(ApplyDurable(busy, sid, k, d, at), ApplyDurable(ref, sid, k, d, at))
  {
    TopOpenIgnoresMarks(busy, ref);
    var top := TopOpen(busy);
    if !k.ExecutionStarted? && top.Some? {
      var p, q := busy[top.value], ref[top.value];
      OnOpenIgnoresMarks(p, q, k, d);
      assert Unmarked(Closed(p, k, d, at)) == Unmarked(Closed(q, k, d, at));
    }
  }

  lemma {:induction false} ResolveOnlyMarks(busy: seq<Period>, invs: seq<Inv>, n: nat)
    requires n <= |invs|
    ensures SameButMarks(Resolve(busy, invs, n).0, busy)
  {
    if n > 0 { ResolveOnlyMarks(busy, invs, n - 1); }
  }

  lemma ReceiveFollows(s: Session, e: Event)
    ensures var s' := RecordAndDispatch(s, e);
      if Accepts(s, e) && e.durable.Some? then
        && Durables(s'.log) == Durables(s.log) + [e]
        && SameButMarks(s'.busy, ApplyDurable(s.busy, s.sid, e.kind, e.data, e.durable.value.seq_))
      else Durables(s'.log) == Durables(s.log) && SameButMarks(s'.busy, s.busy)
  {
    var s' := RecordAndDispatch(s, e);
    assert s'.log[..|s'.log| - 1] == s.log;
    if Accepts(s, e) {
      var f := Fold(s, e);
      ResolveOnlyMarks(f.busy, f.invs, |f.invs|);
    }
  }

  lemma ReceiptOnlyMarks(s: Session, i: nat, id: string)
    requires i < |s.invs|
    ensures SameButMarks(ReceiptArrives(s, i, id).busy, s.busy) && ReceiptArrives(s, i, id).log == s.log
  {
    var v := s.invs[i];
    var v1 := v.(inputId := Some(id), outcome := if v.outcome.Unknown? then Running else v.outcome);
    var tail := if v.baseline <= |s.log| then s.log[v.baseline..] else [];
    ResolveOnlyMarks(s.busy, s.invs[i := Replay(v1, s.sid, tail)], |s.invs|);
  }

  ghost predicate Follows(s: Session) {
    SameButMarks(s.busy, BusyOf(s.sid, Durables(s.log)))
  }

  lemma AcceptedFollows(s: Session, e: Event)
    requires Follows(s) && Accepts(s, e) && e.durable.Some?
    ensures Follows(RecordAndDispatch(s, e))
  {
    ReceiveFollows(s, e);
    var acc, at := Durables(s.log), e.durable.value.seq_;
    assert (acc + [e])[..|acc|] == acc;
    DurableIgnoresMarks(s.busy, BusyOf(s.sid, acc), s.sid, e.kind, e.data, at);
    assert BusyOf(s.sid, acc + [e]) == ApplyDurable(BusyOf(s.sid, acc), s.sid, e.kind, e.data, at);
  }

  lemma DoFollows(s: Session, op: Op)
    requires Follows(s)
    ensures Follows(Do(s, op)) && Do(s, op).sid == s.sid
  {
    match op
    case Receive(e) =>
      if Accepts(s, e) && e.durable.Some? {
        AcceptedFollows(s, e);
      } else {
        ReceiveFollows(s, e);
        MarksFollow(s, RecordAndDispatch(s, e));
      }
    case Receipt(i, id) => if i < |s.invs| && s.invs[i].inputId.None? { ReceiptFollows(s, i, id); }
    case _ => MarksFollow(s, Do(s, op));
  }

  lemma MarksFollow(s: Session, s': Session)
    requires Follows(s) && s'.sid == s.sid && Durables(s'.log) == Durables(s.log) && SameButMarks(s'.busy, s.busy)
    ensures Follows(s')
  {
  }

  lemma ReceiptFollows(s: Session, i: nat, id: string)
    requires Follows(s) && i < |s.invs|
    ensures Follows(ReceiptArrives(s, i, id)) && ReceiptArrives(s, i, id).sid == s.sid
  {
    ReceiptOnlyMarks(s, i, id);
    MarksFollow(s, ReceiptArrives(s, i, id));
  }

  /** The periods of a session are those of its accepted events. */
  lemma {:induction false} BusyFollowsTheLog(sid: string, ops: seq<Op>)
    ensures Follows(Run(Fresh(sid), ops)) && Run(Fresh(sid), ops).sid == sid
  {
    if ops != [] {
      BusyFollowsTheLog(sid, ops[..|ops| - 1]);
      DoFollows(Run(Fresh(sid), ops[..|ops| - 1]), ops[|ops| - 1]);
    }
  }

  // ------------------------------------------------------------ the reference attribution

  /** The open period an event of the session meets. */
  function Meets(busy: seq<Period>, sid: string, e: Event): Option<nat> {
    if e.data.session == Some(sid) then TopOpen(busy) else None
  }

  datatype Counted = AStep | ACompaction

  /** The period whose counters a terminal event is charged to, if any. */
  function Target(c: Counted, busy: seq<Period>, sid: string, e: Event): Option<nat> {
    var top := Meets(busy, sid, e);
    if top.None? then None
    else
      var p := busy[top.value];
      if (if c.AStep? then CountsStep(p, e.kind, e.data) else CountsCompaction(p, e.kind, e.data)) then top else None
  }

  ghost predicate AllDurable(acc: seq<Event>) {
    forall k :: 0 <= k < |acc| ==> acc[k].durable.Some?
  }

  /** Positions of the terminal events of one sort that count for period `p`, ascending. */
  ghost function Positions(c: Counted, sid: string, acc: seq<Event>, p: nat): (ks: seq<nat>)
    requires AllDurable(acc)
    ensures forall i :: 0 <= i < |ks| ==> ks[i] < |acc|
  {
    if acc == [] then []
    else
      var n := |acc| - 1;
      Positions(c, sid, acc[..n], p) + (if Target(c, BusyOf(sid, acc[..n]), sid, acc[n]) == Some(p) then [n] else [])
  }

  function AddAll(u: Usage, ts: seq<Tokens>): Usage {
    if ts == [] then u else Accumulate(AddAll(u, ts[..|ts| - 1]), ts[|ts| - 1])
  }

  /** The terminal event is charged to period `p`. */
  predicate Hits(c: Counted, busy: seq<Period>, sid: string, e: Event, p: nat) {
    Target(c, busy, sid, e) == Some(p)
  }

  lemma PositionsGrow(c: Counted, sid: string, acc: seq<Event>, p: nat)
    requires AllDurable(acc) && acc != []
    ensures var n := |acc| - 1;
      Positions(c, sid, acc, p) == Positions(c, sid, acc[..n], p)
                                   + if Hits(c, BusyOf(sid, acc[..n]), sid, acc[n], p) then [n] else []
  {
  }

  lemma InBelow(ks: seq<nat>, n: nat, hit: bool, k: nat)
    requires forall i :: 0 <= i < |ks| ==> ks[i] < n
    ensures k in ks + (if hit then [n] else []) <==> (if k < n then k in ks else hit && k == n)
  {
  }

  lemma {:induction false} PositionsExact(c: Counted, sid: string, acc: seq<Event>, p: nat, k: nat)
    requires AllDurable(acc)
    ensures k in Positions(c, sid, acc, p) <==> k < |acc| && Target(c, BusyOf(sid, acc[..k]), sid, acc[k]) == Some(p)
  {
    if acc != [] {
      var n := |acc| - 1;
      assert AllDurable(acc[..n]);
      PositionsGrow(c, sid, acc, p);
      InBelow(Positions(c, sid, acc[..n], p), n, Hits(c, BusyOf(sid, acc[..n]), sid, acc[n], p), k);
      if k < n {
        PositionsExact(c, sid, acc[..n], p, k);
        assert acc[..n][..k] == acc[..k];
      }
    }
  }

  lemma {:induction false} PositionsAscend(c: Counted, sid: string, acc: seq<Event>, p: nat)
    requires AllDurable(acc)
    ensures Ascending(Positions(c, sid, acc, p))
  {
    if acc != [] {
      var ks := Positions(c, sid, acc[..|acc| - 1], p);
      PositionsAscend(c, sid, acc[..|acc| - 1], p);
      assert forall i :: 0 <= i < |ks| ==> ks[i] < |acc| - 1;
    }
  }

  predicate Ascending(ks: seq<nat>) {
    forall i, j :: 0 <= i < j < |ks| ==> ks[i] < ks[j]
  }

  lemma {:induction false} NoPositionsBeyond(c: Counted, sid: string, acc: seq<Event>, p: nat)
    requires AllDurable(acc) && p >= |BusyOf(sid, acc)|
    ensures Positions(c, sid, acc, p) == []
  {
    if acc != [] {
      assert |BusyOf(sid, acc[..|acc| - 1])| <= |BusyOf(sid, acc)|;
      NoPositionsBeyond(c, sid, acc[..|acc| - 1], p);
    }
  }

  /** The tokens of the events at some positions. */
  ghost function TokensAt(acc: seq<Event>, ks: seq<nat>): (ts: seq<Tokens>)
    requires forall i :: 0 <= i < |ks| ==> ks[i] < |acc|
    ensures |ts| == |ks| && forall i :: 0 <= i < |ks| ==> ts[i] == acc[ks[i]].data.tokens
  {
    seq(|ks|, i requires 0 <= i < |ks| => acc[ks[i]].data.tokens)
  }

  /** A period has counted exactly its step terminals: their tokens, and one step for each. */
  ghost predicate CountsItsSteps(q: Period, sid: string, acc: seq<Event>, p: nat)
    requires AllDurable(acc)
  {
    var ks := Positions(AStep, sid, acc, p);
    q.usage == AddAll(NoUsage, TokensAt(acc, ks)).(steps := |ks|)
  }

  /** In the same order, it has recorded exactly its compaction terminals. */
  ghost predicate RecordsItsCompactions(q: Period, sid: string, acc: seq<Event>, p: nat)
    requires AllDurable(acc)
  {
    var cs := Positions(ACompaction, sid, acc, p);
    |q.compactions| == |cs| && forall j :: 0 <= j < |cs| ==> q.compactions[j].tokens == acc[cs[j]].data.tokens
  }

  lemma {:induction false} AddAllKeepsSteps(u: Usage, ts: seq<Tokens>)
    ensures AddAll(u, ts).steps == u.steps
  {
    if ts != [] { AddAllKeepsSteps(u, ts[..|ts| - 1]); }
  }

  lemma AddOne(acc: seq<Event>, ks: seq<nat>, n: nat)
    requires forall i :: 0 <= i < |ks| ==> ks[i] < |acc|
    requires n < |acc|
    ensures AddAll(NoUsage, TokensAt(acc, ks + [n]))
         == Accumulate(AddAll(NoUsage, TokensAt(acc, ks)), acc[n].data.tokens)
  {
    var ts := TokensAt(acc, ks + [n]);
    assert ts[..|ts| - 1] == TokensAt(acc, ks);
  }

  lemma OnOpenCounts(p: Period, k: Kind, d: Data)
    ensures OnOpen(p, k, d).usage ==
      if CountsStep(p, k, d) then Accumulate(p.usage.(steps := p.usage.steps + 1), d.tokens) else p.usage
    ensures OnOpen(p, k, d).compactions ==
      if CountsCompaction(p, k, d) then p.compactions + [Compaction(CompactionOwner(p, k, d), d.tokens)]
      else p.compactions
  {
  }

  /** What one durable event does to the counters of one existing period. */
  lemma CountersMove(busy: seq<Period>, sid: string, e: Event, p: nat)
    requires e.durable.Some? && p < |busy|
    ensures p < |ApplyDurable(busy, sid, e.kind, e.data, e.durable.value.seq_)|
    ensures var q := ApplyDurable(busy, sid, e.kind, e.data, e.durable.value.seq_)[p];
      && q.usage == (if Hits(AStep, busy, sid, e, p)
                     then Accumulate(busy[p].usage.(steps := busy[p].usage.steps + 1), e.data.tokens)
                     else busy[p].usage)
      && |q.compactions| == |busy[p].compactions| + (if Hits(ACompaction, busy, sid, e, p) then 1 else 0)
      && busy[p].compactions <= q.compactions
      && (Hits(ACompaction, busy, sid, e, p) ==> q.compactions[|busy[p].compactions|].tokens == e.data.tokens)
  {
    OnOpenCounts(busy[p], e.kind, e.data);
    var top := TopOpen(busy);
    if top == Some(p) {
      var q := ApplyDurable(busy, sid, e.kind, e.data, e.durable.value.seq_)[p];
      if e.data.session == Some(sid) && !IsExecutionTerminal(e.kind) && !e.kind.ExecutionStarted? {
        assert q == OnOpen(busy[p], e.kind, e.data);
      } else {
        assert q.usage == busy[p].usage && q.compactions == busy[p].compactions;
      }
    }
  }

  lemma TokensOfPrefix(acc: seq<Event>, n: nat, ks: seq<nat>)
    requires n <= |acc| && forall i :: 0 <= i < |ks| ==> ks[i] < n
    ensures TokensAt(acc[..n], ks) == TokensAt(acc, ks)
  {
  }

  lemma StepsCarryOver(sid: string, acc: seq<Event>, p: nat, q: Period, q': Period, hit: bool)
    requires AllDurable(acc) && acc != []
    requires CountsItsSteps(q, sid, acc[..|acc| - 1], p)
    requires var ks := Positions(AStep, sid, acc[..|acc| - 1], p);
      Positions(AStep, sid, acc, p) == ks + if hit then [|acc| - 1] else []
    requires q'.usage == if hit then Accumulate(q.usage.(steps := q.usage.steps + 1), acc[|acc| - 1].data.tokens)
                         else q.usage
    ensures CountsItsSteps(q', sid, acc, p)
  {
    var ks := Positions(AStep, sid, acc[..|acc| - 1], p);
    TokensOfPrefix(acc, |acc| - 1, ks);
    if hit { AddOne(acc, ks, |acc| - 1); } else { assert ks + [] == ks; }
  }

  lemma CompactionsCarryOver(sid: string, acc: seq<Event>, p: nat, q: Period, q': Period, hit: bool)
    requires AllDurable(acc) && acc != []
    requires RecordsItsCompactions(q, sid, acc[..|acc| - 1], p)
    requires var cs := Positions(ACompaction, sid, acc[..|acc| - 1], p);
      Positions(ACompaction, sid, acc, p) == cs + if hit then [|acc| - 1] else []
    requires |q'.compactions| == |q.compactions| + (if hit then 1 else 0) && q.compactions <= q'.compactions
    requires hit ==> q'.compactions[|q.compactions|].tokens == acc[|acc| - 1].data.tokens
    ensures RecordsItsCompactions(q', sid, acc, p)
  {
  }

  lemma OpensNew(busy: seq<Period>, sid: string, e: Event, p: nat)
    requires e.durable.Some? && |busy| <= p < |ApplyDurable(busy, sid, e.kind, e.data, e.durable.value.seq_)|
    ensures ApplyDurable(busy, sid, e.kind, e.data, e.durable.value.seq_)[p] == NewPeriod(e.durable.value.seq_)
    ensures !Hits(AStep, busy, sid, e, p) && !Hits(ACompaction, busy, sid, e, p)
  {
  }

  lemma NothingCounted(q: Period, sid: string, acc: seq<Event>, p: nat)
    requires AllDurable(acc) && q.usage == NoUsage && q.compactions == []
    requires Positions(AStep, sid, acc, p) == [] && Positions(ACompaction, sid, acc, p) == []
    ensures CountsItsSteps(q, sid, acc, p) && RecordsItsCompactions(q, sid, acc, p)
  {
    assert TokensAt(acc, []) == [];
  }

  lemma NewPeriodCounts(sid: string, acc: seq<Event>, p: nat)
    requires AllDurable(acc) && acc != [] && p < |BusyOf(sid, acc)| && p >= |BusyOf(sid, acc[..|acc| - 1])|
    ensures CountsItsSteps(BusyOf(sid, acc)[p], sid, acc, p)
    ensures RecordsItsCompactions(BusyOf(sid, acc)[p], sid, acc, p)
  {
    var n := |acc| - 1;
    NoPositionsBeyond(AStep, sid, acc[..n], p);
    NoPositionsBeyond(ACompaction, sid, acc[..n], p);
    PositionsGrow(AStep, sid, acc, p);
    PositionsGrow(ACompaction, sid, acc, p);
    OpensNew(BusyOf(sid, acc[..n]), sid, acc[n], p);
    NothingCounted(BusyOf(sid, acc)[p], sid, acc, p);
  }

  lemma {:induction false} PeriodCounts(sid: string, acc: seq<Event>, p: nat)
    requires AllDurable(acc) && p < |BusyOf(sid, acc)|
    ensures CountsItsSteps(BusyOf(sid, acc)[p], sid, acc, p)
    ensures RecordsItsCompactions(BusyOf(sid, acc)[p], sid, acc, p)
  {
    var n := |acc| - 1;
    var before, q' := BusyOf(sid, acc[..n]), BusyOf(sid, acc)[p];
    if p >= |before| {
      NewPeriodCounts(sid, acc, p);
    } else {
      PeriodCounts(sid, acc[..n], p);
      CountersMove(before, sid, acc[n], p);
      PositionsGrow(AStep, sid, acc, p);
      PositionsGrow(ACompaction, sid, acc, p);
      var q, s, c := before[p], Hits(AStep, before, sid, acc[n], p), Hits(ACompaction, before, sid, acc[n], p);
      StepsCarryOver(sid, acc, p, q, q', s);
      CompactionsCarryOver(sid, acc, p, q, q', c);
    }
  }

  // ------------------------------------------------------------ sums

  datatype Field = InputField | OutputField | ReasoningField | CacheReadField | CacheWriteField | CostField

  function Value(t: Tokens, f: Field): Num {
    match f
    case InputField => t.input
    case OutputField => t.output
    case ReasoningField => t.reasoning
    case CacheReadField => t.cacheRead
    case CacheWriteField => t.cacheWrite
    case CostField => t.cost
  }

  function Counter(u: Usage, f: Field): Option<real> {
    match f
    case InputField => u.input
    case OutputField => u.output
    case ReasoningField => u.reasoning
    case CacheReadField => u.cacheRead
    case CacheWriteField => u.cacheWrite
    case CostField => u.cost
  }

  predicate AnyFinite(ts: seq<Tokens>, f: Field) {
    exists i :: 0 <= i < |ts| && Value(ts[i], f).Finite?
  }

  function FiniteSum(ts: seq<Tokens>, f: Field): real {
    if ts == [] then 0.0
    else FiniteSum(ts[1..], f) + if Value(ts[0], f).Finite? then Value(ts[0], f).value else 0.0
  }

  /** The sum of the finite values, absent when there is none. */
  function SumOf(ts: seq<Tokens>, f: Field): Option<real> {
    if AnyFinite(ts, f) then Some(FiniteSum(ts, f)) else None
  }

  lemma {:induction false} FiniteSumConcat(a: seq<Tokens>, b: seq<Tokens>, f: Field)
    ensures FiniteSum(a + b, f) == FiniteSum(a, f) + FiniteSum(b, f)
  {
    if a == [] {
      assert a + b == b;
    } else {
      assert (a + b)[1..] == a[1..] + b;
      FiniteSumConcat(a[1..], b, f);
    }
  }

  lemma SumOfConcat(a: seq<Tokens>, b: seq<Tokens>, f: Field)
    ensures AnyFinite(a + b, f) <==> AnyFinite(a, f) || AnyFinite(b, f)
    ensures FiniteSum(a + b, f) == FiniteSum(a, f) + FiniteSum(b, f)
  {
    FiniteSumConcat(a, b, f);
    if AnyFinite(a, f) {
      var i :| 0 <= i < |a| && Value(a[i], f).Finite?;
      assert (a + b)[i] == a[i];
    }
    if AnyFinite(b, f) {
      var i :| 0 <= i < |b| && Value(b[i], f).Finite?;
      assert (a + b)[|a| + i] == b[i];
    }
  }

  lemma AccumulateOne(u: Usage, t: Tokens, f: Field)
    ensures Counter(Accumulate(u, t), f) == Plus(Counter(u, f), Value(t, f))
  {
  }

  /** Adding up one terminal after the other gives the sum of the finite values. */
  lemma {:induction false} AddAllSums(u: Usage, prior: seq<Tokens>, ts: seq<Tokens>, f: Field)
    requires Counter(u, f) == SumOf(prior, f)
    ensures Counter(AddAll(u, ts), f) == SumOf(prior + ts, f)
  {
    if ts == [] {
      assert prior + ts == prior;
    } else {
      var init, last := ts[..|ts| - 1], ts[|ts| - 1];
      AddAllSums(u, prior, init, f);
      AccumulateOne(AddAll(u, init), last, f);
      SumOfConcat(prior + init, [last], f);
      assert prior + ts == prior + init + [last];
      assert AnyFinite([last], f) <==> Value(last, f).Finite? by { assert [last][0] == last; }
      assert FiniteSum([last], f) == if Value(last, f).Finite? then Value(last, f).value else 0.0;
      if !AnyFinite(prior + init, f) { NoFiniteNoSum(prior + init, f); }
    }
  }

  lemma {:induction false} NoFiniteNoSum(ts: seq<Tokens>, f: Field)
    requires !AnyFinite(ts, f)
    ensures FiniteSum(ts, f) == 0.0
  {
    if ts != [] {
      assert !Value(ts[0], f).Finite?;
      assert forall i :: 0 <= i < |ts[1..]| ==> ts[1..][i] == ts[i + 1];
      NoFiniteNoSum(ts[1..], f);
    }
  }
}
