/** Whose usage an event counts for. What a settlement reports is the sum of what is attributed to
    its invocation; no event counts twice, and no start is counted more than once. */
module OpencodeAttribution {
  import opened Options
  import opened OpencodeModel
  import opened OpencodePeriods
  import opened OpencodeUsage

  // ------------------------------------------------------------ what a settlement reports

  /** Of the compaction terminals at positions `cs` of period `q`, those charged to an input. */
  ghost function ChargedOf(q: Period, cs: seq<nat>, n: nat, id: Option<string>): (ks: seq<nat>)
    requires n <= |cs| && n <= |q.compactions|
    ensures forall i :: 0 <= i < |ks| ==> ks[i] in cs[..n]
  {
    if n == 0 then []
    else
      var ks' := ChargedOf(q, cs, n - 1, id);
      if Charged(q.compactions[n - 1], q, id) then ks' + [cs[n - 1]] else ks'
  }

  /** Positions of every event whose tokens count for the invocation that period `p` settled. */
  ghost function Attributed(sid: string, acc: seq<Event>, p: nat, id: Option<string>): (ks: seq<nat>)
    requires AllDurable(acc) && p < |BusyOf(sid, acc)|
    ensures forall i :: 0 <= i < |ks| ==> ks[i] < |acc|
  {
    PeriodCounts(sid, acc, p);
    var cs := Positions(ACompaction, sid, acc, p);
    var q := BusyOf(sid, acc)[p];
    var charged := ChargedOf(q, cs, |cs|, id);
    assert forall i :: 0 <= i < |charged| ==> charged[i] in cs[..|cs|];
    Positions(AStep, sid, acc, p) + charged
  }

  /** The tokens a period adds for an input beside its steps. */
  function ChargedTokens(q: Period, n: nat, id: Option<string>): seq<Tokens>
    requires n <= |q.compactions|
  {
    if n == 0 then []
    else
      ChargedTokens(q, n - 1, id)
      + if Charged(q.compactions[n - 1], q, id) then [q.compactions[n - 1].tokens] else []
  }

  lemma {:induction false} CompactionsAddTheirTokens(u: Usage, q: Period, n: nat, id: Option<string>)
    requires n <= |q.compactions|
    ensures AddCompactions(u, q.compactions[..n], q, id) == AddAll(u, ChargedTokens(q, n, id))
  {
    if n > 0 {
      CompactionsAddTheirTokens(u, q, n - 1, id);
      assert q.compactions[..n][..n - 1] == q.compactions[..n - 1];
      var ts := ChargedTokens(q, n - 1, id);
      assert (ts + [q.compactions[n - 1].tokens])[..|ts|] == ts;
      assert ts + [] == ts;
    }
  }

  lemma {:induction false} ChargedTokensAreThere(q: Period, acc: seq<Event>, cs: seq<nat>, n: nat, id: Option<string>)
    requires n <= |cs| == |q.compactions|
    requires forall j :: 0 <= j < |cs| ==> cs[j] < |acc| && q.compactions[j].tokens == acc[cs[j]].data.tokens
    ensures var ks, ts := ChargedOf(q, cs, n, id), ChargedTokens(q, n, id);
      |ks| == |ts| && forall i :: 0 <= i < |ks| ==> ks[i] < |acc| && ts[i] == acc[ks[i]].data.tokens
  {
    if n > 0 { ChargedTokensAreThere(q, acc, cs, n - 1, id); }
  }

  /** The tokens attributed to an input are those of the steps and of the charged compactions. */
  lemma AttributedTokens(sid: string, acc: seq<Event>, p: nat, id: Option<string>)
    requires AllDurable(acc) && p < |BusyOf(sid, acc)|
    ensures var q := BusyOf(sid, acc)[p];
      TokensAt(acc, Attributed(sid, acc, p, id))
      == TokensAt(acc, Positions(AStep, sid, acc, p)) + ChargedTokens(q, |q.compactions|, id)
  {
    PeriodCounts(sid, acc, p);
    var q := BusyOf(sid, acc)[p];
    var cs := Positions(ACompaction, sid, acc, p);
    ChargedTokensAreThere(q, acc, cs, |cs|, id);
    TokensConcat(acc, Positions(AStep, sid, acc, p), ChargedOf(q, cs, |cs|, id), ChargedTokens(q, |cs|, id));
  }

  lemma TokensConcat(acc: seq<Event>, ks: seq<nat>, js: seq<nat>, ts: seq<Tokens>)
    requires forall i :: 0 <= i < |ks| ==> ks[i] < |acc|
    requires |js| == |ts| && forall i :: 0 <= i < |js| ==> js[i] < |acc| && ts[i] == acc[js[i]].data.tokens
    ensures TokensAt(acc, ks + js) == TokensAt(acc, ks) + ts
  {
  }

  lemma UsageForAddsCharged(q: Period, id: Option<string>)
    ensures UsageFor(q, id) == AddAll(q.usage, ChargedTokens(q, |q.compactions|, id))
  {
    CompactionsAddTheirTokens(q.usage, q, |q.compactions|, id);
    assert q.compactions[..|q.compactions|] == q.compactions;
  }

  lemma UsageForAdds(q: Period, id: Option<string>, ts: seq<Tokens>, n: nat, f: Field)
    requires q.usage == AddAll(NoUsage, ts).(steps := n)
    ensures UsageFor(q, id).steps == n
    ensures Counter(UsageFor(q, id), f) == SumOf(ts + ChargedTokens(q, |q.compactions|, id), f)
  {
    var charged := ChargedTokens(q, |q.compactions|, id);
    UsageForAddsCharged(q, id);
    AddAllKeepsSteps(q.usage, charged);
    AddAllSums(NoUsage, [], ts, f);
    assert [] + ts == ts;
    AddAllSums(q.usage, ts, charged, f);
  }

  lemma UsageForIsTheSum(sid: string, acc: seq<Event>, p: nat, id: Option<string>, f: Field)
    requires AllDurable(acc) && p < |BusyOf(sid, acc)|
    ensures var u := UsageFor(BusyOf(sid, acc)[p], id);
      && u.steps == |Positions(AStep, sid, acc, p)|
      && Counter(u, f) == SumOf(TokensAt(acc, Attributed(sid, acc, p, id)), f)
  {
    var ks := Positions(AStep, sid, acc, p);
    PeriodCounts(sid, acc, p);
    AttributedTokens(sid, acc, p, id);
    UsageForAdds(BusyOf(sid, acc)[p], id, TokensAt(acc, ks), |ks|, f);
  }

  /** Over every stream: what an invocation settled by a period reports is a record of counters
      that are, field by field, the sums of the finite values attributed to it, with one step
      for each counted step terminal. */
  lemma SettledUsageIsExact(sid: string, ops: seq<Op>, i: nat)
    ensures var s := Run(Fresh(sid), ops);
      i < |s.invs| && s.invs[i].period.Some? ==> ReportsItsSums(sid, Durables(s.log), s.invs[i])
  {
    var s := Run(Fresh(sid), ops);
    if i < |s.invs| && s.invs[i].period.Some? { OneSettlementIsExact(sid, ops, i); }
  }

  /** The usage record of a settled invocation: none when nothing was counted; else field by field the sum
      of what is attributed to it, and one step for every counted step terminal. */
  ghost predicate ReportsItsSums(sid: string, acc: seq<Event>, v: Inv)
    requires AllDurable(acc) && v.period.Some?
  {
    var p := v.period.value;
    && p < |BusyOf(sid, acc)|
    && Reports(v.usage, |Positions(AStep, sid, acc, p)|, TokensAt(acc, Attributed(sid, acc, p, v.inputId)))
  }

  ghost predicate Reports(usage: Option<Usage>, steps: nat, ts: seq<Tokens>) {
    && (usage.None? <==> steps == 0 && forall f: Field :: SumOf(ts, f).None?)
    && (usage.Some? ==> usage.value.steps == steps && forall f: Field :: Counter(usage.value, f) == SumOf(ts, f))
  }

  lemma RecordReports(u: Usage, steps: nat, ts: seq<Tokens>)
    requires u.steps == steps && forall f: Field :: Counter(u, f) == SumOf(ts, f)
    ensures Reports(UsageRecord(u), steps, ts)
  {
    assert Counter(u, InputField) == u.input && Counter(u, OutputField) == u.output;
    assert Counter(u, ReasoningField) == u.reasoning && Counter(u, CacheReadField) == u.cacheRead;
    assert Counter(u, CacheWriteField) == u.cacheWrite && Counter(u, CostField) == u.cost;
  }

  lemma OneSettlementIsExact(sid: string, ops: seq<Op>, i: nat)
    requires var s := Run(Fresh(sid), ops); i < |s.invs| && s.invs[i].period.Some?
    ensures var s := Run(Fresh(sid), ops); ReportsItsSums(sid, Durables(s.log), s.invs[i])
  {
    var s := Run(Fresh(sid), ops);
    var acc, v := Durables(s.log), s.invs[i];
    SettledAsTheLogSays(sid, ops, i);
    var p := v.period.value;
    forall f: Field
      ensures Counter(UsageFor(BusyOf(sid, acc)[p], v.inputId), f)
           == SumOf(TokensAt(acc, Attributed(sid, acc, p, v.inputId)), f)
    {
      UsageForIsTheSum(sid, acc, p, v.inputId, f);
    }
    UsageForIsTheSum(sid, acc, p, v.inputId, InputField);
    RecordReports(UsageFor(BusyOf(sid, acc)[p], v.inputId), |Positions(AStep, sid, acc, p)|,
                  TokensAt(acc, Attributed(sid, acc, p, v.inputId)));
  }

  /** The period of a settled invocation is one of the accepted events. */
  lemma SettledAsTheLogSays(sid: string, ops: seq<Op>, i: nat)
    requires var s := Run(Fresh(sid), ops); i < |s.invs| && s.invs[i].period.Some?
    ensures var s := Run(Fresh(sid), ops);
      var acc, v := Durables(s.log), s.invs[i];
      var p := v.period.value;
      && p < |BusyOf(sid, acc)| && p < |s.busy| && Unmarked(s.busy[p]) == Unmarked(BusyOf(sid, acc)[p])
      && v.usage == UsageRecord(UsageFor(BusyOf(sid, acc)[p], v.inputId)) && SettlementInv(s.busy, v)
  {
    var s := Run(Fresh(sid), ops);
    var acc, v := Durables(s.log), s.invs[i];
    RunKeeps(sid, ops);
    BusyFollowsTheLog(sid, ops);
    assert SettlementInv(s.busy, v);
    var p := v.period.value;
    var q := BusyOf(sid, acc)[p];
    assert Unmarked(s.busy[p]) == Unmarked(q);
    SameUsage(q.compactions, s.busy[p], q, v.inputId, q.usage);
  }

  lemma AttributedMeetsItsPeriod(sid: string, acc: seq<Event>, p: nat, id: Option<string>, k: nat)
    requires AllDurable(acc) && p < |BusyOf(sid, acc)| && k in Attributed(sid, acc, p, id)
    ensures k < |acc| && Meets(BusyOf(sid, acc[..k]), sid, acc[k]) == Some(p)
  {
    var cs := Positions(ACompaction, sid, acc, p);
    PeriodCounts(sid, acc, p);
    PositionsExact(AStep, sid, acc, p, k);
    PositionsExact(ACompaction, sid, acc, p, k);
    var charged := ChargedOf(BusyOf(sid, acc)[p], cs, |cs|, id);
    if k !in Positions(AStep, sid, acc, p) {
      assert k in charged;
      var j :| 0 <= j < |charged| && charged[j] == k;
      assert k in cs[..|cs|];
    }
  }

  /** The events that count for an invocation that settled by a period. */
  ghost predicate CountsFor(sid: string, acc: seq<Event>, v: Inv, k: nat)
    requires AllDurable(acc)
  {
    v.period.Some? && v.period.value < |BusyOf(sid, acc)| && k in Attributed(sid, acc, v.period.value, v.inputId)
  }

  /** Over every stream: no event counts for two invocations. */
  lemma NoEventCountsTwice(sid: string, ops: seq<Op>, i: nat, j: nat, k: nat)
    ensures var s := Run(Fresh(sid), ops);
      i < |s.invs| && j < |s.invs|
      && CountsFor(sid, Durables(s.log), s.invs[i], k) && CountsFor(sid, Durables(s.log), s.invs[j], k)
      ==> i == j
  {
    var s := Run(Fresh(sid), ops);
    var acc := Durables(s.log);
    RunKeeps(sid, ops);
    if i < |s.invs| && j < |s.invs| && CountsFor(sid, acc, s.invs[i], k) && CountsFor(sid, acc, s.invs[j], k) {
      var v, w := s.invs[i], s.invs[j];
      AttributedMeetsItsPeriod(sid, acc, v.period.value, v.inputId, k);
      AttributedMeetsItsPeriod(sid, acc, w.period.value, w.inputId, k);
      assert v.period == w.period;
    }
  }

  /** No event is both a counted step and a counted compaction. */
  lemma KindsApart(sid: string, acc: seq<Event>, p: nat, k: nat)
    requires AllDurable(acc) && k in Positions(AStep, sid, acc, p)
    ensures k !in Positions(ACompaction, sid, acc, p)
  {
    PositionsExact(AStep, sid, acc, p, k);
    PositionsExact(ACompaction, sid, acc, p, k);
  }

  lemma ConcatDistinct(ks: seq<nat>, js: seq<nat>, i: nat, j: nat)
    requires Ascending(ks) && Ascending(js) && i < j < |ks + js|
    requires i < |ks| && j >= |ks| ==> ks[i] != js[j - |ks|]
    ensures (ks + js)[i] != (ks + js)[j]
  {
  }

  /** Nor does an event count twice for one invocation. */
  lemma AttributedOnce(sid: string, acc: seq<Event>, p: nat, id: Option<string>, i: nat, j: nat)
    requires AllDurable(acc) && p < |BusyOf(sid, acc)| && i < j < |Attributed(sid, acc, p, id)|
    ensures Attributed(sid, acc, p, id)[i] != Attributed(sid, acc, p, id)[j]
  {
    PeriodCounts(sid, acc, p);
    var ks, cs, q := Positions(AStep, sid, acc, p), Positions(ACompaction, sid, acc, p), BusyOf(sid, acc)[p];
    var charged := ChargedOf(q, cs, |cs|, id);
    assert Attributed(sid, acc, p, id) == ks + charged;
    PositionsAscend(AStep, sid, acc, p);
    PositionsAscend(ACompaction, sid, acc, p);
    ChargedAscend(q, cs, |cs|, id);
    if i < |ks| && j >= |ks| {
      assert charged[j - |ks|] in cs[..|cs|] && cs[..|cs|] == cs;
      KindsApart(sid, acc, p, ks[i]);
    }
    ConcatDistinct(ks, charged, i, j);
  }

  /** Before every position that is still to come. */
  predicate Below(ks: seq<nat>, cs: seq<nat>, n: nat)
    requires n <= |cs|
  {
    forall i, j :: 0 <= i < |ks| && n <= j < |cs| ==> ks[i] < cs[j]
  }

  lemma {:induction false} ChargedBelow(q: Period, cs: seq<nat>, n: nat, id: Option<string>)
    requires n <= |cs| && n <= |q.compactions| && Ascending(cs)
    ensures Below(ChargedOf(q, cs, n, id), cs, n)
  {
    if n > 0 { ChargedBelow(q, cs, n - 1, id); }
  }

  lemma {:induction false} ChargedAscend(q: Period, cs: seq<nat>, n: nat, id: Option<string>)
    requires n <= |cs| && n <= |q.compactions| && Ascending(cs)
    ensures Ascending(ChargedOf(q, cs, n, id))
  {
    if n > 0 {
      ChargedAscend(q, cs, n - 1, id);
      ChargedBelow(q, cs, n - 1, id);
      AppendAscends(ChargedOf(q, cs, n - 1, id), cs, n - 1);
      assert ChargedOf(q, cs, n, id) == ChargedOf(q, cs, n - 1, id)
          || ChargedOf(q, cs, n, id) == ChargedOf(q, cs, n - 1, id) + [cs[n - 1]];
    }
  }

  lemma AppendAscends(ks: seq<nat>, cs: seq<nat>, n: nat)
    requires n < |cs| && Ascending(ks) && Below(ks, cs, n)
    ensures Ascending(ks + [cs[n]])
  {
  }

  // ------------------------------------------------------------ starts

  predicate StartsStep(busy: seq<Period>, sid: string, e: Event, p: nat, a: string) {
    e.kind.StepStarted? && e.data.assistant == Some(a) && Meets(busy, sid, e) == Some(p)
  }

  predicate EndsStep(busy: seq<Period>, sid: string, e: Event, p: nat, a: string) {
    Hits(AStep, busy, sid, e, p) && e.data.assistant == Some(a)
  }

  /** How often step `a` was started, and counted as ended, in period `p`. */
  function StepStarts(sid: string, acc: seq<Event>, p: nat, a: string): nat
    requires AllDurable(acc)
  {
    if acc == [] then 0
    else
      var n := |acc| - 1;
      StepStarts(sid, acc[..n], p, a) + if StartsStep(BusyOf(sid, acc[..n]), sid, acc[n], p, a) then 1 else 0
  }

  function StepEnds(sid: string, acc: seq<Event>, p: nat, a: string): nat
    requires AllDurable(acc)
  {
    if acc == [] then 0
    else
      var n := |acc| - 1;
      StepEnds(sid, acc[..n], p, a) + if EndsStep(BusyOf(sid, acc[..n]), sid, acc[n], p, a) then 1 else 0
  }

  predicate StartsCompaction(busy: seq<Period>, sid: string, e: Event, p: nat) {
    e.kind.CompactionStarted? && Meets(busy, sid, e) == Some(p)
  }

  function CompactionStarts(sid: string, acc: seq<Event>, p: nat): nat
    requires AllDurable(acc)
  {
    if acc == [] then 0
    else
      var n := |acc| - 1;
      CompactionStarts(sid, acc[..n], p) + if StartsCompaction(BusyOf(sid, acc[..n]), sid, acc[n], p) then 1 else 0
  }

  function Open(p: Period, a: string): nat {
    if a in p.stepStarts then 1 else 0
  }

  lemma OnOpenStarts(p: Period, k: Kind, d: Data, a: string)
    ensures var q := OnOpen(p, k, d);
      Open(q, a) + (if CountsStep(p, k, d) && d.assistant == Some(a) then 1 else 0)
      <= Open(p, a) + (if k.StepStarted? && d.assistant == Some(a) then 1 else 0)
    ensures var q := OnOpen(p, k, d);
      |q.compactionStarts| + |q.compactions|
      == |p.compactionStarts| + |p.compactions| + (if k.CompactionStarted? then 1 else 0)
  {
  }

  lemma StartsMove(busy: seq<Period>, sid: string, e: Event, p: nat, a: string)
    requires e.durable.Some? && p < |busy|
    ensures var b := ApplyDurable(busy, sid, e.kind, e.data, e.durable.value.seq_);
      && p < |b|
      && Open(b[p], a) + (if EndsStep(busy, sid, e, p, a) then 1 else 0)
         <= Open(busy[p], a) + (if StartsStep(busy, sid, e, p, a) then 1 else 0)
      && |b[p].compactionStarts| + |b[p].compactions|
         == |busy[p].compactionStarts| + |busy[p].compactions| + (if StartsCompaction(busy, sid, e, p) then 1 else 0)
  {
    OnOpenStarts(busy[p], e.kind, e.data, a);
  }

  lemma StartsUnroll(sid: string, acc: seq<Event>, p: nat, a: string)
    requires AllDurable(acc) && acc != []
    ensures var n := |acc| - 1; var before := BusyOf(sid, acc[..n]);
      && StepStarts(sid, acc, p, a)
         == StepStarts(sid, acc[..n], p, a) + (if StartsStep(before, sid, acc[n], p, a) then 1 else 0)
      && StepEnds(sid, acc, p, a)
         == StepEnds(sid, acc[..n], p, a) + (if EndsStep(before, sid, acc[n], p, a) then 1 else 0)
      && CompactionStarts(sid, acc, p)
         == CompactionStarts(sid, acc[..n], p) + (if StartsCompaction(before, sid, acc[n], p) then 1 else 0)
  {
  }

  lemma {:induction false} NoStartsBeyond(sid: string, acc: seq<Event>, p: nat, a: string)
    requires AllDurable(acc) && p >= |BusyOf(sid, acc)|
    ensures StepStarts(sid, acc, p, a) == 0 && StepEnds(sid, acc, p, a) == 0 && CompactionStarts(sid, acc, p) == 0
  {
    if acc != [] {
      assert |BusyOf(sid, acc[..|acc| - 1])| <= |BusyOf(sid, acc)|;
      NoStartsBeyond(sid, acc[..|acc| - 1], p, a);
      StartsUnroll(sid, acc, p, a);
    }
  }

  ghost predicate Balanced(sid: string, acc: seq<Event>, p: nat, a: string)
    requires AllDurable(acc) && p < |BusyOf(sid, acc)|
  {
    var q := BusyOf(sid, acc)[p];
    && StepEnds(sid, acc, p, a) + Open(q, a) <= StepStarts(sid, acc, p, a)
    && |q.compactions| + |q.compactionStarts| == CompactionStarts(sid, acc, p)
  }

  lemma BalancedNext(sid: string, acc: seq<Event>, p: nat, a: string)
    requires AllDurable(acc) && acc != [] && p < |BusyOf(sid, acc[..|acc| - 1])|
    requires Balanced(sid, acc[..|acc| - 1], p, a)
    ensures p < |BusyOf(sid, acc)| && Balanced(sid, acc, p, a)
  {
    var n := |acc| - 1;
    StartsMove(BusyOf(sid, acc[..n]), sid, acc[n], p, a);
    StartsUnroll(sid, acc, p, a);
  }

  lemma BalancedFirst(sid: string, acc: seq<Event>, p: nat, a: string)
    requires AllDurable(acc) && acc != [] && |BusyOf(sid, acc[..|acc| - 1])| <= p < |BusyOf(sid, acc)|
    ensures Balanced(sid, acc, p, a)
  {
    var n := |acc| - 1;
    NoStartsBeyond(sid, acc[..n], p, a);
    StartsUnroll(sid, acc, p, a);
    assert BusyOf(sid, acc)[p] == NewPeriod(acc[n].durable.value.seq_);
  }

  /** In every period a started step is counted at most once: the counted ends of a step never
      outnumber its starts. Every compaction terminal recorded consumed exactly one start. */
  lemma {:induction false} EachStartCountsOnce(sid: string, acc: seq<Event>, p: nat, a: string)
    requires AllDurable(acc) && p < |BusyOf(sid, acc)|
    ensures var q := BusyOf(sid, acc)[p];
      && StepEnds(sid, acc, p, a) + Open(q, a) <= StepStarts(sid, acc, p, a)
      && |q.compactions| + |q.compactionStarts| == CompactionStarts(sid, acc, p)
  {
    var before := acc[..|acc| - 1];
    if p < |BusyOf(sid, before)| {
      EachStartCountsOnce(sid, before, p, a);
      BalancedNext(sid, acc, p, a);
    } else {
      BalancedFirst(sid, acc, p, a);
    }
  }
}
