/** What a busy period knows, said of the events alone: which steps and compactions count for it and for
    whom, what was delivered in it, what its last step wrote and how it ended. */
module OpencodeEvidence {
  import opened Options
  import opened OpencodeModel
  import opened OpencodePeriods
  import opened OpencodeUsage
  import opened OpencodeAttribution
  import opened OpencodeTexts

  // ------------------------------------------------------------ the events of a period

  /** An event, with the latest open period as it arrived, and again if the event is of the session. */
  datatype Seen = Seen(e: Event, top: Option<nat>, met: Option<nat>)

  function SeenBy(busy: seq<Period>, sid: string, e: Event): Seen {
    Seen(e, TopOpen(busy), Meets(busy, sid, e))
  }

  ghost function SeenIn(sid: string, acc: seq<Event>): (es: seq<Seen>)
    requires AllDurable(acc)
    ensures |es| == |acc|
  {
    if acc == [] then []
    else
      var n := |acc| - 1;
      SeenIn(sid, acc[..n]) + [SeenBy(BusyOf(sid, acc[..n]), sid, acc[n])]
  }

  lemma {:induction false} SeenAt(sid: string, acc: seq<Event>, k: nat)
    requires AllDurable(acc) && k < |acc|
    ensures SeenIn(sid, acc)[k] == SeenBy(BusyOf(sid, acc[..k]), sid, acc[k])
    ensures SeenIn(sid, acc)[..k] == SeenIn(sid, acc[..k])
  {
    var n := |acc| - 1;
    if k < n {
      SeenAt(sid, acc[..n], k);
      assert acc[..n][..k] == acc[..k];
      assert SeenIn(sid, acc)[..k] == SeenIn(sid, acc[..n])[..k];
    } else {
      assert acc[..k] == acc[..n];
    }
  }

  predicate Meeting(s: Seen, p: nat) {
    s.met == Some(p)
  }

  /** The period did not exist yet. */
  ghost predicate Unmet(es: seq<Seen>, p: nat) {
    forall k :: 0 <= k < |es| ==> !Meeting(es[k], p)
  }

  lemma {:induction false} UnmetBefore(sid: string, acc: seq<Event>, p: nat)
    requires AllDurable(acc) && p >= |BusyOf(sid, acc)|
    ensures Unmet(SeenIn(sid, acc), p)
  {
    if acc != [] {
      var n := |acc| - 1;
      assert |BusyOf(sid, acc[..n])| <= |BusyOf(sid, acc)|;
      UnmetBefore(sid, acc[..n], p);
    }
  }

  /** A period without its limits and its end. */
  function Inner(q: Period): Period {
    q.(start := 0, end := None, outcome := None, error := None, used := false, result := None)
  }

  /** What the events that met a period make of it. */
  function Folded(es: seq<Seen>, p: nat): Period {
    if es == [] then NewPeriod(0)
    else
      var last := es[|es| - 1];
      var q := Folded(es[..|es| - 1], p);
      if Meeting(last, p) then Inner(OnOpen(q, last.e.kind, last.e.data)) else q
  }

  lemma OneMoves(busy: seq<Period>, sid: string, e: Event, p: nat)
    requires e.durable.Some? && p < |ApplyDurable(busy, sid, e.kind, e.data, e.durable.value.seq_)|
    ensures var q := ApplyDurable(busy, sid, e.kind, e.data, e.durable.value.seq_)[p];
      if p < |busy| then
        Inner(q) == Inner(if Meets(busy, sid, e) == Some(p) then OnOpen(busy[p], e.kind, e.data) else busy[p])
      else Inner(q) == NewPeriod(0) && Meets(busy, sid, e) != Some(p)
  {
  }

  lemma OnOpenInner(q: Period, k: Kind, d: Data)
    ensures Inner(OnOpen(Inner(q), k, d)) == Inner(OnOpen(q, k, d))
  {
    SameCounts(q, k, d);
  }

  lemma SameCounts(q: Period, k: Kind, d: Data)
    ensures CountsStep(Inner(q), k, d) == CountsStep(q, k, d)
    ensures CountsCompaction(Inner(q), k, d) == CountsCompaction(q, k, d)
    ensures CountsCompaction(q, k, d) ==> CompactionOwner(Inner(q), k, d) == CompactionOwner(q, k, d)
  {
  }

  lemma {:induction false} UnmetFolds(es: seq<Seen>, p: nat)
    requires Unmet(es, p)
    ensures Folded(es, p) == NewPeriod(0)
  {
    if es != [] {
      assert !Meeting(es[|es| - 1], p);
      UnmetFolds(es[..|es| - 1], p);
    }
  }

  /** Inside, a period is what the events that met it make of a new one. */
  lemma {:induction false} PeriodIsFolded(sid: string, acc: seq<Event>, p: nat)
    requires AllDurable(acc) && p < |BusyOf(sid, acc)|
    ensures Inner(BusyOf(sid, acc)[p]) == Folded(SeenIn(sid, acc), p)
  {
    var n := |acc| - 1;
    var before, es := BusyOf(sid, acc[..n]), SeenIn(sid, acc[..n]);
    assert SeenIn(sid, acc)[..n] == es;
    OneMoves(before, sid, acc[n], p);
    if p < |before| {
      PeriodIsFolded(sid, acc[..n], p);
      OnOpenInner(before[p], acc[n].kind, acc[n].data);
    } else {
      UnmetBefore(sid, acc[..n], p);
      UnmetFolds(es, p);
    }
  }

  // ------------------------------------------------------------ steps

  predicate StartsIt(s: Seen, p: nat, a: string) {
    Meeting(s, p) && s.e.kind.StepStarted? && s.e.data.assistant == Some(a)
  }

  predicate EndsIt(s: Seen, p: nat, a: string) {
    Meeting(s, p) && (s.e.kind.StepEnded? || s.e.kind.StepFailed?) && s.e.data.assistant == Some(a)
  }

  /** Step `a` was started in the period, and no terminal of it came since. */
  ghost predicate Underway(es: seq<Seen>, p: nat, a: string) {
    exists j :: 0 <= j < |es| && StartsIt(es[j], p, a) && forall k :: j < k < |es| ==> !EndsIt(es[k], p, a)
  }

  lemma UnderwayMoves(es: seq<Seen>, x: Seen, p: nat, a: string)
    ensures Underway(es + [x], p, a) <==> StartsIt(x, p, a) || (!EndsIt(x, p, a) && Underway(es, p, a))
  {
    var all := es + [x];
    assert all[|es|] == x;
    if Underway(all, p, a) && !StartsIt(x, p, a) {
      var j :| 0 <= j < |all| && StartsIt(all[j], p, a) && forall k :: j < k < |all| ==> !EndsIt(all[k], p, a);
      assert j < |es| && es[j] == all[j];
      assert forall k :: j < k < |es| ==> es[k] == all[k];
    }
    if !EndsIt(x, p, a) && Underway(es, p, a) {
      var j :| 0 <= j < |es| && StartsIt(es[j], p, a) && forall k :: j < k < |es| ==> !EndsIt(es[k], p, a);
      assert all[j] == es[j];
    }
  }

  lemma OnOpenSteps(q: Period, k: Kind, d: Data, a: string)
    ensures a in OnOpen(q, k, d).stepStarts <==>
      (k.StepStarted? && d.assistant == Some(a))
      || (!(IsStepTerminal(k) && d.assistant == Some(a)) && a in q.stepStarts)
  {
  }

  lemma {:induction false} FoldedSteps(es: seq<Seen>, p: nat, a: string)
    ensures a in Folded(es, p).stepStarts <==> Underway(es, p, a)
  {
    if es != [] {
      var init, last := es[..|es| - 1], es[|es| - 1];
      FoldedSteps(init, p, a);
      OnOpenSteps(Folded(init, p), last.e.kind, last.e.data, a);
      UnderwayMoves(init, last, p, a);
      assert es == init + [last];
    }
  }

  /** The steps that a period holds as started are those under way in it. */
  lemma StepsUnderway(sid: string, acc: seq<Event>, p: nat, a: string)
    requires AllDurable(acc) && p < |BusyOf(sid, acc)|
    ensures a in BusyOf(sid, acc)[p].stepStarts <==> Underway(SeenIn(sid, acc), p, a)
  {
    PeriodIsFolded(sid, acc, p);
    FoldedSteps(SeenIn(sid, acc), p, a);
    assert BusyOf(sid, acc)[p].stepStarts == Inner(BusyOf(sid, acc)[p]).stepStarts;
  }

  /** A step terminal counts for the period it meets if its step is under way there. */
  ghost predicate StepCounts(es: seq<Seen>, p: nat, k: nat) {
    && k < |es| && Meeting(es[k], p) && (es[k].e.kind.StepEnded? || es[k].e.kind.StepFailed?)
    && es[k].e.data.assistant.Some? && Underway(es[..k], p, es[k].e.data.assistant.value)
  }

  lemma StepPositions(sid: string, acc: seq<Event>, p: nat, k: nat)
    requires AllDurable(acc)
    ensures k in Positions(AStep, sid, acc, p) <==> StepCounts(SeenIn(sid, acc), p, k)
  {
    PositionsExact(AStep, sid, acc, p, k);
    if k < |acc| {
      SeenAt(sid, acc, k);
      var before, e := BusyOf(sid, acc[..k]), acc[k];
      if Meets(before, sid, e) == Some(p) && e.data.assistant.Some? {
        assert AllDurable(acc[..k]);
        StepsUnderway(sid, acc[..k], p, e.data.assistant.value);
      }
    }
  }

  // ------------------------------------------------------------ deliveries

  predicate Delivers(s: Seen, p: nat, x: string) {
    Meeting(s, p) && s.e.kind.InboxDelivered? && s.e.data.inbox == Some(x)
  }

  ghost predicate DeliveredIn(es: seq<Seen>, p: nat, x: string) {
    exists j :: 0 <= j < |es| && Delivers(es[j], p, x)
  }

  lemma DeliveredMoves(es: seq<Seen>, x: Seen, p: nat, id: string)
    ensures DeliveredIn(es + [x], p, id) <==> Delivers(x, p, id) || DeliveredIn(es, p, id)
  {
    var all := es + [x];
    assert all[|es|] == x;
    if DeliveredIn(es, p, id) {
      var j :| 0 <= j < |es| && Delivers(es[j], p, id);
      assert all[j] == es[j];
    }
  }

  lemma {:induction false} FoldedDeliveries(es: seq<Seen>, p: nat, id: string)
    ensures id in Folded(es, p).delivered <==> DeliveredIn(es, p, id)
  {
    if es != [] {
      var init, last := es[..|es| - 1], es[|es| - 1];
      FoldedDeliveries(init, p, id);
      OnOpenDelivers(Folded(init, p), last.e.kind, last.e.data, id);
      DeliveredMoves(init, last, p, id);
      assert es == init + [last];
    }
  }

  lemma OnOpenDelivers(q: Period, k: Kind, d: Data, x: string)
    ensures x in OnOpen(q, k, d).delivered <==> (k.InboxDelivered? && d.inbox == Some(x)) || x in q.delivered
  {
  }

  lemma DeliveriesKnown(sid: string, acc: seq<Event>, p: nat, id: string)
    requires AllDurable(acc) && p < |BusyOf(sid, acc)|
    ensures id in BusyOf(sid, acc)[p].delivered <==> DeliveredIn(SeenIn(sid, acc), p, id)
  {
    PeriodIsFolded(sid, acc, p);
    FoldedDeliveries(SeenIn(sid, acc), p, id);
    assert BusyOf(sid, acc)[p].delivered == Inner(BusyOf(sid, acc)[p]).delivered;
  }

  // ------------------------------------------------------------ texts

  predicate BeginsStep(s: Seen, p: nat) {
    Meeting(s, p) && s.e.kind.StepStarted? && s.e.data.assistant.Some?
  }

  /** The step that was started last. */
  function Writer(es: seq<Seen>, p: nat): Option<string> {
    if es == [] then None
    else if BeginsStep(es[|es| - 1], p) then es[|es| - 1].e.data.assistant
    else Writer(es[..|es| - 1], p)
  }

  /** A text of the last step, under an ordinal. */
  predicate Writes(s: Seen, p: nat, writer: Option<string>, ordinal: int) {
    && Meeting(s, p) && s.e.kind.TextEnded? && s.e.data.assistant == writer
    && s.e.data.ordinal == Some(ordinal) && s.e.data.text.Some?
  }

  /** What was written last under an ordinal, since the last step was started. */
  function LastText(es: seq<Seen>, p: nat, ordinal: int): Option<string> {
    if es == [] then None
    else
      var init, last := es[..|es| - 1], es[|es| - 1];
      if BeginsStep(last, p) then None
      else if Writes(last, p, Writer(init, p), ordinal) then last.e.data.text
      else LastText(init, p, ordinal)
  }

  lemma OnOpenTexts(q: Period, k: Kind, d: Data, ordinal: int)
    requires Sorted(q.texts)
    ensures var r := OnOpen(q, k, d);
      && Sorted(r.texts)
      && r.assistant == (if k.StepStarted? && d.assistant.Some? then d.assistant else q.assistant)
      && Under(r.texts, ordinal) ==
           if k.StepStarted? && d.assistant.Some? then None
           else if k.TextEnded? && d.assistant == q.assistant && d.ordinal == Some(ordinal) && d.text.Some? then d.text
           else Under(q.texts, ordinal)
  {
    if k.TextEnded? && d.ordinal.Some? && d.text.Some? {
      PutTextIsUpdate(q.texts, Text(d.ordinal.value, d.text.value), ordinal);
    }
  }

  lemma {:induction false} FoldedTexts(es: seq<Seen>, p: nat, ordinal: int)
    ensures Sorted(Folded(es, p).texts) && Folded(es, p).assistant == Writer(es, p)
    ensures Under(Folded(es, p).texts, ordinal) == LastText(es, p, ordinal)
  {
    if es != [] {
      var init, last := es[..|es| - 1], es[|es| - 1];
      FoldedTexts(init, p, ordinal);
      OnOpenTexts(Folded(init, p), last.e.kind, last.e.data, ordinal);
    }
  }

  /** The texts of a period are those that its last step wrote, under each ordinal the last one. */
  lemma TextsKnown(sid: string, acc: seq<Event>, p: nat, ordinal: int)
    requires AllDurable(acc) && p < |BusyOf(sid, acc)|
    ensures Under(BusyOf(sid, acc)[p].texts, ordinal) == LastText(SeenIn(sid, acc), p, ordinal)
  {
    PeriodIsFolded(sid, acc, p);
    FoldedTexts(SeenIn(sid, acc), p, ordinal);
    assert BusyOf(sid, acc)[p].texts == Inner(BusyOf(sid, acc)[p]).texts;
  }

  lemma JoinedOne(t: Text)
    ensures Joined([t]) == t.text
  {
    assert [t][1..] == [];
  }

  lemma {:induction false} JoinedInOrder(a: seq<Text>, b: seq<Text>)
    ensures Joined(a + b) == Joined(a) + Joined(b)
  {
    if a == [] {
      assert a + b == b;
    } else {
      assert (a + b)[0] == a[0] && (a + b)[1..] == a[1..] + b;
      JoinedInOrder(a[1..], b);
      Associate(a[0].text, Joined(a[1..]), Joined(b));
    }
  }

  lemma Associate(a: string, b: string, c: string)
    ensures (a + b) + c == a + (b + c)
  {
  }

  // ------------------------------------------------------------ starts and ends

  /** The sequence numbers of the executions that started. */
  function Starts(es: seq<Seen>): seq<int>
    requires forall k :: 0 <= k < |es| ==> es[k].e.durable.Some?
  {
    if es == [] then []
    else
      var init, last := Starts(es[..|es| - 1]), es[|es| - 1];
      if last.e.kind.ExecutionStarted? then init + [last.e.durable.value.seq_] else init
  }

  /** The terminal of an execution that found the period as the latest open one. */
  predicate EndsPeriod(s: Seen, p: nat) {
    (s.e.kind.ExecutionSucceeded? || s.e.kind.ExecutionFailed? || s.e.kind.ExecutionInterrupted?) && s.top == Some(p)
  }

  function HowEnded(es: seq<Seen>, p: nat): (e: Option<Event>)
    requires forall k :: 0 <= k < |es| ==> es[k].e.durable.Some?
    ensures e.Some? ==> e.value.durable.Some?
  {
    if es == [] then None
    else if EndsPeriod(es[|es| - 1], p) then Some(es[|es| - 1].e)
    else HowEnded(es[..|es| - 1], p)
  }

  /** What an execution's terminal says of it. */
  function OutcomeOf(k: Kind): Outcome {
    match k
    case ExecutionSucceeded => Completed
    case ExecutionFailed => Failed
    case ExecutionInterrupted => Cancelled
    case _ => Unknown
  }

  ghost predicate EndsAs(q: Period, ended: Option<Event>)
    requires ended.Some? ==> ended.value.durable.Some?
  {
    match ended
    case None => q.end.None? && q.outcome.None? && q.error.None?
    case Some(e) =>
      && q.end == Some(e.durable.value.seq_) && q.outcome == Some(OutcomeOf(e.kind))
      && q.error == if e.kind.ExecutionFailed? then Some(FailedWith(e.data)) else None
  }

  lemma OneEnds(busy: seq<Period>, sid: string, e: Event, p: nat, ended: Option<Event>)
    requires e.durable.Some? && p < |busy| && (ended.Some? ==> ended.value.durable.Some?) && EndsAs(busy[p], ended)
    ensures var b := ApplyDurable(busy, sid, e.kind, e.data, e.durable.value.seq_);
      && p < |b| && b[p].start == busy[p].start
      && EndsAs(b[p], if EndsPeriod(SeenBy(busy, sid, e), p) then Some(e) else ended)
  {
    OnOpenKeepsFrame(busy[p], e.kind, e.data);
  }

  lemma OneOpens(busy: seq<Period>, sid: string, e: Event)
    requires e.durable.Some?
    ensures var b := ApplyDurable(busy, sid, e.kind, e.data, e.durable.value.seq_);
      if e.kind.ExecutionStarted? then b == busy + [NewPeriod(e.durable.value.seq_)] else |b| == |busy|
  {
  }

  lemma {:induction false} NoEndYet(es: seq<Seen>, p: nat)
    requires forall k :: 0 <= k < |es| ==> es[k].e.durable.Some? && es[k].top != Some(p)
    ensures HowEnded(es, p).None?
  {
    if es != [] { NoEndYet(es[..|es| - 1], p); }
  }

  lemma {:induction false} TopsBelow(sid: string, acc: seq<Event>, p: nat)
    requires AllDurable(acc) && p >= |BusyOf(sid, acc)|
    ensures forall k :: 0 <= k < |acc| ==> SeenIn(sid, acc)[k].top != Some(p)
  {
    if acc != [] {
      assert |BusyOf(sid, acc[..|acc| - 1])| <= |BusyOf(sid, acc)|;
      TopsBelow(sid, acc[..|acc| - 1], p);
    }
  }

  lemma {:induction false} SeenDurable(sid: string, acc: seq<Event>)
    requires AllDurable(acc)
    ensures forall k :: 0 <= k < |acc| ==> SeenIn(sid, acc)[k].e == acc[k] && acc[k].durable.Some?
  {
    if acc != [] { SeenDurable(sid, acc[..|acc| - 1]); }
  }

  /** There is one period for every execution that started, from its sequence number on; and it ended as
      the terminal that found it open says, or not at all. */
  lemma {:induction false} PeriodsKnown(sid: string, acc: seq<Event>, p: nat)
    requires AllDurable(acc) && p < |BusyOf(sid, acc)|
    ensures forall k :: 0 <= k < |acc| ==> SeenIn(sid, acc)[k].e.durable.Some?
    ensures var es := SeenIn(sid, acc);
      && |Starts(es)| == |BusyOf(sid, acc)| && BusyOf(sid, acc)[p].start == Starts(es)[p]
      && EndsAs(BusyOf(sid, acc)[p], HowEnded(es, p))
  {
    var n := |acc| - 1;
    var before, es := BusyOf(sid, acc[..n]), SeenIn(sid, acc);
    SeenDurable(sid, acc);
    StartsCounted(sid, acc[..n]);
    assert es[..n] == SeenIn(sid, acc[..n]);
    OneOpens(before, sid, acc[n]);
    if p < |before| {
      PeriodsKnown(sid, acc[..n], p);
      OneEnds(before, sid, acc[n], p, HowEnded(es[..n], p));
    } else {
      TopsBelow(sid, acc[..n], p);
      NoEndYet(es[..n], p);
    }
  }

  lemma {:induction false} StartsCounted(sid: string, acc: seq<Event>)
    requires AllDurable(acc)
    ensures forall k :: 0 <= k < |acc| ==> SeenIn(sid, acc)[k].e.durable.Some?
    ensures |Starts(SeenIn(sid, acc))| == |BusyOf(sid, acc)|
  {
    SeenDurable(sid, acc);
    if acc != [] {
      var n := |acc| - 1;
      StartsCounted(sid, acc[..n]);
      assert SeenIn(sid, acc)[..n] == SeenIn(sid, acc[..n]);
      OneOpens(BusyOf(sid, acc[..n]), sid, acc[n]);
    }
  }

  // ------------------------------------------------------------ compactions

  predicate IsStart(s: Seen, p: nat) {
    Meeting(s, p) && s.e.kind.CompactionStarted?
  }

  predicate IsEnd(s: Seen, p: nat) {
    Meeting(s, p) && (s.e.kind.CompactionEnded? || s.e.kind.CompactionFailed?)
  }

  /** How badly a started input fits a terminal's: its own, an unnamed one, another. A terminal without an
      input takes any. */
  function Misfit(terminal: Option<string>, started: Option<string>): nat {
    if terminal.None? || started == terminal then 0 else if started.None? then 1 else 2
  }

  /** The start at `j` has not been consumed. */
  ghost predicate Waiting(es: seq<Seen>, p: nat, j: nat)
    decreases |es|, 0
  {
    j < |es| && IsStart(es[j], p) && forall k :: j < k < |es| ==> !Consumes(es, p, k, j)
  }

  /** The terminal at `k` consumes the start at `j`: of those that wait it fits best, and is the oldest such. */
  ghost predicate Consumes(es: seq<Seen>, p: nat, k: nat, j: nat)
    requires k < |es|
    decreases k, 2
  {
    IsEnd(es[k], p) && Best(es[..k], p, es[k].e.data.input, j)
  }

  ghost predicate Best(es: seq<Seen>, p: nat, terminal: Option<string>, j: nat)
    decreases |es|, 1
  {
    && Waiting(es, p, j) && Misfit(terminal, es[j].e.data.input) < 2
    && forall i :: 0 <= i < |es| && Waiting(es, p, i) ==>
         Precedes(Misfit(terminal, es[j].e.data.input), j, Misfit(terminal, es[i].e.data.input), i)
  }

  predicate Precedes(fit: nat, at: nat, fit': nat, at': nat) {
    fit < fit' || (fit == fit' && at <= at')
  }

  lemma WaitingMoves(es: seq<Seen>, x: Seen, p: nat, j: nat)
    ensures Waiting(es + [x], p, j) <==>
      if j < |es| then Waiting(es, p, j) && !(IsEnd(x, p) && Best(es, p, x.e.data.input, j))
      else j == |es| && IsStart(x, p)
  {
    var all := es + [x];
    var n := |es|;
    assert all[n] == x && all[..n] == es;
    if j < n {
      assert all[j] == es[j];
      forall k | j < k < n ensures Consumes(all, p, k, j) <==> Consumes(es, p, k, j) {
        assert all[..k] == es[..k] && all[k] == es[k];
      }
      assert Consumes(all, p, n, j) <==> IsEnd(x, p) && Best(es, p, x.e.data.input, j);
      if Waiting(es, p, j) && !Consumes(all, p, n, j) {
        forall k | j < k < |all| ensures !Consumes(all, p, k, j) { assert k == n || k < n; }
      }
    }
  }

  /** The start that the interpreter takes is the best fit, and the oldest such. */
  lemma MatchIsBest(starts: seq<Option<string>>, x: Option<string>)
    ensures var m := MatchStart(starts, x);
      if m.Some? then
        && Misfit(x, starts[m.value]) < 2
        && forall i :: 0 <= i < |starts| ==> Precedes(Misfit(x, starts[m.value]), m.value, Misfit(x, starts[i]), i)
      else forall i :: 0 <= i < |starts| ==> Misfit(x, starts[i]) == 2
  {
    if x.Some? {
      FirstIsFirst(starts, x);
      FirstIsFirst(starts, None);
    }
  }

  lemma FirstIsFirst(starts: seq<Option<string>>, x: Option<string>)
    ensures var f := FirstIndex(starts, x);
      if f.Some? then forall i :: 0 <= i < f.value ==> starts[i] != x
      else forall i :: 0 <= i < |starts| ==> starts[i] != x
  {
    var f := FirstIndex(starts, x);
    if f.Some? { assert forall i :: 0 <= i < f.value ==> starts[i] == starts[..f.value][i]; }
  }

  /** The positions of the starts that a period holds, in order. */
  ghost predicate Tracks(js: seq<nat>, es: seq<Seen>, p: nat, starts: seq<Option<string>>) {
    && Ascending(js) && |js| == |starts|
    && (forall i :: 0 <= i < |js| ==> js[i] < |es| && starts[i] == es[js[i]].e.data.input)
    && (forall j: nat :: j in js <==> Waiting(es, p, j))
  }

  lemma TracksStart(js: seq<nat>, es: seq<Seen>, x: Seen, p: nat, starts: seq<Option<string>>)
    requires Tracks(js, es, p, starts) && IsStart(x, p)
    ensures Tracks(js + [|es|], es + [x], p, starts + [x.e.data.input])
  {
    var all, js' := es + [x], js + [|es|];
    forall j: nat ensures j in js' <==> Waiting(all, p, j) { WaitingMoves(es, x, p, j); }
  }

  lemma TracksOther(js: seq<nat>, es: seq<Seen>, x: Seen, p: nat, starts: seq<Option<string>>)
    requires Tracks(js, es, p, starts) && !IsStart(x, p)
    requires IsEnd(x, p) ==> MatchStart(starts, x.e.data.input).None?
    ensures Tracks(js, es + [x], p, starts)
    ensures IsEnd(x, p) ==> forall j: nat :: !Best(es, p, x.e.data.input, j)
  {
    if IsEnd(x, p) {
      MatchIsBest(starts, x.e.data.input);
      forall j: nat ensures !Best(es, p, x.e.data.input, j) {
        if Waiting(es, p, j) {
          assert j in js;
          var i :| 0 <= i < |js| && js[i] == j;
          assert Misfit(x.e.data.input, starts[i]) == 2;
        }
      }
    }
    forall j: nat ensures j in js <==> Waiting(es + [x], p, j) { WaitingMoves(es, x, p, j); }
  }

  lemma BestIsMatch(js: seq<nat>, es: seq<Seen>, p: nat, starts: seq<Option<string>>, terminal: Option<string>, m: nat)
    requires Tracks(js, es, p, starts) && MatchStart(starts, terminal) == Some(m)
    ensures m < |js| && forall j: nat :: Best(es, p, terminal, j) <==> j == js[m]
  {
    MatchIsBest(starts, terminal);
    var b := js[m];
    assert b in js;
    forall i | 0 <= i < |es| && Waiting(es, p, i)
      ensures Precedes(Misfit(terminal, es[b].e.data.input), b, Misfit(terminal, es[i].e.data.input), i)
    {
      assert i in js;
      var k :| 0 <= k < |js| && js[k] == i;
      assert Precedes(Misfit(terminal, starts[m]), m, Misfit(terminal, starts[k]), k);
    }
    assert Best(es, p, terminal, b);
    forall j: nat | Best(es, p, terminal, j) ensures j == b {
      assert Waiting(es, p, j) && Waiting(es, p, b) && j < |es| && b < |es|;
    }
  }

  lemma RemovedAt(js: seq<nat>, m: nat, j: nat)
    requires Ascending(js) && m < |js|
    ensures Ascending(js[..m] + js[m + 1..])
    ensures j in js[..m] + js[m + 1..] <==> j in js && j != js[m]
  {
    var js' := js[..m] + js[m + 1..];
    if j in js && j != js[m] {
      var i :| 0 <= i < |js| && js[i] == j;
      assert js'[if i < m then i else i - 1] == j;
    }
  }

  lemma TracksEnd(js: seq<nat>, es: seq<Seen>, x: Seen, p: nat, starts: seq<Option<string>>, m: nat)
    requires Tracks(js, es, p, starts) && IsEnd(x, p) && MatchStart(starts, x.e.data.input) == Some(m)
    ensures m < |js| && Tracks(js[..m] + js[m + 1..], es + [x], p, starts[..m] + starts[m + 1..])
  {
    BestIsMatch(js, es, p, starts, x.e.data.input, m);
    var js' := js[..m] + js[m + 1..];
    RemovedAt(js, m, 0);
    forall j: nat ensures j in js' <==> Waiting(es + [x], p, j) {
      RemovedAt(js, m, j);
      WaitingMoves(es, x, p, j);
      if j in js { assert Waiting(es, p, j); }
    }
  }

  lemma OnOpenCompactions(q: Period, k: Kind, d: Data)
    ensures var r := OnOpen(q, k, d);
      r.compactionStarts ==
        if k.CompactionStarted? then q.compactionStarts + [d.input]
        else if IsCompactionTerminal(k) && MatchStart(q.compactionStarts, d.input).Some? then
          var m := MatchStart(q.compactionStarts, d.input).value;
          q.compactionStarts[..m] + q.compactionStarts[m + 1..]
        else q.compactionStarts
  {
  }

  /** The started compactions that a period holds are those that wait, in order. */
  lemma {:induction false} FoldedStarts(es: seq<Seen>, p: nat) returns (js: seq<nat>)
    ensures Tracks(js, es, p, Folded(es, p).compactionStarts)
  {
    js := [];
    if es != [] {
      var init, x := es[..|es| - 1], es[|es| - 1];
      js := FoldedStarts(init, p);
      var starts := Folded(init, p).compactionStarts;
      assert es == init + [x];
      OnOpenCompactions(Folded(init, p), x.e.kind, x.e.data);
      if IsStart(x, p) {
        TracksStart(js, init, x, p, starts);
        js := js + [|init|];
      } else if IsEnd(x, p) && MatchStart(starts, x.e.data.input).Some? {
        var m := MatchStart(starts, x.e.data.input).value;
        TracksEnd(js, init, x, p, starts, m);
        js := js[..m] + js[m + 1..];
      } else {
        TracksOther(js, init, x, p, starts);
      }
    }
  }

  /** Whom the compaction that ends at `k` is for: the input its start names, else the terminal's. */
  ghost predicate Owns(es: seq<Seen>, p: nat, k: nat, owner: Option<string>) {
    exists j: nat ::
      k < |es| && j < k && Consumes(es, p, k, j) && owner == OwnedBy(es[j].e.data.input, es[k].e.data.input)
  }

  function OwnedBy(named: Option<string>, terminal: Option<string>): Option<string> {
    match named
    case None => terminal
    case Some(name) => if name == "" then terminal else named
  }

  lemma OwnsBefore(es: seq<Seen>, x: Seen, p: nat, k: nat, owner: Option<string>)
    requires k < |es|
    ensures Owns(es + [x], p, k, owner) <==> Owns(es, p, k, owner)
  {
    var all := es + [x];
    assert all[k] == es[k] && all[..k] == es[..k];
    forall j: nat | j < k ensures all[j] == es[j] && (Consumes(all, p, k, j) <==> Consumes(es, p, k, j)) { }
  }

  /** The recorded compactions and the positions of their terminals. */
  ghost predicate Records(ks: seq<nat>, es: seq<Seen>, p: nat, cs: seq<Compaction>) {
    && Ascending(ks) && |ks| == |cs|
    && (forall i :: 0 <= i < |ks| ==> ks[i] < |es| && Owns(es, p, ks[i], cs[i].input))
    && (forall k: nat :: k in ks <==> CompactionCounts(es, p, k))
  }

  /** A compaction terminal counts for the period it meets if it consumes a start there. */
  ghost predicate CompactionCounts(es: seq<Seen>, p: nat, k: nat) {
    exists j: nat :: k < |es| && j < k && Consumes(es, p, k, j)
  }

  lemma CountsBefore(es: seq<Seen>, x: Seen, p: nat, k: nat)
    requires k < |es|
    ensures CompactionCounts(es + [x], p, k) <==> CompactionCounts(es, p, k)
  {
    var all := es + [x];
    assert all[k] == es[k] && all[..k] == es[..k];
    forall j: nat | j < k ensures Consumes(all, p, k, j) <==> Consumes(es, p, k, j) { }
  }

  lemma RecordsOther(ks: seq<nat>, es: seq<Seen>, x: Seen, p: nat, cs: seq<Compaction>)
    requires Records(ks, es, p, cs) && !CompactionCounts(es + [x], p, |es|)
    ensures Records(ks, es + [x], p, cs)
  {
    forall i | 0 <= i < |ks| ensures Owns(es + [x], p, ks[i], cs[i].input) { OwnsBefore(es, x, p, ks[i], cs[i].input); }
    forall k: nat ensures k in ks <==> CompactionCounts(es + [x], p, k) {
      if k < |es| { CountsBefore(es, x, p, k); }
    }
  }

  lemma RecordsOne(ks: seq<nat>, es: seq<Seen>, x: Seen, p: nat, cs: seq<Compaction>, c: Compaction)
    requires Records(ks, es, p, cs) && Owns(es + [x], p, |es|, c.input)
    ensures Records(ks + [|es|], es + [x], p, cs + [c])
  {
    var all, ks', cs' := es + [x], ks + [|es|], cs + [c];
    forall i | 0 <= i < |ks'| ensures ks'[i] < |all| && Owns(all, p, ks'[i], cs'[i].input) {
      if i < |ks| { OwnsBefore(es, x, p, ks[i], cs[i].input); }
    }
    forall k: nat ensures k in ks' <==> CompactionCounts(all, p, k) {
      if k < |es| { CountsBefore(es, x, p, k); }
      else if k == |es| { assert ks'[|ks|] == k; }
    }
  }

  lemma OnOpenRecords(q: Period, k: Kind, d: Data)
    ensures var r := OnOpen(q, k, d);
      r.compactions ==
        if IsCompactionTerminal(k) && MatchStart(q.compactionStarts, d.input).Some? then
          q.compactions
          + [Compaction(OwnedBy(q.compactionStarts[MatchStart(q.compactionStarts, d.input).value], d.input), d.tokens)]
        else q.compactions
  {
  }

  /** Whether the next event consumes a start, and which. */
  lemma NextConsumes(es: seq<Seen>, x: Seen, p: nat, js: seq<nat>, starts: seq<Option<string>>)
    requires Tracks(js, es, p, starts)
    ensures var m := MatchStart(starts, x.e.data.input);
      if IsEnd(x, p) && m.Some? then
        m.value < |js| && Owns(es + [x], p, |es|, OwnedBy(starts[m.value], x.e.data.input))
      else !CompactionCounts(es + [x], p, |es|)
  {
    var all, n := es + [x], |es|;
    assert all[n] == x && all[..n] == es;
    var m := MatchStart(starts, x.e.data.input);
    if IsEnd(x, p) {
      if m.Some? {
        BestIsMatch(js, es, p, starts, x.e.data.input, m.value);
        var j := js[m.value];
        assert Consumes(all, p, n, j) && all[j] == es[j];
      } else {
        TracksOther(js, es, x, p, starts);
        forall j: nat | j < n ensures !Consumes(all, p, n, j) { }
      }
    }
  }

  /** The compactions that a period recorded are those that count, each for its owner. */
  lemma {:induction false} FoldedRecords(es: seq<Seen>, p: nat) returns (ks: seq<nat>)
    ensures Records(ks, es, p, Folded(es, p).compactions)
  {
    ks := [];
    if es != [] {
      var init, x := es[..|es| - 1], es[|es| - 1];
      ks := FoldedRecords(init, p);
      var js := FoldedStarts(init, p);
      var q := Folded(init, p);
      assert es == init + [x];
      OnOpenRecords(q, x.e.kind, x.e.data);
      NextConsumes(init, x, p, js, q.compactionStarts);
      var m := MatchStart(q.compactionStarts, x.e.data.input);
      if IsEnd(x, p) && m.Some? {
        var c := Compaction(OwnedBy(q.compactionStarts[m.value], x.e.data.input), x.e.data.tokens);
        RecordsOne(ks, init, x, p, q.compactions, c);
        ks := ks + [|init|];
      } else {
        RecordsOther(ks, init, x, p, q.compactions);
      }
    }
  }

  lemma {:induction false} SameAscending(a: seq<nat>, b: seq<nat>)
    requires Ascending(a) && Ascending(b) && forall k :: k in a <==> k in b
    ensures a == b
    decreases |a|
  {
    assert a != [] ==> a[0] in a;
    assert b != [] ==> b[0] in b;
    if a != [] && b != [] {
      var x, y := a[|a| - 1], b[|b| - 1];
      assert x in a && y in b;
      assert x == y;
      var a', b' := a[..|a| - 1], b[..|b| - 1];
      forall k ensures k in a' <==> k in b' {
        assert k in a' <==> k in a && k != x by { WithoutLast(a, k); }
        assert k in b' <==> k in b && k != y by { WithoutLast(b, k); }
      }
      SameAscending(a', b');
      assert a == a' + [x] && b == b' + [y];
    }
  }

  lemma WithoutLast(a: seq<nat>, k: nat)
    requires Ascending(a) && a != []
    ensures k in a[..|a| - 1] <==> k in a && k != a[|a| - 1]
  {
    if k in a && k != a[|a| - 1] {
      var i :| 0 <= i < |a| && a[i] == k;
      assert a[..|a| - 1][i] == k;
    }
  }

  lemma {:induction false} CompactionPositions(sid: string, acc: seq<Event>, p: nat, k: nat)
    requires AllDurable(acc)
    ensures k in Positions(ACompaction, sid, acc, p) <==> CompactionCounts(SeenIn(sid, acc), p, k)
  {
    PositionsExact(ACompaction, sid, acc, p, k);
    if k < |acc| {
      SeenAt(sid, acc, k);
      CompactionAt(sid, acc[..k], acc[k], p);
      var es := SeenIn(sid, acc);
      assert es[..k + 1] == es[..k] + [es[k]];
      CountsUpTo(es, p, k);
    }
  }

  /** Whether a terminal counts is decided when it arrives. */
  lemma CountsUpTo(es: seq<Seen>, p: nat, k: nat)
    requires k < |es|
    ensures CompactionCounts(es, p, k) <==> CompactionCounts(es[..k + 1], p, k)
  {
    var u := es[..k + 1];
    assert u[..k] == es[..k] && u[k] == es[k];
    forall j: nat | j < k ensures Consumes(u, p, k, j) <==> Consumes(es, p, k, j) { }
    if CompactionCounts(u, p, k) {
      var j: nat :| j < k && Consumes(u, p, k, j);
      assert Consumes(es, p, k, j);
    }
  }

  lemma CompactionAt(sid: string, acc: seq<Event>, e: Event, p: nat)
    requires AllDurable(acc) && e.durable.Some?
    ensures var busy, es := BusyOf(sid, acc), SeenIn(sid, acc);
      Target(ACompaction, busy, sid, e) == Some(p) <==> CompactionCounts(es + [SeenBy(busy, sid, e)], p, |es|)
  {
    var busy, es := BusyOf(sid, acc), SeenIn(sid, acc);
    var x := SeenBy(busy, sid, e);
    var js := FoldedStarts(es, p);
    NextConsumes(es, x, p, js, Folded(es, p).compactionStarts);
    if Meets(busy, sid, e) == Some(p) {
      PeriodIsFolded(sid, acc, p);
      assert busy[p].compactionStarts == Inner(busy[p]).compactionStarts;
    }
  }

  // ------------------------------------------------------------ the main result about usage

  /** The input is the only one that was delivered in the period. */
  ghost predicate OnlyDelivered(es: seq<Seen>, p: nat, id: string) {
    DeliveredIn(es, p, id) && forall x :: DeliveredIn(es, p, x) ==> x == id
  }

  /** A compaction terminal counts for the input it is for; one that is for nobody, for the only input that
      was delivered. */
  ghost predicate ChargedTo(es: seq<Seen>, p: nat, k: nat, id: Option<string>) {
    exists owner ::
      Owns(es, p, k, owner) && (owner == id || (owner.None? && id.Some? && OnlyDelivered(es, p, id.value)))
  }

  lemma OneElement(s: set<string>, id: string)
    ensures |s| == 1 && id in s <==> id in s && forall x :: x in s ==> x == id
  {
    if id in s {
      var t := s - {id};
      assert |t| == |s| - 1;
      assert t == {} <==> forall x :: x in s ==> x == id by {
        forall x | x in s && x != id ensures x in t { }
      }
    }
  }

  lemma OwnerIsOne(es: seq<Seen>, p: nat, k: nat, a: Option<string>, b: Option<string>)
    requires Owns(es, p, k, a) && Owns(es, p, k, b)
    ensures a == b
  {
    var i: nat :| k < |es| && i < k && Consumes(es, p, k, i) && a == OwnedBy(es[i].e.data.input, es[k].e.data.input);
    var j: nat :| k < |es| && j < k && Consumes(es, p, k, j) && b == OwnedBy(es[j].e.data.input, es[k].e.data.input);
    BestIsOne(es[..k], p, es[k].e.data.input, i, j);
  }

  lemma BestIsOne(es: seq<Seen>, p: nat, terminal: Option<string>, i: nat, j: nat)
    requires Best(es, p, terminal, i) && Best(es, p, terminal, j)
    ensures i == j
  {
    assert Waiting(es, p, i) && Waiting(es, p, j);
  }

  /** The charge that the interpreter computes is the charge by the events. */
  lemma ChargeIs(sid: string, acc: seq<Event>, p: nat, k: nat, c: Compaction, id: Option<string>)
    requires AllDurable(acc) && p < |BusyOf(sid, acc)| && Owns(SeenIn(sid, acc), p, k, c.input)
    ensures Charged(c, BusyOf(sid, acc)[p], id) <==> ChargedTo(SeenIn(sid, acc), p, k, id)
  {
    var es, q := SeenIn(sid, acc), BusyOf(sid, acc)[p];
    forall x ensures x in q.delivered <==> DeliveredIn(es, p, x) { DeliveriesKnown(sid, acc, p, x); }
    if id.Some? { OneElement(q.delivered, id.value); }
    forall owner | Owns(es, p, k, owner) ensures owner == c.input { OwnerIsOne(es, p, k, owner, c.input); }
  }

  lemma {:induction false} InCharged(q: Period, cs: seq<nat>, n: nat, id: Option<string>, k: nat)
    requires n <= |cs| && n <= |q.compactions|
    ensures k in ChargedOf(q, cs, n, id) <==> exists i :: 0 <= i < n && cs[i] == k && Charged(q.compactions[i], q, id)
  {
    if n > 0 {
      InCharged(q, cs, n - 1, id, k);
      var ks := ChargedOf(q, cs, n - 1, id);
      assert k in ks + [cs[n - 1]] <==> k in ks || k == cs[n - 1];
    }
  }

  /** Exactly these events count for the invocation that a period settled: the terminals of steps that were
      under way in it, and the terminals of compactions that are for its input. */
  lemma AttributedIff(sid: string, acc: seq<Event>, p: nat, id: Option<string>, k: nat)
    requires AllDurable(acc) && p < |BusyOf(sid, acc)|
    ensures k in Attributed(sid, acc, p, id) <==>
      StepCounts(SeenIn(sid, acc), p, k) || ChargedTo(SeenIn(sid, acc), p, k, id)
  {
    var es, q, cs := SeenIn(sid, acc), BusyOf(sid, acc)[p], Positions(ACompaction, sid, acc, p);
    PeriodCounts(sid, acc, p);
    PeriodIsFolded(sid, acc, p);
    StepPositions(sid, acc, p, k);
    assert q.compactions == Inner(q).compactions;
    var ks := FoldedRecords(es, p);
    PositionsAscend(ACompaction, sid, acc, p);
    forall i: nat ensures i in ks <==> i in cs { CompactionPositions(sid, acc, p, i); }
    SameAscending(ks, cs);
    InCharged(q, cs, |cs|, id, k);
    ChargedIff(sid, acc, p, id, k, cs);
    InBoth(Positions(AStep, sid, acc, p), ChargedOf(q, cs, |cs|, id), k);
  }

  lemma InBoth(a: seq<nat>, b: seq<nat>, k: nat)
    ensures k in a + b <==> k in a || k in b
  {
  }

  lemma ChargedIff(sid: string, acc: seq<Event>, p: nat, id: Option<string>, k: nat, cs: seq<nat>)
    requires AllDurable(acc) && p < |BusyOf(sid, acc)|
    requires Records(cs, SeenIn(sid, acc), p, BusyOf(sid, acc)[p].compactions)
    ensures (exists i ::
               0 <= i < |cs| && cs[i] == k && Charged(BusyOf(sid, acc)[p].compactions[i], BusyOf(sid, acc)[p], id))
       <==> ChargedTo(SeenIn(sid, acc), p, k, id)
  {
    var es, q := SeenIn(sid, acc), BusyOf(sid, acc)[p];
    if i :| 0 <= i < |cs| && cs[i] == k && Charged(q.compactions[i], q, id) {
      ChargeIs(sid, acc, p, k, q.compactions[i], id);
    }
    if ChargedTo(es, p, k, id) {
      var owner :| Owns(es, p, k, owner);
      assert CompactionCounts(es, p, k);
      assert k in cs;
      var i :| 0 <= i < |cs| && cs[i] == k;
      ChargeIs(sid, acc, p, k, q.compactions[i], id);
    }
  }

  // ------------------------------------------------------------ settlements by the events

  /** The step terminals of a period, in order. */
  ghost predicate CountedSteps(ks: seq<nat>, es: seq<Seen>, p: nat) {
    Ascending(ks) && forall k: nat :: k in ks <==> StepCounts(es, p, k)
  }

  /** What counts for an input, each position once. */
  ghost predicate CountedFor(ks: seq<nat>, es: seq<Seen>, p: nat, id: Option<string>) {
    && (forall i, j :: 0 <= i < j < |ks| ==> ks[i] != ks[j])
    && (forall k: nat :: k in ks <==> StepCounts(es, p, k) || ChargedTo(es, p, k, id))
  }

  /** Over every stream: a settled invocation reports as many steps as step terminals count by the events,
      and in every field the sum of the finite values of the events that count for it. */
  lemma SettledUsageByEvents(sid: string, ops: seq<Op>, i: nat) returns (steps: seq<nat>, ks: seq<nat>)
    requires var s := Run(Fresh(sid), ops); i < |s.invs| && s.invs[i].period.Some?
    ensures var s := Run(Fresh(sid), ops);
      var acc, v := Durables(s.log), s.invs[i];
      var es := SeenIn(sid, acc);
      && CountedSteps(steps, es, v.period.value) && CountedFor(ks, es, v.period.value, v.inputId)
      && (forall i :: 0 <= i < |ks| ==> ks[i] < |acc|)
      && Reports(v.usage, |steps|, TokensAt(acc, ks))
  {
    var s := Run(Fresh(sid), ops);
    var acc, v := Durables(s.log), s.invs[i];
    OneSettlementIsExact(sid, ops, i);
    var p := v.period.value;
    steps, ks := Positions(AStep, sid, acc, p), Attributed(sid, acc, p, v.inputId);
    PositionsAscend(AStep, sid, acc, p);
    forall k: nat ensures k in steps <==> StepCounts(SeenIn(sid, acc), p, k) { StepPositions(sid, acc, p, k); }
    forall k: nat
      ensures k in ks <==> StepCounts(SeenIn(sid, acc), p, k) || ChargedTo(SeenIn(sid, acc), p, k, v.inputId) {
      AttributedIff(sid, acc, p, v.inputId, k);
    }
    forall a, b | 0 <= a < b < |ks| ensures ks[a] != ks[b] { AttributedOnce(sid, acc, p, v.inputId, a, b); }
  }

  ghost predicate SpellsTheLastStep(result: Option<string>, es: seq<Seen>, p: nat) {
    exists texts: seq<Text> ::
      && Sorted(texts) && (forall ordinal :: Under(texts, ordinal) == LastText(es, p, ordinal))
      && result == if texts == [] then None else Some(Joined(texts))
  }

  /** Over every stream: the result of a settled invocation spells what the last step of its period wrote,
      under each ordinal the last text, in the order of the ordinals. */
  lemma SettledResultByEvents(sid: string, ops: seq<Op>, i: nat)
    requires var s := Run(Fresh(sid), ops); i < |s.invs| && s.invs[i].period.Some?
    ensures var s := Run(Fresh(sid), ops);
      SpellsTheLastStep(s.invs[i].result, SeenIn(sid, Durables(s.log)), s.invs[i].period.value)
  {
    var s := Run(Fresh(sid), ops);
    var acc, v := Durables(s.log), s.invs[i];
    SettledAsTheLogSays(sid, ops, i);
    ResultsSpellTheLastStep(sid, ops, i);
    var p := v.period.value;
    var texts := s.busy[p].texts;
    assert texts == Unmarked(s.busy[p]).texts == BusyOf(sid, acc)[p].texts;
    forall ordinal ensures Under(texts, ordinal) == LastText(SeenIn(sid, acc), p, ordinal) {
      TextsKnown(sid, acc, p, ordinal);
    }
  }

  /** Over every stream: a settled invocation was delivered between the start of its period and the terminal
      that ended it, and reports what that terminal says, unless a confirmed halt made it cancelled. */
  lemma SettledOutcomeByEvents(sid: string, ops: seq<Op>, i: nat)
    requires var s := Run(Fresh(sid), ops); i < |s.invs| && s.invs[i].period.Some?
    ensures var s := Run(Fresh(sid), ops);
      forall k :: 0 <= k < |Durables(s.log)| ==> SeenIn(sid, Durables(s.log))[k].e.durable.Some?
    ensures var s := Run(Fresh(sid), ops);
      var v, es := s.invs[i], SeenIn(sid, Durables(s.log));
      var ended := HowEnded(es, v.period.value);
      && v.period.value < |Starts(es)| && v.deliveredSeq.Some? && ended.Some?
      && Starts(es)[v.period.value] <= v.deliveredSeq.value <= ended.value.durable.value.seq_
      && (v.outcome == OutcomeOf(ended.value.kind) || v.outcome == Cancelled)
      && (ended.value.kind.ExecutionFailed? ==> v.error == Some(FailedWith(ended.value.data)))
  {
    var s := Run(Fresh(sid), ops);
    var acc, v := Durables(s.log), s.invs[i];
    SettledAsTheLogSays(sid, ops, i);
    var p := v.period.value;
    PeriodsKnown(sid, acc, p);
    var q := BusyOf(sid, acc)[p];
    assert s.busy[p] == q.(used := s.busy[p].used) by { assert Unmarked(s.busy[p]) == Unmarked(q); }
  }
}
