/** The OpenCode event interpreter as functions on values: how one native session folds its
    sequence-numbered event stream into busy periods, deliveries, usage and settlements. */
module OpencodeModel {
  import opened Options

  // ------------------------------------------------------------ events

  /** A counter value as it arrives: absent or of another type, not finite, or finite. */
  datatype Num = NotANumber | NonFinite | Finite(value: real)

  datatype Tokens = Tokens(input: Num, output: Num, reasoning: Num, cacheRead: Num, cacheWrite: Num, cost: Num)

  datatype Kind =
    | ExecutionStarted | ExecutionSucceeded | ExecutionFailed | ExecutionInterrupted
    | StepStarted | StepEnded | StepFailed
    | CompactionStarted | CompactionEnded | CompactionFailed
    | InboxEnqueued | InboxDelivered | TextEnded | OtherKind

  datatype Data = Data(
    session: Option<string>, assistant: Option<string>, inbox: Option<string>, input: Option<string>,
    ordinal: Option<int>, text: Option<string>, tokens: Tokens)

  datatype Durable = Durable(aggregate: string, seq_: int)

  datatype Event = Event(kind: Kind, data: Data, durable: Option<Durable>)

  // ------------------------------------------------------------ busy periods

  datatype Outcome = Unknown | Running | Completed | Failed | Cancelled

  /** Why an invocation failed: the data of the failing event, or the reason of a cancel. */
  datatype Failure = FailedWith(data: Data) | CancelReason(reason: string)

  datatype Usage = Usage(
    input: Option<real>, output: Option<real>, reasoning: Option<real>,
    cacheRead: Option<real>, cacheWrite: Option<real>, cost: Option<real>, steps: nat)

  const NoUsage := Usage(None, None, None, None, None, None, 0)

  /** The texts of a step, a dictionary kept here in ascending order of its keys. */
  datatype Text = Text(ordinal: int, text: string)

  function PutText(texts: seq<Text>, t: Text): seq<Text> {
    if texts == [] || t.ordinal < texts[0].ordinal then [t] + texts
    else if t.ordinal == texts[0].ordinal then [t] + texts[1..]
    else [texts[0]] + PutText(texts[1..], t)
  }

  datatype Compaction = Compaction(input: Option<string>, tokens: Tokens)

  datatype Period = Period(
    start: int, end: Option<int>, outcome: Option<Outcome>, error: Option<Failure>, used: bool,
    assistant: Option<string>, texts: seq<Text>, stepStarts: set<string>,
    compactionStarts: seq<Option<string>>, compactions: seq<Compaction>,
    delivered: set<string>, usage: Usage, result: Option<string>)

  function NewPeriod(start: int): Period {
    Period(start, None, None, None, false, None, [], {}, [], [], {}, NoUsage, None)
  }

  function Plus(total: Option<real>, n: Num): Option<real> {
    if n.Finite? then Some((if total.Some? then total.value else 0.0) + n.value) else total
  }

  function Accumulate(u: Usage, t: Tokens): Usage {
    Usage(Plus(u.input, t.input), Plus(u.output, t.output), Plus(u.reasoning, t.reasoning),
          Plus(u.cacheRead, t.cacheRead), Plus(u.cacheWrite, t.cacheWrite), Plus(u.cost, t.cost), u.steps)
  }

  /** The latest period that is still open. */
  function TopOpen(busy: seq<Period>): (top: Option<nat>)
    ensures top.Some? ==> top.value < |busy| && busy[top.value].end.None?
    ensures top.Some? ==> forall j :: top.value < j < |busy| ==> busy[j].end.Some?
    ensures top.None? ==> forall j :: 0 <= j < |busy| ==> busy[j].end.Some?
  {
    if busy == [] then None
    else if busy[|busy| - 1].end.None? then Some(|busy| - 1)
    else TopOpen(busy[..|busy| - 1])
  }

  function FirstIndex(starts: seq<Option<string>>, x: Option<string>): (at: Option<nat>)
    ensures at.Some? ==> at.value < |starts| && starts[at.value] == x && x !in starts[..at.value]
    ensures at.None? ==> x !in starts
  {
    if starts == [] then None
    else if starts[0] == x then Some(0)
    else match FirstIndex(starts[1..], x)
      case None => None
      case Some(i) => Some(i + 1)
  }

  /** The started compaction a terminal belongs to: its own input id first, then an unnamed one;
      a terminal without an id takes the oldest. */
  function MatchStart(starts: seq<Option<string>>, terminal: Option<string>): (at: Option<nat>)
    ensures at.Some? ==> at.value < |starts|
  {
    if terminal.None? then (if starts == [] then None else Some(0))
    else if FirstIndex(starts, terminal).Some? then FirstIndex(starts, terminal)
    else FirstIndex(starts, None)
  }

  /** An empty id counts as no id. */
  function OwnerOf(started: Option<string>, terminal: Option<string>): Option<string> {
    if started.Some? && started.value != "" then started else terminal
  }

  predicate IsStepTerminal(k: Kind) { k.StepEnded? || k.StepFailed? }
  predicate IsCompactionTerminal(k: Kind) { k.CompactionEnded? || k.CompactionFailed? }
  predicate IsExecutionTerminal(k: Kind) { k.ExecutionSucceeded? || k.ExecutionFailed? || k.ExecutionInterrupted? }

  predicate CountsStep(p: Period, k: Kind, d: Data) {
    IsStepTerminal(k) && d.assistant.Some? && d.assistant.value in p.stepStarts
  }

  predicate CountsCompaction(p: Period, k: Kind, d: Data) {
    IsCompactionTerminal(k) && MatchStart(p.compactionStarts, d.input).Some?
  }

  function CompactionOwner(p: Period, k: Kind, d: Data): Option<string>
    requires CountsCompaction(p, k, d)
  {
    OwnerOf(p.compactionStarts[MatchStart(p.compactionStarts, d.input).value], d.input)
  }

  /** What an event of the session does to the open period. */
  function OnOpen(p: Period, k: Kind, d: Data): Period {
    if k.StepStarted? && d.assistant.Some? then
      p.(assistant := d.assistant, texts := [], stepStarts := p.stepStarts + {d.assistant.value})
    else if k.InboxDelivered? && d.inbox.Some? then
      p.(delivered := p.delivered + {d.inbox.value})
    else if k.CompactionStarted? then
      p.(compactionStarts := p.compactionStarts + [d.input])
    else if CountsStep(p, k, d) then
      p.(stepStarts := p.stepStarts - {d.assistant.value},
         usage := Accumulate(p.usage.(steps := p.usage.steps + 1), d.tokens))
    else if CountsCompaction(p, k, d) then
      var i := MatchStart(p.compactionStarts, d.input).value;
      p.(compactionStarts := p.compactionStarts[..i] + p.compactionStarts[i + 1..],
         compactions := p.compactions + [Compaction(CompactionOwner(p, k, d), d.tokens)])
    else if k.TextEnded? && d.assistant == p.assistant && d.ordinal.Some? && d.text.Some? then
      p.(texts := PutText(p.texts, Text(d.ordinal.value, d.text.value)))
    else p
  }

  /** The texts of a step in the order of their ordinals. */
  function Joined(texts: seq<Text>): string {
    if texts == [] then "" else texts[0].text + Joined(texts[1..])
  }

  function Closed(p: Period, k: Kind, d: Data, at: int): Period {
    p.(end := Some(at),
       outcome := Some(if k.ExecutionSucceeded? then Completed else if k.ExecutionFailed? then Failed else Cancelled),
       error := if k.ExecutionFailed? then Some(FailedWith(d)) else p.error,
       result := if p.texts == [] then p.result else Some(Joined(p.texts)))
  }

  function ApplyDurable(busy: seq<Period>, sid: string, k: Kind, d: Data, at: int): seq<Period> {
    if k.ExecutionStarted? then busy + [NewPeriod(at)]
    else
      var top := TopOpen(busy);
      if top.None? then busy
      else if IsExecutionTerminal(k) then busy[top.value := Closed(busy[top.value], k, d, at)]
      else if d.session == Some(sid) then busy[top.value := OnOpen(busy[top.value], k, d)]
      else busy
  }

  // ------------------------------------------------------------ invocations

  /** One invocation on the session. `period` is history that nothing reads: the busy period
      that settled it. */
  datatype Inv = Inv(
    outcome: Outcome, inputId: Option<string>, baseline: nat, pendingDelivery: bool,
    delivered: bool, deliveredSeq: Option<int>, error: Option<Failure>, result: Option<string>,
    usage: Option<Usage>, settled: bool, period: Option<nat>)

  function NewInv(baseline: nat): Inv {
    Inv(Unknown, None, baseline, false, false, None, None, None, None, false, None)
  }

  function ApplyEvent(v: Inv, sid: string, e: Event): Inv {
    if (e.kind.InboxEnqueued? || e.kind.InboxDelivered?)
       && e.data.session == Some(sid) && e.data.inbox == v.inputId then
      var v1 := v.(pendingDelivery := e.kind.InboxEnqueued?,
                   outcome := if v.outcome.Unknown? then Running else v.outcome);
      if e.kind.InboxDelivered? then
        v1.(delivered := true, deliveredSeq := if e.durable.Some? then Some(e.durable.value.seq_) else v1.deliveredSeq)
      else v1
    else v
  }

  /** The compactions of a period that count for one input. */
  predicate Charged(c: Compaction, p: Period, inputId: Option<string>) {
    c.input == inputId || (c.input.None? && |p.delivered| == 1 && inputId.Some? && inputId.value in p.delivered)
  }

  function AddCompactions(u: Usage, cs: seq<Compaction>, p: Period, inputId: Option<string>): Usage {
    if cs == [] then u
    else
      var last := cs[|cs| - 1];
      var before := AddCompactions(u, cs[..|cs| - 1], p, inputId);
      if Charged(last, p, inputId) then Accumulate(before, last.tokens) else before
  }

  function UsageFor(p: Period, inputId: Option<string>): Usage {
    AddCompactions(p.usage, p.compactions, p, inputId)
  }

  function UsageRecord(u: Usage): Option<Usage> {
    if u.input.None? && u.output.None? && u.reasoning.None? && u.cacheRead.None? && u.cacheWrite.None?
       && u.cost.None? && u.steps == 0
    then None else Some(u)
  }

  predicate Covers(p: Period, at: int) {
    p.end.Some? && p.start <= at <= p.end.value
  }

  /** The first closed, unused period that contains a delivery. */
  function Settling(busy: seq<Period>, at: int): (found: Option<nat>)
    ensures found.Some? ==> found.value < |busy| && !busy[found.value].used && Covers(busy[found.value], at)
    ensures found.Some? ==> forall j :: 0 <= j < found.value ==> busy[j].used || !Covers(busy[j], at)
    ensures found.None? ==> forall j :: 0 <= j < |busy| ==> busy[j].used || !Covers(busy[j], at)
  {
    if busy == [] then None
    else if !busy[0].used && Covers(busy[0], at) then Some(0)
    else match Settling(busy[1..], at)
      case None => None
      case Some(j) => Some(j + 1)
  }

  predicate Awaiting(v: Inv) {
    v.delivered && !v.settled && v.deliveredSeq.Some?
  }

  function SettledBy(v: Inv, p: Period, at: nat): Inv {
    v.(outcome := if p.outcome.Some? then p.outcome.value else Unknown, error := p.error, result := p.result,
       usage := UsageRecord(UsageFor(p, v.inputId)), settled := true, period := Some(at))
  }

  datatype Session = Session(sid: string, log: seq<(Event, bool)>, busy: seq<Period>, lastSeq: int, invs: seq<Inv>)

  function ResolveOne(busy: seq<Period>, v: Inv): (seq<Period>, Inv) {
    if !Awaiting(v) then (busy, v)
    else match Settling(busy, v.deliveredSeq.value)
      case None => (busy, v)
      case Some(p) => (busy[p := busy[p].(used := true)], SettledBy(v, busy[p], p))
  }

  /** `_resolve_pending` over the first `n` invocations. */
  function Resolve(busy: seq<Period>, invs: seq<Inv>, n: nat): (r: (seq<Period>, seq<Inv>))
    requires n <= |invs|
    ensures |r.0| == |busy| && |r.1| == |invs|
  {
    if n == 0 then (busy, invs)
    else
      var (b, vs) := Resolve(busy, invs, n - 1);
      var (b1, v1) := ResolveOne(b, vs[n - 1]);
      (b1, vs[n - 1 := v1])
  }

  function ResolvePending(s: Session): Session {
    var (busy, invs) := Resolve(s.busy, s.invs, |s.invs|);
    s.(busy := busy, invs := invs)
  }

  function Observe(v: Inv, sid: string, e: Event): Inv {
    if v.inputId.None? || v.settled then v else ApplyEvent(v, sid, e)
  }

  predicate Accepts(s: Session, e: Event) {
    e.durable.None? || (e.durable.value.aggregate == s.sid && e.durable.value.seq_ > s.lastSeq)
  }

  /** Everything an accepted event does before pending invocations are resolved. */
  function Fold(s: Session, e: Event): Session {
    s.(lastSeq := if e.durable.Some? then e.durable.value.seq_ else s.lastSeq,
       log := s.log + [(e, true)],
       busy := if e.durable.Some? then ApplyDurable(s.busy, s.sid, e.kind, e.data, e.durable.value.seq_) else s.busy,
       invs := seq(|s.invs|, i requires 0 <= i < |s.invs| => Observe(s.invs[i], s.sid, e)))
  }

  function RecordAndDispatch(s: Session, e: Event): Session {
    if Accepts(s, e) then ResolvePending(Fold(s, e))
    else s.(log := s.log + [(e, false)])
  }

  /** Replays the accepted events from the baseline on, while the invocation is unsettled. */
  function Replay(v: Inv, sid: string, log: seq<(Event, bool)>): Inv {
    if log == [] then v
    else
      var v1 := Replay(v, sid, log[..|log| - 1]);
      var last := log[|log| - 1];
      if v1.settled || !last.1 then v1 else ApplyEvent(v1, sid, last.0)
  }

  // ------------------------------------------------------------ what can happen to a session

  datatype Op =
    | Receive(event: Event)
    | Register
    | Receipt(index: nat, inputId: string)
    | CancelBegins(index: nat, reason: string)
    | Halt(index: nat)
    | Refused(index: nat)

  /** The prompt receipt: the input id becomes known and the log is replayed for it. */
  function ReceiptArrives(s: Session, i: nat, inputId: string): Session
    requires i < |s.invs|
  {
    var v := s.invs[i];
    var v1 := v.(inputId := Some(inputId), outcome := if v.outcome.Unknown? then Running else v.outcome);
    var tail := if v.baseline <= |s.log| then s.log[v.baseline..] else [];
    ResolvePending(s.(invs := s.invs[i := Replay(v1, s.sid, tail)]))
  }

  function Do(s: Session, op: Op): Session {
    match op
    case Receive(e) => RecordAndDispatch(s, e)
    case Register => s.(invs := s.invs + [NewInv(|s.log|)])
    case Receipt(i, id) => if i < |s.invs| && s.invs[i].inputId.None? then ReceiptArrives(s, i, id) else s
    case CancelBegins(i, reason) =>
      if i < |s.invs| && s.invs[i].error.None?
      then s.(invs := s.invs[i := s.invs[i].(error := Some(CancelReason(reason)))]) else s
    case Halt(i) =>
      if i < |s.invs| then s.(invs := s.invs[i := s.invs[i].(outcome := Cancelled, settled := true)]) else s
    case Refused(i) =>
      if i < |s.invs| && s.invs[i].inputId.None?
      then s.(invs := s.invs[i := s.invs[i].(outcome := Failed, settled := true)]) else s
  }

  function Run(s: Session, ops: seq<Op>): Session {
    if ops == [] then s else Do(Run(s, ops[..|ops| - 1]), ops[|ops| - 1])
  }

  function Fresh(sid: string): Session {
    Session(sid, [], [], 0, [])
  }
}
