/** The native session as an object: event handlers that append to its log and its busy periods
    and update its invocations in place, each proved equal to the interpreter on values. */
module OpencodeSession {
  import opened Options
  import M = OpencodeModel
  import opened OpencodeModel

  class NativeSession {
    const sid: string
    var eventLog: seq<(Event, bool)>
    var busy: seq<Period>
    var lastDurableSeq: int
    var invocations: seq<Inv>

    ghost function View(): Session
      reads this
    {
      Session(sid, eventLog, busy, lastDurableSeq, invocations)
    }

    constructor (sid: string)
      ensures View() == Fresh(sid)
    {
      this.sid := sid;
      eventLog, busy, lastDurableSeq, invocations := [], [], 0, [];
    }

    method RecordAndDispatch(event: Event)
      modifies this
      ensures View() == M.RecordAndDispatch(old(View()), event)
    {
      var accepted := true;
      if event.durable.Some? {
        var at := event.durable.value.seq_;
        accepted := event.durable.value.aggregate == sid && at > lastDurableSeq;
        if accepted { lastDurableSeq := at; }
      }
      eventLog := eventLog + [(event, accepted)];
      if !accepted { return; }
      if event.durable.Some? {
        ApplyDurableEvent(event.kind, event.data, event.durable.value.seq_);
      }
      ObserveAll(event);
      assert View() == Fold(old(View()), event);
      ResolvePending();
    }

    method ObserveAll(event: Event)
      modifies this`invocations
      ensures |invocations| == old(|invocations|)
      ensures invocations ==
        seq(old(|invocations|), i requires 0 <= i < old(|invocations|) => Observe(old(invocations)[i], sid, event))
    {
      var i := 0;
      while i < |invocations|
        invariant 0 <= i <= |invocations| == old(|invocations|)
        invariant forall j :: 0 <= j < i ==> invocations[j] == Observe(old(invocations)[j], sid, event)
        invariant forall j :: i <= j < |invocations| ==> invocations[j] == old(invocations)[j]
      {
        var state := invocations[i];
        if state.inputId.Some? && !state.settled {
          invocations := invocations[i := ApplyEvent(state, sid, event)];
        }
        i := i + 1;
      }
    }

    /** The reversed search for the latest period without an end. */
    method LatestOpen() returns (top: Option<nat>)
      ensures top == TopOpen(busy)
    {
      var i := |busy|;
      while i > 0
        invariant 0 <= i <= |busy|
        invariant TopOpen(busy) == TopOpen(busy[..i])
      {
        assert busy[..i][..i - 1] == busy[..i - 1];
        if busy[i - 1].end.None? { return Some(i - 1); }
        i := i - 1;
      }
      return None;
    }

    method ApplyDurableEvent(kind: Kind, data: Data, at: int)
      modifies this`busy
      ensures busy == ApplyDurable(old(busy), sid, kind, data, at)
    {
      if kind.ExecutionStarted? {
        busy := busy + [NewPeriod(at)];
        return;
      }
      var top := LatestOpen();
      if top.None? { return; }
      var t := top.value;
      var p := busy[t];
      if IsExecutionTerminal(kind) {
        p := Close(p, kind, data, at);
      } else if data.session != Some(sid) {
        return;
      } else if kind.StepStarted? {
        if data.assistant.Some? {
          p := p.(assistant := data.assistant, texts := [], stepStarts := p.stepStarts + {data.assistant.value});
        }
      } else if kind.InboxDelivered? {
        if data.inbox.Some? { p := p.(delivered := p.delivered + {data.inbox.value}); }
      } else if kind.CompactionStarted? {
        p := p.(compactionStarts := p.compactionStarts + [data.input]);
      } else if IsStepTerminal(kind) {
        if data.assistant.Some? && data.assistant.value in p.stepStarts {
          p := p.(stepStarts := p.stepStarts - {data.assistant.value}, usage := p.usage.(steps := p.usage.steps + 1));
          p := p.(usage := Accumulate(p.usage, data.tokens));
        }
      } else if IsCompactionTerminal(kind) {
        p := EndCompaction(p, kind, data);
      } else if kind.TextEnded? {
        if data.assistant == p.assistant && data.ordinal.Some? && data.text.Some? {
          p := p.(texts := PutText(p.texts, Text(data.ordinal.value, data.text.value)));
        }
      }
      busy := busy[t := p];
    }

    method Close(p: Period, kind: Kind, data: Data, at: int) returns (q: Period)
      requires IsExecutionTerminal(kind)
      ensures q == Closed(p, kind, data, at)
    {
      q := p.(end := Some(at));
      if kind.ExecutionSucceeded? {
        q := q.(outcome := Some(Completed));
      } else if kind.ExecutionFailed? {
        q := q.(outcome := Some(Failed), error := Some(FailedWith(data)));
      } else {
        q := q.(outcome := Some(Cancelled));
      }
      if |p.texts| > 0 {
        var joined := Join(p.texts);
        q := q.(result := Some(joined));
      }
    }

    static method Join(texts: seq<Text>) returns (joined: string)
      ensures joined == Joined(texts)
    {
      joined := "";
      var i := |texts|;
      while i > 0
        invariant 0 <= i <= |texts|
        invariant joined == Joined(texts[i..])
      {
        i := i - 1;
        joined := texts[i].text + joined;
        assert texts[i..][1..] == texts[i + 1..];
      }
    }

    static method FindStart(starts: seq<Option<string>>, wanted: Option<string>) returns (at: Option<nat>)
      ensures at == FirstIndex(starts, wanted)
    {
      var i := 0;
      while i < |starts|
        invariant 0 <= i <= |starts|
        invariant FirstIndex(starts, wanted) ==
          match FirstIndex(starts[i..], wanted) case None => None case Some(k) => Some(i + k)
      {
        if starts[i] == wanted { return Some(i); }
        assert starts[i..][1..] == starts[i + 1..];
        i := i + 1;
      }
      return None;
    }

    static method EndCompaction(p: Period, kind: Kind, data: Data) returns (q: Period)
      requires IsCompactionTerminal(kind)
      ensures q == OnOpen(p, kind, data)
    {
      var starts, at := p.compactionStarts, None;
      if data.input.None? {
        if |starts| > 0 { at := Some(0); }
      } else {
        at := FindStart(starts, data.input);
        if at.None? { at := FindStart(starts, None); }
      }
      if at.None? { return p; }
      var started := starts[at.value];
      var owner := if started.Some? && started.value != "" then started else data.input;
      return p.(compactionStarts := starts[..at.value] + starts[at.value + 1..],
                compactions := p.compactions + [Compaction(owner, data.tokens)]);
    }

    static method UsageForInterval(p: Period, inputId: Option<string>) returns (usage: Usage)
      ensures usage == UsageFor(p, inputId)
    {
      usage := p.usage;
      var i := 0;
      while i < |p.compactions|
        invariant 0 <= i <= |p.compactions|
        invariant usage == AddCompactions(p.usage, p.compactions[..i], p, inputId)
      {
        var c := p.compactions[i];
        assert p.compactions[..i + 1][..i] == p.compactions[..i];
        if c.input == inputId
           || (c.input.None? && |p.delivered| == 1 && inputId.Some? && inputId.value in p.delivered) {
          usage := Accumulate(usage, c.tokens);
        }
        i := i + 1;
      }
      assert p.compactions[..i] == p.compactions;
    }

    method ResolvePending()
      modifies this`busy, this`invocations
      ensures View() == M.ResolvePending(old(View()))
    {
      var i := 0;
      while i < |invocations|
        invariant 0 <= i <= |invocations| == old(|invocations|)
        invariant (busy, invocations) == Resolve(old(busy), old(invocations), i)
      {
        var state := invocations[i];
        assert invocations[i := state] == invocations;
        if state.delivered && !state.settled && state.deliveredSeq.Some? {
          TakePeriod(i, state);
        }
        i := i + 1;
      }
    }

    /** The inner loop: the first closed period that nobody took and that contains the delivery. */
    method TakePeriod(i: nat, state: Inv)
      requires i < |invocations| && state == invocations[i] && Awaiting(state)
      modifies this`busy, this`invocations
      ensures var (busy', v) := ResolveOne(old(busy), state);
        busy == busy' && invocations == old(invocations)[i := v]
    {
      var j := 0;
      var at := state.deliveredSeq.value;
      while j < |busy|
        invariant 0 <= j <= |busy|
        invariant busy == old(busy) && invocations == old(invocations)
        invariant Settling(busy, at) == match Settling(busy[j..], at) case None => None case Some(k) => Some(j + k)
      {
        var p := busy[j];
        assert busy[j..][1..] == busy[j + 1..];
        if !p.used && p.end.Some? && p.start <= at <= p.end.value {
          assert Settling(busy, at) == Some(j);
          busy := busy[j := p.(used := true)];
          var usage := UsageForInterval(p, state.inputId);
          invocations := invocations[i := state.(
            outcome := if p.outcome.Some? then p.outcome.value else Unknown, error := p.error, result := p.result,
            usage := UsageRecord(usage), settled := true, period := Some(j))];
          return;
        }
        j := j + 1;
      }
    }

    method Register()
      modifies this`invocations
      ensures View() == Do(old(View()), Op.Register)
    {
      invocations := invocations + [NewInv(|eventLog|)];
    }

    /** The engine refused the prompt: the invocation has failed and never gets an id. */
    method Refuse(i: nat)
      requires i < |invocations| && invocations[i].inputId.None?
      modifies this`invocations
      ensures View() == Do(old(View()), Op.Refused(i))
    {
      invocations := invocations[i := invocations[i].(outcome := Failed, settled := true)];
    }

    /** A cancel records its reason unless an error is known. */
    method BeginCancel(i: nat, reason: string)
      requires i < |invocations|
      modifies this`invocations
      ensures View() == Do(old(View()), Op.CancelBegins(i, reason))
    {
      if invocations[i].error.None? {
        invocations := invocations[i := invocations[i].(error := Some(CancelReason(reason)))];
      }
    }

    /** The halt of a cancelled invocation is confirmed. */
    method ConfirmHalt(i: nat)
      requires i < |invocations|
      modifies this`invocations
      ensures View() == Do(old(View()), Op.Halt(i))
    {
      invocations := invocations[i := invocations[i].(outcome := Cancelled, settled := true)];
    }

    /** The prompt receipt and the replay of what was recorded before it. */
    method ReceiptReturned(i: nat, inputId: string)
      requires i < |invocations|
      modifies this
      ensures View() == ReceiptArrives(old(View()), i, inputId)
    {
      var state := invocations[i];
      state := state.(inputId := Some(inputId), outcome := if state.outcome.Unknown? then Running else state.outcome);
      ReconcileFromBaseline(i, state);
    }

    method ReconcileFromBaseline(i: nat, state: Inv)
      requires i < |invocations|
      modifies this
      ensures View() ==
        var tail := if state.baseline <= |old(eventLog)| then old(eventLog)[state.baseline..] else [];
        M.ResolvePending(old(View()).(invs := old(invocations)[i := Replay(state, sid, tail)]))
    {
      var tail := if state.baseline <= |eventLog| then eventLog[state.baseline..] else [];
      var v, k := state, 0;
      while k < |tail| && !v.settled
        invariant 0 <= k <= |tail|
        invariant v == Replay(state, sid, tail[..k])
      {
        assert tail[..k + 1][..k] == tail[..k];
        if tail[k].1 { v := ApplyEvent(v, sid, tail[k].0); }
        k := k + 1;
      }
      SettledReplayStops(state, sid, tail, k);
      assert tail[..|tail|] == tail;
      invocations := invocations[i := v];
      ResolvePending();
    }
  }

  /** Once settled, nothing more is replayed. */
  lemma {:induction false} SettledReplayStops(v: Inv, sid: string, log: seq<(Event, bool)>, k: nat)
    requires k <= |log| && (k == |log| || Replay(v, sid, log[..k]).settled)
    ensures Replay(v, sid, log) == Replay(v, sid, log[..k])
  {
    if k < |log| {
      assert log[..|log| - 1][..k] == log[..k];
      SettledReplayStops(v, sid, log[..|log| - 1], k);
    } else {
      assert log[..k] == log;
    }
  }
}
