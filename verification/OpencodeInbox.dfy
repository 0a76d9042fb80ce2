/** What an invocation knows of its own input, what the session accepts, and that nothing that can be
    settled is left waiting. */
module OpencodeInbox {
  import opened Options
  import opened OpencodeModel
  import opened OpencodePeriods

  // ------------------------------------------------------------ the input of an invocation

  /** An accepted event of the session about this input. */
  predicate Concerns(entry: (Event, bool), sid: string, id: string) {
    && entry.1 && (entry.0.kind.InboxEnqueued? || entry.0.kind.InboxDelivered?)
    && entry.0.data.session == Some(sid) && entry.0.data.inbox == Some(id)
  }

  predicate DeliversIt(entry: (Event, bool), sid: string, id: string) {
    Concerns(entry, sid, id) && entry.0.kind.InboxDelivered?
  }

  function AnyDelivery(log: seq<(Event, bool)>, sid: string, id: string): bool {
    exists k :: 0 <= k < |log| && DeliversIt(log[k], sid, id)
  }

  /** The sequence number of the last delivery that had one. */
  function LastDelivery(log: seq<(Event, bool)>, sid: string, id: string): Option<int> {
    if log == [] then None
    else
      var last := log[|log| - 1];
      if DeliversIt(last, sid, id) && last.0.durable.Some? then Some(last.0.durable.value.seq_)
      else LastDelivery(log[..|log| - 1], sid, id)
  }

  /** The input was enqueued after its last delivery. */
  function StillEnqueued(log: seq<(Event, bool)>, sid: string, id: string): bool {
    if log == [] then false
    else
      var last := log[|log| - 1];
      if Concerns(last, sid, id) then last.0.kind.InboxEnqueued? else StillEnqueued(log[..|log| - 1], sid, id)
  }

  ghost predicate KnowsItsInput(v: Inv, sid: string, log: seq<(Event, bool)>) {
    v.inputId.Some? ==>
      && v.delivered == AnyDelivery(log, sid, v.inputId.value)
      && v.deliveredSeq == LastDelivery(log, sid, v.inputId.value)
      && v.pendingDelivery == StillEnqueued(log, sid, v.inputId.value)
  }

  ghost predicate WasDelivered(v: Inv, sid: string, log: seq<(Event, bool)>) {
    v.deliveredSeq.Some? ==>
      v.inputId.Some? && exists k :: 0 <= k < |log| && DeliversIt(log[k], sid, v.inputId.value)
                                     && log[k].0.durable.Some? && v.deliveredSeq == Some(log[k].0.durable.value.seq_)
  }

  function TailOf(log: seq<(Event, bool)>, v: Inv): seq<(Event, bool)> {
    if v.baseline <= |log| then log[v.baseline..] else []
  }

  ghost predicate InboxInv(v: Inv, sid: string, log: seq<(Event, bool)>) {
    && v.baseline <= |log|
    && (v.inputId.None? ==> !v.delivered && v.deliveredSeq.None? && !v.pendingDelivery)
    && (!v.settled ==> KnowsItsInput(v, sid, TailOf(log, v)))
    && WasDelivered(v, sid, TailOf(log, v))
  }

  lemma AnyMoves(log: seq<(Event, bool)>, x: (Event, bool), sid: string, id: string)
    ensures AnyDelivery(log + [x], sid, id) <==> AnyDelivery(log, sid, id) || DeliversIt(x, sid, id)
  {
    var all := log + [x];
    assert all[|log|] == x;
    if AnyDelivery(log, sid, id) {
      var k :| 0 <= k < |log| && DeliversIt(log[k], sid, id);
      assert all[k] == log[k];
    }
  }

  lemma {:induction false} LastIsThere(log: seq<(Event, bool)>, sid: string, id: string)
    requires LastDelivery(log, sid, id).Some?
    ensures exists k :: 0 <= k < |log| && DeliversIt(log[k], sid, id) && log[k].0.durable.Some?
                        && LastDelivery(log, sid, id) == Some(log[k].0.durable.value.seq_)
  {
    var init, last := log[..|log| - 1], log[|log| - 1];
    if !(DeliversIt(last, sid, id) && last.0.durable.Some?) {
      LastIsThere(init, sid, id);
      var k :| 0 <= k < |init| && DeliversIt(init[k], sid, id) && init[k].0.durable.Some?
               && LastDelivery(init, sid, id) == Some(init[k].0.durable.value.seq_);
      assert log[k] == init[k];
    }
  }

  lemma KnowingWasDelivered(v: Inv, sid: string, log: seq<(Event, bool)>)
    requires KnowsItsInput(v, sid, log) && (v.inputId.None? ==> v.deliveredSeq.None?)
    ensures WasDelivered(v, sid, log)
  {
    if v.deliveredSeq.Some? { LastIsThere(log, sid, v.inputId.value); }
  }

  lemma AppliedKnows(v: Inv, sid: string, log: seq<(Event, bool)>, e: Event)
    requires KnowsItsInput(v, sid, log) && v.inputId.Some?
    ensures KnowsItsInput(ApplyEvent(v, sid, e), sid, log + [(e, true)])
    ensures ApplyEvent(v, sid, e).inputId == v.inputId && ApplyEvent(v, sid, e).baseline == v.baseline
    ensures ApplyEvent(v, sid, e).settled == v.settled
  {
    var all := log + [(e, true)];
    assert all[..|all| - 1] == log;
    AnyMoves(log, (e, true), sid, v.inputId.value);
  }

  lemma RejectedKnows(v: Inv, sid: string, log: seq<(Event, bool)>, e: Event)
    requires KnowsItsInput(v, sid, log)
    ensures KnowsItsInput(v, sid, log + [(e, false)])
  {
    var all := log + [(e, false)];
    assert all[..|all| - 1] == log;
    if v.inputId.Some? { AnyMoves(log, (e, false), sid, v.inputId.value); }
  }

  lemma WasDeliveredLater(v: Inv, sid: string, log: seq<(Event, bool)>, x: (Event, bool))
    requires WasDelivered(v, sid, log)
    ensures WasDelivered(v, sid, log + [x])
  {
    if v.deliveredSeq.Some? {
      var k :| 0 <= k < |log| && DeliversIt(log[k], sid, v.inputId.value) && log[k].0.durable.Some?
               && v.deliveredSeq == Some(log[k].0.durable.value.seq_);
      assert (log + [x])[k] == log[k];
    }
  }

  lemma {:induction false} ReplayKnows(v: Inv, sid: string, log: seq<(Event, bool)>)
    requires v.inputId.Some? && !v.settled && !v.delivered && v.deliveredSeq.None? && !v.pendingDelivery
    ensures var w := Replay(v, sid, log);
      KnowsItsInput(w, sid, log) && w.inputId == v.inputId && w.baseline == v.baseline && !w.settled
  {
    if log != [] {
      var init, last := log[..|log| - 1], log[|log| - 1];
      ReplayKnows(v, sid, init);
      assert log == init + [last];
      if last.1 { AppliedKnows(Replay(v, sid, init), sid, init, last.0); }
      else { RejectedKnows(Replay(v, sid, init), sid, init, last.0); }
    }
  }

  lemma {:induction false} ReplaySettled(v: Inv, sid: string, log: seq<(Event, bool)>)
    requires v.settled
    ensures Replay(v, sid, log) == v
  {
    if log != [] { ReplaySettled(v, sid, log[..|log| - 1]); }
  }

  lemma {:induction false} ResolveKeepsInbox(busy: seq<Period>, invs: seq<Inv>, n: nat, i: nat)
    requires n <= |invs| && i < |invs|
    ensures var v, w := invs[i], Resolve(busy, invs, n).1[i];
      && w.inputId == v.inputId && w.baseline == v.baseline && w.delivered == v.delivered
      && w.deliveredSeq == v.deliveredSeq && w.pendingDelivery == v.pendingDelivery && (v.settled ==> w.settled)
  {
    if n > 0 { ResolveKeepsInbox(busy, invs, n - 1, i); }
  }

  ghost predicate AllInbox(s: Session) {
    forall i :: 0 <= i < |s.invs| ==> InboxInv(s.invs[i], s.sid, s.log)
  }

  lemma ResolvedInbox(s: Session)
    requires AllInbox(s)
    ensures AllInbox(ResolvePending(s))
  {
    forall i | 0 <= i < |s.invs| ensures InboxInv(ResolvePending(s).invs[i], s.sid, s.log) {
      ResolveKeepsInbox(s.busy, s.invs, |s.invs|, i);
      assert InboxInv(s.invs[i], s.sid, s.log);
    }
  }

  lemma ObservedInbox(v: Inv, sid: string, log: seq<(Event, bool)>, e: Event)
    requires InboxInv(v, sid, log)
    ensures InboxInv(Observe(v, sid, e), sid, log + [(e, true)])
  {
    var all, tail := log + [(e, true)], TailOf(log, v);
    assert all[v.baseline..] == tail + [(e, true)];
    var w := Observe(v, sid, e);
    if v.settled || v.inputId.None? {
      WasDeliveredLater(v, sid, tail, (e, true));
    } else {
      AppliedKnows(v, sid, tail, e);
      KnowingWasDelivered(w, sid, tail + [(e, true)]);
    }
  }

  lemma UnseenInbox(v: Inv, sid: string, log: seq<(Event, bool)>, e: Event)
    requires InboxInv(v, sid, log)
    ensures InboxInv(v, sid, log + [(e, false)])
  {
    var all, tail := log + [(e, false)], TailOf(log, v);
    assert all[v.baseline..] == tail + [(e, false)];
    WasDeliveredLater(v, sid, tail, (e, false));
    if !v.settled { RejectedKnows(v, sid, tail, e); }
  }

  lemma ReceiptInbox(s: Session, i: nat, id: string)
    requires AllInbox(s) && i < |s.invs| && s.invs[i].inputId.None?
    ensures AllInbox(ReceiptArrives(s, i, id))
  {
    var v := s.invs[i];
    assert InboxInv(v, s.sid, s.log);
    var v1 := v.(inputId := Some(id), outcome := if v.outcome.Unknown? then Running else v.outcome);
    var tail := TailOf(s.log, v);
    var w := Replay(v1, s.sid, tail);
    if v.settled {
      ReplaySettled(v1, s.sid, tail);
    } else {
      ReplayKnows(v1, s.sid, tail);
      KnowingWasDelivered(w, s.sid, tail);
    }
    ResolvedInbox(s.(invs := s.invs[i := w]));
  }

  lemma DoInbox(s: Session, op: Op)
    requires AllInbox(s)
    ensures AllInbox(Do(s, op))
  {
    match op {
      case Receive(e) =>
        if Accepts(s, e) {
          var f := Fold(s, e);
          forall i | 0 <= i < |f.invs| ensures InboxInv(f.invs[i], f.sid, f.log) {
            ObservedInbox(s.invs[i], s.sid, s.log, e);
          }
          ResolvedInbox(f);
        } else {
          forall i | 0 <= i < |s.invs| ensures InboxInv(s.invs[i], s.sid, s.log + [(e, false)]) {
            UnseenInbox(s.invs[i], s.sid, s.log, e);
          }
        }
      case Receipt(i, id) => if i < |s.invs| && s.invs[i].inputId.None? { ReceiptInbox(s, i, id); }
      case Register =>
        assert InboxInv(NewInv(|s.log|), s.sid, s.log);
      case _ =>
    }
  }

  /** Over every stream: the delivery that an invocation knows is one of its own input, accepted since it
      was registered; and as long as it is not settled, it knows whether its input was delivered, when
      last, and whether it waits in the inbox again. */
  lemma {:induction false} InputsAreKnown(sid: string, ops: seq<Op>)
    ensures AllInbox(Run(Fresh(sid), ops))
  {
    if ops != [] {
      InputsAreKnown(sid, ops[..|ops| - 1]);
      DoInbox(Run(Fresh(sid), ops[..|ops| - 1]), ops[|ops| - 1]);
    }
  }

  // ------------------------------------------------------------ nothing that can be settled waits

  ghost predicate NothingToTake(busy: seq<Period>, v: Inv) {
    Awaiting(v) ==> forall p :: 0 <= p < |busy| ==> busy[p].used || !Covers(busy[p], v.deliveredSeq.value)
  }

  lemma {:induction false} ResolveLeavesNone(busy: seq<Period>, invs: seq<Inv>, n: nat, i: nat)
    requires i < n <= |invs|
    ensures NothingToTake(Resolve(busy, invs, n).0, Resolve(busy, invs, n).1[i])
  {
    var before := Resolve(busy, invs, n - 1);
    ResolveStep(busy, invs, n);
    if i < n - 1 { ResolveLeavesNone(busy, invs, n - 1, i); }
    OneTakes(before.0, before.1[n - 1], before.1[i]);
  }

  /** One round settles its own invocation if it can, and makes no period available to another. */
  lemma OneTakes(busy: seq<Period>, v: Inv, w: Inv)
    ensures var one := ResolveOne(busy, v);
      NothingToTake(one.0, one.1) && (NothingToTake(busy, w) ==> NothingToTake(one.0, w))
  {
  }

  ghost predicate NoneWaits(s: Session) {
    forall i :: 0 <= i < |s.invs| ==> NothingToTake(s.busy, s.invs[i])
  }

  lemma ResolvedNoneWaits(s: Session)
    ensures NoneWaits(ResolvePending(s))
  {
    forall i | 0 <= i < |s.invs| ensures NothingToTake(ResolvePending(s).busy, ResolvePending(s).invs[i]) {
      ResolveLeavesNone(s.busy, s.invs, |s.invs|, i);
    }
  }

  lemma DoLeavesNone(s: Session, op: Op)
    requires NoneWaits(s)
    ensures NoneWaits(Do(s, op))
  {
    match op {
      case Receive(e) => if Accepts(s, e) { ResolvedNoneWaits(Fold(s, e)); }
      case Receipt(i, id) => if i < |s.invs| && s.invs[i].inputId.None? { ReceiptLeavesNone(s, i, id); }
      case _ =>
    }
  }

  lemma ReceiptLeavesNone(s: Session, i: nat, id: string)
    requires i < |s.invs|
    ensures NoneWaits(ReceiptArrives(s, i, id))
  {
    var v := s.invs[i];
    var v1 := v.(inputId := Some(id), outcome := if v.outcome.Unknown? then Running else v.outcome);
    ResolvedNoneWaits(s.(invs := s.invs[i := Replay(v1, s.sid, TailOf(s.log, v))]));
  }

  /** Over every stream: no delivered invocation is left unsettled while a closed period around its delivery
      is not taken. */
  lemma {:induction false} NoneIsLeftWaiting(sid: string, ops: seq<Op>)
    ensures NoneWaits(Run(Fresh(sid), ops))
  {
    if ops != [] {
      NoneIsLeftWaiting(sid, ops[..|ops| - 1]);
      DoLeavesNone(Run(Fresh(sid), ops[..|ops| - 1]), ops[|ops| - 1]);
    }
  }

  // ------------------------------------------------------------ what is accepted

  /** No accepted durable event of the log has this number or a later one. */
  ghost predicate Newer(log: seq<(Event, bool)>, at: int) {
    forall k :: 0 <= k < |log| && log[k].1 && log[k].0.durable.Some? ==> log[k].0.durable.value.seq_ < at
  }

  ghost predicate MarkInv(s: Session) {
    s.lastSeq >= 0 && forall at: int :: at > s.lastSeq <==> at > 0 && Newer(s.log, at)
  }

  lemma ReceiveMarks(s: Session, e: Event)
    requires MarkInv(s)
    ensures MarkInv(RecordAndDispatch(s, e))
  {
    var s' := RecordAndDispatch(s, e);
    var x := (e, Accepts(s, e));
    assert s'.log == s.log + [x];
    forall at: int ensures at > s'.lastSeq <==> at > 0 && Newer(s'.log, at) { NewerMoves(s.log, x, at); }
  }

  lemma NewerMoves(log: seq<(Event, bool)>, x: (Event, bool), at: int)
    ensures Newer(log + [x], at) <==> Newer(log, at) && (x.1 && x.0.durable.Some? ==> x.0.durable.value.seq_ < at)
  {
    var all := log + [x];
    assert all[|log|] == x && forall k :: 0 <= k < |log| ==> all[k] == log[k];
  }

  lemma {:induction false} RunMarks(sid: string, ops: seq<Op>)
    ensures MarkInv(Run(Fresh(sid), ops)) && Run(Fresh(sid), ops).sid == sid
  {
    if ops != [] {
      var init, op := ops[..|ops| - 1], ops[|ops| - 1];
      RunMarks(sid, init);
      var s := Run(Fresh(sid), init);
      if op.Receive? { ReceiveMarks(s, op.event); }
      assert !op.Receive? ==> Do(s, op).log == s.log && Do(s, op).lastSeq == s.lastSeq;
    }
  }

  /** Over every stream: an event is accepted exactly when it is not durable, or is one of the session with
      a positive number beyond those of all accepted ones. */
  lemma AcceptedIff(sid: string, ops: seq<Op>, e: Event)
    ensures var s := Run(Fresh(sid), ops);
      && RecordAndDispatch(s, e).log == s.log + [(e, Accepts(s, e))]
      && (Accepts(s, e) <==>
            e.durable.Some? ==>
              e.durable.value.aggregate == sid && e.durable.value.seq_ > 0 && Newer(s.log, e.durable.value.seq_))
  {
    RunMarks(sid, ops);
  }
}
