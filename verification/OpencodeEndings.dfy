/** How an invocation of a session ends: by the busy period it was delivered in, by a confirmed halt or by
    a refused prompt, and by nothing else. */
module OpencodeEndings {
  import opened Options
  import opened OpencodeModel
  import opened OpencodePeriods

  /** An unsettled invocation runs from its receipt on and has reported nothing; a settled one has an end. */
  predicate EndInv(v: Inv) {
    if v.settled then v.outcome.Completed? || v.outcome.Failed? || v.outcome.Cancelled?
    else && v.outcome == (if v.inputId.Some? then Running else Unknown)
         && v.result.None? && v.usage.None? && v.period.None?
  }

  ghost predicate EndsInv(s: Session) {
    && (forall i :: 0 <= i < |s.invs| ==> EndInv(s.invs[i]))
    && (forall p :: 0 <= p < |s.busy| && s.busy[p].outcome.Some? ==> IsEnd(s.busy[p].outcome.value))
  }

  predicate IsEnd(o: Outcome) { o.Completed? || o.Failed? || o.Cancelled? }

  /** The invocation took a closed period, whose outcome and error it reports. */
  ghost predicate TakenBy(v: Inv, w: Inv, busy: seq<Period>) {
    && Awaiting(v) && w.period.Some? && w.period.value < |busy| && busy[w.period.value].outcome.Some?
    && w == v.(outcome := busy[w.period.value].outcome.value, error := busy[w.period.value].error,
               result := w.result, usage := w.usage, settled := true, period := w.period)
  }

  ghost predicate Closings(busy: seq<Period>) {
    forall p :: 0 <= p < |busy| && busy[p].end.Some? ==> busy[p].outcome.Some?
  }

  /** The same periods apart from the used marks. */
  ghost predicate SameEnds(busy: seq<Period>, busy': seq<Period>) {
    |busy| == |busy'| && forall p :: 0 <= p < |busy| ==> busy'[p] == busy[p].(used := busy'[p].used)
  }

  lemma OneMoves(busy: seq<Period>, v: Inv)
    requires Closings(busy)
    ensures SameEnds(busy, ResolveOne(busy, v).0)
    ensures ResolveOne(busy, v).1 == v || TakenBy(v, ResolveOne(busy, v).1, ResolveOne(busy, v).0)
  {
  }

  lemma {:induction false} ResolvedSame(busy: seq<Period>, invs: seq<Inv>, n: nat)
    requires Closings(busy) && n <= |invs|
    ensures SameEnds(busy, Resolve(busy, invs, n).0)
  {
    if n > 0 {
      ResolvedSame(busy, invs, n - 1);
      var before := Resolve(busy, invs, n - 1);
      ResolveStep(busy, invs, n);
      OneMoves(before.0, before.1[n - 1]);
    }
  }

  lemma {:induction false} ResolvedMoves(busy: seq<Period>, invs: seq<Inv>, n: nat, i: nat)
    requires Closings(busy) && n <= |invs| && i < |invs|
    ensures var (busy', invs') := Resolve(busy, invs, n);
      && (n <= i ==> invs'[i] == invs[i])
      && (invs'[i] == invs[i] || TakenBy(invs[i], invs'[i], busy'))
  {
    if n > 0 {
      ResolvedMoves(busy, invs, n - 1, i);
      ResolvedMoves(busy, invs, n - 1, n - 1);
      ResolvedSame(busy, invs, n - 1);
      var before := Resolve(busy, invs, n - 1);
      ResolveStep(busy, invs, n);
      OneMoves(before.0, invs[n - 1]);
    }
  }

  lemma {:induction false} ReplayMoves(v: Inv, sid: string, log: seq<(Event, bool)>)
    requires v.inputId.Some? && !v.outcome.Unknown?
    ensures var w := Replay(v, sid, log);
      w == v.(pendingDelivery := w.pendingDelivery, delivered := w.delivered, deliveredSeq := w.deliveredSeq)
  {
    if log != [] { ReplayMoves(v, sid, log[..|log| - 1]); }
  }

  /** One operation and one invocation: when it settles it and as what, and what becomes of its error. */
  ghost predicate Ending(v: Inv, w: Inv, op: Op, i: nat, busy: seq<Period>) {
    var halted, refused := op == Halt(i), op == Refused(i) && v.inputId.None?;
    && w.baseline == v.baseline
    && w.inputId == (if op.Receipt? && op.index == i && v.inputId.None? then Some(op.inputId) else v.inputId)
    && (w.settled <==> v.settled || halted || refused || TakesNow(v, w))
    && (TakesNow(v, w) ==>
          && !v.settled && (op.Receive? || op.Receipt?) && w.period.value < |busy|
          && busy[w.period.value].outcome == Some(w.outcome) && busy[w.period.value].error == w.error)
    && (!TakesNow(v, w) ==>
          && w.result == v.result && w.usage == v.usage && w.period == v.period
          && w.error == (if op.CancelBegins? && op.index == i && v.error.None? then Some(CancelReason(op.reason))
                         else v.error)
          && w.outcome == if halted then Cancelled else if refused then Failed
                          else if w.settled then v.outcome else if w.inputId.Some? then Running else Unknown)
  }

  predicate TakesNow(v: Inv, w: Inv) { v.period.None? && w.period.Some? }

  lemma FoldEnds(s: Session, e: Event, i: nat)
    requires SessionInv(s) && EndsInv(s) && i < |s.invs|
    ensures var v, w := s.invs[i], Fold(s, e).invs[i];
      w == v.(pendingDelivery := w.pendingDelivery, delivered := w.delivered, deliveredSeq := w.deliveredSeq)
  {
  }

  lemma FoldKeepsEnds(s: Session, e: Event)
    requires SessionInv(s) && EndsInv(s)
    ensures EndsInv(Fold(s, e)) && Closings(Fold(s, e).busy)
  {
    assert forall j :: 0 <= j < |s.invs| ==> EndInv(s.invs[j]) ==> EndInv(Observe(s.invs[j], s.sid, e));
  }

  /** What resolving does to a session that ends as it should. */
  lemma ResolvedEnds(s: Session, i: nat)
    requires EndsInv(s) && Closings(s.busy) && i < |s.invs|
    ensures var w := ResolvePending(s).invs[i];
      EndInv(w) && (w == s.invs[i] || TakenBy(s.invs[i], w, ResolvePending(s).busy))
  {
    ResolvedMoves(s.busy, s.invs, |s.invs|, i);
    ResolvedSame(s.busy, s.invs, |s.invs|);
  }

  lemma ReceiveEnds(s: Session, e: Event, i: nat)
    requires SessionInv(s) && EndsInv(s) && i < |s.invs|
    ensures Ending(s.invs[i], RecordAndDispatch(s, e).invs[i], Receive(e), i, RecordAndDispatch(s, e).busy)
    ensures EndInv(RecordAndDispatch(s, e).invs[i])
  {
    if Accepts(s, e) {
      FoldEnds(s, e, i);
      FoldKeepsEnds(s, e);
      ResolvedEnds(Fold(s, e), i);
    }
  }

  lemma ReceiptEnds(s: Session, j: nat, id: string, i: nat)
    requires SessionInv(s) && EndsInv(s) && i < |s.invs| && j < |s.invs| && s.invs[j].inputId.None?
    ensures Ending(s.invs[i], ReceiptArrives(s, j, id).invs[i], Receipt(j, id), i, ReceiptArrives(s, j, id).busy)
    ensures EndInv(ReceiptArrives(s, j, id).invs[i])
  {
    var v := s.invs[j];
    var v1 := v.(inputId := Some(id), outcome := if v.outcome.Unknown? then Running else v.outcome);
    var w := Replay(v1, s.sid, s.log[v.baseline..]);
    ReplayMoves(v1, s.sid, s.log[v.baseline..]);
    var s1 := s.(invs := s.invs[j := w]);
    assert EndsInv(s1);
    ResolvedEnds(s1, i);
  }

  lemma ReceiptSame(s: Session, j: nat, id: string)
    requires Closings(s.busy) && j < |s.invs|
    ensures SameEnds(s.busy, ReceiptArrives(s, j, id).busy)
  {
    var v := s.invs[j];
    var v1 := v.(inputId := Some(id), outcome := if v.outcome.Unknown? then Running else v.outcome);
    var tail := if v.baseline <= |s.log| then s.log[v.baseline..] else [];
    ResolvedSame(s.busy, s.invs[j := Replay(v1, s.sid, tail)], |s.invs|);
  }

  lemma OtherEnds(s: Session, op: Op, i: nat)
    requires SessionInv(s) && EndsInv(s) && i < |s.invs| && !op.Receive?
    requires op.Receipt? ==> op.index >= |s.invs| || s.invs[op.index].inputId.Some?
    ensures Ending(s.invs[i], Do(s, op).invs[i], op, i, Do(s, op).busy) && EndInv(Do(s, op).invs[i])
  {
  }

  lemma OpEnds(s: Session, op: Op, i: nat)
    requires SessionInv(s) && EndsInv(s) && i < |s.invs|
    ensures i < |Do(s, op).invs|
    ensures Ending(s.invs[i], Do(s, op).invs[i], op, i, Do(s, op).busy) && EndInv(Do(s, op).invs[i])
  {
    if op.Receive? { ReceiveEnds(s, op.event, i); }
    else if op.Receipt? && op.index < |s.invs| && s.invs[op.index].inputId.None? {
      ReceiptEnds(s, op.index, op.inputId, i);
    } else { OtherEnds(s, op, i); }
  }

  lemma DoEnds(s: Session, op: Op)
    requires SessionInv(s) && EndsInv(s)
    ensures EndsInv(Do(s, op))
  {
    var t := Do(s, op);
    assert |t.invs| == |s.invs| || (op.Register? && t.invs == s.invs + [NewInv(|s.log|)]);
    forall i | 0 <= i < |s.invs| ensures EndInv(t.invs[i]) { OpEnds(s, op, i); }
    if op.Receive? && Accepts(s, op.event) {
      var f := Fold(s, op.event);
      FoldKeepsEnds(s, op.event);
      ResolvedSame(f.busy, f.invs, |f.invs|);
    } else if op.Receipt? && op.index < |s.invs| && s.invs[op.index].inputId.None? {
      ReceiptSame(s, op.index, op.inputId);
    }
  }

  /** Over every stream: an invocation runs from its receipt on and reports nothing until it is settled,
      and then has an end. */
  lemma {:induction false} OpenOnesRun(sid: string, ops: seq<Op>)
    ensures EndsInv(Run(Fresh(sid), ops))
  {
    if ops != [] {
      OpenOnesRun(sid, ops[..|ops| - 1]);
      RunKeeps(sid, ops[..|ops| - 1]);
      DoEnds(Run(Fresh(sid), ops[..|ops| - 1]), ops[|ops| - 1]);
    }
  }

  /** Over every stream: an operation settles an invocation exactly when it halts it, refuses it before its
      receipt, or lets it take a closed period. */
  lemma EndsAsToldTo(sid: string, ops: seq<Op>, op: Op, i: nat)
    requires i < |Run(Fresh(sid), ops).invs|
    ensures var s, t := Run(Fresh(sid), ops), Run(Fresh(sid), ops + [op]);
      i < |t.invs| && Ending(s.invs[i], t.invs[i], op, i, t.busy)
  {
    OpenOnesRun(sid, ops);
    RunKeeps(sid, ops);
    OpEnds(Run(Fresh(sid), ops), op, i);
    assert (ops + [op])[..|ops|] == ops;
  }

  /** A registration adds one invocation, whose log starts here. */
  lemma RegisteredAtTheEnd(sid: string, ops: seq<Op>, op: Op)
    ensures var s, t := Run(Fresh(sid), ops), Run(Fresh(sid), ops + [op]);
      && |t.invs| == |s.invs| + (if op.Register? then 1 else 0)
      && (op.Register? ==> t.invs[|s.invs|].baseline == |s.log| && t.log == s.log && EndInv(t.invs[|s.invs|]))
  {
    assert (ops + [op])[..|ops|] == ops;
    OnlyRegisterAdds(Run(Fresh(sid), ops), op);
  }

  lemma OnlyRegisterAdds(s: Session, op: Op)
    ensures |Do(s, op).invs| == |s.invs| + (if op.Register? then 1 else 0)
  {
  }
}
