/** Two ways in which the order of arrival does not matter: learning the input id late and
    replaying the log, and receiving accepted events again. */
module OpencodeReplay {
  import opened Options
  import opened OpencodeModel
  import opened OpencodePeriods

  // ------------------------------------------------------------ replay sees accepted events only

  function Kept(log: seq<(Event, bool)>): seq<Event> {
    if log == [] then []
    else Kept(log[..|log| - 1]) + if log[|log| - 1].1 then [log[|log| - 1].0] else []
  }

  function ReplayKept(v: Inv, sid: string, es: seq<Event>): Inv {
    if es == [] then v
    else
      var v1 := ReplayKept(v, sid, es[..|es| - 1]);
      if v1.settled then v1 else ApplyEvent(v1, sid, es[|es| - 1])
  }

  lemma {:induction false} ReplayIsKept(v: Inv, sid: string, log: seq<(Event, bool)>)
    ensures Replay(v, sid, log) == ReplayKept(v, sid, Kept(log))
  {
    if log != [] {
      var init, last := log[..|log| - 1], log[|log| - 1];
      ReplayIsKept(v, sid, init);
      if last.1 {
        assert Kept(log)[..|Kept(log)| - 1] == Kept(init);
      } else {
        assert Kept(log) == Kept(init);
      }
    }
  }

  function Rebased(v: Inv): Inv { v.(baseline := 0) }

  lemma {:induction false} ReplayIgnoresBaseline(v: Inv, w: Inv, sid: string, es: seq<Event>)
    requires Rebased(v) == Rebased(w)
    ensures Rebased(ReplayKept(v, sid, es)) == Rebased(ReplayKept(w, sid, es))
    ensures ReplayKept(v, sid, es).baseline == v.baseline
    decreases |es|
  {
    if es != [] {
      ReplayIgnoresBaseline(v, w, sid, es[..|es| - 1]);
      ReplayIgnoresBaseline(w, v, sid, es[..|es| - 1]);
    }
  }

  // ------------------------------------------------------------ redelivered and foreign events

  /** What later operations can tell apart. The logs may differ in entries that were not
      accepted, and the baselines with them. */
  ghost predicate Same(s: Session, t: Session) {
    && s.sid == t.sid && s.busy == t.busy && s.lastSeq == t.lastSeq && |s.invs| == |t.invs|
    && forall i :: 0 <= i < |s.invs| ==> SameInv(s, t, s.invs[i], t.invs[i])
  }

  ghost predicate SameInv(s: Session, t: Session, v: Inv, w: Inv) {
    && Rebased(v) == Rebased(w)
    && v.baseline <= |s.log| && w.baseline <= |t.log|
    && Kept(s.log[v.baseline..]) == Kept(t.log[w.baseline..])
  }

  lemma KeptAppends(log: seq<(Event, bool)>, from: nat, entry: (Event, bool))
    requires from <= |log|
    ensures Kept((log + [entry])[from..]) == Kept(log[from..]) + if entry.1 then [entry.0] else []
  {
    var tail := (log + [entry])[from..];
    assert tail[..|tail| - 1] == log[from..];
  }

  ghost predicate SameList(vs: seq<Inv>, ws: seq<Inv>) {
    |vs| == |ws| && forall i :: 0 <= i < |vs| ==> Rebased(vs[i]) == Rebased(ws[i])
  }

  lemma {:induction false} ResolveIgnoresBaseline(busy: seq<Period>, vs: seq<Inv>, ws: seq<Inv>, n: nat)
    requires SameList(vs, ws) && n <= |vs|
    ensures Resolve(busy, vs, n).0 == Resolve(busy, ws, n).0
    ensures SameList(Resolve(busy, vs, n).1, Resolve(busy, ws, n).1)
  {
    if n > 0 {
      ResolveIgnoresBaseline(busy, vs, ws, n - 1);
      var (b, vs1) := Resolve(busy, vs, n - 1);
      var ws1 := Resolve(busy, ws, n - 1).1;
      assert Rebased(vs1[n - 1]) == Rebased(ws1[n - 1]);
      assert Rebased(ResolveOne(b, vs1[n - 1]).1) == Rebased(ResolveOne(b, ws1[n - 1]).1);
    }
  }

  lemma ResolvePendingSame(s: Session, t: Session)
    requires Same(s, t)
    ensures Same(ResolvePending(s), ResolvePending(t))
  {
    ResolveIgnoresBaseline(s.busy, s.invs, t.invs, |s.invs|);
    ResolveBaselines(s.busy, s.invs, |s.invs|);
    ResolveBaselines(t.busy, t.invs, |t.invs|);
  }

  lemma FoldSame(s: Session, t: Session, e: Event)
    requires Same(s, t) && Accepts(s, e)
    ensures Same(Fold(s, e), Fold(t, e))
  {
    var s', t' := Fold(s, e), Fold(t, e);
    forall i | 0 <= i < |s.invs| ensures SameInv(s', t', s'.invs[i], t'.invs[i]) {
      assert SameInv(s, t, s.invs[i], t.invs[i]);
      ObservedSame(s, t, s.invs[i], t.invs[i], e);
    }
  }

  lemma ObservedSame(s: Session, t: Session, v: Inv, w: Inv, e: Event)
    requires SameInv(s, t, v, w) && s.sid == t.sid
    ensures SameInv(Fold(s, e), Fold(t, e), Observe(v, s.sid, e), Observe(w, t.sid, e))
  {
    KeptAppends(s.log, v.baseline, (e, true));
    KeptAppends(t.log, w.baseline, (e, true));
  }

  lemma RejectedSame(s: Session, t: Session, e: Event)
    requires Same(s, t)
    ensures Same(s.(log := s.log + [(e, false)]), t)
    ensures Same(s, t.(log := t.log + [(e, false)]))
  {
    forall i | 0 <= i < |s.invs|
      ensures SameInv(s.(log := s.log + [(e, false)]), t, s.invs[i], t.invs[i])
      ensures SameInv(s, t.(log := t.log + [(e, false)]), s.invs[i], t.invs[i])
    {
      assert SameInv(s, t, s.invs[i], t.invs[i]);
      KeptAppends(s.log, s.invs[i].baseline, (e, false));
      KeptAppends(t.log, t.invs[i].baseline, (e, false));
    }
  }

  lemma ReceiptSame(s: Session, t: Session, i: nat, id: string)
    requires Same(s, t) && i < |s.invs|
    ensures Same(ReceiptArrives(s, i, id), ReceiptArrives(t, i, id))
  {
    var v, w := s.invs[i], t.invs[i];
    assert SameInv(s, t, v, w);
    var v1 := v.(inputId := Some(id), outcome := if v.outcome.Unknown? then Running else v.outcome);
    var w1 := w.(inputId := Some(id), outcome := if w.outcome.Unknown? then Running else w.outcome);
    ReplayIsKept(v1, s.sid, s.log[v.baseline..]);
    ReplayIsKept(w1, t.sid, t.log[w.baseline..]);
    ReplayIgnoresBaseline(v1, w1, s.sid, Kept(s.log[v.baseline..]));
    ReplayIgnoresBaseline(w1, v1, s.sid, Kept(s.log[v.baseline..]));
    var s1 := s.(invs := s.invs[i := Replay(v1, s.sid, s.log[v.baseline..])]);
    var t1 := t.(invs := t.invs[i := Replay(w1, t.sid, t.log[w.baseline..])]);
    assert Same(s1, t1) by {
      forall j | 0 <= j < |s1.invs| ensures SameInv(s1, t1, s1.invs[j], t1.invs[j]) {
        assert SameInv(s, t, s.invs[j], t.invs[j]);
      }
    }
    ResolvePendingSame(s1, t1);
  }

  lemma DoSame(s: Session, t: Session, op: Op)
    requires Same(s, t)
    ensures Same(Do(s, op), Do(t, op))
  {
    match op
    case Receive(e) =>
      if Accepts(s, e) {
        FoldSame(s, t, e);
        ResolvePendingSame(Fold(s, e), Fold(t, e));
      } else {
        RejectedSame(s, t, e);
        RejectedSame(s, t.(log := t.log + [(e, false)]), e);
      }
    case Receipt(i, id) =>
      if i < |s.invs| {
        assert SameInv(s, t, s.invs[i], t.invs[i]);
        if s.invs[i].inputId.None? { ReceiptSame(s, t, i, id); }
      }
    case _ => SimpleSame(s, t, op);
  }

  lemma SimpleSame(s: Session, t: Session, op: Op)
    requires Same(s, t) && !op.Receive? && !op.Receipt?
    ensures Same(Do(s, op), Do(t, op))
  {
    var s', t' := Do(s, op), Do(t, op);
    forall j | 0 <= j < |s'.invs| ensures SameInv(s', t', s'.invs[j], t'.invs[j]) {
      if j < |s.invs| { assert SameInv(s, t, s.invs[j], t.invs[j]); }
    }
  }

  /** An event that the session has accepted before, or one of another aggregate. */
  ghost predicate Redelivered(s: Session, e: Event) {
    e.durable.Some? &&
    (e.durable.value.aggregate != s.sid
     || exists k :: 0 <= k < |s.log| && s.log[k].1 && s.log[k].0.durable == e.durable)
  }

  ghost predicate LogInv(s: Session) {
    forall k :: 0 <= k < |s.log| && s.log[k].1 && s.log[k].0.durable.Some? ==>
      s.log[k].0.durable.value.seq_ <= s.lastSeq
  }

  lemma {:induction false} RunKeepsLogInv(sid: string, ops: seq<Op>)
    ensures LogInv(Run(Fresh(sid), ops)) && Run(Fresh(sid), ops).sid == sid
  {
    if ops != [] { RunKeepsLogInv(sid, ops[..|ops| - 1]); }
  }

  /** A stream of operations in which some are marked as inserted. */
  function All(tagged: seq<(Op, bool)>): seq<Op> {
    if tagged == [] then [] else All(tagged[..|tagged| - 1]) + [tagged[|tagged| - 1].0]
  }

  function Originals(tagged: seq<(Op, bool)>): seq<Op> {
    if tagged == [] then []
    else Originals(tagged[..|tagged| - 1]) + if tagged[|tagged| - 1].1 then [] else [tagged[|tagged| - 1].0]
  }

  /** Every insertion redelivers an event accepted earlier, or brings one of another aggregate. */
  ghost predicate InsertsRedeliveries(sid: string, tagged: seq<(Op, bool)>) {
    tagged == [] ||
    (var init, last := tagged[..|tagged| - 1], tagged[|tagged| - 1];
     && InsertsRedeliveries(sid, init)
     && (last.1 ==> last.0.Receive? && Redelivered(Run(Fresh(sid), All(init)), last.0.event)))
  }

  /** Insertions of redelivered or foreign events anywhere leave the busy periods, the sequence
      mark and every invocation as they are without them, live and under later replay. */
  lemma {:induction false} RedeliveryChangesNothing(sid: string, tagged: seq<(Op, bool)>)
    requires InsertsRedeliveries(sid, tagged)
    ensures Same(Run(Fresh(sid), Originals(tagged)), Run(Fresh(sid), All(tagged)))
  {
    if tagged != [] {
      var init, last := tagged[..|tagged| - 1], tagged[|tagged| - 1];
      var s, t := Run(Fresh(sid), Originals(init)), Run(Fresh(sid), All(init));
      RedeliveryChangesNothing(sid, init);
      assert All(tagged)[..|All(tagged)| - 1] == All(init);
      if last.1 {
        RunKeepsLogInv(sid, All(init));
        assert !Accepts(t, last.0.event);
        RejectedSame(s, t, last.0.event);
        assert Originals(tagged) == Originals(init);
      } else {
        DoSame(s, t, last.0);
        assert Originals(tagged)[..|Originals(tagged)| - 1] == Originals(init);
      }
    }
  }
}
