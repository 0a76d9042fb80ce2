/** Learning the input id late. An invocation whose prompt receipt arrives after any number of
    its events is settled exactly as if its id had been known from the baseline on. */
module OpencodeLateReceipt {
  import opened Options
  import opened OpencodeModel
  import opened OpencodePeriods

  ghost function Feed(s: Session, es: seq<Event>): (s': Session)
    ensures s'.sid == s.sid
  {
    if es == [] then s else RecordAndDispatch(Feed(s, es[..|es| - 1]), es[|es| - 1])
  }

  /** Every invocation but the last has settled; the last was just registered. */
  ghost predicate OnlyUnsettled(s: Session, n: nat) {
    && |s.invs| == n + 1
    && (forall j :: 0 <= j < n ==> s.invs[j].settled)
  }

  predicate IsDelivery(e: Event, sid: string, id: string) {
    e.kind.InboxDelivered? && e.data.session == Some(sid) && e.data.inbox == Some(id)
  }

  /** How often an input was delivered by accepted events of a log. */
  function Deliveries(log: seq<(Event, bool)>, sid: string, id: string): nat {
    if log == [] then 0
    else
      var last := log[|log| - 1];
      Deliveries(log[..|log| - 1], sid, id) + if last.1 && IsDelivery(last.0, sid, id) then 1 else 0
  }

  function DeliveriesSince(s: Session, base: nat, id: string): nat {
    if base <= |s.log| then Deliveries(s.log[base..], s.sid, id) else 0
  }

  /** At most one closed period contains a delivery at `at`. */
  ghost predicate OneCover(busy: seq<Period>, at: int) {
    forall p, q :: 0 <= p < |busy| && 0 <= q < |busy| && Covers(busy[p], at) && Covers(busy[q], at) ==> p == q
  }

  // ------------------------------------------------------------ resolving when one is left

  lemma {:induction false} SettledAreSkipped(busy: seq<Period>, invs: seq<Inv>, n: nat)
    requires n <= |invs| && forall j :: 0 <= j < n ==> invs[j].settled
    ensures Resolve(busy, invs, n) == (busy, invs)
  {
    if n > 0 {
      SettledAreSkipped(busy, invs, n - 1);
      assert invs[n - 1 := invs[n - 1]] == invs;
    }
  }

  lemma ResolveLast(s: Session, n: nat)
    requires OnlyUnsettled(s, n)
    ensures var (busy, v) := ResolveOne(s.busy, s.invs[n]);
      ResolvePending(s) == s.(busy := busy, invs := s.invs[n := v])
  {
    SettledAreSkipped(s.busy, s.invs, n);
  }

  /** The session before pending invocations are resolved, for one more event. */
  lemma DispatchLast(s: Session, n: nat, e: Event)
    requires OnlyUnsettled(s, n) && Accepts(s, e)
    ensures OnlyUnsettled(Fold(s, e), n) && OnlyUnsettled(RecordAndDispatch(s, e), n)
    ensures forall j :: 0 <= j < n ==> Fold(s, e).invs[j] == s.invs[j]
    ensures var f := Fold(s, e);
      var (busy, v) := ResolveOne(f.busy, f.invs[n]);
      RecordAndDispatch(s, e) == f.(busy := busy, invs := f.invs[n := v])
  {
    ResolveLast(Fold(s, e), n);
  }

  // ------------------------------------------------------------ id known against id unknown

  /** The invocation as the receipt leaves it before anything is replayed. */
  function Known(base: nat, id: string): Inv {
    NewInv(base).(inputId := Some(id), outcome := Running)
  }

  /** What replaying the tail of the log gives for an invocation that is never settled. */
  function Replayed(t: Session, n: nat, base: nat, id: string): Inv
    requires base <= |t.log|
  {
    Replay(Known(base, id), t.sid, t.log[base..])
  }

  lemma {:induction false} ReplayStaysOpen(v: Inv, sid: string, log: seq<(Event, bool)>)
    requires !v.settled
    ensures !Replay(v, sid, log).settled
    ensures Replay(v, sid, log).inputId == v.inputId && Replay(v, sid, log).period == v.period
    ensures v.deliveredSeq.None? && Replay(v, sid, log).deliveredSeq.Some? ==> Replay(v, sid, log).delivered
  {
    if log != [] { ReplayStaysOpen(v, sid, log[..|log| - 1]); }
  }

  lemma ReplayOneMore(v: Inv, sid: string, log: seq<(Event, bool)>, from: nat, entry: (Event, bool))
    requires from <= |log| && !v.settled
    ensures var w := Replay(v, sid, log[from..]);
      Replay(v, sid, (log + [entry])[from..]) == if entry.1 then ApplyEvent(w, sid, entry.0) else w
  {
    var tail := (log + [entry])[from..];
    assert tail[..|tail| - 1] == log[from..];
    ReplayStaysOpen(v, sid, log[from..]);
  }

  lemma DeliveriesOneMore(log: seq<(Event, bool)>, from: nat, entry: (Event, bool), sid: string, id: string)
    requires from <= |log|
    ensures Deliveries((log + [entry])[from..], sid, id)
         == Deliveries(log[from..], sid, id) + if entry.1 && IsDelivery(entry.0, sid, id) then 1 else 0
  {
    var tail := (log + [entry])[from..];
    assert tail[..|tail| - 1] == log[from..];
  }

  ghost predicate NoCover(busy: seq<Period>, at: int) {
    forall j :: 0 <= j < |busy| ==> !Covers(busy[j], at)
  }

  /** The period at `q` is the innermost of those that contain `at`, and none of them is taken. */
  ghost predicate InnermostCover(busy: seq<Period>, q: nat, at: int) {
    && q < |busy| && Covers(busy[q], at)
    && (forall j :: q < j < |busy| ==> !Covers(busy[j], at))
    && (forall j :: 0 <= j < |busy| && Covers(busy[j], at) ==> !busy[j].used)
  }

  /** A session that knows the id from the baseline on (`a`) against one that does not (`b`). */
  ghost predicate Matches(a: Session, b: Session, n: nat, base: nat, id: string) {
    && OnlyUnsettled(a, n) && OnlyUnsettled(b, n) && base <= |b.log|
    && a.sid == b.sid && a.log == b.log && a.lastSeq == b.lastSeq
    && a.invs[..n] == b.invs[..n] && b.invs[n] == NewInv(base)
    && var v, w := a.invs[n], Replayed(b, n, base, id);
       if v.settled then
         && v.period.Some? && v.deliveredSeq.Some? && InnermostCover(b.busy, v.period.value, v.deliveredSeq.value)
         && w.delivered && w.deliveredSeq == v.deliveredSeq && Deliveries(b.log[base..], b.sid, id) >= 1
         && var p := b.busy[v.period.value];
            a.busy == b.busy[v.period.value := p.(used := true)]
            && v == SettledBy(v, p, v.period.value) && v.inputId == Some(id)
       else
         && v == w && a.busy == b.busy
         && (w.deliveredSeq.Some? ==> NoCover(b.busy, w.deliveredSeq.value))
         && (w.delivered ==> Deliveries(b.log[base..], b.sid, id) >= 1)
  }

  /** An event closes at most the innermost open period, so an earlier cover stays innermost. */
  lemma InnermostStays(busy: seq<Period>, last: int, q: nat, d: int, sid: string, k: Kind, data: Data, at: int)
    requires BusyInv(busy, last) && last < at && InnermostCover(busy, q, d)
    ensures InnermostCover(ApplyDurable(busy, sid, k, data, at), q, d)
  {
    DurableKeepsBusy(busy, last, sid, k, data, at);
    var busy' := ApplyDurable(busy, sid, k, data, at);
    var top := TopOpen(busy);
    if !k.ExecutionStarted? && top.Some? {
      OnOpenKeepsFrame(busy[top.value], k, data);
      assert q < top.value ==> ApartOrInside(busy'[q], busy'[top.value]);
    }
  }

  /** If an event closes a cover, that cover is the only one. */
  lemma FirstCover(busy: seq<Period>, last: int, d: int, sid: string, k: Kind, data: Data, at: int)
    requires BusyInv(busy, last) && last < at && NoCover(busy, d)
    ensures var busy' := ApplyDurable(busy, sid, k, data, at);
      forall q :: 0 <= q < |busy'| && Covers(busy'[q], d) ==> InnermostCover(busy', q, d)
  {
    var top := TopOpen(busy);
    if !k.ExecutionStarted? && top.Some? { OnOpenKeepsFrame(busy[top.value], k, data); }
  }

  lemma NothingCoversLater(busy: seq<Period>, last: int, d: int)
    requires BusyInv(busy, last) && d > last
    ensures NoCover(busy, d)
  {
  }

  lemma MarkCommutes(busy: seq<Period>, q: nat, sid: string, k: Kind, d: Data, at: int)
    requires q < |busy| && busy[q].end.Some?
    ensures var b := ApplyDurable(busy, sid, k, d, at);
      && q < |b| && b[q] == busy[q]
      && ApplyDurable(busy[q := busy[q].(used := true)], sid, k, d, at) == b[q := b[q].(used := true)]
  {
    var marked := busy[q := busy[q].(used := true)];
    MarkKeepsTop(busy, q);
    var top := TopOpen(busy);
    if top.Some? { assert marked[top.value] == busy[top.value]; }
  }

  lemma {:induction false} MarkKeepsTop(busy: seq<Period>, q: nat)
    requires q < |busy|
    ensures TopOpen(busy[q := busy[q].(used := true)]) == TopOpen(busy)
  {
    var marked := busy[q := busy[q].(used := true)];
    var init := busy[..|busy| - 1];
    if q < |init| {
      assert marked[..|marked| - 1] == init[q := init[q].(used := true)];
      MarkKeepsTop(init, q);
    } else {
      assert marked[..|marked| - 1] == init;
    }
  }

  /** Where the covers of the replayed delivery stand after one more event. */
  lemma CoversAfter(b: Session, n: nat, base: nat, id: string, e: Event)
    requires SessionInv(b) && OnlyUnsettled(b, n) && Accepts(b, e) && base <= |b.log|
    requires var w := Replayed(b, n, base, id); w.deliveredSeq.Some? ==> NoCover(b.busy, w.deliveredSeq.value)
    ensures var w', busy' := ApplyEvent(Replayed(b, n, base, id), b.sid, e), Fold(b, e).busy;
      w'.deliveredSeq.Some? ==>
        forall q :: 0 <= q < |busy'| && Covers(busy'[q], w'.deliveredSeq.value) ==>
            InnermostCover(busy', q, w'.deliveredSeq.value)
  {
    var w' := ApplyEvent(Replayed(b, n, base, id), b.sid, e);
    if w'.deliveredSeq.Some? && e.durable.Some? {
      var d := w'.deliveredSeq.value;
      if d == e.durable.value.seq_ { NothingCoversLater(b.busy, b.lastSeq, d); }
      FirstCover(b.busy, b.lastSeq, d, b.sid, e.kind, e.data, e.durable.value.seq_);
    }
  }

  lemma ResolveCovers(busy: seq<Period>, w: Inv)
    requires !w.settled && (w.deliveredSeq.Some? ==> w.delivered)
    requires w.deliveredSeq.Some? ==>
      forall q :: 0 <= q < |busy| && Covers(busy[q], w.deliveredSeq.value) ==>
          InnermostCover(busy, q, w.deliveredSeq.value)
    ensures var (busy', v) := ResolveOne(busy, w);
      if v.settled then
        && v.period.Some? && v.deliveredSeq.Some? && w.delivered && v.deliveredSeq == w.deliveredSeq
        && InnermostCover(busy, v.period.value, v.deliveredSeq.value)
        && busy' == busy[v.period.value := busy[v.period.value].(used := true)]
        && v == SettledBy(v, busy[v.period.value], v.period.value) && v.inputId == w.inputId
      else v == w && busy' == busy && (w.deliveredSeq.Some? ==> NoCover(busy, w.deliveredSeq.value))
  {
  }

  lemma MatchesUnsettledStep(a: Session, b: Session, n: nat, base: nat, id: string, e: Event)
    requires Matches(a, b, n, base, id) && SessionInv(b) && Accepts(b, e) && !a.invs[n].settled
    ensures Matches(RecordAndDispatch(a, e), RecordAndDispatch(b, e), n, base, id)
  {
    FoldsAlike(a, b, n, base, id, e);
    UnknowingFold(b, n, base, e);
    FoldCovers(b, n, base, id, e);
    MatchesResolved(Fold(a, e), Fold(b, e), n, base, id);
  }

  /** Without an id nothing is resolved. */
  lemma UnknowingFold(b: Session, n: nat, base: nat, e: Event)
    requires OnlyUnsettled(b, n) && b.invs[n] == NewInv(base) && Accepts(b, e)
    ensures RecordAndDispatch(b, e) == Fold(b, e) && OnlyUnsettled(Fold(b, e), n) && Fold(b, e).invs[n] == NewInv(base)
  {
    DispatchLast(b, n, e);
    assert Fold(b, e).invs[n := NewInv(base)] == Fold(b, e).invs;
  }

  lemma FoldsAlike(a: Session, b: Session, n: nat, base: nat, id: string, e: Event)
    requires Matches(a, b, n, base, id) && Accepts(b, e) && !a.invs[n].settled
    ensures var f, g := Fold(a, e), Fold(b, e);
      && OnlyUnsettled(f, n) && Accepts(a, e)
      && f.sid == g.sid && f.log == g.log && f.lastSeq == g.lastSeq && f.busy == g.busy && f.invs[..n] == g.invs[..n]
      && f.invs[n] == ApplyEvent(Replayed(b, n, base, id), b.sid, e)
  {
    DispatchLast(a, n, e);
    ReplayStaysOpen(Known(base, id), b.sid, b.log[base..]);
    var f, g := Fold(a, e), Fold(b, e);
    forall j | 0 <= j < n ensures f.invs[j] == g.invs[j] { assert a.invs[..n][j] == b.invs[..n][j]; }
  }

  /** After one more event the replay is one event longer, and what covers its delivery is innermost. */
  lemma FoldCovers(b: Session, n: nat, base: nat, id: string, e: Event)
    requires SessionInv(b) && OnlyUnsettled(b, n) && Accepts(b, e) && base <= |b.log|
    requires var w := Replayed(b, n, base, id);
      && (w.deliveredSeq.Some? ==> NoCover(b.busy, w.deliveredSeq.value))
      && (w.delivered ==> Deliveries(b.log[base..], b.sid, id) >= 1)
    ensures var g := Fold(b, e);
      var w := Replayed(g, n, base, id);
      && w == ApplyEvent(Replayed(b, n, base, id), b.sid, e)
      && !w.settled && w.inputId == Some(id) && (w.deliveredSeq.Some? ==> w.delivered)
      && (w.delivered ==> Deliveries(g.log[base..], g.sid, id) >= 1)
      && (w.deliveredSeq.Some? ==>
            forall q :: 0 <= q < |g.busy| && Covers(g.busy[q], w.deliveredSeq.value) ==>
                InnermostCover(g.busy, q, w.deliveredSeq.value))
  {
    ReplayOneMore(Known(base, id), b.sid, b.log, base, (e, true));
    DeliveriesOneMore(b.log, base, (e, true), b.sid, id);
    CoversAfter(b, n, base, id, e);
    ReplayStaysOpen(Known(base, id), b.sid, Fold(b, e).log[base..]);
  }

  /** The session that knows the id, before it resolves, settles by an innermost cover or not at all. */
  lemma MatchesResolved(f: Session, b: Session, n: nat, base: nat, id: string)
    requires OnlyUnsettled(f, n) && OnlyUnsettled(b, n) && base <= |b.log|
    requires f.sid == b.sid && f.log == b.log && f.lastSeq == b.lastSeq && f.busy == b.busy
    requires f.invs[..n] == b.invs[..n] && b.invs[n] == NewInv(base)
    requires var w := Replayed(b, n, base, id);
      && f.invs[n] == w && !w.settled && w.inputId == Some(id) && (w.deliveredSeq.Some? ==> w.delivered)
      && (w.delivered ==> Deliveries(b.log[base..], b.sid, id) >= 1)
      && (w.deliveredSeq.Some? ==>
            forall q :: 0 <= q < |b.busy| && Covers(b.busy[q], w.deliveredSeq.value) ==>
                InnermostCover(b.busy, q, w.deliveredSeq.value))
    ensures Matches(ResolvePending(f), b, n, base, id)
  {
    var w := Replayed(b, n, base, id);
    ResolveLast(f, n);
    ResolveCovers(b.busy, w);
    var v := ResolveOne(f.busy, w).1;
    assert f.invs[n := v][..n] == f.invs[..n];
  }

  /** Once settled, the invocation that knew its id is left alone, and no second delivery arrives. */
  lemma SettledIsLeftAlone(a: Session, b: Session, n: nat, base: nat, id: string, e: Event)
    requires Matches(a, b, n, base, id) && Accepts(b, e) && a.invs[n].settled
    requires Deliveries(RecordAndDispatch(b, e).log[base..], b.sid, id) <= 1
    ensures RecordAndDispatch(a, e) == Fold(a, e) && RecordAndDispatch(b, e) == Fold(b, e)
    ensures Fold(a, e).invs[n] == a.invs[n] && Fold(b, e).invs[n] == b.invs[n]
    ensures Replayed(Fold(b, e), n, base, id).delivered == Replayed(b, n, base, id).delivered
    ensures Replayed(Fold(b, e), n, base, id).deliveredSeq == Replayed(b, n, base, id).deliveredSeq
    ensures Deliveries(Fold(b, e).log[base..], b.sid, id) >= 1
  {
    DispatchLast(a, n, e);
    DispatchLast(b, n, e);
    assert Fold(a, e).invs[n := a.invs[n]] == Fold(a, e).invs;
    assert Fold(b, e).invs[n := b.invs[n]] == Fold(b, e).invs;
    ReplayOneMore(Known(base, id), b.sid, b.log, base, (e, true));
    DeliveriesOneMore(b.log, base, (e, true), b.sid, id);
    ReplayStaysOpen(Known(base, id), b.sid, b.log[base..]);
  }

  lemma MatchesSettledStep(a: Session, b: Session, n: nat, base: nat, id: string, e: Event)
    requires Matches(a, b, n, base, id) && SessionInv(b) && Accepts(b, e) && a.invs[n].settled
    requires Deliveries(RecordAndDispatch(b, e).log[base..], b.sid, id) <= 1
    ensures Matches(RecordAndDispatch(a, e), RecordAndDispatch(b, e), n, base, id)
  {
    DispatchLast(a, n, e);
    DispatchLast(b, n, e);
    SettledIsLeftAlone(a, b, n, base, id, e);
    MarkedFold(b, a.invs[n].period.value, a.invs[n].deliveredSeq.value, e);
    assert Fold(a, e).invs[..n] == Fold(b, e).invs[..n];
  }

  /** The mark of a settlement commutes with every later event. */
  lemma MarkedFold(b: Session, q: nat, d: int, e: Event)
    requires SessionInv(b) && Accepts(b, e) && InnermostCover(b.busy, q, d)
    ensures var busy' := Fold(b, e).busy;
      && InnermostCover(busy', q, d) && busy'[q] == b.busy[q]
      && Fold(b.(busy := b.busy[q := b.busy[q].(used := true)]), e).busy == busy'[q := busy'[q].(used := true)]
  {
    if e.durable.Some? {
      var at := e.durable.value.seq_;
      MarkCommutes(b.busy, q, b.sid, e.kind, e.data, at);
      InnermostStays(b.busy, b.lastSeq, q, d, b.sid, e.kind, e.data, at);
    }
  }

  lemma MatchesStep(a: Session, b: Session, n: nat, base: nat, id: string, e: Event)
    requires Matches(a, b, n, base, id) && SessionInv(b)
    requires Deliveries(RecordAndDispatch(b, e).log[base..], b.sid, id) <= 1
    ensures Matches(RecordAndDispatch(a, e), RecordAndDispatch(b, e), n, base, id)
  {
    if !Accepts(b, e) {
      ReplayOneMore(Known(base, id), b.sid, b.log, base, (e, false));
      DeliveriesOneMore(b.log, base, (e, false), b.sid, id);
    } else if a.invs[n].settled {
      MatchesSettledStep(a, b, n, base, id, e);
    } else {
      MatchesUnsettledStep(a, b, n, base, id, e);
    }
  }

  // ------------------------------------------------------------ the receipt

  /** What an invocation reports once it is settled. */
  predicate SameSettlement(v: Inv, w: Inv) {
    && v.settled == w.settled
    && (v.settled ==> v.outcome == w.outcome && v.error == w.error && v.result == w.result
                      && v.usage == w.usage && v.period == w.period)
  }

  /** Sessions that treat every later event alike. */
  ghost predicate Agree(a: Session, b: Session, n: nat) {
    && OnlyUnsettled(a, n) && OnlyUnsettled(b, n)
    && a.sid == b.sid && a.busy == b.busy && a.lastSeq == b.lastSeq && a.invs[..n] == b.invs[..n]
    && (a.invs[n] == b.invs[n] || (a.invs[n].settled && SameSettlement(a.invs[n], b.invs[n])))
  }

  lemma ReceiptResolves(b: Session, n: nat, base: nat, id: string)
    requires OnlyUnsettled(b, n) && base <= |b.log| && b.invs[n] == NewInv(base)
    ensures var (busy, v) := ResolveOne(b.busy, Replayed(b, n, base, id));
      ReceiptArrives(b, n, id) == b.(busy := busy, invs := b.invs[n := v])
  {
    var w := Replayed(b, n, base, id);
    var s := b.(invs := b.invs[n := w]);
    ReplayStaysOpen(Known(base, id), b.sid, b.log[base..]);
    assert ReceiptArrives(b, n, id) == ResolvePending(s);
    ResolveLast(s, n);
    var v := ResolveOne(b.busy, w).1;
    assert s.invs[n := v] == b.invs[n := v];
  }

  /** The receipt finds everything as if the id had been known, unless several closed periods
      contain the delivery. */
  lemma ReceiptAgrees(a: Session, b: Session, n: nat, base: nat, id: string)
    requires Matches(a, b, n, base, id)
    requires a.invs[n].settled ==> OneCover(b.busy, a.invs[n].deliveredSeq.value)
    ensures Agree(a, ReceiptArrives(b, n, id), n)
  {
    var w := Replayed(b, n, base, id);
    ReplayStaysOpen(Known(base, id), b.sid, b.log[base..]);
    ReceiptResolves(b, n, base, id);
    if a.invs[n].settled {
      assert Settling(b.busy, w.deliveredSeq.value) == Some(a.invs[n].period.value);
    }
    assert a.invs[..n] == ReceiptArrives(b, n, id).invs[..n];
  }

  /** With several, the late receipt takes the outermost; the early one took the innermost. */
  lemma ReceiptDiffers(a: Session, b: Session, n: nat, base: nat, id: string)
    requires Matches(a, b, n, base, id)
    requires a.invs[n].settled && !OneCover(b.busy, a.invs[n].deliveredSeq.value)
    ensures var late := ReceiptArrives(b, n, id);
      OnlyUnsettled(late, n) && late.invs[n].settled && late.invs[n].period != a.invs[n].period
  {
    var w := Replayed(b, n, base, id);
    ReplayStaysOpen(Known(base, id), b.sid, b.log[base..]);
    ReceiptResolves(b, n, base, id);
    var q, d := a.invs[n].period.value, a.invs[n].deliveredSeq.value;
    var p, p' :| 0 <= p < |b.busy| && 0 <= p' < |b.busy| && Covers(b.busy[p], d) && Covers(b.busy[p'], d) && p != p';
    var outer := if p == q then p' else p;
    assert outer < q && !b.busy[outer].used;
    assert Settling(b.busy, d).Some? && Settling(b.busy, d).value <= outer;
  }

  lemma AgreeStep(a: Session, b: Session, n: nat, e: Event)
    requires Agree(a, b, n)
    ensures Agree(RecordAndDispatch(a, e), RecordAndDispatch(b, e), n)
  {
    if Accepts(a, e) {
      DispatchLast(a, n, e);
      DispatchLast(b, n, e);
      assert RecordAndDispatch(a, e).invs[..n] == RecordAndDispatch(b, e).invs[..n];
    }
  }

  lemma {:induction false} AgreeFeed(a: Session, b: Session, n: nat, es: seq<Event>)
    requires Agree(a, b, n)
    ensures Agree(Feed(a, es), Feed(b, es), n)
  {
    if es != [] {
      AgreeFeed(a, b, n, es[..|es| - 1]);
      AgreeStep(Feed(a, es[..|es| - 1]), Feed(b, es[..|es| - 1]), n, es[|es| - 1]);
    }
  }

  lemma {:induction false} SettledStays(a: Session, n: nat, es: seq<Event>)
    requires OnlyUnsettled(a, n) && a.invs[n].settled
    ensures OnlyUnsettled(Feed(a, es), n) && Feed(a, es).invs[n] == a.invs[n]
  {
    if es != [] {
      var b, e := Feed(a, es[..|es| - 1]), es[|es| - 1];
      SettledStays(a, n, es[..|es| - 1]);
      if Accepts(b, e) { DispatchLast(b, n, e); }
    }
  }

  lemma {:induction false} FeedKeeps(s: Session, es: seq<Event>)
    requires SessionInv(s)
    ensures SessionInv(Feed(s, es)) && |Feed(s, es).log| >= |s.log|
  {
    if es != [] {
      FeedKeeps(s, es[..|es| - 1]);
      DoKeeps(Feed(s, es[..|es| - 1]), Receive(es[|es| - 1]));
    }
  }

  /** Feeding a stream in two parts. */
  lemma {:induction false} FeedSplits(s: Session, es: seq<Event>, t: nat)
    requires t <= |es|
    ensures Feed(s, es) == Feed(Feed(s, es[..t]), es[t..])
  {
    if t < |es| {
      FeedSplits(s, es[..|es| - 1], t);
      assert es[..|es| - 1][..t] == es[..t];
      assert es[..|es| - 1][t..] == es[t..][..|es[t..]| - 1];
    } else {
      assert es[..t] == es;
    }
  }

  lemma {:induction false} MatchesFeed(a: Session, b: Session, n: nat, base: nat, id: string, es: seq<Event>)
    requires Matches(a, b, n, base, id) && SessionInv(b)
    requires DeliveriesSince(Feed(b, es), base, id) <= 1
    ensures Matches(Feed(a, es), Feed(b, es), n, base, id)
  {
    if es != [] {
      var b1, e := Feed(b, es[..|es| - 1]), es[|es| - 1];
      FeedKeeps(b, es[..|es| - 1]);
      DeliveriesOneMore(b1.log, base, (e, Accepts(b1, e)), b.sid, id);
      MatchesFeed(a, b, n, base, id, es[..|es| - 1]);
      MatchesStep(Feed(a, es[..|es| - 1]), b1, n, base, id, e);
    }
  }

  predicate DurableDelivery(entry: (Event, bool), sid: string, id: string) {
    entry.1 && IsDelivery(entry.0, sid, id) && entry.0.durable.Some?
  }

  /** The delivery that a replay finds is one of the log. */
  lemma {:induction false} ReplayedDelivery(base: nat, id: string, sid: string, log: seq<(Event, bool)>)
    requires Replay(Known(base, id), sid, log).deliveredSeq.Some?
    ensures exists k :: 0 <= k < |log| && DurableDelivery(log[k], sid, id)
              && Replay(Known(base, id), sid, log).deliveredSeq == Some(log[k].0.durable.value.seq_)
  {
    if log != [] {
      var init := log[..|log| - 1];
      ReplayStaysOpen(Known(base, id), sid, init);
      if DurableDelivery(log[|log| - 1], sid, id) {
        assert DurableDelivery(log[|log| - 1], sid, id);
      } else {
        ReplayedDelivery(base, id, sid, init);
        var k :| 0 <= k < |init| && DurableDelivery(init[k], sid, id)
                 && Replay(Known(base, id), sid, init).deliveredSeq == Some(init[k].0.durable.value.seq_);
        assert DurableDelivery(log[k], sid, id);
      }
    }
  }

  /** A log with one delivery replays to that delivery. */
  lemma {:induction false} OnlyDelivery(base: nat, id: string, sid: string, log: seq<(Event, bool)>, k: nat)
    requires k < |log| && DurableDelivery(log[k], sid, id) && Deliveries(log, sid, id) <= 1
    ensures Deliveries(log, sid, id) == 1
    ensures var w := Replay(Known(base, id), sid, log);
      w.delivered && w.deliveredSeq == Some(log[k].0.durable.value.seq_)
  {
    var init := log[..|log| - 1];
    ReplayStaysOpen(Known(base, id), sid, init);
    if k < |log| - 1 {
      assert init[k] == log[k];
      OnlyDelivery(base, id, sid, init, k);
    }
  }

  /** At most one closed period contains any delivery of the input that the log holds. */
  ghost predicate DeliveryCoveredOnce(s: Session, base: nat, id: string) {
    forall k :: base <= k < |s.log| && DurableDelivery(s.log[k], s.sid, id) ==>
      OneCover(s.busy, s.log[k].0.durable.value.seq_)
  }

  /** What covering once means for the session that knew the id. */
  lemma CoveredOnceWhenSettled(a: Session, b: Session, n: nat, base: nat, id: string)
    requires Matches(a, b, n, base, id) && Deliveries(b.log[base..], b.sid, id) <= 1
    ensures DeliveryCoveredOnce(b, base, id)
       <==> (a.invs[n].settled ==> OneCover(b.busy, a.invs[n].deliveredSeq.value))
  {
    var tail := b.log[base..];
    forall k | base <= k < |b.log| && DurableDelivery(b.log[k], b.sid, id)
      ensures Replayed(b, n, base, id).deliveredSeq == Some(b.log[k].0.durable.value.seq_)
    {
      assert tail[k - base] == b.log[k];
      OnlyDelivery(base, id, b.sid, tail, k - base);
    }
    if a.invs[n].settled {
      ReplayedDelivery(base, id, b.sid, tail);
      var k :| 0 <= k < |tail| && DurableDelivery(tail[k], b.sid, id)
               && Replay(Known(base, id), b.sid, tail).deliveredSeq == Some(tail[k].0.durable.value.seq_);
      assert b.log[base + k] == tail[k];
    }
  }

  // ------------------------------------------------------------ the main result

  /** The id known from the baseline on, against the id known after `t` of the events. */
  ghost function Early(s: Session, id: string, es: seq<Event>): Session {
    Feed(ReceiptArrives(Do(s, Register), |s.invs|, id), es)
  }

  ghost function Unknowing(s: Session, es: seq<Event>): Session {
    Feed(Do(s, Register), es)
  }

  ghost function Late(s: Session, id: string, es: seq<Event>, t: nat): Session
    requires t <= |es|
  {
    var before := Unknowing(s, es[..t]);
    if |before.invs| == |s.invs| + 1 then Feed(ReceiptArrives(before, |s.invs|, id), es[t..]) else before
  }

  lemma UntilTheReceipt(s: Session, id: string, es: seq<Event>)
    requires SessionInv(s) && forall j :: 0 <= j < |s.invs| ==> s.invs[j].settled
    requires DeliveriesSince(Unknowing(s, es), |s.log|, id) <= 1
    ensures Matches(Early(s, id, es), Unknowing(s, es), |s.invs|, |s.log|, id)
  {
    DoKeeps(s, Register);
    StartMatches(s, id);
    MatchesFeed(ReceiptArrives(Do(s, Register), |s.invs|, id), Do(s, Register), |s.invs|, |s.log|, id, es);
  }

  /** For every stream and every moment at which the receipt arrives: an invocation that is the
      session's only unsettled one, and whose input was delivered at most once by then, ends with
      the same settlement as if its id had been known at once exactly when no two closed periods
      contain its delivery as the receipt arrives. */
  lemma LateReceiptSettlesAlike(s: Session, id: string, es: seq<Event>, t: nat)
    requires SessionInv(s) && t <= |es| && forall j :: 0 <= j < |s.invs| ==> s.invs[j].settled
    requires DeliveriesSince(Unknowing(s, es[..t]), |s.log|, id) <= 1
    ensures var n := |s.invs|;
      && |Early(s, id, es).invs| == n + 1 && |Late(s, id, es, t).invs| == n + 1
      && (DeliveryCoveredOnce(Unknowing(s, es[..t]), |s.log|, id)
          <==> SameSettlement(Early(s, id, es).invs[n], Late(s, id, es, t).invs[n])
               && Early(s, id, es).busy == Late(s, id, es, t).busy)
  {
    var n, base := |s.invs|, |s.log|;
    var a, b := Early(s, id, es[..t]), Unknowing(s, es[..t]);
    UntilTheReceipt(s, id, es[..t]);
    FeedSplits(ReceiptArrives(Do(s, Register), n, id), es, t);
    CoveredOnceWhenSettled(a, b, n, base, id);
    var late := ReceiptArrives(b, n, id);
    if DeliveryCoveredOnce(b, base, id) {
      ReceiptAgrees(a, b, n, base, id);
      AgreeFeed(a, late, n, es[t..]);
    } else {
      ReceiptDiffers(a, b, n, base, id);
      SettledStays(a, n, es[t..]);
      SettledStays(late, n, es[t..]);
    }
  }

  lemma StartMatches(s: Session, id: string)
    requires forall j :: 0 <= j < |s.invs| ==> s.invs[j].settled
    ensures var r := Do(s, Register);
      Matches(ReceiptArrives(r, |s.invs|, id), r, |s.invs|, |s.log|, id)
  {
    var r, n := Do(s, Register), |s.invs|;
    assert r.log[|s.log|..] == [];
    ReceiptResolves(r, n, |s.log|, id);
    assert ReceiptArrives(r, n, id).invs[..n] == r.invs[..n];
  }

  // ------------------------------------------------------------ nested periods do happen

  const NoData := Data(None, None, None, None, None, None,
                       Tokens(NotANumber, NotANumber, NotANumber, NotANumber, NotANumber, NotANumber))

  function InTurn(k: Kind, d: Data, at: int): Event {
    Event(k, d, Some(Durable("s", at)))
  }

  /** Two executions start. */
  function Starts(): seq<Op> {
    [Receive(InTurn(ExecutionStarted, NoData, 1)), Receive(InTurn(ExecutionStarted, NoData, 2))]
  }

  function TwoOpen(): Session {
    Session("s", [(Starts()[0].event, true), (Starts()[1].event, true)], [NewPeriod(1), NewPeriod(2)], 2, [])
  }

  lemma TwoOpenIsReached()
    ensures Run(Fresh("s"), Starts()) == TwoOpen() && SessionInv(TwoOpen())
  {
    var ops := Starts();
    assert ops[..1] == [ops[0]] && ops[..1][..0] == [];
    assert Run(Fresh("s"), ops[..1]) == Do(Fresh("s"), ops[0]);
    assert Run(Fresh("s"), ops) == Do(Run(Fresh("s"), ops[..1]), ops[1]);
    RunKeeps("s", ops);
  }

  /** The input is delivered, then one execution succeeds and the other fails. */
  function Ends(): seq<Event> {
    [InTurn(InboxDelivered, NoData.(session := Some("s"), inbox := Some("m")), 3),
     InTurn(ExecutionSucceeded, NoData, 4), InTurn(ExecutionFailed, NoData, 5)]
  }

  /** While the only invocation has no id, an accepted event does no more than fold into the periods. */
  lemma UnknowingStep(s: Session, e: Event)
    requires s.invs == [NewInv(2)] && Accepts(s, e) && e.durable.Some?
    ensures var at := e.durable.value.seq_;
      RecordAndDispatch(s, e) ==
        s.(lastSeq := at, log := s.log + [(e, true)], busy := ApplyDurable(s.busy, s.sid, e.kind, e.data, at))
  {
    var f := Fold(s, e);
    assert f.invs == [NewInv(2)];
    assert OnlyUnsettled(f, 0);
    ResolveLast(f, 0);
    assert f.invs[0 := NewInv(2)] == f.invs;
  }

  lemma FeedOne(s: Session, e: Event)
    ensures Feed(s, [e]) == RecordAndDispatch(s, e)
  {
    assert [e][..0] == [];
  }

  /** Three events one after another. */
  lemma FeedThree(r: Session, es: seq<Event>)
    requires |es| == 3
    ensures Feed(r, es) == RecordAndDispatch(RecordAndDispatch(RecordAndDispatch(r, es[0]), es[1]), es[2])
  {
    assert es[..2][..1] == [es[0]] && es[..1] == [es[0]] && es[..2] == [es[0], es[1]];
    FeedOne(r, es[0]);
  }

  lemma DeliveredInside()
    ensures var r := RecordAndDispatch(Do(TwoOpen(), Register), Ends()[0]);
      && r.sid == "s" && r.lastSeq == 3 && r.invs == [NewInv(2)] && r.log == TwoOpen().log + [(Ends()[0], true)]
      && r.busy == [NewPeriod(1), NewPeriod(2).(delivered := {"m"})]
  {
    var r := Do(TwoOpen(), Register);
    assert r.invs == [NewInv(2)];
    UnknowingStep(r, Ends()[0]);
    assert TopOpen(r.busy) == Some(1);
    assert NewPeriod(2).delivered + {"m"} == {"m"};
  }

  /** Both periods close around the delivery, the inner one first. */
  lemma TwoClosed()
    ensures var r := Unknowing(TwoOpen(), Ends());
      && r.sid == "s" && r.invs == [NewInv(2)]
      && r.log == TwoOpen().log + [(Ends()[0], true), (Ends()[1], true), (Ends()[2], true)]
      && |r.busy| == 2 && r.busy[0].outcome == Some(Failed) && r.busy[1].outcome == Some(Completed)
      && Covers(r.busy[0], 3) && Covers(r.busy[1], 3) && !r.busy[0].used && r.busy[0].start < r.busy[1].start
  {
    var es, r := Ends(), Do(TwoOpen(), Register);
    FeedThree(r, es);
    DeliveredInside();
    var r1 := RecordAndDispatch(r, es[0]);
    UnknowingStep(r1, es[1]);
    assert TopOpen(r1.busy) == Some(1);
    var r2 := RecordAndDispatch(r1, es[1]);
    UnknowingStep(r2, es[2]);
    assert TopOpen(r2.busy[..1]) == Some(0);
  }

  function Tail(): seq<(Event, bool)> {
    [(Ends()[0], true), (Ends()[1], true), (Ends()[2], true)]
  }

  lemma OneDelivery()
    ensures Deliveries(Tail(), "s", "m") == 1 && DurableDelivery(Tail()[0], "s", "m")
  {
    var t := Tail();
    assert t[..2] == [t[0], t[1]] && t[..2][..1] == [t[0]] && t[..2][..1][..0] == [];
    assert IsDelivery(t[0].0, "s", "m");
    assert Deliveries(t[..2][..1], "s", "m") == 1;
    assert Deliveries(t[..2], "s", "m") == 1;
  }

  /** The inner period settles the invocation that knows its id, the outer one the late one. */
  lemma BothClosed(a: Session, r: Session)
    requires Matches(a, r, 0, 2, "m") && r.log[2..] == Tail() && r.sid == "s"
    requires |r.busy| == 2 && r.busy[0].outcome == Some(Failed) && r.busy[1].outcome == Some(Completed)
    requires Covers(r.busy[0], 3) && Covers(r.busy[1], 3) && !r.busy[0].used
    ensures a.invs[0].settled && a.invs[0].outcome == Completed
    ensures var late := ReceiptArrives(r, 0, "m");
      |late.invs| == 1 && late.invs[0].settled && late.invs[0].outcome == Failed
  {
    OneDelivery();
    OnlyDelivery(2, "m", "s", Tail(), 0);
    ReplayStaysOpen(Known(2, "m"), "s", Tail());
    ReceiptResolves(r, 0, 2, "m");
    assert Settling(r.busy, 3) == Some(0);
  }

  /** So the condition of the main result can fail, in a session that two starts make of a fresh one:
      with the id known at once the invocation completes, with the late receipt it has failed. */
  lemma NestingHappens()
    ensures Run(Fresh("s"), Starts()) == TwoOpen()
    ensures !DeliveryCoveredOnce(Unknowing(TwoOpen(), Ends()), 2, "m")
    ensures var early, late := Early(TwoOpen(), "m", Ends()), Late(TwoOpen(), "m", Ends(), 3);
      && |early.invs| == 1 && early.invs[0].settled && early.invs[0].outcome == Completed
      && |late.invs| == 1 && late.invs[0].settled && late.invs[0].outcome == Failed
  {
    var r := Unknowing(TwoOpen(), Ends());
    TwoOpenIsReached();
    TwoClosed();
    OneDelivery();
    assert r.log[2..] == Tail() && r.log[2] == Tail()[0];
    assert Ends()[..3] == Ends() && Ends()[3..] == [];
    UntilTheReceipt(TwoOpen(), "m", Ends());
    BothClosed(Early(TwoOpen(), "m", Ends()), r);
  }
}
