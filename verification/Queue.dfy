/** The queue consumer: its sweep over pending entries, and what it acknowledges. Message ids are
    positive numbers; the cursor 0 is before all of them. */
module Queue {
  import opened Options

  /** One delivery. The broker keeps a pending entry whose message was deleted, without fields. */
  datatype Entry = Entry(id: nat, empty: bool)

  /** What the consumer did, in order. */
  datatype Act = Admitted(id: nat, started: bool) | FoundEmpty(id: nat) | Acked(id: nat, failed: bool)

  const READ_COUNT := 10

  /** How handling one entry ends: whether its run started, and whether the acknowledgement failed. */
  datatype Outcome = Outcome(started: bool, ackFails: bool)

  type Outcomes = nat -> Outcome

  // ------------------------------------------------------------ one entry

  function Handle(log: seq<Act>, e: Entry, o: Outcome): seq<Act> {
    if o.started then log + [Admitted(e.id, true), Acked(e.id, o.ackFails)] else log + [Admitted(e.id, false)]
  }

  function AckStale(log: seq<Act>, e: Entry, o: Outcome): seq<Act> {
    log + [FoundEmpty(e.id), Acked(e.id, o.ackFails)]
  }

  /** An acknowledgement follows the start of its own run, or the finding that nothing is left. */
  predicate AckAllowed(log: seq<Act>, i: nat)
    requires i < |log|
  {
    log[i].Acked? ==> i > 0 && (log[i - 1] == Admitted(log[i].id, true) || log[i - 1] == FoundEmpty(log[i].id))
  }

  ghost predicate AcksFollowStarts(log: seq<Act>) {
    forall i :: 0 <= i < |log| ==> AckAllowed(log, i)
  }

  lemma OneEntryKeepsAcks(log: seq<Act>, e: Entry, o: Outcome)
    requires AcksFollowStarts(log)
    ensures AcksFollowStarts(Handle(log, e, o)) && AcksFollowStarts(AckStale(log, e, o))
  {
    forall log' | log' == Handle(log, e, o) || log' == AckStale(log, e, o) ensures AcksFollowStarts(log') {
      forall i | 0 <= i < |log'| ensures AckAllowed(log', i) {
        if i < |log| { assert AckAllowed(log, i); }
      }
    }
  }

  // ------------------------------------------------------------ the sweep

  ghost predicate Ascending(pending: seq<Entry>) {
    forall i, j :: 0 <= i < j < |pending| ==> pending[i].id < pending[j].id
  }

  /** The entries after a cursor, in the order of their ids. */
  function After(pending: seq<Entry>, cursor: nat): seq<Entry> {
    if pending == [] then []
    else if pending[0].id <= cursor then After(pending[1..], cursor)
    else pending
  }

  /** What the broker answers to a read of the consumer's own pending entries. */
  function Batch(pending: seq<Entry>, cursor: nat): seq<Entry> {
    var rest := After(pending, cursor);
    if |rest| <= READ_COUNT then rest else rest[..READ_COUNT]
  }

  /** `swept`: the entries visited since the last reset, in order. */
  datatype Consumer = Consumer(cursor: nat, nextSweep: int, swept: seq<nat>, log: seq<Act>)

  function VisitOne(c: Consumer, e: Entry, o: Outcome): Consumer {
    c.(cursor := e.id, swept := c.swept + [e.id],
       log := if e.empty then AckStale(c.log, e, o) else Handle(c.log, e, o))
  }

  function VisitAll(c: Consumer, entries: seq<Entry>, outcomes: Outcomes, n: nat): Consumer
    requires n <= |entries|
  {
    if n == 0 then c else VisitOne(VisitAll(c, entries, outcomes, n - 1), entries[n - 1], outcomes(n - 1))
  }

  const BLOCK_MS := 5000

  /** The answer to a read that finds nothing: nothing at all, or the stream with no entries. */
  datatype Shape = Nothing | EmptyStream

  /** `_consume_pending_once`. Only an answer that is nothing at all resets the cursor. */
  function ConsumePending(c: Consumer, pending: seq<Entry>, shape: Shape, outcomes: Outcomes, now: int): Consumer {
    if now < c.nextSweep then c
    else
      var entries := Batch(pending, c.cursor);
      if entries == [] && shape.Nothing? then c.(cursor := 0, nextSweep := now + BLOCK_MS, swept := [])
      else VisitAll(c, entries, outcomes, |entries|)
  }

  function HandleNew(log: seq<Act>, entries: seq<Entry>, outcomes: Outcomes, n: nat): seq<Act>
    requires n <= |entries|
  {
    if n == 0 then log else Handle(HandleNew(log, entries, outcomes, n - 1), entries[n - 1], outcomes(n - 1))
  }

  /** `_consume_once`: a stretch of the sweep, then new messages. */
  datatype Round = Round(pending: seq<Entry>, shape: Shape, outcomes: Outcomes, now: int, arrived: seq<Entry>,
                         arrivedOutcomes: Outcomes)

  function AfterRound(c: Consumer, r: Round): Consumer {
    var c1 := ConsumePending(c, r.pending, r.shape, r.outcomes, r.now);
    c1.(log := HandleNew(c1.log, r.arrived, r.arrivedOutcomes, |r.arrived|))
  }

  function Consume(c: Consumer, rounds: seq<Round>): Consumer {
    if rounds == [] then c else AfterRound(Consume(c, rounds[..|rounds| - 1]), rounds[|rounds| - 1])
  }

  // ------------------------------------------------------------ acknowledgements

  lemma {:induction false} VisitAllKeepsAcks(c: Consumer, entries: seq<Entry>, outcomes: Outcomes, n: nat)
    requires n <= |entries| && AcksFollowStarts(c.log)
    ensures AcksFollowStarts(VisitAll(c, entries, outcomes, n).log)
  {
    if n > 0 {
      VisitAllKeepsAcks(c, entries, outcomes, n - 1);
      OneEntryKeepsAcks(VisitAll(c, entries, outcomes, n - 1).log, entries[n - 1], outcomes(n - 1));
    }
  }

  lemma {:induction false} HandleNewKeepsAcks(log: seq<Act>, entries: seq<Entry>, outcomes: Outcomes, n: nat)
    requires n <= |entries| && AcksFollowStarts(log)
    ensures AcksFollowStarts(HandleNew(log, entries, outcomes, n))
  {
    if n > 0 {
      HandleNewKeepsAcks(log, entries, outcomes, n - 1);
      OneEntryKeepsAcks(HandleNew(log, entries, outcomes, n - 1), entries[n - 1], outcomes(n - 1));
    }
  }

  /** Over every run: a message is acknowledged only after its run started, or after its entry came
      back without fields. */
  lemma {:induction false} AcksOnlyAfterStart(c: Consumer, rounds: seq<Round>)
    requires AcksFollowStarts(c.log)
    ensures AcksFollowStarts(Consume(c, rounds).log)
  {
    if rounds != [] {
      var before, r := Consume(c, rounds[..|rounds| - 1]), rounds[|rounds| - 1];
      AcksOnlyAfterStart(c, rounds[..|rounds| - 1]);
      var entries := Batch(r.pending, before.cursor);
      VisitAllKeepsAcks(before, entries, r.outcomes, |entries|);
      HandleNewKeepsAcks(ConsumePending(before, r.pending, r.shape, r.outcomes, r.now).log,
                         r.arrived, r.arrivedOutcomes, |r.arrived|);
    }
  }

  /** A started run is acknowledged next, and so is an entry that came back without fields. */
  predicate AckFollows(log: seq<Act>, i: nat)
    requires i < |log|
  {
    match log[i]
    case Admitted(id, true) => i + 1 < |log| && log[i + 1].Acked? && log[i + 1].id == id
    case FoundEmpty(id) => i + 1 < |log| && log[i + 1].Acked? && log[i + 1].id == id
    case _ => true
  }

  ghost predicate StartsAcked(log: seq<Act>) {
    forall i :: 0 <= i < |log| ==> AckFollows(log, i)
  }

  lemma OneEntryIsAcked(log: seq<Act>, e: Entry, o: Outcome)
    requires StartsAcked(log)
    ensures StartsAcked(Handle(log, e, o)) && StartsAcked(AckStale(log, e, o))
  {
    forall log' | log' == Handle(log, e, o) || log' == AckStale(log, e, o) ensures StartsAcked(log') {
      forall i | 0 <= i < |log'| ensures AckFollows(log', i) {
        if i < |log| { assert AckFollows(log, i) && log'[i] == log[i]; }
      }
    }
  }

  /** What was handled, in order: each id, and whether its run started or it was found empty. */
  datatype Handled = Handled(id: nat, started: bool, empty: bool)

  function HandledIn(log: seq<Act>): seq<Handled> {
    if log == [] then []
    else
      var before := HandledIn(log[..|log| - 1]);
      match log[|log| - 1]
      case Admitted(id, started) => before + [Handled(id, started, false)]
      case FoundEmpty(id) => before + [Handled(id, false, true)]
      case Acked(_, _) => before
  }

  lemma OneEntryIsHandled(log: seq<Act>, e: Entry, o: Outcome)
    ensures HandledIn(Handle(log, e, o)) == HandledIn(log) + [Handled(e.id, o.started, false)]
    ensures HandledIn(AckStale(log, e, o)) == HandledIn(log) + [Handled(e.id, false, true)]
  {
    var a, b := log + [Admitted(e.id, o.started)], log + [FoundEmpty(e.id)];
    assert a[..|log|] == log && b[..|log|] == log;
    if o.started {
      var c := Handle(log, e, o);
      assert c[..|c| - 1] == a;
    } else {
      assert Handle(log, e, o) == a;
    }
    var d := AckStale(log, e, o);
    assert d[..|d| - 1] == b;
  }

  /** A pending entry without fields starts nothing; any other one starts as its outcome says. */
  function AsFound(entries: seq<Entry>, outcomes: Outcomes, n: nat): seq<Handled>
    requires n <= |entries|
  {
    seq(n, i requires 0 <= i < n =>
      Handled(entries[i].id, !entries[i].empty && outcomes(i).started, entries[i].empty))
  }

  function AsNew(entries: seq<Entry>, outcomes: Outcomes, n: nat): seq<Handled>
    requires n <= |entries|
  {
    seq(n, i requires 0 <= i < n => Handled(entries[i].id, outcomes(i).started, false))
  }

  lemma OneVisitIsHandled(c: Consumer, e: Entry, o: Outcome)
    requires StartsAcked(c.log)
    ensures var c' := VisitOne(c, e, o);
      StartsAcked(c'.log) && HandledIn(c'.log) == HandledIn(c.log) + [Handled(e.id, !e.empty && o.started, e.empty)]
  {
    OneEntryIsHandled(c.log, e, o);
    OneEntryIsAcked(c.log, e, o);
  }

  lemma {:induction false} VisitsAreHandled(c: Consumer, entries: seq<Entry>, outcomes: Outcomes, n: nat)
    requires n <= |entries| && StartsAcked(c.log)
    ensures var c' := VisitAll(c, entries, outcomes, n);
      StartsAcked(c'.log) && HandledIn(c'.log) == HandledIn(c.log) + AsFound(entries, outcomes, n)
  {
    if n > 0 {
      var e, o := entries[n - 1], outcomes(n - 1);
      VisitsAreHandled(c, entries, outcomes, n - 1);
      OneVisitIsHandled(VisitAll(c, entries, outcomes, n - 1), e, o);
      assert AsFound(entries, outcomes, n)
          == AsFound(entries, outcomes, n - 1) + [Handled(e.id, !e.empty && o.started, e.empty)];
    }
  }

  lemma {:induction false} NewAreHandled(log: seq<Act>, entries: seq<Entry>, outcomes: Outcomes, n: nat)
    requires n <= |entries| && StartsAcked(log)
    ensures var log' := HandleNew(log, entries, outcomes, n);
      StartsAcked(log') && HandledIn(log') == HandledIn(log) + AsNew(entries, outcomes, n)
  {
    if n > 0 {
      var before := HandleNew(log, entries, outcomes, n - 1);
      NewAreHandled(log, entries, outcomes, n - 1);
      OneEntryIsHandled(before, entries[n - 1], outcomes(n - 1));
      OneEntryIsAcked(before, entries[n - 1], outcomes(n - 1));
      assert AsNew(entries, outcomes, n)
          == AsNew(entries, outcomes, n - 1) + [Handled(entries[n - 1].id, outcomes(n - 1).started, false)];
    }
  }

  /** A round handles every pending entry that the broker gave back, if the sweep is due, and then every
      message that arrived, each once and in order; a run starts exactly where its outcome says so. */
  lemma RoundHandlesAll(c: Consumer, r: Round)
    requires StartsAcked(c.log)
    ensures StartsAcked(AfterRound(c, r).log)
    ensures var b := Batch(r.pending, c.cursor);
      HandledIn(AfterRound(c, r).log) ==
        HandledIn(c.log) + (if r.now < c.nextSweep then [] else AsFound(b, r.outcomes, |b|))
        + AsNew(r.arrived, r.arrivedOutcomes, |r.arrived|)
  {
    var b := Batch(r.pending, c.cursor);
    VisitsAreHandled(c, b, r.outcomes, |b|);
    var c1 := ConsumePending(c, r.pending, r.shape, r.outcomes, r.now);
    NewAreHandled(c1.log, r.arrived, r.arrivedOutcomes, |r.arrived|);
    assert HandledIn(c.log) + [] == HandledIn(c.log);
    assert b == [] ==> AsFound(b, r.outcomes, |b|) == [];
  }

  /** Over every run: whatever was started, or came back without fields, was acknowledged next. */
  lemma {:induction false} StartsAreAcked(c: Consumer, rounds: seq<Round>)
    requires StartsAcked(c.log)
    ensures StartsAcked(Consume(c, rounds).log)
  {
    if rounds != [] {
      StartsAreAcked(c, rounds[..|rounds| - 1]);
      RoundHandlesAll(Consume(c, rounds[..|rounds| - 1]), rounds[|rounds| - 1]);
    }
  }

  // ------------------------------------------------------------ what a sweep visits

  predicate Holds(pending: seq<Entry>, id: nat) {
    exists e <- pending :: e.id == id
  }

  lemma {:induction false} AfterHolds(pending: seq<Entry>, cursor: nat)
    requires Ascending(pending)
    ensures Ascending(After(pending, cursor))
    ensures forall i :: 0 <= i < |After(pending, cursor)| ==> After(pending, cursor)[i].id > cursor
    ensures forall id: nat :: id > cursor && Holds(pending, id) ==> Holds(After(pending, cursor), id)
  {
    if pending != [] && pending[0].id <= cursor {
      AfterHolds(pending[1..], cursor);
      forall id: nat | id > cursor && Holds(pending, id) ensures Holds(After(pending, cursor), id) {
        var e :| e in pending && e.id == id;
        assert e in pending[1..];
        assert Holds(pending[1..], id);
      }
    } else if pending != [] {
      forall i | 0 <= i < |pending| ensures pending[i].id > cursor { assert i > 0 ==> pending[0].id < pending[i].id; }
    }
  }

  ghost predicate StrictlyUp(ids: seq<nat>) {
    forall i, j :: 0 <= i < j < |ids| ==> ids[i] < ids[j]
  }

  predicate Visited(ids: seq<nat>, id: nat) {
    exists i :: 0 <= i < |ids| && ids[i] == id
  }

  /** The sweep so far: in increasing order, up to the cursor. */
  ghost predicate Sweeping(c: Consumer) {
    && StrictlyUp(c.swept)
    && (if c.swept == [] then c.cursor == 0 else c.cursor == c.swept[|c.swept| - 1])
  }

  /** Visiting a batch extends the sweep by the ids of the batch. */
  lemma {:induction false} VisitAllSweeps(c: Consumer, entries: seq<Entry>, outcomes: Outcomes, n: nat)
    requires n <= |entries| && Sweeping(c) && Ascending(entries)
    requires forall i :: 0 <= i < |entries| ==> entries[i].id > c.cursor
    ensures WentOnBy(c, entries, n, VisitAll(c, entries, outcomes, n))
  {
    if n > 0 {
      VisitAllSweeps(c, entries, outcomes, n - 1);
      VisitNextSweeps(c, entries, n - 1, VisitAll(c, entries, outcomes, n - 1), outcomes(n - 1));
    }
  }

  /** The sweep went on by the ids of the first `n` entries, in their order. */
  ghost predicate WentOnBy(c: Consumer, entries: seq<Entry>, n: nat, c': Consumer)
    requires n <= |entries|
  {
    && Sweeping(c') && |c'.swept| == |c.swept| + n && c.swept <= c'.swept && c'.nextSweep == c.nextSweep
    && c'.cursor == (if n == 0 then c.cursor else entries[n - 1].id)
    && forall i :: 0 <= i < n ==> c'.swept[|c.swept| + i] == entries[i].id
  }

  lemma VisitNextSweeps(c: Consumer, entries: seq<Entry>, n: nat, c1: Consumer, o: Outcome)
    requires n < |entries| && Ascending(entries) && entries[n].id > c.cursor && WentOnBy(c, entries, n, c1)
    ensures WentOnBy(c, entries, n + 1, VisitOne(c1, entries[n], o))
  {
    VisitOneSweeps(c1, entries[n], o);
  }

  lemma VisitOneSweeps(c: Consumer, e: Entry, o: Outcome)
    requires Sweeping(c) && c.cursor < e.id
    ensures var c' := VisitOne(c, e, o); Sweeping(c') && c'.swept == c.swept + [e.id] && c'.nextSweep == c.nextSweep
  {
  }

  lemma BatchFacts(pending: seq<Entry>, cursor: nat)
    requires Ascending(pending)
    ensures var b := Batch(pending, cursor);
      && Ascending(b) && (forall i :: 0 <= i < |b| ==> b[i].id > cursor)
      && (b == [] ==> forall id: nat :: Holds(pending, id) ==> id <= cursor)
      && (b != [] ==> forall id: nat :: cursor < id <= b[|b| - 1].id && Holds(pending, id) ==> Holds(b, id))
  {
    AfterHolds(pending, cursor);
    var rest, b := After(pending, cursor), Batch(pending, cursor);
    if b != [] {
      assert forall k :: |b| <= k < |rest| ==> rest[|b| - 1].id < rest[k].id;
      forall id: nat | cursor < id <= b[|b| - 1].id && Holds(pending, id) ensures Holds(b, id) {
        assert Holds(rest, id);
        var i :| 0 <= i < |rest| && rest[i].id == id;
        assert b[i] == rest[i];
      }
    } else {
      assert rest == [];
      forall id: nat | Holds(pending, id) ensures id <= cursor { assert !Holds(rest, id); }
    }
  }

  /** No round of a stretch resets the cursor. */
  predicate Continues(c: Consumer, r: Round) {
    r.now < c.nextSweep || Batch(r.pending, c.cursor) != [] || r.shape.EmptyStream?
  }

  ghost predicate Uninterrupted(c: Consumer, rounds: seq<Round>) {
    forall k :: 0 <= k < |rounds| ==> Continues(Consume(c, rounds[..k]), rounds[k])
  }

  ghost predicate StaysPending(rounds: seq<Round>, id: nat) {
    forall k :: 0 <= k < |rounds| ==> Holds(rounds[k].pending, id)
  }

  ghost predicate Ordered(rounds: seq<Round>) {
    forall k :: 0 <= k < |rounds| ==> Ascending(rounds[k].pending)
  }

  lemma RoundSweeps(c: Consumer, r: Round, id: nat)
    requires Sweeping(c) && Ascending(r.pending) && Continues(c, r)
    ensures var c' := AfterRound(c, r);
      && Sweeping(c') && c.swept <= c'.swept && c'.cursor >= c.cursor
      && (forall i :: |c.swept| <= i < |c'.swept| ==> c'.swept[i] > c.cursor)
      && (id > 0 && Holds(r.pending, id) && (id <= c.cursor ==> Visited(c.swept, id)) && id <= c'.cursor ==>
            Visited(c'.swept, id))
  {
    BatchFacts(r.pending, c.cursor);
    var b := Batch(r.pending, c.cursor);
    var c' := AfterRound(c, r);
    VisitAllSweeps(c, b, r.outcomes, |b|);
    forall i | |c.swept| <= i < |c'.swept| ensures c'.swept[i] > c.cursor {
      assert c'.swept[|c.swept| + (i - |c.swept|)] == b[i - |c.swept|].id;
    }
    if id > 0 && Holds(r.pending, id) && (id <= c.cursor ==> Visited(c.swept, id)) && id <= c'.cursor {
      if id <= c.cursor {
        var i :| 0 <= i < |c.swept| && c.swept[i] == id;
        assert c'.swept[i] == id;
      } else {
        assert Holds(b, id);
        var i :| 0 <= i < |b| && b[i].id == id;
        assert c'.swept[|c.swept| + i] == id;
      }
    }
  }

  lemma {:induction false} StretchSweeps(c: Consumer, rounds: seq<Round>, id: nat)
    requires c.swept == [] && c.cursor == 0 && id > 0
    requires Ordered(rounds) && Uninterrupted(c, rounds) && StaysPending(rounds, id)
    ensures var c' := Consume(c, rounds);
      Sweeping(c') && (id <= c'.cursor ==> Visited(c'.swept, id))
  {
    if rounds != [] {
      var init, r := rounds[..|rounds| - 1], rounds[|rounds| - 1];
      assert forall k :: 0 <= k < |init| ==> init[..k] == rounds[..k];
      StretchSweeps(c, init, id);
      assert rounds[..|init|] == init;
      RoundSweeps(Consume(c, init), r, id);
    }
  }

  /** Between two resets of the cursor, the sweep visits every entry that stays pending throughout
      exactly once, and all of its visits are in increasing order of the ids. */
  lemma SweepVisitsOnce(c: Consumer, rounds: seq<Round>, last: Round, id: nat)
    requires c.swept == [] && c.cursor == 0 && id > 0
    requires Ordered(rounds) && Ascending(last.pending) && Uninterrupted(c, rounds)
    requires StaysPending(rounds, id) && Holds(last.pending, id)
    requires !Continues(Consume(c, rounds), last)
    ensures var c' := Consume(c, rounds);
      && StrictlyUp(c'.swept)
      && exists i :: 0 <= i < |c'.swept| && c'.swept[i] == id
                     && forall j :: 0 <= j < |c'.swept| && c'.swept[j] == id ==> j == i
    ensures AfterRound(Consume(c, rounds), last).cursor == 0
  {
    StretchSweeps(c, rounds, id);
    var c' := Consume(c, rounds);
    BatchFacts(last.pending, c'.cursor);
    assert Visited(c'.swept, id);
    UpOnce(c'.swept, id);
  }

  lemma UpOnce(ids: seq<nat>, id: nat)
    requires StrictlyUp(ids) && Visited(ids, id)
    ensures exists i :: 0 <= i < |ids| && ids[i] == id && forall j :: 0 <= j < |ids| && ids[j] == id ==> j == i
  {
    var i :| 0 <= i < |ids| && ids[i] == id;
    forall j | 0 <= j < |ids| && ids[j] == id ensures j == i { }
  }

  // ------------------------------------------------------------ when the sweep begins anew

  lemma {:induction false} AfterIsPending(pending: seq<Entry>, cursor: nat)
    ensures forall e :: e in After(pending, cursor) ==> e in pending
  {
    if pending != [] && pending[0].id <= cursor { AfterIsPending(pending[1..], cursor); }
  }

  lemma BatchEmptyIff(pending: seq<Entry>, cursor: nat)
    requires Ascending(pending)
    ensures Batch(pending, cursor) == [] <==> forall id: nat :: Holds(pending, id) ==> id <= cursor
  {
    BatchFacts(pending, cursor);
    AfterIsPending(pending, cursor);
    var b := Batch(pending, cursor);
    if b != [] {
      assert b[0] == After(pending, cursor)[0] && b[0] in pending;
      assert Holds(pending, b[0].id) && b[0].id > cursor;
    }
  }

  /** The broker answers with the next ten pending entries after the cursor, or all of them if they are fewer. */
  lemma BatchIsTheNextTen(pending: seq<Entry>, cursor: nat)
    requires Ascending(pending)
    ensures var b := Batch(pending, cursor);
      && Ascending(b) && |b| <= 10 && (forall i :: 0 <= i < |b| ==> b[i] in pending && b[i].id > cursor)
      && (forall id: nat :: Holds(pending, id) && cursor < id && (|b| < 10 || id <= b[|b| - 1].id) ==> Holds(b, id))
  {
    BatchFacts(pending, cursor);
    AfterIsPending(pending, cursor);
    AfterHolds(pending, cursor);
  }

  /** The sweep is due, nothing that is pending lies after the cursor, and the broker answers the read
      of it with nothing at all. */
  ghost predicate Exhausted(c: Consumer, r: Round) {
    r.now >= c.nextSweep && r.shape.Nothing? && forall id: nat :: Holds(r.pending, id) ==> id <= c.cursor
  }

  /** Exactly such a round takes the cursor back and puts the next sweep off; no other moves it down. */
  lemma RoundResetsIff(c: Consumer, r: Round)
    requires Sweeping(c) && Ascending(r.pending)
    ensures var c' := AfterRound(c, r);
      && (c'.nextSweep != c.nextSweep <==> Exhausted(c, r))
      && (c'.cursor < c.cursor <==> Exhausted(c, r) && c.cursor > 0)
      && (Exhausted(c, r) ==> c'.cursor == 0 && c'.swept == [] && c'.nextSweep == r.now + 5000)
  {
    BatchEmptyIff(r.pending, c.cursor);
    if Continues(c, r) { RoundSweeps(c, r, 0); }
    BatchFacts(r.pending, c.cursor);
    var b := Batch(r.pending, c.cursor);
    VisitAllSweeps(c, b, r.outcomes, |b|);
  }

  // ------------------------------------------------------------ the other answer

  /** A broker that answers an exhausted read with the stream and no entries never makes the
      consumer reset: nothing at or below the cursor is visited again, however long it stays
      pending. */
  lemma {:induction false} AnEmptyStreamNeverResets(c: Consumer, rounds: seq<Round>)
    requires Sweeping(c) && Ordered(rounds) && forall k :: 0 <= k < |rounds| ==> rounds[k].shape.EmptyStream?
    ensures var c' := Consume(c, rounds);
      && Sweeping(c') && c'.cursor >= c.cursor && c.swept <= c'.swept
      && forall i :: |c.swept| <= i < |c'.swept| ==> c'.swept[i] > c.cursor
  {
    if rounds != [] {
      var init := rounds[..|rounds| - 1];
      AnEmptyStreamNeverResets(c, init);
      var c1, c' := Consume(c, init), Consume(c, rounds);
      RoundSweeps(c1, rounds[|rounds| - 1], 0);
      forall i | |c.swept| <= i < |c'.swept| ensures c'.swept[i] > c.cursor {
        if i < |c1.swept| { assert c'.swept[i] == c1.swept[i]; }
      }
    }
  }

  // ------------------------------------------------------------ the consumer as an object

  class QueueConsumer {
    var cursor: nat
    var nextSweep: int
    var swept: seq<nat>
    var log: seq<Act>

    ghost function Now(): Consumer
      reads this
    {
      Consumer(cursor, nextSweep, swept, log)
    }

    constructor ()
      ensures Now() == Consumer(0, 0, [], [])
    {
      cursor, nextSweep, swept, log := 0, 0, [], [];
    }

    method HandleMessage(e: Entry, o: Outcome)
      modifies this`log
      ensures log == Handle(old(log), e, o)
    {
      log := log + [Admitted(e.id, o.started)];
      if !o.started { return; }
      log := log + [Acked(e.id, o.ackFails)];
    }

    method AckStalePending(e: Entry, o: Outcome)
      modifies this`log
      ensures log == AckStale(old(log), e, o)
    {
      log := log + [FoundEmpty(e.id)];
      log := log + [Acked(e.id, o.ackFails)];
    }

    method ConsumePendingOnce(pending: seq<Entry>, shape: Shape, outcomes: Outcomes, now: int)
      modifies this
      ensures Now() == ConsumePending(old(Now()), pending, shape, outcomes, now)
    {
      if now < nextSweep { return; }
      var entries := Batch(pending, cursor);
      if |entries| == 0 && shape.Nothing? {
        cursor, nextSweep, swept := 0, now + BLOCK_MS, [];
        return;
      }
      var i := 0;
      while i < |entries|
        invariant 0 <= i <= |entries| && Now() == VisitAll(old(Now()), entries, outcomes, i)
      {
        var e := entries[i];
        cursor, swept := e.id, swept + [e.id];
        if e.empty { AckStalePending(e, outcomes(i)); } else { HandleMessage(e, outcomes(i)); }
        i := i + 1;
      }
    }

    method ConsumeOnce(r: Round)
      modifies this
      ensures Now() == AfterRound(old(Now()), r)
    {
      ConsumePendingOnce(r.pending, r.shape, r.outcomes, r.now);
      ghost var before := Now();
      var i := 0;
      while i < |r.arrived|
        invariant 0 <= i <= |r.arrived|
        invariant Now() == before.(log := HandleNew(before.log, r.arrived, r.arrivedOutcomes, i))
      {
        HandleMessage(r.arrived[i], r.arrivedOutcomes(i));
        i := i + 1;
      }
    }
  }
}
