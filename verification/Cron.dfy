/** The cron scheduler: one loop that merges the tick streams of all cron channels. */
module Cron {
  import opened Options

  /** The ticks of one channel, the first one at 0. */
  type Schedule = nat -> int

  /** One tick handed to the harness: the channel's position and the scheduled time. */
  datatype Fired = Fired(channel: nat, tick: int)

  ghost predicate Increasing(s: Schedule) {
    forall j: nat, k: nat :: j < k ==> s(j) < s(k)
  }

  /** Earlier, or at the same time from an earlier slot. */
  predicate Before(a: Fired, b: Fired) {
    a.tick < b.tick || (a.tick == b.tick && a.channel < b.channel)
  }

  ghost predicate InOrder(fired: seq<Fired>) {
    forall i, j :: 0 <= i < j < |fired| ==> Before(fired[i], fired[j])
  }

  /** The channel's `k`-th tick. */
  function TickOf(schedules: seq<Schedule>, c: nat, k: nat): Fired
    requires c < |schedules|
  {
    Fired(c, schedules[c](k))
  }

  /** None skipped: every channel fired its first `counts[c]` ticks. */
  ghost predicate Complete(schedules: seq<Schedule>, counts: seq<nat>, fired: seq<Fired>)
    requires |counts| == |schedules|
  {
    forall c: nat, k: nat :: c < |counts| && k < counts[c] ==> TickOf(schedules, c, k) in fired
  }

  ghost predicate IsTaken(schedules: seq<Schedule>, counts: seq<nat>, f: Fired)
    requires |counts| == |schedules|
  {
    f.channel < |counts| && exists k: nat :: k < counts[f.channel] && f == TickOf(schedules, f.channel, k)
  }

  /** And nothing else. */
  ghost predicate Sound(schedules: seq<Schedule>, counts: seq<nat>, fired: seq<Fired>)
    requires |counts| == |schedules|
  {
    forall i :: 0 <= i < |fired| ==> IsTaken(schedules, counts, fired[i])
  }

  /** Every fired tick is earlier than every tick still to come. */
  ghost predicate Ahead(schedules: seq<Schedule>, counts: seq<nat>, fired: seq<Fired>)
    requires |counts| == |schedules|
  {
    forall i, c: nat :: 0 <= i < |fired| && c < |counts| ==> fired[i].tick < TickOf(schedules, c, counts[c]).tick
  }

  /** Every channel fired exactly its first `counts[c]` ticks, the whole is in order (so none fired
      twice), and every fired tick is earlier than every tick still to come. */
  ghost predicate Merged(schedules: seq<Schedule>, counts: seq<nat>, fired: seq<Fired>) {
    && |counts| == |schedules| && InOrder(fired)
    && Complete(schedules, counts, fired) && Sound(schedules, counts, fired) && Ahead(schedules, counts, fired)
  }

  /** A channel's slot: how many ticks were taken from its schedule, and the one it waits for. */
  datatype Slot = Slot(taken: nat, next: int)

  class CronScheduler {
    const schedules: seq<Schedule>
    var slots: seq<Slot>
    var fired: seq<Fired>

    ghost predicate Ready()
      reads this
    {
      && (forall c :: 0 <= c < |schedules| ==> Increasing(schedules[c]))
      && |slots| == |schedules|
      && (forall c :: 0 <= c < |slots| ==> slots[c].next == schedules[c](slots[c].taken))
    }

    ghost function Counts(): (r: seq<nat>)
      reads this
      ensures |r| == |slots| && forall c :: 0 <= c < |r| ==> r[c] == slots[c].taken
    {
      seq(|slots|, c requires 0 <= c < |slots| reads this => slots[c].taken)
    }

    ghost predicate Valid()
      reads this
    {
      Ready() && Merged(schedules, Counts(), fired)
    }

    /** Every slot starts with its schedule's first tick. */
    constructor (schedules: seq<Schedule>)
      requires forall c :: 0 <= c < |schedules| ==> Increasing(schedules[c])
      ensures Valid() && this.schedules == schedules && fired == []
    {
      this.schedules := schedules;
      slots := seq(|schedules|, c requires 0 <= c < |schedules| => Slot(0, schedules[c](0)));
      fired := [];
    }

    method Earliest() returns (earliest: int)
      requires |slots| > 0
      ensures forall c :: 0 <= c < |slots| ==> earliest <= slots[c].next
      ensures exists c :: 0 <= c < |slots| && slots[c].next == earliest
    {
      earliest := slots[0].next;
      var i := 1;
      while i < |slots|
        invariant 1 <= i <= |slots|
        invariant forall c :: 0 <= c < i ==> earliest <= slots[c].next
        invariant exists c :: 0 <= c < i && slots[c].next == earliest
      {
        if slots[i].next < earliest { earliest := slots[i].next; }
        i := i + 1;
      }
    }

    /** One turn of the loop: the due channels fire and advance, the others keep their tick. */
    method Turn()
      requires Valid() && |slots| > 0
      modifies this
      ensures Valid() && |fired| > |old(fired)| && old(fired) <= fired
    {
      var earliest := Earliest();
      ghost var before, due := Counts(), DueOf(schedules, Counts(), |slots|, earliest);
      ghost var c :| 0 <= c < |slots| && slots[c].next == earliest;
      DueAtEarliest(schedules, before, earliest, c);
      var updated := FireDue(earliest, before);
      slots := updated;
      AdvancedTurn(schedules, before, updated, Counts(), earliest);
      TurnMerges(schedules, before, Counts(), old(fired), due, earliest);
    }

    method FireDue(earliest: int, ghost before: seq<nat>) returns (updated: seq<Slot>)
      requires Ready() && before == Counts()
      modifies this`fired
      ensures fired == old(fired) + DueOf(schedules, before, |before|, earliest)
      ensures |updated| == |slots|
      ensures forall c :: 0 <= c < |slots| ==> updated[c] == Advanced(schedules, before, c, earliest)
    {
      updated := [];
      var i := 0;
      while i < |slots|
        invariant 0 <= i <= |slots| && |updated| == i && fired == old(fired) + DueOf(schedules, before, i, earliest)
        invariant forall c :: 0 <= c < i ==> updated[c] == Advanced(schedules, before, c, earliest)
      {
        var slot := slots[i];
        assert slot == Slot(before[i], schedules[i](before[i]));
        if slot.next <= earliest {
          fired := fired + [Fired(i, slot.next)];
          slot := Slot(slot.taken + 1, schedules[i](slot.taken + 1));
        }
        updated := updated + [slot];
        i := i + 1;
      }
    }

    /** Any number of turns, whatever the clock does in between. */
    method Run(turns: nat)
      requires Valid()
      modifies this
      ensures Valid() && old(fired) <= fired
      ensures |schedules| > 0 ==> |fired| >= |old(fired)| + turns
    {
      if |slots| == 0 { return; }
      var i := 0;
      while i < turns
        invariant 0 <= i <= turns && Valid() && old(fired) <= fired && |fired| >= |old(fired)| + i
      {
        Turn();
        i := i + 1;
      }
    }
  }

  /** A slot after a turn: a due channel takes its next tick. */
  function Advanced(schedules: seq<Schedule>, counts: seq<nat>, c: nat, earliest: int): Slot
    requires c < |counts| == |schedules|
  {
    var taken := counts[c] + if TickOf(schedules, c, counts[c]).tick <= earliest then 1 else 0;
    Slot(taken, schedules[c](taken))
  }

  /** The ticks of the first `n` channels that are due at `earliest`, in the order of the slots. */
  function DueOf(schedules: seq<Schedule>, counts: seq<nat>, n: nat, earliest: int): seq<Fired>
    requires n <= |counts| == |schedules|
  {
    if n == 0 then []
    else
      var f := TickOf(schedules, n - 1, counts[n - 1]);
      var due := DueOf(schedules, counts, n - 1, earliest);
      if f.tick <= earliest then due + [f] else due
  }

  lemma {:induction false} DueOfIsDue(schedules: seq<Schedule>, counts: seq<nat>, n: nat, earliest: int)
    requires n <= |counts| == |schedules|
    requires forall c: nat :: c < |counts| ==> earliest <= TickOf(schedules, c, counts[c]).tick
    ensures AreDue(schedules, counts, n, earliest, DueOf(schedules, counts, n, earliest))
  {
    if n > 0 {
      DueOfIsDue(schedules, counts, n - 1, earliest);
      OneMoreDue(schedules, counts, n - 1, earliest, DueOf(schedules, counts, n - 1, earliest));
    }
  }

  lemma DueAtEarliest(schedules: seq<Schedule>, counts: seq<nat>, earliest: int, c: nat)
    requires c < |counts| == |schedules| && TickOf(schedules, c, counts[c]).tick == earliest
    requires forall c: nat :: c < |counts| ==> earliest <= TickOf(schedules, c, counts[c]).tick
    ensures AreDue(schedules, counts, |counts|, earliest, DueOf(schedules, counts, |counts|, earliest))
    ensures DueOf(schedules, counts, |counts|, earliest) != []
  {
    DueOfIsDue(schedules, counts, |counts|, earliest);
    assert TickOf(schedules, c, counts[c]) in DueOf(schedules, counts, |counts|, earliest);
  }

  predicate IsDue(schedules: seq<Schedule>, counts: seq<nat>, n: nat, earliest: int, f: Fired)
    requires n <= |counts| == |schedules|
  {
    f.channel < n && f == TickOf(schedules, f.channel, counts[f.channel]) && f.tick == earliest
  }

  /** Each of them once, in the order of the slots, and all that are due. */
  ghost predicate AreDue(schedules: seq<Schedule>, counts: seq<nat>, n: nat, earliest: int, due: seq<Fired>)
    requires n <= |counts| == |schedules|
  {
    && (forall i :: 0 <= i < |due| ==> IsDue(schedules, counts, n, earliest, due[i]))
    && (forall i, j :: 0 <= i < j < |due| ==> due[i].channel < due[j].channel)
    && NoneMissed(schedules, counts, n, earliest, due)
  }

  ghost predicate NoneMissed(schedules: seq<Schedule>, counts: seq<nat>, n: nat, earliest: int, due: seq<Fired>)
    requires n <= |counts| == |schedules|
  {
    forall c: nat :: c < n && TickOf(schedules, c, counts[c]).tick <= earliest ==>
        TickOf(schedules, c, counts[c]) in due
  }

  lemma OneMoreDue(schedules: seq<Schedule>, counts: seq<nat>, n: nat, earliest: int, due: seq<Fired>)
    requires n < |counts| == |schedules| && AreDue(schedules, counts, n, earliest, due)
    requires earliest <= TickOf(schedules, n, counts[n]).tick
    ensures var f := TickOf(schedules, n, counts[n]);
      AreDue(schedules, counts, n + 1, earliest, if f.tick <= earliest then due + [f] else due)
  {
    var f := TickOf(schedules, n, counts[n]);
    if f.tick <= earliest { OneIsDue(schedules, counts, n, earliest, due, f); }
    OneNotMissed(schedules, counts, n, earliest, due, f);
  }

  lemma OneIsDue(schedules: seq<Schedule>, counts: seq<nat>, n: nat, earliest: int, due: seq<Fired>, f: Fired)
    requires n < |counts| == |schedules| && AreDue(schedules, counts, n, earliest, due)
    requires f == TickOf(schedules, n, counts[n]) && f.tick == earliest
    ensures var due' := due + [f];
      && (forall i :: 0 <= i < |due'| ==> IsDue(schedules, counts, n + 1, earliest, due'[i]))
      && (forall i, j :: 0 <= i < j < |due'| ==> due'[i].channel < due'[j].channel)
  {
    forall i | 0 <= i < |due| ensures IsDue(schedules, counts, n + 1, earliest, due[i]) && due[i].channel < n {
      assert IsDue(schedules, counts, n, earliest, due[i]);
    }
  }

  lemma OneNotMissed(schedules: seq<Schedule>, counts: seq<nat>, n: nat, earliest: int, due: seq<Fired>, f: Fired)
    requires n < |counts| == |schedules| && NoneMissed(schedules, counts, n, earliest, due)
    requires f == TickOf(schedules, n, counts[n])
    ensures NoneMissed(schedules, counts, n + 1, earliest, if f.tick <= earliest then due + [f] else due)
  {
    var due' := if f.tick <= earliest then due + [f] else due;
    forall c: nat | c < n + 1 && TickOf(schedules, c, counts[c]).tick <= earliest
      ensures TickOf(schedules, c, counts[c]) in due' {
      if c < n { assert TickOf(schedules, c, counts[c]) in due; } else { assert due'[|due|] == f; }
    }
  }

  /** A turn keeps the merge: what is due comes after everything fired before, and before
      everything that is left. */
  lemma TurnMerges(schedules: seq<Schedule>, counts: seq<nat>, counts': seq<nat>, fired: seq<Fired>, due: seq<Fired>,
                   earliest: int)
    requires Merged(schedules, counts, fired) && AreDue(schedules, counts, |counts|, earliest, due) && due != []
    requires forall c :: 0 <= c < |schedules| ==> Increasing(schedules[c])
    requires forall c: nat :: c < |counts| ==> earliest <= TickOf(schedules, c, counts[c]).tick
    requires Turned(schedules, counts, counts', earliest)
    ensures Merged(schedules, counts', fired + due)
  {
    DueIsLater(schedules, counts, fired, due, earliest);
    TurnComplete(schedules, counts, counts', fired, due, earliest);
    TurnSound(schedules, counts, counts', fired, due, earliest);
    TurnAhead(schedules, counts, counts', fired, due, earliest);
  }

  lemma DueIsLater(schedules: seq<Schedule>, counts: seq<nat>, fired: seq<Fired>, due: seq<Fired>, earliest: int)
    requires Merged(schedules, counts, fired) && AreDue(schedules, counts, |counts|, earliest, due)
    ensures InOrder(fired + due)
  {
    var all := fired + due;
    forall i, j | 0 <= i < j < |all| ensures Before(all[i], all[j]) {
      if j >= |fired| {
        var d := due[j - |fired|];
        assert IsDue(schedules, counts, |counts|, earliest, d);
        if i < |fired| {
          assert fired[i].tick < TickOf(schedules, d.channel, counts[d.channel]).tick;
        } else {
          assert IsDue(schedules, counts, |counts|, earliest, due[i - |fired|]);
        }
      }
    }
  }

  ghost predicate Turned(schedules: seq<Schedule>, counts: seq<nat>, counts': seq<nat>, earliest: int)
    requires |counts| == |schedules|
  {
    && |counts'| == |counts|
    && forall c :: 0 <= c < |counts| ==>
         counts'[c] == counts[c] + if TickOf(schedules, c, counts[c]).tick <= earliest then 1 else 0
  }

  lemma AdvancedTurn(schedules: seq<Schedule>, counts: seq<nat>, slots: seq<Slot>, counts': seq<nat>, earliest: int)
    requires |counts| == |schedules| == |slots| == |counts'|
    requires forall c :: 0 <= c < |slots| ==> slots[c] == Advanced(schedules, counts, c, earliest)
    requires forall c :: 0 <= c < |slots| ==> counts'[c] == slots[c].taken
    ensures Turned(schedules, counts, counts', earliest)
    ensures forall c :: 0 <= c < |slots| ==> slots[c].next == schedules[c](slots[c].taken)
  {
  }

  lemma TurnComplete(schedules: seq<Schedule>, counts: seq<nat>, counts': seq<nat>, fired: seq<Fired>,
                     due: seq<Fired>, earliest: int)
    requires |counts| == |schedules| && Complete(schedules, counts, fired)
    requires Turned(schedules, counts, counts', earliest)
    requires AreDue(schedules, counts, |counts|, earliest, due)
    ensures Complete(schedules, counts', fired + due)
  {
    forall c: nat, k: nat | c < |counts'| && k < counts'[c] ensures TickOf(schedules, c, k) in fired + due {
      if k < counts[c] { assert TickOf(schedules, c, k) in fired; } else { assert TickOf(schedules, c, k) in due; }
    }
  }

  lemma TurnSound(schedules: seq<Schedule>, counts: seq<nat>, counts': seq<nat>, fired: seq<Fired>, due: seq<Fired>,
                  earliest: int)
    requires |counts| == |schedules| && Sound(schedules, counts, fired) && Turned(schedules, counts, counts', earliest)
    requires AreDue(schedules, counts, |counts|, earliest, due)
    ensures Sound(schedules, counts', fired + due)
  {
    var all := fired + due;
    forall i | 0 <= i < |all| ensures IsTaken(schedules, counts', all[i]) {
      var f := all[i];
      if i < |fired| {
        assert IsTaken(schedules, counts, fired[i]);
        var k: nat :| k < counts[f.channel] && f == TickOf(schedules, f.channel, k);
        assert k < counts'[f.channel];
      } else {
        assert IsDue(schedules, counts, |counts|, earliest, due[i - |fired|]);
        assert f == TickOf(schedules, f.channel, counts[f.channel]) && counts[f.channel] < counts'[f.channel];
      }
    }
  }

  lemma TurnAhead(schedules: seq<Schedule>, counts: seq<nat>, counts': seq<nat>, fired: seq<Fired>, due: seq<Fired>,
                  earliest: int)
    requires |counts| == |schedules| && Ahead(schedules, counts, fired) && Turned(schedules, counts, counts', earliest)
    requires AreDue(schedules, counts, |counts|, earliest, due) && due != []
    requires forall c :: 0 <= c < |schedules| ==> Increasing(schedules[c])
    requires forall c: nat :: c < |counts| ==> earliest <= TickOf(schedules, c, counts[c]).tick
    ensures Ahead(schedules, counts', fired + due)
  {
    var all := fired + due;
    forall i, c: nat | 0 <= i < |all| && c < |counts'| ensures all[i].tick < TickOf(schedules, c, counts'[c]).tick {
      NextIsLater(schedules, counts, counts', earliest, c);
      if i >= |fired| { assert IsDue(schedules, counts, |counts|, earliest, due[i - |fired|]); }
    }
  }

  lemma NextIsLater(schedules: seq<Schedule>, counts: seq<nat>, counts': seq<nat>, earliest: int, c: nat)
    requires |counts| == |schedules| && Turned(schedules, counts, counts', earliest) && c < |counts|
    requires Increasing(schedules[c]) && earliest <= TickOf(schedules, c, counts[c]).tick
    ensures TickOf(schedules, c, counts[c]).tick <= TickOf(schedules, c, counts'[c]).tick
    ensures earliest < TickOf(schedules, c, counts'[c]).tick
  {
  }

  lemma StaysLater(s: Schedule, j: nat, k: nat)
    requires Increasing(s) && j <= k
    ensures s(j) <= s(k)
  {
  }

  /** What a merge means for any two moments: a tick fired before every tick that fires later, and
      everything up to the last fired time has fired. */
  lemma MergedUpTo(schedules: seq<Schedule>, counts: seq<nat>, fired: seq<Fired>, i: nat, c: nat, k: nat)
    requires Merged(schedules, counts, fired) && i < |fired| && c < |counts| && Increasing(schedules[c])
    requires schedules[c](k) <= fired[i].tick
    ensures k < counts[c] && TickOf(schedules, c, k) in fired
  {
    assert fired[i].tick < TickOf(schedules, c, counts[c]).tick;
    if k >= counts[c] {
      StaysLater(schedules[c], counts[c], k);
      assert false;
    }
  }

  /** No tick fires twice. */
  lemma FiredOnce(fired: seq<Fired>, i: nat, j: nat)
    requires InOrder(fired) && i < j < |fired|
    ensures fired[i] != fired[j] && fired[i].tick <= fired[j].tick
  {
    assert Before(fired[i], fired[j]);
  }
}
