/** What a settled invocation reports as its result: the texts of the period's last step, one for
    each ordinal, in the order of the ordinals. */
module OpencodeTexts {
  import opened Options
  import opened OpencodeModel
  import opened OpencodePeriods
  import opened OpencodeUsage

  ghost predicate Sorted(texts: seq<Text>) {
    forall i, j :: 0 <= i < j < |texts| ==> texts[i].ordinal < texts[j].ordinal
  }

  /** The text under an ordinal. */
  function Under(texts: seq<Text>, ordinal: int): Option<string> {
    if texts == [] then None
    else if texts[0].ordinal == ordinal then Some(texts[0].text)
    else Under(texts[1..], ordinal)
  }

  ghost predicate Above(texts: seq<Text>, bound: int) {
    forall i :: 0 <= i < |texts| ==> bound < texts[i].ordinal
  }

  lemma SortedCons(t: Text, texts: seq<Text>)
    requires Sorted(texts) && Above(texts, t.ordinal)
    ensures Sorted([t] + texts)
  {
  }

  lemma SortedTail(texts: seq<Text>)
    requires Sorted(texts) && texts != []
    ensures Sorted(texts[1..]) && Above(texts[1..], texts[0].ordinal)
  {
  }

  lemma {:induction false} PutTextSorted(texts: seq<Text>, t: Text, bound: int)
    requires Sorted(texts) && Above(texts, bound) && bound < t.ordinal
    ensures Sorted(PutText(texts, t)) && Above(PutText(texts, t), bound)
  {
    if texts != [] {
      SortedTail(texts);
      if t.ordinal < texts[0].ordinal {
        SortedCons(t, texts);
      } else if t.ordinal == texts[0].ordinal {
        SortedCons(t, texts[1..]);
      } else {
        PutTextSorted(texts[1..], t, texts[0].ordinal);
        SortedCons(texts[0], PutText(texts[1..], t));
      }
    }
  }

  lemma {:induction false} PutTextUnder(texts: seq<Text>, t: Text, ordinal: int)
    requires Sorted(texts)
    ensures Under(PutText(texts, t), ordinal) == if ordinal == t.ordinal then Some(t.text) else Under(texts, ordinal)
  {
    if texts != [] {
      SortedTail(texts);
      if t.ordinal < texts[0].ordinal {
        assert ([t] + texts)[1..] == texts;
      } else if t.ordinal == texts[0].ordinal {
        assert ([t] + texts[1..])[1..] == texts[1..];
      } else {
        PutTextUnder(texts[1..], t, ordinal);
        assert ([texts[0]] + PutText(texts[1..], t))[1..] == PutText(texts[1..], t);
      }
    }
  }

  /** Keeping the texts sorted is keeping a dictionary: a later text under the same ordinal replaces
      the earlier one and leaves the others alone. */
  lemma PutTextIsUpdate(texts: seq<Text>, t: Text, ordinal: int)
    requires Sorted(texts)
    ensures Sorted(PutText(texts, t))
    ensures Under(PutText(texts, t), ordinal) == if ordinal == t.ordinal then Some(t.text) else Under(texts, ordinal)
  {
    var bound := if texts == [] || t.ordinal < texts[0].ordinal then t.ordinal - 1 else texts[0].ordinal - 1;
    PutTextSorted(texts, t, bound);
    PutTextUnder(texts, t, ordinal);
  }

  /** A closed period's result is what its texts spell in order; it has none if it had no text. */
  predicate ResultOfTexts(p: Period) {
    p.end.Some? ==> p.result == if p.texts == [] then None else Some(Joined(p.texts))
  }

  ghost predicate TextInv(p: Period) {
    Sorted(p.texts) && ResultOfTexts(p) && (p.end.None? ==> p.result.None?)
  }

  lemma OnOpenKeepsTexts(p: Period, k: Kind, d: Data)
    requires TextInv(p) && p.end.None?
    ensures TextInv(OnOpen(p, k, d)) && OnOpen(p, k, d).end.None?
  {
    if k.TextEnded? && d.ordinal.Some? && d.text.Some? {
      PutTextIsUpdate(p.texts, Text(d.ordinal.value, d.text.value), 0);
    }
  }

  lemma DurableKeepsTexts(busy: seq<Period>, sid: string, k: Kind, d: Data, at: int)
    requires forall i :: 0 <= i < |busy| ==> TextInv(busy[i])
    ensures forall i :: 0 <= i < |ApplyDurable(busy, sid, k, d, at)| ==> TextInv(ApplyDurable(busy, sid, k, d, at)[i])
  {
    var top := TopOpen(busy);
    if !k.ExecutionStarted? && top.Some? { OnOpenKeepsTexts(busy[top.value], k, d); }
  }

  lemma {:induction false} TextsOfTheLog(sid: string, acc: seq<Event>)
    requires AllDurable(acc)
    ensures forall i :: 0 <= i < |BusyOf(sid, acc)| ==> TextInv(BusyOf(sid, acc)[i])
  {
    if acc != [] {
      var n := |acc| - 1;
      TextsOfTheLog(sid, acc[..n]);
      DurableKeepsTexts(BusyOf(sid, acc[..n]), sid, acc[n].kind, acc[n].data, acc[n].durable.value.seq_);
    }
  }

  /** Over every stream: an invocation settled by a period reports the texts of that period's last
      step, each ordinal's latest text once, in increasing order. */
  lemma ResultsSpellTheLastStep(sid: string, ops: seq<Op>, i: nat)
    ensures var s := Run(Fresh(sid), ops);
      i < |s.invs| && s.invs[i].period.Some? ==>
        && s.invs[i].period.value < |s.busy|
        && var p := s.busy[s.invs[i].period.value];
           Sorted(p.texts) && s.invs[i].result == if p.texts == [] then None else Some(Joined(p.texts))
  {
    var s := Run(Fresh(sid), ops);
    RunKeeps(sid, ops);
    BusyFollowsTheLog(sid, ops);
    TextsOfTheLog(sid, Durables(s.log));
    if i < |s.invs| && s.invs[i].period.Some? {
      assert SettlementInv(s.busy, s.invs[i]);
      var p := s.invs[i].period.value;
      assert Unmarked(s.busy[p]) == Unmarked(BusyOf(sid, Durables(s.log))[p]);
    }
  }
}
