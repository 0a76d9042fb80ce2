/** What an agent prints as its reply is what the channel extracts from its text. */
module A2ARoundTrip {
  import opened Options
  import opened Json
  import opened A2AScan
  import opened A2ATerminal
  import opened A2ASearch

  // ------------------------------------------------------------ where no object opens with an action

  /** No opener begins in `p` when `c` follows it. */
  ghost predicate Shut(p: string, c: string) {
    forall i :: 0 <= i < |p| ==> !Opens(p + c, i)
  }

  lemma SaysShift(p: string, s: string, j: int)
    requires j >= 0
    ensures SaysAction(p + s, |p| + j) <==> SaysAction(s, j)
  {
  }

  /** What comes before a position does not matter to it. */
  lemma OpensShift(p: string, s: string, i: int)
    requires i >= 0
    ensures Opens(p + s, |p| + i) <==> Opens(s, i)
  {
    var t := p + s;
    assert forall k :: 0 <= k < |s| ==> t[|p| + k] == s[k];
    if Opens(s, i) {
      var j :| i < j < |s| && SaysAction(s, j) && Blank(s, i + 1, j);
      SaysShift(p, s, j);
      assert Blank(t, |p| + i + 1, |p| + j) by {
        forall k | |p| + i + 1 <= k < |p| + j ensures 0 <= k < |t| && IsSpace(t[k]) { assert t[k] == s[k - |p|]; }
      }
    }
    if Opens(t, |p| + i) {
      var j :| |p| + i < j < |t| && SaysAction(t, j) && Blank(t, |p| + i + 1, j);
      SaysShift(p, s, j - |p|);
      assert Blank(s, i + 1, j - |p|) by {
        forall k | i + 1 <= k < j - |p| ensures 0 <= k < |s| && IsSpace(s[k]) { assert s[k] == t[|p| + k]; }
      }
    }
  }

  lemma ShutJoin(p: string, q: string, c: string)
    requires Shut(p, q + c) && Shut(q, c)
    ensures Shut(p + q, c)
  {
    assert (p + q) + c == p + (q + c);
    forall i | 0 <= i < |p + q| ensures !Opens((p + q) + c, i) {
      if i >= |p| { OpensShift(p, q + c, i - |p|); }
    }
  }

  lemma ShutWithoutBrace(p: string, c: string)
    requires forall i :: 0 <= i < |p| ==> p[i] != '{'
    ensures Shut(p, c)
  {
  }

  lemma GapShut(p: string, c: string)
    requires IsGap(p)
    ensures Shut(p, c)
  {
    assert forall i :: 0 <= i < |p| ==> p[i] in p;
  }

  /** What may follow a string: its closing quote never begins the word action. */
  predicate NotA(c: string) {
    c == [] || c[0] != 'a'
  }

  lemma GapNotA(gap: string, c: string)
    requires IsGap(gap) && NotA(c)
    ensures NotA(gap + c)
  {
    if gap != [] { assert (gap + c)[0] in gap; }
  }

  lemma CodeHasNoQuote(h: string, k: nat)
    requires (forall c <- h :: IsHex(c)) && k < |ShowCh(Code(h))|
    ensures ShowCh(Code(h))[k] != '"'
  {
    if k >= 2 { assert ShowCh(Code(h))[k] == h[k - 2] && h[k - 2] in h; }
  }

  lemma QuoteInCh(ch: Ch, k: nat)
    requires ValidCh(ch) && k < |ShowCh(ch)| && ShowCh(ch)[k] == '"'
    ensures k == 1 && ShowCh(ch)[0] == '\\'
  {
    if ch.Code? { CodeHasNoQuote(ch.h, k); }
  }

  lemma {:induction false} QuotesAreEscaped(items: seq<Ch>, k: nat)
    requires ValidItems(items) && k < |ShowItems(items)| && ShowItems(items)[k] == '"'
    ensures k > 0 && ShowItems(items)[k - 1] == '\\'
  {
    var first := ShowCh(items[0]);
    assert ValidCh(items[0]);
    if k >= |first| {
      assert ShowItems(items)[k] == ShowItems(items[1..])[k - |first|];
      assert ValidItems(items[1..]) by { assert forall ch :: ch in items[1..] ==> ch in items; }
      QuotesAreEscaped(items[1..], k - |first|);
    } else {
      QuoteInCh(items[0], k);
    }
  }

  /** A brace inside a printed string, blanks, a quote: the quote is the closing one. */
  lemma QuoteCloses(items: seq<Ch>, c: string, i: nat, q: nat)
    requires ValidItems(items) && i < q < |ShowString(items) + c|
    requires var t := ShowString(items) + c;
      t[i] == '{' && t[q] == '"' && forall k :: i < k < q ==> IsSpace(t[k])
    requires i < |ShowString(items)|
    ensures q == |ShowString(items)| - 1
  {
    var t, last := ShowString(items) + c, |ShowString(items)| - 1;
    assert t[last] == '"';
    if q < last {
      assert t[q] == ShowItems(items)[q - 1];
      assert q >= 2 ==> t[q - 1] == ShowItems(items)[q - 2];
      QuotesAreEscaped(items, q - 1);
      assert false;
    }
  }

  lemma StringShut(items: seq<Ch>, c: string)
    requires ValidItems(items) && NotA(c)
    ensures Shut(ShowString(items), c)
  {
    var t, n := ShowString(items) + c, |ShowString(items)|;
    assert |c| > 0 ==> t[n] == c[0];
    forall i | 0 <= i < n ensures !Opens(t, i) {
      if Opens(t, i) {
        var j :| i < j < |t| && SaysAction(t, j) && Blank(t, i + 1, j);
        QuoteCloses(items, c, i, j);
        assert false;
      }
    }
  }

  // ------------------------------------------------------------ openers in printed values

  predicate FirstIsAction(ms: Members) {
    ShowItems(ms.key) == "action"
  }

  /** No object in the value, itself included, begins with its action. */
  predicate Plainly(d: Doc) {
    match d
    case Arr(es) => PlainElems(es)
    case Obj(ms) => !FirstIsAction(ms) && PlainMembers(ms)
    case _ => true
  }

  predicate PlainElems(es: Elems) {
    Plainly(es.value) && (es.rest.Some? ==> PlainElems(es.rest.value))
  }

  predicate PlainMembers(ms: Members) {
    Plainly(ms.value) && (ms.rest.Some? ==> PlainMembers(ms.rest.value))
  }

  /** The key that a quoted text begins with is decided by its first quote. */
  lemma KeyIsAction(items: seq<Ch>, c: string)
    requires ValidItems(items)
    ensures SaysAction(ShowString(items) + c, 0) <==> ShowItems(items) == "action"
  {
    var t, shown := ShowString(items) + c, ShowItems(items);
    assert t[|shown| + 1] == '"' && forall k :: 0 <= k < |shown| ==> t[k + 1] == shown[k];
    if SaysAction(t, 0) {
      assert |shown| >= 6;
      if |shown| > 6 {
        assert shown[6] == t[7] && shown[5] == t[6];
        QuotesAreEscaped(items, 6);
        assert false;
      }
      assert shown == ['a', 'c', 't', 'i', 'o', 'n'];
    }
  }

  /** After a brace and whitespace, a quote decides. */
  lemma QuoteDecides(gap: string, rest: string)
    requires IsGap(gap) && rest != [] && !IsSpace(rest[0])
    ensures Opens("{" + (gap + rest), 0) <==> SaysAction(rest, 0)
  {
    var t, q := "{" + (gap + rest), 1 + |gap|;
    assert t == ("{" + gap) + rest;
    SaysShift("{" + gap, rest, 0);
    assert t[q] == rest[0];
    assert Blank(t, 1, q) by {
      forall k | 1 <= k < q ensures IsSpace(t[k]) { assert t[k] == gap[k - 1] && gap[k - 1] in gap; }
    }
    if Opens(t, 0) {
      var j :| 0 < j < |t| && SaysAction(t, j) && Blank(t, 1, j);
      assert t[j] == '"' && !IsSpace(t[j]);
      assert j == q;
    }
  }

  lemma OpensAfterGap(gap: string, key: seq<Ch>, c: string)
    requires IsGap(gap) && ValidItems(key)
    ensures Opens("{" + (gap + (ShowString(key) + c)), 0) <==> ShowItems(key) == "action"
  {
    QuoteDecides(gap, ShowString(key) + c);
    KeyIsAction(key, c);
  }

  /** An object opens with its action exactly when its first key is that word. */
  lemma ObjectOpens(ms: Members, c: string)
    requires ValidMembers(ms)
    ensures Opens("{" + (ShowMembers(ms) + c), 0) <==> FirstIsAction(ms)
  {
    var after := AfterKey(ms);
    OpensAfterGap(ms.before, ms.key, after + c);
    Reassociate(ms.before, ShowString(ms.key), after, c);
  }

  function AfterKey(ms: Members): (t: string)
    ensures ShowMembers(ms) == ms.before + (ShowString(ms.key) + t)
  {
    ms.colon + (":" + (ms.gap + (Show(ms.value) + (ms.after
      + if ms.rest.Some? then "," + ShowMembers(ms.rest.value) else ""))))
  }

  lemma Reassociate(p: string, q: string, r: string, c: string)
    ensures (p + (q + r)) + c == p + (q + (r + c))
  {
  }

  lemma FirstShut(p: string, c: string)
    requires |p| == 1 && !Opens(p + c, 0)
    ensures Shut(p, c)
  {
  }

  lemma BraceShut(inner: string, c: string)
    requires !Opens("{" + (inner + ("}" + c)), 0) && Shut(inner, "}" + c)
    ensures Shut("{" + (inner + "}"), c)
  {
    ShutWithoutBrace("}", c);
    ShutJoin(inner, "}", c);
    Reassociate("{", inner, "}", c);
    assert (inner + "}") + c == inner + ("}" + c);
    FirstShut("{", (inner + "}") + c);
    ShutJoin("{", inner + "}", c);
  }

  lemma EmptyShut(gap: string, c: string)
    requires IsGap(gap)
    ensures Shut("{" + (gap + "}"), c)
  {
    GapShut(gap, "}" + c);
    QuoteDecides(gap, "}" + c);
    BraceShut(gap, c);
  }

  lemma BracketShut(inner: string, c: string)
    requires Shut(inner, "]" + c)
    ensures Shut("[" + (inner + "]"), c)
  {
    ShutWithoutBrace("]", c);
    ShutJoin(inner, "]", c);
    ShutWithoutBrace("[", (inner + "]") + c);
    ShutJoin("[", inner + "]", c);
  }

  lemma WordShut(t: string, c: string)
    requires t == "true" || t == "false" || t == "null"
    ensures Shut(t, c)
  {
    ShutWithoutBrace(t, c);
  }

  lemma NumberShut(n: Number, c: string)
    requires ValidNumber(n)
    ensures Shut(ShowNumber(n), c)
  {
    NumberIsQuiet(n);
    assert forall i :: 0 <= i < |ShowNumber(n)| ==> ShowNumber(n)[i] in ShowNumber(n);
    ShutWithoutBrace(ShowNumber(n), c);
  }

  lemma {:induction false} ValueShut(d: Doc, c: string)
    requires Valid(d) && Plainly(d) && NotA(c)
    ensures Shut(Show(d), c)
    decreases d, 0
  {
    match d
    case Word(t) => WordShut(t, c);
    case Num(n) => NumberShut(n, c);
    case Str(items) => StringShut(items, c);
    case NoElems(gap) => GapShut(gap, "]" + c); BracketShut(gap, c);
    case Arr(es) => ElemsShut(es, "]" + c); BracketShut(ShowElems(es), c);
    case NoMembers(gap) => EmptyShut(gap, c);
    case Obj(ms) =>
      MembersShut(ms, "}" + c);
      ObjectOpens(ms, "}" + c);
      BraceShut(ShowMembers(ms), c);
  }

  lemma {:induction false} ElemsShut(es: Elems, c: string)
    requires ValidElems(es) && PlainElems(es) && NotA(c)
    ensures Shut(ShowElems(es), c)
    decreases es, 0
  {
    var more := if es.rest.Some? then "," + ShowElems(es.rest.value) else "";
    if es.rest.Some? {
      ElemsShut(es.rest.value, c);
      ShutWithoutBrace(",", ShowElems(es.rest.value) + c);
      ShutJoin(",", ShowElems(es.rest.value), c);
    }
    assert NotA(more + c);
    TailShut(es.value, es.after, more, c);
    GapShut(es.before, (Show(es.value) + (es.after + more)) + c);
    ShutJoin(es.before, Show(es.value) + (es.after + more), c);
  }

  /** A value, the whitespace after it, and the rest of its list. */
  lemma {:induction false} TailShut(value: Doc, after: string, more: string, c: string)
    requires Valid(value) && Plainly(value) && IsGap(after) && Shut(more, c) && NotA(more + c)
    ensures Shut(Show(value) + (after + more), c)
    decreases value, 1
  {
    assert (after + more) + c == after + (more + c);
    GapNotA(after, more + c);
    ValueShut(value, (after + more) + c);
    GapShut(after, more + c);
    ShutJoin(after, more, c);
    ShutJoin(Show(value), after + more, c);
  }

  lemma {:induction false} MembersShut(ms: Members, c: string)
    requires ValidMembers(ms) && PlainMembers(ms) && NotA(c)
    ensures Shut(ShowMembers(ms), c)
    decreases ms, 0
  {
    var more := if ms.rest.Some? then "," + ShowMembers(ms.rest.value) else "";
    if ms.rest.Some? {
      MembersShut(ms.rest.value, c);
      ShutWithoutBrace(",", ShowMembers(ms.rest.value) + c);
      ShutJoin(",", ShowMembers(ms.rest.value), c);
    }
    assert NotA(more + c);
    TailShut(ms.value, ms.after, more, c);
    var t1 := ms.gap + (Show(ms.value) + (ms.after + more));
    GapShut(ms.gap, (Show(ms.value) + (ms.after + more)) + c);
    ShutJoin(ms.gap, Show(ms.value) + (ms.after + more), c);
    HeadShut(ms, t1, c);
  }

  /** The key of a member, up to its colon. */
  lemma HeadShut(ms: Members, t: string, c: string)
    requires IsGap(ms.before) && ValidItems(ms.key) && IsGap(ms.colon) && Shut(t, c)
    ensures Shut(ms.before + (ShowString(ms.key) + (ms.colon + (":" + t))), c)
  {
    ShutWithoutBrace(":", t + c);
    ShutJoin(":", t, c);
    GapShut(ms.colon, (":" + t) + c);
    ShutJoin(ms.colon, ":" + t, c);
    assert (ms.colon + (":" + t)) + c == ms.colon + ((":" + t) + c);
    GapNotA(ms.colon, (":" + t) + c);
    StringShut(ms.key, (ms.colon + (":" + t)) + c);
    ShutJoin(ShowString(ms.key), ms.colon + (":" + t), c);
    GapShut(ms.before, (ShowString(ms.key) + (ms.colon + (":" + t))) + c);
    ShutJoin(ms.before, ShowString(ms.key) + (ms.colon + (":" + t)), c);
  }

  // ------------------------------------------------------------ the last opener of a text

  predicate NoOpener(s: string) {
    forall i :: 0 <= i < |s| ==> !Opens(s, i)
  }

  /** A reply: an object that begins with its action and holds no other such object. */
  predicate IsReplyObject(d: Doc) {
    d.Obj? && FirstIsAction(d.members) && PlainMembers(d.members)
  }

  /** A reply opens where it begins and nowhere else, whatever follows. */
  lemma OnlyOpener(d: Doc, tail: string)
    requires Valid(d) && IsReplyObject(d)
    ensures Opens(Show(d) + tail, 0)
    ensures forall i :: 0 < i < |Show(d)| ==> !Opens(Show(d) + tail, i)
  {
    var ms := d.members;
    InnerShut(ms, tail);
    ObjectOpens(ms, "}" + tail);
    BraceTail(ShowMembers(ms), tail);
    ShutInside(ShowMembers(ms) + "}", tail);
  }

  lemma BraceTail(inner: string, tail: string)
    ensures ("{" + (inner + "}")) + tail == "{" + ((inner + "}") + tail) == "{" + (inner + ("}" + tail))
  {
    assert (inner + "}") + tail == inner + ("}" + tail);
  }

  lemma InnerShut(ms: Members, tail: string)
    requires ValidMembers(ms) && PlainMembers(ms)
    ensures Shut(ShowMembers(ms) + "}", tail)
  {
    MembersShut(ms, "}" + tail);
    ShutWithoutBrace("}", tail);
    ShutJoin(ShowMembers(ms), "}", tail);
  }

  lemma ShutInside(inner: string, tail: string)
    requires Shut(inner, tail)
    ensures forall i :: 0 < i <= |inner| ==> !Opens("{" + (inner + tail), i)
  {
    forall i | 0 < i <= |inner| ensures !Opens("{" + (inner + tail), i) { OpensShift("{", inner + tail, i - 1); }
  }

  lemma ReplyAt(dec: Decoder, prose: string, d: Doc, tail: string)
    requires Decodes(dec) && Valid(d) && d.Obj?
    ensures |prose| < |prose + (Show(d) + tail)|
    ensures ObjectAt(dec, prose + (Show(d) + tail), |prose|) == Some(Meaning(dec, d))
  {
    var text, p := prose + (Show(d) + tail), |prose|;
    ScanningUndoesPrinting(d, tail);
    assert text[p..] == Show(d) + tail;
    assert text[p..p + (|Show(d)| - 1) + 1] == Show(d);
  }

  lemma InsideShut(prose: string, shown: string, tail: string, j: nat)
    requires forall i :: 0 < i < |shown| ==> !Opens(shown + tail, i)
    requires |prose| < j < |prose| + |shown|
    ensures !Opens(prose + (shown + tail), j)
  {
    OpensShift(prose, shown + tail, j - |prose|);
  }

  lemma SameInTail(dec: Decoder, prose: string, shown: string, tail: string, j: nat)
    requires |prose| + |shown| <= j < |prose + (shown + tail)|
    ensures HoldsObject(dec, prose + (shown + tail), j) <==> HoldsObject(dec, tail, j - |prose| - |shown|)
  {
    var before, i := prose + shown, j - |prose| - |shown|;
    assert prose + (shown + tail) == before + tail;
    OpensShift(before, tail, i);
    TailObject(dec, before, tail, i);
  }

  /** After the reply only the tail can hold another object. */
  lemma ObjectsAfter(dec: Decoder, prose: string, d: Doc, tail: string, j: nat)
    requires Valid(d) && IsReplyObject(d) && NoObject(dec, tail)
    requires |prose| < j < |prose + (Show(d) + tail)|
    ensures !HoldsObject(dec, prose + (Show(d) + tail), j)
  {
    if j < |prose| + |Show(d)| {
      OnlyOpener(d, tail);
      InsideShut(prose, Show(d), tail, j);
    } else {
      SameInTail(dec, prose, Show(d), tail, j);
    }
  }

  /** What is found in prose, a printed reply and a tail without an object. */
  lemma LastObjectIsTheReply(dec: Decoder, prose: string, d: Doc, tail: string)
    requires Decodes(dec) && Valid(d) && IsReplyObject(d) && NoObject(dec, tail)
    ensures var text := prose + (Show(d) + tail); LastObject(dec, text, Openers(text, 0)) == Some(Meaning(dec, d))
  {
    var text, p := prose + (Show(d) + tail), |prose|;
    OnlyOpener(d, tail);
    OpensShift(prose, Show(d) + tail, 0);
    ReplyAt(dec, prose, d, tail);
    forall j: nat | p < j < |text| ensures !HoldsObject(dec, text, j) { ObjectsAfter(dec, prose, d, tail, j); }
    assert LastIsObject(dec, text, p);
    SearchIff(dec, text, Meaning(dec, d));
  }

  // ------------------------------------------------------------ parts of a text

  /** An opener of a part is one of the text. */
  lemma PartOpens(text: string, from: nat, to: nat, i: nat)
    requires from <= to <= |text| && Opens(text[from..to], i)
    ensures Opens(text, from + i)
  {
    var part := text[from..to];
    var j :| i < j < |part| && SaysAction(part, j) && Blank(part, i + 1, j);
    assert SaysAction(text, from + j);
    assert Blank(text, from + i + 1, from + j) by {
      forall k | from + i + 1 <= k < from + j ensures IsSpace(text[k]) { assert text[k] == part[k - from]; }
    }
  }

  /** A part of a text without objects holds none. */
  lemma PartHasNoObject(dec: Decoder, text: string, to: nat)
    requires to <= |text| && NoObject(dec, text)
    ensures NoObject(dec, text[..to])
  {
    assert text[..to] == text[0..to];
    forall i: nat | i < to ensures !HoldsObject(dec, text[..to], i) {
      if HoldsObject(dec, text[0..to], i) { WholeHolds(dec, text, 0, to, i); }
    }
  }

  /** No opener runs from the prose into the reply. */
  lemma ProseStaysShut(prose: string, reply: string, i: nat)
    requires NoOpener(prose) && reply != [] && reply[0] == '{' && i < |prose|
    ensures !Opens(prose + reply, i)
  {
    var text, p := prose + reply, |prose|;
    if Opens(text, i) {
      var j :| i < j < |text| && SaysAction(text, j) && Blank(text, i + 1, j);
      assert text[p] == '{' && !IsSpace(text[p]);
      assert j < p;
      assert j + 8 <= p;
      assert SaysAction(prose, j);
      assert Blank(prose, i + 1, j) by {
        forall k | i + 1 <= k < j ensures IsSpace(prose[k]) { assert prose[k] == text[k]; }
      }
      assert Opens(prose, i);
      assert false;
    }
  }

  /** A reply that is cut off does not close. */
  lemma CutOffIsOpen(d: Doc, n: nat)
    requires Valid(d) && d.Obj? && n < |Show(d)|
    ensures Scan(Show(d)[..n], Outside(0)).None?
  {
    var start, rest := Show(d)[..n], Show(d)[n..];
    assert start + rest == Show(d) && Show(d) + "" == Show(d);
    ScanningUndoesPrinting(d, "");
    if Scan(start, Outside(0)).Some? {
      ScanStops(start, rest, Outside(0));
      assert false;
    }
  }

  // ------------------------------------------------------------ the main results

  /** All of `text[from..to]` is searched: there is no fenced block, or it holds that part. */
  predicate Searches(text: string, from: nat, to: nat) {
    var f := FencedSpan(text);
    f.Some? ==> f.value.from <= from && to <= f.value.to
  }

  /** A part of the text that holds the whole reply gives the reply. */
  lemma PartHoldsTheReply(dec: Decoder, prose: string, d: Doc, tail: string, from: nat, to: nat)
    requires Decodes(dec) && Valid(d) && IsReplyObject(d)
    requires from <= |prose| && |prose| + |Show(d)| <= to <= |prose| + |Show(d)| + |tail|
    requires NoObject(dec, tail[..to - |prose| - |Show(d)|])
    ensures var part := (prose + (Show(d) + tail))[from..to];
      LastObject(dec, part, Openers(part, 0)) == Some(Meaning(dec, d))
  {
    var text := prose + (Show(d) + tail);
    var before, after := prose[from..], tail[..to - |prose| - |Show(d)|];
    assert text[from..to] == before + (Show(d) + after);
    LastObjectIsTheReply(dec, before, d, after);
  }

  /** For every reply, however it is printed, after any prose and before any tail in which no opener is an
      object: the reply is extracted whenever the text has no fenced block, or the block holds all of it. */
  lemma TheReplyIsExtracted(dec: Decoder, text: string, prose: string, d: Doc, tail: string)
    requires Decodes(dec) && Valid(d) && IsReplyObject(d) && NoObject(dec, tail)
    requires text == prose + (Show(d) + tail) && Searches(text, |prose|, |prose| + |Show(d)|)
    ensures ExtractTerminal(dec, text) == Some(Meaning(dec, d))
  {
    var f := FencedSpan(text);
    if f.Some? {
      BlockHoldsTheReply(dec, text, prose, d, tail, f.value);
      FoundInBlock(dec, text, text[f.value.from..f.value.to], Meaning(dec, d));
    } else {
      LastObjectIsTheReply(dec, prose, d, tail);
    }
  }

  lemma BlockHoldsTheReply(dec: Decoder, text: string, prose: string, d: Doc, tail: string, f: Span)
    requires Decodes(dec) && Valid(d) && IsReplyObject(d) && NoObject(dec, tail)
    requires text == prose + (Show(d) + tail)
    requires f.from <= |prose| && |prose| + |Show(d)| <= f.to <= |text|
    ensures LastObject(dec, text[f.from..f.to], Openers(text[f.from..f.to], 0)) == Some(Meaning(dec, d))
  {
    PartHasNoObject(dec, tail, f.to - |prose| - |Show(d)|);
    PartHoldsTheReply(dec, prose, d, tail, f.from, f.to);
  }

  lemma CutPart(prose: string, shown: string, tail: string, from: nat, to: nat)
    requires from <= |prose| < to < |prose| + |shown|
    ensures (prose + (shown + tail))[from..to] == prose[from..] + shown[..to - |prose|]
  {
  }

  /** A block that ends inside the reply, or begins after its brace, gives nothing. */
  lemma BlockGivesNothing(dec: Decoder, text: string, prose: string, d: Doc, tail: string, from: nat, to: nat)
    requires Valid(d) && IsReplyObject(d) && NoOpener(prose) && NoObject(dec, tail)
    requires text == prose + (Show(d) + tail)
    requires from <= to <= |text| && !(from <= |prose| && |prose| + |Show(d)| <= to)
    ensures LastObject(dec, text[from..to], Openers(text[from..to], 0)) == None
  {
    var part := text[from..to];
    forall i: nat | i < |part| ensures !HoldsObject(dec, part, i) {
      PartHoldsNone(dec, text, prose, d, tail, from, to, i);
    }
    SearchIff(dec, part, Meaning(dec, d));
  }

  /** The reply is the only object of the text. */
  lemma OnlyObject(dec: Decoder, text: string, prose: string, d: Doc, tail: string, q: nat)
    requires Valid(d) && IsReplyObject(d) && NoOpener(prose) && NoObject(dec, tail)
    requires text == prose + (Show(d) + tail) && HoldsObject(dec, text, q)
    ensures q == |prose|
  {
    if q < |prose| { ProseStaysShut(prose, Show(d) + tail, q); }
    if q > |prose| { ObjectsAfter(dec, prose, d, tail, q); }
  }

  /** An object of a part stands where the reply begins. */
  lemma AtTheReply(dec: Decoder, text: string, prose: string, d: Doc, tail: string, from: nat, to: nat, i: nat)
    requires Valid(d) && IsReplyObject(d) && NoOpener(prose) && NoObject(dec, tail)
    requires text == prose + (Show(d) + tail) && from <= to <= |text| && HoldsObject(dec, text[from..to], i)
    ensures from + i == |prose|
  {
    WholeHolds(dec, text, from, to, i);
    var q := from + i;
    OnlyObject(dec, text, prose, d, tail, q);
  }

  lemma PartHoldsNone(dec: Decoder, text: string, prose: string, d: Doc, tail: string, from: nat, to: nat, i: nat)
    requires Valid(d) && IsReplyObject(d) && NoOpener(prose) && NoObject(dec, tail)
    requires text == prose + (Show(d) + tail)
    requires from <= to <= |text| && !(from <= |prose| && |prose| + |Show(d)| <= to)
    ensures !HoldsObject(dec, text[from..to], i)
  {
    if from <= |prose| < to { CutIsNone(dec, text, prose, d, tail, from, to); }
    if HoldsObject(dec, text[from..to], i) {
      BeginsInside(dec, text, from, to, i);
      AtTheReply(dec, text, prose, d, tail, from, to, i);
    }
  }

  lemma BeginsInside(dec: Decoder, text: string, from: nat, to: nat, i: nat)
    requires from <= to <= |text| && HoldsObject(dec, text[from..to], i)
    ensures i < to - from
  {
  }

  lemma WholeHolds(dec: Decoder, text: string, from: nat, to: nat, i: nat)
    requires from <= to <= |text| && HoldsObject(dec, text[from..to], i)
    ensures HoldsObject(dec, text, from + i)
  {
    PartOpens(text, from, to, i);
    PartObject(dec, text, from, to, i);
  }

  /** A part that begins before the reply and ends inside it holds no object where the reply begins. */
  lemma CutIsNone(dec: Decoder, text: string, prose: string, d: Doc, tail: string, from: nat, to: nat)
    requires Valid(d) && d.Obj? && text == prose + (Show(d) + tail) && from <= |prose| < to < |prose| + |Show(d)|
    ensures !HoldsObject(dec, text[from..to], |prose| - from)
  {
    CutPart(prose, Show(d), tail, from, to);
    var n := to - |prose|;
    assert text[from..to][|prose| - from..] == Show(d)[..n];
    CutOffIsOpen(d, n);
  }

  lemma NotSearched(dec: Decoder, text: string, prose: string, d: Doc, tail: string, f: Span)
    requires Valid(d) && IsReplyObject(d) && NoOpener(prose) && NoObject(dec, tail)
    requires text == prose + (Show(d) + tail) && FencedSpan(text) == Some(f)
    requires !(f.from <= |prose| && |prose| + |Show(d)| <= f.to)
    ensures ExtractTerminal(dec, text) == None
  {
    BlockGivesNothing(dec, text, prose, d, tail, f.from, f.to);
    SearchedInBlock(text, f);
  }

  lemma SearchedInBlock(text: string, f: Span)
    requires FencedSpan(text) == Some(f)
    ensures Searched(text) == text[f.from..f.to]
  {
  }

  /** Between prose without an opener and a tail without an object a printed reply is extracted exactly when
      the text has no fenced block or the block holds the whole reply; otherwise nothing is. */
  lemma ExtractedIffSearched(dec: Decoder, text: string, prose: string, d: Doc, tail: string)
    requires Decodes(dec) && Valid(d) && IsReplyObject(d) && NoOpener(prose) && NoObject(dec, tail)
    requires text == prose + (Show(d) + tail)
    ensures Searches(text, |prose|, |prose| + |Show(d)|) ==> ExtractTerminal(dec, text) == Some(Meaning(dec, d))
    ensures !Searches(text, |prose|, |prose| + |Show(d)|) ==> ExtractTerminal(dec, text) == None
  {
    if Searches(text, |prose|, |prose| + |Show(d)|) {
      TheReplyIsExtracted(dec, text, prose, d, tail);
    } else {
      NotSearched(dec, text, prose, d, tail, FencedSpan(text).value);
    }
  }

  /** A reply that is printed with nothing around it is extracted exactly when its own print holds no
      fenced block. */
  lemma AloneExtractedIff(dec: Decoder, d: Doc)
    requires Decodes(dec) && Valid(d) && IsReplyObject(d)
    ensures ExtractTerminal(dec, Show(d)) == if Fenced(Show(d)).None? then Some(Meaning(dec, d)) else None
  {
    NothingAround(Show(d));
    AllOrNothing(dec, Show(d), "", d, "");
  }

  lemma AllOrNothing(dec: Decoder, text: string, prose: string, d: Doc, tail: string)
    requires Decodes(dec) && Valid(d) && IsReplyObject(d) && |prose| == |tail| == 0
    requires text == prose + (Show(d) + tail)
    ensures ExtractTerminal(dec, text) == if Fenced(text).None? then Some(Meaning(dec, d)) else None
  {
    ExtractedIffSearched(dec, text, prose, d, tail);
    SearchesAll(text, |prose|, |prose| + |Show(d)|);
  }

  lemma NothingAround(s: string)
    ensures s == "" + (s + "")
  {
  }

  /** A block never holds all of the text, as its opening mark comes first. */
  lemma SearchesAll(text: string, from: nat, to: nat)
    requires from == 0
    ensures Searches(text, from, to) <==> Fenced(text).None?
  {
  }

  /** There is a fenced block exactly when two fence marks lie side by side or apart. */
  lemma FencedIff(text: string)
    ensures Fenced(text).Some? <==> exists a: nat, b: nat :: a + 3 <= b && FenceAt(text, a) && FenceAt(text, b)
  {
    var open := NextFence(text, 0);
    if Fenced(text).Some? {
      var close := NextFence(text, open.value + 3);
      assert FenceAt(text, open.value) && FenceAt(text, close.value);
    }
    if a: nat, b: nat :| a + 3 <= b && FenceAt(text, a) && FenceAt(text, b) {
      assert open.Some? && open.value <= a;
      assert NextFence(text, open.value + 3).Some?;
    }
  }

  // ------------------------------------------------------------ a reply in a fenced block

  /** No fence mark begins in `s` before the one that follows it. */
  predicate FirstMarkFollows(s: string) {
    forall i :: 0 <= i < |s| ==> !FenceAt(s + "```", i)
  }

  /** `part` stands in the text at `at`, and a fence mark follows. */
  predicate MarkFollows(text: string, at: nat, part: string) {
    && at + |part| <= |text| && FenceAt(text, at + |part|)
    && forall i :: 0 <= i < |part| ==> text[at + i] == part[i]
  }

  lemma NextMark(text: string, at: nat, part: string)
    requires MarkFollows(text, at, part) && FirstMarkFollows(part)
    ensures NextFence(text, at) == Some(at + |part|)
  {
    var t := part + "```";
    assert forall i :: 0 <= i < |t| ==> text[at + i] == t[i];
    forall k | at <= k < at + |part| ensures !FenceAt(text, k) {
      assert !FenceAt(t, k - at);
      assert text[k] == t[k - at] && text[k + 1] == t[k - at + 1] && text[k + 2] == t[k - at + 2];
    }
    FirstFence(text, at, at + |part|);
  }

  lemma {:induction false} FirstFence(text: string, from: nat, at: nat)
    requires from <= at <= |text| && FenceAt(text, at) && forall i :: from <= i < at ==> !FenceAt(text, i)
    ensures NextFence(text, from) == Some(at)
    decreases at - from
  {
    if from < at { FirstFence(text, from + 1, at); }
  }

  /** Neither a language mark nor a blank is taken from an object. */
  lemma TrimmedHolds(lead: string, d: Doc, trail: string)
    requires d.Obj?
    ensures var t := Trimmed(lead + (Show(d) + trail)); t.from <= |lead| && |lead| + |Show(d)| <= t.to
  {
    var shown := Show(d);
    assert shown[0] == '{' && shown[|shown| - 1] == '}';
    ShownHolds(lead, shown, trail);
  }

  lemma ShownHolds(lead: string, shown: string, trail: string)
    requires shown != [] && shown[0] == '{' && shown[|shown| - 1] == '}'
    ensures var t := Trimmed(lead + (shown + trail)); t.from <= |lead| && |lead| + |shown| <= t.to
  {
    var body, first, last := lead + (shown + trail), |lead|, |lead| + |shown| - 1;
    var t := Trimmed(body);
    assert body[first] == '{' && body[last] == '}';
    assert !IsSpace(body[first]) && !IsSpace(body[last]);
  }

  /** A reply in the first fenced block is extracted, whatever the language mark, the words around it,
      the layout and the text after the block. */
  lemma TheFencedReplyIsExtracted(dec: Decoder, text: string, prose: string, body: string, tail: string,
                                  lead: string, d: Doc, trail: string)
    requires Decodes(dec) && Valid(d) && IsReplyObject(d) && NoObject(dec, trail)
    requires text == prose + ("```" + (body + ("```" + tail))) && body == lead + (Show(d) + trail)
    requires FirstMarkFollows(prose) && FirstMarkFollows(body)
    ensures ExtractTerminal(dec, text) == Some(Meaning(dec, d))
  {
    BlockLies(prose, body, tail, text);
    BlockIs(prose, body, text);
    BodyHoldsTheReply(dec, body, lead, d, trail);
    FoundInBlock(dec, text, Unwrapped(body), Meaning(dec, d));
  }

  /** What the search sees of the body of a block. */
  function Unwrapped(body: string): string {
    var t := Trimmed(body);
    body[t.from..t.to]
  }

  lemma FoundInBlock(dec: Decoder, text: string, block: string, v: Value)
    requires Fenced(text) == Some(block) && LastObject(dec, block, Openers(block, 0)) == Some(v)
    ensures ExtractTerminal(dec, text) == Some(v)
  {
  }

  lemma BodyHoldsTheReply(dec: Decoder, body: string, lead: string, d: Doc, trail: string)
    requires Decodes(dec) && Valid(d) && IsReplyObject(d) && NoObject(dec, trail) && body == lead + (Show(d) + trail)
    ensures LastObject(dec, Unwrapped(body), Openers(Unwrapped(body), 0)) == Some(Meaning(dec, d))
  {
    var t := Trimmed(body);
    TrimmedHolds(lead, d, trail);
    var n := t.to - |lead| - |Show(d)|;
    PartHasNoObject(dec, trail, n);
    PartHoldsTheReply(dec, lead, d, trail, t.from, t.to);
  }

  lemma BlockLies(prose: string, body: string, tail: string, text: string)
    requires text == prose + ("```" + (body + ("```" + tail)))
    ensures MarkFollows(text, 0, prose) && MarkFollows(text, |prose| + 3, body)
    ensures |prose| + 3 + |body| <= |text| && text[|prose| + 3..|prose| + 3 + |body|] == body
  {
    var rest := "```" + (body + ("```" + tail));
    assert text == prose + rest && FenceAt(rest, 0);
    var from, more := |prose| + 3, body + ("```" + tail);
    assert text == (prose + "```") + more;
    assert more[..|body|] == body && FenceAt(more, |body|);
    forall k | 0 <= k < |more| ensures text[from + k] == more[k] { }
  }

  lemma BlockIs(prose: string, body: string, text: string)
    requires MarkFollows(text, 0, prose) && MarkFollows(text, |prose| + 3, body)
    requires FirstMarkFollows(prose) && FirstMarkFollows(body)
    requires |prose| + 3 + |body| <= |text| && text[|prose| + 3..|prose| + 3 + |body|] == body
    ensures Fenced(text) == Some(Unwrapped(body))
  {
    var from := |prose| + 3;
    NextMark(text, 0, prose);
    NextMark(text, from, body);
    SpanBetween(text, |prose|, from + |body|);
    UnwrappedPart(text, from, body);
  }

  lemma UnwrappedPart(text: string, from: nat, body: string)
    requires from + |body| <= |text| && text[from..from + |body|] == body
    ensures var f := SpanOf(text, from, from + |body|); text[f.from..f.to] == Unwrapped(body)
  {
    PartOfPart(text, from, body, Trimmed(body));
  }

  lemma SpanBetween(text: string, open: nat, close: nat)
    requires NextFence(text, 0) == Some(open) && open + 3 <= close <= |text| && NextFence(text, open + 3) == Some(close)
    ensures FencedSpan(text) == Some(SpanOf(text, open + 3, close))
  {
  }

  lemma PartOfPart(text: string, from: nat, body: string, t: Span)
    requires from + |body| <= |text| && text[from..from + |body|] == body && t.from <= t.to <= |body|
    ensures text[from + t.from..from + t.to] == body[t.from..t.to]
  {
    var part := text[from..from + |body|];
    assert forall k :: 0 <= k < |part| ==> text[from + k] == part[k];
    assert text[from + t.from..from + t.to] == part[t.from..t.to];
  }

  // ------------------------------------------------------------ the delivered reply

  /** The members that the instructions ask for, in their order. */
  predicate HasReplyShape(d: Doc, text: seq<Ch>, thoughts: seq<Ch>) {
    && d.Obj? && d.members.key == Spelled("action") && d.members.value == Str(Spelled("a2a_reply"))
    && d.members.rest.Some? && d.members.rest.value.key == Spelled("text") && d.members.rest.value.value == Str(text)
    && var last := d.members.rest.value.rest;
       last.Some? && last.value.key == Spelled("thoughts") && last.value.value == Str(thoughts) && last.value.rest.None?
  }

  lemma {:induction false} SpelledShows(s: string)
    ensures ShowItems(Spelled(s)) == s
  {
    if s != [] {
      assert Spelled(s)[1..] == Spelled(s[1..]);
      SpelledShows(s[1..]);
    }
  }

  /** With its thoughts, or without them for none. */
  predicate IsReplyOf(m: map<string, Value>, r: Reply) {
    || m == map["action" := Text("a2a_reply"), "text" := Text(r.text), "thoughts" := Text(r.thoughts)]
    || (r.thoughts == "" && m == map["action" := Text("a2a_reply"), "text" := Text(r.text)])
  }

  /** A value is validated to a reply exactly when it is an object with these members and no other, and the
      text is not blank. */
  lemma ValidatedIff(v: Option<Value>, r: Reply)
    ensures ValidateReply(v) == Some(r) <==>
      v.Some? && v.value.Dict? && IsReplyOf(v.value.entries, r) && !IsBlank(r.text)
  {
    if v.Some? && v.value.Dict? {
      var m := v.value.entries;
      if ValidateReply(v) == Some(r) { ValidatedHas(m, r); }
      if IsReplyOf(m, r) && !IsBlank(r.text) {
        assert forall k :: k in m ==> k == "action" || k == "text" || k == "thoughts";
      }
    }
  }

  lemma ValidatedHas(m: map<string, Value>, r: Reply)
    requires ValidateReply(Some(Dict(m))) == Some(r)
    ensures IsReplyOf(m, r) && !IsBlank(r.text)
  {
    assert forall k :: k in m ==> k == "action" || k == "text" || k == "thoughts";
    if "thoughts" in m {
      assert m == map["action" := Text("a2a_reply"), "text" := Text(r.text), "thoughts" := Text(r.thoughts)];
    } else {
      assert m == map["action" := Text("a2a_reply"), "text" := Text(r.text)];
    }
  }

  /** The reply that was printed is the reply that the caller gets. */
  lemma TheReplyIsDelivered(dec: Decoder, whole: string, prose: string, d: Doc, tail: string, text: seq<Ch>,
                            thoughts: seq<Ch>)
    requires Decodes(dec) && Valid(d) && HasReplyShape(d, text, thoughts) && NoObject(dec, tail)
    requires whole == prose + (Show(d) + tail) && Searches(whole, |prose|, |prose| + |Show(d)|)
    requires !IsBlank(dec.text(text))
    ensures ValidateReply(ExtractTerminal(dec, whole)) == Some(Reply(dec.text(text), dec.text(thoughts)))
  {
    ReplyIsPlain(d, text, thoughts);
    TheReplyIsExtracted(dec, whole, prose, d, tail);
    ReplyMeaning(dec, d, text, thoughts);
    FullReplyIsValid(dec.text(text), dec.text(thoughts));
  }

  lemma ReplyIsPlain(d: Doc, text: seq<Ch>, thoughts: seq<Ch>)
    requires HasReplyShape(d, text, thoughts)
    ensures IsReplyObject(d)
  {
    SpelledShows("action");
    var second := d.members.rest.value;
    assert PlainMembers(second.rest.value);
    assert PlainMembers(second);
  }

  function ReplyEntries(text: string, thoughts: string): map<string, Value> {
    map["action" := Text("a2a_reply")] + (map["text" := Text(text)] + map["thoughts" := Text(thoughts)])
  }

  lemma FullReplyIsValid(text: string, thoughts: string)
    requires !IsBlank(text)
    ensures ValidateReply(Some(Dict(ReplyEntries(text, thoughts)))) == Some(Reply(text, thoughts))
  {
    var m := ReplyEntries(text, thoughts);
    forall k | k in m ensures k == "action" || k == "text" || k == "thoughts" { }
    assert m["action"] == Text("a2a_reply") && m["text"] == Text(text) && m["thoughts"] == Text(thoughts);
  }

  lemma ReplyMeaning(dec: Decoder, d: Doc, text: seq<Ch>, thoughts: seq<Ch>)
    requires Decodes(dec) && HasReplyShape(d, text, thoughts)
    ensures Meaning(dec, d) == Dict(ReplyEntries(dec.text(text), dec.text(thoughts)))
  {
    var second := d.members.rest.value;
    var third := second.rest.value;
    assert dec.text(Spelled("action")) == "action" && dec.text(Spelled("a2a_reply")) == "a2a_reply";
    assert dec.text(Spelled("text")) == "text" && dec.text(Spelled("thoughts")) == "thoughts";
    assert Meaning(dec, third.value) == Text(dec.text(thoughts)) && Meaning(dec, second.value) == Text(dec.text(text));
    assert MembersMeaning(dec, third) == map["thoughts" := Text(dec.text(thoughts))];
    assert MembersMeaning(dec, second) == map["text" := Text(dec.text(text))] + MembersMeaning(dec, third);
    assert Meaning(dec, d.members.value) == Text("a2a_reply");
    assert MembersMeaning(dec, d.members) == map["action" := Text("a2a_reply")] + MembersMeaning(dec, second);
  }

  // ------------------------------------------------------------ replies that are lost

  /** Nothing is found in a text whose first fenced block holds no object. */
  lemma AFenceHidesTheReply(dec: Decoder, text: string)
    requires Fenced(text).Some? && NoObject(dec, Fenced(text).value)
    ensures ExtractTerminal(dec, text) == None
  {
    ExtractIff(dec, text, Dict(map[]));
  }

  /** A compact object of two strings. */
  function TwoStrings(k1: string, v1: string, k2: string, v2: string): Doc {
    Obj(Members("", Spelled(k1), "", "", Str(Spelled(v1)), "",
      Some(Members("", Spelled(k2), "", "", Str(Spelled(v2)), "", None))))
  }

  function Quoted(s: string): string {
    "\"" + (s + "\"")
  }

  lemma ShowMember(k: string, v: string, rest: Option<Members>, more: string)
    requires more == if rest.Some? then "," + ShowMembers(rest.value) else ""
    ensures ShowMembers(Members("", Spelled(k), "", "", Str(Spelled(v)), "", rest))
         == Quoted(k) + (":" + (Quoted(v) + more))
  {
    SpelledShows(k);
    SpelledShows(v);
    var ms := Members("", Spelled(k), "", "", Str(Spelled(v)), "", rest);
    assert ShowString(ms.key) == Quoted(k) && Show(ms.value) == Quoted(v);
    assert ms.after + more == more && ms.gap + (Quoted(v) + more) == Quoted(v) + more;
    assert ms.colon + (":" + (Quoted(v) + more)) == ":" + (Quoted(v) + more);
  }

  lemma ShowTwoStrings(k1: string, v1: string, k2: string, v2: string)
    ensures Show(TwoStrings(k1, v1, k2, v2)) ==
      "{" + (Quoted(k1) + (":" + (Quoted(v1) + ("," + (Quoted(k2) + (":" + (Quoted(v2) + "}")))))))
  {
    var ms := TwoStrings(k1, v1, k2, v2).members;
    ShowMember(k2, v2, None, "");
    var second := Quoted(k2) + (":" + (Quoted(v2) + ""));
    ShowMember(k1, v1, ms.rest, "," + second);
    Regroup(Quoted(k1), Quoted(v1), Quoted(k2), Quoted(v2));
  }

  lemma Regroup(a: string, b: string, c: string, d: string)
    ensures "{" + ((a + (":" + (b + ("," + (c + (":" + (d + ""))))))) + "}")
         == "{" + (a + (":" + (b + ("," + (c + (":" + (d + "}")))))))
  {
  }

  /** A reply that quotes code in its own text is lost, whatever it says and whatever the code is. */
  lemma QuotedCodeLosesTheReply(dec: Decoder, action: string, reply: string, key: string, code: string)
    requires Decodes(dec) && action == "action" && Valid(TwoStrings(action, reply, key, "```" + (code + "```")))
    ensures ExtractTerminal(dec, Show(TwoStrings(action, reply, key, "```" + (code + "```")))) == None
  {
    SpelledShows(action);
    var text := "```" + (code + "```");
    var d := TwoStrings(action, reply, key, text);
    ShowTwoStrings(action, reply, key, text);
    var before := "{" + (Quoted(action) + (":" + (Quoted(reply) + ("," + (Quoted(key) + (":" + "\""))))));
    var after := "\"" + "}";
    assert Show(d) == before + ("```" + (code + ("```" + after)));
    assert FenceAt(Show(d), |before|) && FenceAt(Show(d), |before| + 3 + |code|);
    FencedIff(Show(d));
    AloneExtractedIff(dec, d);
  }
}
