/** Extraction of the terminal reply from an agent's text, and its validation. JSON decoding is a
    library call: a parameter that is only assumed to decode printed texts to their meaning. */
module A2ATerminal {
  import opened Options
  import opened Json
  import opened A2AScan

  // ------------------------------------------------------------ decoded values

  datatype Value = Scalar(text: string) | Text(s: string) | List(items: seq<Value>) | Dict(entries: map<string, Value>)

  /** The JSON library: `loads` as a whole, and how it reads one string. */
  datatype Decoder = Decoder(loads: string -> Option<Value>, text: seq<Ch> -> string)

  function Meaning(dec: Decoder, d: Doc): Value {
    match d
    case Word(t) => Scalar(t)
    case Num(n) => Scalar(ShowNumber(n))
    case Str(items) => Text(dec.text(items))
    case NoElems(_) => List([])
    case Arr(es) => List(ElemsMeaning(dec, es))
    case NoMembers(_) => Dict(map[])
    case Obj(ms) => Dict(MembersMeaning(dec, ms))
  }

  function ElemsMeaning(dec: Decoder, es: Elems): seq<Value> {
    [Meaning(dec, es.value)] + if es.rest.Some? then ElemsMeaning(dec, es.rest.value) else []
  }

  /** Of two members with one key, the later one counts. */
  function MembersMeaning(dec: Decoder, ms: Members): map<string, Value> {
    map[dec.text(ms.key) := Meaning(dec, ms.value)]
    + if ms.rest.Some? then MembersMeaning(dec, ms.rest.value) else map[]
  }

  /** The last member under a key. */
  function LastUnder(dec: Decoder, ms: Members, key: string): Option<Value> {
    var later := if ms.rest.Some? then LastUnder(dec, ms.rest.value, key) else None;
    if later.Some? || dec.text(ms.key) != key then later else Some(Meaning(dec, ms.value))
  }

  /** An object has exactly the keys of its members, each with the value of its last one. */
  lemma {:induction false} LastMemberCounts(dec: Decoder, ms: Members, key: string)
    ensures key in MembersMeaning(dec, ms) <==> LastUnder(dec, ms, key).Some?
    ensures key in MembersMeaning(dec, ms) ==> LastUnder(dec, ms, key) == Some(MembersMeaning(dec, ms)[key])
  {
    if ms.rest.Some? { LastMemberCounts(dec, ms.rest.value, key); }
  }

  /** What is known of the library: printed texts decode to their meaning, and a string written
      without escapes is itself. */
  ghost predicate Decodes(dec: Decoder) {
    && (forall d :: Valid(d) ==> dec.loads(Show(d)) == Some(Meaning(dec, d)))
    && (forall s :: dec.text(Spelled(s)) == s)
  }

  function Spelled(s: string): (items: seq<Ch>)
    ensures |items| == |s| && forall i :: 0 <= i < |s| ==> items[i] == Plain(s[i])
  {
    seq(|s|, i requires 0 <= i < |s| => Plain(s[i]))
  }

  // ------------------------------------------------------------ openers

  predicate IsSpace(c: char) {
    || c == ' ' || '\t' <= c <= '\r' || '\U{001C}' <= c <= '\U{001F}' || c == '\U{0085}' || c == '\U{00A0}'
    || c == '\U{1680}' || '\U{2000}' <= c <= '\U{200A}' || c == '\U{2028}' || c == '\U{2029}'
    || c == '\U{202F}' || c == '\U{205F}' || c == '\U{3000}'
  }

  const BLANKS := [
    9, 10, 11, 12, 13, 28, 29, 30, 31, 32, 133, 160, 5760, 8192, 8193, 8194, 8195, 8196, 8197, 8198, 8199, 8200,
    8201, 8202, 8232, 8233, 8239, 8287, 12288]

  /** The blanks, one by one. */
  lemma SpaceIff(c: char)
    ensures IsSpace(c) <==> c as int in BLANKS
  {
  }

  /** Nothing but blanks. */
  predicate Blank(text: string, from: int, to: int) {
    forall k :: from <= k < to ==> 0 <= k < |text| && IsSpace(text[k])
  }

  /** The word action in quotes. */
  predicate SaysAction(text: string, j: int) {
    && 0 <= j && j + 8 <= |text|
    && text[j] == '"' && text[j + 1] == 'a' && text[j + 2] == 'c' && text[j + 3] == 't' && text[j + 4] == 'i'
    && text[j + 5] == 'o' && text[j + 6] == 'n' && text[j + 7] == '"'
  }

  /** A brace, blanks and the word action in quotes. */
  predicate Opens(text: string, i: int) {
    0 <= i < |text| && text[i] == '{' && exists j :: i < j < |text| && SaysAction(text, j) && Blank(text, i + 1, j)
  }

  /** The positions from `i` on at which an object opens with its action, in order. */
  function Openers(text: string, i: nat): (at: seq<nat>)
    ensures forall k :: 0 <= k < |at| ==> i <= at[k] < |text|
    decreases |text| - i
  {
    if i >= |text| then []
    else if Opens(text, i) then [i] + Openers(text, i + 1)
    else Openers(text, i + 1)
  }

  // ------------------------------------------------------------ extraction

  /** The object that opens at `pos`, if its brace closes and the library decodes it to one. */
  function ObjectAt(dec: Decoder, text: string, pos: nat): Option<Value>
    requires pos < |text|
  {
    var end := Scan(text[pos..], Outside(0));
    if end.None? then None
    else
      var v := dec.loads(text[pos..pos + end.value + 1]);
      if v.Some? && v.value.Dict? then v else None
  }

  function LastObject(dec: Decoder, text: string, at: seq<nat>): Option<Value>
    requires forall k :: 0 <= k < |at| ==> at[k] < |text|
  {
    if at == [] then None
    else
      var v := ObjectAt(dec, text, at[|at| - 1]);
      if v.Some? then v else LastObject(dec, text, at[..|at| - 1])
  }

  predicate FenceAt(text: string, i: nat) {
    i + 3 <= |text| && text[i] == '`' && text[i + 1] == '`' && text[i + 2] == '`'
  }

  /** The first fence mark at or after `from`. */
  function NextFence(text: string, from: nat): (at: Option<nat>)
    requires from <= |text|
    ensures at.Some? ==> from <= at.value && FenceAt(text, at.value) && forall i :: from <= i < at.value ==>
        !FenceAt(text, i)
    ensures at.None? ==> forall i :: from <= i ==> !FenceAt(text, i)
    decreases |text| - from
  {
    if FenceAt(text, from) then Some(from)
    else if from < |text| then NextFence(text, from + 1)
    else None
  }

  function SkipLeft(s: string, i: nat): (r: nat)
    requires i <= |s|
    ensures i <= r <= |s| && Blank(s, i, r) && (r < |s| ==> !IsSpace(s[r]))
    decreases |s| - i
  {
    if i < |s| && IsSpace(s[i]) then SkipLeft(s, i + 1) else i
  }

  function SkipRight(s: string, from: nat, j: nat): (r: nat)
    requires from <= j <= |s|
    ensures from <= r <= j && Blank(s, r, j) && (r > from ==> !IsSpace(s[r - 1]))
  {
    if j > from && IsSpace(s[j - 1]) then SkipRight(s, from, j - 1) else j
  }

  datatype Span = Span(from: nat, to: nat)

  /** What a fenced block holds, without a language mark and surrounding blanks. */
  function Trimmed(body: string): (t: Span)
    ensures (if |body| >= 4 && body[..4] == "json" then 4 else 0) <= t.from <= t.to <= |body|
    ensures t.from < t.to ==> !IsSpace(body[t.from]) && !IsSpace(body[t.to - 1])
    ensures Blank(body, if Marked(body) then 4 else 0, t.from) && Blank(body, t.to, |body|)
  {
    var from := SkipLeft(body, if Marked(body) then 4 else 0);
    Span(from, SkipRight(body, from, |body|))
  }

  predicate Marked(body: string) {
    |body| >= 4 && body[0] == 'j' && body[1] == 's' && body[2] == 'o' && body[3] == 'n'
  }

  /** Where the first fenced block lies, which is all that is searched if there is one. */
  function FencedSpan(text: string): (f: Option<Span>)
    ensures f.Some? ==> 3 <= f.value.from <= f.value.to <= |text|
  {
    var open := NextFence(text, 0);
    if open.None? then None
    else
      var from := open.value + 3;
      var close := NextFence(text, from);
      if close.None? then None else Some(SpanOf(text, from, close.value))
  }

  function SpanOf(text: string, from: nat, close: nat): (f: Span)
    requires from <= close <= |text|
    ensures from <= f.from <= f.to <= close
  {
    var t := Trimmed(text[from..close]);
    Span(from + t.from, from + t.to)
  }

  function Fenced(text: string): Option<string> {
    var f := FencedSpan(text);
    if f.Some? then Some(text[f.value.from..f.value.to]) else None
  }

  function Searched(text: string): string {
    var f := Fenced(text);
    if f.Some? then f.value else text
  }

  function ExtractTerminal(dec: Decoder, text: string): Option<Value> {
    LastObject(dec, Searched(text), Openers(Searched(text), 0))
  }

  // ------------------------------------------------------------ the loops

  lemma {:induction false} NoneOpenHere(text: string, i: nat, j: nat)
    requires i <= j <= |text| && forall k :: i <= k < j ==> !Opens(text, k)
    ensures Openers(text, i) == Openers(text, j)
    decreases j - i
  {
    if i < j { NoneOpenHere(text, i + 1, j); }
  }

  /** The opener at one position, and where its match ends. There is no other brace in a match. */
  method MatchOpener(text: string, i: nat) returns (end: Option<nat>)
    requires i < |text|
    ensures end.Some? <==> Opens(text, i)
    ensures end.Some? ==> i < end.value <= |text| && forall k :: i < k < end.value ==> text[k] != '{'
  {
    if text[i] != '{' { return None; }
    var j := i + 1;
    while j < |text| && IsSpace(text[j])
      invariant i < j <= |text| && Blank(text, i + 1, j)
    {
      j := j + 1;
    }
    if SaysAction(text, j) { return Some(j + 8); }
    return None;
  }

  /** The matches of the opener, from left to right; each search starts where the last match ends. */
  method FindOpeners(text: string) returns (at: seq<nat>)
    ensures at == Openers(text, 0)
  {
    at := [];
    var i := 0;
    while i < |text|
      invariant 0 <= i <= |text|
      invariant Openers(text, 0) == at + Openers(text, i)
    {
      var end := MatchOpener(text, i);
      if end.Some? {
        NoneOpenHere(text, i + 1, end.value);
        assert at + ([i] + Openers(text, end.value)) == (at + [i]) + Openers(text, end.value);
        at := at + [i];
        i := end.value;
      } else {
        i := i + 1;
      }
    }
  }

  method TryObject(dec: Decoder, text: string, pos: nat) returns (v: Option<Value>)
    requires pos < |text|
    ensures v == ObjectAt(dec, text, pos)
  {
    var end := FindMatchingBrace(text, pos);
    if end < 0 { return None; }
    v := dec.loads(text[pos..end + 1]);
    if v.Some? && !v.value.Dict? { v := None; }
  }

  method Extract(dec: Decoder, accumulated: string) returns (result: Option<Value>)
    ensures result == ExtractTerminal(dec, accumulated)
  {
    var text := accumulated;
    var fence := Fenced(accumulated);
    if fence.Some? { text := fence.value; }
    var at := FindOpeners(text);
    var k := |at|;
    assert at[..k] == at;
    while k > 0
      invariant 0 <= k <= |at|
      invariant LastObject(dec, text, at) == LastObject(dec, text, at[..k])
    {
      assert at[..k][..k - 1] == at[..k - 1];
      k := k - 1;
      var value := TryObject(dec, text, at[k]);
      if value.Some? { return value; }
    }
    return None;
  }

  // ------------------------------------------------------------ validation

  datatype Reply = Reply(text: string, thoughts: string)

  predicate IsBlank(s: string) {
    Blank(s, 0, |s|)
  }

  /** The strict reply model: exactly the known members, all of them strings. */
  function ValidateReply(v: Option<Value>): Option<Reply> {
    if v.None? || !v.value.Dict? then None
    else
      var m := v.value.entries;
      if !("action" in m && m["action"] == Text("a2a_reply")) then None
      else if exists k <- m :: k != "action" && k != "text" && k != "thoughts" then None
      else if !("text" in m && m["text"].Text?) || ("thoughts" in m && !m["thoughts"].Text?) then None
      else if IsBlank(m["text"].s) then None
      else Some(Reply(m["text"].s, if "thoughts" in m then m["thoughts"].s else ""))
  }
}
