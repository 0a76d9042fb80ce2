/** The brace scanner of the A2A channel undoes JSON printing. */
module A2AScan {
  import opened Options
  import opened Json

  datatype Mode = Mode(depth: int, inString: bool, escape: bool)

  function Outside(depth: int): Mode { Mode(depth, false, false) }
  function Inside(depth: int): Mode { Mode(depth, true, false) }

  function Step(m: Mode, c: char): Mode {
    if m.escape then m.(escape := false)
    else if c == '\\' && m.inString then m.(escape := true)
    else
      var m1 := if c == '"' then m.(inString := !m.inString) else m;
      if m1.inString then m1
      else if c == '{' then m1.(depth := m1.depth + 1)
      else if c == '}' then m1.(depth := m1.depth - 1)
      else m1
  }

  predicate Closes(m: Mode, c: char) {
    c == '}' && !m.inString && !m.escape && m.depth == 1
  }

  /** The scanner on what is left of the text: how far away the matching brace is. */
  function Scan(s: string, m: Mode): (r: Option<nat>)
    ensures r.Some? ==> r.value < |s|
  {
    if s == [] then None
    else if Closes(m, s[0]) then Some(0)
    else Further(Scan(s[1..], Step(m, s[0])), 1)
  }

  function Further(r: Option<nat>, n: nat): Option<nat> {
    if r.Some? then Some(r.value + n) else None
  }

  /** `_find_matching_brace`. */
  method FindMatchingBrace(text: string, start: nat) returns (at: int)
    requires start <= |text|
    ensures at == var r := Scan(text[start..], Outside(0)); if r.Some? then start + r.value else -1
  {
    var depth, inString, escape := 0, false, false;
    var i := start;
    while i < |text|
      invariant start <= i <= |text|
      invariant Scan(text[start..], Outside(0)) == Further(Scan(text[i..], Mode(depth, inString, escape)), i - start)
    {
      var c := text[i];
      ghost var m := Mode(depth, inString, escape);
      assert text[i..][1..] == text[i + 1..] && text[i..][0] == c;
      i := i + 1;
      if escape {
        escape := false;
      } else if c == '\\' && inString {
        escape := true;
      } else {
        if c == '"' { inString := !inString; }
        if !inString {
          if c == '{' {
            depth := depth + 1;
          } else if c == '}' {
            depth := depth - 1;
            if depth == 0 { return i - 1; }
          }
        }
      }
      assert Mode(depth, inString, escape) == Step(m, c);
    }
    return -1;
  }

  // ------------------------------------------------------------ text the scanner passes over

  /** `s` leaves the scanner outside strings at the same depth, whatever follows. */
  ghost predicate Passes(s: string) {
    forall rest, depth :: depth > 0 ==>
      Scan(s + rest, Outside(depth)) == Further(Scan(rest, Outside(depth)), |s|)
  }

  lemma UsePasses(s: string, rest: string, depth: int)
    requires Passes(s) && depth > 0
    ensures Scan(s + rest, Outside(depth)) == Further(Scan(rest, Outside(depth)), |s|)
  {
  }

  predicate Quiet(s: string) {
    forall c <- s :: c != '"' && c != '{' && c != '}'
  }

  lemma OpenStep(t: string, depth: int)
    ensures Scan("{" + t, Outside(depth)) == Further(Scan(t, Outside(depth + 1)), 1)
  {
    assert ("{" + t)[1..] == t;
  }

  lemma CloseStep(t: string, depth: int)
    ensures Scan("}" + t, Outside(depth))
         == if depth == 1 then Some(0) else Further(Scan(t, Outside(depth - 1)), 1)
  {
    assert ("}" + t)[1..] == t;
  }

  lemma QuoteStep(t: string, depth: int, inString: bool)
    ensures Scan("\"" + t, Mode(depth, inString, false)) ==
      if inString then Further(Scan(t, Outside(depth)), 1) else Further(Scan(t, Inside(depth)), 1)
  {
    assert ("\"" + t)[1..] == t;
  }

  lemma {:induction false} QuietScan(s: string, rest: string, depth: int)
    requires Quiet(s)
    ensures Scan(s + rest, Outside(depth)) == Further(Scan(rest, Outside(depth)), |s|)
  {
    if s == [] {
      assert s + rest == rest;
    } else {
      assert (s + rest)[1..] == s[1..] + rest;
      assert s[0] in s && Quiet(s[1..]) by { assert forall c :: c in s[1..] ==> c in s; }
      QuietScan(s[1..], rest, depth);
    }
  }

  lemma QuietPasses(s: string)
    requires Quiet(s)
    ensures Passes(s)
  {
    forall rest, depth | depth > 0
      ensures Scan(s + rest, Outside(depth)) == Further(Scan(rest, Outside(depth)), |s|)
    {
      QuietScan(s, rest, depth);
    }
  }

  lemma PassesJoin(s: string, t: string)
    requires Passes(s) && Passes(t)
    ensures Passes(s + t)
  {
    forall rest, depth | depth > 0
      ensures Scan((s + t) + rest, Outside(depth)) == Further(Scan(rest, Outside(depth)), |s + t|)
    {
      JoinPasses(s, t, rest, depth);
    }
  }

  lemma JoinPasses(s: string, t: string, rest: string, depth: int)
    requires Passes(s) && Passes(t) && depth > 0
    ensures Scan((s + t) + rest, Outside(depth)) == Further(Scan(rest, Outside(depth)), |s + t|)
  {
    Associate(s, t, rest);
    UsePasses(s, t + rest, depth);
    UsePasses(t, rest, depth);
  }

  lemma Associate(s: string, t: string, rest: string)
    ensures (s + t) + rest == s + (t + rest)
  {
  }

  lemma Enclosed(open: string, inner: string, close: string, rest: string)
    ensures (open + (inner + close)) + rest == open + (inner + (close + rest))
  {
  }

  /** One written character keeps the scanner inside the string: an escaped quote is skipped. */
  lemma ChScan(ch: Ch, rest: string, depth: int)
    requires ValidCh(ch)
    ensures Scan(ShowCh(ch) + rest, Inside(depth)) == Further(Scan(rest, Inside(depth)), |ShowCh(ch)|)
  {
    var s := ShowCh(ch) + rest;
    match ch
    case Plain(c) => assert s[1..] == rest;
    case Escape(c) => assert s[1..][1..] == rest;
    case Code(h) =>
      assert s[1..][1..] == h + rest;
      HexScan(h, rest, depth);
  }

  lemma {:induction false} HexScan(h: string, rest: string, depth: int)
    requires forall c <- h :: IsHex(c)
    ensures Scan(h + rest, Inside(depth)) == Further(Scan(rest, Inside(depth)), |h|)
  {
    if h == [] {
      assert h + rest == rest;
    } else {
      assert (h + rest)[1..] == h[1..] + rest;
      assert IsHex(h[0]) && forall c :: c in h[1..] ==> c in h;
      HexScan(h[1..], rest, depth);
    }
  }

  lemma {:induction false} ItemsScan(items: seq<Ch>, rest: string, depth: int)
    requires ValidItems(items)
    ensures Scan(ShowItems(items) + rest, Inside(depth)) == Further(Scan(rest, Inside(depth)), |ShowItems(items)|)
  {
    if items == [] {
      assert ShowItems(items) + rest == rest;
    } else {
      assert ShowItems(items) + rest == ShowCh(items[0]) + (ShowItems(items[1..]) + rest);
      ChScan(items[0], ShowItems(items[1..]) + rest, depth);
      ItemsScan(items[1..], rest, depth);
    }
  }

  lemma StringPasses(items: seq<Ch>)
    requires ValidItems(items)
    ensures Passes(ShowString(items))
  {
    forall rest, depth | depth > 0
      ensures Scan(ShowString(items) + rest, Outside(depth)) == Further(Scan(rest, Outside(depth)), |ShowString(items)|)
    {
      StringScan(items, rest, depth);
    }
  }

  lemma StringScan(items: seq<Ch>, rest: string, depth: int)
    requires ValidItems(items)
    ensures Scan(ShowString(items) + rest, Outside(depth)) == Further(Scan(rest, Outside(depth)), |ShowString(items)|)
  {
    Enclosed("\"", ShowItems(items), "\"", rest);
    QuoteStep(ShowItems(items) + ("\"" + rest), depth, false);
    ItemsScan(items, "\"" + rest, depth);
    QuoteStep(rest, depth, true);
  }

  /** Braces around something the scanner passes over. */
  lemma BracesPass(inner: string)
    requires Passes(inner)
    ensures Passes("{" + (inner + "}"))
  {
    forall rest, depth | depth > 0
      ensures Scan(("{" + (inner + "}")) + rest, Outside(depth))
           == Further(Scan(rest, Outside(depth)), |"{" + (inner + "}")|)
    {
      BracesScan(inner, rest, depth);
    }
  }

  lemma BracesScan(inner: string, rest: string, depth: int)
    requires Passes(inner) && depth >= 0
    ensures Scan(("{" + (inner + "}")) + rest, Outside(depth))
         == if depth == 0 then Some(|inner| + 1) else Further(Scan(rest, Outside(depth)), |inner| + 2)
  {
    Enclosed("{", inner, "}", rest);
    OpenStep(inner + ("}" + rest), depth);
    UsePasses(inner, "}" + rest, depth + 1);
    CloseStep(rest, depth + 1);
  }

  lemma NumberIsQuiet(n: Number)
    requires ValidNumber(n)
    ensures Quiet(ShowNumber(n))
  {
  }

  /** The scanner passes over every printed value, however deeply it is nested. */
  lemma {:induction false} ValuePasses(d: Doc)
    requires Valid(d)
    ensures Passes(Show(d))
  {
    match d
    case Word(t) => QuietPasses(t);
    case Num(n) => NumberIsQuiet(n); QuietPasses(ShowNumber(n));
    case Str(items) => StringPasses(items);
    case NoElems(gap) => QuietPasses("[" + (gap + "]"));
    case Arr(es) => ElemsPass(es); BracketsPass(ShowElems(es));
    case NoMembers(gap) => QuietPasses(gap); BracesPass(gap);
    case Obj(ms) => MembersPass(ms); BracesPass(ShowMembers(ms));
  }

  lemma BracketsPass(inner: string)
    requires Passes(inner)
    ensures Passes("[" + (inner + "]"))
  {
    QuietPasses("[");
    QuietPasses("]");
    PassesJoin(inner, "]");
    PassesJoin("[", inner + "]");
  }

  lemma {:induction false} ElemsPass(es: Elems)
    requires ValidElems(es)
    ensures Passes(ShowElems(es))
  {
    var more := if es.rest.Some? then "," + ShowElems(es.rest.value) else "";
    if es.rest.Some? {
      ElemsPass(es.rest.value);
      QuietPasses(",");
      PassesJoin(",", ShowElems(es.rest.value));
    } else {
      QuietPasses("");
    }
    QuietPasses(es.before);
    QuietPasses(es.after);
    ValuePasses(es.value);
    PassesJoin(es.after, more);
    PassesJoin(Show(es.value), es.after + more);
    PassesJoin(es.before, Show(es.value) + (es.after + more));
  }

  lemma {:induction false} MembersPass(ms: Members)
    requires ValidMembers(ms)
    ensures Passes(ShowMembers(ms))
  {
    var more := if ms.rest.Some? then "," + ShowMembers(ms.rest.value) else "";
    if ms.rest.Some? {
      MembersPass(ms.rest.value);
      QuietPasses(",");
      PassesJoin(",", ShowMembers(ms.rest.value));
    } else {
      QuietPasses("");
    }
    ValuePasses(ms.value);
    StringPasses(ms.key);
    QuietPasses(ms.before);
    QuietPasses(ms.colon);
    QuietPasses(":");
    QuietPasses(ms.gap);
    QuietPasses(ms.after);
    PassesJoin(ms.after, more);
    PassesJoin(Show(ms.value), ms.after + more);
    PassesJoin(ms.gap, Show(ms.value) + (ms.after + more));
    PassesJoin(":", ms.gap + (Show(ms.value) + (ms.after + more)));
    PassesJoin(ms.colon, ":" + (ms.gap + (Show(ms.value) + (ms.after + more))));
    PassesJoin(ShowString(ms.key), ms.colon + (":" + (ms.gap + (Show(ms.value) + (ms.after + more)))));
    PassesJoin(ms.before, ShowString(ms.key) + (ms.colon + (":" + (ms.gap + (Show(ms.value) + (ms.after + more))))));
  }

  // ------------------------------------------------------------ the main result

  predicate IsObject(d: Doc) { d.Obj? || d.NoMembers? }

  /** For every object, with any nesting, layout and escapes: started at its first character, the
      scanner stops at its last, whatever follows. */
  lemma ScanningUndoesPrinting(d: Doc, rest: string)
    requires Valid(d) && IsObject(d)
    ensures |Show(d)| > 0 && Scan(Show(d) + rest, Outside(0)) == Some(|Show(d)| - 1)
  {
    var inner := if d.Obj? then ShowMembers(d.members) else d.gap;
    if d.Obj? { MembersPass(d.members); } else { QuietPasses(inner); }
    BracesScan(inner, rest, 0);
  }
}
