/** A JSON text is printed by one tree only: what was printed decides every value and every choice of
    layout. So a library that decodes printed texts to their meaning can exist. */
module JsonUnique {
  import opened Options
  import opened Json

  // ------------------------------------------------------------ runs of characters

  /** `s` does not begin with such a character. */
  predicate Stops(s: string, p: char -> bool) {
    s == [] || !p(s[0])
  }

  predicate AllOf(s: string, p: char -> bool) {
    forall i :: 0 <= i < |s| ==> p(s[i])
  }

  lemma NotShorter(a: string, s: string, b: string, t: string, p: char -> bool)
    requires AllOf(b, p) && Stops(s, p) && a + s == b + t
    ensures |a| >= |b|
  {
    assert |b + t| == |b| + |t| && (a + s)[|a|..] == s && (b + t)[..|b|] == b;
  }

  /** The longest beginning of one kind. */
  lemma RunUnique(a: string, s: string, b: string, t: string, p: char -> bool)
    requires AllOf(a, p) && AllOf(b, p) && Stops(s, p) && Stops(t, p) && a + s == b + t
    ensures a == b && s == t
  {
    var x, y := a + s, b + t;
    NotShorter(a, s, b, t, p);
    NotShorter(b, t, a, s, p);
    assert a == x[..|a|] && b == y[..|b|] && s == x[|a|..] && t == y[|b|..];
  }

  predicate IsBlank(c: char) { c == ' ' || c == '\t' || c == '\n' || c == '\r' }

  lemma GapUnique(a: string, s: string, b: string, t: string)
    requires IsGap(a) && IsGap(b) && Stops(s, IsBlank) && Stops(t, IsBlank) && a + s == b + t
    ensures a == b && s == t
  {
    assert AllOf(a, IsBlank) by { assert forall i :: 0 <= i < |a| ==> a[i] in a; }
    assert AllOf(b, IsBlank) by { assert forall i :: 0 <= i < |b| ==> b[i] in b; }
    RunUnique(a, s, b, t, IsBlank);
  }

  lemma DigitsUnique(a: string, s: string, b: string, t: string)
    requires IsDigits(a) && IsDigits(b) && Stops(s, IsDigit) && Stops(t, IsDigit) && a + s == b + t
    ensures a == b && s == t
  {
    assert AllOf(a, IsDigit) by { assert forall i :: 0 <= i < |a| ==> a[i] in a; }
    assert AllOf(b, IsDigit) by { assert forall i :: 0 <= i < |b| ==> b[i] in b; }
    RunUnique(a, s, b, t, IsDigit);
  }

  lemma SameHead(c: char, s: string, d: char, t: string)
    requires [c] + s == [d] + t
    ensures c == d && s == t
  {
    assert ([c] + s)[0] == ([d] + t)[0];
    assert ([c] + s)[1..] == s && ([d] + t)[1..] == t;
  }

  // ------------------------------------------------------------ strings

  lemma SameFront(a: string, s: string, b: string, t: string)
    requires |a| == |b| && a + s == b + t
    ensures a == b && s == t
  {
    assert (a + s)[..|a|] == a && (b + t)[..|b|] == b && (a + s)[|a|..] == s && (b + t)[|b|..] == t;
  }

  lemma ChUnique(a: Ch, s: string, b: Ch, t: string)
    requires ValidCh(a) && ValidCh(b) && ShowCh(a) + s == ShowCh(b) + t
    ensures a == b && s == t
  {
    assert (ShowCh(a) + s)[0] == ShowCh(a)[0] && (ShowCh(b) + t)[0] == ShowCh(b)[0];
    if !a.Plain? {
      assert (ShowCh(a) + s)[1] == ShowCh(a)[1] && (ShowCh(b) + t)[1] == ShowCh(b)[1];
      EscapesDiffer(a, b);
    }
    SameFront(ShowCh(a), s, ShowCh(b), t);
    if a.Code? { assert ShowCh(a)[2..] == a.h && ShowCh(b)[2..] == b.h; }
  }

  lemma EscapesDiffer(a: Ch, b: Ch)
    requires ValidCh(a) && ValidCh(b) && !a.Plain? && !b.Plain? && ShowCh(a)[1] == ShowCh(b)[1]
    ensures a.Code? == b.Code?
  {
  }

  lemma {:induction false} ItemsUnique(a: seq<Ch>, s: string, b: seq<Ch>, t: string)
    requires ValidItems(a) && ValidItems(b) && ShowItems(a) + ("\"" + s) == ShowItems(b) + ("\"" + t)
    ensures a == b && s == t
    decreases |a|
  {
    if a == [] || b == [] {
      OneEnds(a, s, b, t);
    } else {
      ItemsStep(a, "\"" + s, b, "\"" + t);
      ItemsUnique(a[1..], s, b[1..], t);
      assert a == [a[0]] + a[1..] && b == [b[0]] + b[1..];
    }
  }

  lemma ItemsStep(a: seq<Ch>, s: string, b: seq<Ch>, t: string)
    requires ValidItems(a) && ValidItems(b) && a != [] && b != [] && ShowItems(a) + s == ShowItems(b) + t
    ensures a[0] == b[0] && ValidItems(a[1..]) && ValidItems(b[1..]) && ShowItems(a[1..]) + s == ShowItems(b[1..]) + t
  {
    Associate(ShowCh(a[0]), ShowItems(a[1..]), s);
    Associate(ShowCh(b[0]), ShowItems(b[1..]), t);
    ChUnique(a[0], ShowItems(a[1..]) + s, b[0], ShowItems(b[1..]) + t);
    assert ValidItems(a[1..]) by { assert forall ch :: ch in a[1..] ==> ch in a; }
    assert ValidItems(b[1..]) by { assert forall ch :: ch in b[1..] ==> ch in b; }
  }

  lemma Associate(s: string, t: string, u: string)
    ensures (s + t) + u == s + (t + u)
  {
  }

  /** No character of a string is written with a quote first. */
  lemma FirstIsNoQuote(a: seq<Ch>)
    requires ValidItems(a)
    ensures a != [] ==> ShowItems(a) != [] && ShowItems(a)[0] != '"'
  {
    if a != [] {
      assert ValidCh(a[0]);
      assert ShowItems(a)[0] == ShowCh(a[0])[0];
    }
  }

  lemma OneEnds(a: seq<Ch>, s: string, b: seq<Ch>, t: string)
    requires ValidItems(a) && ValidItems(b) && ShowItems(a) + ("\"" + s) == ShowItems(b) + ("\"" + t)
    requires a == [] || b == []
    ensures a == b && s == t
  {
    var x, y := ShowItems(a) + ("\"" + s), ShowItems(b) + ("\"" + t);
    FirstIsNoQuote(a);
    FirstIsNoQuote(b);
    assert x[0] == y[0];
    assert a == [] && b == [];
    assert x == ['"'] + s && y == ['"'] + t;
    SameHead('"', s, '"', t);
  }

  lemma StringUnique(a: seq<Ch>, s: string, b: seq<Ch>, t: string)
    requires ValidItems(a) && ValidItems(b) && ShowString(a) + s == ShowString(b) + t
    ensures a == b && s == t
  {
    assert ShowString(a) + s == ['"'] + (ShowItems(a) + ("\"" + s));
    assert ShowString(b) + t == ['"'] + (ShowItems(b) + ("\"" + t));
    SameHead('"', ShowItems(a) + ("\"" + s), '"', ShowItems(b) + ("\"" + t));
    ItemsUnique(a, s, b, t);
  }

  // ------------------------------------------------------------ numbers

  predicate IsNumberChar(c: char) {
    IsDigit(c) || c == '.' || c == 'e' || c == 'E' || c == '+' || c == '-'
  }

  function Sign(n: Number): string { if n.minus then "-" else "" }

  function Fraction(n: Number): string { if n.fraction.Some? then ['.'] + n.fraction.value else "" }

  function Power(n: Number): string {
    if n.exponent.Some? then [n.exponent.value.e] + (n.exponent.value.sign + n.exponent.value.digits) else ""
  }

  lemma NumberSplit(n: Number, s: string)
    ensures ShowNumber(n) + s == Sign(n) + (n.digits + (Fraction(n) + (Power(n) + s)))
  {
    assert ShowNumber(n) == ((Sign(n) + n.digits) + Fraction(n)) + Power(n);
    FourParts(Sign(n), n.digits, Fraction(n), Power(n), s);
  }

  lemma FourParts(a: string, b: string, c: string, d: string, s: string)
    ensures (((a + b) + c) + d) + s == a + (b + (c + (d + s)))
  {
  }

  lemma DigitsBegin(a: string, s: string)
    requires IsDigits(a)
    ensures a + s != [] && IsDigit((a + s)[0])
  {
    assert a[0] in a;
  }

  /** What follows the digits of a number is no digit. */
  lemma PartsStop(n: Number, s: string)
    requires ValidNumber(n) && Stops(s, IsNumberChar)
    ensures Stops(Power(n) + s, IsDigit) && Stops(Fraction(n) + (Power(n) + s), IsDigit)
    ensures n.fraction.Some? <==> Fraction(n) + (Power(n) + s) != [] && (Fraction(n) + (Power(n) + s))[0] == '.'
    ensures n.exponent.Some? <==> Power(n) + s != [] && ((Power(n) + s)[0] == 'e' || (Power(n) + s)[0] == 'E')
  {
    if n.exponent.Some? { assert (Power(n) + s)[0] == n.exponent.value.e; } else { assert Power(n) + s == s; }
    var rest := Power(n) + s;
    if n.fraction.Some? { assert (Fraction(n) + rest)[0] == '.'; } else { assert Fraction(n) + rest == rest; }
  }

  lemma NumberUnique(a: Number, s: string, b: Number, t: string)
    requires ValidNumber(a) && ValidNumber(b) && Stops(s, IsNumberChar) && Stops(t, IsNumberChar)
    requires ShowNumber(a) + s == ShowNumber(b) + t
    ensures a == b && s == t
  {
    NumberSplit(a, s);
    NumberSplit(b, t);
    var x, y := Fraction(a) + (Power(a) + s), Fraction(b) + (Power(b) + t);
    SignUnique(a, a.digits + x, b, b.digits + y);
    PartsStop(a, s);
    PartsStop(b, t);
    DigitsUnique(a.digits, x, b.digits, y);
    FractionUnique(a, Power(a) + s, b, Power(b) + t);
    PowerUnique(a, s, b, t);
  }

  lemma SignUnique(a: Number, s: string, b: Number, t: string)
    requires s != [] && t != [] && IsDigit(s[0]) && IsDigit(t[0]) && Sign(a) + s == Sign(b) + t
    ensures a.minus == b.minus && s == t
  {
    assert (Sign(a) + s)[0] == (if a.minus then '-' else s[0]);
    assert (Sign(b) + t)[0] == (if b.minus then '-' else t[0]);
    SameFront(Sign(a), s, Sign(b), t);
  }

  lemma FractionUnique(a: Number, s: string, b: Number, t: string)
    requires ValidNumber(a) && ValidNumber(b) && a.fraction.Some? == b.fraction.Some?
    requires Stops(s, IsDigit) && Stops(t, IsDigit) && Fraction(a) + s == Fraction(b) + t
    ensures a.fraction == b.fraction && s == t
  {
    if a.fraction.Some? {
      Associate(['.'], a.fraction.value, s);
      Associate(['.'], b.fraction.value, t);
      SameHead('.', a.fraction.value + s, '.', b.fraction.value + t);
      DigitsUnique(a.fraction.value, s, b.fraction.value, t);
    } else {
      assert Fraction(a) + s == s && Fraction(b) + t == t;
    }
  }

  lemma PowerUnique(a: Number, s: string, b: Number, t: string)
    requires ValidNumber(a) && ValidNumber(b) && a.exponent.Some? == b.exponent.Some?
    requires Stops(s, IsNumberChar) && Stops(t, IsNumberChar) && Power(a) + s == Power(b) + t
    ensures a.exponent == b.exponent && s == t
  {
    if a.exponent.Some? {
      var p, q := a.exponent.value, b.exponent.value;
      Three([p.e], p.sign, p.digits, s);
      Three([q.e], q.sign, q.digits, t);
      SameHead(p.e, p.sign + (p.digits + s), q.e, q.sign + (q.digits + t));
      DigitsBegin(p.digits, s);
      DigitsBegin(q.digits, t);
      PowerSignUnique(p.sign, p.digits + s, q.sign, q.digits + t);
      DigitsUnique(p.digits, s, q.digits, t);
    } else {
      assert Power(a) + s == s && Power(b) + t == t;
    }
  }

  lemma Three(a: string, b: string, c: string, s: string)
    ensures (a + (b + c)) + s == a + (b + (c + s))
  {
  }

  lemma PowerSignUnique(a: string, s: string, b: string, t: string)
    requires a == "" || a == "+" || a == "-"
    requires b == "" || b == "+" || b == "-"
    requires s != [] && t != [] && IsDigit(s[0]) && IsDigit(t[0]) && a + s == b + t
    ensures a == b && s == t
  {
    assert (a + s)[0] == (if a == "" then s[0] else a[0]);
    assert (b + t)[0] == (if b == "" then t[0] else b[0]);
    SameFront(a, s, b, t);
  }

  // ------------------------------------------------------------ values

  /** What may follow a value: a character that no number continues with, or nothing. */
  predicate Ends(s: string) {
    Stops(s, IsNumberChar)
  }

  datatype Shape = AWord | ANumber | AString | AList | AnObject | NoValue

  function ShapeOf(d: Doc): Shape {
    match d
    case Word(_) => AWord
    case Num(_) => ANumber
    case Str(_) => AString
    case NoElems(_) => AList
    case Arr(_) => AList
    case NoMembers(_) => AnObject
    case Obj(_) => AnObject
  }

  function Opening(c: char): Shape {
    if c == '"' then AString
    else if c == '[' then AList
    else if c == '{' then AnObject
    else if c == '-' || IsDigit(c) then ANumber
    else if c == 't' || c == 'f' || c == 'n' then AWord
    else NoValue
  }

  /** The first character decides what kind of value it is. */
  lemma FirstDecides(d: Doc, s: string)
    requires Valid(d)
    ensures Show(d) + s != [] && Opening((Show(d) + s)[0]) == ShapeOf(d)
  {
    match d
    case Num(n) =>
      NumberSplit(n, s);
      DigitsBegin(n.digits, Fraction(n) + (Power(n) + s));
      assert (Sign(n) + (n.digits + (Fraction(n) + (Power(n) + s))))[0]
          == if n.minus then '-' else (n.digits + (Fraction(n) + (Power(n) + s)))[0];
    case _ =>
  }

  lemma WordUnique(a: string, s: string, b: string, t: string)
    requires a == "true" || a == "false" || a == "null"
    requires b == "true" || b == "false" || b == "null"
    requires a + s == b + t
    ensures a == b && s == t
  {
    assert (a + s)[0] == a[0] && (b + t)[0] == b[0];
    SameFront(a, s, b, t);
  }

  lemma {:induction false} DocUnique(d: Doc, s: string, e: Doc, t: string)
    requires Valid(d) && Valid(e) && Ends(s) && Ends(t) && Show(d) + s == Show(e) + t
    ensures d == e && s == t
    decreases d, 1
  {
    FirstDecides(d, s);
    FirstDecides(e, t);
    match d
    case Word(a) => WordUnique(a, s, e.text, t);
    case Num(n) => NumberUnique(n, s, e.number, t);
    case Str(items) => StringUnique(items, s, e.items, t);
    case NoElems(_) => ListUnique(d, s, e, t);
    case Arr(_) => ListUnique(d, s, e, t);
    case NoMembers(_) => ObjectUnique(d, s, e, t);
    case Obj(_) => ObjectUnique(d, s, e, t);
  }

  /** What stands between the brackets or braces. */
  function Inner(d: Doc): string {
    match d
    case NoElems(gap) => gap
    case Arr(es) => ShowElems(es)
    case NoMembers(gap) => gap
    case Obj(ms) => ShowMembers(ms)
    case _ => ""
  }

  lemma Stripped(open: char, a: string, b: string, close: string, s: string, t: string)
    requires ([open] + (a + close)) + s == ([open] + (b + close)) + t
    ensures a + (close + s) == b + (close + t)
  {
    Three([open], a, close, s);
    Three([open], b, close, t);
    SameHead(open, a + (close + s), open, b + (close + t));
  }

  lemma {:induction false} ListUnique(d: Doc, s: string, e: Doc, t: string)
    requires Valid(d) && Valid(e) && ShapeOf(d).AList? && ShapeOf(e).AList? && Show(d) + s == Show(e) + t
    ensures d == e && s == t
    decreases d, 0
  {
    Stripped('[', Inner(d), Inner(e), "]", s, t);
    var x, y := "]" + s, "]" + t;
    if d.NoElems? || e.NoElems? {
      EmptyList(d, x, e, y);
    } else {
      ElemsUnique(d.elems, x, e.elems, y);
    }
    SameFront("]", s, "]", t);
  }

  /** Whitespace and the closing bracket: the list is empty. */
  lemma EmptyList(d: Doc, s: string, e: Doc, t: string)
    requires Valid(d) && Valid(e) && ShapeOf(d).AList? && ShapeOf(e).AList? && (d.NoElems? || e.NoElems?)
    requires s != [] && t != [] && s[0] == ']' && t[0] == ']' && Inner(d) + s == Inner(e) + t
    ensures d == e && s == t
  {
    var a := if d.NoElems? then s else AfterGap(d.elems, s);
    var b := if e.NoElems? then t else AfterGap(e.elems, t);
    if d.Arr? { ElemsSplit(d.elems, s); }
    if e.Arr? { ElemsSplit(e.elems, t); }
    GapUnique(if d.NoElems? then d.gap else d.elems.before, a, if e.NoElems? then e.gap else e.elems.before, b);
  }

  // ------------------------------------------------------------ elements

  function RestOf(es: Elems, s: string): string {
    if es.rest.Some? then [','] + (ShowElems(es.rest.value) + s) else s
  }

  function AfterGap(es: Elems, s: string): string {
    Show(es.value) + (es.after + RestOf(es, s))
  }

  lemma ElemsSplit(es: Elems, s: string)
    requires ValidElems(es)
    ensures ShowElems(es) + s == es.before + AfterGap(es, s)
    ensures AfterGap(es, s) != [] && !IsBlank(AfterGap(es, s)[0]) && AfterGap(es, s)[0] != ']'
  {
    FirstDecides(es.value, es.after + RestOf(es, s));
    var more := if es.rest.Some? then "," + ShowElems(es.rest.value) else "";
    FourMore(es.before, Show(es.value), es.after, more, s);
    if es.rest.Some? {
      Associate([','], ShowElems(es.rest.value), s);
    } else {
      assert more + s == s;
    }
  }

  lemma FourMore(a: string, b: string, c: string, d: string, s: string)
    ensures (a + (b + (c + d))) + s == a + (b + (c + (d + s)))
  {
  }

  lemma GapEnds(gap: string, s: string)
    requires IsGap(gap) && Ends(s)
    ensures Ends(gap + s)
  {
    if gap == [] { assert gap + s == s; } else { assert gap[0] in gap && (gap + s)[0] == gap[0]; }
  }

  lemma {:induction false} ElemsUnique(a: Elems, s: string, b: Elems, t: string)
    requires ValidElems(a) && ValidElems(b) && s != [] && t != [] && s[0] == ']' && t[0] == ']'
    requires ShowElems(a) + s == ShowElems(b) + t
    ensures a == b && s == t
    decreases a, 0
  {
    ElemsSplit(a, s);
    ElemsSplit(b, t);
    var x, y := RestOf(a, s), RestOf(b, t);
    GapUnique(a.before, AfterGap(a, s), b.before, AfterGap(b, t));
    GapEnds(a.after, x);
    GapEnds(b.after, y);
    DocUnique(a.value, a.after + x, b.value, b.after + y);
    GapUnique(a.after, x, b.after, y);
    assert x[0] == y[0];
    if a.rest.Some? {
      SameHead(',', ShowElems(a.rest.value) + s, ',', ShowElems(b.rest.value) + t);
      ElemsUnique(a.rest.value, s, b.rest.value, t);
    }
  }

  // ------------------------------------------------------------ members

  lemma {:induction false} ObjectUnique(d: Doc, s: string, e: Doc, t: string)
    requires Valid(d) && Valid(e) && ShapeOf(d).AnObject? && ShapeOf(e).AnObject? && Show(d) + s == Show(e) + t
    ensures d == e && s == t
    decreases d, 0
  {
    Stripped('{', Inner(d), Inner(e), "}", s, t);
    var x, y := "}" + s, "}" + t;
    if d.NoMembers? || e.NoMembers? {
      EmptyObject(d, x, e, y);
    } else {
      MembersUnique(d.members, x, e.members, y);
    }
    SameFront("}", s, "}", t);
  }

  lemma EmptyObject(d: Doc, s: string, e: Doc, t: string)
    requires Valid(d) && Valid(e) && ShapeOf(d).AnObject? && ShapeOf(e).AnObject? && (d.NoMembers? || e.NoMembers?)
    requires s != [] && t != [] && s[0] == '}' && t[0] == '}' && Inner(d) + s == Inner(e) + t
    ensures d == e && s == t
  {
    var a := if d.NoMembers? then s else FromKey(d.members, s);
    var b := if e.NoMembers? then t else FromKey(e.members, t);
    if d.Obj? { MembersSplit(d.members, s); }
    if e.Obj? { MembersSplit(e.members, t); }
    GapUnique(if d.NoMembers? then d.gap else d.members.before, a, if e.NoMembers? then e.gap else e.members.before, b);
  }

  function MoreOf(ms: Members, s: string): string {
    if ms.rest.Some? then [','] + (ShowMembers(ms.rest.value) + s) else s
  }

  function FromValue(ms: Members, s: string): string {
    Show(ms.value) + (ms.after + MoreOf(ms, s))
  }

  function FromKey(ms: Members, s: string): string {
    ShowString(ms.key) + (ms.colon + ([':'] + (ms.gap + FromValue(ms, s))))
  }

  lemma MembersSplit(ms: Members, s: string)
    requires ValidMembers(ms)
    ensures ShowMembers(ms) + s == ms.before + FromKey(ms, s)
    ensures FromKey(ms, s) != [] && FromKey(ms, s)[0] == '"'
    ensures FromValue(ms, s) != [] && !IsBlank(FromValue(ms, s)[0])
  {
    FirstDecides(ms.value, ms.after + MoreOf(ms, s));
    var more := if ms.rest.Some? then "," + ShowMembers(ms.rest.value) else "";
    var tail := ms.gap + (Show(ms.value) + (ms.after + more));
    FourMore(ms.before, ShowString(ms.key), ms.colon, ":" + tail, s);
    Associate(":", tail, s);
    FourMore(ms.gap, Show(ms.value), ms.after, more, s);
    if ms.rest.Some? {
      Associate([','], ShowMembers(ms.rest.value), s);
    } else {
      assert more + s == s;
    }
  }

  lemma {:induction false} MembersUnique(a: Members, s: string, b: Members, t: string)
    requires ValidMembers(a) && ValidMembers(b) && s != [] && t != [] && s[0] == '}' && t[0] == '}'
    requires ShowMembers(a) + s == ShowMembers(b) + t
    ensures a == b && s == t
    decreases a, 0
  {
    MembersSplit(a, s);
    MembersSplit(b, t);
    GapUnique(a.before, FromKey(a, s), b.before, FromKey(b, t));
    var v, w := FromValue(a, s), FromValue(b, t);
    KeyUnique(a, v, b, w);
    var x, y := MoreOf(a, s), MoreOf(b, t);
    GapEnds(a.after, x);
    GapEnds(b.after, y);
    DocUnique(a.value, a.after + x, b.value, b.after + y);
    GapUnique(a.after, x, b.after, y);
    assert x[0] == y[0];
    if a.rest.Some? {
      SameHead(',', ShowMembers(a.rest.value) + s, ',', ShowMembers(b.rest.value) + t);
      MembersUnique(a.rest.value, s, b.rest.value, t);
    }
  }

  /** The key of a member, up to its value. */
  lemma KeyUnique(a: Members, s: string, b: Members, t: string)
    requires ValidItems(a.key) && ValidItems(b.key) && IsGap(a.colon) && IsGap(b.colon) && IsGap(a.gap) && IsGap(b.gap)
    requires s != [] && t != [] && !IsBlank(s[0]) && !IsBlank(t[0])
    requires ShowString(a.key) + (a.colon + ([':'] + (a.gap + s)))
          == ShowString(b.key) + (b.colon + ([':'] + (b.gap + t)))
    ensures a.key == b.key && a.colon == b.colon && a.gap == b.gap && s == t
  {
    var x, y := [':'] + (a.gap + s), [':'] + (b.gap + t);
    StringUnique(a.key, a.colon + x, b.key, b.colon + y);
    GapUnique(a.colon, x, b.colon, y);
    SameHead(':', a.gap + s, ':', b.gap + t);
    GapUnique(a.gap, s, b.gap, t);
  }

  // ------------------------------------------------------------ the main result

  /** A text is printed by one tree. */
  lemma ShowDecides(d: Doc, e: Doc)
    requires Valid(d) && Valid(e) && Show(d) == Show(e)
    ensures d == e
  {
    assert Show(d) + "" == Show(d) && Show(e) + "" == Show(e);
    DocUnique(d, "", e, "");
  }
}
