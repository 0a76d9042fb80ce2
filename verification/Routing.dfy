/** Workspace and session keys. A Python string is a sequence of code points, which may be lone
    surrogates; a key is the text that names a Workspace. */
module Routing {
  import opened Options

  type CodePoint = c: int | 0 <= c <= 0x10FFFF

  type Text = seq<CodePoint>

  /** One UTF-16 code unit. */
  type Unit = u: int | 0 <= u <= 0xFFFF

  function Of(s: string): (t: Text)
    ensures |t| == |s| && forall i :: 0 <= i < |s| ==> t[i] == s[i] as int
  {
    seq(|s|, i requires 0 <= i < |s| => s[i] as int)
  }

  const QUOTE := 34
  const BACKSLASH := 92
  const COMMA := 44
  const COLON := 58

  // ------------------------------------------------------------ how json.dumps writes a string

  predicate IsHigh(u: int) { 0xD800 <= u <= 0xDBFF }
  predicate IsLow(u: int) { 0xDC00 <= u <= 0xDFFF }

  /** A code point as UTF-16 units: one, or a surrogate pair. */
  function UnitsOf(c: CodePoint): (us: seq<Unit>)
    ensures 1 <= |us| <= 2
  {
    if c < 0x10000 then [c] else [0xD800 + (c - 0x10000) / 0x400, 0xDC00 + (c - 0x10000) % 0x400]
  }

  function Units(s: Text): seq<Unit> {
    if s == [] then [] else UnitsOf(s[0]) + Units(s[1..])
  }

  function Hex(d: int): CodePoint
    requires 0 <= d < 16
  {
    if d < 10 then 48 + d else 87 + d
  }

  /** One unit as it is written: itself, a short escape, or four hexadecimal digits. */
  function Written(u: Unit): Text {
    if u == QUOTE then [BACKSLASH, QUOTE]
    else if u == BACKSLASH then [BACKSLASH, BACKSLASH]
    else if u == 10 then [BACKSLASH, 110]
    else if u == 13 then [BACKSLASH, 114]
    else if u == 9 then [BACKSLASH, 116]
    else if u == 12 then [BACKSLASH, 102]
    else if u == 8 then [BACKSLASH, 98]
    else if 32 <= u <= 126 then [u]
    else [BACKSLASH, 117, Hex(u / 4096), Hex(u / 256 % 16), Hex(u / 16 % 16), Hex(u % 16)]
  }

  function WrittenAll(us: seq<Unit>): Text {
    if us == [] then [] else Written(us[0]) + WrittenAll(us[1..])
  }

  function Dumps(s: Text): Text {
    [QUOTE] + (WrittenAll(Units(s)) + [QUOTE])
  }

  /** `json.dumps([a, b], separators=(",", ":"))`. */
  function DumpsPair(a: Text, b: Text): Text {
    [91] + (Dumps(a) + ([COMMA] + (Dumps(b) + [93])))
  }

  /** The spelling of every unit: printable ones as they are, five short escapes, and four lower-case
      hexadecimal digits for all others. */
  lemma EveryUnitSpelled(u: Unit)
    ensures u == 34 ==> Written(u) == Of("\\\"")
    ensures u == 92 ==> Written(u) == Of("\\\\")
    ensures u == 10 ==> Written(u) == Of("\\n")
    ensures u == 13 ==> Written(u) == Of("\\r")
    ensures u == 9 ==> Written(u) == Of("\\t")
    ensures u == 12 ==> Written(u) == Of("\\f")
    ensures u == 8 ==> Written(u) == Of("\\b")
    ensures 32 <= u <= 126 && u != 34 && u != 92 ==> Written(u) == [u]
    ensures (u < 32 && u !in [8, 9, 10, 12, 13]) || u > 126 ==>
              Written(u) == Of("\\u" + [DIGITS[u / 4096], DIGITS[u / 256 % 16], DIGITS[u / 16 % 16], DIGITS[u % 16]])
  {
    HexIsLower(u / 4096);
    HexIsLower(u / 256 % 16);
    HexIsLower(u / 16 % 16);
    HexIsLower(u % 16);
  }

  lemma HexIsLower(d: int)
    requires 0 <= d < 16
    ensures Hex(d) == DIGITS[d] as int
  {
  }

  const DIGITS := "0123456789abcdef"

  /** The pair is written as an array of two strings without blanks. */
  lemma PairSpelled(a: Text, b: Text)
    ensures DumpsPair(a, b)
         == Of("[\"") + WrittenAll(Units(a)) + Of("\",\"") + WrittenAll(Units(b)) + Of("\"]")
  {
    Flattened(WrittenAll(Units(a)), WrittenAll(Units(b)));
    assert Of("[\"") == [91, 34] && Of("\",\"") == [34, 44, 34] && Of("\"]") == [34, 93];
  }

  lemma Flattened(x: Text, y: Text)
    ensures [91] + (([34] + (x + [34])) + ([44] + (([34] + (y + [34])) + [93])))
         == [91, 34] + x + [34, 44, 34] + y + [34, 93]
  {
  }

  // ------------------------------------------------------------ reading it back

  lemma HexDecides(u: Unit, v: Unit)
    requires Hex(u / 4096) == Hex(v / 4096) && Hex(u / 256 % 16) == Hex(v / 256 % 16)
    requires Hex(u / 16 % 16) == Hex(v / 16 % 16) && Hex(u % 16) == Hex(v % 16)
    ensures u == v
  {
    Digits(u);
    Digits(v);
  }

  lemma Digits(u: Unit)
    ensures u == 4096 * (u / 4096) + 256 * (u / 256 % 16) + 16 * (u / 16 % 16) + u % 16
    ensures 0 <= u / 4096 < 16
  {
    assert u / 16 == 16 * (u / 256) + u / 16 % 16 by { assert u / 16 / 16 == u / 256; }
    assert u / 256 == 16 * (u / 4096) + u / 256 % 16 by { assert u / 256 / 16 == u / 4096; }
  }

  /** The first written unit of a text decides itself and what follows. */
  lemma FirstUnit(u: Unit, v: Unit, x: Text, y: Text)
    requires Written(u) + x == Written(v) + y
    ensures u == v && x == y
  {
    var s, t := Written(u) + x, Written(v) + y;
    assert s[0] == Written(u)[0] && t[0] == Written(v)[0];
    if |Written(u)| > 1 && |Written(v)| > 1 {
      assert s[1] == Written(u)[1] && t[1] == Written(v)[1];
      if |Written(u)| == 6 && |Written(v)| == 6 {
        assert s[2] == Hex(u / 4096) && t[2] == Hex(v / 4096);
        assert s[3] == Hex(u / 256 % 16) && t[3] == Hex(v / 256 % 16);
        assert s[4] == Hex(u / 16 % 16) && t[4] == Hex(v / 16 % 16);
        assert s[5] == Hex(u % 16) && t[5] == Hex(v % 16);
        HexDecides(u, v);
      }
    }
    assert u == v;
    assert x == s[|Written(u)|..] && y == t[|Written(v)|..];
  }

  lemma BareQuote(us: seq<Unit>, x: Text)
    ensures (WrittenAll(us) + ([QUOTE] + x))[0] == QUOTE <==> us == []
  {
    if us != [] { assert (WrittenAll(us) + ([QUOTE] + x))[0] == Written(us[0])[0]; }
  }

  /** A written string ends at its first bare quote, so it decides its units and what follows. */
  lemma {:induction false} WrittenDecides(us: seq<Unit>, vs: seq<Unit>, x: Text, y: Text)
    requires WrittenAll(us) + ([QUOTE] + x) == WrittenAll(vs) + ([QUOTE] + y)
    ensures us == vs && x == y
  {
    BareQuote(us, x);
    BareQuote(vs, y);
    if us == [] && vs == [] {
      assert ([QUOTE] + x)[1..] == x && ([QUOTE] + y)[1..] == y;
      assert [] + ([QUOTE] + x) == [QUOTE] + x && [] + ([QUOTE] + y) == [QUOTE] + y;
    } else if us == [] || vs == [] {
      assert false;
    } else {
      SplitFirst(us, x);
      SplitFirst(vs, y);
      FirstUnit(us[0], vs[0], WrittenAll(us[1..]) + ([QUOTE] + x), WrittenAll(vs[1..]) + ([QUOTE] + y));
      WrittenDecides(us[1..], vs[1..], x, y);
      SameSplit(us, vs);
    }
  }

  lemma SplitFirst(us: seq<Unit>, x: Text)
    requires us != []
    ensures WrittenAll(us) + ([QUOTE] + x) == Written(us[0]) + (WrittenAll(us[1..]) + ([QUOTE] + x))
  {
  }

  lemma SameSplit(us: seq<Unit>, vs: seq<Unit>)
    requires us != [] && vs != [] && us[0] == vs[0] && us[1..] == vs[1..]
    ensures us == vs
  {
    assert us == [us[0]] + us[1..] && vs == [vs[0]] + vs[1..];
  }

  lemma StartsWithQuote(s: Text, x: Text)
    ensures Dumps(s) + x == [QUOTE] + (WrittenAll(Units(s)) + ([QUOTE] + x))
  {
  }

  lemma DumpsDecides(a: Text, b: Text, x: Text, y: Text)
    requires Dumps(a) + x == Dumps(b) + y
    ensures Units(a) == Units(b) && x == y
  {
    StartsWithQuote(a, x);
    StartsWithQuote(b, y);
    var s, t := WrittenAll(Units(a)) + ([QUOTE] + x), WrittenAll(Units(b)) + ([QUOTE] + y);
    assert ([QUOTE] + s)[1..] == s && ([QUOTE] + t)[1..] == t;
    WrittenDecides(Units(a), Units(b), x, y);
  }

  /** Two pairs are written alike exactly when their strings agree unit by unit, for all strings. */
  lemma PairsWrittenAlike(a: Text, b: Text, a': Text, b': Text)
    ensures DumpsPair(a, b) == DumpsPair(a', b') <==> Units(a) == Units(a') && Units(b) == Units(b')
  {
    if DumpsPair(a, b) == DumpsPair(a', b') {
      var x, y := [COMMA] + (Dumps(b) + [93]), [COMMA] + (Dumps(b') + [93]);
      assert DumpsPair(a, b)[1..] == Dumps(a) + x && DumpsPair(a', b')[1..] == Dumps(a') + y;
      DumpsDecides(a, a', x, y);
      assert x[1..] == Dumps(b) + [93] && y[1..] == Dumps(b') + [93];
      DumpsDecides(b, b', [93], [93]);
    }
  }

  // ------------------------------------------------------------ which strings the units decide

  /** No high surrogate directly before a low one. Every valid Unicode string is of this kind. */
  ghost predicate NoPair(s: Text) {
    forall i, j :: 0 <= i < j < |s| && j == i + 1 ==> !(IsHigh(s[i]) && IsLow(s[j]))
  }

  lemma FirstCodePoint(c: CodePoint, d: CodePoint, x: seq<Unit>, y: seq<Unit>)
    requires UnitsOf(c) + x == UnitsOf(d) + y
    requires IsHigh(c) ==> x == [] || !IsLow(x[0])
    requires IsHigh(d) ==> y == [] || !IsLow(y[0])
    ensures c == d && x == y
  {
    var s, t := UnitsOf(c) + x, UnitsOf(d) + y;
    assert s[0] == UnitsOf(c)[0] && t[0] == UnitsOf(d)[0];
    if c >= 0x10000 { assert s[1] == UnitsOf(c)[1]; }
    if d >= 0x10000 { assert t[1] == UnitsOf(d)[1]; }
    assert d < 0x10000 && |y| > 0 ==> t[1] == y[0];
    assert c < 0x10000 && |x| > 0 ==> s[1] == x[0];
    assert c >= 0x10000 <==> d >= 0x10000;
    assert c == d;
    assert x == s[|UnitsOf(c)|..] && y == t[|UnitsOf(d)|..];
  }

  lemma FirstOfRest(s: Text)
    requires |s| > 1 && NoPair(s) && IsHigh(s[0])
    ensures Units(s[1..]) != [] && !IsLow(Units(s[1..])[0])
  {
    var j := 1;
    assert !IsLow(s[j]);
    assert s[1..][0] == s[j];
    assert Units(s[1..])[0] == UnitsOf(s[j])[0];
  }

  lemma {:induction false} UnitsDecide(s: Text, t: Text)
    requires NoPair(s) && NoPair(t) && Units(s) == Units(t)
    ensures s == t
  {
    if s != [] && t != [] {
      if IsHigh(s[0]) && |s| > 1 { FirstOfRest(s); }
      if IsHigh(t[0]) && |t| > 1 { FirstOfRest(t); }
      FirstCodePoint(s[0], t[0], Units(s[1..]), Units(t[1..]));
      NoPairTail(s);
      NoPairTail(t);
      UnitsDecide(s[1..], t[1..]);
      assert s == [s[0]] + s[1..] && t == [t[0]] + t[1..];
    }
  }

  lemma NoPairTail(s: Text)
    requires s != [] && NoPair(s)
    ensures NoPair(s[1..])
  {
    forall i, j | 0 <= i < j < |s[1..]| && j == i + 1 ensures !(IsHigh(s[1..][i]) && IsLow(s[1..][j])) {
      var i', j' := i + 1, j + 1;
      assert s[1..][i] == s[i'] && s[1..][j] == s[j'];
    }
  }

  /** The pair encoding is injective over all strings without a split surrogate pair. */
  lemma PairKeyIsInjective(a: Text, b: Text, a': Text, b': Text)
    requires NoPair(a) && NoPair(b) && NoPair(a') && NoPair(b')
    ensures DumpsPair(a, b) == DumpsPair(a', b') <==> a == a' && b == b'
  {
    PairsWrittenAlike(a, b, a', b');
    if Units(a) == Units(a') && Units(b) == Units(b') {
      UnitsDecide(a, a');
      UnitsDecide(b, b');
    }
  }

  /** Over all strings it is not: an astral character and its two surrogates are written alike. */
  lemma SplitPairsCollide(a: Text)
    ensures [0x1F600] != [0xD83D, 0xDE00]
    ensures DumpsPair(a, [0x1F600]) == DumpsPair(a, [0xD83D, 0xDE00])
  {
    var s, t := [0x1F600], [0xD83D, 0xDE00];
    assert s[1..] == [] && t[1..] == [0xDE00] && t[1..][1..] == [];
    assert Units(s) == [0xD83D, 0xDE00] && Units(t) == [0xD83D, 0xDE00];
  }

  // ------------------------------------------------------------ routing

  datatype Source =
    | Gitlab(project: Option<Text>, mergeRequest: Option<Text>, issue: Option<Text>)
    | Github(repo: Option<Text>, number: Option<int>)
    | Other

  datatype Kind = Webhook | Queue | A2a | Cron

  datatype Event = Event(source: Source, tick: Option<Text>, task: Option<Text>, context: Option<Text>)

  /** `routing.workspaceKey`: absent, the keyword for one Workspace per session, or a template. */
  datatype Override = NoOverride | PerSession | Template(text: Text)

  datatype Channel = Channel(name: Text, kind: Kind, workspaceKey: Override, sessionKey: Option<Text>)

  datatype Routed = Routed(workspaceKey: Text, sessionKey: Text) | Rejected

  predicate IsBlank(s: Text) {
    forall c <- s :: c == 32 || 9 <= c <= 13 || 28 <= c <= 31 || c == 0x85 || c == 0xA0 || c == 0x1680
      || 0x2000 <= c <= 0x200A || c == 0x2028 || c == 0x2029 || c == 0x202F || c == 0x205F || c == 0x3000
  }

  const BLANKS := [
    9, 10, 11, 12, 13, 28, 29, 30, 31, 32, 133, 160, 5760, 8192, 8193, 8194, 8195, 8196, 8197, 8198, 8199, 8200,
    8201, 8202, 8232, 8233, 8239, 8287, 12288]

  /** The blanks of a string, one by one. */
  lemma BlankIff(s: Text)
    ensures IsBlank(s) <==> forall c <- s :: c in BLANKS
  {
  }

  function Domain(e: Event, c: Channel): string {
    if e.source.Gitlab? then "gitlab" else if e.source.Github? then "github"
    else match c.kind case Webhook => "webhook" case Queue => "queue" case A2a => "a2a" case Cron => "cron"
  }

  function Keyed(domain: string, name: Text): Text {
    Of(domain) + ([COLON] + name)
  }

  function DefaultWorkspaceKey(e: Event, c: Channel): Option<Text> {
    match e.source
    case Gitlab(project, _, _) =>
      if project.None? then None else Some(Keyed("gitlab", c.name + ([COLON] + project.value)))
    case Github(repo, _) =>
      if repo.None? || IsBlank(repo.value) then None else Some(Keyed("github", c.name + ([COLON] + repo.value)))
    case Other => Some(Keyed(Domain(e, c), c.name))
  }

  function DefaultSessionKey(e: Event, c: Channel): Option<Text> {
    match e.source
    case Gitlab(_, mergeRequest, issue) =>
      if mergeRequest.Some? then Some(Keyed("mr", mergeRequest.value))
      else if issue.Some? then Some(Keyed("issue", issue.value)) else None
    case Github(_, number) =>
      if number.None? || number.value <= 0 then None else Some(Keyed("pr", Decimal(number.value)))
    case Other =>
      if c.kind.Cron? then (if e.tick.None? || e.tick.value == [] then None else e.tick)
      else if c.kind.A2a? then
        Some(if e.context.Some? && e.context.value != [] then e.context.value
             else if e.task.Some? then e.task.value else [])
      else None
  }

  /** A template that cannot be rendered, or renders to nothing, rejects the event. */
  function Rendered(render: Text -> Option<Text>, template: Text): Option<Text> {
    var r := render(template);
    if r.None? || r.value == [] then None else r
  }

  /** `render` is the template library in the context of this event. */
  function Route(e: Event, c: Channel, render: Text -> Option<Text>): Routed {
    var session := if c.sessionKey.Some? then Rendered(render, c.sessionKey.value) else DefaultSessionKey(e, c);
    if session.None? then Rejected
    else
      var workspace := match c.workspaceKey
        case PerSession =>
          var w := DefaultWorkspaceKey(e, c);
          if w.None? then None else Some(DumpsPair(w.value, session.value))
        case Template(t) => Rendered(render, t)
        case NoOverride => DefaultWorkspaceKey(e, c);
      if workspace.None? then Rejected else Routed(workspace.value, session.value)
  }

  // ------------------------------------------------------------ decimal numbers

  function Numeral(n: nat): Text {
    (if n < 10 then [] else Numeral(n / 10)) + [48 + n % 10]
  }

  /** `str` of an integer. */
  function Decimal(n: int): Text {
    if n < 0 then [45] + Numeral(-n) else Numeral(n)
  }

  predicate IsDigit(c: CodePoint) { 48 <= c <= 57 }

  lemma {:induction false} NumeralDigits(n: nat)
    ensures forall i :: 0 <= i < |Numeral(n)| ==> IsDigit(Numeral(n)[i])
    ensures |Numeral(n)| > 0 && (n < 10 <==> |Numeral(n)| == 1)
  {
    if n >= 10 { NumeralDigits(n / 10); }
  }

  lemma {:induction false} NumeralDecides(m: nat, n: nat)
    requires Numeral(m) == Numeral(n)
    ensures m == n
  {
    NumeralDigits(m);
    NumeralDigits(n);
    assert Numeral(m)[|Numeral(m)| - 1] == 48 + m % 10 && Numeral(n)[|Numeral(n)| - 1] == 48 + n % 10;
    if m >= 10 && n >= 10 {
      assert Numeral(m)[..|Numeral(m)| - 1] == Numeral(m / 10) && Numeral(n)[..|Numeral(n)| - 1] == Numeral(n / 10);
      NumeralDecides(m / 10, n / 10);
    }
  }

  lemma DecimalDecides(m: int, n: int)
    requires Decimal(m) == Decimal(n)
    ensures m == n
  {
    NumeralDigits(if m < 0 then -m else m);
    NumeralDigits(if n < 0 then -n else n);
    assert Decimal(m)[0] == 45 <==> m < 0;
    assert Decimal(n)[0] == 45 <==> n < 0;
    if m < 0 && n < 0 {
      assert Decimal(m)[1..] == Numeral(-m) && Decimal(n)[1..] == Numeral(-n);
      NumeralDecides(-m, -n);
    } else if m >= 0 && n >= 0 {
      NumeralDecides(m, n);
    } else {
      assert false;
    }
  }

  lemma NoColonInDecimal(n: int, i: nat)
    requires i < |Decimal(n)|
    ensures Decimal(n)[i] != COLON
  {
    NumeralDigits(if n < 0 then -n else n);
    if n < 0 && i > 0 { assert Decimal(n)[i] == Numeral(-n)[i - 1]; }
  }

  // ------------------------------------------------------------ what the keys decide

  ghost predicate NoColon(s: Text) {
    forall i :: 0 <= i < |s| ==> s[i] != COLON
  }

  lemma OneColon(a: Text, d: Text, j: nat)
    requires NoColon(d)
    ensures |a| < j < |a + ([COLON] + d)| ==> (a + ([COLON] + d))[j] != COLON
  {
    assert |a| < j < |a + ([COLON] + d)| ==> (a + ([COLON] + d))[j] == d[j - |a| - 1];
  }

  lemma LastColon(a: Text, d: Text, b: Text, e: Text)
    requires NoColon(d) && NoColon(e) && a + ([COLON] + d) == b + ([COLON] + e)
    ensures a == b && d == e
  {
    var s, t := a + ([COLON] + d), b + ([COLON] + e);
    assert s[|a|] == COLON && t[|b|] == COLON;
    OneColon(a, d, |b|);
    OneColon(b, e, |a|);
    assert |a| == |b|;
    assert a == s[..|a|] && b == t[..|b|];
    assert d == s[|a| + 1..] && e == t[|b| + 1..];
  }

  lemma KeyedDecides(domain: string, x: Text, y: Text)
    requires Keyed(domain, x) == Keyed(domain, y)
    ensures x == y
  {
    var n := |domain| + 1;
    assert Keyed(domain, x)[n..] == x && Keyed(domain, y)[n..] == y;
  }

  /** A GitLab default key decides the channel and the project: the normalized id has no colon,
      whatever the channel's name holds. */
  lemma GitlabKeyDecides(c: Channel, c': Channel, project: int, project': int, e: Event, e': Event)
    requires e.source.Gitlab? && e.source.project == Some(Decimal(project))
    requires e'.source.Gitlab? && e'.source.project == Some(Decimal(project'))
    ensures DefaultWorkspaceKey(e, c) == DefaultWorkspaceKey(e', c') <==> c.name == c'.name && project == project'
  {
    if DefaultWorkspaceKey(e, c) == DefaultWorkspaceKey(e', c') {
      KeyedDecides("gitlab", c.name + ([COLON] + Decimal(project)), c'.name + ([COLON] + Decimal(project')));
      forall i | 0 <= i < |Decimal(project)| ensures Decimal(project)[i] != COLON { NoColonInDecimal(project, i); }
      forall i | 0 <= i < |Decimal(project')| ensures Decimal(project')[i] != COLON { NoColonInDecimal(project', i); }
      LastColon(c.name, Decimal(project), c'.name, Decimal(project'));
      DecimalDecides(project, project');
    }
  }

  lemma DomainsDiffer(x: Text, y: Text, d: string, d': string)
    requires d == "gitlab" || d == "github" || d == "webhook" || d == "queue" || d == "a2a" || d == "cron"
    requires d' == "gitlab" || d' == "github" || d' == "webhook" || d' == "queue" || d' == "a2a" || d' == "cron"
    requires Keyed(d, x) == Keyed(d', y)
    ensures d == d'
  {
    var k, k' := Keyed(d, x), Keyed(d', y);
    assert k[0] == d[0] as int && k'[0] == d'[0] as int;
    assert k[3] == (if |d| > 3 then d[3] as int else COLON) && k'[3] == (if |d'| > 3 then d'[3] as int else COLON);
  }

  /** In session mode two events share a Workspace exactly when they agree, unit by unit, on both
      their default Workspace and their session. Each renderer closes over the context of its own
      event, so one session template may give two sessions. */
  lemma SessionModeSeparates(e: Event, c: Channel, render: Text -> Option<Text>,
                             e': Event, c': Channel, render': Text -> Option<Text>)
    requires c.workspaceKey.PerSession? && c'.workspaceKey.PerSession?
    requires Route(e, c, render).Routed? && Route(e', c', render').Routed?
    ensures DefaultWorkspaceKey(e, c).Some? && DefaultWorkspaceKey(e', c').Some?
    ensures var r, r' := Route(e, c, render), Route(e', c', render');
      var w, w' := DefaultWorkspaceKey(e, c).value, DefaultWorkspaceKey(e', c').value;
      && (r.workspaceKey == r'.workspaceKey <==> Units(w) == Units(w') && Units(r.sessionKey) == Units(r'.sessionKey))
      && (NoPair(w) && NoPair(w') && NoPair(r.sessionKey) && NoPair(r'.sessionKey) ==>
            (r.workspaceKey == r'.workspaceKey <==> w == w' && r.sessionKey == r'.sessionKey))
  {
    var r, r' := Route(e, c, render), Route(e', c', render');
    var w, w' := DefaultWorkspaceKey(e, c).value, DefaultWorkspaceKey(e', c').value;
    PairsWrittenAlike(w, r.sessionKey, w', r'.sessionKey);
    if NoPair(w) && NoPair(w') && NoPair(r.sessionKey) && NoPair(r'.sessionKey) {
      PairKeyIsInjective(w, r.sessionKey, w', r'.sessionKey);
    }
  }

  /** Default keys of different sources never meet; outside GitLab and GitHub they decide the channel. */
  lemma DefaultKeysSeparateSources(e: Event, c: Channel, e': Event, c': Channel)
    requires DefaultWorkspaceKey(e, c).Some? && DefaultWorkspaceKey(e, c) == DefaultWorkspaceKey(e', c')
    ensures Domain(e, c) == Domain(e', c')
    ensures e.source.Other? && e'.source.Other? ==> c.name == c'.name && c.kind == c'.kind
  {
    var x, y := AfterDomain(e, c), AfterDomain(e', c');
    DomainsDiffer(x, y, Domain(e, c), Domain(e', c'));
    if e.source.Other? && e'.source.Other? { KeyedDecides(Domain(e, c), c.name, c'.name); }
  }

  /** An event has a default Workspace unless its source does not name its project or repository. */
  lemma DefaultWorkspaceIff(e: Event, c: Channel)
    ensures DefaultWorkspaceKey(e, c).Some? <==>
      match e.source
      case Gitlab(project, _, _) => project.Some?
      case Github(repo, _) => repo.Some? && !IsBlank(repo.value)
      case Other => true
  {
  }

  /** Within one channel a GitHub default key decides the repository, and every other the source. */
  lemma GithubKeyDecides(c: Channel, e: Event, e': Event)
    requires e.source.Github? && e'.source.Github?
    requires DefaultWorkspaceKey(e, c).Some? && DefaultWorkspaceKey(e', c).Some?
    ensures DefaultWorkspaceKey(e, c) == DefaultWorkspaceKey(e', c) <==> e.source.repo == e'.source.repo
  {
    var a, b := [COLON] + e.source.repo.value, [COLON] + e'.source.repo.value;
    if DefaultWorkspaceKey(e, c) == DefaultWorkspaceKey(e', c) {
      KeyedDecides("github", c.name + a, c.name + b);
      assert (c.name + a)[|c.name|..] == a && (c.name + b)[|c.name|..] == b;
      assert a[1..] == e.source.repo.value && b[1..] == e'.source.repo.value;
    }
  }

  // ------------------------------------------------------------ default sessions

  /** An event of these sources has a default session exactly if it carries what names it; queues and
      webhooks have none. */
  lemma DefaultSessionIff(e: Event, c: Channel)
    ensures DefaultSessionKey(e, c).Some? <==>
      match e.source
      case Gitlab(_, mergeRequest, issue) => mergeRequest.Some? || issue.Some?
      case Github(_, number) => number.Some? && number.value > 0
      case Other => c.kind.A2a? || (c.kind.Cron? && e.tick.Some? && e.tick.value != [])
  {
  }

  /** The session of an A2A event is its context, and only without one its task. */
  lemma A2aSession(e: Event, c: Channel)
    requires e.source.Other? && c.kind.A2a?
    ensures e.context.Some? && e.context.value != [] ==> DefaultSessionKey(e, c) == e.context
    ensures !(e.context.Some? && e.context.value != []) && e.task.Some? ==> DefaultSessionKey(e, c) == e.task
    ensures !(e.context.Some? && e.context.value != []) && e.task.None? ==> DefaultSessionKey(e, c) == Some([])
  {
  }

  /** A merge request comes before an issue. */
  predicate SameThread(mr: Option<Text>, issue: Option<Text>, mr': Option<Text>, issue': Option<Text>) {
    if mr.Some? then mr' == mr else mr'.None? && issue' == issue
  }

  /** Two events of one source share their default session exactly when they are about the same merge
      request, issue, pull request or tick. */
  lemma DefaultSessionsSeparate(e: Event, c: Channel, e': Event, c': Channel)
    requires DefaultSessionKey(e, c).Some? && DefaultSessionKey(e', c').Some?
    ensures e.source.Gitlab? && e'.source.Gitlab? ==>
      (DefaultSessionKey(e, c) == DefaultSessionKey(e', c') <==>
       SameThread(e.source.mergeRequest, e.source.issue, e'.source.mergeRequest, e'.source.issue))
    ensures e.source.Github? && e'.source.Github? ==>
      (DefaultSessionKey(e, c) == DefaultSessionKey(e', c') <==> e.source.number == e'.source.number)
    ensures e.source.Other? && e'.source.Other? && c.kind.Cron? && c'.kind.Cron? ==>
      (DefaultSessionKey(e, c) == DefaultSessionKey(e', c') <==> e.tick == e'.tick)
  {
    if e.source.Gitlab? && e'.source.Gitlab? { GitlabSessions(e, c, e', c'); }
    if e.source.Github? && e'.source.Github? {
      if DefaultSessionKey(e, c) == DefaultSessionKey(e', c') {
        KeyedDecides("pr", Decimal(e.source.number.value), Decimal(e'.source.number.value));
        DecimalDecides(e.source.number.value, e'.source.number.value);
      }
    }
  }

  lemma GitlabSessions(e: Event, c: Channel, e': Event, c': Channel)
    requires e.source.Gitlab? && e'.source.Gitlab?
    requires DefaultSessionKey(e, c).Some? && DefaultSessionKey(e', c').Some?
    ensures DefaultSessionKey(e, c) == DefaultSessionKey(e', c') <==>
      SameThread(e.source.mergeRequest, e.source.issue, e'.source.mergeRequest, e'.source.issue)
  {
    var k, k' := DefaultSessionKey(e, c).value, DefaultSessionKey(e', c').value;
    var mr, mr' := e.source.mergeRequest, e'.source.mergeRequest;
    assert k[0] == (if mr.Some? then 'm' as int else 'i' as int);
    assert k'[0] == (if mr'.Some? then 'm' as int else 'i' as int);
    if k == k' {
      if mr.Some? { KeyedDecides("mr", mr.value, mr'.value); }
      else { KeyedDecides("issue", e.source.issue.value, e'.source.issue.value); }
    }
  }

  /** A template takes the place of a default, and an event is rejected exactly when a key it needs cannot
      be rendered or derived. */
  lemma RoutedIff(e: Event, c: Channel, render: Text -> Option<Text>)
    ensures var session := if c.sessionKey.Some? then Rendered(render, c.sessionKey.value) else DefaultSessionKey(e, c);
      var r := Route(e, c, render);
      && (r.Routed? <==>
            session.Some?
            && (if c.workspaceKey.Template? then Rendered(render, c.workspaceKey.text).Some?
                else DefaultWorkspaceKey(e, c).Some?))
      && (r.Routed? ==> Some(r.sessionKey) == session)
      && (r.Routed? && c.sessionKey.Some? ==> render(c.sessionKey.value) == Some(r.sessionKey) && r.sessionKey != [])
      && (r.Routed? && c.workspaceKey.Template? ==>
            render(c.workspaceKey.text) == Some(r.workspaceKey) && r.workspaceKey != [])
      && (r.Routed? && c.workspaceKey.NoOverride? ==> DefaultWorkspaceKey(e, c) == Some(r.workspaceKey))
      && (r.Routed? && c.workspaceKey.PerSession? ==>
            r.workspaceKey == DumpsPair(DefaultWorkspaceKey(e, c).value, r.sessionKey))
  {
  }

  function AfterDomain(e: Event, c: Channel): (x: Text)
    requires DefaultWorkspaceKey(e, c).Some?
    ensures DefaultWorkspaceKey(e, c) == Some(Keyed(Domain(e, c), x))
  {
    match e.source
    case Gitlab(project, _, _) => c.name + ([COLON] + project.value)
    case Github(repo, _) => c.name + ([COLON] + repo.value)
    case Other => c.name
  }
}
