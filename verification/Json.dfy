/** JSON texts (RFC 8259) as trees that keep every choice of layout: whitespace, escapes, the
    spelling of numbers. `Show` prints a tree; each JSON text is printed by one. */
module Json {
  import opened Options

  // ------------------------------------------------------------ trees

  /** One character of a string as it is written (section 7). */
  datatype Ch = Plain(c: char) | Escape(c: char) | Code(h: string)

  /** A number as it is written (section 6). */
  datatype Number = Number(minus: bool, digits: string, fraction: Option<string>, exponent: Option<Exponent>)

  datatype Exponent = Exponent(e: char, sign: string, digits: string)

  datatype Doc =
    | Word(text: string)
    | Num(number: Number)
    | Str(items: seq<Ch>)
    | NoElems(gap: string)
    | Arr(elems: Elems)
    | NoMembers(gap: string)
    | Obj(members: Members)

  /** A value with the whitespace around it, and what follows after a comma. */
  datatype Elems = Elems(before: string, value: Doc, after: string, rest: Option<Elems>)

  datatype Members = Members(
    before: string, key: seq<Ch>, colon: string, gap: string, value: Doc, after: string, rest: Option<Members>)

  // ------------------------------------------------------------ which trees are texts

  predicate IsGap(s: string) {
    forall c <- s :: c == ' ' || c == '\t' || c == '\n' || c == '\r'
  }

  predicate IsDigit(c: char) { '0' <= c <= '9' }

  predicate IsDigits(s: string) {
    s != [] && forall c <- s :: IsDigit(c)
  }

  predicate IsHex(c: char) { IsDigit(c) || 'a' <= c <= 'f' || 'A' <= c <= 'F' }

  predicate ValidCh(ch: Ch) {
    match ch
    case Plain(c) => ' ' <= c && c != '"' && c != '\\'
    case Escape(c) => c in "\"\\/bfnrt"
    case Code(h) => |h| == 4 && forall c <- h :: IsHex(c)
  }

  predicate ValidItems(items: seq<Ch>) {
    forall ch <- items :: ValidCh(ch)
  }

  predicate ValidNumber(n: Number) {
    && IsDigits(n.digits) && (|n.digits| > 1 ==> n.digits[0] != '0')
    && (n.fraction.Some? ==> IsDigits(n.fraction.value))
    && (n.exponent.Some? ==> (n.exponent.value.e == 'e' || n.exponent.value.e == 'E')
                             && (n.exponent.value.sign == "" || n.exponent.value.sign == "+"
                                 || n.exponent.value.sign == "-")
                             && IsDigits(n.exponent.value.digits))
  }

  predicate Valid(d: Doc) {
    match d
    case Word(t) => t == "true" || t == "false" || t == "null"
    case Num(n) => ValidNumber(n)
    case Str(items) => ValidItems(items)
    case NoElems(gap) => IsGap(gap)
    case Arr(es) => ValidElems(es)
    case NoMembers(gap) => IsGap(gap)
    case Obj(ms) => ValidMembers(ms)
  }

  predicate ValidElems(es: Elems) {
    IsGap(es.before) && Valid(es.value) && IsGap(es.after) && (es.rest.Some? ==> ValidElems(es.rest.value))
  }

  predicate ValidMembers(ms: Members) {
    && IsGap(ms.before) && ValidItems(ms.key) && IsGap(ms.colon) && IsGap(ms.gap) && Valid(ms.value) && IsGap(ms.after)
    && (ms.rest.Some? ==> ValidMembers(ms.rest.value))
  }

  // ------------------------------------------------------------ printing

  function ShowCh(ch: Ch): string {
    match ch
    case Plain(c) => [c]
    case Escape(c) => ['\\', c]
    case Code(h) => "\\u" + h
  }

  function ShowItems(items: seq<Ch>): string {
    if items == [] then "" else ShowCh(items[0]) + ShowItems(items[1..])
  }

  function ShowNumber(n: Number): string {
    (if n.minus then "-" else "") + n.digits
    + (if n.fraction.Some? then "." + n.fraction.value else "")
    + (if n.exponent.Some? then [n.exponent.value.e] + n.exponent.value.sign + n.exponent.value.digits else "")
  }

  function ShowString(items: seq<Ch>): string {
    "\"" + (ShowItems(items) + "\"")
  }

  function Show(d: Doc): string {
    match d
    case Word(t) => t
    case Num(n) => ShowNumber(n)
    case Str(items) => ShowString(items)
    case NoElems(gap) => "[" + (gap + "]")
    case Arr(es) => "[" + (ShowElems(es) + "]")
    case NoMembers(gap) => "{" + (gap + "}")
    case Obj(ms) => "{" + (ShowMembers(ms) + "}")
  }

  function ShowElems(es: Elems): string {
    es.before + (Show(es.value) + (es.after + if es.rest.Some? then "," + ShowElems(es.rest.value) else ""))
  }

  function ShowMembers(ms: Members): string {
    ms.before + (ShowString(ms.key) + (ms.colon + (":" + (ms.gap + (Show(ms.value) + (ms.after
      + if ms.rest.Some? then "," + ShowMembers(ms.rest.value) else ""))))))
  }
}
