/** The assumption on the JSON library can be met: because a text is printed by one tree only, a
    decoder from printed texts to their meaning exists. */
module A2ADecoder {
  import opened Options
  import opened Json
  import opened JsonUnique
  import opened A2ATerminal
  import opened A2ARoundTrip

  /** How texts are decoded does not matter to the meaning of a tree, only how strings are read. */
  lemma {:induction false} MeaningByText(dec: Decoder, dec': Decoder, d: Doc)
    requires dec.text == dec'.text
    ensures Meaning(dec, d) == Meaning(dec', d)
  {
    match d
    case Arr(es) => ElemsByText(dec, dec', es);
    case Obj(ms) => MembersByText(dec, dec', ms);
    case _ =>
  }

  lemma {:induction false} ElemsByText(dec: Decoder, dec': Decoder, es: Elems)
    requires dec.text == dec'.text
    ensures ElemsMeaning(dec, es) == ElemsMeaning(dec', es)
  {
    MeaningByText(dec, dec', es.value);
    if es.rest.Some? { ElemsByText(dec, dec', es.rest.value); }
  }

  lemma {:induction false} MembersByText(dec: Decoder, dec': Decoder, ms: Members)
    requires dec.text == dec'.text
    ensures MembersMeaning(dec, ms) == MembersMeaning(dec', ms)
  {
    MeaningByText(dec, dec', ms.value);
    if ms.rest.Some? { MembersByText(dec, dec', ms.rest.value); }
  }

  predicate Prints(d: Doc, s: string) {
    Valid(d) && Show(d) == s
  }

  /** Decodes nothing, and reads strings with the given function. */
  function ReaderOnly(text: seq<Ch> -> string): Decoder {
    Decoder((s: string) => None, text)
  }

  ghost function Load(text: seq<Ch> -> string, s: string): Option<Value> {
    if d :| Prints(d, s) then Some(Meaning(ReaderOnly(text), d)) else None
  }

  lemma LoadsMeaning(text: seq<Ch> -> string, d: Doc)
    requires Valid(d)
    ensures Load(text, Show(d)) == Some(Meaning(ReaderOnly(text), d))
  {
    assert Prints(d, Show(d));
    forall e | Prints(e, Show(d)) ensures e == d { ShowDecides(e, d); }
  }

  /** Whatever the strings are read as, as long as plain characters stand for themselves. */
  lemma DecoderExists(text: seq<Ch> -> string)
    requires forall s :: text(Spelled(s)) == s
    ensures exists dec: Decoder :: dec.text == text && Decodes(dec)
  {
    var dec := Decoder((s: string) => Load(text, s), text);
    forall d | Valid(d) ensures dec.loads(Show(d)) == Some(Meaning(dec, d)) {
      LoadsMeaning(text, d);
      MeaningByText(dec, ReaderOnly(text), d);
    }
    assert Decodes(dec);
  }

  /** Such readings exist: take every string as it is written. */
  lemma SomeDecoder()
    ensures exists dec: Decoder :: Decodes(dec)
  {
    forall s ensures ShowItems(Spelled(s)) == s { SpelledShows(s); }
    DecoderExists(ShowItems);
  }
}
