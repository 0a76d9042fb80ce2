/** What the backward search finds: the last opener of the searched text that is an object. */
module A2ASearch {
  import opened Options
  import opened Json
  import opened A2AScan
  import opened A2ATerminal

  // ------------------------------------------------------------ the openers in order

  lemma {:induction false} OpenersExact(text: string, i: nat, k: nat)
    requires i <= |text|
    ensures k in Openers(text, i) <==> i <= k < |text| && Opens(text, k)
    decreases |text| - i
  {
    if i < |text| { OpenersExact(text, i + 1, k); }
  }

  lemma {:induction false} OpenersAscend(text: string, i: nat)
    requires i <= |text|
    ensures forall a, b :: 0 <= a < b < |Openers(text, i)| ==> Openers(text, i)[a] < Openers(text, i)[b]
    decreases |text| - i
  {
    if i < |text| { OpenersAscend(text, i + 1); }
  }

  // ------------------------------------------------------------ the search

  /** An opener of the text at which an object stands. */
  predicate HoldsObject(dec: Decoder, text: string, i: nat) {
    i < |text| && Opens(text, i) && ObjectAt(dec, text, i).Some?
  }

  /** No opener of the text closes and decodes to an object. */
  ghost predicate NoObject(dec: Decoder, text: string) {
    forall i: nat :: i < |text| ==> !HoldsObject(dec, text, i)
  }

  ghost predicate LastIsObject(dec: Decoder, text: string, i: nat) {
    HoldsObject(dec, text, i) && forall j: nat :: i < j < |text| ==> !HoldsObject(dec, text, j)
  }

  /** Backwards over what was found at some positions: the last that was found. */
  function LastFound(found: seq<Option<Value>>): Option<Value> {
    if found == [] then None
    else if found[|found| - 1].Some? then found[|found| - 1]
    else LastFound(found[..|found| - 1])
  }

  function Found(dec: Decoder, text: string, at: seq<nat>): (found: seq<Option<Value>>)
    requires forall k :: 0 <= k < |at| ==> at[k] < |text|
    ensures |found| == |at| && forall k :: 0 <= k < |at| ==> found[k] == ObjectAt(dec, text, at[k])
  {
    seq(|at|, k requires 0 <= k < |at| => ObjectAt(dec, text, at[k]))
  }

  lemma {:induction false} SearchesBackwards(dec: Decoder, text: string, at: seq<nat>)
    requires forall k :: 0 <= k < |at| ==> at[k] < |text|
    ensures LastObject(dec, text, at) == LastFound(Found(dec, text, at))
  {
    if at != [] {
      SearchesBackwards(dec, text, at[..|at| - 1]);
      assert Found(dec, text, at)[..|at| - 1] == Found(dec, text, at[..|at| - 1]);
    }
  }

  ghost predicate LastSome(found: seq<Option<Value>>, m: nat) {
    m < |found| && found[m].Some? && forall k :: m < k < |found| ==> found[k].None?
  }

  lemma {:induction false} LastOf(found: seq<Option<Value>>) returns (m: nat)
    ensures LastFound(found).None? <==> forall k :: 0 <= k < |found| ==> found[k].None?
    ensures LastFound(found).Some? ==> LastSome(found, m) && found[m] == LastFound(found)
  {
    m := 0;
    if found != [] {
      var init := found[..|found| - 1];
      assert forall k :: 0 <= k < |init| ==> found[k] == init[k];
      if found[|found| - 1].Some? { m := |found| - 1; } else { m := LastOf(init); }
    }
  }

  /** What is searched: nothing is found exactly when no opener is an object, and what is found is the last
      object there is. */
  lemma SearchIff(dec: Decoder, text: string, v: Value)
    ensures LastObject(dec, text, Openers(text, 0)).None? <==> NoObject(dec, text)
    ensures LastObject(dec, text, Openers(text, 0)) == Some(v) <==>
      exists i: nat :: LastIsObject(dec, text, i) && ObjectAt(dec, text, i) == Some(v)
  {
    var at := Openers(text, 0);
    var found := Found(dec, text, at);
    SearchesBackwards(dec, text, at);
    var m := LastOf(found);
    OpenersAscend(text, 0);
    forall k: nat ensures k in at <==> k < |text| && Opens(text, k) { OpenersExact(text, 0, k); }
    if LastFound(found).Some? {
      AnObjectIsLast(dec, text, at, found, m);
    } else {
      forall i: nat | i < |text| && Opens(text, i) ensures ObjectAt(dec, text, i).None? {
        assert i in at;
        var k :| 0 <= k < |at| && at[k] == i;
        assert found[k].None?;
      }
    }
  }

  lemma AnObjectIsLast(dec: Decoder, text: string, at: seq<nat>, found: seq<Option<Value>>, m: nat)
    requires |found| == |at| && forall k :: 0 <= k < |at| ==> at[k] < |text| && found[k] == ObjectAt(dec, text, at[k])
    requires forall k: nat :: k in at <==> k < |text| && Opens(text, k)
    requires forall a, b :: 0 <= a < b < |at| ==> at[a] < at[b]
    requires LastSome(found, m)
    ensures LastIsObject(dec, text, at[m])
  {
    assert at[m] in at;
    forall j: nat | at[m] < j < |text| ensures !HoldsObject(dec, text, j) {
      if Opens(text, j) { var k := LaterIsNone(at, found, m, j); }
    }
  }

  lemma LaterIsNone(at: seq<nat>, found: seq<Option<Value>>, m: nat, j: nat) returns (k: nat)
    requires |found| == |at| && LastSome(found, m) && j in at && at[m] < j
    requires forall a, b :: 0 <= a < b < |at| ==> at[a] < at[b]
    ensures k < |at| && at[k] == j && found[k].None?
  {
    k :| 0 <= k < |at| && at[k] == j;
    assert m < k;
  }

  /** The result of the extraction is the value of the last object in the searched text, if it holds one. */
  lemma ExtractIff(dec: Decoder, text: string, v: Value)
    ensures ExtractTerminal(dec, text).None? <==> NoObject(dec, Searched(text))
    ensures ExtractTerminal(dec, text) == Some(v) <==>
      exists i: nat :: LastIsObject(dec, Searched(text), i) && ObjectAt(dec, Searched(text), i) == Some(v)
  {
    SearchIff(dec, Searched(text), v);
  }

  // ------------------------------------------------------------ objects of a part

  /** A scan that ends within a text ends there whatever follows. */
  lemma {:induction false} ScanStops(s: string, rest: string, m: Mode)
    requires Scan(s, m).Some?
    ensures Scan(s + rest, m) == Scan(s, m)
  {
    assert (s + rest)[0] == s[0] && (s + rest)[1..] == s[1..] + rest;
    if !Closes(m, s[0]) { ScanStops(s[1..], rest, Step(m, s[0])); }
  }

  /** An object of a part is an object of the whole. */
  lemma PartObject(dec: Decoder, text: string, from: nat, to: nat, i: nat)
    requires from <= to <= |text| && i < to - from && ObjectAt(dec, text[from..to], i).Some?
    ensures ObjectAt(dec, text, from + i) == ObjectAt(dec, text[from..to], i)
  {
    var part := text[from..to];
    var s, rest := part[i..], text[to..];
    assert text[from + i..] == s + rest;
    ScanStops(s, rest, Outside(0));
    var end := Scan(s, Outside(0)).value;
    assert part[i..i + end + 1] == text[from + i..from + i + end + 1];
  }

  /** What follows a position does not depend on what comes before. */
  lemma TailObject(dec: Decoder, before: string, s: string, i: nat)
    requires i < |s|
    ensures ObjectAt(dec, before + s, |before| + i) == ObjectAt(dec, s, i)
  {
    var text := before + s;
    assert text[|before| + i..] == s[i..];
    var end := Scan(s[i..], Outside(0));
    if end.Some? { assert text[|before| + i..|before| + i + end.value + 1] == s[i..i + end.value + 1]; }
  }
}
