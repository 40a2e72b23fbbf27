/** Characters, the places where the scanners stop, and blanks at either end of a text. */
module Text {

  /** A blank is any character below '!', as in isSpace. */
  predicate Blank(c: char) { c < '!' }

  /** The space and everything that stands before it in the code. */
  lemma BlankIs(c: char)
    ensures Blank(c) <==> c as int <= 32
  {
  }

  /** The sets of characters that end one of the scanning loops. */
  datatype Mark = NonBlank | NameEnd | AttributeEnd | Quote | Open

  predicate Stops(m: Mark, c: char) {
    match m
    case NonBlank => !Blank(c)
    case NameEnd => Blank(c) || c == '>'
    case AttributeEnd => Blank(c) || c == '>' || c == '='
    case Quote => c == '"'
    case Open => c == '<'
  }

  /** The number of characters before the first one that stops the scan. */
  function Span(m: Mark, s: string): (n: nat)
    ensures n <= |s|
  {
    if s == "" || Stops(m, s[0]) then 0 else 1 + Span(m, s[1..])
  }

  lemma {:induction false} SpanStops(m: Mark, s: string)
    ensures forall i :: 0 <= i < Span(m, s) ==> !Stops(m, s[i])
    ensures Span(m, s) < |s| ==> Stops(m, s[Span(m, s)])
  {
    if s != "" && !Stops(m, s[0]) {
      SpanStops(m, s[1..]);
      assert forall i :: 1 <= i < Span(m, s) ==> s[i] == s[1..][i - 1];
    }
  }

  /** Those two facts determine the span. */
  lemma {:induction false} SpanIs(m: Mark, s: string, n: nat)
    requires n <= |s|
    requires forall i :: 0 <= i < n ==> !Stops(m, s[i])
    requires n < |s| ==> Stops(m, s[n])
    ensures Span(m, s) == n
  {
    if n > 0 {
      SpanIs(m, s[1..], n - 1);
    }
  }

  predicate StartsWith(s: string, expected: string) { expected <= s }

  predicate AllBlank(s: string) { forall i :: 0 <= i < |s| ==> Blank(s[i]) }

  function SkipBlanks(s: string): (r: string)
    ensures |r| <= |s|
    ensures r != "" ==> !Blank(r[0])
  {
    SpanStops(NonBlank, s);
    s[Span(NonBlank, s)..]
  }

  lemma SkipBlanksPrefix(a: string, s: string)
    requires AllBlank(a)
    ensures SkipBlanks(a + s) == SkipBlanks(s)
  {
    var k := Span(NonBlank, s);
    SpanStops(NonBlank, s);
    assert forall i :: |a| <= i < |a| + k ==> (a + s)[i] == s[i - |a|];
    SpanIs(NonBlank, a + s, |a| + k);
    assert (a + s)[|a| + k..] == s[k..];
  }

  /** Drops the blanks at the end. */
  function TrimRight(s: string): (r: string)
    ensures r <= s
    ensures r != "" ==> !Blank(r[|r| - 1])
    ensures AllBlank(s[|r|..])
  {
    if s != "" && Blank(s[|s| - 1]) then TrimRight(s[..|s| - 1]) else s
  }

  lemma TrimRightIs(s: string, r: string)
    requires r <= s
    requires r != "" ==> !Blank(r[|r| - 1])
    requires AllBlank(s[|r|..])
    ensures TrimRight(s) == r
  {
    var t := TrimRight(s);
    assert |t| < |r| ==> s[|t|..][|r| - 1 - |t|] == r[|r| - 1];
    assert |r| < |t| ==> s[|r|..][|t| - 1 - |r|] == t[|t| - 1];
  }

  /** Drops the blanks at both ends. */
  function Trim(s: string): string { TrimRight(SkipBlanks(s)) }
}
