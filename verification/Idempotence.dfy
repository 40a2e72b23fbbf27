/** When uniformising a second time changes nothing. */
module Idempotence {
  import opened Sequences
  import opened Text
  import opened Uniformiser

  /** The main loop copies an element from here. */
  predicate AtElement(t: string) {
    t != "" && t[0] == '<' && !(|t| > 1 && t[1] == '?') &&
    !(|t| > 3 && t[1] == '!' && t[2] == '-' && t[3] == '-')
  }

  lemma AtElementMeans(t: string)
    ensures AtElement(t) <==> StartsWith(t, "<") && !StartsWith(t, "<?") && !StartsWith(t, "<!--")
  {
    assert |t| > 3 ==> t[..4] == [t[0], t[1], t[2], t[3]];
    assert |t| > 1 ==> t[..2] == [t[0], t[1]];
    assert |t| > 0 ==> t[..1] == [t[0]];
  }

  lemma ElementTurn(t: string)
    requires AtElement(t)
    ensures SkipBlanks(t) == t && Turn(t) == ReadElement(t)
  {
    AtElementMeans(t);
    SkipNothing(t);
  }

  /** The main loop, one turn further. */
  lemma Unfold(s: string, turn: Scan)
    requires s != "" && Turn(s) == turn
    ensures Strip(s) == turn.out + Strip(turn.rest)
    ensures EndsInName(s) <==> NameRunsOut(s) || EndsInName(turn.rest)
  {
  }

  /** This turn of the main loop copies an element name that runs to the end of the text. */
  predicate NameRunsOut(s: string) {
    var t := SkipBlanks(s);
    AtElement(t) && Span(NameEnd, t) == |t|
  }

  /** The text ends inside the name of an element, as in "<a". */
  predicate EndsInName(s: string)
    decreases |s|
  {
    s != "" && (NameRunsOut(s) || EndsInName(Turn(s).rest))
  }

  lemma UntilQuoteAgain(s: string, x: string)
    requires UntilQuote(s).rest == "" ==> x == ""
    ensures UntilQuote(UntilQuote(s).out + x) == Scan(UntilQuote(s).out, x)
  {
    var q := UntilQuote(s).out;
    var n := Span(Quote, s);
    SpanStops(Quote, s);
    SpanIs(Quote, q + x, n);
    if n < |s| {
      assert (q + x)[..n + 1] == q && (q + x)[n + 1..] == x;
    } else {
      assert q + x == s;
    }
  }

  lemma AttributeValueAgain(s: string, x: string)
    requires ReadValue(s).rest == "" ==> x == ""
    ensures ReadValue(ReadValue(s).out + x) == Scan(ReadValue(s).out, x)
  {
    var t := SkipBlanks(s);
    var first := UntilQuote(t);
    var second := UntilQuote(first.rest);
    Concat3(first.out, second.out, x);
    UntilQuoteAgain(first.rest, x);
    UntilQuoteAgain(t, second.out + x);
    SkipNothing(first.out + (second.out + x));
  }

  lemma SkipNothing(s: string)
    requires s != "" ==> !Blank(s[0])
    ensures SkipBlanks(s) == s
  {
    SpanIs(NonBlank, s, 0);
  }

  predicate Valueless(t: string) {
    !StartsWith(SkipBlanks(t[Span(AttributeEnd, t)..]), "=")
  }

  /** The text x may stand for what is left after the attribute at t. */
  predicate Follows(t: string, x: string) {
    (x == "" <==> ReadAttribute(t).rest == "") &&
    (Valueless(t) && x != "" ==> x[0] == ReadAttribute(t).rest[0])
  }

  /** A name that ends here is found again in front of any other text. */
  lemma NameAgain(t: string, end: string, y: string)
    requires |end| == 1 && Stops(AttributeEnd, end[0])
    ensures var n := Span(AttributeEnd, t);
            var again := t[..n] + end + y;
            Span(AttributeEnd, again) == n && again[..n] == t[..n] && again[n..] == end + y
  {
    SpanStops(AttributeEnd, t);
    SpanIs(AttributeEnd, t[..Span(AttributeEnd, t)] + end + y, Span(AttributeEnd, t));
  }

  lemma ValuedAgain(t: string, x: string)
    requires !Valueless(t) && Follows(t, x)
    ensures ReadAttribute(ReadAttribute(t).out + x) == Scan(ReadAttribute(t).out, x)
  {
    var n := Span(AttributeEnd, t);
    var u := SkipBlanks(t[n..]);
    var v := ReadValue(u[1..]);
    NameAgain(t, "=", v.out + x);
    AttributeValueAgain(u[1..], x);
    Concat3(t[..n] + "=", v.out, x);
    SkipNothing("=" + (v.out + x));
    assert ("=" + (v.out + x))[1..] == v.out + x;
  }

  lemma ValuelessAgain(t: string, x: string)
    requires Valueless(t) && Follows(t, x)
    ensures ReadAttribute(ReadAttribute(t).out + x) == Scan(ReadAttribute(t).out, x)
  {
    NameAgain(t, " ", x);
    SkipBlanksPrefix(" ", x);
    SkipNothing(x);
  }

  lemma AttributeAgain(t: string, x: string)
    requires Follows(t, x)
    ensures ReadAttribute(ReadAttribute(t).out + x) == Scan(ReadAttribute(t).out, x)
  {
    if Valueless(t) {
      ValuelessAgain(t, x);
    } else {
      ValuedAgain(t, x);
    }
  }

  lemma AttributeShows(t: string)
    requires t != "" && !Blank(t[0]) && t[0] != '>'
    ensures ReadAttribute(t).out != "" && ReadAttribute(t).out[0] == t[0]
  {
    var n := Span(AttributeEnd, t);
    SpanStops(AttributeEnd, t);
    if n == 0 {
      assert t[0..] == t;
      SkipNothing(t);
      AtEquals(t);
    }
    AttributeParts("", t, t[..n], SkipBlanks(t[n..]));
    hide ReadAttribute, ReadValue, SkipBlanks, Span;
  }

  lemma AtEquals(t: string)
    requires t != "" && t[0] == '='
    ensures StartsWith(t, "=")
  {
  }

  lemma SpacedAttributeAgain(s: string, x: string)
    requires s != "" && !StartsWith(SkipBlanks(s), ">")
    requires Follows(SkipBlanks(s), x)
    ensures ReadSpaced(ReadSpaced(s).out + x) == Scan(ReadSpaced(s).out, x)
    ensures !StartsWith(SkipBlanks(ReadSpaced(s).out + x), ">")
  {
    var t := SkipBlanks(s);
    if t == "" {
      BlankAttributesAgain(s);
      EmptyAttribute();
    } else {
      var gap := if |t| < |s| then " " else "";
      assert ReadSpaced(s) == Scan(gap + ReadAttribute(t).out, ReadAttribute(t).rest);
      AttributeShows(t);
      AttributeAgain(t, x);
      hide ReadAttribute, ReadSpaced, SkipBlanks, Follows;
      SpacedBack(gap, ReadAttribute(t).out, x);
    }
  }

  lemma EmptyAttribute()
    ensures ReadAttribute("") == Scan(" ", "")
  {
    SpanIs(AttributeEnd, "", 0);
  }

  lemma BlankAttributesAgain(s: string)
    requires s != "" && SkipBlanks(s) == ""
    ensures ReadSpaced(s) == Scan("  ", "") && ReadSpaced("  ") == Scan("  ", "")
    ensures "  " + "" == "  " && SkipBlanks("  ") == ""
  {
    BlankAttributes(s);
    SkipBlanksPrefix("  ", "");
    assert "  " + "" == "  ";
    BlankAttributes("  ");
  }

  /** Nothing but blanks in front of the end is written as two blanks. */
  lemma BlankAttributes(s: string)
    requires s != "" && SkipBlanks(s) == ""
    ensures ReadSpaced(s) == Scan("  ", "")
  {
    SpanIs(AttributeEnd, "", 0);
    assert ReadAttribute("") == Scan(" ", "");
  }

  lemma SpacedBack(gap: string, a: string, x: string)
    requires gap == "" || gap == " "
    requires a != "" && !Blank(a[0]) && a[0] != '>' && ReadAttribute(a + x) == Scan(a, x)
    ensures ReadSpaced(gap + a + x) == Scan(gap + a, x)
    ensures !StartsWith(SkipBlanks(gap + a + x), ">")
  {
    Concat3(gap, a, x);
    SkipBlanksPrefix(gap, a + x);
    SkipNothing(a + x);
    NoEnd(a + x);
    hide ReadAttribute, SkipBlanks;
    assert SkipBlanks(gap + a + x) == a + x && (gap == "" <==> |a + x| == |gap + a + x|);
  }

  lemma NoEnd(s: string)
    requires s != "" && s[0] != '>'
    ensures !StartsWith(s, ">")
  {
  }

  predicate EndsName(y: string) { y != "" && (y[0] == ' ' || y[0] == '>') }

  /** The first character the attribute loop writes is the first it reads, or a blank for blanks. */
  lemma AttributesShow(s: string)
    requires s != ""
    ensures ReadAttributes(s).out != ""
    ensures !Blank(s[0]) ==> ReadAttributes(s).out[0] == s[0]
    ensures Blank(s[0]) ==> EndsName(ReadAttributes(s).out)
  {
    GapShows(s);
    AttributesUnfold(s);
    hide ReadAttributes, ReadSpaced, SkipBlanks;
    if !StartsWith(SkipBlanks(s), ">") {
      SpacedShows(s);
    }
  }

  lemma SpacedShows(s: string)
    requires s != "" && !StartsWith(SkipBlanks(s), ">")
    ensures ReadSpaced(s).out != ""
    ensures ReadSpaced(s).out[0] == if Blank(s[0]) then ' ' else s[0]
  {
    GapShows(s);
    var t := SkipBlanks(s);
    if t == s {
      AttributeShows(t);
      hide ReadAttribute, SkipBlanks;
      assert ReadSpaced(s).out == "" + ReadAttribute(t).out;
    } else {
      hide ReadAttribute, SkipBlanks;
      assert ReadSpaced(s).out == " " + ReadAttribute(t).out;
    }
  }

  lemma {:induction false} AttributesAgain(s: string, x: string)
    requires s != ""
    requires ReadAttributes(s).rest == "" ==> x == ""
    ensures ReadAttributes(ReadAttributes(s).out + x) == Scan(ReadAttributes(s).out, x)
    decreases |s|
  {
    var a := ReadSpaced(s);
    if StartsWith(SkipBlanks(s), ">") {
      SkipNothing(">" + x);
      assert (">" + x)[1..] == x;
    } else if a.rest == "" {
      SpacedAttributeAgain(s, x);
    } else {
      var more := ReadAttributes(a.rest);
      AttributesAgain(a.rest, x);
      AttributesShow(a.rest);
      SpacedAttributeAgain(s, more.out + x);
      Concat3(a.out, more.out, x);
    }
  }

  lemma ElementAgain(t: string, x: string)
    requires AtElement(t) && Span(NameEnd, t) < |t|
    requires ReadElement(t).rest == "" ==> x == ""
    ensures AtElement(ReadElement(t).out + x) && ReadElement(ReadElement(t).out + x) == Scan(ReadElement(t).out, x)
    ensures !NameRunsOut(ReadElement(t).out + x)
  {
    var n := Span(NameEnd, t);
    var a := ReadAttributes(t[n..]);
    NameStops(t);
    AttributesShow(t[n..]);
    AttributesAgain(t[n..], x);
    Concat3(t[..n], a.out, x);
    NameKept(t[..n], a.out + x, t);
    hide ReadAttributes, AtElement, Span;
  }

  lemma NameStops(t: string)
    requires Span(NameEnd, t) < |t|
    ensures Blank(t[Span(NameEnd, t)]) || t[Span(NameEnd, t)] == '>'
  {
    SpanStops(NameEnd, t);
  }

  /** An element name followed by a blank or '>' is found again as such. */
  lemma NameKept(name: string, y: string, t: string)
    requires AtElement(t) && name == t[..Span(NameEnd, t)] && Span(NameEnd, t) < |t|
    requires EndsName(y)
    ensures AtElement(name + y) && Span(NameEnd, name + y) == |name|
    ensures SkipBlanks(name + y) == name + y && (name + y)[..|name|] == name && (name + y)[|name|..] == y
  {
    SpanStops(NameEnd, t);
    SpanIs(NameEnd, name + y, |name|);
    hide Span, SkipBlanks, AtElement;
    ElementKept(name, y, t);
    SkipNothing(name + y);
    Cut(name, y);
  }

  lemma ElementKept(name: string, y: string, t: string)
    requires AtElement(t) && name <= t && EndsName(y)
    requires name != ""
    ensures AtElement(name + y) && !Blank((name + y)[0])
  {
    var s := name + y;
    assert forall i :: 0 <= i < |name| ==> s[i] == t[i];
    assert s[|name|] == y[0];
  }

  /** A turn that starts with content reads up to the next '<'. */
  lemma ContentTurn(head: string, tail: string)
    requires head != "" && !Blank(head[0]) && '<' !in head
    requires tail != "" ==> tail[0] == '<'
    ensures Turn(head + tail) == Scan(TrimRight(head), tail) && !NameRunsOut(head + tail)
  {
    hide ReadElement, After, TrimRight, SkipBlanks, Span;
    var s := head + tail;
    assert s[0] == head[0];
    NoTag(s);
    SpanIs(Open, s, |head|);
    SkipNothing(s);
    Cut(head, tail);
  }

  lemma NoTag(s: string)
    requires s != "" && s[0] != '<'
    ensures !StartsWith(s, "<?") && !StartsWith(s, "<!--") && !StartsWith(s, "<") && !AtElement(s)
  {
  }

  /** The text up to the first '<', and the rest. */
  lemma ContentCut(x: string, m: nat)
    requires m == Span(Open, x)
    ensures '<' !in x[..m]
    ensures x[m..] != "" ==> x[m..][0] == '<'
    ensures x[..m] + x[m..] == x
  {
    SpanStops(Open, x);
    hide Span;
  }

  lemma JoinedTurn(c: string, x: string)
    requires c != "" && !Blank(c[0]) && !Blank(c[|c| - 1]) && '<' !in c
    requires x != "" ==> !Blank(x[0])
    ensures var m := Span(Open, x);
            Turn(c + x) == Scan(c + TrimRight(x[..m]), x[m..]) && !NameRunsOut(c + x)
  {
    hide Turn, TrimRight, NameRunsOut, Span;
    var m := Span(Open, x);
    ContentCut(x, m);
    Concat3(c, x[..m], x[m..]);
    ContentTurn(c + x[..m], x[m..]);
    TrimJoined(c, x[..m]);
  }

  /** Content without '<' joins the content that follows it. */
  lemma ContentAgain(c: string, x: string)
    requires c != "" && !Blank(c[0]) && !Blank(c[|c| - 1]) && '<' !in c
    requires x != "" ==> !Blank(x[0])
    ensures Strip(c + x) == c + Strip(x)
    ensures EndsInName(c + x) == EndsInName(x)
  {
    hide Strip, Turn, TrimRight, NameRunsOut, EndsInName;
    var m := Span(Open, x);
    ContentCut(x, m);
    JoinedTurn(c, x);
    Unfold(c + x, Scan(c + TrimRight(x[..m]), x[m..]));
    Concat3(c, TrimRight(x[..m]), Strip(x[m..]));
    if m == 0 {
      TrimNothing();
      assert x[m..] == x && c + "" == c;
    } else {
      ContentTurn(x[..m], x[m..]);
      Unfold(x, Scan(TrimRight(x[..m]), x[m..]));
    }
  }

  lemma TrimNothing()
    ensures TrimRight("") == ""
  {
  }

  lemma TrimJoined(c: string, d: string)
    requires c != "" && !Blank(c[|c| - 1])
    requires d != "" ==> !Blank(d[0])
    ensures TrimRight(c + d) == c + TrimRight(d)
  {
    TrimTailOfContent(c, d);
    TrimRightIs(c + d, c + TrimRight(d));
  }

  lemma {:induction false} TrimShows(s: string)
    requires s != "" && !Blank(s[0])
    ensures TrimRight(s) != "" && TrimRight(s)[0] == s[0]
  {
    if Blank(s[|s| - 1]) {
      TrimShows(s[..|s| - 1]);
    }
  }

  /** Blanks, comments and processing instructions leave no trace. */
  lemma SilentTurn(s: string)
    requires s != "" && !AtElement(SkipBlanks(s))
    requires SkipBlanks(s) != "" ==> SkipBlanks(s)[0] == '<'
    ensures Turn(s).out == ""
  {
    var t := SkipBlanks(s);
    AtElementMeans(t);
    assert t != "" ==> t[..1] == "<";
    assert t == "" ==> !StartsWith(t, "<") && !StartsWith(t, "<?") && !StartsWith(t, "<!--");
  }

  lemma ElementShows(t: string)
    requires AtElement(t)
    ensures ReadElement(t).out != "" && ReadElement(t).out[0] == '<'
  {
    hide ReadAttributes;
    SpanStops(NameEnd, t);
    assert Span(NameEnd, t) > 0;
  }

  lemma TurnShows(s: string)
    requires s != ""
    ensures Turn(s).out != "" ==> !Blank(Turn(s).out[0])
  {
    hide ReadElement, After;
    var t := SkipBlanks(s);
    AtElementMeans(t);
    if AtElement(t) {
      ElementShows(t);
    } else if t != "" && t[0] != '<' {
      SpanStops(Open, t);
      TrimShows(t[..Span(Open, t)]);
    } else {
      SilentTurn(s);
    }
  }

  /** Uniformised text never starts with a blank. */
  lemma {:induction false} StripShows(s: string)
    ensures Strip(s) != "" ==> !Blank(Strip(s)[0])
    decreases |s|
  {
    hide Turn;
    if s != "" {
      StripShows(Turn(s).rest);
      TurnShows(s);
    }
  }

  /** Reading again what one turn wrote, in front of uniformised text, changes nothing. */
  lemma TurnAgain(s: string, x: string)
    requires s != "" && !NameRunsOut(s)
    requires Turn(s).rest == "" ==> x == ""
    requires x != "" ==> !Blank(x[0])
    ensures Strip(Turn(s).out + x) == Turn(s).out + Strip(x)
    ensures EndsInName(Turn(s).out + x) == EndsInName(x)
  {
    hide ReadElement, ReadContent, After;
    var t := SkipBlanks(s);
    if AtElement(t) {
      AtElementMeans(t);
      ElementTurnAgain(t, x);
    } else if t != "" && t[0] != '<' {
      AtElementMeans(t);
      ContentTurnAgain(t, x);
    } else {
      SilentTurn(s);
      assert "" + x == x;
    }
  }

  lemma ContentTurnAgain(t: string, x: string)
    requires t != "" && !Blank(t[0]) && t[0] != '<'
    requires x != "" ==> !Blank(x[0])
    ensures Strip(ReadContent(t).out + x) == ReadContent(t).out + Strip(x)
    ensures EndsInName(ReadContent(t).out + x) == EndsInName(x)
  {
    var n := Span(Open, t);
    SpanStops(Open, t);
    TrimTailOfContent("", t[..n]);
    TrimShows(t[..n]);
    ContentAgain(TrimRight(t[..n]), x);
  }

  lemma ElementTurnAgain(t: string, x: string)
    requires AtElement(t) && Span(NameEnd, t) < |t|
    requires ReadElement(t).rest == "" ==> x == ""
    ensures Strip(ReadElement(t).out + x) == ReadElement(t).out + Strip(x)
    ensures EndsInName(ReadElement(t).out + x) == EndsInName(x)
  {
    hide Strip, Turn, ReadElement, AtElement, EndsInName, NameRunsOut, SkipBlanks, Span;
    ElementAgain(t, x);
    ElementTurn(ReadElement(t).out + x);
    Unfold(ReadElement(t).out + x, Scan(ReadElement(t).out, x));
  }

  /** An element name at the very end gains a blank on every one of the first two passes. */
  lemma {:induction false} SecondPass(s: string)
    ensures Strip(Strip(s)) == Strip(s) + (if EndsInName(s) then " " else "")
    ensures !EndsInName(Strip(s))
    decreases |s|
  {
    if s == "" {
    } else if NameRunsOut(s) {
      NameGainsBlank(s);
    } else {
      var turn := Turn(s);
      SecondPass(turn.rest);
      StripShows(turn.rest);
      TurnAgain(s, Strip(turn.rest));
      Concat3(turn.out, Strip(turn.rest), if EndsInName(s) then " " else "");
    }
  }

  lemma NameGainsBlank(s: string)
    requires s != "" && NameRunsOut(s)
    ensures Strip(Strip(s)) == Strip(s) + " " && !EndsInName(Strip(s))
  {
    var t := SkipBlanks(s);
    SpanStops(NameEnd, t);
    ElementWithoutEnd(t, "");
    ElementWithoutEnd(t, " ");
    AtElementMeans(t);
    ElementTurn(t + " ");
    assert t + "" == t;
    Unfold(s, Scan(t + " ", ""));
    Unfold(t + " ", Scan(t + " " + " ", ""));
    assert Strip(s) == t + " ";
    assert Strip(t + " ") == t + " " + " ";
  }

  lemma UnclosedAttributes(gap: string)
    requires gap == "" || gap == " "
    ensures ReadAttributes(gap) == Scan(gap + " ", "")
  {
    SpanIs(AttributeEnd, "", 0);
    SkipBlanksPrefix(gap, "");
    assert gap + "" == gap;
  }

  /** An element that is only a name, with or without one blank after it, up to the end of the text. */
  lemma ElementWithoutEnd(t: string, gap: string)
    requires AtElement(t) && Span(NameEnd, t) == |t|
    requires gap == "" || gap == " "
    ensures ReadElement(t + gap) == Scan(t + gap + " ", "")
    ensures AtElement(t + gap) && Span(NameEnd, t + gap) == |t|
  {
    SpanStops(NameEnd, t);
    SpanIs(NameEnd, t + gap, |t|);
    assert forall i :: 0 <= i < |t| ==> (t + gap)[i] == t[i];
    assert (t + gap)[..|t|] == t && (t + gap)[|t|..] == gap;
    UnclosedAttributes(gap);
    Concat3(t, gap, " ");
  }

  /** Uniformising is idempotent exactly on the texts that do not end inside an element name. */
  lemma IdempotentExactly(s: string)
    ensures Strip(Strip(s)) == Strip(s) <==> !EndsInName(s)
  {
    SecondPass(s);
  }

  /** One such text: "<a" becomes "<a ", and that becomes "<a  ". */
  lemma NameWithoutEnd()
    ensures EndsInName("<a") && Strip("<a") == "<a " && Strip(Strip("<a")) == "<a  "
  {
    OnlyName();
    ElementWithoutEnd("<a", "");
    ElementTurn("<a");
    hide Turn, ReadElement, NameRunsOut, SkipBlanks, Span, AtElement;
    BlanksBehind();
    Unfold("<a", Scan("<a ", ""));
    hide Strip, EndsInName;
    StripNothing();
    NameGainsBlank("<a");
  }

  lemma StripNothing()
    ensures Strip("") == ""
  {
  }

  lemma BlanksBehind()
    ensures "<a" + "" == "<a" && "<a" + " " == "<a " && "<a " + "" == "<a " && "<a " + " " == "<a  "
  {
  }

  lemma OnlyName()
    ensures AtElement("<a") && Span(NameEnd, "<a") == |"<a"| && NameRunsOut("<a")
  {
    SpanIs(NameEnd, "<a", 2);
    SkipNothing("<a");
    hide Span, SkipBlanks;
  }

  /** The second pass is final for every text. */
  lemma ThirdPassChangesNothing(s: string)
    ensures Strip(Strip(Strip(s))) == Strip(Strip(s))
  {
    SecondPass(s);
    SecondPass(Strip(s));
  }
}
