/** Uniformising printed XML removes exactly the layout that printing added. */
module PrintAndStrip {
  import opened Sequences
  import opened Text
  import opened Uniformiser
  import opened XmlElements
  import opened Idempotence

  /** Names that the uniformiser reads back as one name. */
  predicate ElementNameSafe(name: string) {
    Span(NameEnd, name) == |name| && !StartsWith(name, "?") && !StartsWith(name, "!--")
  }

  predicate AttributeNameSafe(name: string) { Span(AttributeEnd, name) == |name| }

  predicate Printable(e: Element)
    decreases e
  {
    ElementNameSafe(e.name) &&
    (forall a :: a in e.attributes ==> AttributeNameSafe(a.name)) &&
    (forall c :: c in e.elements ==> Printable(c))
  }

  /** The printed text without any layout, and with the content trimmed. */
  function Compact(e: Element): string
    decreases e
  {
    StartTag(e) + CompactAll(e.elements) + Escape(Trim(e.content)) + EndTag(e)
  }

  function CompactAll(es: seq<Element>): string
    decreases es
  {
    if es == [] then "" else Compact(es[0]) + CompactAll(es[1..])
  }

  lemma StripBlanks(b: string, s: string)
    requires AllBlank(b)
    ensures Strip(b + s) == Strip(s)
  {
    hide ReadElement, ReadContent;
    SkipBlanksPrefix(b, s);
    if s == "" {
      SkipBlanksPrefix("", "");
      assert b + "" == b;
      SilentEnd(b);
    } else {
      assert Turn(b + s) == Turn(s);
    }
  }

  lemma SilentEnd(b: string)
    requires AllBlank(b)
    ensures b != "" ==> Turn(b) == Scan("", "")
  {
    SkipBlanksPrefix(b, "");
    assert b + "" == b;
  }

  lemma {:induction false} EscapeSafe(s: string)
    ensures forall i :: 0 <= i < |Escape(s)| ==> Escape(s)[i] != '<' && Escape(s)[i] != '>' && Escape(s)[i] != '"'
    ensures s != "" ==> Escape(s) != "" && (Blank(Escape(s)[0]) <==> Blank(s[0]))
  {
    if s != "" {
      EscapeSafe(s[1..]);
      var e := Entity(s[0]);
      assert forall i :: 0 <= i < |e| ==> e[i] != '<' && e[i] != '>' && e[i] != '"';
    }
  }

  /** Text up to a quote is read up to that quote. */
  lemma QuoteReached(d: string, y: string)
    requires forall i :: 0 <= i < |d| ==> d[i] != '"'
    ensures UntilQuote(d + ("\"" + y)) == Scan(d + "\"", y)
  {
    SpanIs(Quote, d + ("\"" + y), |d|);
    Concat3(d, "\"", y);
    Cut(d + "\"", y);
  }

  lemma QuotedText(d: string, y: string)
    requires forall i :: 0 <= i < |d| ==> d[i] != '"'
    ensures ReadValue("\"" + (d + ("\"" + y))) == Scan("\"" + (d + "\""), y)
  {
    var rest := d + ("\"" + y);
    QuoteReached(d, y);
    QuoteReached("", rest);
    assert "" + ("\"" + rest) == "\"" + rest && "" + "\"" == "\"";
    SkipNothing("\"" + rest);
    hide UntilQuote, SkipBlanks;
  }

  /** An escaped value between its quotes is read as one value. */
  lemma QuotedValue(v: string, y: string)
    ensures ReadValue("\"" + (Escape(v) + ("\"" + y))) == Scan("\"" + (Escape(v) + "\""), y)
  {
    hide ReadValue, Escape;
    EscapeSafe(v);
    QuotedText(Escape(v), y);
  }

  lemma AttributeTextNested(a: Attribute, y: string)
    ensures AttributeText(a) == a.name + ("=" + ("\"" + (Escape(a.value) + "\"")))
    ensures AttributeText(a) + y == a.name + ("=" + ("\"" + (Escape(a.value) + ("\"" + y))))
  {
  }

  lemma PrintedAttribute(a: Attribute, y: string)
    requires AttributeNameSafe(a.name)
    ensures ReadAttribute(AttributeText(a) + y) == Scan(AttributeText(a), y)
  {
    hide ReadValue;
    var value := "\"" + (Escape(a.value) + "\"");
    var rest := "\"" + (Escape(a.value) + ("\"" + y));
    AttributeTextNested(a, y);
    QuotedValue(a.value, y);
    NameRead(a.name, "=" + rest);
    SkipNothing("=" + rest);
    Cut("=", rest);
    Concat3(a.name, "=", value);
  }

  lemma NameRead(name: string, y: string)
    requires AttributeNameSafe(name)
    requires y != "" && Stops(AttributeEnd, y[0])
    ensures Span(AttributeEnd, name + y) == |name|
    ensures (name + y)[..|name|] == name && (name + y)[|name|..] == y
  {
    SpanStops(AttributeEnd, name);
    SpanIs(AttributeEnd, name + y, |name|);
  }

  /** The attribute list and the '>' after it are read back as written. */
  lemma {:induction false} PrintedAttributes(attributes: seq<Attribute>, y: string)
    requires forall a :: a in attributes ==> AttributeNameSafe(a.name)
    ensures ReadAttributes(AttributeList(attributes) + ">" + y) == Scan(AttributeList(attributes) + ">", y)
  {
    hide ReadAttributes, ReadSpaced, ReadAttribute, AttributeText, SkipBlanks;
    if attributes == [] {
      NoAttributes(y);
      assert "" + ">" == ">";
    } else {
      var a := attributes[0];
      var more := AttributeList(attributes[1..]) + ">";
      PrintedAttributes(attributes[1..], y);
      PrintedAttribute(a, more + y);
      AttributeStarts(a);
      SpacedBack(" ", AttributeText(a), more + y);
      Concat3(" " + AttributeText(a), AttributeList(attributes[1..]), ">");
      Concat3(" " + AttributeText(a), more, y);
      AttributesFollow(" " + AttributeText(a), more, y);
    }
  }

  lemma NoAttributes(y: string)
    ensures ReadAttributes(">" + y) == Scan(">", y)
  {
    SkipNothing(">" + y);
    Cut(">", y);
  }

  lemma AttributesFollow(one: string, more: string, y: string)
    requires !StartsWith(SkipBlanks(one + (more + y)), ">")
    requires ReadSpaced(one + (more + y)) == Scan(one, more + y)
    requires more != "" && ReadAttributes(more + y) == Scan(more, y)
    ensures ReadAttributes(one + (more + y)) == Scan(one + more, y)
  {
  }

  lemma AttributeStarts(a: Attribute)
    requires AttributeNameSafe(a.name)
    ensures AttributeText(a) != "" && !Blank(AttributeText(a)[0]) && AttributeText(a)[0] != '>'
  {
    SpanStops(AttributeEnd, a.name);
  }

  lemma TagName(name: string, z: string)
    requires Span(NameEnd, name) == |name| && EndsName(z)
    ensures Span(NameEnd, "<" + name + z) == |"<" + name|
  {
    var s := "<" + name + z;
    SpanStops(NameEnd, name);
    assert forall i :: 1 <= i < 1 + |name| ==> s[i] == name[i - 1];
    assert s[0] == '<';
    SpanIs(NameEnd, s, 1 + |name|);
  }

  /** A tag in front of any text is copied as it stands. */
  lemma StripTag(name: string, list: string, y: string)
    requires AtElement("<" + name + list + ">") && Span(NameEnd, name) == |name|
    requires EndsName(list + ">")
    requires ReadAttributes(list + ">" + y) == Scan(list + ">", y)
    ensures Strip("<" + name + list + ">" + y) == "<" + name + list + ">" + Strip(y)
  {
    hide ReadAttributes;
    var tag, head, tail := "<" + name + list + ">", "<" + name, list + ">";
    Concat3(head, list, ">");
    Concat3(head, tail, y);
    TagName(name, tail);
    Cut(head, tail);
    NameKept(head, tail + y, tag);
    assert ReadElement(head + (tail + y)) == Scan(head + tail, y);
    ElementTurn(tag + y);
    Unfold(tag + y, Scan(tag, y));
  }

  lemma StripEndTag(e: Element, y: string)
    requires Printable(e)
    ensures Strip(EndTag(e) + y) == EndTag(e) + Strip(y)
  {
    var name := "/" + e.name;
    SpanStops(NameEnd, e.name);
    SpanIs(NameEnd, name, |name|);
    NoAttributes(y);
    assert "" + ">" == ">" && "<" + name + "" == "<" + name;
    assert EndTag(e) == "<" + name + "" + ">";
    StripTag(name, "", y);
  }

  lemma TagOpens(name: string, z: string)
    requires !StartsWith(name, "?") && !StartsWith(name, "!--") && EndsName(z)
    ensures AtElement("<" + name + z)
  {
    var s := "<" + name + z;
    assert |name| >= 1 ==> name[..1] == [name[0]];
    assert |name| >= 3 ==> name[..3] == [name[0], name[1], name[2]];
    assert s[0] == '<' && s[|name| + 1] == z[0];
    assert forall i :: 0 <= i < |name| ==> s[i + 1] == name[i];
  }

  lemma ListEndsName(attributes: seq<Attribute>)
    ensures EndsName(AttributeList(attributes) + ">")
  {
    if attributes != [] {
      assert AttributeList(attributes)[0] == ' ';
    }
  }

  lemma StripStartTag(e: Element, y: string)
    requires Printable(e)
    ensures Strip(StartTag(e) + y) == StartTag(e) + Strip(y)
  {
    hide ReadAttributes, AttributeList, AtElement, EndsName, Strip;
    var list := AttributeList(e.attributes);
    ListEndsName(e.attributes);
    TagOpens(e.name, list + ">");
    Concat3("<" + e.name, list, ">");
    PrintedAttributes(e.attributes, y);
    StripTag(e.name, list, y);
  }

  /** Text without '<' in front of a tag is trimmed at both ends. */
  lemma StripText(d: string, y: string)
    requires '<' !in d
    requires y != "" && y[0] == '<'
    ensures Strip(d + y) == Trim(d) + Strip(y)
  {
    hide Strip, TrimRight;
    var k := Span(NonBlank, d);
    SpanStops(NonBlank, d);
    assert d == d[..k] + d[k..];
    Concat3(d[..k], d[k..], y);
    StripBlanks(d[..k], d[k..] + y);
    StripWord(d[k..], y);
  }

  lemma StripWord(w: string, y: string)
    requires w != "" ==> !Blank(w[0])
    requires '<' !in w
    requires y != "" && y[0] == '<'
    ensures Strip(w + y) == TrimRight(w) + Strip(y)
  {
    if w == "" {
      assert w + y == y && TrimRight(w) + Strip(y) == Strip(y);
    } else {
      ContentTurn(w, y);
      Unfold(w + y, Scan(TrimRight(w), y));
    }
  }

  /** Layout around a content does not survive trimming. */
  lemma TrimLayout(b: string, d: string, c: string)
    requires AllBlank(b) && AllBlank(c)
    ensures Trim(b + d + c) == Trim(d)
  {
    hide SkipBlanks;
    Concat3(b, d, c);
    SkipBlanksPrefix(b, d + c);
    SkipBlanksSuffix(d, c);
    if SkipBlanks(d) != "" {
      TrimRightSuffix(SkipBlanks(d), c);
    }
  }

  lemma SkipBlanksSuffix(d: string, c: string)
    requires AllBlank(c)
    ensures SkipBlanks(d + c) == if SkipBlanks(d) == "" then "" else SkipBlanks(d) + c
  {
    var k := Span(NonBlank, d);
    SpanStops(NonBlank, d);
    SpanIs(NonBlank, d + c, if k == |d| then |d| + |c| else k);
    assert k < |d| ==> (d + c)[k..] == d[k..] + c;
  }

  lemma TrimRightSuffix(w: string, c: string)
    requires AllBlank(c)
    ensures TrimRight(w + c) == TrimRight(w)
  {
    var r := TrimRight(w);
    assert (w + c)[|r|..] == w[|r|..] + c;
    TrimRightIs(w + c, r);
  }

  /** Escaping leaves blanks alone, so it can be exchanged with trimming. */
  lemma {:induction false} EscapeBlanks(b: string)
    requires AllBlank(b)
    ensures Escape(b) == b
  {
    if b != "" {
      EscapeBlanks(b[1..]);
      assert b == [b[0]] + b[1..];
    }
  }

  lemma {:induction false} EscapeConcat(a: string, b: string)
    ensures Escape(a + b) == Escape(a) + Escape(b)
  {
    if a == "" {
      assert a + b == b;
    } else {
      assert (a + b)[1..] == a[1..] + b;
      EscapeConcat(a[1..], b);
      Concat3(Entity(a[0]), Escape(a[1..]), Escape(b));
    }
  }

  lemma TrimEscape(s: string)
    ensures Trim(Escape(s)) == Escape(Trim(s))
  {
    var k := Span(NonBlank, s);
    SpanStops(NonBlank, s);
    var t := s[k..];
    var r := TrimRight(t);
    assert s == s[..k] + r + t[|r|..];
    EscapeConcat(s[..k] + r, t[|r|..]);
    EscapeConcat(s[..k], r);
    EscapeBlanks(s[..k]);
    EscapeBlanks(t[|r|..]);
    TrimLayout(s[..k], Escape(r), t[|r|..]);
    TrimmedEscape(r);
  }

  lemma TrimmedEscape(r: string)
    requires r != "" ==> !Blank(r[0]) && !Blank(r[|r| - 1])
    ensures Trim(Escape(r)) == Escape(r)
  {
    hide Trim, Escape;
    if r == "" {
      NothingToEscape();
    } else {
      EscapeSafe(r);
      assert r == r[..|r| - 1] + [r[|r| - 1]];
      EscapeEnds(r[..|r| - 1], r[|r| - 1]);
    }
    TrimNone(Escape(r));
  }

  lemma TrimNone(x: string)
    requires x != "" ==> !Blank(x[0]) && !Blank(x[|x| - 1])
    ensures Trim(x) == x
  {
    hide TrimRight, SkipBlanks;
    SkipNothing(x);
    assert x[|x|..] == "";
    TrimRightIs(x, x);
  }

  lemma NothingToEscape()
    ensures Escape("") == ""
  {
  }

  lemma EscapeEnds(init: string, c: char)
    requires !Blank(c)
    ensures Escape(init + [c]) != "" && !Blank(Escape(init + [c])[|Escape(init + [c])| - 1])
  {
    EscapePush(init, c);
    var e := Entity(c);
    assert (Escape(init) + e)[|Escape(init) + e| - 1] == e[|e| - 1];
  }

  lemma ContentTextTrimmed(e: Element, indent: string)
    requires AllBlank(indent)
    ensures Trim(ContentText(e, indent)) == Escape(Trim(e.content))
    ensures '<' !in ContentText(e, indent)
  {
    hide TrimRight, SkipBlanks, Trim;
    EscapeSafe(e.content);
    TrimEscape(e.content);
    if e.elements != [] {
      if e.content == "" {
        TrimLayout(indent, "", "");
        assert indent + "" + "" == indent == ContentText(e, indent);
        assert Escape("") == "";
      } else {
        assert ContentText(e, indent) == indent + Escape(e.content) + ("\n" + indent);
        TrimLayout(indent, Escape(e.content), "\n" + indent);
      }
    }
  }

  /** The printed element in front of any text, taken apart. */
  lemma Printed(e: Element, indent: string, tail: string)
    ensures ToString(e, indent) + tail ==
            indent + (StartTag(e) +
                      ((if e.elements == [] then "" else "\n" + ToStrings(e.elements, indent + "  ")) +
                       (ContentText(e, indent) + (EndTag(e) + ("\n" + tail)))))
  {
    var start := indent + StartTag(e);
    var middle := if e.elements == [] then "" else "\n" + ToStrings(e.elements, indent + "  ");
    var text := ContentText(e, indent);
    Concat3(start + middle + text + EndTag(e), "\n", tail);
    Concat3(start + middle + text, EndTag(e), "\n" + tail);
    Concat3(start + middle, text, EndTag(e) + ("\n" + tail));
    Concat3(start, middle, text + (EndTag(e) + ("\n" + tail)));
    Concat3(indent, StartTag(e), middle + (text + (EndTag(e) + ("\n" + tail))));
  }

  /** One printed element in front of any text. */
  lemma {:induction false} StripPrinted(e: Element, indent: string, tail: string)
    requires Printable(e) && AllBlank(indent)
    ensures Strip(ToString(e, indent) + tail) == Compact(e) + Strip(tail)
    decreases e, 1
  {
    hide Strip, ToString, StartTag, EndTag;
    var close := EndTag(e) + ("\n" + tail);
    var text := ContentText(e, indent) + close;
    Printed(e, indent, tail);
    StripEndTag(e, "\n" + tail);
    StripBlanks("\n", tail);
    ContentTextTrimmed(e, indent);
    EndTagStarts(e, "\n" + tail);
    StripText(ContentText(e, indent), close);
    StripChildren(e, indent, text);
    var rest := (if e.elements == [] then "" else "\n" + ToStrings(e.elements, indent + "  ")) + text;
    StripStartTag(e, rest);
    StripBlanks(indent, StartTag(e) + rest);
    CompactParts(e, Strip(tail));
  }

  lemma EndTagStarts(e: Element, y: string)
    ensures EndTag(e) + y != "" && (EndTag(e) + y)[0] == '<'
  {
  }

  lemma CompactParts(e: Element, y: string)
    ensures StartTag(e) + (CompactAll(e.elements) + (Escape(Trim(e.content)) + (EndTag(e) + y))) == Compact(e) + y
  {
    var a, b, c := StartTag(e), CompactAll(e.elements), Escape(Trim(e.content));
    Concat3(a + b + c, EndTag(e), y);
    Concat3(a + b, c, EndTag(e) + y);
    Concat3(a, b, c + (EndTag(e) + y));
  }

  lemma {:induction false} StripChildren(e: Element, indent: string, text: string)
    requires Printable(e) && AllBlank(indent)
    ensures var children := if e.elements == [] then "" else "\n" + ToStrings(e.elements, indent + "  ");
            Strip(children + text) == CompactAll(e.elements) + Strip(text)
    decreases e, 0
  {
    hide Strip, ToString;
    if e.elements == [] {
      assert "" + text == text && "" + Strip(text) == Strip(text);
    } else {
      var children := ToStrings(e.elements, indent + "  ");
      Concat3("\n", children, text);
      StripBlanks("\n", children + text);
      StripAllPrinted(e.elements, indent + "  ", text);
    }
  }

  lemma {:induction false} StripAllPrinted(es: seq<Element>, indent: string, tail: string)
    requires (forall c :: c in es ==> Printable(c)) && AllBlank(indent)
    ensures Strip(ToStrings(es, indent) + tail) == CompactAll(es) + Strip(tail)
    decreases es, 0
  {
    hide Strip, ToString;
    if es == [] {
      assert "" + tail == tail && "" + Strip(tail) == Strip(tail);
    } else {
      var more := ToStrings(es[1..], indent);
      Concat3(ToString(es[0], indent), more, tail);
      StripAllPrinted(es[1..], indent, tail);
      StripPrinted(es[0], indent, more + tail);
      Concat3(Compact(es[0]), CompactAll(es[1..]), Strip(tail));
    }
  }

  /** Uniformising printed XML gives the compact text, whatever the indentation. */
  lemma StripOfPrint(e: Element, indent: string)
    requires Printable(e) && AllBlank(indent)
    ensures Strip(ToString(e, indent)) == Compact(e)
  {
    StripPrinted(e, indent, "");
    assert ToString(e, indent) + "" == ToString(e, indent) && Compact(e) + Strip("") == Compact(e);
  }
}
