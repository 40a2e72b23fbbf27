/** What the uniformised comparison of two printed trees decides: a parser for the compact text. */
module XmlEquality {
  import opened Sequences
  import opened Text
  import opened Uniformiser
  import opened XmlElements
  import opened Idempotence
  import opened PrintAndStrip

  datatype Parse<T> = Parsed(value: T, rest: string) | Malformed

  /** Decodes the five predefined entities; any other character stands for itself. */
  function Unescape(s: string): string {
    if s == "" then ""
    else if StartsWith(s, "&lt;") then "<" + Unescape(s[4..])
    else if StartsWith(s, "&gt;") then ">" + Unescape(s[4..])
    else if StartsWith(s, "&amp;") then "&" + Unescape(s[5..])
    else if StartsWith(s, "&apos;") then "'" + Unescape(s[6..])
    else if StartsWith(s, "&quot;") then "\"" + Unescape(s[6..])
    else s[..1] + Unescape(s[1..])
  }

  function ParseAttribute(s: string): (r: Parse<Attribute>)
    ensures r.Parsed? ==> |r.rest| < |s|
  {
    var n := Span(AttributeEnd, s);
    var u := s[n..];
    if !StartsWith(u, "=\"") then Malformed else
    var v := u[2..];
    var m := Span(Quote, v);
    if m == |v| then Malformed else
    Parsed(Attribute(s[..n], Unescape(v[..m])), v[m + 1..])
  }

  function ParseAttributes(s: string): (r: Parse<seq<Attribute>>)
    ensures r.Parsed? ==> |r.rest| <= |s|
    decreases |s|
  {
    if s == "" || s[0] != ' ' then Parsed([], s) else
    match ParseAttribute(s[1..])
    case Malformed => Malformed
    case Parsed(a, t) =>
      match ParseAttributes(t)
      case Malformed => Malformed
      case Parsed(more, rest) => Parsed([a] + more, rest)
  }

  function ParseElement(s: string): (r: Parse<Element>)
    ensures r.Parsed? ==> |r.rest| < |s|
    decreases |s|, 0
  {
    if !StartsWith(s, "<") then Malformed else
    var n := Span(NameEnd, s[1..]);
    match ParseAttributes(s[1..][n..])
    case Malformed => Malformed
    case Parsed(attributes, inner) =>
      if !StartsWith(inner, ">") then Malformed else
      match ParseElements(inner[1..])
      case Malformed => Malformed
      case Parsed(elements, t) =>
        ParseEnd(s[1..][..n], attributes, elements, t)
  }

  /** The content and the end tag. */
  function ParseEnd(name: string, attributes: seq<Attribute>, elements: seq<Element>, t: string): (r: Parse<Element>)
    ensures r.Parsed? ==> |r.rest| <= |t|
  {
    var k := Span(Open, t);
    var end := "</" + name + ">";
    if StartsWith(t[k..], end) then
      Parsed(Element(name, attributes, elements, Unescape(t[..k])), t[k..][|end|..])
    else
      Malformed
  }

  function ParseElements(s: string): (r: Parse<seq<Element>>)
    ensures r.Parsed? ==> |r.rest| <= |s|
    decreases |s|, 1
  {
    if !StartsWith(s, "<") || StartsWith(s, "</") then Parsed([], s) else
    match ParseElement(s)
    case Malformed => Malformed
    case Parsed(e, rest) =>
      match ParseElements(rest)
      case Malformed => Malformed
      case Parsed(es, rest') => Parsed([e] + es, rest')
  }

  /** Names that the compact text delimits: an element name cannot pass for an end tag. */
  predicate Readable(e: Element)
    decreases e
  {
    Span(NameEnd, e.name) == |e.name| && !StartsWith(e.name, "/") &&
    (forall a :: a in e.attributes ==> AttributeNameSafe(a.name)) &&
    (forall c :: c in e.elements ==> Readable(c))
  }

  /** The tree up to blanks at the ends of every content. */
  function Normal(e: Element): Element
    decreases e
  {
    Element(e.name, e.attributes, NormalAll(e.elements), Trim(e.content))
  }

  function NormalAll(es: seq<Element>): seq<Element>
    decreases es
  {
    if es == [] then [] else [Normal(es[0])] + NormalAll(es[1..])
  }

  lemma UnescapeEntity(c: char, y: string)
    ensures Unescape(Entity(c) + y) == [c] + Unescape(y)
  {
    var e := Entity(c);
    Cut(e, y);
    assert e <= e + y && (e + y)[0] == e[0];
    assert |e| > 1 ==> (e + y)[1] == e[1] && (e + y)[2] == e[2];
    match c
    case '<' => assert StartsWith(e + y, "&lt;");
    case '>' => assert StartsWith(e + y, "&gt;");
    case '&' => assert StartsWith(e + y, "&amp;");
    case '\'' => assert StartsWith(e + y, "&apos;");
    case '"' => assert StartsWith(e + y, "&quot;");
    case _ => assert (e + y)[0] != '&';
  }

  lemma {:induction false} UnescapeEscape(s: string)
    ensures Unescape(Escape(s)) == s
  {
    if s != "" {
      UnescapeEscape(s[1..]);
      UnescapeEntity(s[0], Escape(s[1..]));
    }
  }

  lemma ReadAttributeBack(a: Attribute, y: string)
    requires AttributeNameSafe(a.name)
    ensures ParseAttribute(AttributeText(a) + y) == Parsed(a, y)
  {
    hide Escape, Unescape, AttributeText, Span;
    var d := Escape(a.value);
    var v := d + ("\"" + y);
    AttributeTextNested(a, y);
    assert "=\"" + v == "=" + ("\"" + v);
    EscapeSafe(a.value);
    SpanIs(Quote, v, |d|);
    Concat3(d, "\"", y);
    Cut(d, "\"" + y);
    Cut(d + "\"", y);
    UnescapeEscape(a.value);
    NameRead(a.name, "=\"" + v);
    Cut("=\"", v);
  }

  lemma {:induction false} ReadAttributesBack(attributes: seq<Attribute>, y: string)
    requires forall a :: a in attributes ==> AttributeNameSafe(a.name)
    requires y != "" && y[0] == '>'
    ensures ParseAttributes(AttributeList(attributes) + y) == Parsed(attributes, y)
  {
    hide AttributeText, ParseAttribute;
    if attributes == [] {
      assert AttributeList(attributes) + y == y;
    } else {
      var text, more := AttributeText(attributes[0]), AttributeList(attributes[1..]);
      Concat3(" " + text, more, y);
      Concat3(" ", text, more + y);
      Cut(" ", text + (more + y));
      assert attributes == [attributes[0]] + attributes[1..];
      ReadAttributesBack(attributes[1..], y);
      ReadAttributeBack(attributes[0], more + y);
    }
  }

  lemma ReadEndBack(e: Element, elements: seq<Element>, x: string)
    ensures ParseEnd(e.name, e.attributes, elements, Escape(Trim(e.content)) + (EndTag(e) + x)) ==
            Parsed(Element(e.name, e.attributes, elements, Trim(e.content)), x)
  {
    var text := Escape(Trim(e.content));
    EscapeSafe(Trim(e.content));
    EndTagStarts(e, x);
    SpanIs(Open, text + (EndTag(e) + x), |text|);
    Cut(text, EndTag(e) + x);
    Cut(EndTag(e), x);
    UnescapeEscape(Trim(e.content));
  }

  /** The parser stops before an end tag or a content. */
  lemma NoMoreElements(e: Element, x: string)
    ensures var t := Escape(Trim(e.content)) + (EndTag(e) + x);
            !StartsWith(t, "<") || StartsWith(t, "</")
  {
    var text := Escape(Trim(e.content));
    EscapeSafe(Trim(e.content));
    if text == "" {
      assert text + (EndTag(e) + x) == "</" + (e.name + ">" + x);
    } else {
      assert (text + (EndTag(e) + x))[0] == text[0];
    }
  }

  lemma {:induction false} ReadBack(e: Element, x: string)
    requires Readable(e)
    ensures ParseElement(Compact(e) + x) == Parsed(Normal(e), x)
    decreases e, 1
  {
    hide Strip, Escape, ParseEnd, AttributeList;
    var ends := Escape(Trim(e.content)) + (EndTag(e) + x);
    var inner := CompactAll(e.elements) + ends;
    CompactParts(e, x);
    assert Compact(e) + x == StartTag(e) + inner;
    var list := AttributeList(e.attributes);
    Concat3("<" + e.name, list, ">");
    Concat3("<" + e.name, list + ">", inner);
    Concat3("<", e.name, list + ">" + inner);
    Cut("<", e.name + (list + ">" + inner));
    TagNameRead(e, inner);
    Concat3(list, ">", inner);
    ReadAttributesBack(e.attributes, ">" + inner);
    Cut(">", inner);
    NoMoreElements(e, x);
    ReadAllBack(e.elements, ends);
    ReadEndBack(e, NormalAll(e.elements), x);
  }

  lemma TagNameRead(e: Element, inner: string)
    requires Readable(e)
    ensures var z := AttributeList(e.attributes) + ">" + inner;
            Span(NameEnd, e.name + z) == |e.name| && (e.name + z)[..|e.name|] == e.name && (e.name + z)[|e.name|..] == z
  {
    var z := AttributeList(e.attributes) + ">" + inner;
    assert EndsName(z);
    SpanStops(NameEnd, e.name);
    SpanIs(NameEnd, e.name + z, |e.name|);
  }

  lemma {:induction false} ReadAllBack(es: seq<Element>, t: string)
    requires forall c :: c in es ==> Readable(c)
    requires !StartsWith(t, "<") || StartsWith(t, "</")
    ensures ParseElements(CompactAll(es) + t) == Parsed(NormalAll(es), t)
    decreases es, 0
  {
    if es == [] {
      assert "" + t == t;
    } else {
      var more := CompactAll(es[1..]) + t;
      Concat3(Compact(es[0]), CompactAll(es[1..]), t);
      ReadAllBack(es[1..], t);
      ReadBack(es[0], more);
      NotAnEndTag(es[0], more);
    }
  }

  lemma NotAnEndTag(e: Element, y: string)
    requires Readable(e)
    ensures StartsWith(Compact(e) + y, "<") && !StartsWith(Compact(e) + y, "</")
  {
    CompactParts(e, y);
    var rest := AttributeList(e.attributes) + ">" + (CompactAll(e.elements) + (Escape(Trim(e.content)) + (EndTag(e) + y)));
    var inner := e.name + rest;
    ListEndsName(e.attributes);
    hide Compact, CompactAll, AttributeList, Escape;
    Concat4("<", e.name, AttributeList(e.attributes), ">");
    assert Compact(e) + y == "<" + inner;
    assert rest != "" && rest[0] != '/';
    assert e.name != "" ==> e.name[..1] == [e.name[0]];
    assert inner[0] == if e.name == "" then rest[0] else e.name[0];
    assert ("<" + inner)[0] == '<' && ("<" + inner)[1] == inner[0];
  }

  /** The compact text is read back as the normal form of the tree it was printed from. */
  lemma CompactReadsBack(e: Element)
    requires Readable(e)
    ensures ParseElement(Compact(e)) == Parsed(Normal(e), "")
  {
    ReadBack(e, "");
    assert Compact(e) + "" == Compact(e);
  }

  /** Two compact texts are equal exactly when the trees are, up to blanks at the ends of contents. */
  lemma CompactDecides(a: Element, b: Element)
    requires Readable(a) && Readable(b)
    ensures Compact(a) == Compact(b) <==> Normal(a) == Normal(b)
  {
    CompactReadsBack(a);
    CompactReadsBack(b);
    CompactOfNormal(a);
    CompactOfNormal(b);
  }

  lemma {:induction false} CompactOfNormal(e: Element)
    ensures Compact(Normal(e)) == Compact(e)
    decreases e, 1
  {
    CompactAllOfNormal(e.elements);
    TrimTwice(e.content);
  }

  lemma {:induction false} CompactAllOfNormal(es: seq<Element>)
    ensures CompactAll(NormalAll(es)) == CompactAll(es)
    decreases es, 0
  {
    if es != [] {
      assert NormalAll(es)[1..] == NormalAll(es[1..]);
      CompactOfNormal(es[0]);
      CompactAllOfNormal(es[1..]);
    }
  }

  lemma TrimTwice(s: string)
    ensures Trim(Trim(s)) == Trim(s)
  {
    var t := SkipBlanks(s);
    var r := TrimRight(t);
    assert r != "" ==> r[0] == t[0];
    SkipNothing(r);
    assert r[|r|..] == "";
    TrimRightIs(r, r);
  }

  datatype Comparison = Equal | NotEqual(expected: string, actual: string, index: nat)

  method NotEqualIndex(expectedXml: string, actualXml: string) returns (index: nat)
    ensures index <= |expectedXml| && index <= |actualXml|
    ensures expectedXml[..index] == actualXml[..index]
    ensures index < |expectedXml| && index < |actualXml| ==> expectedXml[index] != actualXml[index]
  {
    index := 0;
    while index < |actualXml| && index < |expectedXml| && actualXml[index] == expectedXml[index]
      invariant index <= |expectedXml| && index <= |actualXml|
      invariant expectedXml[..index] == actualXml[..index]
    {
      index := index + 1;
    }
  }

  /** The comparison, and where the two uniformised texts part. */
  method CheckXmlEqual(expectedXml: string, actualXml: string) returns (r: Comparison)
    ensures r.Equal? <==> Strip(expectedXml) == Strip(actualXml)
    ensures r.NotEqual? ==> r.expected == Strip(expectedXml) && r.actual == Strip(actualXml)
    ensures r.NotEqual? ==> r.index <= |r.expected| && r.index <= |r.actual| &&
                            r.expected[..r.index] == r.actual[..r.index]
    ensures r.NotEqual? && r.index < |r.expected| && r.index < |r.actual| ==>
              r.expected[r.index] != r.actual[r.index]
  {
    var expectedUniformiser := new XmlUniformiser(expectedXml);
    var expected := expectedUniformiser.Stripped();
    var actualUniformiser := new XmlUniformiser(actualXml);
    var actual := actualUniformiser.Stripped();
    if expected == actual {
      return Equal;
    }
    var index := NotEqualIndex(expected, actual);
    r := NotEqual(expected, actual, index);
  }

  /** Comparing two printed trees accepts exactly the trees with equal normal forms. */
  lemma PrintedComparison(a: Element, indent: string, b: Element, indent': string)
    requires Printable(a) && Readable(a) && AllBlank(indent)
    requires Printable(b) && Readable(b) && AllBlank(indent')
    ensures Strip(ToString(a, indent)) == Strip(ToString(b, indent')) <==> Normal(a) == Normal(b)
  {
    StripOfPrint(a, indent);
    StripOfPrint(b, indent');
    CompactDecides(a, b);
  }
}
