/** XML element trees: their pretty-printed text and the compact text it stands for. */
module XmlElements {
  import opened Sequences

  datatype Attribute = Attribute(name: string, value: string)

  datatype Element = Element(
    name: string, attributes: seq<Attribute>, elements: seq<Element>, content: string)

  /** The predefined entities of section 4.6 of XML 1.0. */
  function Entity(c: char): string {
    match c
    case '<' => "&lt;"
    case '>' => "&gt;"
    case '&' => "&amp;"
    case '\'' => "&apos;"
    case '"' => "&quot;"
    case _ => [c]
  }

  function Escape(s: string): string {
    if s == "" then "" else Entity(s[0]) + Escape(s[1..])
  }

  function AttributeText(a: Attribute): string {
    a.name + "=\"" + Escape(a.value) + "\""
  }

  /** Each attribute with the blank in front of it. */
  function AttributeList(attributes: seq<Attribute>): string {
    if attributes == [] then "" else " " + AttributeText(attributes[0]) + AttributeList(attributes[1..])
  }

  function StartTag(e: Element): string { "<" + e.name + AttributeList(e.attributes) + ">" }

  function EndTag(e: Element): string { "</" + e.name + ">" }

  /** What stands between the last child and the end tag: the content with the layout around it. */
  function ContentText(e: Element, indent: string): string {
    if e.elements == [] then Escape(e.content)
    else indent + (if e.content == "" then "" else Escape(e.content) + "\n" + indent)
  }

  function ToString(e: Element, indent: string): string
    decreases e
  {
    indent + StartTag(e) +
    (if e.elements == [] then "" else "\n" + ToStrings(e.elements, indent + "  ")) +
    ContentText(e, indent) + EndTag(e) + "\n"
  }

  function ToStrings(es: seq<Element>, indent: string): string
    decreases es
  {
    if es == [] then "" else ToString(es[0], indent) + ToStrings(es[1..], indent)
  }

  /** The entities as they are written. */
  lemma EscapeSpelled(c: char)
    ensures Escape("<") == "&lt;" && Escape(">") == "&gt;" && Escape("&") == "&amp;"
    ensures Escape("'") == "&apos;" && Escape("\"") == "&quot;"
    ensures c != '<' && c != '>' && c != '&' && c != '\'' && c != '"' ==> Escape([c]) == [c]
  {
    EscapeOne('<');
    EscapeOne('>');
    EscapeOne('&');
    EscapeOne('\'');
    EscapeOne('"');
    EscapeOne(c);
    hide Escape;
  }

  lemma EscapeOne(c: char)
    ensures Escape([c]) == Entity(c)
  {
    assert [c][1..] == "" && Entity(c) + "" == Entity(c);
  }

  /** An element without children stands on one line. */
  lemma OneLine(name: string, attributes: seq<Attribute>, content: string, indent: string)
    ensures ToString(Element(name, attributes, [], content), indent) ==
            indent + ("<" + name + AttributeList(attributes) + ">" + Escape(content) + "</" + name + ">\n")
  {
    hide AttributeList, Escape;
    var start := "<" + name + AttributeList(attributes) + ">";
    assert indent + start + "" == indent + start;
    EndOfLine(name);
    Concat3(indent + start + Escape(content), "</" + name + ">", "\n");
    Concat3(indent + start, Escape(content), "</" + name + ">\n");
    Concat3(indent, start, Escape(content) + ("</" + name + ">\n"));
    Concat3(start, Escape(content), "</" + name + ">\n");
    Concat3(start + Escape(content), "</" + name, ">\n");
    Concat3(start + Escape(content), "</", name);
  }

  lemma EndOfLine(name: string)
    ensures ("</" + name + ">") + "\n" == "</" + name + ">\n"
  {
    assert ">" + "\n" == ">\n";
    Concat3("</" + name, ">", "\n");
  }

  /**
   * One with children has its tags on lines of their own, the children between them two blanks further in, and its
   * content, if there is any, on a line of its own behind them.
   */
  lemma ManyLines(name: string, attributes: seq<Attribute>, elements: seq<Element>, content: string, indent: string)
    requires elements != []
    ensures ToString(Element(name, attributes, elements, content), indent) ==
            indent + ("<" + name + AttributeList(attributes) + ">\n") + ToStrings(elements, indent + "  ") +
            (if content == "" then "" else indent + Escape(content) + "\n") +
            (indent + ("</" + name + ">\n"))
  {
    hide AttributeList, Escape, ToStrings;
    var start, children := "<" + name + AttributeList(attributes) + ">", ToStrings(elements, indent + "  ");
    var open := indent + start + ("\n" + children);
    Concat3(indent, start, "\n");
    Concat3(indent + start, "\n", children);
    assert ">" + "\n" == ">\n";
    Concat3("<" + name + AttributeList(attributes), ">", "\n");
    EndOfLine(name);
    Concat3(open + ContentText(Element(name, attributes, elements, content), indent), "</" + name + ">", "\n");
    if content == "" {
      assert indent + "" == indent && open + "" == open;
      Concat3(open, indent, "</" + name + ">\n");
    } else {
      var text := Escape(content);
      Concat3(text, "\n", indent);
      Concat3(indent, text, "\n" + indent);
      Concat3(indent + text, "\n", indent);
      Concat3(open, indent + text + "\n", indent);
      Concat3(open + (indent + text + "\n"), indent, "</" + name + ">\n");
    }
  }

  /** Every attribute has a blank in front and its value, escaped, between double quotes. */
  lemma {:induction false} AttributesSpelled(attributes: seq<Attribute>, i: nat)
    requires i < |attributes|
    ensures AttributeList(attributes) ==
            AttributeList(attributes[..i]) + (" " + attributes[i].name + "=\"" + Escape(attributes[i].value) + "\"") +
            AttributeList(attributes[i + 1..])
  {
    var a := attributes[i];
    hide Escape;
    Concat3(" ", a.name + "=\"" + Escape(a.value), "\"");
    Concat3(" ", a.name + "=\"", Escape(a.value));
    Concat3(" ", a.name, "=\"");
    assert " " + AttributeText(a) == " " + a.name + "=\"" + Escape(a.value) + "\"";
    hide AttributeText;
    if i == 0 {
      var one := " " + AttributeText(a);
      assert attributes[..0] == [] && "" + one == one;
    } else {
      var first := " " + AttributeText(attributes[0]);
      AttributesSpelled(attributes[1..], i - 1);
      assert attributes[1..][..i - 1] == attributes[..i][1..] && attributes[1..][i..] == attributes[i + 1..];
      var before, own, after := AttributeList(attributes[..i][1..]), " " + AttributeText(a), AttributeList(attributes[i + 1..]);
      Concat3(first, before + own, after);
      Concat3(first, before, own);
    }
  }

  lemma {:induction false} ToStringsPush(es: seq<Element>, e: Element, indent: string)
    ensures ToStrings(es + [e], indent) == ToStrings(es, indent) + ToString(e, indent)
  {
    if es == [] {
      assert [e][1..] == [];
      assert ToStrings([e], indent) == ToString(e, indent) + "";
    } else {
      assert (es + [e])[1..] == es[1..] + [e];
      ToStringsPush(es[1..], e, indent);
      Concat3(ToString(es[0], indent), ToStrings(es[1..], indent), ToString(e, indent));
    }
  }

  lemma {:induction false} AttributeListPush(attributes: seq<Attribute>, a: Attribute)
    ensures AttributeList(attributes + [a]) == AttributeList(attributes) + " " + AttributeText(a)
  {
    if attributes == [] {
      assert [a][1..] == [];
    } else {
      assert (attributes + [a])[1..] == attributes[1..] + [a];
      AttributeListPush(attributes[1..], a);
    }
  }

  lemma {:induction false} EscapePush(s: string, c: char)
    ensures Escape(s + [c]) == Escape(s) + Entity(c)
  {
    if s == "" {
      assert [c][1..] == "";
    } else {
      assert (s + [c])[1..] == s[1..] + [c];
      EscapePush(s[1..], c);
      Concat3(Entity(s[0]), Escape(s[1..]), Entity(c));
    }
  }

  class XmlElement {
    var name: string
    var content: string
    var attributes: seq<Attribute>
    var elements: seq<XmlElement>
    ghost var Repr: set<XmlElement>

    ghost predicate Valid()
      reads this, Repr
      ensures Valid() ==> this in Repr
      decreases Repr
    {
      this in Repr &&
      forall e :: e in elements ==> e in Repr && e.Repr <= Repr && this !in e.Repr && e.Valid()
    }

    /** The value this element and everything below it stand for. */
    ghost function Tree(): Element
      requires Valid()
      reads this, Repr
      decreases Repr, |elements| + 1
    {
      Element(name, attributes, Trees(|elements|), content)
    }

    ghost function Trees(n: nat): (ts: seq<Element>)
      requires Valid() && n <= |elements|
      reads this, Repr
      ensures |ts| == n
      decreases Repr, n
    {
      if n == 0 then [] else Trees(n - 1) + [elements[n - 1].Tree()]
    }

    constructor (elementName: string, content: string)
      ensures Valid() && fresh(Repr)
      ensures Tree() == Element(elementName, [], [], content)
    {
      name := elementName;
      this.content := content;
      attributes := [];
      elements := [];
      Repr := {this};
    }

    /** Changing fields of this element alone leaves the trees of its children as they were. */
    twostate lemma TreesKept(n: nat)
      requires old(Valid()) && Valid()
      requires n <= |old(elements)| && n <= |elements| && elements[..n] == old(elements)[..n]
      requires forall o :: o in old(Repr) && o != this ==> unchanged(o)
      ensures Trees(n) == old(Trees(n))
    {
      if n > 0 {
        TreesKept(n - 1);
        var e := elements[n - 1];
        assert e == elements[..n][n - 1] == old(elements)[n - 1];
        assert old(e.Repr <= Repr && this !in e.Repr && e.Valid());
      }
    }

    method SetName(name: string)
      requires Valid()
      modifies this
      ensures Valid() && Repr == old(Repr) && Tree() == old(Tree()).(name := name)
    {
      this.name := name;
      TreesKept(|elements|);
    }

    method SetContent(content: string)
      requires Valid()
      modifies this
      ensures Valid() && Repr == old(Repr) && Tree() == old(Tree()).(content := content)
    {
      this.content := content;
      TreesKept(|elements|);
    }

    method AddAttribute(attributeName: string, value: string)
      requires Valid()
      modifies this
      ensures Valid() && Repr == old(Repr)
      ensures Tree() == old(Tree()).(attributes := old(Tree()).attributes + [Attribute(attributeName, value)])
    {
      attributes := attributes + [Attribute(attributeName, value)];
      TreesKept(|elements|);
    }

    method AddElement(node: XmlElement)
      requires Valid() && node.Valid() && this !in node.Repr
      modifies this
      ensures Valid() && Repr == old(Repr) + node.Repr
      ensures Tree() == old(Tree()).(elements := old(Tree()).elements + [old(node.Tree())])
    {
      elements := elements + [node];
      Repr := Repr + node.Repr;
      TreesKept(|elements| - 1);
    }

    static method EscapeText(value: string) returns (escaped: string)
      ensures escaped == Escape(value)
    {
      escaped := "";
      for index := 0 to |value|
        invariant escaped == Escape(value[..index])
      {
        assert value[..index + 1] == value[..index] + [value[index]];
        EscapePush(value[..index], value[index]);
        match value[index] {
          case '<' => escaped := escaped + "&lt;";
          case '>' => escaped := escaped + "&gt;";
          case '&' => escaped := escaped + "&amp;";
          case '\'' => escaped := escaped + "&apos;";
          case '"' => escaped := escaped + "&quot;";
          case _ => escaped := escaped + [value[index]];
        }
      }
      assert value[..|value|] == value;
    }

    /** The attributes separated by blanks: no blank in front of the first. */
    method AttributesAsString() returns (text: string)
      ensures Separates(text, AttributeList(attributes))
    {
      text := "";
      for index := 0 to |attributes|
        invariant Separates(text, AttributeList(attributes[..index]))
      {
        assert attributes[..index + 1] == attributes[..index] + [attributes[index]];
        AttributeListPush(attributes[..index], attributes[index]);
        SeparatesNext(text, AttributeList(attributes[..index]), attributes[index]);
        if text != "" {
          text := text + " ";
        }
        var value := EscapeText(attributes[index].value);
        text := text + (attributes[index].name + "=\"" + value + "\"");
      }
      assert attributes[..|attributes|] == attributes;
    }

    /** One child more. */
    lemma ChildTree(index: nat, indent: string)
      requires Valid() && index < |elements|
      ensures elements[index] in Repr && elements[index].Repr < Repr && elements[index].Valid()
      ensures ToStrings(Trees(index + 1), indent) ==
              ToStrings(Trees(index), indent) + ToString(elements[index].Tree(), indent)
    {
      ToStringsPush(Trees(index), elements[index].Tree(), indent);
    }

    method ChildrenToText(indent: string) returns (text: string)
      requires Valid()
      ensures text == ToStrings(Tree().elements, indent)
      decreases Repr, 0
    {
      text := "";
      assert ToStrings(Trees(0), indent) == "";
      hide ToString, ToStrings, Valid, Tree, Trees;
      for index := 0 to |elements|
        invariant text == ToStrings(Trees(index), indent)
      {
        ChildTree(index, indent);
        var child := elements[index].ToText(indent);
        text := text + child;
      }
      assert Tree().elements == Trees(|elements|) by { TreeParts(); }
    }

    lemma TreeParts()
      requires Valid()
      ensures Tree().elements == Trees(|elements|)
    {
    }

    method OpeningText(indent: string) returns (text: string)
      requires Valid()
      ensures text == indent + StartTag(Tree())
    {
      text := indent + "<" + name;
      ghost var list := "";
      if attributes != [] {
        var attributesText := AttributesAsString();
        list := " " + attributesText;
        text := text + " " + attributesText;
      }
      text := text + ">";
      Concat4(indent, "<" + name, list, ">");
    }

    method ContentToText(indent: string) returns (text: string)
      requires Valid()
      ensures text == ContentText(Tree(), indent)
    {
      text := "";
      if elements != [] {
        text := indent;
      }
      if content != "" {
        var escaped := EscapeText(content);
        if elements == [] {
          text := escaped;
        } else {
          text := text + (escaped + "\n" + indent);
        }
      }
    }

    method ToText(indent: string) returns (element: string)
      requires Valid()
      ensures element == ToString(Tree(), indent)
      decreases Repr, 1
    {
      element := OpeningText(indent);
      var children := "";
      if elements != [] {
        children := ChildrenToText(indent + "  ");
        children := "\n" + children;
      }
      var text := ContentToText(indent);
      element := element + children + text + ("</" + name + ">") + "\n";
    }
  }

  /** The list is the text with one blank in front, or both are empty. */
  ghost predicate Separates(text: string, list: string) {
    if text == "" then list == "" else list == " " + text
  }

  lemma SeparatesNext(text: string, list: string, a: Attribute)
    requires Separates(text, list)
    ensures Separates((if text != "" then text + " " else text) + AttributeText(a), list + " " + AttributeText(a))
  {
    if text == "" {
      assert "" + AttributeText(a) == AttributeText(a) && "" + " " == " ";
    } else {
      Concat3(" ", text + " ", AttributeText(a));
    }
  }
}
