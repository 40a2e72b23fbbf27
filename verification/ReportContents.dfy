/** The uniformised text of a report, name by name. */
module ReportContents {
  import opened Sequences
  import opened Text
  import opened Uniformiser
  import opened XmlElements
  import opened PrintAndStrip
  import opened Numbers
  import opened Tests
  import opened Protectors
  import opened Collector
  import opened Report
  import opened ReportProperties

  /** A text inside an element without attributes. */
  function Tagged(name: string, text: string): string { "<" + name + ">" + text + "</" + name + ">" }

  /** A text as it is shown in uniformised XML. */
  function Shown(text: string): string { Escape(Trim(text)) }

  // ---------- texts that are shown as they are ----------

  predicate NothingSpecial(s: string) {
    forall i :: 0 <= i < |s| ==> 'A' <= s[i] <= 'Z' || 'a' <= s[i] <= 'z' || '0' <= s[i] <= '9' || s[i] == '-'
  }

  lemma {:induction false} EscapeKeeps(s: string)
    requires NothingSpecial(s)
    ensures Escape(s) == s
  {
    if s != "" {
      EscapeKeeps(s[1..]);
      assert s == [s[0]] + s[1..];
    }
  }

  lemma ShownAsIs(s: string)
    requires NothingSpecial(s)
    ensures Shown(s) == s
  {
    EscapeKeeps(s);
    TrimNone(s);
    hide Escape, Trim;
  }

  lemma {:induction false} NotationIsPlain(n: nat)
    ensures NothingSpecial(Notation(n, 10))
  {
    if n >= 10 {
      NotationIsPlain(n / 10);
    }
  }

  lemma NumberShown(n: int)
    ensures NothingSpecial(Decimal(n)) && Shown(Decimal(n)) == Decimal(n) && Escape(Decimal(n)) == Decimal(n)
  {
    NotationIsPlain(if n < 0 then -n else n);
    hide Notation, Shown, Escape;
    ShownAsIs(Decimal(n));
    EscapeKeeps(Decimal(n));
  }

  // ---------- elements ----------

  lemma TextShown(name: string, content: string)
    ensures Compact(TextElement(name, content)) == Tagged(name, Shown(content))
  {
    var start := "<" + name + "" + ">";
    assert "<" + name + "" == "<" + name;
    assert start + "" == start;
  }

  lemma NumberElement(name: string, n: int)
    ensures Compact(TextElement(name, Decimal(n))) == Tagged(name, Decimal(n))
  {
    TextShown(name, Decimal(n));
    NumberShown(n);
    hide Compact, Decimal, Tagged, Shown;
  }

  lemma {:induction false} CompactAllConcat(a: seq<Element>, b: seq<Element>)
    ensures CompactAll(a + b) == CompactAll(a) + CompactAll(b)
  {
    if a == [] {
      assert a + b == b;
    } else {
      assert (a + b)[1..] == a[1..] + b;
      CompactAllConcat(a[1..], b);
      Concat3(Compact(a[0]), CompactAll(a[1..]), CompactAll(b));
    }
  }

  lemma CompactTwo(a: Element, b: Element)
    ensures CompactAll([a]) == Compact(a) && CompactAll([a, b]) == Compact(a) + Compact(b)
  {
    hide Compact;
    assert [a][1..] == [] && [b][1..] == [] && [a, b][1..] == [b];
    assert Compact(a) + "" == Compact(a) && Compact(b) + "" == Compact(b);
  }

  lemma NoContentShown()
    ensures Escape(Trim("")) == ""
  {
    ShownAsIs("");
  }

  lemma ElementShown(name: string, elements: seq<Element>)
    ensures Compact(Element(name, [], elements, "")) == Tagged(name, CompactAll(elements))
  {
    NoContentShown();
    assert "<" + name + "" == "<" + name;
    hide Escape, Trim, CompactAll;
    var e := Element(name, [], elements, "");
    assert StartTag(e) == "<" + name + ">";
    assert StartTag(e) + CompactAll(elements) + "" == StartTag(e) + CompactAll(elements);
    Concat3("<" + name + ">" + CompactAll(elements), "</" + name, ">");
    Concat3("<" + name + ">" + CompactAll(elements), "</", name);
  }

  /** The opening tag of an entry, which bears its number. */
  lemma NumberedShown(name: string, number: nat, elements: seq<Element>)
    ensures Compact(Element(name, [Attribute("id", Decimal(number))], elements, "")) ==
            "<" + name + " id=\"" + Decimal(number) + "\">" + CompactAll(elements) + "</" + name + ">"
  {
    NoContentShown();
    NumberShown(number);
    hide Escape, Trim, CompactAll, Decimal;
    var a := Attribute("id", Decimal(number));
    var e := Element(name, [a], elements, "");
    IdText(Decimal(number));
    OneAttribute(a);
    assert StartTag(e) == "<" + name + (" id=\"" + Decimal(number) + "\"") + ">";
    hide AttributeList, AttributeText;
    var open := "<" + name + " id=\"" + Decimal(number) + "\">";
    OpeningText(name, Decimal(number));
    assert StartTag(e) == open;
    assert open + CompactAll(elements) + "" == open + CompactAll(elements);
    Concat3(open + CompactAll(elements), "</" + name, ">");
    Concat3(open + CompactAll(elements), "</", name);
  }

  lemma OneAttribute(a: Attribute)
    ensures AttributeList([a]) == " " + AttributeText(a)
  {
    assert [a][1..] == [];
    assert " " + AttributeText(a) + "" == " " + AttributeText(a);
  }

  lemma IdText(number: string)
    requires Escape(number) == number
    ensures " " + AttributeText(Attribute("id", number)) == " id=\"" + number + "\""
  {
    hide Escape;
    assert "id" + "=\"" == "id=\"";
    Concat3(" ", "id=\"" + number, "\"");
    Concat3(" ", "id=\"", number);
    assert " " + "id=\"" == " id=\"";
  }

  lemma OpeningText(name: string, number: string)
    ensures "<" + name + (" id=\"" + number + "\"") + ">" == "<" + name + " id=\"" + number + "\">"
  {
    Concat3("<" + name, " id=\"" + number, "\"");
    Concat3("<" + name, " id=\"", number);
    Concat3("<" + name + " id=\"" + number, "\"", ">");
    assert "\"" + ">" == "\">";
  }

  // ---------- the report ----------

  function LocationText(detail: Detail): string {
    if detail.file == "" then ""
    else Tagged("Location", Tagged("File", Shown(detail.file)) + Tagged("Line", Decimal(detail.line)))
  }

  /** The text of a failed test: an error, or else a failed assertion; where, if that is known; and what was said. */
  lemma FailedTestText(t: Test, f: TestFailure, number: nat)
    ensures Compact(FailedTestElement(t, f, number)) ==
            "<FailedTest id=\"" + Decimal(number) + "\">" +
            (Tagged("Name", Shown(Name(t))) + Tagged("FailureType", if f.isError then "Error" else "Assertion") +
             LocationText(f.detail) + Tagged("Message", Shown(f.detail.what))) +
            "</FailedTest>"
  {
    hide Compact, CompactAll, Decimal, Name, Shown, Tagged, LocationElements, LocationText;
    var kind := if f.isError then "Error" else "Assertion";
    var head := [TextElement("Name", Name(t)), TextElement("FailureType", kind)];
    var message := [TextElement("Message", f.detail.what)];
    NumberedShown("FailedTest", number, head + LocationElements(f.detail) + message);
    CompactAllConcat(head + LocationElements(f.detail), message);
    CompactAllConcat(head, LocationElements(f.detail));
    CompactTwo(TextElement("Name", Name(t)), TextElement("FailureType", kind));
    CompactTwo(TextElement("Message", f.detail.what), TextElement("Message", f.detail.what));
    TextShown("Name", Name(t));
    TextShown("FailureType", kind);
    TextShown("Message", f.detail.what);
    KindShown(kind);
    LocationShown(f.detail);
    assert "<" + "FailedTest" + " id=\"" == "<FailedTest id=\"";
    assert "</" + "FailedTest" + ">" == "</FailedTest>";
    EndTagText("<FailedTest id=\"" + Decimal(number) + "\">" + CompactAll(head + LocationElements(f.detail) + message), "FailedTest");
  }

  lemma EndTagText(before: string, name: string)
    ensures before + "</" + name + ">" == before + ("</" + name + ">")
  {
  }

  lemma KindShown(kind: string)
    requires kind == "Error" || kind == "Assertion"
    ensures Shown(kind) == kind
  {
    ShownAsIs(kind);
  }

  lemma LocationShown(detail: Detail)
    ensures CompactAll(LocationElements(detail)) == LocationText(detail)
  {
    hide Compact, Decimal, Shown, Tagged;
    if detail.file != "" {
      var file, line := TextElement("File", detail.file), TextElement("Line", Decimal(detail.line));
      var location := Element("Location", [], [file, line], "");
      CompactTwo(location, location);
      ElementShown("Location", [file, line]);
      CompactTwo(file, line);
      TextShown("File", detail.file);
      NumberElement("Line", detail.line);
    }
  }

  /** The text of a successful test. */
  lemma SuccessfulTestText(t: Test, number: nat)
    ensures Compact(SuccessfulTestElement(t, number)) ==
            "<Test id=\"" + Decimal(number) + "\">" + Tagged("Name", Shown(Name(t))) + "</Test>"
  {
    hide Compact, CompactAll, Decimal, Name, Shown, Tagged;
    var name := TextElement("Name", Name(t));
    NumberedShown("Test", number, [name]);
    CompactTwo(name, name);
    TextShown("Name", Name(t));
    assert "<" + "Test" + " id=\"" == "<Test id=\"";
    assert "</" + "Test" + ">" == "</Test>";
    EndTagText("<Test id=\"" + Decimal(number) + "\">" + CompactAll([name]), "Test");
  }

  /** The four numbers: all tests, all failures, the failures that are errors, and those that are not. */
  lemma StatisticsText(tests: seq<Test>, failures: seq<TestFailure>)
    ensures Compact(StatisticsElement(tests, failures)) ==
            Tagged("Statistics",
                   (Tagged("Tests", Decimal(|tests|)) + Tagged("FailuresTotal", Decimal(|failures|))) +
                   (Tagged("Errors", Decimal(|Marked(failures, true)|)) + Tagged("Failures", Decimal(|Marked(failures, false)|))))
  {
    hide Compact, CompactAll, Decimal, Tagged, Errors, Marked;
    ErrorsAreCounted(failures);
    var a, b := TextElement("Tests", Decimal(|tests|)), TextElement("FailuresTotal", Decimal(|failures|));
    var c := TextElement("Errors", Decimal(|Marked(failures, true)|));
    var d := TextElement("Failures", Decimal(|Marked(failures, false)|));
    assert [a, b, c, d] == [a, b] + [c, d];
    ElementShown("Statistics", [a, b, c, d]);
    CompactAllConcat([a, b], [c, d]);
    CompactTwo(a, b);
    CompactTwo(c, d);
    NumberElement("Tests", |tests|);
    NumberElement("FailuresTotal", |failures|);
    NumberElement("Errors", |Marked(failures, true)|);
    NumberElement("Failures", |Marked(failures, false)|);
  }

  /** The whole report, however it is declared: its failed tests, its successful tests, and its four numbers. */
  lemma ReportText(tests: seq<Test>, failures: seq<TestFailure>, encoding: string, standalone: bool, styleSheet: string)
    requires NoMark(encoding) && NoMark(styleSheet)
    ensures var failed := FirstFailures(failures);
            Strip(Document(encoding, standalone, styleSheet, ReportElement(tests, failures))) ==
            Tagged("TestRun",
                   Tagged("FailedTests", CompactAll(Entries(tests, failed, true, |tests|))) +
                   (Tagged("SuccessfulTests", CompactAll(Entries(tests, failed, false, |tests|))) +
                    Compact(StatisticsElement(tests, failures))))
  {
    hide Compact, CompactAll, Tagged, Entries, FirstFailures, StatisticsElement, Strip, Document, NoMark;
    var failed, root := FirstFailures(failures), ReportElement(tests, failures);
    var a := Element("FailedTests", [], Entries(tests, failed, true, |tests|), "");
    var b := Element("SuccessfulTests", [], Entries(tests, failed, false, |tests|), "");
    var c := StatisticsElement(tests, failures);
    ReportLettered(tests, failures);
    LetteredIsSafe(root);
    StripOfDocument(encoding, standalone, styleSheet, root);
    ElementShown("TestRun", [a, b, c]);
    assert [a, b, c] == [a] + [b, c];
    CompactAllConcat([a], [b, c]);
    CompactTwo(a, b);
    CompactTwo(b, c);
    ElementShown("FailedTests", a.elements);
    ElementShown("SuccessfulTests", b.elements);
  }

  /** The text in front of a root element, and the style sheet only if there is one. */
  lemma DocumentText(encoding: string, standalone: bool, styleSheet: string, root: Element)
    ensures Document(encoding, standalone, styleSheet, root) ==
            "<?xml version=\"1.0\" encoding='" + encoding + (if standalone then "' standalone='yes' ?>\n" else "' ?>\n") +
            ((if styleSheet == "" then "" else "<?xml-stylesheet type=\"text/xsl\" href=\"" + styleSheet + "\"?>\n") +
             ToString(root, ""))
  {
    hide ToString;
    var text := ToString(root, "");
    var rest := if styleSheet == "" then text else Instruction(Sheet(styleSheet), text);
    DeclarationText(encoding, standalone, rest);
    if styleSheet == "" {
      assert "" + text == text;
    } else {
      SheetText(styleSheet, text);
    }
  }

  lemma DeclarationText(encoding: string, standalone: bool, rest: string)
    ensures Instruction(Declaration(encoding, standalone), rest) ==
            "<?xml version=\"1.0\" encoding='" + encoding + (if standalone then "' standalone='yes' ?>\n" else "' ?>\n") + rest
  {
    DeclarationMarks();
    hide Instruction;
    if standalone {
      InstructionText("xml version=\"1.0\" encoding='", encoding, "' standalone='yes' ", rest);
    } else {
      InstructionText("xml version=\"1.0\" encoding='", encoding, "' ", rest);
    }
  }

  lemma DeclarationMarks()
    ensures "<?" + "xml version=\"1.0\" encoding='" == "<?xml version=\"1.0\" encoding='"
    ensures "' standalone='yes' " + "?>\n" == "' standalone='yes' ?>\n" && "' " + "?>\n" == "' ?>\n"
  {
  }

  lemma SheetText(styleSheet: string, rest: string)
    ensures Instruction(Sheet(styleSheet), rest) == "<?xml-stylesheet type=\"text/xsl\" href=\"" + styleSheet + "\"?>\n" + rest
  {
    SheetMarks();
    hide Instruction;
    InstructionText("xml-stylesheet type=\"text/xsl\" href=\"", styleSheet, "\"", rest);
  }

  lemma SheetMarks()
    ensures "<?" + "xml-stylesheet type=\"text/xsl\" href=\"" == "<?xml-stylesheet type=\"text/xsl\" href=\""
    ensures "\"" + "?>\n" == "\"?>\n"
  {
  }

  lemma InstructionText(a: string, b: string, c: string, rest: string)
    ensures Instruction(a + b + c, rest) == ("<?" + a) + b + (c + "?>\n") + rest
  {
    assert "?>" + ("\n" + rest) == "?>\n" + rest;
  }
}
