/** What the XML report says about a run, and what comparing two reports decides. */
module ReportProperties {
  import opened Text
  import opened Uniformiser
  import opened XmlElements
  import opened PrintAndStrip
  import opened XmlEquality
  import Markup
  import opened Numbers
  import opened Tests
  import opened Collector
  import opened Report

  predicate Ascending(s: seq<nat>) { forall i, j :: 0 <= i < j < |s| ==> s[i] < s[j] }

  lemma {:induction false} PositionsAre(tests: seq<Test>, failed: set<Test>, fails: bool, k: nat)
    requires k <= |tests|
    ensures Ascending(Positions(tests, failed, fails, k))
    ensures forall i :: i in Positions(tests, failed, fails, k) <==> 0 <= i < k && (tests[i] in failed) == fails
  {
    if k > 0 {
      PositionsAre(tests, failed, fails, k - 1);
      var before := Positions(tests, failed, fails, k - 1);
      assert forall i :: 0 <= i < |before| ==> before[i] in before;
    }
  }

  lemma {:induction false} PositionsAddUp(tests: seq<Test>, failed: set<Test>, k: nat)
    requires k <= |tests|
    ensures |Positions(tests, failed, true, k)| + |Positions(tests, failed, false, k)| == k
  {
    if k > 0 {
      PositionsAddUp(tests, failed, k - 1);
    }
  }

  /** The entry of the report for one position. */
  function Entry(tests: seq<Test>, failed: map<Test, TestFailure>, i: nat): Element
    requires i < |tests|
  {
    if tests[i] in failed then FailedTestElement(tests[i], failed[tests[i]], i + 1)
    else SuccessfulTestElement(tests[i], i + 1)
  }

  /** The entries stand for the positions, one by one. */
  lemma {:induction false} EntriesAreAtPositions(tests: seq<Test>, failed: map<Test, TestFailure>, fails: bool, k: nat)
    requires k <= |tests|
    ensures var es := Entries(tests, failed, fails, k);
            var ps := Positions(tests, failed.Keys, fails, k);
            |es| == |ps| && forall j :: 0 <= j < |ps| ==> ps[j] < |tests| && es[j] == Entry(tests, failed, ps[j])
  {
    if k > 0 {
      EntriesAreAtPositions(tests, failed, fails, k - 1);
    }
  }

  ghost predicate HasFailure(failures: seq<TestFailure>, t: Test) {
    exists f :: f in failures && f.test == t
  }

  /** The positions listed as failed, and those listed as successful. */
  function Listed(tests: seq<Test>, failures: seq<TestFailure>, fails: bool): seq<nat> {
    Positions(tests, FirstFailures(failures).Keys, fails, |tests|)
  }

  /**
   * The report of any collected results lists every position exactly once: as failed when some failure
   * was recorded for its test, else as successful. Both lists ascend and their sizes add up.
   */
  lemma ReportPartitions(tests: seq<Test>, failures: seq<TestFailure>)
    ensures var bad, good := Listed(tests, failures, true), Listed(tests, failures, false);
            && Ascending(bad) && Ascending(good) && |bad| + |good| == |tests|
            && (forall i :: i in bad <==> 0 <= i < |tests| && HasFailure(failures, tests[i]))
            && (forall i :: i in good <==> 0 <= i < |tests| && !HasFailure(failures, tests[i]))
  {
    var failed := FirstFailures(failures).Keys;
    FirstFailuresAreFirst(failures);
    assert forall t :: t in failed <==> HasFailure(failures, t);
    PositionsAre(tests, failed, true, |tests|);
    PositionsAre(tests, failed, false, |tests|);
    PositionsAddUp(tests, failed, |tests|);
  }

  /** This is the entry of a failed test with the first failure recorded for it. */
  ghost predicate FirstFailureShown(failures: seq<TestFailure>, t: Test, number: nat, e: Element) {
    exists i: nat :: IsFirst(failures, t, i) && e == FailedTestElement(t, failures[i], number)
  }

  /** Every entry bears the number of its position, and a failed one the first failure of its test. */
  lemma ReportEntries(tests: seq<Test>, failures: seq<TestFailure>, fails: bool)
    ensures var failed := FirstFailures(failures);
            var es, ps := Entries(tests, failed, fails, |tests|), Listed(tests, failures, fails);
            |es| == |ps| && forall j :: 0 <= j < |ps| ==>
              ps[j] < |tests| &&
              (if fails then FirstFailureShown(failures, tests[ps[j]], ps[j] + 1, es[j])
               else es[j] == SuccessfulTestElement(tests[ps[j]], ps[j] + 1))
  {
    var failed := FirstFailures(failures);
    var es, ps := Entries(tests, failed, fails, |tests|), Listed(tests, failures, fails);
    EntriesAreAtPositions(tests, failed, fails, |tests|);
    PositionsAre(tests, failed.Keys, fails, |tests|);
    forall j | 0 <= j < |ps|
      ensures if fails then FirstFailureShown(failures, tests[ps[j]], ps[j] + 1, es[j])
              else es[j] == SuccessfulTestElement(tests[ps[j]], ps[j] + 1)
    {
      var t := tests[ps[j]];
      assert ps[j] in ps;
      if fails {
        FirstFailuresAreFirst(failures);
        var i: nat :| IsFirst(failures, t, i) && failed[t] == failures[i];
        assert es[j] == FailedTestElement(t, failures[i], ps[j] + 1);
      }
    }
  }

  // ---------- the report as a document ----------

  /** The body of the XML declaration. */
  function Declaration(encoding: string, standalone: bool): string {
    "xml version=\"1.0\" encoding='" + encoding + (if standalone then "' standalone='yes' " else "' ")
  }

  function Sheet(styleSheet: string): string {
    "xml-stylesheet type=\"text/xsl\" href=\"" + styleSheet + "\""
  }

  function Instruction(body: string, text: string): string { "<?" + body + "?>" + ("\n" + text) }

  /** The XML declaration, the style sheet if there is one, and the root element. */
  function Document(encoding: string, standalone: bool, styleSheet: string, root: Element): string {
    var text := ToString(root, "");
    Instruction(Declaration(encoding, standalone),
                if styleSheet == "" then text
                else Instruction(Sheet(styleSheet), text))
  }

  predicate MarkAt(s: string, i: nat) { i + 1 < |s| && s[i] == '?' && s[i + 1] == '>' }

  /** The end mark of a processing instruction does not occur in the text. */
  predicate NoMark(s: string) { forall i: nat :: i < |s| ==> !MarkAt(s, i) }

  lemma MarkNeverOccurs(s: string)
    requires NoMark(s)
    ensures !Markup.Occurs("?>", s)
  {
    forall i | 0 <= i <= |s|
      ensures !("?>" <= s[i..])
    {
      assert i < |s| ==> !MarkAt(s, i);
      if i + 1 < |s| {
        assert s[i..][0] == s[i] && s[i..][1] == s[i + 1] && "?>"[0] == '?' && "?>"[1] == '>';
      }
    }
  }

  lemma {:induction false} NoMarkBefore(a: string, b: string)
    requires NoMark(a) && NoMark(b)
    requires a != "" && b != "" ==> a[|a| - 1] != '?' || b[0] != '>'
    ensures NoMark(a + b)
  {
    forall i: nat | i < |a + b|
      ensures !MarkAt(a + b, i)
    {
      if i + 1 < |a| {
        assert !MarkAt(a, i);
      } else if i >= |a| {
        assert !MarkAt(b, i - |a|);
      }
    }
  }

  lemma StripWithin(a: string, b: string, c: string, text: string)
    requires NoMark(b) && '?' !in a && '?' !in c && a != "" && a[0] != '>' && c != "" && c[0] != '>'
    ensures Strip(Instruction(a + b + c, text)) == Strip(text)
  {
    hide Strip;
    NoMarkBefore(a, b);
    NoMarkBefore(a + b, c);
    NoMarkBefore("<?", a + b + c);
    NoMarkBefore("<?" + (a + b + c), "?");
    MarkNeverOccurs("<?" + (a + b + c) + "?");
    Markup.StripInstruction(a + b + c, "\n" + text);
    StripBlanks("\n", text);
  }

  lemma StripSheet(styleSheet: string, text: string)
    requires NoMark(styleSheet)
    ensures Strip(Instruction(Sheet(styleSheet), text)) == Strip(text)
  {
    StripWithin("xml-stylesheet type=\"text/xsl\" href=\"", styleSheet, "\"", text);
  }

  lemma StripDeclaration(encoding: string, standalone: bool, text: string)
    requires NoMark(encoding)
    ensures Strip(Instruction(Declaration(encoding, standalone), text)) == Strip(text)
  {
    StripWithin("xml version=\"1.0\" encoding='", encoding, if standalone then "' standalone='yes' " else "' ", text);
  }

  /** Uniformising a document gives the compact text of its root, whatever the declaration says. */
  lemma StripOfDocument(encoding: string, standalone: bool, styleSheet: string, root: Element)
    requires NoMark(encoding) && NoMark(styleSheet) && Printable(root)
    ensures Strip(Document(encoding, standalone, styleSheet, root)) == Compact(root)
  {
    hide Instruction, Declaration, Sheet, Strip, ToString;
    var text := ToString(root, "");
    StripOfPrint(root, "");
    StripSheet(styleSheet, text);
    StripDeclaration(encoding, standalone, if styleSheet == "" then text else Instruction(Sheet(styleSheet), text));
  }

  // ---------- comparing two reports ----------

  /** Names made of letters are read back as themselves. */
  predicate Letters(name: string) {
    name != "" && forall i :: 0 <= i < |name| ==> 'A' <= name[i] <= 'z'
  }

  predicate Lettered(e: Element)
    decreases e
  {
    Letters(e.name) && (forall a :: a in e.attributes ==> Letters(a.name)) &&
    (forall c :: c in e.elements ==> Lettered(c))
  }

  lemma FirstDiffers(s: string, mark: string)
    requires s != "" && mark != "" && s[0] != mark[0]
    ensures !StartsWith(s, mark)
  {
  }

  lemma LettersAreSafe(name: string)
    requires Letters(name)
    ensures ElementNameSafe(name) && Span(NameEnd, name) == |name| && !StartsWith(name, "/")
    ensures AttributeNameSafe(name)
  {
    SpanIs(NameEnd, name, |name|);
    SpanIs(AttributeEnd, name, |name|);
    FirstDiffers(name, "?");
    FirstDiffers(name, "!--");
    FirstDiffers(name, "/");
  }

  lemma {:induction false} LetteredIsSafe(e: Element)
    requires Lettered(e)
    ensures Printable(e) && Readable(e)
    decreases e
  {
    LettersAreSafe(e.name);
    forall a | a in e.attributes
      ensures AttributeNameSafe(a.name)
    {
      LettersAreSafe(a.name);
    }
    forall c | c in e.elements
      ensures Printable(c) && Readable(c)
    {
      LetteredIsSafe(c);
    }
  }

  lemma NamesAreLetters()
    ensures Letters("TestRun") && Letters("FailedTests") && Letters("SuccessfulTests") && Letters("Statistics")
    ensures Letters("FailedTest") && Letters("Test") && Letters("Name") && Letters("FailureType")
    ensures Letters("Location") && Letters("File") && Letters("Line") && Letters("Message")
    ensures Letters("Tests") && Letters("FailuresTotal") && Letters("Errors") && Letters("Failures") && Letters("id")
  {
    NodeNamesAreLetters();
  }

  lemma NodeNamesAreLetters()
    ensures Letters("TestRun") && Letters("FailedTests") && Letters("SuccessfulTests") && Letters("Statistics")
  {
  }

  lemma TextLettered(name: string, content: string)
    requires Letters(name)
    ensures Lettered(TextElement(name, content))
  {
  }

  lemma FailedTestLettered(t: Test, f: TestFailure, number: nat)
    ensures Lettered(FailedTestElement(t, f, number))
  {
    hide Letters, Decimal, Name;
    NamesAreLetters();
    TextLettered("Name", Name(t));
    TextLettered("FailureType", if f.isError then "Error" else "Assertion");
    TextLettered("Message", f.detail.what);
    if f.detail.file != "" {
      TextLettered("File", f.detail.file);
      TextLettered("Line", Decimal(f.detail.line));
    }
  }

  lemma SuccessfulTestLettered(t: Test, number: nat)
    ensures Lettered(SuccessfulTestElement(t, number))
  {
    hide Letters, Decimal, Name;
    NamesAreLetters();
    TextLettered("Name", Name(t));
  }

  lemma {:induction false} EntriesLettered(tests: seq<Test>, failed: map<Test, TestFailure>, fails: bool, k: nat)
    requires k <= |tests|
    ensures forall e :: e in Entries(tests, failed, fails, k) ==> Lettered(e)
  {
    hide Lettered, FailedTestElement, SuccessfulTestElement;
    if k > 0 {
      EntriesLettered(tests, failed, fails, k - 1);
      var t := tests[k - 1];
      SuccessfulTestLettered(t, k);
      if t in failed {
        FailedTestLettered(t, failed[t], k);
      }
    }
  }

  lemma StatisticsLettered(tests: seq<Test>, failures: seq<TestFailure>)
    ensures Lettered(StatisticsElement(tests, failures))
  {
    hide Letters, Decimal, Errors;
    NamesAreLetters();
    TextLettered("Tests", Decimal(|tests|));
    TextLettered("FailuresTotal", Decimal(|failures|));
    TextLettered("Errors", Decimal(Errors(failures)));
    TextLettered("Failures", Decimal(|failures| - Errors(failures)));
  }

  lemma ReportLettered(tests: seq<Test>, failures: seq<TestFailure>)
    ensures Lettered(ReportElement(tests, failures))
  {
    hide Letters, Entries, StatisticsElement, FirstFailures;
    var failed := FirstFailures(failures);
    NamesAreLetters();
    EntriesLettered(tests, failed, true, |tests|);
    EntriesLettered(tests, failed, false, |tests|);
    StatisticsLettered(tests, failures);
    assert Lettered(Element("FailedTests", [], Entries(tests, failed, true, |tests|), ""));
    assert Lettered(Element("SuccessfulTests", [], Entries(tests, failed, false, |tests|), ""));
  }

  /** The uniformised document of a report is read back as the report, up to blanks around texts. */
  lemma ReportReadsBack(tests: seq<Test>, failures: seq<TestFailure>,
                        encoding: string, standalone: bool, styleSheet: string)
    requires NoMark(encoding) && NoMark(styleSheet)
    ensures var root := ReportElement(tests, failures);
            ParseElement(Strip(Document(encoding, standalone, styleSheet, root))) == Parsed(Normal(root), "")
  {
    hide Strip, ParseElement, Document, Normal, ReportElement, Compact, NoMark;
    var root := ReportElement(tests, failures);
    ReportLettered(tests, failures);
    LetteredIsSafe(root);
    StripOfDocument(encoding, standalone, styleSheet, root);
    CompactReadsBack(root);
  }

  lemma {:induction false} NormalOf(es: seq<Element>)
    ensures |NormalAll(es)| == |es| && forall i :: 0 <= i < |es| ==> NormalAll(es)[i] == Normal(es[i])
  {
    hide Normal;
    if es != [] {
      NormalOf(es[1..]);
    }
  }

  lemma SameNumber(tests: seq<Test>, failed: map<Test, TestFailure>, i: nat,
                   tests': seq<Test>, failed': map<Test, TestFailure>, i': nat)
    requires i < |tests| && i' < |tests'|
    requires Normal(Entry(tests, failed, i)) == Normal(Entry(tests', failed', i'))
    ensures i == i'
  {
    hide Decimal, NormalAll, Trim, LocationElements, Name;
    var id, id' := Attribute("id", Decimal(i + 1)), Attribute("id", Decimal(i' + 1));
    assert Normal(Entry(tests, failed, i)).attributes == [id];
    assert Normal(Entry(tests', failed', i')).attributes == [id'];
    assert [id][0] == [id'][0];
    DecimalIsInjective(i + 1, i' + 1);
  }

  /** Entries that agree up to blanks around texts are at the same positions. */
  lemma SameEntriesSamePositions(tests: seq<Test>, failed: map<Test, TestFailure>,
                                 tests': seq<Test>, failed': map<Test, TestFailure>, fails: bool)
    requires NormalAll(Entries(tests, failed, fails, |tests|)) == NormalAll(Entries(tests', failed', fails, |tests'|))
    ensures Positions(tests, failed.Keys, fails, |tests|) == Positions(tests', failed'.Keys, fails, |tests'|)
  {
    hide NormalAll, Entries, Positions, Decimal, Entry, Normal;
    var es, es' := Entries(tests, failed, fails, |tests|), Entries(tests', failed', fails, |tests'|);
    var ps, ps' := Positions(tests, failed.Keys, fails, |tests|), Positions(tests', failed'.Keys, fails, |tests'|);
    NormalOf(es);
    NormalOf(es');
    EntriesAreAtPositions(tests, failed, fails, |tests|);
    EntriesAreAtPositions(tests', failed', fails, |tests'|);
    assert |ps| == |ps'|;
    forall j | 0 <= j < |ps|
      ensures ps[j] == ps'[j]
    {
      assert Normal(es[j]) == NormalAll(es)[j] == NormalAll(es')[j] == Normal(es'[j]);
      SameNumber(tests, failed, ps[j], tests', failed', ps'[j]);
    }
  }

  /**
   * Comparing the documents of two reports, however declared, accepts exactly the reports that agree up to
   * blanks around texts; then the same positions failed and the same positions succeeded.
   */
  lemma ReportComparison(tests: seq<Test>, failures: seq<TestFailure>,
                         encoding: string, standalone: bool, styleSheet: string,
                         tests': seq<Test>, failures': seq<TestFailure>,
                         encoding': string, standalone': bool, styleSheet': string)
    requires NoMark(encoding) && NoMark(styleSheet) && NoMark(encoding') && NoMark(styleSheet')
    ensures var root, root' := ReportElement(tests, failures), ReportElement(tests', failures');
            var equal := Strip(Document(encoding, standalone, styleSheet, root)) ==
                         Strip(Document(encoding', standalone', styleSheet', root'));
            && (equal <==> Normal(root) == Normal(root'))
            && (equal ==> Listed(tests, failures, true) == Listed(tests', failures', true))
            && (equal ==> Listed(tests, failures, false) == Listed(tests', failures', false))
  {
    var root, root' := ReportElement(tests, failures), ReportElement(tests', failures');
    SameReportSamePositions(tests, failures, tests', failures');
    hide Strip, Document, Normal, Compact, NoMark, Listed, ReportElement;
    ReportLettered(tests, failures);
    ReportLettered(tests', failures');
    LetteredIsSafe(root);
    LetteredIsSafe(root');
    StripOfDocument(encoding, standalone, styleSheet, root);
    StripOfDocument(encoding', standalone', styleSheet', root');
    CompactDecides(root, root');
  }

  lemma SameReportSamePositions(tests: seq<Test>, failures: seq<TestFailure>,
                                tests': seq<Test>, failures': seq<TestFailure>)
    ensures Normal(ReportElement(tests, failures)) == Normal(ReportElement(tests', failures')) ==>
              Listed(tests, failures, true) == Listed(tests', failures', true) &&
              Listed(tests, failures, false) == Listed(tests', failures', false)
  {
    hide NormalAll, Entries, Positions, FirstFailures, StatisticsElement, Normal;
    var root, root' := ReportElement(tests, failures), ReportElement(tests', failures');
    if Normal(root) == Normal(root') {
      var failed, failed' := FirstFailures(failures), FirstFailures(failures');
      NormalChild(root, root', 0);
      NormalChild(root, root', 1);
      SameEntriesSamePositions(tests, failed, tests', failed', true);
      SameEntriesSamePositions(tests, failed, tests', failed', false);
    }
  }

  lemma NormalChild(e: Element, e': Element, i: nat)
    requires Normal(e) == Normal(e') && i < |e.elements|
    ensures i < |e'.elements| && NormalAll(e.elements[i].elements) == NormalAll(e'.elements[i].elements)
  {
    NormalOf(e.elements);
    NormalOf(e'.elements);
    assert Normal(e.elements[i]) == NormalAll(e.elements)[i] == NormalAll(e'.elements)[i] == Normal(e'.elements[i]);
  }
}
