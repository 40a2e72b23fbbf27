/** The XML report of a run: every executed test once, as failed or as successful. */
module Report {
  import opened XmlElements
  import opened Numbers
  import opened Tests
  import opened Protectors
  import opened Collector

  /** For each failed test the failure recorded first: inserting never replaces. */
  function FirstFailures(failures: seq<TestFailure>): map<Test, TestFailure> {
    if failures == [] then map[] else
    var earlier := FirstFailures(failures[..|failures| - 1]);
    var last := failures[|failures| - 1];
    if last.test in earlier then earlier else earlier[last.test := last]
  }

  ghost predicate IsFirst(failures: seq<TestFailure>, t: Test, i: nat) {
    i < |failures| && failures[i].test == t && forall j :: 0 <= j < i ==> failures[j].test != t
  }

  lemma {:induction false} FirstFailuresAreFirst(failures: seq<TestFailure>)
    ensures forall t :: t in FirstFailures(failures) <==> exists f :: f in failures && f.test == t
    ensures forall t :: t in FirstFailures(failures) ==>
              exists i: nat :: IsFirst(failures, t, i) && FirstFailures(failures)[t] == failures[i]
  {
    if failures != [] {
      var init, last := failures[..|failures| - 1], failures[|failures| - 1];
      FirstFailuresAreFirst(init);
      assert failures == init + [last];
      forall t | t in FirstFailures(failures)
        ensures exists i: nat :: IsFirst(failures, t, i) && FirstFailures(failures)[t] == failures[i]
      {
        if t in FirstFailures(init) {
          var i: nat :| IsFirst(init, t, i) && FirstFailures(init)[t] == init[i];
          assert IsFirst(failures, t, i);
        } else {
          assert forall f :: f in init ==> f.test != t;
          assert forall j :: 0 <= j < |init| ==> init[j] in init;
          assert IsFirst(failures, t, |init|);
        }
      }
    }
  }

  function TextElement(name: string, content: string): Element { Element(name, [], [], content) }

  function LocationElements(detail: Detail): seq<Element> {
    if detail.file == "" then [] else
    [Element("Location", [], [TextElement("File", detail.file), TextElement("Line", Decimal(detail.line))], "")]
  }

  function FailedTestElement(t: Test, f: TestFailure, number: nat): Element {
    Element("FailedTest", [Attribute("id", Decimal(number))],
            [TextElement("Name", Name(t)), TextElement("FailureType", if f.isError then "Error" else "Assertion")] +
            LocationElements(f.detail) + [TextElement("Message", f.detail.what)], "")
  }

  function SuccessfulTestElement(t: Test, number: nat): Element {
    Element("Test", [Attribute("id", Decimal(number))], [TextElement("Name", Name(t))], "")
  }

  /** The positions, among the first k tests, of the tests that failed, or of those that did not. */
  function Positions(tests: seq<Test>, failed: set<Test>, fails: bool, k: nat): seq<nat>
    requires k <= |tests|
  {
    if k == 0 then [] else
    Positions(tests, failed, fails, k - 1) + if (tests[k - 1] in failed) == fails then [k - 1] else []
  }

  /** One element for each of those positions, numbered from one. */
  function Entries(tests: seq<Test>, failed: map<Test, TestFailure>, fails: bool, k: nat): seq<Element>
    requires k <= |tests|
  {
    if k == 0 then [] else
    var t := tests[k - 1];
    Entries(tests, failed, fails, k - 1) +
    if (t in failed) != fails then []
    else if t in failed then [FailedTestElement(t, failed[t], k)]
    else [SuccessfulTestElement(t, k)]
  }

  function StatisticsElement(tests: seq<Test>, failures: seq<TestFailure>): Element {
    Element("Statistics", [],
            [TextElement("Tests", Decimal(|tests|)), TextElement("FailuresTotal", Decimal(|failures|)),
             TextElement("Errors", Decimal(Errors(failures))),
             TextElement("Failures", Decimal(|failures| - Errors(failures)))], "")
  }

  function ReportElement(tests: seq<Test>, failures: seq<TestFailure>): Element {
    var failed := FirstFailures(failures);
    Element("TestRun", [],
            [Element("FailedTests", [], Entries(tests, failed, true, |tests|), ""),
             Element("SuccessfulTests", [], Entries(tests, failed, false, |tests|), ""),
             StatisticsElement(tests, failures)], "")
  }

  method NewText(name: string, content: string) returns (e: XmlElement)
    ensures e.Valid() && fresh(e.Repr) && e.Tree() == TextElement(name, content)
  {
    e := new XmlElement(name, content);
  }

  /** Adds a new element with text only. */
  method AddText(parent: XmlElement, name: string, content: string)
    requires parent.Valid()
    modifies parent
    ensures parent.Valid() && fresh(parent.Repr - old(parent.Repr))
    ensures parent.Tree() == old(parent.Tree()).(elements := old(parent.Tree()).elements + [TextElement(name, content)])
  {
    var e := NewText(name, content);
    parent.AddElement(e);
  }

  /** A new element with two texts inside. */
  method NewPair(name: string, first: Element, second: Element) returns (e: XmlElement)
    requires first == TextElement(first.name, first.content) && second == TextElement(second.name, second.content)
    ensures e.Valid() && fresh(e.Repr) && e.Tree() == Element(name, [], [first, second], "")
  {
    e := new XmlElement(name, "");
    AddText(e, first.name, first.content);
    AddText(e, second.name, second.content);
    assert [] + [first] + [second] == [first, second];
  }

  method AddFailureLocation(detail: Detail, testElement: XmlElement)
    requires testElement.Valid() && detail.file != ""
    modifies testElement
    ensures testElement.Valid() && fresh(testElement.Repr - old(testElement.Repr))
    ensures testElement.Tree() ==
            old(testElement.Tree()).(elements := old(testElement.Tree()).elements + LocationElements(detail))
  {
    hide Decimal, LocationElements;
    LocationOf(detail);
    var location := NewPair("Location", TextElement("File", detail.file), TextElement("Line", Decimal(detail.line)));
    testElement.AddElement(location);
  }

  method NewFailedTest(t: Test, f: TestFailure, number: nat) returns (e: XmlElement)
    ensures e.Valid() && fresh(e.Repr) && e.Tree() == FailedTestElement(t, f, number)
  {
    hide LocationElements, Decimal, Name;
    ghost var id := Attribute("id", Decimal(number));
    ghost var head := [TextElement("Name", Name(t)), TextElement("FailureType", if f.isError then "Error" else "Assertion")];
    e := NewPair("FailedTest", TextElement("Name", Name(t)),
                 TextElement("FailureType", if f.isError then "Error" else "Assertion"));
    e.AddAttribute("id", Decimal(number));
    if f.detail.file != "" {
      AddFailureLocation(f.detail, e);
    } else {
      LocationOf(f.detail);
      assert head + LocationElements(f.detail) == head;
    }
    assert fresh(e.Repr) && e.Tree() == Element("FailedTest", [id], head + LocationElements(f.detail), "");
    AddText(e, "Message", f.detail.what);
  }

  lemma LocationOf(detail: Detail)
    ensures LocationElements(detail) ==
            if detail.file == "" then []
            else [Element("Location", [], [TextElement("File", detail.file), TextElement("Line", Decimal(detail.line))], "")]
  {
  }

  method NewSuccessfulTest(t: Test, number: nat) returns (e: XmlElement)
    ensures e.Valid() && fresh(e.Repr) && e.Tree() == SuccessfulTestElement(t, number)
  {
    e := new XmlElement("Test", "");
    e.AddAttribute("id", Decimal(number));
    AddText(e, "Name", Name(t));
  }

  class XmlOutputter {
    const result: TestResultCollector

    constructor (result: TestResultCollector)
      ensures this.result == result
    {
      this.result := result;
    }

    method FillFailedTestsMap() returns (failedTests: map<Test, TestFailure>)
      ensures failedTests == FirstFailures(result.failures)
    {
      failedTests := map[];
      for i := 0 to |result.failures|
        invariant failedTests == FirstFailures(result.failures[..i])
      {
        var failure := result.failures[i];
        assert result.failures[..i + 1][..i] == result.failures[..i];
        if failure.test !in failedTests {
          failedTests := failedTests[failure.test := failure];
        }
      }
      assert result.failures[..|result.failures|] == result.failures;
    }

    method FailedTestsNode(failedTests: map<Test, TestFailure>) returns (testsNode: XmlElement)
      ensures testsNode.Valid() && fresh(testsNode.Repr)
      ensures testsNode.Tree() == Element("FailedTests", [], Entries(result.tests, failedTests, true, |result.tests|), "")
    {
      testsNode := new XmlElement("FailedTests", "");
      for testNumber := 0 to |result.tests|
        invariant testsNode.Valid() && fresh(testsNode.Repr)
        invariant testsNode.Tree() == Element("FailedTests", [], Entries(result.tests, failedTests, true, testNumber), "")
      {
        var test := result.tests[testNumber];
        if test in failedTests {
          var e := NewFailedTest(test, failedTests[test], testNumber + 1);
          testsNode.AddElement(e);
        }
      }
    }

    method SuccessfulTestsNode(failedTests: map<Test, TestFailure>) returns (testsNode: XmlElement)
      ensures testsNode.Valid() && fresh(testsNode.Repr)
      ensures testsNode.Tree() ==
              Element("SuccessfulTests", [], Entries(result.tests, failedTests, false, |result.tests|), "")
    {
      testsNode := new XmlElement("SuccessfulTests", "");
      for testNumber := 0 to |result.tests|
        invariant testsNode.Valid() && fresh(testsNode.Repr)
        invariant testsNode.Tree() ==
                  Element("SuccessfulTests", [], Entries(result.tests, failedTests, false, testNumber), "")
      {
        var test := result.tests[testNumber];
        if test !in failedTests {
          var e := NewSuccessfulTest(test, testNumber + 1);
          testsNode.AddElement(e);
        }
      }
    }

    method StatisticsNode() returns (statistics: XmlElement)
      requires result.Valid()
      ensures statistics.Valid() && fresh(statistics.Repr)
      ensures statistics.Tree() == StatisticsElement(result.tests, result.failures)
    {
      hide Decimal;
      statistics := NewPair("Statistics", TextElement("Tests", Decimal(result.RunTests())),
                            TextElement("FailuresTotal", Decimal(result.TestFailuresTotal())));
      AddText(statistics, "Errors", Decimal(result.TestErrors()));
      AddText(statistics, "Failures", Decimal(result.TestFailures()));
    }

    method SetRootNode() returns (rootNode: XmlElement)
      requires result.Valid()
      ensures rootNode.Valid() && rootNode.Tree() == ReportElement(result.tests, result.failures)
    {
      hide Entries, FirstFailures, StatisticsElement, XmlElement.Valid, XmlElement.Tree;
      var failedTests := FillFailedTestsMap();
      rootNode := new XmlElement("TestRun", "");
      ghost var a := Element("FailedTests", [], Entries(result.tests, failedTests, true, |result.tests|), "");
      ghost var b := Element("SuccessfulTests", [], Entries(result.tests, failedTests, false, |result.tests|), "");
      var testsNode := FailedTestsNode(failedTests);
      rootNode.AddElement(testsNode);
      assert rootNode.Tree() == Element("TestRun", [], [a], "");
      testsNode := SuccessfulTestsNode(failedTests);
      rootNode.AddElement(testsNode);
      assert rootNode.Tree() == Element("TestRun", [], [a, b], "");
      var statistics := StatisticsNode();
      rootNode.AddElement(statistics);
    }
  }
}
