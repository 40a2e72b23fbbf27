# Verified models of the CppUnit engine and of libcpuid's text formats

The project models the core of the test framework CppUnit and two parts of libcpuid, and proves what they
promise over all inputs, runs and interleavings. Code that updates fields or loops is modelled by classes and
methods with loops; each is proved against a function of its input, and the theorems are about these functions.

| modules | what they model |
|---|---|
| Text, Uniformiser, Idempotence, Markup | the XML uniformiser, a scanner with an index and an output buffer, what a second pass changes, and what it makes of any layout |
| XmlElements, PrintAndStrip, XmlEquality | the XML printer, why uniformising cancels its layout, and what the comparison of two printed trees decides |
| Tests, Protectors, Engine, Runs, RunProperties, Counting, Broadcasting | trees of tests, the chain of protectors, the run of a tree with its events and stop flag, how many tests it announces and starts, and what each listener hears |
| Collector, Report, ReportProperties, ReportContents, RunReports | the collector of results, the XML report built from it, and its text |
| Clocker, ClockerProperties | the listener that rebuilds the executed tree from its events |
| RunnerModel, RunnerProperties, RunnerResets, RunnerStops | the Qt test runner: runner thread, GUI thread, lock, counters and event queue, as a step system |
| Splitting, TestPaths, TestPathObjects | test paths: searching, printing, splitting and resolving |
| StringTools, MostRecent | splitting and wrapping of text, and the two lists of recent tests |
| Numbers, RawDump, RawDumpProofs, RawDumpFiles, DumpFormat, TruncatedDumps, CutDumps | the text dump of raw CPUID data, written and read back, and which dumps that were cut off are read |
| Codenames | the best match in a table of processors, and the list of its names |
| Sequences | associativity of concatenation |

## Readings of the code

- Characters are 7-bit: the uniformiser takes every plain `char` below 33 as a blank, and a signed `char`
  beyond 127 would be one too.
- Uniformising is not idempotent on every text. A text that ends inside an element name, such as `<a`, gains a
  blank in each of the first two passes; `Idempotence.IdempotentExactly` says that these are all the exceptions.
- Printable names are those the uniformiser delimits: no blank and no `>` in an element name, which does not
  begin with `?` or `!--`; no blank, `>` or `=` in an attribute name. To be read back from the compact text an
  element name does not begin with `/` either. The predefined entities are those of section 4.6 of XML 1.0.
- A run is a function of two oracles over the history of the run: how each test method ends, and whether
  somebody raises stop during an event. Whatever tests, listeners and users do is one choice of these oracles.
- `RepeatedTest` multiplies a negative count into `countTestCases` but runs nothing, and the wrapping suite of
  `TestRunner` counts the children of a single test but runs the test itself. `Counting.SoundExactly` says which trees
  count what they run all the way down: those without negative repetition, but for repetitions of what counts zero.
  `Counting.WrapperCountsExactly` is the exact condition for the wrapper when the tests it shows are such trees;
  `Counting.NegativeInside` shows why it says so.
- The functors of `ProtectorChain::protect` are deleted once each only if the body leaves the number of protectors
  as it was, because the deleting loop runs to the number of protectors after the call.
- The documentation of `TestPath::toString` shows a relative path without a `/` in front; the code writes one, so
  its result is an absolute path. The model follows the code.
- `resetTestReportCounterFor` refuses while a test is running, but the thread is gone before its last events are
  processed. A reset in between sets the counters to zero, and the queued events then display old counts and old
  failures. `RunnerResets.StaleCountsShown` is a run that ends so. `RunnerResets.StaleCountsAfterRace` is another, in
  which nothing was queued when the reset was requested but the thread was still running: looking at the queue before
  the call is enough only once the thread is gone. `RunnerResets.ResetNeedsEmptyQueue` is the exact condition, on the
  queue at the check; the disabled buttons of the dialog exclude both runs.
- In `cpuid_deserialize_raw_data` the check for a missing `=` follows the search loop without a semicolon between,
  so it is the body of the loop, where it never applies. `TruncatedDumps.MissingAssignment` says exactly which lines
  without `=` are errors all the same. A dump cut off before an `=` can be accepted, with the numbers of the row
  before (`CutDumps.TruncatedDumpAccepted`), and so can one cut off inside the last number of a row, with a shortened
  number (`CutDumps.RowShortened`). `CutDumps.CutDumpExactly` says which cut dumps are accepted. What is left of the
  first row before its `=` depends on what the two headers, or the uninitialised buffer, left behind it.
- `StringTools::wrap` leaves the text as it is for a negative column. For column 0 and a line that is not empty its inner
  loop does not end, and for no other: `StringTools.WrapLineEndsExactly`.

## Model

| member | source | states |
|---|---|---|
| `Uniformiser.XmlUniformiser.Stripped` | cppunit/src/native/examples/cppunittest/XmlUniformiser.cpp:50-66 | The main loop ends on every text, and its buffer then holds the uniformised form `Strip` of the whole text. |
| `Uniformiser.XmlUniformiser.CopyTurn` | cppunit/src/native/examples/cppunittest/XmlUniformiser.cpp:53-64 | One turn of the main loop reads one processing instruction, comment, element or content; while text is left the buffer does not end with a blank, so trimming for a later content cannot touch what was written before. |
| `Uniformiser.XmlUniformiser.SkipSpaces` | cppunit/src/native/examples/cppunittest/XmlUniformiser.cpp:69-74 | Skips exactly the characters below 33 in front. |
| `Text.BlankIs` | cppunit/src/native/examples/cppunittest/XmlUniformiser.cpp:77-81 | A blank is a character with a code of at most 32. |
| `Uniformiser.XmlUniformiser.SkipProcessed` | cppunit/src/native/examples/cppunittest/XmlUniformiser.cpp:122-129 | Continues behind the first `?>`, or at the end of the text if there is none. |
| `Uniformiser.XmlUniformiser.SkipComment` | cppunit/src/native/examples/cppunittest/XmlUniformiser.cpp:132-139 | Continues behind the first `-->`, or at the end of the text if there is none. |
| `Uniformiser.XmlUniformiser.CopyElement` | cppunit/src/native/examples/cppunittest/XmlUniformiser.cpp:142-156 | Copies the name up to a blank or `>`, then the attributes. |
| `Uniformiser.XmlUniformiser.CopyElementAttributes` | cppunit/src/native/examples/cppunittest/XmlUniformiser.cpp:159-184 | The do-while loop over attributes ends on every text, at `>` or at the end, and writes what the recursive reading of attributes says. |
| `Uniformiser.XmlUniformiser.CopySpacedAttribute` | cppunit/src/native/examples/cppunittest/XmlUniformiser.cpp:164-170 | One turn of that loop: it tells whether `>` was reached, writes one blank for any number of blanks, and reads one attribute otherwise. |
| `Uniformiser.XmlUniformiser.CopyAttribute` | cppunit/src/native/examples/cppunittest/XmlUniformiser.cpp:172-180 | Copies a name with its value, or with a blank in place of the missing value. |
| `Uniformiser.XmlUniformiser.CopyAttributeValue` | cppunit/src/native/examples/cppunittest/XmlUniformiser.cpp:202-217 | Copies through the second double quote; a missing quote copies to the end. |
| `Uniformiser.XmlUniformiser.CopyElementContent` | cppunit/src/native/examples/cppunittest/XmlUniformiser.cpp:220-226 | Copies up to the next `<` and drops the blanks at the end of this content only. |
| `Uniformiser.XmlUniformiser.RemoveTrailingSpaces` | cppunit/src/native/examples/cppunittest/XmlUniformiser.cpp:229-236 | Trims the end of the buffer but never the character at index 0. |
| `Uniformiser.TrimTailExactly` | cppunit/src/native/examples/cppunittest/XmlUniformiser.cpp:229-236 | Whatever the text, its first character stays and what follows is trimmed at the end. |
| `Uniformiser.TrimTailOfContent` | cppunit/src/native/examples/cppunittest/XmlUniformiser.cpp:229-236 | When the buffer did not end with a blank before a content was copied, trimming the whole buffer is trimming that content. |
| `Idempotence.IdempotentExactly` | cppunit/src/native/examples/cppunittest/XmlUniformiser.cpp:50-184 | For every text: uniformising is idempotent on it if and only if the text does not end inside the name of an element. |
| `Idempotence.SecondPass` | cppunit/src/native/examples/cppunittest/XmlUniformiser.cpp:150-184 | For every text the second pass changes nothing, except that it adds one blank when the text ends inside an element name; the result of a pass never ends inside one. |
| `Idempotence.NameWithoutEnd` | cppunit/src/native/examples/cppunittest/XmlUniformiser.cpp:150-184 | `<a` becomes `<a` with one blank, and that becomes `<a` with two. |
| `Idempotence.ThirdPassChangesNothing` | cppunit/src/native/examples/cppunittest/XmlUniformiser.cpp:50-66 | Two passes are always final. |
| `Idempotence.TurnAgain` | cppunit/src/native/examples/cppunittest/XmlUniformiser.cpp:50-64 | What one turn wrote, put in front of any text that does not start with a blank, is read again as itself, whatever it was: comment, instruction, element or content. |
| `Idempotence.AttributesAgain` | cppunit/src/native/examples/cppunittest/XmlUniformiser.cpp:159-217 | The attributes as written, with any mix of valueless and quoted ones, are read back unchanged in front of any text. |
| `Idempotence.ElementWithoutEnd` | cppunit/src/native/examples/cppunittest/XmlUniformiser.cpp:142-184 | An element that is only a name, up to the end of the text, is written with one more blank than it was read with. |
| `Markup.StripPieces` | cppunit/src/native/examples/cppunittest/XmlUniformiser.cpp:50-236 | For every text made of instructions, comments, tags and contents, however it is laid out, and in front of a further piece: instructions and comments vanish, each at the first mark that closes it; a tag keeps its name and its attributes, with one blank for each gap, values directly behind `=`, and a blank for a missing value, which takes up the gap behind it; contents are trimmed. |
| `Markup.StripComment` | cppunit/src/native/examples/cppunittest/XmlUniformiser.cpp:58-59 | For every comment body that does not complete `-->` early and every text behind it, the comment leaves no trace of itself and the text is uniformised as it stands. |
| `Markup.UnclosedComment` | cppunit/src/native/examples/cppunittest/XmlUniformiser.cpp:132-139 | Of a comment that is never closed, nothing is left, and nothing of the text behind it. |
| `Markup.StripInstruction` | cppunit/src/native/examples/cppunittest/XmlUniformiser.cpp:56-57 | The same as for comments, with the marks of an instruction. |
| `Markup.UnclosedInstruction` | cppunit/src/native/examples/cppunittest/XmlUniformiser.cpp:122-129 | An instruction that is never closed leaves nothing. |
| `Markup.UnclosedValue` | cppunit/src/native/examples/cppunittest/XmlUniformiser.cpp:202-217 | A value whose second quote is missing is copied to the end of the text. |
| `Markup.AttributesRead` | cppunit/src/native/examples/cppunittest/XmlUniformiser.cpp:159-217 | Attributes with any blanks around names and `=`, with or without values, are written as described, and the text behind the tag is left to be read. |
| `XmlElements.XmlElement.ToText` | cppunit/src/native/src/cppunit/XmlElement.cpp:126-169 | Over a tree of element objects of any depth the loops write the pretty-printed text of the tree they stand for. |
| `XmlElements.XmlElement.ChildrenToText` | cppunit/src/native/src/cppunit/XmlElement.cpp:139-149 | The loop over the children writes their texts in order, two blanks further in. |
| `XmlElements.XmlElement.AttributesAsString` | cppunit/src/native/src/cppunit/XmlElement.cpp:172-189 | The attributes are separated by single blanks, with none in front and none behind. |
| `XmlElements.XmlElement.EscapeText` | cppunit/src/native/src/cppunit/XmlElement.cpp:192-222 | The loop replaces each of the five predefined characters by its entity and no other character. |
| `XmlElements.XmlElement.AddElement` | cppunit/src/native/src/cppunit/XmlElement.cpp:87-91 | Appends the tree of the child; name, attributes, content and earlier children stay. |
| `XmlElements.XmlElement.SetName` | cppunit/src/native/src/cppunit/XmlElement.cpp:50-54 | Changes the name and nothing else of the tree. |
| `XmlElements.XmlElement.SetContent` | cppunit/src/native/src/cppunit/XmlElement.cpp:57-61 | Changes the content and nothing else of the tree. |
| `XmlElements.XmlElement.AddAttribute` | cppunit/src/native/src/cppunit/XmlElement.cpp:71-76 | Appends the attribute and changes nothing else of the tree. |
| `XmlEquality.UnescapeEscape` | cppunit/src/native/src/cppunit/XmlElement.cpp:192-222 | Decoding the five entities undoes escaping, for every text. |
| `XmlElements.EscapeSpelled` | cppunit/src/native/src/cppunit/XmlElement.cpp:192-222 | `<`, `>`, `&`, the apostrophe and the double quote become `&lt;`, `&gt;`, `&amp;`, `&apos;` and `&quot;`; any other character stays. |
| `XmlElements.OneLine` | cppunit/src/native/src/cppunit/XmlElement.cpp:126-169 | An element without children is printed on one line: indentation, start tag, escaped content, end tag, line break. |
| `XmlElements.ManyLines` | cppunit/src/native/src/cppunit/XmlElement.cpp:126-169 | An element with children has both tags on lines of their own, the children between them two blanks further in, and its content, if any, on a line of its own behind them. |
| `XmlElements.AttributesSpelled` | cppunit/src/native/src/cppunit/XmlElement.cpp:172-189 | Every attribute stands in the list with one blank in front, its name, `=`, and its escaped value in double quotes. |
| `PrintAndStrip.StripOfPrint` | cppunit/src/native/src/cppunit/XmlElement.cpp:126-222 | For every tree with readable names and every indentation of blanks, uniformising the printed text gives the compact text: no layout, attributes as escaped, contents trimmed. So the result does not depend on the indentation. |
| `PrintAndStrip.StripPrinted` | cppunit/src/native/src/cppunit/XmlElement.cpp:126-169 | The same in front of any other text: the uniformiser leaves a printed element exactly where it ends. |
| `PrintAndStrip.PrintedAttributes` | cppunit/src/native/src/cppunit/XmlElement.cpp:172-189 | The printed attribute list and the `>` after it are read back as written, whatever the values hold. |
| `PrintAndStrip.QuotedValue` | cppunit/src/native/src/cppunit/XmlElement.cpp:183-186 | An escaped value between its quotes is read as one value: escaping leaves no quote inside. |
| `PrintAndStrip.TrimEscape` | cppunit/src/native/src/cppunit/XmlElement.cpp:192-222 | Escaping and trimming can be exchanged. |
| `PrintAndStrip.ContentTextTrimmed` | cppunit/src/native/src/cppunit/XmlElement.cpp:151-162 | The layout around a content disappears when the content is trimmed, with and without child elements. |
| `XmlEquality.CompactReadsBack` | cppunit/src/native/examples/cppunittest/XmlUniformiser.cpp:19-28 | A parser of the compact text gives back the tree up to blanks at the ends of contents, so uniformised printed text determines the tree. |
| `XmlEquality.CompactDecides` | cppunit/src/native/examples/cppunittest/XmlUniformiser.cpp:24-28 | Two compact texts are equal if and only if the trees are equal up to blanks at the ends of contents. |
| `XmlEquality.PrintedComparison` | cppunit/src/native/examples/cppunittest/XmlUniformiser.cpp:19-28 | Comparing two printed trees, each with its own indentation, accepts exactly the trees that are equal up to blanks at the ends of contents. |
| `XmlEquality.CheckXmlEqual` | cppunit/src/native/examples/cppunittest/XmlUniformiser.cpp:19-39 | Accepts exactly the texts with equal uniformised forms; otherwise reports both forms and where they part. |
| `XmlEquality.NotEqualIndex` | cppunit/src/native/examples/cppunittest/XmlUniformiser.cpp:4-15 | The index of the first difference, or the length of the shorter text. |
| `Protectors.ProtectorChain.Build` | cppunit/src/native/src/cppunit/ProtectorChain.cpp:65-76 | The backwards loop builds, as its last functor, the nesting of all protectors with the one pushed first outermost. |
| `Protectors.ProtectorChain.Protect` | cppunit/src/native/src/cppunit/ProtectorChain.cpp:58-83 | Runs that nesting. With the default protector pushed first, as in every TestResult, nothing is thrown through the chain, and every functor is deleted exactly once if and only if the body left its length as it was. For any other chain that is not empty this takes, besides, that nothing is thrown through it. |
| `Protectors.GuardedReturns` | cppunit/src/native/src/cppunit/TestResult.cpp:14-20 | A chain that begins with the default protector always returns, whatever is pushed behind it. |
| `Protectors.ProtectorChain.DeleteFunctors` | cppunit/src/native/src/cppunit/ProtectorChain.cpp:79-80 | The loop runs to the length the chain has afterwards: which functors it deletes, and how far it runs past the last. |
| `Protectors.ProtectorChain.Push` | cppunit/src/native/src/cppunit/ProtectorChain.cpp:37-41 | The protector goes to the end of the chain. |
| `Protectors.ProtectorChain.Pop` | cppunit/src/native/src/cppunit/ProtectorChain.cpp:44-49 | The last protector leaves the chain. |
| `Protectors.NestPush` | cppunit/src/native/src/cppunit/ProtectorChain.cpp:37-74 | A protector pushed last stands directly around the functor. |
| `Protectors.NothingEscapes` | cppunit/src/native/src/cppunit/DefaultProtector.cpp:9-39 | With the default protector pushed first nothing thrown by the body or by other protectors escapes: it is reported once and the answer is false; other outcomes pass unchanged. |
| `Engine.ProtectIs` | cppunit/src/native/src/cppunit/TestResult.cpp:172-179 | A protected call with the default chain: the method is called, a failed assertion is reported as failure, anything else as error, and the answer tells whether it completed. |
| `Engine.TestResult.constructor` | cppunit/src/native/src/cppunit/TestResult.cpp:14-20 | Starts unstopped, with nothing delivered. |
| `Engine.TestResult.Broadcast` | cppunit/src/native/src/cppunit/TestResult.cpp:54-106 | The loop hands the event to every listener in the order of registration; whoever hears it may raise stop. |
| `Engine.TestResult.ProtectCall` | cppunit/src/native/src/cppunit/TestResult.cpp:172-179 | The protected call of one test method, with the delivery of its failure. |
| `Engine.TestResult.RunCaseOf` | cppunit/src/native/src/cppunit/TestCase.cpp:52-100 | Start event, setUp, the test only if setUp succeeded, tearDown in any case, end event. |
| `Engine.TestResult.RunAny` | cppunit/src/native/src/cppunit/TestComposite.cpp:19-25 | Runs any tree of suites, cases, decorators and repetitions as the recursive specification says. |
| `Engine.TestResult.RunChildTests` | cppunit/src/native/src/cppunit/TestComposite.cpp:55-66 | The loop over the children with its stop check before each child. |
| `Engine.TestResult.RunRepeatedly` | cppunit/src/native/src/cppunit/RepeatedTest.cpp:16-26 | The repetition loop with its stop check before each round; a negative count runs nothing. |
| `Broadcasting.ListenerHearsTrace` | cppunit/src/native/src/cppunit/TestResult.cpp:54-106 | For every trace: a listener registered once hears exactly the events of the trace, in order. |
| `Broadcasting.ServedInOrder` | cppunit/src/native/src/cppunit/TestResult.cpp:54-106 | For every trace: event by event, all listeners are served in the order of registration before the next event is sent. |
| `Broadcasting.CollectorHearsTrace` | cppunit/src/native/src/cppunit/TestResultCollector.cpp:43-60 | A collector among any other listeners hears the starts and the failures of the whole trace. |
| `Runs.RunForest` | cppunit/src/native/src/cppunit/TestComposite.cpp:19-66 | Every run from every state adds the events of a forest of visited suites and executed tests, whose tests are a prefix of the schedule, and the whole schedule unless stop was raised. |
| `Runs.RunCaseForest` | cppunit/src/native/src/cppunit/TestCase.cpp:52-100 | Every executed test calls setUp and then tearDown, its body exactly when setUp completed, with a failure right after each call that threw. |
| `Runs.CaseSpelled` | cppunit/src/native/src/cppunit/TestCase.cpp:52-100 | The events of one test written out: all calls in order when nothing is thrown, and what a throw of each method leaves out and adds. |
| `RunProperties.RunIsNested` | cppunit/src/native/src/cppunit/TestComposite.cpp:19-73 | What any run adds to the trace is well nested: each start is matched by its own end, and calls and failures stand inside the start of their test. |
| `RunProperties.RunObeysStop` | cppunit/src/native/src/cppunit/TestComposite.cpp:55-66 | For every tree and wherever stop is raised after the run has begun: no test and no suite starts afterwards, and the flag is set exactly when somebody raised it. |
| `RunProperties.StoppedRunStartsOnce` | cppunit/src/native/src/cppunit/TestComposite.cpp:19-66 | A run entered with stop already set adds at most one start, as its first event, and leaves stop set. |
| `RunProperties.RunStartsSchedule` | cppunit/src/native/src/cppunit/TestComposite.cpp:55-66 | Stopped or not, the tests started are a prefix of the scheduled ones in order; unstopped, all of them. |
| `Counting.SoundExactly` | cppunit/src/native/src/cppunit/TestComposite.cpp:28-38 | For every tree: the test and every test inside it have a schedule as long as their `countTestCases` says, if and only if no repetition in the tree has a negative count, but for those whose inner test counts zero (the tree is sound). |
| `Counting.UnstoppedRunCounts` | cppunit/src/native/src/cppunit/RepeatedTest.cpp:7-26 | In a run nobody stops, a sound test starts as many tests as `countTestCases` announced. |
| `Counting.RepetitionCountsExactly` | cppunit/src/native/src/cppunit/RepeatedTest.cpp:8-26 | For every inner test and every count: a repetition counts what it runs if and only if its count is positive and the inner test counts what it runs, or its count is zero, or it is negative and the inner test counts zero. |
| `Counting.WrapperCountsExactly` | cppunit/src/native/src/cppunit/TestRunner.cpp:16-50 | If the tests it shows are sound, the wrapping suite of the runner counts what it runs if and only if it does not hold exactly one test, or that test is a case repeated zero times, or a suite that is run exactly once or counts zero. |
| `Counting.NegativeInside` | cppunit/src/native/src/cppunit/RepeatedTest.cpp:8-12 | Why soundness is needed: a repetition that is positive itself but repeats a negative one counts -1 and runs nothing, and a wrapper of two tests, one a negative repetition, counts 0 and runs 1. |
| `Collector.TestResultCollector.Collect` | cppunit/src/native/src/cppunit/TestResultCollector.cpp:43-60 | From any trace the collector keeps the started tests and the failures in order; errors and failures add up, and success holds exactly when there are none. |
| `Collector.TestResultCollector.OnFailure` | cppunit/src/native/src/cppunit/TestResultCollector.cpp:51-60 | Appends the failure, counts it as error if it is one, and clears success. |
| `Collector.TestResultCollector.Reset` | cppunit/src/native/src/cppunit/TestResultCollector.cpp:31-40 | Forgets tests, failures, errors and the lack of success. |
| `Collector.TestResultCollector.TestErrors` | cppunit/src/native/src/cppunit/TestResultCollector.cpp:74-78 | The number of recorded failures that are errors. |
| `Collector.TestResultCollector.TestFailures` | cppunit/src/native/src/cppunit/TestResultCollector.cpp:81-87 | The number of recorded failures that are no errors; it adds up with the errors to the total. |
| `Collector.ErrorsAreCounted` | cppunit/src/native/src/cppunit/TestResultCollector.cpp:51-60 | For every list of failures: the count is the number of positions that hold an error, and what is left of the total is the number of the others. |
| `Collector.TestResultCollector.WasSuccessful` | cppunit/src/native/src/cppunit/TestSuccessListener.cpp:35-40 | True exactly when there are neither errors nor failures. |
| `Collector.LeafFailures` | cppunit/src/native/src/cppunit/TestCase.cpp:87-97 | The failures of one executed test: at most one of setUp or of the body, and one of tearDown. |
| `Collector.ForestFailures` | cppunit/src/native/src/cppunit/TestResultCollector.cpp:51-60 | In any executed forest there are at most twice as many failures as tests, all of executed tests. |
| `Collector.RunFailures` | cppunit/src/native/src/cppunit/TestSuccessListener.cpp:27-40 | After any run the recorded failures are, one by one and in order, what the called test methods threw, as an error unless an assertion failed; there are at most two for each started test, each of a started test, and none if and only if nothing was thrown. |
| `Collector.RunErrors` | cppunit/src/native/src/cppunit/TestResultCollector.cpp:51-60 | After any run the errors counted are as many as the throws of something other than a failed assertion, and the other failures as many as the failed assertions. |
| `Clocker.ClockerModel.EnterTest` | cppunit/src/native/examples/ClockerPlugIn/ClockerModel.cpp:29-50 | The whole new state after an entry: path, stack, map, children of the open suite, the new record and the count. |
| `Clocker.ClockerModel.ExitTest` | cppunit/src/native/examples/ClockerPlugIn/ClockerModel.cpp:53-63 | The whole new state after an exit: the time of the top of the stack, the total taken from the last record, path and stack one shorter. |
| `Clocker.EntryExactly` | cppunit/src/native/examples/ClockerPlugIn/ClockerModel.cpp:29-50 | What an entry changes, record by record: a new record with the path to the test, a child more for the open suite, an index for a new test only. |
| `Clocker.ExitExactly` | cppunit/src/native/examples/ClockerPlugIn/ClockerModel.cpp:53-63 | What an exit changes, record by record; to the total it adds, for a test case, the time of the last record, whichever record was on top of the stack. |
| `Clocker.PlayForest` | cppunit/src/native/examples/ClockerPlugIn/ClockerModel.cpp:29-63 | Replaying the stream of any forest, in whatever state, adds one record for each node in pre-order, names the roots as children of the open suite, and leaves stack and path as they were. |
| `Clocker.PlayOne` | cppunit/src/native/examples/ClockerPlugIn/ClockerModel.cpp:29-63 | The same for one tree. |
| `Clocker.Left` | cppunit/src/native/examples/ClockerPlugIn/ClockerModel.cpp:53-63 | At the exit of a test case the last record is the top of the stack, so the total grows by the time of the case. |
| `ClockerProperties.ForestIsRebuilt` | cppunit/src/native/examples/ClockerPlugIn/ClockerModel.cpp:29-63 | A new model that hears the stream of any forest holds it: stack and path empty, records in pre-order, every child after its parent with the parent's path and itself, each index that is no root the child of exactly one other, the total the sum over the cases. |
| `ClockerProperties.RunIsRebuilt` | cppunit/src/native/examples/ClockerPlugIn/ClockerListener.cpp:43-68 | The same after every run of every test tree, whoever stops it and whatever throws. |
| `ClockerProperties.ForestIsLinked` | cppunit/src/native/examples/ClockerPlugIn/ClockerModel.cpp:33-46 | Every child index is greater than its parent's and its path is the parent's path and itself. |
| `ClockerProperties.MentionedOnce` | cppunit/src/native/examples/ClockerPlugIn/ClockerModel.cpp:35-37 | Every index of a forest is a root or named as a child, once in all. |
| `ClockerProperties.IndexIsFirst` | cppunit/src/native/examples/ClockerPlugIn/ClockerModel.cpp:39-39 | The map keeps the first visit of a test; a test without index was never visited. |
| `ClockerProperties.ModelAnswers` | cppunit/src/native/examples/ClockerPlugIn/ClockerModel.cpp:124-146 | Asked after any forest, a model answers `indexOf` with the first visit of a test, with -1 exactly for tests never visited, and `childAtFor` with a later index whose path extends that of its parent. |
| `ClockerProperties.SignalsOfVisit` | cppunit/src/native/examples/ClockerPlugIn/ClockerListener.cpp:43-68 | What the listener passes on for an executed tree is the stream of that tree. |
| `Report.XmlOutputter.SetRootNode` | cppunit/src/native/src/cppunit/XmlOutputter.cpp:68-86 | Builds the element tree of the report from the collected results. |
| `Report.XmlOutputter.FillFailedTestsMap` | cppunit/src/native/src/cppunit/XmlOutputter.cpp:89-99 | The loop of insertions gives the map of first failures. |
| `Report.XmlOutputter.FailedTestsNode` | cppunit/src/native/src/cppunit/XmlOutputter.cpp:102-116 | The failed tests in their order, each with its number. |
| `Report.XmlOutputter.SuccessfulTestsNode` | cppunit/src/native/src/cppunit/XmlOutputter.cpp:119-133 | The other tests in their order, each with its number. |
| `Report.XmlOutputter.StatisticsNode` | cppunit/src/native/src/cppunit/XmlOutputter.cpp:136-149 | The four statistics. |
| `Report.NewFailedTest` | cppunit/src/native/src/cppunit/XmlOutputter.cpp:152-187 | The element of one failed test, with its location only if the file is known. |
| `Report.FirstFailuresAreFirst` | cppunit/src/native/src/cppunit/XmlOutputter.cpp:89-99 | The map holds a failure for exactly the tests that have one, and it is the one recorded first. |
| `ReportProperties.ReportPartitions` | cppunit/src/native/src/cppunit/XmlOutputter.cpp:102-133 | For all collected results each position is listed exactly once, as failed if some failure belongs to its test and else as successful; both lists ascend and their sizes add up to the number of tests. |
| `ReportProperties.ReportEntries` | cppunit/src/native/src/cppunit/XmlOutputter.cpp:102-202 | The entry for each listed position carries the position plus one as id, and a failed one shows the first failure recorded for its test. |
| `ReportProperties.StripOfDocument` | cppunit/src/native/src/cppunit/XmlDocument.cpp:86-102 | Uniformising a whole document gives the compact text of its root, whatever encoding, standalone flag and style sheet it declares, if these do not hold `?>`. |
| `ReportProperties.ReportReadsBack` | cppunit/src/native/src/cppunit/XmlOutputter.cpp:68-86 | Parsing the uniformised document of any report gives the report back, up to blanks at the ends of texts. |
| `ReportProperties.ReportComparison` | cppunit/src/native/src/cppunit/XmlOutputter.cpp:68-202 | Comparing the documents of two reports accepts exactly equal reports, up to blanks at the ends of texts; then the same positions failed and the same succeeded. |
| `ReportContents.ReportText` | cppunit/src/native/src/cppunit/XmlOutputter.cpp:68-149 | The uniformised text of any report, however it is declared: `TestRun` with `FailedTests`, `SuccessfulTests` and `Statistics` in this order, each with its own entries. |
| `ReportContents.StatisticsText` | cppunit/src/native/src/cppunit/XmlOutputter.cpp:136-149 | `Tests` shows the number of tests, `FailuresTotal` that of all failures, `Errors` that of the failures which are errors, `Failures` that of the others. |
| `ReportContents.FailedTestText` | cppunit/src/native/src/cppunit/XmlOutputter.cpp:152-187 | The text of the entry of a failed test: its number, its name, `Error` or `Assertion`, file and line if the file is known, and the message. |
| `ReportContents.SuccessfulTestText` | cppunit/src/native/src/cppunit/XmlOutputter.cpp:190-202 | The text of the entry of a successful test: its number and its name. |
| `ReportContents.DocumentText` | cppunit/src/native/src/cppunit/XmlDocument.cpp:86-102 | The text of a document, character by character, in front of the root element, with and without `standalone` and style sheet. |
| `RunReports.ReportOfRun` | cppunit/src/native/src/cppunit/XmlOutputter.cpp:68-149 | The report of any run lists a test as failed for every recorded failure, lists none as failed if and only if nothing that was called threw, and counts at most two failures for each test. |
| `RunnerProperties.EveryInterleaving` | cppunit/src/native/src/qttestrunner/TestRunnerModel.cpp:36-221 | In every interleaving of the two threads with requests gated by the buttons: no thread asks for the lock while it holds it and the holder can always go on; the displayed count goes up by one or starts again at zero, so the last counts displayed are 0, 1, 2 and so on without gap or repetition; displayed, queued and pending counts account for every counted test, and likewise the failures in order, in every state but those between a reset of the counters and the signal that displays it, which have no test running and no event on its way; when the finished event is next everything has been displayed; while the buttons are disabled with the thread done, that event is on its way; and the dialog at rest shows what the model counts. |
| `RunnerProperties.StepKeeps` | cppunit/src/native/src/qttestrunner/TestRunnerModel.cpp:36-186 | Every step of either thread keeps the invariant. |
| `RunnerProperties.RunsKeep` | cppunit/src/native/src/qttestrunner/TestRunnerModel.cpp:36-221 | So does every sequence of steps. |
| `RunnerProperties.GuiKeepsLock` | cppunit/src/native/src/qttestrunner/TestRunnerModel.cpp:113-135 | The GUI thread takes and releases the lock in turn and touches shared data only between. |
| `RunnerProperties.RunnerKeepsCounts` | cppunit/src/native/src/qttestrunner/TestRunnerModel.cpp:155-168 | Counting and posting keep the account of displayed, queued and pending counts. |
| `RunnerProperties.RunnerKeepsFailures` | cppunit/src/native/src/qttestrunner/TestRunnerModel.cpp:171-186 | The same for the failures. |
| `RunnerProperties.RunnerKeepsOrder` | cppunit/src/native/src/qttestrunner/TestRunnerThread.cpp:29-38 | The finished event is posted last. |
| `RunnerProperties.DeliverKeepsCounts` | cppunit/src/native/src/qttestrunner/TestRunnerModel.cpp:189-214 | Processing an event displays the next count. |
| `RunnerProperties.DeliverKeepsFailures` | cppunit/src/native/src/qttestrunner/TestRunnerModel.cpp:201-207 | Processing an event displays the next failure and its number. |
| `RunnerProperties.GuiKeepsCounts` | cppunit/src/native/src/qttestrunner/TestRunnerModel.cpp:36-54 | A reset and its signals start the account again. |
| `RunnerProperties.RunIsShaped` | cppunit/src/native/src/qttestrunner/TestRunnerModel.cpp:89-111 | `runTest` with the reset inside: locks in turn, nothing touched when a test is running. |
| `RunnerProperties.StopIsShaped` | cppunit/src/native/src/qttestrunner/TestRunnerModel.cpp:122-135 | `stopRunningTest`: locks in turn, counters, display and thread untouched. |
| `RunnerStops.StopStops` | cppunit/src/native/src/qttestrunner/TestRunnerModel.cpp:122-135 | A call of `stopRunningTest` that has returned, whatever the runner thread did meanwhile: the stop flag is set if and only if it was set before, or there is a result and the thread was found running. |
| `RunnerStops.StopRuns` | cppunit/src/native/src/qttestrunner/TestRunnerModel.cpp:122-135 | With the lock free the call can run through, and sets the flag if there is a result and the thread is running. |
| `RunnerStops.FlagIsLastMark` | cppunit/src/native/src/qttestrunner/TestRunnerModel.cpp:97-101 | Over any run, gated or not, the stop flag is what was last done to it: once raised it stays raised until `runTest` makes a new result. |
| `RunnerResets.ResetNeedsEmptyQueue` | cppunit/src/native/src/qttestrunner/TestRunnerModel.cpp:36-54 | The check for a running test does not suffice. For every reset requested from the event loop in a state within the invariant, so in every one the dialog can reach, and whatever the runner did between the request and the check: if the check finds the thread gone, the reset runs through, and after the queued events have been processed too the dialog shows what the model counts if and only if the queue held no run count and no failure at the check. That is the queue at the request when the thread was gone at the request. |
| `RunnerResets.ResetRefused` | cppunit/src/native/src/qttestrunner/TestRunnerModel.cpp:41-47 | If the check finds the thread running, nothing but the lock and the program of the GUI thread has changed, and two steps later the dialog is in a state within the invariant. |
| `RunnerResets.CheckFindsAll` | cppunit/src/native/src/qttestrunner/TestRunnerModel.cpp:36-47 | Up to the check, whatever the runner does before and after the lock is taken: the state is, but for the lock and the program of the GUI thread, one within the invariant, and without thread the queue is that of the request. |
| `RunnerResets.ThreadGoneEventsQueued` | cppunit/src/native/src/qttestrunner/TestRunnerThread.cpp:29-38 | A run of one failing test, started with nothing but the run button, reaches a state where the thread is gone while its failure, its run count and the finished event are still queued. |
| `RunnerResets.StaleCountsShown` | cppunit/src/native/src/qttestrunner/TestRunnerDlgImpl.cpp:91-97 | A reset in that state, which only the disabled buttons prevent, ends with one run and one failure displayed while the model counts none. |
| `RunnerResets.StaleCountsAfterRace` | cppunit/src/native/src/qttestrunner/TestRunnerModel.cpp:36-54 | A reset requested while the test runs and nothing is queued ends so too, when the whole test runs before the check is made. |
| `RunnerResets.AllShown` | cppunit/src/native/src/qttestrunner/TestRunnerModel.cpp:189-221 | Processing the whole queue leaves the counters alone, displays one of its run counts if it holds any, and lists every announced failure. |
| `RunnerResets.RunStarts` | cppunit/src/native/src/qttestrunner/TestRunnerModel.cpp:89-111 | The run button, pressed with the thread gone and the lock free: after twenty-one steps the counters, the list and the display are reset, the number of tests is shown, the flag is cleared, the buttons are disabled and the thread is in the tests. |
| `RunnerResets.ResetButton` | cppunit/src/native/src/qttestrunner/TestRunnerModel.cpp:36-54 | The same without a run when another test is selected: counters, list and display are reset. |
| `TestPathObjects.FindTestPath` | cppunit/src/native/src/cppunit/Test.cpp:31-78 | Both searches, by name and by test: true exactly when there is a match; the path is left alone on failure and on success put between the chain found and its last test. |
| `TestPaths.FindIsFirstInPreOrder` | cppunit/src/native/src/cppunit/Test.cpp:31-78 | The search finds the first match among all downward chains in pre-order. |
| `TestPaths.ChainsAreAll` | cppunit/src/native/src/cppunit/Test.cpp:42-50 | Those chains are exactly the paths from parent to child that start at the test. |
| `TestPaths.FoundExactly` | cppunit/src/native/src/cppunit/Test.cpp:31-78 | A search by test ends at that test and a search by name at a test of that name, whenever some chain does; otherwise it finds nothing. |
| `TestPathObjects.FindTest` | cppunit/src/native/src/cppunit/Test.cpp:18-28 | The last test of that chain; without a match the search throws. |
| `TestPathObjects.TestPath.ToText` | cppunit/src/native/src/cppunit/TestPath.cpp:188-200 | The loop writes a `/` in front of every name. |
| `TestPathObjects.TestPath.Insert` | cppunit/src/native/src/cppunit/TestPath.cpp:115-122 | Inserts at an index in range and refuses any other. |
| `TestPathObjects.SplitPathString` | cppunit/src/native/src/cppunit/TestPath.cpp:225-251 | Relative exactly without a leading `/`; the names are the parts between the separators. |
| `TestPathObjects.FindActualRoot` | cppunit/src/native/src/cppunit/TestPath.cpp:203-222 | The root a path starts at: the search root, or for a relative path the first test with the first name; it must bear that name. |
| `TestPathObjects.ResolveTestPath` | cppunit/src/native/src/cppunit/TestPath.cpp:43-70 | Builds the resolved path or throws, as the specification of resolving says. |
| `TestPaths.PathReadsBackExactly` | cppunit/src/native/src/cppunit/TestPath.cpp:43-70 | Resolving the text of a path gives the path back if and only if it starts at the root, each next test is the first child of its name, and no name holds a `/`. |
| `TestPaths.RelativeReadsBackExactly` | cppunit/src/native/src/cppunit/TestPath.cpp:203-222 | The text of a path without the `/` in front gives it back if and only if the path starts at the end of the first chain, in pre-order from the root, that ends at its first name, and each next test is the first child of its name. |
| `TestPaths.ResolvedPrintsBack` | cppunit/src/native/src/cppunit/TestPath.cpp:188-200 | A non-empty text that resolves is printed as itself when it is absolute, and with a `/` in front when it is relative. |
| `Splitting.JoinSplit` | cppunit/src/native/src/cppunit/StringTools.cpp:27-47 | Joining what was split gives the text back. |
| `Splitting.SplitJoin` | cppunit/src/native/src/cppunit/TestPath.cpp:234-248 | Splitting what was joined gives the parts back if none holds the separator. |
| `StringTools.SplitText` | cppunit/src/native/src/cppunit/StringTools.cpp:27-47 | The loop finds all parts, none for the empty text, and joining them gives the text back. |
| `StringTools.SplitExactly` | cppunit/src/native/src/cppunit/StringTools.cpp:27-47 | The parts of a text are exactly those free of the separator that join to it, and none for the empty text. |
| `StringTools.Wrap` | cppunit/src/native/src/cppunit/StringTools.cpp:50-76 | The two loops write every line of the text cut into slices. |
| `StringTools.WrapLine` | cppunit/src/native/src/cppunit/StringTools.cpp:63-72 | The inner loop writes the slices of one line with line breaks between them, or the whole line for a negative column; each of its turns is `WrapTurn`. |
| `StringTools.WrapLineEndsExactly` | cppunit/src/native/src/cppunit/StringTools.cpp:65-72 | Some number of turns takes the index to the end of a line if and only if the column is not 0 or the line is empty. |
| `StringTools.TurnsAtColumnZero` | cppunit/src/native/src/cppunit/StringTools.cpp:65-72 | At column 0 any number of turns leaves the index where it was and adds that many line breaks. |
| `StringTools.WrappedLines` | cppunit/src/native/src/cppunit/StringTools.cpp:50-76 | The lines of a wrapped text are the slices of the original lines, and each fits a positive column; a negative column leaves the text as it is. |
| `StringTools.SlicesAreFull` | cppunit/src/native/src/cppunit/StringTools.cpp:63-72 | For a positive column every slice of a line but the last has exactly that many characters, and none is empty unless the line is. |
| `StringTools.WrapIsIdempotent` | cppunit/src/native/src/cppunit/StringTools.cpp:50-76 | Wrapping again at the same column changes nothing. |
| `StringTools.WrapKeepsText` | cppunit/src/native/src/cppunit/StringTools.cpp:50-76 | But for line breaks, wrapping keeps the text. |
| `MostRecent.BoundedRecentTests.SetTestToRun` | cppunit/src/native/src/qttestrunner/MostRecentTests.cpp:20-28 | The list after one more run is the bounded list of the longer history. |
| `MostRecent.AllRecentTests.SetLastTestRun` | cppunit/src/native/src/msvc6/testrunner/MostRecentTests.cpp:29-43 | The list after one more run is the unbounded list of the longer history, each entry with the name of its test. |
| `MostRecent.AllRecentTests.Forget` | cppunit/src/native/src/msvc6/testrunner/MostRecentTests.cpp:32-39 | The loop erases the first entry of the test and no other. |
| `MostRecent.BoundedIsPrefix` | cppunit/src/native/src/qttestrunner/MostRecentTests.cpp:20-28 | For every history the bounded list is the unbounded one, or its first 20 entries if it has more. |
| `MostRecent.RecentByLatestUse` | cppunit/src/native/src/msvc6/testrunner/MostRecentTests.cpp:29-43 | For every history the unbounded list holds each test of the history once, by latest use. |
| `MostRecent.BoundedByLatestUse` | cppunit/src/native/src/qttestrunner/MostRecentTests.cpp:20-28 | The bounded list has at most twenty entries, none twice, by latest use. |
| `RawDumpFiles.CpuRawData.Serialize` | requirements.cpu.cpuid/src/main/native/cpuid_main.c:326-339 | The three loops write the lines of the dump. |
| `RawDumpFiles.CpuRawData.Deserialize` | requirements.cpu.cpuid/src/main/native/cpuid_main.c:346-399 | The loop over the lines, through one buffer of 100 characters whose first contents are anything, leaves in the arrays what the reading of the file says, and stops at the first syntax error. |
| `RawDumpFiles.CpuRawData.ParseToken` | requirements.cpu.cpuid/src/main/native/cpuid_main.c:61-82 | Stores a row when the token names the bank and index and value can be read; an error when they cannot; nothing when a bank was recognised before. |
| `RawDumpFiles.CpuRawData.LoadToken` | requirements.cpu.cpuid/src/main/native/cpuid_main.c:379-386 | The banks are tried in order; a line of no bank is ignored. |
| `RawDumpFiles.CpuRawData.LoadLine` | requirements.cpu.cpuid/src/main/native/cpuid_main.c:366-386 | One line in the buffer: its line break cut off in place, taken apart at the first `=`; without one the value is whatever the buffer holds behind the NUL of the line. |
| `RawDumpFiles.GetLine` | requirements.cpu.cpuid/src/main/native/cpuid_main.c:364-364 | `fgets` with its buffer of 100: at most 99 characters, up to and including a line break, and a NUL; the rest of the buffer stays. |
| `RawDumpFiles.FindAssignment` | requirements.cpu.cpuid/src/main/native/cpuid_main.c:370-370 | The search loop stops at the first `=`, or at the end of the line. |
| `RawDumpProofs.DumpReadsBack` | requirements.cpu.cpuid/src/main/native/cpuid_main.c:315-400 | Reading the text written for any data succeeds and gives the same data. |
| `RawDumpProofs.PermutedDumpReadsBack` | requirements.cpu.cpuid/src/main/native/cpuid_main.c:364-395 | So does every permutation of its lines. |
| `RawDumpProofs.AnyArrangementReadsBack` | requirements.cpu.cpuid/src/main/native/cpuid_main.c:364-395 | So does any file of lines of the dump, repeated or not, that holds every row. |
| `RawDumpProofs.LoadContinues` | requirements.cpu.cpuid/src/main/native/cpuid_main.c:364-395 | Lines that fit the buffer of `fgets` are read one by one off the front of any file, up to the first error. |
| `RawDumpProofs.LoadIsByLines` | requirements.cpu.cpuid/src/main/native/cpuid_main.c:364-386 | `fgets` takes a file of lines that fit its buffer apart into these lines, and the old contents of the buffer are never consulted. |
| `RawDumpProofs.LineReadsBack` | requirements.cpu.cpuid/src/main/native/cpuid_main.c:329-331 | One printed row asks for exactly that row to be stored. |
| `RawDumpProofs.RegsReadBack` | requirements.cpu.cpuid/src/main/native/cpuid_main.c:73-77 | Four words printed with eight hexadecimal digits are converted back. |
| `RawDumpProofs.HexReadsBack` | requirements.cpu.cpuid/src/main/native/cpuid_main.c:329-331 | Eight hexadecimal digits denote the printed word. |
| `Numbers.NotationReadsBack` | requirements.cpu.cpuid/src/main/native/cpuid_main.c:329-331 | The digits of an index denote the printed index. |
| `DumpFormat.DumpText` | requirements.cpu.cpuid/src/main/native/cpuid_main.c:315-341 | Every line of a dump as text: version, build date, then 32 lines `basic_cpuid[i]=` with the words of the basic array, 32 lines `ext_cpuid[i]=` with those of the extended one, and 4 lines `intel_fn4[i]=`. |
| `DumpFormat.WordsText` | requirements.cpu.cpuid/src/main/native/cpuid_main.c:329-331 | The words of a line are eax, ebx, ecx and edx with blanks between. |
| `DumpFormat.HexDigit` | requirements.cpu.cpuid/src/main/native/cpuid_main.c:329-331 | Each digit of a printed word is the hexadecimal digit, in small letters, of its power of 16. |
| `DumpFormat.IndexText` | requirements.cpu.cpuid/src/main/native/cpuid_main.c:329-331 | An index below 100 is printed with one decimal digit, or with two. |
| `DumpFormat.LinesAreStored` | requirements.cpu.cpuid/src/main/native/cpuid_main.c:364-386 | Each of the three kinds of line, read alone, is stored in its own array at its own index and changes nothing else. |
| `DumpFormat.IndexOutOfRange` | requirements.cpu.cpuid/src/main/native/cpuid_main.c:72-81 | A negative index, or one of 32 or more (4 or more for `intel_fn4`), is an error whatever the value is. |
| `DumpFormat.UnnamedRowsAreZero` | requirements.cpu.cpuid/src/main/native/cpuid_main.c:346-400 | A row that no line of a file names holds zeros in what the file is read into. |
| `DumpFormat.SignedScan` | requirements.cpu.cpuid/src/main/native/cpuid_main.c:72-73 | A number may have a sign in front; a minus negates it. |
| `DumpFormat.PrefixedScan` | requirements.cpu.cpuid/src/main/native/cpuid_main.c:73-73 | A hexadecimal number may have the prefix `0x`. |
| `DumpFormat.DigitMeans` | requirements.cpu.cpuid/src/main/native/cpuid_main.c:73-73 | Hexadecimal digits are read in either case, and no other character is one. |
| `DumpFormat.LongLine` | requirements.cpu.cpuid/src/main/native/cpuid_main.c:364-364 | Of a line that is too long 99 characters are read at a time. |
| `TruncatedDumps.MissingAssignment` | requirements.cpu.cpuid/src/main/native/cpuid_main.c:364-386 | For every content of the line buffer: a line without `=` that ends with a line break is an error if and only if it begins with the name of a bank. One that came without line break is an error if and only if it begins with the name of a bank and either names no row of it or what the buffer holds behind it cannot be read as four numbers. The check for a missing `=` is the body of the search loop and never applies. |
| `TruncatedDumps.TokenMeaningExactly` | requirements.cpu.cpuid/src/main/native/cpuid_main.c:61-82 | A token and its value are an error if and only if the token begins with the name of a bank and either names no row of it or the value cannot be read as four numbers. |
| `TruncatedDumps.OldTextBehind` | requirements.cpu.cpuid/src/main/native/cpuid_main.c:364-377 | Behind a line without line break the buffer still holds the rest of the longer line read before. |
| `TruncatedDumps.TruncatedRowAccepted` | requirements.cpu.cpuid/src/main/native/cpuid_main.c:364-386 | A token alone, read through the buffer after the line of the row before, is taken as a row with the numbers of the row before, when the two tokens are equally long. |
| `CutDumps.CutDumpExactly` | requirements.cpu.cpuid/src/main/native/cpuid_main.c:315-400 | For every dump, every n and every content of the line buffer: reading the first n characters of the dump succeeds if and only if they end within or behind a header, or behind a whole row, or within a row but before the end of the name of its bank, or in front of its `=` with a digit of the index there and a readable value left in the buffer, or from the first digit of its last number on. From the second row on such a value is left if and only if the token of the row before is no longer than the part. |
| `CutDumps.CutParts` | requirements.cpu.cpuid/src/main/native/cpuid_main.c:315-341 | The first n characters of a file of lines are so many whole lines and part of the next. |
| `CutDumps.RowPart` | requirements.cpu.cpuid/src/main/native/cpuid_main.c:61-82 | A part of a row is no error if and only if it ends at one of the places above. |
| `CutDumps.HeaderPart` | requirements.cpu.cpuid/src/main/native/cpuid_main.c:379-386 | No part of a header is an error. |
| `CutDumps.RowShortened` | requirements.cpu.cpuid/src/main/native/cpuid_main.c:73-82 | A row that lacks up to seven digits of its last number is stored with what is left of that number. |
| `CutDumps.TruncatedDumpAccepted` | requirements.cpu.cpuid/src/main/native/cpuid_main.c:346-400 | In any bank: a dump cut off before the `=` of a row whose token is as long as the one before is accepted, and that row holds the numbers of the row before. |
| `Codenames.ComputeScore` | requirements.cpu.cpuid/src/main/native/libcpuid_util.c:76-90 | The number of the nine columns that agree. |
| `Codenames.EveryColumnCounts` | requirements.cpu.cpuid/src/main/native/libcpuid_util.c:76-90 | Each of the nine columns adds one when it agrees with its own value, and nothing for any other value. |
| `Codenames.NothingAgrees` | requirements.cpu.cpuid/src/main/native/libcpuid_util.c:76-90 | An entry that agrees in no column scores 0. |
| `Codenames.OutdoneRowIsNotChosen` | requirements.cpu.cpuid/src/main/native/libcpuid_util.c:92-113 | A row is never chosen when another one agrees wherever it does, and in some column more or stands before it. |
| `Codenames.MatchCpuCodename` | requirements.cpu.cpuid/src/main/native/libcpuid_util.c:92-113 | For every non-empty table the name chosen stands at the least index of maximal score. |
| `Codenames.GetCpuList` | requirements.cpu.cpuid/src/main/native/libcpuid_util.c:115-133 | The two loops build the list of names. |
| `Codenames.NameListIsComplete` | requirements.cpu.cpuid/src/main/native/libcpuid_util.c:121-131 | A name is listed if and only if it is in the table and does not contain "Unknown". |
| `Codenames.NameListInTableOrder` | requirements.cpu.cpuid/src/main/native/libcpuid_util.c:121-131 | Names are listed in the order of their first rows, so none twice. |
| `Codenames.ListedExactly` | requirements.cpu.cpuid/src/main/native/libcpuid_util.c:115-133 | A name is listed if and only if some row has it and "Unknown" stands nowhere in it. |
| `Codenames.ChosenNameIsListed` | requirements.cpu.cpuid/src/main/native/libcpuid_util.c:92-133 | The name chosen for any processor is listed if and only if it does not contain "Unknown". |

## Left out

- RunnerProperties.EveryInterleaving: the stop flag does not restrict what the runner thread does next, so it covers more runs than there are; the order of test events within a run is the subject of Runs and RunProperties.
- RunnerProperties.InitialHolds: starts from the dialog after its first reset; before it the counters of the model object are uninitialised.
- RunProperties.RunObeysStop: nobody calls `reset` on the result or adds and removes listeners during the run.
- Engine.TestResult.RunAny: the chain of protectors during a run is the default one; other chains are the subject of Protectors.
- Protectors.NothingEscapes: reporting a failure does not throw.
- Protectors.ProtectorChain.Protect: what the body does to the chain is given by the length it leaves behind.
- Engine.ProtectIs: the chain of protectors is the default one, and how the text of a reported exception is composed from its type and a short description is left out: the detail is taken as given.
- Engine.TestResult.ProtectCall: the chain of protectors is the default one; what further protectors do to a call is the subject of Protectors.
- Clocker.ClockerModel.ExitTest: the time an oracle supplies, as a real number, in place of a timer.
- Report.XmlOutputter.StatisticsNode: the hooks called when the statistics are complete are left out.
- Report.XmlOutputter.FailedTestsNode: the hooks called for each failed test are left out.
- Report.XmlOutputter.SuccessfulTestsNode: the hooks called for each successful test are left out.
- Report.NewFailedTest: the hooks called for the failed test are left out.
- Report.XmlOutputter.SetRootNode: the hooks called before and after the report is built are left out, and each child element is complete before it is added to its parent, so nothing is added through a second reference to an element.
- XmlElements.XmlElement.AddElement: an element is not added to itself or to an element inside it.
- StringTools.Wrap: column 0 with a line that is not empty, for which the loop does not end, and lines of 2 to the 31 characters or more with a negative column.
- StringTools.WrapLine: likewise.
- MostRecent.AllRecentTests.SetLastTestRun: null is never run; for it the loop finds nothing and nothing is added.
- RawDumpProofs.DumpReadsBack: version and build date are parameters whose lines fit the buffer of `fgets` and hold neither line break nor NUL, as the real ones do.
- CutDumps.CutDumpExactly: likewise.
- RawDumpFiles.CpuRawData.Deserialize: the text of the file is given: opening and closing it is left out. So is what `sscanf` makes of numbers too great for 32 bits: the model keeps their low 32 bits.
- RawDumpFiles.CpuRawData.LoadToken: the warning for a line of no bank, which is all that tells the two headers from other such lines.
- RawDumpFiles.CpuRawData.LoadLine: a chunk of 99 characters of an overlong line comes without line break; when it has no `=` either, the value pointer stands past the buffer. The model reads nothing there.
- TruncatedDumps.MissingAssignment: likewise lines of 99 characters, whose value pointer stands past the buffer.
- Codenames.MatchCpuCodename: the contents of the tables and the copying of the name into a buffer of fixed size; the empty table, for which the code reads a row that is not there.
- Test identity is the identifier in a test value, in place of an address; in one tree two objects have two identifiers.
- Counts are unbounded integers: no overflow of `int` in counters, indexes and products.
- `startTestRun` and `endTestRun`, progress listeners, and the text and compiler outputters: streams of output with one branch each.
- `TestPath` slices, `add` and `insert` of whole paths, and `removeTest`: easy members beside the search and the round trips.
- The user interfaces, plug-in manager, dynamic libraries, JNI code, CPUID and RDTSC instructions, and clock measurement: foreign calls and hardware.
- Destructors and clones, except for the functors of the protector chain.
