/** Dumps whose lines lack a '=': which are refused, and one that is accepted although it was cut off. */
module TruncatedDumps {
  import opened Sequences
  import opened Splitting
  import opened RawDump
  import opened RawDumpProofs

  /** The token has the name of the bank and an index in range. */
  predicate NamesRow(b: Bank, token: string) {
    BankName(b) + "[" <= token &&
    var index := ScanNumber(token[|BankName(b)| + 1..], 10);
    index.Scanned? && 0 <= index.value < Limit(b)
  }

  /** The row a token asks for cannot be read. */
  predicate Unreadable(b: Bank, token: string, value: string) {
    BankName(b) <= token && !(NamesRow(b, token) && ScanRegs(value).0)
  }

  lemma RowMeaningExactly(b: Bank, token: string, value: string)
    requires BankName(b) <= token
    ensures RowMeaning(b, token, value).SyntaxError? <==> Unreadable(b, token, value)
    ensures NamesRow(b, token) && ScanRegs(value).0 ==>
              RowMeaning(b, token, value) == Store(b, ScanNumber(token[|BankName(b)| + 1..], 10).value, ScanRegs(value).1)
  {
    hide ScanNumber, ScanRegs, BankName;
  }

  /** The names of the banks part at their first letter, and neither known header begins with one. */
  lemma OneBank(b: Bank, token: string)
    requires BankName(b) <= token
    ensures token != "version" && token != "build_date"
    ensures forall b' :: BankName(b') <= token ==> b' == b
  {
    assert token[0] == BankName(b)[0] && token[1] == BankName(b)[1];
  }

  lemma BankDecides(b: Bank, token: string, value: string)
    requires BankName(b) <= token
    ensures TokenMeaning(token, value) == RowMeaning(b, token, value)
  {
    OneBank(b, token);
    hide RowMeaning, BankName;
    match b
    case Basic =>
    case Ext =>
    case IntelFn4 =>
  }

  lemma TokenMeaningExactly(token: string, value: string)
    ensures TokenMeaning(token, value).SyntaxError? <==> exists b :: Unreadable(b, token, value)
  {
    hide RowMeaning, NamesRow, ScanRegs, BankName;
    if b :| BankName(b) <= token {
      BankDecides(b, token, value);
      RowMeaningExactly(b, token, value);
      OneBank(b, token);
    }
  }

  /** The empty text holds no registers. */
  lemma NoRegisters()
    ensures !ScanRegs("").0
  {
    assert ScanNumber("", 16) == NoMatch;
  }

  /** A line without '=' is all token; its value is what stands behind it, nothing if a line break was cut off. */
  lemma WholeLineIsToken(text: string, behind: string)
    requires Plain(text)
    ensures text != "" ==> LineMeaning(text + "\n", behind) == TokenMeaning(text, "")
    ensures |text| >= 2 ==> LineMeaning(text, behind) == TokenMeaning(text, behind)
  {
    hide TokenMeaning;
    Cut(text, "\n");
    assert text[..|text|] == text;
    BeforeIs(text, '=', |text|);
  }

  lemma LineWithoutAssignment(text: string, behind: string)
    requires Plain(text)
    ensures LineMeaning(text + "\n", behind).SyntaxError? <==> exists b :: BankName(b) <= text
    ensures LineMeaning(text, behind).SyntaxError? <==> exists b :: Unreadable(b, text, behind)
  {
    WholeLineIsToken(text, behind);
    TokenMeaningExactly(text, "");
    TokenMeaningExactly(text, behind);
    NoRegisters();
    ShortNamesNothing(text, behind);
    hide LineMeaning, TokenMeaning, NamesRow, ScanRegs, BankName;
    if b :| BankName(b) <= text {
      assert Unreadable(b, text, "");
    }
  }

  lemma ShortNamesNothing(text: string, behind: string)
    ensures |text| < 2 ==> forall b :: !(BankName(b) <= text)
    ensures |text| < 2 ==> LineMeaning(text, behind) == Nothing
    ensures text == "" ==> LineMeaning(text + "\n", behind) == Nothing
  {
  }

  /**
   * The test for a missing '=' stands inside the loop that looks for it, where it never applies. With its line
   * break, a line without '=' is an error exactly when it begins with the name of a bank. Without line break it is
   * an error exactly when it begins with the name of a bank and either names no row of it, or what the buffer
   * held behind it cannot be read as four numbers.
   */
  lemma MissingAssignment(text: string, buffer: string)
    requires Plain(text) && |buffer| == BUFFER_SIZE && |text| + 2 <= BUFFER_SIZE
    ensures BufferMeaning(AfterGets(buffer, text + "\n")).SyntaxError? <==> exists b :: BankName(b) <= text
    ensures BufferMeaning(AfterGets(buffer, text)).SyntaxError? <==> exists b :: Unreadable(b, text, Behind(buffer, text))
  {
    hide BufferMeaning, LineMeaning, AfterGets, Behind, Unreadable, BankName;
    BufferMeans(buffer, text + "\n");
    BufferMeans(buffer, text);
    LineWithoutAssignment(text, Behind(buffer, text + "\n"));
    LineWithoutAssignment(text, Behind(buffer, text));
  }

  // ---------- what the buffer still holds ----------

  /** Behind a shorter line stands the rest of the line that was read before. */
  lemma OldTextBehind(buffer: string, previous: string, line: string)
    requires |buffer| == BUFFER_SIZE && Short(previous) && |line| + 1 <= |previous|
    ensures Behind(AfterCut(AfterGets(buffer, previous + "\n")), line) == previous[|line| + 1..]
  {
    BreakCut(buffer, previous);
    var rest := "\0" + buffer[|previous| + 2..];
    var read := previous + ("\0" + rest);
    hide AfterCut;
    Stored(read, line);
    assert read[|line| + 1..] == previous[|line| + 1..] + ("\0" + rest);
    hide AfterGets;
    TextIs(AfterGets(read, line), |line| + 1, previous[|line| + 1..], rest);
  }

  lemma Stored(buffer: string, line: string)
    requires |line| < |buffer|
    ensures AfterGets(buffer, line)[|line| + 1..] == buffer[|line| + 1..]
  {
  }

  /**
   * A dump cut off before the '=' of a row whose token is as long as the one before: the row is taken as
   * given, with the numbers of the row before.
   */
  lemma TruncatedRowAccepted(b: Bank, i: nat, r: Regs, buffer: string)
    requires i + 1 < Limit(b) && |Token(b, i)| == |Token(b, i + 1)| && |buffer| == BUFFER_SIZE
    ensures Short(RowLine(b, i, r)) && |Token(b, i + 1)| < BUFFER_SIZE
    ensures BufferMeaning(AfterGets(AfterCut(AfterGets(buffer, RowLine(b, i, r) + "\n")), Token(b, i + 1))) == Store(b, i + 1, r)
  {
    var token, next, value := Token(b, i), Token(b, i + 1), RegsText(r);
    LineReadsBack(b, i, r, "");
    RegsArePlain(r);
    TokenIsPlain(b, i + 1);
    LongToken(b, i + 1);
    TokenReadsBack(b, i + 1, r);
    hide LineMeaning, TokenMeaning, RegsText, Behind, AfterCut, Token, AfterGets, BufferMeaning;
    var read := AfterCut(AfterGets(buffer, RowLine(b, i, r) + "\n"));
    BehindToken(token, value);
    OldTextBehind(buffer, token + ("=" + value), next);
    BufferMeans(read, next);
    WholeLineIsToken(next, value);
  }

  lemma BehindToken(token: string, value: string)
    ensures (token + ("=" + value))[|token| + 1..] == value
  {
    Concat3(token, "=", value);
    Cut(token + "=", value);
  }

  lemma LongToken(b: Bank, i: nat)
    ensures |Token(b, i)| >= 2
  {
  }
}
