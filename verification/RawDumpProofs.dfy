/** Reading back a dump gives the data it was written from, in whatever order its lines are. */
module RawDumpProofs {
  import opened Sequences
  import opened Numbers
  import opened Splitting
  import opened RawDump

  function Power16(k: nat): nat { if k == 0 then 1 else 16 * Power16(k - 1) }

  lemma {:induction false} HexReadsBack(n: nat, k: nat)
    ensures Digits(Hex(n, k), 16)
    ensures n < Power16(k) ==> Value(Hex(n, k), 16) == n
  {
    hide Digit, DigitValue, Value, Digits;
    if k == 0 {
      NoDigits(16);
    } else {
      HexReadsBack(n / 16, k - 1);
      DigitReadsBack(n % 16);
      ValuePush(Hex(n / 16, k - 1), Digit(n % 16), 16);
    }
  }

  lemma WordFits(w: Word)
    ensures w < Power16(8)
  {
    assert Power16(4) == 0x10000 by {
      assert Power16(2) == 0x100;
    }
    assert Power16(6) == 0x1000000;
    assert Power16(8) == 0x1_0000_0000;
  }

  lemma {:induction false} DigitSpanIs(d: string, y: string, base: nat)
    requires Digits(d, base) && (y != "" ==> DigitValue(y[0]) >= base)
    ensures DigitSpan(d + y, base) == |d|
  {
    if d == "" {
      assert d + y == y;
    } else {
      assert (d + y)[1..] == d[1..] + y;
      DigitSpanIs(d[1..], y, base);
    }
  }

  /** A number in plain digits is converted, and what follows it is left. */
  lemma ScanPlain(d: string, y: string, base: nat)
    requires d != "" && Digits(d, base) && (base == 10 || base == 16)
    requires y != "" ==> DigitValue(y[0]) >= base && y[0] != 'x' && y[0] != 'X'
    ensures ScanNumber(d + y, base) == Scanned(Value(d, base), y)
  {
    var s := d + y;
    assert s[0] == d[0] && (|s| >= 2 ==> s[1] == if |d| >= 2 then d[1] else y[0]);
    DigitsFirst(s, base);
    DigitSpanIs(d, y, base);
    Cut(d, y);
    hide DigitSpan, Value, SkipSpace, Digits;
  }

  /** A digit is no blank, no sign, and no base prefix follows it. */
  lemma DigitsFirst(s: string, base: nat)
    requires s != "" && DigitValue(s[0]) < base <= 16
    ensures SkipSpace(s) == s && s[0] != '-' && s[0] != '+'
    ensures |s| >= 2 && DigitValue(s[1]) < 16 ==> s[1] != 'x' && s[1] != 'X'
  {
  }

  lemma ScanAfterBlank(d: string, y: string)
    requires d != "" && Digits(d, 16) && (y == "" || y[0] == ' ')
    ensures ScanNumber(" " + (d + y), 16) == Scanned(Value(d, 16), y)
  {
    ScanPlain(d, y, 16);
    var s := d + y;
    assert DigitValue(s[0]) < 16;
    hide Value, DigitSpan;
    SpaceSkipped(s);
  }

  /** One blank in front of a digit is skipped. */
  lemma SpaceSkipped(s: string)
    requires s != "" && DigitValue(s[0]) < 16
    ensures SkipSpace(" " + s) == SkipSpace(s) == s
  {
    assert (" " + s)[1..] == s;
  }

  lemma RegsReadBack(r: Regs)
    ensures ScanRegs(RegsText(r)) == (true, r)
  {
    hide ScanNumber, Hex, Digits, Value;
    var fourth := Hex(r.edx, 8);
    var third := Hex(r.ecx, 8) + (" " + fourth);
    var second := Hex(r.ebx, 8) + (" " + third);
    FirstWordReadsBack(r.eax, " " + second);
    WordReadsBack(r.ebx, " " + third);
    WordReadsBack(r.ecx, " " + fourth);
    WordReadsBack(r.edx, "");
    assert fourth + "" == fourth;
  }

  lemma FirstWordReadsBack(w: Word, y: string)
    requires y != "" && y[0] == ' '
    ensures ScanNumber(Hex(w, 8) + y, 16) == Scanned(w, y)
  {
    HexReadsBack(w, 8);
    WordFits(w);
    ScanPlain(Hex(w, 8), y, 16);
  }

  lemma WordReadsBack(w: Word, y: string)
    requires y == "" || y[0] == ' '
    ensures ScanNumber(" " + (Hex(w, 8) + y), 16) == Scanned(w, y)
  {
    HexReadsBack(w, 8);
    WordFits(w);
    ScanAfterBlank(Hex(w, 8), y);
  }

  lemma RowReadsBack(b: Bank, i: nat, r: Regs)
    requires i < Limit(b)
    ensures RowMeaning(b, Token(b, i), RegsText(r)) == Store(b, i, r)
  {
    hide ScanNumber, ScanRegs, RegsText;
    RegsReadBack(r);
    var index := Notation(i, 10) + "]";
    Concat3(BankName(b), "[", index);
    Cut(BankName(b) + "[", index);
    NotationReadsBack(i, 10);
    ScanPlain(Notation(i, 10), "]", 10);
  }

  /** The names of the banks part at their first letter. */
  lemma TokenReadsBack(b: Bank, i: nat, r: Regs)
    requires i < Limit(b)
    ensures TokenMeaning(Token(b, i), RegsText(r)) == Store(b, i, r)
  {
    hide RowMeaning, RegsText, Notation;
    RowReadsBack(b, i, r);
    var token := Token(b, i);
    assert token[0] == BankName(b)[0] && token[1] == BankName(b)[1];
    assert BankName(b) <= token;
  }

  // ---------- lines without NUL ----------

  /**
   * What such a line asks for when fgets delivers it. Without '=' the value is empty when a line break was cut off,
   * else it is what the buffer held behind the line.
   */
  function LineMeaning(line: string, behind: string): (m: Meaning)
    ensures m.Store? ==> m.index < Limit(m.bank)
  {
    if |line| < 2 then Nothing else
    var broken := line[|line| - 1] == '\n';
    var text := if broken then line[..|line| - 1] else line;
    var i := Before(text, '=');
    var value := if i < |text| then text[i + 1..] else if broken then "" else behind;
    TokenMeaning(text[..i], value)
  }

  /** What the buffer holds behind a line once fgets has stored it. */
  function Behind(buffer: string, line: string): string
    requires |line| < |buffer|
  {
    TextAt(AfterGets(buffer, line), |line| + 1)
  }

  lemma TextIs(buffer: string, i: nat, text: string, rest: string)
    requires i <= |buffer| && buffer[i..] == text + ("\0" + rest) && '\0' !in text
    ensures TextAt(buffer, i) == text
  {
    Cut(text, "\0" + rest);
    BeforeIs(buffer[i..], '\0', |text|);
  }

  /** The line stands at the beginning of the buffer. */
  lemma LineStored(buffer: string, line: string)
    requires |line| < |buffer| && '\0' !in line
    ensures TextAt(AfterGets(buffer, line), 0) == line
  {
    var read := AfterGets(buffer, line);
    assert read[0..] == read;
    TextIs(read, 0, line, buffer[|line| + 1..]);
  }

  /** And is cut off its line break there. */
  lemma BreakCut(buffer: string, text: string)
    requires text != "" && |text| + 1 < |buffer| && '\0' !in text
    ensures AfterCut(AfterGets(buffer, text + "\n")) == text + ("\0" + ("\0" + buffer[|text| + 2..]))
  {
    var rest := buffer[|text| + 2..];
    Concat3(text, "\n", "\0" + rest);
    LineStored(buffer, text + "\n");
    assert AfterGets(buffer, text + "\n") == text + ("\n" + ("\0" + rest));
    hide AfterGets, TextAt;
    OneReplaced(text, '\n', '\0', "\0" + rest);
  }

  lemma OneReplaced(a: string, c: char, d: char, b: string)
    ensures (a + ([c] + b))[|a|] == c && (a + ([c] + b))[|a| := d] == a + ([d] + b)
  {
  }

  /** For a line without NUL the meaning of the buffer is the meaning of the line. */
  lemma BufferMeans(buffer: string, line: string)
    requires |line| < |buffer| && '\0' !in line
    ensures BufferMeaning(AfterGets(buffer, line)) == LineMeaning(line, Behind(buffer, line))
  {
    hide BufferMeaning, LineMeaning, AfterGets, Behind;
    if |line| < 2 {
      ShortMeans(buffer, line);
    } else if line[|line| - 1] == '\n' {
      var text := line[..|line| - 1];
      assert line == text + "\n";
      BrokenMeans(buffer, text);
      BehindUnused(text, Behind(buffer, line));
    } else {
      UnbrokenMeans(buffer, line);
    }
  }

  lemma ShortMeans(buffer: string, line: string)
    requires |line| < 2 && |line| < |buffer| && '\0' !in line
    ensures BufferMeaning(AfterGets(buffer, line)) == Nothing && LineMeaning(line, Behind(buffer, line)) == Nothing
  {
    LineStored(buffer, line);
  }

  lemma BrokenMeans(buffer: string, text: string)
    requires text != "" && |text| + 1 < |buffer| && '\0' !in text
    ensures BufferMeaning(AfterGets(buffer, text + "\n")) == LineMeaning(text + "\n", "")
  {
    var rest := "\0" + buffer[|text| + 2..];
    LineStored(buffer, text + "\n");
    BreakCut(buffer, text);
    TextFirst(text, rest);
    ValueIs(text, rest, Before(text, '='));
    BrokenLine(text);
    hide AfterGets, AfterCut, TextAt, TokenMeaning, Before, LineMeaning;
  }

  lemma TextFirst(text: string, rest: string)
    requires '\0' !in text
    ensures TextAt(text + ("\0" + rest), 0) == text
  {
    var cut := text + ("\0" + rest);
    assert cut[0..] == cut;
    TextIs(cut, 0, text, rest);
  }

  lemma BrokenLine(text: string)
    requires text != ""
    ensures LineMeaning(text + "\n", "") ==
            TokenMeaning(text[..Before(text, '=')],
                         if Before(text, '=') < |text| then text[Before(text, '=') + 1..] else "")
  {
    Cut(text, "\n");
    hide TokenMeaning, Before;
  }

  /** The value behind the '=', or nothing where the line break was. */
  lemma ValueIs(text: string, rest: string, i: nat)
    requires '\0' !in text && i <= |text| && rest != "" && rest[0] == '\0'
    ensures TextAt(text + ("\0" + rest), i + 1) == if i < |text| then text[i + 1..] else ""
  {
    if i < |text| {
      ValueInside(text, rest, i);
    } else {
      ValueBehind(text, rest);
    }
  }

  lemma ValueInside(text: string, rest: string, i: nat)
    requires '\0' !in text && i < |text|
    ensures TextAt(text + ("\0" + rest), i + 1) == text[i + 1..]
  {
    var cut := text + ("\0" + rest);
    assert cut[i + 1..] == text[i + 1..] + ("\0" + rest);
    TextIs(cut, i + 1, text[i + 1..], rest);
  }

  lemma ValueBehind(text: string, rest: string)
    requires rest != "" && rest[0] == '\0'
    ensures TextAt(text + ("\0" + rest), |text| + 1) == ""
  {
    var cut := text + ("\0" + rest);
    Concat3(text, "\0", rest);
    Cut(text + "\0", rest);
    assert rest == "" + ("\0" + rest[1..]);
    TextIs(cut, |text| + 1, "", rest[1..]);
  }

  lemma UnbrokenMeans(buffer: string, line: string)
    requires 2 <= |line| < |buffer| && '\0' !in line && line[|line| - 1] != '\n'
    ensures BufferMeaning(AfterGets(buffer, line)) == LineMeaning(line, Behind(buffer, line))
  {
    hide BufferMeaning, AfterGets, TextAt, TokenMeaning, Before, AfterCut, LineMeaning, Behind;
    var i := Before(line, '=');
    LineStored(buffer, line);
    UncutMeans(AfterGets(buffer, line), line);
    StoredValue(buffer, line, i);
    UnbrokenLine(line, Behind(buffer, line));
  }

  lemma UncutMeans(read: string, line: string)
    requires '\0' in read && TextAt(read, 0) == line && |line| >= 2 && line[|line| - 1] != '\n'
    ensures Before(line, '=') + 1 <= |read|
    ensures BufferMeaning(read) == TokenMeaning(line[..Before(line, '=')], TextAt(read, Before(line, '=') + 1))
  {
    Uncut(read, line);
    TextEnds(read);
    hide TokenMeaning, TextAt, AfterCut;
  }

  lemma StoredValue(buffer: string, line: string, i: nat)
    requires |line| < |buffer| && '\0' !in line && i <= |line|
    ensures TextAt(AfterGets(buffer, line), i + 1) == if i < |line| then line[i + 1..] else Behind(buffer, line)
  {
    if i < |line| {
      ValueInside(line, buffer[|line| + 1..], i);
    }
  }

  lemma UnbrokenLine(line: string, behind: string)
    requires 2 <= |line| && line[|line| - 1] != '\n'
    ensures LineMeaning(line, behind) ==
            TokenMeaning(line[..Before(line, '=')],
                         if Before(line, '=') < |line| then line[Before(line, '=') + 1..] else behind)
  {
    hide TokenMeaning, Before;
  }

  lemma Uncut(read: string, line: string)
    requires TextAt(read, 0) == line && |line| >= 2 && line[|line| - 1] != '\n'
    ensures AfterCut(read) == read
  {
    assert read[0..] == read;
  }

  /** Characters that end no line, no token and no string. */
  predicate Plain(s: string) { '\n' !in s && '=' !in s && '\0' !in s }

  lemma DigitsArePlain(s: string, base: nat)
    requires Digits(s, base) && base <= 16
    ensures Plain(s)
  {
  }

  lemma {:induction false} IndexIsShort(i: nat)
    requires i < 100
    ensures |Notation(i, 10)| <= 2
  {
  }

  lemma PlainConcat(a: string, b: string)
    requires Plain(a) && Plain(b)
    ensures Plain(a + b)
  {
  }

  lemma PlainPieces()
    ensures Plain("[") && Plain("]") && Plain(" ") && forall b :: Plain(BankName(b)) && |BankName(b)| <= 11
  {
  }

  lemma TokenIsPlain(b: Bank, i: nat)
    requires i < Limit(b)
    ensures Plain(Token(b, i)) && |Token(b, i)| <= 15
  {
    NotationReadsBack(i, 10);
    IndexIsShort(i);
    DigitsArePlain(Notation(i, 10), 10);
    PlainPieces();
    hide Notation, Digits, Plain, BankName;
    PlainConcat(Notation(i, 10), "]");
    PlainConcat("[", Notation(i, 10) + "]");
    PlainConcat(BankName(b), "[" + (Notation(i, 10) + "]"));
  }

  lemma WordIsPlain(w: Word)
    ensures Plain(Hex(w, 8))
  {
    HexReadsBack(w, 8);
    hide Hex, Digits;
    DigitsArePlain(Hex(w, 8), 16);
  }

  lemma RegsArePlain(r: Regs)
    ensures Plain(RegsText(r)) && |RegsText(r)| == 35
  {
    WordIsPlain(r.eax);
    WordIsPlain(r.ebx);
    WordIsPlain(r.ecx);
    WordIsPlain(r.edx);
    PlainPieces();
    hide Hex, Plain;
    PlainConcat(" ", Hex(r.edx, 8));
    PlainConcat(Hex(r.ecx, 8), " " + Hex(r.edx, 8));
    PlainConcat(" ", Hex(r.ecx, 8) + (" " + Hex(r.edx, 8)));
    PlainConcat(Hex(r.ebx, 8), " " + (Hex(r.ecx, 8) + (" " + Hex(r.edx, 8))));
    PlainConcat(" ", Hex(r.ebx, 8) + (" " + (Hex(r.ecx, 8) + (" " + Hex(r.edx, 8)))));
    PlainConcat(Hex(r.eax, 8), " " + (Hex(r.ebx, 8) + (" " + (Hex(r.ecx, 8) + (" " + Hex(r.edx, 8))))));
  }

  /** One printed row, as fgets delivers it, asks for exactly that row to be stored. */
  lemma LineReadsBack(b: Bank, i: nat, r: Regs, behind: string)
    requires i < Limit(b)
    ensures LineMeaning(RowLine(b, i, r) + "\n", behind) == Store(b, i, r)
    ensures Short(RowLine(b, i, r))
  {
    hide TokenMeaning, Token, RegsText;
    var token, value := Token(b, i), RegsText(r);
    var text := token + ("=" + value);
    TokenReadsBack(b, i, r);
    TokenIsPlain(b, i);
    RegsArePlain(r);
    Cut(text, "\n");
    Cut(token, "=" + value);
    Cut("=", value);
    assert text[|token|] == '=';
    BeforeIs(text, '=', |token|);
    assert text[|token| + 1..] == value;
  }

  /** A line that fits the buffer of fgets together with its line break. */
  predicate Short(line: string) { '\n' !in line && '\0' !in line && |line| <= 98 }

  /** Reading lines one by one; the buffer is never consulted behind a line that ended. */
  function LoadLines(raw: Raw, lines: seq<string>): (r: (Raw, bool))
    requires Sized(raw)
    ensures Sized(r.0)
    decreases lines
  {
    hide LineMeaning, ApplyMeaning;
    if lines == [] then (raw, true) else
    var m := LineMeaning(lines[0] + "\n", "");
    if m.SyntaxError? then (raw, false) else LoadLines(ApplyMeaning(raw, m), lines[1..])
  }

  /** The buffer after these lines have been read through it. */
  function BufferAfter(buffer: string, lines: seq<string>): (buffer': string)
    requires |buffer| == BUFFER_SIZE && forall l :: l in lines ==> Short(l)
    ensures |buffer'| == |buffer|
    decreases lines
  {
    if lines == [] then buffer else
    assert Short(lines[0]) by { assert lines[0] in lines; }
    BufferAfter(AfterCut(AfterGets(buffer, lines[0] + "\n")), lines[1..])
  }

  lemma BehindUnused(line: string, behind: string)
    ensures LineMeaning(line + "\n", behind) == LineMeaning(line + "\n", "")
  {
  }

  /** fgets takes short lines off the front of a file one by one. */
  lemma {:induction false} LoadContinues(raw: Raw, lines: seq<string>, tail: string, buffer: string)
    requires Sized(raw) && |buffer| == BUFFER_SIZE && forall l :: l in lines ==> Short(l)
    ensures Load(raw, FileOf(lines) + tail, buffer) ==
            if LoadLines(raw, lines).1 then Load(LoadLines(raw, lines).0, tail, BufferAfter(buffer, lines))
            else LoadLines(raw, lines)
    decreases lines
  {
    hide Load, LineMeaning, ApplyMeaning, AfterCut, AfterGets;
    if lines == [] {
      assert FileOf(lines) + tail == tail;
    } else {
      var first, more := lines[0], FileOf(lines[1..]);
      Concat3("\n", more, tail);
      Concat3(first, "\n" + more, tail);
      assert first in lines;
      OneLoaded(raw, first, more + tail, buffer);
      var m := LineMeaning(first + "\n", "");
      if !m.SyntaxError? {
        LoadContinues(ApplyMeaning(raw, m), lines[1..], tail, AfterCut(AfterGets(buffer, first + "\n")));
      }
    }
  }

  lemma OneLoaded(raw: Raw, first: string, more: string, buffer: string)
    requires Sized(raw) && Short(first) && |buffer| == BUFFER_SIZE
    ensures LineMeaning(first + "\n", "").SyntaxError? ==> Load(raw, first + ("\n" + more), buffer) == (raw, false)
    ensures !LineMeaning(first + "\n", "").SyntaxError? ==>
              Load(raw, first + ("\n" + more), buffer) ==
              Load(ApplyMeaning(raw, LineMeaning(first + "\n", "")), more, AfterCut(AfterGets(buffer, first + "\n")))
  {
    LineTaken(first, more);
    BufferMeans(buffer, first + "\n");
    BehindUnused(first, Behind(buffer, first + "\n"));
    hide LineMeaning, BufferMeaning, ApplyMeaning, LineLength, Short, AfterGets, AfterCut, Behind;
  }

  lemma LineTaken(first: string, more: string)
    requires Short(first)
    ensures LineLength(first + ("\n" + more)) == |first| + 1
    ensures (first + ("\n" + more))[..|first| + 1] == first + "\n" && (first + ("\n" + more))[|first| + 1..] == more
  {
    var text := first + ("\n" + more);
    Concat3(first, "\n", more);
    Cut(first, "\n" + more);
    assert text[..|first|] == first;
    BeforeIs(text, '\n', |first|);
    Cut(first + "\n", more);
  }

  /** A file of short lines is read as these lines. */
  lemma LoadIsByLines(raw: Raw, lines: seq<string>, buffer: string)
    requires Sized(raw) && |buffer| == BUFFER_SIZE && forall l :: l in lines ==> Short(l)
    ensures Load(raw, FileOf(lines), buffer) == LoadLines(raw, lines)
  {
    LoadContinues(raw, lines, "", buffer);
    assert FileOf(lines) + "" == FileOf(lines);
  }

  // ---------- any arrangement of the lines of a dump ----------

  ghost predicate IsRow(raw: Raw, line: string, b: Bank, i: nat)
    requires Sized(raw)
  {
    i < Limit(b) && line == RowLine(b, i, Rows(raw, b)[i])
  }

  /** A line of a dump: the version, the build date, or some row. */
  ghost predicate DumpLine(raw: Raw, line: string)
    requires Sized(raw)
  {
    (exists text :: line == "version=" + text) || (exists text :: line == "build_date=" + text) ||
    exists b, i: nat :: IsRow(raw, line, b, i)
  }

  ghost predicate Present(raw: Raw, lines: seq<string>, b: Bank, i: nat)
    requires Sized(raw)
  {
    exists k :: 0 <= k < |lines| && IsRow(raw, lines[k], b, i)
  }

  lemma HeaderMeansNothing(name: string, text: string)
    requires name == "version" || name == "build_date"
    ensures LineMeaning(name + ("=" + text) + "\n", "") == Nothing
  {
    hide TokenMeaning;
    var line := name + ("=" + text);
    Cut(line, "\n");
    Cut(name, "=" + text);
    assert line[|name|] == '=';
    BeforeIs(line, '=', |name|);
    KnownHeader(name, if |name| < |line| then line[|name| + 1..] else "");
  }

  lemma KnownHeader(name: string, value: string)
    requires name == "version" || name == "build_date"
    ensures TokenMeaning(name, value) == Nothing
  {
  }

  /** What a dump line asks for. */
  lemma DumpLineMeaning(raw: Raw, line: string)
    requires Sized(raw) && DumpLine(raw, line)
    ensures var m := LineMeaning(line + "\n", "");
            m == Nothing || (m.Store? && IsRow(raw, line, m.bank, m.index) && m.regs == Rows(raw, m.bank)[m.index])
    ensures forall b, i: nat :: IsRow(raw, line, b, i) ==> LineMeaning(line + "\n", "") == Store(b, i, Rows(raw, b)[i])
  {
    hide LineMeaning, RowLine;
    forall b, i: nat | IsRow(raw, line, b, i)
      ensures LineMeaning(line + "\n", "") == Store(b, i, Rows(raw, b)[i])
    {
      LineReadsBack(b, i, Rows(raw, b)[i], "");
    }
    if text :| line == "version=" + text {
      assert "version" + ("=" + text) == line;
      HeaderMeansNothing("version", text);
    } else if text :| line == "build_date=" + text {
      assert "build_date" + ("=" + text) == line;
      HeaderMeansNothing("build_date", text);
    }
  }

  lemma RowsOfPut(raw: Raw, b: Bank, i: nat, r: Regs, b': Bank, i': nat)
    requires Sized(raw) && i < Limit(b) && i' < Limit(b')
    ensures Rows(Put(raw, b, i, r), b')[i'] == if b == b' && i == i' then r else Rows(raw, b')[i']
  {
  }

  /** After reading dump lines, every row that was among them is right and every other row is as before. */
  lemma {:induction false} LoadKeeps(raw: Raw, before: Raw, lines: seq<string>)
    requires Sized(raw) && Sized(before) && forall l :: l in lines ==> DumpLine(raw, l)
    ensures var after := LoadLines(before, lines);
            after.1 && forall b, i: nat :: i < Limit(b) ==>
              Rows(after.0, b)[i] == if Present(raw, lines, b, i) then Rows(raw, b)[i] else Rows(before, b)[i]
    decreases lines
  {
    if lines != [] {
      hide LineMeaning;
      var first, more := lines[0], lines[1..];
      var m := LineMeaning(first + "\n", "");
      assert first in lines;
      DumpLineMeaning(raw, first);
      var next := ApplyMeaning(before, m);
      LoadKeeps(raw, next, more);
      var after := LoadLines(before, lines);
      forall b, i: nat | i < Limit(b)
        ensures Rows(after.0, b)[i] == if Present(raw, lines, b, i) then Rows(raw, b)[i] else Rows(before, b)[i]
      {
        PresentSplits(raw, lines, b, i);
        if m.Store? {
          RowsOfPut(before, m.bank, m.index, m.regs, b, i);
        }
      }
    }
  }

  lemma PresentSplits(raw: Raw, lines: seq<string>, b: Bank, i: nat)
    requires Sized(raw) && lines != []
    ensures Present(raw, lines, b, i) <==> IsRow(raw, lines[0], b, i) || Present(raw, lines[1..], b, i)
  {
    var more := lines[1..];
    if Present(raw, lines, b, i) && !IsRow(raw, lines[0], b, i) {
      var k :| 0 <= k < |lines| && IsRow(raw, lines[k], b, i);
      assert more[k - 1] == lines[k];
    }
    if Present(raw, more, b, i) {
      var k :| 0 <= k < |more| && IsRow(raw, more[k], b, i);
      assert lines[k + 1] == more[k];
    }
  }

  /** Any arrangement of dump lines that holds every row, repeated or not, reads back as the data. */
  lemma AnyArrangementReadsBack(raw: Raw, lines: seq<string>, buffer: string)
    requires Sized(raw) && |buffer| == BUFFER_SIZE && forall l :: l in lines ==> Short(l) && DumpLine(raw, l)
    requires forall b, i: nat :: i < Limit(b) ==> Present(raw, lines, b, i)
    ensures Load(NO_DATA, FileOf(lines), buffer) == (raw, true)
  {
    LoadIsByLines(NO_DATA, lines, buffer);
    LoadKeeps(raw, NO_DATA, lines);
    var after := LoadLines(NO_DATA, lines).0;
    RowsDetermine(after, raw);
  }

  lemma RowsDetermine(a: Raw, b: Raw)
    requires Sized(a) && Sized(b)
    requires forall bank, i :: 0 <= i < Limit(bank) ==> Rows(a, bank)[i] == Rows(b, bank)[i]
    ensures a == b
  {
    assert Rows(a, Basic) == Rows(b, Basic);
    assert Rows(a, Ext) == Rows(b, Ext);
    assert Rows(a, IntelFn4) == Rows(b, IntelFn4);
  }

  /** Where in the dump the rows of a bank begin. */
  function FirstLine(b: Bank): nat {
    match b
    case Basic => 2
    case Ext => 34
    case IntelFn4 => 66
  }

  lemma DumpLineOfRow(raw: Raw, version: string, buildDate: string, b: Bank, i: nat)
    requires Sized(raw) && i < Limit(b)
    ensures var lines, k := DumpLines(raw, version, buildDate), FirstLine(b) + i;
            k < |lines| && IsRow(raw, lines[k], b, i)
  {
    hide RowLine;
  }

  lemma DumpIsArrangement(raw: Raw, version: string, buildDate: string)
    requires Sized(raw) && Short("version=" + version) && Short("build_date=" + buildDate)
    ensures var lines := DumpLines(raw, version, buildDate);
            (forall l :: l in lines ==> Short(l) && DumpLine(raw, l)) &&
            forall b, i: nat :: i < Limit(b) ==> Present(raw, lines, b, i)
  {
    var lines := DumpLines(raw, version, buildDate);
    assert |lines| == 70 && lines[0] == "version=" + version && lines[1] == "build_date=" + buildDate;
    hide DumpLines, IsRow, Short;
    forall b, i: nat | i < Limit(b)
      ensures Present(raw, lines, b, i)
    {
      DumpLineOfRow(raw, version, buildDate, b, i);
    }
    forall l | l in lines
      ensures Short(l) && DumpLine(raw, l)
    {
      var k :| 0 <= k < |lines| && lines[k] == l;
      if k >= 2 {
        var b := if k < 34 then Basic else if k < 66 then Ext else IntelFn4;
        DumpLineOfRow(raw, version, buildDate, b, k - FirstLine(b));
        RowIsShort(raw, l, b, k - FirstLine(b));
      }
    }
  }

  lemma RowIsShort(raw: Raw, line: string, b: Bank, i: nat)
    requires Sized(raw) && IsRow(raw, line, b, i)
    ensures Short(line)
  {
    hide RowLine, LineMeaning;
    LineReadsBack(b, i, Rows(raw, b)[i], "");
  }

  /** The text written for any data reads back as that data. */
  lemma DumpReadsBack(raw: Raw, version: string, buildDate: string, buffer: string)
    requires |buffer| == BUFFER_SIZE && Sized(raw) && Short("version=" + version) && Short("build_date=" + buildDate)
    ensures Load(NO_DATA, FileOf(DumpLines(raw, version, buildDate)), buffer) == (raw, true)
  {
    DumpIsArrangement(raw, version, buildDate);
    AnyArrangementReadsBack(raw, DumpLines(raw, version, buildDate), buffer);
  }

  /** So does every permutation of its lines. */
  lemma PermutedDumpReadsBack(raw: Raw, version: string, buildDate: string, lines: seq<string>, buffer: string)
    requires |buffer| == BUFFER_SIZE && Sized(raw) && Short("version=" + version) && Short("build_date=" + buildDate)
    requires multiset(lines) == multiset(DumpLines(raw, version, buildDate))
    ensures Load(NO_DATA, FileOf(lines), buffer) == (raw, true)
  {
    var dump := DumpLines(raw, version, buildDate);
    DumpIsArrangement(raw, version, buildDate);
    hide DumpLines, IsRow, DumpLine, Short;
    SameMembers(lines, dump);
    forall b, i: nat | i < Limit(b)
      ensures Present(raw, lines, b, i)
    {
      assert Present(raw, dump, b, i);
      var k :| 0 <= k < |dump| && IsRow(raw, dump[k], b, i);
      assert dump[k] in lines;
    }
    AnyArrangementReadsBack(raw, lines, buffer);
  }

  lemma SameMembers(a: seq<string>, b: seq<string>)
    requires multiset(a) == multiset(b)
    ensures forall l :: l in a <==> l in b
  {
    assert forall l :: l in a <==> l in multiset(a);
    assert forall l :: l in b <==> l in multiset(b);
  }
}
