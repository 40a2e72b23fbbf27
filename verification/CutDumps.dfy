/** Dumps cut off anywhere: exactly which of them are read without error. */
module CutDumps {
  import opened Sequences
  import opened Numbers
  import opened Splitting
  import opened RawDump
  import opened RawDumpProofs
  import opened TruncatedDumps

  // ---------- where a file is cut ----------

  /** The number of lines, with their line breaks, within the first n characters of a file. */
  function WholeLines(lines: seq<string>, n: nat): (k: nat)
    ensures k <= |lines|
  {
    if lines == [] || n <= |lines[0]| then 0 else 1 + WholeLines(lines[1..], n - |lines[0]| - 1)
  }

  /** How much of the next line they hold. */
  function PartOfLine(lines: seq<string>, n: nat): nat {
    if lines == [] then 0 else if n <= |lines[0]| then n else PartOfLine(lines[1..], n - |lines[0]| - 1)
  }

  lemma {:induction false} CutParts(lines: seq<string>, n: nat)
    requires n <= |FileOf(lines)|
    ensures WholeLines(lines, n) < |lines| ==> PartOfLine(lines, n) <= |lines[WholeLines(lines, n)]|
    ensures FileOf(lines)[..n] ==
            FileOf(lines[..WholeLines(lines, n)]) +
            if WholeLines(lines, n) < |lines| then lines[WholeLines(lines, n)][..PartOfLine(lines, n)] else ""
  {
    if lines == [] {
      assert FileOf(lines)[..n] == "" && lines[..0] == [] && "" + "" == "";
    } else if n <= |lines[0]| {
      assert lines[..0] == [] && FileOf(lines) == lines[0] + ("\n" + FileOf(lines[1..]));
      CutFirst(lines[0], "\n" + FileOf(lines[1..]), n);
    } else {
      var m, more := n - |lines[0]| - 1, FileOf(lines[1..]);
      var k := WholeLines(lines[1..], m);
      CutParts(lines[1..], m);
      assert lines[..1 + k] == [lines[0]] + lines[1..][..k] && ([lines[0]] + lines[1..][..k])[1..] == lines[1..][..k];
      assert k < |lines[1..]| ==> lines[1..][k] == lines[1 + k];
      CutLater(lines[0], more, n);
      var part := if k < |lines[1..]| then lines[1..][k][..PartOfLine(lines[1..], m)] else "";
      Concat3("\n", FileOf(lines[1..][..k]), part);
      Concat3(lines[0], "\n" + FileOf(lines[1..][..k]), part);
    }
  }

  lemma CutFirst(first: string, rest: string, n: nat)
    requires n <= |first|
    ensures (first + rest)[..n] == "" + first[..n]
  {
  }

  lemma CutLater(first: string, more: string, n: nat)
    requires |first| < n <= |first| + 1 + |more|
    ensures (first + ("\n" + more))[..n] == first + ("\n" + more[..n - |first| - 1])
  {
  }

  // ---------- the last line ----------

  /** A file whose last line is not ended is read without error if the lines before and the last line are. */
  lemma LastPart(raw: Raw, part: string, buffer: string)
    requires Sized(raw) && Short(part) && |buffer| == BUFFER_SIZE
    ensures Load(raw, part, buffer).1 <==> !LineMeaning(part, Behind(buffer, part)).SyntaxError?
    ensures LineMeaning(part, Behind(buffer, part)).Store? ==>
              Load(raw, part, buffer).0 == ApplyMeaning(raw, LineMeaning(part, Behind(buffer, part)))
  {
    if part != "" {
      WholeLength(part);
      BufferMeans(buffer, part);
      NothingMore(ApplyMeaning(raw, BufferMeaning(AfterGets(buffer, part))), AfterCut(AfterGets(buffer, part)));
    }
    hide LineMeaning, BufferMeaning, AfterGets, AfterCut, Behind, ApplyMeaning, LineLength;
  }

  lemma WholeLength(part: string)
    requires Short(part)
    ensures LineLength(part) == |part| && part[..|part|] == part && part[|part|..] == ""
  {
    assert part[..|part|] == part;
    BeforeIs(part, '\n', |part|);
  }

  lemma NothingMore(raw: Raw, buffer: string)
    requires Sized(raw) && |buffer| == BUFFER_SIZE
    ensures Load(raw, "", buffer) == (raw, true)
  {
  }

  lemma PartIsShort(line: string, j: nat)
    requires Short(line) && j <= |line|
    ensures Short(line[..j])
  {
  }

  // ---------- parts of a header ----------

  /** The header is never an error, wherever it is cut. */
  lemma HeaderPart(name: string, text: string, j: nat, behind: string)
    requires name == "version" || name == "build_date"
    requires j <= |name + ("=" + text)| && '\n' !in text
    ensures !LineMeaning((name + ("=" + text))[..j], behind).SyntaxError?
  {
    if j <= |name| {
      assert (name + ("=" + text))[..j] == name[..j];
      HeaderNamesNoBank(name, j);
      LineWithoutAssignment(name[..j], behind);
      hide LineMeaning, BankName, NamesRow, ScanRegs;
    } else {
      PartWithAssignment(name, text, j);
      UnbrokenLine(name + ("=" + text[..j - |name| - 1]), behind);
      KnownHeader(name, text[..j - |name| - 1]);
      hide LineMeaning, TokenMeaning, Before;
    }
  }

  lemma HeaderNamesNoBank(name: string, j: nat)
    requires (name == "version" || name == "build_date") && j <= |name|
    ensures Plain(name[..j]) && forall b :: !(BankName(b) <= name[..j])
  {
    forall b
      ensures !(BankName(b) <= name[..j])
    {
      assert BankName(b)[0] != 'v' && BankName(b)[1] != 'u';
      assert name[0] == 'v' || name[1] == 'u';
    }
  }

  /** A line cut behind its '='. */
  lemma PartWithAssignment(token: string, value: string, j: nat)
    requires |token| < j <= |token + ("=" + value)| && Plain(token) && |token| >= 2 && '\n' !in value
    ensures var m := j - |token| - 1;
            var part := token + ("=" + value[..m]);
            (token + ("=" + value))[..j] == part && |part| >= 2 && part[|part| - 1] != '\n' && Before(part, '=') == |token| &&
            part[..|token|] == token && part[|token| + 1..] == value[..m]
  {
    var m := j - |token| - 1;
    var part := token + ("=" + value[..m]);
    Cut(token, "=" + value[..m]);
    BehindToken(token, value[..m]);
    assert part[|token|] == '=';
    BeforeIs(part, '=', |token|);
    assert part[|part| - 1] == if m == 0 then '=' else value[m - 1];
  }

  // ---------- how many numbers can be read ----------

  /** That many hexadecimal conversions in a row succeed. */
  predicate Scans(s: string, count: nat)
    decreases count
  {
    count == 0 || (ScanNumber(s, 16).Scanned? && Scans(ScanNumber(s, 16).rest, count - 1))
  }

  lemma RegsAreFour(s: string)
    ensures ScanRegs(s).0 <==> Scans(s, 4)
  {
    hide ScanNumber;
    ScansOne(s, 4);
    if ScanNumber(s, 16).Scanned? {
      var a := ScanNumber(s, 16).rest;
      ScansOne(a, 3);
      if ScanNumber(a, 16).Scanned? {
        var b := ScanNumber(a, 16).rest;
        ScansOne(b, 2);
        if ScanNumber(b, 16).Scanned? {
          ScansOne(ScanNumber(b, 16).rest, 1);
        }
      }
    }
  }

  lemma ScansOne(s: string, count: nat)
    requires count > 0
    ensures Scans(s, count) <==> ScanNumber(s, 16).Scanned? && Scans(ScanNumber(s, 16).rest, count - 1)
  {
  }

  /** Words of hexadecimal digits with one blank between them. */
  function Words(ws: seq<string>): string {
    if ws == [] then "" else if |ws| == 1 then ws[0] else ws[0] + (" " + Words(ws[1..]))
  }

  predicate EightDigits(ws: seq<string>) { forall w :: w in ws ==> |w| == 8 && Digits(w, 16) }

  /** Of words cut off somewhere, as many are read as have begun. */
  lemma {:induction false} WordsCut(ws: seq<string>, m: nat, count: nat)
    requires EightDigits(ws) && m <= |Words(ws)| && 0 < count <= |ws|
    ensures Scans(Words(ws)[..m], count) <==> 9 * count - 8 <= m
    decreases count
  {
    hide ScanNumber, Words, EightDigits;
    ScansOne(Words(ws)[..m], count);
    if m <= 8 {
      WordBegun(ws, m);
      NothingScans();
    } else {
      MoreWords(ws, m);
      if count > 1 {
        WordsCut(ws[1..], m - 9, count - 1);
        hide Scans;
        DigitFirst(ws[1..], m - 9);
        AfterBlank(Words(ws[1..])[..m - 9], count - 1);
      }
    }
  }

  lemma DigitFirst(ws: seq<string>, m: nat)
    requires EightDigits(ws) && m <= |Words(ws)|
    ensures Words(ws)[..m] != "" ==> DigitValue(Words(ws)[..m][0]) < 16
  {
    if ws != [] {
      assert ws[0] in ws;
    }
  }

  lemma NothingScans()
    ensures ScanNumber("", 16) == NoMatch && ScanNumber(" ", 16) == NoMatch
  {
    assert SkipSpace(" ") == SkipSpace("") == "" by { assert " "[1..] == ""; }
  }

  /** Cut within its first word, or right behind it, the text holds one number, or none if nothing is left. */
  lemma WordBegun(ws: seq<string>, m: nat)
    requires EightDigits(ws) && ws != [] && m <= 8 && m <= |Words(ws)|
    ensures m > 0 ==> ScanNumber(Words(ws)[..m], 16).Scanned? && ScanNumber(Words(ws)[..m], 16).rest == ""
    ensures m == 0 ==> ScanNumber(Words(ws)[..m], 16).NoMatch?
  {
    assert ws[0] in ws;
    assert Words(ws)[..m] == ws[0][..m];
    if m > 0 {
      assert ws[0][..m] + "" == ws[0][..m];
      ScanPlain(ws[0][..m], "", 16);
    } else {
      NothingScans();
    }
  }

  /** Cut further on, it holds its first word, a blank, and what is left of the others. */
  lemma MoreWords(ws: seq<string>, m: nat)
    requires EightDigits(ws) && ws != [] && 8 < m <= |Words(ws)|
    ensures |ws| > 1 && m - 9 <= |Words(ws[1..])| && EightDigits(ws[1..])
    ensures ScanNumber(Words(ws)[..m], 16).Scanned?
    ensures ScanNumber(Words(ws)[..m], 16).rest == " " + Words(ws[1..])[..m - 9]
  {
    assert ws[0] in ws;
    assert Words(ws) == ws[0] + (" " + Words(ws[1..]));
    hide Words, ScanNumber, Digits;
    WordAndMore(ws[0], Words(ws[1..]), m);
    ScanPlain(ws[0], " " + Words(ws[1..])[..m - 9], 16);
  }

  lemma WordAndMore(w: string, more: string, m: nat)
    requires |w| == 8 < m <= 9 + |more|
    ensures (w + (" " + more))[..m] == w + (" " + more[..m - 9])
  {
  }

  /** A blank in front of digits, or of nothing, makes no difference. */
  lemma AfterBlank(s: string, count: nat)
    requires count > 0 && (s != "" ==> DigitValue(s[0]) < 16)
    ensures Scans(" " + s, count) <==> Scans(s, count)
  {
    assert (" " + s)[1..] == s;
    if s == "" {
      NothingScans();
      assert " " + s == " ";
    } else {
      SpaceSkipped(s);
      SameScan(" " + s, s);
    }
  }

  lemma SameScan(s: string, t: string)
    requires SkipSpace(s) == SkipSpace(t)
    ensures ScanNumber(s, 16) == ScanNumber(t, 16)
  {
  }

  lemma OneWord(w: string)
    ensures Words([w]) == w
  {
  }

  lemma WordBefore(w: string, ws: seq<string>)
    requires ws != []
    ensures Words([w] + ws) == w + (" " + Words(ws))
  {
    assert ([w] + ws)[1..] == ws;
  }

  lemma FourWords(a: string, b: string, c: string, d: string)
    ensures Words([a, b, c, d]) == a + (" " + (b + (" " + (c + (" " + d)))))
  {
    hide Words;
    OneWord(d);
    WordBefore(c, [d]);
    WordBefore(b, [c, d]);
    WordBefore(a, [b, c, d]);
    assert [c] + [d] == [c, d] && [b] + [c, d] == [b, c, d] && [a] + [b, c, d] == [a, b, c, d];
  }

  function RegsWords(r: Regs): seq<string> { [Hex(r.eax, 8), Hex(r.ebx, 8), Hex(r.ecx, 8), Hex(r.edx, 8)] }

  lemma RegsAreWords(r: Regs)
    ensures RegsText(r) == Words(RegsWords(r)) && EightDigits(RegsWords(r))
  {
    HexReadsBack(r.eax, 8);
    HexReadsBack(r.ebx, 8);
    HexReadsBack(r.ecx, 8);
    HexReadsBack(r.edx, 8);
    FourWords(Hex(r.eax, 8), Hex(r.ebx, 8), Hex(r.ecx, 8), Hex(r.edx, 8));
    hide Hex, Digits, Words;
  }

  /** The numbers of a row can be read once its last one has begun. */
  lemma RegsCut(r: Regs, m: nat)
    requires m <= |RegsText(r)|
    ensures ScanRegs(RegsText(r)[..m]).0 <==> 28 <= m
  {
    RegsAreWords(r);
    RegsAreFour(RegsText(r)[..m]);
    assert |RegsWords(r)| == 4;
    hide RegsWords, RegsText, Words, EightDigits, ScanRegs, Scans;
    WordsCut(RegsWords(r), m, 4);
  }

  /** They can still be read when some, but not all, digits of the first one are missing. */
  lemma RegsDropped(r: Regs, m: nat)
    requires m < 8 && m <= |RegsText(r)|
    ensures ScanRegs(RegsText(r)[m..]).0
  {
    RegsAreWords(r);
    RegsAreFour(RegsText(r)[m..]);
    RegsArePlain(r);
    assert |RegsWords(r)| == 4;
    hide RegsWords, RegsText, ScanRegs, Words, EightDigits, Scans;
    WordsDropped(RegsWords(r), m);
  }

  lemma WordsDropped(ws: seq<string>, m: nat)
    requires EightDigits(ws) && |ws| == 4 && m < 8 <= |Words(ws)|
    ensures Scans(Words(ws)[m..], 4)
  {
    FirstDropped(ws, m);
    var rest := ws[1..];
    assert EightDigits(rest) && Words(rest)[..|Words(rest)|] == Words(rest);
    ThreeWords(rest);
    hide ScanNumber, Words, EightDigits;
    ScansOne(Words(ws)[m..], 4);
    WordsCut(rest, |Words(rest)|, 3);
    DigitFirst(rest, |Words(rest)|);
    hide Scans;
    AfterBlank(Words(rest), 3);
  }

  lemma ThreeWords(ws: seq<string>)
    requires EightDigits(ws) && |ws| == 3
    ensures |Words(ws)| == 26
  {
    assert ws[0] in ws && ws[1] in ws && ws[2] in ws;
    assert ws == [ws[0]] + [ws[1], ws[2]] && [ws[1]] + [ws[2]] == [ws[1], ws[2]];
    hide Words;
    OneWord(ws[2]);
    WordBefore(ws[1], [ws[2]]);
    WordBefore(ws[0], [ws[1], ws[2]]);
  }

  lemma FirstDropped(ws: seq<string>, m: nat)
    requires EightDigits(ws) && |ws| > 1 && m < 8 <= |Words(ws)|
    ensures ScanNumber(Words(ws)[m..], 16).Scanned? && ScanNumber(Words(ws)[m..], 16).rest == " " + Words(ws[1..])
  {
    assert ws[0] in ws;
    assert Words(ws)[m..] == ws[0][m..] + (" " + Words(ws[1..]));
    ScanPlain(ws[0][m..], " " + Words(ws[1..]), 16);
  }

  // ---------- parts of a row ----------

  lemma {:induction false} PrefixValue(n: nat, k: nat)
    requires k <= |Notation(n, 10)|
    ensures Digits(Notation(n, 10)[..k], 10) && Value(Notation(n, 10)[..k], 10) <= n
  {
    var s := Notation(n, 10);
    NotationReadsBack(n, 10);
    if k == |s| {
      assert s[..k] == s;
    } else if n < 10 {
      assert s[..k] == "";
    } else {
      assert s[..k] == Notation(n / 10, 10)[..k];
      PrefixValue(n / 10, k);
    }
  }

  lemma RowNamed(b: Bank, i: nat)
    requires i < Limit(b)
    ensures BankName(b) <= Token(b, i) && NamesRow(b, Token(b, i))
  {
    RowReadsBack(b, i, NO_REGS);
    assert BankName(b) <= Token(b, i);
    RowMeaningExactly(b, Token(b, i), RegsText(NO_REGS));
    hide RowMeaning, NamesRow;
  }

  /** A token cut off names a row as soon as it holds a digit of the index. */
  lemma TokenCut(b: Bank, i: nat, j: nat)
    requires i < Limit(b) && |BankName(b)| <= j <= |Token(b, i)|
    ensures BankName(b) <= Token(b, i)[..j]
    ensures NamesRow(b, Token(b, i)[..j]) <==> |BankName(b)| + 2 <= j
  {
    hide ScanNumber, BankName, Notation;
    var index := Notation(i, 10) + "]";
    assert Token(b, i) == BankName(b) + ("[" + index);
    hide Token;
    NameCut(BankName(b), index, j);
    if j > |BankName(b)| {
      IndexCut(b, i, j - |BankName(b)| - 1);
    }
  }

  lemma NameCut(name: string, index: string, j: nat)
    requires |name| <= j <= |name + ("[" + index)|
    ensures name <= (name + ("[" + index))[..j]
    ensures j == |name| ==> !(name + "[" <= (name + ("[" + index))[..j])
    ensures j > |name| ==>
              name + "[" <= (name + ("[" + index))[..j] && (name + ("[" + index))[..j][|name| + 1..] == index[..j - |name| - 1]
  {
  }

  lemma IndexCut(b: Bank, i: nat, m: nat)
    requires i < Limit(b) && m <= |Notation(i, 10)| + 1
    ensures var index := ScanNumber((Notation(i, 10) + "]")[..m], 10);
            (index.Scanned? && 0 <= index.value < Limit(b)) <==> m > 0
  {
    var digits := Notation(i, 10);
    var n := if m <= |digits| then m else |digits|;
    if m == 0 {
      assert ScanNumber("", 10) == NoMatch;
    } else {
      PrefixValue(i, n);
      assert (digits + "]")[..m] == digits[..n] + (if m <= |digits| then "" else "]");
      ScanPlain(digits[..n], if m <= |digits| then "" else "]", 10);
    }
  }

  lemma NamesPart(b: Bank, j: nat)
    requires j < |BankName(b)|
    ensures forall b' :: !(BankName(b') <= BankName(b)[..j])
  {
    forall b'
      ensures !(BankName(b') <= BankName(b)[..j])
    {
      if b' != b {
        assert BankName(b')[0] != BankName(b)[0];
      }
    }
  }

  /** A row cut off before its '='. */
  lemma TokenPart(b: Bank, i: nat, j: nat, behind: string)
    requires i < Limit(b) && j <= |Token(b, i)|
    ensures !LineMeaning(Token(b, i)[..j], behind).SyntaxError? <==>
            j < |BankName(b)| || (|BankName(b)| + 2 <= j && ScanRegs(behind).0)
  {
    hide LineMeaning, ScanRegs, Token, Unreadable, Plain;
    var part := Token(b, i)[..j];
    TokenIsPlain(b, i);
    PartIsPlain(Token(b, i), j);
    LineWithoutAssignment(part, behind);
    if j < |BankName(b)| {
      NamePart(b, i, j, behind);
    } else {
      TokenCut(b, i, j);
      BankUnreadable(b, part, behind);
    }
  }

  /** Less than the name of a bank asks for nothing. */
  lemma NamePart(b: Bank, i: nat, j: nat, behind: string)
    requires j < |BankName(b)|
    ensures j <= |Token(b, i)| && forall b' :: !Unreadable(b', Token(b, i)[..j], behind)
  {
    assert Token(b, i)[..j] == BankName(b)[..j];
    NamesPart(b, j);
  }

  /** With its name there, it depends on that bank alone. */
  lemma BankUnreadable(b: Bank, token: string, behind: string)
    requires BankName(b) <= token
    ensures (exists b' :: Unreadable(b', token, behind)) <==> !(NamesRow(b, token) && ScanRegs(behind).0)
  {
    OneBank(b, token);
    hide NamesRow, ScanRegs, BankName;
    if !(NamesRow(b, token) && ScanRegs(behind).0) {
      assert Unreadable(b, token, behind);
    }
  }

  lemma PartIsPlain(s: string, j: nat)
    requires Plain(s) && j <= |s|
    ensures Plain(s[..j])
  {
  }

  /** A row cut off behind its '='. */
  lemma ValuePart(b: Bank, i: nat, r: Regs, j: nat, behind: string)
    requires i < Limit(b) && |Token(b, i)| < j <= |RowLine(b, i, r)|
    ensures !LineMeaning(RowLine(b, i, r)[..j], behind).SyntaxError? <==> |Token(b, i)| + 29 <= j
  {
    hide LineMeaning, TokenMeaning, RowMeaning, Token, RegsText, NamesRow, ScanRegs, Before, BankName, Plain;
    var token, value, m := Token(b, i), RegsText(r), j - |Token(b, i)| - 1;
    TokenIsPlain(b, i);
    LongToken(b, i);
    RegsArePlain(r);
    RegsCut(r, m);
    AssignedPart(token, value, j, behind);
    RowNamed(b, i);
    BankDecides(b, token, value[..m]);
    RowMeaningExactly(b, token, value[..m]);
  }

  /** A line cut behind its '=' has its token and part of its value. */
  lemma AssignedPart(token: string, value: string, j: nat, behind: string)
    requires |token| < j <= |token + ("=" + value)| && Plain(token) && |token| >= 2 && Plain(value)
    ensures LineMeaning((token + ("=" + value))[..j], behind) == TokenMeaning(token, value[..j - |token| - 1])
  {
    PartWithAssignment(token, value, j);
    hide LineMeaning, TokenMeaning, Before;
    UnbrokenLine(token + ("=" + value[..j - |token| - 1]), behind);
  }

  // ---------- a row without its last digits ----------

  /** A number without its last hexadecimal digits. */
  function WithoutDigits(n: nat, count: nat): nat
    decreases count
  {
    if count == 0 then n else WithoutDigits(n / 16, count - 1)
  }

  lemma {:induction false} FirstDigits(n: nat, k: nat, missing: nat)
    requires missing <= k
    ensures Hex(n, k)[..k - missing] == Hex(WithoutDigits(n, missing), k - missing)
    ensures n < Power16(k) ==> WithoutDigits(n, missing) < Power16(k - missing)
  {
    if missing > 0 {
      TakeFirst(Hex(n / 16, k - 1), [Digit(n % 16)], k - missing);
      FirstDigits(n / 16, k - 1, missing - 1);
    } else {
      assert Hex(n, k)[..k] == Hex(n, k);
    }
  }

  lemma FirstDigitsReadBack(w: Word, missing: nat)
    requires missing < 8
    ensures ScanNumber(" " + Hex(w, 8)[..8 - missing], 16) == Scanned(WithoutDigits(w, missing), "")
    ensures WithoutDigits(w, missing) < 0x1_0000_0000
  {
    WordFits(w);
    FirstDigits(w, 8, missing);
    FewerDigits(w, missing);
    hide Hex, WithoutDigits, Digits, Value, ScanNumber, Power16;
    var e, left := WithoutDigits(w, missing), 8 - missing;
    HexReadsBack(e, left);
    OneNumber(Hex(e, left));
  }

  lemma OneNumber(digits: string)
    requires digits != "" && Digits(digits, 16)
    ensures ScanNumber(" " + digits, 16) == Scanned(Value(digits, 16), "")
  {
    assert digits + "" == digits;
    ScanAfterBlank(digits, "");
    hide ScanNumber, Digits, Value;
  }

  lemma {:induction false} FewerDigits(n: nat, count: nat)
    ensures WithoutDigits(n, count) <= n
    decreases count
  {
    if count > 0 {
      FewerDigits(n / 16, count - 1);
    }
  }

  /** A row that lacks digits of its last number is stored with what is left of that number. */
  lemma RowShortened(b: Bank, i: nat, r: Regs, missing: nat, behind: string)
    requires i < Limit(b) && missing < 8
    ensures missing < |RowLine(b, i, r)| && WithoutDigits(r.edx, missing) < 0x1_0000_0000
    ensures LineMeaning(RowLine(b, i, r)[..|RowLine(b, i, r)| - missing], behind) ==
            Store(b, i, r.(edx := WithoutDigits(r.edx, missing)))
  {
    hide LineMeaning, TokenMeaning, RowMeaning, Token, RegsText, ScanRegs, NamesRow, Plain, BankName, WithoutDigits;
    var token, value := Token(b, i), RegsText(r);
    TokenIsPlain(b, i);
    LongToken(b, i);
    RegsArePlain(r);
    RowLength(b, i, r);
    RegsShortened(r, missing);
    AssignedPart(token, value, |RowLine(b, i, r)| - missing, behind);
    RowNamed(b, i);
    BankDecides(b, token, value[..35 - missing]);
    RowMeaningExactly(b, token, value[..35 - missing]);
    RowReadsBack(b, i, r);
    RowMeaningExactly(b, token, value);
    RegsReadBack(r);
  }

  lemma RegsShortened(r: Regs, missing: nat)
    requires missing < 8
    ensures |RegsText(r)| == 35 && WithoutDigits(r.edx, missing) < 0x1_0000_0000
    ensures ScanRegs(RegsText(r)[..35 - missing]) == (true, r.(edx := WithoutDigits(r.edx, missing)))
  {
    FirstDigitsReadBack(r.edx, missing);
    FourTaken(Hex(r.eax, 8), Hex(r.ebx, 8), Hex(r.ecx, 8), Hex(r.edx, 8), missing);
    hide ScanNumber, ScanRegs, Hex, WithoutDigits;
    FourScanned(r.eax, r.ebx, r.ecx, " " + Hex(r.edx, 8)[..8 - missing], WithoutDigits(r.edx, missing));
  }

  lemma FourScanned(a: Word, b: Word, c: Word, last: string, d: Word)
    requires last != "" && last[0] == ' ' && ScanNumber(last, 16) == Scanned(d, "")
    ensures ScanRegs(Hex(a, 8) + (" " + (Hex(b, 8) + (" " + (Hex(c, 8) + last))))) == (true, Regs(a, b, c, d))
  {
    hide ScanNumber, ScanRegs, Hex;
    var third := " " + (Hex(c, 8) + last);
    var second := " " + (Hex(b, 8) + third);
    FirstWordReadsBack(a, second);
    WordReadsBack(b, third);
    WordReadsBack(c, last);
    FourInTurn(Hex(a, 8) + second, second, third, last, a, b, c, d);
  }

  lemma FourInTurn(first: string, second: string, third: string, last: string, a: Word, b: Word, c: Word, d: Word)
    requires ScanNumber(first, 16) == Scanned(a, second) && ScanNumber(second, 16) == Scanned(b, third)
    requires ScanNumber(third, 16) == Scanned(c, last) && ScanNumber(last, 16) == Scanned(d, "")
    ensures ScanRegs(first) == (true, Regs(a, b, c, d))
  {
    hide ScanNumber;
  }

  lemma FourTaken(a: string, b: string, c: string, d: string, missing: nat)
    requires |a| == |b| == |c| == |d| == 8 && missing < 8
    ensures |a + (" " + (b + (" " + (c + (" " + d)))))| == 35
    ensures (a + (" " + (b + (" " + (c + (" " + d))))))[..35 - missing] ==
            a + (" " + (b + (" " + (c + (" " + d[..8 - missing])))))
  {
    TakeBehind(c, d, 8 - missing);
    TakeBehind(b, c + (" " + d), 17 - missing);
    TakeBehind(a, b + (" " + (c + (" " + d))), 26 - missing);
  }

  lemma TakeBehind(first: string, more: string, n: nat)
    requires n <= |more|
    ensures (first + (" " + more))[..|first| + 1 + n] == first + (" " + more[..n])
  {
  }

  // ---------- what stands behind a row that was cut off ----------

  lemma NoNumber(c: char, s: string)
    requires c == ']' || c == '='
    ensures ScanNumber([c] + s, 16) == NoMatch
  {
    assert SkipSpace([c] + s) == [c] + s;
  }

  /** The rest of an index, with the value behind it, is no row of numbers. */
  lemma IndexRest(i: nat, m: nat, value: string)
    requires m <= |Notation(i, 10)| + 1
    ensures !ScanRegs((Notation(i, 10) + "]")[m..] + ("=" + value)).0
  {
    NotationReadsBack(i, 10);
    IndexTail(Notation(i, 10), m, "=" + value);
    hide ScanRegs, Notation;
    if m < |Notation(i, 10)| {
      PartOfDigits(Notation(i, 10), m);
      DigitsRest(Notation(i, 10)[m..], "=" + value);
    } else if m == |Notation(i, 10)| {
      StopsAtOnce(']', "=" + value);
    } else {
      StopsAtOnce('=', value);
    }
  }

  lemma PartOfDigits(digits: string, m: nat)
    requires m < |digits| && Digits(digits, 10)
    ensures digits[m..] != "" && Digits(digits[m..], 10)
  {
  }

  lemma IndexTail(digits: string, m: nat, tail: string)
    requires m <= |digits| + 1
    ensures m < |digits| ==> (digits + "]")[m..] + tail == digits[m..] + ("]" + tail)
    ensures m == |digits| ==> (digits + "]")[m..] + tail == "]" + tail
    ensures m > |digits| ==> (digits + "]")[m..] + tail == tail
  {
  }

  lemma StopsAtOnce(c: char, s: string)
    requires c == ']' || c == '='
    ensures !ScanRegs([c] + s).0
  {
    NoNumber(c, s);
    hide ScanNumber;
  }

  lemma DigitsRest(digits: string, s: string)
    requires digits != "" && Digits(digits, 10)
    ensures !ScanRegs(digits + ("]" + s)).0
  {
    assert Digits(digits, 16);
    ScanPlain(digits, "]" + s, 16);
    NoNumber(']', s);
    hide ScanNumber, Value;
  }

  /** From behind its name a row is read as four numbers if that begins within its first number. */
  lemma RowRest(b: Bank, i: nat, r: Regs, j: nat)
    requires i < Limit(b) && |BankName(b)| <= j <= |Token(b, i)| + 7 && j < |RowLine(b, i, r)|
    ensures ScanRegs(RowLine(b, i, r)[j + 1..]).0 <==> |Token(b, i)| <= j
  {
    RegsArePlain(r);
    hide ScanRegs, RegsText;
    if |Token(b, i)| <= j {
      ValueRest(Token(b, i), RegsText(r), j - |Token(b, i)|);
      RegsDropped(r, j - |Token(b, i)|);
    } else {
      TokenRest(BankName(b), Notation(i, 10) + "]", RegsText(r), j - |BankName(b)|);
      IndexRest(i, j - |BankName(b)|, RegsText(r));
    }
  }

  lemma ValueRest(token: string, value: string, m: nat)
    requires m <= |value|
    ensures (token + ("=" + value))[|token| + m + 1..] == value[m..]
  {
  }

  lemma TokenRest(name: string, index: string, value: string, m: nat)
    requires m <= |index|
    ensures ((name + ("[" + index)) + ("=" + value))[|name| + m + 1..] == index[m..] + ("=" + value)
  {
  }

  // ---------- the whole dump ----------

  /** The bank of a line behind the two headers. */
  function BankAt(k: nat): (b: Bank)
    ensures 2 <= k < 70 ==> FirstLine(b) <= k < FirstLine(b) + Limit(b)
  {
    if k < 34 then Basic else if k < 66 then Ext else IntelFn4
  }

  /** The row of such a line within its bank. */
  function RowAt(k: nat): (i: nat)
    requires 2 <= k < 70
    ensures i < Limit(BankAt(k))
  {
    k - FirstLine(BankAt(k))
  }

  /** Part of a row is read without error: less than its bank's name, a token with an old value behind it, or nearly all. */
  predicate RowPartReads(b: Bank, i: nat, j: nat, oldValue: bool) {
    j < |BankName(b)| || (|BankName(b)| + 2 <= j <= |Token(b, i)| && oldValue) || |Token(b, i)| + 29 <= j
  }

  lemma RowPart(b: Bank, i: nat, r: Regs, j: nat, behind: string)
    requires i < Limit(b) && j <= |RowLine(b, i, r)|
    ensures !LineMeaning(RowLine(b, i, r)[..j], behind).SyntaxError? <==> RowPartReads(b, i, j, ScanRegs(behind).0)
  {
    hide LineMeaning, ScanRegs, RegsText, Token, BankName;
    NameInToken(b, i);
    if j <= |Token(b, i)| {
      TakeFirst(Token(b, i), "=" + RegsText(r), j);
      TokenPart(b, i, j, behind);
    } else {
      ValuePart(b, i, r, j, behind);
    }
  }

  lemma TakeFirst(a: string, b: string, j: nat)
    requires j <= |a|
    ensures (a + b)[..j] == a[..j]
  {
  }

  lemma NameInToken(b: Bank, i: nat)
    ensures |BankName(b)| + 2 < |Token(b, i)|
  {
  }

  /** The lines of a dump by number. */
  lemma LineAt(raw: Raw, version: string, buildDate: string, k: nat)
    requires Sized(raw) && k < 70
    ensures |DumpLines(raw, version, buildDate)| == 70
    ensures k == 0 ==> DumpLines(raw, version, buildDate)[k] == "version" + ("=" + version)
    ensures k == 1 ==> DumpLines(raw, version, buildDate)[k] == "build_date" + ("=" + buildDate)
    ensures k >= 2 ==> DumpLines(raw, version, buildDate)[k] == RowLine(BankAt(k), RowAt(k), Rows(raw, BankAt(k))[RowAt(k)])
  {
    if k >= 2 {
      DumpLineOfRow(raw, version, buildDate, BankAt(k), RowAt(k));
    }
    hide RowLine;
  }

  /** After some lines have been read, the buffer holds behind a shorter line the rest of the last of them. */
  lemma {:induction false} LastLineInBuffer(buffer: string, lines: seq<string>, line: string)
    requires |buffer| == BUFFER_SIZE && lines != [] && forall l :: l in lines ==> Short(l)
    requires |line| + 1 <= |lines[|lines| - 1]| && |line| < BUFFER_SIZE
    ensures Behind(BufferAfter(buffer, lines), line) == lines[|lines| - 1][|line| + 1..]
    decreases lines
  {
    hide Behind, AfterGets, AfterCut;
    assert Short(lines[0]) by { assert lines[0] in lines; }
    if |lines| == 1 {
      OldTextBehind(buffer, lines[0], line);
    } else {
      LastLineInBuffer(AfterCut(AfterGets(buffer, lines[0] + "\n")), lines[1..], line);
    }
  }

  /** What the dump holds before a line leaves it readable. */
  predicate OldValueReads(raw: Raw, version: string, buildDate: string, k: nat, j: nat, buffer: string)
    requires Sized(raw) && Short("version=" + version) && Short("build_date=" + buildDate)
    requires 2 <= k < 70 && |buffer| == BUFFER_SIZE
  {
    if k > 2 then |Token(BankAt(k - 1), RowAt(k - 1))| <= j
    else j + 1 < BUFFER_SIZE && ScanRegs(TextAt(HeadersRead(version, buildDate, buffer), j + 1)).0
  }

  /** The buffer after the two headers. */
  function HeadersRead(version: string, buildDate: string, buffer: string): (buffer': string)
    requires Short("version=" + version) && Short("build_date=" + buildDate) && |buffer| == BUFFER_SIZE
    ensures |buffer'| == BUFFER_SIZE
  {
    BufferAfter(buffer, ["version=" + version, "build_date=" + buildDate])
  }

  /**
   * For every dump and every place at which it is cut off, in whatever state the line buffer is: the rest that is
   * left is read without error exactly when it ends within or right behind a header; or right behind a row; or
   * within a row, but before the end of its bank's name, or in front of its '=' with at least one digit of its
   * index and the buffer still holding a readable value behind it, or from the first digit of its last number on.
   * From the second row on the buffer holds such a value when the token of the row before is no longer than
   * what is left of the row.
   */
  lemma CutDumpExactly(raw: Raw, version: string, buildDate: string, n: nat, buffer: string)
    requires Sized(raw) && Short("version=" + version) && Short("build_date=" + buildDate) && |buffer| == BUFFER_SIZE
    requires n <= |FileOf(DumpLines(raw, version, buildDate))|
    ensures var lines := DumpLines(raw, version, buildDate);
            var k, j := WholeLines(lines, n), PartOfLine(lines, n);
            Load(NO_DATA, FileOf(lines)[..n], buffer).1 <==>
            k < 2 || k >= 70 || RowPartReads(BankAt(k), RowAt(k), j, OldValueReads(raw, version, buildDate, k, j, buffer))
  {
    var lines := DumpLines(raw, version, buildDate);
    var k, j := WholeLines(lines, n), PartOfLine(lines, n);
    LineAt(raw, version, buildDate, 0);
    CutParts(lines, n);
    DumpIsShort(raw, version, buildDate);
    hide DumpLines, Load, FileOf, RowPartReads, OldValueReads, Short, LineMeaning, LoadLines, Behind, WholeLines, PartOfLine;
    var before := lines[..k];
    var loaded := LoadLines(NO_DATA, before).0;
    if k == 70 {
      LoadContinues(NO_DATA, before, "", buffer);
      NothingMore(loaded, BufferAfter(buffer, before));
    } else {
      var part, read := lines[k][..j], BufferAfter(buffer, before);
      PartIsShort(lines[k], j);
      LoadContinues(NO_DATA, before, part, buffer);
      LastPart(loaded, part, read);
      DumpPart(raw, version, buildDate, k, j, buffer);
    }
  }

  /** Every line of a dump is short, and its first lines are read without error. */
  lemma DumpIsShort(raw: Raw, version: string, buildDate: string)
    requires Sized(raw) && Short("version=" + version) && Short("build_date=" + buildDate)
    ensures forall l :: l in DumpLines(raw, version, buildDate) ==> Short(l)
    ensures forall k: nat :: k <= |DumpLines(raw, version, buildDate)| ==>
              LoadLines(NO_DATA, DumpLines(raw, version, buildDate)[..k]).1
  {
    var lines := DumpLines(raw, version, buildDate);
    DumpIsArrangement(raw, version, buildDate);
    hide DumpLines, DumpLine, Short, LoadLines, Present;
    forall k: nat | k <= |lines|
      ensures LoadLines(NO_DATA, lines[..k]).1
    {
      assert forall l :: l in lines[..k] ==> l in lines;
      LoadKeeps(raw, NO_DATA, lines[..k]);
    }
  }

  lemma TokenLength(b: Bank, i: nat)
    requires i < 100
    ensures |BankName(b)| + 3 <= |Token(b, i)| <= |BankName(b)| + 4 && 9 <= |BankName(b)| <= 11
  {
    IndexIsShort(i);
    hide Notation;
  }

  /** Behind a token stands what the row before left there, or what the headers did. */
  lemma OldValue(raw: Raw, version: string, buildDate: string, k: nat, j: nat, buffer: string)
    requires Sized(raw) && Short("version=" + version) && Short("build_date=" + buildDate) && |buffer| == BUFFER_SIZE
    requires 2 <= k < 70 && |DumpLines(raw, version, buildDate)| == 70 && j <= |DumpLines(raw, version, buildDate)[k]|
    requires forall l :: l in DumpLines(raw, version, buildDate) ==> Short(l)
    requires |BankName(BankAt(k))| + 2 <= j <= |Token(BankAt(k), RowAt(k))|
    ensures |DumpLines(raw, version, buildDate)[k][..j]| < BUFFER_SIZE
    ensures ScanRegs(Behind(BufferAfter(buffer, DumpLines(raw, version, buildDate)[..k]),
                            DumpLines(raw, version, buildDate)[k][..j])).0 <==>
            OldValueReads(raw, version, buildDate, k, j, buffer)
  {
    hide DumpLines, ScanRegs, Behind, BufferAfter, Short, HeadersRead, Token, BankName, RowLine, TextAt, Rows;
    var lines := DumpLines(raw, version, buildDate);
    TokenLength(BankAt(k), RowAt(k));
    if k > 2 {
      LineAt(raw, version, buildDate, k - 1);
      TokenLength(BankAt(k - 1), RowAt(k - 1));
      LastTaken(lines, k);
      OldRow(lines[..k], BankAt(k - 1), RowAt(k - 1), Rows(raw, BankAt(k - 1))[RowAt(k - 1)], lines[k][..j], buffer);
    } else {
      HeadersFirst(raw, version, buildDate, buffer);
      BehindLine(HeadersRead(version, buildDate, buffer), lines[k][..j]);
    }
  }

  /** Behind a line shorter than a row that was just read stands the rest of that row. */
  lemma OldRow(lines: seq<string>, b: Bank, i: nat, r: Regs, line: string, buffer: string)
    requires lines != [] && |buffer| == BUFFER_SIZE && forall l :: l in lines ==> Short(l)
    requires i < Limit(b) && lines[|lines| - 1] == RowLine(b, i, r)
    requires |BankName(b)| <= |line| <= |Token(b, i)| + 7 && |line| < BUFFER_SIZE
    ensures ScanRegs(Behind(BufferAfter(buffer, lines), line)).0 <==> |Token(b, i)| <= |line|
  {
    RowLength(b, i, r);
    hide ScanRegs, Behind, BufferAfter, Short, Token, BankName, RowLine;
    LastLineInBuffer(buffer, lines, line);
    RowRest(b, i, r, |line|);
  }

  lemma RowLength(b: Bank, i: nat, r: Regs)
    ensures |RowLine(b, i, r)| == |Token(b, i)| + 36
  {
  }

  lemma LastTaken(lines: seq<string>, k: nat)
    requires 0 < k <= |lines|
    ensures lines[..k] != [] && lines[..k][|lines[..k]| - 1] == lines[k - 1]
    ensures forall l :: l in lines[..k] ==> l in lines
  {
  }

  lemma HeadersFirst(raw: Raw, version: string, buildDate: string, buffer: string)
    requires Short("version=" + version) && Short("build_date=" + buildDate) && |buffer| == BUFFER_SIZE
    requires |DumpLines(raw, version, buildDate)| == 70 && forall l :: l in DumpLines(raw, version, buildDate) ==> Short(l)
    ensures BufferAfter(buffer, DumpLines(raw, version, buildDate)[..2]) == HeadersRead(version, buildDate, buffer)
  {
    HeadersOnTop(raw, version, buildDate);
    hide DumpLines, BufferAfter, Short;
  }

  lemma HeadersOnTop(raw: Raw, version: string, buildDate: string)
    ensures |DumpLines(raw, version, buildDate)| >= 2
    ensures DumpLines(raw, version, buildDate)[..2] == ["version=" + version, "build_date=" + buildDate]
  {
  }

  lemma BehindLine(buffer: string, line: string)
    requires |line| < |buffer|
    ensures Behind(buffer, line) == TextAt(buffer, |line| + 1)
  {
    TruncatedDumps.Stored(buffer, line);
  }

  /** The line that was cut. */
  lemma DumpPart(raw: Raw, version: string, buildDate: string, k: nat, j: nat, buffer: string)
    requires Sized(raw) && Short("version=" + version) && Short("build_date=" + buildDate) && |buffer| == BUFFER_SIZE
    requires k < 70 && |DumpLines(raw, version, buildDate)| == 70 && j <= |DumpLines(raw, version, buildDate)[k]|
    requires forall l :: l in DumpLines(raw, version, buildDate) ==> Short(l)
    ensures Short(DumpLines(raw, version, buildDate)[k])
    ensures var lines := DumpLines(raw, version, buildDate);
            !LineMeaning(lines[k][..j], Behind(BufferAfter(buffer, lines[..k]), lines[k][..j])).SyntaxError? <==>
            k < 2 || RowPartReads(BankAt(k), RowAt(k), j, OldValueReads(raw, version, buildDate, k, j, buffer))
  {
    var lines := DumpLines(raw, version, buildDate);
    LineAt(raw, version, buildDate, k);
    assert lines[k] in lines;
    hide DumpLines, RowPartReads, OldValueReads, LineMeaning, Behind, RowLine;
    var behind := Behind(BufferAfter(buffer, lines[..k]), lines[k][..j]);
    if k == 0 {
      HeaderPart("version", version, j, behind);
    } else if k == 1 {
      HeaderPart("build_date", buildDate, j, behind);
    } else {
      RowPart(BankAt(k), RowAt(k), Rows(raw, BankAt(k))[RowAt(k)], j, behind);
      if |BankName(BankAt(k))| + 2 <= j <= |Token(BankAt(k), RowAt(k))| {
        OldValue(raw, version, buildDate, k, j, buffer);
      }
      OldMattersWithin(BankAt(k), RowAt(k), j, ScanRegs(behind).0, OldValueReads(raw, version, buildDate, k, j, buffer));
    }
  }

  lemma OldMattersWithin(b: Bank, i: nat, j: nat, old1: bool, old2: bool)
    requires |BankName(b)| + 2 <= j <= |Token(b, i)| ==> old1 == old2
    ensures RowPartReads(b, i, j, old1) == RowPartReads(b, i, j, old2)
  {
  }

  // ---------- a row that was never written ----------

  /**
   * One such file: the dump cut off before the '=' of a row whose token is as long as the one before. It is
   * accepted, and holds that row with the numbers of the row before.
   */
  lemma TruncatedDumpAccepted(raw: Raw, version: string, buildDate: string, b: Bank, i: nat, buffer: string)
    requires Sized(raw) && Short("version=" + version) && Short("build_date=" + buildDate) && |buffer| == BUFFER_SIZE
    requires i + 1 < Limit(b) && |Token(b, i)| == |Token(b, i + 1)|
    ensures |DumpLines(raw, version, buildDate)| == 70
    ensures var cut := FileOf(DumpLines(raw, version, buildDate)[..FirstLine(b) + i + 1]) + Token(b, i + 1);
            Load(NO_DATA, cut, buffer).1 && Rows(Load(NO_DATA, cut, buffer).0, b)[i + 1] == Rows(raw, b)[i]
  {
    var lines := DumpLines(raw, version, buildDate);
    LineAt(raw, version, buildDate, 0);
    DumpLineOfRow(raw, version, buildDate, b, i);
    DumpIsShort(raw, version, buildDate);
    hide DumpLines, Load, LoadLines, FileOf, BufferAfter, Token, RowLine, Short, Rows;
    LastTaken(lines, FirstLine(b) + i + 1);
    TokenAccepted(lines[..FirstLine(b) + i + 1], b, i, Rows(raw, b)[i], buffer);
  }

  /** Lines that are read without error, the last of them a row, and then only a token. */
  lemma TokenAccepted(lines: seq<string>, b: Bank, i: nat, r: Regs, buffer: string)
    requires lines != [] && |buffer| == BUFFER_SIZE && forall l :: l in lines ==> Short(l)
    requires i + 1 < Limit(b) && |Token(b, i)| == |Token(b, i + 1)|
    requires lines[|lines| - 1] == RowLine(b, i, r) && LoadLines(NO_DATA, lines).1
    ensures Load(NO_DATA, FileOf(lines) + Token(b, i + 1), buffer).1
    ensures Rows(Load(NO_DATA, FileOf(lines) + Token(b, i + 1), buffer).0, b)[i + 1] == r
  {
    var token, loaded := Token(b, i + 1), LoadLines(NO_DATA, lines).0;
    TokenIsShort(b, i + 1);
    TokenBehindRow(lines, b, i, r, buffer);
    hide Load, LoadLines, FileOf, LineMeaning, Behind, BufferAfter, Token, RowLine, Short;
    LoadContinues(NO_DATA, lines, token, buffer);
    LastPart(loaded, token, BufferAfter(buffer, lines));
    RowsOfPut(loaded, b, i + 1, r, b, i + 1);
  }

  lemma TokenBehindRow(lines: seq<string>, b: Bank, i: nat, r: Regs, buffer: string)
    requires lines != [] && |buffer| == BUFFER_SIZE && forall l :: l in lines ==> Short(l)
    requires i + 1 < Limit(b) && |Token(b, i)| == |Token(b, i + 1)| && lines[|lines| - 1] == RowLine(b, i, r)
    ensures |Token(b, i + 1)| < BUFFER_SIZE
    ensures LineMeaning(Token(b, i + 1), Behind(BufferAfter(buffer, lines), Token(b, i + 1))) == Store(b, i + 1, r)
  {
    hide LineMeaning, TokenMeaning, Behind, BufferAfter, Token, RegsText, Short, Plain, BankName;
    var token := Token(b, i + 1);
    TokenIsPlain(b, i + 1);
    RegsArePlain(r);
    LongToken(b, i + 1);
    BehindToken(Token(b, i), RegsText(r));
    TokenReadsBack(b, i + 1, r);
    WholeLineIsToken(token, RegsText(r));
    LastLineInBuffer(buffer, lines, token);
  }

  lemma TokenIsShort(b: Bank, i: nat)
    requires i < Limit(b)
    ensures Short(Token(b, i))
  {
    TokenIsPlain(b, i);
    hide Token;
  }
}
