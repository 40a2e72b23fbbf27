/** The text of a dump, character by character, and what lines with other indexes and numbers are read as. */
module DumpFormat {
  import opened Sequences
  import opened Numbers
  import opened Splitting
  import opened RawDump
  import opened RawDumpProofs
  import opened TruncatedDumps
  import opened CutDumps

  // ---------- numbers ----------

  lemma DigitIs(d: nat)
    requires d < 16
    ensures Digit(d) == "0123456789abcdef"[d]
  {
    if d < 10 {
      assert "0123456789abcdef"[d] == ['0', '1', '2', '3', '4', '5', '6', '7', '8', '9'][d];
    } else {
      assert "0123456789abcdef"[d] == ['a', 'b', 'c', 'd', 'e', 'f'][d - 10];
    }
  }

  /** Digits are read in either case, and no other character is one. */
  lemma DigitMeans(c: char)
    ensures DigitValue(c) < 16 ==> c == "0123456789abcdef"[DigitValue(c)] || c == "0123456789ABCDEF"[DigitValue(c)]
    ensures forall d: nat :: d < 16 && (c == "0123456789abcdef"[d] || c == "0123456789ABCDEF"[d]) ==> DigitValue(c) == d
  {
    SmallLetters();
    CapitalLetters();
    assert '0' <= c <= '9' || 'a' <= c <= 'f' ==> Digit(DigitValue(c)) == c;
  }

  lemma SmallLetters()
    ensures forall d: nat :: d < 16 ==> "0123456789abcdef"[d] == Digit(d)
  {
    forall d: nat | d < 16
      ensures "0123456789abcdef"[d] == Digit(d)
    {
      DigitIs(d);
    }
  }

  lemma CapitalLetters()
    ensures forall d: nat :: d < 16 ==> "0123456789ABCDEF"[d] == if d < 10 then Digit(d) else 'A' + (d - 10) as char
  {
    forall d: nat | d < 16
      ensures "0123456789ABCDEF"[d] == if d < 10 then Digit(d) else 'A' + (d - 10) as char
    {
      CapitalIs(d);
    }
  }

  lemma CapitalIs(d: nat)
    requires d < 16
    ensures "0123456789ABCDEF"[d] == if d < 10 then Digit(d) else 'A' + (d - 10) as char
  {
    if d < 10 {
      assert "0123456789ABCDEF"[d] == ['0', '1', '2', '3', '4', '5', '6', '7', '8', '9'][d];
    } else {
      assert "0123456789ABCDEF"[d] == ['A', 'B', 'C', 'D', 'E', 'F'][d - 10];
    }
  }

  /** A word has the digit of each power of 16 in its place. */
  lemma {:induction false} HexDigit(n: nat, k: nat, j: nat)
    requires j < k
    ensures Hex(n, k)[j] == "0123456789abcdef"[WithoutDigits(n, k - 1 - j) % 16]
    decreases k
  {
    DigitIs(n % 16);
    if j < k - 1 {
      HexDigit(n / 16, k - 1, j);
    }
    hide Digit;
  }

  /** An index has one digit or two. */
  lemma IndexText(i: nat)
    requires i < 100
    ensures i < 10 ==> Notation(i, 10) == ["0123456789"[i]]
    ensures i >= 10 ==> Notation(i, 10) == ["0123456789"[i / 10], "0123456789"[i % 10]]
  {
    DecimalDigit(i % 10);
    hide Digit;
    if i >= 10 {
      DecimalDigit(i / 10);
      assert Notation(i, 10) == Notation(i / 10, 10) + [Digit(i % 10)];
    }
  }

  lemma DecimalDigit(d: nat)
    requires d < 10
    ensures Digit(d) == "0123456789"[d]
  {
    assert "0123456789"[d] == ['0', '1', '2', '3', '4', '5', '6', '7', '8', '9'][d];
  }

  // ---------- lines ----------

  /** The four words of a row, of eight digits each: the registers from eax to edx. */
  lemma WordsText(r: Regs)
    ensures RegsText(r) == Hex(r.eax, 8) + " " + Hex(r.ebx, 8) + " " + Hex(r.ecx, 8) + " " + Hex(r.edx, 8)
  {
    hide Hex;
  }

  lemma RowText(b: Bank, i: nat, r: Regs)
    ensures RowLine(b, i, r) == BankName(b) + "[" + Notation(i, 10) + "]=" + RegsText(r)
  {
    hide RegsText, Notation, BankName;
    var value := RegsText(r);
    Concat4(BankName(b), "[", Notation(i, 10), "]");
    assert "]" + ("=" + value) == "]=" + value;
  }

  /** Every line of a dump as it is printed. */
  lemma DumpText(raw: Raw, version: string, buildDate: string)
    requires Sized(raw)
    ensures |DumpLines(raw, version, buildDate)| == 70
    ensures DumpLines(raw, version, buildDate)[0] == "version=" + version
    ensures DumpLines(raw, version, buildDate)[1] == "build_date=" + buildDate
    ensures forall i: nat :: i < 32 ==>
              DumpLines(raw, version, buildDate)[2 + i] == "basic_cpuid[" + Notation(i, 10) + "]=" + RegsText(raw.basic[i])
    ensures forall i: nat :: i < 32 ==>
              DumpLines(raw, version, buildDate)[34 + i] == "ext_cpuid[" + Notation(i, 10) + "]=" + RegsText(raw.ext[i])
    ensures forall i: nat :: i < 4 ==>
              DumpLines(raw, version, buildDate)[66 + i] == "intel_fn4[" + Notation(i, 10) + "]=" + RegsText(raw.fn4[i])
  {
    hide RegsText, Notation, RowLine;
    forall i: nat | i < 32
      ensures DumpLines(raw, version, buildDate)[2 + i] == "basic_cpuid[" + Notation(i, 10) + "]=" + RegsText(raw.basic[i])
    {
      BasicText(i, raw.basic[i]);
    }
    forall i: nat | i < 32
      ensures DumpLines(raw, version, buildDate)[34 + i] == "ext_cpuid[" + Notation(i, 10) + "]=" + RegsText(raw.ext[i])
    {
      ExtText(i, raw.ext[i]);
    }
    forall i: nat | i < 4
      ensures DumpLines(raw, version, buildDate)[66 + i] == "intel_fn4[" + Notation(i, 10) + "]=" + RegsText(raw.fn4[i])
    {
      IntelFn4Text(i, raw.fn4[i]);
    }
  }

  lemma BasicText(i: nat, r: Regs)
    ensures RowLine(Basic, i, r) == "basic_cpuid[" + Notation(i, 10) + "]=" + RegsText(r)
  {
    RowText(Basic, i, r);
    assert BankName(Basic) + "[" == "basic_cpuid[";
  }

  lemma ExtText(i: nat, r: Regs)
    ensures RowLine(Ext, i, r) == "ext_cpuid[" + Notation(i, 10) + "]=" + RegsText(r)
  {
    RowText(Ext, i, r);
    assert BankName(Ext) + "[" == "ext_cpuid[";
  }

  lemma IntelFn4Text(i: nat, r: Regs)
    ensures RowLine(IntelFn4, i, r) == "intel_fn4[" + Notation(i, 10) + "]=" + RegsText(r)
  {
    RowText(IntelFn4, i, r);
    assert BankName(IntelFn4) + "[" == "intel_fn4[";
  }

  // ---------- reading ----------

  /** Of a line that is too long 99 characters are read at a time. */
  lemma LongLine(text: string)
    requires |text| >= 99 && '\n' !in text[..99]
    ensures LineLength(text) == 99
    ensures forall buffer :: |buffer| == BUFFER_SIZE ==> AfterGets(buffer, text[..99]) == text[..99] + "\0"
  {
    BeforeAtLeast(text, '\n', 99);
    hide Before;
  }

  /** A shorter one is read with its line break. */
  lemma ShortLine(line: string, more: string)
    requires |line| < 99 && '\n' !in line
    ensures LineLength(line + ("\n" + more)) == |line| + 1
    ensures LineLength(line) == |line|
  {
    BeforeIs(line + ("\n" + more), '\n', |line|);
    assert line[..|line|] == line;
    BeforeIs(line, '\n', |line|);
    hide Before;
  }

  /** Read alone, such a line is stored in its own array and changes nothing else. */
  lemma LinesAreStored(raw: Raw, i: nat, r: Regs, buffer: string)
    requires Sized(raw) && |buffer| == BUFFER_SIZE
    ensures i < 32 ==>
              Load(raw, "basic_cpuid[" + Notation(i, 10) + "]=" + RegsText(r) + "\n", buffer) ==
              (raw.(basic := raw.basic[i := r]), true)
    ensures i < 32 ==>
              Load(raw, "ext_cpuid[" + Notation(i, 10) + "]=" + RegsText(r) + "\n", buffer) ==
              (raw.(ext := raw.ext[i := r]), true)
    ensures i < 4 ==>
              Load(raw, "intel_fn4[" + Notation(i, 10) + "]=" + RegsText(r) + "\n", buffer) ==
              (raw.(fn4 := raw.fn4[i := r]), true)
  {
    hide Load, RegsText, Notation, RowLine;
    BasicText(i, r);
    ExtText(i, r);
    IntelFn4Text(i, r);
    if i < 32 {
      OwnRow(raw, Basic, i, r, buffer);
      OwnRow(raw, Ext, i, r, buffer);
    }
    if i < 4 {
      OwnRow(raw, IntelFn4, i, r, buffer);
    }
  }

  lemma OwnRow(raw: Raw, b: Bank, i: nat, r: Regs, buffer: string)
    requires Sized(raw) && i < Limit(b) && |buffer| == BUFFER_SIZE
    ensures Load(raw, RowLine(b, i, r) + "\n", buffer) == (Put(raw, b, i, r), true)
  {
    LineReadsBack(b, i, r, "");
    hide Load, RowLine, LineMeaning, Short, Put;
    OneLine(raw, RowLine(b, i, r), buffer);
  }

  lemma OneLine(raw: Raw, line: string, buffer: string)
    requires Sized(raw) && Short(line) && |buffer| == BUFFER_SIZE
    ensures LineMeaning(line + "\n", "").Store? ==>
              Load(raw, line + "\n", buffer) == (ApplyMeaning(raw, LineMeaning(line + "\n", "")), true)
  {
    hide Load, LineMeaning, ApplyMeaning, Short;
    LoadIsByLines(raw, [line], buffer);
    assert [line][1..] == [] && line + ("\n" + "") == line + "\n";
    assert FileOf([line]) == line + ("\n" + FileOf([]));
  }

  /** No line asks for this row. */
  predicate NeverNamed(lines: seq<string>, b: Bank, i: nat) {
    forall l :: l in lines ==>
      !(LineMeaning(l + "\n", "").Store? && LineMeaning(l + "\n", "").bank == b && LineMeaning(l + "\n", "").index == i)
  }

  /** A row that no line names stays as it is. */
  lemma {:induction false} RowUntouched(raw: Raw, lines: seq<string>, b: Bank, i: nat)
    requires Sized(raw) && i < Limit(b) && NeverNamed(lines, b, i)
    ensures Rows(LoadLines(raw, lines).0, b)[i] == Rows(raw, b)[i]
    decreases lines
  {
    hide LineMeaning;
    if lines != [] {
      var m := LineMeaning(lines[0] + "\n", "");
      assert lines[0] in lines;
      if m.Store? {
        RowsOfPut(raw, m.bank, m.index, m.regs, b, i);
      }
      if !m.SyntaxError? {
        RowUntouched(ApplyMeaning(raw, m), lines[1..], b, i);
      }
    }
  }

  /** In what a file is read into, a row that none of its lines names holds zeros. */
  lemma UnnamedRowsAreZero(lines: seq<string>, b: Bank, i: nat, buffer: string)
    requires i < Limit(b) && NeverNamed(lines, b, i) && |buffer| == BUFFER_SIZE && forall l :: l in lines ==> Short(l)
    ensures Rows(Load(NO_DATA, FileOf(lines), buffer).0, b)[i] == Regs(0, 0, 0, 0)
  {
    LoadIsByLines(NO_DATA, lines, buffer);
    RowUntouched(NO_DATA, lines, b, i);
    hide Load, LoadLines, NeverNamed, FileOf, Short;
  }

  /** An index beyond the array, or below it, is an error whatever the value is. */
  lemma IndexOutOfRange(i: nat, value: string)
    ensures i >= 32 ==> TokenMeaning("basic_cpuid[" + Notation(i, 10) + "]", value) == SyntaxError
    ensures i >= 32 ==> TokenMeaning("ext_cpuid[" + Notation(i, 10) + "]", value) == SyntaxError
    ensures i >= 4 ==> TokenMeaning("intel_fn4[" + Notation(i, 10) + "]", value) == SyntaxError
    ensures i > 0 ==> TokenMeaning("basic_cpuid[-" + Notation(i, 10) + "]", value) == SyntaxError
    ensures i > 0 ==> TokenMeaning("ext_cpuid[-" + Notation(i, 10) + "]", value) == SyntaxError
    ensures i > 0 ==> TokenMeaning("intel_fn4[-" + Notation(i, 10) + "]", value) == SyntaxError
  {
    hide Notation, TokenMeaning;
    IndexRead(i);
    NegativeRead(i);
    var index, below := Notation(i, 10) + "]", "-" + (Notation(i, 10) + "]");
    forall b
      ensures i >= Limit(b) ==> TokenMeaning(BankName(b) + "[" + index, value) == SyntaxError
      ensures i > 0 ==> TokenMeaning(BankName(b) + "[" + below, value) == SyntaxError
    {
      WrongIndex(b, index, value);
      WrongIndex(b, below, value);
    }
    LiteralNames(Notation(i, 10));
  }

  lemma LiteralNames(index: string)
    ensures "basic_cpuid[" + index + "]" == BankName(Basic) + "[" + (index + "]")
    ensures "ext_cpuid[" + index + "]" == BankName(Ext) + "[" + (index + "]")
    ensures "intel_fn4[" + index + "]" == BankName(IntelFn4) + "[" + (index + "]")
    ensures "basic_cpuid[-" + index + "]" == BankName(Basic) + "[" + ("-" + (index + "]"))
    ensures "ext_cpuid[-" + index + "]" == BankName(Ext) + "[" + ("-" + (index + "]"))
    ensures "intel_fn4[-" + index + "]" == BankName(IntelFn4) + "[" + ("-" + (index + "]"))
  {
  }

  lemma WrongIndex(b: Bank, index: string, value: string)
    ensures ScanNumber(index, 10).Scanned? && !(0 <= ScanNumber(index, 10).value < Limit(b)) ==>
              TokenMeaning(BankName(b) + "[" + index, value) == SyntaxError
  {
    hide ScanNumber, TokenMeaning, BankName;
    var token := BankName(b) + "[" + index;
    Cut(BankName(b) + "[", index);
    assert BankName(b) <= BankName(b) + "[" <= token;
    BankDecides(b, token, value);
  }

  lemma IndexRead(i: nat)
    ensures ScanNumber(Notation(i, 10) + "]", 10) == Scanned(i, "]")
  {
    NotationReadsBack(i, 10);
    ScanPlain(Notation(i, 10), "]", 10);
  }

  lemma NegativeRead(i: nat)
    ensures ScanNumber("-" + (Notation(i, 10) + "]"), 10) == Scanned(-(i as int), "]")
  {
    NotationReadsBack(i, 10);
    SignedScan('-', Notation(i, 10), "]", 10);
  }

  /** A sign may stand in front of a number; a minus negates it. */
  lemma SignedScan(sign: char, digits: string, rest: string, base: nat)
    requires sign == '-' || sign == '+'
    requires digits != "" && Digits(digits, base) && (base == 10 || base == 16)
    requires rest != "" ==> DigitValue(rest[0]) >= base && rest[0] != 'x' && rest[0] != 'X'
    ensures ScanNumber([sign] + (digits + rest), base) ==
            Scanned(if sign == '-' then -(Value(digits, base) as int) else Value(digits, base), rest)
  {
    assert DigitValue(digits[0]) < base;
    hide ScanNumber, Value, Digits, SkipSpace;
    var u := digits + rest;
    assert u[0] == digits[0];
    ScanPlain(digits, rest, base);
    DigitsFirst(u, base);
    SignRead(sign, u, base, Value(digits, base), rest);
  }

  lemma SignRead(sign: char, u: string, base: nat, value: int, rest: string)
    requires (sign == '-' || sign == '+') && u != "" && SkipSpace(u) == u && u[0] != '-' && u[0] != '+'
    requires ScanNumber(u, base) == Scanned(value, rest)
    ensures ScanNumber([sign] + u, base) == Scanned(if sign == '-' then -value else value, rest)
  {
    var s := [sign] + u;
    assert s[0] == sign && s[1..] == u;
    assert SkipSpace(s) == s;
    hide DigitSpan, Value, SkipSpace;
  }

  /** A hexadecimal number may have the prefix 0x. */
  lemma PrefixedScan(x: char, digits: string, rest: string)
    requires x == 'x' || x == 'X'
    requires digits != "" && Digits(digits, 16) && (rest != "" ==> DigitValue(rest[0]) >= 16)
    ensures ScanNumber(['0', x] + (digits + rest), 16) == Scanned(Value(digits, 16), rest)
  {
    var v := digits + rest;
    DigitSpanIs(digits, rest, 16);
    Cut(digits, rest);
    hide Value, Digits, DigitSpan, DigitValue;
    PrefixRead(x, v, |digits|);
  }

  /** The prefix alone is no number. */
  lemma PrefixAlone(x: char)
    requires x == 'x' || x == 'X'
    ensures ScanNumber(['0', x], 16) == NoMatch
  {
    var s := ['0', x];
    assert SkipSpace(s) == s && s[2..] == "";
  }

  lemma PrefixRead(x: char, v: string, n: nat)
    requires (x == 'x' || x == 'X') && 0 < n <= |v| && DigitSpan(v, 16) == n
    ensures ScanNumber(['0', x] + v, 16) == Scanned(Value(v[..n], 16), v[n..])
  {
    var s := ['0', x] + v;
    assert s[0] == '0' && s[1] == x && s[2..] == v;
    assert SkipSpace(s) == s;
    hide DigitSpan, Value, SkipSpace;
  }

  /** White space in front of a number is skipped. */
  lemma {:induction false} SpacesSkipped(spaces: string, s: string, base: nat)
    requires forall i :: 0 <= i < |spaces| ==> spaces[i] == ' ' || 9 <= spaces[i] as int <= 13
    ensures ScanNumber(spaces + s, base) == ScanNumber(s, base)
  {
    if spaces == "" {
      assert "" + s == s;
    } else {
      SpacesSkipped(spaces[1..], s, base);
      assert (spaces + s)[1..] == spaces[1..] + s;
      SameScan(spaces + s, spaces[1..] + s);
      hide ScanNumber;
    }
  }
}
