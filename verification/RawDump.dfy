/** The text dump of raw CPUID data: written line by line, and read back with fgets and sscanf. */
module RawDump {
  import opened Numbers
  import opened Splitting

  type Word = n: nat | n < 0x1_0000_0000

  datatype Regs = Regs(eax: Word, ebx: Word, ecx: Word, edx: Word)

  datatype Bank = Basic | Ext | IntelFn4

  function Limit(b: Bank): nat { if b == IntelFn4 then 4 else 32 }

  function BankName(b: Bank): string {
    match b
    case Basic => "basic_cpuid"
    case Ext => "ext_cpuid"
    case IntelFn4 => "intel_fn4"
  }

  datatype Raw = Raw(basic: seq<Regs>, ext: seq<Regs>, fn4: seq<Regs>)

  predicate Sized(raw: Raw) {
    |raw.basic| == Limit(Basic) && |raw.ext| == Limit(Ext) && |raw.fn4| == Limit(IntelFn4)
  }

  function Rows(raw: Raw, b: Bank): (r: seq<Regs>)
    requires Sized(raw)
    ensures |r| == Limit(b)
  {
    match b
    case Basic => raw.basic
    case Ext => raw.ext
    case IntelFn4 => raw.fn4
  }

  function Put(raw: Raw, b: Bank, i: nat, r: Regs): (raw': Raw)
    requires Sized(raw) && i < Limit(b)
    ensures Sized(raw')
  {
    match b
    case Basic => raw.(basic := raw.basic[i := r])
    case Ext => raw.(ext := raw.ext[i := r])
    case IntelFn4 => raw.(fn4 := raw.fn4[i := r])
  }

  const NO_REGS := Regs(0, 0, 0, 0)

  const NO_DATA := Raw(seq(32, _ => NO_REGS), seq(32, _ => NO_REGS), seq(4, _ => NO_REGS))

  // ---------- writing ----------

  /** Exactly that many hexadecimal digits, with leading zeros. */
  function Hex(n: nat, digits: nat): (s: string)
    ensures |s| == digits
  {
    if digits == 0 then "" else Hex(n / 16, digits - 1) + [Digit(n % 16)]
  }

  function RegsText(r: Regs): string {
    Hex(r.eax, 8) + (" " + (Hex(r.ebx, 8) + (" " + (Hex(r.ecx, 8) + (" " + Hex(r.edx, 8))))))
  }

  function Token(b: Bank, i: nat): string { BankName(b) + ("[" + (Notation(i, 10) + "]")) }

  /** The line of one row, without its line break. */
  function RowLine(b: Bank, i: nat, r: Regs): string { Token(b, i) + ("=" + RegsText(r)) }

  function RowLines(b: Bank, rows: seq<Regs>): seq<string> {
    seq(|rows|, i requires 0 <= i < |rows| => RowLine(b, i, rows[i]))
  }

  function DumpLines(raw: Raw, version: string, buildDate: string): seq<string> {
    ["version=" + version, "build_date=" + buildDate] +
    RowLines(Basic, raw.basic) + RowLines(Ext, raw.ext) + RowLines(IntelFn4, raw.fn4)
  }

  /** The file: every line ends with a line break. */
  function FileOf(lines: seq<string>): string {
    if lines == [] then "" else lines[0] + ("\n" + FileOf(lines[1..]))
  }

  // ---------- reading ----------

  predicate CSpace(c: char) { c == ' ' || c == '\t' || c == '\n' || c as int == 11 || c as int == 12 || c == '\r' }

  function SkipSpace(s: string): string {
    if s != "" && CSpace(s[0]) then SkipSpace(s[1..]) else s
  }

  /** The leading digits of a text. */
  function DigitSpan(s: string, base: nat): (n: nat)
    ensures n <= |s| && Digits(s[..n], base)
  {
    if s == "" || DigitValue(s[0]) >= base then 0 else
    var n := 1 + DigitSpan(s[1..], base);
    assert forall i :: 1 <= i < n ==> s[..n][i] == s[1..][..n - 1][i - 1];
    n
  }

  datatype Scanned = Scanned(value: int, rest: string) | NoMatch

  /** An optional sign, then digits: one conversion of sscanf. */
  function ScanNumber(s: string, base: nat): Scanned {
    var t := SkipSpace(s);
    var negative := t != "" && t[0] == '-';
    var u := if t != "" && (t[0] == '-' || t[0] == '+') then t[1..] else t;
    var v := if base == 16 && |u| >= 2 && u[0] == '0' && (u[1] == 'x' || u[1] == 'X') then u[2..] else u;
    var n := DigitSpan(v, base);
    if n == 0 then NoMatch else
    Scanned(if negative then -(Value(v[..n], base) as int) else Value(v[..n], base), v[n..])
  }

  /** Four hexadecimal conversions; each value is stored in 32 bits. */
  function ScanRegs(s: string): (r: (bool, Regs)) {
    var a := ScanNumber(s, 16);
    if a.NoMatch? then (false, NO_REGS) else
    var b := ScanNumber(a.rest, 16);
    if b.NoMatch? then (false, NO_REGS) else
    var c := ScanNumber(b.rest, 16);
    if c.NoMatch? then (false, NO_REGS) else
    var d := ScanNumber(c.rest, 16);
    if d.NoMatch? then (false, NO_REGS) else
    (true, Regs(a.value % 0x1_0000_0000, b.value % 0x1_0000_0000, c.value % 0x1_0000_0000, d.value % 0x1_0000_0000))
  }

  /** What one line asks for. */
  datatype Meaning = Nothing | Store(bank: Bank, index: nat, regs: Regs) | SyntaxError

  function RowMeaning(b: Bank, token: string, value: string): (m: Meaning)
    ensures m.Store? ==> m.bank == b && m.index < Limit(b)
  {
    if !(BankName(b) + "[" <= token) then SyntaxError else
    var index := ScanNumber(token[|BankName(b)| + 1..], 10);
    if index.NoMatch? || index.value < 0 || index.value >= Limit(b) then SyntaxError else
    var regs := ScanRegs(value);
    if !regs.0 then SyntaxError else Store(b, index.value, regs.1)
  }

  /** The banks are tried in order; a line no bank recognises is ignored with a warning. */
  function TokenMeaning(token: string, value: string): (m: Meaning)
    ensures m.Store? ==> m.index < Limit(m.bank)
  {
    if token == "version" || token == "build_date" then Nothing
    else if BankName(Basic) <= token then RowMeaning(Basic, token, value)
    else if BankName(Ext) <= token then RowMeaning(Ext, token, value)
    else if BankName(IntelFn4) <= token then RowMeaning(IntelFn4, token, value)
    else Nothing
  }

  // ---------- the line buffer ----------

  const BUFFER_SIZE := 100

  /** The text that begins at an index: up to the next NUL. */
  function TextAt(buffer: string, i: nat): (text: string)
    requires i <= |buffer|
    ensures i + |text| <= |buffer|
  {
    buffer[i..][..Before(buffer[i..], '\0')]
  }

  /** The buffer after fgets has stored a line in it, with a NUL behind. */
  function AfterGets(buffer: string, line: string): (buffer': string)
    requires |line| < |buffer|
    ensures |buffer'| == |buffer| && '\0' in buffer'
  {
    line + ("\0" + buffer[|line| + 1..])
  }

  /** The same after the line break has been cut off; a line of one character is left as it is. */
  function AfterCut(buffer: string): (buffer': string)
    ensures |buffer'| == |buffer|
    ensures '\0' in buffer ==> '\0' in buffer'
  {
    var len := |TextAt(buffer, 0)|;
    if len >= 2 && buffer[len - 1] == '\n' then
      assert buffer[len - 1 := '\0'][len - 1] == '\0';
      buffer[len - 1 := '\0']
    else
      buffer
  }

  lemma TextEnds(buffer: string)
    requires '\0' in buffer
    ensures |TextAt(buffer, 0)| < |buffer|
  {
    assert buffer[0..] == buffer && buffer[..|buffer|] == buffer;
  }

  /**
   * What the line in the buffer asks for. Its token ends at the first '='; without one the token is the whole
   * line, and the value is what follows behind its NUL.
   */
  function BufferMeaning(buffer: string): (m: Meaning)
    requires '\0' in buffer
    ensures m.Store? ==> m.index < Limit(m.bank)
  {
    if |TextAt(buffer, 0)| < 2 then Nothing else
    var cut := AfterCut(buffer);
    TextEnds(cut);
    var text := TextAt(cut, 0);
    var i := Before(text, '=');
    TokenMeaning(text[..i], TextAt(cut, i + 1))
  }

  /** fgets with a buffer of 100: up to a line break, at most 99 characters. */
  function LineLength(text: string): (n: nat)
    ensures n <= |text| && n < BUFFER_SIZE && (text != "" ==> n > 0)
  {
    var n := Before(text, '\n');
    if n < 99 && n < |text| then n + 1 else if n > 99 then 99 else n
  }

  function ApplyMeaning(raw: Raw, m: Meaning): (raw': Raw)
    requires Sized(raw) && (m.Store? ==> m.index < Limit(m.bank))
    ensures Sized(raw')
  {
    if m.Store? then Put(raw, m.bank, m.index, m.regs) else raw
  }

  /** Reads the rest of a file into raw, line by line through the buffer; stops at the first syntax error. */
  function Load(raw: Raw, text: string, buffer: string): (r: (Raw, bool))
    requires Sized(raw) && |buffer| == BUFFER_SIZE
    ensures Sized(r.0)
    decreases |text|
  {
    if text == "" then (raw, true) else
    var n := LineLength(text);
    var read := AfterGets(buffer, text[..n]);
    var m := BufferMeaning(read);
    if m.SyntaxError? then (raw, false) else
    Load(ApplyMeaning(raw, m), text[n..], AfterCut(read))
  }
}
