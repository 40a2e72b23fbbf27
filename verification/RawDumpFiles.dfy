/** The arrays of raw CPUID data, written to a file and filled from one. */
module RawDumpFiles {
  import opened Sequences
  import opened Splitting
  import opened RawDump

  lemma {:induction false} FileOfPush(lines: seq<string>, line: string)
    ensures FileOf(lines + [line]) == FileOf(lines) + (line + "\n")
  {
    if lines == [] {
      assert [line][1..] == [];
      assert line + ("\n" + "") == line + "\n" && "" + (line + "\n") == line + "\n";
    } else {
      var first, more := lines[0], FileOf(lines[1..]);
      assert (lines + [line])[1..] == lines[1..] + [line];
      FileOfPush(lines[1..], line);
      Concat3("\n", more, line + "\n");
      Concat3(first, "\n" + more, line + "\n");
    }
  }

  lemma LoadEnd(raw: Raw, buffer: string)
    requires Sized(raw) && |buffer| == BUFFER_SIZE
    ensures Load(raw, "", buffer) == (raw, true)
  {
  }

  /** One line of the loop over a file. */
  lemma LoadStep(raw: Raw, text: string, buffer: string, read: string)
    requires Sized(raw) && text != "" && |buffer| == BUFFER_SIZE && read == AfterGets(buffer, text[..LineLength(text)])
    ensures LineLength(text) > 0
    ensures BufferMeaning(read).SyntaxError? ==> Load(raw, text, buffer) == (ApplyMeaning(raw, BufferMeaning(read)), false)
    ensures !BufferMeaning(read).SyntaxError? ==>
              Load(raw, text, buffer) ==
              Load(ApplyMeaning(raw, BufferMeaning(read)), text[LineLength(text)..], AfterCut(read))
  {
  }

  /** The cases of a token that names a bank. */
  lemma RowMeaningParts(b: Bank, token: string, value: string)
    ensures !(BankName(b) + "[" <= token) ==> RowMeaning(b, token, value) == SyntaxError
    ensures BankName(b) + "[" <= token ==>
              RowMeaning(b, token, value) == IndexMeaning(b, ScanNumber(token[|BankName(b)| + 1..], 10), ScanRegs(value))
  {
  }

  function IndexMeaning(b: Bank, index: Scanned, regs: (bool, Regs)): Meaning {
    if index.NoMatch? || index.value < 0 || index.value >= Limit(b) || !regs.0 then SyntaxError
    else Store(b, index.value, regs.1)
  }

  // ---------- the line buffer ----------

  /** fgets: stores a line and a NUL behind it. */
  method GetLine(text: string, line: array<char>) returns (n: nat)
    requires text != "" && line.Length == BUFFER_SIZE
    modifies line
    ensures n == LineLength(text) && line[..] == AfterGets(old(line[..]), text[..n])
  {
    hide AfterGets, LineLength, Got;
    ghost var before := line[..];
    NothingGot(text, before);
    n := 0;
    var more := true;
    while more && n < BUFFER_SIZE - 1 && n < |text|
      invariant n <= BUFFER_SIZE - 1 && n <= |text| && line[..] == Over(text, n, before)
      invariant Got(text, n, more)
      decreases more, |text| - n
    {
      OneStored(text, n, before);
      hide Over;
      ghost var now := line[..];
      line[n] := text[n];
      assert line[..] == now[n := text[n]];
      more := text[n] != '\n';
      n := n + 1;
    }
    LengthIs(text, n, more);
    Ended(text, n, before);
    hide Over;
    ghost var now := line[..];
    line[n] := '\0';
    assert line[..] == now[n := '\0'];
  }

  /** The beginning of a text, stored over what was there. */
  function Over(text: string, n: nat, before: string): (now: string)
    requires n <= |text| && n <= |before|
    ensures |now| == |before|
  {
    text[..n] + before[n..]
  }

  lemma OneStored(text: string, n: nat, before: string)
    requires n < |text| && n < |before|
    ensures Over(text, n, before)[n := text[n]] == Over(text, n + 1, before)
    ensures Got(text, n, true) ==> Got(text, n + 1, text[n] != '\n')
  {
    assert text[..n + 1] == text[..n] + [text[n]];
  }

  /** The first n characters have no line break, or, when no more are wanted, one at their end. */
  predicate Got(text: string, n: nat, more: bool)
    requires n <= |text|
  {
    if more then '\n' !in text[..n] else n > 0 && text[n - 1] == '\n' && '\n' !in text[..n - 1]
  }

  lemma NothingGot(text: string, before: string)
    ensures Over(text, 0, before) == before && Got(text, 0, true)
  {
  }

  lemma Ended(text: string, n: nat, before: string)
    requires n <= |text| && n < |before|
    ensures Over(text, n, before)[n := '\0'] == AfterGets(before, text[..n])
  {
  }

  lemma LengthIs(text: string, n: nat, more: bool)
    requires n <= |text| && n < BUFFER_SIZE
    requires Got(text, n, more) && (more ==> n == BUFFER_SIZE - 1 || n == |text|)
    ensures n == LineLength(text)
  {
    if more {
      BeforeAtLeast(text, '\n', n);
    } else {
      BeforeIs(text, '\n', n - 1);
    }
  }

  /** strlen of what begins at an index, within the buffer. */
  method StringLength(line: array<char>, i: nat) returns (n: nat)
    requires i <= line.Length
    ensures n == |TextAt(line[..], i)| && TextAt(line[..], i) == line[i..i + n]
  {
    n := 0;
    var rest := line[i..];
    assert line[..][i..] == rest;
    while i + n < line.Length && line[i + n] != '\0'
      invariant i + n <= line.Length
      invariant '\0' !in rest[..n]
    {
      assert rest[..n + 1] == rest[..n] + [line[i + n]];
      n := n + 1;
    }
    BeforeIs(rest, '\0', n);
  }

  /** The search for '=' in a line of that length. */
  method FindAssignment(line: array<char>, len: nat) returns (i: nat)
    requires len <= line.Length
    ensures i == Before(line[..len], '=')
  {
    i := 0;
    while i < len && line[i] != '='
      invariant i <= len && '=' !in line[..i]
    {
      assert line[..i + 1] == line[..i] + [line[i]];
      i := i + 1;
    }
    assert line[..len][..i] == line[..i];
    BeforeIs(line[..len], '=', i);
  }

  /** What cutting off the line break does to a buffer that holds a text of that length. */
  lemma CutShows(buffer: string, len: nat)
    requires '\0' in buffer && len == |TextAt(buffer, 0)|
    ensures len < |buffer|
    ensures len < 2 ==> AfterCut(buffer) == buffer && BufferMeaning(buffer) == Nothing
    ensures len >= 2 && buffer[len - 1] == '\n' ==>
              AfterCut(buffer) == buffer[len - 1 := '\0'] && TextAt(AfterCut(buffer), 0) == buffer[..len - 1]
    ensures len >= 2 && buffer[len - 1] != '\n' ==>
              AfterCut(buffer) == buffer && TextAt(AfterCut(buffer), 0) == buffer[..len]
  {
    TextEnds(buffer);
    assert buffer[0..] == buffer && AfterCut(buffer)[0..] == AfterCut(buffer);
    if len >= 2 && buffer[len - 1] == '\n' {
      assert AfterCut(buffer)[..len - 1] == buffer[..len - 1] && buffer[..len - 1] == buffer[..len][..len - 1];
      BeforeIs(AfterCut(buffer), '\0', len - 1);
    }
  }

  /** What a line of at least two characters asks for. */
  lemma Taken(buffer: string, text: string, i: nat)
    requires '\0' in buffer && |TextAt(buffer, 0)| >= 2
    requires text == TextAt(AfterCut(buffer), 0) && i == Before(text, '=') && i + 1 <= |buffer|
    ensures BufferMeaning(buffer) == TokenMeaning(text[..i], TextAt(AfterCut(buffer), i + 1))
  {
    hide TokenMeaning, TextAt, AfterCut, Before;
  }

  class CpuRawData {
    const basic: array<Regs>
    const ext: array<Regs>
    const intelFn4: array<Regs>

    ghost predicate Valid() {
      basic.Length == Limit(Basic) && ext.Length == Limit(Ext) && intelFn4.Length == Limit(IntelFn4) &&
      basic != ext && basic != intelFn4 && ext != intelFn4
    }

    ghost function Current(): (raw: Raw)
      requires Valid()
      reads basic, ext, intelFn4
      ensures Sized(raw)
    {
      Raw(basic[..], ext[..], intelFn4[..])
    }

    constructor ()
      ensures Valid() && fresh(basic) && fresh(ext) && fresh(intelFn4)
    {
      basic := new Regs[32](_ => NO_REGS);
      ext := new Regs[32](_ => NO_REGS);
      intelFn4 := new Regs[4](_ => NO_REGS);
    }

    function RowsOf(b: Bank): array<Regs> {
      match b
      case Basic => basic
      case Ext => ext
      case IntelFn4 => intelFn4
    }

    method WriteRows(b: Bank, text: string, ghost lines: seq<string>) returns (written: string)
      requires Valid() && text == FileOf(lines)
      ensures written == FileOf(lines + RowLines(b, Rows(Current(), b)))
    {
      hide RowLine, FileOf;
      written := text;
      var rows := RowsOf(b);
      ghost var all := RowLines(b, Rows(Current(), b));
      assert lines + all[..0] == lines;
      for i := 0 to rows.Length
        invariant written == FileOf(lines + all[..i])
      {
        FileOfPush(lines + all[..i], all[i]);
        assert all[i] == RowLine(b, i, rows[i]);
        assert lines + all[..i + 1] == lines + all[..i] + [all[i]];
        written := written + (RowLine(b, i, rows[i]) + "\n");
      }
      assert all[..rows.Length] == all;
    }

    method Serialize(version: string, buildDate: string) returns (text: string)
      requires Valid()
      ensures text == FileOf(DumpLines(Current(), version, buildDate))
    {
      ghost var none: seq<string> := [];
      FileOfPush(none, "version=" + version);
      FileOfPush(["version=" + version], "build_date=" + buildDate);
      text := "version=" + version + "\n";
      text := text + ("build_date=" + buildDate + "\n");
      ghost var lines := ["version=" + version, "build_date=" + buildDate];
      assert ["version=" + version] + ["build_date=" + buildDate] == lines;
      text := WriteRows(Basic, text, lines);
      lines := lines + RowLines(Basic, basic[..]);
      text := WriteRows(Ext, text, lines);
      lines := lines + RowLines(Ext, ext[..]);
      text := WriteRows(IntelFn4, text, lines);
    }

    method StoreRow(b: Bank, i: nat, r: Regs)
      requires Valid() && i < Limit(b)
      modifies RowsOf(b)
      ensures Current() == Put(old(Current()), b, i, r)
    {
      RowsOf(b)[i] := r;
    }

    /** Stores the row when the token names this bank; an error when it then cannot be read. */
    method ParseToken(b: Bank, token: string, value: string, recognized: bool) returns (syntax: bool, now: bool)
      requires Valid()
      modifies RowsOf(b)
      ensures recognized || !(BankName(b) <= token) ==> syntax && now == recognized && Current() == old(Current())
      ensures !recognized && BankName(b) <= token ==>
                now && syntax == !RowMeaning(b, token, value).SyntaxError? &&
                Current() == ApplyMeaning(old(Current()), RowMeaning(b, token, value))
    {
      if recognized || !(BankName(b) <= token) {
        return true, recognized;
      }
      RowMeaningParts(b, token, value);
      hide ScanNumber, ScanRegs, RowMeaning, BankName;
      now := true;
      syntax := false;
      if BankName(b) + "[" <= token {
        var index := ScanNumber(token[|BankName(b)| + 1..], 10);
        if index.Scanned? && 0 <= index.value < Limit(b) {
          var regs := ScanRegs(value);
          if regs.0 {
            StoreRow(b, index.value, regs.1);
            syntax := true;
          }
        }
      }
    }

    method LoadToken(token: string, value: string) returns (syntax: bool)
      requires Valid()
      modifies basic, ext, intelFn4
      ensures var m := TokenMeaning(token, value);
              syntax == !m.SyntaxError? && Current() == ApplyMeaning(old(Current()), m)
    {
      hide RowMeaning;
      var recognized := token == "version" || token == "build_date";
      syntax, recognized := ParseToken(Basic, token, value, recognized);
      if syntax {
        syntax, recognized := ParseToken(Ext, token, value, recognized);
      }
      if syntax {
        syntax, recognized := ParseToken(IntelFn4, token, value, recognized);
      }
    }

    /** One line in the buffer: its line break is cut off, and it is taken apart at the first '='. */
    method LoadLine(line: array<char>) returns (syntax: bool)
      requires Valid() && '\0' in line[..]
      modifies line, basic, ext, intelFn4
      ensures line[..] == AfterCut(old(line[..]))
      ensures syntax == !BufferMeaning(old(line[..])).SyntaxError?
      ensures Current() == ApplyMeaning(old(Current()), BufferMeaning(old(line[..])))
    {
      hide TokenMeaning, TextAt, AfterCut, BufferMeaning;
      ghost var read := line[..];
      var len := StringLength(line, 0);
      CutShows(read, len);
      if len < 2 {
        return true;
      }
      if line[len - 1] == '\n' {
        len := len - 1;
        line[len] := '\0';
      }
      assert line[..] == AfterCut(read) && line[..len] == TextAt(AfterCut(read), 0);
      var i := FindAssignment(line, len);
      var end := StringLength(line, i + 1);
      var token := line[..i];
      var value := line[i + 1..i + 1 + end];
      assert token == line[..len][..i];
      Taken(read, line[..len], i);
      syntax := LoadToken(token, value);
    }

    /** Reads a file through a line buffer whose first contents are anything. */
    method Deserialize(text: string) returns (ok: bool, ghost initial: string)
      requires Valid()
      modifies basic, ext, intelFn4
      ensures |initial| == BUFFER_SIZE && (Current(), ok) == Load(NO_DATA, text, initial)
    {
      hide BufferMeaning, ApplyMeaning, LineLength, Load, AfterGets, AfterCut;
      Clear();
      var line := new char[BUFFER_SIZE];
      initial := line[..];
      var unread := text;
      while unread != ""
        invariant Load(Current(), unread, line[..]) == Load(NO_DATA, text, initial)
        decreases |unread|
      {
        ghost var read := AfterGets(line[..], unread[..LineLength(unread)]);
        LoadStep(Current(), unread, line[..], read);
        var n := GetLine(unread, line);
        var syntax := LoadLine(line);
        if !syntax {
          return false, initial;
        }
        unread := unread[n..];
      }
      LoadEnd(Current(), line[..]);
      ok := true;
    }

    method Clear()
      requires Valid()
      modifies basic, ext, intelFn4
      ensures Current() == NO_DATA
    {
      forall i | 0 <= i < basic.Length { basic[i] := NO_REGS; }
      forall i | 0 <= i < ext.Length { ext[i] := NO_REGS; }
      forall i | 0 <= i < intelFn4.Length { intelFn4[i] := NO_REGS; }
    }
  }
}
