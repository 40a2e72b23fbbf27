/** Splitting a text at a separator, and wrapping it at a column. */
module StringTools {
  import opened Sequences
  import opened Splitting

  /** The parts of a text: an empty text has none. */
  function Parts(text: string, separator: char): seq<string> {
    if text == "" then [] else Split(text, separator)
  }

  lemma PartsJoin(text: string, separator: char)
    ensures Join(Parts(text, separator), separator) == text
  {
    JoinSplit(text, separator);
  }

  method SplitText(text: string, separator: char) returns (splittedText: seq<string>)
    ensures splittedText == Parts(text, separator)
    ensures Join(splittedText, separator) == text
  {
    PartsJoin(text, separator);
    splittedText := [];
    ghost var goal := Parts(text, separator);
    var unread, more := text, text != "";
    assert [] + goal == goal;
    hide Split, Join;
    while more
      invariant more ==> goal == splittedText + Split(unread, separator)
      invariant !more ==> goal == splittedText
      decreases more, |unread|
    {
      var n := Before(unread, separator);
      SplitFurther(splittedText, unread, separator, n);
      if n < |unread| {
        splittedText := splittedText + [unread[..n]];
        unread := unread[n + 1..];
      } else {
        splittedText := splittedText + [unread];
        more := false;
      }
    }
  }

  /**
   * The slices of one line: one empty slice for an empty line, and the whole line when the column is not
   * positive.
   */
  function Chunks(line: string, column: int): (chunks: seq<string>)
    ensures chunks != []
  {
    if column <= 0 || |line| <= column then [line] else [line[..column]] + Chunks(line[column..], column)
  }

  function ChunksAll(lines: seq<string>, column: int): seq<string> {
    if lines == [] then [] else Chunks(lines[0], column) + ChunksAll(lines[1..], column)
  }

  /** The wrapped text: every line of the original replaced by its slices. */
  function Wrapped(text: string, column: int): string {
    Join(ChunksAll(Parts(text, '\n'), column), '\n')
  }

  lemma {:induction false} JoinConcat(a: seq<string>, b: seq<string>, c: char)
    requires a != [] && b != []
    ensures Join(a + b, c) == Join(a, c) + ([c] + Join(b, c))
  {
    if |a| == 1 {
      assert (a + b)[1..] == b;
    } else {
      assert (a + b)[1..] == a[1..] + b;
      JoinConcat(a[1..], b, c);
      Concat3([c], Join(a[1..], c), [c] + Join(b, c));
      Concat3(a[0], [c] + Join(a[1..], c), [c] + Join(b, c));
    }
  }

  lemma {:induction false} ChunksAllPush(lines: seq<string>, line: string, column: int)
    ensures ChunksAll(lines + [line], column) == ChunksAll(lines, column) + Chunks(line, column)
    ensures lines != [] ==> ChunksAll(lines, column) != []
  {
    if lines == [] {
      assert [line][1..] == [];
    } else {
      assert (lines + [line])[1..] == lines[1..] + [line];
      ChunksAllPush(lines[1..], line, column);
      Concat3(Chunks(lines[0], column), ChunksAll(lines[1..], column), Chunks(line, column));
    }
  }

  const TWO_TO_THE_32 := 0x1_0000_0000

  /** A column as the int it is; a negative one is taken modulo 2 to the 32, which passes the end of any shorter line. */
  predicate IsColumn(column: int, length: nat) {
    -0x8000_0000 <= column && (column < 0 ==> length < 0x8000_0000)
  }

  /** What the inner loop has written, and the index it has reached. */
  datatype Wrapping = Wrapping(wrapped: string, index: nat)

  /** One turn of the inner loop. */
  function WrapTurn(line: string, step: nat, w: Wrapping): Wrapping
    requires w.index < |line|
  {
    var rest := line[w.index..];
    var slice := if |rest| <= step then rest else rest[..step];
    Wrapping(w.wrapped + slice + (if w.index + step < |line| then "\n" else ""), w.index + step)
  }

  /** At most that many turns, fewer when the loop ends before. */
  function WrapTurns(line: string, step: nat, turns: nat, w: Wrapping): Wrapping
    decreases turns
  {
    if turns == 0 || w.index >= |line| then w else WrapTurns(line, step, turns - 1, WrapTurn(line, step, w))
  }

  function LineBreaks(n: nat): string { if n == 0 then "" else "\n" + LineBreaks(n - 1) }

  /** At column 0 the index stays where it is, and every turn adds a line break. */
  lemma {:induction false} TurnsAtColumnZero(line: string, turns: nat, w: Wrapping)
    requires w.index < |line|
    ensures WrapTurns(line, 0, turns, w) == Wrapping(w.wrapped + LineBreaks(turns), w.index)
    decreases turns
  {
    if turns == 0 {
      assert w.wrapped + "" == w.wrapped;
    } else {
      var next := WrapTurn(line, 0, w);
      assert line[w.index..][..0] == "" && w.wrapped + "" == w.wrapped;
      TurnsAtColumnZero(line, turns - 1, next);
      Concat3(w.wrapped, "\n", LineBreaks(turns - 1));
    }
  }

  lemma {:induction false} TurnsAdvance(line: string, step: nat, turns: nat, w: Wrapping)
    requires step > 0
    ensures WrapTurns(line, step, turns, w).index >= |line| || WrapTurns(line, step, turns, w).index >= w.index + turns
    decreases turns
  {
    if turns > 0 && w.index < |line| {
      TurnsAdvance(line, step, turns - 1, WrapTurn(line, step, w));
    }
  }

  /** The loop ends for every line at a column other than 0, and at column 0 for the empty line alone. */
  lemma WrapLineEndsExactly(line: string, step: nat)
    ensures (exists turns: nat :: WrapTurns(line, step, turns, Wrapping("", 0)).index >= |line|) <==> step > 0 || line == ""
  {
    if step > 0 {
      TurnsAdvance(line, step, |line|, Wrapping("", 0));
      assert WrapTurns(line, step, |line|, Wrapping("", 0)).index >= |line|;
    } else if line != "" {
      forall turns: nat
        ensures WrapTurns(line, step, turns, Wrapping("", 0)).index < |line|
      {
        TurnsAtColumnZero(line, turns, Wrapping("", 0));
      }
    } else {
      assert WrapTurns(line, step, 0, Wrapping("", 0)).index >= |line|;
    }
  }

  /** The inner loop: the slices of one line with line breaks between them, for every column at which it ends. */
  method WrapLine(line: string, column: int) returns (wrapped: string)
    requires IsColumn(column, |line|) && (column == 0 ==> line == "")
    ensures wrapped == Join(Chunks(line, column), '\n')
  {
    wrapped := "";
    var index := 0;
    var step := if column < 0 then column + TWO_TO_THE_32 else column;
    ghost var goal := Join(Chunks(line, column), '\n');
    assert line[0..] == line;
    assert "" + goal == goal;
    while index < |line|
      invariant index >= 0 && (column < 0 ==> index == 0 || index >= |line|)
      invariant index < |line| ==> goal == wrapped + Join(Chunks(line[index..], column), '\n')
      invariant index >= |line| ==> goal == wrapped
      decreases |line| - index
    {
      ghost var turn := WrapTurn(line, step, Wrapping(wrapped, index));
      var rest := line[index..];
      var slice := if |rest| <= step then rest else rest[..step];
      if index + step < |line| {
        SliceJoined(wrapped, rest, column);
        assert rest[column..] == line[index + column..];
      }
      wrapped := wrapped + slice;
      index := index + step;
      if index < |line| {
        wrapped := wrapped + "\n";
      }
      assert Wrapping(wrapped, index) == turn;
    }
  }

  /** One slice more, and the rest of the line. */
  lemma SliceJoined(wrapped: string, rest: string, column: int)
    requires 0 < column < |rest|
    ensures wrapped + Join(Chunks(rest, column), '\n') ==
            wrapped + rest[..column] + "\n" + Join(Chunks(rest[column..], column), '\n')
  {
    var slice, more := rest[..column], Chunks(rest[column..], column);
    JoinConcat([slice], more, '\n');
    Concat3(wrapped, slice, "\n" + Join(more, '\n'));
    Concat3(wrapped + slice, "\n", Join(more, '\n'));
  }

  method Wrap(text: string, wrapColumn: int) returns (wrapped: string)
    requires IsColumn(wrapColumn, |text|)
    requires wrapColumn == 0 ==> forall line :: line in Parts(text, '\n') ==> line == ""
    ensures wrapped == Wrapped(text, wrapColumn)
  {
    PartsAreShort(text, '\n');
    var lines := SplitText(text, '\n');
    wrapped := "";
    assert lines[..0] == [];
    for i := 0 to |lines|
      invariant wrapped == Join(ChunksAll(lines[..i], wrapColumn), '\n')
    {
      LineAdded(lines, i, wrapColumn);
      hide Chunks, ChunksAll, Join;
      assert lines[i] in lines;
      var line := WrapLine(lines[i], wrapColumn);
      if i > 0 {
        wrapped := wrapped + "\n";
      }
      wrapped := wrapped + line;
    }
    assert lines[..|lines|] == lines;
  }

  lemma LineAdded(lines: seq<string>, i: nat, column: int)
    requires i < |lines|
    ensures i == 0 ==> Join(ChunksAll(lines[..i + 1], column), '\n') == "" + Join(Chunks(lines[i], column), '\n')
    ensures i == 0 ==> Join(ChunksAll(lines[..i], column), '\n') == ""
    ensures i > 0 ==>
              Join(ChunksAll(lines[..i + 1], column), '\n') ==
              Join(ChunksAll(lines[..i], column), '\n') + "\n" + Join(Chunks(lines[i], column), '\n')
  {
    assert lines[..i + 1] == lines[..i] + [lines[i]];
    ChunksAllPush(lines[..i], lines[i], column);
    if i > 0 {
      JoinConcat(ChunksAll(lines[..i], column), Chunks(lines[i], column), '\n');
      Concat3(Join(ChunksAll(lines[..i], column), '\n'), "\n", Join(Chunks(lines[i], column), '\n'));
    } else {
      assert [] + Chunks(lines[i], column) == Chunks(lines[i], column);
      assert "" + Join(Chunks(lines[i], column), '\n') == Join(Chunks(lines[i], column), '\n');
    }
  }

  lemma PartsAreShort(text: string, c: char)
    ensures forall p :: p in Parts(text, c) ==> |p| <= |text|
  {
    if text != "" {
      SplitPartsAreShort(text, c);
    }
  }

  lemma {:induction false} SplitPartsAreShort(text: string, c: char)
    ensures forall p :: p in Split(text, c) ==> |p| <= |text|
    decreases |text|
  {
    SplitStep(text, c);
    hide Split, Before;
    if Before(text, c) < |text| {
      SplitPartsAreShort(text[Before(text, c) + 1..], c);
    }
  }

  predicate Fits(lines: seq<string>, column: int) { forall l :: l in lines ==> |l| <= column }

  lemma {:induction false} ChunksFit(line: string, column: int)
    requires '\n' !in line
    ensures NoneContains(Chunks(line, column), '\n')
    ensures column > 0 ==> Fits(Chunks(line, column), column)
  {
    if column > 0 && |line| > column {
      ChunksFit(line[column..], column);
    }
  }

  lemma {:induction false} ChunksAllFit(lines: seq<string>, column: int)
    requires NoneContains(lines, '\n')
    ensures NoneContains(ChunksAll(lines, column), '\n')
    ensures column > 0 ==> Fits(ChunksAll(lines, column), column)
    ensures lines != [] ==> ChunksAll(lines, column) != []
  {
    if lines != [] {
      assert lines[0] in lines;
      ChunksFit(lines[0], column);
      ChunksAllFit(lines[1..], column);
    }
  }

  /**
   * The lines of a wrapped text are the slices of the original lines, and each fits a positive column; with any
   * other column the text is left as it is.
   */
  lemma WrappedLines(text: string, column: int)
    ensures Parts(Wrapped(text, column), '\n') == ChunksAll(Parts(text, '\n'), column)
    ensures column > 0 ==> Fits(Parts(Wrapped(text, column), '\n'), column)
    ensures column <= 0 ==> Wrapped(text, column) == text
  {
    var lines := Parts(text, '\n');
    if column <= 0 {
      ShortLinesStay(lines, column);
      PartsJoin(text, '\n');
    } else if text != "" {
      SplitHasNone(text, '\n');
      ChunksAllFit(lines, column);
      var chunks := ChunksAll(lines, column);
      SplitJoin(chunks, '\n');
      WrappedNotEmpty(text, column);
    }
  }

  lemma WrappedNotEmpty(text: string, column: int)
    requires text != ""
    ensures Wrapped(text, column) != ""
  {
    var lines := Split(text, '\n');
    var chunks := ChunksAll(lines, column);
    JoinSplit(text, '\n');
    if |lines| == 1 {
      assert lines == [text] && lines[1..] == [];
      assert chunks[0] == Chunks(text, column)[0] != "";
    } else {
      var first, rest := Chunks(lines[0], column), ChunksAll(lines[1..], column);
      assert rest != [] by {
        ChunksAllPush(lines[1..], "", column);
      }
      assert |chunks| == |first| + |rest| >= 2;
    }
    assert |chunks| >= 2 ==> |Join(chunks, '\n')| >= 1;
  }

  lemma {:induction false} ShortLinesStay(lines: seq<string>, column: int)
    requires column <= 0 || Fits(lines, column)
    ensures ChunksAll(lines, column) == lines
  {
    if lines != [] {
      assert lines[0] in lines;
      ShortLinesStay(lines[1..], column);
      assert lines == [lines[0]] + lines[1..];
    }
  }

  /** Every slice of a line but the last is as long as the column, and none is empty unless the line is. */
  lemma {:induction false} SlicesAreFull(line: string, column: int)
    requires column > 0
    ensures var slices := Chunks(line, column);
            slices != [] && (forall i :: 0 <= i < |slices| - 1 ==> |slices[i]| == column) &&
            |slices[|slices| - 1]| <= column && (line != "" ==> slices[|slices| - 1] != "")
  {
    if |line| > column {
      SlicesAreFull(line[column..], column);
      var more := Chunks(line[column..], column);
      assert Chunks(line, column) == [line[..column]] + more;
    }
  }

  /** The parts of a text are those free of the separator that join to it, and none for the empty text. */
  lemma SplitExactly(text: string, separator: char, parts: seq<string>)
    ensures Parts(text, separator) == parts <==>
            if text == "" then parts == []
            else parts != [] && NoneContains(parts, separator) && Join(parts, separator) == text
  {
    hide Split, Join;
    if text != "" {
      SplitHasNone(text, separator);
      JoinSplit(text, separator);
      if parts != [] && NoneContains(parts, separator) && Join(parts, separator) == text {
        SplitJoin(parts, separator);
      }
    }
  }

  /** Wrapping twice at the same column is wrapping once. */
  lemma WrapIsIdempotent(text: string, column: int)
    ensures Wrapped(Wrapped(text, column), column) == Wrapped(text, column)
  {
    WrappedLines(text, column);
    ShortLinesStay(ChunksAll(Parts(text, '\n'), column), column);
  }

  /** The characters of all parts, without what separated them. */
  function Flat(parts: seq<string>): string {
    if parts == [] then "" else parts[0] + Flat(parts[1..])
  }

  lemma {:induction false} FlatConcat(a: seq<string>, b: seq<string>)
    ensures Flat(a + b) == Flat(a) + Flat(b)
  {
    if a == [] {
      assert a + b == b;
    } else {
      assert (a + b)[1..] == a[1..] + b;
      FlatConcat(a[1..], b);
    }
  }

  lemma {:induction false} ChunksKeepText(line: string, column: int)
    ensures Flat(Chunks(line, column)) == line
  {
    if column <= 0 || |line| <= column {
      assert [line][1..] == [];
    } else {
      ChunksKeepText(line[column..], column);
      assert line == line[..column] + line[column..];
    }
  }

  lemma {:induction false} ChunksAllKeepText(lines: seq<string>, column: int)
    ensures Flat(ChunksAll(lines, column)) == Flat(lines)
  {
    if lines != [] {
      ChunksKeepText(lines[0], column);
      ChunksAllKeepText(lines[1..], column);
      FlatConcat(Chunks(lines[0], column), ChunksAll(lines[1..], column));
    }
  }

  /** Wrapping adds line breaks and changes nothing else. */
  lemma WrapKeepsText(text: string, column: int)
    ensures Flat(Parts(Wrapped(text, column), '\n')) == Flat(Parts(text, '\n'))
  {
    WrappedLines(text, column);
    ChunksAllKeepText(Parts(text, '\n'), column);
  }
}
