/** The XML uniformiser: one index and one output buffer, advanced by nested scanning loops. */
module Uniformiser {
  import opened Sequences
  import opened Text

  /** What one scanning routine writes, and the text it leaves to be read. */
  datatype Scan = Scan(out: string, rest: string)

  /** The text after the first occurrence of a closing mark, or nothing. */
  function After(s: string, close: string): (r: string)
    requires close != ""
    ensures |r| <= |s|
    ensures s != "" ==> |r| < |s|
  {
    if s == "" then "" else if StartsWith(s, close) then s[|close|..] else After(s[1..], close)
  }

  /** Everything up to and including the next double quote. */
  function UntilQuote(s: string): (r: Scan)
    ensures r.out + r.rest == s
  {
    var n := Span(Quote, s);
    if n < |s| then Scan(s[..n + 1], s[n + 1..]) else Scan(s, "")
  }

  /** Up to the quote, and then the quote itself if there is one. */
  lemma QuoteSplits(written: string, s: string, n: nat)
    requires n == Span(Quote, s)
    ensures n < |s| ==> UntilQuote(s).rest == s[n..][1..] && written + UntilQuote(s).out == written + s[..n] + s[n..][..1]
    ensures n == |s| ==> UntilQuote(s) == Scan(s[..n], "")
  {
    hide Span;
    if n < |s| {
      NextTaken(s, n);
      Concat3(written, s[..n], s[n..][..1]);
    } else {
      assert s[..n] == s;
    }
  }

  lemma NextTaken(s: string, n: nat)
    requires n < |s|
    ensures s[..n + 1] == s[..n] + s[n..][..1] && s[n + 1..] == s[n..][1..]
  {
  }

  function ReadValue(s: string): (r: Scan)
    ensures |r.rest| <= |s|
  {
    var first := UntilQuote(SkipBlanks(s));
    var second := UntilQuote(first.rest);
    Scan(first.out + second.out, second.rest)
  }

  /** An attribute name with its value, or with a blank when it has none. */
  function ReadAttribute(s: string): (r: Scan)
    ensures |r.rest| <= |s|
    ensures s != "" && !Stops(NameEnd, s[0]) ==> |r.rest| < |s|
  {
    var n := Span(AttributeEnd, s);
    var u := SkipBlanks(s[n..]);
    if StartsWith(u, "=") then
      var v := ReadValue(u[1..]);
      Scan(s[..n] + "=" + v.out, v.rest)
    else
      Scan(s[..n] + " ", u)
  }

  /** What reading an attribute adds to what is written already. */
  lemma AttributeParts(written: string, s: string, name: string, u: string)
    requires name == s[..Span(AttributeEnd, s)] && u == SkipBlanks(s[Span(AttributeEnd, s)..])
    ensures StartsWith(u, "=") ==>
              ReadAttribute(s).rest == ReadValue(u[1..]).rest &&
              written + ReadAttribute(s).out == (written + name + "=") + ReadValue(u[1..]).out
    ensures !StartsWith(u, "=") ==>
              ReadAttribute(s).rest == u && written + ReadAttribute(s).out == written + name + " "
  {
    hide ReadValue, SkipBlanks;
    if StartsWith(u, "=") {
      Concat4(written, name, "=", ReadValue(u[1..]).out);
    } else {
      Concat3(written, name, " ");
    }
  }

  lemma SpacedParts(written: string, s: string, t: string, gap: string, spaced: string)
    requires t == SkipBlanks(s) && gap == (if s != "" && Blank(s[0]) then " " else "") && spaced == written + gap
    ensures ReadSpaced(s).rest == ReadAttribute(t).rest
    ensures written + ReadSpaced(s).out == spaced + ReadAttribute(t).out
  {
    hide ReadAttribute, SkipBlanks;
    GapShows(s);
    Concat3(written, gap, ReadAttribute(t).out);
  }

  lemma EqualsFirst(u: string)
    requires StartsWith(u, "=")
    ensures u[..1] == "="
  {
  }

  /** A blank if any were skipped, then one attribute. */
  function ReadSpaced(s: string): (r: Scan)
    ensures |r.rest| <= |s|
    ensures s != "" && !StartsWith(SkipBlanks(s), ">") ==> |r.rest| < |s|
  {
    var t := SkipBlanks(s);
    var a := ReadAttribute(t);
    Scan((if |t| < |s| then " " else "") + a.out, a.rest)
  }

  /** The attributes of an element, up to and including its '>'. */
  function ReadAttributes(s: string): (r: Scan)
    ensures |r.rest| <= |s|
    decreases |s|
  {
    if StartsWith(SkipBlanks(s), ">") then
      Scan(">", SkipBlanks(s)[1..])
    else
      var a := ReadSpaced(s);
      if a.rest == "" then a
      else Scan(a.out + ReadAttributes(a.rest).out, ReadAttributes(a.rest).rest)
  }

  /** What the attribute loop has written, and what it still has to read, make up its goal. */
  ghost predicate Towards(goal: Scan, written: string, rest: string, more: bool, closed: bool) {
    if more then goal == Scan(written + ReadAttributes(rest).out, ReadAttributes(rest).rest)
    else if closed then StartsWith(rest, ">") && goal == Scan(written + rest[..1], rest[1..])
    else rest == "" && goal == Scan(written, "")
  }

  lemma AttributesTurn(goal: Scan, written: string, s: string)
    requires Towards(goal, written, s, true, false)
    ensures StartsWith(SkipBlanks(s), ">") ==> Towards(goal, written, SkipBlanks(s), false, true)
    ensures !StartsWith(SkipBlanks(s), ">") ==>
              Towards(goal, written + ReadSpaced(s).out, ReadSpaced(s).rest, ReadSpaced(s).rest != "", false)
  {
    var a := ReadSpaced(s);
    AttributesUnfold(s);
    hide ReadAttributes, ReadSpaced, SkipBlanks;
    if StartsWith(SkipBlanks(s), ">") {
      assert SkipBlanks(s)[..1] == ">";
    } else {
      Concat3(written, a.out, ReadAttributes(a.rest).out);
    }
  }

  lemma AttributesUnfold(s: string)
    ensures StartsWith(SkipBlanks(s), ">") ==> ReadAttributes(s) == Scan(">", SkipBlanks(s)[1..])
    ensures !StartsWith(SkipBlanks(s), ">") && ReadSpaced(s).rest == "" ==> ReadAttributes(s) == ReadSpaced(s)
    ensures !StartsWith(SkipBlanks(s), ">") && ReadSpaced(s).rest != "" ==>
              ReadAttributes(s).out == ReadSpaced(s).out + ReadAttributes(ReadSpaced(s).rest).out &&
              ReadAttributes(s).rest == ReadAttributes(ReadSpaced(s).rest).rest
  {
    hide ReadSpaced, SkipBlanks;
  }

  /** A blank was skipped exactly when the text got shorter. */
  lemma GapShows(s: string)
    ensures |SkipBlanks(s)| < |s| <==> s != "" && Blank(s[0])
    ensures |SkipBlanks(s)| == |s| ==> SkipBlanks(s) == s
  {
  }

  function ReadElement(s: string): (r: Scan)
    ensures |r.rest| <= |s|
    ensures s != "" && !Stops(NameEnd, s[0]) ==> |r.rest| < |s|
  {
    var n := Span(NameEnd, s);
    var a := ReadAttributes(s[n..]);
    Scan(s[..n] + a.out, a.rest)
  }

  function ReadContent(s: string): Scan {
    var n := Span(Open, s);
    Scan(TrimRight(s[..n]), s[n..])
  }

  /** One turn of the main loop. */
  function Turn(s: string): (r: Scan)
    requires s != ""
    ensures |r.rest| < |s|
  {
    var t := SkipBlanks(s);
    if StartsWith(t, "<?") then Scan("", After(t, "?>"))
    else if StartsWith(t, "<!--") then Scan("", After(t, "-->"))
    else if StartsWith(t, "<") then ReadElement(t)
    else ReadContent(t)
  }

  /** The uniformised form of a text. */
  function Strip(s: string): string
    decreases |s|
  {
    if s == "" then "" else
    var turn := Turn(s);
    turn.out + Strip(turn.rest)
  }

  /** The buffer may be trimmed at its end without losing what was written before. */
  predicate Settled(s: string) { s != "" ==> !Blank(s[|s| - 1]) }

  /** Trims the end but never the character at index 0. */
  function TrimTail(s: string): string {
    if |s| > 1 && Blank(s[|s| - 1]) then TrimTail(s[..|s| - 1]) else s
  }

  /** The first character stays even if it is a blank. */
  lemma {:induction false} TrimTailExactly(s: string)
    requires s != ""
    ensures TrimTail(s) == s[..1] + TrimRight(s[1..])
  {
    if |s| > 1 && Blank(s[|s| - 1]) {
      TrimTailExactly(s[..|s| - 1]);
      assert s[..|s| - 1][..1] == s[..1] && s[..|s| - 1][1..] == s[1..][..|s[1..]| - 1];
    } else {
      assert s == s[..1] + s[1..];
    }
  }

  lemma {:induction false} TrimTailOfContent(a: string, c: string)
    requires Settled(a)
    requires c != "" ==> !Blank(c[0])
    ensures TrimTail(a + c) == a + TrimRight(c)
    decreases |c|
  {
    if c == "" {
      assert a + c == a;
    } else if Blank(c[|c| - 1]) {
      assert (a + c)[..|a + c| - 1] == a + c[..|c| - 1];
      TrimTailOfContent(a, c[..|c| - 1]);
    }
  }

  class XmlUniformiser {
    const xml: string
    var index: nat
    var stripped: string

    ghost predicate Valid() reads this { index <= |xml| }

    ghost function Rest(): string
      requires Valid()
      reads this
    {
      xml[index..]
    }

    constructor (xml: string)
      ensures Valid() && this.xml == xml && Rest() == xml && stripped == ""
    {
      this.xml := xml;
      index := 0;
      stripped := "";
    }

    predicate IsValidIndex() reads this { index < |xml| }

    predicate IsSpace() reads this { IsValidIndex() && Blank(xml[index]) }

    /** The comparison with substr, which throws past the end of the text. */
    predicate AtMark(expected: string)
      requires Valid()
      reads this
    {
      StartsWith(xml[index..], expected)
    }

    method SkipNext(count: nat)
      requires index + count <= |xml|
      modifies this`index
      ensures Valid() && Rest() == old(Rest())[count..]
    {
      var n: int := count;
      while n > 0
        invariant 0 <= n <= count && index + n == old(index) + count
      {
        index := index + 1;
        n := n - 1;
      }
    }

    method CopyNext()
      requires Valid()
      modifies this
      ensures Valid()
      ensures if old(IsValidIndex()) then
                Rest() == old(Rest())[1..] && stripped == old(stripped) + old(Rest())[..1]
              else
                Rest() == "" && stripped == old(stripped)
    {
      if IsValidIndex() {
        stripped := stripped + [xml[index]];
        index := index + 1;
      }
    }

    method SkipSpaces()
      requires Valid()
      modifies this`index
      ensures Valid() && Rest() == SkipBlanks(old(Rest()))
    {
      while IsSpace()
        invariant Valid() && SkipBlanks(Rest()) == SkipBlanks(old(Rest()))
        decreases |xml| - index
      {
        SkipBlanksPrefix(Rest()[..1], Rest()[1..]);
        assert Rest()[..1] + Rest()[1..] == Rest();
        SkipNext(1);
      }
      SpanIs(NonBlank, Rest(), 0);
    }

    method SkipPast(close: string)
      requires Valid() && close != ""
      modifies this`index
      ensures Valid() && Rest() == After(old(Rest()), close)
    {
      while IsValidIndex() && !AtMark(close)
        invariant Valid() && After(Rest(), close) == After(old(Rest()), close)
        decreases |xml| - index
      {
        SkipNext(1);
      }
      if IsValidIndex() {
        SkipNext(|close|);
      }
    }

    method SkipProcessed()
      requires Valid()
      modifies this`index
      ensures Valid() && Rest() == After(old(Rest()), "?>")
    {
      SkipPast("?>");
    }

    method SkipComment()
      requires Valid()
      modifies this`index
      ensures Valid() && Rest() == After(old(Rest()), "-->")
    {
      SkipPast("-->");
    }

    /** The loop that copies up to a stopping character, shared by the four copying routines. */
    method CopyUntil(m: Mark)
      requires Valid()
      modifies this
      ensures Valid()
      ensures var n := Span(m, old(Rest()));
              Rest() == old(Rest())[n..] && stripped == old(stripped) + old(Rest())[..n]
    {
      ghost var all := Rest();
      ghost var k := 0;
      assert all[..0] == "";
      while IsValidIndex() && !Stops(m, xml[index])
        invariant Valid() && index == old(index) + k && k <= |all| && Rest() == all[k..]
        invariant forall i :: 0 <= i < k ==> !Stops(m, all[i])
        invariant stripped == old(stripped) + all[..k]
        decreases |xml| - index
      {
        assert xml[index] == all[k];
        assert all[..k + 1] == all[..k] + all[k..][..1];
        CopyNext();
        k := k + 1;
      }
      SpanIs(m, all, k);
    }

    method CopyUntilDoubleQuote()
      requires Valid()
      modifies this
      ensures Valid() && Rest() == UntilQuote(old(Rest())).rest
      ensures stripped == old(stripped) + UntilQuote(old(Rest())).out
    {
      QuoteSplits(stripped, Rest(), Span(Quote, Rest()));
      hide Span, UntilQuote;
      CopyUntil(Quote);
      CopyNext();
    }

    method CopyAttributeValue()
      requires Valid()
      modifies this
      ensures Valid() && Rest() == ReadValue(old(Rest())).rest
      ensures stripped == old(stripped) + ReadValue(old(Rest())).out
    {
      ghost var first := UntilQuote(SkipBlanks(Rest()));
      ghost var second := UntilQuote(first.rest);
      assert ReadValue(Rest()) == Scan(first.out + second.out, second.rest);
      hide UntilQuote, ReadValue, SkipBlanks;
      Concat3(stripped, first.out, second.out);
      SkipSpaces();
      CopyUntilDoubleQuote();
      CopyUntilDoubleQuote();
    }

    /** One name with its value: the tail of the do-while body. */
    method CopyAttribute()
      requires Valid()
      modifies this
      ensures Valid() && Rest() == ReadAttribute(old(Rest())).rest
      ensures stripped == old(stripped) + ReadAttribute(old(Rest())).out
    {
      ghost var s := Rest();
      ghost var name, u := s[..Span(AttributeEnd, s)], SkipBlanks(s[Span(AttributeEnd, s)..]);
      AttributeParts(stripped, s, name, u);
      hide ReadValue, ReadAttribute, SkipBlanks, Span;
      CopyUntil(AttributeEnd);
      SkipSpaces();
      assert Rest() == u && stripped == old(stripped) + name;
      if AtMark("=") {
        EqualsFirst(u);
        CopyNext();
        assert Rest() == u[1..] && stripped == old(stripped) + name + "=";
        CopyAttributeValue();
      } else {
        stripped := stripped + " ";
      }
    }

    /** One turn of the do-while loop; it ends the loop at '>' or at the end of the text. */
    method CopySpacedAttribute() returns (closed: bool)
      requires Valid()
      modifies this
      ensures Valid() && closed == StartsWith(SkipBlanks(old(Rest())), ">")
      ensures closed ==> Rest() == SkipBlanks(old(Rest())) && stripped == old(stripped)
      ensures !closed ==> Rest() == ReadSpaced(old(Rest())).rest
      ensures !closed ==> stripped == old(stripped) + ReadSpaced(old(Rest())).out
    {
      hide ReadAttribute, ReadSpaced, SkipBlanks;
      ghost var s, written := Rest(), stripped;
      var hadSpace := IsSpace();
      SkipSpaces();
      if AtMark(">") {
        return true;
      }
      ghost var gap := if hadSpace then " " else "";
      if hadSpace {
        stripped := stripped + " ";
      }
      ghost var spaced := stripped;
      assert spaced == written + gap;
      CopyAttribute();
      SpacedParts(written, s, SkipBlanks(s), gap, spaced);
      closed := false;
    }

    method CopyElementAttributes()
      requires Valid()
      modifies this
      ensures Valid() && Rest() == ReadAttributes(old(Rest())).rest
      ensures stripped == old(stripped) + ReadAttributes(old(Rest())).out
      ensures IsValidIndex() ==> Settled(stripped)
    {
      ghost var goal := Scan(stripped + ReadAttributes(Rest()).out, ReadAttributes(Rest()).rest);
      var more, closed := true, false;
      while more
        invariant Valid() && Towards(goal, stripped, Rest(), more, closed)
        decreases more, |xml| - index
      {
        AttributesTurn(goal, stripped, Rest());
        closed := CopySpacedAttribute();
        more := !closed && IsValidIndex();
      }
      CopyNext();
    }

    method CopyElement()
      requires Valid()
      modifies this
      ensures Valid() && Rest() == ReadElement(old(Rest())).rest
      ensures stripped == old(stripped) + ReadElement(old(Rest())).out
      ensures IsValidIndex() ==> Settled(stripped)
    {
      ghost var s := Rest();
      ghost var n := Span(NameEnd, s);
      CopyUntil(NameEnd);
      CopyElementAttributes();
      Concat3(old(stripped), s[..n], ReadAttributes(s[n..]).out);
    }

    method RemoveTrailingSpaces()
      modifies this`stripped
      ensures stripped == TrimTail(old(stripped))
    {
      var n: int := |stripped|;
      assert stripped[..n] == stripped;
      while n - 1 > 0 && Blank(stripped[n - 1])
        invariant n <= |stripped| && (n == |stripped| || n >= 1)
        invariant TrimTail(stripped[..n]) == TrimTail(stripped)
      {
        assert stripped[..n][..n - 1] == stripped[..n - 1];
        n := n - 1;
      }
      stripped := stripped[..n];
    }

    method CopyElementContent()
      requires Valid() && Settled(stripped) && !IsSpace()
      modifies this
      ensures Valid() && Rest() == ReadContent(old(Rest())).rest
      ensures stripped == old(stripped) + ReadContent(old(Rest())).out
      ensures Settled(stripped)
    {
      TrimTailOfContent(stripped, Rest()[..Span(Open, Rest())]);
      CopyUntil(Open);
      RemoveTrailingSpaces();
    }

    /** One turn of the main loop. */
    method CopyTurn()
      requires Valid() && IsValidIndex() && Settled(stripped)
      modifies this
      ensures Valid() && Rest() == Turn(old(Rest())).rest
      ensures stripped == old(stripped) + Turn(old(Rest())).out
      ensures IsValidIndex() ==> Settled(stripped)
    {
      SkipSpaces();
      if AtMark("<?") {
        SkipProcessed();
      } else if AtMark("<!--") {
        SkipComment();
      } else if AtMark("<") {
        CopyElement();
      } else {
        CopyElementContent();
      }
    }

    /** Whatever the text, the scan ends and its buffer holds the uniformised form. */
    method Stripped() returns (r: string)
      requires Valid() && index == 0 && stripped == ""
      modifies this
      ensures r == stripped == Strip(xml)
    {
      while IsValidIndex()
        invariant Valid() && stripped + Strip(Rest()) == Strip(xml)
        invariant IsValidIndex() ==> Settled(stripped)
        decreases |xml| - index
      {
        Concat3(stripped, Turn(Rest()).out, Strip(Turn(Rest()).rest));
        CopyTurn();
      }
      r := stripped;
    }
  }
}
