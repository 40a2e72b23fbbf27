/** What uniformising makes of marked-up text of any layout, piece by piece. */
module Markup {
  import opened Sequences
  import opened Text
  import opened Uniformiser
  import opened Idempotence
  import opened PrintAndStrip

  predicate Occurs(mark: string, s: string) { exists i :: 0 <= i <= |s| && mark <= s[i..] }

  /** An attribute as it may be written: blanks in front, a name, and perhaps a value between double quotes. */
  datatype WrittenAttribute =
    | Bare(gap: string, name: string)
    | Valued(gap: string, name: string, before: string, after: string, unquoted: string, value: string)

  datatype Piece =
    | Instruction(body: string)
    | Comment(body: string)
    | Tag(name: string, attributes: seq<WrittenAttribute>, gap: string)
    | Content(text: string)

  // ---------- as it is written ----------

  function WrittenBehindGap(a: WrittenAttribute): string {
    match a
    case Bare(_, name) => name
    case Valued(_, name, before, after, unquoted, value) =>
      name + (before + ("=" + (after + (unquoted + ("\"" + (value + "\""))))))
  }

  /** The attributes and the end of the tag. The first gap is left out when it has been read already. */
  function WrittenAttributes(attributes: seq<WrittenAttribute>, gap: string, read: bool): string {
    if attributes == [] then (if read then "" else gap) + ">"
    else (if read then "" else attributes[0].gap) +
         (WrittenBehindGap(attributes[0]) + WrittenAttributes(attributes[1..], gap, false))
  }

  function Written(p: Piece): string {
    match p
    case Instruction(body) => "<?" + body + "?>"
    case Comment(body) => "<!--" + body + "-->"
    case Tag(name, attributes, gap) => "<" + name + WrittenAttributes(attributes, gap, false)
    case Content(text) => text
  }

  function WrittenAll(ps: seq<Piece>): string {
    if ps == [] then "" else Written(ps[0]) + WrittenAll(ps[1..])
  }

  // ---------- as it is uniformised ----------

  /** A value stands directly behind its '='; an attribute without one has a blank instead, which takes up the next gap. */
  function Uniform(a: WrittenAttribute, read: bool): string {
    (if a.gap == "" || read then "" else " ") +
    match a
    case Bare(_, name) => name + " "
    case Valued(_, name, _, _, unquoted, value) => name + ("=" + (unquoted + ("\"" + (value + "\""))))
  }

  function UniformAttributes(attributes: seq<WrittenAttribute>, read: bool): string {
    if attributes == [] then ">"
    else Uniform(attributes[0], read) + UniformAttributes(attributes[1..], attributes[0].Bare?)
  }

  /** Instructions and comments vanish, contents are trimmed. */
  function UniformPiece(p: Piece): string {
    match p
    case Instruction(_) => ""
    case Comment(_) => ""
    case Tag(name, attributes, _) => "<" + name + UniformAttributes(attributes, false)
    case Content(text) => Trim(text)
  }

  function UniformAll(ps: seq<Piece>): string {
    if ps == [] then "" else UniformPiece(ps[0]) + UniformAll(ps[1..])
  }

  // ---------- which pieces are meant ----------

  predicate WellWritten(a: WrittenAttribute) {
    AllBlank(a.gap) && a.name != "" && AttributeNameSafe(a.name) &&
    (a.Valued? ==>
       AllBlank(a.before) && AllBlank(a.after) && '"' !in a.unquoted && '"' !in a.value &&
       (a.unquoted != "" ==> !Blank(a.unquoted[0])))
  }

  /** Names are set apart by blanks; a closing quote sets apart by itself. */
  predicate AllWellWritten(attributes: seq<WrittenAttribute>, apart: bool) {
    attributes == [] ||
    (WellWritten(attributes[0]) && (apart ==> attributes[0].gap != "") &&
     AllWellWritten(attributes[1..], attributes[0].Bare?))
  }

  /** An instruction and a comment end at the first mark that closes them. */
  predicate WellFormed(p: Piece) {
    match p
    case Instruction(body) => !Occurs("?>", "<?" + body + "?")
    case Comment(body) => !Occurs("-->", "<!--" + body + "--")
    case Tag(name, attributes, gap) => ElementNameSafe(name) && AllWellWritten(attributes, true) && AllBlank(gap)
    case Content(text) => '<' !in text
  }

  /** Contents are separated by other pieces. */
  predicate AllWellFormed(ps: seq<Piece>) {
    ps == [] ||
    (WellFormed(ps[0]) && (ps[0].Content? && |ps| > 1 ==> !ps[1].Content?) && AllWellFormed(ps[1..]))
  }

  // ---------- instructions and comments ----------

  lemma NotInside(s: string, close: string, y: string)
    requires close != "" && s != "" && !Occurs(close, s + close[..|close| - 1])
    ensures !StartsWith(s + (close + y), close)
    ensures !Occurs(close, s[1..] + close[..|close| - 1])
  {
    var t := s + close[..|close| - 1];
    var t' := s[1..] + close[..|close| - 1];
    assert t[0..] == t && t[1..] == t';
    assert !(close <= t[0..]);
    assert (s + (close + y))[..|close|] == t[..|close|];
    forall i | 0 <= i <= |t'|
      ensures !(close <= t'[i..])
    {
      assert t'[i..] == t[i + 1..];
    }
  }

  lemma {:induction false} AfterMark(s: string, close: string, y: string)
    requires close != "" && !Occurs(close, s + close[..|close| - 1])
    ensures After(s + (close + y), close) == y
  {
    var all := s + (close + y);
    if s == "" {
      assert all == close + y;
      Cut(close, y);
    } else {
      NotInside(s, close, y);
      assert all[1..] == s[1..] + (close + y);
      AfterMark(s[1..], close, y);
    }
  }

  /** Without the closing mark nothing of the rest is left. */
  lemma {:induction false} NoMarkLeavesNothing(s: string, close: string)
    requires close != "" && !Occurs(close, s)
    ensures After(s, close) == ""
  {
    if s != "" {
      assert s[0..] == s;
      forall i | 0 <= i <= |s[1..]|
        ensures !(close <= s[1..][i..])
      {
        assert s[1..][i..] == s[i + 1..];
      }
      NoMarkLeavesNothing(s[1..], close);
    }
  }

  lemma SilentPiece(s: string, rest: string)
    requires (StartsWith(s, "<?") && After(s, "?>") == rest) || (StartsWith(s, "<!--") && After(s, "-->") == rest)
    ensures Strip(s) == Strip(rest)
  {
    hide After;
    assert s[0] == '<';
    SkipNothing(s);
    assert StartsWith(s, "<!--") ==> s[1] == '!';
    assert Turn(s) == Scan("", rest);
    Unfold(s, Scan("", rest));
  }

  lemma StripInstruction(body: string, y: string)
    requires !Occurs("?>", "<?" + body + "?")
    ensures Strip("<?" + body + "?>" + y) == Strip(y)
  {
    hide Strip, Occurs;
    assert "?>"[..1] == "?";
    Concat3("<?" + body, "?>", y);
    Concat3("<?", body, "?>" + y);
    AfterMark("<?" + body, "?>", y);
    SilentPiece("<?" + body + "?>" + y, y);
  }

  /** A comment in front of any text leaves no trace. */
  lemma StripComment(body: string, y: string)
    requires !Occurs("-->", "<!--" + body + "--")
    ensures Strip("<!--" + body + "-->" + y) == Strip(y)
  {
    hide Strip, Occurs;
    assert "-->"[..2] == "--";
    Concat3("<!--" + body, "-->", y);
    Concat3("<!--", body, "-->" + y);
    AfterMark("<!--" + body, "-->", y);
    SilentPiece("<!--" + body + "-->" + y, y);
  }

  /** One that is not closed takes everything with it. */
  lemma UnclosedComment(body: string)
    requires !Occurs("-->", "<!--" + body)
    ensures Strip("<!--" + body) == ""
  {
    hide Occurs;
    NoMarkLeavesNothing("<!--" + body, "-->");
    SilentPiece("<!--" + body, "");
  }

  lemma UnclosedInstruction(body: string)
    requires !Occurs("?>", "<?" + body)
    ensures Strip("<?" + body) == ""
  {
    hide Occurs;
    NoMarkLeavesNothing("<?" + body, "?>");
    SilentPiece("<?" + body, "");
  }

  // ---------- tags ----------

  lemma FirstAttribute(a: WrittenAttribute, rest: string)
    requires WellWritten(a)
    ensures SkipBlanks(a.gap + (WrittenBehindGap(a) + rest)) == WrittenBehindGap(a) + rest
    ensures SkipBlanks(WrittenBehindGap(a) + rest) == WrittenBehindGap(a) + rest
    ensures !StartsWith(WrittenBehindGap(a) + rest, ">")
  {
    var behind := if a.Bare? then "" else WrittenBehindGap(a)[|a.name|..];
    assert WrittenBehindGap(a) == a.name + behind;
    Concat3(a.name, behind, rest);
    GapSkipped(a.gap, a.name, behind + rest);
  }

  /** Behind a gap an attribute is found, and not the end of the tag. */
  lemma GapSkipped(gap: string, name: string, more: string)
    requires AllBlank(gap) && name != "" && AttributeNameSafe(name)
    ensures SkipBlanks(gap + (name + more)) == name + more && SkipBlanks(name + more) == name + more
    ensures !StartsWith(name + more, ">")
  {
    SpanStops(AttributeEnd, name);
    assert (name + more)[0] == name[0] && !Stops(AttributeEnd, name[0]);
    SkipBlanksPrefix(gap, name + more);
    SkipNothing(name + more);
  }

  /** Everything through the second quote is the value. */
  lemma ValueRead(after: string, unquoted: string, value: string, rest: string)
    requires AllBlank(after) && '"' !in unquoted && '"' !in value && (unquoted != "" ==> !Blank(unquoted[0]))
    ensures ReadValue(after + (unquoted + ("\"" + (value + ("\"" + rest))))) == Scan(unquoted + ("\"" + (value + "\"")), rest)
  {
    var behind := value + ("\"" + rest);
    var t := unquoted + ("\"" + behind);
    SkipBlanksPrefix(after, t);
    assert t[0] == if unquoted == "" then '"' else unquoted[0];
    SkipNothing(t);
    QuoteReached(unquoted, behind);
    QuoteReached(value, rest);
    Concat3(unquoted, "\"", value + "\"");
    hide UntilQuote, SkipBlanks;
  }

  lemma ValuedNested(a: WrittenAttribute, rest: string)
    requires a.Valued?
    ensures WrittenBehindGap(a) + rest ==
            a.name + (a.before + ("=" + (a.after + (a.unquoted + ("\"" + (a.value + ("\"" + rest)))))))
  {
    var v1 := a.value + "\"";
    var v2 := a.unquoted + ("\"" + v1);
    var v3 := a.after + v2;
    Concat3(a.value, "\"", rest);
    Concat3("\"", v1, rest);
    Concat3(a.unquoted, "\"" + v1, rest);
    Concat3(a.after, v2, rest);
    Concat3("=", v3, rest);
    Concat3(a.before, "=" + v3, rest);
    Concat3(a.name, a.before + ("=" + v3), rest);
  }

  lemma ValuedRead(a: WrittenAttribute, rest: string)
    requires WellWritten(a) && a.Valued?
    ensures ReadAttribute(WrittenBehindGap(a) + rest) == Scan(Uniform(a, true), rest)
  {
    var value := a.after + (a.unquoted + ("\"" + (a.value + ("\"" + rest))));
    var shown := a.unquoted + ("\"" + (a.value + "\""));
    ValuedNested(a, rest);
    ValueRead(a.after, a.unquoted, a.value, rest);
    assert Uniform(a, true) == a.name + ("=" + shown);
    hide ReadValue, Uniform, WrittenBehindGap;
    AssignedRead(a.name, a.before, value, Scan(shown, rest));
  }

  /** A name, blanks, and '='. */
  lemma AssignedRead(name: string, before: string, value: string, v: Scan)
    requires AttributeNameSafe(name) && AllBlank(before) && ReadValue(value) == v
    ensures ReadAttribute(name + (before + ("=" + value))) == Scan(name + ("=" + v.out), v.rest)
  {
    var more := before + ("=" + value);
    assert more[0] == if before == "" then '=' else before[0];
    NameRead(name, more);
    SkipBlanksPrefix(before, "=" + value);
    SkipNothing("=" + value);
    Cut("=", value);
    hide ReadValue, SkipBlanks, Span;
    AttributeParts("", name + more, name, "=" + value);
    Concat3(name, "=", v.out);
    assert "" + ReadAttribute(name + more).out == ReadAttribute(name + more).out && "" + name == name;
  }

  lemma BareRead(name: string, more: string, u: string)
    requires AttributeNameSafe(name) && more != "" && Stops(NameEnd, more[0])
    requires u == SkipBlanks(more) && !StartsWith(u, "=")
    ensures ReadAttribute(name + more) == Scan(name + " ", u)
  {
    NameRead(name, more);
    hide SkipBlanks, Span;
    AttributeParts("", name + more, name, u);
    assert "" + ReadAttribute(name + more).out == ReadAttribute(name + more).out && "" + name == name;
  }

  /** What follows a name: a gap or the end of the tag. */
  lemma BehindName(attributes: seq<WrittenAttribute>, gap: string, y: string)
    requires AllWellWritten(attributes, true) && AllBlank(gap)
    ensures WrittenAttributes(attributes, gap, false) != ""
    ensures Stops(NameEnd, WrittenAttributes(attributes, gap, false)[0])
    ensures SkipBlanks(WrittenAttributes(attributes, gap, false) + y) == WrittenAttributes(attributes, gap, true) + y
    ensures !StartsWith(WrittenAttributes(attributes, gap, true) + y, "=")
  {
    if attributes == [] {
      EndOfTag(gap, y);
      assert "" + ">" == ">";
    } else {
      var a := attributes[0];
      var w := WrittenBehindGap(a);
      var more := WrittenAttributes(attributes[1..], gap, false);
      NamesFirst(a);
      FirstAttribute(a, more + y);
      hide WrittenBehindGap, WrittenAttributes, SkipBlanks;
      AttributesWritten(attributes, gap);
      Concat3(a.gap, w + more, y);
      Concat3(w, more, y);
      assert (w + (more + y))[0] == w[0];
    }
  }

  lemma NamesFirst(a: WrittenAttribute)
    requires WellWritten(a)
    ensures WrittenBehindGap(a) != "" && !Stops(AttributeEnd, WrittenBehindGap(a)[0]) && WrittenBehindGap(a)[0] != '='
  {
    SpanStops(AttributeEnd, a.name);
    assert WrittenBehindGap(a)[0] == a.name[0];
  }

  lemma AttributesWritten(attributes: seq<WrittenAttribute>, gap: string)
    requires attributes != []
    ensures var inner := WrittenBehindGap(attributes[0]) + WrittenAttributes(attributes[1..], gap, false);
            WrittenAttributes(attributes, gap, false) == attributes[0].gap + inner && WrittenAttributes(attributes, gap, true) == inner
  {
    var inner := WrittenBehindGap(attributes[0]) + WrittenAttributes(attributes[1..], gap, false);
    assert "" + inner == inner;
  }

  lemma EndOfTag(gap: string, y: string)
    requires AllBlank(gap)
    ensures SkipBlanks(gap + ">" + y) == ">" + y
  {
    Concat3(gap, ">", y);
    SkipBlanksPrefix(gap, ">" + y);
    SkipNothing(">" + y);
  }

  /** The attributes of a tag, in front of any text. */
  lemma {:induction false} AttributesRead(attributes: seq<WrittenAttribute>, gap: string, read: bool, apart: bool, y: string)
    requires AllWellWritten(attributes, apart) && AllBlank(gap)
    ensures ReadAttributes(WrittenAttributes(attributes, gap, read) + y) == Scan(UniformAttributes(attributes, read), y)
    decreases attributes
  {
    hide SkipBlanks, ReadAttributes, ReadSpaced, ReadAttribute, WrittenBehindGap, Uniform, WellWritten;
    if attributes == [] {
      EndOfTag(if read then "" else gap, y);
      AttributesUnfold((if read then "" else gap) + ">" + y);
      Cut(">", y);
    } else {
      var a, bare := attributes[0], attributes[0].Bare?;
      var more := WrittenAttributes(attributes[1..], gap, false) + y;
      AttributesRead(attributes[1..], gap, bare, bare, y);
      AttributeRead(a, attributes[1..], gap, y);
      AttributesWritten(attributes, gap);
      TwiceBehind(if read then "" else a.gap, WrittenBehindGap(a), WrittenAttributes(attributes[1..], gap, false), y);
      SpacedRead(a, read, more, WrittenAttributes(attributes[1..], gap, bare) + y);
      NeverEmpty(attributes[1..], gap, bare, y);
      hide WrittenAttributes, UniformAttributes;
      UniformUnfold(attributes, read);
      AttributesUnfold((if read then "" else a.gap) + (WrittenBehindGap(a) + more));
      assert "" + (WrittenBehindGap(a) + more) == WrittenBehindGap(a) + more;
    }
  }

  lemma TwiceBehind(g: string, w: string, more: string, y: string)
    ensures (g + (w + more)) + y == g + (w + (more + y))
    ensures (w + more) + y == w + (more + y)
    ensures g == "" ==> g + (w + more) == w + more
  {
  }

  lemma UniformUnfold(attributes: seq<WrittenAttribute>, read: bool)
    requires attributes != []
    ensures UniformAttributes(attributes, read) ==
            Uniform(attributes[0], read) + UniformAttributes(attributes[1..], attributes[0].Bare?)
  {
  }

  lemma NeverEmpty(attributes: seq<WrittenAttribute>, gap: string, read: bool, y: string)
    ensures WrittenAttributes(attributes, gap, read) + y != ""
  {
    if attributes != [] {
      NeverEmpty(attributes[1..], gap, false, y);
    }
  }

  /** One attribute without its gap: behind a name without value the next gap is read too. */
  lemma AttributeRead(a: WrittenAttribute, others: seq<WrittenAttribute>, gap: string, y: string)
    requires WellWritten(a) && AllWellWritten(others, a.Bare?) && AllBlank(gap)
    ensures ReadAttribute(WrittenBehindGap(a) + (WrittenAttributes(others, gap, false) + y)) ==
            Scan(Uniform(a, true), WrittenAttributes(others, gap, a.Bare?) + y)
  {
    var more := WrittenAttributes(others, gap, false) + y;
    if a.Bare? {
      BehindName(others, gap, y);
      hide ReadAttribute, WrittenAttributes, SkipBlanks;
      BareRead(a.name, more, WrittenAttributes(others, gap, true) + y);
      assert "" + (a.name + " ") == a.name + " ";
    } else {
      hide ReadAttribute, WrittenAttributes, Uniform, WrittenBehindGap;
      ValuedRead(a, more);
    }
  }

  lemma SpacedRead(a: WrittenAttribute, read: bool, more: string, rest: string)
    requires WellWritten(a) && ReadAttribute(WrittenBehindGap(a) + more) == Scan(Uniform(a, true), rest)
    ensures var s := (if read then "" else a.gap) + (WrittenBehindGap(a) + more);
            ReadSpaced(s) == Scan(Uniform(a, read), rest) && !StartsWith(SkipBlanks(s), ">")
  {
    hide ReadAttribute, ReadSpaced, WrittenBehindGap, Uniform, SkipBlanks, WellWritten;
    var t := WrittenBehindGap(a) + more;
    FirstAttribute(a, more);
    UniformGap(a, read);
    assert "" + t == t;
    GapRead(if read then "" else a.gap, t, Scan(Uniform(a, true), rest));
  }

  lemma GapRead(gap: string, t: string, r: Scan)
    requires SkipBlanks(gap + t) == t && ReadAttribute(t) == r
    ensures ReadSpaced(gap + t) == Scan((if gap == "" then "" else " ") + r.out, r.rest)
  {
    hide ReadAttribute, SkipBlanks;
  }

  lemma UniformGap(a: WrittenAttribute, read: bool)
    ensures Uniform(a, read) == (if a.gap == "" || read then "" else " ") + Uniform(a, true)
  {
    var shown := match a
      case Bare(_, name) => name + " "
      case Valued(_, name, _, _, unquoted, value) => name + ("=" + (unquoted + ("\"" + (value + "\""))));
    assert "" + shown == shown;
  }

  lemma TagNameFound(name: string, more: string)
    requires ElementNameSafe(name) && more != "" && Stops(NameEnd, more[0])
    ensures AtElement("<" + name + more) && Span(NameEnd, "<" + name + more) == |name| + 1
  {
    TagNameEnds(name, more);
    TagBegins(name, more);
    hide AtElement, Span;
  }

  lemma TagNameEnds(name: string, more: string)
    requires Span(NameEnd, name) == |name| && more != "" && Stops(NameEnd, more[0])
    ensures Span(NameEnd, "<" + name + more) == |name| + 1
  {
    var s := "<" + name + more;
    SpanStops(NameEnd, name);
    hide Span;
    assert s[0] == '<' && s[|name| + 1] == more[0];
    assert forall i :: 1 <= i < 1 + |name| ==> s[i] == name[i - 1];
    SpanIs(NameEnd, s, |name| + 1);
  }

  lemma TagBegins(name: string, more: string)
    requires !StartsWith(name, "?") && !StartsWith(name, "!--") && more != "" && Stops(NameEnd, more[0])
    ensures AtElement("<" + name + more)
  {
    var s := "<" + name + more;
    assert |name| >= 1 ==> name[..1] == [name[0]];
    assert |name| >= 3 ==> name[..3] == [name[0], name[1], name[2]];
    assert s[0] == '<' && s[|name| + 1] == more[0];
    assert forall i :: 0 <= i < |name| ==> s[i + 1] == name[i];
  }

  lemma StripWrittenTag(name: string, attributes: seq<WrittenAttribute>, gap: string, y: string)
    requires WellFormed(Tag(name, attributes, gap))
    ensures Strip(Written(Tag(name, attributes, gap)) + y) == UniformPiece(Tag(name, attributes, gap)) + Strip(y)
  {
    var list, out := WrittenAttributes(attributes, gap, false), UniformAttributes(attributes, false);
    BehindName(attributes, gap, y);
    AttributesRead(attributes, gap, false, true, y);
    hide WrittenAttributes, UniformAttributes, ReadAttributes, AtElement, Span, Strip, Turn, SkipBlanks;
    TagNameFound(name, list + y);
    Concat3("<" + name, list, y);
    Cut("<" + name, list + y);
    ElementTurn("<" + name + (list + y));
    Unfold("<" + name + (list + y), Scan("<" + name + out, y));
  }

  // ---------- whole texts ----------

  lemma StripEndingText(d: string)
    requires '<' !in d
    ensures Strip(d) == Trim(d)
  {
    var k := Span(NonBlank, d);
    SpanStops(NonBlank, d);
    assert d == d[..k] + d[k..];
    assert AllBlank(d[..k]) && SkipBlanks(d) == d[k..];
    StripBlanks(d[..k], d[k..]);
    hide Strip, TrimRight, Span, AllBlank, SkipBlanks;
    StripEndingWord(d[k..]);
  }

  lemma StripEndingWord(w: string)
    requires w != "" ==> !Blank(w[0])
    requires '<' !in w
    ensures Strip(w) == TrimRight(w)
  {
    hide Strip, TrimRight, Turn;
    StripNothing();
    if w == "" {
      TrimNothing();
    } else {
      assert w + "" == w && TrimRight(w) + "" == TrimRight(w);
      ContentTurn(w, "");
      Unfold(w, Scan(TrimRight(w), ""));
    }
  }

  lemma StripNothing()
    ensures Strip("") == ""
  {
  }

  lemma StripPiece(p: Piece, y: string)
    requires WellFormed(p) && (p.Content? && y != "" ==> y[0] == '<')
    ensures Strip(Written(p) + y) == UniformPiece(p) + Strip(y)
  {
    hide Strip, Trim, WrittenAttributes, UniformAttributes;
    match p
    case Instruction(body) => StripInstruction(body, y);
    case Comment(body) => StripComment(body, y);
    case Tag(name, attributes, gap) => StripWrittenTag(name, attributes, gap, y);
    case Content(text) =>
      if y == "" {
        assert text + "" == text && Trim(text) + "" == Trim(text);
        StripEndingText(text);
        StripNothing();
      } else {
        StripText(text, y);
      }
  }

  lemma PieceOpens(p: Piece, y: string)
    requires !p.Content?
    ensures Written(p) + y != "" && (Written(p) + y)[0] == '<'
  {
  }

  /**
   * However a text is laid out: instructions and comments vanish whatever they hold, tags keep their names and
   * values with single blanks between, and contents are trimmed. The same in front of a piece that is not closed.
   */
  lemma {:induction false} StripPieces(ps: seq<Piece>, tail: string)
    requires AllWellFormed(ps) && (tail != "" ==> tail[0] == '<')
    ensures Strip(WrittenAll(ps) + tail) == UniformAll(ps) + Strip(tail)
  {
    hide Strip, Written, UniformPiece, WellFormed;
    if ps == [] {
      assert "" + tail == tail && "" + Strip(tail) == Strip(tail);
    } else {
      var more := WrittenAll(ps[1..]) + tail;
      StripPieces(ps[1..], tail);
      if |ps| > 1 {
        assert WrittenAll(ps[1..]) == Written(ps[1]) + WrittenAll(ps[1..][1..]);
        Concat3(Written(ps[1]), WrittenAll(ps[1..][1..]), tail);
        if !ps[1].Content? {
          PieceOpens(ps[1], WrittenAll(ps[1..][1..]) + tail);
        }
      } else {
        assert "" + tail == tail;
      }
      StripPiece(ps[0], more);
      Concat3(Written(ps[0]), WrittenAll(ps[1..]), tail);
      Concat3(UniformPiece(ps[0]), UniformAll(ps[1..]), Strip(tail));
    }
  }

  /** A value that is not closed is copied to the end. */
  lemma UnclosedValue(name: string, gap: string, attribute: string, value: string)
    requires ElementNameSafe(name) && gap != "" && AllBlank(gap)
    requires attribute != "" && AttributeNameSafe(attribute) && '"' !in value
    ensures Strip("<" + name + (gap + (attribute + ("=" + ("\"" + value))))) ==
            "<" + name + (" " + (attribute + ("=" + ("\"" + value))))
  {
    var t := attribute + ("=" + ("\"" + value));
    UnclosedAttributeRead(gap, attribute, value);
    assert Stops(NameEnd, (gap + t)[0]);
    TagNameFound(name, gap + t);
    hide Strip, Turn, AtElement, Span, ReadAttributes, SkipBlanks;
    Cut("<" + name, gap + t);
    ElementTurn("<" + name + (gap + t));
    var out := "<" + name + (" " + t);
    assert ReadElement("<" + name + (gap + t)) == Scan(out, "");
    Unfold("<" + name + (gap + t), Scan(out, ""));
    StripNothing();
    assert out + "" == out;
  }

  lemma UnclosedAttributeRead(gap: string, attribute: string, value: string)
    requires gap != "" && AllBlank(gap) && attribute != "" && AttributeNameSafe(attribute) && '"' !in value
    ensures ReadAttributes(gap + (attribute + ("=" + ("\"" + value)))) == Scan(" " + (attribute + ("=" + ("\"" + value))), "")
  {
    var t := attribute + ("=" + ("\"" + value));
    GapSkipped(gap, attribute, "=" + ("\"" + value));
    UnclosedValueRead(value);
    assert "" + ("=" + ("\"" + value)) == "=" + ("\"" + value);
    AssignedRead(attribute, "", "\"" + value, Scan("\"" + value, ""));
    hide ReadAttribute, Span, ReadValue, SkipBlanks, ReadAttributes;
    AttributesUnfold(gap + t);
  }

  lemma UnclosedValueRead(value: string)
    requires '"' !in value
    ensures ReadValue("\"" + value) == Scan("\"" + value, "")
  {
    SkipNothing("\"" + value);
    QuoteReached("", value);
    assert "" + ("\"" + value) == "\"" + value && "" + "\"" == "\"";
    SpanIs(Quote, value, |value|);
  }
}
