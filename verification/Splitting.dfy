/** Texts taken apart at a separator, and put together again. */
module Splitting {
  import opened Sequences

  /** The number of characters before the first c. */
  function Before(s: string, c: char): (n: nat)
    ensures n <= |s|
    ensures c !in s[..n]
    ensures n < |s| ==> s[n] == c
  {
    if s == "" || s[0] == c then 0 else
    var n := 1 + Before(s[1..], c);
    assert s[..n] == [s[0]] + s[1..][..n - 1];
    n
  }

  lemma {:induction false} BeforeIs(s: string, c: char, n: nat)
    requires n <= |s| && c !in s[..n] && (n < |s| ==> s[n] == c)
    ensures Before(s, c) == n
  {
    if n > 0 {
      assert s[..n] == [s[0]] + s[1..][..n - 1];
      BeforeIs(s[1..], c, n - 1);
    }
  }

  lemma {:induction false} BeforeAtLeast(s: string, c: char, n: nat)
    requires n <= |s| && c !in s[..n]
    ensures Before(s, c) >= n
  {
    if n > 0 {
      assert s[..n] == [s[0]] + s[1..][..n - 1];
      BeforeAtLeast(s[1..], c, n - 1);
    }
  }

  /** The parts between separators: always at least one. */
  function Split(s: string, c: char): (parts: seq<string>)
    ensures parts != []
    decreases |s|
  {
    var n := Before(s, c);
    if n == |s| then [s] else [s[..n]] + Split(s[n + 1..], c)
  }

  function Join(parts: seq<string>, c: char): string {
    if parts == [] then "" else if |parts| == 1 then parts[0] else parts[0] + ([c] + Join(parts[1..], c))
  }

  lemma {:induction false} JoinSplit(s: string, c: char)
    ensures Join(Split(s, c), c) == s
    decreases |s|
  {
    var n := Before(s, c);
    SplitStep(s, c);
    hide Split, Before;
    if n < |s| {
      JoinSplit(s[n + 1..], c);
      JoinFirst(s[..n], Split(s[n + 1..], c), c);
      assert s == s[..n] + ([c] + s[n + 1..]);
    }
  }

  lemma JoinFirst(first: string, more: seq<string>, c: char)
    requires more != []
    ensures Join([first] + more, c) == first + ([c] + Join(more, c))
  {
    assert ([first] + more)[1..] == more;
  }

  predicate NoneContains(parts: seq<string>, c: char) { forall p :: p in parts ==> c !in p }

  lemma {:induction false} SplitHasNone(s: string, c: char)
    ensures NoneContains(Split(s, c), c)
    decreases |s|
  {
    var n := Before(s, c);
    if n < |s| {
      SplitHasNone(s[n + 1..], c);
    } else {
      assert s[..n] == s;
    }
  }

  lemma {:induction false} SplitJoin(parts: seq<string>, c: char)
    requires parts != [] && NoneContains(parts, c)
    ensures Split(Join(parts, c), c) == parts
  {
    assert parts[0] in parts;
    if |parts| == 1 {
      assert parts == [parts[0]];
      SplitWhole(parts[0], c);
    } else {
      SplitJoin(parts[1..], c);
      SplitFirst(parts[0], Join(parts[1..], c), c);
      Rejoined(parts);
      hide Split;
    }
  }

  lemma Rejoined(parts: seq<string>)
    requires parts != []
    ensures parts == [parts[0]] + parts[1..]
  {
  }

  lemma SplitWhole(s: string, c: char)
    requires c !in s
    ensures Split(s, c) == [s]
  {
    assert s[..|s|] == s;
    BeforeIs(s, c, |s|);
  }

  lemma SplitFirst(first: string, more: string, c: char)
    requires c !in first
    ensures Split(first + ([c] + more), c) == [first] + Split(more, c)
  {
    var s := first + ([c] + more);
    Cut(first, [c] + more);
    BeforeIs(s, c, |first|);
    assert s[|first| + 1..] == more;
  }

  /** One part and the rest of the text. */
  lemma SplitStep(s: string, c: char)
    ensures var n := Before(s, c);
            Split(s, c) == if n == |s| then [s] else [s[..n]] + Split(s[n + 1..], c)
  {
  }

  /** The same, behind the parts found already. */
  lemma SplitFurther(found: seq<string>, s: string, c: char, n: nat)
    requires n == Before(s, c)
    ensures n == |s| ==> found + Split(s, c) == found + [s]
    ensures n < |s| ==> found + Split(s, c) == found + [s[..n]] + Split(s[n + 1..], c)
  {
    SplitStep(s, c);
    hide Split, Before;
    if n < |s| {
      Concat3(found, [s[..n]], Split(s[n + 1..], c));
    }
  }
}
