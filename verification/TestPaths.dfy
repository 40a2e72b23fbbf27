/** Paths through a tree of tests: searching for one, printing it, and resolving it again. */
module TestPaths {
  import opened Splitting
  import opened Tests

  /** What a search is for: the first test of a name, or one particular test. */
  datatype Key = ByName(name: string) | ByTest(test: Test)

  predicate Matches(t: Test, key: Key) {
    match key
    case ByName(name) => Name(t) == name
    case ByTest(test) => t == test
  }

  /** The chain of tests the search finds, or nothing. */
  function Find(t: Test, key: Key): (chain: seq<Test>)
    ensures chain != [] ==> chain[0] == t && Matches(chain[|chain| - 1], key)
    decreases t, |Children(t)| + 1
  {
    if Matches(t, key) then [t] else
    var found := FindAmong(t, 0, key);
    if found == [] then [] else [t] + found
  }

  /** The search among the children from index k on. */
  function FindAmong(t: Test, k: nat, key: Key): (chain: seq<Test>)
    requires k <= |Children(t)|
    ensures chain != [] ==> Matches(chain[|chain| - 1], key)
    decreases t, |Children(t)| - k
  {
    if k == |Children(t)| then [] else
    assert Children(t)[k] in Children(t);
    var found := Find(Children(t)[k], key);
    if found != [] then found else FindAmong(t, k + 1, key)
  }

  predicate NonEmpty(chains: seq<seq<Test>>) { forall i :: 0 <= i < |chains| ==> chains[i] != [] }

  /** Every chain from t downwards, in pre-order. */
  function Chains(t: Test): (r: seq<seq<Test>>)
    ensures r != [] && NonEmpty(r) && forall i :: 0 <= i < |r| ==> r[i][0] == t
    decreases t, |Children(t)| + 1
  {
    [[t]] + Under(t, ChainsAmong(t, 0))
  }

  function ChainsAmong(t: Test, k: nat): (r: seq<seq<Test>>)
    requires k <= |Children(t)|
    ensures NonEmpty(r)
    decreases t, |Children(t)| - k
  {
    if k == |Children(t)| then [] else
    assert Children(t)[k] in Children(t);
    Chains(Children(t)[k]) + ChainsAmong(t, k + 1)
  }

  function Under(t: Test, chains: seq<seq<Test>>): (r: seq<seq<Test>>)
    ensures |r| == |chains| && forall i :: 0 <= i < |r| ==> r[i] == [t] + chains[i]
  {
    if chains == [] then [] else [[t] + chains[0]] + Under(t, chains[1..])
  }

  /** The first chain of a list that ends at a match, or nothing. */
  function FirstMatch(chains: seq<seq<Test>>, key: Key): seq<Test>
    requires NonEmpty(chains)
  {
    if chains == [] then []
    else if Matches(chains[0][|chains[0]| - 1], key) then chains[0]
    else FirstMatch(chains[1..], key)
  }

  lemma {:induction false} FirstMatchConcat(a: seq<seq<Test>>, b: seq<seq<Test>>, key: Key)
    requires NonEmpty(a) && NonEmpty(b)
    ensures NonEmpty(a + b)
    ensures FirstMatch(a + b, key) == if FirstMatch(a, key) != [] then FirstMatch(a, key) else FirstMatch(b, key)
  {
    if a == [] {
      assert a + b == b;
    } else {
      assert (a + b)[0] == a[0] && (a + b)[1..] == a[1..] + b;
      FirstMatchConcat(a[1..], b, key);
    }
  }

  lemma {:induction false} FirstMatchUnder(t: Test, chains: seq<seq<Test>>, key: Key)
    requires NonEmpty(chains)
    ensures NonEmpty(Under(t, chains))
    ensures FirstMatch(Under(t, chains), key) ==
            if FirstMatch(chains, key) == [] then [] else [t] + FirstMatch(chains, key)
  {
    if chains != [] {
      assert Under(t, chains)[1..] == Under(t, chains[1..]);
      FirstMatchUnder(t, chains[1..], key);
    }
  }

  /** The search finds the first match in pre-order, and finds nothing only where nothing matches. */
  lemma {:induction false} FindIsFirstInPreOrder(t: Test, key: Key)
    ensures Find(t, key) == FirstMatch(Chains(t), key)
    decreases t, |Children(t)| + 1
  {
    FindAmongIsFirst(t, 0, key);
    FirstMatchUnder(t, ChainsAmong(t, 0), key);
    FirstMatchConcat([[t]], Under(t, ChainsAmong(t, 0)), key);
    assert [[t]][1..] == [];
  }

  lemma {:induction false} FindAmongIsFirst(t: Test, k: nat, key: Key)
    requires k <= |Children(t)|
    ensures FindAmong(t, k, key) == FirstMatch(ChainsAmong(t, k), key)
    decreases t, |Children(t)| - k
  {
    if k < |Children(t)| {
      assert Children(t)[k] in Children(t);
      FindIsFirstInPreOrder(Children(t)[k], key);
      FindAmongIsFirst(t, k + 1, key);
      FirstMatchConcat(Chains(Children(t)[k]), ChainsAmong(t, k + 1), key);
    }
  }

  lemma {:induction false} NoMatch(chains: seq<seq<Test>>, key: Key)
    requires NonEmpty(chains)
    ensures FirstMatch(chains, key) == [] <==>
            forall i :: 0 <= i < |chains| ==> !Matches(chains[i][|chains[i]| - 1], key)
    ensures FirstMatch(chains, key) != [] ==> FirstMatch(chains, key) in chains
  {
    if chains != [] {
      NoMatch(chains[1..], key);
      assert chains == [chains[0]] + chains[1..];
      hide Matches;
    }
  }

  /** A search by test ends at that test, and a search by name at a test of that name, if any chain does. */
  lemma FoundExactly(t: Test, test: Test, name: string)
    ensures var found := Find(t, ByTest(test));
            if found == [] then forall c :: c in Chains(t) ==> c != [] && c[|c| - 1] != test
            else found in Chains(t) && found[|found| - 1] == test
    ensures var found := Find(t, ByName(name));
            if found == [] then forall c :: c in Chains(t) ==> c != [] && Name(c[|c| - 1]) != name
            else found in Chains(t) && Name(found[|found| - 1]) == name
  {
    hide Find, Chains, FirstMatch;
    FindIsFirstInPreOrder(t, ByTest(test));
    FindIsFirstInPreOrder(t, ByName(name));
    NoMatch(Chains(t), ByTest(test));
    NoMatch(Chains(t), ByName(name));
  }

  /** Each test is followed by one of its children. */
  predicate IsChain(path: seq<Test>) {
    |path| <= 1 || (path[1] in Children(path[0]) && IsChain(path[1..]))
  }

  lemma UnderHas(t: Test, chains: seq<seq<Test>>, tail: seq<Test>)
    ensures [t] + tail in Under(t, chains) <==> tail in chains
  {
    var under := Under(t, chains);
    if tail in chains {
      var k :| 0 <= k < |chains| && chains[k] == tail;
      assert under[k] == [t] + tail;
    }
    if [t] + tail in under {
      var k :| 0 <= k < |under| && under[k] == [t] + tail;
      assert chains[k] == under[k][1..] == tail;
    }
  }

  /** The chains listed are exactly the downward chains from t. */
  lemma {:induction false} ChainsAreAll(t: Test, path: seq<Test>)
    ensures path in Chains(t) <==> path != [] && path[0] == t && IsChain(path)
    decreases |path|, 0
  {
    if path != [] && path[0] == t {
      var tail, below := path[1..], ChainsAmong(t, 0);
      assert path == [t] + tail;
      UnderHas(t, below, tail);
      if tail == [] {
        assert path == Chains(t)[0];
      } else {
        ChainsAmongAreAll(t, 0, tail);
        assert path[1] == tail[0] && path != [t];
      }
    }
  }

  lemma {:induction false} ChainsAmongAreAll(t: Test, k: nat, path: seq<Test>)
    requires k <= |Children(t)| && path != []
    ensures path in ChainsAmong(t, k) <==> path[0] in Children(t)[k..] && IsChain(path)
    decreases |path|, 1 + |Children(t)| - k
  {
    if k < |Children(t)| {
      assert Children(t)[k..] == [Children(t)[k]] + Children(t)[k + 1..];
      ChainsAreAll(Children(t)[k], path);
      ChainsAmongAreAll(t, k + 1, path);
    }
  }

  // ---------- the text of a path ----------

  function Names(path: seq<Test>): seq<string> {
    if path == [] then [] else [Name(path[0])] + Names(path[1..])
  }

  function PathText(path: seq<Test>): string { "/" + Join(Names(path), '/') }

  datatype Resolved = Path(tests: seq<Test>) | Invalid

  /** The index of the first child of that name, or the number of children. */
  function FirstChild(t: Test, name: string, k: nat): (r: nat)
    requires k <= |Children(t)|
    ensures k <= r <= |Children(t)|
    ensures r < |Children(t)| ==> Name(Children(t)[r]) == name
    ensures forall i :: k <= i < r ==> Name(Children(t)[i]) != name
    decreases |Children(t)| - k
  {
    if k == |Children(t)| || Name(Children(t)[k]) == name then k else FirstChild(t, name, k + 1)
  }

  /** Follows names downwards, each time to the first child of the name. */
  function Follow(t: Test, names: seq<string>): Resolved
    decreases names
  {
    if names == [] then Path([t]) else
    var k := FirstChild(t, names[0], 0);
    if k == |Children(t)| then Invalid else
    match Follow(Children(t)[k], names[1..])
    case Invalid => Invalid
    case Path(tests) => Path([t] + tests)
  }

  /** The path a text stands for: absolute, or relative to the first test with its first name. */
  function Resolve(root: Test, text: string): Resolved {
    if text == "" then Path([root]) else
    var relative := text[0] != '/';
    var names := Split(if relative then text else text[1..], '/');
    var found := if relative then Find(root, ByName(names[0])) else [root];
    if found == [] || Name(found[|found| - 1]) != names[0] then Invalid else
    Follow(found[|found| - 1], names[1..])
  }

  /** Each next test is the first child of its name. */
  predicate FirstChildren(path: seq<Test>) {
    |path| <= 1 ||
    (var k := FirstChild(path[0], Name(path[1]), 0);
     k < |Children(path[0])| && Children(path[0])[k] == path[1] && FirstChildren(path[1..]))
  }

  lemma {:induction false} FollowNames(t: Test, names: seq<string>)
    ensures var r := Follow(t, names);
            r.Path? ==> r.tests != [] && r.tests[0] == t && Names(r.tests) == [Name(t)] + names && FirstChildren(r.tests)
    decreases names
  {
    var k := if names == [] then 0 else FirstChild(t, names[0], 0);
    if names != [] && k < |Children(t)| {
      FollowNames(Children(t)[k], names[1..]);
      var r := Follow(Children(t)[k], names[1..]);
      if r.Path? {
        assert ([t] + r.tests)[1..] == r.tests;
        assert names == [names[0]] + names[1..];
      }
    } else if names == [] {
      assert [t][1..] == [] && [Name(t)] + [] == [Name(t)];
    }
  }

  lemma {:induction false} FollowChain(path: seq<Test>)
    requires path != [] && FirstChildren(path)
    ensures Follow(path[0], Names(path)[1..]) == Path(path)
  {
    var tail := path[1..];
    assert path == [path[0]] + tail;
    if tail != [] {
      FollowChain(tail);
      assert Names(path)[1..] == Names(tail);
      assert Names(tail) == [Name(tail[0])] + Names(tail)[1..];
    }
  }

  /**
   * Resolving the text of a path gives the path back exactly when it starts at the root, goes from each test
   * to the first child of its name, and no name holds a '/'.
   */
  lemma PathReadsBackExactly(root: Test, path: seq<Test>)
    ensures Resolve(root, PathText(path)) == Path(path) <==>
            path != [] && path[0] == root && FirstChildren(path) && NoneContains(Names(path), '/')
  {
    hide Split, Join, Follow, FirstChildren, Find, NoneContains;
    var text, names := PathText(path), Names(path);
    var parts := Split(Join(names, '/'), '/');
    AbsoluteResolves(root, Join(names, '/'));
    SplitHasNone(Join(names, '/'), '/');
    FollowNames(root, parts[1..]);
    assert parts == [parts[0]] + parts[1..];
    if path != [] && path[0] == root && NoneContains(names, '/') {
      SplitJoin(names, '/');
      if FirstChildren(path) {
        FollowChain(path);
      }
    }
  }

  /**
   * Without the '/' in front the path is given back exactly when it starts at the end of the first chain, in
   * pre-order from the root, that ends at its first name, and then goes on in the same way.
   */
  lemma RelativeReadsBackExactly(root: Test, path: seq<Test>)
    requires path != [] && Name(path[0]) != "" && NoneContains(Names(path), '/')
    ensures Resolve(root, Join(Names(path), '/')) == Path(path) <==>
            FirstChildren(path) &&
            (var chain := FirstMatch(Chains(root), ByName(Name(path[0])));
             chain != [] && chain[|chain| - 1] == path[0])
  {
    var names, key := Names(path), ByName(Name(path[0]));
    var text := Join(names, '/');
    PathNames(path);
    FindIsFirstInPreOrder(root, key);
    RelativeText(names);
    SplitJoin(names, '/');
    hide Split, Join, Follow, FirstChildren, Find, NoneContains, FirstMatch, Chains, Names, Resolve;
    RelativeResolves(root, text, names);
    var found := Find(root, key);
    if found != [] {
      FollowNames(found[|found| - 1], names[1..]);
      if FirstChildren(path) {
        FollowChain(path);
      }
    }
  }

  lemma PathNames(path: seq<Test>)
    requires path != []
    ensures Names(path) != [] && Names(path)[0] == Name(path[0]) && Names(path)[0] in Names(path)
    ensures Names(path) == [Name(path[0])] + Names(path)[1..]
  {
  }

  lemma RelativeResolves(root: Test, text: string, names: seq<string>)
    requires text != "" && text[0] != '/' && Split(text, '/') == names && names != []
    ensures var found := Find(root, ByName(names[0]));
            Resolve(root, text) == if found == [] then Invalid else Follow(found[|found| - 1], names[1..])
  {
    hide Split, Follow, Find;
  }

  lemma RelativeText(names: seq<string>)
    requires names != [] && names[0] != "" && '/' !in names[0]
    ensures Join(names, '/') != "" && Join(names, '/')[0] != '/'
  {
    assert Join(names, '/')[0] == names[0][0];
  }

  lemma AbsoluteResolves(root: Test, body: string)
    ensures var parts := Split(body, '/');
            Resolve(root, "/" + body) == if Name(root) == parts[0] then Follow(root, parts[1..]) else Invalid
  {
    assert ("/" + body)[1..] == body && ("/" + body)[0] == '/';
  }

  /** A text that resolves is the text of its path, but for the '/' in front that a relative one lacks. */
  lemma ResolvedPrintsBack(root: Test, text: string)
    requires text != "" && Resolve(root, text).Path?
    ensures PathText(Resolve(root, text).tests) == if text[0] == '/' then text else "/" + text
  {
    hide Split, Join, Follow, FirstChildren, Find;
    var relative := text[0] != '/';
    var body := if relative then text else text[1..];
    var names := Split(body, '/');
    var found := if relative then Find(root, ByName(names[0])) else [root];
    FollowNames(found[|found| - 1], names[1..]);
    assert names == [names[0]] + names[1..];
    JoinSplit(body, '/');
    assert text == if relative then body else "/" + body;
  }
}
