/** The path object that searches extend in place, and that texts are resolved into. */
module TestPathObjects {
  import opened Sequences
  import opened Splitting
  import opened Tests
  import opened TestPaths

  lemma {:induction false} NamesPush(path: seq<Test>, t: Test)
    ensures Names(path + [t]) == Names(path) + [Name(t)]
  {
    if path == [] {
      assert [t][1..] == [];
    } else {
      assert (path + [t])[1..] == path[1..] + [t];
      NamesPush(path[1..], t);
    }
  }

  lemma {:induction false} JoinPush(parts: seq<string>, part: string, c: char)
    requires parts != []
    ensures Join(parts + [part], c) == Join(parts, c) + [c] + part
  {
    if |parts| == 1 {
      assert (parts + [part])[1..] == [part];
    } else {
      assert (parts + [part])[1..] == parts[1..] + [part];
      JoinPush(parts[1..], part, c);
    }
  }

  /** A path followed one name further. */
  function Further(found: Resolved, name: string): Resolved {
    match found
    case Invalid => Invalid
    case Path(tests) =>
      if tests == [] then Invalid else
      var last := tests[|tests| - 1];
      var k := FirstChild(last, name, 0);
      if k == |Children(last)| then Invalid else Path(tests + [Children(last)[k]])
  }

  lemma {:induction false} FollowPush(t: Test, names: seq<string>, name: string)
    ensures Follow(t, names + [name]) == Further(Follow(t, names), name)
    decreases names
  {
    hide FirstChild;
    if names == [] {
      assert names + [name] == [name] && [name][1..] == [];
    } else {
      assert (names + [name])[1..] == names[1..] + [name];
      var k := FirstChild(t, names[0], 0);
      if k < |Children(t)| {
        FollowPush(Children(t)[k], names[1..], name);
        FollowNames(Children(t)[k], names[1..]);
        FurtherUnder(t, Follow(Children(t)[k], names[1..]), name);
        hide Further, FirstChildren, Names;
      }
    }
  }

  /** It makes no difference whether a test in front is added before or after. */
  lemma FurtherUnder(t: Test, found: Resolved, name: string)
    requires found.Path? ==> found.tests != []
    ensures found.Invalid? ==> Further(found, name) == Invalid
    ensures found.Path? && Further(found, name).Invalid? ==> Further(Path([t] + found.tests), name) == Invalid
    ensures found.Path? && Further(found, name).Path? ==>
              Further(Path([t] + found.tests), name) == Path([t] + Further(found, name).tests)
  {
    if found.Path? {
      var tests := found.tests;
      assert ([t] + tests)[|[t] + tests| - 1] == tests[|tests| - 1];
      if Further(found, name).Path? {
        Concat3([t], tests, [Children(tests[|tests| - 1])[FirstChild(tests[|tests| - 1], name, 0)]]);
      }
    }
  }

  lemma {:induction false} FollowStops(t: Test, names: seq<string>, more: seq<string>)
    requires Follow(t, names).Invalid?
    ensures Follow(t, names + more).Invalid?
    decreases names
  {
    var k := FirstChild(t, names[0], 0);
    assert (names + more)[1..] == names[1..] + more;
    if k < |Children(t)| {
      FollowStops(Children(t)[k], names[1..], more);
    }
  }

  class TestPath {
    var tests: seq<Test>

    constructor ()
      ensures tests == []
    {
      tests := [];
    }

    predicate IsValid() reads this { tests != [] }

    method Add(test: Test)
      modifies this
      ensures tests == old(tests) + [test]
    {
      tests := tests + [test];
    }

    /** False stands for the exception thrown for an index out of range. */
    method Insert(test: Test, index: int) returns (inRange: bool)
      modifies this
      ensures inRange == (0 <= index <= |old(tests)|)
      ensures tests == if inRange then old(tests)[..index] + [test] + old(tests)[index..] else old(tests)
    {
      inRange := 0 <= index <= |tests|;
      if inRange {
        tests := tests[..index] + [test] + tests[index..];
      }
    }

    method ToText() returns (asString: string)
      ensures asString == PathText(tests)
    {
      asString := "/";
      for index := 0 to |tests|
        invariant asString == "/" + Join(Names(tests[..index]), '/')
      {
        assert tests[..index + 1] == tests[..index] + [tests[index]];
        NamesPush(tests[..index], tests[index]);
        if index > 0 {
          JoinPush(Names(tests[..index]), Name(tests[index]), '/');
          asString := asString + "/";
        }
        asString := asString + Name(tests[index]);
      }
      assert tests[..|tests|] == tests;
    }
  }

  /** The name components of a text, and whether it is relative. */
  method SplitPathString(pathAsString: string) returns (isRelative: bool, testNames: seq<string>)
    ensures pathAsString == "" ==> isRelative && testNames == []
    ensures pathAsString != "" ==> isRelative == (pathAsString[0] != '/')
    ensures pathAsString != "" ==> testNames == Split(if isRelative then pathAsString else pathAsString[1..], '/')
  {
    testNames := [];
    if pathAsString == "" {
      return true, [];
    }
    isRelative := pathAsString[0] != '/';
    var index := if isRelative then 0 else 1;
    ghost var goal := Split(pathAsString[index..], '/');
    assert pathAsString[0..] == pathAsString && [] + goal == goal;
    var more := true;
    while more
      invariant index <= |pathAsString|
      invariant more ==> goal == testNames + Split(pathAsString[index..], '/')
      invariant !more ==> goal == testNames
      decreases more, |pathAsString| - index
    {
      var rest := pathAsString[index..];
      var n := Before(rest, '/');
      SplitFurther(testNames, rest, '/', n);
      hide Split;
      if n < |rest| {
        assert rest[n + 1..] == pathAsString[index + n + 1..];
        testNames := testNames + [rest[..n]];
        index := index + n + 1;
      } else {
        testNames := testNames + [rest];
        more := false;
      }
    }
  }

  /** The last test of the chain goes behind the path, the others in front. */
  function Around(chain: seq<Test>, path: seq<Test>): seq<Test>
    requires chain != []
  {
    chain[..|chain| - 1] + path + [chain[|chain| - 1]]
  }

  lemma AroundPush(t: Test, chain: seq<Test>, path: seq<Test>)
    requires chain != []
    ensures [t] + Around(chain, path) == Around([t] + chain, path)
  {
    var all := [t] + chain;
    assert all[..|all| - 1] == [t] + chain[..|chain| - 1];
  }

  lemma InFront(path: seq<Test>, t: Test)
    ensures path[..0] + [t] + path[0..] == [t] + path
  {
  }

  /** Searches in pre-order; the path is extended at both ends on success and left alone on failure. */
  method FindTestPath(t: Test, key: Key, path: TestPath) returns (found: bool)
    modifies path
    ensures found == (Find(t, key) != [])
    ensures !found ==> path.tests == old(path.tests)
    ensures found ==> path.tests == Around(Find(t, key), old(path.tests))
    decreases t
  {
    FindHere(t, key, path.tests);
    hide Find, FindAmong, Around;
    if Matches(t, key) {
      path.Add(t);
      return true;
    }
    var children := Children(t);
    for childIndex := 0 to |children|
      invariant path.tests == old(path.tests)
      invariant FindAmong(t, 0, key) == FindAmong(t, childIndex, key)
    {
      FindAmongStep(t, childIndex, key);
      var foundBelow := FindTestPath(children[childIndex], key, path);
      if foundBelow {
        AroundPush(t, Find(children[childIndex], key), old(path.tests));
        InFront(path.tests, t);
        var _ := path.Insert(t, 0);
        return true;
      }
    }
    return false;
  }

  /** A test that matches is found at once; any other leaves the search to its children. */
  lemma FindHere(t: Test, key: Key, inner: seq<Test>)
    ensures Matches(t, key) ==> Find(t, key) != [] && Around(Find(t, key), inner) == inner + [t]
    ensures !Matches(t, key) ==> Find(t, key) == if FindAmong(t, 0, key) == [] then [] else [t] + FindAmong(t, 0, key)
    ensures FindAmong(t, |Children(t)|, key) == []
  {
  }

  lemma FindAmongStep(t: Test, k: nat, key: Key)
    requires k < |Children(t)|
    ensures Children(t)[k] < t
    ensures FindAmong(t, k, key) ==
            if Find(Children(t)[k], key) != [] then Find(Children(t)[k], key) else FindAmong(t, k + 1, key)
  {
    assert Children(t)[k] in Children(t);
  }

  /** The first test of a name in pre-order; none stands for the exception. */
  method FindTest(t: Test, name: string) returns (found: seq<Test>)
    ensures var chain := Find(t, ByName(name));
            found == if chain == [] then [] else [chain[|chain| - 1]]
  {
    hide Find;
    var path := new TestPath();
    var _ := FindTestPath(t, ByName(name), path);
    if path.IsValid() {
      found := [path.tests[|path.tests| - 1]];
    } else {
      found := [];
    }
  }

  method FindActualRoot(searchRoot: Test, pathAsString: string)
    returns (root: seq<Test>, testNames: seq<string>)
    ensures pathAsString == "" ==> root == [searchRoot] && testNames == []
    ensures pathAsString != "" ==>
              testNames == Split(if pathAsString[0] != '/' then pathAsString else pathAsString[1..], '/') &&
              var found := if pathAsString[0] != '/' then Find(searchRoot, ByName(testNames[0])) else [searchRoot];
              root == if found == [] || Name(found[|found| - 1]) != testNames[0] then [] else [found[|found| - 1]]
  {
    var isRelative;
    isRelative, testNames := SplitPathString(pathAsString);
    if isRelative && pathAsString == "" {
      return [searchRoot], testNames;
    }
    if isRelative {
      root := FindTest(searchRoot, testNames[0]);
    } else {
      root := [searchRoot];
    }
    if root != [] && Name(root[0]) != testNames[0] {
      root := [];
    }
  }

  method FindChild(parentTest: Test, name: string) returns (childIndex: nat)
    ensures childIndex == FirstChild(parentTest, name, 0)
  {
    var children := Children(parentTest);
    childIndex := 0;
    while childIndex < |children| && Name(children[childIndex]) != name
      invariant childIndex <= |children|
      invariant FirstChild(parentTest, name, 0) == FirstChild(parentTest, name, childIndex)
    {
      childIndex := childIndex + 1;
    }
  }

  lemma FollowNothing(t: Test)
    ensures Follow(t, []) == Path([t])
  {
  }

  /** Resolving continues below the actual root. */
  lemma ResolveFrom(searchRoot: Test, text: string, root: seq<Test>, names: seq<string>)
    requires text == "" ==> root == [searchRoot] && names == []
    requires text != "" ==>
               names == Split(if text[0] != '/' then text else text[1..], '/') &&
               var found := if text[0] != '/' then Find(searchRoot, ByName(names[0])) else [searchRoot];
               root == if found == [] || Name(found[|found| - 1]) != names[0] then [] else [found[|found| - 1]]
    ensures root == [] ==> Resolve(searchRoot, text) == Invalid
    ensures root != [] ==> Resolve(searchRoot, text) == Follow(root[0], if names == [] then [] else names[1..])
  {
    hide Split, Find, FirstChild;
  }

  /** Builds the path a text stands for; none stands for the exception. */
  method ResolveTestPath(searchRoot: Test, pathAsString: string) returns (path: TestPath, ok: bool)
    ensures fresh(path)
    ensures var r := Resolve(searchRoot, pathAsString);
            ok == r.Path? && (ok ==> path.tests == r.tests)
  {
    hide Split, Find, Follow, FirstChild, Further, Resolve;
    path := new TestPath();
    var root, testNames := FindActualRoot(searchRoot, pathAsString);
    ResolveFrom(searchRoot, pathAsString, root, testNames);
    if root == [] {
      return path, false;
    }
    var parentTest := root[0];
    path.Add(parentTest);
    FollowNothing(parentTest);
    ghost var rest := if testNames == [] then [] else testNames[1..];
    assert path.tests == [parentTest] && rest[..0] == [];
    var index := 1;
    while index < |testNames|
      invariant 1 <= index <= |rest| + 1
      invariant path.tests != [] && path.tests[|path.tests| - 1] == parentTest
      invariant Follow(root[0], rest[..index - 1]) == Path(path.tests)
    {
      NextName(rest, index - 1);
      FollowPush(root[0], rest[..index - 1], testNames[index]);
      FurtherFrom(path.tests, parentTest, testNames[index]);
      var children := Children(parentTest);
      var childIndex := FindChild(parentTest, testNames[index]);
      if childIndex == |children| {
        FollowStops(root[0], rest[..index], rest[index..]);
        return path, false;
      }
      parentTest := children[childIndex];
      path.Add(parentTest);
      index := index + 1;
    }
    assert rest[..|rest|] == rest;
    ok := true;
  }

  lemma FurtherFrom(tests: seq<Test>, last: Test, name: string)
    requires tests != [] && tests[|tests| - 1] == last
    ensures FirstChild(last, name, 0) == |Children(last)| ==> Further(Path(tests), name) == Invalid
    ensures FirstChild(last, name, 0) < |Children(last)| ==>
              Further(Path(tests), name) == Path(tests + [Children(last)[FirstChild(last, name, 0)]])
  {
  }

  lemma NextName(names: seq<string>, i: nat)
    requires i < |names|
    ensures names[..i + 1] == names[..i] + [names[i]] && names[..i + 1] + names[i + 1..] == names
  {
  }
}
