/** The tree of tests, as its nodes present themselves to callers. */
module Tests {

  /** The id stands for the address of the object. */
  datatype Test =
    | Case(id: nat, name: string)
    | Suite(id: nat, name: string, children: seq<Test>)
    | Decorator(id: nat, inner: Test)
    | Repeated(id: nat, inner: Test, times: int)

  /** getName: a decorator answers for the test it decorates. */
  function Name(t: Test): string {
    match t
    case Case(_, name) => name
    case Suite(_, name, _) => name
    case Decorator(_, inner) => Name(inner)
    case Repeated(_, inner, _) => Name(inner)
  }

  /** getChildTestAt for every index: a decorator shows the children of the test it decorates. */
  function Children(t: Test): (r: seq<Test>)
    ensures forall c :: c in r ==> c < t
  {
    match t
    case Case(_, _) => []
    case Suite(_, _, children) => children
    case Decorator(_, inner) => Children(inner)
    case Repeated(_, inner, _) => Children(inner)
  }

  function CountTestCases(t: Test): int
    decreases t
  {
    match t
    case Case(_, _) => 1
    case Suite(_, _, children) => CountAll(children)
    case Decorator(_, inner) => CountTestCases(inner)
    case Repeated(_, inner, times) => CountTestCases(inner) * times
  }

  function CountAll(ts: seq<Test>): int
    decreases ts
  {
    if ts == [] then 0 else CountTestCases(ts[0]) + CountAll(ts[1..])
  }
}
