/** Nested exception handlers: the chain of protectors around a test method. */
module Protectors {

  /** The message a reported exception carries, and where it was raised: no file name, no place. */
  datatype Detail = Detail(what: string, file: string, line: int)

  datatype Exc =
    | AssertionFailed(detail: Detail)
    | StandardException(detail: Detail)
    | UnknownException(detail: Detail)

  datatype Outcome = Returned(succeed: bool) | Thrown(exc: Exc)

  /** What calling a functor leaves behind, and how it ended. */
  datatype Ran<W> = Ran(world: W, outcome: Outcome)

  type Functor<!W> = W -> Ran<W>

  /** A protector turns a functor into the functor it protects. */
  type Protector<!W> = Functor<W> -> Functor<W>

  /** The first protector pushed is the outermost. */
  function Nest<W>(protectors: seq<Protector<W>>, functor: Functor<W>): Functor<W> {
    if protectors == [] then functor else protectors[0](Nest(protectors[1..], functor))
  }

  /** A protector pushed last goes directly around the functor. */
  lemma {:induction false} NestPush<W>(protectors: seq<Protector<W>>, p: Protector<W>, functor: Functor<W>)
    ensures Nest(protectors + [p], functor) == Nest(protectors, p(functor))
  {
    if protectors == [] {
      assert [p][1..] == [];
    } else {
      assert (protectors + [p])[1..] == protectors[1..] + [p];
      NestPush(protectors[1..], p, functor);
    }
  }

  /** Catches everything: reports one failure and answers false. */
  function DefaultProtect<W>(report: (W, Exc) -> W, functor: Functor<W>): Functor<W> {
    w =>
      var ran := functor(w);
      match ran.outcome
      case Returned(_) => ran
      case Thrown(exc) => Ran(report(ran.world, exc), Returned(false))
  }

  function DefaultProtector<W>(report: (W, Exc) -> W): Protector<W> {
    functor => DefaultProtect(report, functor)
  }

  /** With the default protector pushed first, nothing thrown further in escapes. */
  lemma NothingEscapes<W>(report: (W, Exc) -> W, pushed: seq<Protector<W>>, functor: Functor<W>, w: W)
    ensures var chain := [DefaultProtector(report)] + pushed;
            var inside := Nest(pushed, functor)(w);
            Nest(chain, functor)(w) ==
            if inside.outcome.Returned? then inside else Ran(report(inside.world, inside.outcome.exc), Returned(false))
  {
    assert ([DefaultProtector(report)] + pushed)[1..] == pushed;
  }

  /** The default protector was pushed first, as the constructor of TestResult does. */
  ghost predicate Guarded<W(!new)>(protectors: seq<Protector<W>>) {
    exists report: (W, Exc) -> W, pushed: seq<Protector<W>> :: protectors == [DefaultProtector(report)] + pushed
  }

  lemma GuardedReturns<W(!new)>(protectors: seq<Protector<W>>, functor: Functor<W>, w: W)
    requires Guarded(protectors)
    ensures Nest(protectors, functor)(w).outcome.Returned?
  {
    var report: (W, Exc) -> W, pushed: seq<Protector<W>> :| protectors == [DefaultProtector(report)] + pushed;
    NothingEscapes(report, pushed, functor, w);
  }

  class ProtectorChain<!W(!new)> {
    var protectors: seq<Protector<W>>

    constructor ()
      ensures protectors == []
    {
      protectors := [];
    }

    method Push(protector: Protector<W>)
      modifies this
      ensures protectors == old(protectors) + [protector]
    {
      protectors := protectors + [protector];
    }

    method Pop()
      requires protectors != []
      modifies this
      ensures protectors == old(protectors)[..|old(protectors)| - 1]
    {
      protectors := protectors[..|protectors| - 1];
    }

    /** Builds the functors backwards from the last protector; the last one built is the outermost. */
    method Build(functor: Functor<W>) returns (functors: seq<Functor<W>>)
      requires protectors != []
      ensures |functors| == |protectors|
      ensures functors[|functors| - 1] == Nest(protectors, functor)
    {
      functors := [];
      var index := |protectors| - 1;
      while index >= 0
        invariant -1 <= index < |protectors| && |functors| == |protectors| - 1 - index
        invariant (if functors == [] then functor else functors[|functors| - 1]) == Nest(protectors[index + 1..], functor)
      {
        var protectedFunctor := if functors == [] then functor else functors[|functors| - 1];
        assert protectors[index..][0] == protectors[index] && protectors[index..][1..] == protectors[index + 1..];
        functors := functors + [protectors[index](protectedFunctor)];
        index := index - 1;
      }
      assert protectors[0..] == protectors;
    }

    /**
     * Deletes as many functors as there are protectors left on the chain: deleted[k] counts the
     * deletions of the k-th functor, overrun those past the last one.
     */
    static method DeleteFunctors(built: nat, remaining: nat) returns (deleted: seq<nat>, overrun: nat)
      ensures |deleted| == built
      ensures forall k :: 0 <= k < built ==> deleted[k] == if k < remaining then 1 else 0
      ensures overrun == if remaining <= built then 0 else remaining - built
    {
      deleted := seq(built, _ => 0);
      overrun := 0;
      for k := 0 to remaining
        invariant |deleted| == built
        invariant forall i :: 0 <= i < built ==> deleted[i] == if i < k then 1 else 0
        invariant overrun == if k <= built then 0 else k - built
      {
        if k < built {
          deleted := deleted[k := deleted[k] + 1];
        } else {
          overrun := overrun + 1;
        }
      }
    }

    /**
     * Runs the functor inside the chain. countAfter reads, from the world the functor leaves behind,
     * how many protectors are on the chain then. Behind the default protector nothing is thrown through the
     * chain, and every functor is deleted exactly once just when the length of the chain is what it was.
     * Any other chain that is not empty also leaves all functors undeleted when something is thrown through it.
     */
    method Protect(functor: Functor<W>, world: W, countAfter: W -> nat)
      returns (ran: Ran<W>, deleted: seq<nat>, overrun: nat)
      ensures ran == Nest(protectors, functor)(world)
      ensures |deleted| == |protectors|
      ensures Guarded(protectors) ==>
                ran.outcome.Returned? &&
                (AllOnce(deleted, overrun) <==> countAfter(Nest(protectors, functor)(world).world) == |protectors|)
      ensures AllOnce(deleted, overrun) <==>
              protectors == [] ||
              (Nest(protectors, functor)(world).outcome.Returned? &&
               countAfter(Nest(protectors, functor)(world).world) == |protectors|)
      ensures ran.outcome.Thrown? ==> overrun == 0 && forall k :: 0 <= k < |deleted| ==> deleted[k] == 0
    {
      if Guarded(protectors) {
        GuardedReturns(protectors, functor, world);
      }
      if protectors == [] {
        return functor(world), [], 0;
      }
      var functors := Build(functor);
      var outermost := functors[|functors| - 1];
      ran := outermost(world);
      if ran.outcome.Thrown? {
        deleted, overrun := seq(|functors|, _ => 0), 0;
        assert deleted[0] == 0;
      } else {
        var remaining := countAfter(ran.world);
        deleted, overrun := DeleteFunctors(|functors|, remaining);
        assert remaining < |functors| ==> deleted[remaining] == 0;
      }
    }
  }

  /** Every functor was deleted exactly once, and nothing past the last. */
  predicate AllOnce(deleted: seq<nat>, overrun: nat) {
    (forall k :: 0 <= k < |deleted| ==> deleted[k] == 1) && overrun == 0
  }
}
