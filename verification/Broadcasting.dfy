/** What each listener of a run hears of it. */
module Broadcasting {
  import opened Sequences
  import opened Engine
  import opened RunProperties
  import opened Collector

  /** The events one listener was handed, in order. */
  function Heard(deliveries: seq<Delivery>, listener: nat): seq<Event> {
    if deliveries == [] then [] else
    (if deliveries[0].listener == listener then [deliveries[0].event] else []) + Heard(deliveries[1..], listener)
  }

  /** The events of a trace: everything but the calls of test methods. */
  function Events(trace: seq<Event>): seq<Event> {
    if trace == [] then [] else
    var before, last := trace[..|trace| - 1], trace[|trace| - 1];
    if last.Call? then Events(before) else Events(before) + [last]
  }

  /** How often a listener is registered. */
  function Times(listeners: seq<nat>, listener: nat): nat {
    if listeners == [] then 0 else (if listeners[0] == listener then 1 else 0) + Times(listeners[1..], listener)
  }

  function Copies(e: Event, n: nat): seq<Event> { seq(n, _ => e) }

  lemma {:induction false} HeardConcat(a: seq<Delivery>, b: seq<Delivery>, listener: nat)
    ensures Heard(a + b, listener) == Heard(a, listener) + Heard(b, listener)
  {
    if a == [] {
      assert a + b == b;
    } else {
      assert (a + b)[1..] == a[1..] + b;
      HeardConcat(a[1..], b, listener);
      Concat3(if a[0].listener == listener then [a[0].event] else [], Heard(a[1..], listener), Heard(b, listener));
    }
  }

  /** One event reaches a listener as often as it is registered. */
  lemma {:induction false} HeardOnce(listeners: seq<nat>, e: Event, listener: nat)
    ensures Heard(Deliveries(listeners, e), listener) == Copies(e, Times(listeners, listener))
  {
    if listeners != [] {
      assert Deliveries(listeners, e)[1..] == Deliveries(listeners[1..], e);
      HeardOnce(listeners[1..], e, listener);
    }
  }

  /** A listener registered once hears exactly the events of the trace, in their order. */
  lemma {:induction false} ListenerHearsTrace(listeners: seq<nat>, listener: nat, trace: seq<Event>)
    requires Times(listeners, listener) == 1
    ensures Heard(AllDeliveries(listeners, trace), listener) == Events(trace)
  {
    if trace != [] {
      var before, last := trace[..|trace| - 1], trace[|trace| - 1];
      ListenerHearsTrace(listeners, listener, before);
      if last.Call? {
        assert AllDeliveries(listeners, before) + [] == AllDeliveries(listeners, before);
      } else {
        HeardConcat(AllDeliveries(listeners, before), Deliveries(listeners, last), listener);
        HeardOnce(listeners, last, listener);
        assert Copies(last, 1) == [last];
      }
    }
  }

  /** Event by event all listeners are served in the order of their registration, before the next event is sent. */
  lemma {:induction false} ServedInOrder(listeners: seq<nat>, trace: seq<Event>)
    ensures |AllDeliveries(listeners, trace)| == |Events(trace)| * |listeners|
    ensures forall k, i :: 0 <= k < |Events(trace)| && 0 <= i < |listeners| ==>
              0 <= Place(k, |listeners|, i) < |AllDeliveries(listeners, trace)| &&
              AllDeliveries(listeners, trace)[Place(k, |listeners|, i)] == Delivery(listeners[i], Events(trace)[k])
  {
    if trace != [] {
      var before, last := trace[..|trace| - 1], trace[|trace| - 1];
      ServedInOrder(listeners, before);
      hide AllDeliveries, Events;
      Unfolded(listeners, trace);
      if !last.Call? {
        ServedLast(listeners, AllDeliveries(listeners, before), Events(before), last);
      }
    }
  }

  function Place(k: int, n: int, i: int): int { k * n + i }

  lemma Unfolded(listeners: seq<nat>, trace: seq<Event>)
    requires trace != []
    ensures var before, last := trace[..|trace| - 1], trace[|trace| - 1];
            if last.Call? then AllDeliveries(listeners, trace) == AllDeliveries(listeners, before) && Events(trace) == Events(before)
            else AllDeliveries(listeners, trace) == AllDeliveries(listeners, before) + Deliveries(listeners, last) &&
                 Events(trace) == Events(before) + [last]
  {
    var before := trace[..|trace| - 1];
    assert AllDeliveries(listeners, before) + [] == AllDeliveries(listeners, before);
  }

  lemma ServedLast(listeners: seq<nat>, served: seq<Delivery>, events: seq<Event>, last: Event)
    requires |served| == |events| * |listeners|
    requires forall k, i :: 0 <= k < |events| && 0 <= i < |listeners| ==>
               0 <= Place(k, |listeners|, i) < |served| &&
               served[Place(k, |listeners|, i)] == Delivery(listeners[i], events[k])
    ensures var all := served + Deliveries(listeners, last);
            |all| == |events + [last]| * |listeners| &&
            forall k, i :: 0 <= k < |events + [last]| && 0 <= i < |listeners| ==>
              0 <= Place(k, |listeners|, i) < |all| &&
              all[Place(k, |listeners|, i)] == Delivery(listeners[i], (events + [last])[k])
  {
    var all := served + Deliveries(listeners, last);
    assert |events + [last]| * |listeners| == |served| + |listeners|;
    forall k, i | 0 <= k < |events + [last]| && 0 <= i < |listeners|
      ensures 0 <= Place(k, |listeners|, i) < |all|
      ensures all[Place(k, |listeners|, i)] == Delivery(listeners[i], (events + [last])[k])
    {
      if k == |events| {
        assert Place(k, |listeners|, i) == |served| + i;
      }
    }
  }

  /** For a collector the calls of test methods make no difference. */
  lemma CollectorHearsTrace(listeners: seq<nat>, listener: nat, trace: seq<Event>)
    requires Times(listeners, listener) == 1
    ensures Started(Heard(AllDeliveries(listeners, trace), listener)) == Started(trace)
    ensures FailuresOf(Heard(AllDeliveries(listeners, trace), listener)) == FailuresOf(trace)
  {
    ListenerHearsTrace(listeners, listener, trace);
    CallsDoNotCount(trace);
  }

  lemma {:induction false} CallsDoNotCount(trace: seq<Event>)
    ensures Started(Events(trace)) == Started(trace) && FailuresOf(Events(trace)) == FailuresOf(trace)
  {
    if trace != [] {
      var before, last := trace[..|trace| - 1], trace[|trace| - 1];
      CallsDoNotCount(before);
      assert trace == before + [last];
      StartedConcat(before, [last]);
      FailuresConcat(before, [last]);
      OneCollected(last);
      hide Started, FailuresOf;
      if last.Call? {
        assert Started(before) + [] == Started(before) && FailuresOf(before) + [] == FailuresOf(before);
      } else {
        StartedConcat(Events(before), [last]);
        FailuresConcat(Events(before), [last]);
      }
    }
  }
}
