/** What the dispatch loops deliver and how `publishOnUI` changes the UI side of the
    bus, stated as values. The `PubSub` class's methods are proved against these
    definitions, and the properties that relate several calls are proved about them. */
module Dispatch {
  import opened Events
  import opened Registry

  /** One event handed to every listener of a set, by one pass of the source's
      `for (l : list) l.onEventReceived(event)` loop (or its UI twin). Each listener in
      `recipients` is called once; the order of the calls is the set's iteration order,
      which the model leaves open. */
  datatype Delivery<L, P> = Delivery(event: Event<P>, recipients: set<L>)

  /** What a run of `handleMessage` delivers and what it leaves in the UI queue. */
  datatype DrainOutcome<P> = DrainOutcome(delivered: seq<Delivery<UiListener, P>>, rest: seq<Event<P>>)

  /** A run of `handleMessage` over the UI queue `q`: events are taken from the head and
      each is delivered to its type's listeners, until the queue is empty or an event
      is taken whose type has no entry or an empty one. That event is dropped and the
      run stops, leaving every later event queued.
      The contract says the same without recursion: the delivered events are the
      longest prefix of `q` whose types all have listeners, in queue order, each to
      the whole set of its type; what stays queued is everything after the first event
      without listeners. */
  function Drain<P>(reg: Registry<UiListener>, q: seq<Event<P>>): (r: DrainOutcome<P>)
    ensures |r.delivered| <= |q|
    ensures forall i :: 0 <= i < |r.delivered| ==>
      HasListeners(reg, q[i].eventType) && r.delivered[i] == Delivery(q[i], reg[q[i].eventType])
    ensures |r.delivered| == |q| ==> r.rest == []
    ensures |r.delivered| < |q| ==>
      !HasListeners(reg, q[|r.delivered|].eventType) && r.rest == q[|r.delivered| + 1..]
    decreases |q|
  {
    if |q| == 0 then DrainOutcome([], [])
    else if !HasListeners(reg, q[0].eventType) then DrainOutcome([], q[1..])
    else
      var tail := Drain(reg, q[1..]);
      DrainOutcome([Delivery(q[0], reg[q[0].eventType])] + tail.delivered, tail.rest)
  }

  /** One turn of the drain: the head is delivered and the drain goes on with the
      tail, or the head is dropped and the drain stops. */
  lemma DrainStep<P>(reg: Registry<UiListener>, q: seq<Event<P>>)
    requires q != []
    ensures HasListeners(reg, q[0].eventType) ==>
      Drain(reg, q) == DrainOutcome([Delivery(q[0], reg[q[0].eventType])] + Drain(reg, q[1..]).delivered,
                                    Drain(reg, q[1..]).rest)
    ensures !HasListeners(reg, q[0].eventType) ==> Drain(reg, q) == DrainOutcome([], q[1..])
  {
  }

  /** No event is lost while every queued type has listeners: the drain then delivers
      the whole queue, in order, and leaves it empty. It delivers the whole queue only
      in that case. */
  lemma DrainDeliversAllIffAllMatched<P>(reg: Registry<UiListener>, q: seq<Event<P>>)
    ensures |Drain(reg, q).delivered| == |q| <==> forall i :: 0 <= i < |q| ==> HasListeners(reg, q[i].eventType)
    ensures |Drain(reg, q).delivered| == |q| ==> Drain(reg, q).rest == []
  {
  }

  /** The part of the bus that `publishOnUI` changes: the UI queue, the `handlerActive`
      flag, and the number of scheduling requests (`sendMessage` calls) issued so far. */
  datatype UiSide<P> = UiSide(uiQueue: seq<Event<P>>, handlerActive: bool, requests: nat)

  /** The UI side after `publishOnUI(e)`. The new state does not depend on whether the
      scheduler accepts the request: the flag is set before the request is made. */
  function AfterPublishOnUi<P>(reg: Registry<UiListener>, s: UiSide<P>, e: Event<P>): (r: UiSide<P>)
    ensures !HasEntry(reg, e.eventType) ==> r == s
    ensures HasEntry(reg, e.eventType) ==> r.uiQueue == s.uiQueue + [e] && r.handlerActive
    ensures r.requests == s.requests + (if HasEntry(reg, e.eventType) && !s.handlerActive then 1 else 0)
  {
    if !HasEntry(reg, e.eventType) then s
    else if s.handlerActive then s.(uiQueue := s.uiQueue + [e])
    else UiSide(s.uiQueue + [e], true, s.requests + 1)
  }

  /** What `publishOnUI(e)` returns when the scheduler answers `accepted`. */
  function PublishOnUiResult<P>(reg: Registry<UiListener>, s: UiSide<P>, e: Event<P>, accepted: bool): (ok: bool)
    ensures !HasEntry(reg, e.eventType) ==> !ok
    ensures HasEntry(reg, e.eventType) && !ok ==> !s.handlerActive && !accepted
    ensures HasEntry(reg, e.eventType) && (s.handlerActive || accepted) ==> ok
  {
    HasEntry(reg, e.eventType) && (s.handlerActive || accepted)
  }

  /** The UI side after `publishOnUI` of each of `es` in turn, with no drain between. */
  function PublishAllOnUi<P>(reg: Registry<UiListener>, s: UiSide<P>, es: seq<Event<P>>): (t: UiSide<P>)
    ensures s.uiQueue <= t.uiQueue && |t.uiQueue| <= |s.uiQueue| + |es|
    ensures s.handlerActive ==> t.handlerActive
    ensures s.requests <= t.requests <= s.requests + 1
    ensures s.handlerActive ==> t.requests == s.requests
    ensures t.requests != s.requests ==> t.handlerActive
    decreases |es|
  {
    if |es| == 0 then s
    else AfterPublishOnUi(reg, PublishAllOnUi(reg, s, es[..|es| - 1]), es[|es| - 1])
  }

  /** The events of `es`, in order, whose type has an entry in `reg`. */
  function Routed<P>(reg: Registry<UiListener>, es: seq<Event<P>>): (r: seq<Event<P>>)
    ensures |r| <= |es|
    ensures forall i :: 0 <= i < |r| ==> r[i] in es && HasEntry(reg, r[i].eventType)
    ensures forall i :: 0 <= i < |es| && HasEntry(reg, es[i].eventType) ==> es[i] in r
    decreases |es|
  {
    if |es| == 0 then []
    else
      var last := es[|es| - 1];
      Routed(reg, es[..|es| - 1]) + (if HasEntry(reg, last.eventType) then [last] else [])
  }

  /** Publish order is kept: the events that pass the test from a run of publishes
      followed by another run are those of the first run, then those of the second. */
  lemma {:induction false} RoutedAppend<P>(reg: Registry<UiListener>, a: seq<Event<P>>, b: seq<Event<P>>)
    ensures Routed(reg, a + b) == Routed(reg, a) + Routed(reg, b)
    decreases |b|
  {
    if |b| == 0 {
      assert a + b == a;
    } else {
      var b' := b[..|b| - 1];
      RoutedAppend(reg, a, b');
      assert (a + b)[..|a + b| - 1] == a + b';
      assert (a + b)[|a + b| - 1] == b[|b| - 1];
      assert Routed(reg, a) + Routed(reg, b') + (if HasEntry(reg, b[|b| - 1].eventType) then [b[|b| - 1]] else [])
          == Routed(reg, a) + (Routed(reg, b') + (if HasEntry(reg, b[|b| - 1].eventType) then [b[|b| - 1]] else []));
    }
  }

  /** A single publish passes exactly when its type has an entry. With `RoutedAppend`
      this fixes `Routed` as the in-order filter of its input. */
  lemma RoutedSingle<P>(reg: Registry<UiListener>, e: Event<P>)
    ensures Routed(reg, [e]) == if HasEntry(reg, e.eventType) then [e] else []
  {
  }

  /** Coalescing. Publishing any number of events on the UI path with no drain between
      queues exactly the events whose type has an entry, in publish order, and issues
      at most one scheduling request: one when the handler was idle and some event was
      queued, none otherwise. In particular nothing is scheduled while the handler is
      active, whatever happened to the request that made it active. */
  lemma {:induction false} PublishesCoalesce<P>(reg: Registry<UiListener>, s: UiSide<P>, es: seq<Event<P>>)
    ensures var t := PublishAllOnUi(reg, s, es);
      && t.uiQueue == s.uiQueue + Routed(reg, es)
      && t.handlerActive == (s.handlerActive || Routed(reg, es) != [])
      && t.requests == s.requests + (if !s.handlerActive && Routed(reg, es) != [] then 1 else 0)
    decreases |es|
  {
    if |es| > 0 {
      var init := es[..|es| - 1];
      PublishesCoalesce(reg, s, init);
      assert s.uiQueue + Routed(reg, es) == s.uiQueue + Routed(reg, init)
        + (if HasEntry(reg, es[|es| - 1].eventType) then [es[|es| - 1]] else []);
    }
  }

  /** When every event's type has an entry, all of them are queued. */
  lemma {:induction false} RoutedKeepsAllRouted<P>(reg: Registry<UiListener>, es: seq<Event<P>>)
    requires forall i :: 0 <= i < |es| ==> HasEntry(reg, es[i].eventType)
    ensures Routed(reg, es) == es
    decreases |es|
  {
    if |es| > 0 {
      RoutedKeepsAllRouted(reg, es[..|es| - 1]);
      assert es[..|es| - 1] + [es[|es| - 1]] == es;
    }
  }

  /** Three events of a type with UI listeners, published back to back while the
      handler is idle and the queue empty: exactly one scheduling request is issued,
      and the drain it triggers hands each event, in publish order, to every listener. */
  lemma ThreeTicksOneRequest<P>(reg: Registry<UiListener>, s: UiSide<P>, e1: Event<P>, e2: Event<P>, e3: Event<P>)
    requires HasListeners(reg, "tick")
    requires s.uiQueue == [] && !s.handlerActive
    requires e1.eventType == "tick" && e2.eventType == "tick" && e3.eventType == "tick"
    ensures var t := PublishAllOnUi(reg, s, [e1, e2, e3]);
      var all := reg["tick"];
      && t.requests == s.requests + 1
      && t.handlerActive
      && Drain(reg, t.uiQueue) == DrainOutcome([Delivery(e1, all), Delivery(e2, all), Delivery(e3, all)], [])
  {
    var q := [e1, e2, e3];
    RoutedKeepsAllRouted(reg, q);
    PublishesCoalesce(reg, s, q);
    DrainDeliversAllIffAllMatched(reg, q);
  }

  /** Consequence of checking only for an entry: once the last UI listener of a type
      unsubscribes, its entry stays, so `publishOnUI` still queues events of that type
      and reports success; the drain then meets such an event, drops it, and stops,
      stranding every event queued behind it. */
  lemma StaleEntryStrandsLaterEvents<P>(reg: Registry<UiListener>, t: string, l: UiListener,
                                        s: UiSide<P>, e: Event<P>, later: seq<Event<P>>)
    requires Members(reg, t) <= {l}
    requires e.eventType == t
    ensures var stale := Remove(Add(reg, t, l), t, l);
      && PublishOnUiResult(stale, s, e, true)
      && AfterPublishOnUi(stale, s, e).uiQueue == s.uiQueue + [e]
      && Drain(stale, [e] + later) == DrainOutcome([], later)
  {
  }
}
