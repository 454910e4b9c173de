/** The bus itself (`PubSub`): two listener registries, a worker queue drained by a
    background loop, and a UI queue drained by `handleMessage` on the main thread,
    with a flag that coalesces the scheduling requests for that drain. */
module Bus {
  import opened Events
  import opened Registry
  import opened Dispatch

  class PubSub<P> {
    /** Worker listeners and UI listeners, each keyed by event type. */
    var listeners: Registry<Listener>
    var uiListeners: Registry<UiListener>
    /** `mQueue` and `mUiQueue`, FIFO: new events at the end, taken from the front. */
    var mQueue: seq<Event<P>>
    var mUiQueue: seq<Event<P>>
    /** Set when a UI drain has been asked for, cleared when a drain returns. */
    var handlerActive: bool

    /** Scheduling requests issued so far (calls of `sendMessage`). */
    ghost var requests: nat
    /** Requests the scheduler accepted whose `handleMessage` has not run yet. */
    ghost var pending: nat
    /** Calls of `handleMessage` made directly, not as the delivery of a request. */
    ghost var directCalls: nat
    /** Callbacks made so far by the worker loop and by the UI drain, one entry per event. */
    ghost var workerLog: seq<Delivery<Listener, P>>
    ghost var uiLog: seq<Delivery<UiListener, P>>

    /** Outstanding drains: at most one while the flag is set, none while it is clear,
        plus at most one for each direct call of `handleMessage`. A direct call clears
        the flag while the request it did not answer stays with the scheduler, so the
        next `publishOnUI` can add a second one. Without direct calls this is "at most
        one drain outstanding, and only while the flag is set". */
    ghost predicate Valid()
      reads this`pending, this`handlerActive, this`directCalls
    {
      pending <= directCalls + (if handlerActive then 1 else 0)
    }

    /** The state `publishOnUI` reads and changes. */
    ghost function UiState(): UiSide<P>
      reads this`mUiQueue, this`handlerActive, this`requests
    {
      UiSide(mUiQueue, handlerActive, requests)
    }

    /** A fresh bus: no listeners, both queues empty, no drain asked for. Starting the
        worker thread is not modelled; `RunStep` is one turn of its loop. */
    constructor ()
      ensures Valid()
      ensures listeners == map[] && uiListeners == map[]
      ensures mQueue == [] && mUiQueue == [] && !handlerActive
      ensures requests == 0 && pending == 0 && directCalls == 0 && workerLog == [] && uiLog == []
    {
      listeners, uiListeners := map[], map[];
      mQueue, mUiQueue := [], [];
      handlerActive := false;
      requests, pending, directCalls := 0, 0, 0;
      workerLog, uiLog := [], [];
    }

    /** `addListener(type, l)`: subscribe a worker listener to one type. */
    method AddListener(t: string, l: Listener)
      modifies this`listeners
      ensures listeners == Add(old(listeners), t, l)
      ensures uiListeners == old(uiListeners)
    {
      var list: set<Listener>;
      if t in listeners {
        list := listeners[t];
      } else {
        // the first subscriber of a type creates its (empty) set and stores it
        list := {};
        listeners := listeners[t := list];
      }
      listeners := listeners[t := list + {l}];
    }

    /** `addListeners(l, types...)`: subscribe to each type in turn. */
    method AddListeners(l: Listener, types: seq<string>)
      modifies this`listeners
      ensures listeners == AddAll(old(listeners), l, types)
      ensures uiListeners == old(uiListeners)
    {
      for i := 0 to |types|
        invariant listeners == AddAll(old(listeners), l, types[..i])
      {
        assert types[..i + 1][..i] == types[..i];
        AddListener(types[i], l);
      }
      assert types[..|types|] == types;
    }

    /** `addUiListener(l, type)`: subscribe a UI listener to one type. */
    method AddUiListener(l: UiListener, t: string)
      modifies this`uiListeners
      ensures uiListeners == Add(old(uiListeners), t, l)
      ensures listeners == old(listeners)
    {
      var list: set<UiListener>;
      if t in uiListeners {
        list := uiListeners[t];
      } else {
        list := {};
        uiListeners := uiListeners[t := list];
      }
      uiListeners := uiListeners[t := list + {l}];
    }

    /** `addUiListener(l, types...)`: subscribe a UI listener to each type in turn. */
    method AddUiListeners(l: UiListener, types: seq<string>)
      modifies this`uiListeners
      ensures uiListeners == AddAll(old(uiListeners), l, types)
      ensures listeners == old(listeners)
    {
      for i := 0 to |types|
        invariant uiListeners == AddAll(old(uiListeners), l, types[..i])
      {
        assert types[..i + 1][..i] == types[..i];
        AddUiListener(l, types[i]);
      }
      assert types[..|types|] == types;
    }

    /** `removeListener(type, l)`: unsubscribe a worker listener from one type. */
    method RemoveListener(t: string, l: Listener)
      modifies this`listeners
      ensures listeners == Remove(old(listeners), t, l)
      ensures uiListeners == old(uiListeners)
    {
      if t in listeners {
        listeners := listeners[t := listeners[t] - {l}];
      }
    }

    /** `removeListeners(l, types...)`: unsubscribe from each type in turn. */
    method RemoveListeners(l: Listener, types: seq<string>)
      modifies this`listeners
      ensures listeners == RemoveAll(old(listeners), l, types)
      ensures uiListeners == old(uiListeners)
    {
      for i := 0 to |types|
        invariant listeners == RemoveAll(old(listeners), l, types[..i])
      {
        assert types[..i + 1][..i] == types[..i];
        RemoveListener(types[i], l);
      }
      assert types[..|types|] == types;
    }

    /** `removeUiListener(l, type)`: unsubscribe a UI listener from one type. */
    method RemoveUiListener(l: UiListener, t: string)
      modifies this`uiListeners
      ensures uiListeners == Remove(old(uiListeners), t, l)
      ensures listeners == old(listeners)
    {
      if t in uiListeners {
        uiListeners := uiListeners[t := uiListeners[t] - {l}];
      }
    }

    /** `removeUiListener(l, types...)`: unsubscribe a UI listener from each type in turn. */
    method RemoveUiListeners(l: UiListener, types: seq<string>)
      modifies this`uiListeners
      ensures uiListeners == RemoveAll(old(uiListeners), l, types)
      ensures listeners == old(listeners)
    {
      for i := 0 to |types|
        invariant uiListeners == RemoveAll(old(uiListeners), l, types[..i])
      {
        assert types[..i + 1][..i] == types[..i];
        RemoveUiListener(l, types[i]);
      }
      assert types[..|types|] == types;
    }

    /** `publish(event)`: queue the event for the worker loop when its type has an
        entry, empty or not, and say whether it did. */
    method Publish(e: Event<P>) returns (ok: bool)
      modifies this`mQueue
      ensures ok <==> HasEntry(listeners, e.eventType)
      ensures mQueue == if ok then old(mQueue) + [e] else old(mQueue)
    {
      var t := e.eventType;
      // the size test is always true: an emptied entry passes too
      if t in listeners && |listeners[t]| >= 0 {
        mQueue := mQueue + [e];
        return true;
      }
      return false;
    }

    /** `publishOnUI(event)`: when the type has an entry, queue the event for the UI
        drain and, if no drain is outstanding, set the flag and ask the scheduler for
        one; `accepted` is the scheduler's answer. Returns false when there is no
        entry (nothing changes) or when the request was refused (the event stays
        queued and the flag stays set). */
    method PublishOnUi(e: Event<P>, accepted: bool) returns (ok: bool)
      requires Valid()
      modifies this`mUiQueue, this`handlerActive, this`requests, this`pending
      ensures Valid()
      ensures UiState() == AfterPublishOnUi(uiListeners, old(UiState()), e)
      ensures ok == PublishOnUiResult(uiListeners, old(UiState()), e, accepted)
      ensures pending == old(pending)
        + (if HasEntry(uiListeners, e.eventType) && !old(handlerActive) && accepted then 1 else 0)
    {
      var t := e.eventType;
      if t in uiListeners && |uiListeners[t]| >= 0 {
        mUiQueue := mUiQueue + [e];
        if !handlerActive {
          handlerActive := true;
          requests := requests + 1;
          if !accepted {
            return false;
          }
          pending := pending + 1;
        }
        return true;
      }
      return false;
    }

    /** One turn of the worker loop (`run`), once `take` has returned an event: the
        head of the queue is removed and handed to every listener of its type, or
        dropped when the type has no entry or an empty one. */
    method RunStep()
      requires mQueue != []
      modifies this`mQueue, this`workerLog
      ensures mQueue == old(mQueue)[1..]
      ensures var e := old(mQueue)[0];
        workerLog == old(workerLog)
          + if HasListeners(listeners, e.eventType) then [Delivery(e, listeners[e.eventType])] else []
    {
      var event := mQueue[0];
      mQueue := mQueue[1..];
      var t := event.eventType;
      if t !in listeners || |listeners[t]| == 0 {
        return;
      }
      workerLog := workerLog + [Delivery(event, listeners[t])];
    }

    /** `handleMessage`: the UI drain. It takes events from the front of the UI queue
        and hands each to every UI listener of its type, until the queue is empty or
        an event's type has no listeners (that event is dropped); either way it
        clears the flag before returning. The source polls once more under a lock
        before declaring the queue empty, to catch a concurrent publisher; with one
        thread that second poll sees the same empty queue, so the model polls once.
        `scheduled` says whether this call is the scheduler delivering an outstanding
        request, which it then answers, or a direct call of the public method, which
        answers none: a request outstanding before a direct call is still outstanding
        after it, although the flag is now clear. */
    method HandleMessage(ghost scheduled: bool)
      requires Valid()
      requires scheduled ==> pending > 0
      modifies this`mUiQueue, this`handlerActive, this`pending, this`directCalls, this`uiLog
      ensures Valid() && !handlerActive
      ensures pending == old(pending) - (if scheduled then 1 else 0)
      ensures directCalls == old(directCalls) + (if scheduled then 0 else 1)
      ensures uiLog == old(uiLog) + Drain(uiListeners, old(mUiQueue)).delivered
      ensures mUiQueue == Drain(uiListeners, old(mUiQueue)).rest
    {
      if scheduled {
        // the scheduler has taken the request this call answers
        pending := pending - 1;
      } else {
        directCalls := directCalls + 1;
      }
      while true
        invariant pending == old(pending) - (if scheduled then 1 else 0)
        invariant directCalls == old(directCalls) + (if scheduled then 0 else 1)
        invariant pending <= directCalls
        invariant uiLog + Drain(uiListeners, mUiQueue).delivered
               == old(uiLog) + Drain(uiListeners, old(mUiQueue)).delivered
        invariant Drain(uiListeners, mUiQueue).rest == Drain(uiListeners, old(mUiQueue)).rest
        decreases |mUiQueue|
      {
        if mUiQueue == [] {
          handlerActive := false;
          return;
        }
        DrainStep(uiListeners, mUiQueue);
        var event := mUiQueue[0];
        mUiQueue := mUiQueue[1..];
        var t := event.eventType;
        if t !in uiListeners || |uiListeners[t]| == 0 {
          handlerActive := false;
          return;
        }
        ghost var delivered := Delivery(event, uiListeners[t]);
        assert uiLog + [delivered] + Drain(uiListeners, mUiQueue).delivered
            == uiLog + ([delivered] + Drain(uiListeners, mUiQueue).delivered);
        uiLog := uiLog + [delivered];
      }
    }
  }

  /** A direct call of `handleMessage` while a request is outstanding: the call drains
      the queue and clears the flag, the request stays with the scheduler, and the
      next `publishOnUI` sends a second one, so two drains are outstanding at once. */
  method DirectCallLeavesTwoDrainsOutstanding<P>(b: PubSub<P>, e: Event<P>)
    requires b.Valid() && !b.handlerActive && b.pending == 0
    requires HasEntry(b.uiListeners, e.eventType)
    modifies b
    ensures b.requests == old(b.requests) + 2 && b.pending == 2 && b.handlerActive
  {
    var ok := b.PublishOnUi(e, true);
    b.HandleMessage(false);
    ok := b.PublishOnUi(e, true);
  }
}
