/** The unit of data carried by the bus (`Event` in the source). */
module Events {

  /** An event: the dispatch key `eventType` and a payload the bus never looks at.
      The source keeps both in private fields that only the constructor assigns,
      so the event is an immutable value; the two destructors are the getters
      `getEventType` and `getPayload`. */
  datatype Event<P> = Event(eventType: string, payload: P)

  /** The getters return exactly what the constructor was given. No check is made
      on the type string: any string, the empty one included, comes back unchanged. */
  lemma ConstructorStoresArguments<P>(t: string, p: P)
    ensures Event(t, p).eventType == t
    ensures Event(t, p).payload == p
  {
  }

  /** Nothing but the two fields makes up an event: two events with the same type
      and payload are the same event, and an event is rebuilt from its getters. */
  lemma EventIsItsFields<P>(e: Event<P>, f: Event<P>)
    ensures e == Event(e.eventType, e.payload)
    ensures e == f <==> e.eventType == f.eventType && e.payload == f.payload
  {
  }
}
