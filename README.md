# PubSub: an in-process event bus, modelled in Dafny

The system is a small publish/subscribe bus for an Android app. Producers hand an
`Event` (a type string and an opaque payload) to the bus. Consumers subscribe by event
type, in one of two categories:

- worker listeners, called on a dedicated background thread;
- UI listeners, called on the main thread.

The bus keeps one registry per category: a map from event type to a set of listeners.
It also keeps one FIFO queue per category. `publish` queues an event for the worker
thread, whose loop takes events one at a time and hands each to the listeners of its
type. `publishOnUI` queues an event for the main thread. It asks the main thread's
scheduler to run the drain `handleMessage` only when the `handlerActive` flag is
clear, and sets the flag when it asks. One drain then empties the queue, unless it meets
an event whose type has no listeners, in which case it drops that event and stops.

The project has four modules:

- `Events` (`event.dfy`): the event as an immutable datatype.
- `Registry` (`registry.dfy`): listener identities and the two registries as values.
  It holds subscribe and unsubscribe, their multi-type forms, and the outcome of any
  serial run of subscribes and unsubscribes.
- `Dispatch` (`dispatch.dfy`): the specification functions, as values. `Drain` is what
  one UI drain delivers and leaves queued. `AfterPublishOnUi` and `PublishOnUiResult`
  are the effect of `publishOnUI`. It also holds the coalescing lemmas.
- `Bus` (`pubsub.dfy`): the `PubSub` class. Its fields are the two registries, the two
  queues and the flag. Ghost fields count scheduling requests, outstanding drains and
  direct calls of the drain, and log callbacks. Its imperative methods are each proved
  against the functions above.

Callbacks are recorded in ghost logs. A `Delivery(event, recipients)` entry stands for
one pass of the source's `for (l : list) l.on...EventReceived(event)` loop. Every
listener in the set is called once, in an order the model leaves open.

The model follows the code. Behaviours worth knowing:

- The event type is not checked when an event is built. The empty string is accepted
  and dispatched like any other type.
- An entry is never deleted from a registry. Unsubscribing the last listener leaves an
  empty set behind.
- `publish` and `publishOnUI` test only that the type has an entry. Their second test,
  `size() >= 0`, always holds. So after the last listener of a type unsubscribes,
  events of that type are still queued, and `true` is still returned.
- `handlerActive` is a plain field, tested and then set. It is not an atomic
  test-and-set; with one thread the two are the same.
- `handleMessage` is public, so it can be called directly, not only as the delivery
  of a request. Such a call clears the flag while an outstanding request stays with
  the scheduler, and the next `publishOnUI` issues another, so two drains can be
  outstanding at once. Only without direct calls is there at most one.
- When the scheduler refuses a request, `publishOnUI` returns `false`. The event stays
  queued and the flag stays set.
- `Dispatch.StaleEntryStrandsLaterEvents` shows the consequence of keeping empty
  entries. Once the last UI listener of a type unsubscribes, an event of that type is
  still queued. When the drain reaches it, the drain stops, and every event behind it
  stays queued until the next request.

## Model

| member | source | states |
|---|---|---|
| `Events.ConstructorStoresArguments` | app/src/main/java/nuffwritten/com/profiler/pubsub/Event.java:11-22 | the getters return exactly the type and payload given to the constructor, with no check on the type: the empty string comes back too |
| `Events.EventIsItsFields` | app/src/main/java/nuffwritten/com/profiler/pubsub/Event.java:6-23 | an event is nothing but its two fields, never reassigned: it equals the event rebuilt from its getters, and two events are equal exactly when type and payload are |
| `Registry.Add` | app/src/main/java/nuffwritten/com/profiler/pubsub/PubSub.java:63-76 | subscribing gives the type an entry, creating it if absent, and puts the listener in its set; for every type, the members afterwards are the members before plus the listener only at that type, so nothing already registered is replaced or lost |
| `Registry.Remove` | app/src/main/java/nuffwritten/com/profiler/pubsub/PubSub.java:117-123 | unsubscribing keeps every entry (even one left empty), takes the listener out of that type's set only, and is a no-op when the listener was not there or the type has no entry |
| `Registry.AddAll` | app/src/main/java/nuffwritten/com/profiler/pubsub/PubSub.java:57-61 | subscribing to several types in argument order adds exactly those types' entries and puts the listener in each of their sets, nothing else |
| `Registry.RemoveAll` | app/src/main/java/nuffwritten/com/profiler/pubsub/PubSub.java:111-115 | unsubscribing from several types keeps every entry and takes the listener out of exactly those types' sets |
| `Registry.AddIdempotent` | app/src/main/java/nuffwritten/com/profiler/pubsub/PubSub.java:75 | subscribing the same listener to the same type twice has the effect of subscribing once |
| `Registry.AddThenRemoveKeepsEntry` | app/src/main/java/nuffwritten/com/profiler/pubsub/PubSub.java:117-123 | unsubscribing right after subscribing leaves the type's entry in place, holding the earlier listeners other than this one |
| `Registry.DecidedByLastChange` | app/src/main/java/nuffwritten/com/profiler/pubsub/PubSub.java:63-123 | after any serial run of subscribes and unsubscribes, a listener is in a type's set exactly when the last change naming that pair was a subscribe (or, if none names it, when it was there at the start), and a type has an entry exactly when it had one or was subscribed to |
| `Dispatch.Drain` | app/src/main/java/nuffwritten/com/profiler/pubsub/PubSub.java:193-219 | one UI drain delivers, in queue order, the longest prefix of the queue whose types all have listeners, each event to the whole set of its type; if it stops early, the event it stopped at has no listeners and is dropped, and everything behind it stays queued |
| `Dispatch.DrainDeliversAllIffAllMatched` | app/src/main/java/nuffwritten/com/profiler/pubsub/PubSub.java:206-217 | the drain delivers the whole queue and leaves it empty exactly when every queued event's type has listeners |
| `Registry.Apply` | app/src/main/java/nuffwritten/com/profiler/pubsub/PubSub.java:63-123 | a serial run of subscribes and unsubscribes never deletes an entry, and leaves the set of every type no change names as it was |
| `Dispatch.AfterPublishOnUi` | app/src/main/java/nuffwritten/com/profiler/pubsub/PubSub.java:153-168 | one `publishOnUI`: with no entry the UI side is unchanged; otherwise the event is appended and the flag is set, and a request is counted exactly when the flag was clear |
| `Dispatch.PublishOnUiResult` | app/src/main/java/nuffwritten/com/profiler/pubsub/PubSub.java:153-168 | `publishOnUI` returns false when the type has no entry, or when the flag was clear and the scheduler refused the request; otherwise it returns true |
| `Dispatch.PublishAllOnUi` | app/src/main/java/nuffwritten/com/profiler/pubsub/PubSub.java:153-168 | a run of `publishOnUI` calls only appends to the UI queue, at most one event per call, never clears the flag, and adds at most one request, none if the flag was already set |
| `Dispatch.Routed` | app/src/main/java/nuffwritten/com/profiler/pubsub/PubSub.java:154-156 | the events that pass the publish test are drawn from the published ones and each has an entry; every published event whose type has an entry is among them |
| `Dispatch.RoutedAppend` | app/src/main/java/nuffwritten/com/profiler/pubsub/PubSub.java:154-156 | the events that pass the publish test keep publish order: those of one run of publishes come before those of a later run |
| `Dispatch.RoutedSingle` | app/src/main/java/nuffwritten/com/profiler/pubsub/PubSub.java:154-156 | one published event passes exactly when its type has an entry; with `Dispatch.RoutedAppend` this makes the passing events the in-order filter of the published ones |
| `Dispatch.RoutedKeepsAllRouted` | app/src/main/java/nuffwritten/com/profiler/pubsub/PubSub.java:154-156 | when every published event's type has an entry, every one of them is queued, in order |
| `Dispatch.PublishesCoalesce` | app/src/main/java/nuffwritten/com/profiler/pubsub/PubSub.java:153-168 | any run of UI publishes with no drain between queues exactly the events whose type has an entry, in publish order, and issues one scheduling request if the handler was idle and something was queued, none otherwise |
| `Dispatch.ThreeTicksOneRequest` | app/src/main/java/nuffwritten/com/profiler/pubsub/PubSub.java:153-219 | three events of a subscribed type published while idle cause exactly one request, and the drain delivers all three, in publish order, to every listener, leaving the queue empty |
| `Dispatch.StaleEntryStrandsLaterEvents` | app/src/main/java/nuffwritten/com/profiler/pubsub/PubSub.java:153-213 | after the last UI listener of a type unsubscribes, `publishOnUI` of that type still succeeds and queues the event, and the drain drops it and stops, leaving the later events queued |
| `Bus.PubSub.constructor` | app/src/main/java/nuffwritten/com/profiler/pubsub/PubSub.java:32-40 | a new bus has empty registries and queues, the flag clear, and no request outstanding |
| `Bus.PubSub.AddListener` | app/src/main/java/nuffwritten/com/profiler/pubsub/PubSub.java:63-76 | the worker registry becomes `Registry.Add` of the old one; the UI registry and everything else are unchanged |
| `Bus.PubSub.AddListeners` | app/src/main/java/nuffwritten/com/profiler/pubsub/PubSub.java:57-61 | the loop over the types leaves the worker registry at `Registry.AddAll` of the old one, the single-type add applied in argument order; the UI registry is unchanged |
| `Bus.PubSub.AddUiListener` | app/src/main/java/nuffwritten/com/profiler/pubsub/PubSub.java:88-101 | the UI registry becomes `Registry.Add` of the old one; the worker registry is unchanged |
| `Bus.PubSub.AddUiListeners` | app/src/main/java/nuffwritten/com/profiler/pubsub/PubSub.java:82-86 | the UI registry becomes `Registry.AddAll` of the old one, in argument order; the worker registry is unchanged |
| `Bus.PubSub.RemoveListener` | app/src/main/java/nuffwritten/com/profiler/pubsub/PubSub.java:117-123 | the worker registry becomes `Registry.Remove` of the old one; the UI registry is unchanged |
| `Bus.PubSub.RemoveListeners` | app/src/main/java/nuffwritten/com/profiler/pubsub/PubSub.java:111-115 | the worker registry becomes `Registry.RemoveAll` of the old one, in argument order; the UI registry is unchanged |
| `Bus.PubSub.RemoveUiListener` | app/src/main/java/nuffwritten/com/profiler/pubsub/PubSub.java:135-141 | the UI registry becomes `Registry.Remove` of the old one; the worker registry is unchanged |
| `Bus.PubSub.RemoveUiListeners` | app/src/main/java/nuffwritten/com/profiler/pubsub/PubSub.java:129-133 | the UI registry becomes `Registry.RemoveAll` of the old one, in argument order; the worker registry is unchanged |
| `Bus.PubSub.Publish` | app/src/main/java/nuffwritten/com/profiler/pubsub/PubSub.java:143-151 | returns true exactly when the worker registry has an entry for the type, empty or not, and then appends the event at the tail of the worker queue; otherwise the queue is unchanged |
| `Bus.PubSub.PublishOnUi` | app/src/main/java/nuffwritten/com/profiler/pubsub/PubSub.java:153-168 | with no entry: returns false and changes nothing; otherwise appends the event, leaves the flag set, issues a request only if the flag was clear, returns false only if that request was refused, and adds an outstanding drain exactly when it issued a request that was accepted |
| `Bus.PubSub.RunStep` | app/src/main/java/nuffwritten/com/profiler/pubsub/PubSub.java:171-190 | one turn of the worker loop removes the head of the queue and hands it once to every listener of its type, or drops it when the type has no entry or an empty one |
| `Bus.PubSub.HandleMessage` | app/src/main/java/nuffwritten/com/profiler/pubsub/PubSub.java:193-219 | the drain terminates, delivers and leaves queued exactly what `Dispatch.Drain` says, and returns with the flag clear; a call delivered by the scheduler answers one outstanding request, a direct call answers none and leaves every outstanding request in place |
| `Bus.DirectCallLeavesTwoDrainsOutstanding` | app/src/main/java/nuffwritten/com/profiler/pubsub/PubSub.java:153-219 | a `publishOnUI` from idle, a direct `handleMessage`, and a second `publishOnUI` issue two requests, and both drains are outstanding at once |

## Left out

- The `getPubSub` singleton and its double-checked locking: the model starts from an
  explicitly constructed `PubSub`.
- Android's `Handler`, `Looper` and `Message`. `sendMessage(obtainMessage())` becomes
  the `accepted` parameter of `PublishOnUi` (the scheduler's answer) plus the ghost
  request counters. The `Message` argument of `handleMessage` is unused by the source
  and dropped.
- The worker thread: its creation in the constructor, the endless `while (true)`, the
  blocking `take` and the ignored `InterruptedException`. `RunStep` is one turn of the
  loop after `take` has returned, so it requires a non-empty queue.
- Concurrency: `ConcurrentHashMap`, `CopyOnWriteArraySet`, the `synchronized` blocks,
  and the race on the non-atomic `handlerActive` flag. The model is sequential. The
  second `poll` in `handleMessage`, made under a lock to catch a concurrent publisher,
  sees the same empty queue with one thread, so the model polls once.
- Listener callback bodies: a callback is an entry in a ghost log. Callbacks are
  assumed not to call back into the bus.
- The order in which a listener set is iterated: a delivery records the whole set.
- `Listener` and `UiListener` are not part of this model. A listener is an identity
  (`Registry.Listener`, `Registry.UiListener`); the two datatypes keep the categories
  apart as Java's overloads do.
- Naming: the source's two `addUiListener` overloads become `AddUiListener` and
  `AddUiListeners`, and its two `removeUiListener` overloads become `RemoveUiListener`
  and `RemoveUiListeners`. Parameter order is the source's: type first for the
  single-type worker forms (`AddListener`, `RemoveListener`), listener first for all
  others.
- Null arguments: a null type or event makes the source throw a
  `NullPointerException` at once (in `ConcurrentHashMap.get` or in `getEventType`).
  A null listener is accepted: `CopyOnWriteArraySet` stores it on subscribe, and
  removing it takes it out again, like any other listener. The exception comes only when an event of that type is
  dispatched: at `l.onEventReceived(event)`, where it ends the worker thread, or at
  `l.onUiEventReceived(event)`, where it escapes `handleMessage` with the flag still
  set. Dafny's `string`, listener and `Event` values cannot be null, so the model has
  none of these cases.
- Callbacks that throw: an exception from `onEventReceived` escapes `run` (which
  catches only `InterruptedException`) and ends the worker thread; one from
  `onUiEventReceived` escapes `handleMessage` with `handlerActive` still set, so no
  request is ever sent again. The model's callbacks always return, and
  `HandleMessage`'s promise that the flag ends clear rests on that.
- Event identity: `Event` defines no `equals`, so two events built from equal
  arguments are distinct objects in the source. The model's events are values, equal
  when their fields are; `Events.EventIsItsFields` and the delivery logs use that
  value equality.
- Queue capacity: `LinkedBlockingQueue` holds at most `Integer.MAX_VALUE` events and
  `add` throws `IllegalStateException` when full. The model's queues are unbounded
  sequences.
