/** The two listener registries of the bus (`listeners` and `uiListeners`): maps from
    an event type to the set of listeners subscribed to it, and the operations that
    subscribe and unsubscribe. */
module Registry {

  /** A worker listener (`Listener`), known to the bus only by its identity. */
  datatype Listener = Listener(id: nat)

  /** A UI listener (`UiListener`), a category of its own: the two kinds are never
      mixed in one registry. */
  datatype UiListener = UiListener(id: nat)

  /** Event type to subscribed listeners. A type nobody ever subscribed to has no
      entry; an entry, once created, is never deleted, so it may hold the empty set. */
  type Registry<L> = map<string, set<L>>

  /** The listeners subscribed to `t`; none when `t` has no entry. */
  function Members<L>(r: Registry<L>, t: string): set<L> {
    if t in r then r[t] else {}
  }

  /** The test `publish` and `publishOnUI` make: the type has an entry. The source
      also asks that the entry's size be at least zero, which every set satisfies,
      so an entry emptied by unsubscribing still passes. */
  predicate HasEntry<L>(r: Registry<L>, t: string) {
    t in r
  }

  /** The test both dispatch loops make before delivering: an entry that is not empty. */
  predicate HasListeners<L>(r: Registry<L>, t: string) {
    t in r && r[t] != {}
  }

  /** `add(type, listener)`: put `l` into the set of `t`, creating the set when `t`
      has no entry yet. Only `t` gains `l`; every other listener and type is kept. */
  function Add<L>(r: Registry<L>, t: string, l: L): (r': Registry<L>)
    ensures r'.Keys == r.Keys + {t}
    ensures l in r'[t]
    ensures forall u :: Members(r', u) == Members(r, u) + (if u == t then {l} else {})
  {
    r[t := Members(r, t) + {l}]
  }

  /** `remove(type, listener)`: take `l` out of the set of `t` when `t` has an entry.
      The entry stays even when its set becomes empty; removing a listener that is
      not there changes nothing. */
  function Remove<L>(r: Registry<L>, t: string, l: L): (r': Registry<L>)
    ensures r'.Keys == r.Keys
    ensures l !in Members(r', t)
    ensures forall u :: Members(r', u) == Members(r, u) - (if u == t then {l} else {})
    ensures l !in Members(r, t) ==> r' == r
  {
    if t in r then
      assert l !in r[t] ==> r[t] - {l} == r[t];
      r[t := r[t] - {l}]
    else r
  }

  /** The multi-type subscribe: `add(type, l)` for each type, in argument order. */
  function AddAll<L>(r: Registry<L>, l: L, types: seq<string>): (r': Registry<L>)
    ensures forall u :: u in r' <==> u in r || u in types
    ensures forall u :: Members(r', u) == Members(r, u) + (if u in types then {l} else {})
    decreases |types|
  {
    if |types| == 0 then r
    else Add(AddAll(r, l, types[..|types| - 1]), types[|types| - 1], l)
  }

  /** The multi-type unsubscribe: `remove(type, l)` for each type, in argument order. */
  function RemoveAll<L>(r: Registry<L>, l: L, types: seq<string>): (r': Registry<L>)
    ensures r'.Keys == r.Keys
    ensures forall u :: Members(r', u) == Members(r, u) - (if u in types then {l} else {})
    decreases |types|
  {
    if |types| == 0 then r
    else Remove(RemoveAll(r, l, types[..|types| - 1]), types[|types| - 1], l)
  }

  /** Subscribing twice is subscribing once. */
  lemma AddIdempotent<L>(r: Registry<L>, t: string, l: L)
    ensures Add(Add(r, t, l), t, l) == Add(r, t, l)
  {
  }

  /** Unsubscribing right after subscribing leaves the type's entry behind, holding
      exactly the listeners that were there before except `l`. */
  lemma AddThenRemoveKeepsEntry<L>(r: Registry<L>, t: string, l: L)
    ensures var r' := Remove(Add(r, t, l), t, l);
      HasEntry(r', t) && r'[t] == Members(r, t) - {l}
  {
  }

  /** One registry change, as a caller issues it. */
  datatype Change<L> = Subscribe(t: string, l: L) | Unsubscribe(t: string, l: L)

  /** The registry after the changes `cs`, applied one after the other. */
  function Apply<L>(r: Registry<L>, cs: seq<Change<L>>): (r': Registry<L>)
    ensures r.Keys <= r'.Keys
    ensures forall u :: (forall i :: 0 <= i < |cs| ==> cs[i].t != u) ==> Members(r', u) == Members(r, u)
    decreases |cs|
  {
    if |cs| == 0 then r
    else
      var before := Apply(r, cs[..|cs| - 1]);
      match cs[|cs| - 1]
      case Subscribe(t, l) => Add(before, t, l)
      case Unsubscribe(t, l) => Remove(before, t, l)
  }

  /** Reference outcome for one (type, listener) pair: `l` is subscribed to `t` after
      `cs` exactly when the last change naming both is a subscribe, or, when no change
      names them, when it was subscribed at the start. */
  function SubscribedAfter<L>(r: Registry<L>, cs: seq<Change<L>>, t: string, l: L): bool
    decreases |cs|
  {
    if |cs| == 0 then l in Members(r, t)
    else if cs[|cs| - 1].t == t && cs[|cs| - 1].l == l then cs[|cs| - 1].Subscribe?
    else SubscribedAfter(r, cs[..|cs| - 1], t, l)
  }

  /** Any run of subscribes and unsubscribes yields the registry its serial order
      implies: membership of each pair is decided by its own last change (adds are
      idempotent, removing an absent listener is a no-op, other pairs do not
      interfere), and a type has an entry exactly when it had one or some change
      subscribed to it. */
  lemma {:induction false} DecidedByLastChange<L>(r: Registry<L>, cs: seq<Change<L>>, t: string, l: L)
    ensures l in Members(Apply(r, cs), t) <==> SubscribedAfter(r, cs, t, l)
    ensures t in Apply(r, cs) <==> t in r || exists i :: 0 <= i < |cs| && cs[i].Subscribe? && cs[i].t == t
    decreases |cs|
  {
    if |cs| > 0 {
      var init := cs[..|cs| - 1];
      DecidedByLastChange(r, init, t, l);
      if exists i :: 0 <= i < |init| && init[i].Subscribe? && init[i].t == t {
        var i :| 0 <= i < |init| && init[i].Subscribe? && init[i].t == t;
        assert cs[i] == init[i];
      }
      if exists i :: 0 <= i < |cs| && cs[i].Subscribe? && cs[i].t == t {
        var i :| 0 <= i < |cs| && cs[i].Subscribe? && cs[i].t == t;
        if i < |init| {
          assert init[i] == cs[i];
        }
      }
    }
  }
}
