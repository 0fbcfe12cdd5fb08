/**
 The part of an event emitter that the property store uses: a registry of
 handlers keyed by event name, registration that appends, removal of every
 handler of one name, and emission. Handlers are opaque ids; emission does not
 run them but records the event, its two payload arguments and the handlers it
 is delivered to, in delivery order, on an append-only log.
 */
module Events {

  /** An opaque handler (a callback the store never inspects). */
  type HandlerId = nat

  /** One payload argument: either a property name or a stored value. */
  datatype Arg<V> = Name(name: string) | Value(value: V)

  /** An emitted event with the handlers registered for its name at emission time. */
  datatype Event<V> = Event(name: string, first: Arg<V>, second: Arg<V>, recipients: seq<HandlerId>)

  /** Handler lists by event name; a missing name has no handlers. */
  type Registry = map<string, seq<HandlerId>>

  /** The handlers that an event named `name` reaches, in registration order. */
  function Recipients(reg: Registry, name: string): seq<HandlerId>
  {
    if name in reg then reg[name] else []
  }

  /** Registering `h` for `name` puts it last in that list and touches no other list. */
  function WithListener(reg: Registry, name: string, h: HandlerId): (r: Registry)
    ensures Recipients(r, name) == Recipients(reg, name) + [h]
    ensures forall n :: n != name ==> Recipients(r, n) == Recipients(reg, n)
  {
    reg[name := Recipients(reg, name) + [h]]
  }

  /** Removing every handler of `name` empties that list and only that list. */
  function WithoutListeners(reg: Registry, name: string): (r: Registry)
    ensures Recipients(r, name) == []
    ensures forall n :: n != name ==> Recipients(r, n) == Recipients(reg, n)
  {
    reg - {name}
  }

  /** The emitter object itself: its registry and the log of what it emitted. */
  class Dispatcher<V> {
    var listeners: Registry
    var log: seq<Event<V>>

    constructor ()
      ensures listeners == map[] && log == []
    {
      listeners := map[];
      log := [];
    }

    method On(name: string, h: HandlerId)
      modifies this
      ensures listeners == WithListener(old(listeners), name, h)
      ensures log == old(log)
    {
      listeners := WithListener(listeners, name, h);
    }

    method RemoveAllListeners(name: string)
      modifies this
      ensures listeners == WithoutListeners(old(listeners), name)
      ensures log == old(log)
    {
      listeners := WithoutListeners(listeners, name);
    }

    /** Emission appends exactly one event, addressed to the current handlers of `name`. */
    method Emit(name: string, first: Arg<V>, second: Arg<V>)
      modifies this
      ensures log == old(log) + [Event(name, first, second, Recipients(old(listeners), name))]
      ensures listeners == old(listeners)
    {
      log := log + [Event(name, first, second, Recipients(listeners, name))];
    }
  }
}
