/**
 The store as the program builds it: one property table, one event emitter,
 one proxy view whose set trap stores and announces, and the store object
 whose operations delete, test membership, register handlers and hand out the
 view. Every state-changing method is proved to perform the transition of the
 same name in PropsMachine.
 */
module PropsAware {
  import opened Events
  import opened PropsMachine

  /** The plain object that holds the properties. */
  class Table<V> {
    var entries: map<string, V>

    constructor ()
      ensures entries == map[]
    {
      entries := map[];
    }
  }

  /** The proxy over the table: every assignment through it is trapped. */
  class View<V> {
    const target: Table<V>
    const dispatcher: Dispatcher<V>

    constructor (target: Table<V>, dispatcher: Dispatcher<V>)
      ensures this.target == target && this.dispatcher == dispatcher
    {
      this.target := target;
      this.dispatcher := dispatcher;
    }

    ghost function Snapshot(): State<V>
      reads target, dispatcher
    {
      State(target.entries, dispatcher.listeners, dispatcher.log)
    }

    /** The set trap: `view[prop] = val` stores, emits twice and reports success. */
    method Set(prop: string, val: V) returns (ok: bool)
      modifies target, dispatcher
      ensures ok
      ensures Snapshot() == Assign(old(Snapshot()), prop, val)
    {
      target.entries := target.entries[prop := val];
      dispatcher.Emit(prop, Value(val), Name(prop));
      dispatcher.Emit(WILDCARD, Name(prop), Value(val));
      ok := true;
    }
  }

  /** The store object, sharing its table and emitter with the one view. */
  class Store<V> {
    const table: Table<V>
    const dispatcher: Dispatcher<V>
    const view: View<V>

    /** The view writes into this store's own table and emitter. */
    ghost predicate Valid()
    {
      view.target == table && view.dispatcher == dispatcher
    }

    ghost function Snapshot(): State<V>
      reads table, dispatcher
    {
      State(table.entries, dispatcher.listeners, dispatcher.log)
    }

    constructor ()
      ensures Valid()
      ensures Snapshot() == Initial()
      ensures fresh(table) && fresh(dispatcher) && fresh(view)
    {
      var t := new Table<V>();
      var d := new Dispatcher<V>();
      table := t;
      dispatcher := d;
      view := new View(t, d);
    }

    /**
     Deletes `prop` if present: clears its handlers, announces the deletion
     with the old value, removes the value, and reports whether it was there.
     */
    method Del(prop: string) returns (ok: bool)
      modifies table, dispatcher
      ensures ok == (prop in old(table.entries))
      ensures Snapshot() == Delete(old(Snapshot()), prop)
    {
      if prop in table.entries {
        dispatcher.RemoveAllListeners(prop);
        dispatcher.Emit(DELETION, Name(prop), Value(table.entries[prop]));
        table.entries := table.entries - {prop};
        return true;
      }
      return false;
    }

    /** Membership in the table; nothing changes. */
    method Has(prop: string) returns (present: bool)
      ensures present == (prop in table.entries)
    {
      present := prop in table.entries;
    }

    method On(prop: string, h: HandlerId)
      modifies dispatcher
      ensures Snapshot() == Subscribe(old(Snapshot()), prop, h)
    {
      dispatcher.On(prop, h);
    }

    method OnAll(h: HandlerId)
      modifies dispatcher
      ensures Snapshot() == Subscribe(old(Snapshot()), WILDCARD, h)
    {
      dispatcher.On(WILDCARD, h);
    }

    method OnDel(h: HandlerId)
      modifies dispatcher
      ensures Snapshot() == Subscribe(old(Snapshot()), DELETION, h)
    {
      dispatcher.On(DELETION, h);
    }

    /** Every caller gets the same view, and it writes into this store. */
    method Props() returns (v: View<V>)
      requires Valid()
      ensures v == view
      ensures v.target == table && v.dispatcher == dispatcher
    {
      v := view;
    }
  }

  /**
   A caller that assigns through the view and then deletes through the store
   sees its own write: the deletion succeeds and announces the value just
   written, so the view and the store share one table and one emitter.
   */
  method WriteThenDelete<V>(store: Store<V>, prop: string, val: V) returns (deleted: bool)
    requires store.Valid()
    modifies store.table, store.dispatcher
    ensures deleted
    ensures prop !in store.table.entries
    ensures |store.dispatcher.log| == |old(store.dispatcher.log)| + 3
    ensures store.dispatcher.log[|store.dispatcher.log| - 1] ==
            Event(DELETION, Name(prop), Value(val),
                  if prop == DELETION then [] else Recipients(old(store.dispatcher.listeners), DELETION))
  {
    var view := store.Props();
    var _ := view.Set(prop, val);
    deleted := store.Del(prop);
  }
}
