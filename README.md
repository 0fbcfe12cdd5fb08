# PropsAware in Dafny

PropsAware is a process-wide shared property store for Node programs. It has
four parts, all in `lib/PropsAware.js`:

- one plain object holds the properties;
- one event emitter holds the handlers, keyed by event name;
- one proxy view traps every assignment `view[prop] = val`;
- the `PropsAware` object exposes `del`, `has`, `on`, `onAll`, `onDel` and `props`.

An assignment through the view does three things, in this order:

1. it stores the value;
2. it emits the event named after the property, with payload `(val, prop)`;
3. it emits the wildcard event `'*'`, with payload `(prop, val)`.

`del(prop)` works only on a present property. It first removes every handler
registered under the name `prop`. Then it emits `'del'` with payload
`(prop, old value)`. Then it removes the value and returns `true`. On an absent
property it returns `false` and changes nothing.

The model has three modules.

- `Events` (events.dfy) is the part of the emitter the store uses:
  - a `Registry` of handler lists;
  - `WithListener` and `WithoutListeners` on that registry;
  - the `Dispatcher` class with `On`, `RemoveAllListeners` and `Emit`.

  Handlers are opaque ids. Emitting an event does not run any handler. It
  appends an `Event` to an append-only log. The event holds its name, its two
  payload arguments and a snapshot of the handlers it reaches, in delivery
  order.
- `PropsMachine` (machine.dfy) is the store as a pure state machine. A state
  holds the property table, the registry and the log. There is one transition
  per operation: `Assign`, `Delete` and `Subscribe`. `Run` replays a sequence
  of operations. The lemmas say what callers can rely on across many
  operations.
- `PropsAware` (store.dfy) holds the objects the program builds:
  - `Table`, the properties object;
  - `View`, the proxy, whose `Set` is the set trap;
  - `Store`, the `PropsAware` object.

  The view and the store hold the same table and the same dispatcher. Every
  state-changing method is proved to perform the transition of the same name
  in `PropsMachine`.

Event names and property keys share one namespace, as they do in the source.
A property called `'*'` or `'del'` is announced on the wildcard or deletion
channel. Deleting such a property removes that channel's handlers. The lemmas
`DeletingWildcardKeyDropsWildcardHandlers`, `DeletingDelKeyIsAnnouncedToNobody`
and `WritingKeyNamedDelReachesDeletionHandlers` state these collisions.

Some behaviour a reader might expect of such a store is not in the library,
and the model follows the library:

- There is no change detection. No fingerprints are kept, and every assignment
  emits, even an assignment of the value already stored.
- There is no silent `set` and no `sync`/resync operation. `test/cb.js` calls
  `PA.set` and `PA.sync`, but the library does not define them.
- The `'del'` payload is `(prop, old value)` (lib/PropsAware.js:22), not
  `(old value, key)`.
- The per-key payload `(val, prop)` and the wildcard payload `(prop, val)` are
  in opposite orders. The model keeps both orders as written.

## Model

| member | source | states |
|---|---|---|
| Events.WithListener | lib/PropsAware.js:31-39 | registering `h` under a name puts it last in that name's list; every other list is unchanged |
| Events.WithoutListeners | lib/PropsAware.js:21 | removing all handlers of a name leaves that name with none and every other list unchanged |
| Events.Dispatcher.constructor | lib/PropsAware.js:5 | the emitter starts with no handlers and an empty log |
| Events.Dispatcher.On | lib/PropsAware.js:32 | the registry gains `h` at the end of the list for `name`; nothing is emitted |
| Events.Dispatcher.RemoveAllListeners | lib/PropsAware.js:21 | only the list for `name` is emptied; nothing is emitted |
| Events.Dispatcher.Emit | lib/PropsAware.js:10-11 | exactly one event is appended, addressed to the handlers registered for its name at that moment; the registry is unchanged |
| PropsMachine.Assign | lib/PropsAware.js:8-12 | the key now holds the value and every other key is unchanged; the registry is unchanged; exactly two events are appended, first the key's event with `(value, key)`, then `'*'` with `(key, value)` |
| PropsMachine.Delete | lib/PropsAware.js:19-27 | the key is absent afterwards and every other key is unchanged. An absent key changes nothing. A present key loses only its own handler list, and exactly one `'del'` event with `(key, old value)` is appended. That event reaches no one when the key is `'del'` itself, because the clearing comes first |
| PropsMachine.Subscribe | lib/PropsAware.js:31-39 | the handler is appended last to its name's list; the other lists, the table and the log are unchanged |
| PropsMachine.LogOnlyGrows | lib/PropsAware.js:8-39 | after any sequence of operations the earlier log is a prefix of the new one |
| PropsMachine.WildcardSeesEveryWrite | lib/PropsAware.js:8-12 | after any sequence of operations, the `(key, value)` payloads on the wildcard channel are exactly the assignments, one each, in order; deletions and registrations add none |
| PropsMachine.TableHoldsLastWrite | lib/PropsAware.js:8-27 | after any sequence of operations, a key holds its last assigned value, or is absent if its last operation was a deletion, or else keeps its earlier value |
| PropsMachine.DeliveryFollowsRegistration | lib/PropsAware.js:31-39 | unless the key with that name is deleted, the handlers an event reaches are the earlier ones followed by each later registration (`on`, `onAll`, `onDel`), in registration order |
| PropsMachine.RepeatedWriteEmitsAgain | lib/PropsAware.js:8-12 | assigning the same value twice leaves the table as after the first assignment and appends the same two events a second time |
| PropsMachine.DeletingWildcardKeyDropsWildcardHandlers | lib/PropsAware.js:19-23 | after the property `'*'` is assigned and then deleted, the next assignment's wildcard event reaches no handler |
| PropsMachine.DeletingDelKeyIsAnnouncedToNobody | lib/PropsAware.js:21-22 | deleting the property `'del'` removes every deletion handler before announcing, so its `'del'` event has no recipients |
| PropsMachine.WritingKeyNamedDelReachesDeletionHandlers | lib/PropsAware.js:10 | assigning to the property `'del'` delivers `(value, 'del')` to the deletion handlers, the reverse of a real deletion's payload order |
| PropsAware.Table.constructor | lib/PropsAware.js:4 | the property table starts empty |
| PropsAware.View.constructor | lib/PropsAware.js:16 | the view wraps the given table and emitter |
| PropsAware.View.Set | lib/PropsAware.js:8-12 | the set trap always reports success and performs exactly the `Assign` transition on the shared table and emitter |
| PropsAware.Store.constructor | lib/PropsAware.js:4-16 | a new store is empty, with no handlers and no events, and its view writes into its own table and emitter |
| PropsAware.Store.Del | lib/PropsAware.js:19-27 | returns whether the key was present and performs exactly the `Delete` transition |
| PropsAware.Store.Has | lib/PropsAware.js:28-30 | returns whether the key is in the table and changes nothing |
| PropsAware.Store.On | lib/PropsAware.js:31-33 | performs the `Subscribe` transition for the key's own event name |
| PropsAware.Store.OnAll | lib/PropsAware.js:34-36 | performs the `Subscribe` transition for `'*'` |
| PropsAware.Store.OnDel | lib/PropsAware.js:37-39 | performs the `Subscribe` transition for `'del'` |
| PropsAware.Store.Props | lib/PropsAware.js:40-42 | always returns the one shared view, which writes into this store's table and emitter |
| PropsAware.WriteThenDelete | test/ClassB.js:9-15 | after assigning through the view, deleting through the store succeeds: the key is gone, and the last of the three new events is `'del'` with `(key, value just written)` |

## Left out

- Handler execution. Handlers are ids, and emitting only records the event and its recipients. Handlers that write back into the store during dispatch are therefore not modelled; as test/inner.js shows, they can run without end, since every assignment emits.
- Emitter internals: the `'error'` event that throws when it has no handler, the `'newListener'` and `'removeListener'` meta-events, max-listener warnings, the boolean that `emit` returns, and `on` returning the emitter. All of these belong to Node's `events` library, which is not part of this model.
- PropsAware.Store.Has: the source's `prop in Props` is also true for names inherited from `Object.prototype` (`toString`, `constructor`, ...), even when they were never assigned. The model's table holds only the properties that were assigned.
- PropsAware.Store.Del: for the same reason, the source's `del` of an inherited name that was never assigned clears that name's handlers, emits `'del'` and returns `true`. In the model that deletion is a no-op that returns `false`.
- PropsAware.View.Set: assigning to `__proto__` changes the object's prototype instead of storing a property. Symbol-valued keys do not occur either. The model takes every key as a string stored as its own property.
- Proxy behaviour other than the set trap: reads through the view and `delete view[prop]`, which bypasses `del` without emitting anything. These are default JavaScript object behaviour.
- The module being loaded once per process. The store is a single object that callers share through `Props`.
