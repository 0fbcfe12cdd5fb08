/**
 The property store as a pure state machine: the property table, the handler
 registry and the event log, and one transition per operation of the store.
 The classes in module PropsAware are proved to perform exactly these
 transitions; the lemmas here say what the transitions, alone and in sequence,
 guarantee to the store's users.
 */
module PropsMachine {
  import opened Events

  /** Name of the event every assignment also announces. */
  const WILDCARD: string := "*"
  /** Name of the event a deletion announces. */
  const DELETION: string := "del"

  datatype Option<T> = None | Some(value: T)

  datatype State<V> = State(props: map<string, V>, listeners: Registry, log: seq<Event<V>>)

  /** The store when the program starts: no properties, no handlers, nothing emitted. */
  function Initial<V>(): State<V>
  {
    State(map[], map[], [])
  }

  function Lookup<V>(props: map<string, V>, key: string): Option<V>
  {
    if key in props then Some(props[key]) else None
  }

  /** Appends one event addressed to the current handlers of `name`. */
  function Emit<V>(s: State<V>, name: string, first: Arg<V>, second: Arg<V>): State<V>
  {
    s.(log := s.log + [Event(name, first, second, Recipients(s.listeners, name))])
  }

  /**
   Assignment `view[key] = value` through the shared view: the value is
   stored, then the event named `key` goes out with (value, key), then the
   wildcard event with (key, value). There is no comparison with the previous
   value.
   */
  function Assign<V>(s: State<V>, key: string, value: V): (t: State<V>)
    ensures Lookup(t.props, key) == Some(value)
    ensures t.props - {key} == s.props - {key}
    ensures t.listeners == s.listeners
    ensures |t.log| == |s.log| + 2 && t.log[..|s.log|] == s.log
    ensures t.log[|s.log|] == Event(key, Value(value), Name(key), Recipients(s.listeners, key))
    ensures t.log[|s.log| + 1] == Event(WILDCARD, Name(key), Value(value), Recipients(s.listeners, WILDCARD))
  {
    var stored := s.(props := s.props[key := value]);
    var announced := Emit(stored, key, Value(value), Name(key));
    Emit(announced, WILDCARD, Name(key), Value(value))
  }

  /**
   Deletion of `key`. An absent key changes nothing. A present key first loses
   every handler registered under the name `key` (whatever that name also
   means to the registry), then the deletion event goes out with (key, old
   value), and only then is the value removed.
   */
  function Delete<V>(s: State<V>, key: string): (t: State<V>)
    ensures Lookup(t.props, key) == None
    ensures t.props == s.props - {key}
    ensures key !in s.props ==> t == s
    ensures key in s.props ==> t.listeners == WithoutListeners(s.listeners, key)
    ensures key in s.props ==>
      t.log == s.log + [Event(DELETION, Name(key), Value(s.props[key]),
                              if key == DELETION then [] else Recipients(s.listeners, DELETION))]
  {
    if key in s.props then
      var cleared := s.(listeners := WithoutListeners(s.listeners, key));
      var announced := Emit(cleared, DELETION, Name(key), Value(s.props[key]));
      announced.(props := announced.props - {key})
    else
      s
  }

  /** Registration of `h` under the event name `name`. */
  function Subscribe<V>(s: State<V>, name: string, h: HandlerId): (t: State<V>)
    ensures t.props == s.props && t.log == s.log
    ensures Recipients(t.listeners, name) == Recipients(s.listeners, name) + [h]
    ensures forall n :: n != name ==> Recipients(t.listeners, n) == Recipients(s.listeners, n)
  {
    s.(listeners := WithListener(s.listeners, name, h))
  }

  /** The store's state-changing operations, as a caller issues them. */
  datatype Op<V> =
    | Write(key: string, value: V)
    | Remove(key: string)
    | Listen(name: string, handler: HandlerId)
    | ListenAll(handler: HandlerId)
    | ListenDel(handler: HandlerId)

  function Step<V>(s: State<V>, op: Op<V>): State<V>
  {
    match op
    case Write(k, v) => Assign(s, k, v)
    case Remove(k) => Delete(s, k)
    case Listen(n, h) => Subscribe(s, n, h)
    case ListenAll(h) => Subscribe(s, WILDCARD, h)
    case ListenDel(h) => Subscribe(s, DELETION, h)
  }

  /** The state after issuing `ops` in order, starting from `s`. */
  function Run<V>(s: State<V>, ops: seq<Op<V>>): State<V>
    decreases |ops|
  {
    if ops == [] then s else Step(Run(s, ops[..|ops| - 1]), ops[|ops| - 1])
  }

  // ---------------------------------------------------------------------------
  // The event log only grows

  lemma StepExtendsLog<V>(s: State<V>, op: Op<V>)
    ensures |s.log| <= |Step(s, op).log| && Step(s, op).log[..|s.log|] == s.log
  {
    match op
    case Write(k, v) =>
    case Remove(k) =>
    case Listen(n, h) =>
    case ListenAll(h) =>
    case ListenDel(h) =>
  }

  /** Nothing ever rewrites or drops an emitted event. */
  lemma {:induction false} LogOnlyGrows<V>(s: State<V>, ops: seq<Op<V>>)
    ensures |s.log| <= |Run(s, ops).log| && Run(s, ops).log[..|s.log|] == s.log
    decreases |ops|
  {
    if ops != [] {
      var before := Run(s, ops[..|ops| - 1]);
      LogOnlyGrows(s, ops[..|ops| - 1]);
      StepExtendsLog(before, ops[|ops| - 1]);
      var after := Run(s, ops).log;
      assert after[..|s.log|] == after[..|before.log|][..|s.log|];
    }
  }

  // ---------------------------------------------------------------------------
  // The wildcard channel carries every assignment, in order

  /** The (key, value) payloads of the wildcard events in `log`, in log order. */
  function WildcardWrites<V>(log: seq<Event<V>>): seq<(string, V)>
    decreases |log|
  {
    if log == [] then []
    else
      var e := log[|log| - 1];
      WildcardWrites(log[..|log| - 1])
        + if e.name == WILDCARD && e.first.Name? && e.second.Value?
          then [(e.first.name, e.second.value)] else []
  }

  /** The assignments among `ops`, in order. */
  function Writes<V>(ops: seq<Op<V>>): seq<(string, V)>
    decreases |ops|
  {
    if ops == [] then []
    else
      Writes(ops[..|ops| - 1])
        + match ops[|ops| - 1]
          case Write(k, v) => [(k, v)]
          case _ => []
  }

  lemma WildcardWritesAppend<V>(log: seq<Event<V>>, e: Event<V>)
    ensures WildcardWrites(log + [e]) == WildcardWrites(log)
      + if e.name == WILDCARD && e.first.Name? && e.second.Value?
        then [(e.first.name, e.second.value)] else []
  {
    assert (log + [e])[..|log|] == log;
  }

  /**
   Every assignment, to any key, produces exactly one wildcard payload
   (key, value), in assignment order; deletions and registrations produce none.
   The per-key event of an assignment to the key "*" is also named "*", but its
   payload is (value, key) and it is not counted here.
   */
  lemma {:induction false} WildcardSeesEveryWrite<V>(s: State<V>, ops: seq<Op<V>>)
    ensures WildcardWrites(Run(s, ops).log) == WildcardWrites(s.log) + Writes(ops)
    decreases |ops|
  {
    if ops != [] {
      var init := ops[..|ops| - 1];
      var before := Run(s, init);
      WildcardSeesEveryWrite(s, init);
      match ops[|ops| - 1]
      case Write(k, v) =>
        var t := Assign(before, k, v);
        var e1 := t.log[|before.log|];
        var e2 := t.log[|before.log| + 1];
        assert t.log == before.log + [e1] + [e2];
        WildcardWritesAppend(before.log, e1);
        WildcardWritesAppend(before.log + [e1], e2);
      case Remove(k) =>
        var t := Delete(before, k);
        if k in before.props {
          WildcardWritesAppend(before.log, t.log[|before.log|]);
        }
      case Listen(n, h) =>
      case ListenAll(h) =>
      case ListenDel(h) =>
    }
  }

  // ---------------------------------------------------------------------------
  // The table holds the last value written

  /** What the last operation on `key` among `ops` was, if any. */
  datatype Touch<V> = Untouched | Written(value: V) | Removed

  function LastTouch<V>(ops: seq<Op<V>>, key: string): Touch<V>
    decreases |ops|
  {
    if ops == [] then Untouched
    else
      match ops[|ops| - 1]
      case Write(k, v) => if k == key then Written(v) else LastTouch(ops[..|ops| - 1], key)
      case Remove(k) => if k == key then Removed else LastTouch(ops[..|ops| - 1], key)
      case _ => LastTouch(ops[..|ops| - 1], key)
  }

  /**
   After any sequence of operations a key holds the value of its last
   assignment, is absent if it was deleted since, and otherwise keeps what it
   held before: writes to other keys and registrations never change it.
   */
  lemma {:induction false} TableHoldsLastWrite<V>(s: State<V>, ops: seq<Op<V>>, key: string)
    ensures match LastTouch(ops, key)
      case Untouched => Lookup(Run(s, ops).props, key) == Lookup(s.props, key)
      case Written(v) => Lookup(Run(s, ops).props, key) == Some(v)
      case Removed => Lookup(Run(s, ops).props, key) == None
    decreases |ops|
  {
    if ops != [] {
      var init := ops[..|ops| - 1];
      var before := Run(s, init);
      TableHoldsLastWrite(s, init, key);
      match ops[|ops| - 1]
      case Write(k, v) =>
        assert Lookup(Assign(before, k, v).props, key) == if k == key then Some(v) else Lookup(before.props, key) by {
          if k != key {
            assert key in Assign(before, k, v).props - {k} <==> key in before.props - {k};
          }
        }
      case Remove(k) =>
        assert k != key ==> Lookup(Delete(before, k).props, key) == Lookup(before.props, key);
      case Listen(n, h) =>
      case ListenAll(h) =>
      case ListenDel(h) =>
    }
  }

  // ---------------------------------------------------------------------------
  // Delivery order is registration order

  /** The handlers `ops` registers under the event name `name`, in order. */
  function Registrations<V>(ops: seq<Op<V>>, name: string): seq<HandlerId>
    decreases |ops|
  {
    if ops == [] then []
    else
      Registrations(ops[..|ops| - 1], name)
        + match ops[|ops| - 1]
          case Listen(n, h) => if n == name then [h] else []
          case ListenAll(h) => if name == WILDCARD then [h] else []
          case ListenDel(h) => if name == DELETION then [h] else []
          case _ => []
  }

  /**
   Unless a deletion of the key `name` intervenes, the handlers an event named
   `name` reaches are the earlier ones followed by every later registration,
   in the order registered. Assignments and deletions of other keys never
   remove a handler.
   */
  lemma {:induction false} DeliveryFollowsRegistration<V>(s: State<V>, ops: seq<Op<V>>, name: string)
    requires forall i :: 0 <= i < |ops| ==> ops[i] != Remove(name)
    ensures Recipients(Run(s, ops).listeners, name) == Recipients(s.listeners, name) + Registrations(ops, name)
    decreases |ops|
  {
    if ops != [] {
      var init := ops[..|ops| - 1];
      var before := Run(s, init);
      assert forall i :: 0 <= i < |init| ==> init[i] == ops[i];
      DeliveryFollowsRegistration(s, init, name);
      match ops[|ops| - 1]
      case Write(k, v) =>
      case Remove(k) =>
        assert k != name;
      case Listen(n, h) =>
      case ListenAll(h) =>
      case ListenDel(h) =>
    }
  }

  // ---------------------------------------------------------------------------
  // Single-operation consequences that callers rely on

  /**
   No change detection: assigning the value a key already holds leaves the
   table as it was and still appends the same two events again.
   */
  lemma RepeatedWriteEmitsAgain<V>(s: State<V>, key: string, value: V)
    ensures var once := Assign(s, key, value);
            var twice := Assign(once, key, value);
            twice.props == once.props && twice.listeners == s.listeners
            && twice.log == once.log + once.log[|s.log|..]
  {
  }

  /**
   A property named like an event channel shares that channel. Deleting the
   property "*" removes every wildcard handler, so the next assignment reaches
   none of them; deleting the property "del" removes every deletion handler
   before its own deletion is announced, so that announcement reaches nobody.
   */
  lemma DeletingWildcardKeyDropsWildcardHandlers<V>(s: State<V>, v: V, key: string, w: V)
    ensures var t := Assign(Delete(Assign(s, WILDCARD, v), WILDCARD), key, w);
            t.log[|t.log| - 1] == Event(WILDCARD, Name(key), Value(w), [])
  {
  }

  lemma DeletingDelKeyIsAnnouncedToNobody<V>(s: State<V>, v: V)
    ensures var t := Delete(Assign(s, DELETION, v), DELETION);
            && t.log[|t.log| - 1] == Event(DELETION, Name(DELETION), Value(v), [])
            && Recipients(t.listeners, DELETION) == []
  {
  }

  /**
   Assigning to a property named "del" reaches the deletion handlers, with
   the value first and the key second: the reverse of what a real deletion
   delivers.
   */
  lemma WritingKeyNamedDelReachesDeletionHandlers<V>(s: State<V>, h: HandlerId, v: V)
    ensures var t := Assign(Subscribe(s, DELETION, h), DELETION, v);
            t.log[|s.log|] == Event(DELETION, Value(v), Name(DELETION), Recipients(s.listeners, DELETION) + [h])
  {
  }
}
