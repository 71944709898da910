/** The listener registry of both variants: a map from event name to the
    callbacks registered for it, in registration order. A callback is known by a
    number; invoking it is recorded as an Invocation, since a real callback could
    do anything at all. */
module Events {

  type ListenerId = nat

  type Registry = map<string, seq<ListenerId>>

  /** One call `listener(data)`. */
  datatype Invocation = Invocation(listener: ListenerId, data: string)

  /** `eventListeners.get(event)`, with an unseen event read as no listeners. */
  function Listeners(registry: Registry, event: string): (registered: seq<ListenerId>)
    ensures event in registry ==> registered == registry[event]
    ensures event !in registry ==> registered == []
  {
    if event in registry then registry[event] else []
  }

  /** `on(event, callback)`: create the list on first use, then push. */
  function Register(registry: Registry, event: string, callback: ListenerId): (r: Registry)
    ensures r.Keys == registry.Keys + {event}
    ensures Listeners(r, event) == Listeners(registry, event) + [callback]
    ensures forall other :: other != event ==> Listeners(r, other) == Listeners(registry, other)
  {
    registry[event := Listeners(registry, event) + [callback]]
  }

  /** The calls `listeners.forEach(listener => listener(data))` makes: each
      registered callback once per registration, in registration order. */
  function Dispatch(listeners: seq<ListenerId>, data: string): (calls: seq<Invocation>)
    ensures |calls| == |listeners|
    ensures forall i :: 0 <= i < |listeners| ==> calls[i] == Invocation(listeners[i], data)
  {
    if listeners == [] then []
    else [Invocation(listeners[0], data)] + Dispatch(listeners[1..], data)
  }

  /** Dispatching to two lists in turn is dispatching to their concatenation. */
  lemma {:induction false} DispatchConcat(a: seq<ListenerId>, b: seq<ListenerId>, data: string)
    ensures Dispatch(a + b, data) == Dispatch(a, data) + Dispatch(b, data)
  {
    if a == [] {
      assert a + b == b;
    } else {
      assert (a + b)[1..] == a[1..] + b;
      DispatchConcat(a[1..], b, data);
    }
  }

  /** Dispatching to one more listener of a list appends one call of it. */
  lemma DispatchExtend(listeners: seq<ListenerId>, i: nat, data: string)
    requires i < |listeners|
    ensures Dispatch(listeners[..i + 1], data) == Dispatch(listeners[..i], data) + [Invocation(listeners[i], data)]
  {
    assert listeners[..i + 1] == listeners[..i] + [listeners[i]];
    DispatchConcat(listeners[..i], [listeners[i]], data);
  }

  /** A callback is invoked as many times as it was registered. */
  lemma {:induction false} DispatchCounts(listeners: seq<ListenerId>, data: string, callback: ListenerId)
    ensures multiset(Dispatch(listeners, data))[Invocation(callback, data)] == multiset(listeners)[callback]
  {
    if listeners != [] {
      var head: ListenerId, rest: seq<ListenerId> := listeners[0], listeners[1..];
      var call := Invocation(callback, data);
      calc {
        multiset(Dispatch(listeners, data))[call];
        ==
        multiset([Invocation(head, data)] + Dispatch(rest, data))[call];
        ==
        multiset{Invocation(head, data)}[call] + multiset(Dispatch(rest, data))[call];
        == { DispatchCounts(rest, data, callback); }
        multiset{head}[callback] + multiset(rest)[callback];
        == { assert listeners == [head] + rest; }
        multiset(listeners)[callback];
      }
    }
  }

  /** Registering a callback makes the next dispatch of that event end with one
      call of it, after every callback registered before. */
  lemma RegisterThenDispatch(registry: Registry, event: string, callback: ListenerId, data: string)
    ensures Dispatch(Listeners(Register(registry, event, callback), event), data)
         == Dispatch(Listeners(registry, event), data) + [Invocation(callback, data)]
  {
    DispatchConcat(Listeners(registry, event), [callback], data);
  }

  /** Registering the same callback twice keeps both registrations: it is then
      called twice on every dispatch. */
  lemma DuplicateRegistration(registry: Registry, event: string, callback: ListenerId, data: string)
    ensures Dispatch(Listeners(Register(Register(registry, event, callback), event, callback), event), data)
         == Dispatch(Listeners(registry, event), data) + [Invocation(callback, data), Invocation(callback, data)]
  {
    RegisterThenDispatch(registry, event, callback, data);
    RegisterThenDispatch(Register(registry, event, callback), event, callback, data);
  }
}
