/**
 * The event dispatcher: a registry from event names to ordered lists of
 * handlers. Handlers are opaque identities; invoking one is recorded as an
 * Invocation in the trace that Notify returns.
 */
module Events {
  import opened Wrappers

  /** The identity of a handler object (two handler instances are two identities). */
  type HandlerId = nat

  /**
   * A domain event: the name of its type (the key the dispatcher looks up)
   * and an opaque payload. The time of occurrence is not modelled.
   */
  datatype Event = Event(typeName: string, payload: string)

  /** One call of a handler's handle(event). */
  datatype Invocation = Invocation(handler: HandlerId, event: Event)

  type Registry = map<string, seq<HandlerId>>

  /** getEventHandlers[name]: the list registered under name, or undefined. */
  function Lookup(reg: Registry, name: string): Option<seq<HandlerId>> {
    if name in reg then Some(reg[name]) else None
  }

  /** The handlers notify() calls for an event name: none when the name is unknown. */
  function Subscribers(reg: Registry, name: string): seq<HandlerId> {
    if name in reg then reg[name] else []
  }

  /** register(name, h): h is appended to name's list, which is created if absent. */
  function AddHandler(reg: Registry, name: string, h: HandlerId): (r: Registry)
    ensures Lookup(r, name) == Some(Subscribers(reg, name) + [h])
    ensures forall n :: n != name ==> Lookup(r, n) == Lookup(reg, n)
  {
    reg[name := Subscribers(reg, name) + [h]]
  }

  /** The list with its first occurrence of h taken out. */
  function RemoveFirst(hs: seq<HandlerId>, h: HandlerId): seq<HandlerId>
    decreases |hs|
  {
    if hs == [] then []
    else if hs[0] == h then hs[1..]
    else [hs[0]] + RemoveFirst(hs[1..], h)
  }

  /**
   * Exactly one copy of a registered handler leaves the list, which gets one
   * shorter, and a list without h is kept as it is.
   */
  lemma {:induction false} RemoveFirstTakesOneCopy(hs: seq<HandlerId>, h: HandlerId)
    ensures h in hs ==> multiset(RemoveFirst(hs, h)) == multiset(hs) - multiset{h} && |RemoveFirst(hs, h)| == |hs| - 1
    ensures h !in hs ==> RemoveFirst(hs, h) == hs
    decreases |hs|
  {
    if hs != [] {
      assert [hs[0]] + hs[1..] == hs;
      if hs[0] != h {
        assert h in hs ==> h in hs[1..];
        RemoveFirstTakesOneCopy(hs[1..], h);
      }
    }
  }

  /**
   * unregister(name, h): h leaves name's list; the list itself stays, even
   * when it becomes empty. An unknown name or handler changes nothing.
   */
  function RemoveHandler(reg: Registry, name: string, h: HandlerId): (r: Registry)
    ensures name in reg <==> name in r
    ensures name in reg && h in reg[name] ==> multiset(r[name]) == multiset(reg[name]) - multiset{h}
    ensures name in reg && h !in reg[name] ==> r[name] == reg[name]
    ensures forall n :: n != name ==> Lookup(r, n) == Lookup(reg, n)
  {
    if name in reg then
      RemoveFirstTakesOneCopy(reg[name], h);
      reg[name := RemoveFirst(reg[name], h)]
    else reg
  }

  /** The first index at which h occurs in hs. */
  function IndexOf(hs: seq<HandlerId>, h: HandlerId): (i: nat)
    requires h in hs
    ensures i < |hs| && hs[i] == h && h !in hs[..i]
  {
    if hs[0] == h then 0 else 1 + IndexOf(hs[1..], h)
  }

  /**
   * Removing h, which first occurs at position i, takes out exactly that
   * occurrence and keeps the others in order.
   */
  lemma {:induction false} RemoveFirstAt(hs: seq<HandlerId>, h: HandlerId, i: nat)
    requires i < |hs| && hs[i] == h
    requires forall k :: 0 <= k < i ==> hs[k] != h
    ensures RemoveFirst(hs, h) == hs[..i] + hs[i + 1..]
    decreases i
  {
    if i == 0 {
      assert hs[..0] + hs[1..] == hs[1..];
    } else {
      RemoveFirstAt(hs[1..], h, i - 1);
      assert hs[..i] == [hs[0]] + hs[1..][..i - 1];
      assert hs[i + 1..] == hs[1..][i..];
    }
  }

  /**
   * Removing a registered handler takes out exactly its first occurrence and
   * keeps the others in order.
   */
  lemma RemoveFirstSplices(hs: seq<HandlerId>, h: HandlerId)
    requires h in hs
    ensures RemoveFirst(hs, h) == hs[..IndexOf(hs, h)] + hs[IndexOf(hs, h) + 1..]
  {
    var i := IndexOf(hs, h);
    forall k | 0 <= k < i
      ensures hs[k] != h
    {
      assert hs[k] == hs[..i][k];
    }
    RemoveFirstAt(hs, h, i);
  }

  /** Registering under a name not yet known makes the list [h]. */
  lemma RegisterFresh(reg: Registry, name: string, h: HandlerId)
    requires Lookup(reg, name) == None
    ensures Lookup(AddHandler(reg, name, h), name) == Some([h])
  {
    assert [] + [h] == [h];
  }

  /** Two registrations under one name keep both handlers, in registration order. */
  lemma RegisterTwice(reg: Registry, name: string, h1: HandlerId, h2: HandlerId)
    requires Lookup(reg, name) == None
    ensures Lookup(AddHandler(AddHandler(reg, name, h1), name, h2), name) == Some([h1, h2])
  {
    RegisterFresh(reg, name, h1);
    assert [h1] + [h2] == [h1, h2];
  }

  /** Unregistering the one registered handler leaves the name defined with an empty list. */
  lemma RegisterThenUnregister(reg: Registry, name: string, h: HandlerId)
    requires Lookup(reg, name) == None
    ensures Lookup(RemoveHandler(AddHandler(reg, name, h), name, h), name) == Some([])
  {
  }

  /** Unregistering one of two handlers keeps the other; unregistering both empties the list. */
  lemma UnregisterOneOfTwo(reg: Registry, name: string, h1: HandlerId, h2: HandlerId)
    requires Lookup(reg, name) == None && h1 != h2
    ensures Lookup(RemoveHandler(AddHandler(AddHandler(reg, name, h1), name, h2), name, h1), name) == Some([h2])
    ensures Lookup(RemoveHandler(AddHandler(AddHandler(reg, name, h1), name, h2), name, h2), name) == Some([h1])
    ensures Lookup(RemoveHandler(RemoveHandler(AddHandler(AddHandler(reg, name, h1), name, h2), name, h1), name, h2), name) == Some([])
  {
    RegisterTwice(reg, name, h1, h2);
    assert [h1, h2][1..] == [h2];
    assert RemoveFirst([h1, h2], h2) == [h1] + RemoveFirst([h2], h2);
    assert [h2][1..] == [] && [h1] + [] == [h1];
  }

  /** The number of times h occurs in a trace. */
  function CallsOf(trace: seq<Invocation>, h: HandlerId): nat {
    if trace == [] then 0 else (if trace[0].handler == h then 1 else 0) + CallsOf(trace[1..], h)
  }

  /** The trace notify() produces: each subscriber, in order, handles the event. */
  function Dispatch(hs: seq<HandlerId>, e: Event): seq<Invocation> {
    seq(|hs|, i requires 0 <= i < |hs| => Invocation(hs[i], e))
  }

  /** Each handler occurs in the trace as many times as it occurs in the list. */
  lemma {:induction false} CallsOfDispatch(hs: seq<HandlerId>, e: Event, h: HandlerId)
    ensures CallsOf(Dispatch(hs, e), h) == multiset(hs)[h]
    decreases |hs|
  {
    if hs != [] {
      CallsOfDispatch(hs[1..], e, h);
      assert Dispatch(hs, e)[1..] == Dispatch(hs[1..], e);
      assert [hs[0]] + hs[1..] == hs;
    }
  }

  /** Every handler is called on notify as many times as it is registered under the event's name. */
  lemma NotifyCallsEachRegistration(reg: Registry, e: Event, h: HandlerId)
    ensures CallsOf(Dispatch(Subscribers(reg, e.typeName), e), h) == multiset(Subscribers(reg, e.typeName))[h]
  {
    CallsOfDispatch(Subscribers(reg, e.typeName), e, h);
  }

  /** A handler registered once under an event's name is called exactly once when it is notified. */
  lemma RegisteredOnceCalledOnce(reg: Registry, e: Event, h: HandlerId)
    requires h !in Subscribers(reg, e.typeName)
    ensures CallsOf(Dispatch(Subscribers(AddHandler(reg, e.typeName, h), e.typeName), e), h) == 1
  {
    NotifyCallsEachRegistration(AddHandler(reg, e.typeName, h), e, h);
  }

  class EventDispatcher {
    var handlers: Registry

    /** A new dispatcher knows no event names. */
    constructor ()
      ensures handlers == map[]
    {
      handlers := map[];
    }

    /**
     * getEventHandlers[name]: undefined for a name never registered (or
     * forgotten), else its list, which is what notify calls for that name.
     */
    function GetEventHandlers(name: string): (r: Option<seq<HandlerId>>)
      reads this
      ensures r.None? <==> name !in handlers
      ensures r.Some? ==> r.value == Subscribers(handlers, name)
      ensures r.None? ==> Subscribers(handlers, name) == []
    {
      Lookup(handlers, name)
    }

    method Register(name: string, h: HandlerId)
      modifies this
      ensures handlers == AddHandler(old(handlers), name, h)
    {
      if name !in handlers {
        handlers := handlers[name := []];
      }
      handlers := handlers[name := handlers[name] + [h]];
    }

    method Unregister(name: string, h: HandlerId)
      modifies this
      ensures handlers == RemoveHandler(old(handlers), name, h)
    {
      if name in handlers {
        handlers := handlers[name := RemoveFirst(handlers[name], h)];
      }
    }

    /** unregisterAll(): every name is forgotten, so looking any of them up gives undefined. */
    method UnregisterAll()
      modifies this
      ensures forall name :: Lookup(handlers, name) == None
    {
      handlers := map[];
    }

    /**
     * notify(event): each handler registered under the event's type name
     * handles the event, in registration order; nothing when the name is
     * unknown. The registry is not changed.
     */
    method Notify(e: Event) returns (trace: seq<Invocation>)
      ensures |trace| == |Subscribers(handlers, e.typeName)|
      ensures forall i :: 0 <= i < |trace| ==> trace[i] == Invocation(Subscribers(handlers, e.typeName)[i], e)
      ensures trace == Dispatch(Subscribers(handlers, e.typeName), e)
    {
      trace := [];
      if e.typeName in handlers {
        var hs := handlers[e.typeName];
        var i := 0;
        while i < |hs|
          invariant 0 <= i <= |hs|
          invariant |trace| == i
          invariant forall k :: 0 <= k < i ==> trace[k] == Invocation(hs[k], e)
        {
          trace := trace + [Invocation(hs[i], e)];
          i := i + 1;
        }
      }
    }
  }

  /** The registrations and notifications a caller can rely on, exercised step by step. */
  method DispatcherScenario() {
    var d := new EventDispatcher();
    d.Register("CustomerCreatedEvent", 1);
    d.Register("CustomerCreatedEvent", 2);
    RegisterTwice(map[], "CustomerCreatedEvent", 1, 2);
    assert d.GetEventHandlers("CustomerCreatedEvent") == Some([1, 2]);

    var created := Event("CustomerCreatedEvent", "first");
    var trace := d.Notify(created);
    assert trace == [Invocation(1, created), Invocation(2, created)];

    d.Register("CustomerChangeAddressEvent", 3);
    var moved := Event("CustomerChangeAddressEvent", "Street 1, 1, 12345-678, City 1");
    trace := d.Notify(moved);
    assert trace == [Invocation(3, moved)];

    d.Unregister("CustomerCreatedEvent", 1);
    d.Unregister("CustomerCreatedEvent", 2);
    assert d.GetEventHandlers("CustomerCreatedEvent") == Some([]);

    d.UnregisterAll();
    assert d.GetEventHandlers("CustomerChangeAddressEvent") == None;
    assert d.GetEventHandlers("CustomerCreatedEvent") == None;
  }
}
