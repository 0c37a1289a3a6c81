/** The client's WebSocket service (api/Websocket/websocket.service.ts): a
    registry of listeners per event type, the guard in front of `send`, the
    dispatch of incoming frames and a bounded reconnect loop.

    The browser socket, `JSON`, `setTimeout` and the listeners themselves are
    modelled abstractly: events are method calls, a timer is an identifier in
    `pendingTimers`, a listener call is an entry appended to `invocations`,
    and a transmitted frame is an entry appended to `transmitted`. */
module WebSocket {
  import opened Common
  import opened JsValues

  /** A listener callback, known only by its identity (`indexOf` compares with `===`). */
  type Callback = nat

  /** One of the arrays stored in `messageListeners`. It is an object because
      the unsubscribe closure returned by `on` captures the array itself. */
  class ListenerList {
    var items: seq<Callback>

    constructor ()
      ensures items == []
    {
      items := [];
    }
  }

  /** The unsubscribe closure returned by `on`: the array it captured and the callback. */
  datatype Subscription = Subscription(list: ListenerList, callback: Callback)

  datatype ReadyState = Connecting | Open | Closing | Closed

  /** The promise returned by the most recent `connect` that created a socket.
      `byReconnect` records that the reconnect timer made the call and attached
      its `.catch` handler. */
  datatype ConnectPromise = Idle | Pending(byReconnect: bool) | Resolved | Rejected(byReconnect: bool)

  /** `resolve(true)`: only a pending promise changes. */
  function Resolving(p: ConnectPromise): ConnectPromise {
    if p.Pending? then Resolved else p
  }

  /** `reject(...)`: only a pending promise changes. */
  function Rejecting(p: ConnectPromise): ConnectPromise {
    if p.Pending? then Rejected(p.byReconnect) else p
  }

  /** The argument of `send`. */
  datatype Action = Action(action: string, payload: JsValue)

  /** An incoming frame: `JSON.parse(event.data)` either throws or yields a value. */
  datatype Frame = Malformed | Parsed(message: JsValue)

  /** One `notifyListeners(eventType, argument)` call made by the message handler. */
  datatype Notice = Notice(eventType: string, argument: JsValue)

  /** One listener call; `threw` records that the listener threw (the loop catches it). */
  datatype Invocation = Invocation(callback: Callback, argument: JsValue, threw: bool)

  const MaxReconnectAttempts: nat := 5

  /** `listeners.indexOf(cb)`: the first position of `cb`, or -1. */
  function IndexOf(s: seq<Callback>, cb: Callback): (i: int)
    ensures -1 <= i < |s|
    ensures i == -1 <==> cb !in s
    ensures 0 <= i ==> s[i] == cb && cb !in s[..i]
  {
    if s == [] then -1
    else if s[0] == cb then 0
    else
      var j := IndexOf(s[1..], cb);
      if j == -1 then -1
      else
        assert s[..j + 1] == [s[0]] + s[1..][..j];
        j + 1
  }

  /** What the unsubscribe closure does to its array: `splice(indexOf(cb), 1)` when found. */
  function RemoveFirst(s: seq<Callback>, cb: Callback): (r: seq<Callback>)
    ensures cb !in s ==> r == s
    ensures cb in s ==> |r| == |s| - 1 && multiset(r) == multiset(s) - multiset{cb}
    ensures cb in s ==> exists i :: 0 <= i < |s| && s[i] == cb && cb !in s[..i] && r == s[..i] + s[i + 1..]
  {
    var i := IndexOf(s, cb);
    if i == -1 then s
    else
      assert s == s[..i] + [cb] + s[i + 1..];
      s[..i] + s[i + 1..]
  }

  /** Subscribing and then unsubscribing a callback that was not yet registered
      restores the list; if it was already registered, the EARLIER copy is the
      one removed and the new registration stays at the end. */
  lemma {:induction false} SubscribeThenUnsubscribe(s: seq<Callback>, cb: Callback)
    ensures cb !in s ==> RemoveFirst(s + [cb], cb) == s
    ensures cb in s ==> RemoveFirst(s + [cb], cb) == RemoveFirst(s, cb) + [cb]
  {
    var t := s + [cb];
    if cb in s {
      var k := IndexOf(s, cb);
      assert IndexOf(t, cb) == k by {
        assert t[k] == cb;
        assert t[..k] == s[..k];
        IndexOfIsFirst(t, cb, k);
      }
      assert RemoveFirst(t, cb) == t[..k] + t[k + 1..];
      assert RemoveFirst(s, cb) == s[..k] + s[k + 1..];
      assert t[..k] == s[..k] && t[k + 1..] == s[k + 1..] + [cb];
    } else {
      assert IndexOf(t, cb) == |s| by {
        assert t[|s|] == cb;
        assert t[..|s|] == s;
        IndexOfIsFirst(t, cb, |s|);
      }
      assert RemoveFirst(t, cb) == t[..|s|] + t[|s| + 1..];
      assert t[..|s|] == s;
    }
  }

  /** A position holding `cb` with no earlier `cb` is the one `indexOf` finds. */
  lemma IndexOfIsFirst(s: seq<Callback>, cb: Callback, k: nat)
    requires k < |s| && s[k] == cb && cb !in s[..k]
    ensures IndexOf(s, cb) == k
  {
  }

  /** A callback registered once is gone after one unsubscribe, so a second call is a no-op. */
  lemma UnsubscribeTwice(s: seq<Callback>, cb: Callback)
    requires multiset(s)[cb] == 1
    ensures cb !in RemoveFirst(s, cb)
    ensures RemoveFirst(RemoveFirst(s, cb), cb) == RemoveFirst(s, cb)
  {
    var r := RemoveFirst(s, cb);
    assert cb !in multiset(r);
  }

  /** The listener calls made by the loop in `notifyListeners`: every listener
      once, in list order, whether or not an earlier one threw. */
  function Invoke(cbs: seq<Callback>, argument: JsValue, throwing: set<Callback>): (calls: seq<Invocation>)
    ensures |calls| == |cbs|
    ensures forall k :: 0 <= k < |cbs| ==> calls[k].callback == cbs[k] && calls[k].argument == argument
    ensures forall k :: 0 <= k < |cbs| ==> calls[k].threw == (cbs[k] in throwing)
  {
    if cbs == [] then []
    else [Invocation(cbs[0], argument, cbs[0] in throwing)] + Invoke(cbs[1..], argument, throwing)
  }

  /** The `notifyListeners` calls the message handler makes for one frame: the
      typed listeners with `payload`, then the generic 'message' listeners with the
      whole envelope. A frame that does not parse, or parses to `null`, reaches
      nobody (reading `.type` of `null` throws into the same catch). A `type` that
      is missing or not a string matches no registered type, so those frames
      reach only the 'message' listeners. */
  function Notifications(frame: Frame): (ns: seq<Notice>)
    ensures frame.Malformed? ==> ns == []
    ensures |ns| <= 2
    ensures ns != [] ==> frame.Parsed? && ns[|ns| - 1] == Notice("message", frame.message)
    ensures |ns| == 2 ==> frame.message.Obj? && Get(frame.message.fields, "type") == Str(ns[0].eventType)
                          && ns[0].argument == Get(frame.message.fields, "payload")
    ensures frame.Parsed? && !Nullish(frame.message) ==> ns != []
    ensures frame.Parsed? && Nullish(frame.message) ==> ns == []
    ensures frame.Parsed? && frame.message.Obj? && Get(frame.message.fields, "type").Str? ==>
              ns == [Notice(Get(frame.message.fields, "type").s, Get(frame.message.fields, "payload")),
                     Notice("message", frame.message)]
    ensures frame.Parsed? && !Nullish(frame.message) && !(frame.message.Obj? && Get(frame.message.fields, "type").Str?) ==>
              ns == [Notice("message", frame.message)]
  {
    match frame
    case Malformed => []
    case Parsed(msg) =>
      if Nullish(msg) then []
      else TypedNotice(msg) + [Notice("message", msg)]
  }

  /** The first `notifyListeners` call, when the envelope's `type` is a string. */
  function TypedNotice(msg: JsValue): seq<Notice> {
    match msg
    case Obj(fields) =>
      (match Get(fields, "type")
       case Str(t) => [Notice(t, Get(fields, "payload"))]
       case _ => [])
    case _ => []
  }

  /** `messageListeners.get(eventType) || []` as a list of callbacks. */
  function ListenersFor(registry: map<string, seq<Callback>>, eventType: string): seq<Callback> {
    if eventType in registry then registry[eventType] else []
  }

  /** All listener calls made for a sequence of notices. */
  function Deliver(registry: map<string, seq<Callback>>, ns: seq<Notice>, throwing: set<Callback>): seq<Invocation> {
    if ns == [] then []
    else Invoke(ListenersFor(registry, ns[0].eventType), ns[0].argument, throwing) + Deliver(registry, ns[1..], throwing)
  }

  /** Delivering the typed notice, if any, and then the 'message' notice. */
  lemma DeliverThenMessage(registry: map<string, seq<Callback>>, typed: seq<Notice>, msg: JsValue, throwing: set<Callback>)
    requires |typed| <= 1
    ensures Deliver(registry, typed + [Notice("message", msg)], throwing)
            == (if typed == [] then [] else Invoke(ListenersFor(registry, typed[0].eventType), typed[0].argument, throwing))
               + Invoke(ListenersFor(registry, "message"), msg, throwing)
  {
    var g := Notice("message", msg);
    assert [g][1..] == [];
    assert Deliver(registry, [g], throwing) == Invoke(ListenersFor(registry, "message"), msg, throwing);
    if typed != [] {
      assert (typed + [g])[0] == typed[0];
      assert (typed + [g])[1..] == [g];
    } else {
      assert typed + [g] == [g];
    }
  }

  lemma {:induction false} InvokeSnoc(cbs: seq<Callback>, cb: Callback, argument: JsValue, throwing: set<Callback>)
    ensures Invoke(cbs + [cb], argument, throwing) == Invoke(cbs, argument, throwing) + [Invocation(cb, argument, cb in throwing)]
  {
    if cbs == [] {
      assert cbs + [cb] == [cb];
    } else {
      assert (cbs + [cb])[1..] == cbs[1..] + [cb];
      InvokeSnoc(cbs[1..], cb, argument, throwing);
    }
  }

  /** The guard of `send`. The socket must be OPEN. A truthy payload then meets
      `'sessionId' in payload`, which throws on a primitive (the catch returns
      false) and otherwise rejects a present but falsy `sessionId`. */
  function SendAllowed(socket: Option<ReadyState>, payload: JsValue): (ok: bool)
    ensures ok ==> socket == Some(Open)
    ensures payload.Obj? && HasKey(payload.fields, "sessionId") && !Truthy(Get(payload.fields, "sessionId")) ==> !ok
    ensures Truthy(payload) && (payload.Bool? || payload.Num? || payload.Str?) ==> !ok
    ensures socket == Some(Open) && !Truthy(payload) ==> ok
    ensures socket == Some(Open) && payload.Obj? && !HasKey(payload.fields, "sessionId") ==> ok
    ensures ok <==> socket == Some(Open)
                    && (|| !Truthy(payload) || payload.Arr? || payload.File?
                        || (payload.Obj? && (!HasKey(payload.fields, "sessionId") || Truthy(Get(payload.fields, "sessionId")))))
  {
    if socket != Some(Open) then false
    else if !Truthy(payload) then true
    else
      match payload
      case Obj(fields) => !(HasKey(fields, "sessionId") && !Truthy(Get(fields, "sessionId")))
      case Arr(_) => true
      case File(_) => true
      case _ => false
  }

  class Service {
    var socket: Option<ReadyState>
    var isConnected: bool
    var listeners: map<string, ListenerList>
    var reconnectAttempts: nat
    var reconnectTimeoutId: Option<nat>
    /** Environment: timers set by `setTimeout` that have neither fired nor been cleared. */
    var pendingTimers: set<nat>
    /** Environment: the identifier the next `setTimeout` returns. */
    var nextTimerId: nat
    var promise: ConnectPromise
    /** Environment: every frame handed to `socket.send`, in order. */
    var transmitted: seq<Action>
    /** Environment: every listener call, in order. */
    var invocations: seq<Invocation>
    /** Environment: how many times `new WebSocket(url)` ran. */
    var socketsCreated: nat

    /** Every type has its own array; the attempt counter is bounded; at most
        one reconnect timer is pending, it is the one `reconnectTimeoutId`
        names, and it is only ever pending below the bound. */
    ghost predicate Valid()
      reads this
    {
      && (forall t1, t2 :: t1 in listeners && t2 in listeners && t1 != t2 ==> listeners[t1] != listeners[t2])
      && reconnectAttempts <= MaxReconnectAttempts
      && (pendingTimers == {} || (reconnectTimeoutId.Some? && pendingTimers == {reconnectTimeoutId.value}))
      && (pendingTimers != {} ==> reconnectAttempts < MaxReconnectAttempts)
      && (reconnectTimeoutId.Some? ==> reconnectTimeoutId.value < nextTimerId)
    }

    /** The registry's contents: each type's callbacks in registration order. */
    ghost function Registry(): map<string, seq<Callback>>
      reads this`listeners, listeners.Values
    {
      map t | t in listeners :: listeners[t].items
    }

    constructor ()
      ensures Valid()
      ensures socket == None && !isConnected && listeners == map[] && reconnectAttempts == 0
      ensures reconnectTimeoutId == None && pendingTimers == {} && nextTimerId == 0 && promise == Idle
      ensures transmitted == [] && invocations == [] && socketsCreated == 0
    {
      socket := None;
      isConnected := false;
      listeners := map[];
      reconnectAttempts := 0;
      reconnectTimeoutId := None;
      pendingTimers := {};
      nextTimerId := 0;
      promise := Idle;
      transmitted := [];
      invocations := [];
      socketsCreated := 0;
    }

    /** `new WebSocket(url)` with its handlers attached to a new pending promise. */
    method CreateSocket(byReconnect: bool)
      modifies this`socket, this`promise, this`socketsCreated
      ensures socket == Some(Connecting) && promise == Pending(byReconnect)
      ensures socketsCreated == old(socketsCreated) + 1
    {
      socket := Some(Connecting);
      promise := Pending(byReconnect);
      socketsCreated := socketsCreated + 1;
    }

    /** `connect()`: resolves at once, creating nothing, when a socket exists and
        the flag says connected; otherwise creates a socket and waits for events. */
    method Connect() returns (resolvedAtOnce: bool)
      requires Valid()
      modifies this`socket, this`promise, this`socketsCreated
      ensures Valid()
      ensures resolvedAtOnce <==> old(socket.Some? && isConnected)
      ensures resolvedAtOnce ==> socket == old(socket) && promise == old(promise) && socketsCreated == old(socketsCreated)
      ensures !resolvedAtOnce ==> socket == Some(Connecting) && promise == Pending(false)
                                  && socketsCreated == old(socketsCreated) + 1
    {
      resolvedAtOnce := socket.Some? && isConnected;
      if !resolvedAtOnce {
        CreateSocket(false);
      }
    }

    /** `onopen` */
    method OnOpen()
      requires Valid()
      modifies this`socket, this`isConnected, this`reconnectAttempts, this`promise
      ensures Valid()
      ensures isConnected && reconnectAttempts == 0 && promise == Resolving(old(promise))
      ensures socket == if old(socket).Some? then Some(Open) else None
    {
      if socket.Some? {
        socket := Some(Open);
      }
      isConnected := true;
      reconnectAttempts := 0;
      promise := Resolving(promise);
    }

    /** `onclose`: the flag is cleared BEFORE it is tested, so a close never
        rejects the connect promise. */
    method OnClose(wasClean: bool)
      requires Valid()
      modifies this`socket, this`isConnected, this`reconnectTimeoutId, this`pendingTimers, this`nextTimerId, this`promise
      ensures Valid()
      ensures !isConnected && promise == old(promise)
      ensures socket == if old(socket).Some? then Some(Closed) else None
      ensures !wasClean && reconnectAttempts < MaxReconnectAttempts ==>
                reconnectTimeoutId == Some(old(nextTimerId)) && pendingTimers == {old(nextTimerId)}
      ensures wasClean || reconnectAttempts == MaxReconnectAttempts ==>
                reconnectTimeoutId == old(reconnectTimeoutId) && pendingTimers == old(pendingTimers)
                && nextTimerId == old(nextTimerId)
    {
      isConnected := false;
      if socket.Some? {
        socket := Some(Closed);
      }
      if !wasClean && reconnectAttempts < MaxReconnectAttempts {
        ScheduleReconnect();
      }
      promise := if isConnected then Rejecting(promise) else promise;
    }

    /** `onerror`: rejects the connect promise. If the reconnect timer made that
        call, its `.catch` reschedules while attempts remain. */
    method OnError()
      requires Valid()
      modifies this`reconnectTimeoutId, this`pendingTimers, this`nextTimerId, this`promise
      ensures Valid()
      ensures promise == Rejecting(old(promise))
      ensures old(promise) == Pending(true) && reconnectAttempts < MaxReconnectAttempts ==>
                reconnectTimeoutId == Some(old(nextTimerId)) && pendingTimers == {old(nextTimerId)}
      ensures !(old(promise) == Pending(true) && reconnectAttempts < MaxReconnectAttempts) ==>
                reconnectTimeoutId == old(reconnectTimeoutId) && pendingTimers == old(pendingTimers)
                && nextTimerId == old(nextTimerId)
    {
      var caught := promise == Pending(true);
      promise := Rejecting(promise);
      if caught && reconnectAttempts < MaxReconnectAttempts {
        ScheduleReconnect();
      }
    }

    /** `scheduleReconnect()`: clears the previous timer, then sets a new one.
        Both callers test `reconnectAttempts < maxReconnectAttempts` first. */
    method ScheduleReconnect()
      requires Valid() && reconnectAttempts < MaxReconnectAttempts
      modifies this`reconnectTimeoutId, this`pendingTimers, this`nextTimerId
      ensures Valid()
      ensures reconnectTimeoutId == Some(old(nextTimerId)) && pendingTimers == {old(nextTimerId)}
      ensures nextTimerId == old(nextTimerId) + 1
    {
      if reconnectTimeoutId.Some? {
        pendingTimers := pendingTimers - {reconnectTimeoutId.value};
      }
      reconnectTimeoutId := Some(nextTimerId);
      pendingTimers := pendingTimers + {nextTimerId};
      nextTimerId := nextTimerId + 1;
    }

    /** The reconnect timer fires: `++reconnectAttempts`, then `connect()` with a
        `.catch` attached. `reconnectTimeoutId` keeps the id of the fired timer. */
    method ReconnectTimerFires(t: nat)
      requires Valid() && t in pendingTimers
      modifies this`pendingTimers, this`reconnectAttempts, this`socket, this`promise, this`socketsCreated
      ensures Valid()
      ensures pendingTimers == {}
      ensures reconnectAttempts == old(reconnectAttempts) + 1 <= MaxReconnectAttempts
      ensures old(socket.Some? && isConnected) ==>
                socket == old(socket) && promise == old(promise) && socketsCreated == old(socketsCreated)
      ensures !old(socket.Some? && isConnected) ==>
                socket == Some(Connecting) && promise == Pending(true) && socketsCreated == old(socketsCreated) + 1
    {
      pendingTimers := pendingTimers - {t};
      reconnectAttempts := reconnectAttempts + 1;
      if !(socket.Some? && isConnected) {
        CreateSocket(true);
      }
    }

    /** `disconnect()`: does nothing without a socket, so a pending reconnect is
        only cancelled when a socket exists. */
    method Disconnect()
      requires Valid()
      modifies this`socket, this`isConnected, this`reconnectTimeoutId, this`pendingTimers
      ensures Valid()
      ensures socket == None
      ensures old(socket).None? ==>
                isConnected == old(isConnected) && reconnectTimeoutId == old(reconnectTimeoutId)
                && pendingTimers == old(pendingTimers)
      ensures old(socket).Some? ==> !isConnected && reconnectTimeoutId == None && pendingTimers == {}
    {
      if socket.Some? {
        socket := None;
        isConnected := false;
        if reconnectTimeoutId.Some? {
          pendingTimers := pendingTimers - {reconnectTimeoutId.value};
          reconnectTimeoutId := None;
        }
      }
    }

    /** `send(action)`: transmits exactly one frame when the guard lets it
        through, and nothing otherwise. */
    method Send(a: Action) returns (sent: bool)
      modifies this`transmitted
      ensures sent == SendAllowed(socket, a.payload)
      ensures transmitted == old(transmitted) + (if sent then [a] else [])
    {
      if socket != Some(Open) {
        return false;
      }
      if Truthy(a.payload) {
        if !a.payload.Obj? && !a.payload.Arr? && !a.payload.File? {
          return false;
        }
        if a.payload.Obj? && HasKey(a.payload.fields, "sessionId") && !Truthy(Get(a.payload.fields, "sessionId")) {
          return false;
        }
      }
      transmitted := transmitted + [a];
      sent := true;
    }

    /** `on(type, callback)`: appends to that type's array, creating the array
        when absent, and returns the unsubscribe closure over that array. */
    method On(eventType: string, cb: Callback) returns (sub: Subscription)
      requires Valid()
      modifies this`listeners, listeners.Values
      ensures Valid()
      ensures eventType in listeners && sub == Subscription(listeners[eventType], cb)
      ensures Registry() == old(Registry())[eventType := ListenersFor(old(Registry()), eventType) + [cb]]
      ensures eventType in old(listeners) ==> listeners == old(listeners)
      ensures eventType !in old(listeners) ==>
                fresh(listeners[eventType]) && listeners == old(listeners)[eventType := listeners[eventType]]
    {
      if eventType !in listeners {
        var created := new ListenerList();
        listeners := listeners[eventType := created];
      }
      var list := listeners[eventType];
      list.items := list.items + [cb];
      sub := Subscription(list, cb);
      forall t | t in listeners && t != eventType
        ensures listeners[t].items == old(listeners[t].items)
      {
        assert listeners[t] != list;
      }
    }

    /** Calling the closure returned by `on`. It acts on the array it captured,
        which after an `off` of that type is no longer in the registry. */
    method Unsubscribe(sub: Subscription)
      requires Valid()
      modifies sub.list
      ensures Valid()
      ensures sub.list.items == RemoveFirst(old(sub.list.items), sub.callback)
      ensures Registry().Keys == old(Registry()).Keys
      ensures forall t :: t in listeners ==>
                Registry()[t] == if listeners[t] == sub.list
                                 then RemoveFirst(old(Registry())[t], sub.callback)
                                 else old(Registry())[t]
      ensures sub.list !in listeners.Values ==> Registry() == old(Registry())
    {
      var index := IndexOf(sub.list.items, sub.callback);
      if index != -1 {
        sub.list.items := sub.list.items[..index] + sub.list.items[index + 1..];
      }
    }

    /** `off(type)`: drops the whole array of that type from the registry. */
    method Off(eventType: string)
      requires Valid()
      modifies this`listeners
      ensures Valid()
      ensures listeners == old(listeners) - {eventType}
      ensures Registry() == old(Registry()) - {eventType}
    {
      listeners := listeners - {eventType};
    }

    /** `notifyListeners(type, argument)`: calls each listener of the type once,
        in order; a listener that throws is logged and the loop goes on. */
    method NotifyListeners(eventType: string, argument: JsValue, throwing: set<Callback>)
      modifies this`invocations
      ensures invocations == old(invocations) + Invoke(ListenersFor(Registry(), eventType), argument, throwing)
      ensures Registry() == old(Registry())
    {
      ghost var expected := ListenersFor(Registry(), eventType);
      assert expected == if eventType in listeners then listeners[eventType].items else [];
      if eventType in listeners && |listeners[eventType].items| > 0 {
        var items := listeners[eventType].items;
        var i := 0;
        while i < |items|
          invariant 0 <= i <= |items|
          invariant invocations == old(invocations) + Invoke(items[..i], argument, throwing)
        {
          var threw := items[i] in throwing;
          InvokeSnoc(items[..i], items[i], argument, throwing);
          assert items[..i + 1] == items[..i] + [items[i]];
          invocations := invocations + [Invocation(items[i], argument, threw)];
          i := i + 1;
        }
        assert items[..i] == items;
      }
    }

    /** `onmessage`: a parsed envelope goes to its type's listeners with
        `payload`, then to the 'message' listeners whole. `throwing` names the
        listeners that throw when called. */
    method OnMessage(frame: Frame, throwing: set<Callback>)
      modifies this`invocations
      ensures invocations == old(invocations) + Deliver(Registry(), Notifications(frame), throwing)
    {
      ghost var registry := Registry();
      match frame
      case Malformed =>
      case Parsed(msg) =>
        if !Nullish(msg) {
          var typed := TypedNotice(msg);
          if typed != [] {
            NotifyListeners(typed[0].eventType, typed[0].argument, throwing);
          }
          NotifyListeners("message", msg, throwing);
          DeliverThenMessage(registry, typed, msg, throwing);
        }
    }
  }

  /** `off(type)` detaches the array a subscription of that type captured:
      after it, and after any later `on` of the same type, that array is in
      no entry of the registry. */
  method OffDetaches(svc: Service, eventType: string, stale: Subscription, b: Callback)
    requires svc.Valid() && eventType in svc.listeners && stale.list == svc.listeners[eventType]
    modifies svc, svc.listeners.Values - {stale.list}
    ensures svc.Valid()
    ensures svc.Registry() == old(svc.Registry())[eventType := [b]]
    ensures stale.list !in svc.listeners.Values
  {
    ghost var before := svc.Registry();
    svc.Off(eventType);
    ghost var detached := svc.Registry();
    assert forall u :: u in svc.listeners ==> svc.listeners[u] != stale.list;
    var sb := svc.On(eventType, b);
    assert ListenersFor(detached, eventType) + [b] == [b];
  }

  /** An unsubscribe obtained before `off` cannot remove a listener of the same
      type registered after it: it still points at the detached array. */
  method UnsubscribeAfterOff(svc: Service, eventType: string, a: Callback, b: Callback)
    requires svc.Valid()
    modifies svc, svc.listeners.Values
    ensures svc.Valid()
    ensures svc.Registry() == old(svc.Registry())[eventType := [b]]
  {
    ghost var before := svc.Registry();
    var sa := svc.On(eventType, a);
    ghost var subscribed := svc.Registry();
    assert subscribed[eventType := [b]] == before[eventType := [b]];
    assert svc.listeners.Values - {sa.list} <= old(svc.listeners.Values);
    OffDetaches(svc, eventType, sa, b);
    svc.Unsubscribe(sa);
  }

  /** After an unclean close of a connected socket, if every reconnect attempt
      fails (an error event, then an unclean close), the service makes exactly
      five attempts and then leaves no timer pending. */
  method ReconnectUntilGivingUp(svc: Service) returns (attempts: nat)
    requires svc.Valid() && !svc.isConnected && svc.reconnectAttempts == 0 && svc.pendingTimers != {}
    modifies svc
    ensures svc.Valid()
    ensures attempts == MaxReconnectAttempts == svc.reconnectAttempts
    ensures svc.pendingTimers == {} && !svc.isConnected
    ensures svc.socketsCreated == old(svc.socketsCreated) + MaxReconnectAttempts
  {
    attempts := 0;
    while svc.pendingTimers != {}
      invariant svc.Valid() && !svc.isConnected
      invariant svc.reconnectAttempts == attempts <= MaxReconnectAttempts
      invariant svc.pendingTimers != {} <==> attempts < MaxReconnectAttempts
      invariant svc.socketsCreated == old(svc.socketsCreated) + attempts
      decreases MaxReconnectAttempts - attempts
    {
      var t :| t in svc.pendingTimers;
      svc.ReconnectTimerFires(t);
      svc.OnError();
      svc.OnClose(false);
      attempts := attempts + 1;
    }
  }
}
