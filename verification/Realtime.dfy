/** The websocket subscription protocol of one API process: the bus of live listeners, and per
    socket the map of subscriptions that its message and close handlers maintain.

    Part one states every handler as a function on values.  Part two is the handlers themselves,
    as classes that change their fields, each proved equal to its function.  Part three runs any
    interleaving of the handlers of any number of sockets and proves what every run keeps. */
module Realtime {

  type Scope = string

  // One closure handed to subscribeToScope.  Every subscription creates a new closure, so a
  // listener is named by its socket and the number of closures that socket had created before.
  datatype Listener = Listener(socket: nat, serial: nat)

  // Scope -> listeners; a scope without listeners has no entry.
  type Subscribers = map<Scope, set<Listener>>

  const MAX_MESSAGE_BYTES: nat := 16 * 1024
  const MAX_SCOPES_PER_SOCKET: nat := 32

  // A message after decoding and trimming.  JSON fields that are missing read as "".
  datatype Body = Ping | Json(kind: string, scope: string) | NotJson
  datatype Inbound = Inbound(byteLength: nat, body: Body)

  datatype ErrorCode = MessageTooLarge | Forbidden | AuthorizeFailed | TooManySubscriptions

  datatype Frame =
    | Pong
    | Error(code: ErrorCode)
    | Subscribed(scope: Scope)
    | Unsubscribed(scope: Scope, removed: bool)
    | Event(scope: Scope, payload: string)

  datatype Verdict = Allowed | Denied | Threw

  // What one connection remembers.  `awaiting` holds the scopes of the subscribe handlers that
  // are suspended at the authorization check.
  datatype Conn = Conn(
    subs: map<Scope, Listener>,
    created: nat,
    awaiting: multiset<Scope>,
    open: bool,
    outbox: seq<Frame>)

  const FRESH_CONN := Conn(map[], 0, multiset{}, true, [])

  // ---------------------------------------------------------------- the bus, as values

  function ListenersOn(bus: Subscribers, scope: Scope): set<Listener> {
    if scope in bus then bus[scope] else {}
  }

  function AddListener(bus: Subscribers, scope: Scope, l: Listener): Subscribers {
    bus[scope := ListenersOn(bus, scope) + {l}]
  }

  function RemoveListener(bus: Subscribers, scope: Scope, l: Listener): Subscribers {
    if scope !in bus then bus
    else if bus[scope] - {l} == {} then bus - {scope}
    else bus[scope := bus[scope] - {l}]
  }

  // Every subscription of `subs` undone.
  function RemoveAll(bus: Subscribers, subs: map<Scope, Listener>): Subscribers {
    map s | s in bus && (s in subs ==> bus[s] - {subs[s]} != {})
         :: if s in subs then bus[s] - {subs[s]} else bus[s]
  }

  // ---------------------------------------------------------------- the handlers, as values

  // Sending on a closed socket is dropped.
  function Send(c: Conn, f: Frame): Conn {
    if c.open then c.(outbox := c.outbox + [f]) else c
  }

  function OnMessage(bus: Subscribers, c: Conn, m: Inbound): (Subscribers, Conn) {
    if m.byteLength > MAX_MESSAGE_BYTES then (bus, Send(c, Error(MessageTooLarge)))
    else match m.body
      case Ping => (bus, Send(c, Pong))
      case NotJson => (bus, c)
      case Json(kind, scope) =>
        if kind == "subscribe" && scope != "" then
          (bus, c.(awaiting := c.awaiting + multiset{scope}))
        else if kind == "unsubscribe" && scope != "" then
          if scope in c.subs then
            (RemoveListener(bus, scope, c.subs[scope]),
             Send(c.(subs := c.subs - {scope}), Unsubscribed(scope, true)))
          else
            (bus, Send(c, Unsubscribed(scope, false)))
        else (bus, c)
  }

  // The rest of a subscribe handler, once its authorization has settled.
  function OnAuthorized(id: nat, bus: Subscribers, c0: Conn, scope: Scope, v: Verdict): (Subscribers, Conn) {
    var c := c0.(awaiting := c0.awaiting - multiset{scope});
    match v
    case Denied => (bus, Send(c, Error(Forbidden)))
    case Threw => (bus, Send(c, Error(AuthorizeFailed)))
    case Allowed =>
      if |c.subs| >= MAX_SCOPES_PER_SOCKET then (bus, Send(c, Error(TooManySubscriptions)))
      else
        var bus1 := if scope in c.subs then RemoveListener(bus, scope, c.subs[scope]) else bus;
        var l := Listener(id, c.created);
        (AddListener(bus1, scope, l),
         Send(c.(subs := c.subs[scope := l], created := c.created + 1), Subscribed(scope)))
  }

  function OnClose(bus: Subscribers, c: Conn): (Subscribers, Conn) {
    (RemoveAll(bus, c.subs), c.(subs := map[], open := false))
  }

  // What a bus event does to one socket: one frame per listener of that socket.
  function Deliver(bus: Subscribers, id: nat, c: Conn, scope: Scope, payload: string): Conn {
    var own := set l | l in ListenersOn(bus, scope) && l.socket == id;
    if c.open then c.(outbox := c.outbox + seq(|own|, i => Event(scope, payload))) else c
  }

  // Undoing one more of the subscriptions in `subs`.
  lemma RemoveAllExtends(bus: Subscribers, subs: map<Scope, Listener>, rest: set<Scope>, scope: Scope)
    requires scope in rest && rest <= subs.Keys
    ensures RemoveListener(RemoveAll(bus, subs - rest), scope, subs[scope])
         == RemoveAll(bus, subs - (rest - {scope}))
  {
  }

  // ---------------------------------------------------------------- the handlers, as code

  class Bus {
    var subscribersByScope: Subscribers

    constructor ()
      ensures subscribersByScope == map[]
    {
      subscribersByScope := map[];
    }

    method SubscribeToScope(scope: Scope, l: Listener)
      modifies this
      ensures subscribersByScope == AddListener(old(subscribersByScope), scope, l)
    {
      var current := if scope in subscribersByScope then subscribersByScope[scope] else {};
      current := current + {l};
      subscribersByScope := subscribersByScope[scope := current];
    }

    // The function that SubscribeToScope returned for `l`, called.
    method Unsubscribe(scope: Scope, l: Listener)
      modifies this
      ensures subscribersByScope == RemoveListener(old(subscribersByScope), scope, l)
    {
      if scope !in subscribersByScope {
        return;
      }
      var current := subscribersByScope[scope] - {l};
      if |current| == 0 {
        subscribersByScope := subscribersByScope - {scope};
      } else {
        subscribersByScope := subscribersByScope[scope := current];
      }
    }

    // Local fan-out: the listeners in the order they are called.
    method Publish(scope: Scope) returns (called: seq<Listener>)
      ensures multiset(called) == multiset(ListenersOn(subscribersByScope, scope))
    {
      called := [];
      if scope !in subscribersByScope {
        return;
      }
      var rest := subscribersByScope[scope];
      while rest != {}
        invariant rest <= subscribersByScope[scope]
        invariant multiset(called) == multiset(subscribersByScope[scope] - rest)
        decreases rest
      {
        var l :| l in rest;
        assert subscribersByScope[scope] - (rest - {l}) == (subscribersByScope[scope] - rest) + {l};
        called := called + [l];
        rest := rest - {l};
      }
      assert subscribersByScope[scope] - rest == subscribersByScope[scope];
    }
  }

  class Connection {
    const id: nat
    const bus: Bus
    var subsByScope: map<Scope, Listener>
    var created: nat
    var awaiting: multiset<Scope>
    var open: bool
    var outbox: seq<Frame>

    ghost function View(): Conn
      reads this
    {
      Conn(subsByScope, created, awaiting, open, outbox)
    }

    constructor (id: nat, bus: Bus)
      ensures this.id == id && this.bus == bus && View() == FRESH_CONN
    {
      this.id := id;
      this.bus := bus;
      subsByScope, created, awaiting, open, outbox := map[], 0, multiset{}, true, [];
    }

    method SendFrame(f: Frame)
      modifies this
      ensures View() == Send(old(View()), f)
    {
      if open {
        outbox := outbox + [f];
      }
    }

    method Receive(m: Inbound)
      modifies this, bus
      ensures (bus.subscribersByScope, View()) == OnMessage(old(bus.subscribersByScope), old(View()), m)
    {
      if m.byteLength > MAX_MESSAGE_BYTES {
        SendFrame(Error(MessageTooLarge));
        return;
      }
      if m.body == Ping {
        SendFrame(Pong);
        return;
      }
      if m.body.Json? && m.body.kind == "subscribe" && m.body.scope != "" {
        awaiting := awaiting + multiset{m.body.scope};
        return;
      }
      if m.body.Json? && m.body.kind == "unsubscribe" && m.body.scope != "" {
        var scope := m.body.scope;
        var removed := scope in subsByScope;
        if removed {
          bus.Unsubscribe(scope, subsByScope[scope]);
          subsByScope := subsByScope - {scope};
        }
        SendFrame(Unsubscribed(scope, removed));
      }
    }

    method AuthorizationSettles(scope: Scope, v: Verdict)
      modifies this, bus
      ensures (bus.subscribersByScope, View())
           == OnAuthorized(id, old(bus.subscribersByScope), old(View()), scope, v)
    {
      awaiting := awaiting - multiset{scope};
      if v == Denied {
        SendFrame(Error(Forbidden));
        return;
      }
      if v == Threw {
        SendFrame(Error(AuthorizeFailed));
        return;
      }
      if |subsByScope| >= MAX_SCOPES_PER_SOCKET {
        SendFrame(Error(TooManySubscriptions));
        return;
      }
      Subscribe(scope);
    }

    method Subscribe(scope: Scope)
      modifies this, bus
      ensures var c := old(View());
              var bus1 := if scope in c.subs then RemoveListener(old(bus.subscribersByScope), scope, c.subs[scope])
                          else old(bus.subscribersByScope);
              var l := Listener(id, c.created);
              && bus.subscribersByScope == AddListener(bus1, scope, l)
              && View() == Send(c.(subs := c.subs[scope := l], created := c.created + 1), Subscribed(scope))
    {
      if scope in subsByScope {
        bus.Unsubscribe(scope, subsByScope[scope]);
      }
      var l := Listener(id, created);
      created := created + 1;
      bus.SubscribeToScope(scope, l);
      subsByScope := subsByScope[scope := l];
      SendFrame(Subscribed(scope));
    }

    method Closes()
      modifies this, bus
      ensures (bus.subscribersByScope, View()) == OnClose(old(bus.subscribersByScope), old(View()))
    {
      ghost var bus0 := bus.subscribersByScope;
      var subs, rest := subsByScope, subsByScope.Keys;
      assert subs - rest == map[];
      while rest != {}
        invariant rest <= subs.Keys
        invariant View() == old(View())
        invariant bus.subscribersByScope == RemoveAll(bus0, subs - rest)
        decreases rest
      {
        var scope :| scope in rest;
        RemoveAllExtends(bus0, subs, rest, scope);
        bus.Unsubscribe(scope, subs[scope]);
        rest := rest - {scope};
      }
      assert subs - rest == subs;
      subsByScope := map[];
      open := false;
    }
  }

  // ---------------------------------------------------------------- runs of the whole process

  datatype World = World(bus: Subscribers, conns: map<nat, Conn>)

  const EMPTY_WORLD := World(map[], map[])

  datatype Step =
    | Connect(socket: nat)
    | Message(socket: nat, inbound: Inbound)
    | Authorized(socket: nat, scope: Scope, verdict: Verdict)
    | Close(socket: nat)
    | Publish(scope: Scope, payload: string)

  // A step that the runtime cannot take leaves the world as it is: a closed socket receives no
  // message and closes once, an authorization settles only when a handler waits for it.
  function Next(w: World, step: Step): World {
    match step
    case Connect(k) =>
      if k in w.conns then w else w.(conns := w.conns[k := FRESH_CONN])
    case Message(k, m) =>
      if k in w.conns && w.conns[k].open then
        var (bus, c) := OnMessage(w.bus, w.conns[k], m);
        World(bus, w.conns[k := c])
      else w
    case Authorized(k, scope, v) =>
      if k in w.conns && scope in w.conns[k].awaiting then
        var (bus, c) := OnAuthorized(k, w.bus, w.conns[k], scope, v);
        World(bus, w.conns[k := c])
      else w
    case Close(k) =>
      if k in w.conns && w.conns[k].open then
        var (bus, c) := OnClose(w.bus, w.conns[k]);
        World(bus, w.conns[k := c])
      else w
    case Publish(scope, payload) =>
      w.(conns := map k | k in w.conns :: Deliver(w.bus, k, w.conns[k], scope, payload))
  }

  function Run(w: World, steps: seq<Step>): World
    decreases |steps|
  {
    if |steps| == 0 then w else Run(Next(w, steps[0]), steps[1..])
  }

  // The subscription a socket holds on a scope, if any.
  function Held(w: World, k: nat, scope: Scope): set<Listener> {
    if k in w.conns && scope in w.conns[k].subs then {w.conns[k].subs[scope]} else {}
  }

  // The listeners of one socket that the bus would call for a scope.
  function Live(w: World, k: nat, scope: Scope): set<Listener> {
    set l | l in ListenersOn(w.bus, scope) && l.socket == k
  }

  // What the last acknowledgement about a scope told the client.
  function Acked(outbox: seq<Frame>, scope: Scope): bool {
    if outbox == [] then false
    else
      var f := outbox[|outbox| - 1];
      if f == Subscribed(scope) then true
      else if f.Unsubscribed? && f.scope == scope then false
      else Acked(outbox[..|outbox| - 1], scope)
  }

  // Every frame agrees with the acknowledgements before it: an event arrives only on a scope
  // last acknowledged as subscribed, and `removed` says whether the scope was subscribed.
  ghost predicate Truthful(outbox: seq<Frame>) {
    forall i {:trigger outbox[i]} :: 0 <= i < |outbox| ==>
      && (outbox[i].Event? ==> Acked(outbox[..i], outbox[i].scope))
      && (outbox[i].Unsubscribed? ==> outbox[i].removed == Acked(outbox[..i], outbox[i].scope))
  }

  ghost predicate ConnOk(k: nat, c: Conn) {
    && |c.subs| <= MAX_SCOPES_PER_SOCKET
    && (forall s :: s in c.subs ==> c.subs[s].socket == k && c.subs[s].serial < c.created)
    && Truthful(c.outbox)
    && (c.open ==> forall s :: Acked(c.outbox, s) <==> s in c.subs)
  }

  ghost predicate Owned(conns: map<nat, Conn>, s: Scope, l: Listener) {
    l.socket in conns && s in conns[l.socket].subs && conns[l.socket].subs[s] == l
  }

  // The live listeners are exactly the values of the sockets' maps.
  ghost predicate BusAgrees(w: World) {
    && (forall s, l :: l in ListenersOn(w.bus, s) <==> Owned(w.conns, s, l))
    && NoEmptyEntries(w.bus)
  }

  ghost predicate NoEmptyEntries(bus: Subscribers) {
    forall s :: s in bus ==> bus[s] != {}
  }

  ghost predicate Inv(w: World) {
    && BusAgrees(w)
    && forall k :: k in w.conns ==> ConnOk(k, w.conns[k])
  }

  // From `bus` to `bus'` only socket k's listeners change, and they become the values of `subs`.
  ghost predicate Rewired(bus: Subscribers, bus': Subscribers, k: nat, subs: map<Scope, Listener>) {
    forall s, l :: l in ListenersOn(bus', s) <==>
      if l.socket == k then s in subs && subs[s] == l else l in ListenersOn(bus, s)
  }

  lemma RewiredKeepsInv(w: World, k: nat, bus': Subscribers, c': Conn)
    requires Inv(w) && k in w.conns
    requires Rewired(w.bus, bus', k, c'.subs) && NoEmptyEntries(bus') && ConnOk(k, c')
    ensures Inv(World(bus', w.conns[k := c']))
  {
    var w' := World(bus', w.conns[k := c']);
    forall s, l ensures l in ListenersOn(bus', s) <==> Owned(w'.conns, s, l) {
      assert l in ListenersOn(w.bus, s) <==> Owned(w.conns, s, l);
    }
  }

  lemma BusUnchanged(w: World, k: nat, subs: map<Scope, Listener>)
    requires Inv(w) && k in w.conns && subs == w.conns[k].subs
    ensures Rewired(w.bus, w.bus, k, subs)
  {
    forall s, l ensures l in ListenersOn(w.bus, s) <==> Owned(w.conns, s, l) {}
  }

  lemma BusAfterRemove(w: World, k: nat, scope: Scope)
    requires Inv(w) && k in w.conns && scope in w.conns[k].subs
    ensures var bus' := RemoveListener(w.bus, scope, w.conns[k].subs[scope]);
            Rewired(w.bus, bus', k, w.conns[k].subs - {scope}) && NoEmptyEntries(bus')
  {
    var bus' := RemoveListener(w.bus, scope, w.conns[k].subs[scope]);
    var subs' := w.conns[k].subs - {scope};
    forall s, l
      ensures l in ListenersOn(bus', s) <==>
              if l.socket == k then s in subs' && subs'[s] == l else l in ListenersOn(w.bus, s)
    {
      assert l in ListenersOn(w.bus, s) <==> Owned(w.conns, s, l);
    }
  }

  lemma BusAfterAdd(bus: Subscribers, bus1: Subscribers, k: nat, subs: map<Scope, Listener>, scope: Scope, l0: Listener)
    requires Rewired(bus, bus1, k, subs) && NoEmptyEntries(bus1) && scope !in subs && l0.socket == k
    ensures Rewired(bus, AddListener(bus1, scope, l0), k, subs[scope := l0])
    ensures NoEmptyEntries(AddListener(bus1, scope, l0))
  {
  }

  lemma BusAfterClose(w: World, k: nat)
    requires Inv(w) && k in w.conns
    ensures var bus' := RemoveAll(w.bus, w.conns[k].subs);
            Rewired(w.bus, bus', k, map[]) && NoEmptyEntries(bus')
  {
    var subs := w.conns[k].subs;
    var bus' := RemoveAll(w.bus, subs);
    forall s, l
      ensures l in ListenersOn(bus', s) <==> (l.socket != k && l in ListenersOn(w.bus, s))
    {
      assert l in ListenersOn(w.bus, s) <==> Owned(w.conns, s, l);
      assert l in ListenersOn(bus', s) <==> l in ListenersOn(w.bus, s) && !(s in subs && subs[s] == l);
    }
  }

  lemma AckedAppend(outbox: seq<Frame>, f: Frame, s: Scope)
    ensures Acked(outbox + [f], s)
         == if f == Subscribed(s) then true
            else if f.Unsubscribed? && f.scope == s then false
            else Acked(outbox, s)
  {
    assert (outbox + [f])[..|outbox|] == outbox;
  }

  lemma TruthfulAppend(outbox: seq<Frame>, f: Frame)
    requires Truthful(outbox)
    requires f.Event? ==> Acked(outbox, f.scope)
    requires f.Unsubscribed? ==> f.removed == Acked(outbox, f.scope)
    ensures Truthful(outbox + [f])
  {
    var grown := outbox + [f];
    forall i {:trigger grown[i]} | 0 <= i < |grown|
      ensures (grown[i].Event? ==> Acked(grown[..i], grown[i].scope))
           && (grown[i].Unsubscribed? ==> grown[i].removed == Acked(grown[..i], grown[i].scope))
    {
      assert grown[..i] == outbox[..i];
    }
  }

  // A frame that acknowledges nothing keeps a connection in order.
  lemma SendKeepsOk(k: nat, c: Conn, f: Frame)
    requires ConnOk(k, c)
    requires !f.Subscribed? && !f.Unsubscribed?
    requires f.Event? ==> f.scope in c.subs
    ensures ConnOk(k, Send(c, f))
  {
    if c.open {
      TruthfulAppend(c.outbox, f);
      forall s { AckedAppend(c.outbox, f, s); }
    }
  }

  // A handler that leaves the bus and the map alone, and sends at most one plain frame.
  lemma QuietHandlerKeepsInv(w: World, k: nat, c: Conn)
    requires Inv(w) && k in w.conns && ConnOk(k, c) && c.subs == w.conns[k].subs
    ensures Inv(World(w.bus, w.conns[k := c]))
  {
    BusUnchanged(w, k, c.subs);
    RewiredKeepsInv(w, k, w.bus, c);
  }

  lemma MessageKeepsInv(w: World, k: nat, m: Inbound)
    requires Inv(w)
    ensures Inv(Next(w, Message(k, m)))
  {
    if k in w.conns && w.conns[k].open {
      var c := w.conns[k];
      if m.byteLength > MAX_MESSAGE_BYTES {
        SendKeepsOk(k, c, Error(MessageTooLarge));
        QuietHandlerKeepsInv(w, k, Send(c, Error(MessageTooLarge)));
      } else if m.body == Ping {
        SendKeepsOk(k, c, Pong);
        QuietHandlerKeepsInv(w, k, Send(c, Pong));
      } else if m.body.Json? && m.body.kind == "unsubscribe" && m.body.scope != "" {
        UnsubscribeKeepsInv(w, k, m.body.scope);
      } else {
        QuietHandlerKeepsInv(w, k, OnMessage(w.bus, c, m).1);
      }
    }
  }

  lemma UnsubscribeKeepsInv(w: World, k: nat, scope: Scope)
    requires Inv(w) && k in w.conns && w.conns[k].open
    ensures var c := w.conns[k];
            var c' := Send(c.(subs := c.subs - {scope}), Unsubscribed(scope, scope in c.subs));
            var bus' := if scope in c.subs then RemoveListener(w.bus, scope, c.subs[scope]) else w.bus;
            Inv(World(bus', w.conns[k := c'])) && (scope !in c.subs ==> c.subs - {scope} == c.subs)
  {
    var c := w.conns[k];
    UnsubscribeKeepsOk(k, c, scope);
    var c' := Send(c.(subs := c.subs - {scope}), Unsubscribed(scope, scope in c.subs));
    if scope in c.subs {
      BusAfterRemove(w, k, scope);
      RewiredKeepsInv(w, k, RemoveListener(w.bus, scope, c.subs[scope]), c');
    } else {
      assert c.subs - {scope} == c.subs;
      BusUnchanged(w, k, c'.subs);
      RewiredKeepsInv(w, k, w.bus, c');
    }
  }

  lemma UnsubscribeKeepsOk(k: nat, c: Conn, scope: Scope)
    requires ConnOk(k, c) && c.open
    ensures ConnOk(k, Send(c.(subs := c.subs - {scope}), Unsubscribed(scope, scope in c.subs)))
  {
    var f := Unsubscribed(scope, scope in c.subs);
    TruthfulAppend(c.outbox, f);
    forall s { AckedAppend(c.outbox, f, s); }
    SubsetSize((c.subs - {scope}).Keys, c.subs.Keys);
  }

  lemma SubscribeKeepsOk(k: nat, c: Conn, scope: Scope)
    requires ConnOk(k, c) && |c.subs| < MAX_SCOPES_PER_SOCKET
    ensures ConnOk(k, Send(c.(subs := c.subs[scope := Listener(k, c.created)], created := c.created + 1),
                           Subscribed(scope)))
  {
    var f := Subscribed(scope);
    if c.open {
      TruthfulAppend(c.outbox, f);
      forall s { AckedAppend(c.outbox, f, s); }
    }
    assert c.subs[scope := Listener(k, c.created)].Keys == c.subs.Keys + {scope};
  }

  lemma SubsetSize<T>(a: set<T>, b: set<T>)
    requires a <= b
    ensures |a| <= |b|
  {
    assert b == a + (b - a);
  }

  lemma SubscribeKeepsInv(w: World, k: nat, c: Conn, scope: Scope)
    requires Inv(w) && k in w.conns && ConnOk(k, c) && c.subs == w.conns[k].subs
    requires |c.subs| < MAX_SCOPES_PER_SOCKET
    ensures var bus1 := if scope in c.subs then RemoveListener(w.bus, scope, c.subs[scope]) else w.bus;
            var l := Listener(k, c.created);
            var c' := Send(c.(subs := c.subs[scope := l], created := c.created + 1), Subscribed(scope));
            Inv(World(AddListener(bus1, scope, l), w.conns[k := c']))
  {
    SubscribeKeepsOk(k, c, scope);
    var l := Listener(k, c.created);
    var c' := Send(c.(subs := c.subs[scope := l], created := c.created + 1), Subscribed(scope));
    if scope in c.subs {
      var bus1 := RemoveListener(w.bus, scope, c.subs[scope]);
      BusAfterRemove(w, k, scope);
      BusAfterAdd(w.bus, bus1, k, c.subs - {scope}, scope, l);
      assert (c.subs - {scope})[scope := l] == c.subs[scope := l];
      RewiredKeepsInv(w, k, AddListener(bus1, scope, l), c');
    } else {
      BusUnchanged(w, k, c.subs);
      BusAfterAdd(w.bus, w.bus, k, c.subs, scope, l);
      RewiredKeepsInv(w, k, AddListener(w.bus, scope, l), c');
    }
  }

  lemma AuthorizedKeepsInv(w: World, k: nat, scope: Scope, v: Verdict)
    requires Inv(w)
    ensures Inv(Next(w, Authorized(k, scope, v)))
  {
    if k in w.conns && scope in w.conns[k].awaiting {
      var c := w.conns[k].(awaiting := w.conns[k].awaiting - multiset{scope});
      assert ConnOk(k, c);
      if v == Allowed && |c.subs| < MAX_SCOPES_PER_SOCKET {
        SubscribeKeepsInv(w, k, c, scope);
      } else {
        var f := Error(if v == Denied then Forbidden else if v == Threw then AuthorizeFailed else TooManySubscriptions);
        SendKeepsOk(k, c, f);
        QuietHandlerKeepsInv(w, k, Send(c, f));
      }
    }
  }

  lemma CloseKeepsInv(w: World, k: nat)
    requires Inv(w)
    ensures Inv(Next(w, Close(k)))
  {
    if k in w.conns && w.conns[k].open {
      BusAfterClose(w, k);
      var (bus, c') := OnClose(w.bus, w.conns[k]);
      RewiredKeepsInv(w, k, bus, c');
    }
  }

  // An event reaches a socket once if the socket holds the scope, and otherwise not at all.
  lemma DeliveredExactlyOnce(w: World, k: nat, scope: Scope, payload: string)
    requires Inv(w) && k in w.conns && w.conns[k].open
    ensures Next(w, Publish(scope, payload)).conns[k].outbox
         == w.conns[k].outbox + (if scope in w.conns[k].subs then [Event(scope, payload)] else [])
  {
    var own := set l | l in ListenersOn(w.bus, scope) && l.socket == k;
    forall l ensures l in ListenersOn(w.bus, scope) <==> Owned(w.conns, scope, l) {}
    if scope in w.conns[k].subs {
      assert own == {w.conns[k].subs[scope]};
    } else {
      assert own == {};
    }
  }

  lemma PublishKeepsInv(w: World, scope: Scope, payload: string)
    requires Inv(w)
    ensures Inv(Next(w, Publish(scope, payload)))
  {
    var w' := Next(w, Publish(scope, payload));
    forall s, l ensures l in ListenersOn(w'.bus, s) <==> Owned(w'.conns, s, l) {
      assert l in ListenersOn(w.bus, s) <==> Owned(w.conns, s, l);
    }
    forall k | k in w.conns ensures ConnOk(k, w'.conns[k]) {
      DeliverKeepsOk(w, k, scope, payload);
    }
  }

  lemma DeliverKeepsOk(w: World, k: nat, scope: Scope, payload: string)
    requires Inv(w) && k in w.conns
    ensures ConnOk(k, Deliver(w.bus, k, w.conns[k], scope, payload))
  {
    var c := w.conns[k];
    if c.open {
      DeliveredExactlyOnce(w, k, scope, payload);
      if scope in c.subs {
        SendKeepsOk(k, c, Event(scope, payload));
      } else {
        assert c.outbox + [] == c.outbox;
      }
    }
  }

  lemma NextKeepsInv(w: World, step: Step)
    requires Inv(w)
    ensures Inv(Next(w, step))
  {
    match step
    case Connect(_) =>
    case Message(k, m) => MessageKeepsInv(w, k, m);
    case Authorized(k, scope, v) => AuthorizedKeepsInv(w, k, scope, v);
    case Close(k) => CloseKeepsInv(w, k);
    case Publish(scope, payload) => PublishKeepsInv(w, scope, payload);
  }

  lemma {:induction false} RunKeepsInv(w: World, steps: seq<Step>)
    requires Inv(w)
    ensures Inv(Run(w, steps))
    decreases |steps|
  {
    if steps != [] {
      NextKeepsInv(w, steps[0]);
      RunKeepsInv(Next(w, steps[0]), steps[1..]);
    }
  }

  /** In every interleaving, whatever the other sockets do: a socket's live listeners are exactly
      the values of its map, so at most one per scope; the map never holds more than 32 scopes;
      and what the client was told is true of every scope and every frame. */
  lemma EveryRun(steps: seq<Step>, k: nat)
    ensures var w := Run(EMPTY_WORLD, steps);
            && (forall s :: Live(w, k, s) == Held(w, k, s))
            && (k in w.conns ==> |w.conns[k].subs| <= 32)
            && (k in w.conns ==> Truthful(w.conns[k].outbox))
            && (k in w.conns && w.conns[k].open ==>
                  forall s :: s in w.conns[k].subs <==> Acked(w.conns[k].outbox, s))
  {
    RunKeepsInv(EMPTY_WORLD, steps);
    forall s { LiveIsHeld(Run(EMPTY_WORLD, steps), k, s); }
  }

  // ---------------------------------------------------------------- after close

  ghost predicate NothingLive(w: World, k: nat) {
    forall s :: Live(w, k, s) == {}
  }

  lemma LiveIsHeld(w: World, k: nat, scope: Scope)
    requires Inv(w)
    ensures Live(w, k, scope) == Held(w, k, scope)
  {
    forall l ensures l in ListenersOn(w.bus, scope) <==> Owned(w.conns, scope, l) {}
  }

  // Closed, with nothing subscribed and nothing waiting.
  ghost predicate Quiet(w: World, k: nat) {
    k in w.conns && !w.conns[k].open && w.conns[k].awaiting == multiset{} && w.conns[k].subs == map[]
  }

  lemma {:induction false} QuietStaysQuiet(w: World, k: nat, steps: seq<Step>)
    requires Quiet(w, k)
    ensures Quiet(Run(w, steps), k)
    decreases |steps|
  {
    if steps != [] {
      QuietStaysQuiet(Next(w, steps[0]), k, steps[1..]);
    }
  }

  // A handler that is allowed after close subscribes all the same.
  lemma LateAuthorizationLeaks(w: World, k: nat, scope: Scope)
    requires k in w.conns && scope in w.conns[k].awaiting && w.conns[k].subs == map[]
    ensures !NothingLive(Run(w, [Authorized(k, scope, Allowed)]), k)
  {
    var step := Authorized(k, scope, Allowed);
    var after := Next(w, step);
    assert Run(w, [step]) == after by {
      assert [step][1..] == [];
    }
    assert Listener(k, w.conns[k].created) in Live(after, k, scope);
  }

  /** Close ends the socket's listening for good exactly when no subscribe handler of the socket
      is still waiting for its authorization: close does not cancel those handlers. */
  lemma CloseIsFinalIff(w: World, k: nat)
    requires Inv(w) && k in w.conns && w.conns[k].open
    ensures (forall steps :: NothingLive(Run(Next(w, Close(k)), steps), k))
       <==> w.conns[k].awaiting == multiset{}
  {
    var closed := Next(w, Close(k));
    assert closed.conns[k] == w.conns[k].(subs := map[], open := false);
    if w.conns[k].awaiting == multiset{} {
      forall steps ensures NothingLive(Run(closed, steps), k) {
        QuietStaysQuiet(closed, k, steps);
        CloseKeepsInv(w, k);
        RunKeepsInv(closed, steps);
        forall s { LiveIsHeld(Run(closed, steps), k, s); }
      }
    } else {
      var scope :| scope in w.conns[k].awaiting;
      LateAuthorizationLeaks(closed, k, scope);
    }
  }

  ghost predicate HoldsAfterClose(w: World, k: nat, scope: Scope) {
    k in w.conns && !w.conns[k].open && scope in w.conns[k].subs
  }

  lemma {:induction false} KeepsHolding(w: World, k: nat, scope: Scope, steps: seq<Step>)
    requires HoldsAfterClose(w, k, scope)
    ensures HoldsAfterClose(Run(w, steps), k, scope)
    decreases |steps|
  {
    if steps != [] {
      assert HoldsAfterClose(Next(w, steps[0]), k, scope);
      KeepsHolding(Next(w, steps[0]), k, scope, steps[1..]);
    }
  }

  /** A listener left behind that way stays for ever. */
  lemma LeftoverIsForever(w: World, k: nat, scope: Scope, steps: seq<Step>)
    requires Inv(w) && k in w.conns && !w.conns[k].open
    requires Live(w, k, scope) != {}
    ensures Live(Run(w, steps), k, scope) != {}
  {
    LiveIsHeld(w, k, scope);
    KeepsHolding(w, k, scope, steps);
    RunKeepsInv(w, steps);
    LiveIsHeld(Run(w, steps), k, scope);
  }

  // ---------------------------------------------------------------- what each handler answers

  // The frame that tells how a subscribe request ended.
  function VerdictFrame(c: Conn, scope: Scope, v: Verdict): Frame {
    match v
    case Denied => Error(Forbidden)
    case Threw => Error(AuthorizeFailed)
    case Allowed => if |c.subs| >= 32 then Error(TooManySubscriptions) else Subscribed(scope)
  }

  predicate Grants(c: Conn, v: Verdict) {
    v == Allowed && |c.subs| < 32
  }

  function SubsAfter(id: nat, c: Conn, scope: Scope, v: Verdict): map<Scope, Listener> {
    if Grants(c, v) then c.subs[scope := Listener(id, c.created)] else c.subs
  }

  // Only the socket itself changes, in these ways.
  lemma VerdictConn(w: World, k: nat, scope: Scope, v: Verdict)
    requires k in w.conns && scope in w.conns[k].awaiting
    ensures var (c, w') := (w.conns[k], Next(w, Authorized(k, scope, v)));
            && w'.conns == w.conns[k := w'.conns[k]]
            && w'.conns[k].awaiting == c.awaiting - multiset{scope} && w'.conns[k].open == c.open
            && w'.conns[k].outbox == c.outbox + (if c.open then [VerdictFrame(c, scope, v)] else [])
            && w'.conns[k].subs == SubsAfter(k, c, scope, v)
  {
    hide OnAuthorized, VerdictFrame, SubsAfter;
    VerdictValue(k, w.bus, w.conns[k], scope, v);
  }

  lemma VerdictValue(id: nat, bus: Subscribers, c: Conn, scope: Scope, v: Verdict)
    ensures var c' := OnAuthorized(id, bus, c, scope, v).1;
            && c'.awaiting == c.awaiting - multiset{scope} && c'.open == c.open
            && c'.outbox == c.outbox + (if c.open then [VerdictFrame(c, scope, v)] else [])
            && c'.subs == SubsAfter(id, c, scope, v)
  {
    hide RemoveListener, AddListener;
    assert c.outbox + [] == c.outbox;
  }

  /** A settled authorization takes one waiting handler away, answers with exactly the frame of its
      verdict, and gives the socket a listener on the scope exactly when it was allowed below 32
      scopes: a new one, in place of any before.  Every other scope and socket keeps its listeners. */
  lemma VerdictDecides(w: World, k: nat, scope: Scope, v: Verdict)
    requires Inv(w) && k in w.conns && scope in w.conns[k].awaiting
    ensures var (c, w') := (w.conns[k], Next(w, Authorized(k, scope, v)));
            && w'.conns == w.conns[k := w'.conns[k]]
            && w'.conns[k].awaiting == c.awaiting - multiset{scope} && w'.conns[k].open == c.open
            && w'.conns[k].outbox == c.outbox + (if c.open then [VerdictFrame(c, scope, v)] else [])
            && (forall j, s :: Live(w', j, s) ==
                  if j == k && s == scope && Grants(c, v) then {Listener(k, c.created)} else Live(w, j, s))
  {
    hide Next, Inv, Live, VerdictFrame, Grants;
    var w' := Next(w, Authorized(k, scope, v));
    VerdictConn(w, k, scope, v);
    NextKeepsInv(w, Authorized(k, scope, v));
    forall j, s
      ensures Live(w', j, s) ==
                if j == k && s == scope && Grants(w.conns[k], v) then {Listener(k, w.conns[k].created)} else Live(w, j, s)
    {
      LiveIsHeld(w, j, s);
      LiveIsHeld(w', j, s);
    }
  }

  predicate IsRequest(m: Inbound, kind: string) {
    m.byteLength <= 16_384 && m.body.Json? && m.body.kind == kind && m.body.scope != ""
  }

  // The frame that answers a message at once; a subscribe request gets none before its verdict.
  function Reply(c: Conn, m: Inbound): seq<Frame> {
    if m.byteLength > 16_384 then [Error(MessageTooLarge)]
    else if m.body == Ping then [Pong]
    else if IsRequest(m, "unsubscribe") then [Unsubscribed(m.body.scope, m.body.scope in c.subs)]
    else []
  }

  // What a message makes the socket wait for, and what it makes it stop listening to.
  function Asked(m: Inbound): multiset<Scope> {
    if IsRequest(m, "subscribe") then multiset{m.body.scope} else multiset{}
  }

  function Dropped(m: Inbound): set<Scope> {
    if IsRequest(m, "unsubscribe") then {m.body.scope} else {}
  }

  lemma MessageConn(w: World, k: nat, m: Inbound)
    requires k in w.conns && w.conns[k].open
    ensures var (c, w') := (w.conns[k], Next(w, Message(k, m)));
            && w'.conns == w.conns[k := w'.conns[k]] && w'.conns[k].open
            && w'.conns[k].outbox == c.outbox + Reply(c, m)
            && w'.conns[k].awaiting == c.awaiting + Asked(m)
            && w'.conns[k].subs == c.subs - Dropped(m)
  {
    var c := w.conns[k];
    assert c.outbox + [] == c.outbox && c.subs - {} == c.subs;
    if IsRequest(m, "unsubscribe") && m.body.scope !in c.subs { assert c.subs - {m.body.scope} == c.subs; }
  }

  lemma MessageLive(w: World, k: nat, m: Inbound, j: nat, s: Scope)
    requires Inv(w) && k in w.conns && w.conns[k].open
    ensures Live(Next(w, Message(k, m)), j, s) == if j == k && s in Dropped(m) then {} else Live(w, j, s)
  {
    hide Next, Inv, Live, Reply, Dropped, Asked;
    MessageConn(w, k, m);
    NextKeepsInv(w, Message(k, m));
    LiveIsHeld(w, j, s);
    LiveIsHeld(Next(w, Message(k, m)), j, s);
  }

  /** A message to an open socket: a subscribe request waits once for its verdict and changes nothing
      else; an unsubscribe request ends the listening on its scope; no other message changes what is
      live or waiting. */
  lemma MessageDoes(w: World, k: nat, m: Inbound)
    requires Inv(w) && k in w.conns && w.conns[k].open
    ensures var (c, w') := (w.conns[k], Next(w, Message(k, m)));
            && w'.conns == w.conns[k := w'.conns[k]] && w'.conns[k].open
            && w'.conns[k].outbox == c.outbox + Reply(c, m)
            && w'.conns[k].awaiting == c.awaiting + Asked(m)
            && (forall j, s :: Live(w', j, s) == if j == k && s in Dropped(m) then {} else Live(w, j, s))
  {
    hide Next, Inv, Live, Reply, Dropped, Asked;
    var w' := Next(w, Message(k, m));
    MessageConn(w, k, m);
    forall j, s
      ensures Live(w', j, s) == if j == k && s in Dropped(m) then {} else Live(w, j, s)
    {
      MessageLive(w, k, m, j, s);
    }
  }

  // ---------------------------------------------------------------- which sockets are open

  lemma StepOpens(w: World, step: Step, k: nat)
    ensures k in Next(w, step).conns <==> k in w.conns || step == Connect(k)
    ensures k in Next(w, step).conns ==>
              (Next(w, step).conns[k].open <==> if k in w.conns then w.conns[k].open && step != Close(k) else true)
  {
    if step.Message? && step.socket in w.conns && w.conns[step.socket].open {
      MessageConn(w, step.socket, step.inbound);
    }
    if step.Authorized? && step.socket in w.conns && step.scope in w.conns[step.socket].awaiting {
      VerdictConn(w, step.socket, step.scope, step.verdict);
    }
    hide OnMessage, OnAuthorized;
  }

  lemma {:induction false} RunOfKnown(w: World, steps: seq<Step>, k: nat)
    requires k in w.conns
    ensures k in Run(w, steps).conns && (Run(w, steps).conns[k].open <==> w.conns[k].open && Close(k) !in steps)
    decreases |steps|
  {
    hide Next;
    if |steps| > 0 {
      StepOpens(w, steps[0], k);
      RunOfKnown(Next(w, steps[0]), steps[1..], k);
      assert steps == [steps[0]] + steps[1..];
    }
  }

  predicate ClosesAfter(steps: seq<Step>, k: nat, i: nat, j: nat) {
    i < j < |steps| && steps[i] == Connect(k) && steps[j] == Close(k)
  }

  lemma {:induction false} RunOfNew(w: World, steps: seq<Step>, k: nat)
    requires k !in w.conns
    ensures var w' := Run(w, steps);
            && (k in w'.conns <==> Connect(k) in steps)
            && (k in w'.conns ==> (w'.conns[k].open <==> forall i, j :: !ClosesAfter(steps, k, i, j)))
    decreases |steps|
  {
    hide Next;
    if |steps| > 0 {
      var rest := steps[1..];
      assert steps == [steps[0]] + rest;
      StepOpens(w, steps[0], k);
      if steps[0] == Connect(k) {
        RunOfKnown(Next(w, steps[0]), rest, k);
        if j :| 0 <= j < |rest| && rest[j] == Close(k) { assert ClosesAfter(steps, k, 0, j + 1); }
      } else {
        RunOfNew(Next(w, steps[0]), rest, k);
        if i: nat, j: nat :| ClosesAfter(rest, k, i, j) { assert ClosesAfter(steps, k, i + 1, j + 1); }
        if i: nat, j: nat :| ClosesAfter(steps, k, i, j) { assert ClosesAfter(rest, k, i - 1, j - 1); }
      }
    }
  }

  /** A socket is there once it has connected, and open until it closes after that. */
  lemma OpenIff(steps: seq<Step>, k: nat)
    ensures var w := Run(EMPTY_WORLD, steps);
            && (k in w.conns <==> Connect(k) in steps)
            && (k in w.conns ==> (w.conns[k].open <==> forall i, j :: !ClosesAfter(steps, k, i, j)))
  {
    RunOfNew(EMPTY_WORLD, steps, k);
  }

  // ---------------------------------------------------------------- nothing without permission

  predicate IsGrant(step: Step, k: nat, scope: Scope) {
    step == Authorized(k, scope, Allowed)
  }

  ghost predicate NeverGranted(w: World, k: nat, scope: Scope) {
    k in w.conns ==> scope !in w.conns[k].subs && Subscribed(scope) !in w.conns[k].outbox
  }

  lemma StepWithoutGrant(w: World, step: Step, k: nat, scope: Scope)
    requires Inv(w) && NeverGranted(w, k, scope) && !IsGrant(step, k, scope)
    ensures NeverGranted(Next(w, step), k, scope)
  {
    hide Inv, OnMessage, OnAuthorized, Deliver;
    if k in w.conns {
      match step
      case Connect(_) =>
      case Message(j, m) =>
        if j == k && w.conns[k].open { MessageConn(w, k, m); }
      case Authorized(j, s, v) =>
        if j == k && s in w.conns[k].awaiting { VerdictConn(w, k, s, v); }
      case Close(_) =>
      case Publish(s, payload) => QuietDelivery(w, k, s, payload);
    }
  }

  lemma QuietDelivery(w: World, k: nat, scope: Scope, payload: string)
    requires k in w.conns
    ensures var c := Next(w, Publish(scope, payload)).conns[k];
            && c.subs == w.conns[k].subs && c.awaiting == w.conns[k].awaiting && c.open == w.conns[k].open
            && forall f :: f in c.outbox ==> f in w.conns[k].outbox || f == Event(scope, payload)
  {
  }

  lemma {:induction false} RunWithoutGrant(w: World, steps: seq<Step>, k: nat, scope: Scope)
    requires Inv(w) && NeverGranted(w, k, scope) && forall step :: step in steps ==> !IsGrant(step, k, scope)
    ensures NeverGranted(Run(w, steps), k, scope)
    decreases |steps|
  {
    hide Inv, NeverGranted, Next;
    if steps != [] {
      StepWithoutGrant(w, steps[0], k, scope);
      NextKeepsInv(w, steps[0]);
      RunWithoutGrant(Next(w, steps[0]), steps[1..], k, scope);
    }
  }

  /** In every run in which the socket's authorization on a scope is never allowed, the socket never has
      a listener on it and is never told that it is subscribed. */
  lemma NothingWithoutPermission(steps: seq<Step>, k: nat, scope: Scope)
    requires forall step :: step in steps ==> !IsGrant(step, k, scope)
    ensures var w := Run(EMPTY_WORLD, steps);
            Live(w, k, scope) == {} && (k in w.conns ==> Subscribed(scope) !in w.conns[k].outbox)
  {
    RunKeepsInv(EMPTY_WORLD, steps);
    RunWithoutGrant(EMPTY_WORLD, steps, k, scope);
    LiveIsHeld(Run(EMPTY_WORLD, steps), k, scope);
  }

  // ---------------------------------------------------------------- every request is answered once

  predicate IsVerdict(f: Frame) {
    f.Subscribed? || (f.Error? && f.code != MessageTooLarge)
  }

  function Verdicts(outbox: seq<Frame>): nat {
    if outbox == [] then 0 else Verdicts(outbox[..|outbox| - 1]) + if IsVerdict(outbox[|outbox| - 1]) then 1 else 0
  }

  // The subscribe requests that reach the socket.
  function Requests(w: World, steps: seq<Step>, k: nat): nat
    decreases |steps|
  {
    if steps == [] then 0
    else
      (if steps[0].Message? && steps[0].socket == k && IsRequest(steps[0].inbound, "subscribe")
          && k in w.conns && w.conns[k].open then 1 else 0)
      + Requests(Next(w, steps[0]), steps[1..], k)
  }

  // Verdicts sent and requests waiting.
  function Settled(w: World, k: nat): nat {
    if k in w.conns then Verdicts(w.conns[k].outbox) + |w.conns[k].awaiting| else 0
  }

  lemma VerdictsAppend(outbox: seq<Frame>, f: Frame)
    ensures Verdicts(outbox + [f]) == Verdicts(outbox) + if IsVerdict(f) then 1 else 0
  {
    assert (outbox + [f])[..|outbox|] == outbox;
  }

  lemma SettledMessage(w: World, k: nat, m: Inbound)
    requires k in w.conns && w.conns[k].open
    ensures Settled(Next(w, Message(k, m)), k) == Settled(w, k) + if IsRequest(m, "subscribe") then 1 else 0
  {
    hide Next;
    var (c, r) := (w.conns[k], Reply(w.conns[k], m));
    MessageConn(w, k, m);
    if |r| == 1 {
      assert r == [r[0]];
      VerdictsAppend(c.outbox, r[0]);
    } else {
      assert c.outbox + r == c.outbox;
    }
  }

  lemma SettledVerdict(w: World, k: nat, scope: Scope, v: Verdict)
    requires k in w.conns && w.conns[k].open && scope in w.conns[k].awaiting
    ensures Settled(Next(w, Authorized(k, scope, v)), k) == Settled(w, k)
  {
    hide Next;
    VerdictConn(w, k, scope, v);
    VerdictsAppend(w.conns[k].outbox, VerdictFrame(w.conns[k], scope, v));
  }

  lemma SettledPublish(w: World, k: nat, scope: Scope, payload: string)
    requires Inv(w) && k in w.conns && w.conns[k].open
    ensures Settled(Next(w, Publish(scope, payload)), k) == Settled(w, k)
  {
    hide Inv, Next, Verdicts;
    DeliveredExactlyOnce(w, k, scope, payload);
    AwaitingStays(w, k, scope, payload);
    VerdictsAppend(w.conns[k].outbox, Event(scope, payload));
    assert w.conns[k].outbox + [] == w.conns[k].outbox;
  }

  lemma AwaitingStays(w: World, k: nat, scope: Scope, payload: string)
    requires k in w.conns
    ensures Next(w, Publish(scope, payload)).conns.Keys == w.conns.Keys
    ensures Next(w, Publish(scope, payload)).conns[k].awaiting == w.conns[k].awaiting
  {
  }

  lemma OneRequest(w: World, step: Step, k: nat)
    ensures Requests(w, [step], k)
         == if step.Message? && step.socket == k && IsRequest(step.inbound, "subscribe") && k in w.conns && w.conns[k].open
            then 1 else 0
  {
    hide Next, IsRequest;
    assert [step][1..] == [];
    assert Requests(Next(w, step), [], k) == 0;
  }

  lemma SettledStep(w: World, step: Step, k: nat)
    requires Inv(w) && (k in w.conns ==> w.conns[k].open) && (step.Close? ==> step.socket != k)
    ensures Settled(Next(w, step), k) == Settled(w, k) + Requests(w, [step], k)
  {
    hide Inv, OnMessage, OnAuthorized, OnClose, Deliver, Requests, IsRequest;
    OneRequest(w, step, k);
    if k in w.conns {
      match step
      case Connect(_) =>
      case Message(j, m) =>
        if j == k { SettledMessage(w, k, m); }
      case Authorized(j, scope, v) =>
        if j == k && scope in w.conns[k].awaiting { SettledVerdict(w, k, scope, v); }
      case Close(_) =>
      case Publish(scope, payload) => SettledPublish(w, k, scope, payload);
    }
  }

  lemma StaysOpen(w: World, step: Step, k: nat)
    requires (k in w.conns ==> w.conns[k].open) && (step.Close? ==> step.socket != k)
    ensures k in Next(w, step).conns ==> Next(w, step).conns[k].open
  {
  }

  lemma {:induction false} SettledRun(w: World, steps: seq<Step>, k: nat)
    requires Inv(w) && (k in w.conns ==> w.conns[k].open) && Close(k) !in steps
    ensures Settled(Run(w, steps), k) == Settled(w, k) + Requests(w, steps, k)
    decreases |steps|
  {
    if steps != [] {
      assert steps[0] in steps;
      SettledStep(w, steps[0], k);
      StaysOpen(w, steps[0], k);
      NextKeepsInv(w, steps[0]);
      SettledRun(Next(w, steps[0]), steps[1..], k);
      assert [steps[0]][1..] == [];
      hide Next, Inv, Settled;
    }
  }

  /** In every run that does not close it, a socket has got exactly one verdict for every subscribe
      request, except for those that still wait. */
  lemma EveryRequestIsAnsweredOnce(steps: seq<Step>, k: nat)
    requires Close(k) !in steps
    ensures var w := Run(EMPTY_WORLD, steps);
            k in w.conns ==> Verdicts(w.conns[k].outbox) + |w.conns[k].awaiting| == Requests(EMPTY_WORLD, steps, k)
  {
    SettledRun(EMPTY_WORLD, steps, k);
  }
}
