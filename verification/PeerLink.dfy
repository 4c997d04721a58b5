/**
 The broker's tables for other windows' PTYs: routes and their opaque handles, the
 sinks watching each, the subscriptions awaiting their owner, and the questions asked.
 */
module PeerLink {
  import opened Common

  type Client = nat
  type PtyId = nat
  type Handle = nat
  type Sink = nat
  type RequestId = nat

  // One PTY of one connected window.
  datatype Named = Named(client: Client, ptyId: PtyId)

  datatype Pending = Pending(client: Client, route: Handle)

  // What happened to a sink: it joined a route, was handed data, was told of the exit,
  // left. A subscribe to a closed route is refused with an exit and joins nothing.
  datatype Entry =
    | Joins(route: Handle, sink: Sink)
    | Data(route: Handle, told: set<Sink>)
    | Exits(route: Handle, told: set<Sink>)
    | Leaves(route: Handle, sink: Sink)
    | Refused(sink: Sink)

  // The tables, and what only the history knows: each sink's log, the subscribe
  // promises and questions already settled.
  datatype Tables = Tables(
    routes: map<Handle, Client>, routePtyIds: map<Handle, PtyId>, handles: set<Handle>,
    handleOf: map<Named, Handle>, sinks: map<Handle, set<Sink>>,
    subscriptions: map<RequestId, Pending>, subscriptionOf: map<Handle, RequestId>,
    asks: map<RequestId, Client>, lastId: RequestId,
    log: seq<Entry>, subscribed: set<RequestId>, answered: set<RequestId>)

  // ----- Operations -----------------------------------------------------------------

  // Reuses the handle of a PTY that has one, else takes the one minted.
  function Bind(t: Tables, n: Named, minted: Handle): Tables {
    var h := if n in t.handleOf then t.handleOf[n] else minted;
    t.(handleOf := t.handleOf[n := h], handles := t.handles + {h},
       routes := t.routes[h := n.client], routePtyIds := t.routePtyIds[h := n.ptyId])
  }

  // Settles the subscription waiting on a route, if one is.
  function Settle(t: Tables, h: Handle): Tables {
    if h !in t.subscriptionOf then t
    else
      var id := t.subscriptionOf[h];
      t.(subscriptions := t.subscriptions - {id}, subscriptionOf := t.subscriptionOf - {h},
         subscribed := t.subscribed + {id})
  }

  function SinksOf(t: Tables, h: Handle): set<Sink> {
    if h in t.sinks then t.sinks[h] else {}
  }

  // A route goes: its sinks are told, and whoever waits to subscribe is let go.
  function Close(t: Tables, h: Handle): Tables {
    Settle(t.(routes := t.routes - {h}, routePtyIds := t.routePtyIds - {h},
              log := t.log + [Exits(h, SinksOf(t, h))], sinks := t.sinks - {h}), h)
  }

  function CloseAll(t: Tables, hs: seq<Handle>): Tables {
    if hs == [] then t else Close(CloseAll(t, hs[..|hs| - 1]), hs[|hs| - 1])
  }

  function SendAll(t: Tables, hs: seq<Handle>): Tables {
    if hs == [] then t
    else
      var t' := SendAll(t, hs[..|hs| - 1]);
      t'.(log := t'.log + [Data(hs[|hs| - 1], SinksOf(t', hs[|hs| - 1]))])
  }

  function Enter(t: Tables, h: Handle, sink: Sink): Tables {
    t.(sinks := t.sinks[h := SinksOf(t, h) + {sink}], log := t.log + [Joins(h, sink)])
  }

  // Asks the owner to start forwarding, under a new id.
  function Begin(t: Tables, h: Handle): Tables
    requires h in t.routes
  {
    var id := t.lastId + 1;
    t.(lastId := id, subscriptions := t.subscriptions[id := Pending(t.routes[h], h)],
       subscriptionOf := t.subscriptionOf[h := id])
  }

  // Only the first sink of a route starts its owner.
  function Subscribe(t: Tables, h: Handle, sink: Sink): Tables {
    if h !in t.routes || h !in t.routePtyIds then t.(log := t.log + [Refused(sink)])
    else if h in t.sinks then Enter(t, h, sink)
    else Begin(Enter(t, h, sink), h)
  }

  // The last sink's leaving stops the owner and lets go whoever waits; the route stays.
  function Unsubscribe(t: Tables, h: Handle, sink: Sink): Tables {
    if sink !in SinksOf(t, h) then t
    else
      var left := SinksOf(t, h) - {sink};
      var t' := t.(log := t.log + [Leaves(h, sink)]);
      if left != {} then t'.(sinks := t.sinks[h := left])
      else Settle(t'.(sinks := t.sinks - {h}), h)
  }

  function Acknowledge(t: Tables, client: Client, id: RequestId): Tables {
    if id !in t.subscriptions || t.subscriptions[id].client != client then t
    else
      var h := t.subscriptions[id].route;
      t.(subscriptions := t.subscriptions - {id},
         subscriptionOf := if h in t.subscriptionOf && t.subscriptionOf[h] == id then t.subscriptionOf - {h} else t.subscriptionOf,
         subscribed := t.subscribed + {id})
  }

  function SubscribeTimesOut(t: Tables, id: RequestId): Tables {
    if id !in t.subscriptions then t else Close(t, t.subscriptions[id].route)
  }

  function Asks(t: Tables, client: Client): Tables {
    t.(lastId := t.lastId + 1, asks := t.asks[t.lastId + 1 := client])
  }

  function Answers(t: Tables, client: Client, id: RequestId): Tables {
    if id in t.asks && t.asks[id] == client then t.(asks := t.asks - {id}, answered := t.answered + {id}) else t
  }

  function AskTimesOut(t: Tables, id: RequestId): Tables {
    if id in t.asks then t.(asks := t.asks - {id}, answered := t.answered + {id}) else t
  }

  function AsksOf(t: Tables, client: Client): set<RequestId> {
    set id | id in t.asks && t.asks[id] == client
  }

  // A window goes: its routes close, and what it was asked is answered with nothing.
  function Drop(t: Tables, client: Client, routes: seq<Handle>): Tables {
    var t' := CloseAll(t, routes);
    t'.(asks := t'.asks - AsksOf(t', client), answered := t'.answered + AsksOf(t', client))
  }

  // ----- Runs -------------------------------------------------------------------------

  // `order` is the order the matching routes are come upon.
  datatype Event =
    | Binds(named: Named, minted: Handle)
    | Subscribes(route: Handle, sink: Sink)
    | Unsubscribes(route: Handle, sink: Sink)
    | DataFrame(named: Named, order: seq<Handle>)
    | ExitFrame(named: Named, order: seq<Handle>)
    | AckFrame(client: Client, id: RequestId)
    | SubscribeTimeout(id: RequestId)
    | Ask(client: Client)
    | ResultFrame(client: Client, id: RequestId)
    | AskTimeout(id: RequestId)
    | Drops(client: Client, order: seq<Handle>)

  ghost function RoutesOf(t: Tables, client: Client): set<Handle> {
    set h | h in t.routes && t.routes[h] == client
  }

  ghost function Matching(t: Tables, n: Named): set<Handle> {
    set h | h in t.routes && h in t.routePtyIds && t.routes[h] == n.client && t.routePtyIds[h] == n.ptyId
  }

  ghost predicate Lists(order: seq<Handle>, hs: set<Handle>) {
    NoDup(order) && forall h :: h in order <==> h in hs
  }

  // A handle is a fresh UUID. Frames may still be read from a window that was dropped.
  ghost predicate Allowed(t: Tables, e: Event) {
    match e
    case Binds(_, minted) => minted !in t.handles
    case DataFrame(n, order) => Lists(order, Matching(t, n))
    case ExitFrame(n, order) => Lists(order, Matching(t, n))
    case Drops(client, order) => Lists(order, RoutesOf(t, client))
    case _ => true
  }

  function Step(t: Tables, e: Event): Tables {
    match e
    case Binds(n, minted) => Bind(t, n, minted)
    case Subscribes(h, sink) => Subscribe(t, h, sink)
    case Unsubscribes(h, sink) => Unsubscribe(t, h, sink)
    case DataFrame(_, order) => SendAll(t, order)
    case ExitFrame(_, order) => CloseAll(t, order)
    case AckFrame(client, id) => Acknowledge(t, client, id)
    case SubscribeTimeout(id) => SubscribeTimesOut(t, id)
    case Ask(client) => Asks(t, client)
    case ResultFrame(client, id) => Answers(t, client, id)
    case AskTimeout(id) => AskTimesOut(t, id)
    case Drops(client, order) => Drop(t, client, order)
  }

  const EMPTY: Tables := Tables(map[], map[], {}, map[], map[], map[], map[], map[], 0, [], {}, {})

  ghost predicate Run(worlds: seq<Tables>, events: seq<Event>) {
    && |worlds| == |events| + 1 && worlds[0] == EMPTY
    && forall i :: 0 <= i < |events| ==> Allowed(worlds[i], events[i]) && worlds[i + 1] == Step(worlds[i], events[i])
  }

  // ----- A sink's log -------------------------------------------------------------------

  // Whether a sink that was or was not on a route is on it after an entry.
  ghost predicate After(e: Entry, h: Handle, sink: Sink, on: bool) {
    if e.Joins? then (e.route == h && e.sink == sink) || on
    else if e.Exits? then !(e.route == h && sink in e.told) && on
    else if e.Leaves? then !(e.route == h && e.sink == sink) && on
    else on
  }

  // Whether the log leaves the sink on the route.
  ghost predicate On(log: seq<Entry>, h: Handle, sink: Sink) {
    log != [] && After(log[|log| - 1], h, sink, On(log[..|log| - 1], h, sink))
  }

  // Data and exits reach exactly the sinks on the route, and only they leave it.
  ghost predicate Orderly(log: seq<Entry>) {
    forall k :: 0 <= k < |log| ==> EntryOk(log[..k], log[k])
  }

  ghost predicate EntryOk(before: seq<Entry>, e: Entry) {
    && (e.Data? ==> forall s :: s in e.told <==> On(before, e.route, s))
    && (e.Exits? ==> forall s :: s in e.told <==> On(before, e.route, s))
    && (e.Leaves? ==> On(before, e.route, e.sink))
  }

  lemma OnAppend(log: seq<Entry>, e: Entry, h: Handle, sink: Sink)
    ensures On(log + [e], h, sink) == After(e, h, sink, On(log, h, sink))
  {
    assert (log + [e])[..|log|] == log;
  }

  lemma OrderlyAppend(log: seq<Entry>, e: Entry)
    requires Orderly(log) && EntryOk(log, e)
    ensures Orderly(log + [e])
  {
    var l := log + [e];
    forall k | 0 <= k < |l|
      ensures EntryOk(l[..k], l[k])
    {
      assert k < |log| ==> l[..k] == log[..k];
      assert k == |log| ==> l[..k] == log;
    }
  }

  // ----- What every step keeps --------------------------------------------------------------

  // A handle names one PTY of one window, and no two have the same.
  ghost predicate NamesOk(t: Tables) {
    && (forall n :: n in t.handleOf ==> t.handleOf[n] in t.handles)
    && forall m, n :: m in t.handleOf && n in t.handleOf && t.handleOf[m] == t.handleOf[n] ==> m == n
  }

  // A route: its two tables agree and it has its PTY's handle; it has sinks only while
  // it stands, a waiting subscription only while it has sinks, and that one its own.
  ghost predicate RouteOk(t: Tables, h: Handle) {
    && (h in t.routes <==> h in t.routePtyIds)
    && (h in t.routes ==>
          && Named(t.routes[h], t.routePtyIds[h]) in t.handleOf
          && t.handleOf[Named(t.routes[h], t.routePtyIds[h])] == h)
    && (h in t.sinks ==> h in t.routes && t.sinks[h] != {})
    && (h in t.subscriptionOf ==>
          && h in t.sinks
          && t.subscriptionOf[h] in t.subscriptions
          && t.subscriptions[t.subscriptionOf[h]] == Pending(t.routes[h], h))
  }

  ghost predicate LogOk(t: Tables, h: Handle) {
    forall s :: s in SinksOf(t, h) <==> On(t.log, h, s)
  }

  // A subscription or question is waiting or settled, never both.
  ghost predicate IdOk(t: Tables, id: RequestId) {
    && (id in t.subscriptions || id in t.asks || id in t.subscribed || id in t.answered ==> id <= t.lastId)
    && (id in t.subscriptions ==>
          && id !in t.subscribed
          && t.subscriptions[id].route in t.subscriptionOf
          && t.subscriptionOf[t.subscriptions[id].route] == id)
    && (id in t.asks ==> id !in t.answered)
  }

  ghost predicate Inv(t: Tables) {
    && NamesOk(t)
    && Orderly(t.log)
    && (forall h :: RouteOk(t, h) && LogOk(t, h))
    && forall id :: IdOk(t, id)
  }

  // An entry that says what happened to the sinks keeps the log true of them.
  lemma Logged(t: Tables, t': Tables, e: Entry)
    requires Orderly(t.log) && (forall h :: LogOk(t, h)) && EntryOk(t.log, e)
    requires t'.log == t.log + [e]
    requires forall h, s :: s in SinksOf(t', h) <==> After(e, h, s, s in SinksOf(t, h))
    ensures Orderly(t'.log) && forall h :: LogOk(t', h)
  {
    OrderlyAppend(t.log, e);
    hide Orderly, EntryOk, On, After, SinksOf;
    forall h
      ensures LogOk(t', h)
    {
      assert LogOk(t, h);
      forall s
        ensures s in SinksOf(t', h) <==> On(t'.log, h, s)
      {
        OnAppend(t.log, e, h, s);
      }
    }
  }

  lemma SameSinks(t: Tables, t': Tables)
    requires (forall h :: LogOk(t, h)) && t'.log == t.log && t'.sinks == t.sinks
    ensures forall h :: LogOk(t', h)
  {
    forall h
      ensures LogOk(t', h)
    {
      assert LogOk(t, h);
    }
  }

  lemma CloseKeepsRoute(t: Tables, h: Handle, k: Handle)
    requires Inv(t)
    ensures RouteOk(Close(t, h), k)
  {
    assert RouteOk(t, k) && RouteOk(t, h);
    assert k in t.subscriptionOf ==> IdOk(t, t.subscriptionOf[k]);
    hide LogOk, Orderly, NamesOk;
  }

  lemma CloseKeepsId(t: Tables, h: Handle, id: RequestId)
    requires Inv(t)
    ensures IdOk(Close(t, h), id)
  {
    assert IdOk(t, id) && RouteOk(t, h);
    hide LogOk, Orderly, NamesOk;
  }

  lemma CloseKeepsInv(t: Tables, h: Handle)
    requires Inv(t)
    ensures Inv(Close(t, h))
  {
    assert LogOk(t, h);
    forall k
      ensures RouteOk(Close(t, h), k)
    {
      CloseKeepsRoute(t, h, k);
    }
    forall id
      ensures IdOk(Close(t, h), id)
    {
      CloseKeepsId(t, h, id);
    }
    hide Orderly, RouteOk, IdOk, On;
    Logged(t, Close(t, h), Exits(h, SinksOf(t, h)));
  }

  lemma BindKeepsInv(t: Tables, n: Named, minted: Handle)
    requires Inv(t) && minted !in t.handles
    ensures Inv(Bind(t, n, minted))
  {
    var t' := Bind(t, n, minted);
    forall k
      ensures RouteOk(t', k) && LogOk(t', k)
    {
      assert RouteOk(t, k) && LogOk(t, k);
    }
    forall id
      ensures IdOk(t', id)
    {
      assert IdOk(t, id);
    }
  }

  lemma EnterKeepsInv(t: Tables, h: Handle, sink: Sink)
    requires Inv(t) && h in t.routes
    ensures Inv(Enter(t, h, sink))
  {
    var t' := Enter(t, h, sink);
    assert NamesOk(t') && RouteOk(t, h);
    forall k
      ensures RouteOk(t', k)
    {
      assert RouteOk(t, k);
    }
    forall id
      ensures IdOk(t', id)
    {
      assert IdOk(t, id);
    }
    hide Orderly, RouteOk, IdOk, On, LogOk;
    Logged(t, t', Joins(h, sink));
  }

  lemma RefuseKeepsInv(t: Tables, sink: Sink)
    requires Inv(t)
    ensures Inv(t.(log := t.log + [Refused(sink)]))
  {
    var t' := t.(log := t.log + [Refused(sink)]);
    forall k
      ensures RouteOk(t', k)
    {
      assert RouteOk(t, k);
    }
    forall id
      ensures IdOk(t', id)
    {
      assert IdOk(t, id);
    }
    hide Orderly, RouteOk, IdOk, On, LogOk;
    Logged(t, t', Refused(sink));
  }

  lemma BeginKeepsInv(t: Tables, h: Handle)
    requires Inv(t) && h in t.routes && h in t.sinks && h !in t.subscriptionOf
    ensures Inv(Begin(t, h))
  {
    var t' := Begin(t, h);
    assert NamesOk(t') && RouteOk(t, h) && IdOk(t, t.lastId + 1);
    SameSinks(t, t');
    hide LogOk, Orderly, NamesOk;
    forall k
      ensures RouteOk(t', k)
    {
      assert RouteOk(t, k);
      assert k in t.subscriptionOf ==> IdOk(t, t.subscriptionOf[k]);
    }
    forall id
      ensures IdOk(t', id)
    {
      assert IdOk(t, id);
    }
  }

  lemma SubscribeKeepsInv(t: Tables, h: Handle, sink: Sink)
    requires Inv(t)
    ensures Inv(Subscribe(t, h, sink))
  {
    assert RouteOk(t, h);
    hide Inv;
    if h !in t.routes || h !in t.routePtyIds {
      RefuseKeepsInv(t, sink);
    } else {
      EnterKeepsInv(t, h, sink);
      if h !in t.sinks {
        BeginKeepsInv(Enter(t, h, sink), h);
      }
    }
  }

  lemma UnsubscribeKeepsRoute(t: Tables, h: Handle, sink: Sink, k: Handle)
    requires Inv(t)
    ensures RouteOk(Unsubscribe(t, h, sink), k)
  {
    assert RouteOk(t, k) && RouteOk(t, h);
    assert k in t.subscriptionOf ==> IdOk(t, t.subscriptionOf[k]);
    hide LogOk, Orderly, NamesOk;
  }

  lemma UnsubscribeKeepsId(t: Tables, h: Handle, sink: Sink, id: RequestId)
    requires Inv(t)
    ensures IdOk(Unsubscribe(t, h, sink), id)
  {
    assert IdOk(t, id) && RouteOk(t, h);
    hide LogOk, Orderly, NamesOk;
  }

  lemma UnsubscribeSinks(t: Tables, h: Handle, sink: Sink)
    requires LogOk(t, h) && sink in SinksOf(t, h)
    ensures EntryOk(t.log, Leaves(h, sink))
    ensures Unsubscribe(t, h, sink).log == t.log + [Leaves(h, sink)]
    ensures forall k, s :: s in SinksOf(Unsubscribe(t, h, sink), k) <==> After(Leaves(h, sink), k, s, s in SinksOf(t, k))
  {
    hide On;
  }

  lemma UnsubscribeKeepsInv(t: Tables, h: Handle, sink: Sink)
    requires Inv(t)
    ensures Inv(Unsubscribe(t, h, sink))
  {
    var t' := Unsubscribe(t, h, sink);
    assert NamesOk(t') && LogOk(t, h);
    forall k
      ensures RouteOk(t', k)
    {
      UnsubscribeKeepsRoute(t, h, sink, k);
    }
    forall id
      ensures IdOk(t', id)
    {
      UnsubscribeKeepsId(t, h, sink, id);
    }
    if sink in SinksOf(t, h) {
      UnsubscribeSinks(t, h, sink);
      hide Orderly, RouteOk, IdOk, On, LogOk, Unsubscribe, SinksOf, After, EntryOk;
      Logged(t, t', Leaves(h, sink));
    }
  }

  lemma SettleKeepsInv(t: Tables, t': Tables, id: RequestId)
    requires Inv(t) && id in t.subscriptions
    requires t' == t.(subscriptions := t.subscriptions - {id},
                      subscriptionOf := t.subscriptionOf - {t.subscriptions[id].route},
                      subscribed := t.subscribed + {id})
    ensures Inv(t')
  {
    assert IdOk(t, id);
    forall k
      ensures RouteOk(t', k) && LogOk(t', k)
    {
      assert RouteOk(t, k) && LogOk(t, k);
    }
    forall i
      ensures IdOk(t', i)
    {
      assert IdOk(t, i);
    }
  }

  lemma AskingKeepsInv(t: Tables, e: Event)
    requires Inv(t) && (e.Ask? || e.ResultFrame? || e.AskTimeout?)
    ensures Inv(Step(t, e))
  {
    var t' := Step(t, e);
    assert IdOk(t, t.lastId + 1);
    SameSinks(t, t');
    hide LogOk, Orderly;
    forall k
      ensures RouteOk(t', k)
    {
      assert RouteOk(t, k);
    }
    forall i
      ensures IdOk(t', i)
    {
      assert IdOk(t, i);
    }
  }

  lemma {:induction false} CloseAllKeepsInv(t: Tables, hs: seq<Handle>)
    requires Inv(t)
    ensures Inv(CloseAll(t, hs))
  {
    if hs != [] {
      CloseAllKeepsInv(t, hs[..|hs| - 1]);
      hide Inv, Close;
      CloseKeepsInv(CloseAll(t, hs[..|hs| - 1]), hs[|hs| - 1]);
    }
  }

  lemma {:induction false} SendAllKeepsInv(t: Tables, hs: seq<Handle>)
    requires Inv(t)
    ensures Inv(SendAll(t, hs))
  {
    if hs != [] {
      var t1, h := SendAll(t, hs[..|hs| - 1]), hs[|hs| - 1];
      SendAllKeepsInv(t, hs[..|hs| - 1]);
      var t' := SendAll(t, hs);
      assert LogOk(t1, h);
      hide Orderly, On, SendAll;
      assert t' == t1.(log := t1.log + [Data(h, SinksOf(t1, h))]) by { SendAllStep(t, hs); }
      Logged(t1, t', Data(h, SinksOf(t1, h)));
      forall k
        ensures RouteOk(t', k)
      {
        assert RouteOk(t1, k);
      }
      forall id
        ensures IdOk(t', id)
      {
        assert IdOk(t1, id);
      }
    }
  }

  lemma SendAllStep(t: Tables, hs: seq<Handle>)
    requires hs != []
    ensures var t1, h := SendAll(t, hs[..|hs| - 1]), hs[|hs| - 1];
      SendAll(t, hs) == t1.(log := t1.log + [Data(h, SinksOf(t1, h))])
  {
  }

  lemma DropKeepsInv(t: Tables, client: Client, order: seq<Handle>)
    requires Inv(t)
    ensures Inv(Drop(t, client, order))
  {
    CloseAllKeepsInv(t, order);
    var t1, t' := CloseAll(t, order), Drop(t, client, order);
    SameSinks(t1, t');
    hide LogOk, Orderly, CloseAll;
    forall k
      ensures RouteOk(t', k)
    {
      assert RouteOk(t1, k);
    }
    forall id
      ensures IdOk(t', id)
    {
      assert IdOk(t1, id);
    }
  }

  lemma AcknowledgeKeepsInv(t: Tables, client: Client, id: RequestId)
    requires Inv(t)
    ensures Inv(Acknowledge(t, client, id))
  {
    assert IdOk(t, id);
    hide LogOk, Orderly, RouteOk, NamesOk;
    if id in t.subscriptions && t.subscriptions[id].client == client {
      SettleKeepsInv(t, Acknowledge(t, client, id), id);
    }
  }

  lemma StepKeepsInv(t: Tables, e: Event)
    requires Inv(t) && Allowed(t, e)
    ensures Inv(Step(t, e))
  {
    hide Inv, Lists, Close, CloseAll, SendAll, Drop, Acknowledge, Subscribe, Unsubscribe, Bind;
    match e
    case Binds(n, minted) => BindKeepsInv(t, n, minted);
    case Subscribes(h, sink) => SubscribeKeepsInv(t, h, sink);
    case Unsubscribes(h, sink) => UnsubscribeKeepsInv(t, h, sink);
    case DataFrame(_, order) => SendAllKeepsInv(t, order);
    case ExitFrame(_, order) => CloseAllKeepsInv(t, order);
    case AckFrame(client, id) => AcknowledgeKeepsInv(t, client, id);
    case SubscribeTimeout(id) => if id in t.subscriptions { CloseKeepsInv(t, t.subscriptions[id].route); }
    case Drops(client, order) => DropKeepsInv(t, client, order);
    case _ => AskingKeepsInv(t, e);
  }

  lemma {:induction false} RunKeepsInv(worlds: seq<Tables>, events: seq<Event>, i: nat)
    requires Run(worlds, events) && i < |worlds|
    ensures Inv(worlds[i])
  {
    if i > 0 {
      RunKeepsInv(worlds, events, i - 1);
      hide Inv, Step, Allowed;
      StepKeepsInv(worlds[i - 1], events[i - 1]);
    }
  }

  // ----- Handles ----------------------------------------------------------------------------

  lemma {:induction false} CloseAllKeeps(t: Tables, hs: seq<Handle>)
    ensures CloseAll(t, hs).handleOf == t.handleOf && CloseAll(t, hs).handles == t.handles
    ensures CloseAll(t, hs).asks == t.asks && CloseAll(t, hs).answered == t.answered
    ensures t.subscribed <= CloseAll(t, hs).subscribed
  {
    if hs != [] {
      CloseAllKeeps(t, hs[..|hs| - 1]);
    }
  }

  lemma {:induction false} SendAllKeeps(t: Tables, hs: seq<Handle>)
    ensures SendAll(t, hs) == t.(log := SendAll(t, hs).log)
  {
    if hs != [] {
      SendAllKeeps(t, hs[..|hs| - 1]);
    }
  }

  lemma StepKeepsNames(t: Tables, e: Event)
    ensures Step(t, e).handleOf
         == if !e.Binds? then t.handleOf
            else t.handleOf[e.named := if e.named in t.handleOf then t.handleOf[e.named] else e.minted]
  {
    if e.ExitFrame? || e.Drops? {
      CloseAllKeeps(t, e.order);
    } else if e.DataFrame? {
      SendAllKeeps(t, e.order);
    }
    hide CloseAll, SendAll, SinksOf;
  }

  lemma StepKeepsSettled(t: Tables, e: Event)
    ensures t.subscribed <= Step(t, e).subscribed && t.answered <= Step(t, e).answered
  {
    if e.ExitFrame? || e.Drops? {
      CloseAllKeeps(t, e.order);
    } else if e.DataFrame? {
      SendAllKeeps(t, e.order);
    }
    hide CloseAll, SendAll, SinksOf;
  }

  lemma {:induction false} HistoryStays(worlds: seq<Tables>, events: seq<Event>, i: nat, j: nat)
    requires Run(worlds, events) && i <= j < |worlds|
    ensures forall n :: n in worlds[i].handleOf ==>
              n in worlds[j].handleOf && worlds[j].handleOf[n] == worlds[i].handleOf[n]
    ensures worlds[i].subscribed <= worlds[j].subscribed && worlds[i].answered <= worlds[j].answered
    decreases j
  {
    if i < j {
      HistoryStays(worlds, events, i, j - 1);
      hide Step, Allowed;
      StepKeepsNames(worlds[j - 1], events[j - 1]);
      StepKeepsSettled(worlds[j - 1], events[j - 1]);
    }
  }

  // A handle once given names the same PTY of the same window for ever, whatever closes
  // and is bound again between, and no other PTY is ever given it.
  lemma HandlesNameForever(worlds: seq<Tables>, events: seq<Event>, i: nat, j: nat, n: Named, m: Named)
    requires Run(worlds, events) && i <= j < |worlds| && n in worlds[i].handleOf
    ensures var h := worlds[i].handleOf[n];
      && n in worlds[j].handleOf && worlds[j].handleOf[n] == h
      && (h in worlds[j].routes ==>
            h in worlds[j].routePtyIds && Named(worlds[j].routes[h], worlds[j].routePtyIds[h]) == n)
      && (m in worlds[j].handleOf && worlds[j].handleOf[m] == h ==> m == n)
  {
    RunKeepsInv(worlds, events, j);
    HistoryStays(worlds, events, i, j);
    assert RouteOk(worlds[j], worlds[i].handleOf[n]);
  }

  // The two route tables agree; a route with nobody watching has nobody waiting; and
  // whoever waits is found from the route and from the id alike.
  lemma TablesAgree(worlds: seq<Tables>, events: seq<Event>, i: nat)
    requires Run(worlds, events) && i < |worlds|
    ensures var t := worlds[i];
      && t.routes.Keys == t.routePtyIds.Keys
      && t.sinks.Keys <= t.routes.Keys
      && t.subscriptionOf.Keys <= t.sinks.Keys
      && (forall h :: h in t.subscriptionOf ==>
            t.subscriptionOf[h] in t.subscriptions && t.subscriptions[t.subscriptionOf[h]] == Pending(t.routes[h], h))
      && (forall id :: id in t.subscriptions ==>
            t.subscriptions[id].route in t.subscriptionOf && t.subscriptionOf[t.subscriptions[id].route] == id)
  {
    var t := worlds[i];
    RunKeepsInv(worlds, events, i);
    assert forall h :: h in t.routes || h in t.routePtyIds || h in t.sinks || h in t.subscriptionOf ==> RouteOk(t, h);
    assert forall id :: id in t.subscriptions ==> IdOk(t, id);
  }

  // ----- No data after an exit ------------------------------------------------------------------

  lemma {:induction false} Rejoined(log: seq<Entry>, h: Handle, sink: Sink, a: nat, b: nat) returns (j: nat)
    requires a <= b <= |log| && !On(log[..a], h, sink) && On(log[..b], h, sink)
    ensures a <= j < b && log[j] == Joins(h, sink)
    decreases b
  {
    assert log[..b][..b - 1] == log[..b - 1];
    if log[b - 1] == Joins(h, sink) {
      j := b - 1;
    } else {
      assert b > a;
      j := Rejoined(log, h, sink, a, b - 1);
    }
  }

  // After its exit from a route a sink is handed nothing more of it, unless it joins
  // again in between; and it is told of an exit once for each time it is on.
  lemma NoDataAfterExit(worlds: seq<Tables>, events: seq<Event>, i: nat, a: nat, b: nat, sink: Sink) returns (j: nat)
    requires Run(worlds, events) && i < |worlds| && a < b < |worlds[i].log|
    requires var x, y := worlds[i].log[a], worlds[i].log[b];
      x.Exits? && sink in x.told && (y.Data? || y.Exits?) && y.route == x.route && sink in y.told
    ensures a < j < b && worlds[i].log[j] == Joins(worlds[i].log[a].route, sink)
  {
    var log := worlds[i].log;
    RunKeepsInv(worlds, events, i);
    assert EntryOk(log[..b], log[b]);
    assert log[..a + 1] == log[..a] + [log[a]];
    OnAppend(log[..a], log[a], log[a].route, sink);
    j := Rejoined(log, log[a].route, sink, a + 1, b);
  }

  // What a route's owner sends reaches every sink on it, whenever each joined.
  lemma DataReachesTheWatchers(worlds: seq<Tables>, events: seq<Event>, i: nat, k: nat, sink: Sink)
    requires Run(worlds, events) && i < |worlds| && k < |worlds[i].log|
    requires worlds[i].log[k].Data? || worlds[i].log[k].Exits?
    ensures sink in worlds[i].log[k].told <==> On(worlds[i].log[..k], worlds[i].log[k].route, sink)
  {
    RunKeepsInv(worlds, events, i);
    assert EntryOk(worlds[i].log[..k], worlds[i].log[k]);
  }

  // A frame about a PTY of a window comes upon that PTY's one route, if it stands, and
  // upon no other.
  lemma FrameFindsItsRoute(worlds: seq<Tables>, events: seq<Event>, i: nat, n: Named, order: seq<Handle>)
    requires Run(worlds, events) && i < |worlds| && Lists(order, Matching(worlds[i], n))
    ensures var t := worlds[i];
      order == if n in t.handleOf && t.handleOf[n] in t.routes then [t.handleOf[n]] else []
  {
    var t := worlds[i];
    RunKeepsInv(worlds, events, i);
    forall h | h in order
      ensures n in t.handleOf && t.handleOf[n] == h
    {
      assert RouteOk(t, h);
    }
    if n in t.handleOf && t.handleOf[n] in t.routes {
      assert RouteOk(t, t.handleOf[n]);
      assert t.handleOf[n] in order;
    }
    hide Inv, Matching;
    if order != [] {
      assert order[0] in order && order[|order| - 1] in order;
      assert order[|order| - 1] == order[0];
      assert order == [order[0]];
    }
  }

  // ----- Every promise settles -------------------------------------------------------------------

  // The five things that end a wait: its owner's acknowledgement, the PTY's exit, its
  // window's going, the last sink's leaving, and the timer.
  predicate EndsWait(t: Tables, e: Event, id: RequestId) {
    && id in t.subscriptions
    && var p := t.subscriptions[id];
       match e
       case AckFrame(client, i) => i == id && client == p.client
       case ExitFrame(n, _) => p.route in t.routePtyIds && n == Named(p.client, t.routePtyIds[p.route])
       case Drops(client, _) => client == p.client
       case Unsubscribes(h, sink) => h == p.route && SinksOf(t, h) == {sink}
       case SubscribeTimeout(i) => i == id
       case _ => false
  }

  lemma CloseSettles(t: Tables, h: Handle, id: RequestId)
    requires Inv(t) && id in t.subscriptions
    ensures var t' := Close(t, h);
      if t.subscriptions[id].route == h then id in t'.subscribed && id !in t'.subscriptions
      else id in t'.subscriptions && t'.subscriptions[id] == t.subscriptions[id]
  {
    assert IdOk(t, id) && RouteOk(t, t.subscriptions[id].route) && RouteOk(t, h);
    hide LogOk, Orderly, NamesOk;
  }

  lemma {:induction false} CloseAllSettles(t: Tables, hs: seq<Handle>, id: RequestId)
    requires Inv(t) && id in t.subscriptions
    ensures var t' := CloseAll(t, hs);
      if t.subscriptions[id].route in hs then id in t'.subscribed && id !in t'.subscriptions
      else id in t'.subscriptions && t'.subscriptions[id] == t.subscriptions[id]
  {
    if hs != [] {
      var front, h := hs[..|hs| - 1], hs[|hs| - 1];
      CloseAllSettles(t, front, id);
      CloseAllKeepsInv(t, front);
      var t1 := CloseAll(t, front);
      assert hs == front + [h];
      hide Inv, Close;
      if id in t1.subscriptions {
        CloseSettles(t1, h, id);
      } else {
        CloseNeverReopens(t1, h, id);
      }
    }
  }

  lemma CloseNeverReopens(t: Tables, h: Handle, id: RequestId)
    requires id in t.subscribed && id !in t.subscriptions
    ensures id in Close(t, h).subscribed && id !in Close(t, h).subscriptions
  {
  }

  // The routes a frame or a departure comes upon are the waiting one's exactly when
  // they are its window's, or its PTY's.
  lemma OwnRoute(t: Tables, e: Event, id: RequestId)
    requires Inv(t) && Allowed(t, e) && id in t.subscriptions && (e.ExitFrame? || e.Drops?)
    ensures t.subscriptions[id].route in e.order <==> EndsWait(t, e, id)
  {
    assert IdOk(t, id) && RouteOk(t, t.subscriptions[id].route);
    hide LogOk, Orderly, NamesOk;
  }

  // One step settles the promise if it is one of the five, and otherwise leaves it
  // waiting as it was.
  lemma StepSettles(t: Tables, e: Event, id: RequestId)
    requires Inv(t) && Allowed(t, e) && id in t.subscriptions
    ensures var t' := Step(t, e);
      if EndsWait(t, e, id) then id in t'.subscribed && id !in t'.subscriptions
      else id in t'.subscriptions && t'.subscriptions[id] == t.subscriptions[id]
  {
    assert IdOk(t, id) && RouteOk(t, t.subscriptions[id].route);
    if e.ExitFrame? || e.Drops? {
      OwnRoute(t, e, id);
      CloseAllSettles(t, e.order, id);
      hide *;
      StepCloses(t, e, id);
    } else if e.DataFrame? {
      SendAllKeeps(t, e.order);
      hide SendAll, Inv, Lists;
    } else if e.Unsubscribes? {
      UnsubscribeSettles(t, e.route, e.sink, id);
      hide Inv, Unsubscribe;
    } else if e.SubscribeTimeout? && e.id in t.subscriptions {
      CloseSettles(t, t.subscriptions[e.id].route, id);
      assert IdOk(t, e.id);
      hide Inv, Close;
    } else {
      hide LogOk, Orderly, NamesOk;
      assert IdOk(t, t.lastId + 1);
    }
  }

  lemma StepCloses(t: Tables, e: Event, id: RequestId)
    requires e.ExitFrame? || e.Drops?
    ensures Step(t, e).subscriptions == CloseAll(t, e.order).subscriptions
    ensures Step(t, e).subscribed == CloseAll(t, e.order).subscribed
    ensures EndsWait(t, e, id) ==> id in t.subscriptions
  {
  }

  lemma UnsubscribeSettles(t: Tables, h: Handle, sink: Sink, id: RequestId)
    requires Inv(t) && id in t.subscriptions
    ensures var t' := Unsubscribe(t, h, sink);
      if t.subscriptions[id].route == h && SinksOf(t, h) == {sink} then id in t'.subscribed && id !in t'.subscriptions
      else id in t'.subscriptions && t'.subscriptions[id] == t.subscriptions[id]
  {
    assert IdOk(t, id) && RouteOk(t, t.subscriptions[id].route) && RouteOk(t, h);
    hide LogOk, Orderly, NamesOk;
  }

  // A subscribe promise settles by one of the five and by nothing else, the timer always
  // being one that can come; and settled it stays.
  lemma SubscribeSettles(worlds: seq<Tables>, events: seq<Event>, i: nat, j: nat, id: RequestId)
    requires Run(worlds, events) && i < |events| && i < j < |worlds| && id in worlds[i].subscriptions
    ensures EndsWait(worlds[i], events[i], id) ==> id in worlds[j].subscribed && id !in worlds[j].subscriptions
    ensures !EndsWait(worlds[i], events[i], id) ==> id in worlds[i + 1].subscriptions
    ensures Allowed(worlds[i], SubscribeTimeout(id)) && EndsWait(worlds[i], SubscribeTimeout(id), id)
  {
    RunKeepsInv(worlds, events, i);
    RunKeepsInv(worlds, events, j);
    StepSettles(worlds[i], events[i], id);
    HistoryStays(worlds, events, i + 1, j);
    assert IdOk(worlds[j], id);
  }

  // A question is answered by the window it was put to, by that window's going, or by
  // its timer, once; another window's answer to its id does nothing.
  predicate EndsAsk(t: Tables, e: Event, id: RequestId) {
    && id in t.asks
    && match e
       case ResultFrame(client, i) => i == id && client == t.asks[id]
       case Drops(client, _) => client == t.asks[id]
       case AskTimeout(i) => i == id
       case _ => false
  }

  lemma StepAnswers(t: Tables, e: Event, id: RequestId)
    requires IdOk(t, id) && IdOk(t, t.lastId + 1) && id in t.asks
    ensures EndsAsk(t, e, id) ==> id in Step(t, e).answered
    ensures !EndsAsk(t, e, id) ==> id in Step(t, e).asks && Step(t, e).asks[id] == t.asks[id]
  {
    if e.ExitFrame? || e.Drops? {
      CloseAllKeeps(t, e.order);
    } else if e.DataFrame? {
      SendAllKeeps(t, e.order);
    }
    hide CloseAll, SendAll, SinksOf;
  }

  lemma AskSettles(worlds: seq<Tables>, events: seq<Event>, i: nat, j: nat, id: RequestId)
    requires Run(worlds, events) && i < |events| && i < j < |worlds| && id in worlds[i].asks
    ensures EndsAsk(worlds[i], events[i], id) ==> id in worlds[j].answered && id !in worlds[j].asks
    ensures !EndsAsk(worlds[i], events[i], id) ==> id in worlds[i + 1].asks && worlds[i + 1].asks[id] == worlds[i].asks[id]
  {
    var t := worlds[i];
    RunKeepsInv(worlds, events, i);
    RunKeepsInv(worlds, events, j);
    assert IdOk(worlds[j], id) && IdOk(t, id) && IdOk(t, t.lastId + 1);
    HistoryStays(worlds, events, i + 1, j);
    assert worlds[i + 1] == Step(t, events[i]);
    hide Inv, Step, EndsAsk;
    StepAnswers(t, events[i], id);
  }

  // ----- What each call does -------------------------------------------------------------------

  // A subscribe to a route that does not stand is only refused; one to a route with sinks adds
  // the sink and asks nothing; the first one of a route asks its window, under a new id that
  // waits for that window and that route.
  lemma SubscribeDoes(worlds: seq<Tables>, events: seq<Event>, i: nat, h: Handle, sink: Sink)
    requires Run(worlds, events) && i < |events| && events[i] == Subscribes(h, sink)
    ensures var t, t' := worlds[i], worlds[i + 1];
      && t'.routes == t.routes && t'.routePtyIds == t.routePtyIds && t'.handleOf == t.handleOf
      && t'.asks == t.asks && t'.subscribed == t.subscribed && t'.answered == t.answered
      && if h !in t.routes then t'.log == t.log + [Refused(sink)] && SameStreams(t, t')
         else
           && t'.log == t.log + [Joins(h, sink)]
           && (h in t.sinks ==>
                 && t'.sinks == t.sinks[h := t.sinks[h] + {sink}] && t'.lastId == t.lastId
                 && t'.subscriptions == t.subscriptions && t'.subscriptionOf == t.subscriptionOf)
           && (h !in t.sinks ==>
                 && t'.sinks == t.sinks[h := {sink}] && t'.lastId == t.lastId + 1
                 && t.lastId + 1 !in t.subscriptions && t.lastId + 1 !in t.subscribed
                 && t'.subscriptions == t.subscriptions[t.lastId + 1 := Pending(t.routes[h], h)]
                 && h !in t.subscriptionOf && t'.subscriptionOf == t.subscriptionOf[h := t.lastId + 1])
  {
    var t := worlds[i];
    RunKeepsInv(worlds, events, i);
    assert RouteOk(t, h) && IdOk(t, t.lastId + 1);
    hide Inv, On;
    assert {} + {sink} == {sink};
  }

  // The sinks on each route and who waits to subscribe.
  ghost predicate SameStreams(t: Tables, t': Tables) {
    && t'.sinks == t.sinks && t'.lastId == t.lastId
    && t'.subscriptions == t.subscriptions && t'.subscriptionOf == t.subscriptionOf
  }

  // The first subscribe of a route puts an id among those that wait, and it is there until
  // the first of the five things that end its wait, which settles it for good.
  lemma {:induction false} FirstSubscribeWaits(worlds: seq<Tables>, events: seq<Event>, i: nat, j: nat, h: Handle, sink: Sink)
    requires Run(worlds, events) && i < j < |worlds| && events[i] == Subscribes(h, sink)
    requires h in worlds[i].routes && h !in worlds[i].sinks
    ensures var id := worlds[i].lastId + 1;
      if exists k :: i < k < j && EndsWait(worlds[k], events[k], id)
      then id in worlds[j].subscribed && id !in worlds[j].subscriptions
      else id in worlds[j].subscriptions && worlds[j].subscriptions[id] == Pending(worlds[i].routes[h], h)
    decreases j
  {
    hide Step, Allowed, EndsWait, Inv;
    var id := worlds[i].lastId + 1;
    if j == i + 1 {
      SubscribeDoes(worlds, events, i, h, sink);
    } else {
      FirstSubscribeWaits(worlds, events, i, j - 1, h, sink);
      if id in worlds[j - 1].subscriptions {
        RunKeepsInv(worlds, events, j - 1);
        StepSettles(worlds[j - 1], events[j - 1], id);
      } else {
        var k :| i < k < j - 1 && EndsWait(worlds[k], events[k], id);
        StillSettled(worlds, events, k, j, id);
      }
    }
  }

  lemma StillSettled(worlds: seq<Tables>, events: seq<Event>, k: nat, j: nat, id: RequestId)
    requires Run(worlds, events) && k < |events| && k < j < |worlds| && EndsWait(worlds[k], events[k], id)
    ensures id in worlds[j].subscribed && id !in worlds[j].subscriptions
  {
    hide Run;
    SubscribeSettles(worlds, events, k, j, id);
  }

  // What is told, to whom, when each of several routes goes.
  ghost function ExitLines(t: Tables, hs: seq<Handle>): seq<Entry> {
    seq(|hs|, k requires 0 <= k < |hs| => Exits(hs[k], SinksOf(t, hs[k])))
  }

  // The tables with some routes gone: each one's sinks told, and whoever waits there let go.
  ghost predicate RoutesGone(t: Tables, t': Tables, hs: seq<Handle>) {
    && t'.routes == t.routes - Elements(hs) && t'.routePtyIds == t.routePtyIds - Elements(hs)
    && t'.sinks == t.sinks - Elements(hs) && t'.subscriptionOf == t.subscriptionOf - Elements(hs)
    && t'.handleOf == t.handleOf && t'.handles == t.handles && t'.lastId == t.lastId
    && t'.log == t.log + ExitLines(t, hs)
  }

  lemma ElementsOf(hs: seq<Handle>)
    requires hs != []
    ensures Elements(hs) == Elements(hs[..|hs| - 1]) + {hs[|hs| - 1]}
  {
    assert hs == hs[..|hs| - 1] + [hs[|hs| - 1]];
  }

  lemma CloseDoes(t: Tables, h: Handle)
    ensures var t' := Close(t, h);
      && t'.routes == t.routes - {h} && t'.routePtyIds == t.routePtyIds - {h}
      && t'.sinks == t.sinks - {h} && t'.subscriptionOf == t.subscriptionOf - {h}
      && t'.handleOf == t.handleOf && t'.handles == t.handles && t'.lastId == t.lastId
      && t'.log == t.log + [Exits(h, if h in t.sinks then t.sinks[h] else {})]
  {
    assert h !in t.subscriptionOf ==> t.subscriptionOf - {h} == t.subscriptionOf;
  }

  lemma {:induction false} CloseAllDoes(t: Tables, hs: seq<Handle>)
    requires NoDup(hs)
    ensures RoutesGone(t, CloseAll(t, hs), hs)
  {
    if hs == [] {
      assert Elements(hs) == {};
      assert t.log + ExitLines(t, hs) == t.log;
    } else {
      hide Close;
      var front, h := hs[..|hs| - 1], hs[|hs| - 1];
      CloseAllDoes(t, front);
      ElementsOf(hs);
      CloseDoes(CloseAll(t, front), h);
      assert h !in Elements(front);
      assert ExitLines(t, hs) == ExitLines(t, front) + [Exits(h, SinksOf(t, h))];
    }
  }

  lemma {:induction false} SendAllDoes(t: Tables, hs: seq<Handle>)
    ensures SendAll(t, hs) ==
      t.(log := t.log + seq(|hs|, k requires 0 <= k < |hs| => Data(hs[k], if hs[k] in t.sinks then t.sinks[hs[k]] else {})))
  {
    if hs != [] {
      SendAllDoes(t, hs[..|hs| - 1]);
    }
  }

  // A PTY's data goes to the sinks of its route, as they stand; its exit too, and the route
  // goes. With no standing route either is nothing.
  lemma FrameActsOnItsRoute(worlds: seq<Tables>, events: seq<Event>, i: nat, n: Named, order: seq<Handle>)
    requires Run(worlds, events) && i < |events|
    requires events[i] == DataFrame(n, order) || events[i] == ExitFrame(n, order)
    ensures var t, t' := worlds[i], worlds[i + 1];
      if n !in t.handleOf || t.handleOf[n] !in t.routes then t' == t
      else
        var h := t.handleOf[n];
        var watching := if h in t.sinks then t.sinks[h] else {};
        if events[i].DataFrame? then t' == t.(log := t.log + [Data(h, watching)])
        else
          && t'.routes == t.routes - {h} && t'.sinks == t.sinks - {h} && t'.subscriptionOf == t.subscriptionOf - {h}
          && t'.handleOf == t.handleOf && t'.asks == t.asks && t'.log == t.log + [Exits(h, watching)]
  {
    var t, t' := worlds[i], worlds[i + 1];
    assert Allowed(t, events[i]) && t' == Step(t, events[i]);
    hide Run, Close, Matching, Allowed;
    FrameFindsItsRoute(worlds, events, i, n, order);
    if events[i].DataFrame? {
      SendAllDoes(t, order);
    } else {
      if order != [] {
        assert order[..0] == [];
        CloseDoes(t, order[0]);
        CloseAllKeeps(t, order);
      }
    }
  }

  // A window's going takes all its routes and no other, tells their sinks, and leaves none of
  // the questions put to it and all of the others.
  lemma DropDoes(t: Tables, client: Client, order: seq<Handle>)
    requires Lists(order, RoutesOf(t, client))
    ensures var t' := Drop(t, client, order);
      && RoutesGone(t, t', order)
      && (forall h :: h in t'.routes <==> h in t.routes && t.routes[h] != client)
      && (forall id :: id in t'.asks <==> id in t.asks && t.asks[id] != client)
      && (forall id :: id in t'.asks ==> t'.asks[id] == t.asks[id])
  {
    CloseAllDoes(t, order);
    CloseAllKeeps(t, order);
    hide CloseAll;
    assert forall h :: h in RoutesOf(t, client) <==> h in Elements(order);
  }

  // ----- The broker -----------------------------------------------------------------------------

  lemma {:induction false} CloseAllRoutes(t: Tables, hs: seq<Handle>)
    ensures CloseAll(t, hs).routes == t.routes - Elements(hs)
  {
    if hs == [] {
      assert Elements(hs) == {};
    } else {
      CloseAllRoutes(t, hs[..|hs| - 1]);
      assert hs == hs[..|hs| - 1] + [hs[|hs| - 1]];
      assert Elements(hs) == Elements(hs[..|hs| - 1]) + {hs[|hs| - 1]};
    }
  }

  // Closing a route whose first table entry is gone already.
  lemma CloseIgnoresRoutes(t: Tables, routes: map<Handle, Client>, h: Handle)
    requires h !in routes
    ensures Close(t.(routes := routes), h) == Close(t, h).(routes := routes)
  {
    assert routes - {h} == routes;
  }

  class PeerLinkBroker {
    var routes: map<Handle, Client>
    var routePtyIds: map<Handle, PtyId>
    var remotePtyHandles: set<Handle>
    var peerRouteIds: map<Named, Handle>
    var remoteSinks: map<Handle, set<Sink>>
    var pendingSubscriptions: map<RequestId, Pending>
    var pendingByRoute: map<Handle, RequestId>
    var pendingRequests: map<RequestId, Client>
    var nextRequestId: RequestId
    ghost var log: seq<Entry>
    ghost var subscribed: set<RequestId>
    ghost var answered: set<RequestId>

    ghost function Now(): Tables
      reads this
    {
      Tables(routes, routePtyIds, remotePtyHandles, peerRouteIds, remoteSinks, pendingSubscriptions,
             pendingByRoute, pendingRequests, nextRequestId, log, subscribed, answered)
    }

    constructor ()
      ensures Now() == EMPTY
    {
      routes, routePtyIds, remotePtyHandles, peerRouteIds, remoteSinks := map[], map[], {}, map[], map[];
      pendingSubscriptions, pendingByRoute, pendingRequests, nextRequestId := map[], map[], map[], 0;
      log, subscribed, answered := [], {}, {};
    }

    method BindRemotePty(client: Client, ptyId: PtyId, minted: Handle) returns (h: Handle)
      modifies this
      ensures Now() == Bind(old(Now()), Named(client, ptyId), minted)
      // The handle it has had, if it has had one; and the route stands, as every other one does.
      ensures h == if Named(client, ptyId) in old(peerRouteIds) then old(peerRouteIds)[Named(client, ptyId)] else minted
      ensures routes == old(routes)[h := client] && routePtyIds == old(routePtyIds)[h := ptyId]
      ensures remoteSinks == old(remoteSinks) && pendingSubscriptions == old(pendingSubscriptions)
    {
      var n := Named(client, ptyId);
      h := if n in peerRouteIds then peerRouteIds[n] else minted;
      peerRouteIds := peerRouteIds[n := h];
      remotePtyHandles := remotePtyHandles + {h};
      routes := routes[h := client];
      routePtyIds := routePtyIds[h := ptyId];
    }

    method SettleSubscription(h: Handle)
      modifies this
      ensures Now() == Settle(old(Now()), h)
    {
      if h !in pendingByRoute { return; }
      var id := pendingByRoute[h];
      pendingSubscriptions := pendingSubscriptions - {id};
      pendingByRoute := pendingByRoute - {h};
      subscribed := subscribed + {id};
    }

    method CloseRoute(h: Handle)
      modifies this
      ensures Now() == Close(old(Now()), h)
    {
      routes := routes - {h};
      routePtyIds := routePtyIds - {h};
      log := log + [Exits(h, if h in remoteSinks then remoteSinks[h] else {})];
      remoteSinks := remoteSinks - {h};
      SettleSubscription(h);
    }

    // Answers the id whose settling resolves the subscriber, or none if already ready.
    method RemoteSubscribe(h: Handle, sink: Sink) returns (waits: Option<RequestId>)
      modifies this
      ensures Now() == Subscribe(old(Now()), h, sink)
      // A closed route: the sink is told so, and that is all.
      ensures h !in old(routes) || h !in old(routePtyIds) ==>
        waits == None && log == old(log) + [Refused(sink)] && remoteSinks == old(remoteSinks)
        && pendingSubscriptions == old(pendingSubscriptions) && pendingByRoute == old(pendingByRoute)
      // The first sink of a route: its window is asked, under the next id.
      ensures h in old(routes) && h in old(routePtyIds) && h !in old(remoteSinks) ==>
        && waits == Some(old(nextRequestId) + 1) && nextRequestId == old(nextRequestId) + 1
        && pendingSubscriptions == old(pendingSubscriptions)[old(nextRequestId) + 1 := Pending(old(routes)[h], h)]
        && pendingByRoute == old(pendingByRoute)[h := old(nextRequestId) + 1]
        && remoteSinks == old(remoteSinks)[h := {sink}] && log == old(log) + [Joins(h, sink)]
      // A further one: no id is added, and it waits for whom the first waits for, if still.
      ensures h in old(routes) && h in old(routePtyIds) && h in old(remoteSinks) ==>
        && waits == (if h in old(pendingByRoute) then Some(old(pendingByRoute)[h]) else None)
        && nextRequestId == old(nextRequestId)
        && pendingSubscriptions == old(pendingSubscriptions) && pendingByRoute == old(pendingByRoute)
        && remoteSinks == old(remoteSinks)[h := old(remoteSinks)[h] + {sink}] && log == old(log) + [Joins(h, sink)]
    {
      if h !in routes || h !in routePtyIds {
        log := log + [Refused(sink)];
        return None;
      }
      log := log + [Joins(h, sink)];
      if h !in remoteSinks {
        assert {} + {sink} == {sink};
        remoteSinks := remoteSinks[h := {sink}];
        nextRequestId := nextRequestId + 1;
        pendingSubscriptions := pendingSubscriptions[nextRequestId := Pending(routes[h], h)];
        pendingByRoute := pendingByRoute[h := nextRequestId];
        return Some(nextRequestId);
      }
      remoteSinks := remoteSinks[h := remoteSinks[h] + {sink}];
      waits := if h in pendingByRoute then Some(pendingByRoute[h]) else None;
    }

    method RemoteUnsubscribe(h: Handle, sink: Sink)
      modifies this
      ensures Now() == Unsubscribe(old(Now()), h, sink)
      // The route stands; no other sink, route, handle or question is touched.
      ensures routes == old(routes) && routePtyIds == old(routePtyIds)
      ensures peerRouteIds == old(peerRouteIds) && remotePtyHandles == old(remotePtyHandles) && pendingRequests == old(pendingRequests)
      ensures SinksOf(Now(), h) == SinksOf(old(Now()), h) - {sink}
      ensures remoteSinks - {h} == old(remoteSinks) - {h} && pendingByRoute - {h} == old(pendingByRoute) - {h}
      // While others watch, whoever waits goes on waiting; once the last has left, no one
      // is on the route, and whoever waited for it is let go.
      ensures SinksOf(old(Now()), h) != {sink} ==>
        pendingByRoute == old(pendingByRoute) && pendingSubscriptions == old(pendingSubscriptions)
      ensures SinksOf(old(Now()), h) == {sink} ==> h !in remoteSinks && h !in pendingByRoute
      ensures SinksOf(old(Now()), h) == {sink} && h in old(pendingByRoute) ==>
        old(pendingByRoute)[h] !in pendingSubscriptions && old(pendingByRoute)[h] in subscribed
    {
      if h !in remoteSinks || sink !in remoteSinks[h] { return; }
      log := log + [Leaves(h, sink)];
      var left := remoteSinks[h] - {sink};
      if left != {} {
        remoteSinks := remoteSinks[h := left];
        return;
      }
      remoteSinks := remoteSinks - {h};
      SettleSubscription(h);
    }

    // Every route of one PTY of one window.
    method MatchingRoutes(client: Client, ptyId: PtyId) returns (matches: seq<Handle>)
      ensures Lists(matches, Matching(Now(), Named(client, ptyId)))
    {
      matches := [];
      var left := routes.Keys;
      while left != {}
        invariant left <= routes.Keys && NoDup(matches)
        invariant forall h :: h in matches <==> h in Matching(Now(), Named(client, ptyId)) && h !in left
      {
        var h :| h in left;
        left := left - {h};
        if routes[h] == client && h in routePtyIds && routePtyIds[h] == ptyId {
          matches := matches + [h];
        }
      }
    }

    method OnData(client: Client, ptyId: PtyId) returns (order: seq<Handle>)
      modifies this
      ensures Lists(order, Matching(old(Now()), Named(client, ptyId)))
      ensures Now() == SendAll(old(Now()), order)
    {
      order := MatchingRoutes(client, ptyId);
      hide Lists;
      for i := 0 to |order|
        invariant Now() == SendAll(old(Now()), order[..i])
      {
        assert order[..i + 1][..i] == order[..i];
        log := log + [Data(order[i], if order[i] in remoteSinks then remoteSinks[order[i]] else {})];
      }
      assert order[..|order|] == order;
    }

    method OnExit(client: Client, ptyId: PtyId) returns (order: seq<Handle>)
      modifies this
      ensures Lists(order, Matching(old(Now()), Named(client, ptyId)))
      ensures Now() == CloseAll(old(Now()), order)
    {
      order := MatchingRoutes(client, ptyId);
      hide Lists, Close;
      for i := 0 to |order|
        invariant Now() == CloseAll(old(Now()), order[..i])
      {
        assert order[..i + 1][..i] == order[..i];
        CloseRoute(order[i]);
      }
      assert order[..|order|] == order;
    }

    method OnSubscribed(client: Client, id: RequestId)
      modifies this
      ensures Now() == Acknowledge(old(Now()), client, id)
      // An acknowledgement touches no route and no sink, only who waits.
      ensures routes == old(routes) && remoteSinks == old(remoteSinks) && log == old(log)
      ensures pendingSubscriptions ==
        if id in old(pendingSubscriptions) && old(pendingSubscriptions)[id].client == client
        then old(pendingSubscriptions) - {id} else old(pendingSubscriptions)
    {
      if id !in pendingSubscriptions || pendingSubscriptions[id].client != client { return; }
      var h := pendingSubscriptions[id].route;
      pendingSubscriptions := pendingSubscriptions - {id};
      if h in pendingByRoute && pendingByRoute[h] == id {
        pendingByRoute := pendingByRoute - {h};
      }
      subscribed := subscribed + {id};
    }

    method OnSubscribeTimeout(id: RequestId)
      modifies this
      ensures Now() == SubscribeTimesOut(old(Now()), id)
    {
      if id in pendingSubscriptions {
        CloseRoute(pendingSubscriptions[id].route);
      }
    }

    method AskPeer(client: Client) returns (id: RequestId)
      modifies this
      ensures Now() == Asks(old(Now()), client)
      // The question waits for that window under an id no other has had.
      ensures id == old(nextRequestId) + 1 && nextRequestId == id
      ensures pendingRequests == old(pendingRequests)[id := client]
    {
      nextRequestId := nextRequestId + 1;
      id := nextRequestId;
      pendingRequests := pendingRequests[id := client];
    }

    method OnResult(client: Client, id: RequestId)
      modifies this
      ensures Now() == Answers(old(Now()), client, id)
      ensures pendingRequests ==
        if id in old(pendingRequests) && old(pendingRequests)[id] == client then old(pendingRequests) - {id} else old(pendingRequests)
    {
      if id in pendingRequests && pendingRequests[id] == client {
        pendingRequests := pendingRequests - {id};
        answered := answered + {id};
      }
    }

    method OnAskTimeout(id: RequestId)
      modifies this
      ensures Now() == AskTimesOut(old(Now()), id)
    {
      if id in pendingRequests {
        pendingRequests := pendingRequests - {id};
        answered := answered + {id};
      }
    }

    // Deletes a window's routes and answers which they were.
    method ForgetPeerRoutes(client: Client) returns (dropped: seq<Handle>)
      modifies `routes
      ensures Lists(dropped, RoutesOf(old(Now()), client))
      ensures routes == old(routes) - Elements(dropped)
    {
      dropped := [];
      var left := routes.Keys;
      assert old(routes) - Elements(dropped) == old(routes);
      while left != {}
        invariant left <= old(routes).Keys && NoDup(dropped)
        invariant forall h :: h in dropped <==> h in RoutesOf(old(Now()), client) && h !in left
        invariant routes == old(routes) - Elements(dropped)
      {
        var h :| h in left;
        left := left - {h};
        if routes[h] == client {
          assert Elements(dropped + [h]) == Elements(dropped) + {h};
          dropped := dropped + [h];
          routes := routes - {h};
        }
      }
    }

    method AnswerNothing(client: Client)
      modifies `pendingRequests, `answered
      ensures pendingRequests == old(pendingRequests) - AsksOf(old(Now()), client)
      ensures answered == old(answered) + AsksOf(old(Now()), client)
    {
      var left := pendingRequests.Keys;
      while left != {}
        invariant left <= old(pendingRequests).Keys
        invariant pendingRequests == old(pendingRequests) - (AsksOf(old(Now()), client) - left)
        invariant answered == old(answered) + (AsksOf(old(Now()), client) - left)
      {
        var id :| id in left;
        left := left - {id};
        if pendingRequests[id] == client {
          pendingRequests := pendingRequests - {id};
          answered := answered + {id};
        }
      }
    }

    method DropClient(client: Client) returns (order: seq<Handle>)
      modifies this
      ensures Lists(order, RoutesOf(old(Now()), client))
      ensures Now() == Drop(old(Now()), client, order)
    {
      order := ForgetPeerRoutes(client);
      ghost var left := routes;
      hide Lists, Close;
      assert forall h :: h in order ==> h in Elements(order);
      for i := 0 to |order|
        invariant Now() == CloseAll(old(Now()), order[..i]).(routes := left)
      {
        assert order[..i + 1][..i] == order[..i] && order[i] in order;
        CloseIgnoresRoutes(CloseAll(old(Now()), order[..i]), left, order[i]);
        CloseRoute(order[i]);
      }
      assert order[..|order|] == order;
      CloseAllRoutes(old(Now()), order);
      AnswerNothing(client);
    }
  }
}
