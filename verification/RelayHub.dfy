/**
 The relay hub: Burrow and Client connections, one binding per Client, and the
 frames each socket is handed.

 The specification is a function from hub to hub per operation. The class below
 is proved to compute it, and the claims about whole traces are proved of it.
 */
module RelayHub {
  import opened Common

  const MAX_RELAY_CLIENT_SOCKETS: nat := 64
  const WS_CLOSE_BURROW_REPLACED: nat := 4000
  const WS_CLOSE_BURROW_REVOKED: nat := 4001
  const WS_CLOSE_UNAUTHORIZED: nat := 1008

  // Every accepted socket has its own number, so a connection record is the
  // identity of one connection generation.
  type Socket = nat

  // Identifiers are only ever compared.
  type BurrowId = nat
  type ClientId = nat

  datatype BurrowConn = BurrowConn(burrowId: BurrowId, socket: Socket)

  datatype ClientConn = ClientConn(clientId: ClientId, socket: Socket, expiresAt: int)

  // A registered Client and the Burrow it is bound to.
  datatype Client = Client(conn: ClientConn, burrowId: Option<BurrowId>)

  // The part of an envelope (kind, id, ciphertext) the relay copies unread.
  type Payload = nat

  datatype ClientInput =
    | Malformed
    | UnknownType
    | MalformedE2e
    | Init(burrowId: BurrowId, payload: Payload)
    | Transport(burrowId: BurrowId, payload: Payload)

  datatype ReplyStep = Response | TransportStep

  datatype BurrowInput = Unusable | Reply(clientId: ClientId, step: ReplyStep, payload: Payload)

  datatype Refusal = MalformedFrame | UnknownFrameType | MalformedE2eFrame | BurrowOffline(burrowId: BurrowId)

  datatype Out =
    | ForwardInit(clientId: ClientId, burrowId: BurrowId, payload: Payload)
    | ForwardTransport(clientId: ClientId, burrowId: BurrowId, payload: Payload)
    | ClientGone(clientId: ClientId)
    | Deliver(burrowId: BurrowId, step: ReplyStep, payload: Payload)
    | BurrowGone
    | Error(refusal: Refusal)
    | Close(code: nat)

  // Which endpoint accepted a socket, and for whom.
  datatype Role = AsBurrow(burrowId: BurrowId) | AsClient(clientId: ClientId)

  // `order` is the iteration order of the Client map. `sent` is what each socket
  // has been handed. `lastInit` remembers, for each clientId, the connection its
  // latest init was forwarded to. No operation reads `role` or `lastInit`.
  datatype Hub = Hub(
    burrows: map<BurrowId, BurrowConn>,
    clients: map<ClientId, Client>,
    order: seq<ClientId>,
    sent: map<Socket, seq<Out>>,
    role: map<Socket, Role>,
    lastInit: map<ClientId, Socket>)

  function Sent(sent: map<Socket, seq<Out>>, socket: Socket): seq<Out> {
    if socket in sent then sent[socket] else []
  }

  function Send(sent: map<Socket, seq<Out>>, socket: Socket, out: Out): map<Socket, seq<Out>> {
    sent[socket := Sent(sent, socket) + [out]]
  }

  // ----- Specification ------------------------------------------------------

  predicate BoundTo(h: Hub, c: ClientId, burrowId: BurrowId) {
    c in h.clients && h.clients[c].burrowId == Some(burrowId)
  }

  predicate CurrentBurrow(h: Hub, b: BurrowConn) {
    b.burrowId in h.burrows && h.burrows[b.burrowId] == b
  }

  predicate CurrentClient(h: Hub, c: ClientConn) {
    c.clientId in h.clients && h.clients[c.clientId].conn == c
  }

  predicate IsClientSocket(h: Hub, s: Socket) {
    && s in h.role && h.role[s].AsClient?
    && h.role[s].clientId in h.clients && h.clients[h.role[s].clientId].conn.socket == s
  }

  predicate IsBoundSocket(h: Hub, s: Socket, burrowId: BurrowId) {
    IsClientSocket(h, s) && BoundTo(h, h.role[s].clientId, burrowId)
  }

  // Every Client bound to the Burrow is told, once, and unbound.
  ghost function DropClientsOf(h: Hub, burrowId: BurrowId): Hub {
    h.(
      clients := map c | c in h.clients ::
        if h.clients[c].burrowId == Some(burrowId) then h.clients[c].(burrowId := None) else h.clients[c],
      sent := map s | s in h.sent ::
        if IsBoundSocket(h, s, burrowId) then h.sent[s] + [BurrowGone] else h.sent[s])
  }

  ghost function RegisterBurrow(h: Hub, b: BurrowConn): Hub {
    var h1 := h.(burrows := h.burrows[b.burrowId := b], sent := h.sent[b.socket := []],
                  role := h.role[b.socket := AsBurrow(b.burrowId)]);
    if b.burrowId !in h.burrows then h1
    else
      var h2 := DropClientsOf(h1, b.burrowId);
      h2.(sent := Send(h2.sent, h.burrows[b.burrowId].socket, Close(WS_CLOSE_BURROW_REPLACED)))
  }

  ghost function UnregisterBurrow(h: Hub, b: BurrowConn): Hub {
    if !CurrentBurrow(h, b) then h
    else DropClientsOf(h.(burrows := h.burrows - {b.burrowId}), b.burrowId)
  }

  ghost function CloseBurrow(h: Hub, burrowId: BurrowId): Hub {
    if burrowId !in h.burrows then h
    else
      var b := h.burrows[burrowId];
      var h1 := UnregisterBurrow(h, b);
      h1.(sent := Send(h1.sent, b.socket, Close(WS_CLOSE_BURROW_REVOKED)))
  }

  function OnBurrowFrame(h: Hub, b: BurrowConn, input: BurrowInput): Hub {
    if CurrentBurrow(h, b) && input.Reply? && BoundTo(h, input.clientId, b.burrowId) then
      h.(sent := Send(h.sent, h.clients[input.clientId].conn.socket, Deliver(b.burrowId, input.step, input.payload)))
    else h
  }

  function RegisterClient(h: Hub, c: ClientConn): Hub {
    if |h.clients| >= MAX_RELAY_CLIENT_SOCKETS then h
    else h.(
      clients := h.clients[c.clientId := Client(c, None)],
      order := h.order + [c.clientId],
      sent := h.sent[c.socket := []],
      role := h.role[c.socket := AsClient(c.clientId)])
  }

  // `client-gone` to the Burrow a Client is bound to, if it is still there.
  function TellGone(h: Hub, c: ClientId): Hub
    requires c in h.clients
  {
    var b := h.clients[c].burrowId;
    if b.Some? && b.value in h.burrows
    then h.(sent := Send(h.sent, h.burrows[b.value].socket, ClientGone(c)))
    else h
  }

  function Without(s: seq<ClientId>, x: ClientId): (r: seq<ClientId>)
    ensures forall y :: y in r <==> y in s && y != x
  {
    if s == [] then [] else (if s[0] == x then [] else [s[0]]) + Without(s[1..], x)
  }

  function UnregisterClient(h: Hub, c: ClientConn): Hub {
    if !CurrentClient(h, c) then h
    else
      var h1 := TellGone(h, c.clientId);
      h1.(clients := h1.clients - {c.clientId}, order := Without(h1.order, c.clientId))
  }

  function ToClient(h: Hub, c: ClientConn, out: Out): Hub {
    h.(sent := Send(h.sent, c.socket, out))
  }

  // Leaving another Burrow is announced to it before the binding moves.
  function Bind(h: Hub, c: ClientId, burrowId: BurrowId): Hub
    requires c in h.clients
  {
    var previous := h.clients[c].burrowId;
    var h1 := if previous.Some? && previous.value != burrowId then TellGone(h, c) else h;
    h1.(clients := h1.clients[c := h1.clients[c].(burrowId := Some(burrowId))])
  }

  function OnClientFrame(h: Hub, c: ClientConn, input: ClientInput): Hub {
    if !CurrentClient(h, c) then h
    else match input
      case Malformed => ToClient(h, c, Error(MalformedFrame))
      case UnknownType => ToClient(h, c, Error(UnknownFrameType))
      case MalformedE2e => ToClient(h, c, Error(MalformedE2eFrame))
      case Init(burrowId, payload) =>
        if burrowId !in h.burrows then ToClient(h, c, Error(BurrowOffline(burrowId)))
        else
          var h1 := Bind(h, c.clientId, burrowId);
          var b := h.burrows[burrowId].socket;
          h1.(sent := Send(h1.sent, b, ForwardInit(c.clientId, burrowId, payload)),
              lastInit := h1.lastInit[c.clientId := b])
      case Transport(burrowId, payload) =>
        if burrowId !in h.burrows then ToClient(h, c, Error(BurrowOffline(burrowId)))
        else if h.clients[c.clientId].burrowId != Some(burrowId) then h
        else h.(sent := Send(h.sent, h.burrows[burrowId].socket, ForwardTransport(c.clientId, burrowId, payload)))
  }

  // What a Client's frame is refused with, if it is.
  function RefusalOf(h: Hub, input: ClientInput): Option<Refusal> {
    match input
    case Malformed => Some(MalformedFrame)
    case UnknownType => Some(UnknownFrameType)
    case MalformedE2e => Some(MalformedE2eFrame)
    case _ => if input.burrowId in h.burrows then None else Some(BurrowOffline(input.burrowId))
  }

  // What one socket is to hear of a Client's frame.
  function Heard(h: Hub, c: ClientConn, input: ClientInput, s: Socket): seq<Out> {
    if c.clientId !in h.clients || h.clients[c.clientId].conn != c then []
    else if RefusalOf(h, input).Some? then (if s == c.socket then [Error(RefusalOf(h, input).value)] else [])
    else
      var bound := h.clients[c.clientId].burrowId;
      if s == h.burrows[input.burrowId].socket then
        if input.Init? then [ForwardInit(c.clientId, input.burrowId, input.payload)]
        else if bound == Some(input.burrowId) then [ForwardTransport(c.clientId, input.burrowId, input.payload)]
        else []
      else if input.Init? && bound.Some? && bound.value in h.burrows && s == h.burrows[bound.value].socket then
        [ClientGone(c.clientId)]
      else []
  }

  // The sweep, over the Clients in the order a snapshot of the map lists them.
  function CloseExpired(h: Hub, ids: seq<ClientId>, now: int): Hub
    decreases |ids|
  {
    if ids == [] then h
    else
      var h1 := CloseExpired(h, ids[..|ids| - 1], now);
      var id := ids[|ids| - 1];
      if id !in h1.clients || now < h1.clients[id].conn.expiresAt then h1
      else
        var c := h1.clients[id].conn;
        var h2 := UnregisterClient(h1, c);
        h2.(sent := Send(h2.sent, c.socket, Close(WS_CLOSE_UNAUTHORIZED)))
  }

  datatype Event =
    | EvRegisterBurrow(b: BurrowConn)
    | EvBurrowFrame(b: BurrowConn, burrowInput: BurrowInput)
    | EvUnregisterBurrow(b: BurrowConn)
    | EvCloseBurrow(burrowId: BurrowId)
    | EvRegisterClient(c: ClientConn)
    | EvClientFrame(c: ClientConn, clientInput: ClientInput)
    | EvUnregisterClient(c: ClientConn)
    | EvCloseExpired(now: int)

  // Sockets are new, and clientIds are random enough not to meet a live one.
  predicate Allowed(h: Hub, e: Event) {
    match e
    case EvRegisterBurrow(b) => b.socket !in h.sent
    case EvRegisterClient(c) => c.socket !in h.sent && c.clientId !in h.clients
    case _ => true
  }

  ghost function Step(h: Hub, e: Event): Hub {
    match e
    case EvRegisterBurrow(b) => RegisterBurrow(h, b)
    case EvBurrowFrame(b, input) => OnBurrowFrame(h, b, input)
    case EvUnregisterBurrow(b) => UnregisterBurrow(h, b)
    case EvCloseBurrow(id) => CloseBurrow(h, id)
    case EvRegisterClient(c) => RegisterClient(h, c)
    case EvClientFrame(c, input) => OnClientFrame(h, c, input)
    case EvUnregisterClient(c) => UnregisterClient(h, c)
    case EvCloseExpired(now) => CloseExpired(h, h.order, now)
  }

  const EMPTY: Hub := Hub(map[], map[], [], map[], map[], map[])

  ghost predicate Run(hubs: seq<Hub>, events: seq<Event>) {
    && |hubs| == |events| + 1
    && hubs[0] == EMPTY
    && forall i :: 0 <= i < |events| ==> Allowed(hubs[i], events[i]) && hubs[i + 1] == Step(hubs[i], events[i])
  }

  // ----- What one Burrow socket is told about one Client --------------------

  datatype Talk = Idle | Open | Broken

  // (init, any e2e frames, client-gone) repeated: an automaton over the frames
  // about `c`. `Broken` is a frame no such trace allows.
  function Advance(t: Talk, c: ClientId, out: Out): Talk {
    match out
    case ForwardInit(d, _, _) => if d != c || t.Broken? then t else Open
    case ForwardTransport(d, _, _) => if d != c || t.Open? then t else Broken
    case ClientGone(d) => if d != c || t.Broken? then t else if t.Open? then Idle else Broken
    case _ => t
  }

  function Scan(log: seq<Out>, c: ClientId): Talk {
    if log == [] then Idle
    else Advance(Scan(log[..|log| - 1], c), c, log[|log| - 1])
  }

  lemma ScanAppend(log: seq<Out>, out: Out, c: ClientId)
    ensures Scan(log + [out], c) == Advance(Scan(log, c), c, out)
  {
    assert (log + [out])[..|log|] == log;
  }

  predicate Closeless(log: seq<Out>) {
    forall k :: 0 <= k < |log| ==> !log[k].Close?
  }

  // ----- Invariant -----------------------------------------------------------

  predicate IsBurrowSocket(h: Hub, s: Socket) {
    && s in h.role && h.role[s].AsBurrow?
    && h.role[s].burrowId in h.burrows && h.burrows[h.role[s].burrowId].socket == s
  }

  ghost predicate Wellformed(h: Hub) {
    && h.role.Keys == h.sent.Keys
    && (forall id :: id in h.burrows ==>
          var b := h.burrows[id]; b.burrowId == id && b.socket in h.role && h.role[b.socket] == AsBurrow(id))
    && (forall c :: c in h.clients ==>
          var k := h.clients[c].conn; k.clientId == c && k.socket in h.role && h.role[k.socket] == AsClient(c))
  }

  // The Client map iterates over its keys.
  ghost predicate OrderOk(h: Hub) {
    forall c :: c in h.order <==> c in h.clients
  }

  // A bound Client's Burrow is connected, and by the connection its init went to.
  ghost predicate BindingsOk(h: Hub) {
    forall c :: c in h.clients && h.clients[c].burrowId.Some? ==>
      && h.clients[c].burrowId.value in h.burrows
      && c in h.lastInit && h.lastInit[c] == h.burrows[h.clients[c].burrowId.value].socket
  }

  // A current Burrow connection has an open conversation about exactly the
  // Clients bound to it; a retired socket has been handed nothing since.
  ghost predicate SocketOk(h: Hub, s: Socket)
    requires s in h.sent && s in h.role
  {
    && (forall k :: 0 <= k < |h.sent[s]| - 1 ==> !h.sent[s][k].Close?)
    && (IsBurrowSocket(h, s) || IsClientSocket(h, s) ==> Closeless(h.sent[s]))
    && (forall c :: Scan(h.sent[s], c) != Broken)
    && (h.role[s].AsClient? ==> forall c :: Scan(h.sent[s], c) == Idle)
    && (IsBurrowSocket(h, s) ==>
          forall c :: Scan(h.sent[s], c) == if BoundTo(h, c, h.role[s].burrowId) then Open else Idle)
  }

  ghost predicate Inv(h: Hub) {
    && Wellformed(h)
    && BindingsOk(h)
    && (forall s :: s in h.sent ==> SocketOk(h, s))
  }

  lemma ScanAppendAll(log: seq<Out>, out: Out)
    ensures forall c :: Scan(log + [out], c) == Advance(Scan(log, c), c, out)
  {
    forall c
      ensures Scan(log + [out], c) == Advance(Scan(log, c), c, out)
    {
      ScanAppend(log, out, c);
    }
  }

  // A socket that was handed nothing, and whose conversations are as they were.
  lemma Untouched(h: Hub, h': Hub, s: Socket)
    requires s in h.sent && s in h.role && SocketOk(h, s)
    requires s in h'.sent && s in h'.role && h'.sent[s] == h.sent[s] && h'.role[s] == h.role[s]
    requires IsBurrowSocket(h', s) || IsClientSocket(h', s) ==> IsBurrowSocket(h, s) || IsClientSocket(h, s)
    requires IsBurrowSocket(h', s) ==> IsBurrowSocket(h, s)
    requires IsBurrowSocket(h', s) ==> forall c :: BoundTo(h', c, h.role[s].burrowId) == BoundTo(h, c, h.role[s].burrowId)
    ensures SocketOk(h', s)
  {
  }

  // A Client's socket that was handed one frame.
  lemma ClientTold(h: Hub, h': Hub, s: Socket, out: Out)
    requires s in h.sent && s in h.role && SocketOk(h, s) && IsClientSocket(h, s)
    requires s in h'.sent && s in h'.role && h'.sent[s] == h.sent[s] + [out] && h'.role[s] == h.role[s]
    requires out.Error? || out.Deliver? || out.BurrowGone? || (out.Close? && !IsClientSocket(h', s))
    ensures SocketOk(h', s)
  {
    ScanAppendAll(h.sent[s], out);
  }

  // A Burrow's socket that was handed one frame about `c`.
  lemma BurrowTold(h: Hub, h': Hub, s: Socket, c: ClientId, out: Out)
    requires s in h.sent && s in h.role && SocketOk(h, s) && IsBurrowSocket(h, s) && IsBurrowSocket(h', s)
    requires s in h'.sent && s in h'.role && h'.sent[s] == h.sent[s] + [out] && h'.role[s] == h.role[s]
    requires var id := h.role[s].burrowId;
      && (forall d :: d != c ==> BoundTo(h', d, id) == BoundTo(h, d, id))
      && match out
         case ForwardInit(d, _, _) => d == c && BoundTo(h', c, id)
         case ForwardTransport(d, _, _) => d == c && BoundTo(h, c, id) && BoundTo(h', c, id)
         case ClientGone(d) => d == c && BoundTo(h, c, id) && !BoundTo(h', c, id)
         case _ => false
    ensures SocketOk(h', s)
  {
    ScanAppendAll(h.sent[s], out);
  }

  // A Burrow's socket that was closed as it was retired.
  lemma BurrowRetired(h: Hub, h': Hub, s: Socket, code: nat)
    requires s in h.sent && s in h.role && SocketOk(h, s) && IsBurrowSocket(h, s) && !IsBurrowSocket(h', s)
    requires s in h'.sent && s in h'.role && h'.sent[s] == h.sent[s] + [Close(code)] && h'.role[s] == h.role[s]
    ensures SocketOk(h', s)
  {
    ScanAppendAll(h.sent[s], Close(code));
  }

  // Telling a Client something changes no conversation with any Burrow.
  lemma ToClientKeepsInv(h: Hub, c: ClientConn, out: Out)
    requires Inv(h) && CurrentClient(h, c) && (out.Error? || out.Deliver? || out.BurrowGone?)
    ensures Inv(ToClient(h, c, out))
  {
    var h' := ToClient(h, c, out);
    forall s | s in h'.sent
      ensures SocketOk(h', s)
    {
      hide SocketOk;
      if s == c.socket {
        ClientTold(h, h', s, out);
      } else {
        Untouched(h, h', s);
      }
    }
    hide SocketOk;
  }

  lemma BurrowFrameKeepsInv(h: Hub, b: BurrowConn, input: BurrowInput)
    requires Inv(h)
    ensures Inv(OnBurrowFrame(h, b, input))
  {
    if CurrentBurrow(h, b) && input.Reply? && BoundTo(h, input.clientId, b.burrowId) {
      ToClientKeepsInv(h, h.clients[input.clientId].conn, Deliver(b.burrowId, input.step, input.payload));
    }
  }

  lemma RegisterClientSockets(h: Hub, c: ClientConn, s: Socket)
    requires Wellformed(h) && c.socket !in h.sent && c.clientId !in h.clients
    requires s in h.sent ==> SocketOk(h, s)
    ensures var h' := RegisterClient(h, c); s in h'.sent ==> s in h'.role && SocketOk(h', s)
  {
    var h' := RegisterClient(h, c);
    if s in h.sent {
      hide SocketOk;
      Untouched(h, h', s);
    }
  }

  lemma RegisterClientShape(h: Hub, c: ClientConn)
    requires Wellformed(h) && BindingsOk(h) && c.socket !in h.sent && c.clientId !in h.clients
    ensures var h' := RegisterClient(h, c); Wellformed(h') && BindingsOk(h')
  {
    var h' := RegisterClient(h, c);
    assert Wellformed(h');
    hide Wellformed;
  }

  lemma RegisterClientKeepsInv(h: Hub, c: ClientConn)
    requires Inv(h) && c.socket !in h.sent && c.clientId !in h.clients
    ensures Inv(RegisterClient(h, c))
  {
    RegisterClientShape(h, c);
    hide Wellformed, BindingsOk, SocketOk, RegisterClient;
    var h' := RegisterClient(h, c);
    forall s | s in h'.sent
      ensures s in h'.role && SocketOk(h', s)
    {
      RegisterClientSockets(h, c, s);
    }
  }

  lemma DropClientsKeepsSockets(h: Hub, burrowId: BurrowId, s: Socket)
    requires Wellformed(h) && s in h.sent && SocketOk(h, s)
    requires !IsBurrowSocket(h, s) || h.role[s].burrowId != burrowId
    ensures SocketOk(DropClientsOf(h, burrowId), s)
  {
    var h' := DropClientsOf(h, burrowId);
    hide SocketOk;
    if IsBoundSocket(h, s, burrowId) {
      ClientTold(h, h', s, BurrowGone);
    } else {
      Untouched(h, h', s);
    }
  }

  lemma UnregisterBurrowSockets(h: Hub, b: BurrowConn, s: Socket)
    requires Wellformed(h) && CurrentBurrow(h, b) && s in h.sent && SocketOk(h, s)
    ensures var h' := UnregisterBurrow(h, b); s in h'.sent && s in h'.role && SocketOk(h', s)
  {
    hide SocketOk;
    var h1 := h.(burrows := h.burrows - {b.burrowId});
    Untouched(h, h1, s);
    DropClientsKeepsSockets(h1, b.burrowId, s);
  }

  lemma DropClientsShape(h: Hub, burrowId: BurrowId)
    requires Wellformed(h)
    requires forall c :: c in h.clients && h.clients[c].burrowId.Some? && h.clients[c].burrowId != Some(burrowId) ==>
      && h.clients[c].burrowId.value in h.burrows
      && c in h.lastInit && h.lastInit[c] == h.burrows[h.clients[c].burrowId.value].socket
    ensures var h' := DropClientsOf(h, burrowId); Wellformed(h') && BindingsOk(h')
  {
    DropClientsWellformed(h, burrowId);
    hide Wellformed;
  }

  lemma DropClientsWellformed(h: Hub, burrowId: BurrowId)
    requires Wellformed(h)
    ensures Wellformed(DropClientsOf(h, burrowId))
  {
  }

  lemma UnregisterBurrowShape(h: Hub, b: BurrowConn)
    requires Wellformed(h) && BindingsOk(h)
    ensures var h' := UnregisterBurrow(h, b); Wellformed(h') && BindingsOk(h')
  {
    if CurrentBurrow(h, b) {
      var h1 := h.(burrows := h.burrows - {b.burrowId});
      assert Wellformed(h1);
      DropClientsShape(h1, b.burrowId);
      hide DropClientsOf;
    }
  }

  lemma UnregisterBurrowKeepsInv(h: Hub, b: BurrowConn)
    requires Inv(h)
    ensures Inv(UnregisterBurrow(h, b))
  {
    UnregisterBurrowShape(h, b);
    hide Wellformed, BindingsOk, SocketOk, DropClientsOf;
    var h' := UnregisterBurrow(h, b);
    if CurrentBurrow(h, b) {
      forall s | s in h'.sent
        ensures s in h'.role && SocketOk(h', s)
      {
        DropClientsSockets(h, b.burrowId);
        UnregisterBurrowSockets(h, b, s);
      }
    }
  }

  lemma DropClientsSockets(h: Hub, burrowId: BurrowId)
    ensures var h' := DropClientsOf(h, burrowId);
      h'.sent.Keys == h.sent.Keys && h'.role == h.role && h'.burrows == h.burrows && h'.clients.Keys == h.clients.Keys
  {
  }

  // Closing the socket of a Burrow connection that has just been taken off the map.
  lemma RetireKeepsInv(h: Hub, h1: Hub, b: BurrowConn, code: nat)
    requires Inv(h) && Inv(h1)
    requires CurrentBurrow(h, b) && !IsBurrowSocket(h1, b.socket)
    requires b.socket in h1.sent && h1.sent[b.socket] == h.sent[b.socket] && h1.role[b.socket] == h.role[b.socket]
    ensures Inv(h1.(sent := Send(h1.sent, b.socket, Close(code))))
  {
    var h2 := h1.(sent := Send(h1.sent, b.socket, Close(code)));
    hide SocketOk;
    assert Wellformed(h2) && BindingsOk(h2);
    assert IsBurrowSocket(h, b.socket);
    hide Wellformed, BindingsOk;
    forall s | s in h2.sent
      ensures s in h2.role && SocketOk(h2, s)
    {
      if s == b.socket {
        BurrowRetired(h, h2, s, code);
      } else {
        Untouched(h1, h2, s);
      }
    }
  }

  lemma UnregisterBurrowFacts(h: Hub, b: BurrowConn)
    requires Wellformed(h) && CurrentBurrow(h, b)
    ensures var h1 := UnregisterBurrow(h, b);
      && !IsBurrowSocket(h1, b.socket)
      && b.socket in h1.sent && h1.sent[b.socket] == h.sent[b.socket]
      && b.socket in h1.role && h1.role[b.socket] == h.role[b.socket]
  {
  }

  lemma CloseBurrowKeepsInv(h: Hub, burrowId: BurrowId)
    requires Inv(h)
    ensures Inv(CloseBurrow(h, burrowId))
  {
    if burrowId in h.burrows {
      var b := h.burrows[burrowId];
      assert CurrentBurrow(h, b);
      UnregisterBurrowKeepsInv(h, b);
      UnregisterBurrowFacts(h, b);
      hide Inv, UnregisterBurrow;
      RetireKeepsInv(h, UnregisterBurrow(h, b), b, WS_CLOSE_BURROW_REVOKED);
    }
  }

  // A replacement is a disconnect of the old connection, a registration of the
  // new one, and the close of the old socket.
  lemma RegisterBurrowKeepsInv(h: Hub, b: BurrowConn)
    requires Inv(h) && b.socket !in h.sent
    ensures Inv(RegisterBurrow(h, b))
  {
    if b.burrowId in h.burrows {
      var was := h.burrows[b.burrowId];
      assert CurrentBurrow(h, was);
      UnregisterBurrowKeepsInv(h, was);
      UnregisterBurrowFacts(h, was);
      var h1 := UnregisterBurrow(h, was);
      assert b.burrowId !in h1.burrows && b.socket !in h1.sent;
      ReplacementIs(h, b);
      hide UnregisterBurrow;
      FirstRegistrationKeepsInv(h1, b);
      hide Inv;
      RetireKeepsInv(h, RegisterBurrow(h1, b), was, WS_CLOSE_BURROW_REPLACED);
    } else {
      FirstRegistrationKeepsInv(h, b);
    }
  }

  lemma ReplacementIs(h: Hub, b: BurrowConn)
    requires Wellformed(h) && b.burrowId in h.burrows && b.socket !in h.sent
    ensures var was := h.burrows[b.burrowId];
      var h1 := RegisterBurrow(UnregisterBurrow(h, was), b);
      RegisterBurrow(h, b) == h1.(sent := Send(h1.sent, was.socket, Close(WS_CLOSE_BURROW_REPLACED)))
  {
    var was := h.burrows[b.burrowId];
    var h1 := RegisterBurrow(UnregisterBurrow(h, was), b);
    var h2 := RegisterBurrow(h, b);
    assert b.socket !in h.role && !IsBoundSocket(h, was.socket, b.burrowId);
    assert h2.burrows == h1.burrows;
    assert h2.role == h1.role;
    assert h2.clients == h1.clients;
    assert h2.sent == Send(h1.sent, was.socket, Close(WS_CLOSE_BURROW_REPLACED));
  }

  lemma FirstRegistrationShape(h: Hub, b: BurrowConn)
    requires Wellformed(h) && BindingsOk(h) && b.socket !in h.sent && b.burrowId !in h.burrows
    ensures var h' := RegisterBurrow(h, b); Wellformed(h') && BindingsOk(h')
  {
    hide DropClientsOf;
  }

  lemma FirstRegistrationSockets(h: Hub, b: BurrowConn, s: Socket)
    requires Wellformed(h) && BindingsOk(h) && b.socket !in h.sent && b.burrowId !in h.burrows
    requires s in h.sent ==> SocketOk(h, s)
    ensures var h' := RegisterBurrow(h, b); s in h'.sent ==> s in h'.role && SocketOk(h', s)
  {
    hide DropClientsOf;
    var h' := RegisterBurrow(h, b);
    if s in h.sent {
      hide SocketOk;
      Untouched(h, h', s);
    }
  }

  lemma FirstRegistrationKeepsInv(h: Hub, b: BurrowConn)
    requires Inv(h) && b.socket !in h.sent && b.burrowId !in h.burrows
    ensures Inv(RegisterBurrow(h, b))
  {
    FirstRegistrationShape(h, b);
    hide Wellformed, BindingsOk, SocketOk, RegisterBurrow;
    var h' := RegisterBurrow(h, b);
    forall s | s in h'.sent
      ensures s in h'.role && SocketOk(h', s)
    {
      FirstRegistrationSockets(h, b, s);
    }
  }

  lemma UnregisterClientShape(h: Hub, c: ClientConn)
    requires Wellformed(h) && BindingsOk(h)
    ensures var h' := UnregisterClient(h, c);
      && Wellformed(h') && BindingsOk(h')
      && h'.role == h.role && h'.sent.Keys == h.sent.Keys && h'.burrows == h.burrows
      && (CurrentClient(h, c) ==> !IsClientSocket(h', c.socket) && h'.sent[c.socket] == h.sent[c.socket])
  {
  }

  lemma UnregisterClientSockets(h: Hub, c: ClientConn, s: Socket)
    requires Wellformed(h) && BindingsOk(h) && s in h.sent && SocketOk(h, s)
    ensures var h' := UnregisterClient(h, c); s in h'.sent && s in h'.role && SocketOk(h', s)
  {
    hide SocketOk;
    var h' := UnregisterClient(h, c);
    if CurrentClient(h, c) {
      var b := h.clients[c.clientId].burrowId;
      if b.Some? && s == h.burrows[b.value].socket {
        BurrowTold(h, h', s, c.clientId, ClientGone(c.clientId));
      } else {
        Untouched(h, h', s);
      }
    }
  }

  lemma UnregisterClientKeepsInv(h: Hub, c: ClientConn)
    requires Inv(h)
    ensures Inv(UnregisterClient(h, c))
  {
    UnregisterClientShape(h, c);
    hide Wellformed, BindingsOk, SocketOk, UnregisterClient;
    var h' := UnregisterClient(h, c);
    forall s | s in h'.sent
      ensures s in h'.role && SocketOk(h', s)
    {
      UnregisterClientSockets(h, c, s);
    }
  }

  lemma RetireClientKeepsInv(h: Hub, h1: Hub, c: ClientConn, code: nat)
    requires Inv(h) && Inv(h1)
    requires CurrentClient(h, c) && !IsClientSocket(h1, c.socket)
    requires c.socket in h1.sent && h1.sent[c.socket] == h.sent[c.socket] && h1.role[c.socket] == h.role[c.socket]
    ensures Inv(h1.(sent := Send(h1.sent, c.socket, Close(code))))
  {
    var h2 := h1.(sent := Send(h1.sent, c.socket, Close(code)));
    hide SocketOk;
    assert Wellformed(h2) && BindingsOk(h2);
    assert IsClientSocket(h, c.socket);
    hide Wellformed, BindingsOk;
    forall s | s in h2.sent
      ensures s in h2.role && SocketOk(h2, s)
    {
      if s == c.socket {
        ClientTold(h, h2, s, Close(code));
      } else {
        Untouched(h1, h2, s);
      }
    }
  }

  lemma {:induction false} CloseExpiredKeepsInv(h: Hub, ids: seq<ClientId>, now: int)
    requires Inv(h)
    ensures Inv(CloseExpired(h, ids, now))
    decreases |ids|
  {
    if ids != [] {
      var h1 := CloseExpired(h, ids[..|ids| - 1], now);
      CloseExpiredKeepsInv(h, ids[..|ids| - 1], now);
      var id := ids[|ids| - 1];
      if id in h1.clients && now >= h1.clients[id].conn.expiresAt {
        var c := h1.clients[id].conn;
        assert CurrentClient(h1, c) && c.socket in h1.role && c.socket in h1.sent;
        UnregisterClientKeepsInv(h1, c);
        UnregisterClientShape(h1, c);
        hide Inv, UnregisterClient;
        RetireClientKeepsInv(h1, UnregisterClient(h1, c), c, WS_CLOSE_UNAUTHORIZED);
      }
    }
  }

  lemma BindShape(h: Hub, c: ClientConn, burrowId: BurrowId, payload: Payload)
    requires Wellformed(h) && BindingsOk(h) && CurrentClient(h, c) && burrowId in h.burrows
    ensures var h' := OnClientFrame(h, c, Init(burrowId, payload));
      Wellformed(h') && BindingsOk(h') && h'.sent.Keys == h.sent.Keys && h'.role == h.role
  {
    var h' := OnClientFrame(h, c, Init(burrowId, payload));
    assert h'.sent.Keys == h.sent.Keys && h'.role == h.role;
    assert Wellformed(h');
    hide Wellformed;
  }

  lemma BindSockets(h: Hub, c: ClientConn, burrowId: BurrowId, payload: Payload, s: Socket)
    requires Wellformed(h) && BindingsOk(h) && CurrentClient(h, c) && burrowId in h.burrows
    requires s in h.sent && SocketOk(h, s)
    ensures var h' := OnClientFrame(h, c, Init(burrowId, payload));
      s in h'.sent && s in h'.role && SocketOk(h', s)
  {
    hide SocketOk;
    var h' := OnClientFrame(h, c, Init(burrowId, payload));
    var previous := h.clients[c.clientId].burrowId;
    if s == h.burrows[burrowId].socket {
      BurrowTold(h, h', s, c.clientId, ForwardInit(c.clientId, burrowId, payload));
    } else if previous.Some? && s == h.burrows[previous.value].socket {
      BurrowTold(h, h', s, c.clientId, ClientGone(c.clientId));
    } else {
      Untouched(h, h', s);
    }
  }

  lemma TransportKeepsInv(h: Hub, c: ClientConn, burrowId: BurrowId, payload: Payload)
    requires Inv(h) && CurrentClient(h, c) && BoundTo(h, c.clientId, burrowId)
    ensures Inv(OnClientFrame(h, c, Transport(burrowId, payload)))
  {
    var h' := OnClientFrame(h, c, Transport(burrowId, payload));
    hide SocketOk;
    assert Wellformed(h') && BindingsOk(h') && IsBurrowSocket(h, h.burrows[burrowId].socket);
    hide Wellformed;
    forall s | s in h'.sent
      ensures s in h'.role && SocketOk(h', s)
    {
      if s == h.burrows[burrowId].socket {
        BurrowTold(h, h', s, c.clientId, ForwardTransport(c.clientId, burrowId, payload));
      } else {
        Untouched(h, h', s);
      }
    }
  }

  lemma ClientFrameKeepsInv(h: Hub, c: ClientConn, input: ClientInput)
    requires Inv(h)
    ensures Inv(OnClientFrame(h, c, input))
  {
    if CurrentClient(h, c) {
      if (input.Init? || input.Transport?) && input.burrowId in h.burrows {
        if input.Init? {
          BindShape(h, c, input.burrowId, input.payload);
          hide Wellformed, BindingsOk, SocketOk, OnClientFrame;
          forall s | s in h.sent
            ensures SocketOk(OnClientFrame(h, c, input), s)
          {
            BindSockets(h, c, input.burrowId, input.payload, s);
          }
        } else if BoundTo(h, c.clientId, input.burrowId) {
          hide Inv;
          TransportKeepsInv(h, c, input.burrowId, input.payload);
        }
      } else {
        hide Inv;
        var offline := if input.Init? || input.Transport? then Error(BurrowOffline(input.burrowId)) else BurrowGone;
        ToClientKeepsInv(h, c, offline);
        ToClientKeepsInv(h, c, Error(MalformedFrame));
        ToClientKeepsInv(h, c, Error(UnknownFrameType));
        ToClientKeepsInv(h, c, Error(MalformedE2eFrame));
      }
    }
  }

  lemma StepKeepsInv(h: Hub, e: Event)
    requires Inv(h) && Allowed(h, e)
    ensures Inv(Step(h, e))
  {
    hide Inv;
    match e
    case EvRegisterBurrow(b) => RegisterBurrowKeepsInv(h, b);
    case EvBurrowFrame(b, input) => BurrowFrameKeepsInv(h, b, input);
    case EvUnregisterBurrow(b) => UnregisterBurrowKeepsInv(h, b);
    case EvCloseBurrow(id) => CloseBurrowKeepsInv(h, id);
    case EvRegisterClient(c) => RegisterClientKeepsInv(h, c);
    case EvClientFrame(c, input) => ClientFrameKeepsInv(h, c, input);
    case EvUnregisterClient(c) => UnregisterClientKeepsInv(h, c);
    case EvCloseExpired(now) => CloseExpiredKeepsInv(h, h.order, now);
  }

  // ----- Every run ------------------------------------------------------------

  lemma {:induction false} RunKeepsInv(hubs: seq<Hub>, events: seq<Event>, i: nat)
    requires Run(hubs, events) && i < |hubs|
    ensures Inv(hubs[i])
  {
    if i > 0 {
      hide Inv;
      RunKeepsInv(hubs, events, i - 1);
      StepKeepsInv(hubs[i - 1], events[i - 1]);
    }
  }

  predicate About(out: Out, c: ClientId) {
    match out
    case ForwardInit(d, _, _) => d == c
    case ForwardTransport(d, _, _) => d == c
    case ClientGone(d) => d == c
    case _ => false
  }

  // The position of the last frame about `c`, or -1.
  function LastAbout(log: seq<Out>, c: ClientId): (r: int)
    ensures -1 <= r < |log|
    ensures r >= 0 ==> About(log[r], c)
    ensures forall m :: r < m < |log| ==> !About(log[m], c)
  {
    if log == [] then -1
    else if About(log[|log| - 1], c) then |log| - 1
    else LastAbout(log[..|log| - 1], c)
  }

  // A transport frame or a client-gone continues a conversation: there is an
  // earlier frame about `c`, and the last such frame is not a client-gone.
  predicate Continues(log: seq<Out>, c: ClientId, k: nat)
    requires k < |log|
  {
    About(log[k], c) && !log[k].ForwardInit? ==>
      var j := LastAbout(log[..k], c); j >= 0 && !log[j].ClientGone?
  }

  ghost predicate Conversations(log: seq<Out>, c: ClientId) {
    forall k :: 0 <= k < |log| ==> Continues(log, c, k)
  }

  lemma ConversationsSplit(log: seq<Out>, c: ClientId)
    requires log != []
    ensures var n := |log| - 1;
      Conversations(log, c) <==> Conversations(log[..n], c) && Continues(log, c, n)
  {
    var n := |log| - 1;
    var front := log[..n];
    forall k | 0 <= k < n
      ensures Continues(front, c, k) == Continues(log, c, k)
    {
      assert log[..k] == front[..k];
    }
    hide Continues;
  }

  // The automaton accepts exactly these traces.
  lemma {:induction false} ScanMeaning(log: seq<Out>, c: ClientId)
    ensures Scan(log, c) != Broken <==> Conversations(log, c)
    ensures Scan(log, c) != Broken ==>
      (Scan(log, c) == Open <==> LastAbout(log, c) >= 0 && !log[LastAbout(log, c)].ClientGone?)
    decreases |log|
  {
    if log != [] {
      ScanMeaning(log[..|log| - 1], c);
      ConversationsSplit(log, c);
      hide Conversations;
    }
  }

  // In every run, what a Burrow connection has been told about one Client is a
  // sequence of conversations: an init, any e2e frames, then client-gone.
  lemma BurrowHearsConversations(hubs: seq<Hub>, events: seq<Event>, i: nat, s: Socket, c: ClientId)
    requires Run(hubs, events) && i < |hubs| && s in hubs[i].sent
    ensures Conversations(hubs[i].sent[s], c)
  {
    RunKeepsInv(hubs, events, i);
    assert SocketOk(hubs[i], s);
    ScanMeaning(hubs[i].sent[s], c);
  }

  predicate IsLive(h: Hub, s: Socket) {
    IsBurrowSocket(h, s) || IsClientSocket(h, s)
  }

  // A step hands frames only to live sockets, revives none, and delivers none of
  // a Burrow's frames to a Client.
  ghost predicate Quiet(h: Hub, h': Hub, s: Socket)
    requires s in h.sent
  {
    && s in h'.sent && h.sent[s] <= h'.sent[s]
    && s in h.role && s in h'.role && h'.role[s] == h.role[s]
    && (h'.sent[s] != h.sent[s] ==> IsLive(h, s))
    && (IsLive(h', s) ==> IsLive(h, s))
    && (forall k :: |h.sent[s]| <= k < |h'.sent[s]| ==> !h'.sent[s][k].Deliver?)
  }

  lemma QuietTrans(h1: Hub, h2: Hub, h3: Hub, s: Socket)
    requires s in h1.sent && Quiet(h1, h2, s) && Quiet(h2, h3, s)
    ensures Quiet(h1, h3, s)
  {
  }

  lemma UnregisterClientIsQuiet(h: Hub, c: ClientConn, s: Socket)
    requires Wellformed(h) && s in h.sent
    ensures Quiet(h, UnregisterClient(h, c), s)
    ensures CurrentClient(h, c) && s == c.socket ==> IsLive(h, s)
  {
  }

  lemma CloseClientIsQuiet(h: Hub, c: ClientConn, s: Socket)
    requires Inv(h) && CurrentClient(h, c) && s in h.sent
    ensures var h1 := UnregisterClient(h, c);
      Quiet(h, h1.(sent := Send(h1.sent, c.socket, Close(WS_CLOSE_UNAUTHORIZED))), s)
  {
    UnregisterClientIsQuiet(h, c, s);
    UnregisterClientShape(h, c);
    hide Inv, UnregisterClient;
  }

  lemma {:induction false} CloseExpiredIsQuiet(h: Hub, ids: seq<ClientId>, now: int, s: Socket)
    requires Inv(h) && s in h.sent
    ensures Quiet(h, CloseExpired(h, ids, now), s)
    decreases |ids|
  {
    if ids != [] {
      var h1 := CloseExpired(h, ids[..|ids| - 1], now);
      CloseExpiredIsQuiet(h, ids[..|ids| - 1], now, s);
      CloseExpiredKeepsInv(h, ids[..|ids| - 1], now);
      var id := ids[|ids| - 1];
      if id in h1.clients && now >= h1.clients[id].conn.expiresAt {
        hide BindingsOk, SocketOk, UnregisterClient;
        assert CurrentClient(h1, h1.clients[id].conn);
        hide Quiet, Inv;
        CloseClientIsQuiet(h1, h1.clients[id].conn, s);
        QuietTrans(h, h1, CloseExpired(h, ids, now), s);
      }
    }
  }

  lemma UnregisterBurrowIsQuiet(h: Hub, b: BurrowConn, s: Socket)
    requires Wellformed(h) && s in h.sent
    ensures Quiet(h, UnregisterBurrow(h, b), s)
  {
  }

  lemma CloseBurrowIsQuiet(h: Hub, burrowId: BurrowId, s: Socket)
    requires Wellformed(h) && s in h.sent
    ensures Quiet(h, CloseBurrow(h, burrowId), s)
  {
    if burrowId in h.burrows {
      var b := h.burrows[burrowId];
      UnregisterBurrowIsQuiet(h, b, s);
      UnregisterBurrowFacts(h, b);
      hide UnregisterBurrow;
    }
  }

  lemma RegisterBurrowIsQuiet(h: Hub, b: BurrowConn, s: Socket)
    requires Wellformed(h) && b.socket !in h.sent && s in h.sent
    ensures Quiet(h, RegisterBurrow(h, b), s)
  {
  }

  lemma ErrorIsQuiet(h: Hub, c: ClientConn, refusal: Refusal, s: Socket)
    requires Wellformed(h) && CurrentClient(h, c) && s in h.sent
    ensures Quiet(h, ToClient(h, c, Error(refusal)), s)
  {
  }

  lemma ClientFrameIsQuiet(h: Hub, c: ClientConn, input: ClientInput, s: Socket)
    requires Wellformed(h) && BindingsOk(h) && s in h.sent
    ensures Quiet(h, OnClientFrame(h, c, input), s)
  {
    if CurrentClient(h, c) && !((input.Init? || input.Transport?) && input.burrowId in h.burrows) {
      hide Wellformed, BindingsOk, Quiet, ToClient;
      if input.Init? || input.Transport? {
        ErrorIsQuiet(h, c, BurrowOffline(input.burrowId), s);
      }
      ErrorIsQuiet(h, c, MalformedFrame, s);
      ErrorIsQuiet(h, c, UnknownFrameType, s);
      ErrorIsQuiet(h, c, MalformedE2eFrame, s);
    } else if CurrentClient(h, c) && input.Init? {
      InitIsQuiet(h, c, input.burrowId, input.payload, s);
      hide *;
    }
  }

  lemma InitIsQuiet(h: Hub, c: ClientConn, burrowId: BurrowId, payload: Payload, s: Socket)
    requires Wellformed(h) && BindingsOk(h) && CurrentClient(h, c) && burrowId in h.burrows && s in h.sent
    ensures Quiet(h, OnClientFrame(h, c, Init(burrowId, payload)), s)
  {
    hide ToClient;
    var h' := OnClientFrame(h, c, Init(burrowId, payload));
    assert h'.role == h.role && h'.burrows == h.burrows;
  }

  lemma StepIsQuiet(h: Hub, e: Event, s: Socket)
    requires Inv(h) && Allowed(h, e) && s in h.sent && !e.EvBurrowFrame?
    ensures Quiet(h, Step(h, e), s)
  {
    match e
    case EvRegisterBurrow(b) => hide Quiet; RegisterBurrowIsQuiet(h, b, s);
    case EvUnregisterBurrow(b) => hide Quiet; UnregisterBurrowIsQuiet(h, b, s);
    case EvCloseBurrow(id) => hide Quiet; CloseBurrowIsQuiet(h, id, s);
    case EvRegisterClient(_) => hide BindingsOk, SocketOk;
    case EvClientFrame(c, input) => hide Quiet; ClientFrameIsQuiet(h, c, input, s);
    case EvUnregisterClient(c) => hide Quiet; UnregisterClientIsQuiet(h, c, s);
    case EvCloseExpired(now) => hide Quiet, Inv; CloseExpiredIsQuiet(h, h.order, now, s);
  }

  lemma RetiredStep(h: Hub, e: Event, s: Socket)
    requires Inv(h) && Allowed(h, e) && s in h.sent && !IsLive(h, s)
    ensures s in Step(h, e).sent && Step(h, e).sent[s] == h.sent[s] && !IsLive(Step(h, e), s)
  {
    if !e.EvBurrowFrame? {
      StepIsQuiet(h, e, s);
      hide Inv, Step;
    } else {
      hide BindingsOk, SocketOk;
    }
  }

  // A connection that has been replaced, closed or unregistered is handed nothing
  // more for the rest of the run.
  lemma {:induction false} RetiredSocketIsSilent(hubs: seq<Hub>, events: seq<Event>, i: nat, j: nat, s: Socket)
    requires Run(hubs, events) && i <= j < |hubs|
    requires s in hubs[i].sent && !IsLive(hubs[i], s)
    ensures s in hubs[j].sent && hubs[j].sent[s] == hubs[i].sent[s] && !IsLive(hubs[j], s)
    decreases j
  {
    hide Inv, Step, IsLive, Allowed;
    if i < j {
      RetiredSocketIsSilent(hubs, events, i, j - 1, s);
      RunKeepsInv(hubs, events, j - 1);
      RetiredStep(hubs[j - 1], events[j - 1], s);
    }
  }

  // A Client is handed a Burrow's frame only when that very connection, still
  // current, is the one its latest init went to.
  lemma DeliveriesComeFromTheInitConnection(hubs: seq<Hub>, events: seq<Event>, i: nat, s: Socket, k: nat)
    requires Run(hubs, events) && i < |events|
    requires s in hubs[i].sent && s in hubs[i + 1].sent
    requires |hubs[i].sent[s]| <= k < |hubs[i + 1].sent[s]| && hubs[i + 1].sent[s][k].Deliver?
    ensures s in hubs[i].role && hubs[i].role[s].AsClient?
    ensures events[i].EvBurrowFrame? && CurrentBurrow(hubs[i], events[i].b)
    ensures var c := hubs[i].role[s].clientId;
      c in hubs[i].lastInit && hubs[i].lastInit[c] == events[i].b.socket
  {
    RunKeepsInv(hubs, events, i);
    if !events[i].EvBurrowFrame? {
      StepIsQuiet(hubs[i], events[i], s);
      assert false;
    } else {
      hide SocketOk;
    }
  }

  // The cap on Client sockets is never exceeded.
  lemma {:induction false} ClientsStayUnderCap(hubs: seq<Hub>, events: seq<Event>, i: nat)
    requires Run(hubs, events) && i < |hubs|
    ensures |hubs[i].clients.Keys| <= MAX_RELAY_CLIENT_SOCKETS
  {
    if i > 0 {
      ClientsStayUnderCap(hubs, events, i - 1);
      StepKeepsCap(hubs[i - 1], events[i - 1]);
    }
  }

  lemma {:induction false} CloseExpiredShrinks(h: Hub, ids: seq<ClientId>, now: int)
    ensures CloseExpired(h, ids, now).clients.Keys <= h.clients.Keys
    decreases |ids|
  {
    if ids != [] {
      CloseExpiredShrinks(h, ids[..|ids| - 1], now);
    }
  }

  lemma OnlyRegisteringAddsClients(h: Hub, e: Event)
    requires !e.EvRegisterClient?
    ensures Step(h, e).clients.Keys <= h.clients.Keys
  {
    match e
    case EvCloseExpired(now) => CloseExpiredShrinks(h, h.order, now);
    case EvRegisterBurrow(b) => DropClientsSockets(h.(burrows := h.burrows[b.burrowId := b]), b.burrowId);
    case _ =>
  }

  lemma RegisteringKeepsCap(h: Hub, c: ClientConn)
    requires |h.clients.Keys| <= MAX_RELAY_CLIENT_SOCKETS
    ensures |RegisterClient(h, c).clients.Keys| <= MAX_RELAY_CLIENT_SOCKETS
  {
    if |h.clients| < MAX_RELAY_CLIENT_SOCKETS {
      assert RegisterClient(h, c).clients.Keys == h.clients.Keys + {c.clientId};
    }
  }

  lemma StepKeepsCap(h: Hub, e: Event)
    requires |h.clients.Keys| <= MAX_RELAY_CLIENT_SOCKETS
    ensures |Step(h, e).clients.Keys| <= MAX_RELAY_CLIENT_SOCKETS
  {
    if e.EvRegisterClient? {
      RegisteringKeepsCap(h, e.c);
    } else {
      hide Step;
      OnlyRegisteringAddsClients(h, e);
      SubsetSize(Step(h, e).clients.Keys, h.clients.Keys);
    }
  }

  lemma SubsetSize(a: set<ClientId>, b: set<ClientId>)
    requires a <= b
    ensures |a| <= |b|
  {
    assert b == a + (b - a);
  }

  // The sweep removes exactly the Clients whose session has expired, and no
  // binding of the others.
  lemma {:induction false} SweepRemovesTheExpired(h: Hub, ids: seq<ClientId>, now: int, c: ClientId)
    requires Wellformed(h)
    ensures var h' := CloseExpired(h, ids, now);
      && (c in h'.clients <==> c in h.clients && (c in ids ==> now < h.clients[c].conn.expiresAt))
      && (c in h'.clients ==> h'.clients[c] == h.clients[c])
    decreases |ids|
  {
    if ids != [] {
      var front, id := ids[..|ids| - 1], ids[|ids| - 1];
      assert ids == front + [id];
      var h1 := CloseExpired(h, front, now);
      SweepRemovesTheExpired(h, front, now, c);
      SweepRemovesTheExpired(h, front, now, id);
    }
  }

  // The walk over the Client map with only the Clients in `done` visited.
  ghost function PartDropped(h: Hub, burrowId: BurrowId, done: seq<ClientId>): Hub {
    h.(
      clients := map c | c in h.clients ::
        if BoundTo(h, c, burrowId) && c in done then h.clients[c].(burrowId := None) else h.clients[c],
      sent := map s | s in h.sent ::
        if Marked(h, burrowId, done, s) then h.sent[s] + [BurrowGone] else h.sent[s])
  }

  lemma NoneDropped(h: Hub, burrowId: BurrowId)
    ensures PartDropped(h, burrowId, []) == h
  {
    var p := PartDropped(h, burrowId, []);
    assert p.clients == h.clients && p.sent == h.sent;
  }

  lemma AllDropped(h: Hub, burrowId: BurrowId)
    requires Wellformed(h) && OrderOk(h)
    ensures PartDropped(h, burrowId, h.order) == DropClientsOf(h, burrowId)
  {
    var p, d := PartDropped(h, burrowId, h.order), DropClientsOf(h, burrowId);
    assert p.clients == d.clients;
    assert p.sent == d.sent;
  }

  predicate Marked(h: Hub, burrowId: BurrowId, done: seq<ClientId>, s: Socket) {
    IsBoundSocket(h, s, burrowId) && h.role[s].clientId in done
  }

  lemma MarkOne(h: Hub, burrowId: BurrowId, done: seq<ClientId>, c: ClientId, s: Socket)
    requires Wellformed(h) && c in h.clients && BoundTo(h, c, burrowId)
    ensures Marked(h, burrowId, done + [c], s) <==> Marked(h, burrowId, done, s) || s == h.clients[c].conn.socket
  {
  }

  lemma DropOneSent(h: Hub, burrowId: BurrowId, done: seq<ClientId>, c: ClientId, s: Socket)
    requires Wellformed(h) && c in h.clients && s == h.clients[c].conn.socket
    requires BoundTo(h, c, burrowId) && c !in done
    ensures PartDropped(h, burrowId, done + [c]).sent == Send(PartDropped(h, burrowId, done).sent, s, BurrowGone)
  {
    assert s in h.sent && !Marked(h, burrowId, done, s);
    forall t
      ensures Marked(h, burrowId, done + [c], t) <==> Marked(h, burrowId, done, t) || t == s
    {
      MarkOne(h, burrowId, done, c, t);
    }
    hide Wellformed, Marked;
  }

  lemma DropOne(h: Hub, burrowId: BurrowId, done: seq<ClientId>, c: ClientId)
    requires Wellformed(h) && c in h.clients && BoundTo(h, c, burrowId) && c !in done
    ensures var p, q := PartDropped(h, burrowId, done), PartDropped(h, burrowId, done + [c]);
      && c in p.clients && p.clients[c] == h.clients[c]
      && q == p.(clients := p.clients[c := p.clients[c].(burrowId := None)],
                 sent := Send(p.sent, p.clients[c].conn.socket, BurrowGone))
  {
    var p, q := PartDropped(h, burrowId, done), PartDropped(h, burrowId, done + [c]);
    DropOneSent(h, burrowId, done, c, h.clients[c].conn.socket);
    hide Wellformed, Marked, Send;
    assert q.clients == p.clients[c := p.clients[c].(burrowId := None)];
  }

  lemma SkipOne(h: Hub, burrowId: BurrowId, done: seq<ClientId>, c: ClientId)
    requires c in h.clients && (!BoundTo(h, c, burrowId) || c in done)
    ensures var p := PartDropped(h, burrowId, done);
      && c in p.clients && p.clients[c].burrowId != Some(burrowId)
      && PartDropped(h, burrowId, done + [c]) == p
  {
    var p, q := PartDropped(h, burrowId, done), PartDropped(h, burrowId, done + [c]);
    assert forall d :: d in done + [c] <==> d in done || d == c;
    assert q.clients == p.clients;
    assert q.sent == p.sent;
  }

  lemma {:induction false} CloseExpiredKeepsOrder(h: Hub, ids: seq<ClientId>, now: int)
    requires OrderOk(h)
    ensures OrderOk(CloseExpired(h, ids, now))
    decreases |ids|
  {
    if ids != [] {
      CloseExpiredKeepsOrder(h, ids[..|ids| - 1], now);
    }
  }

  lemma BurrowEventKeepsOrder(h: Hub, e: Event)
    requires OrderOk(h) && (e.EvRegisterBurrow? || e.EvUnregisterBurrow? || e.EvCloseBurrow?)
    ensures OrderOk(Step(h, e))
  {
    assert Step(h, e).order == h.order;
    assert Step(h, e).clients.Keys == h.clients.Keys;
  }

  lemma StepKeepsOrder(h: Hub, e: Event)
    requires OrderOk(h)
    ensures OrderOk(Step(h, e))
  {
    match e
    case EvCloseExpired(now) => hide OrderOk; CloseExpiredKeepsOrder(h, h.order, now);
    case EvRegisterBurrow(_) => hide *; BurrowEventKeepsOrder(h, e);
    case EvUnregisterBurrow(_) => hide *; BurrowEventKeepsOrder(h, e);
    case EvCloseBurrow(_) => hide *; BurrowEventKeepsOrder(h, e);
    case _ => hide *; ClientEventKeepsOrder(h, e);
  }

  lemma ClientEventKeepsOrder(h: Hub, e: Event)
    requires OrderOk(h)
    requires e.EvRegisterClient? || e.EvClientFrame? || e.EvUnregisterClient? || e.EvBurrowFrame?
    ensures OrderOk(Step(h, e))
  {
    hide OrderOk, OnClientFrame, OnBurrowFrame, RegisterClient, UnregisterClient, DropClientsOf, CloseExpired;
    match e
    case EvRegisterClient(c) => RegisterClientKeepsOrder(h, c);
    case EvUnregisterClient(c) => UnregisterClientKeepsOrder(h, c);
    case EvClientFrame(c, input) => ClientFrameKeepsOrder(h, c, input);
    case EvBurrowFrame(b, input) => BurrowFrameKeepsOrder(h, b, input);
  }

  lemma RegisterClientKeepsOrder(h: Hub, c: ClientConn)
    requires OrderOk(h)
    ensures OrderOk(RegisterClient(h, c))
  {
    hide Send;
  }

  lemma UnregisterClientKeepsOrder(h: Hub, c: ClientConn)
    requires OrderOk(h)
    ensures OrderOk(UnregisterClient(h, c))
  {
    hide Send;
  }

  lemma ClientFrameKeepsOrder(h: Hub, c: ClientConn, input: ClientInput)
    requires OrderOk(h)
    ensures OrderOk(OnClientFrame(h, c, input))
  {
    hide OnClientFrame;
    ClientFrameBinds(h, c, input);
  }

  lemma BurrowFrameKeepsOrder(h: Hub, b: BurrowConn, input: BurrowInput)
    requires OrderOk(h)
    ensures OrderOk(OnBurrowFrame(h, b, input))
  {
    hide Send;
  }

  lemma {:induction false} RunKeepsOrder(hubs: seq<Hub>, events: seq<Event>, i: nat)
    requires Run(hubs, events) && i < |hubs|
    ensures OrderOk(hubs[i])
  {
    if i > 0 {
      hide OrderOk, Step;
      RunKeepsOrder(hubs, events, i - 1);
      StepKeepsOrder(hubs[i - 1], events[i - 1]);
    }
  }

  lemma CloseClientShape(h: Hub, c: ClientConn)
    requires Wellformed(h) && CurrentClient(h, c)
    ensures var h1 := UnregisterClient(h, c);
      Wellformed(h1.(sent := Send(h1.sent, c.socket, Close(WS_CLOSE_UNAUTHORIZED))))
  {
  }

  lemma NoneExpired(h: Hub, now: int)
    ensures CloseExpired(h, [], now) == h
  {
  }

  // ----- What each event is heard as -------------------------------------------

  // One more frame, on some condition.
  function When(heard: bool, out: Out): seq<Out> {
    if heard then [out] else []
  }

  // Socket `s` belongs to a registered Client that is bound to the Burrow.
  predicate OwnedByBound(h: Hub, s: Socket, burrowId: BurrowId) {
    exists c :: c in h.clients && h.clients[c].conn.socket == s && h.clients[c].burrowId == Some(burrowId)
  }

  lemma BoundSocketIsOwned(h: Hub, s: Socket, burrowId: BurrowId)
    requires Wellformed(h)
    ensures IsBoundSocket(h, s, burrowId) == OwnedByBound(h, s, burrowId)
  {
    if OwnedByBound(h, s, burrowId) {
      var c :| c in h.clients && h.clients[c].conn.socket == s && h.clients[c].burrowId == Some(burrowId);
      assert h.role[s] == AsClient(c);
    }
  }

  // A Burrow's frame reaches exactly the Client it names: from the connection that stands for
  // the Burrow, for a Client bound to it, as sent. Nothing else in the hub changes.
  lemma BurrowFrameIsHeard(h: Hub, b: BurrowConn, input: BurrowInput)
    ensures var h' := OnBurrowFrame(h, b, input); h' == h.(sent := h'.sent)
    ensures forall s ::
      Sent(OnBurrowFrame(h, b, input).sent, s) == Sent(h.sent, s) +
        if b.burrowId in h.burrows && h.burrows[b.burrowId] == b && input.Reply? && input.clientId in h.clients
           && h.clients[input.clientId].burrowId == Some(b.burrowId) && h.clients[input.clientId].conn.socket == s
        then [Deliver(b.burrowId, input.step, input.payload)] else []
  {
    forall s
      ensures Sent(OnBurrowFrame(h, b, input).sent, s) == Sent(h.sent, s) +
        if b.burrowId in h.burrows && h.burrows[b.burrowId] == b && input.Reply? && input.clientId in h.clients
           && h.clients[input.clientId].burrowId == Some(b.burrowId) && h.clients[input.clientId].conn.socket == s
        then [Deliver(b.burrowId, input.step, input.payload)] else []
    {
    }
  }

  // Each Client that was bound to the Burrow is not, and no other binding has changed.
  ghost predicate Unbinds(h: Hub, burrowId: BurrowId, h': Hub) {
    && h'.clients.Keys == h.clients.Keys && h'.order == h.order && h'.lastInit == h.lastInit
    && forall c :: c in h.clients ==>
         && h'.clients[c].conn == h.clients[c].conn
         && h'.clients[c].burrowId == if h.clients[c].burrowId == Some(burrowId) then None else h.clients[c].burrowId
  }

  lemma DroppingUnbinds(h: Hub, burrowId: BurrowId)
    ensures Unbinds(h, burrowId, DropClientsOf(h, burrowId))
  {
  }

  lemma DroppedSocketHears(h: Hub, burrowId: BurrowId, s: Socket)
    requires Wellformed(h)
    ensures Sent(DropClientsOf(h, burrowId).sent, s) == Sent(h.sent, s) + When(OwnedByBound(h, s, burrowId), BurrowGone)
  {
    BoundSocketIsOwned(h, s, burrowId);
    hide OwnedByBound;
  }

  // A Burrow's socket that goes, while it stands for the Burrow, takes the Burrow off the hub,
  // and each Client bound to it is told once. The end of any other connection is nothing.
  lemma UnregisterBurrowIsHeard(h: Hub, b: BurrowConn)
    requires Wellformed(h)
    ensures var h' := UnregisterBurrow(h, b);
      if b.burrowId in h.burrows && h.burrows[b.burrowId] == b then
        && h'.burrows == h.burrows - {b.burrowId} && h'.role == h.role && Unbinds(h, b.burrowId, h')
        && forall s :: Sent(h'.sent, s) == Sent(h.sent, s) + When(OwnedByBound(h, s, b.burrowId), BurrowGone)
      else h' == h
  {
    if CurrentBurrow(h, b) {
      var h1 := h.(burrows := h.burrows - {b.burrowId});
      assert Wellformed(h1);
      DroppingUnbinds(h1, b.burrowId);
      hide Wellformed, DropClientsOf;
      forall s
        ensures Sent(UnregisterBurrow(h, b).sent, s) == Sent(h.sent, s) + When(OwnedByBound(h, s, b.burrowId), BurrowGone)
      {
        DroppedSocketHears(h1, b.burrowId, s);
        assert OwnedByBound(h1, s, b.burrowId) == OwnedByBound(h, s, b.burrowId);
      }
    }
  }

  // Revoking a Burrow is that, and its socket is closed as revoked.
  lemma CloseBurrowIsHeard(h: Hub, burrowId: BurrowId)
    requires Wellformed(h)
    ensures var h' := CloseBurrow(h, burrowId);
      if burrowId in h.burrows then
        && h'.burrows == h.burrows - {burrowId} && h'.role == h.role && Unbinds(h, burrowId, h')
        && forall s :: Sent(h'.sent, s) == Sent(h.sent, s)
             + When(OwnedByBound(h, s, burrowId), BurrowGone) + When(s == h.burrows[burrowId].socket, Close(4001))
      else h' == h
  {
    if burrowId in h.burrows {
      UnregisterBurrowIsHeard(h, h.burrows[burrowId]);
      assert h.burrows[burrowId].burrowId == burrowId;
      hide Wellformed, UnregisterBurrow, OwnedByBound;
    }
  }

  // What one socket hears of a Burrow connection's arrival.
  ghost function ArrivalHeard(h: Hub, b: BurrowConn, s: Socket): seq<Out> {
    if b.burrowId !in h.burrows then []
    else When(OwnedByBound(h, s, b.burrowId), BurrowGone) + When(s == h.burrows[b.burrowId].socket, Close(4000))
  }

  // The hub with the new connection in place, and nobody told yet.
  ghost function Arrived(h: Hub, b: BurrowConn): Hub {
    h.(burrows := h.burrows[b.burrowId := b], sent := h.sent[b.socket := []], role := h.role[b.socket := AsBurrow(b.burrowId)])
  }

  lemma SocketHearsArrival(h: Hub, b: BurrowConn, s: Socket)
    requires Wellformed(h) && b.socket !in h.sent
    ensures Sent(RegisterBurrow(h, b).sent, s) == Sent(h.sent, s) + ArrivalHeard(h, b, s)
  {
    hide DropClientsOf, OwnedByBound;
    var h1 := Arrived(h, b);
    assert Wellformed(h1);
    DroppedSocketHears(h1, b.burrowId, s);
    assert OwnedByBound(h1, s, b.burrowId) == OwnedByBound(h, s, b.burrowId) by {
      BoundSocketIsOwned(h1, s, b.burrowId);
      BoundSocketIsOwned(h, s, b.burrowId);
    }
  }

  // A Burrow's new connection is the one that stands for it, with nothing said on it yet. One
  // that it replaces is closed, and the Clients bound there are told and unbound.
  lemma RegisterBurrowIsHeard(h: Hub, b: BurrowConn)
    requires Wellformed(h) && b.socket !in h.sent
    ensures var h' := RegisterBurrow(h, b);
      && h'.burrows == h.burrows[b.burrowId := b] && h'.role == h.role[b.socket := AsBurrow(b.burrowId)]
      && (if b.burrowId in h.burrows then Unbinds(h, b.burrowId, h')
          else h'.clients == h.clients && h'.order == h.order && h'.lastInit == h.lastInit)
      && b.socket in h'.sent
    ensures forall s :: Sent(RegisterBurrow(h, b).sent, s) == Sent(h.sent, s) + ArrivalHeard(h, b, s)
  {
    hide DropClientsOf, Wellformed, ArrivalHeard;
    DroppingUnbinds(Arrived(h, b), b.burrowId);
    DropClientsSockets(Arrived(h, b), b.burrowId);
    forall s
      ensures Sent(RegisterBurrow(h, b).sent, s) == Sent(h.sent, s) + ArrivalHeard(h, b, s)
    {
      SocketHearsArrival(h, b, s);
    }
  }

  // A Client is admitted while there are fewer than sixty-four, unbound, with nothing said to
  // it yet; and turned away, with nothing changed, otherwise.
  lemma RegisterClientAdmits(h: Hub, c: ClientConn)
    requires c.socket !in h.sent && c.clientId !in h.clients
    ensures var h' := RegisterClient(h, c);
      if |h.clients| < 64 then
        && h'.clients == h.clients[c.clientId := Client(c, None)] && h'.order == h.order + [c.clientId]
        && h'.burrows == h.burrows && h'.lastInit == h.lastInit
        && h'.sent == h.sent[c.socket := []] && h'.role == h.role[c.socket := AsClient(c.clientId)]
      else h' == h
  {
  }

  // Socket `s` is the one of the connected Burrow that the Client is bound to.
  predicate IsBurrowOf(h: Hub, c: ClientId, s: Socket) {
    && c in h.clients && h.clients[c].burrowId.Some?
    && h.clients[c].burrowId.value in h.burrows && h.burrows[h.clients[c].burrowId.value].socket == s
  }

  // A Client's connection that goes, while it stands for the Client, takes the Client off the
  // hub, and the Burrow it is bound to is told. The end of any other connection is nothing.
  lemma UnregisterClientIsHeard(h: Hub, c: ClientConn)
    ensures var h' := UnregisterClient(h, c);
      if c.clientId in h.clients && h.clients[c.clientId].conn == c then
        && h'.clients == h.clients - {c.clientId} && h'.burrows == h.burrows && h'.role == h.role
        && h'.lastInit == h.lastInit && (forall y :: y in h'.order <==> y in h.order && y != c.clientId)
        && forall s :: Sent(h'.sent, s) == Sent(h.sent, s) + When(IsBurrowOf(h, c.clientId, s), ClientGone(c.clientId))
      else h' == h
  {
  }

  // What one socket hears of a sweep over the Clients in `ids`: each one whose session is
  // over is closed as unauthorized, once, and the Burrow it is bound to is told.
  function SweepHeard(h: Hub, ids: seq<ClientId>, now: int, s: Socket): seq<Out> {
    if ids == [] then []
    else
      var front, c := ids[..|ids| - 1], ids[|ids| - 1];
      SweepHeard(h, front, now, s) +
        if c in h.clients && c !in front && h.clients[c].conn.expiresAt <= now
        then When(IsBurrowOf(h, c, s), ClientGone(c)) + When(s == h.clients[c].conn.socket, Close(1008))
        else []
  }

  lemma CloseClientIsHeard(h: Hub, c: ClientConn, s: Socket)
    requires CurrentClient(h, c)
    ensures var h1 := UnregisterClient(h, c);
      Sent(Send(h1.sent, c.socket, Close(1008)), s) ==
        Sent(h.sent, s) + (When(IsBurrowOf(h, c.clientId, s), ClientGone(c.clientId)) + When(s == c.socket, Close(1008)))
  {
  }

  lemma {:induction false} CloseExpiredIsHeard(h: Hub, ids: seq<ClientId>, now: int, s: Socket)
    requires Wellformed(h)
    ensures var h' := CloseExpired(h, ids, now);
      && h'.burrows == h.burrows && h'.role == h.role && h'.lastInit == h.lastInit
      && Sent(h'.sent, s) == Sent(h.sent, s) + SweepHeard(h, ids, now, s)
    decreases |ids|
  {
    if ids != [] {
      hide Wellformed;
      var front, c := ids[..|ids| - 1], ids[|ids| - 1];
      CloseExpiredIsHeard(h, front, now, s);
      SweepRemovesTheExpired(h, front, now, c);
      var h1 := CloseExpired(h, front, now);
      if c in h1.clients && h1.clients[c].conn.expiresAt <= now {
        ConnKnowsItsClient(h, c);
        CloseClientIsHeard(h1, h1.clients[c].conn, s);
        hide CloseExpired;
        assert c !in front && IsBurrowOf(h1, c, s) == IsBurrowOf(h, c, s);
      }
    }
  }

  lemma ConnKnowsItsClient(h: Hub, c: ClientId)
    requires Wellformed(h) && c in h.clients
    ensures h.clients[c].conn.clientId == c
  {
  }

  // ----- The hub object -------------------------------------------------------

  // An init to a connected Burrow binds its Client there; no other binding, and no
  // connection, changes.
  ghost predicate BindsOnly(h: Hub, c: ClientConn, input: ClientInput, h': Hub) {
    && h'.burrows == h.burrows && h'.order == h.order && h'.clients.Keys == h.clients.Keys
    && forall i :: i in h.clients ==>
         h'.clients[i] ==
           if i == c.clientId && h.clients[i].conn == c && input.Init? && input.burrowId in h.burrows
           then h.clients[i].(burrowId := Some(input.burrowId)) else h.clients[i]
  }

  lemma ClientFrameBinds(h: Hub, c: ClientConn, input: ClientInput)
    ensures BindsOnly(h, c, input, OnClientFrame(h, c, input))
  {
  }

  lemma SocketHears(h: Hub, c: ClientConn, input: ClientInput, s: Socket)
    requires Wellformed(h)
    ensures Sent(OnClientFrame(h, c, input).sent, s) == Sent(h.sent, s) + Heard(h, c, input, s)
  {
  }

  // A Client's frame is heard by the Burrow it names, the one it leaves, or the Client
  // itself, each exactly as it should be, and by no other socket; and it binds as it should.
  lemma ClientFrameIsHeard(h: Hub, c: ClientConn, input: ClientInput)
    requires Wellformed(h)
    ensures BindsOnly(h, c, input, OnClientFrame(h, c, input))
    ensures forall s :: Sent(OnClientFrame(h, c, input).sent, s) == Sent(h.sent, s) + Heard(h, c, input, s)
  {
    hide Wellformed, OnClientFrame, BindsOnly, Heard;
    ClientFrameBinds(h, c, input);
    forall s
      ensures Sent(OnClientFrame(h, c, input).sent, s) == Sent(h.sent, s) + Heard(h, c, input, s)
    {
      SocketHears(h, c, input, s);
    }
  }

  class RelayHub {
    var burrows: map<BurrowId, BurrowConn>
    var clients: map<ClientId, Client>
    var order: seq<ClientId>
    // The sockets, as what each one has been handed.
    var sent: map<Socket, seq<Out>>
    ghost var role: map<Socket, Role>
    ghost var lastInit: map<ClientId, Socket>

    ghost function View(): Hub
      reads this
    {
      Hub(burrows, clients, order, sent, role, lastInit)
    }

    constructor ()
      ensures View() == EMPTY
    {
      burrows, clients, order, sent := map[], map[], [], map[];
      role, lastInit := map[], map[];
    }

    method ToSocket(socket: Socket, out: Out)
      modifies this`sent
      ensures sent == Send(old(sent), socket, out)
    {
      sent := Send(sent, socket, out);
    }

    // Tells and unbinds one Client, if the Burrow is the one it is bound to.
    method DropClient(burrowId: BurrowId, c: ClientId, ghost h: Hub, ghost done: seq<ClientId>)
      requires Wellformed(h) && c in h.clients && View() == PartDropped(h, burrowId, done)
      modifies this`clients, this`sent
      ensures View() == PartDropped(h, burrowId, done + [c])
    {
      if BoundTo(h, c, burrowId) && c !in done {
        DropOne(h, burrowId, done, c);
      } else {
        SkipOne(h, burrowId, done, c);
      }
      hide PartDropped, Wellformed;
      if clients[c].burrowId == Some(burrowId) {
        ToSocket(clients[c].conn.socket, BurrowGone);
        clients := clients[c := clients[c].(burrowId := None)];
      }
    }

    // Walks the Client map, telling and unbinding every Client of the Burrow.
    method DropClients(burrowId: BurrowId)
      requires Wellformed(View()) && OrderOk(View())
      modifies this`clients, this`sent
      ensures View() == DropClientsOf(old(View()), burrowId)
    {
      ghost var h := View();
      NoneDropped(h, burrowId);
      AllDropped(h, burrowId);
      assert forall c :: c in h.order ==> c in h.clients;
      hide PartDropped, DropClientsOf, Wellformed, OrderOk;
      var i := 0;
      while i < |order|
        invariant 0 <= i <= |order|
        invariant order == h.order && View() == PartDropped(h, burrowId, order[..i])
      {
        assert order[..i + 1] == order[..i] + [order[i]];
        DropClient(burrowId, order[i], h, order[..i]);
        i := i + 1;
      }
      assert order[..i] == order;
    }

    method Register(b: BurrowConn)
      requires Wellformed(View()) && OrderOk(View()) && b.socket !in sent
      modifies this
      ensures View() == RegisterBurrow(old(View()), b)
    {
      ghost var h := View();
      var existing := if b.burrowId in burrows then Some(burrows[b.burrowId]) else None;
      burrows := burrows[b.burrowId := b];
      sent := sent[b.socket := []];
      role := role[b.socket := AsBurrow(b.burrowId)];
      assert Wellformed(View());
      if existing.Some? {
        DropClients(b.burrowId);
        ToSocket(existing.value.socket, Close(WS_CLOSE_BURROW_REPLACED));
      }
    }

    method BurrowFrame(b: BurrowConn, input: BurrowInput)
      modifies this`sent
      ensures View() == OnBurrowFrame(old(View()), b, input)
    {
      ghost var h := View();
      if b.burrowId !in burrows || burrows[b.burrowId] != b { return; }
      if input.Unusable? { return; }
      if input.clientId !in clients { return; }
      var client := clients[input.clientId];
      if client.burrowId != Some(b.burrowId) { return; }
      ToSocket(client.conn.socket, Deliver(b.burrowId, input.step, input.payload));
    }

    method Unregister(b: BurrowConn)
      requires Wellformed(View()) && OrderOk(View())
      modifies this
      ensures View() == UnregisterBurrow(old(View()), b)
    {
      if b.burrowId !in burrows || burrows[b.burrowId] != b { return; }
      burrows := burrows - {b.burrowId};
      DropClients(b.burrowId);
    }

    method EvictBurrow(burrowId: BurrowId) returns (closed: bool)
      requires Wellformed(View()) && OrderOk(View())
      modifies this
      ensures View() == CloseBurrow(old(View()), burrowId)
      ensures closed == (burrowId in old(burrows))
    {
      ghost var h := View();
      if burrowId !in burrows { return false; }
      var b := burrows[burrowId];
      Unregister(b);
      ToSocket(b.socket, Close(WS_CLOSE_BURROW_REVOKED));
      return true;
    }

    method AddClient(c: ClientConn) returns (r: Option<ClientConn>)
      requires c.socket !in sent && c.clientId !in clients
      modifies this
      ensures View() == RegisterClient(old(View()), c)
      ensures r == if |old(clients)| >= MAX_RELAY_CLIENT_SOCKETS then None else Some(c)
    {
      if |clients| >= MAX_RELAY_CLIENT_SOCKETS { return None; }
      clients := clients[c.clientId := Client(c, None)];
      order := order + [c.clientId];
      sent := sent[c.socket := []];
      role := role[c.socket := AsClient(c.clientId)];
      return Some(c);
    }

    method RemoveClient(c: ClientConn)
      modifies this
      ensures View() == UnregisterClient(old(View()), c)
      ensures CurrentClient(old(View()), c) ==> clients == old(clients) - {c.clientId}
    {
      if c.clientId !in clients || clients[c.clientId].conn != c { return; }
      var client := clients[c.clientId];
      clients := clients - {c.clientId};
      order := Without(order, c.clientId);
      if client.burrowId.Some? && client.burrowId.value in burrows {
        ToSocket(burrows[client.burrowId.value].socket, ClientGone(c.clientId));
      }
    }

    method ClientFrame(c: ClientConn, input: ClientInput)
      modifies this
      ensures View() == OnClientFrame(old(View()), c, input)
    {
      if c.clientId !in clients || clients[c.clientId].conn != c { return; }
      if input.Malformed? {
        ToSocket(c.socket, Error(MalformedFrame));
      } else if input.UnknownType? {
        ToSocket(c.socket, Error(UnknownFrameType));
      } else if input.MalformedE2e? {
        ToSocket(c.socket, Error(MalformedE2eFrame));
      } else if input.burrowId !in burrows {
        ToSocket(c.socket, Error(BurrowOffline(input.burrowId)));
      } else {
        var b := burrows[input.burrowId];
        var bound := clients[c.clientId].burrowId;
        if input.Init? {
          if bound.Some? && bound.value != input.burrowId && bound.value in burrows {
            ToSocket(burrows[bound.value].socket, ClientGone(c.clientId));
          }
          clients := clients[c.clientId := clients[c.clientId].(burrowId := Some(input.burrowId))];
          lastInit := lastInit[c.clientId := b.socket];
          ToSocket(b.socket, ForwardInit(c.clientId, input.burrowId, input.payload));
        } else if bound == Some(input.burrowId) {
          ToSocket(b.socket, ForwardTransport(c.clientId, input.burrowId, input.payload));
        }
      }
    }

    // Closes one Client if its session is over.
    method SweepOne(id: ClientId, now: int, ghost h: Hub, ghost ids: seq<ClientId>) returns (closed: bool)
      requires Wellformed(View()) && View() == CloseExpired(h, ids, now)
      modifies this
      ensures View() == CloseExpired(h, ids + [id], now)
      ensures Wellformed(View())
      ensures |clients| == |old(clients)| - if closed then 1 else 0
    {
      assert (ids + [id])[..|ids|] == ids;
      ghost var h1 := View();
      if id !in clients || now < clients[id].conn.expiresAt { return false; }
      var c := clients[id].conn;
      assert CurrentClient(h1, c);
      CloseClientShape(h1, c);
      hide Wellformed;
      RemoveClient(c);
      ToSocket(c.socket, Close(WS_CLOSE_UNAUTHORIZED));
      return true;
    }

    method Sweep(now: int) returns (closed: nat)
      requires Wellformed(View())
      modifies this
      ensures View() == CloseExpired(old(View()), old(order), now)
      ensures closed == |old(clients)| - |clients|
    {
      hide Wellformed, CloseExpired;
      ghost var h := View();
      var ids := order;
      closed := 0;
      var i := 0;
      NoneExpired(h, now);
      assert ids[..0] == [];
      while i < |ids|
        invariant 0 <= i <= |ids|
        invariant Wellformed(View()) && View() == CloseExpired(h, ids[..i], now)
        invariant closed == |h.clients| - |clients|
      {
        assert ids[..i + 1] == ids[..i] + [ids[i]];
        var one := SweepOne(ids[i], now, h, ids[..i]);
        closed := closed + if one then 1 else 0;
        i := i + 1;
      }
      assert ids[..i] == ids;
    }
  }
}
