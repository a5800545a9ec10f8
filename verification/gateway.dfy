/**
 The session gateway: the socket endpoint's lifecycle and frame dispatch,
 and the REST canvas and chat handlers, as one step function over the
 server state. Each step takes the JSON encoder in use, the clock reading
 and the set of handles whose sends raise during that step, and returns the
 new state, every message sent (tagged with the handles that received it)
 and whether the handler ended by raising.
 */
module Gateway {
  import opened Wrappers
  import opened Models
  import opened ConnectionManager
  import opened SessionStore

  /** The outbound events of the socket protocol. */
  datatype Outbound =
    | Connected(sessionId: SessionId, activeUsers: nat)
    | CanvasSnapshot(state: CanvasState)
    | CanvasUpdate(state: CanvasState)
    | ChatBroadcast(chat: ChatMessage)
    | UserDisconnected(activeUsers: nat)

  /** One message and the handles it reached. */
  datatype Delivery = Delivery(recipients: set<Handle>, message: Outbound)

  /**
   What validating a frame's `data` against each model yields: None where the
   key is missing or the model rejects it. Validation itself is not modelled.
   */
  datatype Payload = Payload(asCanvas: Option<CanvasState>, asChat: Option<ChatMessage>)

  datatype Event =
    | Open(handle: Handle, session: SessionId)
    | Frame(handle: Handle, frameType: Option<string>, data: Payload)
    | Malformed(handle: Handle)
    | Close(handle: Handle)
    | PostCanvas(session: SessionId, state: CanvasState)
    | PostChat(session: SessionId, chat: ChatMessage)

  /**
   The registry, the store, and the socket endpoints whose receive loop is
   still running, each with the session it serves.
   */
  datatype Server = Server(registry: Registry, store: Store, loops: map<Handle, SessionId>)

  /**
   The new state, the messages sent, and whether the handler raised: for a
   socket that ends its receive loop, for a REST request it fails the request.
   */
  datatype StepResult = StepResult(server: Server, out: seq<Delivery>, raised: bool)

  const InitialServer: Server := Server(map[], EmptyStore, map[])

  const CanvasUpdateType: string := "canvas_update"
  const ChatMessageType: string := "chat_message"

  /**
   How an outbound dict becomes text. `StdlibJson` is `json.dumps` with its
   default settings, which raises `TypeError` on a `datetime`; `IsoDatetimes`
   writes datetimes as ISO strings (what `model_dump(mode="json")` gives).
   */
  datatype Encoder = StdlibJson | IsoDatetimes

  /**
   `m` serialises under `enc`. Canvas snapshots and updates carry
   `last_updated` and chat messages carry `timestamp`, both datetimes after
   `model_dump()`; the two count-only messages carry a string and an int.
   */
  predicate Encodes(enc: Encoder, m: Outbound) {
    match m
    case Connected(_, _) => true
    case UserDisconnected(_) => true
    case _ => enc == IsoDatetimes
  }

  /** `h` is registered under some session. */
  ghost predicate Registered(r: Registry, h: Handle) {
    exists s :: s in r && h in r[s]
  }

  /**
   Which events can happen: a new connection brings a handle seen nowhere
   yet; frames and closure come only from a running receive loop.
   */
  ghost predicate Enabled(srv: Server, ev: Event) {
    match ev
    case Open(h, _) => h !in srv.loops && !Registered(srv.registry, h)
    case Frame(h, _, _) => h in srv.loops
    case Malformed(h) => h in srv.loops
    case Close(h) => h in srv.loops
    case PostCanvas(_, _) => true
    case PostChat(_, _) => true
  }

  /** A registered handle whose loop still runs is registered under the loop's session. */
  ghost predicate LoopsAgree(r: Registry, loops: map<Handle, SessionId>) {
    forall s, h :: s in r && h in r[s] && h in loops ==> loops[h] == s
  }

  /** No handle is registered under two sessions. */
  ghost predicate SingleSession(r: Registry) {
    forall s, t, h :: s in r && t in r && h in r[s] && h in r[t] ==> s == t
  }

  /** What every reachable server state satisfies. */
  ghost predicate Inv(srv: Server) {
    && NoEmptySessions(srv.registry)
    && ChatsBounded(srv.store)
    && LoopsAgree(srv.registry, srv.loops)
    && SingleSession(srv.registry)
  }

  /**
   `send_personal_message`: `m` to `h` alone; the encoding happens first, so
   a message `enc` cannot serialise raises and reaches nobody (None).
   */
  function Personal(enc: Encoder, h: Handle, m: Outbound): (d: Option<Delivery>)
    ensures d.Some? <==> Encodes(enc, m)
    ensures d.Some? ==> d.value.recipients == {h} && d.value.message == m
  {
    if Encodes(enc, m) then Some(Delivery({h}, m)) else None
  }

  /**
   Broadcast `m` to session `s`. With no entry for `s` nothing happens; an
   unserialisable message raises before any send and changes nothing;
   otherwise every live handle receives `m` and the failing ones are pruned.
   */
  function Fan(srv: Server, enc: Encoder, s: SessionId, failing: set<Handle>, m: Outbound): (res: StepResult)
    ensures res.server.store == srv.store && res.server.loops == srv.loops
    ensures res.raised <==> s in srv.registry && !Encodes(enc, m)
    ensures res.raised ==> res.server == srv && res.out == []
    ensures !res.raised ==> res.out == [Delivery(Members(srv.registry, s) - failing, m)]
    ensures !res.raised ==> Members(res.server.registry, s) == Members(srv.registry, s) - failing
    ensures SameElsewhere(srv.registry, res.server.registry, s)
    ensures Shrinks(srv.registry, res.server.registry)
    ensures NoEmptySessions(srv.registry) ==> NoEmptySessions(res.server.registry)
  {
    match BroadcastEncoded(srv.registry, s, failing, Encodes(enc, m))
    case None => StepResult(srv, [], true)
    case Some(f) => StepResult(srv.(registry := f.registry), [Delivery(f.delivered, m)], false)
  }

  /**
   The receive loop of `h` ends on an exception other than a disconnect:
   nothing is unregistered and nothing is sent.
   */
  function Abandon(srv: Server, h: Handle): (res: StepResult)
    ensures res.server.registry == srv.registry && res.server.store == srv.store
    ensures res.server.loops == srv.loops - {h}
    ensures res.out == [] && res.raised
  {
    StepResult(srv.(loops := srv.loops - {h}), [], true)
  }

  /** A handler run inside the receive loop of `h`: if it raised, the loop is over. */
  function InLoop(h: Handle, res: StepResult): (res': StepResult)
    ensures res'.server.registry == res.server.registry && res'.server.store == res.server.store
    ensures res'.out == res.out && res'.raised == res.raised
    ensures res'.server.loops == if res.raised then res.server.loops - {h} else res.server.loops
  {
    if res.raised then res.(server := res.server.(loops := res.server.loops - {h})) else res
  }

  /**
   Accepting a connection: register the handle, reply `connected` with the
   count that now includes it, then send the stored snapshot if there is one.
   The snapshot send runs before the receive loop starts, so if it raises the
   endpoint ends with the handle registered and no loop serving it.
   */
  function OnOpen(srv: Server, enc: Encoder, now: int, h: Handle, s: SessionId): (res: StepResult)
    ensures Members(res.server.registry, s) == Members(srv.registry, s) + {h}
    ensures SameElsewhere(srv.registry, res.server.registry, s)
    ensures res.server.store == srv.store
    ensures 1 <= |res.out| <= 2
    ensures res.out[0] == Delivery({h}, Connected(s, |Members(srv.registry, s) + {h}|))
    ensures res.out[0].message.activeUsers >= 1
    ensures res.raised <==> GetCanvasState(srv.store, now, s).Some? && enc == StdlibJson
    ensures |res.out| == 2 <==> GetCanvasState(srv.store, now, s).Some? && !res.raised
    ensures |res.out| == 2 ==> res.out[1] == Delivery({h}, CanvasSnapshot(GetCanvasState(srv.store, now, s).value))
    ensures res.server.loops == if res.raised then srv.loops - {h} else srv.loops[h := s]
  {
    var reg := Connect(srv.registry, s, h);
    var hello := Delivery({h}, Connected(s, SessionCount(reg, s)));
    var srv' := srv.(registry := reg);
    match GetCanvasState(srv.store, now, s)
    case None => StepResult(srv'.(loops := srv.loops[h := s]), [hello], false)
    case Some(c) =>
      match Personal(enc, h, CanvasSnapshot(c))
      case None => StepResult(srv'.(loops := srv.loops - {h}), [hello], true)
      case Some(snapshot) => StepResult(srv'.(loops := srv.loops[h := s]), [hello, snapshot], false)
  }

  /**
   `canvas_update` and `chat_message` frames of the receive loop of `h`,
   serving session `s`. An accepted payload is stored before it is
   broadcast, so it stays stored when the broadcast raises.
   */
  function OnFrame(srv: Server, enc: Encoder, now: int, failing: set<Handle>, h: Handle, s: SessionId,
                   frameType: Option<string>, data: Payload): (res: StepResult)
    ensures frameType != Some(CanvasUpdateType) && frameType != Some(ChatMessageType) ==>
              res == StepResult(srv, [], false)
    ensures (frameType == Some(CanvasUpdateType) && data.asCanvas.None?)
            || (frameType == Some(ChatMessageType) && data.asChat.None?) ==>
              res == Abandon(srv, h)
    ensures frameType == Some(CanvasUpdateType) && data.asCanvas.Some? ==>
              && (forall later :: GetCanvasState(res.server.store, later, s)
                                  == if later < now + CanvasTtl then data.asCanvas else None)
              && (forall t, later :: t != s ==> GetCanvasState(res.server.store, later, t) == GetCanvasState(srv.store, later, t))
              && res.server.store.chats == srv.store.chats
              && (res.raised <==> s in srv.registry && enc == StdlibJson)
              && (!res.raised ==> res.out == [Delivery(Members(srv.registry, s) - failing, CanvasUpdate(data.asCanvas.value))])
    ensures frameType == Some(ChatMessageType) && data.asChat.Some? ==>
              && Log(res.server.store, data.asChat.value.sessionId)
                 == Recent(Log(srv.store, data.asChat.value.sessionId) + [EntryOf(data.asChat.value)], ChatMaxLen)
              && (forall t :: t != data.asChat.value.sessionId ==> Log(res.server.store, t) == Log(srv.store, t))
              && res.server.store.canvases == srv.store.canvases
              && (res.raised <==> s in srv.registry && enc == StdlibJson)
              && (!res.raised ==> res.out == [Delivery(Members(srv.registry, s) - failing, ChatBroadcast(data.asChat.value))])
    ensures res.raised ==> res.out == [] && res.server.registry == srv.registry && res.server.loops == srv.loops - {h}
    ensures !res.raised ==> res.server.loops == srv.loops
    ensures !res.raised && (frameType == Some(CanvasUpdateType) || frameType == Some(ChatMessageType)) ==>
              Members(res.server.registry, s) == Members(srv.registry, s) - failing
    ensures SameElsewhere(srv.registry, res.server.registry, s)
    ensures Shrinks(srv.registry, res.server.registry)
    ensures NoEmptySessions(srv.registry) ==> NoEmptySessions(res.server.registry)
  {
    if frameType == Some(CanvasUpdateType) then
      match data.asCanvas
      case None => Abandon(srv, h)
      case Some(c) =>
        InLoop(h, Fan(srv.(store := SaveCanvasState(srv.store, now, s, c)), enc, s, failing, CanvasUpdate(c)))
    else if frameType == Some(ChatMessageType) then
      match data.asChat
      case None => Abandon(srv, h)
      case Some(m) =>
        InLoop(h, Fan(srv.(store := SaveChatMessage(srv.store, m)), enc, s, failing, ChatBroadcast(m)))
    else
      StepResult(srv, [], false)
  }

  /**
   `WebSocketDisconnect`: unregister the handle first, then announce the
   count without it to whoever remains. The announcement always serialises.
   */
  function OnClose(srv: Server, enc: Encoder, failing: set<Handle>, h: Handle, s: SessionId): (res: StepResult)
    ensures !res.raised
    ensures h !in Members(res.server.registry, s) && h !in res.server.loops
    ensures Members(res.server.registry, s) == Members(srv.registry, s) - {h} - failing
    ensures res.out == [Delivery(Members(srv.registry, s) - {h} - failing,
                                 UserDisconnected(|Members(srv.registry, s) - {h}|))]
    ensures SameElsewhere(srv.registry, res.server.registry, s)
    ensures Shrinks(srv.registry, res.server.registry)
    ensures NoEmptySessions(srv.registry) ==> NoEmptySessions(res.server.registry)
    ensures res.server.store == srv.store && res.server.loops == srv.loops - {h}
  {
    var reg := Disconnect(srv.registry, s, h);
    Fan(srv.(registry := reg, loops := srv.loops - {h}), enc, s, failing, UserDisconnected(SessionCount(reg, s)))
  }

  /**
   `POST /api/sessions/{s}/canvas`: save under the path session, then
   broadcast to it. A raising broadcast fails the request after the save.
   */
  function UpdateCanvasState(srv: Server, enc: Encoder, now: int, failing: set<Handle>, s: SessionId, c: CanvasState): (res: StepResult)
    ensures forall later :: GetCanvasState(res.server.store, later, s) == if later < now + CanvasTtl then Some(c) else None
    ensures forall t, later :: t != s ==> GetCanvasState(res.server.store, later, t) == GetCanvasState(srv.store, later, t)
    ensures res.server.store.chats == srv.store.chats && res.server.loops == srv.loops
    ensures res.raised <==> s in srv.registry && enc == StdlibJson
    ensures res.raised ==> res.out == [] && res.server.registry == srv.registry
    ensures !res.raised ==> res.out == [Delivery(Members(srv.registry, s) - failing, CanvasUpdate(c))]
    ensures !res.raised ==> Members(res.server.registry, s) == Members(srv.registry, s) - failing
    ensures SameElsewhere(srv.registry, res.server.registry, s)
    ensures Shrinks(srv.registry, res.server.registry)
  {
    Fan(srv.(store := SaveCanvasState(srv.store, now, s, c)), enc, s, failing, CanvasUpdate(c))
  }

  /**
   `POST /api/sessions/{s}/chat`: stored under the message's own session but
   broadcast to the path session. A raising broadcast fails the request after
   the save.
   */
  function SendChatMessage(srv: Server, enc: Encoder, failing: set<Handle>, s: SessionId, m: ChatMessage): (res: StepResult)
    ensures Log(res.server.store, m.sessionId) == Recent(Log(srv.store, m.sessionId) + [EntryOf(m)], ChatMaxLen)
    ensures forall t :: t != m.sessionId ==> Log(res.server.store, t) == Log(srv.store, t)
    ensures res.server.store.canvases == srv.store.canvases && res.server.loops == srv.loops
    ensures res.raised <==> s in srv.registry && enc == StdlibJson
    ensures res.raised ==> res.out == [] && res.server.registry == srv.registry
    ensures !res.raised ==> res.out == [Delivery(Members(srv.registry, s) - failing, ChatBroadcast(m))]
    ensures !res.raised ==> Members(res.server.registry, s) == Members(srv.registry, s) - failing
    ensures SameElsewhere(srv.registry, res.server.registry, s)
    ensures Shrinks(srv.registry, res.server.registry)
  {
    Fan(srv.(store := SaveChatMessage(srv.store, m)), enc, s, failing, ChatBroadcast(m))
  }

  /** `GET /api/sessions/{s}/canvas`: the stored snapshot, or a fresh empty canvas for `s`. */
  function GetCanvas(srv: Server, now: int, s: SessionId): (c: CanvasState)
    ensures GetCanvasState(srv.store, now, s).Some? ==> c == GetCanvasState(srv.store, now, s).value
    ensures GetCanvasState(srv.store, now, s).None? ==>
              c.sessionId == s && c.resources == [] && c.connections == [] && c.userPrompt == ""
  {
    match GetCanvasState(srv.store, now, s)
    case Some(c) => c
    case None => EmptyCanvas(s, Timestamp(now))
  }

  /**
   `GET /api/sessions/{s}/chat`: the chat history, 50 entries unless asked
   otherwise; a count below 1 fails the request (None).
   */
  function GetChat(srv: Server, s: SessionId, count: int := 50): (msgs: Option<seq<ChatMessage>>)
    ensures msgs.None? <==> count < 1
    ensures msgs.Some? ==> count >= 1 && Entries(msgs.value) == Recent(Log(srv.store, s), count)
    ensures msgs.Some? ==> forall i :: 0 <= i < |msgs.value| ==> msgs.value[i].sessionId == s
  {
    GetChatHistory(srv.store, s, count)
  }

  /**
   One event handled to completion. Every step keeps the invariant; a receive
   loop starts only on the `Open` of its own handle; REST requests never
   touch the loops; a socket handler that raised has ended its loop.
   */
  function Step(srv: Server, enc: Encoder, now: int, failing: set<Handle>, ev: Event): (res: StepResult)
    requires Enabled(srv, ev)
    ensures Inv(srv) ==> Inv(res.server)
    ensures forall h :: h in res.server.loops && h !in srv.loops ==> ev == Open(h, res.server.loops[h])
    ensures ev.PostCanvas? || ev.PostChat? ==> res.server.loops == srv.loops
    ensures ev.Close? ==> !res.raised && ev.handle !in res.server.loops
    ensures res.raised && (ev.Open? || ev.Frame? || ev.Malformed?) ==> ev.handle !in res.server.loops
  {
    match ev
    case Open(h, s) => OnOpen(srv, enc, now, h, s)
    case Frame(h, t, d) => OnFrame(srv, enc, now, failing, h, srv.loops[h], t, d)
    case Malformed(h) => Abandon(srv, h)
    case Close(h) => OnClose(srv, enc, failing, h, srv.loops[h])
    case PostCanvas(s, c) => UpdateCanvasState(srv, enc, now, failing, s, c)
    case PostChat(s, m) => SendChatMessage(srv, enc, failing, s, m)
  }
}
