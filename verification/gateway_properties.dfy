/**
 Properties of the gateway's step function: the invariant every step
 preserves, what each kind of event does, and what it leaves alone.
 */
module GatewayProperties {
  import opened Wrappers
  import opened Models
  import opened ConnectionManager
  import opened SessionStore
  import opened Gateway

  /** The session whose registry entry an event may touch. */
  ghost function EventSession(srv: Server, ev: Event): SessionId
    requires Enabled(srv, ev)
  {
    match ev
    case Open(_, s) => s
    case Frame(h, _, _) => srv.loops[h]
    case Malformed(h) => srv.loops[h]
    case Close(h) => srv.loops[h]
    case PostCanvas(s, _) => s
    case PostChat(s, _) => s
  }

  /** The chat logs an event may append to: the message's own session. */
  ghost function ChatWritten(ev: Event): set<SessionId> {
    match ev
    case Frame(_, t, d) => if t == Some(ChatMessageType) && d.asChat.Some? then {d.asChat.value.sessionId} else {}
    case PostChat(_, m) => {m.sessionId}
    case _ => {}
  }

  lemma InitialInv()
    ensures Inv(InitialServer)
  {
  }

  /**
   On connect the handle is registered before the `connected` reply, which
   therefore counts it, whatever the encoder.
   */
  lemma OpenRegistersBeforeReplying(srv: Server, enc: Encoder, now: int, failing: set<Handle>, h: Handle, s: SessionId)
    requires Enabled(srv, Open(h, s))
    ensures var res := Step(srv, enc, now, failing, Open(h, s));
      && h in Members(res.server.registry, s)
      && res.out[0] == Delivery({h}, Connected(s, SessionCount(res.server.registry, s)))
      && SessionCount(res.server.registry, s) == SessionCount(srv.registry, s) + 1
  {
  }

  /**
   With datetimes encoded, the snapshot follows the reply exactly when one
   is stored, and the receive loop starts in every case.
   */
  lemma OpenSendsSnapshot(srv: Server, now: int, failing: set<Handle>, h: Handle, s: SessionId)
    requires Enabled(srv, Open(h, s))
    ensures var res := Step(srv, IsoDatetimes, now, failing, Open(h, s));
      && !res.raised
      && h in res.server.loops && res.server.loops[h] == s
      && (|res.out| == 2 <==> GetCanvasState(srv.store, now, s).Some?)
      && (|res.out| == 2 ==> res.out[1] == Delivery({h}, CanvasSnapshot(GetCanvasState(srv.store, now, s).value)))
  {
  }

  /**
   With the standard encoder and a stored snapshot, the `connected` reply
   goes out, the snapshot send raises, and the endpoint ends before its
   receive loop: the handle stays registered with no loop to remove it.
   */
  lemma OpenWithSnapshotAsWritten(srv: Server, now: int, failing: set<Handle>, h: Handle, s: SessionId)
    requires Enabled(srv, Open(h, s))
    requires GetCanvasState(srv.store, now, s).Some?
    ensures var res := Step(srv, StdlibJson, now, failing, Open(h, s));
      && res.raised
      && res.out == [Delivery({h}, Connected(s, SessionCount(res.server.registry, s)))]
      && h in Members(res.server.registry, s)
      && h !in res.server.loops
  {
  }

  /**
   With datetimes encoded, a `canvas_update` frame overwrites the snapshot
   of the socket's session and is broadcast to every handle of that session,
   the sender included; the loop goes on.
   */
  lemma CanvasFrameReachesSender(srv: Server, now: int, failing: set<Handle>, h: Handle, p: Payload, c: CanvasState)
    requires h in srv.loops && p.asCanvas == Some(c)
    ensures var s, res := srv.loops[h], Step(srv, IsoDatetimes, now, failing, Frame(h, Some(CanvasUpdateType), p));
      && GetCanvas(res.server, now, s) == c
      && res.out == [Delivery(Members(srv.registry, s) - failing, CanvasUpdate(c))]
      && (h in Members(srv.registry, s) && h !in failing ==> h in res.out[0].recipients)
      && !res.raised && h in res.server.loops
  {
  }

  /**
   With the standard encoder, a `canvas_update` frame to a session with an
   entry is stored, then the broadcast raises: nobody receives it, the loop
   ends, and the registry keeps every handle, the sender's included.
   */
  lemma CanvasFrameAsWritten(srv: Server, now: int, failing: set<Handle>, h: Handle, p: Payload, c: CanvasState)
    requires h in srv.loops && p.asCanvas == Some(c)
    requires srv.loops[h] in srv.registry
    ensures var s, res := srv.loops[h], Step(srv, StdlibJson, now, failing, Frame(h, Some(CanvasUpdateType), p));
      && GetCanvas(res.server, now, s) == c
      && res.out == []
      && res.raised && h !in res.server.loops
      && res.server.registry == srv.registry
  {
  }

  /**
   Two handles share "s1" and the standard encoder is in use. The first
   sends a `canvas_update`: the canvas is stored, neither handle hears of it,
   the first handle's loop is over and it is still registered.
   */
  lemma CanvasUpdateLostAsWritten(store: Store, now: int, c: CanvasState)
    ensures var h1, h2 := Handle(1), Handle(2);
      var srv := Server(map["s1" := {h1, h2}], store, map[h1 := "s1", h2 := "s1"]);
      var res := Step(srv, StdlibJson, now, {}, Frame(h1, Some(CanvasUpdateType), Payload(Some(c), None)));
      && GetCanvas(res.server, now, "s1") == c
      && res.out == []
      && h1 !in res.server.loops && h2 in res.server.loops
      && h1 in Members(res.server.registry, "s1")
  {
  }

  /**
   With datetimes encoded, a chat frame is stored under the message's
   session and broadcast to the socket's session; the loop goes on.
   */
  lemma ChatFrameRouting(srv: Server, now: int, failing: set<Handle>, h: Handle, p: Payload, m: ChatMessage)
    requires h in srv.loops && p.asChat == Some(m)
    ensures var res := Step(srv, IsoDatetimes, now, failing, Frame(h, Some(ChatMessageType), p));
      && Log(res.server.store, m.sessionId) == Recent(Log(srv.store, m.sessionId) + [EntryOf(m)], ChatMaxLen)
      && (forall t :: t != m.sessionId ==> Log(res.server.store, t) == Log(srv.store, t))
      && res.out == [Delivery(Members(srv.registry, srv.loops[h]) - failing, ChatBroadcast(m))]
      && res.server.store.canvases == srv.store.canvases
      && !res.raised && h in res.server.loops
  {
  }

  /**
   With the standard encoder, a chat frame to a session with an entry is
   logged, then the broadcast raises: nobody receives it and the loop ends.
   */
  lemma ChatFrameAsWritten(srv: Server, now: int, failing: set<Handle>, h: Handle, p: Payload, m: ChatMessage)
    requires h in srv.loops && p.asChat == Some(m)
    requires srv.loops[h] in srv.registry
    ensures var res := Step(srv, StdlibJson, now, failing, Frame(h, Some(ChatMessageType), p));
      && Log(res.server.store, m.sessionId) == Recent(Log(srv.store, m.sessionId) + [EntryOf(m)], ChatMaxLen)
      && res.out == []
      && res.raised && h !in res.server.loops
      && res.server.registry == srv.registry
  {
  }

  /**
   A canvas sent over a socket reads back through the GET handler for the
   whole window and not after, whatever the encoder: it is saved before the
   broadcast that may raise.
   */
  lemma CanvasFrameRoundTrip(srv: Server, enc: Encoder, now: int, failing: set<Handle>, h: Handle, p: Payload, c: CanvasState, later: int)
    requires h in srv.loops && p.asCanvas == Some(c)
    requires now <= later
    ensures var s, res := srv.loops[h], Step(srv, enc, now, failing, Frame(h, Some(CanvasUpdateType), p));
      GetCanvas(res.server, later, s) == if later < now + CanvasTtl then c else EmptyCanvas(s, Timestamp(later))
  {
  }

  /** A frame of any other type changes nothing and sends nothing; the loop goes on. */
  lemma UnknownFrameIgnored(srv: Server, enc: Encoder, now: int, failing: set<Handle>, h: Handle, t: Option<string>, p: Payload)
    requires h in srv.loops
    requires t != Some(CanvasUpdateType) && t != Some(ChatMessageType)
    ensures Step(srv, enc, now, failing, Frame(h, t, p)) == StepResult(srv, [], false)
  {
  }

  /**
   Undecodable text, or data the model rejects, ends the receive loop
   without unregistering: the handle stays reachable from the registry.
   */
  lemma BadFrameLeavesHandleRegistered(srv: Server, enc: Encoder, now: int, failing: set<Handle>, ev: Event)
    requires Enabled(srv, ev)
    requires || ev.Malformed?
             || (ev.Frame? && ev.frameType == Some(CanvasUpdateType) && ev.data.asCanvas.None?)
             || (ev.Frame? && ev.frameType == Some(ChatMessageType) && ev.data.asChat.None?)
    ensures var res := Step(srv, enc, now, failing, ev);
      && res.server.registry == srv.registry
      && res.server.store == srv.store
      && res.out == [] && res.raised
      && ev.handle !in res.server.loops
      && (forall s :: ev.handle in Members(srv.registry, s) ==> ev.handle in Members(res.server.registry, s))
  {
  }

  /**
   Nothing checks that resource ids are unique or that links name existing
   resources: a canvas breaking either is stored as sent, and, with
   datetimes encoded, broadcast while the loop goes on.
   */
  lemma UnvalidatedCanvasAccepted(srv: Server, enc: Encoder, now: int, failing: set<Handle>, h: Handle, p: Payload, c: CanvasState)
    requires h in srv.loops && p.asCanvas == Some(c)
    requires !UniqueResourceIds(c) || !LinksResolve(c)
    ensures var s, res := srv.loops[h], Step(srv, enc, now, failing, Frame(h, Some(CanvasUpdateType), p));
      && GetCanvas(res.server, now, s) == c
      && (enc == IsoDatetimes ==>
            && !res.raised && h in res.server.loops
            && res.out == [Delivery(Members(srv.registry, s) - failing, CanvasUpdate(c))])
  {
  }

  /**
   On disconnect the handle is unregistered first and then is registered
   nowhere; the remaining handles hear the count without it.
   */
  lemma CloseUnregistersThenAnnounces(srv: Server, enc: Encoder, now: int, failing: set<Handle>, h: Handle)
    requires Inv(srv)
    requires h in srv.loops
    ensures var s, res := srv.loops[h], Step(srv, enc, now, failing, Close(h));
      && !Registered(res.server.registry, h)
      && h !in res.server.loops
      && res.out == [Delivery(Members(srv.registry, s) - {h} - failing,
                              UserDisconnected(SessionCount(Disconnect(srv.registry, s, h), s)))]
      && h !in res.out[0].recipients
  {
  }

  /** A canvas posted over REST reads back through the GET handler for the whole window, whatever the encoder. */
  lemma PostCanvasRoundTrip(srv: Server, enc: Encoder, now: int, failing: set<Handle>, s: SessionId, c: CanvasState, later: int)
    requires now <= later < now + CanvasTtl
    ensures GetCanvas(Step(srv, enc, now, failing, PostCanvas(s, c)).server, later, s) == c
  {
  }

  /** With datetimes encoded, a posted canvas reaches every live handle of the path session. */
  lemma PostCanvasBroadcast(srv: Server, now: int, failing: set<Handle>, s: SessionId, c: CanvasState)
    ensures var res := Step(srv, IsoDatetimes, now, failing, PostCanvas(s, c));
      && !res.raised
      && res.out == [Delivery(Members(srv.registry, s) - failing, CanvasUpdate(c))]
  {
  }

  /**
   With the standard encoder and a path session with an entry, the posted
   canvas is saved and then the request fails with nothing broadcast.
   */
  lemma PostCanvasAsWritten(srv: Server, now: int, failing: set<Handle>, s: SessionId, c: CanvasState)
    requires s in srv.registry
    ensures var res := Step(srv, StdlibJson, now, failing, PostCanvas(s, c));
      && GetCanvas(res.server, now, s) == c
      && res.raised && res.out == []
  {
  }

  /**
   A posted canvas is filed under the path session even when its own
   `sessionId` names another one, which keeps reading what it read before.
   */
  lemma CanvasKeyedByPathSession(srv: Server, enc: Encoder, now: int, failing: set<Handle>, s: SessionId, c: CanvasState)
    requires c.sessionId != s
    ensures var srv' := Step(srv, enc, now, failing, PostCanvas(s, c)).server;
      && GetCanvas(srv', now, s) == c
      && GetCanvas(srv', now, s).sessionId != s
      && GetCanvas(srv', now, c.sessionId) == GetCanvas(srv, now, c.sessionId)
  {
  }

  /** Once the window has passed, the GET handler answers with the empty canvas of the path session. */
  lemma PostCanvasExpires(srv: Server, enc: Encoder, now: int, failing: set<Handle>, s: SessionId, c: CanvasState, later: int)
    requires later >= now + CanvasTtl
    ensures GetCanvas(Step(srv, enc, now, failing, PostCanvas(s, c)).server, later, s) == EmptyCanvas(s, Timestamp(later))
  {
  }

  /**
   With datetimes encoded, a chat message posted to one path session but
   naming another is logged under the session it names and delivered to the
   path session's handles.
   */
  lemma PostChatRouting(srv: Server, now: int, failing: set<Handle>, s: SessionId, m: ChatMessage)
    requires m.sessionId != s
    ensures var res := Step(srv, IsoDatetimes, now, failing, PostChat(s, m));
      && Log(res.server.store, s) == Log(srv.store, s)
      && Log(res.server.store, m.sessionId) == Recent(Log(srv.store, m.sessionId) + [EntryOf(m)], ChatMaxLen)
      && res.out == [Delivery(Members(srv.registry, s) - failing, ChatBroadcast(m))]
      && !res.raised
  {
  }

  /**
   With the standard encoder and a path session with an entry, the posted
   message is logged and then the request fails with nothing broadcast.
   */
  lemma PostChatAsWritten(srv: Server, now: int, failing: set<Handle>, s: SessionId, m: ChatMessage)
    requires s in srv.registry
    ensures var res := Step(srv, StdlibJson, now, failing, PostChat(s, m));
      && Log(res.server.store, m.sessionId) == Recent(Log(srv.store, m.sessionId) + [EntryOf(m)], ChatMaxLen)
      && res.raised && res.out == []
  {
  }

  /** Where no payload carries a datetime, the encoder makes no difference. */
  lemma EncoderIrrelevantWithoutDatetimes(srv: Server, now: int, failing: set<Handle>, ev: Event)
    requires Enabled(srv, ev)
    requires ev.Close? || ev.Malformed? || (ev.Open? && GetCanvasState(srv.store, now, ev.session).None?)
    ensures Step(srv, StdlibJson, now, failing, ev) == Step(srv, IsoDatetimes, now, failing, ev)
  {
  }

  /** A step leaves the registry entry of every uninvolved session as it was. */
  lemma StepKeepsOtherEntries(srv: Server, enc: Encoder, now: int, failing: set<Handle>, ev: Event, t: SessionId)
    requires Enabled(srv, ev)
    requires t != EventSession(srv, ev)
    ensures Members(Step(srv, enc, now, failing, ev).server.registry, t) == Members(srv.registry, t)
  {
  }

  /** A step leaves the snapshot of every uninvolved session as it was. */
  lemma StepKeepsOtherCanvases(srv: Server, enc: Encoder, now: int, failing: set<Handle>, ev: Event, t: SessionId, later: int)
    requires Enabled(srv, ev)
    requires t != EventSession(srv, ev)
    ensures GetCanvasState(Step(srv, enc, now, failing, ev).server.store, later, t) == GetCanvasState(srv.store, later, t)
  {
  }

  /** A step appends to no chat log but the one its message names. */
  lemma StepKeepsOtherLogs(srv: Server, enc: Encoder, now: int, failing: set<Handle>, ev: Event, t: SessionId)
    requires Enabled(srv, ev)
    requires t !in ChatWritten(ev)
    ensures Log(Step(srv, enc, now, failing, ev).server.store, t) == Log(srv.store, t)
  {
  }

  /**
   Two handles in one session; the first closes with no failing sends: the
   second hears `user_disconnected` with one active user and is alone.
   */
  lemma TwoUsersOneLeaves(store: Store, enc: Encoder, now: int)
    ensures var h1, h2 := Handle(1), Handle(2);
      var srv := Server(map["s1" := {h1, h2}], store, map[h1 := "s1", h2 := "s1"]);
      var res := Step(srv, enc, now, {}, Close(h1));
      && res.out == [Delivery({h2}, UserDisconnected(1))]
      && SessionCount(res.server.registry, "s1") == 1
  {
    var h1, h2 := Handle(1), Handle(2);
    assert {h1, h2} - {h1} == {h2};
    assert |{h2}| == 1;
  }
}
