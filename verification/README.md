# Isshoni session synchronisation, modelled in Dafny

Isshoni lets several people edit one infrastructure canvas (a graph of AWS
resources and the links between them) and chat, in real time. The backend
keeps three things per collaboration session: the set of live WebSocket
connections (`ConnectionManager`), a canvas snapshot and a chat stream in
Redis (`RedisClient`), and the socket endpoint plus REST handlers that tie
the two together (`main.py`). This project models those three pieces as
pure Dafny functions over immutable values and proves what they promise.

- `wrappers.dfy` — `Option`, the shape of `Optional[...]` returns and of calls
  that may raise.
- `models.dfy` (`Models`) — `AwsResource`, `Connection`, `CanvasState`,
  `ChatMessage` with their defaults; the eight resource-type literals.
- `connection_manager.dfy` (`ConnectionManager`) — the registry as a
  `map<SessionId, set<Handle>>`: connect, disconnect, count, and broadcast
  with pruning of handles whose send fails. A handle is an opaque identity;
  the sends that fail are an input set. `BroadcastToSession` runs the two
  loops of `broadcast_to_session` (send to every handle collecting the dead
  ones, then disconnect each dead one) in an arbitrary order and is proved
  equal to the set-level `Broadcast`. `BroadcastEncoded` adds the one
  serialisation of the message, which may raise before anything is sent.
- `session_store.dfy` (`SessionStore`) — the store as two maps: session to
  snapshot plus expiry instant (integer clock, 86400 s window), and session
  to chat log (kept to the last 1000 entries).
- `gateway.dfy` (`Gateway`) — a step function over the server state
  (registry, store, and which sockets still run their receive loop) driven
  by events: a socket opens, sends a frame (with a type and data), sends
  something undecodable, or disconnects; and the two REST posts. Each step
  returns the new state, every message sent (tagged with the handles that
  received it) and whether the handler raised. The JSON encoder is a
  parameter (`Encoder`): `StdlibJson` is `json.dumps` as called, which cannot
  serialise the datetimes that `model_dump()` leaves in canvases and chat
  messages; `IsoDatetimes` writes them as ISO strings. `Personal` is
  `send_personal_message`: one message, one recipient.
- `gateway_properties.dfy` (`GatewayProperties`) — the per-event behaviour,
  both as the code is written (standard encoder) and as evidently intended
  (datetimes encoded); see "Findings".

The registry invariant is that no session maps to an empty set; the server
invariant adds that no handle is registered under two sessions, that a
handle whose loop still runs is registered only under its own session, and
that every chat log holds at most 1000 entries.

## Model

| member | source | states |
|---|---|---|
| Models.ParseResourceType | backend/models.py:12 | a `type` literal is accepted only as the resource kind whose tag it is; anything else is rejected |
| Models.ParseTagRoundTrip | backend/models.py:12 | every one of the eight kinds survives printing its tag and validating it again |
| Models.ParseAcceptsExactlyTags | backend/models.py:12 | a literal is accepted if and only if it is one of vpc, ec2, rds, alb, redis, s3, lambda, apigateway |
| Models.ResourceAndConnectionDefaults | backend/models.py:9-24 | a resource built without them has an empty property map and empty notes; a link built without a kind has kind "default" |
| Models.EmptyCanvas | backend/models.py:27-33 | a canvas built from a session id alone has no resources, no links, an empty prompt, and the current instant |
| ConnectionManager.Connect | backend/websocket_manager.py:15-22 | the session gains an entry if it had none, its set gains the handle, no other session changes, and no entry becomes empty |
| ConnectionManager.ConnectIdempotent | backend/websocket_manager.py:19-22 | connecting a handle that is already there leaves the registry and the count unchanged |
| ConnectionManager.ConnectCount | backend/websocket_manager.py:19-22 | connecting a new handle raises the session count by exactly one |
| ConnectionManager.Disconnect | backend/websocket_manager.py:24-31 | the handle leaves the session's set; the entry survives exactly when others remain; an absent session is untouched; other sessions never change |
| ConnectionManager.DisconnectAbsentIsNoop | backend/websocket_manager.py:26-27 | on a registry without empty entries, disconnecting a handle that is not in the session changes nothing |
| ConnectionManager.DisconnectUndoesConnect | backend/websocket_manager.py:15-31 | disconnecting a freshly connected handle restores the registry exactly, pruning an entry that it had created |
| ConnectionManager.SessionCount | backend/websocket_manager.py:59-63 | the count is the size of the session's set, and on a well-formed registry it is 0 exactly when the session has no entry |
| ConnectionManager.RemoveAll | backend/websocket_manager.py:50-52 | removing a set of handles from a session drops exactly those, prunes the emptied entry, and touches no other session |
| ConnectionManager.DisconnectAfterRemoveAll | backend/websocket_manager.py:50-52 | one more disconnect after removing some handles is the same as removing them all at once, so the cleanup loop's order does not matter |
| ConnectionManager.Broadcast | backend/websocket_manager.py:33-52 | every handle of the session except the failing ones receives the message, with no exclusion of the sender; exactly the failed ones are removed; the entry is pruned if none remain; an absent session sends nothing and changes nothing |
| ConnectionManager.BroadcastToSession | backend/websocket_manager.py:33-52 | the send loop and the cleanup loop, in any iteration order, deliver to the non-failing handles and leave the same registry as `Broadcast` |
| ConnectionManager.BroadcastEncoded | backend/websocket_manager.py:33-39 | a session without an entry is left alone whatever the message; otherwise the broadcast goes ahead exactly when the message serialises, and then it is `Broadcast` |
| ConnectionManager.ConnectAllMembers | backend/websocket_manager.py:19-22 | connecting a list of handles adds exactly the listed handles to the session and nothing elsewhere |
| ConnectionManager.DisconnectAllIsRemoveAll | backend/websocket_manager.py:24-31 | disconnecting a list of handles one by one is removing the set of them at once |
| ConnectionManager.ConnectThenDisconnectEveryone | backend/websocket_manager.py:15-31 | N distinct handles connecting to a new session give a count of N; after all of them disconnect in any order the count is 0, the entry is gone, and the registry is as before |
| SessionStore.SaveCanvasState | backend/redis_client.py:22-29 | the snapshot is stored under the session argument, replacing any earlier one wholesale, with expiry 86400 s after the save; other sessions and the chat logs are untouched |
| SessionStore.GetCanvasState | backend/redis_client.py:31-37 | a snapshot is returned if and only if one is stored and its window has not elapsed, and then it is the stored one |
| SessionStore.CanvasRoundTrip | backend/redis_client.py:22-37 | reading a session after a save returns the saved snapshot for 86400 s and nothing afterwards |
| SessionStore.LastWriteWins | backend/redis_client.py:22-29 | two saves to one session leave exactly what the second one alone would leave: no field-level merge |
| SessionStore.SaveRefreshesTtl | backend/redis_client.py:25-28 | a later save restarts the 86400 s window |
| SessionStore.SaveCanvasIsolated | backend/redis_client.py:22-29 | saving one session's snapshot does not change what any other session reads |
| SessionStore.SaveChatMessage | backend/redis_client.py:50-62 | the message is appended to the log of its own session and becomes its newest entry; the log keeps the last 1000 entries; other logs and the snapshots are untouched |
| SessionStore.ChatRetainsMostRecent | backend/redis_client.py:50-62 | after any number of messages to a session, its log is the last min(n, 1000) entries of everything appended, in append order |
| SessionStore.ApproximateTrimKeepsRecent | backend/redis_client.py:53-62 | a log trimmed approximately, keeping at least the last 1000 appended entries, ends with the same 1000 entries as the exactly trimmed one |
| SessionStore.XRevRange | backend/redis_client.py:67 | the read returns the `count` newest entries (all of them if fewer), newest first |
| SessionStore.Reversed | backend/redis_client.py:70 | the result holds the same entries in the opposite order |
| SessionStore.ReadRecent | backend/redis_client.py:67-70 | reading newest first with a count and then reversing yields exactly the `count` most recent entries of the log, oldest first |
| SessionStore.GetChatHistory | backend/redis_client.py:64-78 | a count below 1 fails (redis-py refuses it); otherwise the result is the min(count, log length) most recent entries, oldest first, each with the requested session id and its stored user, name, text and timestamp unchanged |
| SessionStore.ChatEntryRoundTrip | backend/redis_client.py:50-78 | a message stored as a stream entry and read back under its own session is the message that was saved |
| SessionStore.OldestMessageEvicted | backend/redis_client.py:50-78 | after 1001 messages to an empty session, reading 1000 returns every message except the first, oldest first |
| Gateway.Personal | backend/websocket_manager.py:54-57 | the message reaches exactly the one handle if it serialises and nobody otherwise |
| Gateway.Fan | backend/websocket_manager.py:33-52 | a broadcast from the gateway raises, changing nothing and sending nothing, exactly when the session has an entry and the message does not serialise; otherwise every non-failing handle receives it and the failing ones are pruned |
| Gateway.Abandon | backend/main.py:204-237 | leaving the receive loop on an error other than a disconnect keeps the registry and store, sends nothing, reports the exception, and removes exactly that socket from the running loops |
| Gateway.OnOpen | backend/main.py:179-201 | the handle is registered before the `connected` reply, so the reply's count includes it and is at least 1; with a live snapshot stored, `canvas_state` follows if it serialises and otherwise the endpoint raises before its loop starts, leaving the handle registered |
| Gateway.OnFrame | backend/main.py:204-235 | a valid `canvas_update` is stored for the socket's session, readable for 86400 s and not after, with every other session's snapshot unchanged; a valid `chat_message` is logged under its own session with every other log unchanged; either is then broadcast to the socket's session; if that broadcast raises nothing is sent, the registry is unchanged and the loop ends, and otherwise the session loses exactly its failing handles; bad data ends the loop; any other type changes nothing |
| Gateway.OnClose | backend/main.py:237-246 | the handle is removed first, then `user_disconnected` with the count without it goes to the remaining handles that do not fail; this message always serialises |
| Gateway.UpdateCanvasState | backend/main.py:71-86 | the posted canvas is readable under the path session for 86400 s and not after, and no other session's snapshot changes; it is broadcast as `canvas_update` to every non-failing handle of that session, or the request fails after the save with nothing sent |
| Gateway.SendChatMessage | backend/main.py:96-111 | the posted message becomes the newest entry of its own session's log and no other log changes; it is broadcast to the path session's handles, or the request fails after the save with nothing sent |
| Gateway.GetCanvas | backend/main.py:62-68 | the live stored snapshot if there is one, otherwise a canvas for the path session with no resources, no links and an empty prompt |
| Gateway.GetChat | backend/main.py:89-93 | the chat endpoint returns the most recent `count` entries of the session's log (50 when no count is given), all of that session; a count below 1 fails the request |
| Gateway.Step | backend/main.py:176-246 | every event keeps the invariant (no empty session entry, no handle under two sessions, a live loop's handle registered only under its session, chat logs bounded); a loop starts only on its own connect; REST requests leave the loops alone; a disconnect always ends its loop; a socket handler that raised has ended its loop |
| GatewayProperties.InitialInv | backend/websocket_manager.py:11-13 | the empty server satisfies the invariant |
| GatewayProperties.OpenRegistersBeforeReplying | backend/main.py:179-190 | after a connect the handle is registered, the count is one more than before, and the reply reports that count, whatever the encoder |
| GatewayProperties.OpenSendsSnapshot | backend/main.py:193-204 | with datetimes encoded, a snapshot follows exactly when one is stored and the receive loop starts |
| GatewayProperties.OpenWithSnapshotAsWritten | backend/main.py:193-201 | with `json.dumps` and a stored snapshot, only `connected` is sent, the endpoint raises before its loop, and the handle stays registered with no loop to unregister it |
| GatewayProperties.CanvasFrameReachesSender | backend/main.py:210-222 | with datetimes encoded, a `canvas_update` frame replaces the session's snapshot and reaches every non-failing handle of the session, the sender included; the loop goes on |
| GatewayProperties.CanvasFrameAsWritten | backend/main.py:210-222 | with `json.dumps` and a session with an entry, the update is stored, nothing is sent, the registry is unchanged and the sender's loop ends |
| GatewayProperties.CanvasUpdateLostAsWritten | backend/main.py:210-222 | two handles in one session, `json.dumps`: the first one's update is stored, nobody receives it, its loop ends and it stays registered |
| GatewayProperties.ChatFrameRouting | backend/main.py:224-235 | with datetimes encoded, a `chat_message` frame is logged under the message's own session, leaves every other log and all snapshots alone, and is broadcast to the socket's session; the loop goes on |
| GatewayProperties.ChatFrameAsWritten | backend/main.py:224-235 | with `json.dumps` and a session with an entry, the message is logged, nothing is sent, the registry is unchanged and the sender's loop ends |
| GatewayProperties.CanvasFrameRoundTrip | backend/main.py:210-213 | a canvas sent over a socket is what the GET handler returns for the next 86400 s and the empty canvas afterwards, under either encoder |
| GatewayProperties.UnknownFrameIgnored | backend/main.py:208-235 | a frame of any other type, or with no type, leaves the whole server unchanged and sends nothing |
| GatewayProperties.BadFrameLeavesHandleRegistered | backend/main.py:204-237 | undecodable text or data the model rejects ends the loop without unregistering, so the handle stays in the registry |
| GatewayProperties.UnvalidatedCanvasAccepted | backend/models.py:27-33 | a canvas with a repeated resource id or a link to a missing resource is stored as sent and, with datetimes encoded, broadcast to every non-failing handle of the session while the loop goes on: nothing checks either |
| GatewayProperties.CloseUnregistersThenAnnounces | backend/main.py:237-246 | after a disconnect the handle is registered nowhere, its loop has ended, and the others hear the post-removal count; the leaver is not among the recipients |
| GatewayProperties.PostCanvasRoundTrip | backend/main.py:62-86 | a canvas posted over REST is what the GET handler returns for the next 86400 s |
| GatewayProperties.PostCanvasBroadcast | backend/main.py:76-83 | with datetimes encoded, a posted canvas reaches every non-failing handle of the path session and the request succeeds |
| GatewayProperties.PostCanvasAsWritten | backend/main.py:71-86 | with `json.dumps` and a path session with an entry, the canvas is saved and the request then fails with nothing broadcast |
| GatewayProperties.CanvasKeyedByPathSession | backend/main.py:71-75 | a canvas whose own session id differs from the path is filed and read back under the path session, and the session it names is unaffected |
| GatewayProperties.PostCanvasExpires | backend/main.py:62-68 | once the window has passed the GET handler returns the empty canvas of the path session |
| GatewayProperties.PostChatRouting | backend/main.py:96-111 | with datetimes encoded, a message naming another session than the path is logged under the session it names and delivered to the path session's handles |
| GatewayProperties.PostChatAsWritten | backend/main.py:96-111 | with `json.dumps` and a path session with an entry, the message is logged and the request then fails with nothing broadcast |
| GatewayProperties.EncoderIrrelevantWithoutDatetimes | backend/main.py:237-246 | a disconnect, an undecodable frame, or a connect with no snapshot stored behaves the same under either encoder |
| GatewayProperties.StepKeepsOtherEntries | backend/main.py:176-246 | an event changes the registry entry of no session but its own (the socket's or the path's) |
| GatewayProperties.StepKeepsOtherCanvases | backend/main.py:176-246 | an event changes the readable snapshot of no session but its own, at any later instant |
| GatewayProperties.StepKeepsOtherLogs | backend/main.py:176-246 | an event changes no chat log except the one its chat message names, whatever the path or socket session |
| GatewayProperties.TwoUsersOneLeaves | backend/main.py:237-246 | with two handles in a session, when one disconnects the other receives `user_disconnected` with one active user and is alone |

## Behaviour worth knowing

- A frame that is not JSON, or whose data does not validate, is not rejected on its own: the exception ends the receive loop and, since only `WebSocketDisconnect` is caught, the handle is never unregistered (`BadFrameLeavesHandleRegistered`). It stays in the registry until a later broadcast to it fails.
- Broadcast never excludes anyone, although the comment at backend/main.py:215 says "Broadcast to others": with datetimes encoded the originator of an update receives it too (`CanvasFrameReachesSender`). As written, no update reaches anyone once the session has an entry (see Findings).
- On connect the snapshot is sent whenever a live one is stored, including a canvas that is still empty. With datetimes encoded it is delivered (`OpenSendsSnapshot`); as written, sending it raises (see Findings).
- The chat stream is trimmed approximately (`maxlen=1000` with redis-py's default approximate trim), so it may hold more than 1000 entries; the model trims to exactly 1000 (see below).

## Findings

| source | as written | input that shows it | evidently intended | confidence | as-written member | corrected member |
|---|---|---|---|---|---|---|
| backend/websocket_manager.py:39 | `broadcast_to_session` serialises `model_dump()` output with plain `json.dumps`, which raises `TypeError` on the canvas's `last_updated` datetime; the socket handler has already saved the canvas, sends nothing, and its loop ends with the handle still registered | two handles in session "s1", the first sends a `canvas_update` frame | the update is broadcast to every handle of the session and the loop goes on | high (not executed) | GatewayProperties.CanvasUpdateLostAsWritten | GatewayProperties.CanvasFrameReachesSender |
| backend/websocket_manager.py:39 | the same for a `chat_message` frame: the message's `timestamp` makes the broadcast raise after the message is logged | any handle whose session has an entry sends a valid `chat_message` frame | the message is broadcast and the loop goes on | high (not executed) | GatewayProperties.ChatFrameAsWritten | GatewayProperties.ChatFrameRouting |
| backend/websocket_manager.py:39 | `POST /api/sessions/{s}/canvas` saves the canvas, then the broadcast raises and the request fails | a canvas posted to a session with a connected socket | the canvas is broadcast and the request succeeds | high (not executed) | GatewayProperties.PostCanvasAsWritten | GatewayProperties.PostCanvasBroadcast |
| backend/websocket_manager.py:39 | `POST /api/sessions/{s}/chat` logs the message, then the broadcast raises and the request fails | a message posted to a session with a connected socket | the message is broadcast and the request succeeds | high (not executed) | GatewayProperties.PostChatAsWritten | GatewayProperties.PostChatRouting |
| backend/websocket_manager.py:56 | `send_personal_message` serialises the snapshot with plain `json.dumps`, which raises on `last_updated`; the endpoint ends before its receive loop with the handle registered | a socket connects to a session whose canvas was saved less than 86400 s before | the snapshot is sent and the receive loop starts | high (not executed) | GatewayProperties.OpenWithSnapshotAsWritten | GatewayProperties.OpenSendsSnapshot |

Every handler takes the encoder as a parameter, so the model covers both: `StdlibJson` is the code as written, `IsoDatetimes` the evidently intended encoding. A message without datetimes (`connected`, `user_disconnected`) serialises under either.

## Left out

- Transport: accepting the socket, receiving text, and pydantic validation. A frame's data is given as what validation yields under each model (`Payload`). Of JSON encoding only whether a message serialises is modelled (`Encodes`); the text produced is not.
- Personal sends (`connected`, `canvas_state`) whose transport fails are assumed to succeed; only a serialisation failure is modelled there.
- Concurrency: interleaving at `await` points, including a registry change while a broadcast iterates. Each manager operation and each gateway step is atomic; delivery is a set of recipients, not an order.
- Store failures (Redis unreachable): every store call succeeds.
- Redis pub/sub (`publish_canvas_update`, `subscribe_to_canvas`, `publish_chat_message`): not called by any endpoint.
- Code generation and deployment endpoints, `ai_generator.py`, `terraform_executor.py` and the Streamlit front end: adapters over external services and UI.
- Floats, property values and timestamps: coordinates are `real`, property maps hold text values, timestamps are opaque integers that survive their ISO-8601 round trip.
- SessionStore.SaveChatMessage: trims to exactly 1000 entries, while redis-py's `xadd` trims approximately by default, so the real stream may hold more. `ApproximateTrimKeepsRecent` shows that the last 1000 entries are the same either way, so `ChatRetainsMostRecent` describes the last 1000 entries of the real stream; a history read of more than 1000 entries may return older entries on the real stream that the model has dropped.
- SessionStore.GetCanvasState: time is whole seconds and a snapshot counts as expired once 86400 s have elapsed; Redis works in milliseconds.
- GatewayProperties.OpenSendsSnapshot: states the connect behaviour under `IsoDatetimes` only; with `json.dumps` as written the snapshot send raises (`OpenWithSnapshotAsWritten`, see Findings).
- GatewayProperties.CanvasFrameReachesSender: states the broadcast under `IsoDatetimes` only; as written it raises once the session has an entry (`CanvasFrameAsWritten`, `CanvasUpdateLostAsWritten`).
- GatewayProperties.ChatFrameRouting: states the broadcast under `IsoDatetimes` only; as written it raises once the session has an entry (`ChatFrameAsWritten`).
- GatewayProperties.PostChatRouting: states the broadcast under `IsoDatetimes` only; as written the request fails after logging the message (`PostChatAsWritten`).
- GatewayProperties.PostCanvasBroadcast: states the broadcast under `IsoDatetimes` only; as written the request fails after saving the canvas (`PostCanvasAsWritten`).
