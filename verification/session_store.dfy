/**
 The session state store, seen as two maps: session to canvas snapshot
 (with the instant it expires) and session to chat log. Time is an integer
 count of seconds supplied by the caller; serialisation to JSON and back
 is the identity.
 */
module SessionStore {
  import opened Wrappers
  import opened Models

  /** `setex` window of a canvas snapshot: 24 hours, in seconds. */
  const CanvasTtl: int := 3600 * 24

  /** `maxlen` of a chat stream. */
  const ChatMaxLen: nat := 1000

  datatype CanvasEntry = CanvasEntry(state: CanvasState, expiresAt: int)

  /** The four fields written into the chat stream; the session is the stream's key. */
  datatype ChatEntry = ChatEntry(userId: string, username: string, message: string, timestamp: Timestamp)

  datatype Store = Store(canvases: map<SessionId, CanvasEntry>, chats: map<SessionId, seq<ChatEntry>>)

  const EmptyStore: Store := Store(map[], map[])

  function Min(a: int, b: int): int {
    if a <= b then a else b
  }

  /** The last `n` entries of `xs`, or all of them when there are fewer. */
  function Recent<T>(xs: seq<T>, n: nat): (r: seq<T>)
    ensures |r| == Min(n, |xs|)
  {
    xs[|xs| - Min(n, |xs|)..]
  }

  /** `save_canvas_state`: keyed by the `session_id` argument, whatever `state.sessionId` says. */
  function SaveCanvasState(st: Store, now: int, s: SessionId, state: CanvasState): (st': Store)
    ensures s in st'.canvases && st'.canvases[s] == CanvasEntry(state, now + CanvasTtl)
    ensures forall t :: t != s ==> (t in st'.canvases <==> t in st.canvases)
    ensures forall t :: t != s && t in st.canvases ==> st'.canvases[t] == st.canvases[t]
    ensures st'.chats == st.chats
  {
    st.(canvases := st.canvases[s := CanvasEntry(state, now + CanvasTtl)])
  }

  /** `get_canvas_state`: the stored snapshot while it has not expired, otherwise None. */
  function GetCanvasState(st: Store, now: int, s: SessionId): (r: Option<CanvasState>)
    ensures r.Some? <==> s in st.canvases && now < st.canvases[s].expiresAt
    ensures r.Some? ==> r.value == st.canvases[s].state
  {
    if s in st.canvases && now < st.canvases[s].expiresAt then Some(st.canvases[s].state) else None
  }

  /** A snapshot reads back unchanged for 86400 s after it was saved, and not after. */
  lemma CanvasRoundTrip(st: Store, saved: int, s: SessionId, state: CanvasState, now: int)
    requires saved <= now
    ensures GetCanvasState(SaveCanvasState(st, saved, s, state), now, s)
            == (if now - saved < CanvasTtl then Some(state) else None)
  {
  }

  /** A save replaces the previous snapshot wholesale: the last write wins, with no merge. */
  lemma LastWriteWins(st: Store, t1: int, t2: int, s: SessionId, a: CanvasState, b: CanvasState)
    ensures SaveCanvasState(SaveCanvasState(st, t1, s, a), t2, s, b) == SaveCanvasState(st, t2, s, b)
  {
  }

  /** Each save restarts the expiry window, however old the previous snapshot. */
  lemma SaveRefreshesTtl(st: Store, t1: int, t2: int, s: SessionId, a: CanvasState, b: CanvasState, now: int)
    requires t1 <= t2 <= now < t2 + CanvasTtl
    ensures GetCanvasState(SaveCanvasState(SaveCanvasState(st, t1, s, a), t2, s, b), now, s) == Some(b)
  {
  }

  /** Saving under one session leaves every other session's snapshot readable as before. */
  lemma SaveCanvasIsolated(st: Store, saved: int, s: SessionId, state: CanvasState, now: int, other: SessionId)
    requires other != s
    ensures GetCanvasState(SaveCanvasState(st, saved, s, state), now, other) == GetCanvasState(st, now, other)
  {
  }

  /** The chat log of `s`, empty when the stream does not exist. */
  function Log(st: Store, s: SessionId): seq<ChatEntry> {
    if s in st.chats then st.chats[s] else []
  }

  /** The stream fields written for one message. */
  function EntryOf(m: ChatMessage): ChatEntry {
    ChatEntry(m.userId, m.username, m.message, m.timestamp)
  }

  /** The message rebuilt from a stream entry read under session `s`. */
  function MessageOf(s: SessionId, e: ChatEntry): ChatMessage {
    ChatMessage(s, e.userId, e.username, e.message, e.timestamp)
  }

  function Entries(ms: seq<ChatMessage>): (es: seq<ChatEntry>)
    ensures |es| == |ms|
    ensures forall i :: 0 <= i < |ms| ==> es[i] == EntryOf(ms[i])
  {
    seq(|ms|, i requires 0 <= i < |ms| => EntryOf(ms[i]))
  }

  /** Every chat log holds at most `ChatMaxLen` entries. */
  ghost predicate ChatsBounded(st: Store) {
    forall s :: s in st.chats ==> |st.chats[s]| <= ChatMaxLen
  }

  /**
   `save_chat_message`: append to the stream keyed by the message's own
   session, then trim the oldest entries beyond `ChatMaxLen`.
   */
  function SaveChatMessage(st: Store, m: ChatMessage): (st': Store)
    ensures var log, log' := Log(st, m.sessionId), Log(st', m.sessionId);
      && log' == Recent(log + [EntryOf(m)], ChatMaxLen)
      && |log'| == Min(|log| + 1, ChatMaxLen)
      && log'[|log'| - 1] == EntryOf(m)
    ensures forall t :: t != m.sessionId ==> Log(st', t) == Log(st, t)
    ensures ChatsBounded(st) ==> ChatsBounded(st')
    ensures st'.canvases == st.canvases
  {
    var log := Log(st, m.sessionId) + [EntryOf(m)];
    st.(chats := st.chats[m.sessionId := Recent(log, ChatMaxLen)])
  }

  /** Save each message of `ms`, first to last. */
  function SaveChatMessages(st: Store, ms: seq<ChatMessage>): Store
    decreases |ms|
  {
    if ms == [] then st else SaveChatMessages(SaveChatMessage(st, ms[0]), ms[1..])
  }

  /** Trimming a sequence that already contains the last `n` entries of `ws` gives them back. */
  lemma RecentOfSuffix<T>(zs: seq<T>, ws: seq<T>, n: nat)
    requires |zs| <= |ws| && zs == ws[|ws| - |zs|..]
    requires |zs| >= Min(n, |ws|)
    ensures Recent(zs, n) == Recent(ws, n)
  {
    var k := Min(n, |ws|);
    assert Min(n, |zs|) == k;
    assert zs[|zs| - k..] == ws[|ws| - k..];
  }

  /** Trimming, appending, and trimming again is appending then trimming. */
  lemma RecentAppend<T>(xs: seq<T>, ys: seq<T>, n: nat)
    ensures Recent(Recent(xs, n) + ys, n) == Recent(xs + ys, n)
  {
    var zs := Recent(xs, n) + ys;
    var ws := xs + ys;
    assert zs == ws[|ws| - |zs|..];
    RecentOfSuffix(zs, ws, n);
  }

  /**
   Whatever the number of messages appended to a session, its log is the
   last `ChatMaxLen` of everything ever appended, in append order.
   */
  lemma {:induction false} ChatRetainsMostRecent(st: Store, s: SessionId, ms: seq<ChatMessage>)
    requires forall i :: 0 <= i < |ms| ==> ms[i].sessionId == s
    requires |Log(st, s)| <= ChatMaxLen
    ensures Log(SaveChatMessages(st, ms), s) == Recent(Log(st, s) + Entries(ms), ChatMaxLen)
    decreases |ms|
  {
    var log := Log(st, s);
    if ms == [] {
      assert log + Entries(ms) == log;
    } else {
      var e0, rest := EntryOf(ms[0]), ms[1..];
      var st1 := SaveChatMessage(st, ms[0]);
      assert forall i :: 0 <= i < |rest| ==> rest[i].sessionId == s by {
        forall i | 0 <= i < |rest| ensures rest[i].sessionId == s {
          assert rest[i] == ms[i + 1];
        }
      }
      ChatRetainsMostRecent(st1, s, rest);
      calc {
        Log(SaveChatMessages(st, ms), s);
        Log(SaveChatMessages(st1, rest), s);
        Recent(Log(st1, s) + Entries(rest), ChatMaxLen);
        Recent(Recent(log + [e0], ChatMaxLen) + Entries(rest), ChatMaxLen);
        { RecentAppend(log + [e0], Entries(rest), ChatMaxLen); }
        Recent(log + [e0] + Entries(rest), ChatMaxLen);
        { AppendEntriesCons(log, ms); }
        Recent(log + Entries(ms), ChatMaxLen);
      }
    }
  }

  lemma AppendEntriesCons(log: seq<ChatEntry>, ms: seq<ChatMessage>)
    requires ms != []
    ensures log + [EntryOf(ms[0])] + Entries(ms[1..]) == log + Entries(ms)
  {
    var tail := [EntryOf(ms[0])] + Entries(ms[1..]);
    forall i | 0 <= i < |ms|
      ensures tail[i] == Entries(ms)[i]
    {
      if i > 0 {
        assert tail[i] == Entries(ms[1..])[i - 1] == EntryOf(ms[i]);
      }
    }
    assert tail == Entries(ms);
    assert log + [EntryOf(ms[0])] + Entries(ms[1..]) == log + tail;
  }

  /** XREVRANGE with a positive COUNT: at most `count` entries, newest first. */
  function XRevRange(log: seq<ChatEntry>, count: nat): (r: seq<ChatEntry>)
    ensures |r| == Min(count, |log|)
    ensures forall i :: 0 <= i < |r| ==> r[i] == log[|log| - 1 - i]
    decreases |log|
  {
    if count == 0 || log == [] then []
    else [log[|log| - 1]] + XRevRange(log[..|log| - 1], count - 1)
  }

  /** Python's `reversed`. */
  function Reversed<T>(xs: seq<T>): (r: seq<T>)
    ensures |r| == |xs|
    ensures forall i :: 0 <= i < |xs| ==> r[i] == xs[|xs| - 1 - i]
    decreases |xs|
  {
    if xs == [] then [] else [xs[|xs| - 1]] + Reversed(xs[..|xs| - 1])
  }

  /** The messages of session `s` rebuilt from stream entries, in the same order. */
  function ToMessages(s: SessionId, es: seq<ChatEntry>): (msgs: seq<ChatMessage>)
    ensures Entries(msgs) == es
    ensures forall i :: 0 <= i < |msgs| ==> msgs[i].sessionId == s
  {
    var msgs := seq(|es|, i requires 0 <= i < |es| => MessageOf(s, es[i]));
    assert forall i :: 0 <= i < |es| ==> Entries(msgs)[i] == es[i];
    msgs
  }

  /** Reading newest first and reversing yields the most recent entries oldest first. */
  lemma ReversedRevRangeIsRecent(log: seq<ChatEntry>, count: nat)
    ensures Reversed(XRevRange(log, count)) == Recent(log, count)
  {
    var newestFirst := XRevRange(log, count);
    var r := Reversed(newestFirst);
    var want := Recent(log, count);
    assert |r| == |want|;
    forall i | 0 <= i < |r|
      ensures r[i] == want[i]
    {
      assert r[i] == newestFirst[|newestFirst| - 1 - i];
    }
  }

  /** `xrevrange` then `reversed`: the `count` most recent entries, oldest first. */
  function ReadRecent(log: seq<ChatEntry>, count: nat): (es: seq<ChatEntry>)
    ensures es == Recent(log, count)
  {
    ReversedRevRangeIsRecent(log, count);
    Reversed(XRevRange(log, count))
  }

  /**
   `get_chat_history`: the `count` most recent entries, oldest first, each
   rebuilt as a message of the session that was asked for. redis-py rejects
   a count below 1 with `DataError` before reaching Redis: None.
   */
  function GetChatHistory(st: Store, s: SessionId, count: int := 50): (r: Option<seq<ChatMessage>>)
    ensures r.None? <==> count < 1
    ensures r.Some? ==> count >= 1 && Entries(r.value) == Recent(Log(st, s), count)
    ensures r.Some? ==> forall i :: 0 <= i < |r.value| ==> r.value[i].sessionId == s
  {
    if count < 1 then None else Some(ToMessages(s, ReadRecent(Log(st, s), count)))
  }

  /** A stored entry read back under its own session is the message that was saved. */
  lemma ChatEntryRoundTrip(m: ChatMessage)
    ensures MessageOf(m.sessionId, EntryOf(m)) == m
  {
  }

  /**
   Approximate trimming (`MAXLEN ~`) may keep more than `ChatMaxLen`
   entries, but any log that keeps at least the last `ChatMaxLen` appended
   entries as a suffix ends with the same entries as the exactly trimmed one.
   */
  lemma ApproximateTrimKeepsRecent(kept: seq<ChatEntry>, all: seq<ChatEntry>)
    requires |kept| <= |all| && kept == all[|all| - |kept|..]
    requires |kept| >= Min(ChatMaxLen, |all|)
    ensures Recent(kept, ChatMaxLen) == Recent(all, ChatMaxLen)
  {
    RecentOfSuffix(kept, all, ChatMaxLen);
  }

  /**
   After 1001 messages to a session with an empty log, reading 1000 back
   gives every message but the first, oldest first.
   */
  lemma OldestMessageEvicted(st: Store, s: SessionId, ms: seq<ChatMessage>)
    requires Log(st, s) == []
    requires |ms| == ChatMaxLen + 1
    requires forall i :: 0 <= i < |ms| ==> ms[i].sessionId == s
    ensures var h := GetChatHistory(SaveChatMessages(st, ms), s, 1000);
      h.Some? && Entries(h.value) == Entries(ms[1..])
  {
    ChatRetainsMostRecent(st, s, ms);
    assert [] + Entries(ms) == Entries(ms);
    assert Entries(ms)[1..] == Entries(ms[1..]);
  }
}
