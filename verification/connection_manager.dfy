/**
 The registry of live connections: for each session, the set of handles
 currently connected to it, and the best-effort fan-out over that set.
 The registry is a value; every operation returns the new registry.
 */
module ConnectionManager {
  import opened Wrappers
  import opened Models

  /** One live connection, known only by its identity. */
  datatype Handle = Handle(id: nat)

  type Registry = map<SessionId, set<Handle>>

  /** The handles registered under `s`, empty when `s` has no entry. */
  function Members(r: Registry, s: SessionId): set<Handle> {
    if s in r then r[s] else {}
  }

  /** The registry invariant: no session maps to an empty set. */
  ghost predicate NoEmptySessions(r: Registry) {
    forall s :: s in r ==> r[s] != {}
  }

  /** `r'` agrees with `r` on every session other than `s`. */
  ghost predicate SameElsewhere(r: Registry, r': Registry, s: SessionId) {
    forall t :: t != s ==> (t in r <==> t in r') && (t in r ==> r[t] == r'[t])
  }

  /** `r'` holds no session and no handle that `r` did not. */
  ghost predicate Shrinks(r: Registry, r': Registry) {
    forall t :: t in r' ==> t in r && r'[t] <= r[t]
  }

  /** `connect`: create the entry if absent, then add the handle. */
  function Connect(r: Registry, s: SessionId, h: Handle): (r': Registry)
    ensures s in r' && r'.Keys == r.Keys + {s}
    ensures Members(r', s) == Members(r, s) + {h}
    ensures SameElsewhere(r, r', s)
    ensures NoEmptySessions(r) ==> NoEmptySessions(r')
  {
    r[s := Members(r, s) + {h}]
  }

  /** `disconnect`: discard the handle, and delete the entry once it is empty. */
  function Disconnect(r: Registry, s: SessionId, h: Handle): (r': Registry)
    ensures s !in r ==> r' == r
    ensures Members(r', s) == Members(r, s) - {h}
    ensures s in r' <==> Members(r, s) - {h} != {}
    ensures SameElsewhere(r, r', s)
    ensures Shrinks(r, r')
    ensures NoEmptySessions(r) ==> NoEmptySessions(r')
  {
    if s !in r then r
    else if r[s] - {h} == {} then r - {s}
    else r[s := r[s] - {h}]
  }

  /** `get_session_count`. */
  function SessionCount(r: Registry, s: SessionId): (n: nat)
    ensures n == |Members(r, s)|
    ensures NoEmptySessions(r) ==> (n == 0 <==> s !in r)
  {
    if s in r then |r[s]| else 0
  }

  /** Re-connecting a handle already present changes nothing, so the count is unchanged. */
  lemma ConnectIdempotent(r: Registry, s: SessionId, h: Handle)
    requires h in Members(r, s)
    ensures Connect(r, s, h) == r
    ensures SessionCount(Connect(r, s, h), s) == SessionCount(r, s)
  {
    assert Members(r, s) + {h} == r[s];
  }

  /** Connecting a new handle raises the count by exactly one. */
  lemma ConnectCount(r: Registry, s: SessionId, h: Handle)
    requires h !in Members(r, s)
    ensures SessionCount(Connect(r, s, h), s) == SessionCount(r, s) + 1
  {
  }

  /** Disconnecting a handle that is not registered under `s` is a no-op on a well-formed registry. */
  lemma DisconnectAbsentIsNoop(r: Registry, s: SessionId, h: Handle)
    requires NoEmptySessions(r)
    requires h !in Members(r, s)
    ensures Disconnect(r, s, h) == r
  {
    if s in r {
      assert r[s] - {h} == r[s];
    }
  }

  /** Disconnect undoes a connect of a fresh handle. */
  lemma DisconnectUndoesConnect(r: Registry, s: SessionId, h: Handle)
    requires NoEmptySessions(r)
    requires h !in Members(r, s)
    ensures Disconnect(Connect(r, s, h), s, h) == r
  {
  }

  /** The registry after the handles in `gone` leave session `s`, pruning the entry if it empties. */
  function RemoveAll(r: Registry, s: SessionId, gone: set<Handle>): (r': Registry)
    ensures Members(r', s) == Members(r, s) - gone
    ensures SameElsewhere(r, r', s)
    ensures Shrinks(r, r')
    ensures NoEmptySessions(r) ==> NoEmptySessions(r')
  {
    if s !in r || gone == {} then r
    else if r[s] - gone == {} then r - {s}
    else r[s := r[s] - gone]
  }

  /** One more disconnect after removing `gone` is removing `gone + {h}`. */
  lemma DisconnectAfterRemoveAll(r: Registry, s: SessionId, gone: set<Handle>, h: Handle)
    ensures Disconnect(RemoveAll(r, s, gone), s, h) == RemoveAll(r, s, gone + {h})
  {
    if s in r && gone != {} && r[s] - gone != {} {
      var m := r[s := r[s] - gone];
      assert r[s] - gone - {h} == r[s] - (gone + {h});
      if r[s] - (gone + {h}) == {} {
        assert m - {s} == r - {s};
      } else {
        assert m[s := r[s] - (gone + {h})] == r[s := r[s] - (gone + {h})];
      }
    } else if s in r && gone == {} {
      assert gone + {h} == {h};
    }
  }

  /** What a broadcast leaves behind: the new registry and the handles that received the message. */
  datatype Fanout = Fanout(registry: Registry, delivered: set<Handle>)

  /**
   `broadcast_to_session`: every handle of `s` is sent the message (there is
   no exclusion, so the originator receives its own update); the sends to
   handles in `failing` raise and those handles are then disconnected.
   */
  function Broadcast(r: Registry, s: SessionId, failing: set<Handle>): (f: Fanout)
    ensures f.delivered == Members(r, s) - failing
    ensures Members(f.registry, s) == Members(r, s) - failing
    ensures s !in r ==> f == Fanout(r, {})
    ensures SameElsewhere(r, f.registry, s)
    ensures Shrinks(r, f.registry)
    ensures NoEmptySessions(r) ==> NoEmptySessions(f.registry)
    ensures NoEmptySessions(r) ==> (s in f.registry <==> Members(r, s) - failing != {})
  {
    var dead := Members(r, s) * failing;
    Fanout(RemoveAll(r, s, dead), Members(r, s) - dead)
  }

  /**
   `broadcast_to_session` with the serialisation of the message made
   explicit. The message is encoded once, after the no-entry check and
   outside the per-handle `try`: a session without an entry is a no-op
   whatever the message, and otherwise an encoding failure raises to the
   caller before any handle is sent anything (None).
   */
  function BroadcastEncoded(r: Registry, s: SessionId, failing: set<Handle>, encodable: bool): (res: Option<Fanout>)
    ensures s !in r ==> res == Some(Fanout(r, {}))
    ensures s in r ==> (res.Some? <==> encodable)
    ensures res.Some? ==> res.value == Broadcast(r, s, failing)
  {
    if s !in r then Some(Fanout(r, {}))
    else if !encodable then None
    else Some(Broadcast(r, s, failing))
  }

  /**
   `broadcast_to_session` step by step: one pass sending to every handle and
   collecting the dead ones, then one pass disconnecting each dead handle.
   Set iteration order is unspecified, so each pass picks an arbitrary element.
   */
  method BroadcastToSession(r: Registry, s: SessionId, failing: set<Handle>) returns (r': Registry, delivered: set<Handle>)
    ensures delivered == Members(r, s) - failing
    ensures Members(r', s) == Members(r, s) - failing
    ensures SameElsewhere(r, r', s)
    ensures Fanout(r', delivered) == Broadcast(r, s, failing)
  {
    if s !in r {
      return r, {};
    }
    var dead: set<Handle> := {};
    delivered := {};
    var pending := r[s];
    while pending != {}
      invariant pending <= r[s]
      invariant dead == (r[s] - pending) * failing
      invariant delivered == (r[s] - pending) - failing
      decreases pending
    {
      var c :| c in pending;
      if c in failing {
        dead := dead + {c};
      } else {
        delivered := delivered + {c};
      }
      pending := pending - {c};
    }
    r' := r;
    var cleanup := dead;
    while cleanup != {}
      invariant cleanup <= dead
      invariant r' == RemoveAll(r, s, dead - cleanup)
      decreases cleanup
    {
      var c :| c in cleanup;
      DisconnectAfterRemoveAll(r, s, dead - cleanup, c);
      r' := Disconnect(r', s, c);
      assert dead - (cleanup - {c}) == (dead - cleanup) + {c};
      cleanup := cleanup - {c};
    }
    assert dead - cleanup == dead;
  }

  /** The set of handles listed in `hs`. */
  function Elems(hs: seq<Handle>): set<Handle> {
    set i | 0 <= i < |hs| :: hs[i]
  }

  /** No handle appears twice in `hs`. */
  predicate Distinct(hs: seq<Handle>) {
    forall i, j :: 0 <= i < j < |hs| ==> hs[i] != hs[j]
  }

  /** `connect` each handle of `hs` to `s`, first to last. */
  function ConnectAll(r: Registry, s: SessionId, hs: seq<Handle>): Registry
    decreases |hs|
  {
    if hs == [] then r else ConnectAll(Connect(r, s, hs[0]), s, hs[1..])
  }

  /** `disconnect` each handle of `hs` from `s`, first to last. */
  function DisconnectAll(r: Registry, s: SessionId, hs: seq<Handle>): Registry
    decreases |hs|
  {
    if hs == [] then r else DisconnectAll(Disconnect(r, s, hs[0]), s, hs[1..])
  }

  lemma ElemsCons(hs: seq<Handle>)
    requires hs != []
    ensures Elems(hs) == {hs[0]} + Elems(hs[1..])
  {
    forall h | h in Elems(hs)
      ensures h in {hs[0]} + Elems(hs[1..])
    {
      var i :| 0 <= i < |hs| && hs[i] == h;
      if i > 0 {
        assert hs[1..][i - 1] == h;
      }
    }
    forall h | h in Elems(hs[1..])
      ensures h in Elems(hs)
    {
      var i :| 0 <= i < |hs[1..]| && hs[1..][i] == h;
      assert hs[i + 1] == h;
    }
  }

  /** A list without repetitions has as many distinct elements as entries. */
  lemma {:induction false} DistinctCardinality(hs: seq<Handle>)
    requires Distinct(hs)
    ensures |Elems(hs)| == |hs|
  {
    if hs != [] {
      ElemsCons(hs);
      DistinctCardinality(hs[1..]);
      assert hs[0] !in Elems(hs[1..]) by {
        forall i | 0 <= i < |hs[1..]|
          ensures hs[1..][i] != hs[0]
        {
          assert hs[1..][i] == hs[i + 1];
        }
      }
    }
  }

  /** Connecting a list of handles adds exactly those handles and touches no other session. */
  lemma {:induction false} ConnectAllMembers(r: Registry, s: SessionId, hs: seq<Handle>)
    ensures Members(ConnectAll(r, s, hs), s) == Members(r, s) + Elems(hs)
    ensures SameElsewhere(r, ConnectAll(r, s, hs), s)
    ensures hs != [] ==> s in ConnectAll(r, s, hs)
    ensures NoEmptySessions(r) ==> NoEmptySessions(ConnectAll(r, s, hs))
    decreases |hs|
  {
    if hs != [] {
      ElemsCons(hs);
      ConnectAllMembers(Connect(r, s, hs[0]), s, hs[1..]);
    }
  }

  /** Disconnecting a list of handles, in that order, is removing them all at once. */
  lemma {:induction false} DisconnectAllIsRemoveAll(r: Registry, s: SessionId, hs: seq<Handle>)
    ensures DisconnectAll(r, s, hs) == RemoveAll(r, s, Elems(hs))
    decreases |hs|
  {
    if hs == [] {
      assert Elems(hs) == {};
    } else {
      ElemsCons(hs);
      DisconnectAllIsRemoveAll(Disconnect(r, s, hs[0]), s, hs[1..]);
      RemoveAllComposes(r, s, hs[0], Elems(hs[1..]));
    }
  }

  lemma RemoveAllComposes(r: Registry, s: SessionId, h: Handle, rest: set<Handle>)
    ensures RemoveAll(Disconnect(r, s, h), s, rest) == RemoveAll(r, s, {h} + rest)
  {
    if s in r && rest != {} && r[s] - {h} != {} {
      var m := r[s := r[s] - {h}];
      assert r[s] - {h} - rest == r[s] - ({h} + rest);
      if r[s] - ({h} + rest) == {} {
        assert m - {s} == r - {s};
      } else {
        assert m[s := r[s] - ({h} + rest)] == r[s := r[s] - ({h} + rest)];
      }
    } else if s in r && rest == {} {
      assert {h} + rest == {h};
    } else if s in r && r[s] - {h} == {} {
      assert r[s] - ({h} + rest) == {};
    }
  }

  /**
   N distinct handles connecting to a session with no entry give a count of
   N; when every one of them disconnects, in any order, the count is 0, the
   entry is pruned, and the registry is back where it started.
   */
  lemma ConnectThenDisconnectEveryone(r: Registry, s: SessionId, hs: seq<Handle>, order: seq<Handle>)
    requires NoEmptySessions(r)
    requires s !in r
    requires Distinct(hs)
    requires Elems(order) == Elems(hs)
    ensures SessionCount(ConnectAll(r, s, hs), s) == |hs|
    ensures s !in DisconnectAll(ConnectAll(r, s, hs), s, order)
    ensures SessionCount(DisconnectAll(ConnectAll(r, s, hs), s, order), s) == 0
    ensures DisconnectAll(ConnectAll(r, s, hs), s, order) == r
  {
    var full := ConnectAll(r, s, hs);
    ConnectAllMembers(r, s, hs);
    DistinctCardinality(hs);
    var empty := DisconnectAll(full, s, order);
    DisconnectAllIsRemoveAll(full, s, order);
    assert Members(empty, s) == {};
    if hs == [] {
      assert full == r;
    } else {
      assert s in full && full[s] == Elems(hs);
      assert s !in empty;
    }
    assert empty.Keys == r.Keys;
  }
}
