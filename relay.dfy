/**
 The participant registry of the chat server as a sequential state machine
 over values. Each step function is one atomic step of `ChatServer` in
 server.py; the class in module Server is proved to perform exactly these
 steps. Connections are abstract ids, the outcome of every send is an input
 (the set of connections whose send fails during that step), and the effect
 on the outside world is a log of delivered messages and a set of closed
 connections.
 */
module Relay {
  import opened Text

  /** A connection, by identity. */
  type ConnId = nat

  datatype Option<T> = None | Some(value: T)

  /** One message that reached a connection. */
  datatype Delivery = Delivery(to: ConnId, text: string)

  /** How a handshake ends (lines 55-65). */
  datatype JoinOutcome = EmptyName | NameTaken | Joined(name: string)

  /**
   One read of the receive loop: a payload (`""` is an orderly close), with
   the clock reading taken if it is broadcast and the connections whose send
   fails during that broadcast; or a read that raises (a reset, or any other
   error, which end the session the same way).
   */
  datatype Recv = Data(text: string, stamp: string, failures: set<ConnId>) | Reset

  /** A connection the listener accepted, with the address it came from. */
  datatype Arrival = Arrival(conn: ConnId, addr: string)

  /**
   The server's state: the registry `clients` (connection to name), the
   iteration order of that dictionary (its insertion order), the messages
   delivered so far, the connections closed by the server, whether the
   listening socket is open, and the banned addresses.
   */
  datatype State = State(
    clients: map<ConnId, string>,
    order: seq<ConnId>,
    outbox: seq<Delivery>,
    closed: set<ConnId>,
    listenerOpen: bool,
    banned: set<string>)

  const Rejection: string := "用户名已存在"
  const ShutdownNotice: string := "SERVER_SHUTDOWN"

  function JoinNotice(name: string): string { "[Server] " + name + " Joined." }
  function ExitNotice(name: string): string { "[Server] " + name + " Exited." }
  function ChatLine(stamp: string, name: string, text: string): string
  {
    "[" + stamp + "] " + name + ": " + text
  }

  /** The state right after construction (server.py:9-16). */
  function Initial(banned: set<string>): State
  {
    State(map[], [], [], {}, true, banned)
  }

  // ---------------------------------------------------------------------
  // Invariant

  ghost predicate Distinct(s: seq<ConnId>)
  {
    forall i, j :: 0 <= i < j < |s| ==> s[i] != s[j]
  }

  /** No two registered connections carry the same name. */
  ghost predicate UniqueNames(m: map<ConnId, string>)
  {
    forall a, b :: a in m && b in m && a != b ==> m[a] != m[b]
  }

  /** The iteration order lists each registered connection exactly once. */
  ghost predicate OrderMatches(s: State)
  {
    && Distinct(s.order)
    && (forall c :: c in s.clients <==> c in s.order)
  }

  /** The registry invariant: the order matches the keys, and names are unique. */
  ghost predicate Inv(s: State)
  {
    OrderMatches(s) && UniqueNames(s.clients)
  }

  // ---------------------------------------------------------------------
  // Helpers over sequences

  /** `s` without the elements in `gone`, in the same order (a `del` on the dictionary). */
  function Drop(s: seq<ConnId>, gone: set<ConnId>): (r: seq<ConnId>)
    ensures forall c :: c in r <==> c in s && c !in gone
    ensures Distinct(s) ==> Distinct(r)
  {
    if s == [] then []
    else
      var rest := Drop(s[1..], gone);
      assert Distinct(s) ==> s[0] !in s[1..];
      if s[0] in gone then rest else [s[0]] + rest
  }

  lemma {:induction false} DropNothing(s: seq<ConnId>)
    ensures Drop(s, {}) == s
  {
    if s != [] {
      DropNothing(s[1..]);
    }
  }

  lemma {:induction false} DropDrop(s: seq<ConnId>, a: set<ConnId>, b: set<ConnId>)
    ensures Drop(Drop(s, a), b) == Drop(s, a + b)
  {
    if s != [] {
      DropDrop(s[1..], a, b);
    }
  }

  /** The messages addressed to `c` in `log`, in the order they were delivered. */
  function Inbox(log: seq<Delivery>, c: ConnId): seq<string>
  {
    if log == [] then []
    else
      var last := log[|log| - 1];
      Inbox(log[..|log| - 1], c) + (if last.to == c then [last.text] else [])
  }

  lemma {:induction false} InboxConcat(a: seq<Delivery>, b: seq<Delivery>, c: ConnId)
    ensures Inbox(a + b, c) == Inbox(a, c) + Inbox(b, c)
  {
    if b == [] {
      assert a + b == a;
    } else {
      var b' := b[..|b| - 1];
      assert (a + b)[..|a + b| - 1] == a + b';
      assert (a + b)[|a + b| - 1] == b[|b| - 1];
      InboxConcat(a, b', c);
    }
  }

  // ---------------------------------------------------------------------
  // Broadcast (server.py:97-106)

  /** Whether the send to `c` succeeds in a broadcast: it is attempted and does not fail. */
  predicate Reached(c: ConnId, exclude: Option<ConnId>, failures: set<ConnId>)
  {
    exclude != Some(c) && c !in failures
  }

  /**
   The messages a broadcast of `msg` over the key snapshot `snap` delivers,
   in snapshot order: one to every connection other than `exclude` whose send
   does not fail.
   */
  function Deliveries(snap: seq<ConnId>, exclude: Option<ConnId>, failures: set<ConnId>, msg: string): (d: seq<Delivery>)
    ensures forall k :: 0 <= k < |d| ==> d[k].text == msg && d[k].to in snap && Reached(d[k].to, exclude, failures)
  {
    if snap == [] then []
    else
      var c := snap[|snap| - 1];
      Deliveries(snap[..|snap| - 1], exclude, failures, msg) + (if Reached(c, exclude, failures) then [Delivery(c, msg)] else [])
  }

  /** The connections a broadcast evicts: those attempted whose send fails. */
  function Evicted(keys: set<ConnId>, exclude: Option<ConnId>, failures: set<ConnId>): set<ConnId>
  {
    set c | c in keys && c in failures && exclude != Some(c)
  }

  /** The connections a broadcast over the snapshot `snap` evicts, collected in snapshot order. */
  function EvictedAlong(snap: seq<ConnId>, exclude: Option<ConnId>, failures: set<ConnId>): set<ConnId>
  {
    if snap == [] then {}
    else
      var c := snap[|snap| - 1];
      EvictedAlong(snap[..|snap| - 1], exclude, failures) + (if c in failures && exclude != Some(c) then {c} else {})
  }

  /** The connections collected along the snapshot are its attempted keys whose send fails. */
  lemma {:induction false} EvictedAlongMembers(snap: seq<ConnId>, exclude: Option<ConnId>, failures: set<ConnId>)
    ensures forall c :: c in EvictedAlong(snap, exclude, failures) <==> c in snap && c in failures && exclude != Some(c)
  {
    if snap != [] {
      var init := snap[..|snap| - 1];
      EvictedAlongMembers(init, exclude, failures);
      assert snap == init + [snap[|snap| - 1]];
    }
  }

  /** One broadcast: deliver, then the failed connections are deleted and closed. */
  function BroadcastStep(s: State, msg: string, exclude: Option<ConnId>, failures: set<ConnId>): State
  {
    var gone := Evicted(s.clients.Keys, exclude, failures);
    s.(clients := s.clients - gone,
       order := Drop(s.order, gone),
       outbox := s.outbox + Deliveries(s.order, exclude, failures, msg),
       closed := s.closed + gone)
  }

  /** The state of a broadcast after the first `i` keys of the snapshot `s.order` are done. */
  function BroadcastPrefix(s: State, i: nat, msg: string, exclude: Option<ConnId>, failures: set<ConnId>): State
    requires i <= |s.order|
  {
    var gone := EvictedAlong(s.order[..i], exclude, failures);
    s.(clients := s.clients - gone,
       order := Drop(s.order, gone),
       outbox := s.outbox + Deliveries(s.order[..i], exclude, failures, msg),
       closed := s.closed + gone)
  }

  /** Nothing is done before the first key. */
  lemma BroadcastPrefixStart(s: State, msg: string, exclude: Option<ConnId>, failures: set<ConnId>)
    ensures BroadcastPrefix(s, 0, msg, exclude, failures) == s
  {
    var none := s.order[..0];
    assert none == [];
    assert EvictedAlong(none, exclude, failures) == {};
    assert Deliveries(none, exclude, failures, msg) == [];
    DropNothing(s.order);
    assert s.clients - {} == s.clients;
    assert s.outbox + [] == s.outbox;
    assert s.closed + {} == s.closed;
  }

  /** Once the last key is done, the broadcast is complete. */
  lemma BroadcastPrefixDone(s: State, msg: string, exclude: Option<ConnId>, failures: set<ConnId>)
    requires OrderMatches(s)
    ensures BroadcastPrefix(s, |s.order|, msg, exclude, failures) == BroadcastStep(s, msg, exclude, failures)
  {
    assert s.order[..|s.order|] == s.order;
    EvictedAlongMembers(s.order, exclude, failures);
    assert EvictedAlong(s.order, exclude, failures) == Evicted(s.clients.Keys, exclude, failures);
  }

  /** Key `i` of the snapshot has not been evicted before its turn comes. */
  lemma BroadcastPrefixHasNext(s: State, i: nat, msg: string, exclude: Option<ConnId>, failures: set<ConnId>)
    requires OrderMatches(s) && i < |s.order|
    ensures s.order[i] in BroadcastPrefix(s, i, msg, exclude, failures).clients
  {
    EvictedAlongMembers(s.order[..i], exclude, failures);
    assert s.order[i] !in s.order[..i] by {
      assert forall k :: 0 <= k < i ==> s.order[k] != s.order[i];
    }
  }

  /** Key `i` of the snapshot, when it is the excluded connection: skipped. */
  lemma BroadcastPrefixSkip(s: State, i: nat, msg: string, exclude: Option<ConnId>, failures: set<ConnId>)
    requires i < |s.order| && exclude == Some(s.order[i])
    ensures BroadcastPrefix(s, i + 1, msg, exclude, failures) == BroadcastPrefix(s, i, msg, exclude, failures)
  {
    var pre, pre' := s.order[..i], s.order[..i + 1];
    assert pre'[..i] == pre && pre'[i] == s.order[i];
    assert EvictedAlong(pre', exclude, failures) == EvictedAlong(pre, exclude, failures);
    assert Deliveries(pre', exclude, failures, msg) == Deliveries(pre, exclude, failures, msg);
  }

  /** Key `i` of the snapshot, when its send succeeds: the message is delivered to it. */
  lemma BroadcastPrefixDeliver(s: State, i: nat, msg: string, exclude: Option<ConnId>, failures: set<ConnId>)
    requires i < |s.order| && Reached(s.order[i], exclude, failures)
    ensures var p := BroadcastPrefix(s, i, msg, exclude, failures);
      BroadcastPrefix(s, i + 1, msg, exclude, failures) == p.(outbox := p.outbox + [Delivery(s.order[i], msg)])
  {
    var pre, pre' := s.order[..i], s.order[..i + 1];
    assert pre'[..i] == pre && pre'[i] == s.order[i];
    assert EvictedAlong(pre', exclude, failures) == EvictedAlong(pre, exclude, failures);
    assert Deliveries(pre', exclude, failures, msg) == Deliveries(pre, exclude, failures, msg) + [Delivery(s.order[i], msg)];
  }

  /** Key `i` of the snapshot, when its send fails: it is deleted from the registry and closed. */
  lemma BroadcastPrefixEvict(s: State, i: nat, msg: string, exclude: Option<ConnId>, failures: set<ConnId>)
    requires i < |s.order| && exclude != Some(s.order[i]) && s.order[i] in failures
    ensures var p, c := BroadcastPrefix(s, i, msg, exclude, failures), s.order[i];
      BroadcastPrefix(s, i + 1, msg, exclude, failures)
        == p.(clients := p.clients - {c}, order := Drop(p.order, {c}), closed := p.closed + {c})
  {
    var c := s.order[i];
    var pre, pre' := s.order[..i], s.order[..i + 1];
    assert pre'[..i] == pre && pre'[i] == c;
    var gone := EvictedAlong(pre, exclude, failures);
    assert EvictedAlong(pre', exclude, failures) == gone + {c};
    assert Deliveries(pre', exclude, failures, msg) == Deliveries(pre, exclude, failures, msg);
    DropDrop(s.order, gone, {c});
    assert s.clients - (gone + {c}) == (s.clients - gone) - {c};
    assert s.closed + (gone + {c}) == (s.closed + gone) + {c};
  }

  /** A connection outside the snapshot receives nothing from the broadcast. */
  lemma {:induction false} InboxOfDeliveriesAbsent(snap: seq<ConnId>, exclude: Option<ConnId>, failures: set<ConnId>, msg: string, c: ConnId)
    requires c !in snap
    ensures Inbox(Deliveries(snap, exclude, failures, msg), c) == []
  {
    if snap != [] {
      var init, last := snap[..|snap| - 1], snap[|snap| - 1];
      assert c !in init by {
        assert forall k :: 0 <= k < |init| ==> init[k] == snap[k];
      }
      InboxOfDeliveriesAbsent(init, exclude, failures, msg, c);
      var head := Deliveries(init, exclude, failures, msg);
      var tail := if Reached(last, exclude, failures) then [Delivery(last, msg)] else [];
      InboxConcat(head, tail, c);
      InboxOfOne(tail, c);
    }
  }

  /** Every connection in the snapshot receives `msg` once if its send succeeds, otherwise nothing. */
  lemma {:induction false} InboxOfDeliveries(snap: seq<ConnId>, exclude: Option<ConnId>, failures: set<ConnId>, msg: string, c: ConnId)
    requires Distinct(snap)
    ensures Inbox(Deliveries(snap, exclude, failures, msg), c)
         == if c in snap && Reached(c, exclude, failures) then [msg] else []
  {
    if snap != [] {
      var init, last := snap[..|snap| - 1], snap[|snap| - 1];
      assert forall k :: 0 <= k < |init| ==> init[k] == snap[k];
      var head := Deliveries(init, exclude, failures, msg);
      var tail := if Reached(last, exclude, failures) then [Delivery(last, msg)] else [];
      InboxConcat(head, tail, c);
      InboxOfOne(tail, c);
      if c == last {
        assert c !in init;
        InboxOfDeliveriesAbsent(init, exclude, failures, msg, c);
      } else {
        assert Distinct(init);
        assert c in snap <==> c in init by {
          assert snap == init + [last];
        }
        InboxOfDeliveries(init, exclude, failures, msg, c);
      }
    }
  }

  /** The inbox of a log of at most one message. */
  lemma InboxOfOne(log: seq<Delivery>, c: ConnId)
    requires |log| <= 1
    ensures Inbox(log, c) == if log != [] && log[0].to == c then [log[0].text] else []
  {
    if log != [] {
      assert log[..0] == [];
    }
  }

  /** Broadcast delivery: each registered connection other than `exclude` whose send does not fail
      gets exactly one copy of `msg`; every other connection gets nothing. */
  lemma BroadcastInbox(s: State, msg: string, exclude: Option<ConnId>, failures: set<ConnId>, c: ConnId)
    requires Inv(s)
    ensures Inbox(BroadcastStep(s, msg, exclude, failures).outbox, c)
         == Inbox(s.outbox, c) + (if c in s.clients && Reached(c, exclude, failures) then [msg] else [])
  {
    InboxConcat(s.outbox, Deliveries(s.order, exclude, failures, msg), c);
    InboxOfDeliveries(s.order, exclude, failures, msg, c);
  }

  /** Broadcast eviction: the registry afterwards is the old one minus exactly the connections
      whose attempted send failed; survivors keep their names, and the evicted ones are closed. */
  lemma BroadcastEviction(s: State, msg: string, exclude: Option<ConnId>, failures: set<ConnId>)
    requires Inv(s)
    ensures var r := BroadcastStep(s, msg, exclude, failures);
      && (forall c :: c in r.clients <==> c in s.clients && (c !in failures || exclude == Some(c)))
      && (forall c :: c in r.clients ==> r.clients[c] == s.clients[c])
      && (forall c :: c in r.order <==> c in r.clients)
      && r.closed == s.closed + (set c | c in s.clients && c in failures && exclude != Some(c))
  {
  }

  /** The excluded connection is never touched: no message, no eviction, no close. */
  lemma BroadcastSparesExcluded(s: State, msg: string, x: ConnId, failures: set<ConnId>)
    requires Inv(s)
    ensures var r := BroadcastStep(s, msg, Some(x), failures);
      && Inbox(r.outbox, x) == Inbox(s.outbox, x)
      && (x in r.clients <==> x in s.clients)
      && (x in s.clients ==> r.clients[x] == s.clients[x])
      && (x in r.closed <==> x in s.closed)
  {
    BroadcastInbox(s, msg, Some(x), failures, x);
  }

  lemma BroadcastPreservesInv(s: State, msg: string, exclude: Option<ConnId>, failures: set<ConnId>)
    requires Inv(s)
    ensures Inv(BroadcastStep(s, msg, exclude, failures))
  {
  }

  // ---------------------------------------------------------------------
  // Join handshake (server.py:52-68)

  /** How the handshake ends for raw name `raw` against the registry `clients`. */
  function Decide(clients: map<ConnId, string>, raw: string): JoinOutcome
  {
    var name := Strip(raw);
    if name == [] then EmptyName
    else if name in clients.Values then NameTaken
    else Joined(name)
  }

  /**
   The handshake up to the insertion (lines 55-65). An empty name raises and
   changes nothing here; a taken name is answered with the rejection (unless
   that send fails) and closed; otherwise `conn -> name` is inserted.
   */
  function Admit(s: State, conn: ConnId, raw: string, rejectionFails: bool): State
  {
    match Decide(s.clients, raw)
    case EmptyName => s
    case NameTaken =>
      s.(outbox := s.outbox + (if rejectionFails then [] else [Delivery(conn, Rejection)]),
         closed := s.closed + {conn})
    case Joined(name) => s.(clients := s.clients[conn := name], order := s.order + [conn])
  }

  /** `Decide` and `Admit` by the case of the stripped name. */
  lemma AdmitCases(s: State, conn: ConnId, raw: string, rejectionFails: bool)
    ensures var name := Strip(raw);
      && (name == [] ==> Decide(s.clients, raw) == EmptyName && Admit(s, conn, raw, rejectionFails) == s)
      && (name != [] && name in s.clients.Values ==>
            && Decide(s.clients, raw) == NameTaken
            && Admit(s, conn, raw, rejectionFails)
               == s.(outbox := s.outbox + (if rejectionFails then [] else [Delivery(conn, Rejection)]),
                     closed := s.closed + {conn}))
      && (name != [] && name !in s.clients.Values ==>
            && Decide(s.clients, raw) == Joined(name)
            && Admit(s, conn, raw, rejectionFails)
               == s.(clients := s.clients[conn := name], order := s.order + [conn]))
  {
  }

  /** The handshake and the join announcement to everyone but the joiner (lines 55-68). */
  function JoinStep(s: State, conn: ConnId, raw: string, failures: set<ConnId>): State
  {
    var s1 := Admit(s, conn, raw, conn in failures);
    match Decide(s.clients, raw)
    case Joined(name) => BroadcastStep(s1, JoinNotice(name), Some(conn), failures)
    case _ => s1
  }

  /** The join step once the handshake has succeeded: the insertion, then the announcement. */
  lemma JoinStepJoined(s: State, conn: ConnId, raw: string, failures: set<ConnId>, name: string)
    requires Decide(s.clients, raw) == Joined(name)
    ensures Admit(s, conn, raw, conn in failures) == s.(clients := s.clients[conn := name], order := s.order + [conn])
    ensures JoinStep(s, conn, raw, failures)
         == BroadcastStep(Admit(s, conn, raw, conn in failures), JoinNotice(name), Some(conn), failures)
  {
  }

  /** The join step once the handshake has failed: only the rejection, if any. */
  lemma JoinStepRejected(s: State, conn: ConnId, raw: string, failures: set<ConnId>)
    requires !Decide(s.clients, raw).Joined?
    ensures JoinStep(s, conn, raw, failures) == Admit(s, conn, raw, conn in failures)
  {
  }

  /** An empty name is one that is blank after stripping. */
  lemma EmptyNameIffBlank(clients: map<ConnId, string>, raw: string)
    ensures Decide(clients, raw) == EmptyName <==> forall i :: 0 <= i < |raw| ==> IsSpace(raw[i])
  {
    StripEmptyIffBlank(raw);
  }

  /** Join acceptance: the join succeeds exactly when the stripped name is non-empty and not in use;
      on success, before the announcement, the registry has gained exactly `conn -> name`. */
  lemma JoinAcceptance(s: State, conn: ConnId, raw: string, rejectionFails: bool)
    requires Inv(s) && conn !in s.clients
    ensures Decide(s.clients, raw).Joined? <==> Strip(raw) != [] && forall c :: c in s.clients ==> s.clients[c] != Strip(raw)
    ensures Decide(s.clients, raw).Joined? ==>
      var r := Admit(s, conn, raw, rejectionFails);
      && r.clients.Keys == s.clients.Keys + {conn}
      && r.clients[conn] == Strip(raw)
      && (forall c :: c in s.clients ==> r.clients[c] == s.clients[c])
      && r.outbox == s.outbox && r.closed == s.closed
  {
    if Strip(raw) in s.clients.Values {
      var c :| c in s.clients && s.clients[c] == Strip(raw);
    }
  }

  /** A successful insertion keeps names unique: the name was checked against every value first. */
  lemma AdmitPreservesInv(s: State, conn: ConnId, raw: string, rejectionFails: bool)
    requires Inv(s) && conn !in s.clients
    ensures Inv(Admit(s, conn, raw, rejectionFails))
  {
    var s1 := Admit(s, conn, raw, rejectionFails);
    if Decide(s.clients, raw).Joined? {
      forall a, b | a in s1.clients && b in s1.clients && a != b
        ensures s1.clients[a] != s1.clients[b]
      {
        if a == conn {
          assert s.clients[b] in s.clients.Values;
        } else if b == conn {
          assert s.clients[a] in s.clients.Values;
        }
      }
    }
  }

  /** Name uniqueness is preserved by the whole join step. */
  lemma JoinPreservesInv(s: State, conn: ConnId, raw: string, failures: set<ConnId>)
    requires Inv(s) && conn !in s.clients
    ensures Inv(JoinStep(s, conn, raw, failures))
  {
    AdmitPreservesInv(s, conn, raw, conn in failures);
    if Decide(s.clients, raw).Joined? {
      BroadcastPreservesInv(Admit(s, conn, raw, conn in failures), JoinNotice(Strip(raw)), Some(conn), failures);
    }
  }

  /** Rejected joins leave the registry as it was: an empty name produces no message at all;
      a taken name produces only the rejection, to the joiner, unless that send fails. */
  lemma RejectedJoinChangesNothing(s: State, conn: ConnId, raw: string, failures: set<ConnId>)
    requires !Decide(s.clients, raw).Joined?
    ensures var r := JoinStep(s, conn, raw, failures);
      && r.clients == s.clients && r.order == s.order && r.listenerOpen == s.listenerOpen
      && r.outbox == s.outbox
           + (if Decide(s.clients, raw) == NameTaken && conn !in failures then [Delivery(conn, Rejection)] else [])
  {
    JoinStepRejected(s, conn, raw, failures);
  }

  /** Join announcement: every other registered connection whose send succeeds gets exactly one
      "Joined." notice, and the joiner gets nothing. */
  lemma JoinAnnouncement(s: State, conn: ConnId, raw: string, failures: set<ConnId>, c: ConnId)
    requires Inv(s) && conn !in s.clients
    requires Decide(s.clients, raw).Joined?
    ensures var r := JoinStep(s, conn, raw, failures);
      Inbox(r.outbox, c) == Inbox(s.outbox, c)
        + (if c in s.clients && c !in failures then [JoinNotice(Strip(raw))] else [])
  {
    var name := Strip(raw);
    var s1 := s.(clients := s.clients[conn := name], order := s.order + [conn]);
    assert Admit(s, conn, raw, conn in failures) == s1;
    assert JoinStep(s, conn, raw, failures) == BroadcastStep(s1, JoinNotice(name), Some(conn), failures);
    AdmitPreservesInv(s, conn, raw, conn in failures);
    assert Inv(s1);
    BroadcastInbox(s1, JoinNotice(name), Some(conn), failures, c);
  }

  // ---------------------------------------------------------------------
  // Chat lines (server.py:71-86)

  /** One non-empty line read from `name`'s connection: a command is swallowed, anything else is
      broadcast with its timestamp to every participant, the sender included. */
  function LineStep(s: State, name: string, text: string, stamp: string, failures: set<ConnId>): State
  {
    if |text| > 0 && text[0] == '/' then s
    else BroadcastStep(s, ChatLine(stamp, name, text), None, failures)
  }

  lemma CommandIsSwallowed(s: State, name: string, text: string, stamp: string, failures: set<ConnId>)
    requires |text| > 0 && text[0] == '/'
    ensures LineStep(s, name, text, stamp, failures) == s
  {
  }

  /** Any other line reaches every registered connection whose send succeeds, the sender's own included. */
  lemma ChatLineReachesAll(s: State, name: string, text: string, stamp: string, failures: set<ConnId>, c: ConnId)
    requires Inv(s)
    requires |text| > 0 && text[0] != '/'
    ensures Inbox(LineStep(s, name, text, stamp, failures).outbox, c)
         == Inbox(s.outbox, c) + (if c in s.clients && c !in failures then [ChatLine(stamp, name, text)] else [])
  {
    BroadcastInbox(s, ChatLine(stamp, name, text), None, failures, c);
  }

  /**
   The receive loop of `conn`, registered as `name`, over the trace `trace`;
   it returns the state the cleanup starts from. It stops at an orderly close,
   a failed read, or once the server has closed `conn` itself (a read on a
   closed socket raises).
   */
  function ReceiveLoop(s: State, conn: ConnId, name: string, trace: seq<Recv>): State
    decreases |trace|
  {
    if trace == [] || conn in s.closed then s
    else match trace[0]
      case Reset => s
      case Data(text, stamp, failures) =>
        if text == [] then s
        else ReceiveLoop(LineStep(s, name, text, stamp, failures), conn, name, trace[1..])
  }

  lemma {:induction false} ReceiveLoopPreservesInv(s: State, conn: ConnId, name: string, trace: seq<Recv>)
    requires Inv(s)
    ensures Inv(ReceiveLoop(s, conn, name, trace))
    decreases |trace|
  {
    if trace != [] && conn !in s.closed && trace[0].Data? && trace[0].text != [] {
      var r := trace[0];
      BroadcastPreservesInv(s, ChatLine(r.stamp, name, r.text), None, r.failures);
      ReceiveLoopPreservesInv(LineStep(s, name, r.text, r.stamp, r.failures), conn, name, trace[1..]);
    }
  }

  // ---------------------------------------------------------------------
  // Departure cleanup (server.py:89-96)

  /** The finally-block: remove `conn` if it is still registered and announce its departure to the
      rest, then close it. */
  function CleanupStep(s: State, conn: ConnId, failures: set<ConnId>): State
  {
    if conn in s.clients then
      var left := s.clients[conn];
      var s1 := s.(clients := s.clients - {conn}, order := Drop(s.order, {conn}));
      var s2 := BroadcastStep(s1, ExitNotice(left), None, failures);
      s2.(closed := s2.closed + {conn})
    else
      s.(closed := s.closed + {conn})
  }

  /** Deleting a connection from the registry and its iteration order keeps the invariant. */
  lemma RemovePreservesInv(s: State, conn: ConnId)
    requires Inv(s)
    ensures Inv(s.(clients := s.clients - {conn}, order := Drop(s.order, {conn})))
  {
  }

  lemma CleanupPreservesInv(s: State, conn: ConnId, failures: set<ConnId>)
    requires Inv(s)
    ensures Inv(CleanupStep(s, conn, failures))
  {
    if conn in s.clients {
      var s1 := s.(clients := s.clients - {conn}, order := Drop(s.order, {conn}));
      BroadcastPreservesInv(s1, ExitNotice(s.clients[conn]), None, failures);
    }
  }

  /** A registered connection's departure removes it and announces "Exited." once to every remaining
      connection whose send succeeds; the departing connection itself gets nothing. */
  lemma CleanupAnnounces(s: State, conn: ConnId, failures: set<ConnId>, c: ConnId)
    requires Inv(s) && conn in s.clients
    ensures var r := CleanupStep(s, conn, failures);
      && conn !in r.clients && conn in r.closed
      && (forall d :: d in r.clients <==> d in s.clients && d != conn && d !in failures)
      && Inbox(r.outbox, c) == Inbox(s.outbox, c)
           + (if c in s.clients && c != conn && c !in failures then [ExitNotice(s.clients[conn])] else [])
  {
    var s1 := s.(clients := s.clients - {conn}, order := Drop(s.order, {conn}));
    assert Inv(s1);
    BroadcastInbox(s1, ExitNotice(s.clients[conn]), None, failures, c);
  }

  /** Cleanup of a connection that is no longer registered only closes it. */
  lemma CleanupAbsentIsSilent(s: State, conn: ConnId, failures: set<ConnId>)
    requires conn !in s.clients
    ensures CleanupStep(s, conn, failures) == s.(closed := s.closed + {conn})
  {
  }

  /** Idempotent cleanup: a second cleanup of the same connection changes nothing and announces nothing. */
  lemma CleanupIdempotent(s: State, conn: ConnId, f1: set<ConnId>, f2: set<ConnId>)
    ensures var r := CleanupStep(s, conn, f1);
      CleanupStep(r, conn, f2) == r
  {
    var r := CleanupStep(s, conn, f1);
    assert conn !in r.clients && conn in r.closed;
    assert r.closed + {conn} == r.closed;
  }

  /** A connection evicted by a failed send is never announced: its later cleanup is silent. */
  lemma EvictedLeavesSilently(s: State, msg: string, exclude: Option<ConnId>, failures: set<ConnId>, conn: ConnId, f2: set<ConnId>)
    requires conn in s.clients && conn in failures && exclude != Some(conn)
    ensures var r := BroadcastStep(s, msg, exclude, failures);
      CleanupStep(r, conn, f2) == r
  {
    var r := BroadcastStep(s, msg, exclude, failures);
    assert conn in Evicted(s.clients.Keys, exclude, failures);
    assert r.closed + {conn} == r.closed;
  }

  // ---------------------------------------------------------------------
  // A whole session of one client, run without interleaving (server.py:52-96)

  function SessionStep(s: State, conn: ConnId, raw: string, joinFailures: set<ConnId>, trace: seq<Recv>, exitFailures: set<ConnId>): State
  {
    var s1 := JoinStep(s, conn, raw, joinFailures);
    var s2 := match Decide(s.clients, raw)
      case Joined(name) => ReceiveLoop(s1, conn, name, trace)
      case _ => s1;
    CleanupStep(s2, conn, exitFailures)
  }

  /** A rejected session leaves the registry as it was and closes the connection; it produces at
      most the rejection message, and no announcement. */
  lemma RejectedSession(s: State, conn: ConnId, raw: string, joinFailures: set<ConnId>, trace: seq<Recv>, exitFailures: set<ConnId>)
    requires conn !in s.clients
    requires !Decide(s.clients, raw).Joined?
    ensures var r := SessionStep(s, conn, raw, joinFailures, trace, exitFailures);
      && r.clients == s.clients && r.order == s.order
      && r.closed == s.closed + {conn}
      && r.outbox == s.outbox
           + (if Decide(s.clients, raw) == NameTaken && conn !in joinFailures then [Delivery(conn, Rejection)] else [])
  {
    var s1 := JoinStep(s, conn, raw, joinFailures);
    JoinStepRejected(s, conn, raw, joinFailures);
    AdmitCases(s, conn, raw, conn in joinFailures);
    assert s1.closed + {conn} == s.closed + {conn};
    assert SessionStep(s, conn, raw, joinFailures, trace, exitFailures) == CleanupStep(s1, conn, exitFailures);
    assert s1.clients == s.clients;
    assert CleanupStep(s1, conn, exitFailures) == s1.(closed := s1.closed + {conn});
  }

  lemma SessionPreservesInv(s: State, conn: ConnId, raw: string, joinFailures: set<ConnId>, trace: seq<Recv>, exitFailures: set<ConnId>)
    requires Inv(s) && conn !in s.clients
    ensures Inv(SessionStep(s, conn, raw, joinFailures, trace, exitFailures))
  {
    JoinPreservesInv(s, conn, raw, joinFailures);
    var s1 := JoinStep(s, conn, raw, joinFailures);
    if Decide(s.clients, raw).Joined? {
      ReceiveLoopPreservesInv(s1, conn, Decide(s.clients, raw).name, trace);
    }
    var s2 := match Decide(s.clients, raw)
      case Joined(name) => ReceiveLoop(s1, conn, name, trace)
      case _ => s1;
    CleanupPreservesInv(s2, conn, exitFailures);
  }

  /** After any session the connection is no longer registered and is closed. */
  lemma SessionEndsClosed(s: State, conn: ConnId, raw: string, joinFailures: set<ConnId>, trace: seq<Recv>, exitFailures: set<ConnId>)
    ensures var r := SessionStep(s, conn, raw, joinFailures, trace, exitFailures);
      conn !in r.clients && conn in r.closed
  {
  }

  // ---------------------------------------------------------------------
  // Shutdown (server.py:107-116)

  /** The state once the shutdown loop has handled the first `i` keys. */
  function ShutdownPrefix(s: State, i: nat, failures: set<ConnId>): State
    requires i <= |s.order|
  {
    s.(outbox := s.outbox + Deliveries(s.order[..i], None, failures, ShutdownNotice),
       closed := s.closed + (set c | c in s.order[..i] && c !in failures))
  }

  /** Before the first key, nothing has happened. */
  lemma ShutdownPrefixStart(s: State, failures: set<ConnId>)
    ensures ShutdownPrefix(s, 0, failures) == s
  {
    assert s.order[..0] == [];
    assert s.outbox + [] == s.outbox;
    assert (set c | c in s.order[..0] && c !in failures) == {};
    assert s.closed + {} == s.closed;
  }

  /** Key `i`, when its send fails: skipped, and left open. */
  lemma ShutdownPrefixSkip(s: State, i: nat, failures: set<ConnId>)
    requires i < |s.order| && s.order[i] in failures
    ensures ShutdownPrefix(s, i + 1, failures) == ShutdownPrefix(s, i, failures)
  {
    var c := s.order[i];
    var pre, pre' := s.order[..i], s.order[..i + 1];
    assert pre'[..i] == pre && pre'[i] == c;
    assert forall x :: x in pre' <==> x in pre || x == c;
    assert (set x | x in pre' && x !in failures) == (set x | x in pre && x !in failures);
    assert Deliveries(pre', None, failures, ShutdownNotice) == Deliveries(pre, None, failures, ShutdownNotice);
  }

  /** Key `i`, when its send succeeds: sent the notice, then closed. */
  lemma ShutdownPrefixClose(s: State, i: nat, failures: set<ConnId>)
    requires i < |s.order| && s.order[i] !in failures
    ensures var p, c := ShutdownPrefix(s, i, failures), s.order[i];
      ShutdownPrefix(s, i + 1, failures)
        == p.(outbox := p.outbox + [Delivery(c, ShutdownNotice)], closed := p.closed + {c})
  {
    var c := s.order[i];
    var pre, pre' := s.order[..i], s.order[..i + 1];
    assert pre'[..i] == pre && pre'[i] == c;
    assert forall x :: x in pre' <==> x in pre || x == c;
    var done := set x | x in pre && x !in failures;
    assert (set x | x in pre' && x !in failures) == done + {c};
    assert s.closed + (done + {c}) == (s.closed + done) + {c};
    var d := Deliveries(pre, None, failures, ShutdownNotice);
    assert Deliveries(pre', None, failures, ShutdownNotice) == d + [Delivery(c, ShutdownNotice)];
    assert s.outbox + (d + [Delivery(c, ShutdownNotice)]) == (s.outbox + d) + [Delivery(c, ShutdownNotice)];
  }

  /** After the last key, closing the listening socket completes the shutdown. */
  lemma ShutdownPrefixDone(s: State, failures: set<ConnId>)
    requires OrderMatches(s)
    ensures ShutdownPrefix(s, |s.order|, failures).(listenerOpen := false) == ShutdownStep(s, failures)
  {
    assert s.order[..|s.order|] == s.order;
    assert (set c | c in s.order && c !in failures) == (set c | c in s.clients && c !in failures);
  }

  /** Every registered connection is sent the shutdown notice and, if that send succeeds, closed;
      the registry is left as it is and the listening socket is closed. */
  function ShutdownStep(s: State, failures: set<ConnId>): State
  {
    s.(outbox := s.outbox + Deliveries(s.order, None, failures, ShutdownNotice),
       closed := s.closed + (set c | c in s.clients && c !in failures),
       listenerOpen := false)
  }

  lemma ShutdownReachesAll(s: State, failures: set<ConnId>, c: ConnId)
    requires Inv(s)
    ensures var r := ShutdownStep(s, failures);
      && r.clients == s.clients && !r.listenerOpen
      && Inbox(r.outbox, c) == Inbox(s.outbox, c) + (if c in s.clients && c !in failures then [ShutdownNotice] else [])
      && (c in r.closed <==> c in s.closed || (c in s.clients && c !in failures))
  {
    InboxConcat(s.outbox, Deliveries(s.order, None, failures, ShutdownNotice), c);
    InboxOfDeliveries(s.order, None, failures, ShutdownNotice, c);
  }

  // ---------------------------------------------------------------------
  // Accept filter (server.py:34-50)

  /** One accepted connection: a banned address is closed at once; any other is handed on unchanged. */
  function AcceptStep(s: State, a: Arrival): State
  {
    if a.addr in s.banned then s.(closed := s.closed + {a.conn}) else s
  }

  /** The accept loop over `arrivals`, then the listening socket is closed (lines 34-50). */
  function AcceptAll(s: State, arrivals: seq<Arrival>): State
  {
    if arrivals == [] then s
    else AcceptStep(AcceptAll(s, arrivals[..|arrivals| - 1]), arrivals[|arrivals| - 1])
  }

  /** The connections the accept loop hands on to a session, in arrival order. */
  function Admitted(arrivals: seq<Arrival>, banned: set<string>): (r: seq<ConnId>)
    ensures forall k :: 0 <= k < |r| ==> exists j :: 0 <= j < |arrivals| && arrivals[j].conn == r[k] && arrivals[j].addr !in banned
    ensures forall j :: 0 <= j < |arrivals| && arrivals[j].addr !in banned ==> arrivals[j].conn in r
    ensures |r| <= |arrivals|
  {
    if arrivals == [] then []
    else
      var a := arrivals[|arrivals| - 1];
      Admitted(arrivals[..|arrivals| - 1], banned) + (if a.addr in banned then [] else [a.conn])
  }

  /** Banned addresses: the accept loop only closes connections from banned addresses and changes
      nothing else, and never hands those on to a handshake. */
  lemma {:induction false} AcceptAllOnlyClosesBanned(s: State, arrivals: seq<Arrival>)
    ensures var r := AcceptAll(s, arrivals);
      && r.clients == s.clients && r.order == s.order && r.outbox == s.outbox
      && r.banned == s.banned && r.listenerOpen == s.listenerOpen
      && (forall c :: c in r.closed <==> (c in s.closed
            || exists k :: 0 <= k < |arrivals| && arrivals[k].conn == c && arrivals[k].addr in s.banned))
  {
    if arrivals != [] {
      var init := arrivals[..|arrivals| - 1];
      AcceptAllOnlyClosesBanned(s, init);
      forall c ensures c in AcceptAll(s, arrivals).closed <==> (c in s.closed
            || exists k :: 0 <= k < |arrivals| && arrivals[k].conn == c && arrivals[k].addr in s.banned)
      {
        if exists k :: 0 <= k < |init| && init[k].conn == c && init[k].addr in s.banned {
          var k :| 0 <= k < |init| && init[k].conn == c && init[k].addr in s.banned;
          assert arrivals[k] == init[k];
        }
        if exists k :: 0 <= k < |arrivals| && arrivals[k].conn == c && arrivals[k].addr in s.banned {
          var k :| 0 <= k < |arrivals| && arrivals[k].conn == c && arrivals[k].addr in s.banned;
          if k < |init| {
            assert init[k] == arrivals[k];
          }
        }
      }
    }
  }

  // ---------------------------------------------------------------------
  // Interleaved sessions

  /**
   One atomic step of any thread, that is one critical section of the registry
   lock: the accept filter, the name check and insertion of a handshake
   (lines 60-65), the join announcement of that handshake (line 68, whose
   broadcast takes the lock again at line 98, so other steps may come between
   the two), a chat line of a participant, a departure cleanup, or the shutdown.
   An announcement may occur at any point; this only adds interleavings.
   */
  datatype Event =
    | Arrive(a: Arrival)
    | RegisterEv(conn: ConnId, raw: string, rejectionFails: bool)
    | AnnounceEv(conn: ConnId, name: string, failures: set<ConnId>)
    | LineEv(name: string, text: string, stamp: string, failures: set<ConnId>)
    | CleanupEv(conn: ConnId, failures: set<ConnId>)
    | ShutdownEv(failures: set<ConnId>)

  /** A send to a connection the server has already closed raises, so it is among the failures. */
  predicate ClosedSendsFail(s: State, failures: set<ConnId>)
  {
    forall c :: c in s.clients && c in s.closed ==> c in failures
  }

  /** A registered connection the server has closed gets no chat line, since the send to it
      fails; a broadcast line evicts it (server.py:103-106). */
  lemma ClosedGetsNoLine(s: State, name: string, text: string, stamp: string, failures: set<ConnId>, c: ConnId)
    requires Inv(s) && ClosedSendsFail(s, failures)
    requires c in s.clients && c in s.closed
    ensures var r := LineStep(s, name, text, stamp, failures);
      && Inbox(r.outbox, c) == Inbox(s.outbox, c)
      && (!(|text| > 0 && text[0] == '/') ==> c !in r.clients)
  {
    if !(|text| > 0 && text[0] == '/') {
      BroadcastInbox(s, ChatLine(stamp, name, text), None, failures, c);
      BroadcastEviction(s, ChatLine(stamp, name, text), None, failures);
    }
  }

  /** A handshake runs on a freshly accepted connection, which is open and not yet registered;
      every send to a closed connection fails. */
  predicate Enabled(s: State, e: Event)
  {
    match e
    case Arrive(_) => true
    case RegisterEv(conn, _, _) => conn !in s.clients && conn !in s.closed
    case AnnounceEv(_, _, f) => ClosedSendsFail(s, f)
    case LineEv(_, _, _, f) => ClosedSendsFail(s, f)
    case CleanupEv(_, f) => ClosedSendsFail(s, f)
    case ShutdownEv(f) => ClosedSendsFail(s, f)
  }

  function Apply(s: State, e: Event): State
  {
    match e
    case Arrive(a) => AcceptStep(s, a)
    case RegisterEv(conn, raw, rf) => Admit(s, conn, raw, rf)
    case AnnounceEv(conn, name, f) => BroadcastStep(s, JoinNotice(name), Some(conn), f)
    case LineEv(name, text, stamp, f) => LineStep(s, name, text, stamp, f)
    case CleanupEv(conn, f) => CleanupStep(s, conn, f)
    case ShutdownEv(f) => ShutdownStep(s, f)
  }

  /** The events in order, stopping at the first that cannot occur. */
  function Run(s: State, events: seq<Event>): State
    decreases |events|
  {
    if events == [] || !Enabled(s, events[0]) then s
    else Run(Apply(s, events[0]), events[1..])
  }

  /** Two enabled steps in a row. */
  lemma RunTwo(s: State, e1: Event, e2: Event)
    requires Enabled(s, e1) && Enabled(Apply(s, e1), e2)
    ensures Run(s, [e1, e2]) == Apply(Apply(s, e1), e2)
  {
    var s1 := Apply(s, e1);
    assert [e1, e2][1..] == [e2];
    assert [e2][1..] == [];
    assert Run(s, [e1, e2]) == Run(s1, [e2]);
    assert Run(s1, [e2]) == Run(Apply(s1, e2), []);
  }

  /** With nothing in between, the insertion followed by the announcement is the join step. */
  lemma JoinIsRegisterThenAnnounce(s: State, conn: ConnId, raw: string, failures: set<ConnId>)
    requires conn !in s.clients && conn !in s.closed && ClosedSendsFail(s, failures)
    requires Decide(s.clients, raw).Joined?
    ensures Run(s, [RegisterEv(conn, raw, conn in failures), AnnounceEv(conn, Strip(raw), failures)])
         == JoinStep(s, conn, raw, failures)
  {
    var name := Strip(raw);
    JoinStepJoined(s, conn, raw, failures, name);
    var s1 := s.(clients := s.clients[conn := name], order := s.order + [conn]);
    assert ClosedSendsFail(s1, failures) by {
      forall c | c in s1.clients && c in s1.closed
        ensures c in failures
      {
        assert c != conn && c in s.clients;
      }
    }
    RunTwo(s, RegisterEv(conn, raw, conn in failures), AnnounceEv(conn, name, failures));
  }

  /** The announcement runs even when the joiner was evicted between its insertion and its
      announcement: every other registered connection whose send succeeds still gets the notice. */
  lemma AnnouncementAfterEviction(s: State, conn: ConnId, name: string, failures: set<ConnId>, c: ConnId)
    requires Inv(s) && conn !in s.clients
    ensures var r := Apply(s, AnnounceEv(conn, name, failures));
      && r.clients.Keys == s.clients.Keys - failures
      && Inbox(r.outbox, c) == Inbox(s.outbox, c)
           + (if c in s.clients && c !in failures then [JoinNotice(name)] else [])
  {
    BroadcastInbox(s, JoinNotice(name), Some(conn), failures, c);
    BroadcastEviction(s, JoinNotice(name), Some(conn), failures);
  }

  /** Name uniqueness holds in every interleaving of the threads' atomic steps. */
  lemma {:induction false} RunPreservesInv(s: State, events: seq<Event>)
    requires Inv(s)
    ensures Inv(Run(s, events))
    decreases |events|
  {
    if events != [] && Enabled(s, events[0]) {
      var e := events[0];
      match e {
        case Arrive(a) =>
        case RegisterEv(conn, raw, rf) => AdmitPreservesInv(s, conn, raw, rf);
        case AnnounceEv(conn, name, f) => BroadcastPreservesInv(s, JoinNotice(name), Some(conn), f);
        case LineEv(name, text, stamp, f) => BroadcastPreservesInv(s, ChatLine(stamp, name, text), None, f);
        case CleanupEv(conn, f) => CleanupPreservesInv(s, conn, f);
        case ShutdownEv(f) =>
      }
      RunPreservesInv(Apply(s, e), events[1..]);
    }
  }
}
