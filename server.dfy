/**
 `ChatServer` of server.py: an object whose methods update the registry in
 place. Every method is proved to perform exactly one step of module Relay,
 whose lemmas state what those steps promise.
 */
module Server {
  import opened Text
  import opened Relay

  class ChatServer {
    /** `self.clients`: connection to display name. */
    var clients: map<ConnId, string>
    /** The iteration order of `self.clients` (insertion order of a Python dict). */
    var order: seq<ConnId>
    /** Every message the server's sends delivered, in order. */
    var outbox: seq<Delivery>
    /** Every connection the server has closed. */
    var closed: set<ConnId>
    /** Whether `self.server_socket` is still open. */
    var listenerOpen: bool
    /** `self.banned_ips`, as loaded from the configuration. */
    const banned: set<string>

    function Model(): State
      reads this
    {
      State(clients, order, outbox, closed, listenerOpen, banned)
    }

    ghost predicate Valid()
      reads this
    {
      Inv(Model())
    }

    constructor (banned: set<string>)
      ensures Valid() && Model() == Initial(banned)
    {
      this.banned := banned;
      clients, order, outbox, closed, listenerOpen := map[], [], [], {}, true;
    }

    /**
     `broadcast(message, exclude)`: send to every key of a snapshot of the
     registry except `exclude`; a key whose send fails is deleted and closed.
     */
    method Broadcast(msg: string, exclude: Option<ConnId>, failures: set<ConnId>)
      requires Valid()
      modifies this
      ensures Valid()
      ensures Model() == BroadcastStep(old(Model()), msg, exclude, failures)
    {
      ghost var s := Model();
      var snapshot := order;
      BroadcastPrefixStart(s, msg, exclude, failures);
      for i := 0 to |snapshot|
        invariant Model() == BroadcastPrefix(s, i, msg, exclude, failures)
      {
        var c := snapshot[i];
        if exclude != Some(c) {
          if c in failures {
            BroadcastPrefixHasNext(s, i, msg, exclude, failures);
            BroadcastPrefixEvict(s, i, msg, exclude, failures);
            Evict(c);
          } else {
            BroadcastPrefixDeliver(s, i, msg, exclude, failures);
            outbox := outbox + [Delivery(c, msg)];
          }
        } else {
          BroadcastPrefixSkip(s, i, msg, exclude, failures);
        }
      }
      BroadcastPrefixDone(s, msg, exclude, failures);
      BroadcastPreservesInv(s, msg, exclude, failures);
    }

    /** `del self.clients[client]` and `client.close()` after a failed send (lines 105-106). */
    method Evict(c: ConnId)
      requires c in clients
      modifies this
      ensures clients == old(clients) - {c} && order == Drop(old(order), {c})
      ensures closed == old(closed) + {c}
      ensures outbox == old(outbox) && listenerOpen == old(listenerOpen)
    {
      clients := clients - {c};
      order := Drop(order, {c});
      closed := closed + {c};
    }

    /**
     The name check and insertion of `handle_client` (lines 55-65): strip the
     name; an empty one raises, a taken one is answered with the rejection and
     closed; otherwise `conn -> name` is inserted.
     */
    method Register(conn: ConnId, raw: string, rejectionFails: bool) returns (outcome: JoinOutcome)
      requires Valid() && conn !in clients
      modifies this
      ensures Valid()
      ensures outcome == Decide(old(clients), raw)
      ensures Model() == Admit(old(Model()), conn, raw, rejectionFails)
    {
      ghost var s := Model();
      AdmitCases(s, conn, raw, rejectionFails);
      AdmitPreservesInv(s, conn, raw, rejectionFails);
      var name := Strip(raw);
      if name == [] {
        // raised ValueError: nothing here; the cleanup closes the connection
        outcome := EmptyName;
      } else if name in clients.Values {
        if !rejectionFails {
          outbox := outbox + [Delivery(conn, Rejection)];
        }
        closed := closed + {conn};
        outcome := NameTaken;
      } else {
        clients := clients[conn := name];
        order := order + [conn];
        outcome := Joined(name);
      }
    }

    /** The handshake of `handle_client` and the join announcement to everyone else (lines 55-68). */
    method Join(conn: ConnId, raw: string, failures: set<ConnId>) returns (outcome: JoinOutcome)
      requires Valid() && conn !in clients
      modifies this
      ensures Valid()
      ensures outcome == Decide(old(clients), raw)
      ensures Model() == JoinStep(old(Model()), conn, raw, failures)
    {
      ghost var s := Model();
      outcome := Register(conn, raw, conn in failures);
      if outcome.Joined? {
        JoinStepJoined(s, conn, raw, failures, outcome.name);
        Broadcast(JoinNotice(outcome.name), Some(conn), failures);
      } else {
        JoinStepRejected(s, conn, raw, failures);
      }
    }

    /** One non-empty line from the client registered as `name` (lines 78-84). */
    method HandleLine(name: string, text: string, stamp: string, failures: set<ConnId>)
      requires Valid()
      modifies this
      ensures Valid()
      ensures Model() == LineStep(old(Model()), name, text, stamp, failures)
    {
      if |text| > 0 && text[0] == '/' {
        // reserved for commands: nothing happens
      } else {
        Broadcast(ChatLine(stamp, name, text), None, failures);
      }
    }

    /** The finally-block of `handle_client` (lines 89-96), with the announcement made once the
        registry update is done. */
    method Cleanup(conn: ConnId, failures: set<ConnId>)
      requires Valid()
      modifies this
      ensures Valid()
      ensures Model() == CleanupStep(old(Model()), conn, failures)
    {
      ghost var s := Model();
      CleanupPreservesInv(s, conn, failures);
      if conn in clients {
        var left := clients[conn];
        ghost var s1 := s.(clients := s.clients - {conn}, order := Drop(s.order, {conn}));
        RemovePreservesInv(s, conn);
        clients := clients - {conn};
        order := Drop(order, {conn});
        assert Model() == s1;
        Broadcast(ExitNotice(left), None, failures);
        ghost var s2 := BroadcastStep(s1, ExitNotice(left), None, failures);
        assert CleanupStep(s, conn, failures) == s2.(closed := s2.closed + {conn});
      }
      closed := closed + {conn};
    }

    /**
     `handle_client` for one connection whose session is not interleaved with
     others: the handshake, the receive loop over `trace`, then the cleanup.
     */
    method HandleClient(conn: ConnId, raw: string, joinFailures: set<ConnId>, trace: seq<Recv>, exitFailures: set<ConnId>)
      requires Valid() && conn !in clients
      modifies this
      ensures Valid()
      ensures Model() == SessionStep(old(Model()), conn, raw, joinFailures, trace, exitFailures)
    {
      ghost var s := Model();
      var outcome := Join(conn, raw, joinFailures);
      ghost var s1 := Model();
      if outcome.Joined? {
        var name := outcome.name;
        var i := 0;
        while i < |trace|
          invariant 0 <= i <= |trace|
          invariant Valid()
          invariant ReceiveLoop(Model(), conn, name, trace[i..]) == ReceiveLoop(s1, conn, name, trace)
        {
          if conn in closed {
            // the server closed this socket itself: the next recv raises
            break;
          }
          var r := trace[i];
          if r.Reset? || r.text == [] {
            break;
          }
          assert trace[i..][1..] == trace[i + 1..];
          HandleLine(name, r.text, r.stamp, r.failures);
          i := i + 1;
        }
        assert ReceiveLoop(Model(), conn, name, trace[i..]) == Model();
      }
      ghost var s2 := Model();
      assert s2 == match Decide(s.clients, raw)
        case Joined(name) => ReceiveLoop(s1, conn, name, trace)
        case _ => s1;
      Cleanup(conn, exitFailures);
    }

    /** `shutdown_server`: send the shutdown notice to every registered connection and close it
        unless the send failed; then close the listening socket. */
    method Shutdown(failures: set<ConnId>)
      requires Valid()
      modifies this
      ensures Valid()
      ensures Model() == ShutdownStep(old(Model()), failures)
    {
      ghost var s := Model();
      var keys := order;
      ShutdownPrefixStart(s, failures);
      for i := 0 to |keys|
        invariant Model() == ShutdownPrefix(s, i, failures)
      {
        var c := keys[i];
        if c !in failures {
          ShutdownPrefixClose(s, i, failures);
          outbox := outbox + [Delivery(c, ShutdownNotice)];
          closed := closed + {c};
        } else {
          ShutdownPrefixSkip(s, i, failures);
        }
      }
      ShutdownPrefixDone(s, failures);
      listenerOpen := false;
    }

    /** The banned-address filter of `start` (lines 37-40). */
    method Accept(a: Arrival) returns (admitted: bool)
      requires Valid()
      modifies this
      ensures Valid()
      ensures admitted <==> a.addr !in banned
      ensures Model() == AcceptStep(old(Model()), a)
    {
      admitted := a.addr !in banned;
      if !admitted {
        closed := closed + {a.conn};
      }
    }

    /**
     The accept loop of `start` (lines 34-50) over the connections that arrive
     before the operator interrupts it; returns the ones handed on to
     `handle_client`, each on its own thread, and closes the listening socket.
     */
    method Listen(arrivals: seq<Arrival>) returns (spawned: seq<ConnId>)
      requires Valid()
      modifies this
      ensures Valid()
      ensures spawned == Admitted(arrivals, banned)
      ensures Model() == AcceptAll(old(Model()), arrivals).(listenerOpen := false)
    {
      ghost var s := Model();
      spawned := [];
      for i := 0 to |arrivals|
        invariant spawned == Admitted(arrivals[..i], banned)
        invariant Valid()
        invariant Model() == AcceptAll(s, arrivals[..i])
      {
        assert arrivals[..i + 1][..i] == arrivals[..i];
        var admitted := Accept(arrivals[i]);
        if admitted {
          spawned := spawned + [arrivals[i].conn];
        }
      }
      assert arrivals[..|arrivals|] == arrivals;
      listenerOpen := false;
    }
  }
}
