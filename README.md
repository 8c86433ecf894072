# Chat relay server: participant registry

This project models the core of the chat relay server in `server.py`. That core is the
participant registry of `ChatServer`, a dictionary from connection to display name, plus
the operations that change it:

- the banned-address filter of the accept loop;
- the join handshake (strip the name, reject it if empty or taken, register it, announce it);
- the receive loop (swallow commands, broadcast chat lines with a timestamp);
- `broadcast`, which sends to a snapshot of the keys except one and evicts every connection whose send fails;
- the departure cleanup in the `finally` block;
- `shutdown_server`.

The model is sequential. Each critical section of the registry lock is one atomic step. The
handshake holds two: the name check and insertion (lines 60-65), then the announcement,
whose `broadcast` takes the lock again (line 98), so other threads' steps may come between
them. The environment becomes inputs:

- A connection is an abstract id (`ConnId`).
- The outcome of every send is an input: `failures` is the set of connections whose send fails during that step.
- The clock reading for a chat line comes with the read that carries the line.
- What the server sends and closes is recorded in the state: `outbox`, the messages that were delivered, in order; `closed`, the connections the server closed; and `listenerOpen`.

Files and modules:

- `text.dfy`, module `Text`: Python's `str.strip()` over its whitespace set.
- `relay.dfy`, module `Relay`: the server state as a value. It has one step function per operation and the lemmas that state what the steps promise. It also has `Run`, an arbitrary interleaving of the threads' atomic steps, in which the insertion and the announcement of a handshake are separate steps.
- `server.dfy`, module `Server`: class `ChatServer`. Its fields are the registry (`clients: map<ConnId, string>`), the dictionary's iteration order, and the effect logs. Its methods update them in place as the Python code does. `Broadcast`, `Shutdown`, `Listen` and the receive loop of `HandleClient` are loops. Every method is proved to perform exactly the matching step of `Relay` and to keep the registry invariant `Valid()` (order matches keys, names unique). The exception is `Evict`, the one-key helper inside the `Broadcast` loop, which states its effect on the fields directly.
- `locking.dfy`, module `Locking`: the departure cleanup as written, with the lock's state passed from its first acquisition to its second (see Findings).

Behaviour of the code a reader might not expect, which the model follows:

- A chat line is broadcast with no exclusion, so the sender gets its own line back.
- A connection evicted by a failed send is deleted without any announcement. Its own cleanup later finds it gone, so no "Exited." notice is ever sent for it (`EvictedLeavesSilently`).
- Every line starting with `/` is swallowed, not only recognised commands.
- `broadcast` holds the registry lock for the whole fan-out, so one broadcast is one atomic step.
- Shutdown does not empty the registry. A connection whose shutdown send fails is not closed.
- Accept-loop errors other than the operator's interrupt are not caught; they end the loop.

## Model

| member | source | states |
|---|---|---|
| Text.TrimLeft | server.py:55 | the result is a suffix of the input preceded only by whitespace and does not start with whitespace |
| Text.TrimRight | server.py:55 | the result is a prefix of the input followed only by whitespace and does not end with whitespace |
| Text.Strip | server.py:55 | `strip()`: the result is a slice of the input surrounded only by whitespace |
| Text.StripEnds | server.py:55 | neither end of a stripped string is whitespace |
| Text.StripEmptyIffBlank | server.py:55-57 | a name strips to the empty string exactly when every character is whitespace |
| Relay.Drop | server.py:94 | deleting keys from the iteration order keeps exactly the other keys and keeps them distinct |
| Relay.Deliveries | server.py:99-102 | every message a broadcast delivers carries the broadcast text and goes to a snapshot key that is not excluded and whose send succeeded |
| Relay.InboxOfDeliveries | server.py:99-102 | over a snapshot of distinct keys, each key receives the message exactly once if it is attempted and its send succeeds, otherwise nothing |
| Relay.BroadcastInbox | server.py:97-102 | broadcast delivery: a registered connection other than `exclude` whose send succeeds gets exactly one copy; every other connection gets nothing new |
| Relay.BroadcastEviction | server.py:99-106 | after a broadcast the registry is the old one minus exactly the attempted connections whose send failed; survivors keep their names; the evicted ones are closed |
| Relay.BroadcastSparesExcluded | server.py:101 | the excluded connection gets no message, is not evicted and is not closed |
| Relay.BroadcastPreservesInv | server.py:105 | a broadcast keeps the iteration order in line with the keys and the names unique |
| Relay.EmptyNameIffBlank | server.py:55-57 | a handshake is rejected as empty exactly when the raw name is all whitespace |
| Relay.JoinAcceptance | server.py:55-65 | a join succeeds iff the stripped name is non-empty and no registered connection has it; on success the registry gains exactly `conn -> name` and nothing else changes |
| Relay.AdmitPreservesInv | server.py:60-65 | inserting a name that passed the duplicate check keeps names unique |
| Relay.JoinPreservesInv | server.py:60-68 | the whole join step, announcement included, keeps names unique |
| Relay.RejectedJoinChangesNothing | server.py:56-64 | a rejected join leaves the registry unchanged; an empty name sends nothing; a taken name sends only the rejection text, to the joiner, unless that send fails |
| Relay.JoinAnnouncement | server.py:68 | after a successful join, every other registered connection whose send succeeds gets exactly one "Joined." notice and the joiner gets nothing |
| Relay.CommandIsSwallowed | server.py:78-80 | a line starting with `/` changes nothing |
| Relay.ChatLineReachesAll | server.py:81-84 | any other line is delivered as `[ts] name: msg` once to every registered connection whose send succeeds, the sender's own included |
| Relay.ReceiveLoopPreservesInv | server.py:71-86 | the receive loop keeps names unique, whatever it reads |
| Relay.CleanupPreservesInv | server.py:91-95 | the cleanup keeps names unique |
| Relay.CleanupAnnounces | server.py:91-95 | cleanup of a registered connection removes it and closes it; each remaining connection whose send succeeds gets exactly one "Exited." notice naming it; the departing connection gets nothing |
| Relay.CleanupAbsentIsSilent | server.py:91-96 | cleanup of a connection that is not registered only closes it |
| Relay.CleanupIdempotent | server.py:91-96 | a second cleanup of the same connection changes nothing and announces nothing |
| Relay.EvictedLeavesSilently | server.py:103-106 | the cleanup that follows an eviction by failed send changes nothing and announces nothing |
| Relay.RejectedSession | server.py:52-96 | a whole session with a rejected name leaves the registry unchanged, closes the connection and sends at most the rejection text |
| Relay.SessionPreservesInv | server.py:52-96 | a whole session keeps names unique |
| Relay.SessionEndsClosed | server.py:89-96 | after any session the connection is unregistered and closed |
| Relay.ShutdownReachesAll | server.py:107-116 | shutdown leaves the registry as it is and closes the listener; every registered connection whose send succeeds gets exactly one "SERVER_SHUTDOWN" and is closed; a failed send only skips that connection's close |
| Relay.Admitted | server.py:35-46 | a connection is handed on to a handshake exactly when it arrived from an address that is not banned: every handed-on connection came from an allowed address, and every allowed arrival is handed on |
| Relay.AcceptAllOnlyClosesBanned | server.py:35-40 | the accept loop changes nothing but the closed set, and closes exactly the connections from banned addresses |
| Relay.ClosedGetsNoLine | server.py:99-106 | a registered connection the server already closed gets no chat line, because its send fails, and a broadcast line evicts it |
| Relay.JoinIsRegisterThenAnnounce | server.py:60-68 | with no other step in between, the insertion (lines 60-65) followed by the announcement (line 68) is exactly the join step |
| Relay.AnnouncementAfterEviction | server.py:65-68 | if the joiner was evicted between its insertion and its announcement, the announcement still goes to every other registered connection whose send succeeds, and evicts the failures |
| Relay.RunPreservesInv | server.py:60-68 | names stay unique in every interleaving of accepts, handshake insertions, join announcements, chat lines, cleanups and shutdowns in which sends to closed connections fail; the insertion and the announcement of one handshake are separate steps, so other threads' steps may come between them |
| Server.ChatServer.constructor | server.py:9-16 | a new server has an empty registry, no messages sent, nothing closed, an open listener and the given banned addresses |
| Server.ChatServer.Broadcast | server.py:97-106 | the loop over the key snapshot performs exactly `BroadcastStep` and keeps `Valid()` |
| Server.ChatServer.Evict | server.py:105-106 | a failed recipient is deleted from the registry and its order, and closed; nothing else changes |
| Server.ChatServer.Register | server.py:55-65 | returns how the name check ends (empty, taken, or joined with the stripped name) and performs exactly `Admit`: nothing for an empty name, the rejection and a close for a taken one, the insertion otherwise; keeps `Valid()` |
| Server.ChatServer.Join | server.py:52-68 | returns how the handshake ends and performs exactly `JoinStep`, keeping `Valid()` |
| Server.ChatServer.HandleLine | server.py:78-84 | performs exactly `LineStep` |
| Server.ChatServer.Cleanup | server.py:89-96 | performs exactly `CleanupStep` |
| Server.ChatServer.HandleClient | server.py:52-96 | handshake, receive loop and cleanup of one uninterleaved session perform exactly `SessionStep` |
| Server.ChatServer.Shutdown | server.py:107-116 | the loop over the keys performs exactly `ShutdownStep` |
| Server.ChatServer.Accept | server.py:36-40 | admits a connection iff its address is not banned; a banned one is closed and nothing else changes; keeps `Valid()` |
| Server.ChatServer.Listen | server.py:34-50 | returns the admitted connections in arrival order and performs the accept loop, then closes the listener; keeps `Valid()` |
| Locking.BroadcastAsWrittenFree | server.py:97-106 | `broadcast` entered with the lock free completes and performs `BroadcastStep` |
| Locking.CleanupAsWrittenDeadlocks | server.py:91-98 | as written, the cleanup of a registered connection, started with the lock free, blocks forever in `broadcast` acquiring the lock it took at line 91 |
| Locking.CleanupAsWrittenAbsent | server.py:91-96 | as written, cleanup of an unregistered connection completes and agrees with `CleanupStep` |

## Left out

- Sockets and threads (`socket`, `setsockopt`, `bind`, `listen`, `accept`, `recv`, `send`, `close`, one thread per connection): connections are ids and every send outcome is an input. A bind failure is not modelled.
- `threading.Lock`: every critical section is one atomic step. `Relay.Run` covers the interleavings of those steps, with the handshake's insertion and announcement as two steps. The lock itself is modelled only in `Locking`. `HandleClient` covers one session not interleaved with others.
- The framing of `recv(1024)` and UTF-8 decoding: one read is one payload of already decoded text. The 1024-byte limit on the name is not modelled.
- The receive loop runs on a finite trace. The end of the trace stands for the session ending. A read after the server itself closed the connection (because it was evicted) counts as a failed read, as `recv` on a closed socket raises. `ConnectionResetError` and every other read error are folded into one `Reset` read, since they end the session the same way.
- `datetime.now().strftime`: the timestamp is an opaque string that comes with each read.
- `load_config`: the banned addresses are a constructor argument. The port is not modelled.
- Console messages (`print`) and the `__main__` argument parsing.
- `muted_users`: it is never read or written after construction.
- `client.py`, the interactive terminal client.
- Sends to closed sockets: a send to a connection the server already closed raises, so it must be among that step's failures. `Relay.Run` requires this of every step (`ClosedSendsFail`). The step functions and the class methods taken one at a time leave the failure sets free. Only connections that stay registered after `shutdown_server` closed them are affected.
- Server.ChatServer.Listen: the operator's interrupt is modelled as the end of the arrival sequence.

## Findings

| source | as written | input that shows it | evidently intended | confidence | as-written member | corrected member |
|---|---|---|---|---|---|---|
| server.py:91-98 | the `finally` block calls `broadcast` while holding `self.lock`, and `broadcast` acquires `self.lock` again; a `threading.Lock` is not reentrant | any registered participant disconnecting: its thread blocks forever holding the registry lock, so no "Exited." notice is sent and every later join, broadcast and cleanup blocks | remove the connection, then announce its departure to the remaining participants | high (not executed) | Locking.CleanupAsWrittenDeadlocks | Relay.CleanupAnnounces |
