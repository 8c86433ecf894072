/**
 The departure cleanup of server.py as written, with the one lock it uses.
 The finally-block takes `self.lock` (line 91) and, while still holding it,
 calls `broadcast` (line 95), which takes the same lock again (line 98). A
 `threading.Lock` is not reentrant, so that second acquisition never returns.
 Module Relay models the evidently intended effect (`CleanupStep`).
 */
module Locking {
  import opened Relay

  /** `self.lock`: whether some thread holds it. */
  datatype Lock = Lock(held: bool)

  /** `acquire()` on a non-reentrant lock: the lock now held, or `None` if the call blocks forever
      because the lock is already held (by this very thread, in the case below). */
  function Acquire(l: Lock): Option<Lock>
  {
    if l.held then None else Some(Lock(true))
  }

  /** How a piece of code ends: with a new state, or blocked forever. */
  datatype Outcome = Finished(after: State) | Deadlocked

  /** `broadcast` as written (lines 97-106), entered with the lock in state `l`. */
  function BroadcastAsWritten(s: State, l: Lock, msg: string, exclude: Option<ConnId>, failures: set<ConnId>): Outcome
  {
    match Acquire(l)
    case None => Deadlocked
    case Some(_) => Finished(BroadcastStep(s, msg, exclude, failures))
  }

  /** The finally-block of `handle_client` exactly as written (lines 89-98), entered with the lock in
      state `l`; `broadcast` is called with the lock acquired at line 91 still held. */
  function CleanupAsWritten(s: State, l: Lock, conn: ConnId, failures: set<ConnId>): Outcome
  {
    match Acquire(l)
    case None => Deadlocked
    case Some(inside) =>
      if conn in s.clients then
        var left := s.clients[conn];
        var s1 := s.(clients := s.clients - {conn}, order := Drop(s.order, {conn}));
        match BroadcastAsWritten(s1, inside, ExitNotice(left), None, failures)
        case Deadlocked => Deadlocked
        case Finished(s2) => Finished(s2.(closed := s2.closed + {conn}))
      else
        Finished(s.(closed := s.closed + {conn}))
  }

  /** Called with the lock free, as every other caller does, `broadcast` completes. */
  lemma BroadcastAsWrittenFree(s: State, msg: string, exclude: Option<ConnId>, failures: set<ConnId>)
    ensures BroadcastAsWritten(s, Lock(false), msg, exclude, failures) == Finished(BroadcastStep(s, msg, exclude, failures))
  {
  }

  /** Every departure of a registered participant deadlocks as written, even though the lock is
      free when the finally-block starts: the thread blocks inside `broadcast` holding the registry
      lock, so no "Exited." notice is ever sent. */
  lemma CleanupAsWrittenDeadlocks(s: State, conn: ConnId, failures: set<ConnId>)
    requires conn in s.clients
    ensures CleanupAsWritten(s, Lock(false), conn, failures) == Deadlocked
  {
  }

  /** When the connection is no longer registered the code as written agrees with the model. */
  lemma CleanupAsWrittenAbsent(s: State, conn: ConnId, failures: set<ConnId>)
    requires conn !in s.clients
    ensures CleanupAsWritten(s, Lock(false), conn, failures) == Finished(CleanupStep(s, conn, failures))
  {
  }
}
