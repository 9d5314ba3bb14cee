# TCP server core: lifecycle, accept chain and session registry

This project is a Dafny model of the sequential core of CppServer's `TCPServer<TServer, TSession>`
(`include/server/tcp/server.inl`). The server binds a listening endpoint and starts and stops a
background loop thread. That thread drives the asio reactor, keeps re-arming an asynchronous
accept, registers one session per accepted connection, and reports errors through hooks.

The model is one class, `TcpServer.TCPServerModel`, with three fields:
- `started`: the started flag.
- `sessions`: the registry, a `map<Id, Session>` that mirrors `_sessions`.
- `events`: a log with one entry for each hook call (`onStarting`, `onStarted`, `onStopping`,
  `onStopped`, `onConnected`, `onDisconnected`, `onError`, `onThreadInitialize`, `onThreadCleanup`,
  `fatality`), each `Disconnect` sent to a session, and each accept that is armed.

Every public operation is one atomic step. Each method except `DisconnectAll` is proved equal to a
step function on an abstract `Server` value in module `TcpServerSpec`:
`State() == XStep(old(State()))`. `DisconnectAll` is private to `Stop` and is specified by the events
it appends, `DisconnectEvents(old(sessions))`. The lemmas in that module state what the steps
promise:
- idempotence of Start and Stop;
- an exact choice between the success and error branches of an accept completion;
- exactly one Disconnect per registered session, in ascending identifier order;
- the order of the loop thread's hooks;
- exactly one `onError` per failure;
- one accept re-armed per accept completion while started.

`onConnected` and `onDisconnected` carry a flag, `registered`. It records whether the registry maps
the session's identifier to that very session at the moment the hook is called. That flag is how
the model states the order of the registry update and the hook call.

Modules:
- `TcpTypes`: sessions, error triples, reactor outcomes and events.
- `OrderedKeys`: the ascending order in which a `std::map` visits its keys.
- `TcpServerSpec`: the step functions and the lemmas about them.
- `TcpServer`: the class.

The loop thread is modelled as `ServerLoop(runs, fault)`.
- `runs` lists the `run` calls that returned while the server stayed started.
- Each run lists the completion handlers it dispatched, in order. A handler is either an accept
  completion or a session's own handler calling `UnregisterSession`. Each run also carries the
  error it returned, if any.
- After the listed runs, one of two things happens. If `fault` is set, the next `run` throws and
  the `catch (...)` path runs. Otherwise another thread's `Stop` runs to completion, which clears
  the flag and ends the `while (_started)` loop.
- The asynchronous re-arm inside the accept handler is modelled as "completion, then
  `ServerAccept`".

## Model

| member | source | states |
|---|---|---|
| `TcpServer.TCPServerModel.constructor` | include/server/tcp/server.inl:12-32 | a new server listens on the wildcard address of the chosen protocol; not started, empty registry, no hook called |
| `TcpServer.TCPServerModel.FromAddress` | include/server/tcp/server.inl:35-46 | a new server listens on the given literal address; not started, empty registry, no hook called |
| `TcpServer.TCPServerModel.Start` | include/server/tcp/server.inl:49-62 | if already started, nothing changes; otherwise exactly `onStarting` is logged and the flag becomes true; the registry is untouched |
| `TcpServer.TCPServerModel.Stop` | include/server/tcp/server.inl:65-84 | if not started, nothing changes and no hook fires; otherwise `onStopping` is logged, the flag is cleared, and then one Disconnect per session of the registry as it was, in ascending id order; the registry itself is untouched |
| `TcpServer.TCPServerModel.ServerAccept` | include/server/tcp/server.inl:87-92 | an accept is armed exactly when the server is started; nothing else changes |
| `TcpServer.TCPServerModel.AcceptCompletion` | include/server/tcp/server.inl:92-101 | success registers the new session and logs `onConnected` for it, with the flag saying whether the hook sees it registered; failure logs `onError(code, category, message)` and leaves the registry alone; either way an accept is then re-armed if and only if the server is started |
| `TcpServer.TCPServerModel.RegisterSession` | include/server/tcp/server.inl:140-152 | returns the new session; a fresh id is mapped to it and every other entry is kept; an id already present keeps its old entry (as `emplace` does); `onConnected` with the new session is logged with `registered` true for a fresh id, and for a taken id true only if the old entry equals the new session |
| `TcpServer.TCPServerModel.UnregisterSession` | include/server/tcp/server.inl:155-176 | a present id is removed and nothing else; `onDisconnected` is logged once, with the removed session and `registered` false; an absent id changes nothing |
| `TcpServer.TCPServerModel.DisconnectAll` | include/server/tcp/server.inl:179-191 | works on a snapshot; appends exactly the Disconnects of `DisconnectEvents(old(sessions))`; may modify only the log, so the registry and the flag are unchanged |
| `TcpServer.TCPServerModel.Run` | include/server/tcp/server.inl:119-125 | one `run` call: its dispatched handlers in order, then `onError` if it returned an error; the registry invariant is kept |
| `TcpServer.TCPServerModel.ServerLoop` | include/server/tcp/server.inl:105-137 | the loop thread's body equals `LoopStep` of the state at entry; its properties are `LoopHookOrder`, `LoopReportsEveryFailure` and `LoopRearmsAfterEveryCompletion` |
| `TcpServerSpec.StartStopIdempotent` | include/server/tcp/server.inl:49-84 | Start leaves the server started and Stop leaves it stopped; a second Start or Stop changes nothing; Start on a started server and Stop on a stopped one are no-ops |
| `TcpServerSpec.StopStepFacts` | include/server/tcp/server.inl:65-84 | Stop on a started server clears the flag, keeps the registry, logs `onStopping` first, adds no thread hook (`onThreadInitialize`, `onStarted`, `onStopped`, `fatality`, `onThreadCleanup`), no error report and no armed accept |
| `TcpServerSpec.DisconnectEachOnce` | include/server/tcp/server.inl:179-191 | with every entry keyed by its own id, the disconnects number exactly the sessions; every registered session receives one; each names a session of the snapshot; ids are strictly ascending, so none is repeated |
| `TcpServerSpec.PendingInKeyOrder` | include/server/tcp/server.inl:188-190 | taking the least remaining key each time visits the keys in `SortedKeys` order, which is the order of the ordered map |
| `TcpServerSpec.DisconnectsStep` | include/server/tcp/server.inl:189-190 | disconnecting the least remaining id first leaves exactly the disconnects of the remaining ids |
| `OrderedKeys.SortedKeys` | include/server/tcp/server.inl:189 | the keys of a set, each once, in strictly ascending order, the order in which `std::map` is iterated |
| `TcpServerSpec.UnregisterIdempotent` | include/server/tcp/server.inl:155-176 | unregistering an id twice equals unregistering it once |
| `TcpServerSpec.UnregisterUndoesRegister` | include/server/tcp/server.inl:140-176 | registering a fresh id and then unregistering it restores the registry; the log gains `onConnected` with `registered` true, then `onDisconnected` with `registered` false, both with that session |
| `TcpServerSpec.DispatchStepFacts` | include/server/tcp/server.inl:92-101 | one dispatched handler keeps the flag and the registry invariant, adds no thread hook (`onThreadInitialize`, `onStarted`, `onStopped`, `fatality`, `onThreadCleanup`), adds one error report exactly when it is a failed accept, and arms one accept exactly when it is an accept completion on a started server |
| `TcpServerSpec.RunAllFacts` | include/server/tcp/server.inl:119-125 | the dispatch loop keeps the flag and the registry invariant, adds no thread hook (`onThreadInitialize`, `onStarted`, `onStopped`, `fatality`, `onThreadCleanup`), adds exactly one `onError` per failed accept and per failed `run`, and, when started, arms exactly one accept per accept completion |
| `TcpServerSpec.LoopHookOrder` | include/server/tcp/server.inl:105-137 | `onThreadInitialize` comes first and `onThreadCleanup` last; `onStarted` comes second; when started, the first accept is armed immediately after `onStarted`; just before the cleanup comes `fatality` on the fault path and `onStopped` otherwise; no thread hook (`onThreadInitialize`, `onStarted`, `onStopped`, `fatality`, `onThreadCleanup`) lies in between; if the flag was false at entry, the loop logs only those four hooks; at exit the flag is set only on the fault path |
| `TcpServerSpec.LoopRearmsAfterEveryCompletion` | include/server/tcp/server.inl:87-125 | in a started loop, the number of armed accepts grows by one (after `onStarted`) plus exactly the number of accept completions, failed or not, so the accept chain never lapses; if not started, none is armed |
| `TcpServerSpec.LoopReportsEveryFailure` | include/server/tcp/server.inl:92-125 | in a started loop, the number of `onError` reports grows by exactly the number of failed accepts plus failed `run` calls; if not started, it grows by none |

## Left out

- Endpoint construction and acceptor binding (asio `endpoint`, `acceptor`, `address::from_string`) are foreign library calls. An unparsable address or a port already in use throws in the constructor; the model only records the endpoint value and does not model these construction failures.
- `io_service::run` and `io_service::stop` are not modelled as code. A `run` call appears only as its outcome: the handlers it dispatched and the error it returned. `_service.stop()` and `_thread.join()` in `Stop` are left as comments in the model.
- Threads and the registry mutex are not modelled: every public call is one atomic step. The loop thread is spawned before the flag is set, so it can read `_started` as false. `ServerLoop` on a server that is not started models that outcome: it skips the loop and logs only the four thread hooks `onThreadInitialize`, `onStarted`, `onStopped` and `onThreadCleanup`. A second outcome of the same race is not modelled: the loop thread can read `_started` as false in `ServerAccept` (server.inl:89), so no accept is armed, and then read it as true at `while (_started)` (server.inl:119), so `run` keeps returning without work until `Stop`. The model reads the flag once at entry.
- TcpServer.TCPServerModel.ServerLoop: a concurrent `Stop` is placed only after the last listed `run`, and that interrupted `run` is taken to return no error. Interleavings of `Stop` with individual completion handlers inside one `run` are not modelled.
- UUID generation (`CppCommon::UUID::Generate`) is a parameter. The caller supplies the identifier, and the order of identifiers is the integer order.
- `TSession` (its constructor, I/O and the body of `Disconnect`) is not part of this model. A `Disconnect` is recorded only as an event. The model does not claim that the registry is empty after `Stop`: whether a disconnected session unregisters itself is decided by session code.
- C++ exceptions are reduced to one `fault` flag: an exception thrown by the `run` after the listed ones. The process termination that `fatality` leads to is not modelled; the state after the fault path keeps `started` true.
- `RegisterSession` returns the session it made; a success handler ignores that result, as the source does.
