/**
 The values the TCP server core works with: session identities and handles,
 the (code, category, message) error triple, the outcomes the reactor hands
 back, and the hook calls the server makes, recorded as events.
 */
module TcpTypes {

  datatype Option<+T> = None | Some(value: T)

  /** Session identifier. The server keys its registry by it, in ascending order. */
  type Id = int

  /** Handle of an accepted, connected socket; moved into the session that owns it. */
  type Transport = nat

  /** A 16-bit port number. */
  newtype Port = x: int | 0 <= x < 0x1_0000

  datatype InternetProtocol = IPv4 | IPv6

  /** The listening endpoint: a wildcard address of one protocol family, or a literal address. */
  datatype Endpoint =
    | AnyAddress(protocol: InternetProtocol, port: Port)
    | AtAddress(address: string, port: Port)

  /** One accepted connection: its identifier and the transport it owns. */
  datatype Session = Session(id: Id, transport: Transport)

  /** An error as the reactor reports it. */
  datatype ErrorInfo = ErrorInfo(code: int, category: string, message: string)

  /** The completion of one asynchronous accept: a new connection or an error. */
  datatype AcceptResult =
    | Accepted(id: Id, transport: Transport)
    | AcceptFailed(error: ErrorInfo)

  /** A completion handler the reactor dispatches on the loop thread during one `run`. */
  datatype Dispatched =
    | AcceptDone(result: AcceptResult)
    | SessionClosed(id: Id)   // a session's own handler calls UnregisterSession(id)

  /** One blocking `run` call: the handlers it dispatched, in order, and the error it returned. */
  datatype RunOutcome = RunOutcome(dispatched: seq<Dispatched>, error: Option<ErrorInfo>)

  /** The message the loop thread passes to the fatal-failure hook. */
  const FatalMessage: string := "TCP server thread terminated!"

  /**
   Every observable call the server makes: its hooks, session disconnects and
   accept arming. `registered` on onConnected and onDisconnected records what
   the hook sees: whether the registry maps the session's id to that very
   session at the moment the hook is called.
   */
  datatype Event =
    | OnStarting
    | OnStarted
    | OnStopping
    | OnStopped
    | OnConnected(session: Session, registered: bool)
    | OnDisconnected(session: Session, registered: bool)
    | OnError(error: ErrorInfo)
    | OnThreadInitialize
    | OnThreadCleanup
    | Fatality(message: string)
    | Disconnect(session: Session)
    | Armed

  /**
   The thread hooks: onThreadInitialize, onStarted, onStopped, fatality and
   onThreadCleanup, which only the loop thread's own body calls, outside its
   dispatch loop.
   */
  predicate IsThreadHook(e: Event)
  {
    e.OnThreadInitialize? || e.OnThreadCleanup? || e.OnStarted? || e.OnStopped? || e.Fatality?
  }
}
