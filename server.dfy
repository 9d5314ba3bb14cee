/**
 The TCP server as an object: the started flag, the session registry and the
 log of calls it makes, updated in place by its operations. Each operation is
 one atomic step; the loop thread's body is ServerLoop, given the outcomes the
 reactor produced.
 */
module TcpServer {
  import opened TcpTypes
  import opened OrderedKeys
  import opened TcpServerSpec

  class TCPServerModel {
    const endpoint: Endpoint
    var started: bool
    var sessions: map<Id, Session>
    var events: seq<Event>

    ghost predicate Valid()
      reads this
    {
      Keyed(sessions)
    }

    function State(): Server
      reads this
    {
      Server(started, sessions, events)
    }

    function IsStarted(): bool
      reads this
    {
      started
    }

    /** A server listening on the wildcard address of `protocol`; bound, not yet started. */
    constructor (protocol: InternetProtocol, port: Port)
      ensures Valid()
      ensures endpoint == AnyAddress(protocol, port)
      ensures !started && sessions == map[] && events == []
    {
      endpoint := AnyAddress(protocol, port);
      started := false;
      sessions := map[];
      events := [];
    }

    /** A server listening on a literal address; bound, not yet started. */
    constructor FromAddress(address: string, port: Port)
      ensures Valid()
      ensures endpoint == AtAddress(address, port)
      ensures !started && sessions == map[] && events == []
    {
      endpoint := AtAddress(address, port);
      started := false;
      sessions := map[];
      events := [];
    }

    /** Start: a no-op when started; otherwise onStarting, then the flag is set. */
    method Start()
      requires Valid()
      modifies this`started, this`events
      ensures Valid()
      ensures State() == StartStep(old(State()))
      ensures old(started) ==> events == old(events) && started
      ensures !old(started) ==> started && events == old(events) + [OnStarting]
    {
      if IsStarted() {
        return;
      }
      events := events + [OnStarting];
      // the loop thread is spawned here; its steps are ServerLoop
      started := true;
    }

    /** Stop: a no-op when not started; otherwise onStopping, clear the flag, disconnect every session. */
    method Stop()
      requires Valid()
      modifies this`started, this`events
      ensures Valid()
      ensures State() == StopStep(old(State()))
      ensures !old(started) ==> events == old(events) && !started
      ensures old(started) ==> !started && events == old(events) + [OnStopping] + DisconnectEvents(old(sessions))
    {
      if !IsStarted() {
        return;
      }
      events := events + [OnStopping];
      started := false;
      DisconnectAll();
      // the reactor is stopped and the loop thread joined here
    }

    /** ServerAccept: arm one asynchronous accept, only while started. */
    method ServerAccept()
      modifies this`events
      ensures State() == ArmStep(old(State()))
      ensures events == if started then old(events) + [Armed] else old(events)
    {
      if !IsStarted() {
        return;
      }
      events := events + [Armed];
    }

    /** The accept completion handler: register on success, report on failure, then accept again. */
    method AcceptCompletion(result: AcceptResult)
      requires Valid()
      modifies this`sessions, this`events
      ensures Valid()
      ensures State() == CompletionStep(old(State()), result)
      ensures result.AcceptFailed? ==> sessions == old(sessions)
      ensures events == old(events)
                        + [if result.Accepted? then
                             var session := Session(result.id, result.transport);
                             OnConnected(session, result.id !in old(sessions) || old(sessions)[result.id] == session)
                           else OnError(result.error)]
                        + (if started then [Armed] else [])
    {
      match result {
        case Accepted(id, transport) =>
          var _ := RegisterSession(id, transport);
        case AcceptFailed(error) =>
          events := events + [OnError(error)];
      }
      ServerAccept();
    }

    /**
     RegisterSession: the new session under its identifier (an existing entry is
     kept, as `emplace` does), then onConnected with the new session. The hook
     sees the new session registered exactly when the identifier was fresh or
     already mapped to an equal session.
     */
    method RegisterSession(id: Id, transport: Transport) returns (session: Session)
      requires Valid()
      modifies this`sessions, this`events
      ensures Valid()
      ensures State() == RegisterStep(old(State()), id, transport)
      ensures session == Session(id, transport)
      ensures id in old(sessions) ==> sessions == old(sessions)
      ensures id !in old(sessions) ==> sessions == old(sessions)[id := session]
      ensures id !in old(sessions) ==> events == old(events) + [OnConnected(session, true)]
      ensures id in old(sessions) ==> events == old(events) + [OnConnected(session, old(sessions)[id] == session)]
    {
      session := Session(id, transport);
      if id !in sessions {
        sessions := sessions[id := session];
      }
      events := events + [OnConnected(session, Registered(sessions, session))];
    }

    /**
     UnregisterSession: remove the entry if present and then report it
     disconnected, so the hook no longer sees it registered; else nothing.
     */
    method UnregisterSession(id: Id)
      requires Valid()
      modifies this`sessions, this`events
      ensures Valid()
      ensures State() == UnregisterStep(old(State()), id)
      ensures id in old(sessions) ==>
                sessions == old(sessions) - {id} && events == old(events) + [OnDisconnected(old(sessions)[id], false)]
      ensures id !in old(sessions) ==> sessions == old(sessions) && events == old(events)
    {
      if id in sessions {
        var session := sessions[id];
        sessions := sessions - {id};
        events := events + [OnDisconnected(session, Registered(sessions, session))];
      }
    }

    /** DisconnectAll: send Disconnect to each session of a snapshot of the registry, in ascending id order. */
    method DisconnectAll()
      modifies this`events
      ensures events == old(events) + DisconnectEvents(old(sessions))
    {
      var snapshot := sessions;
      var remaining := snapshot.Keys;
      while remaining != {}
        invariant remaining <= snapshot.Keys
        invariant events + PendingDisconnects(snapshot, remaining) == old(events) + DisconnectEvents(snapshot)
        decreases remaining
      {
        // MinKey only witnesses that a least remaining key exists, for the `:|` below.
        ghost var least := MinKey(remaining);
        var k :| k in remaining && forall j :: j in remaining ==> k <= j;
        DisconnectsStep(snapshot, remaining, k);
        events := events + [Disconnect(snapshot[k])];
        remaining := remaining - {k};
        assert events + PendingDisconnects(snapshot, remaining) == old(events) + DisconnectEvents(snapshot);
      }
      assert PendingDisconnects(snapshot, remaining) == [];
    }

    /** One `run` of the reactor: dispatch its completion handlers in order, then report its error. */
    method Run(run: RunOutcome)
      requires Valid()
      modifies this`sessions, this`events
      ensures Valid()
      ensures State() == RunStep(old(State()), run)
    {
      var i := 0;
      while i < |run.dispatched|
        invariant 0 <= i <= |run.dispatched|
        invariant Valid()
        invariant State() == DispatchAll(old(State()), run.dispatched[..i])
      {
        assert run.dispatched[..i + 1][..i] == run.dispatched[..i];
        match run.dispatched[i] {
          case AcceptDone(result) => AcceptCompletion(result);
          case SessionClosed(id) => UnregisterSession(id);
        }
        i := i + 1;
      }
      assert run.dispatched[..i] == run.dispatched;
      if run.error.Some? {
        events := events + [OnError(run.error.value)];
      }
    }

    /**
     ServerLoop, the loop thread's body. `runs` are the `run` calls that return
     while the server stays started; after them, either the next `run` throws
     (`fault`) or another thread's Stop clears the flag and the loop exits.
     */
    method ServerLoop(runs: seq<RunOutcome>, fault: bool)
      requires Valid()
      modifies this`started, this`sessions, this`events
      ensures Valid()
      ensures State() == LoopStep(old(State()), runs, fault)
    {
      events := events + [OnThreadInitialize];
      events := events + [OnStarted];
      ServerAccept();
      ghost var armed := State();
      assert armed == ArmStep(old(State()).(events := old(events) + [OnThreadInitialize, OnStarted]));
      var i := 0;
      var faulted := false;
      while started && !faulted
        invariant 0 <= i <= |runs|
        invariant Valid()
        invariant !armed.started ==> State() == armed && !faulted
        invariant armed.started && started && !faulted ==> State() == RunAll(armed, runs[..i])
        invariant armed.started && !started ==> !faulted && !fault && State() == StopStep(RunAll(armed, runs))
        invariant faulted ==> fault && armed.started && started && State() == RunAll(armed, runs)
        decreases |runs| - i, if started && !faulted then 1 else 0
      {
        if i < |runs| {
          RunAllFacts(armed, runs[..i]);
          assert runs[..i + 1][..i] == runs[..i];
          Run(runs[i]);
          i := i + 1;
          RunAllFacts(armed, runs[..i]);
        } else if fault {
          assert runs[..i] == runs;
          faulted := true;
        } else {
          assert runs[..i] == runs;
          RunAllFacts(armed, runs);
          Stop();
        }
      }
      RunAllFacts(armed, runs);
      if faulted {
        events := events + [Fatality(FatalMessage)];
      } else {
        events := events + [OnStopped];
      }
      events := events + [OnThreadCleanup];
    }
  }
}
