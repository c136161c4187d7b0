/** The ACP v1 adapter as the code keeps it: counters and a table changed in
    place, each method proved to do what the adapter's functions say. */
module AcpAdapter {
  import opened Prelude
  import opened Connection

  class AcpV1ConnectionAdapter {
    var nextRequestId: nat
    var nextSequence: nat
    var sessionOpen: set<SessionOpenMode>
    var additionalDirectories: bool
    var pending: map<nat, Pending>

    ghost function View(): Adapter
      reads this
    {
      Adapter(nextRequestId, nextSequence, sessionOpen, additionalDirectories, pending)
    }

    constructor ()
      ensures View() == FRESH_ADAPTER
    {
      nextRequestId, nextSequence := 1, 1;
      sessionOpen, additionalDirectories := {Create}, false;
      pending := map[];
    }

    method Request(what: Pending) returns (id: nat)
      requires Numbered(View())
      modifies this
      ensures Issued(View(), id) == Connection.Request(old(View()), what)
      ensures Numbered(View()) && id !in old(pending)
    {
      id := nextRequestId;
      nextRequestId := nextRequestId + 1;
      pending := pending[id := what];
    }

    method Emit(nativeId: Option<NativeId>, kind: SignalKind) returns (signal: Signal)
      modifies this`nextSequence
      ensures Ingested(View(), Ok([signal])) == Connection.Emit(old(View()), nativeId, kind)
    {
      signal := Signal(nextSequence, nativeId, kind);
      nextSequence := nextSequence + 1;
    }

    method OpenSession(mode: SessionOpenMode, canonical: Option<Ref>, requested: Option<NativeId>, directories: bool)
      returns (result: Result<nat, AdapterError>)
      requires Numbered(View())
      modifies this
      ensures match Connection.OpenSession(old(View()), mode, canonical, requested, directories)
              case Err(e) => result == Err(e) && View() == old(View())
              case Ok(issued) => result == Ok(issued.id) && View() == issued.adapter
      ensures Numbered(View())
    {
      var resumeRouted := mode == Resume || mode == Attach;
      if mode !in sessionOpen && !(resumeRouted && Resume in sessionOpen) {
        return Err(SessionOperationUnsupported);
      }
      if directories && !additionalDirectories {
        return Err(AdditionalDirectoriesUnsupported);
      }
      if mode != Create && requested.None? {
        return Err(NativeSessionIdRequired);
      }
      var id := Request(Open(mode, canonical, requested));
      return Ok(id);
    }

    method ApplyInitializeResult(reply: Reply) returns (result: Result<seq<Signal>, AdapterError>)
      requires reply.Reply?
      modifies this
      ensures Ingested(View(), result) == InitializeReply(old(View()), reply)
    {
      if reply.protocolVersion.None? {
        return Err(InvalidInitialize);
      }
      if reply.protocolVersion.value != ACP_STABLE_PROTOCOL_VERSION {
        return Err(UnsupportedProtocol);
      }
      var modes := {Create};
      if Load in reply.advertised {
        modes := modes + {Load};
      }
      if Resume in reply.advertised {
        modes := modes + {Resume};
      }
      assert modes == {Create} + (reply.advertised * {Load, Resume});
      sessionOpen, additionalDirectories := modes, reply.directories;
      var signal := Emit(None, Update("negotiated"));
      return Ok([signal]);
    }

    method IngestOpen(mode: SessionOpenMode, canonical: Option<Ref>, requested: Option<NativeId>, reply: Reply)
      returns (result: Result<seq<Signal>, AdapterError>)
      requires reply.Reply?
      modifies this
      ensures Ingested(View(), result) == OpenReply(old(View()), mode, canonical, requested, reply)
    {
      if !reply.sessionObject || reply.sessionId.Malformed? {
        return Err(InvalidSessionResponse);
      }
      var id: NativeId;
      if mode == Create {
        if !reply.sessionId.Given? {
          return Err(InvalidSessionResponse);
        }
        id := reply.sessionId.id;
      } else {
        if requested.None? {
          return Err(NativeSessionIdRequired);
        }
        if reply.sessionId.Given? && reply.sessionId.id != requested.value {
          return Err(SessionIdentityChanged);
        }
        id := requested.value;
      }
      if !reply.modelsReadable {
        return Err(InvalidSessionResponse);
      }
      var signal := Emit(Some(id), SessionOpened(Binding(id, canonical, mode)));
      return Ok([signal]);
    }

    method IngestResponse(id: nat, reply: Reply) returns (result: Result<seq<Signal>, AdapterError>)
      modifies this
      ensures Ingested(View(), result) == Connection.IngestResponse(old(View()), id, reply)
    {
      if id !in pending {
        return Err(UnknownResponse);
      }
      var what := pending[id];
      pending := pending - {id};
      if reply.RemoteError? {
        return Err(Remote);
      }
      match what {
        case Initialize =>
          result := ApplyInitializeResult(reply);
        case Open(mode, canonical, requested) =>
          result := IngestOpen(mode, canonical, requested, reply);
        case Prompt(nativeId) =>
          var stop := if reply.stopReason.Some? then reply.stopReason.value else "end_turn";
          var signal := Emit(Some(nativeId), if stop == "cancelled" then Cancelled else Completed(stop));
          result := Ok([signal]);
      }
    }

    method Ingest(message: Message) returns (result: Result<seq<Signal>, AdapterError>)
      modifies this
      ensures Ingested(View(), result) == Connection.Ingest(old(View()), message)
    {
      match message {
        case Response(id, reply) =>
          result := IngestResponse(id, reply);
        case MarkedResponse(id, reply) =>
          result := IngestResponse(id, reply);
        case SessionUpdate(session, text) =>
          result := Named(session, Update(text));
        case SessionCancel(session) =>
          result := Named(session, Cancelled);
        case PermissionRequest(session) =>
          result := Named(session, Update("permission"));
        case OtherMethod => result := Ok([]);
        case Unreadable => result := Err(InvalidMessage);
      }
    }

    method Named(session: Option<NativeId>, kind: SignalKind) returns (result: Result<seq<Signal>, AdapterError>)
      modifies this
      ensures Ingested(View(), result) == NamedSignal(old(View()), session, kind)
    {
      if session.None? {
        return Err(InvalidMessage);
      }
      var signal := Emit(session, kind);
      return Ok([signal]);
    }
  }
}
