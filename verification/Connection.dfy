/** The connection vocabulary and the ACP v1 adapter (agent_connection.rs).

    The adapter numbers outgoing requests, remembers what each is for until its
    response arrives, and numbers the signals it makes from wire messages. JSON
    values appear as the fields the code reads from them. */
module Connection {
  import opened Prelude

  /** Protocol-native session ids. The code compares and orders them and looks no further. */
  type NativeId = nat
  /** Canonical agent-session refs. */
  type Ref = string

  datatype SessionOpenMode = Create | Load | Resume | Attach

  datatype Binding = Binding(nativeId: NativeId, agentSession: Option<Ref>, openedAs: SessionOpenMode)

  datatype SignalKind =
    | SessionOpened(binding: Binding)
    | Completed(stopReason: string)
    | Cancelled
    | Failed(reason: string)
    | Update(text: string)

  datatype Signal = Signal(sequence: nat, nativeId: Option<NativeId>, kind: SignalKind)

  predicate Terminal(kind: SignalKind) {
    kind.Completed? || kind.Cancelled? || kind.Failed?
  }

  /** What the adapter remembers about a request it has numbered. */
  datatype Pending =
    | Initialize
    | Open(mode: SessionOpenMode, canonical: Option<Ref>, requested: Option<NativeId>)
    | Prompt(nativeId: NativeId)

  datatype SessionIdField = Absent | Malformed | Given(id: NativeId)

  /** The parts of a JSON-RPC response the adapter reads. */
  datatype Reply =
    | RemoteError
    | Reply(protocolVersion: Option<nat>,
            advertised: set<SessionOpenMode>,
            directories: bool,
            sessionObject: bool,
            sessionId: SessionIdField,
            modelsReadable: bool,
            stopReason: Option<string>)

  /** One inbound wire message. A `MarkedResponse` has an id and a `method` member that is no
      string: the host takes any method member to mean it is no response, the adapter only a string.
      `Unreadable` is neither a method nor a response with an integer id; the adapter refuses it. */
  datatype Message =
    | Response(id: nat, reply: Reply)
    | MarkedResponse(id: nat, reply: Reply)
    | SessionUpdate(session: Option<NativeId>, text: string)
    | SessionCancel(session: Option<NativeId>)
    | PermissionRequest(session: Option<NativeId>)
    | OtherMethod
    | Unreadable

  datatype AdapterError =
    | UnknownResponse
    | Remote
    | InvalidInitialize
    | UnsupportedProtocol
    | InvalidSessionResponse
    | SessionIdentityChanged
    | NativeSessionIdRequired
    | SessionOperationUnsupported
    | AdditionalDirectoriesUnsupported
    | InvalidMessage

  datatype Adapter = Adapter(
    nextRequestId: nat,
    nextSequence: nat,
    sessionOpen: set<SessionOpenMode>,
    additionalDirectories: bool,
    pending: map<nat, Pending>)

  const ACP_STABLE_PROTOCOL_VERSION: nat := 1

  const FRESH_ADAPTER := Adapter(1, 1, {Create}, false, map[])

  datatype Issued = Issued(adapter: Adapter, id: nat)

  function Request(a: Adapter, what: Pending): Issued {
    Issued(a.(nextRequestId := a.nextRequestId + 1, pending := a.pending[a.nextRequestId := what]),
           a.nextRequestId)
  }

  predicate Supports(a: Adapter, mode: SessionOpenMode) {
    mode in a.sessionOpen || ((mode == Resume || mode == Attach) && Resume in a.sessionOpen)
  }

  function OpenSession(a: Adapter, mode: SessionOpenMode, canonical: Option<Ref>,
                       requested: Option<NativeId>, wantsDirectories: bool): Result<Issued, AdapterError>
  {
    if !Supports(a, mode) then Err(SessionOperationUnsupported)
    else if wantsDirectories && !a.additionalDirectories then Err(AdditionalDirectoriesUnsupported)
    else if mode != Create && requested.None? then Err(NativeSessionIdRequired)
    else Ok(Request(a, Open(mode, canonical, requested)))
  }

  datatype Ingested = Ingested(adapter: Adapter, result: Result<seq<Signal>, AdapterError>)

  /** Number one signal. */
  function Emit(a: Adapter, nativeId: Option<NativeId>, kind: SignalKind): Ingested {
    Ingested(a.(nextSequence := a.nextSequence + 1), Ok([Signal(a.nextSequence, nativeId, kind)]))
  }

  function Refuse(a: Adapter, error: AdapterError): Ingested {
    Ingested(a, Err(error))
  }

  function InitializeReply(a: Adapter, reply: Reply): Ingested
    requires reply.Reply?
  {
    match reply.protocolVersion
    case None => Refuse(a, InvalidInitialize)
    case Some(version) =>
      if version != ACP_STABLE_PROTOCOL_VERSION then Refuse(a, UnsupportedProtocol)
      else
        var modes := {Create} + (reply.advertised * {Load, Resume});
        Emit(a.(sessionOpen := modes, additionalDirectories := reply.directories), None, Update("negotiated"))
  }

  /** The native id a successful open answers with. Create takes the provider's
      id; every other mode keeps the requested one and refuses a contradiction. */
  function OpenedId(mode: SessionOpenMode, requested: Option<NativeId>, reply: Reply): Result<NativeId, AdapterError>
    requires reply.Reply?
  {
    if !reply.sessionObject || reply.sessionId.Malformed? then Err(InvalidSessionResponse)
    else if mode == Create then
      if reply.sessionId.Given? then Ok(reply.sessionId.id) else Err(InvalidSessionResponse)
    else
      match requested
      case None => Err(NativeSessionIdRequired)
      case Some(id) =>
        if reply.sessionId.Given? && reply.sessionId.id != id then Err(SessionIdentityChanged) else Ok(id)
  }

  function OpenReply(a: Adapter, mode: SessionOpenMode, canonical: Option<Ref>,
                     requested: Option<NativeId>, reply: Reply): Ingested
    requires reply.Reply?
  {
    match OpenedId(mode, requested, reply)
    case Err(e) => Refuse(a, e)
    case Ok(id) =>
      if !reply.modelsReadable then Refuse(a, InvalidSessionResponse)
      else Emit(a, Some(id), SessionOpened(Binding(id, canonical, mode)))
  }

  function PromptReply(a: Adapter, nativeId: NativeId, reply: Reply): Ingested
    requires reply.Reply?
  {
    var stop := if reply.stopReason.Some? then reply.stopReason.value else "end_turn";
    Emit(a, Some(nativeId), if stop == "cancelled" then Cancelled else Completed(stop))
  }

  function IngestResponse(a: Adapter, id: nat, reply: Reply): Ingested {
    if id !in a.pending then Refuse(a, UnknownResponse)
    else
      var b := a.(pending := a.pending - {id});
      if reply.RemoteError? then Refuse(b, Remote)
      else
        match a.pending[id]
        case Initialize => InitializeReply(b, reply)
        case Open(mode, canonical, requested) => OpenReply(b, mode, canonical, requested, reply)
        case Prompt(nativeId) => PromptReply(b, nativeId, reply)
  }

  function NamedSignal(a: Adapter, session: Option<NativeId>, kind: SignalKind): Ingested {
    if session.None? then Refuse(a, InvalidMessage) else Emit(a, session, kind)
  }

  /** The request a message answers, as the adapter reads it. */
  function Answers(message: Message): Option<nat> {
    match message
    case Response(id, _) => Some(id)
    case MarkedResponse(id, _) => Some(id)
    case _ => None
  }

  function Ingest(a: Adapter, message: Message): Ingested {
    match message
    case Response(id, reply) => IngestResponse(a, id, reply)
    case MarkedResponse(id, reply) => IngestResponse(a, id, reply)
    case SessionUpdate(session, text) => NamedSignal(a, session, Update(text))
    case SessionCancel(session) => NamedSignal(a, session, Cancelled)
    case PermissionRequest(session) => NamedSignal(a, session, Update("permission"))
    case OtherMethod => Ingested(a, Ok([]))
    case Unreadable => Refuse(a, InvalidMessage)
  }

  /** Every id the adapter remembers was numbered by it, so the next number is free. */
  predicate Numbered(a: Adapter) {
    forall id :: id in a.pending ==> id < a.nextRequestId
  }
}
