/** The whole host at work: any number of caller threads, the one reader thread,
    the adapter and the state, interleaved in any order.

    A caller is where it stands between two locks; the reader likewise. One
    action is one locked region or one step on the wire. `Do` leaves the system
    as it is when the action is not enabled. */
module SessionSystem {
  import opened Prelude
  import opened Connection
  import opened SessionHost

  type Thread = nat

  datatype Caller =
    | Idle
    | Opening(canonical: Ref, mode: SessionOpenMode, requested: Option<NativeId>, directories: bool)
    | IssuedControl(id: nat, registration: Registration)
    | RegisteredControl(id: nat, registration: Registration)
    | Awaiting(id: nat, registration: Registration)
    | Prompting(canonical: Ref, nativeId: NativeId)
    | IssuedPrompt(id: nat, canonical: Ref)
    | ResolvedPrompt(id: nat, canonical: Ref, nativeId: NativeId)
    | RegisteredPrompt(id: nat)
    | Interrupting(nativeId: NativeId, requestedAt: nat)

  datatype Taken = NoWaiter | TookControl(id: nat, waiter: Waiter) | TookPrompt(id: nat, nativeId: NativeId)

  datatype Reader =
    | Reading
    | Took(message: Message, taken: Taken)
    | Interpreted(result: Result<seq<Signal>, AdapterError>, taken: Taken)
    | Delivering(queue: seq<Delivery>, limited: seq<NativeId>)
    | Exited

  datatype Answer = Signals(signals: seq<Signal>) | Failure

  datatype System = System(
    host: Host,
    adapter: Adapter,
    reader: Reader,
    callers: map<Thread, Caller>,
    gate: Option<Thread>,
    sent: set<nat>,
    channel: map<nat, Answer>)

  function FreshSystem(limit: nat): System {
    System(FreshHost(limit), FRESH_ADAPTER, Reading, map[], None, {}, map[])
  }

  function At(callers: map<Thread, Caller>, t: Thread): Caller {
    if t in callers then callers[t] else Idle
  }

  function Move(s: System, t: Thread, c: Caller): System {
    s.(callers := s.callers[t := c])
  }

  /** The caller is done with its control operation and lets go of the gate. */
  function Leave(s: System, t: Thread): System {
    s.(callers := s.callers[t := Idle], gate := None)
  }

  // ------------------------------------------------------------------ opening

  function StartHandshake(s: System, t: Thread): System {
    if At(s.callers, t) != Idle || s.gate.Some? then s
    else
      var issued := Request(s.adapter, Initialize);
      Move(s.(adapter := issued.adapter, gate := Some(t)), t, IssuedControl(issued.id, ForHandshake))
  }

  function StartOpen(s: System, t: Thread, c: Ref, mode: SessionOpenMode, requested: Option<NativeId>,
                     directories: bool): System {
    if At(s.callers, t) != Idle || s.gate.Some? || c in s.host.sessions then s
    else Move(s.(gate := Some(t)), t, Opening(c, mode, requested, directories))
  }

  function IssueOpen(s: System, t: Thread): System {
    match At(s.callers, t)
    case Opening(c, mode, requested, directories) =>
      (match OpenSession(s.adapter, mode, Some(c), requested, directories)
       case Err(_) => Leave(s, t)
       case Ok(issued) =>
         Move(s.(adapter := issued.adapter), t, IssuedControl(issued.id, ForOpen(c, mode, requested))))
    case _ => s
  }

  function Register(s: System, t: Thread): System {
    match At(s.callers, t)
    case IssuedControl(id, registration) =>
      if s.host.closed then Leave(s, t)
      else Move(s.(host := RegisterControl(s.host, id, registration)), t, RegisteredControl(id, registration))
    case _ => s
  }

  /** `dispatch`; `ok` is false when the write fails. */
  function Send(s: System, t: Thread, ok: bool): System {
    match At(s.callers, t)
    case RegisteredControl(id, registration) =>
      if ok then Move(s.(sent := s.sent + {id}), t, Awaiting(id, registration)) else Leave(s, t)
    case RegisteredPrompt(id) =>
      if ok then Move(s.(sent := s.sent + {id}), t, Idle) else Move(s, t, Idle)
    case _ => s
  }

  function Receive(s: System, t: Thread): System {
    match At(s.callers, t)
    case Awaiting(id, _) =>
      if id in s.channel then Leave(s.(channel := s.channel - {id}), t) else s
    case _ => s
  }

  const DEADLINE := "native provider startup exceeded its cumulative control deadline"

  function TimeOut(s: System, t: Thread, full: set<LaneId>): System {
    match At(s.callers, t)
    case Awaiting(_, _) => Leave(s.(host := Stop(s.host, DEADLINE, false, full)), t)
    case _ => s
  }

  /** The reader holds the waiter of this request. */
  predicate InHand(r: Reader, id: nat) {
    (r.Took? || r.Interpreted?) && r.taken.TookControl? && r.taken.id == id
  }

  /** The sender of this request's answer is gone and nothing was sent. */
  predicate SenderDropped(s: System, id: nat) {
    id !in s.host.control && !InHand(s.reader, id) && id !in s.channel
  }

  function Disconnect(s: System, t: Thread): System {
    match At(s.callers, t)
    case Awaiting(id, _) =>
      if SenderDropped(s, id) then Leave(s.(host := Disconnected(s.host)), t) else s
    case _ => s
  }

  // ---------------------------------------------------------------- prompting

  function StartPrompt(s: System, t: Thread, c: Ref, n: NativeId): System {
    if At(s.callers, t) == Idle && c in s.host.sessions && s.host.sessions[c].nativeId == n
    then Move(s, t, Prompting(c, n)) else s
  }

  function IssuePrompt(s: System, t: Thread): System {
    match At(s.callers, t)
    case Prompting(c, n) =>
      var issued := Request(s.adapter, Prompt(n));
      Move(s.(adapter := issued.adapter), t, IssuedPrompt(issued.id, c))
    case _ => s
  }

  function ResolvePrompt(s: System, t: Thread): System {
    match At(s.callers, t)
    case IssuedPrompt(id, c) =>
      if c in s.host.sessions then Move(s, t, ResolvedPrompt(id, c, s.host.sessions[c].nativeId)) else Move(s, t, Idle)
    case _ => s
  }

  function RegisterPrompt(s: System, t: Thread): System {
    match At(s.callers, t)
    case ResolvedPrompt(id, c, n) =>
      if CanBegin(s.host, n) then Move(s.(host := BeginTurn(s.host, c, id, n)), t, RegisteredPrompt(id))
      else Move(s, t, Idle)
    case _ => s
  }

  // ------------------------------------------------------------- interrupting

  function Interrupt(s: System, t: Thread, c: Ref, reason: Option<string>): System {
    if At(s.callers, t) == Idle && CanMark(s.host, c) then
      var n := s.host.sessions[c].nativeId;
      Move(s.(host := MarkInterrupt(s.host, c, reason)), t, Interrupting(n, s.host.turns[n].lastSequence))
    else s
  }

  /** The second region; `None` when the adapter refuses to cancel. */
  function IssueCancel(s: System, t: Thread, commands: Option<seq<string>>): System {
    match At(s.callers, t)
    case Interrupting(n, at) =>
      if commands.None? then Move(s, t, Idle)
      else Move(s.(host := FillInterrupt(s.host, n, at, commands.value)), t, Idle)
    case _ => s
  }

  // ------------------------------------------------------------------ reading

  function TakeFor(h: Host, message: Message): Taken {
    if !message.Response? then NoWaiter
    else if message.id in h.control then TookControl(message.id, h.control[message.id])
    else if message.id in h.pendingPrompts then TookPrompt(message.id, h.pendingPrompts[message.id])
    else NoWaiter
  }

  function Read(s: System, message: Message): System {
    if !s.reader.Reading? then s
    else
      s.(host := if message.Response? then Take(s.host, message.id) else s.host,
         reader := Took(message, TakeFor(s.host, message)))
  }

  function Interpret(s: System): System {
    if !s.reader.Took? then s
    else
      var ingested := Ingest(s.adapter, s.reader.message);
      s.(adapter := ingested.adapter, reader := Interpreted(ingested.result, s.reader.taken))
  }

  const PROMPT_FAILED := "prompt failed"
  const UNREADABLE := "transport failed"

  function ResolveWaiter(s: System, id: nat, waiter: Waiter, signals: seq<Signal>): System {
    s.(host := if waiter.OpenWaiter? then RegisterOpen(s.host, waiter.lane, signals) else s.host,
       channel := s.channel[id := Signals(signals)],
       reader := Reading)
  }

  function RouteAll(s: System, signals: seq<Signal>): System {
    var routed := Route(s.host, signals);
    s.(host := routed.host, reader := Delivering(routed.deliveries, routed.limited))
  }

  function FailResponse(s: System, taken: Taken, full: set<LaneId>): System {
    match taken
    case TookControl(id, _) => s.(channel := s.channel[id := Failure], reader := Reading)
    case TookPrompt(_, n) =>
      var failed := FailTurn(s.host, n, PROMPT_FAILED);
      s.(host := failed.host, reader := Delivering(failed.deliveries, []))
    case NoWaiter => s.(host := Stop(s.host, UNREADABLE, false, full), reader := Exited)
  }

  function Act(s: System, full: set<LaneId>): System {
    match s.reader
    case Interpreted(Err(_), taken) => FailResponse(s, taken, full)
    case Interpreted(Ok(signals), TookControl(id, waiter)) => ResolveWaiter(s, id, waiter, signals)
    case Interpreted(Ok(signals), TookPrompt(_, _)) => RouteAll(s, signals)
    case Interpreted(Ok(signals), NoWaiter) => RouteAll(s, signals)
    case _ => s
  }

  /** One delivery of the reader's queue; a refused one stops the bridge and drops the rest. */
  function DeliverNext(s: System, stored: bool, full: set<LaneId>): System {
    match s.reader
    case Delivering(queue, limited) =>
      if queue == [] then s
      else
        s.(host := Deliver(s.host, queue[0].lane, queue[0].event, stored, full),
           reader := Delivering(if Refuses(s.host, queue[0].lane, stored) then [] else queue[1..], limited))
    case _ => s
  }

  function CancelLimited(s: System, ok: bool, full: set<LaneId>): System {
    match s.reader
    case Delivering(queue, limited) =>
      if queue != [] then s
      else if limited == [] then s.(reader := Reading)
      else if ok then s.(reader := Delivering([], limited[1..]))
      else s.(host := Stop(s.host, UNREADABLE, false, full), reader := Reading)
    case _ => s
  }

  function StopNow(s: System, reason: string, deliberate: bool, full: set<LaneId>): System {
    s.(host := Stop(s.host, reason, deliberate, full))
  }

  // --------------------------------------------------------------------- runs

  datatype Action =
    | DoStartHandshake(t: Thread)
    | DoStartOpen(t: Thread, canonical: Ref, mode: SessionOpenMode, requested: Option<NativeId>, directories: bool)
    | DoIssueOpen(t: Thread)
    | DoRegister(t: Thread)
    | DoSend(t: Thread, ok: bool)
    | DoReceive(t: Thread)
    | DoTimeOut(t: Thread, full: set<LaneId>)
    | DoDisconnect(t: Thread)
    | DoStartPrompt(t: Thread, canonical: Ref, nativeId: NativeId)
    | DoIssuePrompt(t: Thread)
    | DoResolvePrompt(t: Thread)
    | DoRegisterPrompt(t: Thread)
    | DoInterrupt(t: Thread, canonical: Ref, why: Option<string>)
    | DoIssueCancel(t: Thread, commands: Option<seq<string>>)
    | DoStopBridge(reason: string, deliberate: bool, full: set<LaneId>)
    | DoRead(message: Message)
    | DoInterpret
    | DoAct(full: set<LaneId>)
    | DoDeliverNext(stored: bool, full: set<LaneId>)
    | DoCancelLimited(ok: bool, full: set<LaneId>)

  /** Steps of an open or a handshake. */
  predicate ControlAction(a: Action) {
    a.DoStartHandshake? || a.DoStartOpen? || a.DoIssueOpen? || a.DoRegister? || a.DoSend?
    || a.DoReceive? || a.DoTimeOut? || a.DoDisconnect?
  }

  /** Steps of a prompt or an interrupt, and a stop. */
  predicate TurnAction(a: Action) {
    a.DoStartPrompt? || a.DoIssuePrompt? || a.DoResolvePrompt? || a.DoRegisterPrompt?
    || a.DoInterrupt? || a.DoIssueCancel? || a.DoStopBridge?
  }

  function Do(s: System, a: Action): System {
    match a
    case DoStartHandshake(t) => StartHandshake(s, t)
    case DoStartOpen(t, c, mode, requested, directories) => StartOpen(s, t, c, mode, requested, directories)
    case DoIssueOpen(t) => IssueOpen(s, t)
    case DoRegister(t) => Register(s, t)
    case DoSend(t, ok) => Send(s, t, ok)
    case DoReceive(t) => Receive(s, t)
    case DoTimeOut(t, full) => TimeOut(s, t, full)
    case DoDisconnect(t) => Disconnect(s, t)
    case DoStartPrompt(t, c, n) => StartPrompt(s, t, c, n)
    case DoIssuePrompt(t) => IssuePrompt(s, t)
    case DoResolvePrompt(t) => ResolvePrompt(s, t)
    case DoRegisterPrompt(t) => RegisterPrompt(s, t)
    case DoInterrupt(t, c, why) => Interrupt(s, t, c, why)
    case DoIssueCancel(t, commands) => IssueCancel(s, t, commands)
    case DoStopBridge(reason, deliberate, full) => StopNow(s, reason, deliberate, full)
    case DoRead(message) => Read(s, message)
    case DoInterpret => Interpret(s)
    case DoAct(full) => Act(s, full)
    case DoDeliverNext(stored, full) => DeliverNext(s, stored, full)
    case DoCancelLimited(ok, full) => CancelLimited(s, ok, full)
  }

  function RunSystem(s: System, actions: seq<Action>): System
    decreases |actions|
  {
    if actions == [] then s else RunSystem(Do(s, actions[0]), actions[1..])
  }

  /** The provider answers only requests it was sent. */
  predicate Causal(s: System, a: Action) {
    a.DoRead? && Answers(a.message).Some? ==> Answers(a.message).value in s.sent
  }

  predicate CausalRun(s: System, actions: seq<Action>)
    decreases |actions|
  {
    actions == [] || (Causal(s, actions[0]) && CausalRun(Do(s, actions[0]), actions[1..]))
  }
}
