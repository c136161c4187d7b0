/** The state of the session host and its locked regions (agent_session_host.rs).

    Each function below is one stretch of code that holds the state mutex, as a
    function from the state before to the state after. Whatever threads do, the
    state changes only by these regions, one at a time, in some order. */
module SessionHost {
  import opened Prelude
  import opened Tokens
  import opened Connection

  /** A lane core, by its index in the host's arena of lane cores. */
  type LaneId = nat

  const UNATTRIBUTED_LIMIT: nat := 64
  const TRAIL_LIMIT: nat := 128

  datatype TurnStop =
    | CompletedStop(stopReason: string)
    | CancelledStop
    | OperationalLimit(maxSignals: nat)
    | FailedStop(reason: string)

  datatype Origin = Human | Provider

  datatype Interruption = Interruption(
    agentSession: Ref,
    nativeId: NativeId,
    origin: Origin,
    reason: Option<string>,
    commands: seq<string>,
    requestedAt: Option<nat>,
    observedStop: TurnStop)

  datatype TurnRecord = TurnRecord(
    agentSession: Ref,
    binding: Binding,
    stop: TurnStop,
    interruption: Option<Interruption>,
    firstSequence: Option<nat>,
    lastSequence: nat,
    signals: nat)

  datatype HostEvent = SignalEvent(signal: Signal) | TurnEnded(record: TurnRecord)

  datatype PendingInterrupt = PendingInterrupt(reason: Option<string>, requestedAt: nat, commands: seq<string>)

  /** `serial` tells turns apart in statements; no branch reads it. */
  datatype ActiveTurn = ActiveTurn(
    agentSession: Ref,
    firstSequence: Option<nat>,
    lastSequence: nat,
    signals: nat,
    interrupt: Option<PendingInterrupt>,
    operationalLimit: Option<nat>,
    serial: nat)

  datatype Waiter = Handshake | OpenWaiter(lane: LaneId, loading: Option<NativeId>)

  datatype LaneCore = LaneCore(agentSession: Ref, events: seq<HostEvent>, closed: bool)

  /** A record a stop makes is offered to its lane; `stored` says the lane's spool took it. */
  datatype EndCause = ByWire(signal: Signal) | ByPromptError(reason: string) | ByStop(reason: string, stored: bool)

  /** What happened, for statements about whole runs. No branch reads the log. */
  datatype Entry =
    | Began(nativeId: NativeId, serial: nat, agentSession: Ref, baseline: nat)
    | InterruptAsked(nativeId: NativeId, reason: Option<string>, at: nat)
    | CommandsIssued(nativeId: NativeId, commands: seq<string>)
    | LoadAwaited(lane: LaneId, nativeId: NativeId)
    | Bound(lane: LaneId, nativeId: NativeId)
    | Routed(to: Option<LaneId>, signal: Signal)
    | LimitReached(nativeId: NativeId, serial: nat)
    | Ended(nativeId: NativeId, serial: nat, record: TurnRecord, cause: EndCause, to: Option<LaneId>)

  datatype Log = Start | After(earlier: Log, entry: Entry)

  datatype Host = Host(
    limit: nat,
    control: map<nat, Waiter>,
    pendingPrompts: map<nat, NativeId>,
    lanes: map<NativeId, LaneId>,
    cores: seq<LaneCore>,
    sessions: map<Ref, Binding>,
    turns: map<NativeId, ActiveTurn>,
    trail: map<Ref, seq<Interruption>>,
    lastTurn: map<Ref, TurnRecord>,
    unattributed: seq<Signal>,
    lastSequence: nat,
    transportError: Option<string>,
    closed: bool,
    log: Log)

  function FreshHost(limit: nat): Host {
    Host(limit, map[], map[], map[], [], map[], map[], map[], map[], [], 0, None, false, Start)
  }

  // ------------------------------------------------------------ small helpers

  function Lookup<K, V>(m: map<K, V>, k: K): Option<V> {
    if k in m then Some(m[k]) else None
  }

  /** Turns begun in all: the serial of the next one. */
  function Serials(log: Log): nat {
    match log
    case Start => 0
    case After(earlier, entry) => Serials(earlier) + if entry.Began? then 1 else 0
  }

  function Note(h: Host, entry: Entry): Host {
    h.(log := After(h.log, entry))
  }

  function Unbound(n: NativeId): Binding {
    Binding(n, None, Create)
  }

  /** `binding_for`: through the lane's canonical session, or an unbound one. */
  function BindingFor(h: Host, n: NativeId): Binding {
    if n in h.lanes && h.lanes[n] < |h.cores| && h.cores[h.lanes[n]].agentSession in h.sessions
    then h.sessions[h.cores[h.lanes[n]].agentSession]
    else Unbound(n)
  }

  // ----------------------------------------------------------- opening, begin

  /** What a caller registers for: an open keeps how it was asked for and which id it named. */
  datatype Registration = ForHandshake | ForOpen(canonical: Ref, mode: SessionOpenMode, requested: Option<NativeId>)

  /** The id a lane awaits replayed signals of: only a load names one. */
  function Loading(mode: SessionOpenMode, requested: Option<NativeId>): Option<NativeId> {
    if mode == Load then requested else None
  }

  function AwaitLoad(h: Host, lane: LaneId, loading: Option<NativeId>): Host {
    match loading
    case None => h
    case Some(n) => Note(h, LoadAwaited(lane, n))
  }

  /** A waiter for an open, with its fresh lane. */
  function AddOpenWaiter(h: Host, token: nat, canonical: Ref, loading: Option<NativeId>): Host {
    var lane := |h.cores|;
    AwaitLoad(h.(cores := h.cores + [LaneCore(canonical, [], false)]), lane, loading)
      .(control := h.control[token := OpenWaiter(lane, loading)])
  }

  function RegisterControl(h: Host, token: nat, registration: Registration): Host {
    if h.closed then h
    else
      match registration
      case ForHandshake => h.(control := h.control[token := Handshake])
      case ForOpen(canonical, mode, requested) => AddOpenWaiter(h, token, canonical, Loading(mode, requested))
  }

  predicate CanBegin(h: Host, n: NativeId) {
    !h.closed && n !in h.turns
  }

  function BeginTurn(h: Host, c: Ref, token: nat, n: NativeId): Host {
    if !CanBegin(h, n) then h
    else
      var serial := Serials(h.log);
      Note(h.(pendingPrompts := h.pendingPrompts[token := n],
              turns := h.turns[n := ActiveTurn(c, None, h.lastSequence, 0, None, None, serial)]),
           Began(n, serial, c, h.lastSequence))
  }

  /** The first locked region of `serve_message`: the waiters leave the maps. */
  function Take(h: Host, token: nat): Host {
    h.(control := h.control - {token}, pendingPrompts := h.pendingPrompts - {token})
  }

  function RegisterBinding(h: Host, lane: LaneId, signal: Signal): Host {
    if signal.kind.SessionOpened? && lane < |h.cores| then
      var b := signal.kind.binding;
      Note(h.(lanes := h.lanes[b.nativeId := lane],
              sessions := h.sessions[h.cores[lane].agentSession := b]),
           Bound(lane, b.nativeId))
    else h
  }

  /** `state_register_open`. It does not look at `closed`. */
  function RegisterOpen(h: Host, lane: LaneId, signals: seq<Signal>): (r: Host)
    ensures r.limit == h.limit && r.turns == h.turns && r.closed == h.closed && |r.cores| == |h.cores|
    decreases |signals|
  {
    if signals == [] then h else RegisterOpen(RegisterBinding(h, lane, signals[0]), lane, signals[1..])
  }

  // ------------------------------------------------------------- ending turns

  function HumanInterruption(turn: ActiveTurn, n: NativeId, p: PendingInterrupt, stop: TurnStop): Interruption {
    Interruption(turn.agentSession, n, Human, p.reason, p.commands, Some(p.requestedAt), stop)
  }

  function WireStop(turn: ActiveTurn, kind: SignalKind): TurnStop {
    match turn.operationalLimit
    case Some(max) => OperationalLimit(max)
    case None =>
      match kind
      case Completed(stopReason) => CompletedStop(stopReason)
      case Failed(reason) => FailedStop(reason)
      case _ => CancelledStop
  }

  function WireInterruption(turn: ActiveTurn, n: NativeId, stop: TurnStop): Option<Interruption> {
    match (turn.interrupt, stop)
    case (Some(p), CancelledStop) => Some(HumanInterruption(turn, n, p, stop))
    case (None, CancelledStop) => Some(Interruption(turn.agentSession, n, Provider, None, [], None, CancelledStop))
    case _ => None
  }

  function WireRecord(h: Host, n: NativeId, turn: ActiveTurn, kind: SignalKind): TurnRecord {
    var stop := WireStop(turn, kind);
    TurnRecord(turn.agentSession, BindingFor(h, n), stop, WireInterruption(turn, n, stop),
               turn.firstSequence, turn.lastSequence, turn.signals)
  }

  function FailRecord(h: Host, n: NativeId, turn: ActiveTurn, reason: string): TurnRecord {
    TurnRecord(turn.agentSession, BindingFor(h, n), FailedStop(reason),
               match turn.interrupt
               case Some(p) => Some(HumanInterruption(turn, n, p, FailedStop(reason)))
               case None => None,
               turn.firstSequence, turn.lastSequence, turn.signals)
  }

  function TrailOf(h: Host, c: Ref): seq<Interruption> {
    if c in h.trail then h.trail[c] else []
  }

  /** `record_turn`. */
  function RecordTurn(h: Host, record: TurnRecord): Host {
    var c := record.agentSession;
    h.(trail := if record.interruption.None? then h.trail
                else h.trail[c := PushBounded(TRAIL_LIMIT, TrailOf(h, c), record.interruption.value)],
       lastTurn := h.lastTurn[c := record])
  }

  /** A turn leaves `turns` and its record is kept. */
  function EndTurn(h: Host, n: NativeId, record: TurnRecord, cause: EndCause, to: Option<LaneId>): Host
    requires n in h.turns
  {
    Note(RecordTurn(h.(turns := h.turns - {n}), record), Ended(n, h.turns[n].serial, record, cause, to))
  }

  datatype Delivery = Delivery(lane: LaneId, event: HostEvent)

  datatype Routing = Routing(host: Host, deliveries: seq<Delivery>, limited: seq<NativeId>)

  function FailTurn(h: Host, n: NativeId, reason: string): Routing {
    if n !in h.turns then Routing(h, [], [])
    else
      var record := FailRecord(h, n, h.turns[n], reason);
      var lane := Lookup(h.lanes, n);
      Routing(EndTurn(h, n, record, ByPromptError(reason), lane),
              if lane.Some? then [Delivery(lane.value, TurnEnded(record))] else [], [])
  }

  // ------------------------------------------------------------------ routing

  /** Waiters for a load of exactly `n`. */
  function Loaders(control: map<nat, Waiter>, n: NativeId): set<nat> {
    set t | t in control && control[t].OpenWaiter? && control[t].loading == Some(n)
  }

  /** A bound lane, else that of the first waiter for a load of `n` in the order of the token texts. */
  function Resolve(h: Host, n: NativeId): Option<LaneId> {
    if n in h.lanes then Some(h.lanes[n])
    else if Loaders(h.control, n) == {} then None
    else Some(h.control[FirstByText(Loaders(h.control, n))].lane)
  }

  function PushUnattributed(h: Host, signal: Signal): Host {
    Note(h.(unattributed := PushBounded(UNATTRIBUTED_LIMIT, h.unattributed, signal)), Routed(None, signal))
  }

  function CountSignal(turn: ActiveTurn, sequence: nat): ActiveTurn {
    turn.(signals := turn.signals + 1,
          lastSequence := sequence,
          firstSequence := if turn.firstSequence.None? then Some(sequence) else turn.firstSequence)
  }

  function Observe(h: Host, n: NativeId, lane: LaneId, signal: Signal): Host {
    Note(if n in h.turns then h.(turns := h.turns[n := CountSignal(h.turns[n], signal.sequence)]) else h,
         Routed(Some(lane), signal))
  }

  predicate PastLimit(h: Host, n: NativeId) {
    n in h.turns && h.limit != 0 && h.turns[n].signals > h.limit && h.turns[n].operationalLimit.None?
  }

  function MarkLimit(h: Host, n: NativeId): Host
    requires n in h.turns
  {
    Note(h.(turns := h.turns[n := h.turns[n].(operationalLimit := Some(h.limit))]),
         LimitReached(n, h.turns[n].serial))
  }

  function Advance(h: Host, sequence: nat): Host {
    h.(lastSequence := Max(h.lastSequence, sequence))
  }

  function CloseByWire(h: Host, n: NativeId, lane: LaneId, signal: Signal): Routing
    requires n in h.turns
  {
    var record := WireRecord(h, n, h.turns[n], signal.kind);
    Routing(EndTurn(h, n, record, ByWire(signal), Some(lane)),
            [Delivery(lane, SignalEvent(signal)), Delivery(lane, TurnEnded(record))], [])
  }

  /** What follows once a signal has been counted on its lane. */
  function Settle(h: Host, n: NativeId, lane: LaneId, signal: Signal): Routing {
    if Terminal(signal.kind) && n in h.turns then CloseByWire(h, n, lane, signal)
    else if !Terminal(signal.kind) && PastLimit(h, n)
    then Routing(MarkLimit(h, n), [Delivery(lane, SignalEvent(signal))], [n])
    else Routing(h, [Delivery(lane, SignalEvent(signal))], [])
  }

  function RouteToLane(h: Host, n: NativeId, lane: LaneId, signal: Signal): Routing {
    Settle(Observe(h, n, lane, signal), n, lane, signal)
  }

  /** Where a signal goes: a bound lane, a lane awaiting a load of exactly that id, or nowhere. */
  function Destination(h: Host, signal: Signal): (lane: Option<LaneId>)
    ensures lane.Some? ==> signal.nativeId.Some?
  {
    match signal.nativeId
    case None => None
    case Some(n) => Resolve(h, n)
  }

  function RouteTo(h: Host, signal: Signal, to: Option<LaneId>): Routing
    requires to.Some? ==> signal.nativeId.Some?
  {
    match to
    case None => Routing(PushUnattributed(h, signal), [], [])
    case Some(lane) => RouteToLane(h, signal.nativeId.value, lane, signal)
  }

  function RouteOne(h: Host, signal: Signal): Routing {
    RouteTo(Advance(h, signal.sequence), signal, Destination(h, signal))
  }

  function Route(h: Host, signals: seq<Signal>): Routing
    decreases |signals|
  {
    if signals == [] then Routing(h, [], [])
    else
      var first := RouteOne(h, signals[0]);
      var rest := Route(first.host, signals[1..]);
      Routing(rest.host, first.deliveries + rest.deliveries, first.limited + rest.limited)
  }

  // ----------------------------------------------------------------- stopping

  function Append(cores: seq<LaneCore>, lane: LaneId, event: HostEvent): seq<LaneCore> {
    if lane < |cores| && !cores[lane].closed
    then cores[lane := cores[lane].(events := cores[lane].events + [event])]
    else cores
  }

  /** Whether a lane takes one more event; `full` are the lanes whose spool refuses. */
  predicate Accepts(cores: seq<LaneCore>, lane: LaneId, full: set<LaneId>) {
    lane !in full && lane < |cores| && !cores[lane].closed
  }

  /** Whether the record of a turn ended by a stop reaches a lane. */
  predicate RecordStored(h: Host, n: NativeId, full: set<LaneId>) {
    n in h.lanes && Accepts(h.cores, h.lanes[n], full)
  }

  /** A turn ended by a stop. Its record is offered to its lane, and a refusal is not looked at. */
  function FailAtStop(h: Host, n: NativeId, reason: string, full: set<LaneId>): (r: Host)
    ensures r.limit == h.limit && r.lanes == h.lanes && |r.cores| == |h.cores|
    ensures r.turns == h.turns - {n}
  {
    if n !in h.turns then h
    else
      var record := FailRecord(h, n, h.turns[n], reason);
      var lane := Lookup(h.lanes, n);
      var stored := RecordStored(h, n, full);
      var h1 := EndTurn(h, n, record, ByStop(reason, stored), lane);
      if stored then h1.(cores := Append(h1.cores, lane.value, TurnEnded(record))) else h1
  }

  function FailAll(h: Host, natives: seq<NativeId>, reason: string, full: set<LaneId>): (r: Host)
    ensures r.limit == h.limit && r.lanes == h.lanes && |r.cores| == |h.cores|
    ensures forall n :: n in r.turns ==> n in h.turns && n !in natives
    decreases |natives|
  {
    if natives == [] then h else FailAll(FailAtStop(h, natives[0], reason, full), natives[1..], reason, full)
  }

  function CloseLanes(cores: seq<LaneCore>, lanes: set<LaneId>): seq<LaneCore> {
    seq(|cores|, i requires 0 <= i < |cores| => if i in lanes then cores[i].(closed := true) else cores[i])
  }

  /** The end of a stop, once every turn in flight has its record. */
  function Halt(h: Host, reason: string, deliberate: bool): Host {
    h.(transportError := if deliberate then h.transportError else Some(reason),
       closed := true,
       control := map[],
       pendingPrompts := map[],
       cores := CloseLanes(h.cores, h.lanes.Values),
       lanes := map[])
  }

  /** `state_stop_bridge`. */
  function Stop(h: Host, reason: string, deliberate: bool, full: set<LaneId>): Host {
    if h.closed then h else Halt(FailAll(h, Ascending(h.turns.Keys), reason, full), reason, deliberate)
  }

  /** `control_disconnected`. */
  function Disconnected(h: Host): Host {
    if h.transportError.Some? then h else h.(closed := true)
  }

  predicate Refuses(h: Host, lane: LaneId, stored: bool) {
    !stored || lane >= |h.cores| || h.cores[lane].closed
  }

  const STORAGE_FAILED := "agent_session_host.event_storage: owner event storage failed"

  /** One step of `deliver`; `stored` is false when the lane's spool refuses the event, and `full`
      are the lanes whose spool refuses a record in the stop that follows. */
  function Deliver(h: Host, lane: LaneId, event: HostEvent, stored: bool, full: set<LaneId>): Host {
    if Refuses(h, lane, stored) then Stop(h, STORAGE_FAILED, false, full)
    else h.(cores := Append(h.cores, lane, event))
  }

  // ------------------------------------------------------------- interrupting

  predicate CanMark(h: Host, c: Ref) {
    && !h.closed
    && c in h.sessions
    && h.sessions[c].nativeId in h.turns
    && h.turns[h.sessions[c].nativeId].interrupt.None?
  }

  /** The first locked region of `interrupt`. */
  function MarkInterrupt(h: Host, c: Ref, reason: Option<string>): Host {
    if !CanMark(h, c) then h
    else
      var n := h.sessions[c].nativeId;
      var turn := h.turns[n];
      Note(h.(turns := h.turns[n := turn.(interrupt := Some(PendingInterrupt(reason, turn.lastSequence, [])))]),
           InterruptAsked(n, reason, turn.lastSequence))
  }

  /** The second check: some pending interrupt on `n` was requested at this sequence. */
  predicate StillOpen(h: Host, n: NativeId, requestedAt: nat) {
    n in h.turns && h.turns[n].interrupt.Some? && h.turns[n].interrupt.value.requestedAt == requestedAt
  }

  /** The second locked region of `interrupt`. */
  function FillInterrupt(h: Host, n: NativeId, requestedAt: nat, commands: seq<string>): Host {
    if !StillOpen(h, n, requestedAt) then h
    else
      var p := h.turns[n].interrupt.value;
      Note(h.(turns := h.turns[n := h.turns[n].(interrupt := Some(p.(commands := commands)))]),
           CommandsIssued(n, commands))
  }

  // --------------------------------------------------------------------- runs

  datatype Op =
    | DoRegisterControl(token: nat, registration: Registration)
    | DoBeginTurn(canonical: Ref, token: nat, nativeId: NativeId)
    | DoTake(token: nat)
    | DoRegisterOpen(lane: LaneId, signals: seq<Signal>)
    | DoRoute(signals: seq<Signal>)
    | DoFailTurn(nativeId: NativeId, reason: string)
    | DoStop(reason: string, deliberate: bool, full: set<LaneId>)
    | DoDisconnected
    | DoDeliver(lane: LaneId, event: HostEvent, stored: bool, full: set<LaneId>)
    | DoMarkInterrupt(canonical: Ref, why: Option<string>)
    | DoFillInterrupt(nativeId: NativeId, requestedAt: nat, commands: seq<string>)

  function Apply(h: Host, op: Op): Host {
    match op
    case DoRegisterControl(token, registration) => RegisterControl(h, token, registration)
    case DoBeginTurn(c, token, n) => BeginTurn(h, c, token, n)
    case DoTake(token) => Take(h, token)
    case DoRegisterOpen(lane, signals) => RegisterOpen(h, lane, signals)
    case DoRoute(signals) => Route(h, signals).host
    case DoFailTurn(n, reason) => FailTurn(h, n, reason).host
    case DoStop(reason, deliberate, full) => Stop(h, reason, deliberate, full)
    case DoDisconnected => Disconnected(h)
    case DoDeliver(lane, event, stored, full) => Deliver(h, lane, event, stored, full)
    case DoMarkInterrupt(c, why) => MarkInterrupt(h, c, why)
    case DoFillInterrupt(n, at, commands) => FillInterrupt(h, n, at, commands)
  }

  function Run(h: Host, ops: seq<Op>): Host
    decreases |ops|
  {
    if ops == [] then h else Run(Apply(h, ops[0]), ops[1..])
  }
}
