/** Why a host is stopped: its first stop decides, and nothing after it. */
module SystemStops {
  import opened Prelude
  import opened Connection
  import opened SessionHost
  import opened HostHistory
  import opened HostTheorems
  import opened SessionSystem
  import opened SystemTickets
  import opened SystemOrder

  datatype Cause = Asked(reason: string) | Broken(reason: string)

  /** The stop this region comes to, if it comes to one. */
  function StopOf(h: Host, op: Op): Option<Cause> {
    match op
    case DoStop(reason, deliberate, _) => Some(if deliberate then Asked(reason) else Broken(reason))
    case DoDeliver(lane, _, stored, _) =>
      if !stored || lane >= |h.cores| || h.cores[lane].closed then Some(Broken(STORAGE_FAILED)) else None
    case _ => None
  }

  function FirstStop(h: Host, ops: seq<Op>): Option<Cause>
    decreases |ops|
  {
    if ops == [] then None
    else if StopOf(h, ops[0]).Some? then StopOf(h, ops[0])
    else FirstStop(Apply(h, ops[0]), ops[1..])
  }

  /** The host is stopped exactly when there was a stop, with a transport error exactly when that was
      not asked for, and with its reason. */
  predicate StoppedBy(h: Host, cause: Option<Cause>) {
    && (h.closed <==> cause.Some?)
    && h.transportError == if cause.Some? && cause.value.Broken? then Some(cause.value.reason) else None
  }

  lemma {:induction false} RegionStops(h: Host, op: Op, cause: Option<Cause>)
    requires StoppedBy(h, cause) && Admissible(h, op)
    ensures StoppedBy(Apply(h, op), if cause.Some? then cause else StopOf(h, op))
  {
    match op
    case DoRegisterControl(token, registration) => if !h.closed { RegisterControlEffect(h, token, registration); }
    case DoTake(_) =>
    case DoRegisterOpen(lane, signals) => OpenStops(h, lane, signals);
    case DoRoute(signals) => RouteStops(h, signals);
    case DoStop(reason, deliberate, full) => StopStops(h, reason, deliberate, full);
    case DoDeliver(lane, event, stored, full) =>
      if Refuses(h, lane, stored) { StopStops(h, STORAGE_FAILED, false, full); }
    case DoDisconnected =>
    case DoBeginTurn(_, _, n) => if CanBegin(h, n) {} else {}
    case DoFailTurn(n, _) => if n in h.turns {} else {}
    case DoMarkInterrupt(c, _) => if CanMark(h, c) {} else {}
    case DoFillInterrupt(n, at, _) => if StillOpen(h, n, at) {} else {}
  }

  lemma {:induction false} OpenStops(h: Host, lane: LaneId, signals: seq<Signal>)
    ensures var r := RegisterOpen(h, lane, signals);
            r.closed == h.closed && r.transportError == h.transportError
    decreases |signals|
  {
    if signals != [] { OpenStops(RegisterBinding(h, lane, signals[0]), lane, signals[1..]); }
  }

  lemma {:induction false} SettleStops(h: Host, n: NativeId, lane: LaneId, signal: Signal)
    ensures Settle(h, n, lane, signal).host.transportError == h.transportError
  {
    if Terminal(signal.kind) && n in h.turns {
    } else if !Terminal(signal.kind) && PastLimit(h, n) {
    } else {
    }
  }

  lemma {:induction false} RouteOneStops(h: Host, signal: Signal)
    ensures RouteOne(h, signal).host.transportError == h.transportError
  {
    match Destination(h, signal)
    case None =>
    case Some(lane) =>
      var n := signal.nativeId.value;
      SettleStops(Observe(Advance(h, signal.sequence), n, lane, signal), n, lane, signal);
  }

  lemma {:induction false} RouteStops(h: Host, signals: seq<Signal>)
    ensures var r := Route(h, signals).host;
            r.closed == h.closed && r.transportError == h.transportError
    decreases |signals|
  {
    RouteFrame(h, signals);
    if signals != [] {
      RouteOneStops(h, signals[0]);
      RouteStops(RouteOne(h, signals[0]).host, signals[1..]);
    }
  }

  lemma {:induction false} FailAtStopStops(h: Host, n: NativeId, reason: string, full: set<LaneId>)
    ensures FailAtStop(h, n, reason, full).transportError == h.transportError
  {
    if n in h.turns && RecordStored(h, n, full) {
    } else {
    }
  }

  lemma {:induction false} FailAllStops(h: Host, natives: seq<NativeId>, reason: string, full: set<LaneId>)
    ensures FailAll(h, natives, reason, full).transportError == h.transportError
    decreases |natives|
  {
    if natives != [] {
      FailAtStopStops(h, natives[0], reason, full);
      FailAllStops(FailAtStop(h, natives[0], reason, full), natives[1..], reason, full);
    }
  }

  lemma {:induction false} StopStops(h: Host, reason: string, deliberate: bool, full: set<LaneId>)
    ensures var r := Stop(h, reason, deliberate, full);
            && r.closed
            && r.transportError == if h.closed || deliberate then h.transportError else Some(reason)
  {
    FailAllStops(h, Ascending(h.turns.Keys), reason, full);
  }

  lemma {:induction false} RunStops(h: Host, ops: seq<Op>, cause: Option<Cause>)
    requires StoppedBy(h, cause) && AdmissibleRun(h, ops)
    ensures StoppedBy(Run(h, ops), if cause.Some? then cause else FirstStop(h, ops))
    decreases |ops|
  {
    if ops != [] {
      RegionStops(h, ops[0], cause);
      RunStops(Apply(h, ops[0]), ops[1..], if cause.Some? then cause else StopOf(h, ops[0]));
    }
  }

  /** In every causal run: the host is stopped exactly when some region came to a stop, and the first
      that did says whether the transport broke and why, whatever later stops and disconnections say. */
  lemma FirstStopDecides(limit: nat, actions: seq<Action>)
    requires CausalRun(FreshSystem(limit), actions)
    ensures StoppedBy(RunSystem(FreshSystem(limit), actions).host,
                      FirstStop(FreshHost(limit), Regions(FreshSystem(limit), actions)))
  {
    FreshHealthy(limit);
    RunRefines(FreshSystem(limit), actions);
    RunStops(FreshHost(limit), Regions(FreshSystem(limit), actions), None);
  }
}
