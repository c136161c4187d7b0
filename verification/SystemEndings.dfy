/** What a stop ends: the lanes native sessions were bound to, in every causal run, and exactly
    when all of them have ended. */
module SystemEndings {
  import opened Prelude
  import opened Connection
  import opened SessionHost
  import opened SessionSystem
  import opened SystemTickets
  import opened SystemIdentity
  import opened SystemOrder
  import opened SystemVoices
  import opened SystemBindings
  import opened HostHistory
  import opened HostTheorems

  // -------------------------------------------------- lanes of a stopped bridge

  /** The lanes native sessions were ever bound to. */
  function EverBound(log: Log): set<LaneId> {
    match log
    case Start => {}
    case After(earlier, entry) => if entry.Bound? then EverBound(earlier) + {entry.lane} else EverBound(earlier)
  }

  predicate LaneEnded(h: Host, l: LaneId) {
    l < |h.cores| && h.cores[l].closed
  }

  /** The documented rule: when the bridge has stopped, every lane a native session was ever bound to
      has ended. */
  ghost predicate StopEndsLanes(h: Host) {
    h.closed ==> forall l :: l in EverBound(h.log) ==> LaneEnded(h, l)
  }

  predicate StillRunning(h: Host, l: LaneId) {
    h.closed && l < |h.cores| && !h.cores[l].closed
  }

  lemma OpenStaysOpen(h: Host, op: Op, l: LaneId)
    requires StillRunning(h, l)
    ensures StillRunning(Apply(h, op), l)
  {
    match op
    case DoRegisterOpen(lane, signals) => RegisterOpenEffect(h, lane, signals);
    case DoRoute(signals) => RouteFrame(h, signals);
    case DoRegisterControl(_, _) =>
    case DoTake(_) =>
    case DoStop(_, _, _) =>
    case DoDisconnected =>
    case DoDeliver(_, _, _, _) =>
    case _ => TurnOpFrame(h, op);
  }

  /** A lane left open by a stopped bridge is never ended: a caller parked on it
      is not told, whatever happens afterwards. */
  lemma {:induction false} LateLaneNeverEnds(h: Host, ops: seq<Op>, l: LaneId)
    requires StillRunning(h, l)
    ensures StillRunning(Run(h, ops), l)
    decreases |ops|
  {
    if ops != [] {
      OpenStaysOpen(h, ops[0], l);
      LateLaneNeverEnds(Apply(h, ops[0]), ops[1..], l);
    }
  }

  // -------------------------------------------------- only opens bind lanes

  lemma {:induction false} FailAllBinds(h: Host, natives: seq<NativeId>, reason: string, full: set<LaneId>)
    ensures EverBound(FailAll(h, natives, reason, full).log) == EverBound(h.log)
    decreases |natives|
  {
    if natives != [] {
      if natives[0] in h.turns { FailAtStopLog(h, natives[0], reason, full); }
      FailAllBinds(FailAtStop(h, natives[0], reason, full), natives[1..], reason, full);
    }
  }

  lemma SettleBinds(h: Host, n: NativeId, lane: LaneId, signal: Signal)
    ensures EverBound(Settle(h, n, lane, signal).host.log) == EverBound(h.log)
  {
    if Terminal(signal.kind) && n in h.turns {
    } else if !Terminal(signal.kind) && PastLimit(h, n) {
    } else {
    }
  }

  lemma RouteOneBinds(h: Host, signal: Signal)
    ensures EverBound(RouteOne(h, signal).host.log) == EverBound(h.log)
  {
    match Destination(h, signal)
    case None =>
    case Some(lane) =>
      var n := signal.nativeId.value;
      SettleBinds(Observe(Advance(h, signal.sequence), n, lane, signal), n, lane, signal);
  }

  lemma {:induction false} RouteBinds(h: Host, signals: seq<Signal>)
    ensures EverBound(Route(h, signals).host.log) == EverBound(h.log)
    decreases |signals|
  {
    if signals != [] {
      RouteOneBinds(h, signals[0]);
      RouteBinds(RouteOne(h, signals[0]).host, signals[1..]);
    }
  }

  lemma StopBinds(h: Host, reason: string, deliberate: bool, full: set<LaneId>)
    ensures EverBound(Stop(h, reason, deliberate, full).log) == EverBound(h.log)
  {
    FailAllBinds(h, Ascending(h.turns.Keys), reason, full);
  }

  lemma RegisterControlBinds(h: Host, token: nat, registration: Registration)
    ensures EverBound(RegisterControl(h, token, registration).log) == EverBound(h.log)
  {
    if !h.closed {
      match registration
      case ForHandshake =>
      case ForOpen(_, mode, requested) => match Loading(mode, requested) { case None => case Some(_) => }
    }
  }

  lemma {:induction false} OnlyOpensBind(h: Host, op: Op)
    requires !op.DoRegisterOpen?
    ensures EverBound(Apply(h, op).log) == EverBound(h.log)
  {
    match op
    case DoRegisterControl(token, registration) => RegisterControlBinds(h, token, registration);
    case DoRoute(signals) => RouteBinds(h, signals);
    case DoStop(reason, deliberate, full) => StopBinds(h, reason, deliberate, full);
    case DoDeliver(_, _, _, full) => StopBinds(h, STORAGE_FAILED, false, full);
    case DoTake(_) =>
    case DoDisconnected =>
    case _ => TurnOpFrame(h, op);
  }

  // ---------------------------------------------- how lanes stand in every run

  /** The lane an open waits with is open, and no native session was ever bound to it. */
  predicate Untouched(w: Waiter, cores: seq<LaneCore>, bound: set<LaneId>) {
    w.OpenWaiter? ==> w.lane < |cores| && !cores[w.lane].closed && w.lane !in bound
  }

  ghost predicate OneEach(lanes: map<NativeId, LaneId>) {
    forall n, m :: n in lanes && m in lanes && lanes[n] == lanes[m] ==> n == m
  }

  ghost predicate AllOpen(cores: seq<LaneCore>) {
    forall l :: 0 <= l < |cores| ==> !cores[l].closed
  }

  /** Waiting lanes are untouched, a lane is routed to under one native id and only once bound, and
      no lane ends before the bridge stops. */
  ghost predicate Arranged(s: System) {
    && (forall id :: id in s.host.control ==> Untouched(s.host.control[id], s.host.cores, EverBound(s.host.log)))
    && Untouched(Hand(s.reader), s.host.cores, EverBound(s.host.log))
    && (forall l :: l in EverBound(s.host.log) ==> l < |s.host.cores|)
    && s.host.lanes.Values <= EverBound(s.host.log) && OneEach(s.host.lanes)
    && (!s.host.closed ==> AllOpen(s.host.cores))
  }

  /** A region that binds nothing: lanes are let go of all together and only with a stop, which ends
      those and no others. */
  ghost predicate Spares(h: Host, r: Host) {
    && |r.cores| == |h.cores| && EverBound(r.log) == EverBound(h.log)
    && r.control.Keys <= h.control.Keys && (forall id :: id in r.control ==> r.control[id] == h.control[id])
    && (h.closed ==> r.closed)
    && if r.closed && !h.closed
       then (r.lanes == map[] && forall l :: 0 <= l < |h.cores| ==>
              (r.cores[l].closed <==> h.cores[l].closed || l in h.lanes.Values))
       else (r.lanes == h.lanes && forall l :: 0 <= l < |h.cores| ==> r.cores[l].closed == h.cores[l].closed)
  }

  lemma FailAtStopSpares(h: Host, n: NativeId, reason: string, full: set<LaneId>)
    ensures var r := FailAtStop(h, n, reason, full);
            && r.lanes == h.lanes && |r.cores| == |h.cores|
            && forall l :: 0 <= l < |h.cores| ==> r.cores[l].closed == h.cores[l].closed
  {
    if n in h.turns && RecordStored(h, n, full) {
    } else {
    }
  }

  /** What a stop does to the arena before it ends lanes. */
  lemma {:induction false} FailAllSpares(h: Host, natives: seq<NativeId>, reason: string, full: set<LaneId>)
    ensures var r := FailAll(h, natives, reason, full);
            && r.lanes == h.lanes && |r.cores| == |h.cores|
            && forall l :: 0 <= l < |h.cores| ==> r.cores[l].closed == h.cores[l].closed
    decreases |natives|
  {
    if natives != [] {
      var m := FailAtStop(h, natives[0], reason, full);
      FailAtStopSpares(h, natives[0], reason, full);
      FailAllSpares(m, natives[1..], reason, full);
    }
  }

  lemma {:induction false} StopSpares(h: Host, reason: string, deliberate: bool, full: set<LaneId>)
    ensures Spares(h, Stop(h, reason, deliberate, full))
  {
    StopBinds(h, reason, deliberate, full);
    if !h.closed {
      FailAllSpares(h, Ascending(h.turns.Keys), reason, full);
    }
  }

  lemma DeliverSpares(h: Host, lane: LaneId, event: HostEvent, stored: bool, full: set<LaneId>)
    ensures Spares(h, Deliver(h, lane, event, stored, full))
  {
    if Refuses(h, lane, stored) {
      StopSpares(h, STORAGE_FAILED, false, full);
    } else {
    }
  }

  lemma {:induction false} ApplySpares(h: Host, op: Op)
    requires Admissible(h, op) && !op.DoRegisterControl? && !op.DoRegisterOpen?
    ensures Spares(h, Apply(h, op))
  {
    match op
    case DoStop(reason, deliberate, full) => StopSpares(h, reason, deliberate, full);
    case DoDeliver(lane, event, stored, full) => DeliverSpares(h, lane, event, stored, full);
    case DoRoute(signals) => OnlyOpensBind(h, op); RouteFrame(h, signals);
    case DoTake(_) =>
    case DoDisconnected =>
    case _ => OnlyOpensBind(h, op); TurnOpFrame(h, op);
  }

  /** What registering the one binding of an open does to the lanes that are bound. */
  lemma BoundByOpen(h: Host, lane: LaneId, signals: seq<Signal>)
    requires |signals| == 1 && signals[0].kind.SessionOpened? && lane < |h.cores|
    ensures var r, n := RegisterOpen(h, lane, signals), signals[0].kind.binding.nativeId;
            && r.cores == h.cores && r.closed == h.closed && r.control == h.control && r.lanes == h.lanes[n := lane]
            && r.lanes.Values <= h.lanes.Values + {lane}
            && (n !in h.lanes ==> r.lanes.Values == h.lanes.Values + {lane})
            && EverBound(r.log) == EverBound(h.log) + {lane}
  {
    RegisterOpenOne(h, lane, signals);
    var r, n := RegisterOpen(h, lane, signals), signals[0].kind.binding.nativeId;
    assert r.lanes[n] == lane;
    if n !in h.lanes {
      forall l | l in h.lanes.Values ensures l in r.lanes.Values {
        var m :| m in h.lanes && h.lanes[m] == l;
        assert m in r.lanes && r.lanes[m] == l;
      }
    }
  }

  lemma {:induction false} DoArranged(s: System, a: Action)
    requires Healthy(s) && Voices(s) && Arranged(s)
    ensures Arranged(Do(s, a))
  {
    RegionExplains(s, a);
    if !a.DoRead? {
      DoMovesHand(s, a);
      if Region(s, a).Some? {
        RegionAdmissible(s, a);
        OpArranged(s, a, Region(s, a).value, Do(s, a));
      }
    }
  }

  lemma {:induction false} OpArranged(s: System, a: Action, op: Op, r: System)
    requires Healthy(s) && Voices(s) && Arranged(s) && Region(s, a) == Some(op) && !a.DoRead?
    requires Admissible(s.host, op) && r.host == Apply(s.host, op)
    requires Hand(r.reader) == Hand(s.reader) || Hand(r.reader) == Handshake
    requires a.DoAct? && s.reader.Interpreted? ==> Hand(r.reader) == Handshake
    ensures Arranged(r)
  {
    match op
    case DoRegisterControl(token, registration) => WaiterArranged(s, r, token, registration);
    case DoRegisterOpen(lane, signals) => OpenedArranged(s, r, lane, signals);
    case _ => CalmArranged(s, r, op);
  }

  lemma WaiterArranged(s: System, r: System, token: nat, registration: Registration)
    requires Arranged(s) && r.host == RegisterControl(s.host, token, registration)
    requires Hand(r.reader) == Hand(s.reader) || Hand(r.reader) == Handshake
    ensures Arranged(r)
  {
    RegisterControlBinds(s.host, token, registration);
    if !s.host.closed {
      RegisterControlEffect(s.host, token, registration);
    }
  }

  lemma OpenedArranged(s: System, r: System, lane: LaneId, signals: seq<Signal>)
    requires Voices(s) && Arranged(s) && r.host == RegisterOpen(s.host, lane, signals)
    requires |signals| == 1 && signals[0].kind.SessionOpened?
    requires Hand(s.reader).OpenWaiter? && Hand(s.reader).lane == lane && Hand(r.reader) == Handshake
    ensures Arranged(r)
  {
    BoundByOpen(s.host, lane, signals);
    forall id | id in s.host.control ensures Untouched(s.host.control[id], r.host.cores, EverBound(r.host.log)) {
      assert Apart(s.host.control[id], Hand(s.reader));
    }
    BoundApart(s.host.lanes, signals[0].kind.binding.nativeId, lane);
  }

  lemma BoundApart(lanes: map<NativeId, LaneId>, n: NativeId, lane: LaneId)
    requires OneEach(lanes) && lane !in lanes.Values
    ensures OneEach(lanes[n := lane])
  {
    assert forall m :: m in lanes ==> lanes[m] in lanes.Values;
  }

  lemma SparedStaysUntouched(h: Host, r: Host, w: Waiter)
    requires Spares(h, r) && h.lanes.Values <= EverBound(h.log) && Untouched(w, h.cores, EverBound(h.log))
    ensures Untouched(w, r.cores, EverBound(r.log))
  {
  }

  lemma CalmArranged(s: System, r: System, op: Op)
    requires Arranged(s) && Admissible(s.host, op) && r.host == Apply(s.host, op)
    requires !op.DoRegisterControl? && !op.DoRegisterOpen?
    requires Hand(r.reader) == Hand(s.reader) || Hand(r.reader) == Handshake
    ensures Arranged(r)
  {
    ApplySpares(s.host, op);
    forall id | id in r.host.control ensures Untouched(r.host.control[id], r.host.cores, EverBound(r.host.log)) {
      SparedStaysUntouched(s.host, r.host, s.host.control[id]);
    }
    SparedStaysUntouched(s.host, r.host, Hand(s.reader));
  }

  // --------------------------------------------------- exactly when the rule holds

  /** An open that is registered although the bridge has stopped. */
  predicate LateOpen(s: System, a: Action) {
    s.host.closed && Region(s, a).Some? && Region(s, a).value.DoRegisterOpen?
  }

  predicate NoLateOpen(s: System, actions: seq<Action>)
    decreases |actions|
  {
    actions == [] || (!LateOpen(s, actions[0]) && NoLateOpen(Do(s, actions[0]), actions[1..]))
  }

  /** A bound lane is routed to until the bridge stops, and has ended from then on. */
  predicate LaneKept(h: Host, l: LaneId) {
    l < |h.cores| && if h.closed then h.cores[l].closed else l in h.lanes.Values
  }

  ghost predicate AllKept(h: Host) {
    forall l :: l in EverBound(h.log) ==> LaneKept(h, l)
  }

  /** Registering an open keeps all lanes exactly when the bridge runs and the native id is not bound:
      else the new lane, or the one it replaces, is lost. */
  lemma {:induction false} OpenKeepsAllIff(h: Host, lane: LaneId, signals: seq<Signal>)
    requires |signals| == 1 && signals[0].kind.SessionOpened?
    requires lane < |h.cores| && !h.cores[lane].closed && lane !in EverBound(h.log)
    requires h.lanes.Values <= EverBound(h.log) && OneEach(h.lanes)
    ensures AllKept(RegisterOpen(h, lane, signals))
            <==> AllKept(h) && !h.closed && signals[0].kind.binding.nativeId !in h.lanes
  {
    BoundByOpen(h, lane, signals);
    var r, n := RegisterOpen(h, lane, signals), signals[0].kind.binding.nativeId;
    if !AllKept(h) {
      var l :| l in EverBound(h.log) && !LaneKept(h, l);
      assert !LaneKept(r, l);
    } else if h.closed {
      assert !LaneKept(r, lane);
    } else if n in h.lanes {
      assert h.lanes[n] in h.lanes.Values;
      assert !LaneKept(r, h.lanes[n]);
    }
  }

  /** Every other region keeps a lane exactly when it was kept before. */
  lemma {:induction false} OthersKeep(h: Host, op: Op, l: LaneId)
    requires Admissible(h, op) && !op.DoRegisterOpen? && l < |h.cores| && (!h.closed ==> AllOpen(h.cores))
    ensures EverBound(Apply(h, op).log) == EverBound(h.log)
    ensures LaneKept(Apply(h, op), l) <==> LaneKept(h, l)
  {
    OnlyOpensBind(h, op);
    if op.DoRegisterControl? {
      if !h.closed { RegisterControlEffect(h, op.token, op.registration); }
    } else {
      ApplySpares(h, op);
    }
  }

  lemma {:induction false} OthersKeepAll(h: Host, op: Op)
    requires Admissible(h, op) && !op.DoRegisterOpen? && (!h.closed ==> AllOpen(h.cores))
    requires forall l :: l in EverBound(h.log) ==> l < |h.cores|
    ensures AllKept(Apply(h, op)) <==> AllKept(h)
  {
    OnlyOpensBind(h, op);
    forall l | l in EverBound(h.log) ensures LaneKept(Apply(h, op), l) <==> LaneKept(h, l) {
      OthersKeep(h, op, l);
    }
  }

  lemma {:induction false} KeptIff(s: System, a: Action)
    requires Healthy(s) && Arranged(s)
    ensures AllKept(Do(s, a).host) <==> AllKept(s.host) && FreshId(s, a) && !LateOpen(s, a)
  {
    RegionExplains(s, a);
    RegionAdmissible(s, a);
    match Region(s, a)
    case None =>
    case Some(op) =>
      if op.DoRegisterOpen? {
        OpenKeepsAllIff(s.host, op.lane, op.signals);
      } else {
        OthersKeepAll(s.host, op);
      }
  }

  lemma {:induction false} RunKeptIff(s: System, actions: seq<Action>)
    requires Healthy(s) && Voices(s) && Arranged(s) && CausalRun(s, actions)
    ensures AllKept(RunSystem(s, actions).host)
            <==> AllKept(s.host) && FreshIds(s, actions) && NoLateOpen(s, actions)
    decreases |actions|
  {
    if actions != [] {
      DoHealthy(s, actions[0]);
      DoVoices(s, actions[0]);
      DoArranged(s, actions[0]);
      KeptIff(s, actions[0]);
      RunKeptIff(Do(s, actions[0]), actions[1..]);
    }
  }

  lemma FreshArranged(limit: nat)
    ensures var s := FreshSystem(limit);
            Healthy(s) && Voices(s) && Arranged(s) && AllKept(s.host)
  {
    FreshHealthy(limit);
  }

  /** In every causal run: each lane ever bound is routed to until the bridge stops and has ended from
      then on, exactly when no open was registered for a native id bound then, and none after the
      stop. So that is exactly when a stopped bridge has ended every lane. */
  lemma BridgeEndsItsLanesIff(limit: nat, actions: seq<Action>)
    requires CausalRun(FreshSystem(limit), actions)
    ensures var s, h := FreshSystem(limit), RunSystem(FreshSystem(limit), actions).host;
            && (AllKept(h) <==> FreshIds(s, actions) && NoLateOpen(s, actions))
            && (h.closed ==> (StopEndsLanes(h) <==> FreshIds(s, actions) && NoLateOpen(s, actions)))
  {
    FreshArranged(limit);
    RunKeptIff(FreshSystem(limit), actions);
    var h := RunSystem(FreshSystem(limit), actions).host;
    if h.closed {
      assert forall l :: LaneKept(h, l) <==> LaneEnded(h, l);
    }
  }
}
