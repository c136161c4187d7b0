/** Whom a turn's record names: the binding it carries, the lane it goes to, and exactly when both are
    those of the turn's own session. */
module SystemRecords {
  import opened Prelude
  import opened Connection
  import opened SessionHost
  import opened SessionSystem
  import opened SystemTickets
  import opened SystemIdentity
  import opened SystemOrder
  import opened SystemBindings
  import opened HostHistory
  import opened HostTheorems
  import opened HostRouting
  import opened HostEntries

  // --------------------------------------------------- the binding of one record

  /** The binding of the session the native id's lane belongs to, or one that knows no session. */
  predicate NamesBinding(h: Host, n: NativeId, b: Binding) {
    if n in h.lanes && h.lanes[n] < |h.cores| && h.cores[h.lanes[n]].agentSession in h.sessions
    then b == h.sessions[h.cores[h.lanes[n]].agentSession]
    else b.nativeId == n && b.agentSession.None? && b.openedAs.Create?
  }

  /** Whatever ends a turn, its record carries that binding and the turn's session, and goes to the
      native id's lane. */
  lemma RecordsNameTheLanesSession(h: Host, n: NativeId, signal: Signal, lane: LaneId, reason: string,
                                   full: set<LaneId>)
    requires n in h.turns
    ensures var e := CloseByWire(h, n, lane, signal).host.log.entry;
            e.Ended? && NamesBinding(h, n, e.record.binding) && e.record.agentSession == h.turns[n].agentSession
            && e.to == Some(lane)
    ensures var e := FailTurn(h, n, reason).host.log.entry;
            e.Ended? && NamesBinding(h, n, e.record.binding) && e.record.agentSession == h.turns[n].agentSession
            && e.to == Lookup(h.lanes, n)
    ensures var e := FailAtStop(h, n, reason, full).log.entry;
            e.Ended? && NamesBinding(h, n, e.record.binding) && e.record.agentSession == h.turns[n].agentSession
            && e.to == Lookup(h.lanes, n)
  {
    FailAtStopLog(h, n, reason, full);
  }

  // ------------------------------------------------------- records in the log

  /** The lane n was bound to last. */
  function LatestLane(log: Log, n: NativeId): Option<LaneId> {
    match log
    case Start => None
    case After(earlier, entry) =>
      if entry.Bound? && entry.nativeId == n then Some(entry.lane) else LatestLane(earlier, n)
  }

  /** The record carries the binding of the session n was bound for last, and goes to that lane; the
      turn's session is resident under n too, and with `own` it is that session. */
  predicate Named(to: Option<LaneId>, latest: Option<LaneId>, n: NativeId, record: TurnRecord,
                  sessions: map<Ref, Binding>, cores: seq<LaneCore>, own: bool) {
    && latest.Some? && to == latest && latest.value < |cores|
    && var d := cores[latest.value].agentSession;
       && d in sessions && sessions[d].nativeId == n && record.binding == sessions[d]
       && record.agentSession in sessions && sessions[record.agentSession].nativeId == n
       && (own ==> d == record.agentSession)
  }

  predicate AllNamed(log: Log, sessions: map<Ref, Binding>, cores: seq<LaneCore>, own: bool) {
    match log
    case Start => true
    case After(earlier, entry) =>
      && AllNamed(earlier, sessions, cores, own)
      && (entry.Ended? ==>
            Named(entry.to, LatestLane(earlier, entry.nativeId), entry.nativeId, entry.record, sessions, cores, own))
  }

  lemma {:induction false} AllNamedGrows(
      log: Log, was: map<Ref, Binding>, before: seq<LaneCore>, now: map<Ref, Binding>, after: seq<LaneCore>, own: bool)
    requires AllNamed(log, was, before, own) && Extends(was, now) && SameOwners(before, after)
    ensures AllNamed(log, now, after, own)
  {
    if log.After? {
      AllNamedGrows(log.earlier, was, before, now, after, own);
    }
  }

  // -------------------------------------------- how sessions, lanes and turns stand

  ghost predicate SessionsPlaced(sessions: map<Ref, Binding>, lanes: map<NativeId, LaneId>, cores: seq<LaneCore>,
                                 own: bool) {
    forall c :: c in sessions ==>
      var n := sessions[c].nativeId;
      n in lanes && (own ==> lanes[n] < |cores| && cores[lanes[n]].agentSession == c)
  }

  ghost predicate LanesPlaced(sessions: map<Ref, Binding>, lanes: map<NativeId, LaneId>, cores: seq<LaneCore>) {
    forall n :: n in lanes ==>
      && lanes[n] < |cores| && cores[lanes[n]].agentSession in sessions
      && sessions[cores[lanes[n]].agentSession].nativeId == n
  }

  ghost predicate TurnsPlaced(turns: map<NativeId, ActiveTurn>, sessions: map<Ref, Binding>) {
    forall n :: n in turns ==> turns[n].agentSession in sessions && sessions[turns[n].agentSession].nativeId == n
  }

  ghost predicate Latest(lanes: map<NativeId, LaneId>, log: Log) {
    forall n :: Lookup(lanes, n) == LatestLane(log, n)
  }

  ghost predicate Placed(h: Host, own: bool) {
    && SessionsPlaced(h.sessions, h.lanes, h.cores, own) && LanesPlaced(h.sessions, h.lanes, h.cores)
    && TurnsPlaced(h.turns, h.sessions) && Latest(h.lanes, h.log)
    && AllNamed(h.log, h.sessions, h.cores, own)
  }

  lemma PlacedOwners(h: Host, r: Host, own: bool)
    requires Placed(h, own) && SameOwners(h.cores, r.cores)
    requires r.sessions == h.sessions && r.lanes == h.lanes && r.log == h.log && r.turns == h.turns
    ensures Placed(r, own)
  {
    AllNamedGrows(h.log, h.sessions, h.cores, r.sessions, r.cores, own);
  }

  /** Ending a turn, whatever ends it. */
  lemma EndPlaced(h: Host, r: Host, n: NativeId, own: bool)
    requires Placed(h, own) && n in h.turns
    requires r.turns == h.turns - {n} && r.sessions == h.sessions && r.lanes == h.lanes && r.cores == h.cores
    requires r.log.After? && r.log.earlier == h.log && r.log.entry.Ended? && r.log.entry.nativeId == n
    requires NamesBinding(h, n, r.log.entry.record.binding) && r.log.entry.to == Lookup(h.lanes, n)
    requires r.log.entry.record.agentSession == h.turns[n].agentSession
    ensures Placed(r, own)
  {
    var c := h.turns[n].agentSession;
    assert c in h.sessions && h.sessions[c].nativeId == n && n in h.lanes;
    forall m ensures Lookup(r.lanes, m) == LatestLane(r.log, m) {
      assert Lookup(h.lanes, m) == LatestLane(h.log, m);
    }
    assert LatestLane(h.log, n) == Some(h.lanes[n]);
  }

  /** A region that ends no turn and binds nothing. */
  lemma {:induction false} QuietPlaced(op: Op, log: Log, after: Log, sessions: map<Ref, Binding>, cores: seq<LaneCore>,
                                       lanes: map<NativeId, LaneId>, own: bool)
    requires Adds(op, log, after) && AllNamed(log, sessions, cores, own) && Latest(lanes, log)
    requires !(op.DoRegisterOpen? || op.DoRoute? || op.DoFailTurn? || op.DoStop? || op.DoDeliver?)
    ensures AllNamed(after, sessions, cores, own) && Latest(lanes, after)
  {
    if after != log {
      QuietPlaced(op, log, after.earlier, sessions, cores, lanes, own);
      forall n ensures Lookup(lanes, n) == LatestLane(after, n) {
        assert Lookup(lanes, n) == LatestLane(after.earlier, n);
      }
    }
  }

  // ------------------------------------------------------------ ending by the wire

  lemma EntryPlaced(h: Host, r: Host, own: bool)
    requires Placed(h, own) && r.sessions == h.sessions && r.lanes == h.lanes && r.cores == h.cores
    requires r.log.After? && r.log.earlier == h.log && !r.log.entry.Ended? && !r.log.entry.Bound?
    requires r.turns.Keys == h.turns.Keys
    requires forall n :: n in r.turns ==> r.turns[n].agentSession == h.turns[n].agentSession
    ensures Placed(r, own)
  {
    forall m ensures Lookup(r.lanes, m) == LatestLane(r.log, m) {
      assert Lookup(h.lanes, m) == LatestLane(h.log, m);
    }
  }

  lemma {:induction false} SettlePlaced(h: Host, n: NativeId, lane: LaneId, signal: Signal, own: bool)
    requires Placed(h, own) && (n in h.turns ==> Lookup(h.lanes, n) == Some(lane))
    ensures Placed(Settle(h, n, lane, signal).host, own)
  {
    if Terminal(signal.kind) && n in h.turns {
      RecordsNameTheLanesSession(h, n, signal, lane, "", {});
      EndPlaced(h, CloseByWire(h, n, lane, signal).host, n, own);
    } else if !Terminal(signal.kind) && PastLimit(h, n) {
      EntryPlaced(h, MarkLimit(h, n), own);
    } else {
    }
  }

  lemma {:induction false} ObservePlaced(h: Host, n: NativeId, lane: LaneId, signal: Signal, own: bool)
    requires Placed(h, own)
    ensures var r := Observe(Advance(h, signal.sequence), n, lane, signal);
            Placed(r, own) && r.turns.Keys == h.turns.Keys && r.lanes == h.lanes
  {
    var h1 := Advance(h, signal.sequence);
    if n in h.turns {
      var r := Observe(h1, n, lane, signal);
      assert r.turns == h.turns[n := CountSignal(h.turns[n], signal.sequence)];
      EntryPlaced(h, r, own);
    } else {
      EntryPlaced(h, Note(h1, Routed(Some(lane), signal)), own);
    }
  }

  lemma {:induction false} RouteToPlaced(h: Host, signal: Signal, to: Option<LaneId>, own: bool)
    requires Placed(h, own) && (to.Some? ==> signal.nativeId.Some?)
    requires to.Some? && signal.nativeId.value in h.turns ==> Lookup(h.lanes, signal.nativeId.value) == to
    ensures Placed(RouteTo(Advance(h, signal.sequence), signal, to).host, own)
  {
    match to
    case None => EntryPlaced(h, PushUnattributed(Advance(h, signal.sequence), signal), own);
    case Some(lane) =>
      var n := signal.nativeId.value;
      ObservePlaced(h, n, lane, signal, own);
      SettlePlaced(Observe(Advance(h, signal.sequence), n, lane, signal), n, lane, signal, own);
  }

  lemma {:induction false} RouteOnePlaced(h: Host, signal: Signal, own: bool)
    requires Placed(h, own)
    ensures Placed(RouteOne(h, signal).host, own)
  {
    if signal.nativeId.Some? && signal.nativeId.value in h.turns {
      TurnHasLane(h, signal.nativeId.value, own);
      ResolvesFirst(h, signal.nativeId.value);
    }
    RouteToPlaced(h, signal, Destination(h, signal), own);
  }

  lemma TurnHasLane(h: Host, n: NativeId, own: bool)
    requires Placed(h, own) && n in h.turns
    ensures n in h.lanes
  {
    assert h.turns[n].agentSession in h.sessions;
  }

  lemma {:induction false} RoutePlaced(h: Host, signals: seq<Signal>, own: bool)
    requires Placed(h, own)
    ensures Placed(Route(h, signals).host, own)
    decreases |signals|
  {
    if signals != [] {
      RouteOnePlaced(h, signals[0], own);
      RoutePlaced(RouteOne(h, signals[0]).host, signals[1..], own);
    }
  }

  // --------------------------------------------------------------- ending by a stop

  lemma {:induction false} FailAtStopPlaced(h: Host, n: NativeId, reason: string, full: set<LaneId>, own: bool)
    requires Placed(h, own)
    ensures Placed(FailAtStop(h, n, reason, full), own)
  {
    if n in h.turns {
      var r := FailAtStop(h, n, reason, full);
      var m := r.(cores := h.cores);
      RecordsNameTheLanesSession(h, n, Signal(0, None, Cancelled), 0, reason, full);
      FailAtStopLog(h, n, reason, full);
      EndPlaced(h, m, n, own);
      PlacedOwners(m, r, own);
    }
  }

  lemma {:induction false} FailAllPlaced(h: Host, natives: seq<NativeId>, reason: string, full: set<LaneId>, own: bool)
    requires Placed(h, own)
    ensures Placed(FailAll(h, natives, reason, full), own)
    decreases |natives|
  {
    if natives != [] {
      FailAtStopPlaced(h, natives[0], reason, full, own);
      FailAllPlaced(FailAtStop(h, natives[0], reason, full), natives[1..], reason, full, own);
    }
  }

  lemma {:induction false} StopNames(h: Host, reason: string, deliberate: bool, full: set<LaneId>, own: bool)
    requires !h.closed && Placed(h, own)
    ensures var r := Stop(h, reason, deliberate, full);
            r.closed && AllNamed(r.log, r.sessions, r.cores, own)
  {
    var natives := Ascending(h.turns.Keys);
    var m, r := FailAll(h, natives, reason, full), Stop(h, reason, deliberate, full);
    FailAllPlaced(h, natives, reason, full, own);
    AllNamedGrows(m.log, m.sessions, m.cores, r.sessions, r.cores, own);
  }

  lemma {:induction false} DeliverNames(h: Host, lane: LaneId, event: HostEvent, stored: bool, full: set<LaneId>,
                                        own: bool)
    requires !h.closed && Placed(h, own)
    ensures var r := Deliver(h, lane, event, stored, full);
            if r.closed then AllNamed(r.log, r.sessions, r.cores, own) else Placed(r, own)
  {
    if Refuses(h, lane, stored) {
      StopNames(h, STORAGE_FAILED, false, full, own);
    } else {
      AppendOwners(h.cores, lane, event);
      PlacedOwners(h, Deliver(h, lane, event, stored, full), own);
    }
  }

  // ------------------------------------------------------------------ the regions

  /** What a running system guarantees of the regions it goes through. */
  predicate Placing(h: Host, op: Op, own: bool) {
    match op
    case DoBeginTurn(c, _, n) => c in h.sessions && h.sessions[c].nativeId == n
    case DoRegisterOpen(lane, signals) =>
      && lane < |h.cores| && h.cores[lane].agentSession !in h.sessions
      && |signals| == 1 && signals[0].kind.SessionOpened?
      && (own ==> signals[0].kind.binding.nativeId !in h.lanes)
    case _ => true
  }

  lemma BoundIsLatest(lanes: map<NativeId, LaneId>, log: Log, n: NativeId, lane: LaneId)
    requires Latest(lanes, log)
    ensures Latest(lanes[n := lane], After(log, Bound(lane, n)))
  {
    forall m ensures Lookup(lanes[n := lane], m) == LatestLane(After(log, Bound(lane, n)), m) {
      assert Lookup(lanes, m) == LatestLane(log, m);
    }
  }

  lemma OpenPlacesLanes(sessions: map<Ref, Binding>, lanes: map<NativeId, LaneId>, cores: seq<LaneCore>, lane: LaneId,
                        b: Binding, own: bool)
    requires SessionsPlaced(sessions, lanes, cores, own) && LanesPlaced(sessions, lanes, cores)
    requires lane < |cores| && cores[lane].agentSession !in sessions && (own ==> b.nativeId !in lanes)
    ensures var now, bound := sessions[cores[lane].agentSession := b], lanes[b.nativeId := lane];
            SessionsPlaced(now, bound, cores, own) && LanesPlaced(now, bound, cores)
  {
    var now, bound := sessions[cores[lane].agentSession := b], lanes[b.nativeId := lane];
    forall n | n in bound ensures bound[n] < |cores| && cores[bound[n]].agentSession in now
                                  && now[cores[bound[n]].agentSession].nativeId == n {
      if n != b.nativeId { assert n in lanes && cores[lanes[n]].agentSession in sessions; }
    }
  }

  lemma {:induction false} OpenPlaced(h: Host, lane: LaneId, signals: seq<Signal>, own: bool)
    requires Placed(h, own) && Placing(h, DoRegisterOpen(lane, signals), own)
    ensures Placed(RegisterOpen(h, lane, signals), own)
  {
    RegisterOpenOne(h, lane, signals);
    var r, b := RegisterOpen(h, lane, signals), signals[0].kind.binding;
    AllNamedGrows(h.log, h.sessions, h.cores, r.sessions, r.cores, own);
    BoundIsLatest(h.lanes, h.log, b.nativeId, lane);
    OpenPlacesLanes(h.sessions, h.lanes, h.cores, lane, b, own);
  }

  lemma {:induction false} RegisterControlPlaced(h: Host, op: Op, own: bool)
    requires op.DoRegisterControl? && Placed(h, own)
    ensures Placed(Apply(h, op), own)
  {
    if !h.closed {
      var r := Apply(h, op);
      RegisterControlEffect(h, op.token, op.registration);
      RegionWritesItsOwn(h, op);
      QuietPlaced(op, h.log, r.log, h.sessions, h.cores, h.lanes, own);
      PlacedOwners(h.(log := r.log), r, own);
    }
  }

  lemma {:induction false} FailTurnPlaced(h: Host, n: NativeId, reason: string, own: bool)
    requires Placed(h, own)
    ensures Placed(FailTurn(h, n, reason).host, own)
  {
    if n in h.turns {
      RecordsNameTheLanesSession(h, n, Signal(0, None, Cancelled), 0, reason, {});
      FailTurnFrame(h, n, reason);
      EndPlaced(h, FailTurn(h, n, reason).host, n, own);
    }
  }

  lemma {:induction false} MarkPlaced(h: Host, c: Ref, why: Option<string>, own: bool)
    requires Placed(h, own)
    ensures Placed(MarkInterrupt(h, c, why), own)
  {
    if CanMark(h, c) {
      EntryPlaced(h, MarkInterrupt(h, c, why), own);
    }
  }

  lemma {:induction false} FillPlaced(h: Host, n: NativeId, at: nat, commands: seq<string>, own: bool)
    requires Placed(h, own)
    ensures Placed(FillInterrupt(h, n, at, commands), own)
  {
    if StillOpen(h, n, at) {
      EntryPlaced(h, FillInterrupt(h, n, at, commands), own);
    }
  }

  lemma {:induction false} TurnOpPlaced(h: Host, op: Op, own: bool)
    requires TurnOp(op) && Placed(h, own) && Placing(h, op, own)
    ensures Placed(Apply(h, op), own)
  {
    match op
    case DoBeginTurn(c, token, n) => if CanBegin(h, n) { BeginPlaced(h, c, token, n, own); }
    case DoFailTurn(n, reason) => FailTurnPlaced(h, n, reason, own);
    case DoMarkInterrupt(c, why) => MarkPlaced(h, c, why, own);
    case DoFillInterrupt(n, at, commands) => FillPlaced(h, n, at, commands, own);
  }

  lemma {:induction false} BeginPlaced(h: Host, c: Ref, token: nat, n: NativeId, own: bool)
    requires Placed(h, own) && CanBegin(h, n) && c in h.sessions && h.sessions[c].nativeId == n
    ensures Placed(BeginTurn(h, c, token, n), own)
  {
    var r := BeginTurn(h, c, token, n);
    forall m ensures Lookup(r.lanes, m) == LatestLane(r.log, m) {
      assert Lookup(h.lanes, m) == LatestLane(h.log, m);
    }
    assert AllNamed(r.log, r.sessions, r.cores, own);
  }

  lemma {:induction false} RunningPlaced(h: Host, op: Op, own: bool)
    requires !h.closed && Placed(h, own) && Placing(h, op, own) && Admissible(h, op)
    ensures var r := Apply(h, op);
            if r.closed then AllNamed(r.log, r.sessions, r.cores, own) else Placed(r, own)
  {
    match op
    case DoRegisterControl(_, _) => RegisterControlPlaced(h, op, own);
    case DoTake(_) =>
    case DoRegisterOpen(lane, signals) => OpenPlaced(h, lane, signals, own);
    case DoRoute(signals) => RoutePlaced(h, signals, own); RouteFrame(h, signals);
    case DoStop(reason, deliberate, full) => StopNames(h, reason, deliberate, full, own);
    case DoDisconnected =>
    case DoDeliver(lane, event, stored, full) => DeliverNames(h, lane, event, stored, full, own);
    case _ => TurnOpPlaced(h, op, own); TurnOpFrame(h, op);
  }

  // ------------------------------------------------------------ after a stop

  lemma {:induction false} StoppedRouteNames(h: Host, signals: seq<Signal>, own: bool)
    requires h.turns == map[] && AllNamed(h.log, h.sessions, h.cores, own)
    ensures var r := Route(h, signals).host;
            AllNamed(r.log, h.sessions, h.cores, own)
    decreases |signals|
  {
    if signals != [] {
      var m := RouteOne(h, signals[0]).host;
      StoppedSignalNames(h, signals[0], own);
      RouteOneFrame(h, signals[0]);
      StoppedRouteNames(m, signals[1..], own);
    }
  }

  lemma {:induction false} StoppedSignalNames(h: Host, signal: Signal, own: bool)
    requires h.turns == map[] && AllNamed(h.log, h.sessions, h.cores, own)
    ensures var r := RouteOne(h, signal).host;
            r.turns == map[] && AllNamed(r.log, h.sessions, h.cores, own)
  {
    var to := Destination(h, signal);
    assert RouteOne(h, signal).host.log == After(h.log, Routed(to, signal));
  }

  lemma {:induction false} QuietNames(op: Op, log: Log, after: Log, sessions: map<Ref, Binding>, cores: seq<LaneCore>,
                                      own: bool)
    requires Adds(op, log, after) && AllNamed(log, sessions, cores, own)
    requires !(op.DoRoute? || op.DoFailTurn? || op.DoStop? || op.DoDeliver?)
    ensures AllNamed(after, sessions, cores, own)
  {
    if after != log {
      QuietNames(op, log, after.earlier, sessions, cores, own);
    }
  }

  lemma {:induction false} StoppedNames(h: Host, op: Op, own: bool)
    requires h.closed && Quiet(h) && AllNamed(h.log, h.sessions, h.cores, own)
    requires op.DoRegisterOpen? ==> Placing(h, op, false)
    ensures var r := Apply(h, op);
            AllNamed(r.log, r.sessions, r.cores, own)
  {
    match op
    case DoRoute(signals) => StoppedRouteNames(h, signals, own); RouteFrame(h, signals);
    case DoRegisterOpen(lane, signals) =>
      var r := Apply(h, op);
      RegisterOpenOne(h, lane, signals);
      AllNamedGrows(h.log, h.sessions, h.cores, r.sessions, r.cores, own);
    case DoDeliver(lane, event, stored, full) =>
      AppendOwners(h.cores, lane, event);
      AllNamedGrows(h.log, h.sessions, h.cores, h.sessions, Apply(h, op).cores, own);
    case _ =>
  }

  // ------------------------------------------------------------- whole runs

  /** A stopped host's records are named; a running one's, and all its turns and lanes are in place. */
  ghost predicate Naming(h: Host, own: bool) {
    Quiet(h) && if h.closed then AllNamed(h.log, h.sessions, h.cores, own) else Placed(h, own)
  }

  lemma {:induction false} RegionPlacing(s: System, a: Action, own: bool)
    requires Healthy(s) && Region(s, a).Some? && (own ==> FreshId(s, a))
    ensures Placing(s.host, Region(s, a).value, own && !s.host.closed)
  {
    match a
    case DoRegisterPrompt(t) =>
      if t in s.callers { assert CallerStands(s, t, s.callers[t]); }
    case DoAct(_) =>
    case _ =>
  }

  lemma {:induction false} DoNaming(s: System, a: Action, own: bool)
    requires Healthy(s) && Sound(s.host) && Naming(s.host, own) && (own ==> FreshId(s, a))
    ensures Sound(Do(s, a).host) && Naming(Do(s, a).host, own)
  {
    RegionExplains(s, a);
    if Region(s, a).Some? {
      var op := Region(s, a).value;
      RegionAdmissible(s, a);
      RegionPlacing(s, a, own);
      ApplySound(s.host, op);
      if s.host.closed {
        StoppedNames(s.host, op, own);
      } else {
        RunningPlaced(s.host, op, own);
      }
    }
  }

  lemma {:induction false} RunNaming(s: System, actions: seq<Action>, own: bool)
    requires Healthy(s) && Sound(s.host) && Naming(s.host, own) && CausalRun(s, actions)
    requires own ==> FreshIds(s, actions)
    ensures Naming(RunSystem(s, actions).host, own)
    decreases |actions|
  {
    if actions != [] {
      DoHealthy(s, actions[0]);
      DoNaming(s, actions[0], own);
      RunNaming(Do(s, actions[0]), actions[1..], own);
    }
  }

  lemma {:induction false} PrefixNamed(p: Log, log: Log, sessions: map<Ref, Binding>, cores: seq<LaneCore>, own: bool)
    requires Prefix(p, log) && AllNamed(log, sessions, cores, own)
    ensures AllNamed(p, sessions, cores, own)
  {
    if p != log {
      PrefixNamed(p, log.earlier, sessions, cores, own);
    }
  }

  /** In every causal run, every record ever made: it goes to the lane its native id was bound to last,
      and carries the binding of that lane's session; the turn's own session is resident under the same
      native id; and the record carries that session's binding exactly when the lane is that session's.
      With no bound native id opened again it always does. */
  lemma RecordsNameTheirSession(limit: nat, actions: seq<Action>, earlier: Log, n: NativeId, serial: nat,
                                record: TurnRecord, cause: EndCause, to: Option<LaneId>)
    requires CausalRun(FreshSystem(limit), actions)
    requires Prefix(After(earlier, Ended(n, serial, record, cause, to)),
                    RunSystem(FreshSystem(limit), actions).host.log)
    ensures var h := RunSystem(FreshSystem(limit), actions).host;
            && to.Some? && to == LatestLane(earlier, n) && to.value < |h.cores|
            && var d := h.cores[to.value].agentSession;
               && d in h.sessions && record.binding == h.sessions[d]
               && record.binding.nativeId == n && record.binding.agentSession == Some(d)
               && record.agentSession in h.sessions && h.sessions[record.agentSession].nativeId == n
               && (record.binding == h.sessions[record.agentSession] <==> d == record.agentSession)
               && (FreshIds(FreshSystem(limit), actions) ==> d == record.agentSession)
  {
    var s := FreshSystem(limit);
    var h, own := RunSystem(s, actions).host, FreshIds(s, actions);
    FreshHealthy(limit);
    FreshSound(limit);
    RunNaming(s, actions, own);
    PrefixNamed(After(earlier, Ended(n, serial, record, cause, to)), h.log, h.sessions, h.cores, own);
    IdentityPreserved(limit, actions, h.cores[to.value].agentSession, 0, 0);
    IdentityPreserved(limit, actions, record.agentSession, 0, 0);
  }
}
