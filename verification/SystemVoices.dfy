/** One lane, one native session: in every causal run all the signals routed to a
    lane name the same native id. */
module SystemVoices {
  import opened Prelude
  import opened Connection
  import opened SessionHost
  import opened SessionSystem
  import opened SystemTickets
  import opened SystemIdentity
  import opened SystemOrder
  import opened SystemLanes
  import opened HostHistory
  import opened HostTheorems

  /** The native ids each lane was bound to or awaited a load of. */
  function Claims(log: Log): set<(LaneId, NativeId)> {
    match log
    case Start => {}
    case After(earlier, entry) =>
      if entry.Bound? || entry.LoadAwaited? then Claims(earlier) + {(entry.lane, entry.nativeId)} else Claims(earlier)
  }

  lemma {:induction false} ClaimsAreClaimed(log: Log, lane: LaneId, n: NativeId)
    ensures Claimed(log, lane, n) <==> (lane, n) in Claims(log)
  {
    if log.After? { ClaimsAreClaimed(log.earlier, lane, n); }
  }

  // ------------------------------------------------------------ the invariant

  ghost predicate Agreed(claims: set<(LaneId, NativeId)>) {
    forall l, n, m :: (l, n) in claims && (l, m) in claims ==> n == m
  }

  ghost predicate Counted(claims: set<(LaneId, NativeId)>, count: nat) {
    forall l, n :: (l, n) in claims ==> l < count
  }

  /** A waiting lane is claimed by nothing but the load it awaits. */
  ghost predicate Unheard(w: Waiter, claims: set<(LaneId, NativeId)>, count: nat) {
    w.OpenWaiter? ==> w.lane < count && forall n :: (w.lane, n) in claims ==> w.loading == Some(n)
  }

  predicate Apart(a: Waiter, b: Waiter) {
    a.OpenWaiter? && b.OpenWaiter? ==> a.lane != b.lane
  }

  /** The waiter in the reader's hand. */
  function Hand(r: Reader): Waiter {
    if (r.Took? || r.Interpreted?) && r.taken.TookControl? then r.taken.waiter else Handshake
  }

  ghost predicate Waiting(control: map<nat, Waiter>, hand: Waiter, claims: set<(LaneId, NativeId)>, count: nat) {
    && (forall id :: id in control ==> Unheard(control[id], claims, count) && Apart(control[id], hand))
    && (forall id, jd :: id in control && jd in control && id != jd ==> Apart(control[id], control[jd]))
    && Unheard(hand, claims, count)
  }

  ghost predicate Voices(s: System) {
    && Agreed(Claims(s.host.log)) && Counted(Claims(s.host.log), |s.host.cores|)
    && Waiting(s.host.control, Hand(s.reader), Claims(s.host.log), |s.host.cores|)
  }

  // ------------------------------------------------------- claims in a region

  lemma {:induction false} SettleClaims(h: Host, n: NativeId, lane: LaneId, signal: Signal)
    ensures Claims(Settle(h, n, lane, signal).host.log) == Claims(h.log)
  {
    if Terminal(signal.kind) && n in h.turns {
    } else if !Terminal(signal.kind) && PastLimit(h, n) {
    } else {
    }
  }

  lemma {:induction false} RouteOneClaims(h: Host, signal: Signal)
    ensures Claims(RouteOne(h, signal).host.log) == Claims(h.log)
  {
    match Destination(h, signal)
    case None =>
    case Some(lane) =>
      var n := signal.nativeId.value;
      SettleClaims(Observe(Advance(h, signal.sequence), n, lane, signal), n, lane, signal);
  }

  lemma {:induction false} RouteClaims(h: Host, signals: seq<Signal>)
    ensures Claims(Route(h, signals).host.log) == Claims(h.log)
    decreases |signals|
  {
    if signals != [] {
      RouteOneClaims(h, signals[0]);
      RouteClaims(RouteOne(h, signals[0]).host, signals[1..]);
    }
  }

  lemma {:induction false} FailAllClaims(h: Host, natives: seq<NativeId>, reason: string, full: set<LaneId>)
    ensures Claims(FailAll(h, natives, reason, full).log) == Claims(h.log)
    decreases |natives|
  {
    if natives != [] {
      if natives[0] in h.turns { FailAtStopLog(h, natives[0], reason, full); }
      FailAllClaims(FailAtStop(h, natives[0], reason, full), natives[1..], reason, full);
    }
  }

  lemma StopClaims(h: Host, reason: string, deliberate: bool, full: set<LaneId>)
    ensures Claims(Stop(h, reason, deliberate, full).log) == Claims(h.log)
  {
    FailAllClaims(h, Ascending(h.turns.Keys), reason, full);
  }

  lemma TurnOpClaims(h: Host, op: Op)
    requires TurnOp(op)
    ensures Claims(Apply(h, op).log) == Claims(h.log)
    ensures op.DoBeginTurn? || Shrinks(h, Apply(h, op))
    ensures Apply(h, op).control == h.control && Apply(h, op).cores == h.cores
  {
    TurnOpFrame(h, op);
    match op
    case DoBeginTurn(_, _, _) =>
    case DoFailTurn(n, reason) => FailTurnShrinks(h, n, reason);
    case DoMarkInterrupt(c, _) => if CanMark(h, c) {} else {}
    case DoFillInterrupt(n, at, _) => if StillOpen(h, n, at) {} else {}
  }

  /** Only registering an open or its waiter claims anything; nothing else adds a waiter. */
  lemma ApplyClaims(h: Host, op: Op)
    requires !op.DoRegisterControl? && !op.DoRegisterOpen? && !op.DoTake?
    ensures Claims(Apply(h, op).log) == Claims(h.log)
    ensures op.DoBeginTurn? || Shrinks(h, Apply(h, op))
    ensures op.DoBeginTurn? ==> Apply(h, op).control == h.control && Apply(h, op).cores == h.cores
  {
    match op
    case DoRoute(signals) => RouteClaims(h, signals); RouteShrinks(h, signals);
    case DoStop(reason, deliberate, full) =>
      StopClaims(h, reason, deliberate, full);
      StopShrinks(h, reason, deliberate, full);
    case DoDeliver(lane, event, stored, full) =>
      DeliverShrinks(h, lane, event, stored, full);
      StopClaims(h, STORAGE_FAILED, false, full);
    case DoDisconnected =>
    case _ => TurnOpClaims(h, op);
  }

  // ------------------------------------------------------------------ the steps

  lemma WaitingShrinks(h: Host, r: Host, hand: Waiter, kept: Waiter)
    requires Waiting(h.control, hand, Claims(h.log), |h.cores|) && Counted(Claims(h.log), |h.cores|)
    requires Claims(r.log) == Claims(h.log) && |h.cores| <= |r.cores|
    requires r.control.Keys <= h.control.Keys && forall id :: id in r.control ==> r.control[id] == h.control[id]
    requires kept == hand || kept == Handshake
    ensures Waiting(r.control, kept, Claims(r.log), |r.cores|) && Counted(Claims(r.log), |r.cores|)
  {
    forall id | id in r.control ensures Unheard(r.control[id], Claims(r.log), |r.cores|) && Apart(r.control[id], kept) {
      assert Unheard(h.control[id], Claims(h.log), |h.cores|);
    }
  }

  lemma TakeVoices(h: Host, token: nat)
    requires Waiting(h.control, Handshake, Claims(h.log), |h.cores|)
    ensures Waiting(Take(h, token).control, if token in h.control then h.control[token] else Handshake,
                    Claims(h.log), |h.cores|)
  {
  }

  lemma {:induction false} RegisterControlVoices(h: Host, token: nat, registration: Registration, hand: Waiter)
    requires !h.closed && token !in h.control
    requires Agreed(Claims(h.log)) && Counted(Claims(h.log), |h.cores|)
    requires Waiting(h.control, hand, Claims(h.log), |h.cores|)
    ensures var r := RegisterControl(h, token, registration);
            && Agreed(Claims(r.log)) && Counted(Claims(r.log), |r.cores|)
            && Waiting(r.control, hand, Claims(r.log), |r.cores|)
  {
    var r := RegisterControl(h, token, registration);
    RegisterControlEffect(h, token, registration);
    match registration
    case ForHandshake =>
      assert Claims(r.log) == Claims(h.log);
    case ForOpen(c, mode, requested) =>
      var lane, loading := |h.cores|, Loading(mode, requested);
      match loading {
        case None => assert Claims(r.log) == Claims(h.log);
        case Some(n) => assert Claims(r.log) == Claims(h.log) + {(lane, n)};
      }
      forall id | id in h.control ensures Unheard(h.control[id], Claims(r.log), lane + 1) {
        assert Unheard(h.control[id], Claims(h.log), lane);
      }
  }

  lemma RegisterOpenVoices(h: Host, lane: LaneId, loading: Option<NativeId>, signals: seq<Signal>)
    requires Agreed(Claims(h.log)) && Counted(Claims(h.log), |h.cores|)
    requires Waiting(h.control, OpenWaiter(lane, loading), Claims(h.log), |h.cores|)
    requires lane < |h.cores| && OpensFor(signals, h.cores[lane].agentSession, loading)
    ensures var r := RegisterOpen(h, lane, signals);
            && Agreed(Claims(r.log)) && Counted(Claims(r.log), |r.cores|)
            && Waiting(r.control, Handshake, Claims(r.log), |r.cores|)
  {
    var r := RegisterOpen(h, lane, signals);
    RegisterOpenOne(h, lane, signals);
    var n := signals[0].kind.binding.nativeId;
    assert Claims(r.log) == Claims(h.log) + {(lane, n)};
    assert Unheard(OpenWaiter(lane, loading), Claims(h.log), |h.cores|);
    forall id | id in h.control ensures Unheard(h.control[id], Claims(r.log), |r.cores|) {
      assert Unheard(h.control[id], Claims(h.log), |h.cores|) && Apart(h.control[id], OpenWaiter(lane, loading));
    }
  }

  /** Only a read puts a waiter in the reader's hand; acting on one lets it go. */
  lemma DoMovesHand(s: System, a: Action)
    requires !a.DoRead?
    ensures Hand(Do(s, a).reader) == Hand(s.reader) || Hand(Do(s, a).reader) == Handshake
    ensures a.DoAct? && s.reader.Interpreted? ==> Hand(Do(s, a).reader) == Handshake
  {
    if ControlAction(a) {
    } else if TurnAction(a) {
    } else {
    }
  }

  lemma {:induction false} DoVoices(s: System, a: Action)
    requires Healthy(s) && Voices(s)
    ensures Voices(Do(s, a))
  {
    RegionExplains(s, a);
    if a.DoRead? {
      if s.reader.Reading? && a.message.Response? {
        TakeVoices(s.host, a.message.id);
      }
    } else {
      DoMovesHand(s, a);
      match Region(s, a) {
        case None => WaitingShrinks(s.host, s.host, Hand(s.reader), Hand(Do(s, a).reader));
        case Some(op) => OpVoices(s, a, op, Do(s, a));
      }
    }
  }

  lemma {:induction false} JoinVoices(s: System, a: Action, op: Op, r: System)
    requires Healthy(s) && Voices(s) && Region(s, a) == Some(op) && op.DoRegisterControl? && r.host == Apply(s.host, op)
    requires Hand(r.reader) == Hand(s.reader) || Hand(r.reader) == Handshake
    ensures Voices(r)
  {
    assert a.DoRegister? && op.token !in s.host.control by {
      assert CallerFits(s.callers[a.t], s.adapter.pending, s.sent, Held(s.host));
    }
    RegisterControlVoices(s.host, op.token, op.registration, Hand(s.reader));
    WaitingShrinks(r.host, r.host, Hand(s.reader), Hand(r.reader));
  }

  lemma {:induction false} CalmVoices(s: System, op: Op, r: System)
    requires Voices(s) && r.host == Apply(s.host, op)
    requires !op.DoRegisterControl? && !op.DoRegisterOpen? && !op.DoTake?
    requires Hand(r.reader) == Hand(s.reader) || Hand(r.reader) == Handshake
    ensures Voices(r)
  {
    ApplyClaims(s.host, op);
    WaitingShrinks(s.host, r.host, Hand(s.reader), Hand(r.reader));
  }

  lemma {:induction false} OpVoices(s: System, a: Action, op: Op, r: System)
    requires Healthy(s) && Voices(s) && Region(s, a) == Some(op) && !a.DoRead? && r.host == Apply(s.host, op)
    requires Hand(r.reader) == Hand(s.reader) || Hand(r.reader) == Handshake
    requires a.DoAct? && s.reader.Interpreted? ==> Hand(r.reader) == Handshake
    ensures Voices(r)
  {
    match op
    case DoRegisterControl(_, _) => JoinVoices(s, a, op, r);
    case DoRegisterOpen(lane, signals) => RegisterOpenVoices(s.host, lane, Hand(s.reader).loading, signals);
    case DoTake(_) =>
    case _ => CalmVoices(s, op, r);
  }

  lemma {:induction false} RunVoices(s: System, actions: seq<Action>)
    requires Healthy(s) && Voices(s) && CausalRun(s, actions)
    ensures Voices(RunSystem(s, actions))
    decreases |actions|
  {
    if actions != [] {
      DoVoices(s, actions[0]);
      DoHealthy(s, actions[0]);
      RunVoices(Do(s, actions[0]), actions[1..]);
    }
  }

  // ---------------------------------------------------------------- the theorem

  /** Every signal among these events names this native id. */
  predicate SpeaksFor(events: seq<HostEvent>, n: NativeId) {
    forall i :: 0 <= i < |events| && events[i].SignalEvent? ==> events[i].signal.nativeId == Some(n)
  }

  lemma {:induction false} RoutedIsClaimed(log: Log, limit: nat, l: LaneId, i: nat)
    requires Lawful(log, limit)
    requires i < |RoutedTo(log, l)| && RoutedTo(log, l)[i].SignalEvent?
    ensures RoutedTo(log, l)[i].signal.nativeId.Some?
    ensures (l, RoutedTo(log, l)[i].signal.nativeId.value) in Claims(log)
  {
    if i < |RoutedTo(log.earlier, l)| {
      RoutedIsClaimed(log.earlier, limit, l, i);
    } else {
      ClaimsAreClaimed(log.earlier, l, log.entry.signal.nativeId.value);
    }
  }

  /** In every causal run a lane carries one native session's signals and no other's. */
  lemma LaneSpeaksForOne(limit: nat, actions: seq<Action>, l: LaneId) returns (n: NativeId)
    requires CausalRun(FreshSystem(limit), actions)
    ensures SpeaksFor(RoutedTo(RunSystem(FreshSystem(limit), actions).host.log, l), n)
    ensures var h := RunSystem(FreshSystem(limit), actions).host;
            forall m :: m in h.lanes && h.lanes[m] == l ==> m == n
  {
    FreshHealthy(limit);
    assert Voices(FreshSystem(limit));
    RunVoices(FreshSystem(limit), actions);
    SystemTurnConservation(limit, actions, 0);
    var h := RunSystem(FreshSystem(limit), actions).host;
    var claims := Claims(h.log);
    if claimed: NativeId :| (l, claimed) in claims { n := claimed; } else { n := 0; }
    forall i | 0 <= i < |RoutedTo(h.log, l)| && RoutedTo(h.log, l)[i].SignalEvent?
      ensures RoutedTo(h.log, l)[i].signal.nativeId == Some(n)
    {
      RoutedIsClaimed(h.log, limit, l, i);
    }
    RunRefines(FreshSystem(limit), actions);
    EveryRunIsLawful(limit, Regions(FreshSystem(limit), actions));
    forall m | m in h.lanes && h.lanes[m] == l ensures m == n {
      ClaimsAreClaimed(h.log, l, m);
    }
  }
}
