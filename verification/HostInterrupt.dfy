/** Which turn an interrupt reaches.

    `interrupt` marks a turn, lets go of the state lock while the adapter
    prepares the cancel, and then fills in the commands of whatever pending
    interrupt on that native session was requested at the same sequence number.
    Any other thread may run in between. */
module HostInterrupt {
  import opened Prelude
  import opened Connection
  import opened SessionHost
  import opened HostHistory
  import opened HostTheorems

  // ------------------------------------------------------------ the log grows

  lemma {:induction false} PrefixTransitive(a: Log, b: Log, c: Log)
    requires Prefix(a, b) && Prefix(b, c)
    ensures Prefix(a, c)
  {
    if b != c {
      PrefixTransitive(a, b, c.earlier);
    }
  }

  predicate StopEnded(log: Log) {
    match log
    case Start => false
    case After(earlier, entry) => (entry.Ended? && entry.cause.ByStop?) || StopEnded(earlier)
  }

  /** The log only grows, and outside a stop no turn ends by a stop. */
  predicate Grows(h: Host, r: Host) {
    Prefix(h.log, r.log) && (StopEnded(r.log) ==> StopEnded(h.log) || r.closed) && (h.closed ==> r.closed)
  }

  lemma GrowsTransitive(a: Host, b: Host, c: Host)
    requires Grows(a, b) && Grows(b, c)
    ensures Grows(a, c)
  {
    PrefixTransitive(a.log, b.log, c.log);
  }

  lemma RegisterBindingGrows(h: Host, lane: LaneId, signal: Signal)
    ensures Grows(h, RegisterBinding(h, lane, signal))
  {
    if signal.kind.SessionOpened? && lane < |h.cores| {
      var entry := Bound(lane, signal.kind.binding.nativeId);
      assert RegisterBinding(h, lane, signal).log == After(h.log, entry);
      assert Prefix(h.log, h.log);
    }
  }

  lemma {:induction false} RegisterOpenGrows(h: Host, lane: LaneId, signals: seq<Signal>)
    ensures Grows(h, RegisterOpen(h, lane, signals))
    decreases |signals|
  {
    if signals != [] {
      var h1 := RegisterBinding(h, lane, signals[0]);
      RegisterBindingGrows(h, lane, signals[0]);
      RegisterOpenGrows(h1, lane, signals[1..]);
      GrowsTransitive(h, h1, RegisterOpen(h1, lane, signals[1..]));
    }
  }

  lemma {:induction false} SettleGrows(h: Host, n: NativeId, lane: LaneId, signal: Signal)
    ensures Grows(h, Settle(h, n, lane, signal).host)
  {
    if Terminal(signal.kind) && n in h.turns {
    } else if !Terminal(signal.kind) && PastLimit(h, n) {
    } else {
    }
  }

  lemma {:induction false} ObserveGrows(h: Host, signal: Signal, n: NativeId, lane: LaneId)
    ensures Grows(h, Observe(Advance(h, signal.sequence), n, lane, signal))
  {
    var h1 := Advance(h, signal.sequence);
    assert Observe(h1, n, lane, signal).log == After(h.log, Routed(Some(lane), signal));
    assert Prefix(h.log, h.log);
  }

  lemma {:induction false} RouteOneGrows(h: Host, signal: Signal)
    ensures Grows(h, RouteOne(h, signal).host)
  {
    var h1 := Advance(h, signal.sequence);
    match Destination(h, signal)
    case None =>
    case Some(lane) =>
      var n := signal.nativeId.value;
      var h2 := Observe(h1, n, lane, signal);
      ObserveGrows(h, signal, n, lane);
      SettleGrows(h2, n, lane, signal);
      GrowsTransitive(h, h2, Settle(h2, n, lane, signal).host);
  }

  lemma {:induction false} RouteGrows(h: Host, signals: seq<Signal>)
    ensures Grows(h, Route(h, signals).host)
    decreases |signals|
  {
    if signals != [] {
      RouteOneGrows(h, signals[0]);
      var h1 := RouteOne(h, signals[0]).host;
      RouteGrows(h1, signals[1..]);
      GrowsTransitive(h, h1, Route(h1, signals[1..]).host);
    }
  }

  lemma {:induction false} FailAtStopExtends(h: Host, n: NativeId, reason: string, full: set<LaneId>)
    ensures Prefix(h.log, FailAtStop(h, n, reason, full).log)
  {
    if n in h.turns {
      FailAtStopLog(h, n, reason, full);
      assert Prefix(h.log, FailAtStop(h, n, reason, full).log.earlier);
    }
  }

  lemma {:induction false} FailAllExtends(h: Host, natives: seq<NativeId>, reason: string, full: set<LaneId>)
    ensures Prefix(h.log, FailAll(h, natives, reason, full).log)
    decreases |natives|
  {
    if natives != [] {
      FailAtStopExtends(h, natives[0], reason, full);
      var h1 := FailAtStop(h, natives[0], reason, full);
      FailAllExtends(h1, natives[1..], reason, full);
      PrefixTransitive(h.log, h1.log, FailAll(h1, natives[1..], reason, full).log);
    }
  }

  lemma {:induction false} StopGrows(h: Host, reason: string, deliberate: bool, full: set<LaneId>)
    ensures Grows(h, Stop(h, reason, deliberate, full))
  {
    if !h.closed {
      FailAllExtends(h, Ascending(h.turns.Keys), reason, full);
    }
  }

  lemma {:induction false} DeliverGrows(h: Host, lane: LaneId, event: HostEvent, stored: bool, full: set<LaneId>)
    ensures Grows(h, Deliver(h, lane, event, stored, full))
  {
    if Refuses(h, lane, stored) {
      StopGrows(h, STORAGE_FAILED, false, full);
    } else {
    }
  }

  lemma {:induction false} RegisterControlGrows(h: Host, token: nat, registration: Registration)
    ensures Grows(h, RegisterControl(h, token, registration))
  {
    if h.closed {
    } else {
      match registration
      case ForHandshake =>
      case ForOpen(_, mode, requested) =>
        match Loading(mode, requested)
        case None =>
        case Some(_) =>
    }
  }

  lemma {:induction false} SmallRegionsGrow(h: Host, op: Op)
    requires op.DoBeginTurn? || op.DoTake? || op.DoFailTurn? || op.DoDisconnected? || op.DoMarkInterrupt?
             || op.DoFillInterrupt?
    ensures Grows(h, Apply(h, op))
  {
    match op
    case DoBeginTurn(c, token, n) => if CanBegin(h, n) {} else {}
    case DoTake(_) =>
    case DoFailTurn(n, _) => if n in h.turns {} else {}
    case DoDisconnected =>
    case DoMarkInterrupt(c, _) => if CanMark(h, c) {} else {}
    case DoFillInterrupt(n, at, _) => if StillOpen(h, n, at) {} else {}
  }

  lemma {:induction false} ApplyGrows(h: Host, op: Op)
    ensures Grows(h, Apply(h, op))
  {
    match op
    case DoRegisterControl(token, registration) => RegisterControlGrows(h, token, registration);
    case DoRegisterOpen(lane, signals) => RegisterOpenGrows(h, lane, signals);
    case DoRoute(signals) => RouteGrows(h, signals);
    case DoStop(reason, deliberate, full) => StopGrows(h, reason, deliberate, full);
    case DoDeliver(lane, event, stored, full) => DeliverGrows(h, lane, event, stored, full);
    case _ => SmallRegionsGrow(h, op);
  }

  lemma {:induction false} RunGrows(h: Host, ops: seq<Op>)
    ensures Grows(h, Run(h, ops))
    decreases |ops|
  {
    if ops != [] {
      ApplyGrows(h, ops[0]);
      RunGrows(Apply(h, ops[0]), ops[1..]);
      GrowsTransitive(h, Apply(h, ops[0]), Run(Apply(h, ops[0]), ops[1..]));
    }
  }

  // --------------------------------------------------------- following a turn

  lemma {:induction false} FutureSerialsNotEnded(log: Log, limit: nat, serial: nat)
    requires Lawful(log, limit) && serial >= Serials(log)
    ensures EndOf(log, serial).None?
  {
    if log.After? {
      FutureSerialsNotEnded(log.earlier, limit, serial);
      if log.entry.Ended? {
        LiveSerials(log.earlier, limit, log.entry.nativeId, log.entry.nativeId);
      }
    }
  }

  /** A turn in flight has not ended. */
  lemma {:induction false} LiveHasNotEnded(log: Log, limit: nat, n: NativeId)
    requires Lawful(log, limit) && Live(log, n).Some?
    ensures EndOf(log, Live(log, n).value.serial).None?
  {
    var e := log.entry;
    if e.Began? && e.nativeId == n {
      FutureSerialsNotEnded(log.earlier, limit, e.serial);
    } else {
      LiveHasNotEnded(log.earlier, limit, n);
      if e.Ended? {
        LiveSerials(log.earlier, limit, n, e.nativeId);
      }
    }
  }

  predicate InFlight(log: Log, n: NativeId, serial: nat) {
    Live(log, n).Some? && Live(log, n).value.serial == serial
  }

  /** Where a turn stands that was marked at sequence `at`: in flight with that
      mark, or ended. If the provider ended it, every later turn begins above `at`. */
  predicate Followed(log: Log, n: NativeId, serial: nat, at: nat, reason: Option<string>) {
    if InFlight(log, n, serial) then
      Asked(log, n).Some? && Asked(log, n).value.requestedAt == at && Asked(log, n).value.reason == reason
    else
      && EndOf(log, serial).Some?
      && (EndOf(log, serial).value.ByWire? ==>
            && HighestSequence(log) > at
            && (Live(log, n).Some? ==> Live(log, n).value.baseline > at))
  }

  lemma {:induction false} FollowedStep(earlier: Log, e: Entry, limit: nat, n: NativeId, serial: nat, at: nat,
                                        reason: Option<string>)
    requires Lawful(After(earlier, e), limit) && Rising(After(earlier, e))
    requires Followed(earlier, n, serial, at, reason) && serial < Serials(earlier)
    ensures Followed(After(earlier, e), n, serial, at, reason)
  {
    if InFlight(earlier, n, serial) {
      LiveSignalsClimb(earlier, limit, n);
      if e.Ended? && e.nativeId == n {
        assert EndOf(After(earlier, e), serial) == Some(e.cause);
        if e.cause.ByWire? {
          LiveSignalsClimb(earlier.earlier, limit, n);
        }
      }
    } else if e.Ended? {
      LiveHasNotEnded(earlier, limit, e.nativeId);
    }
  }

  lemma {:induction false} FollowedThrough(before: Log, log: Log, limit: nat, n: NativeId, serial: nat, at: nat,
                                           reason: Option<string>)
    requires Prefix(before, log) && Lawful(log, limit) && Rising(log)
    requires Followed(before, n, serial, at, reason) && serial < Serials(before)
    ensures Followed(log, n, serial, at, reason) && serial < Serials(log)
  {
    if before != log {
      FollowedThrough(before, log.earlier, limit, n, serial, at, reason);
      FollowedStep(log.earlier, log.entry, limit, n, serial, at, reason);
    }
  }

  predicate Owns(h: Host, n: NativeId, serial: nat) {
    n in h.turns && h.turns[n].serial == serial
  }

  predicate EndedByPromptError(log: Log, serial: nat) {
    EndOf(log, serial).Some? && EndOf(log, serial).value.ByPromptError?
  }

  lemma {:induction false} ByStopMeansStopEnded(log: Log, serial: nat)
    requires EndOf(log, serial).Some? && EndOf(log, serial).value.ByStop?
    ensures StopEnded(log)
  {
    if !(log.entry.Ended? && log.entry.serial == serial) {
      ByStopMeansStopEnded(log.earlier, serial);
    }
  }

  /** For every interleaving between the two regions of `interrupt`: if the
      second check passes, it is the marked turn exactly when that turn was not
      ended by a prompt error meanwhile; and if the marked turn is still in
      flight the check passes and finds the request that was made. */
  lemma {:induction false} InterruptReachesItsTurn(h0: Host, c: Ref, reason: Option<string>, ops: seq<Op>)
    requires Sound(h0) && !StopEnded(h0.log) && CanMark(h0, c)
    requires AdmissibleRun(MarkInterrupt(h0, c, reason), ops)
    ensures var n := h0.sessions[c].nativeId;
            var serial, at := h0.turns[n].serial, h0.turns[n].lastSequence;
            var h := Run(MarkInterrupt(h0, c, reason), ops);
            && (StillOpen(h, n, at) ==> (Owns(h, n, serial) <==> !EndedByPromptError(h.log, serial)))
            && (Owns(h, n, serial) ==> StillOpen(h, n, at) && h.turns[n].interrupt.value.reason == reason)
  {
    var n := h0.sessions[c].nativeId;
    var serial, at := h0.turns[n].serial, h0.turns[n].lastSequence;
    var h1 := MarkInterrupt(h0, c, reason);
    ApplySound(h0, DoMarkInterrupt(c, reason));
    RunSound(h1, ops);
    RunGrows(h1, ops);
    var h := Run(h1, ops);
    RunKeepsLimit(h1, ops);
    assert TurnAgrees(h0.turns, h0.log, h0.limit, n);
    LiveSerials(h1.log, h1.limit, n, n);
    FollowedThrough(h1.log, h.log, h.limit, n, serial, at, reason);
    assert TurnAgrees(h.turns, h.log, h.limit, n);
    if n in h.turns {
      LiveHasNotEnded(h.log, h.limit, n);
      LiveSignalsClimb(h.log, h.limit, n);
      if !Owns(h, n, serial) && EndOf(h.log, serial).value.ByStop? {
        ByStopMeansStopEnded(h.log, serial);
      }
    }
  }

  /** The same, from a fresh host through any run. */
  lemma {:induction false} InterruptInEveryRun(limit: nat, earlier: seq<Op>, c: Ref, reason: Option<string>,
                                               between: seq<Op>)
    requires AdmissibleRun(FreshHost(limit), earlier)
    requires CanMark(Run(FreshHost(limit), earlier), c)
    requires AdmissibleRun(MarkInterrupt(Run(FreshHost(limit), earlier), c, reason), between)
    ensures var h0 := Run(FreshHost(limit), earlier);
            var n := h0.sessions[c].nativeId;
            var serial, at := h0.turns[n].serial, h0.turns[n].lastSequence;
            var h := Run(MarkInterrupt(h0, c, reason), between);
            && (StillOpen(h, n, at) ==> (Owns(h, n, serial) <==> !EndedByPromptError(h.log, serial)))
            && (Owns(h, n, serial) ==> StillOpen(h, n, at) && h.turns[n].interrupt.value.reason == reason)
  {
    FreshSound(limit);
    RunSound(FreshHost(limit), earlier);
    RunGrows(FreshHost(limit), earlier);
    InterruptReachesItsTurn(Run(FreshHost(limit), earlier), c, reason, between);
  }
}
