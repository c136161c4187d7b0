/** What a lawful history means: conservation of turns, exact accounting of each
    turn, one limit per turn, nothing after a stop, and no signal lost. */
module HostTheorems {
  import opened Prelude
  import opened Connection
  import opened SessionHost
  import opened HostHistory

  /** After any sequence of regions, from a fresh host, the log is lawful and the state is its
      summary: each turn in flight, each lane's claim, the last records and both bounded queues. */
  lemma {:induction false} EveryRunIsLawful(limit: nat, ops: seq<Op>)
    ensures var h := Run(FreshHost(limit), ops);
            Lawful(h.log, limit) && Good(h)
  {
    FreshGood(limit);
    RunGood(FreshHost(limit), ops);
    RunKeepsLimit(FreshHost(limit), ops);
  }

  // ------------------------------------------------------------ conservation

  lemma {:induction false} BegunAreEndedOrLive(log: Log, limit: nat, n: NativeId)
    requires Lawful(log, limit)
    ensures TurnsBegun(log, n) == TurnsEnded(log, n) + if Live(log, n).Some? then 1 else 0
  {
    if log.After? {
      BegunAreEndedOrLive(log.earlier, limit, n);
    }
  }

  /** Every turn begun has exactly one record or is the one in flight. */
  lemma TurnConservation(limit: nat, ops: seq<Op>, n: NativeId)
    ensures var h := Run(FreshHost(limit), ops);
            TurnsBegun(h.log, n) == TurnsEnded(h.log, n) + if n in h.turns then 1 else 0
  {
    EveryRunIsLawful(limit, ops);
    var h := Run(FreshHost(limit), ops);
    BegunAreEndedOrLive(h.log, limit, n);
    assert TurnAgrees(h.turns, h.log, h.limit, n);
  }

  // ---------------------------------------------------------- admissible runs

  /** Signals in the order one adapter numbered them. */
  predicate Climbing(signals: seq<Signal>, floor: nat)
    decreases |signals|
  {
    signals == [] || (signals[0].sequence > floor && Climbing(signals[1..], signals[0].sequence))
  }

  /** What the threads above guarantee about each region: signals arrive in
      adapter order, and a control sender is only dropped by a stop. */
  predicate Admissible(h: Host, op: Op) {
    match op
    case DoRoute(signals) => Climbing(signals, h.lastSequence)
    case DoDisconnected => h.closed
    case _ => true
  }

  predicate AdmissibleRun(h: Host, ops: seq<Op>)
    decreases |ops|
  {
    ops == [] || (Admissible(h, ops[0]) && AdmissibleRun(Apply(h, ops[0]), ops[1..]))
  }

  predicate Rising(log: Log) {
    match log
    case Start => true
    case After(earlier, entry) =>
      Rising(earlier) && (entry.Routed? ==> entry.signal.sequence > HighestSequence(earlier))
  }

  /** A stopped bridge holds nothing that could still resolve. */
  predicate Quiet(h: Host) {
    h.closed ==> h.turns == map[] && h.control == map[] && h.pendingPrompts == map[]
  }

  lemma {:induction false} RegisterOpenLog(h: Host, lane: LaneId, signals: seq<Signal>)
    requires Rising(h.log)
    ensures var r := RegisterOpen(h, lane, signals);
            Rising(r.log) && r.control == h.control && r.pendingPrompts == h.pendingPrompts
    decreases |signals|
  {
    if signals != [] {
      RegisterOpenLog(RegisterBinding(h, lane, signals[0]), lane, signals[1..]);
    }
  }

  lemma {:induction false} FailAtStopRises(h: Host, n: NativeId, reason: string, full: set<LaneId>)
    requires Rising(h.log)
    ensures Rising(FailAtStop(h, n, reason, full).log)
  {
    if n in h.turns {
      FailAtStopLog(h, n, reason, full);
    }
  }

  lemma {:induction false} FailAllRises(h: Host, natives: seq<NativeId>, reason: string, full: set<LaneId>)
    requires Rising(h.log)
    ensures Rising(FailAll(h, natives, reason, full).log)
    decreases |natives|
  {
    if natives != [] {
      FailAtStopRises(h, natives[0], reason, full);
      FailAllRises(FailAtStop(h, natives[0], reason, full), natives[1..], reason, full);
    }
  }

  lemma {:induction false} StopRises(h: Host, reason: string, deliberate: bool, full: set<LaneId>)
    requires Rising(h.log) && Quiet(h)
    ensures var r := Stop(h, reason, deliberate, full);
            Rising(r.log) && Quiet(r) && r.closed
  {
    if !h.closed {
      var order := Ascending(h.turns.Keys);
      FailAllRises(h, order, reason, full);
      var r := FailAll(h, order, reason, full);
      assert r.turns == map[] by {
        assert forall n :: n in r.turns ==> n in h.turns.Keys && n !in order;
      }
    }
  }

  lemma {:induction false} SettleRises(h: Host, n: NativeId, lane: LaneId, signal: Signal)
    requires Rising(h.log)
    ensures var r := Settle(h, n, lane, signal).host;
            Rising(r.log) && HighestSequence(r.log) == HighestSequence(h.log)
  {
    if Terminal(signal.kind) && n in h.turns {
    } else if !Terminal(signal.kind) && PastLimit(h, n) {
    } else {
    }
  }

  lemma {:induction false} RouteToLaneRises(h: Host, n: NativeId, lane: LaneId, signal: Signal)
    requires Rising(h.log) && signal.sequence > HighestSequence(h.log)
    ensures var r := RouteToLane(h, n, lane, signal).host;
            Rising(r.log) && HighestSequence(r.log) == signal.sequence
  {
    SettleRises(Observe(h, n, lane, signal), n, lane, signal);
  }

  lemma {:induction false} RouteOneRises(h: Host, signal: Signal)
    requires Rising(h.log) && h.lastSequence == HighestSequence(h.log)
    requires signal.sequence > h.lastSequence
    ensures var r := RouteOne(h, signal).host;
            && Rising(r.log)
            && r.lastSequence == HighestSequence(r.log) == signal.sequence
  {
    RouteOneFrame(h, signal);
    match Destination(h, signal)
    case None =>
    case Some(lane) =>
      RouteToLaneRises(Advance(h, signal.sequence), signal.nativeId.value, lane, signal);
  }

  lemma {:induction false} RouteRises(h: Host, signals: seq<Signal>)
    requires Rising(h.log) && Climbing(signals, h.lastSequence) && h.lastSequence == HighestSequence(h.log)
    ensures var r := Route(h, signals).host;
            Rising(r.log)
    decreases |signals|
  {
    if signals != [] {
      RouteOneRises(h, signals[0]);
      RouteRises(RouteOne(h, signals[0]).host, signals[1..]);
    }
  }

  lemma BeginTurnRises(h: Host, c: Ref, token: nat, n: NativeId)
    requires Rising(h.log) && Quiet(h)
    ensures var r := BeginTurn(h, c, token, n);
            Rising(r.log) && Quiet(r) && r.closed == h.closed
  {
  }

  lemma FailTurnRises(h: Host, n: NativeId, reason: string)
    requires Rising(h.log) && Quiet(h)
    ensures var r := FailTurn(h, n, reason).host;
            Rising(r.log) && Quiet(r) && r.closed == h.closed
  {
  }

  lemma InterruptRises(h: Host, c: Ref, why: Option<string>, n: NativeId, at: nat, commands: seq<string>)
    requires Rising(h.log) && Quiet(h)
    ensures var r := MarkInterrupt(h, c, why);
            Rising(r.log) && Quiet(r) && r.closed == h.closed
    ensures var r := FillInterrupt(h, n, at, commands);
            Rising(r.log) && Quiet(r) && r.closed == h.closed
  {
  }

  lemma AwaitLoadRises(h: Host, lane: LaneId, loading: Option<NativeId>)
    requires Rising(h.log)
    ensures var r := AwaitLoad(h, lane, loading);
            && Rising(r.log) && r.closed == h.closed && r.turns == h.turns
            && r.control == h.control && r.pendingPrompts == h.pendingPrompts
  {
    match loading
    case None =>
    case Some(_) =>
  }

  lemma RegisterControlRises(h: Host, token: nat, registration: Registration)
    requires Rising(h.log) && Quiet(h)
    ensures var r := RegisterControl(h, token, registration);
            Rising(r.log) && Quiet(r) && r.closed == h.closed
  {
    if !h.closed {
      match registration
      case ForHandshake =>
      case ForOpen(canonical, mode, requested) =>
        var loading := Loading(mode, requested);
        AwaitLoadRises(h.(cores := h.cores + [LaneCore(canonical, [], false)]), |h.cores|, loading);
    }
  }

  lemma {:induction false} ApplyRises(h: Host, op: Op)
    requires Rising(h.log) && Quiet(h) && h.lastSequence == HighestSequence(h.log)
    requires Admissible(h, op)
    ensures Rising(Apply(h, op).log) && Quiet(Apply(h, op))
    ensures h.closed ==> Apply(h, op).closed
  {
    match op
    case DoRegisterControl(token, registration) => RegisterControlRises(h, token, registration);
    case DoBeginTurn(c, token, n) => BeginTurnRises(h, c, token, n);
    case DoTake(_) =>
    case DoRegisterOpen(lane, signals) => RegisterOpenLog(h, lane, signals);
    case DoRoute(signals) => RouteRises(h, signals); RouteFrame(h, signals);
    case DoFailTurn(n, reason) => FailTurnRises(h, n, reason);
    case DoStop(reason, deliberate, full) => StopRises(h, reason, deliberate, full);
    case DoDisconnected =>
    case DoDeliver(lane, event, stored, full) => StopRises(h, STORAGE_FAILED, false, full);
    case DoMarkInterrupt(c, why) => InterruptRises(h, c, why, 0, 0, []);
    case DoFillInterrupt(n, at, commands) => InterruptRises(h, "", None, n, at, commands);
  }

  ghost predicate Sound(h: Host) {
    Good(h) && Rising(h.log) && Quiet(h)
  }

  lemma {:induction false} ApplySound(h: Host, op: Op)
    requires Sound(h) && Admissible(h, op)
    ensures Sound(Apply(h, op))
    ensures h.closed ==> Apply(h, op).closed
  {
    ApplyGood(h, op);
    ApplyRises(h, op);
  }

  /** Along every admissible run: lawful history, rising sequences, and once
      stopped no turn is in flight and the bridge stays stopped. */
  lemma {:induction false} RunSound(h: Host, ops: seq<Op>)
    requires Sound(h) && AdmissibleRun(h, ops)
    ensures Sound(Run(h, ops))
    ensures h.closed ==> Run(h, ops).closed
    decreases |ops|
  {
    if ops != [] {
      ApplySound(h, ops[0]);
      RunSound(Apply(h, ops[0]), ops[1..]);
    }
  }

  lemma FreshSound(limit: nat)
    ensures Sound(FreshHost(limit))
  {
    FreshGood(limit);
  }

  // ----------------------------------------------------- after a stop, nothing

  lemma ClosedBeginsNothing(h: Host, op: Op, n: NativeId)
    requires Sound(h) && h.closed && Admissible(h, op)
    ensures TurnsBegun(Apply(h, op).log, n) == TurnsBegun(h.log, n)
  {
    match op
    case DoRegisterControl(_, _) =>
    case DoBeginTurn(_, _, _) =>
    case DoTake(_) =>
    case DoRegisterOpen(lane, signals) => RegisterOpenBegins(h, lane, signals, n);
    case DoRoute(signals) => RouteBegins(h, signals, n);
    case DoFailTurn(_, _) =>
    case DoStop(_, _, _) =>
    case DoDisconnected =>
    case DoDeliver(_, _, _, _) =>
    case DoMarkInterrupt(_, _) =>
    case DoFillInterrupt(_, _, _) =>
  }

  lemma {:induction false} RegisterOpenBegins(h: Host, lane: LaneId, signals: seq<Signal>, n: NativeId)
    ensures TurnsBegun(RegisterOpen(h, lane, signals).log, n) == TurnsBegun(h.log, n)
    decreases |signals|
  {
    if signals != [] {
      RegisterOpenBegins(RegisterBinding(h, lane, signals[0]), lane, signals[1..], n);
    }
  }

  lemma {:induction false} SettleBegins(h: Host, m: NativeId, lane: LaneId, signal: Signal, n: NativeId)
    ensures TurnsBegun(Settle(h, m, lane, signal).host.log, n) == TurnsBegun(h.log, n)
    ensures RoutedSignals(Settle(h, m, lane, signal).host.log) == RoutedSignals(h.log)
  {
    if Terminal(signal.kind) && m in h.turns {
    } else if !Terminal(signal.kind) && PastLimit(h, m) {
    } else {
    }
  }

  lemma {:induction false} RouteOneBegins(h: Host, signal: Signal, n: NativeId)
    ensures TurnsBegun(RouteOne(h, signal).host.log, n) == TurnsBegun(h.log, n)
    ensures RoutedSignals(RouteOne(h, signal).host.log) == RoutedSignals(h.log) + [signal]
  {
    var h1 := Advance(h, signal.sequence);
    match Destination(h, signal)
    case None =>
    case Some(lane) =>
      var m := signal.nativeId.value;
      SettleBegins(Observe(h1, m, lane, signal), m, lane, signal, n);
  }

  lemma {:induction false} RouteBegins(h: Host, signals: seq<Signal>, n: NativeId)
    ensures TurnsBegun(Route(h, signals).host.log, n) == TurnsBegun(h.log, n)
    ensures RoutedSignals(Route(h, signals).host.log) == RoutedSignals(h.log) + signals
    decreases |signals|
  {
    if signals == [] {
      assert RoutedSignals(h.log) + signals == RoutedSignals(h.log);
    } else {
      RouteOneBegins(h, signals[0], n);
      RouteBegins(RouteOne(h, signals[0]).host, signals[1..], n);
      assert [signals[0]] + signals[1..] == signals;
    }
  }

  /** Once the bridge has stopped it stays stopped, no turn is in flight, and none ever begins. */
  lemma {:induction false} StoppedForGood(h: Host, ops: seq<Op>, n: NativeId)
    requires Sound(h) && h.closed && AdmissibleRun(h, ops)
    ensures var r := Run(h, ops);
            r.closed && r.turns == map[] && TurnsBegun(r.log, n) == TurnsBegun(h.log, n)
    decreases |ops|
  {
    if ops != [] {
      ApplySound(h, ops[0]);
      ClosedBeginsNothing(h, ops[0], n);
      StoppedForGood(Apply(h, ops[0]), ops[1..], n);
    }
  }

  // ------------------------------------------------------ no signal is lost

  function Batch(op: Op): seq<Signal> {
    if op.DoRoute? then op.signals else []
  }

  function Batches(ops: seq<Op>): seq<Signal>
    decreases |ops|
  {
    if ops == [] then [] else Batch(ops[0]) + Batches(ops[1..])
  }

  lemma AwaitLoadRoutes(h: Host, lane: LaneId, loading: Option<NativeId>)
    ensures RoutedSignals(AwaitLoad(h, lane, loading).log) == RoutedSignals(h.log)
  {
    match loading
    case None =>
    case Some(_) =>
  }

  lemma RegisterControlRoutes(h: Host, token: nat, registration: Registration)
    ensures RoutedSignals(RegisterControl(h, token, registration).log) == RoutedSignals(h.log)
  {
    if h.closed {
    } else {
      match registration
      case ForHandshake =>
      case ForOpen(canonical, mode, requested) =>
        var loading := Loading(mode, requested);
        AwaitLoadRoutes(h.(cores := h.cores + [LaneCore(canonical, [], false)]), |h.cores|, loading);
    }
  }

  lemma FailAtStopLog(h: Host, n: NativeId, reason: string, full: set<LaneId>)
    requires n in h.turns
    ensures var r := FailAtStop(h, n, reason, full);
            r.log == After(h.log, Ended(n, h.turns[n].serial, FailRecord(h, n, h.turns[n], reason),
                                        ByStop(reason, RecordStored(h, n, full)), Lookup(h.lanes, n)))
  {
    var record, cause := FailRecord(h, n, h.turns[n], reason), ByStop(reason, RecordStored(h, n, full));
    assert EndTurn(h, n, record, cause, Lookup(h.lanes, n)).log
        == After(h.log, Ended(n, h.turns[n].serial, record, cause, Lookup(h.lanes, n)));
    if RecordStored(h, n, full) {
    } else {
    }
  }

  lemma FailAtStopRoutes(h: Host, n: NativeId, reason: string, full: set<LaneId>)
    ensures RoutedSignals(FailAtStop(h, n, reason, full).log) == RoutedSignals(h.log)
  {
    if n in h.turns {
      FailAtStopLog(h, n, reason, full);
    }
  }

  lemma {:induction false} FailAllRoutes(h: Host, natives: seq<NativeId>, reason: string, full: set<LaneId>)
    ensures RoutedSignals(FailAll(h, natives, reason, full).log) == RoutedSignals(h.log)
    decreases |natives|
  {
    if natives != [] {
      FailAtStopRoutes(h, natives[0], reason, full);
      FailAllRoutes(FailAtStop(h, natives[0], reason, full), natives[1..], reason, full);
    }
  }

  lemma {:induction false} StopRoutes(h: Host, reason: string, deliberate: bool, full: set<LaneId>)
    ensures RoutedSignals(Stop(h, reason, deliberate, full).log) == RoutedSignals(h.log)
  {
    FailAllRoutes(h, Ascending(h.turns.Keys), reason, full);
  }

  lemma {:induction false} RegisterOpenRoutes(h: Host, lane: LaneId, signals: seq<Signal>)
    ensures RoutedSignals(RegisterOpen(h, lane, signals).log) == RoutedSignals(h.log)
    decreases |signals|
  {
    if signals != [] {
      RegisterOpenRoutes(RegisterBinding(h, lane, signals[0]), lane, signals[1..]);
    }
  }

  lemma ApplyRoutes(h: Host, op: Op)
    ensures RoutedSignals(Apply(h, op).log) == RoutedSignals(h.log) + Batch(op)
  {
    assert RoutedSignals(h.log) + [] == RoutedSignals(h.log);
    match op
    case DoRegisterControl(token, registration) => RegisterControlRoutes(h, token, registration);
    case DoBeginTurn(c, token, n) => assert CanBegin(h, n) || Apply(h, op) == h;
    case DoTake(_) =>
    case DoRegisterOpen(lane, signals) => RegisterOpenRoutes(h, lane, signals);
    case DoRoute(signals) => RouteBegins(h, signals, 0);
    case DoFailTurn(_, _) =>
    case DoStop(reason, deliberate, full) => StopRoutes(h, reason, deliberate, full);
    case DoDisconnected =>
    case DoDeliver(_, _, _, full) => StopRoutes(h, STORAGE_FAILED, false, full);
    case DoMarkInterrupt(_, _) =>
    case DoFillInterrupt(_, _, _) =>
  }

  /** Every routed signal is logged once, in order, with its one destination;
      `unattributed` holds the last of those with none. */
  lemma {:induction false} RoutingConservation(h: Host, ops: seq<Op>)
    ensures RoutedSignals(Run(h, ops).log) == RoutedSignals(h.log) + Batches(ops)
    decreases |ops|
  {
    if ops == [] {
      assert RoutedSignals(h.log) + [] == RoutedSignals(h.log);
    } else {
      ApplyRoutes(h, ops[0]);
      RoutingConservation(Apply(h, ops[0]), ops[1..]);
      assert RoutedSignals(h.log) + Batch(ops[0]) + Batches(ops[1..])
          == RoutedSignals(h.log) + (Batch(ops[0]) + Batches(ops[1..]));
    }
  }

  // -------------------------------------------------------- exact accounting

  predicate Prefix(p: Log, log: Log) {
    p == log || (log.After? && Prefix(p, log.earlier))
  }

  lemma {:induction false} PrefixKeeps(p: Log, log: Log, limit: nat)
    requires Prefix(p, log) && Lawful(log, limit) && Rising(log)
    ensures Lawful(p, limit) && Rising(p)
  {
    if p != log {
      PrefixKeeps(p, log.earlier, limit);
    }
  }

  predicate Climbs(s: seq<Signal>, low: nat, high: nat) {
    && (forall i :: 0 <= i < |s| ==> low < s[i].sequence <= high)
    && (forall i, j :: 0 <= i < j < |s| ==> s[i].sequence < s[j].sequence)
  }

  /** The signals of the turn in flight climb strictly above the sequence it began at. */
  lemma {:induction false} LiveSignalsClimb(log: Log, limit: nat, n: NativeId)
    requires Lawful(log, limit) && Rising(log) && Live(log, n).Some?
    ensures Climbs(TurnSignals(log, n), Live(log, n).value.baseline, HighestSequence(log))
    ensures Live(log, n).value.baseline <= HighestSequence(log)
    ensures Asked(log, n).Some? ==>
              Live(log, n).value.baseline <= Asked(log, n).value.requestedAt
                <= LastOf(TurnSignals(log, n), Live(log, n).value.baseline)
  {
    var e := log.entry;
    if e.Began? && e.nativeId == n {
    } else {
      LiveSignalsClimb(log.earlier, limit, n);
    }
  }

  lemma {:induction false} ClimbersFit(s: seq<Signal>, low: nat, high: nat)
    requires Climbs(s, low, high) && s != []
    ensures s[0].sequence + |s| - 1 <= s[|s| - 1].sequence
    decreases |s|
  {
    if |s| > 1 {
      ClimbersFit(s[..|s| - 1], low, high);
    }
  }

  /** A turn the provider closed: its record counts the signals of that turn and
      no others, ends at its terminal signal, and any interrupt it reports was
      asked for before that signal. */
  lemma WireClosedAccounting(limit: nat, ops: seq<Op>, earlier: Log, n: NativeId, serial: nat,
                             record: TurnRecord, signal: Signal, to: Option<LaneId>)
    requires AdmissibleRun(FreshHost(limit), ops)
    requires Prefix(After(earlier, Ended(n, serial, record, ByWire(signal), to)), Run(FreshHost(limit), ops).log)
    ensures var s := TurnSignals(earlier, n);
            && s != [] && s[|s| - 1] == signal
            && record.signals == |s|
            && record.firstSequence == Some(s[0].sequence)
            && record.lastSequence == signal.sequence
            && s[0].sequence <= record.lastSequence
            && record.signals <= record.lastSequence - s[0].sequence + 1
    ensures limit > 0 && record.signals >= limit + 2 <==> record.stop.OperationalLimit?
    ensures record.interruption.Some? && record.interruption.value.requestedAt.Some? ==>
              record.interruption.value.requestedAt.value < record.lastSequence
  {
    var h := Run(FreshHost(limit), ops);
    FreshSound(limit);
    RunSound(FreshHost(limit), ops);
    RunKeepsLimit(FreshHost(limit), ops);
    PrefixKeeps(After(earlier, Ended(n, serial, record, ByWire(signal), to)), h.log, limit);
    LiveSignalsClimb(earlier, limit, n);
    var before := earlier.earlier;
    assert earlier == After(before, Routed(to, signal));
    LiveSignalsClimb(before, limit, n);
    var s := TurnSignals(earlier, n);
    assert s == TurnSignals(before, n) + [signal];
    ClimbersFit(s, Live(earlier, n).value.baseline, HighestSequence(earlier));
  }

  // ------------------------------------------------------- one limit per turn

  lemma {:induction false} LiveSerials(log: Log, limit: nat, n: NativeId, m: NativeId)
    requires Lawful(log, limit)
    ensures Live(log, n).Some? ==> Live(log, n).value.serial < Serials(log)
    ensures Live(log, n).Some? && Live(log, m).Some? && Live(log, n).value.serial == Live(log, m).value.serial
            ==> n == m
  {
    if log.After? {
      LiveSerials(log.earlier, limit, n, m);
      LiveSerials(log.earlier, limit, m, n);
    }
  }

  lemma {:induction false} FutureSerialsUnlimited(log: Log, limit: nat, serial: nat)
    requires Lawful(log, limit) && serial >= Serials(log)
    ensures LimitsReached(log, serial) == 0
  {
    if log.After? {
      FutureSerialsUnlimited(log.earlier, limit, serial);
      if log.entry.LimitReached? {
        LiveSerials(log.earlier, limit, log.entry.nativeId, log.entry.nativeId);
      }
    }
  }

  /** The limit path asks for a cancel at most once in any one turn. */
  lemma {:induction false} LimitOnce(log: Log, limit: nat, serial: nat, n: NativeId)
    requires Lawful(log, limit)
    ensures LimitsReached(log, serial) <= 1
    ensures LimitsReached(log, serial) == 1 && Live(log, n).Some? && Live(log, n).value.serial == serial ==>
              && |TurnSignals(log, n)| > limit
              && (log.entry.Routed? && log.entry.to.Some? && log.entry.signal.nativeId == Some(n) ==>
                    |TurnSignals(log, n)| > limit + 1)
  {
    if log.After? {
      var e := log.entry;
      LimitOnce(log.earlier, limit, serial, n);
      if e.Began? {
        FutureSerialsUnlimited(log.earlier, limit, Serials(log.earlier));
      } else if e.LimitReached? {
        LimitOnce(log.earlier, limit, serial, e.nativeId);
        LiveSerials(log.earlier, limit, n, e.nativeId);
      }
    }
  }

  // ------------------------------------------------------ what a turn's regions leave alone

  predicate TurnOp(op: Op) {
    op.DoBeginTurn? || op.DoFailTurn? || op.DoMarkInterrupt? || op.DoFillInterrupt?
  }

  predicate TurnEntry(entry: Entry) {
    entry.Began? || entry.InterruptAsked? || entry.CommandsIssued? || (entry.Ended? && entry.cause.ByPromptError?)
  }

  predicate TurnFrame(h: Host, r: Host) {
    && r.cores == h.cores && r.lanes == h.lanes && r.control == h.control && r.sessions == h.sessions
    && r.closed == h.closed
    && (r.log == h.log || (r.log.After? && r.log.earlier == h.log && TurnEntry(r.log.entry)))
  }

  lemma BeginTurnFrame(h: Host, c: Ref, token: nat, n: NativeId)
    ensures TurnFrame(h, BeginTurn(h, c, token, n))
  {
    if CanBegin(h, n) {
      var serial := Serials(h.log);
      assert BeginTurn(h, c, token, n).log == After(h.log, Began(n, serial, c, h.lastSequence));
    }
  }

  lemma FailTurnFrame(h: Host, n: NativeId, reason: string)
    ensures TurnFrame(h, FailTurn(h, n, reason).host)
  {
    if n in h.turns {
      var record, lane := FailRecord(h, n, h.turns[n], reason), Lookup(h.lanes, n);
      assert FailTurn(h, n, reason).host.log
          == After(h.log, Ended(n, h.turns[n].serial, record, ByPromptError(reason), lane));
    }
  }

  lemma InterruptFrame(h: Host, c: Ref, why: Option<string>, n: NativeId, at: nat, commands: seq<string>)
    ensures TurnFrame(h, MarkInterrupt(h, c, why)) && TurnFrame(h, FillInterrupt(h, n, at, commands))
  {
    if CanMark(h, c) {
    }
    if StillOpen(h, n, at) {
      assert FillInterrupt(h, n, at, commands).log == After(h.log, CommandsIssued(n, commands));
    }
  }

  lemma TurnOpFrame(h: Host, op: Op)
    requires TurnOp(op)
    ensures TurnFrame(h, Apply(h, op))
  {
    match op
    case DoBeginTurn(c, token, n) => BeginTurnFrame(h, c, token, n);
    case DoFailTurn(n, reason) => FailTurnFrame(h, n, reason);
    case DoMarkInterrupt(c, why) => InterruptFrame(h, c, why, 0, 0, []);
    case DoFillInterrupt(n, at, commands) => InterruptFrame(h, "", None, n, at, commands);
  }

  // ------------------------------------------------------------ classification

  lemma {:induction false} PrefixIsLawful(p: Log, log: Log, limit: nat)
    requires Prefix(p, log) && Lawful(log, limit)
    ensures Lawful(p, limit)
  {
    if p != log {
      PrefixIsLawful(p, log.earlier, limit);
    }
  }

  predicate HasOrigin(record: TurnRecord, origin: Origin) {
    record.interruption.Some? && record.interruption.value.origin == origin
  }

  /** In every run of the regions, in any order: a record tells of a human exactly when an interrupt
      was pending and the turn ended in a cancel the limit did not claim, or in a failure the host
      made itself; it then carries that interrupt. It blames the provider exactly for such a cancel
      that nobody had asked for. */
  lemma InterruptionOrigin(limit: nat, ops: seq<Op>, earlier: Log, n: NativeId, serial: nat,
                           record: TurnRecord, cause: EndCause, to: Option<LaneId>)
    requires Prefix(After(earlier, Ended(n, serial, record, cause, to)), Run(FreshHost(limit), ops).log)
    ensures HasOrigin(record, Human) <==>
              Asked(earlier, n).Some? && (record.stop == CancelledStop || !cause.ByWire?)
    ensures HasOrigin(record, Provider) <==>
              Asked(earlier, n).None? && record.stop == CancelledStop && cause.ByWire?
    ensures HasOrigin(record, Human) ==>
              TellsOf(record.interruption.value, record.agentSession, n, Asked(earlier, n).value, record.stop)
  {
    RunKeepsLimit(FreshHost(limit), ops);
    EveryRunIsLawful(limit, ops);
    PrefixIsLawful(After(earlier, Ended(n, serial, record, cause, to)), Run(FreshHost(limit), ops).log, limit);
    assert LawfulEntry(earlier, Ended(n, serial, record, cause, to), limit);
  }

  /** In every run the two bounded queues hold the last of all they were ever given. */
  lemma QueuesHoldTheLast(limit: nat, ops: seq<Op>, c: Ref)
    ensures var h := Run(FreshHost(limit), ops);
            && h.unattributed == LastN(UNATTRIBUTED_LIMIT, Unattributed(h.log))
            && TrailOf(h, c) == LastN(TRAIL_LIMIT, Interruptions(h.log, c))
            && Lookup(h.lastTurn, c) == LastRecord(h.log, c)
  {
    EveryRunIsLawful(limit, ops);
    var h := Run(FreshHost(limit), ops);
    assert TrailAgrees(h.trail, h.lastTurn, h.log, c);
  }
}
