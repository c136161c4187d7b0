/** Every run of the session host keeps a lawful history.

    The log says what happened; `Lawful` says which logs are right, without
    mentioning the host's state; `Good` ties the state to the log. The main
    theorem is that every sequence of locked regions, in any order and with any
    arguments, leaves a lawful log and a state that is a summary of it. */
module HostHistory {
  import opened Prelude
  import opened Tokens
  import opened Connection
  import opened SessionHost

  // -------------------------------------------------------- reading the log

  datatype Opening = Opening(serial: nat, agentSession: Ref, baseline: nat)

  /** The turn in flight on `n`, if one has begun and not ended. */
  function Live(log: Log, n: NativeId): Option<Opening> {
    match log
    case Start => None
    case After(earlier, entry) =>
      if entry.Began? && entry.nativeId == n then Some(Opening(entry.serial, entry.agentSession, entry.baseline))
      else if entry.Ended? && entry.nativeId == n then None
      else Live(earlier, n)
  }

  /** The signals that reached a lane naming `n` since its turn began. */
  function TurnSignals(log: Log, n: NativeId): seq<Signal> {
    match log
    case Start => []
    case After(earlier, entry) =>
      if entry.Began? && entry.nativeId == n then []
      else if entry.Routed? && entry.to.Some? && entry.signal.nativeId == Some(n)
      then TurnSignals(earlier, n) + [entry.signal]
      else TurnSignals(earlier, n)
  }

  /** The interrupt asked for since the turn on `n` began, with the commands issued for it. */
  function Asked(log: Log, n: NativeId): Option<PendingInterrupt> {
    match log
    case Start => None
    case After(earlier, entry) =>
      if entry.Began? && entry.nativeId == n then None
      else if entry.InterruptAsked? && entry.nativeId == n then Some(PendingInterrupt(entry.reason, entry.at, []))
      else if entry.CommandsIssued? && entry.nativeId == n then
        match Asked(earlier, n)
        case Some(p) => Some(p.(commands := entry.commands))
        case None => None
      else Asked(earlier, n)
  }

  function TurnsBegun(log: Log, n: NativeId): nat {
    match log
    case Start => 0
    case After(earlier, entry) =>
      TurnsBegun(earlier, n) + if entry.Began? && entry.nativeId == n then 1 else 0
  }

  function TurnsEnded(log: Log, n: NativeId): nat {
    match log
    case Start => 0
    case After(earlier, entry) =>
      TurnsEnded(earlier, n) + if entry.Ended? && entry.nativeId == n then 1 else 0
  }

  function LimitsReached(log: Log, serial: nat): nat {
    match log
    case Start => 0
    case After(earlier, entry) =>
      LimitsReached(earlier, serial) + if entry.LimitReached? && entry.serial == serial then 1 else 0
  }

  /** How the turn with this serial ended. */
  function EndOf(log: Log, serial: nat): Option<EndCause> {
    match log
    case Start => None
    case After(earlier, entry) =>
      if entry.Ended? && entry.serial == serial then Some(entry.cause) else EndOf(earlier, serial)
  }

  function Unattributed(log: Log): seq<Signal> {
    match log
    case Start => []
    case After(earlier, entry) =>
      if entry.Routed? && entry.to.None? then Unattributed(earlier) + [entry.signal] else Unattributed(earlier)
  }

  /** Every signal ever routed, wherever it went. */
  function RoutedSignals(log: Log): seq<Signal> {
    match log
    case Start => []
    case After(earlier, entry) =>
      if entry.Routed? then RoutedSignals(earlier) + [entry.signal] else RoutedSignals(earlier)
  }

  function Interruptions(log: Log, c: Ref): seq<Interruption> {
    match log
    case Start => []
    case After(earlier, entry) =>
      if entry.Ended? && entry.record.agentSession == c && entry.record.interruption.Some?
      then Interruptions(earlier, c) + [entry.record.interruption.value]
      else Interruptions(earlier, c)
  }

  function LastRecord(log: Log, c: Ref): Option<TurnRecord> {
    match log
    case Start => None
    case After(earlier, entry) =>
      if entry.Ended? && entry.record.agentSession == c then Some(entry.record) else LastRecord(earlier, c)
  }

  function HighestSequence(log: Log): nat {
    match log
    case Start => 0
    case After(earlier, entry) =>
      if entry.Routed? then Max(HighestSequence(earlier), entry.signal.sequence) else HighestSequence(earlier)
  }

  /** Whether this lane was ever bound to `n`, or awaited a load of exactly `n`. */
  predicate Claimed(log: Log, lane: LaneId, n: NativeId) {
    match log
    case Start => false
    case After(earlier, entry) =>
      ((entry.Bound? || entry.LoadAwaited?) && entry.lane == lane && entry.nativeId == n) || Claimed(earlier, lane, n)
  }

  // ------------------------------------------------------------ lawful logs

  function FirstOf(s: seq<Signal>): Option<nat> {
    if s == [] then None else Some(s[0].sequence)
  }

  function LastOf(s: seq<Signal>, baseline: nat): nat {
    if s == [] then baseline else s[|s| - 1].sequence
  }

  /** The record counts exactly the turn's signals. */
  predicate Summarises(record: TurnRecord, s: seq<Signal>, opening: Opening) {
    && record.agentSession == opening.agentSession
    && record.signals == |s|
    && record.firstSequence == FirstOf(s)
    && record.lastSequence == LastOf(s, opening.baseline)
  }

  /** The stop of a turn the provider closed: the limit wins exactly when two
      or more signals came after the limit was full. */
  predicate WireStopIsRight(stop: TurnStop, kind: SignalKind, signals: nat, limit: nat) {
    if limit > 0 && signals >= limit + 2 then stop == OperationalLimit(limit)
    else if kind.Completed? then stop == CompletedStop(kind.stopReason)
    else if kind.Failed? then stop == FailedStop(kind.reason)
    else stop == CancelledStop
  }

  /** A human interruption carries the request that was pending. */
  predicate TellsOf(i: Interruption, c: Ref, n: NativeId, p: PendingInterrupt, stop: TurnStop) {
    i == Interruption(c, n, Human, p.reason, p.commands, Some(p.requestedAt), stop)
  }

  /** Human exactly when an interrupt was pending, and only on a stop that was
      an unlimited cancel or no wire stop at all. */
  predicate InterruptionIsRight(record: TurnRecord, n: NativeId, cause: EndCause, asked: Option<PendingInterrupt>) {
    if cause.ByWire? then
      if record.stop != CancelledStop then record.interruption.None?
      else if asked.Some? then
        record.interruption.Some?
          && TellsOf(record.interruption.value, record.agentSession, n, asked.value, CancelledStop)
      else
        record.interruption
          == Some(Interruption(record.agentSession, n, Provider, None, [], None, CancelledStop))
    else
      if asked.None? then record.interruption.None?
      else
        record.interruption.Some?
          && TellsOf(record.interruption.value, record.agentSession, n, asked.value, record.stop)
  }

  predicate StopIsRight(record: TurnRecord, cause: EndCause, signals: nat, limit: nat) {
    match cause
    case ByWire(signal) => WireStopIsRight(record.stop, signal.kind, signals, limit)
    case ByPromptError(reason) => record.stop == FailedStop(reason)
    case ByStop(reason, _) => record.stop == FailedStop(reason)
  }

  /** A turn closed on the wire: the entry just before is its terminal signal, on the same lane. */
  predicate FollowsItsTerminal(earlier: Log, n: NativeId, cause: EndCause, to: Option<LaneId>) {
    cause.ByWire? ==>
      && to.Some?
      && earlier.After?
      && earlier.entry == Routed(to, cause.signal)
      && cause.signal.nativeId == Some(n)
      && Terminal(cause.signal.kind)
  }

  predicate LawfulEntry(earlier: Log, entry: Entry, limit: nat) {
    match entry
    case Began(n, serial, _, baseline) =>
      Live(earlier, n).None? && serial == Serials(earlier) && baseline == HighestSequence(earlier)
    case InterruptAsked(n, _, at) =>
      && Live(earlier, n).Some?
      && Asked(earlier, n).None?
      && at == LastOf(TurnSignals(earlier, n), Live(earlier, n).value.baseline)
    case CommandsIssued(n, _) => Live(earlier, n).Some? && Asked(earlier, n).Some?
    case Routed(to, signal) =>
      to.Some? ==> signal.nativeId.Some? && Claimed(earlier, to.value, signal.nativeId.value)
    case LimitReached(n, serial) =>
      && limit > 0
      && Live(earlier, n).Some?
      && Live(earlier, n).value.serial == serial
      && |TurnSignals(earlier, n)| == limit + 1
      && earlier.After? && earlier.entry.Routed? && earlier.entry.to.Some?
      && earlier.entry.signal.nativeId == Some(n)
      && !Terminal(earlier.entry.signal.kind)
    case Ended(n, serial, record, cause, to) =>
      && Live(earlier, n).Some?
      && Live(earlier, n).value.serial == serial
      && Summarises(record, TurnSignals(earlier, n), Live(earlier, n).value)
      && StopIsRight(record, cause, record.signals, limit)
      && InterruptionIsRight(record, n, cause, Asked(earlier, n))
      && FollowsItsTerminal(earlier, n, cause, to)
    case LoadAwaited(_, _) => true
    case Bound(_, _) => true
  }

  predicate Lawful(log: Log, limit: nat) {
    match log
    case Start => true
    case After(earlier, entry) => Lawful(earlier, limit) && LawfulEntry(earlier, entry, limit)
  }

  // ------------------------------------------------ the state sums up the log

  function LimitAfter(limit: nat, signals: nat): Option<nat> {
    if limit > 0 && signals > limit then Some(limit) else None
  }

  /** `decided` is how many of the turn's signals the limit check has seen. */
  predicate TurnMatches(turn: ActiveTurn, log: Log, n: NativeId, limit: nat, decided: int) {
    && Live(log, n).Some?
    && Live(log, n).value.serial == turn.serial
    && Live(log, n).value.agentSession == turn.agentSession
    && turn.signals == |TurnSignals(log, n)|
    && turn.firstSequence == FirstOf(TurnSignals(log, n))
    && turn.lastSequence == LastOf(TurnSignals(log, n), Live(log, n).value.baseline)
    && turn.interrupt == Asked(log, n)
    && 0 <= decided
    && turn.operationalLimit == LimitAfter(limit, decided)
  }

  predicate TurnAgrees(turns: map<NativeId, ActiveTurn>, log: Log, limit: nat, n: NativeId) {
    if n in turns then TurnMatches(turns[n], log, n, limit, turns[n].signals) else Live(log, n).None?
  }

  ghost predicate TurnsAgree(turns: map<NativeId, ActiveTurn>, log: Log, limit: nat) {
    forall n :: TurnAgrees(turns, log, limit, n)
  }

  function TrailFor(trail: map<Ref, seq<Interruption>>, c: Ref): seq<Interruption> {
    if c in trail then trail[c] else []
  }

  predicate TrailAgrees(trail: map<Ref, seq<Interruption>>, lastTurn: map<Ref, TurnRecord>, log: Log, c: Ref) {
    && TrailFor(trail, c) == LastN(TRAIL_LIMIT, Interruptions(log, c))
    && Lookup(lastTurn, c) == LastRecord(log, c)
  }

  ghost predicate TrailsAgree(trail: map<Ref, seq<Interruption>>, lastTurn: map<Ref, TurnRecord>, log: Log) {
    forall c :: TrailAgrees(trail, lastTurn, log, c)
  }

  predicate WaiterClaims(w: Waiter, log: Log) {
    w.OpenWaiter? && w.loading.Some? ==> Claimed(log, w.lane, w.loading.value)
  }

  /** Every lane a signal can be resolved to has claimed the id it is resolved for. */
  ghost predicate LanesClaimed(lanes: map<NativeId, LaneId>, control: map<nat, Waiter>, log: Log) {
    && (forall n :: n in lanes ==> Claimed(log, lanes[n], n))
    && (forall t :: t in control ==> WaiterClaims(control[t], log))
  }

  predicate QueueAgrees(unattributed: seq<Signal>, lastSequence: nat, log: Log) {
    unattributed == LastN(UNATTRIBUTED_LIMIT, Unattributed(log)) && lastSequence == HighestSequence(log)
  }

  ghost predicate Good(h: Host) {
    && Lawful(h.log, h.limit)
    && TurnsAgree(h.turns, h.log, h.limit)
    && TrailsAgree(h.trail, h.lastTurn, h.log)
    && LanesClaimed(h.lanes, h.control, h.log)
    && QueueAgrees(h.unattributed, h.lastSequence, h.log)
  }

  // ------------------------------------------------ one entry, one part at a time

  lemma {:induction false} TurnsKeep(turns: map<NativeId, ActiveTurn>, log: Log, limit: nat, e: Entry)
    requires TurnsAgree(turns, log, limit)
    requires e.LoadAwaited? || e.Bound? || (e.Routed? && e.to.None?)
    ensures TurnsAgree(turns, After(log, e), limit)
  {
    forall n ensures TurnAgrees(turns, After(log, e), limit, n) {
      assert TurnAgrees(turns, log, limit, n);
    }
  }

  lemma {:induction false} TrailsKeep(trail: map<Ref, seq<Interruption>>, lastTurn: map<Ref, TurnRecord>, log: Log,
                                      e: Entry)
    requires TrailsAgree(trail, lastTurn, log)
    requires !e.Ended?
    ensures TrailsAgree(trail, lastTurn, After(log, e))
  {
    forall c ensures TrailAgrees(trail, lastTurn, After(log, e), c) {
      assert TrailAgrees(trail, lastTurn, log, c);
    }
  }

  lemma {:induction false} ClaimsKeep(lanes: map<NativeId, LaneId>, control: map<nat, Waiter>, log: Log, e: Entry)
    requires LanesClaimed(lanes, control, log)
    ensures LanesClaimed(lanes, control, After(log, e))
  {
    forall t | t in control ensures WaiterClaims(control[t], After(log, e)) {
      assert WaiterClaims(control[t], log);
    }
  }

  lemma {:induction false} WaiterAdded(lanes: map<NativeId, LaneId>, control: map<nat, Waiter>, log: Log, token: nat,
                                       w: Waiter)
    requires LanesClaimed(lanes, control, log) && WaiterClaims(w, log)
    ensures LanesClaimed(lanes, control[token := w], log)
  {
  }

  lemma {:induction false} AwaitLoadGood(h: Host, lane: LaneId, loading: Option<NativeId>)
    requires Good(h)
    ensures Good(AwaitLoad(h, lane, loading))
    ensures WaiterClaims(OpenWaiter(lane, loading), AwaitLoad(h, lane, loading).log)
  {
    match loading
    case None =>
    case Some(n) =>
      var e := LoadAwaited(lane, n);
      TurnsKeep(h.turns, h.log, h.limit, e);
      TrailsKeep(h.trail, h.lastTurn, h.log, e);
      ClaimsKeep(h.lanes, h.control, h.log, e);
  }

  lemma {:induction false} RegisterControlGood(h: Host, token: nat, registration: Registration)
    requires Good(h)
    ensures Good(RegisterControl(h, token, registration))
  {
    if h.closed {
    } else {
      match registration
      case ForHandshake =>
      case ForOpen(canonical, mode, requested) =>
        var lane, loading := |h.cores|, Loading(mode, requested);
        var h1 := h.(cores := h.cores + [LaneCore(canonical, [], false)]);
        AwaitLoadGood(h1, lane, loading);
        var h2 := AwaitLoad(h1, lane, loading);
        WaiterAdded(h2.lanes, h2.control, h2.log, token, OpenWaiter(lane, loading));
    }
  }

  lemma {:induction false} BeginTurnGood(h: Host, c: Ref, token: nat, n: NativeId)
    requires Good(h)
    ensures Good(BeginTurn(h, c, token, n))
  {
    if CanBegin(h, n) {
      var e := Began(n, Serials(h.log), c, h.lastSequence);
      assert TurnAgrees(h.turns, h.log, h.limit, n);
      TrailsKeep(h.trail, h.lastTurn, h.log, e);
      ClaimsKeep(h.lanes, h.control, h.log, e);
      var turns := BeginTurn(h, c, token, n).turns;
      forall m ensures TurnAgrees(turns, After(h.log, e), h.limit, m) {
        assert TurnAgrees(h.turns, h.log, h.limit, m);
      }
    }
  }

  lemma {:induction false} TakeGood(h: Host, token: nat)
    requires Good(h)
    ensures Good(Take(h, token))
  {
  }

  lemma {:induction false} RegisterBindingGood(h: Host, lane: LaneId, signal: Signal)
    requires Good(h)
    ensures Good(RegisterBinding(h, lane, signal))
  {
    if signal.kind.SessionOpened? && lane < |h.cores| {
      var n := signal.kind.binding.nativeId;
      var e := Bound(lane, n);
      TurnsKeep(h.turns, h.log, h.limit, e);
      TrailsKeep(h.trail, h.lastTurn, h.log, e);
      ClaimsKeep(h.lanes, h.control, h.log, e);
      assert Claimed(After(h.log, e), lane, n);
    }
  }

  lemma {:induction false} RegisterOpenGood(h: Host, lane: LaneId, signals: seq<Signal>)
    requires Good(h)
    ensures Good(RegisterOpen(h, lane, signals))
    decreases |signals|
  {
    if signals != [] {
      RegisterBindingGood(h, lane, signals[0]);
      RegisterOpenGood(RegisterBinding(h, lane, signals[0]), lane, signals[1..]);
    }
  }

  // ------------------------------------------------------------- ending turns

  ghost predicate OthersAgree(turns: map<NativeId, ActiveTurn>, log: Log, limit: nat, n: NativeId) {
    forall m :: m != n ==> TurnAgrees(turns, log, limit, m)
  }

  lemma {:induction false} TurnsAfterEnd(turns: map<NativeId, ActiveTurn>, log: Log, limit: nat, n: NativeId, e: Entry)
    requires OthersAgree(turns, log, limit, n)
    requires e.Ended? && e.nativeId == n
    ensures TurnsAgree(turns - {n}, After(log, e), limit)
  {
    forall m ensures TurnAgrees(turns - {n}, After(log, e), limit, m) {
      assert m != n ==> TurnAgrees(turns, log, limit, m);
    }
  }

  lemma {:induction false} TrailsAfterEnd(h: Host, record: TurnRecord, e: Entry)
    requires TrailsAgree(h.trail, h.lastTurn, h.log)
    requires e.Ended? && e.record == record
    ensures TrailsAgree(RecordTurn(h, record).trail, RecordTurn(h, record).lastTurn, After(h.log, e))
  {
    var h' := RecordTurn(h, record);
    forall c ensures TrailAgrees(h'.trail, h'.lastTurn, After(h.log, e), c) {
      assert TrailAgrees(h.trail, h.lastTurn, h.log, c);
      if record.interruption.Some? {
        PushKeepsLast(TRAIL_LIMIT, Interruptions(h.log, c), record.interruption.value);
      }
    }
  }

  lemma {:induction false} EndTurnGood(h: Host, n: NativeId, record: TurnRecord, cause: EndCause, to: Option<LaneId>)
    requires n in h.turns
    requires Lawful(h.log, h.limit)
    requires OthersAgree(h.turns, h.log, h.limit, n)
    requires TrailsAgree(h.trail, h.lastTurn, h.log)
    requires LanesClaimed(h.lanes, h.control, h.log)
    requires QueueAgrees(h.unattributed, h.lastSequence, h.log)
    requires LawfulEntry(h.log, Ended(n, h.turns[n].serial, record, cause, to), h.limit)
    ensures Good(EndTurn(h, n, record, cause, to))
  {
    var e := Ended(n, h.turns[n].serial, record, cause, to);
    TurnsAfterEnd(h.turns, h.log, h.limit, n, e);
    TrailsAfterEnd(h.(turns := h.turns - {n}), record, e);
    ClaimsKeep(h.lanes, h.control, h.log, e);
  }

  lemma {:induction false} FailRecordLawful(h: Host, n: NativeId, reason: string, cause: EndCause, to: Option<LaneId>)
    requires n in h.turns && TurnAgrees(h.turns, h.log, h.limit, n)
    requires cause == ByPromptError(reason) || (cause.ByStop? && cause.reason == reason)
    ensures LawfulEntry(h.log, Ended(n, h.turns[n].serial, FailRecord(h, n, h.turns[n], reason), cause, to), h.limit)
  {
  }

  lemma {:induction false} FailTurnGood(h: Host, n: NativeId, reason: string)
    requires Good(h)
    ensures Good(FailTurn(h, n, reason).host)
  {
    if n in h.turns {
      assert TurnAgrees(h.turns, h.log, h.limit, n);
      var lane := Lookup(h.lanes, n);
      FailRecordLawful(h, n, reason, ByPromptError(reason), lane);
      EndTurnGood(h, n, FailRecord(h, n, h.turns[n], reason), ByPromptError(reason), lane);
    }
  }

  lemma {:induction false} FailAtStopGood(h: Host, n: NativeId, reason: string, full: set<LaneId>)
    requires Good(h)
    ensures Good(FailAtStop(h, n, reason, full))
  {
    if n in h.turns {
      assert TurnAgrees(h.turns, h.log, h.limit, n);
      var lane := Lookup(h.lanes, n);
      var cause := ByStop(reason, RecordStored(h, n, full));
      FailRecordLawful(h, n, reason, cause, lane);
      EndTurnGood(h, n, FailRecord(h, n, h.turns[n], reason), cause, lane);
    }
  }

  lemma {:induction false} FailAllGood(h: Host, natives: seq<NativeId>, reason: string, full: set<LaneId>)
    requires Good(h)
    ensures Good(FailAll(h, natives, reason, full))
    decreases |natives|
  {
    if natives != [] {
      FailAtStopGood(h, natives[0], reason, full);
      FailAllGood(FailAtStop(h, natives[0], reason, full), natives[1..], reason, full);
    }
  }

  lemma {:induction false} StopGood(h: Host, reason: string, deliberate: bool, full: set<LaneId>)
    requires Good(h)
    ensures Good(Stop(h, reason, deliberate, full))
  {
    if !h.closed {
      FailAllGood(h, Ascending(h.turns.Keys), reason, full);
    }
  }

  // ------------------------------------------------------------------ routing

  lemma {:induction false} AdvanceThenPush(h: Host, signal: Signal)
    requires Good(h)
    ensures Good(PushUnattributed(Advance(h, signal.sequence), signal))
  {
    var e := Routed(None, signal);
    TurnsKeep(h.turns, h.log, h.limit, e);
    TrailsKeep(h.trail, h.lastTurn, h.log, e);
    ClaimsKeep(h.lanes, h.control, h.log, e);
    PushKeepsLast(UNATTRIBUTED_LIMIT, Unattributed(h.log), signal);
  }

  lemma {:induction false} ResolvedLaneClaims(h: Host, n: NativeId)
    requires LanesClaimed(h.lanes, h.control, h.log)
    requires Resolve(h, n).Some?
    ensures Claimed(h.log, Resolve(h, n).value, n)
  {
    if n !in h.lanes {
      var t := FirstByText(Loaders(h.control, n));
      assert t in Loaders(h.control, n);
      assert WaiterClaims(h.control[t], h.log);
    }
  }

  /** After a signal is counted, its turn is one signal ahead of the limit check. */
  lemma {:induction false} ObserveTurns(h: Host, n: NativeId, lane: LaneId, signal: Signal)
    requires TurnsAgree(h.turns, h.log, h.limit)
    requires signal.nativeId == Some(n)
    ensures var h1 := Observe(h, n, lane, signal);
            && OthersAgree(h1.turns, h1.log, h1.limit, n)
            && (if n in h1.turns then TurnMatches(h1.turns[n], h1.log, n, h1.limit, h1.turns[n].signals - 1)
                else TurnAgrees(h1.turns, h1.log, h1.limit, n))
  {
    var h1 := Observe(h, n, lane, signal);
    forall m | m != n ensures TurnAgrees(h1.turns, h1.log, h1.limit, m) {
      assert TurnAgrees(h.turns, h.log, h.limit, m);
    }
    assert TurnAgrees(h.turns, h.log, h.limit, n);
  }

  lemma {:induction false} ObserveRest(h: Host, n: NativeId, lane: LaneId, signal: Signal)
    requires Good(h)
    requires Claimed(h.log, lane, n) && signal.nativeId == Some(n)
    ensures var h1 := Observe(Advance(h, signal.sequence), n, lane, signal);
            && Lawful(h1.log, h1.limit)
            && TrailsAgree(h1.trail, h1.lastTurn, h1.log)
            && LanesClaimed(h1.lanes, h1.control, h1.log)
            && QueueAgrees(h1.unattributed, h1.lastSequence, h1.log)
  {
    var e := Routed(Some(lane), signal);
    TrailsKeep(h.trail, h.lastTurn, h.log, e);
    ClaimsKeep(h.lanes, h.control, h.log, e);
  }

  lemma {:induction false} WireRecordLawful(h: Host, n: NativeId, lane: LaneId, signal: Signal)
    requires n in h.turns
    requires TurnMatches(h.turns[n], h.log, n, h.limit, h.turns[n].signals - 1)
    requires Terminal(signal.kind) && signal.nativeId == Some(n)
    requires h.log.After? && h.log.entry == Routed(Some(lane), signal)
    ensures LawfulEntry(h.log, Ended(n, h.turns[n].serial, WireRecord(h, n, h.turns[n], signal.kind),
                                     ByWire(signal), Some(lane)), h.limit)
  {
  }

  lemma {:induction false} MarkLimitGood(h: Host, n: NativeId)
    requires PastLimit(h, n)
    requires Lawful(h.log, h.limit)
    requires OthersAgree(h.turns, h.log, h.limit, n)
    requires TurnMatches(h.turns[n], h.log, n, h.limit, h.turns[n].signals - 1)
    requires TrailsAgree(h.trail, h.lastTurn, h.log)
    requires LanesClaimed(h.lanes, h.control, h.log)
    requires QueueAgrees(h.unattributed, h.lastSequence, h.log)
    requires h.log.After? && h.log.entry.Routed? && h.log.entry.to.Some? && h.log.entry.signal.nativeId == Some(n)
    requires !Terminal(h.log.entry.signal.kind)
    ensures Good(MarkLimit(h, n))
  {
    var h' := MarkLimit(h, n);
    var e := LimitReached(n, h.turns[n].serial);
    TrailsKeep(h.trail, h.lastTurn, h.log, e);
    ClaimsKeep(h.lanes, h.control, h.log, e);
    forall m ensures TurnAgrees(h'.turns, h'.log, h.limit, m) {
      assert m != n ==> TurnAgrees(h.turns, h.log, h.limit, m);
    }
  }

  lemma {:induction false} SettledGood(h: Host, n: NativeId)
    requires n in h.turns ==> !PastLimit(h, n)
    requires Lawful(h.log, h.limit)
    requires OthersAgree(h.turns, h.log, h.limit, n)
    requires if n in h.turns then TurnMatches(h.turns[n], h.log, n, h.limit, h.turns[n].signals - 1)
             else TurnAgrees(h.turns, h.log, h.limit, n)
    requires TrailsAgree(h.trail, h.lastTurn, h.log)
    requires LanesClaimed(h.lanes, h.control, h.log)
    requires QueueAgrees(h.unattributed, h.lastSequence, h.log)
    ensures Good(h)
  {
    forall m ensures TurnAgrees(h.turns, h.log, h.limit, m) {
      assert m != n ==> TurnAgrees(h.turns, h.log, h.limit, m);
    }
  }

  lemma {:induction false} RouteToLaneGood(h: Host, n: NativeId, lane: LaneId, signal: Signal)
    requires Good(h)
    requires Claimed(h.log, lane, n) && signal.nativeId == Some(n)
    ensures Good(RouteToLane(Advance(h, signal.sequence), n, lane, signal).host)
  {
    var h1 := Observe(Advance(h, signal.sequence), n, lane, signal);
    ObserveTurns(Advance(h, signal.sequence), n, lane, signal);
    ObserveRest(h, n, lane, signal);
    if Terminal(signal.kind) && n in h1.turns {
      WireRecordLawful(h1, n, lane, signal);
      EndTurnGood(h1, n, WireRecord(h1, n, h1.turns[n], signal.kind), ByWire(signal), Some(lane));
    } else if !Terminal(signal.kind) && PastLimit(h1, n) {
      MarkLimitGood(h1, n);
    } else {
      SettledGood(h1, n);
    }
  }

  lemma {:induction false} RouteOneGood(h: Host, signal: Signal)
    requires Good(h)
    ensures Good(RouteOne(h, signal).host)
  {
    match Destination(h, signal)
    case None => AdvanceThenPush(h, signal);
    case Some(lane) =>
      ResolvedLaneClaims(h, signal.nativeId.value);
      RouteToLaneGood(h, signal.nativeId.value, lane, signal);
  }

  lemma {:induction false} RouteGood(h: Host, signals: seq<Signal>)
    requires Good(h)
    ensures Good(Route(h, signals).host)
    decreases |signals|
  {
    if signals != [] {
      RouteOneGood(h, signals[0]);
      RouteGood(RouteOne(h, signals[0]).host, signals[1..]);
    }
  }

  // ------------------------------------------------------------- interrupting

  lemma {:induction false} MarkInterruptGood(h: Host, c: Ref, reason: Option<string>)
    requires Good(h)
    ensures Good(MarkInterrupt(h, c, reason))
  {
    if CanMark(h, c) {
      var h' := MarkInterrupt(h, c, reason);
      var n := h.sessions[c].nativeId;
      var e := InterruptAsked(n, reason, h.turns[n].lastSequence);
      assert TurnAgrees(h.turns, h.log, h.limit, n);
      TrailsKeep(h.trail, h.lastTurn, h.log, e);
      ClaimsKeep(h.lanes, h.control, h.log, e);
      forall m ensures TurnAgrees(h'.turns, h'.log, h.limit, m) {
        assert TurnAgrees(h.turns, h.log, h.limit, m);
      }
    }
  }

  lemma {:induction false} FillInterruptGood(h: Host, n: NativeId, requestedAt: nat, commands: seq<string>)
    requires Good(h)
    ensures Good(FillInterrupt(h, n, requestedAt, commands))
  {
    if StillOpen(h, n, requestedAt) {
      var h' := FillInterrupt(h, n, requestedAt, commands);
      var e := CommandsIssued(n, commands);
      assert TurnAgrees(h.turns, h.log, h.limit, n);
      TrailsKeep(h.trail, h.lastTurn, h.log, e);
      ClaimsKeep(h.lanes, h.control, h.log, e);
      forall m ensures TurnAgrees(h'.turns, h'.log, h.limit, m) {
        assert TurnAgrees(h.turns, h.log, h.limit, m);
      }
    }
  }

  // ------------------------------------------------------------------ framing

  /** What routing may touch besides the log. */
  predicate RoutingFrame(h: Host, r: Host) {
    && r.limit == h.limit && r.cores == h.cores && r.lanes == h.lanes && r.sessions == h.sessions
    && r.turns.Keys <= h.turns.Keys
    && r.control == h.control && r.pendingPrompts == h.pendingPrompts && r.closed == h.closed
  }

  lemma {:induction false} SettleFrame(h: Host, n: NativeId, lane: LaneId, signal: Signal)
    ensures var r := Settle(h, n, lane, signal).host;
            RoutingFrame(h, r) && r.lastSequence == h.lastSequence
  {
    if Terminal(signal.kind) && n in h.turns {
      assert CloseByWire(h, n, lane, signal).host.turns == h.turns - {n};
    } else if !Terminal(signal.kind) && PastLimit(h, n) {
      assert MarkLimit(h, n).turns.Keys == h.turns.Keys;
    } else {
    }
  }

  lemma {:induction false} ObserveFrame(h: Host, n: NativeId, lane: LaneId, signal: Signal)
    ensures var r := Observe(h, n, lane, signal);
            RoutingFrame(h, r) && r.lastSequence == h.lastSequence
  {
    assert Observe(h, n, lane, signal).turns.Keys == h.turns.Keys;
  }

  lemma {:induction false} RouteToFrame(h: Host, signal: Signal, to: Option<LaneId>)
    requires to.Some? ==> signal.nativeId.Some?
    ensures var r := RouteTo(h, signal, to).host;
            RoutingFrame(h, r) && r.lastSequence == h.lastSequence
  {
    match to
    case None =>
    case Some(lane) =>
      var n := signal.nativeId.value;
      ObserveFrame(h, n, lane, signal);
      SettleFrame(Observe(h, n, lane, signal), n, lane, signal);
  }

  lemma {:induction false} RouteOneFrame(h: Host, signal: Signal)
    ensures var r := RouteOne(h, signal).host;
            RoutingFrame(h, r) && r.lastSequence == Max(h.lastSequence, signal.sequence)
  {
    RouteToFrame(Advance(h, signal.sequence), signal, Destination(h, signal));
  }

  lemma {:induction false} RouteFrame(h: Host, signals: seq<Signal>)
    ensures RoutingFrame(h, Route(h, signals).host)
    decreases |signals|
  {
    if signals != [] {
      RouteOneFrame(h, signals[0]);
      RouteFrame(RouteOne(h, signals[0]).host, signals[1..]);
    }
  }

  // ------------------------------------------------------------- the theorem

  lemma {:induction false} FreshGood(limit: nat)
    ensures Good(FreshHost(limit))
  {
    var h := FreshHost(limit);
    forall n ensures TurnAgrees(h.turns, h.log, h.limit, n) {}
    forall c ensures TrailAgrees(h.trail, h.lastTurn, h.log, c) {}
  }

  lemma {:induction false} ApplyGood(h: Host, op: Op)
    requires Good(h)
    ensures Good(Apply(h, op))
  {
    match op
    case DoRegisterControl(token, registration) => RegisterControlGood(h, token, registration);
    case DoBeginTurn(c, token, n) => BeginTurnGood(h, c, token, n);
    case DoTake(token) => TakeGood(h, token);
    case DoRegisterOpen(lane, signals) => RegisterOpenGood(h, lane, signals);
    case DoRoute(signals) => RouteGood(h, signals);
    case DoFailTurn(n, reason) => FailTurnGood(h, n, reason);
    case DoStop(reason, deliberate, full) => StopGood(h, reason, deliberate, full);
    case DoDisconnected =>
    case DoDeliver(lane, event, stored, full) => StopGood(h, STORAGE_FAILED, false, full);
    case DoMarkInterrupt(c, why) => MarkInterruptGood(h, c, why);
    case DoFillInterrupt(n, at, commands) => FillInterruptGood(h, n, at, commands);
  }

  /** Every interleaving of the locked regions keeps a lawful history that the state sums up. */
  lemma {:induction false} RunGood(h: Host, ops: seq<Op>)
    requires Good(h)
    ensures Good(Run(h, ops))
    decreases |ops|
  {
    if ops != [] {
      ApplyGood(h, ops[0]);
      RunGood(Apply(h, ops[0]), ops[1..]);
    }
  }

  lemma {:induction false} ApplyKeepsLimit(h: Host, op: Op)
    ensures Apply(h, op).limit == h.limit
  {
    match op
    case DoRegisterControl(_, registration) =>
      if !h.closed {
        match registration
        case ForHandshake =>
        case ForOpen(_, _, _) =>
      }
    case DoBeginTurn(_, _, _) =>
    case DoTake(_) =>
    case DoRegisterOpen(_, _) =>
    case DoRoute(signals) => RouteFrame(h, signals);
    case DoFailTurn(_, _) =>
    case DoStop(_, _, _) =>
    case DoDisconnected =>
    case DoDeliver(_, _, _, _) =>
    case DoMarkInterrupt(_, _) =>
    case DoFillInterrupt(_, _, _) =>
  }

  lemma {:induction false} RunKeepsLimit(h: Host, ops: seq<Op>)
    ensures Run(h, ops).limit == h.limit
    decreases |ops|
  {
    if ops != [] {
      ApplyKeepsLimit(h, ops[0]);
      RunKeepsLimit(Apply(h, ops[0]), ops[1..]);
    }
  }
}
