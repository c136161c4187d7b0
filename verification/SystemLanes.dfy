/** What a lane carries: exactly what was routed to it, in order, as far as the
    reader has delivered, and after that only the records of a stop. */
module SystemLanes {
  import opened Prelude
  import opened Tokens
  import opened Connection
  import opened SessionHost
  import opened SessionSystem
  import opened SystemTickets
  import opened SystemIdentity
  import opened SystemOrder
  import opened HostHistory
  import opened HostTheorems

  // ----------------------------------------------------------------- streams

  /** What the locked regions decided this lane should get from the reader. */
  function RoutedTo(log: Log, l: LaneId): seq<HostEvent> {
    match log
    case Start => []
    case After(earlier, entry) =>
      if entry.Routed? && entry.to == Some(l) then RoutedTo(earlier, l) + [SignalEvent(entry.signal)]
      else if entry.Ended? && !entry.cause.ByStop? && entry.to == Some(l)
      then RoutedTo(earlier, l) + [TurnEnded(entry.record)]
      else RoutedTo(earlier, l)
  }

  /** What ended each record routed to this lane; nothing for its signals. */
  function CausesTo(log: Log, l: LaneId): seq<Option<EndCause>> {
    match log
    case Start => []
    case After(earlier, entry) =>
      if entry.Routed? && entry.to == Some(l) then CausesTo(earlier, l) + [None]
      else if entry.Ended? && !entry.cause.ByStop? && entry.to == Some(l)
      then CausesTo(earlier, l) + [Some(entry.cause)]
      else CausesTo(earlier, l)
  }

  /** The records a stop put on this lane itself. */
  function StopsTo(log: Log, l: LaneId): seq<HostEvent> {
    match log
    case Start => []
    case After(earlier, entry) =>
      if DueTo(entry, l) && entry.cause.stored then StopsTo(earlier, l) + [TurnEnded(entry.record)]
      else StopsTo(earlier, l)
  }

  predicate DueTo(entry: Entry, l: LaneId) {
    entry.Ended? && entry.cause.ByStop? && entry.to == Some(l)
  }

  /** The records a stop had for this lane, taken or refused. */
  function StopsDue(log: Log, l: LaneId): seq<HostEvent> {
    match log
    case Start => []
    case After(earlier, entry) =>
      if DueTo(entry, l) then StopsDue(earlier, l) + [TurnEnded(entry.record)] else StopsDue(earlier, l)
  }

  /** The lane's spool refused a record of a stop. */
  predicate Refused(log: Log, l: LaneId) {
    match log
    case Start => false
    case After(earlier, entry) => (DueTo(entry, l) && !entry.cause.stored) || Refused(earlier, l)
  }

  /** A lane has every record a stop had for it exactly when its spool refused none. */
  lemma {:induction false} AllStoredIffNoneRefused(log: Log, l: LaneId)
    ensures |StopsTo(log, l)| <= |StopsDue(log, l)|
    ensures StopsTo(log, l) == StopsDue(log, l) <==> !Refused(log, l)
    ensures |StopsTo(log, l)| == |StopsDue(log, l)| <==> !Refused(log, l)
  {
    if log.After? {
      AllStoredIffNoneRefused(log.earlier, l);
    }
  }

  /** What waits in the reader's hands for this lane. */
  function QueuedFor(queue: seq<Delivery>, l: LaneId): seq<HostEvent>
    decreases |queue|
  {
    if queue == [] then []
    else (if queue[0].lane == l then [queue[0].event] else []) + QueuedFor(queue[1..], l)
  }

  lemma {:induction false} QueuedAppend(a: seq<Delivery>, b: seq<Delivery>, l: LaneId)
    ensures QueuedFor(a + b, l) == QueuedFor(a, l) + QueuedFor(b, l)
    decreases |a|
  {
    if a == [] {
      assert a + b == b;
    } else {
      assert (a + b)[0] == a[0] && (a + b)[1..] == a[1..] + b;
      QueuedAppend(a[1..], b, l);
      var first := if a[0].lane == l then [a[0].event] else [];
      assert QueuedFor(a + b, l) == first + (QueuedFor(a[1..], l) + QueuedFor(b, l));
      assert QueuedFor(a, l) == first + QueuedFor(a[1..], l);
      StreamJoin(first, QueuedFor(a[1..], l), QueuedFor(b, l));
    }
  }

  function Queue(r: Reader): seq<Delivery> {
    if r.Delivering? then r.queue else []
  }

  predicate PrefixThenStops(events: seq<HostEvent>, routed: seq<HostEvent>, stops: seq<HostEvent>) {
    |stops| <= |events| && |events| - |stops| <= |routed| && events == routed[..|events| - |stops|] + stops
  }

  predicate Streams(h: Host, queue: seq<Delivery>, l: LaneId) {
    if l >= |h.cores| then RoutedTo(h.log, l) == [] && StopsDue(h.log, l) == [] && QueuedFor(queue, l) == []
    else
      && (!h.closed ==>
            && !h.cores[l].closed
            && StopsDue(h.log, l) == []
            && h.cores[l].events + QueuedFor(queue, l) == RoutedTo(h.log, l))
      && (h.cores[l].closed ==> PrefixThenStops(h.cores[l].events, RoutedTo(h.log, l), StopsTo(h.log, l)))
      && (h.closed && !h.cores[l].closed ==>
            StopsDue(h.log, l) == [] && Subsequence(h.cores[l].events + QueuedFor(queue, l), RoutedTo(h.log, l)))
  }

  /** Lanes in use are in the arena. */
  ghost predicate InArena(h: Host) {
    && (forall n :: n in h.lanes ==> h.lanes[n] < |h.cores|)
    && (forall t :: t in h.control && h.control[t].OpenWaiter? ==> h.control[t].lane < |h.cores|)
  }

  // ------------------------------------------------------------ region effects

  /** A region that says nothing on any lane. */
  predicate Silent(h: Host, r: Host, l: LaneId) {
    RoutedTo(r.log, l) == RoutedTo(h.log, l) && StopsTo(r.log, l) == StopsTo(h.log, l)
    && StopsDue(r.log, l) == StopsDue(h.log, l)
  }

  lemma DestinationInArena(h: Host, signal: Signal)
    requires InArena(h) && Destination(h, signal).Some?
    ensures Destination(h, signal).value < |h.cores|
  {
    var n := signal.nativeId.value;
    if n !in h.lanes {
      assert FirstByText(Loaders(h.control, n)) in Loaders(h.control, n);
    }
  }

  function Mine(d: Delivery, l: LaneId): seq<HostEvent> {
    if d.lane == l then [d.event] else []
  }

  lemma QueuedOne(d: Delivery, l: LaneId)
    ensures QueuedFor([d], l) == Mine(d, l)
  {
    assert [d][1..] == [];
    assert Mine(d, l) + [] == Mine(d, l);
  }

  lemma QueuedTwo(d: Delivery, e: Delivery, l: LaneId)
    ensures QueuedFor([d, e], l) == Mine(d, l) + Mine(e, l)
  {
    assert [d, e][1..] == [e];
    QueuedOne(e, l);
  }

  lemma ObserveStream(h: Host, n: NativeId, lane: LaneId, signal: Signal, l: LaneId)
    ensures var r := Observe(h, n, lane, signal);
            && RoutedTo(r.log, l) == RoutedTo(h.log, l) + Mine(Delivery(lane, SignalEvent(signal)), l)
            && StopsTo(r.log, l) == StopsTo(h.log, l) && StopsDue(r.log, l) == StopsDue(h.log, l)
  {
    assert RoutedTo(h.log, l) + [] == RoutedTo(h.log, l);
    assert Observe(h, n, lane, signal).log == After(h.log, Routed(Some(lane), signal));
  }

  lemma CloseStream(h: Host, n: NativeId, lane: LaneId, signal: Signal, l: LaneId)
    requires n in h.turns
    ensures var r := CloseByWire(h, n, lane, signal);
            && |r.deliveries| == 2
            && r.deliveries == [Delivery(lane, SignalEvent(signal)), r.deliveries[1]]
            && r.deliveries[1].lane == lane
            && RoutedTo(r.host.log, l) == RoutedTo(h.log, l) + Mine(r.deliveries[1], l)
            && StopsTo(r.host.log, l) == StopsTo(h.log, l) && StopsDue(r.host.log, l) == StopsDue(h.log, l)
  {
    assert RoutedTo(h.log, l) + [] == RoutedTo(h.log, l);
    var record := WireRecord(h, n, h.turns[n], signal.kind);
    var r := CloseByWire(h, n, lane, signal);
    assert r.host.log == After(h.log, Ended(n, h.turns[n].serial, record, ByWire(signal), Some(lane)));
  }

  /** After the signal itself, only the record of the turn it ended. */
  lemma {:induction false} SettleStream(h: Host, n: NativeId, lane: LaneId, signal: Signal, l: LaneId,
                                        before: seq<HostEvent>)
    requires RoutedTo(h.log, l) == before + Mine(Delivery(lane, SignalEvent(signal)), l)
    ensures var r := Settle(h, n, lane, signal);
            && RoutedTo(r.host.log, l) == before + QueuedFor(r.deliveries, l)
            && StopsTo(r.host.log, l) == StopsTo(h.log, l) && StopsDue(r.host.log, l) == StopsDue(h.log, l)
  {
    var d := Delivery(lane, SignalEvent(signal));
    if Terminal(signal.kind) && n in h.turns {
      CloseStream(h, n, lane, signal, l);
      var e := CloseByWire(h, n, lane, signal).deliveries[1];
      QueuedTwo(d, e, l);
      assert before + Mine(d, l) + Mine(e, l) == before + (Mine(d, l) + Mine(e, l));
    } else if !Terminal(signal.kind) && PastLimit(h, n) {
      QueuedOne(d, l);
      assert Settle(h, n, lane, signal).host.log == After(h.log, LimitReached(n, h.turns[n].serial));
    } else {
      QueuedOne(d, l);
    }
  }

  lemma SettleLane(h: Host, n: NativeId, lane: LaneId, signal: Signal)
    ensures forall d :: d in Settle(h, n, lane, signal).deliveries ==> d.lane == lane
  {
    if Terminal(signal.kind) && n in h.turns {
    } else if !Terminal(signal.kind) && PastLimit(h, n) {
    } else {
    }
  }

  lemma {:induction false} RouteToLaneStream(h: Host, n: NativeId, lane: LaneId, signal: Signal, l: LaneId)
    ensures var r := RouteToLane(h, n, lane, signal);
            && RoutedTo(r.host.log, l) == RoutedTo(h.log, l) + QueuedFor(r.deliveries, l)
            && StopsTo(r.host.log, l) == StopsTo(h.log, l) && StopsDue(r.host.log, l) == StopsDue(h.log, l)
            && (forall d :: d in r.deliveries ==> d.lane == lane)
  {
    ObserveStream(h, n, lane, signal, l);
    SettleStream(Observe(h, n, lane, signal), n, lane, signal, l, RoutedTo(h.log, l));
    SettleLane(Observe(h, n, lane, signal), n, lane, signal);
  }

  lemma {:induction false} RouteOneStream(h: Host, signal: Signal, l: LaneId)
    requires InArena(h)
    ensures var r := RouteOne(h, signal);
            && RoutedTo(r.host.log, l) == RoutedTo(h.log, l) + QueuedFor(r.deliveries, l)
            && StopsTo(r.host.log, l) == StopsTo(h.log, l) && StopsDue(r.host.log, l) == StopsDue(h.log, l)
            && (forall d :: d in r.deliveries ==> d.lane < |h.cores|)
  {
    match Destination(h, signal)
    case None =>
      assert RoutedTo(h.log, l) + [] == RoutedTo(h.log, l);
    case Some(lane) =>
      DestinationInArena(h, signal);
      RouteToLaneStream(Advance(h, signal.sequence), signal.nativeId.value, lane, signal, l);
  }

  lemma {:induction false} RouteStream(h: Host, signals: seq<Signal>, l: LaneId)
    requires InArena(h)
    ensures var r := Route(h, signals);
            && RoutedTo(r.host.log, l) == RoutedTo(h.log, l) + QueuedFor(r.deliveries, l)
            && StopsTo(r.host.log, l) == StopsTo(h.log, l) && StopsDue(r.host.log, l) == StopsDue(h.log, l)
            && (l >= |h.cores| ==> QueuedFor(r.deliveries, l) == [])
    decreases |signals|
  {
    if signals == [] {
      assert RoutedTo(h.log, l) + [] == RoutedTo(h.log, l);
    } else {
      var first := RouteOne(h, signals[0]);
      RouteOneStream(h, signals[0], l);
      NoneQueued(h, first.deliveries, l);
      RouteStays(h, signals[0]);
      RouteStream(first.host, signals[1..], l);
      var rest := Route(first.host, signals[1..]);
      QueuedAppend(first.deliveries, rest.deliveries, l);
      StreamJoin(RoutedTo(h.log, l), QueuedFor(first.deliveries, l), QueuedFor(rest.deliveries, l));
    }
  }

  lemma StreamJoin(a: seq<HostEvent>, b: seq<HostEvent>, c: seq<HostEvent>)
    ensures a + b + c == a + (b + c)
  {
  }

  lemma {:induction false} NoneQueued(h: Host, queue: seq<Delivery>, l: LaneId)
    requires forall d :: d in queue ==> d.lane < |h.cores|
    ensures l >= |h.cores| ==> QueuedFor(queue, l) == []
    decreases |queue|
  {
    if queue != [] && l >= |h.cores| {
      assert queue[0] in queue;
      NoneQueued(h, queue[1..], l);
    }
  }

  lemma {:induction false} RouteStays(h: Host, signal: Signal)
    requires InArena(h)
    ensures InArena(RouteOne(h, signal).host) && RouteOne(h, signal).host.cores == h.cores
  {
    RouteOneFrame(h, signal);
  }

  lemma FailTurnStream(h: Host, n: NativeId, reason: string, l: LaneId)
    requires InArena(h)
    ensures var r := FailTurn(h, n, reason);
            && RoutedTo(r.host.log, l) == RoutedTo(h.log, l) + QueuedFor(r.deliveries, l)
            && StopsTo(r.host.log, l) == StopsTo(h.log, l) && StopsDue(r.host.log, l) == StopsDue(h.log, l)
            && (forall d :: d in r.deliveries ==> d.lane < |h.cores|)
  {
    if n in h.turns && n in h.lanes {
      var record := FailRecord(h, n, h.turns[n], reason);
      var d := Delivery(h.lanes[n], TurnEnded(record));
      QueuedOne(d, l);
      var r := FailTurn(h, n, reason);
      assert r.host.log == After(h.log, Ended(n, h.turns[n].serial, record, ByPromptError(reason), Some(d.lane)));
    } else {
      assert RoutedTo(h.log, l) + [] == RoutedTo(h.log, l);
      if n in h.turns {
        var record := FailRecord(h, n, h.turns[n], reason);
        assert FailTurn(h, n, reason).host.log
            == After(h.log, Ended(n, h.turns[n].serial, record, ByPromptError(reason), None));
      }
    }
  }

  /** A stop appends its records to open lanes and logs them alike. */
  lemma FailAtStopStream(h: Host, n: NativeId, reason: string, l: LaneId, base: seq<HostEvent>, full: set<LaneId>)
    requires l < |h.cores| && !h.cores[l].closed
    requires h.cores[l].events == base + StopsTo(h.log, l)
    ensures var r := FailAtStop(h, n, reason, full);
            && |r.cores| == |h.cores| && !r.cores[l].closed
            && r.cores[l].events == base + StopsTo(r.log, l)
            && RoutedTo(r.log, l) == RoutedTo(h.log, l)
  {
    if n in h.turns {
      FailAtStopLog(h, n, reason, full);
      var record := FailRecord(h, n, h.turns[n], reason);
      if RecordStored(h, n, full) {
        assert base + (StopsTo(h.log, l) + [TurnEnded(record)]) == base + StopsTo(h.log, l) + [TurnEnded(record)];
      } else {
      }
    } else {
    }
  }

  lemma {:induction false} FailAllStream(h: Host, natives: seq<NativeId>, reason: string, l: LaneId,
                                         base: seq<HostEvent>, full: set<LaneId>)
    requires l < |h.cores| && !h.cores[l].closed
    requires h.cores[l].events == base + StopsTo(h.log, l)
    ensures var r := FailAll(h, natives, reason, full);
            && |r.cores| == |h.cores| && !r.cores[l].closed
            && r.cores[l].events == base + StopsTo(r.log, l)
            && RoutedTo(r.log, l) == RoutedTo(h.log, l)
    decreases |natives|
  {
    if natives != [] {
      FailAtStopStream(h, natives[0], reason, l, base, full);
      FailAllStream(FailAtStop(h, natives[0], reason, full), natives[1..], reason, l, base, full);
    }
  }

  lemma {:induction false} FailAtStopFar(h: Host, n: NativeId, reason: string, l: LaneId, full: set<LaneId>)
    requires InArena(h) && l >= |h.cores|
    ensures Silent(h, FailAtStop(h, n, reason, full), l)
    ensures InArena(FailAtStop(h, n, reason, full))
  {
    if n in h.turns {
      FailAtStopLog(h, n, reason, full);
      if n in h.lanes {
      } else {
      }
    } else {
    }
  }

  lemma {:induction false} FailAllFar(h: Host, natives: seq<NativeId>, reason: string, l: LaneId, full: set<LaneId>)
    requires InArena(h) && l >= |h.cores|
    ensures Silent(h, FailAll(h, natives, reason, full), l)
    decreases |natives|
  {
    if natives != [] {
      FailAtStopFar(h, natives[0], reason, l, full);
      FailAllFar(FailAtStop(h, natives[0], reason, full), natives[1..], reason, l, full);
    }
  }

  /** A stop says nothing on a lane no native session is bound to. */
  lemma {:induction false} FailAtStopElsewhere(h: Host, n: NativeId, reason: string, l: LaneId, full: set<LaneId>)
    requires l < |h.cores| && l !in h.lanes.Values
    ensures var r := FailAtStop(h, n, reason, full);
            Silent(h, r, l) && r.cores[l] == h.cores[l]
  {
    if n in h.turns {
      FailAtStopLog(h, n, reason, full);
      if n in h.lanes {
        assert h.lanes[n] in h.lanes.Values;
      }
    } else {
    }
  }

  lemma {:induction false} FailAllElsewhere(h: Host, natives: seq<NativeId>, reason: string, l: LaneId,
                                            full: set<LaneId>)
    requires l < |h.cores| && l !in h.lanes.Values
    ensures var r := FailAll(h, natives, reason, full);
            Silent(h, r, l) && r.cores[l] == h.cores[l]
    decreases |natives|
  {
    if natives != [] {
      FailAtStopElsewhere(h, natives[0], reason, l, full);
      FailAllElsewhere(FailAtStop(h, natives[0], reason, full), natives[1..], reason, l, full);
    }
  }

  /** A stop with this lane open before it. */
  lemma {:induction false} StopOpenStream(h: Host, queue: seq<Delivery>, reason: string, deliberate: bool, l: LaneId,
                                          full: set<LaneId>)
    requires Streams(h, queue, l) && InArena(h) && !h.closed && l < |h.cores|
    ensures Streams(Stop(h, reason, deliberate, full), queue, l)
  {
    var natives, base := Ascending(h.turns.Keys), h.cores[l].events;
    var r := Stop(h, reason, deliberate, full);
    AllStoredIffNoneRefused(h.log, l);
    if l in h.lanes.Values {
      assert base == base + StopsTo(h.log, l);
      FailAllStream(h, natives, reason, l, base, full);
      assert r.cores[l].events == base + StopsTo(r.log, l);
      assert RoutedTo(r.log, l)[..|base|] == base;
    } else {
      FailAllElsewhere(h, natives, reason, l, full);
      SubsequenceOfItself(RoutedTo(h.log, l));
    }
  }

  lemma {:induction false} StopStream(h: Host, queue: seq<Delivery>, reason: string, deliberate: bool, l: LaneId,
                                      full: set<LaneId>)
    requires Streams(h, queue, l) && InArena(h)
    ensures Streams(Stop(h, reason, deliberate, full), queue, l)
    ensures Streams(Stop(h, reason, deliberate, full), [], l)
  {
    if !h.closed {
      if l >= |h.cores| {
        FailAllFar(h, Ascending(h.turns.Keys), reason, l, full);
      } else {
        StopOpenStream(h, queue, reason, deliberate, l, full);
      }
    }
    NothingQueued(Stop(h, reason, deliberate, full), queue, l);
  }

  /** After a stop the reader's queue may be dropped. */
  lemma {:induction false} NothingQueued(h: Host, queue: seq<Delivery>, l: LaneId)
    requires Streams(h, queue, l) && h.closed
    ensures Streams(h, [], l)
  {
    if l < |h.cores| && !h.cores[l].closed {
      SubsequenceDrop(h.cores[l].events, QueuedFor(queue, l), RoutedTo(h.log, l));
      assert h.cores[l].events + [] == h.cores[l].events;
    }
  }

  lemma {:induction false} DeliverStream(h: Host, queue: seq<Delivery>, stored: bool, l: LaneId, full: set<LaneId>)
    requires Streams(h, queue, l) && InArena(h) && queue != []
    ensures Streams(Deliver(h, queue[0].lane, queue[0].event, stored, full),
                    if Refuses(h, queue[0].lane, stored) then [] else queue[1..], l)
  {
    var next := queue[0];
    if Refuses(h, next.lane, stored) {
      StopStream(h, queue, STORAGE_FAILED, false, l, full);
    } else {
      AppendStream(h, queue, l);
    }
  }

  lemma {:induction false} AppendStream(h: Host, queue: seq<Delivery>, l: LaneId)
    requires Streams(h, queue, l) && queue != []
    requires queue[0].lane < |h.cores| && !h.cores[queue[0].lane].closed
    ensures Streams(h.(cores := Append(h.cores, queue[0].lane, queue[0].event)), queue[1..], l)
  {
    var next, rest := queue[0], QueuedFor(queue[1..], l);
    assert QueuedFor(queue, l) == Mine(next, l) + rest;
    if next.lane == l {
      StreamJoin(h.cores[l].events, [next.event], rest);
      assert h.(cores := Append(h.cores, l, next.event)).cores[l].events == h.cores[l].events + [next.event];
    } else {
      assert QueuedFor(queue, l) == rest;
    }
  }

  /** Regions that neither route nor stop. */
  predicate Aside(op: Op) {
    op.DoRegisterControl? || op.DoBeginTurn? || op.DoTake? || op.DoRegisterOpen? || op.DoMarkInterrupt?
    || op.DoFillInterrupt? || op.DoDisconnected?
  }

  lemma {:induction false} RegisterControlStream(h: Host, queue: seq<Delivery>, token: nat,
                                                 registration: Registration, l: LaneId)
    requires Streams(h, queue, l) && InArena(h)
    ensures Streams(RegisterControl(h, token, registration), queue, l)
            && InArena(RegisterControl(h, token, registration))
  {
    if !h.closed {
      RegisterControlEffect(h, token, registration);
      match registration
      case ForHandshake =>
      case ForOpen(c, mode, requested) =>
        var loading := Loading(mode, requested);
        var r := RegisterControl(h, token, registration);
        AwaitLoadSilent(h.(cores := h.cores + [LaneCore(c, [], false)]), |h.cores|, loading, l);
        assert Silent(h, r, l);
        if l == |h.cores| {
          assert r.cores[l] == LaneCore(c, [], false);
        }
    }
  }

  lemma AwaitLoadSilent(h: Host, lane: LaneId, loading: Option<NativeId>, l: LaneId)
    ensures Silent(h, AwaitLoad(h, lane, loading), l)
  {
    match loading
    case None =>
    case Some(_) =>
  }

  lemma RegisterBindingStream(h: Host, lane: LaneId, signal: Signal, l: LaneId)
    requires InArena(h)
    ensures Silent(h, RegisterBinding(h, lane, signal), l) && InArena(RegisterBinding(h, lane, signal))
  {
    if signal.kind.SessionOpened? && lane < |h.cores| {
    } else {
    }
  }

  lemma {:induction false} RegisterOpenStream(h: Host, lane: LaneId, signals: seq<Signal>, l: LaneId)
    requires InArena(h)
    ensures Silent(h, RegisterOpen(h, lane, signals), l) && InArena(RegisterOpen(h, lane, signals))
    decreases |signals|
  {
    if signals != [] {
      RegisterBindingStream(h, lane, signals[0], l);
      RegisterOpenStream(RegisterBinding(h, lane, signals[0]), lane, signals[1..], l);
    }
  }

  lemma {:induction false} AsideStream(h: Host, queue: seq<Delivery>, op: Op, l: LaneId)
    requires Aside(op) && Admissible(h, op)
    requires Streams(h, queue, l) && InArena(h)
    ensures Streams(Apply(h, op), queue, l) && InArena(Apply(h, op))
  {
    match op
    case DoRegisterControl(token, registration) => RegisterControlStream(h, queue, token, registration, l);
    case DoTake(_) =>
    case DoRegisterOpen(lane, signals) =>
      RegisterOpenStream(h, lane, signals, l);
      RegisterOpenEffect(h, lane, signals);
    case DoDisconnected =>
    case _ => AsideTurn(h, op, l);
  }

  lemma AsideTurn(h: Host, op: Op, l: LaneId)
    requires TurnOp(op) && !op.DoFailTurn?
    ensures var r := Apply(h, op);
            Silent(h, r, l) && r.cores == h.cores && r.closed == h.closed && r.lanes == h.lanes
            && r.control == h.control
  {
    match op
    case DoBeginTurn(_, _, n) => if CanBegin(h, n) {} else {}
    case DoMarkInterrupt(c, _) => if CanMark(h, c) {} else {}
    case DoFillInterrupt(n, at, _) => if StillOpen(h, n, at) {} else {}
  }

  lemma StopInArena(h: Host, reason: string, deliberate: bool, full: set<LaneId>)
    requires InArena(h)
    ensures InArena(Stop(h, reason, deliberate, full))
  {
  }

  // ------------------------------------------------------------- every action

  ghost predicate Lanes(s: System) {
    InArena(s.host) && forall l :: Streams(s.host, Queue(s.reader), l)
  }

  /** What a region does to the reader's queue. */
  predicate QueueAfter(h: Host, queue: seq<Delivery>, op: Op, rest: seq<Delivery>) {
    match op
    case DoRoute(signals) => queue == [] && rest == Route(h, signals).deliveries
    case DoFailTurn(n, reason) => queue == [] && rest == FailTurn(h, n, reason).deliveries
    case DoDeliver(lane, event, stored, _) =>
      && queue != [] && queue[0] == Delivery(lane, event)
      && rest == if Refuses(h, lane, stored) then [] else queue[1..]
    case _ => rest == queue
  }

  lemma ActQueues(s: System, full: set<LaneId>)
    ensures match Region(s, DoAct(full))
            case None => Queue(Act(s, full).reader) == Queue(s.reader)
            case Some(op) => QueueAfter(s.host, Queue(s.reader), op, Queue(Act(s, full).reader))
  {
    match s.reader
    case Interpreted(Err(_), TookControl(_, _)) =>
    case Interpreted(Err(_), TookPrompt(_, _)) =>
    case Interpreted(Err(_), NoWaiter) =>
    case Interpreted(Ok(_), TookControl(_, _)) =>
    case Interpreted(Ok(_), TookPrompt(_, _)) =>
    case Interpreted(Ok(_), NoWaiter) =>
    case _ =>
  }

  lemma DeliveryQueues(s: System, stored: bool, full: set<LaneId>)
    ensures match Region(s, DoDeliverNext(stored, full))
            case None => Queue(DeliverNext(s, stored, full).reader) == Queue(s.reader)
            case Some(op) => QueueAfter(s.host, Queue(s.reader), op, Queue(DeliverNext(s, stored, full).reader))
  {
  }

  lemma QueueMoves(s: System, a: Action)
    ensures match Region(s, a)
            case None => Queue(Do(s, a).reader) == Queue(s.reader)
            case Some(op) => QueueAfter(s.host, Queue(s.reader), op, Queue(Do(s, a).reader))
  {
    if ControlAction(a) {
    } else if TurnAction(a) {
    } else {
      match a
      case DoRead(_) =>
      case DoInterpret =>
      case DoAct(full) => ActQueues(s, full);
      case DoDeliverNext(stored, full) => DeliveryQueues(s, stored, full);
      case DoCancelLimited(_, _) =>
    }
  }

  lemma RouteLanes(h: Host, signals: seq<Signal>, l: LaneId)
    requires Streams(h, [], l) && InArena(h)
    ensures Streams(Route(h, signals).host, Route(h, signals).deliveries, l) && InArena(Route(h, signals).host)
  {
    RouteStream(h, signals, l);
    RouteFrame(h, signals);
    if l < |h.cores| {
      assert h.cores[l].events + [] == h.cores[l].events;
      MorePrefix(h.cores[l].events, RoutedTo(h.log, l), QueuedFor(Route(h, signals).deliveries, l), StopsTo(h.log, l));
      MoreKept(h, l, QueuedFor(Route(h, signals).deliveries, l));
    } else {
      assert RoutedTo(h.log, l) + [] == RoutedTo(h.log, l);
    }
  }

  lemma {:induction false} MoreKept(h: Host, l: LaneId, more: seq<HostEvent>)
    requires l < |h.cores| && Streams(h, [], l)
    ensures h.closed && !h.cores[l].closed ==> Subsequence(h.cores[l].events + more, RoutedTo(h.log, l) + more)
  {
    if h.closed && !h.cores[l].closed {
      assert h.cores[l].events + [] == h.cores[l].events;
      SubsequenceAppend(h.cores[l].events, RoutedTo(h.log, l), more);
    }
  }

  lemma MorePrefix(events: seq<HostEvent>, routed: seq<HostEvent>, more: seq<HostEvent>, stops: seq<HostEvent>)
    ensures PrefixThenStops(events, routed, stops) ==> PrefixThenStops(events, routed + more, stops)
  {
    if PrefixThenStops(events, routed, stops) {
      assert (routed + more)[..|events| - |stops|] == routed[..|events| - |stops|];
    }
  }

  lemma FailLanes(h: Host, n: NativeId, reason: string, l: LaneId)
    requires Streams(h, [], l) && InArena(h)
    ensures var r := FailTurn(h, n, reason);
            Streams(r.host, r.deliveries, l) && InArena(r.host)
  {
    FailTurnStream(h, n, reason, l);
    FailTurnShrinks(h, n, reason);
    var r := FailTurn(h, n, reason);
    NoneQueued(h, r.deliveries, l);
    FailTurnPlace(h, n, reason);
    if l < |h.cores| {
      assert h.cores[l].events + [] == h.cores[l].events;
      MorePrefix(h.cores[l].events, RoutedTo(h.log, l), QueuedFor(r.deliveries, l), StopsTo(h.log, l));
      MoreKept(h, l, QueuedFor(r.deliveries, l));
    } else {
      assert RoutedTo(h.log, l) + [] == RoutedTo(h.log, l);
    }
  }

  lemma FailTurnPlace(h: Host, n: NativeId, reason: string)
    ensures var r := FailTurn(h, n, reason).host;
            r.cores == h.cores && r.lanes == h.lanes && r.control == h.control && r.closed == h.closed
  {
    if n in h.turns {
    } else {
    }
  }

  lemma {:induction false} OpStreams(h: Host, queue: seq<Delivery>, op: Op, rest: seq<Delivery>, l: LaneId)
    requires InArena(h) && Streams(h, queue, l) && Admissible(h, op) && QueueAfter(h, queue, op, rest)
    requires op.DoRegisterOpen? ==> |op.signals| == 1 && op.signals[0].kind.SessionOpened?
    ensures Streams(Apply(h, op), rest, l) && InArena(Apply(h, op))
  {
    match op
    case DoRoute(signals) => RouteLanes(h, signals, l);
    case DoFailTurn(n, reason) => FailLanes(h, n, reason, l);
    case DoDeliver(_, _, stored, full) =>
      DeliverStream(h, queue, stored, l, full);
      StopInArena(h, STORAGE_FAILED, false, full);
    case DoStop(reason, deliberate, full) =>
      StopStream(h, queue, reason, deliberate, l, full);
      StopInArena(h, reason, deliberate, full);
    case _ => AsideStream(h, queue, op, l);
  }

  lemma {:induction false} DoStreams(s: System, a: Action, l: LaneId)
    requires Healthy(s) && InArena(s.host) && Streams(s.host, Queue(s.reader), l)
    ensures Streams(Do(s, a).host, Queue(Do(s, a).reader), l) && InArena(Do(s, a).host)
  {
    RegionExplains(s, a);
    RegionAdmissible(s, a);
    QueueMoves(s, a);
    if Region(s, a).Some? {
      OpStreams(s.host, Queue(s.reader), Region(s, a).value, Queue(Do(s, a).reader), l);
    }
  }

  lemma DoLanes(s: System, a: Action)
    requires Healthy(s) && Lanes(s)
    ensures Lanes(Do(s, a))
  {
    forall l ensures Streams(Do(s, a).host, Queue(Do(s, a).reader), l) {
      assert Streams(s.host, Queue(s.reader), l);
      DoStreams(s, a, l);
    }
    assert Streams(s.host, Queue(s.reader), 0);
    DoStreams(s, a, 0);
  }

  lemma {:induction false} RunLanes(s: System, actions: seq<Action>)
    requires Healthy(s) && Lanes(s) && CausalRun(s, actions)
    ensures Lanes(RunSystem(s, actions))
    decreases |actions|
  {
    if actions != [] {
      var s1 := Do(s, actions[0]);
      DoLanes(s, actions[0]);
      DoHealthy(s, actions[0]);
      RunLanes(s1, actions[1..]);
    }
  }

  /** In every causal run, each lane's stream is what was routed to it: while the
      bridge is up, all of it but what the reader still has to deliver; once the
      lane has ended, a prefix of it followed by those of the stop's records the
      lane's spool took, which are all of them exactly when it refused none; and on
      a lane that did not end with the bridge, a selection of it in order. */
  lemma LaneStreams(limit: nat, actions: seq<Action>, l: LaneId)
    requires CausalRun(FreshSystem(limit), actions)
    ensures var s := RunSystem(FreshSystem(limit), actions);
            var h := s.host;
            l < |h.cores| ==>
              && (!h.closed ==> h.cores[l].events + QueuedFor(Queue(s.reader), l) == RoutedTo(h.log, l))
              && (h.cores[l].closed ==>
                    && PrefixThenStops(h.cores[l].events, RoutedTo(h.log, l), StopsTo(h.log, l))
                    && (StopsTo(h.log, l) == StopsDue(h.log, l) <==> !Refused(h.log, l)))
              && (h.closed && !h.cores[l].closed ==>
                    StopsDue(h.log, l) == [] && Subsequence(h.cores[l].events, RoutedTo(h.log, l)))
  {
    FreshHealthy(limit);
    var s := FreshSystem(limit);
    assert Lanes(s);
    RunLanes(s, actions);
    var r := RunSystem(s, actions);
    assert Streams(r.host, Queue(r.reader), l);
    AllStoredIffNoneRefused(r.host.log, l);
    if r.host.closed {
      NothingQueued(r.host, Queue(r.reader), l);
      assert l < |r.host.cores| ==> r.host.cores[l].events + [] == r.host.cores[l].events;
    }
  }

  // --------------------------------------------------- what a stop's refusals are

  /** The records one stop has for a lane, and what becomes of them: the lane takes every one
      unless its spool refuses, and then none. */
  ghost predicate DueAndTaken(h: Host, r: Host, l: LaneId, full: set<LaneId>) {
    exists due :: StopsDue(r.log, l) == StopsDue(h.log, l) + due
                  && StopsTo(r.log, l) == StopsTo(h.log, l) + (if l in full then [] else due)
                  && (Refused(r.log, l) <==> Refused(h.log, l) || (l in full && due != []))
  }

  lemma DueOnce(h: Host, n: NativeId, reason: string, l: LaneId, full: set<LaneId>)
    requires l < |h.cores| && !h.cores[l].closed
    ensures var r := FailAtStop(h, n, reason, full);
            DueAndTaken(h, r, l, full) && |r.cores| == |h.cores| && !r.cores[l].closed
  {
    var r := FailAtStop(h, n, reason, full);
    var due: seq<HostEvent> := [];
    assert StopsDue(h.log, l) + [] == StopsDue(h.log, l) && StopsTo(h.log, l) + [] == StopsTo(h.log, l);
    if n in h.turns {
      FailAtStopLog(h, n, reason, full);
      if n in h.lanes && h.lanes[n] == l {
        due := [TurnEnded(FailRecord(h, n, h.turns[n], reason))];
      }
    }
    assert StopsDue(r.log, l) == StopsDue(h.log, l) + due;
  }

  lemma DueJoin(h: Host, m: Host, r: Host, l: LaneId, full: set<LaneId>)
    requires DueAndTaken(h, m, l, full) && DueAndTaken(m, r, l, full)
    ensures DueAndTaken(h, r, l, full)
  {
    var a :| StopsDue(m.log, l) == StopsDue(h.log, l) + a
             && StopsTo(m.log, l) == StopsTo(h.log, l) + (if l in full then [] else a)
             && (Refused(m.log, l) <==> Refused(h.log, l) || (l in full && a != []));
    var b :| StopsDue(r.log, l) == StopsDue(m.log, l) + b
             && StopsTo(r.log, l) == StopsTo(m.log, l) + (if l in full then [] else b)
             && (Refused(r.log, l) <==> Refused(m.log, l) || (l in full && b != []));
    StreamJoin(StopsDue(h.log, l), a, b);
    StreamJoin(StopsTo(h.log, l), if l in full then [] else a, if l in full then [] else b);
    var none: seq<HostEvent> := [];
    assert none + none == none;
    assert StopsDue(r.log, l) == StopsDue(h.log, l) + (a + b);
  }

  lemma {:induction false} DueAll(h: Host, natives: seq<NativeId>, reason: string, l: LaneId, full: set<LaneId>)
    requires l < |h.cores| && !h.cores[l].closed
    ensures DueAndTaken(h, FailAll(h, natives, reason, full), l, full)
    decreases |natives|
  {
    if natives == [] {
      assert StopsDue(h.log, l) == StopsDue(h.log, l) + [] && StopsTo(h.log, l) == StopsTo(h.log, l) + [];
    } else {
      var m := FailAtStop(h, natives[0], reason, full);
      DueOnce(h, natives[0], reason, l, full);
      DueAll(m, natives[1..], reason, l, full);
      DueJoin(h, m, FailAll(m, natives[1..], reason, full), l, full);
    }
  }

  /** A stop leaves a lane every record it has for it, in order, unless the lane's spool refuses. */
  lemma StopRecordsTakenUnlessFull(h: Host, reason: string, deliberate: bool, l: LaneId, full: set<LaneId>)
    requires !h.closed && l < |h.cores| && !h.cores[l].closed
    ensures DueAndTaken(h, Stop(h, reason, deliberate, full), l, full)
  {
    DueAll(h, Ascending(h.turns.Keys), reason, l, full);
    var m := FailAll(h, Ascending(h.turns.Keys), reason, full);
    var r := Stop(h, reason, deliberate, full);
    assert r.log == m.log;
    var due :| StopsDue(m.log, l) == StopsDue(h.log, l) + due
               && StopsTo(m.log, l) == StopsTo(h.log, l) + (if l in full then [] else due)
               && (Refused(m.log, l) <==> Refused(h.log, l) || (l in full && due != []));
    assert StopsDue(r.log, l) == StopsDue(h.log, l) + due;
  }

  // ------------------------------------------------------------------- grammar

  /** In what is routed to a lane, the record of every turn the provider closed, however it closed it,
      comes directly after the terminal signal that closed it and ends at its sequence; every other
      record there is of a failed prompt. */
  predicate RecordsFollow(events: seq<HostEvent>, causes: seq<Option<EndCause>>) {
    |causes| == |events| && forall i :: 0 <= i < |events| ==> RecordFollows(events, causes[i], i)
  }

  predicate RecordFollows(events: seq<HostEvent>, cause: Option<EndCause>, i: nat)
    requires i < |events|
  {
    match cause
    case None => events[i].SignalEvent?
    case Some(ByWire(signal)) =>
      && events[i].TurnEnded? && 0 < i && events[i - 1] == SignalEvent(signal) && Terminal(signal.kind)
      && events[i].record.lastSequence == signal.sequence
    case Some(ByPromptError(reason)) => events[i].TurnEnded? && events[i].record.stop == FailedStop(reason)
    case Some(ByStop(_, _)) => false
  }

  lemma {:induction false} LaneGrammar(log: Log, limit: nat, l: LaneId)
    requires Lawful(log, limit)
    ensures RecordsFollow(RoutedTo(log, l), CausesTo(log, l))
  {
    if log.After? {
      LaneGrammar(log.earlier, limit, l);
      var e, was, now := log.entry, RoutedTo(log.earlier, l), RoutedTo(log, l);
      forall i | 0 <= i < |now| ensures RecordFollows(now, CausesTo(log, l)[i], i) {
        if i < |was| {
          assert RecordFollows(was, CausesTo(log.earlier, l)[i], i);
        } else if e.Ended? && e.cause.ByWire? {
          var before := log.earlier.earlier;
          assert was == RoutedTo(before, l) + [SignalEvent(e.cause.signal)];
          assert TurnSignals(log.earlier, e.nativeId) == TurnSignals(before, e.nativeId) + [e.cause.signal];
        }
      }
    }
  }

  /** The sequences of a lane's signals strictly increase. */
  predicate SequencesClimb(events: seq<HostEvent>) {
    forall i, j :: 0 <= i < j < |events| && events[i].SignalEvent? && events[j].SignalEvent? ==>
      events[i].signal.sequence < events[j].signal.sequence
  }

  lemma {:induction false} RisingLogClimbs(log: Log, l: LaneId)
    requires Rising(log)
    ensures SequencesClimb(RoutedTo(log, l))
    ensures forall i :: 0 <= i < |RoutedTo(log, l)| && RoutedTo(log, l)[i].SignalEvent? ==>
              RoutedTo(log, l)[i].signal.sequence <= HighestSequence(log)
  {
    if log.After? {
      RisingLogClimbs(log.earlier, l);
    }
  }

  /** In every causal run, of every lane: records follow what ended their turns, and sequences climb. */
  lemma LaneGrammarInEveryRun(limit: nat, actions: seq<Action>, l: LaneId)
    requires CausalRun(FreshSystem(limit), actions)
    ensures var log := RunSystem(FreshSystem(limit), actions).host.log;
            RecordsFollow(RoutedTo(log, l), CausesTo(log, l)) && SequencesClimb(RoutedTo(log, l))
  {
    SystemTurnConservation(limit, actions, 0);
    LaneGrammar(RunSystem(FreshSystem(limit), actions).host.log, limit, l);
    FreshHealthy(limit);
    RunRefines(FreshSystem(limit), actions);
    FreshSound(limit);
    RunSound(FreshHost(limit), Regions(FreshSystem(limit), actions));
    RisingLogClimbs(RunSystem(FreshSystem(limit), actions).host.log, l);
  }
}
