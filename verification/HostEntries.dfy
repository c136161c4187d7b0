/** What each region writes to the log, and so what it leaves unsaid. */
module HostEntries {
  import opened Prelude
  import opened Connection
  import opened SessionHost
  import opened HostHistory
  import opened HostTheorems
  import opened HostRouting

  /** The entries a region may log. */
  predicate Writes(op: Op, e: Entry) {
    match op
    case DoRegisterControl(_, _) => e.LoadAwaited?
    case DoBeginTurn(_, _, _) => e.Began?
    case DoTake(_) => false
    case DoRegisterOpen(lane, _) => e.Bound? && e.lane == lane
    case DoRoute(_) => e.Routed? || e.LimitReached? || (e.Ended? && e.cause.ByWire?)
    case DoFailTurn(_, _) => e.Ended? && e.cause.ByPromptError?
    case DoStop(_, _, _) => e.Ended? && e.cause.ByStop?
    case DoDisconnected => false
    case DoDeliver(_, _, _, _) => e.Ended? && e.cause.ByStop?
    case DoMarkInterrupt(_, _) => e.InterruptAsked?
    case DoFillInterrupt(_, _, _) => e.CommandsIssued?
  }

  /** The later log is the earlier one with such entries added. */
  predicate Adds(op: Op, before: Log, after: Log) {
    after == before || (after.After? && Writes(op, after.entry) && Adds(op, before, after.earlier))
  }

  lemma {:induction false} AddsOne(op: Op, before: Log, e: Entry)
    requires Writes(op, e)
    ensures Adds(op, before, After(before, e))
  {
    assert Adds(op, before, before);
  }

  lemma {:induction false} AddsMore(op: Op, before: Log, middle: Log, after: Log)
    requires Adds(op, before, middle) && Adds(op, middle, after)
    ensures Adds(op, before, after)
  {
    if after != middle {
      AddsMore(op, before, middle, after.earlier);
    }
  }

  lemma {:induction false} RegisterControlAdds(op: Op, h: Host)
    requires op.DoRegisterControl?
    ensures Adds(op, h.log, Apply(h, op).log)
  {
    if !h.closed {
      match op.registration
      case ForHandshake =>
      case ForOpen(_, mode, requested) =>
        match Loading(mode, requested)
        case None =>
        case Some(n) => AddsOne(op, h.log, LoadAwaited(|h.cores|, n));
    }
  }

  lemma {:induction false} BindingAdds(op: Op, h: Host, signal: Signal)
    requires op.DoRegisterOpen?
    ensures Adds(op, h.log, RegisterBinding(h, op.lane, signal).log)
  {
    if signal.kind.SessionOpened? && op.lane < |h.cores| {
      AddsOne(op, h.log, Bound(op.lane, signal.kind.binding.nativeId));
    }
  }

  lemma {:induction false} RegisterOpenAdds(op: Op, h: Host, signals: seq<Signal>)
    requires op.DoRegisterOpen?
    ensures Adds(op, h.log, RegisterOpen(h, op.lane, signals).log)
    decreases |signals|
  {
    if signals != [] {
      var m := RegisterBinding(h, op.lane, signals[0]);
      BindingAdds(op, h, signals[0]);
      RegisterOpenAdds(op, m, signals[1..]);
      AddsMore(op, h.log, m.log, RegisterOpen(m, op.lane, signals[1..]).log);
    }
  }

  lemma {:induction false} SettleAdds(op: Op, h: Host, n: NativeId, lane: LaneId, signal: Signal)
    requires op.DoRoute?
    ensures Adds(op, h.log, Settle(h, n, lane, signal).host.log)
  {
    if Terminal(signal.kind) && n in h.turns {
      var record := WireRecord(h, n, h.turns[n], signal.kind);
      AddsOne(op, h.log, Ended(n, h.turns[n].serial, record, ByWire(signal), Some(lane)));
    } else if !Terminal(signal.kind) && PastLimit(h, n) {
      AddsOne(op, h.log, LimitReached(n, h.turns[n].serial));
    } else {
    }
  }

  lemma {:induction false} RouteOneAdds(op: Op, h: Host, signal: Signal)
    requires op.DoRoute?
    ensures Adds(op, h.log, RouteOne(h, signal).host.log)
  {
    var h1 := Advance(h, signal.sequence);
    match Destination(h, signal)
    case None => AddsOne(op, h.log, Routed(None, signal));
    case Some(lane) =>
      var n := signal.nativeId.value;
      var h2 := Observe(h1, n, lane, signal);
      AddsOne(op, h.log, Routed(Some(lane), signal));
      SettleAdds(op, h2, n, lane, signal);
      AddsMore(op, h.log, h2.log, Settle(h2, n, lane, signal).host.log);
  }

  lemma {:induction false} RouteAdds(op: Op, h: Host, signals: seq<Signal>)
    requires op.DoRoute?
    ensures Adds(op, h.log, Route(h, signals).host.log)
    decreases |signals|
  {
    if signals != [] {
      var m := RouteOne(h, signals[0]).host;
      RouteOneAdds(op, h, signals[0]);
      RouteAdds(op, m, signals[1..]);
      AddsMore(op, h.log, m.log, Route(m, signals[1..]).host.log);
    }
  }

  lemma {:induction false} FailAllAdds(op: Op, h: Host, natives: seq<NativeId>, reason: string, full: set<LaneId>)
    requires op.DoStop? || op.DoDeliver?
    ensures Adds(op, h.log, FailAll(h, natives, reason, full).log)
    decreases |natives|
  {
    if natives != [] {
      var m := FailAtStop(h, natives[0], reason, full);
      if natives[0] in h.turns {
        FailAtStopLog(h, natives[0], reason, full);
        AddsOne(op, h.log, m.log.entry);
      }
      FailAllAdds(op, m, natives[1..], reason, full);
      AddsMore(op, h.log, m.log, FailAll(m, natives[1..], reason, full).log);
    }
  }

  lemma {:induction false} StopAdds(op: Op, h: Host, reason: string, deliberate: bool, full: set<LaneId>)
    requires op.DoStop? || op.DoDeliver?
    ensures Adds(op, h.log, Stop(h, reason, deliberate, full).log)
  {
    if !h.closed {
      FailAllAdds(op, h, Ascending(h.turns.Keys), reason, full);
    }
  }

  lemma {:induction false} TurnOpAdds(op: Op, h: Host)
    requires TurnOp(op)
    ensures Adds(op, h.log, Apply(h, op).log)
  {
    match op
    case DoBeginTurn(c, token, n) =>
      if CanBegin(h, n) { AddsOne(op, h.log, Began(n, Serials(h.log), c, h.lastSequence)); }
    case DoFailTurn(n, reason) =>
      if n in h.turns {
        var record := FailRecord(h, n, h.turns[n], reason);
        AddsOne(op, h.log, Ended(n, h.turns[n].serial, record, ByPromptError(reason), Lookup(h.lanes, n)));
      }
    case DoMarkInterrupt(c, why) =>
      if CanMark(h, c) {
        var n := h.sessions[c].nativeId;
        AddsOne(op, h.log, InterruptAsked(n, why, h.turns[n].lastSequence));
      }
    case DoFillInterrupt(n, at, commands) =>
      if StillOpen(h, n, at) { AddsOne(op, h.log, CommandsIssued(n, commands)); }
  }

  /** Each region writes only entries of its own kind. */
  lemma {:induction false} RegionWritesItsOwn(h: Host, op: Op)
    ensures Adds(op, h.log, Apply(h, op).log)
  {
    match op
    case DoRegisterControl(_, _) => RegisterControlAdds(op, h);
    case DoRegisterOpen(_, signals) => RegisterOpenAdds(op, h, signals);
    case DoRoute(signals) => RouteAdds(op, h, signals);
    case DoStop(reason, deliberate, full) => StopAdds(op, h, reason, deliberate, full);
    case DoDeliver(lane, event, stored, full) => StopAdds(op, h, STORAGE_FAILED, false, full);
    case DoTake(_) =>
    case DoDisconnected =>
    case _ => TurnOpAdds(op, h);
  }

  /** Only routing logs where signals go, and which turns ran into the limit. */
  lemma {:induction false} OnlyRoutingRoutes(op: Op, before: Log, after: Log)
    requires Adds(op, before, after) && !op.DoRoute?
    ensures Routings(after) == Routings(before) && Limited(after) == Limited(before)
  {
    if after != before {
      OnlyRoutingRoutes(op, before, after.earlier);
    }
  }
}
