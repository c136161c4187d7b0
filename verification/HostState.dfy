/** The host state as the code keeps it: fields changed in place, one method per
    locked region, each proved to do what the region's function says. */
module HostState {
  import opened Prelude
  import opened Tokens
  import opened Connection
  import opened SessionHost
  import opened HostRouting

  /** One routing after another. */
  function Join(first: Routing, rest: Routing): Routing {
    Routing(rest.host, first.deliveries + rest.deliveries, first.limited + rest.limited)
  }

  lemma {:induction false} RouteStep(done: Routing, here: Host, signals: seq<Signal>, i: nat)
    requires i < |signals| && done.host == here
    ensures var one := SessionHost.RouteOne(here, signals[i]);
            Join(done, SessionHost.Route(here, signals[i..]))
              == Join(Join(done, one), SessionHost.Route(one.host, signals[i + 1..]))
  {
    assert signals[i..][1..] == signals[i + 1..];
    var one := SessionHost.RouteOne(here, signals[i]);
    var rest := SessionHost.Route(one.host, signals[i + 1..]);
    assert done.deliveries + (one.deliveries + rest.deliveries) == done.deliveries + one.deliveries + rest.deliveries;
    assert done.limited + (one.limited + rest.limited) == done.limited + one.limited + rest.limited;
  }

  class HostState {
    const limit: nat
    var control: map<nat, Waiter>
    var pendingPrompts: map<nat, NativeId>
    var lanes: map<NativeId, LaneId>
    var cores: seq<LaneCore>
    var sessions: map<Ref, Binding>
    var turns: map<NativeId, ActiveTurn>
    var trail: map<Ref, seq<Interruption>>
    var lastTurn: map<Ref, TurnRecord>
    var unattributed: seq<Signal>
    var lastSequence: nat
    var transportError: Option<string>
    var closed: bool
    ghost var log: Log
    var begun: nat

    ghost predicate Valid()
      reads this
    {
      begun == Serials(log)
    }

    ghost function View(): Host
      reads this
    {
      Host(limit, control, pendingPrompts, lanes, cores, sessions, turns, trail, lastTurn,
           unattributed, lastSequence, transportError, closed, log)
    }

    constructor (limit: nat)
      ensures Valid() && View() == FreshHost(limit)
    {
      this.limit := limit;
      control, pendingPrompts, lanes, cores := map[], map[], map[], [];
      sessions, turns, trail, lastTurn := map[], map[], map[], map[];
      unattributed, lastSequence, transportError, closed := [], 0, None, false;
      log, begun := Start, 0;
    }

    method RegisterControl(token: nat, registration: Registration) returns (accepted: bool)
      requires Valid()
      modifies this
      ensures Valid() && View() == SessionHost.RegisterControl(old(View()), token, registration)
      ensures accepted == !old(closed)
    {
      if closed {
        return false;
      }
      match registration {
        case ForHandshake =>
          control := control[token := Handshake];
        case ForOpen(canonical, mode, requested) =>
          var loading := Loading(mode, requested);
          control := control[token := OpenWaiter(|cores|, loading)];
          if loading.Some? {
            log := After(log, LoadAwaited(|cores|, loading.value));
          }
          cores := cores + [LaneCore(canonical, [], false)];
      }
      return true;
    }

    method BeginTurn(c: Ref, token: nat, n: NativeId) returns (began: bool)
      requires Valid()
      modifies this
      ensures Valid() && View() == SessionHost.BeginTurn(old(View()), c, token, n)
      ensures began == CanBegin(old(View()), n)
    {
      if closed || n in turns {
        return false;
      }
      pendingPrompts := pendingPrompts[token := n];
      turns := turns[n := ActiveTurn(c, None, lastSequence, 0, None, None, begun)];
      log := After(log, Began(n, begun, c, lastSequence));
      begun := begun + 1;
      return true;
    }

    method Take(token: nat) returns (waiter: Option<Waiter>, prompt: Option<NativeId>)
      requires Valid()
      modifies this
      ensures Valid() && View() == SessionHost.Take(old(View()), token)
      ensures waiter == Lookup(old(control), token) && prompt == Lookup(old(pendingPrompts), token)
    {
      waiter, prompt := Lookup(control, token), Lookup(pendingPrompts, token);
      control, pendingPrompts := control - {token}, pendingPrompts - {token};
    }

    method RegisterOpen(lane: LaneId, signals: seq<Signal>)
      requires Valid()
      modifies this
      ensures Valid() && View() == SessionHost.RegisterOpen(old(View()), lane, signals)
    {
      var i := 0;
      while i < |signals|
        invariant 0 <= i <= |signals| && Valid()
        invariant SessionHost.RegisterOpen(View(), lane, signals[i..])
               == SessionHost.RegisterOpen(old(View()), lane, signals)
      {
        var kind := signals[i].kind;
        ghost var here := View();
        if kind.SessionOpened? && lane < |cores| {
          lanes := lanes[kind.binding.nativeId := lane];
          sessions := sessions[cores[lane].agentSession := kind.binding];
          log := After(log, Bound(lane, kind.binding.nativeId));
        }
        assert View() == RegisterBinding(here, lane, signals[i]);
        assert signals[i..][1..] == signals[i + 1..];
        i := i + 1;
      }
    }

    method RecordTurn(record: TurnRecord)
      modifies this`trail, this`lastTurn
      ensures View() == SessionHost.RecordTurn(old(View()), record)
    {
      var c := record.agentSession;
      if record.interruption.Some? {
        var kept := if c in trail then trail[c] else [];
        if |kept| >= TRAIL_LIMIT {
          kept := kept[1..];
        }
        trail := trail[c := kept + [record.interruption.value]];
      }
      lastTurn := lastTurn[c := record];
    }

    /** Take a turn out, keep its record, and note it. */
    method End(n: NativeId, record: TurnRecord, ghost cause: EndCause, ghost to: Option<LaneId>)
      requires Valid() && n in turns
      modifies this
      ensures Valid() && View() == EndTurn(old(View()), n, record, cause, to)
    {
      ghost var serial := turns[n].serial;
      turns := turns - {n};
      RecordTurn(record);
      log := After(log, Ended(n, serial, record, cause, to));
    }

    method FailTurn(n: NativeId, reason: string) returns (deliveries: seq<Delivery>)
      requires Valid()
      modifies this
      ensures Valid() && Routing(View(), deliveries, []) == SessionHost.FailTurn(old(View()), n, reason)
    {
      if n !in turns {
        return [];
      }
      var record := FailRecordOf(n, reason);
      var lane := Lookup(lanes, n);
      End(n, record, ByPromptError(reason), lane);
      return if lane.Some? then [Delivery(lane.value, TurnEnded(record))] else [];
    }

    function BindingOf(n: NativeId): (b: Binding)
      reads this
      ensures b == BindingFor(View(), n)
    {
      if n in lanes && lanes[n] < |cores| && cores[lanes[n]].agentSession in sessions
      then sessions[cores[lanes[n]].agentSession]
      else Unbound(n)
    }

    function FailRecordOf(n: NativeId, reason: string): (r: TurnRecord)
      reads this
      requires n in turns
      ensures r == FailRecord(View(), n, turns[n], reason)
    {
      var turn := turns[n];
      TurnRecord(turn.agentSession, BindingOf(n), FailedStop(reason),
                 if turn.interrupt.Some? then Some(HumanInterruption(turn, n, turn.interrupt.value, FailedStop(reason)))
                 else None,
                 turn.firstSequence, turn.lastSequence, turn.signals)
    }

    method CloseTurn(n: NativeId, lane: LaneId, signal: Signal) returns (record: TurnRecord)
      requires Valid() && n in turns
      modifies this
      ensures Valid() && record == WireRecord(old(View()), n, old(turns[n]), signal.kind)
      ensures View() == EndTurn(old(View()), n, record, ByWire(signal), Some(lane))
    {
      var turn := turns[n];
      var stop := WireStop(turn, signal.kind);
      record := TurnRecord(turn.agentSession, BindingOf(n), stop, WireInterruption(turn, n, stop),
                           turn.firstSequence, turn.lastSequence, turn.signals);
      End(n, record, ByWire(signal), Some(lane));
    }

    method PushUnattributed(signal: Signal)
      requires Valid()
      modifies this`unattributed, this`log
      ensures Valid() && View() == SessionHost.PushUnattributed(old(View()), signal)
    {
      if |unattributed| >= UNATTRIBUTED_LIMIT {
        unattributed := unattributed[1..];
      }
      unattributed := unattributed + [signal];
      log := After(log, Routed(None, signal));
    }

    method ReachedLimit(n: NativeId) returns (reached: bool)
      requires Valid()
      modifies this`turns, this`log
      ensures Valid() && reached == PastLimit(old(View()), n)
      ensures View() == if reached then MarkLimit(old(View()), n) else old(View())
    {
      if n !in turns || limit == 0 || turns[n].signals <= limit || turns[n].operationalLimit.Some? {
        return false;
      }
      log := After(log, LimitReached(n, turns[n].serial));
      turns := turns[n := turns[n].(operationalLimit := Some(limit))];
      return true;
    }

    method RouteToLane(n: NativeId, lane: LaneId, signal: Signal)
      returns (deliveries: seq<Delivery>, limited: seq<NativeId>)
      requires Valid()
      modifies this
      ensures Valid() && Routing(View(), deliveries, limited) == SessionHost.RouteToLane(old(View()), n, lane, signal)
    {
      if n in turns {
        turns := turns[n := CountSignal(turns[n], signal.sequence)];
      }
      log := After(log, Routed(Some(lane), signal));
      assert View() == Observe(old(View()), n, lane, signal);
      deliveries, limited := [Delivery(lane, SignalEvent(signal))], [];
      if Terminal(signal.kind) {
        if n in turns {
          var record := CloseTurn(n, lane, signal);
          deliveries := deliveries + [Delivery(lane, TurnEnded(record))];
        }
      } else {
        var reached := ReachedLimit(n);
        if reached {
          limited := [n];
        }
      }
    }

    method LaneFor(n: NativeId) returns (lane: Option<LaneId>)
      ensures lane == Resolve(View(), n)
      ensures n in lanes ==> lane == Some(lanes[n])
      ensures n !in lanes ==>
                if Awaited(control, n) then lane.Some? && FirstAwaiting(control, n, lane.value) else lane.None?
    {
      ResolvesFirst(View(), n);
      if n in lanes {
        return Some(lanes[n]);
      }
      var loaders := Loaders(control, n);
      return if loaders == {} then None else Some(control[FirstByText(loaders)].lane);
    }

    method LaneOf(signal: Signal) returns (to: Option<LaneId>)
      ensures to == Destination(View(), signal)
    {
      match signal.nativeId {
        case None => to := None;
        case Some(n) => to := LaneFor(n);
      }
    }

    method RouteTo(signal: Signal, to: Option<LaneId>) returns (deliveries: seq<Delivery>, limited: seq<NativeId>)
      requires Valid() && (to.Some? ==> signal.nativeId.Some?)
      modifies this
      ensures Valid() && Routing(View(), deliveries, limited) == SessionHost.RouteTo(old(View()), signal, to)
    {
      match to {
        case None =>
          PushUnattributed(signal);
          deliveries, limited := [], [];
        case Some(lane) =>
          deliveries, limited := RouteToLane(signal.nativeId.value, lane, signal);
      }
    }

    method RouteOne(signal: Signal) returns (deliveries: seq<Delivery>, limited: seq<NativeId>)
      requires Valid()
      modifies this
      ensures Valid() && Routing(View(), deliveries, limited) == SessionHost.RouteOne(old(View()), signal)
    {
      var to := LaneOf(signal);
      lastSequence := Max(lastSequence, signal.sequence);
      assert View() == Advance(old(View()), signal.sequence);
      deliveries, limited := RouteTo(signal, to);
    }

    method Route(signals: seq<Signal>) returns (deliveries: seq<Delivery>, limited: seq<NativeId>)
      requires Valid()
      modifies this
      ensures Valid() && Routing(View(), deliveries, limited) == SessionHost.Route(old(View()), signals)
    {
      deliveries, limited := [], [];
      var i := 0;
      assert signals[0..] == signals;
      while i < |signals|
        invariant 0 <= i <= |signals| && Valid()
        invariant SessionHost.Route(old(View()), signals)
               == Join(Routing(View(), deliveries, limited), SessionHost.Route(View(), signals[i..]))
      {
        ghost var before, here := Routing(View(), deliveries, limited), View();
        var d, l := RouteOne(signals[i]);
        deliveries, limited := deliveries + d, limited + l;
        RouteStep(before, here, signals, i);
        i := i + 1;
      }
    }

    method FailAtStop(n: NativeId, reason: string, full: set<LaneId>)
      requires Valid()
      modifies this
      ensures Valid() && View() == SessionHost.FailAtStop(old(View()), n, reason, full)
    {
      if n in turns {
        var record := FailRecordOf(n, reason);
        var lane := Lookup(lanes, n);
        var stored := lane.Some? && Accepts(cores, lane.value, full);
        End(n, record, ByStop(reason, stored), lane);
        if stored {
          cores := Append(cores, lane.value, TurnEnded(record));
        }
      }
    }

    method FailEvery(reason: string, full: set<LaneId>)
      requires Valid()
      modifies this
      ensures Valid() && View() == FailAll(old(View()), Ascending(old(turns).Keys), reason, full)
    {
      var natives := Ascending(turns.Keys);
      var i := 0;
      assert natives[0..] == natives;
      while i < |natives|
        invariant 0 <= i <= |natives| && Valid()
        invariant FailAll(View(), natives[i..], reason, full) == FailAll(old(View()), natives, reason, full)
      {
        assert natives[i..][1..] == natives[i + 1..];
        FailAtStop(natives[i], reason, full);
        i := i + 1;
      }
    }

    method Halt(reason: string, deliberate: bool)
      requires Valid()
      modifies this
      ensures Valid() && View() == SessionHost.Halt(old(View()), reason, deliberate)
    {
      if !deliberate {
        transportError := Some(reason);
      }
      closed, control, pendingPrompts := true, map[], map[];
      cores := CloseLanes(cores, lanes.Values);
      lanes := map[];
    }

    method StopBridge(reason: string, deliberate: bool, full: set<LaneId>)
      requires Valid()
      modifies this
      ensures Valid() && View() == Stop(old(View()), reason, deliberate, full)
    {
      if !closed {
        FailEvery(reason, full);
        Halt(reason, deliberate);
      }
    }

    method ControlDisconnected()
      requires Valid()
      modifies this`closed
      ensures Valid() && View() == Disconnected(old(View()))
    {
      if transportError.None? {
        closed := true;
      }
    }

    method Deliver(lane: LaneId, event: HostEvent, stored: bool, full: set<LaneId>) returns (delivered: bool)
      requires Valid()
      modifies this
      ensures Valid() && View() == SessionHost.Deliver(old(View()), lane, event, stored, full)
      ensures delivered == !Refuses(old(View()), lane, stored)
    {
      if !stored || lane >= |cores| || cores[lane].closed {
        StopBridge(STORAGE_FAILED, false, full);
        return false;
      }
      cores := Append(cores, lane, event);
      return true;
    }

    method MarkInterrupt(c: Ref, reason: Option<string>) returns (mark: Option<(NativeId, nat)>)
      requires Valid()
      modifies this
      ensures Valid() && View() == SessionHost.MarkInterrupt(old(View()), c, reason)
      ensures mark.Some? == CanMark(old(View()), c)
      ensures mark.Some? ==>
                mark.value == (old(sessions)[c].nativeId, old(turns)[old(sessions)[c].nativeId].lastSequence)
    {
      if closed || c !in sessions || sessions[c].nativeId !in turns || turns[sessions[c].nativeId].interrupt.Some? {
        return None;
      }
      var n := sessions[c].nativeId;
      var at := turns[n].lastSequence;
      turns := turns[n := turns[n].(interrupt := Some(PendingInterrupt(reason, at, [])))];
      log := After(log, InterruptAsked(n, reason, at));
      return Some((n, at));
    }

    method FillInterrupt(n: NativeId, requestedAt: nat, commands: seq<string>) returns (stillOpen: bool)
      requires Valid()
      modifies this
      ensures Valid() && View() == SessionHost.FillInterrupt(old(View()), n, requestedAt, commands)
      ensures stillOpen == StillOpen(old(View()), n, requestedAt)
    {
      if n !in turns || turns[n].interrupt.None? || turns[n].interrupt.value.requestedAt != requestedAt {
        return false;
      }
      var pending := turns[n].interrupt.value;
      turns := turns[n := turns[n].(interrupt := Some(pending.(commands := commands)))];
      log := After(log, CommandsIssued(n, commands));
      return true;
    }
  }
}
