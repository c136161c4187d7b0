/** Every causal run of the system is a run of the host's locked regions with
    signals in adapter order and no premature disconnect, so everything proved
    of such runs holds of the system. */
module SystemOrder {
  import opened Prelude
  import opened Connection
  import opened SessionHost
  import opened SessionSystem
  import opened SystemTickets
  import opened SystemIdentity
  import opened HostTheorems
  import HostHistory
  import HostInterrupt

  /** Signals not yet routed are numbered above everything routed so far. */
  predicate Ordered(s: System) {
    && s.host.lastSequence < s.adapter.nextSequence
    && (s.reader.Interpreted? && s.reader.result.Ok? ==>
          && |s.reader.result.value| <= 1
          && (|s.reader.result.value| == 1 ==>
                s.host.lastSequence < s.reader.result.value[0].sequence < s.adapter.nextSequence))
  }

  /** The locked region one action runs through, if any. */
  function Region(s: System, a: Action): Option<Op> {
    match a
    case DoRegister(t) =>
      (match At(s.callers, t)
       case IssuedControl(id, r) => if s.host.closed then None else Some(DoRegisterControl(id, r))
       case _ => None)
    case DoTimeOut(t, full) => if At(s.callers, t).Awaiting? then Some(DoStop(DEADLINE, false, full)) else None
    case DoDisconnect(t) =>
      (match At(s.callers, t)
       case Awaiting(id, _) => if SenderDropped(s, id) then Some(DoDisconnected) else None
       case _ => None)
    case DoRegisterPrompt(t) =>
      (match At(s.callers, t)
       case ResolvedPrompt(id, c, n) => if CanBegin(s.host, n) then Some(DoBeginTurn(c, id, n)) else None
       case _ => None)
    case DoInterrupt(t, c, why) =>
      if At(s.callers, t) == Idle && CanMark(s.host, c) then Some(DoMarkInterrupt(c, why)) else None
    case DoIssueCancel(t, commands) =>
      (match At(s.callers, t)
       case Interrupting(n, at) => if commands.None? then None else Some(DoFillInterrupt(n, at, commands.value))
       case _ => None)
    case DoStopBridge(reason, deliberate, full) => Some(DoStop(reason, deliberate, full))
    case DoRead(message) => if s.reader.Reading? && message.Response? then Some(DoTake(message.id)) else None
    case DoAct(full) =>
      (match s.reader
       case Interpreted(Err(_), TookPrompt(_, n)) => Some(DoFailTurn(n, PROMPT_FAILED))
       case Interpreted(Err(_), NoWaiter) => Some(DoStop(UNREADABLE, false, full))
       case Interpreted(Ok(signals), TookControl(_, OpenWaiter(lane, _))) => Some(DoRegisterOpen(lane, signals))
       case Interpreted(Ok(signals), TookPrompt(_, _)) => Some(DoRoute(signals))
       case Interpreted(Ok(signals), NoWaiter) => Some(DoRoute(signals))
       case _ => None)
    case DoDeliverNext(stored, full) =>
      if s.reader.Delivering? && s.reader.queue != []
      then Some(DoDeliver(s.reader.queue[0].lane, s.reader.queue[0].event, stored, full)) else None
    case DoCancelLimited(ok, full) =>
      if s.reader.Delivering? && s.reader.queue == [] && s.reader.limited != [] && !ok
      then Some(DoStop(UNREADABLE, false, full)) else None
    case _ => None
  }

  predicate Explained(s: System, a: Action) {
    Do(s, a).host == match Region(s, a) case None => s.host case Some(op) => Apply(s.host, op)
  }

  lemma IssueOpenExplained(s: System, t: Thread)
    ensures Explained(s, DoIssueOpen(t))
  {
    match At(s.callers, t)
    case Opening(c, mode, requested, directories) =>
      match OpenSession(s.adapter, mode, Some(c), requested, directories) { case Err(_) => case Ok(_) => }
    case _ =>
  }

  lemma ReceiveExplained(s: System, t: Thread)
    ensures Explained(s, DoReceive(t))
  {
    match At(s.callers, t)
    case Awaiting(_, _) =>
    case _ =>
  }

  lemma TimeOutExplained(s: System, t: Thread, full: set<LaneId>)
    ensures Explained(s, DoTimeOut(t, full))
  {
    match At(s.callers, t)
    case Awaiting(_, _) => assert Region(s, DoTimeOut(t, full)) == Some(DoStop(DEADLINE, false, full));
    case _ =>
  }

  lemma DisconnectExplained(s: System, t: Thread)
    ensures Explained(s, DoDisconnect(t))
  {
    match At(s.callers, t)
    case Awaiting(id, _) => if SenderDropped(s, id) {} else {}
    case _ =>
  }

  lemma ControlExplained(s: System, a: Action)
    requires ControlAction(a)
    ensures Explained(s, a)
  {
    match a
    case DoStartHandshake(t) =>
    case DoStartOpen(t, c, mode, requested, directories) =>
    case DoIssueOpen(t) => IssueOpenExplained(s, t);
    case DoRegister(t) => match At(s.callers, t) { case IssuedControl(_, _) => case _ => }
    case DoSend(t, ok) =>
      match At(s.callers, t) { case RegisteredControl(_, _) => case RegisteredPrompt(_) => case _ => }
    case DoReceive(t) => ReceiveExplained(s, t);
    case DoTimeOut(t, full) => TimeOutExplained(s, t, full);
    case DoDisconnect(t) => DisconnectExplained(s, t);
  }

  lemma RegisterPromptExplained(s: System, t: Thread)
    ensures Explained(s, DoRegisterPrompt(t))
  {
    match At(s.callers, t)
    case ResolvedPrompt(id, c, n) =>
      if CanBegin(s.host, n) {
        assert Region(s, DoRegisterPrompt(t)) == Some(DoBeginTurn(c, id, n));
      } else {
        assert Region(s, DoRegisterPrompt(t)) == None;
      }
    case _ =>
  }

  lemma InterruptExplained(s: System, t: Thread, c: Ref, why: Option<string>)
    ensures Explained(s, DoInterrupt(t, c, why))
  {
    if At(s.callers, t) == Idle && CanMark(s.host, c) {
      assert Region(s, DoInterrupt(t, c, why)) == Some(DoMarkInterrupt(c, why));
    } else {
      assert Do(s, DoInterrupt(t, c, why)) == s;
    }
  }

  lemma CancelIssueExplained(s: System, t: Thread, commands: Option<seq<string>>)
    ensures Explained(s, DoIssueCancel(t, commands))
  {
    match At(s.callers, t)
    case Interrupting(n, at) =>
      if commands.Some? {
        assert Region(s, DoIssueCancel(t, commands)) == Some(DoFillInterrupt(n, at, commands.value));
      }
    case _ =>
  }

  lemma TurnExplained(s: System, a: Action)
    requires TurnAction(a)
    ensures Explained(s, a)
  {
    match a
    case DoStartPrompt(t, c, n) =>
    case DoIssuePrompt(t) => match At(s.callers, t) { case Prompting(_, _) => case _ => }
    case DoResolvePrompt(t) => match At(s.callers, t) { case IssuedPrompt(_, _) => case _ => }
    case DoRegisterPrompt(t) => RegisterPromptExplained(s, t);
    case DoInterrupt(t, c, why) => InterruptExplained(s, t, c, why);
    case DoIssueCancel(t, commands) => CancelIssueExplained(s, t, commands);
    case DoStopBridge(reason, deliberate, full) =>
  }

  lemma ActExplained(s: System, full: set<LaneId>)
    ensures Explained(s, DoAct(full))
  {
    if s.reader.Interpreted? {
      match s.reader.result
      case Err(_) => match s.reader.taken { case TookControl(_, _) => case TookPrompt(_, _) => case NoWaiter => }
      case Ok(signals) =>
        match s.reader.taken {
          case TookControl(_, waiter) => match waiter { case Handshake => case OpenWaiter(_, _) => }
          case TookPrompt(_, _) => assert Do(s, DoAct(full)) == RouteAll(s, signals);
          case NoWaiter => assert Do(s, DoAct(full)) == RouteAll(s, signals);
        }
    }
  }

  lemma DeliverExplained(s: System, stored: bool, full: set<LaneId>)
    ensures Explained(s, DoDeliverNext(stored, full))
  {
    if s.reader.Delivering? {
      if s.reader.queue == [] {
      } else {
        assert Do(s, DoDeliverNext(stored, full)).host
               == Deliver(s.host, s.reader.queue[0].lane, s.reader.queue[0].event, stored, full);
      }
    }
  }

  lemma CancelExplained(s: System, ok: bool, full: set<LaneId>)
    ensures Explained(s, DoCancelLimited(ok, full))
  {
    if s.reader.Delivering? {
      if s.reader.queue != [] {
      } else if s.reader.limited == [] {
      } else if ok {
      } else {
      }
    }
  }

  lemma ReaderExplained(s: System, a: Action)
    requires !ControlAction(a) && !TurnAction(a)
    ensures Explained(s, a)
  {
    match a
    case DoRead(message) => if s.reader.Reading? && message.Response? {} else {}
    case DoInterpret =>
    case DoAct(full) => ActExplained(s, full);
    case DoDeliverNext(stored, full) => DeliverExplained(s, stored, full);
    case DoCancelLimited(ok, full) => CancelExplained(s, ok, full);
  }

  /** One action changes the host exactly as its locked region does. */
  lemma RegionExplains(s: System, a: Action)
    ensures Explained(s, a)
  {
    if ControlAction(a) {
      ControlExplained(s, a);
    } else if TurnAction(a) {
      TurnExplained(s, a);
    } else {
      ReaderExplained(s, a);
    }
  }

  lemma RegionAdmissible(s: System, a: Action)
    requires Tickets(s) && Residency(s) && Ordered(s)
    ensures Region(s, a).Some? ==> Admissible(s.host, Region(s, a).value)
  {
    match a
    case DoDisconnect(t) =>
      match At(s.callers, t) {
        case Awaiting(id, _) => if SenderDropped(s, id) { DroppedSenderMeansStopped(s, t); }
        case _ =>
      }
    case DoAct(full) =>
      match s.reader {
        case Interpreted(Ok(signals), _) =>
          if |signals| == 1 {
            assert signals[1..] == [];
          }
        case _ =>
      }
    case _ =>
  }

  lemma {:induction false} RouteAdvances(h: Host, signals: seq<Signal>, bound: nat)
    requires h.lastSequence < bound && |signals| <= 1
    requires |signals| == 1 ==> signals[0].sequence < bound
    ensures Route(h, signals).host.lastSequence < bound
  {
    if |signals| == 1 {
      HostHistory.RouteOneFrame(h, signals[0]);
      assert signals[1..] == [];
    }
  }

  lemma {:induction false} FailAllSequence(h: Host, natives: seq<NativeId>, reason: string, full: set<LaneId>)
    ensures FailAll(h, natives, reason, full).lastSequence == h.lastSequence
    decreases |natives|
  {
    if natives != [] {
      FailAllSequence(FailAtStop(h, natives[0], reason, full), natives[1..], reason, full);
    }
  }

  lemma StopSequence(h: Host, reason: string, deliberate: bool, full: set<LaneId>)
    ensures Stop(h, reason, deliberate, full).lastSequence == h.lastSequence
  {
    FailAllSequence(h, Ascending(h.turns.Keys), reason, full);
  }

  lemma IngestOrders(a: Adapter, message: Message)
    ensures var r := Ingest(a, message);
            && r.adapter.nextSequence >= a.nextSequence
            && (r.result.Ok? ==>
                  && |r.result.value| <= 1
                  && (|r.result.value| == 1 ==>
                        a.nextSequence <= r.result.value[0].sequence < r.adapter.nextSequence))
  {
    match message
    case Response(id, reply) =>
      if id in a.pending && reply.Reply? {
        match a.pending[id] { case Initialize => case Open(_, _, _) => case Prompt(_) => }
      }
    case _ =>
  }

  /** Only routing moves the host's sequence. */
  lemma {:induction false} ApplySequence(h: Host, op: Op)
    requires !op.DoRoute?
    ensures Apply(h, op).lastSequence == h.lastSequence
  {
    match op
    case DoRegisterControl(token, registration) => if !h.closed { RegisterControlEffect(h, token, registration); }
    case DoRegisterOpen(lane, signals) => RegisterOpenEffect(h, lane, signals);
    case DoStop(reason, deliberate, full) => StopSequence(h, reason, deliberate, full);
    case DoDeliver(_, _, _, full) => StopSequence(h, STORAGE_FAILED, false, full);
    case DoFailTurn(n, _) => if n in h.turns {} else {}
    case _ =>
  }

  /** What the reader and the adapter do in one action. */
  lemma DoMovesReader(s: System, a: Action)
    ensures !a.DoInterpret? ==> Do(s, a).adapter.nextSequence == s.adapter.nextSequence
    ensures !a.DoInterpret? && Do(s, a).reader.Interpreted? ==> Do(s, a).reader == s.reader
  {
    if ControlAction(a) {
    } else if TurnAction(a) {
    } else {
    }
  }

  lemma DoOrdered(s: System, a: Action)
    requires Ordered(s)
    ensures Ordered(Do(s, a))
  {
    RegionExplains(s, a);
    DoMovesReader(s, a);
    match Region(s, a)
    case None =>
      if a.DoInterpret? && s.reader.Took? {
        IngestOrders(s.adapter, s.reader.message);
      }
    case Some(op) =>
      if op.DoRoute? {
        RouteAdvances(s.host, op.signals, s.adapter.nextSequence);
        assert !Do(s, a).reader.Interpreted?;
      } else {
        ApplySequence(s.host, op);
      }
  }

  /** All the invariants of a causal run. */
  ghost predicate Healthy(s: System) {
    Tickets(s) && Residency(s) && Ordered(s)
  }

  lemma FreshHealthy(limit: nat)
    ensures Healthy(FreshSystem(limit))
  {
  }

  lemma {:induction false} DoHealthy(s: System, a: Action)
    requires Healthy(s) && Causal(s, a)
    ensures Healthy(Do(s, a))
  {
    DoResides(s, a);
    DoOrdered(s, a);
  }

  lemma {:induction false} RunHealthy(s: System, actions: seq<Action>)
    requires Healthy(s) && CausalRun(s, actions)
    ensures Healthy(RunSystem(s, actions))
    decreases |actions|
  {
    if actions != [] {
      DoHealthy(s, actions[0]);
      RunHealthy(Do(s, actions[0]), actions[1..]);
    }
  }

  function Cons(op: Option<Op>, rest: seq<Op>): seq<Op> {
    if op.Some? then [op.value] + rest else rest
  }

  /** The locked regions a run goes through, in order. */
  function Regions(s: System, actions: seq<Action>): seq<Op>
    decreases |actions|
  {
    if actions == [] then [] else Cons(Region(s, actions[0]), Regions(Do(s, actions[0]), actions[1..]))
  }

  /** Refinement: a causal run's host is the host of an admissible run of regions. */
  lemma {:induction false} RunRefines(s: System, actions: seq<Action>)
    requires Healthy(s) && CausalRun(s, actions)
    ensures RunSystem(s, actions).host == Run(s.host, Regions(s, actions))
    ensures AdmissibleRun(s.host, Regions(s, actions))
    decreases |actions|
  {
    if actions != [] {
      var s1 := Do(s, actions[0]);
      DoHealthy(s, actions[0]);
      RegionExplains(s, actions[0]);
      RegionAdmissible(s, actions[0]);
      RunRefines(s1, actions[1..]);
      var rest := Regions(s1, actions[1..]);
      if Region(s, actions[0]).Some? {
        assert ([Region(s, actions[0]).value] + rest)[1..] == rest;
      }
    }
  }

  // ------------------------------------------------- what this gives the system

  /** In every causal run, for every native session: turns begun are turns recorded
      plus the one in flight; and a stopped bridge has none in flight. */
  lemma SystemTurnConservation(limit: nat, actions: seq<Action>, n: NativeId)
    requires CausalRun(FreshSystem(limit), actions)
    ensures var h := RunSystem(FreshSystem(limit), actions).host;
            && HostHistory.TurnsBegun(h.log, n) == HostHistory.TurnsEnded(h.log, n) + (if n in h.turns then 1 else 0)
            && (h.closed ==> h.turns == map[])
            && HostHistory.Lawful(h.log, limit)
  {
    FreshHealthy(limit);
    RunRefines(FreshSystem(limit), actions);
    var ops := Regions(FreshSystem(limit), actions);
    TurnConservation(limit, ops, n);
    EveryRunIsLawful(limit, ops);
    FreshSound(limit);
    RunSound(FreshHost(limit), ops);
  }

  /** The two regions of one caller's `interrupt`, with any causal run of every
      other thread, the reader and the provider in between. */
  lemma SystemInterrupt(limit: nat, earlier: seq<Action>, t: Thread, c: Ref, reason: Option<string>,
                        between: seq<Action>)
    requires CausalRun(FreshSystem(limit), earlier)
    requires var s := RunSystem(FreshSystem(limit), earlier);
             At(s.callers, t) == Idle && CanMark(s.host, c) && CausalRun(Interrupt(s, t, c, reason), between)
    ensures var s := RunSystem(FreshSystem(limit), earlier);
            var n := s.host.sessions[c].nativeId;
            var serial, at := s.host.turns[n].serial, s.host.turns[n].lastSequence;
            var h := RunSystem(Interrupt(s, t, c, reason), between).host;
            && (StillOpen(h, n, at) ==>
                  (HostInterrupt.Owns(h, n, serial) <==> !HostInterrupt.EndedByPromptError(h.log, serial)))
            && (HostInterrupt.Owns(h, n, serial) ==>
                  StillOpen(h, n, at) && h.turns[n].interrupt.value.reason == reason)
  {
    FreshHealthy(limit);
    RunRefines(FreshSystem(limit), earlier);
    RunHealthy(FreshSystem(limit), earlier);
    var s := RunSystem(FreshSystem(limit), earlier);
    var s1 := Interrupt(s, t, c, reason);
    assert Do(s, DoInterrupt(t, c, reason)) == s1;
    DoHealthy(s, DoInterrupt(t, c, reason));
    RunRefines(s1, between);
    HostInterrupt.InterruptInEveryRun(limit, Regions(FreshSystem(limit), earlier), c, reason, Regions(s1, between));
  }
}
