/** Waited for and remembered: exactly when the adapter forgets a request that
    somebody still waits for. */
module SystemMemory {
  import opened Prelude
  import opened Connection
  import opened SessionHost
  import opened SessionSystem
  import opened SystemTickets
  import opened SystemOrder
  import SystemBindings

  /** Every request somebody waits for is one the adapter remembers. */
  ghost predicate Remembered(s: System) {
    && (forall id :: id in Held(s.host) ==> id in s.adapter.pending)
    && (s.reader.Took? && TakenId(s.reader.taken).Some? ==> TakenId(s.reader.taken).value in s.adapter.pending)
  }

  /** The adapter is about to read as an answer what the host did not take for one,
      and somebody waits for that answer. */
  predicate SlipsBy(s: System, a: Action) {
    a.DoInterpret? && s.reader.Took? && s.reader.message.MarkedResponse? && s.reader.message.id in Held(s.host)
  }

  predicate NoneSlipsBy(s: System, actions: seq<Action>)
    decreases |actions|
  {
    actions == [] || (!SlipsBy(s, actions[0]) && NoneSlipsBy(Do(s, actions[0]), actions[1..]))
  }

  /** The token a region adds a waiter for. */
  function Joining(op: Op): set<nat> {
    match op
    case DoRegisterControl(token, _) => {token}
    case DoBeginTurn(_, token, _) => {token}
    case _ => {}
  }

  lemma {:induction false} OpHolds(h: Host, op: Op)
    ensures Held(Apply(h, op)) <= Held(h) + Joining(op)
  {
    match op
    case DoRegisterControl(token, registration) => if !h.closed { RegisterControlEffect(h, token, registration); }
    case DoBeginTurn(_, _, n) => if CanBegin(h, n) {} else {}
    case DoRegisterOpen(lane, signals) => RegisterOpenEffect(h, lane, signals);
    case DoRoute(signals) => RouteShrinks(h, signals);
    case DoFailTurn(n, reason) => FailTurnShrinks(h, n, reason);
    case DoStop(reason, deliberate, full) => StopShrinks(h, reason, deliberate, full);
    case DoDeliver(lane, event, stored, full) => DeliverShrinks(h, lane, event, stored, full);
    case DoTake(_) =>
    case DoDisconnected =>
    case DoMarkInterrupt(c, _) => if CanMark(h, c) {} else {}
    case DoFillInterrupt(n, at, _) => if StillOpen(h, n, at) {} else {}
  }

  /** Whoever comes to be waited for is remembered. */
  lemma {:induction false} JoinsRemembered(s: System, a: Action)
    requires Tickets(s)
    ensures Region(s, a).Some? ==> Joining(Region(s, a).value) <= s.adapter.pending.Keys
  {
    match a
    case DoRegister(t) =>
      match At(s.callers, t) {
        case IssuedControl(_, _) => assert CallerFits(s.callers[t], s.adapter.pending, s.sent, Held(s.host));
        case _ =>
      }
    case DoRegisterPrompt(t) =>
      match At(s.callers, t) {
        case ResolvedPrompt(_, _, _) => assert CallerFits(s.callers[t], s.adapter.pending, s.sent, Held(s.host));
        case _ =>
      }
    case _ =>
  }

  /** Only interpreting forgets, and only a read takes a waiter in hand. */
  lemma {:induction false} DoMovesMemory(s: System, a: Action)
    requires !a.DoInterpret?
    ensures s.adapter.pending.Keys <= Do(s, a).adapter.pending.Keys
    ensures Do(s, a).reader.Took? && !a.DoRead? ==> Do(s, a).reader == s.reader
  {
    if ControlAction(a) {
    } else if TurnAction(a) {
    } else {
    }
  }

  lemma {:induction false} DoRemembers(s: System, a: Action)
    requires Tickets(s) && Remembered(s) && !a.DoInterpret?
    ensures Remembered(Do(s, a))
  {
    RegionExplains(s, a);
    DoMovesMemory(s, a);
    if a.DoRead? {
    } else if Region(s, a).Some? {
      OpHolds(s.host, Region(s, a).value);
      JoinsRemembered(s, a);
    }
  }

  /** One action keeps every waited-for request remembered exactly when it does not
      interpret a marked response to a request somebody waits for. */
  lemma {:induction false} KeptIffNoneSlipsBy(s: System, a: Action)
    requires Tickets(s) && Remembered(s)
    ensures Remembered(Do(s, a)) <==> !SlipsBy(s, a)
  {
    if a.DoInterpret? {
      if s.reader.Took? {
        IngestEffect(s.adapter, s.reader.message);
      }
    } else {
      DoRemembers(s, a);
    }
  }

  /** In every causal run whose provider lets none slip by, whatever is waited for is remembered. */
  lemma {:induction false} WaitedForIsRemembered(s: System, actions: seq<Action>)
    requires Tickets(s) && Remembered(s) && CausalRun(s, actions) && NoneSlipsBy(s, actions)
    ensures Remembered(RunSystem(s, actions))
    decreases |actions|
  {
    if actions != [] {
      KeptIffNoneSlipsBy(s, actions[0]);
      DoKeepsTickets(s, actions[0]);
      WaitedForIsRemembered(Do(s, actions[0]), actions[1..]);
    }
  }

  /** In every causal run from the start whose provider lets none slip by, each waiter's request is
      remembered, and as what the waiter is for. */
  lemma WaitersCorrelate(limit: nat, actions: seq<Action>, id: nat)
    requires CausalRun(FreshSystem(limit), actions) && NoneSlipsBy(FreshSystem(limit), actions)
    ensures var s := RunSystem(FreshSystem(limit), actions);
            && (id in s.host.control ==>
                  id in s.adapter.pending && WaiterFits(s.host.control[id], s.adapter.pending[id], s.host.cores))
            && (id in s.host.pendingPrompts ==>
                  id in s.adapter.pending && s.adapter.pending[id] == Prompt(s.host.pendingPrompts[id]))
  {
    Correlation(limit, actions, id, 0);
    WaitedForIsRemembered(FreshSystem(limit), actions);
    SystemBindings.IdentityPreserved(limit, actions, "", 0, id);
  }
}
