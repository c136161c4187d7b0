/** Requests and their waiters: in every causal run, waiters are for distinct
    requests the adapter numbered, of the same kind as long as it remembers them,
    and no request is ever registered twice; and exactly when the adapter forgets
    a request that is still waited for. */
module SystemTickets {
  import opened Prelude
  import opened Connection
  import opened SessionHost
  import opened SessionSystem
  import HostHistory

  // ------------------------------------------------------------ the invariant

  /** The request a caller has and nobody else: not yet sent. */
  function Unsent(c: Caller): Option<nat> {
    match c
    case IssuedControl(id, _) => Some(id)
    case RegisteredControl(id, _) => Some(id)
    case IssuedPrompt(id, _) => Some(id)
    case ResolvedPrompt(id, _, _) => Some(id)
    case RegisteredPrompt(id) => Some(id)
    case _ => None
  }

  predicate Unregistered(c: Caller) {
    c.IssuedControl? || c.IssuedPrompt? || c.ResolvedPrompt?
  }

  predicate RegistrationFits(r: Registration, p: Pending) {
    match r
    case ForHandshake => p.Initialize?
    case ForOpen(c, mode, requested) => p == Open(mode, Some(c), requested)
  }

  predicate LaneFits(w: Waiter, cores: seq<LaneCore>) {
    w.OpenWaiter? ==> w.lane < |cores|
  }

  predicate WaiterFits(w: Waiter, p: Pending, cores: seq<LaneCore>) {
    match w
    case Handshake => p.Initialize?
    case OpenWaiter(lane, loading) =>
      && lane < |cores|
      && p.Open?
      && p.canonical == Some(cores[lane].agentSession)
      && loading == Loading(p.mode, p.requested)
  }

  predicate CallerFits(c: Caller, pending: map<nat, Pending>, sent: set<nat>, held: set<nat>) {
    && (Unsent(c).Some? ==> Unsent(c).value in pending && Unsent(c).value !in sent)
    && (Unregistered(c) ==> Unsent(c).value !in held)
    && (c.IssuedControl? ==> RegistrationFits(c.registration, pending[c.id]))
    && (c.RegisteredControl? ==> RegistrationFits(c.registration, pending[c.id]))
    && (c.IssuedPrompt? || c.ResolvedPrompt? || c.RegisteredPrompt? ==> pending[c.id].Prompt?)
    && (c.Awaiting? ==> c.id in sent && (c.id in pending ==> RegistrationFits(c.registration, pending[c.id])))
  }

  ghost predicate CallersFit(callers: map<Thread, Caller>, pending: map<nat, Pending>, sent: set<nat>, held: set<nat>) {
    forall t :: t in callers ==> CallerFits(callers[t], pending, sent, held)
  }

  /** No two callers have the same unsent request. */
  ghost predicate Distinct(callers: map<Thread, Caller>) {
    forall t, u :: t in callers && u in callers && t != u && Unsent(callers[t]).Some? ==>
      Unsent(callers[t]) != Unsent(callers[u])
  }

  /** A waiter is for a numbered request, of its kind if the adapter remembers it. */
  ghost predicate WaitersFit(control: map<nat, Waiter>, prompts: map<nat, NativeId>, pending: map<nat, Pending>,
                             next: nat, cores: seq<LaneCore>) {
    && (forall id :: id in control ==>
          id < next && LaneFits(control[id], cores) && (id in pending ==> WaiterFits(control[id], pending[id], cores)))
    && (forall id :: id in prompts ==> id < next && (id in pending ==> pending[id].Prompt?))
  }

  predicate TakenFits(taken: Taken, pending: map<nat, Pending>, cores: seq<LaneCore>) {
    match taken
    case NoWaiter => true
    case TookControl(id, w) => LaneFits(w, cores) && (id in pending ==> WaiterFits(w, pending[id], cores))
    case TookPrompt(id, n) => id in pending ==> pending[id].Prompt?
  }

  function TakenId(taken: Taken): Option<nat> {
    match taken
    case NoWaiter => None
    case TookControl(id, _) => Some(id)
    case TookPrompt(id, _) => Some(id)
  }

  /** What an open's signals are: one `SessionOpened`, naming this canonical
      session and, if an id was asked for, that id. */
  predicate OpensFor(signals: seq<Signal>, c: Ref, asked: Option<NativeId>) {
    && |signals| == 1
    && signals[0].kind.SessionOpened?
    && signals[0].kind.binding.agentSession == Some(c)
    && (asked.Some? ==> signals[0].kind.binding.nativeId == asked.value)
  }

  predicate ReaderFits(r: Reader, pending: map<nat, Pending>, sent: set<nat>, held: set<nat>, cores: seq<LaneCore>) {
    match r
    case Took(message, taken) =>
      && (Answers(message).Some? ==> Answers(message).value in sent)
      && (message.Response? ==> message.id !in held)
      && TakenFits(taken, pending, cores)
      && (TakenId(taken).Some? ==> message.Response? && message.id == TakenId(taken).value)
    case Interpreted(result, taken) =>
      && (TakenId(taken).Some? ==> TakenId(taken).value in sent && TakenId(taken).value !in held)
      && (taken.TookControl? && taken.waiter.OpenWaiter? ==> taken.waiter.lane < |cores|)
      && (taken.TookControl? && taken.waiter.OpenWaiter? && result.Ok? ==>
            OpensFor(result.value, cores[taken.waiter.lane].agentSession, taken.waiter.loading))
    case _ => true
  }

  function Held(h: Host): set<nat> {
    h.control.Keys + h.pendingPrompts.Keys
  }

  ghost predicate Numbers(pending: map<nat, Pending>, sent: set<nat>, next: nat) {
    (forall id :: id in pending ==> id < next) && (forall id :: id in sent ==> id < next)
  }

  ghost predicate Tickets(s: System) {
    && Numbers(s.adapter.pending, s.sent, s.adapter.nextRequestId)
    && CallersFit(s.callers, s.adapter.pending, s.sent, Held(s.host))
    && Distinct(s.callers)
    && s.host.control.Keys !! s.host.pendingPrompts.Keys
    && WaitersFit(s.host.control, s.host.pendingPrompts, s.adapter.pending, s.adapter.nextRequestId, s.host.cores)
    && ReaderFits(s.reader, s.adapter.pending, s.sent, Held(s.host), s.host.cores)
  }

  // ------------------------------------------------------------ kinds of step

  /** Lane cores keep their owner. */
  predicate SameOwners(a: seq<LaneCore>, b: seq<LaneCore>) {
    |a| <= |b| && forall i :: 0 <= i < |a| ==> b[i].agentSession == a[i].agentSession
  }

  /** A host step that registers nobody. */
  ghost predicate Shrinks(h: Host, r: Host) {
    && r.control.Keys <= h.control.Keys && (forall id :: id in r.control ==> r.control[id] == h.control[id])
    && r.pendingPrompts.Keys <= h.pendingPrompts.Keys
    && SameOwners(h.cores, r.cores)
  }

  lemma HostShrinks(s: System, h: Host)
    requires Tickets(s) && Shrinks(s.host, h)
    ensures Tickets(s.(host := h))
  {
    var s' := s.(host := h);
    assert Held(h) <= Held(s.host);
    forall t | t in s.callers ensures CallerFits(s.callers[t], s.adapter.pending, s.sent, Held(h)) {
      assert CallerFits(s.callers[t], s.adapter.pending, s.sent, Held(s.host));
    }
    forall id | id in h.control
      ensures LaneFits(h.control[id], h.cores)
      ensures id in s.adapter.pending ==> WaiterFits(h.control[id], s.adapter.pending[id], h.cores)
    {
      assert id in s.adapter.pending ==> WaiterFits(s.host.control[id], s.adapter.pending[id], s.host.cores);
    }
  }

  /** A caller moves on with the request it had, or with none. */
  lemma CallerMoves(s: System, t: Thread, c: Caller)
    requires Tickets(s)
    requires Unsent(c).Some? ==> Unsent(c) == Unsent(At(s.callers, t))
    requires CallerFits(c, s.adapter.pending, s.sent, Held(s.host))
    ensures Tickets(Move(s, t, c))
  {
    var callers := s.callers[t := c];
    forall u, v | u in callers && v in callers && u != v && Unsent(callers[u]).Some?
      ensures Unsent(callers[u]) != Unsent(callers[v])
    {
    }
  }

  /** The adapter numbers a request for a caller. */
  lemma CallerIssues(s: System, t: Thread, what: Pending, c: Caller)
    requires Tickets(s)
    requires Unsent(c) == Some(s.adapter.nextRequestId) && Unregistered(c)
    requires c.IssuedControl? ==> RegistrationFits(c.registration, what)
    requires !c.IssuedControl? ==> what.Prompt?
    ensures Tickets(Move(s.(adapter := Request(s.adapter, what).adapter), t, c))
  {
    var id := s.adapter.nextRequestId;
    var pending := s.adapter.pending[id := what];
    var callers := s.callers[t := c];
    assert id !in s.sent && id !in s.adapter.pending;
    assert id !in Held(s.host);
    forall u | u in callers ensures CallerFits(callers[u], pending, s.sent, Held(s.host)) {
      if u != t {
        assert CallerFits(s.callers[u], s.adapter.pending, s.sent, Held(s.host));
      }
    }
    forall u, v | u in callers && v in callers && u != v && Unsent(callers[u]).Some?
      ensures Unsent(callers[u]) != Unsent(callers[v])
    {
      assert u != t ==> CallerFits(s.callers[u], s.adapter.pending, s.sent, Held(s.host));
      assert v != t ==> CallerFits(s.callers[v], s.adapter.pending, s.sent, Held(s.host));
    }
    ReaderSeesMore(s.reader, s.adapter.pending, id, what, s.sent, Held(s.host), s.host.cores);
  }

  lemma ReaderSeesMore(r: Reader, pending: map<nat, Pending>, id: nat, what: Pending, sent: set<nat>, held: set<nat>,
                       cores: seq<LaneCore>)
    requires ReaderFits(r, pending, sent, held, cores) && id !in pending && id !in sent
    ensures ReaderFits(r, pending[id := what], sent, held, cores)
  {
  }

  /** A caller's request becomes held by the host. */
  lemma HeldGrows(s: System, t: Thread, id: nat, c: Caller, held: set<nat>)
    requires Tickets(s) && t in s.callers
    requires Unregistered(s.callers[t]) && Unsent(s.callers[t]) == Some(id)
    requires held == Held(s.host) + {id}
    requires Unsent(c) == Some(id) && !Unregistered(c)
    requires CallerFits(c, s.adapter.pending, s.sent, held)
    ensures CallersFit(s.callers[t := c], s.adapter.pending, s.sent, held)
    ensures Distinct(s.callers[t := c])
    ensures ReaderFits(s.reader, s.adapter.pending, s.sent, held, s.host.cores)
  {
    assert CallerFits(s.callers[t], s.adapter.pending, s.sent, Held(s.host));
    forall u | u in s.callers && u != t ensures CallerFits(s.callers[u], s.adapter.pending, s.sent, held) {
      assert CallerFits(s.callers[u], s.adapter.pending, s.sent, Held(s.host));
      assert Unsent(s.callers[t]) != Unsent(s.callers[u]);
    }
  }

  lemma ReaderSeesCores(r: Reader, pending: map<nat, Pending>, sent: set<nat>, held: set<nat>,
                        a: seq<LaneCore>, b: seq<LaneCore>)
    requires ReaderFits(r, pending, sent, held, a) && SameOwners(a, b)
    ensures ReaderFits(r, pending, sent, held, b)
  {
  }

  function WaiterOf(h: Host, registration: Registration): Waiter {
    match registration
    case ForHandshake => Handshake
    case ForOpen(_, mode, requested) => OpenWaiter(|h.cores|, Loading(mode, requested))
  }

  function OwnLane(registration: Registration): seq<LaneCore> {
    match registration
    case ForHandshake => []
    case ForOpen(c, _, _) => [LaneCore(c, [], false)]
  }

  lemma AwaitLoadEffect(h: Host, lane: LaneId, loading: Option<NativeId>)
    ensures AwaitLoad(h, lane, loading) == h.(log := AwaitLoad(h, lane, loading).log)
  {
    match loading
    case None =>
    case Some(_) =>
  }

  lemma RegisterControlEffect(h: Host, token: nat, registration: Registration)
    requires !h.closed
    ensures var r := RegisterControl(h, token, registration);
            r == h.(control := h.control[token := WaiterOf(h, registration)],
                    cores := h.cores + OwnLane(registration),
                    log := r.log)
  {
    match registration
    case ForHandshake =>
      assert h.cores + [] == h.cores;
    case ForOpen(c, mode, requested) =>
      AwaitLoadEffect(h.(cores := h.cores + [LaneCore(c, [], false)]), |h.cores|, Loading(mode, requested));
  }

  lemma {:induction false} RegisterKeeps(s: System, t: Thread)
    requires Tickets(s)
    ensures Tickets(Register(s, t))
  {
    var c := At(s.callers, t);
    if c.IssuedControl? {
      if s.host.closed {
        CallerMoves(s, t, Idle);
      } else {
        var id := c.id;
        assert CallerFits(c, s.adapter.pending, s.sent, Held(s.host));
        RegisterControlEffect(s.host, id, c.registration);
        var h := RegisterControl(s.host, id, c.registration);
        assert Held(h) == Held(s.host) + {id};
        HeldGrows(s, t, id, RegisteredControl(id, c.registration), Held(h));
        ReaderSeesCores(s.reader, s.adapter.pending, s.sent, Held(h), s.host.cores, h.cores);
        forall i | i in h.control
          ensures LaneFits(h.control[i], h.cores)
          ensures i in s.adapter.pending ==> WaiterFits(h.control[i], s.adapter.pending[i], h.cores)
        {
          if i != id {
            assert i in s.adapter.pending ==> WaiterFits(s.host.control[i], s.adapter.pending[i], s.host.cores);
          }
        }
      }
    }
  }

  lemma {:induction false} RegisterPromptKeeps(s: System, t: Thread)
    requires Tickets(s)
    ensures Tickets(RegisterPrompt(s, t))
  {
    var c := At(s.callers, t);
    if c.ResolvedPrompt? {
      assert CallerFits(c, s.adapter.pending, s.sent, Held(s.host));
      if CanBegin(s.host, c.nativeId) {
        var h := BeginTurn(s.host, c.canonical, c.id, c.nativeId);
        assert Held(h) == Held(s.host) + {c.id};
        HeldGrows(s, t, c.id, RegisteredPrompt(c.id), Held(h));
      } else {
        CallerMoves(s, t, Idle);
      }
    }
  }

  lemma SendKeeps(s: System, t: Thread, ok: bool)
    requires Tickets(s)
    ensures Tickets(Send(s, t, ok))
  {
    var c := At(s.callers, t);
    if c.RegisteredControl? || c.RegisteredPrompt? {
      assert CallerFits(c, s.adapter.pending, s.sent, Held(s.host));
      var next := if c.RegisteredControl? && ok then Awaiting(c.id, c.registration) else Idle;
      if ok {
        var s1 := Move(s, t, Idle);
        CallerMoves(s, t, Idle);
        forall u | u in s1.callers ensures CallerFits(s1.callers[u], s.adapter.pending, s.sent + {c.id}, Held(s.host)) {
          assert CallerFits(s1.callers[u], s.adapter.pending, s.sent, Held(s.host));
          assert u != t ==> Unsent(s.callers[u]) != Unsent(s.callers[t]);
        }
        var s2 := s1.(sent := s.sent + {c.id});
        assert Tickets(s2);
        CallerMoves(s2, t, next);
        assert s.callers[t := Idle][t := next] == s.callers[t := next];
      } else {
        CallerMoves(s, t, Idle);
      }
    }
  }

  // ------------------------------------------------------------ reader steps

  lemma ReadKeeps(s: System, message: Message)
    requires Tickets(s) && Causal(s, DoRead(message))
    ensures Tickets(Read(s, message))
  {
    if s.reader.Reading? {
      var s' := Read(s, message);
      if message.Response? {
        assert Shrinks(s.host, s'.host);
        HostShrinks(s, s'.host);
      }
    }
  }

  lemma IngestEffect(a: Adapter, message: Message)
    ensures var r := Ingest(a, message).adapter;
            && r.nextRequestId == a.nextRequestId
            && r.pending == if Answers(message).Some? then a.pending - {Answers(message).value} else a.pending
  {
    if Answers(message).Some? && message.id in a.pending && message.reply.Reply? {
      match a.pending[message.id]
      case Initialize =>
      case Open(mode, canonical, requested) =>
      case Prompt(_) =>
    }
  }

  /** Identity through the adapter: an open that succeeds answers with one
      binding that carries the caller's own canonical ref, and load, resume and
      attach keep the id that was asked for. */
  lemma OpenKeepsIdentity(a: Adapter, id: nat, reply: Reply)
    requires id in a.pending && a.pending[id].Open?
    requires IngestResponse(a, id, reply).result.Ok?
    ensures var signals := IngestResponse(a, id, reply).result.value;
            && |signals| == 1 && signals[0].kind.SessionOpened?
            && signals[0].kind.binding.agentSession == a.pending[id].canonical
            && signals[0].nativeId == Some(signals[0].kind.binding.nativeId)
            && (a.pending[id].mode != Create ==> Some(signals[0].kind.binding.nativeId) == a.pending[id].requested)
            && (a.pending[id].mode == Create ==> reply.sessionId == Given(signals[0].kind.binding.nativeId))
  {
  }

  lemma InterpretKeeps(s: System)
    requires Tickets(s)
    ensures Tickets(Interpret(s))
  {
    if s.reader.Took? {
      var message, taken := s.reader.message, s.reader.taken;
      var s' := Interpret(s);
      IngestEffect(s.adapter, message);
      var pending := s'.adapter.pending;
      forall t | t in s.callers ensures CallerFits(s.callers[t], pending, s.sent, Held(s.host)) {
        assert CallerFits(s.callers[t], s.adapter.pending, s.sent, Held(s.host));
      }
      if taken.TookControl? && taken.waiter.OpenWaiter? && s'.reader.result.Ok? {
        OpenKeepsIdentity(s.adapter, taken.id, message.reply);
      }
    }
  }

  // --------------------------------------------------- host steps that shrink

  lemma AppendOwners(cores: seq<LaneCore>, lane: LaneId, event: HostEvent)
    ensures SameOwners(cores, Append(cores, lane, event))
  {
  }

  lemma {:induction false} FailAllEffect(h: Host, natives: seq<NativeId>, reason: string, full: set<LaneId>)
    ensures var r := FailAll(h, natives, reason, full);
            && SameOwners(h.cores, r.cores) && r.sessions == h.sessions
    decreases |natives|
  {
    if natives != [] {
      var h1 := FailAtStop(h, natives[0], reason, full);
      if natives[0] in h.turns {
        var record := FailRecord(h, natives[0], h.turns[natives[0]], reason);
        if natives[0] in h.lanes {
          AppendOwners(h.cores, h.lanes[natives[0]], TurnEnded(record));
        } else {
        }
      } else {
      }
      assert SameOwners(h.cores, h1.cores) && h1.sessions == h.sessions;
      FailAllEffect(h1, natives[1..], reason, full);
    }
  }

  lemma {:induction false} StopShrinks(h: Host, reason: string, deliberate: bool, full: set<LaneId>)
    ensures Shrinks(h, Stop(h, reason, deliberate, full))
    ensures Stop(h, reason, deliberate, full).closed
    ensures Stop(h, reason, deliberate, full).sessions == h.sessions
  {
    if !h.closed {
      FailAllEffect(h, Ascending(h.turns.Keys), reason, full);
    }
  }

  lemma {:induction false} DeliverShrinks(h: Host, lane: LaneId, event: HostEvent, stored: bool, full: set<LaneId>)
    ensures Shrinks(h, Deliver(h, lane, event, stored, full))
    ensures Deliver(h, lane, event, stored, full).sessions == h.sessions
  {
    StopShrinks(h, STORAGE_FAILED, false, full);
    AppendOwners(h.cores, lane, event);
  }

  lemma RouteShrinks(h: Host, signals: seq<Signal>)
    ensures Shrinks(h, Route(h, signals).host)
    ensures Route(h, signals).host.sessions == h.sessions
  {
    HostHistory.RouteFrame(h, signals);
  }

  lemma {:induction false} RegisterOpenEffect(h: Host, lane: LaneId, signals: seq<Signal>)
    ensures var r := RegisterOpen(h, lane, signals);
            && r.control == h.control && r.pendingPrompts == h.pendingPrompts && r.cores == h.cores
            && r.closed == h.closed && r.turns == h.turns && r.lastSequence == h.lastSequence
    decreases |signals|
  {
    if signals != [] {
      RegisterOpenEffect(RegisterBinding(h, lane, signals[0]), lane, signals[1..]);
    }
  }

  lemma FailTurnShrinks(h: Host, n: NativeId, reason: string)
    ensures Shrinks(h, FailTurn(h, n, reason).host)
    ensures FailTurn(h, n, reason).host.sessions == h.sessions
  {
    if n in h.turns {
    } else {
    }
  }

  /** A reader phase that claims nothing. */
  predicate Unburdened(r: Reader) {
    r.Reading? || r.Delivering? || r.Exited?
  }

  lemma ReaderMoves(s: System, h: Host, channel: map<nat, Answer>, r: Reader)
    requires Tickets(s) && Shrinks(s.host, h) && Unburdened(r)
    ensures Tickets(s.(host := h, channel := channel, reader := r))
  {
    HostShrinks(s, h);
  }

  lemma ActKeeps(s: System, full: set<LaneId>)
    requires Tickets(s)
    ensures Tickets(Act(s, full))
  {
    match s.reader
    case Interpreted(Err(_), taken) =>
      match taken {
        case TookControl(id, _) => ReaderMoves(s, s.host, s.channel[id := Failure], Reading);
        case TookPrompt(_, n) =>
          FailTurnShrinks(s.host, n, PROMPT_FAILED);
          var failed := FailTurn(s.host, n, PROMPT_FAILED);
          ReaderMoves(s, failed.host, s.channel, Delivering(failed.deliveries, []));
        case NoWaiter =>
          StopShrinks(s.host, UNREADABLE, false, full);
          ReaderMoves(s, Stop(s.host, UNREADABLE, false, full), s.channel, Exited);
      }
    case Interpreted(Ok(signals), TookControl(id, waiter)) =>
      var s' := Act(s, full);
      if waiter.OpenWaiter? {
        RegisterOpenEffect(s.host, waiter.lane, signals);
      }
      ReaderMoves(s, s'.host, s'.channel, Reading);
    case Interpreted(Ok(signals), TookPrompt(_, _)) => RouteAllKeeps(s, signals);
    case Interpreted(Ok(signals), NoWaiter) => RouteAllKeeps(s, signals);
    case _ =>
  }

  lemma RouteAllKeeps(s: System, signals: seq<Signal>)
    requires Tickets(s)
    ensures Tickets(RouteAll(s, signals))
  {
    RouteShrinks(s.host, signals);
    var routed := Route(s.host, signals);
    ReaderMoves(s, routed.host, s.channel, Delivering(routed.deliveries, routed.limited));
  }

  lemma DeliverKeeps(s: System, stored: bool, full: set<LaneId>)
    requires Tickets(s)
    ensures Tickets(DeliverNext(s, stored, full))
  {
    if s.reader.Delivering? && s.reader.queue != [] {
      var next := s.reader.queue[0];
      DeliverShrinks(s.host, next.lane, next.event, stored, full);
      var s' := DeliverNext(s, stored, full);
      ReaderMoves(s, Deliver(s.host, next.lane, next.event, stored, full), s.channel, s'.reader);
    } else {
    }
  }

  lemma CancelKeeps(s: System, ok: bool, full: set<LaneId>)
    requires Tickets(s)
    ensures Tickets(CancelLimited(s, ok, full))
  {
    match s.reader
    case Delivering(queue, limited) =>
      if queue != [] {
      } else if limited == [] {
        ReaderMoves(s, s.host, s.channel, Reading);
      } else if ok {
        ReaderMoves(s, s.host, s.channel, Delivering([], limited[1..]));
      } else {
        StopShrinks(s.host, UNREADABLE, false, full);
        ReaderMoves(s, Stop(s.host, UNREADABLE, false, full), s.channel, Reading);
      }
    case _ =>
  }

  // ------------------------------------------------------------- every action

  lemma LeaveKeeps(s: System, t: Thread, h: Host, channel: map<nat, Answer>)
    requires Tickets(s) && Shrinks(s.host, h)
    ensures Tickets(Leave(s.(host := h, channel := channel), t))
  {
    HostShrinks(s, h);
    CallerMoves(s.(host := h), t, Idle);
  }

  lemma {:induction false} AwaitingKeeps(s: System, t: Thread, full: set<LaneId>)
    requires Tickets(s)
    ensures Tickets(Receive(s, t)) && Tickets(TimeOut(s, t, full)) && Tickets(Disconnect(s, t))
  {
    match At(s.callers, t)
    case Awaiting(id, _) =>
      LeaveKeeps(s, t, s.host, s.channel - {id});
      StopShrinks(s.host, DEADLINE, false, full);
      LeaveKeeps(s, t, Stop(s.host, DEADLINE, false, full), s.channel);
      LeaveKeeps(s, t, Disconnected(s.host), s.channel);
    case _ =>
  }

  lemma {:induction false} OpeningKeeps(s: System, t: Thread, c: Ref, mode: SessionOpenMode,
                                        requested: Option<NativeId>, directories: bool)
    requires Tickets(s)
    ensures Tickets(StartHandshake(s, t)) && Tickets(StartOpen(s, t, c, mode, requested, directories))
            && Tickets(IssueOpen(s, t))
  {
    if At(s.callers, t) == Idle && s.gate.None? {
      CallerIssues(s.(gate := Some(t)), t, Initialize, IssuedControl(s.adapter.nextRequestId, ForHandshake));
      CallerMoves(s.(gate := Some(t)), t, Opening(c, mode, requested, directories));
    }
    match At(s.callers, t)
    case Opening(d, m, r, dirs) =>
      CallerMoves(s.(gate := None), t, Idle);
      CallerIssues(s, t, Open(m, Some(d), r), IssuedControl(s.adapter.nextRequestId, ForOpen(d, m, r)));
    case _ =>
  }

  lemma {:induction false} PromptingKeeps(s: System, t: Thread, c: Ref, n: NativeId)
    requires Tickets(s)
    ensures Tickets(StartPrompt(s, t, c, n)) && Tickets(IssuePrompt(s, t)) && Tickets(ResolvePrompt(s, t))
  {
    match At(s.callers, t)
    case Idle => CallerMoves(s, t, Prompting(c, n));
    case Prompting(d, m) => CallerIssues(s, t, Prompt(m), IssuedPrompt(s.adapter.nextRequestId, d));
    case IssuedPrompt(id, d) =>
      assert CallerFits(At(s.callers, t), s.adapter.pending, s.sent, Held(s.host));
      CallerMoves(s, t, Idle);
      if d in s.host.sessions {
        CallerMoves(s, t, ResolvedPrompt(id, d, s.host.sessions[d].nativeId));
      }
    case _ =>
  }

  lemma InterruptKeeps(s: System, t: Thread, c: Ref, reason: Option<string>)
    requires Tickets(s)
    ensures Tickets(Interrupt(s, t, c, reason))
  {
    if At(s.callers, t) == Idle && CanMark(s.host, c) {
      var h := MarkInterrupt(s.host, c, reason);
      assert Shrinks(s.host, h);
      HostShrinks(s, h);
      var n := s.host.sessions[c].nativeId;
      CallerMoves(s.(host := h), t, Interrupting(n, s.host.turns[n].lastSequence));
    }
  }

  lemma IssueCancelKeeps(s: System, t: Thread, commands: Option<seq<string>>)
    requires Tickets(s)
    ensures Tickets(IssueCancel(s, t, commands))
  {
    match At(s.callers, t)
    case Interrupting(n, at) =>
      var h := if commands.None? then s.host else FillInterrupt(s.host, n, at, commands.value);
      assert Shrinks(s.host, h);
      HostShrinks(s, h);
      CallerMoves(s.(host := h), t, Idle);
    case _ =>
  }

  lemma StopKeeps(s: System, reason: string, deliberate: bool, full: set<LaneId>)
    requires Tickets(s)
    ensures Tickets(StopNow(s, reason, deliberate, full))
  {
    StopShrinks(s.host, reason, deliberate, full);
    HostShrinks(s, Stop(s.host, reason, deliberate, full));
  }

  lemma {:induction false} ControlActionKeeps(s: System, a: Action)
    requires Tickets(s)
    requires ControlAction(a)
    ensures Tickets(Do(s, a))
  {
    match a
    case DoStartHandshake(t) => OpeningKeeps(s, t, "", Create, None, false);
    case DoStartOpen(t, c, mode, requested, directories) => OpeningKeeps(s, t, c, mode, requested, directories);
    case DoIssueOpen(t) => OpeningKeeps(s, t, "", Create, None, false);
    case DoRegister(t) => RegisterKeeps(s, t);
    case DoSend(t, ok) => SendKeeps(s, t, ok);
    case DoReceive(t) => AwaitingKeeps(s, t, {});
    case DoTimeOut(t, full) => AwaitingKeeps(s, t, full);
    case DoDisconnect(t) => AwaitingKeeps(s, t, {});
  }

  lemma {:induction false} PromptActionKeeps(s: System, a: Action)
    requires Tickets(s)
    requires a.DoStartPrompt? || a.DoIssuePrompt? || a.DoResolvePrompt? || a.DoRegisterPrompt?
    ensures Tickets(Do(s, a))
  {
    match a
    case DoStartPrompt(t, c, n) => PromptingKeeps(s, t, c, n);
    case DoIssuePrompt(t) => PromptingKeeps(s, t, "", 0);
    case DoResolvePrompt(t) => PromptingKeeps(s, t, "", 0);
    case DoRegisterPrompt(t) => RegisterPromptKeeps(s, t);
  }

  lemma {:induction false} TurnActionKeeps(s: System, a: Action)
    requires Tickets(s)
    requires TurnAction(a)
    ensures Tickets(Do(s, a))
  {
    match a
    case DoInterrupt(t, c, why) => InterruptKeeps(s, t, c, why);
    case DoIssueCancel(t, commands) => IssueCancelKeeps(s, t, commands);
    case DoStopBridge(reason, deliberate, full) => StopKeeps(s, reason, deliberate, full);
    case _ => PromptActionKeeps(s, a);
  }

  lemma {:induction false} ReaderActionKeeps(s: System, a: Action)
    requires Tickets(s) && Causal(s, a)
    requires !ControlAction(a) && !TurnAction(a)
    ensures Tickets(Do(s, a))
  {
    match a
    case DoRead(message) => ReadKeeps(s, message);
    case DoInterpret => InterpretKeeps(s);
    case DoAct(full) => ActKeeps(s, full);
    case DoDeliverNext(stored, full) => DeliverKeeps(s, stored, full);
    case DoCancelLimited(ok, full) => CancelKeeps(s, ok, full);
  }

  lemma DoKeepsTickets(s: System, a: Action)
    requires Tickets(s) && Causal(s, a)
    ensures Tickets(Do(s, a))
  {
    if ControlAction(a) {
      ControlActionKeeps(s, a);
    } else if TurnAction(a) {
      TurnActionKeeps(s, a);
    } else {
      ReaderActionKeeps(s, a);
    }
  }

  /** Every causal run: waiters and the adapter's memory stay in step. */
  lemma {:induction false} RunKeepsTickets(s: System, actions: seq<Action>)
    requires Tickets(s) && CausalRun(s, actions)
    ensures Tickets(RunSystem(s, actions))
    decreases |actions|
  {
    if actions != [] {
      DoKeepsTickets(s, actions[0]);
      RunKeepsTickets(Do(s, actions[0]), actions[1..]);
    }
  }

  /** In every causal run: control and prompt waiters are disjoint and for numbered
      requests, each of the kind the adapter remembers if it does (an open's lane
      belonging to the canonical session the request names), and registering never
      displaces a waiter. */
  lemma Correlation(limit: nat, actions: seq<Action>, id: nat, t: Thread)
    requires CausalRun(FreshSystem(limit), actions)
    ensures var s := RunSystem(FreshSystem(limit), actions);
            && !(id in s.host.control && id in s.host.pendingPrompts)
            && (id in s.host.control && id in s.adapter.pending ==>
                  WaiterFits(s.host.control[id], s.adapter.pending[id], s.host.cores))
            && (id in s.host.pendingPrompts && id in s.adapter.pending ==> s.adapter.pending[id].Prompt?)
            && (id in s.host.control || id in s.host.pendingPrompts ==> id < s.adapter.nextRequestId)
            && (Unregistered(At(s.callers, t)) ==> Unsent(At(s.callers, t)).value !in Held(s.host))
  {
    RunKeepsTickets(FreshSystem(limit), actions);
    var s := RunSystem(FreshSystem(limit), actions);
    if t in s.callers {
      assert CallerFits(s.callers[t], s.adapter.pending, s.sent, Held(s.host));
    }
  }

  /** The inclusion is strict: a prompt whose turn was refused stays in the
      adapter's memory with no waiter and no caller. */
  lemma RefusedPromptIsForgotten(s: System, t: Thread)
    requires Tickets(s)
    requires At(s.callers, t).ResolvedPrompt? && !CanBegin(s.host, At(s.callers, t).nativeId)
    ensures var id := At(s.callers, t).id;
            var r := RegisterPrompt(s, t);
            && id in r.adapter.pending && id !in Held(r.host) && id !in r.sent
            && forall u :: u in r.callers ==> Unsent(r.callers[u]) != Some(id)
  {
    assert CallerFits(s.callers[t], s.adapter.pending, s.sent, Held(s.host));
    var r := RegisterPrompt(s, t);
    forall u | u in r.callers ensures Unsent(r.callers[u]) != Unsent(s.callers[t]) {
    }
  }
}
