/** Identity and the control gate: in every causal run a canonical session is
    bound at most once and to itself, a woken opener finds its own binding, and a
    dropped sender means the bridge has stopped. */
module SystemIdentity {
  import opened Prelude
  import opened Connection
  import opened SessionHost
  import opened SessionSystem
  import opened SystemTickets
  import HostHistory

  // ------------------------------------------------------------ the invariant

  predicate Gated(c: Caller) {
    c.Opening? || c.IssuedControl? || c.RegisteredControl? || c.Awaiting?
  }

  /** The canonical session a registration will bind. */
  predicate Targets(r: Registration, sessions: map<Ref, Binding>) {
    r.ForOpen? && r.canonical in sessions
  }

  predicate Serves(w: Waiter, r: Registration, cores: seq<LaneCore>) {
    match r
    case ForHandshake => w.Handshake?
    case ForOpen(c, mode, requested) =>
      w.OpenWaiter? && w.lane < |cores| && cores[w.lane].agentSession == c && w.loading == Loading(mode, requested)
  }

  /** An open's signals as asked: its own canonical session, and in every mode but create the id
      that was requested. */
  predicate OpensAs(signals: seq<Signal>, c: Ref, mode: SessionOpenMode, requested: Option<NativeId>) {
    OpensFor(signals, c, None) && (mode != Create ==> requested == Some(signals[0].kind.binding.nativeId))
  }

  predicate AnswerServes(a: Answer, r: Registration) {
    a.Signals? && r.ForOpen? ==> OpensAs(a.signals, r.canonical, r.mode, r.requested)
  }

  /** A prompt in hand goes to the native session its canonical session is bound to. */
  predicate PromptStands(pending: map<nat, Pending>, sessions: map<Ref, Binding>, id: nat, c: Ref) {
    c in sessions && id in pending && pending[id] == Prompt(sessions[c].nativeId)
  }

  predicate CallerStands(s: System, t: Thread, c: Caller) {
    && (Gated(c) ==> s.gate == Some(t))
    && match c
       case Opening(d, _, _, _) => s.host.closed || d !in s.host.sessions
       case IssuedControl(_, r) => s.host.closed || !Targets(r, s.host.sessions)
       case RegisteredControl(id, r) =>
         s.host.closed
         || (id in s.host.control && Serves(s.host.control[id], r, s.host.cores) && !Targets(r, s.host.sessions))
       case Awaiting(id, r) =>
         && (id in s.host.control ==> Serves(s.host.control[id], r, s.host.cores) && !Targets(r, s.host.sessions))
         && (InHand(s.reader, id) ==> Serves(s.reader.taken.waiter, r, s.host.cores))
         && (InHand(s.reader, id) && s.reader.Interpreted? && s.reader.result.Ok? ==>
               AnswerServes(Signals(s.reader.result.value), r))
         && (id in s.channel ==> AnswerServes(s.channel[id], r))
         && (s.host.closed || !SenderDropped(s, id))
       case Prompting(d, n) => d in s.host.sessions && s.host.sessions[d].nativeId == n
       case IssuedPrompt(id, d) => PromptStands(s.adapter.pending, s.host.sessions, id, d)
       case ResolvedPrompt(id, d, n) =>
         PromptStands(s.adapter.pending, s.host.sessions, id, d) && s.host.sessions[d].nativeId == n
       case _ => true
  }

  ghost predicate CallersStand(s: System) {
    forall t :: t in s.callers ==> CallerStands(s, t, s.callers[t])
  }

  predicate AwaitsAtGate(callers: map<Thread, Caller>, gate: Option<Thread>, id: nat) {
    gate.Some? && At(callers, gate.value).Awaiting? && At(callers, gate.value).id == id
  }

  /** An open waiter whose request was sent has its opener waiting at the gate. */
  ghost predicate SentStand(s: System) {
    forall id :: id in s.host.control && id in s.sent && s.host.control[id].OpenWaiter? ==>
      AwaitsAtGate(s.callers, s.gate, id)
  }

  /** An open waiter in the reader's hand is for a session not bound yet. */
  predicate HandStands(s: System) {
    (s.reader.Took? || s.reader.Interpreted?) && s.reader.taken.TookControl? && s.reader.taken.waiter.OpenWaiter? ==>
      && s.reader.taken.waiter.lane < |s.host.cores|
      && s.host.cores[s.reader.taken.waiter.lane].agentSession !in s.host.sessions
      && (s.host.closed || AwaitsAtGate(s.callers, s.gate, s.reader.taken.id))
  }

  /** Prompt waiters name the native session the request was addressed to. */
  ghost predicate PromptsStand(s: System) {
    && (forall id :: id in s.host.pendingPrompts && id in s.adapter.pending ==>
          s.adapter.pending[id] == Prompt(s.host.pendingPrompts[id]))
    && (s.reader.Took? && s.reader.taken.TookPrompt? && s.reader.taken.id in s.adapter.pending ==>
          s.adapter.pending[s.reader.taken.id] == Prompt(s.reader.taken.nativeId))
  }

  /** An answer is for a request that was sent and is nobody's to answer any more. */
  ghost predicate ChannelStands(s: System) {
    forall id :: id in s.channel ==> id in s.sent && id !in Held(s.host) && !InHand(s.reader, id)
  }

  predicate Emptied(h: Host) {
    h.closed ==> h.control == map[] && h.pendingPrompts == map[]
  }

  ghost predicate Selves(sessions: map<Ref, Binding>) {
    forall c :: c in sessions ==> sessions[c].agentSession == Some(c)
  }

  ghost predicate Residency(s: System) {
    && CallersStand(s)
    && SentStand(s)
    && HandStands(s)
    && PromptsStand(s)
    && ChannelStands(s)
    && Emptied(s.host)
    && Selves(s.host.sessions)
  }

  // ------------------------------------------------------------ kinds of step

  /** A host step that binds nobody: control stands still unless the bridge stops. */
  ghost predicate Calm(h: Host, r: Host) {
    && Shrinks(h, r)
    && r.sessions == h.sessions
    && (h.closed ==> r.closed)
    && (r.closed ==> r.control == map[] && r.pendingPrompts == map[])
    && (!r.closed ==> r.control == h.control)
  }

  lemma CalmStep(s: System, h: Host)
    requires Tickets(s) && Residency(s) && Calm(s.host, h)
    requires forall id :: id in h.pendingPrompts ==> h.pendingPrompts[id] == s.host.pendingPrompts[id]
    ensures Residency(s.(host := h))
  {
    var s' := s.(host := h);
    forall t | t in s.callers ensures CallerStands(s', t, s.callers[t]) {
      assert CallerStands(s, t, s.callers[t]);
      match s.callers[t]
      case RegisteredControl(id, r) =>
      case Awaiting(id, r) =>
      case _ =>
    }
  }

  /** A caller changes place outside the gate. */
  lemma UngatedMove(s: System, t: Thread, c: Caller)
    requires Residency(s) && !Gated(c) && !Gated(At(s.callers, t))
    requires CallerStands(s, t, c)
    ensures Residency(Move(s, t, c))
  {
    var s' := Move(s, t, c);
    forall u | u in s'.callers ensures CallerStands(s', u, s'.callers[u]) {
      if u != t {
        assert CallerStands(s, u, s.callers[u]);
      }
    }
    MoveKeepsGate(s, t, c);
  }

  lemma MoveKeepsGate(s: System, t: Thread, c: Caller)
    requires !Gated(At(s.callers, t))
    requires SentStand(s) && HandStands(s)
    ensures SentStand(Move(s, t, c)) && HandStands(Move(s, t, c))
  {
    forall id | AwaitsAtGate(s.callers, s.gate, id) ensures AwaitsAtGate(Move(s, t, c).callers, s.gate, id) {
    }
  }

  /** The caller at the gate changes place, and was not waiting for an answer. */
  lemma GatedMove(s: System, t: Thread, c: Caller, gate: Option<Thread>)
    requires Residency(s)
    requires s.gate == None || s.gate == Some(t)
    requires !At(s.callers, t).Awaiting?
    requires CallerStands(s.(gate := gate), t, c)
    requires c.Awaiting? ==> gate == Some(t)
    ensures Residency(Move(s.(gate := gate), t, c))
  {
    var s' := Move(s.(gate := gate), t, c);
    forall u | u in s'.callers ensures CallerStands(s', u, s'.callers[u]) {
      if u != t {
        assert CallerStands(s, u, s.callers[u]);
        assert !Gated(s.callers[u]);
      }
    }
    NobodyAwaits(s, t);
  }

  lemma NobodyAwaits(s: System, t: Thread)
    requires s.gate == None || s.gate == Some(t)
    requires !At(s.callers, t).Awaiting?
    ensures forall id :: !AwaitsAtGate(s.callers, s.gate, id)
  {
  }

  /** The caller at the gate leaves it; its request, if it had one, is settled. */
  lemma GateFreed(s: System, t: Thread)
    requires Tickets(s) && Residency(s) && s.gate == Some(t)
    requires At(s.callers, t).Awaiting? ==>
               var id := At(s.callers, t).id;
               s.host.closed || (id !in s.host.control && !InHand(s.reader, id))
    ensures Residency(Leave(s, t))
  {
    var s' := Leave(s, t);
    forall u | u in s'.callers ensures CallerStands(s', u, s'.callers[u]) {
      if u != t {
        assert CallerStands(s, u, s.callers[u]);
        assert !Gated(s.callers[u]);
      }
    }
  }

  /** A prompt's request has no control waiter. */
  lemma PromptIsNotControl(s: System, id: nat)
    requires Tickets(s) && id in s.adapter.pending && s.adapter.pending[id].Prompt?
    ensures id !in s.host.control
  {
  }

  lemma PendingGrows(s: System, what: Pending)
    requires Tickets(s) && Residency(s)
    ensures Residency(s.(adapter := Request(s.adapter, what).adapter))
  {
    var s' := s.(adapter := Request(s.adapter, what).adapter);
    forall t | t in s.callers ensures CallerStands(s', t, s.callers[t]) {
      assert CallerStands(s, t, s.callers[t]);
    }
  }

  // ---------------------------------------------------------- caller actions

  lemma StartHandshakeResides(s: System, t: Thread)
    requires Tickets(s) && Residency(s)
    ensures Residency(StartHandshake(s, t))
  {
    if At(s.callers, t) == Idle && s.gate.None? {
      var issued := Request(s.adapter, Initialize);
      PendingGrows(s, Initialize);
      GatedMove(s.(adapter := issued.adapter), t, IssuedControl(issued.id, ForHandshake), Some(t));
    }
  }

  lemma StartOpenResides(s: System, t: Thread, c: Ref, mode: SessionOpenMode, requested: Option<NativeId>,
                         directories: bool)
    requires Tickets(s) && Residency(s)
    ensures Residency(StartOpen(s, t, c, mode, requested, directories))
  {
    if At(s.callers, t) == Idle && s.gate.None? && c !in s.host.sessions {
      GatedMove(s, t, Opening(c, mode, requested, directories), Some(t));
    }
  }

  lemma IssueOpenResides(s: System, t: Thread)
    requires Tickets(s) && Residency(s)
    ensures Residency(IssueOpen(s, t))
  {
    match At(s.callers, t)
    case Opening(c, mode, requested, directories) =>
      assert CallerStands(s, t, s.callers[t]);
      match OpenSession(s.adapter, mode, Some(c), requested, directories) {
        case Err(_) => GateFreed(s, t);
        case Ok(issued) =>
          PendingGrows(s, Open(mode, Some(c), requested));
          GatedMove(s.(adapter := issued.adapter), t, IssuedControl(issued.id, ForOpen(c, mode, requested)), Some(t));
      }
    case _ =>
  }

  lemma {:induction false} RegisterResides(s: System, t: Thread)
    requires Tickets(s) && Residency(s)
    ensures Residency(Register(s, t))
  {
    match At(s.callers, t)
    case IssuedControl(id, r) =>
      assert CallerStands(s, t, s.callers[t]);
      if s.host.closed {
        GateFreed(s, t);
      } else {
        RegisterAtGate(s, t, id, r);
      }
    case _ =>
  }

  lemma {:induction false} RegisterAtGate(s: System, t: Thread, id: nat, r: Registration)
    requires Tickets(s) && Residency(s) && !s.host.closed
    requires At(s.callers, t) == IssuedControl(id, r)
    ensures Residency(Move(s.(host := RegisterControl(s.host, id, r)), t, RegisteredControl(id, r)))
  {
    var h := RegisterControl(s.host, id, r);
    var s' := Move(s.(host := h), t, RegisteredControl(id, r));
    RegisterControlEffect(s.host, id, r);
    assert CallerStands(s, t, s.callers[t]);
    assert CallerFits(s.callers[t], s.adapter.pending, s.sent, Held(s.host));
    forall u | u in s'.callers ensures CallerStands(s', u, s'.callers[u]) {
      if u != t {
        assert CallerStands(s, u, s.callers[u]);
        assert !Gated(s.callers[u]);
      }
    }
    NobodyAwaits(s, t);
    assert Held(h) == Held(s.host) + {id};
  }

  lemma {:induction false} SendResides(s: System, t: Thread, ok: bool)
    requires Tickets(s) && Residency(s)
    ensures Residency(Send(s, t, ok))
  {
    match At(s.callers, t)
    case RegisteredControl(id, r) =>
      assert CallerStands(s, t, s.callers[t]);
      if ok { SendAtGate(s, t, id, r); } else { GateFreed(s, t); }
    case RegisteredPrompt(id) =>
      assert CallerFits(s.callers[t], s.adapter.pending, s.sent, Held(s.host));
      UngatedMove(s, t, Idle);
      if ok {
        var s1 := Move(s, t, Idle);
        PromptIsNotControl(s, id);
        forall u | u in s1.callers ensures CallerStands(s1.(sent := s.sent + {id}), u, s1.callers[u]) {
          assert CallerStands(s1, u, s1.callers[u]);
        }
      }
    case _ =>
  }

  lemma SendAtGate(s: System, t: Thread, id: nat, r: Registration)
    requires Tickets(s) && Residency(s)
    requires At(s.callers, t) == RegisteredControl(id, r)
    ensures Residency(Move(s.(sent := s.sent + {id}), t, Awaiting(id, r)))
  {
    var s' := Move(s.(sent := s.sent + {id}), t, Awaiting(id, r));
    assert CallerStands(s, t, s.callers[t]);
    assert CallerFits(s.callers[t], s.adapter.pending, s.sent, Held(s.host));
    forall u | u in s'.callers ensures CallerStands(s', u, s'.callers[u]) {
      if u != t {
        assert CallerStands(s, u, s.callers[u]);
        assert !Gated(s.callers[u]);
      }
    }
    NobodyAwaits(s, t);
    assert AwaitsAtGate(s'.callers, s'.gate, id);
  }

  lemma ReceiveResides(s: System, t: Thread)
    requires Tickets(s) && Residency(s)
    ensures Residency(Receive(s, t))
  {
    match At(s.callers, t)
    case Awaiting(id, _) =>
      if id in s.channel {
        assert CallerStands(s, t, s.callers[t]);
        GateFreed(s, t);
        var s1 := Leave(s, t);
        var s2 := s1.(channel := s.channel - {id});
        forall u | u in s2.callers ensures CallerStands(s2, u, s2.callers[u]) {
          assert CallerStands(s1, u, s1.callers[u]);
        }
      }
    case _ =>
  }

  lemma StopCalm(h: Host, reason: string, deliberate: bool, full: set<LaneId>)
    requires Emptied(h)
    ensures Calm(h, Stop(h, reason, deliberate, full))
  {
    StopShrinks(h, reason, deliberate, full);
  }

  lemma {:induction false} TimeOutResides(s: System, t: Thread, full: set<LaneId>)
    requires Tickets(s) && Residency(s)
    ensures Residency(TimeOut(s, t, full))
  {
    match At(s.callers, t)
    case Awaiting(_, _) =>
      assert CallerStands(s, t, s.callers[t]);
      StopCalm(s.host, DEADLINE, false, full);
      StopShrinks(s.host, DEADLINE, false, full);
      var h := Stop(s.host, DEADLINE, false, full);
      CalmStep(s, h);
      HostShrinks(s, h);
      GateFreed(s.(host := h), t);
    case _ =>
  }

  /** A caller sees its sender dropped only after a stop: `control_disconnected`
      never closes a bridge that was running. */
  lemma DroppedSenderMeansStopped(s: System, t: Thread)
    requires Tickets(s) && Residency(s)
    requires At(s.callers, t).Awaiting? && SenderDropped(s, At(s.callers, t).id)
    ensures s.host.closed && Disconnected(s.host) == s.host
  {
    assert CallerStands(s, t, s.callers[t]);
  }

  lemma DisconnectResides(s: System, t: Thread)
    requires Tickets(s) && Residency(s)
    ensures Residency(Disconnect(s, t))
  {
    match At(s.callers, t)
    case Awaiting(id, _) =>
      if SenderDropped(s, id) {
        assert CallerStands(s, t, s.callers[t]);
        DroppedSenderMeansStopped(s, t);
        GateFreed(s, t);
      }
    case _ =>
  }

  lemma {:induction false} PromptingResides(s: System, t: Thread, c: Ref, n: NativeId)
    requires Tickets(s) && Residency(s)
    ensures Residency(StartPrompt(s, t, c, n)) && Residency(IssuePrompt(s, t)) && Residency(ResolvePrompt(s, t))
  {
    match At(s.callers, t)
    case Idle =>
      if c in s.host.sessions && s.host.sessions[c].nativeId == n {
        UngatedMove(s, t, Prompting(c, n));
      }
    case Prompting(d, m) =>
      assert CallerStands(s, t, s.callers[t]);
      PendingGrows(s, Prompt(m));
      UngatedMove(s.(adapter := Request(s.adapter, Prompt(m)).adapter), t, IssuedPrompt(s.adapter.nextRequestId, d));
    case IssuedPrompt(id, d) =>
      assert CallerStands(s, t, s.callers[t]);
      UngatedMove(s, t, Idle);
      UngatedMove(s, t, ResolvedPrompt(id, d, s.host.sessions[d].nativeId));
    case _ =>
  }

  lemma {:induction false} RegisterPromptResides(s: System, t: Thread)
    requires Tickets(s) && Residency(s)
    ensures Residency(RegisterPrompt(s, t))
  {
    match At(s.callers, t)
    case ResolvedPrompt(id, c, n) =>
      assert CallerStands(s, t, s.callers[t]);
      assert CallerFits(s.callers[t], s.adapter.pending, s.sent, Held(s.host));
      if CanBegin(s.host, n) {
        var h := BeginTurn(s.host, c, id, n);
        var s1 := s.(host := h);
        assert Held(h) == Held(s.host) + {id};
        forall u | u in s.callers ensures CallerStands(s1, u, s.callers[u]) {
          assert CallerStands(s, u, s.callers[u]);
        }
        UngatedMove(s1, t, RegisteredPrompt(id));
      } else {
        UngatedMove(s, t, Idle);
      }
    case _ =>
  }

  lemma InterruptResides(s: System, t: Thread, c: Ref, reason: Option<string>)
    requires Tickets(s) && Residency(s)
    ensures Residency(Interrupt(s, t, c, reason))
  {
    if At(s.callers, t) == Idle && CanMark(s.host, c) {
      var h := MarkInterrupt(s.host, c, reason);
      CalmStep(s, h);
      var n := s.host.sessions[c].nativeId;
      UngatedMove(s.(host := h), t, Interrupting(n, s.host.turns[n].lastSequence));
    }
  }

  lemma IssueCancelResides(s: System, t: Thread, commands: Option<seq<string>>)
    requires Tickets(s) && Residency(s)
    ensures Residency(IssueCancel(s, t, commands))
  {
    match At(s.callers, t)
    case Interrupting(n, at) =>
      var h := if commands.None? then s.host else FillInterrupt(s.host, n, at, commands.value);
      assert Calm(s.host, h);
      CalmStep(s, h);
      UngatedMove(s.(host := h), t, Idle);
    case _ =>
  }

  // ---------------------------------------------------------- reader actions

  lemma ReadResides(s: System, message: Message)
    requires Tickets(s) && Residency(s) && Causal(s, DoRead(message))
    ensures Residency(Read(s, message))
  {
    if s.reader.Reading? {
      var s' := Read(s, message);
      forall t | t in s.callers ensures CallerStands(s', t, s.callers[t]) {
        assert CallerStands(s, t, s.callers[t]);
      }
      if s'.reader.taken.TookControl? && s'.reader.taken.waiter.OpenWaiter? {
        assert AwaitsAtGate(s.callers, s.gate, message.id);
        assert CallerStands(s, s.gate.value, s.callers[s.gate.value]);
        assert LaneFits(s.host.control[message.id], s.host.cores);
      }
    }
  }

  /** What the adapter makes of a response to the request a caller waits for is what it asked. */
  lemma AnswersAsAsked(s: System, id: nat, r: Registration)
    requires Tickets(s) && s.reader.Took? && InHand(s.reader, id)
    requires id in s.adapter.pending ==> RegistrationFits(r, s.adapter.pending[id])
    requires Ingest(s.adapter, s.reader.message).result.Ok?
    ensures AnswerServes(Signals(Ingest(s.adapter, s.reader.message).result.value), r)
  {
    assert s.reader.message.Response? && s.reader.message.id == id;
    if r.ForOpen? {
      OpenKeepsIdentity(s.adapter, id, s.reader.message.reply);
    }
  }

  lemma InterpretResides(s: System)
    requires Tickets(s) && Residency(s)
    ensures Residency(Interpret(s))
  {
    if s.reader.Took? {
      var s' := Interpret(s);
      IngestEffect(s.adapter, s.reader.message);
      forall t | t in s.callers ensures CallerStands(s', t, s.callers[t]) {
        assert CallerStands(s, t, s.callers[t]);
        assert CallerFits(s.callers[t], s.adapter.pending, s.sent, Held(s.host));
        if s.callers[t].Awaiting? && InHand(s.reader, s.callers[t].id) && s'.reader.result.Ok? {
          AnswersAsAsked(s, s.callers[t].id, s.callers[t].registration);
        }
      }
    }
  }

  /** The reader answers the request it took the waiter of. */
  lemma AnswerSent(s: System, id: nat, answer: Answer)
    requires Tickets(s) && Residency(s)
    requires s.reader.Interpreted? && InHand(s.reader, id)
    requires forall t :: t in s.callers && s.callers[t].Awaiting? && s.callers[t].id == id ==>
               AnswerServes(answer, s.callers[t].registration)
    ensures Residency(s.(channel := s.channel[id := answer], reader := Reading))
  {
    var s' := s.(channel := s.channel[id := answer], reader := Reading);
    forall t | t in s.callers ensures CallerStands(s', t, s.callers[t]) {
      assert CallerStands(s, t, s.callers[t]);
    }
  }

  /** What registering the one binding of an open does. */
  lemma RegisterOpenOne(h: Host, lane: LaneId, signals: seq<Signal>)
    requires |signals| == 1 && signals[0].kind.SessionOpened? && lane < |h.cores|
    ensures var b := signals[0].kind.binding;
            RegisterOpen(h, lane, signals)
              == h.(lanes := h.lanes[b.nativeId := lane],
                    sessions := h.sessions[h.cores[lane].agentSession := b],
                    log := After(h.log, Bound(lane, b.nativeId)))
  {
    assert RegisterOpen(h, lane, signals) == RegisterOpen(RegisterBinding(h, lane, signals[0]), lane, signals[1..]);
  }

  /** Binding the canonical session of the open waiter in hand, and waking its opener. */
  lemma OpenRegistered(s: System, id: nat, lane: LaneId, loading: Option<NativeId>, signals: seq<Signal>)
    requires Tickets(s) && Residency(s)
    requires s.reader == Interpreted(Ok(signals), TookControl(id, OpenWaiter(lane, loading)))
    ensures Residency(ResolveWaiter(s, id, OpenWaiter(lane, loading), signals))
  {
    RegisterOpenOne(s.host, lane, signals);
    var s' := ResolveWaiter(s, id, OpenWaiter(lane, loading), signals);
    assert Held(s'.host) == Held(s.host);
    forall t | t in s.callers ensures CallerStands(s', t, s.callers[t]) {
      assert CallerStands(s, t, s.callers[t]);
      assert Gated(s.callers[t]) && !s.host.closed ==> s.callers[t].Awaiting? && s.callers[t].id == id;
    }
  }

  lemma ResolveResides(s: System, id: nat, waiter: Waiter, signals: seq<Signal>)
    requires Tickets(s) && Residency(s)
    requires s.reader == Interpreted(Ok(signals), TookControl(id, waiter))
    ensures Residency(ResolveWaiter(s, id, waiter, signals))
  {
    forall t | t in s.callers && s.callers[t].Awaiting? && s.callers[t].id == id
      ensures AnswerServes(Signals(signals), s.callers[t].registration)
    {
      assert CallerStands(s, t, s.callers[t]);
    }
    match waiter
    case Handshake => AnswerSent(s, id, Signals(signals));
    case OpenWaiter(lane, loading) =>
      OpenRegistered(s, id, lane, loading, signals);
  }

  /** The reader moves on from a message that had no control waiter. */
  lemma ReaderTurns(s: System, h: Host, r: Reader)
    requires Tickets(s) && Residency(s) && Calm(s.host, h) && Unburdened(r)
    requires forall id :: id in h.pendingPrompts ==> h.pendingPrompts[id] == s.host.pendingPrompts[id]
    requires forall id :: !InHand(s.reader, id)
    ensures Residency(s.(host := h, reader := r))
  {
    CalmStep(s, h);
    var s1 := s.(host := h);
    var s' := s1.(reader := r);
    forall t | t in s.callers ensures CallerStands(s', t, s.callers[t]) {
      assert CallerStands(s1, t, s.callers[t]);
    }
  }

  lemma RouteAllResides(s: System, signals: seq<Signal>)
    requires Tickets(s) && Residency(s)
    requires forall id :: !InHand(s.reader, id)
    ensures Residency(RouteAll(s, signals))
  {
    RouteShrinks(s.host, signals);
    HostHistory.RouteFrame(s.host, signals);
    var routed := Route(s.host, signals);
    ReaderTurns(s, routed.host, Delivering(routed.deliveries, routed.limited));
  }

  lemma FailTurnCalm(h: Host, n: NativeId, reason: string)
    requires Emptied(h)
    ensures var r := FailTurn(h, n, reason).host;
            Calm(h, r) && r.pendingPrompts == h.pendingPrompts
  {
    FailTurnShrinks(h, n, reason);
    if n in h.turns {
    } else {
    }
  }

  lemma ActResides(s: System, full: set<LaneId>)
    requires Tickets(s) && Residency(s)
    ensures Residency(Act(s, full))
  {
    match s.reader
    case Interpreted(Err(_), taken) =>
      match taken {
        case TookControl(id, _) => AnswerSent(s, id, Failure);
        case TookPrompt(_, n) =>
          FailTurnCalm(s.host, n, PROMPT_FAILED);
          var failed := FailTurn(s.host, n, PROMPT_FAILED);
          ReaderTurns(s, failed.host, Delivering(failed.deliveries, []));
        case NoWaiter =>
          StopCalm(s.host, UNREADABLE, false, full);
          ReaderTurns(s, Stop(s.host, UNREADABLE, false, full), Exited);
      }
    case Interpreted(Ok(signals), TookControl(id, waiter)) => ResolveResides(s, id, waiter, signals);
    case Interpreted(Ok(signals), TookPrompt(_, _)) => RouteAllResides(s, signals);
    case Interpreted(Ok(signals), NoWaiter) => RouteAllResides(s, signals);
    case _ =>
  }

  lemma {:induction false} DeliverCalm(h: Host, lane: LaneId, event: HostEvent, stored: bool, full: set<LaneId>)
    requires Emptied(h)
    ensures Calm(h, Deliver(h, lane, event, stored, full))
    ensures forall id :: id in Deliver(h, lane, event, stored, full).pendingPrompts ==>
              id in h.pendingPrompts && Deliver(h, lane, event, stored, full).pendingPrompts[id] == h.pendingPrompts[id]
  {
    if Refuses(h, lane, stored) {
      StopCalm(h, STORAGE_FAILED, false, full);
    } else {
      AppendOwners(h.cores, lane, event);
    }
  }

  lemma {:induction false} DeliverResides(s: System, stored: bool, full: set<LaneId>)
    requires Tickets(s) && Residency(s)
    ensures Residency(DeliverNext(s, stored, full))
  {
    if s.reader.Delivering? && s.reader.queue != [] {
      var next := s.reader.queue[0];
      DeliverCalm(s.host, next.lane, next.event, stored, full);
      var s' := DeliverNext(s, stored, full);
      ReaderTurns(s, Deliver(s.host, next.lane, next.event, stored, full), s'.reader);
    } else {
    }
  }

  lemma {:induction false} CancelResides(s: System, ok: bool, full: set<LaneId>)
    requires Tickets(s) && Residency(s)
    ensures Residency(CancelLimited(s, ok, full))
  {
    match s.reader
    case Delivering(queue, limited) =>
      if queue != [] {
      } else if limited == [] {
        ReaderTurns(s, s.host, Reading);
      } else if ok {
        ReaderTurns(s, s.host, Delivering([], limited[1..]));
      } else {
        StopCalm(s.host, UNREADABLE, false, full);
        ReaderTurns(s, Stop(s.host, UNREADABLE, false, full), Reading);
      }
    case _ =>
  }

  lemma {:induction false} StopResides(s: System, reason: string, deliberate: bool, full: set<LaneId>)
    requires Tickets(s) && Residency(s)
    ensures Residency(StopNow(s, reason, deliberate, full))
  {
    StopCalm(s.host, reason, deliberate, full);
    CalmStep(s, Stop(s.host, reason, deliberate, full));
  }

  // ------------------------------------------------------------- every action

  lemma {:induction false} ControlActionResides(s: System, a: Action)
    requires Tickets(s) && Residency(s) && ControlAction(a)
    ensures Residency(Do(s, a))
  {
    match a
    case DoStartHandshake(t) => StartHandshakeResides(s, t);
    case DoStartOpen(t, c, mode, requested, directories) => StartOpenResides(s, t, c, mode, requested, directories);
    case DoIssueOpen(t) => IssueOpenResides(s, t);
    case DoRegister(t) => RegisterResides(s, t);
    case DoSend(t, ok) => SendResides(s, t, ok);
    case DoReceive(t) => ReceiveResides(s, t);
    case DoTimeOut(t, full) => TimeOutResides(s, t, full);
    case DoDisconnect(t) => DisconnectResides(s, t);
  }

  lemma {:induction false} PromptActionResides(s: System, a: Action)
    requires Tickets(s) && Residency(s)
    requires a.DoStartPrompt? || a.DoIssuePrompt? || a.DoResolvePrompt? || a.DoRegisterPrompt?
    ensures Residency(Do(s, a))
  {
    match a
    case DoStartPrompt(t, c, n) => PromptingResides(s, t, c, n);
    case DoIssuePrompt(t) => PromptingResides(s, t, "", 0);
    case DoResolvePrompt(t) => PromptingResides(s, t, "", 0);
    case DoRegisterPrompt(t) => RegisterPromptResides(s, t);
  }

  lemma {:induction false} TurnActionResides(s: System, a: Action)
    requires Tickets(s) && Residency(s) && TurnAction(a)
    ensures Residency(Do(s, a))
  {
    match a
    case DoInterrupt(t, c, why) => InterruptResides(s, t, c, why);
    case DoIssueCancel(t, commands) => IssueCancelResides(s, t, commands);
    case DoStopBridge(reason, deliberate, full) => StopResides(s, reason, deliberate, full);
    case _ => PromptActionResides(s, a);
  }

  lemma ReaderActionResides(s: System, a: Action)
    requires Tickets(s) && Residency(s) && Causal(s, a)
    requires !ControlAction(a) && !TurnAction(a)
    ensures Residency(Do(s, a))
  {
    match a
    case DoRead(message) => ReadResides(s, message);
    case DoInterpret => InterpretResides(s);
    case DoAct(full) => ActResides(s, full);
    case DoDeliverNext(stored, full) => DeliverResides(s, stored, full);
    case DoCancelLimited(ok, full) => CancelResides(s, ok, full);
  }

  lemma {:induction false} DoResides(s: System, a: Action)
    requires Tickets(s) && Residency(s) && Causal(s, a)
    ensures Tickets(Do(s, a)) && Residency(Do(s, a))
  {
    DoKeepsTickets(s, a);
    if ControlAction(a) {
      ControlActionResides(s, a);
    } else if TurnAction(a) {
      TurnActionResides(s, a);
    } else {
      ReaderActionResides(s, a);
    }
  }

  lemma {:induction false} RunResides(s: System, actions: seq<Action>)
    requires Tickets(s) && Residency(s) && CausalRun(s, actions)
    ensures Tickets(RunSystem(s, actions)) && Residency(RunSystem(s, actions))
    decreases |actions|
  {
    if actions != [] {
      DoResides(s, actions[0]);
      RunResides(Do(s, actions[0]), actions[1..]);
    }
  }
}
