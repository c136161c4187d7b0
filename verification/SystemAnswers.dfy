/** What the provider's messages become: the signals the adapter makes of them, and how a turn whose
    prompt is answered ends. */
module SystemAnswers {
  import opened Prelude
  import opened Connection
  import opened SessionHost
  import opened SessionSystem
  import opened SystemTickets
  import opened SystemIdentity
  import opened SystemOrder
  import opened SystemRecords
  import opened HostHistory
  import opened HostTheorems
  import opened HostRouting

  // ------------------------------------------------------- what a message becomes

  predicate AnswersPending(a: Adapter, message: Message) {
    Answers(message).Some? && Answers(message).value in a.pending
  }

  function ReplyOf(message: Message): Reply
    requires Answers(message).Some?
  {
    message.reply
  }

  /** The result is one signal, with the next number, naming this native id. */
  predicate OneSignal(a: Adapter, r: Ingested, n: Option<NativeId>) {
    && r.result.Ok? && |r.result.value| == 1 && r.adapter.nextSequence == a.nextSequence + 1
    && r.result.value[0].sequence == a.nextSequence && r.result.value[0].nativeId == n
  }

  /** Why a prompt's turn stopped, as its answer tells: with no reason given the turn has ended. */
  function ReasonGiven(reply: Reply): string
    requires reply.Reply?
  {
    match reply.stopReason
    case None => "end_turn"
    case Some(reason) => reason
  }

  /** An answer to a prompt that is no error is one signal for the prompted session: cancelled exactly
      when the provider says so, else completed with the provider's reason. */
  lemma PromptAnswerIsOneSignal(a: Adapter, message: Message)
    requires AnswersPending(a, message) && a.pending[Answers(message).value].Prompt? && ReplyOf(message).Reply?
    ensures var r := Ingest(a, message);
            && OneSignal(a, r, Some(a.pending[Answers(message).value].nativeId))
            && (r.result.value[0].kind == Cancelled <==> ReplyOf(message).stopReason == Some("cancelled"))
            && (ReplyOf(message).stopReason != Some("cancelled") ==>
                  r.result.value[0].kind == Completed(ReasonGiven(ReplyOf(message))))
  {
  }

  /** Whatever the answer says, its request is forgotten and no other; a refusal makes no signal and
      changes nothing else. */
  lemma AnswersAreUsedUp(a: Adapter, message: Message)
    requires Answers(message).Some?
    ensures var r, id := Ingest(a, message), Answers(message).value;
            && r.adapter.pending == a.pending - {id} && r.adapter.nextRequestId == a.nextRequestId
            && (id !in a.pending ==> r.adapter == a && r.result == Err(UnknownResponse))
            && (id in a.pending && ReplyOf(message).RemoteError? ==> r.result == Err(Remote))
            && (r.result.Err? ==> r.adapter == a.(pending := a.pending - {id}))
  {
    if Answers(message).value !in a.pending {
      assert a.pending - {Answers(message).value} == a.pending;
    }
  }

  /** An initialize answer is accepted exactly when it speaks the stable version, and then the modes
      are creation and those it advertises, with directories as it says. */
  lemma InitializeAnswerNegotiates(a: Adapter, message: Message)
    requires AnswersPending(a, message) && a.pending[Answers(message).value].Initialize? && ReplyOf(message).Reply?
    ensures var r, reply := Ingest(a, message), ReplyOf(message);
            && (r.result.Ok? <==> reply.protocolVersion == Some(1))
            && (r.result.Ok? ==> OneSignal(a, r, None) && r.result.value[0].kind.Update?)
            && (reply.protocolVersion.None? ==> r.result == Err(InvalidInitialize))
            && (reply.protocolVersion.Some? && reply.protocolVersion.value != 1 ==>
                  r.result == Err(UnsupportedProtocol))
            && (r.result.Ok? ==> r.adapter.additionalDirectories == reply.directories)
            && (r.result.Ok? ==> forall m :: m in r.adapter.sessionOpen <==>
                  m == Create || (m in reply.advertised && (m == Load || m == Resume)))
  {
  }

  /** The answer to an open is well formed for what was asked. */
  predicate OpenFits(mode: SessionOpenMode, requested: Option<NativeId>, reply: Reply)
    requires reply.Reply?
  {
    && reply.sessionObject && !reply.sessionId.Malformed? && reply.modelsReadable
    && match mode
       case Create => reply.sessionId.Given?
       case _ => requested.Some? && (reply.sessionId.Given? ==> reply.sessionId.id == requested.value)
  }

  /** It names another id than the one asked for. */
  predicate Contradicts(mode: SessionOpenMode, requested: Option<NativeId>, reply: Reply)
    requires reply.Reply?
  {
    reply.sessionObject && mode != Create && requested.Some? && reply.sessionId.Given?
    && reply.sessionId.id != requested.value
  }

  /** An open's answer is one opened signal exactly when it fits: for the id given by the provider when
      the session was created, and else the id asked for. A contradicted id is refused as such. */
  lemma OpenAnswerIsOneSignal(a: Adapter, message: Message)
    requires AnswersPending(a, message) && a.pending[Answers(message).value].Open? && ReplyOf(message).Reply?
    ensures var r, reply, asked := Ingest(a, message), ReplyOf(message), a.pending[Answers(message).value];
            && (r.result.Ok? <==> OpenFits(asked.mode, asked.requested, reply))
            && (r.result.Ok? ==>
                  var n := if asked.mode == Create then reply.sessionId.id else asked.requested.value;
                  && OneSignal(a, r, Some(n))
                  && r.result.value[0].kind == SessionOpened(Binding(n, asked.canonical, asked.mode)))
            && (Contradicts(asked.mode, asked.requested, reply) ==> r.result == Err(SessionIdentityChanged))
  {
  }

  /** Notifications and permission requests are one signal for the session they name, of their own
      kind, and refused when they name none; other methods are passed over and the rest is refused. */
  lemma OtherMessagesSpeakForTheirSession(a: Adapter, message: Message)
    requires Answers(message).None?
    ensures var r := Ingest(a, message);
            && r.adapter.pending == a.pending && r.adapter.sessionOpen == a.sessionOpen
            && (message.OtherMethod? ==> r.result == Ok([]) && r.adapter == a)
            && (message.Unreadable? ==> r.result == Err(InvalidMessage) && r.adapter == a)
            && (message.SessionUpdate? || message.SessionCancel? || message.PermissionRequest? ==>
                  (message.session.None? ==> r.result == Err(InvalidMessage) && r.adapter == a)
                  && (message.session.Some? ==> OneSignal(a, r, message.session))
                  && (message.session.Some? && message.SessionUpdate? ==>
                        r.result.value[0].kind == Update(message.text))
                  && (message.session.Some? ==> (Terminal(r.result.value[0].kind) <==> message.SessionCancel?))
                  && (message.session.Some? && message.SessionCancel? ==> r.result.value[0].kind == Cancelled))
  {
  }

  // ----------------------------------------------------- from answer to record

  predicate ReaderAction(a: Action) {
    a.DoRead? || a.DoInterpret? || a.DoAct? || a.DoDeliverNext? || a.DoCancelLimited?
  }

  lemma CallersLeaveReader(s: System, a: Action)
    requires !ReaderAction(a)
    ensures Do(s, a).reader == s.reader
  {
    if ControlAction(a) {
    } else {
      assert TurnAction(a);
    }
  }

  lemma {:induction false} RunLeavesReader(s: System, actions: seq<Action>)
    requires forall a :: a in actions ==> !ReaderAction(a)
    ensures RunSystem(s, actions).reader == s.reader
    decreases |actions|
  {
    if actions != [] {
      CallersLeaveReader(s, actions[0]);
      RunLeavesReader(Do(s, actions[0]), actions[1..]);
    }
  }

  /** How a turn stops when this answer closes it: the limit wins, then what the provider says. */
  predicate StopsAsAnswered(stop: TurnStop, limited: Option<nat>, reply: Reply)
    requires reply.Reply?
  {
    match limited
    case Some(max) => stop == OperationalLimit(max)
    case None =>
      if reply.stopReason == Some("cancelled") then stop == CancelledStop
      else stop == CompletedStop(ReasonGiven(reply))
  }

  /** Routing a terminal signal for a native id with a lane and a turn in flight. */
  lemma {:induction false} TerminalEndsTurn(h: Host, signal: Signal, n: NativeId)
    requires signal.nativeId == Some(n) && Terminal(signal.kind) && n in h.lanes && n in h.turns
    ensures var r := Route(h, [signal]).host;
            && n !in r.turns && r.log.After? && r.log.earlier == After(h.log, Routed(Some(h.lanes[n]), signal))
            && r.log.entry.Ended? && r.log.entry.nativeId == n && r.log.entry.serial == h.turns[n].serial
            && r.log.entry.cause == ByWire(signal) && r.log.entry.to == Some(h.lanes[n])
            && r.log.entry.record.stop == WireStop(h.turns[n], signal.kind)
            && r.log.entry.record.agentSession == h.turns[n].agentSession
  {
    var h2 := Observe(Advance(h, signal.sequence), n, h.lanes[n], signal);
    assert h2.turns[n] == CountSignal(h.turns[n], signal.sequence);
    assert h2.log == After(h.log, Routed(Some(h.lanes[n]), signal));
    assert Settle(h2, n, h.lanes[n], signal) == CloseByWire(h2, n, h.lanes[n], signal);
    assert RouteOne(h, signal) == CloseByWire(h2, n, h.lanes[n], signal);
    assert [signal][1..] == [];
    assert Route(h, [signal]).host == RouteOne(h, signal).host;
  }

  /** The reader holds the answer to a prompt that the adapter remembers, and it is no error. */
  predicate PromptAnswerInHand(s: System) {
    && s.reader.Took? && s.reader.taken.TookPrompt? && s.reader.taken.id in s.adapter.pending
    && AnswersPending(s.adapter, s.reader.message) && ReplyOf(s.reader.message).Reply?
  }

  /** The reader is about to route one terminal signal for n, which stops any turn as this answer says. */
  ghost predicate AnswerReady(r: Reader, n: NativeId, reply: Reply)
    requires reply.Reply?
  {
    && r.Interpreted? && r.taken.TookPrompt? && r.result.Ok? && |r.result.value| == 1
    && r.result.value[0].nativeId == Some(n) && Terminal(r.result.value[0].kind)
    && forall turn: ActiveTurn :: StopsAsAnswered(WireStop(turn, r.result.value[0].kind), turn.operationalLimit, reply)
  }

  lemma {:induction false} AnswerInterpreted(s: System)
    requires Healthy(s) && PromptAnswerInHand(s)
    ensures Interpret(s).host == s.host
    ensures AnswerReady(Interpret(s).reader, s.reader.taken.nativeId, ReplyOf(s.reader.message))
  {
    PromptAnswerIsOneSignal(s.adapter, s.reader.message);
    assert s.adapter.pending[s.reader.taken.id] == Prompt(s.reader.taken.nativeId);
    assert Answers(s.reader.message) == Some(s.reader.taken.id);
  }

  /** What the record of a turn in flight looks like once this answer has closed it. */
  predicate ClosedAsAnswered(h: Host, r: Host, n: NativeId, reply: Reply)
    requires n in h.turns && n in h.lanes && reply.Reply?
  {
    && n !in r.turns && r.log.After? && r.log.entry.Ended?
    && r.log.entry.nativeId == n && r.log.entry.serial == h.turns[n].serial && r.log.entry.to == Some(h.lanes[n])
    && r.log.entry.record.agentSession == h.turns[n].agentSession
    && StopsAsAnswered(r.log.entry.record.stop, h.turns[n].operationalLimit, reply)
  }

  lemma {:induction false} ActOnAnswer(s: System, full: set<LaneId>, n: NativeId, reply: Reply)
    requires reply.Reply? && AnswerReady(s.reader, n, reply) && n in s.host.turns && n in s.host.lanes
    ensures ClosedAsAnswered(s.host, Do(s, DoAct(full)).host, n, reply)
  {
    var signals := s.reader.result.value;
    assert signals == [signals[0]];
    TerminalEndsTurn(s.host, signals[0], n);
    assert Do(s, DoAct(full)).host == Route(s.host, signals).host;
  }

  lemma {:induction false} TurnsHaveLanes(s: System, between: seq<Action>, n: NativeId)
    requires Healthy(s) && Sound(s.host) && Naming(s.host, false) && CausalRun(s, between)
    ensures n in RunSystem(s, between).host.turns ==> n in RunSystem(s, between).host.lanes
  {
    RunNaming(s, between, false);
    if n in RunSystem(s, between).host.turns {
      TurnHasLane(RunSystem(s, between).host, n, false);
    }
  }

  lemma {:induction false} AnsweredFrom(s: System, i: System, between: seq<Action>, full: set<LaneId>)
    requires Healthy(i) && Sound(i.host) && Naming(i.host, false) && CausalRun(i, between)
    requires s.reader.Took? && s.reader.taken.TookPrompt? && Answers(s.reader.message).Some?
    requires ReplyOf(s.reader.message).Reply?
    requires AnswerReady(i.reader, s.reader.taken.nativeId, ReplyOf(s.reader.message))
    requires forall a :: a in between ==> !ReaderAction(a)
    ensures var m, n := RunSystem(i, between), s.reader.taken.nativeId;
            n in m.host.turns ==>
              n in m.host.lanes && ClosedAsAnswered(m.host, Do(m, DoAct(full)).host, n, ReplyOf(s.reader.message))
  {
    var m, n := RunSystem(i, between), s.reader.taken.nativeId;
    TurnsHaveLanes(i, between, n);
    RunLeavesReader(i, between);
    if n in m.host.turns {
      ActOnAnswer(m, full, n, ReplyOf(s.reader.message));
    }
  }

  lemma {:induction false} ReachedAndInterpreted(limit: nat, earlier: seq<Action>, s: System)
    requires CausalRun(FreshSystem(limit), earlier) && s == RunSystem(FreshSystem(limit), earlier)
    ensures Healthy(s) && Healthy(Interpret(s)) && Sound(Interpret(s).host) && Naming(Interpret(s).host, false)
  {
    FreshHealthy(limit);
    FreshSound(limit);
    RunHealthy(FreshSystem(limit), earlier);
    RunSoundHost(FreshSystem(limit), earlier);
    RunNaming(FreshSystem(limit), earlier, false);
    assert Do(s, DoInterpret) == Interpret(s);
    DoHealthy(s, DoInterpret);
    DoNaming(s, DoInterpret, false);
  }

  /** In every causal run: the reader holds a prompt's answer, any other threads run in between, and
      when the reader acts on it the turn in flight on that session ends, with a record on its lane that
      stopped as the answer says unless its limit had been reached. */
  lemma {:induction false} AnsweredTurnStopsAsAnswered(limit: nat, earlier: seq<Action>, s: System,
                                                       between: seq<Action>, full: set<LaneId>)
    requires CausalRun(FreshSystem(limit), earlier) && s == RunSystem(FreshSystem(limit), earlier)
    requires PromptAnswerInHand(s) && CausalRun(Interpret(s), between)
    requires forall a :: a in between ==> !ReaderAction(a)
    ensures var m, n := RunSystem(Interpret(s), between), s.reader.taken.nativeId;
            n in m.host.turns ==>
              n in m.host.lanes && ClosedAsAnswered(m.host, Do(m, DoAct(full)).host, n, ReplyOf(s.reader.message))
  {
    ReachedAndInterpreted(limit, earlier, s);
    AnswerInterpreted(s);
    AnsweredFrom(s, Interpret(s), between, full);
  }

  lemma {:induction false} RunSoundHost(s: System, actions: seq<Action>)
    requires Healthy(s) && Sound(s.host) && CausalRun(s, actions)
    ensures Sound(RunSystem(s, actions).host)
    decreases |actions|
  {
    if actions != [] {
      var m := Do(s, actions[0]);
      RegionExplains(s, actions[0]);
      if Region(s, actions[0]).Some? {
        RegionAdmissible(s, actions[0]);
        ApplySound(s.host, Region(s, actions[0]).value);
      }
      DoHealthy(s, actions[0]);
      RunSoundHost(m, actions[1..]);
    }
  }

  // ------------------------------------------------------- what failures come to

  /** A stop that took effect: the host is stopped and, unless it was before, says this is why. */
  predicate BrokenFor(h: Host, r: Host, reason: string) {
    r.closed && (!h.closed ==> r.transportError == Some(reason) && r.turns == map[] && r.lanes == map[])
  }

  lemma {:induction false} FailAllEmpties(h: Host, natives: seq<NativeId>, reason: string, full: set<LaneId>)
    requires forall n :: n in h.turns ==> n in natives
    ensures FailAll(h, natives, reason, full).turns == map[]
  {
    var r := FailAll(h, natives, reason, full);
    assert forall n :: n !in r.turns;
  }

  lemma StopBreaks(h: Host, reason: string, full: set<LaneId>)
    ensures BrokenFor(h, Stop(h, reason, false, full), reason)
  {
    FailAllEmpties(h, Ascending(h.turns.Keys), reason, full);
  }

  /** What the adapter refuses goes to whoever the response was taken from: to the caller as a failure, or
      to the prompt's turn, which then has failed; and with nobody to tell it breaks the bridge. */
  lemma {:induction false} RefusalsGoWhereTheyBelong(s: System, full: set<LaneId>)
    requires s.reader.Interpreted? && s.reader.result.Err?
    ensures var r := Do(s, DoAct(full));
            match s.reader.taken
            case TookControl(id, _) =>
              r.host == s.host && r.reader.Reading? && id in r.channel && r.channel[id] == Failure
            case TookPrompt(_, n) =>
              && n !in r.host.turns
              && (n in s.host.turns ==>
                    && r.host.log.After? && r.host.log.entry.Ended? && r.host.log.entry.nativeId == n
                    && r.host.log.entry.record.stop == FailedStop(PROMPT_FAILED)
                    && r.reader.Delivering? && r.reader.limited == []
                    && (n in s.host.lanes ==>
                          r.reader.queue == [Delivery(s.host.lanes[n], TurnEnded(r.host.log.entry.record))]))
            case NoWaiter => r.reader.Exited? && BrokenFor(s.host, r.host, UNREADABLE)
  {
    match s.reader.taken
    case TookControl(_, _) =>
    case TookPrompt(_, n) => if n in s.host.turns {} else {}
    case NoWaiter => StopBreaks(s.host, UNREADABLE, full);
  }

  /** Accepted control answers go to the caller that waits, once what they open is bound. */
  lemma {:induction false} AnswersReachTheirCaller(s: System, full: set<LaneId>)
    requires s.reader.Interpreted? && s.reader.result.Ok? && s.reader.taken.TookControl?
    ensures var r, id := Do(s, DoAct(full)), s.reader.taken.id;
            r.reader.Reading? && id in r.channel && r.channel[id] == Signals(s.reader.result.value)
            && (s.reader.taken.waiter.Handshake? ==> r.host == s.host)
  {
  }

  /** A caller past its deadline breaks the bridge and lets go of the gate; so does a cancel that cannot
      be sent; a request that cannot be written leaves the bridge and its waiter as they are. */
  lemma {:induction false} FailuresBreakTheBridge(s: System, t: Thread, full: set<LaneId>)
    ensures At(s.callers, t).Awaiting? ==>
              var r := Do(s, DoTimeOut(t, full));
              BrokenFor(s.host, r.host, DEADLINE) && At(r.callers, t) == Idle && r.gate.None?
    ensures s.reader.Delivering? && s.reader.queue == [] && s.reader.limited != [] ==>
              var r := Do(s, DoCancelLimited(false, full));
              BrokenFor(s.host, r.host, UNREADABLE) && r.reader.Reading?
    ensures At(s.callers, t).RegisteredControl? || At(s.callers, t).RegisteredPrompt? ==>
              var r := Do(s, DoSend(t, false));
              r.host == s.host && r.sent == s.sent && At(r.callers, t) == Idle
  {
    StopBreaks(s.host, DEADLINE, full);
    StopBreaks(s.host, UNREADABLE, full);
  }
}
