/** Which opens the adapter accepts: exactly those the provider's last accepted negotiation allows. */
module SystemNegotiation {
  import opened Prelude
  import opened Connection
  import opened SessionHost
  import opened SessionSystem
  import opened SystemAnswers

  /** The negotiation this action accepts, if it accepts one. */
  function Accepts(s: System, a: Action): Option<Reply> {
    if a.DoInterpret? && s.reader.Took? && AnswersPending(s.adapter, s.reader.message)
       && s.adapter.pending[Answers(s.reader.message).value].Initialize?
       && ReplyOf(s.reader.message).Reply? && ReplyOf(s.reader.message).protocolVersion == Some(1)
    then Some(ReplyOf(s.reader.message)) else None
  }

  /** The last one accepted in a run, or the one before it. */
  function LastAccepted(s: System, actions: seq<Action>, before: Option<Reply>): Option<Reply>
    decreases |actions|
  {
    if actions == [] then before
    else
      var now := if Accepts(s, actions[0]).Some? then Accepts(s, actions[0]) else before;
      LastAccepted(Do(s, actions[0]), actions[1..], now)
  }

  /** Creation needs nothing of the provider, loading what it advertises as loading, and both resuming
      and attaching what it advertises as resuming. */
  predicate Offers(reply: Option<Reply>, mode: SessionOpenMode)
    requires reply.Some? ==> reply.value.Reply?
  {
    match mode
    case Create => true
    case Load => reply.Some? && Load in reply.value.advertised
    case Resume => reply.Some? && Resume in reply.value.advertised
    case Attach => reply.Some? && Resume in reply.value.advertised
  }

  predicate OffersDirectories(reply: Option<Reply>)
    requires reply.Some? ==> reply.value.Reply?
  {
    reply.Some? && reply.value.directories
  }

  /** What an open must have: its mode offered, directories too if it wants them, and an id to open
      unless it creates. */
  predicate Allowed(reply: Option<Reply>, mode: SessionOpenMode, requested: Option<NativeId>, directories: bool)
    requires reply.Some? ==> reply.value.Reply?
  {
    Offers(reply, mode) && (directories ==> OffersDirectories(reply)) && (mode != Create ==> requested.Some?)
  }

  /** The adapter's capabilities are those of this negotiation. */
  predicate Reflects(a: Adapter, reply: Option<Reply>) {
    && (reply.Some? ==> reply.value.Reply?)
    && (Create in a.sessionOpen && Attach !in a.sessionOpen)
    && (Load in a.sessionOpen <==> Offers(reply, Load)) && (Resume in a.sessionOpen <==> Offers(reply, Resume))
    && (a.additionalDirectories <==> OffersDirectories(reply))
  }

  predicate SameModes(a: Adapter, b: Adapter) {
    a.sessionOpen == b.sessionOpen && a.additionalDirectories == b.additionalDirectories
  }

  lemma {:induction false} OthersKeepModes(s: System, a: Action)
    requires !a.DoInterpret?
    ensures SameModes(s.adapter, Do(s, a).adapter)
  {
    if ControlAction(a) {
    } else if TurnAction(a) {
    } else {
      match a
      case DoAct(_) =>
      case _ =>
    }
  }

  lemma {:induction false} AnswerKeepsModes(a: Adapter, id: nat, reply: Reply)
    requires !(id in a.pending && a.pending[id].Initialize? && reply.Reply?)
    ensures SameModes(a, IngestResponse(a, id, reply).adapter)
  {
    if id in a.pending && reply.Reply? {
      match a.pending[id]
      case Open(_, _, _) =>
      case Prompt(_) =>
    }
  }

  lemma {:induction false} InterpretReflects(s: System, reply: Option<Reply>)
    requires Reflects(s.adapter, reply)
    ensures Reflects(Interpret(s).adapter, if Accepts(s, DoInterpret).Some? then Accepts(s, DoInterpret) else reply)
  {
    if s.reader.Took? {
      var message := s.reader.message;
      if AnswersPending(s.adapter, message) && s.adapter.pending[Answers(message).value].Initialize?
         && ReplyOf(message).Reply? {
        InitializeAnswerNegotiates(s.adapter, message);
        AnswersAreUsedUp(s.adapter, message);
      } else {
        match message
        case Response(id, answer) => AnswerKeepsModes(s.adapter, id, answer);
        case MarkedResponse(id, answer) => AnswerKeepsModes(s.adapter, id, answer);
        case _ => OtherMessagesSpeakForTheirSession(s.adapter, message);
      }
    }
  }

  lemma {:induction false} RunReflects(s: System, actions: seq<Action>, before: Option<Reply>)
    requires Reflects(s.adapter, before)
    ensures Reflects(RunSystem(s, actions).adapter, LastAccepted(s, actions, before))
    decreases |actions|
  {
    if actions != [] {
      if actions[0].DoInterpret? {
        InterpretReflects(s, before);
      } else {
        OthersKeepModes(s, actions[0]);
      }
      RunReflects(Do(s, actions[0]), actions[1..],
                  if Accepts(s, actions[0]).Some? then Accepts(s, actions[0]) else before);
    }
  }

  /** In every run from the start, the open a caller issues next is numbered and remembered exactly when
      the last negotiation accepted offers its mode, and directories if it wants them, and it names a
      native id unless it creates one; else the caller leaves and the adapter is as it was. */
  lemma {:induction false} OpensFollowTheNegotiation(limit: nat, earlier: seq<Action>, t: Thread, c: Ref,
                                                     mode: SessionOpenMode, requested: Option<NativeId>,
                                                     directories: bool)
    requires At(RunSystem(FreshSystem(limit), earlier).callers, t) == Opening(c, mode, requested, directories)
    ensures var s := RunSystem(FreshSystem(limit), earlier);
            var r, reply := Do(s, DoIssueOpen(t)), LastAccepted(FreshSystem(limit), earlier, None);
            && (reply.Some? ==> reply.value.Reply?)
            && if Allowed(reply, mode, requested, directories)
               then At(r.callers, t) == IssuedControl(s.adapter.nextRequestId, ForOpen(c, mode, requested))
                    && r.adapter.pending == s.adapter.pending[s.adapter.nextRequestId := Open(mode, Some(c), requested)]
               else At(r.callers, t) == Idle && r.gate.None? && r.adapter == s.adapter
  {
    RunReflects(FreshSystem(limit), earlier, None);
    var s := RunSystem(FreshSystem(limit), earlier);
    IssueFollows(s, t, c, mode, requested, directories, LastAccepted(FreshSystem(limit), earlier, None));
  }

  lemma {:induction false} IssueFollows(s: System, t: Thread, c: Ref, mode: SessionOpenMode,
                                        requested: Option<NativeId>, directories: bool, reply: Option<Reply>)
    requires Reflects(s.adapter, reply) && At(s.callers, t) == Opening(c, mode, requested, directories)
    ensures var r := Do(s, DoIssueOpen(t));
            if Allowed(reply, mode, requested, directories)
            then At(r.callers, t) == IssuedControl(s.adapter.nextRequestId, ForOpen(c, mode, requested))
                 && r.adapter.pending == s.adapter.pending[s.adapter.nextRequestId := Open(mode, Some(c), requested)]
            else At(r.callers, t) == Idle && r.gate.None? && r.adapter == s.adapter
  {
    match mode
    case Create =>
    case Load =>
    case Resume =>
    case Attach =>
  }

  /** Which refusal an open meets, by what the provider lacks first: the mode, then directories, then
      an id to open. */
  lemma RefusalsInOrder(a: Adapter, reply: Option<Reply>, mode: SessionOpenMode, canonical: Option<Ref>,
                        requested: Option<NativeId>, directories: bool)
    requires Reflects(a, reply)
    ensures var r := OpenSession(a, mode, canonical, requested, directories);
            && (r == Err(SessionOperationUnsupported) <==> !Offers(reply, mode))
            && (r == Err(AdditionalDirectoriesUnsupported) <==>
                  Offers(reply, mode) && directories && !OffersDirectories(reply))
            && (r == Err(NativeSessionIdRequired) <==>
                  Offers(reply, mode) && (directories ==> OffersDirectories(reply))
                  && mode != Create && requested.None?)
            && (r.Ok? <==> Allowed(reply, mode, requested, directories))
  {
    match mode
    case Create =>
    case Load =>
    case Resume =>
    case Attach =>
  }
}
