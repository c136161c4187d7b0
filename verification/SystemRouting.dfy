/** Routing and limits in runs of the whole system: every signal goes to the lane it belongs to, and
    every turn that ran into its limit is taken up to be cancelled, once and in order. */
module SystemRouting {
  import opened Prelude
  import opened Connection
  import opened SessionHost
  import opened SessionSystem
  import opened SystemOrder
  import opened SystemBindings
  import opened HostHistory
  import opened HostRouting
  import opened HostEntries

  /** It names nobody, or a native id that no lane is bound to and no opener awaits. */
  predicate Homeless(lanes: map<NativeId, LaneId>, control: map<nat, Waiter>, signal: Signal) {
    signal.nativeId.None? || (signal.nativeId.value !in lanes && !Awaited(control, signal.nativeId.value))
  }

  lemma {:induction false} NobodysIffHomeless(
      lanes: map<NativeId, LaneId>, control: map<nat, Waiter>, signal: Signal, to: Option<LaneId>)
    requires Belongs(lanes, control, signal, to)
    ensures to.None? <==> Homeless(lanes, control, signal)
  {
  }

  lemma NobodysAreHomeless(lanes: map<NativeId, LaneId>, control: map<nat, Waiter>, sent: seq<Sent>)
    requires AllBelong(lanes, control, sent)
    ensures forall i :: 0 <= i < |sent| ==> (sent[i].to.None? <==> Homeless(lanes, control, sent[i].signal))
  {
    forall i | 0 <= i < |sent| ensures sent[i].to.None? <==> Homeless(lanes, control, sent[i].signal) {
      NobodysIffHomeless(lanes, control, sent[i].signal, sent[i].to);
    }
  }

  lemma {:induction false} StepRoutes(s: System, a: Action) returns (sent: seq<Sent>)
    ensures Routings(Do(s, a).host.log) == Routings(s.host.log) + sent && AllBelong(s.host.lanes, s.host.control, sent)
    ensures sent != [] ==> Do(s, a).reader.Delivering? && Carried(Do(s, a).reader.queue) == Attributed(sent)
  {
    var op := Region(s, a);
    RegionExplains(s, a);
    if op.Some? && op.value.DoRoute? {
      sent := BatchGoesWhereItBelongs(s.host, op.value.signals);
      RouterDelivers(s, a);
    } else {
      sent := [];
      assert Routings(s.host.log) + [] == Routings(s.host.log);
      if op.Some? {
        RegionWritesItsOwn(s.host, op.value);
        OnlyRoutingRoutes(op.value, s.host.log, Do(s, a).host.log);
      }
    }
  }

  /** In every causal run, the next action of anybody: the signals it routes, if it routes any, go where
      they belong by the lanes bound and the openers waiting then; the reader is left to deliver exactly
      those that belong somewhere, each to its lane; and the rest are those that name nobody there. */
  lemma {:induction false} EverySignalGoesWhereItBelongs(limit: nat, earlier: seq<Action>, a: Action)
    returns (sent: seq<Sent>)
    requires CausalRun(FreshSystem(limit), earlier + [a])
    ensures var s := RunSystem(FreshSystem(limit), earlier);
            var r := Do(s, a);
            && Routings(r.host.log) == Routings(s.host.log) + sent
            && AllBelong(s.host.lanes, s.host.control, sent)
            && (sent != [] ==> r.reader.Delivering? && Carried(r.reader.queue) == Attributed(sent))
            && forall i :: 0 <= i < |sent| ==>
                 (sent[i].to.None? <==> Homeless(s.host.lanes, s.host.control, sent[i].signal))
  {
    var s := RunSystem(FreshSystem(limit), earlier);
    sent := StepRoutes(s, a);
    NobodysAreHomeless(s.host.lanes, s.host.control, sent);
  }

  lemma RouterDelivers(s: System, a: Action)
    requires Region(s, a).Some? && Region(s, a).value.DoRoute?
    ensures var routed := Route(s.host, Region(s, a).value.signals);
            Do(s, a).reader == Delivering(routed.deliveries, routed.limited) && !s.reader.Delivering?
  {
    match a
    case DoAct(_) =>
    case _ =>
  }

  // ------------------------------------------------------- limited, so cancelled

  /** The turns the reader still has to cancel. */
  function ToCancel(r: Reader): seq<NativeId> {
    if r.Delivering? then r.limited else []
  }

  /** The turn this action takes up to cancel. */
  function TakenUp(s: System, a: Action): seq<NativeId> {
    if a.DoCancelLimited? && s.reader.Delivering? && s.reader.queue == [] && s.reader.limited != []
    then [s.reader.limited[0]] else []
  }

  function AllTakenUp(s: System, actions: seq<Action>): seq<NativeId>
    decreases |actions|
  {
    if actions == [] then [] else TakenUp(s, actions[0]) + AllTakenUp(Do(s, actions[0]), actions[1..])
  }

  lemma ReaderKeepsLimited(s: System, a: Action)
    requires Region(s, a).Some? ==> !Region(s, a).value.DoRoute?
    ensures Do(s, a).host.closed || ToCancel(s.reader) == TakenUp(s, a) + ToCancel(Do(s, a).reader)
  {
    if ControlAction(a) {
    } else if TurnAction(a) {
    } else {
      match a
      case DoRead(_) =>
      case DoInterpret =>
      case DoAct(full) => ActKeepsLimited(s, full);
      case DoDeliverNext(_, _) =>
      case DoCancelLimited(ok, full) => CancelKeepsLimited(s, ok, full);
    }
  }

  lemma ActKeepsLimited(s: System, full: set<LaneId>)
    requires Region(s, DoAct(full)).Some? ==> !Region(s, DoAct(full)).value.DoRoute?
    ensures ToCancel(Act(s, full).reader) == ToCancel(s.reader)
  {
    match s.reader
    case Interpreted(Err(_), TookControl(_, _)) =>
    case Interpreted(Err(_), TookPrompt(_, n)) => if n in s.host.turns {} else {}
    case Interpreted(Err(_), NoWaiter) =>
    case Interpreted(Ok(_), TookControl(_, _)) =>
    case _ =>
  }

  lemma CancelKeepsLimited(s: System, ok: bool, full: set<LaneId>)
    ensures var r := CancelLimited(s, ok, full);
            r.host.closed || ToCancel(s.reader) == TakenUp(s, DoCancelLimited(ok, full)) + ToCancel(r.reader)
  {
    if s.reader.Delivering? && s.reader.queue == [] && s.reader.limited != [] {
      assert s.reader.limited == [s.reader.limited[0]] + s.reader.limited[1..];
    }
  }

  lemma {:induction false} LimitedStep(s: System, a: Action, before: seq<NativeId>)
    requires Limited(s.host.log) == before + ToCancel(s.reader)
    ensures Do(s, a).host.closed
            || Limited(Do(s, a).host.log) == before + TakenUp(s, a) + ToCancel(Do(s, a).reader)
  {
    var op := Region(s, a);
    RegionExplains(s, a);
    if op.Some? && op.value.DoRoute? {
      var _ := BatchGoesWhereItBelongs(s.host, op.value.signals);
      RouterDelivers(s, a);
      assert TakenUp(s, a) == [];
    } else {
      ReaderKeepsLimited(s, a);
      LimitedJoin(before, TakenUp(s, a), ToCancel(Do(s, a).reader));
      if op.Some? {
        RegionWritesItsOwn(s.host, op.value);
        OnlyRoutingRoutes(op.value, s.host.log, Do(s, a).host.log);
      }
    }
  }

  lemma {:induction false} RunCancelsLimited(s: System, actions: seq<Action>, before: seq<NativeId>)
    requires Healthy(s) && CausalRun(s, actions)
    requires s.host.closed || Limited(s.host.log) == before + ToCancel(s.reader)
    ensures var r := RunSystem(s, actions);
            r.host.closed || Limited(r.host.log) == before + AllTakenUp(s, actions) + ToCancel(r.reader)
    decreases |actions|
  {
    if actions == [] {
      assert before + [] == before;
    } else {
      var m := Do(s, actions[0]);
      DoHealthy(s, actions[0]);
      if s.host.closed {
        ClosedStays(s, actions[0]);
      } else {
        LimitedStep(s, actions[0], before);
      }
      RunCancelsLimited(m, actions[1..], before + TakenUp(s, actions[0]));
      LimitedJoin(before, TakenUp(s, actions[0]), AllTakenUp(m, actions[1..]));
    }
  }

  /** In every causal run, until a stop: the turns that ran into their limit are those taken up to be
      cancelled and then those the reader still has to, in that order. */
  lemma LimitedTurnsAreCancelled(limit: nat, actions: seq<Action>)
    requires CausalRun(FreshSystem(limit), actions)
    ensures var s, r := FreshSystem(limit), RunSystem(FreshSystem(limit), actions);
            !r.host.closed ==> Limited(r.host.log) == AllTakenUp(s, actions) + ToCancel(r.reader)
  {
    FreshHealthy(limit);
    RunCancelsLimited(FreshSystem(limit), actions, []);
    assert [] + AllTakenUp(FreshSystem(limit), actions) == AllTakenUp(FreshSystem(limit), actions);
  }
}
