/** Canonical sessions and native ids: what is kept in every run, and exactly
    where the host relies on the provider or falls short of its documentation. */
module SystemBindings {
  import opened Prelude
  import opened Connection
  import opened SessionHost
  import opened SessionSystem
  import opened SystemTickets
  import opened SystemIdentity
  import opened SystemOrder
  import opened HostHistory
  import opened HostTheorems
  import HostInterrupt

  // ------------------------------------------------------------ bound once

  /** Nothing already bound is bound again. */
  ghost predicate Extends(was: map<Ref, Binding>, now: map<Ref, Binding>) {
    forall c :: c in was ==> c in now && now[c] == was[c]
  }

  lemma ApplySessions(h: Host, op: Op)
    requires !op.DoRegisterOpen?
    ensures Apply(h, op).sessions == h.sessions
  {
    match op
    case DoRegisterControl(token, registration) => if !h.closed { RegisterControlEffect(h, token, registration); }
    case DoRoute(signals) => RouteShrinks(h, signals);
    case DoStop(reason, deliberate, full) => StopShrinks(h, reason, deliberate, full);
    case DoDeliver(lane, event, stored, full) => DeliverShrinks(h, lane, event, stored, full);
    case DoFailTurn(n, reason) => FailTurnShrinks(h, n, reason);
    case _ =>
  }

  lemma DoExtends(s: System, a: Action)
    requires Healthy(s)
    ensures Extends(s.host.sessions, Do(s, a).host.sessions)
  {
    RegionExplains(s, a);
    match Region(s, a)
    case None =>
    case Some(op) =>
      if op.DoRegisterOpen? {
        RegisterOpenOne(s.host, op.lane, op.signals);
      } else {
        ApplySessions(s.host, op);
      }
  }

  /** A canonical session is bound at most once: whatever happens later, its
      binding, and so its native id, is the one it was opened with. */
  lemma {:induction false} BoundOnce(s: System, actions: seq<Action>)
    requires Healthy(s) && CausalRun(s, actions)
    ensures Extends(s.host.sessions, RunSystem(s, actions).host.sessions)
    decreases |actions|
  {
    if actions != [] {
      DoExtends(s, actions[0]);
      DoHealthy(s, actions[0]);
      BoundOnce(Do(s, actions[0]), actions[1..]);
    }
  }

  /** In every causal run each resident session's binding carries its own
      canonical ref; an opener that is woken with signals finds exactly one
      binding, its own, with the id it asked to load, resume or attach to; and a
      prompt somebody waits for is addressed to the native session recorded for it. */
  lemma IdentityPreserved(limit: nat, actions: seq<Action>, c: Ref, t: Thread, id: nat)
    requires CausalRun(FreshSystem(limit), actions)
    ensures var s := RunSystem(FreshSystem(limit), actions);
            && (c in s.host.sessions ==> s.host.sessions[c].agentSession == Some(c))
            && (match At(s.callers, t)
                case Awaiting(asked, ForOpen(canonical, mode, requested)) =>
                  asked in s.channel && s.channel[asked].Signals? ==>
                    OpensAs(s.channel[asked].signals, canonical, mode, requested)
                case _ => true)
            && (id in s.host.pendingPrompts && id in s.adapter.pending ==>
                  s.adapter.pending[id] == Prompt(s.host.pendingPrompts[id]))
  {
    FreshHealthy(limit);
    RunHealthy(FreshSystem(limit), actions);
    var s := RunSystem(FreshSystem(limit), actions);
    if t in s.callers {
      assert CallerStands(s, t, s.callers[t]);
    }
  }

  // ------------------------------------------- one native id, one identity

  /** The documented rule: no native id is bound to two canonical sessions. */
  ghost predicate OneIdentity(h: Host) {
    forall c, d :: c in h.sessions && d in h.sessions && h.sessions[c].nativeId == h.sessions[d].nativeId ==> c == d
  }

  ghost predicate Resident(h: Host, n: NativeId) {
    exists c :: c in h.sessions && h.sessions[c].nativeId == n
  }

  /** The native id an open is registered under by this region, if it registers one. */
  function OpenedId(op: Op): Option<NativeId> {
    if op.DoRegisterOpen? && |op.signals| == 1 && op.signals[0].kind.SessionOpened?
    then Some(op.signals[0].kind.binding.nativeId) else None
  }

  function RegisteredId(s: System, a: Action): Option<NativeId> {
    if Region(s, a).None? then None else OpenedId(Region(s, a).value)
  }

  /** It registers no open, or one under an id no resident session holds. */
  ghost predicate NewId(s: System, a: Action) {
    RegisteredId(s, a).Some? ==> !Resident(s.host, RegisteredId(s, a).value)
  }

  ghost predicate NewIds(s: System, actions: seq<Action>)
    decreases |actions|
  {
    actions == [] || (NewId(s, actions[0]) && NewIds(Do(s, actions[0]), actions[1..]))
  }

  lemma {:induction false} OpenKeepsOneIdentityIff(h: Host, lane: LaneId, signals: seq<Signal>)
    requires lane < |h.cores| && h.cores[lane].agentSession !in h.sessions
    requires |signals| == 1 && signals[0].kind.SessionOpened?
    ensures OneIdentity(RegisterOpen(h, lane, signals))
            <==> OneIdentity(h) && !Resident(h, signals[0].kind.binding.nativeId)
  {
    RegisterOpenOne(h, lane, signals);
    var r, c := RegisterOpen(h, lane, signals), h.cores[lane].agentSession;
    assert forall d :: d in h.sessions ==> d in r.sessions && r.sessions[d] == h.sessions[d];
    assert c in r.sessions && r.sessions[c] == signals[0].kind.binding;
  }

  lemma {:induction false} DoKeepsOneIdentityIff(s: System, a: Action)
    requires Healthy(s)
    ensures OneIdentity(Do(s, a).host) <==> OneIdentity(s.host) && NewId(s, a)
  {
    RegionExplains(s, a);
    match Region(s, a)
    case None =>
    case Some(op) =>
      if op.DoRegisterOpen? {
        OpenKeepsOneIdentityIff(s.host, op.lane, op.signals);
      } else {
        ApplySessions(s.host, op);
      }
  }

  lemma {:induction false} RunKeepsOneIdentityIff(s: System, actions: seq<Action>)
    requires Healthy(s) && CausalRun(s, actions)
    ensures OneIdentity(RunSystem(s, actions).host) <==> OneIdentity(s.host) && NewIds(s, actions)
    decreases |actions|
  {
    if actions != [] {
      DoKeepsOneIdentityIff(s, actions[0]);
      DoHealthy(s, actions[0]);
      RunKeepsOneIdentityIff(Do(s, actions[0]), actions[1..]);
    }
  }

  /** In every causal run no native id is bound to two canonical sessions, exactly when every open was
      registered under an id no resident session held; the host does not look, before a stop or after. */
  lemma OneIdentityIff(limit: nat, actions: seq<Action>)
    requires CausalRun(FreshSystem(limit), actions)
    ensures OneIdentity(RunSystem(FreshSystem(limit), actions).host) <==> NewIds(FreshSystem(limit), actions)
  {
    FreshHealthy(limit);
    RunKeepsOneIdentityIff(FreshSystem(limit), actions);
  }

  // ----------------------------------------- sessions and lanes as inverses

  predicate SessionMirrored(h: Host, c: Ref)
    requires c in h.sessions
  {
    var n := h.sessions[c].nativeId;
    n in h.lanes && h.lanes[n] < |h.cores| && h.cores[h.lanes[n]].agentSession == c
  }

  predicate LaneMirrored(h: Host, n: NativeId)
    requires n in h.lanes
  {
    && h.lanes[n] < |h.cores|
    && h.cores[h.lanes[n]].agentSession in h.sessions
    && h.sessions[h.cores[h.lanes[n]].agentSession].nativeId == n
  }

  /** `sessions` and `lanes` are inverse to each other. */
  ghost predicate Mirrored(h: Host) {
    && (forall c :: c in h.sessions ==> SessionMirrored(h, c))
    && (forall n :: n in h.lanes ==> LaneMirrored(h, n))
  }

  /** A session whose lane, if its native id has one, is another session's. */
  predicate Orphaned(h: Host, c: Ref) {
    && c in h.sessions
    && var n := h.sessions[c].nativeId;
       n in h.lanes ==> h.lanes[n] < |h.cores| && h.cores[h.lanes[n]].agentSession != c
  }

  ghost predicate SomeOrphaned(h: Host) {
    exists c :: Orphaned(h, c)
  }

  /** Registering an open while the maps are inverse keeps them so exactly when no lane is bound to
      the native id it answers with; else the session that had that lane is orphaned. */
  lemma OpenKeepsMirrorIffFresh(h: Host, lane: LaneId, signals: seq<Signal>)
    requires Mirrored(h) && lane < |h.cores|
    requires |signals| == 1 && signals[0].kind.SessionOpened?
    requires h.cores[lane].agentSession !in h.sessions
    ensures Mirrored(RegisterOpen(h, lane, signals)) <==> signals[0].kind.binding.nativeId !in h.lanes
    ensures Mirrored(RegisterOpen(h, lane, signals)) || SomeOrphaned(RegisterOpen(h, lane, signals))
  {
    RegisterOpenOne(h, lane, signals);
    var r := RegisterOpen(h, lane, signals);
    var n, c := signals[0].kind.binding.nativeId, h.cores[lane].agentSession;
    if n in h.lanes {
      assert LaneMirrored(h, n);
      var d := h.cores[h.lanes[n]].agentSession;
      assert d in r.sessions && !SessionMirrored(r, d) && Orphaned(r, d);
    } else {
      forall d | d in r.sessions ensures SessionMirrored(r, d) {
        assert d != c ==> SessionMirrored(h, d);
      }
      forall m | m in r.lanes ensures LaneMirrored(r, m) {
        assert m != n ==> LaneMirrored(h, m);
      }
    }
  }

  /** It registers no open, or one under an id no lane is bound to. */
  predicate FreshId(s: System, a: Action) {
    RegisteredId(s, a).Some? ==> RegisteredId(s, a).value !in s.host.lanes
  }

  predicate FreshIds(s: System, actions: seq<Action>)
    decreases |actions|
  {
    actions == [] || (FreshId(s, actions[0]) && FreshIds(Do(s, actions[0]), actions[1..]))
  }

  lemma MirrorOwners(h: Host, r: Host)
    requires Mirrored(h) && SameOwners(h.cores, r.cores) && r.sessions == h.sessions && r.lanes == h.lanes
    ensures Mirrored(r)
  {
    forall c | c in r.sessions ensures SessionMirrored(r, c) {
      assert SessionMirrored(h, c);
    }
    forall n | n in r.lanes ensures LaneMirrored(r, n) {
      assert LaneMirrored(h, n);
    }
  }

  lemma {:induction false} RegisterControlMirror(h: Host, token: nat, registration: Registration)
    requires Mirrored(h)
    ensures Mirrored(RegisterControl(h, token, registration))
  {
    if !h.closed {
      RegisterControlEffect(h, token, registration);
    }
    MirrorOwners(h, RegisterControl(h, token, registration));
  }

  lemma DeliverMirror(h: Host, lane: LaneId, event: HostEvent, stored: bool, full: set<LaneId>)
    requires Mirrored(h)
    ensures Deliver(h, lane, event, stored, full).closed || Mirrored(Deliver(h, lane, event, stored, full))
  {
    if Refuses(h, lane, stored) {
      StopShrinks(h, STORAGE_FAILED, false, full);
    } else {
      AppendOwners(h.cores, lane, event);
      MirrorOwners(h, Deliver(h, lane, event, stored, full));
    }
  }

  lemma {:induction false} ApplyMirror(h: Host, op: Op)
    requires Mirrored(h) && !op.DoRegisterOpen?
    ensures Apply(h, op).closed || Mirrored(Apply(h, op))
  {
    match op
    case DoRegisterControl(token, registration) => RegisterControlMirror(h, token, registration);
    case DoTake(_) => MirrorOwners(h, Apply(h, op));
    case DoRoute(signals) => RouteFrame(h, signals); MirrorOwners(h, Apply(h, op));
    case DoStop(reason, deliberate, full) => StopShrinks(h, reason, deliberate, full);
    case DoDisconnected => MirrorOwners(h, Apply(h, op));
    case DoDeliver(lane, event, stored, full) => DeliverMirror(h, lane, event, stored, full);
    case _ => TurnOpFrame(h, op); MirrorOwners(h, Apply(h, op));
  }

  lemma ClosedStays(s: System, a: Action)
    requires Healthy(s)
    ensures s.host.closed ==> Do(s, a).host.closed
  {
    RegionExplains(s, a);
    match Region(s, a)
    case None =>
    case Some(op) => HostInterrupt.ApplyGrows(s.host, op);
  }

  lemma {:induction false} RunClosedStays(s: System, actions: seq<Action>)
    requires Healthy(s) && CausalRun(s, actions)
    ensures s.host.closed ==> RunSystem(s, actions).host.closed
    decreases |actions|
  {
    if actions != [] {
      ClosedStays(s, actions[0]);
      DoHealthy(s, actions[0]);
      RunClosedStays(Do(s, actions[0]), actions[1..]);
    }
  }

  lemma {:induction false} OrphanOwners(h: Host, r: Host, c: Ref)
    requires Orphaned(h, c) && SameOwners(h.cores, r.cores) && r.sessions == h.sessions && r.lanes == h.lanes
    ensures Orphaned(r, c)
  {
  }

  lemma {:induction false} RegisterControlOrphans(h: Host, token: nat, registration: Registration, c: Ref)
    requires Orphaned(h, c)
    ensures Orphaned(RegisterControl(h, token, registration), c)
  {
    if !h.closed {
      RegisterControlEffect(h, token, registration);
    }
    OrphanOwners(h, RegisterControl(h, token, registration), c);
  }

  lemma {:induction false} DeliverOrphans(h: Host, lane: LaneId, event: HostEvent, stored: bool, full: set<LaneId>,
                                          c: Ref)
    requires Orphaned(h, c)
    ensures Deliver(h, lane, event, stored, full).closed || Orphaned(Deliver(h, lane, event, stored, full), c)
  {
    if !Refuses(h, lane, stored) {
      AppendOwners(h.cores, lane, event);
      OrphanOwners(h, Deliver(h, lane, event, stored, full), c);
    }
  }

  /** An orphaned session gets no lane back while the bridge runs. */
  lemma {:induction false} ApplyOrphans(h: Host, op: Op, c: Ref)
    requires Orphaned(h, c) && !op.DoRegisterOpen?
    ensures Apply(h, op).closed || Orphaned(Apply(h, op), c)
  {
    match op
    case DoRegisterControl(token, registration) => RegisterControlOrphans(h, token, registration, c);
    case DoTake(_) => OrphanOwners(h, Apply(h, op), c);
    case DoRoute(signals) => RouteFrame(h, signals); OrphanOwners(h, Apply(h, op), c);
    case DoStop(_, _, _) =>
    case DoDisconnected => OrphanOwners(h, Apply(h, op), c);
    case DoDeliver(lane, event, stored, full) => DeliverOrphans(h, lane, event, stored, full, c);
    case _ => TurnOpFrame(h, op); OrphanOwners(h, Apply(h, op), c);
  }

  lemma {:induction false} OpenOrphans(h: Host, lane: LaneId, signals: seq<Signal>, c: Ref)
    requires Orphaned(h, c) && lane < |h.cores| && h.cores[lane].agentSession !in h.sessions
    requires |signals| == 1 && signals[0].kind.SessionOpened?
    ensures Orphaned(RegisterOpen(h, lane, signals), c)
  {
    RegisterOpenOne(h, lane, signals);
  }

  lemma {:induction false} DoOrphans(s: System, a: Action, c: Ref)
    requires Healthy(s) && Orphaned(s.host, c)
    ensures Do(s, a).host.closed || Orphaned(Do(s, a).host, c)
  {
    RegionExplains(s, a);
    match Region(s, a)
    case None =>
    case Some(op) =>
      if op.DoRegisterOpen? {
        OpenOrphans(s.host, op.lane, op.signals, c);
      } else {
        ApplyOrphans(s.host, op, c);
      }
  }

  /** A region keeps inverse maps so exactly when its id is fresh, unless the bridge stops. */
  lemma {:induction false} ApplyMirrorIff(h: Host, op: Op)
    requires Mirrored(h)
    requires op.DoRegisterOpen? ==>
               && op.lane < |h.cores| && h.cores[op.lane].agentSession !in h.sessions
               && |op.signals| == 1 && op.signals[0].kind.SessionOpened?
    ensures var r := Apply(h, op);
            && (r.closed || (Mirrored(r) <==> OpenedId(op).Some? ==> OpenedId(op).value !in h.lanes))
            && (r.closed || Mirrored(r) || SomeOrphaned(r))
  {
    if op.DoRegisterOpen? {
      OpenKeepsMirrorIffFresh(h, op.lane, op.signals);
    } else {
      ApplyMirror(h, op);
    }
  }

  lemma {:induction false} DoMirrorIff(s: System, a: Action)
    requires Healthy(s) && (Mirrored(s.host) || SomeOrphaned(s.host))
    ensures var r := Do(s, a).host;
            r.closed || ((Mirrored(r) <==> Mirrored(s.host) && FreshId(s, a)) && (Mirrored(r) || SomeOrphaned(r)))
  {
    if Mirrored(s.host) {
      RegionExplains(s, a);
      if Region(s, a).Some? { ApplyMirrorIff(s.host, Region(s, a).value); }
    } else {
      var c :| Orphaned(s.host, c);
      DoOrphans(s, a, c);
      OrphanBreaks(Do(s, a).host);
    }
  }

  lemma OrphanBreaks(h: Host)
    ensures SomeOrphaned(h) ==> !Mirrored(h)
  {
    if SomeOrphaned(h) {
      var c :| Orphaned(h, c);
      assert !SessionMirrored(h, c);
    }
  }

  lemma {:induction false} RunMirrorIff(s: System, actions: seq<Action>)
    requires Healthy(s) && CausalRun(s, actions) && (Mirrored(s.host) || SomeOrphaned(s.host))
    ensures RunSystem(s, actions).host.closed
            || (Mirrored(RunSystem(s, actions).host) <==> Mirrored(s.host) && FreshIds(s, actions))
    decreases |actions|
  {
    if actions != [] {
      var m := Do(s, actions[0]);
      DoMirrorIff(s, actions[0]);
      DoHealthy(s, actions[0]);
      if m.host.closed {
        RunClosedStays(m, actions[1..]);
      } else {
        RunMirrorIff(m, actions[1..]);
      }
    }
  }

  /** In every causal run that has not come to a stop, `sessions` and `lanes` are inverse exactly when
      no bound native id was opened again. */
  lemma MirroredIff(limit: nat, actions: seq<Action>)
    requires CausalRun(FreshSystem(limit), actions) && !RunSystem(FreshSystem(limit), actions).host.closed
    ensures Mirrored(RunSystem(FreshSystem(limit), actions).host) <==> FreshIds(FreshSystem(limit), actions)
  {
    FreshHealthy(limit);
    RunMirrorIff(FreshSystem(limit), actions);
  }
}
