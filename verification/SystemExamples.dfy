/** Causal runs of threads, reader and provider that end where the host's own rules do not hold, one
    for each rule whose exact condition is proved elsewhere. */
module SystemExamples {
  import opened Prelude
  import opened Connection
  import opened SessionHost
  import opened SessionSystem
  import opened SystemTickets
  import opened SystemOrder
  import opened SystemMemory
  import opened SystemLanes
  import opened SystemBindings
  import opened SystemEndings
  import SystemIdentity
  import HostHistory
  import HostInterrupt
  import HostTheorems

  const A: Ref := "agent-session/a"
  const B: Ref := "agent-session/b"
  const N: NativeId := 7

  // ------------------------------------------------------------- runs in pieces

  lemma {:induction false} RunJoin(s: System, a: seq<Action>, b: seq<Action>)
    ensures RunSystem(s, a + b) == RunSystem(RunSystem(s, a), b)
    ensures CausalRun(s, a + b) <==> CausalRun(s, a) && CausalRun(RunSystem(s, a), b)
    decreases |a|
  {
    if a == [] {
      assert a + b == b;
    } else {
      assert (a + b)[0] == a[0] && (a + b)[1..] == a[1..] + b;
      RunJoin(Do(s, a[0]), a[1..], b);
    }
  }

  /** These actions, causally, take s to r. */
  predicate Takes(s: System, actions: seq<Action>, r: System) {
    CausalRun(s, actions) && RunSystem(s, actions) == r
  }

  lemma TakesOne(s: System, a: Action)
    requires Causal(s, a)
    ensures Takes(s, [a], Do(s, a))
  {
    assert [a][1..] == [];
  }

  lemma TakesThen(s: System, a: seq<Action>, m: System, b: seq<Action>, r: System)
    requires Takes(s, a, m) && Takes(m, b, r)
    ensures Takes(s, a + b, r)
  {
    RunJoin(s, a, b);
  }

  lemma TakesNext(s: System, a: seq<Action>, m: System, b: Action)
    requires Takes(s, a, m) && Causal(m, b)
    ensures Takes(s, a + [b], Do(m, b))
  {
    TakesOne(m, b);
    TakesThen(s, a, m, [b], Do(m, b));
  }

  // ------------------------------------------------------------------- an open

  function Registering(c: Ref): Registration {
    ForOpen(c, Create, None)
  }

  /** One caller asks for a new session, up to the wire. */
  function AskOpen(t: Thread, c: Ref): seq<Action> {
    ([DoStartOpen(t, c, Create, None, false)] + [DoIssueOpen(t)]) + ([DoRegister(t)] + [DoSend(t, true)])
  }

  predicate Ready(s: System, t: Thread) {
    s.reader.Reading? && At(s.callers, t) == Idle && s.gate.None? && !s.host.closed && Create in s.adapter.sessionOpen
  }

  function AskedOpen(s: System, t: Thread, c: Ref): System {
    var id := s.adapter.nextRequestId;
    s.(host := RegisterControl(s.host, id, Registering(c)),
       adapter := Request(s.adapter, Open(Create, Some(c), None)).adapter,
       callers := s.callers[t := Awaiting(id, Registering(c))],
       gate := Some(t),
       sent := s.sent + {id})
  }

  /** The caller holds the gate and its request is numbered. */
  function Issued(s: System, t: Thread, c: Ref): System {
    s.(adapter := Request(s.adapter, Open(Create, Some(c), None)).adapter,
       callers := s.callers[t := IssuedControl(s.adapter.nextRequestId, Registering(c))],
       gate := Some(t))
  }

  lemma IssueTakes(s: System, t: Thread, c: Ref)
    requires Ready(s, t) && c !in s.host.sessions
    ensures Takes(s, [DoStartOpen(t, c, Create, None, false)] + [DoIssueOpen(t)], Issued(s, t, c))
  {
    var m := s.(gate := Some(t), callers := s.callers[t := Opening(c, Create, None, false)]);
    assert Do(s, DoStartOpen(t, c, Create, None, false)) == m;
    TakesOne(s, DoStartOpen(t, c, Create, None, false));
    assert m.callers[t := IssuedControl(s.adapter.nextRequestId, Registering(c))] == Issued(s, t, c).callers;
    assert Do(m, DoIssueOpen(t)) == Issued(s, t, c);
    TakesNext(s, [DoStartOpen(t, c, Create, None, false)], m, DoIssueOpen(t));
  }

  lemma RegisterTakes(s: System, t: Thread, id: nat, c: Ref)
    requires At(s.callers, t) == IssuedControl(id, Registering(c)) && !s.host.closed
    ensures Takes(s, [DoRegister(t)] + [DoSend(t, true)],
                  s.(host := RegisterControl(s.host, id, Registering(c)),
                     callers := s.callers[t := Awaiting(id, Registering(c))],
                     sent := s.sent + {id}))
  {
    var m := s.(host := RegisterControl(s.host, id, Registering(c)),
                callers := s.callers[t := RegisteredControl(id, Registering(c))]);
    assert Do(s, DoRegister(t)) == m;
    TakesOne(s, DoRegister(t));
    assert m.callers[t := Awaiting(id, Registering(c))] == s.callers[t := Awaiting(id, Registering(c))];
    TakesNext(s, [DoRegister(t)], m, DoSend(t, true));
  }

  lemma AskOpenTakes(s: System, t: Thread, c: Ref)
    requires Ready(s, t) && c !in s.host.sessions
    ensures Takes(s, AskOpen(t, c), AskedOpen(s, t, c))
  {
    var id := s.adapter.nextRequestId;
    var m := Issued(s, t, c);
    IssueTakes(s, t, c);
    RegisterTakes(m, t, id, c);
    assert m.callers[t := Awaiting(id, Registering(c))] == AskedOpen(s, t, c).callers;
    TakesThen(s, [DoStartOpen(t, c, Create, None, false)] + [DoIssueOpen(t)], m,
              [DoRegister(t)] + [DoSend(t, true)], AskedOpen(s, t, c));
  }

  function OpenedWith(n: NativeId): Reply {
    Reply(None, {}, false, true, Given(n), true, None)
  }

  function OpenSignals(a: Adapter, c: Ref, n: NativeId): seq<Signal> {
    [Signal(a.nextSequence, Some(n), SessionOpened(Binding(n, Some(c), Create)))]
  }

  /** The reader and an open's answer, up to the adapter. */
  function ReadOpen(s: System, id: nat, c: Ref, lane: LaneId, n: NativeId): System {
    s.(host := Take(s.host, id),
       adapter := s.adapter.(pending := s.adapter.pending - {id}, nextSequence := s.adapter.nextSequence + 1),
       reader := Interpreted(Ok(OpenSignals(s.adapter, c, n)), TookControl(id, OpenWaiter(lane, None))))
  }

  predicate OpenAsked(s: System, id: nat, c: Ref, lane: LaneId) {
    && s.reader.Reading? && id in s.sent
    && id in s.host.control && s.host.control[id] == OpenWaiter(lane, None)
    && id in s.adapter.pending && s.adapter.pending[id] == Open(Create, Some(c), None)
  }

  lemma ReadOpenTakes(s: System, id: nat, c: Ref, lane: LaneId, n: NativeId)
    requires OpenAsked(s, id, c, lane)
    ensures Takes(s, [DoRead(Response(id, OpenedWith(n)))] + [DoInterpret], ReadOpen(s, id, c, lane, n))
  {
    var message := Response(id, OpenedWith(n));
    var s1 := s.(host := Take(s.host, id), reader := Took(message, TookControl(id, OpenWaiter(lane, None))));
    assert Do(s, DoRead(message)) == s1;
    TakesOne(s, DoRead(message));
    var r := ReadOpen(s, id, c, lane, n);
    assert Ingest(s.adapter, message) == Ingested(r.adapter, Ok(OpenSignals(s.adapter, c, n)));
    assert Do(s1, DoInterpret) == r;
    TakesNext(s, [DoRead(message)], s1, DoInterpret);
  }

  /** The whole answer, and its caller woken. */
  function AnswerOpen(t: Thread, id: nat, n: NativeId): seq<Action> {
    [DoRead(Response(id, OpenedWith(n)))] + [DoInterpret] + [DoAct({})] + [DoReceive(t)]
  }

  function OpenedState(s: System, t: Thread, id: nat, c: Ref, lane: LaneId, n: NativeId): System {
    s.(host := RegisterOpen(Take(s.host, id), lane, OpenSignals(s.adapter, c, n)),
       adapter := ReadOpen(s, id, c, lane, n).adapter,
       callers := s.callers[t := Idle],
       gate := None)
  }

  lemma ReceiveTakes(s: System, t: Thread, id: nat, c: Ref)
    requires At(s.callers, t) == Awaiting(id, Registering(c)) && id in s.channel
    ensures Takes(s, [DoReceive(t)], s.(callers := s.callers[t := Idle], gate := None, channel := s.channel - {id}))
  {
    TakesOne(s, DoReceive(t));
  }

  lemma ActOpenTakes(s: System, id: nat, lane: LaneId, signals: seq<Signal>)
    requires s.reader == Interpreted(Ok(signals), TookControl(id, OpenWaiter(lane, None)))
    ensures Takes(s, [DoAct({})], s.(host := RegisterOpen(s.host, lane, signals),
                                     channel := s.channel[id := Signals(signals)], reader := Reading))
  {
    TakesOne(s, DoAct({}));
  }

  lemma AnswerOpenTakes(s: System, t: Thread, id: nat, c: Ref, lane: LaneId, n: NativeId)
    requires OpenAsked(s, id, c, lane) && id !in s.channel
    requires At(s.callers, t) == Awaiting(id, Registering(c))
    ensures Takes(s, AnswerOpen(t, id, n), OpenedState(s, t, id, c, lane, n))
  {
    ReadOpenTakes(s, id, c, lane, n);
    var two := [DoRead(Response(id, OpenedWith(n)))] + [DoInterpret];
    var s2 := ReadOpen(s, id, c, lane, n);
    var signals := OpenSignals(s.adapter, c, n);
    var s3 := s2.(host := RegisterOpen(s2.host, lane, signals),
                  channel := s.channel[id := Signals(signals)],
                  reader := Reading);
    ActOpenTakes(s2, id, lane, signals);
    TakesThen(s, two, s2, [DoAct({})], s3);
    assert s3.channel - {id} == s.channel;
    ReceiveTakes(s3, t, id, c);
    TakesThen(s, two + [DoAct({})], s3, [DoReceive(t)], OpenedState(s, t, id, c, lane, n));
  }

  /** A session opened, ask and answer. */
  function OpenSession(t: Thread, c: Ref, id: nat, n: NativeId): seq<Action> {
    AskOpen(t, c) + AnswerOpen(t, id, n)
  }

  function SessionOpen(s: System, t: Thread, c: Ref, n: NativeId): System {
    OpenedState(AskedOpen(s, t, c), t, s.adapter.nextRequestId, c, |s.host.cores|, n)
  }

  lemma OpenSessionTakes(s: System, t: Thread, c: Ref, n: NativeId)
    requires Ready(s, t) && c !in s.host.sessions
    requires s.adapter.nextRequestId !in s.channel
    ensures Takes(s, OpenSession(t, c, s.adapter.nextRequestId, n), SessionOpen(s, t, c, n))
  {
    var id := s.adapter.nextRequestId;
    var m := AskedOpen(s, t, c);
    AskOpenTakes(s, t, c);
    RegisterControlEffect(s.host, id, Registering(c));
    AnswerOpenTakes(m, t, id, c, |s.host.cores|, n);
    TakesThen(s, AskOpen(t, c), m, AnswerOpen(t, id, n), SessionOpen(s, t, c, n));
  }

  /** What the host and the adapter hold after one session is opened. */
  lemma SessionOpenIs(s: System, t: Thread, c: Ref, n: NativeId)
    requires Ready(s, t) && c !in s.host.sessions
    requires s.adapter.nextRequestId !in s.host.control && s.adapter.nextRequestId !in s.host.pendingPrompts
    requires s.adapter.nextRequestId !in s.adapter.pending
    ensures var r, id, lane := SessionOpen(s, t, c, n), s.adapter.nextRequestId, |s.host.cores|;
            && r.host == s.host.(cores := s.host.cores + [LaneCore(c, [], false)],
                                 lanes := s.host.lanes[n := lane],
                                 sessions := s.host.sessions[c := Binding(n, Some(c), Create)],
                                 log := After(s.host.log, Bound(lane, n)))
            && r.adapter == s.adapter.(nextRequestId := id + 1, nextSequence := s.adapter.nextSequence + 1)
            && r == s.(host := r.host, adapter := r.adapter, callers := r.callers, gate := None, sent := s.sent + {id})
            && r.callers == s.callers[t := Idle]
  {
    var id := s.adapter.nextRequestId;
    var m := AskedOpen(s, t, c);
    assert m.host == s.host.(cores := s.host.cores + [LaneCore(c, [], false)],
                             control := s.host.control[id := OpenWaiter(|s.host.cores|, None)]);
    assert m.host.control - {id} == s.host.control && m.host.pendingPrompts - {id} == s.host.pendingPrompts;
    assert m.adapter.pending - {id} == s.adapter.pending;
    SystemIdentity.RegisterOpenOne(Take(m.host, id), |s.host.cores|, OpenSignals(m.adapter, c, n));
    assert m.callers[t := Idle] == s.callers[t := Idle];
  }

  lemma Distinct()
    ensures A != B
  {
    assert A[|A| - 1] != B[|B| - 1];
  }

  /** Stopping a bridge on which no turn is in flight. */
  lemma QuietStop(h: Host, reason: string, deliberate: bool, full: set<LaneId>)
    requires !h.closed && h.turns == map[]
    ensures Stop(h, reason, deliberate, full) == Halt(h, reason, deliberate)
  {
    assert Ascending(h.turns.Keys) == [];
  }

  /** One session open, and nothing else going on: lane 0, canonical A, native N. */
  predicate IsOne(s: System, limit: nat) {
    && s.host == FreshHost(limit).(cores := [LaneCore(A, [], false)], lanes := map[N := 0],
                                   sessions := map[A := Binding(N, Some(A), Create)],
                                   log := After(Start, Bound(0, N)))
    && s.adapter == FRESH_ADAPTER.(nextRequestId := 2, nextSequence := 2)
    && s.callers == map[0 := Idle] && s.sent == {1} && s.gate == None && s.reader == Reading && s.channel == map[]
  }

  function One(limit: nat): System {
    SessionOpen(FreshSystem(limit), 0, A, N)
  }

  lemma OneIs(limit: nat)
    ensures Takes(FreshSystem(limit), OpenSession(0, A, 1, N), One(limit)) && IsOne(One(limit), limit)
  {
    var s := FreshSystem(limit);
    OpenSessionTakes(s, 0, A, N);
    SessionOpenIs(s, 0, A, N);
    assert s.host.cores + [LaneCore(A, [], false)] == [LaneCore(A, [], false)];
    assert s.sent + {1} == {1};
  }

  // ------------------------------------------- one native id, two identities

  const TWICE: seq<Action> := OpenSession(0, A, 1, N) + OpenSession(0, B, 2, N)

  const HALTED := DoStopBridge("stopped", true, {})

  predicate IsTwo(h: Host) {
    && h.cores == [LaneCore(A, [], false), LaneCore(B, [], false)] && h.lanes == map[N := 1]
    && h.sessions == map[A := Binding(N, Some(A), Create), B := Binding(N, Some(B), Create)]
    && h.log == After(After(Start, Bound(0, N)), Bound(1, N)) && h.turns == map[] && !h.closed
  }

  lemma TwoFromOne(s: System, limit: nat)
    requires IsOne(s, limit)
    ensures Takes(s, OpenSession(0, B, 2, N), SessionOpen(s, 0, B, N)) && IsTwo(SessionOpen(s, 0, B, N).host)
  {
    Distinct();
    OpenSessionTakes(s, 0, B, N);
    SessionOpenIs(s, 0, B, N);
    assert s.host.cores + [LaneCore(B, [], false)] == [LaneCore(A, [], false), LaneCore(B, [], false)];
    assert map[N := 0][N := 1] == map[N := 1];
  }

  lemma TwoAreOpen(limit: nat) returns (s: System)
    ensures Takes(FreshSystem(limit), TWICE, s) && IsTwo(s.host)
  {
    OneIs(limit);
    s := SessionOpen(One(limit), 0, B, N);
    TwoFromOne(One(limit), limit);
    TakesThen(FreshSystem(limit), OpenSession(0, A, 1, N), One(limit), OpenSession(0, B, 2, N), s);
  }

  /** The double binding, and what a stop then leaves open. */
  predicate Doubled(h: Host, halted: Host) {
    && A in h.sessions && h.sessions[A].nativeId == N && B in h.sessions && h.sessions[B].nativeId == N
    && N in h.lanes && h.lanes[N] < |h.cores| && h.cores[h.lanes[N]].agentSession == B
    && 0 in EverBound(halted.log) && StillRunning(halted, 0)
  }

  lemma HaltTwo(s: System) returns (r: System)
    requires IsTwo(s.host)
    ensures Takes(s, [HALTED], r) && !Mirrored(s.host) && !OneIdentity(s.host) && Doubled(s.host, r.host)
  {
    var h := s.host;
    Distinct();
    assert !SessionMirrored(h, A) && h.sessions[A].nativeId == h.sessions[B].nativeId;
    QuietStop(h, "stopped", true, {});
    assert EverBound(h.log.earlier) == {0} + EverBound(Start);
    assert 0 !in h.lanes.Values;
    r := Do(s, HALTED);
    TakesOne(s, HALTED);
  }

  /** A provider that answers two opens with one native id: the id is bound to two canonical sessions,
      the first one's lane is lost to the second, and a stop leaves it open. */
  lemma OneNativeTwoIdentities(limit: nat)
    ensures CausalRun(FreshSystem(limit), TWICE + [HALTED])
    ensures !Mirrored(RunSystem(FreshSystem(limit), TWICE).host)
    ensures !OneIdentity(RunSystem(FreshSystem(limit), TWICE).host)
    ensures Doubled(RunSystem(FreshSystem(limit), TWICE).host, RunSystem(FreshSystem(limit), TWICE + [HALTED]).host)
  {
    var s := TwoAreOpen(limit);
    var r := HaltTwo(s);
    TakesThen(FreshSystem(limit), TWICE, s, [HALTED], r);
  }

  // ------------------------------------ one native id, before and after a stop

  lemma {:induction false} FreshIdsJoin(s: System, a: seq<Action>, b: seq<Action>)
    requires FreshIds(s, a) && FreshIds(RunSystem(s, a), b)
    ensures FreshIds(s, a + b)
    decreases |a|
  {
    if a == [] {
      assert a + b == b;
    } else {
      assert (a + b)[0] == a[0] && (a + b)[1..] == a[1..] + b;
      FreshIdsJoin(Do(s, a[0]), a[1..], b);
    }
  }

  /** Only acting on what the adapter made of a message registers an open. */
  lemma {:induction false} FreshUnlessActs(s: System, actions: seq<Action>)
    requires forall a :: a in actions ==> !a.DoAct?
    ensures FreshIds(s, actions)
    decreases |actions|
  {
    if actions != [] {
      FreshUnlessActs(Do(s, actions[0]), actions[1..]);
    }
  }

  const READ_AGAIN: seq<Action> := [DoRead(Response(2, OpenedWith(N)))] + [DoInterpret]

  /** B is asked for and its answer names A's id; a stop falls before it is registered. */
  const STOPPED_OVER: seq<Action> := AskOpen(0, B) + READ_AGAIN + [HALTED]

  predicate OverFrom(s: System, a: Adapter) {
    && s.reader == Interpreted(Ok(OpenSignals(a, B, N)), TookControl(2, OpenWaiter(1, None)))
    && At(s.callers, 0) == Awaiting(2, Registering(B))
    && s.host.sessions == map[A := Binding(N, Some(A), Create)]
    && s.host.turns == map[] && |s.host.cores| == 2 && s.host.cores[1].agentSession == B
  }

  lemma AskAgain(s: System, limit: nat) returns (m: System, a: Adapter)
    requires IsOne(s, limit)
    ensures Takes(s, AskOpen(0, B) + READ_AGAIN, m) && OverFrom(m, a) && !m.host.closed
  {
    Distinct();
    var s1 := AskedOpen(s, 0, B);
    AskOpenTakes(s, 0, B);
    RegisterControlEffect(s.host, 2, Registering(B));
    assert s1.host.cores == [LaneCore(A, [], false), LaneCore(B, [], false)];
    ReadOpenTakes(s1, 2, B, 1, N);
    a := s1.adapter;
    m := ReadOpen(s1, 2, B, 1, N);
    TakesThen(s, AskOpen(0, B), s1, READ_AGAIN, m);
  }

  lemma HaltOver(s: System, a: Adapter) returns (r: System)
    requires OverFrom(s, a) && !s.host.closed
    ensures Takes(s, [HALTED], r) && OverFrom(r, a) && r.host.closed && r.host.lanes == map[]
  {
    QuietStop(s.host, "stopped", true, {});
    r := s.(host := Stop(s.host, "stopped", true, {}));
    StopNowTakes(s, {});
  }

  /** B's opener has its signals, and B is resident under A's id. */
  predicate BoundOver(s: System) {
    && s.host.closed && At(s.callers, 0) == Awaiting(2, Registering(B)) && 2 in s.channel && s.channel[2].Signals?
    && A in s.host.sessions && s.host.sessions[A].nativeId == N
    && B in s.host.sessions && s.host.sessions[B].nativeId == N
  }

  lemma BindOver(s: System, a: Adapter) returns (r: System)
    requires OverFrom(s, a) && s.host.closed && s.host.lanes == map[]
    ensures Takes(s, [DoAct({})], r) && FreshIds(s, [DoAct({})]) && BoundOver(r)
  {
    Distinct();
    SystemIdentity.RegisterOpenOne(s.host, 1, OpenSignals(a, B, N));
    r := Do(s, DoAct({}));
    TakesOne(s, DoAct({}));
    assert [DoAct({})][1..] == [];
  }

  lemma FirstIsFresh(limit: nat, s: System)
    requires Takes(FreshSystem(limit), OpenSession(0, A, 1, N), s) && IsOne(s, limit)
    ensures FreshIds(FreshSystem(limit), OpenSession(0, A, 1, N))
  {
    assert SessionMirrored(s.host, A) && LaneMirrored(s.host, N);
    MirroredIff(limit, OpenSession(0, A, 1, N));
  }

  lemma StopOver(s: System, limit: nat) returns (r: System)
    requires IsOne(s, limit)
    ensures Takes(s, STOPPED_OVER + [DoAct({})], r) && FreshIds(s, STOPPED_OVER + [DoAct({})]) && BoundOver(r)
  {
    var m, a := AskAgain(s, limit);
    var m1 := HaltOver(m, a);
    TakesThen(s, AskOpen(0, B) + READ_AGAIN, m, [HALTED], m1);
    FreshUnlessActs(s, STOPPED_OVER);
    r := BindOver(m1, a);
    FreshRun(s, STOPPED_OVER, m1, [DoAct({})], r);
  }

  lemma StoppedOver(limit: nat) returns (r: System)
    ensures Takes(FreshSystem(limit), OpenSession(0, A, 1, N) + (STOPPED_OVER + [DoAct({})]), r) && BoundOver(r)
    ensures FreshIds(FreshSystem(limit), OpenSession(0, A, 1, N) + (STOPPED_OVER + [DoAct({})]))
  {
    OneIs(limit);
    FirstIsFresh(limit, One(limit));
    r := StopOver(One(limit), limit);
    FreshRun(FreshSystem(limit), OpenSession(0, A, 1, N), One(limit), STOPPED_OVER + [DoAct({})], r);
  }

  lemma BoundOverBreaks(s: System)
    requires BoundOver(s)
    ensures !OneIdentity(s.host)
  {
    Distinct();
    assert s.host.sessions[A].nativeId == s.host.sessions[B].nativeId;
  }

  const ACROSS: seq<Action> := OpenSession(0, A, 1, N) + (STOPPED_OVER + [DoAct({})])

  /** Stopping over an open: no open names an id a lane is bound to, and still one native id comes to
      be bound to two canonical sessions, for the stop has let go of the lanes but not of the sessions. */
  lemma OneNativeAcrossAStop(limit: nat)
    ensures CausalRun(FreshSystem(limit), ACROSS) && FreshIds(FreshSystem(limit), ACROSS)
    ensures BoundOver(RunSystem(FreshSystem(limit), ACROSS)) && !OneIdentity(RunSystem(FreshSystem(limit), ACROSS).host)
  {
    var r := StoppedOver(limit);
    BoundOverBreaks(r);
  }

  lemma FreshRun(s: System, a: seq<Action>, m: System, b: seq<Action>, r: System)
    requires Takes(s, a, m) && Takes(m, b, r) && FreshIds(s, a) && FreshIds(m, b)
    ensures Takes(s, a + b, r) && FreshIds(s, a + b)
  {
    TakesThen(s, a, m, b, r);
    FreshIdsJoin(s, a, b);
  }

  // ------------------------------------------------ an interrupt that goes astray

  /** One session open on one native id, with this much begun and requested so far. */
  predicate Settled(s: System, id: nat, serial: nat) {
    && s.reader == Reading && s.host.control == map[] && !s.host.closed && s.host.lastSequence == 0
    && s.host.lanes == map[N := 0] && |s.host.cores| == 1 && !s.host.cores[0].closed
    && s.host.sessions == map[A := Binding(N, Some(A), Create)]
    && s.adapter.nextRequestId == id && Serials(s.host.log) == serial
  }

  predicate Quiet(s: System, id: nat, serial: nat) {
    Settled(s, id, serial) && s.host.turns == map[] && s.host.pendingPrompts == map[] && s.adapter.pending == map[]
  }

  /** A turn in flight that has seen no signal. */
  predicate Prompted(s: System, id: nat, serial: nat, interrupt: Option<PendingInterrupt>) {
    && Settled(s, id + 1, serial + 1) && id in s.sent
    && s.host.turns == map[N := ActiveTurn(A, None, 0, 0, interrupt, None, serial)]
    && s.host.pendingPrompts == map[id := N] && s.adapter.pending == map[id := Prompt(N)]
  }

  const PROMPT: seq<Action> :=
    [DoStartPrompt(0, A, N)] + [DoIssuePrompt(0)] + [DoResolvePrompt(0)] + ([DoRegisterPrompt(0)] + [DoSend(0, true)])

  lemma IssuePromptTakes(s: System, id: nat, serial: nat) returns (r: System)
    requires Quiet(s, id, serial) && At(s.callers, 0) == Idle
    ensures Takes(s, [DoStartPrompt(0, A, N)] + [DoIssuePrompt(0)], r)
    ensures r == s.(adapter := s.adapter.(nextRequestId := id + 1, pending := map[id := Prompt(N)]),
                    callers := s.callers[0 := IssuedPrompt(id, A)])
  {
    var m := s.(callers := s.callers[0 := Prompting(A, N)]);
    assert Do(s, DoStartPrompt(0, A, N)) == m;
    TakesOne(s, DoStartPrompt(0, A, N));
    r := Do(m, DoIssuePrompt(0));
    assert r.callers == s.callers[0 := IssuedPrompt(id, A)];
    TakesNext(s, [DoStartPrompt(0, A, N)], m, DoIssuePrompt(0));
  }

  lemma ResolvePromptTakes(s: System, id: nat) returns (r: System)
    requires At(s.callers, 0) == IssuedPrompt(id, A) && A in s.host.sessions && s.host.sessions[A].nativeId == N
    ensures Takes(s, [DoResolvePrompt(0)], r) && r == s.(callers := s.callers[0 := ResolvedPrompt(id, A, N)])
  {
    r := Do(s, DoResolvePrompt(0));
    TakesOne(s, DoResolvePrompt(0));
  }

  lemma RegisterPromptTakes(s: System, id: nat) returns (r: System)
    requires At(s.callers, 0) == ResolvedPrompt(id, A, N) && CanBegin(s.host, N)
    ensures Takes(s, [DoRegisterPrompt(0)] + [DoSend(0, true)], r)
    ensures r == s.(host := BeginTurn(s.host, A, id, N), callers := s.callers[0 := Idle], sent := s.sent + {id})
  {
    var m := s.(host := BeginTurn(s.host, A, id, N), callers := s.callers[0 := RegisteredPrompt(id)]);
    assert Do(s, DoRegisterPrompt(0)) == m;
    TakesOne(s, DoRegisterPrompt(0));
    r := Do(m, DoSend(0, true));
    assert r.callers == s.callers[0 := Idle];
    TakesNext(s, [DoRegisterPrompt(0)], m, DoSend(0, true));
  }

  lemma PromptTakes(s: System, id: nat, serial: nat) returns (r: System)
    requires Quiet(s, id, serial) && At(s.callers, 0) == Idle
    ensures Takes(s, PROMPT, r) && Prompted(r, id, serial, None) && r.callers == s.callers[0 := Idle]
    ensures r.host.log == After(s.host.log, Began(N, serial, A, 0)) && r.host.cores == s.host.cores
  {
    var m := IssuePromptTakes(s, id, serial);
    var m1 := ResolvePromptTakes(m, id);
    TakesThen(s, [DoStartPrompt(0, A, N)] + [DoIssuePrompt(0)], m, [DoResolvePrompt(0)], m1);
    r := RegisterPromptTakes(m1, id);
    assert r.callers == s.callers[0 := Idle];
    TakesThen(s, [DoStartPrompt(0, A, N)] + [DoIssuePrompt(0)] + [DoResolvePrompt(0)], m1,
              [DoRegisterPrompt(0)] + [DoSend(0, true)], r);
  }

  function Asked(reason: string): PendingInterrupt {
    PendingInterrupt(Some(reason), 0, [])
  }

  lemma InterruptTakes(s: System, id: nat, serial: nat, t: Thread, reason: string) returns (r: System)
    requires Prompted(s, id, serial, None) && At(s.callers, t) == Idle
    ensures Takes(s, [DoInterrupt(t, A, Some(reason))], r) && Prompted(r, id, serial, Some(Asked(reason)))
    ensures r.callers == s.callers[t := Interrupting(N, 0)]
    ensures r.host.log == After(s.host.log, InterruptAsked(N, Some(reason), 0))
  {
    r := Do(s, DoInterrupt(t, A, Some(reason)));
    TakesOne(s, DoInterrupt(t, A, Some(reason)));
    assert r.host.turns == map[N := ActiveTurn(A, None, 0, 0, Some(Asked(reason)), None, serial)];
  }

  /** A prompt answered with an error, up to the adapter; then its turn's record, delivered. */
  function FailPrompt(id: nat): seq<Action> {
    [DoRead(Response(id, RemoteError))] + [DoInterpret] + [DoAct({})] + [DoDeliverNext(true, {})]
      + [DoCancelLimited(true, {})]
  }

  lemma ReadErrorTakes(s: System, id: nat, serial: nat, interrupt: Option<PendingInterrupt>) returns (r: System)
    requires Prompted(s, id, serial, interrupt)
    ensures Takes(s, [DoRead(Response(id, RemoteError))] + [DoInterpret], r)
    ensures r == s.(host := s.host.(pendingPrompts := map[]), adapter := s.adapter.(pending := map[]),
                    reader := Interpreted(Err(Remote), TookPrompt(id, N)))
  {
    var m := s.(host := s.host.(pendingPrompts := map[]), reader := Took(Response(id, RemoteError), TookPrompt(id, N)));
    assert s.host.control - {id} == map[] && s.host.pendingPrompts - {id} == map[];
    assert Do(s, DoRead(Response(id, RemoteError))) == m;
    TakesOne(s, DoRead(Response(id, RemoteError)));
    assert s.adapter.pending - {id} == map[];
    r := Do(m, DoInterpret);
    TakesNext(s, [DoRead(Response(id, RemoteError))], m, DoInterpret);
  }

  lemma FailTakes(s: System, id: nat, serial: nat, interrupt: Option<PendingInterrupt>) returns (r: System)
    requires s.reader == Interpreted(Err(Remote), TookPrompt(id, N))
    requires s.host.turns == map[N := ActiveTurn(A, None, 0, 0, interrupt, None, serial)] && s.host.lanes == map[N := 0]
    ensures Takes(s, [DoAct({})], r)
    ensures r == s.(host := r.host, reader := r.reader)
    ensures r.reader.Delivering? && |r.reader.queue| == 1 && r.reader.queue[0].lane == 0 && r.reader.limited == []
    ensures r.host == s.host.(turns := map[], trail := r.host.trail, lastTurn := r.host.lastTurn, log := r.host.log)
    ensures r.host.log.After? && r.host.log.earlier == s.host.log
    ensures var e := r.host.log.entry; e.Ended? && e.serial == serial && e.cause.ByPromptError?
  {
    r := Do(s, DoAct({}));
    assert s.host.turns - {N} == map[];
    TakesOne(s, DoAct({}));
  }

  lemma DeliverTakes(s: System) returns (r: System)
    requires s.reader.Delivering? && |s.reader.queue| == 1 && s.reader.queue[0].lane == 0 && s.reader.limited == []
    requires |s.host.cores| == 1 && !s.host.cores[0].closed
    ensures Takes(s, [DoDeliverNext(true, {})] + [DoCancelLimited(true, {})], r)
    ensures r == s.(host := s.host.(cores := r.host.cores), reader := Reading)
    ensures |r.host.cores| == 1 && !r.host.cores[0].closed
  {
    var m := Do(s, DoDeliverNext(true, {}));
    TakesOne(s, DoDeliverNext(true, {}));
    assert m == s.(host := s.host.(cores := m.host.cores), reader := Delivering([], []));
    r := Do(m, DoCancelLimited(true, {}));
    TakesNext(s, [DoDeliverNext(true, {})], m, DoCancelLimited(true, {}));
  }

  lemma FailPromptTakes(s: System, id: nat, serial: nat, interrupt: Option<PendingInterrupt>) returns (r: System)
    requires Prompted(s, id, serial, interrupt)
    ensures Takes(s, FailPrompt(id), r) && Quiet(r, id + 1, serial + 1) && r.callers == s.callers
    ensures HostInterrupt.EndedByPromptError(r.host.log, serial)
  {
    var two := [DoRead(Response(id, RemoteError))] + [DoInterpret];
    var m := ReadErrorTakes(s, id, serial, interrupt);
    var m1 := FailTakes(m, id, serial, interrupt);
    TakesThen(s, two, m, [DoAct({})], m1);
    r := DeliverTakes(m1);
    TakesThen(s, two + [DoAct({})], m1, [DoDeliverNext(true, {})] + [DoCancelLimited(true, {})], r);
    assert two + [DoAct({})] + ([DoDeliverNext(true, {})] + [DoCancelLimited(true, {})]) == FailPrompt(id);
  }

  /** The first half: a turn is interrupted by thread 1 and ends by a prompt error. */
  const FIRST: seq<Action> := OpenSession(0, A, 1, N) + PROMPT + [DoInterrupt(1, A, Some("first"))] + FailPrompt(2)

  lemma OneIsQuiet(limit: nat) returns (r: System)
    ensures Takes(FreshSystem(limit), OpenSession(0, A, 1, N), r) && Quiet(r, 2, 0) && r.callers == map[0 := Idle]
    ensures r.host.cores == [LaneCore(A, [], false)] && r.host.log == After(Start, Bound(0, N))
  {
    OneIs(limit);
    r := One(limit);
    assert Serials(r.host.log) == Serials(r.host.log.earlier);
  }

  lemma FirstPrompted(limit: nat) returns (r: System)
    ensures Takes(FreshSystem(limit), OpenSession(0, A, 1, N) + PROMPT, r) && Prompted(r, 2, 0, None)
    ensures r.callers == map[0 := Idle] && r.host.cores == [LaneCore(A, [], false)]
    ensures r.host.log == After(After(Start, Bound(0, N)), Began(N, 0, A, 0))
  {
    var s := OneIsQuiet(limit);
    r := PromptTakes(s, 2, 0);
    TakesThen(FreshSystem(limit), OpenSession(0, A, 1, N), s, PROMPT, r);
  }

  lemma FirstHalf(limit: nat) returns (r: System)
    ensures Takes(FreshSystem(limit), FIRST, r) && Quiet(r, 3, 1)
    ensures r.callers == map[0 := Idle, 1 := Interrupting(N, 0)] && HostInterrupt.EndedByPromptError(r.host.log, 0)
  {
    var s := FreshSystem(limit);
    var s2 := FirstPrompted(limit);
    var s3 := InterruptTakes(s2, 2, 0, 1, "first");
    TakesThen(s, OpenSession(0, A, 1, N) + PROMPT, s2, [DoInterrupt(1, A, Some("first"))], s3);
    r := FailPromptTakes(s3, 2, 0, Some(Asked("first")));
    TakesThen(s, OpenSession(0, A, 1, N) + PROMPT + [DoInterrupt(1, A, Some("first"))], s3, FailPrompt(2), r);
  }

  /** Then the next turn is interrupted by thread 2, before thread 1 comes to its second region. */
  const ASTRAY: seq<Action> := FIRST + PROMPT + [DoInterrupt(2, A, Some("second"))]

  lemma Astray(limit: nat) returns (r: System)
    ensures Takes(FreshSystem(limit), ASTRAY, r) && Prompted(r, 3, 1, Some(Asked("second")))
    ensures At(r.callers, 1) == Interrupting(N, 0) && HostInterrupt.EndedByPromptError(r.host.log, 0)
  {
    var s := FreshSystem(limit);
    var s1 := FirstHalf(limit);
    var s2 := PromptTakes(s1, 3, 1);
    TakesThen(s, FIRST, s1, PROMPT, s2);
    r := InterruptTakes(s2, 3, 1, 2, "second");
    TakesThen(s, FIRST + PROMPT, s2, [DoInterrupt(2, A, Some("second"))], r);
  }

  lemma CancelTakes(s: System, commands: seq<string>) returns (r: System)
    requires Prompted(s, 3, 1, Some(Asked("second"))) && At(s.callers, 1) == Interrupting(N, 0)
    ensures Takes(s, [DoIssueCancel(1, Some(commands))], r)
    ensures N in r.host.turns && r.host.turns[N].serial == 1
    ensures r.host.turns[N].interrupt == Some(PendingInterrupt(Some("second"), 0, commands))
  {
    r := Do(s, DoIssueCancel(1, Some(commands)));
    TakesOne(s, DoIssueCancel(1, Some(commands)));
  }

  /** The commands thread 1 issued for the turn it marked are put to the request thread 2 made of the
      turn after it: both were asked for at sequence 0. */
  lemma InterruptCanGoAstray(limit: nat, commands: seq<string>)
    ensures var s := RunSystem(FreshSystem(limit), ASTRAY);
            && CausalRun(FreshSystem(limit), ASTRAY) && At(s.callers, 1) == Interrupting(N, 0)
            && HostInterrupt.EndedByPromptError(s.host.log, 0)
            && StillOpen(s.host, N, 0) && !HostInterrupt.Owns(s.host, N, 0)
    ensures var h := RunSystem(FreshSystem(limit), ASTRAY + [DoIssueCancel(1, Some(commands))]).host;
            && N in h.turns && h.turns[N].serial == 1
            && h.turns[N].interrupt == Some(PendingInterrupt(Some("second"), 0, commands))
  {
    var s := Astray(limit);
    var r := CancelTakes(s, commands);
    TakesThen(FreshSystem(limit), ASTRAY, s, [DoIssueCancel(1, Some(commands))], r);
  }

  // --------------------------------------------- a stop's record that is refused

  predicate EndedOn(h: Host, full: set<LaneId>) {
    && h.closed && A in h.lastTurn
    && h.cores == [LaneCore(A, if 0 in full then [] else [TurnEnded(h.lastTurn[A])], true)]
    && h.log.After? && h.log.entry.Ended? && h.log.entry.record == h.lastTurn[A]
    && h.log.entry.cause == ByStop("stopped", 0 !in full) && h.log.entry.to == Some(0)
  }

  lemma FailOnly(h: Host, full: set<LaneId>)
    requires h.turns.Keys == {N}
    ensures FailAll(h, Ascending(h.turns.Keys), "stopped", full) == FailAtStop(h, N, "stopped", full)
  {
    var natives := Ascending(h.turns.Keys);
    assert Least({N}) == N && {N} - {N} == {};
    assert natives == [N] + Ascending({});
    assert natives[1..] == [];
  }

  lemma StopOnly(h: Host, full: set<LaneId>)
    requires !h.closed && h.turns.Keys == {N} && h.turns[N].agentSession == A
    requires h.lanes == map[N := 0] && h.cores == [LaneCore(A, [], false)]
    ensures var r := Stop(h, "stopped", true, full);
            EndedOn(r, full) && r.log.earlier == h.log
  {
    FailOnly(h, full);
    var m := FailAtStop(h, N, "stopped", full);
    assert [] + [TurnEnded(m.lastTurn[A])] == [TurnEnded(m.lastTurn[A])];
    var r := Halt(m, "stopped", true);
    assert 0 in m.lanes.Values;
    assert r.cores == [r.cores[0]];
  }

  lemma StopNowTakes(s: System, full: set<LaneId>)
    ensures Takes(s, [DoStopBridge("stopped", true, full)], s.(host := Stop(s.host, "stopped", true, full)))
  {
    TakesOne(s, DoStopBridge("stopped", true, full));
  }

  lemma StopTakes(s: System, full: set<LaneId>) returns (r: System)
    requires Prompted(s, 2, 0, None) && s.host.cores == [LaneCore(A, [], false)]
    ensures Takes(s, [DoStopBridge("stopped", true, full)], r) && EndedOn(r.host, full)
    ensures r.host.log.earlier == s.host.log
  {
    assert s.host.turns.Keys == {N};
    StopOnly(s.host, full);
    r := s.(host := Stop(s.host, "stopped", true, full));
    StopNowTakes(s, full);
  }

  const IN_FLIGHT: seq<Action> := OpenSession(0, A, 1, N) + PROMPT

  /** A stop with a turn in flight, its lane's spool refusing or not: the record is kept as the last
      turn's either way, and the lane ends with it exactly when the spool takes it. */
  lemma StopRecordCanBeRefused(limit: nat, full: set<LaneId>)
    ensures CausalRun(FreshSystem(limit), IN_FLIGHT + [DoStopBridge("stopped", true, full)])
    ensures var h := RunSystem(FreshSystem(limit), IN_FLIGHT + [DoStopBridge("stopped", true, full)]).host;
            EndedOn(h, full) && StopsDue(h.log, 0) == [TurnEnded(h.lastTurn[A])] && (Refused(h.log, 0) <==> 0 in full)
  {
    var s := FirstPrompted(limit);
    var r := StopTakes(s, full);
    TakesThen(FreshSystem(limit), IN_FLIGHT, s, [DoStopBridge("stopped", true, full)], r);
    assert r.host.log.earlier == s.host.log;
  }

  // ------------------------------------------------- an open after the stop

  const READ_LATE: seq<Action> := [DoRead(Response(1, OpenedWith(N)))] + [DoInterpret]

  const LATE: seq<Action> := AskOpen(0, A) + READ_LATE + [HALTED] + [DoAct({})]

  /** One lane waiting for its open, and none bound. */
  predicate LaneWaits(h: Host) {
    h.turns == map[] && h.lanes == map[] && h.cores == [LaneCore(A, [], false)]
  }

  lemma HaltOne(h: Host)
    requires !h.closed && LaneWaits(h)
    ensures var r := Stop(h, "stopped", true, {});
            r.closed && LaneWaits(r)
  {
    QuietStop(h, "stopped", true, {});
    var r := Stop(h, "stopped", true, {});
    assert r.cores[0] == LaneCore(A, [], false);
    assert r.cores == [r.cores[0]];
  }

  lemma HaltWaiting(s: System) returns (r: System)
    requires !s.host.closed && LaneWaits(s.host)
    ensures Takes(s, [HALTED], r) && r.host.closed && LaneWaits(r.host) && r.reader == s.reader
  {
    HaltOne(s.host);
    r := Do(s, HALTED);
    TakesOne(s, HALTED);
  }

  predicate BoundLate(h: Host) {
    && h.closed && h.lanes == map[N := 0] && h.cores == [LaneCore(A, [], false)]
    && 0 in EverBound(h.log)
  }

  /** The registration that comes after the stop. */
  lemma BindLate(s: System, a: Adapter) returns (r: System)
    requires s.reader == Interpreted(Ok(OpenSignals(a, A, N)), TookControl(1, OpenWaiter(0, None)))
    requires s.host.closed && LaneWaits(s.host)
    ensures Takes(s, [DoAct({})], r) && BoundLate(r.host)
  {
    SystemIdentity.RegisterOpenOne(s.host, 0, OpenSignals(a, A, N));
    r := Do(s, DoAct({}));
    TakesOne(s, DoAct({}));
  }

  lemma Late(limit: nat) returns (r: System)
    ensures Takes(FreshSystem(limit), LATE, r) && BoundLate(r.host)
  {
    var s := FreshSystem(limit);
    var s1 := AskedOpen(s, 0, A);
    AskOpenTakes(s, 0, A);
    RegisterControlEffect(s.host, 1, Registering(A));
    assert s1.host.cores == [LaneCore(A, [], false)];
    ReadOpenTakes(s1, 1, A, 0, N);
    var s2 := ReadOpen(s1, 1, A, 0, N);
    TakesThen(s, AskOpen(0, A), s1, READ_LATE, s2);
    r := LateFrom(s, s2, s1.adapter);
  }

  lemma LateFrom(s: System, s2: System, a: Adapter) returns (r: System)
    requires Takes(s, AskOpen(0, A) + READ_LATE, s2)
    requires s2.reader == Interpreted(Ok(OpenSignals(a, A, N)), TookControl(1, OpenWaiter(0, None)))
    requires !s2.host.closed && LaneWaits(s2.host)
    ensures Takes(s, LATE, r) && BoundLate(r.host)
  {
    var s3 := HaltWaiting(s2);
    TakesThen(s, AskOpen(0, A) + READ_LATE, s2, [HALTED], s3);
    r := BindLate(s3, a);
    TakesThen(s, AskOpen(0, A) + READ_LATE + [HALTED], s3, [DoAct({})], r);
  }

  /** A stop between taking the waiter and registering its open: the lane is bound on a stopped bridge
      and does not end, whatever any thread, the reader or the provider does afterwards. */
  lemma LaneCanOutliveTheBridge(limit: nat, more: seq<Action>)
    requires CausalRun(RunSystem(FreshSystem(limit), LATE), more)
    ensures CausalRun(FreshSystem(limit), LATE + more)
    ensures var h := RunSystem(FreshSystem(limit), LATE).host;
            N in h.lanes && h.lanes[N] == 0 && StillRunning(h, 0) && !StopEndsLanes(h)
    ensures StillRunning(RunSystem(FreshSystem(limit), LATE + more).host, 0)
  {
    var s := Late(limit);
    RunJoin(FreshSystem(limit), LATE, more);
    assert !LaneEnded(s.host, 0);
    FreshHealthy(limit);
    RunHealthy(FreshSystem(limit), LATE);
    RunRefines(s, more);
    LateLaneNeverEnds(s.host, Regions(s, more), 0);
  }

  // -------------------------------------------- an answer the host does not take

  const ASKED: seq<Action> := [DoStartHandshake(0)] + [DoRegister(0)] + [DoSend(0, true)]

  const NEGOTIATED := Reply(Some(1), {Load}, false, true, Absent, true, None)

  const SLIPPED: seq<Action> := ASKED + [DoRead(MarkedResponse(1, NEGOTIATED))] + [DoInterpret] + [DoAct({})]

  function HandshakeAsked(limit: nat): System {
    FreshSystem(limit).(host := FreshHost(limit).(control := map[1 := Handshake]),
                        adapter := Request(FRESH_ADAPTER, Initialize).adapter,
                        callers := map[0 := Awaiting(1, ForHandshake)],
                        gate := Some(0),
                        sent := {1})
  }

  lemma AskedIs(limit: nat)
    ensures Takes(FreshSystem(limit), ASKED, HandshakeAsked(limit))
  {
    var s := FreshSystem(limit);
    var r := HandshakeAsked(limit);
    var s1 := s.(adapter := r.adapter, gate := Some(0), callers := map[0 := IssuedControl(1, ForHandshake)]);
    assert Do(s, DoStartHandshake(0)) == s1;
    TakesOne(s, DoStartHandshake(0));
    var s2 := s1.(host := r.host, callers := map[0 := RegisteredControl(1, ForHandshake)]);
    assert s2.callers == s1.callers[0 := RegisteredControl(1, ForHandshake)];
    assert Do(s1, DoRegister(0)) == s2;
    TakesNext(s, [DoStartHandshake(0)], s1, DoRegister(0));
    assert r.callers == s2.callers[0 := Awaiting(1, ForHandshake)];
    assert Do(s2, DoSend(0, true)) == r;
    TakesNext(s, [DoStartHandshake(0)] + [DoRegister(0)], s2, DoSend(0, true));
  }

  /** The marked answer is interpreted as an answer though it was not taken for one. */
  lemma SlipInterpreted(s: System) returns (r: System)
    requires s.reader == Took(MarkedResponse(1, NEGOTIATED), NoWaiter)
    requires s.adapter.pending == map[1 := Initialize]
    ensures Takes(s, [DoInterpret], r)
    ensures r == s.(adapter := r.adapter, reader := r.reader) && 1 !in r.adapter.pending
    ensures r.reader.Interpreted? && r.reader.taken == NoWaiter && r.reader.result.Ok?
  {
    r := Interpret(s);
    TakesOne(s, DoInterpret);
  }

  lemma SlipRouted(s: System) returns (r: System)
    requires s.reader.Interpreted? && s.reader.taken == NoWaiter && s.reader.result.Ok?
    ensures Takes(s, [DoAct({})], r)
    ensures r == s.(host := r.host, reader := r.reader)
    ensures r.host.control == s.host.control && r.host.closed == s.host.closed
  {
    HostHistory.RouteFrame(s.host, s.reader.result.value);
    r := Act(s, {});
    TakesOne(s, DoAct({}));
  }

  /** The rest of the run, from where the marked answer has been read. */
  lemma SlipFrom(s: System, a: seq<Action>, m: System) returns (r: System)
    requires Takes(s, a, m) && m.reader == Took(MarkedResponse(1, NEGOTIATED), NoWaiter)
    requires m.adapter.pending == map[1 := Initialize] && 1 in m.host.control
    ensures Takes(s, a + [DoInterpret] + [DoAct({})], r) && !NoneSlipsBy(s, a + [DoInterpret] + [DoAct({})])
    ensures r.callers == m.callers && r.channel == m.channel && 1 !in r.adapter.pending
    ensures r.host.control == m.host.control && r.host.closed == m.host.closed
  {
    var m1 := SlipInterpreted(m);
    TakesThen(s, a, m, [DoInterpret], m1);
    r := SlipRouted(m1);
    TakesThen(s, a + [DoInterpret], m1, [DoAct({})], r);
    assert SlipsBy(m, DoInterpret);
    SlipsWhere(s, a, m, [DoInterpret] + [DoAct({})]);
    assert a + ([DoInterpret] + [DoAct({})]) == a + [DoInterpret] + [DoAct({})];
  }

  /** A handshake answered by a response that also carries a method member which is no string: the
      adapter takes it for the answer and forgets the request, the host does not; the caller goes on
      waiting with its answer gone. */
  lemma AnswerCanSlipBy(limit: nat)
    ensures CausalRun(FreshSystem(limit), SLIPPED) && !NoneSlipsBy(FreshSystem(limit), SLIPPED)
    ensures var s := RunSystem(FreshSystem(limit), SLIPPED);
            && !s.host.closed && At(s.callers, 0) == Awaiting(1, ForHandshake)
            && 1 in s.host.control && 1 !in s.adapter.pending && 1 !in s.channel && !Remembered(s)
  {
    AskedIs(limit);
    var s := FreshSystem(limit);
    var m := HandshakeAsked(limit);
    var read := DoRead(MarkedResponse(1, NEGOTIATED));
    TakesNext(s, ASKED, m, read);
    var m1 := m.(reader := Took(MarkedResponse(1, NEGOTIATED), NoWaiter));
    assert Do(m, read) == m1;
    var r := SlipFrom(s, ASKED + [read], m1);
  }

  lemma {:induction false} SlipsWhere(s: System, a: seq<Action>, m: System, b: seq<Action>)
    requires Takes(s, a, m) && b != [] && SlipsBy(m, b[0])
    ensures !NoneSlipsBy(s, a + b)
    decreases |a|
  {
    if a == [] {
      assert a + b == b;
    } else {
      assert (a + b)[0] == a[0] && (a + b)[1..] == a[1..] + b;
      SlipsWhere(Do(s, a[0]), a[1..], m, b);
    }
  }
}
