/** Where signals go, said of the host's fields: to the lane their native id is bound to, to the lane
    whose opener waits for exactly that id, or to nobody; and what a batch does to turns on its way. */
module HostRouting {
  import opened Prelude
  import opened Tokens
  import opened Connection
  import opened SessionHost
  import opened HostHistory
  import opened HostTheorems

  datatype Sent = Sent(to: Option<LaneId>, signal: Signal)

  /** Every signal ever routed, with where it went. */
  function Routings(log: Log): seq<Sent> {
    match log
    case Start => []
    case After(earlier, entry) =>
      if entry.Routed? then Routings(earlier) + [Sent(entry.to, entry.signal)] else Routings(earlier)
  }

  /** Every native session whose turn ran into the limit, in order. */
  function Limited(log: Log): seq<NativeId> {
    match log
    case Start => []
    case After(earlier, entry) =>
      if entry.LimitReached? then Limited(earlier) + [entry.nativeId] else Limited(earlier)
  }

  predicate Awaits(w: Waiter, n: NativeId) {
    w.OpenWaiter? && w.loading == Some(n)
  }

  predicate Awaited(control: map<nat, Waiter>, n: NativeId) {
    exists t :: t in control && Awaits(control[t], n)
  }

  /** The lane of the waiter for a load of n whose token text comes first. */
  ghost predicate FirstAwaiting(control: map<nat, Waiter>, n: NativeId, lane: LaneId) {
    exists t :: t in control && Awaits(control[t], n) && control[t].lane == lane
                && forall u :: u in control && Awaits(control[u], n) ==> AtMost(Decimal(t), Decimal(u))
  }

  /** Where a signal belongs. */
  ghost predicate Belongs(lanes: map<NativeId, LaneId>, control: map<nat, Waiter>, signal: Signal, to: Option<LaneId>) {
    match signal.nativeId
    case None => to.None?
    case Some(n) =>
      if n in lanes then to == Some(lanes[n])
      else if Awaited(control, n) then to.Some? && FirstAwaiting(control, n, to.value)
      else to.None?
  }

  lemma {:induction false} ResolvesFirst(h: Host, n: NativeId)
    ensures n in h.lanes ==> Resolve(h, n) == Some(h.lanes[n])
    ensures n !in h.lanes && Awaited(h.control, n) ==>
              Resolve(h, n).Some? && FirstAwaiting(h.control, n, Resolve(h, n).value)
    ensures n !in h.lanes && !Awaited(h.control, n) ==> Resolve(h, n).None?
  {
    if n !in h.lanes && Awaited(h.control, n) {
      var t :| t in h.control && Awaits(h.control[t], n);
      assert t in Loaders(h.control, n);
      var first := FirstByText(Loaders(h.control, n));
      assert ComesFirst(Loaders(h.control, n), first);
      forall u | u in h.control && Awaits(h.control[u], n) ensures AtMost(Decimal(first), Decimal(u)) {
        assert u in Loaders(h.control, n);
      }
    } else if n !in h.lanes {
      assert forall t :: t !in Loaders(h.control, n);
    }
  }

  lemma {:induction false} DestinationBelongs(h: Host, signal: Signal)
    ensures Belongs(h.lanes, h.control, signal, Destination(h, signal))
  {
    if signal.nativeId.Some? {
      ResolvesFirst(h, signal.nativeId.value);
    }
  }

  // ------------------------------------------------------------- one signal

  /** What one signal sent to a lane, or to none, leaves behind. */
  ghost predicate Handled(h: Host, signal: Signal, to: Option<LaneId>, r: Routing) {
    && Routings(r.host.log) == Routings(h.log) + [Sent(to, signal)]
    && Limited(r.host.log) == Limited(h.log) + r.limited
    && r.host.lanes == h.lanes && r.host.control == h.control
    && match to
       case None => r.deliveries == [] && r.host.turns == h.turns
       case Some(lane) =>
         && signal.nativeId.Some? && r.deliveries != [] && r.deliveries[0] == Delivery(lane, SignalEvent(signal))
         && var n := signal.nativeId.value;
            && (forall m :: m in r.host.turns <==> m in h.turns && !(m == n && Terminal(signal.kind)))
            && |r.deliveries| == (if Terminal(signal.kind) && n in h.turns then 2 else 1)
            && (|r.deliveries| == 2 ==> r.deliveries[1].lane == lane && r.deliveries[1].event.TurnEnded?)
  }

  /** What a signal does once it has been counted on its lane. */
  ghost predicate Settles(h: Host, n: NativeId, lane: LaneId, signal: Signal, r: Routing) {
    && Routings(r.host.log) == Routings(h.log) && Limited(r.host.log) == Limited(h.log) + r.limited
    && r.deliveries != [] && r.deliveries[0] == Delivery(lane, SignalEvent(signal))
    && (forall m :: m in r.host.turns <==> m in h.turns && !(m == n && Terminal(signal.kind)))
    && |r.deliveries| == (if Terminal(signal.kind) && n in h.turns then 2 else 1)
    && (|r.deliveries| == 2 ==> r.deliveries[1].lane == lane && r.deliveries[1].event.TurnEnded?)
  }

  lemma CloseSettles(h: Host, n: NativeId, lane: LaneId, signal: Signal)
    requires n in h.turns && Terminal(signal.kind)
    ensures Settles(h, n, lane, signal, CloseByWire(h, n, lane, signal))
  {
    var record := WireRecord(h, n, h.turns[n], signal.kind);
    var r := CloseByWire(h, n, lane, signal);
    assert r.host.log == After(h.log, Ended(n, h.turns[n].serial, record, ByWire(signal), Some(lane)));
    assert Limited(h.log) + [] == Limited(h.log);
    assert r.host.turns == h.turns - {n};
  }

  lemma LimitSettles(h: Host, n: NativeId, lane: LaneId, signal: Signal)
    requires n in h.turns && !Terminal(signal.kind)
    ensures Settles(h, n, lane, signal, Routing(MarkLimit(h, n), [Delivery(lane, SignalEvent(signal))], [n]))
  {
    assert MarkLimit(h, n).log == After(h.log, LimitReached(n, h.turns[n].serial));
  }

  lemma PassSettles(h: Host, n: NativeId, lane: LaneId, signal: Signal)
    requires !(n in h.turns && Terminal(signal.kind))
    ensures Settles(h, n, lane, signal, Routing(h, [Delivery(lane, SignalEvent(signal))], []))
  {
    assert Limited(h.log) + [] == Limited(h.log);
  }

  lemma {:induction false} SettleHandles(h: Host, n: NativeId, lane: LaneId, signal: Signal)
    ensures Settles(h, n, lane, signal, Settle(h, n, lane, signal))
  {
    if Terminal(signal.kind) && n in h.turns {
      CloseSettles(h, n, lane, signal);
    } else if !Terminal(signal.kind) && PastLimit(h, n) {
      LimitSettles(h, n, lane, signal);
    } else {
      PassSettles(h, n, lane, signal);
    }
  }

  lemma {:induction false} RouteToHandles(h: Host, signal: Signal, to: Option<LaneId>)
    requires to.Some? ==> signal.nativeId.Some?
    ensures Handled(h, signal, to, RouteTo(Advance(h, signal.sequence), signal, to))
  {
    var h1 := Advance(h, signal.sequence);
    match to
    case None =>
      assert Limited(h.log) + [] == Limited(h.log);
      assert PushUnattributed(h1, signal).log == After(h.log, Routed(None, signal));
    case Some(lane) =>
      var n := signal.nativeId.value;
      var h2 := Observe(h1, n, lane, signal);
      assert h2.log == After(h.log, Routed(to, signal)) && h2.turns.Keys == h.turns.Keys;
      SettleHandles(h2, n, lane, signal);
      SettleFrame(h2, n, lane, signal);
  }

  /** Every signal goes where it belongs. */
  lemma {:induction false} SignalGoesWhereItBelongs(h: Host, signal: Signal) returns (to: Option<LaneId>)
    ensures Belongs(h.lanes, h.control, signal, to) && Handled(h, signal, to, RouteOne(h, signal))
  {
    to := Destination(h, signal);
    DestinationBelongs(h, signal);
    RouteToHandles(h, signal, to);
    RouteOneFrame(h, signal);
  }

  // --------------------------------------------------------------- a batch

  /** The signals among these deliveries, with their lanes. */
  function Carried(deliveries: seq<Delivery>): seq<Sent>
    decreases |deliveries|
  {
    if deliveries == [] then []
    else (if deliveries[0].event.SignalEvent? then [Sent(Some(deliveries[0].lane), deliveries[0].event.signal)] else [])
         + Carried(deliveries[1..])
  }

  lemma {:induction false} CarriedJoin(a: seq<Delivery>, b: seq<Delivery>)
    ensures Carried(a + b) == Carried(a) + Carried(b)
    decreases |a|
  {
    if a == [] {
      assert a + b == b;
    } else {
      assert (a + b)[0] == a[0] && (a + b)[1..] == a[1..] + b;
      CarriedJoin(a[1..], b);
      var first := if a[0].event.SignalEvent? then [Sent(Some(a[0].lane), a[0].event.signal)] else [];
      SentJoin(first, Carried(a[1..]), Carried(b));
    }
  }

  lemma SentJoin(a: seq<Sent>, b: seq<Sent>, c: seq<Sent>)
    ensures a + b + c == a + (b + c)
  {
  }

  /** Those sent to a lane. */
  function Attributed(sent: seq<Sent>): seq<Sent>
    decreases |sent|
  {
    if sent == [] then [] else (if sent[0].to.Some? then [sent[0]] else []) + Attributed(sent[1..])
  }

  ghost predicate AllBelong(lanes: map<NativeId, LaneId>, control: map<nat, Waiter>, sent: seq<Sent>) {
    forall i :: 0 <= i < |sent| ==> Belongs(lanes, control, sent[i].signal, sent[i].to)
  }

  function SignalsOf(sent: seq<Sent>): seq<Signal> {
    seq(|sent|, i requires 0 <= i < |sent| => sent[i].signal)
  }

  predicate Ends(s: Sent, n: NativeId) {
    s.to.Some? && s.signal.nativeId == Some(n) && Terminal(s.signal.kind)
  }

  /** A terminal signal naming n that reached a lane. */
  predicate Closes(sent: seq<Sent>, n: NativeId) {
    exists i :: 0 <= i < |sent| && Ends(sent[i], n)
  }

  lemma {:induction false} HandledCarries(h: Host, signal: Signal, to: Option<LaneId>, r: Routing)
    requires Handled(h, signal, to, r)
    ensures Carried(r.deliveries) == if to.Some? then [Sent(to, signal)] else []
  {
    if to.Some? {
      assert Carried(r.deliveries[1..]) == [] by {
        if |r.deliveries| == 2 { assert r.deliveries[1..][0] == r.deliveries[1] && r.deliveries[1..][1..] == []; }
      }
    }
  }

  /** A batch, signal by signal: each goes where it belongs; what is delivered are exactly those that
      belong somewhere, in order and to their lanes; a turn ends exactly when one of them closes it;
      and the turns handed on to be cancelled are exactly those logged as limited. */
  lemma {:induction false} BatchGoesWhereItBelongs(h: Host, signals: seq<Signal>) returns (sent: seq<Sent>)
    ensures SignalsOf(sent) == signals && AllBelong(h.lanes, h.control, sent)
    ensures var r := Route(h, signals);
            && Routings(r.host.log) == Routings(h.log) + sent
            && Carried(r.deliveries) == Attributed(sent)
            && Limited(r.host.log) == Limited(h.log) + r.limited
            && forall n :: n in r.host.turns <==> n in h.turns && !Closes(sent, n)
    decreases |signals|
  {
    if signals == [] {
      sent := [];
      assert Routings(h.log) + sent == Routings(h.log) && Limited(h.log) + [] == Limited(h.log);
    } else {
      var first := RouteOne(h, signals[0]);
      var to := SignalGoesWhereItBelongs(h, signals[0]);
      HandledCarries(h, signals[0], to, first);
      var rest := BatchGoesWhereItBelongs(first.host, signals[1..]);
      var more := Route(first.host, signals[1..]);
      sent := [Sent(to, signals[0])] + rest;
      CarriedJoin(first.deliveries, more.deliveries);
      assert sent[1..] == rest;
      SentJoin(Routings(h.log), [Sent(to, signals[0])], rest);
      LimitedJoin(Limited(h.log), first.limited, more.limited);
      SentFirst(h, to, signals, rest);
      forall n: NativeId ensures Closes(sent, n) <==>
                       Closes(rest, n) || (to.Some? && signals[0].nativeId == Some(n) && Terminal(signals[0].kind))
      {
        ClosesPush(Sent(to, signals[0]), rest, n);
      }
    }
  }

  lemma LimitedJoin(a: seq<NativeId>, b: seq<NativeId>, c: seq<NativeId>)
    ensures a + b + c == a + (b + c)
  {
  }

  lemma SentFirst(h: Host, to: Option<LaneId>, signals: seq<Signal>, rest: seq<Sent>)
    requires signals != [] && SignalsOf(rest) == signals[1..]
    requires Belongs(h.lanes, h.control, signals[0], to) && AllBelong(h.lanes, h.control, rest)
    ensures var sent := [Sent(to, signals[0])] + rest;
            SignalsOf(sent) == signals && AllBelong(h.lanes, h.control, sent)
  {
    var sent := [Sent(to, signals[0])] + rest;
    forall i | 0 <= i < |sent| ensures SignalsOf(sent)[i] == signals[i] {
      if i > 0 { assert SignalsOf(rest)[i - 1] == signals[1..][i - 1]; }
    }
  }

  lemma ClosesPush(first: Sent, rest: seq<Sent>, n: NativeId)
    ensures Closes([first] + rest, n) <==>
              Closes(rest, n) || (first.to.Some? && first.signal.nativeId == Some(n) && Terminal(first.signal.kind))
  {
    var sent := [first] + rest;
    assert sent[0] == first;
    if Closes(rest, n) {
      var i :| 0 <= i < |rest| && Ends(rest[i], n);
      assert sent[i + 1] == rest[i];
    }
  }
}
