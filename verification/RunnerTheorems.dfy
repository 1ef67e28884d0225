/**
 What the invariant of the connection machine means for its users, over every run.
 */
module RunnerTheorems {
  import opened Wrappers
  import opened Bits
  import opened RunnerModel
  import opened RunnerSafety

  // ---- one line at a time

  function LiveWaits(waits: map<nat, Wait>): set<nat> {
    set id | id in waits && waits[id].status != Cancelled
  }

  /** Live connections, connection attempts and pending reconnects, together. */
  function Lines(l: Link): nat {
    (if l.connected then 1 else 0) + |l.dialing| + |LiveWaits(l.reconnects)|
  }

  lemma LinesOf(l: Link)
    requires LinkInv(l)
    ensures Lines(l) <= 1
    ensures l.started && l.stops == 0 ==> Lines(l) == 1
  {
    var live := LiveWaits(l.reconnects);
    assert forall id :: id in live ==> Live(l.reconnects, id);
    if Pending(l.reconnects, l.reconnectTimer) {
      assert live == {l.reconnectTimer.value};
    } else {
      assert live == {};
    }
    if l.dialing != multiset{} {
      assert |l.dialing| > 0;
    }
  }

  /** Never two of connection, attempt and pending reconnect; and, once started, always one until `stop` is called. */
  lemma OneLineAlways(es: seq<Event>)
    requires Possible(es)
    ensures Lines(After(es).link) <= 1
    ensures After(es).link.started && After(es).link.stops == 0 ==> Lines(After(es).link) == 1
  {
    hide After, LinkInv, Lines, OutboxInv, InboxInv, PulseInv;
    RunKeepsInv(es);
    LinesOf(After(es).link);
  }

  /** The listener hears connected, disconnected, connected, ... and `connected` says which came last. */
  lemma CallbacksAlternate(es: seq<Event>)
    requires Possible(es)
    ensures var l := After(es).link;
      && (forall i :: 0 <= i < |l.callbacks| ==> (l.callbacks[i].OnConnected? <==> i % 2 == 0))
      && (l.connected <==> l.callbacks != [] && l.callbacks[|l.callbacks| - 1].OnConnected?)
  {
    hide After, WaitsOf, OutboxInv, InboxInv, PulseInv;
    RunKeepsInv(es);
  }

  // ---- messages

  /** The messages handed over so far, in the order their tasks ran. */
  function Handed(es: seq<Event>): seq<Msg> {
    if es == [] then []
    else
      Handed(es[..|es| - 1]) +
      match es[|es| - 1].what
      case RunSend(m) => [m]
      case RunPing => [PING]
      case _ => []
  }

  /** The messages whose writes succeeded on a connection that was still up, in the order of completion. */
  function WrittenOut(es: seq<Event>): seq<Msg>
    requires Possible(es)
  {
    if es == [] then []
    else
      var e := es[|es| - 1];
      WrittenOut(es[..|es| - 1]) +
      if e.what.WriteDone? && e.what.ok && After(es[..|es| - 1]).link.connected then [e.what.write.msg] else []
  }

  function AcknowledgedOf(fates: seq<Fate>): seq<Msg> {
    if fates == [] then []
    else
      var n := |fates| - 1;
      AcknowledgedOf(fates[..n]) + (if fates[n].Acknowledged? then [fates[n].msg] else [])
  }

  lemma {:induction false} DroppedNotAcknowledged(fates: seq<Fate>, q: seq<Msg>)
    ensures AcknowledgedOf(fates + AllDropped(q)) == AcknowledgedOf(fates)
  {
    if q == [] {
      assert fates + AllDropped(q) == fates;
    } else {
      var n := |q| - 1;
      assert (fates + AllDropped(q))[..|fates| + n] == fates + AllDropped(q[..n]);
      DroppedNotAcknowledged(fates, q[..n]);
    }
  }

  lemma OneMoreFate(fates: seq<Fate>, f: Fate)
    ensures AcknowledgedOf(fates + [f]) == AcknowledgedOf(fates) + (if f.Acknowledged? then [f.msg] else [])
  {
    assert (fates + [f])[..|fates|] == fates;
  }

  lemma StepHands(w: World, e: Event)
    requires Inv(w) && Enabled(w, e)
    ensures Step(w, e).outbox.enqueued == w.outbox.enqueued +
      match e.what
      case RunSend(m) => [m]
      case RunPing => [PING]
      case _ => []
  {
    hide Inv, Drained, CanExpire, CanComplete, Lose, ScheduleReconnect, Redial, StartPingTimer, StopPinging;
  }

  lemma StepWrites(w: World, e: Event)
    requires Inv(w) && Enabled(w, e)
    ensures AcknowledgedOf(Step(w, e).outbox.fates) == AcknowledgedOf(w.outbox.fates) +
      if e.what.WriteDone? && e.what.ok && w.link.connected then [e.what.write.msg] else []
  {
    hide LinkInv, OutboxInv, InboxInv, PulseInv, Drained, CanExpire, CanComplete, Lose, Redial, StartPingTimer,
         StopPinging, AcknowledgedOf;
    var o := w.outbox;
    DroppedNotAcknowledged(o.fates, o.writeQueue);
    if e.what.WriteDone? && w.link.connected {
      CompletesFront(o, e.what.write, w.link);
      OneMoreFate(o.fates, Acknowledged(e.what.write.msg));
    }
  }

  /** The guards of `doReconnect`: this event closes the old stream and drops what is queued. */
  predicate Reconnects(w: World, e: Event) {
    && e.what.ReconnectWaitDone? && e.what.id in w.link.reconnects
    && w.link.reconnects[e.what.id].status == Expired && !w.link.stopping && !w.link.connected
  }

  /** How many messages had been handed over when the queue was last cleared. */
  function LastClear(es: seq<Event>): nat
    requires Possible(es)
  {
    if es == [] then 0
    else
      var before := es[..|es| - 1];
      if Reconnects(After(before), es[|es| - 1]) then |Handed(before)| else LastClear(before)
  }

  lemma StepFates(w: World, e: Event)
    requires Inv(w) && Enabled(w, e)
    ensures var o, q := w.outbox, Step(w, e).outbox;
      if Reconnects(w, e) then |q.fates| == |o.enqueued|
      else o.fates <= q.fates && forall i :: |o.fates| <= i < |q.fates| ==> q.fates[i].Acknowledged?
  {
    hide LinkInv, OneWrite, InboxInv, PulseInv, Drained, CanExpire, Lose, ScheduleReconnect, Redial, StartPingTimer,
         StopPinging, PingSent, FreshPulse, Upgraded, Closed;
  }

  lemma {:induction false} ClearsLast(es: seq<Event>)
    requires Possible(es)
    ensures var fates := After(es).outbox.fates;
      LastClear(es) <= |fates| && forall i :: LastClear(es) <= i < |fates| ==> fates[i].Acknowledged?
  {
    hide Inv, Step, Enabled, Reconnects;
    if es != [] {
      var n := |es| - 1;
      ClearsLast(es[..n]);
      RunKeepsInv(es[..n]);
      HandedIsEnqueued(es[..n]);
      StepFates(After(es[..n]), es[n]);
    }
  }

  /**
   Delivery over every run. The messages handed over are, in order, the ones with a fate and
   then the queue. The acknowledged ones are exactly those a successful write carried, in the
   order of completion. And since the last clear nothing was dropped: what was handed over
   since is a prefix that was acknowledged, followed by the queue.
   */
  lemma {:induction false} Delivery(es: seq<Event>)
    requires Possible(es)
    ensures var o := After(es).outbox; var c := LastClear(es);
      && Handed(es) == MsgsOf(o.fates) + o.writeQueue
      && AcknowledgedOf(o.fates) == WrittenOut(es)
      && c <= |o.fates|
      && (forall i :: c <= i < |o.fates| ==> o.fates[i].Acknowledged?)
      && Handed(es)[c..] == MsgsOf(o.fates)[c..] + o.writeQueue
  {
    hide After, Possible, LinkInv, OneWrite, InboxInv, PulseInv, AcknowledgedOf, WrittenOut, Handed, MsgsOf, LastClear;
    RunKeepsInv(es);
    HandedIsEnqueued(es);
    WrittenIsAcknowledged(es);
    ClearsLast(es);
  }

  lemma {:induction false} HandedIsEnqueued(es: seq<Event>)
    requires Possible(es)
    ensures Handed(es) == After(es).outbox.enqueued
  {
    hide Inv, Step, Enabled;
    if es != [] {
      var n := |es| - 1;
      HandedIsEnqueued(es[..n]);
      RunKeepsInv(es[..n]);
      StepHands(After(es[..n]), es[n]);
    }
  }

  lemma {:induction false} WrittenIsAcknowledged(es: seq<Event>)
    requires Possible(es)
    ensures WrittenOut(es) == AcknowledgedOf(After(es).outbox.fates)
  {
    hide Inv, Step, Enabled;
    if es != [] {
      var n := |es| - 1;
      WrittenIsAcknowledged(es[..n]);
      RunKeepsInv(es[..n]);
      StepWrites(After(es[..n]), es[n]);
    }
  }

  /** On a live connection at most one write is out, on this stream, carrying the front of the queue. */
  lemma OneWriteAlways(es: seq<Event>)
    requires Possible(es) && After(es).link.connected
    ensures var w := After(es);
      && |w.outbox.sending| <= 1
      && (forall x :: x in w.outbox.sending ==>
            w.outbox.writeQueue != [] && x == Write(w.link.stream, w.outbox.writeQueue[0]))
  {
    hide After, LinkInv, InboxInv, PulseInv, Accounted;
    RunKeepsInv(es);
  }

  /** Whether the last of: a write completed, a message was handed over, a connection came up, was a failed write. */
  function LastFailed(es: seq<Event>): bool {
    if es == [] then false
    else
      match es[|es| - 1].what
      case DialDone(p, ok) => !(ok && p == WsHandshake) && LastFailed(es[..|es| - 1])
      case WriteDone(_, ok) => !ok
      case RunSend(_) => false
      case RunPing => false
      case _ => LastFailed(es[..|es| - 1])
  }

  predicate Stalled(o: Outbox) {
    o.writeQueue != [] && !o.writing
  }

  lemma LinkChanges(l: Link, now: nat)
    ensures !Lose(l, now).connected && ScheduleReconnect(l, now).connected == l.connected
    ensures Redial(l).connected == l.connected && !Closed(l).connected
  {
  }

  lemma StepStalls(w: World, e: Event)
    requires Inv(w) && Enabled(w, e) && Step(w, e).link.connected
    ensures Stalled(Step(w, e).outbox) <==>
      match e.what
      case DialDone(p, ok) => !(ok && p == WsHandshake) && w.link.connected && Stalled(w.outbox)
      case WriteDone(_, ok) => !ok
      case RunSend(_) => false
      case RunPing => false
      case _ => w.link.connected && Stalled(w.outbox)
    ensures w.link.connected || (e.what.DialDone? && e.what.ok && e.what.phase == WsHandshake)
  {
    hide Inv, Drained, CanExpire, CanComplete, StartPingTimer, StopPinging, Lose, ScheduleReconnect, Redial, Closed;
    LinkChanges(w.link, e.at);
    match e.what
    case DialDone(p, ok) =>
      LinkChanges(w.link.(dialing := w.link.dialing - multiset{p}), e.at);
    case ReconnectWaitDone(id) =>
      LinkChanges(w.link.(reconnects := w.link.reconnects - {id}), e.at);
    case WriteDone(x, ok) =>
      Completes(w, x);
    case _ =>
  }

  lemma Completes(w: World, x: Write)
    requires Inv(w) && w.link.connected && x in w.outbox.sending
    ensures w.outbox.writing && w.outbox.writeQueue != []
  {
    hide LinkInv, OutboxInv, InboxInv, PulseInv;
    CompletesFront(w.outbox, x, w.link);
  }

  lemma {:induction false} StallsAfterFailure(es: seq<Event>)
    requires Possible(es) && After(es).link.connected
    ensures Stalled(After(es).outbox) <==> LastFailed(es)
  {
    hide Inv, Step, Enabled, Stalled;
    if es != [] {
      var n := |es| - 1;
      RunKeepsInv(es[..n]);
      StepStalls(After(es[..n]), es[n]);
      if After(es[..n]).link.connected {
        StallsAfterFailure(es[..n]);
      }
    }
  }

  /**
   No lost wakeup: on a live connection messages wait behind nothing exactly when the last thing
   that happened to the queue was a failed write. At any other time the queue is non-empty
   exactly when `writing` is set, and `writing` means that the front is on its way.
   */
  lemma NoLostWakeup(es: seq<Event>)
    requires Possible(es) && After(es).link.connected
    ensures var o := After(es).outbox;
      && (o.writeQueue != [] && !o.writing <==> LastFailed(es))
      && (!LastFailed(es) ==> (o.writeQueue != [] <==> o.writing))
      && (o.writing ==> o.writeQueue != [] && o.sending == multiset{Write(After(es).link.stream, o.writeQueue[0])})
  {
    hide After, LinkInv, InboxInv, PulseInv, Accounted;
    RunKeepsInv(es);
    StallsAfterFailure(es);
  }

  /** The proviso is needed: after a failed write the message stays queued with nothing on its way. */
  lemma FailedWriteStalls() returns (es: seq<Event>)
    ensures Possible(es) && After(es).link.connected
    ensures After(es).outbox.writeQueue != [] && !After(es).outbox.writing && After(es).outbox.sending == multiset{}
  {
    hide Possible, After;
    es := GoesUp();
    es := Then(es, Event(0, Send("m")));
    es := Then(es, Event(0, RunSend("m")));
    es := Then(es, Event(0, WriteDone(Write(0, "m"), false)));
  }

  /** A run that connects. */
  lemma GoesUp() returns (es: seq<Event>)
    ensures Possible(es) && After(es).link.connected && After(es).link.stream == 0 && After(es).now == 0
    ensures After(es).outbox == INITIAL.outbox && After(es).inbox.reading == multiset{0}
    ensures !After(es).link.stopping && After(es).link.stops == 0 && After(es).link.closesPosted == 0
  {
    NoEvents();
    hide Possible, After;
    es := Then([], Event(0, Start));
    es := Then(es, Event(0, DialDone(Resolve, true)));
    es := Then(es, Event(0, DialDone(Connect, true)));
    es := Then(es, Event(0, DialDone(TlsHandshake, true)));
    es := Then(es, Event(0, DialDone(WsHandshake, true)));
  }

  lemma NoEvents()
    ensures Possible([]) && After([]) == INITIAL
  {
  }

  lemma Then(es: seq<Event>, e: Event) returns (more: seq<Event>)
    requires Possible(es) && Enabled(After(es), e)
    ensures more == es + [e] && Possible(more) && After(more) == Step(After(es), e)
  {
    hide Step;
    more := es + [e];
    assert more[..|es|] == es;
  }

  // ---- stopping

  /** The connection is closing, or there is neither a connection nor anything that could lead to one. */
  predicate Off(l: Link) {
    l.stopping || Lines(l) == 0
  }

  predicate StillWaits(l: Link) {
    && l.reconnectTimer.Some? && l.reconnectTimer.value in l.reconnects
    && l.reconnects[l.reconnectTimer.value].status == Armed
  }

  /** `stop` takes effect: its close finds a live connection, or its cancel finds a reconnect still waiting. */
  predicate Halts(w: World, e: Event) {
    match e.what
    case RunClose => w.link.connected
    case Stop(_) => StillWaits(w.link)
    case _ => false
  }

  function HaltedBy(es: seq<Event>): bool
    requires Possible(es)
  {
    es != [] && (HaltedBy(es[..|es| - 1]) || Halts(After(es[..|es| - 1]), es[|es| - 1]))
  }

  /** `Off` in the terms of the invariant. */
  lemma OffMeans(l: Link)
    requires LinkInv(l)
    ensures Off(l) <==> l.stopping || Idle(l)
  {
    var live := LiveWaits(l.reconnects);
    assert forall id :: id in live ==> Live(l.reconnects, id);
    if Pending(l.reconnects, l.reconnectTimer) {
      assert l.reconnectTimer.value in live;
    } else {
      assert live == {};
    }
    if l.dialing != multiset{} {
      assert |l.dialing| > 0;
    }
  }

  /** What the invariant says of the connection, for the steps below. */
  lemma LinkFacts(w: World)
    requires Inv(w)
    ensures var l := w.link;
      && LinkInv(l)
      && (l.stopping ==> l.connected) && (!l.started ==> !l.stopping && Idle(l))
      && (l.connected || l.dialing != multiset{} ==> !Pending(l.reconnects, l.reconnectTimer))
      && (l.connected ==> l.dialing == multiset{})
      && (forall id: nat :: Live(l.reconnects, id) ==> Pending(l.reconnects, l.reconnectTimer))
      && (w.inbox.closing != multiset{} ==> l.stopping)
  {
    hide OutboxInv, PulseInv;
  }

  lemma ScheduledIsOn(l: Link, now: nat)
    requires !l.stopping
    ensures var k := ScheduleReconnect(l, now);
      !k.stopping && Pending(k.reconnects, k.reconnectTimer) && k.started == l.started
    ensures var k := Lose(l, now);
      !k.stopping && Pending(k.reconnects, k.reconnectTimer) && k.started == l.started
  {
  }

  lemma RedialledIsOn(l: Link)
    ensures Redial(l).stopping == l.stopping && Redial(l).started == l.started && Redial(l).dialing != multiset{}
  {
    assert Resolve in Redial(l).dialing;
  }

  lemma CancelledReconnect(l: Link)
    ensures Pending(Cancel(l.reconnects, l.reconnectTimer), l.reconnectTimer) <==>
      Pending(l.reconnects, l.reconnectTimer) && !StillWaits(l)
    ensures StillWaits(l) ==> Pending(l.reconnects, l.reconnectTimer)
  {
  }

  lemma WaitDropped(l: Link, id: nat)
    requires id in l.reconnects && l.reconnects[id].status == Cancelled
    ensures Pending(l.reconnects - {id}, l.reconnectTimer) <==> Pending(l.reconnects, l.reconnectTimer)
  {
  }

  lemma WaitExpired(l: Link, id: nat, at: nat)
    requires CanExpire(l.reconnects, id, at)
    ensures Pending(Expire(l.reconnects, id), l.reconnectTimer) <==> Pending(l.reconnects, l.reconnectTimer)
  {
  }

  lemma ReconnectWaitHalts(w: World, at: nat, id: nat)
    requires Inv(w) && CanComplete(w.link.reconnects, id)
    ensures var l, k := w.link, OnReconnectWait(w.(now := at), id).link;
      k.started == l.started && (k.stopping || Idle(k) <==> l.stopping || Idle(l))
  {
    hide Inv, LinkInv, Pending, Redial, ClearQueue;
    LinkFacts(w);
    assert w.link.reconnects[id].status == Expired ==> Live(w.link.reconnects, id);
    if w.link.reconnects[id].status == Cancelled {
      WaitDropped(w.link, id);
    }
    RedialledIsOn(w.link.(reconnects := w.link.reconnects - {id}));
  }

  lemma DialHalts(w: World, at: nat, p: Phase)
    requires Inv(w) && p in w.link.dialing
    ensures w.link.started && !w.link.stopping && !Idle(w.link)
    ensures var k := OnDialFailed(w.(now := at), p).link; k.started && !k.stopping && !Idle(k)
    ensures var k := OnUpgraded(w.(now := at)).link; k.started && !k.stopping && !Idle(k)
    ensures p != WsHandshake ==>
      var k := OnDialStep(w.(now := at), p).link; k.started && !k.stopping && !Idle(k)
  {
    hide Inv, LinkInv, Pending, ScheduleReconnect, Cancel, Resume, StartPingTimer, StopPinging, FreshPulse;
    LinkFacts(w);
    assert w.link.dialing != multiset{};
    ScheduledIsOn(w.link.(dialing := w.link.dialing - multiset{p}), at);
    if p != WsHandshake {
      assert NextPhase(p) in OnDialStep(w.(now := at), p).link.dialing;
    }
  }

  lemma StepHalts(w: World, e: Event)
    requires Inv(w) && Enabled(w, e)
    ensures var l, k := w.link, Step(w, e).link;
      && (k.started ==> (k.stopping || Idle(k) <==> (l.started && (l.stopping || Idle(l))) || Halts(w, e)))
      && (!k.started ==> !l.started && !Halts(w, e))
  {
    hide Inv, LinkInv, Pending, Drained, Lose, Cancel, CanExpire, Expire, StillWaits, OnReconnectWait, OnDialFailed,
         OnDialStep, OnUpgraded, Enqueue, Written, StartPingTimer, StopPinging, PingSent;
    var l := w.link;
    LinkFacts(w);
    if !l.stopping {
      ScheduledIsOn(l, e.at);
    }
    CancelledReconnect(l);
    match e.what
    case DialDone(p, ok) =>
      DialHalts(w, e.at, p);
    case ReconnectExpires(id) =>
      WaitExpired(l, id, e.at);
    case ReconnectWaitDone(id) =>
      ReconnectWaitHalts(w, e.at, id);
    case _ =>
  }

  /** After `start`: nothing is connected, tried or awaited, or it is closing, exactly when some `stop` took effect. */
  lemma {:induction false} StopTakesEffect(es: seq<Event>)
    requires Possible(es)
    ensures After(es).link.started ==> (Off(After(es).link) <==> HaltedBy(es))
    ensures !After(es).link.started ==> !HaltedBy(es)
  {
    hide Inv, LinkInv, Step, Enabled, Halts, Off, Idle;
    RunKeepsInv(es);
    LinkFacts(After(es));
    OffMeans(After(es).link);
    if es != [] {
      var n := |es| - 1;
      StopTakesEffect(es[..n]);
      RunKeepsInv(es[..n]);
      LinkFacts(After(es[..n]));
      OffMeans(After(es[..n]).link);
      StepHalts(After(es[..n]), es[n]);
    }
  }

  /** From `l` to `k` no reconnect was armed, no attempt made, and no callback but the end of a closing connection. */
  predicate Quiet(l: Link, k: Link) {
    && k.nextWait == l.nextWait && k.stream == l.stream && k.dialing == multiset{}
    && (k.stopping ==> l.stopping)
    && k.callbacks == l.callbacks + if l.stopping && !k.stopping then [OnDisconnected(false)] else []
  }

  lemma StepQuiet(w: World, e: Event)
    requires Inv(w) && Enabled(w, e) && w.link.started && (w.link.stopping || Idle(w.link))
    ensures Step(w, e).link.started && Quiet(w.link, Step(w, e).link)
  {
    hide Inv, LinkInv, Pending, Drained, ScheduleReconnect, Lose, Redial, Cancel, CanExpire, Expire, Enqueue,
         Written, StartPingTimer, StopPinging, PingSent, Resume, FreshPulse, ClearQueue;
    LinkFacts(w);
    if e.what.ReconnectWaitDone? {
      assert w.link.reconnects[e.what.id].status == Expired ==> Live(w.link.reconnects, e.what.id);
    }
  }

  /** Once `stop` took effect the runner stays off for good, whatever happens. */
  lemma {:induction false} OffForGood(es: seq<Event>, more: seq<Event>)
    requires Possible(es) && Possible(es + more) && After(es).link.started && Off(After(es).link)
    ensures var k := After(es + more).link;
      Off(k) && k.started && Quiet(After(es).link, k)
  {
    hide Inv, LinkInv, Step, Enabled, Off, Idle, Quiet;
    var run := es + more;
    RunKeepsInv(run);
    OffIs(After(run));
    if more == [] {
      assert run == es;
      NothingHappens(After(es));
    } else {
      var n := |more| - 1;
      var before := es + more[..n];
      assert run[..|run| - 1] == before;
      OffForGood(es, more[..n]);
      RunKeepsInv(before);
      OffIs(After(before));
      StepQuiet(After(before), more[n]);
      StepHalts(After(before), more[n]);
      QuietAlong(After(es).link, After(before).link, After(run).link);
    }
  }

  lemma OffIs(w: World)
    requires Inv(w)
    ensures Off(w.link) <==> w.link.stopping || Idle(w.link)
  {
    hide LinkInv, OutboxInv, InboxInv, PulseInv, Off, Idle;
    OffMeans(w.link);
  }

  lemma NothingHappens(w: World)
    requires Inv(w) && Off(w.link)
    ensures Quiet(w.link, w.link)
  {
    hide Inv, LinkInv;
    LinkFacts(w);
    OffIs(w);
  }

  lemma QuietAlong(a: Link, b: Link, c: Link)
    requires Quiet(a, b) && Quiet(b, c)
    ensures Quiet(a, c)
  {
  }

  /** `stop` can fail to take effect: a read error before its close runs, and the runner is to reconnect. */
  lemma StopOvertaken() returns (es: seq<Event>)
    ensures Possible(es) && After(es).link.stops == 1 && After(es).link.closesPosted == 0
    ensures !After(es).link.connected && !Off(After(es).link)
  {
    hide Possible, After;
    es := GoesUp();
    es := Then(es, Event(0, Stop(false)));
    es := Then(es, Event(0, ReadDone(0, false)));
    es := Then(es, Event(0, RunClose));
    var l := After(es).link;
    assert l.reconnectTimer.value in LiveWaits(l.reconnects);
  }

  // ---- the heartbeat

  /** While up and never told to stop, the heartbeat has exactly one ping wait or posted ping to go on with. */
  lemma HeartbeatGoesOn(es: seq<Event>)
    requires Possible(es) && After(es).link.connected
    ensures var p := After(es).pulse;
      && |LiveWaits(p.pings)| + p.pingsPosted <= 1
      && (After(es).link.stops == 0 ==> |LiveWaits(p.pings)| + p.pingsPosted == 1)
  {
    hide After, LinkInv, OutboxInv, InboxInv;
    RunKeepsInv(es);
    var p := After(es).pulse;
    var live := LiveWaits(p.pings);
    assert forall id :: id in live ==> Live(p.pings, id);
    if Pending(p.pings, p.pingTimer) {
      assert live == {p.pingTimer.value};
    } else {
      assert live == {};
    }
  }

  /** The delay doubles from two seconds and is capped. */
  lemma Backoff(n: nat)
    requires n > 0
    ensures 2 <= DelaySecs(n) <= 60 && DelaySecs(n) <= DelaySecs(n + 1)
    ensures DelaySecs(n) == 60 <==> n >= 6
    ensures n < 5 ==> DelaySecs(n + 1) == 2 * DelaySecs(n)
  {
    ShiftGrows(if n < 16 then n else 16);
    assert Pow2(4) == 16 && Pow2(5) == 32 && Pow2(6) == 64;
  }

  lemma {:induction false} ShiftGrows(n: nat)
    ensures n >= 6 ==> Pow2(n) >= 64
  {
    if n > 6 {
      ShiftGrows(n - 1);
    } else if n == 6 {
      assert Pow2(3) == 8;
    }
  }
}
