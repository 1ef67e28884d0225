/**
 Safety of the connection machine over every run: one inductive invariant, and what it means
 for the listener, for queued messages and for the heartbeat.
 */
module RunnerSafety {
  import opened Wrappers
  import opened RunnerModel

  predicate Live(waits: map<nat, Wait>, id: nat) {
    id in waits && waits[id].status != Cancelled
  }

  predicate Pending(waits: map<nat, Wait>, timer: Option<nat>) {
    timer.Some? && Live(waits, timer.value)
  }

  /** Waits that can still act belong to the timer, and waits are numbered in order. */
  ghost predicate WaitsOf(waits: map<nat, Wait>, timer: Option<nat>, next: nat) {
    && (forall id: nat :: Live(waits, id) ==> timer == Some(id))
    && (forall id: nat :: id in waits ==> id < next)
  }

  lemma Cancelling(waits: map<nat, Wait>, timer: Option<nat>, next: nat)
    requires WaitsOf(waits, timer, next)
    ensures WaitsOf(Cancel(waits, timer), timer, next)
    ensures forall id: nat :: Live(Cancel(waits, timer), id) ==> waits[id].status == Expired
    ensures forall id: nat ::
      Live(Cancel(waits, timer), id) ==> Live(waits, id) && Cancel(waits, timer)[id] == waits[id]
  {
  }

  // ---- the connection

  predicate Idle(l: Link) {
    l.dialing == multiset{} && !l.connected && !Pending(l.reconnects, l.reconnectTimer)
  }

  predicate Alternating(cs: seq<Callback>) {
    forall i :: 0 <= i < |cs| ==> (cs[i].OnConnected? <==> i % 2 == 0)
  }

  /** At most one of connection, attempt and pending reconnect; and none only before start or after stop. */
  ghost predicate LinkInv(l: Link) {
    && (l.stopping ==> l.connected)
    && |l.dialing| <= 1
    && WaitsOf(l.reconnects, l.reconnectTimer, l.nextWait)
    && (l.connected ==> l.dialing == multiset{} && !Pending(l.reconnects, l.reconnectTimer))
    && (l.dialing != multiset{} ==> !Pending(l.reconnects, l.reconnectTimer))
    && (!l.started ==> Idle(l))
    && (l.started && l.stops == 0 ==> !Idle(l))
    && ((l.stopping || l.closesPosted > 0) ==> l.stops > 0)
    && Alternating(l.callbacks)
    && (l.connected <==> |l.callbacks| % 2 == 1)
  }

  lemma OnlyPhase(m: multiset<Phase>, p: Phase)
    requires |m| <= 1 && p in m
    ensures m - multiset{p} == multiset{}
  {
    assert |m - multiset{p}| == |m| - 1;
  }

  lemma StartedInv(l: Link)
    requires LinkInv(l) && !l.started
    ensures LinkInv(Dial(l, Resolve).(started := true))
  {
  }

  lemma SteppedInv(l: Link, p: Phase, q: Phase)
    requires LinkInv(l) && p in l.dialing
    ensures LinkInv(Dial(l.(dialing := l.dialing - multiset{p}), q))
  {
  }

  lemma DialFailedInv(l: Link, p: Phase, now: nat)
    requires LinkInv(l) && p in l.dialing
    ensures LinkInv(ScheduleReconnect(l.(dialing := l.dialing - multiset{p}), now))
  {
    Cancelling(l.reconnects, l.reconnectTimer, l.nextWait);
    OnlyPhase(l.dialing, p);
  }

  lemma LostInv(l: Link, now: nat)
    requires LinkInv(l) && l.connected && !l.stopping
    ensures LinkInv(Lose(l, now))
  {
    Cancelling(l.reconnects, l.reconnectTimer, l.nextWait);
  }

  lemma UpgradedInv(l: Link)
    requires LinkInv(l) && WsHandshake in l.dialing
    ensures LinkInv(Upgraded(l.(dialing := l.dialing - multiset{WsHandshake})))
  {
    Cancelling(l.reconnects, l.reconnectTimer, l.nextWait);
    OnlyPhase(l.dialing, WsHandshake);
  }

  lemma ClosedInv(l: Link)
    requires LinkInv(l) && l.stopping
    ensures LinkInv(Closed(l))
  {
  }

  lemma RedialedInv(l: Link, id: nat)
    requires LinkInv(l) && Live(l.reconnects, id) && !l.connected
    ensures LinkInv(Redial(l.(reconnects := l.reconnects - {id})))
  {
  }

  lemma WaitDroppedInv(l: Link, id: nat)
    requires LinkInv(l) && CanComplete(l.reconnects, id) && (l.reconnects[id].status == Expired ==> l.connected)
    ensures LinkInv(l.(reconnects := l.reconnects - {id}))
  {
    assert !Live(l.reconnects, id);
  }

  lemma WaitExpiredInv(l: Link, id: nat, at: nat)
    requires LinkInv(l) && CanExpire(l.reconnects, id, at)
    ensures LinkInv(l.(reconnects := Expire(l.reconnects, id)))
  {
    assert Live(l.reconnects, id);
  }

  lemma StoppedInv(l: Link, posted: nat)
    requires LinkInv(l)
    ensures LinkInv(l.(
      reconnects := Cancel(l.reconnects, l.reconnectTimer), closesPosted := posted, stops := l.stops + 1))
  {
    Cancelling(l.reconnects, l.reconnectTimer, l.nextWait);
  }

  lemma CloseRunInv(l: Link)
    requires LinkInv(l) && l.closesPosted > 0
    ensures LinkInv(l.(closesPosted := l.closesPosted - 1))
    ensures l.connected ==> LinkInv(l.(closesPosted := l.closesPosted - 1, stopping := true))
  {
  }

  // ---- outgoing messages

  function MsgsOf(fates: seq<Fate>): (ms: seq<Msg>)
    ensures |ms| == |fates|
  {
    seq(|fates|, i requires 0 <= i < |fates| => fates[i].msg)
  }

  /** Every message ever enqueued is, in order, acknowledged, dropped or still queued. */
  predicate Accounted(o: Outbox) {
    o.enqueued == MsgsOf(o.fates) + o.writeQueue
  }

  /**
   On a live connection `writing` means exactly that one write is out, that it is on this
   stream and that it carries the front of the queue.
   */
  predicate OneWrite(o: Outbox, stream: nat) {
    && (o.writing ==> o.writeQueue != [])
    && o.sending == (if o.writing then multiset{Write(stream, o.writeQueue[0])} else multiset{})
  }

  predicate OutboxInv(o: Outbox, l: Link) {
    && Accounted(o)
    && (l.connected ==> OneWrite(o, l.stream))
    && (!l.started || l.dialing != multiset{} ==> !o.writing)
  }

  lemma DidWrite(o: Outbox, stream: nat)
    requires Accounted(o) && o.sending == multiset{}
    ensures Accounted(DoWrite(o, stream)) && OneWrite(DoWrite(o, stream), stream)
  {
    assert multiset{} + multiset{Write(stream, "")} == multiset{Write(stream, "")};
  }

  lemma EnqueuedInv(o: Outbox, m: Msg, l: Link)
    requires LinkInv(l) && OutboxInv(o, l)
    ensures OutboxInv(Enqueue(o, m, l.connected, l.stream), l)
  {
    hide DoWrite;
    var o1 := o.(writeQueue := o.writeQueue + [m], enqueued := o.enqueued + [m]);
    assert Accounted(o1);
    if l.connected && !o.writing {
      DidWrite(o1, l.stream);
    }
  }

  /** A write that completes on a live connection was the front of the queue, and only its success acknowledges it. */
  lemma CompletesFront(o: Outbox, x: Write, l: Link)
    requires LinkInv(l) && OutboxInv(o, l) && l.connected && x in o.sending
    ensures o.writing && o.writeQueue != [] && x == Write(l.stream, o.writeQueue[0])
    ensures o.sending - multiset{x} == multiset{}
  {
  }

  lemma WrittenInv(o: Outbox, x: Write, ok: bool, l: Link)
    requires LinkInv(l) && OutboxInv(o, l) && x in o.sending
    ensures OutboxInv(Written(o, x, ok, l.connected, l.stream), l)
  {
    hide DoWrite;
    if l.connected {
      CompletesFront(o, x, l);
      if ok {
        var o1 := o.(sending := multiset{}, writeQueue := o.writeQueue[1..],
                     fates := o.fates + [Acknowledged(o.writeQueue[0])]);
        assert MsgsOf(o1.fates) == MsgsOf(o.fates) + [o.writeQueue[0]];
        assert Accounted(o1);
        DidWrite(o1, l.stream);
      }
    }
  }

  lemma ClearedInv(o: Outbox, l: Link)
    requires Accounted(o) && !l.connected
    ensures OutboxInv(ClearQueue(o), l)
  {
    assert MsgsOf(o.fates + AllDropped(o.writeQueue)) == MsgsOf(o.fates) + o.writeQueue;
  }

  lemma ResumedInv(o: Outbox, l: Link)
    requires Accounted(o) && o.sending == multiset{} && !o.writing
    requires l.connected && l.dialing == multiset{} && l.started
    ensures OutboxInv(Resume(o, l.stream), l)
  {
    hide DoWrite;
    if o.writeQueue != [] {
      DidWrite(o, l.stream);
    }
  }

  // ---- reads and closes

  /** On a live connection one read is out; or the connection is stopping and its close is out. */
  predicate InboxInv(i: Inbox, l: Link) {
    if l.connected then
      || (i.reading == multiset{l.stream} && i.closing == multiset{})
      || (l.stopping && i.reading == multiset{} && i.closing == multiset{l.stream})
    else i.closing == multiset{}
  }

  // ---- the heartbeat

  /**
   On a live connection one ping wait or one posted ping is alive, and a wait with a pong
   pending is due a full interval after the last pong; a connection that is closing waits for
   no further ping.
   */
  ghost predicate PulseInv(p: Pulse, l: Link, now: nat) {
    && p.lastPongTime <= now
    && (forall id: nat :: id in p.pings ==> id < p.nextWait)
    && (forall id: nat :: id in p.pings && p.pings[id].status == Expired ==> p.pings[id].deadline <= now)
    && (l.connected ==>
          && WaitsOf(p.pings, p.pingTimer, p.nextWait)
          && p.pingsPosted + (if Pending(p.pings, p.pingTimer) then 1 else 0) <= 1
          && (l.stops == 0 ==> p.pingsPosted == 1 || Pending(p.pings, p.pingTimer))
          && (Pending(p.pings, p.pingTimer) && p.pendingPong ==>
                p.pings[p.pingTimer.value].deadline >= p.lastPongTime + PING_INTERVAL_SECS * SECOND)
          && (l.stopping ==> forall id: nat :: id in p.pings ==> p.pings[id].status != Armed))
  }

  lemma PingStoppedInv(p: Pulse, l: Link, k: Link, now: nat)
    requires PulseInv(p, l, now) && (k.connected ==> l.connected && k.stops > 0)
    ensures PulseInv(StopPinging(p), k, now)
  {
    if k.connected {
      Cancelling(p.pings, p.pingTimer, p.nextWait);
    }
  }

  lemma PingTimerStartedInv(p: Pulse, l: Link, now: nat)
    requires PulseInv(p, l, now) && p.pingsPosted > 0
    requires l.stopping ==> l.connected && l.stops > 0
    ensures PulseInv(StartPingTimer(p.(pingsPosted := p.pingsPosted - 1), now, l.connected, l.stopping), l, now)
  {
  }

  lemma FreshPulseInv(p: Pulse, l: Link, now: nat)
    requires p.pings == map[] && p.pingsPosted == 0 && l.connected && !l.stopping
    ensures PulseInv(StartPingTimer(FreshPulse(p, now), now, true, l.stopping), l, now)
  {
  }

  lemma PingWaitExpiredInv(p: Pulse, l: Link, now: nat, id: nat)
    requires PulseInv(p, l, now) && CanExpire(p.pings, id, now)
    ensures PulseInv(p.(pings := Expire(p.pings, id)), l, now)
  {
    assert Live(p.pings, id);
  }

  /** When a live ping wait runs, a full interval has passed since the last pong, so a pending one is overdue. */
  lemma DueAfterInterval(p: Pulse, l: Link, now: nat, id: nat)
    requires PulseInv(p, l, now) && l.connected && id in p.pings && p.pings[id].status == Expired
    ensures PongOverdue(p, now) <==> p.pendingPong
  {
    assert Live(p.pings, id);
  }

  lemma PingWaitRunInv(p: Pulse, l: Link, now: nat, id: nat)
    requires PulseInv(p, l, now) && id in p.pings && p.pings[id].status != Armed
    ensures var q := p.(pings := p.pings - {id});
      if p.pings[id].status != Expired || l.stopping || !l.connected then
        (l.stopping ==> l.stops > 0) ==> PulseInv(q, l, now)
      else if PongOverdue(q, now) then !Pending(q.pings, q.pingTimer)
      else PulseInv(PingSent(q), l, now)
  {
    if l.connected && p.pings[id].status == Expired {
      DueAfterInterval(p, l, now, id);
      assert Live(p.pings, id);
    }
  }

  // ---- every step

  ghost predicate Inv(w: World) {
    && LinkInv(w.link)
    && OutboxInv(w.outbox, w.link)
    && InboxInv(w.inbox, w.link)
    && PulseInv(w.pulse, w.link, w.now)
  }

  lemma InitiallyInv()
    ensures Inv(INITIAL)
  {
  }

  lemma TimePasses(w: World, at: nat)
    requires Inv(w) && w.now <= at
    ensures Inv(w.(now := at))
  {
    hide LinkInv, OutboxInv, InboxInv;
  }

  lemma DialFailed(w: World, p: Phase)
    requires Inv(w) && p in w.link.dialing
    ensures Inv(OnDialFailed(w, p))
  {
    hide WaitsOf, Accounted, OneWrite;
    DialFailedInv(w.link, p, w.now);
    PingStoppedInv(w.pulse, w.link, OnDialFailed(w, p).link, w.now);
  }

  lemma DialStepped(w: World, p: Phase)
    requires Inv(w) && p in w.link.dialing && p != WsHandshake
    ensures Inv(OnDialStep(w, p))
  {
    hide WaitsOf, Accounted, OneWrite;
    SteppedInv(w.link, p, NextPhase(p));
  }

  lemma CameUp(w: World)
    requires Inv(w) && WsHandshake in w.link.dialing && Drained(w)
    ensures Inv(OnUpgraded(w))
  {
    hide WaitsOf, Accounted, OneWrite, Resume, StartPingTimer, FreshPulse;
    UpgradedInv(w.link);
    OnlyPhase(w.link.dialing, WsHandshake);
    ResumedInv(w.outbox, OnUpgraded(w).link);
    FreshPulseInv(w.pulse, OnUpgraded(w).link, w.now);
  }

  lemma WentDown(w: World, i: Inbox)
    requires Inv(w) && w.link.connected && !w.link.stopping && i.closing == multiset{}
    ensures Inv(w.(inbox := i, link := Lose(w.link, w.now), pulse := StopPinging(w.pulse)))
  {
    hide WaitsOf, Accounted, OneWrite, StopPinging;
    LostInv(w.link, w.now);
    PingStoppedInv(w.pulse, w.link, Lose(w.link, w.now), w.now);
  }

  lemma ReadCompleted(w: World, stream: nat, ok: bool)
    requires Inv(w) && stream in w.inbox.reading
    ensures Inv(OnRead(w, stream, ok))
  {
    hide LinkInv, OutboxInv, PulseInv, Lose, StopPinging;
    StoppingIsConnected(w.link);
    if w.link.connected && !ok && !w.link.stopping {
      WentDown(w, w.inbox.(reading := w.inbox.reading - multiset{stream}));
    }
  }

  lemma StoppingIsConnected(l: Link)
    requires LinkInv(l)
    ensures l.stopping ==> l.connected && l.stops > 0
  {
  }

  lemma ClosedDown(w: World, stream: nat)
    requires Inv(w) && stream in w.inbox.closing
    ensures Inv(OnClosed(w, stream))
  {
    hide WaitsOf, Accounted, OneWrite;
    ClosedInv(w.link);
  }

  lemma Stopped(w: World, loopStopped: bool)
    requires Inv(w)
    ensures Inv(OnStop(w, loopStopped))
  {
    hide LinkInv, Accounted, OneWrite, PulseInv, StopPinging;
    StoppedInv(w.link, OnStop(w, loopStopped).link.closesPosted);
    PingStoppedInv(w.pulse, w.link, OnStop(w, loopStopped).link, w.now);
  }

  lemma CloseRan(w: World)
    requires Inv(w) && w.link.closesPosted > 0
    ensures Inv(OnPostedClose(w))
  {
    hide LinkInv, Accounted, OneWrite, StopPinging;
    ClosesCounted(w.link);
    CloseRunInv(w.link);
    PingStoppedInv(w.pulse, w.link, OnPostedClose(w).link, w.now);
  }

  lemma ClosesCounted(l: Link)
    requires LinkInv(l) && l.closesPosted > 0
    ensures l.stops > 0
  {
  }

  lemma PingRan(w: World)
    requires Inv(w) && w.pulse.pingsPosted > 0
    ensures Inv(OnPostedPing(w))
  {
    hide LinkInv, OutboxInv, PulseInv, Enqueue, StartPingTimer;
    StoppingIsConnected(w.link);
    EnqueuedInv(w.outbox, PING, w.link);
    PingTimerStartedInv(w.pulse, w.link, w.now);
  }

  lemma ReconnectWaited(w: World, id: nat)
    requires Inv(w) && CanComplete(w.link.reconnects, id)
    ensures Inv(OnReconnectWait(w, id))
  {
    hide WaitsOf, Accounted, OneWrite, ClearQueue, Redial;
    var l := w.link.(reconnects := w.link.reconnects - {id});
    if w.link.reconnects[id].status == Expired && !w.link.stopping && !w.link.connected {
      RedialedInv(w.link, id);
      Redialed(l);
      ClearedInv(w.outbox, Redial(l));
    } else {
      WaitDroppedInv(w.link, id);
    }
  }

  lemma Redialed(l: Link)
    ensures Redial(l).connected == l.connected && Redial(l).stops == l.stops
  {
  }

  lemma PingWaited(w: World, id: nat)
    requires Inv(w) && CanComplete(w.pulse.pings, id)
    ensures Inv(OnPingWait(w, id))
  {
    hide LinkInv, OutboxInv, PulseInv, Lose, StopPinging, PingSent, PongOverdue, WaitsOf;
    StoppingIsConnected(w.link);
    PingWaitRunInv(w.pulse, w.link, w.now, id);
    var p := w.pulse.(pings := w.pulse.pings - {id});
    if w.pulse.pings[id].status == Expired && !w.link.stopping && w.link.connected && PongOverdue(p, w.now) {
      TimedOut(w, p);
    }
  }

  lemma TimedOut(w: World, p: Pulse)
    requires Inv(w) && w.link.connected && !w.link.stopping
    requires exists id: nat {:trigger w.pulse.pings - {id}} :: p == w.pulse.(pings := w.pulse.pings - {id})
    ensures Inv(w.(link := Lose(w.link, w.now), pulse := StopPinging(p)))
  {
    hide WaitsOf, Accounted, OneWrite;
    LostInv(w.link, w.now);
  }

  lemma PongCame(w: World)
    requires Inv(w)
    ensures Inv(OnPong(w))
  {
    hide LinkInv, OutboxInv, InboxInv;
  }

  lemma StepKeepsInv(w: World, e: Event)
    requires Inv(w) && Enabled(w, e)
    ensures Inv(Step(w, e))
  {
    hide LinkInv, OutboxInv, InboxInv, PulseInv, CanExpire, CanComplete;
    TimePasses(w, e.at);
    var v := w.(now := e.at);
    match e.what
    case Start =>
      StartedUp(v);
    case Send(m) =>
      Posted(v, m);
    case Stop(loopStopped) =>
      Stopped(v, loopStopped);
    case RunSend(m) =>
      SendRan(v, m);
    case RunPing =>
      PingRan(v);
    case RunClose =>
      CloseRan(v);
    case DialDone(p, ok) =>
      if !ok {
        DialFailed(v, p);
      } else if p == WsHandshake {
        CameUp(v);
      } else {
        DialStepped(v, p);
      }
    case ReadDone(s, ok) =>
      ReadCompleted(v, s, ok);
    case WriteDone(x, ok) =>
      WrittenInv(v.outbox, x, ok, v.link);
    case CloseDone(s) =>
      ClosedDown(v, s);
    case ReconnectExpires(id) =>
      ReconnectExpired(v, id);
    case ReconnectWaitDone(id) =>
      ReconnectWaited(v, id);
    case PingExpires(id) =>
      PingWaitExpiredInv(v.pulse, v.link, v.now, id);
    case PingWaitDone(id) =>
      PingWaited(v, id);
    case Pong =>
      PongCame(v);
  }

  lemma StartedUp(w: World)
    requires Inv(w) && !w.link.started
    ensures Inv(OnStart(w))
  {
    hide WaitsOf, Accounted, OneWrite;
    StartedInv(w.link);
  }

  lemma Posted(w: World, m: Msg)
    requires Inv(w)
    ensures Inv(OnSend(w, m))
  {
    hide LinkInv, InboxInv, PulseInv;
  }

  lemma SendRan(w: World, m: Msg)
    requires Inv(w)
    ensures Inv(OnPostedSend(w, m))
  {
    hide LinkInv, InboxInv, PulseInv, Enqueue;
    EnqueuedInv(w.outbox.(posted := w.outbox.posted - multiset{m}), m, w.link);
  }

  lemma ReconnectExpired(w: World, id: nat)
    requires Inv(w) && CanExpire(w.link.reconnects, id, w.now)
    ensures Inv(w.(link := w.link.(reconnects := Expire(w.link.reconnects, id))))
  {
    hide WaitsOf, Accounted, OneWrite;
    WaitExpiredInv(w.link, id, w.now);
  }

  /** The invariant holds after every run. */
  lemma {:induction false} RunKeepsInv(es: seq<Event>)
    requires Possible(es)
    ensures Inv(After(es))
  {
    hide Inv, Enabled, Step;
    if es == [] {
      InitiallyInv();
    } else {
      RunKeepsInv(es[..|es| - 1]);
      StepKeepsInv(After(es[..|es| - 1]), es[|es| - 1]);
    }
  }
}
