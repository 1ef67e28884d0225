/**
 The state of the connection machine told from the events of the run alone: what was posted,
 which steps an attempt has behind it, when timers were armed and why, what the listener heard.
 */
module RunnerHistory {
  import opened Wrappers
  import opened Bits
  import opened RunnerModel
  import opened RunnerSafety
  import opened RunnerTheorems

  /** The WebSocket handshake succeeds: the connection is up. */
  predicate ComesUp(e: Event) {
    e.what.DialDone? && e.what.ok && e.what.phase == WsHandshake
  }

  /** The ping timer fires on a live connection. */
  predicate Ticks(w: World, e: Event) {
    && e.what.PingWaitDone? && e.what.id in w.pulse.pings && w.pulse.pings[e.what.id].status == Expired
    && w.link.connected && !w.link.stopping
  }

  // ---- what was posted

  /** The messages of the calls of `send`, and those whose posted task has run. */
  function Sent(es: seq<Event>): multiset<Msg> {
    if es == [] then multiset{}
    else Sent(es[..|es| - 1]) + if es[|es| - 1].what.Send? then multiset{es[|es| - 1].what.msg} else multiset{}
  }

  function Ran(es: seq<Event>): multiset<Msg> {
    if es == [] then multiset{}
    else Ran(es[..|es| - 1]) + if es[|es| - 1].what.RunSend? then multiset{es[|es| - 1].what.msg} else multiset{}
  }

  function PingsRan(es: seq<Event>): nat {
    if es == [] then 0 else PingsRan(es[..|es| - 1]) + if es[|es| - 1].what.RunPing? then 1 else 0
  }

  /** The calls of `stop` that find the loop running and no close under way. */
  function ClosesAsked(es: seq<Event>): nat
    requires Possible(es)
  {
    if es == [] then 0
    else
      var e := es[|es| - 1];
      ClosesAsked(es[..|es| - 1]) +
      if e.what.Stop? && !e.what.loopStopped && !After(es[..|es| - 1]).link.stopping then 1 else 0
  }

  function ClosesRan(es: seq<Event>): nat {
    if es == [] then 0 else ClosesRan(es[..|es| - 1]) + if es[|es| - 1].what.RunClose? then 1 else 0
  }

  lemma StepPosts(w: World, e: Event)
    requires Enabled(w, e)
    ensures var was, posted := w.outbox.posted, Step(w, e).outbox.posted;
      match e.what
      case Send(m) => posted == was + multiset{m}
      case RunSend(m) => posted + multiset{m} == was
      case _ => posted == was
    ensures Step(w, e).link.closesPosted + (if e.what.RunClose? then 1 else 0) ==
            w.link.closesPosted + if e.what.Stop? && !e.what.loopStopped && !w.link.stopping then 1 else 0
  {
    hide Drained, CanExpire, CanComplete, StartPingTimer, StopPinging, AllDropped, Cancel, PongOverdue, Expire, Lose,
         Redial, ScheduleReconnect, FreshPulse;
    LinkKeeps(w.link, e.at);
    if e.what.RunSend? {
      PutBack(w.outbox.posted, e.what.msg);
    }
  }

  lemma LinkKeeps(l: Link, at: nat)
    ensures Lose(l, at).closesPosted == ScheduleReconnect(l, at).closesPosted == l.closesPosted
    ensures forall m :: ScheduleReconnect(l.(dialing := m), at).closesPosted == l.closesPosted
    ensures forall m :: Redial(l.(reconnects := m)).closesPosted == l.closesPosted
  {
  }

  lemma PutBack(ms: multiset<Msg>, m: Msg)
    requires m in ms
    ensures ms - multiset{m} + multiset{m} == ms
  {
  }

  lemma Regroup(a: multiset<Msg>, b: multiset<Msg>, c: multiset<Msg>)
    ensures a + b + c == a + (b + c) == a + c + b
  {
  }

  /** Every message given to `send` is posted, and its task runs once or is still to run. */
  lemma {:induction false} SentIsPosted(es: seq<Event>)
    requires Possible(es)
    ensures Sent(es) == Ran(es) + After(es).outbox.posted
  {
    hide Step, Enabled;
    if es != [] {
      var n := |es| - 1;
      SentIsPosted(es[..n]);
      StepPosts(After(es[..n]), es[n]);
      var was, posted := After(es[..n]).outbox.posted, After(es).outbox.posted;
      match es[n].what
      case Send(m) => Regroup(Ran(es[..n]), was, multiset{m});
      case RunSend(m) => Regroup(Ran(es[..n]), posted, multiset{m});
      case _ =>
    }
  }

  lemma {:induction false} HandedIsRan(es: seq<Event>)
    ensures multiset(Handed(es)) == Ran(es) + multiset{}["{\"method\":\"ping\"}" := PingsRan(es)]
  {
    if es != [] {
      HandedIsRan(es[..|es| - 1]);
    }
  }

  /**
   No message is lost: those given to `send`, together with the pings whose task has run, are
   exactly those whose task is still to run, those with a fate and those queued.
   */
  lemma NothingLost(es: seq<Event>)
    requires Possible(es)
    ensures var o := After(es).outbox;
      Sent(es) + multiset{}["{\"method\":\"ping\"}" := PingsRan(es)] ==
      o.posted + multiset(MsgsOf(o.fates)) + multiset(o.writeQueue)
  {
    hide After, Possible, Sent, Ran, Handed, MsgsOf, LastClear, AcknowledgedOf, WrittenOut;
    SentIsPosted(es);
    HandedIsRan(es);
    Delivery(es);
    var o := After(es).outbox;
    assert multiset(Handed(es)) == multiset(MsgsOf(o.fates)) + multiset(o.writeQueue);
    var pings := multiset{}["{\"method\":\"ping\"}" := PingsRan(es)];
    Regroup(Ran(es), o.posted, pings);
    Regroup(o.posted, multiset(MsgsOf(o.fates)), multiset(o.writeQueue));
    assert Ran(es) + pings + o.posted == o.posted + (Ran(es) + pings);
  }

  /** Every close asked for has run or is still to run. */
  lemma {:induction false} ClosesArePosted(es: seq<Event>)
    requires Possible(es)
    ensures ClosesAsked(es) == ClosesRan(es) + After(es).link.closesPosted
  {
    hide Step, Enabled;
    if es != [] {
      var n := |es| - 1;
      ClosesArePosted(es[..n]);
      StepPosts(After(es[..n]), es[n]);
    }
  }

  /**
   What `stop` does, after any run that is not stopping: the close can run next, and on a live
   connection it then closes; no reconnect and, on a live connection, no ping is waited for.
   */
  lemma StopCloses(es: seq<Event>, at: nat)
    requires Possible(es) && !After(es).link.stopping && at >= After(es).now
    ensures Enabled(After(es), Event(at, Stop(false)))
    ensures var w := Step(After(es), Event(at, Stop(false)));
      && w.link.connected == After(es).link.connected
      && (forall id :: id in w.link.reconnects ==> w.link.reconnects[id].status != Armed)
      && (w.link.connected ==> forall id :: id in w.pulse.pings ==> w.pulse.pings[id].status != Armed)
      && Enabled(w, Event(at, RunClose))
      && (w.link.connected ==> Step(w, Event(at, RunClose)).link.stopping)
  {
    hide After, OutboxInv, InboxInv, Accounted;
    RunKeepsInv(es);
    var w := After(es);
    var waits, pings := w.link.reconnects, w.pulse.pings;
    assert forall id: nat :: id in waits && waits[id].status == Armed ==> Live(waits, id);
    assert forall id: nat :: id in pings && pings[id].status == Armed ==> Live(pings, id);
  }

  /** A connection that is closing waits for no further ping. */
  lemma ClosingWaitsForNoPing(es: seq<Event>)
    requires Possible(es) && After(es).link.stopping
    ensures forall id :: id in After(es).pulse.pings ==> After(es).pulse.pings[id].status != Armed
  {
    hide After, OutboxInv, InboxInv, WaitsOf, Alternating;
    RunKeepsInv(es);
  }

  /** A live connection that is not closing has exactly one read out, on its own stream. */
  lemma AlwaysReading(es: seq<Event>)
    requires Possible(es) && After(es).link.connected && !After(es).link.stopping
    ensures After(es).inbox.reading == multiset{After(es).link.stream} && After(es).inbox.closing == multiset{}
  {
    hide After, OutboxInv, LinkInv, PulseInv;
    RunKeepsInv(es);
  }

  // ---- the heartbeat

  /** Whether the last of: the connection came up, a pong came, the ping timer fired, was the last one. */
  function Unanswered(es: seq<Event>): bool
    requires Possible(es)
  {
    if es == [] then false
    else
      var before, e := es[..|es| - 1], es[|es| - 1];
      !ComesUp(e) && !e.what.Pong? && (Ticks(After(before), e) || Unanswered(before))
  }

  lemma StepPending(w: World, e: Event)
    requires Inv(w) && Enabled(w, e) && Step(w, e).link.connected
    ensures w.link.connected || ComesUp(e)
    ensures Step(w, e).pulse.pendingPong <==>
      !ComesUp(e) && !e.what.Pong? && (Ticks(w, e) || (w.link.connected && w.pulse.pendingPong))
  {
    hide Inv, Drained, CanExpire, StartPingTimer, StopPinging, PongOverdue, Lose, ScheduleReconnect, Redial, Closed,
         Enqueue, Written, Resume, ClearQueue;
    PingTimerOnly(w.pulse, e.at, w.link.connected, w.link.stopping);
    LinkChanges(w.link, e.at);
    match e.what
    case DialDone(p, ok) =>
      LinkChanges(w.link.(dialing := w.link.dialing - multiset{p}), e.at);
    case ReconnectWaitDone(id) =>
      LinkChanges(w.link.(reconnects := w.link.reconnects - {id}), e.at);
    case _ =>
  }

  lemma PingTimerOnly(p: Pulse, at: nat, connected: bool, stopping: bool)
    ensures StopPinging(p).pendingPong == p.pendingPong
    ensures forall q, c, s :: StartPingTimer(q, at, c, s).pendingPong == q.pendingPong
    ensures forall c, s :: !StartPingTimer(FreshPulse(p, at), at, c, s).pendingPong
  {
  }

  lemma {:induction false} PendingIsUnanswered(es: seq<Event>)
    requires Possible(es) && After(es).link.connected
    ensures After(es).pulse.pendingPong == Unanswered(es)
  {
    hide Inv, Step, Enabled, Ticks;
    if es != [] {
      var n := |es| - 1;
      RunKeepsInv(es[..n]);
      StepPending(After(es[..n]), es[n]);
      if After(es[..n]).link.connected {
        PendingIsUnanswered(es[..n]);
      }
    }
  }

  /**
   The watchdog: when the ping timer fires on a live connection, the connection is declared dead
   exactly when the timer has fired before on this connection and no pong came since. Nothing is
   assumed of the spacing of ticks: the timer provides it.
   */
  lemma Watchdog(es: seq<Event>, e: Event)
    requires Possible(es) && Enabled(After(es), e) && Ticks(After(es), e)
    ensures !Step(After(es), e).link.connected <==> Unanswered(es)
  {
    hide After, LinkInv, OutboxInv, InboxInv, PulseInv;
    RunKeepsInv(es);
    TimePasses(After(es), e.at);
    DueAfterInterval(After(es).pulse, After(es).link, e.at, e.what.id);
    PendingIsUnanswered(es);
  }

  /** When the ping timer last fired on this connection. */
  function LastTick(es: seq<Event>): Option<nat>
    requires Possible(es)
  {
    if es == [] then None else NextTick(After(es[..|es| - 1]), es[|es| - 1], LastTick(es[..|es| - 1]))
  }

  function NextTick(w: World, e: Event, tick: Option<nat>): Option<nat> {
    if ComesUp(e) then None else if Ticks(w, e) then Some(e.at) else tick
  }

  /** When the ping timer was last armed: as the connection came up, or as a posted ping ran. */
  function ArmedAt(es: seq<Event>): nat
    requires Possible(es)
  {
    if es == [] then 0 else NextArmed(After(es[..|es| - 1]), es[|es| - 1], ArmedAt(es[..|es| - 1]))
  }

  function NextArmed(w: World, e: Event, armed: nat): nat {
    if ComesUp(e) || (e.what.RunPing? && w.link.connected && !w.link.stopping) then e.at else armed
  }

  /** The wait in hand is due 30 seconds after it was armed, and was armed after the last tick. */
  ghost predicate OnTime(p: Pulse, now: nat, armed: nat, tick: Option<nat>) {
    && (forall id: nat :: Live(p.pings, id) ==>
          p.pings[id].deadline == armed + 30000 && (tick.Some? ==> tick.value <= armed))
    && (tick.Some? ==> tick.value <= now)
  }

  /** Only a handshake, a posted ping and the waits themselves do more to the ping waits than cancel one. */
  lemma StepPings(w: World, e: Event)
    requires Enabled(w, e) && !ComesUp(e) && !e.what.RunPing? && !e.what.PingExpires? && !e.what.PingWaitDone?
    ensures var p, q := w.pulse, Step(w, e).pulse;
      q.pings == p.pings || q.pings == Cancel(p.pings, p.pingTimer)
  {
    hide Drained, CanExpire, CanComplete, Expire, Cancel, PongOverdue, ScheduleReconnect, Lose, Redial, Closed, Enqueue,
         Written, Resume, ClearQueue;
  }

  lemma CancelOnTime(p: Pulse, q: Pulse, now: nat, at: nat, armed: nat, tick: Option<nat>)
    requires OnTime(p, now, armed, tick) && now <= at
    requires q.pings == p.pings || q.pings == Cancel(p.pings, p.pingTimer)
    ensures OnTime(q, at, armed, tick)
  {
    assert forall id: nat :: Live(q.pings, id) ==> Live(p.pings, id) && q.pings[id] == p.pings[id];
  }

  lemma ArmedOnTime(p: Pulse, l: Link, now: nat, at: nat, armed: nat, tick: Option<nat>)
    requires PulseInv(p, l, now) && l.connected && p.pingsPosted > 0 && OnTime(p, now, armed, tick) && now <= at
    ensures OnTime(StartPingTimer(p.(pingsPosted := p.pingsPosted - 1), at, true, false), at, at, tick)
  {
    assert forall id: nat :: Live(p.pings, id) ==> Pending(p.pings, p.pingTimer);
    var q := StartPingTimer(p.(pingsPosted := p.pingsPosted - 1), at, true, false);
    assert forall id: nat :: Live(q.pings, id) && id != p.nextWait ==> Live(p.pings, id);
  }

  lemma FreshOnTime(p: Pulse, at: nat)
    requires p.pings == map[]
    ensures OnTime(StartPingTimer(FreshPulse(p, at), at, true, false), at, at, None)
  {
  }

  lemma ExpiredOnTime(p: Pulse, id: nat, now: nat, at: nat, armed: nat, tick: Option<nat>)
    requires CanExpire(p.pings, id, at) && OnTime(p, now, armed, tick) && now <= at
    ensures OnTime(p.(pings := Expire(p.pings, id)), at, armed, tick)
  {
    assert Live(p.pings, id);
  }

  lemma WaitOverOnTime(p: Pulse, id: nat, now: nat, at: nat, armed: nat, tick: Option<nat>)
    requires id in p.pings && OnTime(p, now, armed, tick) && now <= at
    ensures OnTime(p.(pings := p.pings - {id}), at, armed, tick)
  {
    assert forall k: nat :: Live(p.pings - {id}, k) ==> Live(p.pings, k) && (p.pings - {id})[k] == p.pings[k];
  }

  lemma TickOnTime(p: Pulse, l: Link, id: nat, now: nat, at: nat, armed: nat)
    requires PulseInv(p, l, now) && l.connected && id in p.pings && p.pings[id].status == Expired
    ensures OnTime(PingSent(p.(pings := p.pings - {id})), at, armed, Some(at))
  {
    assert Live(p.pings, id);
    assert forall k: nat :: Live(p.pings - {id}, k) ==> Live(p.pings, k);
  }

  lemma StepOnTime(w: World, e: Event, armed: nat, tick: Option<nat>)
    requires Inv(w) && Enabled(w, e) && Step(w, e).link.connected && (w.link.connected || ComesUp(e))
    requires w.link.connected ==> OnTime(w.pulse, w.now, armed, tick)
    ensures OnTime(Step(w, e).pulse, e.at, NextArmed(w, e, armed), NextTick(w, e, tick))
  {
    hide LinkInv, OutboxInv, InboxInv, PulseInv, CanExpire, OnTime, PongOverdue, ScheduleReconnect, Lose, Redial,
         Closed, Enqueue, Written, Resume, ClearQueue, StartPingTimer, StopPinging, FreshPulse, PingSent;
    LinkChanges(w.link, e.at);
    StoppingIsOver(w);
    if ComesUp(e) {
      FreshOnTime(w.pulse, e.at);
    } else if e.what.RunPing? {
      if w.link.stopping {
        NotArmed(w.pulse.(pingsPosted := w.pulse.pingsPosted - 1), e.at, w.link.connected);
        CancelOnTime(w.pulse, w.pulse.(pingsPosted := w.pulse.pingsPosted - 1), w.now, e.at, armed, tick);
      } else {
        ArmedOnTime(w.pulse, w.link, w.now, e.at, armed, tick);
      }
    } else if e.what.PingExpires? {
      ExpiredOnTime(w.pulse, e.what.id, w.now, e.at, armed, tick);
    } else if e.what.PingWaitDone? {
      WaitOverOnTime(w.pulse, e.what.id, w.now, e.at, armed, tick);
      if Ticks(w, e) {
        TickOnTime(w.pulse, w.link, e.what.id, w.now, e.at, armed);
      }
    } else {
      StepPings(w, e);
      CancelOnTime(w.pulse, Step(w, e).pulse, w.now, e.at, armed, tick);
    }
  }

  lemma NotArmed(p: Pulse, at: nat, connected: bool)
    ensures StartPingTimer(p, at, connected, true) == p
  {
  }

  lemma StoppingIsOver(w: World)
    requires Inv(w)
    ensures w.link.dialing != multiset{} ==> !w.link.stopping && !w.link.connected
  {
    hide OutboxInv, InboxInv, PulseInv;
  }

  lemma {:induction false} AlwaysOnTime(es: seq<Event>)
    requires Possible(es) && After(es).link.connected
    ensures OnTime(After(es).pulse, After(es).now, ArmedAt(es), LastTick(es))
  {
    hide Inv, Step, Enabled, OnTime, NextArmed, NextTick;
    if es != [] {
      var n := |es| - 1;
      RunKeepsInv(es[..n]);
      StepPending(After(es[..n]), es[n]);
      if After(es[..n]).link.connected {
        AlwaysOnTime(es[..n]);
      }
      StepOnTime(After(es[..n]), es[n], ArmedAt(es[..n]), LastTick(es[..n]));
      ClockSet(After(es[..n]), es[n]);
    }
  }

  lemma ClockSet(w: World, e: Event)
    requires Enabled(w, e)
    ensures Step(w, e).now == e.at
  {
    hide Drained, CanExpire, CanComplete, Enqueue, Written, StartPingTimer, StopPinging, Lose, Redial,
         ScheduleReconnect;
  }

  /** A tick comes no sooner than 30 seconds after its timer was armed, which was no sooner than the last tick. */
  lemma TicksSpaced(es: seq<Event>, e: Event)
    requires Possible(es) && Enabled(After(es), e) && Ticks(After(es), e)
    ensures e.at >= ArmedAt(es) + 30000
    ensures LastTick(es).Some? ==> e.at >= LastTick(es).value + 30000
  {
    hide After, LinkInv, OutboxInv, InboxInv;
    RunKeepsInv(es);
    AlwaysOnTime(es);
    assert Live(After(es).pulse.pings, e.what.id);
  }

  // ---- attempts

  const ALL_PHASES: seq<Phase> := [Resolve, Connect, TlsHandshake, WsHandshake]

  /** The steps that succeeded since the last attempt began. */
  function Done(es: seq<Event>): seq<Phase>
    requires Possible(es)
  {
    if es == [] then [] else NextDone(After(es[..|es| - 1]), es[|es| - 1], Done(es[..|es| - 1]))
  }

  function NextDone(w: World, e: Event, done: seq<Phase>): seq<Phase> {
    if e.what.Start? || Reconnects(w, e) then []
    else if e.what.DialDone? && e.what.ok then done + [e.what.phase]
    else done
  }

  predicate InOrder(l: Link, done: seq<Phase>) {
    && done <= ALL_PHASES
    && (l.dialing != multiset{} ==> |done| < 4 && l.dialing == multiset{ALL_PHASES[|done|]})
    && (l.connected ==> done == ALL_PHASES)
  }

  lemma DialingKept(w: World, e: Event)
    requires Enabled(w, e) && !e.what.DialDone? && !e.what.Start? && !Reconnects(w, e)
    ensures Step(w, e).link.dialing == w.link.dialing && (Step(w, e).link.connected ==> w.link.connected)
  {
    hide Drained, CanExpire, Enqueue, Written, Resume, ClearQueue, StartPingTimer, StopPinging, PongOverdue, PingSent,
         Cancel, DelaySecs;
  }

  lemma DialInOrder(l: Link, p: Phase, done: seq<Phase>, now: nat)
    requires LinkInv(l) && p in l.dialing && InOrder(l, done)
    ensures p == WsHandshake ==> InOrder(Upgraded(l.(dialing := l.dialing - multiset{p})), done + [p])
    ensures p != WsHandshake ==> InOrder(Dial(l.(dialing := l.dialing - multiset{p}), NextPhase(p)), done + [p])
    ensures InOrder(ScheduleReconnect(l.(dialing := l.dialing - multiset{p}), now), done)
  {
    OnlyPhaseDone(l, p);
    assert p in multiset{ALL_PHASES[|done|]};
    assert done + [p] == ALL_PHASES[..|done| + 1];
  }

  lemma BeginsInOrder(l: Link)
    requires l.dialing == multiset{} && !l.connected
    ensures InOrder(Dial(l, Resolve), []) && InOrder(Redial(l), [])
  {
  }

  lemma StepInOrder(w: World, e: Event, done: seq<Phase>)
    requires Inv(w) && Enabled(w, e) && InOrder(w.link, done)
    ensures InOrder(Step(w, e).link, NextDone(w, e, done))
  {
    hide Inv, LinkInv, Drained, CanExpire, Resume, ClearQueue, StartPingTimer, StopPinging, ScheduleReconnect, Redial,
         Upgraded, Enqueue, Written, Lose, Closed, Cancel, Pending;
    LinkFacts(w);
    if e.what.DialDone? {
      hide InOrder;
      DialInOrder(w.link, e.what.phase, done, e.at);
    } else if e.what.Start? {
      BeginsInOrder(w.link);
    } else if Reconnects(w, e) {
      assert Live(w.link.reconnects, e.what.id);
      BeginsInOrder(w.link.(reconnects := w.link.reconnects - {e.what.id}));
    } else {
      DialingKept(w, e);
    }
  }

  lemma OnlyPhaseDone(l: Link, p: Phase)
    requires LinkInv(l) && p in l.dialing
    ensures l.dialing - multiset{p} == multiset{} && l.dialing == multiset{p}
  {
    OnlyPhase(l.dialing, p);
    assert l.dialing == l.dialing - multiset{p} + multiset{p};
  }

  lemma {:induction false} StepsInOrder(es: seq<Event>)
    requires Possible(es)
    ensures InOrder(After(es).link, Done(es))
  {
    hide Inv, Step, Enabled, InOrder, NextDone;
    if es == [] {
      NothingDone();
    } else {
      var n := |es| - 1;
      StepsInOrder(es[..n]);
      RunKeepsInv(es[..n]);
      StepInOrder(After(es[..n]), es[n], Done(es[..n]));
    }
  }

  lemma NothingDone()
    ensures InOrder(INITIAL.link, [])
  {
  }

  /** How often the old stream was replaced. */
  function Replaced(es: seq<Event>): nat
    requires Possible(es)
  {
    if es == [] then 0
    else Replaced(es[..|es| - 1]) + if Reconnects(After(es[..|es| - 1]), es[|es| - 1]) then 1 else 0
  }

  lemma StepStream(w: World, e: Event)
    requires Enabled(w, e)
    ensures Step(w, e).link.stream == w.link.stream + if Reconnects(w, e) then 1 else 0
  {
    hide Drained, CanExpire, Enqueue, Written, Resume, ClearQueue, StartPingTimer, StopPinging, PongOverdue, PingSent,
         Cancel, DelaySecs;
  }

  /** Streams are numbered by the reconnects before them: every reconnect makes a new one. */
  lemma {:induction false} NewStreamEachTime(es: seq<Event>)
    requires Possible(es)
    ensures After(es).link.stream == Replaced(es)
  {
    hide Step, Enabled, Reconnects;
    if es != [] {
      var n := |es| - 1;
      NewStreamEachTime(es[..n]);
      StepStream(After(es[..n]), es[n]);
    }
  }

  // ---- back-off and callbacks

  /** A live connection is lost: by a failed read, or by a tick with the pong still missing. */
  predicate Loses(w: World, e: Event, unanswered: bool) {
    && w.link.connected && !w.link.stopping
    && ((e.what.ReadDone? && !e.what.ok) || (Ticks(w, e) && unanswered))
  }

  /** A connection is lost or a step of an attempt fails. */
  predicate Fails(w: World, e: Event, unanswered: bool) {
    (e.what.DialDone? && !e.what.ok) || Loses(w, e, unanswered)
  }

  /** The failures since the last connection came up, the one that ended it included, and when the last one was. */
  datatype Failures = Failures(count: nat, at: nat)

  function FailuresOf(es: seq<Event>): Failures
    requires Possible(es)
  {
    if es == [] then Failures(0, 0)
    else
      var before := es[..|es| - 1];
      NextFailures(After(before), es[|es| - 1], Unanswered(before), FailuresOf(before))
  }

  function NextFailures(w: World, e: Event, unanswered: bool, f: Failures): Failures {
    if ComesUp(e) then Failures(0, f.at)
    else if Fails(w, e, unanswered) then Failures(f.count + 1, e.at)
    else f
  }

  /** What the listener has heard. */
  function Told(es: seq<Event>): seq<Callback>
    requires Possible(es)
  {
    if es == [] then []
    else
      var before := es[..|es| - 1];
      Told(before) + NextTold(After(before), es[|es| - 1], Unanswered(before))
  }

  function NextTold(w: World, e: Event, unanswered: bool): seq<Callback> {
    if ComesUp(e) then [OnConnected]
    else if Loses(w, e, unanswered) then [OnDisconnected(true)]
    else if e.what.CloseDone? then [OnDisconnected(false)]
    else []
  }

  /** Attempts are counted, and a reconnect that is awaited is due the delay of that count after the last failure. */
  ghost predicate BacksOff(l: Link, f: Failures) {
    && l.reconnectAttempts == f.count
    && (forall id: nat :: Live(l.reconnects, id) ==>
          f.count > 0 && l.reconnects[id].deadline == f.at + DelaySecs(f.count) * 1000)
  }

  /** The answer to a failure: the next attempt is counted and awaited. */
  lemma Rescheduled(l: Link, at: nat, f: Failures)
    requires WaitsOf(l.reconnects, l.reconnectTimer, l.nextWait) && !Pending(l.reconnects, l.reconnectTimer)
    requires !l.stopping && l.reconnectAttempts == f.count
    ensures BacksOff(ScheduleReconnect(l, at), Failures(f.count + 1, at))
    ensures BacksOff(Lose(l, at), Failures(f.count + 1, at))
    ensures ScheduleReconnect(l, at).callbacks == l.callbacks
    ensures Lose(l, at).callbacks == l.callbacks + [OnDisconnected(true)]
    ensures Pending(ScheduleReconnect(l, at).reconnects, ScheduleReconnect(l, at).reconnectTimer)
    ensures Pending(Lose(l, at).reconnects, Lose(l, at).reconnectTimer)
  {
    hide DelaySecs;
    var waits := Cancel(l.reconnects, l.reconnectTimer);
    assert forall id: nat :: Live(waits, id) ==> Live(l.reconnects, id);
    assert forall id: nat :: !Live(l.reconnects, id);
    var k := ScheduleReconnect(l, at);
    assert forall id: nat :: Live(k.reconnects, id) && id != l.nextWait ==> Live(waits, id);
  }

  lemma FewerWaits(l: Link, k: Link, f: Failures)
    requires BacksOff(l, f) && k.reconnectAttempts == l.reconnectAttempts
    requires forall id: nat :: Live(k.reconnects, id) ==>
      Live(l.reconnects, id) && k.reconnects[id].deadline == l.reconnects[id].deadline
    ensures BacksOff(k, f)
  {
  }

  predicate OnReconnectTimer(e: Event) {
    e.what.Stop? || e.what.ReconnectExpires? || e.what.ReconnectWaitDone?
  }

  lemma WaitsKept(w: World, e: Event)
    requires Inv(w) && Enabled(w, e) && !e.what.DialDone? && !Loses(w, e, w.pulse.pendingPong) && !OnReconnectTimer(e)
    ensures var l, k := w.link, Step(w, e).link;
      && k.reconnectAttempts == l.reconnectAttempts && k.reconnects == l.reconnects
      && k.callbacks == l.callbacks + if e.what.CloseDone? then [OnDisconnected(false)] else []
  {
    hide Inv, Drained, CanExpire, Resume, ClearQueue, StartPingTimer, StopPinging, Enqueue, Written, Lose, PongOverdue,
         ScheduleReconnect, PingSent;
    if Ticks(w, e) {
      TickDecides(w, e);
    }
  }

  lemma WaitsDwindle(w: World, e: Event)
    requires Enabled(w, e) && OnReconnectTimer(e)
    ensures var l, k := w.link, Step(w, e).link;
      && k.reconnectAttempts == l.reconnectAttempts && k.callbacks == l.callbacks
      && (forall id: nat :: Live(k.reconnects, id) ==>
            Live(l.reconnects, id) && k.reconnects[id].deadline == l.reconnects[id].deadline)
  {
    hide Drained, StopPinging, ClearQueue, DelaySecs, Live;
    match e.what
    case Stop(_) => FewerByCancel(w.link.reconnects, w.link.reconnectTimer);
    case ReconnectExpires(id) => FewerByExpiry(w.link.reconnects, id, e.at);
    case ReconnectWaitDone(id) =>
      FewerByEnd(w.link.reconnects, id);
      FewerByCancel(w.link.reconnects - {id}, w.link.reconnectTimer);
  }

  lemma FewerByCancel(waits: map<nat, Wait>, timer: Option<nat>)
    ensures var left := Cancel(waits, timer);
      forall k: nat :: Live(left, k) ==> Live(waits, k) && left[k].deadline == waits[k].deadline
  {
  }

  lemma FewerByExpiry(waits: map<nat, Wait>, id: nat, at: nat)
    requires CanExpire(waits, id, at)
    ensures var left := Expire(waits, id);
      forall k: nat :: Live(left, k) ==> Live(waits, k) && left[k].deadline == waits[k].deadline
  {
  }

  lemma FewerByEnd(waits: map<nat, Wait>, id: nat)
    ensures var left := waits - {id};
      forall k: nat :: Live(left, k) ==> Live(waits, k) && left[k].deadline == waits[k].deadline
  {
  }

  /** Events that neither end an attempt nor a connection, nor bring one up, leave the count alone and arm nothing. */
  lemma CountKept(w: World, e: Event, f: Failures)
    requires Inv(w) && Enabled(w, e) && !e.what.DialDone? && !Loses(w, e, w.pulse.pendingPong) && BacksOff(w.link, f)
    ensures BacksOff(Step(w, e).link, f)
    ensures Step(w, e).link.callbacks == w.link.callbacks + if e.what.CloseDone? then [OnDisconnected(false)] else []
  {
    hide Inv, Step, Enabled, Loses, BacksOff;
    if OnReconnectTimer(e) {
      WaitsDwindle(w, e);
    } else {
      WaitsKept(w, e);
    }
    FewerWaits(w.link, Step(w, e).link, f);
  }

  lemma TickDecides(w: World, e: Event)
    requires Inv(w) && Enabled(w, e) && Ticks(w, e)
    ensures PongOverdue(w.pulse.(pings := w.pulse.pings - {e.what.id}), e.at) <==> w.pulse.pendingPong
  {
    hide LinkInv, OutboxInv, InboxInv, PulseInv, Drained, CanExpire, CanComplete;
    TimePasses(w, e.at);
    DueAfterInterval(w.pulse, w.link, e.at, e.what.id);
  }

  lemma DialBacksOff(l: Link, p: Phase, at: nat, f: Failures)
    requires LinkInv(l) && p in l.dialing && BacksOff(l, f)
    ensures var k := l.(dialing := l.dialing - multiset{p});
      && BacksOff(ScheduleReconnect(k, at), Failures(f.count + 1, at))
      && ScheduleReconnect(k, at).callbacks == l.callbacks
      && BacksOff(Upgraded(k), Failures(0, f.at)) && Upgraded(k).callbacks == l.callbacks + [OnConnected]
      && forall q :: BacksOff(Dial(k, q), f) && Dial(k, q).callbacks == l.callbacks
  {
    hide DelaySecs, ScheduleReconnect, WaitsOf, Pending, Alternating;
    assert l.dialing != multiset{};
    DialFailsOff(l, p);
    Rescheduled(l.(dialing := l.dialing - multiset{p}), at, f);
    NoneAwaited(l);
  }

  lemma DialEndsOrGoesOn(w: World, e: Event, f: Failures)
    requires Inv(w) && Enabled(w, e) && e.what.DialDone? && BacksOff(w.link, f)
    ensures BacksOff(Step(w, e).link, NextFailures(w, e, false, f))
    ensures Step(w, e).link.callbacks == w.link.callbacks + if ComesUp(e) then [OnConnected] else []
  {
    hide Inv, LinkInv, Drained, Resume, StartPingTimer, StopPinging, FreshPulse, ScheduleReconnect, Upgraded, Dial,
         BacksOff;
    LinkFacts(w);
    DialBacksOff(w.link, e.what.phase, e.at, f);
  }

  lemma DialFailsOff(l: Link, p: Phase)
    requires LinkInv(l) && p in l.dialing
    ensures var k := l.(dialing := l.dialing - multiset{p});
      WaitsOf(k.reconnects, k.reconnectTimer, k.nextWait) && !Pending(k.reconnects, k.reconnectTimer)
  {
  }

  lemma NoneAwaited(l: Link)
    requires LinkInv(l) && l.dialing != multiset{}
    ensures forall id: nat :: !Live(l.reconnects, id) && !Live(Cancel(l.reconnects, l.reconnectTimer), id)
  {
  }

  lemma LossReschedules(w: World, e: Event, f: Failures)
    requires Inv(w) && Enabled(w, e) && Loses(w, e, w.pulse.pendingPong) && BacksOff(w.link, f)
    ensures var k := Step(w, e).link;
      && BacksOff(k, Failures(f.count + 1, e.at)) && Pending(k.reconnects, k.reconnectTimer)
      && k.callbacks == w.link.callbacks + [OnDisconnected(true)]
  {
    hide Inv, LinkInv, Drained, CanExpire, StopPinging, PongOverdue, ScheduleReconnect, Lose, Pending, BacksOff,
         PingSent;
    LinkFacts(w);
    AttemptsCounted(w.link, f);
    WaitsWell(w.link);
    Rescheduled(w.link, e.at, f);
    if Ticks(w, e) {
      TickDecides(w, e);
    }
  }

  lemma AttemptsCounted(l: Link, f: Failures)
    requires BacksOff(l, f)
    ensures l.reconnectAttempts == f.count
  {
  }

  lemma WaitsWell(l: Link)
    requires LinkInv(l)
    ensures WaitsOf(l.reconnects, l.reconnectTimer, l.nextWait)
  {
  }

  lemma StepBacksOff(w: World, e: Event, unanswered: bool, f: Failures)
    requires Inv(w) && Enabled(w, e) && BacksOff(w.link, f)
    requires w.link.connected ==> w.pulse.pendingPong == unanswered
    ensures BacksOff(Step(w, e).link, NextFailures(w, e, unanswered, f))
    ensures Step(w, e).link.callbacks == w.link.callbacks + NextTold(w, e, unanswered)
  {
    hide Inv, Step, Enabled, BacksOff;
    SameLosses(w, e, unanswered);
    if e.what.DialDone? {
      DialEndsOrGoesOn(w, e, f);
    } else if Loses(w, e, w.pulse.pendingPong) {
      LossReschedules(w, e, f);
    } else {
      CountKept(w, e, f);
    }
  }

  lemma SameLosses(w: World, e: Event, unanswered: bool)
    requires w.link.connected ==> w.pulse.pendingPong == unanswered
    ensures Loses(w, e, unanswered) == Loses(w, e, w.pulse.pendingPong)
    ensures e.what.DialDone? ==> !Loses(w, e, unanswered)
  {
  }

  /**
   Over every run: the listener heard exactly what the events say, in order; the attempt counter is
   the number of failures since the last connection came up; and a reconnect that is awaited is due
   the delay of that number after the last failure.
   */
  lemma {:induction false} BackoffAndCallbacks(es: seq<Event>)
    requires Possible(es)
    ensures After(es).link.callbacks == Told(es)
    ensures BacksOff(After(es).link, FailuresOf(es))
  {
    hide Inv, Step, Enabled, BacksOff, NextFailures, NextTold;
    if es == [] {
      NoFailures();
    } else {
      var n := |es| - 1;
      BackoffAndCallbacks(es[..n]);
      RunKeepsInv(es[..n]);
      if After(es[..n]).link.connected {
        PendingIsUnanswered(es[..n]);
      }
      StepBacksOff(After(es[..n]), es[n], Unanswered(es[..n]), FailuresOf(es[..n]));
    }
  }

  lemma NoFailures()
    ensures BacksOff(INITIAL.link, Failures(0, 0))
  {
  }

  /** Every failure arms the reconnect timer, and it is due the delay of the new count after the failure. */
  lemma FailureIsRetried(es: seq<Event>, e: Event)
    requires Possible(es) && Enabled(After(es), e) && Fails(After(es), e, Unanswered(es))
    ensures var l, k := Step(After(es), e).link, FailuresOf(es).count + 1;
      && Pending(l.reconnects, l.reconnectTimer) && l.reconnectAttempts == k
      && l.reconnects[l.reconnectTimer.value].deadline == e.at + DelaySecs(k) * 1000
  {
    hide After, Inv, Step, Enabled, Pending, DelaySecs;
    var w := After(es);
    RunKeepsInv(es);
    BackoffAndCallbacks(es);
    if w.link.connected {
      PendingIsUnanswered(es);
    }
    StepBacksOff(w, e, Unanswered(es), FailuresOf(es));
    if e.what.DialDone? {
      DialFailureAwaits(w, e);
    } else {
      SameLosses(w, e, Unanswered(es));
      LossReschedules(w, e, FailuresOf(es));
    }
    PendingIsLive(Step(w, e).link);
  }

  lemma DialFailureAwaits(w: World, e: Event)
    requires Inv(w) && Enabled(w, e) && e.what.DialDone? && !e.what.ok
    ensures var k := Step(w, e).link; Pending(k.reconnects, k.reconnectTimer)
  {
    hide OutboxInv, InboxInv, PulseInv, Drained, StopPinging, DelaySecs;
  }

  lemma PendingIsLive(l: Link)
    requires Pending(l.reconnects, l.reconnectTimer)
    ensures l.reconnectTimer.Some? && Live(l.reconnects, l.reconnectTimer.value)
  {
  }
}
