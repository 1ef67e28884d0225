/**
 The connection machine of src/websocket/WebsocketRunner.cpp as a transition system. One
 event-loop thread runs the handlers one at a time; the network, the timers and the callers
 of `send` and `stop` choose which event comes next.
 */
module RunnerModel {
  import opened Wrappers
  import opened Bits

  type Msg = string

  const SECOND: nat := 1000
  const MAX_BACKOFF_SECS: nat := 60
  const PING_INTERVAL_SECS: nat := 30
  const PONG_TIMEOUT_SECS: nat := 10
  const PING: Msg := "{\"method\":\"ping\"}"

  datatype Phase = Resolve | Connect | TlsHandshake | WsHandshake

  /** An `async_write` of the message at the front of the queue when it started. */
  datatype Write = Write(stream: nat, msg: Msg)

  /** A timer wait: cancelled it completes with an error, expired without. */
  datatype Status = Armed | Expired | Cancelled

  datatype Wait = Wait(deadline: nat, status: Status)

  datatype Callback = OnConnected | OnDisconnected(hasError: bool)

  /** A message leaves the queue when its write succeeded or when a reconnect clears the queue. */
  datatype Fate = Acknowledged(msg: Msg) | Dropped(msg: Msg)

  // ---- state: the runner's fields, what the event loop still owes them, what was observed

  /** The connection: flags, stream and reconnect timer; steps and waits in flight; callbacks made. */
  datatype Link = Link(
    connected: bool,
    stopping: bool,
    stream: nat,
    reconnectTimer: Option<nat>,
    reconnectAttempts: nat,
    dialing: multiset<Phase>,
    reconnects: map<nat, Wait>,
    nextWait: nat,
    closesPosted: nat,
    started: bool,
    stops: nat,
    callbacks: seq<Callback>)

  /** Outgoing messages: the queue and its flag; posted sends and writes in flight; what became of messages. */
  datatype Outbox = Outbox(
    writeQueue: seq<Msg>,
    writing: bool,
    posted: multiset<Msg>,
    sending: multiset<Write>,
    enqueued: seq<Msg>,
    fates: seq<Fate>)

  /** Reads and closes in flight, by stream. */
  datatype Inbox = Inbox(reading: multiset<nat>, closing: multiset<nat>)

  /** The heartbeat: timer and pong fields; waits and posted pings. */
  datatype Pulse = Pulse(
    pingTimer: Option<nat>,
    pendingPong: bool,
    lastPongTime: nat,
    pings: map<nat, Wait>,
    nextWait: nat,
    pingsPosted: nat)

  datatype World = World(now: nat, link: Link, outbox: Outbox, inbox: Inbox, pulse: Pulse)

  const INITIAL: World := World(
    0,
    Link(false, false, 0, None, 0, multiset{}, map[], 0, 0, false, 0, []),
    Outbox([], false, multiset{}, multiset{}, [], []),
    Inbox(multiset{}, multiset{}),
    Pulse(None, false, 0, map[], 0, 0))

  function Cancel(waits: map<nat, Wait>, timer: Option<nat>): map<nat, Wait> {
    if timer.Some? && timer.value in waits && waits[timer.value].status == Armed
    then waits[timer.value := waits[timer.value].(status := Cancelled)]
    else waits
  }

  // ---- the connection

  /** doResolve, and the next step of an attempt after a step that succeeded. */
  function Dial(l: Link, p: Phase): Link {
    l.(dialing := l.dialing + multiset{p})
  }

  function DelaySecs(attempts: nat): nat {
    var d := Pow2(if attempts < 16 then attempts else 16);
    if d < MAX_BACKOFF_SECS then d else MAX_BACKOFF_SECS
  }

  function ScheduleReconnect(l: Link, now: nat): Link {
    if l.stopping then l
    else
      var n := l.reconnectAttempts + 1;
      var waits := Cancel(l.reconnects, l.reconnectTimer);
      l.(
        reconnectAttempts := n,
        reconnectTimer := Some(l.nextWait),
        reconnects := waits[l.nextWait := Wait(now + DelaySecs(n) * SECOND, Armed)],
        nextWait := l.nextWait + 1)
  }

  /** The connection is gone: the listener hears of it and a reconnect is scheduled. */
  function Lose(l: Link, now: nat): Link {
    ScheduleReconnect(l.(connected := false, callbacks := l.callbacks + [OnDisconnected(true)]), now)
  }

  function Redial(l: Link): Link {
    Dial(l.(
      reconnects := Cancel(l.reconnects, l.reconnectTimer),
      reconnectTimer := None,
      stream := l.stream + 1), Resolve)
  }

  function Upgraded(l: Link): Link {
    l.(
      connected := true,
      reconnectAttempts := 0,
      reconnects := Cancel(l.reconnects, l.reconnectTimer),
      reconnectTimer := None,
      callbacks := l.callbacks + [OnConnected])
  }

  function Closed(l: Link): Link {
    l.(connected := false, stopping := false, callbacks := l.callbacks + [OnDisconnected(false)])
  }

  // ---- outgoing messages

  function DoWrite(o: Outbox, stream: nat): Outbox {
    if o.writeQueue == [] then o.(writing := false)
    else o.(
      writing := true,
      sending := o.sending + multiset{Write(stream, o.writeQueue[0])})
  }

  /** The body that `send` and `doPing` post. */
  function Enqueue(o: Outbox, m: Msg, connected: bool, stream: nat): Outbox {
    var o1 := o.(writeQueue := o.writeQueue + [m], enqueued := o.enqueued + [m]);
    if connected && !o.writing then DoWrite(o1, stream) else o1
  }

  function AllDropped(q: seq<Msg>): (f: seq<Fate>)
    ensures |f| == |q|
  {
    seq(|q|, i requires 0 <= i < |q| => Dropped(q[i]))
  }

  function ClearQueue(o: Outbox): Outbox {
    o.(writing := false, writeQueue := [], fates := o.fates + AllDropped(o.writeQueue))
  }

  /** onWrite. An empty queue, where the pop would be undefined, does not arise: see `CompletesFront`. */
  function Written(o: Outbox, write: Write, ok: bool, connected: bool, stream: nat): Outbox {
    var o1 := o.(sending := o.sending - multiset{write});
    if !connected then o1
    else if !ok then o1.(writing := false)
    else if o.writeQueue == [] then DoWrite(o1, stream)
    else DoWrite(o1.(
      writeQueue := o.writeQueue[1..],
      fates := o.fates + [Acknowledged(o.writeQueue[0])]), stream)
  }

  /** The queue when a connection comes up. */
  function Resume(o: Outbox, stream: nat): Outbox {
    if o.writeQueue != [] then DoWrite(o, stream) else o
  }

  // ---- the heartbeat

  function StopPinging(p: Pulse): Pulse {
    p.(pings := Cancel(p.pings, p.pingTimer))
  }

  function StartPingTimer(p: Pulse, now: nat, connected: bool, stopping: bool): Pulse {
    if stopping || !connected then p
    else
      var waits := Cancel(p.pings, p.pingTimer);
      p.(
        pingTimer := Some(p.nextWait),
        pings := waits[p.nextWait := Wait(now + PING_INTERVAL_SECS * SECOND, Armed)],
        nextWait := p.nextWait + 1)
  }

  /** What `doPing` checks before it pings. */
  predicate PongOverdue(p: Pulse, now: nat) {
    p.pendingPong && now - p.lastPongTime > PONG_TIMEOUT_SECS * SECOND
  }

  function PingSent(p: Pulse): Pulse {
    p.(pendingPong := true, pingsPosted := p.pingsPosted + 1)
  }

  function FreshPulse(p: Pulse, now: nat): Pulse {
    p.(pendingPong := false, lastPongTime := now)
  }

  // ---- handlers

  function OnStart(w: World): World {
    w.(link := Dial(w.link, Resolve).(started := true))
  }

  function OnSend(w: World, m: Msg): World {
    w.(outbox := w.outbox.(posted := w.outbox.posted + multiset{m}))
  }

  function OnStop(w: World, loopStopped: bool): World {
    w.(
      link := w.link.(
        reconnects := Cancel(w.link.reconnects, w.link.reconnectTimer),
        closesPosted := w.link.closesPosted + (if !loopStopped && !w.link.stopping then 1 else 0),
        stops := w.link.stops + 1),
      pulse := StopPinging(w.pulse))
  }

  function OnPostedSend(w: World, m: Msg): World {
    w.(outbox := Enqueue(w.outbox.(posted := w.outbox.posted - multiset{m}), m, w.link.connected, w.link.stream))
  }

  function OnPostedPing(w: World): World
    requires w.pulse.pingsPosted > 0
  {
    w.(
      outbox := Enqueue(w.outbox, PING, w.link.connected, w.link.stream),
      pulse := StartPingTimer(w.pulse.(pingsPosted := w.pulse.pingsPosted - 1),
                              w.now, w.link.connected, w.link.stopping))
  }

  /** doClose */
  function OnPostedClose(w: World): World
    requires w.link.closesPosted > 0
  {
    var l := w.link.(closesPosted := w.link.closesPosted - 1);
    if !w.link.connected || w.link.stopping then w.(link := l)
    else w.(link := l.(stopping := true), pulse := StopPinging(w.pulse))
  }

  function OnDialFailed(w: World, p: Phase): World {
    w.(
      link := ScheduleReconnect(w.link.(dialing := w.link.dialing - multiset{p}), w.now),
      pulse := if w.link.stopping then w.pulse else StopPinging(w.pulse))
  }

  function NextPhase(p: Phase): Phase
    requires p != WsHandshake
  {
    match p
    case Resolve => Connect
    case Connect => TlsHandshake
    case TlsHandshake => WsHandshake
  }

  function OnDialStep(w: World, p: Phase): World
    requires p != WsHandshake
  {
    w.(link := Dial(w.link.(dialing := w.link.dialing - multiset{p}), NextPhase(p)))
  }

  /** onWsHandshake without an error. */
  function OnUpgraded(w: World): World {
    var l := w.link;
    w.(
      link := Upgraded(l.(dialing := l.dialing - multiset{WsHandshake})),
      outbox := Resume(w.outbox, l.stream),
      inbox := w.inbox.(reading := w.inbox.reading + multiset{l.stream}),
      pulse := StartPingTimer(FreshPulse(w.pulse, w.now), w.now, true, l.stopping))
  }

  function OnRead(w: World, stream: nat, ok: bool): World {
    var i := w.inbox.(reading := w.inbox.reading - multiset{stream});
    if !w.link.connected && !w.link.stopping then w.(inbox := i)
    else if ok then w.(inbox := i.(reading := i.reading + multiset{w.link.stream}))
    else if w.link.stopping then w.(inbox := i.(closing := i.closing + multiset{w.link.stream}))
    else w.(inbox := i, link := Lose(w.link, w.now), pulse := StopPinging(w.pulse))
  }

  function OnWrite(w: World, write: Write, ok: bool): World {
    w.(outbox := Written(w.outbox, write, ok, w.link.connected, w.link.stream))
  }

  function OnClosed(w: World, stream: nat): World {
    w.(inbox := w.inbox.(closing := w.inbox.closing - multiset{stream}), link := Closed(w.link))
  }

  /** The wait of the reconnect timer, and doReconnect. */
  function OnReconnectWait(w: World, id: nat): World
    requires id in w.link.reconnects
  {
    var l := w.link.(reconnects := w.link.reconnects - {id});
    if w.link.reconnects[id].status == Expired && !w.link.stopping && !w.link.connected
    then w.(link := Redial(l), outbox := ClearQueue(w.outbox), pulse := w.pulse.(pendingPong := false))
    else w.(link := l)
  }

  /** The wait of the ping timer, and doPing. */
  function OnPingWait(w: World, id: nat): World
    requires id in w.pulse.pings
  {
    var p := w.pulse.(pings := w.pulse.pings - {id});
    if w.pulse.pings[id].status != Expired || w.link.stopping || !w.link.connected then w.(pulse := p)
    else if PongOverdue(p, w.now) then w.(link := Lose(w.link, w.now), pulse := StopPinging(p))
    else w.(pulse := PingSent(p))
  }

  function OnPong(w: World): World {
    w.(pulse := w.pulse.(lastPongTime := w.now, pendingPong := false))
  }

  // ---- runs

  datatype Happening =
    | Start
    | Send(msg: Msg)
    | Stop(loopStopped: bool)
    | RunSend(msg: Msg)
    | RunPing
    | RunClose
    | DialDone(phase: Phase, ok: bool)
    | ReadDone(stream: nat, ok: bool)
    | WriteDone(write: Write, ok: bool)
    | CloseDone(stream: nat)
    | ReconnectExpires(id: nat)
    | ReconnectWaitDone(id: nat)
    | PingExpires(id: nat)
    | PingWaitDone(id: nat)
    | Pong

  datatype Event = Event(at: nat, what: Happening)

  predicate CanExpire(waits: map<nat, Wait>, id: nat, at: nat) {
    id in waits && waits[id].status == Armed && waits[id].deadline <= at
  }

  predicate CanComplete(waits: map<nat, Wait>, id: nat) {
    id in waits && waits[id].status != Armed
  }

  /** Everything owed to a replaced stream has been delivered. */
  predicate Drained(w: World) {
    && w.inbox.reading == multiset{} && w.inbox.closing == multiset{} && w.outbox.sending == multiset{}
    && w.pulse.pings == map[] && w.pulse.pingsPosted == 0
  }

  /**
   What may happen next. A completion needs its operation, an expiry its deadline; and a
   stream that was replaced has had all its completions delivered before the next one is up.
   */
  predicate Enabled(w: World, e: Event) {
    && w.now <= e.at
    && match e.what
       case Start => !w.link.started
       case Send(_) => true
       case Stop(_) => true
       case RunSend(m) => m in w.outbox.posted
       case RunPing => w.pulse.pingsPosted > 0
       case RunClose => w.link.closesPosted > 0
       case DialDone(p, ok) => p in w.link.dialing && (p == WsHandshake && ok ==> Drained(w))
       case ReadDone(s, _) => s in w.inbox.reading
       case WriteDone(x, _) => x in w.outbox.sending
       case CloseDone(s) => s in w.inbox.closing
       case ReconnectExpires(id) => CanExpire(w.link.reconnects, id, e.at)
       case ReconnectWaitDone(id) => CanComplete(w.link.reconnects, id)
       case PingExpires(id) => CanExpire(w.pulse.pings, id, e.at)
       case PingWaitDone(id) => CanComplete(w.pulse.pings, id)
       case Pong => true
  }

  function Expire(waits: map<nat, Wait>, id: nat): map<nat, Wait>
    requires id in waits
  {
    waits[id := waits[id].(status := Expired)]
  }

  function Step(w: World, e: Event): World
    requires Enabled(w, e)
  {
    var v := w.(now := e.at);
    match e.what
    case Start => OnStart(v)
    case Send(m) => OnSend(v, m)
    case Stop(loopStopped) => OnStop(v, loopStopped)
    case RunSend(m) => OnPostedSend(v, m)
    case RunPing => OnPostedPing(v)
    case RunClose => OnPostedClose(v)
    case DialDone(p, ok) =>
      if !ok then OnDialFailed(v, p) else if p == WsHandshake then OnUpgraded(v) else OnDialStep(v, p)
    case ReadDone(s, ok) => OnRead(v, s, ok)
    case WriteDone(x, ok) => OnWrite(v, x, ok)
    case CloseDone(s) => OnClosed(v, s)
    case ReconnectExpires(id) => v.(link := v.link.(reconnects := Expire(v.link.reconnects, id)))
    case ReconnectWaitDone(id) => OnReconnectWait(v, id)
    case PingExpires(id) => v.(pulse := v.pulse.(pings := Expire(v.pulse.pings, id)))
    case PingWaitDone(id) => OnPingWait(v, id)
    case Pong => OnPong(v)
  }

  /** A run is a sequence of events, each possible where it happens. */
  predicate Possible(es: seq<Event>)
    decreases |es|, 0
  {
    es == [] || (Possible(es[..|es| - 1]) && Enabled(After(es[..|es| - 1]), es[|es| - 1]))
  }

  function After(es: seq<Event>): World
    requires Possible(es)
    decreases |es|, 1
  {
    if es == [] then INITIAL else Step(After(es[..|es| - 1]), es[|es| - 1])
  }
}
