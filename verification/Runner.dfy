/**
 The runner as the class it is: its handlers update fields, and each does to the whole state
 what the transition system says.
 */
module Runner {
  import opened Wrappers
  import opened RunnerModel

  /** What the event loop owes the runner: operations in flight, timer waits and posted tasks. */
  datatype Io = Io(
    now: nat,
    dialing: multiset<Phase>,
    reconnects: map<nat, Wait>,
    nextReconnect: nat,
    closesPosted: nat,
    posted: multiset<Msg>,
    sending: multiset<Write>,
    inbox: Inbox,
    pings: map<nat, Wait>,
    nextPing: nat,
    pingsPosted: nat)

  /** What an observer has seen. */
  datatype Log = Log(
    started: bool,
    stops: nat,
    callbacks: seq<Callback>,
    enqueued: seq<Msg>,
    fates: seq<Fate>)

  class WebsocketRunner {
    // the fields of src/websocket/WebsocketRunner.h
    var connected: bool
    var writing: bool
    var stopping: bool
    var writeQueue: seq<Msg>
    var stream: nat
    var reconnectTimer: Option<nat>
    var reconnectAttempts: nat
    var pingTimer: Option<nat>
    var lastPongTime: nat
    var pendingPong: bool

    var io: Io
    ghost var log: Log

    ghost function ModelLink(): Link
      reads this
    {
      Link(connected, stopping, stream, reconnectTimer, reconnectAttempts, io.dialing, io.reconnects,
           io.nextReconnect, io.closesPosted, log.started, log.stops, log.callbacks)
    }

    ghost function ModelOutbox(): Outbox
      reads this
    {
      Outbox(writeQueue, writing, io.posted, io.sending, log.enqueued, log.fates)
    }

    ghost function ModelPulse(): Pulse
      reads this
    {
      Pulse(pingTimer, pendingPong, lastPongTime, io.pings, io.nextPing, io.pingsPosted)
    }

    ghost function Model(): World
      reads this
    {
      World(io.now, ModelLink(), ModelOutbox(), io.inbox, ModelPulse())
    }

    constructor ()
      ensures Model() == INITIAL
    {
      connected, writing, stopping, writeQueue, stream := false, false, false, [], 0;
      reconnectTimer, reconnectAttempts, pingTimer, lastPongTime, pendingPong := None, 0, None, 0, false;
      io := Io(0, multiset{}, map[], 0, 0, multiset{}, multiset{}, Inbox(multiset{}, multiset{}), map[], 0, 0);
      log := Log(false, 0, [], [], []);
    }

    // ---- outgoing messages

    method DoWrite()
      modifies this
      ensures Model() == old(Model()).(outbox := RunnerModel.DoWrite(old(ModelOutbox()), old(stream)))
    {
      if writeQueue == [] {
        writing := false;
        return;
      }
      writing := true;
      io := io.(sending := io.sending + multiset{Write(stream, writeQueue[0])});
    }

    /** The lambda shared by `send` and `doPing`. */
    method Push(m: Msg)
      modifies this
      ensures Model() == old(Model()).(outbox := Enqueue(old(ModelOutbox()), m, old(connected), old(stream)))
    {
      hide RunnerModel.DoWrite;
      writeQueue := writeQueue + [m];
      log := log.(enqueued := log.enqueued + [m]);
      if connected && !writing {
        DoWrite();
      }
    }

    method Send(m: Msg)
      modifies this
      ensures Model() == OnSend(old(Model()), m)
    {
      io := io.(posted := io.posted + multiset{m});
    }

    method RunPostedSend(m: Msg)
      modifies this
      ensures Model() == OnPostedSend(old(Model()), m)
    {
      hide Enqueue;
      io := io.(posted := io.posted - multiset{m});
      Push(m);
    }

    method OnWrite(write: Write, ok: bool)
      modifies this
      ensures Model() == RunnerModel.OnWrite(old(Model()), write, ok)
    {
      hide RunnerModel.DoWrite;
      io := io.(sending := io.sending - multiset{write});
      if !connected {
        return;
      }
      if !ok {
        writing := false;
        return;
      }
      if writeQueue != [] {
        log := log.(fates := log.fates + [Acknowledged(writeQueue[0])]);
        writeQueue := writeQueue[1..];
      }
      DoWrite();
    }

    // ---- the connection

    method DoDial(p: Phase)
      modifies this`io
      ensures io == old(io).(dialing := old(io).dialing + multiset{p})
    {
      io := io.(dialing := io.dialing + multiset{p});
    }

    method Start()
      modifies this
      ensures Model() == OnStart(old(Model()))
    {
      log := log.(started := true);
      DoDial(Resolve);
    }

    method Stop(loopStopped: bool)
      modifies this
      ensures Model() == OnStop(old(Model()), loopStopped)
    {
      hide Cancel;
      io := io.(reconnects := Cancel(io.reconnects, reconnectTimer), pings := Cancel(io.pings, pingTimer));
      log := log.(stops := log.stops + 1);
      if !loopStopped && !stopping {
        io := io.(closesPosted := io.closesPosted + 1);
      }
    }

    method DoClose()
      requires io.closesPosted > 0
      modifies this
      ensures Model() == OnPostedClose(old(Model()))
    {
      hide Cancel;
      io := io.(closesPosted := io.closesPosted - 1);
      if !connected || stopping {
        return;
      }
      io := io.(pings := Cancel(io.pings, pingTimer));
      stopping := true;
    }

    method ScheduleReconnect()
      modifies this
      ensures Model() == old(Model()).(
        link := RunnerModel.ScheduleReconnect(old(ModelLink()), old(io).now),
        pulse := if old(stopping) then old(ModelPulse()) else StopPinging(old(ModelPulse())))
    {
      hide Cancel, DelaySecs;
      if stopping {
        return;
      }
      io := io.(pings := Cancel(io.pings, pingTimer), reconnects := Cancel(io.reconnects, reconnectTimer));
      reconnectAttempts := reconnectAttempts + 1;
      reconnectTimer := Some(io.nextReconnect);
      var wait := Wait(io.now + DelaySecs(reconnectAttempts) * SECOND, Armed);
      io := io.(reconnects := io.reconnects[io.nextReconnect := wait], nextReconnect := io.nextReconnect + 1);
    }

    /** onResolve, onConnect and onSslHandshake. */
    method OnDialStep(p: Phase, ok: bool)
      requires p != WsHandshake
      modifies this
      ensures Model() == if ok then RunnerModel.OnDialStep(old(Model()), p) else OnDialFailed(old(Model()), p)
    {
      hide RunnerModel.ScheduleReconnect, StopPinging;
      io := io.(dialing := io.dialing - multiset{p});
      if !ok {
        ScheduleReconnect();
        return;
      }
      DoDial(NextPhase(p));
    }

    method CancelReconnect()
      modifies this`io, this`reconnectTimer
      ensures reconnectTimer.None?
      ensures io == old(io).(reconnects := Cancel(old(io).reconnects, old(reconnectTimer)))
    {
      io := io.(reconnects := Cancel(io.reconnects, reconnectTimer));
      reconnectTimer := None;
    }

    /** The fields `onWsHandshake` resets, and the listener's callback. */
    method ComeUp()
      modifies this
      ensures Model() == old(Model()).(
        link := Upgraded(old(ModelLink())),
        pulse := FreshPulse(old(ModelPulse()), old(io).now))
    {
      hide Cancel;
      CancelReconnect();
      lastPongTime := io.now;
      pendingPong := false;
      connected := true;
      reconnectAttempts := 0;
      log := log.(callbacks := log.callbacks + [OnConnected]);
    }

    method OnWsHandshake(ok: bool)
      modifies this
      ensures Model() == if ok then OnUpgraded(old(Model())) else OnDialFailed(old(Model()), WsHandshake)
    {
      hide RunnerModel.ScheduleReconnect, StopPinging, RunnerModel.DoWrite, RunnerModel.StartPingTimer, FreshPulse;
      io := io.(dialing := io.dialing - multiset{WsHandshake});
      if !ok {
        ScheduleReconnect();
        return;
      }
      ComeUp();
      if writeQueue != [] {
        DoWrite();
      }
      StartPingTimer();
      DoRead();
    }

    method DoRead()
      modifies this`io
      ensures io == old(io).(inbox := old(io).inbox.(reading := old(io).inbox.reading + multiset{stream}))
    {
      io := io.(inbox := io.inbox.(reading := io.inbox.reading + multiset{stream}));
    }

    /** The listener hears that the connection is gone, and a reconnect is scheduled. */
    method Disconnect()
      requires !stopping
      modifies this
      ensures Model() == old(Model()).(
        link := Lose(old(ModelLink()), old(io).now), pulse := StopPinging(old(ModelPulse())))
    {
      hide RunnerModel.ScheduleReconnect, StopPinging;
      log := log.(callbacks := log.callbacks + [OnDisconnected(true)]);
      connected := false;
      ScheduleReconnect();
    }

    method OnRead(from: nat, ok: bool)
      modifies this
      ensures Model() == RunnerModel.OnRead(old(Model()), from, ok)
    {
      hide Lose, StopPinging;
      io := io.(inbox := io.inbox.(reading := io.inbox.reading - multiset{from}));
      if !connected && !stopping {
        return;
      }
      if !ok {
        if stopping {
          io := io.(inbox := io.inbox.(closing := io.inbox.closing + multiset{stream}));
        } else {
          Disconnect();
        }
        return;
      }
      DoRead();
    }

    /** The completion of `async_close`. */
    method OnClosed(from: nat)
      modifies this
      ensures Model() == RunnerModel.OnClosed(old(Model()), from)
    {
      io := io.(inbox := io.inbox.(closing := io.inbox.closing - multiset{from}));
      log := log.(callbacks := log.callbacks + [OnDisconnected(false)]);
      connected := false;
      stopping := false;
    }

    method OnReconnectTimer(id: nat)
      requires id in io.reconnects
      modifies this
      ensures Model() == OnReconnectWait(old(Model()), id)
    {
      hide Redial, RunnerModel.ClearQueue;
      var ec := io.reconnects[id].status != Expired;
      io := io.(reconnects := io.reconnects - {id});
      if !ec && !stopping {
        DoReconnect();
      }
    }

    /** Pops until the queue is empty. */
    method ClearQueue()
      modifies this`writeQueue, this`log
      ensures writeQueue == []
      ensures log == old(log).(fates := old(log).fates + AllDropped(old(writeQueue)))
    {
      ghost var fates, queue := log.fates, writeQueue;
      while writeQueue != []
        invariant |writeQueue| <= |queue| && writeQueue == queue[|queue| - |writeQueue|..]
        invariant log == old(log).(fates := fates + AllDropped(queue[..|queue| - |writeQueue|]))
      {
        log := log.(fates := log.fates + [Dropped(writeQueue[0])]);
        writeQueue := writeQueue[1..];
      }
      assert queue[..|queue|] == queue;
    }

    /** The state of the previous connection that `doReconnect` clears. */
    method ForgetConnection()
      modifies this
      ensures Model() == old(Model()).(
        outbox := RunnerModel.ClearQueue(old(ModelOutbox())),
        pulse := old(ModelPulse()).(pendingPong := false))
    {
      hide AllDropped;
      pendingPong := false;
      writing := false;
      ClearQueue();
    }

    method DoReconnect()
      modifies this
      ensures Model() ==
        if old(connected) then old(Model())
        else old(Model()).(link := Redial(old(ModelLink())), outbox := RunnerModel.ClearQueue(old(ModelOutbox())),
                           pulse := old(ModelPulse()).(pendingPong := false))
    {
      hide Cancel, RunnerModel.ClearQueue;
      if connected {
        return;
      }
      CancelReconnect();
      ForgetConnection();
      stream := stream + 1;
      DoDial(Resolve);
    }

    // ---- the heartbeat

    method StartPingTimer()
      modifies this
      ensures Model() == old(Model()).(
        pulse := RunnerModel.StartPingTimer(old(ModelPulse()), old(io).now, old(connected), old(stopping)))
    {
      hide Cancel;
      if stopping || !connected {
        return;
      }
      io := io.(pings := Cancel(io.pings, pingTimer));
      pingTimer := Some(io.nextPing);
      var wait := Wait(io.now + PING_INTERVAL_SECS * SECOND, Armed);
      io := io.(pings := io.pings[io.nextPing := wait], nextPing := io.nextPing + 1);
    }

    method OnPingTimer(id: nat)
      requires id in io.pings
      modifies this
      ensures Model() == OnPingWait(old(Model()), id)
    {
      hide Lose, StopPinging, PingSent, PongOverdue;
      var ec := io.pings[id].status != Expired;
      io := io.(pings := io.pings - {id});
      if !ec && !stopping && connected {
        DoPing();
      }
    }

    method DoPing()
      modifies this
      ensures Model() ==
        if old(stopping) || !old(connected) then old(Model())
        else if PongOverdue(old(ModelPulse()), old(io).now) then
          old(Model()).(link := Lose(old(ModelLink()), old(io).now), pulse := StopPinging(old(ModelPulse())))
        else old(Model()).(pulse := PingSent(old(ModelPulse())))
    {
      hide Lose, StopPinging;
      if stopping || !connected {
        return;
      }
      if pendingPong {
        var elapsed := io.now - lastPongTime;
        if elapsed > PONG_TIMEOUT_SECS * SECOND {
          Disconnect();
          return;
        }
      }
      pendingPong := true;
      io := io.(pingsPosted := io.pingsPosted + 1);
    }

    method RunPostedPing()
      requires io.pingsPosted > 0
      modifies this
      ensures Model() == OnPostedPing(old(Model()))
    {
      hide Enqueue, RunnerModel.StartPingTimer;
      io := io.(pingsPosted := io.pingsPosted - 1);
      Push(PING);
      StartPingTimer();
    }

    method OnPongReceived()
      modifies this
      ensures Model() == OnPong(old(Model()))
    {
      lastPongTime := io.now;
      pendingPong := false;
    }

    // ---- the event loop

    method Dispatch(e: Event)
      requires Enabled(Model(), e)
      modifies this
      ensures Model() == Step(old(Model()), e)
    {
      hide RunnerModel.OnStart, OnSend, OnStop, OnPostedSend, OnPostedPing, OnPostedClose, OnDialFailed, OnUpgraded;
      hide RunnerModel.OnDialStep, RunnerModel.OnRead, RunnerModel.OnWrite, RunnerModel.OnClosed, OnReconnectWait;
      hide OnPingWait, OnPong, Drained;
      io := io.(now := e.at);
      match e.what
      case Start => Start();
      case Send(m) => Send(m);
      case Stop(loopStopped) => Stop(loopStopped);
      case RunSend(m) => RunPostedSend(m);
      case RunPing => RunPostedPing();
      case RunClose => DoClose();
      case DialDone(p, ok) =>
        if p == WsHandshake {
          OnWsHandshake(ok);
        } else {
          OnDialStep(p, ok);
        }
      case ReadDone(s, ok) => OnRead(s, ok);
      case WriteDone(x, ok) => OnWrite(x, ok);
      case CloseDone(s) => OnClosed(s);
      case ReconnectExpires(id) => io := io.(reconnects := Expire(io.reconnects, id));
      case ReconnectWaitDone(id) => OnReconnectTimer(id);
      case PingExpires(id) => io := io.(pings := Expire(io.pings, id));
      case PingWaitDone(id) => OnPingTimer(id);
      case Pong => OnPongReceived();
    }
  }

  /** A runner that has handled the events of a run is in the state the run leads to. */
  method Run(es: seq<Event>) returns (runner: WebsocketRunner)
    requires Possible(es)
    ensures fresh(runner) && runner.Model() == After(es)
  {
    hide Enabled, Step;
    runner := new WebsocketRunner();
    assert es[..|es|] == es;
    AllPrefixesPossible(es);
    for i := 0 to |es|
      invariant fresh(runner) && runner.Model() == After(es[..i])
    {
      assert es[..i + 1][..i] == es[..i];
      runner.Dispatch(es[i]);
    }
  }

  lemma {:induction false} AllPrefixesPossible(es: seq<Event>)
    requires Possible(es)
    ensures forall i :: 0 <= i <= |es| ==> Possible(es[..i])
  {
    hide Enabled, Step;
    assert es[..|es|] == es;
    if es != [] {
      var n := |es| - 1;
      AllPrefixesPossible(es[..n]);
      forall i | 0 <= i <= n
        ensures Possible(es[..i])
      {
        assert es[..i] == es[..n][..i];
      }
    }
  }
}
