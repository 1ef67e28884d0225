/**
 Correlating post responses with requests: `signAndSend` of src/websocket/WebsocketApi.cpp,
 called by any number of threads, and `handlePostChannelMessage` of
 src/websocket/PostResponseDispatch.cpp on the receive thread. They share an id counter and
 a map behind a mutex; each atomic access is one step.
 */
module PostRequests {
  import opened Arithmetic
  import opened Wrappers

  /** A request's endpoint type and the caller's correlation id. */
  datatype Info = Info(endpoint: nat, correlationId: Option<nat>)

  type Thread = nat

  /** The counter, a 32-bit `int` that `fetch_add` wraps, as a `uint64_t` map key. */
  function Key(id: int): (k: nat)
    requires -0x8000_0000 <= id < 0x8000_0000
    ensures k < 0x1_0000_0000_0000_0000
  {
    if id >= 0 then id else 0x1_0000_0000_0000_0000 + id
  }

  /** The key of the `n`-th request overall. */
  function RequestKey(n: nat): (k: nat)
    ensures k < 0x1_0000_0000_0000_0000
  {
    Key(Int32(n))
  }

  /** How far a thread is in `signAndSend`, for the `n`-th request overall. */
  datatype Pc = Idle | Counted(n: nat) | Registered(n: nat)

  datatype Answer = Answer(key: nat, info: Info)

  datatype State = State(
    requests: seq<Info>,
    pcs: map<Thread, Pc>,
    postRequestInfo: map<nat, Info>,
    registered: set<nat>,
    answered: set<nat>,
    queued: seq<nat>,
    stopping: bool,
    received: nat,
    pongs: nat,
    delivered: seq<Answer>,
    passedOn: nat)

  const INITIAL: State := State([], map[], map[], {}, {}, [], false, 0, 0, [], 0)

  /** A message from the server: a post response, whose payload may be unreadable, a pong, or anything else. */
  datatype Message = Response(id: nat, payloadOk: bool) | Pong | Other

  datatype Event =
    | FetchAdd(t: Thread, info: Info)
    | Register(t: Thread)
    | Queue(t: Thread)
    | Receive(m: Message)
    | Stop

  function PcOf(s: State, t: Thread): Pc {
    if t in s.pcs then s.pcs[t] else Idle
  }

  predicate Enabled(s: State, e: Event) {
    match e
    case FetchAdd(t, _) => PcOf(s, t).Idle?
    case Register(t) => PcOf(s, t).Counted? && PcOf(s, t).n < |s.requests|
    case Queue(t) => PcOf(s, t).Registered?
    case Receive(_) => true
    case Stop => true
  }

  /** onWsMessage, with the lookup, erase and delivery of handlePostChannelMessage. */
  function OnMessage(s: State, m: Message): State {
    if s.stopping then s
    else
      var r := s.(received := s.received + 1);
      match m
      case Pong => r.(pongs := s.pongs + 1)
      case Other => r.(passedOn := s.passedOn + 1)
      case Response(id, payloadOk) =>
        if id !in s.postRequestInfo then r.(passedOn := s.passedOn + 1)
        else
          var found := r.(postRequestInfo := s.postRequestInfo - {id}, answered := s.answered + {id});
          if payloadOk then found.(delivered := s.delivered + [Answer(id, s.postRequestInfo[id])])
          else found.(passedOn := s.passedOn + 1)
  }

  function Step(s: State, e: Event): State
    requires Enabled(s, e)
  {
    match e
    case FetchAdd(t, info) => s.(requests := s.requests + [info], pcs := s.pcs[t := Counted(|s.requests|)])
    case Register(t) =>
      var n := PcOf(s, t).n;
      var key := RequestKey(n);
      s.(pcs := s.pcs[t := Registered(n)], postRequestInfo := s.postRequestInfo[key := s.requests[n]],
         registered := s.registered + {key})
    case Queue(t) => s.(pcs := s.pcs[t := Idle], queued := s.queued + [RequestKey(PcOf(s, t).n)])
    case Receive(m) => OnMessage(s, m)
    case Stop => s.(stopping := true)
  }

  predicate Possible(es: seq<Event>)
    decreases |es|, 0
  {
    es == [] || (Possible(es[..|es| - 1]) && Enabled(After(es[..|es| - 1]), es[|es| - 1]))
  }

  function After(es: seq<Event>): State
    requires Possible(es)
    decreases |es|, 1
  {
    if es == [] then INITIAL else Step(After(es[..|es| - 1]), es[|es| - 1])
  }

  // ---- ids

  /** The n-th request has id n exactly as long as n fits in 31 bits; after that ids are negative or reused. */
  lemma IdIsNumber(n: nat)
    ensures Int32(n) == n <==> n < 0x8000_0000
    ensures n < 0x8000_0000 ==> Key(Int32(n)) == n
  {
  }

  /** Where ids start over: request n + 2^32 gets the id of request n. */
  lemma IdsRepeat(n: nat)
    ensures Int32(n + 0x1_0000_0000) == Int32(n)
    ensures RequestKey(n + 0x1_0000_0000) == RequestKey(n)
  {
    assert (n + 0x1_0000_0000 + 0x8000_0000) % 0x1_0000_0000 == (n + 0x8000_0000) % 0x1_0000_0000;
  }

  /** The number a key stands for, among the first 2^32 requests. */
  function NumberOf(key: nat): int {
    if key < 0x8000_0000 then key else key - 0xFFFF_FFFF_0000_0000
  }

  /** Up to 2^32 requests every key stands for one request. */
  lemma KeysDistinct(n: nat)
    requires n < 0x1_0000_0000
    ensures NumberOf(RequestKey(n)) == n
  {
    if n < 0x8000_0000 {
      IdIsNumber(n);
    } else {
      assert (n + 0x8000_0000) % 0x1_0000_0000 == n - 0x8000_0000;
    }
  }

  // ---- invariants

  /** Whatever the ids: a queued id was registered before, and every message was answered for once. */
  predicate Ordered(s: State) {
    && (forall i :: 0 <= i < |s.queued| ==> s.queued[i] in s.registered)
    && (forall t :: t in s.pcs && s.pcs[t].Registered? ==> RequestKey(s.pcs[t].n) in s.registered)
    && s.postRequestInfo.Keys <= s.registered
    && s.answered <= s.registered
    && s.received == s.pongs + |s.delivered| + s.passedOn
  }

  predicate Few(s: State) {
    |s.requests| <= 0x1_0000_0000
  }

  /** Requests under way have numbers of their own, and only numbers given out are registered. */
  predicate Numbered(s: State) {
    && (forall t :: t in s.pcs && !s.pcs[t].Idle? ==> s.pcs[t].n < |s.requests|)
    && (forall t :: t in s.pcs && s.pcs[t].Counted? ==> RequestKey(s.pcs[t].n) !in s.registered)
    && (forall t, u :: t in s.pcs && u in s.pcs && t != u && s.pcs[t].Counted? && s.pcs[u].Counted? ==>
          s.pcs[t].n != s.pcs[u].n)
    && (forall k :: k in s.registered ==> 0 <= NumberOf(k) < |s.requests| && RequestKey(NumberOf(k)) == k)
  }

  /** The map holds what is registered and not answered; deliveries carried what was registered, once each. */
  predicate Matched(s: State) {
    && s.postRequestInfo.Keys == s.registered - s.answered
    && s.answered <= s.registered
    && (forall k :: k in s.postRequestInfo ==>
          0 <= NumberOf(k) < |s.requests| && s.postRequestInfo[k] == s.requests[NumberOf(k)])
    && (forall i :: 0 <= i < |s.delivered| ==>
          && s.delivered[i].key in s.answered
          && 0 <= NumberOf(s.delivered[i].key) < |s.requests|
          && s.delivered[i].info == s.requests[NumberOf(s.delivered[i].key)])
    && (forall i, j :: 0 <= i < j < |s.delivered| ==> s.delivered[i].key != s.delivered[j].key)
  }

  predicate Correlated(s: State) {
    Numbered(s) && Matched(s)
  }

  lemma StepKeepsOrder(s: State, e: Event)
    requires Ordered(s) && Enabled(s, e)
    ensures Ordered(Step(s, e))
  {
    hide RequestKey;
  }

  lemma StepKeepsNumbers(s: State, e: Event)
    requires Numbered(s) && Enabled(s, e) && Few(Step(s, e))
    ensures Numbered(Step(s, e))
  {
    hide RequestKey, NumberOf;
    forall n: nat | n < |Step(s, e).requests|
      ensures NumberOf(RequestKey(n)) == n
    {
      KeysDistinct(n);
    }
  }

  lemma ReceiveKeepsMatches(s: State, m: Message)
    requires Matched(s)
    ensures Matched(OnMessage(s, m))
  {
  }

  lemma RegisterKeepsMatches(s: State, t: Thread)
    requires Numbered(s) && Matched(s) && Enabled(s, Register(t)) && Few(s)
    ensures Matched(Step(s, Register(t)))
  {
    hide RequestKey, NumberOf;
    KeysDistinct(PcOf(s, t).n);
  }

  lemma StepKeepsCorrelation(s: State, e: Event)
    requires Correlated(s) && Enabled(s, e) && Few(Step(s, e))
    ensures Correlated(Step(s, e))
  {
    hide RequestKey, OnMessage;
    StepKeepsNumbers(s, e);
    match e
    case Receive(m) => ReceiveKeepsMatches(s, m);
    case Register(t) => RegisterKeepsMatches(s, t);
    case _ =>
  }

  lemma {:induction false} RunKeepsOrder(es: seq<Event>)
    requires Possible(es)
    ensures Ordered(After(es))
  {
    hide Ordered, Enabled, Step;
    if es == [] {
      StartsRight();
    } else {
      RunKeepsOrder(es[..|es| - 1]);
      StepKeepsOrder(After(es[..|es| - 1]), es[|es| - 1]);
    }
  }

  lemma StartsRight()
    ensures Ordered(INITIAL) && Correlated(INITIAL)
  {
  }

  lemma StepGrows(s: State, e: Event)
    requires Enabled(s, e)
    ensures Few(Step(s, e)) ==> Few(s)
  {
  }

  lemma {:induction false} RunKeepsCorrelation(es: seq<Event>)
    requires Possible(es) && Few(After(es))
    ensures Correlated(After(es))
  {
    hide Ordered, Correlated, Enabled, Step, Few;
    if es == [] {
      StartsRight();
    } else {
      var before := es[..|es| - 1];
      StepGrows(After(before), es[|es| - 1]);
      RunKeepsCorrelation(before);
      StepKeepsCorrelation(After(before), es[|es| - 1]);
    }
  }

  // ---- what it means

  /**
   In every interleaving, for any responses in any order: an id is queued only after it is in
   the map's history, what is outstanding was registered, and every message received while not
   stopping was a pong, a delivery or passed on, exactly one of them.
   */
  lemma RegisteredBeforeQueued(es: seq<Event>)
    requires Possible(es)
    ensures var s := After(es);
      && (forall i :: 0 <= i < |s.queued| ==> s.queued[i] in s.registered)
      && s.answered + s.postRequestInfo.Keys <= s.registered
      && s.received == s.pongs + |s.delivered| + s.passedOn
  {
    RunKeepsOrder(es);
  }

  /**
   Up to 2^32 requests: outstanding is exactly registered minus answered; every delivery carries
   the type and correlation id of the one request with its key, whose number is the key itself up
   to 2^31 requests; and no request is delivered twice.
   */
  lemma DeliveredOnceWithOwnInfo(es: seq<Event>)
    requires Possible(es) && |After(es).requests| <= 0x1_0000_0000
    ensures var s := After(es);
      && s.postRequestInfo.Keys == s.registered - s.answered
      && (forall i :: 0 <= i < |s.delivered| ==>
            && 0 <= NumberOf(s.delivered[i].key) < |s.requests|
            && RequestKey(NumberOf(s.delivered[i].key)) == s.delivered[i].key
            && s.delivered[i].info == s.requests[NumberOf(s.delivered[i].key)]
            && (|s.requests| <= 0x8000_0000 ==> NumberOf(s.delivered[i].key) == s.delivered[i].key))
      && (forall i, j :: 0 <= i < j < |s.delivered| ==> s.delivered[i].key != s.delivered[j].key)
  {
    hide RequestKey, NumberOf, Possible, After;
    RunKeepsCorrelation(es);
    var s := After(es);
    forall i | 0 <= i < |s.delivered| && |s.requests| <= 0x8000_0000
      ensures NumberOf(s.delivered[i].key) == s.delivered[i].key
    {
      assert s.delivered[i].key in s.registered;
      SmallKey(NumberOf(s.delivered[i].key));
    }
  }

  // ---- what the events say

  /** The requests in the order of their numbers. */
  function Asked(es: seq<Event>): seq<Info> {
    if es == [] then []
    else Asked(es[..|es| - 1]) + if es[|es| - 1].FetchAdd? then [es[|es| - 1].info] else []
  }

  function Stopped(es: seq<Event>): bool {
    es != [] && (Stopped(es[..|es| - 1]) || es[|es| - 1].Stop?)
  }

  /** The messages received while not stopping, in order. */
  function Heard(es: seq<Event>): seq<Message> {
    if es == [] then []
    else
      var before, e := es[..|es| - 1], es[|es| - 1];
      Heard(before) + if e.Receive? && !Stopped(before) then [e.m] else []
  }

  function PongsIn(ms: seq<Message>): nat {
    if ms == [] then 0 else PongsIn(ms[..|ms| - 1]) + if ms[|ms| - 1].Pong? then 1 else 0
  }

  lemma StepCounts(s: State, e: Event)
    requires Enabled(s, e)
    ensures var v := Step(s, e); var heard := e.Receive? && !s.stopping;
      && v.requests == s.requests + (if e.FetchAdd? then [e.info] else [])
      && v.stopping == (s.stopping || e.Stop?)
      && v.received == s.received + (if heard then 1 else 0)
      && v.pongs == s.pongs + (if heard && e.m.Pong? then 1 else 0)
  {
    hide RequestKey;
  }

  /** Requests, stopping, messages and pongs are exactly those of the events; only pongs count as pongs. */
  lemma {:induction false} EventsCounted(es: seq<Event>)
    requires Possible(es)
    ensures var s := After(es);
      s.requests == Asked(es) && s.stopping == Stopped(es) && s.received == |Heard(es)| && s.pongs == PongsIn(Heard(es))
  {
    hide Step, Enabled, PongsIn;
    NoPongs();
    if es != [] {
      var before, e := es[..|es| - 1], es[|es| - 1];
      EventsCounted(before);
      StepCounts(After(before), e);
      if e.Receive? && !Stopped(before) {
        OneMoreHeard(Heard(before), e.m);
      } else {
        assert Heard(before) + [] == Heard(before);
      }
    }
  }

  lemma NoPongs()
    ensures PongsIn([]) == 0
  {
  }

  lemma OneMoreHeard(ms: seq<Message>, m: Message)
    ensures PongsIn(ms + [m]) == PongsIn(ms) + if m.Pong? then 1 else 0
  {
    assert (ms + [m])[..|ms|] == ms;
  }

  /** A thread about to queue the id `k`. */
  predicate Holds(s: State, t: Thread, k: nat) {
    t in s.pcs && s.pcs[t].Registered? && RequestKey(s.pcs[t].n) == k
  }

  /** Ids about to be queued are registered, are not queued yet and differ; nothing is queued twice or forgotten. */
  ghost predicate Outgoing(s: State) {
    && (forall i, j :: 0 <= i < j < |s.queued| ==> s.queued[i] != s.queued[j])
    && (forall t :: t in s.pcs && s.pcs[t].Registered? ==> RequestKey(s.pcs[t].n) !in s.queued)
    && (forall t, u :: t in s.pcs && u in s.pcs && t != u && s.pcs[t].Registered? && s.pcs[u].Registered? ==>
          RequestKey(s.pcs[t].n) != RequestKey(s.pcs[u].n))
    && (forall k :: k in s.registered ==>
          k in s.queued || exists t :: Holds(s, t, k))
  }

  lemma RegisterKeepsOutgoing(s: State, t: Thread)
    requires Outgoing(s) && Ordered(s) && Numbered(s) && Enabled(s, Register(t))
    ensures Outgoing(Step(s, Register(t)))
  {
    hide RequestKey, NumberOf;
    var v := Step(s, Register(t));
    assert Holds(v, t, RequestKey(PcOf(s, t).n));
    assert forall u, k :: Holds(s, u, k) ==> Holds(v, u, k);
  }

  lemma QueueKeepsOutgoing(s: State, t: Thread)
    requires Outgoing(s) && Enabled(s, Queue(t))
    ensures Outgoing(Step(s, Queue(t)))
  {
    hide RequestKey;
    var v := Step(s, Queue(t));
    var key := RequestKey(PcOf(s, t).n);
    assert v.queued[|s.queued|] == key;
    assert forall k :: k in s.queued ==> k in v.queued;
    assert forall u, k :: u != t && Holds(s, u, k) ==> Holds(v, u, k);
    assert forall k :: Holds(s, t, k) ==> k in v.queued;
  }

  lemma OthersKeepOutgoing(s: State, e: Event)
    requires Outgoing(s) && Enabled(s, e) && !e.Register? && !e.Queue?
    ensures Outgoing(Step(s, e))
  {
    hide RequestKey;
    var v := Step(s, e);
    assert v.queued == s.queued && v.registered == s.registered;
    assert forall u, k :: Holds(s, u, k) <==> Holds(v, u, k);
    assert forall u :: u in v.pcs && v.pcs[u].Registered? ==> u in s.pcs && s.pcs[u] == v.pcs[u];
  }

  lemma StepKeepsOutgoing(s: State, e: Event)
    requires Outgoing(s) && Ordered(s) && Numbered(s) && Enabled(s, e)
    ensures Outgoing(Step(s, e))
  {
    hide Outgoing, Ordered, Numbered, Step, Enabled;
    if e.Register? {
      RegisterKeepsOutgoing(s, e.t);
    } else if e.Queue? {
      QueueKeepsOutgoing(s, e.t);
    } else {
      OthersKeepOutgoing(s, e);
    }
  }

  /**
   Up to 2^32 requests: no id is queued twice, and every id registered is queued or is in the
   hands of a thread that is about to queue it.
   */
  lemma {:induction false} QueuedOnce(es: seq<Event>)
    requires Possible(es) && |After(es).requests| <= 0x1_0000_0000
    ensures Outgoing(After(es))
  {
    hide Outgoing, Ordered, Numbered, Matched, Enabled, Step;
    if es == [] {
      NothingOut();
    } else {
      var before := es[..|es| - 1];
      StepGrows(After(before), es[|es| - 1]);
      QueuedOnce(before);
      RunKeepsOrder(before);
      RunKeepsCorrelation(before);
      StepKeepsOutgoing(After(before), es[|es| - 1]);
    }
  }

  lemma NothingOut()
    ensures Outgoing(INITIAL)
  {
  }

  lemma SmallKey(n: nat)
    requires n < 0x8000_0000
    ensures RequestKey(n) == n
  {
    IdIsNumber(n);
  }

  lemma Then(es: seq<Event>, e: Event)
    requires Possible(es) && Enabled(After(es), e)
    ensures Possible(es + [e]) && After(es + [e]) == Step(After(es), e)
  {
    assert (es + [e])[..|es|] == es;
  }

  /** `n` calls of one thread, with no response. */
  lemma {:induction false} Calls(es: seq<Event>, n: nat, info: Info) returns (more: seq<Event>)
    requires Possible(es) && PcOf(After(es), 0).Idle?
    ensures Possible(more) && PcOf(After(more), 0).Idle? && After(more).stopping == After(es).stopping
    ensures var s, v := After(es), After(more);
      && |v.requests| == |s.requests| + n && v.answered == s.answered
      && (n > 0 ==> RequestKey(|v.requests| - 1) in v.postRequestInfo)
  {
    hide Possible, After, RequestKey;
    more := es;
    if n > 0 {
      more := Calls(es, n - 1, info);
      Then(more, FetchAdd(0, info));
      more := more + [FetchAdd(0, info)];
      Then(more, Register(0));
      more := more + [Register(0)];
      Then(more, Queue(0));
      more := more + [Queue(0)];
    }
  }

  /** The bound is the largest: one request more, and an id that was answered can be outstanding again. */
  lemma IdsRunOut(info: Info) returns (es: seq<Event>)
    ensures Possible(es) && |After(es).requests| == 0x1_0000_0000 + 1
    ensures After(es).postRequestInfo.Keys != After(es).registered - After(es).answered
  {
    StartsEmpty();
    hide Possible, After, RequestKey;
    es := Calls([], 1, info);
    SmallKey(0);
    Then(es, Receive(Response(0, true)));
    es := es + [Receive(Response(0, true))];
    es := Calls(es, 0x1_0000_0000, info);
    IdsRepeat(0);
    assert 0 in After(es).postRequestInfo && 0 in After(es).answered;
  }

  lemma StartsEmpty()
    ensures Possible([]) && After([]) == INITIAL
  {
  }

  /** A response is delivered exactly when its id is outstanding, its payload is readable and nothing is stopping. */
  lemma DeliveryCondition(s: State, id: nat, payloadOk: bool)
    ensures var v := OnMessage(s, Response(id, payloadOk));
      && (v.delivered != s.delivered <==> !s.stopping && id in s.postRequestInfo && payloadOk)
      && (v.delivered != s.delivered ==> v.delivered == s.delivered + [Answer(id, s.postRequestInfo[id])])
      && (id in v.postRequestInfo <==> s.stopping && id in s.postRequestInfo)
      && (forall k :: k != id ==> (k in v.postRequestInfo <==> k in s.postRequestInfo))
  {
  }

  /** So a duplicate of a response that was handled, like an unknown id, is only passed on. */
  lemma DuplicateIgnored(s: State, id: nat, ok: bool, again: bool)
    requires !s.stopping
    ensures var v := OnMessage(s, Response(id, ok));
      OnMessage(v, Response(id, again)) == v.(received := v.received + 1, passedOn := v.passedOn + 1)
  {
  }

  // ---- the shared map

  /** One uninterrupted call of `signAndSend`. */
  function Called(s: State, t: Thread, info: Info): State
    requires PcOf(s, t).Idle?
  {
    Step(Step(Step(s, FetchAdd(t, info)), Register(t)), Queue(t))
  }

  lemma CallEffect(s: State, t: Thread, info: Info)
    requires PcOf(s, t).Idle?
    ensures var v, key := Called(s, t, info), RequestKey(|s.requests|);
      && v.requests == s.requests + [info] && v.queued == s.queued + [key]
      && v.postRequestInfo == s.postRequestInfo[key := info]
  {
    hide RequestKey;
  }

  lemma CounterWraps(n: nat)
    ensures Int32(n + 1) == if Int32(n) == 0x7FFF_FFFF then -0x8000_0000 else Int32(n) + 1
  {
  }

  class Correlator {
    var postRequestCounter: int
    var postRequestInfo: map<nat, Info>
    var outgoing: seq<nat>

    /** These fields are the ones of `s`. */
    ghost predicate Matches(s: State)
      reads this
    {
      postRequestCounter == Int32(|s.requests|) && postRequestInfo == s.postRequestInfo && outgoing == s.queued
    }

    constructor ()
      ensures Matches(INITIAL)
    {
      postRequestCounter, postRequestInfo, outgoing := 0, map[], [];
    }

    /** Allocate, register, then send: the three steps, in this order. */
    method SignAndSend(info: Info, ghost s: State, ghost t: Thread)
      requires Matches(s) && PcOf(s, t).Idle?
      modifies this
      ensures Matches(Called(s, t, info))
      ensures outgoing == old(outgoing) + [Key(old(postRequestCounter))]
      ensures postRequestInfo == old(postRequestInfo)[Key(old(postRequestCounter)) := info]
    {
      hide Int32, Key, Called;
      CallEffect(s, t, info);
      CounterWraps(|s.requests|);
      var postRequestId := postRequestCounter;
      postRequestCounter := if postRequestCounter == 0x7FFF_FFFF then -0x8000_0000 else postRequestCounter + 1;
      postRequestInfo := postRequestInfo[Key(postRequestId) := info];
      outgoing := outgoing + [Key(postRequestId)];
    }

    /** The lookup, the erase and what is delivered; `None` means the raw message goes to `onMessage`. */
    method HandlePost(id: nat, payloadOk: bool, ghost s: State) returns (delivered: Option<Answer>)
      requires Matches(s) && !s.stopping
      modifies this`postRequestInfo
      ensures var v := OnMessage(s, Response(id, payloadOk));
        && Matches(v)
        && v.delivered == s.delivered + (if delivered.Some? then [delivered.value] else [])
        && v.passedOn == s.passedOn + (if delivered.Some? then 0 else 1)
    {
      if id !in postRequestInfo {
        return None;
      }
      var info := postRequestInfo[id];
      postRequestInfo := postRequestInfo - {id};
      if !payloadOk {
        return None;
      }
      return Some(Answer(id, info));
    }
  }
}
