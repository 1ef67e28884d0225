/**
 The nonce allocator of src/signing/Signing.cpp: a compare-and-swap loop that any number of
 threads run on one relaxed atomic, with a wall clock that may repeat or run backwards.

 A thread may load any value the atomic has held that is not older than what it has already
 seen; a weak compare-and-swap may fail even when the value matches; only a success is sure
 to have met the latest value.
 */
module Nonce {

  const MAX: nat := 0xFFFF_FFFF_FFFF_FFFF

  type U64 = n: nat | n <= MAX

  function Next(now: U64, prev: U64): U64 {
    if now > prev then now else if prev == MAX then 0 else prev + 1
  }

  type Thread = nat

  /** Where a thread is in `nextNonce`; `view` is the position in `values` of what `prev` holds. */
  datatype Pc =
    | Idle
    | Clocked(now: U64, begun: nat)
    | Trying(now: U64, begun: nat, view: nat)

  /** A successful call: when it began it could see `begun` earlier successes. */
  datatype Issued = Issued(thread: Thread, now: U64, begun: nat, nonce: U64)

  /** `values` is the modification order of `lastNonce`; `floor` is the newest value a thread wrote itself. */
  datatype State = State(values: seq<U64>, issued: seq<Issued>, pcs: map<Thread, Pc>, floor: map<Thread, nat>)

  const INITIAL: State := State([0], [], map[], map[])

  function PcOf(s: State, t: Thread): Pc {
    if t in s.pcs then s.pcs[t] else Idle
  }

  function FloorOf(s: State, t: Thread): nat {
    if t in s.floor then s.floor[t] else 0
  }

  datatype Event =
    | ReadClock(t: Thread, now: U64)
    | Load(t: Thread, i: nat)
    | CasSucceeds(t: Thread)
    | CasFails(t: Thread, i: nat)

  predicate Enabled(s: State, e: Event) {
    match e
    case ReadClock(t, _) => PcOf(s, t).Idle?
    case Load(t, i) => PcOf(s, t).Clocked? && FloorOf(s, t) <= i < |s.values|
    case CasSucceeds(t) =>
      var pc := PcOf(s, t);
      pc.Trying? && pc.view < |s.values| && s.values[pc.view] == s.values[|s.values| - 1]
    case CasFails(t, i) => PcOf(s, t).Trying? && PcOf(s, t).view <= i < |s.values|
  }

  function Step(s: State, e: Event): State
    requires Enabled(s, e)
  {
    var pc := PcOf(s, e.t);
    match e
    case ReadClock(t, now) => s.(pcs := s.pcs[t := Clocked(now, |s.issued|)])
    case Load(t, i) => s.(pcs := s.pcs[t := Trying(pc.now, pc.begun, i)])
    case CasSucceeds(t) =>
      var nonce := Next(pc.now, s.values[pc.view]);
      State(s.values + [nonce], s.issued + [Issued(t, pc.now, pc.begun, nonce)], s.pcs[t := Idle],
            s.floor[t := |s.values|])
    case CasFails(t, i) => s.(pcs := s.pcs[t := pc.(view := i)])
  }

  predicate Possible(es: seq<Event>)
    decreases |es|, 0
  {
    es == [] || (Possible(es[..|es| - 1]) && Enabled(After(es[..|es| - 1]), es[|es| - 1]))
  }

  function After(es: seq<Event>): State
    requires Possible(es)
    decreases |es|, 1
  {
    if es == [] then INITIAL else Step(After(es[..|es| - 1]), es[|es| - 1])
  }

  // ---- the invariant

  predicate Chained(s: State) {
    && |s.values| == |s.issued| + 1
    && s.values[0] == 0
    && (forall i :: 0 <= i < |s.issued| ==>
          && s.issued[i].nonce == s.values[i + 1]
          && s.issued[i].nonce == Next(s.issued[i].now, s.values[i])
          && s.issued[i].begun <= i)
  }

  predicate ThreadsInv(s: State) {
    && (forall t :: t in s.floor ==> s.floor[t] < |s.values|)
    && (forall t :: t in s.pcs ==>
          match s.pcs[t]
          case Idle => true
          case Clocked(_, begun) => begun <= |s.issued|
          case Trying(_, begun, view) => begun <= |s.issued| && FloorOf(s, t) <= view < |s.values|)
    && (forall i :: 0 <= i < |s.issued| ==>
          s.issued[i].thread in s.floor && i < s.floor[s.issued[i].thread] < |s.values|)
  }

  lemma StepKeeps(s: State, e: Event)
    requires Chained(s) && ThreadsInv(s) && Enabled(s, e)
    ensures Chained(Step(s, e)) && ThreadsInv(Step(s, e))
  {
  }

  lemma {:induction false} RunKeeps(es: seq<Event>)
    requires Possible(es)
    ensures Chained(After(es)) && ThreadsInv(After(es))
  {
    hide Enabled, Step, Chained, ThreadsInv;
    if es == [] {
      StartsRight();
    } else {
      RunKeeps(es[..|es| - 1]);
      StepKeeps(After(es[..|es| - 1]), es[|es| - 1]);
    }
  }

  lemma StartsRight()
    ensures Chained(INITIAL) && ThreadsInv(INITIAL)
  {
  }

  // ---- what it means

  /** No success so far started from the largest 64-bit value. */
  predicate NoWrap(s: State)
    requires |s.values| == |s.issued| + 1
  {
    forall i :: 0 <= i < |s.issued| ==> s.values[i] != MAX
  }

  predicate Increasing(xs: seq<U64>) {
    forall i, j :: 0 <= i < j < |xs| ==> xs[i] < xs[j]
  }

  lemma {:induction false} ChainIncreases(s: State, n: nat)
    requires Chained(s) && NoWrap(s) && n <= |s.issued|
    ensures Increasing(s.values[..n + 1])
  {
    if n > 0 {
      ChainIncreases(s, n - 1);
      assert s.values[n] > s.values[n - 1] by {
        assert s.issued[n - 1].nonce == s.values[n];
      }
      assert s.values[..n + 1] == s.values[..n] + [s.values[n]];
    }
  }

  /**
   Whatever the threads, the interleaving, the stale loads, the spurious failures and the
   clock: the nonces handed out increase strictly in the order of success, exactly as long as
   no call succeeds on top of the largest 64-bit value.
   */
  lemma NoncesIncrease(es: seq<Event>)
    requires Possible(es)
    ensures |After(es).values| == |After(es).issued| + 1
    ensures Increasing(After(es).values) <==> NoWrap(After(es))
    ensures forall i :: 0 <= i < |After(es).issued| ==> After(es).issued[i].nonce == After(es).values[i + 1]
  {
    RunKeeps(es);
    var s := After(es);
    if NoWrap(s) {
      ChainIncreases(s, |s.issued|);
      assert s.values[..|s.issued| + 1] == s.values;
    } else {
      var i :| 0 <= i < |s.issued| && s.values[i] == MAX;
      assert s.values[i + 1] == 0;
    }
  }

  lemma Then(es: seq<Event>, e: Event)
    requires Possible(es) && Enabled(After(es), e)
    ensures Possible(es + [e]) && After(es + [e]) == Step(After(es), e)
  {
    assert (es + [e])[..|es|] == es;
  }

  /** One uninterrupted call of thread 0. */
  lemma Call(es: seq<Event>, now: U64) returns (more: seq<Event>)
    requires Possible(es) && PcOf(After(es), 0).Idle?
    ensures Possible(more) && PcOf(After(more), 0).Idle?
    ensures var v := After(es).values;
      v != [] && After(more).values == v + [Next(now, v[|v| - 1])]
    ensures |After(more).issued| == |After(es).issued| + 1
  {
    hide Possible, After, Next;
    RunKeeps(es);
    var view := |After(es).values| - 1;
    Then(es, ReadClock(0, now));
    more := es + [ReadClock(0, now)];
    Then(more, Load(0, view));
    more := more + [Load(0, view)];
    Then(more, CasSucceeds(0));
    more := more + [CasSucceeds(0)];
  }

  /**
   The condition can fail, and then one nonce is handed out twice: the readings 1, MAX, 0 and 1
   in four calls. A clock just before 1970 reads MAX after the cast.
   */
  lemma NoncesRepeat() returns (es: seq<Event>)
    ensures Possible(es) && |After(es).values| == |After(es).issued| + 1 == 5 && !NoWrap(After(es))
    ensures After(es).issued[0].nonce == After(es).issued[3].nonce == 1
  {
    NoEvents();
    hide Possible, After, Increasing, NoWrap;
    es := Call([], 1);
    es := Call(es, MAX);
    es := Call(es, 0);
    es := Call(es, 1);
    assert After(es).values == [0, 1, MAX, 0, 1];
    NoncesIncrease(es);
    assert !Increasing(After(es).values) by {
      Decrease(After(es).values, 2);
    }
  }

  lemma NoEvents()
    ensures Possible([]) && After([]) == INITIAL
  {
  }

  lemma Decrease(xs: seq<U64>, i: nat)
    requires i + 1 < |xs| && xs[i] > xs[i + 1]
    ensures !Increasing(xs)
  {
  }

  /** Every nonce is at least its own call's clock reading and larger than all nonces issued before its call began. */
  lemma CallsInOrder(es: seq<Event>, i: nat, j: nat)
    requires Possible(es) && |After(es).values| == |After(es).issued| + 1 && NoWrap(After(es))
    requires j < |After(es).issued|
    ensures var c := After(es).issued; c[j].nonce >= c[j].now
    ensures var c := After(es).issued; c[j].begun <= j && (i < c[j].begun ==> c[i].nonce < c[j].nonce)
  {
    RunKeeps(es);
    NoncesIncrease(es);
    var s := After(es);
    assert s.issued[j].nonce == Next(s.issued[j].now, s.values[j]);
    if i < s.issued[j].begun {
      assert s.values[i + 1] < s.values[j + 1];
    }
  }

  /** A failure that read a different value is the work of another thread that succeeded meanwhile. */
  lemma FailureMeansProgress(es: seq<Event>, t: Thread, i: nat)
    requires Possible(es) && Enabled(After(es), CasFails(t, i))
    requires After(es).values[i] != After(es).values[PcOf(After(es), t).view]
    ensures var s := After(es); var view := PcOf(s, t).view;
      exists k :: view <= k < i && k < |s.issued| && s.issued[k].thread != t
  {
    RunKeeps(es);
    var s := After(es);
    var view := PcOf(s, t).view;
    assert view < i;
    assert FloorOf(s, t) <= view;
    assert s.issued[view].thread != t;
  }

  // ---- drift

  /** `m` is the largest of the number of calls and, for each call, its clock reading plus the calls after it. */
  predicate IsDrift(calls: seq<Issued>, m: nat) {
    && m >= |calls|
    && (forall i :: 0 <= i < |calls| ==> m >= calls[i].now + (|calls| - 1 - i))
    && (m == |calls| || exists i :: 0 <= i < |calls| && m == calls[i].now + (|calls| - 1 - i))
  }

  lemma {:induction false} ChainDrifts(s: State, n: nat)
    requires Chained(s) && NoWrap(s) && n <= |s.issued|
    ensures IsDrift(s.issued[..n], s.values[n])
  {
    var calls := s.issued[..n];
    if n > 0 {
      ChainDrifts(s, n - 1);
      var was := s.issued[..n - 1];
      var c := s.issued[n - 1];
      assert s.values[n] == Next(c.now, s.values[n - 1]);
      assert calls[n - 1] == c;
      assert forall i :: 0 <= i < n - 1 ==> calls[i] == was[i];
      if s.values[n] == c.now {
        assert s.values[n] == calls[n - 1].now + (|calls| - 1 - (n - 1));
      } else if s.values[n - 1] != n - 1 {
        var i :| 0 <= i < n - 1 && s.values[n - 1] == was[i].now + (n - 2 - i);
        assert s.values[n] == calls[i].now + (|calls| - 1 - i);
      }
    }
  }

  /** Exactly how far the counter can run ahead of the clock: never further than the number of calls. */
  lemma Drift(es: seq<Event>, top: nat)
    requires Possible(es) && |After(es).values| == |After(es).issued| + 1 && NoWrap(After(es))
    requires forall i :: 0 <= i < |After(es).issued| ==> After(es).issued[i].now <= top
    ensures IsDrift(After(es).issued, After(es).values[|After(es).issued|])
    ensures After(es).values[|After(es).issued|] <= top + |After(es).issued|
  {
    RunKeeps(es);
    var s := After(es);
    ChainDrifts(s, |s.issued|);
    assert s.issued[..|s.issued|] == s.issued;
  }

  // ---- the loop itself

  /** The atomic, with every value it has held: a relaxed load may return an older one. */
  class AtomicU64 {
    var history: seq<U64>

    ghost predicate Valid()
      reads this
    {
      history != []
    }

    constructor ()
      ensures history == INITIAL.values
    {
      history := [0];
    }

    method Load(i: nat) returns (value: U64)
      requires i < |history|
      ensures value == history[i]
    {
      value := history[i];
    }

    method CompareExchangeWeak(expected: U64, desired: U64, spurious: bool) returns (ok: bool, actual: U64)
      requires Valid()
      modifies this
      ensures Valid() && actual == old(history[|history| - 1]) && ok == (actual == expected && !spurious)
      ensures history == if ok then old(history) + [desired] else old(history)
    {
      actual := history[|history| - 1];
      ok := actual == expected && !spurious;
      if ok {
        history := history + [desired];
      }
    }
  }

  /** What happens before one attempt, in other threads, and whether the attempt fails spuriously. */
  datatype Around = Around(others: seq<Event>, spurious: bool)

  /** The run after those of `others` that threads other than `t` can do. */
  function Interfere(es: seq<Event>, others: seq<Event>, t: Thread): (run: seq<Event>)
    requires Possible(es)
    ensures Possible(run) && PcOf(After(run), t) == PcOf(After(es), t) && After(es).values <= After(run).values
  {
    if others == [] then es
    else
      var before := Interfere(es, others[..|others| - 1], t);
      var e := others[|others| - 1];
      if e.t != t && Enabled(After(before), e) then
        Then(before, e);
        before + [e]
      else before
  }

  /** After `run`, thread `t` is about to attempt its exchange; `prev` is the value at `view`. */
  predicate InLoop(run: seq<Event>, h: seq<U64>, t: Thread, now: U64, begun: nat, view: nat, prev: U64) {
    && Possible(run) && h == After(run).values
    && PcOf(After(run), t) == Trying(now, begun, view) && view < |h| && prev == h[view]
  }

  /** `run` ends with the success of thread `t` that issued `next`. */
  predicate Returned(run: seq<Event>, h: seq<U64>, t: Thread, now: U64, begun: nat, next: U64) {
    && Possible(run) && h == After(run).values && PcOf(After(run), t).Idle?
    && var c := After(run).issued;
       c != [] && c[|c| - 1] == Issued(t, now, begun, next) && h != [] && next == h[|h| - 1]
  }

  /** The load sees the value at position `i`, or the latest one when it may not see that. */
  function Seen(es: seq<Event>, t: Thread, i: nat): (at: nat)
    requires Possible(es)
    ensures at < |After(es).values|
  {
    RunKeeps(es);
    if FloorOf(After(es), t) <= i < |After(es).values| then i else |After(es).values| - 1
  }

  lemma Entered(es: seq<Event>, t: Thread, now: U64, i: nat)
    requires Possible(es) && PcOf(After(es), t).Idle?
    ensures var at, h := Seen(es, t, i), After(es).values;
      InLoop(es + [ReadClock(t, now)] + [Load(t, at)], h, t, now, |After(es).issued|, at, h[at])
  {
    hide Possible, After;
    RunKeeps(es);
    Then(es, ReadClock(t, now));
    Then(es + [ReadClock(t, now)], Load(t, Seen(es, t, i)));
  }

  lemma Disturbed(run: seq<Event>, others: seq<Event>, h: seq<U64>, t: Thread, now: U64, begun: nat,
                  view: nat, prev: U64)
    requires InLoop(run, h, t, now, begun, view, prev)
    ensures var r := Interfere(run, others, t);
      InLoop(r, After(r).values, t, now, begun, view, prev) && h <= After(r).values && (others == [] ==> r == run)
  {
  }

  lemma Succeeded(run: seq<Event>, h: seq<U64>, t: Thread, now: U64, begun: nat, view: nat, prev: U64)
    requires InLoop(run, h, t, now, begun, view, prev) && prev == h[|h| - 1]
    ensures Returned(run + [CasSucceeds(t)], h + [Next(now, prev)], t, now, begun, Next(now, prev))
  {
    hide Possible, After, Next;
    Then(run, CasSucceeds(t));
  }

  lemma Failed(run: seq<Event>, h: seq<U64>, t: Thread, now: U64, begun: nat, view: nat, prev: U64)
    requires InLoop(run, h, t, now, begun, view, prev)
    ensures InLoop(run + [CasFails(t, |h| - 1)], h, t, now, begun, |h| - 1, h[|h| - 1])
  {
    hide Possible, After;
    Then(run, CasFails(t, |h| - 1));
  }

  /**
   The loop of `nextNonce` is a run of the protocol. Thread `t` calls it after the run `es`, its
   load sees what `Seen` says, and other threads act before each attempt. The run it makes ends,
   when the loop returns, with the success that issues the result; so what is proved of all runs
   holds of it. Left alone it returns at the second attempt at the latest.
   */
  method NextNonce(cell: AtomicU64, es: seq<Event>, t: Thread, now: U64, i: nat, around: seq<Around>)
      returns (done: bool, next: U64, run: seq<Event>)
    requires Possible(es) && PcOf(After(es), t).Idle? && cell.history == After(es).values
    modifies cell
    ensures Possible(run) && cell.history == After(run).values && After(es).values <= cell.history
    ensures done ==> Returned(run, cell.history, t, now, |After(es).issued|, next)
    ensures (forall a :: a in around ==> a.others == [] && !a.spurious) && |around| >= 2 ==> done
  {
    hide Possible, After, Interfere, Step, Enabled, PcOf, Returned, Next;
    var view: nat := Seen(es, t, i);
    Entered(es, t, now, i);
    run := es + [ReadClock(t, now)] + [Load(t, view)];
    var prev := cell.Load(view);
    done, next := false, 0;
    ghost var begun := |After(es).issued|;
    var n := 0;
    while n < |around| && !done
      invariant 0 <= n <= |around| && After(es).values <= cell.history
      invariant !done ==> InLoop(run, cell.history, t, now, begun, view, prev)
      invariant done ==> Returned(run, cell.history, t, now, begun, next)
      invariant Possible(run) && cell.history == After(run).values
      invariant (forall a :: a in around ==> a.others == [] && !a.spurious) && !done ==>
        n == 0 || (n == 1 && view == |cell.history| - 1)
    {
      Disturbed(run, around[n].others, cell.history, t, now, begun, view, prev);
      run := Interfere(run, around[n].others, t);
      cell.history := After(run).values;
      ghost var h, seen := cell.history, prev;
      next := Next(now, prev);
      done, prev := cell.CompareExchangeWeak(prev, next, around[n].spurious);
      if done {
        Succeeded(run, h, t, now, begun, view, seen);
        run := run + [CasSucceeds(t)];
        IsRun(run, cell.history, t, now, begun, next);
      } else {
        Failed(run, h, t, now, begun, view, seen);
        view := |cell.history| - 1;
        run := run + [CasFails(t, view)];
      }
      n := n + 1;
    }
  }

  lemma IsRun(run: seq<Event>, h: seq<U64>, t: Thread, now: U64, begun: nat, next: U64)
    requires Returned(run, h, t, now, begun, next)
    ensures Possible(run) && h == After(run).values
  {
  }
}
