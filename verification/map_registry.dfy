/** The identity-keyed connection registry (`conn_manager.ConnectionManager`,
    repeated in the server's earlier `main.go`) and its full drain,
    `CloseAllConnections`. The mutex is left out: every operation is one
    atomic step. */
module MapRegistry {
  import opened Common

  /** The registry: the set of registered connections (the Go map's values
      are always `true`, so only its keys matter) and whether the one-shot
      shutdown channel has been closed. */
  datatype Registry = Registry(members: set<ConnId>, shutdown: bool)

  /** Interval at which the drain polls the registry size. */
  const PollIntervalMs: nat := 100
  /** How long the drain waits for sessions to deregister. */
  const DrainTimeoutMs: nat := 5000
  /** The most polls that fit in the wait: ticks at 100, 200, ..., 5000 ms. */
  const MaxPolls: nat := DrainTimeoutMs / PollIntervalMs
  /** Deadline of the context the server's shutdown hook passes in. */
  const HookContextMs: nat := 10000

  function New(): (r: Registry)
    ensures Count(r) == 0 && !r.shutdown
  {
    Registry({}, false)
  }

  function Count(r: Registry): nat
  {
    |r.members|
  }

  /** `AddConnection`: registering a connection twice leaves one entry. */
  function Add(r: Registry, c: ConnId): (r': Registry)
    ensures c in r'.members
    ensures forall d :: d != c ==> (d in r'.members <==> d in r.members)
    ensures r'.shutdown == r.shutdown
    ensures c in r.members ==> r' == r
    ensures Count(r') == Count(r) + (if c in r.members then 0 else 1)
  {
    Registry(r.members + {c}, r.shutdown)
  }

  /** `RemoveConnection`: deleting an absent connection changes nothing. */
  function Remove(r: Registry, c: ConnId): (r': Registry)
    ensures c !in r'.members
    ensures forall d :: d != c ==> (d in r'.members <==> d in r.members)
    ensures r'.shutdown == r.shutdown
    ensures c !in r.members ==> r' == r
    ensures Count(r') == Count(r) - (if c in r.members then 1 else 0)
  {
    Registry(r.members - {c}, r.shutdown)
  }

  /** Registering then deregistering a fresh connection restores the registry. */
  lemma AddRemoveRoundTrip(r: Registry, c: ConnId)
    requires c !in r.members
    ensures Remove(Add(r, c), c) == r
  {
    assert Add(r, c).members - {c} == r.members;
  }

  // ---------------------------------------------------------------------
  // The wait for sessions to deregister

  /** What wakes the drain's `select`: the context ends, the 5 s timer fires,
      or the 100 ms ticker fires, in which case `exited` holds the sessions
      that deregistered since the previous wake. Which ready case `select`
      takes is up to the runtime, so any order is admitted. */
  datatype Wake = ContextDone | TimerFired | Tick(exited: set<ConnId>)

  datatype WaitEnd = AllGone | TimedOut | Cancelled | StillWaiting

  /** How the wait ended, how many polls it made, and who was still registered. */
  datatype WaitResult = WaitResult(end: WaitEnd, polls: nat, live: set<ConnId>)

  /** The sessions that deregistered during the given wakes. */
  function Exited(wakes: seq<Wake>): set<ConnId>
  {
    if |wakes| == 0 then {}
    else (if wakes[0].Tick? then wakes[0].exited else {}) + Exited(wakes[1..])
  }

  /** Who is still registered after the first `k` wakes. */
  function LiveAfter(live: set<ConnId>, wakes: seq<Wake>, k: nat): set<ConnId>
    requires k <= |wakes|
  {
    live - Exited(wakes[..k])
  }

  lemma LiveAfterStep(live: set<ConnId>, wakes: seq<Wake>, k: nat)
    requires 0 < k <= |wakes| && wakes[0].Tick?
    ensures LiveAfter(live, wakes, k) == LiveAfter(live - wakes[0].exited, wakes[1..], k - 1)
  {
    assert wakes[..k][1..] == wakes[1..][..k - 1];
  }

  /** The wait loop of `CloseAllConnections`: it returns only when a poll
      sees an empty registry, when the timer fires, or when the context ends.
      It never removes anyone itself: only deregistering sessions shrink it. */
  function Wait(live: set<ConnId>, wakes: seq<Wake>): (r: WaitResult)
    ensures r.polls <= |wakes|
    ensures forall i :: 0 <= i < r.polls ==> wakes[i].Tick?
    ensures r.live == LiveAfter(live, wakes, r.polls)
    ensures forall k :: 0 < k < r.polls ==> LiveAfter(live, wakes, k) != {}
    ensures r.end == AllGone ==> r.polls > 0 && r.live == {}
    ensures r.end == TimedOut ==> r.polls < |wakes| && wakes[r.polls] == TimerFired
    ensures r.end == Cancelled ==> r.polls < |wakes| && wakes[r.polls] == ContextDone
    ensures r.end == StillWaiting ==> r.polls == |wakes|
    ensures r.end != AllGone && r.polls > 0 ==> r.live != {}
    decreases |wakes|
  {
    if |wakes| == 0 then WaitResult(StillWaiting, 0, live)
    else
      match wakes[0]
      case ContextDone => WaitResult(Cancelled, 0, live)
      case TimerFired => WaitResult(TimedOut, 0, live)
      case Tick(exited) =>
        var now := live - exited;
        assert LiveAfter(live, wakes, 1) == now by { LiveAfterStep(live, wakes, 1); }
        if now == {} then WaitResult(AllGone, 1, now)
        else
          var rest := Wait(now, wakes[1..]);
          forall k | 0 < k <= rest.polls + 1
            ensures LiveAfter(live, wakes, k) == LiveAfter(now, wakes[1..], k - 1)
          {
            LiveAfterStep(live, wakes, k);
          }
          WaitResult(rest.end, rest.polls + 1, rest.live)
  }

  /** The wakes as real clocks produce them once `k` ticks have passed: a
      tick every 100 ms, the timer at 5000 ms and the context at `ctxMs`;
      `exits[k]` are the sessions that deregister before tick k + 1. When
      two clocks fire at the same instant this schedule takes the tick
      first, then the timer; `Wait` itself admits every order. */
  function ClockSchedule(exits: seq<set<ConnId>>, ctxMs: nat, k: nat): (w: seq<Wake>)
    requires k <= MaxPolls
    ensures |w| > 0 && !w[|w| - 1].Tick?
    ensures forall i :: 0 <= i < |w| - 1 ==> w[i].Tick?
    ensures |w| <= MaxPolls - k + 1
    decreases MaxPolls - k
  {
    var next := (k + 1) * PollIntervalMs;
    if ctxMs < next && ctxMs < DrainTimeoutMs then [ContextDone]
    else if next > DrainTimeoutMs then [TimerFired]
    else [Tick(if k < |exits| then exits[k] else {})] + ClockSchedule(exits, ctxMs, k + 1)
  }

  /** The 5 s timer bounds the wait: under real clocks it always ends, after
      at most 50 polls. */
  lemma {:induction false} WaitBounded(live: set<ConnId>, exits: seq<set<ConnId>>, ctxMs: nat)
    ensures Wait(live, ClockSchedule(exits, ctxMs, 0)).end != StillWaiting
    ensures Wait(live, ClockSchedule(exits, ctxMs, 0)).polls <= MaxPolls
  {
    var w := ClockSchedule(exits, ctxMs, 0);
    assert !w[|w| - 1].Tick?;
  }

  /** A context that has at least the timer's 5 s left when the wait starts
      never ends it: the timer or an empty poll always comes first. */
  lemma {:induction false} LongContextNeverCancels(live: set<ConnId>, exits: seq<set<ConnId>>, ctxMs: nat, k: nat)
    requires k <= MaxPolls && ctxMs >= DrainTimeoutMs
    ensures Wait(live, ClockSchedule(exits, ctxMs, k)).end != Cancelled
    decreases MaxPolls - k
  {
    var w := ClockSchedule(exits, ctxMs, k);
    var next := (k + 1) * PollIntervalMs;
    if next > DrainTimeoutMs {
      assert w == [TimerFired];
    } else {
      var e := if k < |exits| then exits[k] else {};
      assert w == [Tick(e)] + ClockSchedule(exits, ctxMs, k + 1);
      assert w[1..] == ClockSchedule(exits, ctxMs, k + 1);
      if live - e != {} {
        LongContextNeverCancels(live - e, exits, ctxMs, k + 1);
      }
    }
  }

  /** The shutdown hook's 10 s context starts before the drain snapshots
      and closes its connections; if that takes `closeMs`, the wait starts
      with `ctxMs` = 10000 - closeMs left. As long as closing takes at most 5 s, the
      context never ends the wait. */
  lemma HookContextNeverCancels(live: set<ConnId>, exits: seq<set<ConnId>>, closeMs: nat, ctxMs: nat)
    requires closeMs + ctxMs == HookContextMs && closeMs <= HookContextMs - DrainTimeoutMs
    ensures Wait(live, ClockSchedule(exits, ctxMs, 0)).end != Cancelled
  {
    LongContextNeverCancels(live, exits, ctxMs, 0);
  }

  /** A context with less than the timer's 5 s left does end the wait when
      nobody deregisters: it is cancelled before the timer fires. */
  lemma {:induction false} ShortContextCancels(live: set<ConnId>, ctxMs: nat, k: nat)
    requires live != {} && k <= MaxPolls && k * PollIntervalMs <= ctxMs < DrainTimeoutMs
    ensures Wait(live, ClockSchedule([], ctxMs, k)).end == Cancelled
    decreases MaxPolls - k
  {
    var w := ClockSchedule([], ctxMs, k);
    var next := (k + 1) * PollIntervalMs;
    if ctxMs < next {
      assert w == [ContextDone];
    } else {
      assert w == [Tick({})] + ClockSchedule([], ctxMs, k + 1);
      assert w[1..] == ClockSchedule([], ctxMs, k + 1);
      assert live - {} == live;
      ShortContextCancels(live, ctxMs, k + 1);
    }
  }

  // ---------------------------------------------------------------------
  // The full drain

  /** `order` lists the members of `s` once each: the order in which the Go
      map happens to be iterated. */
  predicate IsEnumeration(order: seq<ConnId>, s: set<ConnId>)
  {
    && (forall i, j :: 0 <= i < j < |order| ==> order[i] != order[j])
    && (forall i :: 0 <= i < |order| ==> order[i] in s)
    && (forall c :: c in s ==> c in order)
  }

  /** What a completed drain did: whom it snapshotted, the effects in order,
      how the wait ended and the registry it left. */
  datatype DrainReport = DrainReport(
    snapshot: seq<ConnId>,
    effects: seq<CloseEffect>,
    wait: WaitResult,
    after: Registry)

  datatype DrainOutcome = Drained(report: DrainReport) | Panicked(kind: PanicKind)

  /** `CloseAllConnections`: snapshot the members, close the shutdown
      channel, send each snapshot connection a going-away close frame and
      close it (a failure is only logged), then wait. A second call closes
      the already closed channel and panics. */
  function CloseAllConnections(r: Registry, order: seq<ConnId>, faults: Faults, wakes: seq<Wake>): (o: DrainOutcome)
    requires IsEnumeration(order, r.members)
    ensures o.Panicked? <==> r.shutdown
    ensures o.Panicked? ==> o.kind == ClosedChannelClosed
    ensures o.Drained? ==>
              var d := o.report;
              && (forall c :: c in d.snapshot <==> c in r.members)
              && |d.snapshot| == Count(r)
              && |d.effects| == 1 + 2 * Count(r)
              && d.effects[0] == RaiseShutdown
              && RaiseShutdown !in d.effects[1..]
              && (forall i :: 0 <= i < |d.snapshot| ==>
                    && d.effects[1 + 2 * i] == SendClose(d.snapshot[i], GoingAway, ShutdownReason, d.snapshot[i] !in faults.sendFails)
                    && d.effects[2 + 2 * i] == CloseTransport(d.snapshot[i], d.snapshot[i] !in faults.closeFails))
              && d.after.shutdown
              && d.after.members <= r.members
              && d.wait == Wait(r.members, wakes)
              && d.after.members == r.members - Exited(wakes[..d.wait.polls])
              && (d.wait.end == AllGone ==> Count(d.after) == 0)
  {
    if r.shutdown then Panicked(ClosedChannelClosed)
    else
      DistinctCount(order, r.members);
      CloseEachEffects(order, faults);
      var effects := [RaiseShutdown] + CloseEach(order, faults);
      assert effects[1..] == CloseEach(order, faults);
      var w := Wait(r.members, wakes);
      Drained(DrainReport(order, effects, w, Registry(w.live, true)))
  }

  /** A duplicate-free enumeration of a set is as long as the set is large. */
  lemma {:induction false} DistinctCount(order: seq<ConnId>, s: set<ConnId>)
    requires IsEnumeration(order, s)
    ensures |order| == |s|
    decreases |order|
  {
    if |order| == 0 {
      assert s == {};
    } else {
      var c := order[0];
      var rest := order[1..];
      assert forall i :: 0 <= i < |rest| ==> rest[i] == order[i + 1];
      forall d | d in s - {c} ensures d in rest {
        var i :| 0 <= i < |order| && order[i] == d;
        assert i != 0;
      }
      DistinctCount(rest, s - {c});
    }
  }

  /** A drain whose wait ends because a poll saw no one left leaves an
      empty registry; the sessions in the snapshot all deregistered. */
  lemma AllGoneMeansAllExited(live: set<ConnId>, wakes: seq<Wake>)
    requires Wait(live, wakes).end == AllGone
    ensures live <= Exited(wakes)
  {
    ExitedPrefix(wakes, Wait(live, wakes).polls);
  }

  lemma {:induction false} ExitedPrefix(wakes: seq<Wake>, k: nat)
    requires k <= |wakes|
    ensures Exited(wakes[..k]) <= Exited(wakes)
    decreases k
  {
    if k > 0 {
      assert wakes[..k][1..] == wakes[1..][..k - 1];
      ExitedPrefix(wakes[1..], k - 1);
    }
  }

  /** The shutdown channel is one-shot: draining twice panics. */
  lemma SecondDrainPanics(r: Registry, order: seq<ConnId>, faults: Faults, wakes: seq<Wake>)
    requires IsEnumeration(order, r.members) && !r.shutdown
    requires CloseAllConnections(r, order, faults, wakes).Drained?
    ensures
      var after := CloseAllConnections(r, order, faults, wakes).report.after;
      forall order2 :: IsEnumeration(order2, after.members) ==>
        CloseAllConnections(after, order2, faults, wakes) == Panicked(ClosedChannelClosed)
  {
  }
}
