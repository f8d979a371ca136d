// The sliding one-hour spending budget of app/llm/budget.py. Money is a real number, time a
// number of seconds.
module Budget {

  datatype Event = Event(ts: int, cost: real)

  const HOUR := 3600

  function Total(es: seq<Event>): real {
    if es == [] then 0.0 else es[0].cost + Total(es[1..])
  }

  predicate Fresh(e: Event, now: int) {
    e.ts >= now - HOUR
  }

  // Only events at the front are dropped.
  function Pruned(es: seq<Event>, now: int): seq<Event> {
    if es != [] && !Fresh(es[0], now) then Pruned(es[1..], now) else es
  }

  // The position of the newest event with the given cost, or -1.
  function LastMatch(es: seq<Event>, cost: real): (k: int)
    ensures -1 <= k < |es|
    ensures k >= 0 ==> es[k].cost == cost
    ensures forall j :: k < j < |es| ==> es[j].cost != cost
  {
    if es == [] then -1
    else if es[|es| - 1].cost == cost then |es| - 1
    else LastMatch(es[..|es| - 1], cost)
  }

  function Without(es: seq<Event>, cost: real): seq<Event> {
    var k := LastMatch(es, cost);
    if k < 0 then es else es[..k] + es[k + 1..]
  }

  class BudgetTracker {
    const hourlyUsd: real
    var events: seq<Event>

    constructor (hourlyUsd: real)
      ensures this.hourlyUsd == hourlyUsd && events == []
    {
      this.hourlyUsd := hourlyUsd;
      events := [];
    }

    method Prune(now: int)
      modifies this
      ensures events == Pruned(old(events), now)
    {
      while events != [] && events[0].ts < now - HOUR
        invariant Pruned(events, now) == Pruned(old(events), now)
        decreases |events|
      {
        events := events[1..];
      }
    }

    method CurrentSpend(now: int) returns (spend: real)
      modifies this
      ensures events == Pruned(old(events), now) && spend == Total(events)
    {
      Prune(now);
      spend := Total(events);
    }

    method CheckAndReserve(estimate: real, now: int) returns (ok: bool)
      modifies this
      ensures ok <==> Total(Pruned(old(events), now)) + estimate <= hourlyUsd
      ensures events == Pruned(old(events), now) + if ok then [Event(now, estimate)] else []
    {
      Prune(now);
      var current := Total(events);
      if current + estimate > hourlyUsd {
        return false;
      }
      events := events + [Event(now, estimate)];
      return true;
    }

    // Takes out the newest event of equal value, whoever made it, and records the actual cost.
    method ReplaceReservation(estimate: real, actual: real, ts: int, now: int)
      modifies this
      ensures events == Pruned(Without(old(events), estimate) + [Event(ts, actual)], now)
    {
      var i := |events| - 1;
      while i >= 0 && events[i].cost != estimate
        invariant -1 <= i < |events|
        invariant forall j :: i < j < |events| ==> events[j].cost != estimate
      {
        i := i - 1;
      }
      LastMatchUnique(events, estimate, i);
      if i >= 0 {
        events := events[..i] + events[i + 1..];
      }
      events := events + [Event(ts, actual)];
      Prune(now);
    }

    method Add(cost: real, ts: int, now: int)
      modifies this
      ensures events == Pruned(old(events) + [Event(ts, cost)], now)
    {
      events := events + [Event(ts, cost)];
      Prune(now);
    }
  }

  lemma LastMatchUnique(es: seq<Event>, cost: real, i: int)
    requires -1 <= i < |es| && (i >= 0 ==> es[i].cost == cost)
    requires forall j :: i < j < |es| ==> es[j].cost != cost
    ensures LastMatch(es, cost) == i
  {
  }

  // ----- Arithmetic of the total -----

  lemma {:induction false} TotalConcat(p: seq<Event>, q: seq<Event>)
    ensures Total(p + q) == Total(p) + Total(q)
  {
    if p == [] {
      assert p + q == q;
    } else {
      assert (p + q)[1..] == p[1..] + q;
      TotalConcat(p[1..], q);
    }
  }

  lemma TotalSnoc(p: seq<Event>, e: Event)
    ensures Total(p + [e]) == Total(p) + e.cost
  {
    TotalConcat(p, [e]);
    assert Total([e]) == e.cost + Total([]);
  }

  lemma TotalWithout(es: seq<Event>, cost: real)
    ensures Total(Without(es, cost)) == Total(es) - if LastMatch(es, cost) < 0 then 0.0 else cost
  {
    var k := LastMatch(es, cost);
    if k >= 0 {
      assert es == (es[..k] + [es[k]]) + es[k + 1..];
      TotalConcat(es[..k] + [es[k]], es[k + 1..]);
      TotalSnoc(es[..k], es[k]);
      TotalConcat(es[..k], es[k + 1..]);
    }
  }

  ghost predicate NonNegative(es: seq<Event>) {
    forall k :: 0 <= k < |es| ==> es[k].cost >= 0.0
  }

  lemma {:induction false} PruneLowersTotal(es: seq<Event>, now: int)
    requires NonNegative(es)
    ensures Total(Pruned(es, now)) <= Total(es) && NonNegative(Pruned(es, now))
  {
    if es != [] && !Fresh(es[0], now) { PruneLowersTotal(es[1..], now); }
  }

  // ----- Pruning against the exact window -----

  // The events of the last hour, the one exactly an hour old among them.
  function Window(es: seq<Event>, now: int): seq<Event> {
    if es == [] then []
    else if es[0].ts >= now - 3600 then [es[0]] + Window(es[1..], now)
    else Window(es[1..], now)
  }

  // No stale event stands behind a fresh one.
  ghost predicate StaleFirst(es: seq<Event>, now: int) {
    forall i, j :: 0 <= i < j < |es| && Fresh(es[i], now) ==> Fresh(es[j], now)
  }

  ghost predicate TimeOrdered(es: seq<Event>) {
    forall i, j :: 0 <= i < j < |es| ==> es[i].ts <= es[j].ts
  }

  lemma {:induction false} WindowShorter(es: seq<Event>, now: int)
    ensures |Window(es, now)| <= |es|
    ensures |Window(es, now)| == |es| <==> forall k :: 0 <= k < |es| ==> Fresh(es[k], now)
    ensures |Window(es, now)| == |es| ==> Window(es, now) == es
  {
    if es != [] {
      WindowShorter(es[1..], now);
      assert forall k :: 1 <= k < |es| ==> es[k] == es[1..][k - 1];
    }
  }

  // Pruning never drops an event of the last hour, whatever the order of the deque, and gives
  // exactly the window when, and only when, no stale event hides behind a fresh one.
  lemma {:induction false} PruneKeepsWindow(es: seq<Event>, now: int)
    ensures Window(Pruned(es, now), now) == Window(es, now)
    ensures Pruned(es, now) == Window(es, now) <==> StaleFirst(es, now)
  {
    if es == [] {
    } else if !Fresh(es[0], now) {
      PruneKeepsWindow(es[1..], now);
      if StaleFirst(es, now) {
        var rest := es[1..];
        forall i, j | 0 <= i < j < |rest| && Fresh(rest[i], now) ensures Fresh(rest[j], now) {
          assert rest[i] == es[i + 1] && rest[j] == es[j + 1];
        }
      }
      if StaleFirst(es[1..], now) {
        forall i, j | 0 <= i < j < |es| && Fresh(es[i], now) ensures Fresh(es[j], now) {
          assert es[i] == es[1..][i - 1] && es[j] == es[1..][j - 1];
        }
      }
    } else {
      WindowShorter(es, now);
    }
  }

  ghost predicate ExactAt(es: seq<Event>, now: int) {
    Pruned(es, now) == Window(es, now)
  }

  lemma OrderedIsStaleFirst(es: seq<Event>, now: int)
    requires TimeOrdered(es)
    ensures StaleFirst(es, now)
  {
  }

  // So pruning is exact at every moment exactly when the deque is in time order.
  lemma PruneExactIffOrdered(es: seq<Event>)
    ensures (forall now :: ExactAt(es, now)) <==> TimeOrdered(es)
  {
    if TimeOrdered(es) {
      forall now ensures ExactAt(es, now) {
        OrderedIsStaleFirst(es, now);
        PruneKeepsWindow(es, now);
      }
    }
    if forall now :: ExactAt(es, now) {
      forall i, j | 0 <= i < j < |es| ensures es[i].ts <= es[j].ts {
        var now := es[i].ts + HOUR;
        assert ExactAt(es, now);
        PruneKeepsWindow(es, now);
        assert Fresh(es[i], now) && StaleFirst(es, now);
      }
    }
  }

  // ----- Runs of calls -----

  datatype Op =
    | Reserve(estimate: real, now: int)
    | Replace(estimate: real, actual: real, ts: int, now: int)
    | Spend(now: int)

  function Apply(es: seq<Event>, cap: real, op: Op): seq<Event> {
    match op
    case Reserve(estimate, now) =>
      var p := Pruned(es, now);
      if Total(p) + estimate > cap then p else p + [Event(now, estimate)]
    case Replace(estimate, actual, ts, now) => Pruned(Without(es, estimate) + [Event(ts, actual)], now)
    case Spend(now) => Pruned(es, now)
  }

  ghost predicate IsRun(ds: seq<seq<Event>>, cap: real, ops: seq<Op>) {
    && |ds| == |ops| + 1
    && forall k :: 0 <= k < |ops| ==> ds[k + 1] == Apply(ds[k], cap, ops[k])
  }

  // The call reports no more than it reserved, and an event of that value is still in the deque.
  ghost predicate Covered(es: seq<Event>, op: Op) {
    match op
    case Reserve(estimate, _) => estimate >= 0.0
    case Replace(estimate, actual, _, _) => 0.0 <= actual <= estimate && LastMatch(es, estimate) >= 0
    case Spend(_) => true
  }

  lemma StepWithinCap(es: seq<Event>, cap: real, op: Op)
    requires NonNegative(es) && Total(es) <= cap && Covered(es, op)
    ensures NonNegative(Apply(es, cap, op)) && Total(Apply(es, cap, op)) <= cap
  {
    match op
    case Reserve(estimate, now) =>
      PruneLowersTotal(es, now);
      TotalSnoc(Pruned(es, now), Event(now, estimate));
    case Replace(estimate, actual, ts, now) =>
      var r := Without(es, estimate) + [Event(ts, actual)];
      TotalWithout(es, estimate);
      TotalSnoc(Without(es, estimate), Event(ts, actual));
      assert NonNegative(r);
      PruneLowersTotal(r, now);
    case Spend(now) =>
      PruneLowersTotal(es, now);
  }

  // Whatever the interleaving of calls, the recorded total stays within the hourly cap.
  lemma {:induction false} RunWithinCap(ds: seq<seq<Event>>, cap: real, ops: seq<Op>, k: nat)
    requires IsRun(ds, cap, ops) && k < |ds| && NonNegative(ds[0]) && Total(ds[0]) <= cap
    requires forall j :: 0 <= j < |ops| ==> Covered(ds[j], ops[j])
    ensures NonNegative(ds[k]) && Total(ds[k]) <= cap
    decreases k
  {
    if k > 0 {
      RunWithinCap(ds, cap, ops, k - 1);
      StepWithinCap(ds[k - 1], cap, ops[k - 1]);
    }
  }

  // ----- When is the estimate still there? -----

  function Count(es: seq<Event>, cost: real): nat {
    if es == [] then 0 else (if es[0].cost == cost then 1 else 0) + Count(es[1..], cost)
  }

  lemma {:induction false} CountConcat(p: seq<Event>, q: seq<Event>, cost: real)
    ensures Count(p + q, cost) == Count(p, cost) + Count(q, cost)
  {
    if p == [] {
      assert p + q == q;
    } else {
      assert (p + q)[1..] == p[1..] + q;
      CountConcat(p[1..], q, cost);
    }
  }

  lemma CountSnoc(p: seq<Event>, e: Event, cost: real)
    ensures Count(p + [e], cost) == Count(p, cost) + if e.cost == cost then 1 else 0
  {
    CountConcat(p, [e], cost);
    assert Count([e], cost) == (if e.cost == cost then 1 else 0) + Count([], cost);
  }

  lemma {:induction false} NoMatchCountsZero(es: seq<Event>, cost: real)
    requires forall k :: 0 <= k < |es| ==> es[k].cost != cost
    ensures Count(es, cost) == 0
  {
    if es != [] { NoMatchCountsZero(es[1..], cost); }
  }

  lemma CountWithout(es: seq<Event>, taken: real, cost: real)
    ensures Count(Without(es, taken), cost) ==
            Count(es, cost) - if taken == cost && LastMatch(es, taken) >= 0 then 1 else 0
    ensures Count(es, taken) > 0 ==> LastMatch(es, taken) >= 0
  {
    var k := LastMatch(es, taken);
    if k >= 0 {
      assert es == (es[..k] + [es[k]]) + es[k + 1..];
      CountConcat(es[..k] + [es[k]], es[k + 1..], cost);
      CountSnoc(es[..k], es[k], cost);
      CountConcat(es[..k], es[k + 1..], cost);
    } else {
      NoMatchCountsZero(es, taken);
    }
  }

  // What an operation does to the number of calls in flight with this estimate.
  function FlightChange(es: seq<Event>, cap: real, op: Op, estimate: real): int {
    if op.Reserve? && op.estimate == estimate && Total(Pruned(es, op.now)) + estimate <= cap then 1
    else if op.Replace? && op.estimate == estimate then -1
    else 0
  }

  // How many calls with this estimate are in flight: reserved and not yet replaced.
  function InFlight(ds: seq<seq<Event>>, cap: real, ops: seq<Op>, k: nat, estimate: real): int
    requires k <= |ops| < |ds|
  {
    if k == 0 then 0
    else InFlight(ds, cap, ops, k - 1, estimate) + FlightChange(ds[k - 1], cap, ops[k - 1], estimate)
  }

  // The operation's pruning drops nothing.
  ghost predicate NothingExpires(es: seq<Event>, op: Op) {
    if op.Replace? then
      var r := Without(es, op.estimate) + [Event(op.ts, op.actual)];
      Pruned(r, op.now) == r
    else Pruned(es, op.now) == es
  }

  lemma QuietStep(es: seq<Event>, cap: real, op: Op, estimate: real)
    requires NothingExpires(es, op)
    ensures Count(Apply(es, cap, op), estimate) >= Count(es, estimate) + FlightChange(es, cap, op, estimate)
  {
    if op.Reserve? {
      CountSnoc(es, Event(op.now, op.estimate), estimate);
    } else if op.Replace? {
      CountWithout(es, op.estimate, estimate);
      CountSnoc(Without(es, op.estimate), Event(op.ts, op.actual), estimate);
    }
  }

  // While nothing expires, a call in flight always finds an event of its value to replace, although
  // not always its own: only expiry can lose an estimate.
  lemma {:induction false} EstimatesPresent(ds: seq<seq<Event>>, cap: real, ops: seq<Op>, k: nat, estimate: real)
    requires IsRun(ds, cap, ops) && k < |ds|
    requires forall j :: 0 <= j < |ops| ==> NothingExpires(ds[j], ops[j])
    ensures InFlight(ds, cap, ops, k, estimate) <= Count(ds[k], estimate)
    ensures InFlight(ds, cap, ops, k, estimate) > 0 ==> LastMatch(ds[k], estimate) >= 0
    decreases k
  {
    if k > 0 {
      EstimatesPresent(ds, cap, ops, k - 1, estimate);
      QuietStep(ds[k - 1], cap, ops[k - 1], estimate);
    }
    CountedIsFound(ds[k], estimate);
  }

  lemma CountedIsFound(es: seq<Event>, cost: real)
    ensures Count(es, cost) > 0 ==> LastMatch(es, cost) >= 0
  {
    CountWithout(es, cost, cost);
  }

  // The call's estimate counts towards the window if the event it takes out is still fresh.
  function StillHeld(es: seq<Event>, estimate: real, now: int): real {
    var k := LastMatch(es, estimate);
    if k >= 0 && Fresh(es[k], now) then estimate else 0.0
  }

  // A stale new event counts only as long as a fresh one is in front of it.
  predicate Counts(es: seq<Event>, estimate: real, ts: int, now: int) {
    ts >= now - HOUR || Window(Without(es, estimate), now) != []
  }

  lemma {:induction false} WindowConcat(p: seq<Event>, q: seq<Event>, now: int)
    ensures Window(p + q, now) == Window(p, now) + Window(q, now)
  {
    if p == [] {
      assert p + q == q;
    } else {
      assert (p + q)[1..] == p[1..] + q;
      WindowConcat(p[1..], q, now);
    }
  }

  lemma WindowWithout(es: seq<Event>, estimate: real, now: int)
    ensures Total(Window(Without(es, estimate), now)) == Total(Window(es, now)) - StillHeld(es, estimate, now)
  {
    var k := LastMatch(es, estimate);
    if k >= 0 {
      assert es == (es[..k] + [es[k]]) + es[k + 1..];
      WindowConcat(es[..k] + [es[k]], es[k + 1..], now);
      WindowConcat(es[..k], [es[k]], now);
      WindowConcat(es[..k], es[k + 1..], now);
      assert Window([es[k]], now) == if Fresh(es[k], now) then [es[k]] + Window([], now) else Window([], now);
      TotalConcat(Window(es[..k], now) + Window([es[k]], now), Window(es[k + 1..], now));
      TotalConcat(Window(es[..k], now), Window([es[k]], now));
      TotalConcat(Window(es[..k], now), Window(es[k + 1..], now));
    }
  }

  lemma WithoutStaysStaleFirst(es: seq<Event>, estimate: real, now: int)
    requires StaleFirst(es, now)
    ensures StaleFirst(Without(es, estimate), now)
  {
    var k, r := LastMatch(es, estimate), Without(es, estimate);
    forall i, j | 0 <= i < j < |r| && Fresh(r[i], now) ensures Fresh(r[j], now) {
      if k >= 0 {
        assert r[i] == es[if i < k then i else i + 1] && r[j] == es[if j < k then j else j + 1];
      }
    }
  }

  lemma {:induction false} PrunedOfSnoc(es: seq<Event>, e: Event, now: int)
    ensures Pruned(es + [e], now) ==
            if Pruned(es, now) == [] && !Fresh(e, now) then [] else Pruned(es, now) + [e]
  {
    if es == [] {
      assert [] + [e] == [e] && [e][1..] == [];
    } else if !Fresh(es[0], now) {
      assert (es + [e])[1..] == es[1..] + [e];
      PrunedOfSnoc(es[1..], e, now);
    }
  }

  // What a replacement leaves recorded, on a deque whose stale events come first.
  lemma ReplacedTotal(es: seq<Event>, estimate: real, actual: real, ts: int, now: int)
    requires StaleFirst(es, now)
    ensures Total(Pruned(Without(es, estimate) + [Event(ts, actual)], now)) ==
            Total(Window(es, now)) - StillHeld(es, estimate, now) + if Counts(es, estimate, ts, now) then actual
                else 0.0
  {
    var r := Without(es, estimate);
    WithoutStaysStaleFirst(es, estimate, now);
    PruneKeepsWindow(r, now);
    PrunedOfSnoc(r, Event(ts, actual), now);
    WindowWithout(es, estimate, now);
    TotalSnoc(Pruned(r, now), Event(ts, actual));
    assert Total([]) == 0.0;
  }

  // So exactly when the recorded total is within the cap afterwards: if the estimate has gone, or
  // expired, the whole actual cost comes on top of the window.
  lemma ReplaceWithinCapIff(es: seq<Event>, cap: real, estimate: real, actual: real, ts: int, now: int)
    requires StaleFirst(es, now)
    ensures Total(Pruned(Without(es, estimate) + [Event(ts, actual)], now)) <= cap <==>
            Total(Window(es, now)) + (if Counts(es, estimate, ts, now) then actual else 0.0)
              <= cap + StillHeld(es, estimate, now)
  {
    ReplacedTotal(es, estimate, actual, ts, now);
  }

  // The router stamps every event with the present, read no later than the time of the pruning after it.
  // As long as no stamp is earlier than one before, the deque stays in time order, so its stale events do
  // come first at every replacement.
  function Stamp(op: Op): int {
    match op
    case Reserve(_, now) => now
    case Replace(_, _, ts, _) => ts
    case Spend(now) => now
  }

  function Clock(op: Op): int {
    match op
    case Reserve(_, now) => now
    case Replace(_, _, _, now) => now
    case Spend(now) => now
  }

  ghost predicate OrderedUpTo(es: seq<Event>, now: int) {
    TimeOrdered(es) && forall k :: 0 <= k < |es| ==> es[k].ts <= now
  }

  lemma {:induction false} PrunedOrdered(es: seq<Event>, now: int, top: int)
    requires OrderedUpTo(es, top)
    ensures OrderedUpTo(Pruned(es, now), top)
  {
    if es != [] && !Fresh(es[0], now) { PrunedOrdered(es[1..], now, top); }
  }

  lemma WithoutOrdered(es: seq<Event>, cost: real, top: int)
    requires OrderedUpTo(es, top)
    ensures OrderedUpTo(Without(es, cost), top)
  {
    var k, r := LastMatch(es, cost), Without(es, cost);
    if k >= 0 {
      forall i, j | 0 <= i < j < |r| ensures r[i].ts <= r[j].ts {
        assert r[i] == es[if i < k then i else i + 1] && r[j] == es[if j < k then j else j + 1];
      }
      forall i | 0 <= i < |r| ensures r[i].ts <= top {
        assert r[i] == es[if i < k then i else i + 1];
      }
    }
  }

  lemma SnocOrdered(es: seq<Event>, e: Event, top: int)
    requires OrderedUpTo(es, top) && top <= e.ts
    ensures OrderedUpTo(es + [e], e.ts)
  {
    var r := es + [e];
    forall i, j | 0 <= i < j < |r| ensures r[i].ts <= r[j].ts {
      if j < |es| { assert r[j] == es[j]; }
    }
  }

  lemma StepOrdered(es: seq<Event>, cap: real, op: Op, before: int)
    requires OrderedUpTo(es, before) && before <= Stamp(op)
    ensures OrderedUpTo(Apply(es, cap, op), Stamp(op))
  {
    match op
    case Reserve(estimate, now) =>
      PrunedOrdered(es, now, before);
      SnocOrdered(Pruned(es, now), Event(now, estimate), before);
    case Replace(estimate, actual, ts, now) =>
      WithoutOrdered(es, estimate, before);
      SnocOrdered(Without(es, estimate), Event(ts, actual), before);
      PrunedOrdered(Without(es, estimate) + [Event(ts, actual)], now, ts);
    case Spend(now) => PrunedOrdered(es, now, before);
  }

  lemma {:induction false} RunStaysOrdered(ds: seq<seq<Event>>, cap: real, ops: seq<Op>, k: nat)
    requires IsRun(ds, cap, ops) && k < |ds| && ds[0] == []
    requires forall j :: 0 < j < |ops| ==> Stamp(ops[j - 1]) <= Stamp(ops[j])
    ensures TimeOrdered(ds[k]) && (k > 0 ==> OrderedUpTo(ds[k], Stamp(ops[k - 1])))
    ensures k < |ops| ==> StaleFirst(ds[k], Clock(ops[k]))
    decreases k
  {
    if k > 0 {
      RunStaysOrdered(ds, cap, ops, k - 1);
      StepOrdered(ds[k - 1], cap, ops[k - 1], if k > 1 then Stamp(ops[k - 2]) else Stamp(ops[0]));
    }
  }

  // Two calls with the same estimate, each shorter than an hour and cheaper than estimated: the
  // first takes out the second's newer reservation, its own expires, and the second call then
  // finds nothing to replace. The cap of 2 ends at 2.9.
  lemma ShortCallsExceedCap() returns (ds: seq<seq<Event>>)
    ensures IsRun(ds, 2.0, [Reserve(1.0, 0), Reserve(1.0, 3000), Replace(1.0, 0.9, 3500, 3500),
                            Reserve(1.1, 3700), Replace(1.0, 0.9, 6000, 6000)])
    ensures ds[0] == [] && Total(ds[5]) == 2.9 && LastMatch(ds[4], 1.0) < 0
  {
    var d1 := [Event(0, 1.0)];
    var d2 := [Event(0, 1.0), Event(3000, 1.0)];
    var d3 := [Event(0, 1.0), Event(3500, 0.9)];
    var d4 := [Event(3500, 0.9), Event(3700, 1.1)];
    var d5 := [Event(3500, 0.9), Event(3700, 1.1), Event(6000, 0.9)];
    ExampleReserves(d1, d2);
    ExampleReplace(d2, d3);
    ExampleExpiry(d3, d4);
    ExampleLate(d4, d5);
    ds := [[], d1, d2, d3, d4, d5];
  }

  lemma ExampleReserves(d1: seq<Event>, d2: seq<Event>)
    requires d1 == [Event(0, 1.0)] && d2 == [Event(0, 1.0), Event(3000, 1.0)]
    ensures Apply([], 2.0, Reserve(1.0, 0)) == d1 && Apply(d1, 2.0, Reserve(1.0, 3000)) == d2
  {
    assert Total([]) == 0.0;
    assert Total(d1) == 1.0 + Total(d1[1..]);
  }

  lemma ExampleReplace(d2: seq<Event>, d3: seq<Event>)
    requires d2 == [Event(0, 1.0), Event(3000, 1.0)] && d3 == [Event(0, 1.0), Event(3500, 0.9)]
    ensures Apply(d2, 2.0, Replace(1.0, 0.9, 3500, 3500)) == d3
  {
    assert LastMatch(d2, 1.0) == 1;
    assert d2[..1] + d2[2..] == [Event(0, 1.0)];
    assert Without(d2, 1.0) + [Event(3500, 0.9)] == d3;
    assert Fresh(d3[0], 3500);
  }

  lemma ExampleExpiry(d3: seq<Event>, d4: seq<Event>)
    requires d3 == [Event(0, 1.0), Event(3500, 0.9)] && d4 == [Event(3500, 0.9), Event(3700, 1.1)]
    ensures Apply(d3, 2.0, Reserve(1.1, 3700)) == d4
  {
    var p := [Event(3500, 0.9)];
    assert d3[1..] == p && Pruned(p, 3700) == p;
    assert Total(p) == 0.9 + Total(p[1..]);
  }

  lemma ExampleLate(d4: seq<Event>, d5: seq<Event>)
    requires d4 == [Event(3500, 0.9), Event(3700, 1.1)]
    requires d5 == [Event(3500, 0.9), Event(3700, 1.1), Event(6000, 0.9)]
    ensures LastMatch(d4, 1.0) == -1
    ensures Apply(d4, 2.0, Replace(1.0, 0.9, 6000, 6000)) == d5 && Total(d5) == 2.9
  {
    LastMatchUnique(d4, 1.0, -1);
    assert d4 + [Event(6000, 0.9)] == d5;
    TotalSnoc(d4, Event(6000, 0.9));
    TotalSnoc(d4[..1], Event(3700, 1.1));
    assert d4[..1] + [Event(3700, 1.1)] == d4;
    TotalSnoc([], Event(3500, 0.9));
    assert [] + [Event(3500, 0.9)] == d4[..1];
  }
}
