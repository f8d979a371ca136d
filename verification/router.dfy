// Ordered failover over the providers of a tier, as in LLMRouter.generate of app/llm/router.py:
// budget reservation before each provider, one extra try after a schema violation, and the
// response cache in front. What a provider answers is an arbitrary oracle.
module Router {
  import opened Common
  import opened Budget

  datatype Response = Response(provider: string, text: string, cost: real, cachedHit: bool)

  datatype Outcome = Ok(response: Response) | BadSchema | Unavailable | Unexpected

  // The answer to try `attempt` of the provider at a position of the tier's list.
  type Oracle = (nat, nat) -> Outcome

  datatype Provider = Provider(model: string, estimate: real)

  datatype Tier = Tier(providers: seq<string>, bypassBudget: bool, schemaRetry: bool)

  datatype Call = Call(position: nat, attempt: nat)

  datatype Result =
    | Answer(response: Response)
    | CacheHit(response: Response)
    | BudgetExceeded
    | AllFailed
    | NoTier
    | EmptyTier
    | UnknownFirstProvider

  // What the loop over providers needs to know; the clock does not move during a call.
  datatype Plan = Plan(names: seq<string>, providers: map<string, Provider>, bypass: bool, attempts: nat,
                       cap: real, now: int, reply: Oracle)

  datatype Outcomes = Outcomes(result: Result, calls: seq<Call>, events: seq<Event>)

  predicate Known(p: Plan, i: nat)
    requires i < |p.names|
  {
    p.names[i] in p.providers
  }

  function Estimate(p: Plan, i: nat): real
    requires i < |p.names| && Known(p, i)
  {
    p.providers[p.names[i]].estimate
  }

  predicate NeedsBudget(p: Plan, i: nat)
    requires i < |p.names|
  {
    Known(p, i) && !p.bypass && Estimate(p, i) > 0.0
  }

  // The first try, and after a schema violation the second one if there is one.
  function FinalOutcome(p: Plan, i: nat): Outcome {
    if p.reply(i, 0) == BadSchema && p.attempts == 2 then p.reply(i, 1) else p.reply(i, 0)
  }

  predicate Succeeds(p: Plan, i: nat)
    requires i < |p.names|
  {
    Known(p, i) && FinalOutcome(p, i).Ok?
  }

  function CallsTo(p: Plan, i: nat): seq<Call> {
    if p.reply(i, 0) == BadSchema && p.attempts == 2 then [Call(i, 0), Call(i, 1)] else [Call(i, 0)]
  }

  function ActualCost(p: Plan, i: nat): real
    requires i < |p.names| && Succeeds(p, i)
  {
    var r := FinalOutcome(p, i).response;
    if r.cost != 0.0 then r.cost else Estimate(p, i)
  }

  // The loop from position i on, with the events of the budget and the calls made so far.
  function Route(p: Plan, i: nat, events: seq<Event>, calls: seq<Call>): Outcomes
    requires i <= |p.names|
    decreases |p.names| - i
  {
    if i == |p.names| then Outcomes(AllFailed, calls, events)
    else if !Known(p, i) then Route(p, i + 1, events, calls)
    else
      var pruned := Pruned(events, p.now);
      var estimate := Estimate(p, i);
      if NeedsBudget(p, i) && Total(pruned) + estimate > p.cap then Outcomes(BudgetExceeded, calls, pruned)
      else
        var held := if NeedsBudget(p, i) then pruned + [Event(p.now, estimate)] else events;
        if Succeeds(p, i) then
          Outcomes(Answer(FinalOutcome(p, i).response.(cachedHit := false)), calls + CallsTo(p, i),
                   if NeedsBudget(p, i)
                   then Pruned(Without(held, estimate) + [Event(p.now, ActualCost(p, i))], p.now)
                   else held)
        else Route(p, i + 1, held, calls + CallsTo(p, i))
  }

  // ----- Which answer comes back -----

  ghost predicate NoSuccessBetween(p: Plan, i: nat, w: nat)
    requires i <= w <= |p.names|
  {
    forall j :: i <= j < w ==> !Succeeds(p, j)
  }

  // The three ways the loop can end at position w.
  ghost predicate EndsAt(p: Plan, i: nat, w: nat, result: Result)
    requires i <= w <= |p.names|
  {
    && NoSuccessBetween(p, i, w)
    && match result
       case Answer(response) =>
         w < |p.names| && Succeeds(p, w) && response == FinalOutcome(p, w).response.(cachedHit := false)
       case BudgetExceeded => w < |p.names| && NeedsBudget(p, w)
       case AllFailed => w == |p.names|
       case _ => false
  }

  // A provider that is known, costs something, and is not in a tier that bypasses the budget.
  predicate Reserved(p: Plan, i: nat)
    requires i < |p.names|
  {
    p.names[i] in p.providers && !p.bypass && p.providers[p.names[i]].estimate > 0.0
  }

  // The money the loop has put in when it stops at w: the estimates of the reserved providers that
  // failed before w.
  function Charges(p: Plan, i: nat, w: nat): real
    requires i <= w <= |p.names|
    decreases w - i
  {
    if i == w then 0.0 else (if Reserved(p, i) then p.providers[p.names[i]].estimate else 0.0) + Charges(p, i + 1, w)
  }

  // What the answer of w adds: what it cost, or the estimate if it does not say.
  function Paid(p: Plan, w: nat, result: Result): real
    requires w <= |p.names|
  {
    match result
    case Answer(response) =>
      if w == |p.names| || !Reserved(p, w) then 0.0
      else if response.cost != 0.0 then response.cost
      else p.providers[p.names[w]].estimate
    case _ => 0.0
  }

  // The total of the last hour as the tracker would report it now.
  function Recorded(p: Plan, events: seq<Event>): real {
    Total(Pruned(events, p.now))
  }

  lemma {:induction false} PrunedTwice(es: seq<Event>, now: int)
    ensures Pruned(Pruned(es, now), now) == Pruned(es, now)
  {
    if es != [] && !Fresh(es[0], now) { PrunedTwice(es[1..], now); }
  }

  lemma {:induction false} PrunedSnoc(es: seq<Event>, now: int, cost: real)
    ensures Pruned(es + [Event(now, cost)], now) == Pruned(es, now) + [Event(now, cost)]
  {
    if es != [] && !Fresh(es[0], now) {
      PrunedSnoc(es[1..], now, cost);
      assert (es + [Event(now, cost)])[1..] == es[1..] + [Event(now, cost)];
    } else if es == [] {
      assert es + [Event(now, cost)] == [Event(now, cost)];
    }
  }

  // At a frozen clock the newest event of equal value is the call's own reservation.
  lemma OwnReservationReplaced(es: seq<Event>, now: int, estimate: real, actual: real)
    ensures Without(es + [Event(now, estimate)], estimate) == es
    ensures Total(Pruned(es + [Event(now, actual)], now)) == Total(Pruned(es, now)) + actual
  {
    var r := es + [Event(now, estimate)];
    LastMatchUnique(r, estimate, |es|);
    assert r[..|es|] + r[|es| + 1..] == es;
    PrunedSnoc(es, now, actual);
    TotalSnoc(Pruned(es, now), Event(now, actual));
  }

  // The loop from i on ended at w: everything before it failed; and the recorded total has grown by
  // the estimates of the reserved failures and the reserved winner's actual cost. A refusal means the
  // reservation at w would have passed the cap.
  ghost predicate EndedAt(p: Plan, i: nat, w: nat, events: seq<Event>, r: Outcomes) {
    && i <= w <= |p.names| && EndsAt(p, i, w, r.result) && Affordable(p, i, w, events)
    && Recorded(p, r.events) == Recorded(p, events) + Charges(p, i, w) + Paid(p, w, r.result)
    && (r.result.BudgetExceeded? <==>
          w < |p.names| && NeedsBudget(p, w)
          && Recorded(p, events) + Charges(p, i, w) + Estimate(p, w) > p.cap)
  }

  // Every reservation before w fits: what was recorded, the estimates of the reserved failures since,
  // and its own estimate stay within the cap.
  ghost predicate Affordable(p: Plan, i: nat, w: nat, events: seq<Event>)
    requires i <= w <= |p.names|
  {
    forall j :: i <= j < w && NeedsBudget(p, j) ==> Recorded(p, events) + Charges(p, i, j) + Estimate(p, j) <= p.cap
  }

  predicate Refuses(p: Plan, i: nat, events: seq<Event>)
    requires i < |p.names|
  {
    NeedsBudget(p, i) && Recorded(p, events) + Estimate(p, i) > p.cap
  }

  lemma RefusedHere(p: Plan, i: nat, events: seq<Event>, calls: seq<Call>)
    requires i < |p.names| && Known(p, i) && Refuses(p, i, events)
    ensures EndedAt(p, i, i, events, Route(p, i, events, calls))
  {
    PrunedTwice(events, p.now);
  }

  lemma AnsweredHere(p: Plan, i: nat, events: seq<Event>, calls: seq<Call>)
    requires i < |p.names| && !Refuses(p, i, events) && Succeeds(p, i)
    ensures EndedAt(p, i, i, events, Route(p, i, events, calls))
  {
    var pruned, estimate, actual := Pruned(events, p.now), Estimate(p, i), ActualCost(p, i);
    PrunedTwice(events, p.now);
    OwnReservationReplaced(pruned, p.now, estimate, actual);
    PrunedTwice(pruned + [Event(p.now, actual)], p.now);
  }

  // What the budget holds when provider i has failed.
  function Held(p: Plan, i: nat, events: seq<Event>): seq<Event>
    requires i < |p.names|
  {
    if NeedsBudget(p, i) then Pruned(events, p.now) + [Event(p.now, Estimate(p, i))] else events
  }

  lemma FailedHere(p: Plan, i: nat, w: nat, events: seq<Event>, r: Outcomes)
    requires i < |p.names| && Known(p, i) && !Succeeds(p, i) && !Refuses(p, i, events)
        && EndedAt(p, i + 1, w, Held(p, i, events), r)
    ensures EndedAt(p, i, w, events, r)
  {
    var pruned := Pruned(events, p.now);
    PrunedTwice(events, p.now);
    OwnReservationReplaced(pruned, p.now, Estimate(p, i), Estimate(p, i));
    var held := Held(p, i, events);
    forall j | i < j < w && NeedsBudget(p, j) ensures Recorded(p, events) + Charges(p, i, j) + Estimate(p, j) <= p.cap {
      assert Recorded(p, held) + Charges(p, i + 1, j) + Estimate(p, j) <= p.cap;
    }
  }

  // The loop ends at exactly one position.
  lemma {:induction false} RouteEnds(p: Plan, i: nat, events: seq<Event>, calls: seq<Call>) returns (w: nat)
    requires i <= |p.names|
    ensures EndedAt(p, i, w, events, Route(p, i, events, calls))
    decreases |p.names| - i
  {
    if i == |p.names| {
      w := i;
    } else if !Known(p, i) {
      w := RouteEnds(p, i + 1, events, calls);
    } else if Refuses(p, i, events) {
      w := i;
      RefusedHere(p, i, events, calls);
    } else if Succeeds(p, i) {
      w := i;
      AnsweredHere(p, i, events, calls);
    } else {
      w := RouteEnds(p, i + 1, Held(p, i, events), calls + CallsTo(p, i));
      FailedHere(p, i, w, events, Route(p, i, events, calls));
    }
  }

  // If w is the first provider in tier order that succeeds, the answer is its answer if and only if
  // every reservation up to its own fits; otherwise the budget refuses.
  lemma FirstSuccessWins(p: Plan, events: seq<Event>, w: nat)
    requires w < |p.names| && Succeeds(p, w) && NoSuccessBetween(p, 0, w)
    ensures Route(p, 0, events, []).result ==
            if Affordable(p, 0, w + 1, events) then Answer(FinalOutcome(p, w).response.(cachedHit := false))
            else BudgetExceeded
  {
    var v := RouteEnds(p, 0, events, []);
    assert v <= w;
  }

  // If no provider succeeds, all failed if and only if every reservation fits.
  lemma NoSuccessAtAll(p: Plan, events: seq<Event>)
    requires NoSuccessBetween(p, 0, |p.names|)
    ensures Route(p, 0, events, []).result == if Affordable(p, 0, |p.names|, events) then AllFailed else BudgetExceeded
  {
    var v := RouteEnds(p, 0, events, []);
  }

  // ----- How many calls -----

  function CallsAt(calls: seq<Call>, i: nat): nat {
    if calls == [] then 0 else CallsAt(calls[..|calls| - 1], i) + if calls[|calls| - 1].position == i then 1 else 0
  }

  lemma {:induction false} CallsAtConcat(a: seq<Call>, b: seq<Call>, i: nat)
    ensures CallsAt(a + b, i) == CallsAt(a, i) + CallsAt(b, i)
  {
    if b == [] {
      assert a + b == a;
    } else {
      assert (a + b)[..|a + b| - 1] == a + b[..|b| - 1];
      CallsAtConcat(a, b[..|b| - 1], i);
    }
  }

  lemma CallsToCount(p: Plan, i: nat, j: nat)
    ensures CallsAt(CallsTo(p, i), j) ==
            if i != j then 0 else if p.reply(i, 0) == BadSchema && p.attempts == 2 then 2 else 1
  {
    assert [Call(i, 0), Call(i, 1)][..1] == [Call(i, 0)];
    assert [Call(i, 0)][..0] == [];
    assert CallsAt([], j) == 0;
  }

  // ----- What the calls tell -----

  predicate Again(p: Plan, c: Call) {
    c.attempt == 0 && p.attempts == 2 && p.reply(c.position, 0) == BadSchema
  }

  // After a schema violation the same provider is asked once more if it may be; otherwise a later one.
  predicate CallFollows(p: Plan, c: Call, next: Call) {
    if Again(p, c) then next == Call(c.position, 1) else next.attempt == 0 && next.position > c.position
  }

  // From position i on, every known provider before w was asked, and w itself if the answer is its own;
  // no call but the last got an answer, and the result is that one, or there was none.
  ghost predicate Made(p: Plan, i: nat, w: nat, result: Result, made: seq<Call>) {
    && (made != [] ==> made[0].attempt == 0 && !Again(p, made[|made| - 1]))
    && (forall k :: 0 < k < |made| ==> CallFollows(p, made[k - 1], made[k]))
    && (forall j: nat :: Call(j, 0) in made <==>
          i <= j < |p.names| && p.names[j] in p.providers && (j < w || (j == w && result.Answer?)))
    && (forall k :: 0 <= k < |made| && (k < |made| - 1 || !result.Answer?) ==>
          !p.reply(made[k].position, made[k].attempt).Ok?)
    && (result.Answer? ==> made != [] && Gives(p, made[|made| - 1], result.response))
  }

  // The answer of a call is handed out as one that does not come from the cache.
  predicate Gives(p: Plan, c: Call, response: Response) {
    var r := p.reply(c.position, c.attempt);
    r.Ok? && response == r.response.(cachedHit := false)
  }

  lemma NothingMade(p: Plan, i: nat, w: nat, result: Result)
    requires i <= w && !result.Answer? && forall j: nat :: i <= j < w && j < |p.names| ==> p.names[j] !in p.providers
    ensures Made(p, i, w, result, [])
  {
  }

  lemma AskedMade(p: Plan, i: nat, result: Result)
    requires i < |p.names| && Succeeds(p, i) && result == Answer(FinalOutcome(p, i).response.(cachedHit := false))
    ensures Made(p, i, i, result, CallsTo(p, i))
  {
  }

  lemma MoreMade(p: Plan, i: nat, w: nat, result: Result, made: seq<Call>)
    requires i < |p.names| && Known(p, i) && !Succeeds(p, i) && i < w && Made(p, i + 1, w, result, made)
    requires forall k :: 0 <= k < |made| ==> made[k].position > i
    ensures Made(p, i, w, result, CallsTo(p, i) + made)
  {
    var all, first := CallsTo(p, i) + made, CallsTo(p, i);
    forall k | 0 < k < |all| ensures CallFollows(p, all[k - 1], all[k]) {
      if k > |first| { assert all[k] == made[k - |first|] && all[k - 1] == made[k - 1 - |first|]; }
    }
    forall j: nat
      ensures Call(j, 0) in all <==>
              i <= j < |p.names| && p.names[j] in p.providers && (j < w || (j == w && result.Answer?))
    {
      assert Call(j, 0) in all <==> Call(j, 0) in first || Call(j, 0) in made;
      assert Call(j, 0) in first <==> j == i;
    }
    forall k | 0 <= k < |all| && (k < |all| - 1 || !result.Answer?)
      ensures !p.reply(all[k].position, all[k].attempt).Ok?
    {
      if k >= |first| { assert all[k] == made[k - |first|]; }
    }
  }

  lemma {:induction false} RouteMakes(p: Plan, i: nat, events: seq<Event>, calls: seq<Call>)
    returns (w: nat, made: seq<Call>)
    requires i <= |p.names|
    ensures MakesFrom(p, i, w, events, calls, made)
    decreases |p.names| - i
  {
    if i == |p.names| || (Known(p, i) && Refuses(p, i, events)) {
      w, made := i, [];
      RefusedMakes(p, i, events, calls);
    } else if !Known(p, i) {
      w, made := RouteMakes(p, i + 1, events, calls);
      SkippedMakes(p, i, w, events, calls, made);
    } else if Succeeds(p, i) {
      w, made := i, CallsTo(p, i);
      AnsweredHere(p, i, events, calls);
      AskedMade(p, i, Route(p, i, events, calls).result);
    } else {
      var rest;
      w, rest := RouteMakes(p, i + 1, Held(p, i, events), calls + CallsTo(p, i));
      made := CallsTo(p, i) + rest;
      FailedMakes(p, i, w, events, calls, rest);
    }
  }

  ghost predicate MakesFrom(p: Plan, i: nat, w: nat, events: seq<Event>, calls: seq<Call>, made: seq<Call>)
    requires i <= |p.names|
  {
    var r := Route(p, i, events, calls);
    && EndedAt(p, i, w, events, r) && r.calls == calls + made && Made(p, i, w, r.result, made)
    && forall k :: 0 <= k < |made| ==> made[k].position >= i
  }

  lemma {:induction false} RefusedMakes(p: Plan, i: nat, events: seq<Event>, calls: seq<Call>)
    requires i <= |p.names| && (i < |p.names| ==> Known(p, i) && Refuses(p, i, events))
    ensures MakesFrom(p, i, i, events, calls, [])
  {
    if i < |p.names| { RefusedHere(p, i, events, calls); }
    NothingMade(p, i, i, Route(p, i, events, calls).result);
    assert calls + [] == calls;
  }

  lemma {:induction false} SkippedMakes(p: Plan, i: nat, w: nat, events: seq<Event>, calls: seq<Call>, made: seq<Call>)
    requires i < |p.names| && !Known(p, i) && MakesFrom(p, i + 1, w, events, calls, made)
    ensures MakesFrom(p, i, w, events, calls, made)
  {
    var r := Route(p, i, events, calls);
    assert r == Route(p, i + 1, events, calls);
    forall j | i <= j < w && NeedsBudget(p, j)
      ensures Recorded(p, events) + Charges(p, i, j) + Estimate(p, j) <= p.cap
    {
      assert Charges(p, i, j) == Charges(p, i + 1, j);
    }
  }

  lemma {:induction false} FailedMakes(p: Plan, i: nat, w: nat, events: seq<Event>, calls: seq<Call>, rest: seq<Call>)
    requires i < |p.names| && Known(p, i) && !Succeeds(p, i) && !Refuses(p, i, events)
    requires MakesFrom(p, i + 1, w, Held(p, i, events), calls + CallsTo(p, i), rest)
    ensures MakesFrom(p, i, w, events, calls, CallsTo(p, i) + rest)
  {
    var r := Route(p, i, events, calls);
    RouteStep(p, i, events, calls);
    FailedHere(p, i, w, events, r);
    MoreMade(p, i, w, r.result, rest);
    assert calls + CallsTo(p, i) + rest == calls + (CallsTo(p, i) + rest);
  }

  lemma {:induction false} RouteStep(p: Plan, i: nat, events: seq<Event>, calls: seq<Call>)
    requires i < |p.names| && Known(p, i) && !Succeeds(p, i) && !Refuses(p, i, events)
    ensures Route(p, i, events, calls) == Route(p, i + 1, Held(p, i, events), calls + CallsTo(p, i))
  {
  }

  // What a call of the router leaves: it ended at some provider, made these calls, and recorded this.
  ghost predicate Tells(p: Plan, before: seq<Event>, result: Result, calls: seq<Call>, after: seq<Event>) {
    exists w :: EndedAt(p, 0, w, before, Outcomes(result, calls, after)) && Made(p, 0, w, result, calls)
  }

  // The calls and the money follow from the result alone.
  lemma RouteTells(p: Plan, events: seq<Event>)
    ensures var r := Route(p, 0, events, []); Tells(p, events, r.result, r.calls, r.events)
  {
    var w, made := RouteMakes(p, 0, events, []);
    assert [] + made == made;
  }

  // A tier that bypasses the budget leaves it alone.
  lemma {:induction false} BypassIsFree(p: Plan, i: nat, events: seq<Event>, calls: seq<Call>)
    requires i <= |p.names| && p.bypass
    ensures Route(p, i, events, calls).events == events
    decreases |p.names| - i
  {
    if i < |p.names| {
      if !Known(p, i) {
        BypassIsFree(p, i + 1, events, calls);
      } else if !Succeeds(p, i) {
        BypassIsFree(p, i + 1, events, calls + CallsTo(p, i));
      }
    }
  }

  ghost predicate SucceedsBefore(p: Plan, i: nat, j: nat) {
    exists w :: i <= w < j < |p.names| && Succeeds(p, w)
  }

  // No provider is called more than twice, a second time only after a schema violation, and none is
  // called after the loop has ended.
  lemma {:induction false} CallsBounded(p: Plan, i: nat, events: seq<Event>, calls: seq<Call>, j: nat)
    requires i <= |p.names| && (j >= i ==> CallsAt(calls, j) == 0)
    ensures var n := CallsAt(Route(p, i, events, calls).calls, j);
            if j < i then n == CallsAt(calls, j)
            else n <= 2 && (n == 2 ==> p.reply(j, 0) == BadSchema && p.attempts == 2) && (j >= |p.names| ==> n == 0)
    ensures Route(p, i, events, calls).result.Answer? && SucceedsBefore(p, i, j) ==>
      CallsAt(Route(p, i, events, calls).calls, j) == 0
    decreases |p.names| - i
  {
    if i < |p.names| {
      if !Known(p, i) {
        CallsBounded(p, i + 1, events, calls, j);
      } else {
        CallsAtConcat(calls, CallsTo(p, i), j);
        CallsToCount(p, i, j);
        var pruned := Pruned(events, p.now);
        var held := if NeedsBudget(p, i) then pruned + [Event(p.now, Estimate(p, i))] else events;
        if !(NeedsBudget(p, i) && Total(pruned) + Estimate(p, i) > p.cap) && !Succeeds(p, i) {
          if j != i { CallsBounded(p, i + 1, held, calls + CallsTo(p, i), j); }
          else { CallsUntouched(p, i + 1, held, calls + CallsTo(p, i), j); }
        }
      }
    }
  }

  lemma {:induction false} CallsUntouched(p: Plan, i: nat, events: seq<Event>, calls: seq<Call>, j: nat)
    requires j < i <= |p.names|
    ensures CallsAt(Route(p, i, events, calls).calls, j) == CallsAt(calls, j)
    decreases |p.names| - i
  {
    if i < |p.names| {
      if !Known(p, i) {
        CallsUntouched(p, i + 1, events, calls, j);
      } else {
        CallsAtConcat(calls, CallsTo(p, i), j);
        CallsToCount(p, i, j);
        var pruned := Pruned(events, p.now);
        var held := if NeedsBudget(p, i) then pruned + [Event(p.now, Estimate(p, i))] else events;
        if !(NeedsBudget(p, i) && Total(pruned) + Estimate(p, i) > p.cap) && !Succeeds(p, i) {
          CallsUntouched(p, i + 1, held, calls + CallsTo(p, i), j);
        }
      }
    }
  }

  // ----- The router object -----

  datatype Cached = Cached(expires: int, response: Response)

  class LLMRouter {
    const tiers: map<string, Tier>
    const providers: map<string, Provider>
    const budget: BudgetTracker
    const cacheEnabled: bool
    const ttl: nat
    var cache: map<string, Cached>

    constructor (tiers: map<string, Tier>, providers: map<string, Provider>, budget: BudgetTracker,
                 cacheEnabled: bool, ttl: nat)
      ensures this.tiers == tiers && this.providers == providers && this.budget == budget
      ensures this.cacheEnabled == cacheEnabled && this.ttl == ttl && cache == map[]
    {
      this.tiers := tiers;
      this.providers := providers;
      this.budget := budget;
      this.cacheEnabled := cacheEnabled;
      this.ttl := ttl;
      cache := map[];
    }

    function NamesFor(task: string, modelOverride: Option<string>): seq<string>
      requires task in tiers
    {
      if modelOverride.Some? && modelOverride.value != "" then [modelOverride.value] else tiers[task].providers
    }

    function PlanFor(task: string, hasSchema: bool, modelOverride: Option<string>, now: int, reply: Oracle): Plan
      requires task in tiers
    {
      Plan(NamesFor(task, modelOverride), providers, tiers[task].bypassBudget,
           if hasSchema && tiers[task].schemaRetry then 2 else 1, budget.hourlyUsd, now, reply)
    }

    // The tries of one provider: one more after a schema violation while there is one left.
    method Ask(i: nat, attempts: nat, reply: Oracle, made: seq<Call>) returns (outcome: Outcome, calls: seq<Call>)
      requires 1 <= attempts <= 2
      ensures outcome == if reply(i, 0) == BadSchema && attempts == 2 then reply(i, 1) else reply(i, 0)
      ensures calls == made +
              if reply(i, 0) == BadSchema && attempts == 2 then [Call(i, 0), Call(i, 1)] else [Call(i, 0)]
    {
      var attempt := 0;
      outcome := reply(i, 0);
      calls := made + [Call(i, 0)];
      while outcome == BadSchema && attempt + 1 < attempts
        invariant 0 <= attempt < attempts
        invariant outcome == reply(i, attempt)
        invariant attempt == 1 ==> reply(i, 0) == BadSchema
        invariant calls == made + if attempt == 0 then [Call(i, 0)] else [Call(i, 0), Call(i, 1)]
      {
        attempt := attempt + 1;
        outcome := reply(i, attempt);
        calls := calls + [Call(i, attempt)];
      }
    }

    // The loop over the tier's providers.
    method TryProviders(task: string, hasSchema: bool, modelOverride: Option<string>, now: int, reply: Oracle)
      returns (result: Result, calls: seq<Call>)
      requires task in tiers
      modifies budget
      ensures Outcomes(result, calls, budget.events) ==
              Route(PlanFor(task, hasSchema, modelOverride, now, reply), 0, old(budget.events), [])
      ensures Tells(PlanFor(task, hasSchema, modelOverride, now, reply), old(budget.events), result, calls,
                    budget.events)
      ensures tiers[task].bypassBudget ==> budget.events == old(budget.events)
    {
      var tier := tiers[task];
      var names := NamesFor(task, modelOverride);
      calls := [];
      ghost var p := PlanFor(task, hasSchema, modelOverride, now, reply);
      ghost var goal := Route(p, 0, budget.events, []);
      RouteTells(p, budget.events);
      if p.bypass { BypassIsFree(p, 0, budget.events, []); }
      for i := 0 to |names|
        invariant Route(p, i, budget.events, calls) == goal
      {
        if names[i] !in providers { continue; }
        var estimate := providers[names[i]].estimate;
        var reserved := false;
        if !tier.bypassBudget && estimate > 0.0 {
          reserved := budget.CheckAndReserve(estimate, now);
          if !reserved { return BudgetExceeded, calls; }
        }
        var attempts := if hasSchema && tier.schemaRetry then 2 else 1;
        var outcome;
        outcome, calls := Ask(i, attempts, reply, calls);
        if outcome.Ok? {
          var response := outcome.response.(cachedHit := false);
          var actual := if response.cost != 0.0 then response.cost else estimate;
          if reserved { budget.ReplaceReservation(estimate, actual, now, now); }
          return Answer(response), calls;
        }
      }
      return AllFailed, calls;
    }

    method Generate(task: string, hasSchema: bool, modelOverride: Option<string>, useCache: bool, key: string,
                    now: int, reply: Oracle) returns (result: Result, calls: seq<Call>)
      modifies this, budget
      ensures task !in tiers ==>
        result == NoTier && calls == [] && budget.events == old(budget.events) && cache == old(cache)
      ensures task in tiers && NamesFor(task, modelOverride) == [] ==>
        result == EmptyTier && calls == [] && budget.events == old(budget.events) && cache == old(cache)
      ensures task in tiers && NamesFor(task, modelOverride) != [] && NamesFor(task, modelOverride)[0] !in providers ==>
        result == UnknownFirstProvider && calls == [] && budget.events == old(budget.events) && cache == old(cache)
      ensures task in tiers && NamesFor(task, modelOverride) != [] && NamesFor(task, modelOverride)[0] in providers ==>
        if useCache && cacheEnabled && key in old(cache) && now <= old(cache)[key].expires then
          && result == CacheHit(old(cache)[key].response.(cachedHit := true))
          && calls == [] && budget.events == old(budget.events) && cache == old(cache)
        else
          && Outcomes(result, calls, budget.events) ==
            Route(PlanFor(task, hasSchema, modelOverride, now, reply), 0, old(budget.events), [])
          && Tells(Plan(if modelOverride.Some? && modelOverride.value != "" then [modelOverride.value]
                        else tiers[task].providers,
                        providers, tiers[task].bypassBudget, if hasSchema && tiers[task].schemaRetry then 2 else 1,
                        budget.hourlyUsd, now, reply),
                   old(budget.events), result, calls, budget.events)
          && (tiers[task].bypassBudget ==> budget.events == old(budget.events))
          && if result.Answer? && useCache && cacheEnabled
             then cache == old(cache)[key := Cached(now + ttl, result.response)]
             else if useCache && cacheEnabled then cache == old(cache) - {key}
             else cache == old(cache)
    {
      if task !in tiers { return NoTier, []; }
      var names := NamesFor(task, modelOverride);
      if names == [] { return EmptyTier, []; }
      if names[0] !in providers { return UnknownFirstProvider, []; }
      if useCache && cacheEnabled && key in cache && cache[key].expires >= now {
        return CacheHit(cache[key].response.(cachedHit := true)), [];
      }
      if useCache && cacheEnabled && key in cache { cache := cache - {key}; }
      result, calls := TryProviders(task, hasSchema, modelOverride, now, reply);
      if result.Answer? && useCache && cacheEnabled {
        cache := cache[key := Cached(now + ttl, result.response)];
      }
    }
  }
}
