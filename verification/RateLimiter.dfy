/**
 The window rate limiter (functions/src/rateLimiter.ts:42-113, 184-221): one budget over time, batches
 of budgets in one transaction, and the bounded in-memory store.
 */
module RateLimiter {
  import opened Prelude

  const WINDOW: int := 60 * 60 * 1000
  const RETENTION_WINDOWS: int := 2

  datatype Budget = Budget(windowStartedAt: int, calls: int)

  datatype Decision = Decision(allowed: bool, state: Budget, retryAfter: int)

  datatype RateError = BadMaximum | BadTime

  predicate Safe(n: int) {
    0 <= n <= MAX_SAFE_INTEGER
  }

  predicate ValidBudget(b: Budget) {
    Safe(b.windowStartedAt) && Safe(b.calls)
  }

  /** A maximum must be a positive safe integer, and a time a non-negative one. */
  function Evaluate(current: Option<Budget>, now: int, maximum: int): Result<Decision, RateError> {
    if !Safe(maximum) || maximum == 0 then Err(BadMaximum)
    else if !Safe(now) then Err(BadTime)
    else Ok(DecisionFor(current, now, maximum))
  }

  predicate Allows(r: Result<Decision, RateError>) {
    r.Ok? && r.value.allowed
  }

  function DecisionFor(current: Option<Budget>, now: int, maximum: int): Decision {
    if current.None? || !ValidBudget(current.value) || now < current.value.windowStartedAt
       || now - current.value.windowStartedAt >= WINDOW
    then Decision(true, Budget(now, 1), 0)
    else if current.value.calls >= maximum
    then Decision(false, current.value, Max(1, current.value.windowStartedAt + WINDOW - now))
    else Decision(true, Budget(current.value.windowStartedAt, current.value.calls + 1), 0)
  }

  // ----- one budget over time -----

  /** A call at some time, or the removal of an expired document by the database. */
  datatype Event = Call(time: int) | Expire(time: int)

  predicate Expirable(current: Option<Budget>, now: int) {
    current.Some? && current.value.windowStartedAt + WINDOW * RETENTION_WINDOWS <= now
  }

  function After(current: Option<Budget>, e: Event, maximum: int): Option<Budget> {
    match e
    case Call(t) => var r := Evaluate(current, t, maximum); if Allows(r) then Some(r.value.state) else current
    case Expire(t) => if Expirable(current, t) then None else current
  }

  /** The times of the allowed calls. */
  function Allowed(current: Option<Budget>, events: seq<Event>, maximum: int): seq<int>
    decreases events
  {
    if events == [] then []
    else
      var e, next := events[0], After(current, events[0], maximum);
      if e.Call? && Allows(Evaluate(current, e.time, maximum))
      then [e.time] + Allowed(next, events[1..], maximum)
      else Allowed(next, events[1..], maximum)
  }

  /** Time does not go back. */
  predicate Ordered(now: int, events: seq<Event>)
    decreases events
  {
    events == [] || (now <= events[0].time && Ordered(events[0].time, events[1..]))
  }

  function CountIn(times: seq<int>, from: int): nat {
    if times == [] then 0
    else CountIn(times[1..], from) + if from <= times[0] < from + WINDOW then 1 else 0
  }

  /** How many calls the interval may already hold, given the window that was opened last. */
  predicate Bound(last: Option<Budget>, now: int, from: int, maximum: int, count: nat) {
    && (now < from ==> count == 0)
    && match last
       case None => count == 0
       case Some(b) =>
         && Safe(b.windowStartedAt) && b.windowStartedAt <= now && 1 <= b.calls <= maximum
         && (if b.windowStartedAt < from then count <= b.calls - 1
             else if b.windowStartedAt < from + WINDOW then count <= maximum - 1 + b.calls
             else count <= 2 * maximum - 1)
  }

  /** Removing an expired document changes no decision: its window was over long before. */
  predicate SameDecisions(stored: Option<Budget>, last: Option<Budget>, now: int) {
    stored == last || (stored.None? && last.Some? && last.value.windowStartedAt + WINDOW <= now)
  }

  lemma {:induction false} AllowedAreBounded(stored: Option<Budget>, last: Option<Budget>, now: int, events: seq<Event>,
                                            maximum: int, from: int, count: nat)
    requires maximum > 0 && now >= 0 && Ordered(now, events)
    requires Bound(last, now, from, maximum, count) && SameDecisions(stored, last, now)
    ensures count + CountIn(Allowed(stored, events, maximum), from) <= 2 * maximum - 1
    decreases events
  {
    if events != [] {
      var e := events[0];
      var next := After(stored, e, maximum);
      if e.Call? {
        var r := Evaluate(last, e.time, maximum);
        assert Evaluate(stored, e.time, maximum) == r;
        if Allows(r) {
          var grown := count + if from <= e.time < from + WINDOW then 1 else 0;
          AllowedAreBounded(next, Some(r.value.state), e.time, events[1..], maximum, from, grown);
          assert ([e.time] + Allowed(next, events[1..], maximum))[1..] == Allowed(next, events[1..], maximum);
        } else {
          AllowedAreBounded(next, last, e.time, events[1..], maximum, from, count);
        }
      } else {
        AllowedAreBounded(next, last, e.time, events[1..], maximum, from, count);
      }
    }
  }

  /** With a clock that does not go back, any half-open interval one window long holds at most twice the
      maximum, less one, of the allowed calls, whatever the database removes in between. */
  lemma WindowBound(events: seq<Event>, maximum: int, from: int)
    requires maximum > 0 && Ordered(0, events)
    ensures CountIn(Allowed(None, events, maximum), from) <= 2 * maximum - 1
  {
    AllowedAreBounded(None, None, 0, events, maximum, from, 0);
  }

  // ----- one decision -----

  /** The hour that a stored budget opened still runs; a budget that is out of range counts for nothing. */
  predicate Running(current: Option<Budget>, now: int) {
    && current.Some?
    && var b := current.value;
    && 0 <= b.windowStartedAt <= 9007199254740991 && 0 <= b.calls <= 9007199254740991
    && b.windowStartedAt <= now < b.windowStartedAt + 3600000
  }

  /** A call is refused exactly while an hour runs that has had its maximum; otherwise it is counted, in that
      hour or in a new one; and the database removes a budget exactly two hours after its hour began. */
  lemma DecidesExactly(current: Option<Budget>, now: int, maximum: int)
    ensures Evaluate(current, now, maximum).Ok? <==>
      0 < maximum <= 9007199254740991 && 0 <= now <= 9007199254740991
    ensures Evaluate(current, now, maximum).Ok? ==>
      var decision := Evaluate(current, now, maximum).value;
      && (decision.allowed <==> !(Running(current, now) && current.value.calls >= maximum))
      && (decision.allowed ==> decision.retryAfter == 0)
      && (decision.allowed && Running(current, now) ==>
            decision.state == Budget(current.value.windowStartedAt, current.value.calls + 1))
      && (decision.allowed && !Running(current, now) ==> decision.state == Budget(now, 1))
    ensures After(current, Expire(now), maximum)
         == if current.Some? && current.value.windowStartedAt + 7200000 <= now then None else current
  {
  }

  // ----- how long a refused caller waits -----

  /** A refused call is told the shortest wait after which a call is allowed. */
  lemma RetryAfterExactly(current: Option<Budget>, now: int, maximum: int, t: int)
    requires Evaluate(current, now, maximum).Ok? && !Evaluate(current, now, maximum).value.allowed
    requires now <= t && Safe(t)
    ensures var refused := Evaluate(current, now, maximum).value;
      && refused.retryAfter >= 1 && current == Some(refused.state)
      && (Allows(Evaluate(current, t, maximum)) <==> t >= now + refused.retryAfter)
  {
  }

  predicate AllBefore(events: seq<Event>, time: int) {
    forall k :: 0 <= k < |events| ==> events[k].time < time
  }

  /** Whatever is called and whatever the database removes in the meantime, nothing is allowed until the
      wait is over, and the first call after it is. */
  lemma {:induction false} RefusedUntil(current: Option<Budget>, now: int, maximum: int, events: seq<Event>, from: int,
                                       t: int)
    requires Evaluate(current, now, maximum).Ok? && !Evaluate(current, now, maximum).value.allowed
    requires now <= from && Ordered(from, events) && Safe(t)
    requires AllBefore(events, now + Evaluate(current, now, maximum).value.retryAfter)
    requires t >= now + Evaluate(current, now, maximum).value.retryAfter
    ensures Allowed(current, events, maximum) == [] && Allowed(current, events + [Call(t)], maximum) == [t]
    decreases |events|
  {
    RetryAfterExactly(current, now, maximum, t);
    if events == [] {
      assert events + [Call(t)] == [Call(t)] && [Call(t)][1..] == [];
    } else {
      if events[0].Call? && Safe(events[0].time) { RetryAfterExactly(current, now, maximum, events[0].time); }
      assert After(current, events[0], maximum) == current;
      assert (events + [Call(t)])[1..] == events[1..] + [Call(t)];
      RefusedUntil(current, now, maximum, events[1..], events[0].time, t);
    }
  }

  // ----- the bound is tight -----

  function Repeat(time: int, n: nat): seq<Event> {
    if n == 0 then [] else [Call(time)] + Repeat(time, n - 1)
  }

  /** A call that is allowed counts if it lies in the interval; the rest are judged on the budget it left. */
  lemma CountsAllowed(stored: Option<Budget>, e: Event, rest: seq<Event>, maximum: int, from: int)
    requires e.Call? && Allows(Evaluate(stored, e.time, maximum))
    ensures CountIn(Allowed(stored, [e] + rest, maximum), from)
         == CountIn(Allowed(After(stored, e, maximum), rest, maximum), from)
            + if from <= e.time < from + WINDOW then 1 else 0
  {
    var events, later := [e] + rest, Allowed(After(stored, e, maximum), rest, maximum);
    assert events[0] == e && events[1..] == rest;
    assert ([e.time] + later)[0] == e.time && ([e.time] + later)[1..] == later;
  }

  lemma {:induction false} RepeatAllowed(b: Budget, time: int, n: nat, rest: seq<Event>, maximum: int, from: int)
    requires ValidBudget(b) && b.windowStartedAt <= time < b.windowStartedAt + WINDOW && b.calls + n <= maximum
    requires from <= time < from + WINDOW && Safe(time) && Safe(maximum)
    ensures CountIn(Allowed(Some(b), Repeat(time, n) + rest, maximum), from)
         == n + CountIn(Allowed(Some(Budget(b.windowStartedAt, b.calls + n)), rest, maximum), from)
    decreases n
  {
    if n == 0 {
      assert Repeat(time, n) + rest == rest;
    } else {
      var next, later := Budget(b.windowStartedAt, b.calls + 1), Repeat(time, n - 1) + rest;
      assert Repeat(time, n) + rest == [Call(time)] + later;
      CountsAllowed(Some(b), Call(time), later, maximum, from);
      RepeatAllowed(next, time, n - 1, rest, maximum, from);
    }
  }

  lemma {:induction false} RepeatOrdered(now: int, time: int, n: nat, rest: seq<Event>)
    requires now <= time && Ordered(time, rest)
    ensures Ordered(now, Repeat(time, n) + rest)
    decreases n
  {
    if n == 0 {
      assert Repeat(time, n) + rest == rest;
    } else {
      assert (Repeat(time, n) + rest)[1..] == Repeat(time, n - 1) + rest;
      RepeatOrdered(time, time, n - 1, rest);
    }
  }

  /** A window opened by one call and used up at a later time, and then some more. */
  function Fill(start: int, time: int, maximum: nat, rest: seq<Event>): seq<Event>
    requires maximum > 0
  {
    [Call(start)] + (Repeat(time, maximum - 1) + rest)
  }

  /** One call opens a window, the rest of it is used at its very end, and the next window at once. */
  function Burst(maximum: nat): seq<Event>
    requires maximum > 0
  {
    Fill(0, WINDOW - 1, maximum, Fill(WINDOW, WINDOW, maximum, []))
  }

  predicate Opens(stored: Option<Budget>, time: int) {
    stored.None? || (ValidBudget(stored.value) && time >= stored.value.windowStartedAt + WINDOW)
  }

  lemma FillAllowed(stored: Option<Budget>, start: int, time: int, maximum: nat, rest: seq<Event>, from: int)
    requires 0 < maximum && Safe(maximum) && Opens(stored, start)
    requires Safe(start) && Safe(time) && start <= time < start + WINDOW && from <= time < from + WINDOW
    ensures CountIn(Allowed(stored, Fill(start, time, maximum, rest), maximum), from)
         == maximum - (if from <= start then 0 else 1)
            + CountIn(Allowed(Some(Budget(start, maximum)), rest, maximum), from)
  {
    CountsAllowed(stored, Call(start), Repeat(time, maximum - 1) + rest, maximum, from);
    RepeatAllowed(Budget(start, 1), time, maximum - 1, rest, maximum, from);
  }

  lemma FillOrdered(now: int, start: int, time: int, maximum: nat, rest: seq<Event>)
    requires maximum > 0 && now <= start <= time && Ordered(time, rest)
    ensures Ordered(now, Fill(start, time, maximum, rest))
  {
    var later := Repeat(time, maximum - 1) + rest;
    RepeatOrdered(start, time, maximum - 1, rest);
    assert ([Call(start)] + later)[1..] == later;
  }

  lemma BoundIsReached(maximum: nat)
    requires maximum > 0 && Safe(maximum)
    ensures Ordered(0, Burst(maximum))
    ensures CountIn(Allowed(None, Burst(maximum), maximum), 1) == 2 * maximum - 1
  {
    var second := Fill(WINDOW, WINDOW, maximum, []);
    FillOrdered(WINDOW - 1, WINDOW, WINDOW, maximum, []);
    FillOrdered(0, 0, WINDOW - 1, maximum, second);
    FillAllowed(None, 0, WINDOW - 1, maximum, second, 1);
    FillAllowed(Some(Budget(0, maximum)), WINDOW, WINDOW, maximum, [], 1);
  }

  // ----- batches -----

  datatype Charge = Charge(key: nat, maximum: int)

  type Budgets = map<nat, Budget>

  function Decide(budgets: Budgets, c: Charge, now: int): Decision {
    DecisionFor(Lookup(budgets, c.key), now, c.maximum)
  }

  datatype Refusal = Invalid(error: RateError) | Exceeded(retryAfter: int)

  /** The first charge that cannot be evaluated at all. */
  function FirstError(charges: seq<Charge>, now: int): Option<RateError> {
    if charges == [] then None
    else
      var r := Evaluate(None, now, charges[0].maximum);
      if r.Err? then Some(r.error) else FirstError(charges[1..], now)
  }

  /** The first charge that its budget refuses. */
  function FirstRejected(budgets: Budgets, charges: seq<Charge>, now: int): Option<int> {
    if charges == [] then None
    else
      var d := Decide(budgets, charges[0], now);
      if !d.allowed then Some(d.retryAfter) else FirstRejected(budgets, charges[1..], now)
  }

  /** Every decision is taken on the budgets as they were; the last write to a budget stands. */
  function Charged(budgets: Budgets, charges: seq<Charge>, now: int, n: nat): Budgets
    requires n <= |charges|
  {
    if n == 0 then budgets
    else Charged(budgets, charges, now, n - 1)[charges[n - 1].key := Decide(budgets, charges[n - 1], now).state]
  }

  /** The batch as one transaction: errors before refusals, and then all charges. */
  function ConsumeBatch(budgets: Budgets, charges: seq<Charge>, now: int): Result<Budgets, Refusal> {
    var bad, rejected := FirstError(charges, now), FirstRejected(budgets, charges, now);
    if bad.Some? then Err(Invalid(bad.value))
    else if rejected.Some? then Err(Exceeded(rejected.value))
    else Ok(Charged(budgets, charges, now, |charges|))
  }

  /** The same charges made one after another. */
  function ConsumeInTurn(budgets: Budgets, charges: seq<Charge>, now: int): Result<Budgets, Refusal>
    decreases charges
  {
    if charges == [] then Ok(budgets)
    else
      var r := Evaluate(Lookup(budgets, charges[0].key), now, charges[0].maximum);
      if r.Err? then Err(Invalid(r.error))
      else if !r.value.allowed then Err(Exceeded(r.value.retryAfter))
      else ConsumeInTurn(budgets[charges[0].key := r.value.state], charges[1..], now)
  }

  predicate ValidCharge(c: Charge, now: int) {
    0 < c.maximum && Safe(c.maximum) && Safe(now)
  }

  predicate AllAllowed(budgets: Budgets, charges: seq<Charge>, now: int) {
    forall k :: 0 <= k < |charges| ==> ValidCharge(charges[k], now) && Decide(budgets, charges[k], now).allowed
  }

  /** A batch is accepted exactly when each of its charges could be made alone. */
  lemma {:induction false} AcceptedExactly(budgets: Budgets, charges: seq<Charge>, now: int)
    ensures FirstError(charges, now).None? <==> forall k :: 0 <= k < |charges| ==> ValidCharge(charges[k], now)
    ensures FirstRejected(budgets, charges, now).None?
       <==> forall k :: 0 <= k < |charges| ==> Decide(budgets, charges[k], now).allowed
    ensures ConsumeBatch(budgets, charges, now).Ok? <==> AllAllowed(budgets, charges, now)
  {
    if charges != [] {
      AcceptedExactly(budgets, charges[1..], now);
      forall k | 0 < k < |charges| ensures charges[k] == charges[1..][k - 1] {}
      assert (forall k :: 0 <= k < |charges| ==> ValidCharge(charges[k], now))
        <==> ValidCharge(charges[0], now) && forall k :: 0 <= k < |charges[1..]| ==> ValidCharge(charges[1..][k], now);
      assert (forall k :: 0 <= k < |charges| ==> Decide(budgets, charges[k], now).allowed)
        <==> Decide(budgets, charges[0], now).allowed
             && forall k :: 0 <= k < |charges[1..]| ==> Decide(budgets, charges[1..][k], now).allowed;
    }
  }

  predicate DistinctKeys(charges: seq<Charge>) {
    forall i, j :: 0 <= i < j < |charges| ==> charges[i].key != charges[j].key
  }

  class BudgetStore {
    var budgets: Budgets

    /** All charges or none. */
    method ConsumePersistentRateLimits(charges: seq<Charge>, now: int) returns (r: Result<(), Refusal>)
      modifies this
      ensures var want := ConsumeBatch(old(budgets), charges, now);
        && budgets == (if want.Ok? then want.value else old(budgets))
        && r == (if want.Ok? then Ok(()) else Err(want.error))
    {
      var evaluated := EvaluateAll(charges, now);
      if evaluated.Err? { return Err(Invalid(evaluated.error)); }
      var decisions, k := evaluated.value, 0;
      while k < |charges|
        invariant 0 <= k <= |charges|
        invariant FirstRejected(budgets, charges[k..], now) == FirstRejected(budgets, charges, now)
      {
        assert charges[k..][1..] == charges[k + 1..];
        if !decisions[k].allowed { return Err(Exceeded(decisions[k].retryAfter)); }
        k := k + 1;
      }
      k := 0;
      while k < |charges|
        invariant 0 <= k <= |charges| && budgets == Charged(old(budgets), charges, now, k)
      {
        budgets := budgets[charges[k].key := decisions[k].state];
        k := k + 1;
      }
      return Ok(());
    }

    /** One decision for each charge, on the budgets as they are. */
    method EvaluateAll(charges: seq<Charge>, now: int) returns (r: Result<seq<Decision>, RateError>)
      ensures r.Err? <==> FirstError(charges, now).Some?
      ensures r.Err? ==> Some(r.error) == FirstError(charges, now)
      ensures r.Ok? ==> |r.value| == |charges|
                        && forall j :: 0 <= j < |charges| ==> r.value[j] == Decide(budgets, charges[j], now)
    {
      var decisions: seq<Decision> := [];
      var k := 0;
      while k < |charges|
        invariant 0 <= k <= |charges| && |decisions| == k
        invariant FirstError(charges[k..], now) == FirstError(charges, now)
        invariant forall j :: 0 <= j < k ==> decisions[j] == Decide(budgets, charges[j], now)
      {
        assert charges[k..][1..] == charges[k + 1..];
        var d := Evaluate(Lookup(budgets, charges[k].key), now, charges[k].maximum);
        if d.Err? { return Err(d.error); }
        decisions := decisions + [d.value];
        k := k + 1;
      }
      return Ok(decisions);
    }
  }

  lemma {:induction false} ChargedLookup(budgets: Budgets, charges: seq<Charge>, now: int, n: nat, key: nat)
    requires n <= |charges|
    ensures (forall j :: 0 <= j < n ==> charges[j].key != key) ==>
      Lookup(Charged(budgets, charges, now, n), key) == Lookup(budgets, key)
    ensures (exists j :: 0 <= j < n && charges[j].key == key) ==>
      exists j :: 0 <= j < n && charges[j].key == key
        && Lookup(Charged(budgets, charges, now, n), key) == Some(Decide(budgets, charges[j], now).state)
  {
    if n > 0 { ChargedLookup(budgets, charges, now, n - 1, key); }
  }

  /** Charging in turn never undoes a charge made at the same instant. */
  lemma {:induction false} TurnsOnlyAdd(budgets: Budgets, charges: seq<Charge>, now: int, key: nat)
    requires ConsumeInTurn(budgets, charges, now).Ok? && key in budgets
    requires Current(budgets[key], now)
    ensures var after := ConsumeInTurn(budgets, charges, now).value;
      && key in after && after[key].windowStartedAt == budgets[key].windowStartedAt
      && after[key].calls >= budgets[key].calls
      && ((exists j :: 0 <= j < |charges| && charges[j].key == key) ==> after[key].calls > budgets[key].calls)
    decreases charges
  {
    if charges != [] {
      var next := budgets[charges[0].key := Decide(budgets, charges[0], now).state];
      TurnsOnlyAdd(next, charges[1..], now, key);
      if j :| 0 <= j < |charges| && charges[j].key == key {
        if j > 0 { assert charges[1..][j - 1].key == key; }
      }
    }
  }

  predicate Current(b: Budget, now: int) {
    ValidBudget(b) && b.windowStartedAt <= now < b.windowStartedAt + WINDOW
  }

  lemma {:induction false} DistinctInTurn(budgets: Budgets, charges: seq<Charge>, now: int, n: nat)
    requires DistinctKeys(charges) && AllAllowed(budgets, charges, now) && n <= |charges|
    ensures ConsumeInTurn(Charged(budgets, charges, now, n), charges[n..], now)
         == Ok(Charged(budgets, charges, now, |charges|))
    decreases |charges| - n
  {
    if n < |charges| {
      ChargedLookup(budgets, charges, now, n, charges[n].key);
      DistinctInTurn(budgets, charges, now, n + 1);
      assert charges[n..][0] == charges[n] && charges[n..][1..] == charges[n + 1..];
    }
  }

  /** A budget listed twice is charged at least twice in turn. */
  lemma {:induction false} RepeatedKeyAddsUp(budgets: Budgets, charges: seq<Charge>, now: int, i: nat, j: nat)
    requires i < j < |charges| && charges[i].key == charges[j].key
    requires ConsumeInTurn(budgets, charges, now).Ok?
    ensures var key, after := charges[i].key, ConsumeInTurn(budgets, charges, now).value;
      key in after && after[key].calls > Decide(budgets, charges[i], now).state.calls
    decreases charges
  {
    var key := charges[i].key;
    var first := Decide(budgets, charges[0], now).state;
    var next := budgets[charges[0].key := first];
    if charges[0].key == key {
      assert charges[1..][j - 1].key == key;
      TurnsOnlyAdd(next, charges[1..], now, key);
    } else {
      RepeatedKeyAddsUp(next, charges[1..], now, i - 1, j - 1);
    }
  }

  /** A batch charges what charging in turn would, exactly when it lists no budget twice: a repeated
      budget is charged once, however often it is listed. */
  lemma BatchIsInTurnExactly(budgets: Budgets, charges: seq<Charge>, now: int)
    requires ConsumeBatch(budgets, charges, now).Ok?
    ensures ConsumeInTurn(budgets, charges, now) == ConsumeBatch(budgets, charges, now) <==> DistinctKeys(charges)
  {
    AcceptedExactly(budgets, charges, now);
    if DistinctKeys(charges) {
      DistinctInTurn(budgets, charges, now, 0);
      assert charges[0..] == charges;
    } else {
      var i: nat, j: nat :| i < j < |charges| && charges[i].key == charges[j].key;
      var key := charges[i].key;
      if ConsumeInTurn(budgets, charges, now).Ok? {
        RepeatedKeyAddsUp(budgets, charges, now, i, j);
        ChargedLookup(budgets, charges, now, |charges|, key);
        assert Decide(budgets, charges[i], now).allowed;
        var l :| 0 <= l < |charges| && charges[l].key == key
          && Lookup(Charged(budgets, charges, now, |charges|), key) == Some(Decide(budgets, charges[l], now).state);
        assert Decide(budgets, charges[l], now).allowed;
      }
    }
  }

  // ----- the in-memory store -----

  function Evicted(states: Budgets, now: int): Budgets {
    map k | k in states && states[k].windowStartedAt <= now < states[k].windowStartedAt + WINDOW :: states[k]
  }

  function Roomy(states: Budgets, capacity: nat, key: nat, now: int): Budgets {
    if key !in states && |states| >= capacity then Evicted(states, now) else states
  }

  predicate Full(states: Budgets, capacity: nat, key: nat) {
    key !in states && |states| >= capacity
  }

  /** A refused call keeps what eviction left. */
  function ConsumeMemory(states: Budgets, capacity: nat, key: nat, maximum: int, now: int): (Budgets, bool) {
    var roomy := Roomy(states, capacity, key, now);
    if Full(roomy, capacity, key) then (roomy, false)
    else
      var r := Evaluate(Lookup(roomy, key), now, maximum);
      if Allows(r) then (roomy[key := r.value.state], true) else (roomy, false)
  }

  class MemoryRateLimitStore {
    const capacity: nat
    var states: Budgets

    constructor (capacity: nat)
      requires capacity > 0
      ensures this.capacity == capacity && states == map[]
    {
      this.capacity, states := capacity, map[];
    }

    method Consume(key: nat, maximum: int, now: int) returns (allowed: bool)
      requires |states| <= capacity
      modifies this`states
      ensures (states, allowed) == ConsumeMemory(old(states), capacity, key, maximum, now)
      ensures |states| <= capacity
    {
      if key !in states && |states| >= capacity {
        var before, rest := states, states.Keys;
        while rest != {}
          invariant rest <= before.Keys
          invariant forall k :: k in states <==>
            k in before && (k in rest || before[k].windowStartedAt <= now < before[k].windowStartedAt + WINDOW)
          invariant forall k :: k in states ==> states[k] == before[k]
          decreases rest
        {
          var k :| k in rest;
          rest := rest - {k};
          if now < before[k].windowStartedAt || now - before[k].windowStartedAt >= WINDOW { states := states - {k}; }
        }
        assert states == Evicted(before, now);
        EvictedIsSmaller(before, now);
      }
      if key !in states && |states| >= capacity { return false; }
      var decision := Evaluate(Lookup(states, key), now, maximum);
      if decision.Err? || !decision.value.allowed { return false; }
      AddedSize(states, key, decision.value.state);
      states := states[key := decision.value.state];
      return true;
    }
  }

  lemma EvictedIsSmaller(states: Budgets, now: int)
    ensures |Evicted(states, now)| <= |states|
  {
    var kept := Evicted(states, now);
    assert kept.Keys <= states.Keys;
    SubsetSize(kept.Keys, states.Keys);
  }

  lemma {:induction false} SubsetSize(a: set<nat>, b: set<nat>)
    requires a <= b
    ensures |a| <= |b|
  {
    if a != {} {
      var x :| x in a;
      SubsetSize(a - {x}, b - {x});
    }
  }

  lemma AddedSize(states: Budgets, key: nat, b: Budget)
    ensures |states[key := b]| == if key in states then |states| else |states| + 1
  {
    assert states[key := b].Keys == states.Keys + {key};
  }

  /** The bounded store agrees with an unbounded one on every budget that still matters. */
  ghost predicate Covers(states: Budgets, unbounded: Budgets, now: int) {
    && (forall k :: k in states ==> k in unbounded && states[k] == unbounded[k])
    && forall k :: k in unbounded && Current(unbounded[k], now) ==> k in states
  }

  /** Whatever the bounded store allows, the unbounded one allows too, with the same charge; and the
      bounded store refuses otherwise only when it is full of current budgets. */
  lemma MemoryRefinesUnbounded(states: Budgets, unbounded: Budgets, capacity: nat, key: nat, maximum: int,
                               before: int, now: int)
    requires Covers(states, unbounded, before) && 0 <= before <= now
    requires forall k :: k in unbounded ==> ValidBudget(unbounded[k]) && unbounded[k].windowStartedAt <= before
    ensures var (after, allowed) := ConsumeMemory(states, capacity, key, maximum, now);
      var r := Evaluate(Lookup(unbounded, key), now, maximum);
      && (allowed ==> Allows(r) && Covers(after, unbounded[key := r.value.state], now))
      && (!allowed ==> Covers(after, unbounded, now) && (Allows(r) ==> Full(after, capacity, key)))
      && (forall k :: k in after && k != key && |states| >= capacity && key !in states ==> Current(after[k], now))
  {
    var roomy := Roomy(states, capacity, key, now);
    assert Covers(roomy, unbounded, now);
    assert Evaluate(Lookup(roomy, key), now, maximum) == Evaluate(Lookup(unbounded, key), now, maximum);
  }

  /** Calls to the bounded store, and those of one budget that it did not refuse for want of room. */
  datatype MemoryCall = MemoryCall(key: nat, time: int)

  function Considered(states: Budgets, capacity: nat, limit: nat -> int, calls: seq<MemoryCall>, key: nat): seq<Event>
    decreases calls
  {
    if calls == [] then []
    else
      var c := calls[0];
      var after := ConsumeMemory(states, capacity, c.key, limit(c.key), c.time).0;
      var rest := Considered(after, capacity, limit, calls[1..], key);
      if c.key == key && !Full(Roomy(states, capacity, c.key, c.time), capacity, c.key)
      then [Call(c.time)] + rest else rest
  }

  function MemoryAllowed(states: Budgets, capacity: nat, limit: nat -> int, calls: seq<MemoryCall>, key: nat): seq<int>
    decreases calls
  {
    if calls == [] then []
    else
      var c := calls[0];
      var (after, allowed) := ConsumeMemory(states, capacity, c.key, limit(c.key), c.time);
      var rest := MemoryAllowed(after, capacity, limit, calls[1..], key);
      if c.key == key && allowed then [c.time] + rest else rest
  }

  predicate TimesOrdered(now: int, calls: seq<MemoryCall>)
    decreases calls
  {
    calls == [] || (now <= calls[0].time && TimesOrdered(calls[0].time, calls[1..]))
  }

  lemma {:induction false} ConsideredOrdered(states: Budgets, capacity: nat, limit: nat -> int, calls: seq<MemoryCall>,
                                            key: nat, now: int, before: int)
    requires TimesOrdered(now, calls) && before <= now
    ensures Ordered(before, Considered(states, capacity, limit, calls, key))
    decreases calls
  {
    if calls != [] {
      var c := calls[0];
      var after := ConsumeMemory(states, capacity, c.key, limit(c.key), c.time).0;
      ConsideredOrdered(after, capacity, limit, calls[1..], key, c.time, c.time);
      ConsideredOrdered(after, capacity, limit, calls[1..], key, c.time, before);
      var rest := Considered(after, capacity, limit, calls[1..], key);
      assert ([Call(c.time)] + rest)[1..] == rest;
    }
  }

  ghost predicate Sound(states: Budgets, unbounded: Budgets, now: int) {
    && now >= 0 && Covers(states, unbounded, now)
    && forall k :: k in unbounded ==> ValidBudget(unbounded[k]) && unbounded[k].windowStartedAt <= now
  }

  /** The calls of one budget that the bounded store allows are those an unbounded store allows of the
      calls it had room to consider. */
  lemma {:induction false} MemoryIsAllowed(states: Budgets, unbounded: Budgets, capacity: nat, limit: nat -> int,
                                           calls: seq<MemoryCall>, key: nat, now: int)
    requires Sound(states, unbounded, now) && TimesOrdered(now, calls)
    ensures MemoryAllowed(states, capacity, limit, calls, key)
         == Allowed(Lookup(unbounded, key), Considered(states, capacity, limit, calls, key), limit(key))
    decreases calls
  {
    if calls != [] {
      var c := calls[0];
      var (after, allowed) := ConsumeMemory(states, capacity, c.key, limit(c.key), c.time);
      var r := Evaluate(Lookup(unbounded, c.key), c.time, limit(c.key));
      MemoryRefinesUnbounded(states, unbounded, capacity, c.key, limit(c.key), now, c.time);
      var grown := if allowed then unbounded[c.key := r.value.state] else unbounded;
      MemoryIsAllowed(after, grown, capacity, limit, calls[1..], key, c.time);
      var rest := Considered(after, capacity, limit, calls[1..], key);
      if c.key == key && !Full(Roomy(states, capacity, c.key, c.time), capacity, c.key) {
        assert ([Call(c.time)] + rest)[1..] == rest;
        assert allowed == Allows(r) by { ConsideredDecides(states, unbounded, capacity, key, limit(key), now, c.time); }
      }
    }
  }

  lemma ConsideredDecides(states: Budgets, unbounded: Budgets, capacity: nat, key: nat, maximum: int, before: int,
                          now: int)
    requires Sound(states, unbounded, before) && before <= now
    requires !Full(Roomy(states, capacity, key, now), capacity, key)
    ensures ConsumeMemory(states, capacity, key, maximum, now).1
         == Allows(Evaluate(Lookup(unbounded, key), now, maximum))
  {
    var roomy := Roomy(states, capacity, key, now);
    assert Covers(roomy, unbounded, now);
  }

  /** The bounded store keeps the window bound for every budget. */
  lemma MemoryWindowBound(capacity: nat, limit: nat -> int, calls: seq<MemoryCall>, key: nat, from: int)
    requires limit(key) > 0 && TimesOrdered(0, calls)
    ensures CountIn(MemoryAllowed(map[], capacity, limit, calls, key), from) <= 2 * limit(key) - 1
  {
    MemoryIsAllowed(map[], map[], capacity, limit, calls, key, 0);
    ConsideredOrdered(map[], capacity, limit, calls, key, 0, 0);
    WindowBound(Considered(map[], capacity, limit, calls, key), limit(key), from);
  }
}
