/**
  The daily budget of the LinkedIn client.  The check and the spending are
  separated by awaits, so several workers may pass the check before any of
  them spends: the budget can be overshot, but only by what is in flight.
 */
module Budget {
  import opened Basics
  import RateLimiter

  datatype Config = Config(workers: nat, daily: real, cost: real)

  /** `InFlight`: past the check in `fetch_profile`, the response not yet seen. */
  datatype Worker = Idle | Started | InFlight | Stopped

  datatype State = State(workers: seq<Worker>, spent: real)

  datatype Step =
    | Take(w: nat)       // get a url; skip it if the budget is exhausted, else go on
    | CheckBudget(w: nat) // fetch_profile: give up if the budget is exhausted
    | Respond(w: nat)    // a response arrived: spend
    | Fail(w: nat)       // a timeout or an error: spend nothing
    | Stop(w: nat)       // the sentinel, or the end after an exception

  predicate Exhausted(c: Config, s: State) {
    s.spent >= c.daily
  }

  predicate Enabled(s: State, step: Step) {
    step.w < |s.workers| &&
    match step
    case Take(w) => s.workers[w].Idle?
    case CheckBudget(w) => s.workers[w].Started?
    case Respond(w) => s.workers[w].InFlight?
    case Fail(w) => s.workers[w].InFlight? || s.workers[w].Started?
    case Stop(w) => !s.workers[w].InFlight?
  }

  function Moved(s: State, w: nat, to: Worker): State
    requires w < |s.workers|
  {
    s.(workers := s.workers[w := to])
  }

  function Apply(c: Config, s: State, step: Step): State
    requires Enabled(s, step)
  {
    match step
    case Take(w) => if Exhausted(c, s) then s else Moved(s, w, Started)
    case CheckBudget(w) => Moved(s, w, if Exhausted(c, s) then Idle else InFlight)
    case Respond(w) => Moved(s, w, Idle).(spent := s.spent + c.cost)
    case Fail(w) => Moved(s, w, Idle)
    case Stop(w) => Moved(s, w, Stopped)
  }

  ghost predicate Legal(c: Config, s: State, steps: seq<Step>)
    decreases |steps|
  {
    steps == [] || (Enabled(s, steps[0]) && Legal(c, Apply(c, s, steps[0]), steps[1..]))
  }

  function Run(c: Config, s: State, steps: seq<Step>): State
    requires Legal(c, s, steps)
    decreases |steps|
  {
    if steps == [] then s else Run(c, Apply(c, s, steps[0]), steps[1..])
  }

  function Start(c: Config): State {
    State(seq(c.workers, _ => Idle), 0.0)
  }

  // ---- The bound ----

  function IsFlying(w: Worker): nat {
    if w.InFlight? then 1 else 0
  }

  function Flying(ws: seq<Worker>): nat {
    Sum(ws, IsFlying)
  }

  lemma {:induction false} FlyingAtMostAll(ws: seq<Worker>)
    ensures Flying(ws) <= |ws|
  {
    if ws == [] {
    } else {
      FlyingAtMostAll(ws[..|ws| - 1]);
    }
  }

  /** The price of `n` profiles, by addition. */
  function Price(n: nat, cost: real): real {
    if n == 0 then 0.0 else Price(n - 1, cost) + cost
  }

  lemma {:induction false} PriceIsProduct(n: nat, cost: real)
    ensures Price(n, cost) == n as real * cost
  {
    if n == 0 {
    } else {
      PriceIsProduct(n - 1, cost);
      var m := (n - 1) as real;
      assert n as real == m + 1.0;
      assert (m + 1.0) * cost == m * cost + cost;
    }
  }

  lemma {:induction false} PriceGrows(m: nat, n: nat, cost: real)
    requires m <= n && cost >= 0.0
    ensures Price(m, cost) <= Price(n, cost)
  {
    if m == n {
    } else {
      PriceGrows(m, n - 1, cost);
    }
  }

  /** What is spent plus what is in flight stays under the budget and one
      profile per worker, unless nothing was ever spent or started. */
  ghost predicate Bounded(c: Config, s: State) {
    && |s.workers| == c.workers && 0.0 <= s.spent
    && ((s.spent == 0.0 && Flying(s.workers) == 0)
        || s.spent + Price(Flying(s.workers), c.cost) < c.daily + Price(c.workers, c.cost))
  }

  lemma StepKeepsBounded(c: Config, s: State, step: Step)
    requires c.cost >= 0.0 && Bounded(c, s) && Enabled(s, step)
    ensures Bounded(c, Apply(c, s, step))
  {
    var after := Apply(c, s, step);
    SumAfterUpdate(s.workers, step.w, after.workers[step.w], IsFlying);
    FlyingAtMostAll(after.workers);
    PriceGrows(Flying(after.workers), c.workers, c.cost);
  }

  lemma {:induction false} RunKeepsBounded(c: Config, s: State, steps: seq<Step>)
    requires c.cost >= 0.0 && Bounded(c, s) && Legal(c, s, steps)
    ensures Bounded(c, Run(c, s, steps))
    decreases |steps|
  {
    if steps == [] {
    } else {
      StepKeepsBounded(c, s, steps[0]);
      RunKeepsBounded(c, Apply(c, s, steps[0]), steps[1..]);
    }
  }

  ghost predicate WithinBound(c: Config, spent: real) {
    spent < c.daily + c.workers as real * c.cost
  }

  lemma BoundedIsWithin(c: Config, s: State)
    requires c.cost >= 0.0 && Bounded(c, s)
    ensures s.spent == 0.0 || WithinBound(c, s.spent)
  {
    PriceGrows(0, Flying(s.workers), c.cost);
    PriceIsProduct(c.workers, c.cost);
  }

  /** On every interleaving the client spends nothing at all, or stays below
      the budget plus the price of one profile per worker. */
  lemma OvershootIsBounded(c: Config, steps: seq<Step>)
    requires c.cost >= 0.0 && Legal(c, Start(c), steps)
    ensures var s := Run(c, Start(c), steps); s.spent == 0.0 || WithinBound(c, s.spent)
  {
    SumOfEqual(Start(c).workers, Idle, IsFlying);
    RunKeepsBounded(c, Start(c), steps);
    BoundedIsWithin(c, Run(c, Start(c), steps));
  }

  /** The bound itself holds on every run exactly when it is positive. */
  lemma BoundHoldsExactlyWhenPositive(c: Config)
    requires c.cost >= 0.0
    ensures (forall steps :: Legal(c, Start(c), steps) ==> WithinBound(c, Run(c, Start(c), steps).spent))
            <==> 0.0 < c.daily + c.workers as real * c.cost
  {
    if 0.0 < c.daily + c.workers as real * c.cost {
      forall steps | Legal(c, Start(c), steps) ensures WithinBound(c, Run(c, Start(c), steps).spent) {
        OvershootIsBounded(c, steps);
      }
    } else {
      assert Legal(c, Start(c), []);
      assert !WithinBound(c, Run(c, Start(c), []).spent);
    }
  }

  // ---- Once the budget is exhausted ----

  ghost predicate NobodyStarts(s: State, t: State) {
    |t.workers| == |s.workers|
    && forall w :: 0 <= w < |s.workers| && (t.workers[w].Started? || t.workers[w].InFlight?) ==>
         s.workers[w].Started? || s.workers[w].InFlight?
  }

  /** An exhausted budget stays so: no idle worker starts a request any more,
      and only what is in flight is still spent. */
  lemma {:induction false} ExhaustedForGood(c: Config, s: State, steps: seq<Step>)
    requires c.cost >= 0.0 && Exhausted(c, s) && Legal(c, s, steps)
    ensures var t := Run(c, s, steps);
      && Exhausted(c, t) && NobodyStarts(s, t)
      && t.spent + Price(Flying(t.workers), c.cost) <= s.spent + Price(Flying(s.workers), c.cost)
    decreases |steps|
  {
    if steps == [] {
    } else {
      var next := Apply(c, s, steps[0]);
      SumAfterUpdate(s.workers, steps[0].w, next.workers[steps[0].w], IsFlying);
      PriceGrows(Flying(next.workers), Flying(s.workers), c.cost);
      ExhaustedForGood(c, next, steps[1..]);
    }
  }

  // ---- The bound cannot be lowered by the price of one profile ----

  lemma Then(c: Config, s: State, step: Step, steps: seq<Step>) returns (all: seq<Step>)
    requires Enabled(s, step) && Legal(c, Apply(c, s, step), steps)
    ensures Legal(c, s, all) && Run(c, s, all) == Run(c, Apply(c, s, step), steps)
  {
    all := [step] + steps;
    assert all[1..] == steps;
  }

  function AllBut(n: nat, k: nat, a: Worker, b: Worker): seq<Worker> {
    seq(n, i => if i < k then a else b)
  }

  /** `k` requests in flight are all answered. */
  lemma {:induction false} AllRespond(c: Config, k: nat, spent: real) returns (steps: seq<Step>)
    requires k <= c.workers
    ensures var s := State(AllBut(c.workers, k, InFlight, Idle), spent);
      Legal(c, s, steps) && Run(c, s, steps).spent == spent + Price(k, c.cost)
  {
    steps := [];
    if k > 0 {
      var s := State(AllBut(c.workers, k, InFlight, Idle), spent);
      steps := AllRespond(c, k - 1, spent + c.cost);
      assert Apply(c, s, Respond(k - 1)).workers == AllBut(c.workers, k - 1, InFlight, Idle);
      steps := Then(c, s, Respond(k - 1), steps);
    }
  }

  /** From `k` requests in flight and budget left, all workers pass the check
      before any response arrives. */
  lemma {:induction false} AllPassTheCheck(c: Config, k: nat, spent: real) returns (steps: seq<Step>)
    requires k <= c.workers && spent < c.daily
    ensures var s := State(AllBut(c.workers, k, InFlight, Idle), spent);
      Legal(c, s, steps) && Run(c, s, steps).spent == spent + Price(c.workers, c.cost)
    decreases c.workers - k
  {
    if k == c.workers {
      steps := AllRespond(c, k, spent);
    } else {
      var s := State(AllBut(c.workers, k, InFlight, Idle), spent);
      var taken := Apply(c, s, Take(k));
      var checked := Apply(c, taken, CheckBudget(k));
      assert checked.workers == AllBut(c.workers, k + 1, InFlight, Idle);
      steps := AllPassTheCheck(c, k + 1, spent);
      steps := Then(c, taken, CheckBudget(k), steps);
      steps := Then(c, s, Take(k), steps);
    }
  }

  /** While at least one more profile fits, one worker spends alone. */
  lemma {:induction false} SpendAlone(c: Config, spent: real, rounds: nat) returns (steps: seq<Step>)
    requires c.workers > 0 && c.cost > 0.0 && spent < c.daily <= spent + Price(rounds + 1, c.cost)
    ensures var s := State(AllBut(c.workers, 0, InFlight, Idle), spent);
      Legal(c, s, steps) && Run(c, s, steps).spent >= c.daily + Price(c.workers - 1, c.cost)
    decreases rounds
  {
    var s := State(AllBut(c.workers, 0, InFlight, Idle), spent);
    if spent + c.cost >= c.daily {
      steps := AllPassTheCheck(c, 0, spent);
    } else {
      var taken := Apply(c, s, Take(0));
      var checked := Apply(c, taken, CheckBudget(0));
      var spentOnce := Apply(c, checked, Respond(0));
      assert spentOnce.workers == AllBut(c.workers, 0, InFlight, Idle);
      steps := SpendAlone(c, spent + c.cost, rounds - 1);
      steps := Then(c, checked, Respond(0), steps);
      steps := Then(c, taken, CheckBudget(0), steps);
      steps := Then(c, s, Take(0), steps);
    }
  }

  /** Some run overshoots the budget by the price of all workers but one. */
  lemma OvershootIsReached(c: Config) returns (steps: seq<Step>)
    requires c.workers > 0 && c.cost > 0.0 && c.daily > 0.0
    ensures Legal(c, Start(c), steps)
    ensures Run(c, Start(c), steps).spent >= c.daily + (c.workers - 1) as real * c.cost
  {
    var rounds := EnoughRounds(c);
    assert Start(c).workers == AllBut(c.workers, 0, InFlight, Idle);
    steps := SpendAlone(c, 0.0, rounds);
    PriceIsProduct(c.workers - 1, c.cost);
  }

  lemma EnoughRounds(c: Config) returns (rounds: nat)
    requires c.cost > 0.0 && c.daily > 0.0
    ensures c.daily <= Price(rounds + 1, c.cost)
  {
    var q := c.daily / c.cost;
    assert q * c.cost == c.daily;
    rounds := q.Floor;
    PriceIsProduct(rounds + 1, c.cost);
    ScaleUp(q, (rounds + 1) as real, c.cost);
  }

  lemma ScaleUp(a: real, b: real, x: real)
    requires a <= b && x > 0.0
    ensures a * x <= b * x
  {
  }

  // ---- The client ----

  /** How a request ends: with a response, whatever its status, or without. */
  datatype Ending = Responded(found: bool) | NoResponse

  class Client {
    const daily: real
    const cost: real
    const rpm: nat
    var spent: real
    var requests: nat
    var windowStart: real
    var windowCount: nat

    constructor (daily: real, cost: real, rpm: nat, now: real)
      ensures this.daily == daily && this.cost == cost && this.rpm == rpm
      ensures spent == 0.0 && requests == 0 && windowStart == now && windowCount == 0
    {
      this.daily, this.cost, this.rpm := daily, cost, rpm;
      spent, requests, windowStart, windowCount := 0.0, 0, now, 0;
    }

    /** At most `rpm` requests, or one if that is zero, since the window began. */
    ghost predicate WithinRate()
      reads this
    {
      windowCount <= if rpm > 0 then rpm else 1
    }

    /** The limiter as seen by one caller that enters it at `now`. */
    ghost function Entered(now: real): RateLimiter.State
      reads this
    {
      var s := RateLimiter.State([RateLimiter.Awake], windowStart, windowCount, now);
      RateLimiter.Apply(rpm, s, RateLimiter.Enter(0, now))
    }

    /** `_rate_limit`, which reads the clock at `now` and, if it has to sleep,
        again at `woken`: for a caller alone these are the steps of the shared
        limiter. */
    method RateLimit(now: real, woken: real)
      requires WithinRate() && windowStart <= now
      requires woken >= if windowStart + 60.0 > now then windowStart + 60.0 else now
      modifies this`windowStart, this`windowCount
      ensures WithinRate() && windowCount >= 1
      ensures windowStart == old(windowStart) ==> windowCount == old(windowCount) + 1
      ensures windowStart != old(windowStart) ==> windowStart >= old(windowStart) + 60.0 && windowCount == 1
      ensures var entered, wake := old(Entered(now)), RateLimiter.Wake(0, woken);
        && (entered.callers[0].Awake? ==> windowStart == entered.windowStart && windowCount == entered.count)
        && (entered.callers[0].Asleep? ==>
              RateLimiter.Enabled(entered, wake)
              && windowStart == RateLimiter.Apply(rpm, entered, wake).windowStart
              && windowCount == RateLimiter.Apply(rpm, entered, wake).count)
    {
      var elapsed := now - windowStart;
      if elapsed >= 60.0 {
        windowStart := now;
        windowCount := 0;
      }
      if windowCount >= rpm {
        windowStart := if elapsed < 60.0 then woken else now;
        windowCount := 0;
      }
      windowCount := windowCount + 1;
    }

    /** `fetch_profile`, when nobody else uses the client meanwhile. */
    method FetchProfile(now: real, woken: real, ending: Ending) returns (found: bool)
      requires WithinRate() && windowStart <= now
      requires woken >= if windowStart + 60.0 > now then windowStart + 60.0 else now
      modifies this
      ensures WithinRate()
      ensures old(spent) >= daily ==> !found && spent == old(spent) && requests == old(requests)
      ensures old(spent) < daily ==> found == (ending == Responded(true))
      ensures spent == Alone(old(spent), daily, cost, ending)
      ensures requests == old(requests) + if old(spent) < daily && ending.Responded? then 1 else 0
    {
      if spent >= daily {
        return false;
      }
      RateLimit(now, woken);
      if ending.NoResponse? {
        return false;
      }
      spent := spent + cost;
      requests := requests + 1;
      return ending.found;
    }
  }

  function Alone(spent: real, daily: real, cost: real, ending: Ending): real {
    if spent < daily && ending.Responded? then spent + cost else spent
  }

  /** What the client spends on a request made alone is what the worker's
      steps of the state machine spend. */
  lemma AloneIsTwoSteps(c: Config, s: State, w: nat, ending: Ending)
    requires w < |s.workers| && s.workers[w].Started?
    ensures Enabled(s, CheckBudget(w))
    ensures var checked := Apply(c, s, CheckBudget(w));
      var last := if ending.Responded? then Respond(w) else Fail(w);
      if s.spent < c.daily
      then Enabled(checked, last)
           && Apply(c, checked, last) == Moved(s, w, Idle).(spent := Alone(s.spent, c.daily, c.cost, ending))
      else checked == Moved(s, w, Idle) && s.spent == Alone(s.spent, c.daily, c.cost, ending)
  {
    var checked := Apply(c, s, CheckBudget(w));
    assert checked.workers[w := Idle] == s.workers[w := Idle];
  }
}
