/**
  The rate limiter of the LinkedIn client, shared by several callers.
 */
module RateLimiter {
  import opened Basics

  // A caller that finds the window full sleeps until the window is over and
  // then begins a new one, whatever others did meanwhile: so more than
  // `rate_limit_rpm` requests can pass in a minute, but not more than that
  // number for each caller and once again.  What a caller does between two
  // awaits is one step.

  datatype Caller = Awake | Asleep(until: real)

  /** Times are in seconds; `clock` is the time of the last step. */
  datatype State = State(callers: seq<Caller>, windowStart: real, count: nat, clock: real)

  datatype Step =
    | Enter(w: nat, now: real)   // a caller enters `_rate_limit`
    | Wake(w: nat, now: real)    // its sleep is over

  function Start(n: nat, now: real): State {
    State(seq(n, _ => Awake), now, 0, now)
  }

  predicate Enabled(s: State, step: Step) {
    step.w < |s.callers| && step.now >= s.clock &&
    match step
    case Enter(w, _) => s.callers[w].Awake?
    case Wake(w, now) => s.callers[w].Asleep? && now >= s.callers[w].until
  }

  /** The window is over at `now`. */
  predicate IsOver(s: State, now: real) {
    now - s.windowStart >= 60.0
  }

  predicate Passes(rpm: nat, s: State, step: Step) {
    step.Wake? || IsOver(s, step.now) || s.count < rpm
  }

  function Apply(rpm: nat, s: State, step: Step): State
    requires Enabled(s, step)
  {
    match step
    case Enter(w, now) =>
      if IsOver(s, now) then State(s.callers, now, 1, now)
      else if s.count < rpm then s.(count := s.count + 1, clock := now)
      else s.(callers := s.callers[w := Asleep(now + (60.0 - (now - s.windowStart)))], clock := now)
    case Wake(w, now) => State(s.callers[w := Awake], now, 1, now)
  }

  ghost predicate Legal(rpm: nat, s: State, steps: seq<Step>)
    decreases |steps|
  {
    steps == [] || (Enabled(s, steps[0]) && Legal(rpm, Apply(rpm, s, steps[0]), steps[1..]))
  }

  function Run(rpm: nat, s: State, steps: seq<Step>): State
    requires Legal(rpm, s, steps)
    decreases |steps|
  {
    if steps == [] then s else Run(rpm, Apply(rpm, s, steps[0]), steps[1..])
  }

  /** The requests that pass the limiter. */
  function Passed(rpm: nat, s: State, steps: seq<Step>): nat
    requires Legal(rpm, s, steps)
    decreases |steps|
  {
    if steps == [] then 0
    else (if Passes(rpm, s, steps[0]) then 1 else 0) + Passed(rpm, Apply(rpm, s, steps[0]), steps[1..])
  }

  /** All steps are taken at `from` or later, and before `to`. */
  ghost predicate Between(steps: seq<Step>, from: real, to: real) {
    forall i :: 0 <= i < |steps| ==> from <= steps[i].now < to
  }

  // ---- The bound ----

  /** The length of a full window. */
  function Full(rpm: nat): nat {
    if rpm > 0 then rpm else 1
  }

  function WakesBefore(to: real): Caller -> nat {
    (c: Caller) => if c.Asleep? && c.until < to then 1 else 0
  }

  lemma {:induction false} SomeDoNotWake(cs: seq<Caller>, to: real)
    ensures Sum(cs, WakesBefore(to)) <= |cs|
    ensures (exists w :: 0 <= w < |cs| && cs[w].Awake?) ==> Sum(cs, WakesBefore(to)) < |cs|
  {
    if cs == [] {
    } else {
      SomeDoNotWake(cs[..|cs| - 1], to);
      if w :| 0 <= w < |cs| && cs[w].Awake? {
        assert w < |cs| - 1 ==> cs[..|cs| - 1][w].Awake?;
      }
    }
  }

  /** The windows that can still begin before `to`: as long as none began since
      `from`, one for each caller, and then one for each that wakes in time. */
  function Windows(s: State, from: real, to: real): nat {
    if s.windowStart < from then |s.callers| else Sum(s.callers, WakesBefore(to))
  }

  /** A step that begins a window uses one up, and no other step adds one. */
  lemma StepUsesWindow(rpm: nat, s: State, step: Step, from: real, to: real)
    requires Enabled(s, step) && from <= step.now < to <= from + 60.0
    ensures var t := Apply(rpm, s, step);
      if step.Wake? || IsOver(s, step.now) then t.count == 1 && Windows(t, from, to) < Windows(s, from, to)
      else Windows(t, from, to) <= Windows(s, from, to)
           && t.count == s.count + if Passes(rpm, s, step) then 1 else 0
  {
    var t := Apply(rpm, s, step);
    SumAfterUpdate(s.callers, step.w, t.callers[step.w], WakesBefore(to));
    SomeDoNotWake(t.callers, to);
  }

  /** The requests that can still pass, with `windows` more of `full`. */
  function Room(full: nat, count: nat, windows: nat): int {
    full - count + windows * full
  }

  lemma {:induction false} MoreWindows(full: nat, a: nat, b: nat)
    requires a <= b
    ensures a * full <= b * full && (a + 1) * full == a * full + full
    decreases b
  {
    assert (a + 1) * full == a * full + full;
    if a < b {
      MoreWindows(full, a, b - 1);
      assert b * full == (b - 1) * full + full;
    } else {
    }
  }

  lemma StepUsesRoom(rpm: nat, s: State, step: Step, from: real, to: real)
    requires Enabled(s, step) && s.count <= Full(rpm) && from <= step.now < to <= from + 60.0
    ensures var t := Apply(rpm, s, step);
      && t.count <= Full(rpm)
      && Room(Full(rpm), t.count, Windows(t, from, to)) + (if Passes(rpm, s, step) then 1 else 0)
         <= Room(Full(rpm), s.count, Windows(s, from, to))
  {
    StepUsesWindow(rpm, s, step, from, to);
    var before, after := Windows(s, from, to), Windows(Apply(rpm, s, step), from, to);
    MoreWindows(Full(rpm), after, before);
    if after < before {
      MoreWindows(Full(rpm), after + 1, before);
    }
  }

  lemma {:induction false} RunUsesRoom(rpm: nat, s: State, steps: seq<Step>, from: real, to: real)
    requires Legal(rpm, s, steps) && s.count <= Full(rpm) && Between(steps, from, to) && to <= from + 60.0
    ensures Run(rpm, s, steps).count <= Full(rpm)
    ensures Passed(rpm, s, steps) <= Room(Full(rpm), s.count, Windows(s, from, to))
    decreases |steps|
  {
    if steps == [] {
      MoreWindows(Full(rpm), 0, Windows(s, from, to));
    } else {
      StepUsesRoom(rpm, s, steps[0], from, to);
      RunUsesRoom(rpm, Apply(rpm, s, steps[0]), steps[1..], from, to);
    }
  }

  lemma {:induction false} CountIsWithin(rpm: nat, s: State, steps: seq<Step>)
    requires Legal(rpm, s, steps) && s.count <= Full(rpm)
    ensures Run(rpm, s, steps).count <= Full(rpm) && |Run(rpm, s, steps).callers| == |s.callers|
    decreases |steps|
  {
    if steps == [] {
    } else {
      CountIsWithin(rpm, Apply(rpm, s, steps[0]), steps[1..]);
    }
  }

  /** On every interleaving, at most `rate_limit_rpm` requests for each caller
      and once again pass within any 60 seconds. */
  lemma RateIsBounded(rpm: nat, n: nat, begin: real, before: seq<Step>, steps: seq<Step>, from: real, to: real)
    requires Legal(rpm, Start(n, begin), before) && Legal(rpm, Run(rpm, Start(n, begin), before), steps)
    requires Between(steps, from, to) && to <= from + 60.0
    ensures Passed(rpm, Run(rpm, Start(n, begin), before), steps) <= (n + 1) * Full(rpm)
  {
    var s := Run(rpm, Start(n, begin), before);
    CountIsWithin(rpm, Start(n, begin), before);
    RunUsesRoom(rpm, s, steps, from, to);
    SomeDoNotWake(s.callers, to);
    MoreWindows(Full(rpm), Windows(s, from, to), n);
    MoreWindows(Full(rpm), n, n);
  }

  // ---- The bound is reached ----

  lemma {:induction false} Append(rpm: nat, s: State, a: seq<Step>, b: seq<Step>)
    requires Legal(rpm, s, a) && Legal(rpm, Run(rpm, s, a), b)
    ensures Legal(rpm, s, a + b) && Run(rpm, s, a + b) == Run(rpm, Run(rpm, s, a), b)
    ensures Passed(rpm, s, a + b) == Passed(rpm, s, a) + Passed(rpm, Run(rpm, s, a), b)
    decreases |a|
  {
    if a == [] {
      assert a + b == b;
    } else {
      Append(rpm, Apply(rpm, s, a[0]), a[1..], b);
      assert (a + b)[1..] == a[1..] + b;
    }
  }

  lemma One(rpm: nat, s: State, step: Step)
    requires Enabled(s, step)
    ensures Legal(rpm, s, [step]) && Run(rpm, s, [step]) == Apply(rpm, s, step)
    ensures Passed(rpm, s, [step]) == if Passes(rpm, s, step) then 1 else 0
  {
    assert [step][1..] == [];
    assert Legal(rpm, Apply(rpm, s, step), []);
    assert Passed(rpm, Apply(rpm, s, step), []) == 0;
  }

  /** An awake caller uses up what is left of the window. */
  lemma {:induction false} Burst(rpm: nat, s: State, w: nat) returns (steps: seq<Step>)
    requires w < |s.callers| && s.callers[w].Awake? && !IsOver(s, s.clock) && s.count <= rpm
    ensures Legal(rpm, s, steps) && Run(rpm, s, steps) == s.(count := rpm)
    ensures Passed(rpm, s, steps) == rpm - s.count
    ensures forall i :: 0 <= i < |steps| ==> steps[i].now == s.clock
    decreases rpm - s.count
  {
    if s.count == rpm {
      steps := [];
    } else {
      var step := Enter(w, s.clock);
      One(rpm, s, step);
      var rest := Burst(rpm, Apply(rpm, s, step), w);
      Append(rpm, s, [step], rest);
      steps := [step] + rest;
    }
  }

  function FirstAre(n: nat, k: nat, a: Caller, b: Caller): seq<Caller> {
    seq(n, i => if i < k then a else b)
  }

  /** In a full window that began at 0, the callers from `k` on go to sleep. */
  lemma {:induction false} AllSleep(rpm: nat, n: nat, k: nat) returns (steps: seq<Step>)
    requires k <= n
    ensures var s := State(FirstAre(n, k, Asleep(60.0), Awake), 0.0, rpm, 1.0);
      && Legal(rpm, s, steps) && Run(rpm, s, steps) == s.(callers := FirstAre(n, n, Asleep(60.0), Awake))
      && Passed(rpm, s, steps) == 0
    ensures forall i :: 0 <= i < |steps| ==> steps[i].now == 1.0
    decreases n - k
  {
    var s := State(FirstAre(n, k, Asleep(60.0), Awake), 0.0, rpm, 1.0);
    if k == n {
      steps := [];
    } else {
      var step := Enter(k, 1.0);
      One(rpm, s, step);
      assert Apply(rpm, s, step).callers == FirstAre(n, k + 1, Asleep(60.0), Awake);
      var rest := AllSleep(rpm, n, k + 1);
      Append(rpm, s, [step], rest);
      steps := [step] + rest;
    }
  }

  /** At 60 the callers from `k` on wake one after the other, and each uses up
      the window it begins. */
  lemma {:induction false} AllWake(rpm: nat, s: State, n: nat, k: nat) returns (steps: seq<Step>)
    requires k <= n && rpm > 0 && s.callers == FirstAre(n, k, Awake, Asleep(60.0)) && s.clock <= 60.0
    ensures Legal(rpm, s, steps) && Passed(rpm, s, steps) == (n - k) * rpm
    ensures forall i :: 0 <= i < |steps| ==> steps[i].now == 60.0
    decreases n - k
  {
    if k == n {
      steps := [];
    } else {
      var wake := Wake(k, 60.0);
      One(rpm, s, wake);
      var woken := Apply(rpm, s, wake);
      assert woken.callers == FirstAre(n, k + 1, Awake, Asleep(60.0));
      var burst := Burst(rpm, woken, k);
      Append(rpm, s, [wake], burst);
      var rest := AllWake(rpm, woken.(count := rpm), n, k + 1);
      Append(rpm, s, [wake] + burst, rest);
      steps := [wake] + burst + rest;
      assert (n - k) * rpm == rpm + (n - k - 1) * rpm;
    }
  }

  /** Some run lets the bound pass, between the times 1 and 60. */
  lemma RateIsReached(rpm: nat, n: nat) returns (steps: seq<Step>)
    requires rpm > 0 && n > 0
    ensures Legal(rpm, Start(n, 0.0), steps) && Passed(rpm, Start(n, 0.0), steps) == (n + 1) * rpm
    ensures Between(steps, 1.0, 61.0)
  {
    var s := Start(n, 0.0);
    var first := Enter(0, 1.0);
    One(rpm, s, first);
    var begun := Apply(rpm, s, first);
    var burst := Burst(rpm, begun, 0);
    Append(rpm, s, [first], burst);
    var full := begun.(count := rpm);
    assert full == State(FirstAre(n, 0, Asleep(60.0), Awake), 0.0, rpm, 1.0);
    var sleep := AllSleep(rpm, n, 0);
    Append(rpm, s, [first] + burst, sleep);
    var asleep := Run(rpm, full, sleep);
    assert asleep.callers == FirstAre(n, 0, Awake, Asleep(60.0));
    var wake := AllWake(rpm, asleep, n, 0);
    Append(rpm, s, [first] + burst + sleep, wake);
    steps := [first] + burst + sleep + wake;
    assert (n + 1) * rpm == rpm + n * rpm;
  }

  /** From the start, after `before`, the steps fall within 60 seconds. */
  ghost predicate IsMinute(rpm: nat, n: nat, begin: real, before: seq<Step>, steps: seq<Step>, from: real) {
    && Legal(rpm, Start(n, begin), before) && Legal(rpm, Run(rpm, Start(n, begin), before), steps)
    && Between(steps, from, from + 60.0)
  }

  /** A number bounds what passes in any 60 seconds of any run exactly when it
      is at least `rate_limit_rpm` for each caller and once again. */
  lemma BoundIsExact(rpm: nat, n: nat, bound: nat)
    requires rpm > 0 && n > 0
    ensures (forall begin, before, steps, from :: IsMinute(rpm, n, begin, before, steps, from) ==>
               Passed(rpm, Run(rpm, Start(n, begin), before), steps) <= bound)
            <==> bound >= (n + 1) * rpm
  {
    if bound >= (n + 1) * rpm {
      forall begin, before, steps, from | IsMinute(rpm, n, begin, before, steps, from)
        ensures Passed(rpm, Run(rpm, Start(n, begin), before), steps) <= bound
      {
        RateIsBounded(rpm, n, begin, before, steps, from, from + 60.0);
      }
    } else {
      var steps := RateIsReached(rpm, n);
      assert Legal(rpm, Start(n, 0.0), []) && Run(rpm, Start(n, 0.0), []) == Start(n, 0.0);
      assert IsMinute(rpm, n, 0.0, [], steps, 1.0);
    }
  }
}
