/**
  What a run of the GitHub ingestion pool hands out and counts.
 */
module PoolOutcomes {
  import opened Basics
  import opened Orchestrator

  // ---- The counters ----

  function Ends(o: Outcome): Step -> nat {
    (step: Step) => if step.Finish? && step.outcome == o then 1 else 0
  }

  function Accounting(step: Step): nat {
    if step.Account? then 1 else 0
  }

  /** The counters grow by what happened: one for each item that ended in the
      way it counts, and one for each item accounted for. */
  lemma {:induction false} CountersAreOutcomes(c: Config, s: State, steps: seq<Step>)
    requires Legal(c, s, steps)
    ensures var t := Run(c, s, steps);
      && t.stats.succeeded == s.stats.succeeded + Sum(steps, Ends(Succeeded))
      && t.stats.failed == s.stats.failed + Sum(steps, Ends(Failed))
      && t.stats.skipped == s.stats.skipped + Sum(steps, Ends(Skipped))
      && t.stats.processed == s.stats.processed + Sum(steps, Accounting)
    decreases |steps|
  {
    if steps == [] {
    } else {
      CountersAreOutcomes(c, Apply(c, s, steps[0]), steps[1..]);
      SumFront(steps, Ends(Succeeded));
      SumFront(steps, Ends(Failed));
      SumFront(steps, Ends(Skipped));
      SumFront(steps, Accounting);
    }
  }

  // ---- The order in which logins are handed out ----

  /** What is worth processing: each login stripped, and blank ones left out. */
  lemma {:induction false} RealIs(c: Config, before: seq<string>, login: string)
    ensures Real(c, before + [login]) == Real(c, before) + if c.strip(login) == "" then [] else [c.strip(login)]
    ensures Real(c, []) == []
  {
    if before == [] {
      assert before + [login] == [login] && [login][1..] == [];
    } else {
      RealIs(c, before[1..], login);
      assert (before + [login])[1..] == before[1..] + [login];
    }
  }

  function Names(queue: seq<Item>): seq<string> {
    if queue == [] then []
    else (if queue[0].Login? then [queue[0].name] else []) + Names(queue[1..])
  }

  lemma {:induction false} OneMoreQueued(queue: seq<Item>, x: Item)
    ensures Names(queue + [x]) == Names(queue) + if x.Login? then [x.name] else []
  {
    if queue == [] {
      assert queue + [x] == [x] && [x][1..] == [];
    } else {
      OneMoreQueued(queue[1..], x);
      assert (queue + [x])[1..] == queue[1..] + [x];
    }
  }

  /** The logins not yet handed out, in the order in which they will be. */
  function Ahead(c: Config, s: State): seq<string> {
    Names(s.queue) + (if s.producer.Putting? then [s.producer.login] else []) + Real(c, s.todo)
  }

  /** What a step hands out to a worker. */
  function HandedOut(s: State, step: Step): seq<string> {
    if step.Get? && s.queue != [] && s.queue[0].Login? then [s.queue[0].name] else []
  }

  lemma StepHandsOutInOrder(c: Config, s: State, step: Step)
    requires Enabled(c, s, step)
    ensures HandedOut(s, step) + Ahead(c, Apply(c, s, step)) == Ahead(c, s)
  {
    match step
    case Put => OneMoreQueued(s.queue, Login(s.producer.login));
    case PutSentinel => OneMoreQueued(s.queue, Sentinel);
    case Head =>
      if s.todo != [] {
        var login := c.strip(s.todo[0]);
        assert Real(c, s.todo) == (if login == "" then [] else [login]) + Real(c, s.todo[1..]);
      }
    case _ =>
  }

  function AllHandedOut(c: Config, s: State, steps: seq<Step>): seq<string>
    requires Legal(c, s, steps)
    decreases |steps|
  {
    if steps == [] then [] else HandedOut(s, steps[0]) + AllHandedOut(c, Apply(c, s, steps[0]), steps[1..])
  }

  lemma {:induction false} RunHandsOutInOrder(c: Config, s: State, steps: seq<Step>)
    requires Legal(c, s, steps)
    ensures AllHandedOut(c, s, steps) + Ahead(c, Run(c, s, steps)) == Ahead(c, s)
    decreases |steps|
  {
    if steps == [] {
    } else {
      StepHandsOutInOrder(c, s, steps[0]);
      RunHandsOutInOrder(c, Apply(c, s, steps[0]), steps[1..]);
    }
  }

  /** On every interleaving the workers are handed the logins in the order in
      which they were given: what was handed out and what lies ahead is, at any
      time, the input without its blank logins. */
  lemma FirstComeFirstServed(c: Config, logins: seq<string>, steps: seq<Step>)
    requires Legal(c, Start(c, logins), steps)
    ensures AllHandedOut(c, Start(c, logins), steps) + Ahead(c, Run(c, Start(c, logins), steps)) == Real(c, logins)
    ensures AllHandedOut(c, Start(c, logins), steps) <= Real(c, logins)
  {
    RunHandsOutInOrder(c, Start(c, logins), steps);
  }

  // ---- A pause ----

  function IsGetting(w: Worker): nat {
    if w.Getting? then 1 else 0
  }

  lemma PausedStep(c: Config, s: State, step: Step)
    requires Enabled(c, s, step) && !step.Operator? && c.tracked && s.signal == Pause
    ensures Apply(c, s, step).signal == Pause
    ensures |HandedOut(s, step)| + Sum(Apply(c, s, step).workers, IsGetting) <= Sum(s.workers, IsGetting)
  {
    if IsWorkerStep(step) {
      SumAfterUpdate(s.workers, step.w, Apply(c, s, step).workers[step.w], IsGetting);
    }
  }

  /** While the operator asks for a pause, at most one more login is handed out
      for each worker that is waiting for one, on every interleaving. */
  lemma {:induction false} PauseStopsTheWorkers(c: Config, s: State, steps: seq<Step>)
    requires Legal(c, s, steps) && c.tracked && s.signal == Pause && forall step :: step in steps ==> !step.Operator?
    ensures |AllHandedOut(c, s, steps)| + Sum(Run(c, s, steps).workers, IsGetting) <= Sum(s.workers, IsGetting)
    decreases |steps|
  {
    if steps == [] {
    } else {
      PausedStep(c, s, steps[0]);
      assert forall step :: step in steps[1..] ==> step in steps;
      PauseStopsTheWorkers(c, Apply(c, s, steps[0]), steps[1..]);
    }
  }

  /** A worker that looks at the signal stops for a cancel, waits out a pause,
      and otherwise goes on. */
  lemma CheckFollowsSignal(c: Config, s: State, w: nat)
    requires Enabled(c, s, Check(w))
    ensures var t := Apply(c, s, Check(w));
      && (t.workers[w].Exited? <==> s.signal.Cancel?) && (t.workers[w].Paused? <==> s.signal.Pause?)
      && (t.workers[w].Getting? <==> s.signal.NoSignal?) && t.cancelled == (s.cancelled || s.signal.Cancel?)
  {
  }
}
