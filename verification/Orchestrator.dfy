/**
  The GitHub ingestion pool: one producer, a bounded queue, and workers that
  stop at a sentinel.  A step is what happens between two awaits; any enabled
  step may come next, so a run is any interleaving.  Tracker calls do not
  raise; an item may end in any way.
 */
module Orchestrator {
  import opened Basics

  datatype Signal = NoSignal | Pause | Cancel

  datatype Item = Login(name: string) | Sentinel

  datatype Producer = AtHead | Putting(login: string) | Ended

  datatype Worker =
    | Getting | Busy(login: string) | Counted(login: string) | Checking | Paused
    | Exited(bySentinel: bool)

  datatype Outcome = Succeeded | Failed | Skipped

  datatype Stats = Stats(processed: nat, succeeded: nat, failed: nat, skipped: nat)

  /** `tracked` tells whether the run has a job tracker. */
  datatype Config = Config(workers: nat, strip: string -> string, tracked: bool)

  /** `unsent` counts the sentinels that `run` has yet to put. */
  datatype State = State(
    todo: seq<string>, producer: Producer, unsent: nat, queue: seq<Item>, workers: seq<Worker>,
    done: seq<string>, stats: Stats, signal: Signal, cancelled: bool)

  datatype Step =
    | Head | Put | PutSentinel
    | Get(w: nat) | Finish(w: nat, outcome: Outcome) | Account(w: nat) | Check(w: nat)
    | Operator(signal: Signal)

  function Capacity(c: Config): nat {
    c.workers * 4
  }

  function Start(c: Config, logins: seq<string>): State {
    State(logins, AtHead, c.workers, [], seq(c.workers, _ => Getting), [], Stats(0, 0, 0, 0), NoSignal, false)
  }

  predicate Enabled(c: Config, s: State, step: Step) {
    match step
    case Head => s.producer.AtHead?
    case Put => s.producer.Putting? && |s.queue| < Capacity(c)
    case PutSentinel => s.producer.Ended? && s.unsent > 0 && |s.queue| < Capacity(c)
    case Get(w) => w < |s.workers| && s.workers[w].Getting? && s.queue != []
    case Finish(w, _) => w < |s.workers| && s.workers[w].Busy?
    case Account(w) => w < |s.workers| && s.workers[w].Counted?
    case Check(w) =>
      w < |s.workers| && (s.workers[w].Checking? || (s.workers[w].Paused? && s.signal != Pause))
    case Operator(_) => true
  }

  function Tally(stats: Stats, o: Outcome): Stats {
    match o
    case Succeeded => stats.(succeeded := stats.succeeded + 1)
    case Failed => stats.(failed := stats.failed + 1)
    case Skipped => stats.(skipped := stats.skipped + 1)
  }

  function Apply(c: Config, s: State, step: Step): State
    requires Enabled(c, s, step)
  {
    match step
    case Head =>
      if s.cancelled || s.todo == [] then s.(producer := Ended)
      else
        var login := c.strip(s.todo[0]);
        s.(todo := s.todo[1..], producer := if login == "" then AtHead else Putting(login))
    case Put => s.(producer := AtHead, queue := s.queue + [Login(s.producer.login)])
    case PutSentinel => s.(unsent := s.unsent - 1, queue := s.queue + [Sentinel])
    case Get(w) =>
      var next := if s.queue[0].Sentinel? then Exited(true) else Busy(s.queue[0].name);
      s.(queue := s.queue[1..], workers := s.workers[w := next])
    case Finish(w, o) =>
      s.(stats := Tally(s.stats, o), workers := s.workers[w := Counted(s.workers[w].login)])
    case Account(w) =>
      s.(stats := s.stats.(processed := s.stats.processed + 1),
         done := s.done + [s.workers[w].login],
         workers := s.workers[w := if c.tracked then Checking else Getting])
    case Check(w) =>
      if s.signal == Cancel then s.(cancelled := true, workers := s.workers[w := Exited(false)])
      else s.(workers := s.workers[w := if s.signal == Pause then Paused else Getting])
    case Operator(signal) => s.(signal := signal)
  }

  ghost predicate Legal(c: Config, s: State, steps: seq<Step>)
    decreases |steps|
  {
    steps == [] || (Enabled(c, s, steps[0]) && Legal(c, Apply(c, s, steps[0]), steps[1..]))
  }

  function Run(c: Config, s: State, steps: seq<Step>): State
    requires Legal(c, s, steps)
    decreases |steps|
  {
    if steps == [] then s else Run(c, Apply(c, s, steps[0]), steps[1..])
  }

  // ---- Counting ----

  function TookSentinel(w: Worker): nat {
    if w == Exited(true) then 1 else 0
  }

  function IsCounted(w: Worker): nat {
    if w.Counted? then 1 else 0
  }

  function Holding(login: string): Worker -> nat {
    (w: Worker) => if (w.Busy? || w.Counted?) && w.login == login then 1 else 0
  }

  function Is(login: string): string -> nat {
    (x: string) => if x == login then 1 else 0
  }

  function Occurrences(xs: seq<string>, login: string): nat {
    Sum(xs, Is(login))
  }

  /** The logins worth processing: stripped, without the blank ones. */
  function Real(c: Config, logins: seq<string>): seq<string> {
    if logins == [] then []
    else
      var login := c.strip(logins[0]);
      if login == "" then Real(c, logins[1..]) else [login] + Real(c, logins[1..])
  }

  function IsSentinel(x: Item): nat {
    if x.Sentinel? then 1 else 0
  }

  function Naming(login: string): Item -> nat {
    (x: Item) => if x == Login(login) then 1 else 0
  }

  // ---- The invariant ----

  /** How often a login is waiting in the producer, queued, in flight and done. */
  function Whereabouts(c: Config, s: State, login: string): nat {
    Occurrences(Real(c, s.todo), login)
    + (if s.producer == Putting(login) then 1 else 0)
    + Sum(s.queue, Naming(login))
    + Sum(s.workers, Holding(login))
    + Occurrences(s.done, login)
  }

  ghost predicate SentinelsLast(s: State) {
    && (forall i, j :: 0 <= i < j < |s.queue| && s.queue[i].Sentinel? ==> s.queue[j].Sentinel?)
    && (forall i :: 0 <= i < |s.queue| && s.queue[i].Sentinel? ==> s.producer.Ended?)
    && (forall w :: 0 <= w < |s.workers| && s.workers[w] == Exited(true) ==> s.producer.Ended?)
    && (forall w, i :: 0 <= w < |s.workers| && s.workers[w] == Exited(true) && 0 <= i < |s.queue| ==>
          s.queue[i].Sentinel?)
    && (s.producer.Ended? && !s.cancelled ==> s.todo == [])
    && (!s.cancelled ==> forall w :: 0 <= w < |s.workers| ==> s.workers[w] != Exited(false))
  }

  predicate Accounts(c: Config, s: State) {
    && |s.workers| == c.workers
    && s.unsent + Sum(s.queue, IsSentinel) + Sum(s.workers, TookSentinel) == c.workers
    && s.stats.processed == |s.done|
    && s.stats.succeeded + s.stats.failed + s.stats.skipped == |s.done| + Sum(s.workers, IsCounted)
  }

  ghost predicate Valid(c: Config, s: State) {
    SentinelsLast(s) && Accounts(c, s)
  }

  lemma StartIsValid(c: Config, logins: seq<string>, login: string)
    ensures Valid(c, Start(c, logins))
    ensures Whereabouts(c, Start(c, logins), login) == Occurrences(Real(c, logins), login)
  {
    var ws := Start(c, logins).workers;
    SumOfEqual(ws, Getting, TookSentinel);
    SumOfEqual(ws, Getting, IsCounted);
    SumOfEqual(ws, Getting, Holding(login));
  }

  predicate IsWorkerStep(step: Step) {
    step.Get? || step.Finish? || step.Account? || step.Check?
  }

  lemma ProducerKeepsWhereabouts(c: Config, s: State, step: Step, login: string)
    requires Enabled(c, s, step) && !IsWorkerStep(step)
    ensures Whereabouts(c, Apply(c, s, step), login) == Whereabouts(c, s, login)
  {
    if step.Head? && !s.cancelled && s.todo != [] && c.strip(s.todo[0]) != "" {
      SumFront(Real(c, s.todo), Is(login));
      assert Real(c, s.todo)[1..] == Real(c, s.todo[1..]);
    } else if step.Put? {
      SumAfterAppend(s.queue, Login(s.producer.login), Naming(login));
    } else if step.PutSentinel? {
      SumAfterAppend(s.queue, Sentinel, Naming(login));
    }
  }

  lemma GetKeepsWhereabouts(c: Config, s: State, w: nat, login: string)
    requires Enabled(c, s, Get(w))
    ensures Whereabouts(c, Apply(c, s, Get(w)), login) == Whereabouts(c, s, login)
  {
    SumAfterUpdate(s.workers, w, Apply(c, s, Get(w)).workers[w], Holding(login));
    SumFront(s.queue, Naming(login));
  }

  lemma WorkerKeepsWhereabouts(c: Config, s: State, step: Step, login: string)
    requires Enabled(c, s, step) && IsWorkerStep(step)
    ensures Whereabouts(c, Apply(c, s, step), login) == Whereabouts(c, s, login)
  {
    if step.Get? {
      GetKeepsWhereabouts(c, s, step.w, login);
    } else {
      SumAfterUpdate(s.workers, step.w, Apply(c, s, step).workers[step.w], Holding(login));
      SumAfterAppend(s.done, HeldBy(s.workers[step.w]), Is(login));
    }
  }

  function HeldBy(w: Worker): string {
    if w.Busy? || w.Counted? then w.login else ""
  }

  lemma WorkerKeepsAccounts(c: Config, s: State, step: Step)
    requires Accounts(c, s) && Enabled(c, s, step) && IsWorkerStep(step)
    ensures Accounts(c, Apply(c, s, step))
  {
    var next := Apply(c, s, step).workers[step.w];
    SumAfterUpdate(s.workers, step.w, next, TookSentinel);
    SumAfterUpdate(s.workers, step.w, next, IsCounted);
    if step.Get? {
      SumFront(s.queue, IsSentinel);
    }
  }

  lemma ProducerKeepsSentinelsLast(c: Config, s: State, step: Step)
    requires SentinelsLast(s) && Enabled(c, s, step) && !IsWorkerStep(step)
    ensures SentinelsLast(Apply(c, s, step))
  {
  }

  lemma WorkerKeepsSentinelsLast(c: Config, s: State, step: Step)
    requires SentinelsLast(s) && Enabled(c, s, step) && IsWorkerStep(step)
    ensures SentinelsLast(Apply(c, s, step))
  {
    if step.Get? {
      var queue := s.queue[1..];
      assert forall i :: 0 <= i < |queue| ==> queue[i] == s.queue[i + 1];
    }
  }

  lemma StepKeepsValid(c: Config, s: State, step: Step, login: string)
    requires Valid(c, s) && Enabled(c, s, step)
    ensures Valid(c, Apply(c, s, step))
    ensures Whereabouts(c, Apply(c, s, step), login) == Whereabouts(c, s, login)
  {
    if IsWorkerStep(step) {
      WorkerKeepsWhereabouts(c, s, step, login);
      WorkerKeepsAccounts(c, s, step);
      WorkerKeepsSentinelsLast(c, s, step);
    } else {
      ProducerKeepsWhereabouts(c, s, step, login);
      ProducerKeepsSentinelsLast(c, s, step);
    }
  }

  lemma {:induction false} RunKeepsValid(c: Config, s: State, steps: seq<Step>, login: string)
    requires Valid(c, s) && Legal(c, s, steps)
    ensures Valid(c, Run(c, s, steps))
    ensures Whereabouts(c, Run(c, s, steps), login) == Whereabouts(c, s, login)
    decreases |steps|
  {
    if steps == [] {
    } else {
      StepKeepsValid(c, s, steps[0], login);
      RunKeepsValid(c, Apply(c, s, steps[0]), steps[1..], login);
    }
  }

  // ---- Safety ----

  /** On every interleaving, even under pause and cancel, a login is waiting,
      queued, in flight and done exactly as often as it was given; so none is
      lost, and none is handled more often than it was given. */
  lemma NoLoginIsLostOrRepeated(c: Config, logins: seq<string>, steps: seq<Step>, login: string)
    requires Legal(c, Start(c, logins), steps)
    ensures Whereabouts(c, Run(c, Start(c, logins), steps), login) == Occurrences(Real(c, logins), login)
    ensures Occurrences(Run(c, Start(c, logins), steps).done, login) <= Occurrences(Real(c, logins), login)
  {
    StartIsValid(c, logins, login);
    RunKeepsValid(c, Start(c, logins), steps, login);
  }

  ghost predicate AllExited(s: State) {
    forall w :: 0 <= w < |s.workers| ==> s.workers[w].Exited?
  }

  /** The point at which `run` returns. */
  ghost predicate Finished(s: State) {
    s.producer.Ended? && s.unsent == 0 && AllExited(s)
  }

  lemma {:induction false} OccurrencesAreMultiplicity(xs: seq<string>, login: string)
    ensures multiset(xs)[login] == Occurrences(xs, login)
  {
    if xs == [] {
    } else {
      var n := |xs| - 1;
      OccurrencesAreMultiplicity(xs[..n], login);
      assert xs == xs[..n] + [xs[n]];
    }
  }

  /** Once every worker took a sentinel, nothing waits anywhere. */
  lemma AllTookSentinel(c: Config, s: State)
    requires c.workers > 0 && Valid(c, s) && !s.cancelled && AllExited(s)
    ensures s.queue == [] && s.todo == [] && s.unsent == 0 && Sum(s.workers, IsCounted) == 0
    ensures s.producer.Ended? && forall w :: 0 <= w < |s.workers| ==> s.workers[w] == Exited(true)
  {
    SumOfEqual(s.workers, Exited(true), TookSentinel);
    SumOfEqual(s.workers, Exited(true), IsCounted);
    assert s.workers[0] == Exited(true);
    SumOfEqual(s.queue, Sentinel, IsSentinel);
  }

  /** Without a cancel, when the run returns every worker took one sentinel,
      and every non-blank login was processed and counted exactly once. */
  lemma NothingIsLeft(c: Config, logins: seq<string>, steps: seq<Step>)
    requires c.workers > 0 && Legal(c, Start(c, logins), steps)
    requires var s := Run(c, Start(c, logins), steps); !s.cancelled && Finished(s)
    ensures var s := Run(c, Start(c, logins), steps);
      && s.queue == [] && s.todo == []
      && (forall w :: 0 <= w < |s.workers| ==> s.workers[w] == Exited(true))
      && multiset(s.done) == multiset(Real(c, logins))
      && s.stats.processed == |Real(c, logins)| == s.stats.succeeded + s.stats.failed + s.stats.skipped
  {
    var s := Run(c, Start(c, logins), steps);
    StartIsValid(c, logins, "");
    RunKeepsValid(c, Start(c, logins), steps, "");
    AllTookSentinel(c, s);
    forall login: string ensures multiset(s.done)[login] == multiset(Real(c, logins))[login] {
      NoLoginIsLostOrRepeated(c, logins, steps, login);
      SumOfEqual(s.workers, Exited(true), Holding(login));
      OccurrencesAreMultiplicity(s.done, login);
      OccurrencesAreMultiplicity(Real(c, logins), login);
    }
    assert multiset(s.done) == multiset(Real(c, logins));
    assert |multiset(s.done)| == |multiset(Real(c, logins))|;
  }

  // ---- Progress ----

  ghost predicate Stuck(c: Config, s: State) {
    forall step :: Enabled(c, s, step) ==> step.Operator?
  }

  ghost predicate WaitsForOperator(s: State) {
    s.signal == Pause && exists w :: 0 <= w < |s.workers| && s.workers[w].Paused?
  }

  /** The queue is full and nobody is left to empty it. */
  ghost predicate PutBlocksForever(c: Config, s: State) {
    && AllExited(s) && |s.queue| >= Capacity(c)
    && (s.producer.Putting? || (s.producer.Ended? && s.unsent > 0))
  }

  /** No deadlock without a cancel: a run that cannot go on has returned, or a
      worker waits for the operator to lift a pause, or, only after a cancel,
      the producer side is blocked on a full queue that no worker reads. */
  lemma OnlyCancelCanBlock(c: Config, s: State)
    requires c.workers > 0 && Valid(c, s) && Stuck(c, s) && !Finished(s)
    ensures WaitsForOperator(s) || (s.cancelled && PutBlocksForever(c, s))
  {
    assert !Enabled(c, s, Head) && !Enabled(c, s, Put) && !Enabled(c, s, PutSentinel);
    if !WaitsForOperator(s) {
      forall w | 0 <= w < |s.workers| ensures s.workers[w].Exited? || (s.workers[w].Getting? && s.queue == []) {
        assert !Enabled(c, s, Get(w)) && !Enabled(c, s, Finish(w, Failed));
        assert !Enabled(c, s, Account(w)) && !Enabled(c, s, Check(w));
      }
      if s.queue == [] {
        EmptyQueueMeansAllExited(c, s);
      } else if !s.cancelled {
        AllTookSentinel(c, s);
      }
    }
  }

  /** The same for every run. */
  lemma NoDeadlock(c: Config, logins: seq<string>, steps: seq<Step>)
    requires c.workers > 0 && Legal(c, Start(c, logins), steps)
    ensures var s := Run(c, Start(c, logins), steps);
      Stuck(c, s) && !s.cancelled && !WaitsForOperator(s) ==> Finished(s)
  {
    StartIsValid(c, logins, "");
    RunKeepsValid(c, Start(c, logins), steps, "");
    var s := Run(c, Start(c, logins), steps);
    if Stuck(c, s) && !Finished(s) {
      OnlyCancelCanBlock(c, s);
    }
  }

  /** With nothing queued and nothing left to send, all sentinels were taken. */
  lemma EmptyQueueMeansAllExited(c: Config, s: State)
    requires Accounts(c, s) && s.queue == [] && s.unsent == 0
    ensures AllExited(s)
  {
    forall w | 0 <= w < |s.workers| ensures s.workers[w] == Exited(true) {
      if s.workers[w] != Exited(true) {
        TooFewSentinels(s.workers, w);
      }
    }
  }

  lemma {:induction false} TooFewSentinels(ws: seq<Worker>, w: nat)
    requires w < |ws| && ws[w] != Exited(true)
    ensures Sum(ws, TookSentinel) < |ws|
  {
    var n := |ws| - 1;
    if w < n {
      TooFewSentinels(ws[..n], w);
    } else {
      AtMostOneEach(ws[..n]);
    }
  }

  lemma {:induction false} AtMostOneEach(ws: seq<Worker>)
    ensures Sum(ws, TookSentinel) <= |ws|
  {
    if ws == [] {
    } else {
      AtMostOneEach(ws[..|ws| - 1]);
    }
  }

  // ---- Termination ----

  function Rank(w: Worker): nat {
    match w
    case Busy(_) => 5
    case Counted(_) => 4
    case Checking => 3
    case Paused => 2
    case Getting => 1
    case Exited(_) => 0
  }

  function ItemRank(x: Item): nat {
    if x.Login? then 6 else 2
  }

  /** How much work is left, in steps. */
  function Work(s: State): nat {
    8 * |s.todo| + (match s.producer case AtHead => 1 case Putting(_) => 8 case Ended => 0)
    + 3 * s.unsent + Sum(s.queue, ItemRank) + Sum(s.workers, Rank)
  }

  lemma WorkerDoesWork(c: Config, s: State, step: Step)
    requires Enabled(c, s, step) && IsWorkerStep(step)
    ensures Work(Apply(c, s, step)) < Work(s)
  {
    SumAfterUpdate(s.workers, step.w, Apply(c, s, step).workers[step.w], Rank);
    if step.Get? {
      SumFront(s.queue, ItemRank);
    }
  }

  lemma StepDoesWork(c: Config, s: State, step: Step)
    requires Enabled(c, s, step)
    ensures step.Operator? ==> Work(Apply(c, s, step)) == Work(s)
    ensures !step.Operator? ==> Work(Apply(c, s, step)) < Work(s)
  {
    if IsWorkerStep(step) {
      WorkerDoesWork(c, s, step);
    } else if step.Put? {
      SumAfterAppend(s.queue, Login(s.producer.login), ItemRank);
    } else if step.PutSentinel? {
      SumAfterAppend(s.queue, Sentinel, ItemRank);
    }
  }

  function SystemSteps(steps: seq<Step>): nat {
    if steps == [] then 0 else SystemSteps(steps[1..]) + (if steps[0].Operator? then 0 else 1)
  }

  /** Every run is finite, whatever the operator does: the pool takes at most
      this many steps of its own. */
  lemma {:induction false} RunsAreBounded(c: Config, s: State, steps: seq<Step>)
    requires Legal(c, s, steps)
    ensures SystemSteps(steps) + Work(Run(c, s, steps)) <= Work(s)
    decreases |steps|
  {
    if steps == [] {
    } else {
      StepDoesWork(c, s, steps[0]);
      RunsAreBounded(c, Apply(c, s, steps[0]), steps[1..]);
    }
  }

  lemma StepBound(c: Config, logins: seq<string>, steps: seq<Step>)
    requires Legal(c, Start(c, logins), steps)
    ensures SystemSteps(steps) <= 8 * |logins| + 4 * c.workers + 1
  {
    SumOfEqual(Start(c, logins).workers, Getting, Rank);
    RunsAreBounded(c, Start(c, logins), steps);
  }

  // ---- When a run can hang ----

  /** Nothing but operator requests can happen any more, `run` has not
      returned, and no operator request can help. */
  ghost predicate Hung(c: Config, s: State) {
    Stuck(c, s) && !Finished(s) && !WaitsForOperator(s)
  }

  ghost predicate Reaches(c: Config, s: State, t: State) {
    exists steps :: Legal(c, s, steps) && Run(c, s, steps) == t
  }

  lemma {:induction false} RunsJoin(c: Config, s: State, a: seq<Step>, b: seq<Step>)
    requires Legal(c, s, a) && Legal(c, Run(c, s, a), b)
    ensures Legal(c, s, a + b) && Run(c, s, a + b) == Run(c, Run(c, s, a), b)
    decreases |a|
  {
    if a == [] {
      assert a + b == b;
    } else {
      RunsJoin(c, Apply(c, s, a[0]), a[1..], b);
      assert (a + b)[1..] == a[1..] + b;
    }
  }

  lemma Stay(c: Config, s: State)
    ensures Reaches(c, s, s)
  {
    assert Legal(c, s, []) && Run(c, s, []) == s;
  }

  lemma Chain(c: Config, s: State, t: State, u: State)
    requires Reaches(c, s, t) && Reaches(c, t, u)
    ensures Reaches(c, s, u)
  {
    var a :| Legal(c, s, a) && Run(c, s, a) == t;
    var b :| Legal(c, t, b) && Run(c, t, b) == u;
    RunsJoin(c, s, a, b);
  }

  lemma OneStep(c: Config, s: State, step: Step)
    requires Enabled(c, s, step)
    ensures Reaches(c, s, Apply(c, s, step))
  {
    assert Legal(c, Apply(c, s, step), []);
    assert [step][1..] == [];
    assert Legal(c, s, [step]) && Run(c, s, [step]) == Run(c, Apply(c, s, step), []);
  }

  lemma AndStep(c: Config, s: State, t: State, step: Step)
    requires Reaches(c, s, t) && Enabled(c, t, step)
    ensures Reaches(c, s, Apply(c, t, step))
  {
    OneStep(c, t, step);
    Chain(c, s, t, Apply(c, t, step));
  }

  // ---- A hang needs more logins than the queue has places ----

  function InFlight(w: Worker): nat {
    if w.Busy? || w.Counted? then 1 else 0
  }

  /** The worker has finished an item and took no sentinel. */
  function PastOne(w: Worker): nat {
    if w.Checking? || w.Paused? || w == Exited(false) then 1 else 0
  }

  function IsLogin(x: Item): nat {
    if x.Login? then 1 else 0
  }

  /** The logins the producer still has to put. */
  function Left(c: Config, s: State): nat {
    |Real(c, s.todo)| + if s.producer.Putting? then 1 else 0
  }

  ghost predicate Traced(c: Config, s: State, total: nat) {
    && total == Left(c, s) + Sum(s.queue, IsLogin) + Sum(s.workers, InFlight) + |s.done|
    && Sum(s.workers, PastOne) <= |s.done|
    && (s.cancelled ==> c.tracked)
    && (forall w :: 0 <= w < |s.workers| && (s.workers[w].Checking? || s.workers[w].Paused?) ==> c.tracked)
  }

  lemma GetKeepsTraced(c: Config, s: State, w: nat, total: nat)
    requires Traced(c, s, total) && Enabled(c, s, Get(w))
    ensures Traced(c, Apply(c, s, Get(w)), total)
  {
    var next := Apply(c, s, Get(w)).workers[w];
    SumAfterUpdate(s.workers, w, next, InFlight);
    SumAfterUpdate(s.workers, w, next, PastOne);
    SumFront(s.queue, IsLogin);
  }

  lemma WorkerKeepsTraced(c: Config, s: State, step: Step, total: nat)
    requires Traced(c, s, total) && Enabled(c, s, step) && IsWorkerStep(step)
    ensures Traced(c, Apply(c, s, step), total)
  {
    if step.Get? {
      GetKeepsTraced(c, s, step.w, total);
    } else {
      var next := Apply(c, s, step).workers[step.w];
      SumAfterUpdate(s.workers, step.w, next, InFlight);
      SumAfterUpdate(s.workers, step.w, next, PastOne);
    }
  }

  lemma StepKeepsTraced(c: Config, s: State, step: Step, total: nat)
    requires Traced(c, s, total) && Enabled(c, s, step)
    ensures Traced(c, Apply(c, s, step), total)
  {
    if IsWorkerStep(step) {
      WorkerKeepsTraced(c, s, step, total);
    }
  }

  lemma {:induction false} RunKeepsTraced(c: Config, s: State, steps: seq<Step>, total: nat)
    requires Traced(c, s, total) && Legal(c, s, steps)
    ensures Traced(c, Run(c, s, steps), total)
    decreases |steps|
  {
    if steps == [] {
    } else {
      StepKeepsTraced(c, s, steps[0], total);
      RunKeepsTraced(c, Apply(c, s, steps[0]), steps[1..], total);
    }
  }

  lemma {:induction false} ItemsAreEither(queue: seq<Item>)
    ensures Sum(queue, IsLogin) + Sum(queue, IsSentinel) == |queue|
  {
    if queue == [] {
    } else {
      ItemsAreEither(queue[..|queue| - 1]);
    }
  }

  lemma {:induction false} ExitsAreEither(ws: seq<Worker>)
    requires forall i :: 0 <= i < |ws| ==> ws[i].Exited?
    ensures Sum(ws, TookSentinel) + Sum(ws, PastOne) == |ws|
  {
    if ws == [] {
    } else {
      ExitsAreEither(ws[..|ws| - 1]);
    }
  }

  /** Every worker that stopped for a cancel has finished an item, and what is
      missing of the sentinels is still to be put. */
  lemma HangNeedsLogins(c: Config, s: State, total: nat)
    requires c.workers > 0 && Valid(c, s) && Traced(c, s, total) && Hung(c, s)
    ensures c.tracked && total > Capacity(c)
  {
    OnlyCancelCanBlock(c, s);
    ItemsAreEither(s.queue);
    ExitsAreEither(s.workers);
  }

  lemma StartIsTraced(c: Config, logins: seq<string>)
    ensures Traced(c, Start(c, logins), |Real(c, logins)|)
  {
    var ws := Start(c, logins).workers;
    SumOfEqual(ws, Getting, InFlight);
    SumOfEqual(ws, Getting, PastOne);
  }

  // ---- With that many logins some run hangs ----

  predicate Feeds(c: Config, s: State) {
    !s.cancelled && (s.producer.Ended? ==> s.todo == []) && |s.queue| <= Capacity(c)
  }

  /** What the producer side still has to put, sentinels included. */
  function ToPut(c: Config, s: State): nat {
    Left(c, s) + s.unsent
  }

  /** From `s` to `t` the producer side put items into the queue: logins, as
      long as there were any. */
  ghost predicate Fed(c: Config, s: State, t: State) {
    && t == s.(todo := t.todo, producer := t.producer, unsent := t.unsent, queue := t.queue)
    && Feeds(c, t) && s.queue <= t.queue
    && ToPut(c, t) + |t.queue| == ToPut(c, s) + |s.queue|
    && (s.producer.Ended? ==> t.producer.Ended?)
    && (t.producer.Ended? || t.unsent == s.unsent)
    && (forall i :: |s.queue| <= i < |t.queue| && i - |s.queue| < Left(c, s) ==> t.queue[i].Login?)
    && (|t.queue| - |s.queue| <= Left(c, s) ==> Left(c, t) + |t.queue| == Left(c, s) + |s.queue|)
  }

  function FeedStep(c: Config, s: State): Step {
    match s.producer
    case AtHead => Head
    case Putting(_) => Put
    case Ended => PutSentinel
  }

  /** The queue can be filled while the workers stand still. */
  lemma {:induction false} Feed(c: Config, s: State) returns (t: State)
    requires Feeds(c, s) && ToPut(c, s) + |s.queue| >= Capacity(c)
    ensures Reaches(c, s, t) && Fed(c, s, t) && |t.queue| == Capacity(c)
    decreases Work(s)
  {
    if |s.queue| == Capacity(c) {
      t := s;
      Stay(c, s);
    } else {
      var step := FeedStep(c, s);
      StepDoesWork(c, s, step);
      var next := Apply(c, s, step);
      t := Feed(c, next);
      OneStep(c, s, step);
      Chain(c, s, next, t);
    }
  }

  /** Workers from `k` on take one login each. */
  lemma {:induction false} Occupy(c: Config, s: State, k: nat) returns (t: State)
    requires k <= |s.workers| && |s.workers| - k <= |s.queue|
    requires forall i :: 0 <= i < |s.workers| - k ==> s.queue[i].Login?
    requires forall w :: 0 <= w < k ==> s.workers[w].Busy?
    requires forall w :: k <= w < |s.workers| ==> s.workers[w].Getting?
    ensures Reaches(c, s, t) && |t.workers| == |s.workers|
    ensures t == s.(queue := s.queue[|s.workers| - k..], workers := t.workers)
    ensures forall w :: 0 <= w < |t.workers| ==> t.workers[w].Busy?
    decreases |s.workers| - k
  {
    if k == |s.workers| {
      t := s;
      Stay(c, s);
    } else {
      var next := Apply(c, s, Get(k));
      t := Occupy(c, next, k + 1);
      assert next.queue[|s.workers| - k - 1..] == s.queue[|s.workers| - k..];
      OneStep(c, s, Get(k));
      Chain(c, s, next, t);
    }
  }

  /** Worker `k` finishes its item, finds the cancel and stops. */
  lemma QuitOne(c: Config, s: State, k: nat) returns (t: State)
    requires c.tracked && s.signal == Cancel && k < |s.workers| && s.workers[k].Busy?
    ensures Reaches(c, s, t) && t.workers == s.workers[k := Exited(false)]
    ensures t == s.(stats := t.stats, done := t.done, cancelled := true, workers := t.workers)
  {
    Stay(c, s);
    var a := Apply(c, s, Finish(k, Succeeded));
    AndStep(c, s, s, Finish(k, Succeeded));
    var b := Apply(c, a, Account(k));
    AndStep(c, s, a, Account(k));
    t := Apply(c, b, Check(k));
    AndStep(c, s, b, Check(k));
    assert s.workers[k := Counted(s.workers[k].login)][k := Checking][k := Exited(false)]
           == s.workers[k := Exited(false)];
  }

  lemma {:induction false} QuitAll(c: Config, s: State, k: nat) returns (t: State)
    requires c.tracked && s.signal == Cancel && k <= |s.workers| && (k > 0 ==> s.cancelled)
    requires forall w :: 0 <= w < k ==> s.workers[w].Exited?
    requires forall w :: k <= w < |s.workers| ==> s.workers[w].Busy?
    ensures Reaches(c, s, t) && AllExited(t) && (|s.workers| > 0 ==> t.cancelled)
    ensures t == s.(stats := t.stats, done := t.done, cancelled := t.cancelled, workers := t.workers)
    decreases |s.workers| - k
  {
    if k == |s.workers| {
      t := s;
      Stay(c, s);
    } else {
      var next := QuitOne(c, s, k);
      t := QuitAll(c, next, k + 1);
      Chain(c, s, next, t);
    }
  }

  /** All workers are busy, the queue is full and the producer side is not done. */
  lemma FillUp(c: Config, logins: seq<string>) returns (t: State)
    requires c.workers > 0 && |Real(c, logins)| > Capacity(c)
    ensures Reaches(c, Start(c, logins), t) && |t.queue| == Capacity(c) && !t.cancelled
    ensures |t.workers| == c.workers && forall w :: 0 <= w < c.workers ==> t.workers[w].Busy?
    ensures !t.producer.Ended? || t.unsent > 0
    ensures !t.producer.Ended? ==> t.unsent == c.workers
  {
    var s := Start(c, logins);
    var full := Feed(c, s);
    var busy := Occupy(c, full, 0);
    t := Feed(c, busy);
    Chain(c, s, full, busy);
    Chain(c, s, busy, t);
    assert Left(c, busy) == Left(c, full);
  }

  lemma EnoughLoginsHang(c: Config, logins: seq<string>) returns (t: State)
    requires c.workers > 0 && c.tracked && |Real(c, logins)| > Capacity(c)
    ensures Reaches(c, Start(c, logins), t) && Hung(c, t)
  {
    var s := Start(c, logins);
    var full := FillUp(c, logins);
    var asked := Apply(c, full, Operator(Cancel));
    AndStep(c, s, full, Operator(Cancel));
    t := QuitAll(c, asked, 0);
    Chain(c, s, asked, t);
    if t.producer.AtHead? {
      AndStep(c, s, t, Head);
      t := Apply(c, t, Head);
    }
  }

  /** Some run hangs exactly when it can be cancelled and there are more
      non-blank logins than the queue has places, four for each worker. */
  lemma HangsExactlyWhen(c: Config, logins: seq<string>)
    requires c.workers > 0
    ensures (exists s :: Reaches(c, Start(c, logins), s) && Hung(c, s))
            <==> c.tracked && |Real(c, logins)| > 4 * c.workers
  {
    forall s | Reaches(c, Start(c, logins), s) && Hung(c, s) ensures c.tracked && |Real(c, logins)| > Capacity(c) {
      var steps :| Legal(c, Start(c, logins), steps) && Run(c, Start(c, logins), steps) == s;
      StartIsValid(c, logins, "");
      RunKeepsValid(c, Start(c, logins), steps, "");
      StartIsTraced(c, logins);
      RunKeepsTraced(c, Start(c, logins), steps, |Real(c, logins)|);
      HangNeedsLogins(c, s, |Real(c, logins)|);
    }
    if c.tracked && |Real(c, logins)| > Capacity(c) {
      var s := EnoughLoginsHang(c, logins);
    }
  }

  /** The smallest case: one worker and five logins. */
  lemma CancelCanHang() returns (c: Config, logins: seq<string>, s: State)
    ensures c.workers == 1 && |logins| == 5 && Reaches(c, Start(c, logins), s) && Hung(c, s)
  {
    c, logins := Config(1, (x: string) => x, true), ["a", "b", "c", "d", "e"];
    assert logins[1..] == ["b", "c", "d", "e"] && logins[1..][1..] == ["c", "d", "e"];
    assert logins[1..][1..][1..] == ["d", "e"] && logins[1..][1..][1..][1..] == ["e"];
    assert Real(c, ["e"]) == ["e"] && Real(c, ["d", "e"]) == ["d"] + Real(c, ["e"]);
    assert Real(c, ["c", "d", "e"]) == ["c"] + Real(c, ["d", "e"]);
    assert Real(c, logins) == ["a"] + (["b"] + Real(c, ["c", "d", "e"]));
    s := EnoughLoginsHang(c, logins);
  }
}
