/**
  Pipeline executions: the rows the tracker keeps, the control loop of the
  runner and of the resume endpoint, and the requests that steer them.
 */
module Pipeline {

  // Every tracker call is one step; between two of them any other runner or
  // request may act.  Steps of a pipeline are numbered from 0 here.

  datatype StepStatus = StepPending | StepRunning | StepCompleted | StepFailed | StepCancelled

  datatype Status = Pending | Running | Paused | Completed | Failed | Cancelled

  datatype Signal = NoSignal | PauseSignal | CancelSignal

  /** The execution row together with its step rows. */
  datatype Row = Row(status: Status, signal: Signal, completed: nat, steps: seq<StepStatus>)

  /** Where a runner stands: the tracker call it makes next. */
  datatype Runner =
    | Created                      // run: the rows are inserted
    | Guarded                      // resume: the guarded update succeeded
    | Starting(next: nat)          // resume: the next pending step is known
    | AtStep(i: nat)               // about to check the signal, or to finish
    | Clearing | Pausing
    | Cancelling(j: nat)           // about to cancel step j, or the execution
    | Marking(i: nat) | Executing(i: nat)
    | Completing(i: nat) | Failing(i: nat) | FailingExecution
    | Gone

  /** `executed` records the steps whose execution began, over all runners. */
  datatype State = State(row: Row, runners: seq<Runner>, executed: seq<nat>)

  datatype Event =
    | Advance(r: nat, ok: bool)   // a runner makes its next call; `ok`: the step it executes succeeds
    | SetSignal(signal: Signal)   // pause or cancel endpoint
    | Resume                      // resume endpoint

  function Start(n: nat): State {
    State(Row(Pending, NoSignal, 0, seq(n, _ => StepPending)), [Created], [])
  }

  /** `get_next_pending_step`. */
  function NextPending(steps: seq<StepStatus>, i: nat): nat
    requires i <= |steps|
    decreases |steps| - i
  {
    if i == |steps| || steps[i].StepPending? then i else NextPending(steps, i + 1)
  }

  /** One runner's view: the rows, the record, and where it stands. */
  datatype View = View(row: Row, executed: seq<nat>, at: Runner)

  predicate InRange(row: Row, r: Runner) {
    match r
    case AtStep(i) => i <= |row.steps|
    case Cancelling(j) => j <= |row.steps|
    case Marking(i) => i < |row.steps|
    case Executing(i) => i < |row.steps|
    case Completing(i) => i < |row.steps|
    case Failing(i) => i < |row.steps|
    case _ => true
  }

  predicate Enabled(s: State, e: Event) {
    e.Advance? ==> e.r < |s.runners| && !s.runners[e.r].Gone? && InRange(s.row, s.runners[e.r])
  }

  function WithStep(row: Row, i: nat, status: StepStatus): Row
    requires i < |row.steps|
  {
    row.(steps := row.steps[i := status])
  }

  /** What the loop does next before step `i`, given the signal it finds. */
  function Answer(signal: Signal, i: nat): Runner {
    match signal
    case CancelSignal => Cancelling(i)
    case PauseSignal => Clearing
    case NoSignal => Marking(i)
  }

  /** The next call of a runner; `ok` is the outcome of a step it executes. */
  function Next(v: View, ok: bool): View
    requires InRange(v.row, v.at)
  {
    var row := v.row;
    var n := |row.steps|;
    match v.at
    case Created => v.(row := row.(status := Running), at := AtStep(0))
    case Guarded =>
      var next := NextPending(row.steps, 0);
      v.(at := if next == n then Gone else Starting(next))
    case Starting(next) => v.(row := row.(status := Running), at := AtStep(next))
    case AtStep(i) =>
      if i == n then v.(row := row.(status := Completed), at := Gone)
      else v.(at := Answer(row.signal, i))
    case Clearing => v.(row := row.(signal := NoSignal), at := Pausing)
    case Pausing => v.(row := row.(status := Paused), at := Gone)
    case Cancelling(j) =>
      if j == n then v.(row := row.(status := Cancelled), at := Gone)
      else v.(row := WithStep(row, j, StepCancelled), at := Cancelling(j + 1))
    case Marking(i) =>
      View(WithStep(row, i, StepRunning), v.executed + [i], Executing(i))
    case Executing(i) => v.(at := if ok then Completing(i) else Failing(i))
    case Completing(i) =>
      v.(row := WithStep(row, i, StepCompleted).(completed := row.completed + 1), at := AtStep(i + 1))
    case Failing(i) => v.(row := WithStep(row, i, StepFailed), at := FailingExecution)
    case FailingExecution => v.(row := row.(status := Failed), at := Gone)
    case Gone => v
  }

  function AdvanceRunner(s: State, r: nat, ok: bool): State
    requires Enabled(s, Advance(r, ok))
  {
    var v := Next(View(s.row, s.executed, s.runners[r]), ok);
    State(v.row, s.runners[r := v.at], v.executed)
  }

  function Apply(s: State, e: Event): State
    requires Enabled(s, e)
  {
    match e
    case Advance(r, ok) => AdvanceRunner(s, r, ok)
    case SetSignal(signal) =>
      if s.row.status == Running || s.row.status == Paused then s.(row := s.row.(signal := signal)) else s
    case Resume =>
      if s.row.status == Paused
      then s.(row := s.row.(status := Running, signal := NoSignal), runners := s.runners + [Guarded])
      else s
  }

  ghost predicate Legal(s: State, events: seq<Event>)
    decreases |events|
  {
    events == [] || (Enabled(s, events[0]) && Legal(Apply(s, events[0]), events[1..]))
  }

  function Run(s: State, events: seq<Event>): State
    requires Legal(s, events)
    decreases |events|
  {
    if events == [] then s else Run(Apply(s, events[0]), events[1..])
  }

  // ---- The invariant ----

  ghost predicate AllFrom(steps: seq<StepStatus>, i: nat, status: StepStatus) {
    forall k :: i <= k < |steps| ==> steps[k] == status
  }

  /** The first `k` steps are completed, step `k` is `tail`, the rest pending. */
  ghost predicate DoneThen(row: Row, tail: StepStatus) {
    && row.completed < |row.steps|
    && (forall k :: 0 <= k < row.completed ==> row.steps[k] == StepCompleted)
    && row.steps[row.completed] == tail
    && AllFrom(row.steps, row.completed + 1, StepPending)
  }

  /** The first `k` steps are completed, those before `j` cancelled, the rest pending. */
  ghost predicate DoneThenCancelled(row: Row, j: nat) {
    && row.completed <= j <= |row.steps|
    && (forall k :: 0 <= k < row.completed ==> row.steps[k] == StepCompleted)
    && (forall k :: row.completed <= k < j ==> row.steps[k] == StepCancelled)
    && AllFrom(row.steps, j, StepPending)
  }

  ghost predicate Untouched(row: Row) {
    DoneThenCancelled(row, row.completed)
  }

  /** The steps from `a` to `b - 1` in order, each once. */
  function Range(a: nat, b: nat): (steps: seq<nat>)
    ensures |steps| == if a < b then b - a else 0
    ensures forall k :: 0 <= k < |steps| ==> steps[k] == a + k
  {
    if a < b then Range(a, b - 1) + [b - 1] else []
  }

  /** What the rows look like while a runner stands at `v.at`. */
  ghost predicate Fits(v: View) {
    var row := v.row;
    var k := row.completed;
    match v.at
    case Created => row.status == Pending && Untouched(row) && k == 0 && v.executed == Range(0, k)
    case Guarded => row.status == Running && Untouched(row) && k < |row.steps| && v.executed == Range(0, k)
    case Starting(next) => row.status == Running && Untouched(row) && k == next && v.executed == Range(0, k)
    case AtStep(i) => row.status == Running && Untouched(row) && k == i && v.executed == Range(0, k)
    case Clearing => row.status == Running && Untouched(row) && k < |row.steps| && v.executed == Range(0, k)
    case Pausing => row.status == Running && Untouched(row) && k < |row.steps| && v.executed == Range(0, k)
    case Cancelling(j) =>
      row.status == Running && DoneThenCancelled(row, j) && k < |row.steps| && v.executed == Range(0, k)
    case Marking(i) => row.status == Running && Untouched(row) && k == i < |row.steps| && v.executed == Range(0, k)
    case Executing(i) => row.status == Running && DoneThen(row, StepRunning) && k == i && v.executed == Range(0, k + 1)
    case Completing(i) => row.status == Running && DoneThen(row, StepRunning) && k == i && v.executed == Range(0, k + 1)
    case Failing(i) => row.status == Running && DoneThen(row, StepRunning) && k == i && v.executed == Range(0, k + 1)
    case FailingExecution => row.status == Running && DoneThen(row, StepFailed) && v.executed == Range(0, k + 1)
    case Gone => Rested(row, v.executed)
  }

  /** What the rows look like when no runner is active. */
  ghost predicate Rested(row: Row, executed: seq<nat>) {
    var k := row.completed;
    match row.status
    case Paused => Untouched(row) && k < |row.steps| && executed == Range(0, k)
    case Completed => Untouched(row) && k == |row.steps| && executed == Range(0, k)
    case Failed => DoneThen(row, StepFailed) && executed == Range(0, k + 1)
    case Cancelled => DoneThenCancelled(row, |row.steps|) && k < |row.steps| && executed == Range(0, k)
    case _ => false
  }

  /** All runners but the last one are gone, and the rows fit the last one. */
  ghost predicate Valid(s: State) {
    && s.runners != []
    && (forall r :: 0 <= r < |s.runners| - 1 ==> s.runners[r].Gone?)
    && Fits(View(s.row, s.executed, s.runners[|s.runners| - 1]))
  }

  lemma NextPendingIsFirst(row: Row, i: nat)
    requires Untouched(row) && i <= row.completed
    ensures NextPending(row.steps, i) == row.completed
    decreases row.completed - i
  {
  }

  lemma CancellingOneMore(row: Row, j: nat)
    requires DoneThenCancelled(row, j) && j < |row.steps|
    ensures DoneThenCancelled(WithStep(row, j, StepCancelled), j + 1)
  {
  }

  lemma MarkingOneMore(row: Row)
    requires Untouched(row) && row.completed < |row.steps|
    ensures DoneThen(WithStep(row, row.completed, StepRunning), StepRunning)
  {
  }

  lemma EndingOneMore(row: Row)
    requires DoneThen(row, StepRunning)
    ensures Untouched(WithStep(row, row.completed, StepCompleted).(completed := row.completed + 1))
    ensures DoneThen(WithStep(row, row.completed, StepFailed), StepFailed)
  {
  }

  /** Each call of a runner keeps the rows in step with where it stands. */
  lemma NextKeepsFitting(v: View, ok: bool)
    requires Fits(v) && InRange(v.row, v.at)
    ensures Fits(Next(v, ok))
  {
    match v.at
    case Guarded => NextPendingIsFirst(v.row, 0);
    case Cancelling(j) => if j < |v.row.steps| { CancellingOneMore(v.row, j); }
    case Marking(i) => MarkingOneMore(v.row);
    case Completing(i) => EndingOneMore(v.row);
    case Failing(i) => EndingOneMore(v.row);
    case _ =>
  }

  /** No call of a runner touches the signal but the one that carries out a
      pause, and that one takes it back. */
  lemma OnlyAPauseClears(v: View, ok: bool)
    requires InRange(v.row, v.at)
    ensures Next(v, ok).row.signal == if v.at.Clearing? then NoSignal else v.row.signal
    ensures Next(v, ok).at.Clearing? ==> v.row.signal == PauseSignal && v.at.AtStep?
    ensures v.at.Clearing? ==> Next(Next(v, ok), ok).row.status == Paused && Next(Next(v, ok), ok).at.Gone?
  {
  }

  lemma AdvanceKeepsValid(s: State, r: nat, ok: bool)
    requires Valid(s) && Enabled(s, Advance(r, ok))
    ensures Valid(AdvanceRunner(s, r, ok))
    ensures |AdvanceRunner(s, r, ok).row.steps| == |s.row.steps|
  {
    NextKeepsFitting(View(s.row, s.executed, s.runners[r]), ok);
  }

  lemma ResumeKeepsValid(s: State)
    requires Valid(s)
    ensures Valid(Apply(s, Resume))
  {
  }

  lemma RequestKeepsValid(s: State, e: Event)
    requires Valid(s) && !e.Advance?
    ensures Valid(Apply(s, e)) && |Apply(s, e).row.steps| == |s.row.steps|
  {
    match e
    case SetSignal(signal) =>
    case Resume => ResumeKeepsValid(s);
  }

  lemma {:induction false} RunKeepsValid(s: State, events: seq<Event>)
    requires Valid(s) && Legal(s, events)
    ensures Valid(Run(s, events)) && |Run(s, events).row.steps| == |s.row.steps|
    decreases |events|
  {
    if events == [] {
    } else {
      if events[0].Advance? {
        AdvanceKeepsValid(s, events[0].r, events[0].ok);
      } else {
        RequestKeepsValid(s, events[0]);
      }
      RunKeepsValid(Apply(s, events[0]), events[1..]);
    }
  }

  // ---- What holds after any sequence of events ----

  /** The statuses are Completed^k followed by an allowed tail. */
  ghost predicate AllowedShape(row: Row) {
    DoneThen(row, StepRunning) || DoneThen(row, StepFailed) || exists j: nat :: DoneThenCancelled(row, j)
  }

  /** After any sequence of pauses, resumes, cancels and failures: the steps
      executed by all runners are a prefix, each executed once; at most one
      runner is active; the statuses have an allowed shape with
      `completed_steps` completed steps; and a completed execution has
      completed all of them. */
  lemma AnyRun(n: nat, events: seq<Event>)
    requires Legal(Start(n), events)
    ensures var s := Run(Start(n), events);
      && |s.row.steps| == n
      && (exists m: nat :: m <= |s.row.steps| && s.executed == Range(0, m))
      && (forall q, r | 0 <= q < |s.runners| && 0 <= r < |s.runners| ::
            !s.runners[q].Gone? && !s.runners[r].Gone? ==> q == r)
      && AllowedShape(s.row)
      && (s.row.status == Completed ==> s.row.completed == |s.row.steps|)
  {
    assert Start(n).executed == Range(0, 0);
    RunKeepsValid(Start(n), events);
  }

  /** An active runner can always make its next call. */
  lemma ActiveRunnerCanAdvance(s: State, r: nat, ok: bool)
    requires Valid(s) && r < |s.runners| && !s.runners[r].Gone?
    ensures r == |s.runners| - 1 && Enabled(s, Advance(r, ok))
  {
    assert Fits(View(s.row, s.executed, s.runners[r]));
  }

  predicate IsFinal(status: Status) {
    status == Completed || status == Failed || status == Cancelled
  }

  /** A finished execution never changes again. */
  lemma FinalStaysFinal(s: State, e: Event)
    requires Valid(s) && IsFinal(s.row.status) && Enabled(s, e)
    ensures Apply(s, e) == s
  {
  }

  // ---- When a cancel is honoured ----

  function Last(s: State): Runner
    requires s.runners != []
  {
    s.runners[|s.runners| - 1]
  }

  /** The runner will look at the signal once more, if the step it is about to
      execute, or executes, succeeds. */
  predicate ChecksAgain(at: Runner, n: nat, succeeds: nat -> bool) {
    match at
    case Created => n > 0
    case Guarded => true
    case Starting(next) => next < n
    case AtStep(i) => i < n
    case Marking(i) => succeeds(i) && i + 1 < n
    case Executing(i) => succeeds(i) && i + 1 < n
    case Completing(i) => i + 1 < n
    case _ => false
  }

  predicate Cancels(row: Row, at: Runner, succeeds: nat -> bool) {
    || row.status == Cancelled
    || at.Cancelling?
    || (row.signal == CancelSignal && ChecksAgain(at, |row.steps|, succeeds))
  }

  /** The event is no signal, and a step it ends has the given outcome. */
  predicate Follows(s: State, e: Event, succeeds: nat -> bool)
    requires Enabled(s, e)
  {
    && !e.SetSignal?
    && (e.Advance? && s.runners[e.r].Executing? ==> e.ok == succeeds(s.runners[e.r].i))
  }

  ghost predicate AllFollow(s: State, events: seq<Event>, succeeds: nat -> bool)
    requires Legal(s, events)
    decreases |events|
  {
    events == []
    || (Follows(s, events[0], succeeds) && AllFollow(Apply(s, events[0]), events[1..], succeeds))
  }

  lemma NextKeepsCancels(v: View, ok: bool, succeeds: nat -> bool)
    requires Fits(v) && InRange(v.row, v.at) && (v.at.Executing? ==> ok == succeeds(v.at.i))
    ensures Cancels(Next(v, ok).row, Next(v, ok).at, succeeds) <==> Cancels(v.row, v.at, succeeds)
  {
    if v.at.Guarded? {
      NextPendingIsFirst(v.row, 0);
    }
  }

  lemma EventKeepsCancels(s: State, e: Event, succeeds: nat -> bool)
    requires Valid(s) && Enabled(s, e) && Follows(s, e, succeeds)
    ensures var t := Apply(s, e);
      t.runners != [] && (Cancels(t.row, Last(t), succeeds) <==> Cancels(s.row, Last(s), succeeds))
  {
    if e.Advance? {
      ActiveRunnerCanAdvance(s, e.r, e.ok);
      NextKeepsCancels(View(s.row, s.executed, Last(s)), e.ok, succeeds);
    }
  }

  lemma {:induction false} RunKeepsCancels(s: State, events: seq<Event>, succeeds: nat -> bool)
    requires Valid(s) && Legal(s, events) && AllFollow(s, events, succeeds)
    ensures var t := Run(s, events);
      Valid(t) && (Cancels(t.row, Last(t), succeeds) <==> Cancels(s.row, Last(s), succeeds))
    decreases |events|
  {
    if events == [] {
    } else {
      EventKeepsCancels(s, events[0], succeeds);
      if events[0].Advance? {
        AdvanceKeepsValid(s, events[0].r, events[0].ok);
      } else {
        RequestKeepsValid(s, events[0]);
      }
      RunKeepsCancels(Apply(s, events[0]), events[1..], succeeds);
    }
  }

  /** A cancel request at `s` and events after it that leave no runner active. */
  ghost predicate RestsAfterCancel(s: State, events: seq<Event>, succeeds: nat -> bool) {
    var requested := Apply(s, SetSignal(CancelSignal));
    && Legal(requested, events) && AllFollow(requested, events, succeeds)
    && Run(requested, events).runners != [] && Last(Run(requested, events)).Gone?
  }

  /** A cancel request with no signal after it, whatever resumes follow: when
      no runner is active any more the execution is cancelled if and only if
      at the request its runner was cancelling already, or was to look at the
      signal again.  A cancel that finds the execution paused, or a runner
      about to pause it or past its last check, is lost. */
  lemma CancelIsHonouredExactlyWhen(s: State, events: seq<Event>, succeeds: nat -> bool)
    requires Valid(s) && (s.row.status == Running || s.row.status == Paused)
    requires RestsAfterCancel(s, events, succeeds)
    ensures Run(Apply(s, SetSignal(CancelSignal)), events).row.status == Cancelled
            <==> Last(s).Cancelling? || ChecksAgain(Last(s), |s.row.steps|, succeeds)
  {
    var requested := Apply(s, SetSignal(CancelSignal));
    RequestKeepsValid(s, SetSignal(CancelSignal));
    RunKeepsCancels(requested, events, succeeds);
  }

  lemma Before(s: State, e: Event, events: seq<Event>) returns (all: seq<Event>)
    requires Enabled(s, e) && Legal(Apply(s, e), events)
    ensures Legal(s, all) && Run(s, all) == Run(Apply(s, e), events)
  {
    all := [e] + events;
    assert all[1..] == events;
  }

  lemma PauseIsCarriedOut(n: nat) returns (before: seq<Event>)
    requires n > 0
    ensures Legal(Start(n), before)
    ensures var s := Run(Start(n), before); Valid(s) && s.row.status == Running && Last(s) == Clearing
  {
    var first, pause := Advance(0, true), SetSignal(PauseSignal);
    var begun := Apply(Start(n), first);
    var paused := Apply(begun, pause);
    before := Before(paused, first, []);
    before := Before(begun, pause, before);
    before := Before(Start(n), first, before);
    assert Start(n).executed == Range(0, 0);
    RunKeepsValid(Start(n), before);
  }

  /** A run that gets there: an execution is paused before its first step, and
      a cancel that arrives while the runner carries out the pause is lost,
      whatever resumes follow. */
  lemma LostCancelIsReached(n: nat) returns (before: seq<Event>)
    requires n > 0
    ensures Legal(Start(n), before) && Run(Start(n), before).row.status == Running
    ensures forall events, succeeds :: RestsAfterCancel(Run(Start(n), before), events, succeeds) ==>
              Run(Apply(Run(Start(n), before), SetSignal(CancelSignal)), events).row.status != Cancelled
  {
    before := PauseIsCarriedOut(n);
    var s := Run(Start(n), before);
    forall events, succeeds | RestsAfterCancel(s, events, succeeds)
      ensures Run(Apply(s, SetSignal(CancelSignal)), events).row.status != Cancelled
    {
      CancelIsHonouredExactlyWhen(s, events, succeeds);
    }
  }

  /** The calls a runner has still to make, at most. */
  function CallsLeft(at: Runner, n: nat): int {
    match at
    case Created => 6 * n + 7
    case Guarded => 6 * n + 8
    case Starting(next) => 6 * (n - next) + 7
    case AtStep(i) => 6 * (n - i) + 6
    case Clearing => 2
    case Pausing => 1
    case Cancelling(j) => n - j + 1
    case Marking(i) => 6 * (n - i) + 5
    case Executing(i) => 6 * (n - i) + 4
    case Completing(i) => 6 * (n - i) + 3
    case Failing(_) => 2
    case FailingExecution => 1
    case Gone => 0
  }

  lemma NextUsesUpACall(v: View, ok: bool)
    requires Fits(v) && InRange(v.row, v.at) && !v.at.Gone?
    ensures |Next(v, ok).row.steps| == |v.row.steps|
    ensures 0 <= CallsLeft(Next(v, ok).at, |v.row.steps|) < CallsLeft(v.at, |v.row.steps|)
  {
    if v.at.Guarded? {
      NextPendingIsFirst(v.row, 0);
    }
  }

  /** Some run ends with no runner active: the active one makes its calls. */
  lemma {:induction false} ComesToRest(s: State, succeeds: nat -> bool) returns (events: seq<Event>)
    requires Valid(s)
    ensures Legal(s, events) && AllFollow(s, events, succeeds)
    ensures Run(s, events).runners != [] && Last(Run(s, events)).Gone?
    decreases CallsLeft(Last(s), |s.row.steps|)
  {
    if Last(s).Gone? {
      events := [];
    } else {
      var r := |s.runners| - 1;
      var e := Advance(r, Last(s).Executing? && succeeds(Last(s).i));
      ActiveRunnerCanAdvance(s, r, e.ok);
      AdvanceKeepsValid(s, r, e.ok);
      NextUsesUpACall(View(s.row, s.executed, Last(s)), e.ok);
      var rest := ComesToRest(Apply(s, e), succeeds);
      events := [e] + rest;
      assert events[1..] == rest;
    }
  }

  // ---- One runner on its own ----

  datatype Ending = AllDone | PausedAt(i: nat) | CancelledAt(i: nat) | FailedAt(i: nat)

  /** How a loop from step `i` ends, when `signals(k)` is the signal found
      before step `k` and `succeeds(k)` the outcome of executing it. */
  function EndingFrom(n: nat, i: nat, signals: nat -> Signal, succeeds: nat -> bool): Ending
    requires i <= n
    decreases n - i
  {
    if i == n then AllDone
    else match signals(i)
      case CancelSignal => CancelledAt(i)
      case PauseSignal => PausedAt(i)
      case NoSignal => if succeeds(i) then EndingFrom(n, i + 1, signals, succeeds) else FailedAt(i)
  }

  class Execution {
    var status: Status
    var signal: Signal
    var completed: nat
    var steps: seq<StepStatus>

    ghost function Rows(): Row
      reads this
    {
      Row(status, signal, completed, steps)
    }

    constructor (n: nat)
      ensures Rows() == Start(n).row
    {
      status, signal, completed, steps := Pending, NoSignal, 0, seq(n, _ => StepPending);
    }

    method MarkStep(i: nat, s: StepStatus)
      requires i < |steps|
      modifies this`steps
      ensures steps == old(steps)[i := s]
    {
      steps := steps[i := s];
    }

    /** `mark_step_completed`. */
    method MarkStepCompleted(i: nat)
      requires i < |steps|
      modifies this`steps, this`completed
      ensures Rows() == WithStep(old(Rows()), i, StepCompleted).(completed := old(completed) + 1)
    {
      steps := steps[i := StepCompleted];
      completed := completed + 1;
    }

    /** `resume_execution`. */
    method ResumeExecution() returns (ok: bool)
      modifies this
      ensures ok == (old(status) == Paused)
      ensures Rows() == if ok then old(Rows()).(status := Running, signal := NoSignal) else old(Rows())
    {
      ok := status == Paused;
      if ok {
        status, signal := Running, NoSignal;
      }
    }

    /** Cancels step `i` and those after it, then the execution. */
    method CancelFrom(i: nat)
      requires Untouched(Rows()) && completed == i <= |steps|
      modifies this`steps, this`status
      ensures |steps| == old(|steps|) && DoneThenCancelled(Rows(), |steps|) && status == Cancelled
    {
      var j := i;
      while j < |steps|
        invariant |steps| == old(|steps|) && i <= j <= |steps|
        invariant DoneThenCancelled(Rows(), j)
      {
        CancellingOneMore(Rows(), j);
        MarkStep(j, StepCancelled);
        j := j + 1;
      }
      status := Cancelled;
    }

    /** Executes step `i`, whose outcome is `ok`. */
    method ExecuteStep(i: nat, ok: bool)
      requires Untouched(Rows()) && completed == i < |steps|
      modifies this`steps, this`status, this`completed
      ensures |steps| == old(|steps|)
      ensures ok ==> Untouched(Rows()) && completed == i + 1 && status == old(status)
      ensures !ok ==> DoneThen(Rows(), StepFailed) && completed == i && status == Failed
    {
      MarkingOneMore(Rows());
      MarkStep(i, StepRunning);
      EndingOneMore(Rows());
      if ok {
        MarkStepCompleted(i);
      } else {
        MarkStep(i, StepFailed);
        status := Failed;
      }
    }

    /** The check before step `i`, which finds the signal `found`. */
    method CheckSignal(i: nat, found: Signal) returns (goOn: bool)
      requires Untouched(Rows()) && completed == i < |steps| && status == Running
      modifies this
      ensures |steps| == old(|steps|) && completed == i && goOn == (found == NoSignal)
      ensures found == CancelSignal ==> status == Cancelled && DoneThenCancelled(Rows(), |steps|)
      ensures found == PauseSignal ==> status == Paused && signal == NoSignal && Untouched(Rows())
      ensures goOn ==> status == Running && Untouched(Rows())
    {
      signal := found;
      goOn := signal == NoSignal;
      if signal == CancelSignal {
        CancelFrom(i);
      } else if signal == PauseSignal {
        signal := NoSignal;
        status := Paused;
      }
    }

    /** The control loop of the runner and of the resume endpoint. */
    method ControlLoop(first: nat, signals: nat -> Signal, succeeds: nat -> bool) returns (executed: seq<nat>)
      requires Untouched(Rows()) && completed == first && status == Running
      modifies this
      ensures |steps| == old(|steps|)
      ensures match EndingFrom(|steps|, first, signals, succeeds)
        case AllDone =>
          status == Completed && completed == |steps| && Untouched(Rows()) && executed == Range(first, |steps|)
        case PausedAt(i) =>
          status == Paused && signal == NoSignal && completed == i < |steps| && Untouched(Rows())
          && executed == Range(first, i)
        case CancelledAt(i) =>
          status == Cancelled && completed == i && DoneThenCancelled(Rows(), |steps|) && executed == Range(first, i)
        case FailedAt(i) =>
          status == Failed && completed == i && DoneThen(Rows(), StepFailed) && executed == Range(first, i + 1)
    {
      executed := [];
      var i := first;
      while i < |steps|
        invariant |steps| == old(|steps|) && first <= i <= |steps|
        invariant Untouched(Rows()) && completed == i && status == Running
        invariant executed == Range(first, i)
        invariant EndingFrom(|steps|, first, signals, succeeds) == EndingFrom(|steps|, i, signals, succeeds)
      {
        var goOn := CheckSignal(i, signals(i));
        if !goOn {
          return;
        }
        executed := executed + [i];
        ExecuteStep(i, succeeds(i));
        if status == Failed {
          return;
        }
        i := i + 1;
      }
      status := Completed;
    }
  }
}
