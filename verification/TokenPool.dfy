/**
  The rate-limited token pool and the request loops that use it.

  The pool is a class; `acquire` and `release` change its fields under a lock,
  so each pass through their bodies is one step.  Clients interleave freely.
 */
module TokenPool {

  /** The token string itself plays no role. */
  datatype Token = Token(remaining: int, resetAt: real, inUse: bool)

  predicate IsAvailable(t: Token, now: real) {
    !t.inUse && (t.remaining > 0 || now >= t.resetAt)
  }

  predicate IsSleeping(t: Token) {
    !t.inUse && t.remaining <= 0
  }

  // ---- Choosing a token ----

  /** `i` is available, and no available token has more requests remaining;
      among equals the first is taken. */
  predicate IsBest(tokens: seq<Token>, now: real, i: nat) {
    && i < |tokens| && IsAvailable(tokens[i], now)
    && (forall k :: 0 <= k < |tokens| && IsAvailable(tokens[k], now) ==> tokens[k].remaining <= tokens[i].remaining)
    && (forall k :: 0 <= k < i && IsAvailable(tokens[k], now) ==> tokens[k].remaining < tokens[i].remaining)
  }

  /** How an attempt to acquire ends: with a token, or waiting for a signal,
      with or without a deadline. */
  datatype Attempt = Got(token: nat) | WaitUntil(deadline: real) | WaitForSignal

  predicate IsSoonest(tokens: seq<Token>, soonest: real) {
    && (exists i :: 0 <= i < |tokens| && IsSleeping(tokens[i]) && tokens[i].resetAt == soonest)
    && (forall i :: 0 <= i < |tokens| && IsSleeping(tokens[i]) ==> soonest <= tokens[i].resetAt)
  }

  function Max(a: real, b: real): real {
    if a < b then b else a
  }

  /** What one pass of the loop in `acquire` may answer. */
  ghost predicate Answers(tokens: seq<Token>, now: real, a: Attempt) {
    match a
    case Got(i) => IsBest(tokens, now, i)
    case WaitUntil(deadline) =>
      && (forall i :: 0 <= i < |tokens| ==> !IsAvailable(tokens[i], now))
      && exists soonest :: IsSoonest(tokens, soonest) && deadline == now + Max(0.5, soonest - now)
    case WaitForSignal =>
      && (forall i :: 0 <= i < |tokens| ==> !IsAvailable(tokens[i], now))
      && (forall i :: 0 <= i < |tokens| ==> !IsSleeping(tokens[i]))
  }

  class Pool {
    var tokens: seq<Token>

    constructor (n: nat)
      requires n > 0
      ensures |tokens| == n && forall i :: 0 <= i < n ==> tokens[i] == Token(5000, 0.0, false)
    {
      tokens := seq(n, _ => Token(5000, 0.0, false));
    }

    /** One pass of the loop in `acquire`. */
    method TryAcquire(now: real) returns (a: Attempt)
      modifies this
      ensures Answers(old(tokens), now, a)
      ensures tokens == if a.Got? then old(tokens)[a.token := old(tokens)[a.token].(inUse := true)] else old(tokens)
    {
      var best: int := -1;
      var soonest := 0.0;
      var sleeping := false;
      for i := 0 to |tokens|
        invariant tokens == old(tokens)
        invariant -1 <= best < i
        invariant best == -1 ==> forall k :: 0 <= k < i ==> !IsAvailable(tokens[k], now)
        invariant best >= 0 ==> IsBest(tokens[..i], now, best)
        invariant !sleeping ==> forall k :: 0 <= k < i ==> !IsSleeping(tokens[k])
        invariant sleeping ==> IsSoonest(tokens[..i], soonest)
      {
        var t := tokens[i];
        ghost var seen := tokens[..i + 1];
        assert tokens[..i] == seen[..i] && seen[i] == t;
        if IsAvailable(t, now) && (best == -1 || t.remaining > tokens[best].remaining) {
          best := i;
        }
        if IsSleeping(t) {
          ghost var found := exists k :: 0 <= k < i && IsSleeping(tokens[..i][k]) && tokens[..i][k].resetAt == soonest;
          if !sleeping || t.resetAt < soonest {
            soonest, sleeping := t.resetAt, true;
            assert IsSleeping(seen[i]) && seen[i].resetAt == soonest;
          } else {
            assert found;
            ghost var k :| 0 <= k < i && IsSleeping(tokens[..i][k]) && tokens[..i][k].resetAt == soonest;
            assert seen[k].resetAt == soonest;
          }
        } else if sleeping {
          ghost var k :| 0 <= k < i && IsSleeping(tokens[..i][k]) && tokens[..i][k].resetAt == soonest;
          assert seen[k].resetAt == soonest;
        }
      }
      assert tokens[..|tokens|] == tokens;
      if best >= 0 {
        tokens := tokens[best := tokens[best].(inUse := true)];
        a := Got(best);
      } else if sleeping {
        a := WaitUntil(now + Max(0.5, soonest - now));
      } else {
        a := WaitForSignal;
      }
    }

    /** `release`; the caller then wakes every waiter. */
    method Release(i: nat, remaining: Update<int>, resetAt: Update<real>)
      requires i < |tokens|
      modifies this
      ensures tokens == old(tokens)[i := Released(old(tokens)[i], remaining, resetAt)]
    {
      tokens := tokens[i := tokens[i].(inUse := false)];
      if remaining.Set? {
        tokens := tokens[i := tokens[i].(remaining := remaining.value)];
      }
      if resetAt.Set? {
        tokens := tokens[i := tokens[i].(resetAt := resetAt.value)];
      }
    }
  }

  datatype Update<T> = Keep | Set(value: T)

  function Updated<T>(u: Update<T>, current: T): T {
    match u case Keep => current case Set(v) => v
  }

  function Released(t: Token, remaining: Update<int>, resetAt: Update<real>): Token {
    Token(Updated(remaining, t.remaining), Updated(resetAt, t.resetAt), false)
  }

  // ---- Request loops ----

  datatype Phase =
    | Ready                      // about to pass through the loop in acquire
    | Waiting(deadline: real)    // in a timed wait
    | WaitingForSignal           // in a wait without a deadline
    | Holding(token: nat)        // a request is in flight
    | Resting                    // backing off, or sleeping after Retry-After
    | Finished

  datatype Client = Client(phase: Phase, attempts: nat, backoffs: nat, acquired: nat, released: nat)

  /** What the server, or the network, did with a request. */
  datatype Reply =
    | NetworkError
    | Response(remaining: Update<int>, resetAt: Update<real>, verdict: Verdict)

  datatype Verdict =
    | Ok | Permanent
    | RetryAfter          // 403 or 429 with a Retry-After header
    | PrimaryLimit        // 403 or 429, nothing remaining on this token
    | Retryable           // another 403 or 429, or a 5xx

  datatype State = State(tokens: seq<Token>, clients: seq<Client>, now: real)

  datatype Step =
    | Acquire(c: nat, answer: Attempt)
    | Receive(c: nat, reply: Reply)
    | TimeOut(c: nat)
    | Wake(c: nat)
    | Tick(now: real)

  ghost predicate Enabled(s: State, step: Step) {
    match step
    case Acquire(c, a) => c < |s.clients| && s.clients[c].phase.Ready? && Answers(s.tokens, s.now, a)
    case Receive(c, _) =>
      c < |s.clients| && s.clients[c].phase.Holding? && s.clients[c].phase.token < |s.tokens|
    case TimeOut(c) =>
      c < |s.clients| && s.clients[c].phase.Waiting? && s.now >= s.clients[c].phase.deadline
    case Wake(c) => c < |s.clients| && s.clients[c].phase.Resting?
    case Tick(now) => now >= s.now
  }

  /** `notify_all`. */
  function Notified(c: Client): Client {
    if c.phase.Waiting? || c.phase.WaitingForSignal? then c.(phase := Ready) else c
  }

  function NotifyAll(clients: seq<Client>): (r: seq<Client>)
    ensures |r| == |clients| && forall i :: 0 <= i < |clients| ==> r[i] == Notified(clients[i])
  {
    seq(|clients|, i requires 0 <= i < |clients| => Notified(clients[i]))
  }

  /** The part of `_request` that follows the release of the token. */
  function AfterReply(c: Client, reply: Reply, maxRetries: nat): Client {
    var backedOff := if c.attempts > maxRetries then c.(phase := Finished)
                     else c.(phase := Resting, backoffs := c.backoffs + 1);
    match reply
    case NetworkError => backedOff
    case Response(_, _, Ok) => c.(phase := Finished)
    case Response(_, _, Permanent) => c.(phase := Finished)
    case Response(_, _, RetryAfter) => c.(phase := Resting)
    case Response(_, _, PrimaryLimit) => NextAttempt(c)
    case Response(_, _, Retryable) => backedOff
  }

  function NextAttempt(c: Client): Client {
    c.(phase := Ready, attempts := c.attempts + 1)
  }

  function Apply(s: State, step: Step, maxRetries: nat): State
    requires Enabled(s, step)
  {
    match step
    case Acquire(c, Got(i)) =>
      s.(tokens := s.tokens[i := s.tokens[i].(inUse := true)],
         clients := s.clients[c := s.clients[c].(phase := Holding(i), acquired := s.clients[c].acquired + 1)])
    case Acquire(c, WaitUntil(deadline)) => s.(clients := s.clients[c := s.clients[c].(phase := Waiting(deadline))])
    case Acquire(c, WaitForSignal) => s.(clients := s.clients[c := s.clients[c].(phase := WaitingForSignal)])
    case Receive(c, reply) =>
      var i := s.clients[c].phase.token;
      var token := if reply.Response? then Released(s.tokens[i], reply.remaining, reply.resetAt)
                   else Released(s.tokens[i], Keep, Keep);
      var mine := s.clients[c].(released := s.clients[c].released + 1);
      s.(tokens := s.tokens[i := token],
         clients := NotifyAll(s.clients)[c := AfterReply(mine, reply, maxRetries)])
    case TimeOut(c) => s.(clients := s.clients[c := s.clients[c].(phase := Ready)])
    case Wake(c) => s.(clients := s.clients[c := NextAttempt(s.clients[c])])
    case Tick(now) => s.(now := now)
  }

  ghost predicate Legal(s: State, steps: seq<Step>, maxRetries: nat)
    decreases |steps|
  {
    steps == [] || (Enabled(s, steps[0]) && Legal(Apply(s, steps[0], maxRetries), steps[1..], maxRetries))
  }

  ghost function Run(s: State, steps: seq<Step>, maxRetries: nat): State
    requires Legal(s, steps, maxRetries)
    decreases |steps|
  {
    if steps == [] then s else Run(Apply(s, steps[0], maxRetries), steps[1..], maxRetries)
  }

  function Start(tokens: nat, clients: nat, now: real): State {
    State(seq(tokens, _ => Token(5000, 0.0, false)), seq(clients, _ => Client(Ready, 1, 0, 0, 0)), now)
  }

  /** A pass hands out a token exactly when a free one has requests left or has
      been reset; otherwise it waits for the first reset of a free token, at
      least half a second, or, if there is none, for a signal. */
  lemma AnswerIs(tokens: seq<Token>, now: real, a: Attempt)
    requires Answers(tokens, now, a)
    ensures a.Got? <==>
      exists i :: 0 <= i < |tokens| && !tokens[i].inUse && (tokens[i].remaining > 0 || now >= tokens[i].resetAt)
    ensures a.WaitUntil? ==> a.deadline >= now + 0.5
    ensures a.WaitUntil? && a.deadline != now + 0.5 ==>
      && (forall i :: 0 <= i < |tokens| && !tokens[i].inUse ==> a.deadline <= tokens[i].resetAt)
      && (exists i :: 0 <= i < |tokens| && !tokens[i].inUse && a.deadline == tokens[i].resetAt)
    ensures a.WaitForSignal? <==> forall i :: 0 <= i < |tokens| ==> tokens[i].inUse
  {
  }

  // ---- What a reply leads to ----

  predicate IsTransient(reply: Reply) {
    reply.NetworkError? || reply.verdict.Retryable?
  }

  /** A request ends with an answer, or with a transient failure of an attempt
      after the last retry; a token without requests left is swapped for
      another one at once; any other failure rests first. */
  lemma ReplyDecides(s: State, c: nat, reply: Reply, maxRetries: nat)
    requires Enabled(s, Receive(c, reply))
    ensures var t, was := Apply(s, Receive(c, reply), maxRetries), s.clients[c];
      var now := t.clients[c];
      && (now.phase.Finished? <==>
            if IsTransient(reply) then was.attempts > maxRetries else reply.verdict.Ok? || reply.verdict.Permanent?)
      && (now.phase.Ready? <==> reply.Response? && reply.verdict.PrimaryLimit?)
      && (now.phase.Finished? || now.phase.Ready? || now.phase.Resting?)
      && now.attempts == was.attempts + (if now.phase.Ready? then 1 else 0)
      && now.backoffs == was.backoffs + (if IsTransient(reply) && now.phase.Resting? then 1 else 0)
      && now.released == was.released + 1
      && var held, freed := s.tokens[was.phase.token], t.tokens[was.phase.token];
      && !freed.inUse
      && freed.remaining == (if reply.Response? && reply.remaining.Set? then reply.remaining.value else held.remaining)
      && freed.resetAt == (if reply.Response? && reply.resetAt.Set? then reply.resetAt.value else held.resetAt)
  {
  }

  /** A release wakes every client that waits, with or without a deadline, and
      disturbs no other. */
  lemma ReleaseWakesAll(s: State, c: nat, reply: Reply, maxRetries: nat, d: nat)
    requires Enabled(s, Receive(c, reply)) && d < |s.clients| && d != c
    ensures var was, now := s.clients[d], Apply(s, Receive(c, reply), maxRetries).clients[d];
      now == if was.phase.Waiting? || was.phase.WaitingForSignal? then was.(phase := Ready) else was
  {
  }

  /** A request after `k` transient failures, each but the last followed by
      another attempt. */
  function Failing(c: Client, reply: Reply, maxRetries: nat, k: nat): Client {
    if k == 0 then c
    else
      var before := Failing(c, reply, maxRetries, k - 1);
      AfterReply(if k == 1 then before else NextAttempt(before), reply, maxRetries)
  }

  /** A request that never gets more than transient failures makes exactly
      `max_retries` + 1 attempts. */
  lemma {:induction false} FailingMakesAllAttempts(c: Client, reply: Reply, maxRetries: nat, k: nat)
    requires c.attempts == 1 && c.backoffs == 0 && IsTransient(reply) && 0 < k <= maxRetries + 1
    ensures var after := Failing(c, reply, maxRetries, k);
      && after.attempts == k && (after.phase.Finished? <==> k == maxRetries + 1)
      && (after.phase.Resting? <==> k <= maxRetries) && after.backoffs == if k <= maxRetries then k else maxRetries
  {
    if k > 1 {
      FailingMakesAllAttempts(c, reply, maxRetries, k - 1);
    } else {
      assert Failing(c, reply, maxRetries, 0) == c;
    }
  }

  // ---- The invariant ----

  predicate Holds(c: Client, i: nat) {
    c.phase == Holding(i)
  }

  /** A token is marked in use exactly when some request holds it, and no two
      requests hold the same one. */
  ghost predicate ExclusiveTokens(s: State) {
    && (forall c :: 0 <= c < |s.clients| && s.clients[c].phase.Holding? ==>
          s.clients[c].phase.token < |s.tokens| && s.tokens[s.clients[c].phase.token].inUse)
    && (forall i :: 0 <= i < |s.tokens| && s.tokens[i].inUse ==>
          exists c :: 0 <= c < |s.clients| && Holds(s.clients[c], i))
    && (forall c, d :: 0 <= c < d < |s.clients| && s.clients[c].phase.Holding? ==>
          s.clients[c].phase != s.clients[d].phase)
  }

  /** While some client waits without a deadline, every token is in use: so a
      request is in flight, whose release will wake it. */
  ghost predicate NoLostWakeup(s: State) {
    (exists c :: 0 <= c < |s.clients| && s.clients[c].phase.WaitingForSignal?) ==>
      forall i :: 0 <= i < |s.tokens| ==> s.tokens[i].inUse
  }

  predicate Paired(c: Client) {
    c.acquired == c.released + (if c.phase.Holding? then 1 else 0)
  }

  /** A client has backed off at most once per attempt but the current one,
      and never after more than `maxRetries` attempts. */
  predicate Bounded(c: Client, maxRetries: nat) {
    && c.attempts >= 1
    && c.backoffs <= maxRetries
    && (if c.phase.Resting? || c.phase.Finished? then c.backoffs <= c.attempts else c.backoffs < c.attempts)
  }

  ghost predicate Valid(s: State, maxRetries: nat) {
    && s.tokens != [] && ExclusiveTokens(s) && NoLostWakeup(s)
    && forall c :: 0 <= c < |s.clients| ==> Paired(s.clients[c]) && Bounded(s.clients[c], maxRetries)
  }

  lemma AcquireKeepsValid(s: State, step: Step, maxRetries: nat)
    requires Valid(s, maxRetries) && Enabled(s, step) && step.Acquire?
    ensures Valid(Apply(s, step, maxRetries), maxRetries)
  {
    var after := Apply(s, step, maxRetries);
    if step.answer.Got? {
      assert !s.tokens[step.answer.token].inUse;
      assert Holds(after.clients[step.c], step.answer.token);
      forall i | 0 <= i < |after.tokens| && after.tokens[i].inUse && i != step.answer.token
        ensures exists c :: 0 <= c < |after.clients| && Holds(after.clients[c], i)
      {
        var c :| 0 <= c < |s.clients| && Holds(s.clients[c], i);
        assert Holds(after.clients[c], i);
      }
    } else {
      StillHeld(s, after, step.c);
    }
  }

  /** Tokens are held as before when one client that holds none changes phase
      and still holds none. */
  lemma StillHeld(s: State, after: State, c: nat)
    requires ExclusiveTokens(s) && after.tokens == s.tokens
    requires c < |s.clients| == |after.clients| && !s.clients[c].phase.Holding? && !after.clients[c].phase.Holding?
    requires forall d :: 0 <= d < |s.clients| && d != c ==> after.clients[d] == s.clients[d]
    ensures ExclusiveTokens(after)
  {
    forall i | 0 <= i < |after.tokens| && after.tokens[i].inUse
      ensures exists c :: 0 <= c < |after.clients| && Holds(after.clients[c], i)
    {
      var d :| 0 <= d < |s.clients| && Holds(s.clients[d], i);
      assert Holds(after.clients[d], i);
    }
  }

  lemma ReceiveKeepsExclusive(s: State, after: State, c: nat)
    requires ExclusiveTokens(s) && c < |s.clients| == |after.clients| && |after.tokens| == |s.tokens|
    requires s.clients[c].phase.Holding? && !after.clients[c].phase.Holding?
    requires forall d :: 0 <= d < |s.clients| && d != c ==> after.clients[d] == Notified(s.clients[d])
    requires var i := s.clients[c].phase.token;
      !after.tokens[i].inUse && forall k :: 0 <= k < |s.tokens| && k != i ==> after.tokens[k] == s.tokens[k]
    ensures ExclusiveTokens(after)
  {
    forall i | 0 <= i < |after.tokens| && after.tokens[i].inUse
      ensures exists d :: 0 <= d < |after.clients| && Holds(after.clients[d], i)
    {
      var d :| 0 <= d < |s.clients| && Holds(s.clients[d], i);
      assert Holds(after.clients[d], i);
    }
  }

  lemma ReceiveKeepsValid(s: State, step: Step, maxRetries: nat)
    requires Valid(s, maxRetries) && Enabled(s, step) && step.Receive?
    ensures Valid(Apply(s, step, maxRetries), maxRetries)
  {
    var after := Apply(s, step, maxRetries);
    ReceiveKeepsExclusive(s, after, step.c);
    assert forall d :: 0 <= d < |s.clients| ==>
      Paired(after.clients[d]) && Bounded(after.clients[d], maxRetries) && !after.clients[d].phase.WaitingForSignal?;
  }

  lemma OtherStepsKeepValid(s: State, step: Step, maxRetries: nat)
    requires Valid(s, maxRetries) && Enabled(s, step) && (step.TimeOut? || step.Wake? || step.Tick?)
    ensures Valid(Apply(s, step, maxRetries), maxRetries)
  {
    var after := Apply(s, step, maxRetries);
    if !step.Tick? {
      StillHeld(s, after, step.c);
    }
  }

  lemma StepKeepsValid(s: State, step: Step, maxRetries: nat)
    requires Valid(s, maxRetries) && Enabled(s, step)
    ensures Valid(Apply(s, step, maxRetries), maxRetries)
  {
    if step.Acquire? {
      AcquireKeepsValid(s, step, maxRetries);
    } else if step.Receive? {
      ReceiveKeepsValid(s, step, maxRetries);
    } else {
      OtherStepsKeepValid(s, step, maxRetries);
    }
  }

  lemma {:induction false} RunKeepsValid(s: State, steps: seq<Step>, maxRetries: nat)
    requires Valid(s, maxRetries) && Legal(s, steps, maxRetries)
    ensures Valid(Run(s, steps, maxRetries), maxRetries)
    decreases |steps|
  {
    if steps == [] {
    } else {
      StepKeepsValid(s, steps[0], maxRetries);
      RunKeepsValid(Apply(s, steps[0], maxRetries), steps[1..], maxRetries);
    }
  }

  // ---- What holds on every interleaving ----

  ghost predicate Reachable(s: State, maxRetries: nat) {
    exists tokens, clients, now, steps ::
      tokens > 0 && Legal(Start(tokens, clients, now), steps, maxRetries)
      && s == Run(Start(tokens, clients, now), steps, maxRetries)
  }

  lemma ReachableIsValid(s: State, maxRetries: nat)
    requires Reachable(s, maxRetries)
    ensures Valid(s, maxRetries)
  {
    var tokens: nat, clients: nat, now, steps :|
      tokens > 0 && Legal(Start(tokens, clients, now), steps, maxRetries)
      && s == Run(Start(tokens, clients, now), steps, maxRetries);
    RunKeepsValid(Start(tokens, clients, now), steps, maxRetries);
  }

  /** No token is held by two requests, and each client has released every
      token it acquired but the one it is using. */
  lemma TokensAreExclusive(s: State, maxRetries: nat, c: nat, d: nat)
    requires Reachable(s, maxRetries) && c < |s.clients| && d < |s.clients|
    ensures s.clients[c].phase.Holding? && s.clients[c].phase == s.clients[d].phase ==> c == d
    ensures s.clients[c].acquired == s.clients[c].released + (if s.clients[c].phase.Holding? then 1 else 0)
  {
    ReachableIsValid(s, maxRetries);
  }

  /** A token that is parked, in use, or worse than another available one is
      not handed out. */
  lemma ParkedTokenIsNotHandedOut(s: State, step: Step, i: nat)
    requires Enabled(s, step) && step.Acquire? && i < |s.tokens|
    requires s.tokens[i].inUse || (s.tokens[i].remaining <= 0 && s.now < s.tokens[i].resetAt)
             || exists k :: 0 <= k < |s.tokens| && IsAvailable(s.tokens[k], s.now)
                            && s.tokens[k].remaining > s.tokens[i].remaining
    ensures step.answer != Got(i)
  {
  }

  lemma {:induction false} TimeGoesOn(s: State, steps: seq<Step>, maxRetries: nat)
    requires Legal(s, steps, maxRetries)
    ensures Run(s, steps, maxRetries).now >= s.now
    decreases |steps|
  {
    if steps == [] {
    } else {
      TimeGoesOn(Apply(s, steps[0], maxRetries), steps[1..], maxRetries);
    }
  }

  /** A parked token is not touched by any run that ends before its reset time. */
  lemma {:induction false} ParkedUntilReset(s: State, steps: seq<Step>, maxRetries: nat, i: nat)
    requires Valid(s, maxRetries) && Legal(s, steps, maxRetries) && i < |s.tokens| && IsSleeping(s.tokens[i])
    requires Run(s, steps, maxRetries).now < s.tokens[i].resetAt
    ensures i < |Run(s, steps, maxRetries).tokens| && Run(s, steps, maxRetries).tokens[i] == s.tokens[i]
    decreases |steps|
  {
    if steps == [] {
    } else {
      TimeGoesOn(s, steps, maxRetries);
      StepKeepsValid(s, steps[0], maxRetries);
      ParkedUntilReset(Apply(s, steps[0], maxRetries), steps[1..], maxRetries, i);
    }
  }

  /** Whoever waits is woken: a client in an untimed wait has a request in
      flight on every token; one in a timed wait has a deadline. */
  lemma SomebodyWakesTheWaiter(s: State, maxRetries: nat, c: nat)
    requires Reachable(s, maxRetries) && c < |s.clients| && s.clients[c].phase.WaitingForSignal?
    ensures exists d :: 0 <= d < |s.clients| && s.clients[d].phase.Holding?
    ensures forall d, reply :: 0 <= d < |s.clients| && Enabled(s, Receive(d, reply)) ==>
              Apply(s, Receive(d, reply), maxRetries).clients[c].phase.Ready?
  {
    ReachableIsValid(s, maxRetries);
    assert s.tokens[0].inUse;
    var d :| 0 <= d < |s.clients| && Holds(s.clients[d], 0);
  }

  lemma BackoffsAreBounded(s: State, maxRetries: nat, c: nat)
    requires Reachable(s, maxRetries) && c < |s.clients|
    ensures s.clients[c].backoffs <= maxRetries
  {
    ReachableIsValid(s, maxRetries);
  }

  // ---- Progress ----

  lemma {:induction false} BestAmong(tokens: seq<Token>, now: real, n: nat) returns (i: nat)
    requires n <= |tokens| && exists k :: 0 <= k < n && IsAvailable(tokens[k], now)
    ensures i < n && IsAvailable(tokens[i], now)
    ensures forall k :: 0 <= k < n && IsAvailable(tokens[k], now) ==> tokens[k].remaining <= tokens[i].remaining
    ensures forall k :: 0 <= k < i && IsAvailable(tokens[k], now) ==> tokens[k].remaining < tokens[i].remaining
  {
    if exists k :: 0 <= k < n - 1 && IsAvailable(tokens[k], now) {
      i := BestAmong(tokens, now, n - 1);
      if IsAvailable(tokens[n - 1], now) && tokens[n - 1].remaining > tokens[i].remaining {
        i := n - 1;
      }
    } else {
      i := n - 1;
    }
  }

  lemma {:induction false} SoonestAmong(tokens: seq<Token>, n: nat) returns (i: nat)
    requires n <= |tokens| && exists k :: 0 <= k < n && IsSleeping(tokens[k])
    ensures i < n && IsSleeping(tokens[i])
    ensures forall k :: 0 <= k < n && IsSleeping(tokens[k]) ==> tokens[i].resetAt <= tokens[k].resetAt
  {
    if exists k :: 0 <= k < n - 1 && IsSleeping(tokens[k]) {
      i := SoonestAmong(tokens, n - 1);
      if IsSleeping(tokens[n - 1]) && tokens[n - 1].resetAt < tokens[i].resetAt {
        i := n - 1;
      }
    } else {
      i := n - 1;
    }
  }

  /** A pass of the loop in `acquire` always has an answer. */
  lemma SomeAnswer(tokens: seq<Token>, now: real) returns (a: Attempt)
    ensures Answers(tokens, now, a)
  {
    if exists k :: 0 <= k < |tokens| && IsAvailable(tokens[k], now) {
      var i := BestAmong(tokens, now, |tokens|);
      a := Got(i);
    } else if exists k :: 0 <= k < |tokens| && IsSleeping(tokens[k]) {
      var i := SoonestAmong(tokens, |tokens|);
      var soonest := tokens[i].resetAt;
      assert IsSoonest(tokens, soonest);
      a := WaitUntil(now + Max(0.5, soonest - now));
    } else {
      a := WaitForSignal;
    }
  }

  /** Some client can make a step, once the clock shows `now`. */
  ghost predicate CanStepAt(s: State, now: real) {
    exists step: Step :: !step.Tick? && Enabled(s.(now := now), step)
  }

  /** No interleaving deadlocks: while some request is not finished, a client
      can make a step, at once or when some time has passed. */
  lemma NoDeadlock(s: State, maxRetries: nat)
    requires Reachable(s, maxRetries)
    requires exists c :: 0 <= c < |s.clients| && !s.clients[c].phase.Finished?
    ensures exists now :: now >= s.now && CanStepAt(s, now)
  {
    var c: nat :| c < |s.clients| && !s.clients[c].phase.Finished?;
    match s.clients[c].phase
    case Ready =>
      var a := SomeAnswer(s.tokens, s.now);
      assert Enabled(s.(now := s.now), Acquire(c, a));
      assert CanStepAt(s, s.now);
    case Waiting(deadline) =>
      var now := Max(s.now, deadline);
      assert Enabled(s.(now := now), TimeOut(c));
      assert CanStepAt(s, now);
    case WaitingForSignal =>
      SomebodyWakesTheWaiter(s, maxRetries, c);
      var d: nat :| d < |s.clients| && s.clients[d].phase.Holding?;
      ReachableIsValid(s, maxRetries);
      assert Enabled(s.(now := s.now), Receive(d, NetworkError));
      assert CanStepAt(s, s.now);
    case Holding(i) =>
      ReachableIsValid(s, maxRetries);
      assert Enabled(s.(now := s.now), Receive(c, NetworkError));
      assert CanStepAt(s, s.now);
    case Resting =>
      assert Enabled(s.(now := s.now), Wake(c));
      assert CanStepAt(s, s.now);
  }
}
