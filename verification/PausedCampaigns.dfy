/**
  What a campaign that is not active still does: nothing new is scheduled for
  it, but messages that already wait are sent, unless their address is on the
  unsubscribe list.
 */
module PausedCampaigns {
  import opened Outreach
  import opened OutreachSafety
  import opened SequenceGaps

  /** A start or a resume of the campaign. */
  predicate Activates(e: Event, c: Id) {
    (e.Start? && e.c == c) || (e.MoveCampaign? && e.c == c && e.to == Active)
  }

  ghost predicate NeverActivates(events: seq<Event>, c: Id) {
    forall i :: 0 <= i < |events| ==> !Activates(events[i], c)
  }

  /** From `s` to `t` no message of the campaign was created, and none was
      handed to a provider. */
  ghost predicate SendsNothing(s: Store, t: Store, c: Id) {
    && |s.messages| <= |t.messages|
    && forall i :: 0 <= i < |t.messages| ==>
         if i >= |s.messages| then t.messages[i].campaign != c
         else
           t.messages[i].campaign == s.messages[i].campaign
           && (s.messages[i].campaign == c ==> t.messages[i].attempts == s.messages[i].attempts)
  }

  /** The campaign is not active, and whatever waits in it has an address that
      is on the unsubscribe list. */
  ghost predicate Silent(s: Store, c: Id) {
    && c in s.campaigns && s.campaigns[c].status != Active
    && forall i :: 0 <= i < |s.messages| && s.messages[i].campaign == c && IsWaiting(s.messages[i]) ==>
         s.messages[i].toEmail in s.unsubscribed
  }

  ghost predicate Hushed(s: Store, t: Store, c: Id) {
    SendsNothing(s, t, c) && Silent(t, c)
  }

  lemma HushedChains(s: Store, t: Store, u: Store, c: Id)
    requires Hushed(s, t, c) && Hushed(t, u, c)
    ensures Hushed(s, u, c)
  {
  }

  lemma AdvanceHushes(cfg: Config, s: Store, r: Id, c: Id)
    requires Silent(s, c)
    ensures Hushed(s, Advance(cfg, s, r), c)
  {
  }

  lemma AttemptHushes(cfg: Config, s: Store, i: nat, outcome: Outcome, c: Id)
    requires Silent(s, c) && i < |s.messages| && IsWaiting(s.messages[i]) && s.messages[i].mailbox in s.mailboxes
    requires s.messages[i].toEmail !in s.unsubscribed
    ensures Hushed(s, Attempt(cfg, s, i, outcome), c)
  {
    match outcome
    case Accepted =>
      var t := MarkSent(s, i);
      assert Hushed(s, t, c);
      AdvanceHushes(cfg, t, s.messages[i].recipient, c);
      HushedChains(s, t, Advance(cfg, t, s.messages[i].recipient), c);
    case _ =>
  }

  lemma SendOneHushes(cfg: Config, s: Store, d: Delivery, day: int, c: Id)
    requires Silent(s, c) && d.message < |s.messages| && IsWaiting(s.messages[d.message])
    ensures Hushed(s, SendOne(cfg, s, d, day), c)
  {
    if Attempts(s, d.message, day) {
      AttemptHushes(cfg, CheckDay(s, s.messages[d.message].mailbox, day), d.message, d.outcome, c);
    }
  }

  lemma SendAllHushes(cfg: Config, s: Store, batch: seq<Delivery>, day: int, c: Id)
    requires Silent(s, c) && IsBatch(s, batch)
    ensures Hushed(s, SendAll(cfg, s, batch, day), c)
  {
    var f, inv := Sender(cfg, day), (t: Store) => Hushed(s, t, c);
    SenderKeepsOthers(cfg, day);
    forall t: Store, d: Delivery | inv(t) && d.message < |t.messages| && IsWaiting(t.messages[d.message])
      ensures inv(f(t, d))
    {
      SendOneHushes(cfg, t, d, day, c);
      HushedChains(s, t, f(t, d), c);
    }
    LoopKeeps(f, inv, s, batch, |batch|);
  }

  lemma {:induction false} ScheduleFirstHushes(s: Store, other: Id, step: Step, page: seq<Id>, n: nat, c: Id)
    requires Silent(s, c) && other != c && n <= |page|
    ensures Hushed(s, ScheduleFirst(s, other, step, page, n), c)
  {
    if n == 0 {
    } else {
      ScheduleFirstHushes(s, other, step, page, n - 1, c);
      var t := ScheduleFirst(s, other, step, page, n - 1);
      HushedChains(s, t, ScheduleIfActive(t, other, step, page[n - 1]), c);
    }
  }

  lemma StartHushes(cfg: Config, s: Store, other: Id, page: seq<Id>, c: Id)
    requires Silent(s, c) && other != c
    ensures Hushed(s, StartCampaign(cfg, s, other, page), c)
  {
    var next := NextStep(cfg.steps(other), -1);
    if MayMove(s, other, Active) && next.Some? {
      ScheduleFirstHushes(Started(s, other), other, next.value, page, |page|, c);
    }
  }

  lemma StopHushes(s: Store, r: Id, status: RecipientStatus, c: Id)
    requires Silent(s, c)
    ensures Hushed(s, Stop(s, r, status), c) && Hushed(s, Remove(s, r), c)
  {
  }

  lemma TrackingHushes(s: Store, i: nat, c: Id)
    requires Silent(s, c) && i < |s.messages|
    ensures Hushed(s, Reply(s, i), c) && Hushed(s, Bounce(s, i), c) && Hushed(s, Unsubscribe(s, i), c)
  {
    var m := s.messages[i];
    var bounced := WithMessage(s, i, m.(status := Returned));
    var listed := s.(unsubscribed := s.unsubscribed + {m.toEmail});
    StopHushes(s, m.recipient, Replied, c);
    StopHushes(bounced, m.recipient, Bounced, c);
    StopHushes(listed, m.recipient, Unsubscribed, c);
    assert Hushed(s, bounced, c) && Hushed(s, listed, c);
    HushedChains(s, bounced, Stop(bounced, m.recipient, Bounced), c);
    HushedChains(s, listed, Stop(listed, m.recipient, Unsubscribed), c);
  }

  lemma EventHushes(cfg: Config, s: Store, e: Event, c: Id)
    requires Silent(s, c) && Legal(s, e) && !Activates(e, c)
    ensures Hushed(s, Apply(cfg, s, e), c)
  {
    match e
    case Start(other, page) => StartHushes(cfg, s, other, page, c);
    case SendQueue(batch, day) => SendAllHushes(cfg, s, batch, day, c);
    case RemoveRecipient(r) => StopHushes(s, r, Replied, c);
    case RecordReply(i) => if i < |s.messages| { TrackingHushes(s, i, c); }
    case RecordBounce(i) => if i < |s.messages| { TrackingHushes(s, i, c); }
    case ProcessUnsubscribe(i) => if i < |s.messages| { TrackingHushes(s, i, c); }
    case _ =>
  }

  lemma {:induction false} RunHushes(cfg: Config, s: Store, events: seq<Event>, c: Id)
    requires Silent(s, c) && LegalRun(cfg, s, events) && NeverActivates(events, c)
    ensures Hushed(s, Run(cfg, s, events), c)
    decreases |events|
  {
    if events == [] {
    } else {
      EventHushes(cfg, s, events[0], c);
      var t := Apply(cfg, s, events[0]);
      RunHushes(cfg, t, events[1..], c);
      HushedChains(s, t, Run(cfg, t, events[1..]), c);
    }
  }

  /** One message of a batch of one is handed over: its mailbox is put in
      order first. */
  lemma WaitingIsSent(cfg: Config, s: Store, i: nat) returns (events: seq<Event>)
    requires i < |s.messages| && IsWaiting(s.messages[i]) && s.messages[i].toEmail !in s.unsubscribed
    ensures LegalRun(cfg, s, events) && |events| == 2 && events[0].PutMailbox? && events[1].SendQueue?
    ensures i < |Run(cfg, s, events).messages|
    ensures Run(cfg, s, events).messages[i] == s.messages[i].(status := Sent, attempts := s.messages[i].attempts + 1)
  {
    var b, d := s.messages[i].mailbox, Delivery(i, Accepted);
    var put, send := PutMailbox(b, BOX), SendQueue([d], 0);
    var t := Apply(cfg, s, put);
    events := [put, send];
    assert events[1..] == [send] && [send][1..] == [];
    assert IsBatch(t, [d]);
    assert Loop(Sender(cfg, 0), t, [d], 1) == Sender(cfg, 0)(Loop(Sender(cfg, 0), t, [d], 0), d);
    assert SendAll(cfg, t, [d], 0) == SendOne(cfg, t, d, 0);
    assert Run(cfg, s, events) == Run(cfg, t, [send]) == SendAll(cfg, t, [d], 0);
  }

  /** A campaign that is not active sends nothing more, in every run that
      neither starts nor resumes it, exactly when all that waits in it has an
      address on the unsubscribe list. */
  lemma SendsNothingExactlyWhen(cfg: Config, s: Store, c: Id)
    requires c in s.campaigns && s.campaigns[c].status != Active
    ensures (forall events :: LegalRun(cfg, s, events) && NeverActivates(events, c) ==>
               SendsNothing(s, Run(cfg, s, events), c))
            <==> Silent(s, c)
  {
    if Silent(s, c) {
      forall events | LegalRun(cfg, s, events) && NeverActivates(events, c)
        ensures SendsNothing(s, Run(cfg, s, events), c)
      {
        RunHushes(cfg, s, events, c);
      }
    } else {
      var i: nat :| i < |s.messages| && s.messages[i].campaign == c && IsWaiting(s.messages[i])
                    && s.messages[i].toEmail !in s.unsubscribed;
      var events := WaitingIsSent(cfg, s, i);
      assert NeverActivates(events, c);
      assert !SendsNothing(s, Run(cfg, s, events), c);
    }
  }

  /** A run that gets there: a campaign is started and cancelled, and after
      that its message is sent. */
  lemma CancelledSendIsReached() returns (cfg: Config, s: Store, t: Store)
    ensures Reachable(cfg, s) && LiveCampaign(s, 0) && s.campaigns[0].status == Cancelled
    ensures |s.messages| == 1 && s.messages[0].attempts == 0
    ensures t == SendAll(cfg, s, [Delivery(0, Accepted)], 0) && Reachable(cfg, t)
    ensures t.messages == [s.messages[0].(status := Sent, attempts := 1)]
  {
    cfg := Config(_ => [Step(1, true)], 3);
    s := Small(Cancelled, 1, WRITTEN, [First(Scheduled, 0)]);
    HaltIsReached(cfg, Cancelled);
    SendFirstMessage(cfg, s);
    t := Attempt(cfg, s, 0, Accepted);
  }
}
