/**
  Where outreach sequences stop in silence, repeat themselves, or go on after
  an unsubscribe: each time the exact condition, and a run that gets there.
 */
module SequenceGaps {
  import opened Basics
  import opened Outreach
  import opened OutreachSafety

  // ---- Runs from the empty tables ----

  ghost predicate Reachable(cfg: Config, s: Store) {
    exists events :: LegalRun(cfg, EMPTY, events) && Run(cfg, EMPTY, events) == s
  }

  lemma {:induction false} OneMoreEvent(cfg: Config, s: Store, events: seq<Event>, e: Event)
    requires LegalRun(cfg, s, events) && Legal(Run(cfg, s, events), e)
    ensures LegalRun(cfg, s, events + [e]) && Run(cfg, s, events + [e]) == Apply(cfg, Run(cfg, s, events), e)
    decreases |events|
  {
    if events == [] {
      assert [e][1..] == [];
      assert Run(cfg, Apply(cfg, s, e), []) == Apply(cfg, s, e);
    } else {
      OneMoreEvent(cfg, Apply(cfg, s, events[0]), events[1..], e);
      assert (events + [e])[1..] == events[1..] + [e];
    }
  }

  lemma Then(cfg: Config, s: Store, e: Event)
    requires Reachable(cfg, s) && Legal(s, e)
    ensures Reachable(cfg, Apply(cfg, s, e))
  {
    var events :| LegalRun(cfg, EMPTY, events) && Run(cfg, EMPTY, events) == s;
    OneMoreEvent(cfg, EMPTY, events, e);
  }

  lemma EmptyIsReachable(cfg: Config)
    ensures Reachable(cfg, EMPTY)
  {
    assert LegalRun(cfg, EMPTY, []) && Run(cfg, EMPTY, []) == EMPTY;
  }

  lemma ReachableIsGood(cfg: Config, s: Store)
    requires Reachable(cfg, s)
    ensures Good(cfg, s)
  {
    var events :| LegalRun(cfg, EMPTY, events) && Run(cfg, EMPTY, events) == s;
    EmptyIsGood(cfg);
    RunKeepsGood(cfg, EMPTY, events);
  }

  const BOX := Mailbox(true, 35, false, None, 0, Some(0), false)

  /** Campaign 0 with recipient 0, in the given states, and messages of step 1. */
  function Small(status: CampaignStatus, starts: nat, recipient: Recipient, messages: seq<Message>): Store {
    Store(map[0 := Campaign(status, true, true, 0, false, starts)], map[0 := recipient], messages, map[0 := BOX], {}, 0)
  }

  function First(status: MessageStatus, attempts: nat): Message {
    Message(0, 1, 0, 0, "a", status, 0, attempts, 0)
  }

  const NEW := Recipient(0, "a", InSequence, 0, false)
  const WRITTEN := Recipient(0, "a", InSequence, 1, false)

  lemma OnlyRecipient(s: Store)
    requires s.recipients.Keys == {0} && s.recipients[0].campaign == 0 && !s.recipients[0].deleted
    ensures IsPage(s, 0, [0])
  {
    assert RecipientsOf(s, 0) == {0};
  }

  lemma DraftIsReached(cfg: Config)
    ensures Reachable(cfg, Small(Draft, 0, NEW, []))
  {
    EmptyIsReachable(cfg);
    Then(cfg, EMPTY, CreateCampaign(0, true, true, 0));
    var a := Apply(cfg, EMPTY, CreateCampaign(0, true, true, 0));
    assert a == EMPTY.(campaigns := map[0 := Campaign(Draft, true, true, 0, false, 0)]);
    Then(cfg, a, PutMailbox(0, BOX));
    var b := a.(mailboxes := map[0 := BOX]);
    assert Apply(cfg, a, PutMailbox(0, BOX)) == b;
    Then(cfg, b, AddRecipient(0, 0, "a"));
    assert Apply(cfg, b, AddRecipient(0, 0, "a")) == Small(Draft, 0, NEW, []);
  }

  /** A campaign with one recipient is started. */
  lemma StartIsReached(cfg: Config)
    requires NextStep(cfg.steps(0), -1) == Some(Step(1, true))
    ensures Reachable(cfg, Small(Active, 1, WRITTEN, [First(Scheduled, 0)]))
  {
    var s := Small(Draft, 0, NEW, []);
    DraftIsReached(cfg);
    OnlyRecipient(s);
    Then(cfg, s, Start(0, [0]));
    StartSmall(cfg, s);
  }

  /** Starting the campaign of the only recipient. */
  lemma StartSmall(cfg: Config, s: Store)
    requires NextStep(cfg.steps(0), -1) == Some(Step(1, true))
    requires MayMove(s, 0, Active) && s.campaigns[0].mailbox == 0 && LiveMailbox(s, 0)
    requires 0 in s.recipients && s.recipients[0].status == InSequence && s.recipients[0].email == "a"
    ensures StartCampaign(cfg, s, 0, [0])
            == Started(s, 0).(messages := s.messages + [First(Scheduled, 0)],
                              recipients := s.recipients[0 := s.recipients[0].(current := 1)])
  {
    var t := Started(s, 0);
    assert ScheduleFirst(t, 0, Step(1, true), [0], 0) == t;
    assert ScheduleFirst(t, 0, Step(1, true), [0], 1) == ScheduleIfActive(t, 0, Step(1, true), 0);
  }

  // ---- When a sequence goes on ----

  /** What `advance_recipient` needs in order to do something. */
  predicate CanGoOn(cfg: Config, s: Store, r: Id) {
    && LiveRecipient(s, r)
    && var c := s.recipients[r].campaign;
    && LiveCampaign(s, c) && s.campaigns[c].status == Active
    && match NextStep(cfg.steps(c), s.recipients[r].current)
       case None => s.recipients[r].status != Finished
       case Some(step) => step.isEmail && LiveMailbox(s, s.campaigns[c].mailbox)
  }

  ghost predicate GotMessage(s: Store, t: Store, r: Id) {
    exists i :: |s.messages| <= i < |t.messages| && t.messages[i].recipient == r && IsWaiting(t.messages[i])
  }

  predicate BecameFinished(s: Store, t: Store, r: Id) {
    r in s.recipients && r in t.recipients && s.recipients[r].status != Finished && t.recipients[r].status == Finished
  }

  /** After an accepted message its recipient gets the next one, or becomes
      finished, exactly when the campaign is live and active and either no step
      is left or the next one is an email and the mailbox is live. */
  lemma MovesOnExactlyWhen(cfg: Config, s: Store, i: nat)
    requires i < |s.messages| && s.messages[i].mailbox in s.mailboxes && s.messages[i].recipient in s.recipients
    ensures var t, r := Attempt(cfg, s, i, Accepted), s.messages[i].recipient;
      && (GotMessage(s, t, r) || BecameFinished(s, t, r) <==> CanGoOn(cfg, s, r))
      && (!CanGoOn(cfg, s, r) ==> t.recipients == s.recipients && |t.messages| == |s.messages|)
  {
    var t, r := Attempt(cfg, s, i, Accepted), s.messages[i].recipient;
    if CanGoOn(cfg, s, r) && NextStep(cfg.steps(s.recipients[r].campaign), s.recipients[r].current).Some? {
      assert |t.messages| == |s.messages| + 1 && t.messages[|s.messages|].recipient == r;
    }
  }

  /** The recipient is not finished, and in no later run, unless its campaign
      is started again, is anything created for it or sent to it. */
  ghost predicate LeftBehind(cfg: Config, t: Store, r: Id) {
    && r in t.recipients && t.recipients[r].status != Finished
    && forall events :: LegalRun(cfg, t, events) && NeverStarts(events, t.recipients[r].campaign) ==>
         Leaves(t, Run(cfg, t, events), r)
  }

  /** An accepted message leaves its recipient behind for good exactly when the
      sequence cannot go on at that moment, the recipient is not finished, and
      no other message of it waits. */
  lemma LeftBehindExactlyWhen(cfg: Config, s: Store, i: nat)
    requires i < |s.messages| && s.messages[i].mailbox in s.mailboxes && s.messages[i].recipient in s.recipients
    ensures var r := s.messages[i].recipient;
      LeftBehind(cfg, Attempt(cfg, s, i, Accepted), r)
      <==> !CanGoOn(cfg, s, r) && s.recipients[r].status != Finished && Quiet(MarkSent(s, i), r)
  {
    var t, r := Attempt(cfg, s, i, Accepted), s.messages[i].recipient;
    MovesOnExactlyWhen(cfg, s, i);
    if LeftBehind(cfg, t, r) {
      assert LegalRun(cfg, t, []) && NeverStarts([], t.recipients[r].campaign) && Run(cfg, t, []) == t;
      assert Quiet(t, r);
    }
    if !CanGoOn(cfg, s, r) && s.recipients[r].status != Finished && Quiet(MarkSent(s, i), r) {
      forall events | LegalRun(cfg, t, events) && NeverStarts(events, t.recipients[r].campaign)
        ensures Leaves(t, Run(cfg, t, events), r)
      {
        QuietForGood(cfg, t, events, r);
      }
    }
  }

  /** In a campaign started once the last condition always holds. */
  lemma StartedOnceLeavesBehind(cfg: Config, s: Store, i: nat)
    requires Reachable(cfg, s) && i < |s.messages| && IsWaiting(s.messages[i]) && s.messages[i].mailbox in s.mailboxes
    requires StartedOnce(s, s.messages[i].campaign)
    ensures s.messages[i].recipient in s.recipients
    ensures var r := s.messages[i].recipient;
      LeftBehind(cfg, Attempt(cfg, s, i, Accepted), r) <==> !CanGoOn(cfg, s, r) && s.recipients[r].status != Finished
  {
    ReachableIsGood(cfg, s);
    SentIsTheLastOne(cfg, s, i);
    LeftBehindExactlyWhen(cfg, s, i);
  }

  /** From a start to an accepted first message. */
  lemma SendFirstMessage(cfg: Config, s: Store)
    requires Reachable(cfg, s) && |s.messages| == 1 && IsWaiting(s.messages[0])
    requires Connected(s, 0) && Capacity(s.mailboxes[0]) > 0 && Today(s.mailboxes[0], 0) == s.mailboxes[0]
    requires s.messages[0].mailbox == 0 && s.messages[0].toEmail !in s.unsubscribed
    ensures SendAll(cfg, s, [Delivery(0, Accepted)], 0) == Attempt(cfg, s, 0, Accepted)
    ensures Reachable(cfg, Attempt(cfg, s, 0, Accepted))
  {
    var d := Delivery(0, Accepted);
    Then(cfg, s, SendQueue([d], 0));
    assert CheckDay(s, 0, 0) == s;
    assert Loop(Sender(cfg, 0), s, [d], 1) == Sender(cfg, 0)(Loop(Sender(cfg, 0), s, [d], 0), d);
    assert SendAll(cfg, s, [d], 0) == Attempt(cfg, s, 0, Accepted);
  }

  /** A wait step gets there: the recipient of a started campaign is left
      behind although the campaign is active and has a step to go. */
  lemma WaitStepIsReached() returns (cfg: Config, s: Store)
    ensures Reachable(cfg, s) && LiveCampaign(s, 0) && s.campaigns[0].status == Active && 0 in s.recipients
    ensures NextStep(cfg.steps(0), s.recipients[0].current) == Some(Step(2, false))
    ensures LeftBehind(cfg, s, 0)
  {
    cfg := Config(_ => [Step(1, true), Step(2, false)], 3);
    var before := Small(Active, 1, WRITTEN, [First(Scheduled, 0)]);
    StartIsReached(cfg);
    SendFirstMessage(cfg, before);
    s := Attempt(cfg, before, 0, Accepted);
    StartedOnceLeavesBehind(cfg, before, 0);
  }

  /** A campaign is started, and then paused or cancelled before its first
      message is sent. */
  lemma HaltIsReached(cfg: Config, status: CampaignStatus)
    requires NextStep(cfg.steps(0), -1) == Some(Step(1, true)) && (status == Paused || status == Cancelled)
    ensures Reachable(cfg, Small(status, 1, WRITTEN, [First(Scheduled, 0)]))
  {
    var started := Small(Active, 1, WRITTEN, [First(Scheduled, 0)]);
    StartIsReached(cfg);
    Then(cfg, started, MoveCampaign(0, status));
    assert Apply(cfg, started, MoveCampaign(0, status)) == Small(status, 1, WRITTEN, [First(Scheduled, 0)]);
  }

  /** So does a pause at the wrong moment: after the resume the campaign is
      active, the next step is an email, and the recipient is left behind. */
  lemma PausedSendIsReached() returns (cfg: Config, s: Store)
    ensures Reachable(cfg, s) && LiveCampaign(s, 0) && s.campaigns[0].status == Active && 0 in s.recipients
    ensures NextStep(cfg.steps(0), s.recipients[0].current) == Some(Step(2, true))
    ensures LeftBehind(cfg, s, 0)
  {
    cfg := Config(_ => [Step(1, true), Step(2, true)], 3);
    var paused := Small(Paused, 1, WRITTEN, [First(Scheduled, 0)]);
    HaltIsReached(cfg, Paused);
    SendFirstMessage(cfg, paused);
    var sent := Attempt(cfg, paused, 0, Accepted);
    StartedOnceLeavesBehind(cfg, paused, 0);
    Then(cfg, sent, MoveCampaign(0, Active));
    s := Apply(cfg, sent, MoveCampaign(0, Active));
    ResumeLeavesBehind(cfg, sent, s);
  }

  lemma ResumeLeavesBehind(cfg: Config, s: Store, t: Store)
    requires LeftBehind(cfg, s, 0) && s.recipients[0].campaign == 0 && t == Apply(cfg, s, MoveCampaign(0, Active))
    ensures LeftBehind(cfg, t, 0)
  {
    assert LegalRun(cfg, s, []) && NeverStarts([], 0) && Run(cfg, s, []) == s;
    assert Leaves(s, s, 0);
    forall events | LegalRun(cfg, t, events) && NeverStarts(events, 0) ensures Leaves(t, Run(cfg, t, events), 0) {
      QuietForGood(cfg, t, events, 0);
    }
  }

  // ---- When a start repeats a step ----

  /** Message `i`, not there in `s`, is for recipient `r` and of that order. */
  predicate IsNewFor(s: Store, t: Store, i: nat, r: Id, order: nat) {
    |s.messages| <= i < |t.messages| && t.messages[i].recipient == r && t.messages[i].order == order
    && IsWaiting(t.messages[i])
  }

  lemma {:induction false} PageIsScheduled(s: Store, c: Id, step: Step, page: seq<Id>, n: nat, k: nat)
    requires k < n <= |page| && c in s.campaigns && LiveMailbox(s, s.campaigns[c].mailbox) && step.isEmail
    requires page[k] in s.recipients && s.recipients[page[k]].status == InSequence
    ensures exists i :: IsNewFor(s, ScheduleFirst(s, c, step, page, n), i, page[k], step.order)
  {
    var t := ScheduleFirst(s, c, step, page, n - 1);
    ScheduleFirstKeepsRows(s, c, step, page, n - 1, page[k]);
    if k < n - 1 {
      PageIsScheduled(s, c, step, page, n - 1, k);
      var i :| IsNewFor(s, t, i, page[k], step.order);
      assert IsNewFor(s, ScheduleFirst(s, c, step, page, n), i, page[k], step.order);
    } else {
      assert IsNewFor(s, ScheduleFirst(s, c, step, page, n), |t.messages|, page[k], step.order);
    }
  }

  lemma {:induction false} ScheduleFirstKeepsRows(s: Store, c: Id, step: Step, page: seq<Id>, n: nat, r: Id)
    requires n <= |page| && r in s.recipients
    ensures var t := ScheduleFirst(s, c, step, page, n);
      && t.campaigns == s.campaigns && t.mailboxes == s.mailboxes && s.messages <= t.messages
      && r in t.recipients && t.recipients[r].status == s.recipients[r].status
  {
    if n == 0 {
    } else {
      ScheduleFirstKeepsRows(s, c, step, page, n - 1, r);
    }
  }

  /** A start schedules the first step, if it is an email and the mailbox is
      there, for every active recipient it reads. */
  lemma StartSchedulesAll(cfg: Config, s: Store, c: Id, page: seq<Id>, k: nat)
    requires MayMove(s, c, Active) && LiveMailbox(s, s.campaigns[c].mailbox) && k < |page|
    requires page[k] in s.recipients && s.recipients[page[k]].status == InSequence
    requires NextStep(cfg.steps(c), -1).Some? && NextStep(cfg.steps(c), -1).value.isEmail
    ensures exists i :: IsNewFor(s, StartCampaign(cfg, s, c, page), i, page[k], NextStep(cfg.steps(c), -1).value.order)
  {
    var step := NextStep(cfg.steps(c), -1).value;
    PageIsScheduled(Started(s, c), c, step, page, |page|, k);
    var i :| IsNewFor(Started(s, c), StartCampaign(cfg, s, c, page), i, page[k], step.order);
    assert IsNewFor(s, StartCampaign(cfg, s, c, page), i, page[k], step.order);
  }

  /** What a start creates: messages of its first step, for active recipients
      that it read. */
  lemma {:induction false} NewAreFirstSteps(s: Store, c: Id, step: Step, page: seq<Id>, n: nat, j: nat)
    requires n <= |page| && |s.messages| <= j < |ScheduleFirst(s, c, step, page, n).messages|
    ensures c in s.campaigns && LiveMailbox(s, s.campaigns[c].mailbox) && step.isEmail
    ensures ScheduleFirst(s, c, step, page, n).messages[j].order == step.order
    ensures exists k :: 0 <= k < n && page[k] in s.recipients && s.recipients[page[k]].status == InSequence
              && ScheduleFirst(s, c, step, page, n).messages[j].recipient == page[k]
  {
    if n == 0 {
    } else {
      var t := ScheduleFirst(s, c, step, page, n - 1);
      if j < |t.messages| {
        NewAreFirstSteps(s, c, step, page, n - 1, j);
      } else {
        ScheduleFirstMoves(s, c, step, page, n - 1, page[n - 1]);
      }
    }
  }

  lemma {:induction false} ScheduleFirstMoves(s: Store, c: Id, step: Step, page: seq<Id>, n: nat, r: Id)
    requires n <= |page|
    ensures var t := ScheduleFirst(s, c, step, page, n);
      && t.campaigns == s.campaigns && t.mailboxes == s.mailboxes && s.messages <= t.messages
      && (r in t.recipients <==> r in s.recipients)
      && (r in s.recipients ==> t.recipients[r].status == s.recipients[r].status)
  {
    if n == 0 {
    } else {
      ScheduleFirstMoves(s, c, step, page, n - 1, r);
    }
  }

  /** A message of `t`, not there in `s`, has the recipient and the step order
      of one of `s`. */
  ghost predicate Repeats(s: Store, t: Store) {
    exists i, j :: 0 <= i < |s.messages| <= j < |t.messages|
      && s.messages[i].recipient == t.messages[j].recipient && s.messages[i].order == t.messages[j].order
  }

  ghost predicate HasStep(s: Store, r: Id, order: nat) {
    exists i :: 0 <= i < |s.messages| && s.messages[i].recipient == r && s.messages[i].order == order
  }

  /** Some active recipient that is read already has a message of the order. */
  ghost predicate SomeoneHasStep(s: Store, page: seq<Id>, order: nat) {
    exists k :: 0 <= k < |page| && page[k] in s.recipients && s.recipients[page[k]].status == InSequence
      && HasStep(s, page[k], order)
  }

  lemma RepeatsNeeds(cfg: Config, s: Store, c: Id, page: seq<Id>, i: nat, j: nat)
    requires i < |s.messages| <= j < |StartCampaign(cfg, s, c, page).messages|
    requires s.messages[i].recipient == StartCampaign(cfg, s, c, page).messages[j].recipient
    requires s.messages[i].order == StartCampaign(cfg, s, c, page).messages[j].order
    ensures MayMove(s, c, Active) && LiveMailbox(s, s.campaigns[c].mailbox)
    ensures var first := NextStep(cfg.steps(c), -1);
      first.Some? && first.value.isEmail && SomeoneHasStep(s, page, first.value.order)
  {
    var step := NextStep(cfg.steps(c), -1).value;
    NewAreFirstSteps(Started(s, c), c, step, page, |page|, j);
    var k :| 0 <= k < |page| && page[k] in s.recipients && s.recipients[page[k]].status == InSequence
      && s.messages[i].recipient == page[k];
    assert HasStep(s, page[k], step.order);
  }

  lemma RepeatsFollows(cfg: Config, s: Store, c: Id, page: seq<Id>)
    requires MayMove(s, c, Active) && LiveMailbox(s, s.campaigns[c].mailbox)
    requires NextStep(cfg.steps(c), -1).Some? && NextStep(cfg.steps(c), -1).value.isEmail
    requires SomeoneHasStep(s, page, NextStep(cfg.steps(c), -1).value.order)
    ensures Repeats(s, StartCampaign(cfg, s, c, page))
  {
    var t, order := StartCampaign(cfg, s, c, page), NextStep(cfg.steps(c), -1).value.order;
    var k :| 0 <= k < |page| && page[k] in s.recipients && s.recipients[page[k]].status == InSequence
      && HasStep(s, page[k], order);
    var i :| 0 <= i < |s.messages| && s.messages[i].recipient == page[k] && s.messages[i].order == order;
    StartSchedulesAll(cfg, s, c, page, k);
    var j: nat :| IsNewFor(s, t, j, page[k], order);
    assert s.messages[i].recipient == t.messages[j].recipient && s.messages[i].order == t.messages[j].order;
  }

  /** A start writes a step to a recipient again exactly when it goes ahead,
      its first step is an email from a live mailbox, and some active recipient
      it reads has a message of that step. */
  lemma RestartRepeatsExactlyWhen(cfg: Config, s: Store, c: Id, page: seq<Id>)
    ensures Repeats(s, StartCampaign(cfg, s, c, page)) <==>
      && MayMove(s, c, Active) && LiveMailbox(s, s.campaigns[c].mailbox)
      && var first := NextStep(cfg.steps(c), -1);
         first.Some? && first.value.isEmail && SomeoneHasStep(s, page, first.value.order)
  {
    var t, first := StartCampaign(cfg, s, c, page), NextStep(cfg.steps(c), -1);
    if Repeats(s, t) {
      var i: nat, j: nat :| i < |s.messages| <= j < |t.messages|
        && s.messages[i].recipient == t.messages[j].recipient && s.messages[i].order == t.messages[j].order;
      RepeatsNeeds(cfg, s, c, page, i, j);
    } else if MayMove(s, c, Active) && LiveMailbox(s, s.campaigns[c].mailbox)
              && first.Some? && first.value.isEmail && SomeoneHasStep(s, page, first.value.order) {
      RepeatsFollows(cfg, s, c, page);
    }
  }

  /** Pausing and starting gets there: the recipient has its first step twice. */
  lemma RestartIsReached() returns (cfg: Config, s: Store, t: Store)
    ensures Reachable(cfg, s) && IsPage(s, 0, [0]) && t == StartCampaign(cfg, s, 0, [0])
    ensures Reachable(cfg, t) && Repeats(s, t) && t.messages == [First(Scheduled, 0), First(Scheduled, 0)]
  {
    cfg := Config(_ => [Step(1, true)], 3);
    HaltIsReached(cfg, Paused);
    s := Small(Paused, 1, WRITTEN, [First(Scheduled, 0)]);
    OnlyRecipient(s);
    Then(cfg, s, Start(0, [0]));
    StartSmall(cfg, s);
    t := StartCampaign(cfg, s, 0, [0]);
    assert s.messages[0].recipient == t.messages[1].recipient;
  }

  // ---- Whom an unsubscribe stops ----

  /** An unsubscribe changes the row and the messages of no other recipient,
      whatever its address, and stops exactly the live recipient of the message. */
  lemma UnsubscribeStopsOne(s: Store, i: nat, q: Id)
    requires i < |s.messages| && q in s.recipients && s.recipients[q].status != Unsubscribed
    ensures var t, r := Unsubscribe(s, i), s.messages[i].recipient;
      && q in t.recipients && |t.messages| == |s.messages|
      && (t.recipients[q].status == Unsubscribed <==> q == r && LiveRecipient(s, q))
      && (q != r ==> t.recipients[q] == s.recipients[q])
      && (forall j :: 0 <= j < |s.messages| && s.messages[j].recipient != r ==> t.messages[j] == s.messages[j])
  {
  }

  /** The live recipients with an address, in whatever campaign. */
  predicate HasAddress(s: Store, q: Id, email: string) {
    LiveRecipient(s, q) && s.recipients[q].email == email
  }

  /** After an unsubscribe all recipients with the address are stopped exactly
      when all others were stopped before. */
  lemma AllStoppedExactlyWhen(s: Store, i: nat)
    requires i < |s.messages|
    ensures var t, r, email := Unsubscribe(s, i), s.messages[i].recipient, s.messages[i].toEmail;
      (forall q :: HasAddress(t, q, email) ==> IsStopped(t.recipients[q].status))
      <==> forall q :: HasAddress(s, q, email) && q != r ==> IsStopped(s.recipients[q].status)
  {
    var t, r, email := Unsubscribe(s, i), s.messages[i].recipient, s.messages[i].toEmail;
    assert forall q :: HasAddress(t, q, email) <==> HasAddress(s, q, email);
    assert forall q :: HasAddress(s, q, email) && q != r ==> t.recipients[q] == s.recipients[q];
    assert HasAddress(s, r, email) ==> t.recipients[r].status == Unsubscribed;
  }

  /** Two campaigns with a recipient of the same address; only the second is
      still a draft. */
  function TwoCampaigns(): Store {
    var s := Small(Active, 1, WRITTEN, [First(Scheduled, 0)]);
    s.(campaigns := s.campaigns[1 := Campaign(Draft, true, true, 0, false, 0)],
       recipients := s.recipients[1 := Recipient(1, "a", InSequence, 0, false)])
  }

  lemma TwoCampaignsAreReached(cfg: Config)
    requires NextStep(cfg.steps(0), -1) == Some(Step(1, true))
    ensures Reachable(cfg, TwoCampaigns())
  {
    var a := Small(Active, 1, WRITTEN, [First(Scheduled, 0)]);
    StartIsReached(cfg);
    Then(cfg, a, CreateCampaign(1, true, true, 0));
    var b := a.(campaigns := a.campaigns[1 := Campaign(Draft, true, true, 0, false, 0)]);
    assert Apply(cfg, a, CreateCampaign(1, true, true, 0)) == b;
    Then(cfg, b, AddRecipient(1, 1, "a"));
    assert Apply(cfg, b, AddRecipient(1, 1, "a")) == TwoCampaigns();
  }

  /** One address enrolled in two campaigns, both started. */
  function BothStarted(): Store {
    Schedule(Started(TwoCampaigns(), 1), 1, Step(1, true), 1)
  }

  lemma StartSecond(cfg: Config)
    requires NextStep(cfg.steps(1), -1) == Some(Step(1, true))
    ensures IsPage(TwoCampaigns(), 1, [1])
    ensures StartCampaign(cfg, TwoCampaigns(), 1, [1]) == BothStarted()
  {
    var s := TwoCampaigns();
    assert RecipientsOf(s, 1) == {1};
    var t := Started(s, 1);
    assert ScheduleFirst(t, 1, Step(1, true), [1], 0) == t;
    assert ScheduleFirst(t, 1, Step(1, true), [1], 1) == ScheduleIfActive(t, 1, Step(1, true), 1);
  }

  lemma BothStartedIsReached(cfg: Config)
    requires NextStep(cfg.steps(0), -1) == NextStep(cfg.steps(1), -1) == Some(Step(1, true))
    ensures Reachable(cfg, BothStarted())
  {
    TwoCampaignsAreReached(cfg);
    StartSecond(cfg);
    Then(cfg, TwoCampaigns(), Start(1, [1]));
  }

  /** One address in two started campaigns, and an unsubscribe in one of them:
      in the other the recipient is active and its message waits. */
  lemma OtherCampaignGoesOn() returns (cfg: Config, s: Store, t: Store)
    ensures Reachable(cfg, s) && |s.messages| == 2 && t == Unsubscribe(s, 0) && Reachable(cfg, t)
    ensures HasAddress(t, 0, "a") && HasAddress(t, 1, "a") && t.recipients[0].campaign != t.recipients[1].campaign
    ensures t.recipients[0].status == Unsubscribed && t.recipients[1].status == InSequence
    ensures t.messages[1].recipient == 1 && IsWaiting(t.messages[1])
  {
    cfg := Config(_ => [Step(1, true)], 3);
    BothStartedIsReached(cfg);
    s := BothStarted();
    Then(cfg, s, ProcessUnsubscribe(0));
    t := Unsubscribe(s, 0);
    UnsubscribeStopsOne(s, 0, 1);
  }

  // ---- A mailbox without a reset day ----

  lemma SendAllSkipsMailbox(cfg: Config, s: Store, batch: seq<Delivery>, day: int, b: Id)
    requires IsBatch(s, batch) && b in s.mailboxes && Capacity(s.mailboxes[b]) == 0 && s.mailboxes[b].resetDay.None?
    ensures var t := SendAll(cfg, s, batch, day); b in t.mailboxes && t.mailboxes[b] == s.mailboxes[b]
  {
    var f, inv := Sender(cfg, day), (t: Store) => b in t.mailboxes && t.mailboxes[b] == s.mailboxes[b];
    SenderKeepsOthers(cfg, day);
    forall t: Store, d: Delivery | inv(t) && d.message < |t.messages| && IsWaiting(t.messages[d.message])
      ensures inv(f(t, d))
    {
    }
    LoopKeeps(f, inv, s, batch, |batch|);
  }

  ghost predicate NeverEdits(events: seq<Event>, b: Id) {
    forall i :: 0 <= i < |events| ==> !(events[i].PutMailbox? && events[i].b == b)
  }

  lemma {:induction false} StartKeepsMailboxes(s: Store, c: Id, step: Step, page: seq<Id>, n: nat)
    requires n <= |page|
    ensures ScheduleFirst(s, c, step, page, n).mailboxes == s.mailboxes
  {
    if n == 0 {
    } else {
      StartKeepsMailboxes(s, c, step, page, n - 1);
    }
  }

  lemma EventSkipsMailbox(cfg: Config, s: Store, e: Event, b: Id)
    requires Legal(s, e) && b in s.mailboxes && Capacity(s.mailboxes[b]) == 0 && s.mailboxes[b].resetDay.None?
    requires !(e.PutMailbox? && e.b == b)
    ensures b in Apply(cfg, s, e).mailboxes && Apply(cfg, s, e).mailboxes[b] == s.mailboxes[b]
  {
    match e
    case SendQueue(batch, day) => SendAllSkipsMailbox(cfg, s, batch, day, b);
    case Start(c, page) =>
      if MayMove(s, c, Active) && NextStep(cfg.steps(c), -1).Some? {
        StartKeepsMailboxes(Started(s, c), c, NextStep(cfg.steps(c), -1).value, page, |page|);
      }
    case _ =>
  }

  /** A mailbox without a reset day that has used up its limit sends nothing
      in any later run, on whatever day, unless its row is edited. */
  lemma {:induction false} UsedUpForGood(cfg: Config, s: Store, events: seq<Event>, b: Id)
    requires LegalRun(cfg, s, events) && NeverEdits(events, b)
    requires b in s.mailboxes && Capacity(s.mailboxes[b]) == 0 && s.mailboxes[b].resetDay.None?
    ensures var t := Run(cfg, s, events); b in t.mailboxes && t.mailboxes[b] == s.mailboxes[b]
    decreases |events|
  {
    if events == [] {
    } else {
      EventSkipsMailbox(cfg, s, events[0], b);
      UsedUpForGood(cfg, Apply(cfg, s, events[0]), events[1..], b);
    }
  }

  /** Such a mailbox is reached where the column may be null: its row is put
      without a reset day and with a limit of one, and one message is sent. */
  lemma UsedUpIsReached() returns (cfg: Config, s: Store)
    ensures Reachable(cfg, s) && s.sentEvents == 1
    ensures 0 in s.mailboxes && Limit(s.mailboxes[0]) == 1 && s.mailboxes[0].resetDay.None?
    ensures forall events :: LegalRun(cfg, s, events) && NeverEdits(events, 0) ==>
              0 in Run(cfg, s, events).mailboxes && Run(cfg, s, events).mailboxes[0] == s.mailboxes[0]
  {
    cfg := Config(_ => [Step(1, true)], 3);
    var started := Small(Active, 1, WRITTEN, [First(Scheduled, 0)]);
    StartIsReached(cfg);
    var box := BOX.(limit := 1, resetDay := None);
    Then(cfg, started, PutMailbox(0, box));
    var before := started.(mailboxes := map[0 := box]);
    assert Apply(cfg, started, PutMailbox(0, box)) == before;
    SendFirstMessage(cfg, before);
    s := Attempt(cfg, before, 0, Accepted);
    assert s.mailboxes[0] == box.(sends := 1);
    forall events | LegalRun(cfg, s, events) && NeverEdits(events, 0)
      ensures 0 in Run(cfg, s, events).mailboxes && Run(cfg, s, events).mailboxes[0] == s.mailboxes[0]
    {
      UsedUpForGood(cfg, s, events, 0);
    }
  }
}
