/**
  What single outreach transactions do to the tables, told from the columns.
 */
module OutreachEffects {
  import opened Basics
  import opened Outreach
  import opened OutreachSafety
  import opened SendQuota

  // ---- Replies, bounces and unsubscribes ----

  /** From `s` to `t` nothing changed but for the recipient: it got the status,
      and its waiting messages were withdrawn. */
  ghost predicate StoppedOnly(s: Store, t: Store, r: Id, status: RecipientStatus) {
    && r in s.recipients && t.recipients == s.recipients[r := s.recipients[r].(status := status)]
    && |t.messages| == |s.messages|
    && (forall j :: 0 <= j < |s.messages| ==>
          t.messages[j] ==
          if s.messages[j].recipient == r && s.messages[j].status in {Scheduled, Queued}
          then s.messages[j].(status := Withdrawn) else s.messages[j])
    && t.campaigns == s.campaigns && t.mailboxes == s.mailboxes && t.sentEvents == s.sentEvents
  }

  lemma StopIs(s: Store, r: Id, status: RecipientStatus)
    ensures if r in s.recipients && !s.recipients[r].deleted then StoppedOnly(s, Stop(s, r, status), r, status)
            else Stop(s, r, status) == s
    ensures Stop(s, r, status).unsubscribed == s.unsubscribed
  {
  }

  /** A reply stops exactly the live recipient of the message, and only if the
      campaign is live and asks for it; otherwise it changes nothing. */
  lemma ReplyStopsExactlyWhen(s: Store, i: nat, q: Id)
    requires i < |s.messages| && q in s.recipients && s.recipients[q].status != Replied
    ensures var t, m := Reply(s, i), s.messages[i];
      var stops := m.campaign in s.campaigns && !s.campaigns[m.campaign].deleted && s.campaigns[m.campaign].stopOnReply
                   && m.recipient in s.recipients && !s.recipients[m.recipient].deleted;
      && q in t.recipients && t.unsubscribed == s.unsubscribed
      && (t.recipients[q].status == Replied <==> stops && q == m.recipient)
      && (stops && q == m.recipient ==> Quiet(t, q))
      && if stops then StoppedOnly(s, t, m.recipient, Replied) else t == s
  {
    StopIs(s, s.messages[i].recipient, Replied);
  }

  /** A bounce marks the message, and stops exactly its live recipient if the
      campaign is live and asks for it. */
  lemma BounceStopsExactlyWhen(s: Store, i: nat, q: Id)
    requires i < |s.messages| && q in s.recipients && s.recipients[q].status != Bounced
    ensures var t, m := Bounce(s, i), s.messages[i];
      var marked := s.(messages := s.messages[i := m.(status := Returned)]);
      var stops := m.campaign in s.campaigns && !s.campaigns[m.campaign].deleted && s.campaigns[m.campaign].stopOnBounce
                   && m.recipient in s.recipients && !s.recipients[m.recipient].deleted;
      && q in t.recipients && t.unsubscribed == s.unsubscribed && t.messages[i].status == Returned
      && (t.recipients[q].status == Bounced <==> stops && q == m.recipient)
      && (stops && q == m.recipient ==> Quiet(t, q))
      && if stops then StoppedOnly(marked, t, m.recipient, Bounced) else t == marked
  {
    StopIs(s.(messages := s.messages[i := s.messages[i].(status := Returned)]), s.messages[i].recipient, Bounced);
  }

  /** An unsubscribe lists the address of the message, and stops its live
      recipient whatever the campaign. */
  lemma UnsubscribeListsAndStops(s: Store, i: nat)
    requires i < |s.messages|
    ensures var t, r := Unsubscribe(s, i), s.messages[i].recipient;
      && t.unsubscribed == s.unsubscribed + {s.messages[i].toEmail}
      && if r in s.recipients && !s.recipients[r].deleted then StoppedOnly(s, t, r, Unsubscribed) && Quiet(t, r)
         else t.(unsubscribed := s.unsubscribed) == s
  {
    StopIs(s.(unsubscribed := s.unsubscribed + {s.messages[i].toEmail}), s.messages[i].recipient, Unsubscribed);
  }

  // ---- Mailboxes and their limits ----

  /** What a mailbox has sent on `day`: nothing yet if its last reset was on an
      earlier day. */
  function SentOn(b: Mailbox, day: int): int {
    if b.resetDay.Some? && b.resetDay.value < day then 0 else b.sends
  }

  /** There is room for one more after `sent` messages: under the daily limit,
      and under the warm-up limit if warm-up is on and has one. */
  predicate RoomAfter(b: Mailbox, sent: int) {
    sent < b.limit && (b.warmup && b.warmupLimit.Some? && b.warmupLimit.value != 0 ==> sent < b.warmupLimit.value)
  }

  /** The remaining capacity is the number of messages there is room for. */
  lemma CapacityIs(b: Mailbox, day: int, k: nat)
    ensures k < Capacity(Today(b, day)) <==> RoomAfter(b, SentOn(b, day) + k)
  {
  }

  /** No pass of the worker sends through a mailbox beyond its limits. */
  lemma BatchRespectsLimits(cfg: Config, s: Store, batch: seq<Delivery>, day: int, b: Id)
    requires IsBatch(s, batch) && b in s.mailboxes
    ensures var t := SendAll(cfg, s, batch, day);
      var more := SentVia(t.messages, b) - SentVia(s.messages, b);
      && b in t.mailboxes && more >= 0
      && SentOn(t.mailboxes[b], day) == SentOn(s.mailboxes[b], day) + more
      && (more > 0 ==> RoomAfter(s.mailboxes[b], SentOn(s.mailboxes[b], day) + more - 1))
  {
    BatchKeepsQuota(cfg, s, batch, day, b);
    var more := SentVia(SendAll(cfg, s, batch, day).messages, b) - SentVia(s.messages, b);
    if more > 0 {
      CapacityIs(s.mailboxes[b], day, more - 1);
    }
  }

  // ---- One message of a batch ----

  /** The mailbox of the message is there, connected, and has room. */
  predicate MayUse(s: Store, m: Message, day: int) {
    IsUp(s, m.mailbox) && RoomAfter(s.mailboxes[m.mailbox], SentOn(s.mailboxes[m.mailbox], day))
  }

  predicate IsUp(s: Store, b: Id) {
    b in s.mailboxes && !s.mailboxes[b].deleted && s.mailboxes[b].connected
  }

  /** The message is handed to its provider. */
  predicate HandsOver(s: Store, m: Message, outcome: Outcome, day: int) {
    MayUse(s, m, day) && m.toEmail !in s.unsubscribed && outcome in {Accepted, Rejected, Raised}
  }

  /** What becomes of a waiting message when its turn comes. */
  function StatusAfter(cfg: Config, s: Store, m: Message, outcome: Outcome, day: int): MessageStatus {
    if outcome.MailboxRaised? || !IsUp(s, m.mailbox) then Failed
    else if !MayUse(s, m, day) then m.status
    else if outcome.AddressRaised? then Failed
    else if m.toEmail in s.unsubscribed then Withdrawn
    else if outcome.Accepted? then Sent
    else if outcome.Rejected? && m.retries + 1 < cfg.maxRetries then Scheduled
    else Failed
  }

  lemma AttemptIs(cfg: Config, s: Store, i: nat, outcome: Outcome)
    requires i < |s.messages| && s.messages[i].mailbox in s.mailboxes
    ensures var t, m := Attempt(cfg, s, i, outcome), s.messages[i];
      && i < |t.messages|
      && t.messages[i].status == (if outcome.Accepted? then Sent
                                  else if outcome.Rejected? && m.retries + 1 < cfg.maxRetries then Scheduled
                                  else Failed)
      && t.messages[i].attempts == m.attempts + (if outcome in {Accepted, Rejected, Raised} then 1 else 0)
      && t.sentEvents == s.sentEvents + (if outcome.Accepted? then 1 else 0)
      && t.mailboxes == s.mailboxes[m.mailbox := s.mailboxes[m.mailbox].(
           sends := s.mailboxes[m.mailbox].sends + if outcome.Accepted? then 1 else 0)]
  {
  }

  lemma SendOneIs(cfg: Config, s: Store, d: Delivery, day: int)
    requires d.message < |s.messages| && IsWaiting(s.messages[d.message])
    ensures var t, m := SendOne(cfg, s, d, day), s.messages[d.message];
      && d.message < |t.messages|
      && t.messages[d.message].status == StatusAfter(cfg, s, m, d.outcome, day)
      && t.messages[d.message].attempts == m.attempts + (if HandsOver(s, m, d.outcome, day) then 1 else 0)
      && t.sentEvents == s.sentEvents + (if StatusAfter(cfg, s, m, d.outcome, day) == Sent then 1 else 0)
      && (m.mailbox in s.mailboxes ==>
            m.mailbox in t.mailboxes
            && SentOn(t.mailboxes[m.mailbox], day) == SentOn(s.mailboxes[m.mailbox], day) + t.sentEvents - s.sentEvents)
  {
    var m := s.messages[d.message];
    if IsUp(s, m.mailbox) && !d.outcome.MailboxRaised? {
      var checked := CheckDay(s, m.mailbox, day);
      CapacityIs(s.mailboxes[m.mailbox], day, 0);
      assert Capacity(checked.mailboxes[m.mailbox]) == 0 <==> !MayUse(s, m, day);
      if MayUse(s, m, day) && !d.outcome.AddressRaised? && m.toEmail !in s.unsubscribed {
        AttemptIs(cfg, checked, d.message, d.outcome);
      }
    }
  }

  /** Message `m` after `k` rejections. */
  function Rejections(m: Message, maxRetries: int, k: nat): Message {
    if k == 0 then m else Retried(Rejections(m, maxRetries, k - 1), maxRetries)
  }

  /** A new message that is rejected again and again: it waits again after each
      rejection before the last, ten minutes at first and each time twice as
      long, and fails with rejection number `max_retries`, or at once. */
  lemma {:induction false} RejectedAgainAndAgain(m: Message, maxRetries: int, k: nat)
    requires IsWaiting(m) && m.retries == m.attempts == m.waited == 0
    requires 0 < k && (k == 1 || k <= maxRetries)
    ensures var before, after := Rejections(m, maxRetries, k - 1), Rejections(m, maxRetries, k);
      && after.attempts == after.retries == k
      && if k < maxRetries then after.status == Scheduled && after.waited + 10 == 2 * (before.waited + 10)
         else after.status == Failed && after.waited == before.waited
  {
    if k > 1 {
      RejectedAgainAndAgain(m, maxRetries, k - 1);
      DoublingWait(m, maxRetries, k - 1);
    } else {
      DoublingWait(m, maxRetries, 0);
    }
    assert Pow2(k + 1) == 2 * Pow2(k);
  }

  lemma {:induction false} DoublingWait(m: Message, maxRetries: int, k: nat)
    requires m.retries == m.waited == 0 && (k == 0 || k < maxRetries)
    ensures Rejections(m, maxRetries, k).retries == k
    ensures Rejections(m, maxRetries, k).waited == 5 * Pow2(k + 1) - 10
  {
    if k == 0 {
      assert Pow2(1) == 2;
    } else {
      DoublingWait(m, maxRetries, k - 1);
    }
  }

  // ---- What is scheduled ----

  /** `order` is the least order above `current` among the steps, and belongs to
      an email. */
  predicate IsNextEmail(steps: seq<Step>, current: int, order: nat) {
    Step(order, true) in steps && order > current
    && forall step :: step in steps && step.order > current ==> order <= step.order
  }

  /** What is written for a recipient: addressed as its row says, through the
      mailbox of the campaign, waiting, and not yet tried. */
  function MessageFor(s: Store, c: Id, r: Id, order: nat): Message
    requires c in s.campaigns && r in s.recipients
  {
    Message(c, order, r, s.campaigns[c].mailbox, s.recipients[r].email, Scheduled, 0, 0, 0)
  }

  /** In an active campaign `advance_recipient` writes the message of the next
      step, or finishes the recipient when no step is left. */
  lemma AdvanceSchedules(cfg: Config, s: Store, r: Id, order: nat)
    requires r in s.recipients && !s.recipients[r].deleted
    requires var c := s.recipients[r].campaign;
      c in s.campaigns && !s.campaigns[c].deleted && s.campaigns[c].status == Active
    ensures var row, c, t := s.recipients[r], s.recipients[r].campaign, Advance(cfg, s, r);
      && ((forall step :: step in cfg.steps(c) ==> step.order <= row.current) ==>
            t == s.(recipients := s.recipients[r := row.(status := Finished)]))
      && (NextStep(cfg.steps(c), row.current) == Some(Step(order, true)) && LiveMailbox(s, s.campaigns[c].mailbox) ==>
            && IsNextEmail(cfg.steps(c), row.current, order)
            && t == s.(messages := s.messages + [MessageFor(s, c, r, order)],
                       recipients := s.recipients[r := row.(current := order)]))
  {
  }

  function ActiveAmong(s: Store, page: seq<Id>, n: nat): set<nat>
    requires n <= |page|
  {
    set k | 0 <= k < n && page[k] in s.recipients && s.recipients[page[k]].status == InSequence
  }

  /** The rows a start leaves: those of the active recipients it reads are at
      the first step, and the others as they were. */
  lemma {:induction false} StartMoves(s: Store, c: Id, order: nat, page: seq<Id>, n: nat)
    requires n <= |page| && c in s.campaigns && LiveMailbox(s, s.campaigns[c].mailbox)
    ensures var t := ScheduleFirst(s, c, Step(order, true), page, n);
      && t.campaigns == s.campaigns && t.mailboxes == s.mailboxes && t.recipients.Keys == s.recipients.Keys
      && (forall r :: r in s.recipients ==>
            t.recipients[r] ==
            if exists k :: k in ActiveAmong(s, page, n) && page[k] == r then s.recipients[r].(current := order)
            else s.recipients[r])
  {
    if n == 0 {
    } else {
      StartMoves(s, c, order, page, n - 1);
      assert ActiveAmong(s, page, n) ==
        ActiveAmong(s, page, n - 1)
        + if page[n - 1] in s.recipients && s.recipients[page[n - 1]].status == InSequence then {n - 1} else {};
    }
  }

  /** A start writes one message of its first step for every active recipient
      it reads, and for nobody else. */
  lemma {:induction false} StartWrites(s: Store, c: Id, order: nat, page: seq<Id>, n: nat)
    requires n <= |page| && c in s.campaigns && LiveMailbox(s, s.campaigns[c].mailbox)
    ensures var t := ScheduleFirst(s, c, Step(order, true), page, n);
      && s.messages <= t.messages && |t.messages| == |s.messages| + |ActiveAmong(s, page, n)|
      && (forall j :: |s.messages| <= j < |t.messages| ==>
            exists k :: k in ActiveAmong(s, page, n) && t.messages[j] == MessageFor(s, c, page[k], order))
  {
    if n == 0 {
      assert ActiveAmong(s, page, 0) == {};
    } else {
      StartWrites(s, c, order, page, n - 1);
      OneMoreWritten(s, c, order, page, n);
      var before := ScheduleFirst(s, c, Step(order, true), page, n - 1).messages;
      var after := ScheduleFirst(s, c, Step(order, true), page, n).messages;
      forall j | |s.messages| <= j < |after|
        ensures exists k :: k in ActiveAmong(s, page, n) && after[j] == MessageFor(s, c, page[k], order)
      {
        if j < |before| {
          var k :| k in ActiveAmong(s, page, n - 1) && before[j] == MessageFor(s, c, page[k], order);
          assert k in ActiveAmong(s, page, n);
        } else {
          assert n - 1 in ActiveAmong(s, page, n);
        }
      }
    }
  }

  lemma OneMoreWritten(s: Store, c: Id, order: nat, page: seq<Id>, n: nat)
    requires 0 < n <= |page| && c in s.campaigns && LiveMailbox(s, s.campaigns[c].mailbox)
    ensures var before := ScheduleFirst(s, c, Step(order, true), page, n - 1).messages;
      var after, r := ScheduleFirst(s, c, Step(order, true), page, n).messages, page[n - 1];
      if r in s.recipients && s.recipients[r].status == InSequence
      then after == before + [MessageFor(s, c, r, order)]
           && ActiveAmong(s, page, n) == ActiveAmong(s, page, n - 1) + {n - 1}
      else after == before && ActiveAmong(s, page, n) == ActiveAmong(s, page, n - 1)
  {
    StartMoves(s, c, order, page, n - 1);
    var before, r := ScheduleFirst(s, c, Step(order, true), page, n - 1), page[n - 1];
    assert r in s.recipients ==>
      before.recipients[r].email == s.recipients[r].email && before.recipients[r].status == s.recipients[r].status;
  }

  /** A campaign with at most 10000 recipients has all of them read. */
  lemma PageHoldsEveryone(s: Store, c: Id, page: seq<Id>, r: Id)
    requires IsPage(s, c, page) && r in s.recipients && !s.recipients[r].deleted && s.recipients[r].campaign == c
    requires |RecipientsOf(s, c)| <= 10000
    ensures r in page
  {
    var all := RecipientsOf(s, c);
    var read := set k | 0 <= k < |page| :: page[k];
    DistinctFill(page, |page|);
    assert forall k :: 0 <= k < |page| ==> page[k] in all;
    assert read <= all && |read| == |page| == |all|;
    assert all == read + (all - read);
    assert all - read == {};
    assert r in read;
  }

  lemma {:induction false} DistinctFill(page: seq<Id>, n: nat)
    requires n <= |page| && forall i, j :: 0 <= i < j < |page| ==> page[i] != page[j]
    ensures |set k | 0 <= k < n :: page[k]| == n
  {
    if n == 0 {
    } else {
      DistinctFill(page, n - 1);
      assert (set k | 0 <= k < n :: page[k]) == (set k | 0 <= k < n - 1 :: page[k]) + {page[n - 1]};
    }
  }

  // ---- Where campaigns and recipients can get ----

  /** The moves a campaign can make. */
  predicate IsMove(from: CampaignStatus, to: CampaignStatus) {
    (from, to) in {(Draft, Active), (Draft, Cancelled), (Active, Paused), (Active, Completed), (Active, Cancelled),
                   (Paused, Active), (Paused, Cancelled)}
  }

  /** A campaign moves exactly when it is live and the move is one of them. */
  lemma TransitionIs(s: Store, c: Id, to: CampaignStatus)
    ensures var goes := c in s.campaigns && !s.campaigns[c].deleted && IsMove(s.campaigns[c].status, to);
      && (MayMove(s, c, to) <==> goes)
      && Move(s, c, to) == if goes then s.(campaigns := s.campaigns[c := s.campaigns[c].(status := to)]) else s
  {
  }

  /** A start that goes ahead makes the campaign active and touches no other. */
  lemma StartActivates(cfg: Config, s: Store, c: Id, page: seq<Id>)
    ensures StartCampaign(cfg, s, c, page).campaigns ==
      if MayMove(s, c, Active)
      then s.campaigns[c := s.campaigns[c].(status := Active, starts := s.campaigns[c].starts + 1)] else s.campaigns
  {
    if MayMove(s, c, Active) && NextStep(cfg.steps(c), -1).Some? {
      StartKeepsRows(Started(s, c), c, NextStep(cfg.steps(c), -1).value, page, |page|);
    }
  }

  /** A removed recipient is marked, and nothing waits for it any more. */
  lemma RemoveIs(s: Store, r: Id)
    requires r in s.recipients && !s.recipients[r].deleted
    ensures var t := Remove(s, r);
      t.recipients == s.recipients[r := s.recipients[r].(deleted := true)] && Quiet(t, r)
      && t.campaigns == s.campaigns && |t.messages| == |s.messages|
      && forall j :: 0 <= j < |s.messages| && s.messages[j].recipient != r ==> t.messages[j] == s.messages[j]
  {
  }

  /** Editing and deleting change their own columns of a live campaign. */
  lemma CampaignEditsAre(s: Store, c: Id, onReply: bool, onBounce: bool, mailbox: Id)
    requires c in s.campaigns && !s.campaigns[c].deleted
    ensures var t, row := Edit(s, c, onReply, onBounce, mailbox), s.campaigns[c];
      t == s.(campaigns := s.campaigns[c := Campaign(row.status, onReply, onBounce, mailbox, false, row.starts)])
    ensures var t, row := Delete(s, c), s.campaigns[c];
      t == s.(campaigns := s.campaigns[c :=
        Campaign(row.status, row.stopOnReply, row.stopOnBounce, row.mailbox, true, row.starts)])
  {
  }

  /** Besides, rows are never lost, recipients keep campaign and address, and a
      removed one stays removed. */
  ghost predicate RowsGoOn(s: Store, t: Store) {
    && (forall c :: c in s.campaigns ==>
          c in t.campaigns
          && (t.campaigns[c].status == s.campaigns[c].status || IsMove(s.campaigns[c].status, t.campaigns[c].status)))
    && (forall r :: r in s.recipients ==>
          r in t.recipients && t.recipients[r].campaign == s.recipients[r].campaign
          && t.recipients[r].email == s.recipients[r].email && (s.recipients[r].deleted ==> t.recipients[r].deleted))
  }

  /** As before, and neither a campaign moved nor a recipient was added. */
  ghost predicate RowsStay(s: Store, t: Store) {
    t.campaigns == s.campaigns && t.recipients.Keys == s.recipients.Keys && RowsGoOn(s, t)
  }

  lemma AdvanceKeepsRows(cfg: Config, s: Store, r: Id)
    ensures RowsStay(s, Advance(cfg, s, r))
  {
  }

  lemma SendOneKeepsRows(cfg: Config, s: Store, d: Delivery, day: int)
    ensures RowsStay(s, SendOne(cfg, s, d, day))
  {
    if Attempts(s, d.message, day) && d.outcome.Accepted? {
      var sent := MarkSent(CheckDay(s, s.messages[d.message].mailbox, day), d.message);
      assert SendOne(cfg, s, d, day) == Advance(cfg, sent, s.messages[d.message].recipient);
      AdvanceKeepsRows(cfg, sent, s.messages[d.message].recipient);
    } else {
      assert SendOne(cfg, s, d, day).recipients == s.recipients;
    }
  }

  lemma StayChains(s: Store, t: Store, u: Store)
    requires RowsStay(s, t) && RowsStay(t, u)
    ensures RowsStay(s, u)
  {
  }

  lemma SendAllKeepsRows(cfg: Config, s: Store, batch: seq<Delivery>, day: int)
    requires IsBatch(s, batch)
    ensures RowsStay(s, SendAll(cfg, s, batch, day))
  {
    var f, inv := Sender(cfg, day), (t: Store) => RowsStay(s, t);
    SenderKeepsOthers(cfg, day);
    forall t: Store, d: Delivery | inv(t) && d.message < |t.messages| && IsWaiting(t.messages[d.message])
      ensures inv(f(t, d))
    {
      SendOneKeepsRows(cfg, t, d, day);
      StayChains(s, t, f(t, d));
    }
    LoopKeeps(f, inv, s, batch, |batch|);
  }

  lemma {:induction false} StartKeepsRows(s: Store, c: Id, step: Step, page: seq<Id>, n: nat)
    requires n <= |page|
    ensures RowsStay(s, ScheduleFirst(s, c, step, page, n))
  {
    if n == 0 {
    } else {
      StartKeepsRows(s, c, step, page, n - 1);
    }
  }

  lemma StopKeepsRows(s: Store, r: Id, status: RecipientStatus)
    ensures RowsStay(s, Stop(s, r, status)) && RowsStay(s, Remove(s, r))
  {
  }

  lemma TrackingKeepsRows(s: Store, i: nat)
    requires i < |s.messages|
    ensures RowsStay(s, Reply(s, i)) && RowsStay(s, Bounce(s, i)) && RowsStay(s, Unsubscribe(s, i))
  {
    var m := s.messages[i];
    StopKeepsRows(s, m.recipient, Replied);
    StopKeepsRows(WithMessage(s, i, m.(status := Returned)), m.recipient, Bounced);
    StopKeepsRows(s.(unsubscribed := s.unsubscribed + {m.toEmail}), m.recipient, Unsubscribed);
  }

  lemma StartGoesOn(cfg: Config, s: Store, c: Id, page: seq<Id>)
    ensures var t := StartCampaign(cfg, s, c, page); RowsGoOn(s, t) && t.recipients.Keys == s.recipients.Keys
  {
    if MayMove(s, c, Active) && NextStep(cfg.steps(c), -1).Some? {
      StartKeepsRows(Started(s, c), c, NextStep(cfg.steps(c), -1).value, page, |page|);
    }
  }

  lemma EventGoesOn(cfg: Config, s: Store, e: Event)
    requires Legal(s, e)
    ensures RowsGoOn(s, Apply(cfg, s, e))
    ensures !e.AddRecipient? ==> Apply(cfg, s, e).recipients.Keys == s.recipients.Keys
  {
    match e
    case Start(c, page) => StartGoesOn(cfg, s, c, page);
    case SendQueue(batch, day) => SendAllKeepsRows(cfg, s, batch, day);
    case RemoveRecipient(r) => StopKeepsRows(s, r, Replied);
    case RecordReply(i) => if i < |s.messages| { TrackingKeepsRows(s, i); }
    case RecordBounce(i) => if i < |s.messages| { TrackingKeepsRows(s, i); }
    case ProcessUnsubscribe(i) => if i < |s.messages| { TrackingKeepsRows(s, i); }
    case _ =>
  }

  /** A completed or cancelled campaign stays so in every run. */
  lemma {:induction false} EndedForGood(cfg: Config, s: Store, events: seq<Event>, c: Id)
    requires LegalRun(cfg, s, events) && c in s.campaigns && s.campaigns[c].status in {Completed, Cancelled}
    ensures c in Run(cfg, s, events).campaigns
    ensures Run(cfg, s, events).campaigns[c].status == s.campaigns[c].status
    decreases |events|
  {
    if events == [] {
    } else {
      EventGoesOn(cfg, s, events[0]);
      EndedForGood(cfg, Apply(cfg, s, events[0]), events[1..], c);
    }
  }

  /** No address is enrolled twice in a campaign. */
  ghost predicate EnrolledOnce(s: Store) {
    forall q, r | q in s.recipients && r in s.recipients && q != r ::
      !s.recipients[q].deleted && !s.recipients[r].deleted && s.recipients[q].campaign == s.recipients[r].campaign ==>
        s.recipients[q].email != s.recipients[r].email
  }

  lemma EventKeepsEnrolledOnce(cfg: Config, s: Store, e: Event)
    requires EnrolledOnce(s) && Legal(s, e)
    ensures EnrolledOnce(Apply(cfg, s, e))
  {
    EventGoesOn(cfg, s, e);
  }

  /** In every run from the empty tables the live recipients of a campaign have
      different addresses. */
  lemma {:induction false} NobodyIsEnrolledTwice(cfg: Config, s: Store, events: seq<Event>)
    requires EnrolledOnce(s) && LegalRun(cfg, s, events)
    ensures EnrolledOnce(Run(cfg, s, events)) && EnrolledOnce(EMPTY)
    decreases |events|
  {
    if events == [] {
    } else {
      EventKeepsEnrolledOnce(cfg, s, events[0]);
      NobodyIsEnrolledTwice(cfg, Apply(cfg, s, events[0]), events[1..]);
    }
  }
}
