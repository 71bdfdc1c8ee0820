/**
  The services that run the outreach transactions on the tables, each method
  proved to change the tables as its function on `Store` says.
 */
module OutreachService {
  import opened Basics
  import opened Outreach

  datatype Verdict = Done | EntityNotFound | InvalidTransition

  class Service {
    const cfg: Config
    var campaigns: map<Id, Campaign>
    var recipients: map<Id, Recipient>
    var messages: seq<Message>
    var mailboxes: map<Id, Mailbox>
    var unsubscribed: set<string>
    var sentEvents: nat

    ghost function Tables(): Store
      reads this
    {
      Store(campaigns, recipients, messages, mailboxes, unsubscribed, sentEvents)
    }

    constructor (cfg: Config)
      ensures this.cfg == cfg && Tables() == Store(map[], map[], [], map[], {}, 0)
    {
      this.cfg := cfg;
      campaigns, recipients, messages, mailboxes, unsubscribed, sentEvents := map[], map[], [], map[], {}, 0;
    }

    /** `_transition`. */
    method Transition(c: Id, target: CampaignStatus) returns (verdict: Verdict)
      modifies this`campaigns
      ensures Tables() == Move(old(Tables()), c, target)
      ensures verdict.Done? <==> MayMove(old(Tables()), c, target)
      ensures verdict.EntityNotFound? <==> !LiveCampaign(old(Tables()), c)
    {
      if c !in campaigns || campaigns[c].deleted {
        return EntityNotFound;
      }
      if !Allowed(campaigns[c].status, target) {
        return InvalidTransition;
      }
      campaigns := campaigns[c := campaigns[c].(status := target)];
      return Done;
    }

    method ScheduleMessage(c: Id, step: Step, r: Id)
      requires c in campaigns && r in recipients
      modifies this`messages, this`recipients
      ensures Tables() == Schedule(old(Tables()), c, step, r)
    {
      if !step.isEmail {
        return;
      }
      var b := campaigns[c].mailbox;
      if b !in mailboxes || mailboxes[b].deleted {
        return;
      }
      messages := messages + [Message(c, step.order, r, b, recipients[r].email, Scheduled, 0, 0, 0)];
      recipients := recipients[r := recipients[r].(current := step.order)];
    }

    /** `page` holds the recipients the query returns, in its order. */
    method StartCampaign(c: Id, page: seq<Id>) returns (verdict: Verdict)
      requires IsPage(Tables(), c, page)
      modifies this`campaigns, this`messages, this`recipients
      ensures Tables() == Outreach.StartCampaign(cfg, old(Tables()), c, page)
      ensures verdict.Done? <==> MayMove(old(Tables()), c, Active)
    {
      verdict := Transition(c, Active);
      if !verdict.Done? {
        return;
      }
      campaigns := campaigns[c := campaigns[c].(starts := campaigns[c].starts + 1)];
      ghost var started := Tables();
      assert started == Started(old(Tables()), c);
      var first := NextStep(cfg.steps(c), -1);
      if first.Some? {
        var n := 0;
        while n < |page|
          invariant n <= |page|
          invariant Tables() == ScheduleFirst(started, c, first.value, page, n)
          invariant c in campaigns
        {
          var r := page[n];
          if r in recipients && recipients[r].status == InSequence {
            ScheduleMessage(c, first.value, r);
          }
          n := n + 1;
        }
      }
    }

    method AdvanceRecipient(r: Id)
      modifies this`messages, this`recipients
      ensures Tables() == Advance(cfg, old(Tables()), r)
    {
      if r !in recipients || recipients[r].deleted {
        return;
      }
      var c := recipients[r].campaign;
      if c !in campaigns || campaigns[c].deleted || campaigns[c].status != Active {
        return;
      }
      var next := NextStep(cfg.steps(c), recipients[r].current);
      if next.Some? {
        ScheduleMessage(c, next.value, r);
      } else {
        recipients := recipients[r := recipients[r].(status := Finished)];
      }
    }

    /** `cancel_scheduled_for_recipient`: returns the number of rows changed. */
    method CancelScheduled(r: Id) returns (count: nat)
      modifies this`messages
      ensures Tables() == old(Tables()).(messages := CancelWaiting(old(messages), r))
      ensures count == WaitingCount(old(messages), r, |old(messages)|)
    {
      count := 0;
      ghost var was := messages;
      var n := 0;
      while n < |messages|
        invariant n <= |messages| == |was|
        invariant forall i :: 0 <= i < n ==> messages[i] == Withdraw(was[i], r)
        invariant forall i :: n <= i < |was| ==> messages[i] == was[i]
        invariant count == WaitingCount(was, r, n)
      {
        if messages[n].recipient == r && IsWaiting(messages[n]) {
          messages := messages[n := messages[n].(status := Withdrawn)];
          count := count + 1;
        }
        n := n + 1;
      }
      assert messages == CancelWaiting(was, r);
    }

    method StopRecipient(r: Id, status: RecipientStatus)
      modifies this`messages, this`recipients
      ensures Tables() == Stop(old(Tables()), r, status)
    {
      if r in recipients && !recipients[r].deleted {
        recipients := recipients[r := recipients[r].(status := status)];
        var _ := CancelScheduled(r);
      }
    }

    method RecordReply(i: nat) returns (found: bool)
      modifies this`messages, this`recipients
      ensures found == (i < |old(messages)|) && Tables() == Reply(old(Tables()), i)
    {
      if i >= |messages| {
        return false;
      }
      var c := messages[i].campaign;
      if c in campaigns && !campaigns[c].deleted && campaigns[c].stopOnReply {
        StopRecipient(messages[i].recipient, Replied);
      }
      return true;
    }

    method RecordBounce(i: nat) returns (found: bool)
      modifies this`messages, this`recipients
      ensures found == (i < |old(messages)|) && Tables() == Bounce(old(Tables()), i)
    {
      if i >= |messages| {
        return false;
      }
      messages := messages[i := messages[i].(status := Returned)];
      var c := messages[i].campaign;
      if c in campaigns && !campaigns[c].deleted && campaigns[c].stopOnBounce {
        StopRecipient(messages[i].recipient, Bounced);
      }
      return true;
    }

    method ProcessUnsubscribe(i: nat) returns (found: bool)
      modifies this`messages, this`recipients, this`unsubscribed
      ensures found == (i < |old(messages)|) && Tables() == Unsubscribe(old(Tables()), i)
    {
      if i >= |messages| {
        return false;
      }
      unsubscribed := unsubscribed + {messages[i].toEmail};
      StopRecipient(messages[i].recipient, Unsubscribed);
      return true;
    }

    method CheckCapacity(b: Id, day: int) returns (remaining: nat)
      requires b in mailboxes
      modifies this`mailboxes
      ensures Tables() == CheckDay(old(Tables()), b, day)
      ensures remaining == Capacity(Today(old(mailboxes)[b], day))
    {
      var mailbox := mailboxes[b];
      if mailbox.resetDay.Some? && mailbox.resetDay.value < day {
        mailbox := mailbox.(sends := 0, resetDay := Some(day));
      }
      mailboxes := mailboxes[b := mailbox];
      var limit := mailbox.limit;
      if mailbox.warmup && mailbox.warmupLimit.Some? && mailbox.warmupLimit.value != 0 {
        limit := if mailbox.warmupLimit.value < limit then mailbox.warmupLimit.value else limit;
      }
      remaining := if limit - mailbox.sends > 0 then limit - mailbox.sends else 0;
    }

    /** `_handle_failure`, with the attempt it follows. */
    method HandleFailure(i: nat)
      requires i < |messages|
      modifies this`messages
      ensures Tables() == WithMessage(old(Tables()), i, Retried(old(messages)[i], cfg.maxRetries))
    {
      var m := messages[i];
      m := m.(retries := m.retries + 1, attempts := m.attempts + 1);
      if m.retries >= cfg.maxRetries {
        m := m.(status := Failed);
      } else {
        m := m.(status := Scheduled, waited := m.waited + 5 * Pow2(m.retries));
      }
      messages := messages[i := m];
    }

    /** The part of the loop body that sends message `i`. */
    method HandOver(i: nat, outcome: Outcome) returns (sent: bool)
      requires i < |messages| && messages[i].mailbox in mailboxes
      modifies this`messages, this`recipients, this`mailboxes, this`sentEvents
      ensures Tables() == Attempt(cfg, old(Tables()), i, outcome)
      ensures sentEvents == old(sentEvents) + if sent then 1 else 0
    {
      var m := messages[i];
      sent := false;
      match outcome
      case Accepted =>
        messages := messages[i := m.(status := Sent, attempts := m.attempts + 1)];
        var mailbox := mailboxes[m.mailbox];
        mailboxes := mailboxes[m.mailbox := mailbox.(sends := mailbox.sends + 1)];
        sentEvents := sentEvents + 1;
        AdvanceRecipient(m.recipient);
        sent := true;
      case Rejected => HandleFailure(i);
      case Raised => messages := messages[i := m.(status := Failed, attempts := m.attempts + 1)];
      case _ => messages := messages[i := m.(status := Failed)];
    }

    /** The body of the queue loop for one message. */
    method Deliver(d: Delivery, day: int) returns (sent: bool)
      requires d.message < |messages|
      modifies this`messages, this`recipients, this`mailboxes, this`sentEvents
      ensures Tables() == SendOne(cfg, old(Tables()), d, day)
      ensures sentEvents == old(sentEvents) + if sent then 1 else 0
    {
      var i := d.message;
      var m := messages[i];
      if d.outcome.MailboxRaised?
         || m.mailbox !in mailboxes || mailboxes[m.mailbox].deleted || !mailboxes[m.mailbox].connected
      {
        messages := messages[i := m.(status := Failed)];
        return false;
      }
      var remaining := CheckCapacity(m.mailbox, day);
      if remaining <= 0 {
        return false;
      }
      if d.outcome.AddressRaised? {
        messages := messages[i := m.(status := Failed)];
        return false;
      }
      if m.toEmail in unsubscribed {
        messages := messages[i := m.(status := Withdrawn)];
        return false;
      }
      sent := HandOver(i, d.outcome);
    }

    /** `batch` holds the messages the query returns and what becomes of them. */
    method ProcessSendQueue(batch: seq<Delivery>, day: int) returns (sentCount: nat)
      requires IsBatch(Tables(), batch)
      modifies this`messages, this`recipients, this`mailboxes, this`sentEvents
      ensures Tables() == SendAll(cfg, old(Tables()), batch, day)
      ensures sentCount == sentEvents - old(sentEvents)
    {
      sentCount := 0;
      ghost var start, f := Tables(), Sender(cfg, day);
      SenderKeepsOthers(cfg, day);
      var n := 0;
      while n < |batch|
        invariant n <= |batch|
        invariant Tables() == Loop(f, start, batch, n)
        invariant |start.messages| <= |messages|
        invariant sentCount == sentEvents - old(sentEvents)
      {
        var sent := Deliver(batch[n], day);
        if sent {
          sentCount := sentCount + 1;
        }
        n := n + 1;
      }
    }
  }
}
