/**
  A pass of the send worker against the daily limits of the mailboxes: what it
  sends, what it counts and what it records agree.

  Every statement compares the tables before and after one delivery and is then
  carried through the batch by `LoopKeeps`; counters are compared after the
  reset that is due on the day of the pass.
 */
module SendQuota {
  import opened Basics
  import opened Outreach

  function WasSent(m: Message): nat {
    if m.status == Sent then 1 else 0
  }

  function Via(b: Id): Message -> nat {
    (m: Message) => if m.status == Sent && m.mailbox == b then 1 else 0
  }

  /** Messages in status sent. */
  function SentTotal(messages: seq<Message>): nat {
    Sum(messages, WasSent)
  }

  /** Messages in status sent that belong to mailbox `b`. */
  function SentVia(messages: seq<Message>, b: Id): nat {
    Sum(messages, Via(b))
  }

  /** What the pass did for mailbox `b`, its daily counter taken after the
      reset that is due at the start of `day`. */
  ghost predicate Accounts(s: Store, t: Store, day: int, b: Id)
    requires b in s.mailboxes
  {
    && b in t.mailboxes
    && Today(t.mailboxes[b], day).(sends := 0) == Today(s.mailboxes[b], day).(sends := 0)
    && SentVia(t.messages, b) >= SentVia(s.messages, b)
    && Today(t.mailboxes[b], day).sends - Today(s.mailboxes[b], day).sends
       == SentVia(t.messages, b) - SentVia(s.messages, b)
    && SentVia(t.messages, b) - SentVia(s.messages, b) <= Capacity(Today(s.mailboxes[b], day))
  }

  lemma AdvanceSendsNothing(cfg: Config, s: Store, r: Id, f: Message -> nat)
    requires forall m: Message :: m.status == Scheduled ==> f(m) == 0
    ensures var t := Advance(cfg, s, r);
      t.mailboxes == s.mailboxes && t.sentEvents == s.sentEvents && Sum(t.messages, f) == Sum(s.messages, f)
  {
    if LiveRecipient(s, r) && LiveCampaign(s, s.recipients[r].campaign) {
      var c := s.recipients[r].campaign;
      var next := NextStep(cfg.steps(c), s.recipients[r].current);
      if next.Some? {
        SumAfterAppend(s.messages, NewMessage(s, c, next.value, r), f);
      }
    }
  }

  lemma AttemptAccounts(cfg: Config, s: Store, i: nat, outcome: Outcome, day: int, b: Id)
    requires i < |s.messages| && IsWaiting(s.messages[i]) && s.messages[i].mailbox in s.mailboxes && b in s.mailboxes
    requires Today(s.mailboxes[s.messages[i].mailbox], day) == s.mailboxes[s.messages[i].mailbox]
    requires Capacity(s.mailboxes[s.messages[i].mailbox]) > 0
    ensures Accounts(s, Attempt(cfg, s, i, outcome), day, b)
  {
    var m := s.messages[i];
    match outcome
    case Accepted =>
      SumAfterUpdate(s.messages, i, m.(status := Sent, attempts := m.attempts + 1), Via(b));
      AdvanceSendsNothing(cfg, MarkSent(s, i), m.recipient, Via(b));
    case Rejected => SumAfterUpdate(s.messages, i, Retried(m, cfg.maxRetries), Via(b));
    case Raised => SumAfterUpdate(s.messages, i, m.(status := Failed, attempts := m.attempts + 1), Via(b));
    case _ => SumAfterUpdate(s.messages, i, m.(status := Failed), Via(b));
  }

  lemma EndingAccounts(s: Store, i: nat, status: MessageStatus, day: int, b: Id)
    requires i < |s.messages| && IsWaiting(s.messages[i]) && b in s.mailboxes && status != Sent
    ensures Accounts(s, WithMessage(s, i, s.messages[i].(status := status)), day, b)
  {
    SumAfterUpdate(s.messages, i, s.messages[i].(status := status), Via(b));
  }

  lemma SendOneAccounts(cfg: Config, s: Store, d: Delivery, day: int, b: Id)
    requires d.message < |s.messages| && IsWaiting(s.messages[d.message]) && b in s.mailboxes
    ensures Accounts(s, SendOne(cfg, s, d, day), day, b)
  {
    var i := d.message;
    var m := s.messages[i];
    if d.outcome.MailboxRaised? || !Connected(s, m.mailbox) {
      EndingAccounts(s, i, Failed, day, b);
    } else {
      var t := CheckDay(s, m.mailbox, day);
      if Attempts(s, i, day) {
        AttemptAccounts(cfg, t, i, d.outcome, day, b);
      } else {
        EndingAccounts(t, i, Withdrawn, day, b);
        EndingAccounts(t, i, Failed, day, b);
      }
    }
  }

  /** In one pass, over any batch that mixes mailboxes, a mailbox sends at most
      what it had left for the day, and its counter grows by what it sent. */
  lemma BatchKeepsQuota(cfg: Config, s: Store, batch: seq<Delivery>, day: int, b: Id)
    requires IsBatch(s, batch) && b in s.mailboxes
    ensures Accounts(s, SendAll(cfg, s, batch, day), day, b)
  {
    var f, inv := Sender(cfg, day), (t: Store) => Accounts(s, t, day, b);
    SenderKeepsOthers(cfg, day);
    forall t: Store, d: Delivery | inv(t) && d.message < |t.messages| && IsWaiting(t.messages[d.message])
      ensures inv(f(t, d))
    {
      SendOneAccounts(cfg, t, d, day, b);
    }
    LoopKeeps(f, inv, s, batch, |batch|);
  }

  // ---- The totals ----

  function SendsToday(mailboxes: map<Id, Mailbox>, b: Id, day: int): int {
    if b in mailboxes then Today(mailboxes[b], day).sends else 0
  }

  function SumSends(mailboxes: map<Id, Mailbox>, ids: seq<Id>, day: int): int {
    if ids == [] then 0 else SendsToday(mailboxes, ids[0], day) + SumSends(mailboxes, ids[1..], day)
  }

  predicate Distinct(ids: seq<Id>) {
    forall i, j :: 0 <= i < j < |ids| ==> ids[i] != ids[j]
  }

  lemma {:induction false} SumAfterOneMore(before: map<Id, Mailbox>, after: map<Id, Mailbox>, ids: seq<Id>,
                                           day: int, b: Id, more: int)
    requires Distinct(ids)
    requires forall q :: q in ids && q != b ==> SendsToday(after, q, day) == SendsToday(before, q, day)
    requires b in ids ==> SendsToday(after, b, day) == SendsToday(before, b, day) + more
    ensures SumSends(after, ids, day) == SumSends(before, ids, day) + if b in ids then more else 0
  {
    if ids == [] {
    } else {
      assert b in ids <==> b == ids[0] || b in ids[1..];
      SumAfterOneMore(before, after, ids[1..], day, b, more);
    }
  }

  /** Messages turned sent, sent events and the total increase of the daily
      counters are the same number. */
  ghost predicate Agrees(s: Store, t: Store, day: int, ids: seq<Id>) {
    && t.sentEvents >= s.sentEvents
    && SentTotal(t.messages) - SentTotal(s.messages) == t.sentEvents - s.sentEvents
    && SumSends(t.mailboxes, ids, day) - SumSends(s.mailboxes, ids, day) == t.sentEvents - s.sentEvents
    && t.mailboxes.Keys == s.mailboxes.Keys
  }

  lemma AttemptAgrees(cfg: Config, s: Store, i: nat, outcome: Outcome, day: int, ids: seq<Id>)
    requires i < |s.messages| && IsWaiting(s.messages[i]) && s.messages[i].mailbox in s.mailboxes
    requires s.messages[i].mailbox in ids && Distinct(ids)
    requires Today(s.mailboxes[s.messages[i].mailbox], day) == s.mailboxes[s.messages[i].mailbox]
    ensures Agrees(s, Attempt(cfg, s, i, outcome), day, ids)
  {
    var m := s.messages[i];
    match outcome
    case Accepted =>
      SumAfterUpdate(s.messages, i, m.(status := Sent, attempts := m.attempts + 1), WasSent);
      AdvanceSendsNothing(cfg, MarkSent(s, i), m.recipient, WasSent);
      SumAfterOneMore(s.mailboxes, MarkSent(s, i).mailboxes, ids, day, m.mailbox, 1);
    case Rejected => SumAfterUpdate(s.messages, i, Retried(m, cfg.maxRetries), WasSent);
    case Raised => SumAfterUpdate(s.messages, i, m.(status := Failed, attempts := m.attempts + 1), WasSent);
    case _ => SumAfterUpdate(s.messages, i, m.(status := Failed), WasSent);
  }

  lemma EndingAgrees(s: Store, i: nat, status: MessageStatus, day: int, ids: seq<Id>)
    requires i < |s.messages| && IsWaiting(s.messages[i]) && status != Sent
    ensures Agrees(s, WithMessage(s, i, s.messages[i].(status := status)), day, ids)
  {
    SumAfterUpdate(s.messages, i, s.messages[i].(status := status), WasSent);
  }

  /** The daily reset counts for nothing. */
  lemma CheckDayAgrees(s: Store, b: Id, t: Store, day: int, ids: seq<Id>)
    requires b in s.mailboxes && Distinct(ids) && Agrees(CheckDay(s, b, day), t, day, ids)
    ensures Agrees(s, t, day, ids)
  {
    SumAfterOneMore(s.mailboxes, CheckDay(s, b, day).mailboxes, ids, day, b, 0);
  }

  lemma SendOneAgrees(cfg: Config, s: Store, d: Delivery, day: int, ids: seq<Id>)
    requires d.message < |s.messages| && IsWaiting(s.messages[d.message])
    requires Distinct(ids) && forall b :: b in s.mailboxes ==> b in ids
    ensures Agrees(s, SendOne(cfg, s, d, day), day, ids)
  {
    var i := d.message;
    var m := s.messages[i];
    if d.outcome.MailboxRaised? || !Connected(s, m.mailbox) {
      EndingAgrees(s, i, Failed, day, ids);
    } else {
      var t := CheckDay(s, m.mailbox, day);
      if Attempts(s, i, day) {
        AttemptAgrees(cfg, t, i, d.outcome, day, ids);
      } else {
        EndingAgrees(t, i, Withdrawn, day, ids);
        EndingAgrees(t, i, Failed, day, ids);
      }
      CheckDayAgrees(s, m.mailbox, SendOne(cfg, s, d, day), day, ids);
    }
  }

  /** Over any batch the messages turned sent, the sent events and the total
      increase of `sends_today` agree; the service returns this number. */
  lemma BatchAgrees(cfg: Config, s: Store, batch: seq<Delivery>, day: int, ids: seq<Id>)
    requires IsBatch(s, batch) && Distinct(ids) && forall b :: b in s.mailboxes ==> b in ids
    ensures Agrees(s, SendAll(cfg, s, batch, day), day, ids)
  {
    var f, inv := Sender(cfg, day), (t: Store) => Agrees(s, t, day, ids);
    SenderKeepsOthers(cfg, day);
    forall t: Store, d: Delivery | inv(t) && d.message < |t.messages| && IsWaiting(t.messages[d.message])
      ensures inv(f(t, d))
    {
      SendOneAgrees(cfg, t, d, day, ids);
    }
    LoopKeeps(f, inv, s, batch, |batch|);
  }

  // ---- When capacity comes back ----

  /** A mailbox that has used up a positive limit can send again on some day
      exactly when the day of its last reset is known. */
  lemma CapacityReturnsExactlyWhen(b: Mailbox)
    requires Limit(b) > 0 && Capacity(b) == 0
    ensures (exists day :: Capacity(Today(b, day)) > 0) <==> b.resetDay.Some?
  {
    if b.resetDay.Some? {
      assert Capacity(Today(b, b.resetDay.value + 1)) > 0;
    } else {
      assert forall day :: Today(b, day) == b;
    }
  }
}
