/**
  Outreach sequences: campaigns, recipients, messages and mailboxes, and the
  transactions that change them.
 */
module Outreach {
  import opened Basics

  // Each request and each pass of the send worker is one database transaction
  // and one function on `Store` here.  Messages are numbered in the order in
  // which they are created.

  type Id = nat

  datatype CampaignStatus = Draft | Active | Paused | Completed | Cancelled

  datatype RecipientStatus = InSequence | OnHold | Finished | Replied | Bounced | Unsubscribed | Faulty

  datatype MessageStatus = Scheduled | Queued | Sending | Sent | Delivered | Failed | Withdrawn | Returned

  datatype Step = Step(order: nat, isEmail: bool)

  /** `starts` counts the successful calls of `start_campaign`. */
  datatype Campaign = Campaign(status: CampaignStatus, stopOnReply: bool, stopOnBounce: bool, mailbox: Id,
                               deleted: bool, starts: nat)

  datatype Recipient = Recipient(campaign: Id, email: string, status: RecipientStatus, current: nat, deleted: bool)

  /** `attempts` counts hand-overs to a provider and `waited` adds up the
      backoff, in minutes; `order` is the order of the message's step. */
  datatype Message = Message(campaign: Id, order: nat, recipient: Id, mailbox: Id, toEmail: string,
                             status: MessageStatus, retries: nat, attempts: nat, waited: nat)

  datatype Mailbox = Mailbox(connected: bool, limit: int, warmup: bool, warmupLimit: Option<int>,
                             sends: int, resetDay: Option<int>, deleted: bool)

  datatype Store = Store(campaigns: map<Id, Campaign>, recipients: map<Id, Recipient>, messages: seq<Message>,
                         mailboxes: map<Id, Mailbox>, unsubscribed: set<string>, sentEvents: nat)

  /** The step lists, fixed for a run, and `max_retries` of a new message. */
  datatype Config = Config(steps: Id -> seq<Step>, maxRetries: int)

  /** What becomes of a message whose turn it is: the provider accepts or
      rejects it or the call raises, or an exception is raised before it: by
      the lookup of the mailbox or its capacity, by the lookup of the address,
      or later. */
  datatype Outcome = Accepted | Rejected | Raised | NotHandedOver | MailboxRaised | AddressRaised

  datatype Delivery = Delivery(message: nat, outcome: Outcome)

  // ---- Selections ----

  predicate IsWaiting(m: Message) {
    m.status == Scheduled || m.status == Queued
  }

  predicate IsStopped(status: RecipientStatus) {
    status == Replied || status == Bounced || status == Unsubscribed
  }

  /** Stopped or removed: nothing may be sent any more. */
  predicate Closed(r: Recipient) {
    r.deleted || IsStopped(r.status)
  }

  predicate LiveCampaign(s: Store, c: Id) {
    c in s.campaigns && !s.campaigns[c].deleted
  }

  predicate LiveRecipient(s: Store, r: Id) {
    r in s.recipients && !s.recipients[r].deleted
  }

  predicate LiveMailbox(s: Store, b: Id) {
    b in s.mailboxes && !s.mailboxes[b].deleted
  }

  /** The step with the least order above `current`. */
  function NextStep(steps: seq<Step>, current: int): (next: Option<Step>)
    ensures next.Some? ==>
      next.value in steps && next.value.order > current
      && forall t :: t in steps && t.order > current ==> next.value.order <= t.order
    ensures next.None? ==> forall t :: t in steps ==> t.order <= current
  {
    if steps == [] then None
    else
      var rest := NextStep(steps[1..], current);
      assert forall t :: t in steps ==> t == steps[0] || t in steps[1..];
      if steps[0].order > current && (rest.None? || steps[0].order <= rest.value.order) then Some(steps[0])
      else rest
  }

  // ---- Campaigns and scheduling ----

  predicate Allowed(from: CampaignStatus, to: CampaignStatus) {
    match from
    case Draft => to == Active || to == Cancelled
    case Active => to == Paused || to == Completed || to == Cancelled
    case Paused => to == Active || to == Cancelled
    case _ => false
  }

  predicate MayMove(s: Store, c: Id, to: CampaignStatus) {
    LiveCampaign(s, c) && Allowed(s.campaigns[c].status, to)
  }

  function Move(s: Store, c: Id, to: CampaignStatus): Store {
    if MayMove(s, c, to) then s.(campaigns := s.campaigns[c := s.campaigns[c].(status := to)]) else s
  }

  function NewMessage(s: Store, c: Id, step: Step, r: Id): Message
    requires c in s.campaigns && r in s.recipients
  {
    Message(c, step.order, r, s.campaigns[c].mailbox, s.recipients[r].email, Scheduled, 0, 0, 0)
  }

  /** `_schedule_message`: nothing for a step that is not an email. */
  function Schedule(s: Store, c: Id, step: Step, r: Id): Store {
    if c !in s.campaigns || r !in s.recipients || !step.isEmail || !LiveMailbox(s, s.campaigns[c].mailbox) then s
    else s.(messages := s.messages + [NewMessage(s, c, step, r)],
            recipients := s.recipients[r := s.recipients[r].(current := step.order)])
  }

  function ScheduleIfActive(s: Store, c: Id, step: Step, r: Id): Store {
    if r in s.recipients && s.recipients[r].status == InSequence then Schedule(s, c, step, r) else s
  }

  /** The loop of `start_campaign` over the first `n` recipients read. */
  function ScheduleFirst(s: Store, c: Id, step: Step, page: seq<Id>, n: nat): Store
    requires n <= |page|
  {
    if n == 0 then s else ScheduleIfActive(ScheduleFirst(s, c, step, page, n - 1), c, step, page[n - 1])
  }

  function Started(s: Store, c: Id): Store
    requires c in s.campaigns
  {
    s.(campaigns := s.campaigns[c := s.campaigns[c].(status := Active, starts := s.campaigns[c].starts + 1)])
  }

  function StartCampaign(cfg: Config, s: Store, c: Id, page: seq<Id>): Store {
    if !MayMove(s, c, Active) then s
    else
      match NextStep(cfg.steps(c), -1)
      case None => Started(s, c)
      case Some(step) => ScheduleFirst(Started(s, c), c, step, page, |page|)
  }

  /** The recipients `start_campaign` reads: at most 10000, each once. */
  const PAGE_SIZE := 10000

  function RecipientsOf(s: Store, c: Id): set<Id> {
    set r | r in s.recipients && !s.recipients[r].deleted && s.recipients[r].campaign == c
  }

  ghost predicate IsPage(s: Store, c: Id, page: seq<Id>) {
    var all := RecipientsOf(s, c);
    && (forall i, j :: 0 <= i < j < |page| ==> page[i] != page[j])
    && (forall i :: 0 <= i < |page| ==> page[i] in all)
    && |page| == if |all| < PAGE_SIZE then |all| else PAGE_SIZE
  }

  /** `advance_recipient`. */
  function Advance(cfg: Config, s: Store, r: Id): Store {
    if !LiveRecipient(s, r) then s
    else
      var c := s.recipients[r].campaign;
      if !LiveCampaign(s, c) || s.campaigns[c].status != Active then s
      else
        match NextStep(cfg.steps(c), s.recipients[r].current)
        case Some(step) => Schedule(s, c, step, r)
        case None => s.(recipients := s.recipients[r := s.recipients[r].(status := Finished)])
  }

  // ---- Tracking ----

  function Withdraw(m: Message, r: Id): Message {
    if m.recipient == r && IsWaiting(m) then m.(status := Withdrawn) else m
  }

  /** `cancel_scheduled_for_recipient`. */
  function CancelWaiting(messages: seq<Message>, r: Id): seq<Message> {
    seq(|messages|, i requires 0 <= i < |messages| => Withdraw(messages[i], r))
  }

  /** Waiting messages of `r` among the first `n`. */
  function WaitingCount(messages: seq<Message>, r: Id, n: nat): nat
    requires n <= |messages|
  {
    if n == 0 then 0
    else
      WaitingCount(messages, r, n - 1)
      + if messages[n - 1].recipient == r && IsWaiting(messages[n - 1]) then 1 else 0
  }

  function Stop(s: Store, r: Id, status: RecipientStatus): Store {
    if !LiveRecipient(s, r) then s
    else s.(recipients := s.recipients[r := s.recipients[r].(status := status)],
            messages := CancelWaiting(s.messages, r))
  }

  function Remove(s: Store, r: Id): Store {
    if !LiveRecipient(s, r) then s
    else s.(recipients := s.recipients[r := s.recipients[r].(deleted := true)],
            messages := CancelWaiting(s.messages, r))
  }

  function WithMessage(s: Store, i: nat, m: Message): Store
    requires i < |s.messages|
  {
    s.(messages := s.messages[i := m])
  }

  /** `record_reply` for message `i`. */
  function Reply(s: Store, i: nat): Store {
    if i >= |s.messages| then s
    else
      var m := s.messages[i];
      if LiveCampaign(s, m.campaign) && s.campaigns[m.campaign].stopOnReply then Stop(s, m.recipient, Replied) else s
  }

  /** `record_bounce` for message `i`. */
  function Bounce(s: Store, i: nat): Store {
    if i >= |s.messages| then s
    else
      var m := s.messages[i];
      var t := WithMessage(s, i, m.(status := Returned));
      if LiveCampaign(s, m.campaign) && s.campaigns[m.campaign].stopOnBounce then Stop(t, m.recipient, Bounced) else t
  }

  /** `process_unsubscribe` for message `i`. */
  function Unsubscribe(s: Store, i: nat): Store {
    if i >= |s.messages| then s
    else
      var m := s.messages[i];
      Stop(s.(unsubscribed := s.unsubscribed + {m.toEmail}), m.recipient, Unsubscribed)
  }

  // ---- Sending ----

  /** The mailbox once its daily counter is reset for `day`, if it is due. */
  function Today(b: Mailbox, day: int): Mailbox {
    if b.resetDay.Some? && b.resetDay.value < day then b.(sends := 0, resetDay := Some(day)) else b
  }

  /** A warm-up limit of zero does not count, as in the source. */
  function Limit(b: Mailbox): int {
    if b.warmup && b.warmupLimit.Some? && b.warmupLimit.value != 0 && b.warmupLimit.value < b.limit
    then b.warmupLimit.value else b.limit
  }

  function Capacity(b: Mailbox): nat {
    if Limit(b) > b.sends then Limit(b) - b.sends else 0
  }

  function Pow2(n: nat): nat {
    if n == 0 then 1 else 2 * Pow2(n - 1)
  }

  /** `_handle_failure`, after an attempt. */
  function Retried(m: Message, maxRetries: int): Message {
    var tried := m.(retries := m.retries + 1, attempts := m.attempts + 1);
    if tried.retries >= maxRetries then tried.(status := Failed)
    else tried.(status := Scheduled, waited := m.waited + 5 * Pow2(tried.retries))
  }

  /** The message, counter and event of an accepted message. */
  function MarkSent(s: Store, i: nat): Store
    requires i < |s.messages| && s.messages[i].mailbox in s.mailboxes
  {
    var m := s.messages[i];
    var b := s.mailboxes[m.mailbox];
    s.(messages := s.messages[i := m.(status := Sent, attempts := m.attempts + 1)],
       mailboxes := s.mailboxes[m.mailbox := b.(sends := b.sends + 1)],
       sentEvents := s.sentEvents + 1)
  }

  function CheckDay(s: Store, b: Id, day: int): Store
    requires b in s.mailboxes
  {
    s.(mailboxes := s.mailboxes[b := Today(s.mailboxes[b], day)])
  }

  predicate Connected(s: Store, b: Id) {
    LiveMailbox(s, b) && s.mailboxes[b].connected
  }

  /** Whether message `i` passes the checks of the loop. */
  predicate Attempts(s: Store, i: nat, day: int) {
    && i < |s.messages|
    && Connected(s, s.messages[i].mailbox)
    && Capacity(Today(s.mailboxes[s.messages[i].mailbox], day)) > 0
    && s.messages[i].toEmail !in s.unsubscribed
  }

  /** Message `i` is prepared and handed to its provider. */
  function Attempt(cfg: Config, s: Store, i: nat, outcome: Outcome): Store
    requires i < |s.messages| && s.messages[i].mailbox in s.mailboxes
  {
    var m := s.messages[i];
    match outcome
    case Accepted => Advance(cfg, MarkSent(s, i), m.recipient)
    case Rejected => WithMessage(s, i, Retried(m, cfg.maxRetries))
    case Raised => WithMessage(s, i, m.(status := Failed, attempts := m.attempts + 1))
    case _ => WithMessage(s, i, m.(status := Failed))
  }

  /** One message of a batch. */
  function SendOne(cfg: Config, s: Store, d: Delivery, day: int): Store {
    var i := d.message;
    if i >= |s.messages| then s
    else
      var m := s.messages[i];
      if d.outcome.MailboxRaised? || !Connected(s, m.mailbox) then WithMessage(s, i, m.(status := Failed))
      else
        var t := CheckDay(s, m.mailbox, day);
        if Capacity(t.mailboxes[m.mailbox]) == 0 then t
        else if d.outcome.AddressRaised? then WithMessage(t, i, m.(status := Failed))
        else if m.toEmail in s.unsubscribed then WithMessage(t, i, m.(status := Withdrawn))
        else Attempt(cfg, t, i, d.outcome)
  }

  /** The first `n` deliveries of a batch, each done by `f`. */
  function Loop(f: (Store, Delivery) -> Store, s: Store, batch: seq<Delivery>, n: nat): Store
    requires n <= |batch|
  {
    if n == 0 then s else f(Loop(f, s, batch, n - 1), batch[n - 1])
  }

  function Sender(cfg: Config, day: int): (Store, Delivery) -> Store {
    (s: Store, d: Delivery) => SendOne(cfg, s, d, day)
  }

  /** `process_send_queue` on the messages it read. */
  function SendAll(cfg: Config, s: Store, batch: seq<Delivery>, day: int): Store {
    Loop(Sender(cfg, day), s, batch, |batch|)
  }

  /** What `get_scheduled_messages` can return: waiting messages, each once. */
  predicate IsBatch(s: Store, batch: seq<Delivery>) {
    && (forall i, j :: 0 <= i < j < |batch| ==> batch[i].message != batch[j].message)
    && (forall i :: 0 <= i < |batch| ==> batch[i].message < |s.messages| && IsWaiting(s.messages[batch[i].message]))
  }

  // ---- The loop, for any way to deliver that leaves other messages alone ----

  /** The messages of `s` other than the `j`-th are as they were in `t`. */
  ghost predicate OthersSame(s: Store, t: Store, j: nat) {
    |s.messages| <= |t.messages| && forall i :: 0 <= i < |s.messages| && i != j ==> t.messages[i] == s.messages[i]
  }

  ghost predicate KeepsOthers(f: (Store, Delivery) -> Store) {
    forall s: Store, d: Delivery {:trigger f(s, d)} :: OthersSame(s, f(s, d), d.message)
  }

  /** `f` keeps `inv` when it delivers a waiting message. */
  ghost predicate Keeps(f: (Store, Delivery) -> Store, inv: Store -> bool) {
    forall s: Store, d: Delivery {:trigger f(s, d)} |
      inv(s) && d.message < |s.messages| && IsWaiting(s.messages[d.message]) :: inv(f(s, d))
  }

  lemma {:induction false} LoopKeepsOthers(f: (Store, Delivery) -> Store, s: Store,
                                           batch: seq<Delivery>, n: nat, i: nat)
    requires KeepsOthers(f) && n <= |batch| && i < |s.messages|
    requires forall k :: 0 <= k < n ==> batch[k].message != i
    ensures i < |Loop(f, s, batch, n).messages| && Loop(f, s, batch, n).messages[i] == s.messages[i]
  {
    if n == 0 {
    } else {
      LoopKeepsOthers(f, s, batch, n - 1, i);
      var t := Loop(f, s, batch, n - 1);
      assert OthersSame(t, f(t, batch[n - 1]), batch[n - 1].message);
    }
  }

  /** Every message of the batch still waits when its turn comes, so the whole
      loop keeps what each delivery keeps. */
  lemma {:induction false} LoopKeeps(f: (Store, Delivery) -> Store, inv: Store -> bool, s: Store,
                                     batch: seq<Delivery>, n: nat)
    requires KeepsOthers(f) && Keeps(f, inv) && IsBatch(s, batch) && n <= |batch| && inv(s)
    ensures inv(Loop(f, s, batch, n))
  {
    if n == 0 {
    } else {
      LoopKeeps(f, inv, s, batch, n - 1);
      LoopKeepsOthers(f, s, batch, n - 1, batch[n - 1].message);
    }
  }

  /** One message of a batch leaves the other messages alone. */
  lemma SendOneKeepsOthers(cfg: Config, s: Store, d: Delivery, day: int)
    ensures OthersSame(s, SendOne(cfg, s, d, day), d.message)
  {
  }

  lemma SenderKeepsOthers(cfg: Config, day: int)
    ensures KeepsOthers(Sender(cfg, day))
  {
    forall s: Store, d: Delivery
      ensures OthersSame(s, Sender(cfg, day)(s, d), d.message)
    {
      SendOneKeepsOthers(cfg, s, d, day);
    }
  }
}
