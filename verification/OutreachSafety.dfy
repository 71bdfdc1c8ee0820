/**
  What every run of outreach transactions keeps: a stopped recipient is never
  written to again, and a campaign started once walks its steps in order.

  Three statements are carried through the events: that a recipient without
  waiting messages is left alone, that the messages of a campaign fit its
  recipients and its retry bounds, and that a listed address is spared.  Each
  has one lemma for every kind of event, one for the loop of the send worker,
  by `LoopKeeps`, and one for whole runs, by induction.
 */
module OutreachSafety {
  import opened Outreach

  datatype Event =
    | CreateCampaign(c: Id, stopOnReply: bool, stopOnBounce: bool, mailbox: Id)
    | EditCampaign(c: Id, stopOnReply: bool, stopOnBounce: bool, mailbox: Id)
    | DeleteCampaign(c: Id)
    | Start(c: Id, page: seq<Id>)
    | MoveCampaign(c: Id, to: CampaignStatus)  // pause, resume and cancel
    | AddRecipient(c: Id, r: Id, email: string)
    | RemoveRecipient(r: Id)
    | SendQueue(batch: seq<Delivery>, day: int)
    | RecordReply(i: nat)
    | RecordBounce(i: nat)
    | ProcessUnsubscribe(i: nat)
    | PutMailbox(b: Id, row: Mailbox)

  /** Fresh ids for new rows, and reads that return what the queries select. */
  ghost predicate Legal(s: Store, e: Event) {
    match e
    case CreateCampaign(c, _, _, _) => c !in s.campaigns
    case AddRecipient(_, r, _) => r !in s.recipients
    case Start(c, page) => IsPage(s, c, page)
    case SendQueue(batch, _) => IsBatch(s, batch)
    case _ => true
  }

  predicate Enrolled(s: Store, c: Id, email: string) {
    exists r :: r in s.recipients && !s.recipients[r].deleted
                && s.recipients[r].campaign == c && s.recipients[r].email == email
  }

  function Add(s: Store, c: Id, r: Id, email: string): Store {
    if !LiveCampaign(s, c) || Enrolled(s, c, email) then s
    else s.(recipients := s.recipients[r := Recipient(c, email, InSequence, 0, false)])
  }

  function Edit(s: Store, c: Id, stopOnReply: bool, stopOnBounce: bool, mailbox: Id): Store {
    if !LiveCampaign(s, c) then s
    else s.(campaigns := s.campaigns[c :=
      s.campaigns[c].(stopOnReply := stopOnReply, stopOnBounce := stopOnBounce, mailbox := mailbox)])
  }

  function Delete(s: Store, c: Id): Store {
    if !LiveCampaign(s, c) then s
    else s.(campaigns := s.campaigns[c := s.campaigns[c].(deleted := true)])
  }

  function Apply(cfg: Config, s: Store, e: Event): Store {
    match e
    case CreateCampaign(c, stopOnReply, stopOnBounce, mailbox) =>
      s.(campaigns := s.campaigns[c := Campaign(Draft, stopOnReply, stopOnBounce, mailbox, false, 0)])
    case EditCampaign(c, stopOnReply, stopOnBounce, mailbox) => Edit(s, c, stopOnReply, stopOnBounce, mailbox)
    case DeleteCampaign(c) => Delete(s, c)
    case Start(c, page) => StartCampaign(cfg, s, c, page)
    case MoveCampaign(c, to) => Move(s, c, to)
    case AddRecipient(c, r, email) => Add(s, c, r, email)
    case RemoveRecipient(r) => Remove(s, r)
    case SendQueue(batch, day) => SendAll(cfg, s, batch, day)
    case RecordReply(i) => Reply(s, i)
    case RecordBounce(i) => Bounce(s, i)
    case ProcessUnsubscribe(i) => Unsubscribe(s, i)
    case PutMailbox(b, row) => s.(mailboxes := s.mailboxes[b := row])
  }

  ghost predicate LegalRun(cfg: Config, s: Store, events: seq<Event>)
    decreases |events|
  {
    events == [] || (Legal(s, events[0]) && LegalRun(cfg, Apply(cfg, s, events[0]), events[1..]))
  }

  function Run(cfg: Config, s: Store, events: seq<Event>): Store
    decreases |events|
  {
    if events == [] then s else Run(cfg, Apply(cfg, s, events[0]), events[1..])
  }

  const EMPTY := Store(map[], map[], [], map[], {}, 0)

  // ---- A quiet recipient ----

  /** No message of `r` waits to be sent. */
  ghost predicate Quiet(s: Store, r: Id) {
    forall i :: 0 <= i < |s.messages| && s.messages[i].recipient == r ==> !IsWaiting(s.messages[i])
  }

  /** From `s` to `t` nothing was created for `r` and nothing of `r` was
      handed to a provider; a closed or stopped recipient stays so. */
  ghost predicate Untouched(s: Store, t: Store, r: Id) {
    && |s.messages| <= |t.messages|
    && (forall i :: 0 <= i < |t.messages| ==>
          if i >= |s.messages| then t.messages[i].recipient != r
          else
            t.messages[i].recipient == s.messages[i].recipient
            && (s.messages[i].recipient == r ==> t.messages[i].attempts == s.messages[i].attempts))
    && r in s.recipients && r in t.recipients
    && t.recipients[r].campaign == s.recipients[r].campaign
    && (s.recipients[r].deleted ==> t.recipients[r].deleted)
    && (IsStopped(s.recipients[r].status) ==> IsStopped(t.recipients[r].status))
  }

  lemma UntouchedChains(s: Store, t: Store, u: Store, r: Id)
    requires Untouched(s, t, r) && Untouched(t, u, r)
    ensures Untouched(s, u, r)
  {
  }

  /** `s` and `t` agree on the recipient and nothing new is for it. */
  ghost predicate Leaves(s: Store, t: Store, r: Id) {
    Untouched(s, t, r) && Quiet(t, r)
  }

  lemma AcceptedLeaves(cfg: Config, s: Store, i: nat, r: Id)
    requires r in s.recipients && Quiet(s, r)
    requires i < |s.messages| && s.messages[i].recipient != r && s.messages[i].mailbox in s.mailboxes
    ensures Leaves(s, Advance(cfg, MarkSent(s, i), s.messages[i].recipient), r)
  {
    var t := MarkSent(s, i);
    assert Leaves(s, t, r);
    UntouchedChains(s, t, Advance(cfg, t, s.messages[i].recipient), r);
  }

  lemma AttemptLeaves(cfg: Config, s: Store, i: nat, outcome: Outcome, r: Id)
    requires r in s.recipients && Quiet(s, r)
    requires i < |s.messages| && s.messages[i].recipient != r && s.messages[i].mailbox in s.mailboxes
    ensures Leaves(s, Attempt(cfg, s, i, outcome), r)
  {
    match outcome
    case Accepted => AcceptedLeaves(cfg, s, i, r);
    case _ =>
  }

  lemma SendOneLeaves(cfg: Config, s: Store, d: Delivery, day: int, r: Id)
    requires r in s.recipients && Quiet(s, r)
    requires d.message < |s.messages| && s.messages[d.message].recipient != r
    ensures Leaves(s, SendOne(cfg, s, d, day), r)
  {
    var m := s.messages[d.message];
    if Connected(s, m.mailbox) {
      AttemptLeaves(cfg, CheckDay(s, m.mailbox, day), d.message, d.outcome, r);
    }
  }

  lemma SendAllLeaves(cfg: Config, s: Store, batch: seq<Delivery>, day: int, r: Id)
    requires IsBatch(s, batch) && r in s.recipients && Quiet(s, r)
    ensures Leaves(s, SendAll(cfg, s, batch, day), r)
  {
    var f, inv := Sender(cfg, day), (t: Store) => Leaves(s, t, r);
    SenderKeepsOthers(cfg, day);
    forall t: Store, d: Delivery | inv(t) && d.message < |t.messages| && IsWaiting(t.messages[d.message])
      ensures inv(f(t, d))
    {
      SendOneLeaves(cfg, t, d, day, r);
      UntouchedChains(s, t, f(t, d), r);
    }
    LoopKeeps(f, inv, s, batch, |batch|);
  }

  lemma {:induction false} ScheduleFirstLeaves(s: Store, c: Id, step: Step, page: seq<Id>, n: nat, r: Id)
    requires n <= |page| && r in s.recipients && Quiet(s, r)
    requires forall i :: 0 <= i < n ==> page[i] != r || s.recipients[r].status != InSequence
    ensures Leaves(s, ScheduleFirst(s, c, step, page, n), r)
    ensures ScheduleFirst(s, c, step, page, n).recipients[r] == s.recipients[r]
  {
    if n == 0 {
    } else {
      ScheduleFirstLeaves(s, c, step, page, n - 1, r);
      var t := ScheduleFirst(s, c, step, page, n - 1);
      assert Leaves(t, ScheduleIfActive(t, c, step, page[n - 1]), r);
      UntouchedChains(s, t, ScheduleIfActive(t, c, step, page[n - 1]), r);
    }
  }

  lemma StopLeaves(s: Store, q: Id, status: RecipientStatus, r: Id)
    requires r in s.recipients && Quiet(s, r) && IsStopped(status)
    ensures Leaves(s, Stop(s, q, status), r) && Leaves(s, Remove(s, q), r)
  {
  }

  lemma StartLeaves(cfg: Config, s: Store, c: Id, page: seq<Id>, r: Id)
    requires r in s.recipients && Quiet(s, r) && IsPage(s, c, page)
    requires Closed(s.recipients[r]) || c != s.recipients[r].campaign
    ensures Leaves(s, StartCampaign(cfg, s, c, page), r)
  {
    var next := NextStep(cfg.steps(c), -1);
    if MayMove(s, c, Active) && next.Some? {
      ScheduleFirstLeaves(Started(s, c), c, next.value, page, |page|, r);
    }
  }

  lemma BounceLeaves(s: Store, i: nat, r: Id)
    requires r in s.recipients && Quiet(s, r) && i < |s.messages|
    ensures Leaves(s, Bounce(s, i), r)
  {
    var t := WithMessage(s, i, s.messages[i].(status := Returned));
    assert Leaves(s, t, r);
    StopLeaves(t, t.messages[i].recipient, Bounced, r);
    UntouchedChains(s, t, Stop(t, t.messages[i].recipient, Bounced), r);
  }

  /** Nothing but a start of its own campaign can wake a quiet recipient, and
      not even that wakes a closed one. */
  lemma EventLeaves(cfg: Config, s: Store, e: Event, r: Id)
    requires r in s.recipients && Quiet(s, r) && Legal(s, e)
    requires Closed(s.recipients[r]) || !(e.Start? && e.c == s.recipients[r].campaign)
    ensures Leaves(s, Apply(cfg, s, e), r)
  {
    match e
    case Start(c, page) => StartLeaves(cfg, s, c, page, r);
    case SendQueue(batch, day) => SendAllLeaves(cfg, s, batch, day, r);
    case RemoveRecipient(q) => StopLeaves(s, q, Replied, r);
    case RecordReply(i) => if i < |s.messages| { StopLeaves(s, s.messages[i].recipient, Replied, r); }
    case RecordBounce(i) => if i < |s.messages| { BounceLeaves(s, i, r); }
    case ProcessUnsubscribe(i) =>
      if i < |s.messages| {
        var m := s.messages[i];
        StopLeaves(s.(unsubscribed := s.unsubscribed + {m.toEmail}), m.recipient, Unsubscribed, r);
      }
    case _ =>
  }

  ghost predicate NeverStarts(events: seq<Event>, c: Id) {
    forall i :: 0 <= i < |events| ==> !(events[i].Start? && events[i].c == c)
  }

  /** A quiet recipient that is closed, or whose campaign is not started
      again, is never written to: the run leaves it untouched. */
  lemma {:induction false} QuietForGood(cfg: Config, s: Store, events: seq<Event>, r: Id)
    requires r in s.recipients && Quiet(s, r) && LegalRun(cfg, s, events)
    requires Closed(s.recipients[r]) || NeverStarts(events, s.recipients[r].campaign)
    ensures Leaves(s, Run(cfg, s, events), r)
    decreases |events|
  {
    if events == [] {
    } else {
      EventLeaves(cfg, s, events[0], r);
      var t := Apply(cfg, s, events[0]);
      QuietForGood(cfg, t, events[1..], r);
      UntouchedChains(s, t, Run(cfg, t, events[1..]), r);
    }
  }

  // ---- The invariant ----

  predicate StartedOnce(s: Store, c: Id) {
    c in s.campaigns && s.campaigns[c].starts == 1
  }

  function AttemptBound(maxRetries: int): nat {
    if maxRetries >= 1 then maxRetries else 1
  }

  function BackoffBound(maxRetries: int): int {
    if maxRetries >= 1 then 5 * (Pow2(maxRetries) - 2) else 0
  }

  ghost predicate WithinRetries(m: Message, maxRetries: int) {
    && m.attempts <= AttemptBound(maxRetries)
    && m.waited <= BackoffBound(maxRetries)
    && (IsWaiting(m) ==>
          m.attempts == m.retries && (m.retries == 0 || m.retries < maxRetries)
          && m.waited == 5 * (Pow2(m.retries + 1) - 2))
  }

  /** A message belongs to the campaign of its recipient, which was started;
      if it waits, the recipient is neither stopped nor removed; in a campaign
      started once the recipient is at or past its step. */
  ghost predicate MessageOk(cfg: Config, s: Store, m: Message) {
    && WithinRetries(m, cfg.maxRetries)
    && m.recipient in s.recipients && s.recipients[m.recipient].campaign == m.campaign
    && m.campaign in s.campaigns && s.campaigns[m.campaign].starts >= 1
    && (IsWaiting(m) ==> !Closed(s.recipients[m.recipient]))
    && (StartedOnce(s, m.campaign) ==> m.order <= s.recipients[m.recipient].current)
  }

  /** In a campaign started once, the messages of a recipient go up the steps,
      and only the last of them may wait. */
  ghost predicate InOrder(s: Store) {
    forall i, j | 0 <= i < j < |s.messages| && StartedOnce(s, s.messages[i].campaign) ::
      s.messages[i].recipient == s.messages[j].recipient ==>
        s.messages[i].order < s.messages[j].order && !IsWaiting(s.messages[i])
  }

  ghost predicate Good(cfg: Config, s: Store) {
    InOrder(s) && forall i :: 0 <= i < |s.messages| ==> MessageOk(cfg, s, s.messages[i])
  }

  // ---- The invariant is kept ----

  lemma Pow2Grows(a: nat, b: nat)
    requires a <= b
    ensures 1 <= Pow2(a) <= Pow2(b)
  {
    if a < b {
      Pow2Grows(a, b - 1);
    } else if a > 0 {
      Pow2Grows(a - 1, b - 1);
    }
  }

  lemma NewIsWithinRetries(m: Message, maxRetries: int)
    requires m.retries == 0 && m.attempts == 0 && m.waited == 0
    ensures WithinRetries(m, maxRetries)
  {
    if maxRetries >= 1 {
      Pow2Grows(1, maxRetries);
    }
    assert Pow2(1) == 2;
  }

  /** A failed attempt doubles the wait and stays within both bounds. */
  lemma RetriedIsWithinRetries(m: Message, maxRetries: int)
    requires WithinRetries(m, maxRetries) && IsWaiting(m)
    ensures WithinRetries(Retried(m, maxRetries), maxRetries)
  {
    if m.retries + 1 < maxRetries {
      Pow2Grows(m.retries + 2, maxRetries);
      assert Pow2(m.retries + 2) == 2 * Pow2(m.retries + 1);
    }
  }

  lemma EndedIsWithinRetries(m: Message, status: MessageStatus, maxRetries: int)
    requires WithinRetries(m, maxRetries) && (status == Scheduled || status == Queued ==> IsWaiting(m))
    ensures WithinRetries(m.(status := status), maxRetries)
    ensures IsWaiting(m) && status != Scheduled && status != Queued ==>
      WithinRetries(m.(status := status, attempts := m.attempts + 1), maxRetries)
  {
  }

  lemma ReplaceKeepsGood(cfg: Config, s: Store, i: nat, m: Message)
    requires Good(cfg, s) && i < |s.messages| && WithinRetries(m, cfg.maxRetries)
    requires m.recipient == s.messages[i].recipient && m.campaign == s.messages[i].campaign
             && m.order == s.messages[i].order
    requires IsWaiting(m) ==> IsWaiting(s.messages[i])
    ensures Good(cfg, WithMessage(s, i, m))
  {
  }

  lemma RowsDoNotMatter(cfg: Config, s: Store, mailboxes: map<Id, Mailbox>, unsubscribed: set<string>, sentEvents: nat)
    requires Good(cfg, s)
    ensures Good(cfg, s.(mailboxes := mailboxes, unsubscribed := unsubscribed, sentEvents := sentEvents))
  {
  }

  ghost predicate Behind(s: Store, r: Id, order: nat) {
    forall i :: 0 <= i < |s.messages| && s.messages[i].recipient == r ==> s.messages[i].order < order
  }

  lemma ScheduleKeepsGood(cfg: Config, s: Store, c: Id, step: Step, r: Id)
    requires Good(cfg, s)
    requires r in s.recipients && !Closed(s.recipients[r]) && s.recipients[r].campaign == c
    requires c in s.campaigns && s.campaigns[c].starts >= 1
    requires StartedOnce(s, c) ==> Quiet(s, r) && Behind(s, r, step.order)
    ensures Good(cfg, Schedule(s, c, step, r))
  {
    NewIsWithinRetries(NewMessage(s, c, step, r), cfg.maxRetries);
  }

  lemma AdvanceKeepsGood(cfg: Config, s: Store, r: Id)
    requires Good(cfg, s) && r in s.recipients && !Closed(s.recipients[r])
    requires s.recipients[r].campaign in s.campaigns && s.campaigns[s.recipients[r].campaign].starts >= 1
    requires StartedOnce(s, s.recipients[r].campaign) ==> Quiet(s, r)
    ensures Good(cfg, Advance(cfg, s, r))
  {
    var c := s.recipients[r].campaign;
    var next := NextStep(cfg.steps(c), s.recipients[r].current);
    if next.Some? {
      ScheduleKeepsGood(cfg, s, c, next.value, r);
    } else {
    }
  }

  lemma SentIsTheLastOne(cfg: Config, s: Store, i: nat)
    requires Good(cfg, s) && i < |s.messages| && IsWaiting(s.messages[i]) && s.messages[i].mailbox in s.mailboxes
    requires StartedOnce(s, s.messages[i].campaign)
    ensures Quiet(MarkSent(s, i), s.messages[i].recipient)
  {
  }

  lemma MarkSentKeepsGood(cfg: Config, s: Store, i: nat)
    requires Good(cfg, s) && i < |s.messages| && IsWaiting(s.messages[i]) && s.messages[i].mailbox in s.mailboxes
    ensures Good(cfg, MarkSent(s, i))
  {
    var m := s.messages[i];
    var sent := m.(status := Sent, attempts := m.attempts + 1);
    EndedIsWithinRetries(m, Sent, cfg.maxRetries);
    ReplaceKeepsGood(cfg, s, i, sent);
    var t := MarkSent(s, i);
    RowsDoNotMatter(cfg, WithMessage(s, i, sent), t.mailboxes, t.unsubscribed, t.sentEvents);
  }

  lemma AcceptedKeepsGood(cfg: Config, s: Store, i: nat)
    requires Good(cfg, s) && i < |s.messages| && IsWaiting(s.messages[i]) && s.messages[i].mailbox in s.mailboxes
    ensures Good(cfg, Advance(cfg, MarkSent(s, i), s.messages[i].recipient))
  {
    MarkSentKeepsGood(cfg, s, i);
    if StartedOnce(s, s.messages[i].campaign) {
      SentIsTheLastOne(cfg, s, i);
    }
    AdvanceKeepsGood(cfg, MarkSent(s, i), s.messages[i].recipient);
  }

  lemma AttemptKeepsGood(cfg: Config, s: Store, i: nat, outcome: Outcome)
    requires Good(cfg, s) && i < |s.messages| && IsWaiting(s.messages[i]) && s.messages[i].mailbox in s.mailboxes
    ensures Good(cfg, Attempt(cfg, s, i, outcome))
  {
    var m := s.messages[i];
    match outcome
    case Accepted => AcceptedKeepsGood(cfg, s, i);
    case Rejected =>
      RetriedIsWithinRetries(m, cfg.maxRetries);
      ReplaceKeepsGood(cfg, s, i, Retried(m, cfg.maxRetries));
    case Raised =>
      EndedIsWithinRetries(m, Failed, cfg.maxRetries);
      ReplaceKeepsGood(cfg, s, i, m.(status := Failed, attempts := m.attempts + 1));
    case _ =>
      EndedIsWithinRetries(m, Failed, cfg.maxRetries);
      ReplaceKeepsGood(cfg, s, i, m.(status := Failed));
  }

  lemma SendOneKeepsGood(cfg: Config, s: Store, d: Delivery, day: int)
    requires Good(cfg, s) && d.message < |s.messages| && IsWaiting(s.messages[d.message])
    ensures Good(cfg, SendOne(cfg, s, d, day))
  {
    var i := d.message;
    var m := s.messages[i];
    EndedIsWithinRetries(m, Failed, cfg.maxRetries);
    ReplaceKeepsGood(cfg, s, i, m.(status := Failed));
    if Connected(s, m.mailbox) {
      var t := CheckDay(s, m.mailbox, day);
      RowsDoNotMatter(cfg, s, t.mailboxes, t.unsubscribed, t.sentEvents);
      EndedIsWithinRetries(m, Withdrawn, cfg.maxRetries);
      ReplaceKeepsGood(cfg, t, i, m.(status := Withdrawn));
      ReplaceKeepsGood(cfg, t, i, m.(status := Failed));
      AttemptKeepsGood(cfg, t, i, d.outcome);
    }
  }

  lemma SendAllKeepsGood(cfg: Config, s: Store, batch: seq<Delivery>, day: int)
    requires Good(cfg, s) && IsBatch(s, batch)
    ensures Good(cfg, SendAll(cfg, s, batch, day))
  {
    var f, inv := Sender(cfg, day), (t: Store) => Good(cfg, t);
    SenderKeepsOthers(cfg, day);
    forall t: Store, d: Delivery | inv(t) && d.message < |t.messages| && IsWaiting(t.messages[d.message])
      ensures inv(f(t, d))
    {
      SendOneKeepsGood(cfg, t, d, day);
    }
    LoopKeeps(f, inv, s, batch, |batch|);
  }

  ghost predicate NoneFor(s: Store, r: Id) {
    forall i :: 0 <= i < |s.messages| ==> s.messages[i].recipient != r
  }

  lemma StartedKeepsGood(cfg: Config, s: Store, c: Id)
    requires Good(cfg, s) && c in s.campaigns
    ensures Good(cfg, Started(s, c))
    ensures StartedOnce(Started(s, c), c) ==>
      forall r :: r in s.recipients && s.recipients[r].campaign == c ==> NoneFor(s, r)
  {
  }

  /** What the loop of `start_campaign` relies on for the rest of its page. */
  ghost predicate Ready(s: Store, c: Id, page: seq<Id>, n: nat) {
    && c in s.campaigns && s.campaigns[c].starts >= 1
    && (forall k :: n <= k < |page| ==>
          page[k] in s.recipients && !s.recipients[page[k]].deleted && s.recipients[page[k]].campaign == c)
    && (StartedOnce(s, c) ==> forall k :: n <= k < |page| ==> NoneFor(s, page[k]))
  }

  lemma ScheduleIfActiveKeepsGood(cfg: Config, s: Store, c: Id, step: Step, page: seq<Id>, n: nat)
    requires n < |page| && Good(cfg, s) && Ready(s, c, page, n)
    requires forall i, j :: 0 <= i < j < |page| ==> page[i] != page[j]
    ensures Good(cfg, ScheduleIfActive(s, c, step, page[n]))
    ensures Ready(ScheduleIfActive(s, c, step, page[n]), c, page, n + 1)
  {
    if s.recipients[page[n]].status == InSequence {
      ScheduleKeepsGood(cfg, s, c, step, page[n]);
    }
  }

  /** What each pass of the loop keeps holds after the loop. */
  lemma {:induction false} ScheduleFirstKeeps(inv: (Store, nat) -> bool, s: Store, c: Id, step: Step,
                                              page: seq<Id>, n: nat)
    requires n <= |page| && inv(s, 0)
    requires forall t: Store, k: nat {:trigger ScheduleIfActive(t, c, step, page[k])} |
      k < |page| && inv(t, k) :: inv(ScheduleIfActive(t, c, step, page[k]), k + 1)
    ensures inv(ScheduleFirst(s, c, step, page, n), n)
  {
    if n == 0 {
    } else {
      ScheduleFirstKeeps(inv, s, c, step, page, n - 1);
      var t := ScheduleFirst(s, c, step, page, n - 1);
      assert inv(ScheduleIfActive(t, c, step, page[n - 1]), n);
    }
  }

  lemma ScheduleFirstKeepsGood(cfg: Config, s: Store, c: Id, step: Step, page: seq<Id>)
    requires Good(cfg, s) && Ready(s, c, page, 0)
    requires forall i, j :: 0 <= i < j < |page| ==> page[i] != page[j]
    ensures Good(cfg, ScheduleFirst(s, c, step, page, |page|))
  {
    var inv := (t: Store, k: nat) => Good(cfg, t) && Ready(t, c, page, k);
    forall t: Store, k: nat | k < |page| && inv(t, k) ensures inv(ScheduleIfActive(t, c, step, page[k]), k + 1) {
      ScheduleIfActiveKeepsGood(cfg, t, c, step, page, k);
    }
    ScheduleFirstKeeps(inv, s, c, step, page, |page|);
  }

  lemma StartKeepsGood(cfg: Config, s: Store, c: Id, page: seq<Id>)
    requires Good(cfg, s) && IsPage(s, c, page)
    ensures Good(cfg, StartCampaign(cfg, s, c, page))
  {
    if MayMove(s, c, Active) {
      StartedKeepsGood(cfg, s, c);
      var next := NextStep(cfg.steps(c), -1);
      if next.Some? {
        ScheduleFirstKeepsGood(cfg, Started(s, c), c, next.value, page);
      }
    }
  }

  lemma CancelKeepsGood(cfg: Config, s: Store, r: Id)
    requires Good(cfg, s)
    ensures var t := s.(messages := CancelWaiting(s.messages, r)); Good(cfg, t) && Quiet(t, r)
  {
  }

  lemma CloseKeepsGood(cfg: Config, s: Store, r: Id, row: Recipient)
    requires Good(cfg, s) && Quiet(s, r) && r in s.recipients
    requires row.campaign == s.recipients[r].campaign && row.current == s.recipients[r].current
    ensures Good(cfg, s.(recipients := s.recipients[r := row]))
  {
  }

  lemma StopKeepsGood(cfg: Config, s: Store, r: Id, status: RecipientStatus)
    requires Good(cfg, s)
    ensures Good(cfg, Stop(s, r, status)) && Good(cfg, Remove(s, r))
  {
    if LiveRecipient(s, r) {
      CancelKeepsGood(cfg, s, r);
      var t := s.(messages := CancelWaiting(s.messages, r));
      CloseKeepsGood(cfg, t, r, s.recipients[r].(status := status));
      CloseKeepsGood(cfg, t, r, s.recipients[r].(deleted := true));
    }
  }

  lemma BounceKeepsGood(cfg: Config, s: Store, i: nat)
    requires Good(cfg, s) && i < |s.messages|
    ensures Good(cfg, Bounce(s, i))
  {
    var m := s.messages[i].(status := Returned);
    EndedIsWithinRetries(s.messages[i], Returned, cfg.maxRetries);
    ReplaceKeepsGood(cfg, s, i, m);
    StopKeepsGood(cfg, WithMessage(s, i, m), m.recipient, Bounced);
  }

  lemma CampaignEditKeepsGood(cfg: Config, s: Store, c: Id, row: Campaign)
    requires Good(cfg, s)
    requires c in s.campaigns ==> row.starts == s.campaigns[c].starts
    ensures Good(cfg, s.(campaigns := s.campaigns[c := row]))
  {
  }

  lemma EnrolKeepsGood(cfg: Config, s: Store, r: Id, row: Recipient)
    requires Good(cfg, s) && r !in s.recipients
    ensures Good(cfg, s.(recipients := s.recipients[r := row]))
  {
  }

  lemma EventKeepsGood(cfg: Config, s: Store, e: Event)
    requires Good(cfg, s) && Legal(s, e)
    ensures Good(cfg, Apply(cfg, s, e))
  {
    match e
    case CreateCampaign(c, x, y, b) => CampaignEditKeepsGood(cfg, s, c, Campaign(Draft, x, y, b, false, 0));
    case EditCampaign(c, x, y, b) =>
      if c in s.campaigns {
        CampaignEditKeepsGood(cfg, s, c, s.campaigns[c].(stopOnReply := x, stopOnBounce := y, mailbox := b));
      }
    case DeleteCampaign(c) =>
      if c in s.campaigns {
        CampaignEditKeepsGood(cfg, s, c, s.campaigns[c].(deleted := true));
      }
    case Start(c, page) => StartKeepsGood(cfg, s, c, page);
    case MoveCampaign(c, to) =>
      if c in s.campaigns {
        CampaignEditKeepsGood(cfg, s, c, s.campaigns[c].(status := to));
      }
    case AddRecipient(c, r, email) => EnrolKeepsGood(cfg, s, r, Recipient(c, email, InSequence, 0, false));
    case RemoveRecipient(r) => StopKeepsGood(cfg, s, r, Replied);
    case SendQueue(batch, day) => SendAllKeepsGood(cfg, s, batch, day);
    case RecordReply(i) => if i < |s.messages| { StopKeepsGood(cfg, s, s.messages[i].recipient, Replied); }
    case RecordBounce(i) => if i < |s.messages| { BounceKeepsGood(cfg, s, i); }
    case ProcessUnsubscribe(i) =>
      if i < |s.messages| {
        var t := s.(unsubscribed := s.unsubscribed + {s.messages[i].toEmail});
        RowsDoNotMatter(cfg, s, t.mailboxes, t.unsubscribed, t.sentEvents);
        StopKeepsGood(cfg, t, s.messages[i].recipient, Unsubscribed);
      }
    case PutMailbox(b, row) => RowsDoNotMatter(cfg, s, s.mailboxes[b := row], s.unsubscribed, s.sentEvents);
  }

  lemma {:induction false} RunKeepsGood(cfg: Config, s: Store, events: seq<Event>)
    requires Good(cfg, s) && LegalRun(cfg, s, events)
    ensures Good(cfg, Run(cfg, s, events))
    decreases |events|
  {
    if events == [] {
    } else {
      EventKeepsGood(cfg, s, events[0]);
      RunKeepsGood(cfg, Apply(cfg, s, events[0]), events[1..]);
    }
  }

  // ---- What holds in every run ----

  lemma EmptyIsGood(cfg: Config)
    ensures Good(cfg, EMPTY)
  {
  }

  /** Once a recipient is stopped or removed, in whatever way the state was
      reached, no later run creates a message for it or hands one of its
      messages to a provider, and it stays stopped or removed. */
  lemma StoppedForGood(cfg: Config, before: seq<Event>, after: seq<Event>, r: Id)
    requires LegalRun(cfg, EMPTY, before)
    requires var s := Run(cfg, EMPTY, before); r in s.recipients && Closed(s.recipients[r]) && LegalRun(cfg, s, after)
    ensures var s := Run(cfg, EMPTY, before); Leaves(s, Run(cfg, s, after), r)
  {
    EmptyIsGood(cfg);
    RunKeepsGood(cfg, EMPTY, before);
    QuietForGood(cfg, Run(cfg, EMPTY, before), after, r);
  }

  /** In a campaign started once the messages of one recipient have strictly
      increasing step orders, so no step is sent twice, and at most one waits. */
  lemma StepsGoUp(cfg: Config, events: seq<Event>, i: nat, j: nat)
    requires LegalRun(cfg, EMPTY, events)
    requires var s := Run(cfg, EMPTY, events);
      i < j < |s.messages| && s.messages[i].recipient == s.messages[j].recipient
      && StartedOnce(s, s.messages[i].campaign)
    ensures var s := Run(cfg, EMPTY, events);
      s.messages[i].order < s.messages[j].order && !IsWaiting(s.messages[i])
  {
    EmptyIsGood(cfg);
    RunKeepsGood(cfg, EMPTY, events);
  }

  /** No message is handed over more than max(1, `max_retries`) times, and its
      backoff adds up to at most 5 * (2^`max_retries` - 2) minutes. */
  lemma AttemptsAreBounded(cfg: Config, events: seq<Event>, i: nat)
    requires LegalRun(cfg, EMPTY, events) && i < |Run(cfg, EMPTY, events).messages|
    ensures var m := Run(cfg, EMPTY, events).messages[i];
      && m.attempts <= (if cfg.maxRetries >= 1 then cfg.maxRetries else 1)
      && m.waited <= (if cfg.maxRetries >= 1 then 5 * (Pow2(cfg.maxRetries) - 2) else 0)
  {
    EmptyIsGood(cfg);
    RunKeepsGood(cfg, EMPTY, events);
  }

  // ---- The global unsubscribe list ----

  /** Message `i` of `t` was not handed to a provider since `s`. */
  predicate NotHandedSince(s: Store, t: Store, i: nat)
    requires i < |t.messages|
  {
    t.messages[i].attempts == if i < |s.messages| then s.messages[i].attempts else 0
  }

  /** From `s` to `t` no message to `email` was handed to a provider. */
  ghost predicate Spares(s: Store, t: Store, email: string) {
    && email in t.unsubscribed
    && |s.messages| <= |t.messages|
    && forall i :: 0 <= i < |t.messages| ==>
         && (i < |s.messages| ==> t.messages[i].toEmail == s.messages[i].toEmail)
         && (t.messages[i].toEmail == email ==> NotHandedSince(s, t, i))
  }

  lemma AttemptSpares(cfg: Config, s: Store, i: nat, outcome: Outcome, email: string)
    requires email in s.unsubscribed && i < |s.messages| && s.messages[i].mailbox in s.mailboxes
    requires s.messages[i].toEmail != email
    ensures Spares(s, Attempt(cfg, s, i, outcome), email)
  {
  }

  lemma SendOneSpares(cfg: Config, s: Store, d: Delivery, day: int, email: string)
    requires email in s.unsubscribed
    ensures Spares(s, SendOne(cfg, s, d, day), email)
  {
    var i := d.message;
    if Attempts(s, i, day) {
      AttemptSpares(cfg, CheckDay(s, s.messages[i].mailbox, day), i, d.outcome, email);
    }
  }

  lemma SendAllSpares(cfg: Config, s: Store, batch: seq<Delivery>, day: int, email: string)
    requires email in s.unsubscribed && IsBatch(s, batch)
    ensures Spares(s, SendAll(cfg, s, batch, day), email)
  {
    var f, inv := Sender(cfg, day), (t: Store) => Spares(s, t, email);
    SenderKeepsOthers(cfg, day);
    forall t: Store, d: Delivery | inv(t) && d.message < |t.messages| && IsWaiting(t.messages[d.message])
      ensures inv(f(t, d))
    {
      SendOneSpares(cfg, t, d, day, email);
    }
    LoopKeeps(f, inv, s, batch, |batch|);
  }

  lemma {:induction false} ScheduleFirstSpares(s: Store, c: Id, step: Step, page: seq<Id>, n: nat, email: string)
    requires email in s.unsubscribed && n <= |page|
    ensures Spares(s, ScheduleFirst(s, c, step, page, n), email)
  {
    if n == 0 {
    } else {
      ScheduleFirstSpares(s, c, step, page, n - 1, email);
    }
  }

  lemma StartSpares(cfg: Config, s: Store, c: Id, page: seq<Id>, email: string)
    requires email in s.unsubscribed
    ensures Spares(s, StartCampaign(cfg, s, c, page), email)
  {
    var next := NextStep(cfg.steps(c), -1);
    if MayMove(s, c, Active) && next.Some? {
      ScheduleFirstSpares(Started(s, c), c, next.value, page, |page|, email);
    }
  }

  lemma StopSpares(s: Store, r: Id, status: RecipientStatus, email: string)
    requires email in s.unsubscribed
    ensures Spares(s, Stop(s, r, status), email) && Spares(s, Remove(s, r), email)
  {
  }

  lemma TrackingSpares(s: Store, i: nat, email: string)
    requires email in s.unsubscribed && i < |s.messages|
    ensures Spares(s, Reply(s, i), email) && Spares(s, Bounce(s, i), email) && Spares(s, Unsubscribe(s, i), email)
  {
    var m := s.messages[i];
    StopSpares(s, m.recipient, Replied, email);
    StopSpares(WithMessage(s, i, m.(status := Returned)), m.recipient, Bounced, email);
    StopSpares(s.(unsubscribed := s.unsubscribed + {m.toEmail}), m.recipient, Unsubscribed, email);
  }

  lemma EventSpares(cfg: Config, s: Store, e: Event, email: string)
    requires email in s.unsubscribed && Legal(s, e)
    ensures Spares(s, Apply(cfg, s, e), email)
  {
    match e
    case Start(c, page) => StartSpares(cfg, s, c, page, email);
    case SendQueue(batch, day) => SendAllSpares(cfg, s, batch, day, email);
    case RemoveRecipient(r) => StopSpares(s, r, Replied, email);
    case RecordReply(i) => if i < |s.messages| { TrackingSpares(s, i, email); }
    case RecordBounce(i) => if i < |s.messages| { TrackingSpares(s, i, email); }
    case ProcessUnsubscribe(i) => if i < |s.messages| { TrackingSpares(s, i, email); }
    case _ =>
  }

  /** Once an address is on the list, no run hands a message to it over, in
      any campaign. */
  lemma {:induction false} UnsubscribedForGood(cfg: Config, s: Store, events: seq<Event>, email: string)
    requires email in s.unsubscribed && LegalRun(cfg, s, events)
    ensures Spares(s, Run(cfg, s, events), email)
    decreases |events|
  {
    if events == [] {
    } else {
      EventSpares(cfg, s, events[0], email);
      UnsubscribedForGood(cfg, Apply(cfg, s, events[0]), events[1..], email);
    }
  }
}
