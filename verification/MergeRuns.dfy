/**
  Runs of triage, approval and rejection over the profile store, and the graph
  that `merged_into` draws.  A merge may also abort, for instance because a
  constraint of a table is violated; its transaction then changes nothing.
 */
module MergeRuns {
  import opened Basics
  import opened ProfileStore
  import Resolver
  import Candidates

  /** How the triage of a candidate goes: an exception may keep it from being
      recorded; a merge, if one is started, commits or aborts, and after an
      abort the downgrade of the candidate may raise as well. */
  datatype Outcome = NotRecorded | Commits | Aborts | NotDowngraded

  /** The events that touch merge candidates.  `committed` says whether the
      merge, if one is started, commits or aborts. */
  datatype Event =
    | Triage(candidate: Candidates.Candidate, freshId: string, outcome: Outcome)
    | Approve(id: string, committed: bool)
    | Reject(id: string)

  predicate IsPairRow(row: CandidateRow, s: Id, t: Id) {
    row.source == s && row.target == t
  }

  predicate HasPair(db: Db, s: Id, t: Id) {
    exists k :: k in db.candidates && IsPairRow(db.candidates[k], s, t)
  }

  predicate Settled(status: string) {
    status == "merged" || status == "rejected"
  }

  function Max(a: real, b: real): real {
    if a < b then b else a
  }

  function SetStatus(db: Db, s: Id, t: Id, status: string): Db {
    db.(candidates := map k | k in db.candidates ::
      if IsPairRow(db.candidates[k], s, t) then db.candidates[k].(status := status) else db.candidates[k])
  }

  /** Recording the candidate, before any merge is started.  At most one row
      holds the pair: the table has a UNIQUE constraint on it. */
  function Recorded(db: Db, c: Candidates.Candidate, freshId: string, status: string): Db {
    if HasPair(db, c.source, c.target) then
      db.(candidates := map k | k in db.candidates ::
        var row := db.candidates[k];
        if IsPairRow(row, c.source, c.target) then row.(score := Max(row.score, c.score), status := status) else row)
    else
      db.(candidates := db.candidates[freshId := CandidateRow(c.source, c.target, c.score, status, None)])
  }

  predicate PairSettled(db: Db, s: Id, t: Id) {
    exists k :: k in db.candidates && IsPairRow(db.candidates[k], s, t) && Settled(db.candidates[k].status)
  }

  function Step(db: Db, e: Event): Db {
    match e
    case Triage(c, freshId, outcome) =>
      if outcome.NotRecorded? || PairSettled(db, c.source, c.target) then db
      else if c.score >= Resolver.AUTO_MERGE_THRESHOLD then
        var recorded := Recorded(db, c, freshId, "approved");
        if outcome.Commits? then Merged(recorded, c.source, c.target)
        else if outcome.Aborts? then SetStatus(recorded, c.source, c.target, "pending")
        else recorded
      else Recorded(db, c, freshId, "pending")
    case Approve(id, committed) =>
      if id !in db.candidates || Settled(db.candidates[id].status) then db
      else
        var row := db.candidates[id];
        var approved := db.(candidates := db.candidates[id := row.(status := "approved")]);
        if committed then Merged(approved, row.source, row.target) else approved
    case Reject(id) =>
      if id !in db.candidates || db.candidates[id].status == "merged" then db
      else db.(candidates := db.candidates[id := db.candidates[id].(status := "rejected")])
  }

  function Run(db: Db, events: seq<Event>): Db
    decreases |events|
  {
    if events == [] then db else Run(Step(db, events[0]), events[1..])
  }

  /** What a triage event may carry: a pair made by `_canonical_pair` of two
      loaded profiles. */
  predicate IsCanonical(db: Db, e: Event) {
    e.Triage? ==>
      e.candidate.source in db.profiles && e.candidate.target in db.profiles
      && Less(e.candidate.target, e.candidate.source)
  }

  // ---- The merge graph ----

  /** Candidates hold canonical pairs of known profiles. */
  ghost predicate PairsCanonical(candidates: map<string, CandidateRow>, known: set<Id>) {
    forall k :: k in candidates ==>
      candidates[k].source in known && candidates[k].target in known && Less(candidates[k].target, candidates[k].source)
  }

  /** A profile is deleted exactly when it is merged, and then into a known
      profile with a smaller id. */
  ghost predicate MergesGoDown(profiles: map<Id, ProfileRow>) {
    && (forall id :: id in profiles ==> (profiles[id].deleted <==> profiles[id].mergedInto.Some?))
    && (forall id :: id in profiles && profiles[id].mergedInto.Some? ==>
          profiles[id].mergedInto.value in profiles && Less(profiles[id].mergedInto.value, id))
  }

  ghost predicate WellFormed(db: Db) {
    PairsCanonical(db.candidates, db.profiles.Keys) && MergesGoDown(db.profiles)
  }

  lemma MergeGoesDown(profiles: map<Id, ProfileRow>, s: Id, t: Id)
    requires MergesGoDown(profiles) && s in profiles && t in profiles && Less(t, s)
    ensures MergesGoDown(MergedProfiles(profiles, s, t)) && MergedProfiles(profiles, s, t).Keys == profiles.Keys
  {
    LessIsAsymmetric(t, s);
  }

  lemma MergeKeepsWellFormed(db: Db, s: Id, t: Id)
    requires WellFormed(db) && s in db.profiles && t in db.profiles && Less(t, s)
    ensures WellFormed(Merged(db, s, t)) && Merged(db, s, t).profiles.Keys == db.profiles.Keys
  {
    MergeGoesDown(db.profiles, s, t);
  }

  lemma RecordingKeepsWellFormed(db: Db, c: Candidates.Candidate, freshId: string, status: string)
    requires WellFormed(db) && c.source in db.profiles && c.target in db.profiles && Less(c.target, c.source)
    ensures WellFormed(Recorded(db, c, freshId, status))
    ensures Recorded(db, c, freshId, status).profiles == db.profiles
  {
  }

  lemma StatusKeepsWellFormed(db: Db, id: string, s: Id, t: Id, status: string)
    requires WellFormed(db)
    ensures WellFormed(SetStatus(db, s, t, status))
    ensures id in db.candidates ==>
      WellFormed(db.(candidates := db.candidates[id := db.candidates[id].(status := status)]))
  {
  }

  lemma StepKeepsWellFormed(db: Db, e: Event)
    requires WellFormed(db) && IsCanonical(db, e)
    ensures WellFormed(Step(db, e))
    ensures Step(db, e).profiles.Keys == db.profiles.Keys
  {
    match e
    case Triage(c, freshId, outcome) =>
      if !PairSettled(db, c.source, c.target) {
        var status := if c.score >= Resolver.AUTO_MERGE_THRESHOLD then "approved" else "pending";
        RecordingKeepsWellFormed(db, c, freshId, status);
        var recorded := Recorded(db, c, freshId, status);
        MergeKeepsWellFormed(recorded, c.source, c.target);
        StatusKeepsWellFormed(recorded, "", c.source, c.target, "pending");
      }
    case Approve(id, committed) =>
      if id in db.candidates && !Settled(db.candidates[id].status) {
        var row := db.candidates[id];
        StatusKeepsWellFormed(db, id, "", "", "approved");
        var approved := db.(candidates := db.candidates[id := row.(status := "approved")]);
        MergeKeepsWellFormed(approved, row.source, row.target);
      }
    case Reject(id) =>
      StatusKeepsWellFormed(db, id, "", "", "rejected");
  }

  lemma {:induction false} RunKeepsWellFormed(db: Db, events: seq<Event>)
    requires WellFormed(db) && forall e :: e in events ==> IsCanonical(db, e)
    ensures WellFormed(Run(db, events))
    ensures Run(db, events).profiles.Keys == db.profiles.Keys
    decreases |events|
  {
    if events == [] {
    } else {
      StepKeepsWellFormed(db, events[0]);
      assert forall e :: e in events[1..] ==> e in events;
      RunKeepsWellFormed(Step(db, events[0]), events[1..]);
    }
  }

  function Below(db: Db, id: Id): set<Id> {
    set k | k in db.profiles && Less(k, id)
  }

  /** Where following `merged_into` from `id` gets after `n` hops; `None` when
      a live profile is reached before that. */
  function Hops(db: Db, id: Id, n: nat): Option<Id>
    decreases n
  {
    if n == 0 then Some(id)
    else if id in db.profiles && db.profiles[id].mergedInto.Some? then Hops(db, db.profiles[id].mergedInto.value, n - 1)
    else None
  }

  lemma BelowShrinks(db: Db, a: Id, b: Id)
    requires a in db.profiles && Less(a, b)
    ensures |Below(db, a)| < |Below(db, b)|
  {
    forall k | k in Below(db, a) ensures k in Below(db, b) && k != a {
      LessIsTransitive(k, a, b);
      LessIsAsymmetric(k, a);
    }
    assert a in Below(db, b);
    StrictSubset(Below(db, a), Below(db, b), a);
  }

  lemma StrictSubset<T>(a: set<T>, b: set<T>, x: T)
    requires a <= b && x in b && x !in a
    ensures |a| < |b|
  {
    assert b == a + (b - a);
    assert x in b - a;
  }

  /** No profile is merged, directly or through others, into itself. */
  lemma {:induction false} NoCycle(db: Db, id: Id, n: nat)
    requires WellFormed(db) && id in db.profiles && n > 0 && Hops(db, id, n).Some?
    ensures Hops(db, id, n).value in db.profiles && Less(Hops(db, id, n).value, id)
    ensures Hops(db, id, n).value != id
    decreases n
  {
    var next := db.profiles[id].mergedInto.value;
    if n > 1 {
      NoCycle(db, next, n - 1);
      LessIsTransitive(Hops(db, id, n).value, next, id);
    }
    LessIsAsymmetric(Hops(db, id, n).value, id);
  }

  /** Following the chain ends at a live profile, within as many hops as there
      are profiles with a smaller id. */
  lemma {:induction false} ChainEnds(db: Db, id: Id) returns (n: nat, root: Id)
    requires WellFormed(db) && id in db.profiles
    ensures n <= |Below(db, id)| && Hops(db, id, n) == Some(root)
    ensures root in db.profiles && !db.profiles[root].deleted
    decreases |Below(db, id)|
  {
    if db.profiles[id].mergedInto.None? {
      n, root := 0, id;
    } else {
      var next := db.profiles[id].mergedInto.value;
      BelowShrinks(db, next, id);
      var m;
      m, root := ChainEnds(db, next);
      n := m + 1;
    }
  }

  /** Only one live profile can be reached from `id`. */
  lemma {:induction false} OneLiveEnd(db: Db, id: Id, m: nat, n: nat)
    requires WellFormed(db) && id in db.profiles
    requires Hops(db, id, m).Some? && Hops(db, id, m).value in db.profiles
             && !db.profiles[Hops(db, id, m).value].deleted
    requires Hops(db, id, n).Some? && Hops(db, id, n).value in db.profiles
             && !db.profiles[Hops(db, id, n).value].deleted
    ensures m == n
    decreases m
  {
    if m > 0 && n > 0 {
      OneLiveEnd(db, db.profiles[id].mergedInto.value, m - 1, n - 1);
    }
  }

  /** A database in which nothing was merged and nothing deleted yet. */
  ghost predicate Fresh(db: Db) {
    db.candidates == map[]
    && forall id :: id in db.profiles ==> !db.profiles[id].deleted && db.profiles[id].mergedInto.None?
  }

  ghost predicate IsLiveEnd(db: Db, id: Id, root: Id) {
    root in db.profiles && !db.profiles[root].deleted
    && exists n: nat :: n <= |Below(db, id)| && Hops(db, id, n) == Some(root)
  }

  /** After any run, in any order and with repeats, following `merged_into`
      from any profile ends at exactly one live profile. */
  lemma EveryProfileHasOneLiveEnd(db: Db, events: seq<Event>, id: Id)
    requires Fresh(db) && id in db.profiles && forall e :: e in events ==> IsCanonical(db, e)
    ensures var after := Run(db, events);
      && id in after.profiles
      && (after.profiles[id].deleted <==> after.profiles[id].mergedInto.Some?)
      && (exists root :: IsLiveEnd(after, id, root))
      && (forall a, b :: IsLiveEnd(after, id, a) && IsLiveEnd(after, id, b) ==> a == b)
  {
    RunKeepsWellFormed(db, events);
    var after := Run(db, events);
    var n, root := ChainEnds(after, id);
    assert IsLiveEnd(after, id, root);
    forall a, b | IsLiveEnd(after, id, a) && IsLiveEnd(after, id, b) ensures a == b {
      var m: nat :| m <= |Below(after, id)| && Hops(after, id, m) == Some(a);
      var k: nat :| k <= |Below(after, id)| && Hops(after, id, k) == Some(b);
      OneLiveEnd(after, id, m, k);
    }
  }

  // ---- Decisions are final ----

  /** The UNIQUE constraint on source and target of a candidate. */
  ghost predicate OneRowPerPair(rows: map<string, CandidateRow>) {
    forall j, k | j in rows && k in rows :: IsPairRow(rows[j], rows[k].source, rows[k].target) ==> j == k
  }

  /** New rows get new ids. */
  ghost predicate FreshIds(db: Db, events: seq<Event>)
    decreases |events|
  {
    events == []
    || ((events[0].Triage? ==> events[0].freshId !in db.candidates) && FreshIds(Step(db, events[0]), events[1..]))
  }

  type Rows = map<string, CandidateRow>

  /** The rows keep their pairs, the settled ones their status, and no pair
      gets a second row. */
  ghost predicate DecisionsStand(rows: Rows, after: Rows) {
    && OneRowPerPair(after)
    && forall k :: k in rows ==>
         k in after && IsPairRow(after[k], rows[k].source, rows[k].target)
         && (Settled(rows[k].status) ==> after[k].status == rows[k].status)
  }

  lemma StandsChain(rows: Rows, mid: Rows, after: Rows)
    requires DecisionsStand(rows, mid) && DecisionsStand(mid, after)
    ensures DecisionsStand(rows, after)
  {
  }

  lemma UpdateStands(db: Db, c: Candidates.Candidate, freshId: string, status: string)
    requires OneRowPerPair(db.candidates) && !PairSettled(db, c.source, c.target) && !Settled(status)
    requires HasPair(db, c.source, c.target)
    ensures DecisionsStand(db.candidates, Recorded(db, c, freshId, status).candidates)
    ensures !PairSettled(Recorded(db, c, freshId, status), c.source, c.target)
  {
  }

  lemma InsertStands(db: Db, c: Candidates.Candidate, freshId: string, status: string)
    requires OneRowPerPair(db.candidates) && freshId !in db.candidates && !Settled(status)
    requires !HasPair(db, c.source, c.target)
    ensures DecisionsStand(db.candidates, Recorded(db, c, freshId, status).candidates)
    ensures !PairSettled(Recorded(db, c, freshId, status), c.source, c.target)
  {
  }

  lemma MergeStands(db: Db, s: Id, t: Id)
    requires OneRowPerPair(db.candidates) && !PairSettled(db, s, t)
    ensures DecisionsStand(db.candidates, MergedCandidates(db.candidates, s, t))
  {
  }

  lemma StatusStands(db: Db, s: Id, t: Id, status: string)
    requires OneRowPerPair(db.candidates) && !PairSettled(db, s, t)
    ensures DecisionsStand(db.candidates, SetStatus(db, s, t, status).candidates)
  {
  }

  lemma TriageStands(db: Db, e: Event)
    requires OneRowPerPair(db.candidates) && e.Triage? && e.freshId !in db.candidates
    ensures DecisionsStand(db.candidates, Step(db, e).candidates)
  {
    var c := e.candidate;
    if !PairSettled(db, c.source, c.target) && !e.outcome.NotRecorded? {
      var status := if c.score >= Resolver.AUTO_MERGE_THRESHOLD then "approved" else "pending";
      if HasPair(db, c.source, c.target) {
        UpdateStands(db, c, e.freshId, status);
      } else {
        InsertStands(db, c, e.freshId, status);
      }
      var mid := Recorded(db, c, e.freshId, status);
      MergeStands(mid, c.source, c.target);
      StatusStands(mid, c.source, c.target, "pending");
      StandsChain(db.candidates, mid.candidates, Step(db, e).candidates);
    }
  }

  lemma ApprovalStands(db: Db, e: Event)
    requires OneRowPerPair(db.candidates) && e.Approve?
    ensures DecisionsStand(db.candidates, Step(db, e).candidates)
  {
    if e.id in db.candidates && !Settled(db.candidates[e.id].status) {
      var row := db.candidates[e.id];
      var approved := db.(candidates := db.candidates[e.id := row.(status := "approved")]);
      MergeStands(approved, row.source, row.target);
      assert Step(db, e).candidates ==
        if e.committed then MergedCandidates(approved.candidates, row.source, row.target) else approved.candidates;
      StandsChain(db.candidates, approved.candidates, Step(db, e).candidates);
    }
  }

  lemma StepStands(db: Db, e: Event)
    requires OneRowPerPair(db.candidates) && (e.Triage? ==> e.freshId !in db.candidates)
    ensures DecisionsStand(db.candidates, Step(db, e).candidates)
  {
    match e
    case Triage(_, _, _) => TriageStands(db, e);
    case Approve(_, _) => ApprovalStands(db, e);
    case Reject(_) =>
  }

  /** A candidate once merged or rejected stays so in every run, however often
      the pair is found again, and a pair never gets a second row. */
  lemma {:induction false} DecisionsAreFinal(db: Db, events: seq<Event>)
    requires OneRowPerPair(db.candidates) && FreshIds(db, events)
    ensures DecisionsStand(db.candidates, Run(db, events).candidates)
    decreases |events|
  {
    if events == [] {
    } else {
      var next := Step(db, events[0]);
      StepStands(db, events[0]);
      DecisionsAreFinal(next, events[1..]);
      StandsChain(db.candidates, next.candidates, Run(next, events[1..]).candidates);
    }
  }

  // ---- What is recorded ----

  /** What becomes of the status of a candidate that is triaged. */
  function TriagedAs(score: real, outcome: Outcome): string {
    if score < 0.7 || outcome.Aborts? then "pending" else if outcome.Commits? then "merged" else "approved"
  }

  /** `score` is the better of the old score, if there was a row, and the new. */
  predicate IsBetterScore(rows: Rows, k: string, found: real, score: real) {
    if k in rows then score >= rows[k].score && score >= found && (score == rows[k].score || score == found)
    else score == found
  }

  lemma RecordedRow(db: Db, c: Candidates.Candidate, freshId: string, status: string, k: string)
    requires freshId !in db.candidates
    ensures var after := Recorded(db, c, freshId, status).candidates;
      && (k in after <==> k in db.candidates || (k == freshId && !HasPair(db, c.source, c.target)))
      && (k in after && IsPairRow(after[k], c.source, c.target) ==>
            IsBetterScore(db.candidates, k, c.score, after[k].score) && after[k].status == status)
      && (k in db.candidates && !IsPairRow(db.candidates[k], c.source, c.target) ==> after[k] == db.candidates[k])
      && (k in db.candidates && k in after ==>
            IsPairRow(after[k], db.candidates[k].source, db.candidates[k].target))
  {
  }

  lemma FinishedRow(db: Db, c: Candidates.Candidate, k: string)
    requires k in db.candidates
    ensures var row := db.candidates[k];
      var merged, lowered := Merged(db, c.source, c.target), SetStatus(db, c.source, c.target, "pending");
      && merged.candidates.Keys == lowered.candidates.Keys == db.candidates.Keys
      && merged.candidates[k] == (if IsPairRow(row, c.source, c.target)
                                  then row.(status := "merged", resolved := Some(c.target)) else row)
      && lowered.candidates[k] == (if IsPairRow(row, c.source, c.target) then row.(status := "pending") else row)
  {
  }

  /** After a triage the pair has a row with the better score and the status
      that score and outcome demand, and no other row is touched. */
  lemma TriageRecords(db: Db, c: Candidates.Candidate, freshId: string, outcome: Outcome, k: string)
    requires freshId !in db.candidates && !PairSettled(db, c.source, c.target) && !outcome.NotRecorded?
    ensures var after := Step(db, Triage(c, freshId, outcome)).candidates;
      && (k in after <==> k in db.candidates || (k == freshId && !HasPair(db, c.source, c.target)))
      && (k in after && IsPairRow(after[k], c.source, c.target) ==>
            && IsBetterScore(db.candidates, k, c.score, after[k].score)
            && after[k].status == TriagedAs(c.score, outcome)
            && (after[k].status == "merged" ==> after[k].resolved == Some(c.target)))
      && (k in db.candidates && !IsPairRow(db.candidates[k], c.source, c.target) ==> after[k] == db.candidates[k])
      && (k in db.candidates && k in after ==>
            IsPairRow(after[k], db.candidates[k].source, db.candidates[k].target))
  {
    var status := if c.score >= Resolver.AUTO_MERGE_THRESHOLD then "approved" else "pending";
    var recorded := Recorded(db, c, freshId, status);
    RecordedRow(db, c, freshId, status, k);
    var after := Step(db, Triage(c, freshId, outcome)).candidates;
    assert after ==
      if c.score < Resolver.AUTO_MERGE_THRESHOLD || outcome.NotDowngraded? then recorded.candidates
      else if outcome.Commits? then Merged(recorded, c.source, c.target).candidates
      else SetStatus(recorded, c.source, c.target, "pending").candidates;
    if k in recorded.candidates {
      FinishedRow(recorded, c, k);
    } else {
      assert after.Keys == recorded.candidates.Keys;
    }
  }

  /** A settled candidate, or one that could not be recorded, changes nothing. */
  lemma NothingIsRecorded(db: Db, e: Event)
    requires match e
      case Triage(c, _, outcome) => outcome.NotRecorded? || PairSettled(db, c.source, c.target)
      case Approve(id, _) => id in db.candidates ==> Settled(db.candidates[id].status)
      case Reject(id) => id in db.candidates ==> db.candidates[id].status == "merged"
    ensures Step(db, e) == db
  {
  }

  /** An approval merges the pair of the candidate, or leaves it approved when
      the merge aborts; a rejection marks it rejected.  Other rows stay. */
  lemma DecisionIsRecorded(db: Db, e: Event, k: string)
    requires OneRowPerPair(db.candidates) && k in db.candidates && !e.Triage? && e.id in db.candidates
    requires if e.Approve? then !Settled(db.candidates[e.id].status) else db.candidates[e.id].status != "merged"
    ensures k in Step(db, e).candidates
    ensures var row, after := db.candidates[k], Step(db, e).candidates[k];
      if k != e.id then after == row
      else if e.Reject? then after == row.(status := "rejected")
      else if e.committed then after == row.(status := "merged", resolved := Some(row.target))
      else after == row.(status := "approved")
  {
  }

  // ---- Conservation over runs, and where moved rows end up ----

  /** The merge that an event carries out, if any. */
  function MergeOf(db: Db, e: Event): Option<(Id, Id)> {
    match e
    case Triage(c, _, outcome) =>
      if !PairSettled(db, c.source, c.target) && c.score >= Resolver.AUTO_MERGE_THRESHOLD && outcome.Commits?
      then Some((c.source, c.target)) else None
    case Approve(id, committed) =>
      if id in db.candidates && !Settled(db.candidates[id].status) && committed
      then Some((db.candidates[id].source, db.candidates[id].target)) else None
    case Reject(_) => None
  }

  /** Apart from the candidates an event changes nothing but by its merge. */
  lemma StepTables(db: Db, e: Event)
    ensures Step(db, e).(candidates := map[]) ==
      match MergeOf(db, e)
      case None => db.(candidates := map[])
      case Some(pair) => Merged(db, pair.0, pair.1).(candidates := map[])
  {
  }

  lemma StepKeepsReferences(db: Db, e: Event)
    ensures Step(db, e).recipients.Keys == db.recipients.Keys
    ensures Step(db, e).audits.Keys == db.audits.Keys
  {
    StepTables(db, e);
    assert Step(db, e).recipients == Step(db, e).(candidates := map[]).recipients;
  }

  /** No run loses a recipient or an audit row. */
  lemma {:induction false} RunKeepsReferences(db: Db, events: seq<Event>)
    ensures Run(db, events).recipients.Keys == db.recipients.Keys
    ensures Run(db, events).audits.Keys == db.audits.Keys
    decreases |events|
  {
    if events == [] {
    } else {
      StepKeepsReferences(db, events[0]);
      RunKeepsReferences(Step(db, events[0]), events[1..]);
    }
  }

  /** The profile owns a row in some table. */
  ghost predicate OwnsAny(db: Db, id: Id) {
    Owns(db.recipients, id) || Owns(db.audits, id) || exists i :: 0 <= i < |db.satellites| && Owns(db.satellites[i], id)
  }

  /** Every row belongs to a live profile, or to none. */
  ghost predicate OwnersLive(db: Db) {
    forall id :: OwnsAny(db, id) ==> id in db.profiles && !db.profiles[id].deleted
  }

  lemma RepointedOwners(table: Table, s: Id, t: Id, id: Id)
    requires s != t
    ensures Owns(Repoint(table, s, t), id) <==> id != s && (Owns(table, id) || (id == t && Owns(table, s)))
  {
    var after := Repoint(table, s, t);
    if Owns(table, id) && id != s {
      var k :| k in table && table[k].owner == Some(id);
      assert k in after && after[k].owner == Some(id);
    } else if Owns(table, s) && id == t {
      var k :| k in table && table[k].owner == Some(s);
      assert k in after && after[k].owner == Some(t);
    }
  }

  lemma SatelliteOwners(table: Table, s: Id, t: Id, id: Id)
    requires s != t
    ensures Owns(MergedSatellite(table, s, t), id) <==> id != s && (Owns(table, id) || (id == t && Owns(table, s)))
  {
    RepointedOwners(table, s, t, id);
    if Owns(table, t) && id != s && Owns(table, id) {
      var k :| k in table && table[k].owner == Some(id);
      assert k in Without(table, s) && Without(table, s)[k].owner == Some(id);
    }
  }

  /** After a merge a profile owns rows exactly when it did before, except
      that those of the source are with the target. */
  lemma MergedOwners(db: Db, s: Id, t: Id, id: Id)
    requires s != t
    ensures OwnsAny(Merged(db, s, t), id) <==> id != s && (OwnsAny(db, id) || (id == t && OwnsAny(db, s)))
  {
    RepointedOwners(db.recipients, s, t, id);
    RepointedOwners(db.audits, s, t, id);
    forall i | 0 <= i < |db.satellites|
      ensures Owns(Merged(db, s, t).satellites[i], id)
              <==> id != s && (Owns(db.satellites[i], id) || (id == t && Owns(db.satellites[i], s)))
    {
      SatelliteOwners(db.satellites[i], s, t, id);
    }
  }

  lemma MergeKeepsOwnersLive(db: Db, s: Id, t: Id)
    requires s != t && s in db.profiles && t in db.profiles && OwnersLive(db)
    ensures OwnersLive(Merged(db, s, t)) <==> !db.profiles[t].deleted || !OwnsAny(db, s)
  {
    var after := Merged(db, s, t);
    forall id ensures OwnsAny(after, id) <==> id != s && (OwnsAny(db, id) || (id == t && OwnsAny(db, s))) {
      MergedOwners(db, s, t, id);
    }
    assert after.profiles[t].deleted == db.profiles[t].deleted;
    assert forall id :: id in db.profiles && id != s ==> after.profiles[id].deleted == db.profiles[id].deleted;
    if db.profiles[t].deleted && OwnsAny(db, s) {
      assert OwnsAny(after, t);
    }
  }

  lemma SameOwners(db: Db, other: Db)
    requires db.(candidates := map[]) == other.(candidates := map[])
    ensures OwnersLive(db) == OwnersLive(other) && forall id :: OwnsAny(db, id) == OwnsAny(other, id)
  {
    assert db.recipients == other.recipients && db.audits == other.audits;
    assert db.satellites == other.satellites && db.profiles == other.profiles;
    assert forall id :: OwnsAny(db, id) == OwnsAny(other, id);
  }

  /** With all rows at live profiles, an event keeps them there exactly when it
      merges nothing, or its target is live, or its source owns no row: the
      program does not look for the end of the chain. */
  lemma OwnersStayLiveExactlyWhen(db: Db, e: Event)
    requires WellFormed(db) && IsCanonical(db, e) && OwnersLive(db)
    ensures OwnersLive(Step(db, e)) <==>
      match MergeOf(db, e)
      case None => true
      case Some(pair) => !db.profiles[pair.1].deleted || !OwnsAny(db, pair.0)
  {
    StepTables(db, e);
    match MergeOf(db, e)
    case None => SameOwners(Step(db, e), db);
    case Some(pair) =>
      LessIsAsymmetric(pair.1, pair.0);
      MergeKeepsOwnersLive(db, pair.0, pair.1);
      SameOwners(Step(db, e), Merged(db, pair.0, pair.1));
  }

  // ---- Under the shipped schema ----

  /** The position of `cohesive_individual_profile` among the satellites. */
  const COHESIVE := 2

  predicate IsLive(db: Db, id: Id) {
    id in db.profiles && !db.profiles[id].deleted
  }

  /** That table has no `updated_at`, so the UPDATE of a merge whose target has
      no row in it cannot run, and the merge aborts. */
  ghost predicate SchemaAllows(db: Db, e: Event) {
    MergeOf(db, e).Some? ==> |db.satellites| == 3 && Owns(db.satellites[COHESIVE], MergeOf(db, e).value.1)
  }

  /** What changes the rows: the events above; `_sync_one`, which inserts a
      profile, a satellite row of a live profile that has none, or an audit row
      of a live profile; and enrolment, which inserts a recipient with a live
      profile or with none. */
  datatype Change =
    | Identity(e: Event)
    | PutProfile(id: Id)
    | PutSatellite(table: nat, key: string, id: Id)
    | PutAudit(key: string, id: Id)
    | PutRecipient(key: string, owner: Option<Id>)

  ghost predicate MayChange(db: Db, c: Change) {
    match c
    case Identity(e) => IsCanonical(db, e) && SchemaAllows(db, e)
    case PutProfile(id) => id !in db.profiles
    case PutSatellite(i, key, id) =>
      i < |db.satellites| && IsLive(db, id) && key !in db.satellites[i] && !Owns(db.satellites[i], id)
    case PutAudit(key, id) => IsLive(db, id) && key !in db.audits
    case PutRecipient(key, owner) => (owner.Some? ==> IsLive(db, owner.value)) && key !in db.recipients
  }

  function Changed(db: Db, c: Change): Db {
    match c
    case Identity(e) => Step(db, e)
    case PutProfile(id) => db.(profiles := db.profiles[id := EMPTY_PROFILE])
    case PutSatellite(i, key, id) =>
      if i < |db.satellites|
      then db.(satellites := db.satellites[i := db.satellites[i][key := OwnedRow(Some(id), "")]])
      else db
    case PutAudit(key, id) => db.(audits := db.audits[key := OwnedRow(Some(id), "")])
    case PutRecipient(key, owner) => db.(recipients := db.recipients[key := OwnedRow(owner, "")])
  }

  ghost predicate MayRun(db: Db, changes: seq<Change>)
    decreases |changes|
  {
    changes == [] || (MayChange(db, changes[0]) && MayRun(Changed(db, changes[0]), changes[1..]))
  }

  function ChangedBy(db: Db, changes: seq<Change>): Db
    decreases |changes|
  {
    if changes == [] then db else ChangedBy(Changed(db, changes[0]), changes[1..])
  }

  /** A target that owns a cohesive row is live, so the merge moves nothing to
      a deleted profile. */
  lemma SchemaKeepsOwnersLive(db: Db, e: Event)
    requires WellFormed(db) && IsCanonical(db, e) && OwnersLive(db) && SchemaAllows(db, e)
    ensures OwnersLive(Step(db, e))
  {
    OwnersStayLiveExactlyWhen(db, e);
    if MergeOf(db, e).Some? {
      assert OwnsAny(db, MergeOf(db, e).value.1);
    }
  }

  lemma PutOwner(table: Table, key: string, row: OwnedRow, id: Id)
    requires Owns(table[key := row], id)
    ensures Owns(table, id) || row.owner == Some(id)
  {
  }

  lemma PutKeepsOwnersLive(db: Db, c: Change)
    requires WellFormed(db) && OwnersLive(db) && MayChange(db, c) && !c.Identity?
    ensures WellFormed(Changed(db, c)) && OwnersLive(Changed(db, c))
  {
    var after := Changed(db, c);
    forall id | OwnsAny(after, id) ensures id in after.profiles && !after.profiles[id].deleted {
      match c
      case PutProfile(_) => assert OwnsAny(db, id);
      case PutSatellite(i, key, owner) =>
        if Owns(after.satellites[i], id) {
          PutOwner(db.satellites[i], key, OwnedRow(Some(owner), ""), id);
        }
        assert OwnsAny(db, id) || id == owner;
      case PutAudit(key, owner) =>
        if Owns(after.audits, id) { PutOwner(db.audits, key, OwnedRow(Some(owner), ""), id); }
      case PutRecipient(key, owner) =>
        if Owns(after.recipients, id) { PutOwner(db.recipients, key, OwnedRow(owner, ""), id); }
    }
  }

  /** Under the shipped schema every row of a profile is at a live profile
      after any run of synchronisation, triage, approvals and rejections. */
  lemma {:induction false} OwnersStayLive(db: Db, changes: seq<Change>)
    requires WellFormed(db) && OwnersLive(db) && MayRun(db, changes)
    ensures OwnersLive(ChangedBy(db, changes))
    decreases |changes|
  {
    if changes == [] {
    } else {
      match changes[0] {
        case Identity(e) =>
          SchemaKeepsOwnersLive(db, e);
          StepKeepsWellFormed(db, e);
        case _ => PutKeepsOwnersLive(db, changes[0]);
      }
      OwnersStayLive(Changed(db, changes[0]), changes[1..]);
    }
  }

  // ---- Where the column is there ----

  const TRIANGLE := Db(map["a" := EMPTY_PROFILE, "b" := EMPTY_PROFILE, "c" := EMPTY_PROFILE], [map[], map[], map[]],
                       map["r" := OwnedRow(Some("c"), "")], map[], map[])
  const FIRST := Triage(Candidates.Candidate("b", "a", 1.0), "1", Commits)
  const SECOND := Triage(Candidates.Candidate("c", "b", 1.0), "2", Commits)

  lemma TriangleIsFresh()
    ensures Fresh(TRIANGLE) && OwnersLive(TRIANGLE)
  {
    forall id | OwnsAny(TRIANGLE, id) ensures id == "c" {
      assert !Owns(TRIANGLE.audits, id) && forall i :: 0 <= i < 3 ==> TRIANGLE.satellites[i] == map[];
      assert Owns(TRIANGLE.recipients, id);
    }
  }

  lemma FirstIsRefused()
    ensures IsCanonical(TRIANGLE, FIRST) && !SchemaAllows(TRIANGLE, FIRST)
  {
    assert Less("a", "b");
    assert MergeOf(TRIANGLE, FIRST) == Some(("b", "a"));
  }

  lemma AfterFirst()
    ensures var db := Step(TRIANGLE, FIRST);
      && "b" in db.profiles && db.profiles["b"].deleted && "c" in db.profiles
      && "r" in db.recipients && db.recipients["r"].owner == Some("c")
      && db.satellites == [map[], map[], map[]] && !PairSettled(db, "c", "b")
  {
    assert Step(TRIANGLE, FIRST) == Merged(Recorded(TRIANGLE, FIRST.candidate, "1", "approved"), "b", "a");
    assert MergedSatellite(map[], "b", "a") == map[];
  }

  lemma AfterSecond(db: Db)
    requires "b" in db.profiles && db.profiles["b"].deleted && "c" in db.profiles
    requires "r" in db.recipients && db.recipients["r"].owner == Some("c")
    requires db.satellites == [map[], map[], map[]] && !PairSettled(db, "c", "b")
    ensures IsCanonical(db, SECOND) && !SchemaAllows(db, SECOND)
    ensures var after := Step(db, SECOND);
      && "r" in after.recipients && after.recipients["r"].owner == Some("b")
      && "b" in after.profiles && after.profiles["b"].deleted && !OwnersLive(after)
  {
    var recorded := Recorded(db, SECOND.candidate, "2", "approved");
    assert Step(db, SECOND) == Merged(recorded, "c", "b");
    assert recorded.profiles == db.profiles && recorded.recipients == db.recipients;
    assert Less("b", "c");
    assert "r" in Step(db, SECOND).recipients && Step(db, SECOND).recipients["r"].owner == Some("b");
    assert OwnsAny(Step(db, SECOND), "b");
  }

  lemma RunOfTwo(db: Db, e: Event, f: Event)
    ensures Run(db, [e, f]) == Step(Step(db, e), f)
  {
    assert [e, f][1..] == [f] && [f][1..] == [];
    assert Run(Step(db, e), [f]) == Step(Step(db, e), f);
  }

  /** The condition fails in a triangle of candidates: merging "b" into "a"
      and then "c" into "b" leaves the recipient of "c" at a deleted profile.
      The shipped schema lets neither merge commit. */
  lemma StrandedRecipient()
    ensures Fresh(TRIANGLE) && OwnersLive(TRIANGLE)
    ensures IsCanonical(TRIANGLE, FIRST) && IsCanonical(Step(TRIANGLE, FIRST), SECOND)
    ensures var after := Run(TRIANGLE, [FIRST, SECOND]);
      && "r" in after.recipients && after.recipients["r"].owner == Some("b")
      && "b" in after.profiles && after.profiles["b"].deleted && !OwnersLive(after)
    ensures !SchemaAllows(TRIANGLE, FIRST) && !SchemaAllows(Step(TRIANGLE, FIRST), SECOND)
  {
    TriangleIsFresh();
    FirstIsRefused();
    AfterFirst();
    AfterSecond(Step(TRIANGLE, FIRST));
    RunOfTwo(TRIANGLE, FIRST, SECOND);
  }

  // ---- The triage loop ----

  datatype Stats = Stats(autoMerged: nat, queued: nat, skipped: nat, errors: nat)

  function Counted(stats: Stats): nat {
    stats.autoMerged + stats.queued + stats.skipped + stats.errors
  }

  class Triager {
    var store: Db
    var stats: Stats

    constructor (db: Db)
      ensures store == db && stats == Stats(0, 0, 0, 0)
    {
      store, stats := db, Stats(0, 0, 0, 0);
    }

    /** `_triage_candidate`, which may raise. */
    method TriageCandidate(c: Candidates.Candidate, freshId: string, outcome: Outcome) returns (raised: bool)
      modifies this
      ensures store == Step(old(store), Triage(c, freshId, outcome))
      ensures raised <==>
        || outcome.NotRecorded?
        || (outcome.NotDowngraded? && !PairSettled(old(store), c.source, c.target)
            && c.score >= Resolver.AUTO_MERGE_THRESHOLD)
      ensures stats ==
        if raised then old(stats)
        else if PairSettled(old(store), c.source, c.target) then old(stats).(skipped := old(stats).skipped + 1)
        else if c.score >= Resolver.AUTO_MERGE_THRESHOLD && outcome.Commits?
        then old(stats).(autoMerged := old(stats).autoMerged + 1)
        else old(stats).(queued := old(stats).queued + 1)
    {
      var status := if c.score >= Resolver.AUTO_MERGE_THRESHOLD then "approved" else "pending";
      if outcome.NotRecorded? {
        return true;
      }
      if PairSettled(store, c.source, c.target) {
        stats := stats.(skipped := stats.skipped + 1);
        return false;
      }
      store := Recorded(store, c, freshId, status);
      if c.score >= Resolver.AUTO_MERGE_THRESHOLD {
        if outcome.Commits? {
          store := Merged(store, c.source, c.target);
          stats := stats.(autoMerged := stats.autoMerged + 1);
        } else {
          if outcome.NotDowngraded? {
            return true;
          }
          store := SetStatus(store, c.source, c.target, "pending");
          stats := stats.(queued := stats.queued + 1);
        }
      } else {
        stats := stats.(queued := stats.queued + 1);
      }
      return false;
    }

    /** The loop over all candidates counts each exactly once. */
    method TriageAll(events: seq<Event>)
      requires forall e :: e in events ==> e.Triage?
      modifies this
      ensures store == Run(old(store), events)
      ensures Counted(stats) == old(Counted(stats)) + |events|
    {
      ghost var db := store;
      for i := 0 to |events|
        invariant Run(db, events) == Run(store, events[i..])
        invariant Counted(stats) == old(Counted(stats)) + i
      {
        var e := events[i];
        var raised := TriageCandidate(e.candidate, e.freshId, e.outcome);
        if raised {
          stats := stats.(errors := stats.errors + 1);
        }
        assert events[i..][1..] == events[i + 1..];
      }
    }
  }
}
