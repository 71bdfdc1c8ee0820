/**
  The profile tables, and the transaction that merges one developer profile
  into another.  Timestamps are not modelled.
 */
module ProfileStore {
  import opened Basics

  type Id = string

  datatype ProfileRow = ProfileRow(
    github: Option<string>, huggingface: Option<string>, email: Option<string>,
    deleted: bool, mergedInto: Option<Id>, status: string)

  /** A row that belongs to one profile, with the rest of its columns. */
  datatype OwnedRow = OwnedRow(owner: Option<Id>, data: string)

  /** Rows under their own primary keys. */
  type Table = map<string, OwnedRow>

  datatype CandidateRow = CandidateRow(
    source: Id, target: Id, score: real, status: string, resolved: Option<Id>)

  /** `satellites` holds the social, aggregated and cohesive profile tables. */
  datatype Db = Db(
    profiles: map<Id, ProfileRow>, satellites: seq<Table>, recipients: Table, audits: Table,
    candidates: map<string, CandidateRow>)

  // ---- The merge, row by row ----

  function Coalesce<T>(a: Option<T>, b: Option<T>): Option<T> {
    if a.Some? then a else b
  }

  const EMPTY_PROFILE := ProfileRow(None, None, None, false, None, "pending")

  function CopyLinks(to: ProfileRow, from: ProfileRow): ProfileRow {
    to.(github := Coalesce(to.github, from.github),
        huggingface := Coalesce(to.huggingface, from.huggingface),
        email := Coalesce(to.email, from.email))
  }

  function RowOr(profiles: map<Id, ProfileRow>, id: Id, default: ProfileRow): ProfileRow {
    if id in profiles then profiles[id] else default
  }

  function MergedRow(profiles: map<Id, ProfileRow>, s: Id, t: Id, id: Id): ProfileRow
    requires id in profiles
  {
    var row := profiles[id];
    if id == t then
      var linked := CopyLinks(row, RowOr(profiles, s, EMPTY_PROFILE));
      if s == t then linked.(deleted := true, mergedInto := Some(t), status := "pending")
      else linked.(status := "pending")
    else if id == s then row.(deleted := true, mergedInto := Some(t), status := "merged")
    else row
  }

  predicate Owns(table: Table, id: Id) {
    exists k :: k in table && table[k].owner == Some(id)
  }

  function Repoint(table: Table, s: Id, t: Id): Table {
    map k | k in table :: if table[k].owner == Some(s) then table[k].(owner := Some(t)) else table[k]
  }

  function Without(table: Table, s: Id): Table {
    map k | k in table && table[k].owner != Some(s) :: table[k]
  }

  function MergedSatellite(table: Table, s: Id, t: Id): Table {
    if Owns(table, t) then Without(table, s) else Repoint(table, s, t)
  }

  function MergedCandidate(row: CandidateRow, s: Id, t: Id): CandidateRow {
    if row.source == s && row.target == t then row.(status := "merged", resolved := Some(t)) else row
  }

  function MergedProfiles(profiles: map<Id, ProfileRow>, s: Id, t: Id): map<Id, ProfileRow> {
    map id | id in profiles :: MergedRow(profiles, s, t, id)
  }

  function MergedCandidates(candidates: map<string, CandidateRow>, s: Id, t: Id): map<string, CandidateRow> {
    map k | k in candidates :: MergedCandidate(candidates[k], s, t)
  }

  function Merged(db: Db, s: Id, t: Id): Db {
    Db(MergedProfiles(db.profiles, s, t),
       seq(|db.satellites|, i requires 0 <= i < |db.satellites| => MergedSatellite(db.satellites[i], s, t)),
       Repoint(db.recipients, s, t),
       Repoint(db.audits, s, t),
       MergedCandidates(db.candidates, s, t))
  }

  // ---- What one merge keeps and changes ----

  /** The UNIQUE constraint of a satellite table. */
  ghost predicate OneRowEach(table: Table) {
    forall j, k :: j in table && k in table && table[j].owner == table[k].owner ==> j == k
  }

  lemma SatelliteStaysUnique(table: Table, s: Id, t: Id)
    requires OneRowEach(table)
    ensures OneRowEach(MergedSatellite(table, s, t))
  {
  }

  /** No row is left at the source, and rows of other profiles are untouched. */
  lemma SatelliteRows(table: Table, s: Id, t: Id)
    requires s != t
    ensures !Owns(MergedSatellite(table, s, t), s)
    ensures forall k :: k in table && table[k].owner != Some(s) ==>
              k in MergedSatellite(table, s, t) && MergedSatellite(table, s, t)[k] == table[k]
    ensures forall k :: k in MergedSatellite(table, s, t) ==>
              k in table && MergedSatellite(table, s, t)[k].data == table[k].data
              && (MergedSatellite(table, s, t)[k] == table[k] || (table[k].owner == Some(s) && !Owns(table, t)))
  {
  }

  /** Exactly one row goes, and only when both profiles had one; the target
      ends up with a row exactly when either of them had one. */
  lemma SatelliteCount(table: Table, s: Id, t: Id)
    requires s != t && OneRowEach(table)
    ensures |MergedSatellite(table, s, t)| == |table| - (if Owns(table, s) && Owns(table, t) then 1 else 0)
    ensures Owns(MergedSatellite(table, s, t), t) <==> Owns(table, s) || Owns(table, t)
  {
    var after := MergedSatellite(table, s, t);
    if Owns(table, t) {
      var mine :| mine in table && table[mine].owner == Some(t);
      assert mine in after && after[mine].owner == Some(t);
      if Owns(table, s) {
        var k :| k in table && table[k].owner == Some(s);
        assert after.Keys == table.Keys - {k};
      } else {
        assert after == table;
      }
    } else {
      assert after.Keys == table.Keys;
      if Owns(table, s) {
        var k :| k in table && table[k].owner == Some(s);
        assert after[k].owner == Some(t);
      }
    }
  }

  /** Recipients and audit rows are all kept, moved from source to target. */
  lemma ReferencesMove(table: Table, s: Id, t: Id)
    requires s != t
    ensures Repoint(table, s, t).Keys == table.Keys && |Repoint(table, s, t)| == |table|
    ensures !Owns(Repoint(table, s, t), s)
    ensures forall k :: k in table && table[k].owner != Some(s) ==> Repoint(table, s, t)[k] == table[k]
    ensures forall k :: k in table && table[k].owner == Some(s) ==>
              Repoint(table, s, t)[k] == OwnedRow(Some(t), table[k].data)
  {
    assert Repoint(table, s, t).Keys == table.Keys;
  }

  /** A link that the target has is kept, and one it lacks is the source's. */
  predicate LinkKept<T(==)>(target: Option<T>, source: Option<T>, after: Option<T>) {
    if target.Some? then after == target else after == source
  }

  /** The rows of the two profiles: the target keeps its links, takes over the
      missing ones, and waits to be rebuilt; the source keeps its links and is
      deleted and marked as merged into the target. */
  lemma RowsAfterMerge(db: Db, s: Id, t: Id)
    requires s != t && s in db.profiles && t in db.profiles
    ensures var source, target, after := db.profiles[s], db.profiles[t], Merged(db, s, t).profiles;
      && s in after && t in after
      && LinkKept(target.github, source.github, after[t].github)
      && LinkKept(target.huggingface, source.huggingface, after[t].huggingface)
      && LinkKept(target.email, source.email, after[t].email)
      && after[t].deleted == target.deleted && after[t].mergedInto == target.mergedInto
      && after[t].status == "pending"
      && after[s].github == source.github && after[s].huggingface == source.huggingface
      && after[s].email == source.email
      && after[s].deleted && after[s].mergedInto == Some(t) && after[s].status == "merged"
  {
  }

  /** The candidate of the pair is merged and resolved to the target; the other
      candidates are untouched. */
  lemma CandidatesAfterMerge(db: Db, s: Id, t: Id, k: string)
    requires k in db.candidates
    ensures Merged(db, s, t).candidates.Keys == db.candidates.Keys
    ensures var row, after := db.candidates[k], Merged(db, s, t).candidates[k];
      && after.source == row.source && after.target == row.target && after.score == row.score
      && if row.source == s && row.target == t then after.status == "merged" && after.resolved == Some(t)
         else after == row
  {
  }

  /** A second identical merge changes nothing. */
  lemma MergeTwice(db: Db, s: Id, t: Id)
    requires s != t
    ensures Merged(Merged(db, s, t), s, t) == Merged(db, s, t)
  {
    var once := Merged(db, s, t);
    var twice := Merged(once, s, t);
    forall id | id in db.profiles ensures twice.profiles[id] == once.profiles[id] {
      assert RowOr(once.profiles, s, EMPTY_PROFILE).github == RowOr(db.profiles, s, EMPTY_PROFILE).github;
    }
    assert twice.profiles == once.profiles;
    assert forall i :: 0 <= i < |db.satellites| ==> twice.satellites[i] == once.satellites[i];
    ReferencesMove(db.recipients, s, t);
    ReferencesMove(db.audits, s, t);
    assert twice.recipients == once.recipients && twice.audits == once.audits;
    assert twice.candidates == once.candidates;
  }

  ghost predicate TablesUnique(db: Db) {
    forall i :: 0 <= i < |db.satellites| ==> OneRowEach(db.satellites[i])
  }

  /** One merge, over the whole database. */
  lemma OneMerge(db: Db, s: Id, t: Id)
    requires s != t && TablesUnique(db)
    ensures var after := Merged(db, s, t);
      && TablesUnique(after)
      && (forall i :: 0 <= i < |db.satellites| ==>
            !Owns(after.satellites[i], s)
            && |after.satellites[i]| == |db.satellites[i]|
               - (if Owns(db.satellites[i], s) && Owns(db.satellites[i], t) then 1 else 0))
      && !Owns(after.recipients, s) && !Owns(after.audits, s)
      && |after.recipients| == |db.recipients| && |after.audits| == |db.audits|
      && after.profiles.Keys == db.profiles.Keys
      && (forall id :: id in db.profiles && id != s && id != t ==> after.profiles[id] == db.profiles[id])
  {
    forall i | 0 <= i < |db.satellites|
      ensures OneRowEach(Merged(db, s, t).satellites[i])
      ensures !Owns(Merged(db, s, t).satellites[i], s)
      ensures |Merged(db, s, t).satellites[i]| == |db.satellites[i]|
              - (if Owns(db.satellites[i], s) && Owns(db.satellites[i], t) then 1 else 0)
    {
      SatelliteStaysUnique(db.satellites[i], s, t);
      SatelliteRows(db.satellites[i], s, t);
      SatelliteCount(db.satellites[i], s, t);
    }
    ReferencesMove(db.recipients, s, t);
    ReferencesMove(db.audits, s, t);
  }

  // ---- The transaction, statement by statement ----

  function LinksCopied(profiles: map<Id, ProfileRow>, s: Id, t: Id): map<Id, ProfileRow> {
    if t in profiles then profiles[t := CopyLinks(profiles[t], RowOr(profiles, s, EMPTY_PROFILE))] else profiles
  }

  function SoftDeleted(profiles: map<Id, ProfileRow>, s: Id, t: Id): map<Id, ProfileRow> {
    if s in profiles
    then profiles[s := profiles[s].(deleted := true, mergedInto := Some(t), status := "merged")]
    else profiles
  }

  function MarkedPending(profiles: map<Id, ProfileRow>, t: Id): map<Id, ProfileRow> {
    if t in profiles then profiles[t := profiles[t].(status := "pending")] else profiles
  }

  lemma ProfileStatements(profiles: map<Id, ProfileRow>, s: Id, t: Id)
    ensures MarkedPending(SoftDeleted(LinksCopied(profiles, s, t), s, t), t) ==
            MergedProfiles(profiles, s, t)
  {
    var after := MarkedPending(SoftDeleted(LinksCopied(profiles, s, t), s, t), t);
    assert after.Keys == profiles.Keys;
  }

  class Store {
    var profiles: map<Id, ProfileRow>
    var satellites: seq<Table>
    var recipients: Table
    var audits: Table
    var candidates: map<string, CandidateRow>

    ghost function View(): Db
      reads this
    {
      Db(profiles, satellites, recipients, audits, candidates)
    }

    constructor (db: Db)
      ensures View() == db
    {
      profiles, satellites, recipients := db.profiles, db.satellites, db.recipients;
      audits, candidates := db.audits, db.candidates;
    }

    method MergeProfiles(source: Id, target: Id)
      modifies this
      ensures View() == Merged(old(View()), source, target)
    {
      ghost var before := View();
      // 1. Copy platform links.
      profiles := LinksCopied(profiles, source, target);
      // 2. Tables with at most one row per profile.
      satellites := MergeSatellites(satellites, source, target);
      // 3. Re-point the other references.
      recipients := Repoint(recipients, source, target);
      audits := Repoint(audits, source, target);
      // 4. Soft-delete the source.
      profiles := SoftDeleted(profiles, source, target);
      // 5. Update the candidate of this pair.
      candidates := MergedCandidates(candidates, source, target);
      // 6. Mark the target for rebuild.
      profiles := MarkedPending(profiles, target);
      ProfileStatements(before.profiles, source, target);
      assert satellites == Merged(before, source, target).satellites;
    }

    static method MergeSatellites(before: seq<Table>, source: Id, target: Id) returns (tables: seq<Table>)
      ensures |tables| == |before|
      ensures forall k :: 0 <= k < |before| ==> tables[k] == MergedSatellite(before[k], source, target)
    {
      tables := before;
      for i := 0 to |before|
        invariant |tables| == |before|
        invariant forall k :: 0 <= k < i ==> tables[k] == MergedSatellite(before[k], source, target)
        invariant forall k :: i <= k < |before| ==> tables[k] == before[k]
      {
        if Owns(tables[i], target) {
          tables := tables[i := Without(tables[i], source)];
        } else {
          tables := tables[i := Repoint(tables[i], source, target)];
        }
      }
    }
  }
}
