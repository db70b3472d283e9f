/**
 * The Score document of src/models/Score.ts: one record per (teamCode,
 * round) as far as the routes keep it so (the compound index is not
 * unique), holding the mentors' entries, an optional administrator
 * sub-record and the stored `averageScore`, which the pre-save hook
 * recomputes from the entries.
 *
 * The collection is a class whose methods are the three Mongoose calls the
 * scoring routes make: `create` and `save` run the hook, the positional
 * `findOneAndUpdate` does not.
 */
module ScoreModel {
  import opened Wrappers
  import opened Numeric

  datatype Criteria = Criteria(innovation: real, feasibility: real, technical: real, presentation: real)

  /** `CriteriaSchema`: every criterion is a number in [0, 10]. */
  predicate CriteriaInRange(c: Criteria) {
    && 0.0 <= c.innovation <= 10.0
    && 0.0 <= c.feasibility <= 10.0
    && 0.0 <= c.technical <= 10.0
    && 0.0 <= c.presentation <= 10.0
  }

  /** The mentor route's `total`: the four criteria added up. */
  function CriteriaSum(c: Criteria): (t: real)
    ensures CriteriaInRange(c) ==> 0.0 <= t <= 40.0
  {
    c.innovation + c.feasibility + c.technical + c.presentation
  }

  /** One element of `mentorScores`; all four fields are required by the schema. */
  datatype MentorEntry = MentorEntry(mentorId: string, criteria: Criteria, comments: string, total: real)

  /** `adminScore`; the admin route writes `total` and `finalComment` and keeps any `criteria`. */
  datatype AdminScore = AdminScore(criteria: Option<Criteria>, finalComment: string, total: real)

  datatype Score = Score(
    teamCode: string,
    round: int,
    mentorScores: seq<MentorEntry>,
    adminScore: Option<AdminScore>,
    averageScore: real)

  /** The schema default of `averageScore`. */
  const DefaultAverage: real := 0.0

  function Totals(ms: seq<MentorEntry>): (ts: seq<real>)
    ensures |ts| == |ms|
    ensures forall i :: 0 <= i < |ms| ==> ts[i] == ms[i].total
  {
    seq(|ms|, i requires 0 <= i < |ms| => ms[i].total)
  }

  /** The stored average is what the entries say: their mean, or the default 0 without entries. */
  ghost predicate AverageConsistent(s: Score) {
    if |s.mentorScores| == 0 then s.averageScore == DefaultAverage
    else s.averageScore == Mean(Totals(s.mentorScores))
  }

  /**
   * The pre-save hook: with at least one entry, `averageScore` becomes the
   * sum of the entry totals divided by their number; with none it is left
   * as it was. Nothing else in the record changes.
   */
  function PreSave(s: Score): (r: Score)
    ensures r.(averageScore := s.averageScore) == s
    ensures |s.mentorScores| == 0 ==> r == s
    ensures s.averageScore == DefaultAverage ==> AverageConsistent(r)
  {
    if |s.mentorScores| > 0 then
      s.(averageScore := Sum(Totals(s.mentorScores)) / (|s.mentorScores| as real))
    else
      s
  }

  /** Saving again without touching the entries gives the same record. */
  lemma PreSaveIdempotent(s: Score)
    ensures PreSave(PreSave(s)) == PreSave(s)
  {
  }

  /** Once the hook has run on a record with entries, its average is consistent. */
  lemma PreSaveConsistent(s: Score)
    requires |s.mentorScores| > 0
    ensures AverageConsistent(PreSave(s))
  {
  }

  /** With every entry total in [0, 40], the hook's average stays in [0, 40]. */
  lemma PreSaveWithin(s: Score)
    requires AllWithin(Totals(s.mentorScores), 0.0, 40.0)
    requires 0.0 <= s.averageScore <= 40.0
    ensures 0.0 <= PreSave(s).averageScore <= 40.0
  {
    if |s.mentorScores| > 0 {
      MeanWithin(Totals(s.mentorScores), 0.0, 40.0);
    }
  }

  predicate SameKey(s: Score, teamCode: string, round: int) {
    s.teamCode == teamCode && s.round == round
  }

  /** `Score.findOne({ teamCode, round })`: the first record with that key, if any. */
  function FindRecord(records: seq<Score>, teamCode: string, round: int): (i: Option<nat>)
    ensures i.Some? ==> i.value < |records| && SameKey(records[i.value], teamCode, round)
    ensures i.Some? ==> forall k :: 0 <= k < i.value ==> !SameKey(records[k], teamCode, round)
    ensures i.None? ==> forall k :: 0 <= k < |records| ==> !SameKey(records[k], teamCode, round)
  {
    if records == [] then None
    else if SameKey(records[0], teamCode, round) then Some(0)
    else match FindRecord(records[1..], teamCode, round)
      case None => None
      case Some(k) => Some(k + 1)
  }

  /** A record appended under a key that had none is the one `findOne` finds. */
  lemma {:induction false} FindRecordAppend(records: seq<Score>, s: Score, teamCode: string, round: int)
    requires FindRecord(records, teamCode, round).None? && SameKey(s, teamCode, round)
    ensures FindRecord(records + [s], teamCode, round) == Some(|records|)
  {
    if records != [] {
      assert (records + [s])[1..] == records[1..] + [s];
      FindRecordAppend(records[1..], s, teamCode, round);
    }
  }

  /** `findOne` answers the same on two collections whose keys agree position by position. */
  lemma {:induction false} FindRecordSameKeys(a: seq<Score>, b: seq<Score>, teamCode: string, round: int)
    requires |a| == |b|
    requires forall k :: 0 <= k < |a| ==> SameKey(a[k], teamCode, round) == SameKey(b[k], teamCode, round)
    ensures FindRecord(a, teamCode, round) == FindRecord(b, teamCode, round)
  {
    if a != [] {
      FindRecordSameKeys(a[1..], b[1..], teamCode, round);
    }
  }

  /** The positional operator `mentorScores.$`: the first entry with that `mentorId`. */
  function FindMentor(ms: seq<MentorEntry>, mentorId: string): (j: Option<nat>)
    ensures j.Some? ==> j.value < |ms| && ms[j.value].mentorId == mentorId
    ensures j.Some? ==> forall k :: 0 <= k < j.value ==> ms[k].mentorId != mentorId
    ensures j.None? ==> forall k :: 0 <= k < |ms| ==> ms[k].mentorId != mentorId
  {
    if ms == [] then None
    else if ms[0].mentorId == mentorId then Some(0)
    else match FindMentor(ms[1..], mentorId)
      case None => None
      case Some(k) => Some(k + 1)
  }

  /** The `$set` of criteria, comments and total on entry `j`; the hook does not run. */
  function SetEntry(s: Score, j: nat, e: MentorEntry): (r: Score)
    requires j < |s.mentorScores|
  {
    var ms := s.mentorScores;
    s.(mentorScores := ms[j := ms[j].(criteria := e.criteria, comments := e.comments, total := e.total)])
  }

  /** At most one entry per mentor. */
  predicate UniqueMentors(ms: seq<MentorEntry>) {
    forall j, k :: 0 <= j < k < |ms| ==> ms[j].mentorId != ms[k].mentorId
  }

  /** An entry as the mentor route writes it: criteria in range and the total their sum. */
  predicate EntrySound(e: MentorEntry) {
    CriteriaInRange(e.criteria) && e.total == CriteriaSum(e.criteria)
  }

  /**
   * What the scoring routes keep true of every record: one entry per
   * mentor, sound entries, an average in [0, 40] and a non-negative admin
   * total. The average need not be consistent with the entries.
   */
  predicate Sound(s: Score) {
    && UniqueMentors(s.mentorScores)
    && (forall j :: 0 <= j < |s.mentorScores| ==> EntrySound(s.mentorScores[j]))
    && 0.0 <= s.averageScore <= 40.0
    && (s.adminScore.Some? ==> s.adminScore.value.total >= 0.0)
  }

  predicate AllSound(records: seq<Score>) {
    forall i :: 0 <= i < |records| ==> Sound(records[i])
  }

  lemma SoundTotalsWithin(ms: seq<MentorEntry>)
    requires forall j :: 0 <= j < |ms| ==> EntrySound(ms[j])
    ensures AllWithin(Totals(ms), 0.0, 40.0)
  {
  }

  /** The Score collection. */
  class ScoreStore {
    var records: seq<Score>

    constructor ()
      ensures records == []
    {
      records := [];
    }

    /** `Score.create(doc)`: the hook runs, then the document is inserted at the end. */
    method Create(s: Score) returns (created: Score)
      modifies this
      ensures created == PreSave(s)
      ensures records == old(records) + [created]
    {
      created := PreSave(s);
      records := records + [created];
    }

    /** `doc.save()` on the record at position `i`: the hook runs, then the record is written back. */
    method Save(i: nat, s: Score) returns (saved: Score)
      requires i < |records|
      modifies this
      ensures saved == PreSave(s)
      ensures records == old(records)[i := saved]
    {
      saved := PreSave(s);
      records := records[i := saved];
    }

    /**
     * `findOneAndUpdate({ _id, "mentorScores.mentorId": e.mentorId },
     * { $set: ... }, { new: true })` on the record at position `i`: when the
     * record has an entry of that mentor, that entry's criteria, comments and
     * total are overwritten; the pre-save hook does not run.
     */
    method UpdateMentorEntry(i: nat, e: MentorEntry) returns (updated: Option<Score>)
      requires i < |records|
      modifies this
      ensures FindMentor(old(records)[i].mentorScores, e.mentorId).None? ==>
                updated == None && records == old(records)
      ensures FindMentor(old(records)[i].mentorScores, e.mentorId).Some? ==>
                var j := FindMentor(old(records)[i].mentorScores, e.mentorId).value;
                && records == old(records)[i := SetEntry(old(records)[i], j, e)]
                && updated == Some(records[i])
    {
      var j := FindMentor(records[i].mentorScores, e.mentorId);
      if j.None? {
        updated := None;
      } else {
        var r := SetEntry(records[i], j.value, e);
        records := records[i := r];
        updated := Some(r);
      }
    }
  }
}
