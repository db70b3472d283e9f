/**
 * POST /api/scores/admin (src/app/api/scores/admin/route.ts): an
 * administrator sets the final total and comment of a (teamCode, round).
 * Without a record one is created with no mentor entries; otherwise the
 * `adminScore` sub-record gets the new total and comment, keeping any other
 * field it had, and the record is saved, which runs the pre-save hook.
 */
module AdminScores {
  import opened Wrappers
  import opened Auth
  import opened ScoreModel

  /** The request body; `finalComment` may be omitted. */
  datatype Body = Body(teamCode: string, round: real, total: real, finalComment: Option<string>)

  /** `AdminScoreSchema`. */
  predicate BodyValid(b: Body) {
    && |b.teamCode| >= 1
    && b.round == b.round.Floor as real && b.round > 0.0
    && b.total >= 0.0
  }

  /** `.optional().default("")`. */
  function Comment(b: Body): string {
    if b.finalComment.Some? then b.finalComment.value else ""
  }

  datatype Response =
    | Forbidden                 // 403
    | ValidationFailed          // 400
    | Created(score: Score)     // 201
    | Updated(score: Score)     // 200

  /** `{ ...(existing.adminScore || {}), total, finalComment }`. */
  function Overwrite(a: Option<AdminScore>, b: Body): (r: AdminScore)
    ensures r.total == b.total && r.finalComment == Comment(b)
    ensures a.Some? ==> r.criteria == a.value.criteria
  {
    match a
    case None => AdminScore(None, Comment(b), b.total)
    case Some(old_) => old_.(total := b.total, finalComment := Comment(b))
  }

  /** The record `Score.create` is given for a new key. */
  function Fresh(b: Body): Score
    requires BodyValid(b)
  {
    Score(b.teamCode, b.round.Floor, [], Some(AdminScore(None, Comment(b), b.total)), DefaultAverage)
  }

  /** The collection after a valid request. */
  function Write(records: seq<Score>, b: Body): (r: seq<Score>)
    requires BodyValid(b)
    ensures |r| == if FindRecord(records, b.teamCode, b.round.Floor).None? then |records| + 1 else |records|
    ensures forall k :: 0 <= k < |records| && Some(k) != FindRecord(records, b.teamCode, b.round.Floor) ==>
              r[k] == records[k]
    ensures forall k :: 0 <= k < |records| ==> r[k].mentorScores == records[k].mentorScores
    ensures FindRecord(records, b.teamCode, b.round.Floor).None? ==>
              && r[|records|].teamCode == b.teamCode && r[|records|].round == b.round.Floor
              && r[|records|].mentorScores == []
    ensures FindRecord(records, b.teamCode, b.round.Floor).Some? ==>
              var i := FindRecord(records, b.teamCode, b.round.Floor).value;
              && r[i].adminScore == Some(Overwrite(records[i].adminScore, b))
              && r[i].(adminScore := records[i].adminScore) == PreSave(records[i])
  {
    match FindRecord(records, b.teamCode, b.round.Floor)
    case None => records + [PreSave(Fresh(b))]
    case Some(i) =>
      var s := records[i];
      records[i := PreSave(s.(adminScore := Some(Overwrite(s.adminScore, b))))]
  }

  method Post(store: ScoreStore, req: Request, verify: Verifier, body: Body) returns (resp: Response)
    modifies store
    ensures !IsAdmin(Caller(req, verify)) ==> resp == Forbidden && store.records == old(store.records)
    ensures IsAdmin(Caller(req, verify)) && !BodyValid(body) ==>
              resp == ValidationFailed && store.records == old(store.records)
    ensures IsAdmin(Caller(req, verify)) && BodyValid(body) ==>
              && store.records == Write(old(store.records), body)
              && var i := FindRecord(old(store.records), body.teamCode, body.round.Floor);
                 if i.None? then resp == Created(store.records[|store.records| - 1])
                 else resp == Updated(store.records[i.value])
  {
    if !IsAdmin(Caller(req, verify)) {
      return Forbidden;
    }
    if !BodyValid(body) {
      return ValidationFailed;
    }
    var existing := FindRecord(store.records, body.teamCode, body.round.Floor);
    if existing.None? {
      var created := store.Create(Fresh(body));
      return Created(created);
    }
    var i := existing.value;
    var s := store.records[i];
    var saved := store.Save(i, s.(adminScore := Some(Overwrite(s.adminScore, body))));
    resp := Updated(saved);
  }

  /**
   * After the call, the key has a record carrying the requested total and
   * comment, with the mentor entries as they were (none for a new record)
   * and an average that agrees with what the hook computes from them.
   */
  lemma WriteSetsAdminScore(records: seq<Score>, b: Body)
    requires BodyValid(b)
    ensures var r := Write(records, b);
      var i := FindRecord(r, b.teamCode, b.round.Floor);
      && i.Some?
      && r[i.value].adminScore.Some?
      && r[i.value].adminScore.value.total == b.total
      && r[i.value].adminScore.value.finalComment == Comment(b)
      && r[i.value].averageScore == PreSave(r[i.value]).averageScore
  {
    var r := Write(records, b);
    match FindRecord(records, b.teamCode, b.round.Floor)
    case None =>
      assert SameKey(r[|records|], b.teamCode, b.round.Floor);
      assert FindRecord(r, b.teamCode, b.round.Floor) == Some(|records|) by {
        FindRecordAppend(records, PreSave(Fresh(b)), b.teamCode, b.round.Floor);
      }
    case Some(i) =>
      FindRecordSameKeys(records, r, b.teamCode, b.round.Floor);
  }

  /** Repeating the same request leaves the collection as the first call left it. */
  lemma WriteIdempotent(records: seq<Score>, b: Body)
    requires BodyValid(b)
    ensures Write(Write(records, b), b) == Write(records, b)
  {
    var r := Write(records, b);
    match FindRecord(records, b.teamCode, b.round.Floor)
    case None =>
      FindRecordAppend(records, PreSave(Fresh(b)), b.teamCode, b.round.Floor);
    case Some(i) =>
      FindRecordSameKeys(records, r, b.teamCode, b.round.Floor);
  }

  /** An administrator's save keeps every record sound. */
  lemma WriteKeepsSound(records: seq<Score>, b: Body)
    requires BodyValid(b) && AllSound(records)
    ensures AllSound(Write(records, b))
  {
    var r := Write(records, b);
    match FindRecord(records, b.teamCode, b.round.Floor)
    case None =>
      assert Sound(r[|records|]);
    case Some(i) =>
      var s := records[i];
      SoundTotalsWithin(s.mentorScores);
      PreSaveWithin(s.(adminScore := Some(Overwrite(s.adminScore, b))));
      assert Sound(r[i]);
  }

  /**
   * The administrator's save also repairs an average left stale by a
   * mentor's in-place update: the record it writes is consistent whenever
   * it has entries.
   */
  lemma WriteRepairsAverage(records: seq<Score>, b: Body)
    requires BodyValid(b)
    requires FindRecord(records, b.teamCode, b.round.Floor).Some?
    requires |records[FindRecord(records, b.teamCode, b.round.Floor).value].mentorScores| > 0
    ensures AverageConsistent(Write(records, b)[FindRecord(records, b.teamCode, b.round.Floor).value])
  {
    var i := FindRecord(records, b.teamCode, b.round.Floor).value;
    PreSaveConsistent(records[i].(adminScore := Some(Overwrite(records[i].adminScore, b))));
  }
}
