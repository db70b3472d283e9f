/**
 * POST /api/scores/mentor (src/app/api/scores/mentor/route.ts): a mentor or
 * administrator records their criteria for a (teamCode, round). A new key
 * creates a record with the caller's single entry; an existing entry of the
 * caller is overwritten in place through `findOneAndUpdate`, which does not
 * run the pre-save hook, so `averageScore` keeps its old value; otherwise the
 * entry is appended and the record saved, which recomputes the average.
 */
module MentorScores {
  import opened Wrappers
  import opened Numeric
  import opened Auth
  import opened ScoreModel

  /** The request body, after JSON decoding; numbers are reals. */
  datatype Body = Body(teamCode: string, round: real, criteria: Criteria, comments: string)

  /** `z.number().int().positive()`. */
  predicate IsPositiveInt(x: real) {
    x == x.Floor as real && x > 0.0
  }

  /** `MentorScoreSchema`. */
  predicate BodyValid(b: Body) {
    && |b.teamCode| >= 1
    && IsPositiveInt(b.round)
    && CriteriaInRange(b.criteria)
    && |b.comments| >= 1
  }

  datatype Response =
    | Forbidden                 // 403
    | ValidationFailed          // 400, a ZodError
    | Created(score: Score)     // 201
    | Updated(score: Score)     // 200

  function Status(r: Response): int {
    match r
    case Forbidden => 403
    case ValidationFailed => 400
    case Created(_) => 201
    case Updated(_) => 200
  }

  /** `payload && ["mentor", "admin"].includes(payload.role)`. */
  predicate MayScore(caller: Option<Claims>) {
    caller.Some? && caller.value.role in ["mentor", "admin"]
  }

  /** The entry the route writes for `mentorId`. */
  function EntryFor(mentorId: string, b: Body): (e: MentorEntry)
    requires BodyValid(b)
    ensures EntrySound(e) && e.mentorId == mentorId
  {
    MentorEntry(mentorId, b.criteria, b.comments, CriteriaSum(b.criteria))
  }

  /** The record `Score.create` is given when the key has no record yet. */
  function Fresh(mentorId: string, b: Body): Score
    requires BodyValid(b)
  {
    Score(b.teamCode, b.round.Floor, [EntryFor(mentorId, b)], None, DefaultAverage)
  }

  /** The collection after a valid request from `mentorId`, path by path as the route takes them. */
  function Upsert(records: seq<Score>, mentorId: string, b: Body): (r: seq<Score>)
    requires BodyValid(b)
    ensures FindRecord(records, b.teamCode, b.round.Floor).None? ==> |r| == |records| + 1
    ensures FindRecord(records, b.teamCode, b.round.Floor).Some? ==> |r| == |records|
    ensures forall k :: 0 <= k < |records| && Some(k) != FindRecord(records, b.teamCode, b.round.Floor) ==>
              r[k] == records[k]
  {
    var e := EntryFor(mentorId, b);
    match FindRecord(records, b.teamCode, b.round.Floor)
    case None => records + [PreSave(Fresh(mentorId, b))]
    case Some(i) =>
      match FindMentor(records[i].mentorScores, mentorId)
      case Some(j) => records[i := SetEntry(records[i], j, e)]
      case None =>
        var s := records[i];
        records[i := PreSave(s.(mentorScores := s.mentorScores + [e]))]
  }

  method Post(store: ScoreStore, req: Request, verify: Verifier, body: Body) returns (resp: Response)
    modifies store
    ensures !MayScore(Caller(req, verify)) ==> resp == Forbidden && store.records == old(store.records)
    ensures MayScore(Caller(req, verify)) && !BodyValid(body) ==>
              resp == ValidationFailed && store.records == old(store.records)
    ensures MayScore(Caller(req, verify)) && BodyValid(body) ==>
              && store.records == Upsert(old(store.records), Caller(req, verify).value.userId, body)
              && var i := FindRecord(old(store.records), body.teamCode, body.round.Floor);
                 if i.None? then resp == Created(store.records[|store.records| - 1])
                 else resp == Updated(store.records[i.value])
  {
    var payload := Caller(req, verify);
    if !MayScore(payload) {
      return Forbidden;
    }
    if !BodyValid(body) {
      return ValidationFailed;
    }
    var mentorId := payload.value.userId;
    var entry := EntryFor(mentorId, body);
    var existing := FindRecord(store.records, body.teamCode, body.round.Floor);
    if existing.None? {
      var created := store.Create(Fresh(mentorId, body));
      return Created(created);
    }
    var i := existing.value;
    var updated := store.UpdateMentorEntry(i, entry);
    if updated.Some? {
      return Updated(updated.value);
    }
    var s := store.records[i];
    var saved := store.Save(i, s.(mentorScores := s.mentorScores + [entry]));
    resp := Updated(saved);
  }

  /** A new key gets a record whose only entry is the caller's, with the average equal to its total. */
  lemma CreatesSingleEntry(records: seq<Score>, mentorId: string, b: Body)
    requires BodyValid(b) && FindRecord(records, b.teamCode, b.round.Floor).None?
    ensures |Upsert(records, mentorId, b)| == |records| + 1
    ensures Upsert(records, mentorId, b)[|records|].mentorScores == [EntryFor(mentorId, b)]
    ensures Upsert(records, mentorId, b)[|records|].averageScore == CriteriaSum(b.criteria)
    ensures Upsert(records, mentorId, b)[|records|].adminScore == None
    ensures SameKey(Upsert(records, mentorId, b)[|records|], b.teamCode, b.round.Floor)
  {
    var f := Fresh(mentorId, b);
    assert Upsert(records, mentorId, b) == records + [PreSave(f)];
    var t := Totals(f.mentorScores);
    assert t == [CriteriaSum(b.criteria)];
    assert Sum(t) == t[0] + Sum(t[1..]);
    assert PreSave(f).averageScore == Sum(t) / 1.0;
  }

  /**
   * A mentor who already has an entry has it overwritten in place: same
   * number of entries, every other entry as it was, and the stored average
   * untouched, since the update bypasses the hook.
   */
  lemma UpdateKeepsAverage(records: seq<Score>, mentorId: string, b: Body)
    requires BodyValid(b) && FindRecord(records, b.teamCode, b.round.Floor).Some?
    requires FindMentor(records[FindRecord(records, b.teamCode, b.round.Floor).value].mentorScores, mentorId).Some?
    ensures var i := FindRecord(records, b.teamCode, b.round.Floor).value;
      var ms := records[i].mentorScores;
      var j := FindMentor(ms, mentorId).value;
      var s := Upsert(records, mentorId, b)[i];
      && |s.mentorScores| == |ms|
      && s.mentorScores[j] == EntryFor(mentorId, b)
      && (forall k :: 0 <= k < |ms| && k != j ==> s.mentorScores[k] == ms[k])
      && s.averageScore == records[i].averageScore
      && s.adminScore == records[i].adminScore
      && s.(mentorScores := ms) == records[i]
  {
  }

  /** A mentor without an entry is appended at the end and the average recomputed. */
  lemma AppendRecomputes(records: seq<Score>, mentorId: string, b: Body)
    requires BodyValid(b) && FindRecord(records, b.teamCode, b.round.Floor).Some?
    requires FindMentor(records[FindRecord(records, b.teamCode, b.round.Floor).value].mentorScores, mentorId).None?
    ensures var i := FindRecord(records, b.teamCode, b.round.Floor).value;
      var s := Upsert(records, mentorId, b)[i];
      && s.mentorScores == records[i].mentorScores + [EntryFor(mentorId, b)]
      && AverageConsistent(s)
      && s.(mentorScores := records[i].mentorScores, averageScore := records[i].averageScore) == records[i]
  {
    var i := FindRecord(records, b.teamCode, b.round.Floor).value;
    PreSaveConsistent(records[i].(mentorScores := records[i].mentorScores + [EntryFor(mentorId, b)]));
  }

  /**
   * The route keeps every record sound: in particular, a record that had at
   * most one entry per mentor still has at most one, and the average stays
   * in [0, 40] even when it goes stale.
   */
  lemma {:induction false} UpsertKeepsSound(records: seq<Score>, mentorId: string, b: Body)
    requires BodyValid(b) && AllSound(records)
    ensures AllSound(Upsert(records, mentorId, b))
  {
    var r := Upsert(records, mentorId, b);
    var e := EntryFor(mentorId, b);
    match FindRecord(records, b.teamCode, b.round.Floor)
    case None =>
      CreatesSingleEntry(records, mentorId, b);
      assert Sound(r[|records|]);
    case Some(i) =>
      var s := records[i];
      var ms := s.mentorScores;
      match FindMentor(ms, mentorId)
      case Some(j) =>
        var ms' := r[i].mentorScores;
        assert ms' == ms[j := e];
        assert UniqueMentors(ms') by {
          forall p, q | 0 <= p < q < |ms'| ensures ms'[p].mentorId != ms'[q].mentorId {
            assert ms'[p].mentorId == ms[p].mentorId && ms'[q].mentorId == ms[q].mentorId;
          }
        }
        assert Sound(r[i]);
      case None =>
        var ms' := ms + [e];
        assert UniqueMentors(ms') by {
          forall p, q | 0 <= p < q < |ms'| ensures ms'[p].mentorId != ms'[q].mentorId {
            if q == |ms| {
              assert ms[p].mentorId != mentorId;
            }
          }
        }
        SoundTotalsWithin(ms');
        PreSaveWithin(s.(mentorScores := ms'));
        assert Sound(r[i]);
  }

  /**
   * The hook is skipped on the update path, so the stored average can
   * disagree with the entries: a sole mentor who lowers a 30 to a 4 leaves
   * the record at 30.
   */
  lemma StaleAverageAfterUpdate()
    ensures var c30 := Criteria(10.0, 10.0, 5.0, 5.0);
      var c4 := Criteria(1.0, 1.0, 1.0, 1.0);
      var before := Score("T1", 1, [MentorEntry("m", c30, "ok", 30.0)], None, 30.0);
      var b := Body("T1", 1.0, c4, "ok");
      var after := Upsert([before], "m", b)[0];
      && AverageConsistent(before)
      && after.averageScore == 30.0
      && Mean(Totals(after.mentorScores)) == 4.0
      && !AverageConsistent(after)
  {
    var c30 := Criteria(10.0, 10.0, 5.0, 5.0);
    var before := Score("T1", 1, [MentorEntry("m", c30, "ok", 30.0)], None, 30.0);
    var t := Totals(before.mentorScores);
    assert Sum(t) == t[0] + Sum(t[1..]);
    var c4 := Criteria(1.0, 1.0, 1.0, 1.0);
    var after := Upsert([before], "m", Body("T1", 1.0, c4, "ok"))[0];
    var t' := Totals(after.mentorScores);
    assert t' == [4.0];
    assert Sum(t') == t'[0] + Sum(t'[1..]);
  }

  /** The route with the pre-save hook applied on every path, the update path included. */
  function UpsertRecomputing(records: seq<Score>, mentorId: string, b: Body): (r: seq<Score>)
    requires BodyValid(b)
    ensures |r| >= |records|
  {
    var e := EntryFor(mentorId, b);
    match FindRecord(records, b.teamCode, b.round.Floor)
    case None => records + [PreSave(Fresh(mentorId, b))]
    case Some(i) =>
      match FindMentor(records[i].mentorScores, mentorId)
      case Some(j) => records[i := PreSave(SetEntry(records[i], j, e))]
      case None =>
        var s := records[i];
        records[i := PreSave(s.(mentorScores := s.mentorScores + [e]))]
  }

  /** With the hook on every path, a collection of consistent records stays consistent. */
  lemma UpsertRecomputingConsistent(records: seq<Score>, mentorId: string, b: Body)
    requires BodyValid(b)
    requires forall k :: 0 <= k < |records| ==> AverageConsistent(records[k])
    ensures var r := UpsertRecomputing(records, mentorId, b);
      forall k :: 0 <= k < |r| ==> AverageConsistent(r[k])
  {
    var r := UpsertRecomputing(records, mentorId, b);
    match FindRecord(records, b.teamCode, b.round.Floor)
    case None =>
      CreatesSingleEntry(records, mentorId, b);
      assert AverageConsistent(r[|records|]);
    case Some(i) =>
      var s := records[i];
      match FindMentor(s.mentorScores, mentorId)
      case Some(j) =>
        PreSaveConsistent(SetEntry(s, j, EntryFor(mentorId, b)));
      case None =>
        PreSaveConsistent(s.(mentorScores := s.mentorScores + [EntryFor(mentorId, b)]));
  }
}
