/**
 * POST /api/submissions (src/app/api/submissions/route.ts): a team leader
 * submits the team's solution for a round. The checks run in this order:
 * the forwarded role and team code, the fields, an active round with that
 * number, the round's window (inclusive at both ends), an earlier
 * submission of the team for the round; then the submission is saved with
 * status `submitted`. The Submission schema (src/models/Submission.ts)
 * accepts rounds 1 to 3 only, so saving a submission for a later round
 * fails and surfaces as an internal error.
 */
module Submissions {
  import opened Wrappers
  import opened Validation
  import Rounds

  datatype Status = Draft | Submitted | Reviewed

  datatype Submission = Submission(teamCode: string, round: int, fields: SubmissionFields, status: Status)

  datatype Response =
    | NotLeader                          // 403 "Only team leaders can submit solutions"
    | InternalError                      // 500: invalid fields (the ZodError is not singled out) or a rejected save
    | RoundNotActive                     // 400 "Round not active"
    | WindowClosed                       // 400 "Submission window closed"
    | AlreadyExists                      // 400 "Submission already exists for this round"
    | Created(submission: Submission)    // 201

  /** The bounds the Submission schema puts on `round`. */
  const MinSchemaRound: int := 1
  const MaxSchemaRound: int := 3

  /** `request.headers.get(name)`, with a missing header read as "" (both are falsy). */
  function Header(headers: map<string, string>, name: string): string {
    if name in headers then headers[name] else ""
  }

  /** `teamCode && userRole === "team_lead"`, from the headers the middleware forwards. */
  predicate IsLeader(headers: map<string, string>) {
    Header(headers, "x-team-code") != "" && Header(headers, "x-user-role") == "team_lead"
  }

  /** `!(now < startAt || now > endAt)`. */
  predicate InWindow(r: Rounds.Round, now: int) {
    r.startAt <= now <= r.endAt
  }

  predicate HasSubmission(subs: seq<Submission>, teamCode: string, round: int) {
    exists i :: 0 <= i < |subs| && subs[i].teamCode == teamCode && subs[i].round == round
  }

  /**
   * The route's answer, the guards taken in the route's order: the caller's
   * role and team code, the fields, an active round, its window at any
   * `now`, an earlier submission of the team; each failing guard gives its
   * own answer and the later ones are not consulted.
   */
  function Decide(headers: map<string, string>, round: int, fields: SubmissionFields, f: Formats,
                  rounds: seq<Rounds.Round>, subs: seq<Submission>, now: int): (resp: Response)
    ensures !IsLeader(headers) ==> resp == NotLeader
    ensures IsLeader(headers) && !SubmissionValid(f, fields) ==> resp == InternalError
    ensures IsLeader(headers) && SubmissionValid(f, fields) && Rounds.FindActive(rounds, round).None? ==>
              resp == RoundNotActive
    ensures IsLeader(headers) && SubmissionValid(f, fields) && Rounds.FindActive(rounds, round).Some? ==>
              && (!InWindow(Rounds.FindActive(rounds, round).value, now) ==> resp == WindowClosed)
              && ((InWindow(Rounds.FindActive(rounds, round).value, now)
                   && HasSubmission(subs, Header(headers, "x-team-code"), round)) ==> resp == AlreadyExists)
  {
    var teamCode := Header(headers, "x-team-code");
    if !IsLeader(headers) then NotLeader
    else if !SubmissionValid(f, fields) then InternalError
    else match Rounds.FindActive(rounds, round)
      case None => RoundNotActive
      case Some(r) =>
        if now < r.startAt || now > r.endAt then WindowClosed
        else if HasSubmission(subs, teamCode, round) then AlreadyExists
        else if !(MinSchemaRound <= round <= MaxSchemaRound) then InternalError
        else Created(Submission(teamCode, round, fields, Submitted))
  }

  /** At most one submission per (team, round). */
  predicate OnePerPair(subs: seq<Submission>) {
    forall i, j :: 0 <= i < j < |subs| ==>
      !(subs[i].teamCode == subs[j].teamCode && subs[i].round == subs[j].round)
  }

  class SubmissionCollection {
    var submissions: seq<Submission>

    constructor ()
      ensures submissions == []
    {
      submissions := [];
    }

    /** The route, given the Round collection it reads and the clock's `now`. */
    method Post(headers: map<string, string>, round: int, fields: SubmissionFields, f: Formats,
                rounds: seq<Rounds.Round>, now: int) returns (resp: Response)
      modifies this
      ensures resp == Decide(headers, round, fields, f, rounds, old(submissions), now)
      ensures resp.Created? ==> submissions == old(submissions) + [resp.submission]
      ensures !resp.Created? ==> submissions == old(submissions)
    {
      var teamCode := Header(headers, "x-team-code");
      var userRole := Header(headers, "x-user-role");
      if teamCode == "" || userRole != "team_lead" {
        return NotLeader;
      }
      if !SubmissionValid(f, fields) {
        return InternalError;
      }
      var roundDoc := Rounds.FindActive(rounds, round);
      if roundDoc.None? {
        return RoundNotActive;
      }
      if now < roundDoc.value.startAt || now > roundDoc.value.endAt {
        return WindowClosed;
      }
      if HasSubmission(submissions, teamCode, round) {
        return AlreadyExists;
      }
      var submission := Submission(teamCode, round, fields, Submitted);
      if !(MinSchemaRound <= round <= MaxSchemaRound) {
        return InternalError;
      }
      submissions := submissions + [submission];
      resp := Created(submission);
    }
  }

  /**
   * The gate, both ways: a submission is created exactly when the caller is
   * a leader with valid fields, an active round with that number is open at
   * `now`, the team has not submitted for it, and the schema takes the round
   * number; it then carries the caller's team code and status `submitted`.
   */
  lemma CreatedIff(headers: map<string, string>, round: int, fields: SubmissionFields, f: Formats,
                   rounds: seq<Rounds.Round>, subs: seq<Submission>, now: int)
    ensures var resp := Decide(headers, round, fields, f, rounds, subs, now);
      resp.Created? <==>
        && IsLeader(headers)
        && SubmissionValid(f, fields)
        && Rounds.FindActive(rounds, round).Some?
        && InWindow(Rounds.FindActive(rounds, round).value, now)
        && !HasSubmission(subs, Header(headers, "x-team-code"), round)
        && MinSchemaRound <= round <= MaxSchemaRound
    ensures var resp := Decide(headers, round, fields, f, rounds, subs, now);
      resp.Created? ==> resp.submission == Submission(Header(headers, "x-team-code"), round, fields, Submitted)
  {
  }

  /** Only a round that is active and open at `now` lets a submission in. */
  lemma CreatedOnlyInOpenRound(headers: map<string, string>, round: int, fields: SubmissionFields, f: Formats,
                               rounds: seq<Rounds.Round>, subs: seq<Submission>, now: int)
    requires Decide(headers, round, fields, f, rounds, subs, now).Created?
    ensures exists i :: 0 <= i < |rounds| && rounds[i].round == round && rounds[i].isActive
                        && rounds[i].startAt <= now <= rounds[i].endAt
  {
    var r := Rounds.FindActive(rounds, round).value;
    var i :| 0 <= i < |rounds| && rounds[i] == r;
  }

  /** The window is closed on neither end: `now == startAt` and `now == endAt` pass, one past `endAt` does not. */
  lemma WindowInclusive(headers: map<string, string>, round: int, fields: SubmissionFields, f: Formats,
                        rounds: seq<Rounds.Round>, subs: seq<Submission>)
    requires IsLeader(headers) && SubmissionValid(f, fields) && Rounds.FindActive(rounds, round).Some?
    requires Rounds.FindActive(rounds, round).value.startAt <= Rounds.FindActive(rounds, round).value.endAt
    ensures var r := Rounds.FindActive(rounds, round).value;
      && Decide(headers, round, fields, f, rounds, subs, r.startAt) != WindowClosed
      && Decide(headers, round, fields, f, rounds, subs, r.endAt) != WindowClosed
      && Decide(headers, round, fields, f, rounds, subs, r.endAt + 1) == WindowClosed
      && Decide(headers, round, fields, f, rounds, subs, r.startAt - 1) == WindowClosed
  {
  }

  /** Accepting a submission keeps at most one per (team, round). */
  lemma CreateKeepsOnePerPair(headers: map<string, string>, round: int, fields: SubmissionFields, f: Formats,
                              rounds: seq<Rounds.Round>, subs: seq<Submission>, now: int)
    requires OnePerPair(subs)
    requires Decide(headers, round, fields, f, rounds, subs, now).Created?
    ensures OnePerPair(subs + [Decide(headers, round, fields, f, rounds, subs, now).submission])
  {
    var s := Decide(headers, round, fields, f, rounds, subs, now).submission;
    var all := subs + [s];
    forall i, j | 0 <= i < j < |all|
      ensures !(all[i].teamCode == all[j].teamCode && all[i].round == all[j].round)
    {
      if j == |subs| {
        assert all[i] == subs[i];
      }
    }
  }
}
