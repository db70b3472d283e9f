/**
 * POST /api/admin/rounds (src/app/api/admin/rounds/route.ts): an
 * administrator opens a submission round. The Round collection's unique
 * index on the round number (src/models/Round.ts) rejects a second round
 * with the same number; the route reports that as an internal error.
 */
module Rounds {
  import opened Wrappers
  import opened Auth

  /** A Round document; timestamps are integers. */
  datatype Round = Round(round: int, name: string, startAt: int, endAt: int, isActive: bool)

  /**
   * The request body. `startAt`/`endAt` are `None` when `z.coerce.date()`
   * yields an invalid date.
   */
  datatype Body = Body(round: real, name: string, startAt: Option<int>, endAt: Option<int>, isActive: Option<bool>)

  /** `RoundSchema`. */
  predicate BodyValid(b: Body) {
    && b.round == b.round.Floor as real && b.round > 0.0
    && |b.name| >= 1
    && b.startAt.Some? && b.endAt.Some?
  }

  datatype Response =
    | Forbidden             // 403
    | ValidationFailed      // 400, a ZodError
    | EndNotAfterStart      // 400 "endAt must be after startAt"
    | InternalError         // 500, here the duplicate round number
    | Created(round: Round) // 201

  predicate NumberTaken(rounds: seq<Round>, n: int) {
    exists i :: 0 <= i < |rounds| && rounds[i].round == n
  }

  /** The document `Round.create` receives: `isActive` defaults to true. */
  function NewRound(b: Body): (r: Round)
    requires BodyValid(b)
    ensures r.isActive == (b.isActive != Some(false))
  {
    Round(b.round.Floor, b.name, b.startAt.value, b.endAt.value,
          if b.isActive.Some? then b.isActive.value else true)
  }

  class RoundCollection {
    var rounds: seq<Round>

    /** Every round has a positive number, a non-empty window, and its own number. */
    ghost predicate Valid()
      reads this
    {
      && (forall i :: 0 <= i < |rounds| ==> rounds[i].round >= 1 && rounds[i].startAt < rounds[i].endAt)
      && (forall i, j :: 0 <= i < j < |rounds| ==> rounds[i].round != rounds[j].round)
    }

    constructor ()
      ensures Valid() && rounds == []
    {
      rounds := [];
    }

    method Post(req: Request, verify: Verifier, body: Body) returns (resp: Response)
      requires Valid()
      modifies this
      ensures Valid()
      ensures !IsAdmin(Caller(req, verify)) ==> resp == Forbidden
      ensures IsAdmin(Caller(req, verify)) && !BodyValid(body) ==> resp == ValidationFailed
      ensures IsAdmin(Caller(req, verify)) && BodyValid(body) ==>
                if body.endAt.value <= body.startAt.value then resp == EndNotAfterStart
                else if NumberTaken(old(rounds), body.round.Floor) then resp == InternalError
                else resp == Created(NewRound(body))
      ensures resp.Created? ==> rounds == old(rounds) + [resp.round]
      ensures !resp.Created? ==> rounds == old(rounds)
    {
      if !IsAdmin(Caller(req, verify)) {
        return Forbidden;
      }
      if !BodyValid(body) {
        return ValidationFailed;
      }
      if body.endAt.value <= body.startAt.value {
        return EndNotAfterStart;
      }
      var r := NewRound(body);
      // The unique index on `round` makes the insert fail with a duplicate-key error.
      if NumberTaken(rounds, r.round) {
        return InternalError;
      }
      rounds := rounds + [r];
      resp := Created(r);
    }
  }

  /** `Round.findOne({ round, isActive: true })`: the first active round with that number. */
  function FindActive(rounds: seq<Round>, n: int): (r: Option<Round>)
    ensures r.Some? ==> r.value in rounds && r.value.round == n && r.value.isActive
    ensures r.None? ==> forall i :: 0 <= i < |rounds| ==> !(rounds[i].round == n && rounds[i].isActive)
  {
    if rounds == [] then None
    else if rounds[0].round == n && rounds[0].isActive then Some(rounds[0])
    else FindActive(rounds[1..], n)
  }
}
