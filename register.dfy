/**
 * POST /api/auth/register (src/app/api/auth/register/route.ts): a team
 * leader registers the team. The route validates the body, refuses a lead
 * email already held by a user, refuses repeated emails within the team
 * (compared lower-cased), draws team codes until one is free, and then saves
 * the leader, the members and the Team document, every email lower-cased.
 *
 * Only the lead email is checked against existing users. A member email
 * that already belongs to a user makes that member's save fail on the
 * unique index after the leader has been saved, so the route answers
 * "Team code or email already exists" but leaves the new leader (and the
 * members that did save) behind without a team.
 *
 * `generateTeamCode` is random: its successive results are the parameter
 * `draws`, of which at least one must be free, or the route never ends.
 * Password hashing is not modelled.
 */
module Registration {
  import opened Wrappers
  import opened Text
  import opened Validation
  import opened TeamModel

  datatype Response =
    | InternalError                          // 500, a ZodError among others
    | EmailRegistered                        // 400 "Email already registered"
    | DuplicateEmails                        // 400 "Duplicate email addresses found"
    | DuplicateKey                           // 400 "Team code or email already exists"
    | Created(teamCode: string, teamName: string)  // 201

  /** The response together with the User and Team collections after the call. */
  datatype Outcome = Outcome(resp: Response, users: seq<User>, teams: seq<Team>)

  predicate EmailTaken(users: seq<User>, e: string) {
    exists i :: 0 <= i < |users| && users[i].email == e
  }

  predicate CodeTaken(teams: seq<Team>, code: string) {
    exists i :: 0 <= i < |teams| && teams[i].teamCode == code
  }

  function LowerEmails(ms: seq<MemberInput>): (es: seq<string>)
    ensures |es| == |ms|
    ensures forall i :: 0 <= i < |ms| ==> es[i] == Lower(ms[i].email)
  {
    seq(|ms|, i requires 0 <= i < |ms| => Lower(ms[i].email))
  }

  /** `[lead, ...members].map(e => e.toLowerCase())`. */
  function AllEmails(r: RegisterInput): (es: seq<string>)
    ensures |es| == 1 + |r.members|
    ensures es[0] == Lower(r.leadEmail)
    ensures forall i :: 0 <= i < |r.members| ==> es[i + 1] == Lower(r.members[i].email)
  {
    [Lower(r.leadEmail)] + LowerEmails(r.members)
  }

  /** `new Set(xs).size !== xs.length`. */
  predicate SetSizeDiffers(xs: seq<string>) {
    |set x | x in xs| != |xs|
  }

  /** No value occurs twice. */
  predicate Distinct(xs: seq<string>) {
    forall i, j :: 0 <= i < j < |xs| ==> xs[i] != xs[j]
  }

  lemma {:induction false} SetSizeAtMost(xs: seq<string>)
    ensures |set x | x in xs| <= |xs|
  {
    if xs != [] {
      SetSizeAtMost(xs[1..]);
      assert (set x | x in xs) == {xs[0]} + (set x | x in xs[1..]);
    }
  }

  lemma DistinctCons(xs: seq<string>)
    requires xs != []
    ensures Distinct(xs) <==> xs[0] !in xs[1..] && Distinct(xs[1..])
  {
    if xs[0] in xs[1..] {
      var j :| 0 <= j < |xs[1..]| && xs[1..][j] == xs[0];
      assert xs[0] == xs[j + 1];
    }
    if !Distinct(xs[1..]) {
      var i, j :| 0 <= i < j < |xs[1..]| && xs[1..][i] == xs[1..][j];
      assert xs[i + 1] == xs[j + 1];
    }
    if xs[0] !in xs[1..] && Distinct(xs[1..]) {
      forall i, j | 0 <= i < j < |xs| ensures xs[i] != xs[j] {
        assert xs[j] == xs[1..][j - 1];
        if i > 0 {
          assert xs[i] == xs[1..][i - 1];
        }
      }
    }
  }

  /** The Set-size test finds a repeat exactly when there is one. */
  lemma {:induction false} SetSizeIffDistinct(xs: seq<string>)
    ensures !SetSizeDiffers(xs) <==> Distinct(xs)
  {
    if xs != [] {
      var rest := set x | x in xs[1..];
      assert (set x | x in xs) == {xs[0]} + rest;
      assert xs[0] in rest <==> xs[0] in xs[1..];
      SetSizeIffDistinct(xs[1..]);
      SetSizeAtMost(xs[1..]);
      DistinctCons(xs);
    }
  }

  /** The members' emails are distinct and none is the leader's. */
  predicate TeamEmailsDistinct(r: RegisterInput) {
    && Distinct(LowerEmails(r.members))
    && forall j :: 0 <= j < |r.members| ==> Lower(r.members[j].email) != Lower(r.leadEmail)
  }

  /** The generator eventually draws a code no team holds. */
  predicate SomeDrawFree(draws: seq<string>, teams: seq<Team>) {
    exists w :: 0 <= w < |draws| && !CodeTaken(teams, draws[w])
  }

  /** Where the regeneration loop stops: the first free draw. */
  function FirstFree(draws: seq<string>, teams: seq<Team>): (k: nat)
    requires SomeDrawFree(draws, teams)
    ensures k < |draws| && !CodeTaken(teams, draws[k])
    ensures forall j :: 0 <= j < k ==> CodeTaken(teams, draws[j])
  {
    if !CodeTaken(teams, draws[0]) then 0
    else
      var w :| 0 <= w < |draws| && !CodeTaken(teams, draws[w]);
      assert 0 <= w - 1 < |draws[1..]| && draws[1..][w - 1] == draws[w];
      1 + FirstFree(draws[1..], teams)
  }

  function LeaderUser(r: RegisterInput, code: string): User {
    User(r.leadName, Lower(r.leadEmail), r.leadRollNo, TeamLead, code)
  }

  function MemberUser(m: MemberInput, code: string): User {
    User(m.name, Lower(m.email), m.rollNo, TeamMember, code)
  }

  function TeamDoc(r: RegisterInput, code: string): Team {
    Team(code, r.teamName, Member(r.leadName, Lower(r.leadEmail), r.leadRollNo),
         seq(|r.members|, i requires 0 <= i < |r.members| =>
           Member(r.members[i].name, Lower(r.members[i].email), r.members[i].rollNo)))
  }

  /** The member users whose save succeeds: those whose email no earlier user holds. */
  function SavedMembers(users: seq<User>, ms: seq<MemberInput>, code: string): seq<User> {
    if ms == [] then []
    else
      (if EmailTaken(users, Lower(ms[0].email)) then [] else [MemberUser(ms[0], code)])
      + SavedMembers(users, ms[1..], code)
  }

  predicate AnyMemberTaken(users: seq<User>, ms: seq<MemberInput>) {
    exists i :: 0 <= i < |ms| && EmailTaken(users, Lower(ms[i].email))
  }

  /** What the route does, as written. */
  function Register(users: seq<User>, teams: seq<Team>, f: Formats, r: RegisterInput, draws: seq<string>): (o: Outcome)
    requires SomeDrawFree(draws, teams)
    ensures !o.resp.Created? ==> o.teams == teams
  {
    if !RegisterValid(f, r) then Outcome(InternalError, users, teams)
    else if EmailTaken(users, Lower(r.leadEmail)) then Outcome(EmailRegistered, users, teams)
    else if SetSizeDiffers(AllEmails(r)) then Outcome(DuplicateEmails, users, teams)
    else
      var code := draws[FirstFree(draws, teams)];
      var saved := users + [LeaderUser(r, code)] + SavedMembers(users, r.members, code);
      if AnyMemberTaken(users, r.members) then Outcome(DuplicateKey, saved, teams)
      else Outcome(Created(code, r.teamName), saved, teams + [TeamDoc(r, code)])
  }

  /**
   * The rejections before anything is written: an invalid body (the Zod
   * error reaches the generic handler), a lead email some user already
   * holds, and an email that occurs twice in the team. Each leaves both
   * collections as they were.
   */
  lemma RegisterRejections(users: seq<User>, teams: seq<Team>, f: Formats, r: RegisterInput, draws: seq<string>)
    requires SomeDrawFree(draws, teams)
    ensures var o := Register(users, teams, f, r, draws);
      && (!RegisterValid(f, r) ==> o == Outcome(InternalError, users, teams))
      && (RegisterValid(f, r) && EmailTaken(users, Lower(r.leadEmail)) ==>
            o == Outcome(EmailRegistered, users, teams))
      && (RegisterValid(f, r) && !EmailTaken(users, Lower(r.leadEmail)) && !Distinct(AllEmails(r)) ==>
            o == Outcome(DuplicateEmails, users, teams))
  {
    SetSizeIffDistinct(AllEmails(r));
  }

  /** A registration, complete or failed halfway, only appends: no stored user or team is removed or altered. */
  lemma RegisterOnlyAppends(users: seq<User>, teams: seq<Team>, f: Formats, r: RegisterInput, draws: seq<string>)
    requires SomeDrawFree(draws, teams)
    ensures var o := Register(users, teams, f, r, draws);
      users <= o.users && teams <= o.teams
  {
  }

  class Registry {
    var users: seq<User>
    var teams: seq<Team>

    constructor ()
      ensures users == [] && teams == []
    {
      users := [];
      teams := [];
    }

    /** The regeneration loop: codes are drawn until no team holds one. */
    method DrawCode(draws: seq<string>) returns (code: string)
      requires SomeDrawFree(draws, teams)
      ensures !CodeTaken(teams, code)
      ensures code == draws[FirstFree(draws, teams)]
    {
      var k := 0;
      code := draws[0];
      while CodeTaken(teams, code)
        invariant 0 <= k < |draws| && code == draws[k]
        invariant forall j :: 0 <= j < k ==> CodeTaken(teams, draws[j])
        decreases |draws| - k
      {
        k := k + 1;
        code := draws[k];
      }
      var ff := FirstFree(draws, teams);
      assert !(k < ff) && !(ff < k);
    }

    /** One member's save: it fails exactly when a user from before the request holds the email. */
    method SaveMember(ghost before: seq<User>, body: RegisterInput, code: string, i: nat) returns (saved: bool)
      requires i < |body.members| && TeamEmailsDistinct(body)
      requires users == before + [LeaderUser(body, code)] + SavedMembers(before, body.members[..i], code)
      modifies this
      ensures saved <==> !EmailTaken(before, Lower(body.members[i].email))
      ensures users == old(users) + (if saved then [MemberUser(body.members[i], code)] else [])
      ensures teams == old(teams)
    {
      var m := body.members[i];
      TakenNow(before, body, code, i);
      saved := !EmailTaken(users, Lower(m.email));
      if saved {
        users := users + [MemberUser(m, code)];
      }
    }

    /**
     * `Promise.all` over the member saves: every save runs, and the one
     * whose email a user already holds fails on the unique index.
     */
    method SaveMembers(ghost before: seq<User>, body: RegisterInput, code: string) returns (failed: bool)
      requires TeamEmailsDistinct(body)
      requires users == before + [LeaderUser(body, code)]
      modifies this
      ensures users == old(users) + SavedMembers(before, body.members, code)
      ensures failed <==> AnyMemberTaken(before, body.members)
      ensures teams == old(teams)
    {
      ghost var head := users;
      failed := false;
      var i := 0;
      while i < |body.members|
        invariant 0 <= i <= |body.members|
        invariant users == head + SavedMembers(before, body.members[..i], code)
        invariant failed <==> AnyMemberTaken(before, body.members[..i])
        invariant teams == old(teams)
      {
        ghost var prefix := body.members[..i];
        var m := body.members[i];
        assert body.members[..i + 1] == prefix + [m];
        SavedMembersSnoc(before, prefix, m, code);
        AnyMemberTakenSnoc(before, prefix, m);
        ghost var savedBefore := SavedMembers(before, prefix, code);
        var ok := SaveMember(before, body, code, i);
        if !ok {
          failed := true;
        } else {
          assert users == head + (savedBefore + [MemberUser(m, code)]);
        }
        i := i + 1;
      }
      assert body.members[..i] == body.members;
    }

    method Post(f: Formats, body: RegisterInput, draws: seq<string>) returns (resp: Response)
      requires SomeDrawFree(draws, teams)
      modifies this
      ensures Outcome(resp, users, teams) == Register(old(users), old(teams), f, body, draws)
    {
      if !RegisterValid(f, body) {
        return InternalError;
      }
      if EmailTaken(users, Lower(body.leadEmail)) {
        return EmailRegistered;
      }
      var allEmails := AllEmails(body);
      if |set e | e in allEmails| != |allEmails| {
        return DuplicateEmails;
      }
      SetSizeIffDistinct(allEmails);
      MemberEmailsDistinct(body);
      var teamCode := DrawCode(draws);
      var team := TeamDoc(body, teamCode);
      ghost var before := users;
      users := users + [LeaderUser(body, teamCode)];
      var failed := SaveMembers(before, body, teamCode);
      if failed {
        return DuplicateKey;
      }
      teams := teams + [team];
      resp := Created(teamCode, body.teamName);
    }
  }

  lemma AnyMemberTakenSnoc(users: seq<User>, ms: seq<MemberInput>, m: MemberInput)
    ensures AnyMemberTaken(users, ms + [m]) <==> AnyMemberTaken(users, ms) || EmailTaken(users, Lower(m.email))
  {
    if EmailTaken(users, Lower(m.email)) {
      assert (ms + [m])[|ms|] == m;
    }
    if AnyMemberTaken(users, ms) {
      var i :| 0 <= i < |ms| && EmailTaken(users, Lower(ms[i].email));
      assert (ms + [m])[i] == ms[i];
    }
  }

  lemma {:induction false} SavedMembersSnoc(users: seq<User>, ms: seq<MemberInput>, m: MemberInput, code: string)
    ensures SavedMembers(users, ms + [m], code)
            == SavedMembers(users, ms, code) + (if EmailTaken(users, Lower(m.email)) then [] else [MemberUser(m, code)])
  {
    if ms != [] {
      assert (ms + [m])[1..] == ms[1..] + [m];
      SavedMembersSnoc(users, ms[1..], m, code);
    }
  }

  lemma {:induction false} SavedMembersAvoid(users: seq<User>, ms: seq<MemberInput>, code: string, e: string)
    requires forall j :: 0 <= j < |ms| ==> Lower(ms[j].email) != e
    ensures forall u :: u in SavedMembers(users, ms, code) ==> u.email != e
  {
    if ms != [] {
      assert Lower(ms[0].email) != e;
      SavedMembersAvoid(users, ms[1..], code, e);
    }
  }

  /**
   * While member `i` is saved, the unique index sees the users from before
   * the request, the new leader and the members saved so far; since the
   * team's emails are distinct, only the users from before can clash.
   */
  lemma TakenNow(before: seq<User>, r: RegisterInput, code: string, i: nat)
    requires i < |r.members| && TeamEmailsDistinct(r)
    ensures EmailTaken(before + [LeaderUser(r, code)] + SavedMembers(before, r.members[..i], code), Lower(r.members[i].email))
            <==> EmailTaken(before, Lower(r.members[i].email))
  {
    var e := Lower(r.members[i].email);
    var es := LowerEmails(r.members);
    var ms := r.members[..i];
    forall j | 0 <= j < |ms| ensures Lower(ms[j].email) != e {
      assert es[j] != es[i];
    }
    SavedMembersAvoid(before, ms, code, e);
    var saved := SavedMembers(before, ms, code);
    var now := before + [LeaderUser(r, code)] + saved;
    forall p | |before| <= p < |now| ensures now[p].email != e {
      if p > |before| {
        assert now[p] == saved[p - |before| - 1];
      }
    }
    if EmailTaken(before, e) {
      var p :| 0 <= p < |before| && before[p].email == e;
      assert now[p] == before[p];
    }
    if EmailTaken(now, e) {
      var p :| 0 <= p < |now| && now[p].email == e;
      assert before[p] == now[p];
    }
  }


  // ---------------------------------------------------------------------
  // Properties of a registration

  function MemberUsers(ms: seq<MemberInput>, code: string): seq<User> {
    seq(|ms|, i requires 0 <= i < |ms| => MemberUser(ms[i], code))
  }

  /** The users a complete registration adds: the leader, then the members in order. */
  function NewUsers(r: RegisterInput, code: string): seq<User> {
    [LeaderUser(r, code)] + MemberUsers(r.members, code)
  }

  lemma {:induction false} SavedMembersAll(users: seq<User>, ms: seq<MemberInput>, code: string)
    requires !AnyMemberTaken(users, ms)
    ensures SavedMembers(users, ms, code) == MemberUsers(ms, code)
  {
    if ms != [] {
      assert !EmailTaken(users, Lower(ms[0].email));
      forall i | 0 <= i < |ms[1..]| ensures !EmailTaken(users, Lower(ms[1..][i].email)) {
        assert ms[1..][i] == ms[i + 1];
      }
      SavedMembersAll(users, ms[1..], code);
      assert MemberUsers(ms, code) == [MemberUser(ms[0], code)] + MemberUsers(ms[1..], code);
    }
  }

  /**
   * A team is created exactly when the body is valid, no email of the team
   * is repeated and none is already held by a user.
   */
  lemma CreatedIff(users: seq<User>, teams: seq<Team>, f: Formats, r: RegisterInput, draws: seq<string>)
    requires SomeDrawFree(draws, teams)
    ensures Register(users, teams, f, r, draws).resp.Created?
            <==> RegisterValid(f, r) && Distinct(AllEmails(r))
                 && !EmailTaken(users, Lower(r.leadEmail)) && !AnyMemberTaken(users, r.members)
  {
    SetSizeIffDistinct(AllEmails(r));
  }

  /**
   * A created team has a code no team held before, drawn from the
   * generator; the Team document and the leader and member users are
   * appended and nothing else changes.
   */
  lemma CreatedWrites(users: seq<User>, teams: seq<Team>, f: Formats, r: RegisterInput, draws: seq<string>)
    requires SomeDrawFree(draws, teams)
    requires Register(users, teams, f, r, draws).resp.Created?
    ensures var o := Register(users, teams, f, r, draws);
            var code := o.resp.teamCode;
            && code in draws && !CodeTaken(teams, code)
            && o.resp.teamName == r.teamName
            && o.teams == teams + [TeamDoc(r, code)]
            && o.users == users + NewUsers(r, code)
  {
    assert RegisterValid(f, r) && !EmailTaken(users, Lower(r.leadEmail));
    assert !SetSizeDiffers(AllEmails(r)) && !AnyMemberTaken(users, r.members);
    RegisterWhenClear(users, teams, f, r, draws);
  }

  /** The success path once every check has passed. */
  lemma RegisterWhenClear(users: seq<User>, teams: seq<Team>, f: Formats, r: RegisterInput, draws: seq<string>)
    requires SomeDrawFree(draws, teams)
    requires RegisterValid(f, r) && !EmailTaken(users, Lower(r.leadEmail))
    requires !SetSizeDiffers(AllEmails(r)) && !AnyMemberTaken(users, r.members)
    ensures var code := draws[FirstFree(draws, teams)];
      Register(users, teams, f, r, draws)
        == Outcome(Created(code, r.teamName), users + NewUsers(r, code), teams + [TeamDoc(r, code)])
  {
    var code := draws[FirstFree(draws, teams)];
    SavedMembersAll(users, r.members, code);
    assert users + [LeaderUser(r, code)] + MemberUsers(r.members, code) == users + NewUsers(r, code);
  }

  /**
   * The new users: the leader first as team lead, then each member as team
   * member, all with the team's code, their emails lower-cased and equal to
   * the emails stored in the Team document.
   */
  lemma {:induction false} NewUsersShape(r: RegisterInput, code: string)
    ensures var us := NewUsers(r, code);
            var t := TeamDoc(r, code);
            && |us| == 1 + |r.members| == 1 + |t.members|
            && us[0].role == TeamLead && us[0].email == t.leader.email
            && (forall k :: 1 <= k < |us| ==> us[k].role == TeamMember && us[k].email == t.members[k - 1].email)
            && (forall k :: 0 <= k < |us| ==> us[k].teamCode == code && us[k].email == AllEmails(r)[k])
            && (forall k :: 0 <= k < |us| ==> Lower(us[k].email) == us[k].email)
  {
    var us := NewUsers(r, code);
    forall k | 0 <= k < |us| ensures Lower(us[k].email) == us[k].email {
      if k == 0 {
        LowerIdempotent(r.leadEmail);
      } else {
        LowerIdempotent(r.members[k - 1].email);
      }
    }
  }

  predicate EmailsUnique(users: seq<User>) {
    forall i, j :: 0 <= i < j < |users| ==> users[i].email != users[j].email
  }

  predicate CodesUnique(teams: seq<Team>) {
    forall i, j :: 0 <= i < j < |teams| ==> teams[i].teamCode != teams[j].teamCode
  }

  lemma {:induction false} SavedMembersFree(users: seq<User>, ms: seq<MemberInput>, code: string)
    ensures forall u :: u in SavedMembers(users, ms, code) ==> !EmailTaken(users, u.email)
  {
    if ms != [] {
      SavedMembersFree(users, ms[1..], code);
    }
  }

  lemma {:induction false} SavedMembersUnique(users: seq<User>, ms: seq<MemberInput>, code: string)
    requires Distinct(LowerEmails(ms))
    ensures EmailsUnique(SavedMembers(users, ms, code))
  {
    if ms != [] {
      var es := LowerEmails(ms);
      forall i, j | 0 <= i < j < |ms[1..]| ensures LowerEmails(ms[1..])[i] != LowerEmails(ms[1..])[j] {
        assert es[i + 1] != es[j + 1];
      }
      SavedMembersUnique(users, ms[1..], code);
      forall j | 0 <= j < |ms[1..]| ensures Lower(ms[1..][j].email) != Lower(ms[0].email) {
        assert es[0] != es[j + 1];
      }
      SavedMembersAvoid(users, ms[1..], code, Lower(ms[0].email));
    }
  }

  /** Adding users whose emails are distinct and free keeps user emails unique. */
  lemma AppendKeepsEmailsUnique(users: seq<User>, added: seq<User>)
    requires EmailsUnique(users) && EmailsUnique(added)
    requires forall u :: u in added ==> !EmailTaken(users, u.email)
    ensures EmailsUnique(users + added)
  {
    var all := users + added;
    forall i, j | 0 <= i < j < |all| ensures all[i].email != all[j].email {
      if j >= |users| && i < |users| {
        assert all[j] in added;
        assert users[i] == all[i];
      } else if i >= |users| {
        assert all[i] == added[i - |users|] && all[j] == added[j - |users|];
      }
    }
  }

  /** Distinct team emails: the members' are distinct, and none is the leader's. */
  lemma MemberEmailsDistinct(r: RegisterInput)
    requires Distinct(AllEmails(r))
    ensures TeamEmailsDistinct(r)
  {
    var es := AllEmails(r);
    assert es[1..] == LowerEmails(r.members);
    DistinctSplit(es);
    forall j | 0 <= j < |r.members| ensures Lower(r.members[j].email) != Lower(r.leadEmail) {
      assert es[1..][j] == Lower(r.members[j].email);
    }
  }

  /** A repetition-free list: its tail is repetition-free and its head is not in the tail. */
  lemma DistinctSplit(xs: seq<string>)
    requires xs != [] && Distinct(xs)
    ensures Distinct(xs[1..])
    ensures forall k :: 0 <= k < |xs[1..]| ==> xs[1..][k] != xs[0]
  {
    forall i, j | 0 <= i < j < |xs[1..]| ensures xs[1..][i] != xs[1..][j] {
      assert xs[1..][i] == xs[i + 1] && xs[1..][j] == xs[j + 1];
    }
    forall k | 0 <= k < |xs[1..]| ensures xs[1..][k] != xs[0] {
      assert xs[1..][k] == xs[k + 1];
    }
  }

  /** The leader and the members that save have distinct emails. */
  lemma SavedUsersDistinct(users: seq<User>, r: RegisterInput, code: string)
    requires Distinct(AllEmails(r))
    ensures EmailsUnique([LeaderUser(r, code)] + SavedMembers(users, r.members, code))
  {
    var saved := SavedMembers(users, r.members, code);
    MemberEmailsDistinct(r);
    SavedMembersUnique(users, r.members, code);
    SavedMembersAvoid(users, r.members, code, Lower(r.leadEmail));
    var added := [LeaderUser(r, code)] + saved;
    forall i, j | 0 <= i < j < |added| ensures added[i].email != added[j].email {
      if i == 0 {
        assert added[j] in saved;
      } else {
        assert added[i] == saved[i - 1] && added[j] == saved[j - 1];
      }
    }
  }

  /** No user holds the email of the leader or of a member that saves. */
  lemma SavedUsersFresh(users: seq<User>, r: RegisterInput, code: string)
    requires !EmailTaken(users, Lower(r.leadEmail))
    ensures forall u :: u in [LeaderUser(r, code)] + SavedMembers(users, r.members, code) ==> !EmailTaken(users, u.email)
  {
    SavedMembersFree(users, r.members, code);
  }

  /** The leader and the members that save join the users without clashing. */
  lemma SavingKeepsEmailsUnique(users: seq<User>, r: RegisterInput, code: string)
    requires EmailsUnique(users) && Distinct(AllEmails(r)) && !EmailTaken(users, Lower(r.leadEmail))
    ensures EmailsUnique(users + [LeaderUser(r, code)] + SavedMembers(users, r.members, code))
  {
    var added := [LeaderUser(r, code)] + SavedMembers(users, r.members, code);
    SavedUsersDistinct(users, r, code);
    SavedUsersFresh(users, r, code);
    AppendKeepsEmailsUnique(users, added);
    assert users + [LeaderUser(r, code)] + SavedMembers(users, r.members, code) == users + added;
  }

  /** No registration, complete or not, gives two users the same email. */
  lemma RegisterKeepsEmailsUnique(users: seq<User>, teams: seq<Team>, f: Formats, r: RegisterInput, draws: seq<string>)
    requires SomeDrawFree(draws, teams) && EmailsUnique(users)
    ensures EmailsUnique(Register(users, teams, f, r, draws).users)
  {
    var es := AllEmails(r);
    if RegisterValid(f, r) && !EmailTaken(users, es[0]) && !SetSizeDiffers(es) {
      SetSizeIffDistinct(es);
      SavingKeepsEmailsUnique(users, r, draws[FirstFree(draws, teams)]);
    }
  }

  /** No registration gives two teams the same code. */
  lemma RegisterKeepsCodesUnique(users: seq<User>, teams: seq<Team>, f: Formats, r: RegisterInput, draws: seq<string>)
    requires SomeDrawFree(draws, teams) && CodesUnique(teams)
    ensures CodesUnique(Register(users, teams, f, r, draws).teams)
  {
    var o := Register(users, teams, f, r, draws);
    if o.teams != teams {
      var code := draws[FirstFree(draws, teams)];
      assert o.teams == teams + [TeamDoc(r, code)];
      forall i, j | 0 <= i < j < |o.teams| ensures o.teams[i].teamCode != o.teams[j].teamCode {
        if j == |teams| {
          assert o.teams[i] == teams[i];
        }
      }
    }
  }

  // ---------------------------------------------------------------------
  // Finding: a member email already held by a user leaves an orphan leader

  /** Every team lead and team member belongs to a stored team. */
  predicate MembersHaveTeams(users: seq<User>, teams: seq<Team>) {
    forall i :: 0 <= i < |users| && users[i].role in {TeamLead, TeamMember} ==> CodeTaken(teams, users[i].teamCode)
  }

  // The counterexample: an existing team "OLD" whose member "a@x" is named
  // again as a member of a new team led by "b@x".
  const OldMember: User := User("Ann", "a@x", "100001", TeamMember, "OLD")
  const OldTeam: Team := Team("OLD", "Old", Member("Zed", "z@x", "100009"), [Member("Ann", "a@x", "100001")])
  const AnyFormat: Formats := Formats(s => true, s => true)
  const ClashingBody: RegisterInput :=
    RegisterInput("Bob", "b@x", "200002", "secret", "New", [MemberInput("Ann", "a@x", "100001")])

  lemma ClashingEmails()
    ensures AllEmails(ClashingBody) == ["b@x", "a@x"]
  {
    LowerFixesLowerCase("a@x");
    LowerFixesLowerCase("b@x");
  }

  lemma ClashingBodyFacts()
    ensures RegisterValid(AnyFormat, ClashingBody)
    ensures AllEmails(ClashingBody) == ["b@x", "a@x"] && !SetSizeDiffers(AllEmails(ClashingBody))
    ensures LeaderUser(ClashingBody, "NEW") == User("Bob", "b@x", "200002", TeamLead, "NEW")
  {
    assert MemberValid(AnyFormat, ClashingBody.members[0]);
    ClashingEmails();
    var es := AllEmails(ClashingBody);
    assert Distinct(es) by {
      assert es[0] != es[1];
    }
    SetSizeIffDistinct(es);
  }

  lemma ClashingStoreFacts()
    ensures SomeDrawFree(["NEW"], [OldTeam]) && FirstFree(["NEW"], [OldTeam]) == 0
    ensures MembersHaveTeams([OldMember], [OldTeam])
    ensures !EmailTaken([OldMember], "b@x") && EmailTaken([OldMember], "a@x")
  {
    assert [OldTeam][0].teamCode == "OLD";
    assert ["NEW"][0] == "NEW";
    assert [OldMember][0].email == "a@x";
  }

  /**
   * As written: when a member email already belongs to a user, the route
   * answers "Team code or email already exists", yet the leader has been
   * stored with a team code no team holds.
   */
  lemma MemberClashLeavesLeader(users: seq<User>, teams: seq<Team>, f: Formats, r: RegisterInput, draws: seq<string>)
    requires SomeDrawFree(draws, teams)
    requires RegisterValid(f, r) && !EmailTaken(users, Lower(r.leadEmail)) && !SetSizeDiffers(AllEmails(r))
    requires AnyMemberTaken(users, r.members)
    ensures var o := Register(users, teams, f, r, draws);
            var leader := LeaderUser(r, draws[FirstFree(draws, teams)]);
            && o.resp == DuplicateKey
            && o.teams == teams
            && o.users[|users|] == leader
            && leader.role == TeamLead && !CodeTaken(o.teams, leader.teamCode)
  {
    var code := draws[FirstFree(draws, teams)];
    var saved := users + [LeaderUser(r, code)] + SavedMembers(users, r.members, code);
    assert Register(users, teams, f, r, draws) == Outcome(DuplicateKey, saved, teams);
    assert saved[|users|] == LeaderUser(r, code);
  }

  /** The clash on a concrete store: the new leader "b@x" ends up without a team. */
  lemma OrphanLeader()
    ensures SomeDrawFree(["NEW"], [OldTeam])
    ensures MembersHaveTeams([OldMember], [OldTeam])
    ensures var o := Register([OldMember], [OldTeam], AnyFormat, ClashingBody, ["NEW"]);
            && o.resp == DuplicateKey
            && o.users[1] == User("Bob", "b@x", "200002", TeamLead, "NEW")
            && !MembersHaveTeams(o.users, o.teams)
  {
    ClashingBodyFacts();
    ClashingStoreFacts();
    assert AnyMemberTaken([OldMember], ClashingBody.members) by {
      assert Lower(ClashingBody.members[0].email) == AllEmails(ClashingBody)[1];
    }
    MemberClashLeavesLeader([OldMember], [OldTeam], AnyFormat, ClashingBody, ["NEW"]);
    var o := Register([OldMember], [OldTeam], AnyFormat, ClashingBody, ["NEW"]);
    assert o.users[1] == User("Bob", "b@x", "200002", TeamLead, "NEW");
    assert o.users[1].role in {TeamLead, TeamMember} && !CodeTaken(o.teams, o.users[1].teamCode);
  }

  /** Some email of the team is already held by a user. */
  predicate AnyEmailTaken(users: seq<User>, es: seq<string>) {
    exists i :: 0 <= i < |es| && EmailTaken(users, es[i])
  }

  /**
   * Corrected: every email of the team, not only the leader's, is checked
   * before anything is saved, so a registration either stores the whole
   * team or changes nothing.
   */
  function RegisterAtomic(users: seq<User>, teams: seq<Team>, f: Formats, r: RegisterInput, draws: seq<string>): (o: Outcome)
    requires SomeDrawFree(draws, teams)
    ensures users <= o.users && teams <= o.teams
    ensures o.resp.Created? || (o.users == users && o.teams == teams)
  {
    if !RegisterValid(f, r) then Outcome(InternalError, users, teams)
    else if AnyEmailTaken(users, AllEmails(r)) then Outcome(EmailRegistered, users, teams)
    else if SetSizeDiffers(AllEmails(r)) then Outcome(DuplicateEmails, users, teams)
    else
      var code := draws[FirstFree(draws, teams)];
      Outcome(Created(code, r.teamName), users + NewUsers(r, code), teams + [TeamDoc(r, code)])
  }

  /** The corrected route keeps every team lead and team member inside a stored team. */
  lemma AtomicKeepsMembersInTeams(users: seq<User>, teams: seq<Team>, f: Formats, r: RegisterInput, draws: seq<string>)
    requires SomeDrawFree(draws, teams) && MembersHaveTeams(users, teams)
    ensures var o := RegisterAtomic(users, teams, f, r, draws);
            MembersHaveTeams(o.users, o.teams)
  {
    var o := RegisterAtomic(users, teams, f, r, draws);
    if o.resp.Created? {
      var code := o.resp.teamCode;
      var t := TeamDoc(r, code);
      assert o.teams[|teams|] == t;
      forall i | 0 <= i < |o.users| && o.users[i].role in {TeamLead, TeamMember}
        ensures CodeTaken(o.teams, o.users[i].teamCode)
      {
        if i < |users| {
          assert o.users[i] == users[i];
          var k :| 0 <= k < |teams| && teams[k].teamCode == users[i].teamCode;
          assert o.teams[k] == teams[k];
        } else {
          NewUsersShape(r, code);
          assert o.users[i] == NewUsers(r, code)[i - |users|];
        }
      }
    }
  }

  /** Where no member email is held, the corrected route does what the route does. */
  lemma AtomicAgreesWithoutConflict(users: seq<User>, teams: seq<Team>, f: Formats, r: RegisterInput, draws: seq<string>)
    requires SomeDrawFree(draws, teams) && !AnyMemberTaken(users, r.members)
    ensures RegisterAtomic(users, teams, f, r, draws) == Register(users, teams, f, r, draws)
  {
    var es := AllEmails(r);
    forall i | 1 <= i < |es| ensures !EmailTaken(users, es[i]) {
      assert es[i] == Lower(r.members[i - 1].email);
    }
    assert AnyEmailTaken(users, es) <==> EmailTaken(users, es[0]);
    if RegisterValid(f, r) && !EmailTaken(users, es[0]) && !SetSizeDiffers(es) {
      RegisterWhenClear(users, teams, f, r, draws);
    }
  }
}
