/**
 * The Zod schemas of src/lib/validation.ts, each as a validity predicate
 * and as the list of issues Zod reports (path and message, in schema
 * order). Email and URL syntax are supplied by the caller as `Formats`.
 */
module Validation {
  import opened Wrappers
  import opened ScoreModel

  /** Zod's `.email()` and `.url()` string formats. */
  datatype Formats = Formats(isEmail: string -> bool, isUrl: string -> bool)

  datatype Key = Field(name: string) | Index(i: nat)

  datatype Issue = Issue(path: seq<Key>, message: string)

  /** One refinement: no issue when it holds, otherwise its message at `path`. */
  function Check(ok: bool, path: seq<Key>, message: string): (r: seq<Issue>)
    ensures r == [] <==> ok
  {
    if ok then [] else [Issue(path, message)]
  }

  // ---- RegisterSchema ----

  datatype MemberInput = MemberInput(name: string, email: string, rollNo: string)

  datatype RegisterInput = RegisterInput(
    leadName: string,
    leadEmail: string,
    leadRollNo: string,
    leadPassword: string,
    teamName: string,
    members: seq<MemberInput>)

  /** The `members` array takes 1 to 5 entries; with the leader a team has 2 to 6 people. */
  const MinMembers: nat := 1
  const MaxMembers: nat := 5

  predicate MemberValid(f: Formats, m: MemberInput) {
    |m.name| >= 2 && f.isEmail(m.email) && |m.rollNo| >= 6
  }

  predicate RegisterValid(f: Formats, r: RegisterInput) {
    && |r.leadName| >= 2
    && f.isEmail(r.leadEmail)
    && |r.leadRollNo| >= 6
    && |r.leadPassword| >= 6
    && |r.teamName| >= 3
    && MinMembers <= |r.members| <= MaxMembers
    && forall i :: 0 <= i < |r.members| ==> MemberValid(f, r.members[i])
  }

  function MemberIssues(f: Formats, m: MemberInput, i: nat): (r: seq<Issue>)
    ensures r == [] <==> MemberValid(f, m)
  {
    var at := [Field("members"), Index(i)];
    Check(|m.name| >= 2, at + [Field("name")], "Name must be at least 2 characters")
    + Check(f.isEmail(m.email), at + [Field("email")], "Invalid email address")
    + Check(|m.rollNo| >= 6, at + [Field("rollNo")], "Roll number must be at least 6 characters")
  }

  /** The element issues of `members[from..]`. */
  function MembersIssues(f: Formats, ms: seq<MemberInput>, from: nat): seq<Issue>
    requires from <= |ms|
    decreases |ms| - from
  {
    if from == |ms| then [] else MemberIssues(f, ms[from], from) + MembersIssues(f, ms, from + 1)
  }

  function RegisterIssues(f: Formats, r: RegisterInput): seq<Issue> {
    Check(|r.leadName| >= 2, [Field("leadName")], "Name must be at least 2 characters")
    + Check(f.isEmail(r.leadEmail), [Field("leadEmail")], "Invalid email address")
    + Check(|r.leadRollNo| >= 6, [Field("leadRollNo")], "Roll number must be at least 6 characters")
    + Check(|r.leadPassword| >= 6, [Field("leadPassword")], "Password must be at least 6 characters")
    + Check(|r.teamName| >= 3, [Field("teamName")], "Team name must be at least 3 characters")
    + Check(|r.members| >= MinMembers, [Field("members")], "At least 1 team member is required")
    + Check(|r.members| <= MaxMembers, [Field("members")], "Maximum 5 members allowed")
    + MembersIssues(f, r.members, 0)
  }

  lemma {:induction false} MembersIssuesIff(f: Formats, ms: seq<MemberInput>, from: nat)
    requires from <= |ms|
    ensures MembersIssues(f, ms, from) == [] <==> forall i :: from <= i < |ms| ==> MemberValid(f, ms[i])
    decreases |ms| - from
  {
    if from < |ms| {
      var head := MemberIssues(f, ms[from], from);
      var tail := MembersIssues(f, ms, from + 1);
      MembersIssuesIff(f, ms, from + 1);
      assert MembersIssues(f, ms, from) == head + tail;
      assert |head + tail| == |head| + |tail|;
    }
  }

  /** Zod accepts a registration exactly when it reports no issue. */
  lemma RegisterIssuesIff(f: Formats, r: RegisterInput)
    ensures RegisterIssues(f, r) == [] <==> RegisterValid(f, r)
  {
    MembersIssuesIff(f, r.members, 0);
  }

  // ---- LoginSchema ----

  datatype LoginInput = LoginInput(email: string, password: string)

  predicate LoginValid(f: Formats, l: LoginInput) {
    f.isEmail(l.email) && |l.password| >= 1
  }

  function LoginIssues(f: Formats, l: LoginInput): (r: seq<Issue>)
    ensures r == [] <==> LoginValid(f, l)
  {
    Check(f.isEmail(l.email), [Field("email")], "Invalid email address")
    + Check(|l.password| >= 1, [Field("password")], "Password is required")
  }

  // ---- SubmissionSchema ----

  datatype SubmissionFields = SubmissionFields(
    title: string,
    description: string,
    repoUrl: Option<string>,
    liveUrl: Option<string>,
    presentationUrl: Option<string>)

  /** `z.string().url().optional().or(z.literal(""))`: absent, empty, or a URL. */
  predicate OptionalUrl(f: Formats, u: Option<string>) {
    u.None? || u.value == "" || f.isUrl(u.value)
  }

  predicate SubmissionValid(f: Formats, s: SubmissionFields) {
    && |s.title| >= 5
    && |s.description| >= 20
    && OptionalUrl(f, s.repoUrl)
    && OptionalUrl(f, s.liveUrl)
    && OptionalUrl(f, s.presentationUrl)
  }

  /**
   * For a URL field both union branches fail; Zod then reports the issue
   * of the `.url()` branch, whose check failed without aborting.
   */
  function SubmissionIssues(f: Formats, s: SubmissionFields): (r: seq<Issue>)
    ensures r == [] <==> SubmissionValid(f, s)
  {
    Check(|s.title| >= 5, [Field("title")], "Title must be at least 5 characters")
    + Check(|s.description| >= 20, [Field("description")], "Description must be at least 20 characters")
    + Check(OptionalUrl(f, s.repoUrl), [Field("repoUrl")], "Invalid repository URL")
    + Check(OptionalUrl(f, s.liveUrl), [Field("liveUrl")], "Invalid live URL")
    + Check(OptionalUrl(f, s.presentationUrl), [Field("presentationUrl")], "Invalid presentation URL")
  }

  // ---- ScoreSchema ----

  datatype ScoreInput = ScoreInput(teamCode: string, round: real, criteria: Criteria, comments: string)

  /** Round in [1, 3] (not required to be an integer), criteria in [0, 10], comments of 10 or more characters. */
  predicate ScoreValid(s: ScoreInput) {
    && 1.0 <= s.round <= 3.0
    && CriteriaInRange(s.criteria)
    && |s.comments| >= 10
  }

  function CriterionIssues(name: string, v: real): seq<Issue> {
    var path := [Field("criteria"), Field(name)];
    Check(v >= 0.0, path, "Number must be greater than or equal to 0")
    + Check(v <= 10.0, path, "Number must be less than or equal to 10")
  }

  function ScoreIssues(s: ScoreInput): (r: seq<Issue>)
    ensures r == [] <==> ScoreValid(s)
  {
    Check(s.round >= 1.0, [Field("round")], "Number must be greater than or equal to 1")
    + Check(s.round <= 3.0, [Field("round")], "Number must be less than or equal to 3")
    + CriterionIssues("innovation", s.criteria.innovation)
    + CriterionIssues("feasibility", s.criteria.feasibility)
    + CriterionIssues("technical", s.criteria.technical)
    + CriterionIssues("presentation", s.criteria.presentation)
    + Check(|s.comments| >= 10, [Field("comments")], "Comments must be at least 10 characters")
  }
}
