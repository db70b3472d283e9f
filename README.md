# Hackathon portal: a verified model of its core

This project models the server-side core of a hackathon portal (a Next.js
application backed by MongoDB) in Dafny and proves properties of the model.
The portal's core covers:

- **Team registration** (`POST /api/auth/register`). Validation, the
  existing-email and duplicate-email checks, the team-code regeneration
  loop, and the leader, member and team documents it saves.
- **The scoring records** (`src/models/Score.ts`) and their pre-save hook,
  which recomputes `averageScore`. Mentors score through
  `POST /api/scores/mentor`; the administrator sets the final total through
  `POST /api/scores/admin`.
- **The leaderboard** (`GET /api/leaderboard`). Each team's mean of its
  per-round averages, its submission count, a stable descending sort, and
  ranks.
- **Round administration** (`POST /api/admin/rounds`) and **submissions**
  (`POST /api/submissions`). A submission is taken only inside an active
  round's window.
- **The Zod request schemas** (`src/lib/validation.ts`). Each is a validity
  predicate plus the list of issues Zod reports.
- **Authentication plumbing.** Reading the token (`src/lib/auth.ts`) and
  the edge middleware (`src/middleware.ts`), which guards routes and
  forwards the caller's claims as headers.
- **The landing page's problem-statement listing.** Search, page slice,
  page buttons and arrows.

## How it is modelled

- Each database collection is a sequence held by a class whose methods are
  the route handlers. These are `ScoreModel.ScoreStore`,
  `Registration.Registry`, `Rounds.RoundCollection` and
  `Submissions.SubmissionCollection`.
- Each method's `ensures` ties the response and the new collection to a
  pure function of the old state (`MentorScores.Upsert`,
  `AdminScores.Write`, `Registration.Register`, `Submissions.Decide`). The
  lemmas are proved about those functions.
- `findOne` is the first matching document in collection order.
- A unique index is a check before the insert. A violated unique index
  becomes the route's error response.
- Pure code (the leaderboard, the schemas, the token readers, the
  middleware) is datatypes and functions.
- The two loops of the registration route are `while` loops with
  invariants: the team-code loop and the member saves. So is the loop of
  `renderPagination`.
- Numbers are `real`; timestamps are `int`. Absent JWT claims and absent
  headers are `""`, which JavaScript treats as falsy in the same tests.

| file | module | source |
|---|---|---|
| wrappers.dfy | Wrappers | `Option` |
| text.dfy | Text | `toLowerCase` (ASCII), `startsWith`, `includes` |
| numeric.dfy | Numeric | sums and means over reals |
| auth.dfy | Auth | src/lib/auth.ts |
| middleware.dfy | Middleware | src/middleware.ts |
| score_model.dfy | ScoreModel | src/models/Score.ts |
| mentor_scores.dfy | MentorScores | src/app/api/scores/mentor/route.ts |
| admin_scores.dfy | AdminScores | src/app/api/scores/admin/route.ts |
| team_model.dfy | TeamModel | src/models/Team.ts, src/models/User.ts |
| validation.dfy | Validation | src/lib/validation.ts |
| rounds.dfy | Rounds | src/app/api/admin/rounds/route.ts |
| submissions.dfy | Submissions | src/app/api/submissions/route.ts |
| leaderboard.dfy | Leaderboard | src/app/api/leaderboard/route.ts |
| register.dfy | Registration | src/app/api/auth/register/route.ts |
| landing.dfy | Landing | src/components/custom/LandingPage.tsx |

Some behaviours of the code that a reader might not expect:

- **Team size.** The schema demands 1 to 5 members besides the leader, so a
  team has 2 to 6 people (`Validation.MinMembers`, `Validation.MaxMembers`).
- **Average after a mentor's change.** The in-place update of an existing
  mentor entry does not recompute `averageScore` (first finding below).
- **Average with no entries.** The hook leaves the average as it was when
  there are no mentor entries; a new record starts at the default 0.
- **Admin overwrite.** The route spreads the old `adminScore` sub-record,
  so an existing `criteria` survives (`AdminScores.Overwrite`).
- **Leaderboard.** The leaderboard route ranks teams over all rounds only;
  it has no per-round view and does not consult the administrator's total.

## Model

| member | source | states |
|---|---|---|
| Auth.GetTokenFromRequest | src/lib/auth.ts:37-46 | An empty token comes back only from a header that is exactly `Bearer `. Without a `Bearer ` header, the result is the `auth-token` cookie's value when it is present and non-empty, and none otherwise. |
| Auth.BearerRoundTrip | src/lib/auth.ts:38-41 | A token sent as `Bearer <t>` is read back as `t`, whatever the cookies hold. |
| Auth.HeaderPrecedence | src/lib/auth.ts:38-45 | With a `Bearer ` header, a token is always returned and the cookies cannot change it. |
| Auth.Caller | src/app/api/scores/mentor/route.ts:22-23 | A route's caller has claims only when some non-empty token was accepted by the verifier, and these are its claims. |
| Auth.CallerFromRequest | src/app/api/scores/mentor/route.ts:22-23 | The caller's claims are the verifier's answer for what follows `Bearer ` in the header, else for the non-empty `auth-token` cookie. There is no caller when the token is missing or empty. |
| Middleware.MiddlewareToken | src/middleware.ts:18-22 | The middleware reads the cookie first: a non-empty `auth-token` cookie is the token. |
| Middleware.Decide | src/middleware.ts:9-15 | A public path passes with its headers unchanged. |
| Middleware.Forward | src/middleware.ts:48-52 | `x-user-id`, `x-user-role` and `x-team-code` are set to their claims when present. Every other header, including an `x-` header whose claim is absent, keeps exactly the value the client sent, and no header is dropped. |
| Middleware.PublicIff | src/middleware.ts:8-11 | A path is public exactly when it is `/`, `/login`, `/register` or starts with `/api/auth`. |
| Middleware.PassNeedsVerifiedToken | src/middleware.ts:18-58 | A protected path passes only with a non-empty token the verifier accepts, and the forwarded headers come from that token's claims. |
| Middleware.UnverifiedGoesToLogin | src/middleware.ts:24-36 | On a protected path, a missing, empty or rejected token redirects to `/login`. |
| Middleware.AdminAreaGuard | src/middleware.ts:39-45 | With a valid token under `/admin`, the request passes exactly when the role is `admin` or `mentor`; otherwise it redirects to `/dashboard`. |
| Middleware.VerifiedPasses | src/middleware.ts:29-58 | On a protected path, a non-empty token the verifier accepts lets the request pass with the claims forwarded as headers, unless the path is under `/admin` and the role is neither `admin` nor `mentor`. |
| Middleware.TokenReadersAgreeWithoutCookie | src/middleware.ts:18-22 | Without a usable cookie, the middleware and `getTokenFromRequest` read the same token. |
| Middleware.TokenReadersDisagree | src/middleware.ts:18-22 | With both a cookie and a different `Bearer ` token, the middleware and the API routes read different tokens. |
| Text.ContainsIff | src/components/custom/LandingPage.tsx:66-72 | `includes` holds exactly when the term occurs at some position of the text. |
| ScoreModel.CriteriaSum | src/app/api/scores/mentor/route.ts:30-34 | The total of four criteria in [0, 10] lies in [0, 40]. |
| ScoreModel.PreSave | src/models/Score.ts:76-85 | The hook changes nothing but `averageScore`. Without entries it changes nothing. Starting from the default 0, the result is consistent: the mean of the totals, or 0 without entries. |
| ScoreModel.PreSaveIdempotent | src/models/Score.ts:76-85 | Saving twice without touching the entries gives the same record. |
| ScoreModel.PreSaveConsistent | src/models/Score.ts:77-82 | After the hook, a record with entries stores the mean of its entry totals. |
| ScoreModel.PreSaveWithin | src/models/Score.ts:78-82 | If every entry total lies in [0, 40], the recomputed average does too. |
| ScoreModel.FindRecord | src/app/api/scores/mentor/route.ts:36-39 | `findOne({teamCode, round})` returns the first record with that key, or none exactly when no record has it. |
| ScoreModel.FindRecordAppend | src/app/api/scores/admin/route.ts:26-37 | A record created under a key that had none is the one `findOne` then finds. |
| ScoreModel.FindRecordSameKeys | src/app/api/scores/admin/route.ts:26-29 | `findOne` answers the same on two collections whose keys agree position by position. |
| ScoreModel.FindMentor | src/app/api/scores/mentor/route.ts:58-59 | The positional match `mentorScores.$` is the first entry with the caller's `mentorId`, or none exactly when there is no such entry. |
| ScoreModel.SoundTotalsWithin | src/app/api/scores/mentor/route.ts:30-34 | Entries written by the mentor route have totals in [0, 40]. |
| ScoreModel.ScoreStore.Create | src/app/api/scores/mentor/route.ts:42-53 | `create` runs the hook and appends the result. |
| ScoreModel.ScoreStore.Save | src/app/api/scores/mentor/route.ts:74-80 | `save` runs the hook and writes the record back in place. |
| ScoreModel.ScoreStore.UpdateMentorEntry | src/app/api/scores/mentor/route.ts:58-68 | `findOneAndUpdate` overwrites the caller's entry (criteria, comments, total) without running the hook. It returns nothing and changes nothing when the record has no entry of the caller. |
| MentorScores.EntryFor | src/app/api/scores/mentor/route.ts:45-51 | The entry written for a valid body carries the caller's id, criteria in range, and their sum as total. |
| MentorScores.Upsert | src/app/api/scores/mentor/route.ts:36-81 | A new key adds exactly one record; an existing key keeps the record count. Every record other than the found one is unchanged. |
| MentorScores.Post | src/app/api/scores/mentor/route.ts:19-91 | Callers who are neither mentor nor admin get 403, and invalid bodies 400, with no change. Otherwise the collection becomes `Upsert`, with 201 and the new record or 200 and the updated one. |
| MentorScores.CreatesSingleEntry | src/app/api/scores/mentor/route.ts:41-54 | A new key gets one record with that key, the caller's entry as its only entry, no admin score, and an average equal to the entry's total. |
| MentorScores.UpdateKeepsAverage | src/app/api/scores/mentor/route.ts:57-72 | The caller's existing entry is replaced in place. The list length and every other entry are unchanged, and so are the stored average, the admin score and the key: nothing of the record but that entry changes. |
| MentorScores.AppendRecomputes | src/app/api/scores/mentor/route.ts:74-81 | A mentor without an entry is appended at the end, and the saved average is the mean of the totals. The key and the admin score stay as they were. |
| MentorScores.UpsertKeepsSound | src/app/api/scores/mentor/route.ts:57-81 | The route keeps every record sound: at most one entry per mentor, sound entries, an average in [0, 40], and a non-negative admin total. |
| MentorScores.StaleAverageAfterUpdate | src/app/api/scores/mentor/route.ts:58-68 | Counterexample: a sole mentor changes a 30 to a 4, and the stored average stays 30 while the entries' mean is 4. |
| MentorScores.UpsertRecomputing | src/models/Score.ts:76-85 | Corrected route, with the hook on every path: it never removes a record. |
| MentorScores.UpsertRecomputingConsistent | src/models/Score.ts:76-85 | With the hook on every path, a collection whose averages all agree with their entries keeps them agreeing. |
| AdminScores.Overwrite | src/app/api/scores/admin/route.ts:40-44 | The new sub-record has the requested total and comment (default `""`) and keeps the existing criteria. |
| AdminScores.Write | src/app/api/scores/admin/route.ts:26-45 | A new key adds one record; an existing key keeps the record count. Other records are unchanged, and no record's mentor entries change. A record created for a new key carries that key and no mentor entries. For an existing key, the found record's `adminScore` becomes `Overwrite` of the old one, so the criteria stay. Apart from that, the record is the hook's result on the old record: key and entries stay, and so does the average of an entry-less record. |
| AdminScores.Post | src/app/api/scores/admin/route.ts:14-59 | Non-admins get 403, and invalid bodies 400, with no change. Otherwise the collection becomes `Write`, with 201 and the new record or 200 and the updated one. |
| AdminScores.WriteSetsAdminScore | src/app/api/scores/admin/route.ts:30-45 | Afterwards, `findOne` on the key finds a record with the requested total and comment, and an average equal to the hook's. |
| AdminScores.WriteIdempotent | src/app/api/scores/admin/route.ts:40-45 | Repeating the same request leaves the collection as the first call left it. |
| AdminScores.WriteKeepsSound | src/app/api/scores/admin/route.ts:40-45 | The administrator's save keeps every record sound. |
| AdminScores.WriteRepairsAverage | src/app/api/scores/admin/route.ts:45 | After the administrator's save, a record with entries stores their mean again, even if a mentor update had left it stale. |
| Leaderboard.ScoresOf | src/app/api/leaderboard/route.ts:16 | `Score.find({teamCode})` returns records of that team only, each as many times as it is stored, and none of another team. |
| Leaderboard.TeamAverage | src/app/api/leaderboard/route.ts:21-25 | A team without Score records has average 0. |
| Leaderboard.SubmissionCount | src/app/api/leaderboard/route.ts:17-19 | The count is at most the number of submissions, and it is 0 exactly when the team has none. |
| Leaderboard.SubmissionCountExact | src/app/api/leaderboard/route.ts:17-19 | The count equals the number of Submission documents that carry the team's code. |
| Leaderboard.Entries | src/app/api/leaderboard/route.ts:14-34 | One entry per team. |
| Leaderboard.InsertSorted | src/app/api/leaderboard/route.ts:37-38 | Inserting into a descending list keeps it descending and adds exactly the inserted entry. |
| Leaderboard.InsertStable | src/app/api/leaderboard/route.ts:37-38 | Among entries with the same average, the inserted one comes first. |
| Leaderboard.SortDescCorrect | src/app/api/leaderboard/route.ts:37-38 | The sort orders by average, highest first. It is a permutation, and entries with equal averages keep their order. |
| Leaderboard.WithRanks | src/app/api/leaderboard/route.ts:39-42 | One row per entry. |
| Leaderboard.Build | src/app/api/leaderboard/route.ts:37-42 | Each row's rank is its position plus one. |
| Leaderboard.BuildCorrect | src/app/api/leaderboard/route.ts:12-42 | One row per team, with ranks exactly 1..N by position and averages never increasing down the list. The rows are the per-team entries rearranged, and ties are in Team-collection order. |
| Leaderboard.TeamAverageWithin | src/app/api/leaderboard/route.ts:21-25 | When every stored record is sound, every team's average lies in [0, 40]. |
| Rounds.NewRound | src/app/api/admin/rounds/route.ts:54-57 | `isActive` is true unless the body says `false`. |
| Rounds.RoundCollection.Post | src/app/api/admin/rounds/route.ts:40-71 | Non-admins get 403 and invalid bodies 400. A window with `endAt <= startAt` is refused, and a taken round number gives 500. Otherwise the round is appended. Positive numbers, non-empty windows and unique numbers stay invariant. |
| Rounds.FindActive | src/app/api/submissions/route.ts:28 | The round found is an active one with the requested number, and none is found exactly when no such round exists. |
| Submissions.Decide | src/app/api/submissions/route.ts:11-50 | The guards in the route's order, each with its own answer: not a leader gives 403; invalid fields give 500; no active round with the number gives "Round not active"; any `now` outside `[startAt, endAt]` gives "Submission window closed"; an earlier submission of the team for the round gives "Submission already exists for this round". |
| Submissions.SubmissionCollection.Post | src/app/api/submissions/route.ts:7-75 | The response is `Decide` over the old submissions. Only a created submission is appended; nothing else changes the collection. |
| Submissions.CreatedIff | src/app/api/submissions/route.ts:11-59 | A submission is created exactly when all of the following hold: the caller is a leader, the fields are valid, an active round is open at `now`, the team has no submission for it, and the schema accepts the round number. It then carries the caller's team code and status `submitted`. |
| Submissions.CreatedOnlyInOpenRound | src/app/api/submissions/route.ts:27-41 | A created submission implies that an active round with that number has `startAt <= now <= endAt`. |
| Submissions.WindowInclusive | src/app/api/submissions/route.ts:35-41 | `now == startAt` and `now == endAt` are inside the window; one unit before or after is not. |
| Submissions.CreateKeepsOnePerPair | src/app/api/submissions/route.ts:43-59 | Accepting a submission keeps at most one per (team, round). |
| Validation.MemberIssues | src/lib/validation.ts:16-20 | A member gets no issue exactly when it is valid. |
| Validation.MembersIssuesIff | src/lib/validation.ts:14-23 | The member issues are empty exactly when every member is valid. |
| Validation.RegisterIssuesIff | src/lib/validation.ts:3-24 | `RegisterSchema` reports no issue exactly when the registration is valid. |
| Validation.LoginIssues | src/lib/validation.ts:26-29 | `LoginSchema` reports no issue exactly when the login is valid. |
| Validation.SubmissionIssues | src/lib/validation.ts:31-45 | `SubmissionSchema` reports no issue exactly when the fields are valid. Each URL may be absent, empty or a URL. |
| Validation.ScoreIssues | src/lib/validation.ts:47-57 | `ScoreSchema` reports no issue exactly when the round is in [1, 3], the criteria are in [0, 10] and the comments have 10 characters or more. |
| Registration.AllEmails | src/app/api/auth/register/route.ts:28-31 | The list holds the lower-cased lead email first, then each member's lower-cased email in order. |
| Registration.SetSizeIffDistinct | src/app/api/auth/register/route.ts:32-33 | The `Set` size test passes exactly when no email occurs twice. |
| Registration.FirstFree | src/app/api/auth/register/route.ts:40-44 | The loop stops at the first draw no team holds; every earlier draw is taken. |
| Registration.Registry.DrawCode | src/app/api/auth/register/route.ts:40-44 | The regeneration loop returns a code no team holds: the first free draw. |
| Registration.Registry.SaveMember | src/app/api/auth/register/route.ts:95 | One member's save succeeds exactly when no user from before the request holds that email, and it appends that user. |
| Registration.Registry.SaveMembers | src/app/api/auth/register/route.ts:95 | After all member saves run, the users are the old ones plus the members that saved. The call fails exactly when some member email was already held. |
| Registration.Register | src/app/api/auth/register/route.ts:14-114 | Without a created team, the Team collection is unchanged. |
| Registration.RegisterRejections | src/app/api/auth/register/route.ts:14-38 | An invalid body gives an internal error, a lead email already held gives "Email already registered", and an email repeated within the team gives "Duplicate email addresses found". In each case both collections are unchanged. |
| Registration.RegisterOnlyAppends | src/app/api/auth/register/route.ts:94-96 | A registration, complete or failed halfway, removes and alters no stored user or team: the old collections are prefixes of the new ones. |
| Registration.Registry.Post | src/app/api/auth/register/route.ts:9-121 | The response and both collections are exactly those of `Register` on the old state. |
| Registration.TakenNow | src/app/api/auth/register/route.ts:94-95 | While members save, only users from before the request can clash with a member's email, since the team's emails are distinct. |
| Registration.CreatedIff | src/app/api/auth/register/route.ts:14-105 | A team is created exactly when the body is valid, its emails are distinct, and no user holds any of them. |
| Registration.CreatedWrites | src/app/api/auth/register/route.ts:40-105 | On success the code is a draw no team held, and the response carries it and the team name. The Team document and the leader and member users are appended; nothing else changes. |
| Registration.NewUsersShape | src/app/api/auth/register/route.ts:49-91 | The leader is team lead and each member is team member, all under the team's code. Emails are stored lower-cased, in input order, and equal to the Team document's. |
| Registration.RegisterKeepsEmailsUnique | src/app/api/auth/register/route.ts:16-96 | No registration, complete or failed halfway, gives two users the same email. |
| Registration.RegisterKeepsCodesUnique | src/app/api/auth/register/route.ts:40-96 | No registration gives two teams the same code. |
| Registration.MemberClashLeavesLeader | src/app/api/auth/register/route.ts:94-114 | When a member email is already held, the route answers "Team code or email already exists". Yet it has stored the leader with a code no team holds. |
| Registration.OrphanLeader | src/app/api/auth/register/route.ts:94-114 | Counterexample: on a store where every team member belongs to a team, registering "b@x" with member "a@x" (already a user) leaves "b@x" as a leader without a team. |
| Registration.RegisterAtomic | src/app/api/auth/register/route.ts:16-38 | Corrected route, with every email checked before anything is saved: it only appends, and it creates the whole team or changes nothing. |
| Registration.AtomicKeepsMembersInTeams | src/app/api/auth/register/route.ts:16-96 | Corrected route: every team lead and team member still belongs to a stored team. |
| Registration.AtomicAgreesWithoutConflict | src/app/api/auth/register/route.ts:16-96 | When no member email is already held, the corrected route behaves exactly as the route does. |
| Landing.Filter | src/components/custom/LandingPage.tsx:58-74 | The filtered list holds exactly the statements whose five lower-cased fields contain the lower-cased term, and is never longer than the input. |
| Landing.FilterAppend | src/components/custom/LandingPage.tsx:60-73 | Filtering keeps order: it distributes over concatenation. |
| Landing.FilterEmptyTerm | src/components/custom/LandingPage.tsx:59-73 | An empty search keeps every statement in order. |
| Landing.TotalPages | src/components/custom/LandingPage.tsx:139 | `totalPages` is the ceiling of length over page size: the least number of pages that hold the list. It is 0 only for an empty list. |
| Landing.CurrentPage | src/components/custom/LandingPage.tsx:140-141 | The page holds at most `entriesPerPage` statements, taken in order from `(currentPage - 1) * entriesPerPage`. It is as long as what remains, and empty past the end. |
| Landing.IndexOnPage | src/components/custom/LandingPage.tsx:139-141 | Every filtered statement appears, at its place, on a page between 1 and `totalPages`. |
| Landing.InRangePageShows | src/components/custom/LandingPage.tsx:139-141 | For a non-empty list, a page within range shows at least one statement. |
| Landing.RenderPagination | src/components/custom/LandingPage.tsx:143-173 | Nothing is rendered for at most one page. Items come in strictly ascending order within 1..totalPages. Buttons appear exactly for the first page, the last page and the current page's neighbours, with the current one highlighted. An ellipsis appears exactly at currentPage ± 2 when that page has no button. |
| Landing.ListingState.constructor | src/components/custom/LandingPage.tsx:26-32 | The listing starts empty, with search `""`, 10 per page, on page 1. |
| Landing.ListingState.SetProblemStatements | src/components/custom/LandingPage.tsx:58-76 | New data re-runs the filter and returns to page 1. |
| Landing.ListingState.SetSearchTerm | src/components/custom/LandingPage.tsx:58-76 | A new term re-runs the filter and returns to page 1. |
| Landing.ListingState.SetEntriesPerPage | src/components/custom/LandingPage.tsx:409-417 | The page size becomes one of 5, 10 or 20, and the current page is kept. |
| Landing.ListingState.SetEntriesPerPageResetting | src/components/custom/LandingPage.tsx:75 | Corrected page-size change: it returns to page 1, so the page is in range and a non-empty list shows statements. |
| Landing.ListingState.ClickPage | src/components/custom/LandingPage.tsx:158 | A page button sets the current page to its number, which is within range. |
| Landing.ListingState.ClickPrev | src/components/custom/LandingPage.tsx:519-525 | The previous arrow exists only past page 1 in a bar of several pages, and it goes back one page. |
| Landing.ListingState.ClickNext | src/components/custom/LandingPage.tsx:529-535 | The next arrow exists only before the last page, and it goes forward one page, staying in range. |
| Landing.PerPageChangeHidesResults | src/components/custom/LandingPage.tsx:409-417 | Counterexample: with 20 statements on page 4 of 5 per page, switching to 20 per page shows an empty page and no pagination bar. |

## Left out

- The database layer is not modelled: connections, Mongoose model registration, timestamps, `_id` and response JSON beyond statuses and messages. Collections are sequences in insertion order, and `findOne` is the first match.
- JWT signing and verification (`jsonwebtoken`, `jose`) are an oracle from token to optional claims; `verifyToken` never throws.
- Password hashing (`bcryptjs`) and the members' random temporary passwords are not modelled.
- `generateTeamCode` and `getTimeRemaining` (in `src/lib/utils`) are not part of this model. The generator's successive results are the `draws` parameter.
- Registration.Registry.Post requires that some draw is free, because otherwise the route's loop never ends.
- The clock (`new Date()`) is the `now` parameter, and dates are integers. A date that `z.coerce.date()` cannot parse is `None`.
- Concurrency is not modelled: each request runs alone. The race between two mentors scoring at once is out of scope. `Promise.all` over the member saves is modelled as saving in member order.
- Floating point is not modelled. Numbers are exact reals, so sums and means are not rounded as JavaScript numbers are.
- String lengths are counted in characters (Unicode scalar values), while Zod's `.min(n)` counts UTF-16 code units. The two differ only for characters outside the Basic Multilingual Plane: three emoji make a six-unit password that the schema accepts and the model rejects.
- `toLowerCase` folds ASCII letters only, and no Unicode case mapping is modelled.
- Mongoose's `trim` on stored strings is not modelled.
- Mongoose's schema validators on save are not modelled, except the Submission schema's cap of round 1–3 and the unique indexes on user email, team code and round number.
- Email and URL syntax (Zod's `.email()`, `.url()`) are the parameters `Formats.isEmail` and `Formats.isUrl`.
- Zod issues are modelled as paths and messages only; issue codes and parse-time type errors of the JSON body are not modelled.
- `ScoreSchema` is modelled as a schema, but no modelled route uses it: the mentor route has its own schema.
- The middleware's `config.matcher` is not modelled: `Middleware.Decide` is defined on every path, including those the matcher never sends to the middleware (`/api/auth`, `/_next/static`, `/_next/image`, `/favicon.ico`).
- The GET handlers, the login route, the round PATCH route and the problem and criteria admin routes are not part of this model.
- The landing page's countdown, login-cookie sniffing, `fetch` with its fallback sample data, and all markup are not modelled. A missing statement field is the empty string.
- MentorScores.UpsertRecomputing: its own contract only says that no record is removed. Consistency of the averages is stated in `MentorScores.UpsertRecomputingConsistent`.
- Leaderboard.Entries: its own contract gives only the length. Each entry is the team's code and name with `TeamAverage` and `SubmissionCount`, by the body's map over the Team collection; `Leaderboard.BuildCorrect` relates the rows to the entries as a multiset.
- Leaderboard.WithRanks: its own contract gives only the length. The ranks are stated in `Leaderboard.BuildCorrect`.

## Findings

| source | as written | input that shows it | evidently intended | confidence | as-written member | corrected member |
|---|---|---|---|---|---|---|
| src/app/api/scores/mentor/route.ts:58-68 | A mentor's second scoring updates the entry with `findOneAndUpdate`, which skips the pre-save hook, so `averageScore` is not recomputed. | A record with one entry of total 30 and average 30; the same mentor re-scores with all criteria 1. The average stays 30 while the only entry's total is 4. | Recompute the average whenever the entries change, as the append path does. | not executed; high | MentorScores.StaleAverageAfterUpdate | MentorScores.UpsertRecomputing |
| src/app/api/auth/register/route.ts:16-25 | Only the lead email is checked against existing users. A member email that a user already holds fails its save after the leader has been saved. | Existing user "a@x" in team OLD; register leader "b@x" with member "a@x". The answer is 400 "Team code or email already exists", yet "b@x" is stored as team lead of a team that does not exist. | Check every email before saving anything, so that a registration either stores the whole team or nothing. | not executed; high | Registration.OrphanLeader | Registration.RegisterAtomic |
| src/components/custom/LandingPage.tsx:409-417 | Changing the page size keeps `currentPage`, unlike a search or data change. | 20 matching statements, 5 per page, on page 4; choose 20 per page. Page 4 of 1 is empty, the table says no statement matches, and no pagination bar is drawn to go back. | Return to page 1 when the page size changes. | not executed; medium | Landing.PerPageChangeHidesResults | Landing.ListingState.SetEntriesPerPageResetting |
