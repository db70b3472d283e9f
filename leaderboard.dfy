/**
 * GET /api/leaderboard (src/app/api/leaderboard/route.ts): for every team,
 * the mean of the stored `averageScore` of its Score records over all
 * rounds (0 without records) and its number of submissions; the list is
 * sorted by that mean, highest first, and ranked by position.
 *
 * `Array.prototype.sort` is stable (ECMA-262 since its 2019 edition), so
 * teams with equal means keep the order of the Team collection; the model
 * sorts by stable insertion. Nothing stored is written.
 */
module Leaderboard {
  import opened Numeric
  import ScoreModel
  import TeamModel
  import Submissions

  datatype Entry = Entry(teamCode: string, teamName: string, averageScore: real, submissions: nat)

  datatype Row = Row(teamCode: string, teamName: string, averageScore: real, submissions: nat, rank: nat)

  /** `Score.find({ teamCode })`, in collection order. */
  function ScoresOf(scores: seq<ScoreModel.Score>, teamCode: string): (r: seq<ScoreModel.Score>)
    ensures forall i :: 0 <= i < |r| ==> r[i] in scores && r[i].teamCode == teamCode
    ensures forall s :: s in scores && s.teamCode == teamCode ==> s in r
    ensures forall s :: multiset(r)[s] == if s.teamCode == teamCode then multiset(scores)[s] else 0
  {
    if scores == [] then []
    else
      assert scores == [scores[0]] + scores[1..];
      if scores[0].teamCode == teamCode then [scores[0]] + ScoresOf(scores[1..], teamCode)
      else ScoresOf(scores[1..], teamCode)
  }

  function Averages(scores: seq<ScoreModel.Score>): (r: seq<real>)
    ensures |r| == |scores|
  {
    seq(|scores|, i requires 0 <= i < |scores| => scores[i].averageScore)
  }

  /** The team's value: mean of its records' stored averages, or 0 without records. */
  function TeamAverage(scores: seq<ScoreModel.Score>, teamCode: string): (a: real)
    ensures (forall i :: 0 <= i < |scores| ==> scores[i].teamCode != teamCode) ==> a == 0.0
  {
    var mine := ScoresOf(scores, teamCode);
    if |mine| > 0 then Mean(Averages(mine)) else 0.0
  }

  /** `Submission.countDocuments({ teamCode })`. */
  function SubmissionCount(subs: seq<Submissions.Submission>, teamCode: string): (n: nat)
    ensures n <= |subs|
    ensures n == 0 <==> forall i :: 0 <= i < |subs| ==> subs[i].teamCode != teamCode
  {
    if subs == [] then 0
    else (if subs[0].teamCode == teamCode then 1 else 0) + SubmissionCount(subs[1..], teamCode)
  }

  /** The positions of the team's submissions. */
  function TeamIndices(subs: seq<Submissions.Submission>, teamCode: string): set<nat> {
    set i: nat | i < |subs| && subs[i].teamCode == teamCode
  }

  lemma {:induction false} SubmissionCountSnoc(subs: seq<Submissions.Submission>, x: Submissions.Submission, teamCode: string)
    ensures SubmissionCount(subs + [x], teamCode)
            == SubmissionCount(subs, teamCode) + (if x.teamCode == teamCode then 1 else 0)
  {
    if subs != [] {
      assert (subs + [x])[1..] == subs[1..] + [x];
      SubmissionCountSnoc(subs[1..], x, teamCode);
    } else {
      assert ([] + [x])[1..] == [];
    }
  }

  /** The count is the number of Submission documents carrying the team's code. */
  lemma {:induction false} SubmissionCountExact(subs: seq<Submissions.Submission>, teamCode: string)
    ensures SubmissionCount(subs, teamCode) == |TeamIndices(subs, teamCode)|
    decreases |subs|
  {
    if subs != [] {
      var init := subs[..|subs| - 1];
      var x := subs[|subs| - 1];
      assert subs == init + [x];
      SubmissionCountExact(init, teamCode);
      SubmissionCountSnoc(init, x, teamCode);
      var last: nat := |subs| - 1;
      if x.teamCode == teamCode {
        assert TeamIndices(subs, teamCode) == TeamIndices(init, teamCode) + {last};
        assert last !in TeamIndices(init, teamCode);
      } else {
        assert TeamIndices(subs, teamCode) == TeamIndices(init, teamCode);
      }
    }
  }

  /** The per-team objects built by `teams.map`, in team order. */
  function Entries(teams: seq<TeamModel.Team>, scores: seq<ScoreModel.Score>,
                   subs: seq<Submissions.Submission>): (r: seq<Entry>)
    ensures |r| == |teams|
  {
    seq(|teams|, i requires 0 <= i < |teams| =>
      Entry(teams[i].teamCode, teams[i].teamName,
            TeamAverage(scores, teams[i].teamCode), SubmissionCount(subs, teams[i].teamCode)))
  }

  predicate SortedDesc(s: seq<Entry>) {
    forall i, j :: 0 <= i < j < |s| ==> s[i].averageScore >= s[j].averageScore
  }

  /** Places `x` before the first entry whose value is not above its own. */
  function Insert(x: Entry, s: seq<Entry>): seq<Entry> {
    if s == [] || x.averageScore >= s[0].averageScore then [x] + s
    else [s[0]] + Insert(x, s[1..])
  }

  /** Sorting with the comparator `(a, b) => b.averageScore - a.averageScore`. */
  function SortDesc(s: seq<Entry>): seq<Entry> {
    if s == [] then [] else Insert(s[0], SortDesc(s[1..]))
  }

  /** The entries of `s` with value `k`, in order. */
  function WithAverage(s: seq<Entry>, k: real): seq<Entry> {
    if s == [] then []
    else (if s[0].averageScore == k then [s[0]] else []) + WithAverage(s[1..], k)
  }

  lemma {:induction false} InsertSorted(x: Entry, s: seq<Entry>)
    requires SortedDesc(s)
    ensures SortedDesc(Insert(x, s))
    ensures multiset(Insert(x, s)) == multiset(s) + multiset{x}
  {
    if s == [] || x.averageScore >= s[0].averageScore {
    } else {
      InsertSorted(x, s[1..]);
      var t := Insert(x, s[1..]);
      assert s == [s[0]] + s[1..];
      assert t[0] == x || t[0] == s[1];
    }
  }

  lemma {:induction false} InsertStable(x: Entry, s: seq<Entry>, k: real)
    ensures WithAverage(Insert(x, s), k) == (if x.averageScore == k then [x] else []) + WithAverage(s, k)
  {
    var mark := if x.averageScore == k then [x] else [];
    if s == [] || x.averageScore >= s[0].averageScore {
      assert ([x] + s)[1..] == s;
    } else {
      var t := Insert(x, s[1..]);
      InsertStable(x, s[1..], k);
      assert ([s[0]] + t)[1..] == t;
      var head := if s[0].averageScore == k then [s[0]] else [];
      assert WithAverage([s[0]] + t, k) == head + WithAverage(t, k);
      assert WithAverage(s, k) == head + WithAverage(s[1..], k);
      assert head == [] || mark == [];
    }
  }

  /**
   * The sort orders by value, highest first, loses and adds nothing, and
   * keeps the relative order of entries with equal values.
   */
  lemma {:induction false} SortDescCorrect(s: seq<Entry>)
    ensures SortedDesc(SortDesc(s))
    ensures multiset(SortDesc(s)) == multiset(s)
    ensures forall k :: WithAverage(SortDesc(s), k) == WithAverage(s, k)
  {
    if s != [] {
      SortDescCorrect(s[1..]);
      InsertSorted(s[0], SortDesc(s[1..]));
      assert s == [s[0]] + s[1..];
      forall k ensures WithAverage(SortDesc(s), k) == WithAverage(s, k) {
        InsertStable(s[0], SortDesc(s[1..]), k);
      }
    }
  }

  /** `.map((entry, index) => ({ ...entry, rank: index + 1 }))`. */
  function WithRanks(s: seq<Entry>): (r: seq<Row>)
    ensures |r| == |s|
  {
    seq(|s|, i requires 0 <= i < |s| =>
      Row(s[i].teamCode, s[i].teamName, s[i].averageScore, s[i].submissions, i + 1))
  }

  function ToEntry(r: Row): Entry {
    Entry(r.teamCode, r.teamName, r.averageScore, r.submissions)
  }

  function Unranked(rows: seq<Row>): (r: seq<Entry>)
    ensures |r| == |rows|
  {
    seq(|rows|, i requires 0 <= i < |rows| => ToEntry(rows[i]))
  }

  /** The leaderboard the route returns. */
  function Build(teams: seq<TeamModel.Team>, scores: seq<ScoreModel.Score>,
                 subs: seq<Submissions.Submission>): (rows: seq<Row>)
    ensures forall i :: 0 <= i < |rows| ==> rows[i].rank == i + 1
  {
    WithRanks(SortDesc(Entries(teams, scores, subs)))
  }

  /**
   * One row per team; ranks are exactly 1..N by position; values never
   * increase down the list; the rows are the per-team entries rearranged,
   * and teams with equal values appear in Team-collection order.
   */
  lemma BuildCorrect(teams: seq<TeamModel.Team>, scores: seq<ScoreModel.Score>,
                     subs: seq<Submissions.Submission>)
    ensures var rows := Build(teams, scores, subs);
      && |rows| == |teams|
      && (forall i :: 0 <= i < |rows| ==> rows[i].rank == i + 1)
      && (forall i, j :: 0 <= i < j < |rows| ==> rows[i].averageScore >= rows[j].averageScore)
      && multiset(Unranked(rows)) == multiset(Entries(teams, scores, subs))
      && (forall k :: WithAverage(Unranked(rows), k) == WithAverage(Entries(teams, scores, subs), k))
  {
    var e := Entries(teams, scores, subs);
    SortDescCorrect(e);
    var rows := Build(teams, scores, subs);
    assert Unranked(rows) == SortDesc(e);
    assert |SortDesc(e)| == |e| by {
      assert |multiset(SortDesc(e))| == |multiset(e)|;
    }
  }

  /** When every stored record is sound, every team's value lies in [0, 40]. */
  lemma TeamAverageWithin(scores: seq<ScoreModel.Score>, teamCode: string)
    requires ScoreModel.AllSound(scores)
    ensures 0.0 <= TeamAverage(scores, teamCode) <= 40.0
  {
    var mine := ScoresOf(scores, teamCode);
    if |mine| > 0 {
      assert AllWithin(Averages(mine), 0.0, 40.0) by {
        forall i | 0 <= i < |mine| ensures 0.0 <= Averages(mine)[i] <= 40.0 {
          var j :| 0 <= j < |scores| && scores[j] == mine[i];
          assert ScoreModel.Sound(scores[j]);
        }
      }
      MeanWithin(Averages(mine), 0.0, 40.0);
    }
  }
}
