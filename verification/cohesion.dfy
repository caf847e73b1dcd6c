/** Matchup cohesion (src/matchup_cohesion.py): how well a partner team's
    schedule complements a primary team's over selected gameweeks and
    positions, the ranked partner search, and the week-by-week comparison. */
module Cohesion {
  import opened Wrappers
  import opened Numbers
  import opened Ordering
  import opened Fixtures

  predicate InScope(r: Row, team: string, gameweeks: seq<int>) {
    r.fixture.name == team && r.gameweek in gameweeks
  }

  predicate Selected(r: Row, team: string, gameweeks: seq<int>, positions: seq<string>) {
    InScope(r, team, gameweeks) && r.fixture.position in positions
  }

  /** The row mask `Name == team & Game Week in gameweeks & Position in positions`. */
  function SelectedBy(team: string, gameweeks: seq<int>, positions: seq<string>): Row -> bool {
    (x: Row) => Selected(x, team, gameweeks, positions)
  }

  function Scores(rows: seq<Row>, metric: Metric): (xs: seq<Option<real>>)
    ensures |xs| == |rows|
    ensures forall i :: 0 <= i < |rows| ==> xs[i] == Score(rows[i].fixture, metric)
  {
    seq(|rows|, i requires 0 <= i < |rows| => Score(rows[i].fixture, metric))
  }

  /** pandas `mean` of the metric over some rows: NaN values are skipped,
      and the mean is NaN (`None`) when no value is present. */
  function MeanScore(rows: seq<Row>, metric: Metric): Option<real> {
    MeanPresent(Scores(rows, metric))
  }

  /** The mean lies within any bounds that hold for all present values. */
  lemma MeanScoreWithin(rows: seq<Row>, metric: Metric, lo: real, hi: real)
    requires forall i :: 0 <= i < |rows| && Score(rows[i].fixture, metric).Some? ==>
      lo <= Score(rows[i].fixture, metric).value <= hi
    ensures MeanScore(rows, metric).None? <==> forall i :: 0 <= i < |rows| ==> Score(rows[i].fixture, metric).None?
    ensures MeanScore(rows, metric).Some? ==> lo <= MeanScore(rows, metric).value <= hi
  {
    var xs := Present(Scores(rows, metric));
    if |xs| > 0 {
      assert xs[0] in xs;
      forall i | 0 <= i < |xs| ensures lo <= xs[i] <= hi {
        assert xs[i] in xs;
      }
      MeanBounds(xs, lo, hi);
    } else {
      forall i | 0 <= i < |rows| ensures Score(rows[i].fixture, metric).None? {
        assert Scores(rows, metric)[i] == Score(rows[i].fixture, metric);
      }
    }
  }

  /** `calculate_team_avg_difficulty`: `None` when the team has no row in the
      gameweeks, otherwise the mean metric of those rows (itself `None` when
      all of them are NaN). Positions are not filtered here. */
  function TeamAvgDifficulty(rows: seq<Row>, team: string, gameweeks: seq<int>, metric: Metric): (r: Option<Option<real>>)
    ensures r.None? <==> forall i :: 0 <= i < |rows| ==> !InScope(rows[i], team, gameweeks)
    ensures r.Some? ==> r.value == MeanScore(Filter((x: Row) => InScope(x, team, gameweeks), rows), metric)
  {
    var teamRows := Filter((x: Row) => InScope(x, team, gameweeks), rows);
    FilterKeeps((x: Row) => InScope(x, team, gameweeks), rows);
    if |teamRows| == 0 then
      assert forall i :: 0 <= i < |rows| ==> rows[i] in rows;
      None
    else
      assert teamRows[0] in rows;
      Some(MeanScore(teamRows, metric))
  }

  /** A team's rows in the selected gameweeks and positions, in table order. */
  function TeamRows(rows: seq<Row>, team: string, gameweeks: seq<int>, positions: seq<string>): (t: seq<Row>)
    ensures forall i :: 0 <= i < |t| ==> Selected(t[i], team, gameweeks, positions) && t[i] in rows
    ensures forall r :: r in rows && Selected(r, team, gameweeks, positions) ==> r in t
    ensures IsSubseq(t, rows)
  {
    FilterKeeps(SelectedBy(team, gameweeks, positions), rows);
    Filter(SelectedBy(team, gameweeks, positions), rows)
  }

  /** Repeated rows stay repeated: each selected row occurs in the team's
      rows exactly as often as in the table (the mean counts every copy). */
  lemma TeamRowsKeepRepeats(rows: seq<Row>, team: string, gameweeks: seq<int>, positions: seq<string>, r: Row)
    requires r in rows && Selected(r, team, gameweeks, positions)
    ensures multiset(TeamRows(rows, team, gameweeks, positions))[r] == multiset(rows)[r]
  {
    FilterKeeps(SelectedBy(team, gameweeks, positions), rows);
  }

  lemma TeamRowsEmpty(rows: seq<Row>, team: string, gameweeks: seq<int>, positions: seq<string>)
    ensures |TeamRows(rows, team, gameweeks, positions)| == 0 <==>
      forall i :: 0 <= i < |rows| ==> !Selected(rows[i], team, gameweeks, positions)
  {
    var t := TeamRows(rows, team, gameweeks, positions);
    if |t| > 0 {
      assert t[0] in rows;
    } else {
      assert forall i :: 0 <= i < |rows| ==> rows[i] in rows;
    }
  }

  /** Gameweeks in which some of the rows fall. */
  function GameweekSet(t: seq<Row>): set<int> {
    set r | r in t :: r.gameweek
  }

  /** Gameweeks in which some of the rows is a home fixture. */
  function HomeGameweeks(t: seq<Row>): set<int> {
    set r | r in t && HA(r.fixture) == "H" :: r.gameweek
  }

  /** `count / total * 100`, and 0 when there is nothing to divide by. */
  function Pct(count: nat, total: nat): (p: real)
    ensures total == 0 ==> p == 0.0
    ensures count <= total ==> 0.0 <= p <= 100.0
    ensures total > 0 ==> p * (total as real) == (count as real) * 100.0
  {
    if total == 0 then 0.0 else (count as real) / (total as real) * 100.0
  }

  /** The difficulty term: `combined / 70` when the combined average exceeds
      1, else 1; a NaN average compares false and also gives 1. */
  function DifficultyTerm(combined: Option<real>): (d: real)
    ensures d > 0.0
  {
    match combined
    case Some(c) => if c > 1.0 then c / 70.0 else 1.0
    case None => 1.0
  }

  /** The term is discontinuous at 1: an average just above 1 scores far
      below an average of exactly 1; above 1 it grows with the difficulty. */
  lemma DifficultyTermQuirk(a: real, b: real)
    ensures DifficultyTerm(Some(1.0)) == 1.0 && DifficultyTerm(Some(1.4)) == 0.02
    ensures 1.0 < a <= b ==> DifficultyTerm(Some(a)) <= DifficultyTerm(Some(b))
  {
  }

  /** The weighted blend of the three components. */
  function CohesionScore(bothPlayPct: real, bothHomePct: real, difficultyTerm: real): real {
    bothPlayPct * 0.20 + bothHomePct * 0.40 + difficultyTerm * 0.40
  }

  /** Cohesion metrics for a (primary, partner) pair. */
  datatype CohesionResult = CohesionResult(
    team1: string,
    team2: string,
    bothPlayPct: real,
    bothHomePct: real,
    combinedAvg: Option<real>,
    score: real,
    overlapCount: nat,
    bothHomeCount: nat,
    team1HomeCount: nat)

  function CombinedAvg(a1: Option<real>, a2: Option<real>): (c: Option<real>)
    ensures c.Some? <==> a1.Some? && a2.Some?
    ensures c.Some? ==> c.value - a1.value == a2.value - c.value
  {
    if a1.Some? && a2.Some? then Some((a1.value + a2.value) / 2.0) else None
  }

  /** Gameweeks that both teams play are among the selected ones, so they
      are never more than the selected list is long. */
  lemma OverlapBound(t1: seq<Row>, gameweeks: seq<int>, other: set<int>)
    requires forall i :: 0 <= i < |t1| ==> t1[i].gameweek in gameweeks
    ensures |GameweekSet(t1) * other| <= |gameweeks|
  {
    assert GameweekSet(t1) * other <= Elems(gameweeks);
    SubsetCardinality(GameweekSet(t1) * other, Elems(gameweeks));
    DistinctElementsBound(gameweeks);
  }

  /** The metrics of a pair whose teams both have rows `t1` and `t2`. */
  function Blend(team1: string, team2: string, t1: seq<Row>, t2: seq<Row>, gameweeks: seq<int>, metric: Metric): (r: CohesionResult)
    requires forall i :: 0 <= i < |t1| ==> t1[i].gameweek in gameweeks
    ensures r.team1 == team1 && r.team2 == team2
    ensures r.overlapCount == |GameweekSet(t1) * GameweekSet(t2)|
    ensures r.overlapCount <= |gameweeks|
    ensures 0.0 <= r.bothPlayPct <= 100.0
    ensures r.bothPlayPct == Pct(r.overlapCount, |gameweeks|)
    ensures r.team1HomeCount == |HomeGameweeks(t1)|
    ensures r.bothHomeCount == |HomeGameweeks(t1) * HomeGameweeks(t2)|
    ensures r.bothHomeCount <= r.team1HomeCount
    ensures r.bothHomePct == Pct(r.bothHomeCount, r.team1HomeCount)
    ensures 0.0 <= r.bothHomePct <= 100.0
    ensures r.team1HomeCount == 0 ==> r.bothHomePct == 0.0
    ensures r.combinedAvg == CombinedAvg(MeanScore(t1, metric), MeanScore(t2, metric))
    ensures r.score == CohesionScore(r.bothPlayPct, r.bothHomePct, DifficultyTerm(r.combinedAvg))
  {
    var overlap := GameweekSet(t1) * GameweekSet(t2);
    OverlapBound(t1, gameweeks, GameweekSet(t2));
    var home1 := HomeGameweeks(t1);
    var bothHome := home1 * HomeGameweeks(t2);
    SubsetCardinality(bothHome, home1);
    var bothPlayPct := Pct(|overlap|, |gameweeks|);
    var bothHomePct := Pct(|bothHome|, |home1|);
    var combined := CombinedAvg(MeanScore(t1, metric), MeanScore(t2, metric));
    CohesionResult(team1, team2, bothPlayPct, bothHomePct, combined,
                   CohesionScore(bothPlayPct, bothHomePct, DifficultyTerm(combined)),
                   |overlap|, |bothHome|, |home1|)
  }

  /** `calculate_cohesion_score`: `None` when either team has no row in the
      selected gameweeks and positions, otherwise the blended metrics. */
  function CalculateCohesionScore(rows: seq<Row>, team1: string, team2: string, gameweeks: seq<int>,
                                  metric: Metric, positions: seq<string>): (r: Option<CohesionResult>)
    ensures r.None? <==>
      |TeamRows(rows, team1, gameweeks, positions)| == 0 || |TeamRows(rows, team2, gameweeks, positions)| == 0
    ensures r.Some? ==> r.value == Blend(team1, team2, TeamRows(rows, team1, gameweeks, positions),
                                         TeamRows(rows, team2, gameweeks, positions), gameweeks, metric)
  {
    var t1 := TeamRows(rows, team1, gameweeks, positions);
    var t2 := TeamRows(rows, team2, gameweeks, positions);
    if |t1| == 0 || |t2| == 0 then None
    else Some(Blend(team1, team2, t1, t2, gameweeks, metric))
  }

  /** A pair is scored exactly when both teams have a row in the selected
      gameweeks and positions; a team without one is never scored. */
  lemma CohesionExcludesTeamsWithoutRows(rows: seq<Row>, team1: string, team2: string, gameweeks: seq<int>,
                                         metric: Metric, positions: seq<string>)
    ensures CalculateCohesionScore(rows, team1, team2, gameweeks, metric, positions).Some? <==>
      (exists i :: 0 <= i < |rows| && Selected(rows[i], team1, gameweeks, positions)) &&
      (exists i :: 0 <= i < |rows| && Selected(rows[i], team2, gameweeks, positions))
  {
    TeamRowsEmpty(rows, team1, gameweeks, positions);
    TeamRowsEmpty(rows, team2, gameweeks, positions);
  }

  /** Whether some of the rows is a home fixture in gameweek `gw`. */
  predicate HasHomeIn(t: seq<Row>, gw: int) {
    exists i | 0 <= i < |t| :: t[i].gameweek == gw && HA(t[i].fixture) == "H"
  }

  lemma HasHomeInIsHomeGameweek(t: seq<Row>, gw: int)
    ensures HasHomeIn(t, gw) <==> gw in HomeGameweeks(t)
  {
    if gw in HomeGameweeks(t) {
      var r :| r in t && HA(r.fixture) == "H" && r.gameweek == gw;
      var i :| 0 <= i < |t| && t[i] == r;
    }
  }

  lemma ElemsSnoc(xs: seq<int>, x: int)
    ensures Elems(xs + [x]) == Elems(xs) + {x}
  {
    assert forall g :: g in xs + [x] <==> g in xs || g == x;
  }

  /** Adding one new gameweek to the prefix grows the both-home set by one
      exactly when that gameweek is also a partner home gameweek. */
  lemma BothHomeStep(prefix: seq<int>, gw: int, home2: set<int>)
    requires gw !in Elems(prefix)
    ensures |Elems(prefix + [gw]) * home2| == |Elems(prefix) * home2| + (if gw in home2 then 1 else 0)
  {
    ElemsSnoc(prefix, gw);
    if gw in home2 {
      assert Elems(prefix + [gw]) * home2 == Elems(prefix) * home2 + {gw};
    } else {
      assert Elems(prefix + [gw]) * home2 == Elems(prefix) * home2;
    }
  }

  lemma DistinctNotInPrefix(xs: seq<int>, k: nat)
    requires k < |xs|
    requires forall i, j :: 0 <= i < j < |xs| ==> xs[i] != xs[j]
    ensures xs[k] !in Elems(xs[..k])
  {
    assert forall i :: 0 <= i < k ==> xs[..k][i] == xs[i] && xs[i] != xs[k];
  }

  /** The loop counting the primary team's home gameweeks in which the
      partner also plays at home, one gameweek at a time. The home
      gameweeks arrive without repetition (a Python set); the count does
      not depend on their order. */
  method CountBothHome(team1Home: seq<int>, t2: seq<Row>) returns (count: nat)
    requires forall i, j :: 0 <= i < j < |team1Home| ==> team1Home[i] != team1Home[j]
    ensures count == |Elems(team1Home) * HomeGameweeks(t2)|
  {
    ghost var home2 := HomeGameweeks(t2);
    count := 0;
    var k := 0;
    while k < |team1Home|
      invariant 0 <= k <= |team1Home|
      invariant count == |Elems(team1Home[..k]) * home2|
    {
      var gw := team1Home[k];
      assert team1Home[..k + 1] == team1Home[..k] + [gw];
      DistinctNotInPrefix(team1Home, k);
      BothHomeStep(team1Home[..k], gw, home2);
      HasHomeInIsHomeGameweek(t2, gw);
      if HasHomeIn(t2, gw) {
        count := count + 1;
      }
      k := k + 1;
    }
    assert team1Home[..k] == team1Home;
  }

  /** Both-play coverage, the overlap and the combined average do not
      depend on which team is the primary one; the both-home share does. */
  lemma BothPlaySymmetric(rows: seq<Row>, team1: string, team2: string, gameweeks: seq<int>,
                          metric: Metric, positions: seq<string>)
    ensures CalculateCohesionScore(rows, team1, team2, gameweeks, metric, positions).Some? <==>
            CalculateCohesionScore(rows, team2, team1, gameweeks, metric, positions).Some?
    ensures CalculateCohesionScore(rows, team1, team2, gameweeks, metric, positions).Some? ==>
      var a := CalculateCohesionScore(rows, team1, team2, gameweeks, metric, positions).value;
      var b := CalculateCohesionScore(rows, team2, team1, gameweeks, metric, positions).value;
      a.overlapCount == b.overlapCount && a.bothPlayPct == b.bothPlayPct && a.combinedAvg == b.combinedAvg
  {
    var t1 := TeamRows(rows, team1, gameweeks, positions);
    var t2 := TeamRows(rows, team2, gameweeks, positions);
    assert GameweekSet(t1) * GameweekSet(t2) == GameweekSet(t2) * GameweekSet(t1);
  }

  /** The score is positive, and with a combined average of at most 70 it
      never exceeds 20 + 40 + 0.4: the difficulty term adds at most 0.4. */
  lemma ScoreBounds(r: CohesionResult, t1: seq<Row>, t2: seq<Row>, gameweeks: seq<int>, metric: Metric)
    requires forall i :: 0 <= i < |t1| ==> t1[i].gameweek in gameweeks
    requires r == Blend(r.team1, r.team2, t1, t2, gameweeks, metric)
    ensures r.score > 0.0
    ensures (r.combinedAvg.None? || r.combinedAvg.value <= 70.0) ==> r.score <= 60.4
  {
  }

  /** The distinct team names, in order of first appearance, of the rows
      whose position is among the selected ones. */
  function PositionTeams(rows: seq<Row>, positions: seq<string>): (teams: seq<string>)
    ensures forall t :: t in teams <==> exists i :: 0 <= i < |rows| && rows[i].fixture.name == t && rows[i].fixture.position in positions
    ensures Distinct(teams)
  {
    var inPos := Filter((x: Row) => x.fixture.position in positions, rows);
    FilterKeeps((x: Row) => x.fixture.position in positions, rows);
    var names := seq(|inPos|, i requires 0 <= i < |inPos| => inPos[i].fixture.name);
    forall t | t in names
      ensures exists i :: 0 <= i < |rows| && rows[i].fixture.name == t && rows[i].fixture.position in positions
    {
      var j :| 0 <= j < |names| && names[j] == t;
      assert inPos[j] in rows;
      var i :| 0 <= i < |rows| && rows[i] == inPos[j];
    }
    forall i | 0 <= i < |rows| && rows[i].fixture.position in positions
      ensures rows[i].fixture.name in names
    {
      assert rows[i] in rows;
      assert rows[i] in inPos;
      var j :| 0 <= j < |inPos| && inPos[j] == rows[i];
      assert names[j] == rows[i].fixture.name;
    }
    Unique(names)
  }

  /** A result the partner loop keeps: a scored pair of the primary team
      with another listed team, meeting the both-play minimum. */
  predicate Qualified(score: string -> Option<CohesionResult>, primary: string, teams: seq<string>,
                      minBothPlay: real, c: CohesionResult) {
    c.team2 in teams && c.team2 != primary && score(c.team2) == Some(c) && c.bothPlayPct >= minBothPlay
  }

  /** The results of the partner loop, in the order the teams are visited:
      teams other than the primary one whose pair is scored (`score`) and
      meets the both-play minimum. */
  function Candidates(score: string -> Option<CohesionResult>, primary: string, teams: seq<string>,
                      minBothPlay: real): (cs: seq<CohesionResult>)
    requires forall t :: score(t).Some? ==> score(t).value.team2 == t
    ensures forall i :: 0 <= i < |cs| ==> Qualified(score, primary, teams, minBothPlay, cs[i])
    ensures forall t :: t in teams && t != primary && score(t).Some? && score(t).value.bothPlayPct >= minBothPlay ==>
      score(t).value in cs
    ensures Distinct(teams) ==> forall i, j :: 0 <= i < j < |cs| ==> cs[i].team2 != cs[j].team2
  {
    if |teams| == 0 then []
    else
      var rest := Candidates(score, primary, teams[1..], minBothPlay);
      var c := score(teams[0]);
      assert forall t :: t in teams ==> t == teams[0] || t in teams[1..];
      assert Distinct(teams) ==> Distinct(teams[1..]) && teams[0] !in teams[1..];
      if teams[0] != primary && c.Some? && c.value.bothPlayPct >= minBothPlay then [c.value] + rest
      else rest
  }

  datatype RankedMatchup = RankedMatchup(rank: nat, result: CohesionResult)

  function ByScore(c: CohesionResult): real { c.score }

  /** The results of a ranking, rank numbers dropped. */
  function Results(r: seq<RankedMatchup>): seq<CohesionResult> {
    seq(|r|, i requires 0 <= i < |r| => r[i].result)
  }

  /** Numbers the results from 1 in list order. */
  function Rank(xs: seq<CohesionResult>): (r: seq<RankedMatchup>)
    ensures |r| == |xs|
    ensures forall i :: 0 <= i < |r| ==> r[i].rank == i + 1 && r[i].result == xs[i]
    ensures Results(r) == xs
  {
    var r := seq(|xs|, i requires 0 <= i < |xs| => RankedMatchup(i + 1, xs[i]));
    assert Results(r) == xs;
    r
  }

  /** The qualifying results sorted by score, largest first, and cut by
      pandas `head(topN)`. */
  function BestCandidates(score: string -> Option<CohesionResult>, primary: string, teams: seq<string>,
                          topN: int, minBothPlay: real): (top: seq<CohesionResult>)
    requires forall t :: score(t).Some? ==> score(t).value.team2 == t
    ensures forall i :: 0 <= i < |top| ==> Qualified(score, primary, teams, minBothPlay, top[i])
    ensures forall i, j :: 0 <= i < j < |top| ==> top[i].score >= top[j].score
    ensures topN >= 0 ==> |top| == Min(topN, |Candidates(score, primary, teams, minBothPlay)|)
    ensures topN < 0 ==> |top| == Max(0, |Candidates(score, primary, teams, minBothPlay)| + topN)
    ensures multiset(top) <= multiset(Candidates(score, primary, teams, minBothPlay))
    ensures Distinct(teams) ==> forall i, j :: 0 <= i < j < |top| ==> top[i].team2 != top[j].team2
  {
    var cs := Candidates(score, primary, teams, minBothPlay);
    var sorted := SortDesc(ByScore, cs);
    var top := Head(sorted, topN);
    forall i | 0 <= i < |top| ensures Qualified(score, primary, teams, minBothPlay, top[i]) {
      assert top[i] == sorted[i];
      assert sorted[i] in multiset(cs);
    }
    PrefixMultiset(top, sorted);
    DistinctCandidates(score, primary, teams, minBothPlay, top);
    top
  }

  /** The partner search for any scoring of pairs: the qualifying results
      sorted by score, largest first, cut by pandas `head(topN)` and ranked
      from 1. */
  function TopMatchups(score: string -> Option<CohesionResult>, primary: string, teams: seq<string>,
                       topN: int, minBothPlay: real): (r: seq<RankedMatchup>)
    requires forall t :: score(t).Some? ==> score(t).value.team2 == t
    ensures forall i :: 0 <= i < |r| ==> r[i].rank == i + 1
    ensures forall i :: 0 <= i < |r| ==> Qualified(score, primary, teams, minBothPlay, r[i].result)
    ensures forall i, j :: 0 <= i < j < |r| ==> r[i].result.score >= r[j].result.score
    ensures topN >= 0 ==> |r| <= topN
    ensures topN >= 0 ==> |r| == Min(topN, |Candidates(score, primary, teams, minBothPlay)|)
    ensures topN < 0 ==> |r| == Max(0, |Candidates(score, primary, teams, minBothPlay)| + topN)
    ensures multiset(Results(r)) <= multiset(Candidates(score, primary, teams, minBothPlay))
    ensures Distinct(teams) ==> forall i, j :: 0 <= i < j < |r| ==> r[i].result.team2 != r[j].result.team2
  {
    Rank(BestCandidates(score, primary, teams, topN, minBothPlay))
  }

  /** Results drawn from the candidates, each no more often than it occurs
      there, name distinct partners when the teams are distinct. */
  lemma DistinctCandidates(score: string -> Option<CohesionResult>, primary: string, teams: seq<string>,
                           minBothPlay: real, xs: seq<CohesionResult>)
    requires forall t :: score(t).Some? ==> score(t).value.team2 == t
    requires multiset(xs) <= multiset(Candidates(score, primary, teams, minBothPlay))
    ensures Distinct(teams) ==> forall i, j :: 0 <= i < j < |xs| ==> xs[i].team2 != xs[j].team2
  {
    var cs := Candidates(score, primary, teams, minBothPlay);
    if Distinct(teams) {
      SubMultisetDistinct(xs, cs);
      forall i, j | 0 <= i < j < |xs| ensures xs[i].team2 != xs[j].team2 {
        assert xs[i] in multiset(cs) && xs[j] in multiset(cs);
      }
    }
  }

  function Min(a: int, b: int): int { if a < b then a else b }

  function Max(a: int, b: int): int { if a < b then b else a }

  /** The cut keeps the best: a qualifying partner that is not reported
      scores no higher than any reported one. */
  lemma {:induction false} TopMatchupsKeepBest(score: string -> Option<CohesionResult>, primary: string, teams: seq<string>,
                                               topN: int, minBothPlay: real, t: string)
    requires forall t :: score(t).Some? ==> score(t).value.team2 == t
    requires t in teams && t != primary && score(t).Some? && score(t).value.bothPlayPct >= minBothPlay
    ensures var r := TopMatchups(score, primary, teams, topN, minBothPlay);
      (exists i :: 0 <= i < |r| && r[i].result == score(t).value) ||
      (forall i :: 0 <= i < |r| ==> r[i].result.score >= score(t).value.score)
  {
    var c := score(t).value;
    var cs := Candidates(score, primary, teams, minBothPlay);
    var sorted := SortDesc(ByScore, cs);
    var top := Head(sorted, topN);
    var r := TopMatchups(score, primary, teams, topN, minBothPlay);
    assert c in cs;
    assert c in multiset(sorted);
    var k :| 0 <= k < |sorted| && sorted[k] == c;
    assert |r| == |top|;
    if k < |top| {
      assert top[k] == c;
      assert r[k].result == c;
    } else {
      forall i | 0 <= i < |r| ensures r[i].result.score >= c.score {
        assert r[i].result == sorted[i];
      }
    }
  }

  /** A scored pair is reported under the names it was asked for. */
  lemma CohesionNamesPair(rows: seq<Row>, team1: string, gameweeks: seq<int>, metric: Metric, positions: seq<string>)
    ensures forall t :: CalculateCohesionScore(rows, team1, t, gameweeks, metric, positions).Some? ==>
      CalculateCohesionScore(rows, team1, t, gameweeks, metric, positions).value.team1 == team1 &&
      CalculateCohesionScore(rows, team1, t, gameweeks, metric, positions).value.team2 == t
  {
  }

  /** The scoring `find_best_matchup_cohesions` applies to each candidate partner. */
  function PairScore(rows: seq<Row>, primary: string, gameweeks: seq<int>, metric: Metric,
                     positions: seq<string>): string -> Option<CohesionResult> {
    (t: string) => CalculateCohesionScore(rows, primary, t, gameweeks, metric, positions)
  }

  /** `find_best_matchup_cohesions`: every other team with rows in the
      selected positions is scored against the primary team; scored pairs
      meeting the both-play minimum are sorted by score, largest first,
      cut to `topN` (pandas `head`), and ranked from 1. */
  function FindBestMatchups(rows: seq<Row>, primary: string, gameweeks: seq<int>, metric: Metric,
                            positions: seq<string>, topN: int, minBothPlay: real): (r: seq<RankedMatchup>)
    ensures forall i :: 0 <= i < |r| ==> r[i].rank == i + 1
    ensures forall i :: 0 <= i < |r| ==>
      r[i].result.team1 == primary && r[i].result.team2 != primary && r[i].result.bothPlayPct >= minBothPlay
    ensures forall i :: 0 <= i < |r| ==>
      CalculateCohesionScore(rows, primary, r[i].result.team2, gameweeks, metric, positions) == Some(r[i].result)
    ensures forall i, j :: 0 <= i < j < |r| ==> r[i].result.score >= r[j].result.score
    ensures topN >= 0 ==> |r| <= topN
    ensures topN >= 0 ==>
      |r| == Min(topN, |Candidates(PairScore(rows, primary, gameweeks, metric, positions), primary,
                                   PositionTeams(rows, positions), minBothPlay)|)
    ensures topN < 0 ==>
      |r| == Max(0, |Candidates(PairScore(rows, primary, gameweeks, metric, positions), primary,
                                PositionTeams(rows, positions), minBothPlay)| + topN)
    ensures multiset(Results(r)) <= multiset(Candidates(PairScore(rows, primary, gameweeks, metric, positions), primary,
                                                        PositionTeams(rows, positions), minBothPlay))
    ensures forall i, j :: 0 <= i < j < |r| ==> r[i].result.team2 != r[j].result.team2
  {
    CohesionNamesPair(rows, primary, gameweeks, metric, positions);
    TopMatchups(PairScore(rows, primary, gameweeks, metric, positions), primary, PositionTeams(rows, positions),
                topN, minBothPlay)
  }

  /** `find_best_matchup_cohesions` reports the best partners: a team that
      qualifies but is not reported scores no higher than every reported one. */
  lemma FindBestMatchupsKeepsBest(rows: seq<Row>, primary: string, gameweeks: seq<int>, metric: Metric,
                                  positions: seq<string>, topN: int, minBothPlay: real, t: string)
    requires t != primary
    requires CalculateCohesionScore(rows, primary, t, gameweeks, metric, positions).Some?
    requires CalculateCohesionScore(rows, primary, t, gameweeks, metric, positions).value.bothPlayPct >= minBothPlay
    ensures var c := CalculateCohesionScore(rows, primary, t, gameweeks, metric, positions).value;
      var r := FindBestMatchups(rows, primary, gameweeks, metric, positions, topN, minBothPlay);
      (exists i :: 0 <= i < |r| && r[i].result == c) || (forall i :: 0 <= i < |r| ==> r[i].result.score >= c.score)
  {
    var t2 := TeamRows(rows, t, gameweeks, positions);
    assert t2[0] in rows;
    var j :| 0 <= j < |rows| && rows[j] == t2[0];
    assert t in PositionTeams(rows, positions);
    CohesionNamesPair(rows, primary, gameweeks, metric, positions);
    TopMatchupsKeepBest(PairScore(rows, primary, gameweeks, metric, positions),
                        primary, PositionTeams(rows, positions), topN, minBothPlay, t);
  }

  function ExampleRow(team: string, location: string, score: real, gameweek: int): Row {
    Row(Fixture(team, "GK", Some("Opp"), Some(location), None, None, Some(score), None, None), gameweek)
  }

  /** Alpha at home in gameweek 1 (40) and away in 2 (60). */
  function ExampleAlpha(): seq<Row> {
    [ExampleRow("Alpha", "Home", 40.0, 1), ExampleRow("Alpha", "Away", 60.0, 2)]
  }

  /** Beta away in gameweek 1 (55) and at home in 2 (45). */
  function ExampleBeta(): seq<Row> {
    [ExampleRow("Beta", "Away", 55.0, 1), ExampleRow("Beta", "Home", 45.0, 2)]
  }

  function ExampleRows(): seq<Row> {
    ExampleAlpha() + ExampleBeta()
  }

  /** Which example rows each team's mask selects. */
  lemma ExampleSelection()
    ensures var rows := ExampleRows();
      && |rows| == 4
      && Selected(rows[0], "Alpha", [1, 2], ["GK"]) && Selected(rows[1], "Alpha", [1, 2], ["GK"])
      && !Selected(rows[2], "Alpha", [1, 2], ["GK"]) && !Selected(rows[3], "Alpha", [1, 2], ["GK"])
      && !Selected(rows[0], "Beta", [1, 2], ["GK"]) && !Selected(rows[1], "Beta", [1, 2], ["GK"])
      && Selected(rows[2], "Beta", [1, 2], ["GK"]) && Selected(rows[3], "Beta", [1, 2], ["GK"])
  {
  }

  /** Of four rows, a team's selection is the first two or the last two. */
  lemma TeamRowsHalves(rows: seq<Row>, team: string, gameweeks: seq<int>, positions: seq<string>)
    requires |rows| == 4
    requires Selected(rows[0], team, gameweeks, positions) == Selected(rows[1], team, gameweeks, positions)
    requires Selected(rows[2], team, gameweeks, positions) == Selected(rows[3], team, gameweeks, positions)
    requires Selected(rows[0], team, gameweeks, positions) != Selected(rows[2], team, gameweeks, positions)
    ensures TeamRows(rows, team, gameweeks, positions) ==
      if Selected(rows[0], team, gameweeks, positions) then rows[..2] else rows[2..]
  {
    var p := SelectedBy(team, gameweeks, positions);
    assert TeamRows(rows, team, gameweeks, positions) == Filter(p, rows);
    FilterFour(p, rows);
    assert forall k :: 0 <= k < 4 ==> p(rows[k]) == Selected(rows[k], team, gameweeks, positions);
    if p(rows[0]) {
      assert Filter(p, rows) == [rows[0], rows[1]] == rows[..2];
    } else {
      assert Filter(p, rows) == [rows[2], rows[3]] == rows[2..];
    }
  }

  lemma ExampleAlphaRows()
    ensures TeamRows(ExampleRows(), "Alpha", [1, 2], ["GK"]) == ExampleAlpha()
  {
    ExampleSelection();
    TeamRowsHalves(ExampleRows(), "Alpha", [1, 2], ["GK"]);
    assert ExampleRows()[..2] == ExampleAlpha();
  }

  lemma ExampleBetaRows()
    ensures TeamRows(ExampleRows(), "Beta", [1, 2], ["GK"]) == ExampleBeta()
  {
    ExampleSelection();
    TeamRowsHalves(ExampleRows(), "Beta", [1, 2], ["GK"]);
    assert ExampleRows()[2..] == ExampleBeta();
  }

  lemma ExampleMeans()
    ensures MeanScore(ExampleAlpha(), ScoreMean) == Some(50.0)
    ensures MeanScore(ExampleBeta(), ScoreMean) == Some(50.0)
  {
    assert Scores(ExampleAlpha(), ScoreMean) == [Some(40.0), Some(60.0)];
    assert Scores(ExampleBeta(), ScoreMean) == [Some(55.0), Some(45.0)];
    assert [Some(40.0), Some(60.0)][1..] == [Some(60.0)];
    assert [Some(55.0), Some(45.0)][1..] == [Some(45.0)];
    assert Present([Some(40.0), Some(60.0)]) == [40.0, 60.0];
    assert Present([Some(55.0), Some(45.0)]) == [55.0, 45.0];
    assert Sum([40.0, 60.0]) == 100.0 && Sum([55.0, 45.0]) == 100.0;
  }

  lemma ExampleGameweeks()
    ensures GameweekSet(ExampleAlpha()) * GameweekSet(ExampleBeta()) == {1, 2}
    ensures HomeGameweeks(ExampleAlpha()) == {1}
    ensures HomeGameweeks(ExampleAlpha()) * HomeGameweeks(ExampleBeta()) == {}
  {
    assert GameweekSet(ExampleAlpha()) == {1, 2};
    assert GameweekSet(ExampleBeta()) == {1, 2};
    assert HomeGameweeks(ExampleBeta()) == {2};
  }

  /** The worked example: both teams play every week and are never at home
      together, and they average 50, so the score is
      100 * 0.2 + 0 * 0.4 + (50 / 70) * 0.4 = 20 + 2/7. */
  lemma CohesionWorkedExample()
    ensures var c := CalculateCohesionScore(ExampleRows(), "Alpha", "Beta", [1, 2], ScoreMean, ["GK"]);
      c.Some? && c.value.bothPlayPct == 100.0 && c.value.bothHomePct == 0.0 &&
      c.value.combinedAvg == Some(50.0) && c.value.score == 20.0 + 2.0 / 7.0
  {
    ExampleAlphaRows();
    ExampleBetaRows();
    ExampleMeans();
    ExampleCounts();
    ScoreFromFigures(ExampleRows(), ExampleAlpha(), ExampleBeta());
  }

  /** The example's score follows from its team rows' counts and means alone. */
  lemma ScoreFromFigures(rows: seq<Row>, t1: seq<Row>, t2: seq<Row>)
    requires TeamRows(rows, "Alpha", [1, 2], ["GK"]) == t1 && TeamRows(rows, "Beta", [1, 2], ["GK"]) == t2
    requires |GameweekSet(t1) * GameweekSet(t2)| == 2
    requires |HomeGameweeks(t1)| == 1 && |HomeGameweeks(t1) * HomeGameweeks(t2)| == 0
    requires MeanScore(t1, ScoreMean) == Some(50.0) && MeanScore(t2, ScoreMean) == Some(50.0)
    ensures var c := CalculateCohesionScore(rows, "Alpha", "Beta", [1, 2], ScoreMean, ["GK"]);
      c.Some? && c.value.bothPlayPct == 100.0 && c.value.bothHomePct == 0.0 &&
      c.value.combinedAvg == Some(50.0) && c.value.score == 20.0 + 2.0 / 7.0
  {
    ExampleArithmetic();
  }

  lemma ExampleCounts()
    ensures |GameweekSet(ExampleAlpha()) * GameweekSet(ExampleBeta())| == 2
    ensures |HomeGameweeks(ExampleAlpha())| == 1
    ensures |HomeGameweeks(ExampleAlpha()) * HomeGameweeks(ExampleBeta())| == 0
  {
    ExampleGameweeks();
    assert |{1, 2}| == 2;
  }

  lemma ExampleArithmetic()
    ensures Pct(2, 2) == 100.0 && Pct(0, 1) == 0.0
    ensures DifficultyTerm(Some(50.0)) == 50.0 / 70.0
    ensures CohesionScore(100.0, 0.0, 50.0 / 70.0) == 20.0 + 2.0 / 7.0
  {
  }

  /** One team's side of a detail row: `NoFixture` when the team has no row
      in the gameweek and positions (shown as "-"), otherwise the opponent
      and location of its first row and the mean metric of all its rows
      there (NaN, `None`, when every value is missing). */
  datatype Side = NoFixture | Side(opponent: Option<string>, location: string, difficulty: Option<real>)

  function Location(s: Side): string {
    if s.NoFixture? then "-" else s.location
  }

  function SideAt(rows: seq<Row>, team: string, gw: int, metric: Metric, positions: seq<string>): (s: Side)
    ensures s.NoFixture? <==> forall i :: 0 <= i < |rows| ==> !Selected(rows[i], team, [gw], positions)
    ensures s.Side? ==> s.difficulty == MeanScore(TeamRows(rows, team, [gw], positions), metric)
  {
    var t := TeamRows(rows, team, [gw], positions);
    TeamRowsEmpty(rows, team, [gw], positions);
    if |t| == 0 then NoFixture
    else Side(t[0].fixture.opponent, HA(t[0].fixture), MeanScore(t, metric))
  }

  /** With several rows (several positions) in the gameweek, the opponent
      and location shown are those of the first one in table order. */
  lemma SideAtFirstRow(rows: seq<Row>, team: string, gw: int, metric: Metric, positions: seq<string>) returns (i: nat)
    requires SideAt(rows, team, gw, metric, positions).Side?
    ensures i < |rows| && Selected(rows[i], team, [gw], positions)
    ensures forall j :: 0 <= j < i ==> !Selected(rows[j], team, [gw], positions)
    ensures SideAt(rows, team, gw, metric, positions).opponent == rows[i].fixture.opponent
    ensures SideAt(rows, team, gw, metric, positions).location == HA(rows[i].fixture)
  {
    i := FilterFirst(SelectedBy(team, [gw], positions), rows);
  }

  /** Which team the week's "Best Choice" names. */
  datatype Choice = PrimaryTeam | PartnerTeam | NoChoice

  /** A side's difficulty is "not None" whenever the side has a fixture,
      even when the mean is NaN; a comparison with NaN is false. */
  predicate StrictlyEasier(d1: Option<real>, d2: Option<real>) {
    d1.Some? && d2.Some? && d1.value < d2.value
  }

  function BestChoice(s1: Side, s2: Side): (c: Choice)
    ensures c == NoChoice <==> s1.NoFixture? && s2.NoFixture?
    ensures c == PrimaryTeam <==> s1.Side? && (s2.NoFixture? || StrictlyEasier(s1.difficulty, s2.difficulty))
    ensures c == PartnerTeam <==> s2.Side? && (s1.NoFixture? || !StrictlyEasier(s1.difficulty, s2.difficulty))
  {
    if s1.Side? && s2.Side? then
      if StrictlyEasier(s1.difficulty, s2.difficulty) then PrimaryTeam else PartnerTeam
    else if s1.Side? then PrimaryTeam
    else if s2.Side? then PartnerTeam
    else NoChoice
  }

  datatype DetailRow = DetailRow(gameweek: int, team1: Side, team2: Side, bothHome: bool,
                                 best: Choice, bestDifficulty: Option<real>)

  function BestDifficulty(c: Choice, s1: Side, s2: Side): Option<real>
    requires c == PrimaryTeam ==> s1.Side?
    requires c == PartnerTeam ==> s2.Side?
  {
    match c
    case PrimaryTeam => s1.difficulty
    case PartnerTeam => s2.difficulty
    case NoChoice => None
  }

  function DetailRowAt(rows: seq<Row>, primary: string, partner: string, gw: int, metric: Metric,
                       positions: seq<string>): (d: DetailRow)
    ensures d.gameweek == gw
    ensures d.team1 == SideAt(rows, primary, gw, metric, positions)
    ensures d.team2 == SideAt(rows, partner, gw, metric, positions)
    ensures d.bothHome <==> d.team1.Side? && d.team2.Side? && d.team1.location == "H" && d.team2.location == "H"
    ensures d.best == NoChoice <==> d.team1.NoFixture? && d.team2.NoFixture?
    ensures d.best == PrimaryTeam <==>
      d.team1.Side? && (d.team2.NoFixture? || StrictlyEasier(d.team1.difficulty, d.team2.difficulty))
    ensures d.best == PartnerTeam <==>
      d.team2.Side? && (d.team1.NoFixture? || !StrictlyEasier(d.team1.difficulty, d.team2.difficulty))
    ensures d.best == NoChoice ==> d.bestDifficulty.None?
    ensures d.best == PrimaryTeam ==> d.bestDifficulty == d.team1.difficulty
    ensures d.best == PartnerTeam ==> d.bestDifficulty == d.team2.difficulty
  {
    var s1 := SideAt(rows, primary, gw, metric, positions);
    var s2 := SideAt(rows, partner, gw, metric, positions);
    var c := BestChoice(s1, s2);
    DetailRow(gw, s1, s2, Location(s1) == "H" && Location(s2) == "H", c, BestDifficulty(c, s1, s2))
  }

  /** `create_matchup_detail_grid`: one row per selected gameweek, in
      ascending order (duplicates repeat, as `sorted` keeps them). */
  function MatchupDetailGrid(rows: seq<Row>, primary: string, partner: string, gameweeks: seq<int>,
                             metric: Metric, positions: seq<string>): (grid: seq<DetailRow>)
    ensures |grid| == |gameweeks|
    ensures forall i, j :: 0 <= i < j < |grid| ==> grid[i].gameweek <= grid[j].gameweek
    ensures multiset(seq(|grid|, i requires 0 <= i < |grid| => grid[i].gameweek)) == multiset(gameweeks)
    ensures forall i :: 0 <= i < |grid| ==> grid[i] == DetailRowAt(rows, primary, partner, grid[i].gameweek, metric, positions)
  {
    var gws := SortAsc(gameweeks);
    assert |gws| == |multiset(gws)| == |gameweeks|;
    var grid := seq(|gws|, i requires 0 <= i < |gws| => DetailRowAt(rows, primary, partner, gws[i], metric, positions));
    assert seq(|grid|, i requires 0 <= i < |grid| => grid[i].gameweek) == gws;
    grid
  }

  /** Ties go to the partner: with equal difficulties the primary team is
      never the best choice, and a NaN difficulty never wins a comparison. */
  lemma BestChoiceTiesGoToPartner(s1: Side, s2: Side)
    requires s1.Side? && s2.Side?
    requires s1.difficulty == s2.difficulty || s1.difficulty.None? || s2.difficulty.None?
    ensures BestChoice(s1, s2) == PartnerTeam
  {
  }

  /** The best choice is never harder than the other side when both have a
      numeric difficulty. */
  lemma BestChoiceIsEasier(rows: seq<Row>, primary: string, partner: string, gw: int, metric: Metric,
                           positions: seq<string>)
    ensures var d := DetailRowAt(rows, primary, partner, gw, metric, positions);
      d.team1.Side? && d.team2.Side? && d.team1.difficulty.Some? && d.team2.difficulty.Some? ==>
        d.bestDifficulty.Some? &&
        d.bestDifficulty.value <= d.team1.difficulty.value && d.bestDifficulty.value <= d.team2.difficulty.value
  {
  }

  /** The detail grid and the cohesion score agree: a selected gameweek the
      grid marks as both-home is one the cohesion score counts as both-home. */
  lemma DetailBothHomeCounted(rows: seq<Row>, primary: string, partner: string, gameweeks: seq<int>,
                              metric: Metric, positions: seq<string>, gw: int)
    requires gw in gameweeks
    requires DetailRowAt(rows, primary, partner, gw, metric, positions).bothHome
    ensures gw in HomeGameweeks(TeamRows(rows, primary, gameweeks, positions)) *
                  HomeGameweeks(TeamRows(rows, partner, gameweeks, positions))
  {
    var i := SideAtFirstRow(rows, primary, gw, metric, positions);
    var j := SideAtFirstRow(rows, partner, gw, metric, positions);
    assert rows[i] in TeamRows(rows, primary, gameweeks, positions);
    assert rows[j] in TeamRows(rows, partner, gameweeks, positions);
  }

  /** A selected gameweek in which the detail grid shows a fixture for both
      teams is exactly a gameweek the cohesion score counts as shared. */
  lemma DetailBothPlayIsOverlap(rows: seq<Row>, primary: string, partner: string, gameweeks: seq<int>,
                                metric: Metric, positions: seq<string>, gw: int)
    requires gw in gameweeks
    ensures var d := DetailRowAt(rows, primary, partner, gw, metric, positions);
      d.team1.Side? && d.team2.Side? <==>
        gw in GameweekSet(TeamRows(rows, primary, gameweeks, positions)) *
              GameweekSet(TeamRows(rows, partner, gameweeks, positions))
  {
    SideAtInGameweekSet(rows, primary, gameweeks, metric, positions, gw);
    SideAtInGameweekSet(rows, partner, gameweeks, metric, positions, gw);
  }

  /** A team has a fixture in a selected gameweek exactly when one of its
      selected rows falls in that gameweek. */
  lemma SideAtInGameweekSet(rows: seq<Row>, team: string, gameweeks: seq<int>, metric: Metric,
                            positions: seq<string>, gw: int)
    requires gw in gameweeks
    ensures SideAt(rows, team, gw, metric, positions).Side? <==>
      gw in GameweekSet(TeamRows(rows, team, gameweeks, positions))
  {
    var t := TeamRows(rows, team, gameweeks, positions);
    if SideAt(rows, team, gw, metric, positions).Side? {
      var i := SideAtFirstRow(rows, team, gw, metric, positions);
      assert rows[i] in t;
    }
    if gw in GameweekSet(t) {
      var r :| r in t && r.gameweek == gw;
      var i :| 0 <= i < |rows| && rows[i] == r;
      assert Selected(rows[i], team, [gw], positions);
    }
  }
}
