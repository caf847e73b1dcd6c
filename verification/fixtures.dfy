/** Fixture rows and their derived columns (src/data.py): the home/away code,
    the competition display name, the ranking sort key and display string,
    and the normalisation of the numeric gameweek column so that it starts at 1. */
module Fixtures {
  import opened Wrappers
  import opened Numbers
  import opened Text
  import opened Ordering

  /** Which difficulty column a view reads ("Score_mean" or "Score_median"). */
  datatype Metric = ScoreMean | ScoreMedian

  /** One (team, position, upcoming match) record as loaded; NaN is `None`. */
  datatype Fixture = Fixture(
    name: string,               // team ("Name")
    position: string,           // "Position"
    opponent: Option<string>,   // "Opponent"
    location: Option<string>,   // "Location": "Home" or "Away"
    compSlug: Option<string>,   // "Comp_Slug"
    compName: Option<string>,   // competition name supplied with the fixture
    scoreMean: Option<real>,    // "Score_mean"
    scoreMedian: Option<real>,  // "Score_median"
    ranking: Option<real>)      // "Domestic League Ranking"

  function Score(f: Fixture, metric: Metric): Option<real> {
    match metric
    case ScoreMean => f.scoreMean
    case ScoreMedian => f.scoreMedian
  }

  /** A row before normalisation: its gameweek as parsed, `None` when not numeric. */
  datatype RawRow = RawRow(fixture: Fixture, gameweek: Option<real>)

  /** A row after normalisation: its gameweek counted from 1. */
  datatype Row = Row(fixture: Fixture, gameweek: int)

  /** The loaded table: whether it has a "Gameweek" column, and its rows. */
  datatype FixtureTable = FixtureTable(hasGameweekColumn: bool, rows: seq<RawRow>)

  /** Result of gameweek normalisation. The two failures stop the dashboard
      with an error message; `dropped` is the count the warning reports. */
  datatype GameweekOutcome =
    | Normalised(rows: seq<Row>, dropped: nat)
    | MissingGameweekColumn
    | NoValidGameweeks

  /** The "HA" column: "Home" becomes "H", "Away" becomes "A", anything else "". */
  function HomeAway(location: Option<string>): (ha: string)
    ensures ha == "H" <==> location == Some("Home")
    ensures ha == "A" <==> location == Some("Away")
    ensures ha == "" <==> location != Some("Home") && location != Some("Away")
  {
    match location
    case Some(l) => if l == "Home" then "H" else if l == "Away" then "A" else ""
    case None => ""
  }

  function HA(f: Fixture): string {
    HomeAway(f.location)
  }

  /** The "Competition_Display" column: the configured display name for the
      slug, falling back to the competition name carried by the row. */
  function CompetitionDisplay(names: map<string, string>, slug: Option<string>, fallback: Option<string>): (r: Option<string>)
    ensures slug.Some? && slug.value in names ==> r == Some(names[slug.value])
    ensures !(slug.Some? && slug.value in names) ==> r == fallback
  {
    match slug
    case Some(s) => if s in names then Some(names[s]) else fallback
    case None => fallback
  }

  /** The row's own competition name survives exactly when its slug is not
      in the table or the table gives that same name; any other result is a
      configured display name. */
  lemma CompetitionDisplayKeepsRowName(names: map<string, string>, slug: Option<string>, fallback: Option<string>)
    ensures CompetitionDisplay(names, slug, fallback) == fallback <==>
      !(slug.Some? && slug.value in names) || fallback == Some(names[slug.value])
    ensures CompetitionDisplay(names, slug, fallback) != fallback ==>
      CompetitionDisplay(names, slug, fallback).Some? && CompetitionDisplay(names, slug, fallback).value in names.Values
  {
  }

  /** Sort key given to teams without a ranking, so that they sort last. */
  const UnrankedSortKey: int := 9999

  /** The "Rank_Sort" column: the ranking as an integer, 9999 when missing. */
  function RankSort(rank: Option<real>): int {
    Trunc(rank.GetOr(UnrankedSortKey as real))
  }

  /** The "Rank_Display" column: "-" when missing, else the integer ranking as text. */
  function RankDisplay(rank: Option<real>): (s: string)
    ensures s == "-" <==> rank.None?
    ensures rank.Some? ==> ParseInt(s) == Some(RankSort(rank))
  {
    match rank
    case None => "-"
    case Some(x) =>
      ParseIntToString(Trunc(x));
      IntToString(Trunc(x))
  }

  /** The sort key of an integral ranking is that ranking, and a missing
      ranking sorts after every ranking below the sentinel. */
  lemma RankSortOrdersUnrankedLast(rank: Option<real>, n: int)
    ensures rank == Some(n as real) ==> RankSort(rank) == n
    ensures rank.None? ==> RankSort(rank) == UnrankedSortKey
    ensures rank.None? && n < UnrankedSortKey ==> RankSort(Some(n as real)) < RankSort(rank)
  {
  }

  predicate HasGameweek(r: RawRow) {
    r.gameweek.Some?
  }

  /** The rows whose gameweek parsed as a number, in their original order. */
  function ValidRows(rows: seq<RawRow>): (v: seq<RawRow>)
    ensures IsSubseq(v, rows) && |v| <= |rows|
    ensures forall i :: 0 <= i < |v| ==> v[i].gameweek.Some? && v[i] in rows
    ensures forall x :: x in rows && HasGameweek(x) ==> multiset(v)[x] == multiset(rows)[x]
    ensures forall x :: x in rows && !HasGameweek(x) ==> x !in v
  {
    FilterKeeps(HasGameweek, rows);
    Filter(HasGameweek, rows)
  }

  function GameweekOf(r: RawRow): real
    requires r.gameweek.Some?
  {
    r.gameweek.value
  }

  /** `(g - min + 1).astype(int)` for every valid row. */
  function Shift(valid: seq<RawRow>, min: real): (rows: seq<Row>)
    requires forall i :: 0 <= i < |valid| ==> valid[i].gameweek.Some? && min <= GameweekOf(valid[i])
    ensures |rows| == |valid|
    ensures forall i :: 0 <= i < |rows| ==> rows[i].fixture == valid[i].fixture && rows[i].gameweek >= 1
    ensures forall i :: 0 <= i < |rows| && GameweekOf(valid[i]) == min ==> rows[i].gameweek == 1
  {
    seq(|valid|, i requires 0 <= i < |valid| => Row(valid[i].fixture, Trunc(GameweekOf(valid[i]) - min + 1.0)))
  }

  function Gameweeks(valid: seq<RawRow>): (gs: seq<real>)
    requires forall i :: 0 <= i < |valid| ==> valid[i].gameweek.Some?
    ensures |gs| == |valid|
    ensures forall i :: 0 <= i < |gs| ==> gs[i] == GameweekOf(valid[i])
  {
    seq(|valid|, i requires 0 <= i < |valid| => GameweekOf(valid[i]))
  }

  /** `calculate_gameweeks`: drop rows whose gameweek is not numeric and shift
      the remaining gameweeks so that the smallest becomes 1. */
  function CalculateGameweeks(t: FixtureTable): (r: GameweekOutcome)
    ensures |t.rows| == 0 ==> r == Normalised([], 0)
    ensures r == MissingGameweekColumn <==> |t.rows| > 0 && !t.hasGameweekColumn
    ensures r.Normalised? <==>
      |t.rows| == 0 || (t.hasGameweekColumn && exists i :: 0 <= i < |t.rows| && t.rows[i].gameweek.Some?)
    ensures |t.rows| > 0 && t.hasGameweekColumn ==>
      (r == NoValidGameweeks <==> forall i :: 0 <= i < |t.rows| ==> t.rows[i].gameweek.None?)
    ensures r.Normalised? && |t.rows| > 0 ==>
      && |r.rows| > 0
      && |r.rows| + r.dropped == |t.rows|
      && |r.rows| == |ValidRows(t.rows)|
      && (forall i :: 0 <= i < |r.rows| ==> r.rows[i].fixture == ValidRows(t.rows)[i].fixture)
      && (forall i :: 0 <= i < |r.rows| ==> r.rows[i].gameweek >= 1)
      && (exists i :: 0 <= i < |r.rows| && r.rows[i].gameweek == 1)
  {
    if |t.rows| == 0 then Normalised([], 0)
    else if !t.hasGameweekColumn then MissingGameweekColumn
    else
      var valid := ValidRows(t.rows);
      if |valid| == 0 then
        assert forall i :: 0 <= i < |t.rows| ==> t.rows[i] in t.rows;
        NoValidGameweeks
      else
        assert valid[0] in t.rows;
        var gs := Gameweeks(valid);
        var min := MinOf(gs);
        var rows := Shift(valid, min);
        assert exists k :: 0 <= k < |gs| && gs[k] == min;
        Normalised(rows, |t.rows| - |valid|)
  }

  /** The normalised rows are exactly `Shift(ValidRows(...), min)`. */
  lemma NormalisedIsShift(t: FixtureTable) returns (min: real)
    requires |t.rows| > 0 && CalculateGameweeks(t).Normalised?
    ensures var valid := ValidRows(t.rows);
      && (forall i :: 0 <= i < |valid| ==> min <= GameweekOf(valid[i]))
      && (exists i :: 0 <= i < |valid| && GameweekOf(valid[i]) == min)
      && CalculateGameweeks(t).rows == Shift(valid, min)
  {
    var valid := ValidRows(t.rows);
    var gs := Gameweeks(valid);
    min := MinOf(gs);
    var k :| 0 <= k < |gs| && gs[k] == min;
    assert GameweekOf(valid[k]) == min;
  }

  lemma TruncMonotone(x: real, y: real)
    requires 0.0 <= x <= y
    ensures Trunc(x) <= Trunc(y)
  {
  }

  lemma TruncShift(a: int, b: int, c: real)
    requires a as real + c >= 0.0 && b as real + c >= 0.0
    ensures Trunc(a as real + c) - Trunc(b as real + c) == a - b
  {
    var f := Trunc(a as real + c);
    var g := Trunc(b as real + c);
    assert f as real <= a as real + c < f as real + 1.0;
    assert g as real <= b as real + c < g as real + 1.0;
    assert (f - a + b) as real - 1.0 < g as real < (f - a + b) as real + 1.0;
  }

  /** Normalisation never reorders gameweeks: a row whose raw gameweek is not
      larger than another's gets a normalised gameweek that is not larger. */
  lemma ShiftPreservesOrder(valid: seq<RawRow>, min: real, i: int, j: int)
    requires forall k :: 0 <= k < |valid| ==> valid[k].gameweek.Some? && min <= GameweekOf(valid[k])
    requires 0 <= i < |valid| && 0 <= j < |valid|
    requires GameweekOf(valid[i]) <= GameweekOf(valid[j])
    ensures Shift(valid, min)[i].gameweek <= Shift(valid, min)[j].gameweek
  {
    TruncMonotone(GameweekOf(valid[i]) - min + 1.0, GameweekOf(valid[j]) - min + 1.0);
  }

  /** On whole-number gameweeks normalisation is one uniform shift: every
      pairwise difference between rows is kept. */
  lemma ShiftPreservesDifferences(valid: seq<RawRow>, min: real, i: int, j: int, a: int, b: int)
    requires forall k :: 0 <= k < |valid| ==> valid[k].gameweek.Some? && min <= GameweekOf(valid[k])
    requires 0 <= i < |valid| && 0 <= j < |valid|
    requires valid[i].gameweek == Some(a as real) && valid[j].gameweek == Some(b as real)
    ensures Shift(valid, min)[i].gameweek - Shift(valid, min)[j].gameweek == a - b
  {
    var c := 1.0 - min;
    assert min <= a as real && min <= b as real;
    TruncShift(a, b, c);
    assert a as real - min + 1.0 == a as real + c;
    assert b as real - min + 1.0 == b as real + c;
  }
}
