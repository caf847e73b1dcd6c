/** Player strengths (src/player_data.py): raw counters divided by fixed
    reference scales and capped at 1, the inverted opponent difficulty, the
    Opportunity Index (SOI) as a clipped weighted sum, and the filter that
    keeps players of one position whose club plays in the selected gameweeks. */
module Players {
  import opened Wrappers
  import opened Numbers
  import opened Ordering
  import opened Fixtures

  /** The raw counters a player row may carry. */
  datatype Counter =
    | L5Score       // "Last_5_Score_Running_Avg"      -> L5_Form
    | L15Score      // "Last_15_Score_Running_Avg"     -> L15_Form
    | MeanOppScore  // "Mean_Opp_Score"                -> Next_5_Diff
    | L5Mins        // "Last_5_Mins_Played_Running_Sum"  -> L5_Mins
    | L15Mins       // "Last_15_Mins_Played_Running_Sum" -> L15_Mins

  /** The counters in the order their contributions are added. */
  const AllCounters: seq<Counter> := [L5Score, L15Score, MeanOppScore, L5Mins, L15Mins]

  /** A player row. `counters` holds the columns the file has; a value is
      `None` when it was not numeric (infinities are not modelled). */
  datatype Player = Player(name: string, club: string, position: string, counters: map<Counter, Option<real>>)

  /** Reference scale each counter is divided by. */
  function Divisor(c: Counter): (d: real)
    ensures d > 0.0
  {
    match c
    case L5Score => 70.0
    case L15Score => 70.0
    case MeanOppScore => 60.0
    case L5Mins => 450.0
    case L15Mins => 1350.0
  }

  predicate IsMinutes(c: Counter) {
    c == L5Mins || c == L15Mins
  }

  /** `clip(upper=1.0)`: only an upper bound. */
  function CapAtOne(x: real): (r: real)
    ensures r <= 1.0
    ensures x <= 1.0 ==> r == x
  {
    if x > 1.0 then 1.0 else x
  }

  /** Strength of one present raw value: `min(raw / divisor, 1)`, and for the
      opponent difficulty the inversion `clip(1 - min(raw / 60, 1), 0, 1)`. */
  function Strength(c: Counter, raw: real): (s: real)
    ensures s <= 1.0
    ensures c != MeanOppScore && raw <= Divisor(c) ==> s == raw / Divisor(c)
    ensures c != MeanOppScore && raw > Divisor(c) ==> s == 1.0
    ensures c == MeanOppScore ==> 0.0 <= s
    ensures c == MeanOppScore && 0.0 <= raw <= 60.0 ==> s == 1.0 - raw / 60.0
    ensures c == MeanOppScore && raw > 60.0 ==> s == 0.0
    ensures c == MeanOppScore && raw < 0.0 ==> s == 1.0
  {
    var n := CapAtOne(raw / Divisor(c));
    if c == MeanOppScore then Clamp(1.0 - n, 0.0, 1.0) else n
  }

  /** A form or minutes strength has no lower clip: exactly the negative
      raw values give negative strengths (−35 points give −0.5). */
  lemma NoLowerClip(c: Counter, raw: real)
    requires c != MeanOppScore
    ensures Strength(c, raw) < 0.0 <==> raw < 0.0
    ensures Strength(L5Score, -35.0) == -0.5
  {
  }

  /** The difficulty strength is in [0, 1] and never increases as the
      opponents get harder. */
  lemma DifficultyStrengthNonIncreasing(x: real, y: real)
    requires x <= y
    ensures 0.0 <= Strength(MeanOppScore, y) <= Strength(MeanOppScore, x) <= 1.0
  {
    assert x / 60.0 <= y / 60.0;
  }

  /** Display rounding, `round(value, digits)`; its tie-breaking is not modelled. */
  type Rounding = (real, int) -> real

  /** The "_Display" value: the strength to two decimals, and minutes as a
      whole percentage. */
  function Display(c: Counter, s: real, round: Rounding): real {
    if IsMinutes(c) then round(s * 100.0, 0) else round(s, 2)
  }

  /** A player with the strength and display columns added. */
  datatype NormalizedPlayer = NormalizedPlayer(
    player: Player,
    strengths: map<Counter, Option<real>>,
    displays: map<Counter, Option<real>>)

  function StrengthOf(c: Counter, raw: Option<real>): Option<real> {
    match raw
    case Some(v) => Some(Strength(c, v))
    case None => None
  }

  function DisplayOf(c: Counter, s: Option<real>, round: Rounding): Option<real> {
    match s
    case Some(v) => Some(Display(c, v, round))
    case None => None
  }

  /** `normalize_strength_metrics` for one row: a strength and a display
      value for each counter column present; the row itself is unchanged. */
  function NormalizeStrengthMetrics(p: Player, round: Rounding): (r: NormalizedPlayer)
    ensures r.player == p
    ensures r.strengths.Keys == p.counters.Keys && r.displays.Keys == p.counters.Keys
    ensures forall c :: c in p.counters ==> (r.strengths[c].None? <==> p.counters[c].None?)
    ensures forall c :: c in p.counters && p.counters[c].Some? ==>
      r.strengths[c] == Some(Strength(c, p.counters[c].value)) && r.strengths[c].value <= 1.0
    ensures forall c :: c in p.counters && r.strengths[c].Some? ==>
      r.displays[c] == Some(Display(c, r.strengths[c].value, round))
    ensures forall c :: c in p.counters && r.strengths[c].None? ==> r.displays[c].None?
  {
    var strengths := map c | c in p.counters :: StrengthOf(c, p.counters[c]);
    var displays := map c | c in p.counters :: DisplayOf(c, strengths[c], round);
    NormalizedPlayer(p, strengths, displays)
  }

  /** SOI weights, one per strength column. */
  datatype Weights = Weights(l5Form: real, l15Form: real, next5Diff: real, l5Mins: real, l15Mins: real)

  function Weight(w: Weights, c: Counter): real {
    match c
    case L5Score => w.l5Form
    case L15Score => w.l15Form
    case MeanOppScore => w.next5Diff
    case L5Mins => w.l5Mins
    case L15Mins => w.l15Mins
  }

  /** A strength column's share of the score: nothing when the column is
      absent, and a missing value counts as 0 (`fillna(0)`). */
  function Contribution(strengths: map<Counter, Option<real>>, w: Weights, c: Counter): real {
    if c in strengths then Weight(w, c) * strengths[c].GetOr(0.0) else 0.0
  }

  function WeightedSum(strengths: map<Counter, Option<real>>, w: Weights, cs: seq<Counter>): real {
    if |cs| == 0 then 0.0
    else WeightedSum(strengths, w, cs[..|cs| - 1]) + Contribution(strengths, w, cs[|cs| - 1])
  }

  /** `calculate_soi` for one row: the weighted sum clipped to [0, 1], whatever the weights. */
  function Soi(strengths: map<Counter, Option<real>>, w: Weights): (r: real)
    ensures 0.0 <= r <= 1.0
    ensures 0.0 <= WeightedSum(strengths, w, AllCounters) <= 1.0 ==> r == WeightedSum(strengths, w, AllCounters)
    ensures WeightedSum(strengths, w, AllCounters) > 1.0 ==> r == 1.0
    ensures WeightedSum(strengths, w, AllCounters) < 0.0 ==> r == 0.0
  {
    Clamp(WeightedSum(strengths, w, AllCounters), 0.0, 1.0)
  }

  /** Only the contributions of counters in `cs` depend on those counters. */
  lemma {:induction false} WeightedSumChangeOne(s: map<Counter, Option<real>>, w: Weights, c: Counter, v: Option<real>, cs: seq<Counter>)
    requires forall i, j :: 0 <= i < j < |cs| ==> cs[i] != cs[j]
    ensures WeightedSum(s[c := v], w, cs) - WeightedSum(s, w, cs) ==
      if c in cs then Contribution(s[c := v], w, c) - Contribution(s, w, c) else 0.0
  {
    if |cs| > 0 {
      var init := cs[..|cs| - 1];
      var last := cs[|cs| - 1];
      WeightedSumChangeOne(s, w, c, v, init);
      assert c in cs <==> c in init || c == last;
      if last == c {
        assert c !in init;
      } else {
        assert Contribution(s[c := v], w, last) == Contribution(s, w, last);
      }
    }
  }

  lemma WeightedSumOfAll(s: map<Counter, Option<real>>, w: Weights)
    ensures WeightedSum(s, w, AllCounters) ==
      Contribution(s, w, L5Score) + Contribution(s, w, L15Score) + Contribution(s, w, MeanOppScore)
      + Contribution(s, w, L5Mins) + Contribution(s, w, L15Mins)
  {
    var c5 := AllCounters;
    var c4 := [L5Score, L15Score, MeanOppScore, L5Mins];
    var c3 := [L5Score, L15Score, MeanOppScore];
    var c2 := [L5Score, L15Score];
    var c1 := [L5Score];
    assert c5[..4] == c4 && c4[..3] == c3 && c3[..2] == c2 && c2[..1] == c1 && c1[..0] == [];
    assert WeightedSum(s, w, c1) == Contribution(s, w, L5Score);
    assert WeightedSum(s, w, c2) == WeightedSum(s, w, c1) + Contribution(s, w, L15Score);
    assert WeightedSum(s, w, c3) == WeightedSum(s, w, c2) + Contribution(s, w, MeanOppScore);
    assert WeightedSum(s, w, c4) == WeightedSum(s, w, c3) + Contribution(s, w, L5Mins);
    assert WeightedSum(s, w, c5) == WeightedSum(s, w, c4) + Contribution(s, w, L15Mins);
  }

  /** A missing strength scores exactly like a strength of 0, and so does a
      strength column the table does not have. */
  lemma SoiMissingCountsAsZero(s: map<Counter, Option<real>>, w: Weights, c: Counter)
    requires c !in s || s[c].None?
    ensures Soi(s, w) == Soi(s[c := Some(0.0)], w)
  {
    WeightedSumChangeOne(s, w, c, Some(0.0), AllCounters);
  }

  lemma ScaleMonotone(a: real, x: real, y: real)
    requires a >= 0.0 && x <= y
    ensures a * x <= a * y
  {
    assert a * y - a * x == a * (y - x);
  }

  lemma ContributionMonotone(s: map<Counter, Option<real>>, w: Weights, c: Counter, x: real, y: real)
    requires Weight(w, c) >= 0.0 && x <= y
    ensures Contribution(s[c := Some(x)], w, c) <= Contribution(s[c := Some(y)], w, c)
  {
    ScaleMonotone(Weight(w, c), x, y);
  }

  /** With a non-negative weight, raising one strength never lowers the SOI. */
  lemma SoiMonotone(s: map<Counter, Option<real>>, w: Weights, c: Counter, x: real, y: real)
    requires Weight(w, c) >= 0.0 && x <= y
    ensures Soi(s[c := Some(x)], w) <= Soi(s[c := Some(y)], w)
  {
    var sx := s[c := Some(x)];
    var sy := sx[c := Some(y)];
    assert sy == s[c := Some(y)];
    assert c in AllCounters;
    WeightedSumChangeOne(sx, w, c, Some(y), AllCounters);
    ContributionMonotone(s, w, c, x, y);
    assert WeightedSum(sx, w, AllCounters) <= WeightedSum(sy, w, AllCounters);
  }

  /** Weights 0.6 and 0.4 on the two form strengths: a player missing the
      second scores 0.6, exactly 0.4 below one with both strengths at 1. */
  lemma SoiMissingDataExample()
    ensures var w := Weights(0.6, 0.4, 0.0, 0.0, 0.0);
      && Soi(map[L5Score := Some(1.0), L15Score := None], w) == 0.6
      && Soi(map[L5Score := Some(1.0), L15Score := Some(1.0)], w) == 1.0
  {
    var w := Weights(0.6, 0.4, 0.0, 0.0, 0.0);
    var a := map[L5Score := Some(1.0), L15Score := None];
    var b := map[L5Score := Some(1.0), L15Score := Some(1.0)];
    WeightedSumOfAll(a, w);
    WeightedSumOfAll(b, w);
  }

  /** A fixture counts for the filter when it is in a selected gameweek and a
      selected competition (by display name). */
  predicate InSelection(r: Row, names: map<string, string>, gameweeks: seq<int>, competitions: seq<string>) {
    && r.gameweek in gameweeks
    && var comp := CompetitionDisplay(names, r.fixture.compSlug, r.fixture.compName);
       comp.Some? && comp.value in competitions
  }

  /** Teams with at least one fixture in the selection. */
  function PlayingTeams(fixtures: seq<Row>, names: map<string, string>, gameweeks: seq<int>, competitions: seq<string>): (teams: set<string>)
    ensures forall t :: t in teams <==>
      exists i :: 0 <= i < |fixtures| && fixtures[i].fixture.name == t && InSelection(fixtures[i], names, gameweeks, competitions)
  {
    set i | 0 <= i < |fixtures| && InSelection(fixtures[i], names, gameweeks, competitions) :: fixtures[i].fixture.name
  }

  /** `filter_players_by_gameweeks`: the players of `position` whose club
      plays in the selection, in their original order. */
  function FilterPlayersByGameweeks(players: seq<Player>, fixtures: seq<Row>, names: map<string, string>,
                                    gameweeks: seq<int>, competitions: seq<string>, position: string): (r: seq<Player>)
    ensures IsSubseq(r, players)
    ensures forall i :: 0 <= i < |r| ==>
      && r[i].position == position
      && exists j :: 0 <= j < |fixtures| && fixtures[j].fixture.name == r[i].club
           && InSelection(fixtures[j], names, gameweeks, competitions)
    ensures forall p ::
      (p in players && p.position == position &&
       exists j :: 0 <= j < |fixtures| && fixtures[j].fixture.name == p.club
         && InSelection(fixtures[j], names, gameweeks, competitions))
      ==> multiset(r)[p] == multiset(players)[p]
  {
    var teams := PlayingTeams(fixtures, names, gameweeks, competitions);
    var keep := (p: Player) => p.position == position && p.club in teams;
    FilterKeeps(keep, players);
    Filter(keep, players)
  }
}
