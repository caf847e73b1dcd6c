# soiboy scoring core in Dafny

This project models the scoring and table-reshaping logic of the soiboy
fixture/player dashboard. pandas dataframes become sequences of immutable row
records, and a NaN or missing cell becomes `Option.None`. The model covers:

- **Gameweeks and ranks** (`fixtures.dfy`, module `Fixtures`):
  - the per-row "HA" and "Competition_Display" columns;
  - `calculate_gameweeks`, which drops rows with no numeric gameweek and shifts the rest so the smallest is 1;
  - `prepare_ranking_display`, which sets Rank_Sort with sentinel 9999 and Rank_Display with "-".
- **Fixture pivot** (`pivots.dfy`, module `Pivots`):
  - `create_pivot_tables`: a (Rank_Sort, Name) × gameweek table of values, labels and opponents, using pandas "first" aggregation, plus an "Avg" column;
  - `prepare_grid_dataframe`: "GW n" columns in the caller's order, then "Avg", plus a left-merged rank and the `__val` / `__tip` companions of every cell.
- **Player strengths** (`players.dfy`, module `Players`):
  - `normalize_strength_metrics`: divisors 70/70/60/450/1350, a cap at 1, and the inverted opponent difficulty;
  - `calculate_soi`: a weighted sum, clipped to [0, 1], in which a missing strength counts as 0;
  - `filter_players_by_gameweeks`.
- **Matchup cohesion** (`cohesion.dfy`, module `Cohesion`):
  - `calculate_team_avg_difficulty` and `calculate_cohesion_score`;
  - the ranked partner search `find_best_matchup_cohesions`;
  - the week-by-week `create_matchup_detail_grid`.

Supporting modules:

- `wrappers.dfy`: `Option`.
- `numbers.dfy`: sums, NaN-skipping means, truncation toward zero.
- `text.dfy`: decimal rendering and parsing, and the lexicographic string order.
- `ordering.dfy`: filters, sorted insertion, stable descending sort, pandas `head`, `unique`.

Modelling choices:

- Number formatting and rounding are parameters. This covers `round(v, 1)` rendered as text, `.round(2)` and `.round(0)`.
- The table of competition display names is a `map` parameter.
- The fixture columns "Gameweek" (pivot) and "Game Week" (cohesion, player filter) are both `Row.gameweek`.
- pandas `sort_values` uses quicksort by default, which is not stable. The model sorts with a stable insertion sort. Its contracts state only what every valid ordering satisfies: scores do not increase down the list, the result is a permutation, and the cut keeps the best.

How the code computes the figures:

- Gameweeks come from a numeric "Gameweek" column, shifted so that the smallest is 1.
- The difficulty term enters the cohesion score with weight 0.4. The Alpha/Beta example scores 20 + 0.4 · 50/70 ≈ 20.29 (`Cohesion.CohesionWorkedExample`). The score is at most 60 + 0.4 · difficulty term.
- Partners with equal scores may come out in either order (see above). Ranks are 1..n by position in the sorted list.

Behaviour of the code that the contracts make explicit:

- The value pivot takes the first *present* metric in a cell, but the label pivot takes the *first row's* label. A cell can therefore have a value and an empty label (`Pivots.CellValue`, `Pivots.CellLabelAt`).
- The difficulty term is 1 for any combined average ≤ 1 or NaN, but about 0.014 just above 1 and 0.02 at 1.4 (`Cohesion.DifficultyTermQuirk`).
- In the detail grid, a side with rows but an all-NaN mean still counts as "has data". Every comparison with NaN is false, so when both sides have data and either difficulty is NaN the partner is the best choice (`Cohesion.BestChoiceTiesGoToPartner`).

## Model

| member | source | states |
|---|---|---|
| Fixtures.HomeAway | src/data.py:37 | "H" exactly for "Home", "A" exactly for "Away", "" for anything else or a missing location |
| Fixtures.CompetitionDisplay | src/data.py:32-34 | the configured display name when the slug is in the table, otherwise the row's own competition name |
| Fixtures.CompetitionDisplayKeepsRowName | src/data.py:32-34 | the row's own competition name survives exactly when the slug is not in the table or the table gives that same name; any other result is a configured display name |
| Fixtures.RankSortOrdersUnrankedLast | src/data.py:101 | Rank_Sort is the rank when present and 9999 when missing, so an unranked team sorts after every rank below 9999 |
| Fixtures.RankDisplay | src/data.py:102-104 | "-" exactly when the rank is missing; otherwise a decimal string that parses back to the truncated rank |
| Text.ParseIntToString | src/data.py:103 | `str(int(x))` is a faithful rendering: parsing the decimal string gives back the integer |
| Text.IntToStringInjective | src/data.py:103 | different integers get different decimal strings |
| Numbers.Trunc | src/data.py:83 | `astype(int)` truncates toward zero: the floor for non-negative values and the ceiling for negative ones |
| Fixtures.ValidRows | src/data.py:66-72 | rows with a numeric gameweek are kept in their order, as often as they occur; rows without one are gone |
| Fixtures.Shift | src/data.py:83 | every shifted gameweek is at least 1, and rows at the minimum become exactly 1; fixtures are untouched |
| Fixtures.CalculateGameweeks | src/data.py:56-85 | an empty table stays empty; a non-empty table without the column is exactly the missing-column outcome, one with the column but no numeric gameweek exactly the no-valid-rows outcome, and the result is normalised exactly when the table is empty or has the column and a numeric gameweek; then kept + dropped = all rows, the fixtures are the valid rows, every gameweek ≥ 1 and some gameweek = 1 |
| Fixtures.NormalisedIsShift | src/data.py:79-83 | the normalised rows are the valid rows shifted by their minimum gameweek, a value no valid gameweek is below and some valid row has |
| Fixtures.ShiftPreservesOrder | src/data.py:83 | normalisation never reorders gameweeks |
| Fixtures.ShiftPreservesDifferences | src/data.py:83 | for whole-number gameweeks, the difference between two rows' gameweeks is unchanged |
| Text.StrLessTotal | src/pivots.py:8-10 | the name order used to sort the pivot index is total |
| Text.StrLessTransitive | src/pivots.py:8-10 | the name order is transitive |
| Pivots.KeyLessIsStrictTotalOrder | src/pivots.py:8-10 | the (Rank_Sort, Name) index order is a strict total order |
| Pivots.CellLabel | src/pivots.py:3-6 | the label is "" exactly when the metric is missing, and otherwise the formatted value followed by " (HA)" |
| Numbers.FirstPresent | src/pivots.py:10 | "first" aggregation returns the earliest present entry, and nothing only when none is present |
| Pivots.CellValue | src/pivots.py:10 | a value cell is the first present metric among the rows of that key and gameweek (first-wins, no summing), and empty only when all are missing |
| Pivots.CellLabelAt | src/pivots.py:11 | a label cell is the label of the first row of that key and gameweek, "" when there is none |
| Pivots.CellOpponent | src/pivots.py:12 | an opponent cell is the first present opponent of that key and gameweek, "" when there is none |
| Pivots.MakeRow | src/pivots.py:14-18 | a pivot row holds one cell per column; Avg is missing exactly when every value cell is missing, and otherwise times the number of present values equals their sum; its label is the formatted Avg, or "nan" when missing |
| Pivots.CreatePivotTables | src/pivots.py:1-20 | columns are exactly the gameweeks present, sorted; row keys are exactly the (Rank_Sort, Name) pairs present, sorted; every row is built from the input rows |
| Pivots.PivotCoversTeams | src/pivots.py:8-12 | a (Rank_Sort, Name) pair has a pivot row exactly when some input row has it |
| Pivots.PivotKeysDistinct | src/pivots.py:8-12 | each pair yields exactly one pivot row |
| Pivots.AvgWithinValues | src/pivots.py:14 | a present Avg lies within any bounds that hold for every present value cell of the row |
| Pivots.AvgIgnoresMissingGameweek | src/pivots.py:14 | a missing gameweek is skipped, not counted as 0: values 40, NaN, 50 average to 45 |
| Numbers.MeanBounds | src/pivots.py:14 | a mean lies between any lower and upper bound of its values |
| Pivots.ColumnNamesDistinct | src/pivots.py:25-26 | "GW n" names are injective in n and never collide with "Avg" |
| Pivots.RankFor | src/pivots.py:40-44 | the merged rank is missing exactly when no ranking row has the key, and otherwise comes from the first such row |
| Pivots.RankDisplayDeterminedByKey | src/pivots.py:40-41 | rows with the same Rank_Sort and presence of a rank display the same rank, so de-duplicating them loses nothing |
| Pivots.PivotWellFormed | src/pivots.py:10-18 | every row of a built pivot has one cell per column |
| Pivots.PrepareGrid | src/pivots.py:23-50 | selecting an absent gameweek fails (KeyError at line 34), and so does selecting one twice (the `__val` assignment at line 47 receives two columns: ValueError); otherwise the columns are the "GW n" names in caller order then "Avg", one grid row per pivot row with its key and merged rank, each cell's text, value and tip taken from that gameweek's pivot cell, and Avg last with an empty tip |
| Pivots.GridRanksEveryTeam | src/pivots.py:40-48 | when ranks come from the pivoted rows, the left merge gives every grid row a rank |
| Players.Strength | src/player_data.py:48-77 | form and minutes strengths are raw / divisor capped at 1 with no lower clip; the difficulty strength is 1 − raw / 60 for raw in [0, 60], 0 above 60 and 1 below 0 |
| Players.NoLowerClip | src/player_data.py:48-54 | a form or minutes strength is negative exactly when its raw value is (−35 points give −0.5) |
| Players.DifficultyStrengthNonIncreasing | src/player_data.py:61-63 | the difficulty strength lies in [0, 1] and does not increase as opponent scores rise |
| Players.NormalizeStrengthMetrics | src/player_data.py:44-80 | the player's data is unchanged; strength and display columns appear exactly for the counters present; a strength is missing exactly when its raw value is; displays follow the rounding rules (×100 for minutes) |
| Players.Soi | src/player_data.py:117-118 | SOI is always in [0, 1]; it equals the weighted sum when that sum is in [0, 1], is exactly 1 above and exactly 0 below |
| Players.WeightedSumChangeOne | src/player_data.py:102-115 | changing one strength moves the weighted sum by exactly that metric's change in contribution |
| Players.SoiMissingCountsAsZero | src/player_data.py:102-115 | a missing or absent strength contributes exactly as a strength of 0 |
| Players.SoiMonotone | src/player_data.py:99-118 | with a non-negative weight, SOI does not decrease as that strength increases |
| Players.SoiMissingDataExample | src/player_data.py:102-118 | with weights 0.6 and 0.4, a missing L15 form gives 0.6, and a full one gives 1.0 |
| Players.PlayingTeams | src/player_data.py:138-143 | a team plays exactly when it has a fixture in a selected gameweek and competition |
| Players.FilterPlayersByGameweeks | src/player_data.py:146-149 | an order-preserving subsequence: every returned player has the position and a playing club, and every such player is kept as often as it occurs |
| Cohesion.TeamAvgDifficulty | src/matchup_cohesion.py:20-23 | None exactly when the team has no row in the gameweeks; otherwise the NaN-skipping mean of the metric over those rows |
| Cohesion.MeanScoreWithin | src/matchup_cohesion.py:84-85 | a team mean is NaN exactly when every value is, and otherwise lies within the bounds of the values |
| Cohesion.TeamRows | src/matchup_cohesion.py:47-52 | a team's rows are an order-preserving subsequence of the table holding exactly the rows of that team in the selected gameweeks and positions |
| Cohesion.TeamRowsKeepRepeats | src/matchup_cohesion.py:47-52 | a selected row occurs among the team's rows exactly as often as in the table |
| Cohesion.Pct | src/matchup_cohesion.py:65 | a percentage is count / total · 100, 0 for an empty total, and within [0, 100] when count ≤ total |
| Cohesion.DifficultyTermQuirk | src/matchup_cohesion.py:89 | the term is 1 at a combined average of 1 but 0.02 at 1.4, and grows with the average above 1 |
| Cohesion.Blend | src/matchup_cohesion.py:57-111 | overlap = shared gameweeks, within the selected count; both-play % in [0, 100]; both-home count = shared home gameweeks ≤ primary home gameweeks; both-home % in [0, 100] and 0 without primary home games; combined average and score by the weighted formula |
| Cohesion.CalculateCohesionScore | src/matchup_cohesion.py:26-111 | None exactly when either team has no selected rows; otherwise the blended metrics of the two teams' rows |
| Cohesion.CohesionExcludesTeamsWithoutRows | src/matchup_cohesion.py:47-55 | a pair is scored exactly when both teams have a row in the selected gameweeks and positions |
| Cohesion.HasHomeInIsHomeGameweek | src/matchup_cohesion.py:74-77 | the per-gameweek "partner has a home row" test is membership in the partner's home gameweeks |
| Cohesion.CountBothHome | src/matchup_cohesion.py:72-78 | the counting loop returns the number of primary home gameweeks in which the partner is also at home |
| Cohesion.BothPlaySymmetric | src/matchup_cohesion.py:58-65 | swapping the two teams changes neither whether the pair is scored nor its overlap, both-play % and combined average |
| Cohesion.ScoreBounds | src/matchup_cohesion.py:89-95 | the score is positive, and at most 60.4 when the combined average is at most 70 |
| Cohesion.CohesionWorkedExample | src/matchup_cohesion.py:65-95 | Alpha/Beta over gameweeks 1 and 2: both-play 100, both-home 0, combined 50, score 20 + 2/7 |
| Cohesion.PositionTeams | src/matchup_cohesion.py:130 | the candidates are exactly the teams with a row in a selected position, each listed once |
| Cohesion.CohesionNamesPair | src/matchup_cohesion.py:100-102 | a scored pair carries the two team names it was asked for |
| Cohesion.Candidates | src/matchup_cohesion.py:131-140 | the loop keeps exactly the other teams whose pair is scored and meets the both-play minimum; when the teams are distinct, no partner is kept twice |
| Ordering.SortDesc | src/matchup_cohesion.py:147 | sorting by score gives a permutation whose scores do not increase |
| Ordering.Head | src/matchup_cohesion.py:147 | `head(n)` is a prefix of length min(n, size), or all but the last −n rows for negative n |
| Cohesion.TopMatchups | src/matchup_cohesion.py:143-149 | ranks are 1..n in order; every entry qualifies; scores do not increase; at most topN entries, and exactly min(topN, qualifying), or all but the last −topN for negative topN; no qualifying result is reported more often than it qualifies; distinct teams give distinct partners |
| Cohesion.BestCandidates | src/matchup_cohesion.py:143-147 | the sorted and cut results qualify, have non-increasing scores, have the `head(topN)` length for either sign of topN, are drawn from the qualifying results, and name distinct partners when the teams are distinct |
| Cohesion.DistinctCandidates | src/matchup_cohesion.py:130-140 | results drawn from the loop's results, each no more often than it occurs there, name distinct partners when the teams are distinct |
| Cohesion.TopMatchupsKeepBest | src/matchup_cohesion.py:147 | a qualifying result left out by the cut scores no higher than any reported one |
| Cohesion.FindBestMatchups | src/matchup_cohesion.py:114-151 | every entry is a genuine pair score for the primary team and another team, meets the minimum, is ranked 1..n, and scores do not increase down the list; there are exactly min(topN, qualifying partners) entries, or all but the last −topN for negative topN; no partner is reported twice |
| Cohesion.FindBestMatchupsKeepsBest | src/matchup_cohesion.py:130-149 | any other team whose pair qualifies is either reported or scores no higher than every reported team |
| Cohesion.SideAt | src/matchup_cohesion.py:172-198 | a side has no fixture exactly when the team has no row in that gameweek and position; otherwise its difficulty is the mean of those rows |
| Cohesion.SideAtFirstRow | src/matchup_cohesion.py:181-184 | the opponent and location shown are those of the team's first row in that gameweek |
| Cohesion.BestChoice | src/matchup_cohesion.py:203-219 | the primary team exactly when it has data and the partner has none or is strictly harder; the partner exactly when it has data and the primary has none or is not strictly easier; "-" exactly when neither has data |
| Cohesion.DetailRowAt | src/matchup_cohesion.py:171-221 | both-home holds exactly when both sides have a fixture at home; the primary team is best exactly when it has a fixture and the partner has none or is strictly harder, the partner exactly when it has one and the primary has none or is not strictly easier, "-" exactly when neither has one; the best difficulty is the chosen side's, missing for "-" |
| Cohesion.BestChoiceTiesGoToPartner | src/matchup_cohesion.py:204-210 | with equal or NaN difficulties the partner is chosen |
| Cohesion.BestChoiceIsEasier | src/matchup_cohesion.py:203-210 | with two numeric difficulties the best difficulty is the smaller one |
| Cohesion.MatchupDetailGrid | src/matchup_cohesion.py:154-223 | one row per selected gameweek (duplicates repeat), in ascending gameweek order |
| Cohesion.DetailBothHomeCounted | src/matchup_cohesion.py:200-201 | a selected gameweek the detail grid marks both-home is counted as both-home by the cohesion score |
| Cohesion.DetailBothPlayIsOverlap | src/matchup_cohesion.py:172-177 | a selected gameweek has fixtures on both sides of the detail grid exactly when the cohesion score counts it as shared |

## Left out

- Streamlit wiring is left out, as are CSV reading, `pd.to_numeric` / `to_datetime` coercion and caching. Rows arrive already parsed, with `None` for NaN.
- `st.error`, `st.stop` and `st.warning` become the outcomes `MissingGameweekColumn`, `NoValidGameweeks` and the `dropped` count of `Fixtures.CalculateGameweeks`.
- Floating point is not modelled: infinities, the `replace([inf, -inf], nan)` steps and IEEE rounding have no counterpart in `real`. Rounding and number-to-text formatting are function parameters.
- The colour maps are not modelled, nor are the "Date" column and the rest of `load_and_prepare_data`.
- The `Gameweek = pd.NA` column added to an empty table is not modelled, because an empty table has no rows to carry it.
- `pivot_table`'s `dropna` pruning is not modelled: it removes rows or columns whose every value is NaN. The model keeps every key and gameweek present in the input. Pruning could also misalign the positional `__val` / `__tip` assignment.
- `Pivots.PrepareGrid` assumes the pivot comes from `CreatePivotTables`: it requires one cell per column in every row.
- `Pivots.PrepareGrid` does not model duplicate rows from the left merge. They arise only when a rank of 9999 and a missing rank share a team name. Such a merge keeps the first ranking row instead.
- The `position` display string of the cohesion result is not modelled (`", ".join(sorted(positions))`). It is a display label only.
- `prepare_cohesion_display_df` is not modelled: it renames columns and rounds values for display.
- `Cohesion.FindBestMatchups` returns a list even when it is empty. The source returns an empty DataFrame in that case, which differs only in shape.
- `Cohesion.FindBestMatchups` uses a stable sort; pandas' default sort may order equal scores differently. The contracts constrain only the score order, so they hold for either.
- `Cohesion.CountBothHome` iterates over a duplicate-free list of the primary team's home gameweeks rather than over a Python set, whose iteration order is not specified. The count does not depend on the order.
- `Fixtures.ShiftPreservesDifferences` is proved only for whole-number raw gameweeks. With fractional values, truncation can change differences by one.
