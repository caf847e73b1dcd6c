/** The fixture pivot (src/pivots.py): flat fixture rows become a grid keyed
    by (Rank_Sort, Name) with one column per gameweek, holding the first
    difficulty value, its label and the opponent, plus a trailing average;
    the grid is then laid out in the caller's gameweek order. */
module Pivots {
  import opened Wrappers
  import opened Numbers
  import opened Text
  import opened Ordering
  import opened Fixtures

  /** The pivot index: a team's ranking sort key and name. */
  datatype Key = Key(rankSort: int, name: string)

  function KeyOf(r: Row): Key {
    Key(RankSort(r.fixture.ranking), r.fixture.name)
  }

  /** pandas' index order: by Rank_Sort, then by Name. */
  predicate KeyLess(a: Key, b: Key) {
    a.rankSort < b.rankSort || (a.rankSort == b.rankSort && StrLess(a.name, b.name))
  }

  predicate IntLess(a: int, b: int) {
    a < b
  }

  lemma KeyLessIsStrictTotalOrder()
    ensures StrictTotalOrder(KeyLess)
  {
    forall x: Key ensures !KeyLess(x, x) {
      StrLessIrreflexive(x.name);
    }
    forall x: Key, y: Key, z: Key | KeyLess(x, y) && KeyLess(y, z) ensures KeyLess(x, z) {
      if x.rankSort == y.rankSort == z.rankSort {
        StrLessTransitive(x.name, y.name, z.name);
      }
    }
    forall x: Key, y: Key | x != y ensures KeyLess(x, y) || KeyLess(y, x) {
      StrLessTotal(x.name, y.name);
    }
  }

  lemma IntLessIsStrictTotalOrder()
    ensures StrictTotalOrder(IntLess)
  {
  }

  /** The "CellLabel" column: the formatted metric followed by " (H)" or
      " (A)"; empty exactly when the metric is missing. `format` stands for
      rounding to one decimal and rendering as text. */
  function CellLabel(r: Row, metric: Metric, format: real -> string): (s: string)
    ensures s == "" <==> Score(r.fixture, metric).None?
    ensures Score(r.fixture, metric).Some? ==>
      s == format(Score(r.fixture, metric).value) + " (" + HA(r.fixture) + ")"
  {
    match Score(r.fixture, metric)
    case None => ""
    case Some(v) => format(v) + " (" + HA(r.fixture) + ")"
  }

  predicate InCell(r: Row, k: Key, g: int) {
    KeyOf(r) == k && r.gameweek == g
  }

  /** One pivot cell: its value, label and opponent. */
  datatype Cell = Cell(value: Option<real>, text: string, opponent: string)

  /** One pivot row: a cell per column, then the "Avg" column. */
  datatype PivotRow = PivotRow(key: Key, cells: seq<Cell>, avg: Option<real>, avgLabel: string)

  /** The three pivots of `create_pivot_tables`, sharing index and columns. */
  datatype Pivot = Pivot(columns: seq<int>, rows: seq<PivotRow>)

  /** The value cell: the first present metric among the rows of that team
      and gameweek (pandas `first` skips NaN); nothing is summed or averaged. */
  function CellValue(rows: seq<Row>, k: Key, g: int, metric: Metric): (v: Option<real>)
    ensures v.None? <==> forall i :: 0 <= i < |rows| && InCell(rows[i], k, g) ==> Score(rows[i].fixture, metric).None?
    ensures v.Some? ==>
      exists i :: 0 <= i < |rows| && InCell(rows[i], k, g) && Score(rows[i].fixture, metric) == v &&
        forall j :: 0 <= j < i && InCell(rows[j], k, g) ==> Score(rows[j].fixture, metric).None?
  {
    var xs := seq(|rows|, i requires 0 <= i < |rows| => if InCell(rows[i], k, g) then Score(rows[i].fixture, metric) else None);
    assert forall i :: 0 <= i < |rows| ==> xs[i] == if InCell(rows[i], k, g) then Score(rows[i].fixture, metric) else None;
    var v := FirstPresent(xs);
    if v.Some? then
      var i :| 0 <= i < |xs| && xs[i] == v && forall j :: 0 <= j < i ==> xs[j].None?;
      assert InCell(rows[i], k, g);
      v
    else v
  }

  /** The label cell: the label of the first row of that team and gameweek
      (labels are never NaN, so `first` takes that row even when its label is
      empty), and "" when the team has no row there. */
  function CellLabelAt(rows: seq<Row>, k: Key, g: int, metric: Metric, format: real -> string): (s: string)
    ensures (forall i :: 0 <= i < |rows| ==> !InCell(rows[i], k, g)) ==> s == ""
    ensures forall i ::
      (0 <= i < |rows| && InCell(rows[i], k, g) && forall j :: 0 <= j < i ==> !InCell(rows[j], k, g))
      ==> s == CellLabel(rows[i], metric, format)
  {
    var xs := seq(|rows|, i requires 0 <= i < |rows| => if InCell(rows[i], k, g) then Some(CellLabel(rows[i], metric, format)) else None);
    assert forall i :: 0 <= i < |rows| ==> xs[i] == if InCell(rows[i], k, g) then Some(CellLabel(rows[i], metric, format)) else None;
    FirstPresent(xs).GetOr("")
  }

  /** The opponent cell: the first present opponent of that team and gameweek, or "". */
  function CellOpponent(rows: seq<Row>, k: Key, g: int): (o: string)
    ensures (forall i :: 0 <= i < |rows| && InCell(rows[i], k, g) ==> rows[i].fixture.opponent.None?) ==> o == ""
    ensures forall i ::
      (0 <= i < |rows| && InCell(rows[i], k, g) && rows[i].fixture.opponent.Some? &&
       forall j :: 0 <= j < i && InCell(rows[j], k, g) ==> rows[j].fixture.opponent.None?)
      ==> o == rows[i].fixture.opponent.value
  {
    var xs := seq(|rows|, i requires 0 <= i < |rows| => if InCell(rows[i], k, g) then rows[i].fixture.opponent else None);
    assert forall i :: 0 <= i < |rows| ==> xs[i] == if InCell(rows[i], k, g) then rows[i].fixture.opponent else None;
    FirstPresent(xs).GetOr("")
  }

  function MakeCell(rows: seq<Row>, k: Key, g: int, metric: Metric, format: real -> string): Cell {
    Cell(CellValue(rows, k, g, metric), CellLabelAt(rows, k, g, metric, format), CellOpponent(rows, k, g))
  }

  function Values(cells: seq<Cell>): (vs: seq<Option<real>>)
    ensures |vs| == |cells|
    ensures forall i :: 0 <= i < |cells| ==> vs[i] == cells[i].value
  {
    seq(|cells|, i requires 0 <= i < |cells| => cells[i].value)
  }

  /** `round(1).astype(str)` of the average; pandas renders NaN as "nan". */
  function AvgLabel(avg: Option<real>, format: real -> string): string {
    match avg
    case Some(a) => format(a)
    case None => "nan"
  }

  function MakeRow(rows: seq<Row>, k: Key, columns: seq<int>, metric: Metric, format: real -> string): (p: PivotRow)
    ensures p.key == k && |p.cells| == |columns|
    ensures forall c :: 0 <= c < |columns| ==> p.cells[c] == MakeCell(rows, k, columns[c], metric, format)
    ensures p.avg.None? <==> forall c :: 0 <= c < |p.cells| ==> p.cells[c].value.None?
    ensures IsMeanOf(p.avg, Present(Values(p.cells)))
    ensures p.avg.None? ==> p.avgLabel == "nan"
    ensures p.avg.Some? ==> p.avgLabel == format(p.avg.value)
  {
    var cells := seq(|columns|, c requires 0 <= c < |columns| => MakeCell(rows, k, columns[c], metric, format));
    var avg := RowAverage(cells);
    PivotRow(k, cells, avg, AvgLabel(avg, format))
  }

  /** The "Avg" column: the mean of the row's present values (`mean(axis=1)`
      skips NaN), missing when there is none. */
  function RowAverage(cells: seq<Cell>): (avg: Option<real>)
    ensures avg.None? <==> forall c :: 0 <= c < |cells| ==> cells[c].value.None?
    ensures IsMeanOf(avg, Present(Values(cells)))
  {
    NoPresentValue(cells);
    Mean(Present(Values(cells)))
  }

  /** A row has no present value exactly when every cell's value is missing. */
  lemma NoPresentValue(cells: seq<Cell>)
    ensures |Present(Values(cells))| == 0 <==> forall c :: 0 <= c < |cells| ==> cells[c].value.None?
  {
    var vs := Values(cells);
    if |Present(vs)| > 0 {
      assert Present(vs)[0] in Present(vs);
      var c :| 0 <= c < |vs| && vs[c] == Some(Present(vs)[0]);
      assert cells[c].value.Some?;
    } else {
      forall c | 0 <= c < |cells| ensures cells[c].value.None? {
        assert vs[c] in vs;
      }
    }
  }

  function GameweekColumn(rows: seq<Row>): (gs: seq<int>)
    ensures |gs| == |rows|
    ensures forall i :: 0 <= i < |rows| ==> gs[i] == rows[i].gameweek
  {
    seq(|rows|, i requires 0 <= i < |rows| => rows[i].gameweek)
  }

  function KeyColumn(rows: seq<Row>): (ks: seq<Key>)
    ensures |ks| == |rows|
    ensures forall i :: 0 <= i < |rows| ==> ks[i] == KeyOf(rows[i])
  {
    seq(|rows|, i requires 0 <= i < |rows| => KeyOf(rows[i]))
  }

  /** `create_pivot_tables`: one row per distinct (Rank_Sort, Name) in index
      order, one column per distinct gameweek in ascending order. */
  function CreatePivotTables(rows: seq<Row>, metric: Metric, format: real -> string): (p: Pivot)
    ensures StrictlySorted(IntLess, p.columns)
    ensures forall g :: g in p.columns <==> exists i :: 0 <= i < |rows| && rows[i].gameweek == g
    ensures StrictlySorted(KeyLess, Keys(p))
    ensures forall k :: k in Keys(p) <==> exists i :: 0 <= i < |rows| && KeyOf(rows[i]) == k
    ensures forall i :: 0 <= i < |p.rows| ==> p.rows[i] == MakeRow(rows, p.rows[i].key, p.columns, metric, format)
  {
    KeyLessIsStrictTotalOrder();
    IntLessIsStrictTotalOrder();
    var columns := SortedUnique(IntLess, GameweekColumn(rows));
    var keys := SortedUnique(KeyLess, KeyColumn(rows));
    var p := Pivot(columns, seq(|keys|, i requires 0 <= i < |keys| => MakeRow(rows, keys[i], columns, metric, format)));
    assert Keys(p) == keys;
    p
  }

  function Keys(p: Pivot): (ks: seq<Key>)
    ensures |ks| == |p.rows|
    ensures forall i :: 0 <= i < |p.rows| ==> ks[i] == p.rows[i].key
    ensures forall k :: k in ks <==> exists i :: 0 <= i < |p.rows| && p.rows[i].key == k
  {
    seq(|p.rows|, i requires 0 <= i < |p.rows| => p.rows[i].key)
  }

  /** Every team of the input has a pivot row, and only those teams do. */
  lemma PivotCoversTeams(rows: seq<Row>, metric: Metric, format: real -> string, k: Key)
    ensures (exists i :: 0 <= i < |rows| && KeyOf(rows[i]) == k) <==>
      (exists i :: 0 <= i < |CreatePivotTables(rows, metric, format).rows| && CreatePivotTables(rows, metric, format).rows[i].key == k)
  {
    var p := CreatePivotTables(rows, metric, format);
    assert k in Keys(p) <==> exists i :: 0 <= i < |rows| && KeyOf(rows[i]) == k;
  }

  /** No team has two pivot rows. */
  lemma PivotKeysDistinct(rows: seq<Row>, metric: Metric, format: real -> string, i: int, j: int)
    requires 0 <= i < |CreatePivotTables(rows, metric, format).rows|
    requires 0 <= j < |CreatePivotTables(rows, metric, format).rows|
    requires CreatePivotTables(rows, metric, format).rows[i].key == CreatePivotTables(rows, metric, format).rows[j].key
    ensures i == j
  {
    var p := CreatePivotTables(rows, metric, format);
    var ks := Keys(p);
    if i != j {
      var lo, hi := if i < j then i else j, if i < j then j else i;
      assert KeyLess(ks[lo], ks[hi]);
      StrLessIrreflexive(ks[i].name);
    }
  }

  /** The "Avg" value lies within any bounds that hold for all of the row's
      present values. */
  lemma AvgWithinValues(rows: seq<Row>, k: Key, columns: seq<int>, metric: Metric, format: real -> string,
                        lo: real, hi: real)
    requires forall c :: 0 <= c < |columns| && CellValue(rows, k, columns[c], metric).Some? ==>
      lo <= CellValue(rows, k, columns[c], metric).value <= hi
    ensures var r := MakeRow(rows, k, columns, metric, format); r.avg.Some? ==> lo <= r.avg.value <= hi
  {
    var r := MakeRow(rows, k, columns, metric, format);
    assert forall c :: 0 <= c < |r.cells| ==> r.cells[c].value == CellValue(rows, k, columns[c], metric);
    PresentWithin(r.cells, lo, hi);
    if r.avg.Some? {
      MeanOfWithin(r.avg, Present(Values(r.cells)), lo, hi);
    }
  }

  lemma PresentWithin(cells: seq<Cell>, lo: real, hi: real)
    requires forall c :: 0 <= c < |cells| && cells[c].value.Some? ==> lo <= cells[c].value.value <= hi
    ensures forall i :: 0 <= i < |Present(Values(cells))| ==> lo <= Present(Values(cells))[i] <= hi
  {
    var vs := Values(cells);
    var xs := Present(vs);
    forall i | 0 <= i < |xs| ensures lo <= xs[i] <= hi {
      assert xs[i] in xs;
      var j :| 0 <= j < |vs| && vs[j] == Some(xs[i]);
    }
  }

  /** Values 40 and 50 with one gameweek missing average to 45. */
  lemma AvgIgnoresMissingGameweek()
    ensures MeanPresent([Some(40.0), None, Some(50.0)]) == Some(45.0)
  {
    var xs := [40.0, 50.0];
    assert Present([Some(40.0), None, Some(50.0)]) == xs;
    assert xs[..1] == [40.0] && [40.0][..0] == [];
    assert Sum(xs) == 90.0;
  }

  /** Display name of a gameweek column. */
  function ColumnName(g: int): string {
    "GW " + IntToString(g)
  }

  const AvgColumn: string := "Avg"

  /** The renaming of gameweeks to column names is one-to-one and never
      produces the "Avg" column. */
  lemma ColumnNamesDistinct(a: int, b: int)
    ensures ColumnName(a) == ColumnName(b) ==> a == b
    ensures ColumnName(a) != AvgColumn
  {
    if ColumnName(a) == ColumnName(b) {
      assert IntToString(a) == ColumnName(a)[3..];
      IntToStringInjective(a, b);
    }
    assert ColumnName(a)[0] == 'G';
  }

  /** Two rows with the same rank sort key show the same rank text unless
      exactly one of them is unranked, so merging on (Rank_Sort, Name) finds
      at most one display value per key in practice. */
  lemma RankDisplayDeterminedByKey(a: Option<real>, b: Option<real>)
    requires RankSort(a) == RankSort(b) && a.Some? == b.Some?
    ensures RankDisplay(a) == RankDisplay(b)
  {
  }

  /** The rank merged onto a grid row: the display rank of the first ranking
      row with the same key, missing when there is none (a left merge). */
  function RankFor(rankRows: seq<Row>, k: Key): (rank: Option<string>)
    ensures rank.None? <==> forall i :: 0 <= i < |rankRows| ==> KeyOf(rankRows[i]) != k
    ensures rank.Some? ==>
      exists i :: 0 <= i < |rankRows| && KeyOf(rankRows[i]) == k && rank.value == RankDisplay(rankRows[i].fixture.ranking)
        && forall j :: 0 <= j < i ==> KeyOf(rankRows[j]) != k
  {
    var xs := seq(|rankRows|, i requires 0 <= i < |rankRows| =>
      if KeyOf(rankRows[i]) == k then Some(RankDisplay(rankRows[i].fixture.ranking)) else None);
    assert forall i :: 0 <= i < |rankRows| ==>
      xs[i] == if KeyOf(rankRows[i]) == k then Some(RankDisplay(rankRows[i].fixture.ranking)) else None;
    var r := FirstPresent(xs);
    if r.Some? then
      var i :| 0 <= i < |xs| && xs[i] == r && forall j :: 0 <= j < i ==> xs[j].None?;
      assert KeyOf(rankRows[i]) == k;
      r
    else r
  }

  /** Position of a gameweek among the pivot's columns. */
  function ColumnIndex(columns: seq<int>, g: int): (c: nat)
    requires g in columns
    ensures c < |columns| && columns[c] == g
  {
    if columns[0] == g then 0 else 1 + ColumnIndex(columns[1..], g)
  }

  /** A grid cell: the visible label, the hidden `__val` value and `__tip` opponent. */
  datatype GridCell = GridCell(text: string, value: Option<real>, tip: string)

  datatype GridRow = GridRow(rankSort: int, name: string, rank: Option<string>, cells: seq<GridCell>)

  /** The grid: all column names in display order, the gameweek column names
      returned to the caller, and one row per pivot row. */
  datatype Grid = Grid(columns: seq<string>, gwColumns: seq<string>, rows: seq<GridRow>)

  predicate WellFormed(p: Pivot) {
    forall i :: 0 <= i < |p.rows| ==> |p.rows[i].cells| == |p.columns|
  }

  lemma PivotWellFormed(rows: seq<Row>, metric: Metric, format: real -> string)
    ensures WellFormed(CreatePivotTables(rows, metric, format))
  {
  }

  function ToGridCell(c: Cell): GridCell {
    GridCell(c.text, c.value, c.opponent)
  }

  function GridRowOf(pr: PivotRow, columns: seq<int>, rankRows: seq<Row>, gameweeks: seq<int>): (r: GridRow)
    requires |pr.cells| == |columns|
    requires forall c :: 0 <= c < |gameweeks| ==> gameweeks[c] in columns
    ensures |r.cells| == |gameweeks| + 1
  {
    var gwCells := seq(|gameweeks|, c requires 0 <= c < |gameweeks| => ToGridCell(pr.cells[ColumnIndex(columns, gameweeks[c])]));
    GridRow(pr.key.rankSort, pr.key.name, RankFor(rankRows, pr.key), gwCells + [GridCell(pr.avgLabel, pr.avg, "")])
  }

  /** `prepare_grid_dataframe`: rename the gameweek columns "GW n", keep them
      in the caller's order followed by "Avg", merge the display rank, and
      attach the value and opponent of every column. Selecting a gameweek the
      pivot lacks raises a KeyError in pandas, and selecting one twice makes
      the `__val` assignment receive two columns and raise a ValueError: in
      both cases, `None`. */
  function PrepareGrid(p: Pivot, rankRows: seq<Row>, gameweeks: seq<int>): (r: Option<Grid>)
    requires WellFormed(p)
    ensures r.None? <==>
      (exists c :: 0 <= c < |gameweeks| && gameweeks[c] !in p.columns) ||
      (exists i, j :: 0 <= i < j < |gameweeks| && gameweeks[i] == gameweeks[j])
    ensures r.Some? ==>
      && |r.value.gwColumns| == |gameweeks|
      && (forall c :: 0 <= c < |gameweeks| ==> r.value.gwColumns[c] == ColumnName(gameweeks[c]))
      && r.value.columns == r.value.gwColumns + [AvgColumn]
      && |r.value.rows| == |p.rows|
      && forall i :: 0 <= i < |p.rows| ==>
        var row := r.value.rows[i];
        var pr := p.rows[i];
        && row.rankSort == pr.key.rankSort && row.name == pr.key.name
        && row.rank == RankFor(rankRows, pr.key)
        && |row.cells| == |r.value.columns|
        && (forall c :: 0 <= c < |gameweeks| ==>
              row.cells[c] == ToGridCell(pr.cells[ColumnIndex(p.columns, gameweeks[c])]))
        && row.cells[|gameweeks|] == GridCell(pr.avgLabel, pr.avg, "")
  {
    if (exists c :: 0 <= c < |gameweeks| && gameweeks[c] !in p.columns) ||
       (exists i, j :: 0 <= i < j < |gameweeks| && gameweeks[i] == gameweeks[j])
    then None
    else
      var gwColumns := seq(|gameweeks|, c requires 0 <= c < |gameweeks| => ColumnName(gameweeks[c]));
      var rows := seq(|p.rows|, i requires 0 <= i < |p.rows| => GridRowOf(p.rows[i], p.columns, rankRows, gameweeks));
      Some(Grid(gwColumns + [AvgColumn], gwColumns, rows))
  }

  /** When the ranks come from the rows that were pivoted, as on the
      dashboard, the left merge finds a rank for every grid row. */
  lemma GridRanksEveryTeam(rows: seq<Row>, metric: Metric, format: real -> string, gameweeks: seq<int>)
    ensures var p := CreatePivotTables(rows, metric, format);
      var r := PrepareGrid(p, rows, gameweeks);
      r.Some? ==> forall i :: 0 <= i < |r.value.rows| ==> r.value.rows[i].rank.Some?
  {
    var p := CreatePivotTables(rows, metric, format);
    var r := PrepareGrid(p, rows, gameweeks);
    if r.Some? {
      forall i | 0 <= i < |r.value.rows| ensures r.value.rows[i].rank.Some? {
        var k := p.rows[i].key;
        assert k in Keys(p);
        var j :| 0 <= j < |rows| && KeyOf(rows[j]) == k;
      }
    }
  }
}
