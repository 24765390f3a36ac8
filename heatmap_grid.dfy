/** The heat map's calendar grid (one column per week, one row per weekday)
    and the choice of how a single cell is drawn. */
module HeatmapGrid {
  import opened Ledger
  import opened Heatmap

  // ---------------------------------------------------------------------
  // Grid mapping

  /** The weekday of the window's first day, `endDate - (numDays - 1)`. */
  function StartDay(numDays: nat, endDate: int): (d: nat)
    ensures d < 7
  {
    Weekday(endDate - (numDays - 1))
  }

  /** `Math.ceil((numDays + startDay) / 7)`. */
  function NumWeeks(numDays: nat, startDay: nat): (w: nat)
    ensures 7 * w >= numDays + startDay
    ensures w > 0 ==> 7 * (w - 1) < numDays + startDay
  {
    (numDays + startDay + 6) / 7
  }

  datatype GridPos = GridPos(col: nat, row: nat)

  /** Column `floor((index + startDay) / 7)`, row `(index + startDay) % 7`. */
  function Position(index: nat, startDay: nat): (p: GridPos)
    ensures p.row < 7
  {
    GridPos((index + startDay) / 7, (index + startDay) % 7)
  }

  /** The linear index shown at grid position `p`. */
  function IndexAt(p: GridPos, startDay: nat): int {
    7 * p.col + p.row - startDay
  }

  lemma PositionInverse(index: nat, startDay: nat)
    ensures IndexAt(Position(index, startDay), startDay) == index
  {
  }

  lemma PositionInjective(i: nat, j: nat, startDay: nat)
    ensures Position(i, startDay) == Position(j, startDay) ==> i == j
  {
    PositionInverse(i, startDay);
    PositionInverse(j, startDay);
  }

  lemma PositionInBounds(index: nat, numDays: nat, startDay: nat)
    requires startDay < 7 && index < numDays
    ensures Position(index, startDay).row < 7
    ensures Position(index, startDay).col < NumWeeks(numDays, startDay)
  {
  }

  lemma ShiftMod7(a: int, b: nat)
    ensures (b + a % 7) % 7 == (a + b) % 7
  {
    var q := a / 7;
    assert a == 7 * q + a % 7;
    assert a + b == 7 * q + (b + a % 7);
  }

  /** A cell with its grid position; the pixel offsets derived from it are
      screen layout. */
  datatype GridCell = GridCell(cell: Cell, pos: GridPos)

  /** The `cells.map(...)` that places each cell on the grid. */
  function PlaceCells(cells: seq<Cell>, startDay: nat): (g: seq<GridCell>)
    ensures |g| == |cells|
    ensures forall i :: 0 <= i < |g| ==> g[i].cell == cells[i]
  {
    seq(|cells|, i requires 0 <= i < |cells| => GridCell(cells[i], Position(i, startDay)))
  }

  /** Placed on the grid, every cell of the window sits in the row of its own
      weekday and inside the `numWeeks` columns, and no two cells share a
      position. */
  lemma WindowGridLayout(entries: seq<Entry>, numDays: nat, endDate: int)
    ensures var g := PlaceCells(Window(entries, numDays, endDate), StartDay(numDays, endDate));
      |g| == numDays &&
      (forall i :: 0 <= i < |g| ==>
         g[i].pos.row == Weekday(g[i].cell.date) && g[i].pos.col < NumWeeks(numDays, StartDay(numDays, endDate))) &&
      (forall i, j :: 0 <= i < j < |g| ==> g[i].pos != g[j].pos)
  {
    var s := StartDay(numDays, endDate);
    var g := PlaceCells(Window(entries, numDays, endDate), s);
    forall i | 0 <= i < |g|
      ensures g[i].pos.row == Weekday(g[i].cell.date) && g[i].pos.col < NumWeeks(numDays, s)
    {
      assert g[i].pos == Position(i, s);
      WindowCellContents(entries, numDays, endDate, i);
      assert g[i].cell.date == endDate - (numDays - 1) + i;
      ShiftMod7(endDate - (numDays - 1) + 4, i);
      PositionInBounds(i, numDays, s);
    }
    forall i, j | 0 <= i < j < |g| ensures g[i].pos != g[j].pos {
      assert g[i].pos == Position(i, s) && g[j].pos == Position(j, s);
      PositionInjective(i, j, s);
    }
  }

  // ---------------------------------------------------------------------
  // Drawing one cell

  /** The fill of a day with no category. */
  const EmptyFill: string := "#2C2C2E"

  /** `CategoryColors[category] || primaryColor`: the colour table is a
      parameter; a missing or empty colour falls back to the primary one. */
  function PaletteColor(palette: map<string, string>, category: string, primary: string): (c: string)
    ensures category in palette && palette[category] != "" ==> c == palette[category]
    ensures !(category in palette && palette[category] != "") ==> c == primary
  {
    if category in palette && palette[category] != "" then palette[category] else primary
  }

  datatype CellShape =
    | Blank(fill: string)
    | Fill(fill: string, opacity: real)
    | FillOutline(fill: string, stroke: string, opacity: real)

  function Opacity(intensity: real): real {
    0.3 + 0.7 * intensity
  }

  lemma OpacityRange(intensity: real)
    requires 0.0 <= intensity <= 1.0
    ensures 0.3 <= Opacity(intensity) <= 1.0
  {
  }

  /** `HeatmapCell`: no category draws the empty fill; one draws a fill in
      the first category's colour; two or more add an outline in the second
      category's colour, at the same opacity. */
  function RenderCell(categories: seq<string>, intensity: real, primary: string, palette: map<string, string>): (r: CellShape)
    ensures r.Blank? <==> |categories| == 0
    ensures r.Fill? <==> |categories| == 1
    ensures r.FillOutline? <==> |categories| >= 2
    ensures r.Blank? ==> r.fill == EmptyFill
    ensures !r.Blank? ==> r.fill == PaletteColor(palette, categories[0], primary) && r.opacity == Opacity(intensity)
    ensures r.FillOutline? ==> r.stroke == PaletteColor(palette, categories[1], primary)
  {
    if |categories| == 0 then Blank(EmptyFill)
    else if |categories| == 1 then Fill(PaletteColor(palette, categories[0], primary), Opacity(intensity))
    else FillOutline(PaletteColor(palette, categories[0], primary), PaletteColor(palette, categories[1], primary), Opacity(intensity))
  }

  lemma {:induction false} SameCategoryGivesOne(es: seq<Entry>, cat: string)
    requires forall i :: 0 <= i < |es| ==> CategoryOrOther(es[i]) == cat
    ensures DistinctCategories(es) == if es == [] then [] else [cat]
  {
    if es != [] {
      SameCategoryGivesOne(es[..|es| - 1], cat);
    }
  }

  /** How a window cell is drawn: blank exactly on days without entries,
      outlined exactly on days with two or more distinct categories, filled
      in the colour of the day's first entry, at an opacity in [0.3, 1]. */
  lemma RenderWindowCell(entries: seq<Entry>, numDays: nat, endDate: int, i: nat, primary: string, palette: map<string, string>)
    requires NonNegativeAmounts(entries)
    requires i < numDays
    ensures var c := Window(entries, numDays, endDate)[i];
      var r := RenderCell(c.categories, c.intensity, primary, palette);
      (r.Blank? <==> c.entries == []) &&
      (r.FillOutline? <==> |c.categories| >= 2) &&
      (c.entries != [] ==> r.fill == PaletteColor(palette, CategoryOrOther(c.entries[0]), primary)) &&
      (!r.Blank? ==> 0.3 <= r.opacity <= 1.0)
  {
    var c := Window(entries, numDays, endDate)[i];
    WindowCellContents(entries, numDays, endDate, i);
    DistinctCategoriesSpec(c.entries);
    IntensityInUnitInterval(entries, numDays, endDate, i);
    OpacityRange(c.intensity);
  }

  /** A day whose purchases all share one category is drawn as a plain fill,
      however many purchases it has. */
  lemma SameCategoryDayIsPlainFill(entries: seq<Entry>, numDays: nat, endDate: int, i: nat, cat: string, primary: string, palette: map<string, string>)
    requires i < numDays
    requires var c := Window(entries, numDays, endDate)[i];
      c.entries != [] && forall j :: 0 <= j < |c.entries| ==> CategoryOrOther(c.entries[j]) == cat
    ensures var c := Window(entries, numDays, endDate)[i];
      RenderCell(c.categories, c.intensity, primary, palette).Fill?
  {
    var c := Window(entries, numDays, endDate)[i];
    WindowCellContents(entries, numDays, endDate, i);
    SameCategoryGivesOne(c.entries, cat);
  }
}
