/**
 * The periodic-table screen: a fixed list of tiles placed on an 18-column,
 * 7-row grid, the category colour scheme (the element screen's plus the
 * lanthanide and actinide series), the series placeholder tiles and the
 * navigation a tap triggers.
 */
module PeriodicTable {
  import opened Wrappers
  import opened Sequences
  import Elements

  /** A tile: atomic number `n`, symbol `s`, grid column `x`, grid row `y`, category `c`. */
  datatype Tile = Tile(n: nat, s: string, x: int, y: int, c: string)

  const GridColumns := 18
  const GridRows := 7

  const GridData: seq<Tile> := [
    Tile(1, "H", 1, 1, "nonmetal"),
    Tile(2, "He", 18, 1, "noble_gas"),
    Tile(3, "Li", 1, 2, "alkali_metal"),
    Tile(4, "Be", 2, 2, "alkaline_earth_metal"),
    Tile(5, "B", 13, 2, "metalloid"),
    Tile(6, "C", 14, 2, "nonmetal"),
    Tile(7, "N", 15, 2, "nonmetal"),
    Tile(8, "O", 16, 2, "nonmetal"),
    Tile(9, "F", 17, 2, "halogen"),
    Tile(10, "Ne", 18, 2, "noble_gas"),
    Tile(11, "Na", 1, 3, "alkali_metal"),
    Tile(12, "Mg", 2, 3, "alkaline_earth_metal"),
    Tile(13, "Al", 13, 3, "post_transition_metal"),
    Tile(14, "Si", 14, 3, "metalloid"),
    Tile(15, "P", 15, 3, "nonmetal"),
    Tile(16, "S", 16, 3, "nonmetal"),
    Tile(17, "Cl", 17, 3, "halogen"),
    Tile(18, "Ar", 18, 3, "noble_gas"),
    Tile(19, "K", 1, 4, "alkali_metal"),
    Tile(20, "Ca", 2, 4, "alkaline_earth_metal"),
    Tile(21, "Sc", 3, 4, "transition_metal"),
    Tile(22, "Ti", 4, 4, "transition_metal"),
    Tile(23, "V", 5, 4, "transition_metal"),
    Tile(24, "Cr", 6, 4, "transition_metal"),
    Tile(25, "Mn", 7, 4, "transition_metal"),
    Tile(26, "Fe", 8, 4, "transition_metal"),
    Tile(27, "Co", 9, 4, "transition_metal"),
    Tile(28, "Ni", 10, 4, "transition_metal"),
    Tile(29, "Cu", 11, 4, "transition_metal"),
    Tile(30, "Zn", 12, 4, "transition_metal"),
    Tile(31, "Ga", 13, 4, "post_transition_metal"),
    Tile(32, "Ge", 14, 4, "metalloid"),
    Tile(33, "As", 15, 4, "metalloid"),
    Tile(34, "Se", 16, 4, "nonmetal"),
    Tile(35, "Br", 17, 4, "halogen"),
    Tile(36, "Kr", 18, 4, "noble_gas"),
    // the lanthanide and actinide series, one placeholder tile each
    Tile(57, "La-Lu", 3, 6, "lanthanide"),
    Tile(89, "Ac-Lr", 3, 7, "actinide")
  ]

  // ---------------------------------------------------------------------
  // Layout invariants

  predicate InGrid(t: Tile)
  {
    1 <= t.x <= GridColumns && 1 <= t.y <= GridRows
  }

  /** Every tile lies inside the 18 x 7 grid template. */
  lemma TilesInGrid()
    ensures forall k :: 0 <= k < |GridData| ==> InGrid(GridData[k])
  {
  }

  /** The cell of a tile, counted row by row from 0. */
  function CellIndex(t: Tile): int
  {
    (t.y - 1) * GridColumns + (t.x - 1)
  }

  function CellIndices(s: seq<Tile>): (r: seq<int>)
    ensures |r| == |s| && forall i :: 0 <= i < |s| ==> r[i] == CellIndex(s[i])
  {
    seq(|s|, i requires 0 <= i < |s| => CellIndex(s[i]))
  }

  function TileNumbers(s: seq<Tile>): (r: seq<int>)
    ensures |r| == |s| && forall i :: 0 <= i < |s| ==> r[i] == s[i].n
  {
    seq(|s|, i requires 0 <= i < |s| => s[i].n)
  }

  /** Read row by row, the tiles come in increasing cell order. */
  lemma CellsIncrease()
    ensures AdjacentIncreasing(CellIndices(GridData))
  {
  }

  /** No two tiles occupy the same cell. */
  lemma TilesDoNotOverlap()
    ensures forall i, j :: 0 <= i < j < |GridData| ==>
      GridData[i].x != GridData[j].x || GridData[i].y != GridData[j].y
  {
    var cells := CellIndices(GridData);
    CellsIncrease();
    AdjacentIncreasingIsStrict(cells);
    forall i, j | 0 <= i < j < |GridData|
      ensures GridData[i].x != GridData[j].x || GridData[i].y != GridData[j].y
    {
      assert cells[i] < cells[j];
    }
  }

  /** Atomic numbers increase strictly along the list. */
  lemma NumbersIncrease()
    ensures StrictlyIncreasing(TileNumbers(GridData))
  {
    AdjacentIncreasingIsStrict(TileNumbers(GridData));
  }

  // ---------------------------------------------------------------------
  // Category colours

  /** The element screen's palette extended with the two series. */
  const TablePalette: map<string, string> :=
    Elements.CategoryPalette["lanthanide" := "#8bc34a"]["actinide" := "#ff5722"]

  function CategoryColor(category: string): (color: string)
    ensures category in TablePalette ==> color == TablePalette[category]
    ensures category !in TablePalette ==> color == Elements.DefaultColor
    ensures color == Elements.DefaultColor <==> category !in TablePalette
  {
    match category
    case "alkali_metal" => "#f44336"
    case "alkaline_earth_metal" => "#ff9800"
    case "transition_metal" => "#4caf50"
    case "post_transition_metal" => "#03a9f4"
    case "metalloid" => "#ffeb3b"
    case "nonmetal" => "#9e9e9e"
    case "halogen" => "#e91e63"
    case "noble_gas" => "#9c27b0"
    case "lanthanide" => "#8bc34a"
    case "actinide" => "#ff5722"
    case _ => Elements.DefaultColor
  }

  /** Outside the two series, both screens colour a category alike. */
  lemma SharedCategoriesAgree(category: string)
    requires category != "lanthanide" && category != "actinide"
    ensures CategoryColor(category) == Elements.CategoryColor(category)
  {
  }

  // ---------------------------------------------------------------------
  // Tiles

  /** A tile that stands for a whole series: its symbol holds a dash. */
  predicate IsPlaceholder(t: Tile)
  {
    '-' in t.s
  }

  /** The style attributes a tile receives. */
  datatype TileStyle = TileStyle(
    gridColumnStart: int,
    gridRowStart: int,
    gridColumnEnd: Option<int>,
    backgroundColor: string,
    borderColor: string,
    borderWidth: Option<int>,
    centered: bool)

  /** What a tile displays. */
  datatype TileLabel = SeriesLabel(text: string) | NumberAndSymbol(number: nat, symbol: string)

  /**
   * The tile's style: placed at its column and row in its category colour;
   * a placeholder spans ten columns on white with a grey border of width 1,
   * its content centred.
   */
  function StyleOf(t: Tile): (st: TileStyle)
    ensures st.gridColumnStart == t.x && st.gridRowStart == t.y
    ensures st.gridColumnEnd.Some? <==> IsPlaceholder(t)
    ensures IsPlaceholder(t) ==>
      (st.gridColumnEnd == Some(t.x + 10) && st.backgroundColor == "#fff"
       && st.borderColor == "#666" && st.borderWidth == Some(1) && st.centered)
    ensures !IsPlaceholder(t) ==>
      (st.backgroundColor == CategoryColor(t.c) && st.borderColor == CategoryColor(t.c)
       && st.borderWidth.None? && !st.centered)
  {
    var color := CategoryColor(t.c);
    if IsPlaceholder(t) then TileStyle(t.x, t.y, Some(t.x + 10), "#fff", "#666", Some(1), true)
    else TileStyle(t.x, t.y, None, color, color, None, false)
  }

  /** A placeholder shows its symbol alone; any other tile its number and symbol. */
  function LabelOf(t: Tile): (shown: TileLabel)
    ensures shown.SeriesLabel? <==> IsPlaceholder(t)
    ensures shown.SeriesLabel? ==> shown.text == t.s
    ensures shown.NumberAndSymbol? ==> shown.number == t.n && shown.symbol == t.s
  {
    if IsPlaceholder(t) then SeriesLabel(t.s) else NumberAndSymbol(t.n, t.s)
  }

  /** The placeholders in the list are exactly the last two tiles, the two series. */
  lemma PlaceholdersAreTheSeries()
    ensures forall k :: 0 <= k < |GridData| ==> (IsPlaceholder(GridData[k]) <==> k >= 36)
  {
    forall k | 0 <= k < 36 ensures !IsPlaceholder(GridData[k]) {
      assert |GridData[k].s| <= 2 && forall i :: 0 <= i < |GridData[k].s| ==> GridData[k].s[i] != '-';
    }
    assert GridData[36].s[2] == '-' && GridData[37].s[2] == '-';
  }

  /**
   * A placeholder's ten-column span ends inside the grid and meets no other
   * tile: no other tile stands in its row.
   */
  lemma PlaceholderSpansAreFree()
    ensures forall k :: 0 <= k < |GridData| && IsPlaceholder(GridData[k]) ==>
      GridData[k].x + 10 <= GridColumns + 1
      && forall j :: 0 <= j < |GridData| && j != k ==> GridData[j].y != GridData[k].y
  {
    PlaceholdersAreTheSeries();
  }

  // ---------------------------------------------------------------------
  // Navigation

  /** A navigation request: the target screen and its `search` parameter. */
  datatype Route = Route(screen: string, search: string)

  /** A tap on a tile opens the element screen with the tile's symbol as the search. */
  function HandleElementPress(symbol: string): (route: Route)
    ensures route.screen == "Elements" && route.search == symbol
  {
    Route("Elements", symbol)
  }

  function OnTilePress(t: Tile): Route
  {
    HandleElementPress(t.s)
  }

  /**
   * Searching for a tapped tile's symbol lists the element with that symbol,
   * whenever the element screen's table has one (the element screen does
   * not read the parameter; this is the intended use).
   */
  lemma TapSearchFindsElement(t: Tile, e: Elements.Element)
    requires e in Elements.ElementData && e.symbol == t.s
    ensures e in Elements.Search(OnTilePress(t).search)
  {
  }
}
