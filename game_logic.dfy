/** The play-time rule checks: whether a value may go into a cell under the
    Sudoku rules and the cage rules, which values remain possible for a cell,
    and whether the whole board is solved. Boards are read, never written. */
module GameLogic {
  import opened KillerTypes
  import opened Sudoku

  /** Placing `value` at (row, col) repeats no value of another cell of the
      same row, column or block; 0 (empty) is always accepted. */
  method IsCellValidForSudokuRules(g: Grid, row: int, col: int, value: int) returns (ok: bool)
    requires IsGrid(g) && 0 <= row < 9 && 0 <= col < 9
    ensures ok <==> NoConflict(g, row, col, value)
  {
    if value == 0 {
      return true;
    }
    var c := 0;
    while c < 9
      invariant 0 <= c <= 9
      invariant forall c' :: 0 <= c' < c && c' != col ==> g[row][c'] != value
    {
      if c != col && g[row][c] == value {
        return false;
      }
      c := c + 1;
    }
    var r := 0;
    while r < 9
      invariant 0 <= r <= 9
      invariant forall r' :: 0 <= r' < r && r' != row ==> g[r'][col] != value
    {
      if r != row && g[r][col] == value {
        return false;
      }
      r := r + 1;
    }
    var blockRow := (row / 3) * 3;
    var blockCol := (col / 3) * 3;
    r := blockRow;
    while r < blockRow + 3
      invariant blockRow <= r <= blockRow + 3
      invariant forall r', c' :: blockRow <= r' < r && blockCol <= c' < blockCol + 3 && (r' != row || c' != col) ==>
        g[r'][c'] != value
    {
      c := blockCol;
      while c < blockCol + 3
        invariant blockCol <= c <= blockCol + 3
        invariant forall r', c' :: blockRow <= r' < r && blockCol <= c' < blockCol + 3 && (r' != row || c' != col) ==>
          g[r'][c'] != value
        invariant forall c' :: blockCol <= c' < c && (r != row || c' != col) ==> g[r][c'] != value
      {
        if (r != row || c != col) && g[r][c] == value {
          return false;
        }
        c := c + 1;
      }
      r := r + 1;
    }
    forall r', c' | 0 <= r' < 9 && 0 <= c' < 9 && SameBlock(r', c', row, col)
      ensures blockRow <= r' < blockRow + 3 && blockCol <= c' < blockCol + 3
    {
    }
    return true;
  }

  /** The values kept by `filter(v => v !== 0)`, in order. */
  function NonZero(s: seq<int>): (r: seq<int>)
    ensures forall x :: x in r <==> x in s && x != 0
    ensures |r| <= |s|
    ensures (forall k :: 0 <= k < |s| ==> s[k] != 0) ==> r == s
  {
    if s == [] then []
    else
      var front, last := s[..|s| - 1], s[|s| - 1];
      assert s == front + [last];
      NonZero(front) + (if last != 0 then [last] else [])
  }

  /** No nonzero value occurs twice. */
  ghost predicate FilledDistinct(s: seq<int>)
  {
    forall i, j :: 0 <= i < j < |s| && s[i] != 0 ==> s[i] != s[j]
  }

  lemma {:induction false} NonZeroDistinct(s: seq<int>)
    ensures NoRepeats(NonZero(s)) <==> FilledDistinct(s)
  {
    if s != [] {
      var front, last := s[..|s| - 1], s[|s| - 1];
      assert s == front + [last];
      NonZeroDistinct(front);
      assert FilledDistinct(s) <==> FilledDistinct(front) && (last != 0 ==> last !in front) by {
        forall i, j | 0 <= i < j < |front| ensures s[i] == front[i] && s[j] == front[j] { }
        if FilledDistinct(front) && (last != 0 ==> last !in front) {
          forall i, j | 0 <= i < j < |s| && s[i] != 0 ensures s[i] != s[j] {
            if j < |front| { assert s[j] == front[j]; } else { assert s[i] == front[i]; }
          }
        }
        if FilledDistinct(s) && last != 0 {
          forall i | 0 <= i < |front| ensures front[i] != last {
            assert s[i] == front[i] && s[|front|] == last;
          }
        }
      }
      if last != 0 {
        assert NonZero(s) == NonZero(front) + [last];
        NoRepeatsSnoc(NonZero(front), last);
      } else {
        assert NonZero(s) == NonZero(front);
      }
    }
  }

  lemma {:induction false} SumNonZero(s: seq<int>)
    ensures Sum(NonZero(s)) == Sum(s)
  {
    if s != [] {
      var front, last := s[..|s| - 1], s[|s| - 1];
      assert s == front + [last];
      SumNonZero(front);
      SumSnoc(front, last);
      if last != 0 {
        SumSnoc(NonZero(front), last);
        assert NonZero(s) == NonZero(front) + [last];
      } else {
        assert NonZero(s) == NonZero(front);
      }
    }
  }

  /** Two different cells of the cage hold the same nonzero value
      (`new Set(values).size !== values.length` over the nonzero values). */
  function HasDuplicatesInCage(g: Grid, cage: Cage): (r: bool)
    requires IsGrid(g) && CellsInGrid(cage.cells)
    ensures r <==> !FilledDistinct(Values(g, cage.cells))
  {
    var values := NonZero(Values(g, cage.cells));
    DistinctCardinality(values);
    NonZeroDistinct(Values(g, cage.cells));
    |Elems(values)| != |values|
  }

  /** The sum of the cage's values, empty cells counting 0. */
  function CalculateCageSum(g: Grid, cage: Cage): (r: int)
    requires IsGrid(g) && CellsInGrid(cage.cells)
    ensures r == Sum(NonZero(Values(g, cage.cells)))
  {
    SumNonZero(Values(g, cage.cells));
    CellSum(g, cage.cells)
  }

  /** No cell of the cage is empty. */
  function IsCageFilled(g: Grid, cage: Cage): (r: bool)
    requires IsGrid(g) && CellsInGrid(cage.cells)
    ensures r <==> 0 !in Values(g, cage.cells)
  {
    forall k :: 0 <= k < |cage.cells| ==> At(g, cage.cells[k]) != 0
  }

  /** A cage is complete when its cells are all filled, add up to the cage
      sum, and hold no value twice. */
  function IsCageComplete(g: Grid, cage: Cage): (r: bool)
    requires IsGrid(g) && CellsInGrid(cage.cells)
    ensures r <==> var vs := Values(g, cage.cells);
      0 !in vs && Sum(vs) == cage.sum && NoRepeats(vs)
  {
    if !IsCageFilled(g, cage) then false
    else if CalculateCageSum(g, cage) != cage.sum then false
    else !HasDuplicatesInCage(g, cage)
  }

  /** The first cage, in list order, that lists the cell (row, col). */
  function GetCageForCell(cages: seq<Cage>, row: int, col: int): (r: Option<Cage>)
    ensures r.None? <==> forall k :: 0 <= k < |cages| ==> Cell(row, col) !in cages[k].cells
    ensures r.Some? ==>
      exists k :: (0 <= k < |cages| && cages[k] == r.value && Cell(row, col) in r.value.cells &&
                   forall m :: 0 <= m < k ==> Cell(row, col) !in cages[m].cells)
  {
    if cages == [] then None
    else if Cell(row, col) in cages[0].cells then Some(cages[0])
    else
      var rest := GetCageForCell(cages[1..], row, col);
      assert forall k :: 1 <= k < |cages| ==> cages[k] == cages[1..][k - 1];
      rest
  }

  lemma FoundCageInGrid(cages: seq<Cage>, row: int, col: int)
    requires CagesInGrid(cages)
    ensures GetCageForCell(cages, row, col).Some? ==> CellsInGrid(GetCageForCell(cages, row, col).value.cells)
  {
  }

  /** (row1, col1) lies in a cage that also lists (row2, col2); false when
      no cage lists (row1, col1). */
  function AreCellsInSameCage(cages: seq<Cage>, row1: int, col1: int, row2: int, col2: int): (r: bool)
    ensures r ==> exists k :: 0 <= k < |cages| && Cell(row1, col1) in cages[k].cells && Cell(row2, col2) in cages[k].cells
  {
    match GetCageForCell(cages, row1, col1)
    case None => false
    case Some(cage) => Cell(row2, col2) in cage.cells
  }

  /** When no position is listed twice, two cells are reported together
      exactly when some cage lists both. */
  lemma SameCageIffSharedCage(cages: seq<Cage>, row1: int, col1: int, row2: int, col2: int)
    requires NoRepeats(Flatten(cages))
    ensures AreCellsInSameCage(cages, row1, col1, row2, col2) <==>
      exists k :: 0 <= k < |cages| && Cell(row1, col1) in cages[k].cells && Cell(row2, col2) in cages[k].cells
  {
    if k :| 0 <= k < |cages| && Cell(row1, col1) in cages[k].cells && Cell(row2, col2) in cages[k].cells {
      var found := GetCageForCell(cages, row1, col1);
      var k' :| 0 <= k' < |cages| && cages[k'] == found.value && Cell(row1, col1) in found.value.cells;
      NoRepeatsUniqueOwner(cages, Cell(row1, col1), k, k');
    }
  }

  /** The cage rule for putting `v` at (row, col): with `v` placed, the cell's
      cage holds no nonzero value twice, and once every cell of it is filled
      its values add up to the cage sum. */
  ghost predicate CageAccepts(g: Grid, row: int, col: int, v: int, cages: seq<Cage>)
    requires IsGrid(g) && 0 <= row < 9 && 0 <= col < 9 && CagesInGrid(cages)
  {
    FoundCageInGrid(cages, row, col);
    match GetCageForCell(cages, row, col)
    case None => true
    case Some(cage) =>
      var placed := Values(SetCell(g, row, col, v), cage.cells);
      FilledDistinct(placed) && (0 !in placed ==> Sum(placed) == cage.sum)
  }

  ghost predicate CellValid(g: Grid, row: int, col: int, v: int, cages: seq<Cage>)
    requires IsGrid(g) && 0 <= row < 9 && 0 <= col < 9 && CagesInGrid(cages)
  {
    NoConflict(g, row, col, v) && CageAccepts(g, row, col, v, cages)
  }

  /** The Sudoku rules first, then the cage rules on a copy of the board that
      holds the new value. */
  method IsCellValid(g: Grid, row: int, col: int, value: int, cages: seq<Cage>) returns (ok: bool)
    requires IsGrid(g) && 0 <= row < 9 && 0 <= col < 9 && CagesInGrid(cages)
    ensures ok <==> CellValid(g, row, col, value, cages)
  {
    ok := IsCellValidForSudokuRules(g, row, col, value);
    if !ok {
      return false;
    }
    var cage := GetCageForCell(cages, row, col);
    if cage.None? {
      return true;
    }
    FoundCageInGrid(cages, row, col);
    var temp := SetCell(g, row, col, value);
    if HasDuplicatesInCage(temp, cage.value) {
      return false;
    }
    if IsCageFilled(temp, cage.value) {
      var sum := CalculateCageSum(temp, cage.value);
      if sum != cage.value.sum {
        return false;
      }
    }
    return true;
  }

  /** The values 1..9 the cell accepts, in increasing order. */
  method GetPossibleValues(g: Grid, row: int, col: int, cages: seq<Cage>) returns (vals: seq<int>)
    requires IsGrid(g) && 0 <= row < 9 && 0 <= col < 9 && CagesInGrid(cages)
    ensures forall v :: v in vals <==> 1 <= v <= 9 && CellValid(g, row, col, v, cages)
    ensures forall i, j :: 0 <= i < j < |vals| ==> vals[i] < vals[j]
  {
    vals := [];
    var value := 1;
    while value <= 9
      invariant 1 <= value <= 10
      invariant forall v :: v in vals <==> 1 <= v < value && CellValid(g, row, col, v, cages)
      invariant forall i, j :: 0 <= i < j < |vals| ==> vals[i] < vals[j]
      invariant forall i :: 0 <= i < |vals| ==> vals[i] < value
    {
      var ok := IsCellValid(g, row, col, value, cages);
      if ok {
        vals := vals + [value];
      }
      value := value + 1;
    }
  }

  /** Every cell filled, no cell clashing under the Sudoku rules, every cage complete. */
  ghost predicate BoardComplete(g: Grid, cages: seq<Cage>)
    requires IsGrid(g) && CagesInGrid(cages)
  {
    (forall r, c :: 0 <= r < 9 && 0 <= c < 9 ==> g[r][c] != 0) &&
    Consistent(g) &&
    forall k :: 0 <= k < |cages| ==> IsCageComplete(g, cages[k])
  }

  method IsBoardComplete(g: Grid, cages: seq<Cage>) returns (ok: bool)
    requires IsGrid(g) && CagesInGrid(cages)
    ensures ok <==> BoardComplete(g, cages)
  {
    var row := 0;
    while row < 9
      invariant 0 <= row <= 9
      invariant forall r, c :: 0 <= r < row && 0 <= c < 9 ==> g[r][c] != 0
    {
      var col := 0;
      while col < 9
        invariant 0 <= col <= 9
        invariant forall c :: 0 <= c < col ==> g[row][c] != 0
      {
        if g[row][col] == 0 {
          return false;
        }
        col := col + 1;
      }
      row := row + 1;
    }
    row := 0;
    while row < 9
      invariant 0 <= row <= 9
      invariant forall r, c :: 0 <= r < row && 0 <= c < 9 ==> NoConflict(g, r, c, g[r][c])
    {
      var col := 0;
      while col < 9
        invariant 0 <= col <= 9
        invariant forall r, c :: 0 <= r < row && 0 <= c < 9 ==> NoConflict(g, r, c, g[r][c])
        invariant forall c :: 0 <= c < col ==> NoConflict(g, row, c, g[row][c])
      {
        var valid := IsCellValidForSudokuRules(g, row, col, g[row][col]);
        if !valid {
          return false;
        }
        col := col + 1;
      }
      row := row + 1;
    }
    var k := 0;
    while k < |cages|
      invariant 0 <= k <= |cages|
      invariant forall m :: 0 <= m < k ==> IsCageComplete(g, cages[m])
    {
      if !IsCageComplete(g, cages[k]) {
        return false;
      }
      k := k + 1;
    }
    return true;
  }

  /** For a board of entries 0..9, "complete" means: a valid Sudoku solution
      whose every cage is complete. */
  lemma BoardCompleteIsSolution(g: Grid, cages: seq<Cage>)
    requires IsGrid(g) && CagesInGrid(cages)
    requires forall r, c :: 0 <= r < 9 && 0 <= c < 9 ==> 0 <= g[r][c] <= 9
    ensures BoardComplete(g, cages) <==>
      ValidSolution(g) && forall k :: 0 <= k < |cages| ==> IsCageComplete(g, cages[k])
  {
    ValidSolutionIffConsistent(g);
  }

  /** A value already present in two other cells of the cell's cage rules out
      every candidate for the cell. */
  lemma CageDuplicateBlocksEveryValue(g: Grid, row: int, col: int, cages: seq<Cage>, i: int, j: int, v: int)
    requires IsGrid(g) && 0 <= row < 9 && 0 <= col < 9 && CagesInGrid(cages)
    requires GetCageForCell(cages, row, col).Some?
    requires var cells := GetCageForCell(cages, row, col).value.cells;
      0 <= i < j < |cells| && cells[i] != Cell(row, col) && cells[j] != Cell(row, col)
    requires var cells := GetCageForCell(cages, row, col).value.cells;
      InGrid(cells[i]) && InGrid(cells[j]) && At(g, cells[i]) != 0 && At(g, cells[i]) == At(g, cells[j])
    ensures !CellValid(g, row, col, v, cages)
  {
    var cage := GetCageForCell(cages, row, col).value;
    FoundCageInGrid(cages, row, col);
    var placed := Values(SetCell(g, row, col, v), cage.cells);
    assert placed[i] == At(g, cage.cells[i]) && placed[j] == At(g, cage.cells[j]);
  }

  /** On a solved board whose cages are all complete, every cell accepts the
      value it already holds. */
  lemma SolvedBoardAcceptsItsValues(g: Grid, cages: seq<Cage>, row: int, col: int)
    requires IsGrid(g) && CagesInGrid(cages) && 0 <= row < 9 && 0 <= col < 9
    requires ValidSolution(g) && forall k :: 0 <= k < |cages| ==> IsCageComplete(g, cages[k])
    ensures CellValid(g, row, col, g[row][col], cages)
  {
    ValidSolutionIsConsistent(g);
    assert g[row][col := g[row][col]] == g[row];
    assert SetCell(g, row, col, g[row][col]) == g;
    FoundCageInGrid(cages, row, col);
    match GetCageForCell(cages, row, col)
    case None =>
    case Some(cage) =>
      var k :| 0 <= k < |cages| && cages[k] == cage;
      assert IsCageComplete(g, cages[k]);
  }
}
