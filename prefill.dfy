/** The generator's givens: on easy levels one chosen cage is revealed in
    full, then up to 100 random attempts reveal single solution values in
    other cages that have more than one cell, until the wanted number of
    givens is reached. */
module Prefill {
  import opened KillerTypes
  import opened SolutionGenerator

  /** A position a given may come from: a cell of the fully revealed cage on
      easy levels, or a cell of another cage with at least two cells. */
  ghost predicate MayReveal(cages: seq<Cage>, fullIdx: int, rating: int, x: Cell)
    requires 0 <= fullIdx < |cages|
  {
    (rating <= 3 && x in cages[fullIdx].cells) ||
    exists k :: 0 <= k < |cages| && k != fullIdx && |cages[k].cells| >= 2 && x in cages[k].cells
  }

  /** Every entry is empty or the solution's value. */
  ghost predicate AgreesWith(g: Grid, solution: Grid)
    requires IsGrid(g) && IsGrid(solution)
  {
    forall r, c :: 0 <= r < 9 && 0 <= c < 9 ==> g[r][c] == 0 || g[r][c] == solution[r][c]
  }

  /** Every nonzero entry lies in `shown`. */
  ghost predicate ShownCovers(g: Grid, shown: set<Cell>)
    requires IsGrid(g)
  {
    forall r, c :: 0 <= r < 9 && 0 <= c < 9 && g[r][c] != 0 ==> Cell(r, c) in shown
  }

  ghost predicate GridAgrees(grid: array2<int>, solution: Grid)
    requires grid.Length0 == 9 && grid.Length1 == 9 && IsGrid(solution)
    reads grid
  {
    forall r, c :: 0 <= r < 9 && 0 <= c < 9 ==> grid[r, c] == 0 || grid[r, c] == solution[r][c]
  }

  ghost predicate GridCovered(grid: array2<int>, shown: set<Cell>)
    requires grid.Length0 == 9 && grid.Length1 == 9
    reads grid
  {
    forall r, c :: 0 <= r < 9 && 0 <= c < 9 && grid[r, c] != 0 ==> Cell(r, c) in shown
  }

  /** The first `t` cells of `cells` show the solution's values. */
  ghost predicate GridReveals(grid: array2<int>, solution: Grid, cells: seq<Cell>, t: int)
    requires grid.Length0 == 9 && grid.Length1 == 9 && IsGrid(solution) && CellsInGrid(cells) && 0 <= t <= |cells|
    reads grid
  {
    forall k :: 0 <= k < t ==> grid[cells[k].row, cells[k].col] == solution[cells[k].row][cells[k].col]
  }

  /** With no position listed twice, a position belongs to one cage only. */
  lemma UniqueOwners(cages: seq<Cage>)
    requires NoRepeats(Flatten(cages))
    ensures forall k1, k2, x :: 0 <= k1 < |cages| && 0 <= k2 < |cages| && x in cages[k1].cells && x in cages[k2].cells ==> k1 == k2
  {
    forall k1, k2, x | 0 <= k1 < |cages| && 0 <= k2 < |cages| && x in cages[k1].cells && x in cages[k2].cells
      ensures k1 == k2
    {
      NoRepeatsUniqueOwner(cages, x, k1, k2);
    }
  }

  /** Reveals every cell of the chosen cage. */
  method RevealCage(grid: array2<int>, solution: Grid, cells: seq<Cell>) returns (ghost shown: set<Cell>)
    requires grid.Length0 == 9 && grid.Length1 == 9 && IsGrid(solution) && CellsInGrid(cells)
    requires GridAgrees(grid, solution) && GridCovered(grid, {})
    modifies grid
    ensures GridAgrees(grid, solution) && GridCovered(grid, shown) && GridReveals(grid, solution, cells, |cells|)
    ensures |shown| <= |cells| && forall x :: x in shown ==> x in cells
  {
    shown := {};
    var t := 0;
    while t < |cells|
      invariant 0 <= t <= |cells| && |shown| <= t
      invariant GridAgrees(grid, solution) && GridCovered(grid, shown)
      invariant forall x :: x in shown ==> x in cells
      invariant GridReveals(grid, solution, cells, t)
    {
      var cell := cells[t];
      grid[cell.row, cell.col] := solution[cell.row][cell.col];
      shown := shown + {cell};
      t := t + 1;
    }
  }

  /** The bound on the number of givens: the wanted count, or the chosen
      cage's size when that cage alone already exceeds it. */
  function Budget(prefilledCount: nat, difficultyRating: int, fullSize: nat): nat
  {
    if difficultyRating <= 3 && fullSize > prefilledCount then fullSize else prefilledCount
  }

  /** The loop of random attempts: at most 100 of them, each revealing at
      most one empty cell of a cage with two or more cells other than the
      chosen one, while fewer than `prefilledCount` cells are filled. */
  method RevealAttempts(grid: array2<int>, solution: Grid, cages: seq<Cage>, fullIdx: int, difficultyRating: int,
                        prefilledCount: nat, filled: nat, ghost shown0: set<Cell>)
    returns (ghost shown: set<Cell>)
    requires grid.Length0 == 9 && grid.Length1 == 9 && IsGrid(solution) && CagesInGrid(cages)
    requires 0 <= fullIdx < |cages| && forall k :: 0 <= k < |cages| ==> |cages[k].cells| > 0
    requires GridAgrees(grid, solution) && GridCovered(grid, shown0)
    requires |shown0| <= filled <= Budget(prefilledCount, difficultyRating, |cages[fullIdx].cells|)
    requires forall x :: x in shown0 ==> MayReveal(cages, fullIdx, difficultyRating, x)
    requires difficultyRating <= 3 ==> GridReveals(grid, solution, cages[fullIdx].cells, |cages[fullIdx].cells|)
    modifies grid
    ensures GridAgrees(grid, solution) && GridCovered(grid, shown)
    ensures |shown| <= Budget(prefilledCount, difficultyRating, |cages[fullIdx].cells|)
    ensures forall x :: x in shown ==> MayReveal(cages, fullIdx, difficultyRating, x)
    ensures difficultyRating <= 3 ==> GridReveals(grid, solution, cages[fullIdx].cells, |cages[fullIdx].cells|)
  {
    shown := shown0;
    var cellsFilled := filled;
    var attemptsLeft := 100;
    while cellsFilled < prefilledCount && attemptsLeft > 0
      invariant |shown| <= cellsFilled <= Budget(prefilledCount, difficultyRating, |cages[fullIdx].cells|)
      invariant GridAgrees(grid, solution) && GridCovered(grid, shown)
      invariant forall x :: x in shown ==> MayReveal(cages, fullIdx, difficultyRating, x)
      invariant difficultyRating <= 3 ==> GridReveals(grid, solution, cages[fullIdx].cells, |cages[fullIdx].cells|)
    {
      var cageIdx :| 0 <= cageIdx < |cages|;
      var cage := cages[cageIdx];
      if |cage.cells| == 1 {
        attemptsLeft := attemptsLeft - 1;
        continue;
      }
      if cageIdx == fullIdx {
        attemptsLeft := attemptsLeft - 1;
        continue;
      }
      assert |cage.cells| > 0 && CellsInGrid(cage.cells);
      var cellIdx :| 0 <= cellIdx < |cage.cells|;
      var cell := cage.cells[cellIdx];
      if grid[cell.row, cell.col] == 0 {
        grid[cell.row, cell.col] := solution[cell.row][cell.col];
        assert MayReveal(cages, fullIdx, difficultyRating, cell);
        shown := shown + {cell};
        cellsFilled := cellsFilled + 1;
      }
      attemptsLeft := attemptsLeft - 1;
    }
  }

  /** `createPrefilledCells`: every given is the solution's value, the
      chosen cage is revealed in full when the rating is at most 3, and the
      givens sit on at most `Budget` positions, all of them ones `MayReveal`
      allows. */
  method CreatePrefilledCells(solution: Grid, prefilledCount: nat, difficultyRating: int, cages: seq<Cage>)
    returns (prefilled: Grid, ghost fullIdx: int, ghost shown: set<Cell>)
    requires IsGrid(solution) && CagesInGrid(cages) && |cages| > 0
    requires forall k :: 0 <= k < |cages| ==> |cages[k].cells| > 0
    ensures IsGrid(prefilled) && AgreesWith(prefilled, solution)
    ensures 0 <= fullIdx < |cages|
    ensures difficultyRating <= 3 ==> forall x :: x in cages[fullIdx].cells ==> prefilled[x.row][x.col] == solution[x.row][x.col]
    ensures ShownCovers(prefilled, shown) && forall x :: x in shown ==> MayReveal(cages, fullIdx, difficultyRating, x)
    ensures |shown| <= Budget(prefilledCount, difficultyRating, |cages[fullIdx].cells|)
    ensures NoRepeats(Flatten(cages)) && difficultyRating > 3 ==>
      forall x :: x in cages[fullIdx].cells ==> prefilled[x.row][x.col] == 0
    ensures NoRepeats(Flatten(cages)) ==>
      forall k :: 0 <= k < |cages| && k != fullIdx && |cages[k].cells| == 1 ==> prefilled[cages[k].cells[0].row][cages[k].cells[0].col] == 0
  {
    var grid := new int[9, 9]((i, j) => 0);
    var fullPrefilledCageIdx :| 0 <= fullPrefilledCageIdx < |cages|;
    fullIdx := fullPrefilledCageIdx;
    var fullPrefilledCage := cages[fullPrefilledCageIdx];
    assert CellsInGrid(fullPrefilledCage.cells);
    ghost var shown0: set<Cell> := {};
    var cellsFilled := 0;
    if difficultyRating <= 3 {
      shown0 := RevealCage(grid, solution, fullPrefilledCage.cells);
      cellsFilled := |fullPrefilledCage.cells|;
    }
    shown := RevealAttempts(grid, solution, cages, fullPrefilledCageIdx, difficultyRating, prefilledCount, cellsFilled, shown0);
    prefilled := Snapshot(grid);
    if NoRepeats(Flatten(cages)) {
      UniqueOwners(cages);
    }
    if difficultyRating <= 3 {
      forall x | x in cages[fullIdx].cells ensures prefilled[x.row][x.col] == solution[x.row][x.col] {
        var k :| 0 <= k < |fullPrefilledCage.cells| && fullPrefilledCage.cells[k] == x;
      }
    }
  }
}
