/** The generator's solution builder: a 9x9 array filled cell by cell in
    row-major order, each cell trying the digits 1..9 in a shuffled order,
    placing a digit only where its row, column and block do not hold it yet,
    and clearing the cell again when the rest of the board cannot be filled. */
module SolutionGenerator {
  import opened KillerTypes
  import opened Sudoku

  /** The array's contents as a grid value. */
  function Snapshot(grid: array2<int>): (g: Grid)
    requires grid.Length0 == 9 && grid.Length1 == 9
    reads grid
    ensures IsGrid(g) && forall i, j :: 0 <= i < 9 && 0 <= j < 9 ==> g[i][j] == grid[i, j]
  {
    seq(9, i requires 0 <= i < 9 reads grid => seq(9, j requires 0 <= j < 9 reads grid => grid[i, j]))
  }

  /** Two grids with the same entries are the same grid. */
  lemma GridExtensional(a: Grid, b: Grid)
    requires IsGrid(a) && IsGrid(b)
    requires forall i, j :: 0 <= i < 9 && 0 <= j < 9 ==> a[i][j] == b[i][j]
    ensures a == b
  {
    forall i | 0 <= i < 9 ensures a[i] == b[i] {
      assert forall j :: 0 <= j < 9 ==> a[i][j] == b[i][j];
    }
  }

  /** `num` occurs nowhere in the row, the column or the block of (row, col). */
  ghost predicate Absent(g: Grid, num: int, row: int, col: int)
    requires IsGrid(g) && 0 <= row < 9 && 0 <= col < 9
  {
    (forall x :: 0 <= x < 9 ==> g[row][x] != num && g[x][col] != num) &&
    (forall r, c :: 0 <= r < 9 && 0 <= c < 9 && SameBlock(r, c, row, col) ==> g[r][c] != num)
  }

  /** On an empty cell, the generator's test and the play-time rule test agree. */
  lemma AbsentIsNoConflict(g: Grid, num: int, row: int, col: int)
    requires IsGrid(g) && 0 <= row < 9 && 0 <= col < 9 && g[row][col] == 0 && num != 0
    ensures Absent(g, num, row, col) <==> NoConflict(g, row, col, num)
  {
  }

  /** The test run before a digit is placed (`isValid`). */
  method IsValid(grid: array2<int>, num: int, row: int, col: int) returns (ok: bool)
    requires grid.Length0 == 9 && grid.Length1 == 9 && 0 <= row < 9 && 0 <= col < 9
    ensures ok <==> Absent(Snapshot(grid), num, row, col)
  {
    var x := 0;
    while x < 9
      invariant 0 <= x <= 9
      invariant forall x' :: 0 <= x' < x ==> grid[row, x'] != num && grid[x', col] != num
    {
      if grid[row, x] == num || grid[x, col] == num {
        return false;
      }
      x := x + 1;
    }
    var blockRow := (row / 3) * 3;
    var blockCol := (col / 3) * 3;
    var i := 0;
    while i < 3
      invariant 0 <= i <= 3
      invariant forall r, c :: blockRow <= r < blockRow + i && blockCol <= c < blockCol + 3 ==> grid[r, c] != num
    {
      var j := 0;
      var r := blockRow + i;
      while j < 3
        invariant 0 <= j <= 3
        invariant forall r, c :: blockRow <= r < blockRow + i && blockCol <= c < blockCol + 3 ==> grid[r, c] != num
        invariant forall c :: blockCol <= c < blockCol + j ==> grid[r, c] != num
      {
        if grid[r, blockCol + j] == num {
          return false;
        }
        j := j + 1;
      }
      i := i + 1;
    }
    forall r, c | 0 <= r < 9 && 0 <= c < 9 && SameBlock(r, c, row, col)
      ensures blockRow <= r < blockRow + 3 && blockCol <= c < blockCol + 3
    {
    }
    return true;
  }

  /** The first `n` cells in row-major order hold digits, the others are
      empty, and no digit clashes with another. */
  ghost predicate FilledUpTo(g: Grid, n: int)
    requires IsGrid(g)
  {
    0 <= n <= 81 &&
    (forall r, c :: 0 <= r < 9 && 0 <= c < 9 && 9 * r + c < n ==> 1 <= g[r][c] <= 9) &&
    (forall r, c :: 0 <= r < 9 && 0 <= c < 9 && 9 * r + c >= n ==> g[r][c] == 0) &&
    Consistent(g)
  }

  /** Placing an absent digit into an empty cell keeps the board consistent. */
  lemma PlaceKeepsConsistent(g: Grid, row: int, col: int, num: int)
    requires IsGrid(g) && 0 <= row < 9 && 0 <= col < 9 && Consistent(g)
    requires g[row][col] == 0 && 1 <= num <= 9 && Absent(g, num, row, col)
    ensures Consistent(SetCell(g, row, col, num))
  {
    var h := SetCell(g, row, col, num);
    forall r, c | 0 <= r < 9 && 0 <= c < 9 ensures NoConflict(h, r, c, h[r][c]) {
      if r == row && c == col {
        assert forall r', c' :: 0 <= r' < 9 && 0 <= c' < 9 && SameBlock(r', c', row, col) && (r' != row || c' != col) ==>
          h[r'][c'] == g[r'][c'];
      } else if h[r][c] != 0 {
        assert NoConflict(g, r, c, g[r][c]);
        assert SameBlock(row, col, r, c) ==> SameBlock(r, c, row, col);
      }
    }
  }

  /** Placing an absent digit at the next position extends the filled prefix by one. */
  lemma PlaceStep(g: Grid, row: int, col: int, num: int)
    requires IsGrid(g) && 0 <= row < 9 && 0 <= col < 9 && FilledUpTo(g, 9 * row + col)
    requires 1 <= num <= 9 && Absent(g, num, row, col)
    ensures FilledUpTo(SetCell(g, row, col, num), 9 * row + col + 1)
  {
    PlaceKeepsConsistent(g, row, col, num);
  }

  /** A board filled to the last cell is a solution. */
  lemma FullIsSolution(g: Grid)
    requires IsGrid(g) && FilledUpTo(g, 81)
    ensures ValidSolution(g)
  {
    ValidSolutionIffConsistent(g);
  }

  /** A shuffled copy of 1..9: nine distinct digits. */
  predicate Shuffled(nums: seq<int>)
  {
    |nums| == 9 && NoRepeats(nums) && forall k :: 0 <= k < 9 ==> 1 <= nums[k] <= 9
  }

  /** `fillGrid(row, col)`: fills the cells from position 9 * row + col on.
      On success the board is a solution that keeps every cell before that
      position; on failure every cell it wrote has been cleared again. */
  method FillGrid(grid: array2<int>, row: int, col: int) returns (ok: bool)
    requires grid.Length0 == 9 && grid.Length1 == 9
    requires 0 <= row < 9 && 0 <= col <= 9
    requires FilledUpTo(Snapshot(grid), 9 * row + col)
    modifies grid
    ensures ok ==> ValidSolution(Snapshot(grid))
    ensures ok ==> forall i, j :: 0 <= i < 9 && 0 <= j < 9 && 9 * i + j < 9 * row + col ==> grid[i, j] == old(grid[i, j])
    ensures !ok ==> Snapshot(grid) == old(Snapshot(grid))
    decreases 81 - (9 * row + col), 1
  {
    var r, c := row, col;
    if c == 9 {
      r := r + 1;
      c := 0;
    }
    if r == 9 {
      FullIsSolution(Snapshot(grid));
      return true;
    }
    DigitsFacts();
    assert Shuffled(Digits());
    var nums :| Shuffled(nums);
    var k := 0;
    while k < 9
      invariant 0 <= k <= 9 && Shuffled(nums)
      invariant Snapshot(grid) == old(Snapshot(grid))
    {
      var done := TryDigit(grid, r, c, nums[k]);
      if done {
        return true;
      }
      k := k + 1;
    }
    return false;
  }

  /** One pass of the loop in `fillGrid`: place `num` if the rules allow
      it, fill the rest, and clear the cell again if that fails. */
  method TryDigit(grid: array2<int>, r: int, c: int, num: int) returns (done: bool)
    requires grid.Length0 == 9 && grid.Length1 == 9
    requires 0 <= r < 9 && 0 <= c < 9 && 1 <= num <= 9
    requires FilledUpTo(Snapshot(grid), 9 * r + c)
    modifies grid
    ensures done ==> ValidSolution(Snapshot(grid))
    ensures done ==> forall i, j :: 0 <= i < 9 && 0 <= j < 9 && 9 * i + j < 9 * r + c ==> grid[i, j] == old(grid[i, j])
    ensures !done ==> Snapshot(grid) == old(Snapshot(grid))
    decreases 81 - (9 * r + c), 0
  {
    var valid := IsValid(grid, num, r, c);
    if !valid {
      return false;
    }
    ghost var before := Snapshot(grid);
    PlaceStep(before, r, c, num);
    grid[r, c] := num;
    GridExtensional(Snapshot(grid), SetCell(before, r, c, num));
    done := FillGrid(grid, r, c + 1);
    if !done {
      grid[r, c] := 0;
      GridExtensional(Snapshot(grid), before);
    }
  }

  /** `generateSolution`: one run of the fill on an empty board. The source
      starts over when the fill fails; here the failure is reported. */
  method GenerateSolution() returns (r: Option<Grid>)
    ensures r.Some? ==> ValidSolution(r.value)
  {
    var grid := new int[9, 9]((i, j) => 0);
    assert FilledUpTo(Snapshot(grid), 0);
    var ok := FillGrid(grid, 0, 0);
    if ok {
      return Some(Snapshot(grid));
    }
    return None;
  }
}
