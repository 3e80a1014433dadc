/** The generator's cage builder: while some position is unused, pick a
    target size and a free start position, then grow the cage one orthogonal
    neighbour at a time, marking every chosen position as used. The cage sum
    is the solution's total over the chosen positions. */
module CagePartitioner {
  import opened KillerTypes
  import opened LevelValidator

  /** Every cell after the first touches an earlier one, so the cells form one
      orthogonally connected shape. */
  predicate Connected(cells: seq<Cell>)
  {
    forall k :: 1 <= k < |cells| ==> TouchesEarlier(cells, k)
  }

  /** Cell `k` is an orthogonal neighbour of some cell before it. */
  predicate TouchesEarlier(cells: seq<Cell>, k: int)
    requires 0 <= k < |cells|
  {
    exists j :: 0 <= j < k && AreAdjacentCells(cells[j], cells[k])
  }

  /** A cage as the builder leaves it: 1..maxSize distinct, connected board
      cells, the solution's sum over them, and no id or colour yet. */
  ghost predicate Grown(cage: Cage, solution: Grid, maxSize: int)
    requires IsGrid(solution)
  {
    1 <= |cage.cells| <= maxSize && CellsInGrid(cage.cells) && NoRepeats(cage.cells) &&
    Connected(cage.cells) && cage.sum == CellSum(solution, cage.cells) && cage.color == ""
  }

  /** Every cage is as the builder leaves it. */
  ghost predicate AllGrown(cages: seq<Cage>, solution: Grid, maxSize: int)
    requires IsGrid(solution)
  {
    forall k :: 0 <= k < |cages| ==> Grown(cages[k], solution, maxSize)
  }

  lemma AllGrownSnoc(cages: seq<Cage>, cage: Cage, solution: Grid, maxSize: int)
    requires IsGrid(solution) && AllGrown(cages, solution, maxSize) && Grown(cage, solution, maxSize)
    ensures AllGrown(cages + [cage], solution, maxSize)
  {
  }

  /** A cell that touches `cell` and lies on the board. */
  predicate FreeNeighbour(cell: Cell, x: Cell, used: set<Cell>)
  {
    InGrid(x) && x !in used && AreAdjacentCells(cell, x)
  }

  /** The up, down, left and right positions of `cell`. */
  function Around(cell: Cell): (r: seq<Cell>)
    ensures forall x :: AreAdjacentCells(cell, x) <==> x in r
  {
    var r := [Cell(cell.row - 1, cell.col), Cell(cell.row + 1, cell.col),
              Cell(cell.row, cell.col - 1), Cell(cell.row, cell.col + 1)];
    assert forall x :: AreAdjacentCells(cell, x) ==> x in r by {
      forall x | AreAdjacentCells(cell, x) ensures x in r {
        if x.row == cell.row - 1 { assert x == r[0]; }
        else if x.row == cell.row + 1 { assert x == r[1]; }
        else if x.col == cell.col - 1 { assert x == r[2]; }
        else { assert x == r[3]; }
      }
    }
    r
  }

  /** The candidate list built for one growth step: the free board
      neighbours of every cell so far (a position may be listed more than
      once when it touches several cells). */
  method CollectNeighbors(cells: seq<Cell>, used: set<Cell>) returns (neighbors: seq<Cell>)
    ensures forall x :: x in neighbors <==> exists j :: 0 <= j < |cells| && FreeNeighbour(cells[j], x, used)
  {
    neighbors := [];
    var j := 0;
    while j < |cells|
      invariant 0 <= j <= |cells|
      invariant forall x :: x in neighbors <==> exists j' :: 0 <= j' < j && FreeNeighbour(cells[j'], x, used)
    {
      var possible := Around(cells[j]);
      var t := 0;
      while t < 4
        invariant 0 <= t <= 4
        invariant forall x :: x in neighbors <==>
          (exists j' :: 0 <= j' < j && FreeNeighbour(cells[j'], x, used)) || (x in possible[..t] && InGrid(x) && x !in used)
      {
        var n := possible[t];
        if 0 <= n.row < 9 && 0 <= n.col < 9 && n !in used {
          neighbors := neighbors + [n];
        }
        assert possible[..t + 1] == possible[..t] + [n];
        t := t + 1;
      }
      assert possible[..4] == possible;
      j := j + 1;
    }
  }

  /** The position visited at offset (r, c) of a scan starting at (startRow, startCol). */
  function ScanCell(startRow: int, startCol: int, r: int, c: int): (cell: Cell)
    ensures InGrid(cell)
  {
    Cell((startRow + r) % 9, (startCol + c) % 9)
  }

  /** Every board position is visited by the scan, at the offsets that
      undo the start's shift. */
  lemma ScanReaches(startRow: int, startCol: int, x: Cell)
    requires 0 <= startRow < 9 && 0 <= startCol < 9 && InGrid(x)
    ensures 0 <= (x.row - startRow) % 9 < 9 && 0 <= (x.col - startCol) % 9 < 9
    ensures ScanCell(startRow, startCol, (x.row - startRow) % 9, (x.col - startCol) % 9) == x
  {
    UndoShift(startRow, x.row);
    UndoShift(startCol, x.col);
  }

  /** Going `(v - s) % 9` steps from `s` around a ring of nine lands on `v`. */
  lemma UndoShift(s: int, v: int)
    requires 0 <= s < 9 && 0 <= v < 9
    ensures 0 <= (v - s) % 9 < 9 && (s + (v - s) % 9) % 9 == v
  {
    if v >= s {
      assert (v - s) % 9 == v - s;
    } else {
      assert (v - s) % 9 == v - s + 9;
      assert (s + (v - s + 9)) % 9 == (v + 9) % 9 == v;
    }
  }

  /** Scans the board from (startRow, startCol), wrapping around in both
      directions, for the first position not yet used. */
  method FindFreeStart(used: set<Cell>, startRow: int, startCol: int) returns (found: bool, start: Cell)
    requires 0 <= startRow < 9 && 0 <= startCol < 9
    ensures found ==> InGrid(start) && start !in used
    ensures found <==> exists c :: InGrid(c) && c !in used
  {
    found := false;
    start := Cell(startRow, startCol);
    var r := 0;
    while r < 9
      invariant 0 <= r <= 9 && !found
      invariant forall r', c' :: 0 <= r' < r && 0 <= c' < 9 ==> ScanCell(startRow, startCol, r', c') in used
    {
      var c := 0;
      while c < 9
        invariant 0 <= c <= 9 && !found
        invariant forall c' :: 0 <= c' < c ==> ScanCell(startRow, startCol, r, c') in used
      {
        var cell := ScanCell(startRow, startCol, r, c);
        if cell !in used {
          start := cell;
          found := true;
          break;
        }
        c := c + 1;
      }
      if found {
        break;
      }
      r := r + 1;
    }
    if !found {
      forall x | InGrid(x) ensures x in used {
        ScanReaches(startRow, startCol, x);
      }
    }
  }

  lemma ConnectedSnoc(cells: seq<Cell>, x: Cell, j: int)
    requires Connected(cells) && 0 <= j < |cells| && AreAdjacentCells(cells[j], x)
    ensures Connected(cells + [x])
  {
    var s := cells + [x];
    forall k | 1 <= k < |s| ensures TouchesEarlier(s, k) {
      if k == |cells| {
        assert s[j] == cells[j] && s[k] == x;
      } else {
        assert TouchesEarlier(cells, k);
        var j' :| 0 <= j' < k && AreAdjacentCells(cells[j'], cells[k]);
        assert s[j'] == cells[j'] && s[k] == cells[k];
      }
    }
  }

  /** Grows a cage from `start` to at most `cageSize` cells, each a free
      neighbour of a cell already taken; stops early only when no cell of
      the cage has a free neighbour left. */
  method GrowCage(used: set<Cell>, start: Cell, cageSize: int) returns (cells: seq<Cell>, usedAfter: set<Cell>)
    requires InGrid(start) && start !in used && cageSize >= 1
    ensures 1 <= |cells| <= cageSize && cells[0] == start
    ensures CellsInGrid(cells) && NoRepeats(cells) && Connected(cells)
    ensures forall k :: 0 <= k < |cells| ==> cells[k] !in used
    ensures usedAfter == used + Elems(cells)
    ensures |cells| < cageSize ==> forall j, x :: 0 <= j < |cells| ==> !FreeNeighbour(cells[j], x, usedAfter)
  {
    cells := [start];
    usedAfter := used + {start};
    var i := 1;
    while i < cageSize
      invariant 1 <= i <= cageSize && |cells| == i && cells[0] == start
      invariant CellsInGrid(cells) && NoRepeats(cells) && Connected(cells)
      invariant forall k :: 0 <= k < |cells| ==> cells[k] !in used
      invariant usedAfter == used + Elems(cells)
    {
      var neighbors := CollectNeighbors(cells, usedAfter);
      if |neighbors| == 0 {
        break;
      }
      var pick :| 0 <= pick < |neighbors|;
      var nextCell := neighbors[pick];
      assert nextCell in neighbors;
      var j :| 0 <= j < |cells| && FreeNeighbour(cells[j], nextCell, usedAfter);
      ConnectedSnoc(cells, nextCell, j);
      NoRepeatsSnoc(cells, nextCell);
      assert Elems(cells + [nextCell]) == Elems(cells) + {nextCell};
      cells := cells + [nextCell];
      usedAfter := usedAfter + {nextCell};
      i := i + 1;
    }
  }

  lemma NoRepeatsAppend(a: seq<Cell>, b: seq<Cell>)
    requires NoRepeats(a) && NoRepeats(b) && forall x :: x in b ==> x !in a
    ensures NoRepeats(a + b)
  {
    var s := a + b;
    forall i, j | 0 <= i < j < |s| ensures s[i] != s[j] {
      if j < |a| {
        assert s[i] == a[i] && s[j] == a[j];
      } else if i >= |a| {
        assert s[i] == b[i - |a|] && s[j] == b[j - |a|];
      } else {
        assert s[i] == a[i] && s[j] in b;
      }
    }
  }

  /** Appending a cage of fresh board cells keeps the cages disjoint and
      their cells equal to the used set. */
  lemma AddCage(cages: seq<Cage>, cage: Cage, used: set<Cell>, usedAfter: set<Cell>)
    requires used <= AllCells() && used == Elems(Flatten(cages)) && NoRepeats(Flatten(cages))
    requires CellsInGrid(cage.cells) && NoRepeats(cage.cells)
    requires forall k :: 0 <= k < |cage.cells| ==> cage.cells[k] !in used
    requires usedAfter == used + Elems(cage.cells)
    ensures usedAfter <= AllCells()
    ensures usedAfter == Elems(Flatten(cages + [cage])) && NoRepeats(Flatten(cages + [cage]))
  {
    FlattenSnoc(cages, cage);
    NoRepeatsAppend(Flatten(cages), cage.cells);
    assert Elems(Flatten(cages) + cage.cells) == Elems(Flatten(cages)) + Elems(cage.cells);
    forall x | x in Elems(cage.cells) ensures x in AllCells() {
      InAllCells(x);
    }
  }

  /** While fewer than 81 positions are used, one of them is free. */
  lemma FreeCellExists(used: set<Cell>)
    requires used <= AllCells() && |used| < 81
    ensures exists c :: InGrid(c) && c !in used
  {
    AllCellsSize();
    assert used != AllCells();
    assert !(AllCells() <= used);
    var c :| c in AllCells() && c !in used;
    InAllCells(c);
  }

  /** Once 81 board positions are used, all of them are. */
  lemma AllUsed(used: set<Cell>)
    requires used <= AllCells() && |used| >= 81
    ensures used == AllCells()
  {
    SubsetCardinality(used, AllCells());
    AllCellsSize();
  }

  /** `generateRandomCages`: the cages partition the board, and every cage
      is a connected shape of 1..maxCageSize cells summing the solution. */
  method GenerateRandomCages(solution: Grid, minCageSize: int, maxCageSize: int) returns (cages: seq<Cage>)
    requires IsGrid(solution) && 1 <= minCageSize <= maxCageSize
    ensures Partitions(cages) && CagesInGrid(cages)
    ensures forall k :: 0 <= k < |cages| ==> Grown(cages[k], solution, maxCageSize)
  {
    cages := [];
    var usedCells: set<Cell> := {};
    while |usedCells| < 81
      invariant usedCells <= AllCells()
      invariant usedCells == Elems(Flatten(cages)) && NoRepeats(Flatten(cages))
      invariant CagesInGrid(cages)
      invariant AllGrown(cages, solution, maxCageSize)
      decreases 81 - |usedCells|
    {
      var cageSize :| minCageSize <= cageSize <= maxCageSize;
      var startRow :| 0 <= startRow < 9;
      var startCol :| 0 <= startCol < 9;
      FreeCellExists(usedCells);
      var foundStart, start := FindFreeStart(usedCells, startRow, startCol);
      // A free start always exists while fewer than 81 positions are used.
      var cells, usedAfter := GrowCage(usedCells, start, cageSize);
      var sum := CellSum(solution, cells);
      var cage := Cage("", cells, sum, "");
      AddCage(cages, cage, usedCells, usedAfter);
      SubsetCardinality(usedCells + {start}, usedAfter);
      assert Grown(cage, solution, maxCageSize);
      AllGrownSnoc(cages, cage, solution, maxCageSize);
      cages := cages + [cage];
      usedCells := usedAfter;
    }
    AllUsed(usedCells);
  }
}
