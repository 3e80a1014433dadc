/** Shared data model of the Killer Sudoku engine: cells, cages, 9x9 grids,
    the flattened cell list of a cage collection, and the counting facts the
    other modules rely on. The board size is fixed at 9 with 3x3 blocks. */
module KillerTypes {

  datatype Option<T> = None | Some(value: T)

  datatype Result<T, E> = Success(value: T) | Failure(error: E)

  /** A board position `{row, col}`. Coordinates are plain integers: a level
      read from JSON may carry positions outside the board. */
  datatype Cell = Cell(row: int, col: int)

  /** A cage `{id, cells, sum, color}`. Cages produced by the generators before
      colouring carry the empty colour "". */
  datatype Cage = Cage(id: string, cells: seq<Cell>, sum: int, color: string)

  /** A `number[][]` board; 0 is an empty cell. */
  type Grid = seq<seq<int>>

  /** A `GameLevel`: the grids may be absent in a level read from JSON. Its
      name, author, description and timestamps are not modelled. */
  datatype Level = Level(
    id: string,
    levelNumber: int,
    difficultyRating: int,
    cages: seq<Cage>,
    initialValues: Option<Grid>,
    solution: Option<Grid>)

  predicate IsGrid(g: Grid)
  {
    |g| == 9 && forall i :: 0 <= i < 9 ==> |g[i]| == 9
  }

  predicate InGrid(c: Cell)
  {
    0 <= c.row < 9 && 0 <= c.col < 9
  }

  predicate CellsInGrid(cells: seq<Cell>)
  {
    forall k :: 0 <= k < |cells| ==> InGrid(cells[k])
  }

  predicate CagesInGrid(cages: seq<Cage>)
  {
    forall k :: 0 <= k < |cages| ==> CellsInGrid(cages[k].cells)
  }

  function At(g: Grid, c: Cell): int
    requires IsGrid(g) && InGrid(c)
  {
    g[c.row][c.col]
  }

  /** The grid with one entry replaced; a grid is a value, so `g` itself is untouched. */
  function SetCell(g: Grid, row: int, col: int, v: int): (r: Grid)
    requires IsGrid(g) && 0 <= row < 9 && 0 <= col < 9
    ensures IsGrid(r)
    ensures r[row][col] == v
    ensures forall i, j :: 0 <= i < 9 && 0 <= j < 9 && (i != row || j != col) ==> r[i][j] == g[i][j]
  {
    g[row := g[row][col := v]]
  }

  /** The all-zero board (`createEmptyBoard`). */
  function EmptyGrid(): (g: Grid)
    ensures IsGrid(g) && forall i, j :: 0 <= i < 9 && 0 <= j < 9 ==> g[i][j] == 0
  {
    seq(9, _ => seq(9, _ => 0))
  }

  /** The values of `g` at `cells`, in cell order. */
  function Values(g: Grid, cells: seq<Cell>): (vs: seq<int>)
    requires IsGrid(g) && CellsInGrid(cells)
    ensures |vs| == |cells| && forall k :: 0 <= k < |cells| ==> vs[k] == At(g, cells[k])
  {
    seq(|cells|, k requires 0 <= k < |cells| => At(g, cells[k]))
  }

  function Sum(s: seq<int>): int
  {
    if s == [] then 0 else s[0] + Sum(s[1..])
  }

  lemma {:induction false} SumSnoc(s: seq<int>, x: int)
    ensures Sum(s + [x]) == Sum(s) + x
  {
    if s != [] {
      assert (s + [x])[1..] == s[1..] + [x];
      SumSnoc(s[1..], x);
    }
  }

  /** Sum of the solution values over a cage's cells (the cage-sum calculator). */
  function CellSum(g: Grid, cells: seq<Cell>): int
    requires IsGrid(g) && CellsInGrid(cells)
  {
    Sum(Values(g, cells))
  }

  lemma CellSumSnoc(g: Grid, cells: seq<Cell>, c: Cell)
    requires IsGrid(g) && CellsInGrid(cells) && InGrid(c)
    ensures CellSum(g, cells + [c]) == CellSum(g, cells) + At(g, c)
  {
    assert Values(g, cells + [c]) == Values(g, cells) + [At(g, c)];
    SumSnoc(Values(g, cells), At(g, c));
  }

  predicate NoRepeats<T(==)>(s: seq<T>)
  {
    forall i, j :: 0 <= i < j < |s| ==> s[i] != s[j]
  }

  lemma NoRepeatsSnoc<T>(s: seq<T>, x: T)
    ensures NoRepeats(s + [x]) <==> NoRepeats(s) && x !in s
  {
    var t := s + [x];
    if NoRepeats(t) {
      forall i, j | 0 <= i < j < |s| ensures s[i] != s[j] {
        assert s[i] == t[i] && s[j] == t[j];
      }
      forall i | 0 <= i < |s| ensures s[i] != x {
        assert t[i] == s[i] && t[|s|] == x;
      }
    }
    if NoRepeats(s) && x !in s {
      forall i, j | 0 <= i < j < |t| ensures t[i] != t[j] {
        if j == |s| { assert t[i] == s[i]; } else { assert t[i] == s[i] && t[j] == s[j]; }
      }
    }
  }

  function Elems<T>(s: seq<T>): set<T>
  {
    set x | x in s
  }

  /** A sequence's element set is never larger than the sequence, and is exactly
      as large when no element repeats. */
  lemma {:induction false} DistinctCardinality<T>(s: seq<T>)
    ensures |Elems(s)| <= |s|
    ensures |Elems(s)| == |s| <==> NoRepeats(s)
  {
    if s != [] {
      var t, x := s[..|s| - 1], s[|s| - 1];
      assert s == t + [x];
      DistinctCardinality(t);
      assert Elems(s) == Elems(t) + {x};
      if x in t {
        var i :| 0 <= i < |t| && t[i] == x;
        assert s[i] == s[|s| - 1];
      } else {
        assert NoRepeats(s) <==> NoRepeats(t) by {
          if NoRepeats(t) {
            forall i, j | 0 <= i < j < |s| ensures s[i] != s[j] {
              if j == |s| - 1 { assert t[i] in t; } else { assert s[i] == t[i] && s[j] == t[j]; }
            }
          }
        }
      }
    }
  }

  lemma {:induction false} SubsetCardinality<T>(a: set<T>, b: set<T>)
    requires a <= b
    ensures |a| <= |b|
    ensures |a| == |b| ==> a == b
    decreases |b|
  {
    if a != b {
      assert !(b <= a);
      var x :| x in b && x !in a;
      SubsetCardinality(a, b - {x});
    }
  }

  /** All cells of all cages, in list order (the iteration order of the
      validator's and generators' nested `for (cage) for (cell)` loops). */
  function Flatten(cages: seq<Cage>): (r: seq<Cell>)
  {
    if cages == [] then [] else Flatten(cages[..|cages| - 1]) + cages[|cages| - 1].cells
  }

  lemma FlattenSnoc(cages: seq<Cage>, c: Cage)
    ensures Flatten(cages + [c]) == Flatten(cages) + c.cells
  {
    assert (cages + [c])[..|cages|] == cages;
  }

  lemma FlattenPrefix(cages: seq<Cage>, k: int)
    requires 0 <= k < |cages|
    ensures Flatten(cages[..k + 1]) == Flatten(cages[..k]) + cages[k].cells
  {
    assert cages[..k + 1][..k] == cages[..k];
  }

  lemma {:induction false} FlattenAppend(a: seq<Cage>, b: seq<Cage>)
    ensures Flatten(a + b) == Flatten(a) + Flatten(b)
    decreases |b|
  {
    if b == [] {
      assert a + b == a;
    } else {
      var b', c := b[..|b| - 1], b[|b| - 1];
      assert a + b == (a + b') + [c];
      assert b == b' + [c];
      FlattenSnoc(a + b', c);
      FlattenSnoc(b', c);
      FlattenAppend(a, b');
    }
  }

  /** A cell occurs in the flattened list exactly when some cage lists it. */
  lemma {:induction false} InFlatten(cages: seq<Cage>, c: Cell)
    ensures c in Flatten(cages) <==> exists k :: 0 <= k < |cages| && c in cages[k].cells
  {
    if cages != [] {
      var n := |cages| - 1;
      InFlatten(cages[..n], c);
      assert forall k :: 0 <= k < n ==> cages[..n][k] == cages[k];
    }
  }

  /** Where cage `k`'s cells start in the flattened list. */
  ghost function Offset(cages: seq<Cage>, k: int): nat
    requires 0 <= k <= |cages|
  {
    |Flatten(cages[..k])|
  }

  lemma {:induction false} FlattenAt(cages: seq<Cage>, k: int, j: int)
    requires 0 <= k < |cages| && 0 <= j < |cages[k].cells|
    ensures Offset(cages, k) + j < |Flatten(cages)|
    ensures Flatten(cages)[Offset(cages, k) + j] == cages[k].cells[j]
  {
    assert cages == cages[..k + 1] + cages[k + 1..];
    FlattenAppend(cages[..k + 1], cages[k + 1..]);
    FlattenPrefix(cages, k);
  }

  /** The cells of the first `k` cages open the flattened list. */
  lemma FlattenPrefixAt(cages: seq<Cage>, k: int, i: int)
    requires 0 <= k <= |cages| && 0 <= i < Offset(cages, k)
    ensures i < |Flatten(cages)| && Flatten(cages)[i] == Flatten(cages[..k])[i]
  {
    assert cages == cages[..k] + cages[k..];
    FlattenAppend(cages[..k], cages[k..]);
  }

  lemma OffsetsOrdered(cages: seq<Cage>)
    ensures forall k1, k2 :: 0 <= k1 < k2 < |cages| ==>
      Offset(cages, k1) + |cages[k1].cells| <= Offset(cages, k2)
  {
    forall k1, k2 | 0 <= k1 < k2 < |cages|
      ensures Offset(cages, k1) + |cages[k1].cells| <= Offset(cages, k2)
    {
      assert cages[..k2] == cages[..k1 + 1] + cages[k1 + 1..k2];
      FlattenAppend(cages[..k1 + 1], cages[k1 + 1..k2]);
      FlattenPrefix(cages, k1);
    }
  }

  /** With no repeated position, a cell belongs to at most one cage. */
  lemma NoRepeatsUniqueOwner(cages: seq<Cage>, c: Cell, k1: int, k2: int)
    requires NoRepeats(Flatten(cages))
    requires 0 <= k1 < |cages| && 0 <= k2 < |cages|
    requires c in cages[k1].cells && c in cages[k2].cells
    ensures k1 == k2
  {
    var j1 :| 0 <= j1 < |cages[k1].cells| && cages[k1].cells[j1] == c;
    var j2 :| 0 <= j2 < |cages[k2].cells| && cages[k2].cells[j2] == c;
    FlattenAt(cages, k1, j1);
    FlattenAt(cages, k2, j2);
    OffsetsOrdered(cages);
  }

  /** The 81 board positions. */
  function AllCells(): set<Cell>
  {
    set i, j | 0 <= i < 9 && 0 <= j < 9 :: Cell(i, j)
  }

  lemma InAllCells(c: Cell)
    ensures c in AllCells() <==> InGrid(c)
  {
    if InGrid(c) {
      assert c == Cell(c.row, c.col);
    }
  }

  /** The first `n` positions in row-major order. */
  ghost function CellsBelow(n: nat): set<Cell>
  {
    set k | 0 <= k < n :: Cell(k / 9, k % 9)
  }

  lemma {:induction false} CellsBelowSize(n: nat)
    ensures |CellsBelow(n)| == n
  {
    if n > 0 {
      CellsBelowSize(n - 1);
      var next := Cell((n - 1) / 9, (n - 1) % 9);
      assert CellsBelow(n) == CellsBelow(n - 1) + {next};
      forall k | 0 <= k < n - 1 ensures Cell(k / 9, k % 9) != next {
        assert k == 9 * (k / 9) + k % 9;
        assert n - 1 == 9 * ((n - 1) / 9) + (n - 1) % 9;
      }
    }
  }

  lemma AllCellsSize()
    ensures |AllCells()| == 81
  {
    CellsBelowSize(81);
    forall c ensures c in AllCells() <==> c in CellsBelow(81) {
      InAllCells(c);
      if InGrid(c) {
        var k := 9 * c.row + c.col;
        assert Cell(k / 9, k % 9) == c;
      }
    }
    assert AllCells() == CellsBelow(81);
  }

  /** The cages cover every board position exactly once and nothing else. */
  ghost predicate Partitions(cages: seq<Cage>)
  {
    NoRepeats(Flatten(cages)) && Elems(Flatten(cages)) == AllCells()
  }
}
