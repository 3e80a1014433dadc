/** The classic Sudoku rules on a 9x9 grid, stated twice: per unit (every row,
    column and 3x3 block is a permutation of 1..9, as the level validator
    checks a solution) and per cell (no filled cell shares its value with
    another cell of its row, column or block, as the play-time rule checks and the
    solution filler check one placement). `ValidSolutionIffConsistent` proves
    the two agree on fully filled grids. */
module Sudoku {
  import opened KillerTypes

  /** The digits 1..9 in order. */
  function Digits(): (s: seq<int>)
    ensures |s| == 9 && forall i :: 0 <= i < 9 ==> s[i] == i + 1
  {
    seq(9, i => i + 1)
  }

  lemma DigitsFacts()
    ensures |Digits()| == 9 && NoRepeats(Digits())
    ensures forall x :: x in Digits() <==> 1 <= x <= 9
    ensures forall x :: multiset(Digits())[x] == if 1 <= x <= 9 then 1 else 0
  {
    forall x | 1 <= x <= 9 ensures x in Digits() {
      assert Digits()[x - 1] == x;
    }
    DistinctMultiset(Digits());
  }

  function Row(g: Grid, i: int): (s: seq<int>)
    requires IsGrid(g) && 0 <= i < 9
    ensures |s| == 9 && forall j :: 0 <= j < 9 ==> s[j] == g[i][j]
  {
    g[i]
  }

  function Column(g: Grid, j: int): (s: seq<int>)
    requires IsGrid(g) && 0 <= j < 9
    ensures |s| == 9 && forall i :: 0 <= i < 9 ==> s[i] == g[i][j]
  {
    seq(9, i requires 0 <= i < 9 => g[i][j])
  }

  /** Block (bi, bj), read row by row. */
  function Block(g: Grid, bi: int, bj: int): (s: seq<int>)
    requires IsGrid(g) && 0 <= bi < 3 && 0 <= bj < 3
    ensures |s| == 9 && forall k :: 0 <= k < 9 ==> s[k] == g[3 * bi + k / 3][3 * bj + k % 3]
  {
    seq(9, k requires 0 <= k < 9 => g[3 * bi + k / 3][3 * bj + k % 3])
  }

  ghost predicate IsDigitPermutation(s: seq<int>)
  {
    multiset(s) == multiset(Digits())
  }

  /** Every row, column and block is a permutation of 1..9. */
  ghost predicate ValidSolution(g: Grid)
  {
    IsGrid(g) &&
    forall u :: 0 <= u < 9 ==>
      IsDigitPermutation(Row(g, u)) && IsDigitPermutation(Column(g, u)) &&
      IsDigitPermutation(Block(g, u / 3, u % 3))
  }

  predicate SameBlock(r1: int, c1: int, r2: int, c2: int)
  {
    r1 / 3 == r2 / 3 && c1 / 3 == c2 / 3
  }

  /** Placing `v` at (row, col) clashes with no OTHER cell of its row, column
      or block; the empty value 0 never clashes. */
  ghost predicate NoConflict(g: Grid, row: int, col: int, v: int)
    requires IsGrid(g) && 0 <= row < 9 && 0 <= col < 9
  {
    v == 0 ||
    ((forall c :: 0 <= c < 9 && c != col ==> g[row][c] != v) &&
     (forall r :: 0 <= r < 9 && r != row ==> g[r][col] != v) &&
     (forall r, c :: 0 <= r < 9 && 0 <= c < 9 && SameBlock(r, c, row, col) && (r != row || c != col) ==>
        g[r][c] != v))
  }

  /** No filled cell clashes with another. */
  ghost predicate Consistent(g: Grid)
    requires IsGrid(g)
  {
    forall r, c :: 0 <= r < 9 && 0 <= c < 9 ==> NoConflict(g, r, c, g[r][c])
  }

  predicate AllDigits(g: Grid)
    requires IsGrid(g)
  {
    forall r, c :: 0 <= r < 9 && 0 <= c < 9 ==> 1 <= g[r][c] <= 9
  }

  lemma {:induction false} DistinctMultiset(s: seq<int>)
    requires NoRepeats(s)
    ensures forall x :: multiset(s)[x] == if x in s then 1 else 0
  {
    if s != [] {
      var t, x := s[..|s| - 1], s[|s| - 1];
      assert s == t + [x];
      assert NoRepeats(t) by {
        forall i, j | 0 <= i < j < |t| ensures t[i] != t[j] {
          assert t[i] == s[i] && t[j] == s[j];
        }
      }
      DistinctMultiset(t);
      forall i | 0 <= i < |t| ensures t[i] != x {
        assert t[i] == s[i];
      }
    }
  }

  lemma RepeatCounts(s: seq<int>, i: int, j: int)
    requires 0 <= i < j < |s|
    ensures s[i] == s[j] ==> multiset(s)[s[i]] >= 2
  {
    if s[i] == s[j] {
      assert s == s[..j] + [s[j]] + s[j + 1..];
      assert s[i] in s[..j];
    }
  }

  lemma PermutationIsDistinctDigits(s: seq<int>)
    requires |s| == 9 && IsDigitPermutation(s)
    ensures forall k :: 0 <= k < 9 ==> 1 <= s[k] <= 9
    ensures NoRepeats(s)
  {
    DigitsFacts();
    forall k | 0 <= k < 9 ensures 1 <= s[k] <= 9 {
      assert s[k] in multiset(s);
    }
    forall i, j | 0 <= i < j < 9 ensures s[i] != s[j] {
      RepeatCounts(s, i, j);
    }
  }

  lemma DistinctDigitsIsPermutation(s: seq<int>)
    requires |s| == 9 && NoRepeats(s)
    requires forall k :: 0 <= k < 9 ==> 1 <= s[k] <= 9
    ensures IsDigitPermutation(s)
  {
    DigitsFacts();
    DistinctCardinality(s);
    DistinctCardinality(Digits());
    forall x | x in Elems(s) ensures x in Elems(Digits()) {
      assert 1 <= x <= 9;
    }
    SubsetCardinality(Elems(s), Elems(Digits()));
    DistinctMultiset(s);
    forall x ensures multiset(s)[x] == multiset(Digits())[x] {
      assert x in s <==> x in Elems(s);
      assert x in Digits() <==> x in Elems(Digits());
    }
    assert multiset(s) == multiset(Digits());
  }

  /** A 9-element sequence is a permutation of 1..9 exactly when its entries
      are digits and no entry repeats (the check `new Set(s).size === 9` plus
      the range test). */
  lemma PermutationIffDistinctDigits(s: seq<int>)
    requires |s| == 9
    ensures IsDigitPermutation(s) <==> (forall k :: 0 <= k < 9 ==> 1 <= s[k] <= 9) && NoRepeats(s)
  {
    if IsDigitPermutation(s) {
      PermutationIsDistinctDigits(s);
    }
    if (forall k :: 0 <= k < 9 ==> 1 <= s[k] <= 9) && NoRepeats(s) {
      DistinctDigitsIsPermutation(s);
    }
  }

  /** Where cell (r, c) sits inside its block. */
  lemma BlockPosition(g: Grid, r: int, c: int)
    requires IsGrid(g) && 0 <= r < 9 && 0 <= c < 9
    ensures 0 <= 3 * (r % 3) + c % 3 < 9
    ensures Block(g, r / 3, c / 3)[3 * (r % 3) + c % 3] == g[r][c]
  {
    var k := 3 * (r % 3) + c % 3;
    assert k / 3 == r % 3 && k % 3 == c % 3;
  }

  /** Block positions name distinct cells of the same block. */
  lemma BlockCells(bi: int, bj: int, k1: int, k2: int)
    requires 0 <= bi < 3 && 0 <= bj < 3 && 0 <= k1 < 9 && 0 <= k2 < 9
    ensures SameBlock(3 * bi + k1 / 3, 3 * bj + k1 % 3, 3 * bi + k2 / 3, 3 * bj + k2 % 3)
    ensures (3 * bi + k1 / 3, 3 * bj + k1 % 3) == (3 * bi + k2 / 3, 3 * bj + k2 % 3) ==> k1 == k2
  {
    assert k1 == 3 * (k1 / 3) + k1 % 3 && k2 == 3 * (k2 / 3) + k2 % 3;
  }

  lemma RowDistinct(g: Grid, r: int)
    requires IsGrid(g) && 0 <= r < 9 && NoRepeats(Row(g, r))
    ensures forall c1, c2 :: 0 <= c1 < 9 && 0 <= c2 < 9 && c1 != c2 ==> g[r][c1] != g[r][c2]
  {
    forall c1, c2 | 0 <= c1 < 9 && 0 <= c2 < 9 && c1 != c2 ensures g[r][c1] != g[r][c2] {
      assert Row(g, r)[c1] == g[r][c1] && Row(g, r)[c2] == g[r][c2];
    }
  }

  lemma ColumnDistinct(g: Grid, c: int)
    requires IsGrid(g) && 0 <= c < 9 && NoRepeats(Column(g, c))
    ensures forall r1, r2 :: 0 <= r1 < 9 && 0 <= r2 < 9 && r1 != r2 ==> g[r1][c] != g[r2][c]
  {
    forall r1, r2 | 0 <= r1 < 9 && 0 <= r2 < 9 && r1 != r2 ensures g[r1][c] != g[r2][c] {
      assert Column(g, c)[r1] == g[r1][c] && Column(g, c)[r2] == g[r2][c];
    }
  }

  lemma BlockDistinct(g: Grid, r: int, c: int)
    requires IsGrid(g) && 0 <= r < 9 && 0 <= c < 9 && NoRepeats(Block(g, r / 3, c / 3))
    ensures forall r', c' :: 0 <= r' < 9 && 0 <= c' < 9 && SameBlock(r', c', r, c) && (r' != r || c' != c) ==>
      g[r'][c'] != g[r][c]
  {
    BlockPosition(g, r, c);
    forall r', c' | 0 <= r' < 9 && 0 <= c' < 9 && SameBlock(r', c', r, c) && (r' != r || c' != c)
      ensures g[r'][c'] != g[r][c]
    {
      BlockPosition(g, r', c');
      BlockCells(r / 3, c / 3, 3 * (r % 3) + c % 3, 3 * (r' % 3) + c' % 3);
    }
  }

  lemma ValidSolutionCell(g: Grid, r: int, c: int)
    requires ValidSolution(g) && 0 <= r < 9 && 0 <= c < 9
    ensures 1 <= g[r][c] <= 9 && NoConflict(g, r, c, g[r][c])
  {
    assert NoRepeats(Row(g, r)) && 1 <= g[r][c] <= 9 by {
      assert IsDigitPermutation(Row(g, r));
      PermutationIsDistinctDigits(Row(g, r));
      assert Row(g, r)[c] == g[r][c];
    }
    assert NoRepeats(Column(g, c)) by {
      assert IsDigitPermutation(Column(g, c));
      PermutationIsDistinctDigits(Column(g, c));
    }
    assert NoRepeats(Block(g, r / 3, c / 3)) by {
      var u := 3 * (r / 3) + c / 3;
      assert u / 3 == r / 3 && u % 3 == c / 3;
      assert IsDigitPermutation(Block(g, u / 3, u % 3));
      PermutationIsDistinctDigits(Block(g, r / 3, c / 3));
    }
    RowDistinct(g, r);
    ColumnDistinct(g, c);
    BlockDistinct(g, r, c);
  }

  /** From the per-unit statement to the per-cell one. */
  lemma ValidSolutionIsConsistent(g: Grid)
    requires ValidSolution(g)
    ensures AllDigits(g) && Consistent(g)
  {
    forall r, c | 0 <= r < 9 && 0 <= c < 9 ensures 1 <= g[r][c] <= 9 && NoConflict(g, r, c, g[r][c]) {
      ValidSolutionCell(g, r, c);
    }
  }

  lemma ConsistentBlock(g: Grid, bi: int, bj: int)
    requires IsGrid(g) && AllDigits(g) && Consistent(g) && 0 <= bi < 3 && 0 <= bj < 3
    ensures IsDigitPermutation(Block(g, bi, bj))
  {
    forall i, j | 0 <= i < j < 9 ensures Block(g, bi, bj)[i] != Block(g, bi, bj)[j] {
      BlockCells(bi, bj, i, j);
      var r, c := 3 * bi + i / 3, 3 * bj + i % 3;
      assert NoConflict(g, r, c, g[r][c]);
    }
    DistinctDigitsIsPermutation(Block(g, bi, bj));
  }

  lemma ConsistentUnit(g: Grid, u: int)
    requires IsGrid(g) && AllDigits(g) && Consistent(g) && 0 <= u < 9
    ensures IsDigitPermutation(Row(g, u)) && IsDigitPermutation(Column(g, u))
    ensures IsDigitPermutation(Block(g, u / 3, u % 3))
  {
    forall i, j | 0 <= i < j < 9 ensures Row(g, u)[i] != Row(g, u)[j] {
      assert NoConflict(g, u, i, g[u][i]);
    }
    DistinctDigitsIsPermutation(Row(g, u));
    forall i, j | 0 <= i < j < 9 ensures Column(g, u)[i] != Column(g, u)[j] {
      assert NoConflict(g, i, u, g[i][u]);
    }
    DistinctDigitsIsPermutation(Column(g, u));
    ConsistentBlock(g, u / 3, u % 3);
  }

  /** On any grid the per-unit and the per-cell statements of the rules agree. */
  lemma ValidSolutionIffConsistent(g: Grid)
    requires IsGrid(g)
    ensures ValidSolution(g) <==> AllDigits(g) && Consistent(g)
  {
    if ValidSolution(g) {
      ValidSolutionIsConsistent(g);
    }
    if AllDigits(g) && Consistent(g) {
      forall u | 0 <= u < 9
        ensures IsDigitPermutation(Row(g, u)) && IsDigitPermutation(Column(g, u))
        ensures IsDigitPermutation(Block(g, u / 3, u % 3))
      {
        ConsistentUnit(g, u);
      }
    }
  }
}
