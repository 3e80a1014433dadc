/** The older level generator: a fixed solution, a hand-made cage template
    and hard-coded givens for level 1, and for the other levels random cages
    grown over free neighbours, the four-colouring with its own greedy
    fallback, and the givens of the newer generator. */
module LegacyGenerator {
  import opened KillerTypes
  import opened Sudoku
  import opened LevelValidator
  import opened SolutionGenerator
  import opened CagePartitioner
  import opened CageColoring
  import opened Prefill
  import opened LevelGenerator

  // ---------------------------------------------------------------- templates

  /** All cells of a template, cage after cage. */
  function Concat(template: seq<seq<Cell>>): seq<Cell>
  {
    if template == [] then [] else template[0] + Concat(template[1..])
  }

  lemma {:induction false} ConcatAppend(a: seq<seq<Cell>>, b: seq<seq<Cell>>)
    ensures Concat(a + b) == Concat(a) + Concat(b)
    decreases |a|
  {
    if a == [] {
      assert a + b == b;
    } else {
      assert (a + b)[1..] == a[1..] + b;
      ConcatAppend(a[1..], b);
    }
  }

  /** The cages of a template before their sums are known: the template only
      lists cells. */
  function Outline(template: seq<seq<Cell>>): (cages: seq<Cage>)
    ensures |cages| == |template| && forall k :: 0 <= k < |template| ==> cages[k].cells == template[k]
  {
    seq(|template|, k requires 0 <= k < |template| => Cage("", template[k], 0, ""))
  }

  /** Flattening the outline lists the template's cells in the same order. */
  lemma {:induction false} FlattenOutline(template: seq<seq<Cell>>)
    ensures Flatten(Outline(template)) == Concat(template)
    decreases |template|
  {
    if template != [] {
      var n := |template| - 1;
      FlattenOutline(template[..n]);
      assert Outline(template)[..n] == Outline(template[..n]);
      ConcatAppend(template[..n], [template[n]]);
      assert template[..n] + [template[n]] == template;
      assert Concat([template[n]]) == template[n];
    }
  }

  /* `level1Template`, in source order: the first four cages, the stray
     cage of line 234, and the remaining cages in groups of seven (the last
     group nine). */

  const Level1Head: seq<seq<Cell>> := [
    [Cell(0, 0), Cell(0, 1), Cell(0, 2)],
    [Cell(0, 3)],
    [Cell(0, 4), Cell(0, 5)],
    [Cell(0, 6)]]

  const Level1Part1: seq<seq<Cell>> := [
    [Cell(0, 8)],
    [Cell(1, 0), Cell(1, 1)],
    [Cell(1, 2)],
    [Cell(1, 3)],
    [Cell(1, 4), Cell(1, 5)],
    [Cell(1, 6)],
    [Cell(1, 7), Cell(0, 7)]]

  const Level1Part2: seq<seq<Cell>> := [
    [Cell(1, 8)],
    [Cell(2, 0)],
    [Cell(2, 1)],
    [Cell(2, 2)],
    [Cell(2, 3), Cell(3, 3)],
    [Cell(2, 4), Cell(3, 4)],
    [Cell(2, 5)]]

  const Level1Part3: seq<seq<Cell>> := [
    [Cell(2, 6)],
    [Cell(2, 7)],
    [Cell(2, 8), Cell(3, 8)],
    [Cell(3, 0)],
    [Cell(3, 1)],
    [Cell(3, 2)],
    [Cell(3, 5)]]

  const Level1Part4: seq<seq<Cell>> := [
    [Cell(3, 6)],
    [Cell(3, 7)],
    [Cell(4, 0)],
    [Cell(4, 1), Cell(4, 2), Cell(4, 3)],
    [Cell(4, 4), Cell(5, 4)],
    [Cell(4, 5)],
    [Cell(4, 6)]]

  const Level1Part5: seq<seq<Cell>> := [
    [Cell(4, 7)],
    [Cell(4, 8)],
    [Cell(5, 0)],
    [Cell(5, 1)],
    [Cell(5, 2)],
    [Cell(5, 3)],
    [Cell(5, 5), Cell(5, 6), Cell(6, 5)]]

  const Level1Part6: seq<seq<Cell>> := [
    [Cell(5, 7), Cell(6, 7), Cell(6, 8)],
    [Cell(5, 8)],
    [Cell(6, 0), Cell(6, 1)],
    [Cell(6, 2), Cell(6, 3)],
    [Cell(6, 4), Cell(7, 4), Cell(7, 5)],
    [Cell(6, 6)],
    [Cell(7, 0), Cell(7, 1)]]

  const Level1Part7: seq<seq<Cell>> := [
    [Cell(7, 2), Cell(7, 3)],
    [Cell(7, 6)],
    [Cell(7, 7), Cell(8, 7), Cell(8, 8)],
    [Cell(7, 8)],
    [Cell(8, 0)],
    [Cell(8, 1), Cell(8, 2)],
    [Cell(8, 3), Cell(8, 4)],
    [Cell(8, 5)],
    [Cell(8, 6)]]

  /** The cage `{row: 0, col: 7}` of line 234; the cage listed at line 241
      also holds that position. */
  const StrayCage: seq<Cell> := [Cell(0, 7)]

  const Level1Tail: seq<seq<Cell>> :=
    Level1Part1 + (Level1Part2 + (Level1Part3 + (Level1Part4 + (Level1Part5 + (Level1Part6 + Level1Part7)))))

  /** `level1Template` as written: 56 cages listing 82 positions. */
  const Level1TemplateAsWritten: seq<seq<Cell>> := Level1Head + ([StrayCage] + Level1Tail)

  /** The template without the stray cage: 55 cages. */
  const Level1Template: seq<seq<Cell>> := Level1Head + Level1Tail

  lemma Level1HeadCells()
    ensures Concat(Level1Head) == [Cell(0, 0), Cell(0, 1), Cell(0, 2), Cell(0, 3), Cell(0, 4), Cell(0, 5), Cell(0, 6)]
  {
  }

  lemma Level1Part1Cells()
    ensures Concat(Level1Part1) == [Cell(0, 8), Cell(1, 0), Cell(1, 1), Cell(1, 2), Cell(1, 3), Cell(1, 4), Cell(1, 5), Cell(1, 6), Cell(1, 7), Cell(0, 7)]
  {
  }

  lemma Level1Part2Cells()
    ensures Concat(Level1Part2) == [Cell(1, 8), Cell(2, 0), Cell(2, 1), Cell(2, 2), Cell(2, 3), Cell(3, 3), Cell(2, 4), Cell(3, 4), Cell(2, 5)]
  {
  }

  lemma Level1Part3Cells()
    ensures Concat(Level1Part3) == [Cell(2, 6), Cell(2, 7), Cell(2, 8), Cell(3, 8), Cell(3, 0), Cell(3, 1), Cell(3, 2), Cell(3, 5)]
  {
  }

  lemma Level1Part4Cells()
    ensures Concat(Level1Part4) == [Cell(3, 6), Cell(3, 7), Cell(4, 0), Cell(4, 1), Cell(4, 2), Cell(4, 3), Cell(4, 4), Cell(5, 4), Cell(4, 5), Cell(4, 6)]
  {
  }

  lemma Level1Part5Cells()
    ensures Concat(Level1Part5) == [Cell(4, 7), Cell(4, 8), Cell(5, 0), Cell(5, 1), Cell(5, 2), Cell(5, 3), Cell(5, 5), Cell(5, 6), Cell(6, 5)]
  {
  }

  lemma Level1Part6Cells()
    ensures Concat(Level1Part6) == [Cell(5, 7), Cell(6, 7), Cell(6, 8), Cell(5, 8), Cell(6, 0), Cell(6, 1), Cell(6, 2), Cell(6, 3), Cell(6, 4), Cell(7, 4), Cell(7, 5), Cell(6, 6), Cell(7, 0), Cell(7, 1)]
  {
  }

  lemma Level1Part7Cells()
    ensures Concat(Level1Part7) == [Cell(7, 2), Cell(7, 3), Cell(7, 6), Cell(7, 7), Cell(8, 7), Cell(8, 8), Cell(7, 8), Cell(8, 0), Cell(8, 1), Cell(8, 2), Cell(8, 3), Cell(8, 4), Cell(8, 5), Cell(8, 6)]
  {
  }

  lemma Level1TailCells()
    ensures Concat(Level1Tail) ==
      Concat(Level1Part1) + (Concat(Level1Part2) + (Concat(Level1Part3) + (Concat(Level1Part4) +
      (Concat(Level1Part5) + (Concat(Level1Part6) + Concat(Level1Part7))))))
  {
    ConcatAppend(Level1Part6, Level1Part7);
    ConcatAppend(Level1Part5, Level1Part6 + Level1Part7);
    ConcatAppend(Level1Part4, Level1Part5 + (Level1Part6 + Level1Part7));
    ConcatAppend(Level1Part3, Level1Part4 + (Level1Part5 + (Level1Part6 + Level1Part7)));
    ConcatAppend(Level1Part2, Level1Part3 + (Level1Part4 + (Level1Part5 + (Level1Part6 + Level1Part7))));
    ConcatAppend(Level1Part1, Level1Part2 + (Level1Part3 + (Level1Part4 + (Level1Part5 + (Level1Part6 + Level1Part7)))));
  }

  lemma Level1TemplateSplit()
    ensures Concat(Level1Template) ==
      Concat(Level1Head) + (Concat(Level1Part1) + (Concat(Level1Part2) + (Concat(Level1Part3) + (Concat(Level1Part4) +
      (Concat(Level1Part5) + (Concat(Level1Part6) + Concat(Level1Part7)))))))
  {
    ConcatAppend(Level1Head, Level1Tail);
    Level1TailCells();
  }

  lemma Level1TemplateLength()
    ensures |Concat(Level1Template)| == 81
  {
    Level1TemplateSplit();
    Level1HeadCells(); Level1Part1Cells(); Level1Part2Cells(); Level1Part3Cells();
    Level1Part4Cells(); Level1Part5Cells(); Level1Part6Cells(); Level1Part7Cells();
  }

  lemma Level1HeadInGrid()
    ensures CellsInGrid(Concat(Level1Head))
  {
    Level1HeadCells();
  }

  lemma Level1Part1InGrid()
    ensures CellsInGrid(Concat(Level1Part1))
  {
    Level1Part1Cells();
  }

  lemma Level1Part2InGrid()
    ensures CellsInGrid(Concat(Level1Part2))
  {
    Level1Part2Cells();
  }

  lemma Level1Part3InGrid()
    ensures CellsInGrid(Concat(Level1Part3))
  {
    Level1Part3Cells();
  }

  lemma Level1Part4InGrid()
    ensures CellsInGrid(Concat(Level1Part4))
  {
    Level1Part4Cells();
  }

  lemma Level1Part5InGrid()
    ensures CellsInGrid(Concat(Level1Part5))
  {
    Level1Part5Cells();
  }

  lemma Level1Part6InGrid()
    ensures CellsInGrid(Concat(Level1Part6))
  {
    Level1Part6Cells();
  }

  lemma Level1Part7InGrid()
    ensures CellsInGrid(Concat(Level1Part7))
  {
    Level1Part7Cells();
  }

  lemma Level1TemplateInGrid()
    ensures CellsInGrid(Concat(Level1Template))
  {
    Level1HeadInGrid();
    Level1Part1InGrid();
    Level1Part2InGrid();
    Level1Part3InGrid();
    Level1Part4InGrid();
    Level1Part5InGrid();
    Level1Part6InGrid();
    Level1Part7InGrid();
    Level1TemplateSplit();
    PartsInGrid(Concat(Level1Template), Concat(Level1Head), Concat(Level1Part1), Concat(Level1Part2), Concat(Level1Part3),
      Concat(Level1Part4), Concat(Level1Part5), Concat(Level1Part6), Concat(Level1Part7));
  }

  lemma Level1HeadMembers()
    ensures Cell(0, 0) in Concat(Level1Head) && Cell(0, 1) in Concat(Level1Head) && Cell(0, 2) in Concat(Level1Head) && Cell(0, 3) in Concat(Level1Head) && Cell(0, 4) in Concat(Level1Head) && Cell(0, 5) in Concat(Level1Head) && Cell(0, 6) in Concat(Level1Head)
  {
    Level1HeadCells();
  }

  lemma Level1Part1Members()
    ensures Cell(0, 8) in Concat(Level1Part1) && Cell(1, 0) in Concat(Level1Part1) && Cell(1, 1) in Concat(Level1Part1) && Cell(1, 2) in Concat(Level1Part1) && Cell(1, 3) in Concat(Level1Part1) && Cell(1, 4) in Concat(Level1Part1) && Cell(1, 5) in Concat(Level1Part1) && Cell(1, 6) in Concat(Level1Part1) && Cell(1, 7) in Concat(Level1Part1) && Cell(0, 7) in Concat(Level1Part1)
  {
    Level1Part1Cells();
  }

  lemma Level1Part2Members()
    ensures Cell(1, 8) in Concat(Level1Part2) && Cell(2, 0) in Concat(Level1Part2) && Cell(2, 1) in Concat(Level1Part2) && Cell(2, 2) in Concat(Level1Part2) && Cell(2, 3) in Concat(Level1Part2) && Cell(3, 3) in Concat(Level1Part2) && Cell(2, 4) in Concat(Level1Part2) && Cell(3, 4) in Concat(Level1Part2) && Cell(2, 5) in Concat(Level1Part2)
  {
    Level1Part2Cells();
  }

  lemma Level1Part3Members()
    ensures Cell(2, 6) in Concat(Level1Part3) && Cell(2, 7) in Concat(Level1Part3) && Cell(2, 8) in Concat(Level1Part3) && Cell(3, 8) in Concat(Level1Part3) && Cell(3, 0) in Concat(Level1Part3) && Cell(3, 1) in Concat(Level1Part3) && Cell(3, 2) in Concat(Level1Part3) && Cell(3, 5) in Concat(Level1Part3)
  {
    Level1Part3Cells();
  }

  lemma Level1Part4Members()
    ensures Cell(3, 6) in Concat(Level1Part4) && Cell(3, 7) in Concat(Level1Part4) && Cell(4, 0) in Concat(Level1Part4) && Cell(4, 1) in Concat(Level1Part4) && Cell(4, 2) in Concat(Level1Part4) && Cell(4, 3) in Concat(Level1Part4) && Cell(4, 4) in Concat(Level1Part4) && Cell(5, 4) in Concat(Level1Part4) && Cell(4, 5) in Concat(Level1Part4) && Cell(4, 6) in Concat(Level1Part4)
  {
    Level1Part4Cells();
  }

  lemma Level1Part5Members()
    ensures Cell(4, 7) in Concat(Level1Part5) && Cell(4, 8) in Concat(Level1Part5) && Cell(5, 0) in Concat(Level1Part5) && Cell(5, 1) in Concat(Level1Part5) && Cell(5, 2) in Concat(Level1Part5) && Cell(5, 3) in Concat(Level1Part5) && Cell(5, 5) in Concat(Level1Part5) && Cell(5, 6) in Concat(Level1Part5) && Cell(6, 5) in Concat(Level1Part5)
  {
    Level1Part5Cells();
  }

  lemma Level1Part6Members()
    ensures Cell(5, 7) in Concat(Level1Part6) && Cell(6, 7) in Concat(Level1Part6) && Cell(6, 8) in Concat(Level1Part6) && Cell(5, 8) in Concat(Level1Part6) && Cell(6, 0) in Concat(Level1Part6) && Cell(6, 1) in Concat(Level1Part6) && Cell(6, 2) in Concat(Level1Part6) && Cell(6, 3) in Concat(Level1Part6) && Cell(6, 4) in Concat(Level1Part6) && Cell(7, 4) in Concat(Level1Part6) && Cell(7, 5) in Concat(Level1Part6) && Cell(6, 6) in Concat(Level1Part6) && Cell(7, 0) in Concat(Level1Part6) && Cell(7, 1) in Concat(Level1Part6)
  {
    Level1Part6Cells();
  }

  lemma Level1Part7Members()
    ensures Cell(7, 2) in Concat(Level1Part7) && Cell(7, 3) in Concat(Level1Part7) && Cell(7, 6) in Concat(Level1Part7) && Cell(7, 7) in Concat(Level1Part7) && Cell(8, 7) in Concat(Level1Part7) && Cell(8, 8) in Concat(Level1Part7) && Cell(7, 8) in Concat(Level1Part7) && Cell(8, 0) in Concat(Level1Part7) && Cell(8, 1) in Concat(Level1Part7) && Cell(8, 2) in Concat(Level1Part7) && Cell(8, 3) in Concat(Level1Part7) && Cell(8, 4) in Concat(Level1Part7) && Cell(8, 5) in Concat(Level1Part7) && Cell(8, 6) in Concat(Level1Part7)
  {
    Level1Part7Cells();
  }

  /** A position held by one of eight parts is in their join. */
  lemma PartsJoin(s: seq<Cell>, a: seq<Cell>, b: seq<Cell>, c: seq<Cell>, d: seq<Cell>, e: seq<Cell>, f: seq<Cell>, g: seq<Cell>, h: seq<Cell>)
    requires s == a + (b + (c + (d + (e + (f + (g + h))))))
    ensures forall x :: x in a || x in b || x in c || x in d || x in e || x in f || x in g || x in h ==> x in s
  {
  }

  /** The corrected template's cells, joined from its parts. */
  lemma Level1TemplateJoin()
    ensures forall x ::
      (x in Concat(Level1Head) || x in Concat(Level1Part1) || x in Concat(Level1Part2) ||
       x in Concat(Level1Part3) || x in Concat(Level1Part4) || x in Concat(Level1Part5) ||
       x in Concat(Level1Part6) || x in Concat(Level1Part7)) ==> x in Concat(Level1Template)
  {
    Level1TemplateSplit();
    PartsJoin(Concat(Level1Template), Concat(Level1Head), Concat(Level1Part1), Concat(Level1Part2), Concat(Level1Part3),
      Concat(Level1Part4), Concat(Level1Part5), Concat(Level1Part6), Concat(Level1Part7));
  }

  lemma Level1Row0Covered()
    ensures forall c :: 0 <= c < 9 ==> Cell(0, c) in Concat(Level1Template)
  {
    Level1TemplateJoin();
    Level1HeadMembers();
    Level1Part1Members();
    forall c | 0 <= c < 9 ensures Cell(0, c) in Concat(Level1Template) {
      BoardIndex(c);
    }
  }

  lemma Level1Row1Covered()
    ensures forall c :: 0 <= c < 9 ==> Cell(1, c) in Concat(Level1Template)
  {
    Level1TemplateJoin();
    Level1Part1Members();
    Level1Part2Members();
    forall c | 0 <= c < 9 ensures Cell(1, c) in Concat(Level1Template) {
      BoardIndex(c);
    }
  }

  lemma Level1Row2Covered()
    ensures forall c :: 0 <= c < 9 ==> Cell(2, c) in Concat(Level1Template)
  {
    Level1TemplateJoin();
    Level1Part2Members();
    Level1Part3Members();
    forall c | 0 <= c < 9 ensures Cell(2, c) in Concat(Level1Template) {
      BoardIndex(c);
    }
  }

  lemma Level1Row3Covered()
    ensures forall c :: 0 <= c < 9 ==> Cell(3, c) in Concat(Level1Template)
  {
    Level1TemplateJoin();
    Level1Part2Members();
    Level1Part3Members();
    Level1Part4Members();
    forall c | 0 <= c < 9 ensures Cell(3, c) in Concat(Level1Template) {
      BoardIndex(c);
    }
  }

  lemma Level1Row4Covered()
    ensures forall c :: 0 <= c < 9 ==> Cell(4, c) in Concat(Level1Template)
  {
    Level1TemplateJoin();
    Level1Part4Members();
    Level1Part5Members();
    forall c | 0 <= c < 9 ensures Cell(4, c) in Concat(Level1Template) {
      BoardIndex(c);
    }
  }

  lemma Level1Row5Covered()
    ensures forall c :: 0 <= c < 9 ==> Cell(5, c) in Concat(Level1Template)
  {
    Level1TemplateJoin();
    Level1Part4Members();
    Level1Part5Members();
    Level1Part6Members();
    forall c | 0 <= c < 9 ensures Cell(5, c) in Concat(Level1Template) {
      BoardIndex(c);
    }
  }

  lemma Level1Row6Covered()
    ensures forall c :: 0 <= c < 9 ==> Cell(6, c) in Concat(Level1Template)
  {
    Level1TemplateJoin();
    Level1Part5Members();
    Level1Part6Members();
    forall c | 0 <= c < 9 ensures Cell(6, c) in Concat(Level1Template) {
      BoardIndex(c);
    }
  }

  lemma Level1Row7Covered()
    ensures forall c :: 0 <= c < 9 ==> Cell(7, c) in Concat(Level1Template)
  {
    Level1TemplateJoin();
    Level1Part6Members();
    Level1Part7Members();
    forall c | 0 <= c < 9 ensures Cell(7, c) in Concat(Level1Template) {
      BoardIndex(c);
    }
  }

  lemma Level1Row8Covered()
    ensures forall c :: 0 <= c < 9 ==> Cell(8, c) in Concat(Level1Template)
  {
    Level1TemplateJoin();
    Level1Part7Members();
    forall c | 0 <= c < 9 ensures Cell(8, c) in Concat(Level1Template) {
      BoardIndex(c);
    }
  }

  /** The corrected template lists every board position. */
  lemma Level1TemplateCovers()
    ensures forall x :: InGrid(x) ==> x in Concat(Level1Template)
  {
    Level1Row0Covered();
    Level1Row1Covered();
    Level1Row2Covered();
    Level1Row3Covered();
    Level1Row4Covered();
    Level1Row5Covered();
    Level1Row6Covered();
    Level1Row7Covered();
    Level1Row8Covered();
    forall x | InGrid(x) ensures x in Concat(Level1Template) {
      assert x == Cell(x.row, x.col);
      BoardIndex(x.row);
    }
  }

  /** A board index is one of 0..8: a case split for facts about listed positions. */
  lemma BoardIndex(n: int)
    requires 0 <= n < 9
    ensures n == 0 || n == 1 || n == 2 || n == 3 || n == 4 || n == 5 || n == 6 || n == 7 || n == 8
  {
  }

  lemma PartsInGrid(s: seq<Cell>, a: seq<Cell>, b: seq<Cell>, c: seq<Cell>, d: seq<Cell>, e: seq<Cell>, f: seq<Cell>, g: seq<Cell>, h: seq<Cell>)
    requires s == a + (b + (c + (d + (e + (f + (g + h))))))
    requires CellsInGrid(a) && CellsInGrid(b) && CellsInGrid(c) && CellsInGrid(d)
    requires CellsInGrid(e) && CellsInGrid(f) && CellsInGrid(g) && CellsInGrid(h)
    ensures CellsInGrid(s)
  {
  }

  /** The corrected template's outline partitions the board. */
  lemma Level1TemplatePartitions()
    ensures Partitions(Outline(Level1Template)) && CagesInGrid(Outline(Level1Template))
  {
    var cages := Outline(Level1Template);
    FlattenOutline(Level1Template);
    Level1TemplateLength();
    Level1TemplateInGrid();
    Level1TemplateCovers();
    CoveringListPartitions(Flatten(cages));
    PartitionInGrid(cages);
  }

  /** 81 board cells that include every board position list each position once. */
  lemma CoveringListPartitions(s: seq<Cell>)
    requires |s| == 81 && CellsInGrid(s) && forall x :: InGrid(x) ==> x in s
    ensures NoRepeats(s) && Elems(s) == AllCells()
  {
    forall x ensures x in Elems(s) <==> x in AllCells() {
      InAllCells(x);
    }
    assert Elems(s) == AllCells();
    AllCellsSize();
    DistinctCardinality(s);
  }

  /** The cages of a partition lie on the board. */
  lemma PartitionInGrid(cages: seq<Cage>)
    requires Partitions(cages)
    ensures CagesInGrid(cages)
  {
    forall k, t | 0 <= k < |cages| && 0 <= t < |cages[k].cells| ensures InGrid(cages[k].cells[t]) {
      var x := cages[k].cells[t];
      InFlatten(cages, x);
      assert x in Elems(Flatten(cages));
      InAllCells(x);
    }
  }

  /** The template as written lists position (0, 7) twice: once as the
      stray cage of line 234, once in the cage of line 241. */
  lemma Level1TemplateAsWrittenOverlaps()
    ensures !NoRepeats(Flatten(Outline(Level1TemplateAsWritten)))
  {
    FlattenOutline(Level1TemplateAsWritten);
    Level1TemplateAsWrittenSplit();
    assert |Concat(Level1Head)| == 7 by { Level1HeadCells(); }
    StrayPosition(Concat(Level1TemplateAsWritten), Concat(Level1Head), Concat(Level1Part1), Concat(Level1Rest));
  }

  /** The groups after the first of the tail. */
  const Level1Rest: seq<seq<Cell>> := Level1Part2 + (Level1Part3 + (Level1Part4 + (Level1Part5 + (Level1Part6 + Level1Part7))))

  lemma Level1TemplateAsWrittenSplit()
    ensures Concat(Level1TemplateAsWritten) == Concat(Level1Head) + (StrayCage + (Concat(Level1Part1) + Concat(Level1Rest)))
  {
    ConcatAppend(Level1Head, [StrayCage] + Level1Tail);
    ConcatAppend([StrayCage], Level1Tail);
    assert Concat([StrayCage]) == StrayCage;
    ConcatAppend(Level1Part1, Level1Rest);
  }

  lemma StrayPosition(s: seq<Cell>, head: seq<Cell>, first: seq<Cell>, rest: seq<Cell>)
    requires s == head + (StrayCage + (first + rest)) && |head| == 7 && first == Concat(Level1Part1)
    ensures !NoRepeats(s)
  {
    Level1Part1Cells();
    assert s[7] == Cell(0, 7) && s[17] == Cell(0, 7);
  }

  /** No level built on the template as written passes the level validator:
      its cages overlap. */
  lemma Level1TemplateAsWrittenUnsound(level: Level)
    requires GridsShaped(level) && |level.cages| == |Level1TemplateAsWritten|
    requires forall k :: 0 <= k < |level.cages| ==> level.cages[k].cells == Level1TemplateAsWritten[k]
    ensures !LevelSound(level)
  {
    FlattenSameCells(level.cages, Outline(Level1TemplateAsWritten));
    Level1TemplateAsWrittenOverlaps();
  }

  // ---------------------------------------------------------------- the fixed solution

  /** `basePattern`: each row is 1..9 shifted to the left. */
  const BasePattern: Grid := [
    [1, 2, 3, 4, 5, 6, 7, 8, 9],
    [4, 5, 6, 7, 8, 9, 1, 2, 3],
    [7, 8, 9, 1, 2, 3, 4, 5, 6],
    [2, 3, 4, 5, 6, 7, 8, 9, 1],
    [5, 6, 7, 8, 9, 1, 2, 3, 4],
    [8, 9, 1, 2, 3, 4, 5, 6, 7],
    [3, 4, 5, 6, 7, 8, 9, 1, 2],
    [6, 7, 8, 9, 1, 2, 3, 4, 5],
    [9, 1, 2, 3, 4, 5, 6, 7, 8]]

  /** How far row `i` of the pattern is shifted: 0, 3, 6, 1, 4, 7, 2, 5, 8. */
  function Shift(i: int): int
  {
    3 * (i % 3) + i / 3
  }

  /** The pattern's entry in row `i`, column `j`. */
  function PatternValue(i: int, j: int): int
  {
    (Shift(i) + j) % 9 + 1
  }

  /** `basePattern` follows the shifted-rows formula. */
  lemma BasePatternFormula()
    ensures IsGrid(BasePattern)
    ensures forall i, j :: 0 <= i < 9 && 0 <= j < 9 ==> BasePattern[i][j] == PatternValue(i, j)
  {
    BasePatternRow0();
    BasePatternRow1();
    BasePatternRow2();
    BasePatternRow3();
    BasePatternRow4();
    BasePatternRow5();
    BasePatternRow6();
    BasePatternRow7();
    BasePatternRow8();
    forall i, j | 0 <= i < 9 && 0 <= j < 9 ensures BasePattern[i][j] == PatternValue(i, j) {
      BoardIndex(i);
    }
  }

  lemma BasePatternRow0()
    ensures |BasePattern[0]| == 9 && forall j :: 0 <= j < 9 ==> BasePattern[0][j] == PatternValue(0, j)
  {
    forall j | 0 <= j < 9 ensures BasePattern[0][j] == PatternValue(0, j) {
      BoardIndex(j);
    }
  }

  lemma BasePatternRow1()
    ensures |BasePattern[1]| == 9 && forall j :: 0 <= j < 9 ==> BasePattern[1][j] == PatternValue(1, j)
  {
    forall j | 0 <= j < 9 ensures BasePattern[1][j] == PatternValue(1, j) {
      BoardIndex(j);
    }
  }

  lemma BasePatternRow2()
    ensures |BasePattern[2]| == 9 && forall j :: 0 <= j < 9 ==> BasePattern[2][j] == PatternValue(2, j)
  {
    forall j | 0 <= j < 9 ensures BasePattern[2][j] == PatternValue(2, j) {
      BoardIndex(j);
    }
  }

  lemma BasePatternRow3()
    ensures |BasePattern[3]| == 9 && forall j :: 0 <= j < 9 ==> BasePattern[3][j] == PatternValue(3, j)
  {
    forall j | 0 <= j < 9 ensures BasePattern[3][j] == PatternValue(3, j) {
      BoardIndex(j);
    }
  }

  lemma BasePatternRow4()
    ensures |BasePattern[4]| == 9 && forall j :: 0 <= j < 9 ==> BasePattern[4][j] == PatternValue(4, j)
  {
    forall j | 0 <= j < 9 ensures BasePattern[4][j] == PatternValue(4, j) {
      BoardIndex(j);
    }
  }

  lemma BasePatternRow5()
    ensures |BasePattern[5]| == 9 && forall j :: 0 <= j < 9 ==> BasePattern[5][j] == PatternValue(5, j)
  {
    forall j | 0 <= j < 9 ensures BasePattern[5][j] == PatternValue(5, j) {
      BoardIndex(j);
    }
  }

  lemma BasePatternRow6()
    ensures |BasePattern[6]| == 9 && forall j :: 0 <= j < 9 ==> BasePattern[6][j] == PatternValue(6, j)
  {
    forall j | 0 <= j < 9 ensures BasePattern[6][j] == PatternValue(6, j) {
      BoardIndex(j);
    }
  }

  lemma BasePatternRow7()
    ensures |BasePattern[7]| == 9 && forall j :: 0 <= j < 9 ==> BasePattern[7][j] == PatternValue(7, j)
  {
    forall j | 0 <= j < 9 ensures BasePattern[7][j] == PatternValue(7, j) {
      BoardIndex(j);
    }
  }

  lemma BasePatternRow8()
    ensures |BasePattern[8]| == 9 && forall j :: 0 <= j < 9 ==> BasePattern[8][j] == PatternValue(8, j)
  {
    forall j | 0 <= j < 9 ensures BasePattern[8][j] == PatternValue(8, j) {
      BoardIndex(j);
    }
  }

  /** Adding the same offset keeps two different residues different. */
  lemma ShiftedApart(x: int, y: int, c: int)
    requires 0 <= x < 9 && 0 <= y < 9 && x != y
    ensures (x + c) % 9 != (y + c) % 9
  {
    assert x + c == 9 * ((x + c) / 9) + (x + c) % 9;
    assert y + c == 9 * ((y + c) / 9) + (y + c) % 9;
  }

  lemma PatternRowDistinct(i: int, j1: int, j2: int)
    requires 0 <= i < 9 && 0 <= j1 < 9 && 0 <= j2 < 9 && j1 != j2
    ensures PatternValue(i, j1) != PatternValue(i, j2)
  {
    ShiftedApart(j1, j2, Shift(i));
  }

  lemma PatternColumnDistinct(i1: int, i2: int, j: int)
    requires 0 <= i1 < 9 && 0 <= i2 < 9 && 0 <= j < 9 && i1 != i2
    ensures PatternValue(i1, j) != PatternValue(i2, j)
  {
    assert i1 == 3 * (i1 / 3) + i1 % 3 && i2 == 3 * (i2 / 3) + i2 % 3;
    ShiftedApart(Shift(i1), Shift(i2), j);
  }

  lemma PatternBlockDistinct(i1: int, j1: int, i2: int, j2: int)
    requires 0 <= i1 < 9 && 0 <= j1 < 9 && 0 <= i2 < 9 && 0 <= j2 < 9
    requires SameBlock(i1, j1, i2, j2) && (i1 != i2 || j1 != j2)
    ensures PatternValue(i1, j1) != PatternValue(i2, j2)
  {
    assert i1 == 3 * (i1 / 3) + i1 % 3 && i2 == 3 * (i2 / 3) + i2 % 3;
    assert j1 == 3 * (j1 / 3) + j1 % 3 && j2 == 3 * (j2 / 3) + j2 % 3;
    var c := i1 / 3 + 3 * (j1 / 3);
    ShiftedApart(3 * (i1 % 3) + j1 % 3, 3 * (i2 % 3) + j2 % 3, c);
  }

  /** A grid that follows the shifted-rows formula is a Sudoku solution. */
  lemma PatternIsSolution(g: Grid)
    requires IsGrid(g) && forall i, j :: 0 <= i < 9 && 0 <= j < 9 ==> g[i][j] == PatternValue(i, j)
    ensures ValidSolution(g)
  {
    forall r, c | 0 <= r < 9 && 0 <= c < 9 ensures NoConflict(g, r, c, g[r][c]) {
      forall c2 | 0 <= c2 < 9 && c2 != c ensures g[r][c2] != g[r][c] {
        PatternRowDistinct(r, c2, c);
      }
      forall r2 | 0 <= r2 < 9 && r2 != r ensures g[r2][c] != g[r][c] {
        PatternColumnDistinct(r2, r, c);
      }
      forall r2, c2 | 0 <= r2 < 9 && 0 <= c2 < 9 && SameBlock(r2, c2, r, c) && (r2 != r || c2 != c)
        ensures g[r2][c2] != g[r][c]
      {
        PatternBlockDistinct(r2, c2, r, c);
      }
    }
    ValidSolutionIffConsistent(g);
  }

  lemma BasePatternIsSolution()
    ensures IsGrid(BasePattern) && ValidSolution(BasePattern)
  {
    BasePatternFormula();
    PatternIsSolution(BasePattern);
  }

  /** `generateSolution` of the older generator: copies `basePattern` into a
      fresh board entry by entry; the board is always the same solution. */
  method GenerateFixedSolution() returns (solution: Grid)
    ensures solution == BasePattern && ValidSolution(solution)
  {
    BasePatternFormula();
    var grid := new int[9, 9]((i, j) => 0);
    var i := 0;
    while i < 9
      invariant 0 <= i <= 9
      invariant forall r, c :: 0 <= r < i && 0 <= c < 9 ==> grid[r, c] == BasePattern[r][c]
    {
      var j := 0;
      while j < 9
        invariant 0 <= j <= 9
        invariant forall r, c :: 0 <= r < i && 0 <= c < 9 ==> grid[r, c] == BasePattern[r][c]
        invariant forall c :: 0 <= c < j ==> grid[i, c] == BasePattern[i][c]
      {
        grid[i, j] := BasePattern[i][j];
        j := j + 1;
      }
      i := i + 1;
    }
    solution := Snapshot(grid);
    GridExtensional(solution, BasePattern);
    BasePatternIsSolution();
  }

  /** The hard-coded givens of level 1 (difficulty rating 1). */
  const Level1Givens: Grid := [
    [1, 0, 0, 0, 0, 0, 7, 0, 9],
    [4, 5, 6, 7, 8, 9, 1, 0, 3],
    [7, 0, 9, 1, 2, 3, 4, 5, 6],
    [2, 3, 4, 5, 0, 7, 0, 9, 1],
    [5, 0, 0, 0, 9, 1, 0, 0, 4],
    [0, 9, 0, 2, 3, 0, 0, 6, 7],
    [3, 4, 0, 6, 0, 0, 9, 0, 0],
    [6, 7, 0, 9, 1, 0, 3, 4, 5],
    [0, 1, 0, 3, 0, 5, 6, 0, 0]]

  /** Every hard-coded given of level 1 is the fixed solution's value. */
  lemma Level1GivensAgree()
    ensures IsGrid(Level1Givens) && IsGrid(BasePattern) && GivensAgree(Level1Givens, BasePattern)
  {
    forall i, j | 0 <= i < 9 && 0 <= j < 9 && Level1Givens[i][j] != 0 ensures Level1Givens[i][j] == BasePattern[i][j] {
      BoardIndex(i);
      BoardIndex(j);
    }
  }

  // ---------------------------------------------------------------- random cages

  /** The sum loop of `createLevelFromTemplate` and the `forEach` of
      `generateRandomCage`: the solution's values over the cells, added up. */
  method CageSum(solution: Grid, cells: seq<Cell>) returns (sum: int)
    requires IsGrid(solution) && CellsInGrid(cells)
    ensures sum == CellSum(solution, cells)
  {
    sum := 0;
    var t := 0;
    while t < |cells|
      invariant 0 <= t <= |cells| && sum == CellSum(solution, cells[..t])
    {
      CellSumSnoc(solution, cells[..t], cells[t]);
      assert cells[..t + 1] == cells[..t] + [cells[t]];
      sum := sum + solution[cells[t].row][cells[t].col];
      t := t + 1;
    }
    assert cells[..t] == cells;
  }

  /** A one-cell cage sums to the solution's value in that cell. */
  lemma SingleCellSum(solution: Grid, cell: Cell)
    requires IsGrid(solution) && InGrid(cell)
    ensures CellSum(solution, [cell]) == solution[cell.row][cell.col]
  {
    CellSumSnoc(solution, [], cell);
    assert [] + [cell] == [cell];
  }

  /** A position's place in the row-major scan. */
  function RowMajor(c: Cell): int
  {
    9 * c.row + c.col
  }

  /** The systematic search of both generators: the first unused position in
      row-major order, if there is one. */
  method FirstFree(used: set<Cell>) returns (found: bool, cell: Cell)
    ensures found <==> exists x :: InGrid(x) && x !in used
    ensures found ==> InGrid(cell) && cell !in used
    ensures found ==> forall x :: InGrid(x) && RowMajor(x) < RowMajor(cell) ==> x in used
  {
    found := false;
    cell := Cell(0, 0);
    var row := 0;
    while row < 9
      invariant 0 <= row <= 9 && !found
      invariant forall x :: InGrid(x) && x.row < row ==> x in used
    {
      var col := 0;
      while col < 9
        invariant 0 <= col <= 9 && !found
        invariant forall c :: 0 <= c < col ==> Cell(row, c) in used
      {
        if Cell(row, col) !in used {
          found := true;
          cell := Cell(row, col);
          break;
        }
        col := col + 1;
      }
      if found {
        break;
      }
      assert forall x :: InGrid(x) && x.row == row ==> x == Cell(row, x.col);
      row := row + 1;
    }
  }

  /** The search after the tenth random start pick: row by row, the first
      unused position of the row (if any) replaces the start, and the search
      stops as soon as the start is unused. When row 0 is full, a tenth pick
      that is unused therefore survives. */
  method SystematicStart(used: set<Cell>, pick: Cell) returns (start: Cell)
    requires InGrid(pick)
    ensures InGrid(start)
    ensures start !in used <==> exists x :: InGrid(x) && x !in used
    ensures start != pick ==> forall x :: InGrid(x) && RowMajor(x) < RowMajor(start) ==> x in used
    ensures (exists c :: 0 <= c < 9 && Cell(0, c) !in used) ==>
      start.row == 0 && start !in used && forall c :: 0 <= c < start.col ==> Cell(0, c) in used
    ensures (forall c :: 0 <= c < 9 ==> Cell(0, c) in used) && pick !in used ==> start == pick
  {
    start := pick;
    var row := 0;
    while row < 9
      invariant 0 <= row <= 9 && start == pick
      invariant forall x :: InGrid(x) && x.row < row ==> x in used
      invariant row > 0 ==> pick in used
    {
      var col := 0;
      while col < 9
        invariant 0 <= col <= 9 && start == pick
        invariant forall c :: 0 <= c < col ==> Cell(row, c) in used
      {
        if Cell(row, col) !in used {
          start := Cell(row, col);
          break;
        }
        col := col + 1;
      }
      if start !in used {
        break;
      }
      assert forall x :: InGrid(x) && x.row == row ==> x == Cell(row, x.col);
      row := row + 1;
    }
  }

  /** The overlap test of `generateRandomCages`: no cell of the cage is used yet. */
  method IsCageValid(cells: seq<Cell>, used: set<Cell>) returns (ok: bool)
    ensures ok <==> forall k :: 0 <= k < |cells| ==> cells[k] !in used
  {
    var t := 0;
    while t < |cells|
      invariant 0 <= t <= |cells|
      invariant forall k :: 0 <= k < t ==> cells[k] !in used
    {
      if cells[t] in used {
        return false;
      }
      t := t + 1;
    }
    return true;
  }

  /** Marks every cell of an accepted cage as used. */
  method MarkUsed(used: set<Cell>, cells: seq<Cell>) returns (usedAfter: set<Cell>)
    ensures usedAfter == used + Elems(cells)
  {
    usedAfter := used;
    var t := 0;
    while t < |cells|
      invariant 0 <= t <= |cells| && usedAfter == used + Elems(cells[..t])
    {
      assert Elems(cells[..t + 1]) == Elems(cells[..t]) + {cells[t]} by {
        assert cells[..t + 1] == cells[..t] + [cells[t]];
      }
      usedAfter := usedAfter + {cells[t]};
      t := t + 1;
    }
    assert cells[..t] == cells;
  }

  function Min(a: int, b: int): int
  {
    if a < b then a else b
  }

  /** `generateRandomCage`: a target size between the minimum and
      min(maximum, 3); up to nine random start positions, then on the tenth
      pick the row-by-row search of `SystematicStart`; growth over free
      neighbours; the solution's sum. There is no cage exactly when every
      position is used. */
  method GenerateRandomCage(used: set<Cell>, minCageSize: int, maxCageSize: int, solution: Grid) returns (r: Option<Cage>)
    requires IsGrid(solution) && 1 <= minCageSize <= Min(maxCageSize, 3)
    ensures r.None? <==> forall x :: InGrid(x) ==> x in used
    ensures r.Some? ==> Grown(r.value, solution, Min(maxCageSize, 3))
    ensures r.Some? ==> forall k :: 0 <= k < |r.value.cells| ==> r.value.cells[k] !in used
  {
    var cageSize :| minCageSize <= cageSize <= Min(maxCageSize, 3);
    var start := Cell(0, 0);
    var startAttempts := 0;
    while true
      invariant 0 <= startAttempts < 10
      decreases 10 - startAttempts
    {
      var startRow :| 0 <= startRow < 9;
      var startCol :| 0 <= startCol < 9;
      start := Cell(startRow, startCol);
      startAttempts := startAttempts + 1;
      if startAttempts >= 10 {
        start := SystematicStart(used, start);
        break;
      }
      if start !in used {
        break;
      }
    }
    if start in used {
      return None;
    }
    var cells, usedAfter := GrowCage(used, start, cageSize);
    var sum := CageSum(solution, cells);
    return Some(Cage("", cells, sum, ""));
  }

  /** The cages built so far: disjoint, on the board, exactly the used
      positions, each as the cage builder leaves it. */
  ghost predicate Packed(cages: seq<Cage>, used: set<Cell>, solution: Grid, maxSize: int)
    requires IsGrid(solution)
  {
    used <= AllCells() && used == Elems(Flatten(cages)) && NoRepeats(Flatten(cages)) &&
    CagesInGrid(cages) && AllGrown(cages, solution, maxSize)
  }

  /** Accepts a cage of unused positions: marks its cells and appends it. */
  method AcceptCage(cages: seq<Cage>, used: set<Cell>, cage: Cage, solution: Grid, maxSize: int)
    returns (cages': seq<Cage>, used': set<Cell>)
    requires IsGrid(solution) && Packed(cages, used, solution, maxSize) && Grown(cage, solution, maxSize)
    requires forall k :: 0 <= k < |cage.cells| ==> cage.cells[k] !in used
    ensures cages' == cages + [cage] && used' == used + Elems(cage.cells)
    ensures Packed(cages', used', solution, maxSize) && |used'| > |used|
  {
    used' := MarkUsed(used, cage.cells);
    AddCage(cages, cage, used, used');
    SubsetCardinality(used + {cage.cells[0]}, used');
    AllGrownSnoc(cages, cage, solution, maxSize);
    cages' := cages + [cage];
  }

  /** `generateRandomCages` of the older generator: up to ten tries of
      `generateRandomCage` per cage, accepted only when none of its cells is
      used; after ten failed tries, a one-cell cage on the first unused
      position. The cages partition the board, each a connected shape of at
      most min(maximum, 3) cells summing the solution. */
  method GenerateRandomCagesLegacy(solution: Grid, minCageSize: int, maxCageSize: int) returns (cages: seq<Cage>)
    requires IsGrid(solution) && 1 <= minCageSize <= Min(maxCageSize, 3)
    ensures Partitions(cages) && CagesInGrid(cages)
    ensures AllGrown(cages, solution, Min(maxCageSize, 3))
  {
    var maxSize := Min(maxCageSize, 3);
    cages := [];
    var usedCells: set<Cell> := {};
    while |usedCells| < 81
      invariant Packed(cages, usedCells, solution, maxSize)
      decreases 81 - |usedCells|
    {
      ghost var before := usedCells;
      var added := false;
      var attemptsLeft := 10;
      while attemptsLeft > 0 && !added
        invariant Packed(cages, usedCells, solution, maxSize)
        invariant added ==> |usedCells| > |before|
        invariant !added ==> usedCells == before
        decreases attemptsLeft
      {
        var tempCage := GenerateRandomCage(usedCells, minCageSize, maxCageSize, solution);
        if tempCage.Some? && |tempCage.value.cells| > 0 {
          var isValid := IsCageValid(tempCage.value.cells, usedCells);
          if isValid {
            cages, usedCells := AcceptCage(cages, usedCells, tempCage.value, solution, maxSize);
            added := true;
          }
        }
        attemptsLeft := attemptsLeft - 1;
      }
      if !added {
        FreeCellExists(usedCells);
        var found, cell := FirstFree(usedCells);
        if found {
          SingleCellSum(solution, cell);
          cages, usedCells := AcceptCage(cages, usedCells, Cage("", [cell], solution[cell.row][cell.col], ""), solution, maxSize);
        }
      }
    }
    AllUsed(usedCells);
  }

  // ---------------------------------------------------------------- colours

  /** The greedy fallback of the older generator: when all four colours are
      taken around a cage, it falls back to the cage's position in the visit
      order modulo 4. */
  method LegacyGreedyColors(adj: seq<seq<int>>, order: seq<int>, a: array<int>)
    requires IsOrder(order, |adj|) && a.Length == |adj|
    modifies a
    ensures Coloring(a[..], |adj|)
  {
    forall i | 0 <= i < a.Length {
      a[i] := -1;
    }
    var k := 0;
    while k < |order|
      invariant 0 <= k <= |order| && Partial(a[..], order, k)
    {
      var cur := order[k];
      var used := UsedColors(adj, a, cur);
      var selected := 0;
      while selected in used && selected < 4
        invariant 0 <= selected <= 4
      {
        selected := selected + 1;
      }
      if selected >= 4 {
        selected := k % 4;
      }
      PlaceKeepsPartial(a[..], order, k, selected);
      a[cur] := selected;
      k := k + 1;
    }
    PartialFull(a[..], order);
  }

  /** `assignOptimalColors` of the older generator: the backtracking search
      of the newer one with the greedy fallback above. */
  method LegacyAssignOptimalColors(cages: seq<Cage>) returns (colored: seq<Cage>)
    ensures |colored| == |cages|
    ensures forall i :: 0 <= i < |cages| ==>
      (colored[i].id == cages[i].id && colored[i].cells == cages[i].cells && colored[i].sum == cages[i].sum &&
       colored[i].color in OptimalColors)
    ensures ColorsSeparated(colored) <==> FourColorable(cages)
  {
    var adj := BuildAdjacency(cages);
    AdjacencyIsGraph(adj, cages);
    var order := OrderByDegree(adj);
    var a := new int[|cages|](i => -1);
    assert Partial(a[..], order, 0);
    var success := ColorGraph(adj, order, a, 0);
    if !success {
      forall col | Coloring(col, |cages|) ensures !SeparatedBy(cages, col) {
        assert Extends(col, a[..]);
        ProperIffSeparated(adj, cages, col);
      }
      LegacyGreedyColors(adj, order, a);
    } else {
      ProperIffSeparated(adj, cages, a[..]);
    }
    colored := Paint(cages, a[..]);
    PaintSeparated(cages, a[..]);
  }

  /** Whether cages can be four-coloured depends on their cells only. */
  lemma FourColorableSameCells(a: seq<Cage>, b: seq<Cage>)
    requires |a| == |b| && forall k :: 0 <= k < |a| ==> a[k].cells == b[k].cells
    ensures FourColorable(a) <==> FourColorable(b)
  {
    assert forall i, j :: 0 <= i < |a| && 0 <= j < |a| ==> AreCagesAdjacent(a[i], a[j]) == AreCagesAdjacent(b[i], b[j]);
    if FourColorable(a) {
      var col :| Coloring(col, |a|) && SeparatedBy(a, col);
      assert SeparatedBy(b, col);
    }
    if FourColorable(b) {
      var col :| Coloring(col, |b|) && SeparatedBy(b, col);
      assert SeparatedBy(a, col);
    }
  }

  // ---------------------------------------------------------------- levels

  /** `createPrefilledCells` of the older generator: rating 1 gets the
      hard-coded level-1 givens, any other rating the random givens of the
      newer generator. */
  method CreatePrefilledCellsLegacy(solution: Grid, prefilledCount: nat, difficultyRating: int, cages: seq<Cage>)
    returns (prefilled: Grid)
    requires IsGrid(solution)
    requires difficultyRating != 1 ==>
      (CagesInGrid(cages) && |cages| > 0 && forall k :: 0 <= k < |cages| ==> |cages[k].cells| > 0)
    ensures IsGrid(prefilled)
    ensures difficultyRating == 1 ==> prefilled == Level1Givens
    ensures difficultyRating != 1 ==> AgreesWith(prefilled, solution)
  {
    if difficultyRating == 1 {
      Level1GivensAgree();
      return Level1Givens;
    }
    ghost var fullIdx, shown;
    prefilled, fullIdx, shown := CreatePrefilledCells(solution, prefilledCount, difficultyRating, cages);
  }

  /** Within the game's levels, only level 1 has difficulty rating 1. */
  lemma RatingOneIsLevelOne(levelNumber: int)
    requires 1 <= levelNumber <= TotalLevels
    ensures GetDifficultyConfig(levelNumber).difficultyRating == 1 <==> levelNumber == 1
  {
    var d := levelNumber - 1;
    if d > 0 {
      DivMonotone(99, 9 * d + 98);
    }
  }

  /** Sums the solution over each template cage (`cagesWithSums`). */
  method TemplateSums(template: seq<seq<Cell>>, solution: Grid) returns (cages: seq<Cage>)
    requires IsGrid(solution) && forall k :: 0 <= k < |template| ==> CellsInGrid(template[k])
    ensures |cages| == |template|
    ensures forall k :: 0 <= k < |template| ==>
      (cages[k].cells == template[k] && cages[k].sum == CellSum(solution, template[k]))
  {
    cages := [];
    var i := 0;
    while i < |template|
      invariant 0 <= i <= |template| && |cages| == i
      invariant forall k :: 0 <= k < i ==> (cages[k].cells == template[k] && cages[k].sum == CellSum(solution, template[k]))
    {
      var sum := CageSum(solution, template[i]);
      cages := cages + [Cage("", template[i], sum, "")];
      i := i + 1;
    }
  }

  /** `createLevelFromTemplate`: the template's cages with the solution's
      sums, coloured, and the givens for the level's rating. */
  method CreateLevelFromTemplate(template: seq<seq<Cell>>, levelNumber: int, solution: Grid, prefilledCount: nat)
    returns (level: Level)
    requires IsGrid(solution) && forall k :: 0 <= k < |template| ==> CellsInGrid(template[k])
    requires GetDifficultyConfig(levelNumber).difficultyRating != 1 ==>
      (|template| > 0 && forall k :: 0 <= k < |template| ==> |template[k]| > 0)
    ensures level.levelNumber == levelNumber && level.difficultyRating == GetDifficultyConfig(levelNumber).difficultyRating
    ensures level.solution == Some(solution) && level.initialValues.Some? && GridsShaped(level)
    ensures |level.cages| == |template|
    ensures forall k :: 0 <= k < |template| ==>
      (level.cages[k].cells == template[k] && level.cages[k].sum == CellSum(solution, template[k]) &&
       level.cages[k].color in OptimalColors)
    ensures ColorsSeparated(level.cages) <==> FourColorable(level.cages)
    ensures GetDifficultyConfig(levelNumber).difficultyRating == 1 ==> level.initialValues.value == Level1Givens
    ensures GetDifficultyConfig(levelNumber).difficultyRating != 1 ==> AgreesWith(level.initialValues.value, solution)
  {
    var cagesWithSums := TemplateSums(template, solution);
    var cages := LegacyAssignOptimalColors(cagesWithSums);
    FourColorableSameCells(cages, cagesWithSums);
    var config := GetDifficultyConfig(levelNumber);
    var initialValues := CreatePrefilledCellsLegacy(solution, prefilledCount, config.difficultyRating, cages);
    level := Level("", levelNumber, config.difficultyRating, cages, Some(initialValues), Some(solution));
  }

  /** What `createTemplatedLevel` promises about a level it builds on
      `solution`: the cages partition the board and sum the solution, carry
      generator colours that separate touching cages whenever that is
      possible, and every given is a solution value. */
  ghost predicate BuiltLevel(level: Level, levelNumber: int, solution: Grid)
    requires IsGrid(solution)
  {
    level.levelNumber == levelNumber && level.difficultyRating == GetDifficultyConfig(levelNumber).difficultyRating &&
    level.solution == Some(solution) && level.initialValues.Some? && GridsShaped(level) &&
    GivensAgree(level.initialValues.value, solution) &&
    Partitions(level.cages) && CagesInGrid(level.cages) &&
    (forall k :: 0 <= k < |level.cages| ==>
      (level.cages[k].sum == CellSum(solution, level.cages[k].cells) && level.cages[k].color in OptimalColors)) &&
    (ColorsSeparated(level.cages) <==> FourColorable(level.cages))
  }

  /** Every cage of the corrected template lies on the board. */
  lemma Level1TemplateCagesInGrid()
    ensures forall k :: 0 <= k < |Level1Template| ==> CellsInGrid(Level1Template[k])
  {
    Level1TemplatePartitions();
    var outline := Outline(Level1Template);
    assert forall k :: 0 <= k < |Level1Template| ==> outline[k].cells == Level1Template[k];
  }

  /** Level 1: the corrected template, coloured, with the hard-coded givens. */
  method TemplateLevelOne(solution: Grid, prefilledCount: nat) returns (level: Level)
    requires IsGrid(solution) && IsGrid(Level1Givens) && GivensAgree(Level1Givens, solution)
    ensures BuiltLevel(level, 1, solution)
    ensures level.initialValues.value == Level1Givens && |level.cages| == |Level1Template|
    ensures forall k :: 0 <= k < |level.cages| ==> level.cages[k].cells == Level1Template[k]
  {
    Level1TemplateCagesInGrid();
    level := CreateLevelFromTemplate(Level1Template, 1, solution, prefilledCount);
    Level1TemplatePartitions();
    FlattenSameCells(level.cages, Outline(Level1Template));
  }


  /** Any other level: random cages of at most three cells, coloured, with
      random givens. */
  method RandomCageLevel(levelNumber: int, solution: Grid, prefilledCount: nat) returns (level: Level)
    requires 1 < levelNumber <= TotalLevels && IsGrid(solution)
    ensures BuiltLevel(level, levelNumber, solution)
    ensures forall k :: 0 <= k < |level.cages| ==> (1 <= |level.cages[k].cells| <= 3 && Connected(level.cages[k].cells))
  {
    RatingOneIsLevelOne(levelNumber);
    var config := GetDifficultyConfig(levelNumber);
    var cages := GenerateRandomCagesLegacy(solution, config.minCageSize, config.maxCageSize);
    ghost var uncolored := cages;
    cages := LegacyAssignOptimalColors(cages);
    SameCellsFacts(cages, uncolored, solution, 3);
    var initialValues := CreatePrefilledCellsLegacy(solution, prefilledCount, config.difficultyRating, cages);
    level := Level("", levelNumber, config.difficultyRating, cages, Some(initialValues), Some(solution));
  }

  /** `createTemplatedLevel`: the fixed solution, then the level-1 template
      for level 1 and random cages for every other level. */
  method CreateTemplatedLevel(levelNumber: int, prefilledCount: nat) returns (level: Level)
    requires 1 <= levelNumber <= TotalLevels
    ensures IsGrid(BasePattern) && BuiltLevel(level, levelNumber, BasePattern) && ValidSolution(BasePattern)
    ensures levelNumber == 1 ==>
      (level.initialValues.value == Level1Givens && |level.cages| == |Level1Template| &&
       forall k :: 0 <= k < |level.cages| ==> level.cages[k].cells == Level1Template[k])
    ensures levelNumber != 1 ==> forall k :: 0 <= k < |level.cages| ==>
      (1 <= |level.cages[k].cells| <= 3 && Connected(level.cages[k].cells))
  {
    var solution := GenerateFixedSolution();
    if levelNumber == 1 {
      Level1GivensAgree();
      level := TemplateLevelOne(solution, prefilledCount);
    } else {
      level := RandomCageLevel(levelNumber, solution, prefilledCount);
    }
  }
}
