/** The level generator: difficulty parameters from the level number, and
    the attempt loop that builds a solution, cages, colours and givens and
    keeps the first level that passes the generator's own checks. */
module LevelGenerator {
  import opened KillerTypes
  import opened Sudoku
  import opened CageSums
  import opened LevelValidator
  import opened SolutionGenerator
  import opened CagePartitioner
  import opened CageColoring
  import opened Prefill

  /** Levels are numbered 1..TotalLevels. */
  const TotalLevels := 100

  /** The attempt limit of `generateValidLevel`. */
  const MaxAttempts := 10

  /** The share of pre-filled cells is not part of this configuration; the
      number of givens is passed to the generator directly. */
  datatype DifficultyConfig = DifficultyConfig(minCageSize: int, maxCageSize: int, difficultyRating: int)

  function Max(a: int, b: int): int
  {
    if a < b then b else a
  }

  /** `getDifficultyConfig`, with the level's position d / 99 (d = level - 1)
      kept as an exact fraction: the floors and the ceiling become integer
      divisions by 99 (a positive divisor, so `/` rounds down). */
  function GetDifficultyConfig(levelNumber: int): (config: DifficultyConfig)
    ensures 1 <= config.minCageSize <= config.maxCageSize
    ensures 1 <= levelNumber <= TotalLevels ==>
      (1 <= config.minCageSize <= 2 && 3 <= config.maxCageSize <= 5 && 1 <= config.difficultyRating <= 10)
    ensures levelNumber == 1 ==> config == DifficultyConfig(1, 3, 1)
    ensures levelNumber == TotalLevels ==> config == DifficultyConfig(2, 5, 10)
  {
    var d := levelNumber - 1;
    DifficultyConfig(Max(1, 1 + d / 99), Max(3, 3 + (2 * d) / 99), 1 + (9 * d + 98) / 99)
  }

  lemma DivMonotone(a: int, b: int)
    requires a <= b
    ensures a / 99 <= b / 99
  {
    var qa, qb := a / 99, b / 99;
    assert 99 * qa <= a < 99 * qa + 99 && 99 * qb <= b < 99 * qb + 99;
  }

  /** A higher level never has smaller cages or a lower rating. */
  lemma DifficultyMonotone(m: int, n: int)
    requires m <= n
    ensures GetDifficultyConfig(m).minCageSize <= GetDifficultyConfig(n).minCageSize
    ensures GetDifficultyConfig(m).maxCageSize <= GetDifficultyConfig(n).maxCageSize
    ensures GetDifficultyConfig(m).difficultyRating <= GetDifficultyConfig(n).difficultyRating
  {
    DivMonotone(m - 1, n - 1);
    DivMonotone(2 * (m - 1), 2 * (n - 1));
    DivMonotone(9 * (m - 1) + 98, 9 * (n - 1) + 98);
  }

  /** Every cage's stored sum is one some set of distinct digits reaches. */
  ghost predicate SumsFeasible(cages: seq<Cage>)
  {
    forall k :: 0 <= k < |cages| ==> Feasible(|cages[k].cells|, cages[k].sum)
  }

  /** `validateCages`: stops at the first cage whose sum is not feasible. */
  method ValidateCages(cages: seq<Cage>) returns (ok: bool)
    ensures ok <==> SumsFeasible(cages)
  {
    var i := 0;
    while i < |cages|
      invariant 0 <= i <= |cages|
      invariant forall k :: 0 <= k < i ==> Feasible(|cages[k].cells|, cages[k].sum)
    {
      var cageOk := ValidateCageMath(cages[i]);
      if !cageOk {
        return false;
      }
      i := i + 1;
    }
    return true;
  }

  /** A level with both grids, of the right shape. */
  ghost predicate Checkable(level: Level)
  {
    level.solution.Some? && level.initialValues.Some? && GridsShaped(level)
  }

  /** The four checks of the generator's `validateLevel` all pass. */
  ghost predicate GeneratorAccepts(level: Level)
    requires Checkable(level)
  {
    SumsFeasible(level.cages) && ValidSolution(level.solution.value) &&
    GivensAgree(level.initialValues.value, level.solution.value) && ColorsSeparated(level.cages)
  }

  /** The generator's `validateLevel`: the first failing check, in the
      order cage sums, solution, givens, colours; None when all pass. */
  method ValidateGeneratedLevel(level: Level) returns (error: Option<ErrorType>)
    requires level.solution.Some? && level.initialValues.Some? && GridsShaped(level)
    ensures error == None <==> GeneratorAccepts(level)
    ensures error == Some(InvalidCageSum) <==> !SumsFeasible(level.cages)
    ensures error == Some(InvalidSolution) <==> SumsFeasible(level.cages) && !ValidSolution(level.solution.value)
    ensures error == Some(InitialValuesMismatch) <==>
      (SumsFeasible(level.cages) && ValidSolution(level.solution.value) &&
       !GivensAgree(level.initialValues.value, level.solution.value))
    ensures error == Some(AdjacentSameColor) <==>
      (SumsFeasible(level.cages) && ValidSolution(level.solution.value) &&
       GivensAgree(level.initialValues.value, level.solution.value) && !ColorsSeparated(level.cages))
  {
    var ok := ValidateCages(level.cages);
    if !ok {
      return Some(InvalidCageSum);
    }
    ok := ValidateSudokuSolution(level.solution.value);
    if !ok {
      return Some(InvalidSolution);
    }
    ok := ValidateInitialValues(level.initialValues.value, level.solution.value);
    if !ok {
      return Some(InitialValuesMismatch);
    }
    ok := ValidateCageColors(level.cages);
    if !ok {
      return Some(AdjacentSameColor);
    }
    return None;
  }

  /** Two cage lists with the same cells, cage by cage, list the same cells. */
  lemma {:induction false} FlattenSameCells(a: seq<Cage>, b: seq<Cage>)
    requires |a| == |b| && forall k :: 0 <= k < |a| ==> a[k].cells == b[k].cells
    ensures Flatten(a) == Flatten(b)
    decreases |a|
  {
    if a != [] {
      var n := |a| - 1;
      FlattenSameCells(a[..n], b[..n]);
    }
  }

  /** A partition of the board has at least one cage. */
  lemma PartitionNonEmpty(cages: seq<Cage>)
    requires Partitions(cages)
    ensures |cages| > 0
  {
    InAllCells(Cell(0, 0));
    assert Cell(0, 0) in Elems(Flatten(cages));
    assert Flatten(cages) != [];
  }

  /** Cages that partition the board cover every board position. */
  lemma PartitionCovers(cages: seq<Cage>)
    requires Partitions(cages)
    ensures Covers(cages)
  {
    forall c | InGrid(c) ensures c in Flatten(cages) {
      InAllCells(c);
    }
  }

  /** Recolouring keeps what the cage builder guarantees about the cells. */
  lemma SameCellsFacts(cages: seq<Cage>, uncolored: seq<Cage>, solution: Grid, maxSize: int)
    requires IsGrid(solution) && Partitions(uncolored) && AllGrown(uncolored, solution, maxSize)
    requires |cages| == |uncolored| && forall k :: 0 <= k < |cages| ==>
      (cages[k].cells == uncolored[k].cells && cages[k].sum == uncolored[k].sum)
    ensures Partitions(cages) && CagesInGrid(cages) && |cages| > 0
    ensures forall k :: 0 <= k < |cages| ==>
      (1 <= |cages[k].cells| <= maxSize && Connected(cages[k].cells) && cages[k].sum == CellSum(solution, cages[k].cells))
  {
    FlattenSameCells(cages, uncolored);
    PartitionNonEmpty(cages);
    forall k | 0 <= k < |cages|
      ensures CellsInGrid(cages[k].cells) && 1 <= |cages[k].cells| <= maxSize && Connected(cages[k].cells)
    {
      assert Grown(uncolored[k], solution, maxSize);
    }
  }
  /** What the generator guarantees about a level it returns, beyond the
      validator's checks: the cages are connected shapes of at most
      `maxSize` cells that partition the board, each summing the solution
      and painted in one of the four generator colours. */
  ghost predicate Generated(level: Level, maxSize: int)
  {
    level.solution.Some? && IsGrid(level.solution.value) && Partitions(level.cages) && CagesInGrid(level.cages) &&
    forall k :: 0 <= k < |level.cages| ==>
      (1 <= |level.cages[k].cells| <= maxSize && Connected(level.cages[k].cells) &&
       level.cages[k].sum == CellSum(level.solution.value, level.cages[k].cells) &&
       level.cages[k].color in OptimalColors)
  }

  /** What one attempt built: nothing when the solution fill failed,
      otherwise a checkable level with the number, the rating and the
      generator's shape. */
  ghost predicate AttemptBuilt(built: Option<Level>, levelNumber: int)
  {
    built.Some? ==>
      (Checkable(built.value) && built.value.levelNumber == levelNumber &&
       built.value.difficultyRating == GetDifficultyConfig(levelNumber).difficultyRating &&
       Generated(built.value, GetDifficultyConfig(levelNumber).maxCageSize))
  }

  /** An attempt is rejected when its fill failed or the generator's
      `validateLevel` finds an error in what it built. */
  ghost predicate Rejected(built: Option<Level>, levelNumber: int)
    requires AttemptBuilt(built, levelNumber)
  {
    built.None? || !GeneratorAccepts(built.value)
  }

  /** One attempt of `generateValidLevel`: solution, cages, colours, givens
      and the generator's validation. The ghost `built` is the level built
      before validation; the attempt returns it exactly when validation
      passes. */
  method Attempt(levelNumber: int, prefilledCount: nat) returns (r: Option<Level>, ghost built: Option<Level>)
    ensures AttemptBuilt(built, levelNumber)
    ensures r.None? <==> Rejected(built, levelNumber)
    ensures r.Some? ==> built == r
    ensures r.Some? ==> r.value.levelNumber == levelNumber
    ensures r.Some? ==> r.value.difficultyRating == GetDifficultyConfig(levelNumber).difficultyRating
    ensures r.Some? ==> GridsShaped(r.value) && LevelSound(r.value)
    ensures r.Some? ==> Generated(r.value, GetDifficultyConfig(levelNumber).maxCageSize)
  {
    var solution := GenerateSolution();
    if solution.None? {
      return None, None;
    }
    var config := GetDifficultyConfig(levelNumber);
    var cages := GenerateRandomCages(solution.value, config.minCageSize, config.maxCageSize);
    var colored := AssignOptimalColors(cages);
    SameCellsFacts(colored, cages, solution.value, config.maxCageSize);
    var initialValues, fullIdx, shown := CreatePrefilledCells(solution.value, prefilledCount, config.difficultyRating, colored);
    var level := Level("", levelNumber, config.difficultyRating, colored, Some(initialValues), Some(solution.value));
    built := Some(level);
    var error := ValidateGeneratedLevel(level);
    if error.Some? {
      return None, built;
    }
    PartitionCovers(colored);
    OptimalColorsFacts();
    assert forall k :: 0 <= k < |colored| ==> colored[k].color in ValidColors;
    return Some(level), built;
  }

  /** `generateValidLevel`: at most `MaxAttempts` attempts; a returned level
      passes every check of the level validator and has the generator's
      shape. The ghost `tries` holds what each attempt built: every attempt
      before the last was rejected, the last one is returned on success,
      and failure comes only after `MaxAttempts` rejected attempts. An
      attempt whose solution fill fails counts as rejected. */
  method GenerateValidLevel(levelNumber: int, prefilledCount: nat) returns (r: Result<Level, nat>, ghost tries: seq<Option<Level>>)
    ensures 1 <= |tries| <= MaxAttempts
    ensures forall t :: 0 <= t < |tries| ==> AttemptBuilt(tries[t], levelNumber)
    ensures forall t :: 0 <= t < |tries| - 1 ==> Rejected(tries[t], levelNumber)
    ensures r.Success? ==> tries[|tries| - 1] == Some(r.value) && !Rejected(tries[|tries| - 1], levelNumber)
    ensures r.Failure? ==> r.error == MaxAttempts && |tries| == MaxAttempts && Rejected(tries[|tries| - 1], levelNumber)
    ensures r.Success? ==> r.value.levelNumber == levelNumber
    ensures r.Success? ==> r.value.difficultyRating == GetDifficultyConfig(levelNumber).difficultyRating
    ensures r.Success? ==> GridsShaped(r.value) && LevelSound(r.value)
    ensures r.Success? ==> Generated(r.value, GetDifficultyConfig(levelNumber).maxCageSize)
  {
    tries := [];
    var attempts := 0;
    while attempts < MaxAttempts
      invariant 0 <= attempts <= MaxAttempts && |tries| == attempts
      invariant forall t :: 0 <= t < |tries| ==> AttemptBuilt(tries[t], levelNumber)
      invariant forall t :: 0 <= t < |tries| ==> Rejected(tries[t], levelNumber)
    {
      attempts := attempts + 1;
      var level, built := Attempt(levelNumber, prefilledCount);
      tries := tries + [built];
      if level.Some? {
        return Success(level.value), tries;
      }
    }
    return Failure(MaxAttempts), tries;
  }
}
