# Killer Sudoku engine — a verified model

This project models the puzzle engine of a Killer Sudoku game in Dafny:

- the rule checks the game runs while a player fills the board;
- the level validator, which judges a stored level;
- the level generator, which builds the game's hundred levels;
- the older generator it replaced.

A level is a 9x9 board divided into cages. Each cage is a set of cells with a target sum. A level also carries a full solution grid, the givens shown at the start (0 marks an empty cell), and one display colour per cage.

The modules follow the source files:

| module | file | models |
|---|---|---|
| `KillerTypes` | killer_types.dfy | cells, cages, grids and levels; the flattened cell list of a cage collection; counting facts |
| `Sudoku` | sudoku.dfy | rows, columns and blocks; what a valid solution is; the per-cell form of the rules |
| `GameLogic` | game_logic.dfy | `src/services/gameLogicService.ts`: the in-game rule checks |
| `CageSums` | cage_sums.dfy | `getPossibleSums` and `validateCageMath`, which the validator and the generator share |
| `LevelValidator` | level_validator.dfy | `src/utils/levelValidator.ts`: the seven checks of `validateLevel` and the error list they build |
| `CagePartitioner` | cage_partitioner.dfy | `generateRandomCages` of `src/utils/levelGenerator.js` |
| `CageColoring` | cage_coloring.dfy | `assignOptimalColors`: the adjacency graph, degree order, backtracking four-colouring and greedy fallback |
| `Prefill` | prefill.dfy | `createPrefilledCells`: one cage revealed in full on easy levels, then random single givens |
| `SolutionGenerator` | solution_generator.dfy | `generateSolution`: backtracking fill of a 9x9 array |
| `LevelGenerator` | level_generator.dfy | `getDifficultyConfig`, the generator's own `validateLevel`, and `generateValidLevel` |
| `LegacyGenerator` | legacy_generator.dfy | `dist/utils/levelGenerator.js`: the level-1 template, the fixed solution pattern, the older random cage builder, the older colour fallback, `createTemplatedLevel` |

Code that works in place is modelled in place:

- grids the generators write are `array2<int>`;
- the colour assignment is an `array<int>`;
- the scanning loops are `while` loops with invariants.

Grids the source only reads are sequences. `isCellValid` copies the board into `tempValues` and writes the candidate into the copy; the model states that as the value update `SetCell` on a sequence grid. Random choices (`getRandomInt`, `sort(() => Math.random() - 0.5)`) are nondeterministic picks (`:|`), so every property is proved for every outcome of the random source.

`dist/services/gameLogicService.js` and `dist/utils/levelValidator.js` are compiled copies of `src/services/gameLogicService.ts` and `src/utils/levelValidator.ts`; `GameLogic` and `LevelValidator` model both.

The generators check some things twice: `validateSudokuSolution`, `validateCageColors` and `validateInitialValues` of `src/utils/levelGenerator.js` do the same as their namesakes in `src/utils/levelValidator.ts`. Both are modelled by the one validator member.

## Model

| member | source | states |
|---|---|---|
| Sudoku.PermutationIffDistinctDigits | src/utils/levelValidator.ts:184-187 | nine entries are a permutation of 1..9 exactly when each lies in 1..9 and none repeats |
| Sudoku.ValidSolutionCell | src/utils/levelValidator.ts:155-181 | in a valid solution every cell holds a digit that clashes with no other cell of its row, column or block |
| Sudoku.ValidSolutionIffConsistent | src/utils/levelValidator.ts:155-181 | the row/column/block form of a valid solution is equivalent to the per-cell form that `isBoardComplete` checks (every cell a digit, no clash) |
| GameLogic.IsCellValidForSudokuRules | src/services/gameLogicService.ts:7-38 | true exactly when no other cell of the row, the column or the 3x3 block holds the value |
| GameLogic.NonZeroDistinct | src/services/gameLogicService.ts:41-50 | the nonzero values repeat nothing exactly when no two filled cells share a value |
| GameLogic.HasDuplicatesInCage | src/services/gameLogicService.ts:41-50 | true exactly when two filled cells of the cage hold the same value; empty cells are ignored |
| GameLogic.SumNonZero | src/services/gameLogicService.ts:53-61 | dropping empty cells does not change the cage total |
| GameLogic.CalculateCageSum | src/services/gameLogicService.ts:53-61 | the sum of the filled values of the cage's cells |
| GameLogic.IsCageFilled | src/services/gameLogicService.ts:64-69 | true exactly when no cell of the cage is empty |
| GameLogic.IsCageComplete | src/services/gameLogicService.ts:72-87 | true exactly when the cage is filled, its values add up to its sum, and no value repeats |
| GameLogic.GetCageForCell | src/services/gameLogicService.ts:124-132 | None exactly when no cage lists the cell; otherwise the first cage in list order that lists it |
| GameLogic.FoundCageInGrid | src/services/gameLogicService.ts:124-132 | the cage found for a cell lies on the board when all cages do |
| GameLogic.AreCellsInSameCage | src/services/gameLogicService.ts:187-197 | a true answer means some cage holds both cells |
| GameLogic.SameCageIffSharedCage | src/services/gameLogicService.ts:187-197 | when no cell is listed twice, the answer is true exactly when some cage holds both cells |
| GameLogic.IsCellValid | src/services/gameLogicService.ts:90-121 | true exactly when the value breaks no Sudoku rule at the cell, and with the value placed the cell's cage repeats no nonzero value and, if full, meets its sum |
| GameLogic.CageDuplicateBlocksEveryValue | src/services/gameLogicService.ts:90-121 | a repeated value elsewhere in the cell's cage rejects every candidate for the cell |
| GameLogic.SolvedBoardAcceptsItsValues | src/services/gameLogicService.ts:90-121 | on a solved board whose cages are all complete, each cell's own value is accepted |
| GameLogic.GetPossibleValues | src/services/gameLogicService.ts:168-184 | exactly the digits 1..9 that `isCellValid` accepts at the cell, in increasing order |
| GameLogic.IsBoardComplete | src/services/gameLogicService.ts:135-165 | true exactly when every cell is filled, no cell clashes under the Sudoku rules, and every cage is complete |
| GameLogic.BoardCompleteIsSolution | src/services/gameLogicService.ts:135-165 | for a board of digits and blanks, a complete board is exactly a valid Sudoku solution whose cages are all complete |
| CageSums.CombosSound | src/utils/levelValidator.ts:63-71 | every total the combination search collects is reached by some increasing pick of the remaining digits |
| CageSums.CombosComplete | src/utils/levelValidator.ts:63-71 | every increasing pick of the remaining digits yields a total the search collects |
| CageSums.GenerateCombinations | src/utils/levelValidator.ts:63-71 | adds to the collected sums exactly the totals of the increasing picks of `targetSize` digits above `start` |
| CageSums.CombosAreFeasible | src/utils/levelValidator.ts:59-75 | the totals collected from the start are exactly the sums of `k` distinct digits 1..9 |
| CageSums.GetPossibleSums | src/utils/levelValidator.ts:59-75 | a sum is listed exactly when `size` distinct digits from 1..9 add up to it |
| CageSums.ValidateCageMath | src/utils/levelValidator.ts:78-81 | true exactly when the cage's sum is reached by as many distinct digits as the cage has cells |
| CageSums.SingleCellSums | src/utils/levelValidator.ts:59-75 | a one-cell cage may have sum 1..9 and nothing else |
| CageSums.EmptyCageSums | src/utils/levelValidator.ts:59-75 | a cage without cells passes only with sum 0 |
| CageSums.OversizedCageInfeasible | src/utils/levelValidator.ts:59-75 | a cage of more than nine cells has no feasible sum |
| CageSums.TwoCellSums | src/utils/levelValidator.ts:59-75 | a two-cell cage may have sum 3..17 and nothing else |
| CageSums.TwoCellSumFourPasses | src/utils/levelValidator.ts:78-81 | a two-cell cage with sum 4 passes the check whatever values the solution holds |
| CageSums.PicksGrow | src/utils/levelValidator.ts:63-71 | the i-th picked digit lies between start+1+i and 9-(remaining picks), which bounds the search |
| LevelValidator.AreAdjacentCells | src/utils/levelValidator.ts:52-56 | true exactly when the cells differ by one step in row or column and agree in the other |
| LevelValidator.AdjacentCellsSymmetricIrreflexive | src/utils/levelValidator.ts:52-56 | adjacency is symmetric and no cell touches itself |
| LevelValidator.AreCagesAdjacent | src/utils/levelValidator.ts:40-49 | true exactly when some cell of one cage touches some cell of the other |
| LevelValidator.CagesAdjacentSymmetric | src/utils/levelValidator.ts:40-49 | cage adjacency is symmetric |
| LevelValidator.ValidateNoOverlappingCages | src/utils/levelValidator.ts:84-98 | true exactly when no cell is listed twice across all cages |
| LevelValidator.RecordCell | src/utils/levelValidator.ts:110-126 | one step of the overlap scan: the map entry of the cell becomes the current cage's id; when the cell was mapped, the new record is the cell with [id it was mapped to, current id], otherwise no record is added; the state stays that of the listing read so far |
| LevelValidator.FindOverlappingCages | src/utils/levelValidator.ts:101-133 | the records are exactly `OverlapRecords` of the flattened listing and its owners (one per listing that repeats an earlier one, in listing order, naming the last earlier claimer and the current cage); the ids are those records' ids in the order the scan adds them; as many records as listings minus distinct cells; empty exactly when nothing repeats; each record names two cages that really list the cell |
| LevelValidator.Owners | src/utils/levelValidator.ts:109-110 | one cage id per entry of the flattened listing, the id of the cage whose `cells` the entry comes from |
| LevelValidator.OwnersOwn | src/utils/levelValidator.ts:109-110 | every entry's id belongs to a cage that lists that entry's position |
| LevelValidator.LastOwner | src/utils/levelValidator.ts:112-125 | the id beside a listing of the position after which the position is not listed again, which is what the map holds after `cellMap.set` |
| LevelValidator.OverlapRecordAt | src/utils/levelValidator.ts:112-124 | the t-th record belongs to a listing q that repeats an earlier listing, with exactly t repeating listings before q, and names the last claimer before q then the cage of q |
| LevelValidator.OverlapIds | src/utils/levelValidator.ts:113-116 | the id list holds no id twice |
| LevelValidator.ValidateAllCellsCovered | src/utils/levelValidator.ts:136-152 | true exactly when every board cell lies in some cage |
| LevelValidator.ValidSetMeaning | src/utils/levelValidator.ts:184-187 | nine distinct values, all in 1..9, are exactly the set {1..9}; for nine entries this is being a permutation of 1..9 |
| LevelValidator.IsValidSet | src/utils/levelValidator.ts:184-187 | true exactly when the entries form the set {1..9}; for nine entries, exactly when they are a permutation of 1..9 |
| LevelValidator.RowsAreSets | src/utils/levelValidator.ts:157-159 | true exactly when every row is a permutation of 1..9 |
| LevelValidator.ColumnsAreSets | src/utils/levelValidator.ts:162-165 | true exactly when every column is a permutation of 1..9 |
| LevelValidator.CollectBlock | src/utils/levelValidator.ts:168-176 | the nine values of the block at the given corner, row by row |
| LevelValidator.CheckBlock | src/utils/levelValidator.ts:168-178 | true exactly when the block at the corner is a permutation of 1..9 |
| LevelValidator.BlocksAreSets | src/utils/levelValidator.ts:168-178 | true exactly when all nine blocks are permutations of 1..9 |
| LevelValidator.ValidSolutionParts | src/utils/levelValidator.ts:155-181 | a valid solution is exactly rows, columns and blocks each being a permutation of 1..9 |
| LevelValidator.ValidateSudokuSolution | src/utils/levelValidator.ts:155-181 | true exactly when the grid is a valid Sudoku solution |
| LevelValidator.ValidateCageColors | src/utils/levelValidator.ts:190-199 | true exactly when no two touching cages share a colour |
| LevelValidator.ReportsAreClashes | src/utils/levelValidator.ts:202-218 | every reported conflict names two touching cages of the same colour, with that colour |
| LevelValidator.ScanDone | src/utils/levelValidator.ts:202-218 | once the pair scan is over, every clashing pair has been reported, and the report is empty exactly when the colours separate touching cages |
| LevelValidator.FindAdjacentSameColorCages | src/utils/levelValidator.ts:202-218 | reports each clashing pair (i < j) once, in scan order, so the list is exactly `AllClashes`; the list is empty exactly when no touching cages share a colour |
| LevelValidator.ValidateInitialValues | src/utils/levelValidator.ts:221-230 | true exactly when every nonzero given equals the solution's value |
| LevelValidator.CageSumErrors | src/utils/levelValidator.ts:236-246 | one INVALID_CAGE_SUM per cage with an infeasible sum; the t-th error carries the cage at the t-th ascending infeasible index |
| LevelValidator.OverlapErrors | src/utils/levelValidator.ts:248-257 | one OVERLAPPING_CAGES error when a cell is listed twice, carrying the repeat records; none otherwise |
| LevelValidator.CoverageErrors | src/utils/levelValidator.ts:259-266 | one UNCOVERED_CELLS error when some board cell lies in no cage |
| LevelValidator.SolutionErrors | src/utils/levelValidator.ts:268-281 | MISSING_SOLUTION without a solution, INVALID_SOLUTION for an invalid one, nothing otherwise |
| LevelValidator.GivensErrors | src/utils/levelValidator.ts:283-296 | MISSING_INITIAL_VALUES without givens; INITIAL_VALUES_MISMATCH only when a solution is present and a given differs from it |
| LevelValidator.ScanRow | src/utils/levelValidator.ts:206-214 | after one row of the scan, every clash of that row is reported in order and the reports so far are exactly the clashes of the rows scanned |
| LevelValidator.AdjacencyErrors | src/utils/levelValidator.ts:298-307 | one ADJACENT_SAME_COLOR error when touching cages share a colour, carrying the first five clash reports in scan order (all of them when there are fewer) |
| LevelValidator.PaletteErrors | src/utils/levelValidator.ts:309-319 | one INVALID_COLOR per cage whose colour is outside the nine-colour palette; the t-th error carries the cage at the t-th ascending off-palette index |
| LevelValidator.InfeasibleIndicesExact | src/utils/levelValidator.ts:236-246 | the indices of the cages check 1 reports are ascending and are exactly the cages with an infeasible sum |
| LevelValidator.OffPaletteIndicesExact | src/utils/levelValidator.ts:309-319 | the indices of the cages check 7 reports are ascending and are exactly the cages whose colour is off the palette |
| LevelValidator.ValidateLevel | src/utils/levelValidator.ts:233-326 | the error kinds are exactly those of the seven checks in order, each error's details fit its kind (the overlap error carrying exactly the scan's records and ids, the colour-clash error the first five clashes in scan order), the leading errors carry the infeasible cages and the trailing errors the off-palette cages in cage order, and the level is valid exactly when it meets all seven requirements |
| LevelValidator.ExpectedKindsEmptyIffSound | src/utils/levelValidator.ts:233-326 | no check fires exactly when the level meets all seven requirements |
| LevelValidator.CageSumKindsCount | src/utils/levelValidator.ts:236-246 | check 1 yields only INVALID_CAGE_SUM, as many as there are infeasible cages, and none exactly when every cage is feasible |
| LevelValidator.ColorKindsCount | src/utils/levelValidator.ts:309-319 | check 7 yields only INVALID_COLOR, as many as there are off-palette cages, and none exactly when every colour is in the palette |
| LevelValidator.ErrorCounts | src/utils/levelValidator.ts:233-326 | per kind: one error per bad cage for sums and colours; at most one each for overlap, coverage and adjacency; at most one of the two solution kinds and at most one of the two givens kinds; a mismatch only when both grids are present |
| LevelValidator.SoundLevelPartitions | src/utils/levelValidator.ts:233-326 | a level that passes, with all cage cells on the board, has cages that partition the 81 cells |
| CagePartitioner.Around | src/utils/levelGenerator.js:166-171 | the four candidate cells are exactly the orthogonal neighbours of the cell |
| CagePartitioner.CollectNeighbors | src/utils/levelGenerator.js:165-180 | lists exactly the free board cells that touch some cell of the cage so far |
| CagePartitioner.ScanReaches | src/utils/levelGenerator.js:141-152 | the wrapped scan from a random start visits every board cell |
| CagePartitioner.FindFreeStart | src/utils/levelGenerator.js:139-155 | finds a free board cell exactly when one exists |
| CagePartitioner.GrowCage | src/utils/levelGenerator.js:157-188 | grows from the start cell to at most the drawn size; the cells are distinct, free, on the board and connected; it stops early only when no free neighbour is left |
| CagePartitioner.AddCage | src/utils/levelGenerator.js:157-197 | adding a grown cage keeps the used set equal to the cells listed so far, with none listed twice |
| CagePartitioner.GenerateRandomCages | src/utils/levelGenerator.js:129-201 | the cages partition the 81 cells; each is 1..maxCageSize connected cells whose sum is the solution's total over them |
| CageColoring.BuildAdjacency | src/utils/levelGenerator.js:226-233 | entry i lists exactly the other cages that touch cage i, once each |
| CageColoring.AdjacencyIsGraph | src/utils/levelGenerator.js:226-233 | the adjacency lists form a symmetric graph without self-loops |
| CageColoring.Insert | src/utils/levelGenerator.js:236-237 | inserting into the order adds the index once and keeps the others |
| CageColoring.InsertOrdered | src/utils/levelGenerator.js:236-237 | insertion keeps cages sorted by decreasing number of neighbours, ties by index |
| CageColoring.SortByDegreeOrdered | src/utils/levelGenerator.js:236-237 | the sorted order is by decreasing number of neighbours |
| CageColoring.OrderByDegree | src/utils/levelGenerator.js:236-237 | every cage index once, by decreasing number of neighbours |
| CageColoring.UsedColors | src/utils/levelGenerator.js:247-254 | exactly the colours already given to the cage's neighbours |
| CageColoring.PlaceKeepsProper | src/utils/levelGenerator.js:257-263 | a colour no neighbour uses keeps the partial colouring proper |
| CageColoring.ColorTaken | src/utils/levelGenerator.js:257-263 | a colour a neighbour already uses leads to no proper full colouring |
| CageColoring.ColorGraph | src/utils/levelGenerator.js:243-266 | on success every cage has a colour 0..3, touching cages differ, and earlier choices stay; on failure the array is unchanged and no proper four-colouring extends it |
| CageColoring.TryColor | src/utils/levelGenerator.js:257-263 | tries one colour for the current cage; on failure the array is unchanged and no proper colouring extends the assignment with that colour |
| CageColoring.GreedyColors | src/utils/levelGenerator.js:272-291 | the fallback gives every cage a colour 0..3 |
| CageColoring.ProperIffSeparated | src/utils/levelGenerator.js:222-298 | a colouring is proper on the adjacency graph exactly when touching cages get different colours |
| CageColoring.Paint | src/utils/levelGenerator.js:294-297 | each cage keeps its id, cells and sum and takes the colour its index was given |
| CageColoring.PaintSeparated | src/utils/levelGenerator.js:294-297 | the painted cages separate touching cages exactly when the index colouring does |
| CageColoring.AssignOptimalColors | src/utils/levelGenerator.js:222-298 | keeps every cage's id, cells and sum and gives it one of the four generator colours; touching cages differ exactly when the cages can be four-coloured at all |
| Prefill.UniqueOwners | src/utils/levelGenerator.js:341-345 | when no cell is listed twice, a cell belongs to one cage only |
| Prefill.RevealCage | src/utils/levelGenerator.js:318-325 | copies the solution's values into every cell of the chosen cage and nothing else |
| Prefill.RevealAttempts | src/utils/levelGenerator.js:328-359 | the random attempts reveal only solution values, only in cages of two or more cells other than the chosen one, and never more givens than the budget |
| Prefill.CreatePrefilledCells | src/utils/levelGenerator.js:301-362 | every given is the solution's value; on ratings up to 3 the chosen cage is shown in full; above 3 it stays empty; one-cell cages get no given; at most the wanted count, or the chosen cage's size if larger |
| SolutionGenerator.AbsentIsNoConflict | src/utils/levelGenerator.js:66-78 | on an empty cell, `isValid` agrees with the game's Sudoku rule check |
| SolutionGenerator.IsValid | src/utils/levelGenerator.js:66-78 | true exactly when the number is absent from the row, the column and the block |
| SolutionGenerator.PlaceKeepsConsistent | src/utils/levelGenerator.js:90-93 | placing an absent digit keeps the board free of clashes |
| SolutionGenerator.PlaceStep | src/utils/levelGenerator.js:90-93 | placing an absent digit at the next cell extends the filled row-major prefix |
| SolutionGenerator.FullIsSolution | src/utils/levelGenerator.js:80-85 | a board filled through cell 81 without clashes is a valid solution |
| SolutionGenerator.FillGrid | src/utils/levelGenerator.js:80-98 | on success the board is a valid solution and the cells before the start are untouched; on failure the board is unchanged |
| SolutionGenerator.TryDigit | src/utils/levelGenerator.js:91-95 | places one digit and recurses; on success a valid solution, on failure the board is restored |
| SolutionGenerator.GenerateSolution | src/utils/levelGenerator.js:63-101 | any board returned is a valid Sudoku solution |
| LevelGenerator.GetDifficultyConfig | src/utils/levelGenerator.js:31-60 | cage sizes 1..2 up to 3..5 and rating 1..10 over levels 1..100; level 1 gets (1, 3, 1) and level 100 gets (2, 5, 10) |
| LevelGenerator.DifficultyMonotone | src/utils/levelGenerator.js:31-60 | a higher level never gets smaller cages or a lower rating |
| LevelGenerator.ValidateCages | src/utils/levelGenerator.js:365-373 | true exactly when every cage's sum is feasible |
| LevelGenerator.ValidateGeneratedLevel | src/utils/levelGenerator.js:435-457 | reports the first failing check in the order sums, solution, givens, colours; no error exactly when all four hold |
| LevelGenerator.FlattenSameCells | src/utils/levelGenerator.js:294-297 | recolouring leaves the flattened cell list unchanged |
| LevelGenerator.PartitionCovers | src/utils/levelValidator.ts:136-152 | cages that partition the board pass the coverage check |
| LevelGenerator.SameCellsFacts | src/utils/levelGenerator.js:471-474 | after recolouring the cages still partition the board and keep their sizes, shapes and sums |
| LevelGenerator.Attempt | src/utils/levelGenerator.js:465-519 | the attempt builds a level with the asked number, its rating and the generator's shape (or nothing when the fill fails), and returns it exactly when the generator's `validateLevel` accepts it; a returned level passes every check of the level validator |
| LevelGenerator.GenerateValidLevel | src/utils/levelGenerator.js:460-523 | at most ten attempts; every attempt before the last was rejected; on success the last attempt's level is returned and passes every validator check with the generator's shape; failure comes only after ten rejected attempts |
| LegacyGenerator.FlattenOutline | dist/utils/levelGenerator.js:175-187 | the cages built from a template list exactly the template's cells in order |
| LegacyGenerator.Level1TemplateLength | dist/utils/levelGenerator.js:228-287 | the corrected level-1 template lists 81 cells |
| LegacyGenerator.Level1TemplateCovers | dist/utils/levelGenerator.js:228-287 | the corrected level-1 template lists every board cell |
| LegacyGenerator.Level1TemplatePartitions | dist/utils/levelGenerator.js:228-287 | the corrected level-1 template partitions the board |
| LegacyGenerator.CoveringListPartitions | dist/utils/levelGenerator.js:228-287 | 81 board cells that cover the board repeat nothing and make up the whole board |
| LegacyGenerator.Level1TemplateAsWrittenOverlaps | dist/utils/levelGenerator.js:234 | the level-1 template as written lists cell (0,7) twice |
| LegacyGenerator.Level1TemplateAsWrittenUnsound | dist/utils/levelGenerator.js:228-287 | any level built on the template as written fails the validator |
| LegacyGenerator.BasePatternFormula | dist/utils/levelGenerator.js:360-370 | the hard-coded pattern is the shifted-row formula ((3(i mod 3) + i div 3 + j) mod 9) + 1 |
| LegacyGenerator.PatternRowDistinct | dist/utils/levelGenerator.js:360-370 | the formula puts distinct values in a row |
| LegacyGenerator.PatternColumnDistinct | dist/utils/levelGenerator.js:360-370 | the formula puts distinct values in a column |
| LegacyGenerator.PatternBlockDistinct | dist/utils/levelGenerator.js:360-370 | the formula puts distinct values in a block |
| LegacyGenerator.PatternIsSolution | dist/utils/levelGenerator.js:360-370 | a board following the formula is a valid solution |
| LegacyGenerator.BasePatternIsSolution | dist/utils/levelGenerator.js:360-370 | the hard-coded pattern is a valid Sudoku solution |
| LegacyGenerator.GenerateFixedSolution | dist/utils/levelGenerator.js:357-378 | returns the pattern, a valid solution |
| LegacyGenerator.Level1GivensAgree | dist/utils/levelGenerator.js:297-309 | every hard-coded level-1 given equals the fixed solution's value |
| LegacyGenerator.CageSum | dist/utils/levelGenerator.js:177-180 | the solution's total over the cells |
| LegacyGenerator.FirstFree | dist/utils/levelGenerator.js:474-485 | finds a free board cell exactly when one exists, and the first one in row-major order |
| LegacyGenerator.IsCageValid | dist/utils/levelGenerator.js:82-92 | true exactly when none of the cage's cells is used |
| LegacyGenerator.MarkUsed | dist/utils/levelGenerator.js:462-464 | adds exactly the cage's cells to the used set |
| LegacyGenerator.SystematicStart | dist/utils/levelGenerator.js:524-537 | the start is free exactly when some cell is; a replaced start is the first free cell in row-major order; with a free cell in row 0 the start is the first free cell of row 0; with row 0 full a free tenth pick is kept |
| LegacyGenerator.GenerateRandomCage | dist/utils/levelGenerator.js:505-618 | null exactly when the board is full; otherwise 1..min(maxCageSize, 3) distinct, free, connected cells with the solution's sum |
| LegacyGenerator.AcceptCage | dist/utils/levelGenerator.js:459-466 | appends the cage and marks its cells; the cages still list the used cells exactly once, and the used set grows |
| LegacyGenerator.GenerateRandomCagesLegacy | dist/utils/levelGenerator.js:437-503 | the cages partition the board; each is 1..min(maxCageSize, 3) connected cells with the solution's sum |
| LegacyGenerator.LegacyGreedyColors | dist/utils/levelGenerator.js:142-164 | the older fallback gives every cage a colour 0..3 |
| LegacyGenerator.LegacyAssignOptimalColors | dist/utils/levelGenerator.js:94-171 | keeps every cage's id, cells and sum and gives it one of the four colours; touching cages differ exactly when the cages can be four-coloured |
| LegacyGenerator.FourColorableSameCells | dist/utils/levelGenerator.js:94-171 | whether cages can be four-coloured depends on their cells only |
| LegacyGenerator.CreatePrefilledCellsLegacy | dist/utils/levelGenerator.js:289-355 | rating 1 gets the hard-coded level-1 givens; any other rating gets givens that agree with the solution |
| LegacyGenerator.RatingOneIsLevelOne | dist/utils/levelGenerator.js:41-67 | among levels 1..100 only level 1 has rating 1 |
| LegacyGenerator.TemplateSums | dist/utils/levelGenerator.js:175-187 | one cage per template entry with its cells and the solution's total over them |
| LegacyGenerator.CreateLevelFromTemplate | dist/utils/levelGenerator.js:173-226 | the level carries the template's cells with their sums, four-colour colours that separate touching cages when possible, and givens as `createPrefilledCells` makes them |
| LegacyGenerator.TemplateLevelOne | dist/utils/levelGenerator.js:390-392 | level 1 has the corrected template's cages, the hard-coded givens, and every property of a built level |
| LegacyGenerator.RandomCageLevel | dist/utils/levelGenerator.js:393-434 | any other level has random cages of one to three connected cells that partition the board, with generator colours and givens that agree with the solution |
| LegacyGenerator.CreateTemplatedLevel | dist/utils/levelGenerator.js:387-435 | every level is built on the fixed valid solution, its cages partition the board and sum the solution, and its givens agree with it; level 1 uses the corrected template and the hard-coded givens |

## Left out

- Display text is not modelled: level names, themes, descriptions, authors, timestamps, ids from `generateId`, and the messages of validation errors. Generated levels carry the empty id.
- `prefilledCellsPercent` is not modelled. It is float arithmetic rounded to one decimal. The number of givens it yields enters as the parameter `prefilledCount`.
- LevelGenerator.GetDifficultyConfig: uses exact integer arithmetic on the level's position d/99 where the source uses floating point. Floating-point rounding is not modelled.
- File and console I/O is not modelled: `validateAllLevels`, `generateAllLevels`, the `require.main` entry point, and `console.log`/`console.warn`.
- The game's UI, storage, statistics, hooks and the puzzle generator service are not part of this model.
- Randomness is not modelled as a distribution. Each call to `getRandomInt` and each random shuffle is an arbitrary choice, so nothing is claimed about how likely an outcome is.
- The invalid-cage-sum check tests feasibility only, as the code does. A two-cell cage with sum 4 passes even when the solution holds 1 and 2 in it (`CageSums.TwoCellSumFourPasses`). The model follows the code.
- LevelValidator.ValidateLevel: requires that a present solution or given grid is 9x9. `ValidateSudokuSolution` and `ValidateInitialValues` require the same. The source would read `undefined` from a ragged grid, and such a grid is not modelled.
- LevelValidator.BlocksAreSets: the block check is stated through a per-block predicate. `ValidSolutionParts` ties that predicate to the row, column and block definition of a valid solution.
- SolutionGenerator.GenerateSolution: when the fill fails, the source calls `generateSolution` again without bound. The model returns None instead, and `LevelGenerator.GenerateValidLevel` counts that attempt as failed. The model does not prove that the fill always succeeds.
- CageColoring.GreedyColors: states only that every cage gets one of the four colours. The fallback runs only when the backtracking search fails, and `ColorGraph` proves that happens only when no four-colouring exists. That cage maps are always four-colourable is not proved.
- LegacyGenerator.LegacyGreedyColors: states only that every cage gets one of the four colours, for the same reason.
- Prefill.CreatePrefilledCells: requires at least one cage and no empty cage. The source indexes `cages[getRandomInt(0, -1)]` and would throw on an empty cage list.
- Prefill.CreatePrefilledCells: `cagesWithPrefilled` is written but never read, so it is left out.
- LegacyGenerator.CreatePrefilledCellsLegacy: for ratings other than 1 it states only that the givens agree with the solution. The detailed guarantees are those of `Prefill.CreatePrefilledCells`, which it calls.
- LegacyGenerator.CreateTemplatedLevel: requires a level number in 1..100, the range `generateAllLevels` uses. Level 1 is built on the corrected template; see Findings.
- The systematic fallback of `generateRandomCage` in dist/utils/levelGenerator.js (lines 588-606) cannot run: the loop always pushes a start cell before it breaks. The model has no such branch.
- `level2Template` in dist/utils/levelGenerator.js is empty and never used.
- The older generator's `getDifficultyConfig` and `areCagesAdjacent` are the same as the newer ones. The model uses `LevelGenerator.GetDifficultyConfig` and `LevelValidator.AreCagesAdjacent` for both.

## Findings

| source | as written | input that shows it | evidently intended | confidence | as-written member | corrected member |
|---|---|---|---|---|---|---|
| dist/utils/levelGenerator.js:234 | the level-1 template has a one-cell cage {(0,7)}, and the cage at line 241 lists (0,7) as well, so 56 cages list 82 cells | `createTemplatedLevel(1)`: the level it builds reports OVERLAPPING_CAGES | 55 cages that partition the 81 cells, (0,7) belonging only to the cage with (1,7) | not executed | LegacyGenerator.Level1TemplateAsWrittenOverlaps | LegacyGenerator.Level1TemplatePartitions |
