/** The level validator: seven checks run in a fixed order over one level,
    each failing check appending an error of its kind. The level is valid
    exactly when no error was appended. */
module LevelValidator {
  import opened KillerTypes
  import opened Sudoku
  import opened CageSums

  /** The colour tokens a level may use. */
  const ValidColors: seq<string> := [
    "pink.100", "blue.100", "green.100", "yellow.100", "orange.100",
    "purple.100", "teal.100", "cyan.100", "gray.100"]

  datatype ErrorType =
    | InvalidCageSum
    | OverlappingCages
    | UncoveredCells
    | MissingSolution
    | InvalidSolution
    | MissingInitialValues
    | InitialValuesMismatch
    | AdjacentSameColor
    | InvalidColor

  /** A position listed again after an earlier cage listed it, with the id
      that last claimed it and the id claiming it now. */
  datatype Overlap = Overlap(row: int, col: int, cageIds: seq<string>)

  datatype Conflict = Conflict(cage1: string, cage2: string, color: string)

  datatype Details =
    | NoDetails
    | CageDetails(cage: Cage)
    | OverlapDetails(overlappingIds: seq<string>, overlappingCoordinates: seq<Overlap>)
    | ConflictDetails(conflicts: seq<Conflict>)

  datatype ValidationError = ValidationError(levelId: string, errorType: ErrorType, details: Details)

  datatype ValidationResult = ValidationResult(levelId: string, valid: bool, errors: seq<ValidationError>)

  function Abs(x: int): nat
  {
    if x < 0 then -x else x
  }

  /** Orthogonal neighbours: the two positions are at distance 1. */
  function AreAdjacentCells(a: Cell, b: Cell): (r: bool)
    ensures r <==> Abs(a.row - b.row) + Abs(a.col - b.col) == 1
  {
    var rowDiff := Abs(a.row - b.row);
    var colDiff := Abs(a.col - b.col);
    (rowDiff == 1 && colDiff == 0) || (rowDiff == 0 && colDiff == 1)
  }

  function AdjacentToAny(c: Cell, cells: seq<Cell>): (r: bool)
    ensures r <==> exists j :: 0 <= j < |cells| && AreAdjacentCells(c, cells[j])
  {
    if cells == [] then false
    else
      assert forall j :: 1 <= j < |cells| ==> cells[j] == cells[1..][j - 1];
      AreAdjacentCells(c, cells[0]) || AdjacentToAny(c, cells[1..])
  }

  function AnyAdjacent(cells1: seq<Cell>, cells2: seq<Cell>): (r: bool)
    ensures r <==> exists i, j :: 0 <= i < |cells1| && 0 <= j < |cells2| && AreAdjacentCells(cells1[i], cells2[j])
  {
    if cells1 == [] then false
    else
      assert forall i :: 1 <= i < |cells1| ==> cells1[i] == cells1[1..][i - 1];
      AdjacentToAny(cells1[0], cells2) || AnyAdjacent(cells1[1..], cells2)
  }

  lemma AdjacentCellsSymmetricIrreflexive(a: Cell, b: Cell)
    ensures AreAdjacentCells(a, b) == AreAdjacentCells(b, a)
    ensures !AreAdjacentCells(a, a)
  {
  }

  /** Some cell of one cage is an orthogonal neighbour of some cell of the other. */
  function AreCagesAdjacent(c1: Cage, c2: Cage): (r: bool)
    ensures r <==> exists i, j :: 0 <= i < |c1.cells| && 0 <= j < |c2.cells| && AreAdjacentCells(c1.cells[i], c2.cells[j])
  {
    AnyAdjacent(c1.cells, c2.cells)
  }

  lemma CagesAdjacentSymmetric(c1: Cage, c2: Cage)
    ensures AreCagesAdjacent(c1, c2) == AreCagesAdjacent(c2, c1)
  {
    if AreCagesAdjacent(c1, c2) {
      var i, j :| 0 <= i < |c1.cells| && 0 <= j < |c2.cells| && AreAdjacentCells(c1.cells[i], c2.cells[j]);
      assert AreAdjacentCells(c2.cells[j], c1.cells[i]);
    }
    if AreCagesAdjacent(c2, c1) {
      var j, i :| 0 <= j < |c2.cells| && 0 <= i < |c1.cells| && AreAdjacentCells(c2.cells[j], c1.cells[i]);
      assert AreAdjacentCells(c1.cells[i], c2.cells[j]);
    }
  }

  /** Every later cage of an adjacent pair wears a different colour. */
  ghost predicate ColorsSeparated(cages: seq<Cage>)
  {
    forall i, j :: 0 <= i < j < |cages| && AreCagesAdjacent(cages[i], cages[j]) ==> cages[i].color != cages[j].color
  }

  /** Every board position is listed by some cage. */
  ghost predicate Covers(cages: seq<Cage>)
  {
    forall c :: InGrid(c) ==> c in Flatten(cages)
  }

  /** Every given (nonzero initial value) equals the solution's value there. */
  ghost predicate GivensAgree(iv: Grid, solution: Grid)
    requires IsGrid(iv) && IsGrid(solution)
  {
    forall i, j :: 0 <= i < 9 && 0 <= j < 9 && iv[i][j] != 0 ==> iv[i][j] == solution[i][j]
  }

  /** `cages[ci].cells[k]` was already listed before it in the flattened order. */
  lemma RepeatInFlatten(cages: seq<Cage>, ci: int, k: int)
    requires 0 <= ci < |cages| && 0 <= k < |cages[ci].cells|
    requires cages[ci].cells[k] in Flatten(cages[..ci]) + cages[ci].cells[..k]
    ensures !NoRepeats(Flatten(cages))
  {
    var pre := Flatten(cages[..ci]) + cages[ci].cells[..k];
    var i :| 0 <= i < |pre| && pre[i] == cages[ci].cells[k];
    FlattenAt(cages, ci, k);
    if i < Offset(cages, ci) {
      FlattenPrefixAt(cages, ci, i);
    } else {
      FlattenAt(cages, ci, i - Offset(cages, ci));
    }
    assert Flatten(cages)[i] == Flatten(cages)[Offset(cages, ci) + k];
  }

  /** Cells claimed so far, with the cell map's keys and the prefix of the flattened list. */
  lemma SeenStep(cages: seq<Cage>, ci: int, k: int)
    requires 0 <= ci < |cages| && 0 <= k < |cages[ci].cells|
    ensures Flatten(cages[..ci]) + cages[ci].cells[..k + 1] ==
      (Flatten(cages[..ci]) + cages[ci].cells[..k]) + [cages[ci].cells[k]]
  {
    assert cages[ci].cells[..k + 1] == cages[ci].cells[..k] + [cages[ci].cells[k]];
  }

  lemma SeenCage(cages: seq<Cage>, ci: int)
    requires 0 <= ci < |cages|
    ensures Flatten(cages[..ci]) + cages[ci].cells[..|cages[ci].cells|] == Flatten(cages[..ci + 1])
  {
    FlattenPrefix(cages, ci);
    assert cages[ci].cells[..|cages[ci].cells|] == cages[ci].cells;
  }

  /** No position is listed twice; stops at the first repeat. */
  method ValidateNoOverlappingCages(cages: seq<Cage>) returns (ok: bool)
    ensures ok <==> NoRepeats(Flatten(cages))
  {
    var cellMap: map<Cell, string> := map[];
    ghost var seen: seq<Cell> := [];
    var ci := 0;
    while ci < |cages|
      invariant 0 <= ci <= |cages|
      invariant seen == Flatten(cages[..ci]) && NoRepeats(seen)
      invariant forall c :: c in cellMap <==> c in seen
    {
      var cage := cages[ci];
      var k := 0;
      while k < |cage.cells|
        invariant 0 <= k <= |cage.cells|
        invariant seen == Flatten(cages[..ci]) + cage.cells[..k] && NoRepeats(seen)
        invariant forall c :: c in cellMap <==> c in seen
      {
        var cell := cage.cells[k];
        if cell in cellMap {
          RepeatInFlatten(cages, ci, k);
          return false;
        }
        cellMap := cellMap[cell := cage.id];
        NoRepeatsSnoc(seen, cell);
        SeenStep(cages, ci, k);
        seen := seen + [cell];
        k := k + 1;
      }
      SeenCage(cages, ci);
      ci := ci + 1;
    }
    assert cages[..ci] == cages;
    return true;
  }

  /** Some cage with this id lists the position. */
  ghost predicate OwnedBy(cages: seq<Cage>, c: Cell, id: string)
  {
    exists k :: 0 <= k < |cages| && cages[k].id == id && c in cages[k].cells
  }

  lemma ElemsSnoc(s: seq<Cell>, x: Cell)
    ensures Elems(s + [x]) == Elems(s) + {x}
  {
  }

  /** Each overlap entry names two cages, each of which lists the entry's position. */
  ghost predicate OverlapsOwned(cages: seq<Cage>, coords: seq<Overlap>)
  {
    forall o :: o in coords ==>
      (|o.cageIds| == 2 && forall id :: id in o.cageIds ==> OwnedBy(cages, Cell(o.row, o.col), id))
  }

  /** `ids` lists, once each, exactly the ids named by the overlap entries. */
  ghost predicate IdsOf(ids: seq<string>, coords: seq<Overlap>)
  {
    NoRepeats(ids) && forall id :: id in ids <==> exists o :: o in coords && id in o.cageIds
  }

  /** Insertion into an insertion-ordered set: appended when absent. */
  function AddId(ids: seq<string>, id: string): (r: seq<string>)
    ensures NoRepeats(ids) ==> NoRepeats(r)
    ensures forall x :: x in r <==> x in ids || x == id
    ensures id in ids ==> r == ids
  {
    NoRepeatsSnoc(ids, id);
    if id in ids then ids else ids + [id]
  }

  lemma OverlapRecorded(cages: seq<Cage>, ids: seq<string>, coords: seq<Overlap>, o: Overlap, a: string, b: string)
    requires OverlapsOwned(cages, coords) && IdsOf(ids, coords)
    requires o.cageIds == [b, a]
    requires OwnedBy(cages, Cell(o.row, o.col), a) && OwnedBy(cages, Cell(o.row, o.col), b)
    ensures OverlapsOwned(cages, coords + [o])
    ensures IdsOf(AddId(AddId(ids, a), b), coords + [o])
  {
    var ids' := AddId(AddId(ids, a), b);
    forall id ensures id in ids' <==> exists o' :: o' in coords + [o] && id in o'.cageIds {
      if id in ids' && id != a && id != b {
        var o' :| o' in coords && id in o'.cageIds;
        assert o' in coords + [o];
      }
      if id == a || id == b {
        assert o in coords + [o] && id in o.cageIds;
      }
    }
  }

  /** The id of the cage behind each entry of `Flatten(cages)`. */
  function Owners(cages: seq<Cage>): (r: seq<string>)
    ensures |r| == |Flatten(cages)|
  {
    if cages == [] then []
    else
      var n := |cages| - 1;
      Owners(cages[..n]) + seq(|cages[n].cells|, _ => cages[n].id)
  }

  /** Each position of the flattened list is listed by a cage with the id beside it. */
  lemma {:induction false} OwnersOwn(cages: seq<Cage>)
    ensures forall p :: 0 <= p < |Flatten(cages)| ==> OwnedBy(cages, Flatten(cages)[p], Owners(cages)[p])
  {
    if cages != [] {
      var n := |cages| - 1;
      var f, o := Flatten(cages[..n]), Owners(cages[..n]);
      OwnersOwn(cages[..n]);
      forall p | 0 <= p < |Flatten(cages)| ensures OwnedBy(cages, Flatten(cages)[p], Owners(cages)[p]) {
        if p < |f| {
          assert Flatten(cages)[p] == f[p] && Owners(cages)[p] == o[p];
          var k :| 0 <= k < n && cages[..n][k].id == o[p] && f[p] in cages[..n][k].cells;
          assert cages[k] == cages[..n][k];
        } else {
          assert Flatten(cages)[p] == cages[n].cells[p - |f|];
          assert Owners(cages)[p] == cages[n].id;
        }
      }
    }
  }

  lemma OwnersStep(cages: seq<Cage>, ci: int, k: int)
    requires 0 <= ci < |cages| && 0 <= k < |cages[ci].cells|
    ensures Owners(cages[..ci]) + seq(k + 1, _ => cages[ci].id) ==
      (Owners(cages[..ci]) + seq(k, _ => cages[ci].id)) + [cages[ci].id]
  {
    assert seq(k + 1, _ => cages[ci].id) == seq(k, _ => cages[ci].id) + [cages[ci].id];
  }

  lemma OwnersCage(cages: seq<Cage>, ci: int)
    requires 0 <= ci < |cages|
    ensures Owners(cages[..ci]) + seq(|cages[ci].cells|, _ => cages[ci].id) == Owners(cages[..ci + 1])
  {
    assert cages[..ci + 1][..ci] == cages[..ci];
  }

  /** The id beside the last listing of `c`. */
  function LastOwner(cells: seq<Cell>, owners: seq<string>, c: Cell): (r: string)
    requires |owners| == |cells| && c in cells
    ensures exists p :: 0 <= p < |cells| && cells[p] == c && owners[p] == r && c !in cells[p + 1..]
  {
    var n := |cells| - 1;
    if cells[n] == c then
      assert cells[n + 1..] == [];
      owners[n]
    else
      assert cells == cells[..n] + [cells[n]];
      var r := LastOwner(cells[..n], owners[..n], c);
      ghost var p :| 0 <= p < n && cells[..n][p] == c && owners[..n][p] == r && c !in cells[..n][p + 1..];
      assert cells[p + 1..] == cells[..n][p + 1..] + [cells[n]];
      r
  }

  /** The records the overlap scan makes of a listing of positions, each with
      the id of the cage listing it: one per listing of a position listed
      before, in listing order, naming the id beside the position's previous
      listing and then the id beside this one. */
  function OverlapRecords(cells: seq<Cell>, owners: seq<string>): seq<Overlap>
    requires |owners| == |cells|
  {
    if cells == [] then []
    else
      var n := |cells| - 1;
      var earlier := OverlapRecords(cells[..n], owners[..n]);
      if cells[n] in cells[..n] then
        earlier + [Overlap(cells[n].row, cells[n].col, [LastOwner(cells[..n], owners[..n], cells[n]), owners[n]])]
      else earlier
  }

  /** The t-th record belongs to the t-th listing that repeats an earlier one:
      the listing at `q` repeats, and exactly `t` listings before it do. */
  lemma {:induction false} OverlapRecordAt(cells: seq<Cell>, owners: seq<string>, t: int)
    requires |owners| == |cells| && 0 <= t < |OverlapRecords(cells, owners)|
    ensures exists q :: (0 <= q < |cells| && cells[q] in cells[..q] &&
      |OverlapRecords(cells[..q], owners[..q])| == t &&
      OverlapRecords(cells, owners)[t] ==
        Overlap(cells[q].row, cells[q].col, [LastOwner(cells[..q], owners[..q], cells[q]), owners[q]]))
  {
    var n := |cells| - 1;
    assert cells[..n + 1] == cells && owners[..n + 1] == owners;
    var earlier := OverlapRecords(cells[..n], owners[..n]);
    if t < |earlier| {
      OverlapRecordAt(cells[..n], owners[..n], t);
      var q :| 0 <= q < n && cells[..n][q] in cells[..n][..q] &&
        |OverlapRecords(cells[..n][..q], owners[..n][..q])| == t &&
        earlier[t] == Overlap(cells[..n][q].row, cells[..n][q].col,
          [LastOwner(cells[..n][..q], owners[..n][..q], cells[..n][q]), owners[..n][q]]);
      assert cells[..n][..q] == cells[..q] && owners[..n][..q] == owners[..q];
    }
  }

  /** The ids the records name, each once, in the order the scan adds them:
      per record the current cage's id, then the earlier cage's. */
  function OverlapIds(coords: seq<Overlap>): (r: seq<string>)
    ensures NoRepeats(r)
  {
    if coords == [] then []
    else
      var n := |coords| - 1;
      var ids := OverlapIds(coords[..n]);
      var o := coords[n];
      if |o.cageIds| == 2 then AddId(AddId(ids, o.cageIds[1]), o.cageIds[0]) else ids
  }

  /** What the overlap scan knows after reading the positions `seen`: the
      cell map holds exactly those positions, each with an owning cage's id,
      one overlap entry per repeated listing, and the ids they name. */
  ghost predicate ScanInvariant(cages: seq<Cage>, seen: seq<Cell>, cellMap: map<Cell, string>,
                                ids: seq<string>, coords: seq<Overlap>)
  {
    (forall c :: c in cellMap <==> c in seen) &&
    (forall c :: c in cellMap ==> OwnedBy(cages, c, cellMap[c])) &&
    |coords| + |Elems(seen)| == |seen| &&
    OverlapsOwned(cages, coords) && IdsOf(ids, coords)
  }

  /** The scan's state is that of the listing `seen`, whose cages have the
      ids `owners`: each mapped position holds the id beside its last
      listing, and the records and ids are those of the listing so far. */
  ghost predicate ScanTracks(seen: seq<Cell>, owners: seq<string>, cellMap: map<Cell, string>,
                             ids: seq<string>, coords: seq<Overlap>)
  {
    |owners| == |seen| &&
    (forall c :: c in cellMap ==> c in seen && cellMap[c] == LastOwner(seen, owners, c)) &&
    coords == OverlapRecords(seen, owners) && ids == OverlapIds(coords)
  }

  lemma LastOwnerSnoc(seen: seq<Cell>, owners: seq<string>, cell: Cell, id: string, c: Cell)
    requires |owners| == |seen| && (c in seen || c == cell)
    ensures LastOwner(seen + [cell], owners + [id], c) == if c == cell then id else LastOwner(seen, owners, c)
  {
    assert (seen + [cell])[..|seen|] == seen && (owners + [id])[..|seen|] == owners;
  }

  lemma OverlapRecordsSnoc(seen: seq<Cell>, owners: seq<string>, cell: Cell, id: string)
    requires |owners| == |seen|
    ensures OverlapRecords(seen + [cell], owners + [id]) ==
      if cell in seen then OverlapRecords(seen, owners) + [Overlap(cell.row, cell.col, [LastOwner(seen, owners, cell), id])]
      else OverlapRecords(seen, owners)
  {
    assert (seen + [cell])[..|seen|] == seen && (owners + [id])[..|seen|] == owners;
  }

  lemma OverlapIdsSnoc(coords: seq<Overlap>, o: Overlap)
    requires |o.cageIds| == 2
    ensures OverlapIds(coords + [o]) == AddId(AddId(OverlapIds(coords), o.cageIds[1]), o.cageIds[0])
  {
    assert (coords + [o])[..|coords|] == coords;
  }

  /** One scan step keeps the state that of the listing read so far. */
  lemma TracksStep(seen: seq<Cell>, owners: seq<string>, cellMap: map<Cell, string>, ids: seq<string>,
                   coords: seq<Overlap>, cell: Cell, id: string)
    requires ScanTracks(seen, owners, cellMap, ids, coords)
    requires forall c :: c in cellMap <==> c in seen
    ensures var coords' := if cell in cellMap
        then coords + [Overlap(cell.row, cell.col, [cellMap[cell], id])] else coords;
      var ids' := if cell in cellMap then AddId(AddId(ids, id), cellMap[cell]) else ids;
      ScanTracks(seen + [cell], owners + [id], cellMap[cell := id], ids', coords')
  {
    OverlapRecordsSnoc(seen, owners, cell, id);
    if cell in cellMap {
      OverlapIdsSnoc(coords, Overlap(cell.row, cell.col, [cellMap[cell], id]));
    }
    forall c | c in cellMap[cell := id]
      ensures c in seen + [cell] && cellMap[cell := id][c] == LastOwner(seen + [cell], owners + [id], c)
    {
      LastOwnerSnoc(seen, owners, cell, id, c);
    }
  }

  /** One scan step keeps what the scan knows about owners, counts and ids. */
  lemma InvariantStep(cages: seq<Cage>, ci: int, k: int, seen: seq<Cell>, cellMap: map<Cell, string>,
                      ids: seq<string>, coords: seq<Overlap>)
    requires 0 <= ci < |cages| && 0 <= k < |cages[ci].cells|
    requires ScanInvariant(cages, seen, cellMap, ids, coords)
    ensures var cell, id := cages[ci].cells[k], cages[ci].id;
      var coords' := if cell in cellMap
        then coords + [Overlap(cell.row, cell.col, [cellMap[cell], id])] else coords;
      var ids' := if cell in cellMap then AddId(AddId(ids, id), cellMap[cell]) else ids;
      ScanInvariant(cages, seen + [cell], cellMap[cell := id], ids', coords')
  {
    var cage := cages[ci];
    var cell := cage.cells[k];
    assert OwnedBy(cages, cell, cage.id) by {
      assert cages[ci].id == cage.id && cell in cages[ci].cells;
    }
    ElemsSnoc(seen, cell);
    if cell in cellMap {
      OverlapRecorded(cages, ids, coords, Overlap(cell.row, cell.col, [cellMap[cell], cage.id]), cage.id, cellMap[cell]);
    }
  }

  /** One step of the overlap scan: records an overlap when the position is
      already in the cell map, then maps it to the current cage's id. */
  method RecordCell(cages: seq<Cage>, ci: int, k: int, cellMap: map<Cell, string>, ids: seq<string>,
                    coords: seq<Overlap>, ghost seen: seq<Cell>, ghost owners: seq<string>)
    returns (cellMap': map<Cell, string>, ids': seq<string>, coords': seq<Overlap>,
             ghost seen': seq<Cell>, ghost owners': seq<string>)
    requires 0 <= ci < |cages| && 0 <= k < |cages[ci].cells|
    requires ScanInvariant(cages, seen, cellMap, ids, coords)
    requires ScanTracks(seen, owners, cellMap, ids, coords)
    ensures seen' == seen + [cages[ci].cells[k]] && owners' == owners + [cages[ci].id]
    ensures cellMap' == cellMap[cages[ci].cells[k] := cages[ci].id]
    ensures cages[ci].cells[k] in cellMap ==>
      coords' == coords + [Overlap(cages[ci].cells[k].row, cages[ci].cells[k].col, [cellMap[cages[ci].cells[k]], cages[ci].id])]
    ensures cages[ci].cells[k] !in cellMap ==> coords' == coords
    ensures ScanInvariant(cages, seen', cellMap', ids', coords')
    ensures ScanTracks(seen', owners', cellMap', ids', coords')
  {
    var cage := cages[ci];
    var cell := cage.cells[k];
    ids', coords' := ids, coords;
    if cell in cellMap {
      var existingCageId := cellMap[cell];
      ids' := AddId(AddId(ids, cage.id), existingCageId);
      coords' := coords + [Overlap(cell.row, cell.col, [existingCageId, cage.id])];
    }
    cellMap' := cellMap[cell := cage.id];
    seen' := seen + [cell];
    owners' := owners + [cage.id];
    InvariantStep(cages, ci, k, seen, cellMap, ids, coords);
    TracksStep(seen, owners, cellMap, ids, coords, cell, cage.id);
  }

  /** Every repeated listing, as one entry per listing beyond a position's
      first, and the ids of the cages involved, each once in order of first
      involvement. */
  method FindOverlappingCages(cages: seq<Cage>) returns (overlappingIds: seq<string>, overlappingCoordinates: seq<Overlap>)
    ensures overlappingCoordinates == OverlapRecords(Flatten(cages), Owners(cages))
    ensures overlappingIds == OverlapIds(overlappingCoordinates)
    ensures |overlappingCoordinates| == |Flatten(cages)| - |Elems(Flatten(cages))|
    ensures overlappingCoordinates == [] <==> NoRepeats(Flatten(cages))
    ensures OverlapsOwned(cages, overlappingCoordinates)
    ensures IdsOf(overlappingIds, overlappingCoordinates)
  {
    var cellMap: map<Cell, string> := map[];
    overlappingIds := [];
    overlappingCoordinates := [];
    ghost var seen: seq<Cell> := [];
    ghost var owners: seq<string> := [];
    var ci := 0;
    while ci < |cages|
      invariant 0 <= ci <= |cages|
      invariant seen == Flatten(cages[..ci]) && owners == Owners(cages[..ci])
      invariant ScanInvariant(cages, seen, cellMap, overlappingIds, overlappingCoordinates)
      invariant ScanTracks(seen, owners, cellMap, overlappingIds, overlappingCoordinates)
    {
      var k := 0;
      while k < |cages[ci].cells|
        invariant 0 <= k <= |cages[ci].cells|
        invariant seen == Flatten(cages[..ci]) + cages[ci].cells[..k]
        invariant owners == Owners(cages[..ci]) + seq(k, _ => cages[ci].id)
        invariant ScanInvariant(cages, seen, cellMap, overlappingIds, overlappingCoordinates)
        invariant ScanTracks(seen, owners, cellMap, overlappingIds, overlappingCoordinates)
      {
        SeenStep(cages, ci, k);
        OwnersStep(cages, ci, k);
        cellMap, overlappingIds, overlappingCoordinates, seen, owners :=
          RecordCell(cages, ci, k, cellMap, overlappingIds, overlappingCoordinates, seen, owners);
        k := k + 1;
      }
      SeenCage(cages, ci);
      OwnersCage(cages, ci);
      ci := ci + 1;
    }
    assert cages[..ci] == cages;
    DistinctCardinality(seen);
  }

  /** Every board position is listed by some cage. Positions outside the
      board are not complained about. */
  method ValidateAllCellsCovered(cages: seq<Cage>) returns (ok: bool)
    ensures ok <==> Covers(cages)
  {
    var cellMap: map<Cell, bool> := map[];
    var i := 0;
    while i < 9
      invariant 0 <= i <= 9
      invariant forall c :: c in cellMap <==> InGrid(c) && c.row < i
      invariant forall c :: c in cellMap ==> !cellMap[c]
    {
      var j := 0;
      while j < 9
        invariant 0 <= j <= 9
        invariant forall c :: c in cellMap <==> InGrid(c) && (c.row < i || (c.row == i && c.col < j))
        invariant forall c :: c in cellMap ==> !cellMap[c]
      {
        cellMap := cellMap[Cell(i, j) := false];
        j := j + 1;
      }
      i := i + 1;
    }
    ghost var seen: seq<Cell> := [];
    var ci := 0;
    while ci < |cages|
      invariant 0 <= ci <= |cages|
      invariant seen == Flatten(cages[..ci])
      invariant forall c :: c in cellMap <==> InGrid(c) || c in seen
      invariant forall c :: c in cellMap ==> (cellMap[c] <==> c in seen)
    {
      var cage := cages[ci];
      var k := 0;
      while k < |cage.cells|
        invariant 0 <= k <= |cage.cells|
        invariant seen == Flatten(cages[..ci]) + cage.cells[..k]
        invariant forall c :: c in cellMap <==> InGrid(c) || c in seen
        invariant forall c :: c in cellMap ==> (cellMap[c] <==> c in seen)
      {
        cellMap := cellMap[cage.cells[k] := true];
        SeenStep(cages, ci, k);
        seen := seen + [cage.cells[k]];
        k := k + 1;
      }
      SeenCage(cages, ci);
      ci := ci + 1;
    }
    assert cages[..ci] == cages;
    ok := forall c | c in cellMap :: cellMap[c];
  }

  lemma ValidSetMeaning(numbers: seq<int>)
    ensures |Elems(numbers)| == 9 && (forall n :: n in Elems(numbers) ==> 1 <= n <= 9) <==>
      Elems(numbers) == Elems(Digits())
    ensures |numbers| == 9 ==> (Elems(numbers) == Elems(Digits()) <==> IsDigitPermutation(numbers))
  {
    DigitsFacts();
    DistinctCardinality(Digits());
    DistinctCardinality(numbers);
    if forall n :: n in Elems(numbers) ==> 1 <= n <= 9 {
      SubsetCardinality(Elems(numbers), Elems(Digits()));
    }
    if |numbers| == 9 {
      PermutationIffDistinctDigits(numbers);
      assert (forall k :: 0 <= k < 9 ==> 1 <= numbers[k] <= 9) <==> (forall n :: n in Elems(numbers) ==> 1 <= n <= 9) by {
        assert forall k :: 0 <= k < 9 ==> numbers[k] in Elems(numbers);
      }
    }
  }

  /** The distinct values of `numbers` are exactly the digits 1..9 (nine of
      them, none outside 1..9); for nine numbers, a permutation of 1..9. */
  function IsValidSet(numbers: seq<int>): (r: bool)
    ensures r <==> Elems(numbers) == Elems(Digits())
    ensures |numbers| == 9 ==> (r <==> IsDigitPermutation(numbers))
  {
    ValidSetMeaning(numbers);
    var distinct := Elems(numbers);
    |distinct| == 9 && !(exists n :: n in distinct && (n < 1 || n > 9))
  }

  /** Rows, then columns, then blocks; stops at the first that is not a permutation of 1..9. */
  method ValidateSudokuSolution(solution: Grid) returns (ok: bool)
    requires IsGrid(solution)
    ensures ok <==> ValidSolution(solution)
  {
    ok := RowsAreSets(solution);
    if !ok {
      return;
    }
    ok := ColumnsAreSets(solution);
    if !ok {
      return;
    }
    ok := BlocksAreSets(solution);
    ValidSolutionParts(solution);
  }

  /** A solution is valid when its rows, its columns and its blocks are. */
  lemma ValidSolutionParts(solution: Grid)
    requires IsGrid(solution)
    ensures ValidSolution(solution) <==>
      (forall u :: 0 <= u < 9 ==> IsDigitPermutation(Row(solution, u))) &&
      (forall u :: 0 <= u < 9 ==> IsDigitPermutation(Column(solution, u))) &&
      (forall u :: 0 <= u < 9 ==> BlockValid(solution, u))
  {
    if forall u :: 0 <= u < 9 ==> BlockValid(solution, u) {
      forall u | 0 <= u < 9 ensures IsDigitPermutation(Block(solution, u / 3, u % 3)) {
        assert BlockValid(solution, u);
      }
    }
  }

  method RowsAreSets(solution: Grid) returns (ok: bool)
    requires IsGrid(solution)
    ensures ok <==> forall u :: 0 <= u < 9 ==> IsDigitPermutation(Row(solution, u))
  {
    var r := 0;
    while r < 9
      invariant 0 <= r <= 9
      invariant forall u :: 0 <= u < r ==> IsDigitPermutation(Row(solution, u))
    {
      assert solution[r] == Row(solution, r);
      if !IsValidSet(solution[r]) {
        return false;
      }
      r := r + 1;
    }
    return true;
  }

  method ColumnsAreSets(solution: Grid) returns (ok: bool)
    requires IsGrid(solution)
    ensures ok <==> forall u :: 0 <= u < 9 ==> IsDigitPermutation(Column(solution, u))
  {
    var col := 0;
    while col < 9
      invariant 0 <= col <= 9
      invariant forall u :: 0 <= u < col ==> IsDigitPermutation(Column(solution, u))
    {
      var column := seq(9, i requires 0 <= i < 9 => solution[i][col]);
      assert column == Column(solution, col);
      if !IsValidSet(column) {
        return false;
      }
      col := col + 1;
    }
    return true;
  }

  /** Block number `u`, in row-major block order, holds each digit once. */
  ghost predicate BlockValid(solution: Grid, u: int)
    requires IsGrid(solution) && 0 <= u < 9
  {
    IsDigitPermutation(Block(solution, u / 3, u % 3))
  }

  /** Collects block (bi, bj), whose top-left corner is (blockRow, blockCol), and tests it. */
  method CheckBlock(solution: Grid, blockRow: int, blockCol: int, ghost bi: int, ghost bj: int) returns (ok: bool)
    requires IsGrid(solution) && 0 <= bi < 3 && 0 <= bj < 3 && blockRow == 3 * bi && blockCol == 3 * bj
    ensures ok <==> BlockValid(solution, 3 * bi + bj)
  {
    assert (3 * bi + bj) / 3 == bi && (3 * bi + bj) % 3 == bj;
    assert blockRow / 3 == bi && blockCol / 3 == bj;
    var block := CollectBlock(solution, blockRow, blockCol);
    ok := IsValidSet(block);
  }

  method BlocksAreSets(solution: Grid) returns (ok: bool)
    requires IsGrid(solution)
    ensures ok <==> forall u :: 0 <= u < 9 ==> BlockValid(solution, u)
  {
    var blockRow := 0;
    ghost var bi := 0;
    while blockRow < 9
      invariant 0 <= bi <= 3 && blockRow == 3 * bi
      invariant forall u :: 0 <= u < 3 * bi ==> BlockValid(solution, u)
    {
      var blockCol := 0;
      ghost var bj := 0;
      while blockCol < 9
        invariant 0 <= bj <= 3 && blockCol == 3 * bj
        invariant forall u :: 0 <= u < 3 * bi + bj ==> BlockValid(solution, u)
      {
        ok := CheckBlock(solution, blockRow, blockCol, bi, bj);
        if !ok {
          return false;
        }
        blockCol, bj := blockCol + 3, bj + 1;
      }
      blockRow, bi := blockRow + 3, bi + 1;
    }
    return true;
  }

  /** The nine values of the block whose top-left corner is (blockRow, blockCol), row by row. */
  method CollectBlock(solution: Grid, blockRow: int, blockCol: int) returns (block: seq<int>)
    requires IsGrid(solution) && blockRow in {0, 3, 6} && blockCol in {0, 3, 6}
    ensures block == Block(solution, blockRow / 3, blockCol / 3)
  {
    block := [];
    var i := 0;
    while i < 3
      invariant 0 <= i <= 3 && |block| == 3 * i
      invariant forall k :: 0 <= k < |block| ==> block[k] == solution[blockRow + k / 3][blockCol + k % 3]
    {
      var j := 0;
      while j < 3
        invariant 0 <= j <= 3 && |block| == 3 * i + j
        invariant forall k :: 0 <= k < |block| ==> block[k] == solution[blockRow + k / 3][blockCol + k % 3]
      {
        block := block + [solution[blockRow + i][blockCol + j]];
        j := j + 1;
      }
      i := i + 1;
    }
  }

  /** No cage before `i` shares a colour with an adjacent later cage. */
  ghost predicate SeparatedBefore(cages: seq<Cage>, i: int)
  {
    forall a, b :: 0 <= a < i && a < b < |cages| && AreCagesAdjacent(cages[a], cages[b]) ==>
      cages[a].color != cages[b].color
  }

  /** Cage `i` shares no colour with an adjacent cage strictly between `i` and `j`. */
  ghost predicate SeparatedAfter(cages: seq<Cage>, i: int, j: int)
    requires 0 <= i < |cages|
  {
    forall b :: i < b < j && b < |cages| && AreCagesAdjacent(cages[i], cages[b]) ==> cages[i].color != cages[b].color
  }

  lemma SeparatedBeforeStep(cages: seq<Cage>, i: int)
    requires 0 <= i < |cages| && SeparatedBefore(cages, i) && SeparatedAfter(cages, i, |cages|)
    ensures SeparatedBefore(cages, i + 1)
  {
  }

  /** No adjacent pair of cages shares a colour; stops at the first clash. */
  method ValidateCageColors(cages: seq<Cage>) returns (ok: bool)
    ensures ok <==> ColorsSeparated(cages)
  {
    var i := 0;
    while i < |cages|
      invariant 0 <= i <= |cages| && SeparatedBefore(cages, i)
    {
      var j := i + 1;
      while j < |cages|
        invariant i + 1 <= j <= |cages| && SeparatedAfter(cages, i, j)
      {
        if AreCagesAdjacent(cages[i], cages[j]) && cages[i].color == cages[j].color {
          return false;
        }
        j := j + 1;
      }
      SeparatedBeforeStep(cages, i);
      i := i + 1;
    }
    return true;
  }

  /** The clash (i, j), i < j: adjacent cages of one colour. */
  ghost predicate Clash(cages: seq<Cage>, i: int, j: int)
  {
    0 <= i < j < |cages| && AreCagesAdjacent(cages[i], cages[j]) && cages[i].color == cages[j].color
  }

  /** `cf` reports some clash of `cages`. */
  ghost predicate IsClashReport(cages: seq<Cage>, cf: Conflict)
  {
    exists i, j :: Clash(cages, i, j) && cf == Conflict(cages[i].id, cages[j].id, cages[i].color)
  }

  predicate LexLess(p: (int, int), q: (int, int))
  {
    p.0 < q.0 || (p.0 == q.0 && p.1 < q.1)
  }

  ghost predicate Ascending(pairs: seq<(int, int)>)
  {
    forall s, t :: 0 <= s < t < |pairs| ==> LexLess(pairs[s], pairs[t])
  }

  /** `conflicts[t]` reports the clash `pairs[t]` as (first id, second id, shared colour). */
  ghost predicate Reports(cages: seq<Cage>, conflicts: seq<Conflict>, pairs: seq<(int, int)>)
  {
    |conflicts| == |pairs| &&
    forall t :: 0 <= t < |pairs| ==>
      (Clash(cages, pairs[t].0, pairs[t].1) &&
       conflicts[t] == Conflict(cages[pairs[t].0].id, cages[pairs[t].1].id, cages[pairs[t].0].color))
  }

  lemma ReportSnoc(cages: seq<Cage>, conflicts: seq<Conflict>, pairs: seq<(int, int)>, i: int, j: int)
    requires Reports(cages, conflicts, pairs) && Ascending(pairs) && Clash(cages, i, j)
    requires forall t :: 0 <= t < |pairs| ==> LexLess(pairs[t], (i, j))
    ensures Reports(cages, conflicts + [Conflict(cages[i].id, cages[j].id, cages[i].color)], pairs + [(i, j)])
    ensures Ascending(pairs + [(i, j)])
  {
  }

  lemma ReportsAreClashes(cages: seq<Cage>, conflicts: seq<Conflict>, pairs: seq<(int, int)>)
    requires Reports(cages, conflicts, pairs)
    ensures forall cf :: cf in conflicts ==> IsClashReport(cages, cf)
  {
    forall cf | cf in conflicts ensures IsClashReport(cages, cf) {
      var t :| 0 <= t < |conflicts| && conflicts[t] == cf;
      assert Clash(cages, pairs[t].0, pairs[t].1);
    }
  }

  /** The scan has reached pair (i, j): every clash before it in the scan
      order is reported, in order, and nothing at or after it is. */
  ghost predicate ScannedTo(cages: seq<Cage>, conflicts: seq<Conflict>, pairs: seq<(int, int)>, i: int, j: int)
  {
    Reports(cages, conflicts, pairs) && Ascending(pairs) &&
    (forall t :: 0 <= t < |pairs| ==> LexLess(pairs[t], (i, j))) &&
    (forall a, b :: Clash(cages, a, b) && LexLess((a, b), (i, j)) ==> (a, b) in pairs)
  }

  lemma ScanClash(cages: seq<Cage>, conflicts: seq<Conflict>, pairs: seq<(int, int)>, i: int, j: int)
    requires ScannedTo(cages, conflicts, pairs, i, j) && Clash(cages, i, j)
    ensures ScannedTo(cages, conflicts + [Conflict(cages[i].id, cages[j].id, cages[i].color)], pairs + [(i, j)], i, j + 1)
  {
    ReportSnoc(cages, conflicts, pairs, i, j);
    var pairs' := pairs + [(i, j)];
    forall a, b | Clash(cages, a, b) && LexLess((a, b), (i, j + 1)) ensures (a, b) in pairs' {
      if (a, b) != (i, j) {
        assert (a, b) in pairs;
      }
    }
  }

  lemma ScanNoClash(cages: seq<Cage>, conflicts: seq<Conflict>, pairs: seq<(int, int)>, i: int, j: int)
    requires ScannedTo(cages, conflicts, pairs, i, j) && !Clash(cages, i, j)
    ensures ScannedTo(cages, conflicts, pairs, i, j + 1)
  {
  }

  lemma ScanNextRow(cages: seq<Cage>, conflicts: seq<Conflict>, pairs: seq<(int, int)>, i: int)
    requires ScannedTo(cages, conflicts, pairs, i, |cages|)
    ensures ScannedTo(cages, conflicts, pairs, i + 1, i + 2)
  {
  }

  lemma ScanDone(cages: seq<Cage>, conflicts: seq<Conflict>, pairs: seq<(int, int)>)
    requires ScannedTo(cages, conflicts, pairs, |cages|, |cages| + 1)
    ensures forall i, j :: Clash(cages, i, j) ==> (i, j) in pairs
    ensures conflicts == [] <==> ColorsSeparated(cages)
  {
    if conflicts == [] {
      forall a, b | 0 <= a < b < |cages| && AreCagesAdjacent(cages[a], cages[b])
        ensures cages[a].color != cages[b].color
      {
        assert (a, b) !in pairs;
      }
    } else {
      assert Clash(cages, pairs[0].0, pairs[0].1);
    }
  }

  /** The clashes (i, b) with i < b < j, by ascending b. */
  ghost function RowClashes(cages: seq<Cage>, i: int, j: int): seq<(int, int)>
    decreases j - i
  {
    if j <= i + 1 then []
    else RowClashes(cages, i, j - 1) + (if Clash(cages, i, j - 1) then [(i, j - 1)] else [])
  }

  /** The clashes (a, b) with a < i, in the order of the (a, b) scan. */
  ghost function ClashesBefore(cages: seq<Cage>, i: nat): seq<(int, int)>
  {
    if i == 0 then [] else ClashesBefore(cages, i - 1) + RowClashes(cages, i - 1, |cages|)
  }

  lemma {:induction false} RowClashesBounds(cages: seq<Cage>, i: int, j: int)
    ensures forall t :: 0 <= t < |RowClashes(cages, i, j)| ==>
      RowClashes(cages, i, j)[t].0 == i && i < RowClashes(cages, i, j)[t].1 < j
    decreases j - i
  {
    if j > i + 1 {
      RowClashesBounds(cages, i, j - 1);
    }
  }

  lemma {:induction false} ClashesBeforeBounds(cages: seq<Cage>, i: nat)
    requires i <= |cages|
    ensures forall t :: 0 <= t < |ClashesBefore(cages, i)| ==>
      0 <= ClashesBefore(cages, i)[t].0 < ClashesBefore(cages, i)[t].1 < |cages|
  {
    if i > 0 {
      ClashesBeforeBounds(cages, i - 1);
      RowClashesBounds(cages, i - 1, |cages|);
    }
  }

  /** The reports of all clashes, in scan order, as (first id, second id, shared colour). */
  ghost function AllClashes(cages: seq<Cage>): (r: seq<Conflict>)
    ensures |r| == |ClashesBefore(cages, |cages|)|
  {
    ClashesBeforeBounds(cages, |cages|);
    var pairs := ClashesBefore(cages, |cages|);
    seq(|pairs|, t requires 0 <= t < |pairs| =>
      Conflict(cages[pairs[t].0].id, cages[pairs[t].1].id, cages[pairs[t].0].color))
  }

  /** The first five reports, which is what `conflicts.slice(0, 5)` keeps. */
  ghost function FirstClashes(cages: seq<Cage>): seq<Conflict>
  {
    var all := AllClashes(cages);
    if |all| <= 5 then all else all[..5]
  }

  /** The clashes the scan has met on reaching pair (i, j). */
  ghost function ScanPrefix(cages: seq<Cage>, i: nat, j: int): seq<(int, int)>
  {
    ClashesBefore(cages, i) + RowClashes(cages, i, j)
  }

  lemma ScanPrefixClash(cages: seq<Cage>, i: nat, j: int)
    requires i + 1 <= j && Clash(cages, i, j)
    ensures ScanPrefix(cages, i, j + 1) == ScanPrefix(cages, i, j) + [(i, j)]
  {
    assert RowClashes(cages, i, j + 1) == RowClashes(cages, i, j) + [(i, j)];
  }

  lemma ScanPrefixNoClash(cages: seq<Cage>, i: nat, j: int)
    requires i + 1 <= j && !Clash(cages, i, j)
    ensures ScanPrefix(cages, i, j + 1) == ScanPrefix(cages, i, j)
  {
    assert RowClashes(cages, i, j + 1) == RowClashes(cages, i, j) + [];
  }

  lemma ScanPrefixEnds(cages: seq<Cage>, i: nat)
    ensures ScanPrefix(cages, i, i + 1) == ClashesBefore(cages, i)
    ensures ScanPrefix(cages, i, |cages|) == ClashesBefore(cages, i + 1)
  {
  }

  lemma ReportsAllClashes(cages: seq<Cage>, conflicts: seq<Conflict>, pairs: seq<(int, int)>)
    requires Reports(cages, conflicts, pairs) && pairs == ClashesBefore(cages, |cages|)
    ensures conflicts == AllClashes(cages)
  {
  }

  /** One step of the (i, j) scan: reports the pair when it clashes. */
  method ScanPair(cages: seq<Cage>, i: int, j: int, conflicts: seq<Conflict>, ghost pairs: seq<(int, int)>)
    returns (conflicts': seq<Conflict>, ghost pairs': seq<(int, int)>)
    requires 0 <= i && i + 1 <= j < |cages|
    requires ScannedTo(cages, conflicts, pairs, i, j) && pairs == ScanPrefix(cages, i, j)
    ensures ScannedTo(cages, conflicts', pairs', i, j + 1) && pairs' == ScanPrefix(cages, i, j + 1)
  {
    if AreCagesAdjacent(cages[i], cages[j]) && cages[i].color == cages[j].color {
      ScanPrefixClash(cages, i, j);
      ScanClash(cages, conflicts, pairs, i, j);
      conflicts' := conflicts + [Conflict(cages[i].id, cages[j].id, cages[i].color)];
      pairs' := pairs + [(i, j)];
    } else {
      ScanPrefixNoClash(cages, i, j);
      ScanNoClash(cages, conflicts, pairs, i, j);
      conflicts', pairs' := conflicts, pairs;
    }
  }

  /** One row of the (i, j) scan: the clashes (i, j) for j > i, reported in order. */
  method ScanRow(cages: seq<Cage>, i: int, conflicts: seq<Conflict>, ghost pairs: seq<(int, int)>)
    returns (conflicts': seq<Conflict>, ghost pairs': seq<(int, int)>)
    requires 0 <= i < |cages| && ScannedTo(cages, conflicts, pairs, i, i + 1)
    requires pairs == ClashesBefore(cages, i)
    ensures ScannedTo(cages, conflicts', pairs', i + 1, i + 2)
    ensures pairs' == ClashesBefore(cages, i + 1)
  {
    conflicts', pairs' := conflicts, pairs;
    ScanPrefixEnds(cages, i);
    var j := i + 1;
    while j < |cages|
      invariant i + 1 <= j <= |cages| && ScannedTo(cages, conflicts', pairs', i, j)
      invariant pairs' == ScanPrefix(cages, i, j)
    {
      conflicts', pairs' := ScanPair(cages, i, j, conflicts', pairs');
      j := j + 1;
    }
    ScanNextRow(cages, conflicts', pairs', i);
  }

  /** All clashing pairs, in the order of the (i, j) scan, each reported as
      (first id, second id, shared colour). */
  method FindAdjacentSameColorCages(cages: seq<Cage>) returns (conflicts: seq<Conflict>, ghost pairs: seq<(int, int)>)
    ensures Reports(cages, conflicts, pairs) && Ascending(pairs)
    ensures forall i, j :: Clash(cages, i, j) ==> (i, j) in pairs
    ensures conflicts == [] <==> ColorsSeparated(cages)
    ensures pairs == ClashesBefore(cages, |cages|) && conflicts == AllClashes(cages)
  {
    conflicts := [];
    pairs := [];
    var i := 0;
    while i < |cages|
      invariant 0 <= i <= |cages| && ScannedTo(cages, conflicts, pairs, i, i + 1)
      invariant pairs == ClashesBefore(cages, i)
    {
      conflicts, pairs := ScanRow(cages, i, conflicts, pairs);
      i := i + 1;
    }
    ScanDone(cages, conflicts, pairs);
    ReportsAllClashes(cages, conflicts, pairs);
  }

  /** Every given agrees with the solution; stops at the first that does not. */
  method ValidateInitialValues(iv: Grid, solution: Grid) returns (ok: bool)
    requires IsGrid(iv) && IsGrid(solution)
    ensures ok <==> GivensAgree(iv, solution)
  {
    var i := 0;
    while i < 9
      invariant 0 <= i <= 9
      invariant forall r, c :: 0 <= r < i && 0 <= c < 9 && iv[r][c] != 0 ==> iv[r][c] == solution[r][c]
    {
      var j := 0;
      while j < 9
        invariant 0 <= j <= 9
        invariant forall r, c :: 0 <= r < i && 0 <= c < 9 && iv[r][c] != 0 ==> iv[r][c] == solution[r][c]
        invariant forall c :: 0 <= c < j && iv[i][c] != 0 ==> iv[i][c] == solution[i][c]
      {
        if iv[i][j] != 0 && iv[i][j] != solution[i][j] {
          return false;
        }
        j := j + 1;
      }
      i := i + 1;
    }
    return true;
  }

  function Kinds(errors: seq<ValidationError>): (ks: seq<ErrorType>)
    ensures |ks| == |errors| && forall k :: 0 <= k < |errors| ==> ks[k] == errors[k].errorType
  {
    seq(|errors|, k requires 0 <= k < |errors| => errors[k].errorType)
  }

  /** One INVALID_CAGE_SUM per cage whose sum no set of distinct digits reaches, in cage order. */
  ghost function CageSumKinds(cages: seq<Cage>): seq<ErrorType>
  {
    if cages == [] then []
    else
      var last := cages[|cages| - 1];
      CageSumKinds(cages[..|cages| - 1]) + (if Feasible(|last.cells|, last.sum) then [] else [InvalidCageSum])
  }

  /** One INVALID_COLOR per cage whose colour is not in `palette`, in cage order. */
  ghost function ColorKinds(cages: seq<Cage>, palette: seq<string>): seq<ErrorType>
  {
    if cages == [] then []
    else
      var last := cages[|cages| - 1];
      ColorKinds(cages[..|cages| - 1], palette) + (if last.color in palette then [] else [InvalidColor])
  }

  /** The indices of the cages whose sum is infeasible, ascending. */
  ghost function InfeasibleIndices(cages: seq<Cage>): (r: seq<int>)
    ensures forall t :: 0 <= t < |r| ==> 0 <= r[t] < |cages|
  {
    if cages == [] then []
    else
      var n := |cages| - 1;
      InfeasibleIndices(cages[..n]) + (if Feasible(|cages[n].cells|, cages[n].sum) then [] else [n])
  }

  /** The indices of the cages whose colour is not in `palette`, ascending. */
  ghost function OffPaletteIndices(cages: seq<Cage>, palette: seq<string>): (r: seq<int>)
    ensures forall t :: 0 <= t < |r| ==> 0 <= r[t] < |cages|
  {
    if cages == [] then []
    else
      var n := |cages| - 1;
      OffPaletteIndices(cages[..n], palette) + (if cages[n].color in palette then [] else [n])
  }

  /** A level whose present grids are 9x9. */
  predicate GridsShaped(level: Level)
  {
    (level.solution.Some? ==> IsGrid(level.solution.value)) &&
    (level.initialValues.Some? ==> IsGrid(level.initialValues.value))
  }

  ghost function OverlapKinds(cages: seq<Cage>): seq<ErrorType>
  {
    if NoRepeats(Flatten(cages)) then [] else [OverlappingCages]
  }

  ghost function CoverageKinds(cages: seq<Cage>): seq<ErrorType>
  {
    if Covers(cages) then [] else [UncoveredCells]
  }

  ghost function SolutionKinds(level: Level): seq<ErrorType>
    requires GridsShaped(level)
  {
    match level.solution
    case None => [MissingSolution]
    case Some(s) => if ValidSolution(s) then [] else [InvalidSolution]
  }

  /** Givens are compared only when a solution is present. */
  ghost function GivensKinds(level: Level): seq<ErrorType>
    requires GridsShaped(level)
  {
    match level.initialValues
    case None => [MissingInitialValues]
    case Some(iv) =>
      if level.solution.Some? && !GivensAgree(iv, level.solution.value) then [InitialValuesMismatch] else []
  }

  ghost function AdjacencyKinds(cages: seq<Cage>): seq<ErrorType>
  {
    if ColorsSeparated(cages) then [] else [AdjacentSameColor]
  }

  /** The error kinds a level draws, in the order the checks run. */
  ghost function ExpectedKinds(level: Level): seq<ErrorType>
    requires GridsShaped(level)
  {
    CageSumKinds(level.cages) + OverlapKinds(level.cages) + CoverageKinds(level.cages) +
    SolutionKinds(level) + GivensKinds(level) + AdjacencyKinds(level.cages) + ColorKinds(level.cages, ValidColors)
  }

  /** What each error carries beside its kind: the offending cage for the
      per-cage kinds, the repeated listings for OVERLAPPING_CAGES, one to
      five real clashes for ADJACENT_SAME_COLOR, nothing otherwise. */
  ghost predicate DetailsFit(level: Level, e: ValidationError)
  {
    e.levelId == level.id &&
    match e.errorType
    case InvalidCageSum =>
      e.details.CageDetails? && e.details.cage in level.cages && !Feasible(|e.details.cage.cells|, e.details.cage.sum)
    case InvalidColor =>
      e.details.CageDetails? && e.details.cage in level.cages && e.details.cage.color !in ValidColors
    case OverlappingCages =>
      e.details.OverlapDetails? && e.details.overlappingCoordinates != [] &&
      e.details.overlappingCoordinates == OverlapRecords(Flatten(level.cages), Owners(level.cages)) &&
      e.details.overlappingIds == OverlapIds(e.details.overlappingCoordinates) &&
      OverlapsOwned(level.cages, e.details.overlappingCoordinates)
    case AdjacentSameColor =>
      e.details.ConflictDetails? && 1 <= |e.details.conflicts| <= 5 &&
      e.details.conflicts == FirstClashes(level.cages) &&
      forall cf :: cf in e.details.conflicts ==> IsClashReport(level.cages, cf)
    case _ => e.details.NoDetails?
  }

  lemma KindsSnoc(errors: seq<ValidationError>, e: ValidationError)
    ensures Kinds(errors + [e]) == Kinds(errors) + [e.errorType]
  {
  }

  lemma KindsAppend(a: seq<ValidationError>, b: seq<ValidationError>)
    ensures Kinds(a + b) == Kinds(a) + Kinds(b)
  {
  }

  /** Check 1: one error per cage whose sum is infeasible, in cage order,
      the t-th carrying the t-th such cage. */
  method CageSumErrors(level: Level) returns (errors: seq<ValidationError>)
    ensures Kinds(errors) == CageSumKinds(level.cages)
    ensures forall e :: e in errors ==> DetailsFit(level, e)
    ensures |errors| == |InfeasibleIndices(level.cages)|
    ensures forall t :: 0 <= t < |errors| ==>
      errors[t].details == CageDetails(level.cages[InfeasibleIndices(level.cages)[t]])
  {
    var cages := level.cages;
    errors := [];
    var i := 0;
    while i < |cages|
      invariant 0 <= i <= |cages|
      invariant Kinds(errors) == CageSumKinds(cages[..i])
      invariant forall e :: e in errors ==> DetailsFit(level, e)
      invariant |errors| == |InfeasibleIndices(cages[..i])|
      invariant forall t :: 0 <= t < |errors| ==>
        errors[t].details == CageDetails(cages[InfeasibleIndices(cages[..i])[t]])
    {
      var ok := ValidateCageMath(cages[i]);
      assert cages[..i + 1][..i] == cages[..i];
      if !ok {
        var e := ValidationError(level.id, InvalidCageSum, CageDetails(cages[i]));
        KindsSnoc(errors, e);
        errors := errors + [e];
      }
      i := i + 1;
    }
    assert cages[..i] == cages;
  }

  /** Check 2: one error listing the repeated positions, when some position is listed twice. */
  method OverlapErrors(level: Level) returns (errors: seq<ValidationError>)
    ensures Kinds(errors) == OverlapKinds(level.cages)
    ensures forall e :: e in errors ==> DetailsFit(level, e)
  {
    errors := [];
    var noOverlap := ValidateNoOverlappingCages(level.cages);
    if !noOverlap {
      var overlappingIds, overlappingCoordinates := FindOverlappingCages(level.cages);
      errors := [ValidationError(level.id, OverlappingCages, OverlapDetails(overlappingIds, overlappingCoordinates))];
    }
  }

  /** Check 3: one error when some board position is in no cage. */
  method CoverageErrors(level: Level) returns (errors: seq<ValidationError>)
    ensures Kinds(errors) == CoverageKinds(level.cages)
    ensures forall e :: e in errors ==> DetailsFit(level, e)
  {
    errors := [];
    var covered := ValidateAllCellsCovered(level.cages);
    if !covered {
      errors := [ValidationError(level.id, UncoveredCells, NoDetails)];
    }
  }

  /** Check 4: the solution is missing, or is not a valid Sudoku. */
  method SolutionErrors(level: Level) returns (errors: seq<ValidationError>)
    requires GridsShaped(level)
    ensures Kinds(errors) == SolutionKinds(level)
    ensures forall e :: e in errors ==> DetailsFit(level, e)
  {
    errors := [];
    if level.solution.None? {
      errors := [ValidationError(level.id, MissingSolution, NoDetails)];
    } else {
      var solutionOk := ValidateSudokuSolution(level.solution.value);
      if !solutionOk {
        errors := [ValidationError(level.id, InvalidSolution, NoDetails)];
      }
    }
  }

  /** Check 5: the givens are missing, or disagree with a present solution. */
  method GivensErrors(level: Level) returns (errors: seq<ValidationError>)
    requires GridsShaped(level)
    ensures Kinds(errors) == GivensKinds(level)
    ensures forall e :: e in errors ==> DetailsFit(level, e)
  {
    errors := [];
    if level.initialValues.None? {
      errors := [ValidationError(level.id, MissingInitialValues, NoDetails)];
    } else if level.solution.Some? {
      var givensOk := ValidateInitialValues(level.initialValues.value, level.solution.value);
      if !givensOk {
        errors := [ValidationError(level.id, InitialValuesMismatch, NoDetails)];
      }
    }
  }

  /** Check 6: one error carrying the first five clashes, when adjacent cages share a colour. */
  method AdjacencyErrors(level: Level) returns (errors: seq<ValidationError>)
    ensures Kinds(errors) == AdjacencyKinds(level.cages)
    ensures forall e :: e in errors ==> DetailsFit(level, e)
  {
    var cages := level.cages;
    errors := [];
    var colorsOk := ValidateCageColors(cages);
    if !colorsOk {
      var conflicts, pairs := FindAdjacentSameColorCages(cages);
      var shown := if |conflicts| <= 5 then conflicts else conflicts[..5];
      ReportsAreClashes(cages, conflicts, pairs);
      assert forall cf :: cf in shown ==> cf in conflicts;
      errors := [ValidationError(level.id, AdjacentSameColor, ConflictDetails(shown))];
    }
  }

  /** Check 7: one error per cage whose colour is not in the palette, in
      cage order, the t-th carrying the t-th such cage. */
  method PaletteErrors(level: Level) returns (errors: seq<ValidationError>)
    ensures Kinds(errors) == ColorKinds(level.cages, ValidColors)
    ensures forall e :: e in errors ==> DetailsFit(level, e)
    ensures |errors| == |OffPaletteIndices(level.cages, ValidColors)|
    ensures forall t :: 0 <= t < |errors| ==>
      errors[t].details == CageDetails(level.cages[OffPaletteIndices(level.cages, ValidColors)[t]])
  {
    var cages := level.cages;
    errors := [];
    var i := 0;
    while i < |cages|
      invariant 0 <= i <= |cages|
      invariant Kinds(errors) == ColorKinds(cages[..i], ValidColors)
      invariant forall e :: e in errors ==> DetailsFit(level, e)
      invariant |errors| == |OffPaletteIndices(cages[..i], ValidColors)|
      invariant forall t :: 0 <= t < |errors| ==>
        errors[t].details == CageDetails(cages[OffPaletteIndices(cages[..i], ValidColors)[t]])
    {
      assert cages[..i + 1][..i] == cages[..i];
      if cages[i].color !in ValidColors {
        var e := ValidationError(level.id, InvalidColor, CageDetails(cages[i]));
        KindsSnoc(errors, e);
        errors := errors + [e];
      }
      i := i + 1;
    }
    assert cages[..i] == cages;
  }

  /** Runs the seven checks in order and collects one error per failure;
      the level is valid exactly when there is none. */
  method ValidateLevel(level: Level) returns (r: ValidationResult)
    requires GridsShaped(level)
    ensures r.levelId == level.id
    ensures Kinds(r.errors) == ExpectedKinds(level)
    ensures forall e :: e in r.errors ==> DetailsFit(level, e)
    ensures r.valid <==> r.errors == []
    ensures r.valid <==> LevelSound(level)
    ensures |InfeasibleIndices(level.cages)| <= |r.errors|
    ensures forall t :: 0 <= t < |InfeasibleIndices(level.cages)| ==>
      r.errors[t].details == CageDetails(level.cages[InfeasibleIndices(level.cages)[t]])
    ensures |OffPaletteIndices(level.cages, ValidColors)| <= |r.errors|
    ensures forall t :: 0 <= t < |OffPaletteIndices(level.cages, ValidColors)| ==>
      r.errors[|r.errors| - |OffPaletteIndices(level.cages, ValidColors)| + t].details ==
        CageDetails(level.cages[OffPaletteIndices(level.cages, ValidColors)[t]])
  {
    var errors := CageSumErrors(level);
    ghost var sumErrors := errors;
    var more := OverlapErrors(level);
    KindsAppend(errors, more);
    errors := errors + more;
    more := CoverageErrors(level);
    KindsAppend(errors, more);
    errors := errors + more;
    more := SolutionErrors(level);
    KindsAppend(errors, more);
    errors := errors + more;
    more := GivensErrors(level);
    KindsAppend(errors, more);
    errors := errors + more;
    more := AdjacencyErrors(level);
    KindsAppend(errors, more);
    errors := errors + more;
    assert errors[..|sumErrors|] == sumErrors;
    more := PaletteErrors(level);
    KindsAppend(errors, more);
    ghost var before := errors;
    errors := errors + more;
    assert errors[..|sumErrors|] == sumErrors;
    assert errors[|before|..] == more;
    ExpectedKindsEmptyIffSound(level);
    r := ValidationResult(level.id, |errors| == 0, errors);
  }

  /** Everything the seven checks ask of a level. */
  ghost predicate LevelSound(level: Level)
    requires GridsShaped(level)
  {
    (forall k :: 0 <= k < |level.cages| ==> Feasible(|level.cages[k].cells|, level.cages[k].sum)) &&
    NoRepeats(Flatten(level.cages)) &&
    Covers(level.cages) &&
    level.solution.Some? && ValidSolution(level.solution.value) &&
    level.initialValues.Some? && GivensAgree(level.initialValues.value, level.solution.value) &&
    ColorsSeparated(level.cages) &&
    (forall k :: 0 <= k < |level.cages| ==> level.cages[k].color in ValidColors)
  }

  /** The indices of the cages whose sum is infeasible. */
  ghost function InfeasibleCages(cages: seq<Cage>): set<int>
  {
    set k | 0 <= k < |cages| && !Feasible(|cages[k].cells|, cages[k].sum)
  }

  /** The indices of the cages whose colour is outside `palette`. */
  function OffPaletteCages(cages: seq<Cage>, palette: seq<string>): set<int>
  {
    set k | 0 <= k < |cages| && cages[k].color !in palette
  }

  /** Check 1 draws only INVALID_CAGE_SUM, once per infeasible cage. */
  lemma {:induction false} CageSumKindsCount(cages: seq<Cage>)
    ensures forall t :: t in CageSumKinds(cages) ==> t == InvalidCageSum
    ensures |CageSumKinds(cages)| == |InfeasibleCages(cages)|
    ensures CageSumKinds(cages) == [] <==> forall k :: 0 <= k < |cages| ==> Feasible(|cages[k].cells|, cages[k].sum)
  {
    if cages != [] {
      var n := |cages| - 1;
      CageSumKindsCount(cages[..n]);
      InfeasibleSnoc(cages);
      assert forall k :: 0 <= k < n ==> cages[..n][k] == cages[k];
    }
  }

  lemma InfeasibleSnoc(cages: seq<Cage>)
    requires cages != []
    ensures var n := |cages| - 1;
      |InfeasibleCages(cages)| == |InfeasibleCages(cages[..n])| + if Feasible(|cages[n].cells|, cages[n].sum) then 0 else 1
  {
    var n := |cages| - 1;
    var last := cages[n];
    assert forall k :: 0 <= k < n ==> cages[..n][k] == cages[k];
    assert InfeasibleCages(cages) ==
      InfeasibleCages(cages[..n]) + (if Feasible(|last.cells|, last.sum) then {} else {n});
    assert n !in InfeasibleCages(cages[..n]);
  }

  /** Check 7 draws only INVALID_COLOR, once per cage whose colour is off the palette. */
  lemma {:induction false} ColorKindsCount(cages: seq<Cage>, palette: seq<string>)
    ensures forall t :: t in ColorKinds(cages, palette) ==> t == InvalidColor
    ensures |ColorKinds(cages, palette)| == |OffPaletteCages(cages, palette)|
    ensures ColorKinds(cages, palette) == [] <==> forall k :: 0 <= k < |cages| ==> cages[k].color in palette
  {
    if cages != [] {
      var n := |cages| - 1;
      ColorKindsCount(cages[..n], palette);
      OffPaletteSnoc(cages, palette);
      assert forall k :: 0 <= k < n ==> cages[..n][k] == cages[k];
    }
  }

  lemma OffPaletteSnoc(cages: seq<Cage>, palette: seq<string>)
    requires cages != []
    ensures var n := |cages| - 1;
      |OffPaletteCages(cages, palette)| == |OffPaletteCages(cages[..n], palette)| + if cages[n].color in palette then 0 else 1
  {
    var n := |cages| - 1;
    var last := cages[n];
    assert forall k :: 0 <= k < n ==> cages[..n][k] == cages[k];
    assert OffPaletteCages(cages, palette) ==
      OffPaletteCages(cages[..n], palette) + (if last.color in palette then {} else {n});
    assert n !in OffPaletteCages(cages[..n], palette);
  }

  /** The index list is ascending and holds exactly the infeasible cages. */
  lemma {:induction false} InfeasibleIndicesExact(cages: seq<Cage>)
    ensures forall a, b :: 0 <= a < b < |InfeasibleIndices(cages)| ==>
      InfeasibleIndices(cages)[a] < InfeasibleIndices(cages)[b]
    ensures Elems(InfeasibleIndices(cages)) == InfeasibleCages(cages)
  {
    if cages != [] {
      var n := |cages| - 1;
      InfeasibleIndicesExact(cages[..n]);
      assert forall k :: 0 <= k < n ==> cages[..n][k] == cages[k];
      assert InfeasibleCages(cages) ==
        InfeasibleCages(cages[..n]) + (if Feasible(|cages[n].cells|, cages[n].sum) then {} else {n});
    }
  }

  /** The index list is ascending and holds exactly the off-palette cages. */
  lemma {:induction false} OffPaletteIndicesExact(cages: seq<Cage>, palette: seq<string>)
    ensures forall a, b :: 0 <= a < b < |OffPaletteIndices(cages, palette)| ==>
      OffPaletteIndices(cages, palette)[a] < OffPaletteIndices(cages, palette)[b]
    ensures Elems(OffPaletteIndices(cages, palette)) == OffPaletteCages(cages, palette)
  {
    if cages != [] {
      var n := |cages| - 1;
      OffPaletteIndicesExact(cages[..n], palette);
      assert forall k :: 0 <= k < n ==> cages[..n][k] == cages[k];
      assert OffPaletteCages(cages, palette) ==
        OffPaletteCages(cages[..n], palette) + (if cages[n].color in palette then {} else {n});
    }
  }

  /** No check is skipped because an earlier one failed: the error list is
      empty exactly when the level meets every requirement. */
  lemma ExpectedKindsEmptyIffSound(level: Level)
    requires GridsShaped(level)
    ensures ExpectedKinds(level) == [] <==> LevelSound(level)
  {
    CageSumKindsCount(level.cages);
    ColorKindsCount(level.cages, ValidColors);
  }

  /** How many times kind `k` occurs in `ks`. */
  function Count(ks: seq<ErrorType>, k: ErrorType): nat
  {
    if ks == [] then 0 else (if ks[0] == k then 1 else 0) + Count(ks[1..], k)
  }

  lemma {:induction false} CountAppend(a: seq<ErrorType>, b: seq<ErrorType>, k: ErrorType)
    ensures Count(a + b, k) == Count(a, k) + Count(b, k)
  {
    if a != [] {
      assert (a + b)[1..] == a[1..] + b;
      CountAppend(a[1..], b, k);
    } else {
      assert a + b == b;
    }
  }

  /** A sequence holding only `k` counts `k` once per entry. */
  lemma {:induction false} OnlyKind(ks: seq<ErrorType>, k: ErrorType)
    requires forall t :: t in ks ==> t == k
    ensures Count(ks, k) == |ks|
    ensures forall t :: t != k ==> Count(ks, t) == 0
  {
    if ks != [] {
      assert ks[0] in ks;
      assert forall t :: t in ks[1..] ==> t in ks;
      OnlyKind(ks[1..], k);
    }
  }

  /** How many errors of each kind a level draws: one per infeasible cage,
      one per off-palette cage, at most one of every other kind; a missing
      and an invalid solution never both; a givens mismatch only when both
      grids are present. */
  lemma ErrorCounts(level: Level)
    requires GridsShaped(level)
    ensures Count(ExpectedKinds(level), InvalidCageSum) == |InfeasibleCages(level.cages)|
    ensures Count(ExpectedKinds(level), InvalidColor) == |OffPaletteCages(level.cages, ValidColors)|
    ensures Count(ExpectedKinds(level), OverlappingCages) <= 1
    ensures Count(ExpectedKinds(level), UncoveredCells) <= 1
    ensures Count(ExpectedKinds(level), AdjacentSameColor) <= 1
    ensures Count(ExpectedKinds(level), MissingSolution) + Count(ExpectedKinds(level), InvalidSolution) <= 1
    ensures Count(ExpectedKinds(level), MissingInitialValues) + Count(ExpectedKinds(level), InitialValuesMismatch) <= 1
    ensures Count(ExpectedKinds(level), InitialValuesMismatch) > 0 ==> level.initialValues.Some? && level.solution.Some?
  {
    ListKindCount(level, InvalidCageSum);
    ListKindCount(level, InvalidColor);
    ListKindCount(level, OverlappingCages);
    ListKindCount(level, UncoveredCells);
    ListKindCount(level, AdjacentSameColor);
    GridKindCounts(level);
  }

  /** The counts of the kinds the cage checks draw. */
  lemma ListKindCount(level: Level, k: ErrorType)
    requires GridsShaped(level)
    requires k == InvalidCageSum || k == InvalidColor || k == OverlappingCages || k == UncoveredCells || k == AdjacentSameColor
    ensures k == InvalidCageSum ==> Count(ExpectedKinds(level), k) == |InfeasibleCages(level.cages)|
    ensures k == InvalidColor ==> Count(ExpectedKinds(level), k) == |OffPaletteCages(level.cages, ValidColors)|
    ensures k != InvalidCageSum && k != InvalidColor ==> Count(ExpectedKinds(level), k) <= 1
  {
    KindCount(level, k);
    PerCageCounts(level.cages, k);
    OnceCounts(level.cages, k);
    GridKindsElsewhere(level, k);
  }

  /** The solution and givens checks draw none of the cage checks' kinds. */
  lemma GridKindsElsewhere(level: Level, k: ErrorType)
    requires GridsShaped(level)
    requires k != MissingSolution && k != InvalidSolution && k != MissingInitialValues && k != InitialValuesMismatch
    ensures Count(SolutionKinds(level), k) == 0 && Count(GivensKinds(level), k) == 0
  {
    SolutionAndGivensCounts(level);
  }

  /** The counts of the kinds the solution and givens checks draw. */
  lemma GridKindCounts(level: Level)
    requires GridsShaped(level)
    ensures Count(ExpectedKinds(level), MissingSolution) + Count(ExpectedKinds(level), InvalidSolution) <= 1
    ensures Count(ExpectedKinds(level), MissingInitialValues) + Count(ExpectedKinds(level), InitialValuesMismatch) <= 1
    ensures Count(ExpectedKinds(level), InitialValuesMismatch) > 0 ==> level.initialValues.Some? && level.solution.Some?
  {
    GridKindCount(level, MissingSolution);
    GridKindCount(level, InvalidSolution);
    GridKindCount(level, MissingInitialValues);
    GridKindCount(level, InitialValuesMismatch);
    SolutionAndGivensCounts(level);
  }

  lemma GridKindCount(level: Level, k: ErrorType)
    requires GridsShaped(level)
    requires k in {MissingSolution, InvalidSolution, MissingInitialValues, InitialValuesMismatch}
    ensures Count(ExpectedKinds(level), k) == Count(SolutionKinds(level), k) + Count(GivensKinds(level), k)
  {
    KindCount(level, k);
    PerCageCounts(level.cages, k);
    OnceCounts(level.cages, k);
  }

  /** The count of one kind, part by part. */
  lemma KindCount(level: Level, k: ErrorType)
    requires GridsShaped(level)
    ensures Count(ExpectedKinds(level), k) ==
      Count(CageSumKinds(level.cages), k) + Count(OverlapKinds(level.cages), k) +
      Count(CoverageKinds(level.cages), k) + Count(SolutionKinds(level), k) + Count(GivensKinds(level), k) +
      Count(AdjacencyKinds(level.cages), k) + Count(ColorKinds(level.cages, ValidColors), k)
  {
    CountParts(CageSumKinds(level.cages), OverlapKinds(level.cages), CoverageKinds(level.cages),
      SolutionKinds(level), GivensKinds(level), AdjacencyKinds(level.cages), ColorKinds(level.cages, ValidColors), k);
  }

  /** The per-cage checks count one error per failing cage. */
  lemma PerCageCounts(cages: seq<Cage>, k: ErrorType)
    ensures Count(CageSumKinds(cages), k) == if k == InvalidCageSum then |InfeasibleCages(cages)| else 0
    ensures Count(ColorKinds(cages, ValidColors), k) == if k == InvalidColor then |OffPaletteCages(cages, ValidColors)| else 0
  {
    CageSumKindsCount(cages);
    ColorKindsCount(cages, ValidColors);
    OnlyKind(CageSumKinds(cages), InvalidCageSum);
    OnlyKind(ColorKinds(cages, ValidColors), InvalidColor);
  }

  /** The whole-board cage checks draw at most one error each. */
  lemma OnceCounts(cages: seq<Cage>, k: ErrorType)
    ensures Count(OverlapKinds(cages), k) <= if k == OverlappingCages then 1 else 0
    ensures Count(CoverageKinds(cages), k) <= if k == UncoveredCells then 1 else 0
    ensures Count(AdjacencyKinds(cages), k) <= if k == AdjacentSameColor then 1 else 0
  {
    OnlyKind(OverlapKinds(cages), OverlappingCages);
    OnlyKind(CoverageKinds(cages), UncoveredCells);
    OnlyKind(AdjacencyKinds(cages), AdjacentSameColor);
  }

  lemma SolutionAndGivensCounts(level: Level)
    requires GridsShaped(level)
    ensures Count(SolutionKinds(level), MissingSolution) + Count(SolutionKinds(level), InvalidSolution) <= 1
    ensures forall k :: k != MissingSolution && k != InvalidSolution ==> Count(SolutionKinds(level), k) == 0
    ensures Count(GivensKinds(level), MissingInitialValues) + Count(GivensKinds(level), InitialValuesMismatch) <= 1
    ensures forall k :: k != MissingInitialValues && k != InitialValuesMismatch ==> Count(GivensKinds(level), k) == 0
    ensures Count(GivensKinds(level), InitialValuesMismatch) > 0 ==> level.initialValues.Some? && level.solution.Some?
  {
    var so, gv := SolutionKinds(level), GivensKinds(level);
    assert so == [] || so == [MissingSolution] || so == [InvalidSolution];
    assert gv == [] || gv == [MissingInitialValues] || gv == [InitialValuesMismatch];
    assert Count([], MissingSolution) == 0;
  }

  /** Counting over the seven parts of the error list, one after another. */
  lemma CountParts(cs: seq<ErrorType>, ov: seq<ErrorType>, cv: seq<ErrorType>, so: seq<ErrorType>,
                   gv: seq<ErrorType>, ad: seq<ErrorType>, cl: seq<ErrorType>, k: ErrorType)
    ensures Count(cs + ov + cv + so + gv + ad + cl, k) ==
      Count(cs, k) + Count(ov, k) + Count(cv, k) + Count(so, k) + Count(gv, k) + Count(ad, k) + Count(cl, k)
  {
    CountAppend(cs, ov, k);
    CountAppend(cs + ov, cv, k);
    CountAppend(cs + ov + cv, so, k);
    CountAppend(cs + ov + cv + so, gv, k);
    CountAppend(cs + ov + cv + so + gv, ad, k);
    CountAppend(cs + ov + cv + so + gv + ad, cl, k);
  }

  /** A level that passes, and whose cages stay on the board, has cages
      that partition the 81 positions. */
  lemma SoundLevelPartitions(level: Level)
    requires GridsShaped(level) && LevelSound(level) && CagesInGrid(level.cages)
    ensures Partitions(level.cages)
  {
    var flat := Flatten(level.cages);
    forall c ensures c in Elems(flat) <==> c in AllCells() {
      InAllCells(c);
      InFlatten(level.cages, c);
    }
  }
}
