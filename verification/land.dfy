/** One cell of the board (src/Santorini/Boarding/Land.cs). A land holds at
    most one tower and at most one worker. */
module Lands {
  import opened Wrappers
  import opened Coords
  import opened Towers
  import opened Pieces

  datatype Land = Land(coord: Coord, tower: Option<Tower>, worker: Option<WorkerId>)

  /** The Land constructor rejects coordinates off the board; a new land is empty. */
  function NewLand(x: int, y: int): (r: Outcome<Land>)
    ensures r.Returned? <==> 0 <= x <= 4 && 0 <= y <= 4
    ensures r.Threw? ==> r.error == ArgumentOutOfRange
    ensures r.Returned? ==> r.value == Land(Coord(x, y), None, None)
  {
    if !IsValidPosition(x, y) then Threw(ArgumentOutOfRange)
    else Returned(Land(Coord(x, y), None, None))
  }

  predicate HasTower(l: Land)
  {
    l.tower.Some?
  }

  predicate HasWorker(l: Land)
  {
    l.worker.Some?
  }

  /** LandLevel: the tower's level, 0 without a tower. */
  function LandLevel(l: Land): int
  {
    if HasTower(l) then l.tower.value.level else 0
  }

  predicate MaxLevelReached(l: Land)
  {
    HasTower(l) && IsComplete(l.tower.value)
  }

  predicate IsUnoccupied(l: Land)
  {
    !HasWorker(l) && !MaxLevelReached(l)
  }

  /** A land whose tower (if any) is valid is free exactly when it holds no
      worker and its level is below 4. */
  lemma UnoccupiedMeansNoWorkerBelowMax(l: Land)
    requires l.tower.Some? ==> ValidTower(l.tower.value)
    ensures IsUnoccupied(l) <==> l.worker.None? && LandLevel(l) < 4
    ensures 0 <= LandLevel(l) <= 4
  {
  }

  datatype PutResult = PutResult(ok: bool, land: Land, piece: Piece)

  /** Land.TryPutPiece. `pieceLevel` is the piece's own LandLevel (the level of
      the land it currently stands on); only a placed worker's is read.
      A tower needs a land without tower and worker; a worker needs a land
      without worker and, when it is already placed, may climb at most one
      level. Success puts the piece here and points it at this land; failure
      changes nothing. */
  function TryPutPiece(l: Land, p: Piece, pieceLevel: int): (r: PutResult)
    ensures r.ok <==>
      || (p.TowerPiece? && l.tower.None? && l.worker.None?)
      || (p.WorkerPiece? && l.worker.None? && (p.currentLand.None? || LandLevel(l) <= pieceLevel + 1))
    ensures !r.ok ==> r.land == l && r.piece == p
    ensures r.ok ==> r.piece.currentLand == Some(l.coord) && r.land.coord == l.coord
    ensures r.ok && p.TowerPiece? ==> r.land.tower == Some(p.tower) && r.land.worker == l.worker
    ensures r.ok && p.WorkerPiece? ==> r.land.worker == Some(p.id) && r.land.tower == l.tower
    ensures r.piece.TowerPiece? == p.TowerPiece?
    ensures p.WorkerPiece? ==> r.piece.id == p.id
  {
    if p.TowerPiece? && (HasTower(l) || HasWorker(l)) then PutResult(false, l, p)
    else if p.WorkerPiece? && HasWorker(l) then PutResult(false, l, p)
    else if p.WorkerPiece? && p.currentLand.Some? && LandLevel(l) > pieceLevel + 1 then PutResult(false, l, p)
    else
      var l' := if p.TowerPiece? then l.(tower := Some(p.tower)) else l.(worker := Some(p.id));
      PutResult(true, l', SetLand(p, Some(l.coord)))
  }

  /** Land.TryRemoveWorker: succeeds only for the worker standing here (same
      owner and number) and then removes just that worker, leaving the tower. */
  function TryRemoveWorker(l: Land, w: WorkerId): (r: (bool, Land))
    ensures r.0 <==> l.worker == Some(w)
    ensures r.0 ==> r.1 == Land(l.coord, l.tower, None)
    ensures !r.0 ==> r.1 == l
  {
    if !HasWorker(l) then (false, l)
    else if l.worker.value != w then (false, l)
    else (true, l.(worker := None))
  }

  /** Land.Equals(Land): by coordinate only, false against null. */
  function LandEquals(l: Land, other: Option<Land>): (r: bool)
    ensures r <==> other.Some? && other.value.coord == l.coord
  {
    match other
    case None => false
    case Some(o) => l.coord.x == o.coord.x && l.coord.y == o.coord.y
  }

  /** The `==` operator on possibly-null lands compares their coordinates. */
  function OpLandEquals(l1: Option<Land>, l2: Option<Land>): (r: bool)
    ensures l1.None? && l2.None? ==> r
    ensures l1.None? != l2.None? ==> !r
    ensures l1.Some? && l2.Some? ==> (r <==> l1.value.coord == l2.value.coord)
  {
    if l1.None? && l2.None? then true
    else if l1.None? || l2.None? then false
    else OpEquals(Some(l1.value.coord), Some(l2.value.coord))
  }

  /** Putting a worker and removing it again restores the land. */
  lemma PutThenRemoveWorker(l: Land, w: Worker, level: int)
    requires TryPutPiece(l, w, level).ok
    ensures TryRemoveWorker(TryPutPiece(l, w, level).land, w.id) == (true, l)
  {
  }
}
