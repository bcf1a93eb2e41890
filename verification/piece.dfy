/** Pieces (src/Santorini/Pieces/Piece.cs): a tower or a worker, each carrying
    the coordinate of the land it was last put on (its CurrentLand
    back-reference, None while unplaced). */
module Pieces {
  import opened Wrappers
  import opened Coords
  import opened Towers

  /** A worker is identified by its owner's name and its number. */
  datatype WorkerId = WorkerId(player: string, number: int)

  datatype Piece =
    | TowerPiece(tower: Tower, currentLand: Option<Coord>)
    | WorkerPiece(id: WorkerId, currentLand: Option<Coord>)

  type Worker = p: Piece | p.WorkerPiece? witness WorkerPiece(WorkerId("", 1), None)

  /** `new Tower()`: a level-1 tower that is not on any land yet. */
  function NewTowerPiece(): (p: Piece)
    ensures p.TowerPiece? && p.tower == NewTower() && p.currentLand.None?
  {
    TowerPiece(NewTower(), None)
  }

  /** The Worker constructor: the owner may not be null and the number must
      be at least 1; a new worker is unplaced. */
  function NewWorker(player: Option<string>, number: int): (r: Outcome<Worker>)
    ensures player.None? ==> r == Threw(ArgumentNull)
    ensures player.Some? && number <= 0 ==> r == Threw(ArgumentOutOfRange)
    ensures r.Returned? <==> player.Some? && number >= 1
    ensures r.Returned? ==> r.value.id == WorkerId(player.value, number) && r.value.currentLand.None?
  {
    if player.None? then Threw(ArgumentNull)
    else if number <= 0 then Threw(ArgumentOutOfRange)
    else Returned(WorkerPiece(WorkerId(player.value, number), None))
  }

  /** Piece.SetLand: overwrites the back-reference and nothing else. */
  function SetLand(p: Piece, land: Option<Coord>): (r: Piece)
    ensures r.currentLand == land
    ensures r.TowerPiece? == p.TowerPiece?
    ensures p.TowerPiece? ==> r.tower == p.tower
    ensures p.WorkerPiece? ==> r.id == p.id
  {
    p.(currentLand := land)
  }

  /** Worker.IsPlaced: the worker stands on some land. */
  predicate IsPlaced(w: Worker)
  {
    w.currentLand.Some?
  }

  /** Worker.Equals(Worker): same owner and same number; false against null. */
  function WorkerEquals(w: Worker, other: Option<Worker>): (r: bool)
    ensures r <==> other.Some? && other.value.id.player == w.id.player && other.value.id.number == w.id.number
  {
    other.Some? && w.id == other.value.id
  }

  /** Equality of workers ignores where they stand, and is symmetric. */
  lemma WorkerEqualityIgnoresPlacement(w: Worker, c1: Option<Coord>, c2: Option<Coord>, v: Worker)
    ensures WorkerEquals(SetLand(w, c1), Some(SetLand(w, c2)))
    ensures WorkerEquals(w, Some(v)) == WorkerEquals(v, Some(w))
  {
  }
}
