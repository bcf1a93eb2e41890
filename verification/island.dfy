/** The 5x5 board of lands (src/Santorini/Boarding/Island.cs). Lands are
    kept in the order the source's `foreach` visits its two-dimensional
    array: x-major, so the land at (x, y) sits at index 5 * x + y. */
module Islands {
  import opened Wrappers
  import opened Coords
  import opened Towers
  import opened Pieces
  import opened Lands

  const SIDE := 5
  const CELLS := 25

  datatype Island = Island(lands: seq<Land>)

  function IndexOf(c: Coord): int
  {
    SIDE * c.x + c.y
  }

  function CoordAt(k: int): Coord
  {
    Coord(k / SIDE, k % SIDE)
  }

  lemma IndexRoundTrip(c: Coord, k: int)
    ensures IsValid(c) ==> 0 <= IndexOf(c) < CELLS && CoordAt(IndexOf(c)) == c
    ensures 0 <= k < CELLS ==> IsValid(CoordAt(k)) && IndexOf(CoordAt(k)) == k
  {
  }

  /** 25 lands, each at the coordinate its index stands for. */
  ghost predicate WellFormed(i: Island)
  {
    && |i.lands| == CELLS
    && forall c :: IsValid(c) ==> 0 <= IndexOf(c) < CELLS && i.lands[IndexOf(c)].coord == c
  }

  /** Every tower on the board keeps the tower invariant. */
  predicate TowersValid(i: Island)
  {
    forall k :: 0 <= k < |i.lands| && i.lands[k].tower.Some? ==> ValidTower(i.lands[k].tower.value)
  }

  /** Board[x, y]. */
  function Board(i: Island, c: Coord): (l: Land)
    requires WellFormed(i) && IsValid(c)
    ensures l.coord == c
  {
    IndexRoundTrip(c, 0);
    i.lands[IndexOf(c)]
  }

  /** Replaces the land at `c`, which keeps its coordinate. */
  function Update(i: Island, c: Coord, l: Land): (r: Island)
    requires WellFormed(i) && IsValid(c) && l.coord == c
    ensures WellFormed(r)
    ensures Board(r, c) == l
    ensures forall d :: IsValid(d) && d != c ==> Board(r, d) == Board(i, d)
  {
    IndexRoundTrip(c, 0);
    var r := Island(i.lands[IndexOf(c) := l]);
    assert forall d :: IsValid(d) && d != c ==> IndexOf(d) != IndexOf(c) by {
      forall d | IsValid(d) && d != c
        ensures IndexOf(d) != IndexOf(c)
      {
        IndexRoundTrip(d, 0);
      }
    }
    r
  }

  function EmptyLands(k: nat): (ls: seq<Land>)
    requires k <= CELLS
    ensures |ls| == k
    ensures forall j :: 0 <= j < k ==> ls[j] == Land(CoordAt(j), None, None)
  {
    if k == 0 then [] else EmptyLands(k - 1) + [Land(CoordAt(k - 1), None, None)]
  }

  /** The Island constructor: 25 empty lands, Board[x, y] at (x, y). */
  function NewIsland(): (i: Island)
    ensures WellFormed(i) && TowersValid(i)
    ensures forall c :: IsValid(c) ==> Board(i, c) == Land(c, None, None)
  {
    var i := Island(EmptyLands(CELLS));
    assert forall c :: IsValid(c) ==> Board(i, c) == Land(c, None, None) by {
      forall c | IsValid(c)
        ensures Board(i, c) == Land(c, None, None)
      {
        IndexRoundTrip(c, 0);
      }
    }
    i
  }

  /** Island.IsUnoccupied reads the array directly: an off-board index throws,
      so callers must pass an on-board coordinate. */
  predicate IsUnoccupiedAt(i: Island, c: Coord)
    requires WellFormed(i) && IsValid(c)
  {
    IsUnoccupied(Board(i, c))
  }

  /** Island.TryGetLand: null off the board, Board[x, y] on it. */
  function TryGetLand(i: Island, x: int, y: int): (r: Option<Land>)
    requires WellFormed(i)
    ensures r.Some? <==> IsValidPosition(x, y)
    ensures r.Some? ==> r.value == Board(i, Coord(x, y)) && r.value.coord == Coord(x, y)
  {
    if !IsValidPosition(x, y) then None else Some(Board(i, Coord(x, y)))
  }

  /** A piece's back-reference always names a land of the board. */
  predicate WellPlaced(p: Piece)
  {
    p.currentLand.Some? ==> IsValid(p.currentLand.value)
  }

  /** Worker.LandLevel (also read by Land.TryPutPiece): -1 while unplaced,
      else the level of the land the piece stands on. */
  function PieceLevel(i: Island, p: Piece): (r: int)
    requires WellFormed(i) && WellPlaced(p)
    ensures p.currentLand.None? ==> r == -1
    ensures p.currentLand.Some? ==> r == LandLevel(Board(i, p.currentLand.value))
  {
    if p.currentLand.None? then -1 else LandLevel(Board(i, p.currentLand.value))
  }

  datatype AddResult = AddResult(ok: bool, island: Island, piece: Piece)

  /** Island.TryAddPiece: false and no change off the board, otherwise the
      land's own TryPutPiece decides; only that land can change. */
  function TryAddPiece(i: Island, p: Piece, x: int, y: int): (r: AddResult)
    requires WellFormed(i) && WellPlaced(p)
    ensures WellFormed(r.island) && WellPlaced(r.piece)
    ensures !IsValidPosition(x, y) ==> r == AddResult(false, i, p)
    ensures IsValidPosition(x, y) ==>
      var put := TryPutPiece(Board(i, Coord(x, y)), p, PieceLevel(i, p));
      && r.ok == put.ok && r.piece == put.piece
      && Board(r.island, Coord(x, y)) == put.land
    ensures forall d :: IsValid(d) && d != Coord(x, y) ==> Board(r.island, d) == Board(i, d)
  {
    match TryGetLand(i, x, y)
    case None => AddResult(false, i, p)
    case Some(land) =>
      var put := TryPutPiece(land, p, PieceLevel(i, p));
      AddResult(put.ok, Update(i, land.coord, put.land), put.piece)
  }

  /** Index of the first land, from index k on, that holds worker w. */
  function FindWorkerFrom(lands: seq<Land>, w: WorkerId, k: nat): (r: Option<nat>)
    requires k <= |lands|
    ensures r.Some? ==> k <= r.value < |lands| && lands[r.value].worker == Some(w)
    ensures r.Some? ==> forall j :: k <= j < r.value ==> lands[j].worker != Some(w)
    ensures r.None? ==> forall j :: k <= j < |lands| ==> lands[j].worker != Some(w)
    decreases |lands| - k
  {
    if k == |lands| then None
    else if lands[k].worker == Some(w) then Some(k)
    else FindWorkerFrom(lands, w, k + 1)
  }

  /** Where worker w stands: the first land in scan order holding it. */
  function Locate(i: Island, w: WorkerId): (r: Option<Coord>)
    requires WellFormed(i)
    ensures r.Some? ==> IsValid(r.value) && Board(i, r.value).worker == Some(w)
    ensures r.None? <==> forall c :: IsValid(c) ==> Board(i, c).worker != Some(w)
  {
    match FindWorkerFrom(i.lands, w, 0)
    case None =>
      assert forall c :: IsValid(c) ==> Board(i, c).worker != Some(w) by {
        forall c | IsValid(c)
          ensures Board(i, c).worker != Some(w)
        {
          IndexRoundTrip(c, 0);
        }
      }
      None
    case Some(k) =>
      IndexRoundTrip(Coord(0, 0), k);
      Some(CoordAt(k))
  }

  /** Island.GetWorker: the worker standing on the first land (scan order)
      whose worker's owner name equals `playerName` exactly and whose number
      is `number`; null when no land holds one. The returned worker points at
      the land it was found on. */
  function GetWorker(i: Island, playerName: string, number: int): (r: Option<Worker>)
    requires WellFormed(i)
    ensures r.Some? <==> exists c :: IsValid(c) && Board(i, c).worker == Some(WorkerId(playerName, number))
    ensures r.Some? ==>
      && r.value.id == WorkerId(playerName, number)
      && r.value.currentLand.Some? && IsValid(r.value.currentLand.value)
      && Board(i, r.value.currentLand.value).worker == Some(r.value.id)
  {
    var id := WorkerId(playerName, number);
    match Locate(i, id)
    case None => None
    case Some(c) => Some(WorkerPiece(id, Some(c)))
  }

  /** The indices, from k on and in increasing order, of the lands that
      hold a worker. */
  function OccupiedFrom(lands: seq<Land>, k: nat): (r: seq<nat>)
    requires k <= |lands|
    ensures forall t :: 0 <= t < |r| ==> k <= r[t] < |lands| && lands[r[t]].worker.Some?
    ensures forall t :: 0 < t < |r| ==> r[t - 1] < r[t]
    ensures forall j :: k <= j < |lands| && lands[j].worker.Some? ==> j in r
    decreases |lands| - k
  {
    if k == |lands| then []
    else
      var rest := OccupiedFrom(lands, k + 1);
      if lands[k].worker.Some? then
        var r := [k] + rest;
        assert forall t :: 0 < t < |r| ==> r[t] == rest[t - 1];
        r
      else rest
  }

  /** The workers of lands from index k on, in scan order: one entry per
      land that holds a worker, the t-th entry being the worker of the t-th
      such land. */
  function WorkersFrom(lands: seq<Land>, k: nat): (ws: seq<WorkerId>)
    requires k <= |lands|
    ensures |ws| <= |lands| - k
    ensures |ws| == |OccupiedFrom(lands, k)|
    ensures forall t :: 0 <= t < |ws| ==> lands[OccupiedFrom(lands, k)[t]].worker == Some(ws[t])
    decreases |lands| - k
  {
    if k == |lands| then []
    else
      var rest := WorkersFrom(lands, k + 1);
      if lands[k].worker.Some? then
        var ws := [lands[k].worker.value] + rest;
        var occ, occ' := OccupiedFrom(lands, k), OccupiedFrom(lands, k + 1);
        assert occ == [k] + occ';
        forall t | 0 < t < |ws|
          ensures lands[occ[t]].worker == Some(ws[t])
        {
          assert ws[t] == rest[t - 1] && occ[t] == occ'[t - 1];
        }
        ws
      else rest
  }

  /** A worker is listed exactly when some land from index k on holds it. */
  lemma WorkersFromMembers(lands: seq<Land>, k: nat, w: WorkerId)
    requires k <= |lands|
    ensures w in WorkersFrom(lands, k) <==> exists j :: k <= j < |lands| && lands[j].worker == Some(w)
  {
    var ws, occ := WorkersFrom(lands, k), OccupiedFrom(lands, k);
    if w in ws {
      var t :| 0 <= t < |ws| && ws[t] == w;
      assert lands[occ[t]].worker == Some(w);
    }
    if exists j :: k <= j < |lands| && lands[j].worker == Some(w) {
      var j :| k <= j < |lands| && lands[j].worker == Some(w);
      var t :| 0 <= t < |occ| && occ[t] == j;
      assert ws[t] == w;
    }
  }

  /** Island.GetAllWorkers: exactly the workers standing on the board, each
      once per land that holds it, in x-major scan order (the order of the
      land indices). */
  function GetAllWorkers(i: Island): (ws: seq<WorkerId>)
    requires WellFormed(i)
    ensures |ws| <= CELLS
    ensures |ws| == |OccupiedFrom(i.lands, 0)|
    ensures forall t :: 0 <= t < |ws| ==> i.lands[OccupiedFrom(i.lands, 0)[t]].worker == Some(ws[t])
    ensures forall w :: w in ws <==> exists c :: IsValid(c) && Board(i, c).worker == Some(w)
  {
    var ws := WorkersFrom(i.lands, 0);
    assert forall w :: w in ws <==> exists c :: IsValid(c) && Board(i, c).worker == Some(w) by {
      forall w
        ensures w in ws <==> exists c :: IsValid(c) && Board(i, c).worker == Some(w)
      {
        WorkersFromMembers(i.lands, 0, w);
        if w in ws {
          var j :| 0 <= j < |i.lands| && i.lands[j].worker == Some(w);
          IndexRoundTrip(Coord(0, 0), j);
          assert Board(i, CoordAt(j)).worker == Some(w);
        }
        if exists c :: IsValid(c) && Board(i, c).worker == Some(w) {
          var c :| IsValid(c) && Board(i, c).worker == Some(w);
          IndexRoundTrip(c, 0);
        }
      }
    }
    ws
  }

  /** No worker stands on two lands at once. */
  ghost predicate WorkersUnique(i: Island)
    requires WellFormed(i)
  {
    forall c, d :: IsValid(c) && IsValid(d) && Board(i, c).worker.Some? && Board(i, c).worker == Board(i, d).worker ==> c == d
  }

  /** A new island has no worker and no tower anywhere. */
  lemma NewIslandIsEmpty(c: Coord)
    requires IsValid(c)
    ensures IsUnoccupiedAt(NewIsland(), c)
    ensures LandLevel(Board(NewIsland(), c)) == 0 && !HasTower(Board(NewIsland(), c))
    ensures GetAllWorkers(NewIsland()) == []
    ensures WorkersUnique(NewIsland())
  {
    NoWorkersFrom(NewIsland().lands, 0);
  }

  lemma {:induction false} NoWorkersFrom(lands: seq<Land>, k: nat)
    requires k <= |lands|
    requires forall j :: k <= j < |lands| ==> lands[j].worker.None?
    ensures WorkersFrom(lands, k) == []
    decreases |lands| - k
  {
    if k < |lands| {
      NoWorkersFrom(lands, k + 1);
    }
  }
}
