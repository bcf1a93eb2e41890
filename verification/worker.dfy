/** Moving and building (src/Santorini/Pieces/Worker.cs). */
module Workers {
  import opened Wrappers
  import opened Coords
  import opened Towers
  import opened Pieces
  import opened Lands
  import opened Islands

  /** Absolute value, as Math.Abs on the small differences involved. */
  function Abs(v: int): nat
  {
    if v < 0 then -v else v
  }

  /** Chebyshev neighbourhood: at most one step along each axis. */
  predicate WithinOneStep(a: Coord, b: Coord)
  {
    Abs(a.x - b.x) <= 1 && Abs(a.y - b.y) <= 1
  }

  /** IsLandBlocked: the worker's own land, a land with a worker, or a
      complete tower. */
  predicate IsLandBlocked(from: Coord, to: Land)
  {
    LandEquals(to, Some(Land(from, None, None))) || HasWorker(to) || MaxLevelReached(to)
  }

  /** The climb rule: stepping up by more than one level is refused
      (IsSteppingUp && IsClimbingMoreThen1LevelUp). */
  predicate ClimbsTooHigh(from: Land, to: Land)
  {
    LandLevel(to) > LandLevel(from) && LandLevel(to) - LandLevel(from) > 1
  }

  /** Worker.CanMoveTo. */
  predicate CanMoveTo(i: Island, w: Worker, x: int, y: int)
    requires WellFormed(i) && WellPlaced(w)
  {
    && w.currentLand.Some?
    && IsValidPosition(x, y)
    && var from := Board(i, w.currentLand.value);
       var to := Board(i, Coord(x, y));
       && !IsLandBlocked(from.coord, to)
       && WithinOneStep(from.coord, to.coord)
       && !ClimbsTooHigh(from, to)
  }

  /** The move rule in plain terms: a placed worker may step to an on-board
      land other than its own, within one step on each axis, holding no
      worker and no complete tower, at most one level above its own. */
  lemma CanMoveToMeans(i: Island, w: Worker, x: int, y: int)
    requires WellFormed(i) && WellPlaced(w)
    ensures CanMoveTo(i, w, x, y) <==>
      && w.currentLand.Some?
      && 0 <= x <= 4 && 0 <= y <= 4
      && var from := w.currentLand.value;
         var to := Board(i, Coord(x, y));
         && Coord(x, y) != from
         && to.worker.None?
         && !MaxLevelReached(to)
         && -1 <= x - from.x <= 1 && -1 <= y - from.y <= 1
         && LandLevel(to) <= LandLevel(Board(i, from)) + 1
  {
    if w.currentLand.Some? && IsValidPosition(x, y) {
      var from := Board(i, w.currentLand.value);
      var to := Board(i, Coord(x, y));
      assert from.coord == w.currentLand.value && to.coord == Coord(x, y);
      assert IsLandBlocked(from.coord, to) <==> to.coord == from.coord || to.worker.Some? || MaxLevelReached(to);
    }
  }

  datatype MoveResult = MoveResult(ok: bool, island: Island, worker: Worker)

  /** Worker.TryMoveTo: when CanMoveTo holds, take the worker off its land
      (Land.TryRemoveWorker, whose result is ignored) and put it on the target
      land (Land.TryPutPiece, whose result is returned). */
  function TryMoveTo(i: Island, w: Worker, x: int, y: int): (r: MoveResult)
    requires WellFormed(i) && WellPlaced(w)
    ensures WellFormed(r.island) && WellPlaced(r.worker) && r.worker.id == w.id
    ensures r.ok <==> CanMoveTo(i, w, x, y)
    ensures !r.ok ==> r.island == i && r.worker == w
    ensures r.ok ==>
      var from := w.currentLand.value;
      var to := Coord(x, y);
      && r.worker.currentLand == Some(to)
      && Board(r.island, to) == Board(i, to).(worker := Some(w.id))
      && Board(r.island, from).tower == Board(i, from).tower
      && Board(r.island, from).worker == (if Board(i, from).worker == Some(w.id) then None else Board(i, from).worker)
      && forall d :: IsValid(d) && d != from && d != to ==> Board(r.island, d) == Board(i, d)
  {
    if !CanMoveTo(i, w, x, y) then MoveResult(false, i, w)
    else
      var from := w.currentLand.value;
      var to := Coord(x, y);
      var removed := TryRemoveWorker(Board(i, from), w.id).1;
      var i1 := Update(i, from, removed);
      var put := TryPutPiece(Board(i1, to), w, PieceLevel(i1, w));
      MoveResult(put.ok, Update(i1, to, put.land), put.piece)
  }

  /** Worker.CanBuildAt (the worker must be placed: the source dereferences
      its current land without a null check). */
  predicate CanBuildAt(i: Island, w: Worker, x: int, y: int)
    requires WellFormed(i) && WellPlaced(w) && w.currentLand.Some?
  {
    && IsValidPosition(x, y)
    && var to := Board(i, Coord(x, y));
       && !IsLandBlocked(w.currentLand.value, to)
       && WithinOneStep(w.currentLand.value, to.coord)
  }

  /** Worker.TryBuildAt: raise an incomplete tower by one level, or else put a
      new level-1 tower. Only the target land's tower changes. */
  function TryBuildAt(i: Island, w: Worker, x: int, y: int): (r: (bool, Island))
    requires WellFormed(i) && WellPlaced(w) && w.currentLand.Some?
    ensures WellFormed(r.1)
    ensures r.0 <==> CanBuildAt(i, w, x, y)
    ensures !r.0 ==> r.1 == i
    ensures r.0 ==>
      var land := Board(i, Coord(x, y));
      && Board(r.1, Coord(x, y)).worker == land.worker
      && Board(r.1, Coord(x, y)).tower == Some(if land.tower.Some? then Tower(land.tower.value.level + 1) else Tower(1))
      && LandLevel(Board(r.1, Coord(x, y))) == LandLevel(land) + 1
      && forall d :: IsValid(d) && d != Coord(x, y) ==> Board(r.1, d) == Board(i, d)
    ensures TowersValid(i) ==> TowersValid(r.1)
  {
    if !CanBuildAt(i, w, x, y) then (false, i)
    else
      var c := Coord(x, y);
      var land := Board(i, c);
      if HasTower(land) && !IsComplete(land.tower.value) then
        var r := (true, Update(i, c, land.(tower := Some(RaiseLevel(land.tower.value).0))));
        assert TowersValid(i) ==> TowersValid(r.1) by {
          if TowersValid(i) {
            IndexRoundTrip(c, 0);
            UpdateKeepsTowersValid(i, c, r.1);
          }
        }
        r
      else
        var put := TryPutPiece(land, NewTowerPiece(), -1);
        var r := (put.ok, Update(i, c, put.land));
        assert TowersValid(i) ==> TowersValid(r.1) by {
          if TowersValid(i) {
            IndexRoundTrip(c, 0);
            UpdateKeepsTowersValid(i, c, r.1);
          }
        }
        r
  }

  /** Changing one land keeps every other tower as it was, so only that
      land's tower needs checking. */
  lemma UpdateKeepsTowersValid(i: Island, c: Coord, r: Island)
    requires WellFormed(i) && WellFormed(r) && IsValid(c)
    requires forall d :: IsValid(d) && d != c ==> Board(r, d) == Board(i, d)
    requires TowersValid(i)
    requires Board(r, c).tower.Some? ==> ValidTower(Board(r, c).tower.value)
    ensures TowersValid(r)
  {
    forall k | 0 <= k < |r.lands| && r.lands[k].tower.Some?
      ensures ValidTower(r.lands[k].tower.value)
    {
      IndexRoundTrip(c, k);
      var d := CoordAt(k);
      assert Board(r, d) == r.lands[k];
      if d != c {
        assert Board(i, d) == i.lands[k];
      }
    }
  }

  /** Moving never changes a tower. */
  lemma MoveKeepsTowers(i: Island, w: Worker, x: int, y: int)
    requires WellFormed(i) && WellPlaced(w)
    ensures forall d :: IsValid(d) ==> Board(TryMoveTo(i, w, x, y).island, d).tower == Board(i, d).tower
  {
  }

  /** A move keeps workers unique, and every worker on the new board is the
      mover or stood on that same land before. */
  lemma MoveKeepsWorkersUnique(i: Island, w: Worker, x: int, y: int)
    requires WellFormed(i) && WorkersUnique(i) && WellPlaced(w)
    requires w.currentLand.Some? && Board(i, w.currentLand.value).worker == Some(w.id)
    ensures WorkersUnique(TryMoveTo(i, w, x, y).island)
    ensures forall d :: IsValid(d) && Board(TryMoveTo(i, w, x, y).island, d).worker.Some? ==>
      Board(TryMoveTo(i, w, x, y).island, d).worker in {Board(i, d).worker, Some(w.id)}
  {
    var r := TryMoveTo(i, w, x, y);
    if r.ok {
      var from, to := w.currentLand.value, Coord(x, y);
      forall c, d | IsValid(c) && IsValid(d) && Board(r.island, c).worker.Some? && Board(r.island, c).worker == Board(r.island, d).worker
        ensures c == d
      {
        if Board(r.island, c).worker == Some(w.id) {
          assert c == to && d == to;
        }
      }
    }
  }

  /** A move followed by a build: the worker left its land for a free,
      adjacent land at most one level up, the build target next to the
      destination grew by one level, and nothing else changed. */
  lemma MoveThenBuild(i: Island, w: Worker, to: Coord, at: Coord)
    requires WellFormed(i) && WellPlaced(w) && w.currentLand.Some?
    requires Board(i, w.currentLand.value).worker == Some(w.id)
    requires TryMoveTo(i, w, to.x, to.y).ok
    requires TryBuildAt(TryMoveTo(i, w, to.x, to.y).island, TryMoveTo(i, w, to.x, to.y).worker, at.x, at.y).0
    ensures
      var mv := TryMoveTo(i, w, to.x, to.y);
      var i' := TryBuildAt(mv.island, mv.worker, at.x, at.y).1;
      var from := w.currentLand.value;
      && WithinOneStep(from, to) && from != to
      && IsUnoccupied(Board(i, to))
      && LandLevel(Board(i, to)) <= LandLevel(Board(i, from)) + 1
      && Board(i', to).worker == Some(w.id)
      && Board(i', from).worker.None?
      && WithinOneStep(to, at) && at != to
      && LandLevel(Board(i', at)) == LandLevel(Board(i, at)) + 1
      && (forall d :: IsValid(d) && d != at ==> Board(i', d).tower == Board(i, d).tower)
      && (forall d :: IsValid(d) && d != from && d != to ==> Board(i', d).worker == Board(i, d).worker)
  {
    var mv := TryMoveTo(i, w, to.x, to.y);
    CanMoveToMeans(i, w, to.x, to.y);
    MoveKeepsTowers(i, w, to.x, to.y);
    BuildKeepsWorkers(mv.island, mv.worker, at.x, at.y);
    assert mv.worker.currentLand == Some(to);
    assert Board(mv.island, at).tower == Board(i, at).tower;
  }

  /** The island after a move and, if the move succeeded, a build: towers
      stay valid, workers stay unique, and every worker on it is the mover or
      stood on that same land before. */
  function AfterTurn(i: Island, w: Worker, to: Coord, at: Coord): (r: Island)
    requires WellFormed(i) && WellPlaced(w)
    ensures WellFormed(r)
  {
    var mv := TryMoveTo(i, w, to.x, to.y);
    if mv.ok then TryBuildAt(mv.island, mv.worker, at.x, at.y).1 else mv.island
  }

  lemma AfterTurnKeeps(i: Island, w: Worker, to: Coord, at: Coord)
    requires WellFormed(i) && TowersValid(i) && WorkersUnique(i) && WellPlaced(w)
    requires w.currentLand.Some? && Board(i, w.currentLand.value).worker == Some(w.id)
    ensures TowersValid(AfterTurn(i, w, to, at)) && WorkersUnique(AfterTurn(i, w, to, at))
    ensures forall d :: IsValid(d) && Board(AfterTurn(i, w, to, at), d).worker.Some? ==>
      Board(AfterTurn(i, w, to, at), d).worker in {Board(i, d).worker, Some(w.id)}
  {
    var mv := TryMoveTo(i, w, to.x, to.y);
    var r := AfterTurn(i, w, to, at);
    MoveKeepsTowers(i, w, to.x, to.y);
    SameTowersKeepValid(i, mv.island);
    MoveKeepsWorkersUnique(i, w, to.x, to.y);
    if mv.ok {
      BuildKeepsWorkers(mv.island, mv.worker, at.x, at.y);
    }
    assert forall d :: IsValid(d) ==> Board(r, d).worker == Board(mv.island, d).worker;
    SameWorkersKeepUnique(mv.island, r);
  }

  /** Islands whose towers agree everywhere agree on TowersValid. */
  lemma SameTowersKeepValid(i: Island, j: Island)
    requires WellFormed(i) && WellFormed(j)
    requires forall d :: IsValid(d) ==> Board(j, d).tower == Board(i, d).tower
    requires TowersValid(i)
    ensures TowersValid(j)
  {
    forall k | 0 <= k < |j.lands| && j.lands[k].tower.Some?
      ensures ValidTower(j.lands[k].tower.value)
    {
      IndexRoundTrip(Coord(0, 0), k);
      assert Board(j, CoordAt(k)) == j.lands[k];
      assert Board(i, CoordAt(k)) == i.lands[k];
    }
  }

  /** Islands whose workers agree everywhere agree on WorkersUnique. */
  lemma SameWorkersKeepUnique(i: Island, j: Island)
    requires WellFormed(i) && WellFormed(j) && WorkersUnique(i)
    requires forall d :: IsValid(d) ==> Board(j, d).worker == Board(i, d).worker
    ensures WorkersUnique(j)
  {
  }

  /** Building never moves a worker. */
  lemma BuildKeepsWorkers(i: Island, w: Worker, x: int, y: int)
    requires WellFormed(i) && WellPlaced(w) && w.currentLand.Some?
    ensures forall d :: IsValid(d) ==> Board(TryBuildAt(i, w, x, y).1, d).worker == Board(i, d).worker
  {
  }

  /** Worker.LandLevel: -1 while unplaced, the land's level otherwise. */
  lemma WorkerLevel(i: Island, w: Worker)
    requires WellFormed(i) && WellPlaced(w)
    ensures PieceLevel(i, w) == if w.currentLand.None? then -1 else LandLevel(Board(i, w.currentLand.value))
  {
  }
}
