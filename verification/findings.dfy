/** What the search player's candidate generation does as written, set
    against the corrected generator (see README, Findings). */
module GerwinFindings {
  import opened Wrappers
  import opened Coords
  import opened Towers
  import opened Pieces
  import opened Lands
  import opened Islands
  import opened Workers
  import opened Players
  import opened Commands
  import opened Matches
  import opened Gerwin

  /** Every worker of a match carries number 1 or 2, so asking for worker 0
      finds nothing and the generator as written always throws. */
  lemma AsWrittenGenerationThrows(m: Match, name: string)
    requires Inv(m)
    ensures GenerateAllPossibleCommands(m.island, name) == Threw(NullReference)
  {
    forall c | IsValid(c) && Board(m.island, c).worker.Some?
      ensures Board(m.island, c).worker.value.number != 0
    {
      var p :| p in m.players && Board(m.island, c).worker.value in p.workers;
      assert WellBuilt(p);
    }
    assert GetWorker(m.island, name, 0).None?;
  }

  /** The corrected numbers find both workers once they are on the board. */
  lemma LegalGenerationReturns(i: Island, name: string)
    requires WellFormed(i)
    ensures GenerateLegalCommands(i, name).Returned? <==>
      && (exists c :: IsValid(c) && Board(i, c).worker == Some(WorkerId(name, 1)))
      && (exists c :: IsValid(c) && Board(i, c).worker == Some(WorkerId(name, 2)))
  {
    var r := Generate(i, Corrected, name, WORKER_NUMBERS);
    assert forall n :: n in WORKER_NUMBERS <==> n == 1 || n == 2;
    assert r.Returned? <==> GetWorker(i, name, 1).Some? && GetWorker(i, name, 2).Some?;
  }

  /** As written, every destination offered lies more than two levels above
      the worker, so the climb rule refuses every generated command. */
  lemma AsWrittenMovesAreRefused(m: Match, name: string, numbers: seq<int>, cmd: MoveCommand)
    requires WellFormed(m.island)
    requires Generate(m.island, AsWritten, name, numbers).Returned?
    requires cmd in Generate(m.island, AsWritten, name, numbers).value
    ensures !TryMoveWorker(m, cmd).0
  {
    GenerateMembers(m.island, AsWritten, name, numbers, cmd);
    var w := GetWorker(m.island, name, cmd.workerNumber).value;
    var origin := w.currentLand.value;
    assert Generated(m.island, AsWritten, name, cmd.workerNumber, origin, cmd);
    assert LevelAt(m.island, cmd.moveTo) - LevelAt(m.island, origin) > 2;
    assert !CanMoveTo(m.island, w, cmd.moveTo.x, cmd.moveTo.y);
  }

  /** Corrected, every generated command of a registered player is a turn
      the match accepts: the move and the build both succeed. */
  lemma LegalCommandsAreAccepted(m: Match, name: string, cmd: MoveCommand)
    requires Inv(m)
    requires FindPlayerExact(m.players, name).Some?
    requires GenerateLegalCommands(m.island, name).Returned?
    requires cmd in GenerateLegalCommands(m.island, name).value
    ensures TryMoveWorker(m, cmd).0
  {
    var i := m.island;
    GenerateMembers(i, Corrected, name, WORKER_NUMBERS, cmd);
    var w := GetWorker(i, name, cmd.workerNumber).value;
    GeneratedIsAllowed(m, name, w, cmd);
    GeneratedIsPlayable(i, name, w, cmd);
  }

  /** Corrected, a generated command of a registered player for a worker on
      the board passes the match's command check. */
  lemma GeneratedIsAllowed(m: Match, name: string, w: Worker, cmd: MoveCommand)
    requires Inv(m)
    requires FindPlayerExact(m.players, name).Some?
    requires cmd.workerNumber in WORKER_NUMBERS
    requires GetWorker(m.island, name, cmd.workerNumber) == Some(w)
    requires Generated(m.island, Corrected, name, cmd.workerNumber, w.currentLand.value, cmd)
    ensures IsMoveCommandAllowed(m, cmd)
  {
    var id := WorkerId(name, cmd.workerNumber);
    var p := FindPlayerExact(m.players, name).value;
    assert WellBuilt(p);
    assert MoveIsValid(cmd);
    assert WorkerNumbered(p, cmd.workerNumber) == Some(id);
    assert Locate(m.island, id) == Some(w.currentLand.value);
  }

  /** Corrected, a generated command's move succeeds and so does its build
      from the destination. */
  lemma GeneratedIsPlayable(i: Island, name: string, w: Worker, cmd: MoveCommand)
    requires WellFormed(i) && TowersValid(i) && WellPlaced(w) && w.currentLand.Some?
    requires Board(i, w.currentLand.value).worker == Some(w.id)
    requires Generated(i, Corrected, name, cmd.workerNumber, w.currentLand.value, cmd)
    ensures TryMoveTo(i, w, cmd.moveTo.x, cmd.moveTo.y).ok
    ensures
      var mv := TryMoveTo(i, w, cmd.moveTo.x, cmd.moveTo.y);
      TryBuildAt(mv.island, mv.worker, cmd.buildAt.x, cmd.buildAt.y).0
  {
    IndexRoundTrip(cmd.moveTo, 0);
    IndexRoundTrip(cmd.buildAt, 0);
    assert CanMoveTo(i, w, cmd.moveTo.x, cmd.moveTo.y);
    var mv := TryMoveTo(i, w, cmd.moveTo.x, cmd.moveTo.y);
    var target := Board(mv.island, cmd.buildAt);
    assert target.tower == Board(i, cmd.buildAt).tower;
    assert !HasWorker(target);
    assert CanBuildAt(mv.island, mv.worker, cmd.buildAt.x, cmd.buildAt.y);
  }

  /** As written, the build target is never the land the worker leaves: the
      exception for an occupied target names the destination, which is never
      its own neighbour, and the land left still holds the worker. */
  lemma AsWrittenNeverBuildsOnOrigin(i: Island, name: string, numbers: seq<int>, cmd: MoveCommand)
    requires WellFormed(i)
    requires Generate(i, AsWritten, name, numbers).Returned?
    requires cmd in Generate(i, AsWritten, name, numbers).value
    ensures IsUnoccupiedAt(i, cmd.buildAt)
    ensures cmd.buildAt != GetWorker(i, name, cmd.workerNumber).value.currentLand.value
  {
    GenerateMembers(i, AsWritten, name, numbers, cmd);
  }

  /** Corrected, the land the worker leaves is offered as a build target
      after every destination next to it, unless it is a complete tower. */
  lemma LegalGenerationOffersOrigin(i: Island, name: string, cmd: MoveCommand)
    requires WellFormed(i)
    requires GenerateLegalCommands(i, name).Returned?
    requires cmd in GenerateLegalCommands(i, name).value
    ensures var origin := GetWorker(i, name, cmd.workerNumber).value.currentLand.value;
      LevelAt(i, origin) != 4 ==> cmd.(buildAt := origin) in GenerateLegalCommands(i, name).value
  {
    var origin := GetWorker(i, name, cmd.workerNumber).value.currentLand.value;
    GenerateMembers(i, Corrected, name, WORKER_NUMBERS, cmd);
    if LevelAt(i, origin) != 4 {
      OriginIsBuildTarget(i, name, origin, cmd);
      GenerateMembers(i, Corrected, name, WORKER_NUMBERS, cmd.(buildAt := origin));
    }
  }

  /** A corrected command may build back on the land it leaves. */
  lemma OriginIsBuildTarget(i: Island, name: string, origin: Coord, cmd: MoveCommand)
    requires WellFormed(i) && IsValid(origin)
    requires Generated(i, Corrected, name, cmd.workerNumber, origin, cmd)
    requires LevelAt(i, origin) != 4
    ensures Generated(i, Corrected, name, cmd.workerNumber, origin, cmd.(buildAt := origin))
  {
    assert WithinOneStep(cmd.moveTo, origin);
  }
}
