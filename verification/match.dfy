/** A match between two players (src/Santorini/Match.cs): registration,
    worker placement, move-then-build turns with a history, and the
    GameIsOver flag. */
module Matches {
  import opened Wrappers
  import opened Coords
  import opened Towers
  import opened Pieces
  import opened Lands
  import opened Islands
  import opened Workers
  import opened Players
  import opened Commands

  datatype Match = Match(island: Island, players: seq<Player>, history: seq<MoveCommand>, gameIsOver: bool)

  // ----- names -----

  function FoldChar(ch: char): char
  {
    if 'A' <= ch <= 'Z' then (ch as int - 'A' as int + 'a' as int) as char else ch
  }

  /** The case folding behind StringComparison.InvariantCultureIgnoreCase,
      taken as ASCII lower-casing. */
  function Fold(s: string): (r: string)
    ensures |r| == |s|
  {
    seq(|s|, k requires 0 <= k < |s| => FoldChar(s[k]))
  }

  /** Names that registration and placement treat as the same player. */
  predicate SameName(a: string, b: string)
  {
    Fold(a) == Fold(b)
  }

  /** `Players.SingleOrDefault(p => p.Name.Equals(name, ...IgnoreCase))`. */
  function FindPlayerIgnoreCase(ps: seq<Player>, name: string): (r: Option<Player>)
    ensures r.Some? ==> r.value in ps && SameName(r.value.name, name)
    ensures r.None? ==> forall p :: p in ps ==> !SameName(p.name, name)
  {
    if |ps| == 0 then None
    else if SameName(ps[0].name, name) then Some(ps[0])
    else FindPlayerIgnoreCase(ps[1..], name)
  }

  /** `Players.SingleOrDefault(p => p.Name == name)`: exact comparison. */
  function FindPlayerExact(ps: seq<Player>, name: string): (r: Option<Player>)
    ensures r.Some? ==> r.value in ps && r.value.name == name
    ensures r.None? ==> forall p :: p in ps ==> p.name != name
  {
    if |ps| == 0 then None
    else if ps[0].name == name then Some(ps[0])
    else FindPlayerExact(ps[1..], name)
  }

  // ----- the invariant every reachable match keeps -----

  /** A registered player: non-empty name, workers 1 and 2 of its own. */
  predicate WellBuilt(p: Player)
  {
    p.name != "" && p.workers == [WorkerId(p.name, 1), WorkerId(p.name, 2)]
  }

  ghost predicate Inv(m: Match)
  {
    && WellFormed(m.island)
    && TowersValid(m.island)
    && WorkersUnique(m.island)
    && |m.players| <= 2
    && (forall p :: p in m.players ==> WellBuilt(p))
    && (forall a, b :: 0 <= a < b < |m.players| ==> !SameName(m.players[a].name, m.players[b].name))
    && (forall c :: IsValid(c) && Board(m.island, c).worker.Some? ==>
          exists p :: p in m.players && Board(m.island, c).worker.value in p.workers)
  }

  /** `new Match()`. */
  function NewMatch(): (m: Match)
    ensures Inv(m)
    ensures m.players == [] && m.history == [] && !m.gameIsOver
    ensures forall c :: IsValid(c) ==> Board(m.island, c) == Land(c, None, None)
  {
    var m := Match(NewIsland(), [], [], false);
    assert WorkersUnique(m.island) by {
      forall c | IsValid(c) {
        NewIslandIsEmpty(c);
      }
    }
    m
  }

  // ----- registration -----

  /** Match.TryAddPlayer. At most two players, names unique ignoring case; a
      new name is appended. A null or empty name that gets past both checks
      reaches the Player constructor, which throws. */
  function TryAddPlayer(m: Match, name: Option<string>): (r: Outcome<(bool, Match)>)
    ensures |m.players| >= 2 ==> r == Returned((false, m))
    ensures name.Some? && (exists p :: p in m.players && SameName(p.name, name.value)) ==> r == Returned((false, m))
    ensures r.Threw? <==>
      |m.players| < 2 && IsNullOrEmpty(name) && !(name.Some? && exists p :: p in m.players && SameName(p.name, name.value))
    ensures r.Returned? && !r.value.0 ==> r.value.1 == m
    ensures r.Returned? && r.value.0 ==>
      && |m.players| < 2
      && !IsNullOrEmpty(name)
      && (forall p :: p in m.players ==> !SameName(p.name, name.value))
      && r.value.1 == m.(players := m.players + [NewPlayer(name).value])
    ensures |m.players| < 2 && !IsNullOrEmpty(name) && (forall p :: p in m.players ==> !SameName(p.name, name.value)) ==>
      r == Returned((true, m.(players := m.players + [NewPlayer(name).value])))
    ensures r.Returned? ==> |r.value.1.players| <= 2 || r.value.1 == m
  {
    if |m.players| >= 2 then Returned((false, m))
    else if name.Some? && FindPlayerIgnoreCase(m.players, name.value).Some? then Returned((false, m))
    else
      match NewPlayer(name)
      case Threw(e) => Threw(e)
      case Returned(p) => Returned((true, m.(players := m.players + [p])))
  }

  lemma TryAddPlayerKeepsInv(m: Match, name: Option<string>)
    requires Inv(m)
    ensures TryAddPlayer(m, name).Returned? ==> Inv(TryAddPlayer(m, name).value.1)
  {
    var r := TryAddPlayer(m, name);
    if r.Returned? && r.value.0 {
      var added := NewPlayer(name).value;
      assert WellBuilt(added);
      AppendedPlayerKeepsInv(m, added);
    }
  }

  /** Appending a well-built player whose name clashes with no registered
      one, while fewer than two are registered, keeps the invariant. */
  lemma AppendedPlayerKeepsInv(m: Match, q: Player)
    requires Inv(m) && |m.players| < 2 && WellBuilt(q)
    requires forall p :: p in m.players ==> !SameName(p.name, q.name)
    ensures Inv(m.(players := m.players + [q]))
  {
    var m' := m.(players := m.players + [q]);
    forall p | p in m'.players
      ensures WellBuilt(p)
    {
      assert p in m.players || p == q;
    }
    forall a, b | 0 <= a < b < |m'.players|
      ensures !SameName(m'.players[a].name, m'.players[b].name)
    {
      if b == |m.players| {
        assert m'.players[a] in m.players;
      }
    }
    forall c | IsValid(c) && Board(m'.island, c).worker.Some?
      ensures exists p :: p in m'.players && Board(m'.island, c).worker.value in p.workers
    {
      var p :| p in m.players && Board(m.island, c).worker.value in p.workers;
      assert p in m'.players;
    }
  }

  // ----- placement -----

  /** The opponents' workers in a scan: those whose owner's name differs from
      `name` ignoring case. */
  function CountOpponents(ws: seq<WorkerId>, name: string): (n: nat)
    ensures n <= |ws|
  {
    if |ws| == 0 then 0
    else (if SameName(ws[0].player, name) then 0 else 1) + CountOpponents(ws[1..], name)
  }

  /** Match.TryAddWorker. Refused unless exactly two players are registered,
      the player (ignoring case) and its worker exist, the worker is not yet on
      the board, and the opponent does not have exactly one worker on the
      board; then Island.TryAddPiece decides. */
  function TryAddWorker(m: Match, playerName: string, number: int, x: int, y: int): (r: (bool, Match))
    requires WellFormed(m.island)
    ensures !r.0 ==> r.1 == m
    ensures r.0 ==>
      && |m.players| == 2
      && FindPlayerIgnoreCase(m.players, playerName).Some?
      && var p := FindPlayerIgnoreCase(m.players, playerName).value;
         && WorkerNumbered(p, number).Some?
         && var w := WorkerNumbered(p, number).value;
            && Locate(m.island, w).None?
            && CountOpponents(GetAllWorkers(m.island), playerName) != 1
            && r.1 == m.(island := TryAddPiece(m.island, WorkerPiece(w, None), x, y).island)
            && IsValidPosition(x, y)
            && Board(r.1.island, Coord(x, y)) == Board(m.island, Coord(x, y)).(worker := Some(w))
            && Board(m.island, Coord(x, y)).worker.None?
    ensures r.0 ==> forall d :: IsValid(d) && d != Coord(x, y) ==> Board(r.1.island, d) == Board(m.island, d)
    ensures |m.players| != 2 ==> !r.0
    ensures
      && |m.players| == 2
      && FindPlayerIgnoreCase(m.players, playerName).Some?
      && WorkerNumbered(FindPlayerIgnoreCase(m.players, playerName).value, number).Some?
      && Locate(m.island, WorkerNumbered(FindPlayerIgnoreCase(m.players, playerName).value, number).value).None?
      && CountOpponents(GetAllWorkers(m.island), playerName) != 1
      ==> (r.0 <==> IsValidPosition(x, y) && Board(m.island, Coord(x, y)).worker.None?)
  {
    if |m.players| != 2 then (false, m)
    else match FindPlayerIgnoreCase(m.players, playerName)
      case None => (false, m)
      case Some(p) =>
        match WorkerNumbered(p, number)
        case None => (false, m)
        case Some(w) =>
          if Locate(m.island, w).Some? then (false, m)
          else if CountOpponents(GetAllWorkers(m.island), playerName) == 1 then (false, m)
          else
            var add := TryAddPiece(m.island, WorkerPiece(w, None), x, y);
            AddUnplacedWorker(m.island, w, x, y);
            (add.ok, if add.ok then m.(island := add.island) else m)
  }

  /** Island.TryAddPiece with a worker that stands nowhere: it succeeds
      exactly on a free on-board land, which then holds the worker. */
  lemma AddUnplacedWorker(i: Island, w: WorkerId, x: int, y: int)
    requires WellFormed(i)
    ensures var add := TryAddPiece(i, WorkerPiece(w, None), x, y);
      && (add.ok <==> IsValidPosition(x, y) && Board(i, Coord(x, y)).worker.None?)
      && (add.ok ==> Board(add.island, Coord(x, y)) == Board(i, Coord(x, y)).(worker := Some(w)))
  {
  }

  lemma TryAddWorkerKeepsInv(m: Match, playerName: string, number: int, x: int, y: int)
    requires Inv(m)
    ensures Inv(TryAddWorker(m, playerName, number, x, y).1)
  {
    var r := TryAddWorker(m, playerName, number, x, y);
    if r.0 {
      var p := FindPlayerIgnoreCase(m.players, playerName).value;
      var w := WorkerNumbered(p, number).value;
      PlacedWorkerKeepsInv(m, p, w, Coord(x, y), r.1.island);
    }
  }

  /** Putting a registered player's worker, which stood nowhere, on a free
      land and changing nothing else keeps the invariant. */
  lemma PlacedWorkerKeepsInv(m: Match, p: Player, w: WorkerId, at: Coord, i': Island)
    requires Inv(m) && p in m.players && w in p.workers && IsValid(at)
    requires forall c :: IsValid(c) ==> Board(m.island, c).worker != Some(w)
    requires WellFormed(i')
    requires Board(i', at) == Board(m.island, at).(worker := Some(w))
    requires forall d :: IsValid(d) && d != at ==> Board(i', d) == Board(m.island, d)
    ensures Inv(m.(island := i'))
  {
    var i := m.island;
    UpdateKeepsTowersValid(i, at, i');
    PlacedWorkerKeepsUnique(i, i', w, at);
    forall c | IsValid(c) && Board(i', c).worker.Some?
      ensures exists q :: q in m.players && Board(i', c).worker.value in q.workers
    {
      if c == at {
        assert p in m.players && w in p.workers;
      } else {
        assert Board(i', c) == Board(i, c);
      }
    }
    NewIslandKeepsInv(m, m.(island := i'));
  }

  /** Putting a worker that stood nowhere on a free land keeps workers
      unique. */
  lemma PlacedWorkerKeepsUnique(i: Island, j: Island, w: WorkerId, at: Coord)
    requires WellFormed(i) && WellFormed(j) && WorkersUnique(i) && IsValid(at)
    requires forall c :: IsValid(c) ==> Board(i, c).worker != Some(w)
    requires Board(j, at).worker == Some(w)
    requires forall d :: IsValid(d) && d != at ==> Board(j, d) == Board(i, d)
    ensures WorkersUnique(j)
  {
  }

  // ----- turns -----

  /** Match.IsMoveCommandAllowed: a valid command of a registered player
      (exact name) naming one of its workers, whose destination is free and
      whose build target is free or the worker's current land. */
  predicate IsMoveCommandAllowed(m: Match, cmd: MoveCommand)
    requires WellFormed(m.island)
  {
    && MoveIsValid(cmd)
    && FindPlayerExact(m.players, cmd.playerName.value).Some?
    && var p := FindPlayerExact(m.players, cmd.playerName.value).value;
       && WorkerNumbered(p, cmd.workerNumber).Some?
       && var w := WorkerNumbered(p, cmd.workerNumber).value;
          && IsUnoccupied(Board(m.island, cmd.moveTo))
          && (IsUnoccupied(Board(m.island, cmd.buildAt)) || Locate(m.island, w) == Some(cmd.buildAt))
  }

  /** A worker stands on this land's level-3 tower. */
  predicate OnLevelThree(l: Land)
  {
    l.worker.Some? && l.tower == Some(Tower(3))
  }

  /** A land whose worker stands on a level-3 tower, from index k on. */
  predicate WinnerFrom(lands: seq<Land>, k: nat)
    requires k <= |lands|
    decreases |lands| - k
  {
    k < |lands| &&
    (OnLevelThree(lands[k]) || WinnerFrom(lands, k + 1))
  }

  /** Some worker stands on a level-3 tower. */
  ghost predicate SomeoneOnLevelThree(i: Island)
    requires WellFormed(i)
  {
    exists c :: IsValid(c) && OnLevelThree(Board(i, c))
  }

  lemma {:induction false} WinnerFromMeans(lands: seq<Land>, k: nat)
    requires k <= |lands|
    ensures WinnerFrom(lands, k) <==>
      exists j :: k <= j < |lands| && OnLevelThree(lands[j])
    decreases |lands| - k
  {
    if k < |lands| {
      WinnerFromMeans(lands, k + 1);
    }
  }

  /** Match.AssertGameIsOver: once over, always over; otherwise over exactly
      when some worker stands on a level-3 tower. */
  function AssertGameIsOver(i: Island, over: bool): (r: bool)
    requires WellFormed(i)
    ensures r <==> over || SomeoneOnLevelThree(i)
  {
    WinnerFromMeans(i.lands, 0);
    LevelThreeByIndex(i);
    if over then true else WinnerFrom(i.lands, 0)
  }

  /** SomeoneOnLevelThree in terms of the land sequence. */
  lemma LevelThreeByIndex(i: Island)
    requires WellFormed(i)
    ensures SomeoneOnLevelThree(i) <==>
      exists j :: 0 <= j < |i.lands| && OnLevelThree(i.lands[j])
  {
    if exists j :: 0 <= j < |i.lands| && OnLevelThree(i.lands[j]) {
      var j :| 0 <= j < |i.lands| && OnLevelThree(i.lands[j]);
      IndexRoundTrip(Coord(0, 0), j);
      assert Board(i, CoordAt(j)) == i.lands[j];
    }
    if SomeoneOnLevelThree(i) {
      var c :| IsValid(c) && OnLevelThree(Board(i, c));
      IndexRoundTrip(c, 0);
    }
  }

  /** Match.TryMoveWorker. A command that is not allowed, or whose worker is
      not on the board (exact-name lookup), is refused with nothing changed.
      Otherwise the worker moves and, if it moved, builds; the command enters
      the history only when both succeed; the game-over flag is re-evaluated
      whether or not they did. */
  function TryMoveWorker(m: Match, cmd: MoveCommand): (r: (bool, Match))
    requires WellFormed(m.island)
    ensures WellFormed(r.1.island) && r.1.players == m.players
    ensures !IsMoveCommandAllowed(m, cmd) ==> r == (false, m)
    ensures IsMoveCommandAllowed(m, cmd) && GetWorker(m.island, cmd.playerName.value, cmd.workerNumber).None? ==> r == (false, m)
    ensures r.1.history == if r.0 then m.history + [cmd] else m.history
    ensures m.gameIsOver ==> r.1.gameIsOver
    ensures IsMoveCommandAllowed(m, cmd) && GetWorker(m.island, cmd.playerName.value, cmd.workerNumber).Some? ==>
      r.1.gameIsOver == (m.gameIsOver || SomeoneOnLevelThree(r.1.island))
    ensures IsMoveCommandAllowed(m, cmd) && GetWorker(m.island, cmd.playerName.value, cmd.workerNumber).Some? ==>
      var mv := TryMoveTo(m.island, Mover(m, cmd), cmd.moveTo.x, cmd.moveTo.y);
      (r.0 <==> mv.ok && TryBuildAt(mv.island, mv.worker, cmd.buildAt.x, cmd.buildAt.y).0)
    ensures r.0 ==>
      && IsMoveCommandAllowed(m, cmd)
      && GetWorker(m.island, cmd.playerName.value, cmd.workerNumber).Some?
      && var w := GetWorker(m.island, cmd.playerName.value, cmd.workerNumber).value;
         && CanMoveTo(m.island, w, cmd.moveTo.x, cmd.moveTo.y)
         && WithinOneStep(cmd.moveTo, cmd.buildAt)
    ensures IsMoveCommandAllowed(m, cmd) && GetWorker(m.island, cmd.playerName.value, cmd.workerNumber).Some? ==>
      r.1.island == AfterTurn(m.island, Mover(m, cmd), cmd.moveTo, cmd.buildAt)
  {
    if !IsMoveCommandAllowed(m, cmd) then (false, m)
    else match GetWorker(m.island, cmd.playerName.value, cmd.workerNumber)
      case None => (false, m)
      case Some(w) =>
        var mv := TryMoveTo(m.island, w, cmd.moveTo.x, cmd.moveTo.y);
        var built := if mv.ok then TryBuildAt(mv.island, mv.worker, cmd.buildAt.x, cmd.buildAt.y) else (false, mv.island);
        var success := mv.ok && built.0;
        var island := built.1;
        var m' := Match(island, m.players,
                        if success then m.history + [cmd] else m.history,
                        AssertGameIsOver(island, m.gameIsOver));
        (success, m')
  }


  /** The worker a command moves, when TryMoveWorker gets as far as moving. */
  function Mover(m: Match, cmd: MoveCommand): Worker
    requires WellFormed(m.island) && IsMoveCommandAllowed(m, cmd)
    requires GetWorker(m.island, cmd.playerName.value, cmd.workerNumber).Some?
  {
    GetWorker(m.island, cmd.playerName.value, cmd.workerNumber).value
  }

  /** A successful turn: the worker stepped from its land to the destination
      (adjacent, at most one level up, free), the build target next to the
      destination grew by one level, and no other land changed. */
  lemma SuccessfulTurn(m: Match, cmd: MoveCommand)
    requires Inv(m)
    requires TryMoveWorker(m, cmd).0
    ensures
      var i, i' := m.island, TryMoveWorker(m, cmd).1.island;
      var w := Mover(m, cmd);
      var from := w.currentLand.value;
      && WithinOneStep(from, cmd.moveTo) && from != cmd.moveTo
      && IsUnoccupied(Board(i, cmd.moveTo))
      && LandLevel(Board(i, cmd.moveTo)) <= LandLevel(Board(i, from)) + 1
      && Board(i', cmd.moveTo).worker == Some(w.id)
      && Board(i', from).worker.None?
      && WithinOneStep(cmd.moveTo, cmd.buildAt) && cmd.buildAt != cmd.moveTo
      && LandLevel(Board(i', cmd.buildAt)) == LandLevel(Board(i, cmd.buildAt)) + 1
      && (forall d :: IsValid(d) && d != cmd.buildAt ==> Board(i', d).tower == Board(i, d).tower)
      && (forall d :: IsValid(d) && d != from && d != cmd.moveTo ==> Board(i', d).worker == Board(i, d).worker)
  {
    var i := m.island;
    var w := Mover(m, cmd);
    var mv := TryMoveTo(i, w, cmd.moveTo.x, cmd.moveTo.y);
    assert mv.ok;
    var built := TryBuildAt(mv.island, mv.worker, cmd.buildAt.x, cmd.buildAt.y);
    assert built.0 && TryMoveWorker(m, cmd).1.island == built.1;
    MoveThenBuild(i, w, cmd.moveTo, cmd.buildAt);
  }

  /** The turn is not atomic: when the move is legal but the build target is
      not next to the destination, false is returned although the worker has
      already moved, and the history is unchanged. */
  lemma MoveSurvivesFailedBuild(m: Match, cmd: MoveCommand)
    requires Inv(m) && IsMoveCommandAllowed(m, cmd)
    requires GetWorker(m.island, cmd.playerName.value, cmd.workerNumber).Some?
    requires CanMoveTo(m.island, Mover(m, cmd), cmd.moveTo.x, cmd.moveTo.y)
    requires !WithinOneStep(cmd.moveTo, cmd.buildAt)
    ensures !TryMoveWorker(m, cmd).0
    ensures TryMoveWorker(m, cmd).1.history == m.history
    ensures Board(TryMoveWorker(m, cmd).1.island, cmd.moveTo).worker == Some(Mover(m, cmd).id)
    ensures Board(TryMoveWorker(m, cmd).1.island, Mover(m, cmd).currentLand.value).worker.None?
  {
  }


  /** A board whose every worker is the given placed worker or stood on the
      same land in the match still has only registered players' workers. */
  lemma OwnersKept(m: Match, j: Island, id: WorkerId, at: Coord)
    requires Inv(m) && WellFormed(j) && IsValid(at)
    requires Board(m.island, at).worker == Some(id)
    requires forall d :: IsValid(d) && Board(j, d).worker.Some? ==> Board(j, d).worker in {Board(m.island, d).worker, Some(id)}
    ensures forall c :: IsValid(c) && Board(j, c).worker.Some? ==>
      exists p :: p in m.players && Board(j, c).worker.value in p.workers
  {
    forall c | IsValid(c) && Board(j, c).worker.Some?
      ensures exists p :: p in m.players && Board(j, c).worker.value in p.workers
    {
      if Board(j, c).worker == Some(id) {
        assert Board(m.island, at).worker.Some?;
      } else {
        assert Board(m.island, c).worker == Board(j, c).worker;
      }
    }
  }

  /** Every turn attempt keeps the match invariant. */
  lemma TryMoveWorkerKeepsInv(m: Match, cmd: MoveCommand)
    requires Inv(m)
    ensures Inv(TryMoveWorker(m, cmd).1)
  {
    if IsMoveCommandAllowed(m, cmd) && GetWorker(m.island, cmd.playerName.value, cmd.workerNumber).Some? {
      var w := Mover(m, cmd);
      var m2 := TryMoveWorker(m, cmd).1;
      AfterTurnKeeps(m.island, w, cmd.moveTo, cmd.buildAt);
      OwnersKept(m, m2.island, w.id, w.currentLand.value);
      NewIslandKeepsInv(m, m2);
    }
  }

  /** The invariant asks nothing of the history or the game-over flag, so a
      match with the same players on a sound island keeps it. */
  lemma NewIslandKeepsInv(m: Match, m2: Match)
    requires Inv(m) && m2.players == m.players
    requires WellFormed(m2.island) && TowersValid(m2.island) && WorkersUnique(m2.island)
    requires forall c :: IsValid(c) && Board(m2.island, c).worker.Some? ==>
      exists p :: p in m.players && Board(m2.island, c).worker.value in p.workers
    ensures Inv(m2)
  {
  }
}
