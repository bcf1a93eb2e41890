/** The two commands a player can submit
    (src/Santorini/Commands/MoveCommand.cs, PlaceWorkersCommand.cs). */
module Commands {
  import opened Wrappers
  import opened Coords
  import Players

  datatype MoveCommand = MoveCommand(playerName: Option<string>, workerNumber: int, moveTo: Coord, buildAt: Coord)

  /** The MoveCommand constructor rejects null coordinates; the name and the
      number are stored unchecked. */
  function NewMoveCommand(playerName: Option<string>, workerNumber: int, moveTo: Option<Coord>, buildAt: Option<Coord>): (r: Outcome<MoveCommand>)
    ensures r.Threw? <==> moveTo.None? || buildAt.None?
    ensures r.Threw? ==> r.error == ArgumentNull
    ensures r.Returned? ==> r.value == MoveCommand(playerName, workerNumber, moveTo.value, buildAt.value)
  {
    if moveTo.None? then Threw(ArgumentNull)
    else if buildAt.None? then Threw(ArgumentNull)
    else Returned(MoveCommand(playerName, workerNumber, moveTo.value, buildAt.value))
  }

  /** MoveCommand.IsValid, checks in the source's order. */
  predicate MoveIsValid(cmd: MoveCommand)
  {
    if Players.IsNullOrEmpty(cmd.playerName) then false
    else if cmd.workerNumber < 1 || cmd.workerNumber > 2 then false
    else if Equals(cmd.moveTo, Some(cmd.buildAt)) then false
    else if !Coords.IsValid(cmd.moveTo) then false
    else Coords.IsValid(cmd.buildAt)
  }

  /** Validity is exactly the conjunction of the field checks; in particular
      it does not ask for the build target to be next to the destination. */
  lemma MoveIsValidMeans(cmd: MoveCommand)
    ensures MoveIsValid(cmd) <==>
      && cmd.playerName.Some? && cmd.playerName.value != ""
      && (cmd.workerNumber == 1 || cmd.workerNumber == 2)
      && cmd.moveTo != cmd.buildAt
      && 0 <= cmd.moveTo.x <= 4 && 0 <= cmd.moveTo.y <= 4
      && 0 <= cmd.buildAt.x <= 4 && 0 <= cmd.buildAt.y <= 4
  {
  }

  datatype PlaceWorkersCommand = PlaceWorkersCommand(workerOne: Option<Coord>, workerTwo: Option<Coord>)

  /** PlaceWorkersCommand.IsValid. The coordinates are dereferenced without a
      null check, left to right with short-circuit `&&`: a null WorkerOne, or
      a null WorkerTwo after a valid WorkerOne, throws. */
  function PlaceIsValid(cmd: PlaceWorkersCommand): (r: Outcome<bool>)
    ensures r.Threw? <==> cmd.workerOne.None? || (Coords.IsValid(cmd.workerOne.value) && cmd.workerTwo.None?)
    ensures r.Threw? ==> r.error == NullReference
    ensures r == Returned(true) ==>
      && cmd.workerOne.Some? && cmd.workerTwo.Some?
      && Coords.IsValid(cmd.workerOne.value) && Coords.IsValid(cmd.workerTwo.value)
      && cmd.workerOne.value != cmd.workerTwo.value
    ensures cmd.workerOne.Some? && cmd.workerTwo.Some? ==>
      r == Returned(Coords.IsValid(cmd.workerOne.value) && Coords.IsValid(cmd.workerTwo.value) && cmd.workerOne != cmd.workerTwo)
  {
    if cmd.workerOne.None? then Threw(NullReference)
    else if !Coords.IsValid(cmd.workerOne.value) then Returned(false)
    else if cmd.workerTwo.None? then Threw(NullReference)
    else if !Coords.IsValid(cmd.workerTwo.value) then Returned(false)
    else Returned(OpNotEquals(cmd.workerOne, cmd.workerTwo))
  }

  /** Swapping the two coordinates does not change a non-throwing verdict. */
  lemma PlaceIsValidSymmetric(a: Coord, b: Coord)
    ensures PlaceIsValid(PlaceWorkersCommand(Some(a), Some(b))) == PlaceIsValid(PlaceWorkersCommand(Some(b), Some(a)))
  {
  }
}
