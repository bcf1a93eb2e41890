/** The prototype's rules (Santorini/RuleChecker.cs): one figure steps to a
    neighbouring cell and builds next to it, over a 5 x 5 height grid. */
module RuleChecker {
  import opened Wrappers
  import opened Prototype

  /** A cell on the board at a height a figure may stand on. */
  predicate PositionIsPossible(x: int, y: int, z: int)
  {
    0 <= x <= 4 && 0 <= y <= 4 && 0 <= z <= 3
  }

  predicate OnBoard(l: Location)
  {
    0 <= l.x < SIZE && 0 <= l.y < SIZE
  }

  function Height(b: Gameboard, l: Location): int
    requires IsGrid(b) && OnBoard(l)
  {
    b.buildings[l.x][l.y]
  }

  /** Some figure stands on `l`, leaving out figure `k` of player `a` when
      `skip` names it. */
  predicate FigureAt(ps: seq<Player>, l: Location, skip: Option<(int, int)>)
  {
    exists a, k :: 0 <= a < |ps| && 0 <= k < |ps[a].figures| && skip != Some((a, k))
      && GetLocation(ps[a].figures[k].position) == l
  }

  /** StepToPositionIsAllowed: the target is a possible position (so at
      most height 3), no figure stands there, it is within one cell on each
      axis and at most one level above the figure's height. */
  predicate StepToPositionIsAllowed(from: Position, to: Position, b: Gameboard)
    requires IsGrid(b)
  {
    && PositionIsPossible(to.x, to.y, to.z)
    && !FigureAt(b.players, GetLocation(to), None)
    && -1 <= from.x - to.x <= 1 && -1 <= from.y - to.y <= 1
    && from.z - b.buildings[to.x][to.y] >= -1
  }

  /** The figure a move names, when its player and number exist. */
  predicate Names(b: Gameboard, mv: Move)
  {
    && PlayerIndex(b.players, mv.playerName).Some?
    && 0 <= mv.figureNumber < |b.players[PlayerIndex(b.players, mv.playerName).value].figures|
  }

  function Mover(b: Gameboard, mv: Move): (f: Figure)
    requires Names(b, mv)
  {
    b.players[PlayerIndex(b.players, mv.playerName).value].figures[mv.figureNumber]
  }

  /** The step rule in plain terms: the destination is at most height 3
      and at most one level above the figure, within one cell on each axis,
      and no figure stands on it. */
  predicate CanStep(b: Gameboard, mv: Move)
    requires IsGrid(b) && Names(b, mv) && OnBoard(mv.newLocation)
  {
    var from := Mover(b, mv).position;
    var to := mv.newLocation;
    && 0 <= Height(b, to) <= 3 && Height(b, to) <= from.z + 1
    && -1 <= from.x - to.x <= 1 && -1 <= from.y - to.y <= 1
    && !FigureAt(b.players, to, None)
  }

  /** MoveIsPossible. An unknown player dereferences null; a figure number
      out of range, or a destination off the grid, indexes out of range: the
      height of the destination is read before any bounds check. */
  function MoveIsPossible(b: Gameboard, mv: Move): (r: Outcome<bool>)
    requires IsGrid(b)
    ensures PlayerIndex(b.players, mv.playerName).None? ==> r == Threw(NullReference)
    ensures PlayerIndex(b.players, mv.playerName).Some? && !Names(b, mv) ==> r == Threw(IndexOutOfRange)
    ensures Names(b, mv) && !OnBoard(mv.newLocation) ==> r == Threw(IndexOutOfRange)
    ensures r.Returned? <==> Names(b, mv) && OnBoard(mv.newLocation)
    ensures r.Returned? ==> (r.value <==> CanStep(b, mv))
  {
    match PlayerIndex(b.players, mv.playerName)
    case None => Threw(NullReference)
    case Some(a) =>
      if !(0 <= mv.figureNumber < |b.players[a].figures|) then Threw(IndexOutOfRange)
      else if !OnBoard(mv.newLocation) then Threw(IndexOutOfRange)
      else
        var from := b.players[a].figures[mv.figureNumber].position;
        var to := Position(mv.newLocation.x, mv.newLocation.y, Height(b, mv.newLocation));
        Returned(StepToPositionIsAllowed(from, to, b))
  }

  /** HasWon: the destination has height 3. */
  predicate HasWon(b: Gameboard, mv: Move)
    requires IsGrid(b) && OnBoard(mv.newLocation)
  {
    Height(b, mv.newLocation) == 3
  }

  /** The checks on the build cell alone: on the board, not the
      destination, within one cell of it on each axis, and not complete. */
  predicate BuildCellFits(b: Gameboard, mv: Move)
    requires IsGrid(b)
  {
    && OnBoard(mv.buildLocation) && mv.buildLocation != mv.newLocation
    && -1 <= mv.buildLocation.x - mv.newLocation.x <= 1 && -1 <= mv.buildLocation.y - mv.newLocation.y <= 1
    && Height(b, mv.buildLocation) != 4
  }

  /** BuildIsPossible: the build cell is on the board, is not the
      destination, is next to it, is not complete, and no figure other than
      the moving one stands there. The figure is looked up only after the
      cheaper checks pass. */
  function BuildIsPossible(b: Gameboard, mv: Move): (r: Outcome<bool>)
    requires IsGrid(b)
    ensures r.Threw? ==> !Names(b, mv)
    ensures !BuildCellFits(b, mv) ==> r == Returned(false)
    ensures BuildCellFits(b, mv) && !Names(b, mv) ==>
      r == (if PlayerIndex(b.players, mv.playerName).None? then Threw(NullReference) else Threw(IndexOutOfRange))
    ensures Names(b, mv) ==> r.Returned? && (r.value <==>
      && BuildCellFits(b, mv)
      && !FigureAt(b.players, mv.buildLocation, Some((PlayerIndex(b.players, mv.playerName).value, mv.figureNumber))))
  {
    var build, to := mv.buildLocation, mv.newLocation;
    if !PositionIsPossible(build.x, build.y, 0) || build == to then Returned(false)
    else if build.x - to.x < -1 || build.x - to.x > 1 || build.y - to.y < -1 || build.y - to.y > 1 then Returned(false)
    else if Height(b, build) == 4 then Returned(false)
    else match PlayerIndex(b.players, mv.playerName)
      case None => Threw(NullReference)
      case Some(a) =>
        if !(0 <= mv.figureNumber < |b.players[a].figures|) then Threw(IndexOutOfRange)
        else Returned(!FigureAt(b.players, build, Some((a, mv.figureNumber))))
  }

  /** DoMove: the figure moves to the destination at that cell's height and
      the build cell grows by one. */
  function DoMove(b: Gameboard, mv: Move): (r: Gameboard)
    requires IsGrid(b) && Names(b, mv) && OnBoard(mv.newLocation) && OnBoard(mv.buildLocation)
    ensures IsGrid(r)
    ensures var a := PlayerIndex(b.players, mv.playerName).value;
      && |r.players| == |b.players|
      && (forall j :: 0 <= j < |b.players| ==>
            r.players[j].name == b.players[j].name && |r.players[j].figures| == |b.players[j].figures|)
      && r.players[a].figures[mv.figureNumber]
           == Figure(Mover(b, mv).number, Position(mv.newLocation.x, mv.newLocation.y, Height(b, mv.newLocation)))
      && (forall j, k :: 0 <= j < |b.players| && 0 <= k < |b.players[j].figures| && (j, k) != (a, mv.figureNumber) ==>
            r.players[j].figures[k] == b.players[j].figures[k])
    ensures Height(r, mv.buildLocation) == Height(b, mv.buildLocation) + 1
    ensures forall l :: OnBoard(l) && l != mv.buildLocation ==> Height(r, l) == Height(b, l)
  {
    var a := PlayerIndex(b.players, mv.playerName).value;
    var p := b.players[a];
    var f := p.figures[mv.figureNumber];
    var moved := Figure(f.number, Position(mv.newLocation.x, mv.newLocation.y, Height(b, mv.newLocation)));
    var row := b.buildings[mv.buildLocation.x];
    Gameboard(
      b.buildings[mv.buildLocation.x := row[mv.buildLocation.y := row[mv.buildLocation.y] + 1]],
      b.players[a := p.(figures := p.figures[mv.figureNumber := moved])])
  }

  /** RuleChecker.TryMove: a refused step is a StepError, a step onto height
      3 wins at once without moving or building, an impossible build is a
      BuildError; only a Success changes the board. */
  function TryMove(b: Gameboard, mv: Move): (r: Outcome<(MoveResult, Gameboard)>)
    requires IsGrid(b)
    ensures r.Threw? <==> !Names(b, mv) || !OnBoard(mv.newLocation)
    ensures r.Returned? && r.value.0 != Success ==> r.value.1 == b
    ensures r.Returned? ==> IsGrid(r.value.1)
    ensures r.Returned? ==>
      && (r.value.0 == StepError <==> !CanStep(b, mv))
      && (r.value.0 == Won <==> CanStep(b, mv) && Height(b, mv.newLocation) == 3)
      && (r.value.0 == Success <==>
            CanStep(b, mv) && Height(b, mv.newLocation) != 3 && BuildIsPossible(b, mv) == Returned(true))
      && (r.value.0 == BuildError <==>
            CanStep(b, mv) && Height(b, mv.newLocation) != 3 && BuildIsPossible(b, mv) == Returned(false))
  {
    match MoveIsPossible(b, mv)
    case Threw(e) => Threw(e)
    case Returned(possible) =>
      if !possible then Returned((StepError, b))
      else if HasWon(b, mv) then Returned((Won, b))
      else match BuildIsPossible(b, mv)
        case Threw(e) => Threw(e)
        case Returned(buildable) =>
          if buildable then Returned((Success, DoMove(b, mv))) else Returned((BuildError, b))
  }

  // ----- what a turn does -----

  /** A successful turn moves exactly the named figure, to the destination
      at its height, and raises exactly the build cell by one; heights stay
      within 0..4, and no figure stands on the cell just built. */
  lemma SuccessfulMove(b: Gameboard, mv: Move)
    requires IsGrid(b)
    requires TryMove(b, mv).Returned? && TryMove(b, mv).value.0 == Success
    ensures var r := TryMove(b, mv).value.1;
      var a := PlayerIndex(b.players, mv.playerName).value;
      && |r.players| == |b.players|
      && (forall j :: 0 <= j < |b.players| ==>
            r.players[j].name == b.players[j].name && |r.players[j].figures| == |b.players[j].figures|)
      && r.players[a].figures[mv.figureNumber]
           == Figure(Mover(b, mv).number, Position(mv.newLocation.x, mv.newLocation.y, Height(b, mv.newLocation)))
      && (forall j, k :: 0 <= j < |b.players| && 0 <= k < |b.players[j].figures| && (j, k) != (a, mv.figureNumber) ==>
            r.players[j].figures[k] == b.players[j].figures[k])
      && OnBoard(mv.buildLocation)
      && Height(r, mv.buildLocation) == Height(b, mv.buildLocation) + 1
      && (forall l :: OnBoard(l) && l != mv.buildLocation ==> Height(r, l) == Height(b, l))
      && (HeightsValid(b) ==> HeightsValid(r))
      && !FigureAt(r.players, mv.buildLocation, None)
  {
    var r := TryMove(b, mv).value.1;
    var a := PlayerIndex(b.players, mv.playerName).value;
    assert r == DoMove(b, mv);
    assert BuildIsPossible(b, mv).value;
  }

  /** The figure's own cell is never a legal destination: the figure itself
      stands there. */
  lemma StepNeverStaysPut(b: Gameboard, mv: Move)
    requires IsGrid(b) && Names(b, mv) && OnBoard(mv.newLocation)
    requires GetLocation(Mover(b, mv).position) == mv.newLocation
    ensures TryMove(b, mv) == Returned((StepError, b))
  {
    assert FigureAt(b.players, mv.newLocation, None);
  }

  /** No two figures share a cell. */
  ghost predicate FiguresApart(ps: seq<Player>)
  {
    forall a, k, c, j ::
      0 <= a < |ps| && 0 <= k < |ps[a].figures| && 0 <= c < |ps| && 0 <= j < |ps[c].figures| && (a, k) != (c, j) ==>
      GetLocation(ps[a].figures[k].position) != GetLocation(ps[c].figures[j].position)
  }

  /** Every turn keeps the figures apart: a figure only steps onto a cell no
      figure holds. */
  lemma TryMoveKeepsFiguresApart(b: Gameboard, mv: Move)
    requires IsGrid(b) && FiguresApart(b.players)
    requires TryMove(b, mv).Returned?
    ensures FiguresApart(TryMove(b, mv).value.1.players)
  {
    if TryMove(b, mv).value.0 == Success {
      SuccessfulMove(b, mv);
      var r := TryMove(b, mv).value.1;
      var a := PlayerIndex(b.players, mv.playerName).value;
      var n := mv.figureNumber;
      assert !FigureAt(b.players, mv.newLocation, None);
      forall c, j, d, i | 0 <= c < |r.players| && 0 <= j < |r.players[c].figures| && 0 <= d < |r.players| && 0 <= i < |r.players[d].figures|
        && (c, j) != (d, i)
        ensures GetLocation(r.players[c].figures[j].position) != GetLocation(r.players[d].figures[i].position)
      {
        if (c, j) == (a, n) {
          assert GetLocation(b.players[d].figures[i].position) != mv.newLocation;
        } else if (d, i) == (a, n) {
          assert GetLocation(b.players[c].figures[j].position) != mv.newLocation;
        }
      }
    }
  }
}
