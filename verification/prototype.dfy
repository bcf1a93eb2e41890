/** The data of the older standalone prototype (Santorini/): locations,
    positions, figures, players and the height grid. */
module Prototype {
  import opened Wrappers

  /** The board's side length. */
  const SIZE := 5

  /** Location: a cell; Equals compares both coordinates. */
  datatype Location = Location(x: int, y: int)

  /** Position: a cell and a height. */
  datatype Position = Position(x: int, y: int, z: int)

  function GetLocation(p: Position): (l: Location)
    ensures l.x == p.x && l.y == p.y
  {
    Location(p.x, p.y)
  }

  /** Figure: its number and where it stands. */
  datatype Figure = Figure(number: int, position: Position)

  /** Move: the figure that moves, where it goes and where it builds. */
  datatype Move = Move(playerName: string, figureNumber: int, newLocation: Location, buildLocation: Location)

  /** The outcome of RuleChecker.TryMove. */
  datatype MoveResult = StepError | Won | BuildError | Success

  // ----- Player -----

  datatype Player = Player(name: string, figures: seq<Figure>)

  /** Figures are numbered 0, 1, 2, ... in the order they were added. */
  ghost predicate NumberedInOrder(p: Player)
  {
    forall k :: 0 <= k < |p.figures| ==> p.figures[k].number == k
  }

  /** `new Player(name)`: the name as given, no figures. */
  function NewPlayer(name: string): (p: Player)
    ensures p.name == name && p.figures == []
    ensures NumberedInOrder(p)
  {
    Player(name, [])
  }

  /** Player.AddFigure: appends a figure numbered with the previous count,
      at the position given; earlier figures are kept as they were. */
  function AddFigure(p: Player, position: Position): (r: Player)
    ensures r.name == p.name
    ensures |r.figures| == |p.figures| + 1 && r.figures[..|p.figures|] == p.figures
    ensures r.figures[|p.figures|].position == position
    ensures NumberedInOrder(p) ==> NumberedInOrder(r)
  {
    Player(p.name, p.figures + [Figure(|p.figures|, position)])
  }

  // ----- Gameboard -----

  datatype Gameboard = Gameboard(buildings: seq<seq<int>>, players: seq<Player>)

  /** The grid is always 5 rows of 5 heights: its arrays are never replaced. */
  predicate IsGrid(b: Gameboard)
  {
    |b.buildings| == SIZE && forall r :: 0 <= r < SIZE ==> |b.buildings[r]| == SIZE
  }

  /** Every height lies between 0 and 4. */
  ghost predicate HeightsValid(b: Gameboard)
    requires IsGrid(b)
  {
    forall x, y :: 0 <= x < SIZE && 0 <= y < SIZE ==> 0 <= b.buildings[x][y] <= 4
  }

  function ZeroRow(n: nat): (r: seq<int>)
    ensures |r| == n && forall k :: 0 <= k < n ==> r[k] == 0
  {
    if n == 0 then [] else ZeroRow(n - 1) + [0]
  }

  function ZeroGrid(n: nat): (g: seq<seq<int>>)
    ensures |g| == n && forall k :: 0 <= k < n ==> g[k] == ZeroRow(SIZE)
  {
    if n == 0 then [] else ZeroGrid(n - 1) + [ZeroRow(SIZE)]
  }

  /** `new Gameboard()`: 5 x 5 heights, all 0, and no players. */
  function NewGameboard(): (b: Gameboard)
    ensures IsGrid(b) && HeightsValid(b)
    ensures forall x, y :: 0 <= x < SIZE && 0 <= y < SIZE ==> b.buildings[x][y] == 0
    ensures b.players == []
  {
    Gameboard(ZeroGrid(SIZE), [])
  }

  /** Gameboard.AddPlayer: appends, with no cap and no duplicate check. */
  function AddPlayer(b: Gameboard, p: Player): (r: Gameboard)
    ensures r.buildings == b.buildings
    ensures |r.players| == |b.players| + 1
    ensures r.players[..|b.players|] == b.players && r.players[|b.players|] == p
  {
    b.(players := b.players + [p])
  }

  /** The index of the first player named exactly `name`. */
  function PlayerIndex(ps: seq<Player>, name: string): (r: Option<nat>)
    ensures r.Some? ==>
      && r.value < |ps| && ps[r.value].name == name
      && forall k :: 0 <= k < r.value ==> ps[k].name != name
    ensures r.None? ==> forall k :: 0 <= k < |ps| ==> ps[k].name != name
  {
    if |ps| == 0 then None
    else if ps[0].name == name then Some(0)
    else match PlayerIndex(ps[1..], name)
      case None => None
      case Some(k) => Some(k + 1)
  }

  /** Gameboard.GetPlayer: the first player with exactly this name, or null. */
  function GetPlayer(b: Gameboard, name: string): (r: Option<Player>)
    ensures r.Some? <==> exists k :: 0 <= k < |b.players| && b.players[k].name == name
    ensures r.Some? ==>
      && r.value.name == name
      && exists k :: (0 <= k < |b.players| && b.players[k] == r.value
           && forall j :: 0 <= j < k ==> b.players[j].name != name)
  {
    match PlayerIndex(b.players, name)
    case None => None
    case Some(k) => Some(b.players[k])
  }
}
