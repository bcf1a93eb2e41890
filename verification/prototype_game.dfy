/** The prototype's game object (Santorini/Game.cs): a board, players added
    by name, figures placed at height 0, turns delegated to the rules. */
module PrototypeGame {
  import opened Wrappers
  import opened Prototype
  import RuleChecker

  datatype Game = Game(board: Gameboard)

  /** `new Game()`: a fresh board. */
  function NewGame(): (g: Game)
    ensures IsGrid(g.board) && HeightsValid(g.board) && g.board.players == []
    ensures forall x, y :: 0 <= x < SIZE && 0 <= y < SIZE ==> g.board.buildings[x][y] == 0
  {
    Game(NewGameboard())
  }

  /** Game.AddPlayer: appends a new player with the name and no figures. */
  function AddPlayer(g: Game, name: string): (r: Game)
    ensures r.board.buildings == g.board.buildings
    ensures r.board.players == g.board.players + [NewPlayer(name)]
  {
    Game(Prototype.AddPlayer(g.board, NewPlayer(name)))
  }

  /** Game.AddFigure: an off-board cell throws; an unknown player
      dereferences null; otherwise the first player with the name gets a
      figure at (x, y, 0), whatever stands there and however high it is. */
  function AddFigure(g: Game, playerName: string, x: int, y: int): (r: Outcome<Game>)
    ensures !RuleChecker.PositionIsPossible(x, y, 0) ==> r == Threw(Failed)
    ensures RuleChecker.PositionIsPossible(x, y, 0) && GetPlayer(g.board, playerName).None? ==> r == Threw(NullReference)
    ensures r.Returned? <==> RuleChecker.PositionIsPossible(x, y, 0) && GetPlayer(g.board, playerName).Some?
    ensures r.Returned? ==>
      var a := PlayerIndex(g.board.players, playerName).value;
      var ps := r.value.board.players;
      && r.value.board.buildings == g.board.buildings
      && |ps| == |g.board.players|
      && (forall j :: 0 <= j < |ps| && j != a ==> ps[j] == g.board.players[j])
      && ps[a] == Prototype.AddFigure(g.board.players[a], Position(x, y, 0))
  {
    if !RuleChecker.PositionIsPossible(x, y, 0) then Threw(Failed)
    else match PlayerIndex(g.board.players, playerName)
      case None => Threw(NullReference)
      case Some(a) =>
        var p := g.board.players[a];
        Returned(Game(g.board.(players := g.board.players[a := Prototype.AddFigure(p, Position(x, y, 0))])))
  }

  /** Every player's figures are numbered 0, 1, 2, ... */
  ghost predicate AllNumberedInOrder(g: Game)
  {
    forall p :: p in g.board.players ==> NumberedInOrder(p)
  }

  /** Adding players and figures keeps every player's figures numbered in
      the order they were added. */
  lemma SetupKeepsNumbering(g: Game, name: string, x: int, y: int)
    requires AllNumberedInOrder(g)
    ensures AllNumberedInOrder(AddPlayer(g, name))
    ensures AddFigure(g, name, x, y).Returned? ==> AllNumberedInOrder(AddFigure(g, name, x, y).value)
  {
    if AddFigure(g, name, x, y).Returned? {
      var a := PlayerIndex(g.board.players, name).value;
      assert NumberedInOrder(g.board.players[a]);
    }
  }

  /** Game.TryMove: the rules applied to the game's board. */
  function TryMove(g: Game, mv: Move): (r: Outcome<(MoveResult, Game)>)
    requires IsGrid(g.board)
    ensures r.Threw? <==> RuleChecker.TryMove(g.board, mv).Threw?
    ensures r.Returned? ==>
      r.value.0 == RuleChecker.TryMove(g.board, mv).value.0 && r.value.1.board == RuleChecker.TryMove(g.board, mv).value.1
  {
    match RuleChecker.TryMove(g.board, mv)
    case Threw(e) => Threw(e)
    case Returned((result, board)) => Returned((result, Game(board)))
  }
}
