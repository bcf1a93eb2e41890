/** The search player's minimax over matches: candidates from the corrected
    generator, successors from Match.TryMoveWorker, scores from AssesStatus. */
module GerwinSearch {
  import opened Wrappers
  import opened Islands
  import opened Commands
  import opened Matches
  import opened Gerwin
  import opened GerwinFindings
  import opened Search

  /** The name Minimize generates candidates for. */
  const OPPONENT_NAME: string := "Opponent"

  /** The candidates of the searching player (`mine`) or its opponent; a
      side whose workers are not both on the board has none. */
  ghost function Moves(m: Match, mine: bool): seq<MoveCommand>
  {
    if !WellFormed(m.island) then []
    else match GenerateLegalCommands(m.island, if mine then PLAYER_NAME else OPPONENT_NAME)
      case Returned(cs) => cs
      case Threw(_) => []
  }

  /** The match after a command, accepted or not. */
  ghost function Apply(m: Match, cmd: MoveCommand): Match
  {
    if WellFormed(m.island) then TryMoveWorker(m, cmd).1 else m
  }

  ghost function Score(m: Match): int
  {
    if WellFormed(m.island) then AssesStatus(m.island) else 0
  }

  ghost function Space(): Space<Match, MoveCommand>
  {
    Search.Space(Moves, Apply, Score)
  }

  /** The command the search records at the root is one the match accepts:
      the move and the build both succeed. */
  lemma RecordedCommandIsAccepted(m: Match)
    requires Inv(m)
    requires FindPlayerExact(m.players, PLAYER_NAME).Some?
    ensures var (_, n) := Maximize(Space(), m, SEARCH_DEPTH, None);
      n.Some? ==> TryMoveWorker(m, n.value).0
  {
    var g := Space();
    RootRecordsFirstBest(g, m, None);
    var (v, n) := Maximize(g, m, SEARCH_DEPTH, None);
    if n.Some? {
      var cs := g.moves(m, true);
      var j :| 0 <= j < |cs| && n == Some(cs[j]);
      assert GenerateLegalCommands(m.island, PLAYER_NAME).Returned?;
      LegalCommandsAreAccepted(m, PLAYER_NAME, cs[j]);
    }
  }
}
