# Santorini rules engine — a Dafny model

This project models the rules core of a Santorini engine: the 5×5 island of lands, towers of level 1 to 4,
workers identified by owner and number, the move and build rules, the two player commands, and the match
state machine (registration, worker placement, move-then-build turns, the game-over flag). It also covers
the pure parts of the "Gerwin" search player and the older stand-alone prototype (`RuleChecker` over a
height grid). Everything is immutable data and pure functions:

- an operation that mutates an object in the source returns a new value;
- a boolean `TryX` returns `(success, new state)`;
- an exception the source throws is an `Outcome` value `Threw(…)`;
- a null the source can receive or return is an `Option`.

## Modules

- `Wrappers`: `Option`, `Outcome` and the exception kinds.
- `Coords`: coordinate validity, the `Equals` overloads, the null-safe `==`/`!=`, and the hash code with
  explicit 32-bit wrap-around.
- `Towers`: tower levels and their raise/decrease rules.
- `Pieces`: towers and workers as pieces with a `currentLand` back-reference, which is a coordinate.
  Worker identity is `WorkerId(player name, number)`.
- `Lands`: one cell, holding at most one tower and at most one worker. Covers put/remove legality and
  equality.
- `Islands`: the board as 25 lands in the source's x-major scan order. Covers lookup, placement, worker
  lookup and listing.
- `Workers`: the move rule (adjacency, occupancy, complete towers, climbing at most one level) and the
  build rule.
- `Players`: a player and its workers 1 and 2.
- `Commands`: the move command and the place-workers command with their validators.
- `Matches`: the match state machine, with an invariant `Inv` that every operation preserves.
- `Seqs`: what a LINQ `Where` keeps (the passing elements, in their input order, stated through the
  ascending list of kept positions), and the concatenation a nested loop produces.
- `Sorting`: a stable sort by descending key, as LINQ's `OrderByDescending` orders.
- `Gerwin`: neighbour enumeration, candidate generation, the integer evaluation and the one-ply choice.
  Generation is parametrised by `Rules`: `AsWritten` is the source's filters and worker numbers,
  `Corrected` is the intended ones (see Findings).
- `GerwinFindings`: the as-written and corrected generators set side by side against the match rules.
- `Search`: the mutually recursive Maximize/Minimize over an abstract game (`Space`) with a pure
  successor function. It is proved equal to a textbook minimax, with the recorded root command
  characterised.
- `GerwinSearch`: that search instantiated with matches.
- `Prototype`, `RuleChecker`, `PrototypeGame`: the older prototype's data records, board and players, the
  rule checker, and the game façade.

Three behaviours are modelled as the code has them, although a reader might expect otherwise:

- The prototype's `MoveIsPossible` reads the height of the destination before any bounds check, so an
  off-board destination throws an index error rather than being rejected (`RuleChecker.MoveIsPossible`,
  `RuleChecker.TryMove`).
- `Match.TryMoveWorker` records no winner. It only sets the monotone `GameIsOver` flag, and only after a
  command that got past the command and worker checks.
- A turn is not atomic: a legal move followed by an illegal build leaves the worker moved and returns
  false (`Matches.MoveSurvivesFailedBuild`).

## Model

| member | source | states |
|---|---|---|
| Coords.IsValidRange | src/Santorini/Boarding/Coord.cs:16-17 | a coordinate is valid exactly when both components lie in 0..4 |
| Coords.Equals | src/Santorini/Boarding/Coord.cs:19-23 | `Equals(Coord)` holds exactly when the other coordinate is non-null and has the same X and Y |
| Coords.EqualsObject | src/Santorini/Boarding/Coord.cs:25-31 | `Equals(object)` is false for null and for an object of another type, and agrees with `Equals(Coord)` on coordinates |
| Coords.OpEquals | src/Santorini/Boarding/Coord.cs:33-38 | `==` is null-safe: two nulls are equal, null and non-null differ, otherwise it is value equality |
| Coords.OpNotEquals | src/Santorini/Boarding/Coord.cs:40-41 | `!=` is exactly the negation of `==` |
| Coords.EqualityIsReflexiveAndSymmetric | src/Santorini/Boarding/Coord.cs:19-38 | all equality forms are reflexive and symmetric, nulls included |
| Coords.Wrap32 | src/Santorini/Boarding/Coord.cs:45-48 | the unchecked 32-bit result is a signed 32-bit value congruent to the exact one modulo 2^32 |
| Coords.HashCode | src/Santorini/Boarding/Coord.cs:43-49 | the hash code of 32-bit components is itself a signed 32-bit value |
| Coords.EqualCoordsHashEqually | src/Santorini/Boarding/Coord.cs:43-49 | coordinates equal under `==` have equal hash codes |
| Towers.NewTower | src/Santorini/Pieces/Tower.cs:7-10 | a new tower is valid and has level 1 |
| Towers.RaiseLevel | src/Santorini/Pieces/Tower.cs:12-16 | below level 4 the level rises by one; a complete tower is unchanged; the returned number is the new level; validity is kept and the level never drops |
| Towers.DecreaseLevel | src/Santorini/Pieces/Tower.cs:18-22 | above level 1 the level drops by one, at level 1 nothing changes, validity is kept |
| Towers.DecreaseUndoesRaise | src/Santorini/Pieces/Tower.cs:12-22 | decreasing after a raise that started below 4 restores the tower |
| Towers.RaiseRepeatedlyCaps | src/Santorini/Pieces/Tower.cs:12-16 | n raises take a valid tower to level min(level + n, 4) and keep it valid |
| Pieces.NewTowerPiece | src/Santorini/Pieces/Tower.cs:7-10 | a new tower piece holds a level-1 tower and is not on any land |
| Pieces.NewWorker | src/Santorini/Pieces/Worker.cs:10-17 | a null player throws ArgumentNull, a number below 1 throws ArgumentOutOfRange, otherwise the worker has that owner and number and is unplaced |
| Pieces.SetLand | src/Santorini/Pieces/Piece.cs:16-19 | the back-reference becomes exactly the given land; the kind, tower and identity are untouched |
| Pieces.WorkerEquals | src/Santorini/Pieces/Worker.cs:113-119 | workers are equal exactly when the other is non-null with the same owner and number |
| Pieces.WorkerEqualityIgnoresPlacement | src/Santorini/Pieces/Worker.cs:113-119 | worker equality does not depend on where the workers stand, and it is symmetric |
| Lands.NewLand | src/Santorini/Boarding/Land.cs:18-29 | construction succeeds exactly for on-board coordinates and then yields an empty land; otherwise ArgumentOutOfRange |
| Lands.UnoccupiedMeansNoWorkerBelowMax | src/Santorini/Boarding/Land.cs:63-84 | a land is unoccupied exactly when it holds no worker and its level is below 4; the level is the tower's, or 0 without a tower |
| Lands.TryPutPiece | src/Santorini/Boarding/Land.cs:31-50 | a tower fits only on a land with no tower and no worker; a worker fits only where there is no worker and, if already placed, at most one level above its own; success places the piece and points it here, failure changes nothing |
| Lands.TryRemoveWorker | src/Santorini/Boarding/Land.cs:52-61 | succeeds exactly when this worker (same owner and number) stands here, and then removes only the worker, keeping the tower |
| Lands.PutThenRemoveWorker | src/Santorini/Boarding/Land.cs:31-61 | removing a worker that was just put on a land restores the land |
| Lands.LandEquals | src/Santorini/Boarding/Land.cs:86-90 | land equality compares coordinates only and is false against null |
| Lands.OpLandEquals | src/Santorini/Boarding/Land.cs:100-105 | the land `==` operator is null-safe and otherwise compares coordinates |
| Islands.IndexRoundTrip | src/Santorini/Boarding/Island.cs:11-18 | the x-major index of a valid coordinate lies in 0..24 and maps back to the same coordinate, and conversely |
| Islands.NewIsland | src/Santorini/Boarding/Island.cs:11-18 | a new island has 25 lands, the land at (x, y) has coordinate (x, y) and holds nothing |
| Islands.NewIslandIsEmpty | src/Santorini/Boarding/Island.cs:11-21 | on a new island every land is unoccupied at level 0, there are no workers, and workers are trivially unique |
| Islands.TryGetLand | src/Santorini/Boarding/Island.cs:23-31 | a land is returned exactly for valid positions, and it is the board's land at that coordinate |
| Islands.Update | src/Santorini/Boarding/Island.cs:11-18 | replacing one land of the array changes that coordinate only |
| Islands.TryAddPiece | src/Santorini/Boarding/Island.cs:33-39 | off the board it fails and changes nothing; on the board its verdict and the new land are those of the land's put; no other land changes |
| Islands.Locate | src/Santorini/Boarding/Island.cs:41-49 | finds a land holding the given worker, or reports that no land holds it |
| Islands.GetWorker | src/Santorini/Boarding/Island.cs:41-49 | a worker is returned exactly when some land holds the worker with that exact owner name and number, and it points at such a land |
| Islands.GetAllWorkers | src/Santorini/Boarding/Island.cs:51-59 | the list has one entry per land holding a worker, the t-th being the worker of the t-th such land in x-major order; so the listed workers are exactly those on the board, at most 25 |
| Islands.OccupiedFrom | src/Santorini/Boarding/Island.cs:51-59 | the indices of the lands holding a worker, each exactly once and in strictly increasing order |
| Islands.WorkersFromMembers | src/Santorini/Boarding/Island.cs:51-59 | a worker is listed exactly when some land of the scan holds it |
| Workers.CanMoveToMeans | src/Santorini/Pieces/Worker.cs:50-96 | a move is allowed exactly for a placed worker going to an on-board land other than its own, at most one step along each axis, with no worker, no complete tower and at most one level higher |
| Workers.TryMoveTo | src/Santorini/Pieces/Worker.cs:19-27 | succeeds exactly when the move is allowed; then the worker stands on the target and points at it, its old land loses it, towers stay and no other land changes; failure changes nothing |
| Workers.MoveKeepsTowers | src/Santorini/Pieces/Worker.cs:19-27 | no move attempt changes any tower |
| Workers.MoveKeepsWorkersUnique | src/Santorini/Pieces/Worker.cs:19-27 | a move by a worker that stands where it points keeps workers unique, and every worker afterwards either stood on that land before or is the mover |
| Workers.TryBuildAt | src/Santorini/Pieces/Worker.cs:29-45 | succeeds exactly under the build rule (unblocked, adjacent, no climb limit); then an incomplete tower rises by one or a level-1 tower appears, the land's level grows by one, workers stay, other lands are unchanged, towers stay valid |
| Workers.BuildKeepsWorkers | src/Santorini/Pieces/Worker.cs:29-45 | no build attempt moves any worker |
| Workers.WorkerLevel | src/Santorini/Pieces/Worker.cs:47-48 | a worker's level is -1 while unplaced and its land's level otherwise |
| Workers.MoveThenBuild | src/Santorini/Pieces/Worker.cs:19-45 | after a successful move and build, the worker stepped to a free adjacent land at most one level up and left its old land, the build target next to the destination grew by one level, and no other tower or worker changed |
| Workers.AfterTurnKeeps | src/Santorini/Pieces/Worker.cs:19-45 | a move attempt followed by a build attempt keeps towers valid and workers unique, and every worker afterwards either stood on that land before or is the mover |
| Players.NewPlayer | src/Santorini/Boarding/Player.cs:11-21 | a null or empty name throws ArgumentNull; otherwise the name is kept and there are exactly two distinct workers, numbered 1 then 2, owned by this player |
| Players.NewPlayerWorkers | src/Santorini/Boarding/Player.cs:11-21 | a new player has a worker with a given number exactly when the number is 1 or 2, and it is that player's worker |
| Commands.NewMoveCommand | src/Santorini/Commands/MoveCommand.cs:13-22 | a null destination or build target throws ArgumentNull; otherwise the fields are stored unchanged |
| Commands.MoveIsValidMeans | src/Santorini/Commands/MoveCommand.cs:24-46 | a command is valid exactly when the name is non-empty, the number is 1 or 2, the destination differs from the build target and both are on the board; adjacency is not required |
| Commands.PlaceIsValid | src/Santorini/Commands/PlaceWorkersCommand.cs:8-11 | it throws exactly when a coordinate it dereferences is null; when true, both coordinates are on the board and differ |
| Commands.PlaceIsValidSymmetric | src/Santorini/Commands/PlaceWorkersCommand.cs:8-11 | swapping the two coordinates does not change the verdict |
| Matches.NewMatch | src/Santorini/Match.cs:31-36 | a new match satisfies the invariant, has no players, an empty history, `GameIsOver` false and an empty island |
| Matches.TryAddPlayer | src/Santorini/Match.cs:38-49 | refused with no change when two players exist or the name matches one ignoring case; a null or empty name that passes those checks throws; a fresh non-empty name with fewer than two players is appended and accepted; there are never more than two |
| Matches.TryAddPlayerKeepsInv | src/Santorini/Match.cs:38-49 | registration keeps the match invariant |
| Matches.AppendedPlayerKeepsInv | src/Santorini/Match.cs:38-49 | appending a well-built player whose name clashes with none, while fewer than two are registered, keeps the match invariant |
| Matches.TryAddWorker | src/Santorini/Match.cs:51-65 | succeeds only with exactly two players, a known player (ignoring case) and worker number, the worker not yet on the board, and an opponent worker count other than one; once those checks pass it succeeds exactly on a free on-board land, which alone gains the worker; failure changes nothing |
| Matches.AddUnplacedWorker | src/Santorini/Boarding/Island.cs:33-39 | adding a worker that stands nowhere succeeds exactly on a free on-board land, which then holds the worker |
| Matches.TryAddWorkerKeepsInv | src/Santorini/Match.cs:51-65 | placement keeps the match invariant |
| Matches.PlacedWorkerKeepsInv | src/Santorini/Match.cs:51-65 | putting a registered player's unplaced worker on a free land, changing nothing else, keeps the match invariant |
| Matches.WinnerFromMeans | src/Santorini/Match.cs:112-124 | the scan finds a land with a worker on a level-3 tower exactly when one exists |
| Matches.LevelThreeByIndex | src/Santorini/Match.cs:112-124 | some board coordinate has a worker on a level-3 tower exactly when some land of the scan does |
| Matches.AssertGameIsOver | src/Santorini/Match.cs:112-124 | the flag becomes true exactly when it already was or some worker stands on a level-3 tower |
| Matches.TryMoveWorker | src/Santorini/Match.cs:67-110 | a disallowed command or an unknown worker changes nothing; otherwise it returns true exactly when the move and then the build succeed, and the game-over flag is re-evaluated on the resulting island; history grows by the command exactly when it returns true; `GameIsOver` never reverts; players never change |
| Matches.SuccessfulTurn | src/Santorini/Match.cs:67-84 | after a successful turn the worker stepped to a free adjacent land at most one level up, the build target next to the destination grew by one level, and no other tower or worker changed |
| Matches.MoveSurvivesFailedBuild | src/Santorini/Match.cs:75-79 | a legal move followed by a build that is not adjacent returns false with the history unchanged, yet the worker has moved |
| Matches.TryMoveWorkerKeepsInv | src/Santorini/Match.cs:67-84 | every turn attempt keeps the match invariant: valid towers, unique workers, each owned by a registered player |
| Gerwin.Around | src/Santorini.Players.Gerwin/GerwinPlayer.cs:167-182 | the product yields 9 coordinates with x outermost: entry k is (x - 1 + k / 3, y - 1 + k % 3), so every entry precedes the later ones in x-major order; the centre is fifth, and the entries are exactly the cells within one step on each axis |
| Gerwin.Column | src/Santorini.Players.Gerwin/GerwinPlayer.cs:167-168 | one column of the product is (x, y - 1), (x, y), (x, y + 1) in that order, exactly the cells of its column within one step |
| Gerwin.KeepOthersOnBoard | src/Santorini.Players.Gerwin/GerwinPlayer.cs:169-171 | the filter keeps exactly the on-board cells other than the centre, in their input order, and never lengthens the sequence |
| Gerwin.Neighbours | src/Santorini.Players.Gerwin/GerwinPlayer.cs:165-172 | the neighbours are exactly the on-board cells other than the input within one step on each axis, at most 8, listed in x-major order (by x, then by y) |
| Gerwin.KeptXMajor | src/Santorini.Players.Gerwin/GerwinPlayer.cs:169-171 | whatever a filter keeps from an x-major sequence is still in x-major order |
| Seqs.Kept | src/Santorini.Players.Gerwin/GerwinPlayer.cs:137-141 | the positions a `Where` keeps: each names a passing element, they strictly ascend, and every passing position is among them |
| Seqs.KeepsCons | src/Santorini.Players.Gerwin/GerwinPlayer.cs:137-141 | deciding the head and then filtering the tail keeps exactly the passing elements in their input order |
| Gerwin.FilterDestinations | src/Santorini.Players.Gerwin/GerwinPlayer.cs:137-141 | a coordinate is kept exactly when it is unoccupied, passes the level filter and is not at level 4, and the kept ones stay in their input order |
| Gerwin.FilterBuilds | src/Santorini.Players.Gerwin/GerwinPlayer.cs:146-150 | a build target is kept exactly when it is unoccupied or the excepted cell, and not at level 4, and the kept ones stay in their input order |
| Gerwin.DestinationsOrder | src/Santorini.Players.Gerwin/GerwinPlayer.cs:137-143 | the destinations come highest level first and, within one level, in x-major order, because the filter keeps the neighbours' order and the sort is stable |
| Gerwin.WithKeyXMajor | src/Santorini.Players.Gerwin/GerwinPlayer.cs:142 | the elements of one level taken from an x-major sequence are in x-major order |
| Gerwin.SameKeyOrdered | src/Santorini.Players.Gerwin/GerwinPlayer.cs:142 | two elements of the same level appear in the sorted sequence in the order they have among the elements of that level |
| Gerwin.CommandsTo | src/Santorini.Players.Gerwin/GerwinPlayer.cs:155-158 | one command per build target, in the targets' order, each naming the player, the worker, the destination and that target |
| Gerwin.BuildTargets | src/Santorini.Players.Gerwin/GerwinPlayer.cs:146-150 | the build targets around a destination are exactly the on-board neighbours that pass the build filter, in x-major order |
| Gerwin.CommandsFrom | src/Santorini.Players.Gerwin/GerwinPlayer.cs:144-160 | the commands are exactly those moving to one of the destinations and building on one of its targets, and they come as the nested loop yields them: each destination's commands in turn, in the order of the destinations |
| Gerwin.ByDestinationTail | src/Santorini.Players.Gerwin/GerwinPlayer.cs:144-160 | the per-destination lists of the remaining destinations are the remaining per-destination lists |
| Gerwin.SortByLevel | src/Santorini.Players.Gerwin/GerwinPlayer.cs:142 | the result is a permutation of the input ordered by non-increasing level, and the coordinates of each level keep their input order |
| Sorting.Insert | src/Santorini.Players.Gerwin/GerwinPlayer.cs:142 | inserting into a sequence with non-increasing keys keeps the keys non-increasing, and the result holds exactly the old elements and the new one |
| Sorting.InsertPermutes | src/Santorini.Players.Gerwin/GerwinPlayer.cs:142 | one insertion step adds exactly the inserted element to the multiset |
| Sorting.InsertIsStable | src/Santorini.Players.Gerwin/GerwinPlayer.cs:142 | insertion puts the new element after every element with the same key, leaving the order of the others unchanged |
| Sorting.SortDescending | src/Santorini.Players.Gerwin/GerwinPlayer.cs:142 | the sort returns a permutation of its input whose keys never increase, and for every key the elements with that key appear in their input order (stability) |
| Sorting.DescendingMeansOrdered | src/Santorini.Players.Gerwin/GerwinPlayer.cs:142 | keys that never increase between neighbours are ordered between any two positions |
| Gerwin.Generate | src/Santorini.Players.Gerwin/GerwinPlayer.cs:131-163 | generation throws NullReference exactly when a queried worker number has no worker on the board; otherwise every command it returns names the player and a queried number, with both coordinates on the board (`Gerwin.GenerateMembers` says which commands, `Gerwin.GenerateInTurn` in which order) |
| Gerwin.GenerateMembers | src/Santorini.Players.Gerwin/GerwinPlayer.cs:131-163 | when generation returns, a command is among the results exactly when its worker number was queried and it passes the destination and build filters for that worker |
| Gerwin.Collect | src/Santorini.Players.Gerwin/GerwinPlayer.cs:131-163 | every collected command names the player and a queried worker number, and both of its coordinates are on the board |
| Gerwin.CollectInTurn | src/Santorini.Players.Gerwin/GerwinPlayer.cs:134-161 | the collected commands are each queried worker's commands in turn, in the order of the worker numbers |
| Gerwin.GenerateInTurn | src/Santorini.Players.Gerwin/GerwinPlayer.cs:134-161 | when generation returns, every queried worker is on the board and the result is each worker's commands in turn, in the order of the numbers |
| Gerwin.ByWorkerTail | src/Santorini.Players.Gerwin/GerwinPlayer.cs:134-136 | the remaining worker numbers are all placed, and their per-worker lists are the remaining per-worker lists |
| Gerwin.CollectMembers | src/Santorini.Players.Gerwin/GerwinPlayer.cs:131-163 | a command is collected exactly when its worker number was queried and it passes both filters for that worker |
| Gerwin.SumHeights | src/Santorini.Players.Gerwin/GerwinPlayer.cs:250-254 | with valid towers each neighbour contributes between -100 and 300 |
| Gerwin.SumMobility | src/Santorini.Players.Gerwin/GerwinPlayer.cs:256-269 | the mobility bonus lies between 0 and 10 per neighbour |
| Gerwin.AssesWorkerWinsIffLevelThree | src/Santorini.Players.Gerwin/GerwinPlayer.cs:241-271 | a worker scores 10000 exactly when it stands on level 3; any other worker scores at most 6480 |
| Gerwin.StatusIsOwnMinusOpponents | src/Santorini.Players.Gerwin/GerwinPlayer.cs:184-210 | the status is the total of this player's worker scores minus the total of the other workers' scores |
| Gerwin.AssesCommandIsBalanceTimesScore | src/Santorini.Players.Gerwin/GerwinPlayer.cs:212-238 | because each worker is scored at the command's destination, a command's value is (own workers − other workers) × one destination score |
| Gerwin.LastBest | src/Santorini.Players.Gerwin/GerwinPlayer.cs:32-46 | the loop returns -1 exactly when every value is below -100000; otherwise it returns a greatest value of at least -100000, and no later value equals it |
| Gerwin.SelectBest | src/Santorini.Players.Gerwin/GerwinPlayer.cs:32-46 | nothing is chosen exactly when every value is below -100000; otherwise the choice has a maximal value of at least -100000 and no later candidate reaches it (ties go to the last) |
| Gerwin.GetNextMoveCommand | src/Santorini.Players.Gerwin/GerwinPlayer.cs:28-47 | throws exactly when generation throws; otherwise it returns none exactly when every candidate is worth less than -100000, and else a candidate of greatest value, at least -100000, with no later candidate reaching it |
| Gerwin.ChooseLegalCommand | src/Santorini.Players.Gerwin/GerwinPlayer.cs:28-47 | the same choice over the corrected candidates: it throws exactly when they cannot be generated, and otherwise returns none or the last candidate of greatest value as above |
| GerwinFindings.AsWrittenGenerationThrows | src/Santorini.Players.Gerwin/GerwinPlayer.cs:134-137 | in every consistent match, generation as written throws NullReference, because no worker carries number 0 |
| GerwinFindings.LegalGenerationReturns | src/Santorini.Players.Gerwin/GerwinPlayer.cs:134-137 | querying numbers 1 and 2 succeeds exactly when both of the player's workers are on the board |
| GerwinFindings.AsWrittenMovesAreRefused | src/Santorini.Players.Gerwin/GerwinPlayer.cs:140 | every command the as-written destination filter admits is refused by the match |
| GerwinFindings.LegalCommandsAreAccepted | src/Santorini.Players.Gerwin/GerwinPlayer.cs:137-157 | every command the corrected generator produces for a registered player is a turn the match accepts |
| GerwinFindings.GeneratedIsAllowed | src/Santorini.Players.Gerwin/GerwinPlayer.cs:137-157 | a command the corrected generator produces for a registered player's placed worker passes the match's command check |
| GerwinFindings.GeneratedIsPlayable | src/Santorini.Players.Gerwin/GerwinPlayer.cs:137-157 | the move of a command the corrected generator produces succeeds, and so does its build afterwards |
| GerwinFindings.AsWrittenNeverBuildsOnOrigin | src/Santorini.Players.Gerwin/GerwinPlayer.cs:148 | as written, the build target is always unoccupied and never the land the worker leaves |
| GerwinFindings.LegalGenerationOffersOrigin | src/Santorini.Players.Gerwin/GerwinPlayer.cs:146-150 | corrected, the land the worker leaves is offered as a build target whenever its tower is not complete |
| Search.MaxOver | src/Santorini.Players.Gerwin/GerwinPlayer.cs:81-103 | the reference maximum is at least -100000, at least every child's value, and equal to -100000 or to some child's value |
| Search.MinOver | src/Santorini.Players.Gerwin/GerwinPlayer.cs:111-128 | the reference minimum is at most 100000, at most every child's value, and equal to 100000 or to some child's value |
| Search.MaximizeIsMinimax | src/Santorini.Players.Gerwin/GerwinPlayer.cs:76-104 | Maximize returns the depth-limited minimax value, whatever command was recorded before |
| Search.MinimizeIsMinimax | src/Santorini.Players.Gerwin/GerwinPlayer.cs:106-129 | Minimize returns the depth-limited minimax value of the opponent's turn |
| Search.MaxLoopIsMaxOver | src/Santorini.Players.Gerwin/GerwinPlayer.cs:86-101 | the loop returns the larger of the running maximum and the best remaining child |
| Search.MinLoopIsMinOver | src/Santorini.Players.Gerwin/GerwinPlayer.cs:115-126 | the loop returns the smaller of the running minimum and the least remaining child |
| Search.MaximizeKeepsNextBelowRoot | src/Santorini.Players.Gerwin/GerwinPlayer.cs:96-99 | below the search depth Maximize records no command |
| Search.MinimizeKeepsNext | src/Santorini.Players.Gerwin/GerwinPlayer.cs:106-129 | Minimize never changes the recorded command |
| Search.MaxLoopKeepsNext | src/Santorini.Players.Gerwin/GerwinPlayer.cs:93-100 | the maximizing loop below the root keeps the recorded command |
| Search.MinLoopKeepsNext | src/Santorini.Players.Gerwin/GerwinPlayer.cs:115-126 | the minimizing loop keeps the recorded command |
| Search.RootLoopRecordsFirstBest | src/Santorini.Players.Gerwin/GerwinPlayer.cs:93-100 | at the root, the loop records the first candidate whose value strictly beats the running maximum and equals the result |
| Search.RootRecordsFirstBest | src/Santorini.Players.Gerwin/GerwinPlayer.cs:76-104 | at the search depth the value is the minimax value; if it stays at -100000 nothing is recorded, otherwise the recorded command is the first candidate reaching it |
| GerwinSearch.RecordedCommandIsAccepted | src/Santorini.Players.Gerwin/GerwinPlayer.cs:84-99 | in a consistent match with the search player registered, the command the search records is one the match accepts |
| Prototype.GetLocation | Santorini/Position.cs:15-18 | a position's location has the same x and y |
| Prototype.NewPlayer | Santorini/Player.cs:11-15 | a new player keeps the name and has no figures |
| Prototype.AddFigure | Santorini/Player.cs:17-20 | one figure is appended at the given position, earlier figures are unchanged, and figure numbers stay 0, 1, 2, … |
| Prototype.NewGameboard | Santorini/Gameboard.cs:11-21 | a new board is a 5×5 grid of zero heights with no players |
| Prototype.AddPlayer | Santorini/Gameboard.cs:23-26 | the player is appended; existing players, their order and the heights are unchanged |
| Prototype.PlayerIndex | Santorini/Gameboard.cs:28-31 | finds the first player whose name matches exactly, or reports that none does |
| Prototype.GetPlayer | Santorini/Gameboard.cs:28-31 | a player is returned exactly when one has that name, and it is the first such player |
| RuleChecker.MoveIsPossible | Santorini/RuleChecker.cs:60-66 | an unknown player throws NullReference; a bad figure index or an off-board destination throws IndexOutOfRange; otherwise it is true exactly when the destination is at most height 3 and one level above the figure, within one cell on each axis, and holds no figure |
| RuleChecker.BuildIsPossible | Santorini/RuleChecker.cs:41-58 | a build cell that is off the board, the destination itself, not adjacent to it, or complete gives false before any lookup; past those checks an unknown player throws NullReference and a figure number out of range throws IndexOutOfRange; for a known figure the answer is true exactly when no other figure stands on the cell |
| RuleChecker.DoMove | Santorini/RuleChecker.cs:33-39 | the named figure is placed at the destination with that cell's height, every other figure and player name stays, the build cell grows by one and no other height changes |
| RuleChecker.TryMove | Santorini/RuleChecker.cs:7-26 | it throws exactly for an unknown figure or an off-board destination; StepError exactly when the step rule fails; Won exactly when the step is allowed onto height 3; Success exactly when the step is allowed below height 3 and the build is possible; BuildError otherwise; any result other than Success leaves the board unchanged |
| RuleChecker.SuccessfulMove | Santorini/RuleChecker.cs:7-39 | after Success the figure stands at the destination with that height, exactly the build cell grew by one, no figure stands on it, and valid heights stay valid |
| RuleChecker.StepNeverStaysPut | Santorini/RuleChecker.cs:68-75 | a figure can never step onto its own cell |
| RuleChecker.TryMoveKeepsFiguresApart | Santorini/RuleChecker.cs:7-39 | if no two figures share a cell before a move, none do after it |
| PrototypeGame.NewGame | Santorini/Game.cs:9-12 | a new game owns an all-zero board without players |
| PrototypeGame.AddPlayer | Santorini/Game.cs:14-17 | a new player with the given name and no figures is appended |
| PrototypeGame.AddFigure | Santorini/Game.cs:19-27 | off the board it throws; an unknown player throws NullReference; otherwise the first player of that name gets a figure at height 0 there, with no occupancy or height check, and nothing else changes |
| PrototypeGame.SetupKeepsNumbering | Santorini/Player.cs:17-20 | adding players and figures keeps every player's figures numbered 0, 1, 2, … |

## Left out

- Workers.TryBuildAt: requires a placed worker. For an unplaced worker, `CanBuildAt` in src/Santorini/Pieces/Worker.cs:100 dereferences a null land and throws NullReference. No caller reaches that case: `Match.TryMoveWorker` builds only after a successful move.
- Matches.TryAddWorker: the player name is a non-null string. With two players registered, a null name matches no player, so src/Santorini/Match.cs:55-56 returns false.
- Matches.TryAddWorker and Matches.TryMoveWorker: a worker's `IsPlaced` (src/Santorini/Match.cs:59) and `CurrentLand` (src/Santorini/Match.cs:105) are read from the board through `Islands.Locate` rather than from a stored back-reference, so the model has no back-reference that could disagree with the board.
- Piece ids are random GUIDs. Workers are identified by (owner name, number) instead, which is what worker equality compares.
- Player identity: the source compares players by reference. Within a match names are unique ignoring case, so comparing names is equivalent there.
- Name comparison: case-insensitive comparison under the invariant culture is modelled as ASCII lower-casing (`Matches.Fold`). Exact comparison is string equality.
- Duplicate names: `SingleOrDefault` would throw on a duplicate name. The model takes the first match, which is equivalent under the match invariant's unique names.
- `Coords.HashCode`: it is modelled only for components that fit in 32 bits, which is all a C# `int` can hold.
- Gerwin's `GetNewWorkerCoord` is random and is not modelled.
- `GetNextMoveCommandMiniMax` is not modelled. It mutates a shared island without undoing.
- The search's apply/undo through `TryUndoCommand` is replaced by a pure successor function (`GerwinSearch.Apply`); no undo round-trip is claimed.
- The dictionary of evaluations in the one-ply choice is write-only and is not modelled.
- GerwinSearch.Moves: a side whose workers cannot be found has no candidates, where the source's generator would throw. The search therefore runs on the corrected generator.
- Search depth is a natural number. A negative depth would recurse without end in the source.
- Gerwin.AssesWorkerCmd requires an on-board destination. The source dereferences the null land otherwise, and every generated command satisfies this.
- The prototype's player names are non-null strings.
- The prototype figure's `ChangePosition` is folded into `RuleChecker.DoMove`.
- The host services, the remote player host, the random player and the console driver are not part of this model. They are I/O, HTTP, dependency injection and randomness.
- The pre-rename classes (`Builder`, `Board`, `Building`, the old `Game`, the commented-out `RuleChecker`) are not part of this model. They are the same rules under older names.
- `PrototypeGame.TryMove` has no row. It is exactly `RuleChecker.TryMove` applied to the game's board.

## Findings

| source | as written | input that shows it | evidently intended | confidence | as-written member | corrected member |
|---|---|---|---|---|---|---|
| src/Santorini.Players.Gerwin/GerwinPlayer.cs:134-136 | queries worker numbers 0 and 1 and dereferences the result | any match after placement: no worker has number 0, so `GetWorker` returns null and `worker.CurrentLand` throws | query numbers 1 and 2 | high; not executed | GerwinFindings.AsWrittenGenerationThrows | GerwinFindings.LegalGenerationReturns |
| src/Santorini.Players.Gerwin/GerwinPlayer.cs:140 | keeps destinations with `LandLevel - worker.LandLevel > 2` | a worker on level 0 next to a level-3 land: that land is the only kind offered, and the match refuses the climb | keep destinations at most one level up (`<= 1`) | high; not executed | GerwinFindings.AsWrittenMovesAreRefused | GerwinFindings.LegalCommandsAreAccepted |
| src/Santorini.Players.Gerwin/GerwinPlayer.cs:148 | excepts `c == moveCoord` from the occupancy test | a worker at (1,1) moving to (1,2): the neighbours of (1,2) never contain (1,2), and (1,1) is still occupied during generation, so it is never offered although the rules allow building there | except the land the worker leaves | medium; not executed | GerwinFindings.AsWrittenNeverBuildsOnOrigin | GerwinFindings.LegalGenerationOffersOrigin |
