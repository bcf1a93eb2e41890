/** The depth-limited minimax of the search player
    (src/Santorini.Players.Gerwin/GerwinPlayer.cs, Maximize and Minimize),
    over a pure successor function instead of move-and-undo. The command the
    player will send (NextMoveCommand) is threaded through as a value. */
module Search {
  import opened Wrappers

  /** The depth at which Maximize records its choice. */
  const SEARCH_DEPTH: nat := 4
  /** The running maximum starts here, the running minimum at GAIN. */
  const LOSS := -100000
  const GAIN := 100000

  /** What the search needs from a game: the candidates of the maximizing
      (`true`) or minimizing side, the state after a command, and the score
      of a state. */
  datatype Space<!S, !C> = Space(moves: (S, bool) -> seq<C>, apply: (S, C) -> S, score: S -> int)

  /** Maximize: the score at depth 0; otherwise the greatest value of
      Minimize one level down over the candidates, starting from LOSS. */
  function Maximize<S, C>(g: Space<S, C>, s: S, depth: nat, next: Option<C>): (r: (int, Option<C>))
    decreases depth, 1, 0
  {
    if depth == 0 then (g.score(s), next)
    else MaxLoop(g, s, depth, g.moves(s, true), 0, LOSS, next)
  }

  /** The loop of Maximize from candidate k on. A strictly better value
      replaces the running maximum and, at SEARCH_DEPTH, the chosen command. */
  function MaxLoop<S, C>(g: Space<S, C>, s: S, depth: nat, cs: seq<C>, k: nat, best: int, next: Option<C>): (r: (int, Option<C>))
    requires 1 <= depth && k <= |cs|
    decreases depth, 0, |cs| - k
  {
    if k == |cs| then (best, next)
    else
      var (v, next') := Minimize(g, g.apply(s, cs[k]), depth - 1, next);
      if v > best then MaxLoop(g, s, depth, cs, k + 1, v, if depth == SEARCH_DEPTH then Some(cs[k]) else next')
      else MaxLoop(g, s, depth, cs, k + 1, best, next')
  }

  /** Minimize: the score at depth 0; otherwise the least value of Maximize
      one level down over the opponent's candidates, starting from GAIN. */
  function Minimize<S, C>(g: Space<S, C>, s: S, depth: nat, next: Option<C>): (r: (int, Option<C>))
    decreases depth, 1, 0
  {
    if depth == 0 then (g.score(s), next)
    else MinLoop(g, s, depth, g.moves(s, false), 0, GAIN, next)
  }

  function MinLoop<S, C>(g: Space<S, C>, s: S, depth: nat, cs: seq<C>, k: nat, best: int, next: Option<C>): (r: (int, Option<C>))
    requires 1 <= depth && k <= |cs|
    decreases depth, 0, |cs| - k
  {
    if k == |cs| then (best, next)
    else
      var (v, next') := Maximize(g, g.apply(s, cs[k]), depth - 1, next);
      MinLoop(g, s, depth, cs, k + 1, if v < best then v else best, next')
  }

  // ----- the reference: plain minimax -----

  /** Textbook depth-limited minimax with the same bounds for empty
      candidate lists, defined without any running state. */
  function Minimax<S, C>(g: Space<S, C>, s: S, depth: nat, maximizing: bool): int
    decreases depth, 1, 0
  {
    if depth == 0 then g.score(s)
    else if maximizing then MaxOver(g, s, depth, g.moves(s, true), 0)
    else MinOver(g, s, depth, g.moves(s, false), 0)
  }

  /** The greatest child value from candidate k on, or LOSS. */
  function MaxOver<S, C>(g: Space<S, C>, s: S, depth: nat, cs: seq<C>, k: nat): (r: int)
    requires 1 <= depth && k <= |cs|
    ensures r >= LOSS
    ensures forall j :: k <= j < |cs| ==> Minimax(g, g.apply(s, cs[j]), depth - 1, false) <= r
    ensures r == LOSS || exists j :: k <= j < |cs| && r == Minimax(g, g.apply(s, cs[j]), depth - 1, false)
    decreases depth, 0, |cs| - k
  {
    if k == |cs| then LOSS
    else
      var v := Minimax(g, g.apply(s, cs[k]), depth - 1, false);
      var rest := MaxOver(g, s, depth, cs, k + 1);
      if v > rest then v else rest
  }

  /** The least child value from candidate k on, or GAIN. */
  function MinOver<S, C>(g: Space<S, C>, s: S, depth: nat, cs: seq<C>, k: nat): (r: int)
    requires 1 <= depth && k <= |cs|
    ensures r <= GAIN
    ensures forall j :: k <= j < |cs| ==> r <= Minimax(g, g.apply(s, cs[j]), depth - 1, true)
    ensures r == GAIN || exists j :: k <= j < |cs| && r == Minimax(g, g.apply(s, cs[j]), depth - 1, true)
    decreases depth, 0, |cs| - k
  {
    if k == |cs| then GAIN
    else
      var v := Minimax(g, g.apply(s, cs[k]), depth - 1, true);
      var rest := MinOver(g, s, depth, cs, k + 1);
      if v < rest then v else rest
  }

  // ----- the search computes minimax -----

  /** Whatever command has been recorded, Maximize and Minimize return the
      minimax value. */
  lemma {:induction false} MaximizeIsMinimax<S, C>(g: Space<S, C>, s: S, depth: nat, next: Option<C>)
    ensures Maximize(g, s, depth, next).0 == Minimax(g, s, depth, true)
    decreases depth, 1, 0
  {
    if depth > 0 {
      MaxLoopIsMaxOver(g, s, depth, g.moves(s, true), 0, LOSS, next);
    }
  }

  lemma {:induction false} MinimizeIsMinimax<S, C>(g: Space<S, C>, s: S, depth: nat, next: Option<C>)
    ensures Minimize(g, s, depth, next).0 == Minimax(g, s, depth, false)
    decreases depth, 1, 0
  {
    if depth > 0 {
      MinLoopIsMinOver(g, s, depth, g.moves(s, false), 0, GAIN, next);
    }
  }

  /** The loop's result is the larger of the running maximum and the best
      remaining child. */
  lemma {:induction false} MaxLoopIsMaxOver<S, C>(g: Space<S, C>, s: S, depth: nat, cs: seq<C>, k: nat, best: int, next: Option<C>)
    requires 1 <= depth && k <= |cs| && best >= LOSS
    ensures var rest := MaxOver(g, s, depth, cs, k);
      MaxLoop(g, s, depth, cs, k, best, next).0 == if best >= rest then best else rest
    decreases depth, 0, |cs| - k
  {
    if k < |cs| {
      var child := Minimize(g, g.apply(s, cs[k]), depth - 1, next);
      MinimizeIsMinimax(g, g.apply(s, cs[k]), depth - 1, next);
      var best' := if child.0 > best then child.0 else best;
      var next' := if child.0 > best && depth == SEARCH_DEPTH then Some(cs[k]) else child.1;
      assert MaxLoop(g, s, depth, cs, k, best, next) == MaxLoop(g, s, depth, cs, k + 1, best', next');
      MaxLoopIsMaxOver(g, s, depth, cs, k + 1, best', next');
    }
  }

  lemma {:induction false} MinLoopIsMinOver<S, C>(g: Space<S, C>, s: S, depth: nat, cs: seq<C>, k: nat, best: int, next: Option<C>)
    requires 1 <= depth && k <= |cs| && best <= GAIN
    ensures var rest := MinOver(g, s, depth, cs, k);
      MinLoop(g, s, depth, cs, k, best, next).0 == if best <= rest then best else rest
    decreases depth, 0, |cs| - k
  {
    if k < |cs| {
      var child := Maximize(g, g.apply(s, cs[k]), depth - 1, next);
      MaximizeIsMinimax(g, g.apply(s, cs[k]), depth - 1, next);
      var best' := if child.0 < best then child.0 else best;
      assert MinLoop(g, s, depth, cs, k, best, next) == MinLoop(g, s, depth, cs, k + 1, best', child.1);
      MinLoopIsMinOver(g, s, depth, cs, k + 1, best', child.1);
    }
  }

  // ----- the recorded command -----

  /** Below SEARCH_DEPTH nothing is recorded: the command passed in comes
      back unchanged. */
  lemma {:induction false} MaximizeKeepsNextBelowRoot<S, C>(g: Space<S, C>, s: S, depth: nat, next: Option<C>)
    requires depth < SEARCH_DEPTH
    ensures Maximize(g, s, depth, next).1 == next
    decreases depth, 1, 0
  {
    if depth > 0 {
      MaxLoopKeepsNext(g, s, depth, g.moves(s, true), 0, LOSS, next);
    }
  }

  lemma {:induction false} MinimizeKeepsNext<S, C>(g: Space<S, C>, s: S, depth: nat, next: Option<C>)
    requires depth <= SEARCH_DEPTH
    ensures Minimize(g, s, depth, next).1 == next
    decreases depth, 1, 0
  {
    if depth > 0 {
      MinLoopKeepsNext(g, s, depth, g.moves(s, false), 0, GAIN, next);
    }
  }

  lemma {:induction false} MaxLoopKeepsNext<S, C>(g: Space<S, C>, s: S, depth: nat, cs: seq<C>, k: nat, best: int, next: Option<C>)
    requires 1 <= depth < SEARCH_DEPTH && k <= |cs|
    ensures MaxLoop(g, s, depth, cs, k, best, next).1 == next
    decreases depth, 0, |cs| - k
  {
    if k < |cs| {
      var (v, next') := Minimize(g, g.apply(s, cs[k]), depth - 1, next);
      MinimizeKeepsNext(g, g.apply(s, cs[k]), depth - 1, next);
      MaxLoopKeepsNext(g, s, depth, cs, k + 1, if v > best then v else best, next);
    }
  }

  lemma {:induction false} MinLoopKeepsNext<S, C>(g: Space<S, C>, s: S, depth: nat, cs: seq<C>, k: nat, best: int, next: Option<C>)
    requires 1 <= depth <= SEARCH_DEPTH && k <= |cs|
    ensures MinLoop(g, s, depth, cs, k, best, next).1 == next
    decreases depth, 0, |cs| - k
  {
    if k < |cs| {
      var (v, next') := Maximize(g, g.apply(s, cs[k]), depth - 1, next);
      MaximizeKeepsNextBelowRoot(g, g.apply(s, cs[k]), depth - 1, next);
      MinLoopKeepsNext(g, s, depth, cs, k + 1, if v < best then v else best, next);
    }
  }

  /** The value of candidate j at the root. */
  function RootValue<S, C>(g: Space<S, C>, s: S, cs: seq<C>, j: nat): int
    requires j < |cs|
  {
    Minimax(g, g.apply(s, cs[j]), SEARCH_DEPTH - 1, false)
  }

  /** The root loop from candidate k on: if the result beats the running
      maximum, the recorded command is the first remaining candidate that
      reaches it; otherwise the recorded command is left alone. */
  lemma {:induction false} RootLoopRecordsFirstBest<S, C>(g: Space<S, C>, s: S, cs: seq<C>, k: nat, best: int, next: Option<C>)
    requires k <= |cs|
    ensures var (v, n) := MaxLoop(g, s, SEARCH_DEPTH, cs, k, best, next);
      && (v == best ==> n == next)
      && (v != best ==> v > best && exists j :: (k <= j < |cs| && n == Some(cs[j]) && RootValue(g, s, cs, j) == v
            && forall i :: k <= i < j ==> RootValue(g, s, cs, i) < v))
    decreases |cs| - k
  {
    if k < |cs| {
      var (v, next') := Minimize(g, g.apply(s, cs[k]), SEARCH_DEPTH - 1, next);
      MinimizeIsMinimax(g, g.apply(s, cs[k]), SEARCH_DEPTH - 1, next);
      MinimizeKeepsNext(g, g.apply(s, cs[k]), SEARCH_DEPTH - 1, next);
      if v > best {
        RootLoopRecordsFirstBest(g, s, cs, k + 1, v, Some(cs[k]));
      } else {
        RootLoopRecordsFirstBest(g, s, cs, k + 1, best, next');
      }
    }
  }

  /** Maximize at SEARCH_DEPTH returns the minimax value and records the
      first candidate that reaches it, unless no candidate beats LOSS, in
      which case the recorded command stays as it was. */
  lemma RootRecordsFirstBest<S, C>(g: Space<S, C>, s: S, next: Option<C>)
    ensures var (v, n) := Maximize(g, s, SEARCH_DEPTH, next);
      var cs := g.moves(s, true);
      && v == Minimax(g, s, SEARCH_DEPTH, true)
      && (v == LOSS ==> n == next)
      && (v != LOSS ==> exists j :: (0 <= j < |cs| && n == Some(cs[j]) && RootValue(g, s, cs, j) == v
            && forall i :: 0 <= i < j ==> RootValue(g, s, cs, i) < v))
  {
    MaximizeIsMinimax(g, s, SEARCH_DEPTH, next);
    RootLoopRecordsFirstBest(g, s, g.moves(s, true), 0, LOSS, next);
  }
}
