/** The pure parts of the search player
    (src/Santorini.Players.Gerwin/GerwinPlayer.cs): neighbour enumeration,
    candidate generation, the evaluation heuristic and the one-ply choice. */
module Gerwin {
  import opened Wrappers
  import opened Coords
  import opened Towers
  import opened Pieces
  import opened Lands
  import opened Islands
  import opened Workers
  import opened Players
  import opened Commands
  import opened Matches
  import opened Sorting
  import opened Seqs

  /** The name this player registers under (PLAYER_NAME). */
  const PLAYER_NAME: string := "Gerwin"

  /** The initial best value of the one-ply choice and the search's
      starting maximum. */
  const LOSS_SCORE := -100000
  const WIN_SCORE := 10000

  // ----- neighbours -----

  /** `a` comes before `b` in x-major order: by x, then by y. */
  predicate Precedes(a: Coord, b: Coord)
  {
    a.x < b.x || (a.x == b.x && a.y < b.y)
  }

  /** Every coordinate of `s` precedes every later one. */
  predicate XMajor(s: seq<Coord>)
  {
    forall t, u :: 0 <= t < u < |s| ==> Precedes(s[t], s[u])
  }

  /** The cartesian product {x-1, x, x+1} x {y-1, y, y+1}, x outermost:
      entry k is (x - 1 + k / 3, y - 1 + k % 3), so the entries come in
      x-major order. */
  function Around(c: Coord): (r: seq<Coord>)
    ensures |r| == 9 && r[4] == c
    ensures forall k :: 0 <= k < 9 ==> r[k] == Coord(c.x - 1 + k / 3, c.y - 1 + k % 3)
    ensures XMajor(r)
    ensures forall n: Coord :: n in r <==> -1 <= n.x - c.x <= 1 && -1 <= n.y - c.y <= 1
  {
    var low, mid, high := Column(c.x - 1, c.y), Column(c.x, c.y), Column(c.x + 1, c.y);
    var r := low + mid + high;
    BlockMembers(c, low, mid, high);
    assert r[4] == mid[1];
    AroundEntries(c, low, mid, high);
    AroundOrdered(c, r);
    r
  }

  lemma BlockMembers(c: Coord, low: seq<Coord>, mid: seq<Coord>, high: seq<Coord>)
    requires forall n: Coord :: n in low <==> n.x == c.x - 1 && -1 <= n.y - c.y <= 1
    requires forall n: Coord :: n in mid <==> n.x == c.x && -1 <= n.y - c.y <= 1
    requires forall n: Coord :: n in high <==> n.x == c.x + 1 && -1 <= n.y - c.y <= 1
    ensures forall n: Coord :: n in low + mid + high <==> -1 <= n.x - c.x <= 1 && -1 <= n.y - c.y <= 1
  {
    forall n: Coord
      ensures n in low + mid + high <==> -1 <= n.x - c.x <= 1 && -1 <= n.y - c.y <= 1
    {
      assert n in low + mid + high <==> n in low || n in mid || n in high;
    }
  }

  lemma AroundEntries(c: Coord, low: seq<Coord>, mid: seq<Coord>, high: seq<Coord>)
    requires |low| == |mid| == |high| == 3
    requires forall k :: 0 <= k < 3 ==> low[k] == Coord(c.x - 1, c.y - 1 + k)
    requires forall k :: 0 <= k < 3 ==> mid[k] == Coord(c.x, c.y - 1 + k)
    requires forall k :: 0 <= k < 3 ==> high[k] == Coord(c.x + 1, c.y - 1 + k)
    ensures forall k :: 0 <= k < 9 ==> (low + mid + high)[k] == Coord(c.x - 1 + k / 3, c.y - 1 + k % 3)
  {
    var r := low + mid + high;
    forall k | 0 <= k < 9
      ensures r[k] == Coord(c.x - 1 + k / 3, c.y - 1 + k % 3)
    {
      RowAndColumn(k);
      if k < 3 {
        assert r[k] == low[k];
      } else if k < 6 {
        assert r[k] == mid[k - 3];
      } else {
        assert r[k] == high[k - 6];
      }
    }
  }

  /** Entry k of a 3 x 3 block in x-major order sits in row k / 3, column k % 3. */
  lemma RowAndColumn(k: int)
    requires 0 <= k < 9
    ensures k < 3 ==> k / 3 == 0 && k % 3 == k
    ensures 3 <= k < 6 ==> k / 3 == 1 && k % 3 == k - 3
    ensures 6 <= k ==> k / 3 == 2 && k % 3 == k - 6
  {
  }

  lemma AroundOrdered(c: Coord, r: seq<Coord>)
    requires |r| == 9 && forall k :: 0 <= k < 9 ==> r[k] == Coord(c.x - 1 + k / 3, c.y - 1 + k % 3)
    ensures XMajor(r)
  {
    forall t, u | 0 <= t < u < |r|
      ensures Precedes(r[t], r[u])
    {
      RowAndColumn(t);
      RowAndColumn(u);
    }
  }

  /** {x} x {y-1, y, y+1}. */
  function Column(x: int, y: int): (r: seq<Coord>)
    ensures |r| == 3 && r[1] == Coord(x, y)
    ensures forall k :: 0 <= k < 3 ==> r[k] == Coord(x, y - 1 + k)
    ensures forall n: Coord :: n in r <==> n.x == x && -1 <= n.y - y <= 1
  {
    var r := [Coord(x, y - 1), Coord(x, y), Coord(x, y + 1)];
    assert forall n: Coord :: n.x == x && -1 <= n.y - y <= 1 ==> n in r by {
      forall n: Coord | n.x == x && -1 <= n.y - y <= 1
        ensures n in r
      {
        assert r[n.y - y + 1] == n;
      }
    }
    r
  }

  /** The test KeepOthersOnBoard applies, as a value. */
  function OtherOnBoard(c: Coord): Coord -> bool
  {
    n => n != c && IsValid(n)
  }

  /** Keeps the on-board coordinates other than c, in their order. */
  function KeepOthersOnBoard(s: seq<Coord>, c: Coord): (r: seq<Coord>)
    ensures forall n :: n in r <==> n in s && n != c && IsValid(n)
    ensures KeepsInOrder(OtherOnBoard(c), s, r)
    ensures |r| <= |s|
  {
    if |s| == 0 then []
    else
      var rest := KeepOthersOnBoard(s[1..], c);
      KeepsCons(OtherOnBoard(c), s, rest);
      (if s[0] != c && IsValid(s[0]) then [s[0]] else []) + rest
  }

  /** Whatever a filter keeps from an x-major sequence is x-major. */
  lemma KeptXMajor(keep: Coord -> bool, s: seq<Coord>, r: seq<Coord>)
    requires KeepsInOrder(keep, s, r) && XMajor(s)
    ensures XMajor(r)
  {
    var idx := Kept(keep, s);
    forall t, u | 0 <= t < u < |r|
      ensures Precedes(r[t], r[u])
    {
      assert r[t] == s[idx[t]] && r[u] == s[idx[u]] && idx[t] < idx[u];
    }
  }

  /** Dropping c shortens any sequence that holds it. */
  lemma {:induction false} KeepOthersDropsIt(s: seq<Coord>, c: Coord)
    requires c in s
    ensures |KeepOthersOnBoard(s, c)| < |s|
    decreases |s|
  {
    if s[0] != c {
      KeepOthersDropsIt(s[1..], c);
    }
  }

  /** Within one step on each axis, in terms of differences. */
  lemma WithinOneStepMeans(c: Coord, n: Coord)
    ensures WithinOneStep(c, n) <==> -1 <= n.x - c.x <= 1 && -1 <= n.y - c.y <= 1
  {
  }

  /** GetPossibleNeighbours: the on-board cells within one step on each axis,
      the cell itself excluded, so at most eight, in x-major order. */
  function Neighbours(c: Coord): (r: seq<Coord>)
    ensures forall n :: n in r <==> IsValid(n) && n != c && WithinOneStep(c, n)
    ensures XMajor(r)
    ensures |r| <= 8
  {
    var a := Around(c);
    var r := KeepOthersOnBoard(a, c);
    KeptXMajor(OtherOnBoard(c), a, r);
    assert a[4] in a;
    KeepOthersDropsIt(a, c);
    OthersWithinOneStep(c, a, r);
    r
  }

  lemma OthersWithinOneStep(c: Coord, a: seq<Coord>, r: seq<Coord>)
    requires forall n: Coord :: n in a <==> -1 <= n.x - c.x <= 1 && -1 <= n.y - c.y <= 1
    requires forall n :: n in r <==> n in a && n != c && IsValid(n)
    ensures forall n :: n in r <==> IsValid(n) && n != c && WithinOneStep(c, n)
  {
    forall n ensures n in r <==> IsValid(n) && n != c && WithinOneStep(c, n) {
      WithinOneStepMeans(c, n);
    }
  }

  // ----- candidate generation -----

  /** Which filters the generator applies: the source's as written, or the
      corrected ones (see README, Findings). */
  datatype Rules = AsWritten | Corrected

  function LevelAt(i: Island, c: Coord): int
    requires WellFormed(i) && IsValid(c)
  {
    LandLevel(Board(i, c))
  }

  /** The destination filter. As written it keeps lands MORE than two levels
      above the worker; corrected, lands at most one level above. */
  predicate KeepDestination(i: Island, rules: Rules, c: Coord, workerLevel: int)
    requires WellFormed(i) && IsValid(c)
  {
    && IsUnoccupiedAt(i, c)
    && (if rules.AsWritten? then LevelAt(i, c) - workerLevel > 2 else LevelAt(i, c) - workerLevel <= 1)
    && LevelAt(i, c) != 4
  }

  /** The build filter. As written the exception for an occupied cell names
      the destination itself (never a neighbour of itself); corrected, it names
      the land the worker leaves. */
  predicate KeepBuild(i: Island, rules: Rules, c: Coord, moveTo: Coord, origin: Coord)
    requires WellFormed(i) && IsValid(c)
  {
    && (IsUnoccupiedAt(i, c) || c == (if rules.AsWritten? then moveTo else origin))
    && LevelAt(i, c) != 4
  }

  /** The destination filter as a value, for statements about order. */
  ghost function DestinationTest(i: Island, rules: Rules, workerLevel: int): Coord -> bool
  {
    n => WellFormed(i) && IsValid(n) && KeepDestination(i, rules, n, workerLevel)
  }

  /** The build filter as a value. */
  ghost function BuildTest(i: Island, rules: Rules, moveTo: Coord, origin: Coord): Coord -> bool
  {
    n => WellFormed(i) && IsValid(n) && KeepBuild(i, rules, n, moveTo, origin)
  }

  /** The destination `Where`: the lands that pass, in their input order. */
  function FilterDestinations(i: Island, rules: Rules, s: seq<Coord>, workerLevel: int): (r: seq<Coord>)
    requires WellFormed(i) && forall n :: n in s ==> IsValid(n)
    ensures forall n :: n in r <==> n in s && KeepDestination(i, rules, n, workerLevel)
    ensures KeepsInOrder(DestinationTest(i, rules, workerLevel), s, r)
  {
    if |s| == 0 then []
    else
      var rest := FilterDestinations(i, rules, s[1..], workerLevel);
      DestinationStep(i, rules, s, workerLevel, rest);
      (if KeepDestination(i, rules, s[0], workerLevel) then [s[0]] else []) + rest
  }

  lemma DestinationStep(i: Island, rules: Rules, s: seq<Coord>, workerLevel: int, rest: seq<Coord>)
    requires WellFormed(i) && |s| > 0 && forall n :: n in s ==> IsValid(n)
    requires forall n :: n in rest <==> n in s[1..] && KeepDestination(i, rules, n, workerLevel)
    requires KeepsInOrder(DestinationTest(i, rules, workerLevel), s[1..], rest)
    ensures var r := (if KeepDestination(i, rules, s[0], workerLevel) then [s[0]] else []) + rest;
      && (forall n :: n in r <==> n in s && KeepDestination(i, rules, n, workerLevel))
      && KeepsInOrder(DestinationTest(i, rules, workerLevel), s, r)
  {
    KeepsCons(DestinationTest(i, rules, workerLevel), s, rest);
    assert DestinationTest(i, rules, workerLevel)(s[0]) == KeepDestination(i, rules, s[0], workerLevel);
    forall n ensures n in s <==> n == s[0] || n in s[1..] {
      InHeadOrTail(s, n);
    }
  }

  /** The build `Where`: the lands that pass, in their input order. */
  function FilterBuilds(i: Island, rules: Rules, s: seq<Coord>, moveTo: Coord, origin: Coord): (r: seq<Coord>)
    requires WellFormed(i) && forall n :: n in s ==> IsValid(n)
    ensures forall n :: n in r <==> n in s && KeepBuild(i, rules, n, moveTo, origin)
    ensures KeepsInOrder(BuildTest(i, rules, moveTo, origin), s, r)
  {
    if |s| == 0 then []
    else
      var rest := FilterBuilds(i, rules, s[1..], moveTo, origin);
      BuildStep(i, rules, s, moveTo, origin, rest);
      (if KeepBuild(i, rules, s[0], moveTo, origin) then [s[0]] else []) + rest
  }

  lemma BuildStep(i: Island, rules: Rules, s: seq<Coord>, moveTo: Coord, origin: Coord, rest: seq<Coord>)
    requires WellFormed(i) && |s| > 0 && forall n :: n in s ==> IsValid(n)
    requires forall n :: n in rest <==> n in s[1..] && KeepBuild(i, rules, n, moveTo, origin)
    requires KeepsInOrder(BuildTest(i, rules, moveTo, origin), s[1..], rest)
    ensures var r := (if KeepBuild(i, rules, s[0], moveTo, origin) then [s[0]] else []) + rest;
      && (forall n :: n in r <==> n in s && KeepBuild(i, rules, n, moveTo, origin))
      && KeepsInOrder(BuildTest(i, rules, moveTo, origin), s, r)
  {
    KeepsCons(BuildTest(i, rules, moveTo, origin), s, rest);
    assert BuildTest(i, rules, moveTo, origin)(s[0]) == KeepBuild(i, rules, s[0], moveTo, origin);
    forall n ensures n in s <==> n == s[0] || n in s[1..] {
      InHeadOrTail(s, n);
    }
  }

  /** The level of an on-board land, as a total function of the
      coordinate (0 elsewhere) so that it can serve as a sort key. */
  function LevelOf(i: Island, c: Coord): (r: int)
    ensures WellFormed(i) && IsValid(c) ==> r == LevelAt(i, c)
  {
    if |i.lands| == CELLS && IsValid(c) then LandLevel(i.lands[IndexOf(c)]) else 0
  }

  /** Levels never increase along the sequence. */
  ghost predicate SortedByLevel(i: Island, s: seq<Coord>)
    requires WellFormed(i) && forall n :: n in s ==> IsValid(n)
  {
    forall a, b :: 0 <= a < b < |s| ==> LevelAt(i, s[a]) >= LevelAt(i, s[b])
  }

  /** OrderByDescending on the level: a stable sort, highest level first;
      the coordinates of each level come out in their input order. */
  function SortByLevel(i: Island, s: seq<Coord>): (r: seq<Coord>)
    requires WellFormed(i) && forall n :: n in s ==> IsValid(n)
    ensures multiset(r) == multiset(s)
    ensures forall n :: n in r <==> n in s
    ensures SortedByLevel(i, r)
    ensures forall level :: WithKey(LevelKey(i), r, level) == WithKey(LevelKey(i), s, level)
  {
    var r := SortDescending(LevelKey(i), s);
    forall a, b | 0 <= a < b < |r|
      ensures LevelAt(i, r[a]) >= LevelAt(i, r[b])
    {
      KeyOrdersLevels(i, r, a, b);
    }
    r
  }

  /** LevelOf as a sort key. */
  function LevelKey(i: Island): Coord -> int
  {
    c => LevelOf(i, c)
  }

  lemma KeyOrdersLevels(i: Island, r: seq<Coord>, a: int, b: int)
    requires WellFormed(i) && forall n :: n in r ==> IsValid(n)
    requires Descending(LevelKey(i), r) && 0 <= a < b < |r|
    ensures LevelAt(i, r[a]) >= LevelAt(i, r[b])
  {
    DescendingMeansOrdered(LevelKey(i), r, a, b);
    assert LevelKey(i)(r[a]) == LevelAt(i, r[a]);
    assert LevelKey(i)(r[b]) == LevelAt(i, r[b]);
  }

  /** One command per build target, all moving to `moveTo`, in the
      targets' order. */
  function CommandsTo(name: string, number: int, moveTo: Coord, builds: seq<Coord>): (r: seq<MoveCommand>)
    ensures forall cmd :: cmd in r <==>
      cmd.playerName == Some(name) && cmd.workerNumber == number && cmd.moveTo == moveTo && cmd.buildAt in builds
    ensures |r| == |builds|
    ensures forall t :: 0 <= t < |r| ==> r[t] == MoveCommand(Some(name), number, moveTo, builds[t])
  {
    if |builds| == 0 then []
    else [MoveCommand(Some(name), number, moveTo, builds[0])] + CommandsTo(name, number, moveTo, builds[1..])
  }

  /** The build targets around a destination, in x-major order. */
  function BuildTargets(i: Island, rules: Rules, moveTo: Coord, origin: Coord): (r: seq<Coord>)
    requires WellFormed(i)
    ensures forall n :: n in r <==>
      IsValid(n) && n != moveTo && WithinOneStep(moveTo, n) && KeepBuild(i, rules, n, moveTo, origin)
    ensures XMajor(r)
  {
    var r := FilterBuilds(i, rules, Neighbours(moveTo), moveTo, origin);
    KeptXMajor(BuildTest(i, rules, moveTo, origin), Neighbours(moveTo), r);
    r
  }

  /** The commands for each destination in turn, one list per destination. */
  function ByDestination(i: Island, rules: Rules, name: string, number: int, origin: Coord, dests: seq<Coord>)
    : (r: seq<seq<MoveCommand>>)
    requires WellFormed(i)
    ensures |r| == |dests|
    ensures forall j :: 0 <= j < |dests| ==>
      r[j] == CommandsTo(name, number, dests[j], BuildTargets(i, rules, dests[j], origin))
  {
    seq(|dests|, j requires 0 <= j < |dests| => CommandsTo(name, number, dests[j], BuildTargets(i, rules, dests[j], origin)))
  }

  /** `cmds` lists each destination's commands in turn, in the order of
      `dests`. */
  ghost predicate DestinationsInTurn(i: Island, rules: Rules, name: string, number: int, origin: Coord,
                                     dests: seq<Coord>, cmds: seq<MoveCommand>)
    requires WellFormed(i)
  {
    cmds == Flatten(ByDestination(i, rules, name, number, origin, dests))
  }

  lemma ByDestinationTail(i: Island, rules: Rules, name: string, number: int, origin: Coord, dests: seq<Coord>)
    requires WellFormed(i) && |dests| > 0
    ensures ByDestination(i, rules, name, number, origin, dests)[1..] == ByDestination(i, rules, name, number, origin, dests[1..])
  {
    var a, b := ByDestination(i, rules, name, number, origin, dests)[1..], ByDestination(i, rules, name, number, origin, dests[1..]);
    forall j | 0 <= j < |a|
      ensures a[j] == b[j]
    {
      assert dests[1..][j] == dests[j + 1];
    }
  }

  /** Every destination in turn, with the builds around it: the nested
      loop, destinations outermost. */
  function CommandsFrom(i: Island, rules: Rules, name: string, number: int, origin: Coord, dests: seq<Coord>): (r: seq<MoveCommand>)
    requires WellFormed(i)
    ensures forall cmd :: cmd in r <==>
      && cmd.playerName == Some(name) && cmd.workerNumber == number && cmd.moveTo in dests
      && cmd.buildAt in BuildTargets(i, rules, cmd.moveTo, origin)
    ensures DestinationsInTurn(i, rules, name, number, origin, dests, r)
  {
    if |dests| == 0 then []
    else
      var d := dests[0];
      var here := CommandsTo(name, number, d, BuildTargets(i, rules, d, origin));
      var rest := CommandsFrom(i, rules, name, number, origin, dests[1..]);
      CommandsFromMembers(i, rules, name, number, origin, dests, here, rest);
      ByDestinationTail(i, rules, name, number, origin, dests);
      here + rest
  }

  lemma CommandsFromMembers(i: Island, rules: Rules, name: string, number: int, origin: Coord, dests: seq<Coord>,
                            here: seq<MoveCommand>, rest: seq<MoveCommand>)
    requires WellFormed(i) && |dests| > 0
    requires forall cmd :: cmd in here <==>
      && cmd.playerName == Some(name) && cmd.workerNumber == number && cmd.moveTo == dests[0]
      && cmd.buildAt in BuildTargets(i, rules, dests[0], origin)
    requires forall cmd :: cmd in rest <==>
      && cmd.playerName == Some(name) && cmd.workerNumber == number && cmd.moveTo in dests[1..]
      && cmd.buildAt in BuildTargets(i, rules, cmd.moveTo, origin)
    ensures forall cmd :: cmd in here + rest <==>
      && cmd.playerName == Some(name) && cmd.workerNumber == number && cmd.moveTo in dests
      && cmd.buildAt in BuildTargets(i, rules, cmd.moveTo, origin)
  {
    forall cmd: MoveCommand
      ensures cmd.moveTo in dests <==> cmd.moveTo == dests[0] || cmd.moveTo in dests[1..]
    {
      InHeadOrTail(dests, cmd.moveTo);
    }
  }

  /** The destinations the generator considers for a worker on `origin`,
      highest level first. */
  function Destinations(i: Island, rules: Rules, origin: Coord): (r: seq<Coord>)
    requires WellFormed(i) && IsValid(origin)
    ensures forall n :: n in r <==> n in Neighbours(origin) && KeepDestination(i, rules, n, LevelAt(i, origin))
  {
    SortByLevel(i, FilterDestinations(i, rules, Neighbours(origin), LevelAt(i, origin)))
  }

  /** Highest level first, and the lands of one level in x-major order. */
  ghost predicate LevelThenXMajor(i: Island, s: seq<Coord>)
    requires WellFormed(i) && forall n :: n in s ==> IsValid(n)
  {
    forall t, u :: 0 <= t < u < |s| ==>
      LevelAt(i, s[t]) > LevelAt(i, s[u]) || (LevelAt(i, s[t]) == LevelAt(i, s[u]) && Precedes(s[t], s[u]))
  }

  /** The destinations come highest level first and, within a level, in
      the x-major order of the neighbour enumeration, because the
      filter keeps that order and the sort is stable. */
  lemma DestinationsOrder(i: Island, rules: Rules, origin: Coord)
    requires WellFormed(i) && IsValid(origin)
    ensures LevelThenXMajor(i, Destinations(i, rules, origin))
  {
    var f := FilterDestinations(i, rules, Neighbours(origin), LevelAt(i, origin));
    KeptXMajor(DestinationTest(i, rules, LevelAt(i, origin)), Neighbours(origin), f);
    SortedLevelsThenXMajor(i, f, Destinations(i, rules, origin));
  }

  lemma SortedLevelsThenXMajor(i: Island, f: seq<Coord>, r: seq<Coord>)
    requires WellFormed(i) && (forall n :: n in f ==> IsValid(n)) && (forall n :: n in r ==> IsValid(n))
    requires XMajor(f) && SortedByLevel(i, r)
    requires forall level :: WithKey(LevelKey(i), r, level) == WithKey(LevelKey(i), f, level)
    ensures LevelThenXMajor(i, r)
  {
    forall t, u | 0 <= t < u < |r| && LevelAt(i, r[t]) == LevelAt(i, r[u])
      ensures Precedes(r[t], r[u])
    {
      var v := LevelOf(i, r[t]);
      WithKeyXMajor(LevelKey(i), f, v);
      assert WithKey(LevelKey(i), r, v) == WithKey(LevelKey(i), f, v);
      SameKeyOrdered(LevelKey(i), r, v, t, u);
    }
  }

  /** The elements of one key, taken from an x-major sequence, are x-major. */
  lemma {:induction false} WithKeyXMajor(key: Coord -> int, s: seq<Coord>, v: int)
    requires XMajor(s)
    ensures XMajor(WithKey(key, s, v))
    decreases |s|
  {
    if |s| > 0 {
      assert XMajor(s[1..]) by {
        forall t, u | 0 <= t < u < |s[1..]| ensures Precedes(s[1..][t], s[1..][u]) {
          assert s[1..][t] == s[t + 1] && s[1..][u] == s[u + 1];
        }
      }
      WithKeyXMajor(key, s[1..], v);
      var tail := WithKey(key, s[1..], v);
      forall q | 0 <= q < |tail|
        ensures Precedes(s[0], tail[q])
      {
        WithKeyFrom(key, s[1..], v, tail[q]);
        var j :| 0 <= j < |s[1..]| && s[1..][j] == tail[q];
        assert s[j + 1] == tail[q];
      }
      var w := (if key(s[0]) == v then [s[0]] else []) + tail;
      forall t, u | 0 <= t < u < |w| ensures Precedes(w[t], w[u]) {
        if key(s[0]) == v {
          assert w[u] == tail[u - 1];
          if t > 0 {
            assert w[t] == tail[t - 1];
          }
        }
      }
    }
  }

  /** Every element of one key comes from the sequence. */
  lemma {:induction false} WithKeyFrom(key: Coord -> int, s: seq<Coord>, v: int, x: Coord)
    requires x in WithKey(key, s, v)
    ensures x in s
    decreases |s|
  {
    if x != s[0] {
      WithKeyFrom(key, s[1..], v, x);
    }
  }

  /** Two elements with the same key keep, in the sequence, the order they
      have among the elements of that key. */
  lemma {:induction false} SameKeyOrdered(key: Coord -> int, r: seq<Coord>, v: int, t: int, u: int)
    requires 0 <= t < u < |r| && key(r[t]) == v && key(r[u]) == v
    requires XMajor(WithKey(key, r, v))
    ensures Precedes(r[t], r[u])
    decreases |r|
  {
    var w := WithKey(key, r, v);
    var tail := WithKey(key, r[1..], v);
    assert w == (if key(r[0]) == v then [r[0]] else []) + tail;
    if t == 0 {
      KeyedIn(key, r[1..], v, u - 1);
      var q :| 0 <= q < |tail| && tail[q] == r[u];
      assert w[0] == r[0] && w[q + 1] == r[u];
    } else {
      assert XMajor(tail) by {
        if key(r[0]) == v {
          forall a, b | 0 <= a < b < |tail| ensures Precedes(tail[a], tail[b]) {
            assert tail[a] == w[a + 1] && tail[b] == w[b + 1];
          }
        } else {
          assert w == tail;
        }
      }
      assert r[1..][t - 1] == r[t] && r[1..][u - 1] == r[u];
      SameKeyOrdered(key, r[1..], v, t - 1, u - 1);
    }
  }

  /** An element with key v is among the elements of key v. */
  lemma {:induction false} KeyedIn(key: Coord -> int, s: seq<Coord>, v: int, j: int)
    requires 0 <= j < |s| && key(s[j]) == v
    ensures s[j] in WithKey(key, s, v)
    decreases |s|
  {
    if j > 0 {
      assert s[1..][j - 1] == s[j];
      KeyedIn(key, s[1..], v, j - 1);
    }
  }

  /** A command the generator may produce for worker `number` of `name`
      standing on `origin`. */
  ghost predicate Generated(i: Island, rules: Rules, name: string, number: int, origin: Coord, cmd: MoveCommand)
    requires WellFormed(i) && IsValid(origin)
  {
    && cmd.playerName == Some(name) && cmd.workerNumber == number
    && IsValid(cmd.moveTo) && cmd.moveTo != origin && WithinOneStep(origin, cmd.moveTo)
    && KeepDestination(i, rules, cmd.moveTo, LevelAt(i, origin))
    && IsValid(cmd.buildAt) && cmd.buildAt != cmd.moveTo && WithinOneStep(cmd.moveTo, cmd.buildAt)
    && KeepBuild(i, rules, cmd.buildAt, cmd.moveTo, origin)
  }

  /** The commands generated for one worker standing on `origin`. */
  function WorkerCommands(i: Island, rules: Rules, name: string, number: int, origin: Coord): (r: seq<MoveCommand>)
    requires WellFormed(i) && IsValid(origin)
    ensures forall cmd :: cmd in r <==> Generated(i, rules, name, number, origin, cmd)
  {
    CommandsFrom(i, rules, name, number, origin, Destinations(i, rules, origin))
  }

  /** Every queried worker number names a worker on the board. */
  predicate AllPlaced(i: Island, name: string, numbers: seq<int>)
    requires WellFormed(i)
  {
    forall n :: n in numbers ==> GetWorker(i, name, n).Some?
  }

  /** The land the worker numbered `number` stands on. */
  function Origin(i: Island, name: string, number: int): (c: Coord)
    requires WellFormed(i) && GetWorker(i, name, number).Some?
    ensures IsValid(c)
  {
    GetWorker(i, name, number).value.currentLand.value
  }

  /** The commands of each queried worker, one list per worker number. */
  function ByWorker(i: Island, rules: Rules, name: string, numbers: seq<int>): (r: seq<seq<MoveCommand>>)
    requires WellFormed(i) && AllPlaced(i, name, numbers)
    ensures |r| == |numbers|
    ensures forall j :: 0 <= j < |numbers| ==>
      r[j] == WorkerCommands(i, rules, name, numbers[j], Origin(i, name, numbers[j]))
  {
    seq(|numbers|, j requires 0 <= j < |numbers| => WorkerCommands(i, rules, name, numbers[j], Origin(i, name, numbers[j])))
  }

  lemma ByWorkerTail(i: Island, rules: Rules, name: string, numbers: seq<int>)
    requires WellFormed(i) && AllPlaced(i, name, numbers) && |numbers| > 0
    ensures AllPlaced(i, name, numbers[1..])
    ensures ByWorker(i, rules, name, numbers)[1..] == ByWorker(i, rules, name, numbers[1..])
  {
    forall n | n in numbers[1..] ensures GetWorker(i, name, n).Some? {
      InHeadOrTail(numbers, n);
    }
    var a, b := ByWorker(i, rules, name, numbers)[1..], ByWorker(i, rules, name, numbers[1..]);
    forall j | 0 <= j < |a|
      ensures a[j] == b[j]
    {
      assert numbers[1..][j] == numbers[j + 1];
    }
  }

  /** The commands of the queried workers, one worker after the other. */
  function Collect(i: Island, rules: Rules, name: string, numbers: seq<int>): (r: seq<MoveCommand>)
    requires WellFormed(i) && AllPlaced(i, name, numbers)
    ensures forall cmd :: cmd in r ==>
      cmd.playerName == Some(name) && cmd.workerNumber in numbers && IsValid(cmd.moveTo) && IsValid(cmd.buildAt)
  {
    if |numbers| == 0 then []
    else
      forall n ensures n in numbers <==> n == numbers[0] || n in numbers[1..] {
        InHeadOrTail(numbers, n);
      }
      var origin := GetWorker(i, name, numbers[0]).value.currentLand.value;
      var here := WorkerCommands(i, rules, name, numbers[0], origin);
      assert AllPlaced(i, name, numbers[1..]);
      var rest := Collect(i, rules, name, numbers[1..]);
      WorkerCommandsShape(i, rules, name, numbers[0], origin);
      here + rest
  }

  /** Every command generated for a worker names it and two on-board lands. */
  lemma WorkerCommandsShape(i: Island, rules: Rules, name: string, number: int, origin: Coord)
    requires WellFormed(i) && IsValid(origin)
    ensures forall cmd :: cmd in WorkerCommands(i, rules, name, number, origin) ==>
      cmd.playerName == Some(name) && cmd.workerNumber == number && IsValid(cmd.moveTo) && IsValid(cmd.buildAt)
  {
  }

  /** GenerateAllPossibleCommands for the given worker numbers, in order.
      The source looks each worker up and dereferences its land; the first
      number with no worker on the board throws, which discards the commands
      gathered so far. Which commands come out is stated by GenerateMembers. */
  function Generate(i: Island, rules: Rules, name: string, numbers: seq<int>): (r: Outcome<seq<MoveCommand>>)
    requires WellFormed(i)
    ensures r.Returned? <==> forall n :: n in numbers ==> GetWorker(i, name, n).Some?
    ensures r.Threw? ==> r.error == NullReference
    ensures r.Returned? ==> forall cmd :: cmd in r.value ==>
      cmd.playerName == Some(name) && cmd.workerNumber in numbers && IsValid(cmd.moveTo) && IsValid(cmd.buildAt)
  {
    if AllPlaced(i, name, numbers) then Returned(Collect(i, rules, name, numbers)) else Threw(NullReference)
  }

  /** The commands come out one worker after the other, in the order of
      the queried numbers, each worker's in the order WorkerCommands
      generates them. */
  lemma {:induction false} CollectInTurn(i: Island, rules: Rules, name: string, numbers: seq<int>)
    requires WellFormed(i) && AllPlaced(i, name, numbers)
    ensures Collect(i, rules, name, numbers) == Flatten(ByWorker(i, rules, name, numbers))
    decreases |numbers|
  {
    if |numbers| > 0 {
      ByWorkerTail(i, rules, name, numbers);
      CollectInTurn(i, rules, name, numbers[1..]);
    }
  }

  /** What the generator returns, in order: each queried worker's commands
      in turn. */
  lemma GenerateInTurn(i: Island, rules: Rules, name: string, numbers: seq<int>)
    requires WellFormed(i) && Generate(i, rules, name, numbers).Returned?
    ensures AllPlaced(i, name, numbers)
    ensures Generate(i, rules, name, numbers).value == Flatten(ByWorker(i, rules, name, numbers))
  {
    CollectInTurn(i, rules, name, numbers);
  }

  /** A command comes out of the generator exactly when it names one of the
      queried workers and is generated for the land that worker stands on. */
  lemma {:induction false} GenerateMembers(i: Island, rules: Rules, name: string, numbers: seq<int>, cmd: MoveCommand)
    requires WellFormed(i) && Generate(i, rules, name, numbers).Returned?
    ensures cmd in Generate(i, rules, name, numbers).value <==>
      && cmd.workerNumber in numbers
      && Generated(i, rules, name, cmd.workerNumber, GetWorker(i, name, cmd.workerNumber).value.currentLand.value, cmd)
  {
    CollectMembers(i, rules, name, numbers, cmd);
  }

  lemma {:induction false} CollectMembers(i: Island, rules: Rules, name: string, numbers: seq<int>, cmd: MoveCommand)
    requires WellFormed(i) && AllPlaced(i, name, numbers)
    ensures cmd in Collect(i, rules, name, numbers) <==>
      && cmd.workerNumber in numbers
      && Generated(i, rules, name, cmd.workerNumber, GetWorker(i, name, cmd.workerNumber).value.currentLand.value, cmd)
  {
    if |numbers| > 0 {
      var w := GetWorker(i, name, numbers[0]).value;
      InHeadOrTail(numbers, cmd.workerNumber);
      assert AllPlaced(i, name, numbers[1..]) by {
        forall n | n in numbers[1..] ensures GetWorker(i, name, n).Some? {
          InHeadOrTail(numbers, n);
        }
      }
      CollectMembers(i, rules, name, numbers[1..], cmd);
      if cmd.workerNumber == numbers[0] {
        assert GetWorker(i, name, cmd.workerNumber) == Some(w);
      }
    }
  }

  /** The worker numbers the source queries: 0 and 1. */
  const SOURCE_NUMBERS: seq<int> := [0, 1]
  /** The numbers workers actually carry. */
  const WORKER_NUMBERS: seq<int> := [1, 2]

  /** GenerateAllPossibleCommands as written. */
  function GenerateAllPossibleCommands(i: Island, name: string): Outcome<seq<MoveCommand>>
    requires WellFormed(i)
  {
    Generate(i, AsWritten, name, SOURCE_NUMBERS)
  }

  /** The corrected generator: workers 1 and 2, legal destinations, and the
      vacated land offered as a build target. */
  function GenerateLegalCommands(i: Island, name: string): Outcome<seq<MoveCommand>>
    requires WellFormed(i)
  {
    Generate(i, Corrected, name, WORKER_NUMBERS)
  }

  // ----- evaluation -----

  /** A neighbour's height term: 100 per level, -100 for a complete tower. */
  function HeightTerm(l: Land): (r: int)
    ensures !MaxLevelReached(l) ==> r == 100 * LandLevel(l)
    ensures MaxLevelReached(l) ==> r == -100
  {
    100 * (if MaxLevelReached(l) then -1 else LandLevel(l))
  }

  /** The height terms of the given lands; with valid towers each lies
      between -100 and 300. */
  function SumHeights(i: Island, ns: seq<Coord>): (r: int)
    requires WellFormed(i) && forall n :: n in ns ==> IsValid(n)
    ensures TowersValid(i) ==> -100 * |ns| <= r <= 300 * |ns|
  {
    if |ns| == 0 then 0
    else
      IndexRoundTrip(ns[0], 0);
      HeightTerm(Board(i, ns[0])) + SumHeights(i, ns[1..])
  }

  /** AssesWorker's mobility bonus: 10 for each land the worker may step up
      to, 1 for each other land it may move to. */
  function SumMobility(i: Island, w: Worker, ns: seq<Coord>): (r: int)
    requires WellFormed(i) && WellPlaced(w) && w.currentLand.Some?
    requires forall n :: n in ns ==> IsValid(n)
    ensures 0 <= r <= 10 * |ns|
  {
    if |ns| == 0 then 0
    else
      var n := ns[0];
      var bonus :=
        if !CanMoveTo(i, w, n.x, n.y) then 0
        else if LevelAt(i, n) > LevelAt(i, w.currentLand.value) then 10
        else 1;
      bonus + SumMobility(i, w, ns[1..])
  }

  /** AssesWorker: 10000 for a worker on level 3; otherwise 1000 per level
      of its land, plus the height and mobility terms of its neighbours. */
  function AssesWorker(i: Island, w: Worker): int
    requires WellFormed(i) && WellPlaced(w) && w.currentLand.Some?
  {
    var c := w.currentLand.value;
    if LevelAt(i, c) == 3 then WIN_SCORE
    else 1000 * LevelAt(i, c) + SumHeights(i, Neighbours(c)) + SumMobility(i, w, Neighbours(c))
  }

  /** Only a worker on level 3 reaches the winning score: any other worker
      scores at most 4000 + 8 * 300 + 8 * 10. */
  lemma AssesWorkerWinsIffLevelThree(i: Island, w: Worker)
    requires WellFormed(i) && TowersValid(i) && WellPlaced(w) && w.currentLand.Some?
    ensures AssesWorker(i, w) == WIN_SCORE <==> LevelAt(i, w.currentLand.value) == 3
    ensures LevelAt(i, w.currentLand.value) != 3 ==> AssesWorker(i, w) <= 6480
  {
    var c := w.currentLand.value;
    IndexRoundTrip(c, 0);
    assert 0 <= LevelAt(i, c) <= 4;
  }

  /** The worker standing on the land at index k, pointing at that land. */
  function WorkerAt(i: Island, k: nat): (w: Worker)
    requires WellFormed(i) && k < CELLS && i.lands[k].worker.Some?
    ensures WellPlaced(w) && w.currentLand == Some(CoordAt(k))
    ensures w.id == i.lands[k].worker.value
  {
    IndexRoundTrip(Coord(0, 0), k);
    WorkerPiece(i.lands[k].worker.value, Some(CoordAt(k)))
  }

  /** A score counted for this player, or against it. */
  function Signed(id: WorkerId, v: int): int
  {
    if id.player == PLAYER_NAME then v else -v
  }

  /** AssesStatus from index k on: over GetAllWorkers in scan order, own
      workers' scores added, everyone else's subtracted. */
  function StatusFrom(i: Island, k: nat): int
    requires WellFormed(i) && k <= CELLS
    decreases CELLS - k
  {
    if k == CELLS then 0
    else if i.lands[k].worker.None? then StatusFrom(i, k + 1)
    else Signed(i.lands[k].worker.value, AssesWorker(i, WorkerAt(i, k))) + StatusFrom(i, k + 1)
  }

  function AssesStatus(i: Island): int
    requires WellFormed(i)
  {
    StatusFrom(i, 0)
  }

  /** The total score of one side's workers from index k on. */
  function SideTotal(i: Island, k: nat, own: bool): int
    requires WellFormed(i) && k <= CELLS
    decreases CELLS - k
  {
    if k == CELLS then 0
    else if i.lands[k].worker.Some? && (i.lands[k].worker.value.player == PLAYER_NAME) == own then
      AssesWorker(i, WorkerAt(i, k)) + SideTotal(i, k + 1, own)
    else SideTotal(i, k + 1, own)
  }

  /** The status is this player's total minus the opponents' total. */
  lemma {:induction false} StatusIsOwnMinusOpponents(i: Island, k: nat)
    requires WellFormed(i) && k <= CELLS
    ensures StatusFrom(i, k) == SideTotal(i, k, true) - SideTotal(i, k, false)
    decreases CELLS - k
  {
    if k < CELLS {
      StatusIsOwnMinusOpponents(i, k + 1);
      if i.lands[k].worker.Some? {
        var own := i.lands[k].worker.value.player == PLAYER_NAME;
        var v := AssesWorker(i, WorkerAt(i, k));
        assert StatusFrom(i, k) == Signed(i.lands[k].worker.value, v) + StatusFrom(i, k + 1);
        assert SideTotal(i, k, own) == v + SideTotal(i, k + 1, own);
        assert SideTotal(i, k, !own) == SideTotal(i, k + 1, !own);
      }
    }
  }

  /** A neighbour's level once the command's build is counted. */
  function LevelAfterBuild(i: Island, cmd: MoveCommand, n: Coord): int
    requires WellFormed(i) && IsValid(n)
  {
    LevelAt(i, n) + if Coords.Equals(cmd.buildAt, Some(n)) then 1 else 0
  }

  /** The per-neighbour terms of the command score: 100 per level after the
      build (-100 for level 4), plus 10, 5 or 1 for a neighbour one level up,
      level, or lower than the destination. */
  function CommandTerms(i: Island, cmd: MoveCommand, here: int, ns: seq<Coord>): int
    requires WellFormed(i) && forall n :: n in ns ==> IsValid(n)
  {
    if |ns| == 0 then 0
    else
      var nl := LevelAfterBuild(i, cmd, ns[0]);
      var bonus := if nl == here + 1 then 10 else if nl == here then 5 else if nl < here then 1 else 0;
      100 * (if nl == 4 then -1 else nl) + bonus + CommandTerms(i, cmd, here, ns[1..])
  }

  /** AssesWorker(worker, island, command): the worker argument is never
      read, every worker is scored at the command's destination. An
      off-board destination makes the source dereference null. */
  function AssesWorkerCmd(i: Island, cmd: MoveCommand): int
    requires WellFormed(i) && IsValid(cmd.moveTo)
  {
    var here := LevelAt(i, cmd.moveTo);
    if here == 3 then WIN_SCORE
    else 1000 * here + CommandTerms(i, cmd, here, Neighbours(cmd.moveTo))
  }

  /** AssesCommand from index k on. */
  function CommandFrom(i: Island, cmd: MoveCommand, k: nat): int
    requires WellFormed(i) && IsValid(cmd.moveTo) && k <= CELLS
    decreases CELLS - k
  {
    if k == CELLS then 0
    else if i.lands[k].worker.None? then CommandFrom(i, cmd, k + 1)
    else Signed(i.lands[k].worker.value, AssesWorkerCmd(i, cmd)) + CommandFrom(i, cmd, k + 1)
  }

  function AssesCommand(i: Island, cmd: MoveCommand): int
    requires WellFormed(i) && IsValid(cmd.moveTo)
  {
    CommandFrom(i, cmd, 0)
  }

  /** Own workers minus other workers from index k on. */
  function Balance(lands: seq<Land>, k: nat): int
    requires k <= |lands|
    decreases |lands| - k
  {
    if k == |lands| then 0
    else if lands[k].worker.None? then Balance(lands, k + 1)
    else (if lands[k].worker.value.player == PLAYER_NAME then 1 else -1) + Balance(lands, k + 1)
  }

  /** The same worker score counted once per worker, with its side's sign. */
  function SignedSum(lands: seq<Land>, v: int, k: nat): int
    requires k <= |lands|
    decreases |lands| - k
  {
    if k == |lands| then 0
    else if lands[k].worker.None? then SignedSum(lands, v, k + 1)
    else Signed(lands[k].worker.value, v) + SignedSum(lands, v, k + 1)
  }

  lemma {:induction false} SignedSumIsBalanceTimes(lands: seq<Land>, v: int, k: nat)
    requires k <= |lands|
    ensures SignedSum(lands, v, k) == Balance(lands, k) * v
    decreases |lands| - k
  {
    if k < |lands| {
      SignedSumIsBalanceTimes(lands, v, k + 1);
      if lands[k].worker.Some? {
        var own := lands[k].worker.value.player == PLAYER_NAME;
        SignedStep(own, SignedSum(lands, v, k), Balance(lands, k), SignedSum(lands, v, k + 1), Balance(lands, k + 1), v);
      }
    }
  }

  /** One more worker: its signed score joins the sum and its sign the
      balance. */
  lemma SignedStep(own: bool, sum: int, balance: int, restSum: int, restBalance: int, v: int)
    requires restSum == restBalance * v
    requires sum == (if own then v else -v) + restSum
    requires balance == (if own then 1 else -1) + restBalance
    ensures sum == balance * v
  {
  }

  lemma {:induction false} CommandFromIsSignedSum(i: Island, cmd: MoveCommand, k: nat)
    requires WellFormed(i) && IsValid(cmd.moveTo) && k <= CELLS
    ensures CommandFrom(i, cmd, k) == SignedSum(i.lands, AssesWorkerCmd(i, cmd), k)
    decreases CELLS - k
  {
    if k < CELLS {
      CommandFromIsSignedSum(i, cmd, k + 1);
    }
  }

  /** Because the worker is ignored, a command's value is one score times
      the difference in worker counts: with as many workers on each side,
      every command is worth 0. */
  lemma AssesCommandIsBalanceTimesScore(i: Island, cmd: MoveCommand)
    requires WellFormed(i) && IsValid(cmd.moveTo)
    ensures AssesCommand(i, cmd) == Balance(i.lands, 0) * AssesWorkerCmd(i, cmd)
  {
    CommandFromIsSignedSum(i, cmd, 0);
    SignedSumIsBalanceTimes(i.lands, AssesWorkerCmd(i, cmd), 0);
  }

  // ----- one-ply choice -----

  /** The choice loop of GetNextMoveCommand over precomputed values: the
      index of the last value that is greatest and at least LOSS_SCORE
      (`>=` lets later ties win), or -1 when every value is below LOSS_SCORE. */
  method LastBest(vs: seq<int>) returns (best: int)
    ensures -1 <= best < |vs|
    ensures best == -1 <==> forall k :: 0 <= k < |vs| ==> vs[k] < LOSS_SCORE
    ensures best >= 0 ==>
      && vs[best] >= LOSS_SCORE
      && (forall j :: 0 <= j < |vs| ==> vs[j] <= vs[best])
      && (forall j :: best < j < |vs| ==> vs[j] < vs[best])
  {
    best := -1;
    var bestValue := LOSS_SCORE;
    var n := 0;
    while n < |vs|
      invariant 0 <= n <= |vs| && -1 <= best < n
      invariant best == -1 ==> bestValue == LOSS_SCORE && forall k :: 0 <= k < n ==> vs[k] < LOSS_SCORE
      invariant best >= 0 ==>
        && bestValue == vs[best] && bestValue >= LOSS_SCORE
        && (forall j :: 0 <= j < n ==> vs[j] <= bestValue)
        && (forall j :: best < j < n ==> vs[j] < bestValue)
    {
      if vs[n] >= bestValue {
        bestValue := vs[n];
        best := n;
      }
      n := n + 1;
    }
  }

  /** AssesCommand of every candidate, in order. */
  function Values(i: Island, cmds: seq<MoveCommand>): (vs: seq<int>)
    requires WellFormed(i) && forall c :: c in cmds ==> IsValid(c.moveTo)
    ensures |vs| == |cmds|
    ensures forall k :: 0 <= k < |cmds| ==> vs[k] == AssesCommand(i, cmds[k])
  {
    seq(|cmds|, k requires 0 <= k < |cmds| => AssesCommand(i, cmds[k]))
  }

  /** What the one-ply choice promises: none exactly when no candidate's
      AssesCommand value reaches LOSS_SCORE; otherwise a candidate of
      greatest value, at least LOSS_SCORE, with no later candidate reaching
      that value (ties go to the last). */
  ghost predicate BestChoice(i: Island, cmds: seq<MoveCommand>, best: Option<MoveCommand>)
    requires WellFormed(i) && forall c :: c in cmds ==> IsValid(c.moveTo)
  {
    && (best.None? <==> forall k :: 0 <= k < |cmds| ==> AssesCommand(i, cmds[k]) < LOSS_SCORE)
    && (best.Some? ==> exists k ::
          && 0 <= k < |cmds| && cmds[k] == best.value
          && AssesCommand(i, cmds[k]) >= LOSS_SCORE
          && (forall j :: 0 <= j < |cmds| ==> AssesCommand(i, cmds[j]) <= AssesCommand(i, cmds[k]))
          && (forall j :: k < j < |cmds| ==> AssesCommand(i, cmds[j]) < AssesCommand(i, cmds[k])))
  }

  /** The one-ply choice: the last candidate of greatest AssesCommand value,
      provided that value reaches LOSS_SCORE; none otherwise. */
  method SelectBest(i: Island, cmds: seq<MoveCommand>) returns (best: Option<MoveCommand>)
    requires WellFormed(i) && forall c :: c in cmds ==> IsValid(c.moveTo)
    ensures BestChoice(i, cmds, best)
  {
    var vs := Values(i, cmds);
    var k := LastBest(vs);
    if k == -1 {
      best := None;
    } else {
      best := Some(cmds[k]);
      ValuesAt(i, cmds, k);
    }
  }

  /** Reads the values of Values back as AssesCommand of each candidate. */
  lemma ValuesAt(i: Island, cmds: seq<MoveCommand>, k: int)
    requires WellFormed(i) && forall c :: c in cmds ==> IsValid(c.moveTo)
    requires 0 <= k < |cmds|
    requires var vs := Values(i, cmds);
      && vs[k] >= LOSS_SCORE
      && (forall j :: 0 <= j < |vs| ==> vs[j] <= vs[k])
      && (forall j :: k < j < |vs| ==> vs[j] < vs[k])
    ensures AssesCommand(i, cmds[k]) >= LOSS_SCORE
    ensures forall j :: 0 <= j < |cmds| ==> AssesCommand(i, cmds[j]) <= AssesCommand(i, cmds[k])
    ensures forall j :: k < j < |cmds| ==> AssesCommand(i, cmds[j]) < AssesCommand(i, cmds[k])
  {
  }

  /** GetNextMoveCommand as written: generation for workers 0 and 1, then
      the choice. */
  method GetNextMoveCommand(i: Island) returns (r: Outcome<Option<MoveCommand>>)
    requires WellFormed(i)
    ensures r.Threw? <==> GenerateAllPossibleCommands(i, PLAYER_NAME).Threw?
    ensures r.Returned? && r.value.Some? ==> r.value.value in GenerateAllPossibleCommands(i, PLAYER_NAME).value
    ensures r.Returned? ==> BestChoice(i, GenerateAllPossibleCommands(i, PLAYER_NAME).value, r.value)
  {
    match GenerateAllPossibleCommands(i, PLAYER_NAME)
    case Threw(e) => r := Threw(e);
    case Returned(cmds) =>
      var best := SelectBest(i, cmds);
      r := Returned(best);
  }

  /** The same choice over the corrected candidates. */
  method ChooseLegalCommand(i: Island) returns (r: Outcome<Option<MoveCommand>>)
    requires WellFormed(i)
    ensures r.Threw? <==> GenerateLegalCommands(i, PLAYER_NAME).Threw?
    ensures r.Returned? && r.value.Some? ==> r.value.value in GenerateLegalCommands(i, PLAYER_NAME).value
    ensures r.Returned? ==> BestChoice(i, GenerateLegalCommands(i, PLAYER_NAME).value, r.value)
  {
    match GenerateLegalCommands(i, PLAYER_NAME)
    case Threw(e) => r := Threw(e);
    case Returned(cmds) =>
      var best := SelectBest(i, cmds);
      r := Returned(best);
  }
}
