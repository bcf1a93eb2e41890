/** Towers (src/Santorini/Pieces/Tower.cs). */
module Towers {

  /** Level at which a tower is complete and can grow no further. */
  const MAX_LEVEL := 4

  datatype Tower = Tower(level: int)

  /** The invariant every tower keeps. */
  predicate ValidTower(t: Tower)
  {
    1 <= t.level <= MAX_LEVEL
  }

  /** A tower is created at level 1. */
  function NewTower(): (t: Tower)
    ensures ValidTower(t) && t.level == 1
  {
    Tower(1)
  }

  predicate IsComplete(t: Tower)
  {
    t.level >= MAX_LEVEL
  }

  /** RaiseLevel: one level up unless complete; answers the new level. */
  function RaiseLevel(t: Tower): (r: (Tower, int))
    ensures r.1 == r.0.level
    ensures t.level < MAX_LEVEL ==> r.0.level == t.level + 1
    ensures IsComplete(t) ==> r.0 == t
    ensures ValidTower(t) ==> ValidTower(r.0) && t.level <= r.0.level
  {
    var t' := if !IsComplete(t) then Tower(t.level + 1) else t;
    (t', t'.level)
  }

  /** DecreaseLevel: one level down unless already at level 1 or below. */
  function DecreaseLevel(t: Tower): (r: (Tower, int))
    ensures r.1 == r.0.level
    ensures t.level > 1 ==> r.0.level == t.level - 1
    ensures t.level <= 1 ==> r.0 == t
    ensures ValidTower(t) ==> ValidTower(r.0)
  {
    var t' := if t.level > 1 then Tower(t.level - 1) else t;
    (t', t'.level)
  }

  /** Lowering a tower that was raised from below the maximum restores it. */
  lemma DecreaseUndoesRaise(t: Tower)
    requires ValidTower(t) && t.level < MAX_LEVEL
    ensures DecreaseLevel(RaiseLevel(t).0).0 == t
  {
  }

  /** Raising never goes past the cap, however often it is repeated. */
  lemma {:induction false} RaiseRepeatedlyCaps(t: Tower, n: nat)
    requires ValidTower(t)
    ensures ValidTower(RaiseTimes(t, n))
    ensures RaiseTimes(t, n).level == if t.level + n < MAX_LEVEL then t.level + n else MAX_LEVEL
    decreases n
  {
    if n > 0 {
      RaiseRepeatedlyCaps(RaiseLevel(t).0, n - 1);
    }
  }

  /** Applies RaiseLevel n times. */
  function RaiseTimes(t: Tower, n: nat): Tower
    decreases n
  {
    if n == 0 then t else RaiseTimes(RaiseLevel(t).0, n - 1)
  }
}
