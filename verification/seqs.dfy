/** Sequence shapes the generator's LINQ pipelines produce: a `Where` keeps
    the elements that pass a test in their input order, and a nested
    `foreach` (or `SelectMany`) concatenates the inner results in the order
    of the outer loop. */
module Seqs {

  /** Every index, plus one. */
  function Shift(idx: seq<nat>): (r: seq<nat>)
    ensures |r| == |idx|
    ensures forall t :: 0 <= t < |r| ==> r[t] == idx[t] + 1
  {
    seq(|idx|, t requires 0 <= t < |idx| => idx[t] + 1)
  }

  /** The positions of `s` whose element passes `keep`: each names a passing
      element, they ascend strictly, and no passing position is missing. */
  function Kept<T>(keep: T -> bool, s: seq<T>): (r: seq<nat>)
    ensures KeptFrom(keep, s, r)
  {
    if |s| == 0 then []
    else
      var rest := Kept(keep, s[1..]);
      var r := (if keep(s[0]) then [0] else []) + Shift(rest);
      KeptStep(keep, s, rest);
      r
  }

  /** `r` lists, in ascending order, exactly the positions of `s` whose
      element passes `keep`. */
  ghost predicate KeptFrom<T>(keep: T -> bool, s: seq<T>, r: seq<nat>)
  {
    && (forall t :: 0 <= t < |r| ==> r[t] < |s| && keep(s[r[t]]))
    && (forall t, u :: 0 <= t < u < |r| ==> r[t] < r[u])
    && (forall j :: 0 <= j < |s| && keep(s[j]) ==> j in r)
  }

  lemma KeptStep<T>(keep: T -> bool, s: seq<T>, rest: seq<nat>)
    requires |s| > 0 && KeptFrom(keep, s[1..], rest)
    ensures KeptFrom(keep, s, (if keep(s[0]) then [0] else []) + Shift(rest))
  {
    var head: seq<nat> := if keep(s[0]) then [0] else [];
    KeptStepPass(keep, s, head, rest);
    KeptStepAscend(head, rest);
    KeptStepAll(keep, s, head, rest);
  }

  lemma KeptStepPass<T>(keep: T -> bool, s: seq<T>, head: seq<nat>, rest: seq<nat>)
    requires |s| > 0 && head == (if keep(s[0]) then [0] else [])
    requires forall t :: 0 <= t < |rest| ==> rest[t] < |s[1..]| && keep(s[1..][rest[t]])
    ensures forall t :: 0 <= t < |head + Shift(rest)| ==>
      (head + Shift(rest))[t] < |s| && keep(s[(head + Shift(rest))[t]])
  {
    var r := head + Shift(rest);
    forall t | 0 <= t < |r|
      ensures r[t] < |s| && keep(s[r[t]])
    {
      if t >= |head| {
        assert r[t] == rest[t - |head|] + 1;
        assert s[r[t]] == s[1..][rest[t - |head|]];
      }
    }
  }

  lemma KeptStepAscend(head: seq<nat>, rest: seq<nat>)
    requires head == [] || head == [0]
    requires forall t, u :: 0 <= t < u < |rest| ==> rest[t] < rest[u]
    ensures forall t, u :: 0 <= t < u < |head + Shift(rest)| ==> (head + Shift(rest))[t] < (head + Shift(rest))[u]
  {
    var r := head + Shift(rest);
    forall t, u | 0 <= t < u < |r|
      ensures r[t] < r[u]
    {
      assert r[u] == rest[u - |head|] + 1;
      if t >= |head| {
        assert r[t] == rest[t - |head|] + 1;
      }
    }
  }

  lemma KeptStepAll<T>(keep: T -> bool, s: seq<T>, head: seq<nat>, rest: seq<nat>)
    requires |s| > 0 && head == (if keep(s[0]) then [0] else [])
    requires forall j :: 0 <= j < |s[1..]| && keep(s[1..][j]) ==> j in rest
    ensures forall j :: 0 <= j < |s| && keep(s[j]) ==> j in head + Shift(rest)
  {
    var r := head + Shift(rest);
    forall j | 0 <= j < |s| && keep(s[j])
      ensures j in r
    {
      if j == 0 {
        assert r[0] == 0;
      } else {
        assert s[1..][j - 1] == s[j];
        var t :| 0 <= t < |rest| && rest[t] == j - 1;
        assert r[|head| + t] == j;
      }
    }
  }

  /** `r` is `s` with the elements that fail `keep` dropped and the others
      left in their order. */
  predicate KeepsInOrder<T(==)>(keep: T -> bool, s: seq<T>, r: seq<T>)
  {
    var idx := Kept(keep, s);
    |r| == |idx| && forall t :: 0 <= t < |r| ==> r[t] == s[idx[t]]
  }

  /** A filter that decides the head and then filters the tail keeps the
      passing elements in order. */
  lemma KeepsCons<T>(keep: T -> bool, s: seq<T>, rest: seq<T>)
    requires |s| > 0 && KeepsInOrder(keep, s[1..], rest)
    ensures KeepsInOrder(keep, s, (if keep(s[0]) then [s[0]] else []) + rest)
  {
    var idx := Kept(keep, s[1..]);
    var head: seq<nat> := if keep(s[0]) then [0] else [];
    var hs := if keep(s[0]) then [s[0]] else [];
    assert Kept(keep, s) == head + Shift(idx);
    assert forall t :: 0 <= t < |idx| ==> idx[t] < |s[1..]|;
    PickShifted(s, head, idx, hs, rest);
  }

  /** Picking the tail's positions, shifted by one, behind an optional head. */
  lemma PickShifted<T>(s: seq<T>, head: seq<nat>, idx: seq<nat>, hs: seq<T>, rest: seq<T>)
    requires |s| > 0
    requires (head == [] && hs == []) || (head == [0] && hs == [s[0]])
    requires forall t :: 0 <= t < |idx| ==> idx[t] < |s[1..]|
    requires |rest| == |idx| && forall t :: 0 <= t < |rest| ==> rest[t] == s[1..][idx[t]]
    ensures |hs + rest| == |head + Shift(idx)|
    ensures forall t :: 0 <= t < |hs + rest| ==> (hs + rest)[t] == s[(head + Shift(idx))[t]]
  {
    var r, p := hs + rest, head + Shift(idx);
    forall t | 0 <= t < |r|
      ensures r[t] == s[p[t]]
    {
      if t >= |hs| {
        assert r[t] == rest[t - |hs|] && p[t] == idx[t - |hs|] + 1;
      }
    }
  }

  /** The sequences of `ss`, one after the other. */
  function Flatten<T>(ss: seq<seq<T>>): seq<T>
  {
    if |ss| == 0 then [] else ss[0] + Flatten(ss[1..])
  }
}
