/** A stable insertion sort, highest key first, as LINQ's OrderByDescending
    orders a sequence: elements with equal keys keep their input order, which
    is stated as "the elements of each key are the same sequence before and
    after" (WithKey). */
module Sorting {
  import opened Wrappers

  /** Keys never increase from one element to the next. */
  predicate Descending<T>(key: T -> int, s: seq<T>)
  {
    forall a :: 0 < a < |s| ==> key(s[a - 1]) >= key(s[a])
  }

  /** A descending sequence is ordered between any two positions, not only
      neighbouring ones. */
  lemma {:induction false} DescendingMeansOrdered<T>(key: T -> int, s: seq<T>, a: int, b: int)
    requires Descending(key, s)
    requires 0 <= a <= b < |s|
    ensures key(s[a]) >= key(s[b])
    decreases b - a
  {
    if a < b {
      DescendingMeansOrdered(key, s, a + 1, b);
      assert key(s[a]) >= key(s[a + 1]);
    }
  }

  /** The elements whose key is v, in their order in s. */
  function WithKey<T>(key: T -> int, s: seq<T>, v: int): seq<T>
  {
    if |s| == 0 then []
    else (if key(s[0]) == v then [s[0]] else []) + WithKey(key, s[1..], v)
  }

  lemma {:induction false} WithKeyConcat<T>(key: T -> int, a: seq<T>, b: seq<T>, v: int)
    ensures WithKey(key, a + b, v) == WithKey(key, a, v) + WithKey(key, b, v)
    decreases |a|
  {
    if |a| > 0 {
      assert (a + b)[1..] == a[1..] + b;
      WithKeyConcat(key, a[1..], b, v);
    } else {
      assert a + b == b;
    }
  }

  /** In a descending sequence that starts below v, no element has key v. */
  lemma {:induction false} NoneWithKeyBelow<T>(key: T -> int, s: seq<T>, v: int)
    requires Descending(key, s) && |s| > 0 && key(s[0]) < v
    ensures WithKey(key, s, v) == []
    decreases |s|
  {
    if |s| > 1 {
      assert Descending(key, s[1..]) by {
        forall a | 0 < a < |s[1..]|
          ensures key(s[1..][a - 1]) >= key(s[1..][a])
        {
          assert s[1..][a - 1] == s[a] && s[1..][a] == s[a + 1];
        }
      }
      NoneWithKeyBelow(key, s[1..], v);
    }
  }

  /** Inserts c after every element whose key is at least c's. */
  function Insert<T(!new)>(key: T -> int, c: T, s: seq<T>): (r: seq<T>)
    requires Descending(key, s)
    ensures |r| == |s| + 1 && (r[0] == c || (|s| > 0 && r[0] == s[0]))
    ensures forall n :: n in r <==> n in s || n == c
    ensures Descending(key, r)
  {
    if |s| == 0 then [c]
    else if key(s[0]) >= key(c) then
      var rest := Insert(key, c, s[1..]);
      forall n ensures n in s <==> n == s[0] || n in s[1..] {
        InHeadOrTail(s, n);
      }
      var r := [s[0]] + rest;
      forall a | 0 < a < |r|
        ensures key(r[a - 1]) >= key(r[a])
      {
        if a > 1 {
          assert r[a - 1] == rest[a - 2] && r[a] == rest[a - 1];
        }
      }
      r
    else
      [c] + s
  }

  /** Insertion puts c after every element that shares its key. */
  lemma {:induction false} InsertIsStable<T(!new)>(key: T -> int, c: T, s: seq<T>, v: int)
    requires Descending(key, s)
    ensures WithKey(key, Insert(key, c, s), v) == WithKey(key, s, v) + (if key(c) == v then [c] else [])
    decreases |s|
  {
    if |s| == 0 {
    } else if key(s[0]) >= key(c) {
      assert Descending(key, s[1..]) by {
        forall a | 0 < a < |s[1..]|
          ensures key(s[1..][a - 1]) >= key(s[1..][a])
        {
          assert s[1..][a - 1] == s[a] && s[1..][a] == s[a + 1];
        }
      }
      InsertIsStable(key, c, s[1..], v);
      var r := Insert(key, c, s);
      assert r[1..] == Insert(key, c, s[1..]);
    } else {
      var r := [c] + s;
      assert r[1..] == s;
      if key(c) == v {
        NoneWithKeyBelow(key, s, v);
      }
    }
  }

  /** Insertion adds exactly the inserted element. */
  lemma {:induction false} InsertPermutes<T(!new)>(key: T -> int, c: T, s: seq<T>)
    requires Descending(key, s)
    ensures multiset(Insert(key, c, s)) == multiset(s) + multiset{c}
    decreases |s|
  {
    if |s| > 0 && key(s[0]) >= key(c) {
      assert s == [s[0]] + s[1..];
      InsertPermutes(key, c, s[1..]);
    }
  }

  /** Sorts the prefix, then inserts the last element after every element
      of the prefix whose key is at least its own. */
  function SortDescending<T(!new)>(key: T -> int, s: seq<T>): (r: seq<T>)
    ensures multiset(r) == multiset(s)
    ensures forall n :: n in r <==> n in s
    ensures Descending(key, r)
    ensures forall v :: WithKey(key, r, v) == WithKey(key, s, v)
  {
    if |s| == 0 then []
    else
      var init := s[..|s| - 1];
      assert s == init + [s[|s| - 1]];
      var r := Insert(key, s[|s| - 1], SortDescending(key, init));
      InsertPermutes(key, s[|s| - 1], SortDescending(key, init));
      forall v ensures WithKey(key, r, v) == WithKey(key, s, v) {
        InsertIsStable(key, s[|s| - 1], SortDescending(key, init), v);
        WithKeyConcat(key, init, [s[|s| - 1]], v);
      }
      assert forall n :: n in r <==> n in s by {
        forall n ensures n in r <==> n in s {
          assert n in r <==> n in multiset(r);
        }
      }
      r
  }
}
