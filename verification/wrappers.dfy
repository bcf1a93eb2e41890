/** Failure-carrying datatypes shared by the whole model.
    - Option<T> stands for a C# reference that may be null.
    - Outcome<T> stands for a call that either returns a value or throws
      one of the exceptions the engine raises. */
module Wrappers {

  datatype Option<+T> = None | Some(value: T)

  /** The exception classes the engine can raise. */
  datatype Exception =
    | ArgumentNull        // ArgumentNullException
    | ArgumentOutOfRange  // ArgumentOutOfRangeException
    | NullReference       // NullReferenceException from dereferencing null
    | IndexOutOfRange     // IndexOutOfRangeException from an array access
    | Failed              // a bare System.Exception

  datatype Outcome<+T> = Returned(value: T) | Threw(error: Exception)

  /** Membership in a non-empty sequence: the head or the tail. */
  lemma InHeadOrTail<T>(s: seq<T>, x: T)
    requires |s| > 0
    ensures x in s <==> x == s[0] || x in s[1..]
  {
    if x in s && x != s[0] {
      var k :| 0 <= k < |s| && s[k] == x;
      assert s[1..][k - 1] == x;
    }
  }
}
