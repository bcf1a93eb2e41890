/** Board coordinates (src/Santorini/Boarding/Coord.cs). */
module Coords {
  import opened Wrappers

  /** Largest index on either axis (Island.MaxPositions). */
  const MAX_POSITION := 4

  datatype Coord = Coord(x: int, y: int)

  /** Island.IsValidPosition: both indices within 0..MAX_POSITION. */
  predicate IsValidPosition(x: int, y: int)
  {
    x >= 0 && y >= 0 && x <= MAX_POSITION && y <= MAX_POSITION
  }

  /** Coord.IsValid delegates to Island.IsValidPosition. */
  predicate IsValid(c: Coord)
  {
    IsValidPosition(c.x, c.y)
  }

  lemma IsValidRange(c: Coord)
    ensures IsValid(c) <==> 0 <= c.x <= 4 && 0 <= c.y <= 4
  {
  }

  /** Coord.Equals(Coord): false against null, field-wise otherwise. */
  function Equals(c: Coord, other: Option<Coord>): (r: bool)
    ensures r <==> other == Some(c)
  {
    match other
    case None => false
    case Some(o) => c.x == o.x && c.y == o.y
  }

  /** The run-time view of an `object` argument of Coord.Equals(object). */
  datatype Object = NullObject | CoordObject(coord: Coord) | OtherObject

  /** Coord.Equals(object): false for null and for any other run-time type. */
  function EqualsObject(c: Coord, obj: Object): (r: bool)
    ensures obj.NullObject? || obj.OtherObject? ==> !r
    ensures obj.CoordObject? ==> (r <==> Equals(c, Some(obj.coord)))
  {
    match obj
    case CoordObject(o) => Equals(o, Some(c))
    case _ => false
  }

  /** The `==` operator on two possibly-null coordinates. */
  function OpEquals(c1: Option<Coord>, c2: Option<Coord>): (r: bool)
    ensures c1.None? && c2.None? ==> r
    ensures c1.None? != c2.None? ==> !r
    ensures r <==> c1 == c2
  {
    if c1.None? && c2.None? then true
    else if c1.None? || c2.None? then false
    else c1.value.x == c2.value.x && c1.value.y == c2.value.y
  }

  /** The `!=` operator. */
  function OpNotEquals(c1: Option<Coord>, c2: Option<Coord>): (r: bool)
    ensures r <==> !OpEquals(c1, c2)
    ensures r <==> c1 != c2
  {
    !OpEquals(c1, c2)
  }

  lemma EqualityIsReflexiveAndSymmetric(a: Option<Coord>, b: Option<Coord>)
    ensures OpEquals(a, a)
    ensures OpEquals(a, b) == OpEquals(b, a)
    ensures a.Some? ==> Equals(a.value, a) && EqualsObject(a.value, CoordObject(a.value))
    ensures a.Some? ==> Equals(a.value, b) == (b.Some? && Equals(b.value, a))
  {
  }

  // ----- GetHashCode, with C#'s 32-bit unchecked arithmetic -----

  const TWO_32: int := 0x1_0000_0000
  const TWO_31: int := 0x8000_0000

  predicate IsInt32(v: int)
  {
    -TWO_31 <= v < TWO_31
  }

  /** Reduce an unbounded integer to the Int32 value with the same low 32 bits. */
  function Wrap32(v: int): (r: int)
    ensures IsInt32(r)
    ensures (r - v) % TWO_32 == 0
  {
    var m := v % TWO_32;
    if m >= TWO_31 then m - TWO_32 else m
  }

  const HASH_SEED: int := -665186484
  const HASH_FACTOR: int := -1521134295

  /** Coord.GetHashCode: the Int32 hash combination of X then Y (an int's own
      hash code is the int itself). The source's fields are 32-bit. */
  function HashCode(c: Coord): (r: int)
    requires IsInt32(c.x) && IsInt32(c.y)
    ensures IsInt32(r)
  {
    var h1 := Wrap32(HASH_SEED * HASH_FACTOR + c.x);
    Wrap32(h1 * HASH_FACTOR + c.y)
  }

  /** Equal coordinates (in the sense of `==`) have equal hash codes. */
  lemma EqualCoordsHashEqually(a: Coord, b: Coord)
    requires IsInt32(a.x) && IsInt32(a.y) && IsInt32(b.x) && IsInt32(b.y)
    requires OpEquals(Some(a), Some(b))
    ensures HashCode(a) == HashCode(b)
  {
  }
}
