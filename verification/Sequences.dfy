/** Places in sequences. */
module Sequences {

  /** Where `x` first stands. */
  function Place<T(==)>(s: seq<T>, x: T): (i: nat)
    requires x in s
    ensures i < |s| && s[i] == x
  {
    if s[0] == x then 0 else 1 + Place(s[1..], x)
  }
}
