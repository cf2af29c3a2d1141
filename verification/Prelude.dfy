// Shared helper types.
module Prelude {
  datatype Option<+T> = None | Some(value: T)

  // Number of occurrences of x in s.
  function Count<T(==)>(s: seq<T>, x: T): (n: nat)
  {
    if s == [] then 0 else Count(s[..|s| - 1], x) + if s[|s| - 1] == x then 1 else 0
  }

  lemma CountAppend<T>(s: seq<T>, y: T)
    ensures forall x :: Count(s + [y], x) == Count(s, x) + if y == x then 1 else 0
  {
  }
}
