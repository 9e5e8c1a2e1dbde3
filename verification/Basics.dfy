/** Small helpers shared by the other modules. */
module Basics {

  function Min(a: int, b: int): int { if a < b then a else b }

  lemma Regroup<T>(a: seq<T>, b: seq<T>, c: seq<T>)
    ensures (a + b) + c == a + (b + c)
  {
  }
}
