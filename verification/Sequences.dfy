/** The front and last element of a sequence, and the stable sort of the source's languages. */
module Sequences {

  function Front<T>(xs: seq<T>): seq<T>
    requires xs != []
  {
    xs[..|xs| - 1]
  }

  function Last<T>(xs: seq<T>): T
    requires xs != []
  {
    xs[|xs| - 1]
  }

  /** `x` goes behind the elements that must come before it. */
  function Insert<T>(x: T, xs: seq<T>, before: (T, T) -> bool): seq<T> {
    if xs != [] && before(xs[0], x) then [xs[0]] + Insert(x, xs[1..], before) else [x] + xs
  }

  function StableSort<T>(xs: seq<T>, before: (T, T) -> bool): seq<T> {
    if xs == [] then [] else Insert(xs[0], StableSort(xs[1..], before), before)
  }

  lemma {:induction false} InsertKeeps<T>(x: T, xs: seq<T>, before: (T, T) -> bool)
    ensures multiset(Insert(x, xs, before)) == multiset(xs) + multiset{x}
  {
    if xs != [] && before(xs[0], x) {
      InsertKeeps(x, xs[1..], before);
      assert xs == [xs[0]] + xs[1..];
    }
  }

  lemma {:induction false} SortKeepsElements<T>(xs: seq<T>, before: (T, T) -> bool)
    ensures multiset(StableSort(xs, before)) == multiset(xs)
  {
    if xs != [] {
      SortKeepsElements(xs[1..], before);
      InsertKeeps(xs[0], StableSort(xs[1..], before), before);
      assert xs == [xs[0]] + xs[1..];
    }
  }
}
