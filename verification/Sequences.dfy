/** What the verifier has to be told about concatenation. */
module Sequences {
  lemma ConcatAssociates<T>(a: seq<T>, b: seq<T>, c: seq<T>)
    ensures (a + b) + c == a + (b + c)
  {
  }

  lemma NoneMore<T>(xs: seq<T>)
    ensures xs + [] == xs
  {
  }

  lemma FrontAfter<T>(x: T, xs: seq<T>)
    requires xs != []
    ensures ([x] + xs)[..|xs|] == [x] + xs[..|xs| - 1] && ([x] + xs)[|xs|] == xs[|xs| - 1]
  {
  }

  lemma RestOfConcat<T>(xs: seq<T>, ys: seq<T>)
    requires xs != []
    ensures (xs + ys)[1..] == xs[1..] + ys && (xs + ys)[0] == xs[0]
  {
  }

  lemma SplitLast<T>(xs: seq<T>)
    requires xs != []
    ensures xs == xs[..|xs| - 1] + [xs[|xs| - 1]]
  {
  }
}
