/**
 Erasing an element of an array-backed bag: the last element takes its place.
 */
module Erasing {

  function Erased<T>(s: seq<T>, ix: nat): seq<T>
    requires ix < |s|
  {
    if ix == |s| - 1 then s[..ix] else s[ix := s[|s| - 1]][..|s| - 1]
  }

  lemma ErasedBag<T>(s: seq<T>, ix: nat)
    requires ix < |s|
    ensures multiset(Erased(s, ix)) + multiset{s[ix]} == multiset(s)
    ensures Erased(s, ix)[..ix] == s[..ix]
  {
    if ix == |s| - 1 {
      assert s == s[..ix] + [s[ix]];
    } else {
      Cut(s, ix);
      CutErased(s, ix);
      Pieces(s[..ix], s[ix], s[ix + 1..|s| - 1], s[|s| - 1]);
    }
  }

  lemma Cut<T>(s: seq<T>, ix: nat)
    requires ix < |s| - 1
    ensures s == s[..ix] + [s[ix]] + s[ix + 1..|s| - 1] + [s[|s| - 1]]
  {}

  lemma CutErased<T>(s: seq<T>, ix: nat)
    requires ix < |s| - 1
    ensures Erased(s, ix) == s[..ix] + [s[|s| - 1]] + s[ix + 1..|s| - 1]
  {}

  lemma Pieces<T>(a: seq<T>, x: T, b: seq<T>, y: T)
    ensures multiset(a + [y] + b) + multiset{x} == multiset(a + [x] + b + [y])
  {}
}
