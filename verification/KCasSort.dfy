/**
 Sorting a k-CAS descriptor's entries by address before the operation is published.
 */
module KCasSort {
  import opened KCas

  ghost predicate SortedFrom(s: seq<Entry>, lo: nat) {
    forall p, q :: lo <= p < q < |s| ==> s[p].addr <= s[q].addr
  }

  ghost predicate Below(s: seq<Entry>, m: nat) {
    forall p, q :: 0 <= p < m <= q < |s| ==> s[p].addr <= s[q].addr
  }

  // `s` up to and including `j` has no address above that of `s[j]`.
  ghost predicate Highest(s: seq<Entry>, j: nat) { forall p :: 0 <= p < j < |s| ==> s[p].addr <= s[j].addr }

  lemma SwapBag(s: seq<Entry>, j: nat)
    requires j + 1 < |s|
    ensures multiset(s[j := s[j + 1]][j + 1 := s[j]]) == multiset(s)
  {}

  // One step of a pass: the larger of two neighbours moves up.
  function Bubbled(s: seq<Entry>, j: nat): seq<Entry> requires j + 1 < |s| {
    if s[j].addr > s[j + 1].addr then s[j := s[j + 1]][j + 1 := s[j]] else s
  }

  lemma BubbledKeeps(s: seq<Entry>, j: nat, m: nat)
    requires j + 1 < m <= |s| && Highest(s, j) && SortedFrom(s, m) && Below(s, m)
    ensures Highest(Bubbled(s, j), j + 1) && SortedFrom(Bubbled(s, j), m) && Below(Bubbled(s, j), m)
  {}

  // A pass in which nothing was swapped.
  ghost predicate Ordered(s: seq<Entry>, j: nat) {
    forall p :: 0 <= p < j && p + 1 < |s| ==> s[p].addr <= s[p + 1].addr
  }

  lemma {:induction false} OrderedSorted(s: seq<Entry>, p: nat, q: nat)
    requires p <= q < |s| && Ordered(s, |s| - 1)
    ensures s[p].addr <= s[q].addr
  {
    if p < q { OrderedSorted(s, p, q - 1); }
  }

  lemma Exchanged(s: seq<Entry>, t: seq<Entry>, j: nat)
    requires j + 1 < |s| && |t| == |s| && t[j] == s[j + 1] && t[j + 1] == s[j]
    requires forall p :: 0 <= p < |s| && p != j && p != j + 1 ==> t[p] == s[p]
    ensures t == s[j := s[j + 1]][j + 1 := s[j]]
  {}

  // One comparison.
  method Compare(entries: array<Entry>, j: nat) returns (swapped: bool)
    requires j + 1 < entries.Length
    modifies entries
    ensures entries[..] == Bubbled(old(entries[..]), j)
    ensures swapped <==> old(entries[j].addr > entries[j + 1].addr)
  {
    swapped := entries[j].addr > entries[j + 1].addr;
    if swapped {
      var temp := entries[j];
      entries[j] := entries[j + 1];
      entries[j + 1] := temp;
      Exchanged(old(entries[..]), entries[..], j);
    }
  }

  ghost predicate Same(s: seq<Entry>, t: seq<Entry>) { |s| == |t| && multiset(s) == multiset(t) }

  // The last `|s| - m` entries are in place, and a pass has reached entry `j`.
  ghost predicate Passing(s: seq<Entry>, m: nat, j: nat) {
    Highest(s, j) && SortedFrom(s, m) && Below(s, m)
  }

  lemma PassEnds(s: seq<Entry>, m: nat)
    requires 0 < m <= |s| && Passing(s, m, m - 1)
    ensures SortedFrom(s, m - 1) && Below(s, m - 1)
  {}

  lemma PassStep(s: seq<Entry>, m: nat, j: nat)
    requires j + 1 < m <= |s| && Passing(s, m, j)
    ensures Passing(Bubbled(s, j), m, j + 1) && Same(Bubbled(s, j), s)
    ensures s[j].addr <= s[j + 1].addr && Ordered(s, j) ==> Ordered(Bubbled(s, j), j + 1)
  {
    BubbledKeeps(s, j, m);
    if s[j].addr > s[j + 1].addr { SwapBag(s, j); }
  }

  // The inner loop: the largest of the first `m` entries moves to their end.
  method Pass(entries: array<Entry>, m: nat) returns (swapped: bool)
    requires 0 < m <= entries.Length && Passing(entries[..], m, 0)
    modifies entries
    ensures Passing(entries[..], m, m - 1) && Same(entries[..], old(entries[..]))
    ensures !swapped ==> Ordered(entries[..], m - 1)
  {
    swapped := false;
    for j := 0 to m - 1
      invariant Passing(entries[..], m, j) && Same(entries[..], old(entries[..]))
      invariant !swapped ==> Ordered(entries[..], j)
    {
      PassStep(entries[..], m, j);
      var b := Compare(entries, j);
      swapped := swapped || b;
    }
  }

  /** The entries end up in address order, and are the same entries. */
  method KcasdescSort(entries: array<Entry>)
    modifies entries
    ensures SortedFrom(entries[..], 0) && Same(entries[..], old(entries[..]))
  {
    var n := entries.Length;
    var swapped := false;
    for i := 0 to n
      invariant Passing(entries[..], n - i, 0) && Same(entries[..], old(entries[..]))
      invariant !swapped ==> i == 0
    {
      var b := Pass(entries, n - i);
      PassEnds(entries[..], n - i);
      swapped := swapped || b;
      if !swapped {
        AllOrdered(entries[..]);
        break;
      }
    }
  }

  lemma AllOrdered(s: seq<Entry>)
    requires s != [] && Ordered(s, |s| - 1)
    ensures SortedFrom(s, 0)
  {
    forall p, q | 0 <= p < q < |s| ensures s[p].addr <= s[q].addr { OrderedSorted(s, p, q); }
  }

  /** Entries with different addresses are in strictly increasing order after sorting. */
  lemma SortedStrict(s: seq<Entry>, t: seq<Entry>)
    requires DistinctAddrs(s) && multiset(t) == multiset(s) && SortedFrom(t, 0)
    ensures forall p, q :: 0 <= p < q < |t| ==> t[p].addr < t[q].addr
  {
    forall p, q | 0 <= p < q < |t| ensures t[p].addr < t[q].addr {
      if t[p].addr == t[q].addr { Together(s, t, p, q); }
    }
  }

  lemma WithoutOne(s: seq<Entry>, i: nat)
    requires i < |s|
    ensures multiset(s) == multiset(s[..i] + s[i + 1..]) + multiset{s[i]}
  {
    assert s == s[..i] + [s[i]] + s[i + 1..];
  }

  lemma Cancel(a: multiset<Entry>, b: multiset<Entry>, x: Entry)
    requires a + multiset{x} == b + multiset{x}
    ensures a == b
  {
    forall y ensures a[y] == b[y] { assert (a + multiset{x})[y] == (b + multiset{x})[y]; }
  }

  lemma Together(s: seq<Entry>, t: seq<Entry>, p: nat, q: nat)
    requires DistinctAddrs(s) && multiset(t) == multiset(s) && p < q < |t|
    ensures t[p].addr != t[q].addr
  {
    var rest := t[..p] + t[p + 1..];
    assert t[p] in multiset(t);
    var i :| 0 <= i < |s| && s[i] == t[p];
    var others := s[..i] + s[i + 1..];
    WithoutOne(t, p);
    WithoutOne(s, i);
    Cancel(multiset(rest), multiset(others), t[p]);
    assert rest[q - 1] == t[q];
    assert t[q] in multiset(rest);
    var j :| 0 <= j < |others| && others[j] == t[q];
    var k := if j < i then j else j + 1;
    assert s[k] == t[q];
  }
}
