/**
 The parallel additions of TreeStats: the threads add the counters of their subtrees to the shared ones by
 atomic fetch-and-add, in whatever order.  Every interleaving ends in the same statistics.
 */
module TreeInterleaving {
  import opened TreeStatistics

  // A shared counter, and one fetch-and-add.
  datatype Cell = Row(k: Counter, d: nat) | KeySum
  datatype Faa = Faa(cell: Cell, x: int)

  // What a sequence of additions adds to one counter.
  function Total(a: seq<Faa>, cell: Cell): int {
    if a == [] then 0 else (if a[0].cell == cell then a[0].x else 0) + Total(a[1..], cell)
  }

  lemma {:induction false} TotalPlus(a: seq<Faa>, b: seq<Faa>, cell: Cell)
    ensures Total(a + b, cell) == Total(a, cell) + Total(b, cell)
  {
    if a == [] {
      assert a + b == b;
    } else {
      TotalPlus(a[1..], b, cell);
      assert (a + b)[1..] == a[1..] + b;
    }
  }

  lemma TakeOut(a: seq<Faa>, b: seq<Faa>, i: nat)
    requires multiset(a) == multiset(b) && a != [] && i < |b| && b[i] == a[0]
    ensures multiset(a[1..]) == multiset(b[..i] + b[i + 1..])
  {
    assert a == [a[0]] + a[1..];
    assert b == b[..i] + [b[i]] + b[i + 1..];
    assert multiset(a) == multiset{a[0]} + multiset(a[1..]);
    assert multiset(b) == multiset(b[..i]) + multiset{b[i]} + multiset(b[i + 1..]);
    assert multiset(a[1..]) == multiset(a) - multiset{a[0]};
  }

  lemma TotalOf(b: seq<Faa>, i: nat, cell: Cell)
    requires i < |b|
    ensures Total(b, cell) == Total(b[..i] + b[i + 1..], cell) + (if b[i].cell == cell then b[i].x else 0)
  {
    var rest := [b[i]] + b[i + 1..];
    assert b == b[..i] + rest && rest[1..] == b[i + 1..];
    TotalPlus(b[..i], rest, cell);
    TotalPlus(b[..i], b[i + 1..], cell);
  }

  /** The order of the additions does not matter. */
  lemma {:induction false} TotalPermutes(a: seq<Faa>, b: seq<Faa>, cell: Cell)
    requires multiset(a) == multiset(b)
    ensures Total(a, cell) == Total(b, cell)
  {
    if a != [] {
      assert a[0] in multiset(b);
      var i :| 0 <= i < |b| && b[i] == a[0];
      TakeOut(a, b, i);
      TotalPermutes(a[1..], b[..i] + b[i + 1..], cell);
      TotalOf(b, i, cell);
    } else {
      assert |b| == |multiset(b)|;
    }
  }

  // ---------------------------------------------------------------- one subtree

  function RowAdds(t: Tree, d: nat, c: nat): seq<Faa> {
    [Faa(Row(Internals, d + c), At(t, d, Internals)), Faa(Row(Leaves, d + c), At(t, d, Leaves)),
     Faa(Row(Keys, d + c), At(t, d, Keys)), Faa(Row(KeysInLeaves, d + c), At(t, d, KeysInLeaves)),
     Faa(Row(KeysInInternals, d + c), At(t, d, KeysInInternals)), Faa(Row(Bytes, d + c), At(t, d, Bytes))]
  }

  // The first `n` rounds of the loop that adds a subtree's counters, `c` levels further down.
  function Rounds(t: Tree, n: nat, c: nat): seq<Faa> {
    if n == 0 then [] else Rounds(t, n - 1, c) + RowAdds(t, n - 1, c)
  }

  function SubtreeAdds(t: Tree, c: nat): seq<Faa>
    requires c <= MAX_HEIGHT
  {
    Rounds(t, MAX_HEIGHT - c, c) + [Faa(KeySum, SumTop(t, Height(t)))]
  }

  lemma RowTotal(t: Tree, d: nat, c: nat, cell: Cell)
    ensures Total(RowAdds(t, d, c), cell) == if cell.Row? && cell.d == d + c then At(t, d, cell.k) else 0
  {
    var a := RowAdds(t, d, c);
    assert a[1..][1..] == a[2..] && a[2..][1..] == a[3..] && a[3..][1..] == a[4..] && a[4..][1..] == a[5..];
    assert Total(a[5..], cell) == if a[5].cell == cell then a[5].x else 0;
    assert Total(a[4..], cell) == (if a[4].cell == cell then a[4].x else 0) + Total(a[5..], cell);
    assert Total(a[3..], cell) == (if a[3].cell == cell then a[3].x else 0) + Total(a[4..], cell);
    assert Total(a[2..], cell) == (if a[2].cell == cell then a[2].x else 0) + Total(a[3..], cell);
    assert Total(a[1..], cell) == (if a[1].cell == cell then a[1].x else 0) + Total(a[2..], cell);
    if cell.Row? {
      match cell.k
      case Internals => case Leaves => case Keys => case KeysInLeaves => case KeysInInternals => case Bytes =>
    }
  }

  lemma {:induction false} RoundsTotal(t: Tree, n: nat, c: nat, cell: Cell)
    ensures Total(Rounds(t, n, c), cell) == if cell.Row? && c <= cell.d < c + n then At(t, cell.d - c, cell.k) else 0
  {
    if n > 0 {
      RoundsTotal(t, n - 1, c, cell);
      RowTotal(t, n - 1, c, cell);
      TotalPlus(Rounds(t, n - 1, c), RowAdds(t, n - 1, c), cell);
    }
  }

  // ---------------------------------------------------------------- all subtrees

  function AllAdds(ts: seq<Tree>, c: nat): seq<Faa>
    requires c <= MAX_HEIGHT
  {
    if ts == [] then [] else SubtreeAdds(ts[0], c) + AllAdds(ts[1..], c)
  }

  lemma SubtreeTotal(t: Tree, c: nat, cell: Cell)
    requires c <= MAX_HEIGHT
    ensures Total(SubtreeAdds(t, c), cell)
         == match cell
            case Row(k, d) => if c <= d < MAX_HEIGHT then At(t, d - c, k) else 0
            case KeySum => SumTop(t, Height(t))
  {
    RoundsTotal(t, MAX_HEIGHT - c, c, cell);
    var last := [Faa(KeySum, SumTop(t, Height(t)))];
    assert last[1..] == [];
    TotalPlus(Rounds(t, MAX_HEIGHT - c, c), last, cell);
  }

  lemma {:induction false} RowTotals(ts: seq<Tree>, c: nat, k: Counter, d: nat)
    requires c <= MAX_HEIGHT && d < MAX_HEIGHT
    ensures Total(AllAdds(ts, c), Row(k, d)) == if c <= d then AtAll(ts, d - c, k) else 0
  {
    if ts != [] {
      RowTotals(ts[1..], c, k, d);
      SubtreeTotal(ts[0], c, Row(k, d));
      TotalPlus(SubtreeAdds(ts[0], c), AllAdds(ts[1..], c), Row(k, d));
    }
  }

  lemma {:induction false} SumTotals(ts: seq<Tree>, c: nat, n: nat)
    requires c <= MAX_HEIGHT && HeightAll(ts) <= n
    ensures Total(AllAdds(ts, c), KeySum) == SumTopAll(ts, n)
  {
    if ts != [] {
      SumTotals(ts[1..], c, n);
      SubtreeTotal(ts[0], c, KeySum);
      TotalPlus(SubtreeAdds(ts[0], c), AllAdds(ts[1..], c), KeySum);
      SumCap(ts[0], Height(ts[0]), n);
    }
  }

  // The additions `a` are those of the subtrees `ts`, in any order.
  ghost predicate Interleaves(a: seq<Faa>, ts: seq<Tree>, c: nat)
    requires c <= MAX_HEIGHT
  {
    multiset(a) == multiset(AllAdds(ts, c))
  }

  lemma RowsAdded(ts: seq<Tree>, c: nat, a: seq<Faa>, d: nat, k: Counter)
    requires c <= MAX_HEIGHT && d < MAX_HEIGHT && Interleaves(a, ts, c)
    ensures Total(a, Row(k, d)) == if c <= d then AtAll(ts, d - c, k) else 0
  {
    RowTotals(ts, c, k, d);
    TotalPermutes(a, AllAdds(ts, c), Row(k, d));
  }

  lemma SumAdded(ts: seq<Tree>, c: nat, a: seq<Faa>, n: nat)
    requires c <= MAX_HEIGHT && HeightAll(ts) <= n && Interleaves(a, ts, c)
    ensures Total(a, KeySum) == SumTopAll(ts, n)
  {
    SumTotals(ts, c, n);
    TotalPermutes(a, AllAdds(ts, c), KeySum);
  }

  // The subtrees below a cut, and the levels above it.
  lemma CutCounters(root: Tree, c: nat, d: nat, k: Counter)
    ensures At(root, d, k)
         == (if c <= d then AtAll(Level(root, c), d - c, k) else 0) + (if d < c then At(root, d, k) else 0)
  {
    if d >= c { LevelAt(root, c, d - c, k); }
  }

  lemma CutKeySum(root: Tree, c: nat, ts: seq<Tree>) returns (n: nat)
    requires ts == Level(root, c) && ts != []
    ensures HeightAll(ts) <= n && SumTopAll(ts, n) + SumTop(root, c) == SumTop(root, Height(root))
  {
    LevelHeight(root, c);
    n := Height(root) - c;
    LevelSum(root, c, n);
  }

  /**
   Whatever the interleaving of the subtrees' additions, with the traversal above the cut they make up the
   counters of the whole tree...
   */
  lemma AnyInterleaving(root: Tree, c: nat, ts: seq<Tree>, a: seq<Faa>, d: nat, k: Counter)
    requires ts == Level(root, c) && c <= MAX_HEIGHT && d < MAX_HEIGHT && Interleaves(a, ts, c)
    ensures Total(a, Row(k, d)) + (if d < c then At(root, d, k) else 0) == At(root, d, k)
  {
    RowsAdded(ts, c, a, d, k);
    CutCounters(root, c, d, k);
  }

  /** ...and its key sum. */
  lemma AnyInterleavingSum(root: Tree, c: nat, ts: seq<Tree>, a: seq<Faa>)
    requires ts == Level(root, c) && ts != [] && c <= MAX_HEIGHT && Interleaves(a, ts, c)
    ensures Total(a, KeySum) + SumTop(root, c) == SumTop(root, Height(root))
  {
    var n := CutKeySum(root, c, ts);
    SumAdded(ts, c, a, n);
  }
}
