/**
 Statistics of a tree, one row of counters for each depth: the plain recursion, and the version that
 cuts the tree at one level and adds up the subtrees below it in any order.
 */
module TreeStatistics {

  const MAX_HEIGHT: nat := 1024

  // What a handler tells about a node; children may be null.
  datatype Tree =
    | Null
    | Leaf(numKeys: nat, keySum: int, bytes: nat)
    | Internal(numKeys: nat, keySum: int, bytes: nat, children: seq<Tree>)

  // The counters kept for each depth.
  datatype Counter = Internals | Leaves | Keys | KeysInLeaves | KeysInInternals | Bytes

  // ---------------------------------------------------------------- what the statistics mean

  // What one node adds to a counter.
  function Own(t: Tree, k: Counter): nat {
    match t
    case Null => 0
    case Leaf(n, _, b) =>
      (match k case Internals => 0 case Leaves => 1 case Keys => n
        case KeysInLeaves => n case KeysInInternals => 0 case Bytes => b)
    case Internal(n, _, b, _) =>
      (match k case Internals => 1 case Leaves => 0 case Keys => n
        case KeysInLeaves => 0 case KeysInInternals => n case Bytes => b)
  }

  function OwnSum(t: Tree): int { if t.Null? then 0 else t.keySum }

  function Kids(t: Tree): seq<Tree> { if t.Internal? then t.children else [] }

  // The counter's value over all nodes `d` levels below the root of `t`.
  function At(t: Tree, d: nat, k: Counter): nat
    decreases d, t, 1
  {
    if d == 0 then Own(t, k) else AtAll(Kids(t), d - 1, k)
  }

  function AtAll(ts: seq<Tree>, d: nat, k: Counter): nat
    decreases d, ts, 0
  {
    if ts == [] then 0 else At(ts[0], d, k) + AtAll(ts[1..], d, k)
  }

  // The key sum of the nodes fewer than `n` levels below the root.
  function SumTop(t: Tree, n: nat): int
    decreases n, t, 1
  {
    if n == 0 then 0 else OwnSum(t) + SumTopAll(Kids(t), n - 1)
  }

  function SumTopAll(ts: seq<Tree>, n: nat): int
    decreases n, ts, 0
  {
    if ts == [] then 0 else SumTop(ts[0], n) + SumTopAll(ts[1..], n)
  }

  function Height(t: Tree): nat
    decreases t, 1
  {
    match t
    case Null => 0
    case Leaf(_, _, _) => 1
    case Internal(_, _, _, children) => 1 + HeightAll(children)
  }

  function HeightAll(ts: seq<Tree>): nat
    decreases ts, 0
  {
    if ts == [] then 0 else var h, r := Height(ts[0]), HeightAll(ts[1..]); if h > r then h else r
  }

  // ---------------------------------------------------------------- levels

  function Children(ts: seq<Tree>): seq<Tree> { if ts == [] then [] else Kids(ts[0]) + Children(ts[1..]) }

  function Level(t: Tree, c: nat): seq<Tree> { if c == 0 then [t] else Children(Level(t, c - 1)) }

  function OwnSumAll(ts: seq<Tree>): int { if ts == [] then 0 else OwnSum(ts[0]) + OwnSumAll(ts[1..]) }

  lemma {:induction false} AtAllPlus(a: seq<Tree>, b: seq<Tree>, d: nat, k: Counter)
    ensures AtAll(a + b, d, k) == AtAll(a, d, k) + AtAll(b, d, k)
  {
    if a == [] {
      assert a + b == b;
    } else {
      AtAllPlus(a[1..], b, d, k);
      assert (a + b)[1..] == a[1..] + b;
    }
  }

  lemma {:induction false} SumTopAllPlus(a: seq<Tree>, b: seq<Tree>, n: nat)
    ensures SumTopAll(a + b, n) == SumTopAll(a, n) + SumTopAll(b, n)
  {
    if a == [] {
      assert a + b == b;
    } else {
      SumTopAllPlus(a[1..], b, n);
      assert (a + b)[1..] == a[1..] + b;
    }
  }

  lemma {:induction false} ChildrenPlus(a: seq<Tree>, b: seq<Tree>)
    ensures Children(a + b) == Children(a) + Children(b)
  {
    if a == [] {
      assert a + b == b;
    } else {
      ChildrenPlus(a[1..], b);
      assert (a + b)[1..] == a[1..] + b && (a + b)[0] == a[0];
      assert Kids(a[0]) + (Children(a[1..]) + Children(b)) == (Kids(a[0]) + Children(a[1..])) + Children(b);
    }
  }

  lemma {:induction false} LevelDown(ts: seq<Tree>, d: nat, k: Counter)
    ensures AtAll(ts, d + 1, k) == AtAll(Children(ts), d, k)
  {
    if ts != [] {
      LevelDown(ts[1..], d, k);
      AtAllPlus(Kids(ts[0]), Children(ts[1..]), d, k);
    }
  }

  lemma {:induction false} SumDown(ts: seq<Tree>, n: nat)
    ensures SumTopAll(ts, n + 1) == OwnSumAll(ts) + SumTopAll(Children(ts), n)
  {
    if ts != [] {
      SumDown(ts[1..], n);
      SumTopAllPlus(Kids(ts[0]), Children(ts[1..]), n);
    }
  }

  /** Cutting a tree at one level loses and repeats no node. */
  lemma {:induction false} LevelAt(t: Tree, c: nat, d: nat, k: Counter)
    ensures At(t, c + d, k) == AtAll(Level(t, c), d, k)
  {
    if c == 0 {
      assert Level(t, 0)[1..] == [];
    } else {
      LevelAt(t, c - 1, d + 1, k);
      LevelDown(Level(t, c - 1), d, k);
    }
  }

  lemma {:induction false} LevelSum(t: Tree, c: nat, n: nat)
    ensures SumTop(t, c + n) == SumTop(t, c) + SumTopAll(Level(t, c), n)
  {
    if c == 0 {
      assert Level(t, 0)[1..] == [];
    } else {
      var l := Level(t, c - 1);
      LevelSum(t, c - 1, n + 1);
      LevelSum(t, c - 1, 1);
      SumDown(l, n);
      SumDown(l, 0);
      NoLevels(Children(l));
    }
  }

  lemma {:induction false} NoLevels(ts: seq<Tree>)
    ensures SumTopAll(ts, 0) == 0
  {
    if ts != [] { NoLevels(ts[1..]); }
  }

  // ---------------------------------------------------------------- what the counters count

  function LeavesIn(l: seq<Tree>): seq<Tree> {
    if l == [] then [] else if l[0].Leaf? then [l[0]] + LeavesIn(l[1..]) else LeavesIn(l[1..])
  }

  function InternalsIn(l: seq<Tree>): seq<Tree> {
    if l == [] then [] else if l[0].Internal? then [l[0]] + InternalsIn(l[1..]) else InternalsIn(l[1..])
  }

  // Sums over the nodes of a level.
  function KeysIn(l: seq<Tree>): nat {
    if l == [] then 0 else (if l[0].Null? then 0 else l[0].numKeys) + KeysIn(l[1..])
  }
  function BytesIn(l: seq<Tree>): nat {
    if l == [] then 0 else (if l[0].Null? then 0 else l[0].bytes) + BytesIn(l[1..])
  }
  function KeySumIn(l: seq<Tree>): int {
    if l == [] then 0 else (if l[0].Null? then 0 else l[0].keySum) + KeySumIn(l[1..])
  }

  // The key sum of the first `n` levels.
  function KeySumTo(t: Tree, n: nat): int { if n == 0 then 0 else KeySumTo(t, n - 1) + KeySumIn(Level(t, n - 1)) }

  /** What each counter is, on a level as a whole. */
  lemma {:induction false} LevelCounts(l: seq<Tree>)
    ensures AtAll(l, 0, Leaves) == |LeavesIn(l)| && AtAll(l, 0, Internals) == |InternalsIn(l)|
    ensures AtAll(l, 0, KeysInLeaves) == KeysIn(LeavesIn(l)) && AtAll(l, 0, KeysInInternals) == KeysIn(InternalsIn(l))
    ensures AtAll(l, 0, Keys) == KeysIn(l) == KeysIn(LeavesIn(l)) + KeysIn(InternalsIn(l))
    ensures AtAll(l, 0, Bytes) == BytesIn(l) && OwnSumAll(l) == KeySumIn(l)
  {
    if l != [] {
      LevelCounts(l[1..]);
      if l[0].Leaf? { assert LeavesIn(l)[1..] == LeavesIn(l[1..]); }
      if l[0].Internal? { assert InternalsIn(l)[1..] == InternalsIn(l[1..]); }
    }
  }

  lemma {:induction false} KeySumLevels(t: Tree, n: nat)
    ensures SumTop(t, n) == KeySumTo(t, n)
  {
    if n > 0 {
      KeySumLevels(t, n - 1);
      LevelSum(t, n - 1, 1);
      OneLevel(Level(t, n - 1));
    }
  }

  lemma OneLevel(l: seq<Tree>)
    ensures SumTopAll(l, 1) == KeySumIn(l)
  {
    SumDown(l, 0);
    NoLevels(Children(l));
    LevelCounts(l);
  }

  /** A level's entries are the children of the entries of the level above. */
  lemma {:induction false} ChildrenAre(l: seq<Tree>, x: Tree)
    ensures x in Children(l) <==> exists p :: p in l && p.Internal? && x in p.children
  {
    if l != [] { ChildrenAre(l[1..], x); }
  }

  // ---------------------------------------------------------------- heights

  lemma {:induction false} Beyond(t: Tree, d: nat, k: Counter)
    requires Height(t) <= d
    ensures At(t, d, k) == 0
    decreases d, t, 1
  {
    if d > 0 { BeyondAll(Kids(t), d - 1, k); }
  }

  lemma {:induction false} BeyondAll(ts: seq<Tree>, d: nat, k: Counter)
    requires HeightAll(ts) <= d
    ensures AtAll(ts, d, k) == 0
    decreases d, ts, 0
  {
    if ts != [] {
      Beyond(ts[0], d, k);
      BeyondAll(ts[1..], d, k);
    }
  }

  lemma {:induction false} SumCap(t: Tree, n: nat, m: nat)
    requires Height(t) <= n <= m
    ensures SumTop(t, n) == SumTop(t, m)
    decreases n, t, 1
  {
    if n > 0 { SumCapAll(Kids(t), n - 1, m - 1); }
    else { assert t.Null?; NullSum(m); }
  }

  lemma NullSum(m: nat)
    ensures SumTop(Null, m) == 0
  {
    if m > 0 { assert SumTopAll([], m - 1) == 0; }
  }

  lemma {:induction false} SumCapAll(ts: seq<Tree>, n: nat, m: nat)
    requires HeightAll(ts) <= n <= m
    ensures SumTopAll(ts, n) == SumTopAll(ts, m)
    decreases n, ts, 0
  {
    if ts != [] {
      SumCap(ts[0], n, m);
      SumCapAll(ts[1..], n, m);
    }
  }

  lemma {:induction false} HeightPlus(a: seq<Tree>, b: seq<Tree>)
    ensures HeightAll(a + b) == if HeightAll(a) > HeightAll(b) then HeightAll(a) else HeightAll(b)
  {
    if a == [] {
      assert a + b == b;
    } else {
      HeightPlus(a[1..], b);
      assert (a + b)[1..] == a[1..] + b;
    }
  }

  lemma {:induction false} ChildrenHeight(ts: seq<Tree>)
    ensures HeightAll(Children(ts)) <= (if HeightAll(ts) == 0 then 0 else HeightAll(ts) - 1)
  {
    if ts != [] {
      ChildrenHeight(ts[1..]);
      HeightPlus(Kids(ts[0]), Children(ts[1..]));
    }
  }

  // A level that has a node is no deeper than the tree is high; its trees fit below it.
  lemma {:induction false} LevelHeight(t: Tree, c: nat)
    ensures Level(t, c) != [] ==> c <= Height(t) && HeightAll(Level(t, c)) + c <= Height(t)
  {
    if c == 0 {
      assert Level(t, 0)[1..] == [] && HeightAll([t]) == Height(t);
    } else {
      LevelHeight(t, c - 1);
      var l := Level(t, c - 1);
      if Children(l) != [] {
        HasInternal(l);
        ChildrenHeight(l);
      }
    }
  }

  lemma {:induction false} HasInternal(ts: seq<Tree>)
    requires Children(ts) != []
    ensures HeightAll(ts) >= 1
  {
    if Kids(ts[0]) == [] { HasInternal(ts[1..]); }
  }

  // ---------------------------------------------------------------- the counters

  const NO_LIMIT: nat := 0xFFFF_FFFF_FFFF_FFFF       // numeric_limits<size_t>::max()

  // How many levels from `depth` on a traversal down to `maxDepth` visits.
  function Levels(depth: nat, maxDepth: nat): nat { if depth > maxDepth then 0 else maxDepth - depth + 1 }

  // What trees rooted at `depth` add to a counter at depth `d`, when only `n` levels of them are visited.
  function Part(ts: seq<Tree>, depth: nat, n: nat, d: nat, k: Counter): nat {
    if depth <= d < depth + n then AtAll(ts, d - depth, k) else 0
  }

  class TreeStats {
    const internalsAtDepth: array<nat>
    const leavesAtDepth: array<nat>
    const keysAtDepth: array<nat>
    const keysInLeavesAtDepth: array<nat>
    const keysInInternalsAtDepth: array<nat>
    const bytesAtDepth: array<nat>
    var sumOfKeys: int

    function Table(k: Counter): array<nat> {
      match k
      case Internals => internalsAtDepth
      case Leaves => leavesAtDepth
      case Keys => keysAtDepth
      case KeysInLeaves => keysInLeavesAtDepth
      case KeysInInternals => keysInInternalsAtDepth
      case Bytes => bytesAtDepth
    }

    ghost predicate Valid() {
      && (forall k {:trigger Table(k)} :: Table(k).Length == MAX_HEIGHT)
      && (forall k, l {:trigger Table(k), Table(l)} :: k != l ==> Table(k) != Table(l))
    }

    ghost function Tables(): set<array<nat>> {
      {internalsAtDepth, leavesAtDepth, keysAtDepth, keysInLeavesAtDepth, keysInInternalsAtDepth, bytesAtDepth}
    }

    // The counters are those of `root`, level by level.
    ghost predicate Describes(root: Tree)
      requires Valid()
      reads this, Tables()
    {
      && sumOfKeys == KeySumTo(root, Height(root))
      && (forall d :: 0 <= d < MAX_HEIGHT ==> DescribesLevel(d, Level(root, d)))
    }

    ghost predicate DescribesLevel(d: nat, l: seq<Tree>)
      requires Valid() && d < MAX_HEIGHT
      reads Tables()
    {
      assert Table(Internals) == internalsAtDepth && Table(Leaves) == leavesAtDepth && Table(Keys) == keysAtDepth;
      assert Table(KeysInLeaves) == keysInLeavesAtDepth && Table(KeysInInternals) == keysInInternalsAtDepth
          && Table(Bytes) == bytesAtDepth;
      && leavesAtDepth[d] == |LeavesIn(l)| && internalsAtDepth[d] == |InternalsIn(l)|
      && keysInLeavesAtDepth[d] == KeysIn(LeavesIn(l)) && keysInInternalsAtDepth[d] == KeysIn(InternalsIn(l))
      && keysAtDepth[d] == keysInLeavesAtDepth[d] + keysInInternalsAtDepth[d] == KeysIn(l)
          && bytesAtDepth[d] == BytesIn(l)
    }

    lemma Describing(root: Tree)
      requires Valid() && sumOfKeys == SumTop(root, Height(root))
      requires forall k, d :: 0 <= d < MAX_HEIGHT ==> Table(k)[d] == At(root, d, k)
      ensures Describes(root)
    {
      KeySumLevels(root, Height(root));
      forall d: nat | d < MAX_HEIGHT ensures DescribesLevel(d, Level(root, d)) {
        forall k ensures Table(k)[d] == AtAll(Level(root, d), 0, k) { LevelAt(root, d, 0, k); }
        LevelCounts(Level(root, d));
        assert Table(Internals)[d] == internalsAtDepth[d] && Table(Leaves)[d] == leavesAtDepth[d];
      }
    }

    constructor ()
      ensures Valid() && fresh(Tables()) && sumOfKeys == 0
      ensures forall k, d :: 0 <= d < MAX_HEIGHT ==> Table(k)[d] == 0
    {
      internalsAtDepth := new nat[MAX_HEIGHT](_ => 0);
      leavesAtDepth := new nat[MAX_HEIGHT](_ => 0);
      keysAtDepth := new nat[MAX_HEIGHT](_ => 0);
      keysInLeavesAtDepth := new nat[MAX_HEIGHT](_ => 0);
      keysInInternalsAtDepth := new nat[MAX_HEIGHT](_ => 0);
      bytesAtDepth := new nat[MAX_HEIGHT](_ => 0);
      sumOfKeys := 0;
    }

    // Counts one node.
    method Visit(node: Tree, depth: nat)
      requires Valid() && !node.Null? && depth < MAX_HEIGHT
      modifies this, Tables()
      ensures sumOfKeys == old(sumOfKeys) + OwnSum(node)
      ensures forall k, d :: 0 <= d < MAX_HEIGHT ==>
        Table(k)[d] == old(Table(k)[d]) + (if d == depth then Own(node, k) else 0)
    {
      assert Table(Internals) == internalsAtDepth && Table(Leaves) == leavesAtDepth && Table(Keys) == keysAtDepth;
      assert Table(KeysInLeaves) == keysInLeavesAtDepth && Table(KeysInInternals) == keysInInternalsAtDepth
          && Table(Bytes) == bytesAtDepth;
      keysAtDepth[depth] := keysAtDepth[depth] + node.numKeys;
      sumOfKeys := sumOfKeys + node.keySum;
      bytesAtDepth[depth] := bytesAtDepth[depth] + node.bytes;
      if node.Leaf? {
        leavesAtDepth[depth] := leavesAtDepth[depth] + 1;
        keysInLeavesAtDepth[depth] := keysInLeavesAtDepth[depth] + node.numKeys;
      } else {
        internalsAtDepth[depth] := internalsAtDepth[depth] + 1;
        keysInInternalsAtDepth[depth] := keysInInternalsAtDepth[depth] + node.numKeys;
      }
      forall k, d | 0 <= d < MAX_HEIGHT
        ensures Table(k)[d] == old(Table(k)[d]) + (if d == depth then Own(node, k) else 0)
      {
        match k case Internals => case Leaves => case Keys => case KeysInLeaves => case KeysInInternals => case Bytes =>
      }
    }

    // The plain recursion, bounded by `maxDepth`.
    method ComputeStats(node: Tree, depth: nat, maxDepth: nat)
      requires Valid() && depth + Height(node) <= MAX_HEIGHT
      modifies this, Tables()
      decreases node
      ensures sumOfKeys == old(sumOfKeys) + SumTop(node, Levels(depth, maxDepth))
      ensures forall k, d :: 0 <= d < MAX_HEIGHT ==>
        Table(k)[d] == old(Table(k)[d]) + Part([node], depth, Levels(depth, maxDepth), d, k)
    {
      var n := Levels(depth, maxDepth);
      if node.Null? || depth > maxDepth {
        NothingToCount(node, depth, n);
        return;
      }
      Visit(node, depth);
      if node.Internal? {
        var i := 0;
        while i < |node.children|
          invariant i <= |node.children|
          invariant sumOfKeys == old(sumOfKeys) + OwnSum(node) + SumTopAll(node.children[..i], n - 1)
          invariant forall k, d :: 0 <= d < MAX_HEIGHT ==>
            Table(k)[d] == old(Table(k)[d]) + (if d == depth then Own(node, k) else 0)
                         + Part(node.children[..i], depth + 1, n - 1, d, k)
        {
          ChildFits(node.children, i);
          ComputeStats(node.children[i], depth + 1, maxDepth);
          NextChild(node.children, i, depth + 1, n - 1);
          i := i + 1;
        }
        assert node.children[..i] == node.children;
      }
      WholeNode(node, depth, n);
    }

    // The statistics of a tree, computed in one traversal.
    constructor Sequential(root: Tree)
      requires Height(root) <= MAX_HEIGHT
      ensures Valid() && fresh(Tables()) && sumOfKeys == SumTop(root, Height(root)) && Describes(root)
      ensures forall k, d :: 0 <= d < MAX_HEIGHT ==> Table(k)[d] == At(root, d, k)
    {
      internalsAtDepth := new nat[MAX_HEIGHT](_ => 0);
      leavesAtDepth := new nat[MAX_HEIGHT](_ => 0);
      keysAtDepth := new nat[MAX_HEIGHT](_ => 0);
      keysInLeavesAtDepth := new nat[MAX_HEIGHT](_ => 0);
      keysInInternalsAtDepth := new nat[MAX_HEIGHT](_ => 0);
      bytesAtDepth := new nat[MAX_HEIGHT](_ => 0);
      sumOfKeys := 0;
      new;
      ComputeStats(root, 0, NO_LIMIT);
      SumCap(root, Height(root), Levels(0, NO_LIMIT));
      forall k, d | 0 <= d < MAX_HEIGHT ensures Table(k)[d] == At(root, d, k) { LevelAt(root, 0, d, k); }
      Describing(root);
    }

    // Adds to one counter.
    method Bump(k: Counter, e: nat, x: nat)
      requires Valid() && e < MAX_HEIGHT
      modifies Table(k)
      ensures forall d :: 0 <= d < MAX_HEIGHT ==> Table(k)[d] == old(Table(k)[d]) + (if d == e then x else 0)
    {
      Table(k)[e] := Table(k)[e] + x;
    }

    // One depth of another table added to this one, `c` levels further down.
    method AddRow(ts: TreeStats, d: nat, c: nat)
      requires Valid() && ts.Valid() && Tables() !! ts.Tables() && d + c < MAX_HEIGHT
      modifies Tables()
      ensures forall k, e :: 0 <= e < MAX_HEIGHT ==>
        Table(k)[e] == old(Table(k)[e]) + (if e == d + c then ts.Table(k)[d] else 0)
    {
      Bump(Internals, d + c, ts.Table(Internals)[d]);
      Bump(Leaves, d + c, ts.Table(Leaves)[d]);
      Bump(Keys, d + c, ts.Table(Keys)[d]);
      Bump(KeysInLeaves, d + c, ts.Table(KeysInLeaves)[d]);
      Bump(KeysInInternals, d + c, ts.Table(KeysInInternals)[d]);
      Bump(Bytes, d + c, ts.Table(Bytes)[d]);
      forall k, e | 0 <= e < MAX_HEIGHT
        ensures Table(k)[e] == old(Table(k)[e]) + (if e == d + c then ts.Table(k)[d] else 0)
      {
        match k case Internals => case Leaves => case Keys => case KeysInLeaves => case KeysInInternals => case Bytes =>
      }
    }

    method AddShifted(ts: TreeStats, c: nat)
      requires Valid() && ts.Valid() && Tables() !! ts.Tables() && this != ts && c <= MAX_HEIGHT
      modifies this, Tables()
      ensures sumOfKeys == old(sumOfKeys) + ts.sumOfKeys
      ensures forall k, e :: 0 <= e < MAX_HEIGHT ==>
        Table(k)[e] == old(Table(k)[e]) + (if e >= c then ts.Table(k)[e - c] else 0)
    {
      for d := 0 to MAX_HEIGHT - c
        invariant forall k, e :: 0 <= e < MAX_HEIGHT ==>
          Table(k)[e] == old(Table(k)[e]) + (if c <= e < c + d then ts.Table(k)[e - c] else 0)
        invariant sumOfKeys == old(sumOfKeys)
      {
        AddRow(ts, d, c);
      }
      sumOfKeys := sumOfKeys + ts.sumOfKeys;
    }

    // The subtrees of one level, in any order.
    method AddSubtrees(qn: seq<Tree>, lo: nat, hi: nat, c: nat)
      requires Valid() && lo <= hi <= |qn| && c <= MAX_HEIGHT
      requires forall i :: lo <= i < hi ==> Height(qn[i]) + c <= MAX_HEIGHT
      modifies this, Tables()
      ensures sumOfKeys == old(sumOfKeys) + SumIn(Sums(qn[lo..hi]), Range(hi - lo))
      ensures forall k, e :: 0 <= e < MAX_HEIGHT ==>
        Table(k)[e] == old(Table(k)[e]) + (if e >= c then SumIn(Ats(qn[lo..hi], e - c, k), Range(hi - lo)) else 0)
    {
      var remaining := Range(hi - lo);
      ghost var l, done: set<nat> := qn[lo..hi], {};
      NoneDone(Sums(l));
      forall d: nat, k ensures SumIn(Ats(l, d, k), {}) == 0 { NoneDone(Ats(l, d, k)); }
      while remaining != {}
        invariant done + remaining == Range(hi - lo) && done !! remaining
        invariant sumOfKeys == old(sumOfKeys) + SumIn(Sums(l), done)
        invariant forall k, e :: 0 <= e < MAX_HEIGHT ==>
          Table(k)[e] == old(Table(k)[e]) + (if e >= c then SumIn(Ats(l, e - c, k), done) else 0)
        decreases remaining
      {
        var i :| i in remaining;
        var ts := new TreeStats.Sequential(qn[lo + i]);
        AddShifted(ts, c);
        assert l[i] == qn[lo + i];
        OneDone(Sums(l), done, i);
        forall d: nat, k ensures SumIn(Ats(l, d, k), done + {i}) == SumIn(Ats(l, d, k), done) + At(l[i], d, k) {
          OneDone(Ats(l, d, k), done, i);
        }
        remaining := remaining - {i};
        done := done + {i};
      }
      assert done == Range(hi - lo);
    }

    /** The parallel construction yields the same statistics as the plain recursion. */
    constructor Parallel(root: Tree, minNodes: nat)
      requires Height(root) <= MAX_HEIGHT && minNodes >= 1
      ensures Valid() && fresh(Tables()) && sumOfKeys == SumTop(root, Height(root)) && Describes(root)
      ensures forall k, d :: 0 <= d < MAX_HEIGHT ==> Table(k)[d] == At(root, d, k)
    {
      internalsAtDepth := new nat[MAX_HEIGHT](_ => 0);
      leavesAtDepth := new nat[MAX_HEIGHT](_ => 0);
      keysAtDepth := new nat[MAX_HEIGHT](_ => 0);
      keysInLeavesAtDepth := new nat[MAX_HEIGHT](_ => 0);
      keysInInternalsAtDepth := new nat[MAX_HEIGHT](_ => 0);
      bytesAtDepth := new nat[MAX_HEIGHT](_ => 0);
      sumOfKeys := 0;
      new;
      var qn, lo, hi, c := Cut(root, minNodes);
      CutFits(root, c, qn[lo..hi]);
      forall i | lo <= i < hi ensures Height(qn[i]) + c <= MAX_HEIGHT { assert qn[i] == qn[lo..hi][i - lo]; }
      AddSubtrees(qn, lo, hi, c);
      if c > 0 { ComputeStats(root, 0, c - 1); }
      CutSum(root, c);
      forall k, d: nat | d < MAX_HEIGHT ensures Table(k)[d] == At(root, d, k) { CutAt(root, c, d, k); }
      Describing(root);
    }
  }

  function Range(n: nat): (r: set<nat>)
    ensures forall i: nat :: i in r <==> i < n
  {
    if n == 0 then {} else Range(n - 1) + {n - 1}
  }

  function SumIn(v: seq<int>, done: set<nat>): int {
    if v == [] then 0 else SumIn(v[..|v| - 1], done) + (if |v| - 1 in done then v[|v| - 1] else 0)
  }

  function Ats(ts: seq<Tree>, d: nat, k: Counter): seq<int> { seq(|ts|, i requires 0 <= i < |ts| => At(ts[i], d, k)) }
  function Sums(ts: seq<Tree>): seq<int> { seq(|ts|, i requires 0 <= i < |ts| => SumTop(ts[i], Height(ts[i]))) }

  lemma {:induction false} NoneDone(v: seq<int>)
    ensures SumIn(v, {}) == 0
  {
    if v != [] { NoneDone(v[..|v| - 1]); }
  }

  lemma {:induction false} OneDone(v: seq<int>, done: set<nat>, i: nat)
    requires i < |v| && i !in done
    ensures SumIn(v, done + {i}) == SumIn(v, done) + v[i]
  {
    var n := |v| - 1;
    if i < n { OneDone(v[..n], done, i); } else { OthersDone(v[..n], done, i); }
  }

  lemma {:induction false} OthersDone(v: seq<int>, done: set<nat>, i: nat)
    requires |v| <= i
    ensures SumIn(v, done + {i}) == SumIn(v, done)
  {
    if v != [] { OthersDone(v[..|v| - 1], done, i); }
  }

  lemma NothingToCount(node: Tree, depth: nat, n: nat)
    requires node.Null? || n == 0
    ensures SumTop(node, n) == 0 && forall k, d: nat :: Part([node], depth, n, d, k) == 0
  {
    if node.Null? { NullSum(n); }
    forall k, d: nat ensures Part([node], depth, n, d, k) == 0 {
      if node.Null? && d >= depth { BeyondAll([node], d - depth, k); }
    }
  }

  lemma {:induction false} ChildFits(ts: seq<Tree>, i: nat)
    requires i < |ts|
    ensures Height(ts[i]) <= HeightAll(ts)
  {
    if i > 0 { ChildFits(ts[1..], i - 1); }
  }

  lemma AtAllNext(ts: seq<Tree>, i: nat, d: nat, k: Counter)
    requires i < |ts|
    ensures AtAll(ts[..i + 1], d, k) == AtAll(ts[..i], d, k) + AtAll([ts[i]], d, k)
  {
    AtAllPlus(ts[..i], [ts[i]], d, k);
    assert ts[..i + 1] == ts[..i] + [ts[i]];
  }

  lemma NextChild(ts: seq<Tree>, i: nat, depth: nat, n: nat)
    requires i < |ts|
    ensures SumTopAll(ts[..i + 1], n) == SumTopAll(ts[..i], n) + SumTop(ts[i], n)
    ensures forall k, d: nat ::
      Part(ts[..i + 1], depth, n, d, k) == Part(ts[..i], depth, n, d, k) + Part([ts[i]], depth, n, d, k)
  {
    SumTopAllPlus(ts[..i], [ts[i]], n);
    assert ts[..i + 1] == ts[..i] + [ts[i]] && [ts[i]][1..] == [];
    forall k, d: nat
      ensures Part(ts[..i + 1], depth, n, d, k) == Part(ts[..i], depth, n, d, k) + Part([ts[i]], depth, n, d, k)
    {
      if d >= depth { AtAllNext(ts, i, d - depth, k); }
    }
  }

  lemma Single(t: Tree, d: nat, k: Counter)
    ensures AtAll([t], d, k) == At(t, d, k)
  {
    assert [t][1..] == [];
  }

  // A node and its children's subtrees are the whole tree.
  lemma WholeNode(node: Tree, depth: nat, n: nat)
    requires n > 0
    ensures SumTop(node, n) == OwnSum(node) + SumTopAll(Kids(node), n - 1)
    ensures forall k, d: nat ::
      Part([node], depth, n, d, k)
        == (if d == depth then Own(node, k) else 0) + Part(Kids(node), depth + 1, n - 1, d, k)
  {
    forall k, d: nat
      ensures Part([node], depth, n, d, k)
        == (if d == depth then Own(node, k) else 0) + Part(Kids(node), depth + 1, n - 1, d, k)
    {
      if d >= depth { Single(node, d - depth, k); }
    }
  }

  // ---------------------------------------------------------------- cutting the tree at a level

  function Size(t: Tree): nat
    decreases t, 1
  {
    match t
    case Null => 1
    case Leaf(_, _, _) => 1
    case Internal(_, _, _, children) => 1 + SizeAll(children)
  }

  function SizeAll(ts: seq<Tree>): nat
    decreases ts, 0
  {
    if ts == [] then 0 else Size(ts[0]) + SizeAll(ts[1..])
  }

  lemma {:induction false} SizeAllPlus(a: seq<Tree>, b: seq<Tree>)
    ensures SizeAll(a + b) == SizeAll(a) + SizeAll(b)
  {
    if a == [] {
      assert a + b == b;
    } else {
      SizeAllPlus(a[1..], b);
      assert (a + b)[1..] == a[1..] + b;
    }
  }

  // The queue: level `c` from `start` on, of which `seen` nodes were visited, then their children.
  ghost predicate Queue(root: Tree, qn: seq<Tree>, qd: seq<nat>, c: nat, start: nat, seen: nat) {
    var l := Level(root, c);
    && seen <= |l| && start + |l| <= |qn| && |qd| == |qn| && qn != [] && qn[0] == root
    && qn[start..] == l + Children(l[..seen])
    && (forall i :: start <= i < |qn| ==> qd[i] == if i < start + |l| then c else c + 1)
  }

  lemma QueueStarts(root: Tree)
    ensures Queue(root, [root], [0], 0, 0, 0)
  {}

  // When a level is complete the rest of the queue is the next level.
  lemma QueueTurns(root: Tree, qn: seq<Tree>, qd: seq<nat>, c: nat, start: nat, seen: nat)
    requires Queue(root, qn, qd, c, start, seen) && seen == |Level(root, c)|
    ensures Queue(root, qn, qd, c + 1, start + seen, 0)
  {
    var l := Level(root, c);
    assert l[..seen] == l;
    assert qn[start + seen..] == qn[start..][seen..] == Children(l);
    assert Level(root, c + 1) == Children(l);
    assert Children(l)[..0] == [];
    assert Children(l) + [] == Children(l);
  }

  // The depth of the next entry changes exactly when a level is complete.
  lemma DepthTells(root: Tree, qn: seq<Tree>, qd: seq<nat>, c: nat, start: nat, seen: nat)
    requires Queue(root, qn, qd, c, start, seen) && start + seen < |qn|
    ensures seen < |Level(root, c)| ==> qd[start + seen] == c
    ensures seen == |Level(root, c)| ==> qd[start + seen] == c + 1 && Level(root, c + 1) != []
  {
    if seen == |Level(root, c)| {
      assert Level(root, c)[..seen] == Level(root, c);
      assert |qn[start..]| == |Level(root, c)| + |Children(Level(root, c))|;
    }
  }

  lemma QueueVisits(root: Tree, qn: seq<Tree>, qd: seq<nat>, c: nat, start: nat, seen: nat)
    requires Queue(root, qn, qd, c, start, seen) && seen < |Level(root, c)|
    ensures qn[start + seen] == Level(root, c)[seen] && qd[start + seen] == c
    ensures var kids := Kids(qn[start + seen]); Queue(root, qn + kids, qd + seq(|kids|, _ => c + 1), c, start, seen + 1)
  {
    var l := Level(root, c);
    assert qn[start + seen] == qn[start..][seen] == l[seen];
    var kids := Kids(l[seen]);
    ChildrenPlus(l[..seen], [l[seen]]);
    assert l[..seen + 1] == l[..seen] + [l[seen]];
    assert Children([l[seen]]) == kids;
    assert (qn + kids)[start..] == qn[start..] + kids;
    assert l + Children(l[..seen + 1]) == (l + Children(l[..seen])) + kids;
  }

  // The search's variables.
  datatype Search = Search(qn: seq<Tree>, qd: seq<nat>, ix: nat, currDepth: nat, ixStartOfDepth: nat,
      nodesSeenAtDepth: nat)

  ghost predicate Searching(root: Tree, s: Search) {
    && Queue(root, s.qn, s.qd, s.currDepth, s.ixStartOfDepth, s.nodesSeenAtDepth)
    && s.ix == s.ixStartOfDepth + s.nodesSeenAtDepth <= |s.qn|
  }

  function Turned(s: Search): Search requires s.ix < |s.qd| {
    s.(currDepth := s.qd[s.ix], nodesSeenAtDepth := 0, ixStartOfDepth := s.ix)
  }

  // At an entry of the next level this level is complete, and the next one can begin.
  lemma TurnSearch(root: Tree, s: Search)
    requires Searching(root, s) && s.ix < |s.qn|
    ensures s.ix < |s.qd|
    ensures s.qd[s.ix] == s.currDepth ==> s.nodesSeenAtDepth < |Level(root, s.currDepth)|
    ensures s.qd[s.ix] != s.currDepth ==>
      s.nodesSeenAtDepth == |Level(root, s.currDepth)| && Searching(root, Turned(s))
          && 0 < |Level(root, Turned(s).currDepth)|
  {
    DepthTells(root, s.qn, s.qd, s.currDepth, s.ixStartOfDepth, s.nodesSeenAtDepth);
    if s.qd[s.ix] != s.currDepth {
      QueueTurns(root, s.qn, s.qd, s.currDepth, s.ixStartOfDepth, s.nodesSeenAtDepth);
    }
  }

  method NextLevel(ghost root: Tree, s: Search, minNodes: nat) returns (s': Search, cut: bool)
    requires Searching(root, s) && s.ix < |s.qn|
    ensures Searching(root, s') && s'.qn == s.qn && s'.ix == s.ix
    ensures cut ==> s' == s && s.nodesSeenAtDepth == |Level(root, s.currDepth)| && s.nodesSeenAtDepth >= minNodes
    ensures !cut ==> s'.nodesSeenAtDepth < |Level(root, s'.currDepth)|
  {
    TurnSearch(root, s);
    s', cut := s, false;
    if s.qd[s.ix] != s.currDepth {
      if s.nodesSeenAtDepth >= minNodes { return s, true; }
      s' := Turned(s);
    }
  }

  // Visits the next node of the level.
  method PushChildren(ghost root: Tree, s: Search) returns (s': Search)
    requires Searching(root, s) && s.nodesSeenAtDepth < |Level(root, s.currDepth)| && s.ix < |s.qn|
    ensures Searching(root, s') && SizeAll(s'.qn[s'.ix..]) < SizeAll(s.qn[s.ix..])
  {
    s' := Pushed(s);
    PushSearch(root, s);
    Shrinks(s.qn, s.ix, s'.qn);
  }

  function Pushed(s: Search): Search requires s.ix < |s.qn| {
    var kids := Kids(s.qn[s.ix]);
    s.(qn := s.qn + kids, qd := s.qd + seq(|kids|, _ => s.currDepth + 1), ix := s.ix + 1,
        nodesSeenAtDepth := s.nodesSeenAtDepth + 1)
  }

  lemma PushSearch(root: Tree, s: Search)
    requires Searching(root, s) && s.nodesSeenAtDepth < |Level(root, s.currDepth)| && s.ix < |s.qn|
    ensures Searching(root, Pushed(s))
  {
    QueueVisits(root, s.qn, s.qd, s.currDepth, s.ixStartOfDepth, s.nodesSeenAtDepth);
  }

  // One entry of the queue.
  method Advance(ghost root: Tree, s: Search, minNodes: nat) returns (s': Search, cut: bool)
    requires Searching(root, s) && s.ix < |s.qn|
    ensures Searching(root, s')
    ensures if cut then s' == s && s.nodesSeenAtDepth == |Level(root, s.currDepth)| && s.nodesSeenAtDepth >= minNodes
            else SizeAll(s'.qn[s'.ix..]) < SizeAll(s.qn[s.ix..])
  {
    s', cut := NextLevel(root, s, minNodes);
    if !cut {
      s' := PushChildren(root, s');
    }
  }

  /**
   The bounded breadth-first search cuts the tree at exactly one full level: the first one that has
   at least `minNodes` entries, or the root alone when the search runs out of levels.
   */
  method Cut(root: Tree, minNodes: nat) returns (qn: seq<Tree>, lo: nat, hi: nat, c: nat)
    requires minNodes >= 1
    ensures lo < hi <= |qn| && qn[lo..hi] == Level(root, c)
    ensures c > 0 ==> |Level(root, c)| >= minNodes
  {
    var s := Search([root], [0], 0, 0, 0, 0);
    QueueStarts(root);
    while s.ix < |s.qn|
      invariant Searching(root, s)
      decreases SizeAll(s.qn[s.ix..])
    {
      var t, cut := Advance(root, s, minNodes);
      s := t;
      if cut { break; }
    }
    CutIsLevel(root, s);
    qn, lo, hi, c := s.qn, s.ixStartOfDepth, s.ix, s.currDepth;
    if s.nodesSeenAtDepth < minNodes {
      lo, hi, c := 0, 1, 0;
    }
  }

  lemma Shrinks(qn: seq<Tree>, ix: nat, qn': seq<Tree>)
    requires ix < |qn| && qn' == qn + Kids(qn[ix])
    ensures SizeAll(qn'[ix + 1..]) < SizeAll(qn[ix..])
  {
    assert qn'[ix + 1..] == qn[ix + 1..] + Kids(qn[ix]);
    SizeAllPlus(qn[ix + 1..], Kids(qn[ix]));
    assert qn[ix..][1..] == qn[ix + 1..];
  }

  lemma CutIsLevel(root: Tree, s: Search)
    requires Searching(root, s) && (s.nodesSeenAtDepth == |Level(root, s.currDepth)| || s.ix == |s.qn|)
    ensures s.nodesSeenAtDepth == |Level(root, s.currDepth)| && s.qn[s.ixStartOfDepth..s.ix] == Level(root, s.currDepth)
    ensures |s.qn| >= 1 && s.qn[0..1] == Level(root, 0)
  {
    assert s.qn[s.ixStartOfDepth..s.ix] == s.qn[s.ixStartOfDepth..][..s.nodesSeenAtDepth];
  }

  // ---------------------------------------------------------------- the parts make up the whole

  lemma CutFits(root: Tree, c: nat, l: seq<Tree>)
    requires l == Level(root, c) && Height(root) <= MAX_HEIGHT && l != []
    ensures c <= MAX_HEIGHT && forall i :: 0 <= i < |l| ==> Height(l[i]) + c <= MAX_HEIGHT
  {
    LevelHeight(root, c);
    forall i | 0 <= i < |l| ensures Height(l[i]) + c <= MAX_HEIGHT { ChildFits(l, i); }
  }

  lemma {:induction false} AllAts(ts: seq<Tree>, d: nat, k: Counter, done: set<nat>)
    requires forall i: nat :: i < |ts| ==> i in done
    ensures SumIn(Ats(ts, d, k), done) == AtAll(ts, d, k)
  {
    if ts != [] {
      var n := |ts| - 1;
      AllAts(ts[..n], d, k, done);
      assert Ats(ts, d, k)[..n] == Ats(ts[..n], d, k);
      AtAllNext(ts, n, d, k);
      assert ts[..n + 1] == ts;
      Single(ts[n], d, k);
    }
  }

  lemma {:induction false} AllSums(ts: seq<Tree>, n: nat, done: set<nat>)
    requires HeightAll(ts) <= n && forall i: nat :: i < |ts| ==> i in done
    ensures SumIn(Sums(ts), done) == SumTopAll(ts, n)
  {
    if ts != [] {
      var m := |ts| - 1;
      assert ts == ts[..m] + [ts[m]];
      HeightPlus(ts[..m], [ts[m]]);
      AllSums(ts[..m], n, done);
      assert Sums(ts)[..m] == Sums(ts[..m]);
      SumTopAllPlus(ts[..m], [ts[m]], n);
      assert [ts[m]][1..] == [];
      SumCap(ts[m], Height(ts[m]), n);
    }
  }

  // What the subtrees below the cut and the traversal above it find at one depth.
  lemma CutAt(root: Tree, c: nat, d: nat, k: Counter)
    ensures At(root, d, k) == (if d >= c then SumIn(Ats(Level(root, c), d - c, k), Range(|Level(root, c)|)) else 0)
                              + (if c > 0 then Part([root], 0, Levels(0, c - 1), d, k) else 0)
  {
    if d >= c {
      LevelAt(root, c, d - c, k);
      AllAts(Level(root, c), d - c, k, Range(|Level(root, c)|));
    } else {
      Single(root, d, k);
    }
  }

  lemma CutSum(root: Tree, c: nat)
    requires Level(root, c) != []
    ensures SumTop(root, Height(root)) == SumIn(Sums(Level(root, c)), Range(|Level(root, c)|)) + SumTop(root, c)
  {
    LevelHeight(root, c);
    var n := Height(root) - c;
    LevelSum(root, c, n);
    AllSums(Level(root, c), n, Range(|Level(root, c)|));
  }
}
