/**
 Epoch-based reclamation with a tournament tree of announcements: thread `t` announces at leaf
 `size + t`, the root holds the epoch, and a quiescent value marks a subtree without threads.

 One step runs a thread up to and including its next access to the tree (its own leaf, which only it
 writes, aside).  `rot`, `opNo` and the objects' stamps and holders record the past.
 */
module TreeEpoch {
  import opened Limbo

  const EPOCH_INCREMENT := 2
  const MIN_TIME_BEFORE_TRY_ADVANCE := 50
  const NUMBER_OF_EPOCH_BAGS := 3
  const ROOT := 1

  predicate Quiescent(v: int) { v % 2 == 1 }
  function BitsEpoch(v: int): int { v - v % EPOCH_INCREMENT }
  const QUIET := 1     // GET_WITH_QUIESCENT(0)

  // ---------------------------------------------------------------- the tree

  // Leaf `l` is in the subtree of node `x`.
  predicate Below(x: nat, l: nat) { if l <= x then l == x else Below(x, l / 2) }

  // No thread's leaf is below `x`: leaves from `size + n` on belong to no thread.
  ghost predicate AllFake(size: nat, n: nat, x: nat) {
    forall l: nat :: size <= l < size + n ==> !Below(x, l)
  }

  function Sibling(x: nat): nat { if x == 2 * (x / 2) then 2 * (x / 2) + 1 else 2 * (x / 2) }

  lemma {:induction false} ChildBelow(x: nat, l: nat)
    requires 0 < x < l && Below(x, l)
    ensures Below(2 * x, l) || Below(2 * x + 1, l)
  {
    if l / 2 > x { ChildBelow(x, l / 2); }
  }

  lemma {:induction false} BelowChild(x: nat, c: nat, l: nat)
    requires 0 < x && c / 2 == x && Below(c, l)
    ensures Below(x, l)
  {
    if l > c { BelowChild(x, c, l / 2); }
  }

  lemma {:induction false} RootAbove(l: nat)
    requires l >= 1
    ensures Below(ROOT, l)
  {
    if l > 1 { RootAbove(l / 2); }
  }

  lemma BelowEither(x: nat, l: nat)
    requires 0 < x < l
    ensures Below(x, l) <==> Below(2 * x, l) || Below(2 * x + 1, l)
  {
    if Below(x, l) { ChildBelow(x, l); }
    if Below(2 * x, l) { BelowChild(x, 2 * x, l); }
    if Below(2 * x + 1, l) { BelowChild(x, 2 * x + 1, l); }
  }

  // A subtree is free of threads exactly when both its halves are.
  lemma FakeChildren(size: nat, n: nat, x: nat)
    requires 0 < x < size
    ensures AllFake(size, n, x) <==> AllFake(size, n, 2 * x) && AllFake(size, n, 2 * x + 1)
  {
    var a, b := 2 * x, 2 * x + 1;
    if AllFake(size, n, x) {
      forall l: nat | size <= l < size + n ensures !Below(a, l) && !Below(b, l) { BelowEither(x, l); }
    }
    if AllFake(size, n, a) && AllFake(size, n, b) {
      forall l: nat | size <= l < size + n ensures !Below(x, l) { BelowEither(x, l); }
    }
  }

  // ---------------------------------------------------------------- building the tree

  // The smallest power of two that is not below `x`.
  method RoundUpPow2(x: bv32) returns (r: bv32)
    requires 0 < x <= 0x8000_0000
    ensures x <= r && r & (r - 1) == 0 && (r >> 1) < x
  {
    var v := x - 1;
    v := v | (v >> 1);
    v := v | (v >> 2);
    v := v | (v >> 4);
    v := v | (v >> 8);
    v := v | (v >> 16);
    r := v + 1;
  }

  ghost predicate Leaves(a: seq<int>, size: nat, n: nat)
    requires |a| == 2 * size
  {
    forall l :: size <= l < 2 * size ==> (Quiescent(a[l]) <==> l >= size + n)
  }

  ghost predicate Sound(a: seq<int>, size: nat, n: nat)
    requires |a| == 2 * size
  {
    forall x :: 0 < x < 2 * size && Quiescent(a[x]) ==> AllFake(size, n, x)
  }

  // No quiescence is left to propagate to node `p`.
  predicate Settled(a: seq<int>, p: nat)
    requires 2 * p + 1 < |a|
  {
    Quiescent(a[2 * p]) && Quiescent(a[2 * p + 1]) ==> Quiescent(a[p])
  }

  // ... nor to any node with inner children or with children left of leaf `next`.
  ghost predicate SettledBut(a: seq<int>, size: nat, next: nat, except: nat)
    requires |a| == 2 * size
  {
    forall p :: 0 < p < size && p != except && (2 * p + 1 < size || 2 * p + 1 < next) ==> Settled(a, p)
  }

  ghost predicate OnlyQuieter(a: seq<int>, a': seq<int>) {
    |a'| == |a| && forall x :: 0 <= x < |a| ==> a'[x] == a[x] || a'[x] == QUIET
  }

  lemma RootReal(size: nat, n: nat)
    requires 0 < n <= size
    ensures !AllFake(size, n, ROOT)
  {
    RootAbove(size);
  }

  method PropagateQ(a: array<int>, ghost size: nat, ghost n: nat, curr: nat, ghost next: nat)
    requires 0 < n <= size && a.Length == 2 * size && 1 < curr < 2 * size && Quiescent(a[curr])
    requires Leaves(a[..], size, n) && Sound(a[..], size, n) && SettledBut(a[..], size, next, curr / 2)
    modifies a
    decreases curr
    ensures Leaves(a[..], size, n) && Sound(a[..], size, n) && SettledBut(a[..], size, next, 0)
    ensures Settled(a[..], curr / 2) && OnlyQuieter(old(a[..]), a[..])
  {
    var parent := curr / 2;
    var left := 2 * parent;
    var sibling := if curr == left then left + 1 else left;
    if Quiescent(a[sibling]) {
      FakeChildren(size, n, parent);
      RootReal(size, n);
      ghost var was := a[..];
      a[parent] := QUIET;
      forall p | 0 < p < size && p != parent / 2 && (2 * p + 1 < size || 2 * p + 1 < next) ensures Settled(a[..], p) {
        if p != parent { assert Settled(was, p); }
      }
      PropagateQ(a, size, n, parent, next);
    }
  }

  // What the constructor establishes.
  ghost predicate TreeInit(a: seq<int>, size: nat, n: nat) {
    && |a| == 2 * size && 0 < n <= size && a[ROOT] == EPOCH_INCREMENT
    && forall x :: 1 < x < 2 * size ==> a[x] == if AllFake(size, n, x) then QUIET else 0
  }

  lemma {:induction false} SettledExact(a: seq<int>, size: nat, n: nat, x: nat)
    requires |a| == 2 * size && 0 < x < 2 * size && Leaves(a, size, n)
    requires SettledBut(a, size, 2 * size, 0) && AllFake(size, n, x)
    ensures Quiescent(a[x])
    decreases 2 * size - x
  {
    if x < size {
      FakeChildren(size, n, x);
      SettledExact(a, size, n, 2 * x);
      SettledExact(a, size, n, 2 * x + 1);
      assert Settled(a, x);
    } else if x < size + n {
      assert Below(x, x);
    }
  }

  method NewTree(size: nat, n: nat) returns (a: array<int>)
    requires 0 < n <= size
    ensures fresh(a) && TreeInit(a[..], size, n)
  {
    a := new int[2 * size](_ => 0);
    for ix := size + n to 2 * size
      invariant forall x :: 0 <= x < 2 * size ==> a[x] == if size + n <= x < ix then QUIET else 0
    {
      a[ix] := QUIET;
    }
    assert Sound(a[..], size, n) by { LeavesSound(a[..], size, n); }
    for ix := size + n to 2 * size
      invariant Leaves(a[..], size, n) && Sound(a[..], size, n) && SettledBut(a[..], size, ix, 0)
      invariant forall x :: 0 <= x < 2 * size ==> a[x] == QUIET || a[x] == 0
    {
      PropagateQ(a, size, n, ix, ix + 1);
    }
    forall x: nat | 1 < x < 2 * size && AllFake(size, n, x) ensures Quiescent(a[x]) { SettledExact(a[..], size, n, x); }
    RootReal(size, n);
    a[ROOT] := EPOCH_INCREMENT;
  }

  lemma LeavesSound(a: seq<int>, size: nat, n: nat)
    requires |a| == 2 * size && forall x :: 0 <= x < 2 * size ==> a[x] == if size + n <= x then QUIET else 0
    ensures Sound(a, size, n)
  {
    forall x, l: nat | size + n <= x && size <= l < size + n ensures !Below(x, l) {}
  }
}
