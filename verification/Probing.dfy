/**
 Cumulative-squares probing in a power-of-two table: probe `k` looks at slot h + 1 + 4 + ... + k*k,
 and the first 2 * capacity probes visit every slot.
 */
module Probing {

  datatype Option<T> = None | Some(value: T)

  function Pow2(m: nat): (p: nat) ensures p > 0 { if m == 0 then 1 else 2 * Pow2(m - 1) }

  ghost predicate IsPow2(c: nat) { exists m: nat :: c == Pow2(m) }

  function SumSquares(k: nat): nat { if k == 0 then 0 else SumSquares(k - 1) + k * k }

  // Cumulative squares, or plain linear probing.
  datatype Probe = Squares | Linear

  function Offset(p: Probe, k: nat): nat { if p.Squares? then SumSquares(k) else k }

  function Slot(p: Probe, h: nat, k: nat, cap: nat): nat requires cap > 0 { (h + Offset(p, k)) % cap }

  // ---------------------------------------------------------------- arithmetic

  // Three times the sum of the first 2j squares.
  function Triple(j: int): int { 8 * (j * j * j) + 6 * (j * j) + j }

  lemma {:induction false} SumEven(j: nat)
    ensures 3 * SumSquares(2 * j) == Triple(j)
  {
    if j > 0 {
      var i: nat := j - 1;
      SumEven(i);
      TwoMore(i);
      Cubic(i);
    }
  }

  lemma TwoMore(i: nat)
    ensures SumSquares(2 * (i + 1)) == SumSquares(2 * i) + (2 * i + 1) * (2 * i + 1) + (2 * i + 2) * (2 * i + 2)
  {
    var a := 2 * i;
    assert SumSquares(a + 1) == SumSquares(a) + (a + 1) * (a + 1);
    assert SumSquares(a + 2) == SumSquares(a + 1) + (a + 2) * (a + 2);
  }

  lemma Cubic(i: int)
    ensures Triple(i) + 3 * ((2 * i + 1) * (2 * i + 1) + (2 * i + 2) * (2 * i + 2)) == Triple(i + 1)
  {
    var q := i * i;
    assert (2 * i + 1) * (2 * i + 1) == 4 * q + 4 * i + 1;
    assert (2 * i + 2) * (2 * i + 2) == 4 * q + 8 * i + 4;
    assert (i + 1) * (i + 1) == q + 2 * i + 1;
    assert (i + 1) * (q + 2 * i + 1) == i * q + 3 * q + 3 * i + 1;
    assert i * i * i == i * q;
    assert (i + 1) * (i + 1) * (i + 1) == (i + 1) * (q + 2 * i + 1);
  }

  predicate Divides(d: nat, a: int) requires d > 0 { a % d == 0 }

  // An odd factor does not help a power of two to divide a product.
  lemma {:induction false} OddCancels(m: nat, a: int, b: int)
    requires b % 2 == 1 && Divides(Pow2(m), a * b)
    ensures Divides(Pow2(m), a)
  {
    if m > 0 {
      var p := Pow2(m - 1);
      var q := (a * b) / Pow2(m);
      assert a * b == 2 * (p * q);
      OddEven(a, b, p * q);
      var c := a / 2;
      assert (2 * c) * b == 2 * (c * b);
      assert c * b == p * q;
      MultipleDivides(p, q, c * b);
      OddCancels(m - 1, c, b);
      var r := c / p;
      assert c == p * r;
      assert 2 * c == 2 * p * r;
      MultipleDivides(2 * p, r, a);
    }
  }

  lemma OddEven(a: int, b: int, h: int)
    requires b % 2 == 1 && a * b == 2 * h
    ensures a % 2 == 0
  {
    var d := b / 2;
    assert a * b == 2 * (a * d) + a;
  }

  lemma MultipleDivides(d: nat, q: int, a: int)
    requires d > 0 && a == d * q
    ensures Divides(d, a)
  {
    assert a == d * q + 0;
    RemainderZero(d, q, a);
  }

  lemma Scale(d: int, k: int)
    requires d > 0
    ensures k >= 1 ==> d * k >= d
    ensures k <= -1 ==> d * k <= 0 - d
  {
    if k >= 1 { assert d * k == d * (k - 1) + d; }
    if k <= -1 { assert d * k == d * (k + 1) - d; }
  }

  lemma RemainderZero(d: nat, q: int, a: int)
    requires d > 0 && a == d * q
    ensures a % d == 0
  {
    assert d * (q - a / d) == a % d;
    Scale(d, q - a / d);
  }

  lemma SameRemainder(d: nat, a: int, b: int)
    requires d > 0 && a % d == b % d
    ensures Divides(d, a - b)
  {
    var q := a / d - b / d;
    assert a - b == d * q;
    MultipleDivides(d, q, a - b);
  }

  // The even probes of one round all go to different slots.
  lemma EvenProbesDiffer(m: nat, h: nat, i: nat, j: nat)
    requires i < Pow2(m) && j < Pow2(m) && Slot(Squares, h, 2 * i, Pow2(m)) == Slot(Squares, h, 2 * j, Pow2(m))
    ensures i == j
  {
    var p := Pow2(m);
    var d := SumSquares(2 * i) - SumSquares(2 * j);
    SameRemainder(p, h + SumSquares(2 * i), h + SumSquares(2 * j));
    SumEven(i);
    SumEven(j);
    Factor(i, j);
    EvenDifference(m, i - j, OddPart(i, j), d);
    SmallMultiple(p, i - j);
  }

  function OddPart(i: int, j: int): int { 8 * (i * i + i * j + j * j) + 6 * (i + j) + 1 }

  lemma EvenDifference(m: nat, a: int, f: int, d: int)
    requires Divides(Pow2(m), d) && a * f == 3 * d && f % 2 == 1
    ensures Divides(Pow2(m), a)
  {
    var q := d / Pow2(m);
    assert a * f == Pow2(m) * (3 * q);
    MultipleDivides(Pow2(m), 3 * q, a * f);
    OddCancels(m, a, f);
  }

  lemma Factor(i: int, j: int)
    ensures OddPart(i, j) % 2 == 1 && (i - j) * OddPart(i, j) == Triple(i) - Triple(j)
  {
    var c, s := i * i + i * j + j * j, i + j;
    SquareDifference(i, j);
    DifferenceOfCubes(i, j);
    Distribute(i - j, c, s);
    OddForm(c, s);
  }

  lemma OddForm(c: int, s: int)
    ensures (8 * c + 6 * s + 1) % 2 == 1
  {}

  lemma Distribute(d: int, c: int, s: int)
    ensures d * (8 * c + 6 * s + 1) == 8 * (d * c) + 6 * (d * s) + d
  {
    assert d * (8 * c) == 8 * (d * c) && d * (6 * s) == 6 * (d * s);
  }

  lemma SquareDifference(i: int, j: int)
    ensures (i - j) * (i + j) == i * i - j * j
  {}

  lemma DifferenceOfCubes(i: int, j: int)
    ensures (i - j) * (i * i + i * j + j * j) == i * i * i - j * j * j
  {
    var a, b, c := i * i, i * j, j * j;
    Distribute3(i, a, b, c);
    Distribute3(j, a, b, c);
    assert (i - j) * (a + b + c) == i * (a + b + c) - j * (a + b + c);
    Swap(i, j);
  }

  lemma Distribute3(d: int, a: int, b: int, c: int)
    ensures d * (a + b + c) == d * a + d * b + d * c
  {}

  lemma Swap(i: int, j: int)
    ensures i * (i * j) == j * (i * i) && i * (j * j) == j * (i * j)
    ensures i * (i * i) == i * i * i && j * (j * j) == j * j * j
  {}

  lemma SmallMultiple(p: int, d: int)
    requires p > 0 && d % p == 0 && -p < d < p
    ensures d == 0
  {}

  // ---------------------------------------------------------------- coverage

  // `n` different values below `n` are all of them.
  lemma {:induction false} Pigeonhole(f: seq<nat>, n: nat, x: nat)
    requires |f| == n && x < n && (forall i :: 0 <= i < n ==> f[i] < n)
    requires forall i, j :: 0 <= i < j < n ==> f[i] != f[j]
    ensures exists i :: 0 <= i < n && f[i] == x
  {
    if forall i :: 0 <= i < n ==> f[i] != x {
      var image := set i | 0 <= i < n :: f[i];
      var rest := Range(n) - {x};
      ImageSize(f, n);
      SubsetSize(image, rest);
    }
  }

  lemma {:induction false} ImageSize(f: seq<nat>, n: nat)
    requires n <= |f| && forall i, j :: 0 <= i < j < n ==> f[i] != f[j]
    ensures |set i | 0 <= i < n :: f[i]| == n
  {
    if n > 0 {
      ImageSize(f, n - 1);
      assert (set i | 0 <= i < n :: f[i]) == (set i | 0 <= i < n - 1 :: f[i]) + {f[n - 1]};
    }
  }

  function Range(n: nat): (r: set<nat>)
    ensures forall i: nat :: i in r <==> i < n
    ensures |r| == n
  {
    if n == 0 then {} else Range(n - 1) + {n - 1}
  }

  lemma {:induction false} SubsetSize<T>(a: set<T>, b: set<T>)
    requires a <= b
    ensures |a| <= |b|
  {
    if a != {} {
      var x :| x in a;
      SubsetSize(a - {x}, b - {x});
    }
  }

  lemma AddMod(a: nat, k: nat, cap: nat)
    requires cap > 0
    ensures (a + k) % cap == (a % cap + k) % cap
  {
    assert a + k == cap * (a / cap) + (a % cap + k);
    AddMultiple(cap, a / cap, a % cap + k);
  }

  lemma SmallMod(x: nat, cap: nat)
    requires x < cap
    ensures x % cap == x && (cap + x) % cap == x
  {
    assert cap + x == cap * 1 + x;
    AddMultiple(cap, 1, x);
  }

  // The distance from slot `r` round to slot `x`.
  function Distance(r: nat, x: nat, cap: nat): nat requires x < cap && r < cap { if r <= x then x - r else x - r + cap }

  lemma LinearCovers(h: nat, cap: nat, x: nat)
    requires x < cap
    ensures exists k: nat :: k < cap && Slot(Linear, h, k, cap) == x
  {
    var r := h % cap;
    var k := Distance(r, x, cap);
    AddMod(h, k, cap);
    SmallMod(x, cap);
    assert r + k == x || r + k == cap + x;
    assert k < cap && Slot(Linear, h, k, cap) == x;
  }

  lemma SquaresCover(h: nat, cap: nat, x: nat)
    requires IsPow2(cap) && x < cap
    ensures exists k: nat :: k < 2 * cap && Slot(Squares, h, k, cap) == x
  {
    var m: nat :| cap == Pow2(m);
    var f := seq(cap, (j: nat) => Slot(Squares, h, 2 * j, cap));
    forall i, j | 0 <= i < j < cap ensures f[i] != f[j] {
      if f[i] == f[j] { EvenProbesDiffer(m, h, i, j); }
    }
    Pigeonhole(f, cap, x);
    var j :| 0 <= j < cap && f[j] == x;
    assert 2 * j < 2 * cap;
  }

  /** From any start every slot of the table is probed within 2 * capacity steps. */
  lemma ProbesCover(p: Probe, h: nat, cap: nat, x: nat)
    requires IsPow2(cap) && x < cap
    ensures exists k: nat :: k < 2 * cap && Slot(p, h, k, cap) == x
  {
    if p.Squares? { SquaresCover(h, cap, x); } else { LinearCovers(h, cap, x); }
  }

  // The next probe from the current one, as the loops compute it.
  lemma NextSlot(p: Probe, h: nat, k: nat, cap: nat)
    requires cap > 0
    ensures Slot(p, h, k + 1, cap) == (Slot(p, h, k, cap) + (if p.Squares? then (k + 1) * (k + 1) else 1)) % cap
  {
    var a, b := h + Offset(p, k), Offset(p, k + 1) - Offset(p, k);
    var q := a / cap;
    assert a + b == cap * q + (a % cap + b);
    AddMultiple(cap, q, a % cap + b);
  }

  lemma AddMultiple(d: nat, q: int, a: int)
    requires d > 0
    ensures (d * q + a) % d == a % d
  {
    var r := a % d;
    assert d * q + a - r == d * (q + a / d);
    var x := d * q + a;
    var y := x % d;
    assert x == d * (x / d) + y;
    assert y - r == d * (q + a / d - x / d);
    MultipleDivides(d, q + a / d - x / d, y - r);
    SmallMultiple(d, y - r);
  }
}
