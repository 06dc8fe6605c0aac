/**
 DEBRA+: before whole blocks of an epoch bag are freed, the announced objects are swapped to the front
 of the bag, in iteration order; the blocks behind the last of them go to the pool.
 */
module DebraPlus {
  import opened Erasing
  import opened BlockBags
  import opened ProbedKeys
  import opened HazardScan

  const SCAN_THRESHOLD := 4
  const MAX_PROTECT_EVEN_IF_QUIESCENT := 7

  // ---------------------------------------------------------------- positions in iteration order

  // Item `i` of block `b`; iteration goes through the blocks, in each from the last item to the first.
  datatype Pos = Pos(b: nat, i: int)

  predicate IsItem(m: seq<seq<Item>>, p: Pos) { p.b < |m| && 0 <= p.i < |m[p.b]| }
  function ItemAt(m: seq<seq<Item>>, p: Pos): Item requires IsItem(m, p) { m[p.b][p.i] }
  predicate IsEnd(m: seq<seq<Item>>, p: Pos) { p == Pos(|m|, -1) }
  predicate Before(p: Pos, q: Pos) { p.b < q.b || (p.b == q.b && p.i > q.i) }

  // Where the iterator goes from item `i` of block `b`.
  function Next(m: seq<seq<Item>>, p: Pos): Pos requires p.b < |m| {
    if p.i >= 1 then Pos(p.b, p.i - 1)
    else Pos(p.b + 1, if p.b + 1 < |m| then |m[p.b + 1]| - 1 else -1)
  }

  function Begin(m: seq<seq<Item>>): Pos requires m != [] { Next(m, Pos(0, |m[0]|)) }

  lemma NextIsNext(m: seq<seq<Item>>, p: Pos, q: Pos)
    requires Shaped(m) && p.b < |m| && p.i <= |m[p.b]| && IsItem(m, q)
    ensures IsItem(m, Next(m, p)) || IsEnd(m, Next(m, p))
    ensures Before(q, Next(m, p)) <==> Before(q, p) || q == p
  {}

  lemma BeginIsFirst(m: seq<seq<Item>>, q: Pos)
    requires Shaped(m) && IsItem(m, q)
    ensures !Before(q, Begin(m))
  {
    NextIsNext(m, Pos(0, |m[0]|), q);
  }

  // ---------------------------------------------------------------- the partition

  // Items before `front` are announced; those from `front` to before `it` are not.
  ghost predicate Partitioned(m: seq<seq<Item>>, front: Pos, it: Pos, announced: set<Item>) {
    forall p :: IsItem(m, p) ==>
      (Before(p, front) ==> ItemAt(m, p) in announced)
          && (!Before(p, front) && Before(p, it) ==> ItemAt(m, p) !in announced)
  }

  function Swapped(m: seq<seq<Item>>, p: Pos, q: Pos): seq<seq<Item>>
    requires IsItem(m, p) && IsItem(m, q)
  {
    var x, y := ItemAt(m, p), ItemAt(m, q);
    var m1 := m[q.b := m[q.b][q.i := x]];
    m1[p.b := m1[p.b][p.i := y]]
  }

  lemma SwappedAt(m: seq<seq<Item>>, p: Pos, q: Pos, r: Pos)
    requires Shaped(m) && IsItem(m, p) && IsItem(m, q)
    ensures Shaped(Swapped(m, p, q)) && |Swapped(m, p, q)| == |m|
    ensures IsItem(Swapped(m, p, q), r) <==> IsItem(m, r)
    ensures IsItem(m, r) ==>
      ItemAt(Swapped(m, p, q), r) == if r == p then ItemAt(m, q) else if r == q then ItemAt(m, p) else ItemAt(m, r)
  {}

  lemma SwapOccurs(m: seq<seq<Item>>, p: Pos, q: Pos, x: Item)
    requires IsItem(m, p) && IsItem(m, q)
    ensures Occurs(Swapped(m, p, q), x) == Occurs(m, x)
  {
    var a, c := ItemAt(m, p), ItemAt(m, q);
    var m1 := m[q.b := m[q.b][q.i := a]];
    ReplacedBag(m[q.b], q.i, a, x);
    OccursReplace(m, q.b, m[q.b][q.i := a], x);
    ReplacedBag(m1[p.b], p.i, c, x);
    OccursReplace(m1, p.b, m1[p.b][p.i := c], x);
  }

  lemma FoundStep(m: seq<seq<Item>>, front: Pos, it: Pos, announced: set<Item>)
    requires Shaped(m) && Partitioned(m, front, it, announced) && IsItem(m, it) && IsItem(m, front)
    requires ItemAt(m, it) in announced && (front == it || Before(front, it))
    ensures var m' := Swapped(m, it, front);
            |m'| == |m| && Shaped(m') && Partitioned(m', Next(m', front), Next(m', it), announced)
  {
    var m' := Swapped(m, it, front);
    SwappedAt(m, it, front, it);
    forall p | IsItem(m', p)
      ensures (Before(p, Next(m', front)) ==> ItemAt(m', p) in announced)
      ensures (!Before(p, Next(m', front)) && Before(p, Next(m', it)) ==> ItemAt(m', p) !in announced)
    {
      SwappedAt(m, it, front, p);
      NextIsNext(m', front, p);
      NextIsNext(m', it, p);
    }
  }

  lemma PassStep(m: seq<seq<Item>>, front: Pos, it: Pos, announced: set<Item>)
    requires Shaped(m) && Partitioned(m, front, it, announced) && IsItem(m, it)
    requires ItemAt(m, it) !in announced && (front == it || Before(front, it))
    ensures Partitioned(m, front, Next(m, it), announced)
  {
    forall p | IsItem(m, p)
      ensures (Before(p, front) ==> ItemAt(m, p) in announced)
      ensures (!Before(p, front) && Before(p, Next(m, it)) ==> ItemAt(m, p) !in announced)
    {
      NextIsNext(m, it, p);
    }
  }

  // ---------------------------------------------------------------- on the linked blocks

  class BlockBagIterator {
    var curr: Block?
    var ix: int
    ghost var b: nat

    ghost predicate At(bag: BlockBag, p: Pos)
      reads this, bag
    {
      p == Pos(b, ix) && |bag.blocks| == |bag.model| && (IsItem(bag.model, p) || IsEnd(bag.model, p))
      && curr == if b < |bag.blocks| then bag.blocks[b] else null
    }

    constructor (bag: BlockBag)
      requires bag.Valid()
      ensures At(bag, Begin(bag.model))
    {
      curr := bag.head;
      ix := bag.head.size;
      b := 0;
      new;
      assert HoldsAt(bag.blocks, bag.model, 0);
      Step(bag);
    }

    // The iterator's increment, also used once before the first item.
    method Step(ghost bag: BlockBag)
      requires bag.Valid() && b < |bag.model| && ix <= |bag.model[b]| && curr == bag.blocks[b]
      modifies this
      ensures At(bag, Next(bag.model, old(Pos(b, ix))))
    {
      assert LinkOk(bag.blocks, b) && HoldsAt(bag.blocks, bag.model, b);
      ix := ix - 1;
      if ix < 0 {
        curr := curr.next;
        b := b + 1;
        if curr != null { assert HoldsAt(bag.blocks, bag.model, b); }
        ix := if curr != null then curr.size - 1 else -1;
      }
    }
  }

  // Exchanges the items at two places of the bag.
  method Swap(bag: BlockBag, c: Block, ghost p: Pos, o: Block, ghost q: Pos, ix: nat, otherIx: nat)
    requires bag.Valid() && IsItem(bag.model, p) && IsItem(bag.model, q) && p.i == ix && q.i == otherIx
    requires c == bag.blocks[p.b] && o == bag.blocks[q.b]
    modifies bag`model, c.data, o.data
    ensures bag.Valid() && bag.model == Swapped(old(bag.model), p, q)
  {
    SwappedAt(bag.model, p, q, p);
    assert HoldsAt(bag.blocks, bag.model, q.b) && HoldsAt(bag.blocks, bag.model, p.b);
    assert o.data[..o.size][otherIx] == ItemAt(bag.model, q) && c.data[..c.size][ix] == ItemAt(bag.model, p);
    var temp := o.data[otherIx];
    bag.ReplaceAt(o, q.b, otherIx, c.data[ix]);
    bag.ReplaceAt(c, p.b, ix, temp);
  }

  // The state of the partition of a bag that held `m` before.
  ghost predicate Progress(m: seq<seq<Item>>, cur: seq<seq<Item>>, front: Pos, it: Pos, announced: set<Item>) {
    && Shaped(cur) && |cur| == |m| && Partitioned(cur, front, it, announced)
    && (front == it || Before(front, it))
    && forall x :: Occurs(cur, x) == Occurs(m, x)
  }

  lemma FoundProgress(m: seq<seq<Item>>, cur: seq<seq<Item>>, front: Pos, it: Pos, announced: set<Item>)
    requires Progress(m, cur, front, it, announced) && IsItem(cur, it) && IsItem(cur, front)
        && ItemAt(cur, it) in announced
    ensures Progress(m, Swapped(cur, it, front), Next(cur, front), Next(cur, it), announced)
    ensures var cur' := Swapped(cur, it, front);
        Next(cur', front) == Next(cur, front) && Next(cur', it) == Next(cur, it)
  {
    FoundStep(cur, front, it, announced);
    forall x ensures Occurs(Swapped(cur, it, front), x) == Occurs(m, x) { SwapOccurs(cur, it, front, x); }
    NextInOrder(cur, front, it);
    SwapSizes(cur, it, front);
  }

  lemma SwapSizes(m: seq<seq<Item>>, p: Pos, q: Pos)
    requires IsItem(m, p) && IsItem(m, q)
    ensures |Swapped(m, p, q)| == |m| && forall i :: 0 <= i < |m| ==> |Swapped(m, p, q)[i]| == |m[i]|
  {}

  lemma NextInOrder(m: seq<seq<Item>>, p: Pos, q: Pos)
    requires Shaped(m) && IsItem(m, p) && IsItem(m, q) && (p == q || Before(p, q))
    ensures Next(m, p) == Next(m, q) || Before(Next(m, p), Next(m, q))
  {}

  lemma PassProgress(m: seq<seq<Item>>, cur: seq<seq<Item>>, front: Pos, it: Pos, announced: set<Item>)
    requires Progress(m, cur, front, it, announced) && IsItem(cur, it) && ItemAt(cur, it) !in announced
    ensures Progress(m, cur, front, Next(cur, it), announced)
  {
    PassStep(cur, front, it, announced);
    NextIsNext(cur, it, it);
  }

  // What the iterator points to.
  method Peek(bag: BlockBag, it: BlockBagIterator, ghost p: Pos) returns (x: Item)
    requires bag.Valid() && it.At(bag, p) && it.curr != null
    ensures IsItem(bag.model, p) && x == ItemAt(bag.model, p)
  {
    assert HoldsAt(bag.blocks, bag.model, p.b);
    assert it.curr.data[..it.curr.size][it.ix] == ItemAt(bag.model, p);
    x := it.curr.data[it.ix];
  }

  // Swaps the items at the two iterators, and moves the second one on.
  method Exchange(bag: BlockBag, it: BlockBagIterator, ghost q: Pos, nextswap: BlockBagIterator, ghost p: Pos)
    requires bag.Valid() && it.At(bag, q) && nextswap.At(bag, p) && it != nextswap && IsItem(bag.model, q)
        && IsItem(bag.model, p)
    modifies bag`model, Arrays(bag.blocks), nextswap
    ensures bag.Valid() && bag.model == Swapped(old(bag.model), q, p)
    ensures it.At(bag, q) && nextswap.At(bag, Next(bag.model, p))
  {
    SwapSizes(bag.model, q, p);
    assert bag.blocks[q.b].data in Arrays(bag.blocks) && bag.blocks[p.b].data in Arrays(bag.blocks);
    Swap(bag, it.curr, q, nextswap.curr, p, it.ix, nextswap.ix);
    nextswap.Step(bag);
  }

  ghost predicate Scanning(bag: BlockBag, it: BlockBagIterator, nextswap: BlockBagIterator,
                           m: seq<seq<Item>>, p: Pos, q: Pos, announced: set<Item>)
    reads bag, bag.blocks, set i | 0 <= i < |bag.blocks| :: bag.blocks[i].data
    reads it, nextswap
  {
    bag.Valid() && it != nextswap && it.At(bag, q) && nextswap.At(bag, p) && Progress(m, bag.model, p, q, announced)
  }

  // The table holds exactly the objects `announced`, and has room.
  ghost predicate Hashed(table: HashsetNew<Item>, announced: set<Item>)
    reads table, table.keys
  {
    table.Valid() && table.size < table.tableSize && Elements(table.keys[..]) == announced
  }

  // Whether the item that the iterator points to is announced.
  method Find(bag: BlockBag, it: BlockBagIterator, ghost q: Pos, comparing: HashsetNew<Item>,
      ghost announced: set<Item>)
      returns (found: bool)
    requires bag.Valid() && it.At(bag, q) && it.curr != null && Hashed(comparing, announced)
    ensures IsItem(bag.model, q) && (found <==> ItemAt(bag.model, q) in announced)
  {
    var x := Peek(bag, it, q);
    found := comparing.Contains(x);
  }

  // Goes past one item, exchanging it with the first that is not announced if it is.
  method Visit(bag: BlockBag, it: BlockBagIterator, nextswap: BlockBagIterator, found: bool,
               ghost m: seq<seq<Item>>, ghost p: Pos, ghost q: Pos, ghost announced: set<Item>)
      returns (ghost p': Pos, ghost q': Pos)
    requires Scanning(bag, it, nextswap, m, p, q, announced) && IsItem(bag.model, q)
    requires found <==> ItemAt(bag.model, q) in announced
    modifies bag`model, Arrays(bag.blocks), it, nextswap
    ensures Scanning(bag, it, nextswap, m, p', q', announced)
    ensures q.b < q'.b || (q.b == q'.b && -1 <= q'.i < q.i)
  {
    q' := Next(bag.model, q);
    if found {
      p' := Next(bag.model, p);
      FoundProgress(m, bag.model, p, q, announced);
      Exchange(bag, it, q, nextswap, p);
    } else {
      p' := p;
      PassProgress(m, bag.model, p, q, announced);
    }
    it.Step(bag);
  }

  // One round of the scan.
  method Round(bag: BlockBag, it: BlockBagIterator, nextswap: BlockBagIterator, comparing: HashsetNew<Item>,
               ghost m: seq<seq<Item>>, ghost p: Pos, ghost q: Pos, ghost announced: set<Item>)
      returns (ghost p': Pos, ghost q': Pos)
    requires Scanning(bag, it, nextswap, m, p, q, announced) && it.curr != null && Hashed(comparing, announced)
    modifies bag`model, Arrays(bag.blocks), it, nextswap
    ensures Scanning(bag, it, nextswap, m, p', q', announced) && Hashed(comparing, announced)
    ensures q.b < q'.b || (q.b == q'.b && -1 <= q'.i < q.i)
  {
    var found := Find(bag, it, q, comparing, announced);
    p', q' := Visit(bag, it, nextswap, found, m, p, q, announced);
  }

  /** Brings the announced objects to the front, and tells where the others begin. */
  method SwapToFront(freeable: BlockBag, comparing: HashsetNew<Item>, ghost announced: set<Item>)
      returns (nextswap: BlockBagIterator, ghost p: Pos)
    requires freeable.Valid() && Hashed(comparing, announced)
    modifies freeable`model, Arrays(freeable.blocks)
    ensures freeable.Valid() && nextswap.At(freeable, p)
    ensures Progress(old(freeable.model), freeable.model, p, Pos(|freeable.model|, -1), announced)
  {
    var it := new BlockBagIterator(freeable);
    nextswap := new BlockBagIterator(freeable);
    ghost var m := freeable.model;
    ghost var q := Begin(m);
    p := q;
    forall r | IsItem(m, r) ensures !Before(r, q) { BeginIsFirst(m, r); }
    while it.curr != null
      invariant Scanning(freeable, it, nextswap, m, p, q, announced) && fresh(it) && fresh(nextswap)
      invariant q.b <= |m| && -1 <= q.i && Hashed(comparing, announced)
      decreases |m| - q.b, q.i + 1
    {
      p, q := Round(freeable, it, nextswap, comparing, m, p, q, announced);
    }
  }

  lemma {:induction false} NoneOf(m: seq<seq<Item>>, x: Item)
    requires forall p :: IsItem(m, p) ==> ItemAt(m, p) != x
    ensures Occurs(m, x) == 0
  {
    if m != [] {
      forall i | 0 <= i < |m[0]| ensures m[0][i] != x { assert ItemAt(m, Pos(0, i)) != x; }
      forall p | IsItem(m[1..], p) ensures ItemAt(m[1..], p) != x {
        assert IsItem(m, Pos(p.b + 1, p.i)) && ItemAt(m, Pos(p.b + 1, p.i)) == ItemAt(m[1..], p);
      }
      NoneOf(m[1..], x);
    }
  }

  // No announced object is behind the block where the others begin.
  lemma NoneBehind(m: seq<seq<Item>>, p: Pos, announced: set<Item>, x: Item)
    requires Partitioned(m, p, Pos(|m|, -1), announced) && p.b < |m| && x in announced
    ensures Occurs(m[p.b + 1..], x) == 0 && Occurs(m[..p.b + 1], x) == Occurs(m, x)
  {
    var k := p.b + 1;
    forall q | IsItem(m[k..], q) ensures ItemAt(m[k..], q) != x { BehindItem(m, p, k, q, announced); }
    NoneOf(m[k..], x);
    CutOccurs(m, k, x);
  }

  lemma BehindItem(m: seq<seq<Item>>, p: Pos, k: nat, q: Pos, announced: set<Item>)
    requires Partitioned(m, p, Pos(|m|, -1), announced) && p.b < k <= |m| && IsItem(m[k..], q)
    ensures ItemAt(m[k..], q) !in announced
  {
    var r := Pos(q.b + k, q.i);
    assert IsItem(m, r) && ItemAt(m, r) == ItemAt(m[k..], q);
  }

  lemma CutOccurs(m: seq<seq<Item>>, k: nat, x: Item)
    requires k <= |m|
    ensures Occurs(m[..k], x) + Occurs(m[k..], x) == Occurs(m, x)
  {
    OccursPlus(m[..k], m[k..], x);
    assert m == m[..k] + m[k..];
  }

  // ---------------------------------------------------------------- what stays

  // Every block but the last holds announced objects only.
  ghost predicate OnlyAnnounced(m: seq<seq<Item>>, announced: set<Item>) {
    forall i, j :: 0 <= i < |m| - 1 && 0 <= j < |m[i]| ==> m[i][j] in announced
  }

  lemma FrontAnnounced(m: seq<seq<Item>>, p: Pos, announced: set<Item>, k: nat)
    requires Partitioned(m, p, Pos(|m|, -1), announced) && k <= |m| && k <= p.b + 1
    ensures OnlyAnnounced(m[..k], announced)
  {
    forall i, j | 0 <= i < k - 1 && 0 <= j < |m[..k][i]| ensures m[..k][i][j] in announced {
      assert IsItem(m, Pos(i, j)) && Before(Pos(i, j), p);
    }
  }

  function Flat(m: seq<seq<Item>>): seq<Item> { if m == [] then [] else m[0] + Flat(m[1..]) }

  lemma {:induction false} FlatOccurs(m: seq<seq<Item>>, x: Item)
    ensures multiset(Flat(m))[x] == Occurs(m, x)
  {
    if m != [] { FlatOccurs(m[1..], x); }
  }

  lemma {:induction false} FlatSize(m: seq<seq<Item>>)
    requires forall i :: 0 <= i < |m| ==> |m[i]| == BLOCK_SIZE
    ensures |Flat(m)| == |m| * BLOCK_SIZE
  {
    if m != [] { FlatSize(m[1..]); }
  }

  lemma {:induction false} FlatIn(m: seq<seq<Item>>, announced: set<Item>)
    requires forall i, j :: 0 <= i < |m| && 0 <= j < |m[i]| ==> m[i][j] in announced
    ensures forall i :: 0 <= i < |Flat(m)| ==> Flat(m)[i] in announced
  {
    if m != [] {
      forall i, j | 0 <= i < |m[1..]| && 0 <= j < |m[1..][i]| ensures m[1..][i][j] in announced {
        assert m[1..][i][j] == m[i + 1][j];
      }
      FlatIn(m[1..], announced);
    }
  }

  /** With distinct objects the full blocks that stay, the last aside, are paid for by announcements. */
  lemma FewBlocks(m: seq<seq<Item>>, announced: set<Item>)
    requires Shaped(m) && OnlyAnnounced(m, announced) && forall x :: Occurs(m, x) <= 1
    ensures (|m| - 2) * BLOCK_SIZE <= |announced|
  {
    if |m| > 2 {
      var f := m[1..|m| - 1];
      FlatSize(f);
      forall i, j | 0 <= i < |f| && 0 <= j < |f[i]| ensures f[i][j] in announced { assert f[i][j] == m[i + 1][j]; }
      FlatIn(f, announced);
      forall x ensures multiset(Flat(f))[x] <= 1 {
        FlatOccurs(f, x);
        PartOccurs(m, x);
      }
      NoTwice(Flat(f));
      NoRepeatsLength(Flat(f), announced);
    }
  }

  lemma PartOccurs(m: seq<seq<Item>>, x: Item)
    requires |m| >= 2
    ensures Occurs(m[1..|m| - 1], x) <= Occurs(m, x)
  {
    CutOccurs(m, |m| - 1, x);
    CutOccurs(m[..|m| - 1], 1, x);
    assert m[..|m| - 1][1..] == m[1..|m| - 1];
  }

  lemma NoTwice(s: seq<Item>)
    requires forall x :: multiset(s)[x] <= 1
    ensures NoRepeats(s)
  {
    forall i, j | 0 <= i < j < |s| ensures s[i] != s[j] {
      if s[i] == s[j] { Twice(s, i, j); }
    }
  }

  // Moves the blocks behind block `p.b` to the pool.
  method FreeBehind(freeable: BlockBag, pool: BlockBag, curr: Block, ghost p: Pos, ghost m: seq<seq<Item>>,
      ghost announced: set<Item>)
    requires freeable.Valid() && pool.Valid() && freeable != pool && Distinct(pool.blocks + freeable.blocks)
    requires p.b < |freeable.blocks| && curr == freeable.blocks[p.b]
    requires Progress(m, freeable.model, p, Pos(|freeable.model|, -1), announced)
    modifies freeable, pool, curr`next, pool.tail`next
    ensures freeable.Valid() && pool.Valid()
    ensures freeable.model == old(freeable.model)[..p.b + 1]
    ensures forall x :: Occurs(freeable.model, x) <= Occurs(m, x)
    ensures forall x :: Moved(old(pool.model), m, pool.model, freeable.model, x)
    ensures forall x :: x in announced ==> Occurs(freeable.model, x) == Occurs(m, x)
  {
    ghost var cur, o := freeable.model, pool.model;
    pool.AppendMoveFullBlocks(freeable, curr, p.b);
    forall x ensures Moved(o, m, pool.model, freeable.model, x) && Occurs(freeable.model, x) <= Occurs(m, x) {
      OccursPlus(o, cur[p.b + 1..], x);
      CutOccurs(cur, p.b + 1, x);
    }
    forall x | x in announced ensures Occurs(freeable.model, x) == Occurs(m, x) { NoneBehind(cur, p, announced, x); }
  }

  // Brings the announced objects to the front and frees the blocks behind them.
  method FreeUnannounced(freeable: BlockBag, pool: BlockBag, comparing: HashsetNew<Item>, ghost announced: set<Item>)
    requires freeable.Valid() && pool.Valid() && freeable != pool && Distinct(pool.blocks + freeable.blocks)
    requires Hashed(comparing, announced)
    modifies freeable, pool, freeable.blocks, Arrays(freeable.blocks), pool.tail`next
    ensures freeable.Valid() && pool.Valid()
    ensures forall x :: Moved(old(pool.model), old(freeable.model), pool.model, freeable.model, x)
    ensures forall x :: x in announced ==> Occurs(freeable.model, x) == Occurs(old(freeable.model), x)
    ensures OnlyAnnounced(freeable.model, announced)
    ensures forall x :: Occurs(freeable.model, x) <= Occurs(old(freeable.model), x)
  {
    ghost var m := freeable.model;
    ApartFrom(pool.blocks, freeable.blocks);
    var nextswap, p := SwapToFront(freeable, comparing, announced);
    forall i: nat | i < |pool.blocks| ensures LinkOk(pool.blocks, i) && HoldsAt(pool.blocks, pool.model, i) {
      assert old(LinkOk(pool.blocks, i) && HoldsAt(pool.blocks, pool.model, i));
      assert pool.blocks[i].data !in old(Arrays(freeable.blocks));
      assert pool.blocks[i].data[..pool.blocks[i].size] == old(pool.blocks[i].data[..pool.blocks[i].size]);
    }
    var curr := nextswap.curr;
    ghost var cur := freeable.model;
    FrontAnnounced(cur, p, announced, if curr != null then p.b + 1 else |cur|);
    if curr != null { FreeBehind(freeable, pool, curr, p, m, announced); } else { assert cur[..|cur|] == cur; }
  }

  /**
   Frees whole blocks of a large bag: nothing that some thread announces leaves the bag, nothing is lost, and every
   block that stays holds announced objects only, the last one aside; so with distinct objects at most two more blocks
   stay than the announcements fill.
   */
  method RotateScan(freeable: BlockBag, pool: BlockBag, comparing: HashsetNew<Item>, announce: seq<seq<Item>>)
    requires freeable.Valid() && pool.Valid() && freeable != pool && Distinct(pool.blocks + freeable.blocks)
    requires Bounded(announce, MAX_PROTECT_EVEN_IF_QUIESCENT) && comparing.Valid()
    requires comparing.tableSize >= 2 * |announce| * MAX_PROTECT_EVEN_IF_QUIESCENT
    modifies freeable, pool, freeable.blocks, Arrays(freeable.blocks), pool.tail`next, comparing, comparing.keys
    ensures freeable.Valid() && pool.Valid()
    ensures forall x :: Moved(old(pool.model), old(freeable.model), pool.model, freeable.model, x)
    ensures forall x :: Announced(announce, x) ==> Occurs(freeable.model, x) == Occurs(old(freeable.model), x)
    ensures |old(freeable.model)| >= SCAN_THRESHOLD ==>
        forall i, j :: 0 <= i < |freeable.model| - 1 && 0 <= j < |freeable.model[i]| ==>
          Announced(announce, freeable.model[i][j])
    ensures |old(freeable.model)| >= SCAN_THRESHOLD && (forall x :: Occurs(old(freeable.model), x) <= 1) ==>
        (|freeable.model| - 2) * BLOCK_SIZE <= |announce| * MAX_PROTECT_EVEN_IF_QUIESCENT
    ensures forall x :: Occurs(freeable.model, x) <= Occurs(old(freeable.model), x)
    ensures |old(freeable.model)| < SCAN_THRESHOLD ==>
        freeable.model == old(freeable.model) && pool.model == old(pool.model)
  {
    if freeable.sizeInBlocks >= SCAN_THRESHOLD {
      HashAnnouncements(comparing, announce, MAX_PROTECT_EVEN_IF_QUIESCENT);
      ghost var announced := Elements(comparing.keys[..]);
      ElementsFew(comparing.keys[..]);
      assert |announced| <= |announce| * MAX_PROTECT_EVEN_IF_QUIESCENT;
      ghost var m := freeable.model;
      FreeUnannounced(freeable, pool, comparing, announced);
      if forall x :: Occurs(m, x) <= 1 { FewBlocks(freeable.model, announced); }
    }
  }
}
