/**
 Bags made of linked blocks: the first block is never full, all others always are.
 */
module BlockBags {
  import opened Erasing

  type Item = int                  // the address of an object

  const BLOCK_SIZE: nat := 40      // 512 bytes of pointers, less three words each counted 8 times

  class Block {
    var next: Block?
    var size: nat
    const data: array<Item>

    ghost predicate Holds(items: seq<Item>)
      reads this, data
    {
      data.Length == BLOCK_SIZE && size == |items| <= BLOCK_SIZE && data[..size] == items
    }

    constructor (next: Block?)
      ensures Holds([]) && fresh(data) && this.next == next
    {
      this.next := next;
      size := 0;
      data := new Item[BLOCK_SIZE];
    }

    method Push(obj: Item, ghost items: seq<Item>)
      requires Holds(items) && |items| < BLOCK_SIZE
      modifies this`size, data
      ensures Holds(items + [obj])
    {
      data[size] := obj;
      size := size + 1;
    }

    method Pop(ghost items: seq<Item>) returns (x: Item)
      requires Holds(items) && items != []
      modifies this`size
      ensures Holds(items[..|items| - 1]) && x == items[|items| - 1]
    {
      size := size - 1;
      x := data[size];
    }

    method Erase(ix: nat, ghost items: seq<Item>)
      requires Holds(items) && ix < |items|
      modifies this`size, data
      ensures Holds(Erased(items, ix))
    {
      if ix != size - 1 { data[ix] := data[size - 1]; }
      size := size - 1;
    }

    method Replace(ix: nat, obj: Item, ghost items: seq<Item>)
      requires Holds(items) && ix < |items|
      modifies data
      ensures Holds(items[ix := obj])
    {
      data[ix] := obj;
    }
  }

  // ---------------------------------------------------------------- contents and shape

  function Shaped(m: seq<seq<Item>>): bool {
    |m| > 0 && |m[0]| < BLOCK_SIZE && forall i :: 0 < i < |m| ==> |m[i]| == BLOCK_SIZE
  }

  // How often `x` is in the bag.
  function Occurs(m: seq<seq<Item>>, x: Item): nat {
    if m == [] then 0 else multiset(m[0])[x] + Occurs(m[1..], x)
  }

  function One(a: Item, x: Item): nat { if a == x then 1 else 0 }

  lemma {:induction false} OccursPlus(a: seq<seq<Item>>, b: seq<seq<Item>>, x: Item)
    ensures Occurs(a + b, x) == Occurs(a, x) + Occurs(b, x)
  {
    if a == [] {
      assert a + b == b;
    } else {
      OccursPlus(a[1..], b, x);
      assert (a + b)[1..] == a[1..] + b;
    }
  }

  // Replacing one block changes the bag by the difference of the blocks.
  lemma {:induction false} OccursReplace(m: seq<seq<Item>>, i: nat, s: seq<Item>, x: Item)
    requires i < |m|
    ensures Occurs(m[i := s], x) + multiset(m[i])[x] == Occurs(m, x) + multiset(s)[x]
  {
    if i > 0 {
      OccursReplace(m[1..], i - 1, s, x);
      assert m[i := s][1..] == m[1..][i - 1 := s];
    } else {
      assert m[i := s][1..] == m[1..];
    }
  }

  // What each operation does to the contents, block by block.
  function Added(m: seq<seq<Item>>, x: Item): seq<seq<Item>> requires m != [] {
    var h := m[0 := m[0] + [x]];
    if |h[0]| == BLOCK_SIZE then [[]] + h else h
  }

  function Front(s: seq<Item>): seq<Item> requires s != [] { s[..|s| - 1] }
  function Last(s: seq<Item>): Item requires s != [] { s[|s| - 1] }

  predicate IsEmpty(m: seq<seq<Item>>) requires m != [] { m[0] == [] && |m| == 1 }

  // The block that is first once an empty head is dropped.
  function Trimmed(m: seq<seq<Item>>): seq<seq<Item>> requires m != [] && !IsEmpty(m) {
    if m[0] == [] then m[1..] else m
  }

  function Removed(m: seq<seq<Item>>): seq<seq<Item>>
    requires m != [] && !IsEmpty(m) && Trimmed(m)[0] != []
  {
    var h := Trimmed(m);
    h[0 := Front(h[0])]
  }

  lemma AddedKeeps(m: seq<seq<Item>>, a: Item, x: Item)
    requires Shaped(m)
    ensures Shaped(Added(m, a)) && !IsEmpty(Added(m, a)) && Occurs(Added(m, a), x) == Occurs(m, x) + One(a, x)
  {
    var h := m[0 := m[0] + [a]];
    OccursReplace(m, 0, m[0] + [a], x);
    assert ([[]] + h)[1..] == h;
  }

  lemma TrimmedShape(m: seq<seq<Item>>)
    requires Shaped(m) && !IsEmpty(m)
    ensures Trimmed(m) != [] && Trimmed(m)[0] != [] && forall x :: Occurs(Trimmed(m), x) == Occurs(m, x)
    ensures forall i :: 0 < i < |Trimmed(m)| ==> |Trimmed(m)[i]| == BLOCK_SIZE
  {}

  lemma FrontLast(s: seq<Item>, x: Item)
    requires s != []
    ensures multiset(s)[x] == multiset(Front(s))[x] + One(Last(s), x)
  {
    assert s == Front(s) + [Last(s)];
  }

  lemma RemovedKeeps(m: seq<seq<Item>>, x: Item)
    requires Shaped(m) && !IsEmpty(m)
    ensures Trimmed(m)[0] != [] && Shaped(Removed(m))
    ensures Occurs(Removed(m), x) + One(Last(Trimmed(m)[0]), x) == Occurs(m, x)
  {
    TrimmedShape(m);
    var h := Trimmed(m);
    FrontLast(h[0], x);
    OccursReplace(h, 0, Front(h[0]), x);
  }

  // Erasing item `ix` of block `b`, counted before an empty head is dropped.
  function ErasedAt(m: seq<seq<Item>>, b: nat, ix: nat): seq<seq<Item>>
    requires m != [] && !IsEmpty(m) && b < |m| && ix < |m[b]| && Trimmed(m)[0] != []
  {
    var h := Trimmed(m);
    var c := if m[0] == [] then b - 1 else b;
    if c == 0 then h[0 := Erased(h[0], ix)]
    else h[0 := Front(h[0])][c := h[c][ix := Last(h[0])]]
  }

  lemma ErasedKeeps(m: seq<seq<Item>>, b: nat, ix: nat, x: Item)
    requires Shaped(m) && !IsEmpty(m) && b < |m| && ix < |m[b]|
    ensures Trimmed(m)[0] != [] && Shaped(ErasedAt(m, b, ix))
    ensures Occurs(ErasedAt(m, b, ix), x) + One(m[b][ix], x) == Occurs(m, x)
  {
    TrimmedShape(m);
    var h := Trimmed(m);
    var c := if m[0] == [] then b - 1 else b;
    assert h[c] == m[b];
    if c == 0 {
      ErasedBag(h[0], ix);
      OccursReplace(h, 0, Erased(h[0], ix), x);
    } else {
      FilledKeeps(h, c, ix, x);
    }
  }

  // The last item of the first block replaces item `ix` of block `c`.
  lemma FilledKeeps(h: seq<seq<Item>>, c: nat, ix: nat, x: Item)
    requires 0 < c < |h| && h[0] != [] && ix < |h[c]|
    ensures Occurs(h[0 := Front(h[0])][c := h[c][ix := Last(h[0])]], x) + One(h[c][ix], x) == Occurs(h, x)
  {
    FrontLast(h[0], x);
    OccursReplace(h, 0, Front(h[0]), x);
    ReplacedBag(h[c], ix, Last(h[0]), x);
    OccursReplace(h[0 := Front(h[0])], c, h[c][ix := Last(h[0])], x);
  }

  lemma ReplacedBag(s: seq<Item>, ix: nat, a: Item, x: Item)
    requires ix < |s|
    ensures multiset(s[ix := a])[x] + One(s[ix], x) == multiset(s)[x] + One(a, x)
  {}

  // ---------------------------------------------------------------- linked blocks

  ghost function Arrays(blocks: seq<Block>): set<array<Item>> { set i | 0 <= i < |blocks| :: blocks[i].data }

  function Following(blocks: seq<Block>, i: nat): Block? { if i + 1 < |blocks| then blocks[i + 1] else null }

  ghost predicate LinkOk(blocks: seq<Block>, i: nat)
    requires i < |blocks|
    reads blocks`next
  {
    blocks[i].next == Following(blocks, i)
  }

  ghost predicate Linked(blocks: seq<Block>)
    reads blocks`next
  {
    forall i: nat {:trigger LinkOk(blocks, i)} :: i < |blocks| ==> LinkOk(blocks, i)
  }

  ghost predicate HoldsAt(blocks: seq<Block>, m: seq<seq<Item>>, i: nat)
    requires i < |blocks| && i < |m|
    reads blocks`size, set i | 0 <= i < |blocks| :: blocks[i].data
  {
    var b := blocks[i];
    b.data.Length == BLOCK_SIZE && b.size == |m[i]| <= BLOCK_SIZE && b.data[..b.size] == m[i]
  }

  ghost predicate Filled(blocks: seq<Block>, m: seq<seq<Item>>)
    reads blocks`size, set i | 0 <= i < |blocks| :: blocks[i].data
  {
    |blocks| == |m| && forall i: nat {:trigger HoldsAt(blocks, m, i)} :: i < |blocks| ==> HoldsAt(blocks, m, i)
  }

  ghost predicate Differ(a: Block, b: Block) { a != b && a.data != b.data }

  ghost predicate Distinct(blocks: seq<Block>) {
    forall i, j {:trigger blocks[i], blocks[j]} :: 0 <= i < j < |blocks| ==> Differ(blocks[i], blocks[j])
  }

  class BlockBag {
    var head: Block
    var tail: Block
    var sizeInBlocks: nat
    ghost var blocks: seq<Block>
    ghost var model: seq<seq<Item>>

    ghost predicate Ends()
      reads this
    {
      |blocks| > 0 && head == blocks[0] && tail == blocks[|blocks| - 1] && sizeInBlocks == |blocks|
    }

    ghost predicate Valid()
      reads this, blocks, set i | 0 <= i < |blocks| :: blocks[i].data
    {
      Ends() && Linked(blocks) && Filled(blocks, model) && Distinct(blocks) && Shaped(model)
    }

    constructor ()
      ensures Valid() && model == [[]] && fresh(blocks[0]) && fresh(blocks[0].data)
    {
      var b := new Block(null);
      head := b;
      tail := b;
      sizeInBlocks := 1;
      blocks := [b];
      model := [[]];
    }

    predicate IsEmptyBag()
      requires Valid()
      reads this, blocks, set i | 0 <= i < |blocks| :: blocks[i].data
      ensures IsEmptyBag() <==> IsEmpty(model)
    {
      assert LinkOk(blocks, 0) && HoldsAt(blocks, model, 0);
      head.next == null && head.size == 0
    }

    method Add(obj: Item)
      requires Valid()
      modifies this, head`size, head.data
      ensures Valid() && model == Added(old(model), obj)
      ensures blocks == old(blocks) || (|blocks| > 0 && blocks[1..] == old(blocks) && fresh(blocks[0])
          && fresh(blocks[0].data))
    {
      assert HoldsAt(blocks, model, 0) && LinkOk(blocks, 0);
      AddedKeeps(model, obj, obj);
      head.Push(obj, model[0]);
      model := model[0 := model[0] + [obj]];
      forall i: nat | i < |blocks| ensures HoldsAt(blocks, model, i) {
        assert old(HoldsAt(blocks, model, i));
        if i > 0 { assert Differ(blocks[0], blocks[i]); }
      }
      if head.size == BLOCK_SIZE { PushFront(); }
    }

    // Puts an empty block in front of a full one.
    method PushFront()
      requires Chained()
      modifies this
      ensures Chained() && model == [[]] + old(model)
      ensures |blocks| > 0 && blocks[1..] == old(blocks) && fresh(blocks[0]) && fresh(blocks[0].data)
    {
      ghost var was := blocks;
      var b := new Block(head);
      sizeInBlocks := sizeInBlocks + 1;
      head := b;
      blocks := [b] + blocks;
      model := [[]] + model;
      forall i: nat | 0 < i < |blocks| ensures HoldsAt(blocks, model, i) && LinkOk(blocks, i) {
        assert old(HoldsAt(blocks, model, i - 1) && blocks[i - 1].data[..blocks[i - 1].size] == model[i - 1]);
        assert blocks[i].data[..blocks[i].size] == old(blocks[i - 1].data[..blocks[i - 1].size]);
        assert old(LinkOk(blocks, i - 1));
      }
      assert HoldsAt(blocks, model, 0) && LinkOk(blocks, 0);
    }

    // Everything about the blocks but the shape.
    ghost predicate Chained()
      reads this, blocks, set i | 0 <= i < |blocks| :: blocks[i].data
    {
      Ends() && Linked(blocks) && Filled(blocks, model) && Distinct(blocks)
    }

    // Unlinks the first block.
    method DropHead()
      requires Chained() && |blocks| > 1
      modifies this
      ensures Chained() && blocks == old(blocks[1..]) && model == old(model[1..])
    {
      assert LinkOk(blocks, 0);
      ghost var was, m := blocks, model;
      head := head.next;
      sizeInBlocks := sizeInBlocks - 1;
      blocks := blocks[1..];
      model := model[1..];
      forall i: nat | i < |blocks| ensures HoldsAt(blocks, model, i) && LinkOk(blocks, i) {
        assert old(HoldsAt(blocks, model, i + 1) && LinkOk(blocks, i + 1));
        assert blocks[i].data[..blocks[i].size] == old(blocks[i + 1].data[..blocks[i + 1].size]);
      }
    }

    method PopAt(b: Block, ghost k: nat) returns (r: Item)
      requires Chained() && k < |blocks| && b == blocks[k] && model[k] != []
      modifies this`model, b`size
      ensures Chained() && model == old(model)[k := Front(old(model)[k])] && r == old(Last(model[k]))
    {
      assert HoldsAt(blocks, model, k);
      r := b.Pop(model[k]);
      model := model[k := Front(model[k])];
      forall i: nat | i < |blocks| ensures HoldsAt(blocks, model, i) {
        assert old(HoldsAt(blocks, model, i));
        if i < k { assert Differ(blocks[i], blocks[k]); } else if i > k { assert Differ(blocks[k], blocks[i]); }
      }
    }

    method ReplaceAt(b: Block, ghost k: nat, ix: nat, obj: Item)
      requires Chained() && k < |blocks| && b == blocks[k] && ix < |model[k]|
      modifies this`model, b.data
      ensures Chained() && model == old(model)[k := old(model)[k][ix := obj]]
    {
      assert HoldsAt(blocks, model, k);
      b.Replace(ix, obj, model[k]);
      model := model[k := model[k][ix := obj]];
      forall i: nat | i < |blocks| ensures HoldsAt(blocks, model, i) {
        assert old(HoldsAt(blocks, model, i));
        if i < k { assert Differ(blocks[i], blocks[k]); } else if i > k { assert Differ(blocks[k], blocks[i]); }
      }
    }

    method EraseAtHead(ix: nat)
      requires Chained() && ix < |model[0]|
      modifies this`model, head`size, head.data
      ensures Chained() && model == old(model)[0 := Erased(old(model)[0], ix)]
    {
      assert HoldsAt(blocks, model, 0);
      head.Erase(ix, model[0]);
      model := model[0 := Erased(model[0], ix)];
      forall i: nat | i < |blocks| ensures HoldsAt(blocks, model, i) {
        assert old(HoldsAt(blocks, model, i));
        if i > 0 { assert Differ(blocks[0], blocks[i]); }
      }
    }

    method Remove() returns (r: Item)
      requires Valid() && !IsEmpty(model)
      modifies this, blocks`size
      ensures Valid() && Trimmed(old(model))[0] != []
      ensures model == Removed(old(model)) && r == Last(Trimmed(old(model))[0])
      ensures blocks == if old(model[0]) == [] then old(blocks[1..]) else old(blocks)
    {
      assert HoldsAt(blocks, model, 0) && LinkOk(blocks, 0);
      TrimmedShape(model);
      if head.size == 0 {
        r := PopAt(head.next, 1);
        DropHead();
      } else {
        r := PopAt(head, 0);
      }
      RemovedKeeps(old(model), r);
    }

    // Erases item `ix` of `curr`, the `b`-th block.
    method Erase(curr: Block, ghost b: nat, ix: nat) returns (r: bool)
      requires Valid() && b < |blocks| && curr == blocks[b] && ix < |model[b]|
      modifies this, blocks, Arrays(blocks)
      ensures Valid() && Trimmed(old(model))[0] != [] && model == ErasedAt(old(model), b, ix)
      ensures blocks == if old(model[0]) == [] then old(blocks[1..]) else old(blocks)
      ensures r <==> curr != head
    {
      ghost var x := model[b][ix];
      ghost var c := b;
      assert HoldsAt(blocks, model, 0) && LinkOk(blocks, 0);
      TrimmedShape(model);
      if head.size == 0 {
        DropHead();
        c := b - 1;
      }
      if c > 0 { assert Differ(blocks[0], blocks[c]); }
      if curr == head {
        EraseAtHead(ix);
        r := false;
      } else {
        var obj := PopAt(head, 0);
        ReplaceAt(curr, c, ix, obj);
        r := true;
      }
      ErasedKeeps(old(model), b, ix, x);
    }

    method ComputeSizeInBlocks() returns (r: nat)
      requires Linked(blocks) && |blocks| > 0 && head == blocks[0]
      ensures r == |blocks|
    {
      r := 0;
      var curr: Block? := head;
      while curr != null
        invariant r <= |blocks| && curr == if r < |blocks| then blocks[r] else null
        decreases |blocks| - r
      {
        assert LinkOk(blocks, r);
        r := r + 1;
        curr := curr.next;
      }
    }

    // The second block, if it is not also the last one.
    method RemoveFullBlock() returns (r: Block?)
      requires Valid()
      modifies this, blocks`next
      ensures Valid() && (r == null <==> old(|blocks|) < 3)
      ensures r == null ==> model == old(model) && blocks == old(blocks)
      ensures r != null ==> r == old(blocks[1]) && r.next == null && r.Holds(old(model)[1]) && r !in blocks
      ensures r != null ==> model == old(model[..1] + model[2..]) && blocks == old(blocks[..1] + blocks[2..])
    {
      assert LinkOk(blocks, 0) && HoldsAt(blocks, model, 0);
      var second := head.next;
      if second != null {
        assert LinkOk(blocks, 1) && HoldsAt(blocks, model, 1) && Differ(blocks[0], blocks[1]);
        if second.next != null {
          head.next := second.next;
          second.next := null;
          sizeInBlocks := sizeInBlocks - 1;
          blocks := blocks[..1] + blocks[2..];
          model := model[..1] + model[2..];
          forall i: nat | i < |blocks| ensures HoldsAt(blocks, model, i) && LinkOk(blocks, i) {
            var j := if i == 0 then 0 else i + 1;
            assert old(HoldsAt(blocks, model, j) && LinkOk(blocks, j));
            assert blocks[i].data[..blocks[i].size] == old(blocks[j].data[..blocks[j].size]);
          }
          return second;
        }
      }
      return null;
    }

    // Appends blocks that are linked up already.
    method Append(first: Block, last: Block, ghost bs: seq<Block>, ghost ms: seq<seq<Item>>)
      requires Chained() && bs != [] && first == bs[0] && last == bs[|bs| - 1]
      requires Linked(bs) && Filled(bs, ms) && Distinct(blocks + bs)
      modifies this, tail`next
      ensures Linked(blocks) && Filled(blocks, model) && Distinct(blocks)
      ensures head == old(head) && tail == last && sizeInBlocks == old(sizeInBlocks)
      ensures blocks == old(blocks) + bs && model == old(model) + ms && head == blocks[0]
    {
      ghost var n := |blocks|;
      tail.next := first;
      tail := last;
      blocks := blocks + bs;
      model := model + ms;
      forall i: nat | i < |blocks| ensures HoldsAt(blocks, model, i) && LinkOk(blocks, i) {
        if i < n {
          assert old(HoldsAt(blocks, model, i) && LinkOk(blocks, i));
          assert i < n - 1 ==> Differ(blocks[i], blocks[n - 1]);
          assert blocks[i].data[..blocks[i].size] == old(blocks[i].data[..blocks[i].size]);
        } else {
          assert old(HoldsAt(bs, ms, i - n) && LinkOk(bs, i - n));
          assert Differ(blocks[n - 1], blocks[i]);
          assert blocks[i].data[..blocks[i].size] == old(bs[i - n].data[..bs[i - n].size]);
        }
      }
    }

    method AddFullBlock(b: Block, ghost items: seq<Item>)
      requires Valid() && b.Holds(items) && |items| == BLOCK_SIZE && b.next == null && Distinct(blocks + [b])
      modifies this, tail`next
      ensures Valid() && model == old(model) + [items] && blocks == old(blocks) + [b]
    {
      assert LinkOk([b], 0) && HoldsAt([b], [items], 0);
      Append(b, b, [b], [items]);
      sizeInBlocks := sizeInBlocks + 1;
    }

    // Moves the blocks after `predecessor`, the `p`-th block of the other bag, to the end of this bag.
    method AppendMoveFullBlocks(other: BlockBag, predecessor: Block, ghost p: nat)
      requires Valid() && other.Valid() && this != other && Distinct(blocks + other.blocks)
      requires p < |other.blocks| && predecessor == other.blocks[p]
      modifies this, other, tail`next, predecessor`next
      ensures Valid() && other.Valid()
      ensures model == old(model) + old(other.model)[p + 1..] && other.model == old(other.model)[..p + 1]
      ensures blocks == old(blocks) + old(other.blocks)[p + 1..] && other.blocks == old(other.blocks)[..p + 1]
    {
      assert LinkOk(other.blocks, p);
      ApartFrom(blocks, other.blocks);
      if predecessor.next != null {
        Suffix(other.blocks, other.model, p + 1);
        DistinctPart(blocks, other.blocks, p + 1);
        Append(predecessor.next, other.tail, other.blocks[p + 1..], other.model[p + 1..]);
        forall i: nat | i < |other.blocks| ensures HoldsAt(other.blocks, other.model, i) {
          assert old(HoldsAt(other.blocks, other.model, i));
          assert other.blocks[i].data[..other.blocks[i].size] == old(other.blocks[i].data[..other.blocks[i].size]);
        }
        FinishMove(other, predecessor, p);
      } else {
        assert other.blocks[..p + 1] == other.blocks && other.model[..p + 1] == other.model;
        assert blocks + other.blocks[p + 1..] == blocks && model + other.model[p + 1..] == model;
      }
    }

    // Makes `predecessor` the last block.
    method CutAfter(predecessor: Block, ghost p: nat)
      requires Chained() && Shaped(model) && p < |blocks| && predecessor == blocks[p]
      modifies this, predecessor`next
      ensures Valid() && model == old(model)[..p + 1] && blocks == old(blocks)[..p + 1]
    {
      predecessor.next := null;
      tail := predecessor;
      blocks := blocks[..p + 1];
      model := model[..p + 1];
      forall i: nat | i < |blocks| ensures LinkOk(blocks, i) {
        assert old(LinkOk(blocks, i));
        assert i < p ==> Differ(blocks[i], blocks[p]);
      }
      sizeInBlocks := ComputeSizeInBlocks();
      forall i: nat | i < |blocks| ensures LinkOk(blocks, i) && HoldsAt(blocks, model, i) {
        assert old(LinkOk(blocks, i) && HoldsAt(blocks, model, i));
        assert i < p ==> Differ(blocks[i], blocks[p]);
        assert blocks[i].data[..blocks[i].size] == old(blocks[i].data[..blocks[i].size]);
      }
    }

    method FinishMove(other: BlockBag, predecessor: Block, ghost p: nat)
      requires Linked(blocks) && Filled(blocks, model) && Distinct(blocks) && Shaped(model)
      requires |blocks| > 0 && head == blocks[0] && tail == blocks[|blocks| - 1]
      requires other.Chained() && this != other && Shaped(other.model)
      requires p < |other.blocks| && predecessor == other.blocks[p] && predecessor !in blocks
      modifies this`sizeInBlocks, other, predecessor`next
      ensures Valid() && other.Valid() && other.model == old(other.model)[..p + 1]
          && other.blocks == old(other.blocks)[..p + 1]
    {
      sizeInBlocks := ComputeSizeInBlocks();
      forall i: nat | i < |other.blocks| ensures HoldsAt(other.blocks, other.model, i) {
        assert old(HoldsAt(other.blocks, other.model, i));
        assert other.blocks[i].data[..other.blocks[i].size] == old(other.blocks[i].data[..other.blocks[i].size]);
      }
      other.CutAfter(predecessor, p);
      forall i: nat | i < |blocks| ensures LinkOk(blocks, i) && HoldsAt(blocks, model, i) {
        assert old(LinkOk(blocks, i) && HoldsAt(blocks, model, i));
        assert blocks[i].data[..blocks[i].size] == old(blocks[i].data[..blocks[i].size]);
      }
    }

    // Moves the last item of the other bag's only block to this bag.
    method MoveOne(other: BlockBag)
      requires Valid() && other.Valid() && this != other && Distinct(blocks + other.blocks)
      requires |other.blocks| == 1 && other.model[0] != []
      modifies this, other, head`size, head.data, other.head`size
      ensures Valid() && other.Valid() && Distinct(blocks + other.blocks)
      ensures other.blocks == old(other.blocks) && other.model == [Front(old(other.model)[0])]
      ensures model == Added(old(model), Last(old(other.model)[0]))
      ensures head == old(head) || (fresh(head) && fresh(head.data))
    {
      ApartFrom(blocks, other.blocks);
      var x := other.Remove();
      forall i: nat | i < |blocks| ensures LinkOk(blocks, i) && HoldsAt(blocks, model, i) {
        assert old(LinkOk(blocks, i) && HoldsAt(blocks, model, i));
        assert Differ(blocks[i], other.blocks[0]);
        assert blocks[i].data[..blocks[i].size] == old(blocks[i].data[..blocks[i].size]);
      }
      AddApart(other, x);
    }

    // Adding to this bag does not touch a bag with other blocks.
    method AddApart(other: BlockBag, x: Item)
      requires Valid() && other.Valid() && this != other && Distinct(blocks + other.blocks)
      modifies this, head`size, head.data
      ensures Valid() && other.Valid() && Distinct(blocks + other.blocks) && model == Added(old(model), x)
      ensures head == old(head) || (fresh(head) && fresh(head.data))
    {
      ApartFrom(blocks, other.blocks);
      Add(x);
      forall i: nat | i < |other.blocks| ensures LinkOk(other.blocks, i) && HoldsAt(other.blocks, other.model, i) {
        assert old(LinkOk(other.blocks, i) && HoldsAt(other.blocks, other.model, i));
        assert Differ(old(blocks)[0], other.blocks[i]);
        assert other.blocks[i].data[..other.blocks[i].size] == old(other.blocks[i].data[..other.blocks[i].size]);
      }
      forall i: nat | i < |other.blocks| && blocks != old(blocks) ensures Differ(blocks[0], other.blocks[i]) {
        assert old(HoldsAt(other.blocks, other.model, i) && other.blocks[i].data.Length == BLOCK_SIZE);
      }
      StillApart(old(blocks), blocks, other.blocks);
    }

    // Moves everything; the other bag is left with its first block, emptied.
    method AppendMoveAll(other: BlockBag)
      requires Valid() && other.Valid() && this != other && Distinct(blocks + other.blocks)
      modifies this, other, blocks, Arrays(blocks), other.blocks
      ensures Valid() && other.Valid() && IsEmpty(other.model)
      ensures forall x :: Occurs(model, x) == Occurs(old(model), x) + Occurs(old(other.model), x)
    {
      ghost var m, o := model, other.model;
      AppendMoveFullBlocks(other, other.head, 0);
      DistinctSwap(old(blocks), old(other.blocks), 1);
      forall x ensures Moved(m, o, model, other.model, x) { MovedBlocks(m, o, x); }
      MoveRest(other, m, o);
      forall x ensures Occurs(model, x) == Occurs(m, x) + Occurs(o, x) {
        assert Moved(m, o, model, other.model, x);
        assert other.model == [[]] && Occurs([[]], x) == 0;
      }
    }

    method MoveRest(other: BlockBag, ghost m: seq<seq<Item>>, ghost o: seq<seq<Item>>)
      requires Valid() && other.Valid() && this != other && Distinct(blocks + other.blocks) && |other.blocks| == 1
      requires forall x :: Moved(m, o, model, other.model, x)
      modifies this, other, head`size, head.data, other.head`size
      ensures Valid() && other.Valid() && IsEmpty(other.model)
      ensures forall x :: Moved(m, o, model, other.model, x)
    {
      while !other.IsEmptyBag()
        invariant Valid() && other.Valid() && Distinct(blocks + other.blocks)
        invariant |other.blocks| == 1 && other.head == old(other.head)
        invariant head == old(head) || (fresh(head) && fresh(head.data))
        invariant forall x :: Moved(m, o, model, other.model, x)
        decreases |other.model[0]|
      {
        ghost var m1, o1 := model, other.model;
        MoveOne(other);
        forall x ensures Moved(m, o, model, other.model, x) {
          assert Moved(m, o, m1, o1, x);
          MovedOne(m1, o1, x);
        }
      }
    }
  }

  lemma ApartFrom(a: seq<Block>, b: seq<Block>)
    requires Distinct(a + b)
    ensures forall i, j :: 0 <= i < |a| && 0 <= j < |b| ==> Differ(a[i], b[j])
  {
    forall i, j | 0 <= i < |a| && 0 <= j < |b| ensures Differ(a[i], b[j]) {
      assert Differ((a + b)[i], (a + b)[|a| + j]);
    }
  }

  // Nothing is lost between two bags.
  ghost predicate Moved(m: seq<seq<Item>>, o: seq<seq<Item>>, m': seq<seq<Item>>, o': seq<seq<Item>>, x: Item) {
    Occurs(m', x) + Occurs(o', x) == Occurs(m, x) + Occurs(o, x)
  }

  lemma MovedBlocks(m: seq<seq<Item>>, o: seq<seq<Item>>, x: Item)
    requires o != []
    ensures Moved(m, o, m + o[1..], o[..1], x)
  {
    OccursPlus(m, o[1..], x);
    OccursPlus(o[..1], o[1..], x);
    assert o == o[..1] + o[1..];
  }

  lemma MovedOne(m: seq<seq<Item>>, o: seq<seq<Item>>, x: Item)
    requires Shaped(m) && |o| == 1 && o[0] != []
    ensures Moved(m, o, Added(m, Last(o[0])), [Front(o[0])], x)
  {
    AddedKeeps(m, Last(o[0]), x);
    FrontLast(o[0], x);
  }

  // Taking the blocks after the `k`-th first from one bag to the other keeps all blocks different.
  lemma DistinctSwap(a: seq<Block>, b: seq<Block>, k: nat)
    requires Distinct(a + b) && k <= |b|
    ensures Distinct((a + b[k..]) + b[..k])
  {
    var c := (a + b[k..]) + b[..k];
    ApartFrom(a, b);
    forall i, j | 0 <= i < j < |c| ensures Differ(c[i], c[j]) {
      var f := (x: int) => if x < |a| then x else if x < |a| + |b| - k then x + k else x - (|b| - k);
      assert c[i] == (a + b)[f(i)] && c[j] == (a + b)[f(j)];
      assert f(i) < f(j) || f(j) < f(i);
    }
  }

  // A bag that got at most one new block in front.
  lemma StillApart(a: seq<Block>, a': seq<Block>, b: seq<Block>)
    requires Distinct(a + b) && Distinct(a') && (a' == a || (|a'| > 0 && a'[1..] == a))
    requires a' != a ==> forall j :: 0 <= j < |b| ==> Differ(a'[0], b[j])
    ensures Distinct(a' + b)
  {
    ApartFrom(a, b);
    forall i, j | 0 <= i < j < |a' + b| ensures Differ((a' + b)[i], (a' + b)[j]) {
      if i < |a'| <= j && a' != a && i > 0 { assert a'[i] == a[i - 1]; }
      if i >= |a'| { assert Differ((a + b)[i - |a'| + |a|], (a + b)[j - |a'| + |a|]); }
    }
  }

  lemma DistinctPart(a: seq<Block>, b: seq<Block>, k: nat)
    requires Distinct(a + b) && k <= |b|
    ensures Distinct(a + b[k..])
  {
    var c := a + b[k..];
    forall i, j | 0 <= i < j < |c| ensures Differ(c[i], c[j]) {
      var f := (x: int) => if x < |a| then x else x + k;
      assert c[i] == (a + b)[f(i)] && c[j] == (a + b)[f(j)];
    }
  }

  lemma Suffix(blocks: seq<Block>, m: seq<seq<Item>>, k: nat)
    requires Linked(blocks) && Filled(blocks, m) && k <= |blocks|
    ensures Linked(blocks[k..]) && Filled(blocks[k..], m[k..])
  {
    forall i: nat | i < |blocks| - k ensures LinkOk(blocks[k..], i) && HoldsAt(blocks[k..], m[k..], i) {
      assert LinkOk(blocks, k + i) && HoldsAt(blocks, m, k + i);
    }
  }
}