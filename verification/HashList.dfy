/**
 The simplified HashList: a linked list of nodes indexed by a hash table that doubles when half full
 and is cleared either through the list or slot by slot; cleared nodes are kept for reuse.
 */
module HashLists {
  import opened Probing
  import opened ProbedKeys

  class HLNode<T(==)> {
    var next: HLNode?<T>
    var element: T
    var hashTableIndex: int

    constructor (next: HLNode?<T>, element: T)
      ensures this.next == next && this.element == element
    {
      this.next := next;
      this.element := element;
      hashTableIndex := -1;
    }
  }

  // The nodes from `head` on.
  ghost predicate IsList<T>(head: HLNode?<T>, list: seq<HLNode<T>>)
    reads list`next
  {
    && head == (if list == [] then null else list[0])
    && (forall i: nat {:trigger NextOk(list, i)} :: i < |list| ==> NextOk(list, i))
  }

  function Following<T>(list: seq<HLNode<T>>, i: nat): HLNode?<T> { if i + 1 < |list| then list[i + 1] else null }

  ghost predicate NextOk<T>(list: seq<HLNode<T>>, i: nat)
    requires i < |list|
    reads list`next
  {
    list[i].next == Following(list, i)
  }

  lemma ListNext<T>(head: HLNode?<T>, list: seq<HLNode<T>>, k: nat)
    requires IsList(head, list) && k < |list|
    ensures list[k].next == if k + 1 < |list| then list[k + 1] else null
  {
    assert NextOk(list, k);
  }

  ghost predicate Distinct<T>(list: seq<HLNode<T>>) {
    forall i, j :: 0 <= i < j < |list| ==> list[i] != list[j]
  }

  ghost predicate Apart<T>(a: seq<HLNode<T>>, b: seq<HLNode<T>>) {
    forall i, j :: 0 <= i < |a| && 0 <= j < |b| ==> a[i] != b[j]
  }

  lemma RestOfList<T>(head: HLNode?<T>, list: seq<HLNode<T>>)
    requires IsList(head, list) && list != [] && Distinct(list)
    ensures head != null && IsList(head.next, list[1..]) && Distinct(list[1..]) && head !in list[1..]
  {
    var rest := list[1..];
    ListNext(head, list, 0);
    forall i: nat | i < |rest| ensures NextOk(rest, i) { ListNext(head, list, i + 1); }
  }

  lemma NodeSetPlus<T>(a: seq<HLNode<T>>, b: seq<HLNode<T>>)
    ensures NodeSet(a + b) == NodeSet(a) + NodeSet(b)
  {
    forall n | n in NodeSet(a) + NodeSet(b) ensures n in NodeSet(a + b) {
      if n in NodeSet(a) {
        var i :| 0 <= i < |a| && a[i] == n;
        assert (a + b)[i] == n;
      } else {
        var i :| 0 <= i < |b| && b[i] == n;
        assert (a + b)[|a| + i] == n;
      }
    }
  }

  // A node in front of a list.
  lemma Prepend<T>(node: HLNode<T>, head: HLNode?<T>, list: seq<HLNode<T>>)
    requires IsList(head, list) && node.next == head && Distinct(list) && node !in list
    ensures IsList(node, [node] + list) && Distinct([node] + list) && NodeSet([node] + list) == NodeSet(list) + {node}
  {
    var l := [node] + list;
    forall i: nat | i < |l| ensures NextOk(l, i) {
      if i > 0 { ListNext(head, list, i - 1); }
    }
    NodeSetPlus([node], list);
    assert [node][0] == node;
    assert NodeSet([node]) == {node};
  }

  ghost predicate Linked<T>(a: seq<HLNode<T>>)
    reads a`next
  {
    forall i :: 0 <= i < |a| - 1 ==> a[i].next == a[i + 1]
  }

  lemma ListLinked<T>(head: HLNode?<T>, list: seq<HLNode<T>>)
    requires IsList(head, list)
    ensures Linked(list)
  {
    forall i: nat | i < |list| - 1 ensures list[i].next == list[i + 1] { assert NextOk(list, i); }
  }

  // Two lists, the first one's last node pointing to the second.
  lemma Append<T>(head: HLNode?<T>, a: seq<HLNode<T>>, free: HLNode?<T>, b: seq<HLNode<T>>)
    requires a != [] && head == a[0] && Linked(a) && a[|a| - 1].next == free && IsList(free, b)
    requires Distinct(a) && Distinct(b) && Apart(a, b)
    ensures IsList(head, a + b) && Distinct(a + b)
  {
    var l := a + b;
    forall i: nat | i < |l| ensures NextOk(l, i) {
      if i >= |a| { assert NextOk(b, i - |a|); }
    }
  }

  ghost predicate DistinctValues<T>(list: seq<HLNode<T>>)
    reads list
  {
    forall i, j :: 0 <= i < j < |list| ==> list[i].element != list[j].element
  }

  lemma NodeSetNext<T>(list: seq<HLNode<T>>, k: nat)
    requires k < |list|
    ensures NodeSet(list[..k + 1]) == NodeSet(list[..k]) + {list[k]}
  {
    assert list[..k + 1] == list[..k] + [list[k]];
  }

  ghost function NodeSet<T>(list: seq<HLNode<T>>): set<HLNode<T>> { set i | 0 <= i < |list| :: list[i] }

  lemma {:induction false} NodeSetSize<T>(list: seq<HLNode<T>>)
    ensures |NodeSet(list)| <= |list|
    ensures Distinct(list) ==> |NodeSet(list)| == |list|
  {
    if list != [] {
      var rest := list[..|list| - 1];
      NodeSetSize(rest);
      assert NodeSet(list) == NodeSet(rest) + {list[|list| - 1]};
    }
  }

  lemma {:induction false} EqualSize<A>(a: set<A>, b: set<A>)
    requires a <= b && |a| == |b|
    ensures a == b
  {
    if x :| x in b && x !in a {
      SubsetSize(a, b - {x});
    }
  }

  lemma SameSet<T>(nodes: set<HLNode<T>>, list: seq<HLNode<T>>)
    requires nodes <= NodeSet(list) && |nodes| == |list|
    ensures nodes == NodeSet(list)
  {
    NodeSetSize(list);
    SubsetSize(nodes, NodeSet(list));
    EqualSize(nodes, NodeSet(list));
  }

  lemma PowerEven(c: nat)
    requires IsPow2(c) && c >= 2
    ensures c % 2 == 0
  {
    var m: nat :| c == Pow2(m);
  }

  class HashTable<T(==)> {
    var data: array<HLNode?<T>>
    var size: nat
    var capacity: nat
    const hash: T -> nat
    ghost var keys: seq<Option<T>>
    ghost var nodes: set<HLNode<T>>

    // What every table satisfies between operations.
    ghost predicate Valid()
      reads this, data, nodes
    {
      capacity >= 2 && size * 2 <= capacity && Stored()
    }

    // The same for tables of any capacity and load.
    ghost predicate Stored()
      reads this, data, nodes
    {
      && capacity == data.Length == |keys| && IsPow2(capacity)
      && TableInv(Squares, keys, hash) && size == |Occupied(keys)| == |nodes|
      && (forall i: nat {:trigger SlotOk(i)} :: i < capacity ==> SlotOk(i))
      && (forall n {:trigger NodeOk(n)} :: n in nodes ==> NodeOk(n))
    }

    ghost predicate SlotOk(i: nat)
      requires i < data.Length == |keys|
      reads this, data, nodes
    {
      if data[i] == null then keys[i] == None
      else data[i] in nodes && keys[i] == Some(data[i].element) && data[i].hashTableIndex == i
    }

    ghost predicate NodeOk(n: HLNode<T>)
      reads this, data, n
    {
      0 <= n.hashTableIndex < data.Length && data[n.hashTableIndex] == n
    }

    constructor (hash: T -> nat, initialCapacityPow2: nat)
      requires IsPow2(initialCapacityPow2) && initialCapacityPow2 >= 2
      ensures Valid() && fresh(data) && Elements(keys) == {} && nodes == {} && this.hash == hash
    {
      this.hash := hash;
      size := 0;
      capacity := initialCapacityPow2;
      data := new HLNode?<T>[initialCapacityPow2](_ => null);
      keys := seq(initialCapacityPow2, _ => None);
      nodes := {};
      new;
      assert Occupied(keys) == {};
    }

    // The search ends because some slot is empty or the element is there.
    method FindIx(element: T) returns (ix: nat, ghost k: nat)
      requires Stored() && (size < capacity || element in Elements(keys))
      ensures ix < capacity && ix == Slot(Squares, hash(element), k, capacity)
          && Stops(Squares, keys, element, hash(element), k)
      ensures k < 2 * capacity
      ensures data[ix] == null <==> element !in Elements(keys)
      ensures data[ix] != null ==> data[ix].element == element
    {
      ghost var h := hash(element);
      if size < capacity { EmptySlot(keys); }
      ghost var free :| 0 <= free < |keys| && (keys[free] == None || keys[free] == Some(element));
      ix := hash(element) % capacity;
      var i := 0;
      while data[ix] != null
        invariant ix < capacity && ix == Slot(Squares, h, i, capacity) && Passed(Squares, keys, element, h, i)
        decreases 2 * capacity - i
      {
        assert SlotOk(ix);
        PassedBound(Squares, keys, element, h, i, free);
        NextSlot(Squares, h, i, capacity);
        i := i + 1;
        if data[ix].element == element {
          StopIsExact(Squares, keys, hash, element, i - 1);
          return ix, i - 1;
        }
        ix := (ix + i * i) % capacity;
      }
      assert SlotOk(ix);
      PassedBound(Squares, keys, element, h, i, free);
      StopIsExact(Squares, keys, hash, element, i);
      k := i;
    }

    method Find(element: T) returns (r: HLNode?<T>)
      requires Valid()
      ensures r == null <==> element !in Elements(keys)
      ensures r != null ==> r in nodes && r.element == element
    {
      var ix, _ := FindIx(element);
      r := data[ix];
      assert SlotOk(ix);
    }

    // The list holds the table's nodes, and others only while the table is being refilled.
    ghost predicate Indexes(list: seq<HLNode<T>>)
      reads this
    {
      Distinct(list) && nodes <= NodeSet(list) && (size * 2 < capacity || |list| == size)
    }

    // Nodes have different elements.
    lemma DistinctElements(a: HLNode<T>, b: HLNode<T>)
      requires Valid() && a in nodes && b in nodes && a.element == b.element
      ensures a == b
    {
      assert NodeOk(a) && NodeOk(b) && SlotOk(a.hashTableIndex) && SlotOk(b.hashTableIndex);
      OneSlot(Squares, keys, hash, a.hashTableIndex, b.hashTableIndex);
    }

    lemma ElementsOfNodes()
      requires Valid()
      ensures Elements(keys) == set n | n in nodes :: n.element
    {
      forall e | e in Elements(keys) ensures exists n :: n in nodes && n.element == e {
        var i :| 0 <= i < |keys| && keys[i] == Some(e);
        assert SlotOk(i) && data[i] in nodes && data[i].element == e;
      }
      forall n | n in nodes ensures n.element in Elements(keys) {
        assert NodeOk(n) && SlotOk(n.hashTableIndex);
        assert keys[n.hashTableIndex] == Some(n.element);
      }
    }

    // An empty table of twice the capacity.
    method Replace()
      requires Valid()
      modifies this
      ensures Valid() && fresh(data) && size == 0 && nodes == {} && Elements(keys) == {}
          && capacity == 2 * old(capacity)
    {
      ghost var m: nat :| capacity == Pow2(m);
      assert 2 * capacity == Pow2(m + 1);
      capacity := capacity * 2;
      data := new HLNode?<T>[capacity](_ => null);
      size := 0;
      keys := seq(capacity, _ => None);
      nodes := {};
      assert Occupied(keys) == {};
    }

    // Puts a node into the empty slot where the search for its element stopped.
    method Put(node: HLNode<T>, ix: nat, ghost k: nat)
      requires Valid() && size * 2 < capacity && node !in nodes
      requires ix < capacity && ix == Slot(Squares, hash(node.element), k, capacity)
          && Stops(Squares, keys, node.element, hash(node.element), k)
      requires data[ix] == null
      modifies this, data, node`hashTableIndex
      ensures Valid() && data == old(data) && capacity == old(capacity) && size == old(size) + 1
      ensures nodes == old(nodes) + {node} && Elements(keys) == old(Elements(keys)) + {node.element}
    {
      assert SlotOk(ix);
      PutKeeps(Squares, keys, hash, node.element, k);
      PowerEven(capacity);
      ghost var keys' := keys[ix := Some(node.element)];
      assert TableInv(Squares, keys', hash) && |Occupied(keys')| == size + 1
          && Elements(keys') == Elements(keys) + {node.element};
      data[ix] := node;
      node.hashTableIndex := ix;
      size := size + 1;
      keys := keys';
      nodes := nodes + {node};
      forall i: nat | i < capacity ensures SlotOk(i) { assert old(SlotOk(i)); }
      forall n | n in nodes ensures NodeOk(n) {
        if n != node { assert old(NodeOk(n)) && old(SlotOk(n.hashTableIndex)); }
      }
    }

    lemma SlotsOfNodes(list: seq<HLNode<T>>)
      requires Valid() && nodes == NodeSet(list) && Distinct(list)
      ensures DistinctValues(list)
    {
      forall i, j | 0 <= i < j < |list| ensures list[i].element != list[j].element {
        if list[i].element == list[j].element { DistinctElements(list[i], list[j]); }
      }
    }

    lemma NextIsNew(list: seq<HLNode<T>>, k: nat)
      requires Valid() && k < |list| && nodes == NodeSet(list[..k]) && Distinct(list) && DistinctValues(list)
      ensures list[k] !in nodes && list[k].element !in Elements(keys)
    {
      ElementsOfNodes();
    }

    // The first `k` nodes of the list are in the table, which has room for the others.
    ghost predicate Filled(head: HLNode?<T>, list: seq<HLNode<T>>, k: nat)
      reads this, data, nodes, list
    {
      && Valid() && IsList(head, list) && Distinct(list) && DistinctValues(list) && |list| * 2 < capacity
      && k <= |list| && size == k && nodes == NodeSet(list[..k])
    }

    method RefillOne(head: HLNode?<T>, ghost list: seq<HLNode<T>>, curr: HLNode<T>, ghost k: nat)
      requires Filled(head, list, k) && k < |list| && curr == list[k]
      modifies this, data, list`hashTableIndex
      decreases 0, 2
      ensures Filled(head, list, k + 1) && (data == old(data) || fresh(data)) && capacity == old(capacity)
    {
      NextIsNew(list, k);
      InsertNode(curr, head, list);
      NodeSetNext(list, k);
    }

    // Inserts the nodes of the list into an empty table that has room for them.
    method Refill(head: HLNode?<T>, ghost list: seq<HLNode<T>>)
      requires Filled(head, list, 0)
      modifies this, data, list`hashTableIndex
      decreases 0, 3
      ensures Filled(head, list, |list|) && (data == old(data) || fresh(data)) && capacity == old(capacity)
    {
      var curr := head;
      ghost var k := 0;
      while curr != null
        invariant Filled(head, list, k) && curr == if k < |list| then list[k] else null
        invariant (data == old(data) || fresh(data)) && capacity == old(capacity)
        decreases |list| - k
      {
        RefillOne(head, list, curr, k);
        ListNext(head, list, k);
        curr := curr.next;
        k := k + 1;
      }
    }

    // Doubles the table when it is half full, inserting the list's nodes again.
    method TryExpand(head: HLNode?<T>, ghost list: seq<HLNode<T>>)
      requires Valid() && IsList(head, list) && Indexes(list)
      modifies this, data, list`hashTableIndex
      decreases if size * 2 < capacity then 0 else 1, 0
      ensures Valid() && (data == old(data) || fresh(data)) && nodes == old(nodes)
      ensures Elements(keys) == old(Elements(keys)) && size == old(size)
      ensures capacity == (if old(size * 2 < capacity) then old(capacity) else 2 * old(capacity)) && size * 2 < capacity
    {
      if size * 2 < capacity { return; }
      SameSet(nodes, list);
      ElementsOfNodes();
      SlotsOfNodes(list);
      Replace();
      Refill(head, list);
      ElementsOfNodes();
    }

    method InsertNode(node: HLNode<T>, head: HLNode?<T>, ghost list: seq<HLNode<T>>)
      requires Valid() && IsList(head, list) && Indexes(list)
      requires node !in nodes && node.element !in Elements(keys)
      modifies this, data, node`hashTableIndex, list`hashTableIndex
      decreases if size * 2 < capacity then 0 else 1, 1
      ensures Valid() && (data == old(data) || fresh(data)) && nodes == old(nodes) + {node}
      ensures Elements(keys) == old(Elements(keys)) + {node.element} && size == old(size) + 1
      ensures capacity == if old(size * 2 < capacity) then old(capacity) else 2 * old(capacity)
    {
      TryExpand(head, list);
      var ix, k := FindIx(node.element);
      Put(node, ix, k);
    }

    // Empties the table: through the list when few slots are used, else slot by slot.
    method Clear(head: HLNode?<T>, ghost list: seq<HLNode<T>>)
      requires Valid() && IsList(head, list) && nodes == NodeSet(list)
      modifies this, data
      ensures Valid() && data == old(data) && capacity == old(capacity) && size == 0 && nodes == {}
          && Elements(keys) == {}
    {
      if size * 4 < capacity {
        ClearByList(head, list);
      } else {
        for i := 0 to capacity
          invariant capacity == data.Length && forall j :: 0 <= j < i ==> data[j] == null
          modifies data
        {
          data[i] := null;
        }
      }
      size := 0;
      keys := seq(capacity, _ => None);
      nodes := {};
      assert Occupied(keys) == {};
    }

    method ClearByList(head: HLNode?<T>, ghost list: seq<HLNode<T>>)
      requires Valid() && IsList(head, list) && nodes == NodeSet(list)
      modifies data
      ensures forall j :: 0 <= j < data.Length ==> data[j] == null
    {
      var curr := head;
      ghost var k := 0;
      forall i: nat | i < data.Length && data[i] != null ensures Remains(list, 0, data[i], i) { assert SlotOk(i); }
      while curr != null
        invariant k <= |list| && curr == if k < |list| then list[k] else null
        invariant forall i: nat {:trigger data[i]} :: i < data.Length ==>
            data[i] == null || Remains(list, k, data[i], i)
        decreases |list| - k
        modifies data
      {
        assert old(NodeOk(list[k]));
        data[curr.hashTableIndex] := null;
        forall i: nat | i < data.Length && data[i] != null ensures Remains(list, k + 1, data[i], i) {
          assert Remains(list, k, data[i], i);
        }
        ListNext(head, list, k);
        curr := curr.next;
        k := k + 1;
      }
    }
  }

  // Node `n`, found in slot `i`, is one of the list's nodes from the `k`-th on.
  ghost predicate Remains<T>(list: seq<HLNode<T>>, k: nat, n: HLNode<T>, i: nat)
    reads n
  {
    n.hashTableIndex == i && exists j :: k <= j < |list| && list[j] == n
  }

  class HashList<T(==)> {
    const ht: HashTable<T>
    var head: HLNode?<T>
    var tail: HLNode?<T>
    var freeNodes: HLNode?<T>
    var size: nat
    ghost var nodes: seq<HLNode<T>>
    ghost var free: seq<HLNode<T>>

    ghost predicate Valid()
      reads this, ht, ht.data, ht.nodes, nodes, free
    {
      ht.Valid() && ht.nodes == NodeSet(nodes) && Lists()
    }

    // The list and the kept nodes.
    ghost predicate Lists()
      reads this, nodes`next, free`next
    {
      && size == |nodes| && IsList(head, nodes) && IsList(freeNodes, free)
      && Distinct(nodes) && Distinct(free) && Apart(nodes, free)
      && tail == (if nodes == [] then null else nodes[|nodes| - 1])
    }

    // The set that the list represents.
    ghost function Contents(): set<T>
      reads ht
    {
      Elements(ht.keys)
    }

    constructor (hash: T -> nat, initialCapacityPow2: nat)
      requires IsPow2(initialCapacityPow2) && initialCapacityPow2 >= 2
      ensures Valid() && Contents() == {} && size == 0 && fresh(ht) && fresh(ht.data)
    {
      ht := new HashTable<T>(hash, initialCapacityPow2);
      head := null;
      tail := null;
      freeNodes := null;
      size := 0;
      nodes := [];
      free := [];
    }

    method Contains(element: T) returns (r: bool)
      requires Valid()
      ensures r <==> element in Contents()
    {
      var n := ht.Find(element);
      r := n != null;
    }

    // A node kept from an earlier clear, or a new one.
    method AllocateNode(element: T) returns (node: HLNode<T>)
      requires Valid()
      modifies this`freeNodes, this`free, free
      ensures Valid() && node.next == head && node.element == element && node !in nodes && node !in free
      ensures if old(free) == [] then fresh(node) && free == [] else node == old(free[0]) && free == old(free[1..])
    {
      if freeNodes != null {
        node := freeNodes;
        RestOfList(freeNodes, free);
        assert node !in ht.nodes && node !in nodes && free[0] == node;
        freeNodes := freeNodes.next;
        free := free[1..];
        node.element := element;
        node.next := head;
      } else {
        node := new HLNode<T>(head, element);
      }
    }

    method AddNode(node: HLNode<T>)
      requires Valid() && node.next == head && node.element !in Contents() && node !in nodes && node !in free
      modifies this, ht, ht.data, node`hashTableIndex, nodes`hashTableIndex
      ensures Valid() && Contents() == old(Contents()) + {node.element} && size == old(size) + 1
      ensures nodes == [node] + old(nodes) && free == old(free) && (ht.data == old(ht.data) || fresh(ht.data))
    {
      NodeSetSize(nodes);
      ht.InsertNode(node, head, nodes);
      PushNode(node);
    }

    // Puts a node that the table already has at the front of the list.
    method PushNode(node: HLNode<T>)
      requires Lists() && node.next == head && node !in nodes && node !in free
      modifies this
      ensures Lists() && nodes == [node] + old(nodes) && NodeSet(nodes) == old(NodeSet(nodes)) + {node}
      ensures free == old(free) && size == old(size) + 1
    {
      Prepend(node, head, nodes);
      if head == null { tail := node; }
      head := node;
      nodes := [node] + nodes;
      size := size + 1;
    }

    ghost function AllNodes(): set<HLNode<T>> reads this { NodeSet(nodes) + NodeSet(free) }

    // Inserts an element if it is not in the list yet.  No node is lost.
    method Insert(element: T)
      requires Valid()
      modifies this, ht, ht.data, nodes, free
      ensures Valid() && Contents() == old(Contents()) + {element}
      ensures size == old(size) + (if element in old(Contents()) then 0 else 1)
      ensures old(AllNodes()) <= AllNodes() && (ht.data == old(ht.data) || fresh(ht.data))
    {
      var found := ht.Find(element);
      if found == null {
        var node := AllocateNode(element);
        AddNode(node);
        Popped(old(nodes), old(free), node, free);
      }
    }

    lemma Popped(nodes: seq<HLNode<T>>, free: seq<HLNode<T>>, node: HLNode<T>, free': seq<HLNode<T>>)
      requires if free == [] then free' == [] else node == free[0] && free' == free[1..]
      ensures NodeSet(nodes) + NodeSet(free) <= NodeSet([node] + nodes) + NodeSet(free')
    {
      NodeSetPlus([node], nodes);
      if free != [] {
        assert free == [node] + free';
        NodeSetPlus([node], free');
      }
    }

    // Moves all list nodes in front of the kept ones.
    method Release()
      requires Lists()
      modifies this, nodes`next
      ensures Lists() && nodes == [] && NodeSet(free) == old(AllNodes())
    {
      NodeSetPlus(nodes, free);
      if tail != null {
        ListLinked(head, nodes);
        tail.next := freeNodes;
        assert IsList(freeNodes, free) && Linked(nodes);
        Append(head, nodes, freeNodes, free);
        freeNodes := head;
        free := nodes + free;
      }
      head := null;
      tail := null;
      size := 0;
      nodes := [];
    }

    // Empties the list.  All nodes are kept for reuse.
    method Clear()
      requires Valid()
      modifies this, ht, ht.data, nodes
      ensures Valid() && Contents() == {} && size == 0 && AllNodes() == old(AllNodes())
    {
      ht.Clear(head, nodes);
      Release();
    }
  }
}
