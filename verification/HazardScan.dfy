/**
 The hazard-pointer scan: when a thread's list of retired objects is full, everything that the threads
 have announced is put into a linear-probing table, and the retired objects not found there are freed.
 The announcements are those that the scan collected; the hash is an arbitrary function.
 */
module HazardScan {
  import opened Probing
  import opened ProbedKeys
  import opened Erasing

  const MAX_HAZARDPTRS_PER_THREAD := 16

  lemma NoneOccupied<T>(keys: seq<Option<T>>)
    requires forall i :: 0 <= i < |keys| ==> keys[i] == None
    ensures Occupied(keys) == {} && Elements(keys) == {}
  {}

  class HashsetNew<T(==)> {
    const tableSize: nat
    const keys: array<Option<T>>
    const hash: T -> nat
    var size: int

    ghost predicate Shape()
      reads this
    {
      keys.Length == tableSize && IsPow2(tableSize) && tableSize >= 32
    }

    ghost predicate Valid()
      reads this, keys
    {
      Shape() && TableInv(Linear, keys[..], hash) && size == |Occupied(keys[..])|
    }

    constructor (hash: T -> nat, numberOfElements: nat)
      ensures Valid() && fresh(keys) && tableSize >= 2 * numberOfElements && size == 0 && Elements(keys[..]) == {}
    {
      var t := 32;
      ghost var m := 5;
      while t < numberOfElements * 2
        invariant t >= 32 && t == Pow2(m)
        decreases numberOfElements * 2 - t
      {
        t := t * 2;
        m := m + 1;
      }
      this.hash := hash;
      tableSize := t;
      keys := new Option<T>[t];
      size := -1;
      new;
      Clear();
    }

    // A size of zero means that there is nothing to clear.
    method Clear()
      requires Shape() && (size == 0 ==> Valid())
      modifies this, keys
      ensures Valid() && size == 0 && Elements(keys[..]) == {}
    {
      if size != 0 {
        forall i | 0 <= i < keys.Length { keys[i] := None; }
        size := 0;
      } else {
        assert forall i :: 0 <= i < |keys[..]| ==> keys[..][i] == None by {
          assert forall i: nat :: i < |keys[..]| && keys[..][i].Some? ==> i in Occupied(keys[..]);
        }
      }
      NoneOccupied(keys[..]);
    }

    // The search ends because a slot is empty.
    method GetIndex(key: T) returns (ix: nat, ghost k: nat)
      requires Valid() && size < tableSize
      ensures ix < tableSize && ix == Slot(Linear, hash(key), k, tableSize)
          && Stops(Linear, keys[..], key, hash(key), k)
      ensures keys[ix] == None <==> key !in Elements(keys[..])
      ensures keys[ix] != None ==> keys[ix] == Some(key)
    {
      ghost var h := hash(key);
      ghost var a := keys[..];
      EmptySlot(a);
      ghost var free :| 0 <= free < |a| && a[free] == None;
      ix := hash(key) % tableSize;
      k := 0;
      while keys[ix] != None && keys[ix] != Some(key)
        invariant ix < tableSize && ix == Slot(Linear, h, k, tableSize) && Passed(Linear, a, key, h, k)
        decreases 2 * tableSize - k
      {
        PassedBound(Linear, a, key, h, k, free);
        NextSlot(Linear, h, k, tableSize);
        ix := (ix + 1) % tableSize;
        k := k + 1;
      }
      StopIsExact(Linear, a, hash, key, k);
    }

    method Contains(key: T) returns (r: bool)
      requires Valid() && size < tableSize
      ensures r <==> key in Elements(keys[..])
    {
      var ix, _ := GetIndex(key);
      r := keys[ix] != None;
    }

    method Insert(key: T)
      requires Valid() && size < tableSize
      modifies this, keys
      ensures Valid() && Elements(keys[..]) == old(Elements(keys[..])) + {key}
      ensures size == old(size) + (if key in old(Elements(keys[..])) then 0 else 1)
    {
      var ix, k := GetIndex(key);
      if keys[ix] == None {
        PutKeeps(Linear, keys[..], hash, key, k);
        keys[ix] := Some(key);
        assert keys[..] == old(keys[..])[ix := Some(key)];
        size := size + 1;
      }
    }
  }

  // ---------------------------------------------------------------- retired objects

  class ArrayList<T(0)> {
    const capacity: nat
    const data: array<T>
    var size: nat

    ghost predicate Valid()
      reads this
    {
      size <= capacity == data.Length
    }

    ghost function Contents(): seq<T>
      requires Valid()
      reads this, data
    {
      data[..size]
    }

    constructor (capacity: nat)
      ensures Valid() && fresh(data) && this.capacity == capacity && Contents() == []
    {
      this.capacity := capacity;
      data := new T[capacity];
      size := 0;
    }

    method Add(obj: T)
      requires Valid() && size < capacity
      modifies this, data
      ensures Valid() && Contents() == old(Contents()) + [obj]
    {
      data[size] := obj;
      size := size + 1;
    }

    // The last object takes the place of the erased one.
    method Erase(ix: nat)
      requires Valid() && ix < size
      modifies this, data
      ensures Valid() && Contents() == Erased(old(Contents()), ix)
    {
      size := size - 1;
      data[ix] := data[size];
    }
  }

  // Of all objects, `kept` are left, the first `ix` of them found in the table, and `freed` are not in it.
  ghost predicate Sorted<T>(kept: seq<T>, freed: seq<T>, all: seq<T>, ix: nat, table: set<T>) {
    && ix <= |kept| && multiset(kept) + multiset(freed) == multiset(all)
    && (forall i :: 0 <= i < ix ==> kept[i] in table)
    && (forall i :: 0 <= i < |freed| ==> freed[i] !in table)
  }

  lemma SortedStart<T>(all: seq<T>, table: set<T>)
    ensures Sorted(all, [], all, 0, table)
  {}

  lemma EraseStep<T>(kept: seq<T>, freed: seq<T>, all: seq<T>, ix: nat, table: set<T>)
    requires Sorted(kept, freed, all, ix, table) && ix < |kept| && kept[ix] !in table
    ensures Sorted(Erased(kept, ix), freed + [kept[ix]], all, ix, table)
  {
    ErasedBag(kept, ix);
    assert forall i :: 0 <= i < ix ==> Erased(kept, ix)[i] == Erased(kept, ix)[..ix][i] == kept[..ix][i];
  }

  ghost predicate NoRepeats<T>(s: seq<T>) { forall i, j :: 0 <= i < j < |s| ==> s[i] != s[j] }

  ghost function SetOf<T>(s: seq<T>): set<T> { set i | 0 <= i < |s| :: s[i] }

  // A list without repetitions is no longer than any set that has all its elements.
  lemma {:induction false} NoRepeatsLength<T>(s: seq<T>, a: set<T>)
    requires NoRepeats(s) && forall i :: 0 <= i < |s| ==> s[i] in a
    ensures |s| <= |a|
  {
    if s != [] {
      var n := |s| - 1;
      NoRepeatsLength(s[..n], a - {s[n]});
    }
  }

  // What the threads announce: at most `most` objects each.
  ghost predicate Bounded<T>(announce: seq<seq<T>>, most: nat) {
    forall t :: 0 <= t < |announce| ==> |announce[t]| <= most
  }

  ghost predicate Announced<T>(announce: seq<seq<T>>, x: T) {
    exists t, i :: 0 <= t < |announce| && 0 <= i < |announce[t]| && announce[t][i] == x
  }

  // Everything announced, and nothing else, in the table.
  method HashAnnouncements<T(==)>(table: HashsetNew<T>, announce: seq<seq<T>>, ghost most: nat)
    requires table.Valid() && Bounded(announce, most) && table.tableSize >= 2 * |announce| * most
    modifies table, table.keys
    ensures table.Valid() && table.size <= |announce| * most
    ensures forall x :: x in Elements(table.keys[..]) <==> Announced(announce, x)
  {
    table.Clear();
    for otherTid := 0 to |announce|
      invariant table.Valid() && table.size <= otherTid * most
      invariant forall x :: x in Elements(table.keys[..]) <==> Announced(announce[..otherTid], x)
    {
      HashOne(table, announce, otherTid, most);
    }
    assert announce[..|announce|] == announce;
  }

  lemma RoomLeft(n: nat, t: nat, most: nat, size: nat, i: nat)
    requires t < n && size >= 2 * n * most && i <= most
    ensures t * most + i <= (t + 1) * most <= n * most && (i < most ==> t * most + i < size)
  {
    assert (t + 1) * most <= n * most;
  }

  method HashOne<T(==)>(table: HashsetNew<T>, announce: seq<seq<T>>, t: nat, ghost most: nat)
    requires table.Valid() && t < |announce| && Bounded(announce, most) && table.tableSize >= 2 * |announce| * most
    requires table.size <= t * most
    requires forall x :: x in Elements(table.keys[..]) <==> Announced(announce[..t], x)
    modifies table, table.keys
    ensures table.Valid() && table.size <= (t + 1) * most
    ensures forall x :: x in Elements(table.keys[..]) <==> Announced(announce[..t + 1], x)
  {
    var mine := announce[t];
    ghost var was := Elements(table.keys[..]);
    for i := 0 to |mine|
      invariant table.Valid() && table.size <= t * most + i
      invariant Elements(table.keys[..]) == was + SetOf(mine[..i])
    {
      RoomLeft(|announce|, t, most, table.tableSize, i);
      table.Insert(mine[i]);
      assert SetOf(mine[..i + 1]) == SetOf(mine[..i]) + {mine[i]};
    }
    RoomLeft(|announce|, t, most, table.tableSize, |mine|);
    assert mine[..|mine|] == mine;
    forall x ensures x in was + SetOf(mine) <==> Announced(announce[..t + 1], x) { AnnouncedNext(announce, t, x); }
  }

  lemma AnnouncedNext<T>(announce: seq<seq<T>>, t: nat, x: T)
    requires t < |announce|
    ensures Announced(announce[..t + 1], x) <==> Announced(announce[..t], x) || x in SetOf(announce[t])
  {
    var a, b := announce[..t], announce[..t + 1];
    if Announced(a, x) {
      var u, i :| 0 <= u < |a| && 0 <= i < |a[u]| && a[u][i] == x;
      assert b[u][i] == x;
    }
    if x in SetOf(announce[t]) {
      var i :| 0 <= i < |announce[t]| && announce[t][i] == x;
      assert b[t][i] == x;
    }
    if Announced(b, x) {
      var u, i :| 0 <= u < |b| && 0 <= i < |b[u]| && b[u][i] == x;
      if u < t { assert a[u][i] == x; }
    }
  }

  class HazardPointers<T(0,==)> {
    const numProcesses: nat
    const retired: ArrayList<T>
    const comparing: HashsetNew<T>
    var pool: seq<T>

    ghost predicate Valid()
      reads this, retired, comparing, comparing.keys
    {
      && retired.Valid() && comparing.Valid() && (retired.data as object) != (comparing.keys as object)
      && retired.capacity == 5 * numProcesses * MAX_HAZARDPTRS_PER_THREAD
      && comparing.tableSize >= 2 * numProcesses * MAX_HAZARDPTRS_PER_THREAD
    }

    constructor (hash: T -> nat, numProcesses: nat)
      ensures Valid() && fresh(retired) && fresh(retired.data) && fresh(comparing) && fresh(comparing.keys)
      ensures retired.Contents() == [] && pool == [] && this.numProcesses == numProcesses
    {
      this.numProcesses := numProcesses;
      retired := new ArrayList<T>(5 * numProcesses * MAX_HAZARDPTRS_PER_THREAD);
      comparing := new HashsetNew<T>(hash, numProcesses * MAX_HAZARDPTRS_PER_THREAD);
      pool := [];
    }

    // Sends one retired object to the pool.
    method FreeOne(ix: nat, ghost kept: seq<T>)
      requires Valid() && ix < |kept| && kept == retired.Contents()
      modifies this, retired, retired.data
      ensures Valid() && pool == old(pool) + [kept[ix]] && retired.Contents() == Erased(kept, ix)
    {
      pool := pool + [retired.data[ix]];
      retired.Erase(ix);
    }

    // Frees the retired objects that are not in the table.
    method Scan() returns (ghost kept: seq<T>, ghost freed: seq<T>)
      requires Valid() && comparing.size < comparing.tableSize
      modifies this, retired, retired.data
      ensures Valid() && pool == old(pool) + freed && retired.Contents() == kept
      ensures Sorted(kept, freed, old(retired.Contents()), |kept|, Elements(comparing.keys[..]))
    {
      ghost var table, all := Elements(comparing.keys[..]), retired.Contents();
      kept, freed := all, [];
      SortedStart(all, table);
      var ix: nat := 0;
      while ix < retired.size
        invariant Valid() && kept == retired.Contents() && ix <= |kept| && pool == old(pool) + freed
        invariant Sorted(kept, freed, all, ix, table)
        decreases |kept| - ix
      {
        ix, kept, freed := ScanOne(ix, kept, freed, all, table, old(pool));
      }
    }

    // One round: the object at `ix` is freed or passed over.
    method ScanOne(ix: nat, ghost kept: seq<T>, ghost freed: seq<T>, ghost all: seq<T>, ghost table: set<T>,
                   ghost base: seq<T>)
        returns (ix': nat, ghost kept': seq<T>, ghost freed': seq<T>)
      requires Valid() && comparing.size < comparing.tableSize && table == Elements(comparing.keys[..])
      requires ix < |kept| && kept == retired.Contents() && Sorted(kept, freed, all, ix, table) && pool == base + freed
      modifies this, retired, retired.data
      ensures Valid() && kept' == retired.Contents() && Sorted(kept', freed', all, ix', table)
      ensures ix' <= |kept'| && |kept'| - ix' == |kept| - ix - 1
      ensures pool == base + freed'
    {
      assert retired.data[ix] == kept[ix];
      var found := comparing.Contains(retired.data[ix]);
      if !found {
        EraseStep(kept, freed, all, ix, table);
        FreeOne(ix, kept);
        ix', kept', freed' := ix, Erased(kept, ix), freed + [kept[ix]];
      } else {
        ix', kept', freed' := ix + 1, kept, freed;
      }
    }

    // The announced objects that are retired all fit in the list, with room to spare.
    lemma FewKept(kept: seq<T>)
      requires Valid() && comparing.size <= numProcesses * MAX_HAZARDPTRS_PER_THREAD && NoRepeats(kept)
      requires forall x :: x in kept ==> x in Elements(comparing.keys[..])
      ensures |kept| <= numProcesses * MAX_HAZARDPTRS_PER_THREAD
    {
      NoRepeatsLength(kept, Elements(comparing.keys[..]));
      ElementsFew(comparing.keys[..]);
    }

    lemma BagRepeats(a: seq<T>, b: seq<T>, c: seq<T>)
      requires multiset(a) + multiset(b) == multiset(c) && NoRepeats(c)
      ensures NoRepeats(a)
    {
      forall i, j | 0 <= i < j < |a| ensures a[i] != a[j] {
        if a[i] == a[j] {
          Twice(a, i, j);
          AtMostOnce(c, a[i]);
        }
      }
    }

    /**
     Retires an object.  When the list fills up, exactly the retired objects that nobody announced are
     freed and the others stay, at most numProcesses * 16 of the 5 * numProcesses * 16 slots.
     */
    method Retire(p: T, announce: seq<seq<T>>)
      requires Valid() && |announce| == numProcesses && Bounded(announce, MAX_HAZARDPTRS_PER_THREAD)
      requires |retired.Contents()| < retired.capacity && NoRepeats(retired.Contents() + [p])
      modifies this, retired, retired.data, comparing, comparing.keys
      ensures Valid() && old(pool) <= pool && |retired.Contents()| < retired.capacity
      ensures var freed := pool[|old(pool)|..];
              && multiset(retired.Contents()) + multiset(freed) == multiset(old(retired.Contents()) + [p])
              && (if |old(retired.Contents())| + 1 < retired.capacity then freed == []
                  else (forall x :: x in retired.Contents() ==> Announced(announce, x))
                       && (forall x :: x in freed ==> !Announced(announce, x))
                       && |retired.Contents()| <= numProcesses * MAX_HAZARDPTRS_PER_THREAD)
    {
      retired.Add(p);
      if retired.size == retired.capacity {
        ghost var kept, freed := ScanAll(announce);
        assert pool[|old(pool)|..] == freed;
      }
    }

    method ScanAll(announce: seq<seq<T>>) returns (ghost kept: seq<T>, ghost freed: seq<T>)
      requires Valid() && |announce| == numProcesses && Bounded(announce, MAX_HAZARDPTRS_PER_THREAD)
          && NoRepeats(retired.Contents())
      modifies this, retired, retired.data, comparing, comparing.keys
      ensures Valid() && pool == old(pool) + freed && retired.Contents() == kept
      ensures multiset(kept) + multiset(freed) == multiset(old(retired.Contents()))
      ensures (forall x :: x in kept ==> Announced(announce, x)) && (forall x :: x in freed ==> !Announced(announce, x))
      ensures |kept| <= numProcesses * MAX_HAZARDPTRS_PER_THREAD
    {
      HashAnnouncements(comparing, announce, MAX_HAZARDPTRS_PER_THREAD);
      kept, freed := Scan();
      BagRepeats(kept, freed, old(retired.Contents()));
      FewKept(kept);
    }
  }

  lemma ElementsFew<T>(keys: seq<Option<T>>)
    ensures |Elements(keys)| <= |Occupied(keys)|
  {
    ImageFew(Occupied(keys), keys);
    assert Elements(keys) == set i | i in Occupied(keys) :: keys[i].value;
  }

  lemma {:induction false} ImageFew<T>(a: set<nat>, keys: seq<Option<T>>)
    requires forall i :: i in a ==> i < |keys| && keys[i].Some?
    ensures |set i | i in a :: keys[i].value| <= |a|
  {
    if x :| x in a {
      ImageFew(a - {x}, keys);
      assert (set i | i in a :: keys[i].value) == (set i | i in a - {x} :: keys[i].value) + {keys[x].value};
    }
  }

  lemma Twice<T>(s: seq<T>, i: nat, j: nat)
    requires i < j < |s| && s[i] == s[j]
    ensures multiset(s)[s[i]] >= 2
  {
    assert s == s[..i] + [s[i]] + s[i + 1..j] + [s[j]] + s[j + 1..];
  }

  lemma {:induction false} AtMostOnce<T>(s: seq<T>, x: T)
    requires NoRepeats(s)
    ensures multiset(s)[x] <= 1
  {
    if s != [] {
      var n := |s| - 1;
      AtMostOnce(s[..n], x);
      assert s == s[..n] + [s[n]];
    }
  }
}
