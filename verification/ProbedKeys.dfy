/**
 The contents of a table with cumulative-squares probing: where a search ends, when it ends at all,
 and what putting a key does.  The hash is an arbitrary function, reduced to the table's size.
 */
module ProbedKeys {
  import opened Probing

  // ---------------------------------------------------------------- keys in slots

  predicate Passed<T(==)>(p: Probe, keys: seq<Option<T>>, e: T, h: nat, k: nat)
    requires |keys| > 0
  {
    forall j: nat :: j < k ==> keys[Slot(p, h, j, |keys|)].Some? && keys[Slot(p, h, j, |keys|)] != Some(e)
  }

  // The loop of findIx ends after `k` probes.
  ghost predicate Stops<T>(p: Probe, keys: seq<Option<T>>, e: T, h: nat, k: nat)
    requires |keys| > 0
  {
    Passed(p, keys, e, h, k) && (keys[Slot(p, h, k, |keys|)] == None || keys[Slot(p, h, k, |keys|)] == Some(e))
  }

  ghost predicate Reaches<T>(p: Probe, keys: seq<Option<T>>, e: T, h: nat, i: nat)
    requires |keys| > 0
  {
    exists k: nat :: Slot(p, h, k, |keys|) == i && Passed(p, keys, e, h, k)
  }

  ghost predicate TableInv<T>(p: Probe, keys: seq<Option<T>>, hash: T -> nat) {
    |keys| > 0 && forall i: nat {:trigger KeyOk(p, keys, hash, i)} :: i < |keys| ==> KeyOk(p, keys, hash, i)
  }

  ghost predicate KeyOk<T>(p: Probe, keys: seq<Option<T>>, hash: T -> nat, i: nat)
    requires i < |keys|
  {
    keys[i].Some? ==> Reaches(p, keys, keys[i].value, hash(keys[i].value), i)
  }

  ghost function Elements<T>(keys: seq<Option<T>>): set<T> {
    set i | 0 <= i < |keys| && keys[i].Some? :: keys[i].value
  }

  ghost function Occupied<T>(keys: seq<Option<T>>): set<nat> {
    set i: nat | i < |keys| && keys[i].Some?
  }

  // Where the search stops is exactly where the element is, or would go.
  lemma StopIsExact<T>(p: Probe, keys: seq<Option<T>>, hash: T -> nat, e: T, k: nat)
    requires TableInv(p, keys, hash) && Stops(p, keys, e, hash(e), k)
    ensures keys[Slot(p, hash(e), k, |keys|)] == Some(e) <==> e in Elements(keys)
  {
    if e in Elements(keys) {
      var i: nat :| i < |keys| && keys[i] == Some(e);
      assert KeyOk(p, keys, hash, i);
      var l: nat :| Slot(p, hash(e), l, |keys|) == i && Passed(p, keys, e, hash(e), l);
    }
  }

  lemma EmptySlot<T>(keys: seq<Option<T>>)
    requires |Occupied(keys)| < |keys|
    ensures exists i :: 0 <= i < |keys| && keys[i] == None
  {
    var all := Range(|keys|);
    assert Occupied(keys) <= all && Occupied(keys) != all;
    var i :| i in all && i !in Occupied(keys);
    assert keys[i] == None;
  }

  // A probe that has not stopped after `k` steps has not yet met an empty slot or the element.
  lemma PassedBound<T>(p: Probe, keys: seq<Option<T>>, e: T, h: nat, k: nat, i: nat)
    requires |keys| > 0 && IsPow2(|keys|) && Passed(p, keys, e, h, k) && i < |keys|
    requires keys[i] == None || keys[i] == Some(e)
    ensures k < 2 * |keys|
  {
    ProbesCover(p, h, |keys|, i);
    var l: nat :| l < 2 * |keys| && Slot(p, h, l, |keys|) == i;
  }

  lemma {:induction false} FirstStop<T>(p: Probe, keys: seq<Option<T>>, e: T, h: nat, k: nat)
    requires |keys| > 0 && (keys[Slot(p, h, k, |keys|)] == None || keys[Slot(p, h, k, |keys|)] == Some(e))
    ensures exists l: nat :: l <= k && Stops(p, keys, e, h, l)
    decreases k
  {
    if Passed(p, keys, e, h, k) {
      assert Stops(p, keys, e, h, k);
    } else {
      var j: nat :| j < k && !(keys[Slot(p, h, j, |keys|)].Some? && keys[Slot(p, h, j, |keys|)] != Some(e));
      FirstStop(p, keys, e, h, j);
    }
  }

  /** A search ends exactly when the element is present or some slot is empty. */
  lemma SearchEnds<T>(p: Probe, keys: seq<Option<T>>, hash: T -> nat, e: T)
    requires TableInv(p, keys, hash) && IsPow2(|keys|)
    ensures (exists k: nat :: Stops(p, keys, e, hash(e), k)) <==> e in Elements(keys) || exists i ::
        0 <= i < |keys| && keys[i] == None
  {
    var h := hash(e);
    if k: nat :| Stops(p, keys, e, h, k) {
      assert keys[Slot(p, h, k, |keys|)] == None || keys[Slot(p, h, k, |keys|)] == Some(e);
    }
    if e in Elements(keys) {
      var i: nat :| i < |keys| && keys[i] == Some(e);
      assert KeyOk(p, keys, hash, i);
      var k: nat :| Slot(p, h, k, |keys|) == i && Passed(p, keys, e, h, k);
      assert Stops(p, keys, e, h, k);
    } else if i :| 0 <= i < |keys| && keys[i] == None {
      ProbesCover(p, h, |keys|, i);
      var k: nat :| k < 2 * |keys| && Slot(p, h, k, |keys|) == i;
      FirstStop(p, keys, e, h, k);
    }
  }

  /** A table of capacity one is full after one insertion: searching for anything else never ends. */
  lemma CapacityOneNeverEnds<T>(p: Probe, x: T, e: T, h: nat, k: nat)
    requires e != x
    ensures IsPow2(1) && !Stops(p, [Some(x)], e, h, k)
  {
    assert Pow2(0) == 1;
    assert Slot(p, h, k, 1) == 0;
  }

  // ---------------------------------------------------------------- putting a key

  lemma PutKeeps<T>(p: Probe, keys: seq<Option<T>>, hash: T -> nat, e: T, k: nat)
    requires TableInv(p, keys, hash) && Stops(p, keys, e, hash(e), k) && keys[Slot(p, hash(e), k, |keys|)] == None
    ensures var keys' := keys[Slot(p, hash(e), k, |keys|) := Some(e)];
            && TableInv(p, keys', hash) && Elements(keys') == Elements(keys) + {e}
            && |Occupied(keys')| == |Occupied(keys)| + 1
  {
    var q := Slot(p, hash(e), k, |keys|);
    var keys' := keys[q := Some(e)];
    StopIsExact(p, keys, hash, e, k);
    forall i: nat | i < |keys'| && keys'[i].Some? ensures KeyOk(p, keys', hash, i) {
      var x := keys'[i].value;
      if i == q {
        assert Passed(p, keys', e, hash(e), k);
      } else {
        assert KeyOk(p, keys, hash, i);
        var l: nat :| Slot(p, hash(x), l, |keys|) == i && Passed(p, keys, x, hash(x), l);
        PassedPut(p, keys, x, hash(x), l, q, e);
      }
    }
    assert Occupied(keys') == Occupied(keys) + {q};
    ElementsPut(keys, q, e);
  }

  lemma ElementsPut<T>(keys: seq<Option<T>>, q: nat, e: T)
    requires q < |keys| && keys[q] == None
    ensures Elements(keys[q := Some(e)]) == Elements(keys) + {e}
  {
    var keys' := keys[q := Some(e)];
    assert keys'[q] == Some(e);
    forall x | x in Elements(keys) ensures x in Elements(keys') {
      var i :| 0 <= i < |keys| && keys[i] == Some(x);
      assert keys'[i] == Some(x);
    }
    forall x | x in Elements(keys') ensures x in Elements(keys) + {e} {
      var i :| 0 <= i < |keys'| && keys'[i] == Some(x);
      if i != q { assert keys[i] == Some(x); }
    }
  }

  lemma PassedPut<T>(p: Probe, keys: seq<Option<T>>, x: T, h: nat, l: nat, q: nat, e: T)
    requires |keys| > 0 && Passed(p, keys, x, h, l) && q < |keys| && keys[q] == None
    ensures Passed(p, keys[q := Some(e)], x, h, l)
  {
    forall j: nat | j < l
      ensures keys[q := Some(e)][Slot(p, h, j, |keys|)].Some? && keys[q := Some(e)][Slot(p, h, j, |keys|)] != Some(x)
    {
      assert keys[Slot(p, h, j, |keys|)].Some?;
    }
  }

  // An element occupies one slot.
  lemma OneSlot<T>(p: Probe, keys: seq<Option<T>>, hash: T -> nat, i: nat, j: nat)
    requires TableInv(p, keys, hash) && i < |keys| && j < |keys| && keys[i].Some? && keys[i] == keys[j]
    ensures i == j
  {
    var e := keys[i].value;
    assert KeyOk(p, keys, hash, i) && KeyOk(p, keys, hash, j);
    var k: nat :| Slot(p, hash(e), k, |keys|) == i && Passed(p, keys, e, hash(e), k);
    var l: nat :| Slot(p, hash(e), l, |keys|) == j && Passed(p, keys, e, hash(e), l);
  }
}
