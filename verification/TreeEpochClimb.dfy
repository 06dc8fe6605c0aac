/**
 How one round of climbs brings the tournament tree's root forward: when all leaves hold the epoch and
 threads 0, 1, 2, ... climb one after another, which nodes hold it in between.
 */
module TreeEpochClimb {
  import opened TreeEpoch
  import opened TreeEpochRun

  // ---------------------------------------------------------------- ancestors

  lemma {:induction false} BelowAtLeast(x: nat, l: nat)
    requires Below(x, l)
    ensures x <= l
  {}

  lemma HalfAtLeast(x: nat, c: nat)
    requires x < c && Below(x, c)
    ensures x <= c / 2
  {
    BelowAtLeast(x, c / 2);
  }

  lemma ParentBelow(x: nat, l: nat)
    requires x > 1 && Below(x, l)
    ensures Below(x / 2, l)
  {
    BelowChild(x / 2, x, l);
  }

  // Of two nodes above the same leaf one is above the other.
  lemma {:induction false} Comparable(x: nat, y: nat, l: nat)
    requires x <= y && Below(x, l) && Below(y, l)
    ensures Below(x, y)
  {
    if y < l { Comparable(x, y, l / 2); }
  }

  lemma {:induction false} BelowTrans(x: nat, y: nat, l: nat)
    requires Below(x, y) && Below(y, l)
    ensures Below(x, l)
  {
    BelowAtLeast(x, y);
    BelowAtLeast(y, l);
    if y < l { BelowTrans(x, y, l / 2); }
  }

  // The child of `y` on the way to `l`.
  lemma ChildOnPath(y: nat, l: nat) returns (c: nat)
    requires 0 < y < l && Below(y, l)
    ensures (c == 2 * y || c == 2 * y + 1) && Below(c, l) && c <= l
  {
    ChildBelow(y, l);
    c := if Below(2 * y, l) then 2 * y else 2 * y + 1;
    BelowAtLeast(c, l);
  }

  // ---------------------------------------------------------------- between climbs

  // A node that does not hold others up.
  predicate Ok(s: State, x: nat, e: int) { At(s, x) == e || Quiescent(At(s, x)) }
  predicate Both(s: State, x: nat, e: int) { Ok(s, 2 * x, e) && Ok(s, 2 * x + 1, e) }

  // One of the first `t` threads is below node `x`.
  ghost predicate Touched(s: State, t: nat, x: nat) { exists j: nat :: j < t && Below(x, Leaf(s, j)) }

  // Inner node `x` when the first `t` threads have climbed.
  ghost predicate Climbed(s: State, t: nat, x: nat, e: int) {
    !Quiescent(At(s, x)) ==> (At(s, x) == e <==> Both(s, x, e) && Touched(s, t, x))
  }

  ghost predicate AllLeaves(s: State, e: int) { forall j: nat :: j < |s.th| ==> At(s, Leaf(s, j)) == e }

  // The root still holds `e`, so not both its children can be done.
  ghost predicate Round(s: State, t: nat, e: int) {
    && Shape(s) && TreeInv(s) && AllLeaves(s, e) && At(s, ROOT) == e && e % 2 == 0
    && (forall x: nat {:trigger Climbed(s, t, x, e)} :: 1 < x < s.size ==> Climbed(s, t, x, e))
    && (t > 0 ==> !Both(s, ROOT, e))
  }

  // ---------------------------------------------------------------- a round ends

  lemma {:induction false} NodeDone(s: State, x: nat, e: int)
    requires Round(s, |s.th|, e) && 1 < x < 2 * s.size
    ensures Ok(s, x, e)
    decreases 2 * s.size - x
  {
    if x < s.size {
      NodeDone(s, 2 * x, e);
      NodeDone(s, 2 * x + 1, e);
      assert Climbed(s, |s.th|, x, e) && InnerInv(s, x);
      if !Quiescent(At(s, x)) { SomeBelow(s, x); }
    } else if x < s.size + |s.th| {
      assert At(s, Leaf(s, x - s.size)) == e;
    }
  }

  lemma SomeBelow(s: State, x: nat)
    requires Shape(s) && !AllFake(s.size, |s.th|, x)
    ensures Touched(s, |s.th|, x)
  {
    var l: nat :| s.size <= l < s.size + |s.th| && Below(x, l);
    assert Leaf(s, l - s.size) == l;
  }

  /** When all threads have climbed the root has moved. */
  lemma RoundEnds(s: State, e: int)
    ensures !Round(s, |s.th|, e)
  {
    if Round(s, |s.th|, e) {
      NodeDone(s, 2, e);
      NodeDone(s, 3, e);
    }
  }

  // ---------------------------------------------------------------- during a climb

  // Thread `t`, which began its climb in state `s0`, has raised the nodes from its leaf up to node `x`.
  ghost predicate Rising(s0: State, s: State, t: nat, x: nat, e: int) {
    && s.size == s0.size && |s.th| == |s0.th| && |s.nodes| == |s0.nodes| && t < |s0.th|
    && 1 < x < 2 * s.size && Below(x, Leaf(s0, t)) && At(s, ROOT) == e
    && (forall y: nat {:trigger At(s, y)} :: 1 < y < 2 * s.size ==>
        At(s, y) == if Below(y, Leaf(s0, t)) && y >= x then e else At(s0, y))
    && (forall y: nat {:trigger Both(s, y, e)} :: x <= y < s.size && Below(y, Leaf(s0, t)) ==> Both(s, y, e))
  }

  lemma RisingStarts(s0: State, s: State, t: nat, e: int)
    requires Round(s0, t, e) && t < |s0.th| && s.nodes == s0.nodes && s.size == s0.size && |s.th| == |s0.th|
    ensures Rising(s0, s, t, Leaf(s0, t), e)
  {
    var l := Leaf(s0, t);
    forall y: nat | 1 < y < 2 * s.size && Below(y, l) && y >= l ensures At(s0, y) == e { BelowAtLeast(y, l); }
    assert Below(l, l);
  }

  lemma RisingGoes(s0: State, s: State, t: nat, x: nat, e: int, s': State)
    requires Shape(s0) && Rising(s0, s, t, x, e) && Ok(s, Sibling(x), e) && x / 2 > 1 && e % 2 == 0
    requires s'.nodes == s.nodes[x / 2 := e] && s'.size == s.size && |s'.th| == |s.th|
    ensures Rising(s0, s', t, x / 2, e)
  {
    var l := Leaf(s0, t);
    ParentBelow(x, l);
    forall y: nat | 1 < y < 2 * s.size
      ensures At(s', y) == if Below(y, l) && y >= x / 2 then e else At(s0, y)
    {
      if y != x / 2 {
        assert At(s', y) == At(s, y);
        if Below(y, l) && x / 2 <= y < x { Between(x, y, l); }
      }
    }
    forall y: nat | x / 2 <= y < s.size && Below(y, l) ensures Both(s', y, e) {
      if x / 2 < y < x { Between(x, y, l); }
      if y == x / 2 {
        assert At(s, x) == e;
      } else {
        assert Both(s, y, e);
      }
      assert At(s', 2 * y) == At(s, 2 * y) && At(s', 2 * y + 1) == At(s, 2 * y + 1);
    }
  }

  // There is no node on the path between a node and its parent.
  lemma Between(x: nat, y: nat, l: nat)
    requires Below(x, l) && Below(y, l) && x / 2 <= y <= x && x > 1
    ensures y == x / 2 || y == x
  {
    Comparable(y, x, l);
    if y < x { BelowAtLeast(y, x / 2); }
  }

  // ---------------------------------------------------------------- a climb stops

  // Nodes that are not above thread `t`'s leaf are as before the climb.
  lemma OffPath(s0: State, s: State, t: nat, x: nat, y: nat, e: int)
    requires Round(s0, t, e) && Rising(s0, s, t, x, e) && 1 < y < s.size && !Below(y, Leaf(s0, t))
    ensures Climbed(s, t + 1, y, e)
  {
    var l := Leaf(s0, t);
    assert Climbed(s0, t, y, e);
    if Below(2 * y, l) { ParentBelow(2 * y, l); }
    if Below(2 * y + 1, l) { ParentBelow(2 * y + 1, l); }
    assert At(s, y) == At(s0, y) && At(s, 2 * y) == At(s0, 2 * y) && At(s, 2 * y + 1) == At(s0, 2 * y + 1);
    TouchedNext(s0, s, t, y);
  }

  lemma TouchedNext(s0: State, s: State, t: nat, y: nat)
    requires s.size == s0.size
    ensures Touched(s, t + 1, y) <==> Touched(s0, t, y) || Below(y, Leaf(s0, t))
  {
    if Touched(s, t + 1, y) {
      var j: nat :| j < t + 1 && Below(y, Leaf(s, j));
      assert Leaf(s0, j) == Leaf(s, j);
    }
    if Touched(s0, t, y) {
      var j: nat :| j < t && Below(y, Leaf(s0, j));
      assert Leaf(s0, j) == Leaf(s, j);
    }
    assert Leaf(s0, t) == Leaf(s, t);
  }

  lemma OnPath(s0: State, s: State, t: nat, x: nat, y: nat, e: int)
    requires Rising(s0, s, t, x, e) && x <= y < s.size && 1 < y && Below(y, Leaf(s0, t)) && e % 2 == 0
    ensures Climbed(s, t + 1, y, e)
  {
    assert Both(s, y, e);
    TouchedNext(s0, s, t, y);
  }

  // Above the last node raised nothing has changed.
  lemma AboveSame(s0: State, s: State, t: nat, x: nat, y: nat, e: int)
    requires Rising(s0, s, t, x, e) && 0 < y < x && Below(y, Leaf(s0, t)) && y != x / 2
    ensures 1 < y ==> At(s, y) == At(s0, y)
    ensures At(s, 2 * y) == At(s0, 2 * y) && At(s, 2 * y + 1) == At(s0, 2 * y + 1)
  {
    var l := Leaf(s0, t);
    Comparable(y, x, l);
    BelowAtLeast(y, x / 2);
    if Below(2 * y, l) { AboveChild(x, y, 2 * y, l); }
    if Below(2 * y + 1, l) { AboveChild(x, y, 2 * y + 1, l); }
    assert At(s, 2 * y) == At(s0, 2 * y) && At(s, 2 * y + 1) == At(s0, 2 * y + 1);
  }

  lemma AboveChild(x: nat, y: nat, c: nat, l: nat)
    requires 0 < y < x && c / 2 == y && y != x / 2 && Below(x, l) && Below(c, l)
    ensures c < x
  {
    if c > x {
      Comparable(x, c, l);
      HalfAtLeast(x, c);
    }
  }

  // ---------------------------------------------------------------- ... at a sibling that is not done

  lemma NotFake(s: State, x: nat, t: nat)
    requires Shape(s) && TreeInv(s) && t < |s.th| && 1 < x < s.size && Below(x, Leaf(s, t))
    ensures !Quiescent(At(s, x))
  {
    assert InnerInv(s, x);
  }

  lemma SiblingApart(x: nat, l: nat)
    requires x > 1 && Below(x, l)
    ensures !Below(Sibling(x), l)
  {
    if Below(Sibling(x), l) {
      if x < Sibling(x) { Comparable(x, Sibling(x), l); } else { Comparable(Sibling(x), x, l); }
    }
  }

  // No node above the one that held up the climb is done.
  lemma {:induction false} AboveUndone(s0: State, s: State, t: nat, x: nat, c: nat, e: int)
    requires Round(s0, t, e) && Rising(s0, s, t, x, e) && !Ok(s, Sibling(x), e)
    requires 1 < c <= x / 2 && Below(c, Leaf(s0, t))
    ensures c < s0.size && !Ok(s0, c, e)
    decreases x / 2 - c
  {
    var l := Leaf(s0, t);
    NotFake(s0, c, t);
    assert Climbed(s0, t, c, e);
    if c == x / 2 {
      SiblingApart(x, l);
      assert At(s, Sibling(x)) == At(s0, Sibling(x));
    } else {
      Comparable(c, x, l);
      BelowAtLeast(c, x / 2);
      var d := ChildOnPath(c, l);
      AboveChild(x, c, d, l);
      Comparable(d, x, l);
      BelowAtLeast(d, x / 2);
      AboveUndone(s0, s, t, x, d, e);
    }
  }

  // A node above it, the root included, has a child that is not done.
  lemma AboveHeldUp(s0: State, s: State, t: nat, x: nat, y: nat, e: int)
    requires Round(s0, t, e) && Rising(s0, s, t, x, e) && !Ok(s, Sibling(x), e)
    requires 0 < y <= x / 2 && Below(y, Leaf(s0, t))
    ensures !Both(s, y, e)
  {
    if y < x / 2 {
      var l := Leaf(s0, t);
      var d := ChildOnPath(y, l);
      AboveChild(x, y, d, l);
      Comparable(d, x, l);
      BelowAtLeast(d, x / 2);
      AboveUndone(s0, s, t, x, d, e);
      AboveSame(s0, s, t, x, y, e);
    }
  }

  lemma HeldUp(s0: State, s: State, t: nat, x: nat, y: nat, e: int)
    requires Round(s0, t, e) && Rising(s0, s, t, x, e) && !Ok(s, Sibling(x), e)
    requires 1 < y < s.size
    ensures Climbed(s, t + 1, y, e)
  {
    if !Below(y, Leaf(s0, t)) { OffPath(s0, s, t, x, y, e); }
    else if y >= x { OnPath(s0, s, t, x, y, e); }
    else {
      Comparable(y, x, Leaf(s0, t));
      BelowAtLeast(y, x / 2);
      AboveUndone(s0, s, t, x, y, e);
      AboveHeldUp(s0, s, t, x, y, e);
      assert At(s, y) == At(s0, y);
    }
  }

  lemma LeavesStay(s0: State, s: State, t: nat, x: nat, e: int)
    requires Round(s0, t, e) && Rising(s0, s, t, x, e)
    ensures AllLeaves(s, e)
  {
    forall j: nat | j < |s.th| ensures At(s, Leaf(s, j)) == e {
      assert At(s0, Leaf(s0, j)) == e && Leaf(s, j) == Leaf(s0, j);
    }
  }

  lemma StopsAtSibling(s0: State, s: State, t: nat, x: nat, e: int)
    requires Round(s0, t, e) && Rising(s0, s, t, x, e) && !Ok(s, Sibling(x), e) && Shape(s) && TreeInv(s)
    ensures Round(s, t + 1, e)
  {
    LeavesStay(s0, s, t, x, e);
    var n := t + 1;
    forall y: nat | 1 < y < s.size ensures Climbed(s, n, y, e) { HeldUp(s0, s, t, x, y, e); }
    RootAbove(Leaf(s0, t));
    AboveHeldUp(s0, s, t, x, ROOT, e);
  }

  // ---------------------------------------------------------------- ... at a parent that is done

  lemma ParentTouched(s0: State, s: State, t: nat, x: nat, e: int)
    requires Round(s0, t, e) && Rising(s0, s, t, x, e) && x / 2 > 1 && At(s, x / 2) == e
    ensures Touched(s0, t, x / 2) && Both(s, x / 2, e)
  {
    var l := Leaf(s0, t);
    ParentBelow(x, l);
    assert At(s, x / 2) == At(s0, x / 2);
    assert Climbed(s0, t, x / 2, e);
    SiblingApart(x, l);
    assert At(s, Sibling(x)) == At(s0, Sibling(x)) && At(s, x) == e;
  }

  lemma Passed(s0: State, s: State, t: nat, x: nat, y: nat, e: int)
    requires Round(s0, t, e) && Rising(s0, s, t, x, e) && x / 2 > 1 && At(s, x / 2) == e
    requires 1 < y < x / 2 && Below(y, Leaf(s0, t))
    ensures Climbed(s, t + 1, y, e)
  {
    ParentTouched(s0, s, t, x, e);
    AboveSame(s0, s, t, x, y, e);
    assert Climbed(s0, t, y, e);
    TouchedNext(s0, s, t, y);
    ParentBelow(x, Leaf(s0, t));
    Comparable(y, x / 2, Leaf(s0, t));
    var j: nat :| j < t && Below(x / 2, Leaf(s0, j));
    BelowTrans(y, x / 2, Leaf(s0, j));
  }

  lemma StopsAtParent(s0: State, s: State, t: nat, x: nat, e: int)
    requires Round(s0, t, e) && Rising(s0, s, t, x, e) && x / 2 > 1 && At(s, x / 2) == e && Shape(s) && TreeInv(s)
    ensures Round(s, t + 1, e)
  {
    var l := Leaf(s0, t);
    LeavesStay(s0, s, t, x, e);
    ParentTouched(s0, s, t, x, e);
    var n := t + 1;
    forall y: nat | 1 < y < s.size ensures Climbed(s, n, y, e) {
      if !Below(y, l) { OffPath(s0, s, t, x, y, e); }
      else if y >= x { OnPath(s0, s, t, x, y, e); }
      else {
        Comparable(y, x, l);
        BelowAtLeast(y, x / 2);
        if y < x / 2 { Passed(s0, s, t, x, y, e); } else { TouchedNext(s0, s, t, y); }
      }
    }
    RootAbove(l);
    AboveSame(s0, s, t, x, ROOT, e);
  }
}
