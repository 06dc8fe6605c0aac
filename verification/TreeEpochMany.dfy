/**
 With two or more threads the tournament tree does reclaim: from every initial state there is a run in
 which retired objects reach the pool.  Rotations move full blocks only, as the original's do.
 */
module TreeEpochMany {
  import opened Limbo
  import opened TreeEpoch
  import opened TreeEpochRun
  import opened TreeEpochClimb
  import B = BlockBags

  // ---------------------------------------------------------------- reachable states

  // Thread `t` empties the bag that it rotates to, except for what does not fill a block.
  ghost predicate WholeRotation(s: State, t: nat, s': State)
    requires t < |s.th| && s.th[t].pc.Rotating?
  {
    var bag := InBag(s.objs, t, NextIndex(s.th[t].index));
    exists out :: out <= bag && |out| == |bag| - |bag| % B.BLOCK_SIZE && s' == Rotate(s, t, out)
  }

  // If the step is a rotation it moves full blocks.
  ghost predicate Whole(s: State, s': State) {
    forall t: nat :: t < |s.th| && s.th[t].pc.Rotating? && s'.th != s.th && (t < |s'.th| ==> s'.th[t] != s.th[t]) ==>
      WholeRotation(s, t, s')
  }

  ghost predicate WholeAt(b: seq<State>, i: int) { 0 <= i < |b| - 1 && Whole(b[i], b[i + 1]) }

  ghost predicate WholeRun(b: seq<State>) { Run(b) && forall i :: 0 <= i < |b| - 1 ==> WholeAt(b, i) }

  // A run from `o`, which has at least two threads, leads to `s`.
  ghost predicate Reachable(o: State, s: State) {
    |o.th| >= 2 && exists b :: WholeRun(b) && b[0] == o && b[|b| - 1] == s
  }

  lemma StepsOne(s: State, t: nat, s': State)
    requires StepBy(s, t, s')
    ensures |s'.th| == |s.th| && forall u: nat :: u < |s.th| && u != t ==> s'.th[u] == s.th[u]
  {}

  lemma Reach(o: State, s: State, t: nat, s': State)
    requires Reachable(o, s) && StepBy(s, t, s') && (s.th[t].pc.Rotating? ==> WholeRotation(s, t, s'))
    ensures Reachable(o, s')
  {
    var b :| WholeRun(b) && b[0] == o && b[|b| - 1] == s;
    StepsOne(s, t, s');
    assert Whole(s, s');
    var b' := b + [s'];
    forall i | 0 <= i < |b'| - 1 ensures StepAt(b', i) && WholeAt(b', i) {
      if i < |b| - 1 {
        assert StepAt(b, i) && WholeAt(b, i) && b'[i] == b[i] && b'[i + 1] == b[i + 1];
      } else {
        assert b'[i] == s && b'[i + 1] == s';
      }
    }
    assert b'[0] == b[0] && b'[|b'| - 1] == s';
  }

  lemma Known(o: State, s: State)
    requires Reachable(o, s)
    ensures Shape(s) && TreeInv(s)
  {
    var b :| WholeRun(b) && b[0] == o && b[|b| - 1] == s;
    RunKeeps(b, |b| - 1);
  }

  ghost predicate AllOutside(s: State) { forall u: nat :: u < |s.th| ==> s.th[u].pc.Outside? }

  // All threads are between operations and the root holds `e`.
  ghost predicate Rest(o: State, s: State, e: int) {
    Reachable(o, s) && |s.th| >= 2 && Shape(s) && TreeInv(s) && AllOutside(s) && At(s, ROOT) == e
  }

  // Nothing but the tree and the threads' own counters differs.
  ghost predicate SameBags(s: State, s': State) {
    && s'.size == s.size && |s'.th| == |s.th| && s'.objs == s.objs && |s'.nodes| == |s.nodes|
    && forall u: nat :: u < |s.th| ==> s'.th[u].index == s.th[u].index
  }

  // ---------------------------------------------------------------- single operations

  // A read-only operation goes no further.
  lemma Finishes(o: State, c: State, t: nat) returns (s': State)
    requires Reachable(o, c) && t < |c.th| && c.th[t].pc.Trying?
    ensures Reachable(o, s') && s' == c.(th := c.th[t := c.th[t].(pc := Outside)])
  {
    var d := Try(c, t, true);
    Reach(o, c, t, d);
    s' := Leaves(o, d, t);
    assert s'.th == c.th[t := c.th[t].(pc := Outside)];
  }

  lemma Leaves(o: State, d: State, t: nat) returns (s': State)
    requires Reachable(o, d) && t < |d.th| && d.th[t].pc.Inside?
    ensures Reachable(o, s') && s' == SetPc(d, t, Outside)
  {
    s' := SetPc(d, t, Outside);
    Reach(o, d, t, s');
  }

  // An operation that announces the epoch and rotates the bags.
  lemma Announces(o: State, s: State, t: nat, e: int) returns (s': State)
    requires Rest(o, s, e) && t < |s.th| && BitsEpoch(At(s, Leaf(s, t))) != e
    requires |InBag(s.objs, t, NextIndex(s.th[t].index))| % B.BLOCK_SIZE == 0
    ensures Rest(o, s', e) && s'.size == s.size && |s'.th| == |s.th| && s'.nodes == s.nodes[Leaf(s, t) := e]
    ensures forall u: nat :: u < |s.th| && u != t ==> s'.th[u] == s.th[u]
    ensures s'.th[t].index == NextIndex(s.th[t].index)
    ensures s'.objs == MoveOut(s.objs, InBag(s.objs, t, NextIndex(s.th[t].index)), Pool)
  {
    var a := Begin(s, t);
    Reach(o, s, t, a);
    var b := Announce(a, t);
    Reach(o, a, t, b);
    var out := InBag(s.objs, t, NextIndex(s.th[t].index));
    var c := Rotate(b, t, out);
    assert out == InBag(b.objs, t, NextIndex(b.th[t].index));
    assert WholeRotation(b, t, c);
    Reach(o, b, t, c);
    s' := Finishes(o, c, t);
    Known(o, s');
  }

  // An operation that starts from an announced epoch; it gets as far as the attempt to advance.
  lemma Enters(o: State, s: State, t: nat, e: int) returns (b: State)
    requires Rest(o, s, e) && t < |s.th| && At(s, Leaf(s, t)) == e && e % 2 == 0
    ensures Reachable(o, b) && b.nodes == s.nodes && SameBags(s, b) && b.th == s.th[t := b.th[t]]
    ensures b.th[t].since == s.th[t].since + 1
    ensures b.th[t].pc == if b.th[t].since % MIN_TIME_BEFORE_TRY_ADVANCE == 0 then Climbing(Leaf(s, t), e) else Inside
  {
    var a := Begin(s, t);
    Reach(o, s, t, a);
    b := Try(a, t, false);
    Reach(o, a, t, b);
  }

  lemma Works(o: State, s: State, t: nat, e: int) returns (s': State)
    requires Rest(o, s, e) && t < |s.th| && At(s, Leaf(s, t)) == e && e % 2 == 0
    requires (s.th[t].since + 1) % MIN_TIME_BEFORE_TRY_ADVANCE != 0
    ensures Rest(o, s', e) && s'.nodes == s.nodes && SameBags(s, s') && s'.th[t].since == s.th[t].since + 1
  {
    var b := Enters(o, s, t, e);
    s' := Leaves(o, b, t);
    Known(o, s');
  }

  // ---------------------------------------------------------------- a climb

  // Thread `t` is inside an operation that began in state `s0`.
  ghost predicate Inner(o: State, s0: State, s: State, t: nat, e: int) {
    && Reachable(o, s) && Round(s0, t, e) && AllOutside(s0) && t < |s0.th| && |s0.th| >= 2
    && SameBags(s0, s) && s.th == s0.th[t := s.th[t]]
  }

  // After thread `t`'s climb: the root has moved, or `t` is done for this round.
  ghost predicate After(o: State, s0: State, s: State, t: nat, e: int) {
    && SameBags(s0, s) && AllLeaves(s, e)
    && (Rest(o, s, e + EPOCH_INCREMENT) || (Rest(o, s, e) && Round(s, t + 1, e)))
  }

  lemma StopsBelow(o: State, s0: State, s: State, c: State, t: nat, x: nat, e: int) returns (s': State)
    requires Inner(o, s0, s, t, e) && Rising(s0, s, t, x, e) && !Ok(s, Sibling(x), e)
    requires Inner(o, s0, c, t, e) && c.nodes == s.nodes && c.th[t].pc.Inside?
    ensures After(o, s0, s', t, e)
  {
    s' := Leaves(o, c, t);
    Known(o, s');
    assert Rising(s0, s', t, x, e) by { RisingSame(s0, s, s', t, x, e); }
    StopsAtSibling(s0, s', t, x, e);
  }

  lemma RisingSame(s0: State, s: State, s': State, t: nat, x: nat, e: int)
    requires Rising(s0, s, t, x, e) && s'.nodes == s.nodes && s'.size == s.size && |s'.th| == |s.th|
    ensures Rising(s0, s', t, x, e)
  {
    forall y: nat | 1 < y < 2 * s'.size ensures At(s', y) == if Below(y, Leaf(s0, t)) && y >= x then e else At(s0, y) {
      assert At(s, y) == At(s', y);
    }
    forall y: nat | x <= y < s'.size && Below(y, Leaf(s0, t)) ensures Both(s', y, e) { assert Both(s, y, e); }
  }

  lemma StopsUnder(o: State, s0: State, s: State, d: State, t: nat, x: nat, e: int) returns (s': State)
    requires Inner(o, s0, s, t, e) && Rising(s0, s, t, x, e) && x / 2 > 1 && At(s, x / 2) == e
    requires Inner(o, s0, d, t, e) && d.nodes == s.nodes && d.th[t].pc.Inside?
    ensures After(o, s0, s', t, e)
  {
    s' := Leaves(o, d, t);
    Known(o, s');
    RisingSame(s0, s, s', t, x, e);
    StopsAtParent(s0, s', t, x, e);
  }

  lemma Moves(o: State, s0: State, f: State, t: nat, e: int) returns (s': State)
    requires Inner(o, s0, f, t, e) && f.th[t].pc.Inside? && At(f, ROOT) == e + EPOCH_INCREMENT && AllLeaves(f, e)
    ensures After(o, s0, s', t, e)
  {
    s' := Leaves(o, f, t);
    Known(o, s');
    forall j: nat | j < |s'.th| ensures At(s', Leaf(s', j)) == e { assert At(f, Leaf(f, j)) == e; }
  }

  lemma NotAhead(o: State, s0: State, s: State, t: nat, x: nat, e: int)
    requires Inner(o, s0, s, t, e) && Rising(s0, s, t, x, e) && x / 2 > 1
    ensures At(s, x / 2) <= e
  {
    var l := Leaf(s0, t);
    Known(o, s);
    LeavesStay(s0, s, t, x, e);
    ParentBelow(x, l);
    assert Leaf(s, t) == l && At(s, Leaf(s, t)) == e;
    NotFake(s, x / 2, t);
    assert InnerInv(s, x / 2);
  }

  // Reads the sibling, which is done, and the parent.
  lemma LooksUp(o: State, s0: State, s: State, t: nat, x: nat, e: int) returns (d: State)
    requires Inner(o, s0, s, t, e) && Rising(s0, s, t, x, e) && s.th[t].pc == Climbing(x, e) && Ok(s, Sibling(x), e)
    ensures Inner(o, s0, d, t, e) && d.nodes == s.nodes
    ensures d.th[t].pc == if x / 2 > 1 && At(s, x / 2) == e then Inside else Raising(x, e, At(s, x / 2))
  {
    var c := Climb(s, t);
    Reach(o, s, t, c);
    d := ReadParent(c, t);
    Reach(o, c, t, d);
    if x / 2 > 1 { NotAhead(o, s0, s, t, x, e); }
  }

  lemma Raises(o: State, s0: State, d: State, t: nat, x: nat, e: int) returns (f: State)
    requires Inner(o, s0, d, t, e) && Rising(s0, d, t, x, e) && d.th[t].pc == Raising(x, e, At(d, x / 2))
    ensures Inner(o, s0, f, t, e)
    ensures x / 2 == ROOT ==> f.nodes == d.nodes[ROOT := e + EPOCH_INCREMENT] && f.th[t].pc == Inside
    ensures x / 2 > 1 ==> f.nodes == d.nodes[x / 2 := e] && f.th[t].pc == Climbing(x / 2, e)
  {
    f := Raise(d, t);
    Reach(o, d, t, f);
  }

  lemma {:induction false} ClimbsUp(o: State, s0: State, s: State, t: nat, x: nat, e: int) returns (s': State)
    requires Inner(o, s0, s, t, e) && Rising(s0, s, t, x, e) && s.th[t].pc == Climbing(x, e)
    ensures After(o, s0, s', t, e)
    decreases x
  {
    if !Ok(s, Sibling(x), e) {
      var c := Climb(s, t);
      Reach(o, s, t, c);
      s' := StopsBelow(o, s0, s, c, t, x, e);
    } else {
      var d := LooksUp(o, s0, s, t, x, e);
      RisingSame(s0, s, d, t, x, e);
      if x / 2 > 1 && At(s, x / 2) == e {
        s' := StopsUnder(o, s0, s, d, t, x, e);
      } else {
        var f := Raises(o, s0, d, t, x, e);
        if x / 2 > 1 {
          RisingGoes(s0, d, t, x, e, f);
          s' := ClimbsUp(o, s0, f, t, x / 2, e);
        } else {
          LeavesStay(s0, d, t, x, e);
          forall j: nat | j < |f.th| ensures At(f, Leaf(f, j)) == e { assert At(d, Leaf(d, j)) == e; }
          s' := Moves(o, s0, f, t, e);
        }
      }
    }
  }

  // Thread `t` works until it tries to advance, and climbs.
  lemma {:induction false} Climbs(o: State, s: State, t: nat, e: int) returns (s': State)
    requires Rest(o, s, e) && Round(s, t, e) && t < |s.th|
    ensures After(o, s, s', t, e)
    decreases MIN_TIME_BEFORE_TRY_ADVANCE - (s.th[t].since + 1) % MIN_TIME_BEFORE_TRY_ADVANCE
  {
    if (s.th[t].since + 1) % MIN_TIME_BEFORE_TRY_ADVANCE == 0 {
      s' := ClimbsNow(o, s, t, e);
    } else {
      var a := Works(o, s, t, e);
      RoundSame(s, a, t, e);
      if (a.th[t].since + 1) % MIN_TIME_BEFORE_TRY_ADVANCE == 0 {
        s' := ClimbsNow(o, a, t, e);
      } else {
        s' := Climbs(o, a, t, e);
      }
    }
  }

  lemma ClimbsNow(o: State, s: State, t: nat, e: int) returns (s': State)
    requires Rest(o, s, e) && Round(s, t, e) && t < |s.th|
    requires (s.th[t].since + 1) % MIN_TIME_BEFORE_TRY_ADVANCE == 0
    ensures After(o, s, s', t, e)
  {
    var b := Enters(o, s, t, e);
    RisingStarts(s, b, t, e);
    s' := ClimbsUp(o, s, b, t, Leaf(s, t), e);
  }

  lemma RoundSame(s: State, a: State, t: nat, e: int)
    requires Round(s, t, e) && Shape(a) && TreeInv(a) && a.nodes == s.nodes && SameBags(s, a)
    ensures Round(a, t, e)
  {
    forall j: nat | j < |a.th| ensures At(a, Leaf(a, j)) == e { assert At(s, Leaf(s, j)) == e; }
    forall x: nat | 1 < x < a.size ensures Climbed(a, t, x, e) {
      assert Climbed(s, t, x, e);
      if Touched(a, t, x) {
        var j: nat :| j < t && Below(x, Leaf(a, j));
        assert Leaf(s, j) == Leaf(a, j);
      }
      if Touched(s, t, x) {
        var j: nat :| j < t && Below(x, Leaf(s, j));
        assert Leaf(a, j) == Leaf(s, j);
      }
    }
  }

  // ---------------------------------------------------------------- an epoch

  lemma {:induction false} AllClimb(o: State, s: State, t: nat, e: int) returns (s': State)
    requires Rest(o, s, e) && Round(s, t, e) && t <= |s.th|
    ensures Rest(o, s', e + EPOCH_INCREMENT) && AllLeaves(s', e) && SameBags(s, s')
    decreases |s.th| - t
  {
    if t == |s.th| {
      RoundEnds(s, e);
      assert false;
    } else {
      s' := Climbs(o, s, t, e);
      if !Rest(o, s', e + EPOCH_INCREMENT) { s' := AllClimb(o, s', t + 1, e); }
    }
  }

  // Threads below `t` have announced `e`, the others the epoch before.
  ghost predicate Announcing(s: State, t: nat, e: int) {
    forall j: nat :: j < |s.th| ==> At(s, Leaf(s, j)) == if j < t then e else e - EPOCH_INCREMENT
  }

  // No inner node holds `e` yet.
  ghost predicate Fresh(s: State, e: int) {
    forall x: nat :: 1 < x < s.size && !Quiescent(At(s, x)) ==> At(s, x) < e
  }

  ghost predicate AllIn(s: State, xs: set<nat>, loc: Loc) {
    s.objs.Keys == xs && forall x :: x in xs ==> s.objs[x].loc == loc
  }

  // All objects, `xs`, are in bag `k` of thread 0, or already in the pool; they fill whole blocks.
  ghost predicate Waits(s: State, xs: set<nat>, k: nat) {
    |xs| % B.BLOCK_SIZE == 0 && (AllIn(s, xs, Bag(0, k)) || AllIn(s, xs, Pool))
  }

  // So a rotation finds all of them in the bag, or none.
  lemma BagIs(s: State, xs: set<nat>, k: nat, t: nat, j: nat)
    requires Waits(s, xs, k)
    ensures InBag(s.objs, t, j) == if AllIn(s, xs, Bag(0, k)) && t == 0 && j == k then xs else {}
    ensures |InBag(s.objs, t, j)| % B.BLOCK_SIZE == 0
  {
    if AllIn(s, xs, Bag(0, k)) && t == 0 && j == k { assert InBag(s.objs, t, j) == xs; }
    else { assert xs != {} || InBag(s.objs, t, j) == {}; assert InBag(s.objs, t, j) == {}; }
  }

  lemma Rotated(s: State, s': State, xs: set<nat>, k: nat, t: nat, j: nat)
    requires Waits(s, xs, k) && s'.objs == MoveOut(s.objs, InBag(s.objs, t, j), Pool)
    ensures Waits(s', xs, k) && (AllIn(s, xs, Pool) || (t == 0 && j == k) ==> AllIn(s', xs, Pool))
  {
    BagIs(s, xs, k, t, j);
  }

  lemma {:induction false} AllAnnounce(o: State, s: State, t: nat, e: int, xs: set<nat>, k: nat) returns (s': State)
    requires Rest(o, s, e) && 0 < t <= |s.th| && Announcing(s, t, e) && Fresh(s, e) && e % 2 == 0 && Waits(s, xs, k)
    ensures Rest(o, s', e) && AllLeaves(s', e) && Fresh(s', e) && |s'.th| == |s.th|
    ensures s'.th[0].index == s.th[0].index && Waits(s', xs, k) && (AllIn(s, xs, Pool) ==> AllIn(s', xs, Pool))
    decreases |s.th| - t
  {
    if t == |s.th| {
      s' := s;
    } else {
      assert At(s, Leaf(s, t)) == e - EPOCH_INCREMENT;
      BagIs(s, xs, k, t, NextIndex(s.th[t].index));
      var a := Announces(o, s, t, e);
      Announced(s, a, t, e);
      Rotated(s, a, xs, k, t, NextIndex(s.th[t].index));
      s' := AllAnnounce(o, a, t + 1, e, xs, k);
    }
  }

  lemma Announced(s: State, a: State, t: nat, e: int)
    requires Shape(s) && t < |s.th| && Announcing(s, t, e) && Fresh(s, e)
    requires a.nodes == s.nodes[Leaf(s, t) := e] && a.size == s.size && |a.th| == |s.th|
    ensures Announcing(a, t + 1, e) && Fresh(a, e)
  {
    forall j: nat | j < |a.th| ensures At(a, Leaf(a, j)) == if j < t + 1 then e else e - EPOCH_INCREMENT {
      assert At(s, Leaf(s, j)) == if j < t then e else e - EPOCH_INCREMENT;
    }
    forall x: nat | 1 < x < a.size && !Quiescent(At(a, x)) ensures At(a, x) < e { assert At(a, x) == At(s, x); }
  }

  // An epoch goes by: all threads announce it, and climb; what is in the bag that thread 0 rotates to is reclaimed.
  lemma Epoch(o: State, s: State, e: int, xs: set<nat>, k: nat) returns (s': State)
    requires Rest(o, s, e) && AllLeaves(s, e - EPOCH_INCREMENT) && Fresh(s, e) && e % 2 == 0 && Waits(s, xs, k)
    ensures Rest(o, s', e + EPOCH_INCREMENT) && AllLeaves(s', e) && Fresh(s', e + EPOCH_INCREMENT) && Waits(s', xs, k)
    ensures s'.th[0].index == NextIndex(s.th[0].index) && (k == s'.th[0].index ==> AllIn(s', xs, Pool))
  {
    assert At(s, Leaf(s, 0)) == e - EPOCH_INCREMENT;
    BagIs(s, xs, k, 0, NextIndex(s.th[0].index));
    var a := Announces(o, s, 0, e);
    Announced(s, a, 0, e);
    Rotated(s, a, xs, k, 0, NextIndex(s.th[0].index));
    var b := AllAnnounce(o, a, 1, e, xs, k);
    RoundStarts(b, e);
    s' := AllClimb(o, b, 0, e);
    forall y: nat | 1 < y < s'.size && !Quiescent(At(s', y)) ensures At(s', y) < e + EPOCH_INCREMENT {
      assert InnerInv(s', y);
      SomeBelow(s', y);
      var j: nat :| j < |s'.th| && Below(y, Leaf(s', j));
      assert At(s', Leaf(s', j)) == e;
    }
  }

  lemma RoundStarts(s: State, e: int)
    requires Shape(s) && TreeInv(s) && AllLeaves(s, e) && Fresh(s, e) && At(s, ROOT) == e && e % 2 == 0
    ensures Round(s, 0, e)
  {
    forall x: nat | 1 < x < s.size ensures Climbed(s, 0, x, e) {}
  }

  // ---------------------------------------------------------------- the exact condition

  // In some run from `o` that moves full blocks only an object leaves the bags.
  ghost predicate Reclaims(o: State) { exists b :: WholeRun(b) && b[0] == o && Reclaimed(b[|b| - 1]) }

  ghost predicate Reclaimed(s: State) { exists x :: x in s.objs && !s.objs[x].loc.Bag? }

  // As at the start, but for objects that thread 0 has retired.
  ghost predicate Started(o: State, s: State, xs: set<nat>) {
    && Reachable(o, s) && s.nodes == o.nodes && s.size == o.size && s.th == o.th && AllIn(s, xs, Bag(0, 0))
  }

  // Thread 0 retires the objects `xs`.
  lemma {:induction false} RetiresAll(o: State, s: State, ys: set<nat>, xs: set<nat>) returns (s': State)
    requires InitState(o) && Started(o, s, ys) && ys !! xs
    ensures Started(o, s', ys + xs)
    decreases xs
  {
    if x :| x in xs {
      var a := Retire(s, 0, x);
      Reach(o, s, 0, a);
      s' := RetiresAll(o, a, ys + {x}, xs - {x});
      assert ys + {x} + (xs - {x}) == ys + xs;
    } else {
      s' := s;
      assert ys + xs == ys;
    }
  }

  lemma Starts(o: State, s: State, xs: set<nat>)
    requires InitState(o) && |o.th| >= 2 && Started(o, s, xs)
    ensures Rest(o, s, EPOCH_INCREMENT) && AllLeaves(s, 0) && Fresh(s, EPOCH_INCREMENT)
  {
    Known(o, s);
    forall j: nat | j < |s.th| ensures At(s, Leaf(s, j)) == 0 { assert Below(Leaf(o, j), Leaf(o, j)); }
  }

  /**
   With two or more threads, objects that thread 0 retires at the start, enough of them to fill blocks, can all be in
   the pool three epochs later.
   */
  lemma ManyReclaim(o: State, xs: set<nat>) returns (b: seq<State>)
    requires InitState(o) && |o.th| >= 2 && |xs| % B.BLOCK_SIZE == 0
    ensures WholeRun(b) && b[0] == o && AllIn(b[|b| - 1], xs, Pool)
  {
    assert WholeRun([o]) && [o][0] == o && [o][|[o]| - 1] == o;
    var s1 := RetiresAll(o, o, {}, xs);
    assert {} + xs == xs;
    Starts(o, s1, xs);
    var s2 := Epoch(o, s1, 2, xs, 0);
    var s3 := Epoch(o, s2, 4, xs, 0);
    var s4 := Epoch(o, s3, 6, xs, 0);
    b :| WholeRun(b) && b[0] == o && b[|b| - 1] == s4;
  }

  function FirstObjects(n: nat): (r: set<nat>)
    ensures |r| == n && forall x :: x in r ==> x < n
  {
    if n == 0 then {} else FirstObjects(n - 1) + {n - 1}
  }

  /** Some run reclaims exactly if there are two threads or more.  (One thread gets a tree of size one.) */
  lemma ReclaimsExactly(o: State)
    requires InitState(o) && (|o.th| == 1 ==> o.size == 1)
    ensures Reclaims(o) <==> |o.th| >= 2
  {
    if |o.th| >= 2 {
      var xs := FirstObjects(B.BLOCK_SIZE);
      var b := ManyReclaim(o, xs);
      var x :| x in xs;
      assert x in b[|b| - 1].objs && !b[|b| - 1].objs[x].loc.Bag?;
      assert Reclaimed(b[|b| - 1]);
    } else if Reclaims(o) {
      var b: seq<State> :| WholeRun(b) && b[0] == o && Reclaimed(b[|b| - 1]);
      var x :| x in b[|b| - 1].objs && !b[|b| - 1].objs[x].loc.Bag?;
      OneThreadNeverReclaims(b, |b| - 1, x);
    }
  }
}
