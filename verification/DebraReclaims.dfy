/**
 DEBRA does reclaim: from every reachable state in which the other threads are quiescent, a thread that goes on alone
 advances the epoch, and what fills its current bag ends up in the pool.  Rotations move full blocks only.
 */
module DebraReclaims {
  import opened Limbo
  import opened Debra
  import opened DebraProof
  import B = BlockBags

  // ---------------------------------------------------------------- runs of one thread

  // A rotation takes what fills blocks.
  ghost predicate TakesBlocks(s: State, t: nat, s': State)
    requires t < |s.th| && s.th[t].pc.Rotating?
  {
    var bag := InBag(s.objs, t, NextIndex(s.th[t].index));
    exists out :: out <= bag && |out| == |bag| - |bag| % B.BLOCK_SIZE && s' == Rotate(s, t, out)
  }

  ghost predicate Goes(s: State, t: nat, s': State) {
    StepBy(s, t, s') && (s.th[t].pc.Rotating? ==> TakesBlocks(s, t, s'))
  }

  ghost predicate Alone(c: seq<State>, t: nat) { |c| > 0 && forall i :: 0 <= i < |c| - 1 ==> Goes(c[i], t, c[i + 1]) }

  // Thread `t` can get from `s` to `s'` alone.
  ghost predicate Gets(s: State, t: nat, s': State) { exists c :: Alone(c, t) && c[0] == s && c[|c| - 1] == s' }

  lemma Stays(s: State, t: nat)
    ensures Gets(s, t, s)
  {
    assert Alone([s], t) && [s][|[s]| - 1] == s;
  }

  lemma Then(s: State, t: nat, m: State, s': State)
    requires Gets(s, t, m) && Goes(m, t, s')
    ensures Gets(s, t, s')
  {
    var c :| Alone(c, t) && c[0] == s && c[|c| - 1] == m;
    var d := c + [s'];
    forall i | 0 <= i < |d| - 1 ensures Goes(d[i], t, d[i + 1]) {
      if i < |c| - 1 { assert Goes(c[i], t, c[i + 1]); } else { assert d[i] == m; }
    }
    assert Alone(d, t) && d[|d| - 1] == s';
  }

  lemma Joins(s: State, t: nat, m: State, s': State)
    requires Gets(s, t, m) && Gets(m, t, s')
    ensures Gets(s, t, s')
  {
    var c :| Alone(c, t) && c[0] == s && c[|c| - 1] == m;
    var e :| Alone(e, t) && e[0] == m && e[|e| - 1] == s';
    var d := c + e[1..];
    forall i | 0 <= i < |d| - 1 ensures Goes(d[i], t, d[i + 1]) {
      if i < |c| - 1 {
        assert Goes(c[i], t, c[i + 1]);
      } else {
        var k := i - (|c| - 1);
        assert Goes(e[k], t, e[k + 1]) && d[i] == e[k] && d[i + 1] == e[k + 1];
      }
    }
    assert Alone(d, t) && d[|d| - 1] == s';
  }

  // ---------------------------------------------------------------- one operation

  // Thread `t` is between operations, and the others are quiescent.
  ghost predicate Ready(s: State, t: nat) {
    && Inv(s) && t < |s.th| && s.th[t].pc.Outside? && s.th[t].opsSinceRead < MIN_OPS_BEFORE_READ
    && forall u: nat :: u < |s.th| && u != t ==> Quiescent(s.th[u].announced)
  }

  predicate Stale(s: State, t: nat) requires t < |s.th| { s.epoch != s.th[t].local }

  // How many threads `t` has checked when it scans.
  function Checked(s: State, t: nat): nat requires t < |s.th| { if Stale(s, t) then 0 else s.th[t].checked }

  predicate Scans(s: State, t: nat) requires t < |s.th| { s.th[t].opsSinceRead + 1 == MIN_OPS_BEFORE_READ }

  // The other threads are where they were.
  ghost predicate OnlyMoves(s: State, t: nat, s': State) {
    |s'.th| == |s.th| && forall u: nat :: u < |s.th| && u != t ==> s'.th[u] == s.th[u]
  }

  // What one operation of thread `t` does.
  ghost predicate Operated(s: State, t: nat, s': State) {
    && Ready(s, t) && Ready(s', t) && OnlyMoves(s, t, s')
    && var x, x' := s.th[t], s'.th[t];
       && x'.local == s.epoch && x'.index == (if Stale(s, t) then NextIndex(x.index) else x.index)
       && (if Scans(s, t) then
             && x'.opsSinceRead == 0 && x'.checked == Checked(s, t) + 1
             && s'.epoch == if Checked(s, t) + 1 >= |s.th| then s.epoch + EPOCH_INCREMENT else s.epoch
           else x'.opsSinceRead == x.opsSinceRead + 1 && x'.checked == Checked(s, t) && s'.epoch == s.epoch)
  }

  // Where objects go when `bag` is rotated out, or nothing is.
  ghost predicate Moved(objs: Objs, t: nat, objs': Objs, k: nat, rotates: bool) {
    && objs'.Keys == objs.Keys
    && (forall y :: y in objs && objs'[y].loc != objs[y].loc ==>
          || (objs[y].loc == Freeable(t) && objs'[y].loc == Pool)
          || (rotates && objs[y].loc == Bag(t, k) && (objs'[y].loc == Freeable(t) || objs'[y].loc == Pool)))
    && (rotates && |InBag(objs, t, k)| % B.BLOCK_SIZE == 0 ==> forall y :: y in objs && objs[y].loc == Bag(t, k) ==>
          objs'[y].loc == Freeable(t) || objs'[y].loc == Pool)
    // one object is taken from what is to be freed
    && ((exists y :: y in objs && objs[y].loc == Freeable(t)) ==>
          exists y :: y in objs && objs[y].loc != Pool && objs'[y].loc == Pool)
  }

  lemma {:induction false} SomeOf(bag: set<nat>, n: nat) returns (out: set<nat>)
    requires n <= |bag|
    ensures out <= bag && |out| == n
  {
    out := {};
    if n > 0 {
      out := SomeOf(bag, n - 1);
      assert |bag - out| == |bag| - |out|;
      var y :| y in bag - out;
      out := out + {y};
    }
  }

  lemma Rotates(s: State, t: nat) returns (s': State)
    requires Inv(s) && t < |s.th| && s.th[t].pc.Rotating?
    ensures Goes(s, t, s') && Inv(s') && s'.epoch == s.epoch
    ensures s'.th == s.th[t := s.th[t].(index := NextIndex(s.th[t].index), pc := Draining(s.th[t].pc.r),
                                        rot := s.th[t].pc.r)]
    ensures RotatedOut(s.objs, s'.objs, t, NextIndex(s.th[t].index), true)
  {
    var bag := InBag(s.objs, t, NextIndex(s.th[t].index));
    var out := SomeOf(bag, |bag| - |bag| % B.BLOCK_SIZE);
    s' := Rotate(s, t, out);
    assert TakesBlocks(s, t, s');
    RotateKeeps(s, t, out);
    if |bag| % B.BLOCK_SIZE == 0 { SameSet(out, bag); }
  }

  lemma SameSet(a: set<nat>, b: set<nat>)
    requires a <= b && |a| == |b|
    ensures a == b
  {
    assert |b - a| == |b| - |a|;
  }

  lemma Drains(s: State, t: nat) returns (s': State)
    requires Inv(s) && t < |s.th| && s.th[t].pc.Draining?
    ensures Goes(s, t, s') && Inv(s') && s'.epoch == s.epoch
    ensures s'.th == s.th[t := s.th[t].(pc := Announcing(s.th[t].pc.r))] && DrainedOne(s.objs, s'.objs, t)
  {
    var out: set<nat> := {};
    if y :| y in s.objs && s.objs[y].loc == Freeable(t) { out := {y}; }
    assert DrainsOne(s.objs, t, out);
    s' := Drain(s, t, out);
    DrainKeeps(s, t, out);
  }

  // startOp up to the announcement.
  lemma Starts(s: State, t: nat) returns (s': State)
    requires Ready(s, t)
    ensures Gets(s, t, s') && Inv(s') && s'.epoch == s.epoch && OnlyMoves(s, t, s')
    ensures var x, x' := s.th[t], s'.th[t];
            && x'.pc == Announcing(s.epoch) && x'.local == s.epoch && x'.opsSinceRead == x.opsSinceRead
            && x'.checked == Checked(s, t) && x'.index == (if Stale(s, t) then NextIndex(x.index) else x.index)
    ensures Moved(s.objs, t, s'.objs, NextIndex(s.th[t].index), Stale(s, t))
  {
    var a := Begin(s, t);
    BeginKeeps(s, t);
    Stays(s, t);
    Then(s, t, s, a);
    var c := a;
    if Stale(s, t) {
      c := Rotates(a, t);
      Then(s, t, a, c);
    }
    s' := Drains(c, t);
    Then(s, t, c, s');
    var k := NextIndex(s.th[t].index);
    assert RotatedOut(s.objs, c.objs, t, k, Stale(s, t));
    BothMove(s.objs, c.objs, t, s'.objs, k, Stale(s, t));
  }

  // What a rotation moves, and what a drain moves.
  ghost predicate RotatedOut(objs: Objs, objs': Objs, t: nat, k: nat, rotates: bool) {
    && objs'.Keys == objs.Keys
    && (forall y :: y in objs && objs'[y] != objs[y] ==>
          rotates && objs[y].loc == Bag(t, k) && objs'[y].loc == Freeable(t))
    && (rotates && |InBag(objs, t, k)| % B.BLOCK_SIZE == 0 ==>
          forall y :: y in objs && objs[y].loc == Bag(t, k) ==> objs'[y].loc == Freeable(t))
  }

  ghost predicate DrainedOne(objs: Objs, objs': Objs, t: nat) {
    && objs'.Keys == objs.Keys
    && (forall y :: y in objs && objs'[y] != objs[y] ==> objs[y].loc == Freeable(t) && objs'[y].loc == Pool)
    && ((exists y :: y in objs && objs[y].loc == Freeable(t)) ==>
          exists y :: y in objs && objs[y].loc == Freeable(t) && objs'[y].loc == Pool)
  }

  lemma BothMove(objs: Objs, mid: Objs, t: nat, objs': Objs, k: nat, rotates: bool)
    requires RotatedOut(objs, mid, t, k, rotates) && DrainedOne(mid, objs', t)
    ensures Moved(objs, t, objs', k, rotates)
  {
    if y :| y in objs && objs[y].loc == Freeable(t) {
      assert mid[y] == objs[y];
      var z :| z in mid && mid[z].loc == Freeable(t) && objs'[z].loc == Pool;
      assert objs[z].loc != Pool;
    }
  }

  // The scan, with the result that a single thread has.
  lemma Checks(s: State, t: nat, r: int) returns (s': State)
    requires Inv(s) && t < |s.th| && s.th[t].pc == Announcing(r) && s.epoch == r
    requires forall u: nat :: u < |s.th| && u != t ==> Quiescent(s.th[u].announced)
    ensures Gets(s, t, s') && Inv(s') && OnlyMoves(s, t, s') && s'.objs == s.objs && s'.epoch == r
    ensures var x, x' := s.th[t], s'.th[t];
            && x'.local == x.local && x'.index == x.index
            && (if Scans(s, t) then
                  && x'.opsSinceRead == 0 && x'.checked == x.checked + 1
                  && x'.pc == if x.checked + 1 >= |s.th| then Advancing(r) else Inside
                else x'.opsSinceRead == x.opsSinceRead + 1 && x'.checked == x.checked && x'.pc == Inside)
  {
    var a := Announce(s, t);
    AnnounceKeeps(s, t);
    Stays(s, t);
    Then(s, t, s, a);
    CheckedIsIndex(a, t);
    assert ThreadInv(s.epoch, |s.th|, s.th[t]);
    assert Agrees(a.th[a.th[t].checked].announced, r);
    s' := Scan(a, t);
    ScanKeeps(a, t);
    Then(s, t, a, s');
  }

  // The rest of the operation.
  lemma Ends(s: State, t: nat, r: int) returns (s': State)
    requires Inv(s) && t < |s.th| && s.th[t].pc == Announcing(r) && s.epoch == r
    requires forall u: nat :: u < |s.th| && u != t ==> Quiescent(s.th[u].announced)
    ensures Gets(s, t, s') && Inv(s') && OnlyMoves(s, t, s') && s'.objs == s.objs
    ensures var x, x' := s.th[t], s'.th[t];
            && x'.pc.Outside? && x'.local == x.local && x'.index == x.index
            && (if Scans(s, t) then
                  && x'.opsSinceRead == 0 && x'.checked == x.checked + 1
                  && s'.epoch == if x.checked + 1 >= |s.th| then s.epoch + EPOCH_INCREMENT else s.epoch
                else x'.opsSinceRead == x.opsSinceRead + 1 && x'.checked == x.checked && s'.epoch == s.epoch)
  {
    var c := Checks(s, t, r);
    var d := c;
    if c.th[t].pc.Advancing? {
      d := Advance(c, t);
      AdvanceKeeps(c, t);
      Then(s, t, c, d);
    }
    s' := EndOp(d, t);
    EndKeeps(d, t);
    Then(s, t, d, s');
  }

  lemma Operates(s: State, t: nat) returns (s': State)
    requires Ready(s, t)
    ensures Gets(s, t, s') && Operated(s, t, s')
    ensures Moved(s.objs, t, s'.objs, NextIndex(s.th[t].index), Stale(s, t))
  {
    var a := Starts(s, t);
    s' := Ends(a, t, s.epoch);
    Joins(s, t, a, s');
  }

  // ---------------------------------------------------------------- one epoch

  // The objects `xs` fill bag `k` of thread `t`, or have left it.
  ghost predicate Left(s: State, t: nat, xs: set<nat>) {
    forall y :: y in xs ==> y in s.objs && (s.objs[y].loc == Freeable(t) || s.objs[y].loc == Pool)
  }

  ghost predicate Tracked(s: State, t: nat, xs: set<nat>, k: nat) { InBag(s.objs, t, k) == xs || Left(s, t, xs) }

  lemma MovesTracked(s: State, t: nat, xs: set<nat>, k: nat, s': State, j: nat, rotates: bool)
    requires Moved(s.objs, t, s'.objs, j, rotates) && Tracked(s, t, xs, k) && |xs| % B.BLOCK_SIZE == 0
    ensures Tracked(s', t, xs, k) && (Left(s, t, xs) || (rotates && j == k) ==> Left(s', t, xs))
  {
    if Left(s, t, xs) {
    } else if rotates && j == k {
      forall y | y in xs ensures y in s'.objs && (s'.objs[y].loc == Freeable(t) || s'.objs[y].loc == Pool) {
        assert y in InBag(s.objs, t, k);
      }
    } else {
      forall y ensures y in InBag(s'.objs, t, k) <==> y in xs { assert y in xs <==> y in InBag(s.objs, t, k); }
    }
  }

  // Thread `t` goes on until the epoch has moved.
  lemma {:induction false} Waits(s: State, t: nat, xs: set<nat>, k: nat) returns (s': State)
    requires Ready(s, t) && !Stale(s, t) && Tracked(s, t, xs, k) && |xs| % B.BLOCK_SIZE == 0
    ensures Gets(s, t, s') && Ready(s', t) && Stale(s', t) && s'.th[t].index == s.th[t].index
    ensures OnlyMoves(s, t, s')
    ensures s'.epoch == s.epoch + EPOCH_INCREMENT
    ensures Tracked(s', t, xs, k) && (Left(s, t, xs) ==> Left(s', t, xs))
    decreases |s.th| - s.th[t].checked, MIN_OPS_BEFORE_READ - s.th[t].opsSinceRead
  {
    assert ThreadInv(s.epoch, |s.th|, s.th[t]);
    var a := Operates(s, t);
    MovesTracked(s, t, xs, k, a, NextIndex(s.th[t].index), false);
    if a.epoch == s.epoch {
      s' := Waits(a, t, xs, k);
      Joins(s, t, a, s');
    } else {
      s' := a;
    }
  }

  // One epoch: the bags rotate if they have not yet, and the epoch moves.
  lemma Round(s: State, t: nat, xs: set<nat>, k: nat) returns (s': State)
    requires Ready(s, t) && Stale(s, t) && Tracked(s, t, xs, k) && |xs| % B.BLOCK_SIZE == 0
    ensures Gets(s, t, s') && Ready(s', t) && Stale(s', t) && s'.th[t].index == NextIndex(s.th[t].index)
    ensures OnlyMoves(s, t, s')
    ensures s'.epoch == s.epoch + EPOCH_INCREMENT
    ensures Tracked(s', t, xs, k) && (Left(s, t, xs) || NextIndex(s.th[t].index) == k ==> Left(s', t, xs))
  {
    var a := Operates(s, t);
    MovesTracked(s, t, xs, k, a, NextIndex(s.th[t].index), true);
    if a.epoch == s.epoch {
      s' := Waits(a, t, xs, k);
      Joins(s, t, a, s');
    } else {
      s' := a;
    }
  }

  // ---------------------------------------------------------------- to the pool

  function NotPooled(objs: Objs): set<nat> { set y | y in objs && objs[y].loc != Pool }

  ghost predicate Pooled(s: State, xs: set<nat>) { forall y :: y in xs ==> y in s.objs && s.objs[y].loc == Pool }

  lemma FewerLeft(objs: Objs, t: nat, objs': Objs, k: nat, rotates: bool)
    requires Moved(objs, t, objs', k, rotates) && exists y :: y in objs && objs[y].loc == Freeable(t)
    ensures |NotPooled(objs')| < |NotPooled(objs)|
  {
    var z :| z in objs && objs[z].loc != Pool && objs'[z].loc == Pool;
    assert NotPooled(objs') <= NotPooled(objs) - {z};
    Smaller(NotPooled(objs'), NotPooled(objs) - {z});
  }

  lemma Smaller(a: set<nat>, b: set<nat>)
    requires a <= b
    ensures |a| <= |b|
  {
    assert |b - a| == |b| - |a|;
  }

  lemma {:induction false} DrainsAll(s: State, t: nat, xs: set<nat>) returns (s': State)
    requires Ready(s, t) && Left(s, t, xs) && |xs| % B.BLOCK_SIZE == 0
    ensures Gets(s, t, s') && Ready(s', t) && Pooled(s', xs) && OnlyMoves(s, t, s')
    decreases |NotPooled(s.objs)|
  {
    if y :| y in xs && s.objs[y].loc == Freeable(t) {
      var a := Operates(s, t);
      var k := NextIndex(s.th[t].index);
      MovesTracked(s, t, xs, k, a, k, Stale(s, t));
      FewerLeft(s.objs, t, a.objs, k, Stale(s, t));
      s' := DrainsAll(a, t, xs);
      Joins(s, t, a, s');
    } else {
      s' := s;
      Stays(s, t);
    }
  }

  // ---------------------------------------------------------------- the theorem

  lemma OpsStep(s: State, s': State, t: nat)
    requires Inv(s) && Step(s, s') && t < |s.th| == |s'.th| && s.th[t].opsSinceRead < MIN_OPS_BEFORE_READ
    ensures s'.th[t].opsSinceRead < MIN_OPS_BEFORE_READ
  {
    var u: nat :| StepBy(s, u, s');
    if s.th[u].pc.Scanning? { CheckedIsIndex(s, u); }
  }

  lemma {:induction false} OpsSmall(b: seq<State>, i: nat, t: nat)
    requires Run(b) && i < |b| && t < |b[0].th|
    ensures t < |b[i].th| && b[i].th[t].opsSinceRead < MIN_OPS_BEFORE_READ
  {
    RunKeeps(b, i);
    if i > 0 {
      OpsSmall(b, i - 1, t);
      RunKeeps(b, i - 1);
      assert StepAt(b, i - 1);
      OpsStep(b[i - 1], b[i], t);
    }
  }

  lemma ThreeTurns(k: nat)
    requires k < NUMBER_OF_EPOCH_BAGS
    ensures NextIndex(NextIndex(NextIndex(k))) == k
  {}

  lemma TwoRounds(s: State, t: nat, xs: set<nat>, k: nat) returns (s': State)
    requires Ready(s, t) && Stale(s, t) && Tracked(s, t, xs, k) && |xs| % B.BLOCK_SIZE == 0
    ensures Gets(s, t, s') && Ready(s', t) && Stale(s', t)
    ensures s'.th[t].index == NextIndex(NextIndex(s.th[t].index)) && Tracked(s', t, xs, k) && OnlyMoves(s, t, s')
  {
    var a := Round(s, t, xs, k);
    s' := Round(a, t, xs, k);
    Joins(s, t, a, s');
  }

  lemma LeavesBag(s: State, t: nat, xs: set<nat>, k: nat) returns (s': State)
    requires Ready(s, t) && Stale(s, t) && Tracked(s, t, xs, k) && |xs| % B.BLOCK_SIZE == 0 && s.th[t].index == k
    ensures Gets(s, t, s') && Ready(s', t) && Left(s', t, xs) && OnlyMoves(s, t, s')
  {
    assert ThreadInv(s.epoch, |s.th|, s.th[t]);
    ThreeTurns(k);
    var a := TwoRounds(s, t, xs, k);
    s' := Round(a, t, xs, k);
    Joins(s, t, a, s');
  }

  lemma Reclaims(s: State, t: nat, xs: set<nat>) returns (s': State)
    requires Ready(s, t) && xs == InBag(s.objs, t, s.th[t].index) && |xs| % B.BLOCK_SIZE == 0
    ensures Gets(s, t, s') && Ready(s', t) && Pooled(s', xs) && OnlyMoves(s, t, s')
  {
    var k := s.th[t].index;
    var a := s;
    Stays(s, t);
    if !Stale(s, t) { a := Waits(s, t, xs, k); }
    var c := LeavesBag(a, t, xs, k);
    Joins(s, t, a, c);
    s' := DrainsAll(c, t, xs);
    Joins(s, t, c, s');
  }

  /**
   From every reachable state in which thread `t` is between operations and no other thread has announced an operation,
   `t` alone can bring all objects of its current bag to the pool, if they fill whole blocks; the epoch advances
   on the way, and the other threads do nothing.
   */
  lemma SoloReclaims(b: seq<State>, t: nat) returns (s': State)
    requires Run(b) && t < |b[0].th| && t < |b[|b| - 1].th|
    requires var s := b[|b| - 1];
        && s.th[t].pc.Outside? && |InBag(s.objs, t, s.th[t].index)| % B.BLOCK_SIZE == 0
        && forall u: nat :: u < |s.th| && u != t ==> Quiescent(s.th[u].announced)
    ensures var s := b[|b| - 1];
        && Gets(s, t, s') && Pooled(s', InBag(s.objs, t, s.th[t].index)) && OnlyMoves(s, t, s')
  {
    var s := b[|b| - 1];
    RunKeeps(b, |b| - 1);
    OpsSmall(b, |b| - 1, t);
    s' := Reclaims(s, t, InBag(s.objs, t, s.th[t].index));
  }
}
