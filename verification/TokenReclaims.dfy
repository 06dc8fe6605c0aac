/**
 The token ring does reclaim: from every reachable state in which all threads are between operations, if the
 threads take
 turns, what fills a thread's current bag is in the pool after two rounds.  Rotations move full blocks only.
 */
module TokenReclaims {
  import opened Limbo
  import opened TokenEpoch
  import B = BlockBags

  // ---------------------------------------------------------------- runs

  // A rotation takes what fills blocks.
  ghost predicate TakesBlocks(s: State, t: nat, s': State)
    requires t < |s.th| && s.th[t].curr <= 1
  {
    var bag := InBag(s.objs, t, 1 - s.th[t].curr);
    exists out :: out <= bag && |out| == |bag| - |bag| % B.BLOCK_SIZE && s' == Rotate(s, t, out)
  }

  ghost predicate GoesBy(s: State, t: nat, s': State) {
    StepBy(s, t, s') && (s.th[t].pc.Rotating? && s.th[t].curr <= 1 ==> TakesBlocks(s, t, s'))
  }

  ghost predicate Goes(s: State, s': State) { exists t: nat :: GoesBy(s, t, s') }

  ghost predicate Chain(c: seq<State>) { |c| > 0 && forall i :: 0 <= i < |c| - 1 ==> Goes(c[i], c[i + 1]) }

  // Some steps lead from `s` to `s'`.
  ghost predicate Gets(s: State, s': State) { exists c :: Chain(c) && c[0] == s && c[|c| - 1] == s' }

  lemma Stays(s: State)
    ensures Gets(s, s)
  {
    assert Chain([s]) && [s][|[s]| - 1] == s;
  }

  lemma Then(s: State, m: State, t: nat, s': State)
    requires Gets(s, m) && GoesBy(m, t, s')
    ensures Gets(s, s')
  {
    var c :| Chain(c) && c[0] == s && c[|c| - 1] == m;
    var d := c + [s'];
    assert Goes(m, s');
    forall i | 0 <= i < |d| - 1 ensures Goes(d[i], d[i + 1]) {
      if i < |c| - 1 { assert Goes(c[i], c[i + 1]); } else { assert d[i] == m; }
    }
    assert Chain(d) && d[|d| - 1] == s';
  }

  lemma Joins(s: State, m: State, s': State)
    requires Gets(s, m) && Gets(m, s')
    ensures Gets(s, s')
  {
    var c :| Chain(c) && c[0] == s && c[|c| - 1] == m;
    var e :| Chain(e) && e[0] == m && e[|e| - 1] == s';
    var d := c + e[1..];
    forall i | 0 <= i < |d| - 1 ensures Goes(d[i], d[i + 1]) {
      if i < |c| - 1 {
        assert Goes(c[i], c[i + 1]);
      } else {
        var k := i - (|c| - 1);
        assert Goes(e[k], e[k + 1]) && d[i] == e[k] && d[i + 1] == e[k + 1];
      }
    }
    assert Chain(d) && d[|d| - 1] == s';
  }

  // ---------------------------------------------------------------- one turn

  ghost predicate Resting(s: State) { forall u: nat :: u < |s.th| ==> s.th[u].pc.Outside? }
  ghost predicate AllRest(s: State) { Inv(s) && Resting(s) }

  // What a turn of thread `u` does to the objects.
  ghost predicate Emptied(objs: Objs, u: nat, k: nat, objs': Objs) {
    && objs'.Keys == objs.Keys
    && (forall y :: y in objs && objs'[y] != objs[y] ==> objs[y].loc == Bag(u, k) && objs'[y].loc == Pool)
    && (|InBag(objs, u, k)| % B.BLOCK_SIZE == 0 ==> forall y :: y in objs && objs[y].loc == Bag(u, k) ==>
          objs'[y].loc == Pool)
  }

  ghost predicate Turned(s: State, u: nat, s': State) {
    && u < |s.th| == |s'.th| && s.th[u].curr <= 1 && s'.passes == s.passes + 1
    && s'.th[u].curr == 1 - s.th[u].curr && s'.th[u].tokenCount == s.th[u].tokenCount + 1
    && (forall v: nat :: v < |s.th| && v != u ==>
          s'.th[v].curr == s.th[v].curr && s'.th[v].tokenCount == s.th[v].tokenCount)
    && Emptied(s.objs, u, 1 - s.th[u].curr, s'.objs)
  }

  lemma {:induction false} SomeOf(bag: set<nat>, n: nat) returns (out: set<nat>)
    requires n <= |bag|
    ensures out <= bag && |out| == n
  {
    out := {};
    if n > 0 {
      out := SomeOf(bag, n - 1);
      assert |bag - out| == |bag| - |out|;
      var y :| y in bag - out;
      out := out + {y};
    }
  }

  lemma Rotates(s: State, u: nat) returns (s': State)
    requires Inv(s) && u < |s.th| && s.th[u].pc.Rotating? && s.th[u].curr <= 1
    ensures GoesBy(s, u, s') && Inv(s') && s'.passes == s.passes && Emptied(s.objs, u, 1 - s.th[u].curr, s'.objs)
    ensures s'.th == s.th[u := s.th[u].(curr := 1 - s.th[u].curr, pc := Inside)]
  {
    var bag := InBag(s.objs, u, 1 - s.th[u].curr);
    var out := SomeOf(bag, |bag| - |bag| % B.BLOCK_SIZE);
    s' := Rotate(s, u, out);
    assert TakesBlocks(s, u, s');
    RotateKeeps(s, u, out);
    if |bag| % B.BLOCK_SIZE == 0 { assert |bag - out| == |bag| - |out|; }
  }

  // The thread that has the token begins an operation and hands the token on.
  lemma HandsOn(s: State, u: nat) returns (d: State)
    requires AllRest(s) && u < |s.th| && s.th[u].token
    ensures Gets(s, d) && Inv(d) && |d.th| == |s.th| && d.objs == s.objs && d.passes == s.passes + 1
    ensures d.th[u].pc.Rotating? && d.th[u].curr == s.th[u].curr && d.th[u].tokenCount == s.th[u].tokenCount + 1
    ensures forall v: nat :: v < |s.th| && v != u ==>
              d.th[v].pc.Outside? && d.th[v].curr == s.th[v].curr && d.th[v].tokenCount == s.th[v].tokenCount
  {
    Stays(s);
    var a := Begin(s, u);
    BeginKeeps(s, u);
    Then(s, s, u, a);
    var c := Clear(a, u);
    ClearKeeps(a, u);
    Then(s, a, u, c);
    d := Pass(c, u);
    PassKeeps(c, u);
    Then(s, c, u, d);
  }

  lemma Turns(s: State, u: nat) returns (s': State)
    requires AllRest(s) && u < |s.th| && s.th[u].token
    ensures Gets(s, s') && AllRest(s') && Turned(s, u, s')
  {
    assert ThreadInv(|s.th|, s.passes, u, s.th[u]);
    var d := HandsOn(s, u);
    var e := Rotates(d, u);
    Then(s, d, u, e);
    s' := EndsOp(s, e, u);
  }

  lemma EndsOp(s: State, e: State, u: nat) returns (s': State)
    requires Gets(s, e) && Inv(e) && u < |e.th| && e.th[u].pc.Inside?
    ensures Gets(s, s') && Inv(s') && s' == SetPc(e, u, Outside)
  {
    s' := SetPc(e, u, Outside);
    EndKeeps(e, u);
    Then(s, e, u, s');
  }

  // Some thread has the token, and it is its turn.
  lemma Holder(s: State) returns (u: nat)
    requires AllRest(s)
    ensures u < |s.th| && s.th[u].token && NextTurn(|s.th|, u, s.th[u]) == s.passes
  {
    var n := |s.th|;
    u := s.passes % n;
    var x := s.th[u];
    assert ThreadInv(n, s.passes, u, x);
    var q := s.passes / n;
    assert NextTurn(n, u, x) - s.passes == (x.tokenCount - q) * n by {
      assert s.passes == q * n + u;
      assert (x.tokenCount - q) * n == x.tokenCount * n - q * n;
    }
    Multiple(n, x.tokenCount - q, NextTurn(n, u, x) - s.passes);
  }

  // ---------------------------------------------------------------- rounds

  // The objects `xs` are bag `k` of thread `t`, or in the pool.
  ghost predicate Pooled(s: State, xs: set<nat>) { forall y :: y in xs ==> y in s.objs && s.objs[y].loc == Pool }
  ghost predicate Tracked(s: State, t: nat, xs: set<nat>, k: nat) { InBag(s.objs, t, k) == xs || Pooled(s, xs) }

  lemma TurnTracked(s: State, u: nat, s': State, t: nat, xs: set<nat>, k: nat)
    requires Turned(s, u, s') && Tracked(s, t, xs, k) && |xs| % B.BLOCK_SIZE == 0
    ensures Tracked(s', t, xs, k) && (Pooled(s, xs) || (u == t && k == 1 - s.th[u].curr) ==> Pooled(s', xs))
  {
    if Pooled(s, xs) {
    } else if u == t && k == 1 - s.th[u].curr {
      forall y | y in xs ensures y in s'.objs && s'.objs[y].loc == Pool { assert y in InBag(s.objs, t, k); }
    } else {
      forall y ensures y in InBag(s'.objs, t, k) <==> y in xs { assert y in xs <==> y in InBag(s.objs, t, k); }
    }
  }

  // The threads take turns until thread `t` has had its own.
  lemma {:induction false} TillTurn(s: State, t: nat, xs: set<nat>, k: nat) returns (s': State)
    requires AllRest(s) && t < |s.th| && Tracked(s, t, xs, k) && |xs| % B.BLOCK_SIZE == 0
    ensures Gets(s, s') && AllRest(s') && |s'.th| == |s.th| && s'.th[t].curr == 1 - s.th[t].curr
    ensures Tracked(s', t, xs, k) && (Pooled(s, xs) || k == 1 - s.th[t].curr ==> Pooled(s', xs))
    decreases NextTurn(|s.th|, t, s.th[t]) - s.passes
  {
    assert ThreadInv(|s.th|, s.passes, t, s.th[t]);
    var u := Holder(s);
    var a := Turns(s, u);
    TurnTracked(s, u, a, t, xs, k);
    if u == t {
      s' := a;
    } else {
      assert ThreadInv(|a.th|, a.passes, t, a.th[t]);
      s' := TillTurn(a, t, xs, k);
      Joins(s, a, s');
    }
  }

  /**
   From every reachable state in which all threads are between operations, all objects of thread `t`'s current bag can
   get to the pool, if they fill whole blocks.
   */
  lemma RingReclaims(b: seq<State>, t: nat) returns (s': State)
    requires Run(b) && t < |Last(b).th| && Resting(Last(b)) && |Current(Last(b), t)| % B.BLOCK_SIZE == 0
    ensures Gets(Last(b), s') && Pooled(s', Current(Last(b), t))
  {
    var s := Last(b);
    RunKeeps(b, |b| - 1);
    assert ThreadInv(|s.th|, s.passes, t, s.th[t]);
    var xs, k := Current(s, t), s.th[t].curr;
    var a := TillTurn(s, t, xs, k);
    s' := TillTurn(a, t, xs, k);
    Joins(s, a, s');
  }

  function Last(b: seq<State>): State requires |b| > 0 { b[|b| - 1] }

  // The objects that thread `t` has retired since its last turn, and leftovers.
  function Current(s: State, t: nat): set<nat> requires t < |s.th| { InBag(s.objs, t, s.th[t].curr) }
}
