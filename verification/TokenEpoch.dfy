/**
 Epoch-based reclamation with a token passed around a ring and two bags for each thread.

 One step runs a thread up to and including its next access to a token.  `passes` counts how often
 the token was handed on; it, `opNo` and the objects' stamps and holders record the past.
 */
module TokenEpoch {
  import opened Limbo

  datatype Pc =
    | Outside
    | Clearing      // found the token, tokenCount already incremented
    | Passing       // cleared its own token
    | Rotating
    | Inside

  datatype Thread = Thread(pc: Pc, token: bool, tokenCount: nat, curr: nat, opNo: nat)    // bag `1 - curr` is `last`

  datatype State = State(th: seq<Thread>, objs: Objs, passes: nat)

  predicate Active(x: Thread) { !x.pc.Outside? }

  function Running(th: seq<Thread>): set<OpRef> {
    set u: nat | u < |th| && Active(th[u]) :: OpRef(u, th[u].opNo)
  }

  function Next(t: nat, n: nat): nat requires n > 0 { (t + 1) % n }

  function SetPc(s: State, t: nat, pc: Pc): State requires t < |s.th| { s.(th := s.th[t := s.th[t].(pc := pc)]) }

  // ---------------------------------------------------------------- steps of one thread

  function Begin(s: State, t: nat): State requires t < |s.th| {
    var x := s.th[t].(opNo := s.th[t].opNo + 1);
    s.(th := s.th[t := if x.token then x.(tokenCount := x.tokenCount + 1, pc := Clearing) else x.(pc := Inside)])
  }

  function Clear(s: State, t: nat): State requires t < |s.th| {
    s.(th := s.th[t := s.th[t].(token := false, pc := Passing)])
  }

  function Pass(s: State, t: nat): State requires t < |s.th| {
    var th := s.th[t := s.th[t].(pc := Rotating)];
    var v := Next(t, |s.th|);
    s.(th := th[v := th[v].(token := true)], passes := s.passes + 1)
  }

  // The emptied `last` becomes `curr`; only full blocks leave it.
  function Rotate(s: State, t: nat, out: set<nat>): State requires t < |s.th| && s.th[t].curr <= 1 {
    s.(th := s.th[t := s.th[t].(curr := 1 - s.th[t].curr, pc := Inside)], objs := MoveOut(s.objs, out, Pool))
  }

  function Retire(s: State, t: nat, x: nat): State requires t < |s.th| {
    s.(objs := s.objs[x := Obj(s.passes, Running(s.th), Bag(t, s.th[t].curr))])
  }

  ghost predicate StepBy(s: State, t: nat, s': State) {
    && t < |s.th|
    && match s.th[t].pc
       case Outside => s' == Begin(s, t) || (exists o :: o !in s.objs && s' == Retire(s, t, o))
       case Clearing => s' == Clear(s, t)
       case Passing => s' == Pass(s, t)
       case Rotating => s.th[t].curr <= 1 && exists out ::
           out <= InBag(s.objs, t, 1 - s.th[t].curr) && s' == Rotate(s, t, out)
       case Inside => s' == SetPc(s, t, Outside) || (exists o :: o !in s.objs && s' == Retire(s, t, o))
  }

  ghost predicate Step(s: State, s': State) { exists t: nat :: StepBy(s, t, s') }

  ghost predicate InitState(s: State) {
    && |s.th| > 0 && s.objs == map[] && s.passes == 0
    && forall t :: 0 <= t < |s.th| ==> s.th[t] == Thread(Outside, t == 0, 0, 0, 0)
  }

  ghost predicate StepAt(b: seq<State>, i: int) { 0 <= i < |b| - 1 && Step(b[i], b[i + 1]) }

  ghost predicate Run(b: seq<State>) {
    |b| > 0 && InitState(b[0]) && forall i :: 0 <= i < |b| - 1 ==> StepAt(b, i)
  }

  // ---------------------------------------------------------------- the ring

  // The pass at which thread `u` will next take the token: pass `p` is made by thread `p % n`.
  function NextTurn(n: nat, u: nat, x: Thread): int { x.tokenCount * n + u }

  predicate Holding(x: Thread) { x.pc.Clearing? || x.pc.Passing? }
  predicate Turning(x: Thread) { Holding(x) || x.pc.Rotating? }

  predicate ThreadInv(n: nat, passes: nat, u: nat, x: Thread) {
    && x.curr <= 1
    && passes <= NextTurn(n, u, x) <= passes + n
    && (NextTurn(n, u, x) == passes <==> x.token && !Holding(x))
    && (NextTurn(n, u, x) == passes + n <==> Holding(x))
    && (x.pc.Clearing? ==> x.token)
    && (x.pc.Passing? ==> !x.token)
    && (x.token && !Holding(x) ==> NextTurn(n, u, x) == passes)
    && (x.token && !x.pc.Clearing? ==> NextTurn(n, u, x) == passes)
  }

  ghost predicate ThreadsInv(s: State) { forall u :: 0 <= u < |s.th| ==> ThreadInv(|s.th|, s.passes, u, s.th[u]) }

  // ---------------------------------------------------------------- the bags

  predicate BagInv(n: nat, passes: nat, t: nat, x: Thread, k: nat, stamp: int) {
    && k <= 1
    && stamp <= passes
    && (Turning(x) ==> stamp <= NextTurn(n, t, x) - n)
    && (k != x.curr ==> stamp <= NextTurn(n, t, x) - (if Turning(x) then 2 * n else n))
  }

  // A holder of the object that still runs took the token at most until the object was retired.
  predicate HolderInv(th: seq<Thread>, h: OpRef, stamp: int) {
    && h.tid < |th| && h.no <= th[h.tid].opNo
    && (h.no == th[h.tid].opNo && Active(th[h.tid]) ==> NextTurn(|th|, h.tid, th[h.tid]) <= stamp + |th|)
  }

  predicate Ended(th: seq<Thread>, h: OpRef) {
    h.tid < |th| && (h.no < th[h.tid].opNo || (h.no == th[h.tid].opNo && !Active(th[h.tid])))
  }

  ghost predicate AllEnded(th: seq<Thread>, hs: set<OpRef>) { forall h :: h in hs ==> Ended(th, h) }

  ghost predicate ObjInv(s: State, o: Obj) {
    && (forall h :: h in o.holders ==> HolderInv(s.th, h, o.stamp))
    && (o.loc.Bag? ==> o.loc.tid < |s.th| && BagInv(|s.th|, s.passes, o.loc.tid, s.th[o.loc.tid], o.loc.k, o.stamp))
    && (!o.loc.Bag? ==> AllEnded(s.th, o.holders))
  }

  ghost predicate ObjsInv(s: State) { forall x {:trigger s.objs[x]} :: x in s.objs ==> ObjInv(s, s.objs[x]) }
  ghost predicate Inv(s: State) { |s.th| > 0 && ThreadsInv(s) && ObjsInv(s) }

  // ---------------------------------------------------------------- preservation

  predicate TExt(x: Thread, x': Thread) {
    && x.opNo <= x'.opNo
    && (x'.opNo == x.opNo && Active(x') ==> Active(x) && x'.tokenCount == x.tokenCount)
  }

  ghost predicate Ext(s: State, s': State) {
    && |s'.th| == |s.th| && s.passes <= s'.passes
    && forall u :: 0 <= u < |s.th| ==> TExt(s.th[u], s'.th[u])
  }

  lemma ObjStable(s: State, s': State, o: Obj)
    requires Ext(s, s') && ObjInv(s, o)
    requires o.loc.Bag? ==> BagInv(|s.th|, s'.passes, o.loc.tid, s'.th[o.loc.tid], o.loc.k, o.stamp)
    ensures ObjInv(s', o)
  {
    forall h | h in o.holders ensures HolderInv(s'.th, h, o.stamp) && (!o.loc.Bag? ==> Ended(s'.th, h)) {
      assert TExt(s.th[h.tid], s'.th[h.tid]) && HolderInv(s.th, h, o.stamp);
    }
  }

  // A step that keeps the bags' contents and, for each thread, `curr`.
  predicate Mild(n: nat, passes: nat, u: nat, x: Thread, passes': nat, x': Thread) {
    && ThreadInv(n, passes', u, x') && TExt(x, x') && x'.curr == x.curr && passes <= passes'
    && (if Turning(x') && !Turning(x) then NextTurn(n, u, x') == NextTurn(n, u, x) + n == passes + n
        else x'.tokenCount == x.tokenCount && Turning(x') == Turning(x))
  }

  lemma MildKeeps(s: State, s': State)
    requires Inv(s) && |s'.th| == |s.th| && s'.objs == s.objs && s.passes <= s'.passes
    requires forall u :: 0 <= u < |s.th| ==> Mild(|s.th|, s.passes, u, s.th[u], s'.passes, s'.th[u])
    ensures Inv(s') && Ext(s, s')
  {
    forall x | x in s'.objs ensures ObjInv(s', s'.objs[x]) {
      var o := s.objs[x];
      assert ObjInv(s, o);
      if o.loc.Bag? { assert Mild(|s.th|, s.passes, o.loc.tid, s.th[o.loc.tid], s'.passes, s'.th[o.loc.tid]); }
      ObjStable(s, s', o);
    }
  }

  lemma OneMild(s: State, t: nat, s': State)
    requires Inv(s) && t < |s.th| == |s'.th| && s' == s.(th := s'.th) && s'.th == s.th[t := s'.th[t]]
    requires Mild(|s.th|, s.passes, t, s.th[t], s.passes, s'.th[t])
    ensures Inv(s') && Ext(s, s')
  {
    forall u | 0 <= u < |s.th| ensures Mild(|s.th|, s.passes, u, s.th[u], s'.passes, s'.th[u]) {
      assert ThreadInv(|s.th|, s.passes, u, s.th[u]);
    }
    MildKeeps(s, s');
  }

  // ---------------------------------------------------------------- whose turn it is

  lemma Scale(n: int, k: int)
    requires n >= 0
    ensures k >= 1 ==> k * n >= n
    ensures k >= 2 ==> k * n >= 2 * n
    ensures k <= -1 ==> k * n <= 0 - n
  {
    if k >= 1 { assert k * n == (k - 1) * n + n; }
    if k >= 2 { assert k * n == (k - 2) * n + 2 * n; }
    if k <= -1 { assert k * n == (k + 1) * n - n; }
  }

  lemma Multiple(n: int, k: int, r: int)
    requires k * n == r && -n < r < n
    ensures k == 0
  {
    Scale(n, k);
  }

  // Turns that fall on the same pass, or a whole round apart, belong to the same thread.
  lemma TurnUnique(n: nat, u: nat, x: Thread, v: nat, y: Thread)
    requires u < n && v < n && (NextTurn(n, u, x) == NextTurn(n, v, y) || NextTurn(n, u, x) == NextTurn(n, v, y) + n)
    ensures u == v
  {
    var e := if NextTurn(n, u, x) == NextTurn(n, v, y) then 0 else 1;
    assert (x.tokenCount - y.tokenCount - e) * n == x.tokenCount * n - y.tokenCount * n - e * n;
    Multiple(n, x.tokenCount - y.tokenCount - e, v - u);
  }

  lemma NextIs(t: nat, n: nat)
    requires t < n
    ensures Next(t, n) == if t + 1 == n then 0 else t + 1
  {}

  // Whoever follows the holder in the ring takes the token at the next pass.
  lemma FollowerTurn(n: nat, t: nat, x: Thread, v: nat, y: Thread, passes: nat)
    requires t < n && v == Next(t, n) && n > 1
    requires ThreadInv(n, passes, t, x) && Holding(x) && ThreadInv(n, passes, v, y)
    ensures NextTurn(n, v, y) == passes + 1
  {
    NextIs(t, n);
    var k := y.tokenCount - x.tokenCount + (if t + 1 == n then 0 else 1);
    assert passes == x.tokenCount * n + t - n;
    if t + 1 == n {
      assert NextTurn(n, v, y) - (passes + 1) == (y.tokenCount - x.tokenCount) * n;
    } else {
      assert NextTurn(n, v, y) - (passes + 1) == (y.tokenCount - x.tokenCount + 1) * n;
    }
    if NextTurn(n, v, y) == passes + n { TurnUnique(n, v, y, t, x); }
    Multiple(n, k, NextTurn(n, v, y) - (passes + 1));
  }

  // ---------------------------------------------------------------- each step

  lemma BeginKeeps(s: State, t: nat)
    requires Inv(s) && t < |s.th| && s.th[t].pc.Outside?
    ensures Inv(Begin(s, t)) && Ext(s, Begin(s, t))
  {
    assert ThreadInv(|s.th|, s.passes, t, s.th[t]);
    assert (s.th[t].tokenCount + 1) * |s.th| == s.th[t].tokenCount * |s.th| + |s.th|;
    OneMild(s, t, Begin(s, t));
  }

  lemma ClearKeeps(s: State, t: nat)
    requires Inv(s) && t < |s.th| && s.th[t].pc.Clearing?
    ensures Inv(Clear(s, t)) && Ext(s, Clear(s, t))
  {
    assert ThreadInv(|s.th|, s.passes, t, s.th[t]);
    OneMild(s, t, Clear(s, t));
  }

  lemma PassOther(s: State, t: nat, u: nat)
    requires Inv(s) && t < |s.th| && s.th[t].pc.Passing? && u < |s.th| && u != t
    ensures Mild(|s.th|, s.passes, u, s.th[u], s.passes + 1, Pass(s, t).th[u])
  {
    var n := |s.th|;
    assert ThreadInv(n, s.passes, t, s.th[t]) && ThreadInv(n, s.passes, u, s.th[u]);
    if NextTurn(n, u, s.th[u]) == s.passes || NextTurn(n, u, s.th[u]) == s.passes + n {
      TurnUnique(n, t, s.th[t], u, s.th[u]);
    }
    if u == Next(t, n) {
      FollowerTurn(n, t, s.th[t], u, s.th[u], s.passes);
    } else if NextTurn(n, u, s.th[u]) == s.passes + 1 {
      var v := Next(t, n);
      NextIs(t, n);
      assert ThreadInv(n, s.passes, v, s.th[v]);
      FollowerTurn(n, t, s.th[t], v, s.th[v], s.passes);
      TurnUnique(n, u, s.th[u], v, s.th[v]);
    }
  }

  lemma PassKeeps(s: State, t: nat)
    requires Inv(s) && t < |s.th| && s.th[t].pc.Passing?
    ensures Inv(Pass(s, t)) && Ext(s, Pass(s, t))
  {
    var n := |s.th|;
    var s' := Pass(s, t);
    NextIs(t, n);
    assert ThreadInv(n, s.passes, t, s.th[t]);
    forall u: nat | u < n ensures Mild(n, s.passes, u, s.th[u], s'.passes, s'.th[u]) {
      if u != t { PassOther(s, t, u); }
    }
    MildKeeps(s, s');
  }

  /** What the ring is for: when `last` is emptied nothing that was running at the retirement still runs. */
  lemma RotationIsSafe(s: State, t: nat, x: nat)
    requires Inv(s) && t < |s.th| && s.th[t].pc.Rotating? && s.th[t].curr <= 1
        && x in InBag(s.objs, t, 1 - s.th[t].curr)
    ensures AllEnded(s.th, s.objs[x].holders)
  {
    var o := s.objs[x];
    var n := |s.th|;
    assert ObjInv(s, o) && ThreadInv(n, s.passes, t, s.th[t]);
    assert o.stamp + n < s.passes;
    forall h | h in o.holders ensures Ended(s.th, h) {
      assert HolderInv(s.th, h, o.stamp);
      assert ThreadInv(n, s.passes, h.tid, s.th[h.tid]);
    }
  }

  lemma RotateKeeps(s: State, t: nat, out: set<nat>)
    requires Inv(s) && t < |s.th| && s.th[t].pc.Rotating? && s.th[t].curr <= 1
        && out <= InBag(s.objs, t, 1 - s.th[t].curr)
    ensures Inv(Rotate(s, t, out)) && Ext(s, Rotate(s, t, out))
  {
    var n := |s.th|;
    var s' := Rotate(s, t, out);
    assert ThreadInv(n, s.passes, t, s.th[t]);
    assert ThreadInv(n, s.passes, t, s'.th[t]);
    forall x | x in s'.objs ensures ObjInv(s', s'.objs[x]) {
      var o := s.objs[x];
      assert ObjInv(s, o);
      if x in out { RotationIsSafe(s, t, x); }
      ObjStable(s, s', s'.objs[x].(loc := o.loc));
    }
  }

  lemma RetireKeeps(s: State, t: nat, x: nat)
    requires Inv(s) && t < |s.th| && (s.th[t].pc.Outside? || s.th[t].pc.Inside?) && x !in s.objs
    ensures Inv(Retire(s, t, x)) && Ext(s, Retire(s, t, x))
  {
    var s' := Retire(s, t, x);
    assert ThreadInv(|s.th|, s.passes, t, s.th[t]);
    forall h | h in Running(s.th) ensures HolderInv(s.th, h, s.passes) {
      assert ThreadInv(|s.th|, s.passes, h.tid, s.th[h.tid]);
    }
    forall y | y in s'.objs ensures ObjInv(s', s'.objs[y]) {
      if y != x { assert ObjInv(s, s.objs[y]); ObjStable(s, s', s.objs[y]); }
    }
  }

  lemma EndKeeps(s: State, t: nat)
    requires Inv(s) && t < |s.th| && s.th[t].pc.Inside?
    ensures Inv(SetPc(s, t, Outside)) && Ext(s, SetPc(s, t, Outside))
  {
    assert ThreadInv(|s.th|, s.passes, t, s.th[t]);
    OneMild(s, t, SetPc(s, t, Outside));
  }

  lemma StepKeeps(s: State, s': State)
    requires Inv(s) && Step(s, s')
    ensures Inv(s') && Ext(s, s')
  {
    var t: nat :| StepBy(s, t, s');
    match s.th[t].pc
    case Outside =>
      if s' == Begin(s, t) { BeginKeeps(s, t); }
      else { var o :| o !in s.objs && s' == Retire(s, t, o); RetireKeeps(s, t, o); }
    case Clearing => ClearKeeps(s, t);
    case Passing => PassKeeps(s, t);
    case Rotating =>
      var out :| out <= InBag(s.objs, t, 1 - s.th[t].curr) && s' == Rotate(s, t, out);
      RotateKeeps(s, t, out);
    case Inside =>
      if s' == SetPc(s, t, Outside) { EndKeeps(s, t); }
      else { var o :| o !in s.objs && s' == Retire(s, t, o); RetireKeeps(s, t, o); }
  }

  lemma {:induction false} RunKeeps(b: seq<State>, i: nat)
    requires Run(b) && i < |b|
    ensures Inv(b[i]) && |b[i].th| == |b[0].th|
  {
    if i > 0 {
      RunKeeps(b, i - 1);
      assert StepAt(b, i - 1);
      StepKeeps(b[i - 1], b[i]);
    }
  }

  // ---------------------------------------------------------------- runs

  /** At most one thread has the token, and none has it while it is being passed. */
  lemma OneToken(b: seq<State>, i: nat, u: nat, v: nat)
    requires Run(b) && i < |b| && u < |b[i].th| && v < |b[i].th| && b[i].th[u].token
    ensures b[i].th[v].token ==> v == u
    ensures !b[i].th[v].pc.Passing?
  {
    RunKeeps(b, i);
    var n := |b[i].th|;
    var x, y := b[i].th[u], b[i].th[v];
    assert ThreadInv(n, b[i].passes, u, x) && ThreadInv(n, b[i].passes, v, y);
    if y.token || y.pc.Passing? {
      if NextTurn(n, u, x) >= NextTurn(n, v, y) { TurnUnique(n, u, x, v, y); } else { TurnUnique(n, v, y, u, x); }
    }
  }

  /** Visit counts around the ring differ by at most one, earlier threads being ahead. */
  lemma CountsInRingOrder(b: seq<State>, i: nat, u: nat, v: nat)
    requires Run(b) && i < |b| && u < v < |b[i].th|
    ensures 0 <= b[i].th[u].tokenCount - b[i].th[v].tokenCount <= 1
  {
    RunKeeps(b, i);
    var n := |b[i].th|;
    var x, y := b[i].th[u], b[i].th[v];
    assert ThreadInv(n, b[i].passes, u, x) && ThreadInv(n, b[i].passes, v, y);
    var d := x.tokenCount - y.tokenCount;
    assert d * n == x.tokenCount * n - y.tokenCount * n;
    Scale(n, d);
  }

  ghost predicate Runs(s: State, u: nat, no: nat) { u < |s.th| && Active(s.th[u]) && s.th[u].opNo == no }

  ghost predicate RetiresAt(b: seq<State>, i: int, x: nat) {
    0 <= i < |b| - 1 && x !in b[i].objs && x in b[i + 1].objs
  }

  lemma ObjOnly(s: State, s': State, x: nat)
    requires Step(s, s') && x in s.objs
    ensures x in s'.objs && s'.objs[x].holders == s.objs[x].holders
  {}

  lemma RetiredBy(s: State, s': State, x: nat)
    requires Step(s, s') && x !in s.objs && x in s'.objs
    ensures s'.objs[x].holders == Running(s.th)
  {}

  lemma {:induction false} ObjPersists(b: seq<State>, i: nat, j: nat, x: nat)
    requires Run(b) && i <= j < |b| && x in b[i].objs
    ensures x in b[j].objs && b[j].objs[x].holders == b[i].objs[x].holders
  {
    if i < j {
      ObjPersists(b, i, j - 1, x);
      assert StepAt(b, j - 1);
      ObjOnly(b[j - 1], b[j], x);
    }
  }

  /**
   Safety: an object retired at step `i` is in one of its thread's bags as long as any operation that
   was running then has not reached its end.
   */
  lemma NothingFreedTooEarly(b: seq<State>, i: nat, j: nat, x: nat, u: nat, no: nat)
    requires Run(b) && i < j < |b| && RetiresAt(b, i, x)
    requires Runs(b[i], u, no) && Runs(b[j], u, no)
    ensures x in b[j].objs && b[j].objs[x].loc.Bag?
  {
    RunKeeps(b, j);
    assert StepAt(b, i);
    RetiredBy(b[i], b[i + 1], x);
    ObjPersists(b, i + 1, j, x);
    assert OpRef(u, no) in Running(b[i].th);
    assert ObjInv(b[j], b[j].objs[x]);
    assert HolderInv(b[j].th, OpRef(u, no), b[j].objs[x].stamp);
  }
}
