/**
 LLX: what its answers mean.
 */
module ScxLlx {
  import opened Scx
  import opened ScxProof
  import opened ScxSafety
  import opened ScxHistory

  predicate HasHandle(f: Frame) { f.LlxState? || f.LlxUnmarked? || f.LlxAgain? }
  predicate OfLlx(f: Frame) { f.LlxMarked? || f.LlxScx? || HasHandle(f) }

  // Thread `t` executes an LLX of node `n`.
  predicate InCall(s: State, t: nat, n: nat) {
    t < |s.stacks| && |s.stacks[t]| == 1 && OfLlx(s.stacks[t][0]) && s.stacks[t][0].n == n
  }

  // Thread `t`'s LLX returns `a`.
  ghost predicate Answers(b: seq<State>, i: int, t: nat, a: Answer) {
    && 0 <= i < |b| - 1 && InCall(b[i], t, a.n) && BusyStep(b[i], t, b[i + 1])
    && b[i + 1].g.answers == b[i].g.answers + [a]
  }

  // ---------------------------------------------------------------- one record per thread

  lemma StepSingle(s: State, s': State, t: nat)
    requires GoodState(s) && Step(s, s') && t < |s.stacks| && |s.stacks[t]| <= 1
    ensures t < |s'.stacks| && |s'.stacks[t]| <= 1
  {
    var u: nat :| StepBy(s, u, s');
    if u == t && BusyStep(s, u, s') {
      assert FrameInv(s.g, t, 0, s.stacks[t][0]);
      ActKeeps(s.g, t, 0, s.stacks[t][0]);
    }
  }

  lemma {:induction false} Single(b: seq<State>, n: nat, i: nat, t: nat)
    requires Run(b, n) && i < |b| && t < n
    ensures t < |b[i].stacks| && |b[i].stacks[t]| <= 1
  {
    RunKeeps(b, n, i);
    if i > 0 {
      Single(b, n, i - 1, t);
      RunKeeps(b, n, i - 1);
      assert StepAt(b, i - 1);
      StepSingle(b[i - 1], b[i], t);
    }
  }

  // The record that thread `t` had one step before.
  lemma Before(b: seq<State>, n: nat, i: nat, t: nat, f: Frame) returns (f': Frame)
    requires Run(b, n) && 0 < i < |b| && t < |b[i].stacks| && b[i].stacks[t] == [f] && OfLlx(f) && !f.LlxMarked?
    ensures t < |b[i - 1].stacks| && b[i - 1].stacks[t] == [f']
    ensures f' == f || Act(b[i - 1].g, t, f').tops == [f]
  {
    RunKeeps(b, n, i);
    Single(b, n, i - 1, t);
    assert StepAt(b, i - 1);
    var s, s' := b[i - 1], b[i];
    var u: nat :| StepBy(s, u, s');
    if u == t {
      if IdleStep(s, t, s') { assert false; }
      f' := s.stacks[t][0];
      assert Below(s.stacks[t]) == [];
      assert [] + Act(s.g, t, f').tops == [f];
    } else {
      f' := f;
    }
  }

  // ---------------------------------------------------------------- what a call has read

  // At instant `k` the call read `f`'s handle, and it has been running since.
  ghost predicate ReadAt(b: seq<State>, k: nat, i: nat, t: nat, f: Frame)
    requires HasHandle(f)
  {
    && k < i < |b| && t < |b[k].stacks| && b[k].stacks[t] == [LlxScx(f.n, f.fin)] && ScxPtr(b[k].g, f.n) == f.hd
    && forall l :: k <= l <= i ==> InCall(b[l], t, f.n)
  }

  lemma {:induction false} HandleRead(b: seq<State>, n: nat, i: nat, t: nat, f: Frame) returns (k: nat)
    requires Run(b, n) && i < |b| && t < |b[i].stacks| && b[i].stacks[t] == [f] && HasHandle(f)
    ensures ReadAt(b, k, i, t, f)
  {
    assert i > 0;
    var f' := Before(b, n, i, t, f);
    if f'.LlxScx? {
      k := i - 1;
    } else {
      k := HandleRead(b, n, i - 1, t, f');
    }
  }

  // At instant `k` the call read the mark.
  ghost predicate MarkedAt(b: seq<State>, k: nat, i: nat, t: nat, n: nat, fin: bool) {
    && k < i < |b| && t < |b[k].stacks| && b[k].stacks[t] == [LlxMarked(n)] && NodeOf(b[k].g, n).marked == fin
    && forall l :: k <= l <= i ==> InCall(b[l], t, n)
  }

  lemma {:induction false} MarkRead(b: seq<State>, n: nat, i: nat, t: nat, f: Frame) returns (k: nat)
    requires Run(b, n) && i < |b| && t < |b[i].stacks| && b[i].stacks[t] == [f] && (f.LlxScx? || HasHandle(f))
    ensures MarkedAt(b, k, i, t, f.n, f.fin)
  {
    assert i > 0;
    var f' := Before(b, n, i, t, f);
    if f'.LlxMarked? {
      k := i - 1;
    } else {
      k := MarkRead(b, n, i - 1, t, f');
    }
  }

  // ---------------------------------------------------------------- success

  // The handle was in place all the time.
  lemma StaysInPlace(b: seq<State>, n: nat, k: nat, l: nat, i: nat, m: nat)
    requires Run(b, n) && k <= l <= i < |b| && m < |b[0].g.nodes| && ScxPtr(b[k].g, m) == ScxPtr(b[i].g, m)
    ensures ScxPtr(b[l].g, m) == ScxPtr(b[i].g, m)
  {
    if ScxPtr(b[l].g, m) != ScxPtr(b[k].g, m) { HandleNeverReturns(b, n, k, l, i, m); }
  }

  /**
   An LLX that returns a handle read it at an instant `k` of the call, and from then on, up to its last access, the
   node held that handle, whose operation is decided and does not finalize the node.  It is the handle that the
   thread's next SCX will expect.
   */
  lemma GotHandle(b: seq<State>, n: nat, i: nat, t: nat, m: nat, hd: Handle) returns (k: nat)
    requires Run(b, n) && Answers(b, i, t, Got(m, hd))
    ensures k < i && forall l :: k <= l <= i ==> InCall(b[l], t, m) && ScxPtr(b[l].g, m) == hd
    ensures t < |b[i].g.linked| == |b[i + 1].g.linked| && b[i + 1].g.linked[t] == b[i].g.linked[t][m := hd]
    ensures Linkable(b[i].g, m, hd)
  {
    RunKeeps(b, n, i);
    var f := b[i].stacks[t][0];
    LastIs(b[i].g, t, f, Got(m, hd));
    assert f.LlxAgain? && f.n == m && f.hd == hd;
    assert FrameInv(b[i].g, t, 0, f);
    k := HandleRead(b, n, i, t, f);
    RunExt(b, n, 0, i);
    forall l | k <= l <= i ensures ScxPtr(b[l].g, m) == hd { StaysInPlace(b, n, k, l, i, m); }
  }

  /** Nothing else gives a thread a handle. */
  lemma OnlyLlxLinks(b: seq<State>, n: nat, i: nat, t: nat)
    requires Run(b, n) && i < |b| - 1 && t < |b[i].g.linked| == |b[i + 1].g.linked|
    requires b[i + 1].g.linked[t] != b[i].g.linked[t]
    ensures exists m, hd :: Answers(b, i, t, Got(m, hd))
  {
    RunKeeps(b, n, i);
    assert StepAt(b, i);
    var u: nat :| StepBy(b[i], u, b[i + 1]);
    if IdleStep(b[i], u, b[i + 1]) { assert false; }
    Single(b, n, i, u);
    LinkStep(b, i, u, t);
  }

  lemma LinkStep(b: seq<State>, i: nat, u: nat, t: nat)
    requires i < |b| - 1 && u < |b[i].stacks| && BusyStep(b[i], u, b[i + 1]) && |b[i].stacks[u]| == 1
    requires t < |b[i].g.linked| == |b[i + 1].g.linked| && b[i + 1].g.linked[t] != b[i].g.linked[t]
    ensures exists m, hd :: Answers(b, i, t, Got(m, hd))
  {
    var f := b[i].stacks[u][0];
    OthersLink(b[i].g, u, f, t);
    assert Answers(b, i, t, Got(f.n, f.hd));
  }

  lemma OthersLink(g: Shared, u: nat, f: Frame, t: nat)
    requires t < |g.linked| && Act(g, u, f).g.linked != g.linked
    ensures f.LlxAgain? && ScxPtr(g, f.n) == f.hd && u < |g.linked|
    ensures |Act(g, u, f).g.linked| == |g.linked| && (u != t ==> Act(g, u, f).g.linked[t] == g.linked[t])
  {}

  // ---------------------------------------------------------------- failure

  // The operation that `hd` belongs to is in progress.
  predicate Busy(g: Shared, hd: Handle) { hd.H? && hd.o in g.ops && g.ops[hd.o].st == InProgress }

  lemma NothingStep(g: Shared, t: nat, f: Frame, a: Answer)
    requires OfLlx(f) && a.Nothing? && t < |g.linked| && Act(g, t, f).g.answers == g.answers + [a]
    requires f.LlxState? && f.hd.H? ==> f.hd.o in g.ops
    ensures HasHandle(f) && a == Nothing(f.n, f.fin)
    ensures (f.LlxState? && Busy(g, f.hd)) || (f.LlxUnmarked? && NodeOf(g, f.n).marked)
            || (f.LlxAgain? && ScxPtr(g, f.n) != f.hd)
  {
    LastIs(g, t, f, a);
  }

  lemma LastIs(g: Shared, t: nat, f: Frame, a: Answer)
    requires Act(g, t, f).g.answers == g.answers + [a]
    ensures Act(g, t, f).g.answers[|g.answers|] == a
  {}

  /**
   An LLX that returns no handle has a reason.  At its last access, at instant `i`, the operation whose handle it read
   is in progress, or the node is marked, or the node does not hold the handle any more.  It answers FINALIZED exactly
   if the node was marked when it began.
   */
  lemma NothingCause(b: seq<State>, n: nat, i: nat, t: nat, m: nat, fin: bool) returns (z: nat, k: nat)
    requires Run(b, n) && Answers(b, i, t, Nothing(m, fin))
    ensures z <= k < i && forall l :: z <= l <= i ==> InCall(b[l], t, m)
    ensures Busy(b[i].g, ScxPtr(b[k].g, m)) || NodeOf(b[i].g, m).marked || ScxPtr(b[i].g, m) != ScxPtr(b[k].g, m)
    ensures t < |b[z].stacks| && b[z].stacks[t] == [LlxMarked(m)] && (fin <==> NodeOf(b[z].g, m).marked)
  {
    RunKeeps(b, n, i);
    var f := b[i].stacks[t][0];
    assert FrameInv(b[i].g, t, 0, f);
    if f.LlxState? && f.hd.H? { FoundTag(b[i].g, t, 0, f.n, f.hd); }
    NothingStep(b[i].g, t, f, Nothing(m, fin));
    assert [f] == b[i].stacks[t];
    k := HandleRead(b, n, i, t, f);
    z := MarkRead(b, n, k, t, LlxScx(f.n, f.fin));
  }
}
