/**
 LLX/SCX: what holds over whole runs.
 */
module ScxHistory {
  import opened Scx
  import opened ScxProof
  import opened ScxSafety

  // ---------------------------------------------------------------- every step keeps the invariant

  // A record through which `o`'s own thread executes it.
  predicate Owns(f: Frame, o: OpId) {
    match f
    case Freeze(x, h, _) => x == o && !h
    case CheckExp(x, h, _) => x == o && !h
    case ReadFrozen(x, h, _) => x == o && !h
    case Abort(x, h) => x == o && !h
    case Mark(x, h, _) => x == o && !h
    case Update(x, h) => x == o && !h
    case Commit(x, h) => x == o && !h
    case Leave(x, _) => x == o
    case _ => false
  }

  ghost predicate OwnersInv(s: State) {
    forall o :: o in s.g.ops && s.g.ops[o].st == InProgress ==>
      o.tid < |s.stacks| && s.stacks[o.tid] != [] && Owns(s.stacks[o.tid][0], o)
  }

  ghost predicate GoodState(s: State) { Inv(s) && OwnersInv(s) }

  ghost predicate Grows(s: State, s': State) { GoodState(s') && |s'.stacks| == |s.stacks| && Ext(s.g, s'.g) }

  lemma BusyFrames(s: State, t: nat, s': State)
    requires Inv(s) && t < |s.stacks| && BusyStep(s, t, s') && ActOk(s.g, t, |s.stacks[t]| - 1, Top(s.stacks[t]))
    ensures FramesInv(s')
  {
    var n := |s.stacks[t]| - 1;
    var f := s.stacks[t][n];
    assert FrameInv(s.g, t, n, f);
    var o := Act(s.g, t, f);
    forall u, d | 0 <= u < |s'.stacks| && 0 <= d < |s'.stacks[u]| ensures FrameInv(s'.g, u, d, s'.stacks[u][d]) {
      if u == t && d >= n {
        assert s'.stacks[t][d] == o.tops[d - n];
      } else {
        assert s'.stacks[u][d] == s.stacks[u][d];
        FrameStable(s.g, o.g, u, d, s.stacks[u][d]);
      }
    }
  }

  // While the operation is undecided its owner keeps working on it.
  lemma OwnsOn(g: Shared, t: nat, d: nat, f: Frame, o: OpId)
    requires Ready(g, t, d, f) && ActOk(g, t, d, f) && Owns(f, o) && o in g.ops
        && Op(Act(g, t, f).g, o).st == InProgress
    ensures Act(g, t, f).tops != [] && Owns(Act(g, t, f).tops[0], o)
  {
    var g' := Act(g, t, f).g;
    assert OExt(g, g', o) && OpInv(g, o);
  }

  lemma ActKeys(g: Shared, t: nat, f: Frame, o: OpId)
    requires o in Act(g, t, f).g.ops
    ensures o in g.ops
  {}

  lemma BusyOwners(s: State, t: nat, s': State)
    requires GoodState(s) && t < |s.stacks| && BusyStep(s, t, s') && ActOk(s.g, t, |s.stacks[t]| - 1, Top(s.stacks[t]))
    ensures OwnersInv(s')
  {
    var n := |s.stacks[t]| - 1;
    var f := s.stacks[t][n];
    forall o | o in s'.g.ops && s'.g.ops[o].st == InProgress
      ensures o.tid < |s'.stacks| && s'.stacks[o.tid] != [] && Owns(s'.stacks[o.tid][0], o)
    {
      ActKeys(s.g, t, f, o);
      assert OExt(s.g, s'.g, o);
      if o.tid == t && n == 0 {
        assert FrameInv(s.g, t, n, f);
        OwnsOn(s.g, t, n, f, o);
      }
    }
  }

  lemma BusyKeeps(s: State, t: nat, s': State)
    requires GoodState(s) && t < |s.stacks| && BusyStep(s, t, s')
    ensures Grows(s, s')
  {
    var n := |s.stacks[t]| - 1;
    assert FrameInv(s.g, t, n, s.stacks[t][n]);
    ActKeeps(s.g, t, n, s.stacks[t][n]);
    BusyFrames(s, t, s');
    BusyOwners(s, t, s');
  }

  lemma PublishOps(g: Shared, t: nat, op: SOp)
    requires SharedInv(g) && t < |g.dseq| && t < |g.linked| && Proper(g, t, op)
    requires forall x :: x in g.ops && x.tid == t ==> g.ops[x].st != InProgress
    ensures var (g', o) := Publish(g, t, op);
        Ext(g, g') && OpsInv(g') && o !in g.ops && FrameInv(g', t, 0, Freeze(o, false, 0))
  {
    var (g', o) := Publish(g, t, op);
    assert o !in g.ops by { assert forall x :: x in g.ops ==> OpInv(g, x); }
    ExtOps(g, g');
    forall x | x in g'.ops ensures OpInv(g', x) {
      if x == o {
        forall i | 0 <= i < |op.nodes| ensures Linkable(g', op.nodes[i], op.seen[i]) {
          LinkableStable(g, g', op.nodes[i], op.seen[i]);
        }
      } else {
        assert OpInv(g, x);
        OpCarries(g, g', x);
      }
    }
  }

  lemma PublishOk(g: Shared, t: nat, op: SOp)
    requires SharedInv(g) && t < |g.dseq| && t < |g.linked| && Proper(g, t, op)
    requires forall x :: x in g.ops && x.tid == t ==> g.ops[x].st != InProgress
    ensures var (g', o) := Publish(g, t, op);
        SharedInv(g') && Ext(g, g') && o !in g.ops && FrameInv(g', t, 0, Freeze(o, false, 0))
  {
    var (g', o) := Publish(g, t, op);
    PublishOps(g, t, op);
    NodesSame(g, g');
    LinkedCarries(g, g');
  }

  lemma IdleFrames(s: State, t: nat, s': State, f: Frame)
    requires Inv(s) && t < |s.stacks| && s.stacks[t] == [] && Ext(s.g, s'.g) && SharedInv(s'.g)
    requires s'.stacks == s.stacks[t := [f]] && FrameInv(s'.g, t, 0, f)
    requires forall u :: 0 <= u < |s.stacks| && u != t ==> s'.g.dseq[u] == s.g.dseq[u]
    ensures Inv(s')
  {
    forall u, d | 0 <= u < |s'.stacks| && 0 <= d < |s'.stacks[u]| ensures FrameInv(s'.g, u, d, s'.stacks[u][d]) {
      if u != t { FrameStable(s.g, s'.g, u, d, s.stacks[u][d]); }
    }
  }

  lemma PublishKeeps(s: State, t: nat, s': State, op: SOp)
    requires GoodState(s) && t < |s.stacks| && s.stacks[t] == [] && t < |s.g.dseq| && t < |s.g.linked|
        && Proper(s.g, t, op)
    requires var (g', o) := Publish(s.g, t, op); s' == State(g', s.stacks[t := [Freeze(o, false, 0)]])
    ensures Grows(s, s')
  {
    var (g', o) := Publish(s.g, t, op);
    PublishOk(s.g, t, op);
    IdleFrames(s, t, s', Freeze(o, false, 0));
  }

  lemma IdleKeeps(s: State, t: nat, s': State)
    requires GoodState(s) && t < |s.stacks| && IdleStep(s, t, s')
    ensures Grows(s, s')
  {
    if exists op :: Proper(s.g, t, op)
              && var (g', o) := Publish(s.g, t, op); s' == State(g', s.stacks[t := [Freeze(o, false, 0)]]) {
      var op :| Proper(s.g, t, op)
              && var (g', o) := Publish(s.g, t, op); s' == State(g', s.stacks[t := [Freeze(o, false, 0)]]);
      PublishKeeps(s, t, s', op);
    } else {
      var n :| 0 <= n < |s.g.nodes| && s' == State(s.g, s.stacks[t := [LlxMarked(n)]]);
      ExtSame(s.g);
      IdleFrames(s, t, s', LlxMarked(n));
    }
  }

  lemma StepKeeps(s: State, s': State)
    requires GoodState(s) && Step(s, s')
    ensures Grows(s, s')
  {
    var t: nat :| StepBy(s, t, s');
    if IdleStep(s, t, s') { IdleKeeps(s, t, s'); } else { BusyKeeps(s, t, s'); }
  }

  lemma InitGood(s: State, n: nat)
    requires InitState(s, n)
    ensures GoodState(s)
  {
    forall m | 0 <= m < |s.g.nodes| ensures NodeInv(s.g, m) {}
  }

  /** Every state of every run, whatever the number of threads and the schedule. */
  lemma {:induction false} RunKeeps(b: seq<State>, n: nat, i: nat)
    requires Run(b, n) && i < |b|
    ensures GoodState(b[i]) && |b[i].stacks| == n
  {
    if i == 0 {
      InitGood(b[0], n);
    } else {
      RunKeeps(b, n, i - 1);
      assert StepAt(b, i - 1);
      StepKeeps(b[i - 1], b[i]);
    }
  }

  // ---------------------------------------------------------------- runs only extend

  lemma ExtTrans(g: Shared, h: Shared, k: Shared)
    requires Ext(g, h) && Ext(h, k)
    ensures Ext(g, k)
  {
    forall o | o in g.ops ensures OExt(g, k, o) {
      assert OExt(g, h, o);
      assert OExt(h, k, o);
    }
    forall n | 0 <= n < |g.nodes| ensures NExt(g.nodes[n], k.nodes[n]) {
      assert NExt(g.nodes[n], h.nodes[n]) && NExt(h.nodes[n], k.nodes[n]);
    }
  }

  lemma {:induction false} RunExt(b: seq<State>, n: nat, i: nat, j: nat)
    requires Run(b, n) && i <= j < |b|
    ensures Ext(b[i].g, b[j].g)
  {
    if i == j {
      ExtSame(b[i].g);
    } else {
      RunExt(b, n, i, j - 1);
      RunKeeps(b, n, j - 1);
      assert StepAt(b, j - 1);
      StepKeeps(b[j - 1], b[j]);
      ExtTrans(b[i].g, b[j - 1].g, b[j].g);
    }
  }

  // ---------------------------------------------------------------- commit or abort, never both

  /** Once one helper has aborted an operation no helper ever sets its allFrozen bit, and conversely. */
  lemma AbortedOrFrozen(b: seq<State>, n: nat, i: nat, j: nat, o: OpId)
    requires Run(b, n) && i < |b| && j < |b| && o in b[i].g.ops && o in b[j].g.ops
    requires b[i].g.ops[o].st == Aborted
    ensures !b[j].g.ops[o].allFrozen && b[j].g.ops[o].st != Committed
  {
    var m := if i < j then j else i;
    RunKeeps(b, n, m);
    RunKeeps(b, n, j);
    RunExt(b, n, i, m);
    RunExt(b, n, j, m);
    assert OExt(b[i].g, b[m].g, o) && OExt(b[j].g, b[m].g, o);
    assert OpInv(b[m].g, o) && OpInv(b[j].g, o);
    if b[m].g.ops[o].allFrozen { DoomedOr(b[m].g, o); }
  }

  // ---------------------------------------------------------------- all nodes frozen at once

  ghost predicate HoldsAll(g: Shared, o: OpId) {
    forall i :: 0 <= i < |Op(g, o).nodes| ==> ScxPtr(g, Op(g, o).nodes[i]) == H(o)
  }

  lemma FrozenHolds(g: Shared, o: OpId)
    requires SharedInv(g) && o in g.ops && g.ops[o].allFrozen && g.ops[o].st == InProgress
    ensures HoldsAll(g, o)
  {
    assert OpInv(g, o);
    forall i | 0 <= i < |g.ops[o].nodes| ensures ScxPtr(g, g.ops[o].nodes[i]) == H(o) {
      assert Froze(g, o, i);
      var m := g.ops[o].nodes[i];
      assert NodeInv(g, m);
      if ScxPtr(g, m) != H(o) { ReplacedMeansDecided(g, m, o); }
    }
  }

  /** From the step that sets allFrozen until the operation commits, all its nodes hold its tag. */
  lemma AllHeldWhileInProgress(b: seq<State>, n: nat, i: nat, o: OpId)
    requires Run(b, n) && i < |b| && o in b[i].g.ops && b[i].g.ops[o].allFrozen && b[i].g.ops[o].st == InProgress
    ensures HoldsAll(b[i].g, o)
  {
    RunKeeps(b, n, i);
    FrozenHolds(b[i].g, o);
  }

  lemma IdleOps(s: State, t: nat, s': State, o: OpId)
    requires Inv(s) && t < |s.stacks| && IdleStep(s, t, s') && o in s.g.ops
    ensures o in s'.g.ops && s'.g.ops[o] == s.g.ops[o] && s'.g.nodes == s.g.nodes && s'.g.swung == s.g.swung
  {
    if exists op :: Proper(s.g, t, op)
              && var (g', o) := Publish(s.g, t, op); s' == State(g', s.stacks[t := [Freeze(o, false, 0)]]) {
      var op :| Proper(s.g, t, op)
              && var (g', o) := Publish(s.g, t, op); s' == State(g', s.stacks[t := [Freeze(o, false, 0)]]);
      assert OpInv(s.g, o);
    }
  }

  lemma OneMutable(g: Shared, t: nat, f: Frame, o: OpId)
    requires o in g.ops
    ensures var g' := Act(g, t, f).g;
            o in g'.ops && (g'.ops[o].allFrozen == g.ops[o].allFrozen || g'.ops[o].st == g.ops[o].st)
  {}

  // A step that sets allFrozen leaves the state field alone.
  lemma SetsFrozenOnly(s: State, s': State, o: OpId)
    requires Inv(s) && Step(s, s') && o in s.g.ops && o in s'.g.ops
    requires !s.g.ops[o].allFrozen && s'.g.ops[o].allFrozen
    ensures s'.g.ops[o].st == s.g.ops[o].st
  {
    var t: nat :| StepBy(s, t, s');
    if IdleStep(s, t, s') { IdleOps(s, t, s', o); } else { OneMutable(s.g, t, Top(s.stacks[t]), o); }
  }

  lemma FrozenSet(s: State, s': State, o: OpId)
    requires Inv(s) && SharedInv(s'.g) && Step(s, s') && o in s.g.ops && o in s'.g.ops
    requires !s.g.ops[o].allFrozen && s'.g.ops[o].allFrozen
    ensures s'.g.ops[o].st == InProgress && HoldsAll(s'.g, o)
  {
    SetsFrozenOnly(s, s', o);
    assert OpInv(s.g, o) && OpInv(s'.g, o);
    DoomedOr(s'.g, o);
    FrozenHolds(s'.g, o);
  }

  /** The allFrozen bit is first set in a state where every node of the operation holds its tag. */
  lemma FrozenTogether(b: seq<State>, n: nat, i: nat, o: OpId)
    requires Run(b, n) && i + 1 < |b| && o in b[i].g.ops && o in b[i + 1].g.ops
    requires !b[i].g.ops[o].allFrozen && b[i + 1].g.ops[o].allFrozen
    ensures b[i + 1].g.ops[o].st == InProgress && HoldsAll(b[i + 1].g, o)
  {
    RunKeeps(b, n, i);
    RunKeeps(b, n, i + 1);
    assert StepAt(b, i);
    FrozenSet(b[i], b[i + 1], o);
  }

  // ---------------------------------------------------------------- handles

  /** A handle that left a node never comes back to it. */
  lemma HandleNeverReturns(b: seq<State>, n: nat, i: nat, j: nat, k: nat, m: nat)
    requires Run(b, n) && i <= j <= k < |b| && m < |b[0].g.nodes|
    requires ScxPtr(b[j].g, m) != ScxPtr(b[i].g, m)
    ensures ScxPtr(b[k].g, m) != ScxPtr(b[i].g, m)
  {
    RunKeeps(b, n, i);
    RunExt(b, n, 0, i);
    RunExt(b, n, i, j);
    RunExt(b, n, j, k);
    NodeExt(b[i].g, b[j].g, m);
    NodeExt(b[j].g, b[k].g, m);
    assert NodeInv(b[i].g, m);
    assert Over(NodeOf(b[j].g, m).hist, ScxPtr(b[i].g, m));
  }

  /**
   When `o` froze node `m`, no other operation had frozen it since `o`'s thread saw the handle that
   it expects: while `o`'s tag was not yet there, the handle seen stayed in place.
   */
  lemma UnchangedSinceSeen(b: seq<State>, n: nat, i: nat, j: nat, o: OpId, e: nat)
    requires Run(b, n) && i <= j < |b| && o in b[j].g.ops && Froze(b[j].g, o, e) && e < |b[j].g.ops[o].seen|
    requires b[j].g.ops[o].seen[e] in NodeOf(b[i].g, b[j].g.ops[o].nodes[e]).hist
    requires H(o) !in NodeOf(b[i].g, b[j].g.ops[o].nodes[e]).hist
    ensures ScxPtr(b[i].g, b[j].g.ops[o].nodes[e]) == b[j].g.ops[o].seen[e]
  {
    RunKeeps(b, n, j);
    RunExt(b, n, i, j);
    SinceSeen(b[i].g, b[j].g, o, e);
  }

  lemma SinceSeen(g: Shared, g': Shared, o: OpId, e: nat)
    requires Ext(g, g') && SharedInv(g') && o in g'.ops && Froze(g', o, e) && e < |g'.ops[o].seen|
    requires g'.ops[o].seen[e] in NodeOf(g, g'.ops[o].nodes[e]).hist && H(o) !in NodeOf(g, g'.ops[o].nodes[e]).hist
    ensures ScxPtr(g, g'.ops[o].nodes[e]) == g'.ops[o].seen[e]
  {
    var op := g'.ops[o];
    var m := op.nodes[e];
    assert OpInv(g', o);
    assert NodeInv(g', m);
    NodeExt(g, g', m);
    var hist, hist' := NodeOf(g, m).hist, NodeOf(g', m).hist;
    assert forall x :: 0 <= x < |hist| ==> hist[x] == hist'[x];
    var p :| 0 <= p < |hist'| && hist'[p] == H(o);
    assert LinkInv(g', m, p);
    assert hist'[p - 1] == op.seen[e];
    var q :| 0 <= q < |hist| && hist[q] == op.seen[e];
    assert hist'[q] == hist[q];
    assert q == p - 1;
  }

  /** A finalized node stays marked and stays frozen for the operation that finalized it. */
  lemma FinalizedForever(b: seq<State>, n: nat, i: nat, j: nat, m: nat)
    requires Run(b, n) && i <= j < |b| && m < |b[i].g.nodes| && b[i].g.nodes[m].marked
    ensures m < |b[j].g.nodes| && b[j].g.nodes[m].marked && ScxPtr(b[j].g, m) == ScxPtr(b[i].g, m)
  {
    RunKeeps(b, n, i);
    RunKeeps(b, n, j);
    RunExt(b, n, i, j);
    NodeExt(b[i].g, b[j].g, m);
    assert NodeInv(b[i].g, m) && NodeInv(b[j].g, m);
    var o := ScxPtr(b[i].g, m).o;
    assert OExt(b[i].g, b[j].g, o) && OpInv(b[j].g, o);
    if ScxPtr(b[j].g, m) != H(o) {
      ReplacedMeansDecided(b[j].g, m, o);
      DoomedOr(b[j].g, o);
    }
  }

  // ---------------------------------------------------------------- what scxExecute reports

  // A step in which some thread performed `o`'s update CAS while every node of `o` held its tag
  // and every node to be finalized was marked.
  ghost predicate Swings(g: Shared, g': Shared, o: OpId) {
    && o in g.ops && g.ops[o].st == InProgress && g.ops[o].allFrozen && HoldsAll(g, o) && Marked(g, o, |g.ops[o].nodes|)
    && |g'.data| == |g.data|
    && forall x :: 0 <= x < |g.data| ==>
         g'.data[x] == if x == g.ops[o].field && g.data[x] == g.ops[o].oldVal then g.ops[o].newVal else g.data[x]
  }

  ghost predicate SwingsAt(b: seq<State>, i: int, o: OpId) { 0 <= i < |b| - 1 && Swings(b[i].g, b[i + 1].g, o) }

  lemma SwingStep(s: State, s': State, o: OpId)
    requires GoodState(s) && Step(s, s') && o !in s.g.swung && o in s'.g.swung
    ensures Swings(s.g, s'.g, o)
  {
    var t: nat :| StepBy(s, t, s');
    if BusyStep(s, t, s') {
      var d := |s.stacks[t]| - 1;
      assert FrameInv(s.g, t, d, s.stacks[t][d]);
      FrozenHolds(s.g, o);
    }
  }

  lemma {:induction false} SwungHasStep(b: seq<State>, n: nat, j: nat, o: OpId)
    requires Run(b, n) && j < |b| && o in b[j].g.swung
    ensures exists i :: 0 <= i < j && SwingsAt(b, i, o)
  {
    if j > 0 {
      RunKeeps(b, n, j - 1);
      assert StepAt(b, j - 1);
      if o in b[j - 1].g.swung {
        SwungHasStep(b, n, j - 1, o);
      } else {
        SwingStep(b[j - 1], b[j], o);
        assert SwingsAt(b, j - 1, o);
      }
    }
  }

  /**
   scxExecute returns true exactly for committed operations.  A committed operation's update CAS was
   made at a step where all its nodes were frozen for it; an aborted one has a node it never froze.
   */
  lemma ExecuteReportsTruth(b: seq<State>, n: nat, j: nat, o: OpId)
    requires Run(b, n) && j < |b| && o in b[j].g.results
    ensures o in b[j].g.ops
    ensures b[j].g.results[o] ==> b[j].g.ops[o].st == Committed && exists i :: 0 <= i < j && SwingsAt(b, i, o)
    ensures !b[j].g.results[o] ==> b[j].g.ops[o].st == Aborted && Doomed(b[j].g, o)
  {
    RunKeeps(b, n, j);
    assert OpInv(b[j].g, o);
    if b[j].g.results[o] { SwungHasStep(b, n, j, o); }
  }
}
