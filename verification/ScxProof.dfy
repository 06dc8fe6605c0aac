/**
 SCX: what every step keeps.  Handles never come back to a node, so an operation that once failed
 to freeze a node can never freeze it, and committing and aborting exclude each other.
 */
module ScxProof {
  import opened Scx

  // ---------------------------------------------------------------- facts that only become true

  predicate Froze(g: Shared, o: OpId, i: nat) {
    i < |Op(g, o).nodes| && H(o) in NodeOf(g, Op(g, o).nodes[i]).hist
  }

  predicate Over(hist: seq<Handle>, x: Handle) { x in hist && hist[|hist| - 1] != x }

  // The handle that `o` expects at its node `i` has been replaced.
  predicate Passed(g: Shared, o: OpId, i: nat) {
    i < |Op(g, o).nodes| && i < |Op(g, o).seen| && Over(NodeOf(g, Op(g, o).nodes[i]).hist, Op(g, o).seen[i])
  }

  predicate Lost(g: Shared, o: OpId, i: nat) { Passed(g, o, i) && !Froze(g, o, i) }

  // Some node was never frozen for `o` and never will be.
  ghost predicate Doomed(g: Shared, o: OpId) { exists i :: 0 <= i < |Op(g, o).nodes| && Lost(g, o, i) }

  ghost predicate FrozeAll(g: Shared, o: OpId, n: nat) { forall i :: 0 <= i < n ==> Froze(g, o, i) }

  ghost predicate Marked(g: Shared, o: OpId, n: nat) {
    forall i :: 0 <= i < n && i < |Op(g, o).nodes| && i < |Op(g, o).finalize| && Op(g, o).finalize[i]
      ==> NodeOf(g, Op(g, o).nodes[i]).marked
  }

  ghost predicate Decided(g: Shared, hd: Handle) { hd.H? ==> hd.o in g.ops && g.ops[hd.o].st != InProgress }

  ghost predicate Finalizes(op: SOp, n: nat) {
    exists i :: 0 <= i < |op.nodes| && i < |op.finalize| && op.nodes[i] == n && op.finalize[i]
  }

  // A handle that an LLX of node `n` may return.
  ghost predicate Linkable(g: Shared, n: nat, hd: Handle) {
    && hd in NodeOf(g, n).hist && Decided(g, hd)
    && (hd.H? && g.ops[hd.o].st == Committed ==> !Finalizes(g.ops[hd.o], n))
  }

  // ---------------------------------------------------------------- invariants

  ghost predicate WellFormed(g: Shared, op: SOp) {
    && |op.nodes| == |op.finalize| == |op.seen|
    && (forall i, j :: 0 <= i < j < |op.nodes| ==> op.nodes[i] != op.nodes[j])
    && (forall i :: 0 <= i < |op.nodes| ==> op.nodes[i] < |g.nodes| && Linkable(g, op.nodes[i], op.seen[i]))
  }

  ghost predicate OpInv(g: Shared, o: OpId)
    requires o in g.ops
  {
    var op := g.ops[o];
    && o.tid < |g.dseq| && o.sn <= g.dseq[o.tid]
    && WellFormed(g, op)
    && (op.st == Aborted ==> Doomed(g, o))
    && (op.st == Committed ==> op.allFrozen && Marked(g, o, |op.nodes|) && o in g.swung)
    && (op.allFrozen ==> FrozeAll(g, o, |op.nodes|))
    && (op.st == InProgress ==> Current(g, o))
    && (o in g.results ==> op.st != InProgress && g.results[o] == (op.st == Committed))
  }

  ghost predicate Distinct(hist: seq<Handle>) {
    forall p, q :: 0 <= p < q < |hist| ==> hist[p] != hist[q]
  }

  // `o` expects `hd` at node `n`.
  ghost predicate Expects(op: SOp, n: nat, hd: Handle) {
    exists i :: 0 <= i < |op.nodes| && i < |op.seen| && op.nodes[i] == n && op.seen[i] == hd
  }

  ghost predicate LinkInv(g: Shared, n: nat, p: nat)
    requires 0 < p < |NodeOf(g, n).hist|
  {
    var hist := NodeOf(g, n).hist;
    hist[p].H? && hist[p].o in g.ops && Expects(g.ops[hist[p].o], n, hist[p - 1]) && Froze(g, hist[p].o, 0)
  }

  ghost predicate NodeInv(g: Shared, n: nat) {
    var node := NodeOf(g, n);
    && node.hist != [] && node.hist[0] == Init && Distinct(node.hist)
    && (forall p :: 0 < p < |node.hist| ==> LinkInv(g, n, p))
    && (node.marked ==>
        ScxPtr(g, n).H? && ScxPtr(g, n).o in g.ops && g.ops[ScxPtr(g, n).o].allFrozen
        && Finalizes(g.ops[ScxPtr(g, n).o], n))
  }

  ghost predicate OpsInv(g: Shared) { forall o {:trigger OpInv(g, o)} :: o in g.ops ==> OpInv(g, o) }
  ghost predicate NodesInv(g: Shared) { forall n :: 0 <= n < |g.nodes| ==> NodeInv(g, n) }
  ghost predicate LinkedInv(g: Shared) {
    && |g.linked| == |g.dseq|
    && (forall t, n :: 0 <= t < |g.linked| && n in g.linked[t] ==> n < |g.nodes| && Linkable(g, n, g.linked[t][n]))
  }
  ghost predicate SharedInv(g: Shared) {
    OpsInv(g) && NodesInv(g) && LinkedInv(g) && forall o :: o in g.results ==> o in g.ops
  }

  // ---------------------------------------------------------------- what a record knows

  ghost predicate Attends(g: Shared, t: nat, d: nat, o: OpId, h: bool) {
    && o in g.ops
    && (!h ==> o.tid == t && d == 0 && Current(g, o))
    && (h ==> Froze(g, o, 0))
  }

  ghost predicate FrameInv(g: Shared, t: nat, d: nat, f: Frame) {
    match f
    case Freeze(o, h, i) => Attends(g, t, d, o, h) && i <= |g.ops[o].nodes| && FrozeAll(g, o, i)
    case CheckExp(o, h, i) => Attends(g, t, d, o, h) && i < |g.ops[o].nodes| && FrozeAll(g, o, i) && Passed(g, o, i)
    case ReadFrozen(o, h, i) =>
      Attends(g, t, d, o, h) && Passed(g, o, i) && (Froze(g, o, i) ==> g.ops[o].st != InProgress)
    case Abort(o, h) => Attends(g, t, d, o, h) && Doomed(g, o)
    case Mark(o, h, i) => Attends(g, t, d, o, h) && g.ops[o].allFrozen && Marked(g, o, i)
    case Update(o, h) => Attends(g, t, d, o, h) && g.ops[o].allFrozen && Marked(g, o, |g.ops[o].nodes|)
    case Commit(o, h) =>
      Attends(g, t, d, o, h) && g.ops[o].allFrozen && Marked(g, o, |g.ops[o].nodes|)
      && (g.ops[o].st == InProgress ==> o in g.swung)
    case Leave(o, won) =>
      Attends(g, t, d, o, false) && g.ops[o].st != InProgress && won == (g.ops[o].st == Committed)
    case HelpSnap(o) => Attends(g, t, d, o, true)
    case LlxMarked(n) => n < |g.nodes|
    case LlxScx(n, fin) => n < |g.nodes| && (fin ==> NodeOf(g, n).marked)
    case LlxState(n, fin, hd) => n < |g.nodes| && (fin ==> NodeOf(g, n).marked) && hd in NodeOf(g, n).hist
    case LlxUnmarked(n, fin, hd) =>
      n < |g.nodes| && (fin ==> NodeOf(g, n).marked) && hd in NodeOf(g, n).hist && Decided(g, hd)
    case LlxAgain(n, fin, hd) => n < |g.nodes| && (fin ==> NodeOf(g, n).marked) && Linkable(g, n, hd)
  }

  ghost predicate FramesInv(s: State) {
    forall t, d :: 0 <= t < |s.stacks| && 0 <= d < |s.stacks[t]| ==> FrameInv(s.g, t, d, s.stacks[t][d])
  }

  ghost predicate Inv(s: State) { |s.stacks| == |s.g.dseq| && SharedInv(s.g) && FramesInv(s) }

  // ---------------------------------------------------------------- the rely

  ghost predicate OExt(g: Shared, g': Shared, o: OpId) {
    && o in g.ops && o in g'.ops
    && g'.ops[o] == g.ops[o].(allFrozen := g'.ops[o].allFrozen, st := g'.ops[o].st)
    && (g.ops[o].allFrozen ==> g'.ops[o].allFrozen)
    && (g.ops[o].st != InProgress ==> g'.ops[o].st == g.ops[o].st)
    && (g'.ops[o].st == InProgress ==> g.ops[o].st == InProgress)
    && (forall i :: Lost(g, o, i) ==> Lost(g', o, i))
  }

  ghost predicate NExt(m: Node, m': Node) {
    && m.hist <= m'.hist && (forall x :: x in m.hist ==> x in m'.hist)
    && (forall x :: Over(m.hist, x) ==> Over(m'.hist, x))
    && (m.marked ==> m'.marked)
  }

  ghost predicate Ext(g: Shared, g': Shared) {
    && |g'.nodes| == |g.nodes| && |g'.dseq| == |g.dseq| && |g'.linked| == |g.linked| && g.swung <= g'.swung
    && (forall o {:trigger OExt(g, g', o)} {:trigger g'.ops[o]} :: o in g.ops ==> OExt(g, g', o))
    && (forall n :: 0 <= n < |g.nodes| ==> NExt(g.nodes[n], g'.nodes[n]))
  }

  lemma NodeExt(g: Shared, g': Shared, n: nat)
    requires Ext(g, g')
    ensures NExt(NodeOf(g, n), NodeOf(g', n))
  {}

  lemma FrozeStable(g: Shared, g': Shared, o: OpId, n: nat)
    requires Ext(g, g') && o in g.ops && FrozeAll(g, o, n)
    ensures FrozeAll(g', o, n)
  {
    assert OExt(g, g', o);
    forall i | 0 <= i < n ensures Froze(g', o, i) {
      assert Froze(g, o, i);
      NodeExt(g, g', Op(g, o).nodes[i]);
    }
  }

  lemma MarkedStable(g: Shared, g': Shared, o: OpId, n: nat)
    requires Ext(g, g') && o in g.ops && Marked(g, o, n)
    ensures Marked(g', o, n)
  {
    assert OExt(g, g', o);
    forall i | 0 <= i < n && i < |Op(g', o).nodes| && i < |Op(g', o).finalize| && Op(g', o).finalize[i]
      ensures NodeOf(g', Op(g', o).nodes[i]).marked
    {
      NodeExt(g, g', Op(g, o).nodes[i]);
    }
  }

  lemma PassedStable(g: Shared, g': Shared, o: OpId, i: nat)
    requires Ext(g, g') && o in g.ops && Passed(g, o, i)
    ensures Passed(g', o, i)
  {
    assert OExt(g, g', o);
    NodeExt(g, g', Op(g, o).nodes[i]);
  }

  lemma LinkableStable(g: Shared, g': Shared, n: nat, hd: Handle)
    requires Ext(g, g') && Linkable(g, n, hd)
    ensures Linkable(g', n, hd)
  {
    NodeExt(g, g', n);
    if hd.H? { assert OExt(g, g', hd.o); }
  }

  lemma AttendsStable(g: Shared, g': Shared, t: nat, d: nat, o: OpId, h: bool)
    requires Ext(g, g') && t < |g.dseq| && (g'.dseq[t] == g.dseq[t]) && Attends(g, t, d, o, h)
    ensures Attends(g', t, d, o, h)
  {
    assert OExt(g, g', o);
    if h { assert FrozeAll(g, o, 1); FrozeStable(g, g', o, 1); assert Froze(g', o, 0); }
  }

  lemma FreezingStable(g: Shared, g': Shared, t: nat, d: nat, f: Frame)
    requires Ext(g, g') && t < |g.dseq| && g'.dseq[t] == g.dseq[t] && FrameInv(g, t, d, f)
    requires f.Freeze? || f.CheckExp? || f.ReadFrozen? || f.Abort? || f.HelpSnap?
    ensures FrameInv(g', t, d, f)
  {
    AttendsStable(g, g', t, d, f.o, if f.HelpSnap? then true else f.h);
    assert OExt(g, g', f.o);
    if f.Freeze? || f.CheckExp? { FrozeStable(g, g', f.o, f.i); }
    if f.CheckExp? || f.ReadFrozen? { PassedStable(g, g', f.o, f.i); }
    if f.ReadFrozen? && !Froze(g, f.o, f.i) { assert Lost(g, f.o, f.i); }
    if f.Abort? { var i :| 0 <= i < |Op(g, f.o).nodes| && Lost(g, f.o, i); assert Lost(g', f.o, i); }
  }

  lemma CommittingStable(g: Shared, g': Shared, t: nat, d: nat, f: Frame)
    requires Ext(g, g') && t < |g.dseq| && g'.dseq[t] == g.dseq[t] && FrameInv(g, t, d, f)
    requires f.Mark? || f.Update? || f.Commit? || f.Leave?
    ensures FrameInv(g', t, d, f)
  {
    AttendsStable(g, g', t, d, f.o, if f.Leave? then false else f.h);
    assert OExt(g, g', f.o);
    if f.Mark? { MarkedStable(g, g', f.o, f.i); }
    if f.Update? || f.Commit? { MarkedStable(g, g', f.o, |g.ops[f.o].nodes|); }
  }

  lemma LlxStable(g: Shared, g': Shared, t: nat, d: nat, f: Frame)
    requires Ext(g, g') && FrameInv(g, t, d, f)
    requires f.LlxMarked? || f.LlxScx? || f.LlxState? || f.LlxUnmarked? || f.LlxAgain?
    ensures FrameInv(g', t, d, f)
  {
    NodeExt(g, g', f.n);
    if f.LlxAgain? { LinkableStable(g, g', f.n, f.hd); }
    if f.LlxUnmarked? && f.hd.H? { assert OExt(g, g', f.hd.o); }
  }

  /** What a record knows survives any step of any other record. */
  lemma FrameStable(g: Shared, g': Shared, t: nat, d: nat, f: Frame)
    requires Ext(g, g') && t < |g.dseq| && g'.dseq[t] == g.dseq[t] && FrameInv(g, t, d, f)
    ensures FrameInv(g', t, d, f)
  {
    if f.Freeze? || f.CheckExp? || f.ReadFrozen? || f.Abort? || f.HelpSnap? { FreezingStable(g, g', t, d, f); }
    else if f.Mark? || f.Update? || f.Commit? || f.Leave? { CommittingStable(g, g', t, d, f); }
    else { LlxStable(g, g', t, d, f); }
  }

  // ---------------------------------------------------------------- consequences of the invariant

  lemma DoomedOr(g: Shared, o: OpId)
    requires o in g.ops && OpInv(g, o) && g.ops[o].allFrozen
    ensures g.ops[o].st != Aborted
  {
    forall i | 0 <= i < |Op(g, o).nodes| ensures !Lost(g, o, i) { assert Froze(g, o, i); }
  }

  // Only a decided operation's handle can be replaced, and never on a node it finalizes.
  lemma ReplacedMeansDecided(g: Shared, n: nat, o: OpId)
    requires OpsInv(g) && n < |g.nodes| && NodeInv(g, n) && Over(g.nodes[n].hist, H(o))
    ensures o in g.ops && g.ops[o].st != InProgress && (g.ops[o].st == Committed ==> !Finalizes(g.ops[o], n))
  {
    var hist := g.nodes[n].hist;
    var p :| 0 <= p < |hist| && hist[p] == H(o);
    assert LinkInv(g, n, p + 1);
    var o' := hist[p + 1].o;
    assert OpInv(g, o');
  }

  // A node held for an operation that will finalize it still holds it.
  lemma FinalizedHolds(g: Shared, o: OpId, i: nat)
    requires OpsInv(g) && NodesInv(g) && o in g.ops && g.ops[o].allFrozen && i < |g.ops[o].nodes|
        && i < |g.ops[o].finalize| && g.ops[o].finalize[i]
    ensures g.ops[o].nodes[i] < |g.nodes| && ScxPtr(g, g.ops[o].nodes[i]) == H(o)
        && Finalizes(g.ops[o], g.ops[o].nodes[i])
  {
    assert OpInv(g, o);
    var n := g.ops[o].nodes[i];
    assert NodeInv(g, n) && Froze(g, o, i);
    assert Finalizes(g.ops[o], n);
    if ScxPtr(g, n) != H(o) {
      ReplacedMeansDecided(g, n, o);
      DoomedOr(g, o);
    }
  }

  // ---------------------------------------------------------------- freezing

  ghost predicate FreezeReady(g: Shared, o: OpId, i: nat) {
    && o in g.ops && i < |g.ops[o].nodes| && i < |g.ops[o].seen|
    && ScxPtr(g, g.ops[o].nodes[i]) == g.ops[o].seen[i]
    && (i > 0 ==> Froze(g, o, 0))
  }

  // The handle that precedes a tag determines it, so a tag is placed on a node only once.
  lemma NotFrozenBefore(g: Shared, o: OpId, i: nat)
    requires FreezeReady(g, o, i) && OpInv(g, o) && NodeInv(g, g.ops[o].nodes[i])
    ensures !Froze(g, o, i)
  {
    var n := g.ops[o].nodes[i];
    var hist := g.nodes[n].hist;
    forall p | 0 <= p < |hist| ensures hist[p] != H(o) {
      if p > 0 { assert LinkInv(g, n, p); }
    }
  }

  lemma FreezeUnmarked(g: Shared, o: OpId, i: nat)
    requires FreezeReady(g, o, i) && OpsInv(g) && NodesInv(g)
    ensures !NodeOf(g, g.ops[o].nodes[i]).marked
  {
    assert OpInv(g, o);
    var n := g.ops[o].nodes[i];
    assert NodeInv(g, n);
    if g.nodes[n].marked {
      var p := ScxPtr(g, n).o;
      assert OpInv(g, p);
      DoomedOr(g, p);
      assert false;
    }
  }

  lemma FreezeNodeExt(g: Shared, o: OpId, i: nat)
    requires FreezeReady(g, o, i) && OpsInv(g) && NodesInv(g)
    ensures Ext(g, FreezeNode(g, g.ops[o].nodes[i], o))
    ensures Distinct(NodeOf(FreezeNode(g, g.ops[o].nodes[i], o), g.ops[o].nodes[i]).hist)
  {
    assert OpInv(g, o);
    var n := g.ops[o].nodes[i];
    assert NodeInv(g, n);
    NotFrozenBefore(g, o, i);
    var g' := FreezeNode(g, n, o);
    assert g'.nodes[n].hist == g.nodes[n].hist + [H(o)];
    forall x | Over(g.nodes[n].hist, x) ensures Over(g'.nodes[n].hist, x) {}
    forall x, j | x in g.ops && Lost(g, x, j) ensures Lost(g', x, j) {
      FreezeKeepsLost(g, o, i, x, j);
    }
    forall x | x in g.ops ensures OExt(g, g', x) {}
  }

  lemma FreezeKeepsLost(g: Shared, o: OpId, i: nat, x: OpId, j: nat)
    requires FreezeReady(g, o, i) && OpInv(g, o) && g.ops[o].nodes[i] < |g.nodes|
        && g.nodes[g.ops[o].nodes[i]].hist != []
    requires !Froze(g, o, i) && x in g.ops && Lost(g, x, j)
    ensures Lost(FreezeNode(g, g.ops[o].nodes[i], o), x, j)
  {
    var n := g.ops[o].nodes[i];
    var g' := FreezeNode(g, n, o);
    if g.ops[x].nodes[j] == n {
      assert g'.nodes[n].hist == g.nodes[n].hist + [H(o)];
      assert x != o;
    }
  }
}
