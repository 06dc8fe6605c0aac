/**
 Every reachable state of LLX/SCX satisfies the invariant.
 */
module ScxSafety {
  import opened Scx
  import opened ScxProof

  // ---------------------------------------------------------------- what carries over unchanged

  lemma WellFormedCarries(g: Shared, g': Shared, op: SOp)
    requires Ext(g, g') && WellFormed(g, op)
    ensures WellFormed(g', op)
  {
    forall i | 0 <= i < |op.nodes| ensures op.nodes[i] < |g'.nodes| && Linkable(g', op.nodes[i], op.seen[i]) {
      LinkableStable(g, g', op.nodes[i], op.seen[i]);
    }
  }

  lemma DoomedStable(g: Shared, g': Shared, o: OpId)
    requires Ext(g, g') && o in g.ops && Doomed(g, o)
    ensures Doomed(g', o)
  {
    assert OExt(g, g', o);
    var i :| 0 <= i < |Op(g, o).nodes| && Lost(g, o, i);
    assert Lost(g', o, i);
  }

  // An operation's invariant after a step, from facts about the state before it.
  lemma OpMoves(g: Shared, g': Shared, o: OpId)
    requires Ext(g, g') && o in g.ops && OpInv(g, o)
    requires o in g'.ops && g.dseq[o.tid] <= g'.dseq[o.tid]
        && (g'.ops[o].st == InProgress ==> g'.dseq[o.tid] == g.dseq[o.tid])
    requires g'.ops[o].st == Aborted ==> Doomed(g, o)
    requires g'.ops[o].st == Committed ==> g'.ops[o].allFrozen && Marked(g, o, |g.ops[o].nodes|) && o in g'.swung
    requires g'.ops[o].allFrozen ==> FrozeAll(g, o, |g.ops[o].nodes|)
    requires o in g'.results ==> g'.ops[o].st != InProgress && g'.results[o] == (g'.ops[o].st == Committed)
    ensures OpInv(g', o)
  {
    assert OExt(g, g', o);
    WellFormedCarries(g, g', g.ops[o]);
    if g'.ops[o].st == Aborted { DoomedStable(g, g', o); }
    if g'.ops[o].st == Committed { MarkedStable(g, g', o, |g.ops[o].nodes|); }
    if g'.ops[o].allFrozen { FrozeStable(g, g', o, |g.ops[o].nodes|); }
  }

  lemma OpCarries(g: Shared, g': Shared, o: OpId)
    requires Ext(g, g') && o in g.ops && OpInv(g, o) && o in g'.ops && g'.ops[o] == g.ops[o]
    requires g.dseq[o.tid] <= g'.dseq[o.tid] && (g.ops[o].st == InProgress ==> g'.dseq[o.tid] == g.dseq[o.tid])
    requires o in g'.results ==> (o in g.results && g'.results[o] == g.results[o])
    ensures OpInv(g', o)
  {
    OpMoves(g, g', o);
  }

  lemma NodeCarries(g: Shared, g': Shared, n: nat)
    requires Ext(g, g') && n < |g.nodes| && NodeInv(g, n) && g'.nodes[n] == g.nodes[n]
    ensures NodeInv(g', n)
  {
    forall p | 0 < p < |NodeOf(g', n).hist| ensures LinkInv(g', n, p) {
      LinkCarries(g, g', n, p);
    }
    if g.nodes[n].marked { assert OExt(g, g', ScxPtr(g, n).o); }
  }

  lemma LinkCarries(g: Shared, g': Shared, n: nat, p: nat)
    requires Ext(g, g') && n < |g.nodes| && 0 < p < |NodeOf(g, n).hist| && LinkInv(g, n, p)
    requires p < |NodeOf(g', n).hist| && g'.nodes[n].hist[..p + 1] == g.nodes[n].hist[..p + 1]
    ensures LinkInv(g', n, p)
  {
    var x := g.nodes[n].hist[p].o;
    assert OExt(g, g', x);
    assert FrozeAll(g, x, 1);
    FrozeStable(g, g', x, 1);
    assert Froze(g', x, 0);
    assert g'.nodes[n].hist[..p + 1][p] == g.nodes[n].hist[p]
        && g'.nodes[n].hist[..p + 1][p - 1] == g.nodes[n].hist[p - 1];
  }

  lemma LinkedCarries(g: Shared, g': Shared)
    requires Ext(g, g') && LinkedInv(g) && g'.linked == g.linked
    ensures LinkedInv(g')
  {
    forall t, n | 0 <= t < |g'.linked| && n in g'.linked[t] ensures n < |g'.nodes| && Linkable(g', n, g'.linked[t][n]) {
      LinkableStable(g, g', n, g.linked[t][n]);
    }
  }

  ghost predicate SameTables(g: Shared, g': Shared) {
    g'.dseq == g.dseq && g'.linked == g.linked && g'.results == g.results
  }

  // Only operation `o` and node `n` may have changed.
  lemma Carry(g: Shared, g': Shared, o: OpId, n: nat)
    requires SharedInv(g) && Ext(g, g') && SameTables(g, g') && g'.ops.Keys == g.ops.Keys
    requires forall x :: x in g.ops && x != o ==> g'.ops[x] == g.ops[x]
    requires forall m :: 0 <= m < |g.nodes| && m != n ==> g'.nodes[m] == g.nodes[m]
    requires o in g.ops ==> OpInv(g', o)
    requires n < |g.nodes| ==> NodeInv(g', n)
    ensures SharedInv(g')
  {
    forall x | x in g'.ops ensures OpInv(g', x) {
      if x != o { assert OpInv(g, x); OpCarries(g, g', x); }
    }
    forall m | 0 <= m < |g'.nodes| ensures NodeInv(g', m) {
      if m != n { assert NodeInv(g, m); NodeCarries(g, g', m); }
    }
    LinkedCarries(g, g');
  }

  // ---------------------------------------------------------------- the effects

  lemma FreezeNodeOk(g: Shared, o: OpId, i: nat)
    requires SharedInv(g) && FreezeReady(g, o, i)
    ensures SharedInv(FreezeNode(g, g.ops[o].nodes[i], o)) && Ext(g, FreezeNode(g, g.ops[o].nodes[i], o))
    ensures Froze(FreezeNode(g, g.ops[o].nodes[i], o), o, i)
  {
    assert OpInv(g, o);
    var n := g.ops[o].nodes[i];
    var g' := FreezeNode(g, n, o);
    FreezeNodeExt(g, o, i);
    FreezeUnmarked(g, o, i);
    OpCarries(g, g', o);
    FrozenNodeInv(g, o, i);
    Carry(g, g', o, n);
  }

  lemma FrozenNodeInv(g: Shared, o: OpId, i: nat)
    requires FreezeReady(g, o, i) && OpInv(g, o) && NodeInv(g, g.ops[o].nodes[i]) && !g.nodes[g.ops[o].nodes[i]].marked
    requires Ext(g, FreezeNode(g, g.ops[o].nodes[i], o))
    requires Distinct(FreezeNode(g, g.ops[o].nodes[i], o).nodes[g.ops[o].nodes[i]].hist)
    ensures NodeInv(FreezeNode(g, g.ops[o].nodes[i], o), g.ops[o].nodes[i])
  {
    var n := g.ops[o].nodes[i];
    var g' := FreezeNode(g, n, o);
    var hist, hist' := g.nodes[n].hist, g'.nodes[n].hist;
    assert hist' == hist + [H(o)];
    forall p | 0 < p < |hist'| ensures LinkInv(g', n, p) {
      if p < |hist| {
        assert hist'[..p + 1] == hist[..p + 1];
        assert LinkInv(g, n, p);
        LinkCarries(g, g', n, p);
      } else {
        assert Expects(g'.ops[o], n, hist'[p - 1]);
        if i > 0 { assert FrozeAll(g, o, 1); FrozeStable(g, g', o, 1); }
        assert Froze(g', o, 0);
      }
    }
  }

  // Ops and nodes may have changed at one place; what `Ext` asks of the rest is immediate.
  lemma ExtOps(g: Shared, g': Shared)
    requires g'.nodes == g.nodes && |g'.dseq| == |g.dseq| && |g'.linked| == |g.linked| && g.swung <= g'.swung
    requires forall x :: x in g.ops ==> OStep(g, g', x)
    ensures Ext(g, g')
  {
    forall x | x in g.ops ensures OExt(g, g', x) {
      forall i | Lost(g, x, i) ensures Lost(g', x, i) {}
    }
  }

  ghost predicate OStep(g: Shared, g': Shared, o: OpId) {
    && o in g.ops && o in g'.ops
    && g'.ops[o] == g.ops[o].(allFrozen := g'.ops[o].allFrozen, st := g'.ops[o].st)
    && (g.ops[o].allFrozen ==> g'.ops[o].allFrozen)
    && (g.ops[o].st != InProgress ==> g'.ops[o].st == g.ops[o].st)
  }

  lemma NodesSame(g: Shared, g': Shared)
    requires Ext(g, g') && NodesInv(g) && g'.nodes == g.nodes
    ensures NodesInv(g')
  {
    forall n | 0 <= n < |g'.nodes| ensures NodeInv(g', n) { assert NodeInv(g, n); NodeCarries(g, g', n); }
  }

  lemma MarkNodeOk(g: Shared, o: OpId, i: nat)
    requires SharedInv(g) && o in g.ops && g.ops[o].allFrozen && i < |g.ops[o].nodes| && i < |g.ops[o].finalize|
        && g.ops[o].finalize[i]
    ensures SharedInv(MarkNode(g, g.ops[o].nodes[i])) && Ext(g, MarkNode(g, g.ops[o].nodes[i]))
  {
    assert OpInv(g, o);
    FinalizedHolds(g, o, i);
    var n := g.ops[o].nodes[i];
    var g' := MarkNode(g, n);
    forall x | x in g.ops ensures OExt(g, g', x) { forall j | Lost(g, x, j) ensures Lost(g', x, j) {} }
    OpCarries(g, g', o);
    assert NodeInv(g, n);
    forall p | 0 < p < |NodeOf(g', n).hist| ensures LinkInv(g', n, p) {
      assert LinkInv(g, n, p);
      LinkCarries(g, g', n, p);
    }
    Carry(g, g', o, n);
  }

  // An operation whose nodes were all frozen at some time is not doomed.
  lemma NotDoomed(g: Shared, o: OpId)
    requires o in g.ops && FrozeAll(g, o, |g.ops[o].nodes|)
    ensures !Doomed(g, o)
  {
    forall i | 0 <= i < |Op(g, o).nodes| ensures !Lost(g, o, i) { assert Froze(g, o, i); }
  }

  lemma SetFrozenOk(g: Shared, o: OpId)
    requires SharedInv(g) && o in g.ops && FrozeAll(g, o, |g.ops[o].nodes|)
    ensures SharedInv(SetFrozen(g, o)) && Ext(g, SetFrozen(g, o)) && SetFrozen(g, o).ops[o].allFrozen
  {
    var g' := SetFrozen(g, o);
    assert OpInv(g, o);
    NotDoomed(g, o);
    ExtOps(g, g');
    OpMoves(g, g', o);
    Carry(g, g', o, |g.nodes|);
  }

  lemma DoomedNotFrozen(g: Shared, o: OpId)
    requires o in g.ops && OpInv(g, o) && Doomed(g, o)
    ensures !g.ops[o].allFrozen && g.ops[o].st != Committed
  {
    if g.ops[o].allFrozen { NotDoomed(g, o); }
  }

  // Writing a final state extends the history when it agrees with a state already decided.
  lemma SetStateExt(g: Shared, o: OpId, st: Status)
    requires o in g.ops && st != InProgress && (g.ops[o].st == InProgress || g.ops[o].st == st)
    requires g.ops[o].st == InProgress ==> Current(g, o)
    ensures Ext(g, SetState(g, o, st)) && SetState(g, o, st).ops[o] == g.ops[o].(st := st)
  {
    ExtOps(g, SetState(g, o, st));
  }

  lemma AbortOp(g: Shared, o: OpId)
    requires o in g.ops && OpInv(g, o) && Doomed(g, o)
    ensures Ext(g, SetState(g, o, Aborted)) && OpInv(SetState(g, o, Aborted), o)
    ensures SetState(g, o, Aborted).ops[o].st == Aborted
  {
    DoomedNotFrozen(g, o);
    SetStateExt(g, o, Aborted);
    OpMoves(g, SetState(g, o, Aborted), o);
  }

  lemma CommitOp(g: Shared, o: OpId)
    requires o in g.ops && OpInv(g, o) && g.ops[o].allFrozen && Marked(g, o, |g.ops[o].nodes|)
    requires g.ops[o].st == InProgress ==> o in g.swung
    ensures Ext(g, SetState(g, o, Committed)) && OpInv(SetState(g, o, Committed), o)
    ensures SetState(g, o, Committed).ops[o].st == Committed
  {
    DoomedOr(g, o);
    SetStateExt(g, o, Committed);
    OpMoves(g, SetState(g, o, Committed), o);
  }

  lemma AbortOk(g: Shared, o: OpId)
    requires SharedInv(g) && o in g.ops && Doomed(g, o)
    ensures SharedInv(SetState(g, o, Aborted)) && Ext(g, SetState(g, o, Aborted))
    ensures SetState(g, o, Aborted).ops[o].st == Aborted
  {
    assert OpInv(g, o);
    AbortOp(g, o);
    Carry(g, SetState(g, o, Aborted), o, |g.nodes|);
  }

  lemma CommitOk(g: Shared, o: OpId)
    requires SharedInv(g) && o in g.ops && g.ops[o].allFrozen && Marked(g, o, |g.ops[o].nodes|)
    requires g.ops[o].st == InProgress ==> o in g.swung
    ensures SharedInv(SetState(g, o, Committed)) && Ext(g, SetState(g, o, Committed))
    ensures SetState(g, o, Committed).ops[o].st == Committed
  {
    assert OpInv(g, o);
    CommitOp(g, o);
    Carry(g, SetState(g, o, Committed), o, |g.nodes|);
  }

  lemma UpdateOk(g: Shared, o: OpId)
    requires SharedInv(g)
    ensures SharedInv(UpdateCas(g, o)) && Ext(g, UpdateCas(g, o))
  {
    var g' := UpdateCas(g, o);
    ExtOps(g, g');
    forall x | x in g'.ops ensures OpInv(g', x) { assert OpInv(g, x); OpCarries(g, g', x); }
    NodesSame(g, g');
    LinkedCarries(g, g');
  }

  lemma LeaveOk(g: Shared, t: nat, o: OpId, won: bool)
    requires SharedInv(g) && o in g.ops && o.tid == t && Current(g, o)
    requires g.ops[o].st != InProgress && won == (g.ops[o].st == Committed)
    ensures var g' := Act(g, t, Leave(o, won)).g; SharedInv(g') && Ext(g, g')
  {
    var g' := Act(g, t, Leave(o, won)).g;
    ExtOps(g, g');
    forall x | x in g'.ops ensures OpInv(g', x) {
      assert OpInv(g, x);
      OpMoves(g, g', x);
    }
    NodesSame(g, g');
    LinkedCarries(g, g');
  }

  lemma LinkOk(g: Shared, t: nat, n: nat, hd: Handle)
    requires SharedInv(g) && n < |g.nodes| && t < |g.linked| && Linkable(g, n, hd)
    ensures var g' := g.(linked := g.linked[t := Link(g.linked[t], n, hd)]); SharedInv(g') && Ext(g, g')
  {
    var g' := g.(linked := g.linked[t := Link(g.linked[t], n, hd)]);
    ExtOps(g, g');
    forall x | x in g'.ops ensures OpInv(g', x) { assert OpInv(g, x); OpCarries(g, g', x); }
    NodesSame(g, g');
    forall u, m | 0 <= u < |g'.linked| && m in g'.linked[u] ensures m < |g'.nodes| && Linkable(g', m, g'.linked[u][m]) {
      if u == t && m == n { LinkableStable(g, g', n, hd); } else { LinkableStable(g, g', m, g.linked[u][m]); }
    }
  }

  lemma TellOk(g: Shared, a: Answer)
    requires SharedInv(g)
    ensures SharedInv(Tell(g, a)) && Ext(g, Tell(g, a))
  {
    var g' := Tell(g, a);
    ExtOps(g, g');
    forall x | x in g'.ops ensures OpInv(g', x) { assert OpInv(g, x); OpCarries(g, g', x); }
    NodesSame(g, g');
    LinkedCarries(g, g');
  }

  // ---------------------------------------------------------------- one step of one record

  ghost predicate TopsInv(g: Shared, t: nat, d: nat, tops: seq<Frame>) {
    forall e :: 0 <= e < |tops| ==> FrameInv(g, t, d + e, tops[e])
  }

  ghost predicate ActOk(g: Shared, t: nat, d: nat, f: Frame) {
    var o := Act(g, t, f);
    && SharedInv(o.g) && Ext(g, o.g) && TopsInv(o.g, t, d, o.tops)
    && (forall u :: 0 <= u < |g.dseq| && (u != t || !f.Leave?) ==> o.g.dseq[u] == g.dseq[u])
    && |o.tops| <= 1
  }

  ghost predicate Ready(g: Shared, t: nat, d: nat, f: Frame) {
    SharedInv(g) && t < |g.dseq| && FrameInv(g, t, d, f)
  }

  // A step with at most one successor record, whose effect on the shared state is known to be fine.
  lemma Goes(g: Shared, t: nat, d: nat, f: Frame, g': Shared, tops: seq<Frame>)
    requires Act(g, t, f) == Out(g', tops) && SharedInv(g') && Ext(g, g') && (g'.dseq == g.dseq || f.Leave?)
        && |tops| <= 1
    requires f.Leave? ==> forall u :: 0 <= u < |g.dseq| && u != t ==> g'.dseq[u] == g.dseq[u]
    requires tops != [] ==> FrameInv(g', t, d, tops[0])
    ensures ActOk(g, t, d, f)
  {}

  lemma ExtSame(g: Shared)
    ensures Ext(g, g)
  {
    ExtOps(g, g);
  }

  lemma FreezeHits(g: Shared, t: nat, d: nat, f: Frame)
    requires Ready(g, t, d, f) && f.Freeze? && f.i < |g.ops[f.o].nodes| && f.i < |g.ops[f.o].seen|
    requires ScxPtr(g, g.ops[f.o].nodes[f.i]) == g.ops[f.o].seen[f.i]
    ensures ActOk(g, t, d, f)
  {
    if f.i > 0 { assert Froze(g, f.o, 0); }
    var g' := FreezeNode(g, g.ops[f.o].nodes[f.i], f.o);
    FreezeNodeOk(g, f.o, f.i);
    AttendsStable(g, g', t, d, f.o, f.h);
    FrozeStable(g, g', f.o, f.i);
    Goes(g, t, d, f, g', [Freeze(f.o, f.h, f.i + 1)]);
  }

  lemma FreezeTries(g: Shared, t: nat, d: nat, f: Frame)
    requires Ready(g, t, d, f) && f.Freeze? && f.i < |g.ops[f.o].nodes|
    ensures ActOk(g, t, d, f)
  {
    var op := g.ops[f.o];
    assert OpInv(g, f.o);
    var n := op.nodes[f.i];
    if ScxPtr(g, n) == op.seen[f.i] {
      FreezeHits(g, t, d, f);
    } else {
      ExtSame(g);
      assert Linkable(g, n, op.seen[f.i]);
      Goes(g, t, d, f, g, [CheckExp(f.o, f.h, f.i)]);
    }
  }

  lemma FreezeEnds(g: Shared, t: nat, d: nat, f: Frame)
    requires Ready(g, t, d, f) && f.Freeze? && f.i >= |g.ops[f.o].nodes|
    ensures ActOk(g, t, d, f)
  {
    var g' := SetFrozen(g, f.o);
    SetFrozenOk(g, f.o);
    AttendsStable(g, g', t, d, f.o, f.h);
    Goes(g, t, d, f, g', [Mark(f.o, f.h, 0)]);
  }

  lemma CheckExpOk(g: Shared, t: nat, d: nat, f: Frame)
    requires Ready(g, t, d, f) && f.CheckExp?
    ensures ActOk(g, t, d, f)
  {
    ExtSame(g);
    assert OpInv(g, f.o);
    var n := g.ops[f.o].nodes[f.i];
    assert NodeInv(g, n);
    if ScxPtr(g, n) == H(f.o) {
      assert Froze(g, f.o, f.i);
      Goes(g, t, d, f, g, [Freeze(f.o, f.h, f.i + 1)]);
    } else {
      if Froze(g, f.o, f.i) { ReplacedMeansDecided(g, n, f.o); }
      Goes(g, t, d, f, g, [ReadFrozen(f.o, f.h, f.i)]);
    }
  }

  // A record that found its node taken, and allFrozen set, speaks of a committed operation.
  lemma TakenAndFrozen(g: Shared, t: nat, d: nat, f: Frame)
    requires Ready(g, t, d, f) && f.ReadFrozen? && g.ops[f.o].allFrozen
    ensures g.ops[f.o].st == Committed
  {
    assert OpInv(g, f.o);
    DoomedOr(g, f.o);
    assert Froze(g, f.o, f.i);
  }

  lemma TakenNotFrozen(g: Shared, t: nat, d: nat, f: Frame)
    requires Ready(g, t, d, f) && f.ReadFrozen? && !g.ops[f.o].allFrozen
    ensures Doomed(g, f.o)
  {
    assert OpInv(g, f.o);
    if !Froze(g, f.o, f.i) { assert Lost(g, f.o, f.i); }
  }

  lemma ReadFrozenOk(g: Shared, t: nat, d: nat, f: Frame)
    requires Ready(g, t, d, f) && f.ReadFrozen?
    ensures ActOk(g, t, d, f)
  {
    ExtSame(g);
    if !Current(g, f.o) {
      Goes(g, t, d, f, g, []);
    } else if g.ops[f.o].allFrozen {
      TakenAndFrozen(g, t, d, f);
      Goes(g, t, d, f, g, Return(f.o, f.h, true));
    } else {
      TakenNotFrozen(g, t, d, f);
      Goes(g, t, d, f, g, [Abort(f.o, f.h)]);
    }
  }

  lemma AbortCommit(g: Shared, t: nat, d: nat, f: Frame)
    requires Ready(g, t, d, f) && (f.Abort? || f.Commit?)
    ensures ActOk(g, t, d, f)
  {
    var g' := Act(g, t, f).g;
    if f.Abort? { AbortOk(g, f.o); } else { CommitOk(g, f.o); }
    AttendsStable(g, g', t, d, f.o, f.h);
    Goes(g, t, d, f, g', Return(f.o, f.h, f.Commit?));
  }

  lemma MarkOne(g: Shared, o: OpId, i: nat)
    requires SharedInv(g) && o in g.ops && g.ops[o].allFrozen && i < |g.ops[o].nodes| && Marked(g, o, i)
    ensures i < |g.ops[o].finalize|
    ensures var g' := if g.ops[o].finalize[i] then MarkNode(g, g.ops[o].nodes[i]) else g;
            SharedInv(g') && Ext(g, g') && Marked(g', o, i + 1)
  {
    assert OpInv(g, o);
    if g.ops[o].finalize[i] {
      var g' := MarkNode(g, g.ops[o].nodes[i]);
      MarkNodeOk(g, o, i);
      MarkedStable(g, g', o, i);
    } else {
      ExtSame(g);
    }
  }

  lemma MarkOk(g: Shared, t: nat, d: nat, f: Frame)
    requires Ready(g, t, d, f) && f.Mark?
    ensures ActOk(g, t, d, f)
  {
    if f.i < |g.ops[f.o].nodes| {
      var g' := Act(g, t, f).g;
      MarkOne(g, f.o, f.i);
      AttendsStable(g, g', t, d, f.o, f.h);
      assert OExt(g, g', f.o);
      Goes(g, t, d, f, g', [Mark(f.o, f.h, f.i + 1)]);
    } else {
      ExtSame(g);
      Goes(g, t, d, f, g, [Update(f.o, f.h)]);
    }
  }

  lemma UpdateStep(g: Shared, t: nat, d: nat, f: Frame)
    requires Ready(g, t, d, f) && f.Update?
    ensures ActOk(g, t, d, f)
  {
    var g' := UpdateCas(g, f.o);
    UpdateOk(g, f.o);
    AttendsStable(g, g', t, d, f.o, f.h);
    MarkedStable(g, g', f.o, |g.ops[f.o].nodes|);
    Goes(g, t, d, f, g', [Commit(f.o, f.h)]);
  }

  lemma LeaveStep(g: Shared, t: nat, d: nat, f: Frame)
    requires Ready(g, t, d, f) && f.Leave?
    ensures ActOk(g, t, d, f)
  {
    LeaveOk(g, t, f.o, f.won);
    Goes(g, t, d, f, Act(g, t, f).g, []);
  }

  // The tag in a node's scxPtr belongs to an operation whose owner froze its first node.
  lemma FoundTag(g: Shared, t: nat, d: nat, n: nat, hd: Handle)
    requires n < |g.nodes| && NodeInv(g, n) && hd in g.nodes[n].hist && hd.H?
    ensures FrameInv(g, t, d, HelpSnap(hd.o))
  {
    var p :| 0 <= p < |g.nodes[n].hist| && g.nodes[n].hist[p] == hd;
    assert LinkInv(g, n, p);
  }

  lemma LlxStateOk(g: Shared, t: nat, d: nat, f: Frame)
    requires Ready(g, t, d, f) && f.LlxState?
    ensures ActOk(g, t, d, f)
  {
    ExtSame(g);
    assert NodeInv(g, f.n);
    if f.hd.H? {
      FoundTag(g, t, d, f.n, f.hd);
      assert OpInv(g, f.hd.o);
    }
    TellOk(g, Nothing(f.n, f.fin));
    Goes(g, t, d, f, Act(g, t, f).g, Act(g, t, f).tops);
  }

  // LLX returns a committed operation's handle only for a node that it does not finalize.
  lemma UnmarkedLinkable(g: Shared, n: nat, hd: Handle)
    requires OpsInv(g) && hd in NodeOf(g, n).hist && Decided(g, hd) && !NodeOf(g, n).marked
    ensures Linkable(g, n, hd)
  {
    if hd.H? && g.ops[hd.o].st == Committed {
      var op := g.ops[hd.o];
      assert OpInv(g, hd.o);
      forall i | 0 <= i < |op.nodes| && i < |op.finalize| && op.nodes[i] == n ensures !op.finalize[i] {
        assert Op(g, hd.o).nodes[i] == n;
      }
    }
  }

  lemma UnmarkedOk(g: Shared, t: nat, d: nat, f: Frame)
    requires Ready(g, t, d, f) && f.LlxUnmarked?
    ensures ActOk(g, t, d, f)
  {
    ExtSame(g);
    if NodeOf(g, f.n).marked {
      TellOk(g, Nothing(f.n, f.fin));
      Goes(g, t, d, f, Tell(g, Nothing(f.n, f.fin)), []);
    } else {
      UnmarkedLinkable(g, f.n, f.hd);
      Goes(g, t, d, f, g, [LlxAgain(f.n, f.fin, f.hd)]);
    }
  }

  lemma LlxOk(g: Shared, t: nat, d: nat, f: Frame)
    requires Ready(g, t, d, f) && (f.HelpSnap? || f.LlxMarked? || f.LlxScx? || f.LlxAgain?)
    ensures ActOk(g, t, d, f)
  {
    ExtSame(g);
    if f.LlxAgain? {
      if ScxPtr(g, f.n) == f.hd {
        LinkOk(g, t, f.n, f.hd);
        var g' := g.(linked := g.linked[t := Link(g.linked[t], f.n, f.hd)]);
        TellOk(g', Got(f.n, f.hd));
        assert Ext(g, Act(g, t, f).g);
      } else {
        TellOk(g, Nothing(f.n, f.fin));
      }
    } else if f.LlxMarked? || f.LlxScx? {
      assert NodeInv(g, f.n);
    } else {
      assert FrozeAll(g, f.o, 1);
    }
    Goes(g, t, d, f, Act(g, t, f).g, Act(g, t, f).tops);
  }

  lemma ActKeeps(g: Shared, t: nat, d: nat, f: Frame)
    requires Ready(g, t, d, f)
    ensures ActOk(g, t, d, f)
  {
    match f
    case Freeze(o, _, i) => if i < |g.ops[o].nodes| { FreezeTries(g, t, d, f); } else { FreezeEnds(g, t, d, f); }
    case CheckExp(_, _, _) => CheckExpOk(g, t, d, f);
    case ReadFrozen(_, _, _) => ReadFrozenOk(g, t, d, f);
    case Abort(_, _) => AbortCommit(g, t, d, f);
    case Commit(_, _) => AbortCommit(g, t, d, f);
    case Mark(_, _, _) => MarkOk(g, t, d, f);
    case Update(_, _) => UpdateStep(g, t, d, f);
    case Leave(_, _) => LeaveStep(g, t, d, f);
    case LlxState(_, _, _) => LlxStateOk(g, t, d, f);
    case LlxUnmarked(_, _, _) => UnmarkedOk(g, t, d, f);
    case _ => LlxOk(g, t, d, f);
  }
}
