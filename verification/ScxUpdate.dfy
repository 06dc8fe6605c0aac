/**
 SCX changes its field once, and atomically.

 This needs the caller's part of the contract: every operation on a field freezes the node that the
 field belongs to, its old value was read while that node held the handle that LLX returned, and
 values that left the field do not come back.
 */
module ScxUpdate {
  import opened Scx
  import opened ScxProof
  import opened ScxSafety
  import opened ScxHistory

  // ---------------------------------------------------------------- only update CASes write

  // An update CAS for `o` succeeds.
  ghost predicate Writes(g: Shared, g': Shared, o: OpId) {
    && o in g.ops && g.ops[o].allFrozen && Marked(g, o, |g.ops[o].nodes|)
    && g.ops[o].field < |g.data| && g.data[g.ops[o].field] == g.ops[o].oldVal
    && g'.data == g.data[g.ops[o].field := g.ops[o].newVal]
  }

  ghost predicate WritesAt(b: seq<State>, i: int, o: OpId) { 0 <= i < |b| - 1 && Writes(b[i].g, b[i + 1].g, o) }

  lemma ActWrites(g: Shared, t: nat, d: nat, f: Frame)
    requires FrameInv(g, t, d, f)
    ensures Act(g, t, f).g.data == g.data || (f.Update? && Writes(g, Act(g, t, f).g, f.o))
  {}

  lemma StepWrites(s: State, s': State)
    requires Inv(s) && Step(s, s')
    ensures s'.g.data == s.g.data || exists o :: Writes(s.g, s'.g, o)
  {
    var t: nat :| StepBy(s, t, s');
    if BusyStep(s, t, s') {
      var d := |s.stacks[t]| - 1;
      assert FrameInv(s.g, t, d, s.stacks[t][d]);
      ActWrites(s.g, t, d, s.stacks[t][d]);
    }
  }

  /** No step but a successful update CAS of a fully frozen operation changes a field. */
  lemma OnlyUpdatesWrite(b: seq<State>, n: nat, i: nat)
    requires Run(b, n) && i + 1 < |b|
    ensures b[i + 1].g.data == b[i].g.data || exists o :: WritesAt(b, i, o)
  {
    RunKeeps(b, n, i);
    assert StepAt(b, i);
    StepWrites(b[i], b[i + 1]);
    if b[i + 1].g.data != b[i].g.data {
      var o :| Writes(b[i].g, b[i + 1].g, o);
      assert WritesAt(b, i, o);
    }
  }

  lemma {:induction false} SameLength(b: seq<State>, n: nat, i: nat)
    requires Run(b, n) && i < |b|
    ensures |b[i].g.data| == |b[0].g.data|
  {
    if i > 0 {
      SameLength(b, n, i - 1);
      OnlyUpdatesWrite(b, n, i - 1);
    }
  }

  // ---------------------------------------------------------------- the caller's part

  function Value(b: seq<State>, i: int, x: nat): int {
    if 0 <= i < |b| && x < |b[i].g.data| then b[i].g.data[x] else 0
  }

  ghost predicate NeverReturns(b: seq<State>, x: nat) {
    forall i, k, j :: 0 <= i <= k <= j < |b| && Value(b, i, x) == Value(b, j, x) ==> Value(b, k, x) == Value(b, i, x)
  }

  // Before it published `o` the caller read the old value, while its LLX of node `m` was valid.
  ghost predicate ReadOld(b: seq<State>, p: int, op: SOp, o: OpId, m: nat, e: int) {
    && 0 <= p < |b| && 0 <= e < |op.nodes| && e < |op.seen| && op.nodes[e] == m
    && o !in b[p].g.ops && ScxPtr(b[p].g, m) == op.seen[e] && Decided(b[p].g, op.seen[e])
    && Value(b, p, op.field) == op.oldVal
  }

  ghost predicate Careful(b: seq<State>, op: SOp, o: OpId, m: nat) {
    op.oldVal != op.newVal && exists p, e :: ReadOld(b, p, op, o, m, e)
  }

  // Field `x` belongs to node `m`.
  ghost predicate Discipline(b: seq<State>, x: nat, m: nat) {
    && |b| > 0 && x < |b[0].g.data| && m < |b[0].g.nodes| && NeverReturns(b, x)
    && forall i, o :: 0 <= i < |b| && o in b[i].g.ops && b[i].g.ops[o].field == x ==> Careful(b, b[i].g.ops[o], o, m)
  }

  // ---------------------------------------------------------------- writes are made in progress

  lemma OpKept(b: seq<State>, n: nat, i: nat, j: nat, o: OpId)
    requires Run(b, n) && i <= j < |b| && o in b[i].g.ops
    ensures o in b[j].g.ops && b[j].g.ops[o] == b[i].g.ops[o].(allFrozen := b[j].g.ops[o].allFrozen,
        st := b[j].g.ops[o].st)
    ensures b[i].g.ops[o].st != InProgress ==> b[j].g.ops[o].st == b[i].g.ops[o].st
  {
    RunExt(b, n, i, j);
    assert OExt(b[i].g, b[j].g, o);
  }

  // An update CAS of a committed operation, by a late helper, fails.
  lemma LateFails(b: seq<State>, n: nat, i: nat, o: OpId, x: nat, m: nat)
    requires Run(b, n) && Discipline(b, x, m) && i < |b| && o in b[i].g.ops && b[i].g.ops[o].field == x
    requires b[i].g.ops[o].st == Committed
    ensures Value(b, i, x) != b[i].g.ops[o].oldVal
  {
    var op := b[i].g.ops[o];
    RunKeeps(b, n, i);
    assert OpInv(b[i].g, o);
    SwungHasStep(b, n, i, o);
    var q: nat :| 0 <= q < i && SwingsAt(b, q, o);
    OpKept(b, n, q, i, o);
    SameLength(b, n, q);
    SameLength(b, n, q + 1);
    assert Careful(b, op, o, m);
    var p, e :| ReadOld(b, p, op, o, m, e);
    if q < p { OpKept(b, n, q, p, o); }
    assert Value(b, q, x) == op.oldVal ==> Value(b, q + 1, x) == op.newVal;
    assert Value(b, p, x) == op.oldVal;
  }

  /** A successful update CAS is made while the operation is in progress and holds all its nodes. */
  lemma WritesInProgress(b: seq<State>, n: nat, i: nat, o: OpId, x: nat, m: nat)
    requires Run(b, n) && Discipline(b, x, m) && WritesAt(b, i, o) && b[i].g.ops[o].field == x
    ensures b[i].g.ops[o].st == InProgress && HoldsAll(b[i].g, o)
  {
    RunKeeps(b, n, i);
    assert OpInv(b[i].g, o);
    if b[i].g.ops[o].st == Committed { LateFails(b, n, i, o, x, m); }
    if b[i].g.ops[o].st == Aborted { DoomedOr(b[i].g, o); }
    FrozenHolds(b[i].g, o);
  }

  // ---------------------------------------------------------------- the first one succeeds

  lemma {:induction false} FirstChange(b: seq<State>, p: nat, q: nat, x: nat) returns (r: nat)
    requires p <= q < |b| && Value(b, p, x) != Value(b, q, x)
    ensures p <= r < q && Value(b, r, x) == Value(b, p, x) && Value(b, r + 1, x) != Value(b, r, x)
    decreases q - p
  {
    r := p;
    if Value(b, p + 1, x) == Value(b, p, x) { r := FirstChange(b, p + 1, q, x); }
  }

  lemma WhoWrote(b: seq<State>, n: nat, r: nat, x: nat) returns (o: OpId)
    requires Run(b, n) && r + 1 < |b| && x < |b[0].g.data| && Value(b, r + 1, x) != Value(b, r, x)
    ensures WritesAt(b, r, o) && b[r].g.ops[o].field == x
  {
    SameLength(b, n, r);
    SameLength(b, n, r + 1);
    OnlyUpdatesWrite(b, n, r);
    o :| WritesAt(b, r, o);
  }

  // Between a valid LLX of node `m` and an instant at which `o`, which relies on it, holds `m` in
  // progress, no other operation in progress holds `m`.
  lemma NobodyBetween(b: seq<State>, n: nat, p: nat, r: nat, q: nat, o: OpId, e: nat, o': OpId)
    requires Run(b, n) && p <= r <= q < |b| && o in b[q].g.ops && o' in b[r].g.ops && o != o'
    requires e < |b[q].g.ops[o].nodes| && e < |b[q].g.ops[o].seen| && b[q].g.ops[o].nodes[e] < |b[0].g.nodes|
    requires var m := b[q].g.ops[o].nodes[e];
             && ScxPtr(b[p].g, m) == b[q].g.ops[o].seen[e] && Decided(b[p].g, b[q].g.ops[o].seen[e])
             && ScxPtr(b[r].g, m) == H(o') && ScxPtr(b[q].g, m) == H(o)
    ensures b[r].g.ops[o'].st != InProgress || b[q].g.ops[o].st != InProgress
  {
    var m := b[q].g.ops[o].nodes[e];
    RunKeeps(b, n, p);
    RunKeeps(b, n, r);
    RunKeeps(b, n, q);
    RunExt(b, n, 0, p);
    RunExt(b, n, p, r);
    RunExt(b, n, r, q);
    NodeExt(b[p].g, b[r].g, m);
    NodeExt(b[r].g, b[q].g, m);
    assert NodeInv(b[p].g, m) && NodeInv(b[r].g, m) && NodeInv(b[q].g, m);
    assert Froze(b[q].g, o, e);
    // `o` has not frozen `m` by `r`, or its tag would have been replaced
    if H(o) !in NodeOf(b[r].g, m).hist {
      UnchangedSinceSeen(b, n, r, q, o, e);
      assert OExt(b[p].g, b[r].g, o');
    }
  }

  lemma HoldsOne(g: Shared, o: OpId, i: int)
    requires o in g.ops && HoldsAll(g, o) && 0 <= i < |g.ops[o].nodes|
    ensures ScxPtr(g, g.ops[o].nodes[i]) == H(o)
  {
    assert ScxPtr(g, Op(g, o).nodes[i]) == H(o);
  }

  // An operation that has not written yet finds the old value.
  lemma SwingFindsOld(b: seq<State>, n: nat, q: nat, o: OpId, x: nat, m: nat)
    requires Run(b, n) && Discipline(b, x, m) && SwingsAt(b, q, o) && b[q].g.ops[o].field == x
    requires forall r :: r < q ==> !WritesAt(b, r, o)
    ensures WritesAt(b, q, o)
  {
    var op := b[q].g.ops[o];
    assert Careful(b, op, o, m);
    var p: nat, e: nat :| ReadOld(b, p, op, o, m, e);
    if q < p { OpKept(b, n, q, p, o); }
    SameLength(b, n, q);
    if Value(b, q, x) != op.oldVal {
      var r := FirstChange(b, p, q, x);
      var o' := WhoWrote(b, n, r, x);
      WritesInProgress(b, n, r, o', x, m);
      assert Careful(b, b[r].g.ops[o'], o', m);
      var p', e' :| ReadOld(b, p', b[r].g.ops[o'], o', m, e');
      HoldsOne(b[r].g, o', e');
      HoldsOne(b[q].g, o, e);
      NobodyBetween(b, n, p, r, q, o, e, o');
      assert false;
    }
    assert b[q + 1].g.data == b[q].g.data[x := op.newVal];
  }

  // ---------------------------------------------------------------- the theorem

  lemma GoneAfter(b: seq<State>, n: nat, i: nat, j: nat, o: OpId, x: nat, m: nat)
    requires Run(b, n) && Discipline(b, x, m) && WritesAt(b, i, o) && i < j < |b| && b[i].g.ops[o].field == x
    ensures Value(b, j, x) != b[i].g.ops[o].oldVal
  {
    SameLength(b, n, i);
    SameLength(b, n, i + 1);
    assert Careful(b, b[i].g.ops[o], o, m);
    assert Value(b, i, x) == b[i].g.ops[o].oldVal && Value(b, i + 1, x) == b[i].g.ops[o].newVal;
  }

  lemma WritesOnce(b: seq<State>, n: nat, i: nat, j: nat, o: OpId, x: nat, m: nat)
    requires Run(b, n) && Discipline(b, x, m) && WritesAt(b, i, o) && WritesAt(b, j, o) && b[i].g.ops[o].field == x
    ensures i >= j
  {
    if i < j {
      OpKept(b, n, i, j, o);
      GoneAfter(b, n, i, j, o, x, m);
    }
  }

  lemma {:induction false} FirstWrite(b: seq<State>, n: nat, q: nat, o: OpId, x: nat, m: nat) returns (i: nat)
    requires Run(b, n) && Discipline(b, x, m) && SwingsAt(b, q, o) && b[q].g.ops[o].field == x
    ensures i <= q && WritesAt(b, i, o)
  {
    if r :| 0 <= r < q && WritesAt(b, r, o) { i := r; } else {
      SwingFindsOld(b, n, q, o, x, m);
      i := q;
    }
  }

  /**
   A committed operation took its field from the old to the new value exactly once, at a step at which
   it was in progress, held all its nodes and had marked those it finalizes.
   */
  lemma CommittedWroteOnce(b: seq<State>, n: nat, j: nat, o: OpId, x: nat, m: nat) returns (i: nat)
    requires Run(b, n) && Discipline(b, x, m) && j < |b| && o in b[j].g.ops
    requires b[j].g.ops[o].field == x && b[j].g.ops[o].st == Committed
    ensures i < j && WritesAt(b, i, o) && b[i].g.ops[o].st == InProgress && HoldsAll(b[i].g, o)
    ensures forall k :: WritesAt(b, k, o) ==> k == i
  {
    RunKeeps(b, n, j);
    assert OpInv(b[j].g, o);
    SwungHasStep(b, n, j, o);
    var q: nat :| 0 <= q < j && SwingsAt(b, q, o);
    OpKept(b, n, q, j, o);
    i := FirstWrite(b, n, q, o, x, m);
    OpKept(b, n, i, j, o);
    WritesInProgress(b, n, i, o, x, m);
    forall k | WritesAt(b, k, o) ensures k == i {
      OpKept(b, n, if i < k then i else k, if i < k then k else i, o);
      WritesOnce(b, n, i, k, o, x, m);
      WritesOnce(b, n, k, i, o, x, m);
    }
  }

  /** An aborted operation never wrote. */
  lemma AbortedNeverWrote(b: seq<State>, n: nat, i: nat, j: nat, o: OpId)
    requires Run(b, n) && i < |b| && j < |b| && o in b[j].g.ops && b[j].g.ops[o].st == Aborted
    ensures !WritesAt(b, i, o)
  {
    if WritesAt(b, i, o) { AbortedOrFrozen(b, n, j, i, o); }
  }

  // ---------------------------------------------------------------- what LLX copies

  // While a node keeps the handle of a decided operation, no field of it changes.
  lemma UnchangedWhileHeld(b: seq<State>, n: nat, k: nat, j: nat, x: nat, m: nat, hd: Handle)
    requires Run(b, n) && Discipline(b, x, m) && k <= j < |b|
    requires hd in NodeOf(b[k].g, m).hist && Decided(b[k].g, hd) && ScxPtr(b[j].g, m) == hd
    ensures Value(b, k, x) == Value(b, j, x)
  {
    if Value(b, k, x) != Value(b, j, x) {
      var r := FirstChange(b, k, j, x);
      var o := WhoWrote(b, n, r, x);
      WritesInProgress(b, n, r, o, x, m);
      assert Careful(b, b[r].g.ops[o], o, m);
      var p, e :| ReadOld(b, p, b[r].g.ops[o], o, m, e);
      HoldsOne(b[r].g, o, e);
      KeptHandle(b, n, k, r, j, m, hd);
      DecidedOn(b, n, k, r, hd);
    }
  }

  lemma KeptHandle(b: seq<State>, n: nat, k: nat, r: nat, j: nat, m: nat, hd: Handle)
    requires Run(b, n) && k <= r <= j < |b| && m < |b[0].g.nodes| && hd in NodeOf(b[k].g, m).hist
        && ScxPtr(b[j].g, m) == hd
    ensures ScxPtr(b[r].g, m) == hd
  {
    RunKeeps(b, n, r);
    RunExt(b, n, 0, r);
    RunExt(b, n, k, r);
    RunExt(b, n, r, j);
    NodeExt(b[k].g, b[r].g, m);
    NodeExt(b[r].g, b[j].g, m);
    assert NodeInv(b[r].g, m);
    assert Over(NodeOf(b[r].g, m).hist, hd) ==> Over(NodeOf(b[j].g, m).hist, hd);
  }

  lemma DecidedOn(b: seq<State>, n: nat, k: nat, r: nat, hd: Handle)
    requires Run(b, n) && k <= r < |b| && Decided(b[k].g, hd)
    ensures Decided(b[r].g, hd)
  {
    RunExt(b, n, k, r);
    if hd.H? { assert OExt(b[k].g, b[r].g, hd.o); }
  }

  // Thread `t` is between the check of the mark, after which LLX copies the fields, and the second read of scxPtr.
  ghost predicate Copies(s: State, t: nat, m: nat, hd: Handle) {
    && t < |s.stacks| && s.stacks[t] != []
    && var f := Top(s.stacks[t]); f.LlxAgain? && f.n == m && f.hd == hd
  }

  // Thread `t`'s LLX of node `m` returns `hd`.
  ghost predicate Returns(b: seq<State>, j: nat, t: nat, m: nat, hd: Handle) {
    && j < |b| - 1 && t < |b[j].stacks| && b[j].stacks[t] != [] && BusyStep(b[j], t, b[j + 1])
    && b[j + 1].g.answers == b[j].g.answers + [Got(m, hd)]
  }

  lemma GotStep(g: Shared, t: nat, f: Frame, m: nat, hd: Handle)
    requires Act(g, t, f).g.answers == g.answers + [Got(m, hd)]
    ensures ScxPtr(g, m) == hd
  {
    assert Act(g, t, f).g.answers[|g.answers|] == Got(m, hd);
  }

  /**
   An LLX that returns a handle has copied a snapshot: at every instant at which it may have read a field, that field
   had the value which it has at the last access.
   */
  lemma LlxCopiesSnapshot(b: seq<State>, n: nat, k: nat, j: nat, t: nat, x: nat, m: nat, hd: Handle)
    requires Run(b, n) && Discipline(b, x, m) && k <= j && Returns(b, j, t, m, hd) && Copies(b[k], t, m, hd)
    ensures Value(b, k, x) == Value(b, j, x)
  {
    GotStep(b[j].g, t, Top(b[j].stacks[t]), m, hd);
    RunKeeps(b, n, k);
    var d := |b[k].stacks[t]| - 1;
    assert FrameInv(b[k].g, t, d, b[k].stacks[t][d]);
    UnchangedWhileHeld(b, n, k, j, x, m, hd);
  }
}
