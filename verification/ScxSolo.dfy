/**
 SCX without contention: from every reachable state a thread that runs alone commits its SCX on any nodes that are
 unmarked and not held by an operation in progress, whatever the other threads have left unfinished elsewhere.
 */
module ScxSolo {
  import opened Scx
  import opened ScxProof
  import opened ScxSafety
  import opened ScxHistory
  import opened ScxLlx

  // Thread `t` runs alone.
  ghost predicate Alone(c: seq<State>, t: nat) { |c| > 0 && forall i :: 0 <= i < |c| - 1 ==> StepBy(c[i], t, c[i + 1]) }

  function Last(c: seq<State>): State requires |c| > 0 { c[|c| - 1] }

  // Thread `t` can get from `s` to `s'` alone.
  ghost predicate Gets(s: State, t: nat, s': State) { exists c :: Alone(c, t) && c[0] == s && Last(c) == s' }

  lemma Joins(s: State, t: nat, m: State, s': State)
    requires Gets(s, t, m) && Gets(m, t, s')
    ensures Gets(s, t, s')
  {
    var c :| Alone(c, t) && c[0] == s && Last(c) == m;
    var e :| Alone(e, t) && e[0] == m && Last(e) == s';
    var r := c + e[1..];
    forall i | 0 <= i < |r| - 1 ensures StepBy(r[i], t, r[i + 1]) {
      if i < |c| - 1 {
        assert StepBy(c[i], t, c[i + 1]);
      } else {
        var k := i - (|c| - 1);
        assert StepBy(e[k], t, e[k + 1]) && r[i] == e[k] && r[i + 1] == e[k + 1];
      }
    }
    assert Alone(r, t) && Last(r) == s';
  }

  lemma Stays(s: State, t: nat)
    ensures Gets(s, t, s)
  {
    assert Alone([s], t);
  }

  // Thread `t` at record `f`, with the other threads at `stacks`.
  function At(g: Shared, stacks: seq<seq<Frame>>, t: nat, st: seq<Frame>): State requires t < |stacks| {
    State(g, stacks[t := st])
  }

  lemma Goes(g: Shared, stacks: seq<seq<Frame>>, t: nat, f: Frame)
    requires t < |stacks|
    ensures Gets(At(g, stacks, t, [f]), t, At(Act(g, t, f).g, stacks, t, Act(g, t, f).tops))
  {
    var s, s' := At(g, stacks, t, [f]), At(Act(g, t, f).g, stacks, t, Act(g, t, f).tops);
    assert Below(s.stacks[t]) == [] && [] + Act(g, t, f).tops == Act(g, t, f).tops;
    assert StepBy(s, t, s');
    assert Alone([s, s'], t) && Last([s, s']) == s';
  }

  // ---------------------------------------------------------------- LLX

  ghost predicate Free(g: Shared, m: nat) { m < |g.nodes| && !NodeOf(g, m).marked && !Busy(g, ScxPtr(g, m)) }

  function Linked(g: Shared, t: nat, m: nat): Shared requires t < |g.linked| {
    Tell(g.(linked := g.linked[t := Link(g.linked[t], m, ScxPtr(g, m))]), Got(m, ScxPtr(g, m)))
  }

  lemma LlxBegins(g: Shared, stacks: seq<seq<Frame>>, t: nat, m: nat)
    requires t < |stacks| && stacks[t] == [] && t < |g.linked| && t < |g.dseq| && Free(g, m)
    ensures Gets(State(g, stacks), t, At(g, stacks, t, [LlxState(m, false, ScxPtr(g, m))]))
  {
    var s, s1 := State(g, stacks), At(g, stacks, t, [LlxMarked(m)]);
    assert IdleStep(s, t, s1);
    assert StepBy(s, t, s1);
    assert Alone([s, s1], t) && Last([s, s1]) == s1;
    Goes(g, stacks, t, LlxMarked(m));
    Goes(g, stacks, t, LlxScx(m, false));
    Joins(s, t, s1, At(g, stacks, t, [LlxScx(m, false)]));
    Joins(s, t, At(g, stacks, t, [LlxScx(m, false)]), At(g, stacks, t, [LlxState(m, false, ScxPtr(g, m))]));
  }

  lemma Llxes(g: Shared, stacks: seq<seq<Frame>>, t: nat, m: nat)
    requires t < |stacks| && stacks[t] == [] && t < |g.linked| && t < |g.dseq| && Free(g, m)
    requires ScxPtr(g, m).H? ==> ScxPtr(g, m).o in g.ops
    ensures Gets(State(g, stacks), t, State(Linked(g, t, m), stacks))
  {
    var s, hd := State(g, stacks), ScxPtr(g, m);
    LlxBegins(g, stacks, t, m);
    var s1, s2 := At(g, stacks, t, [LlxState(m, false, hd)]), At(g, stacks, t, [LlxAgain(m, false, hd)]);
    Goes(g, stacks, t, LlxState(m, false, hd));
    if StateOf(g, hd) == Committed {
      Goes(g, stacks, t, LlxUnmarked(m, false, hd));
      Joins(s1, t, At(g, stacks, t, [LlxUnmarked(m, false, hd)]), s2);
    }
    Joins(s, t, s1, s2);
    Goes(g, stacks, t, LlxAgain(m, false, hd));
    Joins(s, t, s2, At(Linked(g, t, m), stacks, t, []));
    assert stacks[t := []] == stacks;
  }

  // What LLX leaves alone.
  ghost predicate SameButLinked(g: Shared, g': Shared, t: nat) {
    && t < |g.linked| == |g'.linked| && g' == g.(linked := g'.linked, answers := g'.answers)
  }

  // The first `i` nodes have been read.
  ghost predicate HasLinked(g: Shared, t: nat, ns: seq<nat>, i: nat) {
    t < |g.linked| && forall j :: 0 <= j < i && j < |ns| ==>
        ns[j] in g.linked[t] && g.linked[t][ns[j]] == ScxPtr(g, ns[j])
  }

  ghost predicate Frees(g: Shared, ns: seq<nat>) {
    forall j :: 0 <= j < |ns| ==> Free(g, ns[j]) && (ScxPtr(g, ns[j]).H? ==> ScxPtr(g, ns[j]).o in g.ops)
  }

  lemma {:induction false} LlxAll(g: Shared, stacks: seq<seq<Frame>>, t: nat, ns: seq<nat>, i: nat) returns (g': Shared)
    requires t < |stacks| && stacks[t] == [] && t < |g.linked| && t < |g.dseq| && i <= |ns| && Frees(g, ns)
    ensures Gets(State(g, stacks), t, State(g', stacks)) && SameButLinked(g, g', t) && HasLinked(g', t, ns, i)
  {
    if i == 0 {
      g' := g;
      Stays(State(g, stacks), t);
    } else {
      var h := LlxAll(g, stacks, t, ns, i - 1);
      assert forall m :: ScxPtr(h, m) == ScxPtr(g, m);
      Llxes(h, stacks, t, ns[i - 1]);
      g' := Linked(h, t, ns[i - 1]);
      assert forall m :: ScxPtr(g', m) == ScxPtr(g, m);
      Joins(State(g, stacks), t, State(h, stacks), State(g', stacks));
    }
  }

  // ---------------------------------------------------------------- freezing

  // Nodes change only where `o` works, and there as `done` says for the first `i` of them.
  ghost predicate Freezing(g: Shared, h: Shared, o: OpId, i: nat) {
    && o in g.ops && |h.nodes| == |g.nodes| && h == g.(nodes := h.nodes)
    && forall m :: 0 <= m < |g.nodes| ==> h.nodes[m] == FrozenFor(g.nodes[m], o, Among(g.ops[o], i, m))
  }

  ghost predicate Among(op: SOp, i: nat, m: nat) { exists j :: 0 <= j < i && j < |op.nodes| && op.nodes[j] == m }
  function FrozenFor(m: Node, o: OpId, yes: bool): Node { if yes then m.(hist := m.hist + [H(o)]) else m }

  // `o`'s nodes are distinct and hold the handles that it expects.
  ghost predicate Fresh(g: Shared, o: OpId) {
    && o in g.ops && |g.ops[o].seen| == |g.ops[o].nodes| == |g.ops[o].finalize|
    && (forall i, j :: 0 <= i < j < |g.ops[o].nodes| ==> g.ops[o].nodes[i] != g.ops[o].nodes[j])
    && (forall i :: 0 <= i < |g.ops[o].nodes| ==>
          g.ops[o].nodes[i] < |g.nodes| && ScxPtr(g, g.ops[o].nodes[i]) == g.ops[o].seen[i])
  }

  lemma {:induction false} FreezesAll(g: Shared, stacks: seq<seq<Frame>>, t: nat, o: OpId, i: nat) returns (h: Shared)
    requires t < |stacks| && Fresh(g, o) && i <= |g.ops[o].nodes|
    ensures Gets(At(g, stacks, t, [Freeze(o, false, 0)]), t, At(h, stacks, t, [Freeze(o, false, i)]))
    ensures Freezing(g, h, o, i)
  {
    if i == 0 {
      h := g;
      Stays(At(g, stacks, t, [Freeze(o, false, 0)]), t);
    } else {
      var k := FreezesAll(g, stacks, t, o, i - 1);
      var m := g.ops[o].nodes[i - 1];
      assert k.nodes[m] == g.nodes[m];
      h := FreezeNode(k, m, o);
      Goes(k, stacks, t, Freeze(o, false, i - 1));
      Joins(At(g, stacks, t, [Freeze(o, false, 0)]), t, At(k, stacks, t, [Freeze(o, false, i - 1)]),
            At(h, stacks, t, [Freeze(o, false, i)]));
    }
  }

  // ---------------------------------------------------------------- marking

  ghost predicate Marking(g: Shared, h: Shared, o: OpId, i: nat) {
    && o in g.ops && |h.nodes| == |g.nodes| && h == g.(nodes := h.nodes)
    && forall m :: 0 <= m < |g.nodes| ==> h.nodes[m] == MarkedFor(g.nodes[m], ToMark(g.ops[o], i, m))
  }

  ghost predicate ToMark(op: SOp, i: nat, m: nat) {
    exists j :: 0 <= j < i && j < |op.nodes| && j < |op.finalize| && op.nodes[j] == m && op.finalize[j]
  }
  function MarkedFor(m: Node, yes: bool): Node { if yes then m.(marked := true) else m }

  lemma {:induction false} MarksAll(g: Shared, stacks: seq<seq<Frame>>, t: nat, o: OpId, hp: bool,
      i: nat) returns (h: Shared)
    requires t < |stacks| && o in g.ops && i <= |g.ops[o].nodes| == |g.ops[o].finalize|
    requires forall j :: 0 <= j < |g.ops[o].nodes| ==> g.ops[o].nodes[j] < |g.nodes|
    ensures Gets(At(g, stacks, t, [Mark(o, hp, 0)]), t, At(h, stacks, t, [Mark(o, hp, i)]))
    ensures Marking(g, h, o, i)
  {
    if i == 0 {
      h := g;
      Stays(At(g, stacks, t, [Mark(o, hp, 0)]), t);
    } else {
      var k := MarksAll(g, stacks, t, o, hp, i - 1);
      var m := g.ops[o].nodes[i - 1];
      h := if g.ops[o].finalize[i - 1] then MarkNode(k, m) else k;
      Goes(k, stacks, t, Mark(o, hp, i - 1));
      Joins(At(g, stacks, t, [Mark(o, hp, 0)]), t, At(k, stacks, t, [Mark(o, hp, i - 1)]),
            At(h, stacks, t, [Mark(o, hp, i)]));
    }
  }

  // ---------------------------------------------------------------- the whole operation

  // What a sequential SCX does.
  ghost predicate Done(g: Shared, h: Shared, o: OpId, op: SOp) {
    && o in h.ops && h.ops[o] == op.(allFrozen := true, st := Committed) && o in h.results && h.results[o]
    && h.data == (if op.field < |g.data| && g.data[op.field] == op.oldVal then g.data[op.field := op.newVal]
        else g.data)
    && |h.nodes| == |g.nodes|
    && forall m :: 0 <= m < |g.nodes| ==>
         h.nodes[m] == MarkedFor(FrozenFor(g.nodes[m], o, m in op.nodes), ToMark(op, |op.nodes|, m))
  }

  lemma Executes(g: Shared, stacks: seq<seq<Frame>>, t: nat, o: OpId) returns (h: Shared)
    requires t < |stacks| && stacks[t] == [] && Fresh(g, o) && o.tid == t && Current(g, o)
    requires g.ops[o].st == InProgress && !g.ops[o].allFrozen
    ensures Gets(At(g, stacks, t, [Freeze(o, false, 0)]), t, State(h, stacks)) && Done(g, h, o, g.ops[o])
  {
    var n := |g.ops[o].nodes|;
    var s := At(g, stacks, t, [Freeze(o, false, 0)]);
    var k := FreezesAll(g, stacks, t, o, n);
    var k1 := SetFrozen(k, o);
    Goes(k, stacks, t, Freeze(o, false, n));
    Joins(s, t, At(k, stacks, t, [Freeze(o, false, n)]), At(k1, stacks, t, [Mark(o, false, 0)]));
    var k2 := MarksAll(k1, stacks, t, o, false, n);
    Joins(s, t, At(k1, stacks, t, [Mark(o, false, 0)]), At(k2, stacks, t, [Mark(o, false, n)]));
    h := Commits(k2, stacks, t, o);
    Joins(s, t, At(k2, stacks, t, [Mark(o, false, n)]), State(h, stacks));
    forall m | 0 <= m < |g.nodes|
      ensures h.nodes[m] == MarkedFor(FrozenFor(g.nodes[m], o, m in g.ops[o].nodes), ToMark(g.ops[o], n, m))
    {
      assert Among(g.ops[o], n, m) <==> m in g.ops[o].nodes;
      assert ToMark(k1.ops[o], n, m) == ToMark(g.ops[o], n, m);
    }
  }

  lemma Commits(g: Shared, stacks: seq<seq<Frame>>, t: nat, o: OpId) returns (h: Shared)
    requires t < |stacks| && stacks[t] == [] && o in g.ops && o.tid == t && Current(g, o)
    ensures Gets(At(g, stacks, t, [Mark(o, false, |g.ops[o].nodes|)]), t, State(h, stacks))
    ensures h.nodes == g.nodes && h.data == UpdateCas(g, o).data && o in h.ops && h.ops[o] == g.ops[o].(st := Committed)
    ensures o in h.results && h.results[o]
  {
    var s := At(g, stacks, t, [Mark(o, false, |g.ops[o].nodes|)]);
    Goes(g, stacks, t, Mark(o, false, |g.ops[o].nodes|));
    Goes(g, stacks, t, Update(o, false));
    var g1 := UpdateCas(g, o);
    Joins(s, t, At(g, stacks, t, [Update(o, false)]), At(g1, stacks, t, [Commit(o, false)]));
    Goes(g1, stacks, t, Commit(o, false));
    var g2 := SetState(g1, o, Committed);
    Joins(s, t, At(g1, stacks, t, [Commit(o, false)]), At(g2, stacks, t, [Leave(o, true)]));
    Goes(g2, stacks, t, Leave(o, true));
    h := Act(g2, t, Leave(o, true)).g;
    Joins(s, t, At(g2, stacks, t, [Leave(o, true)]), At(h, stacks, t, []));
    assert stacks[t := []] == stacks;
  }

  lemma Publishes(g: Shared, stacks: seq<seq<Frame>>, t: nat, op: SOp)
    requires t < |stacks| && stacks[t] == [] && t < |g.linked| && t < |g.dseq| && Proper(g, t, op)
    ensures var (g', o) := Publish(g, t, op); Gets(State(g, stacks), t, At(g', stacks, t, [Freeze(o, false, 0)]))
  {
    var (g', o) := Publish(g, t, op);
    var s, s' := State(g, stacks), At(g', stacks, t, [Freeze(o, false, 0)]);
    assert IdleStep(s, t, s');
    assert StepBy(s, t, s');
    assert Alone([s, s'], t) && Last([s, s']) == s';
  }

  // The handles that LLX returns make `op` publishable.
  lemma Prepares(g: Shared, stacks: seq<seq<Frame>>, t: nat, op: SOp) returns (g': Shared)
    requires t < |stacks| && stacks[t] == [] && t < |g.linked| && t < |g.dseq| && Frees(g, op.nodes)
    requires |op.nodes| == |op.finalize| == |op.seen| && !op.allFrozen && op.st == InProgress
    requires forall i, j :: 0 <= i < j < |op.nodes| ==> op.nodes[i] != op.nodes[j]
    requires forall j :: 0 <= j < |op.nodes| ==> op.seen[j] == ScxPtr(g, op.nodes[j])
    ensures Gets(State(g, stacks), t, State(g', stacks)) && SameButLinked(g, g', t) && Proper(g', t, op)
  {
    g' := LlxAll(g, stacks, t, op.nodes, |op.nodes|);
    assert forall m :: ScxPtr(g', m) == ScxPtr(g, m);
  }

  lemma SoloFrom(g: Shared, stacks: seq<seq<Frame>>, t: nat, op: SOp) returns (h: Shared)
    requires t < |stacks| && stacks[t] == [] && t < |g.linked| && t < |g.dseq| && Frees(g, op.nodes)
    requires |op.nodes| == |op.finalize| == |op.seen| && !op.allFrozen && op.st == InProgress
    requires forall i, j :: 0 <= i < j < |op.nodes| ==> op.nodes[i] != op.nodes[j]
    requires forall j :: 0 <= j < |op.nodes| ==> op.seen[j] == ScxPtr(g, op.nodes[j])
    ensures Gets(State(g, stacks), t, State(h, stacks)) && Done(g, h, OpId(t, g.dseq[t] + 1), op)
  {
    var g1 := Prepares(g, stacks, t, op);
    Publishes(g1, stacks, t, op);
    var (g2, o) := Publish(g1, t, op);
    var s2 := At(g2, stacks, t, [Freeze(o, false, 0)]);
    Joins(State(g, stacks), t, State(g1, stacks), s2);
    assert forall m :: ScxPtr(g2, m) == ScxPtr(g, m);
    h := Executes(g2, stacks, t, o);
    Joins(State(g, stacks), t, s2, State(h, stacks));
  }

  /**
   From every reachable state, an idle thread that runs alone can commit an SCX on any distinct nodes, finalizing any of
   them, if none of them is marked or held by an operation in progress: LLX returns a handle for each, and scxExecute
   returns true, having frozen exactly these nodes, marked those to be finalized, and changed the field.
   */
  lemma SoloCommits(b: seq<State>, n: nat, t: nat, ns: seq<nat>, fins: seq<bool>, field: nat, oldVal: int, newVal: int)
    returns (s': State, o: OpId)
    requires Run(b, n) && t < |Last(b).stacks| && Last(b).stacks[t] == [] && |fins| == |ns|
    requires forall i, j :: 0 <= i < j < |ns| ==> ns[i] != ns[j]
    requires forall j :: 0 <= j < |ns| ==> Free(Last(b).g, ns[j])
    ensures Gets(Last(b), t, s') && s'.stacks == Last(b).stacks && o !in Last(b).g.ops && o.tid == t
    ensures o in s'.g.ops && s'.g.ops[o].nodes == ns && s'.g.ops[o].finalize == fins
    ensures s'.g.ops[o].field == field && s'.g.ops[o].oldVal == oldVal && s'.g.ops[o].newVal == newVal
    ensures Done(Last(b).g, s'.g, o, s'.g.ops[o])
  {
    RunKeeps(b, n, |b| - 1);
    var g, stacks := Last(b).g, Last(b).stacks;
    forall j | 0 <= j < |ns| && ScxPtr(g, ns[j]).H? ensures ScxPtr(g, ns[j]).o in g.ops { PtrKnown(g, ns[j]); }
    var seen := seq(|ns|, j requires 0 <= j < |ns| => ScxPtr(g, ns[j]));
    o := OpId(t, g.dseq[t] + 1);
    assert o !in g.ops by { assert forall y :: y in g.ops ==> OpInv(g, y); }
    var op := SOp(ns, fins, seen, field, oldVal, newVal, false, InProgress);
    var h := SoloFrom(g, stacks, t, op);
    s' := State(h, stacks);
    DoneAgain(g, h, o, op);
  }

  lemma DoneAgain(g: Shared, h: Shared, o: OpId, op: SOp)
    requires Done(g, h, o, op)
    ensures Done(g, h, o, h.ops[o])
  {
    forall m ensures ToMark(h.ops[o], |op.nodes|, m) == ToMark(op, |op.nodes|, m) {}
  }

  lemma PtrKnown(g: Shared, m: nat)
    requires SharedInv(g) && m < |g.nodes| && ScxPtr(g, m).H?
    ensures ScxPtr(g, m).o in g.ops
  {
    assert NodeInv(g, m);
    assert LinkInv(g, m, |NodeOf(g, m).hist| - 1);
  }

  // ---------------------------------------------------------------- helping

  lemma GoesGood(g: Shared, stacks: seq<seq<Frame>>, t: nat, f: Frame)
    requires t < |stacks| && GoodState(At(g, stacks, t, [f]))
    ensures Gets(At(g, stacks, t, [f]), t, At(Act(g, t, f).g, stacks, t, Act(g, t, f).tops))
    ensures GoodState(At(Act(g, t, f).g, stacks, t, Act(g, t, f).tops)) && Ready(g, t, 0, f)
  {
    Goes(g, stacks, t, f);
    var s, s' := At(g, stacks, t, [f]), At(Act(g, t, f).g, stacks, t, Act(g, t, f).tops);
    assert FrameInv(s.g, t, 0, s.stacks[t][0]);
    assert Below(s.stacks[t]) == [] && [] + Act(g, t, f).tops == Act(g, t, f).tops;
    assert StepBy(s, t, s');
    StepKeeps(s, s');
  }

  lemma NotYetFrozen(g: Shared, t: nat, d: nat, f: Frame)
    requires Ready(g, t, d, f) && f.ReadFrozen? && g.ops[f.o].st == InProgress
    ensures !g.ops[f.o].allFrozen
  {
    if g.ops[f.o].allFrozen { TakenAndFrozen(g, t, d, f); }
  }

  // A helper that finds a node taken makes the operation abort.
  lemma HelperAborts(g: Shared, stacks: seq<seq<Frame>>, t: nat, o: OpId, i: nat) returns (h: Shared)
    requires t < |stacks| && stacks[t] == [] && o in g.ops && g.ops[o].st == InProgress && i < |g.ops[o].nodes|
    requires GoodState(At(g, stacks, t, [CheckExp(o, true, i)])) && ScxPtr(g, g.ops[o].nodes[i]) != H(o)
    ensures Gets(At(g, stacks, t, [CheckExp(o, true, i)]), t, State(h, stacks))
    ensures o in h.ops && h.ops[o].st != InProgress
  {
    var s := At(g, stacks, t, [CheckExp(o, true, i)]);
    GoesGood(g, stacks, t, CheckExp(o, true, i));
    GoesGood(g, stacks, t, ReadFrozen(o, true, i));
    assert OpInv(g, o);
    NotYetFrozen(g, t, 0, ReadFrozen(o, true, i));
    Joins(s, t, At(g, stacks, t, [ReadFrozen(o, true, i)]), At(g, stacks, t, [Abort(o, true)]));
    Goes(g, stacks, t, Abort(o, true));
    h := SetState(g, o, Aborted);
    Joins(s, t, At(g, stacks, t, [Abort(o, true)]), At(h, stacks, t, []));
    assert stacks[t := []] == stacks;
  }

  // A helper that has seen all nodes frozen makes the operation commit.
  lemma HelperCommits(g: Shared, stacks: seq<seq<Frame>>, t: nat, o: OpId) returns (h: Shared)
    requires t < |stacks| && stacks[t] == [] && o in g.ops && g.ops[o].st == InProgress
    requires GoodState(At(g, stacks, t, [Freeze(o, true, |g.ops[o].nodes|)]))
    ensures Gets(At(g, stacks, t, [Freeze(o, true, |g.ops[o].nodes|)]), t, State(h, stacks))
    ensures o in h.ops && h.ops[o].st != InProgress
  {
    var n := |g.ops[o].nodes|;
    var s := At(g, stacks, t, [Freeze(o, true, n)]);
    assert OpInv(g, o);
    Goes(g, stacks, t, Freeze(o, true, n));
    var g1 := SetFrozen(g, o);
    var g2 := MarksAll(g1, stacks, t, o, true, n);
    Joins(s, t, At(g1, stacks, t, [Mark(o, true, 0)]), At(g2, stacks, t, [Mark(o, true, n)]));
    Goes(g2, stacks, t, Mark(o, true, n));
    Joins(s, t, At(g2, stacks, t, [Mark(o, true, n)]), At(g2, stacks, t, [Update(o, true)]));
    Goes(g2, stacks, t, Update(o, true));
    var g3 := UpdateCas(g2, o);
    Joins(s, t, At(g2, stacks, t, [Update(o, true)]), At(g3, stacks, t, [Commit(o, true)]));
    Goes(g3, stacks, t, Commit(o, true));
    h := SetState(g3, o, Committed);
    Joins(s, t, At(g3, stacks, t, [Commit(o, true)]), At(h, stacks, t, []));
    assert stacks[t := []] == stacks;
  }

  lemma {:induction false} HelperDecides(g: Shared, stacks: seq<seq<Frame>>, t: nat, o: OpId,
      i: nat) returns (h: Shared)
    requires t < |stacks| && stacks[t] == [] && o in g.ops && g.ops[o].st == InProgress && i <= |g.ops[o].nodes|
    requires GoodState(At(g, stacks, t, [Freeze(o, true, i)]))
    ensures Gets(At(g, stacks, t, [Freeze(o, true, i)]), t, State(h, stacks))
    ensures o in h.ops && h.ops[o].st != InProgress
    decreases |g.ops[o].nodes| - i
  {
    var s, m := At(g, stacks, t, [Freeze(o, true, i)]), if i < |g.ops[o].nodes| then g.ops[o].nodes[i] else 0;
    assert OpInv(g, o);
    GoesGood(g, stacks, t, Freeze(o, true, i));
    if i == |g.ops[o].nodes| {
      h := HelperCommits(g, stacks, t, o);
    } else if ScxPtr(g, m) == g.ops[o].seen[i] {
      var k := FreezeNode(g, m, o);
      h := HelperDecides(k, stacks, t, o, i + 1);
      Joins(s, t, At(k, stacks, t, [Freeze(o, true, i + 1)]), State(h, stacks));
    } else if ScxPtr(g, m) == H(o) {
      GoesGood(g, stacks, t, CheckExp(o, true, i));
      Joins(s, t, At(g, stacks, t, [CheckExp(o, true, i)]), At(g, stacks, t, [Freeze(o, true, i + 1)]));
      h := HelperDecides(g, stacks, t, o, i + 1);
      Joins(s, t, At(g, stacks, t, [Freeze(o, true, i + 1)]), State(h, stacks));
    } else {
      h := HelperAborts(g, stacks, t, o, i);
      Joins(s, t, At(g, stacks, t, [CheckExp(o, true, i)]), State(h, stacks));
    }
  }

  lemma LlxStarts(g: Shared, stacks: seq<seq<Frame>>, t: nat, m: nat)
    requires t < |stacks| && stacks[t] == [] && GoodState(State(g, stacks)) && m < |g.nodes|
    ensures var s' := At(g, stacks, t, [LlxMarked(m)]); GoodState(s') && Gets(State(g, stacks), t, s')
  {
    var s, s1 := State(g, stacks), At(g, stacks, t, [LlxMarked(m)]);
    assert IdleStep(s, t, s1);
    assert StepBy(s, t, s1);
    StepKeeps(s, s1);
    assert Alone([s, s1], t) && Last([s, s1]) == s1;
  }

  lemma LlxReads(g: Shared, stacks: seq<seq<Frame>>, t: nat, m: nat)
    requires t < |stacks| && stacks[t] == [] && GoodState(State(g, stacks)) && m < |g.nodes|
    ensures var s' := At(g, stacks, t, [LlxState(m, NodeOf(g, m).marked, ScxPtr(g, m))]);
            GoodState(s') && Gets(State(g, stacks), t, s')
  {
    var s, hd, fin := State(g, stacks), ScxPtr(g, m), NodeOf(g, m).marked;
    LlxStarts(g, stacks, t, m);
    GoesGood(g, stacks, t, LlxMarked(m));
    GoesGood(g, stacks, t, LlxScx(m, fin));
    Joins(s, t, At(g, stacks, t, [LlxMarked(m)]), At(g, stacks, t, [LlxScx(m, fin)]));
    Joins(s, t, At(g, stacks, t, [LlxScx(m, fin)]), At(g, stacks, t, [LlxState(m, fin, hd)]));
  }

  // LLX meets an operation in progress.
  lemma LlxMeets(g: Shared, stacks: seq<seq<Frame>>, t: nat, m: nat)
    requires t < |stacks| && stacks[t] == [] && GoodState(State(g, stacks)) && m < |g.nodes| && Busy(g, ScxPtr(g, m))
    ensures var g' := Tell(g, Nothing(m, NodeOf(g, m).marked));
            var s' := At(g', stacks, t, [HelpSnap(ScxPtr(g, m).o)]);
            GoodState(s') && Gets(State(g, stacks), t, s')
  {
    var hd, fin := ScxPtr(g, m), NodeOf(g, m).marked;
    assert OpInv(g, hd.o);
    LlxReads(g, stacks, t, m);
    GoesGood(g, stacks, t, LlxState(m, fin, hd));
    Joins(State(g, stacks), t, At(g, stacks, t, [LlxState(m, fin, hd)]),
          At(Tell(g, Nothing(m, fin)), stacks, t, [HelpSnap(hd.o)]));
  }

  lemma Helps(g: Shared, stacks: seq<seq<Frame>>, t: nat, o: OpId) returns (h: Shared)
    requires t < |stacks| && stacks[t] == [] && GoodState(At(g, stacks, t, [HelpSnap(o)]))
    requires o in g.ops && g.ops[o].st == InProgress
    ensures Gets(At(g, stacks, t, [HelpSnap(o)]), t, State(h, stacks)) && o in h.ops && h.ops[o].st != InProgress
  {
    assert OpInv(g, o);
    GoesGood(g, stacks, t, HelpSnap(o));
    assert Froze(g, o, 0);
    h := HelperDecides(g, stacks, t, o, 1);
    Joins(At(g, stacks, t, [HelpSnap(o)]), t, At(g, stacks, t, [Freeze(o, true, 1)]), State(h, stacks));
  }

  /**
   An LLX that runs alone, from any reachable state, on a node held by an operation in progress completes that
   operation, whatever its owner and its other helpers have left undone, and returns.
   */
  lemma SoloHelps(b: seq<State>, n: nat, t: nat, m: nat) returns (s': State)
    requires Run(b, n) && t < |Last(b).stacks| && Last(b).stacks[t] == [] && m < |Last(b).g.nodes|
    requires Busy(Last(b).g, ScxPtr(Last(b).g, m))
    ensures Gets(Last(b), t, s') && s'.stacks == Last(b).stacks && !Busy(s'.g, ScxPtr(Last(b).g, m))
  {
    RunKeeps(b, n, |b| - 1);
    var g, stacks := Last(b).g, Last(b).stacks;
    LlxMeets(g, stacks, t, m);
    var g1 := Tell(g, Nothing(m, NodeOf(g, m).marked));
    var h := Helps(g1, stacks, t, ScxPtr(g, m).o);
    s' := State(h, stacks);
    Joins(Last(b), t, At(g1, stacks, t, [HelpSnap(ScxPtr(g, m).o)]), s');
  }
}
