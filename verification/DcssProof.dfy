/**
 DCSS: what every step keeps, and the instants at which an operation takes effect.
 */
module DcssProof {
  import opened Dcss

  // ---------------------------------------------------------------- invariants

  ghost predicate ResultOk(d: DOp, r: Result) {
    match r
    case Success => d.phase == Removed && d.status == Succeeded
    case FailedAddr1(_) => d.phase == Removed && d.status == Failed
    case FailedAddr2(v) => d.phase == Fresh && v != d.old2
  }

  ghost predicate OpInv(g: Shared, o: OpId)
    requires o in g.ops
  {
    var d := g.ops[o];
    && o.tid < |g.dseq| && o.sn <= g.dseq[o.tid]
    && Proper(g, d)
    && (d.phase == Placed ==> Load(g, d.addr2) == Tag(o) && Current(g, o))
    && (d.status != Undecided ==> d.phase != Fresh)
    && (d.phase == Removed ==> d.status != Undecided)
    && (o in g.results ==> ResultOk(d, g.results[o]))
  }

  ghost predicate WordInv(g: Shared, a: int) {
    Load(g, a).Tag? ==> var o := Load(g, a).o; o in g.ops && g.ops[o].phase == Placed && g.ops[o].addr2 == a
  }

  ghost predicate OpsInv(g: Shared) { forall o {:trigger OpInv(g, o)} :: o in g.ops ==> OpInv(g, o) }
  ghost predicate WordsInv(g: Shared) { forall a {:trigger WordInv(g, a)} :: 0 <= a < |g.mem| ==> WordInv(g, a) }
  ghost predicate SharedInv(g: Shared) { OpsInv(g) && WordsInv(g) && forall o :: o in g.results ==> o in g.ops }

  // The owner's record is alone at the bottom of its thread's stack.
  ghost predicate Attends(g: Shared, t: nat, d: nat, o: OpId, h: bool) {
    o in g.ops && (!h ==> o.tid == t && d == 0 && Current(g, o) && o !in g.results)
  }

  ghost predicate Installed(g: Shared, o: OpId) { o in g.ops && g.ops[o].phase != Fresh }

  ghost predicate Outcome(g: Shared, o: OpId, won: bool) {
    Op(g, o).status != Undecided && won == (Op(g, o).status == Succeeded)
  }

  ghost predicate FrameInv(g: Shared, t: nat, d: nat, f: Frame) {
    match f
    case Install(o) => Attends(g, t, d, o, false) && g.ops[o].phase == Fresh
    case ReadAddr1(o, h) => Attends(g, t, d, o, h) && Installed(g, o)
    case ReadMutables(o, h, want, seen, at) =>
      Attends(g, t, d, o, h) && Installed(g, o) && want == (seen == Raw(g.ops[o].old1))
    case CasMutables(o, h, want, seen, at) =>
      Attends(g, t, d, o, h) && Installed(g, o) && want == (seen == Raw(g.ops[o].old1))
    case Finish(o, h, won, seen) =>
      Attends(g, t, d, o, h) && Installed(g, o) && (Outcome(g, o, won) || (h && g.ops[o].phase == Removed))
    case Snapshot(o) => Installed(g, o)
    case ReadWord(a) => 0 <= a < |g.mem|
  }

  ghost predicate FramesInv(s: State) {
    forall t, d :: 0 <= t < |s.stacks| && 0 <= d < |s.stacks[t]| ==> FrameInv(s.g, t, d, s.stacks[t][d])
  }

  ghost predicate Inv(s: State) { |s.stacks| == |s.g.dseq| && SharedInv(s.g) && FramesInv(s) }

  // ---------------------------------------------------------------- the rely

  ghost predicate OExt(g: Shared, g': Shared, o: OpId) {
    && o in g.ops && o in g'.ops
    && g'.ops[o] == g.ops[o].(status := g'.ops[o].status, phase := g'.ops[o].phase)
    && (g.ops[o].status != Undecided ==> g'.ops[o].status == g.ops[o].status)
    && (g.ops[o].phase != Fresh ==> g'.ops[o].phase != Fresh)
    && (g.ops[o].phase == Removed ==> g'.ops[o].phase == Removed)
  }

  ghost predicate Ext(g: Shared, g': Shared) {
    && |g'.mem| == |g.mem| && |g'.dseq| == |g.dseq|
    && forall o :: o in g.ops ==> OExt(g, g', o)
  }

  // What nobody but thread `t` changes.
  ghost predicate Private(g: Shared, g': Shared, t: nat) {
    && (t < |g.dseq| ==> |g'.dseq| == |g.dseq| && g'.dseq[t] == g.dseq[t])
    && (forall o :: o in g.ops && o.tid == t ==>
          o in g'.ops && (o in g'.results <==> o in g.results)
              && (g.ops[o].phase == Fresh ==> g'.ops[o].phase == Fresh))
  }

  lemma FrameStable(g: Shared, g': Shared, t: nat, d: nat, f: Frame)
    requires Ext(g, g') && Private(g, g', t) && FrameInv(g, t, d, f)
    ensures FrameInv(g', t, d, f)
  {
    if !f.ReadWord? { assert OExt(g, g', f.o); }
  }

  // ---------------------------------------------------------------- shared effects

  // Memory differs at most at `at`, descriptors at most at `o`.
  ghost predicate OnlyAt(g: Shared, g': Shared, at: int, o: OpId) {
    && |g'.mem| == |g.mem| && g'.plain == g.plain && g'.dseq == g.dseq
    && (forall a :: 0 <= a < |g.mem| && a != at ==> g'.mem[a] == g.mem[a])
    && (forall x :: x != o ==> (x in g'.ops <==> x in g.ops) && (x in g.ops ==> g'.ops[x] == g.ops[x]))
    && (forall x :: x != o ==>
        (x in g'.results <==> x in g.results) && (x in g.results ==> g'.results[x] == g.results[x]))
  }

  lemma Carry(g: Shared, g': Shared, at: int, o: OpId)
    requires SharedInv(g) && OnlyAt(g, g', at, o) && o in g.ops && at == g.ops[o].addr2
    requires OExt(g, g', o) && OpInv(g', o) && WordInv(g', at)
    requires Load(g, at).Tag? ==> Load(g, at) == Tag(o)
    ensures SharedInv(g') && Ext(g, g')
  {
    forall x | x in g'.ops ensures OpInv(g', x) {
      if x != o { assert OpInv(g, x); }
    }
    forall a | 0 <= a < |g'.mem| ensures WordInv(g', a) {
      assert WordInv(g, a);
    }
    forall x | x in g.ops ensures OExt(g, g', x) {}
  }

  lemma PlaceOk(g: Shared, o: OpId)
    requires SharedInv(g) && o in g.ops && g.ops[o].phase == Fresh && Current(g, o) && o !in g.results
    requires Load(g, g.ops[o].addr2) == Raw(g.ops[o].old2)
    ensures SharedInv(PlaceTag(g, o)) && Ext(g, PlaceTag(g, o))
  {
    assert OpInv(g, o);
    Carry(g, PlaceTag(g, o), g.ops[o].addr2, o);
  }

  lemma DecideOk(g: Shared, o: OpId, want: bool)
    requires SharedInv(g) && Installed(g, o) && g.ops[o].status == Undecided
    ensures SharedInv(Decide(g, o, want)) && Ext(g, Decide(g, o, want))
  {
    var g' := Decide(g, o, want);
    assert OpInv(g, o);
    assert WordInv(g, g.ops[o].addr2);
    Carry(g, g', g.ops[o].addr2, o);
  }

  lemma RemoveOk(g: Shared, o: OpId, won: bool)
    requires SharedInv(g) && Installed(g, o) && (Outcome(g, o, won) || g.ops[o].phase == Removed)
    ensures SharedInv(RemoveTag(g, o, won)) && Ext(g, RemoveTag(g, o, won))
    ensures RemoveTag(g, o, won).ops[o].phase == Removed
  {
    var g' := RemoveTag(g, o, won);
    assert OpInv(g, o);
    if Load(g, g.ops[o].addr2) == Tag(o) {
      assert WordInv(g, g.ops[o].addr2);
      Carry(g, g', g.ops[o].addr2, o);
    }
  }

  lemma ReturnOk(g: Shared, o: OpId, r: Result)
    requires SharedInv(g) && o in g.ops && ResultOk(g.ops[o], r)
    ensures SharedInv(Return(g, o, r)) && Ext(g, Return(g, o, r))
  {
    var g' := Return(g, o, r);
    assert OpInv(g, o);
    forall x | x in g'.ops ensures OpInv(g', x) { assert OpInv(g, x); }
    forall a | 0 <= a < |g'.mem| ensures WordInv(g', a) { assert WordInv(g, a); }
  }

  // ---------------------------------------------------------------- one step of one record

  ghost predicate TopsInv(g: Shared, t: nat, d: nat, tops: seq<Frame>) {
    forall e :: 0 <= e < |tops| ==> FrameInv(g, t, d + e, tops[e])
  }

  ghost predicate ActOk(g: Shared, t: nat, d: nat, f: Frame) {
    var o := Act(g, f);
    && SharedInv(o.g) && Ext(g, o.g) && TopsInv(o.g, t, d, o.tops)
    && (forall u :: u != t || d > 0 ==> Private(g, o.g, u))
  }

  ghost predicate Ready(g: Shared, t: nat, d: nat, f: Frame) {
    SharedInv(g) && t < |g.dseq| && FrameInv(g, t, d, f)
  }

  lemma InstallOk(g: Shared, t: nat, d: nat, f: Frame)
    requires Ready(g, t, d, f) && f.Install?
    ensures ActOk(g, t, d, f)
  {
    assert OpInv(g, f.o);
    assert WordInv(g, g.ops[f.o].addr2);
    match Load(g, g.ops[f.o].addr2)
    case Tag(x) =>
    case Raw(v) => if v == g.ops[f.o].old2 { PlaceOk(g, f.o); } else { ReturnOk(g, f.o, FailedAddr2(v)); }
  }

  lemma CasHits(g: Shared, t: nat, d: nat, f: Frame)
    requires Ready(g, t, d, f) && f.CasMutables? && Current(g, f.o) && g.ops[f.o].status == Undecided
    ensures ActOk(g, t, d, f)
  {
    DecideOk(g, f.o, f.want);
    assert Act(g, f) == Out(Decide(g, f.o, f.want), [Finish(f.o, f.h, f.want, f.seen)]);
  }

  // A CAS on the mutable word that fails may report a later operation's state, but then the tag is gone.
  lemma CasMisses(g: Shared, t: nat, d: nat, f: Frame)
    requires Ready(g, t, d, f) && f.CasMutables? && !(Current(g, f.o) && g.ops[f.o].status == Undecided)
    ensures ActOk(g, t, d, f)
  {
    assert OpInv(g, f.o);
    var st := CellState(g, f.o.tid);
    if st != Undecided {
      assert FrameInv(g, t, d, Finish(f.o, f.h, st == Succeeded, f.seen));
    }
  }

  lemma FinishHelper(g: Shared, t: nat, d: nat, f: Frame)
    requires Ready(g, t, d, f) && f.Finish? && f.h
    ensures ActOk(g, t, d, f)
  {
    RemoveOk(g, f.o, f.won);
  }

  lemma FinishOwner(g: Shared, t: nat, d: nat, f: Frame)
    requires Ready(g, t, d, f) && f.Finish? && !f.h
    ensures ActOk(g, t, d, f)
  {
    var g' := RemoveTag(g, f.o, f.won);
    RemoveOk(g, f.o, f.won);
    assert OExt(g, g', f.o);
    var r := if f.won then Success else FailedAddr1(f.seen);
    ReturnOk(g', f.o, r);
    var g2 := Return(g', f.o, r);
    assert Act(g, f) == Out(g2, []);
    forall x | x in g.ops ensures OExt(g, g2, x) { assert OExt(g, g', x); }
  }

  lemma ReadsOk(g: Shared, t: nat, d: nat, f: Frame)
    requires Ready(g, t, d, f) && (f.ReadAddr1? || f.ReadMutables? || f.Snapshot? || f.ReadWord?)
    ensures ActOk(g, t, d, f)
  {
    if f.ReadWord? {
      assert WordInv(g, f.a);
      AnswerOk(g, Act(g, f).g.answers);
    }
  }

  lemma AnswerOk(g: Shared, answers: seq<Answer>)
    requires SharedInv(g)
    ensures SharedInv(g.(answers := answers)) && Ext(g, g.(answers := answers))
  {
    var g' := g.(answers := answers);
    forall x | x in g'.ops ensures OpInv(g', x) { assert OpInv(g, x); }
    forall a | 0 <= a < |g'.mem| ensures WordInv(g', a) { assert WordInv(g, a); }
  }

  lemma ActKeeps(g: Shared, t: nat, d: nat, f: Frame)
    requires Ready(g, t, d, f)
    ensures ActOk(g, t, d, f)
  {
    match f
    case Install(_) => InstallOk(g, t, d, f);
    case CasMutables(o, _, _, _, _) =>
      if Current(g, o) && g.ops[o].status == Undecided { CasHits(g, t, d, f); } else { CasMisses(g, t, d, f); }
    case Finish(_, h, _, _) => if h { FinishHelper(g, t, d, f); } else { FinishOwner(g, t, d, f); }
    case _ => ReadsOk(g, t, d, f);
  }

  // ---------------------------------------------------------------- from one record to all of them

  lemma OldFrame(s: State, t: nat, s': State, u: nat, d: nat)
    requires Inv(s) && t < |s.stacks| && BusyStep(s, t, s') && ActOk(s.g, t, |s.stacks[t]| - 1, Top(s.stacks[t]))
    requires u < |s.stacks| && d < |s.stacks[u]| && (u == t ==> d < |s.stacks[t]| - 1)
    ensures FrameInv(s'.g, u, d, s.stacks[u][d])
  {
    FrameStable(s.g, Act(s.g, Top(s.stacks[t])).g, u, d, s.stacks[u][d]);
  }

  lemma BusyFrame(s: State, t: nat, s': State, u: nat, d: nat)
    requires Inv(s) && t < |s.stacks| && BusyStep(s, t, s') && ActOk(s.g, t, |s.stacks[t]| - 1, Top(s.stacks[t]))
    requires u < |s'.stacks| && d < |s'.stacks[u]|
    ensures FrameInv(s'.g, u, d, s'.stacks[u][d])
  {
    var o := Act(s.g, Top(s.stacks[t]));
    var n := |s.stacks[t]| - 1;
    if u == t && d >= n {
      assert s'.stacks[u][d] == o.tops[d - n];
      assert FrameInv(o.g, t, n + (d - n), o.tops[d - n]);
    } else {
      assert s'.stacks[u][d] == s.stacks[u][d];
      OldFrame(s, t, s', u, d);
    }
  }

  lemma TickOk(g: Shared)
    requires SharedInv(g)
    ensures SharedInv(Tick(g))
  {
    forall x | x in g.ops ensures OpInv(Tick(g), x) { assert OpInv(g, x); }
    forall a | 0 <= a < |g.mem| ensures WordInv(Tick(g), a) { assert WordInv(g, a); }
  }

  lemma BusyKeeps(s: State, t: nat, s': State)
    requires Inv(s) && t < |s.stacks| && BusyStep(s, t, s')
    ensures Inv(s')
  {
    var f := Top(s.stacks[t]);
    ActKeeps(s.g, t, |s.stacks[t]| - 1, f);
    TickOk(Act(s.g, f).g);
    forall u, d | 0 <= u < |s'.stacks| && 0 <= d < |s'.stacks[u]| ensures FrameInv(s'.g, u, d, s'.stacks[u][d]) {
      BusyFrame(s, t, s', u, d);
    }
  }

  lemma PublishOk(g: Shared, t: nat, d: DOp)
    requires SharedInv(g) && t < |g.dseq| && Proper(g, d)
    requires forall o :: o in g.ops && o.tid == t ==> g.ops[o].phase != Placed
    ensures var (g', o) := Publish(g, t, d);
            SharedInv(g') && Ext(g, g') && o !in g.ops && o !in g'.results
  {
    var (g', o) := Publish(g, t, d);
    assert o !in g.ops by { assert forall x :: x in g.ops ==> OpInv(g, x); }
    forall x | x in g'.ops ensures OpInv(g', x) { if x != o { assert OpInv(g, x); } }
    forall a | 0 <= a < |g'.mem| ensures WordInv(g', a) { assert WordInv(g, a); }
  }

  lemma WriteOk(g: Shared, a: int, v: int)
    requires SharedInv(g) && a in g.plain
    ensures SharedInv(Store(g, a, Raw(v))) && Ext(g, Store(g, a, Raw(v)))
  {
    var g' := Store(g, a, Raw(v));
    forall x | x in g'.ops ensures OpInv(g', x) { assert OpInv(g, x); }
    forall c | 0 <= c < |g'.mem| ensures WordInv(g', c) { assert WordInv(g, c); }
  }

  // An idle thread has no tag in memory: whatever it installed is owned by a record or removed.
  ghost predicate IdleClean(s: State) {
    forall o :: o in s.g.ops && s.g.ops[o].phase == Placed ==>
      o.tid < |s.stacks| && s.stacks[o.tid] != [] && Owned(s.stacks[o.tid][0], o)
  }

  ghost predicate Owned(f: Frame, o: OpId) {
    (f.Install? || ((f.ReadAddr1? || f.ReadMutables? || f.CasMutables? || f.Finish?) && !f.h)) && f.o == o
  }

  lemma OwnedOn(g: Shared, t: nat, f: Frame, o: OpId)
    requires Ready(g, t, 0, f) && (o in g.ops && g.ops[o].phase == Placed ==> Owned(f, o)) && o.tid == t
    requires o in Act(g, f).g.ops && Act(g, f).g.ops[o].phase == Placed && ActOk(g, t, 0, f)
    ensures Act(g, f).tops != [] && Owned(Act(g, f).tops[0], o)
  {
    if o in g.ops {
      assert OpInv(g, o);
    }
  }

  lemma PlacedBy(g: Shared, f: Frame, o: OpId)
    requires o in Act(g, f).g.ops
    ensures o in g.ops
    ensures Act(g, f).g.ops[o].phase == Placed && g.ops[o].phase != Placed ==> f == Install(o)
  {}

  lemma BusyClean(s: State, t: nat, s': State, o: OpId)
    requires Inv(s) && IdleClean(s) && t < |s.stacks| && BusyStep(s, t, s') && o in s'.g.ops
        && s'.g.ops[o].phase == Placed
    ensures o.tid < |s'.stacks| && s'.stacks[o.tid] != [] && Owned(s'.stacks[o.tid][0], o)
  {
    var f := Top(s.stacks[t]);
    var n := |s.stacks[t]| - 1;
    assert FrameInv(s.g, t, n, f);
    ActKeeps(s.g, t, n, f);
    PlacedBy(s.g, f, o);
    if o.tid == t && n == 0 { OwnedOn(s.g, t, f, o); }
  }

  ghost predicate GoodState(s: State) { Inv(s) && IdleClean(s) }

  lemma IdleFrames(s: State, t: nat, s': State, st: seq<Frame>)
    requires Inv(s) && t < |s.stacks| && s.stacks[t] == [] && SharedInv(s'.g) && Ext(s.g, s'.g)
    requires s'.stacks == s.stacks[t := st] && |st| <= 1 && (st != [] ==> FrameInv(s'.g, t, 0, st[0]))
    requires forall u :: 0 <= u < |s.stacks| && u != t ==> Private(s.g, s'.g, u)
    ensures Inv(s')
  {
    forall u, d | 0 <= u < |s'.stacks| && 0 <= d < |s'.stacks[u]| ensures FrameInv(s'.g, u, d, s'.stacks[u][d]) {
      if u != t { FrameStable(s.g, s'.g, u, d, s.stacks[u][d]); }
    }
  }

  lemma ReadKeeps(s: State, t: nat, s': State, a: int)
    requires Inv(s) && t < |s.stacks| && s.stacks[t] == []
    requires 0 <= a < |s.g.mem| && s' == State(Tick(s.g), s.stacks[t := [ReadWord(a)]])
    ensures Inv(s')
  {
    TickOk(s.g);
    IdleFrames(s, t, s', [ReadWord(a)]);
  }

  lemma WriteKeeps(s: State, t: nat, s': State, a: int, v: int)
    requires Inv(s) && t < |s.stacks| && s.stacks[t] == []
    requires a in s.g.plain && s' == State(Tick(Store(s.g, a, Raw(v))), s.stacks)
    ensures Inv(s')
  {
    WriteOk(s.g, a, v);
    TickOk(Store(s.g, a, Raw(v)));
    IdleFrames(s, t, s', []);
  }

  lemma PublishKeeps(s: State, t: nat, s': State, d: DOp)
    requires GoodState(s) && t < |s.stacks| && s.stacks[t] == [] && t < |s.g.dseq| && Proper(s.g, d)
    requires var (g', o) := Publish(s.g, t, d); s' == State(Tick(g'), s.stacks[t := [Install(o)]])
    ensures Inv(s')
  {
    PublishOk(s.g, t, d);
    var (g', o) := Publish(s.g, t, d);
    TickOk(g');
    IdleFrames(s, t, s', [Install(o)]);
  }

  lemma IdleKeeps(s: State, t: nat, s': State)
    requires GoodState(s) && t < |s.stacks| && IdleStep(s, t, s')
    ensures Inv(s')
  {
    if exists a :: 0 <= a < |s.g.mem| && s' == State(Tick(s.g), s.stacks[t := [ReadWord(a)]]) {
      var a :| 0 <= a < |s.g.mem| && s' == State(Tick(s.g), s.stacks[t := [ReadWord(a)]]);
      ReadKeeps(s, t, s', a);
    } else if exists a, v :: a in s.g.plain && s' == State(Tick(Store(s.g, a, Raw(v))), s.stacks) {
      var a, v :| a in s.g.plain && s' == State(Tick(Store(s.g, a, Raw(v))), s.stacks);
      WriteKeeps(s, t, s', a, v);
    } else {
      var d :| Proper(s.g, d) && var (g', o) := Publish(s.g, t, d); s' == State(Tick(g'), s.stacks[t := [Install(o)]]);
      PublishKeeps(s, t, s', d);
    }
  }

  lemma IdleStillClean(s: State, t: nat, s': State)
    requires GoodState(s) && t < |s.stacks| && IdleStep(s, t, s')
    ensures IdleClean(s')
  {
    forall o | o in s'.g.ops && s'.g.ops[o].phase == Placed
      ensures o.tid < |s'.stacks| && s'.stacks[o.tid] != [] && Owned(s'.stacks[o.tid][0], o)
    {
      assert o in s.g.ops && s.g.ops[o].phase == Placed;
    }
  }

  lemma StepKeeps(s: State, s': State)
    requires GoodState(s) && Step(s, s')
    ensures GoodState(s')
  {
    var t: nat :| StepBy(s, t, s');
    if BusyStep(s, t, s') {
      BusyKeeps(s, t, s');
      forall o | o in s'.g.ops && s'.g.ops[o].phase == Placed
        ensures o.tid < |s'.stacks| && s'.stacks[o.tid] != [] && Owned(s'.stacks[o.tid][0], o)
      { BusyClean(s, t, s', o); }
    } else {
      IdleKeeps(s, t, s');
      IdleStillClean(s, t, s');
    }
  }

  lemma InitGood(s: State, n: nat)
    requires Init(s, n)
    ensures GoodState(s)
  {}

  /** Every state of every run. */
  lemma {:induction false} RunKeeps(b: seq<State>, n: nat, i: nat)
    requires Run(b, n) && i < |b|
    ensures GoodState(b[i])
  {
    if i == 0 {
      InitGood(b[0], n);
    } else {
      RunKeeps(b, n, i - 1);
      assert StepAt(b, i - 1);
      StepKeeps(b[i - 1], b[i]);
    }
  }
}
