/**
 DCSS over whole runs: the witness instant of every decision, and the one interval in which an
 operation's tag is in memory.
 */
module DcssHistory {
  import opened Dcss
  import opened DcssProof

  lemma RunStepPersists(b: seq<State>, n: nat, i: nat, o: OpId)
    requires Run(b, n) && i < |b| - 1 && o in b[i].g.ops
    ensures OExt(b[i].g, b[i + 1].g, o)
  {
    RunKeeps(b, n, i);
    assert StepAt(b, i);
    var t: nat :| StepBy(b[i], t, b[i + 1]);
    if BusyStep(b[i], t, b[i + 1]) {
      BusyPersists(b[i], t, b[i + 1], o);
    } else {
      assert OpInv(b[i].g, o);
    }
  }

  lemma BusyPersists(s: State, t: nat, s': State, o: OpId)
    requires Inv(s) && t < |s.stacks| && BusyStep(s, t, s') && o in s.g.ops
    ensures OExt(s.g, s'.g, o)
  {
    var n := |s.stacks[t]| - 1;
    assert FrameInv(s.g, t, n, Top(s.stacks[t]));
    ActKeeps(s.g, t, n, Top(s.stacks[t]));
    assert OExt(s.g, Act(s.g, Top(s.stacks[t])).g, o);
  }

  lemma {:induction false} RunPersists(b: seq<State>, n: nat, i: nat, j: nat, o: OpId)
    requires Run(b, n) && i <= j < |b| && o in b[i].g.ops
    ensures OExt(b[i].g, b[j].g, o)
  {
    if i < j {
      RunPersists(b, n, i, j - 1, o);
      RunStepPersists(b, n, j - 1, o);
    }
  }

  // ---------------------------------------------------------------- one interval of installation

  ghost predicate TagIn(b: seq<State>, i: int, o: OpId) {
    0 <= i < |b| && exists a :: 0 <= a < |b[i].g.mem| && b[i].g.mem[a] == Tag(o)
  }

  lemma TagIffPlaced(b: seq<State>, n: nat, i: nat, o: OpId)
    requires Run(b, n) && i < |b|
    ensures TagIn(b, i, o) <==> o in b[i].g.ops && b[i].g.ops[o].phase == Placed
    ensures TagIn(b, i, o) ==> Load(b[i].g, b[i].g.ops[o].addr2) == Tag(o)
  {
    RunKeeps(b, n, i);
    if TagIn(b, i, o) {
      var a :| 0 <= a < |b[i].g.mem| && b[i].g.mem[a] == Tag(o);
      assert WordInv(b[i].g, a);
    }
    if o in b[i].g.ops && b[i].g.ops[o].phase == Placed { assert OpInv(b[i].g, o); }
  }

  /** A tag is installed at most once and removed at most once: the instants at which it is in
      memory form one interval, throughout which it is in `addr2`. */
  lemma TagOnce(b: seq<State>, n: nat, i: nat, m: nat, j: nat, o: OpId)
    requires Run(b, n) && i <= m <= j < |b| && TagIn(b, i, o) && TagIn(b, j, o)
    ensures TagIn(b, m, o) && o in b[i].g.ops && Load(b[m].g, b[i].g.ops[o].addr2) == Tag(o)
  {
    TagIffPlaced(b, n, i, o);
    TagIffPlaced(b, n, m, o);
    TagIffPlaced(b, n, j, o);
    RunPersists(b, n, i, m, o);
    RunPersists(b, n, m, j, o);
  }

  // ---------------------------------------------------------------- what a record saw

  // At instant `at` the tag had been installed, and addr1 held old1 or not as `want` says.
  ghost predicate Witness(b: seq<State>, at: int, o: OpId, want: bool) {
    && 0 <= at < |b| && o in b[at].g.ops && b[at].g.ops[o].phase != Fresh
    && (want <==> Load(b[at].g, b[at].g.ops[o].addr1) == Raw(b[at].g.ops[o].old1))
  }

  // Before instant `i`, after the installation, addr1 held `seen`.
  ghost predicate Saw(b: seq<State>, i: int, o: OpId, seen: Word) {
    exists at :: 0 <= at < i && SawAt(b, at, o, seen)
  }

  ghost predicate SawAt(b: seq<State>, at: int, o: OpId, seen: Word) {
    && 0 <= at < |b| && o in b[at].g.ops && b[at].g.ops[o].phase != Fresh
    && Load(b[at].g, b[at].g.ops[o].addr1) == seen
  }

  ghost predicate FrameHist(b: seq<State>, i: int, f: Frame) {
    && (f.ReadMutables? || f.CasMutables? ==> f.at < i && Witness(b, f.at, f.o, f.want))
    && (f.ReadMutables? || f.CasMutables? || f.Finish? ==> Saw(b, i, f.o, f.seen))
  }

  ghost predicate ResultHist(b: seq<State>, i: int, r: Result, o: OpId) {
    (r.FailedAddr1? ==> Saw(b, i, o, r.seen)) && (r.FailedAddr2? ==> Found(b, i, o, r.found))
  }

  // At instant `at` the operation was published, and addr2 held `v`.
  ghost predicate FoundAt(b: seq<State>, at: int, o: OpId, v: int) {
    0 <= at < |b| && o in b[at].g.ops && o !in b[at].g.results && Load(b[at].g, b[at].g.ops[o].addr2) == Raw(v)
  }

  ghost predicate Found(b: seq<State>, i: int, o: OpId, v: int) { exists at :: 0 <= at < i && FoundAt(b, at, o, v) }

  ghost predicate AllHist(b: seq<State>, i: int)
    requires 0 <= i < |b|
  {
    && b[i].g.clock == i
    && (forall o {:trigger b[i].g.results[o]} :: o in b[i].g.results ==> ResultHist(b, i, b[i].g.results[o], o))
    && forall t, d :: 0 <= t < |b[i].stacks| && 0 <= d < |b[i].stacks[t]| ==> FrameHist(b, i, b[i].stacks[t][d])
  }

  lemma ActHist(b: seq<State>, i: nat, t: nat, d: nat, f: Frame, e: nat)
    requires i < |b| && b[i].g.clock == i && FrameInv(b[i].g, t, d, f) && FrameHist(b, i, f)
    requires e < |Act(b[i].g, f).tops|
    ensures FrameHist(b, i + 1, Act(b[i].g, f).tops[e])
  {
    if f.ReadAddr1? { assert SawAt(b, i, f.o, Load(b[i].g, Op(b[i].g, f.o).addr1)); }
  }

  lemma ActResults(b: seq<State>, i: nat, t: nat, d: nat, f: Frame, o: OpId)
    requires i < |b| && FrameInv(b[i].g, t, d, f) && FrameHist(b, i, f) && o in Act(b[i].g, f).g.results
    requires o in b[i].g.results ==> ResultHist(b, i, b[i].g.results[o], o)
    ensures ResultHist(b, i + 1, Act(b[i].g, f).g.results[o], o)
  {
    var r := Act(b[i].g, f).g.results[o];
    if r.FailedAddr2? && (o !in b[i].g.results || b[i].g.results[o] != r) { assert FoundAt(b, i, o, r.found); }
  }

  lemma ActClock(g: Shared, f: Frame)
    ensures Act(g, f).g.clock == g.clock
  {}

  lemma BusyHist(b: seq<State>, i: nat, t: nat, u: nat, d: nat)
    requires i < |b| - 1 && Inv(b[i]) && AllHist(b, i) && t < |b[i].stacks| && BusyStep(b[i], t, b[i + 1])
    requires u < |b[i + 1].stacks| && d < |b[i + 1].stacks[u]|
    ensures FrameHist(b, i + 1, b[i + 1].stacks[u][d])
  {
    var n := |b[i].stacks[t]| - 1;
    if u == t && d >= n {
      assert FrameInv(b[i].g, t, n, b[i].stacks[t][n]) && FrameHist(b, i, b[i].stacks[t][n]);
      ActHist(b, i, t, n, b[i].stacks[t][n], d - n);
    } else {
      assert FrameHist(b, i, b[i].stacks[u][d]);
    }
  }

  lemma BusyAll(b: seq<State>, i: nat, t: nat)
    requires i < |b| - 1 && Inv(b[i]) && AllHist(b, i) && t < |b[i].stacks| && BusyStep(b[i], t, b[i + 1])
    ensures AllHist(b, i + 1)
  {
    var s' := b[i + 1];
    ActClock(b[i].g, Top(b[i].stacks[t]));
    var d := |b[i].stacks[t]| - 1;
    assert FrameInv(b[i].g, t, d, b[i].stacks[t][d]) && FrameHist(b, i, b[i].stacks[t][d]);
    forall o | o in s'.g.results ensures ResultHist(b, i + 1, s'.g.results[o], o) {
      ActResults(b, i, t, d, Top(b[i].stacks[t]), o);
    }
    forall u, d | 0 <= u < |s'.stacks| && 0 <= d < |s'.stacks[u]| ensures FrameHist(b, i + 1, s'.stacks[u][d]) {
      BusyHist(b, i, t, u, d);
    }
  }

  lemma IdleAll(b: seq<State>, i: nat, t: nat)
    requires i < |b| - 1 && AllHist(b, i) && t < |b[i].stacks| && IdleStep(b[i], t, b[i + 1])
    ensures AllHist(b, i + 1)
  {
    var s' := b[i + 1];
    forall u, d | 0 <= u < |s'.stacks| && 0 <= d < |s'.stacks[u]| ensures FrameHist(b, i + 1, s'.stacks[u][d]) {
      if u != t { assert FrameHist(b, i, b[i].stacks[u][d]); }
    }
  }

  lemma StepHist(b: seq<State>, i: nat)
    requires StepAt(b, i) && Inv(b[i]) && AllHist(b, i)
    ensures AllHist(b, i + 1)
  {
    var t: nat :| StepBy(b[i], t, b[i + 1]);
    if BusyStep(b[i], t, b[i + 1]) { BusyAll(b, i, t); } else { IdleAll(b, i, t); }
  }

  lemma {:induction false} RunHist(b: seq<State>, n: nat, i: nat)
    requires Run(b, n) && i < |b|
    ensures AllHist(b, i)
  {
    if i > 0 {
      RunHist(b, n, i - 1);
      HistGoes(b, n, i - 1);
    } else {
      assert forall t :: 0 <= t < |b[0].stacks| ==> b[0].stacks[t] == [];
    }
  }

  lemma HistGoes(b: seq<State>, n: nat, i: nat)
    requires Run(b, n) && i < |b| - 1 && AllHist(b, i)
    ensures AllHist(b, i + 1)
  {
    RunKeeps(b, n, i);
    assert StepAt(b, i);
    StepHist(b, i);
  }

  // ---------------------------------------------------------------- the witness theorem

  ghost predicate DecidedBetween(b: seq<State>, i: int, o: OpId) {
    && 0 <= i < |b| - 1 && o in b[i].g.ops && o in b[i + 1].g.ops
    && b[i].g.ops[o].status == Undecided && b[i + 1].g.ops[o].status != Undecided
  }

  lemma DeciderFrame(g: Shared, f: Frame, o: OpId)
    requires o in g.ops && o in Act(g, f).g.ops
    requires g.ops[o].status == Undecided && Act(g, f).g.ops[o].status != Undecided
    ensures f.CasMutables? && f.o == o && f.want == (Act(g, f).g.ops[o].status == Succeeded)
  {}

  lemma IdleOps(s: State, t: nat, s': State, o: OpId)
    requires OpsInv(s.g) && t < |s.stacks| && IdleStep(s, t, s') && o in s.g.ops
    ensures o in s'.g.ops && s'.g.ops[o] == s.g.ops[o]
  {
    assert OpInv(s.g, o);
  }

  lemma DeciderSaw(b: seq<State>, n: nat, i: nat, o: OpId) returns (at: nat)
    requires Run(b, n) && DecidedBetween(b, i, o)
    ensures at < i && Witness(b, at, o, b[i + 1].g.ops[o].status == Succeeded)
  {
    RunHist(b, n, i);
    assert StepAt(b, i);
    var t: nat :| StepBy(b[i], t, b[i + 1]);
    if BusyStep(b[i], t, b[i + 1]) {
      var f := Top(b[i].stacks[t]);
      DeciderFrame(b[i].g, f, o);
      assert FrameHist(b, i, f);
      at := f.at;
    } else {
      RunKeeps(b, n, i);
      assert false by { IdleOps(b[i], t, b[i + 1], o); }
    }
  }

  /** Every decided operation has an instant, between the installation of its tag and its decision,
      at which addr1 equalled old1 if it succeeded and differed if it failed; from that instant to the
      decision addr2 holds the tag, so no other operation read or changed addr2's value. */
  lemma DecisionHasWitness(b: seq<State>, n: nat, i: nat, o: OpId) returns (at: nat)
    requires Run(b, n) && DecidedBetween(b, i, o)
    ensures at < i && o in b[at].g.ops
    ensures b[i + 1].g.ops[o].status == Succeeded <==>
              Load(b[at].g, b[at].g.ops[o].addr1) == Raw(b[at].g.ops[o].old1)
    ensures forall m :: at <= m <= i ==> Load(b[m].g, b[at].g.ops[o].addr2) == Tag(o)
  {
    at := DeciderSaw(b, n, i, o);
    forall m | at <= m <= i ensures Load(b[m].g, b[at].g.ops[o].addr2) == Tag(o) {
      RunPersists(b, n, at, m, o);
      RunPersists(b, n, m, i, o);
      UndecidedPlaced(b, n, m, o);
    }
  }

  lemma UndecidedPlaced(b: seq<State>, n: nat, m: nat, o: OpId)
    requires Run(b, n) && m < |b| && o in b[m].g.ops && b[m].g.ops[o].phase != Fresh
        && b[m].g.ops[o].status == Undecided
    ensures Load(b[m].g, b[m].g.ops[o].addr2) == Tag(o)
  {
    RunKeeps(b, n, m);
    assert OpInv(b[m].g, o);
  }

  // ---------------------------------------------------------------- refinement

  // The decision to succeed is the one change of abstract memory that an operation makes.
  ghost predicate TakesEffect(g: Shared, g': Shared, o: OpId) {
    && o in g.ops && g.ops[o].status == Undecided && Op(g', o).status == Succeeded
    && Meaning(g, g.ops[o].addr2) == Raw(g.ops[o].old2) && Meaning(g', g.ops[o].addr2) == Raw(g.ops[o].new2)
    && forall a :: 0 <= a < |g.mem| && a != g.ops[o].addr2 ==> Meaning(g', a) == Meaning(g, a)
  }

  ghost predicate SameMeaning(g: Shared, g': Shared) {
    forall a :: 0 <= a < |g.mem| ==> Meaning(g', a) == Meaning(g, a)
  }

  // The program's own write to a word that no operation swaps.
  ghost predicate PlainWrite(g: Shared, g': Shared, a: int) {
    a in g.plain && forall c :: 0 <= c < |g.mem| && c != a ==> Meaning(g', c) == Meaning(g, c)
  }

  ghost predicate Refines(g: Shared, g': Shared) { SameMeaning(g, g') || exists o :: TakesEffect(g, g', o) }

  ghost predicate Allowed(g: Shared, g': Shared) { Refines(g, g') || exists a :: PlainWrite(g, g', a) }

  lemma InstallMeans(g: Shared, t: nat, d: nat, f: Frame)
    requires Ready(g, t, d, f) && f.Install?
    ensures SameMeaning(g, Act(g, f).g)
  {
    assert OpInv(g, f.o);
    forall a | 0 <= a < |g.mem| ensures Meaning(Act(g, f).g, a) == Meaning(g, a) { assert WordInv(g, a); }
  }

  lemma FinishMeans(g: Shared, t: nat, d: nat, f: Frame)
    requires Ready(g, t, d, f) && f.Finish?
    ensures SameMeaning(g, Act(g, f).g)
  {
    assert OpInv(g, f.o);
    forall a | 0 <= a < |g.mem| ensures Meaning(Act(g, f).g, a) == Meaning(g, a) { assert WordInv(g, a); }
  }

  lemma CasMeans(g: Shared, t: nat, d: nat, f: Frame)
    requires Ready(g, t, d, f) && f.CasMutables? && Current(g, f.o) && g.ops[f.o].status == Undecided
    ensures if f.want then TakesEffect(g, Act(g, f).g, f.o) else SameMeaning(g, Act(g, f).g)
  {
    assert OpInv(g, f.o);
    assert Act(g, f).g == Decide(g, f.o, f.want);
    forall a | 0 <= a < |g.mem| && (a != g.ops[f.o].addr2 || !f.want)
      ensures Meaning(Decide(g, f.o, f.want), a) == Meaning(g, a)
    { assert WordInv(g, a); }
  }

  /** No step of any owner or helper, stale or not, changes abstract memory except a decision to
      succeed, which changes exactly that operation's addr2 from old2 to new2. */
  lemma BusyRefines(s: State, t: nat, s': State)
    requires GoodState(s) && t < |s.stacks| && BusyStep(s, t, s')
    ensures Refines(s.g, s'.g)
  {
    var f := Top(s.stacks[t]);
    var d := |s.stacks[t]| - 1;
    assert FrameInv(s.g, t, d, f);
    var g' := Act(s.g, f).g;
    assert forall a :: Meaning(s'.g, a) == Meaning(g', a);
    match f
    case Install(_) => InstallMeans(s.g, t, d, f);
    case Finish(_, _, _, _) => FinishMeans(s.g, t, d, f);
    case CasMutables(o, _, want, _, _) =>
      if Current(s.g, o) && s.g.ops[o].status == Undecided {
        CasMeans(s.g, t, d, f);
        if want { assert TakesEffect(s.g, s'.g, o); }
      }
    case _ =>
  }

  lemma IdleRefines(s: State, t: nat, s': State)
    requires GoodState(s) && t < |s.stacks| && IdleStep(s, t, s')
    ensures Allowed(s.g, s'.g)
  {
    forall o | o in s.g.ops ensures o in s'.g.ops && s'.g.ops[o] == s.g.ops[o] { IdleOps(s, t, s', o); }
    forall a | 0 <= a < |s.g.mem| && s'.g.mem == s.g.mem ensures Meaning(s'.g, a) == Meaning(s.g, a) {
      assert WordInv(s.g, a);
    }
    if s'.g.mem != s.g.mem {
      var a, v :| a in s.g.plain && s' == State(Tick(Store(s.g, a, Raw(v))), s.stacks);
      assert PlainWrite(s.g, s'.g, a);
    }
  }

  /** Every step of every run is one atomic DCSS, a plain write, or nothing. */
  lemma RunRefines(b: seq<State>, n: nat, i: nat)
    requires Run(b, n) && i < |b| - 1
    ensures Allowed(b[i].g, b[i + 1].g)
  {
    RunKeeps(b, n, i);
    assert StepAt(b, i);
    var t: nat :| StepBy(b[i], t, b[i + 1]);
    if BusyStep(b[i], t, b[i + 1]) { BusyRefines(b[i], t, b[i + 1]); } else { IdleRefines(b[i], t, b[i + 1]); }
  }

  /** A helper whose operation is over, because the descriptor has been reused, writes nothing. */
  lemma StaleHelperInert(g: Shared, t: nat, d: nat, f: Frame)
    requires Ready(g, t, d, f) && !f.Install? && !f.ReadWord? && !Current(g, f.o)
    ensures Act(g, f).g == g
  {
    assert OpInv(g, f.o);
    if f.Finish? { assert Load(g, g.ops[f.o].addr2) != Tag(f.o) by { assert WordInv(g, g.ops[f.o].addr2); } }
  }

  /** What `dcssPtr` returns: success exactly when the operation succeeded, with the tag gone; a
      mismatch at addr2 means it was never installed. */
  lemma ReturnsTruth(b: seq<State>, n: nat, i: nat, o: OpId)
    requires Run(b, n) && i < |b| && o in b[i].g.results
    ensures o in b[i].g.ops && !TagIn(b, i, o)
    ensures b[i].g.results[o] == Success <==> b[i].g.ops[o].status == Succeeded
    ensures b[i].g.results[o].FailedAddr1? <==> b[i].g.ops[o].status == Failed
    ensures b[i].g.results[o].FailedAddr2? ==>
              b[i].g.results[o].found != b[i].g.ops[o].old2 && forall j :: 0 <= j <= i ==> !TagIn(b, j, o)
  {
    RunKeeps(b, n, i);
    assert OpInv(b[i].g, o);
    TagIffPlaced(b, n, i, o);
    if b[i].g.results[o].FailedAddr2? {
      forall j | 0 <= j <= i ensures !TagIn(b, j, o) {
        TagIffPlaced(b, n, j, o);
        if o in b[j].g.ops { RunPersists(b, n, j, i, o); }
      }
    }
  }

  /** The value that a mismatch at addr2 reports was in addr2 at some instant of the call. */
  lemma ReportedFound(b: seq<State>, n: nat, i: nat, o: OpId) returns (at: nat)
    requires Run(b, n) && i < |b| && o in b[i].g.results && b[i].g.results[o].FailedAddr2?
    ensures at < i && o in b[at].g.ops && o !in b[at].g.results
    ensures Load(b[at].g, b[at].g.ops[o].addr2) == Raw(b[i].g.results[o].found)
  {
    RunHist(b, n, i);
    assert ResultHist(b, i, b[i].g.results[o], o);
    at :| 0 <= at < i && FoundAt(b, at, o, b[i].g.results[o].found);
  }

  lemma OtherAnswers(g: Shared, f: Frame)
    requires !f.ReadWord?
    ensures Act(g, f).g.answers == g.answers
  {}

  // Thread `t`'s step ends a read of word `a`.
  ghost predicate ReadEnds(b: seq<State>, i: int, t: nat, a: int) {
    && 0 <= i < |b| - 1 && t < |b[i].stacks| && b[i].stacks[t] != [] && Top(b[i].stacks[t]) == ReadWord(a)
    && BusyStep(b[i], t, b[i + 1]) && b[i + 1].stacks[t] == Below(b[i].stacks[t])
  }

  /** What dcssRead answers is what the word means at the instant of the answer... */
  lemma ReadAnswers(b: seq<State>, n: nat, i: nat, t: nat, a: int) returns (v: int)
    requires Run(b, n) && ReadEnds(b, i, t, a)
    ensures b[i + 1].g.answers == b[i].g.answers + [Answer(a, v)] && Meaning(b[i].g, a) == Raw(v)
  {
    var st := b[i].stacks[t];
    var o := Act(b[i].g, Top(st));
    assert |Below(st) + o.tops| == |st| - 1;
    assert Load(b[i].g, a).Raw?;
    v := Load(b[i].g, a).v;
  }

  /** ...and there are no other answers. */
  lemma OnlyReadsAnswer(b: seq<State>, n: nat, i: nat)
    requires Run(b, n) && i < |b| - 1 && b[i + 1].g.answers != b[i].g.answers
    ensures exists t, a :: ReadEnds(b, i, t, a)
  {
    assert StepAt(b, i);
    var t: nat :| StepBy(b[i], t, b[i + 1]);
    if BusyStep(b[i], t, b[i + 1]) {
      var f := Top(b[i].stacks[t]);
      if !f.ReadWord? { OtherAnswers(b[i].g, f); }
      assert ReadEnds(b, i, t, f.a);
    }
  }
}
