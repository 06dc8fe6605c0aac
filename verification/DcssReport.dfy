/**
 DCSS: the value that comes with DCSS_FAILED_ADDR1.  It is what the owner itself read from addr1, which
 need not be what made the operation fail.
 */
module DcssReport {
  import opened Dcss
  import opened DcssProof
  import opened DcssHistory

  // The tag of `o` had been installed by instant `m`.
  ghost predicate Begun(b: seq<State>, m: int, o: OpId) {
    0 <= m < |b| && o in b[m].g.ops && b[m].g.ops[o].phase != Fresh
  }

  function Addr1(b: seq<State>, m: int, o: OpId): Word {
    if 0 <= m < |b| then Load(b[m].g, Op(b[m].g, o).addr1) else Raw(0)
  }

  lemma {:induction false} DecidedAt(b: seq<State>, n: nat, i: nat, o: OpId) returns (d: nat)
    requires Run(b, n) && i < |b| && o in b[i].g.ops && b[i].g.ops[o].status != Undecided
    ensures d < i && DecidedBetween(b, d, o) && b[d + 1].g.ops[o].status == b[i].g.ops[o].status
  {
    KnownBefore(b, n, i, o);
    RunStepPersists(b, n, i - 1, o);
    if b[i - 1].g.ops[o].status == Undecided { d := i - 1; } else { d := DecidedAt(b, n, i - 1, o); }
  }

  lemma NewUndecided(s: State, t: nat, s': State, o: OpId)
    requires t < |s.stacks| && IdleStep(s, t, s') && o in s'.g.ops && s'.g.ops[o].status != Undecided
    ensures o in s.g.ops
  {}

  lemma KnownBefore(b: seq<State>, n: nat, i: nat, o: OpId)
    requires Run(b, n) && i < |b| && o in b[i].g.ops && b[i].g.ops[o].status != Undecided
    ensures i > 0 && o in b[i - 1].g.ops
  {
    assert i > 0;
    assert StepAt(b, i - 1);
    var t: nat :| StepBy(b[i - 1], t, b[i]);
    if BusyStep(b[i - 1], t, b[i]) {
      PlacedBy(b[i - 1].g, Top(b[i - 1].stacks[t]), o);
    } else {
      NewUndecided(b[i - 1], t, b[i], o);
    }
  }

  /**
   The value reported with DCSS_FAILED_ADDR1 was in addr1 at some instant after the installation, and so was,
   at some such instant, a value other than old1.
   */
  lemma ReportedWasRead(b: seq<State>, n: nat, i: nat, o: OpId) returns (at: nat, w: nat)
    requires Run(b, n) && i < |b| && o in b[i].g.results && b[i].g.results[o].FailedAddr1?
    ensures at < i && Begun(b, at, o) && Addr1(b, at, o) == b[i].g.results[o].seen
    ensures w < i && Begun(b, w, o) && Addr1(b, w, o) != Raw(Op(b[i].g, o).old1)
  {
    ReturnsTruth(b, n, i, o);
    RunHist(b, n, i);
    assert ResultHist(b, i, b[i].g.results[o], o);
    at :| at < i && SawAt(b, at, o, b[i].g.results[o].seen);
    var d := DecidedAt(b, n, i, o);
    w := DeciderSaw(b, n, d, o);
    RunPersists(b, n, w, i, o);
  }

  /** So it differs from old1 if addr1 does not change between the installation and the return. */
  lemma ReportedDiffers(b: seq<State>, n: nat, i: nat, o: OpId)
    requires Run(b, n) && i < |b| && o in b[i].g.results && b[i].g.results[o].FailedAddr1?
    requires forall m, m' :: Begun(b, m, o) && Begun(b, m', o) && m < i && m' < i ==> Addr1(b, m, o) == Addr1(b, m', o)
    ensures b[i].g.results[o].seen != Raw(Op(b[i].g, o).old1)
  {
    var at, w := ReportedWasRead(b, n, i, o);
  }

  // ---------------------------------------------------------------- continuations

  ghost predicate Continues(c: seq<State>, s: State) {
    |c| > 0 && c[0] == s && forall i :: 0 <= i < |c| - 1 ==> StepAt(c, i)
  }

  ghost predicate Ends(c: seq<State>, s: State, o: OpId, r: Result) {
    Continues(c, s) && o in c[|c| - 1].g.results && c[|c| - 1].g.results[o] == r
  }

  // Some continuation has `o` return `r`.
  ghost predicate CanReturn(s: State, o: OpId, r: Result) { exists c :: Ends(c, s, o, r) }

  lemma Later(s: State, s': State, o: OpId, r: Result)
    requires Step(s, s') && CanReturn(s', o, r)
    ensures CanReturn(s, o, r)
  {
    var c :| Ends(c, s', o, r);
    var d := [s] + c;
    forall i | 0 <= i < |d| - 1 ensures StepAt(d, i) {
      if i > 0 {
        assert StepAt(c, i - 1) && d[i] == c[i - 1] && d[i + 1] == c[i];
      } else {
        assert d[1] == s';
      }
    }
    assert d[|d| - 1] == c[|c| - 1];
    assert Ends(d, s, o, r);
  }

  // ---------------------------------------------------------------- an owner that read old1

  // The thread's top record is `f`.
  predicate Runs(s: State, t: nat, f: Frame) { t < |s.stacks| && s.stacks[t] != [] && Top(s.stacks[t]) == f }

  function Next(s: State, t: nat): State requires t < |s.stacks| && s.stacks[t] != [] {
    var o := Act(s.g, Top(s.stacks[t]));
    State(Tick(o.g), s.stacks[t := Below(s.stacks[t]) + o.tops])
  }

  lemma NextRuns(s: State, t: nat, f: Frame, f': Frame)
    requires Runs(s, t, f) && Act(s.g, f).tops != [] && f' == Top(Act(s.g, f).tops)
    ensures Runs(Next(s, t), t, f') && Step(s, Next(s, t))
    ensures forall u: nat, h :: u != t && Runs(s, u, h) ==> Runs(Next(s, t), u, h)
  {
    var tops := Act(s.g, f).tops;
    var st := Next(s, t).stacks[t];
    assert st[|st| - 1] == tops[|tops| - 1];
    assert StepBy(s, t, Next(s, t));
  }

  // `o` is its thread's current operation, and installed.
  predicate Live(g: Shared, o: OpId, st: Status) {
    o in g.ops && Current(g, o) && g.ops[o].status == st && g.ops[o].phase != Fresh
  }

  lemma OwnerFinishes(s: State, t: nat, o: OpId, seen: Word)
    requires Runs(s, t, Finish(o, false, false, seen))
    ensures CanReturn(s, o, FailedAddr1(seen))
  {
    var s' := Next(s, t);
    assert StepBy(s, t, s');
    assert Ends([s'], s', o, FailedAddr1(seen));
    Later(s, s', o, FailedAddr1(seen));
  }

  // Once a helper has decided that the operation fails, the owner reports what it read.
  lemma OwnerReports(s: State, t: nat, o: OpId, want: bool, seen: Word, at: nat)
    requires Runs(s, t, ReadMutables(o, false, want, seen, at)) && Live(s.g, o, Failed)
    ensures CanReturn(s, o, FailedAddr1(seen))
  {
    var s1 := Next(s, t);
    NextRuns(s, t, ReadMutables(o, false, want, seen, at), CasMutables(o, false, want, seen, at));
    var s2 := Next(s1, t);
    NextRuns(s1, t, CasMutables(o, false, want, seen, at), Finish(o, false, false, seen));
    OwnerFinishes(s2, t, o, seen);
    Later(s1, s2, o, FailedAddr1(seen));
    Later(s, s1, o, FailedAddr1(seen));
  }

  lemma HelperDecides(s: State, t: nat, u: nat, o: OpId, want: bool, seen: Word, at: nat, w: Word, n: nat)
    requires t != u && Runs(s, t, ReadMutables(o, false, want, seen, at)) && Live(s.g, o, Undecided)
    requires Runs(s, u, ReadMutables(o, true, false, w, n))
    ensures CanReturn(s, o, FailedAddr1(seen))
  {
    var s1 := Next(s, u);
    NextRuns(s, u, ReadMutables(o, true, false, w, n), CasMutables(o, true, false, w, n));
    var s2 := Next(s1, u);
    NextRuns(s1, u, CasMutables(o, true, false, w, n), Finish(o, true, false, w));
    OwnerReports(s2, t, o, want, seen, at);
    Later(s1, s2, o, FailedAddr1(seen));
    Later(s, s1, o, FailedAddr1(seen));
  }

  lemma HelperFails(s: State, t: nat, u: nat, o: OpId, want: bool, seen: Word, at: nat)
    requires t != u && Runs(s, t, ReadMutables(o, false, want, seen, at)) && Live(s.g, o, Undecided)
    requires Runs(s, u, Snapshot(o)) && Load(s.g, s.g.ops[o].addr1) != Raw(s.g.ops[o].old1)
    ensures CanReturn(s, o, FailedAddr1(seen))
  {
    var s1 := Next(s, u);
    NextRuns(s, u, Snapshot(o), ReadAddr1(o, true));
    var s2 := Next(s1, u);
    var w := Load(s1.g, Op(s1.g, o).addr1);
    NextRuns(s1, u, ReadAddr1(o, true), ReadMutables(o, true, false, w, s1.g.clock));
    HelperDecides(s2, t, u, o, want, seen, at, w, s1.g.clock);
    Later(s1, s2, o, FailedAddr1(seen));
    Later(s, s1, o, FailedAddr1(seen));
  }

  // An idle thread reads addr2 and finds the tag.
  lemma ReaderFails(s: State, t: nat, u: nat, o: OpId, want: bool, seen: Word, at: nat)
    requires t != u && u < |s.stacks| && u < |s.g.dseq| && s.stacks[u] == []
    requires Runs(s, t, ReadMutables(o, false, want, seen, at)) && Live(s.g, o, Undecided)
    requires 0 <= s.g.ops[o].addr2 < |s.g.mem| && s.g.mem[s.g.ops[o].addr2] == Tag(o)
    requires Load(s.g, s.g.ops[o].addr1) != Raw(s.g.ops[o].old1)
    ensures CanReturn(s, o, FailedAddr1(seen))
  {
    var a := s.g.ops[o].addr2;
    var s1 := State(Tick(s.g), s.stacks[u := [ReadWord(a)]]);
    assert IdleStep(s, u, s1);
    assert StepBy(s, u, s1);
    var s2 := Next(s1, u);
    NextRuns(s1, u, ReadWord(a), Snapshot(o));
    HelperFails(s2, t, u, o, want, seen, at);
    Later(s1, s2, o, FailedAddr1(seen));
    Later(s, s1, o, FailedAddr1(seen));
  }

  // Some word other than `a` and `a'` holds a value.
  ghost predicate Elsewhere(g: Shared, a: int, a': int) {
    exists c :: 0 <= c < |g.mem| && c != a && c != a' && g.mem[c].Raw?
  }

  // Word `a` may be written, or it may be changed by a DCSS that compares a word other than `a` and `a'`.
  ghost predicate Changeable(g: Shared, a: int, a': int) { a in g.plain || (a != a' && Elsewhere(g, a, a')) }

  // Between operations thread `u` may change `o`'s addr1.
  ghost predicate MayChange(s: State, u: nat, o: OpId) {
    u < |s.stacks| && s.stacks[u] == [] && Changeable(s.g, Op(s.g, o).addr1, Op(s.g, o).addr2)
  }

  lemma WriterMakesFail(s: State, t: nat, u: nat, o: OpId, want: bool, seen: Word, at: nat)
    requires Inv(s) && t != u && MayChange(s, u, o) && Op(s.g, o).addr1 in s.g.plain
    requires Runs(s, t, ReadMutables(o, false, want, seen, at)) && Live(s.g, o, Undecided)
    ensures CanReturn(s, o, FailedAddr1(seen))
  {
    var d := s.g.ops[o];
    assert OpInv(s.g, o);
    var s1 := State(Tick(Store(s.g, d.addr1, Raw(d.old1 + 1))), s.stacks);
    assert IdleStep(s, u, s1);
    assert StepBy(s, u, s1);
    ReaderFails(s1, t, u, o, want, seen, at);
    Later(s, s1, o, FailedAddr1(seen));
  }

  // Thread `t`'s record `f` waits, and its installed operation `o` is undecided.
  ghost predicate Waits(s: State, t: nat, f: Frame, o: OpId, d: DOp) {
    && Runs(s, t, f) && Live(s.g, o, Undecided) && o.tid == t && s.g.ops[o] == d
    && 0 <= d.addr1 < |s.g.mem| && 0 <= d.addr2 < |s.g.mem| && d.addr1 != d.addr2 && s.g.mem[d.addr2] == Tag(o)
  }

  // Meanwhile `u`, at `f`, executes `p`, which is to change `o`'s addr1 from its old1 to another value.
  ghost predicate Rivals(s: State, u: nat, f: Frame, p: OpId, o: OpId, d: DOp) {
    && u != o.tid && u < |s.stacks| == |s.g.dseq| && s.stacks[u] == [f] && p.tid == u && p in s.g.ops && Current(s.g, p)
    && s.g.ops[p].addr2 == d.addr1 && s.g.ops[p].old2 == d.old1 && s.g.ops[p].new2 == d.old1 + 1
    && s.g.ops[p].addr1 != d.addr1 && Load(s.g, s.g.ops[p].addr1) == Raw(s.g.ops[p].old1)
  }

  lemma RivalRemoves(s: State, t: nat, u: nat, o: OpId, d: DOp, want: bool, seen: Word, at: nat, p: OpId, w: Word)
    requires Waits(s, t, ReadMutables(o, false, want, seen, at), o, d)
        && Rivals(s, u, Finish(p, false, true, w), p, o, d)
    requires s.g.mem[d.addr1] == Tag(p)
    ensures CanReturn(s, o, FailedAddr1(seen))
  {
    var s1 := Next(s, u);
    assert StepBy(s, u, s1);
    ReaderFails(s1, t, u, o, want, seen, at);
    Later(s, s1, o, FailedAddr1(seen));
  }

  lemma RivalDecides(s: State, t: nat, u: nat, o: OpId, d: DOp, want: bool, seen: Word, at: nat, p: OpId, w: Word,
      n: nat)
    requires Waits(s, t, ReadMutables(o, false, want, seen, at), o, d)
    requires Rivals(s, u, ReadMutables(p, false, true, w, n), p, o, d)
    requires s.g.ops[p].status == Undecided && s.g.mem[d.addr1] == Tag(p)
    ensures CanReturn(s, o, FailedAddr1(seen))
  {
    var s1 := Next(s, u);
    NextRuns(s, u, ReadMutables(p, false, true, w, n), CasMutables(p, false, true, w, n));
    var s2 := Next(s1, u);
    NextRuns(s1, u, CasMutables(p, false, true, w, n), Finish(p, false, true, w));
    RivalRemoves(s2, t, u, o, d, want, seen, at, p, w);
    Later(s1, s2, o, FailedAddr1(seen));
    Later(s, s1, o, FailedAddr1(seen));
  }

  lemma RivalInstalls(s: State, t: nat, u: nat, o: OpId, d: DOp, want: bool, seen: Word, at: nat, p: OpId)
    requires Waits(s, t, ReadMutables(o, false, want, seen, at), o, d) && Rivals(s, u, Install(p), p, o, d)
    requires s.g.ops[p].status == Undecided && s.g.mem[d.addr1] == Raw(d.old1)
    ensures CanReturn(s, o, FailedAddr1(seen))
  {
    var s1 := Next(s, u);
    NextRuns(s, u, Install(p), ReadAddr1(p, false));
    var s2 := Next(s1, u);
    var w := Load(s1.g, s1.g.ops[p].addr1);
    NextRuns(s1, u, ReadAddr1(p, false), ReadMutables(p, false, true, w, s1.g.clock));
    RivalDecides(s2, t, u, o, d, want, seen, at, p, w, s1.g.clock);
    Later(s1, s2, o, FailedAddr1(seen));
    Later(s, s1, o, FailedAddr1(seen));
  }

  // Thread `u` changes addr1 by a DCSS that compares a third word.
  lemma RivalMakesFail(s: State, t: nat, u: nat, o: OpId, d: DOp, want: bool, seen: Word, at: nat)
    requires Inv(s) && t != u && u < |s.stacks| && s.stacks[u] == []
    requires Waits(s, t, ReadMutables(o, false, want, seen, at), o, d)
    requires d.addr1 !in s.g.plain && Elsewhere(s.g, d.addr1, d.addr2) && s.g.mem[d.addr1] == Raw(d.old1)
    ensures CanReturn(s, o, FailedAddr1(seen))
  {
    var c :| 0 <= c < |s.g.mem| && c != d.addr1 && c != d.addr2 && s.g.mem[c].Raw?;
    var e := DOp(c, s.g.mem[c].v, d.addr1, d.old1, d.old1 + 1, Undecided, Fresh);
    var p := OpId(u, s.g.dseq[u] + 2);
    var s1 := State(Tick(Publish(s.g, u, e).0), s.stacks[u := [Install(p)]]);
    assert Proper(s.g, e);
    assert IdleStep(s, u, s1);
    assert StepBy(s, u, s1);
    RivalInstalls(s1, t, u, o, d, want, seen, at, p);
    Later(s, s1, o, FailedAddr1(seen));
  }

  lemma ChangeMakesFail(s: State, t: nat, u: nat, o: OpId, want: bool, seen: Word, at: nat)
    requires Inv(s) && t != u && MayChange(s, u, o)
    requires Runs(s, t, ReadMutables(o, false, want, seen, at)) && Live(s.g, o, Undecided)
    ensures CanReturn(s, o, FailedAddr1(seen))
  {
    var d := s.g.ops[o];
    OwnerCarries(s, t, o, want, seen, at);
    assert OpInv(s.g, o);
    if d.addr1 in s.g.plain {
      WriterMakesFail(s, t, u, o, want, seen, at);
    } else if Load(s.g, d.addr1) == Raw(d.old1) {
      RivalMakesFail(s, t, u, o, d, want, seen, at);
    } else {
      ReaderFails(s, t, u, o, want, seen, at);
    }
  }

  // ---------------------------------------------------------------- an owner that read something else

  // Whatever the owner reports will be `seen`.
  ghost predicate Carried(s: State, o: OpId, seen: Word) {
    && o in s.g.ops && (o in s.g.results && s.g.results[o].FailedAddr1? ==> s.g.results[o].seen == seen)
    && forall t, d :: 0 <= t < |s.stacks| && 0 <= d < |s.stacks[t]| ==> Carries(s.stacks[t][d], o, seen)
  }

  predicate Carries(f: Frame, o: OpId, seen: Word) {
    match f
    case Install(x) => x != o
    case ReadAddr1(x, h) => x == o ==> h
    case ReadMutables(x, h, _, w, _) => x == o && !h ==> w == seen
    case CasMutables(x, h, _, w, _) => x == o && !h ==> w == seen
    case Finish(x, h, _, w) => x == o && !h ==> w == seen
    case _ => true
  }

  lemma ActCarries(g: Shared, f: Frame, o: OpId, seen: Word)
    requires o in g.ops && Carries(f, o, seen)
    requires o in g.results && g.results[o].FailedAddr1? ==> g.results[o].seen == seen
    ensures var x := Act(g, f);
        && o in x.g.ops && (o in x.g.results && x.g.results[o].FailedAddr1? ==> x.g.results[o].seen == seen)
        && forall d :: 0 <= d < |x.tops| ==> Carries(x.tops[d], o, seen)
  {}

  lemma BusyCarries(s: State, t: nat, s': State, o: OpId, seen: Word)
    requires Carried(s, o, seen) && t < |s.stacks| && BusyStep(s, t, s')
    ensures Carried(s', o, seen)
  {
    var n := |s.stacks[t]| - 1;
    ActCarries(s.g, s.stacks[t][n], o, seen);
    forall u, d | 0 <= u < |s'.stacks| && 0 <= d < |s'.stacks[u]| ensures Carries(s'.stacks[u][d], o, seen) {
      if u == t && d >= n {
        assert s'.stacks[t][d] == Act(s.g, s.stacks[t][n]).tops[d - n];
      } else {
        assert s'.stacks[u][d] == s.stacks[u][d];
      }
    }
  }

  lemma IdleCarries(s: State, t: nat, s': State, o: OpId, seen: Word)
    requires OpsInv(s.g) && Carried(s, o, seen) && t < |s.stacks| && IdleStep(s, t, s')
    ensures Carried(s', o, seen)
  {
    assert OpInv(s.g, o);
    forall u, d | 0 <= u < |s'.stacks| && 0 <= d < |s'.stacks[u]| ensures Carries(s'.stacks[u][d], o, seen) {
      if u != t || s'.stacks[t] == s.stacks[t] { assert s'.stacks[u][d] == s.stacks[u][d]; }
    }
  }

  lemma {:induction false} StaysCarried(c: seq<State>, s: State, o: OpId, seen: Word, j: nat)
    requires GoodState(s) && Continues(c, s) && Carried(s, o, seen) && j < |c|
    ensures GoodState(c[j]) && Carried(c[j], o, seen)
  {
    if j > 0 {
      StaysCarried(c, s, o, seen, j - 1);
      assert StepAt(c, j - 1);
      StepKeeps(c[j - 1], c[j]);
      var t: nat :| StepBy(c[j - 1], t, c[j]);
      if BusyStep(c[j - 1], t, c[j]) {
        BusyCarries(c[j - 1], t, c[j], o, seen);
      } else {
        IdleCarries(c[j - 1], t, c[j], o, seen);
      }
    }
  }

  // The owner's one record carries what it read.
  lemma OwnerCarries(s: State, t: nat, o: OpId, want: bool, seen: Word, at: nat)
    requires Inv(s) && Runs(s, t, ReadMutables(o, false, want, seen, at))
    ensures Carried(s, o, seen) && o.tid == t && s.g.ops[o].phase != Fresh && Current(s.g, o)
    ensures want <==> seen == Raw(s.g.ops[o].old1)
  {
    var n := |s.stacks[t]| - 1;
    assert FrameInv(s.g, t, n, s.stacks[t][n]);
    forall u, d | 0 <= u < |s.stacks| && 0 <= d < |s.stacks[u]| ensures Carries(s.stacks[u][d], o, seen) {
      assert FrameInv(s.g, u, d, s.stacks[u][d]);
    }
  }

  // ---------------------------------------------------------------- the exact condition

  /**
   While an operation is undecided and another thread may change addr1, by a write or by a DCSS of its own, some
   continuation has it fail and report old1 exactly if the owner's own read of addr1 found old1.
   */
  lemma ReportsOld1Exactly(b: seq<State>, n: nat, i: nat, t: nat, u: nat, o: OpId, want: bool, seen: Word, at: nat)
    requires Run(b, n) && i < |b| && t != u && MayChange(b[i], u, o) && Op(b[i].g, o).status == Undecided
    requires Runs(b[i], t, ReadMutables(o, false, want, seen, at))
    ensures CanReturn(b[i], o, FailedAddr1(Raw(Op(b[i].g, o).old1))) <==> seen == Raw(Op(b[i].g, o).old1)
  {
    RunKeeps(b, n, i);
    var s := b[i];
    OwnerCarries(s, t, o, want, seen, at);
    ChangeMakesFail(s, t, u, o, want, seen, at);
    var r := FailedAddr1(Raw(Op(s.g, o).old1));
    if CanReturn(s, o, r) {
      var c :| Ends(c, s, o, r);
      StaysCarried(c, s, o, seen, |c| - 1);
    }
  }

  // ---------------------------------------------------------------- for the caller

  // The operation that thread `t` publishes next.
  function NextOp(s: State, t: nat): OpId requires t < |s.g.dseq| { OpId(t, s.g.dseq[t] + 2) }

  // Threads `t` and `u` are idle, and the words hold what the operation expects.
  ghost predicate Expected(s: State, t: nat, u: nat, d: DOp) {
    && t != u && t < |s.g.dseq| && t < |s.stacks| && u < |s.stacks| && s.stacks[t] == [] && s.stacks[u] == []
    && Proper(s.g, d) && Changeable(s.g, d.addr1, d.addr2)
    && Load(s.g, d.addr1) == Raw(d.old1) && Load(s.g, d.addr2) == Raw(d.old2)
  }

  // Thread `t` has published `d` as `o`, and nobody has interfered.
  ghost predicate Under(s: State, t: nat, u: nat, o: OpId, d: DOp, ph: Phase) {
    && GoodState(s) && t != u && t < |s.stacks| && u < |s.stacks| && s.stacks[u] == [] && o.tid == t
    && o in s.g.ops && s.g.ops[o] == d.(status := Undecided, phase := ph) && Current(s.g, o)
    && Changeable(s.g, d.addr1, d.addr2) && Load(s.g, d.addr1) == Raw(d.old1)
  }

  lemma Publishes(s: State, t: nat, u: nat, d: DOp) returns (a: State)
    requires GoodState(s) && Expected(s, t, u, d)
    ensures var o := NextOp(s, t);
        && o !in s.g.ops && Step(s, a) && Under(a, t, u, o, d, Fresh) && Runs(a, t, Install(o))
        && Load(a.g, d.addr2) == Raw(d.old2)
  {
    var o := NextOp(s, t);
    assert o !in s.g.ops by { assert forall x :: x in s.g.ops ==> OpInv(s.g, x); }
    a := State(Tick(Publish(s.g, t, d).0), s.stacks[t := [Install(o)]]);
    assert IdleStep(s, t, a);
    assert StepBy(s, t, a);
    StepKeeps(s, a);
  }

  lemma PlacesTag(a: State, t: nat, u: nat, o: OpId, d: DOp) returns (b: State)
    requires Under(a, t, u, o, d, Fresh) && Runs(a, t, Install(o)) && Load(a.g, d.addr2) == Raw(d.old2)
    ensures Step(a, b) && Under(b, t, u, o, d, Placed) && Runs(b, t, ReadAddr1(o, false))
  {
    b := Next(a, t);
    NextRuns(a, t, Install(o), ReadAddr1(o, false));
    StepKeeps(a, b);
    assert OpInv(a.g, o);
    if d.addr1 !in a.g.plain {
      var c :| 0 <= c < |a.g.mem| && c != d.addr1 && c != d.addr2 && a.g.mem[c].Raw?;
      assert b.g.mem[c].Raw?;
    }
  }

  lemma ReadsAddr1(b: State, t: nat, u: nat, o: OpId, d: DOp) returns (c: State, at: nat)
    requires Under(b, t, u, o, d, Placed) && Runs(b, t, ReadAddr1(o, false))
    ensures Step(b, c) && Under(c, t, u, o, d, Placed) && Runs(c, t, ReadMutables(o, false, true, Raw(d.old1), at))
  {
    c := Next(b, t);
    at := b.g.clock;
    NextRuns(b, t, ReadAddr1(o, false), ReadMutables(o, false, true, Raw(d.old1), at));
    StepKeeps(b, c);
  }

  lemma Extended(b: seq<State>, n: nat, s: State) returns (r: seq<State>)
    requires Run(b, n) && Step(b[|b| - 1], s)
    ensures Run(r, n) && r == b + [s]
  {
    r := b + [s];
    forall i | 0 <= i < |r| - 1 ensures StepAt(r, i) {
      if i < |b| - 1 {
        assert StepAt(b, i) && r[i] == b[i] && r[i + 1] == b[i + 1];
      } else {
        assert r[i] == b[|b| - 1] && r[i + 1] == s;
      }
    }
  }

  lemma Joined(b: seq<State>, n: nat, c: seq<State>) returns (r: seq<State>)
    requires Run(b, n) && Continues(c, b[|b| - 1])
    ensures Run(r, n) && r == b + c[1..] && r[|r| - 1] == c[|c| - 1]
  {
    r := b + c[1..];
    forall i | 0 <= i < |r| - 1 ensures StepAt(r, i) {
      if i < |b| - 1 {
        assert StepAt(b, i) && r[i] == b[i] && r[i + 1] == b[i + 1];
      } else {
        var k := i - (|b| - 1);
        assert StepAt(c, k) && r[i] == c[k] && r[i + 1] == c[k + 1];
      }
    }
  }

  // The run goes on to where the owner has published the operation...
  lemma PublishedRun(b: seq<State>, n: nat, t: nat, u: nat, d: DOp) returns (r: seq<State>, o: OpId)
    requires Run(b, n) && Expected(b[|b| - 1], t, u, d)
    ensures Run(r, n) && b <= r && o !in b[|b| - 1].g.ops
    ensures var s := r[|r| - 1];
        Under(s, t, u, o, d, Fresh) && Runs(s, t, Install(o)) && Load(s.g, d.addr2) == Raw(d.old2)
  {
    RunKeeps(b, n, |b| - 1);
    o := NextOp(b[|b| - 1], t);
    var x := Publishes(b[|b| - 1], t, u, d);
    r := Extended(b, n, x);
  }

  // ...and to where it has read old1.
  lemma ReadsOld1(b: seq<State>, n: nat, t: nat, u: nat, d: DOp) returns (r: seq<State>, o: OpId, at: nat)
    requires Run(b, n) && Expected(b[|b| - 1], t, u, d)
    ensures Run(r, n) && b <= r && o !in b[|b| - 1].g.ops && Under(r[|r| - 1], t, u, o, d, Placed)
    ensures Runs(r[|r| - 1], t, ReadMutables(o, false, true, Raw(d.old1), at))
  {
    var q;
    q, o := PublishedRun(b, n, t, u, d);
    var y := PlacesTag(q[|q| - 1], t, u, o, d);
    q := Extended(q, n, y);
    var z;
    z, at := ReadsAddr1(y, t, u, o, d);
    r := Extended(q, n, z);
  }

  lemma Fails(b: seq<State>, n: nat, t: nat, u: nat, o: OpId, d: DOp, at: nat) returns (r: seq<State>)
    requires Run(b, n) && Under(b[|b| - 1], t, u, o, d, Placed)
    requires Runs(b[|b| - 1], t, ReadMutables(o, false, true, Raw(d.old1), at))
    ensures Run(r, n) && b <= r && o in r[|r| - 1].g.results && r[|r| - 1].g.results[o] == FailedAddr1(Raw(d.old1))
  {
    var s := b[|b| - 1];
    ChangeMakesFail(s, t, u, o, true, Raw(d.old1), at);
    var c :| Ends(c, s, o, FailedAddr1(Raw(d.old1)));
    r := Joined(b, n, c);
  }

  /**
   So a caller cannot rule it out: from every reachable state in which two threads are idle, the words hold old1 and
   old2 and addr1 may be changed, some run of a dcssPtr fails because of addr1 and reports old1.
   */
  lemma CallerMaySeeOld1(b: seq<State>, n: nat, t: nat, u: nat, d: DOp) returns (r: seq<State>, o: OpId)
    requires Run(b, n) && Expected(b[|b| - 1], t, u, d)
    ensures Run(r, n) && b <= r && o.tid == t && o !in b[|b| - 1].g.ops
    ensures var g := r[|r| - 1].g;
        && o in g.ops && g.ops[o] == d.(status := Failed, phase := g.ops[o].phase)
        && o in g.results && g.results[o] == FailedAddr1(Raw(d.old1))
  {
    var q, at;
    q, o, at := ReadsOld1(b, n, t, u, d);
    r := Fails(q, n, t, u, o, d, at);
    assert r[|q| - 1] == q[|q| - 1];
    RunPersists(r, n, |q| - 1, |r| - 1, o);
    ReturnsTruth(r, n, |r| - 1, o);
  }

  /** An instance: two threads, two words that hold 0. */
  lemma FailureMayReportOld1() returns (b: seq<State>, o: OpId)
    ensures Run(b, 2) && o in b[|b| - 1].g.results && o in b[|b| - 1].g.ops
    ensures b[|b| - 1].g.results[o] == FailedAddr1(Raw(b[|b| - 1].g.ops[o].old1))
  {
    var s := State(Shared([Raw(0), Raw(0)], {0}, map[], [1, 1], map[], [], 0), [[], []]);
    assert Run([s], 2);
    b, o := CallerMaySeeOld1([s], 2, 0, 1, DOp(0, 0, 1, 0, 1, Undecided, Fresh));
  }
}
