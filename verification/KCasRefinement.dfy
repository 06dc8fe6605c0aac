/**
 k-CAS refines an atomic multi-word compare-and-swap, and a successful validated k-CAS has an
 instant at which its locked entries and its visited words were all as expected.
 */
module KCasRefinement {
  import opened KCas
  import opened KCasInvariant
  import opened KCasSteps
  import opened KCasSafety

  // ---------------------------------------------------------------- steps that abstract to nothing

  ghost predicate SameAbs(g: Shared, g': Shared) { Abs(g') == Abs(g) }

  lemma EntryForIs(es: seq<Entry>, i: nat)
    requires DistinctAddrs(es) && i < |es|
    ensures IndexOf(es, es[i].addr) == i && EntryFor(es, es[i].addr) == es[i]
  {}

  // Meanings are unchanged away from the one word written, if every descriptor means the same.
  lemma AbsFrom(g: Shared, g': Shared, at: int)
    requires |g'.mem| == |g.mem| && WordsInv(g)
    requires forall a :: 0 <= a < |g.mem| && a != at ==> g'.mem[a] == g.mem[a]
    requires forall k :: k in g.kops ==> Op(g', k) == Op(g, k)
    requires forall r :: r in g.rops ==> Target(g', r) == Target(g, r)
    requires 0 <= at < |g.mem| ==> Meaning(g', at) == Meaning(g, at)
    ensures SameAbs(g, g')
  {
    forall a | 0 <= a < |g.mem| ensures Meaning(g', a) == Meaning(g, a) {
      assert WordInv(g, a);
    }
  }

  lemma NewRdcssAbs(g: Shared, t: nat, k: KId, i: nat)
    requires SharedInv(g) && t < |g.rseq|
    ensures SameAbs(g, NewRdcss(g, t, k, i).0)
  {
    var r := NewRdcss(g, t, k, i).1;
    assert r !in g.rops by { assert forall x :: x in g.rops ==> ROpInv(g, x); }
    AbsFrom(g, NewRdcss(g, t, k, i).0, -1);
  }

  lemma PlaceTagAbs(g: Shared, r: RId)
    requires SharedInv(g) && r in g.rops && Load(g, Target(g, r).addr) == Raw(Target(g, r).oldval)
    ensures SameAbs(g, PlaceTag(g, r))
  {
    AbsFrom(g, PlaceTag(g, r), Target(g, r).addr);
  }

  lemma LiftTagAbs(g: Shared, r: RId, und: bool)
    requires SharedInv(g) && LiftReady(g, r, und)
    ensures SameAbs(g, LiftTag(g, r, und))
  {
    var g' := LiftTag(g, r, und);
    var at := Target(g, r).addr;
    if Load(g, at) == RTag(r) {
      assert ROpInv(g, r);
      var op := g.kops[g.rops[r].k];
      assert KOpInv(g, g.rops[r].k);
      EntryForIs(op.entries, g.rops[r].i);
      if 0 <= at < |g.mem| {
        assert WordInv(g, at);
        assert Meaning(g', at) == Meaning(g, at);
      }
      AbsFrom(g, g', at);
    }
  }

  lemma UnlockAbs(g: Shared, k: KId, i: nat, won: bool)
    requires SharedInv(g) && k in g.kops && g.kops[k].status != Undecided && i < |g.kops[k].entries|
    requires won == (g.kops[k].status == Succeeded)
    ensures SameAbs(g, Unlock(g, k, i, won))
  {
    assert KOpInv(g, k);
    EntryForIs(g.kops[k].entries, i);
    AbsFrom(g, Unlock(g, k, i, won), g.kops[k].entries[i].addr);
  }

  // ---------------------------------------------------------------- the step that matters

  // `k` succeeds: every entry held its tag, and all of them change together.
  ghost predicate TakesEffect(g: Shared, g': Shared, k: KId) {
    && k in g.kops && g.kops[k].status == Undecided && Op(g', k).status == Succeeded
    && (forall i :: 0 <= i < |g.kops[k].entries| ==> Holds(g, k, i))
    && AtomicCas(Abs(g), g.kops[k].entries, Abs(g'))
  }

  lemma DecideMeaning(g: Shared, k: KId, ok: bool, a: int)
    requires DecideReady(g, k, ok) && KOpInv(g, k) && Open(g, k) && 0 <= a < |g.mem| && WordInv(g, a)
    requires !ok || IndexOf(g.kops[k].entries, a) == |g.kops[k].entries|
    ensures Meaning(Resolve(g, k, ok), a) == Meaning(g, a)
  {
    var g' := Resolve(g, k, ok);
    assert !ok || !Owns(g.kops[k].entries, a);
    if g.mem[a].RTag? { assert Target(g', g.mem[a].r) == Target(g, g.mem[a].r); }
  }

  lemma SucceedMeaning(g: Shared, k: KId, i: nat)
    requires DecideReady(g, k, true) && KOpInv(g, k) && Open(g, k) && i < |g.kops[k].entries|
    ensures Holds(g, k, i)
    ensures Meaning(g, g.kops[k].entries[i].addr) == g.kops[k].entries[i].oldval
    ensures Meaning(Resolve(g, k, true), g.kops[k].entries[i].addr) == g.kops[k].entries[i].newval
  {
    assert Holds(g, k, i);
    EntryForIs(g.kops[k].entries, i);
  }

  lemma ResolveAbs(g: Shared, k: KId, ok: bool)
    requires SharedInv(g) && DecideReady(g, k, ok)
    ensures if Open(g, k) && ok then TakesEffect(g, Resolve(g, k, ok), k) else SameAbs(g, Resolve(g, k, ok))
  {
    var g' := Resolve(g, k, ok);
    assert KOpInv(g, k);
    if Open(g, k) {
      forall a | 0 <= a < |g.mem| && (!ok || IndexOf(g.kops[k].entries, a) == |g.kops[k].entries|)
        ensures Meaning(g', a) == Meaning(g, a)
      {
        assert WordInv(g, a);
        DecideMeaning(g, k, ok, a);
      }
      if ok {
        forall i | 0 <= i < |g.kops[k].entries|
          ensures Holds(g, k, i)
          ensures Meaning(g, g.kops[k].entries[i].addr) == g.kops[k].entries[i].oldval
          ensures Meaning(g', g.kops[k].entries[i].addr) == g.kops[k].entries[i].newval
        { SucceedMeaning(g, k, i); }
      }
    }
  }

  ghost predicate Effect(g: Shared, g': Shared) { SameAbs(g, g') || exists k :: TakesEffect(g, g', k) }

  lemma LockingAbs(g: Shared, t: nat, f: Frame)
    requires Ready(g, t, f) && (f.LockNext? || f.Place?)
    ensures SameAbs(g, Act(g, t, f).g)
  {
    if f.LockNext? {
      if f.i < |g.kops[f.k].entries| { NewRdcssAbs(g, t, f.k, f.i); }
    } else {
      var e := EntryAt(Op(g, f.k), f.i);
      if Load(g, e.addr) == Raw(e.oldval) { PlaceTagAbs(g, f.r); }
      else if Load(g, e.addr).Raw? { AbsFrom(g, g.(missed := g.missed + {f.k}), -1); }
    }
  }

  lemma LiftingAbs(g: Shared, t: nat, f: Frame)
    requires Ready(g, t, f) && (f.OwnLift? || f.RdcssLift?)
    ensures SameAbs(g, Act(g, t, f).g)
  {
    LiftTagAbs(g, f.r, f.und);
  }

  lemma ReleasingAbs(g: Shared, t: nat, f: Frame)
    requires Ready(g, t, f) && f.Release?
    ensures SameAbs(g, Act(g, t, f).g)
  {
    if f.i < |g.kops[f.k].entries| { UnlockAbs(g, f.k, f.i, f.won); } else { AbsFrom(g, Act(g, t, f).g, -1); }
  }

  lemma ReadingAbs(g: Shared, t: nat, f: Frame)
    requires Ready(g, t, f) && !(f.LockNext? || f.Place? || f.OwnLift? || f.RdcssLift? || f.Release? || f.Decide?)
    ensures SameAbs(g, Act(g, t, f).g)
  {
    if f.ReadWord? { AbsFrom(g, Act(g, t, f).g, -1); }
  }

  lemma ActAbs(g: Shared, t: nat, f: Frame)
    requires Ready(g, t, f)
    ensures Effect(g, Act(g, t, f).g)
  {
    match f
    case LockNext(_, _, _) => LockingAbs(g, t, f);
    case Place(_, _, _, _) => LockingAbs(g, t, f);
    case OwnLift(_, _, _, _, _) => LiftingAbs(g, t, f);
    case RdcssLift(_, _) => LiftingAbs(g, t, f);
    case Decide(k, h, ok, since) => ResolveAbs(g, k, ok);
    case Release(_, _, _, _) => ReleasingAbs(g, t, f);
    case _ => ReadingAbs(g, t, f);
  }

  // ---------------------------------------------------------------- the refinement theorem

  /** One step of the concrete protocol is one atomic k-CAS, at its success, or nothing. */
  ghost predicate Refines(g: Shared, g': Shared) {
    && (forall k :: k in g.kops && JustSucceeded(g, g', k) ==> TakesEffect(g, g', k))
    && ((forall k :: k in g.kops ==> !JustSucceeded(g, g', k)) ==> SameAbs(g, g'))
  }

  lemma OtherStatus(g: Shared, t: nat, f: Frame, k: KId)
    requires k in g.kops && !(f.Decide? && f.k == k)
    ensures Op(Act(g, t, f).g, k) == Op(g, k)
  {}

  lemma ActRefines(g: Shared, t: nat, f: Frame)
    requires Ready(g, t, f)
    ensures Refines(g, Act(g, t, f).g)
  {
    var g' := Act(g, t, f).g;
    ActAbs(g, t, f);
    forall k | k in g.kops && JustSucceeded(g, g', k) ensures TakesEffect(g, g', k) {
      if !(f.Decide? && f.k == k) { OtherStatus(g, t, f, k); }
      ResolveAbs(g, f.k, f.ok);
    }
  }

  lemma TickRefines(g: Shared, g': Shared)
    requires Refines(g, g')
    ensures Refines(g, Tick(g'))
  {
    var h := Tick(g');
    AbsSame(g', h);
    forall k | k in g.kops && JustSucceeded(g, h, k) ensures TakesEffect(g, h, k) {
      assert JustSucceeded(g, g', k);
    }
  }

  lemma AbsSame(g: Shared, g': Shared)
    requires g'.mem == g.mem && g'.kops == g.kops && g'.rops == g.rops
    ensures SameAbs(g, g')
  {
    forall a | 0 <= a < |g.mem| ensures Meaning(g', a) == Meaning(g, a) {}
  }

  // A new operation changes no meaning.
  lemma PublishAbs(g: Shared, g': Shared, k: KId, op: KOp)
    requires SharedInv(g) && g'.mem == g.mem && g'.rops == g.rops && k !in g.kops && g'.kops == g.kops[k := op]
    ensures SameAbs(g, g')
  {
    assert forall r :: r in g.rops ==> ROpInv(g, r);
    AbsFrom(g, g', -1);
  }

  // Starting or publishing an operation, or beginning a read, changes no meaning.
  lemma IdleRefines(s: State, t: nat, s': State)
    requires GoodState(s) && t < |s.stacks| && IdleStep(s, t, s')
    ensures Refines(s.g, s'.g)
  {
    if s'.g.kops == s.g.kops {
      AbsSame(s.g, s'.g);
    } else {
      var k := KId(t, s.g.kseq[t] + 1);
      assert k !in s.g.kops by { assert forall x :: x in s.g.kops ==> KOpInv(s.g, x); }
      assert s'.g.kops == s.g.kops[k := s'.g.kops[k]];
      PublishAbs(s.g, s'.g, k, s'.g.kops[k]);
    }
  }

  /** Abstract memory changes only when an operation goes from undecided to succeeded; at that
      step all its entries, entry 0 included, hold its tag, and they go from old to new together. */
  lemma StepRefines(s: State, s': State)
    requires GoodState(s) && Step(s, s')
    ensures Refines(s.g, s'.g)
  {
    var t: nat :| t < |s.stacks| && (IdleStep(s, t, s') || BusyStep(s, t, s'));
    if BusyStep(s, t, s') {
      var f := Top(s.stacks[t]);
      assert FrameInv(s.g, t, f) && PlaceInv(s.g, f);
      ActRefines(s.g, t, f);
      TickRefines(s.g, Act(s.g, t, f).g);
    } else {
      IdleRefines(s, t, s');
    }
  }

  // ---------------------------------------------------------------- histories of one operation

  ghost predicate Persists(g: Shared, g': Shared, k: KId) {
    && k in g.kops && k in g'.kops
    && g'.kops[k] == g.kops[k].(status := g'.kops[k].status)
    && (g.kops[k].status != Undecided ==> g'.kops[k].status == g.kops[k].status)
  }

  lemma BusyPersists(s: State, t: nat, s': State, k: KId)
    requires Inv(s) && t < |s.stacks| && BusyStep(s, t, s') && k in s.g.kops
    ensures Persists(s.g, s'.g, k)
  {
    var f := Top(s.stacks[t]);
    assert FrameInv(s.g, t, f) && PlaceInv(s.g, f);
    ActKeeps(s.g, t, f);
    assert KExt(s.g, Act(s.g, t, f).g, k);
  }

  lemma IdlePersists(s: State, t: nat, s': State, k: KId)
    requires KOpsInv(s.g) && t < |s.stacks| && IdleStep(s, t, s') && k in s.g.kops
    ensures Persists(s.g, s'.g, k)
  {
    assert KOpInv(s.g, k);
  }

  lemma RunStepPersists(b: seq<State>, n: nat, i: nat, k: KId)
    requires Run(b, n) && i < |b| - 1 && k in b[i].g.kops
    ensures Persists(b[i].g, b[i + 1].g, k)
  {
    RunKeeps(b, n, i);
    assert StepAt(b, i);
    var t: nat :| t < |b[i].stacks| && (IdleStep(b[i], t, b[i + 1]) || BusyStep(b[i], t, b[i + 1]));
    if BusyStep(b[i], t, b[i + 1]) { BusyPersists(b[i], t, b[i + 1], k); } else { IdlePersists(b[i], t, b[i + 1], k); }
  }

  lemma {:induction false} RunPersists(b: seq<State>, n: nat, i: nat, j: nat, k: KId)
    requires Run(b, n) && i <= j < |b| && k in b[i].g.kops
    ensures Persists(b[i].g, b[j].g, k)
  {
    if i < j {
      RunPersists(b, n, i, j - 1, k);
      RunStepPersists(b, n, j - 1, k);
    }
  }

  /** Every step of every run is one atomic k-CAS, at its success, or leaves abstract memory alone. */
  lemma RunRefines(b: seq<State>, n: nat, i: nat)
    requires Run(b, n) && i < |b| - 1
    ensures Refines(b[i].g, b[i + 1].g)
  {
    RunKeeps(b, n, i);
    assert StepAt(b, i);
    StepRefines(b[i], b[i + 1]);
  }

  ghost predicate EffectAt(b: seq<State>, i: int, k: KId) {
    0 <= i < |b| - 1 && TakesEffect(b[i].g, b[i + 1].g, k)
  }

  lemma NewOpUndecided(s: State, t: nat, s': State, k: KId)
    requires t < |s.stacks| && IdleStep(s, t, s') && k in s'.g.kops && s'.g.kops[k].status != Undecided
    ensures k in s.g.kops
  {}

  lemma RunNewOp(b: seq<State>, n: nat, i: nat, k: KId)
    requires Run(b, n) && i < |b| - 1 && k in b[i + 1].g.kops && b[i + 1].g.kops[k].status != Undecided
    ensures k in b[i].g.kops
  {
    assert StepAt(b, i);
    var t: nat :| t < |b[i].stacks| && (IdleStep(b[i], t, b[i + 1]) || BusyStep(b[i], t, b[i + 1]));
    if BusyStep(b[i], t, b[i + 1]) {
      ActKeys(b[i].g, t, Top(b[i].stacks[t]), k);
    } else {
      NewOpUndecided(b[i], t, b[i + 1], k);
    }
  }

  // A decided operation was decided at some earlier step, before which it was undecided.
  lemma {:induction false} DecidedAt(b: seq<State>, n: nat, j: nat, k: KId) returns (i: nat)
    requires Run(b, n) && j < |b| && k in b[j].g.kops && b[j].g.kops[k].status != Undecided
    ensures i < j && k in b[i].g.kops && b[i].g.kops[k].status == Undecided
    ensures k in b[i + 1].g.kops && b[i + 1].g.kops[k].status == b[j].g.kops[k].status
  {
    RunNewOp(b, n, j - 1, k);
    if b[j - 1].g.kops[k].status == Undecided {
      i := j - 1;
    } else {
      RunStepPersists(b, n, j - 1, k);
      i := DecidedAt(b, n, j - 1, k);
    }
  }

  /** `execute` returns true exactly when its operation took effect, once, between its
      publication and its return; when it returns false, it never did. */
  lemma ExecuteIsAtomic(b: seq<State>, n: nat, j: nat, k: KId)
    requires Run(b, n) && j < |b| && k in b[j].g.returned
    ensures b[j].g.returned[k] ==> exists i :: i < j && EffectAt(b, i, k) && k !in b[i].g.returned
    ensures !b[j].g.returned[k] ==> forall i :: i < j ==> !EffectAt(b, i, k)
    ensures forall i, i' :: EffectAt(b, i, k) && EffectAt(b, i', k) ==> i == i'
  {
    RunKeeps(b, n, j);
    assert KOpInv(b[j].g, k);
    forall i, i' | EffectAt(b, i, k) && EffectAt(b, i', k) ensures i == i' {
      EffectOnce(b, n, i, i', k);
      EffectOnce(b, n, i', i, k);
    }
    forall i | i < j && EffectAt(b, i, k) ensures b[j].g.kops[k].status == Succeeded {
      EffectLasts(b, n, i, j, k);
    }
    if b[j].g.returned[k] {
      var i := DecidedAt(b, n, j, k);
      RunKeeps(b, n, i);
      assert KOpInv(b[i].g, k);
      assert StepAt(b, i);
      StepRefines(b[i], b[i + 1]);
      assert EffectAt(b, i, k);
    }
  }

  /** Once `execute` has returned true, no word holds its operation's tag, then or later. */
  lemma SuccessLeavesNoTag(b: seq<State>, n: nat, j: nat, k: KId, a: int)
    requires Run(b, n) && j < |b| && k in b[j].g.returned && b[j].g.returned[k] && 0 <= a < |b[j].g.mem|
    ensures b[j].g.mem[a] != KTag(k)
  {
    RunKeeps(b, n, j);
    assert KOpInv(b[j].g, k) && WordInv(b[j].g, a);
    if b[j].g.mem[a] == KTag(k) {
      var i :| 0 <= i < |b[j].g.kops[k].entries| && b[j].g.kops[k].entries[i].addr == a;
      assert Holds(b[j].g, k, i);
    }
  }

  lemma EffectLasts(b: seq<State>, n: nat, i: nat, j: nat, k: KId)
    requires Run(b, n) && i < j < |b| && EffectAt(b, i, k)
    ensures k in b[j].g.kops && b[j].g.kops[k].status == Succeeded
  {
    RunPersists(b, n, i, i + 1, k);
    RunPersists(b, n, i + 1, j, k);
  }

  lemma EffectOnce(b: seq<State>, n: nat, i: nat, j: nat, k: KId)
    requires Run(b, n) && EffectAt(b, i, k) && EffectAt(b, j, k)
    ensures i >= j
  {
    if i < j { EffectLasts(b, n, i, j, k); }
  }

  // ---------------------------------------------------------------- why an operation fails

  ghost predicate Differs(g: Shared, k: KId) {
    k in g.kops && exists i ::
        0 <= i < |g.kops[k].entries| && Meaning(g, g.kops[k].entries[i].addr) != g.kops[k].entries[i].oldval
  }

  lemma MissFrame(g: Shared, t: nat, f: Frame, k: KId)
    requires k in Act(g, t, f).g.missed && k !in g.missed
    ensures f.Place? && f.k == k
    ensures var e := EntryAt(Op(g, k), f.i); Load(g, e.addr).Raw? && Load(g, e.addr).v != e.oldval
  {}

  lemma MissDiffers(s: State, t: nat, s': State, k: KId)
    requires FramesInv(s) && t < |s.stacks| && BusyStep(s, t, s') && k in s'.g.missed && k !in s.g.missed
    ensures Differs(s.g, k)
  {
    var f := Top(s.stacks[t]);
    MissFrame(s.g, t, f, k);
    assert FrameInv(s.g, t, f);
    assert Meaning(s.g, s.g.kops[k].entries[f.i].addr) != s.g.kops[k].entries[f.i].oldval;
  }

  lemma RunMiss(b: seq<State>, n: nat, i: nat, k: KId)
    requires Run(b, n) && i < |b| - 1 && k in b[i + 1].g.missed && k !in b[i].g.missed
    ensures Differs(b[i].g, k)
  {
    RunKeeps(b, n, i);
    var s, s' := b[i], b[i + 1];
    assert StepAt(b, i);
    var t: nat :| t < |s.stacks| && (IdleStep(s, t, s') || BusyStep(s, t, s'));
    if BusyStep(s, t, s') { MissDiffers(s, t, s', k); }
  }

  lemma {:induction false} MissedAt(b: seq<State>, n: nat, j: nat, k: KId) returns (i: nat)
    requires Run(b, n) && j < |b| && k in b[j].g.missed
    ensures i < j && Differs(b[i].g, k)
  {
    if k in b[j - 1].g.missed {
      i := MissedAt(b, n, j - 1, k);
    } else {
      RunMiss(b, n, j - 1, k);
      i := j - 1;
    }
  }

  /** A plain k-CAS fails only if, while it was still undecided, some entry differed from its old value. */
  lemma FailureHasCause(b: seq<State>, n: nat, j: nat, k: KId)
    requires Run(b, n) && j < |b| && k in b[j].g.kops && b[j].g.kops[k].status == Failed && !b[j].g.kops[k].validated
    ensures exists i :: 0 <= i < j && Differs(b[i].g, k) && b[i].g.kops[k].status == Undecided
  {
    var d := DecidedAt(b, n, j, k);
    RunPersists(b, n, d, j, k);
    RunPersists(b, n, d, d + 1, k);
    RunKeeps(b, n, d + 1);
    assert KOpInv(b[d + 1].g, k);
    var i := MissedAt(b, n, d + 1, k);
    RunPersists(b, n, i, d, k);
  }
}
