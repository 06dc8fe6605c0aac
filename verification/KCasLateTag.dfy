/**
 When a k-CAS tag can be left behind: only if some entry's word differed from its old value and took
 that value later on, both while the operation was undecided.
 */
module KCasLateTag {
  import opened KCas
  import opened KCasInvariant
  import opened KCasSteps
  import opened KCasSafety
  import opened KCasRefinement
  import opened KCasValidation

  // ---------------------------------------------------------------- where a record comes from

  // Thread `t`'s step from instant `i` on makes record `f`.
  ghost predicate Made(b: seq<State>, i: int, t: nat, f: Frame) {
    && 0 <= i < |b| - 1 && t < |b[i].stacks| && BusyStep(b[i], t, b[i + 1])
    && f in Act(b[i].g, t, Top(b[i].stacks[t])).tops
  }

  lemma StepOrigin(b: seq<State>, j: nat, u: nat, t: nat, d: nat)
    requires 0 < j < |b| && u < |b[j - 1].stacks| && (IdleStep(b[j - 1], u, b[j]) || BusyStep(b[j - 1], u, b[j]))
    requires t < |b[j].stacks| && d < |b[j].stacks[t]| && !b[j].stacks[t][d].HelpStart? && !b[j].stacks[t][d].ReadWord?
    ensures t < |b[j - 1].stacks|
    ensures (d < |b[j - 1].stacks[t]| && b[j - 1].stacks[t][d] == b[j].stacks[t][d])
        || Made(b, j - 1, t, b[j].stacks[t][d])
  {
    var s, s' := b[j - 1], b[j];
    if t == u && BusyStep(s, u, s') {
      var n := |s.stacks[t]| - 1;
      if d >= n { assert s'.stacks[t][d] == Act(s.g, t, Top(s.stacks[t])).tops[d - n]; }
    }
  }

  lemma RunStepOrigin(b: seq<State>, n: nat, j: nat, t: nat, d: nat)
    requires Run(b, n) && j < |b| && t < |b[j].stacks| && d < |b[j].stacks[t]|
    requires !b[j].stacks[t][d].HelpStart? && !b[j].stacks[t][d].ReadWord?
    ensures j > 0 && t < |b[j - 1].stacks|
    ensures (d < |b[j - 1].stacks[t]| && b[j - 1].stacks[t][d] == b[j].stacks[t][d])
        || Made(b, j - 1, t, b[j].stacks[t][d])
  {
    assert j > 0;
    assert StepAt(b, j - 1);
    var u: nat :| u < |b[j - 1].stacks| && (IdleStep(b[j - 1], u, b[j]) || BusyStep(b[j - 1], u, b[j]));
    StepOrigin(b, j, u, t, d);
  }

  lemma {:induction false} Origin(b: seq<State>, n: nat, j: nat, t: nat, d: nat) returns (i: nat)
    requires Run(b, n) && j < |b| && t < |b[j].stacks| && d < |b[j].stacks[t]|
    requires !b[j].stacks[t][d].HelpStart? && !b[j].stacks[t][d].ReadWord?
    ensures i < j && Made(b, i, t, b[j].stacks[t][d])
  {
    RunStepOrigin(b, n, j, t, d);
    if Made(b, j - 1, t, b[j].stacks[t][d]) { i := j - 1; } else { i := Origin(b, n, j - 1, t, d); }
  }

  // The record that a step ran, and what it knew.
  lemma TopKnows(b: seq<State>, n: nat, i: nat, t: nat)
    requires Run(b, n) && i < |b| && t < |b[i].stacks| && b[i].stacks[t] != []
    ensures Ready(b[i].g, t, Top(b[i].stacks[t]))
  {
    RunKeeps(b, n, i);
    var f := Top(b[i].stacks[t]);
    assert FrameInv(b[i].g, t, f) && PlaceInv(b[i].g, f);
  }

  // ---------------------------------------------------------------- what runs keep

  lemma StepExt(b: seq<State>, n: nat, i: nat, k: KId)
    requires Run(b, n) && i < |b| - 1 && k in b[i].g.kops
    ensures KExt(b[i].g, b[i + 1].g, k)
  {
    RunKeeps(b, n, i);
    assert StepAt(b, i);
    var s, s' := b[i], b[i + 1];
    var t: nat :| t < |s.stacks| && (IdleStep(s, t, s') || BusyStep(s, t, s'));
    if BusyStep(s, t, s') {
      TopKnows(b, n, i, t);
      BusyExt(s, t, s', k);
    } else {
      IdleStatus(b, n, i, t, k);
      IdleExt(s, t, s', k);
    }
  }

  lemma BusyExt(s: State, t: nat, s': State, k: KId)
    requires t < |s.stacks| && BusyStep(s, t, s') && k in s.g.kops && Ready(s.g, t, Top(s.stacks[t]))
    ensures KExt(s.g, s'.g, k)
  {
    ActKeeps(s.g, t, Top(s.stacks[t]));
    assert KExt(s.g, Act(s.g, t, Top(s.stacks[t])).g, k);
  }

  lemma IdleExt(s: State, t: nat, s': State, k: KId)
    requires t < |s.stacks| && IdleStep(s, t, s') && k in s.g.kops && Op(s'.g, k) == s.g.kops[k]
    ensures KExt(s.g, s'.g, k)
  {}

  // While an operation is undecided an entry that it holds stays held.
  lemma {:induction false} RunHolds(b: seq<State>, n: nat, i: nat, j: nat, k: KId, e: nat)
    requires Run(b, n) && i <= j < |b| && k in b[i].g.kops && e < |b[i].g.kops[k].entries| && Holds(b[i].g, k, e)
    requires Op(b[j].g, k).status == Undecided
    ensures Holds(b[j].g, k, e)
  {
    if i < j {
      RunPersists(b, n, i, j - 1, k);
      RunStepPersists(b, n, j - 1, k);
      RunHolds(b, n, i, j - 1, k, e);
      StepExt(b, n, j - 1, k);
    }
  }

  ghost predicate RPersists(g: Shared, g': Shared, r: RId) {
    && r in g.rops && r in g'.rops && g'.rops[r].k == g.rops[r].k && g'.rops[r].i == g.rops[r].i
    && (g.rops[r].phase != Fresh ==> g'.rops[r].phase != Fresh)
    && (g.rops[r].phase == Lifted ==> g'.rops[r].phase == Lifted)
  }

  lemma StepRPersists(b: seq<State>, n: nat, i: nat, r: RId)
    requires Run(b, n) && i < |b| - 1 && r in b[i].g.rops
    ensures RPersists(b[i].g, b[i + 1].g, r)
  {
    RunKeeps(b, n, i);
    assert StepAt(b, i);
    var s, s' := b[i], b[i + 1];
    var t: nat :| t < |s.stacks| && (IdleStep(s, t, s') || BusyStep(s, t, s'));
    if BusyStep(s, t, s') {
      TopKnows(b, n, i, t);
      ActKeeps(s.g, t, Top(s.stacks[t]));
      assert RExt(s.g, Act(s.g, t, Top(s.stacks[t])).g, r);
    }
  }

  lemma {:induction false} RunRPersists(b: seq<State>, n: nat, i: nat, j: nat, r: RId)
    requires Run(b, n) && i <= j < |b| && r in b[i].g.rops
    ensures RPersists(b[i].g, b[j].g, r)
  {
    if i < j {
      RunRPersists(b, n, i, j - 1, r);
      StepRPersists(b, n, j - 1, r);
    }
  }

  // ---------------------------------------------------------------- an RDCSS tag's interval

  // RDCSS `r` works on entry `e` of `k`.
  ghost predicate Serves(g: Shared, r: RId, k: KId, e: nat) {
    r in g.rops && g.rops[r].k == k && g.rops[r].i == e && k in g.kops && e < |g.kops[k].entries|
  }

  function WordOf(g: Shared, k: KId, e: nat): Word { Load(g, EntryAt(Op(g, k), e).addr) }

  // From placing to lifting, the tag is in the word.
  lemma TagInWord(b: seq<State>, n: nat, i: nat, q: nat, l: nat, r: RId, k: KId, e: nat)
    requires Run(b, n) && i <= q <= l < |b| && Serves(b[i].g, r, k, e) && b[i].g.rops[r].phase != Fresh
    requires WordOf(b[l].g, k, e) == RTag(r)
    ensures WordOf(b[q].g, k, e) == RTag(r)
  {
    RunRPersists(b, n, i, q, r);
    RunRPersists(b, n, q, l, r);
    RunPersists(b, n, i, q, k);
    RunPersists(b, n, q, l, k);
    RunKeeps(b, n, l);
    RunKeeps(b, n, q);
    assert KOpInv(b[l].g, k);
    assert WordInv(b[l].g, EntryAt(Op(b[l].g, k), e).addr);
    assert ROpInv(b[q].g, r);
  }

  lemma PlacingFrame(g: Shared, t: nat, f: Frame, r: RId)
    requires Ready(g, t, f) && r in Act(g, t, f).g.rops && Act(g, t, f).g.rops[r].phase != Fresh
    requires r in g.rops ==> g.rops[r].phase == Fresh
    ensures f.Place? && f.r == r && r in g.rops && WordOf(g, f.k, f.i) == Raw(EntryAt(Op(g, f.k), f.i).oldval)
  {}

  lemma PlacedNow(b: seq<State>, n: nat, p: nat, r: RId, k: KId, e: nat)
    requires Run(b, n) && p + 1 < |b| && Serves(b[p + 1].g, r, k, e) && b[p + 1].g.rops[r].phase != Fresh
    requires r in b[p].g.rops ==> b[p].g.rops[r].phase == Fresh
    ensures Serves(b[p].g, r, k, e) && WordOf(b[p].g, k, e) == Raw(EntryAt(Op(b[p].g, k), e).oldval)
        && Held(b[p].g, k, e)
  {
    RunKeeps(b, n, p);
    var s, s' := b[p], b[p + 1];
    assert StepAt(b, p);
    var t: nat :| t < |s.stacks| && (IdleStep(s, t, s') || BusyStep(s, t, s'));
    TopKnows(b, n, p, t);
    PlacingFrame(s.g, t, Top(s.stacks[t]), r);
    StepRPersists(b, n, p, r);
    RunStepPersists(b, n, p, k);
  }

  // A tag that was placed was placed over the old value, with the entries before it held.
  lemma {:induction false} PlacedAt(b: seq<State>, n: nat, i: nat, r: RId, k: KId, e: nat) returns (p: nat)
    requires Run(b, n) && i < |b| && Serves(b[i].g, r, k, e) && b[i].g.rops[r].phase != Fresh
    ensures p < i && Serves(b[p].g, r, k, e) && WordOf(b[p].g, k, e) == Raw(EntryAt(Op(b[p].g, k), e).oldval)
    ensures Held(b[p].g, k, e)
    ensures Serves(b[p + 1].g, r, k, e) && b[p + 1].g.rops[r].phase != Fresh
  {
    assert i > 0;
    RunKeeps(b, n, i - 1);
    if r in b[i - 1].g.rops && b[i - 1].g.rops[r].phase != Fresh {
      StepRPersists(b, n, i - 1, r);
      assert ROpInv(b[i - 1].g, r);
      RunStepPersists(b, n, i - 1, k);
      p := PlacedAt(b, n, i - 1, r, k, e);
    } else {
      p := i - 1;
      PlacedNow(b, n, p, r, k, e);
    }
  }

  // ---------------------------------------------------------------- how a tag enters a word

  lemma LiftFrame(g: Shared, t: nat, f: Frame, k: KId, e: nat)
    requires Ready(g, t, f) && k in g.kops && e < |g.kops[k].entries| && !Holds(g, k, e) && Holds(Act(g, t, f).g, k, e)
    ensures (f.OwnLift? || f.RdcssLift?) && f.und && Serves(g, f.r, k, e) && g.rops[f.r].phase != Fresh
    ensures WordOf(g, k, e) == RTag(f.r)
  {
    assert KOpInv(g, k);
    if f.OwnLift? || f.RdcssLift? { assert ROpInv(g, f.r); }
  }

  lemma {:induction false} FirstHold(b: seq<State>, n: nat, q: nat, j: nat, k: KId, e: nat) returns (l: nat)
    requires Run(b, n) && q <= j < |b| && k in b[q].g.kops && !Holds(b[q].g, k, e) && Holds(b[j].g, k, e)
    ensures q <= l < j && k in b[l].g.kops && !Holds(b[l].g, k, e) && Holds(b[l + 1].g, k, e)
  {
    RunPersists(b, n, q, j - 1, k);
    if Holds(b[j - 1].g, k, e) { l := FirstHold(b, n, q, j - 1, k, e); } else { l := j - 1; }
  }

  // The step that put `k`'s tag into entry `e`'s word ended an RDCSS that had read `k` as undecided.
  lemma Entered(b: seq<State>, n: nat, l: nat, k: KId, e: nat) returns (t: nat)
    requires Run(b, n) && l + 1 < |b| && k in b[l].g.kops && e < |b[l].g.kops[k].entries|
    requires !Holds(b[l].g, k, e) && Holds(b[l + 1].g, k, e)
    ensures t < |b[l].stacks| && b[l].stacks[t] != []
    ensures var f := Top(b[l].stacks[t]);
            && (f.OwnLift? || f.RdcssLift?) && f.und && Serves(b[l].g, f.r, k, e) && b[l].g.rops[f.r].phase != Fresh
            && WordOf(b[l].g, k, e) == RTag(f.r)
  {
    assert StepAt(b, l);
    t :| t < |b[l].stacks| && (IdleStep(b[l], t, b[l + 1]) || BusyStep(b[l], t, b[l + 1]));
    if IdleStep(b[l], t, b[l + 1]) { IdleStatus(b, n, l, t, k); }
    TopKnows(b, n, l, t);
    LiftFrame(b[l].g, t, Top(b[l].stacks[t]), k, e);
  }

  lemma LookFrame(g: Shared, t: nat, f: Frame, f': Frame)
    requires Ready(g, t, f) && f' in Act(g, t, f).tops && (f'.OwnLift? || f'.RdcssLift?) && f'.und
    ensures f'.r in g.rops && g.rops[f'.r].phase != Fresh && Op(g, g.rops[f'.r].k).status == Undecided
  {}

  // That read: the tag had been placed and the operation was undecided.
  lemma ReadOpen(b: seq<State>, n: nat, l: nat, t: nat, k: KId, e: nat) returns (i: nat)
    requires Run(b, n) && l < |b| && t < |b[l].stacks| && b[l].stacks[t] != []
    requires var f := Top(b[l].stacks[t]); (f.OwnLift? || f.RdcssLift?) && f.und && Serves(b[l].g, f.r, k, e)
    ensures i < l && Serves(b[i].g, Top(b[l].stacks[t]).r, k, e) && b[i].g.rops[Top(b[l].stacks[t]).r].phase != Fresh
    ensures b[i].g.kops[k].status == Undecided
  {
    var f := Top(b[l].stacks[t]);
    i := Origin(b, n, l, t, |b[l].stacks[t]| - 1);
    TopKnows(b, n, i, t);
    LookFrame(b[i].g, t, Top(b[i].stacks[t]), f);
    RunRPersists(b, n, i, l, f.r);
    RunKeeps(b, n, i);
    assert ROpInv(b[i].g, f.r);
  }

  // `p` is an instant at which `k` was undecided, entry `e`'s word held the old value and the entries
  // before it were held; from then to `l` it held an RDCSS tag.
  ghost predicate Placing(b: seq<State>, p: int, l: int, r: RId, k: KId, e: nat) {
    && 0 <= p < l < |b| && k in b[p].g.kops && e < |b[p].g.kops[k].entries| && b[p].g.kops[k].status == Undecided
    && WordOf(b[p].g, k, e) == Raw(b[p].g.kops[k].entries[e].oldval) && Held(b[p].g, k, e)
    && forall v :: p < v <= l ==> WordOf(b[v].g, k, e) == RTag(r)
  }

  /** Whenever `k`'s tag enters a word, it was being placed there while `k` was undecided. */
  lemma EntersByPlacing(b: seq<State>, n: nat, q: nat, j: nat, k: KId, e: nat) returns (p: nat, l: nat, r: RId)
    requires Run(b, n) && q <= j < |b| && k in b[q].g.kops && e < |b[q].g.kops[k].entries|
    requires !Holds(b[q].g, k, e) && Holds(b[j].g, k, e)
    ensures q <= l < j && Placing(b, p, l, r, k, e)
  {
    l := FirstHold(b, n, q, j, k, e);
    RunPersists(b, n, q, l, k);
    var t := Entered(b, n, l, k, e);
    r := Top(b[l].stacks[t]).r;
    var i := ReadOpen(b, n, l, t, k, e);
    p := PlacedAt(b, n, i, r, k, e);
    RunPersists(b, n, p, i, k);
    forall v | p < v <= l ensures WordOf(b[v].g, k, e) == RTag(r) { TagInWord(b, n, p + 1, v, l, r, k, e); }
  }

  // ---------------------------------------------------------------- why the operation failed

  // A thread found that entry `m` differs while the entries before it were held; or, with `m` past the
  // last entry, it found all of them held and a visited word changed.
  ghost predicate Missed(b: seq<State>, v: int, k: KId, m: nat) {
    && 0 <= v < |b| && k in b[v].g.kops && b[v].g.kops[k].status == Undecided && Held(b[v].g, k, m)
    && m <= |b[v].g.kops[k].entries|
    && (m < |b[v].g.kops[k].entries| ==> Differing(WordOf(b[v].g, k, m), b[v].g.kops[k].entries[m].oldval))
  }

  predicate Differing(w: Word, oldval: int) { w.Raw? && w.v != oldval }

  lemma DecidedByMiss(g: Shared, t: nat, f: Frame, k: KId)
    requires k in g.kops && g.kops[k].status == Undecided && Op(Act(g, t, f).g, k).status == Failed
    ensures f.Decide? && f.k == k && !f.ok
  {}

  lemma MissingFrame(g: Shared, t: nat, f: Frame, f': Frame)
    requires Ready(g, t, f) && f' in Act(g, t, f).tops && f'.Decide? && !f'.ok
    ensures f.Place? || f.Validate?
    ensures f.k == f'.k && f.k in g.kops
    ensures f.Place? ==>
        f.i < |g.kops[f.k].entries| && Held(g, f.k, f.i)
        && Differing(WordOf(g, f.k, f.i), g.kops[f.k].entries[f.i].oldval)
    ensures f.Validate? ==> Held(g, f.k, |g.kops[f.k].entries|)
  {}

  lemma FailingTop(b: seq<State>, n: nat, d: nat, k: KId) returns (t: nat)
    requires Run(b, n) && d + 1 < |b| && k in b[d].g.kops && b[d].g.kops[k].status == Undecided
    requires Op(b[d + 1].g, k).status == Failed
    ensures t < |b[d].stacks| && b[d].stacks[t] != []
    ensures var f := Top(b[d].stacks[t]); f.Decide? && f.k == k && !f.ok
  {
    assert StepAt(b, d);
    t :| t < |b[d].stacks| && (IdleStep(b[d], t, b[d + 1]) || BusyStep(b[d], t, b[d + 1]));
    if IdleStep(b[d], t, b[d + 1]) { IdleStatus(b, n, d, t, k); }
    DecidedByMiss(b[d].g, t, Top(b[d].stacks[t]), k);
  }

  lemma FailedByMiss(b: seq<State>, n: nat, d: nat, k: KId) returns (v: nat, m: nat)
    requires Run(b, n) && d + 1 < |b| && k in b[d].g.kops && b[d].g.kops[k].status == Undecided
    requires Op(b[d + 1].g, k).status == Failed
    ensures v <= d && Missed(b, v, k, m)
  {
    var t := FailingTop(b, n, d, k);
    v := Origin(b, n, d, t, |b[d].stacks[t]| - 1);
    TopKnows(b, n, v, t);
    var f := Top(b[v].stacks[t]);
    MissingFrame(b[v].g, t, f, Top(b[d].stacks[t]));
    RunPersists(b, n, v, d, k);
    m := if f.Place? then f.i else |b[v].g.kops[k].entries|;
  }

  // ---------------------------------------------------------------- entry by entry

  // `k` was undecided throughout: entry `m` differed at `im`, and later, at `p`, it held the old value.
  ghost predicate Returned(b: seq<State>, im: int, p: int, k: KId, m: nat) {
    && 0 <= im < p < |b| && k in b[im].g.kops && k in b[p].g.kops
    && b[im].g.kops[k].status == Undecided && b[p].g.kops[k].status == Undecided
    && m < |b[im].g.kops[k].entries| && Differing(WordOf(b[im].g, k, m), b[im].g.kops[k].entries[m].oldval)
    && WordOf(b[p].g, k, m) == Raw(b[im].g.kops[k].entries[m].oldval)
  }

  // An entry that was held at `v` while `k` was undecided was not being placed from before the
  // decision until after it.
  lemma HeldNotPlacing(b: seq<State>, n: nat, v: nat, p: nat, l: nat, r: RId, k: KId, x: nat)
    requires Run(b, n) && v < |b| && k in b[v].g.kops && x < |b[v].g.kops[k].entries| && Holds(b[v].g, k, x)
    requires v <= l
    ensures !Placing(b, p, l, r, k, x)
  {
    if Placing(b, p, l, r, k, x) && v <= p { RunHolds(b, n, v, p, k, x); }
  }

  // Entry `m` was missed at `v`; entry `x` was being placed until after the decision.
  lemma MissedAndPlaced(b: seq<State>, n: nat, v: nat, k: KId, m: nat, p: nat, l: nat, r: RId, x: nat) returns (p': nat)
    requires Run(b, n) && Missed(b, v, k, m) && Placing(b, p, l, r, k, x) && v < l && x < |b[v].g.kops[k].entries|
    ensures m < |b[v].g.kops[k].entries| && p' <= p && Returned(b, v, p', k, m)
  {
    RunPersists(b, n, if v < p then v else p, if v < p then p else v, k);
    if x < m {
      assert Holds(b[v].g, k, x);
      HeldNotPlacing(b, n, v, p, l, r, k, x);
    } else if x == m {
      p' := p;
    } else {
      assert Holds(b[p].g, k, m);
      if p <= v { RunHolds(b, n, p, v, k, m); }
      var l', r';
      p', l', r' := EntersByPlacing(b, n, v, p, k, m);
      RunPersists(b, n, p', l', k);
      RunPersists(b, n, v, l', k);
    }
  }

  // ---------------------------------------------------------------- execute passes every entry

  ghost predicate FreeAt(b: seq<State>, q: int, k: KId, e: nat) {
    && 0 <= q < |b| && k in b[q].g.kops && b[q].g.kops[k].status != Undecided && e < |b[q].g.kops[k].entries|
    && !Holds(b[q].g, k, e)
  }

  lemma ReleaseFrame(g: Shared, t: nat, f: Frame, f': Frame)
    requires Ready(g, t, f) && f' in Act(g, t, f).tops && f'.Release? && f'.i > 0
    ensures f.Release? && f.k == f'.k && f.i == f'.i - 1 && f.k in g.kops && f.i < |g.kops[f.k].entries|
    ensures var g' := Act(g, t, f).g;
            && f.k in g'.kops && g'.kops[f.k] == g.kops[f.k] && g.kops[f.k].status != Undecided && !Holds(g', f.k, f.i)
  {}

  // A record that is releasing entry `i` has released the ones before it.
  lemma {:induction false} ReleasedBefore(b: seq<State>, n: nat, j: nat, t: nat, d: nat, e: nat) returns (q: nat)
    requires Run(b, n) && j < |b| && t < |b[j].stacks| && d < |b[j].stacks[t]| && b[j].stacks[t][d].Release?
    requires e < b[j].stacks[t][d].i
    ensures q <= j && FreeAt(b, q, b[j].stacks[t][d].k, e)
  {
    var f := b[j].stacks[t][d];
    var i := Origin(b, n, j, t, d);
    TopKnows(b, n, i, t);
    ReleaseFrame(b[i].g, t, Top(b[i].stacks[t]), f);
    if e == f.i - 1 { q := i + 1; } else { q := ReleasedBefore(b, n, i, t, |b[i].stacks[t]| - 1, e); }
  }

  lemma ReturnFrame(g: Shared, t: nat, f: Frame, k: KId)
    requires Ready(g, t, f) && k !in g.returned && k in Act(g, t, f).g.returned
    ensures f.Release? && f.k == k && k in g.kops && f.i >= |g.kops[k].entries|
  {}

  lemma ReturnTop(b: seq<State>, n: nat, j: nat, k: KId) returns (t: nat)
    requires Run(b, n) && j + 1 < |b| && k !in b[j].g.returned && k in b[j + 1].g.returned
    ensures t < |b[j].stacks| && b[j].stacks[t] != [] && k in b[j].g.kops
    ensures var f := Top(b[j].stacks[t]); f.Release? && f.k == k && f.i >= |b[j].g.kops[k].entries|
  {
    assert StepAt(b, j);
    t :| t < |b[j].stacks| && (IdleStep(b[j], t, b[j + 1]) || BusyStep(b[j], t, b[j + 1]));
    TopKnows(b, n, j, t);
    ReturnFrame(b[j].g, t, Top(b[j].stacks[t]), k);
  }

  // Before `execute` returned there was an instant after the decision at which the entry was not held.
  lemma {:induction false} ReturnedFree(b: seq<State>, n: nat, j: nat, k: KId, e: nat) returns (q: nat)
    requires Run(b, n) && j < |b| && k in b[j].g.returned && e < |Op(b[j].g, k).entries|
    ensures q <= j && FreeAt(b, q, k, e)
  {
    assert j > 0;
    RunKeeps(b, n, j - 1);
    if k in b[j - 1].g.returned {
      RunStepPersists(b, n, j - 1, k);
      q := ReturnedFree(b, n, j - 1, k, e);
    } else {
      var t := ReturnTop(b, n, j - 1, k);
      RunStepPersists(b, n, j - 1, k);
      q := ReleasedBefore(b, n, j - 1, t, |b[j - 1].stacks[t]| - 1, e);
    }
  }

  // ---------------------------------------------------------------- the theorems

  /**
   If `execute` has returned and some word nevertheless holds its operation's tag, then some entry's
   word differed from its old value and held that value later on, both while the operation was undecided.
   */
  lemma LateTagHasCause(b: seq<State>, n: nat, j: nat, k: KId, a: int) returns (im: nat, p: nat, m: nat)
    requires Run(b, n) && j < |b| && k in b[j].g.returned && 0 <= a < |b[j].g.mem| && b[j].g.mem[a] == KTag(k)
    ensures p < j && Returned(b, im, p, k, m)
  {
    RunKeeps(b, n, j);
    assert WordInv(b[j].g, a) && KOpInv(b[j].g, k);
    if b[j].g.returned[k] { SuccessLeavesNoTag(b, n, j, k, a); }
    var x: nat :| x < |b[j].g.kops[k].entries| && b[j].g.kops[k].entries[x].addr == a;
    var q := ReturnedFree(b, n, j, k, x);
    RunPersists(b, n, q, j, k);
    var p', l, r := EntersByPlacing(b, n, q, j, k, x);
    var d := DecidedAt(b, n, q, k);
    var v, m' := FailedByMiss(b, n, d, k);
    RunPersists(b, n, v, q, k);
    im, m := v, m';
    p := MissedAndPlaced(b, n, v, k, m', p', l, r, x);
  }

  // The caller read the old value of every entry before it published the operation.
  ghost predicate OldValuesRead(b: seq<State>, k: KId, es: seq<Entry>) {
    forall m :: 0 <= m < |es| ==> exists i ::
        0 <= i < |b| && k !in b[i].g.kops && Showed(b, i, Visit(es[m].addr, es[m].oldval))
  }

  lemma ReturnsTo(b: seq<State>, n: nat, i: nat, im: nat, p: nat, k: KId, m: nat)
    requires Run(b, n) && i < |b| && k !in b[i].g.kops && Returned(b, im, p, k, m)
    requires var e := b[im].g.kops[k].entries[m]; Meaning(b[i].g, e.addr) == e.oldval
    ensures !NeverReturns(b, b[im].g.kops[k].entries[m].addr)
  {
    var e := b[im].g.kops[k].entries[m];
    RunPersists(b, n, im, p, k);
    if im < i { RunPersists(b, n, im, i, k); }
    assert i < im < p;
    assert Meaning(b[im].g, e.addr) != Meaning(b[i].g, e.addr) == Meaning(b[p].g, e.addr);
  }

  /**
   With old values that were read before, from words to which no value returns, `execute` leaves no tag
   behind, whatever it returns.
   */
  lemma ReadValuesLeaveNoTag(b: seq<State>, n: nat, j: nat, k: KId, a: int)
    requires Run(b, n) && j < |b| && k in b[j].g.returned && 0 <= a < |b[j].g.mem|
    requires OldValuesRead(b, k, Op(b[j].g, k).entries)
    requires forall e :: e in Op(b[j].g, k).entries ==> NeverReturns(b, e.addr)
    ensures b[j].g.mem[a] != KTag(k)
  {
    if b[j].g.mem[a] == KTag(k) {
      var im, p, m := LateTagHasCause(b, n, j, k, a);
      RunPersists(b, n, im, j, k);
      var e := b[im].g.kops[k].entries[m];
      var i: nat :| i < |b| && k !in b[i].g.kops && Showed(b, i, Visit(e.addr, e.oldval));
      ReturnsTo(b, n, i, im, p, k, m);
    }
  }
}
