/**
 What every step of the k-CAS protocol keeps, proved rely/guarantee style: `Ext` is what a step
 of any thread may do to the shared state, `FrameInv` is what one activation record knows, and
 every `FrameInv` survives every `Ext`.
 */
module KCasInvariant {
  import opened KCas

  // ---------------------------------------------------------------- invariants

  // Entry `i` of `k` is held by `k`.
  predicate Holds(g: Shared, k: KId, i: nat) { Load(g, EntryAt(Op(g, k), i).addr) == KTag(k) }

  // While `k` is undecided its first `n` entries are held.
  ghost predicate Held(g: Shared, k: KId, n: nat) {
    Op(g, k).status == Undecided ==> forall i :: 0 <= i < n ==> Holds(g, k, i)
  }

  // The first `n` entries are not held.
  ghost predicate Freed(g: Shared, k: KId, n: nat) {
    forall i :: 0 <= i < n && i < |Op(g, k).entries| ==> !Holds(g, k, i)
  }

  ghost predicate Owns(es: seq<Entry>, a: int) {
    exists i :: 0 <= i < |es| && es[i].addr == a
  }

  // The first entry is locked by the owner before any helper can know of the operation.
  ghost predicate WordInv(g: Shared, a: int) {
    match Load(g, a)
    case Raw(_) => true
    case RTag(r) => r in g.rops && g.rops[r].phase == Placed && Target(g, r).addr == a
    case KTag(k) => k in g.kops && Owns(g.kops[k].entries, a) && Held(g, k, 1)
  }

  ghost predicate KOpInv(g: Shared, k: KId)
    requires k in g.kops
  {
    var op := g.kops[k];
    && k.tid < |g.kseq| && k.sn <= g.kseq[k.tid]
    && DistinctAddrs(op.entries) && InMem(op.entries, |g.mem|)
    && (op.status == Undecided ==> Readable(g, k) && k !in g.returned)
    && (op.status == Failed ==> k in g.missed || op.validated)
    && (k in g.returned ==> g.returned[k] == (op.status == Succeeded))
    && (k in g.returned && g.returned[k] ==> Freed(g, k, |op.entries|))
  }

  ghost predicate ROpInv(g: Shared, r: RId)
    requires r in g.rops
  {
    var o := g.rops[r];
    && r.tid < |g.rseq| && r.sn <= g.rseq[r.tid]
    && o.k in g.kops && o.i < |g.kops[o.k].entries|
    && (o.phase == Placed ==> Load(g, Target(g, r).addr) == RTag(r))
    && (o.phase == Lifted && g.kops[o.k].status == Undecided ==> Holds(g, o.k, o.i))
    && Held(g, o.k, if o.i > 0 then 1 else 0)
  }

  ghost predicate WordsInv(g: Shared) { forall a {:trigger WordInv(g, a)} :: 0 <= a < |g.mem| ==> WordInv(g, a) }
  ghost predicate KOpsInv(g: Shared) { forall k {:trigger KOpInv(g, k)} :: k in g.kops ==> KOpInv(g, k) }
  ghost predicate ROpsInv(g: Shared) { forall r {:trigger ROpInv(g, r)} :: r in g.rops ==> ROpInv(g, r) }

  ghost predicate ReturnsInv(g: Shared) { forall k :: k in g.returned ==> k in g.kops }

  ghost predicate SharedInv(g: Shared) { WordsInv(g) && KOpsInv(g) && ROpsInv(g) && ReturnsInv(g) }

  // ---------------------------------------------------------------- what a record knows

  ghost predicate Attends(g: Shared, t: nat, k: KId, h: nat) {
    && k in g.kops && h <= 1
    && (h == 0 ==> k.tid == t && Readable(g, k))
    && (h == 1 ==> |g.kops[k].entries| > 0 && Held(g, k, 1))
  }

  ghost predicate Installed(g: Shared, r: RId) { r in g.rops && g.rops[r].phase != Fresh }

  // A pending lift that will write the k-CAS tag can only hit if the operation has not succeeded.
  ghost predicate LiftReady(g: Shared, r: RId, und: bool) {
    && Installed(g, r)
    && (!und ==> Op(g, g.rops[r].k).status != Undecided)
    && (und && Op(g, g.rops[r].k).status == Succeeded ==> g.rops[r].phase == Lifted)
  }

  ghost predicate Locking(g: Shared, t: nat, k: KId, h: nat, i: nat) {
    Attends(g, t, k, h) && i < |g.kops[k].entries| && Held(g, k, i)
  }

  ghost predicate FrameInv(g: Shared, t: nat, f: Frame) {
    match f
    case HelpStart(k, h) => Attends(g, t, k, h)
    case LockNext(k, h, i) => Attends(g, t, k, h) && i <= |g.kops[k].entries| && Held(g, k, i)
    case Place(k, h, i, r) => Locking(g, t, k, h, i) && r in g.rops && g.rops[r].k == k && g.rops[r].i == i
        && r.tid == t
    case OwnLook(k, h, i, r) =>
      Locking(g, t, k, h, i) && Installed(g, r) && g.rops[r].k == k && g.rops[r].i == i
    case OwnLift(k, h, i, r, und) =>
      Locking(g, t, k, h, i) && LiftReady(g, r, und) && g.rops[r].k == k && g.rops[r].i == i
    case Validate(k, h, j, since) =>
      Attends(g, t, k, h) && Held(g, k, |g.kops[k].entries|) && g.kops[k].validated && since <= g.clock
    case Decide(k, h, ok, since) =>
      && Attends(g, t, k, h)
      && (ok ==> Held(g, k, |g.kops[k].entries|))
      && (!ok ==> k in g.missed || g.kops[k].validated)
    case Settle(k, h) => Attends(g, t, k, h) && g.kops[k].status != Undecided
    case Release(k, h, i, won) =>
      && Attends(g, t, k, h) && g.kops[k].status != Undecided && won == (g.kops[k].status == Succeeded)
      && (won ==> Freed(g, k, i))
    case HelpSnap(k) => Attends(g, t, k, 1)
    case RdcssSnap(r) => Installed(g, r)
    case RdcssLook(r) => Installed(g, r)
    case RdcssLift(r, und) => LiftReady(g, r, und)
    case ReadWord(a, _) => 0 <= a < |g.mem|
  }

  // A tag about to be placed has not been placed before.
  ghost predicate PlaceInv(g: Shared, f: Frame) {
    f.Place? ==> f.r in g.rops && g.rops[f.r].phase == Fresh
  }

  ghost predicate FramesInv(s: State) {
    forall t, d :: 0 <= t < |s.stacks| && 0 <= d < |s.stacks[t]| ==> FrameInv(s.g, t, s.stacks[t][d])
  }

  ghost predicate Apart(f: Frame, f': Frame) { f.Place? && f'.Place? ==> f.r != f'.r }

  // Two records never share an RDCSS descriptor they are about to place.
  ghost predicate PlacesInv(s: State) {
    && (forall t, d :: 0 <= t < |s.stacks| && 0 <= d < |s.stacks[t]| ==> PlaceInv(s.g, s.stacks[t][d]))
    && (forall t, d, e :: 0 <= t < |s.stacks| && 0 <= d < e < |s.stacks[t]| ==> Apart(s.stacks[t][d], s.stacks[t][e]))
  }

  ghost predicate Shape(s: State) {
    && |s.stacks| == |s.g.kseq| == |s.g.rseq| == |s.g.visited|
    && forall t :: 0 <= t < |s.g.kseq| ==> s.g.kseq[t] >= 1
  }

  ghost predicate Inv(s: State) {
    Shape(s) && SharedInv(s.g) && FramesInv(s) && PlacesInv(s)
  }

  // ---------------------------------------------------------------- the rely

  ghost predicate KExt(g: Shared, g': Shared, k: KId) {
    && k in g.kops && k in g'.kops
    && g'.kops[k].entries == g.kops[k].entries && g'.kops[k].path == g.kops[k].path
    && g'.kops[k].validated == g.kops[k].validated
    && (g.kops[k].status != Undecided ==> g'.kops[k].status == g.kops[k].status)
    && (g'.kops[k].status == Undecided ==>
          forall i :: 0 <= i < |g.kops[k].entries| && Holds(g, k, i) ==> Holds(g', k, i))
    && (g.kops[k].status == Succeeded ==>
          forall i :: 0 <= i < |g.kops[k].entries| && Holds(g', k, i) ==> Holds(g, k, i))
  }

  ghost predicate JustSucceeded(g: Shared, g': Shared, k: KId) {
    Op(g, k).status != Succeeded && Op(g', k).status == Succeeded
  }

  ghost predicate RExt(g: Shared, g': Shared, r: RId) {
    && r in g.rops && r in g'.rops
    && g'.rops[r].k == g.rops[r].k && g'.rops[r].i == g.rops[r].i
    && (g.rops[r].phase != Fresh ==> g'.rops[r].phase != Fresh)
    && (g.rops[r].phase == Lifted ==> g'.rops[r].phase == Lifted)
    && (g.rops[r].phase != Fresh && JustSucceeded(g, g', g.rops[r].k) ==> g'.rops[r].phase == Lifted)
  }

  ghost predicate Ext(g: Shared, g': Shared) {
    && |g'.mem| == |g.mem| && |g'.kseq| == |g.kseq| && |g'.rseq| == |g.rseq|
    && g.clock <= g'.clock && g.missed <= g'.missed
    && (forall k :: k in g.kops ==> KExt(g, g', k))
    && (forall r :: r in g.rops ==> RExt(g, g', r))
  }

  lemma HeldStable(g: Shared, g': Shared, k: KId, n: nat)
    requires k in g.kops && KExt(g, g', k) && n <= |g.kops[k].entries| && Held(g, k, n)
    ensures Held(g', k, n)
  {}

  lemma FreedStable(g: Shared, g': Shared, k: KId, n: nat)
    requires k in g.kops && KExt(g, g', k) && g.kops[k].status == Succeeded && Freed(g, k, n)
    ensures Freed(g', k, n)
  {}

  lemma AttendsStable(g: Shared, g': Shared, t: nat, k: KId, h: nat)
    requires Ext(g, g') && Attends(g, t, k, h) && t < |g.kseq| && g'.kseq[t] == g.kseq[t]
    ensures Attends(g', t, k, h)
  {
    assert KExt(g, g', k);
    if h == 1 { HeldStable(g, g', k, 1); }
  }

  lemma LiftReadyStable(g: Shared, g': Shared, r: RId, und: bool)
    requires r in g.rops && RExt(g, g', r) && KExt(g, g', g.rops[r].k) && LiftReady(g, r, und)
    ensures LiftReady(g', r, und)
  {}

  lemma RdcssFrameStable(g: Shared, g': Shared, t: nat, f: Frame)
    requires Ext(g, g') && FrameInv(g, t, f) && ROpsInv(g)
    requires f.RdcssSnap? || f.RdcssLook? || f.RdcssLift?
    ensures FrameInv(g', t, f)
  {
    assert RExt(g, g', f.r);
    assert ROpInv(g, f.r);
    if f.RdcssLift? { LiftReadyStable(g, g', f.r, f.und); }
  }

  lemma LockingStable(g: Shared, g': Shared, t: nat, k: KId, h: nat, i: nat)
    requires Ext(g, g') && Locking(g, t, k, h, i) && t < |g.kseq| && g'.kseq[t] == g.kseq[t]
    ensures Locking(g', t, k, h, i)
  {
    AttendsStable(g, g', t, k, h);
    HeldStable(g, g', k, i);
  }

  lemma PlacingFrameStable(g: Shared, g': Shared, t: nat, f: Frame)
    requires Ext(g, g') && FrameInv(g, t, f)
    requires t < |g.kseq| && g'.kseq[t] == g.kseq[t]
    requires f.Place? || f.OwnLook? || f.OwnLift?
    ensures FrameInv(g', t, f)
  {
    LockingStable(g, g', t, f.k, f.h, f.i);
    assert RExt(g, g', f.r);
    if f.OwnLift? { assert KExt(g, g', f.k); LiftReadyStable(g, g', f.r, f.und); }
  }

  lemma KcasFrameStable(g: Shared, g': Shared, t: nat, f: Frame)
    requires Ext(g, g') && FrameInv(g, t, f)
    requires t < |g.kseq| && g'.kseq[t] == g.kseq[t]
    requires f.HelpStart? || f.LockNext? || f.Validate? || f.Decide? || f.Settle? || f.Release?
    ensures FrameInv(g', t, f)
  {
    AttendsStable(g, g', t, f.k, f.h);
    assert KExt(g, g', f.k);
    if f.LockNext? { HeldStable(g, g', f.k, f.i); }
    if f.Validate? || (f.Decide? && f.ok) { HeldStable(g, g', f.k, |g.kops[f.k].entries|); }
  }

  /** Rely/guarantee: what a record knows survives any step of any other record. */
  lemma FrameStable(g: Shared, g': Shared, t: nat, f: Frame)
    requires Ext(g, g') && FrameInv(g, t, f) && ROpsInv(g)
    requires t < |g.kseq| && g'.kseq[t] == g.kseq[t]
    ensures FrameInv(g', t, f)
  {
    if f.RdcssSnap? || f.RdcssLook? || f.RdcssLift? { RdcssFrameStable(g, g', t, f); }
    else if f.Place? || f.OwnLook? || f.OwnLift? { PlacingFrameStable(g, g', t, f); }
    else if f.HelpSnap? { AttendsStable(g, g', t, f.k, 1); }
    else if !f.ReadWord? { KcasFrameStable(g, g', t, f); }
  }
}
