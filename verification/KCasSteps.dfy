/**
 Each shared effect of the k-CAS protocol keeps `SharedInv` and is an `Ext`.
 */
module KCasSteps {
  import opened KCas
  import opened KCasInvariant

  // ---------------------------------------------------------------- what carries over unchanged

  // Memory differs at most at `at`; RDCSS descriptors differ at most at `r`.
  ghost predicate OnlyAt(g: Shared, g': Shared, at: int, r: RId) {
    && |g'.mem| == |g.mem|
    && (forall a :: 0 <= a < |g.mem| && a != at ==> g'.mem[a] == g.mem[a])
    && (forall x :: x in g.rops && x != r ==> x in g'.rops && g'.rops[x] == g.rops[x])
    && (forall x :: x in g'.rops && x != r ==> x in g.rops)
  }

  lemma WordCarries(g: Shared, g': Shared, a: int, at: int, r: RId)
    requires Ext(g, g') && OnlyAt(g, g', at, r) && ROpsInv(g) && 0 <= a < |g.mem| && a != at && WordInv(g, a)
    requires g.mem[a] != RTag(r)
    ensures WordInv(g', a)
  {
    match g.mem[a]
    case RTag(x) =>
      assert ROpInv(g, x);
      assert KExt(g, g', g.rops[x].k);
    case KTag(k) =>
      assert KExt(g, g', k);
      HeldStable(g, g', k, 1);
    case _ =>
  }

  // Every word but `at` keeps its invariant, provided `r`'s tag can only be at `at`.
  lemma WordsCarry(g: Shared, g': Shared, at: int, r: RId)
    requires WordsInv(g) && ROpsInv(g) && Ext(g, g') && OnlyAt(g, g', at, r)
    requires 0 <= at < |g.mem| ==> WordInv(g', at)
    requires r in g.rops && g.rops[r].phase == Placed ==> Target(g, r).addr == at
    ensures WordsInv(g')
  {
    forall a | 0 <= a < |g'.mem| ensures WordInv(g', a) {
      assert WordInv(g, a);
      if a != at { WordCarries(g, g', a, at, r); }
    }
  }

  lemma ROpCarries(g: Shared, g': Shared, x: RId, at: int, r: RId)
    requires Ext(g, g') && OnlyAt(g, g', at, r) && x in g.rops && x != r && ROpInv(g, x)
    requires g.rops[x].phase == Placed ==> Target(g, x).addr != at
    requires x.tid < |g.rseq| && g.rseq[x.tid] <= g'.rseq[x.tid]
    ensures ROpInv(g', x)
  {
    assert KExt(g, g', g.rops[x].k);
    HeldStable(g, g', g.rops[x].k, if g.rops[x].i > 0 then 1 else 0);
  }

  ghost predicate Grows(s: seq<nat>, s': seq<nat>) {
    |s| == |s'| && forall t :: 0 <= t < |s| ==> s[t] <= s'[t]
  }

  // Every RDCSS descriptor but `r` keeps its invariant; `old` is the only tag `at` may hold.
  lemma ROpsCarry(g: Shared, g': Shared, at: int, r: RId)
    requires ROpsInv(g) && Ext(g, g') && OnlyAt(g, g', at, r) && Grows(g.rseq, g'.rseq)
    requires 0 <= at < |g.mem| && g.mem[at].RTag? ==> g.mem[at] == RTag(r)
    requires r in g'.rops ==> ROpInv(g', r)
    ensures ROpsInv(g')
  {
    forall x | x in g'.rops ensures ROpInv(g', x) {
      if x != r {
        assert ROpInv(g, x);
        ROpCarries(g, g', x, at, r);
      }
    }
  }

  lemma KOpsSame(g: Shared, g': Shared)
    requires KOpsInv(g) && g'.kops == g.kops && |g'.mem| == |g.mem| && g'.kseq == g.kseq
    requires g.missed <= g'.missed && g'.returned == g.returned
    requires forall k :: k in g.kops ==> KExt(g, g', k)
    ensures KOpsInv(g')
  {
    forall k | k in g'.kops ensures KOpInv(g', k) { assert KOpInv(g, k) && KExt(g, g', k); }
  }

  // Writing anything but the tag of a succeeded operation over a word that is not the tag of an
  // undecided one is an extension as far as k-CAS goes.
  lemma KExtNoTag(g: Shared, g': Shared, at: int, k: KId)
    requires k in g.kops && g'.kops == g.kops && |g'.mem| == |g.mem|
    requires forall a :: 0 <= a < |g.mem| && a != at ==> g'.mem[a] == g.mem[a]
    requires 0 <= at < |g.mem| ==> g.mem[at] != KTag(k) || g.kops[k].status != Undecided
    requires 0 <= at < |g.mem| ==> g'.mem[at] != KTag(k) || g.kops[k].status != Succeeded
    ensures KExt(g, g', k)
  {}

  // ---------------------------------------------------------------- a new RDCSS descriptor

  lemma NewRdcssExt(g: Shared, t: nat, k: KId, i: nat)
    requires ROpsInv(g) && KOpsInv(g) && t < |g.rseq|
    ensures var (g', r) := NewRdcss(g, t, k, i);
            Ext(g, g') && r !in g.rops && OnlyAt(g, g', -1, r) && Grows(g.rseq, g'.rseq) && KOpsInv(g')
  {
    var (g', r) := NewRdcss(g, t, k, i);
    assert r !in g.rops by { assert forall x :: x in g.rops ==> ROpInv(g, x); }
    forall x | x in g.kops ensures KExt(g, g', x) { KExtNoTag(g, g', -1, x); }
    KOpsSame(g, g');
  }

  lemma NewRdcssOk(g: Shared, t: nat, k: KId, i: nat)
    requires SharedInv(g) && t < |g.rseq|
    requires k in g.kops && i < |g.kops[k].entries| && Held(g, k, if i > 0 then 1 else 0)
    ensures var (g', r) := NewRdcss(g, t, k, i);
            SharedInv(g') && Ext(g, g') && r !in g.rops && g'.rops[r] == ROp(k, i, Fresh)
  {
    var (g', r) := NewRdcss(g, t, k, i);
    NewRdcssExt(g, t, k, i);
    assert KExt(g, g', k);
    HeldStable(g, g', k, if i > 0 then 1 else 0);
    assert ROpInv(g', r);
    ROpsCarry(g, g', -1, r);
    WordsCarry(g, g', -1, r);
  }

  // ---------------------------------------------------------------- placing an RDCSS tag

  lemma PlaceTagExt(g: Shared, r: RId)
    requires KOpsInv(g) && r in g.rops && ROpInv(g, r) && g.rops[r].phase == Fresh
    requires Load(g, Target(g, r).addr).Raw?
    ensures var g' := PlaceTag(g, r);
            Ext(g, g') && KOpsInv(g') && OnlyAt(g, g', Target(g, r).addr, r)
    ensures 0 <= Target(g, r).addr < |g.mem| && PlaceTag(g, r).mem == g.mem[Target(g, r).addr := RTag(r)]
  {
    var g' := PlaceTag(g, r);
    assert KOpInv(g, g.rops[r].k);
    forall x | x in g.kops ensures KExt(g, g', x) { KExtNoTag(g, g', Target(g, r).addr, x); }
    KOpsSame(g, g');
  }

  lemma PlaceTagOk(g: Shared, r: RId)
    requires SharedInv(g) && r in g.rops && g.rops[r].phase == Fresh
    requires Load(g, Target(g, r).addr).Raw?
    ensures SharedInv(PlaceTag(g, r)) && Ext(g, PlaceTag(g, r))
  {
    var g' := PlaceTag(g, r);
    assert ROpInv(g, r);
    PlaceTagExt(g, r);
    assert KExt(g, g', g.rops[r].k);
    HeldStable(g, g', g.rops[r].k, if g.rops[r].i > 0 then 1 else 0);
    ROpsCarry(g, g', Target(g, r).addr, r);
    WordsCarry(g, g', Target(g, r).addr, r);
  }

  // ---------------------------------------------------------------- lifting an RDCSS tag

  lemma LiftTagExt(g: Shared, r: RId, und: bool)
    requires KOpsInv(g) && LiftReady(g, r, und) && ROpInv(g, r) && Load(g, Target(g, r).addr) == RTag(r)
    requires g.rops[r].phase == Placed
    ensures var g' := LiftTag(g, r, und);
            Ext(g, g') && KOpsInv(g') && OnlyAt(g, g', Target(g, r).addr, r)
    ensures LiftTag(g, r, und).mem == g.mem[Target(g, r).addr := if und then KTag(g.rops[r].k)
        else Raw(Target(g, r).oldval)]
  {
    var g' := LiftTag(g, r, und);
    assert KOpInv(g, g.rops[r].k);
    forall x | x in g.kops ensures KExt(g, g', x) { KExtNoTag(g, g', Target(g, r).addr, x); }
    KOpsSame(g, g');
  }

  // The word and the descriptor just lifted.
  lemma LiftTagSite(g: Shared, r: RId, und: bool)
    requires KOpsInv(g) && LiftReady(g, r, und) && ROpInv(g, r) && Load(g, Target(g, r).addr) == RTag(r)
    requires g.rops[r].phase == Placed
    ensures ROpInv(LiftTag(g, r, und), r) && WordInv(LiftTag(g, r, und), Target(g, r).addr)
  {
    var g' := LiftTag(g, r, und);
    var k := g.rops[r].k;
    LiftTagExt(g, r, und);
    assert KExt(g, g', k);
    HeldStable(g, g', k, if g.rops[r].i > 0 then 1 else 0);
    assert Target(g, r) == g.kops[k].entries[g.rops[r].i];
    assert g'.rops[r] == g.rops[r].(phase := Lifted);
    assert und ==> Holds(g', k, g.rops[r].i);
  }

  lemma LiftTagOk(g: Shared, r: RId, und: bool)
    requires SharedInv(g) && LiftReady(g, r, und)
    ensures SharedInv(LiftTag(g, r, und)) && Ext(g, LiftTag(g, r, und))
    ensures LiftTag(g, r, und).rops[r].phase == Lifted
  {
    var g' := LiftTag(g, r, und);
    assert ROpInv(g, r);
    if Load(g, Target(g, r).addr) == RTag(r) {
      assert WordInv(g, Target(g, r).addr);
      LiftTagExt(g, r, und);
      LiftTagSite(g, r, und);
      ROpsCarry(g, g', Target(g, r).addr, r);
      WordsCarry(g, g', Target(g, r).addr, r);
    } else {
      assert g' == g;
    }
  }

  // ---------------------------------------------------------------- deciding

  ghost predicate DecideReady(g: Shared, k: KId, ok: bool) {
    && k in g.kops
    && (ok ==> Held(g, k, |g.kops[k].entries|))
    && (!ok ==> k in g.missed || g.kops[k].validated)
  }

  // When the operation succeeds, none of its RDCSS tags is left in memory.
  lemma NoTagLeft(g: Shared, k: KId, r: RId)
    requires r in g.rops && ROpInv(g, r) && g.rops[r].k == k && k in g.kops
    requires g.kops[k].status == Undecided && Held(g, k, |g.kops[k].entries|) && g.rops[r].phase != Fresh
    ensures g.rops[r].phase == Lifted
  {
    assert Holds(g, k, g.rops[r].i);
  }

  lemma ResolveROps(g: Shared, k: KId, ok: bool, r: RId)
    requires r in g.rops && ROpInv(g, r) && DecideReady(g, k, ok)
    ensures RExt(g, Resolve(g, k, ok), r)
  {
    if g.rops[r].phase != Fresh && JustSucceeded(g, Resolve(g, k, ok), g.rops[r].k) { NoTagLeft(g, k, r); }
  }

  // What a successful `execute` left behind stays gone.
  lemma ReturnedStable(g: Shared, g': Shared, k: KId)
    requires k in g.kops && KOpInv(g, k) && KExt(g, g', k) && k in g.returned && g.returned[k]
    ensures Freed(g', k, |g.kops[k].entries|)
  {
    FreedStable(g, g', k, |g.kops[k].entries|);
  }

  lemma ResolveKOps(g: Shared, k: KId, ok: bool, x: KId)
    requires DecideReady(g, k, ok) && x in g.kops && KOpInv(g, x)
    ensures KOpInv(Resolve(g, k, ok), x) && KExt(g, Resolve(g, k, ok), x)
  {
    if x in g.returned && g.returned[x] { ReturnedStable(g, Resolve(g, k, ok), x); }
  }

  lemma ResolveOk(g: Shared, k: KId, ok: bool)
    requires SharedInv(g) && DecideReady(g, k, ok)
    ensures SharedInv(Resolve(g, k, ok)) && Ext(g, Resolve(g, k, ok))
    ensures Op(Resolve(g, k, ok), k).status != Undecided
  {
    var g' := Resolve(g, k, ok);
    assert KOpInv(g, k);
    forall x | x in g.kops ensures KOpInv(g', x) && KExt(g, g', x) { assert KOpInv(g, x); ResolveKOps(g, k, ok, x); }
    forall r | r in g.rops ensures RExt(g, g', r) { assert ROpInv(g, r); ResolveROps(g, k, ok, r); }
    var r := RId(|g.rseq|, 0);
    assert r !in g.rops by { assert forall x :: x in g.rops ==> ROpInv(g, x); }
    ROpsCarry(g, g', -1, r);
    WordsCarry(g, g', -1, r);
  }

  // ---------------------------------------------------------------- releasing

  lemma UnlockExt(g: Shared, k: KId, i: nat, won: bool)
    requires KOpsInv(g) && k in g.kops && g.kops[k].status != Undecided && i < |g.kops[k].entries|
    requires Load(g, g.kops[k].entries[i].addr) == KTag(k)
    ensures var g' := Unlock(g, k, i, won);
            && Ext(g, g') && KOpsInv(g') && g'.rops == g.rops && g'.rseq == g.rseq && g'.returned == g.returned
            && (forall a :: 0 <= a < |g.mem| && a != g.kops[k].entries[i].addr ==> g'.mem[a] == g.mem[a])
            && Load(g', g.kops[k].entries[i].addr).Raw?
  {
    var g' := Unlock(g, k, i, won);
    var at := g.kops[k].entries[i].addr;
    forall x | x in g.kops ensures KExt(g, g', x) { KExtNoTag(g, g', at, x); }
    KOpsSame(g, g');
  }

  lemma UnlockOk(g: Shared, k: KId, i: nat, won: bool)
    requires SharedInv(g) && k in g.kops && g.kops[k].status != Undecided && i < |g.kops[k].entries|
    ensures SharedInv(Unlock(g, k, i, won)) && Ext(g, Unlock(g, k, i, won))
  {
    var g' := Unlock(g, k, i, won);
    var at := g.kops[k].entries[i].addr;
    if Load(g, at) == KTag(k) {
      UnlockExt(g, k, i, won);
      var r := RId(|g.rseq|, 0);
      assert r !in g.rops by { assert forall x :: x in g.rops ==> ROpInv(g, x); }
      ROpsCarry(g, g', at, r);
      WordsCarry(g, g', at, r);
    } else {
      assert g' == g;
      forall x | x in g.kops ensures KExt(g, g', x) { }
    }
  }

  // ---------------------------------------------------------------- bookkeeping

  ghost predicate ResultOk(g: Shared, g': Shared, k: KId)
    requires k in g'.returned
  {
    if k in g.returned && g'.returned[k] == g.returned[k] then true
    else
      && k in g.kops && g.kops[k].status != Undecided && g'.returned[k] == (g.kops[k].status == Succeeded)
      && (g'.returned[k] ==> Freed(g, k, |g.kops[k].entries|))
  }

  // Steps that leave memory, descriptors and sequence numbers alone.
  lemma BookOk(g: Shared, g': Shared)
    requires SharedInv(g)
    requires g'.mem == g.mem && g'.kops == g.kops && g'.rops == g.rops && g'.kseq == g.kseq && g'.rseq == g.rseq
    requires g.missed <= g'.missed && g.clock <= g'.clock
    requires forall k :: k in g'.returned ==> ResultOk(g, g', k)
    ensures SharedInv(g') && Ext(g, g')
  {
    forall x | x in g'.kops ensures KOpInv(g', x) && KExt(g, g', x) {
      assert KOpInv(g, x) && KExt(g, g', x);
      if x in g.returned && g.returned[x] { ReturnedStable(g, g', x); }
    }
    var r := RId(|g.rseq|, 0);
    assert r !in g.rops by { assert forall x :: x in g.rops ==> ROpInv(g, x); }
    ROpsCarry(g, g', -1, r);
    WordsCarry(g, g', -1, r);
  }

  // ---------------------------------------------------------------- starting and publishing

  ghost predicate Done(g: Shared, t: nat) {
    forall k :: k in g.kops && k.tid == t ==> g.kops[k].status != Undecided
  }

  // The owner's sequence number moves on, and at most one new undecided operation appears.
  ghost predicate Advances(g: Shared, g': Shared, t: nat, k: KId)
    requires t < |g.kseq|
  {
    && k == KId(t, g.kseq[t] + 1)
    && g'.kseq == g.kseq[t := k.sn] && g'.mem == g.mem && g'.rops == g.rops && g'.rseq == g.rseq
    && g'.missed == g.missed && g'.returned == g.returned && g'.clock == g.clock
    && (g'.kops == g.kops || (exists op: KOp :: g'.kops == g.kops[k := op] && Publishable(g, op)))
  }

  ghost predicate Publishable(g: Shared, op: KOp) {
    DistinctAddrs(op.entries) && InMem(op.entries, |g.mem|) && op.status == Undecided
  }

  lemma AdvanceOk(g: Shared, g': Shared, t: nat, k: KId)
    requires SharedInv(g) && t < |g.kseq| && Done(g, t) && Advances(g, g', t, k)
    ensures SharedInv(g') && Ext(g, g') && k !in g.kops
  {
    assert k !in g.kops by { assert forall x :: x in g.kops ==> KOpInv(g, x); }
    forall x | x in g.kops ensures KOpInv(g', x) && KExt(g, g', x) {
      assert KOpInv(g, x) && KExt(g, g', x);
      if x in g.returned && g.returned[x] { ReturnedStable(g, g', x); }
    }
    forall x | x in g'.kops ensures KOpInv(g', x) { }
    var r := RId(|g.rseq|, 0);
    assert r !in g.rops by { assert forall x :: x in g.rops ==> ROpInv(g, x); }
    ROpsCarry(g, g', -1, r);
    WordsCarry(g, g', -1, r);
  }
}
