/**
 k-CAS: helping.  A placed RDCSS tag's descriptor never moves on while the tag is in memory, so whoever meets
 the tag can lift it; no RDCSS tag gets stuck.  Whoever meets the tag of a decided k-CAS, while its descriptor is
 readable, releases the word.
 */
module KCasHelps {
  import opened KCas
  import opened KCasInvariant
  import opened KCasSafety
  import opened KCasSolo

  // ---------------------------------------------------------------- RDCSS descriptors

  predicate Lifting(f: Frame) { f.RdcssSnap? || f.RdcssLook? || f.RdcssLift? }
  predicate Owning(f: Frame, r: RId) { (f.OwnLook? || f.OwnLift?) && f.r == r }
  predicate CurrentR(g: Shared, r: RId) { r.tid < |g.rseq| && g.rseq[r.tid] == r.sn }

  // A record that is about to place a tag waits for nothing but lifts, so its descriptor is current.
  ghost predicate PlacerAt(s: State, t: nat, d: nat)
    requires t < |s.stacks| && d < |s.stacks[t]|
  {
    s.stacks[t][d].Place? ==>
      && t < |s.g.rseq| && s.g.rseq[t] == s.stacks[t][d].r.sn
      && (forall e :: d < e < |s.stacks[t]| ==> Lifting(s.stacks[t][e]))
  }

  // A placed tag's owner is about to lift it.
  ghost predicate OwnerAt(s: State, r: RId) {
    r in s.g.rops && s.g.rops[r].phase == Placed ==>
      CurrentR(s.g, r) && r.tid < |s.stacks| && s.stacks[r.tid] != [] && Owning(Top(s.stacks[r.tid]), r)
  }

  ghost predicate OwnersInv(s: State) {
    && (forall t, d {:trigger PlacerAt(s, t, d)} :: 0 <= t < |s.stacks| && 0 <= d < |s.stacks[t]| ==> PlacerAt(s, t, d))
    && (forall r {:trigger OwnerAt(s, r)} :: r in s.g.rops ==> OwnerAt(s, r))
  }

  // A step of another thread.
  lemma RseqStays(g: Shared, t: nat, f: Frame)
    ensures |Act(g, t, f).g.rseq| == |g.rseq|
    ensures forall u :: 0 <= u < |g.rseq| && (u != t || !f.LockNext?) ==> Act(g, t, f).g.rseq[u] == g.rseq[u]
  {}

  lemma PlacedByPlace(g: Shared, t: nat, f: Frame, r: RId)
    requires r in Act(g, t, f).g.rops && Act(g, t, f).g.rops[r].phase == Placed
    requires !(r in g.rops && g.rops[r].phase == Placed)
    ensures f.Place? && f.r == r && Act(g, t, f).tops == [OwnLook(f.k, f.h, f.i, r)] && r in g.rops
  {}

  lemma OwnerLifts(g: Shared, t: nat, f: Frame)
    requires SharedInv(g) && FrameInv(g, t, f) && f.OwnLift?
    ensures f.r in Act(g, t, f).g.rops && Act(g, t, f).g.rops[f.r].phase != Placed
  {
    assert ROpInv(g, f.r);
  }

  lemma BusyOwner(s: State, t: nat, s': State, r: RId)
    requires Inv(s) && OwnersInv(s) && t < |s.stacks| && BusyStep(s, t, s') && r in s'.g.rops
    ensures OwnerAt(s', r)
  {
    var n := |s.stacks[t]| - 1;
    var f := s.stacks[t][n];
    assert FrameInv(s.g, t, f) && PlacerAt(s, t, n);
    RseqStays(s.g, t, f);
    if s'.g.rops[r].phase == Placed {
      if r in s.g.rops && s.g.rops[r].phase == Placed {
        assert OwnerAt(s, r);
        if r.tid == t { if f.OwnLift? { OwnerLifts(s.g, t, f); } }
      } else {
        PlacedByPlace(s.g, t, f, r);
      }
    }
  }

  lemma NewPlacer(g: Shared, t: nat, f: Frame, e: nat)
    requires e < |Act(g, t, f).tops| && Act(g, t, f).tops[e].Place? && t < |g.rseq|
    ensures var tops := Act(g, t, f).tops;
        && e == 0 && |Act(g, t, f).g.rseq| == |g.rseq|
        && if f.LockNext? then |tops| == 1 && Act(g, t, f).g.rseq[t] == tops[0].r.sn
           else f.Place? && tops[0] == f && |tops| == 2 && tops[1].RdcssSnap?
  {}

  lemma LiftsStay(g: Shared, t: nat, f: Frame)
    requires Lifting(f)
    ensures |Act(g, t, f).tops| <= 1 && forall e :: 0 <= e < |Act(g, t, f).tops| ==> Lifting(Act(g, t, f).tops[e])
  {}

  lemma BusyPlacer(s: State, t: nat, s': State, u: nat, d: nat)
    requires Inv(s) && OwnersInv(s) && t < |s.stacks| && BusyStep(s, t, s') && u < |s'.stacks| && d < |s'.stacks[u]|
    ensures PlacerAt(s', u, d)
  {
    var n := |s.stacks[t]| - 1;
    var f := s.stacks[t][n];
    var tops := Act(s.g, t, f).tops;
    RseqStays(s.g, t, f);
    if s'.stacks[u][d].Place? {
      if u != t {
        assert PlacerAt(s, u, d);
      } else if d >= n {
        assert s'.stacks[t][d] == tops[d - n];
        assert PlacerAt(s, t, n);
        NewPlacer(s.g, t, f, d - n);
      } else {
        assert s'.stacks[t][d] == s.stacks[t][d] && PlacerAt(s, t, d);
        LiftsStay(s.g, t, f);
        forall e | d < e < |s'.stacks[t]| ensures Lifting(s'.stacks[t][e]) {
          if e < n { assert s'.stacks[t][e] == s.stacks[t][e]; } else { assert s'.stacks[t][e] == tops[e - n]; }
        }
      }
    }
  }

  lemma StepOwners(s: State, s': State)
    requires Inv(s) && OwnersInv(s) && Step(s, s')
    ensures OwnersInv(s')
  {
    var t: nat :| t < |s.stacks| && (IdleStep(s, t, s') || BusyStep(s, t, s'));
    if BusyStep(s, t, s') {
      forall u, d | 0 <= u < |s'.stacks| && 0 <= d < |s'.stacks[u]| ensures PlacerAt(s', u, d) {
        BusyPlacer(s, t, s', u, d);
      }
      forall r | r in s'.g.rops ensures OwnerAt(s', r) { BusyOwner(s, t, s', r); }
    } else {
      IdleOwners(s, t, s');
    }
  }

  lemma IdleOwners(s: State, t: nat, s': State)
    requires OwnersInv(s) && t < |s.stacks| && IdleStep(s, t, s')
    ensures OwnersInv(s')
  {
    forall u, d | 0 <= u < |s'.stacks| && 0 <= d < |s'.stacks[u]| ensures PlacerAt(s', u, d) {
      if u != t { assert PlacerAt(s, u, d); }
    }
    forall r | r in s'.g.rops ensures OwnerAt(s', r) { assert OwnerAt(s, r); }
  }

  lemma {:induction false} RunOwners(b: seq<State>, n: nat, i: nat)
    requires Run(b, n) && i < |b|
    ensures OwnersInv(b[i])
  {
    if i > 0 {
      RunOwners(b, n, i - 1);
      RunKeeps(b, n, i - 1);
      assert StepAt(b, i - 1);
      StepOwners(b[i - 1], b[i]);
    } else {
      assert forall t :: 0 <= t < |b[0].stacks| ==> b[0].stacks[t] == [];
    }
  }

  /** The descriptor of an RDCSS tag that is in memory is current. */
  lemma TagIsCurrent(b: seq<State>, n: nat, i: nat, a: int)
    requires Run(b, n) && i < |b| && 0 <= a < |b[i].g.mem| && b[i].g.mem[a].RTag?
    ensures CurrentR(b[i].g, b[i].g.mem[a].r) && b[i].g.mem[a].r in b[i].g.rops
    ensures Target(b[i].g, b[i].g.mem[a].r).addr == a
  {
    RunOwners(b, n, i);
    RunKeeps(b, n, i);
    assert WordInv(b[i].g, a);
    assert OwnerAt(b[i], b[i].g.mem[a].r);
  }

  // ---------------------------------------------------------------- helping alone

  // Record `f` is about to look at word `a`.
  predicate LooksAt(g: Shared, f: Frame, a: int) {
    (f.Place? && EntryAt(Op(g, f.k), f.i).addr == a) || (f.ReadWord? && f.a == a)
  }

  lemma GoesOver(g: Shared, stacks: seq<seq<Frame>>, t: nat, rest: seq<Frame>, f: Frame)
    requires t < |stacks|
    ensures Gets(At(g, stacks, t, rest + [f]), t, At(Next(g, t, f), stacks, t, rest + Act(g, t, f).tops))
  {
    var s, s' := At(g, stacks, t, rest + [f]), At(Next(g, t, f), stacks, t, rest + Act(g, t, f).tops);
    assert Below(s.stacks[t]) == rest && Top(s.stacks[t]) == f;
    assert MovesBy(s, t, s');
    assert Alone([s, s'], t) && Last([s, s']) == s';
  }

  lemma Lifts3(g: Shared, stacks: seq<seq<Frame>>, t: nat, rest: seq<Frame>, r: RId) returns (h: Shared)
    requires t < |stacks| && CurrentR(g, r) && r in g.rops && Load(g, Target(g, r).addr) == RTag(r)
    ensures Gets(At(g, stacks, t, rest + [RdcssSnap(r)]), t, At(h, stacks, t, rest))
    ensures |h.mem| == |g.mem| && Load(h, Target(g, r).addr) != RTag(r) && h.kops == g.kops
    ensures forall c :: 0 <= c < |g.mem| && c != Target(g, r).addr ==> h.mem[c] == g.mem[c]
  {
    var s := At(g, stacks, t, rest + [RdcssSnap(r)]);
    GoesOver(g, stacks, t, rest, RdcssSnap(r));
    var g1 := Next(g, t, RdcssSnap(r));
    GoesOver(g1, stacks, t, rest, RdcssLook(r));
    var g2, f := Next(g1, t, RdcssLook(r)), RdcssLift(r, r in g1.rops && Open(g1, g1.rops[r].k));
    Joins(s, t, At(g1, stacks, t, rest + [RdcssLook(r)]), At(g2, stacks, t, rest + [f]));
    GoesOver(g2, stacks, t, rest, f);
    h := Next(g2, t, f);
    assert rest + [] == rest;
    Joins(s, t, At(g2, stacks, t, rest + [f]), At(h, stacks, t, rest));
  }

  lemma SplitTop(st: seq<Frame>)
    requires st != []
    ensures st == Below(st) + [Top(st)]
  {}

  /**
   A record that meets an RDCSS tag can, alone and from any reachable state, lift it and look again; no other word
   changes.
   */
  lemma SoloLifts(b: seq<State>, n: nat, t: nat, a: int, r: RId) returns (s': State)
    requires Run(b, n) && t < |Last(b).stacks| && Last(b).stacks[t] != []
        && LooksAt(Last(b).g, Top(Last(b).stacks[t]), a)
    requires 0 <= a < |Last(b).g.mem| && Last(b).g.mem[a] == RTag(r)
    ensures Gets(Last(b), t, s') && s'.stacks == Last(b).stacks && |s'.g.mem| == |Last(b).g.mem|
        && s'.g.mem[a] != RTag(r)
    ensures forall c :: 0 <= c < |s'.g.mem| && c != a ==> s'.g.mem[c] == Last(b).g.mem[c]
  {
    TagIsCurrent(b, n, |b| - 1, a);
    var g, stacks := Last(b).g, Last(b).stacks;
    var rest, f := Below(stacks[t]), Top(stacks[t]);
    SplitTop(stacks[t]);
    assert stacks[t := rest + [f]] == stacks;
    GoesOver(g, stacks, t, rest, f);
    var g1 := Next(g, t, f);
    assert rest + [f, RdcssSnap(r)] == rest + [f] + [RdcssSnap(r)];
    var h := Lifts3(g1, stacks, t, rest + [f], r);
    s' := At(h, stacks, t, rest + [f]);
    Joins(Last(b), t, At(g1, stacks, t, rest + [f] + [RdcssSnap(r)]), s');
  }

  lemma {:induction false} ReleasesOver(g: Shared, stacks: seq<seq<Frame>>, t: nat, rest: seq<Frame>, k: KId, i: nat,
      won: bool) returns (h: Shared)
    requires t < |stacks| && k in g.kops && i <= |g.kops[k].entries|
    ensures Gets(At(g, stacks, t, rest + [Release(k, 1, i, won)]), t, At(h, stacks, t, rest))
    ensures |h.mem| == |g.mem| && forall a :: Load(g, a) != KTag(k) ==> Load(h, a) != KTag(k)
    ensures forall x :: i <= x < |g.kops[k].entries| ==> Load(h, g.kops[k].entries[x].addr) != KTag(k)
    decreases |g.kops[k].entries| - i
  {
    var f := Release(k, 1, i, won);
    GoesOver(g, stacks, t, rest, f);
    h := Next(g, t, f);
    if i < |g.kops[k].entries| {
      var d := h;
      h := ReleasesOver(d, stacks, t, rest, k, i + 1, won);
      Joins(At(g, stacks, t, rest + [f]), t, At(d, stacks, t, rest + [Release(k, 1, i + 1, won)]),
          At(h, stacks, t, rest));
    } else {
      assert rest + [] == rest;
    }
  }

  lemma HelpsDecided(g: Shared, stacks: seq<seq<Frame>>, t: nat, rest: seq<Frame>, k: KId) returns (h: Shared)
    requires t < |stacks| && k in g.kops && g.kops[k].status != Undecided && Readable(g, k)
    ensures Gets(At(g, stacks, t, rest + [HelpSnap(k)]), t, At(h, stacks, t, rest))
    ensures forall x :: 0 <= x < |g.kops[k].entries| ==> Load(h, g.kops[k].entries[x].addr) != KTag(k)
  {
    var s, won := At(g, stacks, t, rest + [HelpSnap(k)]), g.kops[k].status == Succeeded;
    GoesOver(g, stacks, t, rest, HelpSnap(k));
    var g1 := Next(g, t, HelpSnap(k));
    GoesOver(g1, stacks, t, rest, HelpStart(k, 1));
    var g2 := Next(g1, t, HelpStart(k, 1));
    Joins(s, t, At(g1, stacks, t, rest + [HelpStart(k, 1)]), At(g2, stacks, t, rest + [Settle(k, 1)]));
    GoesOver(g2, stacks, t, rest, Settle(k, 1));
    var g3 := Next(g2, t, Settle(k, 1));
    Joins(s, t, At(g2, stacks, t, rest + [Settle(k, 1)]), At(g3, stacks, t, rest + [Release(k, 1, 0, won)]));
    h := ReleasesOver(g3, stacks, t, rest, k, 0, won);
    Joins(s, t, At(g3, stacks, t, rest + [Release(k, 1, 0, won)]), At(h, stacks, t, rest));
  }

  /**
   A record that meets the tag of another k-CAS which is decided can, alone and from any reachable state, release the
   word, if the descriptor has not moved on; it then goes on from where it was.
   */
  lemma SoloReleases(b: seq<State>, n: nat, t: nat, a: int, k: KId) returns (s': State)
    requires Run(b, n) && t < |Last(b).stacks| && Last(b).stacks[t] != []
        && LooksAt(Last(b).g, Top(Last(b).stacks[t]), a)
    requires 0 <= a < |Last(b).g.mem| && Last(b).g.mem[a] == KTag(k)
    requires Op(Last(b).g, k).status != Undecided && Readable(Last(b).g, k)
    requires Top(Last(b).stacks[t]).Place? ==> Top(Last(b).stacks[t]).k != k
    ensures Gets(Last(b), t, s') && Load(s'.g, a) != KTag(k)
    ensures var f := Top(Last(b).stacks[t]);
      s'.stacks == Last(b).stacks[t := Below(Last(b).stacks[t]) + [if f.Place? then LockNext(f.k, f.h, f.i) else f]]
  {
    RunKeeps(b, n, |b| - 1);
    var g, stacks := Last(b).g, Last(b).stacks;
    assert WordInv(g, a);
    var rest, f := Below(stacks[t]), Top(stacks[t]);
    var f' := if f.Place? then LockNext(f.k, f.h, f.i) else f;
    SplitTop(stacks[t]);
    assert stacks[t := rest + [f]] == stacks;
    GoesOver(g, stacks, t, rest, f);
    var g1 := Next(g, t, f);
    assert rest + [f', HelpSnap(k)] == rest + [f'] + [HelpSnap(k)];
    var h := HelpsDecided(g1, stacks, t, rest + [f'], k);
    s' := At(h, stacks, t, rest + [f']);
    Joins(Last(b), t, At(g1, stacks, t, rest + [f'] + [HelpSnap(k)]), s');
  }
}
