/**
 Every reachable state of the k-CAS protocol satisfies `Inv`.
 */
module KCasSafety {
  import opened KCas
  import opened KCasInvariant
  import opened KCasSteps

  ghost predicate TopsInv(g: Shared, t: nat, tops: seq<Frame>) {
    forall d :: 0 <= d < |tops| ==> FrameInv(g, t, tops[d]) && PlaceInv(g, tops[d])
  }

  // Only the record that places `x` may end its freshness.
  ghost predicate KeepsFresh(g: Shared, g': Shared, f: Frame) {
    forall x :: x in g.rops && g.rops[x].phase == Fresh && !(f.Place? && f.r == x) ==>
        x in g'.rops && g'.rops[x] == g.rops[x]
  }

  // At most the bottom one of the new records places a tag, and either it did before or the tag is new.
  ghost predicate PlacesFew(g: Shared, f: Frame, tops: seq<Frame>) {
    && (forall d :: 0 <= d < |tops| && tops[d].Place? ==>
        d == 0 && ((f.Place? && tops[d].r == f.r) || tops[d].r !in g.rops))
  }

  ghost predicate ActOk(g: Shared, t: nat, f: Frame) {
    var o := Act(g, t, f);
    && SharedInv(o.g) && Ext(g, o.g) && o.g.kseq == g.kseq && |o.g.visited| == |g.visited|
    && TopsInv(o.g, t, o.tops) && KeepsFresh(g, o.g, f) && PlacesFew(g, f, o.tops)
  }

  ghost predicate Ready(g: Shared, t: nat, f: Frame) {
    SharedInv(g) && t < |g.kseq| == |g.rseq| && FrameInv(g, t, f) && PlaceInv(g, f)
  }

  lemma SameOk(g: Shared)
    requires SharedInv(g)
    ensures Ext(g, g)
  {
    BookOk(g, g);
  }

  // A step that only reads.
  lemma Quiet(g: Shared, t: nat, f: Frame, tops: seq<Frame>)
    requires SharedInv(g) && Act(g, t, f) == Out(g, tops)
    requires TopsInv(g, t, tops) && PlacesFew(g, f, tops)
    ensures ActOk(g, t, f)
  {
    SameOk(g);
  }

  lemma LockNextOk(g: Shared, t: nat, f: Frame)
    requires Ready(g, t, f) && f.LockNext?
    ensures ActOk(g, t, f)
  {
    if f.i < |g.kops[f.k].entries| {
      NewRdcssOk(g, t, f.k, f.i);
      var (g', r) := NewRdcss(g, t, f.k, f.i);
      AttendsStable(g, g', t, f.k, f.h);
      assert KExt(g, g', f.k);
      HeldStable(g, g', f.k, f.i);
    } else {
      Quiet(g, t, f, [if g.kops[f.k].validated then Validate(f.k, f.h, 0, g.clock)
          else Decide(f.k, f.h, true, g.clock)]);
    }
  }

  // What a tag found in memory tells a record.
  lemma FoundTag(g: Shared, t: nat, a: int)
    requires 0 <= a < |g.mem| && WordInv(g, a)
    ensures g.mem[a].RTag? ==> FrameInv(g, t, RdcssSnap(g.mem[a].r))
    ensures g.mem[a].KTag? ==> FrameInv(g, t, HelpSnap(g.mem[a].k))
  {}

  lemma PlaceSeesTag(g: Shared, t: nat, f: Frame, a: int)
    requires Ready(g, t, f) && f.Place? && a == EntryAt(Op(g, f.k), f.i).addr && 0 <= a < |g.mem| && !g.mem[a].Raw?
    ensures ActOk(g, t, f)
  {
    assert WordInv(g, a);
    FoundTag(g, t, a);
    match g.mem[a]
    case RTag(r) => Quiet(g, t, f, [f, RdcssSnap(r)]);
    case KTag(k) =>
      if k == f.k {
        assert Held(g, k, f.i + 1);
        Quiet(g, t, f, [LockNext(k, f.h, f.i + 1)]);
      } else {
        Quiet(g, t, f, [LockNext(f.k, f.h, f.i), HelpSnap(k)]);
      }
    case _ =>
  }

  lemma PlaceMisses(g: Shared, t: nat, f: Frame, v: int)
    requires Ready(g, t, f) && f.Place? && Load(g, EntryAt(Op(g, f.k), f.i).addr) == Raw(v)
    requires v != EntryAt(Op(g, f.k), f.i).oldval
    ensures ActOk(g, t, f)
  {
    var g' := g.(missed := g.missed + {f.k});
    BookOk(g, g');
    AttendsStable(g, g', t, f.k, f.h);
    assert Act(g, t, f) == Out(g', [Decide(f.k, f.h, false, g.clock)]);
  }

  lemma PlaceHits(g: Shared, t: nat, f: Frame)
    requires Ready(g, t, f) && f.Place?
    requires Load(g, EntryAt(Op(g, f.k), f.i).addr) == Raw(EntryAt(Op(g, f.k), f.i).oldval)
    ensures ActOk(g, t, f)
  {
    var g' := PlaceTag(g, f.r);
    PlaceTagOk(g, f.r);
    LockingStable(g, g', t, f.k, f.h, f.i);
    assert Act(g, t, f) == Out(g', [OwnLook(f.k, f.h, f.i, f.r)]);
    assert KeepsFresh(g, g', f);
  }

  // Once its own tag is gone the entry is locked, unless the operation is decided.
  lemma OwnLiftLocks(g: Shared, t: nat, f: Frame)
    requires Ready(g, t, f) && f.OwnLift?
    ensures FrameInv(LiftTag(g, f.r, f.und), t, LockNext(f.k, f.h, f.i + 1))
  {
    var g' := LiftTag(g, f.r, f.und);
    LiftTagOk(g, f.r, f.und);
    LockingStable(g, g', t, f.k, f.h, f.i);
    assert ROpInv(g', f.r);
    assert RExt(g, g', f.r);
    assert Held(g', f.k, f.i + 1);
  }

  lemma LiftKeeps(g: Shared, r: RId, und: bool, f: Frame)
    requires Installed(g, r)
    ensures var g' := LiftTag(g, r, und);
            KeepsFresh(g, g', f) && g'.kseq == g.kseq && g'.visited == g.visited
  {}

  // A step with one successor record and no placing.
  lemma Moves(g: Shared, t: nat, f: Frame, g': Shared, f': Frame)
    requires Act(g, t, f) == Out(g', [f']) && !f'.Place?
    requires SharedInv(g') && Ext(g, g') && g'.kseq == g.kseq && |g'.visited| == |g.visited|
    requires FrameInv(g', t, f') && KeepsFresh(g, g', f)
    ensures ActOk(g, t, f)
  {}

  // A step that ends its record.
  lemma Ends(g: Shared, t: nat, f: Frame, g': Shared)
    requires Act(g, t, f) == Out(g', [])
    requires SharedInv(g') && Ext(g, g') && g'.kseq == g.kseq && |g'.visited| == |g.visited| && KeepsFresh(g, g', f)
    ensures ActOk(g, t, f)
  {}

  lemma OwnLiftOk(g: Shared, t: nat, f: Frame)
    requires Ready(g, t, f) && f.OwnLift?
    ensures ActOk(g, t, f)
  {
    LiftTagOk(g, f.r, f.und);
    LiftKeeps(g, f.r, f.und, f);
    OwnLiftLocks(g, t, f);
    Moves(g, t, f, LiftTag(g, f.r, f.und), LockNext(f.k, f.h, f.i + 1));
  }

  lemma DecideOk(g: Shared, t: nat, f: Frame)
    requires Ready(g, t, f) && f.Decide?
    ensures ActOk(g, t, f)
  {
    ResolveOk(g, f.k, f.ok);
    AttendsStable(g, Resolve(g, f.k, f.ok), t, f.k, f.h);
  }

  lemma SettleOk(g: Shared, t: nat, f: Frame)
    requires Ready(g, t, f) && (f.Settle? || f.HelpStart?)
    ensures ActOk(g, t, f)
  {
    Quiet(g, t, f, Act(g, t, f).tops);
  }

  lemma ReleaseOk(g: Shared, t: nat, f: Frame)
    requires Ready(g, t, f) && f.Release?
    ensures ActOk(g, t, f)
  {
    if f.i < |g.kops[f.k].entries| {
      UnlockOk(g, f.k, f.i, f.won);
      AttendsStable(g, Unlock(g, f.k, f.i, f.won), t, f.k, f.h);
    } else {
      BookOk(g, if f.h == 0 then g.(returned := g.returned[f.k := f.won]) else g);
    }
  }

  // Reading the state through an RDCSS descriptor whose tag has been placed.
  lemma LookReady(g: Shared, r: RId)
    requires Installed(g, r) && ROpsInv(g) && KOpsInv(g)
    ensures LiftReady(g, r, Open(g, g.rops[r].k))
  {
    assert ROpInv(g, r);
    assert KOpInv(g, g.rops[r].k);
  }

  lemma RdcssReads(g: Shared, t: nat, f: Frame)
    requires Ready(g, t, f) && (f.RdcssSnap? || f.RdcssLook?)
    ensures ActOk(g, t, f)
  {
    if f.RdcssSnap? {
      Quiet(g, t, f, if f.r.tid < |g.rseq| && g.rseq[f.r.tid] == f.r.sn then [RdcssLook(f.r)] else []);
    } else {
      LookReady(g, f.r);
      Quiet(g, t, f, [RdcssLift(f.r, Open(g, g.rops[f.r].k))]);
    }
  }

  lemma OwnLookOk(g: Shared, t: nat, f: Frame)
    requires Ready(g, t, f) && f.OwnLook?
    ensures ActOk(g, t, f)
  {
    LookReady(g, f.r);
    Quiet(g, t, f, [OwnLift(f.k, f.h, f.i, f.r, Open(g, f.k))]);
  }

  lemma RdcssLiftOk(g: Shared, t: nat, f: Frame)
    requires Ready(g, t, f) && f.RdcssLift?
    ensures ActOk(g, t, f)
  {
    LiftTagOk(g, f.r, f.und);
    LiftKeeps(g, f.r, f.und, f);
    Ends(g, t, f, LiftTag(g, f.r, f.und));
  }

  lemma ValidateOk(g: Shared, t: nat, f: Frame)
    requires Ready(g, t, f) && (f.HelpSnap? || f.Validate?)
    ensures ActOk(g, t, f)
  {
    Quiet(g, t, f, Act(g, t, f).tops);
  }

  lemma ReadOk(g: Shared, t: nat, f: Frame)
    requires Ready(g, t, f) && f.ReadWord?
    ensures ActOk(g, t, f)
  {
    assert WordInv(g, f.a);
    FoundTag(g, t, f.a);
    match g.mem[f.a]
    case RTag(r) => Quiet(g, t, f, [f, RdcssSnap(r)]);
    case KTag(k) => Quiet(g, t, f, [f, HelpSnap(k)]);
    case Raw(v) => BookOk(g, Act(g, t, f).g);
  }

  /** Every step of every record keeps the shared invariant and only does what the others expect. */
  lemma ActKeeps(g: Shared, t: nat, f: Frame)
    requires Ready(g, t, f)
    ensures ActOk(g, t, f)
  {
    match f
    case LockNext(_, _, _) => LockNextOk(g, t, f);
    case Place(k, _, i, _) =>
      assert KOpInv(g, k);
      var e := EntryAt(Op(g, k), i);
      if Load(g, e.addr) == Raw(e.oldval) { PlaceHits(g, t, f); }
      else if Load(g, e.addr).Raw? { PlaceMisses(g, t, f, Load(g, e.addr).v); }
      else { PlaceSeesTag(g, t, f, e.addr); }
    case OwnLift(_, _, _, _, _) => OwnLiftOk(g, t, f);
    case Decide(_, _, _, _) => DecideOk(g, t, f);
    case Settle(_, _) => SettleOk(g, t, f);
    case HelpStart(_, _) => SettleOk(g, t, f);
    case Release(_, _, _, _) => ReleaseOk(g, t, f);
    case ReadWord(_, _) => ReadOk(g, t, f);
    case HelpSnap(_) => ValidateOk(g, t, f);
    case Validate(_, _, _, _) => ValidateOk(g, t, f);
    case RdcssLift(_, _) => RdcssLiftOk(g, t, f);
    case OwnLook(_, _, _, _) => OwnLookOk(g, t, f);
    case _ => RdcssReads(g, t, f);
  }

  // ---------------------------------------------------------------- from one record to all of them

  // While an operation is undecided, its owner is still inside `execute`.
  ghost predicate Serves(f: Frame, k: KId) {
    (f.HelpStart? || f.LockNext? || f.Place? || f.OwnLook? || f.OwnLift? || f.Validate? || f.Decide?) && f.k == k
        && f.h == 0
  }

  ghost predicate OwnersInv(s: State) {
    forall k :: k in s.g.kops && s.g.kops[k].status == Undecided ==>
      k.tid < |s.stacks| && s.stacks[k.tid] != [] && Serves(s.stacks[k.tid][0], k)
  }

  ghost predicate SameSize(s: State, s': State) { |s'.stacks| == |s.stacks| && |s'.g.mem| == |s.g.mem| }

  ghost predicate GoodState(s: State) { Inv(s) && OwnersInv(s) }

  lemma ServesOn(g: Shared, t: nat, f: Frame, k: KId)
    requires Ready(g, t, f) && Serves(f, k) && Op(Act(g, t, f).g, k).status == Undecided
    ensures Act(g, t, f).tops != [] && Serves(Act(g, t, f).tops[0], k)
  {
    if f.Decide? { ResolveOk(g, f.k, f.ok); }
  }

  lemma BusyFrames(s: State, t: nat, s': State)
    requires Inv(s) && t < |s.stacks| && BusyStep(s, t, s') && ActOk(s.g, t, Top(s.stacks[t]))
    ensures FramesInv(s')
  {
    var o := Act(s.g, t, Top(s.stacks[t]));
    BookOk(o.g, s'.g);
    forall u, d | 0 <= u < |s'.stacks| && 0 <= d < |s'.stacks[u]| ensures FrameInv(s'.g, u, s'.stacks[u][d]) {
      if u == t && d >= |s.stacks[t]| - 1 {
        FrameStable(o.g, s'.g, u, s'.stacks[u][d]);
      } else {
        assert s'.stacks[u][d] == s.stacks[u][d];
        FrameStable(s.g, o.g, u, s'.stacks[u][d]);
        FrameStable(o.g, s'.g, u, s'.stacks[u][d]);
      }
    }
  }

  lemma BusyPlaces(s: State, t: nat, s': State)
    requires Inv(s) && t < |s.stacks| && BusyStep(s, t, s') && ActOk(s.g, t, Top(s.stacks[t]))
    ensures PlacesInv(s')
  {
    var f := Top(s.stacks[t]);
    var o := Act(s.g, t, f);
    var n := |s.stacks[t]| - 1;
    forall u, d | 0 <= u < |s'.stacks| && 0 <= d < |s'.stacks[u]| ensures PlaceInv(s'.g, s'.stacks[u][d]) {
      if u != t || d < n {
        var x := s.stacks[u][d];
        assert s'.stacks[u][d] == x;
        assert PlaceInv(s.g, x) && FrameInv(s.g, u, x) && FrameInv(s.g, t, f);
        if u == t { assert Apart(s.stacks[t][d], s.stacks[t][n]); }
      }
    }
    forall u, d, e | 0 <= u < |s'.stacks| && 0 <= d < e < |s'.stacks[u]|
      ensures Apart(s'.stacks[u][d], s'.stacks[u][e]) {
      if u != t || e < n {
        assert Apart(s.stacks[u][d], s.stacks[u][e]);
      } else if d < n {
        assert Apart(s.stacks[t][d], s.stacks[t][n]) && PlaceInv(s.g, s.stacks[t][d]);
        assert s'.stacks[t][e] == o.tops[e - n];
      } else {
        assert s'.stacks[t][e] == o.tops[e - n];
      }
    }
  }

  lemma ActKeys(g: Shared, t: nat, f: Frame, k: KId)
    requires k in Act(g, t, f).g.kops
    ensures k in g.kops
  {}

  lemma BusyOwner(s: State, t: nat, s': State, k: KId)
    requires Inv(s) && t < |s.stacks| && BusyStep(s, t, s') && ActOk(s.g, t, Top(s.stacks[t]))
    requires k.tid < |s.stacks| && s.stacks[k.tid] != [] && Serves(s.stacks[k.tid][0], k)
    requires Op(s'.g, k).status == Undecided
    ensures s'.stacks[k.tid] != [] && Serves(s'.stacks[k.tid][0], k)
  {
    if k.tid == t && |s.stacks[t]| == 1 {
      var f := Top(s.stacks[t]);
      assert FrameInv(s.g, t, f) && PlaceInv(s.g, f);
      ServesOn(s.g, t, f, k);
    }
  }

  lemma BusyOwners(s: State, t: nat, s': State)
    requires GoodState(s) && t < |s.stacks| && BusyStep(s, t, s') && ActOk(s.g, t, Top(s.stacks[t]))
    ensures OwnersInv(s')
  {
    var f := Top(s.stacks[t]);
    var o := Act(s.g, t, f);
    forall k | k in s'.g.kops && s'.g.kops[k].status == Undecided
      ensures k.tid < |s'.stacks| && s'.stacks[k.tid] != [] && Serves(s'.stacks[k.tid][0], k)
    {
      ActKeys(s.g, t, f, k);
      assert KExt(s.g, o.g, k);
      BusyOwner(s, t, s', k);
    }
  }

  lemma BusyKeeps(s: State, t: nat, s': State)
    requires GoodState(s) && t < |s.stacks| && BusyStep(s, t, s')
    ensures GoodState(s') && SameSize(s, s')
  {
    var f := Top(s.stacks[t]);
    assert FrameInv(s.g, t, f) && PlaceInv(s.g, f);
    ActKeeps(s.g, t, f);
    BookOk(Act(s.g, t, f).g, s'.g);
    BusyFrames(s, t, s');
    BusyPlaces(s, t, s');
    BusyOwners(s, t, s');
  }

  // An idle thread's step: the shared state is extended, and at most one record is added.
  lemma IdleFrames(s: State, t: nat, s': State, st: seq<Frame>)
    requires Inv(s) && t < |s.stacks| && s.stacks[t] == [] && Ext(s.g, s'.g) && s'.g.rops == s.g.rops
    requires s'.stacks == s.stacks[t := st] && |st| <= 1 && (st != [] ==> FrameInv(s'.g, t, st[0]) && !st[0].Place?)
    requires forall u :: 0 <= u < |s.stacks| && u != t ==> s'.g.kseq[u] == s.g.kseq[u]
    ensures FramesInv(s') && PlacesInv(s')
  {
    forall u, d | 0 <= u < |s'.stacks| && 0 <= d < |s'.stacks[u]|
      ensures FrameInv(s'.g, u, s'.stacks[u][d]) && PlaceInv(s'.g, s'.stacks[u][d])
    {
      if u != t {
        FrameStable(s.g, s'.g, u, s.stacks[u][d]);
        assert PlaceInv(s.g, s.stacks[u][d]);
      }
    }
    forall u, d, e | 0 <= u < |s'.stacks| && 0 <= d < e < |s'.stacks[u]|
      ensures Apart(s'.stacks[u][d], s'.stacks[u][e]) {
      assert u != t;
      assert Apart(s.stacks[u][d], s.stacks[u][e]);
    }
  }

  lemma NoneOpen(s: State, t: nat)
    requires OwnersInv(s) && t < |s.stacks| && s.stacks[t] == []
    ensures Done(s.g, t)
  {}

  lemma StartKeeps(s: State, t: nat, s': State)
    requires GoodState(s) && t < |s.stacks| && s.stacks[t] == []
    requires t < |s.g.kseq| && t < |s.g.visited| && s' == State(Tick(StartOp(s.g, t)), s.stacks)
    ensures GoodState(s')
  {
    NoneOpen(s, t);
    var m := s.g.(kseq := s.g.kseq[t := s.g.kseq[t] + 1]);
    AdvanceOk(s.g, m, t, KId(t, s.g.kseq[t] + 1));
    BookOk(m, s'.g);
    IdleFrames(s, t, State(m, s.stacks), []);
    IdleFrames(State(m, s.stacks), t, s', []);
  }

  lemma PublishKeeps(s: State, t: nat, s': State, es: seq<Entry>, validated: bool)
    requires GoodState(s) && t < |s.stacks| && s.stacks[t] == [] && t < |s.g.kseq| && t < |s.g.visited|
    requires DistinctAddrs(es) && InMem(es, |s.g.mem|)
    requires var (g', k) := Publish(s.g, t, es, validated); s' == State(Tick(g'), s.stacks[t := [HelpStart(k, 0)]])
    ensures GoodState(s')
  {
    NoneOpen(s, t);
    var (g', k) := Publish(s.g, t, es, validated);
    var op := KOp(es, s.g.visited[t], validated, Undecided);
    assert g'.kops == s.g.kops[k := op] && Publishable(s.g, op);
    AdvanceOk(s.g, g', t, k);
    BookOk(g', s'.g);
    var m := State(g', s'.stacks);
    IdleFrames(s, t, m, [HelpStart(k, 0)]);
    BusyTick(m, s');
    forall x | x in s'.g.kops && s'.g.kops[x].status == Undecided
      ensures x.tid < |s'.stacks| && s'.stacks[x.tid] != [] && Serves(s'.stacks[x.tid][0], x)
    {
      if x != k { assert x in s.g.kops; assert x.tid != t; }
    }
  }

  lemma BusyTick(s: State, s': State)
    requires SharedInv(s.g) && Shape(s) && FramesInv(s) && PlacesInv(s) && s'.stacks == s.stacks && s'.g == Tick(s.g)
    ensures FramesInv(s') && PlacesInv(s')
  {
    BookOk(s.g, s'.g);
    forall u, d | 0 <= u < |s'.stacks| && 0 <= d < |s'.stacks[u]|
      ensures FrameInv(s'.g, u, s'.stacks[u][d]) && PlaceInv(s'.g, s'.stacks[u][d])
    {
      FrameStable(s.g, s'.g, u, s.stacks[u][d]);
      assert PlaceInv(s.g, s.stacks[u][d]);
    }
    forall u, d, e | 0 <= u < |s'.stacks| && 0 <= d < e < |s'.stacks[u]|
      ensures Apart(s'.stacks[u][d], s'.stacks[u][e]) {
      assert Apart(s.stacks[u][d], s.stacks[u][e]);
    }
  }

  lemma ReadKeeps(s: State, t: nat, s': State, a: int, visit: bool)
    requires GoodState(s) && t < |s.stacks| && s.stacks[t] == [] && 0 <= a < |s.g.mem|
    requires s' == State(Tick(s.g), s.stacks[t := [ReadWord(a, visit)]])
    ensures GoodState(s')
  {
    BookOk(s.g, s'.g);
    IdleFrames(s, t, s', [ReadWord(a, visit)]);
  }

  lemma StepKeeps(s: State, s': State)
    requires GoodState(s) && Step(s, s')
    ensures GoodState(s') && SameSize(s, s')
  {
    var t: nat :| t < |s.stacks| && (IdleStep(s, t, s') || BusyStep(s, t, s'));
    if BusyStep(s, t, s') {
      BusyKeeps(s, t, s');
    } else if s' == State(Tick(StartOp(s.g, t)), s.stacks) {
      StartKeeps(s, t, s');
    } else if exists a, visit :: 0 <= a < |s.g.mem| && s' == State(Tick(s.g), s.stacks[t := [ReadWord(a, visit)]]) {
      var a, visit :| 0 <= a < |s.g.mem| && s' == State(Tick(s.g), s.stacks[t := [ReadWord(a, visit)]]);
      ReadKeeps(s, t, s', a, visit);
    } else {
      var es, validated :| DistinctAddrs(es) && InMem(es, |s.g.mem|)
        && var (g', k) := Publish(s.g, t, es, validated);
           s' == State(Tick(g'), s.stacks[t := [HelpStart(k, 0)]]);
      PublishKeeps(s, t, s', es, validated);
    }
  }

  lemma InitGood(s: State, n: nat)
    requires Init(s, n)
    ensures GoodState(s)
  {}

  /** Every state of every run, whatever the number of threads and the schedule. */
  lemma {:induction false} RunKeeps(b: seq<State>, n: nat, i: nat)
    requires Run(b, n) && i < |b|
    ensures GoodState(b[i]) && SameSize(b[0], b[i])
  {
    if i == 0 {
      InitGood(b[0], n);
    } else {
      RunKeeps(b, n, i - 1);
      assert StepAt(b, i - 1);
      StepKeeps(b[i - 1], b[i]);
    }
  }
}
