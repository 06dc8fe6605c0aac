/**
 The cause of a late tag is also sufficient.  When the owner is about to fail because of an entry whose word has
 since taken the old value, some continuation leaves the operation's tag in that word for good.
 */
module KCasLeavesTag {
  import opened KCas
  import opened KCasInvariant
  import opened KCasSafety
  import opened KCasRefinement
  import opened KCasStuckTag

  // Some continuation has `execute` return false and leaves `k`'s tag in word `a`, where nobody may remove it.
  ghost predicate CanLeave(s: State, k: KId, a: int) { exists c :: Continues(c, s) && Left(c[|c| - 1], k, a) }

  ghost predicate Left(s: State, k: KId, a: int) {
    k in s.g.returned && !s.g.returned[k] && Stuck(s, k, a)
  }

  lemma Sooner(s: State, s': State, k: KId, a: int)
    requires Step(s, s') && CanLeave(s', k, a)
    ensures CanLeave(s, k, a)
  {
    var c :| Continues(c, s') && Left(c[|c| - 1], k, a);
    var c' := Prepend(s, s', c);
  }

  // No thread releases `k`, thread `t` perhaps aside.
  ghost predicate Calm(s: State, k: KId, t: nat) {
    forall v: nat, d: nat :: v < |s.stacks| && d < |s.stacks[v]| && v != t
        ==> !(s.stacks[v][d].Release? && s.stacks[v][d].k == k)
  }

  lemma CalmNext(s: State, u: nat, k: KId, t: nat)
    requires Calm(s, k, t) && u < |s.stacks| && s.stacks[u] != []
    requires u != t ==> forall f :: f in Act(s.g, u, Top(s.stacks[u])).tops ==> !(f.Release? && f.k == k)
    ensures Calm(Next(s, u), k, t)
  {
    var s' := Next(s, u);
    var tops := Act(s.g, u, Top(s.stacks[u])).tops;
    forall v: nat, d: nat | v < |s'.stacks| && d < |s'.stacks[v]| && v != t
      ensures !(s'.stacks[v][d].Release? && s'.stacks[v][d].k == k)
    {
      if v == u && d >= |s.stacks[u]| - 1 { assert s'.stacks[v][d] == tops[d - (|s.stacks[u]| - 1)]; }
      else { assert s'.stacks[v][d] == s.stacks[v][d]; }
    }
  }

  // ---------------------------------------------------------------- the scene

  ghost predicate AllHeld(g: Shared, k: KId, m: nat) { forall i :: 0 <= i < m ==> Holds(g, k, i) }

  lemma HeldOn(g: Shared, g': Shared, k: KId, m: nat)
    requires AllHeld(g, k, m) && k in g.kops && k in g'.kops && g'.kops[k].entries == g.kops[k].entries
    requires m < |g.kops[k].entries| && DistinctAddrs(g.kops[k].entries)
    requires |g'.mem| == |g.mem|
    requires forall a :: 0 <= a < |g.mem| && a != g.kops[k].entries[m].addr ==> g'.mem[a] == g.mem[a]
    ensures AllHeld(g', k, m)
  {
    forall i | 0 <= i < m ensures Holds(g', k, i) { assert Holds(g, k, i); }
  }

  // Thread `t` has yet to decide that its operation `k` fails; entry `m`'s word is `w`; the entries before are held.
  ghost predicate Scene(s: State, t: nat, u: nat, k: KId, m: nat, w: Word) {
    && t != u && t < |s.stacks| && u < |s.stacks| && t < |s.g.kseq| && u < |s.g.rseq| && t < |s.g.visited| && k.tid == t
    && k in s.g.kops && s.g.kops[k].status == Undecided && Readable(s.g, k) && Calm(s, k, t)
    && DistinctAddrs(s.g.kops[k].entries) && InMem(s.g.kops[k].entries, |s.g.mem|)
    && 0 < m < |s.g.kops[k].entries| && AllHeld(s.g, k, m)
    && Load(s.g, s.g.kops[k].entries[m].addr) == w
    && |s.stacks[t]| == 1 && s.stacks[t][0].Decide? && s.stacks[t][0].k == k && s.stacks[t][0].h == 0
        && !s.stacks[t][0].ok
  }

  // ---------------------------------------------------------------- the owner fails and goes on

  // The owner is releasing; entry `m`'s word holds the RDCSS tag `r`, which thread `u` is about to end.
  ghost predicate Leaving(s: State, t: nat, u: nat, k: KId, m: nat, r: RId) {
    && t != u && t < |s.stacks| && u < |s.stacks| && t < |s.g.kseq| && t < |s.g.visited| && k.tid == t
    && k in s.g.kops && s.g.kops[k].status == Failed && Readable(s.g, k) && Calm(s, k, t)
    && DistinctAddrs(s.g.kops[k].entries) && InMem(s.g.kops[k].entries, |s.g.mem|) && m < |s.g.kops[k].entries|
    && r in s.g.rops && s.g.rops[r].k == k && s.g.rops[r].i == m
    && s.g.mem[s.g.kops[k].entries[m].addr] == RTag(r)
    && Runs(s, u, OwnLift(k, 1, m, r, true))
  }

  // Thread `u` ends its RDCSS: the tag is back, and stays.
  lemma TagBack(s: State, t: nat, u: nat, k: KId, m: nat, r: RId)
    requires t != u && t < |s.stacks| && u < |s.stacks| && k in s.g.kops && !Readable(s.g, k) && Calm(s, k, t)
    requires s.stacks[t] == [] && k in s.g.returned && !s.g.returned[k]
    requires DistinctAddrs(s.g.kops[k].entries) && InMem(s.g.kops[k].entries, |s.g.mem|) && m < |s.g.kops[k].entries|
    requires r in s.g.rops && s.g.rops[r].k == k && s.g.rops[r].i == m
    requires s.g.mem[s.g.kops[k].entries[m].addr] == RTag(r) && Runs(s, u, OwnLift(k, 1, m, r, true))
    ensures CanLeave(s, k, s.g.kops[k].entries[m].addr)
  {
    var s' := Next(s, u);
    NextRuns(s, u, OwnLift(k, 1, m, r, true), LockNext(k, 1, m + 1));
    CalmNext(s, u, k, t);
    assert Stuck(s', k, s.g.kops[k].entries[m].addr);
    assert Continues([s'], s');
    Sooner(s, s', k, s.g.kops[k].entries[m].addr);
  }

  // The owner returns false and starts its next operation.
  lemma MovesOn(s: State, t: nat, u: nat, k: KId, m: nat, r: RId, i: nat)
    requires Leaving(s, t, u, k, m, r) && s.stacks[t] == [Release(k, 0, i, false)] && i >= |s.g.kops[k].entries|
    ensures CanLeave(s, k, s.g.kops[k].entries[m].addr)
  {
    var a := s.g.kops[k].entries[m].addr;
    var s1 := Next(s, t);
    assert Act(s.g, t, Release(k, 0, i, false)).tops == [];
    assert BusyStep(s, t, s1);
    CalmNext(s, t, k, t);
    var s2 := State(Tick(StartOp(s1.g, t)), s1.stacks);
    assert IdleStep(s1, t, s2);
    assert Calm(s2, k, t);
    TagBack(s2, t, u, k, m, r);
    Sooner(s1, s2, k, a);
    Sooner(s, s1, k, a);
  }

  lemma {:induction false} ReleasesAll(s: State, t: nat, u: nat, k: KId, m: nat, r: RId, i: nat)
    requires Leaving(s, t, u, k, m, r) && s.stacks[t] == [Release(k, 0, i, false)] && i <= |s.g.kops[k].entries|
    ensures CanLeave(s, k, s.g.kops[k].entries[m].addr)
    decreases |s.g.kops[k].entries| - i
  {
    if i == |s.g.kops[k].entries| {
      MovesOn(s, t, u, k, m, r, i);
    } else {
      var s' := Next(s, t);
      NextRuns(s, t, Release(k, 0, i, false), Release(k, 0, i + 1, false));
      CalmNext(s, t, k, t);
      ReleasesAll(s', t, u, k, m, r, i + 1);
      Sooner(s, s', k, s.g.kops[k].entries[m].addr);
    }
  }

  // ---------------------------------------------------------------- the helper comes first

  // Thread `u` has placed its RDCSS tag on entry `m` and found `k` undecided.
  lemma OwnerFails(s: State, t: nat, u: nat, k: KId, m: nat, r: RId)
    requires Scene(s, t, u, k, m, RTag(r)) && r in s.g.rops && s.g.rops[r].k == k && s.g.rops[r].i == m
    requires Runs(s, u, OwnLift(k, 1, m, r, true))
    ensures CanLeave(s, k, s.g.kops[k].entries[m].addr)
  {
    var f := s.stacks[t][0];
    var s1 := Next(s, t);
    NextRuns(s, t, f, Settle(k, 0));
    CalmNext(s, t, k, t);
    var s2 := Next(s1, t);
    NextRuns(s1, t, Settle(k, 0), Release(k, 0, 0, false));
    CalmNext(s1, t, k, t);
    ReleasesAll(s2, t, u, k, m, r, 0);
    Sooner(s1, s2, k, s.g.kops[k].entries[m].addr);
    Sooner(s, s1, k, s.g.kops[k].entries[m].addr);
  }

  lemma HelperPlaces(s: State, t: nat, u: nat, k: KId, m: nat, r: RId)
    requires Scene(s, t, u, k, m, Raw(EntryAt(Op(s.g, k), m).oldval)) && Runs(s, u, Place(k, 1, m, r))
    requires r in s.g.rops && s.g.rops[r].k == k && s.g.rops[r].i == m
    ensures CanLeave(s, k, s.g.kops[k].entries[m].addr)
  {
    var s1 := Next(s, u);
    NextRuns(s, u, Place(k, 1, m, r), OwnLook(k, 1, m, r));
    CalmNext(s, u, k, t);
    HeldOn(s.g, s1.g, k, m);
    var s2 := Next(s1, u);
    NextRuns(s1, u, OwnLook(k, 1, m, r), OwnLift(k, 1, m, r, true));
    CalmNext(s1, u, k, t);
    HeldOn(s1.g, s2.g, k, m);
    OwnerFails(s2, t, u, k, m, r);
    Sooner(s1, s2, k, s.g.kops[k].entries[m].addr);
    Sooner(s, s1, k, s.g.kops[k].entries[m].addr);
  }

  // Thread `u` passes an entry that is held.
  lemma HelperPassesOne(s: State, t: nat, u: nat, k: KId, m: nat, i: nat) returns (s': State)
    requires Scene(s, t, u, k, m, Raw(EntryAt(Op(s.g, k), m).oldval)) && Runs(s, u, LockNext(k, 1, i)) && i < m
    ensures Scene(s', t, u, k, m, Raw(EntryAt(Op(s'.g, k), m).oldval)) && Runs(s', u, LockNext(k, 1, i + 1))
    ensures s'.g.kops == s.g.kops && forall a :: CanLeave(s', k, a) ==> CanLeave(s, k, a)
  {
    var r := NewRdcss(s.g, u, k, i).1;
    var s1 := Next(s, u);
    NextRuns(s, u, LockNext(k, 1, i), Place(k, 1, i, r));
    CalmNext(s, u, k, t);
    HeldOn(s.g, s1.g, k, m);
    assert Holds(s1.g, k, i);
    s' := Next(s1, u);
    NextRuns(s1, u, Place(k, 1, i, r), LockNext(k, 1, i + 1));
    CalmNext(s1, u, k, t);
    HeldOn(s1.g, s'.g, k, m);
    forall a | CanLeave(s', k, a) ensures CanLeave(s, k, a) {
      Sooner(s1, s', k, a);
      Sooner(s, s1, k, a);
    }
  }

  lemma {:induction false} HelperPasses(s: State, t: nat, u: nat, k: KId, m: nat, i: nat)
    requires Scene(s, t, u, k, m, Raw(EntryAt(Op(s.g, k), m).oldval)) && Runs(s, u, LockNext(k, 1, i)) && i <= m
    ensures CanLeave(s, k, s.g.kops[k].entries[m].addr)
    decreases m - i
  {
    if i == m {
      HelperStops(s, t, u, k, m);
    } else {
      var s' := HelperPassesOne(s, t, u, k, m, i);
      HelperPasses(s', t, u, k, m, i + 1);
    }
  }

  lemma HelperStops(s: State, t: nat, u: nat, k: KId, m: nat)
    requires Scene(s, t, u, k, m, Raw(EntryAt(Op(s.g, k), m).oldval)) && Runs(s, u, LockNext(k, 1, m))
    ensures CanLeave(s, k, s.g.kops[k].entries[m].addr)
  {
    var r := NewRdcss(s.g, u, k, m).1;
    var s1 := Next(s, u);
    NextRuns(s, u, LockNext(k, 1, m), Place(k, 1, m, r));
    CalmNext(s, u, k, t);
    HeldOn(s.g, s1.g, k, m);
    HelperPlaces(s1, t, u, k, m, r);
    Sooner(s, s1, k, s.g.kops[k].entries[m].addr);
  }

  // An idle thread meets the tag at entry 0.
  lemma HelperComes(s: State, t: nat, u: nat, k: KId, m: nat)
    requires Scene(s, t, u, k, m, Raw(EntryAt(Op(s.g, k), m).oldval)) && s.stacks[u] == []
    requires u < |s.g.kseq| && u < |s.g.visited|
    ensures CanLeave(s, k, s.g.kops[k].entries[m].addr)
  {
    var x := s.g.kops[k].entries[m].addr;
    var a := s.g.kops[k].entries[0].addr;
    assert Holds(s.g, k, 0);
    var s1 := State(Tick(s.g), s.stacks[u := [ReadWord(a, false)]]);
    assert IdleStep(s, u, s1);
    assert Calm(s1, k, t);
    HeldOn(s.g, s1.g, k, m);
    var s2 := Next(s1, u);
    NextRuns(s1, u, ReadWord(a, false), HelpSnap(k));
    CalmNext(s1, u, k, t);
    HeldOn(s1.g, s2.g, k, m);
    HelperEnters(s2, t, u, k, m);
    Sooner(s1, s2, k, x);
    Sooner(s, s1, k, x);
  }

  lemma HelperEnters(s: State, t: nat, u: nat, k: KId, m: nat)
    requires Scene(s, t, u, k, m, Raw(EntryAt(Op(s.g, k), m).oldval)) && Runs(s, u, HelpSnap(k))
    ensures CanLeave(s, k, s.g.kops[k].entries[m].addr)
  {
    var x := s.g.kops[k].entries[m].addr;
    var s1 := Next(s, u);
    NextRuns(s, u, HelpSnap(k), HelpStart(k, 1));
    CalmNext(s, u, k, t);
    HeldOn(s.g, s1.g, k, m);
    var s2 := Next(s1, u);
    NextRuns(s1, u, HelpStart(k, 1), LockNext(k, 1, 1));
    CalmNext(s1, u, k, t);
    HeldOn(s1.g, s2.g, k, m);
    HelperPasses(s2, t, u, k, m, 1);
    Sooner(s1, s2, k, x);
    Sooner(s, s1, k, x);
  }

  // ---------------------------------------------------------------- the theorem

  lemma MayLeave(s: State, t: nat, u: nat, k: KId, m: nat, since: nat)
    requires GoodState(s) && t != u && t < |s.stacks| && u < |s.stacks|
    requires s.stacks[t] == [Decide(k, 0, false, since)] && s.stacks[u] == []
    requires Op(s.g, k).status == Undecided && 0 < m < |Op(s.g, k).entries| && Held(s.g, k, m)
    requires var e := Op(s.g, k).entries[m]; Load(s.g, e.addr) == Raw(e.oldval)
    ensures CanLeave(s, k, Op(s.g, k).entries[m].addr)
  {
    assert FrameInv(s.g, t, s.stacks[t][0]);
    assert KOpInv(s.g, k);
    forall v: nat, d: nat | v < |s.stacks| && d < |s.stacks[v]| && v != t
      ensures !(s.stacks[v][d].Release? && s.stacks[v][d].k == k)
    {
      assert FrameInv(s.g, v, s.stacks[v][d]);
    }
    HelperComes(s, t, u, k, m);
  }

  /**
   The owner has missed on an entry after the first; the entries before it are held, and its word now has the old
   value.  Then, with an idle thread, some continuation has `execute` return false and leaves the tag there for good.
   */
  lemma MissMayLeaveTag(b: seq<State>, n: nat, i: nat, t: nat, u: nat, k: KId, m: nat, since: nat)
    requires Run(b, n) && i < |b| && t != u && t < |b[i].stacks| && u < |b[i].stacks|
    requires b[i].stacks[t] == [Decide(k, 0, false, since)] && b[i].stacks[u] == []
    requires Op(b[i].g, k).status == Undecided && 0 < m < |Op(b[i].g, k).entries| && Held(b[i].g, k, m)
    requires var e := Op(b[i].g, k).entries[m]; Load(b[i].g, e.addr) == Raw(e.oldval)
    ensures CanLeave(b[i], k, Op(b[i].g, k).entries[m].addr)
  {
    RunKeeps(b, n, i);
    MayLeave(b[i], t, u, k, m, since);
  }
}
