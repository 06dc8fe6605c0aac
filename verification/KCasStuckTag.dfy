/**
 When a k-CAS tag that is left in a word stays there.

 A helper that still has to end an RDCSS may write the tag of a failed operation back after `execute` has
 returned.  If by then the owner has started its next operation, helpers give the old one up.
 */
module KCasStuckTag {
  import opened KCas
  import opened KCasInvariant
  import opened KCasSafety
  import opened KCasRefinement

  // The tag of an operation whose descriptor has moved on, and no record that has still to release the word.
  ghost predicate Stuck(s: State, k: KId, a: int) {
    && 0 <= a < |s.g.mem| && s.g.mem[a] == KTag(k) && !Readable(s.g, k)
    && forall t, d :: 0 <= t < |s.stacks| && 0 <= d < |s.stacks[t]| ==>
         !Removes(s.stacks[t][d], k, IndexOf(Op(s.g, k).entries, a))
  }

  // A record that will release entry `x` of `k`.
  predicate Removes(f: Frame, k: KId, x: nat) { f.Release? && f.k == k && f.i <= x }

  // ---------------------------------------------------------------- continuations

  ghost predicate Continues(c: seq<State>, s: State) {
    |c| > 0 && c[0] == s && forall i :: 0 <= i < |c| - 1 ==> StepAt(c, i)
  }

  // Word `a` holds `k`'s tag whatever happens from now on.
  ghost predicate Stays(s: State, k: KId, a: int) {
    forall c: seq<State> :: Continues(c, s) ==> Load(c[|c| - 1].g, a) == KTag(k)
  }

  // ---------------------------------------------------------------- the tag stays

  lemma MemLeaves(g: Shared, t: nat, f: Frame, k: KId, a: int)
    requires 0 <= a < |g.mem| && g.mem[a] == KTag(k) && FrameInv(g, t, f) && k in g.kops && KOpInv(g, k)
    requires Owns(g.kops[k].entries, a) && !Removes(f, k, IndexOf(g.kops[k].entries, a))
    ensures var g' := Act(g, t, f).g; |g'.mem| == |g.mem| && g'.mem[a] == KTag(k)
  {
    if f.Release? { ReleaseLeaves(g, t, f, k, a); }
  }

  lemma ReleaseLeaves(g: Shared, t: nat, f: Frame, k: KId, a: int)
    requires 0 <= a < |g.mem| && g.mem[a] == KTag(k) && f.Release? && k in g.kops && KOpInv(g, k)
    requires Owns(g.kops[k].entries, a) && !Removes(f, k, IndexOf(g.kops[k].entries, a))
    ensures var g' := Act(g, t, f).g; |g'.mem| == |g.mem| && g'.mem[a] == KTag(k)
  {
    if f.k == k && f.i < |g.kops[k].entries| { EntryForIs(g.kops[k].entries, f.i); }
  }

  lemma RecordsLeave(g: Shared, t: nat, f: Frame, k: KId, x: nat)
    requires !Readable(g, k) && !Removes(f, k, x)
    ensures forall d :: 0 <= d < |Act(g, t, f).tops| ==> !Removes(Act(g, t, f).tops[d], k, x)
  {}

  lemma SeqLeaves(g: Shared, t: nat, f: Frame)
    ensures Act(g, t, f).g.kseq == g.kseq
  {}

  lemma ActEntries(g: Shared, t: nat, f: Frame, k: KId)
    requires k in g.kops
    ensures Op(Act(g, t, f).g, k).entries == g.kops[k].entries
  {}

  // A tag in memory names a published operation on that word.
  lemma TagKnown(s: State, k: KId, a: int)
    requires Inv(s) && 0 <= a < |s.g.mem| && s.g.mem[a] == KTag(k)
    ensures k in s.g.kops && KOpInv(s.g, k) && Owns(s.g.kops[k].entries, a)
    ensures IndexOf(s.g.kops[k].entries, a) < |s.g.kops[k].entries|
  {
    assert WordInv(s.g, a);
  }

  lemma BusyStuck(s: State, t: nat, s': State, k: KId, a: int)
    requires Inv(s) && Stuck(s, k, a) && t < |s.stacks| && BusyStep(s, t, s')
    ensures Stuck(s', k, a)
  {
    TagKnown(s, k, a);
    var n := |s.stacks[t]| - 1;
    var x := IndexOf(s.g.kops[k].entries, a);
    assert FrameInv(s.g, t, s.stacks[t][n]) && !Removes(s.stacks[t][n], k, x);
    MemLeaves(s.g, t, s.stacks[t][n], k, a);
    SeqLeaves(s.g, t, s.stacks[t][n]);
    ActEntries(s.g, t, s.stacks[t][n], k);
    RecordsLeave(s.g, t, s.stacks[t][n], k, x);
    forall u, d | 0 <= u < |s'.stacks| && 0 <= d < |s'.stacks[u]| ensures !Removes(s'.stacks[u][d], k, x) {
      if u == t && d >= n {
        assert s'.stacks[t][d] == Act(s.g, t, s.stacks[t][n]).tops[d - n];
      } else {
        assert s'.stacks[u][d] == s.stacks[u][d];
      }
    }
  }

  lemma IdleStuck(s: State, t: nat, s': State, k: KId, a: int)
    requires Inv(s) && Stuck(s, k, a) && t < |s.stacks| && IdleStep(s, t, s')
    ensures Stuck(s', k, a)
  {
    TagKnown(s, k, a);
    var x := IndexOf(s.g.kops[k].entries, a);
    forall u, d | 0 <= u < |s'.stacks| && 0 <= d < |s'.stacks[u]| ensures !Removes(s'.stacks[u][d], k, x) {
      if u != t { assert s'.stacks[u][d] == s.stacks[u][d]; }
    }
  }

  lemma StuckStep(s: State, s': State, k: KId, a: int)
    requires Inv(s) && Stuck(s, k, a) && Step(s, s')
    ensures Stuck(s', k, a)
  {
    var t: nat :| t < |s.stacks| && (IdleStep(s, t, s') || BusyStep(s, t, s'));
    if BusyStep(s, t, s') { BusyStuck(s, t, s', k, a); } else { IdleStuck(s, t, s', k, a); }
  }

  lemma {:induction false} StuckStays(c: seq<State>, s: State, k: KId, a: int, j: nat)
    requires GoodState(s) && Continues(c, s) && Stuck(s, k, a) && j < |c|
    ensures GoodState(c[j]) && Stuck(c[j], k, a)
  {
    if j > 0 {
      StuckStays(c, s, k, a, j - 1);
      assert StepAt(c, j - 1);
      StepKeeps(c[j - 1], c[j]);
      StuckStep(c[j - 1], c[j], k, a);
    }
  }

  // Thread `t` is reading word `a`, at level `d` of its stack.
  ghost predicate Reading(s: State, t: nat, d: nat, a: int) {
    t < |s.stacks| && d < |s.stacks[t]| && s.stacks[t][d].ReadWord? && s.stacks[t][d].a == a
  }

  lemma ReaderStays(g: Shared, t: nat, f: Frame, k: KId)
    requires f.ReadWord? && Load(g, f.a) == KTag(k)
    ensures Act(g, t, f).tops == [f, HelpSnap(k)]
  {}

  lemma ReaderStep(s: State, s': State, k: KId, a: int, t: nat, d: nat)
    requires Stuck(s, k, a) && Step(s, s') && Reading(s, t, d, a)
    ensures Reading(s', t, d, a)
  {
    ReaderStays(s.g, t, s.stacks[t][d], k);
  }

  /** A thread that reads a word with such a tag never gets an answer. */
  lemma {:induction false} ReaderNeverReturns(b: seq<State>, n: nat, i: nat, j: nat, k: KId, a: int, t: nat, d: nat)
    requires Run(b, n) && i <= j < |b| && Stuck(b[i], k, a) && Reading(b[i], t, d, a)
    ensures Stuck(b[j], k, a) && Reading(b[j], t, d, a)
  {
    if i < j {
      ReaderNeverReturns(b, n, i, j - 1, k, a, t, d);
      RunKeeps(b, n, j - 1);
      assert StepAt(b, j - 1);
      StuckStep(b[j - 1], b[j], k, a);
      ReaderStep(b[j - 1], b[j], k, a, t, d);
    }
  }

  // ---------------------------------------------------------------- or it can be removed

  // The thread runs its top record.
  function Next(s: State, t: nat): State requires t < |s.stacks| && s.stacks[t] != [] {
    var o := Act(s.g, t, Top(s.stacks[t]));
    State(Tick(o.g), s.stacks[t := Below(s.stacks[t]) + o.tops])
  }

  // A thread whose top record is `f`.
  predicate Runs(s: State, t: nat, f: Frame) { t < |s.stacks| && s.stacks[t] != [] && Top(s.stacks[t]) == f }

  lemma NextRuns(s: State, t: nat, f: Frame, f': Frame)
    requires Runs(s, t, f) && Act(s.g, t, f).tops != [] && f' == Top(Act(s.g, t, f).tops)
    ensures Runs(Next(s, t), t, f') && Step(s, Next(s, t))
  {
    var tops := Act(s.g, t, f).tops;
    var st := Next(s, t).stacks[t];
    assert st[|st| - 1] == tops[|tops| - 1];
    assert BusyStep(s, t, Next(s, t));
  }

  lemma Prepend(s: State, s': State, c: seq<State>) returns (c': seq<State>)
    requires Step(s, s') && Continues(c, s')
    ensures Continues(c', s) && c'[|c'| - 1] == c[|c| - 1]
  {
    c' := [s] + c;
    forall i | 0 <= i < |c'| - 1 ensures StepAt(c', i) {
      if i > 0 {
        assert StepAt(c, i - 1) && c'[i] == c[i - 1] && c'[i + 1] == c[i];
      } else {
        assert c'[1] == s';
      }
    }
  }

  // Some continuation removes the tag.
  ghost predicate Removable(s: State, k: KId, a: int) {
    exists c: seq<State> :: Continues(c, s) && Load(c[|c| - 1].g, a) != KTag(k)
  }

  lemma Later(s: State, s': State, k: KId, a: int)
    requires Step(s, s') && Removable(s', k, a)
    ensures Removable(s, k, a)
  {
    var c: seq<State> :| Continues(c, s') && Load(c[|c| - 1].g, a) != KTag(k);
    var c' := Prepend(s, s', c);
  }

  lemma {:induction false} ReleasesIt(s: State, t: nat, f: Frame, k: KId, x: nat)
    requires Runs(s, t, f) && Removes(f, k, x) && k in s.g.kops && x < |s.g.kops[k].entries|
    ensures Removable(s, k, s.g.kops[k].entries[x].addr)
    decreases x - f.i
  {
    var s' := Next(s, t);
    var f' := Release(k, f.h, f.i + 1, f.won);
    assert Act(s.g, t, f) == Out(Unlock(s.g, k, f.i, f.won), [f']);
    NextRuns(s, t, f, f');
    if f.i < x {
      ReleasesIt(s', t, f', k, x);
    } else {
      assert Load(s'.g, s.g.kops[k].entries[x].addr) != KTag(k);
      assert Continues([s'], s');
    }
    Later(s, s', k, s.g.kops[k].entries[x].addr);
  }

  // A helper of a decided operation goes on to release it.
  lemma HelperReleases(s: State, t: nat, k: KId, x: nat)
    requires Runs(s, t, HelpSnap(k)) && k in s.g.kops && s.g.kops[k].status != Undecided && Readable(s.g, k)
    requires x < |s.g.kops[k].entries|
    ensures Removable(s, k, s.g.kops[k].entries[x].addr)
  {
    var s1 := Next(s, t);
    NextRuns(s, t, HelpSnap(k), HelpStart(k, 1));
    var s2 := Next(s1, t);
    NextRuns(s1, t, HelpStart(k, 1), Settle(k, 1));
    var s3 := Next(s2, t);
    var f := Release(k, 1, 0, s.g.kops[k].status == Succeeded);
    NextRuns(s2, t, Settle(k, 1), f);
    ReleasesIt(s3, t, f, k, x);
    Later(s2, s3, k, s.g.kops[k].entries[x].addr);
    Later(s1, s2, k, s.g.kops[k].entries[x].addr);
    Later(s, s1, k, s.g.kops[k].entries[x].addr);
  }

  // Thread `u` is idle, or about to look at word `a`.
  ghost predicate MayRead(s: State, u: nat, a: int) {
    u < |s.stacks| && (s.stacks[u] == [] || (Top(s.stacks[u]).ReadWord? && Top(s.stacks[u]).a == a))
  }

  lemma ReaderReleases(s: State, u: nat, k: KId, a: int)
    requires Inv(s) && 0 <= a < |s.g.mem| && s.g.mem[a] == KTag(k) && Op(s.g, k).status != Undecided && Readable(s.g, k)
    requires u < |s.stacks| && s.stacks[u] != [] && Top(s.stacks[u]).ReadWord? && Top(s.stacks[u]).a == a
    ensures Removable(s, k, a)
  {
    TagKnown(s, k, a);
    var f := Top(s.stacks[u]);
    ReaderStays(s.g, u, f, k);
    NextRuns(s, u, f, HelpSnap(k));
    HelperReleases(Next(s, u), u, k, IndexOf(s.g.kops[k].entries, a));
    Later(s, Next(s, u), k, a);
  }

  lemma AnyoneReleases(s: State, u: nat, k: KId, a: int)
    requires GoodState(s) && 0 <= a < |s.g.mem| && s.g.mem[a] == KTag(k) && Op(s.g, k).status != Undecided
        && Readable(s.g, k)
    requires MayRead(s, u, a)
    ensures Removable(s, k, a)
  {
    if s.stacks[u] == [] {
      var s' := State(Tick(s.g), s.stacks[u := [ReadWord(a, false)]]);
      assert IdleStep(s, u, s');
      StepKeeps(s, s');
      ReaderReleases(s', u, k, a);
      Later(s, s', k, a);
    } else {
      ReaderReleases(s, u, k, a);
    }
  }

  // ---------------------------------------------------------------- stacks

  // Only these records wait for a record above them.
  predicate Waits(f: Frame) { f.Place? || f.LockNext? || f.ReadWord? }

  ghost predicate Stacked(s: State) {
    forall t, d :: 0 <= t < |s.stacks| && 0 <= d < |s.stacks[t]| - 1 ==> Waits(s.stacks[t][d])
  }

  lemma ActStacks(g: Shared, t: nat, f: Frame)
    ensures forall d :: 0 <= d < |Act(g, t, f).tops| - 1 ==> Waits(Act(g, t, f).tops[d])
    ensures |Act(g, t, f).tops| == 0 || |Act(g, t, f).tops| == 1 || Waits(f)
  {}

  lemma BusyStacked(s: State, t: nat, s': State)
    requires Stacked(s) && t < |s.stacks| && BusyStep(s, t, s')
    ensures Stacked(s')
  {
    var n := |s.stacks[t]| - 1;
    ActStacks(s.g, t, s.stacks[t][n]);
    forall u, d | 0 <= u < |s'.stacks| && 0 <= d < |s'.stacks[u]| - 1 ensures Waits(s'.stacks[u][d]) {
      if u == t && d >= n {
        assert s'.stacks[t][d] == Act(s.g, t, s.stacks[t][n]).tops[d - n];
      } else {
        assert s'.stacks[u][d] == s.stacks[u][d];
      }
    }
  }

  lemma IdleStacked(s: State, t: nat, s': State)
    requires Stacked(s) && t < |s.stacks| && IdleStep(s, t, s')
    ensures Stacked(s')
  {
    forall u, d | 0 <= u < |s'.stacks| && 0 <= d < |s'.stacks[u]| - 1 ensures Waits(s'.stacks[u][d]) {
      if u != t { assert s'.stacks[u][d] == s.stacks[u][d]; }
    }
  }

  lemma StepStacked(s: State, s': State)
    requires Stacked(s) && Step(s, s')
    ensures Stacked(s')
  {
    var t: nat :| t < |s.stacks| && (IdleStep(s, t, s') || BusyStep(s, t, s'));
    if BusyStep(s, t, s') { BusyStacked(s, t, s'); } else { IdleStacked(s, t, s'); }
  }

  lemma {:induction false} RunStacked(b: seq<State>, n: nat, i: nat)
    requires Run(b, n) && i < |b|
    ensures Stacked(b[i])
  {
    if i > 0 {
      RunStacked(b, n, i - 1);
      assert StepAt(b, i - 1);
      StepStacked(b[i - 1], b[i]);
    }
  }

  // ---------------------------------------------------------------- the exact condition

  lemma NotStuckRemovable(s: State, k: KId, a: int, u: nat)
    requires GoodState(s) && Stacked(s) && 0 <= a < |s.g.mem| && s.g.mem[a] == KTag(k) && Op(s.g, k).status != Undecided
    requires MayRead(s, u, a) && !Stuck(s, k, a)
    ensures Removable(s, k, a)
  {
    TagKnown(s, k, a);
    if Readable(s.g, k) {
      AnyoneReleases(s, u, k, a);
    } else {
      var x := IndexOf(s.g.kops[k].entries, a);
      var t: nat, d: nat :| t < |s.stacks| && d < |s.stacks[t]| && Removes(s.stacks[t][d], k, x);
      assert d == |s.stacks[t]| - 1;
      ReleasesIt(s, t, s.stacks[t][d], k, x);
    }
  }

  /**
   The tag of a decided operation stays in a word, in every continuation, exactly if the descriptor has
   moved on and no record is left that has still to release that word.  (Some thread must be free to read it.)
   */
  lemma StaysExactly(b: seq<State>, n: nat, i: nat, k: KId, a: int, u: nat)
    requires Run(b, n) && i < |b| && 0 <= a < |b[i].g.mem| && b[i].g.mem[a] == KTag(k)
        && Op(b[i].g, k).status != Undecided
    requires MayRead(b[i], u, a)
    ensures Stays(b[i], k, a) <==> Stuck(b[i], k, a)
  {
    RunKeeps(b, n, i);
    RunStacked(b, n, i);
    if Stuck(b[i], k, a) {
      forall c: seq<State> | Continues(c, b[i]) ensures Load(c[|c| - 1].g, a) == KTag(k) {
        StuckStays(c, b[i], k, a, |c| - 1);
      }
    } else {
      NotStuckRemovable(b[i], k, a, u);
    }
  }
}
