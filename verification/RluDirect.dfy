/**
 RLU: which direct reads are safe.  A section may read an object itself, rather than a copy in a log.
 The object is then left alone until the section ends, exactly if the thread that holds its lock, if any,
 is not between choosing an older version and publishing it.
 */
module RluDirect {
  import opened Rlu
  import opened RluInvariant
  import opened RluSafety
  import opened RluOwner
  import opened RluTheorems

  // Section `t` obtains object `o` itself.
  ghost predicate Takes(s: State, s': State, t: nat, o: nat) {
    && t < |s.th| && o < |s.lock|
    && match s.th[t].pc
       case In => s.lock[o] == Unlocked && s' == ReadLock(s, t, o)
       case Decide(o', log) => o' == o && log.w < |s.th| && !Published(s.th[log.w], s.th[t].local) && s' == Steal(s, t)
       case _ => false
  }

  predicate Published(w: Thread, local: nat) { w.wv.At? && w.wv.v <= local }

  // The holder of `o`'s lock has chosen a version that section `t` has seen, and not published it.
  predicate HolderPending(s: State, t: nat, o: nat) {
    && t < |s.th| && o < |s.lock| && s.lock[o].LockedBy? && s.lock[o].log.w < |s.th|
    && var w := s.th[s.lock[o].log.w]; w.pc.SyncStore? && w.pc.V <= s.th[t].local
  }

  // Thread `w`'s sync has reached the log that holds `o`, and is about to write `o` back or has just done so.
  // Being about to is meant to count: nothing will keep it from writing any more.
  predicate Overwrites(w: Thread, o: nat) { (w.pc.Back? && o in w.pc.todo) || (w.pc.Unlock? && w.pc.o == o) }

  predicate SameSection(s: State, s': State, t: nat) {
    t < |s.th| && t < |s'.th| && InSection(s.th[t].pc) && s'.th[t].run == s.th[t].run
  }

  // ---------------------------------------------------------------- what sections record

  lemma OutsideDirect(s: State, t: nat, s': State)
    requires Good(s) && StepBy(s, t, s') && |s'.th| == |s.th| && !InSection(s.th[t].pc)
    ensures s'.th[t].direct == {}
  {
    assert SelfAt(s, t);
    TodoInRange(s, t);
  }

  lemma SectionDirect(s: State, t: nat, s': State, o: nat)
    requires t < |s.th| == |s'.th| && s.th[t].pc.In? && SectionStep(s, t, s') && o in s'.th[t].direct
    ensures Takes(s, s', t, o) || (o in s.th[t].direct && s'.th[t].run == s.th[t].run)
  {}

  lemma OwnDirect(s: State, t: nat, s': State, o: nat)
    requires Good(s) && StepBy(s, t, s') && |s'.th| == |s.th| && o in s'.th[t].direct
    ensures Takes(s, s', t, o) || (o in s.th[t].direct && s'.th[t].run == s.th[t].run)
  {
    assert SelfAt(s, t);
    assert DirectAt(s, t);
    if s.th[t].pc.In? { SectionDirect(s, t, s', o); }
    else if !s.th[t].pc.Decide? { OutsideDirect(s, t, s'); }
  }

  lemma StepDirect(s: State, t: nat, s': State, o: nat)
    requires Good(s) && Step(s, s') && t < |s'.th| && o in s'.th[t].direct
    ensures t < |s.th| && (Takes(s, s', t, o) || (o in s.th[t].direct && s'.th[t].run == s.th[t].run))
  {
    var u: nat :| StepBy(s, u, s');
    StepKeeps(s, s');
    if u == t { OwnDirect(s, t, s', o); } else { OthersSame(s, u, s', t); }
  }

  // An object that a section has obtained itself was taken in that section.
  lemma {:induction false} DirectWasTaken(b: seq<State>, j: nat, t: nat, o: nat) returns (i: nat)
    requires Run(b) && j < |b| && t < |b[j].th| && o in b[j].th[t].direct
    ensures i < j && Takes(b[i], b[i + 1], t, o) && SameSection(b[i], b[j], t)
  {
    RunKeeps(b, j - 1);
    assert StepAt(b, j - 1);
    StepDirect(b[j - 1], t, b[j], o);
    if Takes(b[j - 1], b[j], t, o) { i := j - 1; } else { i := DirectWasTaken(b, j - 1, t, o); }
  }

  // ---------------------------------------------------------------- the safe reads

  // What a step does to versions and locks.
  lemma SectionChanges(s: State, u: nat, s': State)
    requires Good(s) && StepBy(s, u, s') && |s'.th| == |s.th| && InSection(s.th[u].pc)
    ensures !Versioned(s'.th[u].pc) && |s'.lock| == |s.lock|
    ensures forall o :: 0 <= o < |s.lock| && s'.lock[o] != s.lock[o] ==> s'.lock[o].LockedBy? && s'.lock[o].log.w == u
  {
    assert SelfAt(s, u);
    if s.th[u].pc.In? { SectionLocks(s, u, s'); }
  }

  lemma SectionLocks(s: State, u: nat, s': State)
    requires u < |s.th| == |s'.th| && s.th[u].pc.In? && SectionStep(s, u, s')
    ensures !Versioned(s'.th[u].pc) && |s'.lock| == |s.lock|
    ensures forall o :: 0 <= o < |s.lock| && s'.lock[o] != s.lock[o] ==> s'.lock[o].LockedBy? && s'.lock[o].log.w == u
  {
    if p: nat :| p < |s.lock| && p < |s.actual| && s' == TryLock(s, u, p) { TryLockLocks(s, u, p); }
  }

  lemma TryLockLocks(s: State, u: nat, p: nat)
    requires u < |s.th| && s.th[u].pc.In? && p < |s.lock| && p < |s.actual|
    ensures var s' := TryLock(s, u, p);
        && |s'.th| == |s.th| && !Versioned(s'.th[u].pc) && |s'.lock| == |s.lock|
        && forall o :: 0 <= o < |s.lock| && s'.lock[o] != s.lock[o] ==> s'.lock[o] == LockedBy(Ref(u, s.th[u].tail))
  {}

  lemma OutsideChanges(s: State, u: nat, s': State)
    requires Good(s) && StepBy(s, u, s') && |s'.th| == |s.th| && !InSection(s.th[u].pc)
    ensures Versioned(s'.th[u].pc) ==> s'.th[u].pc.V == if Versioned(s.th[u].pc) then s.th[u].pc.V else s.gver + 1
    ensures |s'.lock| == |s.lock| && forall o :: 0 <= o < |s.lock| && s'.lock[o] != s.lock[o] ==> s'.lock[o] == Unlocked
  {
    assert SelfAt(s, u);
    TodoInRange(s, u);
  }

  lemma VersionStep(s: State, u: nat, s': State)
    requires Good(s) && StepBy(s, u, s') && |s'.th| == |s.th|
    ensures Versioned(s'.th[u].pc) ==> s'.th[u].pc.V == if Versioned(s.th[u].pc) then s.th[u].pc.V else s.gver + 1
  {
    if InSection(s.th[u].pc) { SectionChanges(s, u, s'); } else { OutsideChanges(s, u, s'); }
  }

  lemma LockStep(s: State, u: nat, s': State, o: nat)
    requires Good(s) && StepBy(s, u, s') && |s'.th| == |s.th| && o < |s.lock|
    ensures |s'.lock| == |s.lock|
    ensures s'.lock[o] == s.lock[o] || s'.lock[o] == Unlocked
        || (s'.lock[o].LockedBy? && s'.lock[o].log.w == u && !Versioned(s'.th[u].pc))
  {
    if InSection(s.th[u].pc) { SectionChanges(s, u, s'); } else { OutsideChanges(s, u, s'); }
  }

  lemma OwnLocal(s: State, t: nat, s': State)
    requires Good(s) && StepBy(s, t, s') && |s'.th| == |s.th| && InSection(s.th[t].pc) && s'.th[t].run == s.th[t].run
    ensures s'.th[t].local == s.th[t].local && InSection(s'.th[t].pc)
  {
    assert SelfAt(s, t);
  }

  lemma SectionStays(s: State, t: nat, s': State)
    requires Good(s) && Step(s, s') && SameSection(s, s', t)
    ensures s'.th[t].local == s.th[t].local && InSection(s'.th[t].pc)
  {
    var u: nat :| StepBy(s, u, s');
    StepKeeps(s, s');
    if u == t { OwnLocal(s, t, s'); } else { OthersSame(s, u, s', t); }
  }

  // Once the holder of `o`'s lock would wait for a section, it does so until the section ends.
  lemma AheadStep(s: State, t: nat, s': State, o: nat)
    requires Good(s) && Step(s, s') && SameSection(s, s', t) && o < |s.lock| && Ahead(s.th, s.lock[o], s.th[t])
    ensures o < |s'.lock| && Ahead(s'.th, s'.lock[o], s'.th[t])
  {
    var u: nat :| StepBy(s, u, s');
    StepKeeps(s, s');
    SectionStays(s, t, s');
    VersionStep(s, u, s');
    LockStep(s, u, s', o);
    assert SelfAt(s, t);
    if s'.lock[o].LockedBy? && s'.lock[o].log.w < |s.th| && s'.lock[o].log.w != u {
      OthersSame(s, u, s', s'.lock[o].log.w);
    }
  }

  lemma TakenAhead(s: State, s': State, t: nat, o: nat)
    requires Good(s) && Takes(s, s', t, o) && !HolderPending(s, t, o)
    ensures Ahead(s.th, s.lock[o], s.th[t])
  {
    assert SelfAt(s, t) && DirectAt(s, t);
    if s.lock[o].LockedBy? && s.lock[o].log.w < |s.th| { assert SelfAt(s, s.lock[o].log.w); }
  }

  // While it writes back `o`, a thread holds its lock, and no section with an older version runs.
  lemma NotAhead(s: State, t: nat, w: nat, o: nat)
    requires Good(s) && t < |s.th| && w < |s.th| && w != t && InSection(s.th[t].pc) && o < |s.lock|
        && Overwrites(s.th[w], o)
    ensures !Ahead(s.th, s.lock[o], s.th[t])
  {
    assert SelfAt(s, t) && SelfAt(s, w) && OwnAt(s, w) && PairAt(s, t, w);
    assert Live(s.th[w], s.th[w].pc.c, o);
  }

  lemma {:induction false} AheadStays(b: seq<State>, i: nat, j: nat, t: nat, o: nat)
    requires Run(b) && i <= j < |b| && SameSection(b[i], b[j], t) && o < |b[i].lock|
    requires Ahead(b[i].th, b[i].lock[o], b[i].th[t])
    ensures InSection(b[j].th[t].pc) && o < |b[j].lock| && Ahead(b[j].th, b[j].lock[o], b[j].th[t])
  {
    RunKeeps(b, i);
    if i < j {
      RunGrows(b, i, j - 1, t);
      RunGrows(b, j - 1, j, t);
      AheadStays(b, i, j - 1, t, o);
      RunKeeps(b, j - 1);
      assert StepAt(b, j - 1);
      AheadStep(b[j - 1], t, b[j], o);
      SectionStays(b[j - 1], t, b[j]);
    }
  }

  /**
   An object that a section obtained itself is written back by no other thread until the section ends,
   unless the holder of the lock was pending at that instant.
   */
  lemma DirectReadKept(b: seq<State>, i: nat, j: nat, t: nat, w: nat, o: nat)
    requires Run(b) && i + 1 < |b| && Takes(b[i], b[i + 1], t, o) && !HolderPending(b[i], t, o)
    requires i < j < |b| && SameSection(b[i], b[j], t) && w < |b[j].th| && w != t
    ensures !Overwrites(b[j].th[w], o)
  {
    RunKeeps(b, i);
    RunKeeps(b, j);
    TakenAhead(b[i], b[i + 1], t, o);
    AheadStays(b, i, j, t, o);
    if Overwrites(b[j].th[w], o) { NotAhead(b[j], t, w, o); }
  }

  /**
   Put backwards: whatever a running section has obtained itself and another thread writes back, it took from
   a pending holder.
   */
  lemma OverwrittenWasPending(b: seq<State>, j: nat, t: nat, w: nat, o: nat) returns (i: nat)
    requires Run(b) && j < |b| && t < |b[j].th| && w < |b[j].th| && w != t
    requires o in b[j].th[t].direct && Overwrites(b[j].th[w], o)
    ensures i < j && Takes(b[i], b[i + 1], t, o) && SameSection(b[i], b[j], t) && HolderPending(b[i], t, o)
  {
    i := DirectWasTaken(b, j, t, o);
    if !HolderPending(b[i], t, o) { DirectReadKept(b, i, j, t, w, o); }
  }

  // ---------------------------------------------------------------- the others

  lemma PendingStep(s: State, t: nat, s': State, w: nat, V: nat)
    requires Good(s) && Step(s, s') && SameSection(s, s', t) && w < |s.th| == |s'.th|
    requires Versioned(s.th[w].pc) && s.th[w].pc.V == V && V <= s.th[t].local && Versioned(s'.th[w].pc)
    ensures s'.th[w].pc.V == V && V <= s'.th[t].local
  {
    var u: nat :| StepBy(s, u, s');
    SectionStays(s, t, s');
    if u == w { VersionStep(s, u, s'); } else { OthersSame(s, u, s', w); }
  }

  /**
   A pending holder's sync never waits for that section: it keeps its version, and every check of the section
   passes.
   */
  lemma {:induction false} PendingNeverWaits(b: seq<State>, i: nat, j: nat, t: nat, w: nat, o: nat, s': State)
    requires Run(b) && i <= j < |b| && HolderPending(b[i], t, o) && w == b[i].lock[o].log.w
        && SameSection(b[i], b[j], t)
    requires forall q :: i <= q <= j ==> w < |b[q].th| && Versioned(b[q].th[w].pc)
    ensures w < |b[j].th| && Versioned(b[j].th[w].pc) && b[j].th[w].pc.V == b[i].th[w].pc.V <= b[j].th[t].local
    ensures var pc := b[j].th[w].pc; pc.WaitVersion? && pc.k == t && StepBy(b[j], w, s') ==>
              s'.th[w].pc == WaitRun(pc.V, t + 1, pc.waits)
  {
    RunKeeps(b, j);
    RunKeeps(b, i);
    if i < j {
      RunGrows(b, i, j - 1, t);
      RunGrows(b, j - 1, j, t);
      PendingNeverWaits(b, i, j - 1, t, w, o, b[j]);
      RunKeeps(b, j - 1);
      StaysInside(b, i, j - 1, t);
      assert StepAt(b, j - 1);
      PendingStep(b[j - 1], t, b[j], w, b[i].th[w].pc.V);
    }
    assert SelfAt(b[j], w);
  }

  lemma {:induction false} StaysInside(b: seq<State>, i: nat, j: nat, t: nat)
    requires Run(b) && i <= j < |b| && SameSection(b[i], b[j], t)
    ensures InSection(b[j].th[t].pc) && b[j].th[t].local == b[i].th[t].local
  {
    if i < j {
      RunKeeps(b, i);
      RunGrows(b, i, j - 1, t);
      RunGrows(b, j - 1, j, t);
      StaysInside(b, i, j - 1, t);
      RunKeeps(b, j - 1);
      assert StepAt(b, j - 1);
      SectionStays(b[j - 1], t, b[j]);
    }
  }
}
