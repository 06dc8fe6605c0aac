/**
 RLU: what holds over whole runs.
 */
module RluTheorems {
  import opened Rlu
  import opened RluInvariant
  import opened RluSafety
  import opened RluRuns
  import opened RluOwner

  ghost predicate Good(s: State) { Inv(s) && OwnsInv(s) }

  lemma SectionStepKeeps(s: State, t: nat, s': State)
    requires Good(s) && t < |s.th| && s.th[t].pc.In? && SectionStep(s, t, s')
    ensures Good(s') && |s'.th| == |s.th|
  {
    assert SelfAt(s, t);
    if s' == Set(s, t, Leave(s.th[t])) {
      LeaveKeeps(s, t);
      SameRingOwns(s, t, s');
    } else if o: nat :| o < |s.lock| && o < |s.actual| && s' == ReadLock(s, t, o) {
      ReadLockKeeps(s, t, o);
      SameRingOwns(s, t, s');
    } else if o: nat :| o < |s.lock| && o < |s.actual| && s' == TryLock(s, t, o) {
      LockStepKeeps(s, t, o);
    } else {
      var o: nat, v :| o < |s.lock| && s.lock[o] == LockedBy(Ref(t, s.th[t].tail)) && s' == WriteCopy(s, t, o, v);
      CopyStepKeeps(s, t, o, v);
    }
  }

  lemma LockStepKeeps(s: State, t: nat, o: nat)
    requires Good(s) && t < |s.th| && s.th[t].pc.In? && o < |s.lock| && o < |s.actual|
    ensures Good(TryLock(s, t, o)) && |TryLock(s, t, o).th| == |s.th|
  {
    assert SelfAt(s, t);
    TryLockKeeps(s, t, o);
    if s.lock[o] == Unlocked { WriteOwns(s, t, TryLock(s, t, o), o, s.actual[o]); }
  }

  lemma CopyStepKeeps(s: State, t: nat, o: nat, v: int)
    requires Good(s) && t < |s.th| && s.th[t].pc.In? && o < |s.lock| && s.lock[o] == LockedBy(Ref(t, s.th[t].tail))
    ensures Good(WriteCopy(s, t, o, v)) && |WriteCopy(s, t, o, v).th| == |s.th|
  {
    assert SelfAt(s, t) && LockAt(s, o);
    WriteCopyKeeps(s, t, o, v);
    WriteOwns(s, t, WriteCopy(s, t, o, v), o, v);
  }

  lemma WaitStepKeeps(s: State, t: nat, s': State)
    requires Good(s) && t < |s.th| && StepBy(s, t, s')
    requires s.th[t].pc.Scan? || s.th[t].pc.WaitRun? || s.th[t].pc.WaitVersion?
    ensures Good(s') && |s'.th| == |s.th|
  {
    assert SelfAt(s, t);
    match s.th[t].pc
    case Scan(_, _) => ScanKeeps(s, t); SameRingOwns(s, t, s');
    case WaitRun(_, _, _) => CheckRunKeeps(s, t); SameRingOwns(s, t, s');
    case WaitVersion(_, _, _) => CheckVersionKeeps(s, t); SameRingOwns(s, t, s');
  }

  // The objects that a sync writes back exist.
  lemma TodoInRange(s: State, t: nat)
    requires Good(s) && t < |s.th|
    ensures s.th[t].pc.Back? ==> forall o :: o in s.th[t].pc.todo ==> o < |s.actual|
    ensures s.th[t].pc.Unlock? ==> s.th[t].pc.o < |s.lock|
  {
    assert SelfAt(s, t) && OwnAt(s, t);
    var x := s.th[t];
    if x.pc.Back? {
      forall o | o in x.pc.todo ensures o < |s.actual| { assert Live(x, x.pc.c, o); }
    }
    if x.pc.Unlock? { assert Live(x, x.pc.c, x.pc.o); }
  }

  lemma WriteBackStepKeeps(s: State, t: nat, s': State)
    requires Good(s) && t < |s.th| && StepBy(s, t, s')
    requires s.th[t].pc.Reset? || s.th[t].pc.Back? || s.th[t].pc.Unlock?
    ensures Good(s') && |s'.th| == |s.th|
  {
    assert SelfAt(s, t);
    TodoInRange(s, t);
    var x := s.th[t];
    match x.pc
    case Reset(_, c) =>
      if c < x.wb { ResetOneKeeps(s, t); } else { ResetEndKeeps(s, t); }
      ResetOwns(s, t);
    case Back(_, c, todo) =>
      if todo == {} {
        BackNextKeeps(s, t);
        BackOwns(s, t);
      } else {
        var o :| o in todo && (o < |s.actual| ==> s' == WriteBack(s, t, o));
        WriteBackKeeps(s, t, o);
        WriteBackOwns(s, t, o);
      }
    case Unlock(_, c, _, o) =>
      UnlockKeeps(s, t);
      UnlockOwns(s, t);
  }

  lemma StepKeeps(s: State, s': State)
    requires Good(s) && Step(s, s')
    ensures Good(s') && |s'.th| == |s.th|
  {
    var t: nat :| StepBy(s, t, s');
    var pc := s.th[t].pc;
    if pc.Scan? || pc.WaitRun? || pc.WaitVersion? { WaitStepKeeps(s, t, s'); }
    else if pc.Reset? || pc.Back? || pc.Unlock? { WriteBackStepKeeps(s, t, s'); }
    else { OtherStepKeeps(s, t, s'); }
  }

  lemma OtherStepKeeps(s: State, t: nat, s': State)
    requires Good(s) && t < |s.th| && StepBy(s, t, s')
    requires var pc := s.th[t].pc;
      !(pc.Scan? || pc.WaitRun? || pc.WaitVersion? || pc.Reset? || pc.Back? || pc.Unlock?)
    ensures Good(s') && |s'.th| == |s.th|
  {
    var x := s.th[t];
    assert SelfAt(s, t);
    match x.pc
    case Idle =>
      if s' == Set(s, t, Enter(x)) { EnterKeeps(s, t); } else { SyncStepKeeps(s, t); }
      SameRingOwns(s, t, s');
    case ReadVersion => EnterKeeps(s, t); SameRingOwns(s, t, s');
    case StoreVersion(_) => StoreLocalKeeps(s, t); SameRingOwns(s, t, s');
    case In => SectionStepKeeps(s, t, s');
    case Decide(_, _) => StealKeeps(s, t); SameRingOwns(s, t, s');
    case Commit => CommitKeeps(s, t); CommitOwns(s, t);
    case _ => SyncStepKeeps(s, t); SameRingOwns(s, t, s');
  }

  lemma InitGood(s: State)
    requires InitState(s)
    ensures Good(s)
  {
    forall t: nat | t < |s.th| ensures SelfAt(s, t) && DirectAt(s, t) && OwnAt(s, t) {
      forall c: nat ensures Empty(s.th[t], c) {}
    }
    forall i: nat, j: nat | i < |s.th| && j < |s.th| ensures PairAt(s, i, j) {}
    forall o: nat | o < |s.lock| ensures LockAt(s, o) {}
  }

  /** The invariant holds in every state of every run, for any number of threads and any schedule. */
  lemma {:induction false} RunKeeps(b: seq<State>, i: nat)
    requires Run(b) && i < |b|
    ensures Good(b[i]) && |b[i].th| == |b[0].th|
  {
    if i == 0 {
      InitGood(b[0]);
    } else {
      RunKeeps(b, i - 1);
      assert StepAt(b, i - 1);
      StepKeeps(b[i - 1], b[i]);
    }
  }

  // ---------------------------------------------------------------- log reuse

  lemma OthersSame(s: State, u: nat, s': State, t: nat)
    requires Good(s) && StepBy(s, u, s') && t < |s.th| && t != u
    ensures |s'.th| == |s.th| && s'.th[t] == s.th[t]
  {
    assert SelfAt(s, u);
    TodoInRange(s, u);
  }

  lemma OutsideStep(s: State, t: nat, s': State)
    requires Good(s) && StepBy(s, t, s') && !InSection(s.th[t].pc)
    ensures |s'.th| == |s.th| && s.th[t].run <= s'.th[t].run
  {
    assert SelfAt(s, t);
    TodoInRange(s, t);
  }

  lemma InsideStep(s: State, t: nat, s': State)
    requires Good(s) && StepBy(s, t, s') && InSection(s.th[t].pc)
    ensures |s'.th| == |s.th| && s.th[t].run <= s'.th[t].run
  {
    assert SelfAt(s, t);
  }

  lemma OwnRun(s: State, t: nat, s': State)
    requires Good(s) && StepBy(s, t, s')
    ensures |s'.th| == |s.th| && s.th[t].run <= s'.th[t].run
  {
    if InSection(s.th[t].pc) { InsideStep(s, t, s'); } else { OutsideStep(s, t, s'); }
  }

  // A section keeps what it stole until it leaves.
  lemma OwnStolen(s: State, t: nat, s': State, e: Stolen)
    requires StepBy(s, t, s') && SelfAt(s, t) && e in s.th[t].stolen && |s'.th| == |s.th|
    ensures s'.th[t].run == s.th[t].run ==> e in s'.th[t].stolen
  {
    assert InSection(s.th[t].pc);
    if s.th[t].pc.In? { SectionStolen(s, t, s', e); }
  }

  lemma SectionStolen(s: State, t: nat, s': State, e: Stolen)
    requires t < |s.th| == |s'.th| && s.th[t].pc.In? && SectionStep(s, t, s') && e in s.th[t].stolen
    ensures s'.th[t].run == s.th[t].run ==> e in s'.th[t].stolen
  {}

  lemma StolenStep(s: State, s': State, t: nat, e: Stolen)
    requires Good(s) && Step(s, s') && t < |s.th| == |s'.th| && e in s.th[t].stolen
    ensures s'.th[t].run == s.th[t].run ==> e in s'.th[t].stolen
  {
    var u: nat :| StepBy(s, u, s');
    assert SelfAt(s, t);
    if u == t { OwnStolen(s, t, s', e); } else { OthersSame(s, u, s', t); }
  }

  lemma RunStep(s: State, s': State, t: nat)
    requires Good(s) && Step(s, s') && t < |s.th|
    ensures |s'.th| == |s.th| && s.th[t].run <= s'.th[t].run
  {
    var u: nat :| StepBy(s, u, s');
    if u == t { OwnRun(s, t, s'); } else { OthersSame(s, u, s', t); }
  }

  lemma {:induction false} RunGrows(b: seq<State>, i: nat, j: nat, t: nat)
    requires Run(b) && i <= j < |b| && t < |b[0].th|
    ensures t < |b[i].th| && t < |b[j].th| && b[i].th[t].run <= b[j].th[t].run
  {
    RunKeeps(b, i);
    if i < j {
      RunGrows(b, i, j - 1, t);
      RunKeeps(b, j - 1);
      assert StepAt(b, j - 1);
      RunStep(b[j - 1], b[j], t);
    }
  }

  lemma {:induction false} StolenPersists(b: seq<State>, i: nat, j: nat, t: nat, e: Stolen)
    requires Run(b) && i <= j < |b| && t < |b[0].th| && t < |b[i].th| && e in b[i].th[t].stolen
    requires t < |b[j].th| && b[j].th[t].run == b[i].th[t].run
    ensures e in b[j].th[t].stolen
  {
    if i < j {
      RunGrows(b, i, j - 1, t);
      RunGrows(b, j - 1, j, t);
      StolenPersists(b, i, j - 1, t, e);
      RunKeeps(b, j - 1);
      RunKeeps(b, j);
      assert StepAt(b, j - 1);
      StolenStep(b[j - 1], b[j], t, e);
    }
  }

  /**
   Log reuse: the copy that a section stole stays in the writer's log, unchanged, until that section
   ends; until then the log is committed and has not been reset.
   */
  lemma StolenCopyStays(b: seq<State>, i: nat, j: nat, t: nat, e: Stolen)
    requires Run(b) && i <= j < |b| && t < |b[0].th| && t < |b[i].th| && e in b[i].th[t].stolen
    requires t < |b[j].th| && b[j].th[t].run == b[i].th[t].run
    ensures e.log.w < |b[j].th|
    ensures var w := b[j].th[e.log.w];
            w.head <= e.log.c < w.tail && e.obj in LogOf(w, e.log.c) && LogOf(w, e.log.c)[e.obj] == e.copy
  {
    StolenPersists(b, i, j, t, e);
    RunKeeps(b, j);
    assert SelfAt(b[j], t);
    assert e.log in b[j].th[t].touched && e.log == Ref(e.log.w, e.log.c);
    assert PairAt(b[j], t, e.log.w);
    assert TouchOk(b[j].th[t], b[j].th[e.log.w], e.log.c) && StolenOk(b[j].th[e.log.w], e);
  }

  /** A sync resets a log only when no running section has even seen a pointer into it. */
  lemma ResetUnseen(b: seq<State>, i: nat, w: nat, t: nat)
    requires Run(b) && i < |b| && w < |b[i].th| && t < |b[i].th|
    requires b[i].th[w].pc.Reset? && b[i].th[w].pc.c < b[i].th[w].wb
    ensures Ref(w, b[i].th[w].pc.c) !in b[i].th[t].touched
  {
    RunKeeps(b, i);
    assert SelfAt(b[i], t) && SelfAt(b[i], w);
    if t != w {
      assert PairAt(b[i], t, w);
      var c := b[i].th[w].pc.c;
      assert Ref(w, c) in b[i].th[t].touched ==> TouchOk(b[i].th[t], b[i].th[w], c);
    }
  }

  /**
   The ring never overflows: a section that has not written yet finds its log empty, and its slot is no kept
   log's.
   */
  lemma OwnLogFresh(b: seq<State>, i: nat, t: nat, c: nat)
    requires Run(b) && i < |b| && t < |b[i].th| && !Syncing(b[i].th[t].pc)
    ensures var x := b[i].th[t];
            && x.tail - x.head < RLU_MAX_WRITE_SETS
            && (!x.isWrite ==> LogOf(x, x.tail) == map[])
            && (x.head <= c < x.tail ==> Slot(c) != Slot(x.tail))
  {
    RunKeeps(b, i);
    assert SelfAt(b[i], t) && OwnAt(b[i], t);
    var x := b[i].th[t];
    if x.head <= c < x.tail { SlotsDiffer(c, x.tail); }
    assert !x.isWrite ==> Empty(x, x.tail);
  }
}
