/**
 RLU: what the objects hold.  The value of an object is the copy in the log that it is locked into, once that log is
 committed, and otherwise what the object itself holds. Only commits change values; writing back and unlocking
 does not.
 */
module RluValue {
  import opened Rlu
  import opened RluInvariant
  import opened RluSafety
  import opened RluRuns
  import opened RluOwner
  import opened RluTheorems

  // The copy of `o` in a log.
  function Copy(s: State, l: Ref, o: nat): int {
    if l.w < |s.th| && o in LogOf(s.th[l.w], l.c) then LogOf(s.th[l.w], l.c)[o] else 0
  }

  predicate Committed(s: State, l: Ref) { l.w < |s.th| && l.c < s.th[l.w].tail }

  function Value(s: State, o: nat): int
    requires o < |s.lock| && o < |s.actual|
  {
    if s.lock[o].LockedBy? && Committed(s, s.lock[o].log) then Copy(s, s.lock[o].log, o) else s.actual[o]
  }

  // An object that is about to be unlocked holds its copy.
  predicate BackOk(s: State, x: Thread) {
    x.pc.Unlock? ==> x.pc.o < |s.actual| && x.pc.o in LogOf(x, x.pc.c) && s.actual[x.pc.o] == LogOf(x, x.pc.c)[x.pc.o]
  }

  ghost predicate BackAt(s: State, t: nat) requires t < |s.th| { BackOk(s, s.th[t]) }
  ghost predicate BacksInv(s: State) { forall t: nat {:trigger BackAt(s, t)} :: t < |s.th| ==> BackAt(s, t) }

  ghost predicate Sound(s: State) { Good(s) && BacksInv(s) }

  // ---------------------------------------------------------------- steps that change no value

  ghost predicate SameValues(s: State, s': State) {
    && |s'.lock| == |s.lock| == |s.actual| == |s'.actual|
    && forall o: nat :: o < |s.lock| ==> Value(s', o) == Value(s, o)
  }

  // `o` is locked into a committed log of thread `t`.
  predicate InLog(s: State, t: nat, o: nat) {
    t < |s.th| && o < |s.lock| && s.lock[o].LockedBy? && s.lock[o].log.w == t && s.lock[o].log.c < s.th[t].tail
  }

  // Thread `t` keeps the logs that objects are locked into, and which of them are committed.
  lemma QuietValues(s: State, t: nat, s': State)
    requires Sound(s) && t < |s.th| == |s'.th| && s'.th == s.th[t := s'.th[t]]
    requires s'.lock == s.lock && s'.actual == s.actual && s'.th[t].tail == s.th[t].tail
    requires forall o: nat :: InLog(s, t, o) ==> LogOf(s'.th[t], s.lock[o].log.c) == LogOf(s.th[t], s.lock[o].log.c)
    requires BackOk(s', s'.th[t])
    ensures SameValues(s, s') && BacksInv(s')
  {
    forall u: nat | u < |s'.th| ensures BackAt(s', u) { assert BackAt(s, u); }
  }

  lemma SectionValues(s: State, t: nat, s': State)
    requires Sound(s) && t < |s.th| && s.th[t].pc.In? && SectionStep(s, t, s')
    ensures SameValues(s, s') && BacksInv(s')
  {
    assert SelfAt(s, t);
    if s' == Set(s, t, Leave(s.th[t])) {
      QuietValues(s, t, s');
    } else if o: nat :| o < |s.lock| && o < |s.actual| && s' == ReadLock(s, t, o) {
      QuietValues(s, t, s');
    } else if o: nat :| o < |s.lock| && o < |s.actual| && s' == TryLock(s, t, o) {
      LockingValues(s, t, o);
    } else {
      var o: nat, v :| o < |s.lock| && s.lock[o] == LockedBy(Ref(t, s.th[t].tail)) && s' == WriteCopy(s, t, o, v);
      CopyingValues(s, t, o, v);
    }
  }

  // The current log's slot is no committed log's.
  lemma CurrentApart(s: State, t: nat, m: map<nat, int>, x: Thread)
    requires Sound(s) && t < |s.th| && s.th[t].pc.In? && x.logs == s.th[t].logs
    ensures forall o: nat :: InLog(s, t, o) ==>
              LogOf(PutLog(x, s.th[t].tail, m), s.lock[o].log.c) == LogOf(s.th[t], s.lock[o].log.c)
  {
    assert SelfAt(s, t);
    forall o: nat | InLog(s, t, o)
      ensures LogOf(PutLog(x, s.th[t].tail, m), s.lock[o].log.c) == LogOf(s.th[t], s.lock[o].log.c)
    {
      assert LockAt(s, o);
      SlotsDiffer(s.lock[o].log.c, s.th[t].tail);
      PutSame(x, s.th[t].tail, m, s.lock[o].log.c);
    }
  }

  lemma CopyingValues(s: State, t: nat, o: nat, v: int)
    requires Sound(s) && t < |s.th| && s.th[t].pc.In? && o < |s.lock| && s.lock[o] == LockedBy(Ref(t, s.th[t].tail))
    ensures SameValues(s, WriteCopy(s, t, o, v)) && BacksInv(WriteCopy(s, t, o, v))
  {
    var x := s.th[t];
    CurrentApart(s, t, LogOf(x, x.tail)[o := v], x);
    QuietValues(s, t, WriteCopy(s, t, o, v));
  }

  lemma LockingValues(s: State, t: nat, o: nat)
    requires Sound(s) && t < |s.th| && s.th[t].pc.In? && o < |s.lock| && o < |s.actual|
    ensures SameValues(s, TryLock(s, t, o)) && BacksInv(TryLock(s, t, o))
  {
    var s' := TryLock(s, t, o);
    var x := s.th[t];
    if s.lock[o] == Unlocked {
      CurrentApart(s, t, LogOf(x, x.tail)[o := s.actual[o]], x.(isWrite := true));
      QuietValues(s, t, s'.(lock := s.lock));
      forall u: nat | u < |s'.th| ensures BackAt(s', u) { assert BackAt(s'.(lock := s.lock), u); }
    } else {
      assert s' == s;
    }
  }

  lemma ResetValues(s: State, t: nat)
    requires Sound(s) && t < |s.th| && s.th[t].pc.Reset?
    ensures SameValues(s, ResetNext(s, t)) && BacksInv(ResetNext(s, t))
  {
    var x := s.th[t];
    assert SelfAt(s, t);
    forall o: nat | x.pc.c < x.wb && InLog(s, t, o)
      ensures LogOf(PutLog(x, x.pc.c, map[]), s.lock[o].log.c) == LogOf(x, s.lock[o].log.c)
    {
      assert LockAt(s, o);
      ResetOther(x, s.maxSets, s.lock[o].log.c);
    }
    QuietValues(s, t, ResetNext(s, t));
  }

  // ---------------------------------------------------------------- writing back

  lemma WriteBackValues(s: State, t: nat, o: nat)
    requires Sound(s) && t < |s.th| && s.th[t].pc.Back? && o in s.th[t].pc.todo && o < |s.actual|
    ensures SameValues(s, WriteBack(s, t, o)) && BacksInv(WriteBack(s, t, o))
  {
    var s', x := WriteBack(s, t, o), s.th[t];
    assert SelfAt(s, t) && OwnAt(s, t);
    assert Live(x, x.pc.c, o);
    assert BackAt(s', t);
    forall u: nat | u < |s'.th| ensures BackAt(s', u) {
      assert BackAt(s, u);
      if u != t && s.th[u].pc.Unlock? { UnlockerHolds(s, u); }
    }
  }

  // The object that a thread is about to unlock is locked into the log that it writes back.
  lemma UnlockerHolds(s: State, u: nat)
    requires Good(s) && u < |s.th| && s.th[u].pc.Unlock?
    ensures s.th[u].pc.o < |s.lock| && s.lock[s.th[u].pc.o] == LockedBy(Ref(u, s.th[u].pc.c))
    ensures s.th[u].pc.c < s.th[u].tail
  {
    assert SelfAt(s, u) && OwnAt(s, u);
    assert Live(s.th[u], s.th[u].pc.c, s.th[u].pc.o);
  }

  lemma UnlockValues(s: State, t: nat)
    requires Sound(s) && t < |s.th| && s.th[t].pc.Unlock? && s.th[t].pc.o < |s.lock|
    ensures SameValues(s, DoUnlock(s, t)) && BacksInv(DoUnlock(s, t))
  {
    var s' := DoUnlock(s, t);
    UnlockerHolds(s, t);
    assert BackAt(s, t);
    forall u: nat | u < |s'.th| ensures BackAt(s', u) { assert BackAt(s, u); }
  }

  // ---------------------------------------------------------------- commits

  // Thread `t` commits its log.
  predicate Commits(s: State, t: nat, s': State) { t < |s.th| && s.th[t].pc.Commit? && s' == DoCommit(s, t) }

  // The objects locked into the log take the values of its copies, and no others change.
  ghost predicate Takes(s: State, t: nat, s': State) {
    && t < |s.th| && |s'.lock| == |s.lock| == |s.actual| == |s'.actual|
    && forall o: nat :: o < |s.lock| ==>
         Value(s', o) == if s.lock[o] == LockedBy(Ref(t, s.th[t].tail)) then Copy(s, Ref(t, s.th[t].tail), o)
                         else Value(s, o)
  }

  lemma CommitTakes(s: State, t: nat, s': State)
    requires Sound(s) && Commits(s, t, s')
    ensures Takes(s, t, s') && BacksInv(s')
  {
    assert SelfAt(s, t);
    forall u: nat | u < |s'.th| ensures BackAt(s', u) { assert BackAt(s, u); }
    forall o: nat | o < |s.lock|
      ensures Value(s', o) == if s.lock[o] == LockedBy(Ref(t, s.th[t].tail)) then Copy(s, Ref(t, s.th[t].tail), o)
                              else Value(s, o)
    {
      assert LockAt(s, o);
      if s.lock[o].LockedBy? { assert Copy(s', s.lock[o].log, o) == Copy(s, s.lock[o].log, o); }
    }
  }

  // ---------------------------------------------------------------- every step

  lemma OtherValues(s: State, t: nat, s': State)
    requires Sound(s) && t < |s.th| && StepBy(s, t, s')
    requires var pc := s.th[t].pc; !pc.In? && !pc.Commit? && !pc.Reset? && !pc.Back? && !pc.Unlock?
    ensures SameValues(s, s') && BacksInv(s')
  {
    assert SelfAt(s, t);
    QuietValues(s, t, s');
  }

  lemma StepValues(s: State, t: nat, s': State)
    requires Sound(s) && StepBy(s, t, s')
    ensures BacksInv(s') && if s.th[t].pc.Commit? then Commits(s, t, s') && Takes(s, t, s') else SameValues(s, s')
  {
    var x := s.th[t];
    TodoInRange(s, t);
    match x.pc
    case In => SectionValues(s, t, s');
    case Commit => CommitTakes(s, t, s');
    case Reset(_, _) => ResetValues(s, t);
    case Back(_, _, todo) =>
      if todo == {} {
        QuietValues(s, t, s');
      } else {
        var o :| o in todo && (o < |s.actual| ==> s' == WriteBack(s, t, o));
        WriteBackValues(s, t, o);
      }
    case Unlock(_, _, _, _) => UnlockValues(s, t);
    case _ => OtherValues(s, t, s');
  }

  lemma {:induction false} RunSound(b: seq<State>, i: nat)
    requires Run(b) && i < |b|
    ensures Sound(b[i])
  {
    RunKeeps(b, i);
    if i > 0 {
      RunSound(b, i - 1);
      assert StepAt(b, i - 1);
      var t: nat :| StepBy(b[i - 1], t, b[i]);
      StepValues(b[i - 1], t, b[i]);
    }
  }

  ghost predicate CommitAt(b: seq<State>, i: int, t: nat) {
    0 <= i < |b| - 1 && Commits(b[i], t, b[i + 1]) && Takes(b[i], t, b[i + 1])
  }

  /**
   In every run values change only at commits.  A commit gives each object that is locked into the committed log the
   value of its copy, and changes no other.
   */
  lemma OnlyCommitsChange(b: seq<State>, i: nat)
    requires Run(b) && i < |b| - 1
    ensures SameValues(b[i], b[i + 1]) || exists t :: CommitAt(b, i, t)
  {
    RunSound(b, i);
    assert StepAt(b, i);
    var t: nat :| StepBy(b[i], t, b[i + 1]);
    StepValues(b[i], t, b[i + 1]);
    if b[i].th[t].pc.Commit? { assert CommitAt(b, i, t); }
  }

  // ---------------------------------------------------------------- copies

  // Thread `t`, which holds `o`'s lock in its current section, writes `v` to its copy.
  predicate WritesCopy(s: State, t: nat, s': State, o: nat, v: int) {
    && t < |s.th| && s.th[t].pc.In? && o < |s.lock| && s.lock[o] == LockedBy(Ref(t, s.th[t].tail))
    && s' == WriteCopy(s, t, o, v)
  }

  // The log `l`, which `o` stays locked into, has the same copy, or its holder has just written it.
  ghost predicate CopyKept(s: State, t: nat, s': State, o: nat, l: Ref) {
    || Copy(s', l, o) == Copy(s, l, o)
    || (l.w == t && exists v :: WritesCopy(s, t, s', o, v) && Copy(s', l, o) == v)
  }

  lemma PutCopy(s: State, t: nat, o: nat, p: nat, v: int, l: Ref, x: Thread)
    requires Sound(s) && t < |s.th| && s.th[t].pc.In? && o < |s.lock| && s.lock[o] == LockedBy(l)
    requires x.logs == s.th[t].logs && l.w == t
    ensures LogOf(PutLog(x, s.th[t].tail, LogOf(s.th[t], s.th[t].tail)[p := v]), l.c)
              == if l.c == s.th[t].tail then LogOf(s.th[t], l.c)[p := v] else LogOf(s.th[t], l.c)
  {
    assert SelfAt(s, t) && LockAt(s, o);
    var c := s.th[t].tail;
    PutSame(x, c, LogOf(s.th[t], c)[p := v], l.c);
    if l.c < c { SlotsDiffer(l.c, c); }
  }

  lemma SectionCopies(s: State, t: nat, s': State, o: nat, l: Ref)
    requires Sound(s) && t < |s.th| && s.th[t].pc.In? && SectionStep(s, t, s') && o < |s.lock|
    requires s.lock[o] == LockedBy(l)
    ensures CopyKept(s, t, s', o, l)
  {
    var x := s.th[t];
    if p: nat :| p < |s.lock| && p < |s.actual| && s' == TryLock(s, t, p) {
      LockCopies(s, t, p, o, l);
    } else if p: nat, v :| p < |s.lock| && s.lock[p] == LockedBy(Ref(t, x.tail)) && s' == WriteCopy(s, t, p, v) {
      if l.w == t { PutCopy(s, t, o, p, v, l, x); }
      if p == o { assert WritesCopy(s, t, s', o, v); }
    }
  }

  lemma LockCopies(s: State, t: nat, p: nat, o: nat, l: Ref)
    requires Sound(s) && t < |s.th| && s.th[t].pc.In? && p < |s.lock| && p < |s.actual| && o < |s.lock|
    requires s.lock[o] == LockedBy(l)
    ensures Copy(TryLock(s, t, p), l, o) == Copy(s, l, o)
  {
    if l.w == t { PutCopy(s, t, o, p, s.actual[p], l, s.th[t].(isWrite := true)); }
  }

  lemma ResetCopies(s: State, t: nat, o: nat, l: Ref)
    requires Sound(s) && t < |s.th| && s.th[t].pc.Reset? && o < |s.lock| && s.lock[o] == LockedBy(l)
    ensures Copy(ResetNext(s, t), l, o) == Copy(s, l, o)
  {
    assert SelfAt(s, t) && LockAt(s, o);
    var x := s.th[t];
    if l.w == t && x.pc.c < x.wb { ResetOther(x, s.maxSets, l.c); }
  }

  lemma StepCopies(s: State, t: nat, s': State, o: nat, l: Ref)
    requires Sound(s) && StepBy(s, t, s') && o < |s.lock| && s.lock[o] == LockedBy(l)
    ensures CopyKept(s, t, s', o, l)
  {
    var pc := s.th[t].pc;
    if pc.In? { SectionCopies(s, t, s', o, l); }
    else if pc.Reset? { ResetCopies(s, t, o, l); }
    else { LogsStay(s, t, s'); }
  }

  lemma LogsStay(s: State, t: nat, s': State)
    requires Sound(s) && StepBy(s, t, s') && !s.th[t].pc.In? && !s.th[t].pc.Reset?
    ensures |s'.th| == |s.th| && s'.th == s.th[t := s'.th[t]] && s'.th[t].logs == s.th[t].logs
    ensures |s'.lock| == |s.lock| && forall o: nat :: o < |s.lock| ==> s'.lock[o] == s.lock[o] || s'.lock[o] == Unlocked
  {
    assert SelfAt(s, t);
    TodoInRange(s, t);
    var pc := s.th[t].pc;
    if pc.Back? && pc.todo != {} { var o :| o in pc.todo && (o < |s.actual| ==> s' == WriteBack(s, t, o)); }
  }

  /** While an object stays locked into a log its copy changes only when the holder, in its section, writes it. */
  lemma OnlyHolderWrites(b: seq<State>, i: nat, o: nat, l: Ref)
    requires Run(b) && i < |b| - 1 && o < |b[i].lock| && b[i].lock[o] == LockedBy(l)
    ensures CopyKept(b[i], l.w, b[i + 1], o, l)
  {
    RunSound(b, i);
    assert StepAt(b, i);
    var t: nat :| StepBy(b[i], t, b[i + 1]);
    StepCopies(b[i], t, b[i + 1], o, l);
  }

  /** A write to the copy arrives there. */
  lemma WriteArrives(b: seq<State>, i: nat, t: nat, o: nat, v: int)
    requires Run(b) && i < |b| - 1 && WritesCopy(b[i], t, b[i + 1], o, v)
    ensures b[i + 1].lock[o] == b[i].lock[o] && Copy(b[i + 1], Ref(t, b[i].th[t].tail), o) == v
  {
    RunSound(b, i);
    assert SelfAt(b[i], t);
    PutSame(b[i].th[t], b[i].th[t].tail, LogOf(b[i].th[t], b[i].th[t].tail)[o := v], b[i].th[t].tail);
  }

  lemma LocksOnly(s: State, t: nat, s': State, o: nat)
    requires Sound(s) && StepBy(s, t, s') && o < |s.lock| && s.lock[o] == Unlocked
    requires o < |s'.lock| && s'.lock[o] != Unlocked
    ensures s.th[t].pc.In? && s' == TryLock(s, t, o)
  {
    if !s.th[t].pc.In? && !s.th[t].pc.Reset? { LogsStay(s, t, s'); }
    if s.th[t].pc.In? {
      if p: nat :| p < |s.lock| && p < |s.actual| && s' == TryLock(s, t, p) {}
    }
  }

  /** Locking an object into a log, which is not committed, copies the value that the object has. */
  lemma LockingCopies(b: seq<State>, i: nat, o: nat) returns (l: Ref)
    requires Run(b) && i < |b| - 1 && o < |b[i].lock| && o < |b[i + 1].lock|
    requires b[i].lock[o] == Unlocked && b[i + 1].lock[o] != Unlocked
    ensures b[i + 1].lock[o] == LockedBy(l) && !Committed(b[i + 1], l) && o < |b[i].actual| && o < |b[i + 1].actual|
    ensures Copy(b[i + 1], l, o) == Value(b[i], o) == Value(b[i + 1], o)
  {
    RunSound(b, i);
    assert StepAt(b, i);
    var t: nat :| StepBy(b[i], t, b[i + 1]);
    LocksOnly(b[i], t, b[i + 1], o);
    assert SelfAt(b[i], t);
    l := Ref(t, b[i].th[t].tail);
    PutSame(b[i].th[t].(isWrite := true), l.c, LogOf(b[i].th[t], l.c)[o := b[i].actual[o]], l.c);
  }

  // ---------------------------------------------------------------- what a section reads

  /**
   What a section steals is the copy in a committed log; as long as the object is locked into that log, it is the
   object's value.
   */
  lemma StolenIsValue(b: seq<State>, i: nat, t: nat, e: Stolen)
    requires Run(b) && i < |b| && t < |b[i].th| && e in b[i].th[t].stolen
    ensures Committed(b[i], e.log) && Copy(b[i], e.log, e.obj) == e.copy
    ensures e.obj < |b[i].lock| && e.obj < |b[i].actual| && b[i].lock[e.obj] == LockedBy(e.log) ==>
              Value(b[i], e.obj) == e.copy
  {
    RunKeeps(b, i);
    assert SelfAt(b[i], t);
    assert e.log in b[i].th[t].touched;
    assert PairAt(b[i], t, e.log.w);
    assert e.log == Ref(e.log.w, e.log.c) && StolenOk(b[i].th[e.log.w], e);
  }
}
