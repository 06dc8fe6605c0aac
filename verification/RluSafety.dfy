/**
 RLU: every step keeps the invariant.
 */
module RluSafety {
  import opened Rlu
  import opened RluInvariant

  // ---------------------------------------------------------------- steps that keep logs and locks

  ghost predicate OneThread(s: State, t: nat, s': State) {
    t < |s.th| == |s'.th| && s' == s.(gver := s'.gver, th := s'.th) && s'.th == s.th[t := s'.th[t]] && s.gver <= s'.gver
  }

  ghost predicate VersionKept(s: State, pc: Pc, pc': Pc) {
    && (Versioned(pc') ==> (Versioned(pc) && pc'.V == pc.V && (Waiting(pc') ==> Waiting(pc)))
                           || forall u: nat :: u < |s.th| ==> s.th[u].local < pc'.V)
    && (pc'.Reset? ==> Waiting(pc) || pc.Reset?)
  }

  // When the wait is over no running section touches a log about to be reset.
  lemma WaitOver(s: State, t: nat, u: nat, c: nat)
    requires Inv(s) && t < |s.th| && u < |s.th| && u != t && Waiting(s.th[t].pc)
    requires SafeFrom(s.gver, s.th[u], s.th[t].pc.V) && Ref(t, c) in s.th[u].touched
    ensures s.th[t].wb <= c
  {
    assert PairAt(s, u, t) && SelfAt(s, u);
    assert TouchOk(s.th[u], s.th[t], c);
  }

  lemma PlainTouches(s: State, t: nat, s': State, u: nat)
    requires Inv(s) && OneThread(s, t, s') && SameRing(s.th[t], s'.th[t]) && VersionKept(s, s.th[t].pc, s'.th[t].pc)
    requires u < |s.th| && u != t && WaitOk(s'.gver, s.th[u], u, s'.th[t])
    requires s'.th[t].pc.Reset? && Waiting(s.th[t].pc) ==>
        s'.th[t].pc.V == s.th[t].pc.V && SafeFrom(s.gver, s.th[u], s.th[t].pc.V)
    ensures PairAt(s', u, t)
  {
    var x, x' := s.th[t], s'.th[t];
    assert PairAt(s, u, t);
    if x'.pc.Reset? && !x.pc.Reset? {
      forall c | Ref(t, c) in s.th[u].touched ensures x.wb <= c { WaitOver(s, t, u, c); }
    }
    SameRingTouches(s.th[u], t, x, x');
  }

  lemma PlainKeeps(s: State, t: nat, s': State)
    requires Inv(s) && OneThread(s, t, s') && SameRing(s.th[t], s'.th[t]) && VersionKept(s, s.th[t].pc, s'.th[t].pc)
    requires SelfAt(s', t) && !InSection(s'.th[t].pc) && !s'.th[t].pc.Back? && !s'.th[t].pc.Unlock?
    requires forall u: nat :: u < |s.th| && u != t ==>
      WaitOk(s'.gver, s.th[u], u, s'.th[t]) && WaitOk(s'.gver, s'.th[t], t, s.th[u])
      && (s'.th[t].pc.Reset? && Waiting(s.th[t].pc) ==>
          s'.th[t].pc.V == s.th[t].pc.V && SafeFrom(s.gver, s.th[u], s.th[t].pc.V))
    ensures Inv(s')
  {
    forall u: nat | u < |s.th| && u != t ensures PairAt(s', u, t) && PairAt(s', t, u) {
      PlainTouches(s, t, s', u);
    }
    OthersKeep(s, t, s');
    SameRingObjects(s, t, s');
    DirectsStay(s, t, s');
  }

  // A thread outside sections satisfies every writer.
  lemma IdleWaits(s: State, t: nat, s': State)
    requires Inv(s) && OneThread(s, t, s') && !Odd(s'.th[t].run)
    ensures forall u: nat :: u < |s.th| && u != t ==> WaitOk(s'.gver, s'.th[t], t, s.th[u])
  {
    forall u: nat | u < |s.th| && u != t ensures WaitOk(s'.gver, s'.th[t], t, s.th[u]) {
      assert PairAt(s, t, u) && SelfAt(s, u);
    }
  }

  predicate StartsSync(pc: Pc) { pc.Idle? || pc.SyncRead? || pc.SyncStore? || pc.SyncFaa? || pc.Finish? }

  function StepSync(s: State, t: nat): State requires t < |s.th| && StartsSync(s.th[t].pc) {
    var x := s.th[t];
    match x.pc
    case Idle => Set(s, t, x.(pc := SyncRead))
    case SyncRead => Set(s, t, x.(pc := SyncStore(s.gver + 1)))
    case SyncStore(V) => Set(s, t, x.(wv := At(V), pc := SyncFaa(V)))
    case SyncFaa(V) => Set(s, t, x.(pc := Scan(V, []))).(gver := s.gver + 1)
    case Finish(V) => Set(s, t, x.(wv := Max, pc := Idle))
  }

  lemma SyncStepKeeps(s: State, t: nat)
    requires Inv(s) && t < |s.th| && StartsSync(s.th[t].pc)
    ensures Inv(StepSync(s, t))
  {
    var s' := StepSync(s, t);
    assert SelfAt(s, t);
    assert SelfAt(s', t);
    IdleWaits(s, t, s');
    forall u: nat | u < |s.th| ensures s.th[u].local <= s.gver { assert SelfAt(s, u); }
    PlainKeeps(s, t, s');
  }

  lemma LeaveKeeps(s: State, t: nat)
    requires Inv(s) && t < |s.th| && s.th[t].pc.In?
    ensures Inv(Set(s, t, Leave(s.th[t])))
  {
    var s' := Set(s, t, Leave(s.th[t]));
    assert SelfAt(s, t);
    assert SelfAt(s', t);
    IdleWaits(s, t, s');
    PlainKeeps(s, t, s');
  }

  // ---------------------------------------------------------------- entering a section

  function StepEnter(s: State, t: nat): State
    requires t < |s.th| && (s.th[t].pc.Idle? || s.th[t].pc.ReadVersion?)
  {
    var x := s.th[t];
    Set(s, t, if x.pc.Idle? then Enter(x) else x.(pc := StoreVersion(s.gver)))
  }

  lemma EnterKeeps(s: State, t: nat)
    requires Inv(s) && t < |s.th| && (s.th[t].pc.Idle? || s.th[t].pc.ReadVersion?)
    ensures Inv(StepEnter(s, t))
  {
    var s' := StepEnter(s, t);
    assert SelfAt(s, t);
    assert SelfAt(s', t);
    forall u: nat | u < |s.th| && u != t ensures WaitOk(s'.gver, s'.th[t], t, s.th[u]) {
      assert PairAt(s, t, u) && SelfAt(s, u);
    }
    PlainKeeps(s, t, s');
  }

  // ---------------------------------------------------------------- inside a section

  // A step of a section that changes neither its ring nor any lock.
  lemma SectionKeeps(s: State, t: nat, s': State)
    requires Inv(s) && OneThread(s, t, s') && s'.gver == s.gver && SameRing(s.th[t], s'.th[t])
    requires InSection(s'.th[t].pc) && !Syncing(s.th[t].pc) && SelfAt(s', t) && DirectInv(s.th, s.lock, s'.th[t])
    requires forall u: nat :: u < |s.th| && u != t ==>
        TouchesOk(s'.th[t], s.th[u], u) && WaitOk(s.gver, s'.th[t], t, s.th[u])
    ensures Inv(s')
  {
    forall u: nat | u < |s.th| && u != t ensures PairAt(s', u, t) && PairAt(s', t, u) {
      assert PairAt(s, u, t);
      SameRingTouches(s.th[u], t, s.th[t], s'.th[t]);
    }
    OthersKeep(s, t, s');
    SameRingObjects(s, t, s');
    forall u: nat | u < |s'.th| ensures DirectAt(s', u) {
      var x := s'.th[u];
      assert DirectInv(s.th, s.lock, x) by { if u != t { assert DirectAt(s, u); } }
    }
  }

  lemma StoreLocalKeeps(s: State, t: nat)
    requires Inv(s) && t < |s.th| && s.th[t].pc.StoreVersion?
    ensures Inv(Set(s, t, StoreLocal(s.th[t], s.th[t].pc.L)))
  {
    var s' := Set(s, t, StoreLocal(s.th[t], s.th[t].pc.L));
    assert SelfAt(s, t);
    assert SelfAt(s', t);
    forall u: nat | u < |s.th| && u != t ensures TouchesOk(s'.th[t], s.th[u], u)
        && WaitOk(s.gver, s'.th[t], t, s.th[u]) {
      assert PairAt(s, t, u);
    }
    SectionKeeps(s, t, s');
  }

  lemma ReadLockTouches(s: State, t: nat, o: nat, u: nat)
    requires Inv(s) && t < |s.th| && s.th[t].pc.In? && o < |s.lock| && u < |s.th| && u != t
    ensures TouchesOk(ReadLock(s, t, o).th[t], s.th[u], u) && WaitOk(s.gver, ReadLock(s, t, o).th[t], t, s.th[u])
  {
    var x, x' := s.th[t], ReadLock(s, t, o).th[t];
    assert PairAt(s, t, u) && LockAt(s, o) && SelfAt(s, t) && SelfAt(s, u);
    forall c | Ref(u, c) in x'.touched ensures TouchOk(x', s.th[u], c) {
      if Ref(u, c) in x.touched { assert TouchOk(x, s.th[u], c); }
    }
    forall e | e in x'.stolen && e.log.w == u ensures StolenOk(s.th[u], e) { assert e in x.stolen; }
  }

  lemma ReadLockDirect(s: State, t: nat, o: nat)
    requires Inv(s) && t < |s.th| && s.th[t].pc.In? && o < |s.lock|
    ensures DirectInv(s.th, s.lock, ReadLock(s, t, o).th[t])
  {
    assert DirectAt(s, t);
  }

  lemma ReadLockKeeps(s: State, t: nat, o: nat)
    requires Inv(s) && t < |s.th| && s.th[t].pc.In? && o < |s.lock|
    ensures Inv(ReadLock(s, t, o))
  {
    var s' := ReadLock(s, t, o);
    assert SelfAt(s, t) && LockAt(s, o);
    assert SelfAt(s', t);
    ReadLockDirect(s, t, o);
    forall u: nat | u < |s.th| && u != t ensures TouchesOk(s'.th[t], s.th[u], u)
        && WaitOk(s.gver, s'.th[t], t, s.th[u]) {
      ReadLockTouches(s, t, o, u);
    }
    SectionKeeps(s, t, s');
  }

  lemma StealTouches(s: State, t: nat, u: nat)
    requires Inv(s) && t < |s.th| && s.th[t].pc.Decide? && s.th[t].pc.log.w < |s.th| && u < |s.th| && u != t
    ensures TouchesOk(Steal(s, t).th[t], s.th[u], u) && WaitOk(s.gver, Steal(s, t).th[t], t, s.th[u])
  {
    var x, x' := s.th[t], Steal(s, t).th[t];
    assert PairAt(s, t, u) && SelfAt(s, t) && SelfAt(s, u);
    forall c | Ref(u, c) in x'.touched ensures TouchOk(x', s.th[u], c) { assert TouchOk(x, s.th[u], c); }
    forall e | e in x'.stolen && e.log.w == u ensures StolenOk(s.th[u], e) {
      if e !in x.stolen {
        assert x.pc.log == Ref(u, x.pc.log.c);
        assert TouchOk(x, s.th[u], x.pc.log.c);
      }
    }
  }

  lemma StealKeeps(s: State, t: nat)
    requires Inv(s) && t < |s.th| && s.th[t].pc.Decide? && s.th[t].pc.log.w < |s.th|
    ensures Inv(Steal(s, t))
  {
    var s' := Steal(s, t);
    assert SelfAt(s, t);
    assert SelfAt(s', t);
    forall u: nat | u < |s.th| && u != t ensures TouchesOk(s'.th[t], s.th[u], u)
        && WaitOk(s.gver, s'.th[t], t, s.th[u]) {
      StealTouches(s, t, u);
    }
    SectionKeeps(s, t, s');
  }

  // ---------------------------------------------------------------- writing the current log

  // Thread `t` may change its current log, which no one else reads, and lock objects into it.
  ghost predicate Writes(s: State, t: nat, s': State) {
    && t < |s.th| == |s'.th| && s.th[t].pc.In? && s'.th == s.th[t := s'.th[t]] && s' == s.(th := s'.th, lock := s'.lock)
    && |s'.lock| == |s.lock| && |s.th[t].logs| == RLU_MAX_WRITE_SETS
    && (exists m: map<nat, int> ::
        LogOf(s.th[t], s.th[t].tail).Keys <= m.Keys
        && s'.th[t] == PutLog(s.th[t].(isWrite := s'.th[t].isWrite), s.th[t].tail, m))
    && (s.th[t].isWrite ==> s'.th[t].isWrite)
    && forall o: nat :: o < |s.lock| && s'.lock[o] != s.lock[o] ==>
         s'.lock[o] == LockedBy(Ref(t, s.th[t].tail)) && s'.th[t].isWrite && o in LogOf(s'.th[t], s.th[t].tail)
  }

  lemma OtherLogs(s: State, t: nat, s': State, c: nat)
    requires Inv(s) && Writes(s, t, s') && s.th[t].head <= c < s.th[t].tail
    ensures LogOf(s'.th[t], c) == LogOf(s.th[t], c)
  {
    assert SelfAt(s, t);
    SlotsDiffer(c, s.th[t].tail);
  }

  lemma WritesPair(s: State, t: nat, s': State, u: nat)
    requires Inv(s) && Writes(s, t, s') && u < |s.th| && u != t
    ensures PairAt(s', u, t) && PairAt(s', t, u)
  {
    var x, w, w' := s.th[u], s.th[t], s'.th[t];
    assert PairAt(s, u, t) && PairAt(s, t, u) && SelfAt(s, u);
    forall c | Ref(t, c) in x.touched ensures TouchOk(x, w', c) { assert TouchOk(x, w, c); }
    forall e | e in x.stolen && e.log.w == t ensures StolenOk(w', e) {
      assert StolenOk(w, e) && e.log == Ref(t, e.log.c);
      assert TouchOk(x, w, e.log.c);
      OtherLogs(s, t, s', e.log.c);
    }
    if x.pc.Decide? && x.pc.log.w == t {
      assert x.pc.log == Ref(t, x.pc.log.c);
      assert TouchOk(x, w, x.pc.log.c);
      if x.pc.log.c < w.tail { OtherLogs(s, t, s', x.pc.log.c); }
    }
    forall c | Ref(u, c) in w'.touched ensures TouchOk(w', x, c) { assert TouchOk(w, x, c); }
  }

  lemma WritesKeeps(s: State, t: nat, s': State)
    requires Inv(s) && Writes(s, t, s')
    ensures Inv(s')
  {
    var w, w' := s.th[t], s'.th[t];
    assert SelfAt(s, t);
    assert SelfAt(s', t);
    forall u: nat | u < |s.th| && u != t ensures PairAt(s', u, t) && PairAt(s', t, u) { WritesPair(s, t, s', u); }
    OthersKeep(s, t, s');
    forall o: nat | o < |s'.lock| ensures LockAt(s', o) {
      assert LockAt(s, o);
      var l := s.lock[o];
      if s'.lock[o] == l && l.LockedBy? && l.log.w == t && l.log.c < w.tail { OtherLogs(s, t, s', l.log.c); }
    }
    forall u: nat | u < |s'.th| ensures DirectAt(s', u) {
      assert DirectAt(s, u);
    }
  }

  lemma TryLockKeeps(s: State, t: nat, o: nat)
    requires Inv(s) && t < |s.th| && s.th[t].pc.In? && o < |s.lock|
    ensures Inv(TryLock(s, t, o))
  {
    assert SelfAt(s, t);
    if s.lock[o] == Unlocked {
      var m := LogOf(s.th[t], s.th[t].tail)[o := s.actual[o]];
      var s' := TryLock(s, t, o);
      assert s'.th[t] == PutLog(s.th[t].(isWrite := true), s.th[t].tail, m);
      WritesKeeps(s, t, s');
    }
  }

  lemma WriteCopyKeeps(s: State, t: nat, o: nat, v: int)
    requires Inv(s) && t < |s.th| && s.th[t].pc.In? && o < |s.lock| && s.lock[o] == LockedBy(Ref(t, s.th[t].tail))
    ensures Inv(WriteCopy(s, t, o, v))
  {
    assert SelfAt(s, t) && LockAt(s, o);
    var m := LogOf(s.th[t], s.th[t].tail)[o := v];
    var s' := WriteCopy(s, t, o, v);
    assert s'.th[t] == PutLog(s.th[t].(isWrite := s.th[t].isWrite), s.th[t].tail, m);
    WritesKeeps(s, t, s');
  }
}
