/**
 RLU: syncs keep the invariant, and what follows for whole runs.
 */
module RluRuns {
  import opened Rlu
  import opened RluInvariant
  import opened RluSafety

  // ---------------------------------------------------------------- a sync's own steps

  // A thread outside sections changes its ring or the stage of its sync.
  lemma WriterKeeps(s: State, t: nat, s': State)
    requires Inv(s) && t < |s.th| == |s'.th| && s'.th == s.th[t := s'.th[t]]
        && s' == s.(th := s'.th, lock := s'.lock, actual := s'.actual)
    requires |s'.lock| == |s.lock| && |s'.actual| == |s.actual|
    requires SelfAt(s', t) && !InSection(s'.th[t].pc) && !Odd(s'.th[t].run) && VersionKept(s, s.th[t].pc, s'.th[t].pc)
    requires forall u: nat :: u < |s.th| && u != t ==>
        TouchesOk(s.th[u], s'.th[t], t) && WaitOk(s.gver, s.th[u], u, s'.th[t])
    requires LocksInv(s') && forall o: nat :: o < |s.lock| ==> s'.lock[o] == s.lock[o] || s'.lock[o] == Unlocked
    ensures Inv(s')
  {
    forall u: nat | u < |s.th| && u != t ensures PairAt(s', u, t) && PairAt(s', t, u) {
      IdleReader(s, t, s', u);
    }
    OthersKeep(s, t, s');
    forall u: nat | u < |s'.th| ensures DirectAt(s', u) {
      assert DirectAt(s, u);
    }
  }

  lemma ScanKeeps(s: State, t: nat)
    requires Inv(s) && t < |s.th| && s.th[t].pc.Scan?
    ensures Inv(ScanNext(s, t))
  {
    var s' := ScanNext(s, t);
    assert SelfAt(s, t);
    assert SelfAt(s', t);
    IdleWaits(s, t, s');
    forall u: nat | u < |s.th| && u != t ensures WaitOk(s.gver, s.th[u], u, s'.th[t]) { assert PairAt(s, u, t); }
    PlainKeeps(s, t, s');
  }

  lemma CheckRunKeeps(s: State, t: nat)
    requires Inv(s) && t < |s.th| && s.th[t].pc.WaitRun?
    ensures Inv(CheckRun(s, t))
  {
    var s' := CheckRun(s, t);
    assert SelfAt(s, t);
    assert SelfAt(s', t);
    IdleWaits(s, t, s');
    forall u: nat | u < |s.th| && u != t
      ensures WaitOk(s.gver, s.th[u], u, s'.th[t])
      ensures s'.th[t].pc.Reset? ==> s'.th[t].pc.V == s.th[t].pc.V && SafeFrom(s.gver, s.th[u], s.th[t].pc.V)
    {
      assert PairAt(s, u, t);
    }
    PlainKeeps(s, t, s');
  }

  lemma CheckVersionKeeps(s: State, t: nat)
    requires Inv(s) && t < |s.th| && s.th[t].pc.WaitVersion? && s.th[t].pc.k < |s.th|
    ensures Inv(CheckVersion(s, t))
  {
    var s' := CheckVersion(s, t);
    assert SelfAt(s, t);
    assert SelfAt(s', t);
    IdleWaits(s, t, s');
    forall u: nat | u < |s.th| && u != t ensures WaitOk(s.gver, s.th[u], u, s'.th[t]) {
      assert PairAt(s, u, t) && SelfAt(s, u);
    }
    PlainKeeps(s, t, s');
  }

  lemma CommitKeeps(s: State, t: nat)
    requires Inv(s) && t < |s.th| && s.th[t].pc.Commit?
    ensures Inv(DoCommit(s, t))
  {
    var s' := DoCommit(s, t);
    var w, w' := s.th[t], s'.th[t];
    assert SelfAt(s, t);
    assert SelfAt(s', t);
    forall u: nat | u < |s.th| && u != t ensures TouchesOk(s.th[u], w', t) && WaitOk(s.gver, s.th[u], u, w') {
      assert PairAt(s, u, t);
      forall c | Ref(t, c) in s.th[u].touched ensures TouchOk(s.th[u], w', c) { assert TouchOk(s.th[u], w, c); }
    }
    forall o: nat | o < |s'.lock| ensures LockAt(s', o) { assert LockAt(s, o); }
    WriterKeeps(s, t, s');
  }

  // Resetting a log that was written back by an earlier sync leaves every other log alone.
  lemma ResetOther(w: Thread, maxSets: nat, c: nat)
    requires RingInv(maxSets, w) && maxSets * 2 <= RLU_MAX_WRITE_SETS && w.pc.Reset? && w.pc.c < w.wb <= c < w.tail
    ensures LogOf(PutLog(w, w.pc.c, map[]), c) == LogOf(w, c)
  {
    SlotsDiffer(w.pc.c, c);
  }

  lemma ResetOneTouches(s: State, t: nat, u: nat)
    requires Inv(s) && t < |s.th| && s.th[t].pc.Reset? && s.th[t].pc.c < s.th[t].wb && u < |s.th| && u != t
    ensures TouchesOk(s.th[u], ResetNext(s, t).th[t], t)
  {
    var x, w, w' := s.th[u], s.th[t], ResetNext(s, t).th[t];
    assert PairAt(s, u, t) && SelfAt(s, t) && SelfAt(s, u);
    forall c | Ref(t, c) in x.touched ensures TouchOk(x, w', c) && LogOf(w', c) == LogOf(w, c) {
      assert TouchOk(x, w, c);
      ResetOther(w, s.maxSets, c);
    }
    forall e | e in x.stolen && e.log.w == t ensures StolenOk(w', e) {
      assert StolenOk(w, e) && e.log == Ref(t, e.log.c);
    }
    if x.pc.Decide? && x.pc.log.w == t { assert x.pc.log == Ref(t, x.pc.log.c); }
  }

  lemma ResetOneKeeps(s: State, t: nat)
    requires Inv(s) && t < |s.th| && s.th[t].pc.Reset? && s.th[t].pc.c < s.th[t].wb
    ensures Inv(ResetNext(s, t))
  {
    var s' := ResetNext(s, t);
    assert SelfAt(s, t);
    assert SelfAt(s', t);
    forall u: nat | u < |s.th| && u != t ensures TouchesOk(s.th[u], s'.th[t], t)
        && WaitOk(s.gver, s.th[u], u, s'.th[t]) {
      assert PairAt(s, u, t);
      ResetOneTouches(s, t, u);
    }
    forall o: nat | o < |s'.lock| ensures LockAt(s', o) {
      assert LockAt(s, o);
      var l := s.lock[o];
      if l.LockedBy? && l.log.w == t { ResetOther(s.th[t], s.maxSets, l.log.c); }
    }
    WriterKeeps(s, t, s');
  }

  lemma ResetEndKeeps(s: State, t: nat)
    requires Inv(s) && t < |s.th| && s.th[t].pc.Reset? && s.th[t].pc.c >= s.th[t].wb
    ensures Inv(ResetNext(s, t))
  {
    var s' := ResetNext(s, t);
    assert SelfAt(s, t);
    assert SelfAt(s', t);
    forall u: nat | u < |s.th| && u != t ensures TouchesOk(s.th[u], s'.th[t], t)
        && WaitOk(s.gver, s.th[u], u, s'.th[t]) {
      assert PairAt(s, u, t);
      forall c | Ref(t, c) in s.th[u].touched ensures TouchOk(s.th[u], s'.th[t], c) {
        assert TouchOk(s.th[u], s.th[t], c);
      }
    }
    forall o: nat | o < |s'.lock| ensures LockAt(s', o) { assert LockAt(s, o); }
    WriterKeeps(s, t, s');
  }

  lemma BackNextKeeps(s: State, t: nat)
    requires Inv(s) && t < |s.th| && s.th[t].pc.Back? && s.th[t].pc.todo == {}
    ensures Inv(Set(s, t, BackNext(s.th[t])))
  {
    var s' := Set(s, t, BackNext(s.th[t]));
    assert SelfAt(s, t);
    assert SelfAt(s', t);
    forall u: nat | u < |s.th| && u != t ensures TouchesOk(s.th[u], s'.th[t], t)
        && WaitOk(s.gver, s.th[u], u, s'.th[t]) {
      assert PairAt(s, u, t);
      forall c | Ref(t, c) in s.th[u].touched ensures TouchOk(s.th[u], s'.th[t], c) {
        assert TouchOk(s.th[u], s.th[t], c);
      }
    }
    forall o: nat | o < |s'.lock| ensures LockAt(s', o) { assert LockAt(s, o); }
    WriterKeeps(s, t, s');
  }

  lemma WriteBackKeeps(s: State, t: nat, o: nat)
    requires Inv(s) && t < |s.th| && s.th[t].pc.Back? && o in s.th[t].pc.todo && o < |s.actual|
    ensures Inv(WriteBack(s, t, o))
  {
    var s' := WriteBack(s, t, o);
    assert SelfAt(s, t);
    assert SelfAt(s', t);
    forall u: nat | u < |s.th| && u != t ensures TouchesOk(s.th[u], s'.th[t], t)
        && WaitOk(s.gver, s.th[u], u, s'.th[t]) {
      assert PairAt(s, u, t);
      forall c | Ref(t, c) in s.th[u].touched ensures TouchOk(s.th[u], s'.th[t], c) {
        assert TouchOk(s.th[u], s.th[t], c);
      }
    }
    forall p: nat | p < |s'.lock| ensures LockAt(s', p) { assert LockAt(s, p); }
    WriterKeeps(s, t, s');
  }

  lemma UnlockKeeps(s: State, t: nat)
    requires Inv(s) && t < |s.th| && s.th[t].pc.Unlock? && s.th[t].pc.o < |s.lock|
    ensures Inv(DoUnlock(s, t))
  {
    var s' := DoUnlock(s, t);
    assert SelfAt(s, t);
    assert SelfAt(s', t);
    forall u: nat | u < |s.th| && u != t ensures TouchesOk(s.th[u], s'.th[t], t)
        && WaitOk(s.gver, s.th[u], u, s'.th[t]) {
      assert PairAt(s, u, t);
      forall c | Ref(t, c) in s.th[u].touched ensures TouchOk(s.th[u], s'.th[t], c) {
        assert TouchOk(s.th[u], s.th[t], c);
      }
    }
    forall p: nat | p < |s'.lock| ensures LockAt(s', p) { assert LockAt(s, p); }
    WriterKeeps(s, t, s');
  }
}
