/**
 RLU: who owns which log.  Every object in a log that is not yet written back is locked into that log,
 and a log is empty when a section starts writing to it.
 */
module RluOwner {
  import opened Rlu
  import opened RluInvariant

  // Object `o` of log `c` is still to be written back.
  predicate Live(x: Thread, c: nat, o: nat) {
    && x.wb <= c <= x.tail && (c == x.tail ==> x.isWrite) && o in LogOf(x, c)
    && (x.pc.Back? || x.pc.Unlock? ==> c > x.pc.c || (c == x.pc.c && o in x.pc.todo))
  }

  predicate Empty(x: Thread, c: nat) { LogOf(x, c) == map[] }

  // Logs that no counter in use refers to are empty.
  ghost predicate FreshInv(x: Thread) {
    && (forall c: nat {:trigger Empty(x, c)} ::
        x.tail <= c < x.head + RLU_MAX_WRITE_SETS && (c == x.tail ==> !x.isWrite) ==> Empty(x, c))
    && (x.pc.Reset? ==> forall c: nat {:trigger Empty(x, c)} :: x.head <= c < x.pc.c ==> Empty(x, c))
  }

  ghost predicate LiveInv(lock: seq<Lock>, t: nat, x: Thread) {
    && (forall c: nat, o: nat {:trigger Live(x, c, o)} :: Live(x, c, o) ==>
        o < |lock| && lock[o] == LockedBy(Ref(t, c)))
    && (x.pc.Back? ==> forall o :: o in x.pc.todo ==> o in LogOf(x, x.pc.c))
    && (x.pc.Unlock? ==> x.pc.o in x.pc.todo && forall o :: o in x.pc.todo ==> o in LogOf(x, x.pc.c))
  }

  ghost predicate OwnAt(s: State, t: nat) requires t < |s.th| { FreshInv(s.th[t]) && LiveInv(s.lock, t, s.th[t]) }
  ghost predicate OwnsInv(s: State) { forall t: nat {:trigger OwnAt(s, t)} :: t < |s.th| ==> OwnAt(s, t) }

  // ---------------------------------------------------------------- preservation

  // What a step of thread `t` owes the others: locks of theirs stay.
  lemma OwnsKeep(s: State, t: nat, s': State)
    requires OwnsInv(s) && t < |s.th| == |s'.th| && s'.th == s.th[t := s'.th[t]] && |s'.lock| == |s.lock|
        && OwnAt(s', t)
    requires forall o: nat :: o < |s.lock| && s'.lock[o] != s.lock[o] ==> s.lock[o].LockedBy? ==> s.lock[o].log.w == t
    ensures OwnsInv(s')
  {
    forall u: nat | u < |s'.th| ensures OwnAt(s', u) {
      assert OwnAt(s, u);
      if u != t {
        var x := s.th[u];
        forall c: nat, o: nat | Live(x, c, o) ensures o < |s'.lock| && s'.lock[o] == LockedBy(Ref(u, c)) {}
      }
    }
  }

  // A step that keeps the ring, outside the write-back.
  lemma SameRingOwns(s: State, t: nat, s': State)
    requires OwnsInv(s) && t < |s.th| == |s'.th| && s'.th == s.th[t := s'.th[t]] && s'.lock == s.lock
    requires SameRing(s.th[t], s'.th[t]) && !s.th[t].pc.Back? && !s.th[t].pc.Unlock? && !s'.th[t].pc.Back?
        && !s'.th[t].pc.Unlock?
    requires s'.th[t].pc.Reset? ==> s'.th[t].pc.c == s.th[t].head
    ensures OwnsInv(s')
  {
    var x, x' := s.th[t], s'.th[t];
    assert OwnAt(s, t);
    forall c: nat ensures Empty(x', c) == Empty(x, c) {}
    forall c: nat, o: nat | Live(x', c, o) ensures o < |s.lock| && s.lock[o] == LockedBy(Ref(t, c)) {
      assert Live(x, c, o);
    }
    OwnsKeep(s, t, s');
  }

  lemma PutSame(x: Thread, c: nat, m: map<nat, int>, k: nat)
    requires |x.logs| == RLU_MAX_WRITE_SETS
    ensures LogOf(PutLog(x, c, m), k) == if Slot(k) == Slot(c) then m else LogOf(x, k)
  {}

  // Writing the current log, and locking `o` into it.
  lemma WriteOwns(s: State, t: nat, s': State, o: nat, v: int)
    requires OwnsInv(s) && Inv(s) && t < |s.th| == |s'.th| && s.th[t].pc.In? && o < |s.lock|
        && s'.th == s.th[t := s'.th[t]]
    requires s'.th[t] == PutLog(s.th[t].(isWrite := true), s.th[t].tail, LogOf(s.th[t], s.th[t].tail)[o := v])
    requires s.lock[o] == Unlocked || (s.lock[o] == LockedBy(Ref(t, s.th[t].tail)) && s.th[t].isWrite)
    requires s'.lock == s.lock[o := LockedBy(Ref(t, s.th[t].tail))]
    ensures OwnsInv(s')
  {
    var x, x' := s.th[t], s'.th[t];
    var m := LogOf(x, x.tail)[o := v];
    assert SelfAt(s, t) && OwnAt(s, t);
    forall c: nat | x.tail <= c < x.head + RLU_MAX_WRITE_SETS && c != x.tail ensures Empty(x', c) {
      SlotsDiffer(x.tail, c);
      PutSame(x.(isWrite := true), x.tail, m, c);
      assert Empty(x, c);
    }
    forall c: nat, p: nat | Live(x', c, p) ensures p < |s'.lock| && s'.lock[p] == LockedBy(Ref(t, c)) {
      PutSame(x.(isWrite := true), x.tail, m, c);
      if c < x.tail {
        SlotsDiffer(c, x.tail);
        assert Live(x, c, p);
      } else if p != o {
        assert x.isWrite || Empty(x, x.tail);
        assert p in LogOf(x, x.tail);
        assert Live(x, c, p);
      }
    }
    OwnsKeep(s, t, s');
  }

  lemma CommitOwns(s: State, t: nat)
    requires OwnsInv(s) && Inv(s) && t < |s.th| && s.th[t].pc.Commit?
    ensures OwnsInv(DoCommit(s, t))
  {
    var s' := DoCommit(s, t);
    var x, x' := s.th[t], s'.th[t];
    assert SelfAt(s, t) && OwnAt(s, t);
    forall c: nat ensures Empty(x', c) == Empty(x, c) {}
    forall c: nat, o: nat | Live(x', c, o) ensures o < |s.lock| && s.lock[o] == LockedBy(Ref(t, c)) {
      assert Live(x, c, o);
    }
    OwnsKeep(s, t, s');
  }

  lemma ResetOneOwns(s: State, t: nat)
    requires OwnsInv(s) && t < |s.th| && s.th[t].pc.Reset? && s.th[t].pc.c < s.th[t].wb
        && |s.th[t].logs| == RLU_MAX_WRITE_SETS
    ensures OwnsInv(ResetNext(s, t))
  {
    var s' := ResetNext(s, t);
    var x, x' := s.th[t], s'.th[t];
    assert OwnAt(s, t);
    forall c: nat ensures LogOf(x', c) == if Slot(c) == Slot(x.pc.c) then map[] else LogOf(x, c) {
      PutSame(x, x.pc.c, map[], c);
    }
    forall c: nat | Empty(x, c) ensures Empty(x', c) {}
    forall c: nat, o: nat | Live(x', c, o) ensures o < |s.lock| && s.lock[o] == LockedBy(Ref(t, c)) {
      assert Live(x, c, o);
    }
    OwnsKeep(s, t, s');
  }

  // The slots of the logs just reset become free for the counters a round later.
  lemma ResetEndOwns(s: State, t: nat)
    requires OwnsInv(s) && t < |s.th| && s.th[t].pc.Reset? && s.th[t].pc.c == s.th[t].wb && s.th[t].wb <= s.th[t].tail
    ensures OwnsInv(ResetNext(s, t))
  {
    var s' := ResetNext(s, t);
    var x, x' := s.th[t], s'.th[t];
    assert OwnAt(s, t);
    forall c: nat ensures Empty(x', c) == Empty(x, c) {}
    forall c: nat | x'.tail <= c < x'.head + RLU_MAX_WRITE_SETS && (c == x'.tail ==> !x'.isWrite) ensures Empty(x', c) {
      if c >= x.head + RLU_MAX_WRITE_SETS {
        var d := c - RLU_MAX_WRITE_SETS;
        assert Slot(c) == Slot(d) && Empty(x, d);
      } else { assert Empty(x, c); }
    }
    forall c: nat, o: nat | Live(x', c, o) ensures o < |s.lock| && s.lock[o] == LockedBy(Ref(t, c)) {
      assert Live(x, c, o);
    }
    OwnsKeep(s, t, s');
  }

  lemma ResetOwns(s: State, t: nat)
    requires OwnsInv(s) && Inv(s) && t < |s.th| && s.th[t].pc.Reset?
    ensures OwnsInv(ResetNext(s, t))
  {
    assert SelfAt(s, t);
    if s.th[t].pc.c < s.th[t].wb { ResetOneOwns(s, t); } else { ResetEndOwns(s, t); }
  }

  // The write-back moves on to the next log, or ends.
  lemma BackOwns(s: State, t: nat)
    requires OwnsInv(s) && Inv(s) && t < |s.th| && s.th[t].pc.Back? && s.th[t].pc.todo == {}
    ensures OwnsInv(Set(s, t, BackNext(s.th[t])))
  {
    var s' := Set(s, t, BackNext(s.th[t]));
    var x, x' := s.th[t], s'.th[t];
    assert SelfAt(s, t) && OwnAt(s, t);
    forall c: nat ensures Empty(x', c) == Empty(x, c) {}
    forall c: nat, o: nat | Live(x', c, o) ensures o < |s.lock| && s.lock[o] == LockedBy(Ref(t, c)) {
      assert Live(x, c, o);
    }
    OwnsKeep(s, t, s');
  }

  lemma WriteBackOwns(s: State, t: nat, o: nat)
    requires OwnsInv(s) && t < |s.th| && s.th[t].pc.Back? && o in s.th[t].pc.todo && o < |s.actual|
    ensures OwnsInv(WriteBack(s, t, o))
  {
    var s' := WriteBack(s, t, o);
    var x, x' := s.th[t], s'.th[t];
    assert OwnAt(s, t);
    forall c: nat ensures Empty(x', c) == Empty(x, c) {}
    forall c: nat, p: nat | Live(x', c, p) ensures p < |s.lock| && s.lock[p] == LockedBy(Ref(t, c)) {
      assert Live(x, c, p);
    }
    OwnsKeep(s, t, s');
  }

  lemma UnlockOwns(s: State, t: nat)
    requires OwnsInv(s) && Inv(s) && t < |s.th| && s.th[t].pc.Unlock? && s.th[t].pc.o < |s.lock|
    ensures OwnsInv(DoUnlock(s, t))
  {
    var s' := DoUnlock(s, t);
    var x, x' := s.th[t], s'.th[t];
    assert SelfAt(s, t) && OwnAt(s, t);
    assert Live(x, x.pc.c, x.pc.o);
    forall c: nat ensures Empty(x', c) == Empty(x, c) {}
    forall c: nat, p: nat | Live(x', c, p) ensures p < |s'.lock| && s'.lock[p] == LockedBy(Ref(t, c)) {
      assert Live(x, c, p);
    }
    OwnsKeep(s, t, s');
  }
}
