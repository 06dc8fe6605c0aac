/**
 RLU: what holds in every reachable state.
 */
module RluInvariant {
  import opened Rlu

  // ---------------------------------------------------------------- stages of a sync

  predicate Waiting(pc: Pc) { pc.SyncStore? || pc.SyncFaa? || pc.Scan? || pc.WaitRun? || pc.WaitVersion? }
  predicate Past(pc: Pc) { pc.Reset? || pc.Back? || pc.Unlock? || pc.Finish? }
  predicate Versioned(pc: Pc) { Waiting(pc) || Past(pc) }
  predicate Syncing(pc: Pc) { pc.SyncRead? || Versioned(pc) }

  function VersionOf(pc: Pc): nat requires Versioned(pc) { pc.V }

  // ---------------------------------------------------------------- one thread

  // The ring of logs: [head, wb) written back, [wb, tail) committed, tail the next one.
  predicate RingInv(maxSets: nat, x: Thread) {
    && x.head <= x.wb <= x.tail && |x.logs| == RLU_MAX_WRITE_SETS
    && x.wb - x.head <= maxSets && x.tail - x.wb <= maxSets
    && (!Syncing(x.pc) ==> x.tail - x.wb < maxSets)
    && (x.pc.Reset? ==> x.head <= x.pc.c <= x.wb)
    && (x.pc.Back? || x.pc.Unlock? ==> x.head == x.wb <= x.pc.c <= x.tail)
    && (x.pc.Unlock? || (x.pc.Back? && x.pc.todo != {}) ==> x.pc.c < x.tail)
    && (x.pc.Finish? ==> x.wb == x.tail)
  }

  predicate VersionInv(gver: nat, x: Thread) {
    && x.local <= gver
    && (x.pc.StoreVersion? ==> x.local <= x.pc.L <= gver)
    && (Versioned(x.pc) ==> VersionOf(x.pc) <= (if x.pc.SyncStore? || x.pc.SyncFaa? then gver + 1 else gver))
    && x.wv == (if Versioned(x.pc) && !x.pc.SyncStore? then At(x.pc.V) else Max)
  }

  ghost predicate SelfInv(gver: nat, maxSets: nat, n: nat, t: nat, x: Thread) {
    && RingInv(maxSets, x) && VersionInv(gver, x)
    && (Odd(x.run) <==> x.pc.ReadVersion? || x.pc.StoreVersion? || InSection(x.pc))
    && (!InSection(x.pc) ==> x.touched == {} && x.stolen == {} && x.direct == {})
    && (x.isWrite ==> InSection(x.pc) || x.pc.Commit?)
    && (x.pc.Commit? ==> x.isWrite)
    && (forall r :: r in x.touched ==> r.w < n && r.w != t)
    && (forall e :: e in x.stolen ==> e.log in x.touched)
    && (x.pc.Decide? ==> x.pc.log in x.touched)
    && (x.pc.WaitVersion? ==> x.pc.k < n)
    && (x.pc.Scan? ==> |x.pc.waits| <= n)
    && (x.pc.WaitRun? || x.pc.WaitVersion? ==> |x.pc.waits| == n && x.pc.k <= n)
  }

  // ---------------------------------------------------------------- a section `x` and a writer `w`

  predicate TouchOk(x: Thread, w: Thread, c: nat) {
    && w.head <= c <= w.tail
    && (c == w.tail ==> w.isWrite)
    && (Waiting(w.pc) && c < w.wb ==> x.local < w.pc.V)
    && (w.pc.Reset? ==> w.wb <= c)
  }

  predicate StolenOk(w: Thread, e: Stolen) {
    && e.log.c < w.tail && e.obj in LogOf(w, e.log.c) && LogOf(w, e.log.c)[e.obj] == e.copy
  }

  // No section of `x` that started before version `V` still runs.
  predicate SafeFrom(gver: nat, x: Thread, V: nat) {
    || !Odd(x.run)
    || (x.pc.ReadVersion? && V <= gver)
    || (x.pc.StoreVersion? && V <= x.pc.L)
    || (InSection(x.pc) && V <= x.local)
  }

  predicate Noted(gver: nat, x: Thread, e: Wait, V: nat) { e == WaitFor(x.run) || SafeFrom(gver, x, V) }

  predicate WaitOk(gver: nat, x: Thread, i: nat, w: Thread) {
    match w.pc
    case Scan(V, waits) => i < |waits| ==> Noted(gver, x, waits[i], V)
    case WaitRun(V, k, waits) => if i < k then SafeFrom(gver, x, V) else i < |waits| ==> Noted(gver, x, waits[i], V)
    case WaitVersion(V, k, waits) => if i < k then SafeFrom(gver, x, V) else i < |waits| ==> Noted(gver, x, waits[i], V)
    case _ => Past(w.pc) ==> SafeFrom(gver, x, w.pc.V)
  }

  ghost predicate TouchesOk(x: Thread, w: Thread, j: nat) {
    && (forall c :: Ref(j, c) in x.touched ==> TouchOk(x, w, c))
    && (forall e :: e in x.stolen && e.log.w == j ==> StolenOk(w, e))
    && (x.pc.Decide? && x.pc.log.w == j ==> x.pc.o in LogOf(w, x.pc.log.c))
  }

  ghost predicate Pair(gver: nat, x: Thread, i: nat, w: Thread, j: nat) {
    i != j ==> TouchesOk(x, w, j) && WaitOk(gver, x, i, w)
  }

  // ---------------------------------------------------------------- objects

  predicate LockInv(th: seq<Thread>, l: Lock, o: nat) {
    l.LockedBy? ==>
      l.log.w < |th| && HeldOk(th[l.log.w], l.log.c, o)
  }

  predicate HeldOk(w: Thread, c: nat, o: nat) {
    && w.wb <= c <= w.tail && (c == w.tail ==> w.isWrite) && o in LogOf(w, c)
    && (w.pc.Back? || w.pc.Unlock? ==> c > w.pc.c || (c == w.pc.c && o in w.pc.todo))
  }

  // Whoever holds `o`'s lock and has chosen a version will wait for section `x`.
  predicate Ahead(th: seq<Thread>, l: Lock, x: Thread) {
    l.LockedBy? && l.log.w < |th| && Versioned(th[l.log.w].pc) ==> x.local < th[l.log.w].pc.V
  }

  // A lock that changed hands since section `x` read it.
  ghost predicate DirectInv(th: seq<Thread>, lock: seq<Lock>, x: Thread) {
    x.pc.Decide? ==> x.pc.o < |lock| && (lock[x.pc.o] != LockedBy(x.pc.log) ==> Ahead(th, lock[x.pc.o], x))
  }

  // ---------------------------------------------------------------- the invariant

  ghost predicate SelfAt(s: State, t: nat) requires t < |s.th| { SelfInv(s.gver, s.maxSets, |s.th|, t, s.th[t]) }
  ghost predicate PairAt(s: State, i: nat, j: nat) requires i < |s.th| && j < |s.th| {
    Pair(s.gver, s.th[i], i, s.th[j], j)
  }
  ghost predicate LockAt(s: State, o: nat) requires o < |s.lock| { LockInv(s.th, s.lock[o], o) }
  ghost predicate DirectAt(s: State, t: nat) requires t < |s.th| { DirectInv(s.th, s.lock, s.th[t]) }

  ghost predicate Shape(s: State) {
    |s.lock| == |s.actual| && 1 <= s.maxSets && s.maxSets * 2 <= RLU_MAX_WRITE_SETS
  }
  ghost predicate SelvesInv(s: State) { forall t: nat {:trigger SelfAt(s, t)} :: t < |s.th| ==> SelfAt(s, t) }
  ghost predicate PairsInv(s: State) {
    forall i: nat, j: nat {:trigger PairAt(s, i, j)} :: i < |s.th| && j < |s.th| ==> PairAt(s, i, j)
  }
  ghost predicate LocksInv(s: State) { forall o: nat {:trigger LockAt(s, o)} :: o < |s.lock| ==> LockAt(s, o) }
  ghost predicate DirectsInv(s: State) { forall t: nat {:trigger DirectAt(s, t)} :: t < |s.th| ==> DirectAt(s, t) }

  ghost predicate Inv(s: State) { Shape(s) && SelvesInv(s) && PairsInv(s) && LocksInv(s) && DirectsInv(s) }

  // ---------------------------------------------------------------- slots

  lemma SlotsDiffer(a: nat, b: nat)
    requires a < b < a + RLU_MAX_WRITE_SETS
    ensures Slot(a) != Slot(b)
  {}

  // ---------------------------------------------------------------- changing one thread

  lemma WaitGver(gver: nat, gver': nat, x: Thread, i: nat, w: Thread)
    requires gver <= gver' && WaitOk(gver, x, i, w)
    ensures WaitOk(gver', x, i, w)
  {}

  // What a step of thread `t` to record `x'` owes.
  ghost predicate Owes(s: State, t: nat, s': State) {
    && t < |s.th| && |s'.th| == |s.th| && s'.th == s.th[t := s'.th[t]] && s'.maxSets == s.maxSets
    && s.gver <= s'.gver && |s'.lock| == |s.lock| && |s'.actual| == |s.actual|
    && SelfAt(s', t)
    && (forall u: nat {:trigger PairAt(s', u, t)} {:trigger PairAt(s', t, u)} ::
        u < |s.th| && u != t ==> PairAt(s', u, t) && PairAt(s', t, u))
  }

  lemma SelfGver(gver: nat, gver': nat, maxSets: nat, n: nat, t: nat, x: Thread)
    requires gver <= gver' && SelfInv(gver, maxSets, n, t, x)
    ensures SelfInv(gver', maxSets, n, t, x)
  {}

  lemma OthersKeep(s: State, t: nat, s': State)
    requires Inv(s) && Owes(s, t, s')
    ensures Shape(s') && SelvesInv(s') && PairsInv(s')
  {
    forall u: nat | u < |s'.th| ensures SelfAt(s', u) {
      if u != t { assert SelfAt(s, u); SelfGver(s.gver, s'.gver, s.maxSets, |s.th|, u, s.th[u]); }
    }
    forall i: nat, j: nat | i < |s'.th| && j < |s'.th| ensures PairAt(s', i, j) {
      if i == j {
      } else if i == t { assert PairAt(s', t, j); } else if j == t { assert PairAt(s', i, t); } else {
        assert PairAt(s, i, j);
        WaitGver(s.gver, s'.gver, s.th[i], i, s.th[j]);
      }
    }
  }

  // ---------------------------------------------------------------- steps outside sections

  // Thread `t` is not inside a section, before and after: as a reader it has nothing to lose.
  lemma IdleReader(s: State, t: nat, s': State, u: nat)
    requires Inv(s) && t < |s.th| && u < |s.th| && u != t && |s'.th| == |s.th| && s'.th == s.th[t := s'.th[t]]
    requires s.gver <= s'.gver && !InSection(s'.th[t].pc) && !Odd(s'.th[t].run)
    requires s'.th[t].touched == {} && s'.th[t].stolen == {}
    ensures PairAt(s', t, u)
  {
    assert PairAt(s, t, u) && SelfAt(s, u);
  }

  // A step that keeps the ring: as a writer, only the stage of the sync may change.
  ghost predicate SameRing(x: Thread, x': Thread) {
    && x'.head == x.head && x'.wb == x.wb && x'.tail == x.tail && x'.logs == x.logs && x'.isWrite == x.isWrite
  }

  lemma SameRingTouches(x: Thread, j: nat, w: Thread, w': Thread)
    requires TouchesOk(x, w, j) && SameRing(w, w')
    requires Waiting(w'.pc) ==> (Waiting(w.pc) && w'.pc.V == w.pc.V) || x.local < w'.pc.V
    requires w'.pc.Reset? ==> w.pc.Reset? || forall c :: Ref(j, c) in x.touched ==> w.wb <= c
    ensures TouchesOk(x, w', j)
  {
    forall c | Ref(j, c) in x.touched ensures TouchOk(x, w', c) { assert TouchOk(x, w, c); }
  }

  // Locks and direct reads only look at the holder's ring and version.
  lemma SameRingObjects(s: State, t: nat, s': State)
    requires Inv(s) && t < |s.th| && |s'.th| == |s.th| && s'.th == s.th[t := s'.th[t]] && s'.lock == s.lock
    requires SameRing(s.th[t], s'.th[t]) && !s'.th[t].pc.Back? && !s'.th[t].pc.Unlock?
    ensures LocksInv(s')
  {
    forall o: nat | o < |s'.lock| ensures LockAt(s', o) { assert LockAt(s, o); }
  }

  // A thread's version is new, or is what it was.
  lemma DirectsStay(s: State, t: nat, s': State)
    requires Inv(s) && t < |s.th| && |s'.th| == |s.th| && s'.th == s.th[t := s'.th[t]] && s'.lock == s.lock
    requires !s'.th[t].pc.Decide?
    requires Versioned(s'.th[t].pc) ==>
      (Versioned(s.th[t].pc) && s'.th[t].pc.V == s.th[t].pc.V)
          || (forall u: nat :: u < |s.th| ==> s.th[u].local < s'.th[t].pc.V)
    ensures DirectsInv(s')
  {
    forall u: nat | u < |s'.th| ensures DirectAt(s', u) {
      assert DirectAt(s, u);
    }
  }
}
