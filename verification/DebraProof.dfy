/**
 DEBRA: an object leaves its epoch bag only when every operation that was running at its
 retirement has ended.
 */
module DebraProof {
  import opened Limbo
  import opened Debra

  // ---------------------------------------------------------------- invariants

  predicate Reading(pc: Pc) { pc.Rotating? || pc.Draining? || pc.Announcing? || pc.Scanning? || pc.Advancing? }

  // `rot` is the epoch for which the bags were last rotated.
  predicate RotInv(x: Thread) {
    if x.pc.Rotating? then x.rot + EPOCH_INCREMENT <= x.pc.r
    else x.local == x.rot || (x.local == 1 && x.rot == -2 && x.pc.Outside?)
  }

  predicate ThreadInv(epoch: int, n: nat, x: Thread) {
    && x.rot <= epoch && x.local <= epoch + 1 && x.rot % 2 == 0
    && RotInv(x) && x.index < NUMBER_OF_EPOCH_BAGS
    && (Active(x) <==> !Quiescent(x.announced))
    && (Reading(x.pc) ==> x.pc.r == x.local && x.local % 2 == 0 && x.local <= epoch)
    && (x.pc.Inside? ==> x.local % 2 == 0 && x.local <= epoch)
    // what an active operation announced, and when
    && (Active(x) ==> x.announced == x.local && x.announced <= x.annAt <= epoch <= x.annAt + EPOCH_INCREMENT)
    && (!Active(x) ==> x.announced <= epoch + 1)
    // `checked` is a thread index, except between the last check and the next operation
    && x.checked <= n
    && (x.checked == n ==> x.pc.Advancing? || epoch != x.local)
    && (x.pc.Advancing? ==> x.checked == n)
    && (Reading(x.pc) && !x.pc.Advancing? ==> x.checked < n)
  }

  // Operations running on `y` cannot hold up an epoch change from `r`.
  predicate Vouches(y: Thread, r: int) { Active(y) ==> r <= y.annAt }

  // Every thread that `x` has checked in the current epoch.
  ghost predicate CheckedInv(epoch: int, th: seq<Thread>, x: Thread) {
    epoch == x.local ==> forall u :: 0 <= u < x.checked && u < |th| ==> Vouches(th[u], x.local)
  }

  // How many rotations ago the bag was current, at least.
  function Turns(index: nat, k: nat): int { (index - k) % NUMBER_OF_EPOCH_BAGS }

  predicate BagInv(x: Thread, k: nat, stamp: int) {
    && k < NUMBER_OF_EPOCH_BAGS
    && (x.pc.Rotating? ==> stamp <= x.pc.r)
    && (Turns(x.index, k) >= 1 ==> stamp + EPOCH_INCREMENT * (Turns(x.index, k) - 1) <= x.rot)
  }

  // The operation `h` has ended, or announced itself no later than `stamp`.
  predicate HolderInv(th: seq<Thread>, h: OpRef, stamp: int) {
    && h.tid < |th| && h.no <= th[h.tid].opNo
    && (h.no == th[h.tid].opNo && Active(th[h.tid]) ==> th[h.tid].annAt <= stamp)
  }

  predicate Ended(th: seq<Thread>, h: OpRef) {
    h.tid < |th| && (h.no < th[h.tid].opNo || (h.no == th[h.tid].opNo && !Active(th[h.tid])))
  }

  ghost predicate ObjInv(s: State, o: Obj) {
    && o.stamp <= s.epoch
    && (forall h :: h in o.holders ==> HolderInv(s.th, h, o.stamp))
    && (o.loc.Bag? ==> o.loc.tid < |s.th| && BagInv(s.th[o.loc.tid], o.loc.k, o.stamp))
    && (!o.loc.Bag? ==> AllEnded(s.th, o.holders))
  }

  ghost predicate AllEnded(th: seq<Thread>, hs: set<OpRef>) { forall h :: h in hs ==> Ended(th, h) }

  ghost predicate ThreadsInv(s: State) {
    forall t :: 0 <= t < |s.th| ==> ThreadInv(s.epoch, |s.th|, s.th[t]) && CheckedInv(s.epoch, s.th, s.th[t])
  }

  ghost predicate ObjsInv(s: State) { forall x :: x in s.objs ==> ObjInv(s, s.objs[x]) }

  ghost predicate Inv(s: State) { s.epoch % 2 == 0 && ThreadsInv(s) && ObjsInv(s) }

  // ---------------------------------------------------------------- the rely

  // Another thread's step, as far as operations are concerned.
  predicate TExt(epoch: int, x: Thread, x': Thread) {
    && x.opNo <= x'.opNo
    && (x'.opNo == x.opNo && Active(x') ==> Active(x) && x'.annAt == x.annAt)
    && (x'.opNo != x.opNo && Active(x') ==> x'.annAt == epoch)
  }

  ghost predicate Ext(s: State, s': State) {
    && s.epoch <= s'.epoch && |s'.th| == |s.th|
    && forall u :: 0 <= u < |s.th| ==> TExt(s.epoch, s.th[u], s'.th[u])
  }

  lemma HolderStable(s: State, s': State, h: OpRef, stamp: int)
    requires Ext(s, s') && HolderInv(s.th, h, stamp)
    ensures HolderInv(s'.th, h, stamp) && (Ended(s.th, h) ==> Ended(s'.th, h))
  {
    assert TExt(s.epoch, s.th[h.tid], s'.th[h.tid]);
  }

  lemma CheckedStable(s: State, s': State, x: Thread)
    requires Ext(s, s') && CheckedInv(s.epoch, s.th, x) && x.local <= s.epoch + 1
    requires s'.epoch == x.local ==> s.epoch == x.local
    ensures CheckedInv(s'.epoch, s'.th, x)
  {
    if s'.epoch == x.local {
      forall u | 0 <= u < x.checked && u < |s'.th| ensures Vouches(s'.th[u], x.local) {
        assert Vouches(s.th[u], x.local) && TExt(s.epoch, s.th[u], s'.th[u]);
      }
    }
  }

  lemma ObjStable(s: State, s': State, o: Obj)
    requires Ext(s, s') && ObjInv(s, o)
    requires o.loc.Bag? ==> BagInv(s'.th[o.loc.tid], o.loc.k, o.stamp)
    ensures ObjInv(s', o)
  {
    forall h | h in o.holders ensures HolderInv(s'.th, h, o.stamp) && (!o.loc.Bag? ==> Ended(s'.th, h)) {
      HolderStable(s, s', h, o.stamp);
    }
  }

  // ---------------------------------------------------------------- one thread's step

  // What a step of thread `t` that does not change the epoch owes.
  ghost predicate Local(s: State, t: nat, x': Thread, s': State) {
    && t < |s.th| && s'.epoch == s.epoch && s'.th == s.th[t := x']
    && ThreadInv(s.epoch, |s.th|, x') && TExt(s.epoch, s.th[t], x')
    && CheckedInv(s.epoch, s'.th, x')
  }

  lemma LocalExt(s: State, t: nat, x': Thread, s': State)
    requires Inv(s) && Local(s, t, x', s')
    ensures Ext(s, s') && ThreadsInv(s')
  {
    forall u | 0 <= u < |s'.th| ensures ThreadInv(s'.epoch, |s'.th|, s'.th[u])
        && CheckedInv(s'.epoch, s'.th, s'.th[u]) {
      if u != t {
        assert ThreadInv(s.epoch, |s.th|, s.th[u]);
        CheckedStable(s, s', s.th[u]);
      }
    }
  }

  lemma LocalKeeps(s: State, t: nat, x': Thread, s': State)
    requires Inv(s) && Local(s, t, x', s') && s'.objs == s.objs && x'.index == s.th[t].index && x'.rot == s.th[t].rot
    requires x'.pc.Rotating? ==> x'.pc.r == s.epoch
    ensures Inv(s') && Ext(s, s')
  {
    LocalExt(s, t, x', s');
    forall x | x in s'.objs ensures ObjInv(s', s'.objs[x]) {
      assert ObjInv(s, s.objs[x]);
      ObjStable(s, s', s.objs[x]);
    }
  }

  // A thread's own step keeps what it knows about the threads it has checked.
  lemma OwnChecked(s: State, t: nat, x': Thread)
    requires Inv(s) && t < |s.th| && TExt(s.epoch, s.th[t], x')
    requires x'.checked == 0 || (x'.checked <= s.th[t].checked && x'.local == s.th[t].local)
    ensures CheckedInv(s.epoch, s.th[t := x'], x')
  {
    assert CheckedInv(s.epoch, s.th, s.th[t]);
    var th' := s.th[t := x'];
    forall u | 0 <= u < x'.checked && u < |s.th| && s.epoch == x'.local ensures Vouches(th'[u], x'.local) {
      assert Vouches(s.th[u], x'.local);
    }
  }

  lemma BeginKeeps(s: State, t: nat)
    requires Inv(s) && t < |s.th| && s.th[t].pc.Outside?
    ensures Inv(Begin(s, t)) && Ext(s, Begin(s, t))
  {
    assert ThreadInv(s.epoch, |s.th|, s.th[t]);
    var x' := Begin(s, t).th[t];
    OwnChecked(s, t, x');
    LocalKeeps(s, t, x', Begin(s, t));
  }

  /** What DEBRA is for: at the third rotation nothing that was running at the retirement still runs. */
  lemma RotationIsSafe(s: State, t: nat, x: nat)
    requires Inv(s) && t < |s.th| && s.th[t].pc.Rotating? && x in InBag(s.objs, t, NextIndex(s.th[t].index))
    ensures AllEnded(s.th, s.objs[x].holders)
  {
    var o := s.objs[x];
    var me := s.th[t];
    assert ObjInv(s, o) && ThreadInv(s.epoch, |s.th|, me);
    assert Turns(me.index, o.loc.k) == 2;
    assert o.stamp + 4 <= s.epoch;
    forall h | h in o.holders ensures Ended(s.th, h) {
      assert HolderInv(s.th, h, o.stamp);
      assert ThreadInv(s.epoch, |s.th|, s.th[h.tid]);
    }
  }

  lemma RotatedBag(x: Thread, x': Thread, k: nat, stamp: int)
    requires x.pc.Rotating? && x.index < NUMBER_OF_EPOCH_BAGS && x.rot + EPOCH_INCREMENT <= x.pc.r
        && BagInv(x, k, stamp)
    requires x' == x.(index := NextIndex(x.index), pc := Draining(x.pc.r), rot := x.pc.r)
    ensures BagInv(x', k, stamp)
  {}

  lemma RotateKeeps(s: State, t: nat, out: set<nat>)
    requires Inv(s) && t < |s.th| && s.th[t].pc.Rotating? && out <= InBag(s.objs, t, NextIndex(s.th[t].index))
    ensures Inv(Rotate(s, t, out)) && Ext(s, Rotate(s, t, out))
  {
    var s' := Rotate(s, t, out);
    assert ThreadInv(s.epoch, |s.th|, s.th[t]);
    OwnChecked(s, t, s'.th[t]);
    LocalExt(s, t, s'.th[t], s');
    forall x | x in s'.objs ensures ObjInv(s', s'.objs[x]) {
      var o := s.objs[x];
      assert ObjInv(s, o);
      if x in out { RotationIsSafe(s, t, x); }
      if o.loc.Bag? && o.loc.tid == t { RotatedBag(s.th[t], s'.th[t], o.loc.k, o.stamp); }
      ObjStable(s, s', o);
    }
  }

  lemma DrainKeeps(s: State, t: nat, out: set<nat>)
    requires Inv(s) && t < |s.th| && s.th[t].pc.Draining? && DrainsOne(s.objs, t, out)
    ensures Inv(Drain(s, t, out)) && Ext(s, Drain(s, t, out))
  {
    var s' := Drain(s, t, out);
    assert ThreadInv(s.epoch, |s.th|, s.th[t]);
    OwnChecked(s, t, s'.th[t]);
    LocalExt(s, t, s'.th[t], s');
    forall x | x in s'.objs ensures ObjInv(s', s'.objs[x]) {
      assert ObjInv(s, s.objs[x]);
      ObjStable(s, s', s.objs[x]);
    }
  }

  lemma AnnounceKeeps(s: State, t: nat)
    requires Inv(s) && t < |s.th| && s.th[t].pc.Announcing?
    ensures Inv(Announce(s, t)) && Ext(s, Announce(s, t))
  {
    assert ThreadInv(s.epoch, |s.th|, s.th[t]);
    var x' := Announce(s, t).th[t];
    OwnChecked(s, t, x');
    LocalKeeps(s, t, x', Announce(s, t));
  }

  // A thread found quiescent, or announcing the current epoch, cannot hold this epoch up.
  lemma AgreesVouches(s: State, u: nat, r: int)
    requires Inv(s) && u < |s.th| && Agrees(s.th[u].announced, r)
    ensures Vouches(s.th[u], r)
  {
    assert ThreadInv(s.epoch, |s.th|, s.th[u]);
  }

  /** `checked` is a valid thread index whenever a scan uses it. */
  lemma CheckedIsIndex(s: State, t: nat)
    requires Inv(s) && t < |s.th| && s.th[t].pc.Scanning?
    ensures s.th[t].checked < |s.th|
  {
    assert ThreadInv(s.epoch, |s.th|, s.th[t]);
  }

  lemma ScanChecked(s: State, t: nat)
    requires Inv(s) && t < |s.th| && s.th[t].pc.Scanning? && s.th[t].checked < |s.th|
    ensures CheckedInv(s.epoch, Scan(s, t).th, Scan(s, t).th[t])
  {
    var x, s' := s.th[t], Scan(s, t);
    assert CheckedInv(s.epoch, s.th, x) && ThreadInv(s.epoch, |s.th|, x);
    forall u | 0 <= u < s'.th[t].checked && u < |s.th| && s.epoch == s'.th[t].local ensures Vouches(s'.th[u], x.local) {
      if u < x.checked { assert Vouches(s.th[u], x.local); } else { AgreesVouches(s, u, x.pc.r); }
    }
  }

  lemma ScanKeeps(s: State, t: nat)
    requires Inv(s) && t < |s.th| && s.th[t].pc.Scanning? && s.th[t].checked < |s.th|
    ensures Inv(Scan(s, t)) && Ext(s, Scan(s, t))
  {
    assert ThreadInv(s.epoch, |s.th|, s.th[t]);
    ScanChecked(s, t);
    LocalKeeps(s, t, Scan(s, t).th[t], Scan(s, t));
  }

  lemma SkipKeeps(s: State, t: nat)
    requires Inv(s) && t < |s.th| && s.th[t].pc.Scanning?
    ensures Inv(SkipScan(s, t)) && Ext(s, SkipScan(s, t))
  {
    assert ThreadInv(s.epoch, |s.th|, s.th[t]);
    var x' := SkipScan(s, t).th[t];
    OwnChecked(s, t, x');
    LocalKeeps(s, t, x', SkipScan(s, t));
  }

  lemma EndKeeps(s: State, t: nat)
    requires Inv(s) && t < |s.th| && s.th[t].pc.Inside?
    ensures Inv(EndOp(s, t)) && Ext(s, EndOp(s, t))
  {
    assert ThreadInv(s.epoch, |s.th|, s.th[t]);
    var x' := EndOp(s, t).th[t];
    OwnChecked(s, t, x');
    LocalKeeps(s, t, x', EndOp(s, t));
  }

  // The epoch moves on only when every running operation was announced in it.
  lemma AdvanceThreads(s: State, t: nat)
    requires Inv(s) && t < |s.th| && s.th[t].pc.Advancing? && s.epoch == s.th[t].pc.r
    ensures Ext(s, Advance(s, t)) && ThreadsInv(Advance(s, t))
  {
    var s' := Advance(s, t);
    assert ThreadInv(s.epoch, |s.th|, s.th[t]) && CheckedInv(s.epoch, s.th, s.th[t]);
    forall u | 0 <= u < |s.th| ensures ThreadInv(s'.epoch, |s'.th|, s'.th[u]) && CheckedInv(s'.epoch, s'.th, s'.th[u]) {
      assert ThreadInv(s.epoch, |s.th|, s.th[u]) && Vouches(s.th[u], s.epoch);
      assert s'.epoch != s.th[u].local;
    }
  }

  lemma AdvanceKeeps(s: State, t: nat)
    requires Inv(s) && t < |s.th| && s.th[t].pc.Advancing?
    ensures Inv(Advance(s, t)) && Ext(s, Advance(s, t))
  {
    var s' := Advance(s, t);
    assert ThreadInv(s.epoch, |s.th|, s.th[t]);
    if s.epoch == s.th[t].pc.r {
      AdvanceThreads(s, t);
      forall x | x in s'.objs ensures ObjInv(s', s'.objs[x]) {
        assert ObjInv(s, s.objs[x]);
        ObjStable(s, s', s.objs[x]);
      }
    } else {
      OwnChecked(s, t, s'.th[t]);
      LocalKeeps(s, t, s'.th[t], s');
    }
  }

  lemma RetireKeeps(s: State, t: nat, x: nat)
    requires Inv(s) && t < |s.th| && (s.th[t].pc.Outside? || s.th[t].pc.Inside?) && x !in s.objs
    ensures Inv(Retire(s, t, x)) && Ext(s, Retire(s, t, x))
  {
    var s' := Retire(s, t, x);
    assert ThreadInv(s.epoch, |s.th|, s.th[t]);
    forall h | h in Running(s.th) ensures HolderInv(s.th, h, s.epoch) {
      assert ThreadInv(s.epoch, |s.th|, s.th[h.tid]);
    }
    forall y | y in s'.objs ensures ObjInv(s', s'.objs[y]) {
      if y != x { assert ObjInv(s, s.objs[y]); }
    }
  }

  lemma StepKeeps(s: State, s': State)
    requires Inv(s) && Step(s, s')
    ensures Inv(s') && Ext(s, s')
  {
    var t: nat :| StepBy(s, t, s');
    var x := s.th[t];
    match x.pc
    case Outside =>
      if s' == Begin(s, t) { BeginKeeps(s, t); }
      else { var o :| o !in s.objs && s' == Retire(s, t, o); RetireKeeps(s, t, o); }
    case Rotating(_) =>
      var out :| out <= InBag(s.objs, t, NextIndex(x.index)) && s' == Rotate(s, t, out);
      RotateKeeps(s, t, out);
    case Draining(_) =>
      var out :| DrainsOne(s.objs, t, out) && s' == Drain(s, t, out);
      DrainKeeps(s, t, out);
    case Announcing(_) => AnnounceKeeps(s, t);
    case Scanning(_) =>
      CheckedIsIndex(s, t);
      if s' == SkipScan(s, t) { SkipKeeps(s, t); } else { ScanKeeps(s, t); }
    case Advancing(_) => AdvanceKeeps(s, t);
    case Inside =>
      if s' == EndOp(s, t) { EndKeeps(s, t); }
      else { var o :| o !in s.objs && s' == Retire(s, t, o); RetireKeeps(s, t, o); }
  }

  lemma {:induction false} RunKeeps(b: seq<State>, i: nat)
    requires Run(b) && i < |b|
    ensures Inv(b[i]) && |b[i].th| == |b[0].th|
  {
    if i > 0 {
      RunKeeps(b, i - 1);
      assert StepAt(b, i - 1);
      StepKeeps(b[i - 1], b[i]);
    }
  }

  // ---------------------------------------------------------------- runs

  ghost predicate Runs(s: State, u: nat, no: nat) { u < |s.th| && Active(s.th[u]) && s.th[u].opNo == no }

  // The thread of `x` retires it in this step.
  ghost predicate RetiresAt(b: seq<State>, i: int, x: nat) {
    0 <= i < |b| - 1 && x !in b[i].objs && x in b[i + 1].objs
  }

  lemma ObjOnly(s: State, s': State, x: nat)
    requires Step(s, s') && Inv(s) && x in s.objs
    ensures x in s'.objs && s'.objs[x].stamp == s.objs[x].stamp && s'.objs[x].holders == s.objs[x].holders
    ensures !s.objs[x].loc.Bag? ==> !s'.objs[x].loc.Bag?
  {
    var t: nat :| StepBy(s, t, s');
    if s.th[t].pc.Scanning? { CheckedIsIndex(s, t); }
  }

  lemma RetiredBy(s: State, s': State, x: nat)
    requires Step(s, s') && Inv(s) && x !in s.objs && x in s'.objs
    ensures s'.objs[x].holders == Running(s.th) && s'.objs[x].loc.Bag?
  {
    var t: nat :| StepBy(s, t, s');
    if s.th[t].pc.Scanning? { CheckedIsIndex(s, t); }
  }

  lemma {:induction false} ObjPersists(b: seq<State>, i: nat, j: nat, x: nat)
    requires Run(b) && i <= j < |b| && x in b[i].objs
    ensures x in b[j].objs && b[j].objs[x].holders == b[i].objs[x].holders
  {
    if i < j {
      ObjPersists(b, i, j - 1, x);
      RunKeeps(b, j - 1);
      assert StepAt(b, j - 1);
      ObjOnly(b[j - 1], b[j], x);
    }
  }

  /**
   Safety: an object retired at step `i` is in its epoch bag as long as any operation that was
   running then, on any thread, is still running.
   */
  lemma NothingFreedTooEarly(b: seq<State>, i: nat, j: nat, x: nat, u: nat, no: nat)
    requires Run(b) && i < j < |b| && RetiresAt(b, i, x)
    requires Runs(b[i], u, no) && Runs(b[j], u, no)
    ensures x in b[j].objs && b[j].objs[x].loc.Bag?
  {
    RunKeeps(b, i);
    RunKeeps(b, j);
    assert StepAt(b, i);
    RetiredBy(b[i], b[i + 1], x);
    ObjPersists(b, i + 1, j, x);
    assert OpRef(u, no) in Running(b[i].th);
    assert ObjInv(b[j], b[j].objs[x]);
    assert HolderInv(b[j].th, OpRef(u, no), b[j].objs[x].stamp);
  }

  /** While an operation runs the epoch advances at most once after its announcement. */
  lemma EpochLag(b: seq<State>, i: nat, u: nat)
    requires Run(b) && i < |b| && u < |b[i].th| && Active(b[i].th[u])
    ensures b[i].th[u].annAt <= b[i].epoch <= b[i].th[u].annAt + EPOCH_INCREMENT
  {
    RunKeeps(b, i);
    assert ThreadInv(b[i].epoch, |b[i].th|, b[i].th[u]);
  }
}
