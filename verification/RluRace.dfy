/**
 RLU: direct reads are not always protected.  Two writers that compute their versions from one value of the
 global counter, and a section that starts between the first one's increment and the second one's publication,
 are enough: the section may read directly what the second writer then overwrites.
 */
module RluRace {
  import opened Rlu
  import opened RluInvariant
  import opened RluTheorems
  import opened RluDirect
  import opened RluOverwrite

  // ---------------------------------------------------------------- from any such state

  // Threads `w` and `v` begin a sync, thread `t` is idle; `w` holds the lock of object `o`.
  ghost predicate Syncers(s: State, w: nat, v: nat, t: nat, o: nat) {
    && w < |s.th| && v < |s.th| && t < |s.th| && w != v && w != t && v != t
    && s.th[w].pc.SyncRead? && s.th[v].pc.SyncRead? && s.th[t].pc.Idle?
    && o < |s.lock| && s.lock[o].LockedBy? && s.lock[o].log.w == w
  }

  lemma Extended(b: seq<State>, t: nat, s: State) returns (r: seq<State>)
    requires Run(b) && StepBy(b[|b| - 1], t, s)
    ensures Run(r) && r == b + [s]
  {
    r := b + [s];
    forall i | 0 <= i < |r| - 1 ensures StepAt(r, i) {
      if i < |b| - 1 {
        assert StepAt(b, i) && r[i] == b[i] && r[i + 1] == b[i + 1];
      } else {
        assert r[i] == b[|b| - 1] && r[i + 1] == s;
      }
    }
  }

  // Both choose the same version, and `v` publishes it and increments the counter.
  lemma ChooseSame(b: seq<State>, w: nat, v: nat, t: nat, o: nat) returns (r: seq<State>, V: nat)
    requires Run(b) && Syncers(b[|b| - 1], w, v, t, o)
    ensures Run(r) && b <= r
    ensures var s, s' := b[|b| - 1], r[|r| - 1];
        && |s'.th| == |s.th| && s'.lock == s.lock && s'.th[t] == s.th[t] && s'.gver == V
        && s'.th[w] == s.th[w].(pc := SyncStore(V))
  {
    var s := b[|b| - 1];
    V := s.gver + 1;
    var s1 := Set(s, w, s.th[w].(pc := SyncStore(V)));
    r := Extended(b, w, s1);
    var s2 := Set(s1, v, s1.th[v].(pc := SyncStore(V)));
    r := Extended(r, v, s2);
    var s3 := Set(s2, v, s2.th[v].(wv := At(V), pc := SyncFaa(V)));
    r := Extended(r, v, s3);
    var s4 := Set(s3, v, s3.th[v].(pc := Scan(V, []))).(gver := V);
    r := Extended(r, v, s4);
  }

  // Thread `t` starts a section with the counter's value.
  lemma Starts(b: seq<State>, t: nat) returns (r: seq<State>)
    requires Run(b) && t < |b[|b| - 1].th| && b[|b| - 1].th[t].pc.Idle?
    ensures Run(r) && b <= r
    ensures var s, s' := b[|b| - 1], r[|r| - 1];
        && |s'.th| == |s.th| && s'.lock == s.lock && s'.th[t].pc == In && s'.th[t].local == s.gver
        && forall u: nat :: u < |s.th| && u != t ==> s'.th[u] == s.th[u]
  {
    var s := b[|b| - 1];
    var s1 := Set(s, t, Enter(s.th[t]));
    r := Extended(b, t, s1);
    var s2 := Set(s1, t, s1.th[t].(pc := StoreVersion(s1.gver)));
    r := Extended(r, t, s2);
    var s3 := Set(s2, t, StoreLocal(s2.th[t], s1.gver));
    r := Extended(r, t, s3);
  }

  // The section finds the lock of a pending holder, and reads the object itself.
  lemma TakesFromPending(b: seq<State>, w: nat, t: nat, o: nat) returns (r: seq<State>)
    requires Run(b) && t < |b[|b| - 1].th| && b[|b| - 1].th[t].pc == In && HolderPending(b[|b| - 1], t, o)
    requires w == b[|b| - 1].lock[o].log.w && w != t
    ensures Run(r) && b <= r && |r| == |b| + 2 && Takes(r[|r| - 2], r[|r| - 1], t, o) && HolderPending(r[|r| - 2], t, o)
  {
    var s := b[|b| - 1];
    RunKeeps(b, |b| - 1);
    var s1 := ReadLock(s, t, o);
    assert SectionStep(s, t, s1);
    r := Extended(b, t, s1);
    assert SelfAt(s, w);
    var s2 := Steal(s1, t);
    r := Extended(r, t, s2);
  }

  /**
   From every reachable state in which two writers begin a sync and a third thread is idle, some run has that thread
   obtain an object of the first writer itself while the writer is pending.
   */
  lemma SyncersRace(b: seq<State>, w: nat, v: nat, t: nat, o: nat) returns (r: seq<State>)
    requires Run(b) && Syncers(b[|b| - 1], w, v, t, o)
    ensures Run(r) && b <= r && |r| > |b| && Takes(r[|r| - 2], r[|r| - 1], t, o) && HolderPending(r[|r| - 2], t, o)
  {
    var V;
    r, V := ChooseSame(b, w, v, t, o);
    r := Starts(r, t);
    r := TakesFromPending(r, w, t, o);
  }

  lemma Prolonged(a: seq<State>, c: seq<State>) returns (r: seq<State>)
    requires Run(a) && Continues(c, a[|a| - 1])
    ensures Run(r) && a <= r && r[|r| - 1] == c[|c| - 1]
  {
    Joined(a, |a| - 1, c);
    r := a[..|a| - 1] + c;
  }

  /** And then some run has another thread write the object back while that section still runs. */
  lemma WriterDoesNotWait(b: seq<State>, w: nat, v: nat, t: nat, o: nat) returns (r: seq<State>, i: nat, x: nat)
    requires Run(b) && Syncers(b[|b| - 1], w, v, t, o)
    ensures Run(r) && b <= r && i + 1 < |r| && Takes(r[i], r[i + 1], t, o) && SameSection(r[i + 1], r[|r| - 1], t)
    ensures x != t && x < |r[|r| - 1].th| && Overwrites(r[|r| - 1].th[x], o)
  {
    var a := SyncersRace(b, w, v, t, o);
    i := |a| - 2;
    EndangeredExactly(a, i, t, o);
    var c;
    x :| x != t && Endangers(a[i + 1], t, x, o);
    c := ThreadWrites(a[i + 1], t, x, o);
    r := Prolonged(a, c);
    assert r[i] == a[i] && r[i + 1] == a[i + 1];
  }

  // ---------------------------------------------------------------- such a state

  function NoLogs(): seq<map<nat, int>> { seq(RLU_MAX_WRITE_SETS, _ => map[]) }

  function One(o: nat): map<nat, int> { var none: map<nat, int> := map[]; none[o := 0] }

  // A thread that has locked nothing yet; one that has locked `o`; one that begins to sync the log with `o`.
  function Fresh(pc: Pc, run: nat): Thread { Thread(pc, run, 0, Max, false, 0, 0, 0, NoLogs(), {}, {}, {}) }
  function Wrote(o: nat, pc: Pc, run: nat): Thread { Fresh(pc, run).(isWrite := true, logs := NoLogs()[0 := One(o)]) }
  function Syncs(o: nat): Thread { Wrote(o, SyncRead, 2).(isWrite := false, tail := 1) }

  // The first `n` objects are locked, object `i` by thread `i`.
  function S(gver: nat, n: nat, a: Thread, b: Thread, c: Thread): State {
    State(gver, 1, [a, b, c],
      [if n > 0 then LockedBy(Ref(0, 0)) else Unlocked, if n > 1 then LockedBy(Ref(1, 0)) else Unlocked], [0, 0])
  }

  const LENGTH := 13

  function Setup(i: nat): State {
    if i == 0 then S(0, 0, Fresh(Idle, 0), Fresh(Idle, 0), Fresh(Idle, 0))
    else if i == 1 then S(0, 0, Fresh(ReadVersion, 1), Fresh(Idle, 0), Fresh(Idle, 0))
    else if i == 2 then S(0, 0, Fresh(StoreVersion(0), 1), Fresh(Idle, 0), Fresh(Idle, 0))
    else if i == 3 then S(0, 0, Fresh(In, 1), Fresh(Idle, 0), Fresh(Idle, 0))
    else if i == 4 then S(0, 1, Wrote(0, In, 1), Fresh(Idle, 0), Fresh(Idle, 0))
    else if i == 5 then S(0, 1, Wrote(0, Commit, 2), Fresh(Idle, 0), Fresh(Idle, 0))
    else if i == 6 then S(0, 1, Syncs(0), Fresh(Idle, 0), Fresh(Idle, 0))
    else if i == 7 then S(0, 1, Syncs(0), Fresh(ReadVersion, 1), Fresh(Idle, 0))
    else if i == 8 then S(0, 1, Syncs(0), Fresh(StoreVersion(0), 1), Fresh(Idle, 0))
    else if i == 9 then S(0, 1, Syncs(0), Fresh(In, 1), Fresh(Idle, 0))
    else if i == 10 then S(0, 2, Syncs(0), Wrote(1, In, 1), Fresh(Idle, 0))
    else if i == 11 then S(0, 2, Syncs(0), Wrote(1, Commit, 2), Fresh(Idle, 0))
    else S(0, 2, Syncs(0), Syncs(1), Fresh(Idle, 0))
  }

  ghost predicate Goes(i: nat, t: nat) { StepBy(Setup(i), t, Setup(i + 1)) }

  lemma FirstEnters()
    ensures Goes(0, 0) && Goes(1, 0) && Goes(2, 0)
  {}

  lemma FirstLocks()
    ensures Goes(3, 0)
  {
    assert Setup(4) == TryLock(Setup(3), 0, 0);
  }

  lemma FirstCommits()
    ensures Goes(4, 0) && Goes(5, 0)
  {
    assert Setup(5).th[0] == Leave(Setup(4).th[0]);
  }

  lemma SecondEnters()
    ensures Goes(6, 1) && Goes(7, 1) && Goes(8, 1)
  {}

  lemma SecondLocks()
    ensures Goes(9, 1)
  {
    assert Setup(10) == TryLock(Setup(9), 1, 1);
  }

  lemma SecondCommits()
    ensures Goes(10, 1) && Goes(11, 1)
  {
    assert Setup(11).th[1] == Leave(Setup(10).th[1]);
  }

  lemma EachStep(i: nat)
    requires i < LENGTH - 1
    ensures Goes(i, if i < 6 then 0 else 1)
  {
    FirstEnters();
    FirstLocks();
    FirstCommits();
    SecondEnters();
    SecondLocks();
    SecondCommits();
  }

  /** Three threads get there, when two of them lock one object each and commit. */
  lemma SyncersMeet() returns (b: seq<State>)
    ensures Run(b) && Syncers(b[|b| - 1], 1, 0, 2, 1)
  {
    b := seq(LENGTH, (i: nat) => Setup(i));
    forall i | 0 <= i < |b| - 1 ensures StepAt(b, i) {
      EachStep(i);
      assert b[i] == Setup(i) && b[i + 1] == Setup(i + 1);
    }
    assert InitState(b[0]) && b[|b| - 1] == Setup(12);
  }
}
