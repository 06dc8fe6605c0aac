/**
 RLU: the other direct reads are not safe.  From every state after such a read some continuation writes
 the object back while the section still runs.
 */
module RluOverwrite {
  import opened Rlu
  import opened RluInvariant
  import opened RluOwner
  import opened RluTheorems
  import opened RluDirect

  // ---------------------------------------------------------------- continuations

  ghost predicate Continues(c: seq<State>, s: State) {
    |c| > 0 && c[0] == s && forall i :: 0 <= i < |c| - 1 ==> StepAt(c, i)
  }

  ghost predicate KeepsSection(c: seq<State>, t: nat) {
    forall i :: 0 <= i < |c| ==> SameSection(c[0], c[i], t)
  }

  // Some continuation, during section `t`, has thread `w` write back `o`.
  ghost predicate Endangers(s: State, t: nat, w: nat, o: nat) {
    exists c: seq<State> :: Continues(c, s) && KeepsSection(c, t) && w < |c[|c| - 1].th|
        && Overwrites(c[|c| - 1].th[w], o)
  }

  lemma NotEmpty(c: seq<State>, s: State)
    requires Continues(c, s)
    ensures |c| > 0 && c[0] == s
  {}

  lemma ThreadWrites(s: State, t: nat, x: nat, o: nat) returns (c: seq<State>)
    requires Endangers(s, t, x, o)
    ensures Continues(c, s) && SameSection(s, c[|c| - 1], t)
    ensures x < |c[|c| - 1].th| && Overwrites(c[|c| - 1].th[x], o)
  {
    var d: seq<State> :| Continues(d, s) && KeepsSection(d, t) && x < |d[|d| - 1].th|
        && Overwrites(d[|d| - 1].th[x], o);
    c := d;
    NotEmpty(d, s);
    assert SameSection(d[0], d[|d| - 1], t);
  }

  lemma Later(s: State, s': State, t: nat, w: nat, o: nat)
    requires Step(s, s') && SameSection(s, s', t) && Endangers(s', t, w, o)
    ensures Endangers(s, t, w, o)
  {
    var c: seq<State> :| Continues(c, s') && KeepsSection(c, t) && w < |c[|c| - 1].th|
        && Overwrites(c[|c| - 1].th[w], o);
    Prepend(s, s', c, t);
    assert ([s] + c)[|c|] == c[|c| - 1];
  }

  lemma Prepend(s: State, s': State, c: seq<State>, t: nat)
    requires Step(s, s') && SameSection(s, s', t) && Continues(c, s') && KeepsSection(c, t)
    ensures Continues([s] + c, s) && KeepsSection([s] + c, t)
  {
    var d := [s] + c;
    forall i | 0 <= i < |d| - 1 ensures StepAt(d, i) {
      if i > 0 {
        assert StepAt(c, i - 1) && d[i] == c[i - 1] && d[i + 1] == c[i];
      } else {
        assert d[1] == s';
      }
    }
    forall i | 0 <= i < |d| ensures SameSection(d[0], d[i], t) {
      if i > 0 { assert SameSection(c[0], c[i - 1], t); }
    }
  }

  // ---------------------------------------------------------------- the setting

  // Thread `w` holds `o`'s lock and is syncing with a version that section `t` has seen.
  ghost predicate Looms(s: State, t: nat, w: nat, o: nat) {
    && Good(s) && t < |s.th| && w < |s.th| && t != w && InSection(s.th[t].pc)
    && o < |s.lock| && s.lock[o].LockedBy? && s.lock[o].log.w == w
    && Versioned(s.th[w].pc) && s.th[w].pc.V <= s.th[t].local
  }

  lemma SectionOdd(s: State, t: nat)
    requires Good(s) && t < |s.th|
    ensures Odd(s.th[t].run) <==> s.th[t].pc.ReadVersion? || s.th[t].pc.StoreVersion? || InSection(s.th[t].pc)
  {
    assert SelfAt(s, t);
  }

  // ---------------------------------------------------------------- the other sections end

  function Rank(pc: Pc): nat {
    if pc.ReadVersion? then 3 else if pc.StoreVersion? || pc.Decide? then 2 else if pc.In? then 1 else 0
  }

  function Ending(s: State, u: nat): State
    requires u < |s.th| && (s.th[u].pc.Decide? ==> s.th[u].pc.log.w < |s.th|)
  {
    var x := s.th[u];
    match x.pc
    case ReadVersion => Set(s, u, x.(pc := StoreVersion(s.gver)))
    case StoreVersion(L) => Set(s, u, StoreLocal(x, L))
    case Decide(_, _) => Steal(s, u)
    case _ => Set(s, u, Leave(x))
  }

  // One step towards the end of section `u`.
  lemma EndingStep(s: State, u: nat)
    requires Good(s) && u < |s.th| && Odd(s.th[u].run)
    ensures s.th[u].pc.Decide? ==> s.th[u].pc.log.w < |s.th|
    ensures var s' := Ending(s, u);
            && Step(s, s') && Good(s') && s'.th == s.th[u := s'.th[u]] && s'.lock == s.lock
            && (Odd(s'.th[u].run) ==> Rank(s'.th[u].pc) < Rank(s.th[u].pc))
  {
    assert SelfAt(s, u);
    var s' := Ending(s, u);
    assert StepBy(s, u, s');
    StepKeeps(s, s');
  }

  // No thread below `n` but `t` and `w` is in a section.
  ghost predicate Quiet(s: State, t: nat, w: nat, n: nat) {
    forall u :: 0 <= u < n && u < |s.th| && u != t && u != w ==> !Odd(s.th[u].run)
  }

  lemma {:induction false} EndOthers(s: State, t: nat, w: nat, o: nat, n: nat)
    requires Looms(s, t, w, o) && n <= |s.th| && Quiet(s, t, w, n) && s.th[w].pc.SyncStore?
    ensures Endangers(s, t, w, o)
    decreases |s.th| - n, if n < |s.th| && n != t && n != w && Odd(s.th[n].run) then 1 + Rank(s.th[n].pc) else 0
  {
    if n == |s.th| {
      WritesBack(s, t, w, o);
    } else if n == t || n == w || !Odd(s.th[n].run) {
      EndOthers(s, t, w, o, n + 1);
    } else {
      EndingStep(s, n);
      var s' := Ending(s, n);
      EndOthers(s', t, w, o, n);
      Later(s, s', t, w, o);
    }
  }

  // ---------------------------------------------------------------- the sync goes through

  function Waits(pc: Pc): seq<Wait> { if pc.Scan? || pc.WaitRun? || pc.WaitVersion? then pc.waits else [] }

  // Every other thread is quiet, and the sync has noted no section but `t`.
  ghost predicate Alone(s: State, t: nat, w: nat, o: nat) {
    && Looms(s, t, w, o) && Quiet(s, t, w, |s.th|)
    && NotedOnly(s.th[w].pc, t)
  }

  ghost predicate NotedOnly(pc: Pc, t: nat) {
    && (forall k :: 0 <= k < |Waits(pc)| && k != t ==> Waits(pc)[k] == NoWait)
    && (pc.WaitVersion? ==> pc.k == t)
  }

  // How far the sync is from the end, stage by stage.
  function Stage(pc: Pc): nat {
    if pc.SyncStore? then 5 else if pc.SyncFaa? then 4 else if pc.Scan? then 3 else if pc.WaitRun?
        || pc.WaitVersion? then 2
    else if pc.Reset? then 1 else 0
  }

  function Rounds(n: nat, x: Thread): int {
    match x.pc
    case Scan(_, waits) => n - |waits|
    case WaitRun(_, k, _) => n - k
    case WaitVersion(_, k, _) => n - k
    case Reset(_, c) => x.wb - c
    case Back(_, c, _) => x.tail - c
    case Unlock(_, c, _, _) => x.tail - c
    case _ => 0
  }

  function Parts(pc: Pc): nat {
    match pc
    case WaitRun(_, _, _) => 1
    case Back(_, _, todo) => 2 * |todo| + 1
    case Unlock(_, _, todo, _) => 2 * |todo|
    case _ => 0
  }

  predicate Nearer(n: nat, x: Thread, x': Thread) {
    || Stage(x'.pc) < Stage(x.pc)
    || (Stage(x'.pc) == Stage(x.pc) && 0 <= Rounds(n, x') < Rounds(n, x))
    || (Stage(x'.pc) == Stage(x.pc) && Rounds(n, x') == Rounds(n, x) && Parts(x'.pc) < Parts(x.pc))
  }

  ghost predicate Proceeds(s: State, t: nat, w: nat, o: nat, s': State) {
    && Step(s, s') && Alone(s', t, w, o) && SameSection(s, s', t) && |s'.th| == |s.th|
    && Nearer(|s.th|, s.th[w], s'.th[w])
  }

  // The log that holds `o` is yet to be written back.
  lemma StillHeld(s: State, t: nat, w: nat, o: nat)
    requires Looms(s, t, w, o) && !Overwrites(s.th[w], o)
    ensures var x := s.th[w];
            && x.wb <= s.lock[o].log.c < x.tail && !x.pc.Finish?
            && (x.pc.Back? ==> x.pc.c < s.lock[o].log.c) && (x.pc.Unlock? ==> x.pc.c <= s.lock[o].log.c)
  {
    assert SelfAt(s, w) && LockAt(s, o) && OwnAt(s, w);
  }

  function EarlySync(s: State, w: nat): State requires w < |s.th| {
    var x := s.th[w];
    match x.pc
    case SyncStore(V) => Set(s, w, x.(wv := At(V), pc := SyncFaa(V)))
    case SyncFaa(V) => Set(s, w, x.(pc := Scan(V, []))).(gver := s.gver + 1)
    case WaitRun(_, _, _) => CheckRun(s, w)
    case WaitVersion(_, k, _) => if k < |s.th| then CheckVersion(s, w) else s
    case Reset(_, _) => ResetNext(s, w)
    case _ => s
  }

  lemma WaitProceeds(s: State, t: nat, w: nat, o: nat)
    requires Alone(s, t, w, o) && (s.th[w].pc.WaitRun? || s.th[w].pc.WaitVersion?)
    ensures Proceeds(s, t, w, o, EarlySync(s, w))
  {
    var s' := EarlySync(s, w);
    assert SelfAt(s, w);
    EarlyNoted(s, t, w);
    assert StepBy(s, w, s');
    StepKeeps(s, s');
  }

  lemma ScanProceeds(s: State, t: nat, w: nat, o: nat)
    requires Alone(s, t, w, o) && s.th[w].pc.Scan?
    ensures Proceeds(s, t, w, o, ScanNext(s, w))
  {
    var s' := ScanNext(s, w);
    assert SelfAt(s, w);
    SectionOdd(s, w);
    assert StepBy(s, w, s');
    StepKeeps(s, s');
    var waits, waits' := Waits(s.th[w].pc), Waits(s'.th[w].pc);
    forall k | 0 <= k < |waits'| && k != t ensures waits'[k] == NoWait {
      if k < |waits| { assert waits[k] == NoWait; }
    }
  }

  lemma EarlyNoted(s: State, t: nat, w: nat)
    requires w < |s.th| && NotedOnly(s.th[w].pc, t) && !s.th[w].pc.Scan?
    ensures NotedOnly(EarlySync(s, w).th[w].pc, t)
  {
    var pc, pc' := s.th[w].pc, EarlySync(s, w).th[w].pc;
    forall k | 0 <= k < |Waits(pc')| && k != t ensures Waits(pc')[k] == NoWait { assert Waits(pc)[k] == NoWait; }
    if pc.WaitRun? && pc.k != t && pc.k < |pc.waits| { assert Waits(pc)[pc.k] == NoWait; }
  }

  lemma EarlyProceeds(s: State, t: nat, w: nat, o: nat)
    requires Alone(s, t, w, o) && (s.th[w].pc.SyncStore? || s.th[w].pc.SyncFaa? || s.th[w].pc.Reset?)
    ensures Proceeds(s, t, w, o, EarlySync(s, w))
  {
    var s' := EarlySync(s, w);
    assert SelfAt(s, w);
    EarlyNoted(s, t, w);
    assert StepBy(s, w, s');
    StepKeeps(s, s');
  }

  lemma BackProceeds(s: State, t: nat, w: nat, o: nat) returns (s': State)
    requires Alone(s, t, w, o) && s.th[w].pc.Back? && !Overwrites(s.th[w], o)
    ensures Proceeds(s, t, w, o, s')
  {
    var x := s.th[w];
    StillHeld(s, t, w, o);
    TodoInRange(s, w);
    if x.pc.todo == {} {
      s' := Set(s, w, BackNext(x));
    } else {
      var p :| p in x.pc.todo;
      s' := WriteBack(s, w, p);
    }
    assert StepBy(s, w, s');
    StepKeeps(s, s');
  }

  lemma UnlockProceeds(s: State, t: nat, w: nat, o: nat) returns (s': State)
    requires Alone(s, t, w, o) && s.th[w].pc.Unlock? && !Overwrites(s.th[w], o)
    ensures Proceeds(s, t, w, o, s')
  {
    StillHeld(s, t, w, o);
    TodoInRange(s, w);
    assert OwnAt(s, w);
    s' := DoUnlock(s, w);
    assert StepBy(s, w, s');
    StepKeeps(s, s');
  }

  lemma {:induction false} WritesBackFrom(s: State, t: nat, w: nat, o: nat)
    requires Alone(s, t, w, o)
    ensures Endangers(s, t, w, o)
    decreases Stage(s.th[w].pc), Rounds(|s.th|, s.th[w]), Parts(s.th[w].pc)
  {
    if Overwrites(s.th[w], o) {
      assert Continues([s], s) && KeepsSection([s], t);
    } else {
      var s';
      if s.th[w].pc.Back? { s' := BackProceeds(s, t, w, o); }
      else if s.th[w].pc.Unlock? { s' := UnlockProceeds(s, t, w, o); }
      else if s.th[w].pc.Scan? {
        ScanProceeds(s, t, w, o);
        s' := ScanNext(s, w);
      } else {
        StillHeld(s, t, w, o);
        if s.th[w].pc.WaitRun? || s.th[w].pc.WaitVersion? {
          WaitProceeds(s, t, w, o); } else { EarlyProceeds(s, t, w, o);
        }
        s' := EarlySync(s, w);
      }
      WritesBackFrom(s', t, w, o);
      Later(s, s', t, w, o);
    }
  }

  lemma WritesBack(s: State, t: nat, w: nat, o: nat)
    requires Looms(s, t, w, o) && Quiet(s, t, w, |s.th|) && s.th[w].pc.SyncStore?
    ensures Endangers(s, t, w, o)
  {
    WritesBackFrom(s, t, w, o);
  }

  // ---------------------------------------------------------------- the exact condition

  lemma PendingLooms(s: State, s': State, t: nat, o: nat)
    requires Good(s) && Good(s') && Takes(s, s', t, o) && HolderPending(s, t, o)
    ensures Looms(s', t, s.lock[o].log.w, o) && s'.th[s.lock[o].log.w].pc.SyncStore?
  {}

  // The continuations of a run are runs.
  lemma Joined(b: seq<State>, i: nat, c: seq<State>)
    requires Run(b) && i < |b| && Continues(c, b[i])
    ensures Run(b[..i] + c)
  {
    var d := b[..i] + c;
    forall k | 0 <= k < |d| - 1 ensures StepAt(d, k) {
      if k < i { assert StepAt(b, k); } else { assert StepAt(c, k - i); }
    }
  }

  ghost predicate Endangered(s: State, t: nat, o: nat) { exists w: nat :: w != t && Endangers(s, t, w, o) }

  /**
   Some continuation has another thread write back an object that a section obtained itself, before the
   section ends, exactly if the holder of the object's lock was pending at that instant.
   */
  lemma EndangeredExactly(b: seq<State>, i: nat, t: nat, o: nat)
    requires Run(b) && i + 1 < |b| && Takes(b[i], b[i + 1], t, o)
    ensures Endangered(b[i + 1], t, o) <==> HolderPending(b[i], t, o)
  {
    RunKeeps(b, i);
    RunKeeps(b, i + 1);
    if HolderPending(b[i], t, o) {
      PendingLooms(b[i], b[i + 1], t, o);
      EndOthers(b[i + 1], t, b[i].lock[o].log.w, o, 0);
    } else {
      var s' := b[i + 1];
      forall w: nat | w != t ensures !Endangers(s', t, w, o) { KeptForever(b, i, t, w, o); }
    }
  }

  lemma KeptForever(b: seq<State>, i: nat, t: nat, w: nat, o: nat)
    requires Run(b) && i + 1 < |b| && Takes(b[i], b[i + 1], t, o) && !HolderPending(b[i], t, o) && w != t
    ensures !Endangers(b[i + 1], t, w, o)
  {
    forall c: seq<State> | Continues(c, b[i + 1]) && KeepsSection(c, t) && w < |c[|c| - 1].th|
      ensures !Overwrites(c[|c| - 1].th[w], o)
    {
      Joined(b, i + 1, c);
      var d := b[..i + 1] + c;
      assert d[i] == b[i] && d[i + 1] == b[i + 1] && d[|d| - 1] == c[|c| - 1];
      assert SameSection(c[0], c[|c| - 1], t);
      DirectReadKept(d, i, |d| - 1, t, w, o);
    }
  }
}
