/**
 Any k-CAS that fails because of its second entry may leave its tag there for good: from every reachable state with
 two idle threads and two words that nobody is working on.
 */
module KCasAnyFailure {
  import opened KCas
  import opened KCasInvariant
  import opened KCasSafety
  import opened KCasRefinement
  import opened KCasStuckTag
  import opened KCasLeavesTag

  // Some continuation of `s` ends in `s'`.
  ghost predicate Leads(s: State, s': State) { exists c :: Continues(c, s) && c[|c| - 1] == s' }

  lemma LeadsOn(s: State, p: State, q: State)
    requires Leads(s, p) && Step(p, q)
    ensures Leads(s, q)
  {
    var c :| Continues(c, s) && c[|c| - 1] == p;
    var d := c + [q];
    forall i | 0 <= i < |d| - 1 ensures StepAt(d, i) {
      if i < |c| - 1 {
        assert StepAt(c, i) && d[i] == c[i] && d[i + 1] == c[i + 1];
      } else {
        assert d[i] == p && d[i + 1] == q;
      }
    }
    assert Continues(d, s) && d[|d| - 1] == q;
  }

  lemma LeadsStep(s: State, q: State)
    requires Step(s, q)
    ensures Leads(s, q)
  {
    assert Continues([s], s) && [s][|[s]| - 1] == s;
    LeadsOn(s, s, q);
  }

  lemma Chained(s: State, c: seq<State>, p: State, d: seq<State>) returns (e: seq<State>)
    requires Continues(c, s) && c[|c| - 1] == p && Continues(d, p)
    ensures Continues(e, s) && e[|e| - 1] == d[|d| - 1]
  {
    e := c + d[1..];
    forall i | 0 <= i < |e| - 1 ensures StepAt(e, i) {
      if i < |c| - 1 {
        assert StepAt(c, i) && e[i] == c[i] && e[i + 1] == c[i + 1];
      } else {
        var j := i - (|c| - 1);
        assert StepAt(d, j) && e[i] == d[j] && e[i + 1] == d[j + 1];
      }
    }
  }

  lemma LeadsTrans(s: State, p: State, q: State)
    requires Leads(s, p) && Leads(p, q)
    ensures Leads(s, q)
  {
    var c :| Continues(c, s) && c[|c| - 1] == p;
    var d :| Continues(d, p) && d[|d| - 1] == q;
    var e := Chained(s, c, p, d);
  }

  // Thread `t`, alone in its stack, runs `f`, which becomes `f'`.
  lemma Runs1(s: State, t: nat, f: Frame, f': Frame) returns (s': State)
    requires GoodState(s) && t < |s.stacks| && s.stacks[t] == [f] && Act(s.g, t, f).tops == [f']
    ensures GoodState(s') && s' == State(Tick(Act(s.g, t, f).g), s.stacks[t := [f']]) && Leads(s, s')
  {
    s' := Next(s, t);
    NextRuns(s, t, f, f');
    assert s'.stacks[t] == [f'];
    StepKeeps(s, s');
    LeadsStep(s, s');
  }

  // What other threads' operations see: `s'` differs in thread `t`'s stack and descriptors and, at most, word `at`.
  ghost predicate Apart(s: State, s': State, t: nat, at: int) {
    && GoodState(s') && |s'.stacks| == |s.stacks| == |s.g.kseq| == |s'.g.kseq| && |s'.g.mem| == |s.g.mem|
    && (forall v: nat :: v < |s.stacks| && v != t ==> s'.stacks[v] == s.stacks[v] && s'.g.kseq[v] == s.g.kseq[v])
    && (forall c :: 0 <= c < |s.g.mem| && c != at ==> s'.g.mem[c] == s.g.mem[c])
    && (forall x :: x in s.g.kops && x.tid != t ==> x in s'.g.kops && s'.g.kops[x] == s.g.kops[x])
  }

  lemma Sizes(s: State)
    requires GoodState(s)
    ensures |s.stacks| == |s.g.kseq| == |s.g.rseq| == |s.g.visited|
  {}

  // Thread `t` calls start().
  lemma Starts(s: State, t: nat) returns (s': State)
    requires GoodState(s) && t < |s.stacks| && s.stacks[t] == []
    ensures GoodState(s') && Apart(s, s', t, -1) && s'.stacks == s.stacks && s'.g.kops == s.g.kops && Leads(s, s')
    ensures t < |s'.g.kseq| && Started(s'.g, t)
  {
    Sizes(s);
    s' := State(Tick(StartOp(s.g, t)), s.stacks);
    assert IdleStep(s, t, s');
    StepKeeps(s, s');
    LeadsStep(s, s');
    assert forall x :: x in s.g.kops ==> KOpInv(s.g, x);
  }

  // It publishes an operation on `es`.
  lemma Publishes(s: State, t: nat, es: seq<Entry>) returns (s': State, o: KId)
    requires GoodState(s) && t < |s.stacks| && s.stacks[t] == [] && DistinctAddrs(es) && InMem(es, |s.g.mem|)
    requires t < |s.g.kseq| && Started(s.g, t)
    ensures Apart(s, s', t, -1) && Working(s', t, o, HelpStart(o, 0)) && o.tid == t && o !in s.g.kops
    ensures s'.g.kops[o].entries == es && Leads(s, s')
  {
    Sizes(s);
    o := Publish(s.g, t, es, false).1;
    s' := State(Tick(Publish(s.g, t, es, false).0), s.stacks[t := [HelpStart(o, 0)]]);
    assert o !in s.g.kops by { assert forall x :: x in s.g.kops ==> KOpInv(s.g, x); }
    assert IdleStep(s, t, s');
    StepKeeps(s, s');
    LeadsStep(s, s');
  }

  lemma Opens(s: State, t: nat, es: seq<Entry>) returns (s': State, o: KId)
    requires GoodState(s) && t < |s.stacks| && s.stacks[t] == [] && DistinctAddrs(es) && InMem(es, |s.g.mem|)
    ensures Apart(s, s', t, -1) && Working(s', t, o, LockNext(o, 0, 0)) && o.tid == t && o !in s.g.kops
    ensures s'.g.kops[o].entries == es && s'.g.mem == s.g.mem && Leads(s, s')
  {
    var p := Starts(s, t);
    var q;
    q, o := Publishes(p, t, es);
    s' := Runs1(q, t, HelpStart(o, 0), LockNext(o, 0, 0));
    ApartTrans(s, p, q, t, -1);
    assert Apart(q, s', t, -1);
    ApartTrans(s, q, s', t, -1);
    LeadsTrans(s, p, q);
    LeadsTrans(s, q, s');
  }

  // Thread `t` works on its undecided operation `o`.
  ghost predicate Working(s: State, t: nat, o: KId, f: Frame) {
    && GoodState(s) && t < |s.stacks| && s.stacks[t] == [f] && o in s.g.kops && s.g.kops[o].status == Undecided
    && !s.g.kops[o].validated && Readable(s.g, o)
  }

  // A step or several of thread `t` that change, of what counts here, word `at` alone, to `w`.
  ghost predicate Wrote(s: State, s': State, t: nat, at: int, w: Word) {
    && Apart(s, s', t, at) && s'.g.kops == s.g.kops && s'.g.kseq == s.g.kseq && 0 <= at < |s.g.mem|
    && s'.g.mem == s.g.mem[at := w]
  }

  lemma TargetIs(s: State, o: KId, i: nat)
    requires GoodState(s) && o in s.g.kops && i < |s.g.kops[o].entries|
    ensures 0 <= s.g.kops[o].entries[i].addr < |s.g.mem| && EntryAt(Op(s.g, o), i) == s.g.kops[o].entries[i]
  {
    assert KOpInv(s.g, o);
  }

  // It places the RDCSS tag on entry `i`...
  lemma Tags(s: State, t: nat, o: KId, i: nat) returns (s': State, r: RId)
    requires Working(s, t, o, LockNext(o, 0, i)) && i < |s.g.kops[o].entries|
    requires Load(s.g, s.g.kops[o].entries[i].addr) == Raw(s.g.kops[o].entries[i].oldval)
    ensures Working(s', t, o, OwnLook(o, 0, i, r)) && Wrote(s, s', t, s.g.kops[o].entries[i].addr, RTag(r))
    ensures r in s'.g.rops && s'.g.rops[r].k == o && s'.g.rops[r].i == i && Leads(s, s')
  {
    Sizes(s);
    TargetIs(s, o, i);
    r := NewRdcss(s.g, t, o, i).1;
    var s1 := Runs1(s, t, LockNext(o, 0, i), Place(o, 0, i, r));
    s' := Runs1(s1, t, Place(o, 0, i, r), OwnLook(o, 0, i, r));
    LeadsTrans(s, s1, s');
  }

  // ...which it makes a k-CAS tag.
  lemma Lifts(s: State, t: nat, o: KId, i: nat, r: RId) returns (s': State)
    requires Working(s, t, o, OwnLook(o, 0, i, r)) && i < |s.g.kops[o].entries|
    requires r in s.g.rops && s.g.rops[r].k == o && s.g.rops[r].i == i
        && Load(s.g, s.g.kops[o].entries[i].addr) == RTag(r)
    ensures Working(s', t, o, LockNext(o, 0, i + 1)) && Wrote(s, s', t, s.g.kops[o].entries[i].addr, KTag(o))
    ensures Leads(s, s')
  {
    Sizes(s);
    TargetIs(s, o, i);
    var s1 := Runs1(s, t, OwnLook(o, 0, i, r), OwnLift(o, 0, i, r, true));
    s' := Runs1(s1, t, OwnLift(o, 0, i, r, true), LockNext(o, 0, i + 1));
    LeadsTrans(s, s1, s');
  }

  lemma ApartTrans(s: State, p: State, q: State, t: nat, at: int)
    requires GoodState(s) && (Apart(s, p, t, at) || Apart(s, p, t, -1)) && (Apart(p, q, t, at) || Apart(p, q, t, -1))
    ensures Apart(s, q, t, at)
  {}

  lemma Locks(s: State, t: nat, o: KId, i: nat) returns (s': State)
    requires Working(s, t, o, LockNext(o, 0, i)) && i < |s.g.kops[o].entries|
    requires Load(s.g, s.g.kops[o].entries[i].addr) == Raw(s.g.kops[o].entries[i].oldval)
    ensures Working(s', t, o, LockNext(o, 0, i + 1)) && Wrote(s, s', t, s.g.kops[o].entries[i].addr, KTag(o))
    ensures Leads(s, s')
  {
    var q, r := Tags(s, t, o, i);
    s' := Lifts(q, t, o, i, r);
    ApartTrans(s, q, s', t, s.g.kops[o].entries[i].addr);
    LeadsTrans(s, q, s');
  }

  // It finds another value at entry `i`.
  lemma Misses(s: State, t: nat, o: KId, i: nat, v: int) returns (s': State)
    requires Working(s, t, o, LockNext(o, 0, i)) && i < |s.g.kops[o].entries|
    requires Load(s.g, s.g.kops[o].entries[i].addr) == Raw(v) && v != s.g.kops[o].entries[i].oldval
    ensures exists since :: Working(s', t, o, Decide(o, 0, false, since))
    ensures Apart(s, s', t, -1) && s'.g.kops == s.g.kops && s'.g.mem == s.g.mem && Leads(s, s')
  {
    Sizes(s);
    TargetIs(s, o, i);
    var r := NewRdcss(s.g, t, o, i).1;
    var s1 := Runs1(s, t, LockNext(o, 0, i), Place(o, 0, i, r));
    s' := Runs1(s1, t, Place(o, 0, i, r), Decide(o, 0, false, s1.g.clock));
    assert Working(s', t, o, Decide(o, 0, false, s1.g.clock));
    LeadsTrans(s, s1, s');
  }

  // An operation on one word, which it holds, decides...
  lemma Decides(s: State, t: nat, o: KId) returns (s': State)
    requires Working(s, t, o, LockNext(o, 0, 1)) && |s.g.kops[o].entries| == 1
    ensures GoodState(s') && s'.stacks == s.stacks[t := [Settle(o, 0)]] && Leads(s, s') && Readable(s'.g, o)
    ensures s'.g.mem == s.g.mem && s'.g.kseq == s.g.kseq
        && s'.g.kops == s.g.kops[o := s.g.kops[o].(status := Succeeded)]
  {
    var n := s.g.clock;
    var s1 := Runs1(s, t, LockNext(o, 0, 1), Decide(o, 0, true, n));
    s' := Runs1(s1, t, Decide(o, 0, true, n), Settle(o, 0));
    LeadsTrans(s, s1, s');
  }

  // ...that it has succeeded...
  lemma Succeeds(s: State, t: nat, o: KId) returns (s': State)
    requires Working(s, t, o, LockNext(o, 0, 1)) && |s.g.kops[o].entries| == 1
    ensures GoodState(s') && s'.stacks == s.stacks[t := [Release(o, 0, 0, true)]] && Leads(s, s')
    ensures s'.g.mem == s.g.mem && s'.g.kseq == s.g.kseq
        && s'.g.kops == s.g.kops[o := s.g.kops[o].(status := Succeeded)]
  {
    var p := Decides(s, t, o);
    s' := Runs1(p, t, Settle(o, 0), Release(o, 0, 0, true));
    LeadsTrans(s, p, s');
  }

  // ...and leaves the new value.
  lemma Releases(s: State, t: nat, o: KId) returns (s': State)
    requires GoodState(s) && t < |s.stacks| && s.stacks[t] == [Release(o, 0, 0, true)] && o in s.g.kops
    requires |s.g.kops[o].entries| == 1 && Holds(s.g, o, 0)
    ensures |s'.stacks| == |s.stacks| && s'.stacks[t] == []
    ensures Wrote(s, s', t, s.g.kops[o].entries[0].addr, Raw(s.g.kops[o].entries[0].newval))
    ensures Leads(s, s')
  {
    Sizes(s);
    TargetIs(s, o, 0);
    var s1 := Runs1(s, t, Release(o, 0, 0, true), Release(o, 0, 1, true));
    s' := Next(s1, t);
    assert BusyStep(s1, t, s');
    StepKeeps(s1, s');
    LeadsOn(s, s1, s');
  }

  // ---------------------------------------------------------------- both threads

  // An idle thread publishes an operation and locks its first word.
  lemma Begins(s: State, t: nat, es: seq<Entry>) returns (s': State, o: KId)
    requires GoodState(s) && t < |s.stacks| && s.stacks[t] == [] && DistinctAddrs(es) && InMem(es, |s.g.mem|)
        && es != []
    requires s.g.mem[es[0].addr] == Raw(es[0].oldval)
    ensures Apart(s, s', t, es[0].addr) && o.tid == t && o !in s.g.kops && Working(s', t, o, LockNext(o, 0, 1))
    ensures s'.g.kops[o].entries == es && s'.g.mem == s.g.mem[es[0].addr := KTag(o)] && Leads(s, s')
  {
    var p;
    p, o := Opens(s, t, es);
    s' := Locks(p, t, o, 0);
    ApartTrans(s, p, s', t, es[0].addr);
    LeadsTrans(s, p, s');
  }

  // An idle thread takes word `c` from `v` to `x`.
  lemma Swaps(s: State, u: nat, c: int, v: int, x: int) returns (s': State)
    requires GoodState(s) && u < |s.stacks| && s.stacks[u] == [] && 0 <= c < |s.g.mem| && s.g.mem[c] == Raw(v)
    ensures Apart(s, s', u, c) && s'.stacks[u] == [] && s'.g.mem == s.g.mem[c := Raw(x)] && Leads(s, s')
  {
    var p, o := Begins(s, u, [Entry(c, v, x)]);
    s' := Completes(p, u, o);
    ApartTrans(s, p, s', u, c);
    LeadsTrans(s, p, s');
  }

  lemma Completes(s: State, t: nat, o: KId) returns (s': State)
    requires Working(s, t, o, LockNext(o, 0, 1)) && |s.g.kops[o].entries| == 1 && Holds(s.g, o, 0) && o.tid == t
    ensures var e := s.g.kops[o].entries[0];
        Apart(s, s', t, e.addr) && s'.stacks[t] == [] && s'.g.mem == s.g.mem[e.addr := Raw(e.newval)] && Leads(s, s')
  {
    TargetIs(s, o, 0);
    var p := Succeeds(s, t, o);
    s' := Releases(p, t, o);
    assert Apart(s, p, t, -1);
    ApartTrans(s, p, s', t, s.g.kops[o].entries[0].addr);
    LeadsTrans(s, p, s');
  }

  // An idle thread's operation locks its first word and misses on the second.
  lemma Fails(s: State, t: nat, es: seq<Entry>, v: int) returns (s': State, o: KId)
    requires GoodState(s) && t < |s.stacks| && s.stacks[t] == [] && |es| == 2 && DistinctAddrs(es)
        && InMem(es, |s.g.mem|)
    requires s.g.mem[es[0].addr] == Raw(es[0].oldval) && s.g.mem[es[1].addr] == Raw(v) && v != es[1].oldval
    ensures Apart(s, s', t, es[0].addr) && o.tid == t && o !in s.g.kops && Leads(s, s')
    ensures exists since :: Working(s', t, o, Decide(o, 0, false, since))
    ensures s'.g.kops[o].entries == es && s'.g.mem == s.g.mem[es[0].addr := KTag(o)]
  {
    var p;
    p, o := Begins(s, t, es);
    s' := Misses(p, t, o, 1, v);
    ApartTrans(s, p, s', t, es[0].addr);
    LeadsTrans(s, p, s');
  }

  // ---------------------------------------------------------------- the theorem

  // Threads `t` and `u` are idle, and nobody works on the operation's words; the second is not as it expects.
  ghost predicate Unexpected(s: State, t: nat, u: nat, es: seq<Entry>, v: int) {
    && t != u && t < |s.stacks| && u < |s.stacks| && s.stacks[t] == [] && s.stacks[u] == []
    && |es| == 2 && DistinctAddrs(es) && InMem(es, |s.g.mem|)
    && s.g.mem[es[0].addr] == Raw(es[0].oldval) && s.g.mem[es[1].addr] == Raw(v) && v != es[1].oldval
  }

  // The operation is about to fail, and its second word has taken the value that it expected.
  lemma SetsScene(s: State, t: nat, u: nat, es: seq<Entry>, v: int) returns (s': State, o: KId)
    requires GoodState(s) && Unexpected(s, t, u, es, v)
    ensures GoodState(s') && Leads(s, s') && o.tid == t && o !in s.g.kops && o in s'.g.kops
        && s'.g.kops[o].entries == es
    ensures CanLeave(s', o, es[1].addr)
  {
    var p;
    p, o := Fails(s, t, es, v);
    s' := Swaps(p, u, es[1].addr, v, es[1].oldval);
    LeadsTrans(s, p, s');
    var since :| Working(p, t, o, Decide(o, 0, false, since));
    assert KOpInv(s'.g, o);
    assert Holds(s'.g, o, 0);
    MayLeave(s', t, u, o, 1, since);
  }

  /**
   From every reachable state with two idle threads: a k-CAS on two words, the second of which does not hold what it
   expects, may fail and leave its tag there for good.
   */
  lemma FailureMayLeaveTag(b: seq<State>, n: nat, t: nat, u: nat, es: seq<Entry>, v: int) returns (r: seq<State>,
      o: KId)
    requires Run(b, n) && Unexpected(b[|b| - 1], t, u, es, v)
    ensures Run(r, n) && b <= r && o.tid == t && o !in b[|b| - 1].g.kops
    ensures var s := r[|r| - 1];
        && o in s.g.kops && s.g.kops[o].entries == es && o in s.g.returned && !s.g.returned[o]
        && Stuck(s, o, es[1].addr)
  {
    var s := b[|b| - 1];
    RunKeeps(b, n, |b| - 1);
    var s';
    s', o := SetsScene(s, t, u, es, v);
    var c :| Continues(c, s) && c[|c| - 1] == s';
    var d :| Continues(d, s') && Left(d[|d| - 1], o, es[1].addr);
    var q := Joined(b, n, c);
    r := Joined(q, n, d);
    assert r[|q| - 1] == q[|q| - 1];
    RunPersists(r, n, |q| - 1, |r| - 1, o);
  }

  lemma Joined(b: seq<State>, n: nat, c: seq<State>) returns (r: seq<State>)
    requires Run(b, n) && Continues(c, b[|b| - 1])
    ensures Run(r, n) && r == b + c[1..] && r[|r| - 1] == c[|c| - 1]
  {
    r := b + c[1..];
    forall i | 0 <= i < |r| - 1 ensures StepAt(r, i) {
      if i < |b| - 1 {
        assert StepAt(b, i) && r[i] == b[i] && r[i + 1] == b[i + 1];
      } else {
        var k := i - (|b| - 1);
        assert StepAt(c, k) && r[i] == c[k] && r[i + 1] == c[k + 1];
      }
    }
  }

  /** An instance: two threads, a word that holds 0 and one that holds 5, of which the operation expects 0. */
  lemma FivesMayLeaveTag() returns (b: seq<State>, o: KId)
    ensures Run(b, 2) && Left(b[|b| - 1], o, 1)
  {
    var s := State(Shared([Raw(0), Raw(5)], map[], map[], [1, 1], [1, 1], [[], []], {}, map[], [], 0), [[], []]);
    assert Run([s], 2);
    b, o := FailureMayLeaveTag([s], 2, 0, 1, [Entry(0, 0, 1), Entry(1, 0, 1)], 5);
  }
}
