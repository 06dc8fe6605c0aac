/**
 k-CAS without contention: from every reachable state, execute run alone on words that hold no tags does exactly what a
 sequential multi-word compare-and-swap does, and so does its validating form.
 */
module KCasSolo {
  import opened KCas
  import opened KCasInvariant
  import opened KCasSafety

  // ---------------------------------------------------------------- runs of one thread

  ghost predicate MovesBy(s: State, t: nat, s': State) { t < |s.stacks| && (IdleStep(s, t, s') || BusyStep(s, t, s')) }

  ghost predicate Alone(c: seq<State>, t: nat) {
    |c| > 0 && forall i :: 0 <= i < |c| - 1 ==> MovesBy(c[i], t, c[i + 1])
  }

  function Last(c: seq<State>): State requires |c| > 0 { c[|c| - 1] }

  // Thread `t` can get from `s` to `s'` alone.
  ghost predicate Gets(s: State, t: nat, s': State) { exists c :: Alone(c, t) && c[0] == s && Last(c) == s' }

  lemma Joins(s: State, t: nat, m: State, s': State)
    requires Gets(s, t, m) && Gets(m, t, s')
    ensures Gets(s, t, s')
  {
    var c :| Alone(c, t) && c[0] == s && Last(c) == m;
    var e :| Alone(e, t) && e[0] == m && Last(e) == s';
    var r := c + e[1..];
    forall i | 0 <= i < |r| - 1 ensures MovesBy(r[i], t, r[i + 1]) {
      if i < |c| - 1 {
        assert MovesBy(c[i], t, c[i + 1]);
      } else {
        var k := i - (|c| - 1);
        assert MovesBy(e[k], t, e[k + 1]) && r[i] == e[k] && r[i + 1] == e[k + 1];
      }
    }
    assert Alone(r, t) && Last(r) == s';
  }

  lemma Stays(s: State, t: nat)
    ensures Gets(s, t, s)
  {
    assert Alone([s], t) && Last([s]) == s;
  }

  function At(g: Shared, stacks: seq<seq<Frame>>, t: nat, st: seq<Frame>): State requires t < |stacks| {
    State(g, stacks[t := st])
  }

  function Next(g: Shared, t: nat, f: Frame): Shared { Tick(Act(g, t, f).g) }

  lemma Goes(g: Shared, stacks: seq<seq<Frame>>, t: nat, f: Frame)
    requires t < |stacks|
    ensures Gets(At(g, stacks, t, [f]), t, At(Next(g, t, f), stacks, t, Act(g, t, f).tops))
  {
    var s, s' := At(g, stacks, t, [f]), At(Next(g, t, f), stacks, t, Act(g, t, f).tops);
    assert Below(s.stacks[t]) == [] && [] + Act(g, t, f).tops == Act(g, t, f).tops;
    assert MovesBy(s, t, s');
    assert Alone([s, s'], t) && Last([s, s']) == s';
  }

  // ---------------------------------------------------------------- memory along the way

  // Word `a` when the first `p` entries have been locked and the first `r` released.
  function Cell(m: seq<Word>, es: seq<Entry>, k: KId, p: nat, r: nat, won: bool, a: nat): Word
    requires a < |m|
  {
    var x := IndexOf(es, a);
    if x < r && x < |es| then (if won then Raw(es[x].newval) else m[a])
    else if x < p && x < |es| then KTag(k) else m[a]
  }

  // `k`, which is to do `op`, has got so far; memory was `m`.
  ghost predicate Stage(g: Shared, m: seq<Word>, k: KId, op: KOp, p: nat, r: nat, won: bool) {
    && |g.mem| == |m| && k in g.kops && g.kops[k] == op && Readable(g, k) && k.tid < |g.rseq|
    && DistinctAddrs(op.entries) && InMem(op.entries, |m|)
    && forall a: nat :: a < |m| ==> g.mem[a] == Cell(m, op.entries, k, p, r, won, a)
  }

  lemma Indexed(es: seq<Entry>, i: nat)
    requires DistinctAddrs(es) && i < |es|
    ensures IndexOf(es, es[i].addr) == i
  {}

  // ---------------------------------------------------------------- locking

  // `k`'s entry `i` holds the RDCSS tag `r`, and nothing else has changed.
  ghost predicate Tagged(g: Shared, h: Shared, k: KId, e: Entry, i: nat, r: RId) {
    && 0 <= e.addr < |g.mem| && h.mem == g.mem[e.addr := RTag(r)] && h.kops == g.kops && h.kseq == g.kseq
    && |h.rseq| == |g.rseq| && r in h.rops && h.rops[r].k == k && h.rops[r].i == i && EntryAt(Op(g, k), i) == e
  }

  lemma Places(g: Shared, stacks: seq<seq<Frame>>, k: KId, e: Entry, i: nat) returns (h: Shared, r: RId)
    requires k.tid < |stacks| && k.tid < |g.rseq| && k in g.kops && i < |g.kops[k].entries| && g.kops[k].entries[i] == e
    requires 0 <= e.addr < |g.mem| && g.mem[e.addr] == Raw(e.oldval)
    ensures Gets(At(g, stacks, k.tid, [LockNext(k, 0, i)]), k.tid, At(h, stacks, k.tid, [OwnLook(k, 0, i, r)]))
    ensures Tagged(g, h, k, e, i, r)
  {
    var t := k.tid;
    r := NewRdcss(g, t, k, i).1;
    Goes(g, stacks, t, LockNext(k, 0, i));
    var g1 := Next(g, t, LockNext(k, 0, i));
    Goes(g1, stacks, t, Place(k, 0, i, r));
    h := Next(g1, t, Place(k, 0, i, r));
    Joins(At(g, stacks, t, [LockNext(k, 0, i)]), t, At(g1, stacks, t, [Place(k, 0, i, r)]),
          At(h, stacks, t, [OwnLook(k, 0, i, r)]));
  }

  lemma Lifts(g: Shared, g2: Shared, stacks: seq<seq<Frame>>, k: KId, e: Entry, i: nat, r: RId) returns (h: Shared)
    requires k.tid < |stacks| && Tagged(g, g2, k, e, i, r) && Open(g, k)
    ensures Gets(At(g2, stacks, k.tid, [OwnLook(k, 0, i, r)]), k.tid, At(h, stacks, k.tid, [LockNext(k, 0, i + 1)]))
    ensures h.mem == g.mem[e.addr := KTag(k)] && h.kops == g.kops && h.kseq == g.kseq && |h.rseq| == |g.rseq|
  {
    var t := k.tid;
    Goes(g2, stacks, t, OwnLook(k, 0, i, r));
    var g3 := Next(g2, t, OwnLook(k, 0, i, r));
    Goes(g3, stacks, t, OwnLift(k, 0, i, r, true));
    h := Next(g3, t, OwnLift(k, 0, i, r, true));
    Joins(At(g2, stacks, t, [OwnLook(k, 0, i, r)]), t, At(g3, stacks, t, [OwnLift(k, 0, i, r, true)]),
          At(h, stacks, t, [LockNext(k, 0, i + 1)]));
  }

  lemma LocksOne(g: Shared, stacks: seq<seq<Frame>>, k: KId, m: seq<Word>, op: KOp, i: nat) returns (h: Shared)
    requires k.tid < |stacks| && Stage(g, m, k, op, i, 0, false) && op.status == Undecided && i < |op.entries|
    requires m[op.entries[i].addr] == Raw(op.entries[i].oldval)
    ensures Gets(At(g, stacks, k.tid, [LockNext(k, 0, i)]), k.tid, At(h, stacks, k.tid, [LockNext(k, 0, i + 1)]))
    ensures Stage(h, m, k, op, i + 1, 0, false)
  {
    var t, e := k.tid, op.entries[i];
    Indexed(op.entries, i);
    assert g.mem[e.addr] == Cell(m, op.entries, k, i, 0, false, e.addr);
    var g2, r := Places(g, stacks, k, e, i);
    h := Lifts(g, g2, stacks, k, e, i, r);
    Joins(At(g, stacks, t, [LockNext(k, 0, i)]), t, At(g2, stacks, t, [OwnLook(k, 0, i, r)]),
          At(h, stacks, t, [LockNext(k, 0, i + 1)]));
    forall a: nat | a < |m| ensures h.mem[a] == Cell(m, op.entries, k, i + 1, 0, false, a) {
      if IndexOf(op.entries, a) == i { assert a == e.addr; }
    }
  }

  // The first entry from `i` on that does not match.
  function Mismatch(m: seq<Word>, es: seq<Entry>, i: nat): (j: nat)
    requires i <= |es| && InMem(es, |m|)
    ensures i <= j <= |es| && (forall x :: i <= x < j ==> m[es[x].addr] == Raw(es[x].oldval))
    ensures j < |es| ==> m[es[j].addr] != Raw(es[j].oldval)
    decreases |es| - i
  {
    if i == |es| || m[es[i].addr] != Raw(es[i].oldval) then i else Mismatch(m, es, i + 1)
  }

  lemma {:induction false} LocksAll(g: Shared, stacks: seq<seq<Frame>>, k: KId, m: seq<Word>, op: KOp, i: nat)
    returns (h: Shared)
    requires k.tid < |stacks| && i <= |op.entries| && Stage(g, m, k, op, i, 0, false) && op.status == Undecided
    ensures var j := Mismatch(m, op.entries, i);
        && Gets(At(g, stacks, k.tid, [LockNext(k, 0, i)]), k.tid, At(h, stacks, k.tid, [LockNext(k, 0, j)]))
        && Stage(h, m, k, op, j, 0, false)
    decreases |op.entries| - i
  {
    if Mismatch(m, op.entries, i) == i {
      h := g;
      Stays(At(g, stacks, k.tid, [LockNext(k, 0, i)]), k.tid);
    } else {
      var d := LocksOne(g, stacks, k, m, op, i);
      h := LocksAll(d, stacks, k, m, op, i + 1);
      Joins(At(g, stacks, k.tid, [LockNext(k, 0, i)]), k.tid, At(d, stacks, k.tid, [LockNext(k, 0, i + 1)]),
            At(h, stacks, k.tid, [LockNext(k, 0, Mismatch(m, op.entries, i))]));
    }
  }

  // The attempt to lock an entry that does not match.
  lemma LockFails(g: Shared, stacks: seq<seq<Frame>>, k: KId, m: seq<Word>, op: KOp, i: nat) returns (h: Shared, n: nat)
    requires k.tid < |stacks| && Stage(g, m, k, op, i, 0, false) && op.status == Undecided && i < |op.entries|
    requires m[op.entries[i].addr].Raw? && m[op.entries[i].addr] != Raw(op.entries[i].oldval)
    ensures Gets(At(g, stacks, k.tid, [LockNext(k, 0, i)]), k.tid, At(h, stacks, k.tid, [Decide(k, 0, false, n)]))
    ensures Stage(h, m, k, op, i, 0, false)
  {
    var t, e := k.tid, op.entries[i];
    Indexed(op.entries, i);
    var r := NewRdcss(g, t, k, i).1;
    Goes(g, stacks, t, LockNext(k, 0, i));
    var g1 := Next(g, t, LockNext(k, 0, i));
    assert Load(g1, e.addr) == m[e.addr];
    Goes(g1, stacks, t, Place(k, 0, i, r));
    n := g1.clock;
    h := Next(g1, t, Place(k, 0, i, r));
    Joins(At(g, stacks, t, [LockNext(k, 0, i)]), t, At(g1, stacks, t, [Place(k, 0, i, r)]),
          At(h, stacks, t, [Decide(k, 0, false, n)]));
  }

  // ---------------------------------------------------------------- validating

  predicate Owned(es: seq<Entry>, a: int) { IndexOf(es, a) < |es| }

  // A visited word that may pass.
  predicate Passes(m: seq<Word>, es: seq<Entry>, v: Visit) {
    || Owned(es, v.addr)
    || ((if 0 <= v.addr < |m| then m[v.addr] else Raw(0)) == Raw(v.value) && !Marked(v.value))
  }

  predicate AllPass(m: seq<Word>, op: KOp, j: nat) {
    forall q :: j <= q < |op.path| ==> Passes(m, op.entries, op.path[q])
  }

  ghost predicate Unknown(m: seq<Word>, k: KId) { forall a :: 0 <= a < |m| ==> m[a] != KTag(k) }

  lemma ValidatesOne(g: Shared, m: seq<Word>, k: KId, op: KOp, j: nat, n: nat)
    requires Stage(g, m, k, op, |op.entries|, 0, false) && j < |op.path| && Unknown(m, k)
    ensures Act(g, k.tid, Validate(k, 0, j, n)).g == g
    ensures Act(g, k.tid, Validate(k, 0, j, n)).tops
              == [if Passes(m, op.entries, op.path[j]) then Validate(k, 0, j + 1, n) else Decide(k, 0, false, n)]
  {
    var v := op.path[j];
    if 0 <= v.addr < |m| { assert g.mem[v.addr] == Cell(m, op.entries, k, |op.entries|, 0, false, v.addr); }
  }

  lemma {:induction false} Validates(g: Shared, stacks: seq<seq<Frame>>, k: KId, m: seq<Word>, op: KOp, j: nat, n: nat)
    returns (h: Shared)
    requires k.tid < |stacks| && Stage(g, m, k, op, |op.entries|, 0, false) && Unknown(m, k) && j <= |op.path|
    ensures Gets(At(g, stacks, k.tid, [Validate(k, 0, j, n)]), k.tid,
                 At(h, stacks, k.tid, [Decide(k, 0, AllPass(m, op, j), n)]))
    ensures Stage(h, m, k, op, |op.entries|, 0, false)
    decreases |op.path| - j
  {
    var t := k.tid;
    Goes(g, stacks, t, Validate(k, 0, j, n));
    h := Next(g, t, Validate(k, 0, j, n));
    if j < |op.path| {
      ValidatesOne(g, m, k, op, j, n);
      if Passes(m, op.entries, op.path[j]) {
        var d := h;
        h := Validates(d, stacks, k, m, op, j + 1, n);
        assert AllPass(m, op, j) == AllPass(m, op, j + 1);
        Joins(At(g, stacks, t, [Validate(k, 0, j, n)]), t, At(d, stacks, t, [Validate(k, 0, j + 1, n)]),
              At(h, stacks, t, [Decide(k, 0, AllPass(m, op, j), n)]));
      }
    }
  }

  // ---------------------------------------------------------------- deciding and releasing

  lemma {:induction false} ReleasesAll(g: Shared, stacks: seq<seq<Frame>>, k: KId, m: seq<Word>, op: KOp, p: nat,
      i: nat,
      won: bool) returns (h: Shared)
    requires k.tid < |stacks| && Stage(g, m, k, op, p, i, won) && i <= |op.entries| && p <= |op.entries|
        && Unknown(m, k)
    requires forall x :: 0 <= x < p ==> m[op.entries[x].addr] == Raw(op.entries[x].oldval)
    requires won ==> p == |op.entries|
    ensures Gets(At(g, stacks, k.tid, [Release(k, 0, i, won)]), k.tid,
                 At(h, stacks, k.tid, [Release(k, 0, |op.entries|, won)]))
    ensures Stage(h, m, k, op, p, |op.entries|, won)
    decreases |op.entries| - i
  {
    var t := k.tid;
    if i == |op.entries| {
      h := g;
      Stays(At(g, stacks, t, [Release(k, 0, i, won)]), t);
    } else {
      Goes(g, stacks, t, Release(k, 0, i, won));
      var d := Next(g, t, Release(k, 0, i, won));
      ReleasesOne(g, k, m, op, p, i, won);
      h := ReleasesAll(d, stacks, k, m, op, p, i + 1, won);
      Joins(At(g, stacks, t, [Release(k, 0, i, won)]), t, At(d, stacks, t, [Release(k, 0, i + 1, won)]),
            At(h, stacks, t, [Release(k, 0, |op.entries|, won)]));
    }
  }

  lemma ReleasesOne(g: Shared, k: KId, m: seq<Word>, op: KOp, p: nat, i: nat, won: bool)
    requires Stage(g, m, k, op, p, i, won) && i < |op.entries| && p <= |op.entries| && Unknown(m, k)
    requires forall x :: 0 <= x < p ==> m[op.entries[x].addr] == Raw(op.entries[x].oldval)
    requires won ==> p == |op.entries|
    ensures Stage(Next(g, k.tid, Release(k, 0, i, won)), m, k, op, p, i + 1, won)
  {
    var h, e := Next(g, k.tid, Release(k, 0, i, won)), op.entries[i];
    Indexed(op.entries, i);
    assert g.mem[e.addr] == Cell(m, op.entries, k, p, i, won, e.addr);
    forall a: nat | a < |m| ensures h.mem[a] == Cell(m, op.entries, k, p, i + 1, won, a) {
      if IndexOf(op.entries, a) == i { assert a == e.addr; }
    }
  }

  // What memory is in the end.
  ghost predicate Result(g: Shared, m: seq<Word>, k: KId, es: seq<Entry>, ok: bool) {
    && k in g.returned && g.returned[k] == ok && |g.mem| == |m|
    && forall a: nat :: a < |m| ==>
         g.mem[a] == if ok && Owned(es, a) then Raw(es[IndexOf(es, a)].newval) else m[a]
  }

  lemma Decides(g: Shared, stacks: seq<seq<Frame>>, k: KId, m: seq<Word>, op: KOp, p: nat, ok: bool, n: nat)
    returns (h: Shared)
    requires k.tid < |stacks| && stacks[k.tid] == [] && Stage(g, m, k, op, p, 0, false) && op.status == Undecided
    requires p <= |op.entries| && Unknown(m, k) && (ok ==> p == |op.entries|)
    requires forall x :: 0 <= x < p ==> m[op.entries[x].addr] == Raw(op.entries[x].oldval)
    ensures Gets(At(g, stacks, k.tid, [Decide(k, 0, ok, n)]), k.tid, State(h, stacks))
    ensures Result(h, m, k, op.entries, ok)
  {
    var t, s := k.tid, At(g, stacks, k.tid, [Decide(k, 0, ok, n)]);
    Goes(g, stacks, t, Decide(k, 0, ok, n));
    var g1 := Next(g, t, Decide(k, 0, ok, n));
    var op' := op.(status := if ok then Succeeded else Failed);
    Goes(g1, stacks, t, Settle(k, 0));
    var g2 := Next(g1, t, Settle(k, 0));
    Joins(s, t, At(g1, stacks, t, [Settle(k, 0)]), At(g2, stacks, t, [Release(k, 0, 0, ok)]));
    assert Stage(g2, m, k, op', p, 0, ok);
    var g3 := ReleasesAll(g2, stacks, k, m, op', p, 0, ok);
    Joins(s, t, At(g2, stacks, t, [Release(k, 0, 0, ok)]), At(g3, stacks, t, [Release(k, 0, |op.entries|, ok)]));
    Goes(g3, stacks, t, Release(k, 0, |op.entries|, ok));
    h := Next(g3, t, Release(k, 0, |op.entries|, ok));
    Joins(s, t, At(g3, stacks, t, [Release(k, 0, |op.entries|, ok)]), At(h, stacks, t, []));
    assert stacks[t := []] == stacks;
  }

  // ---------------------------------------------------------------- the whole operation

  predicate AllMatch(m: seq<Word>, es: seq<Entry>) {
    forall i :: 0 <= i < |es| ==> 0 <= es[i].addr < |m| && m[es[i].addr] == Raw(es[i].oldval)
  }

  // A sequential execution succeeds.
  predicate Agrees(m: seq<Word>, op: KOp) { AllMatch(m, op.entries) && (op.validated ==> AllPass(m, op, 0)) }

  lemma Executes(g: Shared, stacks: seq<seq<Frame>>, k: KId, m: seq<Word>, op: KOp) returns (h: Shared)
    requires k.tid < |stacks| && stacks[k.tid] == [] && Stage(g, m, k, op, 0, 0, false) && op.status == Undecided
    requires Unknown(m, k) && forall i :: 0 <= i < |op.entries| ==> m[op.entries[i].addr].Raw?
    ensures Gets(At(g, stacks, k.tid, [HelpStart(k, 0)]), k.tid, State(h, stacks))
    ensures Result(h, m, k, op.entries, Agrees(m, op))
  {
    var t, s := k.tid, At(g, stacks, k.tid, [HelpStart(k, 0)]);
    Goes(g, stacks, t, HelpStart(k, 0));
    var g1 := Next(g, t, HelpStart(k, 0));
    var j := Mismatch(m, op.entries, 0);
    var g2 := LocksAll(g1, stacks, k, m, op, 0);
    Joins(s, t, At(g1, stacks, t, [LockNext(k, 0, 0)]), At(g2, stacks, t, [LockNext(k, 0, j)]));
    var g3, ok, n := AfterLocks(g2, stacks, k, m, op, j);
    Joins(s, t, At(g2, stacks, t, [LockNext(k, 0, j)]), At(g3, stacks, t, [Decide(k, 0, ok, n)]));
    h := Decides(g3, stacks, k, m, op, j, ok, n);
    Joins(s, t, At(g3, stacks, t, [Decide(k, 0, ok, n)]), State(h, stacks));
  }

  lemma AfterLocks(g: Shared, stacks: seq<seq<Frame>>, k: KId, m: seq<Word>, op: KOp, j: nat)
    returns (h: Shared, ok: bool, n: nat)
    requires k.tid < |stacks| && InMem(op.entries, |m|) && j == Mismatch(m, op.entries, 0)
    requires Stage(g, m, k, op, j, 0, false) && op.status == Undecided
    requires Unknown(m, k) && forall i :: 0 <= i < |op.entries| ==> m[op.entries[i].addr].Raw?
    ensures Gets(At(g, stacks, k.tid, [LockNext(k, 0, j)]), k.tid, At(h, stacks, k.tid, [Decide(k, 0, ok, n)]))
    ensures Stage(h, m, k, op, j, 0, false) && ok == Agrees(m, op) && (ok ==> j == |op.entries|)
  {
    var t := k.tid;
    if j < |op.entries| {
      h, n := LockFails(g, stacks, k, m, op, j);
      ok := false;
    } else {
      n := g.clock;
      Goes(g, stacks, t, LockNext(k, 0, j));
      h := Next(g, t, LockNext(k, 0, j));
      ok := Agrees(m, op);
      if op.validated {
        var d := h;
        h := Validates(d, stacks, k, m, op, 0, n);
        Joins(At(g, stacks, t, [LockNext(k, 0, j)]), t, At(d, stacks, t, [Validate(k, 0, 0, n)]),
              At(h, stacks, t, [Decide(k, 0, ok, n)]));
      }
    }
  }

  /**
   From every reachable state, a thread that has called start() and runs alone completes execute(), or the validating
   form, if the words of its entries hold no tags.  It returns true exactly if all of them hold their old values and, if
   it validates, every visited word is an entry's or holds its visited, unmarked value; then exactly the entries' words
   change, to their new values, and otherwise none does.
   */
  lemma SoloExecute(b: seq<State>, n: nat, t: nat, es: seq<Entry>, validated: bool) returns (s': State, k: KId)
    requires Run(b, n) && t < |Last(b).stacks| && Last(b).stacks[t] == []
    requires t < |Last(b).g.kseq| && t < |Last(b).g.visited| && Started(Last(b).g, t)
    requires DistinctAddrs(es) && InMem(es, |Last(b).g.mem|)
    requires forall i :: 0 <= i < |es| ==> Last(b).g.mem[es[i].addr].Raw?
    ensures Gets(Last(b), t, s') && s'.stacks == Last(b).stacks && k !in Last(b).g.kops && k.tid == t
    ensures Result(s'.g, Last(b).g.mem, k, es,
                   Agrees(Last(b).g.mem, KOp(es, Last(b).g.visited[t], validated, Undecided)))
  {
    RunKeeps(b, n, |b| - 1);
    var s, g, stacks := Last(b), Last(b).g, Last(b).stacks;
    k := KId(t, g.kseq[t] + 1);
    assert k !in g.kops by { assert forall x :: x in g.kops ==> KOpInv(g, x); }
    forall a | 0 <= a < |g.mem| ensures g.mem[a] != KTag(k) { assert WordInv(g, a); }
    var op := KOp(es, g.visited[t], validated, Undecided);
    var g1 := Tick(Publish(g, t, es, validated).0);
    var s1 := At(g1, stacks, t, [HelpStart(k, 0)]);
    assert IdleStep(s, t, s1);
    assert MovesBy(s, t, s1);
    assert Alone([s, s1], t) && Last([s, s1]) == s1;
    var h := Executes(g1, stacks, k, g.mem, op);
    s' := State(h, stacks);
    Joins(s, t, s1, s');
  }
}
