/**
 Validated k-CAS: a success has one instant at which every entry was locked by the operation,
 the operation was still undecided, and every visited word that is not an entry held its visited,
 unmarked value.
 */
module KCasValidation {
  import opened KCas
  import opened KCasInvariant
  import opened KCasSafety
  import opened KCasRefinement

  // Every entry of `k` is locked and `k` is undecided.
  ghost predicate AllLocked(g: Shared, k: KId) {
    k in g.kops && g.kops[k].status == Undecided && forall i :: 0 <= i < |g.kops[k].entries| ==> Holds(g, k, i)
  }

  ghost predicate Showed(b: seq<State>, m: int, v: Visit) {
    0 <= m < |b| && Meaning(b[m].g, v.addr) == v.value
  }

  // The word held the value itself, and no tag.
  ghost predicate Bare(b: seq<State>, m: int, v: Visit) { 0 <= m < |b| && Load(b[m].g, v.addr) == Raw(v.value) }

  // Some instant from `lo` to `hi` showed the visited value, or the word is an entry of `k`.
  ghost predicate PathOk(b: seq<State>, lo: int, hi: int, k: KId, v: Visit)
    requires 0 <= hi < |b|
  {
    || Owns(Op(b[hi].g, k).entries, v.addr)
    || (!Marked(v.value) && exists m :: lo <= m <= hi && Bare(b, m, v))
  }

  // What a validator that began at `since` and has passed `j` path items knows at instant `n`.
  ghost predicate Checked(b: seq<State>, n: int, k: KId, j: int, since: int)
    requires 0 <= n < |b|
  {
    Op(b[n].g, k).status == Undecided ==>
      && 0 <= since <= n && AllLocked(b[since].g, k)
      && forall q :: 0 <= q < j && q < |Op(b[n].g, k).path| ==> PathOk(b, since, n, k, Op(b[n].g, k).path[q])
  }

  ghost predicate FrameHist(b: seq<State>, n: int, f: Frame)
    requires 0 <= n < |b|
  {
    && (f.Validate? ==> Checked(b, n, f.k, f.j, f.since))
    && (f.Decide? && f.ok && Op(b[n].g, f.k).validated ==> Checked(b, n, f.k, |Op(b[n].g, f.k).path|, f.since))
    && (f.Decide? && !f.ok ==> Caused(b, n, f.k))
  }

  // Validation cannot pass the visited word: a tag is in it that is not `k`'s, or another value, or it was marked.
  ghost predicate Spoiled(g: Shared, k: KId, v: Visit) {
    match Load(g, v.addr)
    case KTag(x) => x != k
    case RTag(_) => true
    case Raw(x) => x != v.value || Marked(v.value)
  }

  // What makes `k` fail: an entry that is not as expected, or a visited word.
  ghost predicate Cause(g: Shared, k: KId) {
    Differs(g, k) || (Op(g, k).validated && exists v :: v in Op(g, k).path && Spoiled(g, k, v))
  }

  ghost predicate Caused(b: seq<State>, n: int, k: KId) {
    exists m :: 0 <= m < n && m < |b| && k in b[m].g.kops && Cause(b[m].g, k)
  }

  // ---------------------------------------------------------------- what a validator learns

  lemma CheckedOn(b: seq<State>, n: int, k: KId, j: int, since: int)
    requires 0 <= n < |b| - 1 && Persists(b[n].g, b[n + 1].g, k) && Checked(b, n, k, j, since)
    ensures Checked(b, n + 1, k, j, since)
  {
    if Op(b[n + 1].g, k).status == Undecided {
      var path := Op(b[n + 1].g, k).path;
      forall q | 0 <= q < j && q < |path| ensures PathOk(b, since, n + 1, k, path[q]) {
        assert PathOk(b, since, n, k, path[q]);
      }
    }
  }

  lemma HistOn(b: seq<State>, n: int, f: Frame)
    requires 0 <= n < |b| - 1 && FrameHist(b, n, f)
    requires f.Validate? || f.Decide? ==> Persists(b[n].g, b[n + 1].g, f.k)
    ensures FrameHist(b, n + 1, f)
  {
    if f.Validate? { CheckedOn(b, n, f.k, f.j, f.since); }
    if f.Decide? && f.ok && Op(b[n].g, f.k).validated { CheckedOn(b, n, f.k, |Op(b[n].g, f.k).path|, f.since); }
  }

  // One more path item passes.
  lemma PassesItem(b: seq<State>, n: int, t: nat, f: Frame)
    requires 0 <= n < |b| - 1 && f.Validate? && FrameInv(b[n].g, t, f) && WordsInv(b[n].g)
    requires Persists(b[n].g, b[n + 1].g, f.k) && Checked(b, n, f.k, f.j, f.since)
    requires Act(b[n].g, t, f).tops == [Validate(f.k, f.h, f.j + 1, f.since)]
    ensures Checked(b, n + 1, f.k, f.j + 1, f.since)
  {
    CheckedOn(b, n, f.k, f.j, f.since);
    var v := Op(b[n].g, f.k).path[f.j];
    match Load(b[n].g, v.addr)
    case KTag(x) => assert WordInv(b[n].g, v.addr);
    case Raw(x) => assert Bare(b, n, v);
    case _ =>
  }

  lemma ActHist(b: seq<State>, n: int, t: nat, f: Frame, d: nat)
    requires 0 <= n < |b| - 1 && b[n].g.clock == n && FrameInv(b[n].g, t, f) && WordsInv(b[n].g)
    requires f.Validate? || f.LockNext? || f.Place? ==> Persists(b[n].g, b[n + 1].g, f.k)
    requires FrameHist(b, n, f) && d < |Act(b[n].g, t, f).tops|
    ensures FrameHist(b, n + 1, Act(b[n].g, t, f).tops[d])
  {
    var f' := Act(b[n].g, t, f).tops[d];
    if f.LockNext? {
      assert Op(b[n].g, f.k).status == Undecided ==> f'.Validate? ==> AllLocked(b[n].g, f.k);
    } else if f.Validate? {
      if f'.Validate? { PassesItem(b, n, t, f); }
      else if f'.ok { CheckedOn(b, n, f.k, f.j, f.since); }
      else { assert Spoiled(b[n].g, f.k, Op(b[n].g, f.k).path[f.j]) && Cause(b[n].g, f.k); }
    } else if f.Place? && f'.Decide? {
      var e := b[n].g.kops[f.k].entries[f.i];
      assert Meaning(b[n].g, e.addr) != e.oldval;
      assert Cause(b[n].g, f.k);
    }
  }

  lemma ActClock(g: Shared, t: nat, f: Frame)
    ensures Act(g, t, f).g.clock == g.clock
  {}

  lemma {:induction false} RunClock(b: seq<State>, n: nat, i: nat)
    requires Run(b, n) && i < |b|
    ensures b[i].g.clock == i
  {
    if i > 0 {
      RunClock(b, n, i - 1);
      assert StepAt(b, i - 1);
      var s, s' := b[i - 1], b[i];
      var t: nat :| t < |s.stacks| && (IdleStep(s, t, s') || BusyStep(s, t, s'));
      if BusyStep(s, t, s') { ActClock(s.g, t, Top(s.stacks[t])); }
    }
  }

  ghost predicate AllHist(b: seq<State>, i: int)
    requires 0 <= i < |b|
  {
    forall t, d :: 0 <= t < |b[i].stacks| && 0 <= d < |b[i].stacks[t]| ==> FrameHist(b, i, b[i].stacks[t][d])
  }

  lemma FrameOp(g: Shared, t: nat, f: Frame)
    requires FrameInv(g, t, f) && (f.Validate? || f.LockNext? || f.Place? || f.Decide?)
    ensures f.k in g.kops
  {}

  lemma OldFrameHist(b: seq<State>, n: nat, i: nat, t: nat, d: nat)
    requires Run(b, n) && i < |b| - 1 && AllHist(b, i) && t < |b[i].stacks| && d < |b[i].stacks[t]|
    ensures FrameHist(b, i + 1, b[i].stacks[t][d])
  {
    RunKeeps(b, n, i);
    var f := b[i].stacks[t][d];
    assert FrameInv(b[i].g, t, f) && FrameHist(b, i, f);
    if f.Validate? || f.Decide? {
      FrameOp(b[i].g, t, f);
      RunStepPersists(b, n, i, f.k);
    }
    HistOn(b, i, f);
  }

  lemma NewFrameHist(b: seq<State>, n: nat, i: nat, t: nat, d: nat)
    requires Run(b, n) && i < |b| - 1 && AllHist(b, i) && t < |b[i].stacks| && b[i].stacks[t] != []
    requires d < |Act(b[i].g, t, Top(b[i].stacks[t])).tops|
    ensures FrameHist(b, i + 1, Act(b[i].g, t, Top(b[i].stacks[t])).tops[d])
  {
    RunKeeps(b, n, i);
    RunClock(b, n, i);
    var f := Top(b[i].stacks[t]);
    assert FrameInv(b[i].g, t, f) && FrameHist(b, i, f);
    if f.Validate? || f.LockNext? || f.Place? {
      FrameOp(b[i].g, t, f);
      RunStepPersists(b, n, i, f.k);
    }
    ActHist(b, i, t, f, d);
  }

  lemma HistStep(b: seq<State>, n: nat, i: nat, t: nat, u: nat, d: nat)
    requires Run(b, n) && i < |b| - 1 && AllHist(b, i)
    requires t < |b[i].stacks| && (IdleStep(b[i], t, b[i + 1]) || BusyStep(b[i], t, b[i + 1]))
    requires u < |b[i + 1].stacks| && d < |b[i + 1].stacks[u]|
    ensures FrameHist(b, i + 1, b[i + 1].stacks[u][d])
  {
    if u != t || (b[i].stacks[t] != [] && d < |b[i].stacks[t]| - 1) {
      OldFrameHist(b, n, i, u, d);
    } else if b[i].stacks[t] != [] {
      NewFrameHist(b, n, i, t, d - (|b[i].stacks[t]| - 1));
    }
  }

  lemma AllHistStep(b: seq<State>, n: nat, i: nat, t: nat)
    requires Run(b, n) && i < |b| - 1 && AllHist(b, i)
    requires t < |b[i].stacks| && (IdleStep(b[i], t, b[i + 1]) || BusyStep(b[i], t, b[i + 1]))
    ensures AllHist(b, i + 1)
  {
    var s' := b[i + 1];
    forall u, d | 0 <= u < |s'.stacks| && 0 <= d < |s'.stacks[u]| ensures FrameHist(b, i + 1, s'.stacks[u][d]) {
      HistStep(b, n, i, t, u, d);
    }
  }

  lemma HistGoes(b: seq<State>, n: nat, i: nat)
    requires Run(b, n) && i < |b| - 1 && AllHist(b, i)
    ensures AllHist(b, i + 1)
  {
    assert StepAt(b, i);
    var t: nat :| t < |b[i].stacks| && (IdleStep(b[i], t, b[i + 1]) || BusyStep(b[i], t, b[i + 1]));
    AllHistStep(b, n, i, t);
  }

  lemma {:induction false} RunHist(b: seq<State>, n: nat, i: nat)
    requires Run(b, n) && i < |b|
    ensures AllHist(b, i)
  {
    if i > 0 {
      RunHist(b, n, i - 1);
      HistGoes(b, n, i - 1);
    } else {
      assert forall t :: 0 <= t < |b[0].stacks| ==> b[0].stacks[t] == [];
    }
  }

  // ---------------------------------------------------------------- the deciding step

  lemma DeciderKnows(b: seq<State>, n: nat, j: nat, k: KId) returns (since: nat)
    requires Run(b, n) && EffectAt(b, j, k) && b[j].g.kops[k].validated
    ensures since <= j && AllLocked(b[since].g, k)
    ensures forall v :: v in b[j].g.kops[k].path ==> PathOk(b, since, j, k, v)
  {
    RunHist(b, n, j);
    var s, s' := b[j], b[j + 1];
    assert StepAt(b, j);
    var t: nat :| t < |s.stacks| && (IdleStep(s, t, s') || BusyStep(s, t, s'));
    if BusyStep(s, t, s') {
      var f := Top(s.stacks[t]);
      DecidedByOk(s.g, t, f, k);
      assert FrameHist(b, j, f);
      since := f.since;
    } else {
      IdleStatus(b, n, j, t, k);
      assert false;
    }
  }

  lemma DecidedByOk(g: Shared, t: nat, f: Frame, k: KId)
    requires k in g.kops && g.kops[k].status == Undecided && Op(Act(g, t, f).g, k).status == Succeeded
    ensures f.Decide? && f.k == k && f.ok
  {}

  lemma IdleStatus(b: seq<State>, n: nat, j: nat, t: nat, k: KId)
    requires Run(b, n) && j < |b| - 1 && t < |b[j].stacks| && IdleStep(b[j], t, b[j + 1]) && k in b[j].g.kops
    ensures Op(b[j + 1].g, k) == b[j].g.kops[k]
  {
    RunKeeps(b, n, j);
    assert KId(t, b[j].g.kseq[t] + 1) !in b[j].g.kops by { assert forall x :: x in b[j].g.kops ==> KOpInv(b[j].g, x); }
  }

  lemma DecidedByFailure(g: Shared, t: nat, f: Frame, k: KId)
    requires k in g.kops && g.kops[k].status == Undecided && Op(Act(g, t, f).g, k).status == Failed
    ensures f.Decide? && f.k == k && !f.ok
  {}

  lemma FailedByDecider(b: seq<State>, n: nat, j: nat, k: KId)
    requires Run(b, n) && j < |b| - 1 && k in b[j].g.kops && b[j].g.kops[k].status == Undecided
    requires Op(b[j + 1].g, k).status == Failed
    ensures Caused(b, j, k)
  {
    RunHist(b, n, j);
    var s, s' := b[j], b[j + 1];
    assert StepAt(b, j);
    var t: nat :| t < |s.stacks| && (IdleStep(s, t, s') || BusyStep(s, t, s'));
    if BusyStep(s, t, s') {
      var f := Top(s.stacks[t]);
      DecidedByFailure(s.g, t, f, k);
      assert FrameHist(b, j, f);
    } else {
      IdleStatus(b, n, j, t, k);
    }
  }

  /**
   A k-CAS, validated or not, fails only if at some instant, while it was undecided, an entry differed from its old
   value or, for a validated one, a visited word was not as validation wants it.
   */
  lemma FailureCause(b: seq<State>, n: nat, j: nat, k: KId) returns (i: nat)
    requires Run(b, n) && j < |b| && k in b[j].g.kops && b[j].g.kops[k].status == Failed
    ensures i < j && k in b[i].g.kops && b[i].g.kops[k].status == Undecided && Cause(b[i].g, k)
  {
    var d := DecidedAt(b, n, j, k);
    FailedByDecider(b, n, d, k);
    i :| 0 <= i < d && k in b[i].g.kops && Cause(b[i].g, k);
    RunPersists(b, n, i, d, k);
  }

  // ---------------------------------------------------------------- visits really happened

  // Before `hi`, some instant showed the value.
  ghost predicate SeenBefore(b: seq<State>, hi: int, v: Visit) { exists m :: 0 <= m < hi && Bare(b, m, v) }

  ghost predicate VisitedOk(b: seq<State>, i: int)
    requires 0 <= i < |b|
  {
    forall t, v :: 0 <= t < |b[i].g.visited| && v in b[i].g.visited[t] ==> SeenBefore(b, i, v)
  }

  lemma VisitStep(g: Shared, t: nat, f: Frame, u: nat, v: Visit)
    requires u < |Act(g, t, f).g.visited| && v in Act(g, t, f).g.visited[u] && u < |g.visited|
    ensures v in g.visited[u] || Load(g, v.addr) == Raw(v.value)
  {}

  lemma IdleVisit(s: State, t: nat, s': State, u: nat, v: Visit)
    requires t < |s.stacks| && IdleStep(s, t, s') && u < |s.g.visited| && u < |s'.g.visited| && v in s'.g.visited[u]
    ensures v in s.g.visited[u]
  {}

  lemma StepVisit(s: State, s': State, u: nat, v: Visit)
    requires Step(s, s') && u < |s.g.visited| && u < |s'.g.visited| && v in s'.g.visited[u]
    ensures v in s.g.visited[u] || Load(s.g, v.addr) == Raw(v.value)
  {
    var t: nat :| t < |s.stacks| && (IdleStep(s, t, s') || BusyStep(s, t, s'));
    if BusyStep(s, t, s') { VisitStep(s.g, t, Top(s.stacks[t]), u, v); } else { IdleVisit(s, t, s', u, v); }
  }

  lemma RunVisitStep(b: seq<State>, n: nat, i: nat, u: nat, v: Visit)
    requires Run(b, n) && i < |b| - 1 && u < |b[i + 1].g.visited| && v in b[i + 1].g.visited[u]
    ensures u < |b[i].g.visited| && (v in b[i].g.visited[u] || Bare(b, i, v))
  {
    RunSizes(b, n, i);
    RunSizes(b, n, i + 1);
    VisitAt(b, n, i, u, v);
  }

  lemma VisitAt(b: seq<State>, n: nat, i: nat, u: nat, v: Visit)
    requires Run(b, n) && i < |b| - 1 && u < |b[i].g.visited| && u < |b[i + 1].g.visited| && v in b[i + 1].g.visited[u]
    ensures v in b[i].g.visited[u] || Bare(b, i, v)
  {
    assert StepAt(b, i);
    StepVisit(b[i], b[i + 1], u, v);
  }

  lemma RunSizes(b: seq<State>, n: nat, i: nat)
    requires Run(b, n) && i < |b|
    ensures |b[i].g.visited| == |b[0].g.visited|
  {
    RunKeeps(b, n, i);
  }

  lemma {:induction false} RunVisits(b: seq<State>, n: nat, i: nat)
    requires Run(b, n) && i < |b|
    ensures VisitedOk(b, i)
  {
    if i > 0 {
      RunVisits(b, n, i - 1);
      forall u, v | 0 <= u < |b[i].g.visited| && v in b[i].g.visited[u] ensures SeenBefore(b, i, v) {
        RunVisitStep(b, n, i - 1, u, v);
        if v in b[i - 1].g.visited[u] {
          assert SeenBefore(b, i - 1, v);
          var m :| 0 <= m < i - 1 && Bare(b, m, v);
          assert 0 <= m < i && Bare(b, m, v);
        } else {
          assert 0 <= i - 1 < i && Bare(b, i - 1, v);
        }
      }
    }
  }

  // Each path item of an operation showed its value before the operation was published.
  lemma {:induction false} PathVisited(b: seq<State>, n: nat, i: nat, k: KId, v: Visit) returns (m: nat)
    requires Run(b, n) && i < |b| && k in b[i].g.kops && v in b[i].g.kops[k].path
    ensures m < i && Bare(b, m, v) && k !in b[m].g.kops
  {
    if k in b[i - 1].g.kops {
      RunStepPersists(b, n, i - 1, k);
      m := PathVisited(b, n, i - 1, k, v);
    } else {
      RunVisits(b, n, i - 1);
      FreshPath(b, n, i - 1, k);
      assert SeenBefore(b, i - 1, v);
      m :| 0 <= m < i - 1 && Bare(b, m, v);
      if k in b[m].g.kops { RunPersists(b, n, m, i - 1, k); }
    }
  }

  lemma IdleFreshPath(s: State, t: nat, s': State, k: KId)
    requires t < |s.stacks| && IdleStep(s, t, s') && k !in s.g.kops && k in s'.g.kops
    ensures k.tid < |s.g.visited| && s'.g.kops[k].path == s.g.visited[k.tid]
  {}

  lemma StepFreshPath(s: State, s': State, k: KId)
    requires Step(s, s') && k !in s.g.kops && k in s'.g.kops
    ensures k.tid < |s.g.visited| && s'.g.kops[k].path == s.g.visited[k.tid]
  {
    var t: nat :| t < |s.stacks| && (IdleStep(s, t, s') || BusyStep(s, t, s'));
    if BusyStep(s, t, s') { ActKeys(s.g, t, Top(s.stacks[t]), k); } else { IdleFreshPath(s, t, s', k); }
  }

  lemma FreshPath(b: seq<State>, n: nat, i: nat, k: KId)
    requires Run(b, n) && i < |b| - 1 && k !in b[i].g.kops && k in b[i + 1].g.kops
    ensures k.tid < |b[i].g.visited| && b[i + 1].g.kops[k].path == b[i].g.visited[k.tid]
  {
    assert StepAt(b, i);
    StepFreshPath(b[i], b[i + 1], k);
  }

  // ---------------------------------------------------------------- the theorem

  // Version words count up: a value that is gone does not come back.
  ghost predicate NeverReturns(b: seq<State>, a: int) {
    forall i, m, j :: 0 <= i <= m <= j < |b| && Meaning(b[i].g, a) == Meaning(b[j].g, a)
        ==> Meaning(b[m].g, a) == Meaning(b[i].g, a)
  }

  /** The instant of a successful validated k-CAS. */
  lemma ValidationInstant(b: seq<State>, n: nat, j: nat, k: KId) returns (i: nat)
    requires Run(b, n) && EffectAt(b, j, k) && b[j].g.kops[k].validated
    requires forall v :: v in b[j].g.kops[k].path ==> NeverReturns(b, v.addr)
    ensures i <= j && AllLocked(b[i].g, k)
    ensures forall v :: v in b[j].g.kops[k].path && !Owns(b[j].g.kops[k].entries, v.addr) ==>
              Meaning(b[i].g, v.addr) == v.value && !Marked(v.value)
  {
    i := DeciderKnows(b, n, j, k);
    RunPersists(b, n, i, j, k);
    forall v | v in b[j].g.kops[k].path && !Owns(b[j].g.kops[k].entries, v.addr)
      ensures Meaning(b[i].g, v.addr) == v.value && !Marked(v.value)
    {
      assert PathOk(b, i, j, k, v);
      var m :| i <= m <= j && Bare(b, m, v);
      var p := PathVisited(b, n, j, k, v);
      if p >= i { RunPersists(b, n, i, p, k); }
      assert NeverReturns(b, v.addr);
      assert Meaning(b[p].g, v.addr) == Meaning(b[m].g, v.addr);
    }
  }
}
