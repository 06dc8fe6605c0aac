/**
 k-CAS: what readPtr answers, and which visits make up an operation's path.
 */
module KCasReads {
  import opened KCas
  import opened KCasInvariant
  import opened KCasSafety
  import V = KCasValidation

  // Thread `t`'s step ends a read of word `a`.
  ghost predicate ReadEnds(b: seq<State>, i: int, t: nat, a: int, visit: bool) {
    && 0 <= i < |b| - 1 && t < |b[i].stacks| && b[i].stacks[t] != [] && Top(b[i].stacks[t]) == ReadWord(a, visit)
    && BusyStep(b[i], t, b[i + 1]) && b[i + 1].stacks[t] == Below(b[i].stacks[t])
  }

  /**
   What readPtr answers is what the word means at the instant of the answer, even when another thread's tag has
   been in the word before; a visit adds that answer to the thread's path.
   */
  lemma ReadAnswers(b: seq<State>, n: nat, i: nat, t: nat, a: int, visit: bool) returns (v: int)
    requires Run(b, n) && ReadEnds(b, i, t, a, visit)
    ensures b[i + 1].g.answers == b[i].g.answers + [Visit(a, v)] && Meaning(b[i].g, a) == v
    ensures t < |b[i].g.visited| == |b[i + 1].g.visited|
    ensures b[i + 1].g.visited[t] == b[i].g.visited[t] + (if visit then [Visit(a, v)] else [])
  {
    RunKeeps(b, n, i);
    var st := b[i].stacks[t];
    assert |Below(st) + Act(b[i].g, t, Top(st)).tops| == |st| - 1;
    assert Load(b[i].g, a).Raw?;
    v := Load(b[i].g, a).v;
  }

  lemma OtherAnswers(g: Shared, t: nat, f: Frame)
    requires !f.ReadWord?
    ensures Act(g, t, f).g.answers == g.answers && Act(g, t, f).g.visited == g.visited
  {}

  /** Nothing else answers. */
  lemma OnlyReadsAnswer(b: seq<State>, n: nat, i: nat)
    requires Run(b, n) && i < |b| - 1 && b[i + 1].g.answers != b[i].g.answers
    ensures exists t, a, visit :: ReadEnds(b, i, t, a, visit)
  {
    assert StepAt(b, i);
    var t: nat :| t < |b[i].stacks| && (IdleStep(b[i], t, b[i + 1]) || BusyStep(b[i], t, b[i + 1]));
    if BusyStep(b[i], t, b[i + 1]) {
      var f := Top(b[i].stacks[t]);
      if !f.ReadWord? { OtherAnswers(b[i].g, t, f); }
      assert ReadEnds(b, i, t, f.a, f.visit);
    }
  }

  // ---------------------------------------------------------------- paths

  // Thread `t` calls start().
  ghost predicate Starts(b: seq<State>, i: int, t: nat) {
    0 <= i < |b| - 1 && t < |b[i].stacks| && t < |b[i].g.kseq| && t < |b[i].g.visited|
    && b[i].stacks[t] == [] && b[i + 1] == State(Tick(StartOp(b[i].g, t)), b[i].stacks)
  }

  // The visits that thread `t` has made since it last called start(), as of instant `i`.
  ghost function VisitsSince(b: seq<State>, i: nat, t: nat): seq<Visit>
    requires i < |b|
  {
    if i == 0 || Starts(b, i - 1, t) then []
    else VisitsSince(b, i - 1, t) + (if Visits(b, i - 1, t) then b[i].g.answers[|b[i - 1].g.answers|..] else [])
  }

  ghost predicate Visits(b: seq<State>, i: int, t: nat) { exists a :: ReadEnds(b, i, t, a, true) }

  lemma BusyVisits(b: seq<State>, n: nat, i: nat, u: nat, t: nat)
    requires Run(b, n) && i < |b| - 1 && u < |b[i].stacks| && BusyStep(b[i], u, b[i + 1]) && t < |b[i].g.visited|
    requires !Visits(b, i, t)
    ensures |b[i + 1].g.visited| == |b[i].g.visited| && b[i + 1].g.visited[t] == b[i].g.visited[t]
  {
    var f := Top(b[i].stacks[u]);
    if !f.ReadWord? {
      OtherAnswers(b[i].g, u, f);
    } else if Load(b[i].g, f.a).Raw? {
      assert b[i + 1].stacks[u] == Below(b[i].stacks[u]) + [];
      assert ReadEnds(b, i, u, f.a, f.visit);
    }
  }

  lemma IdleVisits(b: seq<State>, n: nat, i: nat, u: nat, t: nat)
    requires Run(b, n) && i < |b| - 1 && u < |b[i].stacks| && IdleStep(b[i], u, b[i + 1]) && t < |b[i].g.visited|
    requires !Starts(b, i, t)
    ensures |b[i + 1].g.visited| == |b[i].g.visited| && b[i + 1].g.visited[t] == b[i].g.visited[t]
  {}

  lemma NoVisit(b: seq<State>, n: nat, i: nat, t: nat)
    requires Run(b, n) && i < |b| - 1 && t < |b[i].g.visited| && !Starts(b, i, t) && !Visits(b, i, t)
    ensures |b[i + 1].g.visited| == |b[i].g.visited| && b[i + 1].g.visited[t] == b[i].g.visited[t]
  {
    assert StepAt(b, i);
    var u: nat :| u < |b[i].stacks| && (IdleStep(b[i], u, b[i + 1]) || BusyStep(b[i], u, b[i + 1]));
    if BusyStep(b[i], u, b[i + 1]) { BusyVisits(b, n, i, u, t); } else { IdleVisits(b, n, i, u, t); }
  }

  lemma OneVisit(b: seq<State>, n: nat, i: nat, t: nat)
    requires Run(b, n) && i < |b| - 1 && Visits(b, i, t)
    ensures t < |b[i].g.visited| == |b[i + 1].g.visited| && |b[i].g.answers| <= |b[i + 1].g.answers|
    ensures b[i + 1].g.visited[t] == b[i].g.visited[t] + b[i + 1].g.answers[|b[i].g.answers|..]
  {
    var a :| ReadEnds(b, i, t, a, true);
    var v := ReadAnswers(b, n, i, t, a, true);
  }

  // The path under construction is what has been visited since start().
  lemma {:induction false} VisitedIs(b: seq<State>, n: nat, i: nat, t: nat)
    requires Run(b, n) && i < |b| && t < |b[i].g.visited|
    ensures b[i].g.visited[t] == VisitsSince(b, i, t)
  {
    if i > 0 {
      SameThreads(b, n, i - 1);
      VisitedIs(b, n, i - 1, t);
      if !Starts(b, i - 1, t) {
        if Visits(b, i - 1, t) { OneVisit(b, n, i - 1, t); } else { NoVisit(b, n, i - 1, t); }
      }
    }
  }

  lemma SameThreads(b: seq<State>, n: nat, i: nat)
    requires Run(b, n) && i < |b| - 1
    ensures |b[i].g.visited| == |b[i + 1].g.visited|
  {
    V.RunSizes(b, n, i);
    V.RunSizes(b, n, i + 1);
  }

  /**
   An operation's path is exactly what its thread has visited since it called start(), with the values it was
   told.
   */
  lemma PathIsVisits(b: seq<State>, n: nat, i: nat, k: KId)
    requires Run(b, n) && i < |b| - 1 && k !in b[i].g.kops && k in b[i + 1].g.kops
    ensures b[i + 1].g.kops[k].path == VisitsSince(b, i, k.tid)
  {
    V.FreshPath(b, n, i, k);
    VisitedIs(b, n, i, k.tid);
  }
}
