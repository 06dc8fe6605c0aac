/**
 DCSS run alone: from every reachable state, whatever the other threads have left unfinished, a thread that runs by
 itself completes its call, and the call does what a sequential double-compare-single-swap does.
 */
module DcssSolo {
  import opened Dcss
  import opened DcssProof
  import opened DcssHistory

  // Thread `t` runs alone.
  ghost predicate Alone(c: seq<State>, t: nat) { |c| > 0 && forall i :: 0 <= i < |c| - 1 ==> StepBy(c[i], t, c[i + 1]) }

  function Last(c: seq<State>): State requires |c| > 0 { c[|c| - 1] }

  lemma Joins(c: seq<State>, e: seq<State>, t: nat) returns (r: seq<State>)
    requires Alone(c, t) && Alone(e, t) && Last(c) == e[0]
    ensures Alone(r, t) && r == c + e[1..] && Last(r) == Last(e) && r[0] == c[0] && r[|c| - 1] == e[0]
  {
    r := c + e[1..];
    forall i | 0 <= i < |r| - 1 ensures StepBy(r[i], t, r[i + 1]) {
      if i < |c| - 1 {
        assert StepBy(c[i], t, c[i + 1]);
      } else {
        var k := i - (|c| - 1);
        assert StepBy(e[k], t, e[k + 1]) && r[i] == e[k] && r[i + 1] == e[k + 1];
      }
    }
  }

  function After(s: State, t: nat, rest: seq<Frame>, f: Frame): State requires t < |s.stacks| {
    State(Tick(Act(s.g, f).g), s.stacks[t := rest + Act(s.g, f).tops])
  }

  lemma Goes(s: State, t: nat, rest: seq<Frame>, f: Frame)
    requires GoodState(s) && t < |s.stacks| && s.stacks[t] == rest + [f]
    ensures StepBy(s, t, After(s, t, rest, f)) && GoodState(After(s, t, rest, f))
  {
    assert Below(s.stacks[t]) == rest && Top(s.stacks[t]) == f;
    var s' := After(s, t, rest, f);
    assert StepBy(s, t, s');
    StepKeeps(s, s');
  }

  // ---------------------------------------------------------------- helping

  // What helping `x` leaves alone: everything but `x` and its word.
  ghost predicate Around(s: State, s': State, x: OpId) {
    && s'.g.dseq == s.g.dseq && s'.g.results == s.g.results && s'.g.answers == s.g.answers && |s'.g.mem| == |s.g.mem|
    && s'.g.plain == s.g.plain && s'.g.ops.Keys == s.g.ops.Keys
    && (forall y :: y in s.g.ops && y != x ==> s'.g.ops[y] == s.g.ops[y])
    && (x in s.g.ops ==> forall a :: 0 <= a < |s.g.mem| && a != s.g.ops[x].addr2 ==> s'.g.mem[a] == s.g.mem[a])
  }

  lemma HelpsDecide(s: State, t: nat, rest: seq<Frame>, x: OpId) returns (c: seq<State>, won: bool, seen: Word)
    requires GoodState(s) && t < |s.stacks| && s.stacks[t] == rest + [Snapshot(x)]
    requires x in s.g.ops && Load(s.g, s.g.ops[x].addr2) == Tag(x) && s.g.ops[x].phase == Placed
    ensures Alone(c, t) && c[0] == s && GoodState(Last(c)) && Around(s, Last(c), x)
    ensures Last(c).stacks == s.stacks[t := rest + [Finish(x, true, won, seen)]] && Last(c).g.mem == s.g.mem
    ensures Last(c).g.ops[x].addr2 == s.g.ops[x].addr2
  {
    assert OpInv(s.g, x);
    Goes(s, t, rest, Snapshot(x));
    var s1 := After(s, t, rest, Snapshot(x));
    Goes(s1, t, rest, ReadAddr1(x, true));
    var s2 := After(s1, t, rest, ReadAddr1(x, true));
    var f := Act(s1.g, ReadAddr1(x, true)).tops[0];
    Goes(s2, t, rest, f);
    var s3 := After(s2, t, rest, f);
    var f' := CasMutables(x, true, f.want, f.seen, f.at);
    Goes(s3, t, rest, f');
    var s4 := After(s3, t, rest, f');
    c := [s, s1, s2, s3, s4];
    seen := f.seen;
    won := if s3.g.ops[x].status == Undecided then f.want else s3.g.ops[x].status == Succeeded;
  }

  // Helping lifts the tag that a thread has met.
  lemma Helps(s: State, t: nat, rest: seq<Frame>, x: OpId) returns (c: seq<State>)
    requires GoodState(s) && t < |s.stacks| && s.stacks[t] == rest + [Snapshot(x)]
    requires x in s.g.ops && Load(s.g, s.g.ops[x].addr2) == Tag(x) && s.g.ops[x].phase == Placed
    ensures Alone(c, t) && c[0] == s && GoodState(Last(c)) && Around(s, Last(c), x)
    ensures Last(c).stacks == s.stacks[t := rest] && Load(Last(c).g, s.g.ops[x].addr2).Raw?
  {
    var e, won, seen := HelpsDecide(s, t, rest, x);
    var m := Last(e);
    Goes(m, t, rest, Finish(x, true, won, seen));
    var s' := After(m, t, rest, Finish(x, true, won, seen));
    assert OpInv(s.g, x);
    c := Joins(e, [m, s'], t);
    assert rest + [] == rest;
    assert s'.stacks == s.stacks[t := rest];
  }

  // ---------------------------------------------------------------- the call

  // Thread `t` has published `d` as `o`.
  ghost predicate Calls(s: State, t: nat, o: OpId, d: DOp, stacks: seq<seq<Frame>>) {
    && GoodState(s) && t < |stacks| && s.stacks == stacks[t := [Install(o)]]
    && o in s.g.ops && s.g.ops[o] == d.(status := Undecided, phase := Fresh)
  }

  // What a sequential DCSS returns; `o`'s tag is in addr2 while it compares.
  function Answers(g: Shared, o: OpId, d: DOp): Result {
    var w := if d.addr1 == d.addr2 then Tag(o) else Load(g, d.addr1);
    if Load(g, d.addr2) != Raw(d.old2) then FailedAddr2(if Load(g, d.addr2).Raw? then Load(g, d.addr2).v else 0)
    else if w == Raw(d.old1) then Success
    else FailedAddr1(w)
  }

  function Writes(g: Shared, o: OpId, d: DOp): seq<Word> {
    if Answers(g, o, d) == Success then Store(g, d.addr2, Raw(d.new2)).mem else g.mem
  }

  // A record that meets a tag comes back to a word without one.
  lemma Clears(s: State, t: nat, f: Frame, x: OpId, a: int) returns (c: seq<State>)
    requires GoodState(s) && t < |s.stacks| && s.stacks[t] == [f] && Load(s.g, a) == Tag(x)
    requires Act(s.g, f) == Out(s.g, [f, Snapshot(x)])
    ensures Alone(c, t) && c[0] == s && GoodState(Last(c)) && Around(s, Last(c), x)
    ensures Last(c).stacks == s.stacks && Load(Last(c).g, a).Raw? && x in s.g.ops && s.g.ops[x].phase == Placed
  {
    assert WordInv(s.g, a);
    Goes(s, t, [], f);
    var s1 := After(s, t, [], f);
    assert s1.stacks[t] == [f] + [Snapshot(x)];
    var e := Helps(s1, t, [f], x);
    c := Joins([s, s1], e, t);
    assert s1.stacks[t := [f]] == s.stacks;
  }

  // The call begins, and helps whom it meets.
  lemma Begins(s: State, t: nat, d: DOp) returns (c: seq<State>, o: OpId)
    requires GoodState(s) && t < |s.stacks| && s.stacks[t] == [] && Proper(s.g, d)
    ensures Alone(c, t) && c[0] == s && o !in s.g.ops && o.tid == t && Calls(Last(c), t, o, d, s.stacks)
    ensures Load(Last(c).g, d.addr2).Raw? && Proper(Last(c).g, d)
  {
    o := OpId(t, s.g.dseq[t] + 2);
    assert o !in s.g.ops by { assert forall y :: y in s.g.ops ==> OpInv(s.g, y); }
    var s1 := State(Tick(Publish(s.g, t, d).0), s.stacks[t := [Install(o)]]);
    assert IdleStep(s, t, s1);
    assert StepBy(s, t, s1);
    StepKeeps(s, s1);
    c := [s, s1];
    if Load(s1.g, d.addr2).Tag? {
      var e := Clears(s1, t, Install(o), Load(s1.g, d.addr2).o, d.addr2);
      c := Joins([s, s1], e, t);
    }
  }

  lemma Mismatches(s: State, t: nat, o: OpId, d: DOp, stacks: seq<seq<Frame>>) returns (c: seq<State>)
    requires Calls(s, t, o, d, stacks) && stacks[t] == [] && Load(s.g, d.addr2).Raw?
        && Load(s.g, d.addr2) != Raw(d.old2)
    ensures Alone(c, t) && c[0] == s && Last(c).stacks == stacks
    ensures o in Last(c).g.results && Last(c).g.results[o] == Answers(s.g, o, d) && Last(c).g.mem == Writes(s.g, o, d)
  {
    assert s.stacks[t] == [] + [Install(o)];
    Goes(s, t, [], Install(o));
    var s1 := After(s, t, [], Install(o));
    c := [s, s1];
    assert s1.stacks[t] == [];
    assert s1.stacks == stacks;
  }

  // The call has installed its tag and read addr1.
  ghost predicate Looked(s: State, t: nat, o: OpId, d: DOp, stacks: seq<seq<Frame>>, f: Frame) {
    && GoodState(s) && t < |stacks| && s.stacks == stacks[t := [f]] && f.ReadMutables? && f.o == o && !f.h
    && f.want == (f.seen == Raw(d.old1)) && Current(s.g, o)
    && o in s.g.ops && s.g.ops[o] == d.(status := Undecided, phase := Placed) && Load(s.g, d.addr2) == Tag(o)
  }

  lemma Installs(s: State, t: nat, o: OpId, d: DOp, stacks: seq<seq<Frame>>) returns (c: seq<State>, f: Frame)
    requires Calls(s, t, o, d, stacks) && stacks[t] == [] && Load(s.g, d.addr2) == Raw(d.old2) && Proper(s.g, d)
    ensures Alone(c, t) && c[0] == s && Looked(Last(c), t, o, d, stacks, f)
    ensures Last(c).g.mem == s.g.mem[d.addr2 := Tag(o)]
    ensures f.seen == if d.addr1 == d.addr2 then Tag(o) else Load(s.g, d.addr1)
  {
    assert s.stacks[t] == [] + [Install(o)];
    assert FrameInv(s.g, t, 0, s.stacks[t][0]);
    Goes(s, t, [], Install(o));
    var s1 := After(s, t, [], Install(o));
    Goes(s1, t, [], ReadAddr1(o, false));
    var s2 := After(s1, t, [], ReadAddr1(o, false));
    f := Act(s1.g, ReadAddr1(o, false)).tops[0];
    c := [s, s1, s2];
    assert s2.stacks[t] == [f];
    assert s2.stacks == stacks[t := [f]];
  }

  lemma Decides(s: State, t: nat, o: OpId, d: DOp, stacks: seq<seq<Frame>>, f: Frame) returns (c: seq<State>)
    requires Looked(s, t, o, d, stacks, f) && stacks[t] == []
    ensures Alone(c, t) && c[0] == s && Last(c).stacks == stacks
    ensures o in Last(c).g.results && Last(c).g.results[o] == if f.want then Success else FailedAddr1(f.seen)
    ensures Last(c).g.mem == Store(s.g, d.addr2, Raw(if f.want then d.new2 else d.old2)).mem
  {
    assert s.stacks[t] == [] + [f];
    Goes(s, t, [], f);
    var s1 := After(s, t, [], f);
    var f' := CasMutables(o, false, f.want, f.seen, f.at);
    Goes(s1, t, [], f');
    var s2 := After(s1, t, [], f');
    var z := Finish(o, false, f.want, f.seen);
    Goes(s2, t, [], z);
    var s3 := After(s2, t, [], z);
    c := [s, s1, s2, s3];
    assert s3.stacks[t] == [];
    assert s3.stacks == stacks;
  }

  lemma Matches(s: State, t: nat, o: OpId, d: DOp, stacks: seq<seq<Frame>>) returns (c: seq<State>)
    requires Calls(s, t, o, d, stacks) && stacks[t] == [] && Load(s.g, d.addr2) == Raw(d.old2) && Proper(s.g, d)
    ensures Alone(c, t) && c[0] == s && Last(c).stacks == stacks
    ensures o in Last(c).g.results && Last(c).g.results[o] == Answers(s.g, o, d) && Last(c).g.mem == Writes(s.g, o, d)
  {
    var p, f := Installs(s, t, o, d, stacks);
    var e := Decides(Last(p), t, o, d, stacks, f);
    c := Joins(p, e, t);
    assert Last(c).g.mem == Writes(s.g, o, d);
  }

  /**
   A call of dcssPtr that runs alone from any reachable state returns.  At the instant `m` at which it first finds no
   tag in addr2 its answer is the sequential one, and the memory it leaves is what a sequential DCSS makes of the
   memory at that instant; the other threads are where they were.
   */
  lemma SoloCall(b: seq<State>, n: nat, t: nat, d: DOp) returns (c: seq<State>, m: nat, o: OpId)
    requires Run(b, n) && t < |Last(b).stacks| && Last(b).stacks[t] == [] && Proper(Last(b).g, d)
    ensures Alone(c, t) && c[0] == Last(b) && m < |c| && Last(c).stacks == Last(b).stacks
    ensures o !in Last(b).g.ops && o.tid == t && o !in c[m].g.results && Load(c[m].g, d.addr2).Raw?
    ensures o in Last(c).g.results && Last(c).g.results[o] == Answers(c[m].g, o, d)
    ensures Last(c).g.mem == Writes(c[m].g, o, d)
  {
    RunKeeps(b, n, |b| - 1);
    var s := Last(b);
    var p;
    p, o := Begins(s, t, d);
    var q := Last(p);
    assert FrameInv(q.g, t, 0, q.stacks[t][0]);
    var e;
    if Load(q.g, d.addr2) == Raw(d.old2) { e := Matches(q, t, o, d, s.stacks); }
    else { e := Mismatches(q, t, o, d, s.stacks); }
    m := |p| - 1;
    c := Joins(p, e, t);
  }

  /** So does a call of dcssRead, and its answer is then in the word. */
  lemma SoloRead(b: seq<State>, n: nat, t: nat, a: int) returns (c: seq<State>, v: int)
    requires Run(b, n) && t < |Last(b).stacks| && Last(b).stacks[t] == [] && 0 <= a < |Last(b).g.mem|
    ensures Alone(c, t) && c[0] == Last(b) && Last(c).stacks == Last(b).stacks
    ensures Last(c).g.answers == Last(b).g.answers + [Answer(a, v)] && Load(Last(c).g, a) == Raw(v)
  {
    RunKeeps(b, n, |b| - 1);
    var s, f := Last(b), ReadWord(a);
    var s1 := State(Tick(s.g), s.stacks[t := [f]]);
    assert IdleStep(s, t, s1);
    assert StepBy(s, t, s1);
    StepKeeps(s, s1);
    c := [s, s1];
    if Load(s1.g, a).Tag? {
      var e := Clears(s1, t, f, Load(s1.g, a).o, a);
      c := Joins([s, s1], e, t);
    }
    var q := Last(c);
    assert q.stacks == s.stacks[t := [f]] && q.g.answers == s.g.answers;
    var e := Reads(q, t, a, s.stacks);
    c := Joins(c, e, t);
    v := Load(q.g, a).v;
  }

  lemma Reads(s: State, t: nat, a: int, stacks: seq<seq<Frame>>) returns (c: seq<State>)
    requires GoodState(s) && t < |stacks| && stacks[t] == [] && s.stacks == stacks[t := [ReadWord(a)]]
    requires 0 <= a < |s.g.mem| && s.g.mem[a].Raw?
    ensures Alone(c, t) && c[0] == s && Last(c).stacks == stacks
    ensures Last(c).g.answers == s.g.answers + [Answer(a, s.g.mem[a].v)] && Last(c).g.mem == s.g.mem
  {
    Goes(s, t, [], ReadWord(a));
    var s1 := After(s, t, [], ReadWord(a));
    c := [s, s1];
    assert s1.stacks[t] == [];
    assert s1.stacks == stacks;
  }
}
