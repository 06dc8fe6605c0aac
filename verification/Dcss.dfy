/**
 Double-compare-single-swap with reusable descriptors: `addr2` goes from `old2` to `new2` if
 `addr1` holds `old1`.  A descriptor's mutable word holds a sequence number and a state; helpers
 work from a snapshot and may act after the owner has started its next operation.

 A thread is a stack of activation records; one step runs the top record up to and including its
 next shared access.  `phase`, `results`, `answers`, `clock`, and descriptors kept after reuse exist for the
 statements only.
 */
module Dcss {

  datatype OpId = OpId(tid: nat, sn: nat)
  datatype Word = Raw(v: int) | Tag(o: OpId)
  datatype Status = Undecided | Succeeded | Failed
  datatype Phase = Fresh | Placed | Removed      // the tag in addr2
  datatype DOp = DOp(addr1: int, old1: int, addr2: int, old2: int, new2: int, status: Status, phase: Phase)

  datatype Answer = Answer(addr: int, value: int)   // an answer of dcssRead
  datatype Result = Success | FailedAddr1(seen: Word) | FailedAddr2(found: int)

  datatype Shared = Shared(
    mem: seq<Word>,
    plain: set<int>,          // words that no operation uses as addr2; the program writes them freely
    ops: map<OpId, DOp>,
    dseq: seq<nat>,           // sequence number in each thread's descriptor
    results: map<OpId, Result>,
    answers: seq<Answer>,
    clock: nat)

  // `h` is helpingOther; `want` is the state the record will try to set, from `seen` at instant `at`.
  datatype Frame =
    | Install(o: OpId)
    | ReadAddr1(o: OpId, h: bool)
    | ReadMutables(o: OpId, h: bool, want: bool, seen: Word, at: nat)
    | CasMutables(o: OpId, h: bool, want: bool, seen: Word, at: nat)
    | Finish(o: OpId, h: bool, won: bool, seen: Word)
    | Snapshot(o: OpId)
    | ReadWord(a: int)

  datatype State = State(g: Shared, stacks: seq<seq<Frame>>)
  datatype Out = Out(g: Shared, tops: seq<Frame>)

  // ---------------------------------------------------------------- reading the shared state

  function Op(g: Shared, o: OpId): DOp {
    if o in g.ops then g.ops[o] else DOp(-1, 0, -1, 0, 0, Undecided, Fresh)
  }

  function Load(g: Shared, a: int): Word { if 0 <= a < |g.mem| then g.mem[a] else Raw(0) }

  function Store(g: Shared, a: int, w: Word): Shared {
    if 0 <= a < |g.mem| then g.(mem := g.mem[a := w]) else g
  }

  predicate Current(g: Shared, o: OpId) { o.tid < |g.dseq| && g.dseq[o.tid] == o.sn }

  // The state field of a thread's descriptor, whichever operation it now belongs to.
  function CellState(g: Shared, t: nat): Status {
    if t < |g.dseq| then Op(g, OpId(t, g.dseq[t])).status else Undecided
  }

  // ---------------------------------------------------------------- shared effects

  function PlaceTag(g: Shared, o: OpId): Shared {
    if o in g.ops then Store(g, g.ops[o].addr2, Tag(o)).(ops := g.ops[o := g.ops[o].(phase := Placed)]) else g
  }

  function Decide(g: Shared, o: OpId, want: bool): Shared {
    if o in g.ops then g.(ops := g.ops[o := g.ops[o].(status := if want then Succeeded else Failed)]) else g
  }

  function RemoveTag(g: Shared, o: OpId, won: bool): Shared {
    if o in g.ops && Load(g, g.ops[o].addr2) == Tag(o) then
      Store(g, g.ops[o].addr2, Raw(if won then g.ops[o].new2 else g.ops[o].old2))
        .(ops := g.ops[o := g.ops[o].(phase := Removed)])
    else g
  }

  function Return(g: Shared, o: OpId, r: Result): Shared { g.(results := g.results[o := r]) }

  // ---------------------------------------------------------------- one step of one record

  function Act(g: Shared, f: Frame): Out {
    match f
    case Install(o) =>
      (match Load(g, Op(g, o).addr2)
       case Tag(o') => Out(g, [f, Snapshot(o')])
       case Raw(v) =>
         if v == Op(g, o).old2 then Out(PlaceTag(g, o), [ReadAddr1(o, false)])
         else Out(Return(g, o, FailedAddr2(v)), []))
    case ReadAddr1(o, h) =>
      var w := Load(g, Op(g, o).addr1);
      Out(g, [ReadMutables(o, h, w == Raw(Op(g, o).old1), w, g.clock)])
    case ReadMutables(o, h, want, seen, at) =>
      Out(g, if Current(g, o) then [CasMutables(o, h, want, seen, at)] else [])
    case CasMutables(o, h, want, seen, at) =>
      if Current(g, o) && Op(g, o).status == Undecided then
        Out(Decide(g, o, want), [Finish(o, h, want, seen)])
      else
        // the CAS failed: what it returned may belong to a later operation of the same thread
        (match CellState(g, o.tid)
         case Undecided => Out(g, [])         // retried, and the sequence number gives it away
         case Succeeded => Out(g, [Finish(o, h, true, seen)])
         case Failed => Out(g, [Finish(o, h, false, seen)]))
    case Finish(o, h, won, seen) =>
      var g' := RemoveTag(g, o, won);
      Out(if h then g' else Return(g', o, if won then Success else FailedAddr1(seen)), [])
    case Snapshot(o) => Out(g, if Current(g, o) then [ReadAddr1(o, true)] else [])
    case ReadWord(a) =>
      (match Load(g, a)
       case Tag(o) => Out(g, [f, Snapshot(o)])
       case Raw(v) => Out(g.(answers := g.answers + [Answer(a, v)]), []))
  }

  // ---------------------------------------------------------------- runs

  function Tick(g: Shared): Shared { g.(clock := g.clock + 1) }

  ghost predicate Init(s: State, n: nat) {
    var g := s.g;
    && |s.stacks| == |g.dseq| == n
    && (forall t :: 0 <= t < n ==> s.stacks[t] == [] && g.dseq[t] == 1)
    && g.ops == map[] && g.results == map[] && g.answers == [] && g.clock == 0
    && (forall a :: 0 <= a < |g.mem| ==> g.mem[a].Raw?)
  }

  // DESC_NEW, field writes, DESC_INITIALIZED
  function Publish(g: Shared, t: nat, d: DOp): (Shared, OpId)
    requires t < |g.dseq|
  {
    var o := OpId(t, g.dseq[t] + 2);
    (g.(dseq := g.dseq[t := o.sn], ops := g.ops[o := d.(status := Undecided, phase := Fresh)]), o)
  }

  ghost predicate Proper(g: Shared, d: DOp) {
    0 <= d.addr1 < |g.mem| && 0 <= d.addr2 < |g.mem| && d.addr2 !in g.plain
  }

  // An idle thread begins an operation or a read, or writes a plain word.
  ghost predicate IdleStep(s: State, t: nat, s': State)
    requires t < |s.stacks|
  {
    && s.stacks[t] == [] && t < |s.g.dseq|
    && (|| (exists d :: Proper(s.g, d)
              && var (g', o) := Publish(s.g, t, d); s' == State(Tick(g'), s.stacks[t := [Install(o)]]))
        || (exists a :: 0 <= a < |s.g.mem| && s' == State(Tick(s.g), s.stacks[t := [ReadWord(a)]]))
        || (exists a, v :: a in s.g.plain && s' == State(Tick(Store(s.g, a, Raw(v))), s.stacks)))
  }

  function Below(st: seq<Frame>): seq<Frame> requires st != [] { st[..|st| - 1] }
  function Top(st: seq<Frame>): Frame requires st != [] { st[|st| - 1] }

  ghost predicate BusyStep(s: State, t: nat, s': State)
    requires t < |s.stacks|
  {
    && s.stacks[t] != []
    && var o := Act(s.g, Top(s.stacks[t])); s' == State(Tick(o.g), s.stacks[t := Below(s.stacks[t]) + o.tops])
  }

  ghost predicate StepBy(s: State, t: nat, s': State) {
    t < |s.stacks| && (IdleStep(s, t, s') || BusyStep(s, t, s'))
  }

  ghost predicate Step(s: State, s': State) { exists t: nat :: StepBy(s, t, s') }

  ghost predicate StepAt(b: seq<State>, i: int) { 0 <= i < |b| - 1 && Step(b[i], b[i + 1]) }

  ghost predicate Run(b: seq<State>, n: nat) {
    |b| > 0 && Init(b[0], n) && forall i :: 0 <= i < |b| - 1 ==> StepAt(b, i)
  }

  // ---------------------------------------------------------------- the abstract memory

  function Meaning(g: Shared, a: int): Word {
    match Load(g, a)
    case Raw(v) => Raw(v)
    case Tag(o) => Raw(if Op(g, o).status == Succeeded then Op(g, o).new2 else Op(g, o).old2)
  }
}
