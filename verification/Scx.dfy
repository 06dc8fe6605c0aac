/**
 LLX and SCX with reusable descriptors.

 A node's `hist` lists every handle its `scxPtr` has held, the last one being its value; steps
 read only the last.  A thread is a stack of activation records; one step runs the top record up
 to and including its next shared access.  `hist`, `swung`, `results`, `answers`, and descriptors kept
 after reuse exist for the statements only.
 */
module Scx {

  datatype OpId = OpId(tid: nat, sn: nat)
  datatype Handle = Init | H(o: OpId)              // INIT_SCX_HANDLE or a descriptor's tag
  datatype Status = InProgress | Committed | Aborted

  datatype SOp = SOp(
    nodes: seq<nat>, finalize: seq<bool>, seen: seq<Handle>,   // one per scxAddNode
    field: nat, oldVal: int, newVal: int,
    allFrozen: bool, st: Status)

  datatype Node = Node(marked: bool, hist: seq<Handle>)

  // What LLX returns for a node: a handle; or FINALIZED, if the node was marked when it began, and FAILED otherwise.
  datatype Answer = Got(n: nat, hd: Handle) | Nothing(n: nat, finalized: bool)

  datatype Shared = Shared(
    nodes: seq<Node>,
    data: seq<int>,                          // the words that update CASes change
    ops: map<OpId, SOp>,
    dseq: seq<nat>,
    linked: seq<map<nat, Handle>>,           // per thread: its successful LLX results
    swung: set<OpId>,                        // some update CAS was made while still in progress
    results: map<OpId, bool>,
    answers: seq<Answer>)

  // `h` is helpingOther.
  datatype Frame =
    | Freeze(o: OpId, h: bool, i: nat)
    | CheckExp(o: OpId, h: bool, i: nat)
    | ReadFrozen(o: OpId, h: bool, i: nat)
    | Abort(o: OpId, h: bool)
    | Mark(o: OpId, h: bool, i: nat)
    | Update(o: OpId, h: bool)
    | Commit(o: OpId, h: bool)
    | Leave(o: OpId, won: bool)
    | HelpSnap(o: OpId)
    | LlxMarked(n: nat)
    | LlxScx(n: nat, fin: bool)
    | LlxState(n: nat, fin: bool, hd: Handle)
    | LlxUnmarked(n: nat, fin: bool, hd: Handle)
    | LlxAgain(n: nat, fin: bool, hd: Handle)

  datatype State = State(g: Shared, stacks: seq<seq<Frame>>)
  datatype Out = Out(g: Shared, tops: seq<Frame>)

  // ---------------------------------------------------------------- reading the shared state

  function Op(g: Shared, o: OpId): SOp {
    if o in g.ops then g.ops[o] else SOp([], [], [], 0, 0, 0, false, Aborted)
  }

  predicate Current(g: Shared, o: OpId) { o.tid < |g.dseq| && g.dseq[o.tid] == o.sn }

  function NodeOf(g: Shared, n: nat): Node { if n < |g.nodes| then g.nodes[n] else Node(false, [Init]) }

  function ScxPtr(g: Shared, n: nat): Handle {
    var hist := NodeOf(g, n).hist; if hist == [] then Init else hist[|hist| - 1]
  }

  // ---------------------------------------------------------------- shared effects

  function FreezeNode(g: Shared, n: nat, o: OpId): Shared {
    if n < |g.nodes| then g.(nodes := g.nodes[n := g.nodes[n].(hist := g.nodes[n].hist + [H(o)])]) else g
  }

  function MarkNode(g: Shared, n: nat): Shared {
    if n < |g.nodes| then g.(nodes := g.nodes[n := g.nodes[n].(marked := true)]) else g
  }

  // MUTABLES1_WRITE_BIT and MUTABLES1_WRITE_FIELD: no effect once the sequence number has moved on.
  function SetFrozen(g: Shared, o: OpId): Shared {
    if Current(g, o) && o in g.ops then g.(ops := g.ops[o := g.ops[o].(allFrozen := true)]) else g
  }

  function SetState(g: Shared, o: OpId, st: Status): Shared {
    if Current(g, o) && o in g.ops then g.(ops := g.ops[o := g.ops[o].(st := st)]) else g
  }

  function UpdateCas(g: Shared, o: OpId): Shared {
    var op := Op(g, o);
    var d := if op.field < |g.data| && g.data[op.field] == op.oldVal then g.data[op.field := op.newVal] else g.data;
    g.(data := d, swung := if op.st == InProgress then g.swung + {o} else g.swung)
  }

  function Tell(g: Shared, a: Answer): Shared { g.(answers := g.answers + [a]) }

  function Link(m: map<nat, Handle>, n: nat, hd: Handle): map<nat, Handle> { m[n := hd] }

  // The state field as LLX reads it: a descriptor that moved on counts as committed.
  function StateOf(g: Shared, hd: Handle): Status {
    match hd
    case Init => Committed
    case H(o) => if Current(g, o) then Op(g, o).st else Committed
  }

  // ---------------------------------------------------------------- one step of one record

  function Return(o: OpId, h: bool, won: bool): seq<Frame> { if h then [] else [Leave(o, won)] }

  function Act(g: Shared, t: nat, f: Frame): Out {
    match f
    case Freeze(o, h, i) =>
      var op := Op(g, o);
      if i < |op.nodes| && i < |op.seen| then
        if ScxPtr(g, op.nodes[i]) == op.seen[i] then Out(FreezeNode(g, op.nodes[i], o), [Freeze(o, h, i + 1)])
        else Out(g, [CheckExp(o, h, i)])
      else Out(SetFrozen(g, o), [Mark(o, h, 0)])
    case CheckExp(o, h, i) =>
      var op := Op(g, o);
      Out(g, [if i < |op.nodes| && ScxPtr(g, op.nodes[i]) == H(o) then Freeze(o, h, i + 1) else ReadFrozen(o, h, i)])
    case ReadFrozen(o, h, i) =>
      if !Current(g, o) then Out(g, Return(o, h, false))
      else if Op(g, o).allFrozen then Out(g, Return(o, h, true))
      else Out(g, [Abort(o, h)])
    case Abort(o, h) => Out(SetState(g, o, Aborted), Return(o, h, false))
    case Mark(o, h, i) =>
      var op := Op(g, o);
      if i < |op.nodes| && i < |op.finalize| then
        Out(if op.finalize[i] then MarkNode(g, op.nodes[i]) else g, [Mark(o, h, i + 1)])
      else Out(g, [Update(o, h)])
    case Update(o, h) => Out(UpdateCas(g, o), [Commit(o, h)])
    case Commit(o, h) => Out(SetState(g, o, Committed), Return(o, h, true))
    case Leave(o, won) =>
      Out(g.(results := g.results[o := won],
             dseq := if t < |g.dseq| then g.dseq[t := g.dseq[t] + 1] else g.dseq), [])
    case HelpSnap(o) => Out(g, if Current(g, o) then [Freeze(o, true, 1)] else [])
    case LlxMarked(n) => Out(g, [LlxScx(n, NodeOf(g, n).marked)])
    case LlxScx(n, fin) => Out(g, [LlxState(n, fin, ScxPtr(g, n))])
    case LlxState(n, fin, hd) =>
      (match StateOf(g, hd)
       case Aborted => Out(g, [LlxAgain(n, fin, hd)])
       case Committed => Out(g, [LlxUnmarked(n, fin, hd)])
       case InProgress => Out(Tell(g, Nothing(n, fin)), if hd.H? then [HelpSnap(hd.o)] else []))
    case LlxUnmarked(n, fin, hd) =>
      if NodeOf(g, n).marked then Out(Tell(g, Nothing(n, fin)), []) else Out(g, [LlxAgain(n, fin, hd)])
    case LlxAgain(n, fin, hd) =>
      Out(if ScxPtr(g, n) == hd && t < |g.linked| then
            Tell(g.(linked := g.linked[t := Link(g.linked[t], n, hd)]), Got(n, hd))
          else Tell(g, Nothing(n, fin)), [])
  }

  // ---------------------------------------------------------------- runs

  ghost predicate InitState(s: State, n: nat) {
    var g := s.g;
    && |s.stacks| == |g.dseq| == |g.linked| == n
    && (forall t :: 0 <= t < n ==> s.stacks[t] == [] && g.dseq[t] == 2 && g.linked[t] == map[])
    && (forall i :: 0 <= i < |g.nodes| ==> g.nodes[i] == Node(false, [Init]))
    && g.ops == map[] && g.swung == {} && g.results == map[] && g.answers == []
  }

  // What scxInit and scxAddNode build: distinct nodes, each with this thread's LLX result.
  ghost predicate Proper(g: Shared, t: nat, op: SOp)
    requires t < |g.linked|
  {
    && |op.nodes| == |op.finalize| == |op.seen|
    && (forall i, j :: 0 <= i < j < |op.nodes| ==> op.nodes[i] != op.nodes[j])
    && (forall i :: 0 <= i < |op.nodes| ==>
          op.nodes[i] < |g.nodes| && op.nodes[i] in g.linked[t] && g.linked[t][op.nodes[i]] == op.seen[i])
    && !op.allFrozen && op.st == InProgress
  }

  function Publish(g: Shared, t: nat, op: SOp): (Shared, OpId)
    requires t < |g.dseq|
  {
    var o := OpId(t, g.dseq[t] + 1);
    (g.(dseq := g.dseq[t := o.sn], ops := g.ops[o := op]), o)
  }

  ghost predicate IdleStep(s: State, t: nat, s': State)
    requires t < |s.stacks|
  {
    && s.stacks[t] == [] && t < |s.g.dseq| && t < |s.g.linked|
    && (|| (exists op :: Proper(s.g, t, op)
              && var (g', o) := Publish(s.g, t, op); s' == State(g', s.stacks[t := [Freeze(o, false, 0)]]))
        || (exists n :: 0 <= n < |s.g.nodes| && s' == State(s.g, s.stacks[t := [LlxMarked(n)]])))
  }

  function Below(st: seq<Frame>): seq<Frame> requires st != [] { st[..|st| - 1] }
  function Top(st: seq<Frame>): Frame requires st != [] { st[|st| - 1] }

  ghost predicate BusyStep(s: State, t: nat, s': State)
    requires t < |s.stacks|
  {
    && s.stacks[t] != []
    && var o := Act(s.g, t, Top(s.stacks[t])); s' == State(o.g, s.stacks[t := Below(s.stacks[t]) + o.tops])
  }

  ghost predicate StepBy(s: State, t: nat, s': State) {
    t < |s.stacks| && (IdleStep(s, t, s') || BusyStep(s, t, s'))
  }

  ghost predicate Step(s: State, s': State) { exists t: nat :: StepBy(s, t, s') }

  ghost predicate StepAt(b: seq<State>, i: int) { 0 <= i < |b| - 1 && Step(b[i], b[i + 1]) }

  ghost predicate Run(b: seq<State>, n: nat) {
    |b| > 0 && InitState(b[0], n) && forall i :: 0 <= i < |b| - 1 ==> StepAt(b, i)
  }
}
