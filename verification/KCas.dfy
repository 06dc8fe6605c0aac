/**
 The lock-free multi-word compare-and-swap of Harris, Fraser and Pratt with reusable
 descriptors, and its validating form (k-CAS whose success also depends on a set of visited
 words).  Plain k-CAS is the validating one with `validated == false`.

 One thread is a stack of activation records (`Frame`); one step runs the top record up to and
 including its next access to shared memory.  `Act` is that step.  Everything in `Shared`
 that the program does not store (`phase`, `missed`, `returned`, `answers`, `clock`, and descriptors that
 stay in `kops`/`rops` after their owner has moved on) is there for the statements only:
 no step branches on it.
 */
module KCas {

  datatype KId = KId(tid: nat, sn: nat)
  datatype RId = RId(tid: nat, sn: nat)

  // The low two bits of a word: none, RDCSS_TAGBIT, KCAS_TAGBIT.
  datatype Word = Raw(v: int) | RTag(r: RId) | KTag(k: KId)

  datatype Entry = Entry(addr: int, oldval: int, newval: int)
  datatype Visit = Visit(addr: int, value: int)
  datatype Status = Undecided | Succeeded | Failed
  datatype KOp = KOp(entries: seq<Entry>, path: seq<Visit>, validated: bool, status: Status)

  // An RDCSS operation on entry `i` of `k`.  Its tag is placed at most once and lifted at most once.
  datatype Phase = Fresh | Placed | Lifted
  datatype ROp = ROp(k: KId, i: nat, phase: Phase)

  datatype Shared = Shared(
    mem: seq<Word>,
    kops: map<KId, KOp>,
    rops: map<RId, ROp>,
    kseq: seq<nat>,              // sequence number held by each thread's k-CAS descriptor
    rseq: seq<nat>,              // the same for RDCSS descriptors
    visited: seq<seq<Visit>>,    // each thread's path under construction
    missed: set<KId>,            // some install attempt saw a raw word other than the old value
    returned: map<KId, bool>,    // results of finished `execute` calls
    answers: seq<Visit>,         // what readPtr has answered
    clock: nat)

  // `h` is `helpingOther`: 0 for the owner, 1 for a helper.
  datatype Frame =
    | HelpStart(k: KId, h: nat)
    | LockNext(k: KId, h: nat, i: nat)
    | Place(k: KId, h: nat, i: nat, r: RId)
    | OwnLook(k: KId, h: nat, i: nat, r: RId)
    | OwnLift(k: KId, h: nat, i: nat, r: RId, und: bool)
    | Validate(k: KId, h: nat, j: nat, since: nat)
    | Decide(k: KId, h: nat, ok: bool, since: nat)
    | Settle(k: KId, h: nat)
    | Release(k: KId, h: nat, i: nat, won: bool)
    | HelpSnap(k: KId)
    | RdcssSnap(r: RId)
    | RdcssLook(r: RId)
    | RdcssLift(r: RId, und: bool)
    | ReadWord(a: int, visit: bool)

  datatype State = State(g: Shared, stacks: seq<seq<Frame>>)
  datatype Out = Out(g: Shared, tops: seq<Frame>)

  // ---------------------------------------------------------------- reading the shared state

  predicate Marked(v: int) { v % 2 == 1 }

  function Op(g: Shared, k: KId): KOp {
    if k in g.kops then g.kops[k] else KOp([], [], false, Failed)
  }

  function EntryAt(op: KOp, i: nat): Entry {
    if i < |op.entries| then op.entries[i] else Entry(-1, 0, 0)
  }

  function Load(g: Shared, a: int): Word {
    if 0 <= a < |g.mem| then g.mem[a] else Raw(0)
  }

  function Store(g: Shared, a: int, w: Word): Shared {
    if 0 <= a < |g.mem| then g.(mem := g.mem[a := w]) else g
  }

  // DESC_SNAPSHOT and DESC_READ_FIELD succeed exactly when the sequence number still matches.
  predicate Readable(g: Shared, k: KId) { k.tid < |g.kseq| && g.kseq[k.tid] == k.sn }

  predicate Open(g: Shared, k: KId) { Readable(g, k) && Op(g, k).status == Undecided }

  function Target(g: Shared, r: RId): Entry {
    if r in g.rops then EntryAt(Op(g, g.rops[r].k), g.rops[r].i) else Entry(-1, 0, 0)
  }

  // ---------------------------------------------------------------- shared effects of the steps

  // DESC_NEW ... DESC_INITIALIZED on the thread's own RDCSS descriptor
  function NewRdcss(g: Shared, t: nat, k: KId, i: nat): (Shared, RId) {
    var r := RId(t, (if t < |g.rseq| then g.rseq[t] else 0) + 2);
    (g.(rops := g.rops[r := ROp(k, i, Fresh)],
        rseq := if t < |g.rseq| then g.rseq[t := r.sn] else g.rseq), r)
  }

  function PlaceTag(g: Shared, r: RId): Shared {
    if r in g.rops then
      Store(g, Target(g, r).addr, RTag(r)).(rops := g.rops[r := g.rops[r].(phase := Placed)])
    else g
  }

  // The CAS that ends rdcssHelp.
  function LiftTag(g: Shared, r: RId, und: bool): Shared
  {
    var e := Target(g, r);
    if r in g.rops && Load(g, e.addr) == RTag(r) then
      Store(g, e.addr, if und then KTag(g.rops[r].k) else Raw(e.oldval))
        .(rops := g.rops[r := g.rops[r].(phase := Lifted)])
    else g
  }

  // SEQBITS_CAS_FIELD on the state field
  function Resolve(g: Shared, k: KId, ok: bool): Shared {
    if Open(g, k) && k in g.kops then
      g.(kops := g.kops[k := g.kops[k].(status := if ok then Succeeded else Failed)])
    else g
  }

  // One CAS of phase 2.
  function Unlock(g: Shared, k: KId, i: nat, won: bool): Shared {
    var e := EntryAt(Op(g, k), i);
    if Load(g, e.addr) == KTag(k) then Store(g, e.addr, Raw(if won then e.newval else e.oldval)) else g
  }

  // ---------------------------------------------------------------- one step of one record

  function Act(g: Shared, t: nat, f: Frame): Out {
    match f
    case HelpStart(k, h) =>
      if !Readable(g, k) then Out(g, [])
      else if Op(g, k).status == Undecided then Out(g, [LockNext(k, h, h)])
      else Out(g, [Settle(k, h)])
    case LockNext(k, h, i) =>
      if i < |Op(g, k).entries| then
        var (g', r) := NewRdcss(g, t, k, i);
        Out(g', [Place(k, h, i, r)])
      else if Op(g, k).validated then Out(g, [Validate(k, h, 0, g.clock)])
      else Out(g, [Decide(k, h, true, g.clock)])
    case Place(k, h, i, r) =>
      var e := EntryAt(Op(g, k), i);
      (match Load(g, e.addr)
       case RTag(r') => Out(g, [f, RdcssSnap(r')])
       case KTag(k') =>
         if k' == k then Out(g, [LockNext(k, h, i + 1)])
         else Out(g, [LockNext(k, h, i), HelpSnap(k')])
       case Raw(v) =>
         if v != e.oldval then Out(g.(missed := g.missed + {k}), [Decide(k, h, false, g.clock)])
         else Out(PlaceTag(g, r), [OwnLook(k, h, i, r)]))
    case OwnLook(k, h, i, r) => Out(g, [OwnLift(k, h, i, r, Open(g, k))])
    case OwnLift(k, h, i, r, und) => Out(LiftTag(g, r, und), [LockNext(k, h, i + 1)])
    case Validate(k, h, j, since) =>
      var path := Op(g, k).path;
      if j >= |path| then Out(g, [Decide(k, h, true, since)])
      else
        (match Load(g, path[j].addr)
         case KTag(k') => Out(g, [if k' == k then Validate(k, h, j + 1, since) else Decide(k, h, false, since)])
         case RTag(_) => Out(g, [Decide(k, h, false, since)])
         case Raw(v) =>
           Out(g, [if v != path[j].value || Marked(path[j].value) then Decide(k, h, false, since)
                   else Validate(k, h, j + 1, since)]))
    case Decide(k, h, ok, since) => Out(Resolve(g, k, ok), [Settle(k, h)])
    case Settle(k, h) =>
      if !Readable(g, k) then Out(g, []) else Out(g, [Release(k, h, 0, Op(g, k).status == Succeeded)])
    case Release(k, h, i, won) =>
      if i < |Op(g, k).entries| then Out(Unlock(g, k, i, won), [Release(k, h, i + 1, won)])
      else Out(if h == 0 then g.(returned := g.returned[k := won]) else g, [])
    case HelpSnap(k) => Out(g, if Readable(g, k) then [HelpStart(k, 1)] else [])
    case RdcssSnap(r) =>
      Out(g, if r.tid < |g.rseq| && g.rseq[r.tid] == r.sn then [RdcssLook(r)] else [])
    case RdcssLook(r) =>
      Out(g, [RdcssLift(r, r in g.rops && Open(g, g.rops[r].k))])
    case RdcssLift(r, und) => Out(LiftTag(g, r, und), [])
    case ReadWord(a, visit) =>
      (match Load(g, a)
       case RTag(r) => Out(g, [f, RdcssSnap(r)])
       case KTag(k) => Out(g, [f, HelpSnap(k)])
       case Raw(v) =>
         Out(Answer(if visit && t < |g.visited|
                    then g.(visited := g.visited[t := g.visited[t] + [Visit(a, v)]]) else g, Visit(a, v)), []))
  }

  function Answer(g: Shared, v: Visit): Shared { g.(answers := g.answers + [v]) }

  // ---------------------------------------------------------------- runs

  ghost predicate DistinctAddrs(es: seq<Entry>) {
    forall i, j :: 0 <= i < j < |es| ==> es[i].addr != es[j].addr
  }

  ghost predicate InMem(es: seq<Entry>, n: nat) {
    forall i :: 0 <= i < |es| ==> 0 <= es[i].addr < n
  }

  function Tick(g: Shared): Shared { g.(clock := g.clock + 1) }

  ghost predicate Init(s: State, n: nat) {
    var g := s.g;
    && |s.stacks| == |g.kseq| == |g.rseq| == |g.visited| == n
    && (forall t :: 0 <= t < n ==> s.stacks[t] == [] && g.kseq[t] == 1 && g.rseq[t] == 1 && g.visited[t] == [])
    && g.kops == map[] && g.rops == map[] && g.missed == {} && g.returned == map[] && g.answers == [] && g.clock == 0
    && (forall a :: 0 <= a < |g.mem| ==> g.mem[a].Raw?)
  }

  // start(): the descriptor becomes unreadable and its path is emptied.
  function StartOp(g: Shared, t: nat): Shared
    requires t < |g.kseq| && t < |g.visited|
  {
    g.(kseq := g.kseq[t := g.kseq[t] + 1], visited := g.visited[t := []])
  }

  // execute() / validateAndExecute(): publish under the next sequence number.
  function Publish(g: Shared, t: nat, es: seq<Entry>, validated: bool): (Shared, KId)
    requires t < |g.kseq| && t < |g.visited|
  {
    var k := KId(t, g.kseq[t] + 1);
    (g.(kseq := g.kseq[t := k.sn],
        kops := g.kops[k := KOp(es, g.visited[t], validated, Undecided)]), k)
  }

  // The caller of execute has called start() before, perhaps more than once, and not executed since.
  predicate Started(g: Shared, t: nat)
    requires t < |g.kseq|
  {
    g.kseq[t] > 1 && KId(t, g.kseq[t]) !in g.kops
  }

  // A thread between operations starts or publishes one, or reads a word.
  ghost predicate IdleStep(s: State, t: nat, s': State)
    requires t < |s.stacks|
  {
    && s.stacks[t] == [] && t < |s.g.kseq| && t < |s.g.visited|
    && (|| s' == State(Tick(StartOp(s.g, t)), s.stacks)
        || (Started(s.g, t)
            && exists es, validated ::
              && DistinctAddrs(es) && InMem(es, |s.g.mem|)
              && var (g', k) := Publish(s.g, t, es, validated);
                 s' == State(Tick(g'), s.stacks[t := [HelpStart(k, 0)]]))
        || (exists a, visit :: 0 <= a < |s.g.mem| && s' == State(Tick(s.g), s.stacks[t := [ReadWord(a, visit)]])))
  }

  function Below(st: seq<Frame>): seq<Frame> requires st != [] { st[..|st| - 1] }
  function Top(st: seq<Frame>): Frame requires st != [] { st[|st| - 1] }

  ghost predicate BusyStep(s: State, t: nat, s': State)
    requires t < |s.stacks|
  {
    && s.stacks[t] != []
    && var o := Act(s.g, t, Top(s.stacks[t]));
       s' == State(Tick(o.g), s.stacks[t := Below(s.stacks[t]) + o.tops])
  }

  ghost predicate Step(s: State, s': State) {
    exists t: nat :: t < |s.stacks| && (IdleStep(s, t, s') || BusyStep(s, t, s'))
  }

  ghost predicate StepAt(b: seq<State>, i: int) { 0 <= i < |b| - 1 && Step(b[i], b[i + 1]) }

  // A run with any number of threads, any memory and any interleaving.
  ghost predicate Run(b: seq<State>, n: nat) {
    && |b| > 0 && Init(b[0], n)
    && forall i :: 0 <= i < |b| - 1 ==> StepAt(b, i)
  }

  // ---------------------------------------------------------------- the abstract memory

  function IndexOf(es: seq<Entry>, a: int): (i: nat)
    ensures i <= |es|
    ensures i < |es| ==> es[i].addr == a
    ensures i == |es| ==> forall j :: 0 <= j < |es| ==> es[j].addr != a
    ensures forall j :: 0 <= j < i ==> es[j].addr != a
  {
    if es == [] then 0 else if es[0].addr == a then 0 else 1 + IndexOf(es[1..], a)
  }

  function EntryFor(es: seq<Entry>, a: int): Entry {
    var i := IndexOf(es, a);
    if i < |es| then es[i] else Entry(a, 0, 0)
  }

  // What a word stands for.
  function Meaning(g: Shared, a: int): int {
    match Load(g, a)
    case Raw(v) => v
    case RTag(r) => Target(g, r).oldval
    case KTag(k) =>
      var e := EntryFor(Op(g, k).entries, a);
      if Op(g, k).status == Succeeded then e.newval else e.oldval
  }

  function Abs(g: Shared): (m: seq<int>)
    ensures |m| == |g.mem|
    ensures forall a :: 0 <= a < |m| ==> m[a] == Meaning(g, a)
  {
    seq(|g.mem|, a => Meaning(g, a))
  }

  // The specification: all the entries match and change together, and nothing else does.
  ghost predicate AtomicCas(m: seq<int>, es: seq<Entry>, m': seq<int>) {
    && |m| == |m'|
    && (forall i :: 0 <= i < |es| ==>
        0 <= es[i].addr < |m| && m[es[i].addr] == es[i].oldval && m'[es[i].addr] == es[i].newval)
    && (forall a :: 0 <= a < |m| && IndexOf(es, a) == |es| ==> m'[a] == m[a])
  }
}
