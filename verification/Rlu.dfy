/**
 Read-log-update: reader sections, write-set logs kept in a ring, and the quiescence wait that
 precedes writing a log back and resetting the ones written back before.

 One step runs a thread up to and including its next shared access.  Locking an object and copying it
 into the log are one step (nobody else writes a locked object or reads an uncommitted log).
 `touched`, `stolen` and `direct` record what a section obtained; no step depends on them.
 */
module Rlu {

  const RLU_MAX_WRITE_SETS := 200

  // A write-set log: the `c`-th of thread `w`.
  datatype Ref = Ref(w: nat, c: nat)
  datatype Lock = Unlocked | LockedBy(log: Ref)
  datatype Version = Max | At(v: nat)
  datatype Wait = NoWait | WaitFor(run: nat)
  datatype Stolen = Stolen(log: Ref, obj: nat, copy: int)

  datatype Pc =
    | Idle
    | ReadVersion                  // rlu_register_thread, after incrementing run_counter
    | StoreVersion(L: nat)
    | In
    | Decide(o: nat, log: Ref)     // rlu_deref_slow_path, having read a pointer to a copy
    | Commit
    | SyncRead                     // rlu_sync_and_writeback
    | SyncStore(V: nat)
    | SyncFaa(V: nat)
    | Scan(V: nat, waits: seq<Wait>)
    | WaitRun(V: nat, k: nat, waits: seq<Wait>)
    | WaitVersion(V: nat, k: nat, waits: seq<Wait>)
    | Reset(V: nat, c: nat)
    | Back(V: nat, c: nat, todo: set<nat>)
    | Unlock(V: nat, c: nat, todo: set<nat>, o: nat)
    | Finish(V: nat)

  datatype Thread = Thread(
    pc: Pc, run: nat, local: nat, wv: Version, isWrite: bool,
    head: nat, wb: nat, tail: nat, logs: seq<map<nat, int>>,
    touched: set<Ref>, stolen: set<Stolen>, direct: set<nat>)

  datatype State = State(gver: nat, maxSets: nat, th: seq<Thread>, lock: seq<Lock>, actual: seq<int>)

  function Slot(c: nat): nat { c % RLU_MAX_WRITE_SETS }
  function LogOf(x: Thread, c: nat): map<nat, int> { if Slot(c) < |x.logs| then x.logs[Slot(c)] else map[] }
  function PutLog(x: Thread, c: nat, m: map<nat, int>): Thread {
    if Slot(c) < |x.logs| then x.(logs := x.logs[Slot(c) := m]) else x
  }

  predicate InSection(pc: Pc) { pc.In? || pc.Decide? }
  predicate Odd(n: nat) { n % 2 == 1 }

  // ---------------------------------------------------------------- steps of one thread

  function Set(s: State, t: nat, x: Thread): State requires t < |s.th| { s.(th := s.th[t := x]) }

  function Enter(x: Thread): Thread { x.(run := x.run + 1, pc := ReadVersion) }
  function StoreLocal(x: Thread, L: nat): Thread { x.(local := L, isWrite := false, pc := In) }

  function Leave(x: Thread): Thread {
    x.(run := x.run + 1, pc := if x.isWrite then Commit else Idle, touched := {}, stolen := {}, direct := {})
  }

  function ReadLock(s: State, t: nat, o: nat): State requires t < |s.th| && o < |s.lock| {
    var x := s.th[t];
    match s.lock[o]
    case Unlocked => Set(s, t, x.(direct := x.direct + {o}))
    case LockedBy(log) => if log.w == t then s else Set(s, t, x.(pc := Decide(o, log), touched := x.touched + {log}))
  }

  function Steal(s: State, t: nat): State requires t < |s.th| && s.th[t].pc.Decide? && s.th[t].pc.log.w < |s.th| {
    var x := s.th[t];
    var o, log := x.pc.o, x.pc.log;
    var w := s.th[log.w];
    if w.wv.At? && w.wv.v <= x.local then
      var m := LogOf(w, log.c);
      Set(s, t, x.(pc := In, stolen := x.stolen + {Stolen(log, o, if o in m then m[o] else 0)}))
    else
      Set(s, t, x.(pc := In, direct := x.direct + {o}))
  }

  function TryLock(s: State, t: nat, o: nat): State requires t < |s.th| && o < |s.lock| && o < |s.actual| {
    var x := s.th[t];
    if s.lock[o] != Unlocked then s
    else
      Set(s, t, PutLog(x.(isWrite := true), x.tail, LogOf(x, x.tail)[o := s.actual[o]]))
        .(lock := s.lock[o := LockedBy(Ref(t, x.tail))])
  }

  function WriteCopy(s: State, t: nat, o: nat, v: int): State requires t < |s.th| {
    var x := s.th[t];
    Set(s, t, PutLog(x, x.tail, LogOf(x, x.tail)[o := v]))
  }

  predicate MustSync(x: Thread, maxSets: nat) {
    Slot(x.tail) == Slot(x.head) || x.tail - x.wb >= maxSets
  }

  function DoCommit(s: State, t: nat): State requires t < |s.th| {
    var x := s.th[t].(tail := s.th[t].tail + 1, isWrite := false);
    Set(s, t, x.(pc := if MustSync(x, s.maxSets) then SyncRead else Idle))
  }

  function ScanNext(s: State, t: nat): State requires t < |s.th| && s.th[t].pc.Scan? {
    var x := s.th[t];
    var k := |x.pc.waits|;
    if k < |s.th| then
      var e := if k != t && Odd(s.th[k].run) then WaitFor(s.th[k].run) else NoWait;
      Set(s, t, x.(pc := Scan(x.pc.V, x.pc.waits + [e])))
    else Set(s, t, x.(pc := WaitRun(x.pc.V, 0, x.pc.waits)))
  }

  function CheckRun(s: State, t: nat): State requires t < |s.th| && s.th[t].pc.WaitRun? {
    var x := s.th[t];
    var V, k, waits := x.pc.V, x.pc.k, x.pc.waits;
    if k >= |s.th| || k >= |waits| then Set(s, t, x.(pc := Reset(V, x.head)))
    else if waits[k].NoWait? || waits[k].run != s.th[k].run then Set(s, t, x.(pc := WaitRun(V, k + 1, waits)))
    else Set(s, t, x.(pc := WaitVersion(V, k, waits)))
  }

  function CheckVersion(s: State, t: nat): State
    requires t < |s.th| && s.th[t].pc.WaitVersion? && s.th[t].pc.k < |s.th|
  {
    var x := s.th[t];
    var V, k, waits := x.pc.V, x.pc.k, x.pc.waits;
    Set(s, t, x.(pc := if s.th[k].local >= V then WaitRun(V, k + 1, waits) else WaitRun(V, k, waits)))
  }

  function BackAt(x: Thread, V: nat, c: nat): Thread {
    x.(pc := Back(V, c, if c < x.tail then LogOf(x, c).Keys else {}))
  }

  function ResetNext(s: State, t: nat): State requires t < |s.th| && s.th[t].pc.Reset? {
    var x := s.th[t];
    var V, c := x.pc.V, x.pc.c;
    Set(s, t, if c < x.wb then PutLog(x, c, map[]).(pc := Reset(V, c + 1)) else BackAt(x.(head := x.wb), V, x.wb))
  }

  // With every object of log `c` written back, go on to the next log.
  function BackNext(x: Thread): Thread requires x.pc.Back? {
    if x.pc.c >= x.tail then x.(wb := x.tail, pc := Finish(x.pc.V)) else BackAt(x, x.pc.V, x.pc.c + 1)
  }

  function WriteBack(s: State, t: nat, o: nat): State requires t < |s.th| && s.th[t].pc.Back? && o < |s.actual| {
    var x := s.th[t];
    var m := LogOf(x, x.pc.c);
    Set(s, t, x.(pc := Unlock(x.pc.V, x.pc.c, x.pc.todo, o))).(actual := s.actual[o := if o in m then m[o] else 0])
  }

  function DoUnlock(s: State, t: nat): State requires t < |s.th| && s.th[t].pc.Unlock? && s.th[t].pc.o < |s.lock| {
    var x := s.th[t];
    Set(s, t, x.(pc := Back(x.pc.V, x.pc.c, x.pc.todo - {x.pc.o}))).(lock := s.lock[x.pc.o := Unlocked])
  }

  ghost predicate SectionStep(s: State, t: nat, s': State)
    requires t < |s.th|
  {
    || s' == Set(s, t, Leave(s.th[t]))
    || (exists o: nat :: o < |s.lock| && o < |s.actual| && (s' == ReadLock(s, t, o) || s' == TryLock(s, t, o)))
    || (exists o: nat, v :: o < |s.lock| && s.lock[o] == LockedBy(Ref(t, s.th[t].tail)) && s' == WriteCopy(s, t, o, v))
  }

  ghost predicate StepBy(s: State, t: nat, s': State) {
    && t < |s.th|
    && var x := s.th[t];
       match x.pc
       case Idle => s' == Set(s, t, Enter(x)) || (x.tail != x.head && s' == Set(s, t, x.(pc := SyncRead)))
       case ReadVersion => s' == Set(s, t, x.(pc := StoreVersion(s.gver)))
       case StoreVersion(L) => s' == Set(s, t, StoreLocal(x, L))
       case In => SectionStep(s, t, s')
       case Decide(_, log) => log.w < |s.th| ==> s' == Steal(s, t)
       case Commit => s' == DoCommit(s, t)
       case SyncRead => s' == Set(s, t, x.(pc := SyncStore(s.gver + 1)))
       case SyncStore(V) => s' == Set(s, t, x.(wv := At(V), pc := SyncFaa(V)))
       case SyncFaa(V) => s' == Set(s, t, x.(pc := Scan(V, []))).(gver := s.gver + 1)
       case Scan(_, _) => s' == ScanNext(s, t)
       case WaitRun(_, _, _) => s' == CheckRun(s, t)
       case WaitVersion(_, k, _) => k < |s.th| ==> s' == CheckVersion(s, t)
       case Reset(_, _) => s' == ResetNext(s, t)
       case Back(_, _, todo) =>
         if todo == {} then s' == Set(s, t, BackNext(x))
         else exists o :: o in todo && (o < |s.actual| ==> s' == WriteBack(s, t, o))
       case Unlock(_, _, _, o) => o < |s.lock| ==> s' == DoUnlock(s, t)
       case Finish(_) => s' == Set(s, t, x.(wv := Max, pc := Idle))
  }

  ghost predicate Step(s: State, s': State) { exists t: nat :: StepBy(s, t, s') }

  ghost predicate InitState(s: State) {
    && s.gver == 0 && |s.lock| == |s.actual| && 1 <= s.maxSets && s.maxSets * 2 <= RLU_MAX_WRITE_SETS
    && (forall o :: 0 <= o < |s.lock| ==> s.lock[o] == Unlocked)
    && (forall t :: 0 <= t < |s.th| ==>
          s.th[t] == Thread(Idle, 0, 0, Max, false, 0, 0, 0, seq(RLU_MAX_WRITE_SETS, _ => map[]), {}, {}, {}))
  }

  ghost predicate StepAt(b: seq<State>, i: int) { 0 <= i < |b| - 1 && Step(b[i], b[i + 1]) }

  ghost predicate Run(b: seq<State>) {
    |b| > 0 && InitState(b[0]) && forall i :: 0 <= i < |b| - 1 ==> StepAt(b, i)
  }
}
