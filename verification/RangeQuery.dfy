/**
 Range-query timestamps under the readers-first reader/writer lock.

 One step runs a thread up to and including its next access to the lock word, the timestamp, or the
 address that an update writes.  `events` lists the linearized updates and queries in their real order.
 */
module RangeQuery {

  datatype Pc =
    | Idle
    | RdSpin                       // readLock has added 4
    | Reading
    | HasTs(ts: int)               // inside linearize_update_at_write or _at_cas
    | Wrote(ts: int, e: nat)
    | Stamping(ts: int, e: nat)    // unlocked; about to set the nodes' timestamps
    | UpCas(exp: int)              // upgradeLock
    | UpWait
    | UpClaim
    | WrSpin                       // writeLock
    | WrCas
    | Writing
    | IncRead(v: int)              // traversal_start, inside ++timestamp

  datatype Event = Update(ts: int) | Query(lin: int)

  datatype State = State(lock: int, timestamp: int, pcs: seq<Pc>, events: seq<Event>, stamps: map<nat, int>)

  // What a thread contributes to the lock word.
  datatype Kind = NoneK | ReaderK | UpgraderK | WriterK

  function KindOf(pc: Pc): Kind {
    match pc
    case RdSpin => ReaderK
    case Reading => ReaderK
    case HasTs(_) => ReaderK
    case Wrote(_, _) => ReaderK
    case UpCas(_) => ReaderK
    case UpWait => UpgraderK
    case UpClaim => UpgraderK
    case Writing => WriterK
    case IncRead(_) => WriterK
    case _ => NoneK
  }

  // Holds the lock for reading.
  predicate Inside(pc: Pc) { KindOf(pc) == ReaderK && !pc.RdSpin? }

  predicate WriteLocked(lock: int) { lock % 2 == 1 }
  predicate Upgrading(lock: int) { (lock / 2) % 2 == 1 }
  function SetUpgrading(lock: int): int { if Upgrading(lock) then lock else lock + 2 }      // lock | 2
  function ClearUpgrading(lock: int): int { if Upgrading(lock) then lock - 2 else lock }    // lock & ~2

  function To(s: State, t: nat, pc: Pc): State requires t < |s.pcs| { s.(pcs := s.pcs[t := pc]) }

  // ---------------------------------------------------------------- steps of one thread

  function Upgrade(s: State, t: nat): State requires t < |s.pcs| && s.pcs[t].UpCas? {
    var e := s.pcs[t].exp;
    if Upgrading(e) then To(s, t, Reading)
    else if s.lock == e then To(s.(lock := SetUpgrading(e - 4)), t, UpWait)
    else To(s, t, Reading)       // seen another value: upgradeLock reads the word again
  }

  ghost predicate StepBy(s: State, t: nat, s': State) {
    && t < |s.pcs|
    && match s.pcs[t]
       case Idle => s' == To(s.(lock := s.lock + 4), t, RdSpin) || s' == To(s, t, WrSpin)
       case RdSpin => s' == (if WriteLocked(s.lock) then s else To(s, t, Reading))
       case Reading =>
         || s' == To(s, t, HasTs(s.timestamp))
         || s' == To(s, t, UpCas(s.lock))
         || s' == To(s.(lock := s.lock - 4), t, Idle)
       case HasTs(ts) =>
         || s' == To(s.(events := s.events + [Update(ts)]), t, Wrote(ts, |s.events|))
         || s' == To(s, t, Reading)                                                        // the CAS failed
       case Wrote(ts, e) => s' == To(s.(lock := s.lock - 4), t, Stamping(ts, e))
       case Stamping(ts, e) => s' == To(s.(stamps := s.stamps[e := ts]), t, Idle)
       case UpCas(_) => s' == Upgrade(s, t)
       case UpWait => s' == (if ClearUpgrading(s.lock) != 0 then s else To(s, t, UpClaim))
       case UpClaim => s' == (if s.lock == 2 then To(s.(lock := 1), t, Writing) else To(s, t, UpWait))
       case WrSpin => s' == (if s.lock != 0 then s else To(s, t, WrCas))
       case WrCas => s' == (if s.lock == 0 then To(s.(lock := 1), t, Writing) else To(s, t, WrSpin))
       case Writing => s' == To(s, t, IncRead(s.timestamp)) || s' == To(s.(lock := s.lock - 1), t, Idle)
       case IncRead(v) => s' == To(s.(timestamp := v + 1, events := s.events + [Query(v + 1)]), t, Writing)
  }

  ghost predicate Step(s: State, s': State) { exists t: nat :: StepBy(s, t, s') }

  ghost predicate InitState(s: State) {
    && s.lock == 0 && s.timestamp == 1 && s.events == [] && s.stamps == map[]
    && forall t :: 0 <= t < |s.pcs| ==> s.pcs[t] == Idle
  }

  ghost predicate StepAt(b: seq<State>, i: int) { 0 <= i < |b| - 1 && Step(b[i], b[i + 1]) }

  ghost predicate Run(b: seq<State>) {
    |b| > 0 && InitState(b[0]) && forall i :: 0 <= i < |b| - 1 ==> StepAt(b, i)
  }

  // ---------------------------------------------------------------- counting

  function Count(pcs: seq<Pc>, k: Kind): nat {
    if pcs == [] then 0 else (if KindOf(pcs[0]) == k then 1 else 0) + Count(pcs[1..], k)
  }

  function Is(pc: Pc, k: Kind): nat { if KindOf(pc) == k then 1 else 0 }

  lemma {:induction false} CountSet(pcs: seq<Pc>, t: nat, pc: Pc, k: Kind)
    requires t < |pcs|
    ensures Count(pcs[t := pc], k) == Count(pcs, k) - Is(pcs[t], k) + Is(pc, k)
  {
    if t == 0 {
      assert pcs[t := pc][1..] == pcs[1..];
    } else {
      CountSet(pcs[1..], t - 1, pc, k);
      assert pcs[t := pc][1..] == pcs[1..][t - 1 := pc];
    }
  }

  lemma {:induction false} CountSome(pcs: seq<Pc>, t: nat, k: Kind)
    requires t < |pcs| && KindOf(pcs[t]) == k
    ensures Count(pcs, k) >= 1
  {
    if t > 0 { CountSome(pcs[1..], t - 1, k); }
  }

  lemma {:induction false} CountTwo(pcs: seq<Pc>, t: nat, u: nat, k: Kind)
    requires t < u < |pcs| && KindOf(pcs[t]) == k && KindOf(pcs[u]) == k
    ensures Count(pcs, k) >= 2
  {
    if t > 0 { CountTwo(pcs[1..], t - 1, u - 1, k); } else { CountSome(pcs[1..], u - 1, k); }
  }

  lemma {:induction false} CountNone(pcs: seq<Pc>, k: Kind)
    requires forall t :: 0 <= t < |pcs| ==> KindOf(pcs[t]) != k
    ensures Count(pcs, k) == 0
  {
    if pcs != [] { CountNone(pcs[1..], k); }
  }

  // ---------------------------------------------------------------- invariants

  /** The lock word counts readers by fours, and has one bit for an upgrader and one for a writer. */
  ghost predicate LockInv(s: State) {
    var r, u, w := Count(s.pcs, ReaderK), Count(s.pcs, UpgraderK), Count(s.pcs, WriterK);
    && s.lock == 4 * r + 2 * u + w && u + w <= 1
    && (w == 1 ==> forall t :: 0 <= t < |s.pcs| ==> !Inside(s.pcs[t]))
  }

  predicate PcInv(s: State, pc: Pc) {
    match pc
    case HasTs(ts) => ts == s.timestamp
    case Wrote(ts, e) => ts == s.timestamp && e < |s.events| && s.events[e] == Update(ts)
    case Stamping(ts, e) => e < |s.events| && s.events[e] == Update(ts)
    case IncRead(v) => v == s.timestamp
    case _ => true
  }

  // An update before a query has a smaller timestamp; one after it does not.
  predicate Ordered(a: Event, b: Event) {
    && (a.Update? && b.Query? ==> a.ts < b.lin)
    && (a.Query? && b.Update? ==> a.lin <= b.ts)
  }

  ghost predicate EventsInv(s: State) {
    && (forall i :: 0 <= i < |s.events| ==>
        (match s.events[i] case Update(ts) => ts <= s.timestamp case Query(l) => l <= s.timestamp))
    && (forall i, j :: 0 <= i < j < |s.events| ==> Ordered(s.events[i], s.events[j]))
    && (forall e :: e in s.stamps ==> e < |s.events| && s.events[e] == Update(s.stamps[e]))
  }

  ghost predicate PcsInv(s: State) { forall t :: 0 <= t < |s.pcs| ==> PcInv(s, s.pcs[t]) }
  ghost predicate Inv(s: State) { LockInv(s) && EventsInv(s) && PcsInv(s) }

  // ---------------------------------------------------------------- the lock

  lemma Bits(r: int, u: int, w: int)
    requires 0 <= u && 0 <= w && u + w <= 1
    ensures WriteLocked(4 * r + 2 * u + w) <==> w == 1
    ensures Upgrading(4 * r + 2 * u + w) <==> u == 1
  {}

  lemma MoveCounts(s: State, t: nat, pc: Pc)
    requires t < |s.pcs|
    ensures forall k :: Count(s.pcs[t := pc], k) == Count(s.pcs, k) - Is(s.pcs[t], k) + Is(pc, k)
  {
    forall k ensures Count(s.pcs[t := pc], k) == Count(s.pcs, k) - Is(s.pcs[t], k) + Is(pc, k) {
      CountSet(s.pcs, t, pc, k);
    }
  }

  // A thread that comes to hold the lock for reading sees no writer.
  lemma LockMoves(s: State, t: nat, s': State)
    requires LockInv(s) && t < |s.pcs| == |s'.pcs| && s'.pcs == s.pcs[t := s'.pcs[t]]
    requires var a, c := s.pcs[t], s'.pcs[t];
      && s'.lock == s.lock + 4 * (Is(c, ReaderK) - Is(a, ReaderK)) + 2 * (Is(c, UpgraderK) - Is(a, UpgraderK))
           + Is(c, WriterK) - Is(a, WriterK)
      && (KindOf(c) == UpgraderK && KindOf(a) != UpgraderK ==> Inside(a) && !Upgrading(s.lock))
      && (KindOf(c) == WriterK && KindOf(a) != WriterK ==> s'.lock == 1)
      && (Inside(c) && !Inside(a) ==> !WriteLocked(s.lock))
    ensures LockInv(s')
  {
    var a, c := s.pcs[t], s'.pcs[t];
    MoveCounts(s, t, c);
    Bits(Count(s.pcs, ReaderK), Count(s.pcs, UpgraderK), Count(s.pcs, WriterK));
    if Count(s'.pcs, WriterK) == 1 {
      forall u: nat | u < |s'.pcs| ensures !Inside(s'.pcs[u]) {
        if Inside(s'.pcs[u]) && KindOf(c) == WriterK && KindOf(a) != WriterK { CountSome(s'.pcs, u, ReaderK); }
        if KindOf(a) == WriterK { CountSome(s.pcs, t, WriterK); }
      }
    }
  }

  /** While some thread holds the lock for writing nobody holds it for reading, upgraded or not. */
  lemma Exclusive(s: State, t: nat, u: nat)
    requires LockInv(s) && t < |s.pcs| && u < |s.pcs| && KindOf(s.pcs[t]) == WriterK
    ensures !Inside(s.pcs[u]) && KindOf(s.pcs[u]) != UpgraderK && (u != t ==> KindOf(s.pcs[u]) != WriterK)
  {
    CountSome(s.pcs, t, WriterK);
    if KindOf(s.pcs[u]) == UpgraderK { CountSome(s.pcs, u, UpgraderK); }
    if u != t && KindOf(s.pcs[u]) == WriterK {
      CountTwo(s.pcs, if t < u then t else u, if t < u then u else t, WriterK);
    }
  }

  // ---------------------------------------------------------------- every step

  // An upgrade that takes the bit: there is no writer, so the word loses a reader and gains an upgrader.
  lemma UpgradeLock(s: State, t: nat)
    requires LockInv(s) && t < |s.pcs| && s.pcs[t].UpCas?
    ensures LockInv(Upgrade(s, t))
  {
    var s' := Upgrade(s, t);
    if !Upgrading(s.pcs[t].exp) && s.lock == s.pcs[t].exp {
      assert SetUpgrading(s.lock - 4) == s.lock - 4 + 2;
    }
    LockMoves(s, t, s');
  }

  lemma ReaderLock(s: State, t: nat, s': State)
    requires LockInv(s) && StepBy(s, t, s') && KindOf(s.pcs[t]) == ReaderK && !s.pcs[t].UpCas?
    ensures LockInv(s')
  {
    if s' != s { LockMoves(s, t, s'); }
  }

  lemma OtherLock(s: State, t: nat, s': State)
    requires LockInv(s) && StepBy(s, t, s') && KindOf(s.pcs[t]) != ReaderK
    ensures LockInv(s')
  {
    if s' != s { LockMoves(s, t, s'); }
  }

  lemma StepLock(s: State, t: nat, s': State)
    requires LockInv(s) && StepBy(s, t, s')
    ensures LockInv(s')
  {
    if s.pcs[t].UpCas? { UpgradeLock(s, t); }
    else if KindOf(s.pcs[t]) == ReaderK { ReaderLock(s, t, s'); }
    else { OtherLock(s, t, s'); }
  }

  // Steps that leave the timestamp and the events alone.
  lemma QuietKeeps(s: State, t: nat, s': State)
    requires Inv(s) && t < |s.pcs| == |s'.pcs| && s'.pcs == s.pcs[t := s'.pcs[t]] && LockInv(s')
    requires s'.timestamp == s.timestamp && s'.events == s.events && PcInv(s', s'.pcs[t])
    requires forall e :: e in s'.stamps ==>
        (e in s.stamps && s'.stamps[e] == s.stamps[e]) || (e < |s.events| && s.events[e] == Update(s'.stamps[e]))
    ensures Inv(s')
  {
    forall u | 0 <= u < |s'.pcs| ensures PcInv(s', s'.pcs[u]) { if u != t { assert PcInv(s, s.pcs[u]); } }
  }

  lemma WriteKeeps(s: State, t: nat, ts: int)
    requires Inv(s) && t < |s.pcs| && s.pcs[t] == HasTs(ts)
    ensures EventsInv(s.(events := s.events + [Update(ts)])) && ts == s.timestamp
  {
    assert PcInv(s, s.pcs[t]);
    var s' := s.(events := s.events + [Update(ts)]);
    forall i, j | 0 <= i < j < |s'.events| ensures Ordered(s'.events[i], s'.events[j]) {
      if j < |s.events| { assert Ordered(s.events[i], s.events[j]); }
    }
  }

  lemma UpdateKeeps(s: State, t: nat, s': State, ts: int)
    requires Inv(s) && t < |s.pcs| && s.pcs[t] == HasTs(ts) && LockInv(s')
    requires s' == To(s.(events := s.events + [Update(ts)]), t, Wrote(ts, |s.events|))
    ensures Inv(s')
  {
    WriteKeeps(s, t, ts);
    forall u | 0 <= u < |s'.pcs| ensures PcInv(s', s'.pcs[u]) { if u != t { assert PcInv(s, s.pcs[u]); } }
  }

  // A query increments the timestamp while no update is under way.
  lemma QueryKeeps(s: State, t: nat, s': State, v: int)
    requires Inv(s) && t < |s.pcs| && s.pcs[t] == IncRead(v) && LockInv(s')
    requires s' == To(s.(timestamp := v + 1, events := s.events + [Query(v + 1)]), t, Writing)
    ensures Inv(s')
  {
    assert PcInv(s, s.pcs[t]);
    forall i, j | 0 <= i < j < |s'.events| ensures Ordered(s'.events[i], s'.events[j]) {
      if j < |s.events| { assert Ordered(s.events[i], s.events[j]); }
    }
    forall u: nat | u < |s'.pcs| ensures PcInv(s', s'.pcs[u]) {
      if u != t {
        assert PcInv(s, s.pcs[u]);
        Exclusive(s, t, u);
      }
    }
  }

  lemma OtherKeeps(s: State, t: nat, s': State)
    requires Inv(s) && StepBy(s, t, s') && LockInv(s') && !s.pcs[t].IncRead? && !s.pcs[t].HasTs?
    ensures Inv(s')
  {
    assert PcInv(s, s.pcs[t]);
    if s' != s { QuietKeeps(s, t, s'); }
  }

  lemma StepKeeps(s: State, s': State)
    requires Inv(s) && Step(s, s')
    ensures Inv(s')
  {
    var t: nat :| StepBy(s, t, s');
    StepLock(s, t, s');
    match s.pcs[t]
    case HasTs(ts) =>
      if s' == To(s, t, Reading) { QuietKeeps(s, t, s'); } else { UpdateKeeps(s, t, s', ts); }
    case IncRead(v) => QueryKeeps(s, t, s', v);
    case _ => OtherKeeps(s, t, s');
  }

  lemma InitKeeps(s: State)
    requires InitState(s)
    ensures Inv(s)
  {
    CountNone(s.pcs, ReaderK);
    CountNone(s.pcs, UpgraderK);
    CountNone(s.pcs, WriterK);
  }

  lemma {:induction false} RunKeeps(b: seq<State>, i: nat)
    requires Run(b) && i < |b|
    ensures Inv(b[i])
  {
    if i > 0 {
      RunKeeps(b, i - 1);
      assert StepAt(b, i - 1);
      StepKeeps(b[i - 1], b[i]);
    } else {
      InitKeeps(b[0]);
    }
  }

  // ---------------------------------------------------------------- runs

  /**
   An update's recorded timestamp is below a query's rq_lin_time exactly when the update's write came
   before the query's increment.
   */
  lemma TimestampsTellOrder(b: seq<State>, i: nat, u: nat, q: nat)
    requires Run(b) && i < |b| && u in b[i].stamps && q < |b[i].events| && b[i].events[q].Query?
    ensures u < |b[i].events| && b[i].events[u].Update?
    ensures b[i].stamps[u] < b[i].events[q].lin <==> u < q
  {
    RunKeeps(b, i);
    var e := b[i].events;
    if u < q { assert Ordered(e[u], e[q]); }
    if q < u { assert Ordered(e[q], e[u]); }
  }

  /** Writers exclude readers, upgraders and one another. */
  lemma WritersExclude(b: seq<State>, i: nat, t: nat, u: nat)
    requires Run(b) && i < |b| && t < |b[i].pcs| && u < |b[i].pcs| && t != u && KindOf(b[i].pcs[t]) == WriterK
    ensures KindOf(b[i].pcs[u]) == NoneK || b[i].pcs[u].RdSpin?
  {
    RunKeeps(b, i);
    Exclusive(b[i], t, u);
  }

  /** The word tells the three counts apart. */
  lemma LockWordCounts(b: seq<State>, i: nat)
    requires Run(b) && i < |b|
    ensures b[i].lock / 4 == Count(b[i].pcs, ReaderK)
    ensures Upgrading(b[i].lock) <==> Count(b[i].pcs, UpgraderK) == 1
    ensures WriteLocked(b[i].lock) <==> Count(b[i].pcs, WriterK) == 1
  {
    RunKeeps(b, i);
    Bits(Count(b[i].pcs, ReaderK), Count(b[i].pcs, UpgraderK), Count(b[i].pcs, WriterK));
  }
}
