/**
 DEBRA: epoch-based reclamation with three bags for each thread and amortized scanning.

 One step runs a thread up to and including its next access to `epoch` or to an announcement.
 `rot`, `annAt`, `opNo` and the objects' stamps and holders record the past; no step depends on them.
 */
module Debra {
  import opened Limbo

  const EPOCH_INCREMENT := 2
  const MIN_OPS_BEFORE_READ := 10
  const NUMBER_OF_EPOCH_BAGS := 3

  function BitsEpoch(ann: int): int { ann - ann % EPOCH_INCREMENT }
  predicate Quiescent(ann: int) { ann % 2 == 1 }
  function WithQuiescent(ann: int): int { if Quiescent(ann) then ann else ann + 1 }

  datatype Pc =
    | Outside                    // between operations
    | Rotating(r: int)           // startOp saw a new epoch
    | Draining(r: int)
    | Announcing(r: int)
    | Scanning(r: int)
    | Advancing(r: int)          // about to CAS the epoch
    | Inside

  datatype Thread = Thread(
    pc: Pc, announced: int, local: int, index: nat, checked: nat, opsSinceRead: nat,
    rot: int,       // epoch read by the latest operation that rotated the bags
    annAt: int,     // value of `epoch` at the latest announcement
    opNo: nat)

  datatype State = State(epoch: int, th: seq<Thread>, objs: Objs)

  // An operation runs from its announcement on, until endOp.
  predicate Active(th: Thread) { th.pc.Scanning? || th.pc.Advancing? || th.pc.Inside? }

  function Running(th: seq<Thread>): set<OpRef> {
    set u: nat | u < |th| && Active(th[u]) :: OpRef(u, th[u].opNo)
  }

  // ---------------------------------------------------------------- steps of one thread

  function NextIndex(index: nat): nat { (index + 1) % NUMBER_OF_EPOCH_BAGS }

  function Begin(s: State, t: nat): State requires t < |s.th| {
    var x := s.th[t];
    var y := x.(local := s.epoch);
    s.(th := s.th[t := if s.epoch != x.local then y.(checked := 0, pc := Rotating(s.epoch))
        else y.(pc := Draining(s.epoch))])
  }

  // Only full blocks leave the bag, so any part of it may stay.
  function Rotate(s: State, t: nat, out: set<nat>): State requires t < |s.th| && s.th[t].pc.Rotating? {
    var x := s.th[t];
    State(s.epoch,
      s.th[t := x.(index := NextIndex(x.index), pc := Draining(x.pc.r), rot := x.pc.r)],
      MoveOut(s.objs, out, Freeable(t)))
  }

  function Drain(s: State, t: nat, out: set<nat>): State requires t < |s.th| && s.th[t].pc.Draining? {
    State(s.epoch, s.th[t := s.th[t].(pc := Announcing(s.th[t].pc.r))], MoveOut(s.objs, out, Pool))
  }

  function Announce(s: State, t: nat): State requires t < |s.th| && s.th[t].pc.Announcing? {
    var x := s.th[t];
    s.(th := s.th[t := x.(announced := x.pc.r, annAt := s.epoch, opNo := x.opNo + 1, pc := Scanning(x.pc.r))])
  }

  predicate Agrees(other: int, r: int) { BitsEpoch(other) == r || Quiescent(other) }

  function Scan(s: State, t: nat): State
    requires t < |s.th| && s.th[t].pc.Scanning? && s.th[t].checked < |s.th|
  {
    var x := s.th[t];
    if x.opsSinceRead + 1 != MIN_OPS_BEFORE_READ then
      s.(th := s.th[t := x.(opsSinceRead := x.opsSinceRead + 1, pc := Inside)])
    else if !Agrees(s.th[x.checked].announced, x.pc.r) then
      s.(th := s.th[t := x.(opsSinceRead := 0, pc := Inside)])
    else
      s.(th := s.th[t := x.(opsSinceRead := 0, checked := x.checked + 1,
                            pc := if x.checked + 1 >= |s.th| then Advancing(x.pc.r) else Inside)])
  }

  // A read-only operation does not scan.
  function SkipScan(s: State, t: nat): State requires t < |s.th| { s.(th := s.th[t := s.th[t].(pc := Inside)]) }

  function Advance(s: State, t: nat): State requires t < |s.th| && s.th[t].pc.Advancing? {
    var x := s.th[t];
    State(if s.epoch == x.pc.r then x.pc.r + EPOCH_INCREMENT else s.epoch, s.th[t := x.(pc := Inside)], s.objs)
  }

  function EndOp(s: State, t: nat): State requires t < |s.th| {
    var x := s.th[t];
    s.(th := s.th[t := x.(announced := WithQuiescent(x.local), pc := Outside)])
  }

  function Retire(s: State, t: nat, x: nat): State requires t < |s.th| {
    s.(objs := s.objs[x := Obj(s.epoch, Running(s.th), Bag(t, s.th[t].index))])
  }

  ghost predicate StepBy(s: State, t: nat, s': State) {
    && t < |s.th|
    && var x := s.th[t];
       match x.pc
       case Outside => s' == Begin(s, t) || (exists o :: o !in s.objs && s' == Retire(s, t, o))
       case Rotating(_) => exists out :: out <= InBag(s.objs, t, NextIndex(x.index)) && s' == Rotate(s, t, out)
       case Draining(_) => exists out :: DrainsOne(s.objs, t, out) && s' == Drain(s, t, out)
       case Announcing(_) => s' == Announce(s, t)
       case Scanning(_) =>
         s' == SkipScan(s, t) || (x.checked < |s.th| ==> s' == Scan(s, t))
       case Advancing(_) => s' == Advance(s, t)
       case Inside => s' == EndOp(s, t) || (exists o :: o !in s.objs && s' == Retire(s, t, o))
  }

  ghost predicate DrainsOne(objs: Objs, t: nat, out: set<nat>) {
    && (forall x :: x in out ==> x in objs && objs[x].loc == Freeable(t))
    && |out| <= 1
    && (out == {} ==> forall x :: x in objs ==> objs[x].loc != Freeable(t))
  }

  ghost predicate Step(s: State, s': State) { exists t: nat :: StepBy(s, t, s') }

  ghost predicate InitState(s: State) {
    && s.epoch == 0 && s.objs == map[] && |s.th| > 0
    && forall t :: 0 <= t < |s.th| ==> s.th[t] == Thread(Outside, WithQuiescent(0), WithQuiescent(0), 0, 0, 0, -2, 0, 0)
  }

  ghost predicate StepAt(b: seq<State>, i: int) { 0 <= i < |b| - 1 && Step(b[i], b[i + 1]) }

  ghost predicate Run(b: seq<State>) {
    |b| > 0 && InitState(b[0]) && forall i :: 0 <= i < |b| - 1 ==> StepAt(b, i)
  }
}
