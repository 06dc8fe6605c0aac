/**
 The lock-free bag of blocks: a stack of linked blocks whose head carries a tag that every successful
 CAS increments.  Blocks are never freed; the thread that owns a block may set its `next` at will.

 `stack` and `owner` record what the pointers mean; no step depends on them.
 */
module TaggedStack {

  datatype Ptr = Null | To(b: nat)

  datatype Pc =
    | Idle
    | GetRead
    | GetNext(ptr: nat, tag: nat)
    | GetCas(ptr: nat, tag: nat, nx: Ptr)
    | GetClear(ptr: nat)
    | AddRead(b: nat)
    | AddLink(b: nat, under: Ptr, tag: nat)
    | AddCas(b: nat, under: Ptr, tag: nat)

  datatype Owner = InStack(height: nat) | Thread(t: nat)     // the height above the bottom

  datatype State = State(head: Ptr, tag: nat, next: seq<Ptr>, pcs: seq<Pc>, stack: seq<nat>, owner: seq<Owner>)

  function SetPc(s: State, t: nat, pc: Pc): State requires t < |s.pcs| { s.(pcs := s.pcs[t := pc]) }
  function NextOf(s: State, b: nat): Ptr { if b < |s.next| then s.next[b] else Null }
  function SetNext(s: State, b: nat, p: Ptr): State { if b < |s.next| then s.(next := s.next[b := p]) else s }
  function SetOwner(s: State, b: nat, o: Owner): State { if b < |s.owner| then s.(owner := s.owner[b := o]) else s }

  // ---------------------------------------------------------------- steps of one thread

  function ReadForGet(s: State, t: nat): State requires t < |s.pcs| {
    SetPc(s, t, match s.head case Null => Idle case To(b) => GetNext(b, s.tag))
  }

  function PopCas(s: State, t: nat): State requires t < |s.pcs| && s.pcs[t].GetCas? {
    var pc := s.pcs[t];
    if s.head == To(pc.ptr) && s.tag == pc.tag then
      var s1 := s.(head := pc.nx, tag := s.tag + 1, stack := if s.stack == [] then [] else s.stack[1..]);
      SetPc(SetOwner(s1, pc.ptr, Thread(t)), t, GetClear(pc.ptr))
    else SetPc(s, t, GetRead)
  }

  function PushCas(s: State, t: nat): State requires t < |s.pcs| && s.pcs[t].AddCas? {
    var pc := s.pcs[t];
    if s.head == pc.under && s.tag == pc.tag then
      var s1 := s.(head := To(pc.b), tag := s.tag + 1, stack := [pc.b] + s.stack);
      SetPc(SetOwner(s1, pc.b, InStack(|s.stack| + 1)), t, Idle)
    else SetPc(s, t, AddRead(pc.b))
  }

  ghost predicate Owns(s: State, t: nat, b: nat) { b < |s.owner| && s.owner[b] == Thread(t) }

  ghost predicate StepBy(s: State, t: nat, s': State) {
    && t < |s.pcs|
    && match s.pcs[t]
       case Idle =>
         || s' == SetPc(s, t, GetRead)
         || (exists b :: Owns(s, t, b) && s' == SetPc(s, t, AddRead(b)))
         || (exists b, p :: Owns(s, t, b) && s' == SetNext(s, b, p))
       case GetRead => s' == ReadForGet(s, t)
       case GetNext(ptr, tag) => s' == SetPc(s, t, GetCas(ptr, tag, NextOf(s, ptr)))
       case GetCas(_, _, _) => s' == PopCas(s, t) || s' == SetPc(s, t, GetRead)      // the weak CAS may fail
       case GetClear(ptr) => s' == SetPc(SetNext(s, ptr, Null), t, Idle)
       case AddRead(b) => s' == SetPc(s, t, AddLink(b, s.head, s.tag))
       case AddLink(b, ptr, tag) => s' == SetPc(SetNext(s, b, ptr), t, AddCas(b, ptr, tag))
       case AddCas(b, _, _) => s' == PushCas(s, t) || s' == SetPc(s, t, AddRead(b))
  }

  ghost predicate Step(s: State, s': State) { exists t: nat :: StepBy(s, t, s') }

  ghost predicate InitState(s: State) {
    && s.head == Null && s.tag == 0 && s.stack == [] && |s.owner| == |s.next|
    && (forall b :: 0 <= b < |s.owner| ==> s.owner[b].Thread?)
    && forall t :: 0 <= t < |s.pcs| ==> s.pcs[t] == Idle
  }

  ghost predicate StepAt(b: seq<State>, i: int) { 0 <= i < |b| - 1 && Step(b[i], b[i + 1]) }

  ghost predicate Run(b: seq<State>) {
    |b| > 0 && InitState(b[0]) && forall i :: 0 <= i < |b| - 1 ==> StepAt(b, i)
  }

  // ---------------------------------------------------------------- invariants

  function Follows(stack: seq<nat>, i: nat): Ptr { if i < |stack| then To(stack[i]) else Null }

  // The pointers spell out the stack, and exactly its blocks belong to no thread.
  predicate LinkAt(s: State, i: nat) {
    i < |s.stack| ==>
      s.stack[i] < |s.next| && NextOf(s, s.stack[i]) == Follows(s.stack, i + 1)
          && OwnerOf(s, s.stack[i]) == InStack(|s.stack| - i)
  }

  function OwnerOf(s: State, b: nat): Owner { if b < |s.owner| then s.owner[b] else Thread(0) }

  predicate PlaceAt(s: State, b: nat) {
    var o := OwnerOf(s, b);
    o.InStack? ==> 0 < o.height <= |s.stack| && s.stack[|s.stack| - o.height] == b
  }

  ghost predicate StackInv(s: State) {
    && |s.owner| == |s.next| && s.head == Follows(s.stack, 0)
    && (forall i: nat {:trigger LinkAt(s, i)} :: LinkAt(s, i))
    && (forall b: nat {:trigger PlaceAt(s, b)} :: PlaceAt(s, b))
  }

  ghost predicate PcInv(s: State, t: nat, pc: Pc) {
    match pc
    case GetNext(ptr, tag) => tag <= s.tag && ptr < |s.next| && (tag == s.tag ==> s.head == To(ptr))
    case GetCas(ptr, tag, nx) => tag <= s.tag && ptr < |s.next|
        && (tag == s.tag ==> s.head == To(ptr) && NextOf(s, ptr) == nx)
    case GetClear(ptr) => Owns(s, t, ptr)
    case AddRead(b) => Owns(s, t, b)
    case AddLink(b, ptr, tag) => Owns(s, t, b) && tag <= s.tag && (tag == s.tag ==> s.head == ptr)
    case AddCas(b, ptr, tag) => Owns(s, t, b) && tag <= s.tag && (tag == s.tag ==> s.head == ptr) && NextOf(s, b) == ptr
    case _ => true
  }

  ghost predicate Inv(s: State) { StackInv(s) && forall t :: 0 <= t < |s.pcs| ==> PcInv(s, t, s.pcs[t]) }

  // What a step of thread `t` leaves to the others.
  ghost predicate Ext(s: State, t: nat, s': State) {
    && |s'.pcs| == |s.pcs| && |s'.next| == |s.next| && s.tag <= s'.tag
    && (s'.tag == s.tag ==> s'.head == s.head && s'.stack == s.stack)
    && (forall u :: 0 <= u < |s.pcs| && u != t ==> s'.pcs[u] == s.pcs[u])
    && (forall b: nat :: !Owns(s, t, b) ==> NextOf(s', b) == NextOf(s, b))
    && (forall b, u :: u != t && Owns(s, u, b) ==> Owns(s', u, b))
  }

  lemma PcStable(s: State, t: nat, s': State, u: nat)
    requires StackInv(s) && Ext(s, t, s') && u != t && u < |s.pcs| && PcInv(s, u, s.pcs[u])
    ensures PcInv(s', u, s.pcs[u])
  {
    var pc := s.pcs[u];
    if pc.GetCas? && pc.tag == s'.tag { assert LinkAt(s, 0); }
  }

  lemma Lift(s: State, t: nat, s': State)
    requires Inv(s) && t < |s.pcs| && Ext(s, t, s') && StackInv(s') && PcInv(s', t, s'.pcs[t])
    ensures Inv(s')
  {
    forall u | 0 <= u < |s'.pcs| ensures PcInv(s', u, s'.pcs[u]) {
      if u != t { PcStable(s, t, s', u); }
    }
  }

  // A block that a thread owns can be relinked without touching the stack.
  lemma SetNextKeeps(s: State, t: nat, b: nat, p: Ptr)
    requires StackInv(s) && Owns(s, t, b)
    ensures StackInv(SetNext(s, b, p)) && Ext(s, t, SetNext(s, b, p))
  {
    var s' := SetNext(s, b, p);
    forall i: nat ensures LinkAt(s', i) { assert LinkAt(s, i); }
    forall x: nat ensures PlaceAt(s', x) { assert PlaceAt(s, x); }
  }

  lemma SameStack(s: State, t: nat, pc: Pc)
    requires StackInv(s) && t < |s.pcs|
    ensures StackInv(SetPc(s, t, pc)) && Ext(s, t, SetPc(s, t, pc))
  {
    var s' := SetPc(s, t, pc);
    forall i: nat ensures LinkAt(s', i) { assert LinkAt(s, i); }
    forall x: nat ensures PlaceAt(s', x) { assert PlaceAt(s, x); }
  }

  // What the tag guarantees: when the CAS succeeds, the head and the next pointer that were read are current.
  lemma PopIsCurrent(s: State, t: nat)
    requires Inv(s) && t < |s.pcs| && s.pcs[t].GetCas? && s.head == To(s.pcs[t].ptr) && s.tag == s.pcs[t].tag
    ensures s.stack != [] && s.stack[0] == s.pcs[t].ptr && s.pcs[t].nx == Follows(s.stack, 1)
  {
    assert PcInv(s, t, s.pcs[t]) && LinkAt(s, 0);
  }

  lemma PopKeeps(s: State, t: nat)
    requires Inv(s) && t < |s.pcs| && s.pcs[t].GetCas? && s.head == To(s.pcs[t].ptr) && s.tag == s.pcs[t].tag
    ensures StackInv(PopCas(s, t)) && Ext(s, t, PopCas(s, t)) && Owns(PopCas(s, t), t, s.pcs[t].ptr)
  {
    var s' := PopCas(s, t);
    PopIsCurrent(s, t);
    assert LinkAt(s, 0);
    forall i: nat ensures LinkAt(s', i) { assert LinkAt(s, i + 1); }
    forall x: nat ensures PlaceAt(s', x) { assert PlaceAt(s, x); }
  }

  lemma PushKeeps(s: State, t: nat)
    requires Inv(s) && t < |s.pcs| && s.pcs[t].AddCas? && s.head == s.pcs[t].under && s.tag == s.pcs[t].tag
    ensures StackInv(PushCas(s, t)) && Ext(s, t, PushCas(s, t))
  {
    var s' := PushCas(s, t);
    assert PcInv(s, t, s.pcs[t]);
    forall i: nat ensures LinkAt(s', i) { if i > 0 { assert LinkAt(s, i - 1); } }
    forall x: nat ensures PlaceAt(s', x) { assert PlaceAt(s, x); }
  }

  // A thread that starts over knows nothing yet.
  lemma Retry(s: State, t: nat, pc: Pc)
    requires Inv(s) && t < |s.pcs| && PcInv(s, t, pc)
    ensures Inv(SetPc(s, t, pc))
  {
    SameStack(s, t, pc);
    Lift(s, t, SetPc(s, t, pc));
  }

  lemma Relink(s: State, t: nat, b: nat, p: Ptr, pc: Pc)
    requires Inv(s) && t < |s.pcs| && Owns(s, t, b) && PcInv(SetNext(s, b, p), t, pc)
    ensures Inv(SetPc(SetNext(s, b, p), t, pc))
  {
    var m := SetNext(s, b, p);
    SetNextKeeps(s, t, b, p);
    SameStack(m, t, pc);
    var s' := SetPc(m, t, pc);
    Lift(s, t, s');
  }

  lemma CasKeeps(s: State, t: nat)
    requires Inv(s) && t < |s.pcs|
    ensures s.pcs[t].GetCas? ==> Inv(PopCas(s, t))
    ensures s.pcs[t].AddCas? ==> Inv(PushCas(s, t))
  {
    assert PcInv(s, t, s.pcs[t]);
    if s.pcs[t].GetCas? {
      if s.head == To(s.pcs[t].ptr) && s.tag == s.pcs[t].tag { PopKeeps(s, t); Lift(s, t, PopCas(s, t)); }
      else { Retry(s, t, GetRead); }
    } else if s.pcs[t].AddCas? {
      if s.head == s.pcs[t].under && s.tag == s.pcs[t].tag { PushKeeps(s, t); Lift(s, t, PushCas(s, t)); }
      else { Retry(s, t, AddRead(s.pcs[t].b)); }
    }
  }

  lemma IdleKeeps(s: State, t: nat, s': State)
    requires Inv(s) && StepBy(s, t, s') && s.pcs[t].Idle?
    ensures Inv(s')
  {
    if s' == SetPc(s, t, GetRead) { Retry(s, t, GetRead); }
    else if b :| Owns(s, t, b) && s' == SetPc(s, t, AddRead(b)) { Retry(s, t, AddRead(b)); }
    else {
      var b, p :| Owns(s, t, b) && s' == SetNext(s, b, p);
      Relink(s, t, b, p, Idle);
      assert SetPc(SetNext(s, b, p), t, Idle) == s';
    }
  }

  lemma StepKeeps(s: State, s': State)
    requires Inv(s) && Step(s, s')
    ensures Inv(s')
  {
    var t: nat :| StepBy(s, t, s');
    assert PcInv(s, t, s.pcs[t]);
    match s.pcs[t]
    case Idle => IdleKeeps(s, t, s');
    case GetRead => assert LinkAt(s, 0); Retry(s, t, s'.pcs[t]);
    case GetNext(_, _) => Retry(s, t, s'.pcs[t]);
    case GetCas(_, _, _) => CasKeeps(s, t); Retry(s, t, GetRead);
    case GetClear(ptr) => Relink(s, t, ptr, Null, Idle);
    case AddRead(_) => Retry(s, t, s'.pcs[t]);
    case AddLink(b, under, _) => Relink(s, t, b, under, s'.pcs[t]);
    case AddCas(b, _, _) => CasKeeps(s, t); Retry(s, t, AddRead(b));
  }

  lemma {:induction false} RunKeeps(b: seq<State>, i: nat)
    requires Run(b) && i < |b|
    ensures Inv(b[i])
  {
    if i > 0 {
      RunKeeps(b, i - 1);
      assert StepAt(b, i - 1);
      StepKeeps(b[i - 1], b[i]);
    }
  }

  // ---------------------------------------------------------------- linearizability

  // One step of the stack that the bag implements, as seen by thread `t`.
  ghost predicate Pops(s: State, t: nat, s': State) {
    && t < |s.pcs| == |s'.pcs| && s.stack != [] && s'.stack == s.stack[1..]
    && s'.pcs[t] == GetClear(s.stack[0]) && Owns(s', t, s.stack[0])
  }
  ghost predicate FindsEmpty(s: State, t: nat, s': State) {
    t < |s.pcs| == |s'.pcs| && s.stack == [] == s'.stack && s.pcs[t] == GetRead && s'.pcs[t] == Idle
  }
  ghost predicate Pushes(s: State, t: nat, s': State) {
    && t < |s.pcs| == |s'.pcs| && s.pcs[t].AddCas? && Owns(s, t, s.pcs[t].b)
    && s'.stack == [s.pcs[t].b] + s.stack && s'.pcs[t] == Idle
  }

  // Where an operation of thread `t` takes effect: its final, successful step.
  ghost predicate Completes(s: State, t: nat, s': State) {
    && t < |s.pcs| == |s'.pcs|
    && ((s.pcs[t].GetCas? && s'.pcs[t].GetClear?) || (s.pcs[t].GetRead? && s'.pcs[t].Idle?)
        || (s.pcs[t].AddCas? && s'.pcs[t].Idle?))
  }

  /**
   Every operation takes effect at one step, as a pop, a push, or an empty answer on the abstract
   stack; no other step changes the stack.
   */
  lemma StepLinearizes(b: seq<State>, i: nat, t: nat)
    requires Run(b) && i + 1 < |b| && StepBy(b[i], t, b[i + 1])
    ensures Completes(b[i], t, b[i + 1]) ==>
      Pops(b[i], t, b[i + 1]) || FindsEmpty(b[i], t, b[i + 1]) || Pushes(b[i], t, b[i + 1])
    ensures !Completes(b[i], t, b[i + 1]) ==> b[i + 1].stack == b[i].stack
  {
    RunKeeps(b, i);
    var s := b[i];
    assert PcInv(s, t, s.pcs[t]);
    if s.pcs[t].GetCas? && s.head == To(s.pcs[t].ptr) && s.tag == s.pcs[t].tag { PopIsCurrent(s, t); }
  }

  /** Each block is in the stack once, or owned by exactly one thread. */
  lemma NoBlockLost(b: seq<State>, i: nat, x: nat)
    requires Run(b) && i < |b| && x < |b[i].owner|
    ensures x in b[i].stack <==> !b[i].owner[x].Thread?
    ensures forall j, k ::
        0 <= j < |b[i].stack| && 0 <= k < |b[i].stack| && b[i].stack[j] == x && b[i].stack[k] == x ==> j == k
  {
    RunKeeps(b, i);
    var s := b[i];
    assert PlaceAt(s, x);
    forall j: nat | j < |s.stack| ensures OwnerOf(s, s.stack[j]) == InStack(|s.stack| - j) { assert LinkAt(s, j); }
  }
}
