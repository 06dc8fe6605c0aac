/**
 The tournament tree in use: threads announce, climb, and advance the root.
 */
module TreeEpochRun {
  import opened Limbo
  import opened TreeEpoch

  datatype Pc =
    | Outside
    | Announcing(r: int)                       // startOp read a new epoch
    | Rotating(r: int)
    | Trying                                   // may call tryAdvance
    | Climbing(x: nat, val: int)               // about to read the sibling of node x
    | AtParent(x: nat, val: int)               // the sibling agreed; about to read the parent
    | Raising(x: nat, val: int, was: int)      // about to CAS the parent
    | Inside

  datatype Thread = Thread(pc: Pc, index: nat, since: nat, rot: int, opNo: nat)

  datatype State = State(nodes: seq<int>, size: nat, th: seq<Thread>, objs: Objs)

  function Leaf(s: State, t: nat): nat { s.size + t }
  function At(s: State, x: nat): int { if x < |s.nodes| then s.nodes[x] else 0 }
  function Epoch(s: State): int { At(s, ROOT) }

  predicate Active(x: Thread) { !x.pc.Outside? }

  function Running(th: seq<Thread>): set<OpRef> {
    set u: nat | u < |th| && Active(th[u]) :: OpRef(u, th[u].opNo)
  }

  function NextIndex(index: nat): nat { (index + 1) % NUMBER_OF_EPOCH_BAGS }

  // ---------------------------------------------------------------- steps of one thread

  function SetPc(s: State, t: nat, pc: Pc): State requires t < |s.th| { s.(th := s.th[t := s.th[t].(pc := pc)]) }
  function Store(s: State, x: nat, v: int): State { if x < |s.nodes| then s.(nodes := s.nodes[x := v]) else s }

  function Begin(s: State, t: nat): State requires t < |s.th| {
    var r := Epoch(s);
    s.(th := s.th[t := s.th[t].(opNo := s.th[t].opNo + 1,
                                pc := if r != BitsEpoch(At(s, Leaf(s, t))) then Announcing(r) else Trying)])
  }

  function Announce(s: State, t: nat): State requires t < |s.th| && s.th[t].pc.Announcing? {
    SetPc(Store(s, Leaf(s, t), s.th[t].pc.r), t, Rotating(s.th[t].pc.r))
  }

  function Rotate(s: State, t: nat, out: set<nat>): State requires t < |s.th| && s.th[t].pc.Rotating? {
    var x := s.th[t];
    s.(th := s.th[t := x.(index := NextIndex(x.index), pc := Trying, rot := x.pc.r)],
        objs := MoveOut(s.objs, out, Pool))
  }

  function Try(s: State, t: nat, readOnly: bool): State requires t < |s.th| {
    var x := s.th[t];
    if readOnly then SetPc(s, t, Inside)
    else s.(th := s.th[t := x.(since := x.since + 1,
                               pc := if (x.since + 1) % MIN_TIME_BEFORE_TRY_ADVANCE == 0 && Leaf(s, t) > ROOT
                                     then Climbing(Leaf(s, t), At(s, Leaf(s, t))) else Inside)])
  }

  function Climb(s: State, t: nat): State requires t < |s.th| && s.th[t].pc.Climbing? {
    var pc := s.th[t].pc;
    var v := At(s, Sibling(pc.x));
    SetPc(s, t, if v == pc.val || Quiescent(v) then AtParent(pc.x, pc.val) else Inside)
  }

  function ReadParent(s: State, t: nat): State requires t < |s.th| && s.th[t].pc.AtParent? {
    var pc := s.th[t].pc;
    var v := At(s, pc.x / 2);
    SetPc(s, t, if (pc.x / 2 == ROOT && v != pc.val) || (pc.x / 2 != ROOT && v >= pc.val) then Inside
        else Raising(pc.x, pc.val, v))
  }

  function Raise(s: State, t: nat): State requires t < |s.th| && s.th[t].pc.Raising? {
    var pc := s.th[t].pc;
    var p := pc.x / 2;
    if At(s, p) != pc.was then SetPc(s, t, Inside)
    else if p == ROOT then SetPc(Store(s, p, pc.was + EPOCH_INCREMENT), t, Inside)
    else SetPc(Store(s, p, pc.val), t, Climbing(p, pc.val))
  }

  function Retire(s: State, t: nat, x: nat): State requires t < |s.th| {
    s.(objs := s.objs[x := Obj(Epoch(s), Running(s.th), Bag(t, s.th[t].index))])
  }

  ghost predicate StepBy(s: State, t: nat, s': State) {
    && t < |s.th|
    && match s.th[t].pc
       case Outside => s' == Begin(s, t) || (exists o :: o !in s.objs && s' == Retire(s, t, o))
       case Announcing(_) => s' == Announce(s, t)
       case Rotating(_) => exists out :: out <= InBag(s.objs, t, NextIndex(s.th[t].index)) && s' == Rotate(s, t, out)
       case Trying => s' == Try(s, t, true) || s' == Try(s, t, false)
       case Climbing(_, _) => s' == Climb(s, t)
       case AtParent(_, _) => s' == ReadParent(s, t)
       case Raising(_, _, _) => s' == Raise(s, t)
       case Inside => s' == SetPc(s, t, Outside) || (exists o :: o !in s.objs && s' == Retire(s, t, o))
  }

  ghost predicate Step(s: State, s': State) { exists t: nat :: StepBy(s, t, s') }

  ghost predicate InitState(s: State) {
    && TreeInit(s.nodes, s.size, |s.th|) && s.objs == map[]
    && forall t :: 0 <= t < |s.th| ==> s.th[t] == Thread(Outside, 0, 0, 0, 0)
  }

  ghost predicate StepAt(b: seq<State>, i: int) { 0 <= i < |b| - 1 && Step(b[i], b[i + 1]) }

  ghost predicate Run(b: seq<State>) {
    |b| > 0 && InitState(b[0]) && forall i :: 0 <= i < |b| - 1 ==> StepAt(b, i)
  }

  // ---------------------------------------------------------------- invariants

  // No thread below node `x` announced less than `val`.
  ghost predicate Bounds(s: State, x: nat, val: int) {
    forall l: nat :: s.size <= l < s.size + |s.th| && Below(x, l) ==> val <= At(s, l)
  }

  predicate Even(v: int) { v % 2 == 0 }

  ghost predicate Shape(s: State) { 0 < |s.th| <= s.size && s.size >= 2 && |s.nodes| == 2 * s.size }

  // An inner node is quiescent when no thread is below it, and never ahead of a thread below it.
  ghost predicate InnerInv(s: State, x: nat) {
    && (AllFake(s.size, |s.th|, x) <==> Quiescent(At(s, x)))
    && (!Quiescent(At(s, x)) ==> Bounds(s, x, At(s, x)))
  }

  // The epoch is at most one ahead of every announcement.
  predicate LeafInv(s: State, l: nat) {
    Even(At(s, l)) && 0 <= At(s, l) <= Epoch(s) <= At(s, l) + EPOCH_INCREMENT
  }

  ghost predicate TreeInv(s: State) {
    && Even(Epoch(s))
    && (forall l :: s.size <= l < s.size + |s.th| ==> LeafInv(s, l))
    && (forall x :: 1 < x < s.size ==> InnerInv(s, x))
    && (forall l :: s.size + |s.th| <= l < 2 * s.size ==> Quiescent(At(s, l)))
  }

  ghost predicate ClimbInv(s: State, t: nat, x: nat, val: int) {
    && 1 < x < 2 * s.size && Even(val) && Bounds(s, x, val) && Below(x, Leaf(s, t))
  }

  ghost predicate ThreadInv(s: State, t: nat)
    requires t < |s.th|
  {
    var th := s.th[t];
    var mine := At(s, Leaf(s, t));
    && th.index < NUMBER_OF_EPOCH_BAGS && Even(th.rot)
    && (if th.pc.Rotating? then th.pc.r == mine == th.rot + EPOCH_INCREMENT else th.rot == mine)
    && match th.pc
       case Announcing(r) => r == Epoch(s) && r == mine + EPOCH_INCREMENT
       case Climbing(x, val) => ClimbInv(s, t, x, val)
       case AtParent(x, val) => ClimbInv(s, t, x, val) && Bounds(s, x / 2, val)
       case Raising(x, val, was) =>
         ClimbInv(s, t, x, val) && Bounds(s, x / 2, val) && (x / 2 == ROOT ==> was == val)
             && (x / 2 != ROOT ==> was < val)
       case _ => true
  }

  // What the operation's announcement is, or is about to be.
  function Ann(s: State, u: nat): int requires u < |s.th| {
    if s.th[u].pc.Announcing? then s.th[u].pc.r else At(s, Leaf(s, u))
  }

  function Turns(index: nat, k: nat): int { (index - k) % NUMBER_OF_EPOCH_BAGS }

  predicate BagInv(s: State, t: nat, k: nat, stamp: int)
    requires t < |s.th|
  {
    var x := s.th[t];
    && k < NUMBER_OF_EPOCH_BAGS
    && (x.pc.Announcing? || x.pc.Rotating? ==> stamp <= x.pc.r)
    && (Turns(x.index, k) >= 1 ==> stamp + EPOCH_INCREMENT * (Turns(x.index, k) - 1) <= x.rot)
  }

  predicate HolderInv(s: State, h: OpRef, stamp: int) {
    && h.tid < |s.th| && h.no <= s.th[h.tid].opNo
    && (h.no == s.th[h.tid].opNo && Active(s.th[h.tid]) ==> Ann(s, h.tid) <= stamp)
  }

  predicate Ended(s: State, h: OpRef) {
    h.tid < |s.th| && (h.no < s.th[h.tid].opNo || (h.no == s.th[h.tid].opNo && !Active(s.th[h.tid])))
  }

  ghost predicate AllEnded(s: State, hs: set<OpRef>) { forall h :: h in hs ==> Ended(s, h) }

  ghost predicate ObjInv(s: State, o: Obj) {
    && o.stamp <= Epoch(s)
    && (forall h :: h in o.holders ==> HolderInv(s, h, o.stamp))
    && (o.loc.Bag? ==> o.loc.tid < |s.th| && BagInv(s, o.loc.tid, o.loc.k, o.stamp))
    && (!o.loc.Bag? ==> AllEnded(s, o.holders))
  }

  ghost predicate ThreadsInv(s: State) { forall t :: 0 <= t < |s.th| ==> ThreadInv(s, t) }
  ghost predicate ObjsInv(s: State) { forall x {:trigger s.objs[x]} :: x in s.objs ==> ObjInv(s, s.objs[x]) }
  ghost predicate Inv(s: State) { Shape(s) && TreeInv(s) && ThreadsInv(s) && ObjsInv(s) }

  // ---------------------------------------------------------------- the rely

  predicate TExt(s: State, s': State, u: nat)
    requires u < |s.th| && u < |s'.th|
  {
    && s.th[u].opNo <= s'.th[u].opNo
    && (s'.th[u].opNo == s.th[u].opNo && Active(s'.th[u]) ==> Active(s.th[u]) && Ann(s', u) == Ann(s, u))
  }

  // Announcements and the epoch only grow.
  ghost predicate Ext(s: State, s': State) {
    && s'.size == s.size && |s'.th| == |s.th| && |s'.nodes| == |s.nodes|
    && Epoch(s) <= Epoch(s')
    && (forall l: nat :: s.size <= l < s.size + |s.th| ==> At(s, l) <= At(s', l))
    && (forall u :: 0 <= u < |s.th| ==> TExt(s, s', u))
  }

  lemma BoundsStable(s: State, s': State, x: nat, val: int)
    requires Ext(s, s') && Bounds(s, x, val)
    ensures Bounds(s', x, val)
  {}

  // Another thread's invariant, when its announcement and the epoch it relies on stay.
  lemma ThreadStable(s: State, s': State, u: nat)
    requires Ext(s, s') && u < |s.th| && ThreadInv(s, u) && s'.th[u] == s.th[u]
        && At(s', Leaf(s, u)) == At(s, Leaf(s, u))
    requires s.th[u].pc.Announcing? ==> Epoch(s') == Epoch(s)
    ensures ThreadInv(s', u)
  {
    var pc := s.th[u].pc;
    if pc.Climbing? || pc.AtParent? || pc.Raising? { BoundsStable(s, s', pc.x, pc.val); }
    if pc.AtParent? || pc.Raising? { BoundsStable(s, s', pc.x / 2, pc.val); }
  }

  lemma HolderStable(s: State, s': State, h: OpRef, stamp: int)
    requires Ext(s, s') && HolderInv(s, h, stamp)
    ensures HolderInv(s', h, stamp) && (Ended(s, h) ==> Ended(s', h))
  {
    assert TExt(s, s', h.tid);
  }

  lemma ObjStable(s: State, s': State, o: Obj)
    requires Ext(s, s') && ObjInv(s, o)
    requires o.loc.Bag? ==> BagInv(s', o.loc.tid, o.loc.k, o.stamp)
    ensures ObjInv(s', o)
  {
    forall h | h in o.holders ensures HolderInv(s', h, o.stamp) && (!o.loc.Bag? ==> Ended(s', h)) {
      HolderStable(s, s', h, o.stamp);
    }
  }

  // ---------------------------------------------------------------- steps that leave the tree alone

  ghost predicate Quiet(s: State, t: nat, s': State) {
    && t < |s.th| == |s'.th| && s' == s.(th := s'.th, objs := s'.objs) && s'.th == s.th[t := s'.th[t]]
    && ThreadInv(s', t) && TExt(s, s', t)
  }

  lemma QuietExt(s: State, t: nat, s': State)
    requires Inv(s) && Quiet(s, t, s')
    ensures Ext(s, s') && TreeInv(s') && ThreadsInv(s')
  {
    assert Ext(s, s');
    forall u | 0 <= u < |s'.th| ensures ThreadInv(s', u) {
      if u != t { assert ThreadInv(s, u); ThreadStable(s, s', u); }
    }
    forall x | 1 < x < s'.size ensures InnerInv(s', x) {
      assert InnerInv(s, x);
      if !Quiescent(At(s, x)) { BoundsStable(s, s', x, At(s, x)); }
    }
    forall l | s'.size <= l < s'.size + |s'.th| ensures LeafInv(s', l) { assert LeafInv(s, l); }
    forall l | s'.size + |s'.th| <= l < 2 * s'.size ensures Quiescent(At(s', l)) { assert Quiescent(At(s, l)); }
  }

  lemma QuietKeeps(s: State, t: nat, s': State)
    requires Inv(s) && Quiet(s, t, s') && s'.objs == s.objs && s'.th[t].index == s.th[t].index
        && s'.th[t].rot == s.th[t].rot
    requires (s'.th[t].pc.Announcing? || s'.th[t].pc.Rotating?) ==> s'.th[t].pc.r == Epoch(s)
    ensures Inv(s') && Ext(s, s')
  {
    QuietExt(s, t, s');
    forall x | x in s'.objs ensures ObjInv(s', s'.objs[x]) {
      var o := s.objs[x];
      assert ObjInv(s, o);
      ObjStable(s, s', o);
    }
  }

  lemma BeginKeeps(s: State, t: nat)
    requires Inv(s) && t < |s.th| && s.th[t].pc.Outside?
    ensures Inv(Begin(s, t)) && Ext(s, Begin(s, t))
  {
    assert ThreadInv(s, t) && LeafInv(s, Leaf(s, t));
    QuietKeeps(s, t, Begin(s, t));
  }

  /** What the scheme is for: at a rotation nothing that was running at the retirement still runs. */
  lemma RotationIsSafe(s: State, t: nat, x: nat)
    requires Inv(s) && t < |s.th| && s.th[t].pc.Rotating? && x in InBag(s.objs, t, NextIndex(s.th[t].index))
    ensures AllEnded(s, s.objs[x].holders)
  {
    var o := s.objs[x];
    assert ObjInv(s, o) && ThreadInv(s, t) && LeafInv(s, Leaf(s, t));
    assert Turns(s.th[t].index, o.loc.k) == 2;
    assert o.stamp + 4 <= Epoch(s);
    forall h | h in o.holders ensures Ended(s, h) {
      assert HolderInv(s, h, o.stamp);
      assert ThreadInv(s, h.tid) && LeafInv(s, Leaf(s, h.tid));
    }
  }

  lemma RotateKeeps(s: State, t: nat, out: set<nat>)
    requires Inv(s) && t < |s.th| && s.th[t].pc.Rotating? && out <= InBag(s.objs, t, NextIndex(s.th[t].index))
    ensures Inv(Rotate(s, t, out)) && Ext(s, Rotate(s, t, out))
  {
    var s' := Rotate(s, t, out);
    assert ThreadInv(s, t);
    QuietExt(s, t, s');
    forall x | x in s'.objs ensures ObjInv(s', s'.objs[x]) {
      var o := s.objs[x];
      assert ObjInv(s, o);
      if x in out { RotationIsSafe(s, t, x); }
      ObjStable(s, s', o);
    }
  }

  lemma TryKeeps(s: State, t: nat, readOnly: bool)
    requires Inv(s) && t < |s.th| && s.th[t].pc.Trying?
    ensures Inv(Try(s, t, readOnly)) && Ext(s, Try(s, t, readOnly))
  {
    assert ThreadInv(s, t) && LeafInv(s, Leaf(s, t));
    assert Bounds(s, Leaf(s, t), At(s, Leaf(s, t)));
    QuietKeeps(s, t, Try(s, t, readOnly));
  }

  // The parent's subtree is the node's and the sibling's.
  lemma BoundsParent(s: State, x: nat, val: int)
    requires 1 < x < 2 * s.size && Bounds(s, x, val) && Bounds(s, Sibling(x), val)
    ensures Bounds(s, x / 2, val)
  {
    forall l: nat | s.size <= l < s.size + |s.th| && Below(x / 2, l) ensures val <= At(s, l) {
      BelowEither(x / 2, l);
      assert Below(x, l) || Below(Sibling(x), l);
    }
  }

  // A sibling that is quiescent, or that holds `val`, has nobody behind `val` below it.
  lemma SiblingAgrees(s: State, x: nat, val: int)
    requires Shape(s) && TreeInv(s) && 1 < x < 2 * s.size
        && (At(s, Sibling(x)) == val || Quiescent(At(s, Sibling(x)))) && Even(val)
    ensures Bounds(s, Sibling(x), val)
  {
    var y := Sibling(x);
    if y < s.size {
      assert InnerInv(s, y);
    } else {
      forall l: nat | s.size <= l < s.size + |s.th| && Below(y, l) ensures val <= At(s, l) {
        assert l / 2 < y && !Below(y, l / 2);
        assert l == y;
        assert LeafInv(s, l);
      }
    }
  }

  lemma ClimbKeeps(s: State, t: nat)
    requires Inv(s) && t < |s.th| && s.th[t].pc.Climbing?
    ensures Inv(Climb(s, t)) && Ext(s, Climb(s, t))
  {
    assert ThreadInv(s, t);
    var pc := s.th[t].pc;
    var v := At(s, Sibling(pc.x));
    if v == pc.val || Quiescent(v) {
      SiblingAgrees(s, pc.x, pc.val);
      BoundsParent(s, pc.x, pc.val);
    }
    QuietKeeps(s, t, Climb(s, t));
  }

  lemma ReadParentKeeps(s: State, t: nat)
    requires Inv(s) && t < |s.th| && s.th[t].pc.AtParent?
    ensures Inv(ReadParent(s, t)) && Ext(s, ReadParent(s, t))
  {
    assert ThreadInv(s, t);
    QuietKeeps(s, t, ReadParent(s, t));
  }

  lemma RetireKeeps(s: State, t: nat, x: nat)
    requires Inv(s) && t < |s.th| && (s.th[t].pc.Outside? || s.th[t].pc.Inside?) && x !in s.objs
    ensures Inv(Retire(s, t, x)) && Ext(s, Retire(s, t, x))
  {
    var s' := Retire(s, t, x);
    assert ThreadInv(s, t);
    QuietExt(s, t, s');
    forall h | h in Running(s.th) ensures HolderInv(s', h, Epoch(s)) {
      assert ThreadInv(s, h.tid) && LeafInv(s, Leaf(s, h.tid));
    }
    forall y | y in s'.objs ensures ObjInv(s', s'.objs[y]) {
      if y != x { assert ObjInv(s, s.objs[y]); ObjStable(s, s', s.objs[y]); }
    }
  }

  // ---------------------------------------------------------------- steps that change the tree

  lemma Others(s: State, t: nat, s': State)
    requires Inv(s) && Ext(s, s') && t < |s.th| && ThreadInv(s', t)
    requires forall u :: 0 <= u < |s.th| && u != t ==> s'.th[u] == s.th[u] && At(s', Leaf(s, u)) == At(s, Leaf(s, u))
    requires Epoch(s') == Epoch(s) || forall u :: 0 <= u < |s.th| ==> !s.th[u].pc.Announcing?
    ensures ThreadsInv(s')
  {
    forall u | 0 <= u < |s'.th| ensures ThreadInv(s', u) {
      if u != t { assert ThreadInv(s, u); ThreadStable(s, s', u); }
    }
  }

  predicate SameEpochRead(pc: Pc, pc': Pc) {
    (pc'.Announcing? || pc'.Rotating?) ==> (pc.Announcing? || pc.Rotating?) && pc'.r == pc.r
  }

  lemma ObjsKeep(s: State, s': State)
    requires Inv(s) && Ext(s, s') && s'.objs == s.objs
    requires forall u :: 0 <= u < |s.th| ==> s'.th[u].index == s.th[u].index && s'.th[u].rot == s.th[u].rot
    requires forall u :: 0 <= u < |s.th| ==> SameEpochRead(s.th[u].pc, s'.th[u].pc)
    ensures ObjsInv(s')
  {
    forall x | x in s'.objs ensures ObjInv(s', s'.objs[x]) {
      var o := s.objs[x];
      assert ObjInv(s, o);
      ObjStable(s, s', o);
    }
  }

  lemma AnnounceTree(s: State, t: nat)
    requires Inv(s) && t < |s.th| && s.th[t].pc.Announcing?
    ensures Ext(s, Announce(s, t)) && TreeInv(Announce(s, t)) && ThreadInv(Announce(s, t), t)
  {
    var s' := Announce(s, t);
    assert ThreadInv(s, t);
    forall u | 0 <= u < |s.th| ensures TExt(s, s', u) {}
    forall l | s'.size <= l < s'.size + |s'.th| ensures LeafInv(s', l) { assert LeafInv(s, l); }
    forall x | 1 < x < s'.size ensures InnerInv(s', x) {
      assert InnerInv(s, x);
      assert At(s', x) == At(s, x);
    }
    forall l | s'.size + |s'.th| <= l < 2 * s'.size ensures Quiescent(At(s', l)) { assert At(s', l) == At(s, l); }
  }

  lemma AnnounceKeeps(s: State, t: nat)
    requires Inv(s) && t < |s.th| && s.th[t].pc.Announcing?
    ensures Inv(Announce(s, t)) && Ext(s, Announce(s, t))
  {
    AnnounceTree(s, t);
    Others(s, t, Announce(s, t));
    ObjsKeep(s, Announce(s, t));
  }

  predicate AtRoot(s: State, t: nat) {
    t < |s.th| && s.th[t].pc.Raising? && s.th[t].pc.x / 2 == ROOT && Epoch(s) == s.th[t].pc.was
  }

  /** The root moves only when every thread has announced exactly the root's value. */
  lemma AllAgree(s: State, t: nat, l: nat)
    requires Inv(s) && AtRoot(s, t)
    requires s.size <= l < s.size + |s.th|
    ensures At(s, l) == Epoch(s)
  {
    assert ThreadInv(s, t) && LeafInv(s, l);
    RootAbove(l);
  }

  lemma RaiseRootExt(s: State, t: nat)
    requires Inv(s) && AtRoot(s, t)
    ensures Ext(s, Raise(s, t)) && Epoch(Raise(s, t)) == Epoch(s) + EPOCH_INCREMENT
    ensures forall u :: 0 <= u < |s.th| ==> !s.th[u].pc.Announcing?
  {
    var s' := Raise(s, t);
    assert ThreadInv(s, t);
    forall u: nat | u < |s.th| ensures !s.th[u].pc.Announcing? && TExt(s, s', u) {
      AllAgree(s, t, Leaf(s, u));
      assert ThreadInv(s, u);
    }
  }

  lemma RaiseRootTree(s: State, t: nat)
    requires Inv(s) && AtRoot(s, t) && Ext(s, Raise(s, t))
    ensures TreeInv(Raise(s, t))
  {
    var s' := Raise(s, t);
    assert ThreadInv(s, t);
    forall l | s'.size <= l < s'.size + |s'.th| ensures LeafInv(s', l) { assert LeafInv(s, l); AllAgree(s, t, l); }
    forall x | 1 < x < s'.size ensures InnerInv(s', x) {
      assert InnerInv(s, x);
      assert At(s', x) == At(s, x);
    }
    forall l | s'.size + |s'.th| <= l < 2 * s'.size ensures Quiescent(At(s', l)) { assert At(s', l) == At(s, l); }
  }

  lemma RaiseRoot(s: State, t: nat)
    requires Inv(s) && AtRoot(s, t)
    ensures Inv(Raise(s, t)) && Ext(s, Raise(s, t)) && Epoch(Raise(s, t)) == Epoch(s) + EPOCH_INCREMENT
  {
    RaiseRootExt(s, t);
    RaiseRootTree(s, t);
    assert ThreadInv(s, t);
    Others(s, t, Raise(s, t));
    ObjsKeep(s, Raise(s, t));
  }

  lemma RaiseInnerTree(s: State, t: nat)
    requires Inv(s) && t < |s.th| && s.th[t].pc.Raising? && s.th[t].pc.x / 2 != ROOT
        && At(s, s.th[t].pc.x / 2) == s.th[t].pc.was
    ensures Ext(s, Raise(s, t)) && TreeInv(Raise(s, t)) && ThreadInv(Raise(s, t), t)
  {
    var s' := Raise(s, t);
    var p := s.th[t].pc.x / 2;
    assert ThreadInv(s, t);
    BelowChild(p, s.th[t].pc.x, Leaf(s, t));
    assert !AllFake(s.size, |s.th|, p);
    forall u | 0 <= u < |s.th| ensures TExt(s, s', u) {}
    forall l | s'.size <= l < s'.size + |s'.th| ensures LeafInv(s', l) { assert LeafInv(s, l); }
    forall x | 1 < x < s'.size ensures InnerInv(s', x) {
      assert InnerInv(s, x);
      if x == p {
        BoundsStable(s, s', x, s.th[t].pc.val); } else { BoundsStable(s, s', x, if Quiescent(At(s, x)) then 0
            else At(s, x));
      }
    }
    forall l | s'.size + |s'.th| <= l < 2 * s'.size ensures Quiescent(At(s', l)) { assert At(s', l) == At(s, l); }
  }

  lemma RaiseKeeps(s: State, t: nat)
    requires Inv(s) && t < |s.th| && s.th[t].pc.Raising?
    ensures Inv(Raise(s, t)) && Ext(s, Raise(s, t))
  {
    var pc := s.th[t].pc;
    if At(s, pc.x / 2) != pc.was {
      assert ThreadInv(s, t);
      QuietKeeps(s, t, Raise(s, t));
    } else if pc.x / 2 == ROOT {
      RaiseRoot(s, t);
    } else {
      RaiseInnerTree(s, t);
      Others(s, t, Raise(s, t));
      ObjsKeep(s, Raise(s, t));
    }
  }

  lemma EndKeeps(s: State, t: nat)
    requires Inv(s) && t < |s.th| && s.th[t].pc.Inside?
    ensures Inv(SetPc(s, t, Outside)) && Ext(s, SetPc(s, t, Outside))
  {
    assert ThreadInv(s, t);
    QuietKeeps(s, t, SetPc(s, t, Outside));
  }

  lemma StepKeeps(s: State, s': State)
    requires Inv(s) && Step(s, s')
    ensures Inv(s') && Ext(s, s')
  {
    var t: nat :| StepBy(s, t, s');
    match s.th[t].pc
    case Outside =>
      if s' == Begin(s, t) { BeginKeeps(s, t); }
      else { var o :| o !in s.objs && s' == Retire(s, t, o); RetireKeeps(s, t, o); }
    case Announcing(_) => AnnounceKeeps(s, t);
    case Rotating(_) =>
      var out :| out <= InBag(s.objs, t, NextIndex(s.th[t].index)) && s' == Rotate(s, t, out);
      RotateKeeps(s, t, out);
    case Trying => TryKeeps(s, t, true); TryKeeps(s, t, false);
    case Climbing(_, _) => ClimbKeeps(s, t);
    case AtParent(_, _) => ReadParentKeeps(s, t);
    case Raising(_, _, _) => RaiseKeeps(s, t);
    case Inside =>
      if s' == SetPc(s, t, Outside) { EndKeeps(s, t); }
      else { var o :| o !in s.objs && s' == Retire(s, t, o); RetireKeeps(s, t, o); }
  }

  lemma InitKeeps(s: State)
    requires InitState(s) && |s.th| >= 2
    ensures Inv(s)
  {
    forall l | s.size <= l < s.size + |s.th| ensures LeafInv(s, l) {
      assert Below(l, l); assert !AllFake(s.size, |s.th|, l);
    }
    forall l: nat | s.size + |s.th| <= l < 2 * s.size ensures Quiescent(At(s, l)) { LeafAlone(s.size, |s.th|, l); }
    forall x | 1 < x < s.size ensures InnerInv(s, x) {
      if !AllFake(s.size, |s.th|, x) {
        forall l: nat | s.size <= l < s.size + |s.th| && Below(x, l) ensures At(s, x) <= At(s, l) {
          assert LeafInv(s, l);
        }
      }
    }
    forall t | 0 <= t < |s.th| ensures ThreadInv(s, t) {
      assert Below(s.size + t, s.size + t); assert !AllFake(s.size, |s.th|, s.size + t);
    }
  }

  lemma LeafAlone(size: nat, n: nat, l: nat)
    requires size + n <= l < 2 * size
    ensures AllFake(size, n, l)
  {}

  /** The invariant holds in every state of every run of at least two threads. */
  lemma {:induction false} RunKeeps(b: seq<State>, i: nat)
    requires Run(b) && i < |b| && |b[0].th| >= 2
    ensures Inv(b[i]) && |b[i].th| == |b[0].th|
  {
    if i == 0 {
      InitKeeps(b[0]);
    } else {
      RunKeeps(b, i - 1);
      assert StepAt(b, i - 1);
      StepKeeps(b[i - 1], b[i]);
    }
  }

  // ---------------------------------------------------------------- runs

  lemma EpochStep(s: State, s': State)
    requires Inv(s) && Step(s, s') && Epoch(s') != Epoch(s)
    ensures Epoch(s') == Epoch(s) + EPOCH_INCREMENT
    ensures forall l: nat :: s.size <= l < s.size + |s.th| ==> At(s, l) == Epoch(s)
  {
    var t: nat :| StepBy(s, t, s');
    assert ThreadInv(s, t);
    forall l: nat | s.size <= l < s.size + |s.th| ensures At(s, l) == Epoch(s) { AllAgree(s, t, l); }
    RaiseRoot(s, t);
  }

  /** The epoch moves by one increment, and only in a state where every thread has announced it. */
  lemma EpochMovesTogether(b: seq<State>, i: nat, t: nat)
    requires Run(b) && i + 1 < |b| && |b[0].th| >= 2 && Epoch(b[i + 1]) != Epoch(b[i]) && t < |b[i].th|
    ensures Epoch(b[i + 1]) == Epoch(b[i]) + EPOCH_INCREMENT && At(b[i], Leaf(b[i], t)) == Epoch(b[i])
  {
    RunKeeps(b, i);
    assert StepAt(b, i);
    EpochStep(b[i], b[i + 1]);
  }

  /** An inner node is quiescent exactly when no thread is below it, and is never ahead of such a thread. */
  lemma InnerNeverAhead(b: seq<State>, i: nat, x: nat, t: nat)
    requires Run(b) && i < |b| && |b[0].th| >= 2 && t < |b[i].th| && 1 < x < b[i].size
    ensures AllFake(b[i].size, |b[i].th|, x) <==> Quiescent(At(b[i], x))
    ensures Below(x, Leaf(b[i], t)) ==> At(b[i], x) <= At(b[i], Leaf(b[i], t))
  {
    RunKeeps(b, i);
    assert InnerInv(b[i], x);
  }

  ghost predicate Runs(s: State, u: nat, no: nat) { u < |s.th| && Active(s.th[u]) && s.th[u].opNo == no }

  ghost predicate RetiresAt(b: seq<State>, i: int, x: nat) {
    0 <= i < |b| - 1 && x !in b[i].objs && x in b[i + 1].objs
  }

  lemma ObjOnly(s: State, s': State, x: nat)
    requires Step(s, s') && x in s.objs
    ensures x in s'.objs && s'.objs[x].holders == s.objs[x].holders
  {}

  lemma RetiredBy(s: State, s': State, x: nat)
    requires Step(s, s') && x !in s.objs && x in s'.objs
    ensures s'.objs[x].holders == Running(s.th)
  {}

  lemma {:induction false} ObjPersists(b: seq<State>, i: nat, j: nat, x: nat)
    requires Run(b) && i <= j < |b| && x in b[i].objs
    ensures x in b[j].objs && b[j].objs[x].holders == b[i].objs[x].holders
  {
    if i < j {
      ObjPersists(b, i, j - 1, x);
      assert StepAt(b, j - 1);
      ObjOnly(b[j - 1], b[j], x);
    }
  }

  /**
   Safety: an object retired at step `i` is in its epoch bag as long as any operation that was
   running then, on any thread, is still running.
   */
  lemma NothingFreedTooEarly(b: seq<State>, i: nat, j: nat, x: nat, u: nat, no: nat)
    requires Run(b) && i < j < |b| && |b[0].th| >= 2 && RetiresAt(b, i, x)
    requires Runs(b[i], u, no) && Runs(b[j], u, no)
    ensures x in b[j].objs && b[j].objs[x].loc.Bag?
  {
    RunKeeps(b, j);
    assert StepAt(b, i);
    RetiredBy(b[i], b[i + 1], x);
    ObjPersists(b, i + 1, j, x);
    assert OpRef(u, no) in Running(b[i].th);
    assert ObjInv(b[j], b[j].objs[x]);
    assert HolderInv(b[j], OpRef(u, no), b[j].objs[x].stamp);
  }

  // ---------------------------------------------------------------- one thread

  // With a tree of one leaf the leaf is the root.
  predicate Stuck(s: State) {
    && |s.th| == 1 && s.size == 1 && |s.nodes| == 2 && s.nodes[1] == EPOCH_INCREMENT
    && (s.th[0].pc.Outside? || s.th[0].pc.Trying? || s.th[0].pc.Inside?)
    && forall x :: x in s.objs ==> s.objs[x].loc.Bag?
  }

  lemma StuckStep(s: State, s': State)
    requires Stuck(s) && Step(s, s')
    ensures Stuck(s')
  {}

  /** A single thread (with the tree of size one that it gets) never advances the epoch and never reclaims anything. */
  lemma {:induction false} OneThreadNeverReclaims(b: seq<State>, i: nat, x: nat)
    requires Run(b) && i < |b| && |b[0].th| == 1 && b[0].size == 1
    ensures Stuck(b[i]) && (x in b[i].objs ==> b[i].objs[x].loc.Bag?)
  {
    if i > 0 {
      OneThreadNeverReclaims(b, i - 1, x);
      assert StepAt(b, i - 1);
      StuckStep(b[i - 1], b[i]);
    }
  }
}
