/**
 Retired objects and where they are.  Each epoch scheme stamps an object when it is retired, with its
 global epoch, and records which operations were running then; neither influences any step.
 */
module Limbo {

  datatype OpRef = OpRef(tid: nat, no: nat)          // the no-th operation of a thread
  datatype Loc = Bag(tid: nat, k: nat) | Freeable(tid: nat) | Pool
  datatype Obj = Obj(stamp: int, holders: set<OpRef>, loc: Loc)

  type Objs = map<nat, Obj>

  // The objects in epoch bag `k` of thread `t`.
  function InBag(objs: Objs, t: nat, k: nat): set<nat> {
    set x | x in objs && objs[x].loc == Bag(t, k)
  }

  function MoveOut(objs: Objs, out: set<nat>, to: Loc): Objs {
    map x | x in objs :: if x in out then objs[x].(loc := to) else objs[x]
  }
}
