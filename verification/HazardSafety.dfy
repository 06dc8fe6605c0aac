/**
 Freeing while the announcements change: what a scan collects from each thread's list, one entry at a time,
 decides what is freed, by the hazard-pointer scan and by DEBRA+'s.
 */
module HazardSafety {
  import opened HazardScan
  import A = HazardAnnounce
  import B = BlockBags
  import D = DebraPlus

  // `announce[t]` is what a whole scan of thread `t`'s list collected during the run `runs[t]` of that list.
  ghost predicate Collected(announce: seq<seq<nat>>, runs: seq<seq<A.State>>) {
    && |announce| == |runs|
    && forall t :: 0 <= t < |runs| ==> CollectedBy(announce[t], runs[t])
  }

  ghost predicate CollectedBy(got: seq<nat>, b: seq<A.State>) {
    A.Run(b) && A.Done(b[|b| - 1]) && b[|b| - 1].scan.got == got
  }

  // During the scan some thread announces `x` all along and withdraws at most its latest announcement.
  ghost predicate Held(runs: seq<seq<A.State>>, x: nat) {
    exists t :: 0 <= t < |runs| && HeldBy(runs[t], x)
  }

  ghost predicate HeldBy(b: seq<A.State>, x: nat) {
    A.AllAlong(b, x) && forall j :: 0 <= j < |b| - 1 ==> !A.ShiftsAt(b, j)
  }

  lemma HeldIsCollected(announce: seq<seq<nat>>, runs: seq<seq<A.State>>, x: nat)
    requires Collected(announce, runs) && Held(runs, x)
    ensures Announced(announce, x)
  {
    var t :| 0 <= t < |runs| && HeldBy(runs[t], x);
    assert CollectedBy(announce[t], runs[t]);
    A.SeenUnlessMoved(runs[t], x);
  }

  /**
   A retired object that a thread announces all along, withdrawing nothing but its latest announcement, is not
   freed.
   */
  method RetireAmong(h: HazardPointers<nat>, p: nat, announce: seq<seq<nat>>, ghost runs: seq<seq<A.State>>)
    requires h.Valid() && |announce| == h.numProcesses && Bounded(announce, MAX_HAZARDPTRS_PER_THREAD)
        && Collected(announce, runs)
    requires |h.retired.Contents()| < h.retired.capacity && NoRepeats(h.retired.Contents() + [p])
    modifies h, h.retired, h.retired.data, h.comparing, h.comparing.keys
    ensures h.Valid() && old(h.pool) <= h.pool
    ensures forall x :: x in h.pool[|old(h.pool)|..] ==> !Held(runs, x)
    ensures multiset(h.retired.Contents()) + multiset(h.pool[|old(h.pool)|..])
         == multiset(old(h.retired.Contents()) + [p])
  {
    h.Retire(p, announce);
    forall x | x in h.pool[|old(h.pool)|..] ensures !Held(runs, x) {
      if Held(runs, x) { HeldIsCollected(announce, runs, x); }
    }
  }

  /** The same for DEBRA+: such an object does not leave the bag, and all blocks but one that stay were collected. */
  method RotateAmong(freeable: B.BlockBag, pool: B.BlockBag, comparing: HashsetNew<B.Item>, announce: seq<seq<nat>>,
                     ghost runs: seq<seq<A.State>>)
    requires freeable.Valid() && pool.Valid() && freeable != pool && B.Distinct(pool.blocks + freeable.blocks)
    requires Bounded(announce, D.MAX_PROTECT_EVEN_IF_QUIESCENT) && Collected(announce, runs) && comparing.Valid()
    requires comparing.tableSize >= 2 * |announce| * D.MAX_PROTECT_EVEN_IF_QUIESCENT
    modifies freeable, pool, freeable.blocks, B.Arrays(freeable.blocks), pool.tail`next, comparing, comparing.keys
    ensures freeable.Valid() && pool.Valid()
    ensures forall x: nat :: Held(runs, x) ==> B.Occurs(freeable.model, x) == B.Occurs(old(freeable.model), x)
    ensures forall x :: B.Moved(old(pool.model), old(freeable.model), pool.model, freeable.model, x)
    ensures |old(freeable.model)| >= D.SCAN_THRESHOLD ==>
        forall i, j :: 0 <= i < |freeable.model| - 1 && 0 <= j < |freeable.model[i]| ==>
          Announced<int>(announce, freeable.model[i][j])
  {
    forall x: nat | Held(runs, x) ensures Announced<int>(announce, x) {
      HeldIsCollected(announce, runs, x);
      var t, i :| 0 <= t < |announce| && 0 <= i < |announce[t]| && announce[t][i] == x;
    }
    D.RotateScan(freeable, pool, comparing, announce);
  }
}
