/**
 Scanning a thread's announced hazard pointers while their owner keeps adding and erasing.

 The owner's list stores an object and then the new size; erasing first moves the last object into the
 gap.  A scanner reads the size once and then the entries one by one.
 */
module HazardAnnounce {

  datatype Owner = Quiet | Added | Moved

  datatype Scanner = Before | Reading(sz: nat, got: seq<nat>)

  datatype State = State(data: seq<nat>, size: nat, owner: Owner, scan: Scanner)

  // The first half of add(x).
  function Add(s: State, x: nat): State requires s.size < |s.data| { s.(data := s.data[s.size := x], owner := Added) }
  // The first half of erase(ix).
  function Move(s: State, ix: nat): State requires ix < s.size <= |s.data| {
    s.(data := if ix != s.size - 1 then s.data[ix := s.data[s.size - 1]] else s.data, owner := Moved)
  }

  ghost predicate OwnerStep(s: State, s': State) {
    && s.size <= |s.data|
    && match s.owner
       case Quiet =>
         || (s.size < |s.data| && exists x :: s' == Add(s, x))
         || (exists ix: nat :: ix < s.size && s' == Move(s, ix))
         || s' == s.(size := 0)
       case Added => s' == s.(size := s.size + 1, owner := Quiet)
       case Moved => s.size > 0 && s' == s.(size := s.size - 1, owner := Quiet)
  }

  ghost predicate ScanStep(s: State, s': State) {
    match s.scan
    case Before => s' == s.(scan := Reading(s.size, []))
    case Reading(sz, got) => |got| < sz && |got| < |s.data| && s' == s.(scan := Reading(sz, got + [s.data[|got|]]))
  }

  ghost predicate Step(s: State, s': State) { OwnerStep(s, s') || ScanStep(s, s') }

  ghost predicate StepAt(b: seq<State>, i: int) { 0 <= i < |b| - 1 && Step(b[i], b[i + 1]) }

  ghost predicate Run(b: seq<State>) {
    && |b| > 0 && b[0].scan.Before? && b[0].owner.Quiet? && b[0].size <= |b[0].data|
    && forall i :: 0 <= i < |b| - 1 ==> StepAt(b, i)
  }

  ghost predicate Done(s: State) { s.scan.Reading? && |s.scan.got| == s.scan.sz }

  ghost predicate AnnouncedAt(s: State, x: nat, k: nat) { k < s.size <= |s.data| && s.data[k] == x }
  ghost predicate Announced(s: State, x: nat) { exists k: nat :: AnnouncedAt(s, x, k) }
  ghost predicate AllAlong(b: seq<State>, x: nat) { forall i :: 0 <= i < |b| ==> Announced(b[i], x) }

  // The owner erases an object other than its last one.
  ghost predicate Shifts(s: State, s': State) {
    s.owner.Quiet? && exists ix: nat :: ix + 1 < s.size <= |s.data| && s' == Move(s, ix)
  }
  ghost predicate ShiftsAt(b: seq<State>, i: int) { 0 <= i < |b| - 1 && Shifts(b[i], b[i + 1]) }

  // ---------------------------------------------------------------- when nothing is moved

  /** An object that keeps its place in the list while it is scanned is seen. */
  lemma {:induction false} KeptPlaceIsSeen(b: seq<State>, x: nat, k: nat, j: nat)
    requires Run(b) && j < |b| && forall i :: 0 <= i < |b| ==> AnnouncedAt(b[i], x, k)
    ensures b[j].scan.Reading? ==> k < b[j].scan.sz && (k < |b[j].scan.got| ==> b[j].scan.got[k] == x)
  {
    if j > 0 {
      KeptPlaceIsSeen(b, x, k, j - 1);
      assert StepAt(b, j - 1);
      assert AnnouncedAt(b[j - 1], x, k) && AnnouncedAt(b[j], x, k);
    }
  }

  // `k` is the first place of `x`.
  ghost predicate Lowest(s: State, x: nat, k: nat) {
    AnnouncedAt(s, x, k) && forall l :: 0 <= l < k ==> s.data[l] != x
  }

  lemma {:induction false} HasLowest(s: State, x: nat, k: nat)
    requires AnnouncedAt(s, x, k)
    ensures exists l: nat :: Lowest(s, x, l)
    decreases k
  {
    if l :| 0 <= l < k && s.data[l] == x {
      HasLowest(s, x, l);
    } else {
      assert Lowest(s, x, k);
    }
  }

  lemma LowestStays(s: State, s': State, x: nat, k: nat)
    requires Lowest(s, x, k) && Step(s, s') && !Shifts(s, s') && Announced(s', x)
    ensures Lowest(s', x, k)
  {
    var l: nat :| AnnouncedAt(s', x, l);
  }

  lemma {:induction false} PlaceStays(b: seq<State>, x: nat, k: nat, i: nat)
    requires Run(b) && AllAlong(b, x) && (forall j :: 0 <= j < |b| - 1 ==> !ShiftsAt(b, j)) && Lowest(b[0], x, k)
        && i < |b|
    ensures Lowest(b[i], x, k)
  {
    if i > 0 {
      PlaceStays(b, x, k, i - 1);
      assert StepAt(b, i - 1) && !ShiftsAt(b, i - 1);
      LowestStays(b[i - 1], b[i], x, k);
    }
  }

  /** As long as only the latest announcement is withdrawn, a scan sees everything that is announced all along. */
  lemma SeenUnlessMoved(b: seq<State>, x: nat)
    requires Run(b) && AllAlong(b, x) && Done(b[|b| - 1]) && forall j :: 0 <= j < |b| - 1 ==> !ShiftsAt(b, j)
    ensures x in b[|b| - 1].scan.got
  {
    assert Announced(b[0], x);
    var k0: nat :| AnnouncedAt(b[0], x, k0);
    HasLowest(b[0], x, k0);
    var k: nat :| Lowest(b[0], x, k);
    forall i | 0 <= i < |b| ensures AnnouncedAt(b[i], x, k) { PlaceStays(b, x, k, i); }
    KeptPlaceIsSeen(b, x, k, |b| - 1);
  }

  // ---------------------------------------------------------------- when an object is moved

  // A scan reads every place but the last; the owner withdraws the object at `ix`, which moves the last one
  // there, and announces `y`; the scan reads the last place.
  function HidingState(s: State, ix: nat, y: nat, i: nat): State
    requires ix + 1 < s.size <= |s.data|
  {
    var z := s.size;
    var moved := s.data[ix := s.data[z - 1]];
    var read := s.data[..z - 1];
    if i == 0 then s
    else if i <= z then s.(scan := Reading(z, s.data[..i - 1]))
    else if i == z + 1 then State(moved, z, Moved, Reading(z, read))
    else if i == z + 2 then State(moved, z - 1, Quiet, Reading(z, read))
    else if i == z + 3 then State(moved[z - 1 := y], z - 1, Added, Reading(z, read))
    else if i == z + 4 then State(moved[z - 1 := y], z, Quiet, Reading(z, read))
    else State(moved[z - 1 := y], z, Quiet, Reading(z, read + [y]))
  }

  function HidingRun(s: State, ix: nat, y: nat): seq<State>
    requires ix + 1 < s.size <= |s.data|
  {
    seq(s.size + 6, (i: nat) => HidingState(s, ix, y, i))
  }

  lemma HidingStep(s: State, ix: nat, y: nat, i: nat)
    requires s.owner.Quiet? && s.scan.Before? && ix + 1 < s.size <= |s.data| && i < s.size + 5
    ensures Step(HidingState(s, ix, y, i), HidingState(s, ix, y, i + 1))
  {
    var z := s.size;
    var t, t' := HidingState(s, ix, y, i), HidingState(s, ix, y, i + 1);
    if 0 < i < z {
      assert s.data[..i] == s.data[..i - 1] + [s.data[i - 1]];
    } else if i == z {
      assert t' == Move(t, ix);
    } else if i == z + 2 {
      assert t' == Add(t, y);
    }
  }

  lemma HidingAnnounced(s: State, ix: nat, y: nat, i: nat)
    requires ix + 1 < s.size <= |s.data| && i < s.size + 6
    ensures Announced(HidingState(s, ix, y, i), s.data[s.size - 1])
  {
    assert AnnouncedAt(HidingState(s, ix, y, i), s.data[s.size - 1], if i <= s.size then s.size - 1 else ix);
  }

  /**
   Every withdrawal that moves an object can hide it: whatever is announced, if the last object is not
   announced at a lower place too, then a scan that meets the withdrawal of any other object may miss it.
   */
  lemma MovedCanBeMissed(s: State, ix: nat, x: nat, y: nat) returns (b: seq<State>, i: nat)
    requires s.owner.Quiet? && s.scan.Before? && ix + 1 < s.size <= |s.data| && Lowest(s, x, s.size - 1) && y != x
    ensures Run(b) && b[0] == s && AllAlong(b, x) && Done(b[|b| - 1]) && x !in b[|b| - 1].scan.got
    ensures ShiftsAt(b, i) && ix < b[i].size <= |b[i].data| && b[i + 1] == Move(b[i], ix)
    ensures forall j :: ShiftsAt(b, j) ==> j == i
  {
    b := HidingRun(s, ix, y);
    forall i | 0 <= i < |b| - 1 ensures StepAt(b, i) { HidingStep(s, ix, y, i); }
    forall i | 0 <= i < |b| ensures Announced(b[i], x) { HidingAnnounced(s, ix, y, i); }
    i := s.size;
    forall j | ShiftsAt(b, j) ensures j == i { assert b[j + 1].owner == Moved; }
    assert b[i + 1] == Move(b[i], ix);
  }

  /** In particular: objects 1 and 2 are announced, 1 is withdrawn and 3 announced; the scan misses 2. */
  lemma ScanCanMiss() returns (b: seq<State>)
    ensures Run(b) && b[0].data == [1, 2] && b[0].size == 2
    ensures AllAlong(b, 2) && Done(b[|b| - 1]) && 2 !in b[|b| - 1].scan.got
  {
    var s := State([1, 2], 2, Quiet, Before);
    assert Lowest(s, 2, 1);
    var i;
    b, i := MovedCanBeMissed(s, 0, 2, 3);
  }
}
