/**
 A descriptor that its owner keeps reusing, and readers that copy it word by word.

 The owner starts a new operation (DESC_NEW), writes the immutable fields and publishes them
 (DESC_INITIALIZED); it may also start anew without publishing.  Each of the two advances the sequence
 number.  A reader copies the words of the descriptor in any order, also
 several times, and then compares the sequence number with the one of the tag it started from.
 `published`, `clock`, `begun` and `ended` record the past; no step depends on them.
 */
module DescriptorSnapshot {

  datatype Desc = Desc(sn: nat, writing: bool, bits: int, fields: seq<int>, published: map<nat, seq<int>>, clock: nat)

  datatype Phase = Idle | Copying | Passed | Failed

  datatype Reader = Reader(
    // gotSn: the copied sequence number, under key 0
    phase: Phase, tag: nat, got: map<nat, int>, gotSn: map<nat, nat>,
    begun: nat, ended: nat)

  datatype State = State(d: Desc, readers: seq<Reader>)

  // ---------------------------------------------------------------- steps

  ghost predicate OwnerStep(d: Desc, d': Desc) {
    || (exists i, v :: 0 <= i < |d.fields| && WriteField(d, i, v, d'))
    || (d.writing && d' == Published(d))
    || (exists bits :: Renew(d, bits, d'))
  }

  ghost predicate WriteField(d: Desc, i: nat, v: int, d': Desc)
    requires i < |d.fields|
  {
    d.writing && d' == d.(fields := d.fields[i := v])
  }

  // DESC_INITIALIZED
  function Published(d: Desc): Desc {
    d.(sn := d.sn + 1, writing := false, published := d.published[d.sn + 1 := d.fields])
  }

  // DESC_NEW
  ghost predicate Renew(d: Desc, bits: int, d': Desc) { d' == d.(sn := d.sn + 1, writing := true, bits := bits) }

  // Any thread's CAS on the subfields of the mutables word.
  ghost predicate BitsStep(d: Desc, d': Desc) { d' == d.(bits := d'.bits) }

  ghost predicate ReaderStep(d: Desc, r: Reader, r': Reader) {
    match r.phase
    case Copying =>
      || (exists i :: 0 <= i < |d.fields| && CopyField(d, r, i, r'))
      || r' == r.(gotSn := r.gotSn[0 := d.sn])
      || (CopiedAll(d, r) && r' == r.(phase := if d.sn == r.tag then Passed else Failed, ended := d.clock))
    case _ => exists tag :: Begin(d, tag, r')
  }

  ghost predicate CopyField(d: Desc, r: Reader, i: nat, r': Reader)
    requires i < |d.fields|
  {
    r' == r.(got := r.got[i := d.fields[i]])
  }

  ghost predicate CopiedAll(d: Desc, r: Reader) {
    0 in r.gotSn && forall i :: 0 <= i < |d.fields| ==> i in r.got
  }

  // A tag that the reader found in memory was published.
  ghost predicate Begin(d: Desc, tag: nat, r': Reader) {
    tag in d.published && r' == Reader(Copying, tag, map[], map[], d.clock, 0)
  }

  ghost predicate Step(s: State, s': State) {
    && s'.d.clock == s.d.clock + 1
    && (|| (s'.readers == s.readers && (OwnerStep(s.d, s'.d.(clock := s.d.clock))
        || BitsStep(s.d, s'.d.(clock := s.d.clock))))
        || (exists t: nat, r: Reader :: ReadBy(s, t, r, s')))
  }

  ghost predicate ReadBy(s: State, t: nat, r: Reader, s': State) {
    && t < |s.readers| && ReaderStep(s.d, s.readers[t], r)
    && s' == State(s.d.(clock := s.d.clock + 1), s.readers[t := r])
  }

  ghost predicate InitState(s: State) {
    && s.d.writing && s.d.published == map[] && s.d.clock == 0
    && forall t :: 0 <= t < |s.readers| ==> s.readers[t].phase == Idle
  }

  ghost predicate StepAt(b: seq<State>, i: int) { 0 <= i < |b| - 1 && Step(b[i], b[i + 1]) }

  ghost predicate Run(b: seq<State>) {
    |b| > 0 && InitState(b[0]) && forall i :: 0 <= i < |b| - 1 ==> StepAt(b, i)
  }

  // ---------------------------------------------------------------- invariant

  ghost predicate DescInv(d: Desc) {
    && (!d.writing ==> d.sn in d.published && d.published[d.sn] == d.fields)
    && (forall x :: x in d.published ==> x <= d.sn && |d.published[x]| == |d.fields|)
    && (d.writing ==> d.sn !in d.published)
  }

  // What a reader has copied so far, if nothing was renewed since it began.
  ghost predicate CopyOk(d: Desc, r: Reader) {
    && (forall i :: i in r.got ==> i < |d.fields| && r.got[i] == d.fields[i])
    && (0 in r.gotSn ==> r.gotSn[0] == r.tag)
  }

  ghost predicate ReaderInv(d: Desc, r: Reader) {
    && (r.phase != Idle ==> r.tag in d.published && r.begun < d.clock)
    && (r.phase == Copying && d.sn == r.tag ==> CopyOk(d, r))
    && (r.phase == Passed ==> Took(d, r))
    && (Checked(r) ==> r.begun <= r.ended < d.clock)
  }

  // The copy holds exactly the fields published under the reader's tag.
  ghost predicate Took(d: Desc, r: Reader) {
    && r.tag in d.published
    && (forall i :: 0 <= i < |d.published[r.tag]| ==> i in r.got && r.got[i] == d.published[r.tag][i])
    && 0 in r.gotSn && r.gotSn[0] == r.tag
  }

  ghost predicate Inv(s: State) {
    DescInv(s.d) && forall t :: 0 <= t < |s.readers| ==> ReaderInv(s.d, s.readers[t])
  }

  // How the descriptor changes.
  ghost predicate Ext(d: Desc, d': Desc) {
    && d.sn <= d'.sn && |d'.fields| == |d.fields|
    && (forall x :: x in d.published ==> x in d'.published && d'.published[x] == d.published[x])
    && (!d.writing && d'.sn == d.sn ==> d'.fields == d.fields && !d'.writing)
  }

  lemma OwnerKeeps(d: Desc, d': Desc)
    requires DescInv(d) && (OwnerStep(d, d') || BitsStep(d, d'))
    ensures DescInv(d') && Ext(d, d')
  {}

  lemma ReaderStable(d: Desc, d': Desc, r: Reader)
    requires DescInv(d) && Ext(d, d') && d.clock <= d'.clock && ReaderInv(d, r)
    ensures ReaderInv(d', r)
  {}

  lemma ReaderKeeps(d: Desc, r: Reader, r': Reader, d': Desc)
    requires DescInv(d) && ReaderInv(d, r) && ReaderStep(d, r, r') && d' == d.(clock := d.clock + 1)
    ensures ReaderInv(d', r')
  {}

  lemma StepKeeps(s: State, s': State)
    requires Inv(s) && Step(s, s')
    ensures Inv(s') && Ext(s.d, s'.d) && |s'.readers| == |s.readers|
  {
    var d' := s'.d.(clock := s.d.clock);
    if s'.readers == s.readers && (OwnerStep(s.d, d') || BitsStep(s.d, d')) {
      OwnerKeeps(s.d, d');
      forall t | 0 <= t < |s'.readers| ensures ReaderInv(s'.d, s'.readers[t]) { ReaderStable(s.d, s'.d, s.readers[t]); }
    } else {
      var t: nat, r: Reader :| ReadBy(s, t, r, s');
      ReaderKeeps(s.d, s.readers[t], r, s'.d);
      forall u | 0 <= u < |s'.readers| ensures ReaderInv(s'.d, s'.readers[u]) {
        if u != t { ReaderStable(s.d, s'.d, s.readers[u]); }
      }
    }
  }

  lemma {:induction false} RunKeeps(b: seq<State>, i: nat)
    requires Run(b) && i < |b|
    ensures Inv(b[i]) && b[i].d.clock == i
  {
    if i > 0 {
      RunKeeps(b, i - 1);
      assert StepAt(b, i - 1);
      StepKeeps(b[i - 1], b[i]);
    }
  }

  lemma {:induction false} RunExt(b: seq<State>, i: nat, j: nat)
    requires Run(b) && i <= j < |b|
    ensures Ext(b[i].d, b[j].d)
  {
    RunKeeps(b, i);
    if i < j {
      RunExt(b, i, j - 1);
      RunKeeps(b, j - 1);
      assert StepAt(b, j - 1);
      StepKeeps(b[j - 1], b[j]);
    }
  }

  // ---------------------------------------------------------------- the copy is an atomic snapshot

  lemma {:induction false} BeganPublished(b: seq<State>, j: nat, t: nat)
    requires Run(b) && j < |b| && t < |b[j].readers| && b[j].readers[t].phase != Idle
    ensures b[j].readers[t].begun < j && b[j].readers[t].tag in b[b[j].readers[t].begun].d.published
  {
    RunKeeps(b, j);
    if j > 0 {
      RunKeeps(b, j - 1);
      assert StepAt(b, j - 1);
      StepKeeps(b[j - 1], b[j]);
      var was, r := b[j - 1].readers[t], b[j].readers[t];
      if was.phase != Idle && (was.tag, was.begun) == (r.tag, r.begun) { BeganPublished(b, j - 1, t); }
    }
  }

  lemma {:induction false} PassedCurrent(b: seq<State>, j: nat, t: nat)
    requires Run(b) && j < |b| && t < |b[j].readers| && b[j].readers[t].phase == Passed
    ensures b[j].readers[t].ended < j && b[b[j].readers[t].ended].d.sn == b[j].readers[t].tag
  {
    RunKeeps(b, j);
    if j > 0 {
      RunKeeps(b, j - 1);
      assert StepAt(b, j - 1);
      StepKeeps(b[j - 1], b[j]);
      if b[j - 1].readers[t] == b[j].readers[t] { PassedCurrent(b, j - 1, t); }
    }
  }

  /**
   A copy that passes the final check holds the fields published under the tag, and at every instant
   from its first read to the check the descriptor itself held exactly these fields under that
   sequence number.
   */
  lemma SnapshotIsAtomic(b: seq<State>, j: nat, t: nat, k: nat)
    requires Run(b) && j < |b| && t < |b[j].readers| && b[j].readers[t].phase == Passed
    requires b[j].readers[t].begun <= k <= b[j].readers[t].ended
    ensures Took(b[j].d, b[j].readers[t]) && k < |b|
    ensures b[k].d.sn == b[j].readers[t].tag && b[k].d.fields == b[j].d.published[b[j].readers[t].tag]
  {
    var r := b[j].readers[t];
    RunKeeps(b, j);
    BeganPublished(b, j, t);
    PassedCurrent(b, j, t);
    RunKeeps(b, r.begun);
    RunExt(b, r.begun, k);
    RunExt(b, k, r.ended);
    RunKeeps(b, k);
    RunExt(b, k, j);
  }

  // The result of a copy was decided by the sequence number at the instant of the check.
  lemma {:induction false} CheckedAt(b: seq<State>, j: nat, t: nat)
    requires Run(b) && j < |b| && t < |b[j].readers| && Checked(b[j].readers[t])
    ensures var r := b[j].readers[t];
            r.begun <= r.ended < j && (r.phase == Passed <==> b[r.ended].d.sn == r.tag)
  {
    RunKeeps(b, j);
    if j > 0 {
      RunKeeps(b, j - 1);
      assert StepAt(b, j - 1);
      StepKeeps(b[j - 1], b[j]);
      if b[j - 1].readers[t] == b[j].readers[t] { CheckedAt(b, j - 1, t); }
    }
  }

  predicate Checked(r: Reader) { r.phase == Passed || r.phase == Failed }

  /**
   A copy passes exactly if the descriptor had the sequence number of the tag at every instant from the
   beginning, before the first word was read, to the check; a renewal at any time in between is noticed.
   */
  lemma PassesIffCurrent(b: seq<State>, j: nat, t: nat)
    requires Run(b) && j < |b| && t < |b[j].readers| && Checked(b[j].readers[t])
    ensures var r := b[j].readers[t];
            && r.begun <= r.ended < j
            && (r.phase == Passed <==> forall k :: r.begun <= k <= r.ended ==> b[k].d.sn == r.tag)
  {
    var r := b[j].readers[t];
    CheckedAt(b, j, t);
    BeganPublished(b, j, t);
    RunKeeps(b, r.begun);
    forall k | r.begun <= k <= r.ended && b[r.ended].d.sn == r.tag ensures b[k].d.sn == r.tag {
      RunExt(b, r.begun, k);
      RunExt(b, k, r.ended);
    }
  }
}
