/**
 The retry loops on a descriptor's mutables word.  While a loop runs, other threads may change the word
 in any way; each loop behaves as one atomic operation at its last access.  `sn` is the sequence number of the
 snapshot, and values are already shifted into the subfield under `mask`.
 */
module FieldLoops {
  import opened DescriptorWords

  // `val` is a value of the subfield, which lies below the sequence number.
  predicate Fits(mask: word, val: word) { mask >> 14 == 0 && val & mask == val }
  predicate Fits1(mask: word, val: word) { mask >> 11 == 0 && val & mask == val }

  // What the loop remembers; `v` is the word it read last.
  datatype Pc = First | Try(v: word) | Again | Done(ok: bool)

  datatype Out = Out(w: word, pc: Pc)

  // ---------------------------------------------------------------- SEQBITS_CAS_FIELD, MUTABLES_BOOL_CAS_FIELD

  function AtomicCas(w: word, sn: word, mask: word, oldval: word, val: word): Out {
    if UnpackSeq(w) == sn && Field(w, mask) == oldval then Out(PutField(w, mask, val), Done(true))
    else Out(w, Done(false))
  }

  function CasStep(w: word, pc: Pc, sn: word, mask: word, oldval: word, val: word): Out {
    match pc
    case First => Out(w, if UnpackSeq(w) != sn then Done(false) else Try(w))
    case Try(v) =>
      if w == PutField(v, mask, oldval) then Out(PutField(v, mask, val), Done(true)) else Out(w, Again)
    case Again => Out(w, if Field(w, mask) != oldval || UnpackSeq(w) != sn then Done(false) else Try(w))
    case Done(_) => Out(w, pc)
  }

  // ---------------------------------------------------------------- MUTABLES1_WRITE_FIELD and _BIT, with `ok` unused

  function AtomicWrite(w: word, sn: word, mask: word, val: word): Out {
    Out(if UnpackSeq1(w) == sn then PutField(w, mask, val) else w, Done(true))
  }

  function WriteStep(w: word, pc: Pc, sn: word, mask: word, val: word): Out {
    match pc
    case Try(v) => if w == v then Out(PutField(v, mask, val), Done(true)) else Out(w, First)
    case Done(_) => Out(w, pc)
    case _ => Out(w, if UnpackSeq1(w) != sn || Field(w, mask) == val then Done(true) else Try(w))
  }

  function WriteBitStep(w: word, pc: Pc, sn: word, mask: word): Out {
    match pc
    case Try(v) => if w == v then Out(v | mask, Done(true)) else Out(w, First)
    case Done(_) => Out(w, pc)
    case _ => Out(w, if UnpackSeq1(w) != sn || w & mask != 0 then Done(true) else Try(w))
  }

  /** For a subfield of one bit, setting the bit is writing the subfield. */
  lemma WriteBitWrites(w: word, pc: Pc, sn: word, mask: word)
    requires mask != 0 && mask & (mask - 1) == 0
    ensures WriteBitStep(w, pc, sn, mask) == WriteStep(w, pc, sn, mask, mask)
  {
    match pc
    case Try(v) => PutBit(v, mask);
    case _ => OneBit(w, mask);
  }

  lemma OneBit(w: word, mask: word)
    requires mask != 0 && mask & (mask - 1) == 0
    ensures w & mask != 0 <==> w & mask == mask
  {}

  lemma PutBit(v: word, mask: word)
    ensures PutField(v, mask, mask) == v | mask
  {}

  // ---------------------------------------------------------------- MUTABLES_VAL_CAS_FIELD

  // `failed` is failedBit, and `got` what the macro returns otherwise.
  datatype ValPc = ValFirst | ValTry(v: word) | ValDone(failed: bool, got: word)

  datatype ValOut = ValOut(w: word, pc: ValPc)

  // If the sequence number has moved on, the field returned is a later operation's, unless it is the old value again.
  function AtomicValCas(w: word, sn: word, mask: word, oldval: word, val: word): ValOut {
    if Field(w, mask) != oldval then ValOut(w, ValDone(false, Field(w, mask)))
    else if UnpackSeq(w) == sn then ValOut(PutField(w, mask, val), ValDone(false, oldval))
    else ValOut(w, ValDone(true, oldval))
  }

  function ValStep(w: word, pc: ValPc, sn: word, mask: word, oldval: word, val: word): ValOut {
    match pc
    case ValFirst => ValOut(w, if UnpackSeq(w) != sn then ValDone(true, oldval) else ValTry(w))
    case ValTry(v) =>
      if w == PutField(v, mask, oldval) then ValOut(PutField(v, mask, val), ValDone(false, Field(w, mask)))
      else if Field(w, mask) != oldval then ValOut(w, ValDone(false, Field(w, mask)))
      else ValOut(w, if UnpackSeq(w) != sn then ValDone(true, oldval) else ValTry(w))
    case ValDone(_, _) => ValOut(w, pc)
  }

  // ---------------------------------------------------------------- runs among other threads' changes

  // `words[i]` is the word before the loop's i-th access, and `pcs[i]` where the loop then is.
  ghost predicate CasRun(words: seq<word>, pcs: seq<Pc>, sn: word, mask: word, oldval: word, val: word) {
    && |pcs| == |words| > 0 && pcs[0] == First
    && forall i :: 0 <= i < |pcs| - 1 ==>
        !pcs[i].Done? && pcs[i + 1] == CasStep(words[i], pcs[i], sn, mask, oldval, val).pc
  }

  ghost predicate WriteRun(words: seq<word>, pcs: seq<Pc>, sn: word, mask: word, val: word) {
    && |pcs| == |words| > 0 && pcs[0] == First
    && forall i :: 0 <= i < |pcs| - 1 ==> !pcs[i].Done? && pcs[i + 1] == WriteStep(words[i], pcs[i], sn, mask, val).pc
  }

  ghost predicate WriteBitRun(words: seq<word>, pcs: seq<Pc>, sn: word, mask: word) {
    && |pcs| == |words| > 0 && pcs[0] == First
    && forall i :: 0 <= i < |pcs| - 1 ==> !pcs[i].Done? && pcs[i + 1] == WriteBitStep(words[i], pcs[i], sn, mask).pc
  }

  lemma {:induction false} CasKnows(words: seq<word>, pcs: seq<Pc>, sn: word, mask: word, oldval: word, val: word,
      i: nat)
    requires CasRun(words, pcs, sn, mask, oldval, val) && i < |pcs|
    ensures pcs[i].Try? ==> UnpackSeq(pcs[i].v) == sn
  {
    if i > 0 { assert pcs[i] == CasStep(words[i - 1], pcs[i - 1], sn, mask, oldval, val).pc; }
  }

  lemma {:induction false} WriteKnows(words: seq<word>, pcs: seq<Pc>, sn: word, mask: word, val: word, i: nat)
    requires WriteRun(words, pcs, sn, mask, val) && i < |pcs|
    ensures pcs[i].Try? ==> UnpackSeq1(pcs[i].v) == sn && Field(pcs[i].v, mask) != val
  {
    if i > 0 { assert pcs[i] == WriteStep(words[i - 1], pcs[i - 1], sn, mask, val).pc; }
  }

  lemma CasTries(w: word, v: word, sn: word, mask: word, oldval: word, val: word)
    requires Fits(mask, oldval) && UnpackSeq(v) == sn && w == PutField(v, mask, oldval)
    ensures CasStep(w, Try(v), sn, mask, oldval, val) == AtomicCas(w, sn, mask, oldval, val)
    ensures ValStep(w, ValTry(v), sn, mask, oldval, val) == AtomicValCas(w, sn, mask, oldval, val)
  {
    PutFieldSeq(v, mask, oldval);
    PutFieldOwn(v, mask, oldval);
    PutFieldTwice(v, mask, oldval, val);
  }

  lemma PutSame(w: word, mask: word, val: word)
    requires Field(w, mask) == val
    ensures PutField(w, mask, val) == w
  {}

  /**
   The CAS loop is an atomic compare-and-swap of the subfield at its last access; no earlier access changes
   the word.
   */
  lemma CasIsAtomic(words: seq<word>, pcs: seq<Pc>, sn: word, mask: word, oldval: word, val: word, i: nat)
    requires Fits(mask, oldval) && CasRun(words, pcs, sn, mask, oldval, val) && i < |pcs| && !pcs[i].Done?
    ensures var o := CasStep(words[i], pcs[i], sn, mask, oldval, val);
            if o.pc.Done? then o == AtomicCas(words[i], sn, mask, oldval, val) else o.w == words[i]
  {
    CasKnows(words, pcs, sn, mask, oldval, val, i);
    var w, pc := words[i], pcs[i];
    if pc.Try? && w == PutField(pc.v, mask, oldval) { CasTries(w, pc.v, sn, mask, oldval, val); }
  }

  /** The write loop is an atomic write of the subfield, if the sequence number is current, at its last access. */
  lemma WriteIsAtomic(words: seq<word>, pcs: seq<Pc>, sn: word, mask: word, val: word, i: nat)
    requires Fits1(mask, val) && WriteRun(words, pcs, sn, mask, val) && i < |pcs| && !pcs[i].Done?
    ensures var o := WriteStep(words[i], pcs[i], sn, mask, val);
            if o.pc.Done? then o == AtomicWrite(words[i], sn, mask, val) else o.w == words[i]
  {
    WriteKnows(words, pcs, sn, mask, val, i);
    if Field(words[i], mask) == val { PutSame(words[i], mask, val); }
  }

  /** So is the loop that sets a bit. */
  lemma WriteBitIsAtomic(words: seq<word>, pcs: seq<Pc>, sn: word, mask: word, i: nat)
    requires mask >> 11 == 0 && mask != 0 && mask & (mask - 1) == 0
    requires WriteBitRun(words, pcs, sn, mask) && i < |pcs| && !pcs[i].Done?
    ensures var o := WriteBitStep(words[i], pcs[i], sn, mask);
            if o.pc.Done? then o == AtomicWrite(words[i], sn, mask, mask) else o.w == words[i]
  {
    forall j | 0 <= j < |pcs| - 1 ensures pcs[j + 1] == WriteStep(words[j], pcs[j], sn, mask, mask).pc {
      WriteBitWrites(words[j], pcs[j], sn, mask);
    }
    WriteIsAtomic(words, pcs, sn, mask, mask, i);
    WriteBitWrites(words[i], pcs[i], sn, mask);
  }

  ghost predicate ValRun(words: seq<word>, pcs: seq<ValPc>, sn: word, mask: word, oldval: word, val: word) {
    && |pcs| == |words| > 0 && pcs[0] == ValFirst
    && forall i :: 0 <= i < |pcs| - 1 ==>
        !pcs[i].ValDone? && pcs[i + 1] == ValStep(words[i], pcs[i], sn, mask, oldval, val).pc
  }

  lemma {:induction false} ValKnows(words: seq<word>, pcs: seq<ValPc>, sn: word, mask: word, oldval: word, val: word,
      i: nat)
    requires ValRun(words, pcs, sn, mask, oldval, val) && i < |pcs|
    ensures pcs[i].ValTry? ==> UnpackSeq(pcs[i].v) == sn
    ensures pcs[i].ValFirst? ==> i == 0
  {
    if i > 0 { assert pcs[i] == ValStep(words[i - 1], pcs[i - 1], sn, mask, oldval, val).pc; }
  }

  /**
   The loop that returns the field's old contents gives up at its first access if the sequence number has moved on;
   otherwise it is one atomic operation at its last access.
   */
  lemma ValCasIsAtomic(words: seq<word>, pcs: seq<ValPc>, sn: word, mask: word, oldval: word, val: word, i: nat)
    requires Fits(mask, oldval) && ValRun(words, pcs, sn, mask, oldval, val) && i < |pcs| && !pcs[i].ValDone?
    ensures var o := ValStep(words[i], pcs[i], sn, mask, oldval, val);
        if !o.pc.ValDone? then o.w == words[i] && UnpackSeq(words[i]) == sn
        else if i == 0 then o.w == words[i] && o.pc.failed && UnpackSeq(words[i]) != sn
        else o == AtomicValCas(words[i], sn, mask, oldval, val)
  {
    ValKnows(words, pcs, sn, mask, oldval, val, i);
    var w, pc := words[i], pcs[i];
    if pc.ValTry? && w == PutField(pc.v, mask, oldval) { CasTries(w, pc.v, sn, mask, oldval, val); }
  }
}
