/**
 The packed words of reusable descriptors: tagged pointers <seq, tid, user bits> and the mutables
 word <seq, subfields>, as 64-bit arithmetic.  Names ending in 1 are those of descriptors_impl.h.
 */
module DescriptorWords {

  type word = bv64

  function UnpackSeq(w: word): word { w >> 14 }
  function UnpackTid(tag: word): word { (tag & 0x3FF8) >> 3 }
  function UnpackUser(tag: word): word { tag & 7 }
  function TagptrNew(tid: word, mutables: word, user: word): word {
    ((mutables >> 14) << 14) | (tid << 3) | user
  }

  function UnpackSeq1(w: word): word { w >> 11 }
  function UnpackTid1(tag: word): word { (tag & 0x7FE) >> 1 }
  function TagptrNew1(tid: word, mutables: word): word { ((mutables >> 11) << 11) | (tid << 1) }

  /** A tag gives back the descriptor's thread, sequence number and user bits. */
  lemma TagRoundTrip(tid: word, mutables: word, user: word)
    requires tid < 2048 && user < 8
    ensures UnpackSeq(TagptrNew(tid, mutables, user)) == UnpackSeq(mutables)
    ensures UnpackTid(TagptrNew(tid, mutables, user)) == tid
    ensures UnpackUser(TagptrNew(tid, mutables, user)) == user
  {}

  lemma TagRoundTrip1(tid: word, mutables: word)
    requires tid < 1024
    ensures UnpackSeq1(TagptrNew1(tid, mutables)) == UnpackSeq1(mutables)
    ensures UnpackTid1(TagptrNew1(tid, mutables)) == tid
  {}

  /** Two tags are equal exactly when they name the same operation of the same thread. */
  lemma TagsDiffer(tid: word, m: word, user: word, tid': word, m': word, user': word)
    requires tid < 2048 && user < 8 && tid' < 2048 && user' < 8
    ensures TagptrNew(tid, m, user) == TagptrNew(tid', m', user')
            <==> tid == tid' && UnpackSeq(m) == UnpackSeq(m') && user == user'
  {
    TagRoundTrip(tid, m, user);
    TagRoundTrip(tid', m', user');
  }

  // ---------------------------------------------------------------- subfields of the mutables word

  function Field(w: word, mask: word): word { w & mask }
  // The word that a successful CAS of the field macros stores; `val` is already shifted into place.
  function PutField(w: word, mask: word, val: word): word { (w & !mask) | val }

  /** Writing a subfield changes that subfield... */
  lemma PutFieldOwn(w: word, mask: word, val: word)
    requires val & mask == val
    ensures Field(PutField(w, mask, val), mask) == val
  {}

  /** ...and no other one... */
  lemma PutFieldOther(w: word, mask: word, val: word, other: word)
    requires val & mask == val && other & mask == 0
    ensures Field(PutField(w, mask, val), other) == Field(w, other)
  {}

  /** ...in particular no bit of the sequence number. */
  lemma PutFieldSeq(w: word, mask: word, val: word)
    requires val & mask == val && mask >> 14 == 0
    ensures UnpackSeq(PutField(w, mask, val)) == UnpackSeq(w)
  {}

  function Rest(w: word, mask: word): word { w & !mask }

  lemma Cleared(w: word, mask: word, val: word)
    requires val & mask == val
    ensures ((w & !mask) | val) & !mask == w & !mask
  {}

  lemma PutFieldRest(w: word, mask: word, val: word)
    requires val & mask == val
    ensures Rest(PutField(w, mask, val), mask) == Rest(w, mask)
  {
    Cleared(w, mask, val);
  }

  lemma RestDecides(v: word, w: word, mask: word, val: word)
    requires Rest(v, mask) == Rest(w, mask)
    ensures PutField(v, mask, val) == PutField(w, mask, val)
  {}

  // Of two values written, the second one stays.
  lemma PutFieldTwice(w: word, mask: word, oldval: word, val: word)
    requires oldval & mask == oldval
    ensures PutField(PutField(w, mask, oldval), mask, val) == PutField(w, mask, val)
  {
    PutFieldRest(w, mask, oldval);
    RestDecides(PutField(w, mask, oldval), w, mask, val);
  }

  // DCSS_MUTABLES_NEW and KCAS_SEQBITS_NEW: the next sequence number and the first state.
  function MutablesNew(w: word, first: word): word { ((w & 0x3FFF_FFFF_FFFF_C000) + 0x4000) | first }
  // DESC_INITIALIZED
  function Initialized(w: word): word { w + 0x4000 }

  // Some sequence number is left, and the bits above it are not used.
  predicate SeqLeft(w: word) { UnpackSeq(w) < 0xFFFF_FFFF_FFFF }

  /** DESC_NEW advances the sequence number by one and sets the first state... */
  lemma NewAdvances(w: word, first: word)
    requires SeqLeft(w) && first >> 14 == 0
    ensures UnpackSeq(MutablesNew(w, first)) == UnpackSeq(w) + 1
    ensures Field(MutablesNew(w, first), 0x3FFF) == first
  {}

  /** ...DESC_INITIALIZED advances it by one... */
  lemma InitializedAdvances(w: word)
    requires SeqLeft(w)
    ensures UnpackSeq(Initialized(w)) == UnpackSeq(w) + 1
  {}

  /** ...and keeps the state... */
  lemma InitializedKeeps(w: word)
    ensures Field(Initialized(w), 0x3FFF) == Field(w, 0x3FFF)
  {}

  /**
   Both advances toggle the parity: after DESC_NEW and DESC_INITIALIZED in turn, the odd words are the
   published ones.
   */
  lemma ParityToggles(w: word, first: word)
    requires SeqLeft(w) && first >> 14 == 0
    ensures UnpackSeq(MutablesNew(w, first)) & 1 != UnpackSeq(w) & 1
    ensures UnpackSeq(Initialized(w)) & 1 != UnpackSeq(w) & 1
  {
    NewAdvances(w, first);
    InitializedAdvances(w);
  }

  // MUTABLES1_NEW and DESC1_INITIALIZED
  function MutablesNew1(w: word, first: word): word { ((w & 0x07FF_FFFF_FFFF_F800) + 0x800) | first }
  function Initialized1(w: word): word { w + 0x800 }

  predicate SeqLeft1(w: word) { UnpackSeq1(w) < 0xFFFF_FFFF_FFFF }

  /** The same for the SCX layout. */
  lemma NewAdvances1(w: word, first: word)
    requires SeqLeft1(w) && first >> 11 == 0
    ensures UnpackSeq1(MutablesNew1(w, first)) == UnpackSeq1(w) + 1
    ensures Field(MutablesNew1(w, first), 0x7FF) == first
  {}

  lemma InitializedAdvances1(w: word)
    requires SeqLeft1(w)
    ensures UnpackSeq1(Initialized1(w)) == UnpackSeq1(w) + 1
  {}

  lemma InitializedKeeps1(w: word)
    ensures Field(Initialized1(w), 0x7FF) == Field(w, 0x7FF)
  {}

  // ---------------------------------------------------------------- words as numbers

  function Half(w: word): (h: word) ensures w != 0 ==> h < w { w >> 1 }
  predicate Odd(w: word) { w & 1 == 1 }
  predicate Next(v: word, w: word) { v != 0xFFFF_FFFF_FFFF_FFFF && w == v + 1 }

  // The number that the word's bits stand for.
  function Num(w: word): nat decreases w { if w == 0 then 0 else 2 * Num(Half(w)) + if Odd(w) then 1 else 0 }

  lemma HalvesDiffer(v: word, w: word)
    requires Half(v) == Half(w) && Odd(v) == Odd(w)
    ensures v == w
  {}

  lemma NextHalf(v: word, w: word)
    requires Next(v, w)
    ensures w != 0 && (Odd(v) ==> v != 0)
    ensures if Odd(v) then !Odd(w) && Next(Half(v), Half(w)) else Odd(w) && Half(w) == Half(v)
  {}

  lemma {:induction false} NumPositive(w: word)
    ensures Num(w) == 0 <==> w == 0
    decreases w
  {
    if w != 0 {
      NumPositive(Half(w));
      if Half(w) == 0 && !Odd(w) { HalvesDiffer(w, 0); }
    }
  }

  /** Different words stand for different numbers. */
  lemma {:induction false} NumDiffers(v: word, w: word)
    requires Num(v) == Num(w)
    ensures v == w
    decreases v
  {
    NumPositive(v);
    NumPositive(w);
    if v != 0 {
      NumDiffers(Half(v), Half(w));
      HalvesDiffer(v, w);
    }
  }

  // The carry of `Next`, bit by bit.
  ghost predicate Carry(v: word, w: word)
    decreases v
  {
    && w != 0
    && if Odd(v) then v != 0 && !Odd(w) && Carry(Half(v), Half(w)) else Odd(w) && Half(w) == Half(v)
  }

  lemma {:induction false} NextCarries(v: word, w: word)
    requires Next(v, w)
    ensures Carry(v, w)
    decreases v
  {
    NextHalf(v, w);
    if Odd(v) { NextCarries(Half(v), Half(w)); }
  }

  lemma {:induction false} NumCarry(v: word, w: word)
    requires Carry(v, w)
    ensures Num(w) == Num(v) + 1
    decreases v
  {
    NumPositive(Half(v));
    if Odd(v) { NumCarry(Half(v), Half(w)); } else if v == 0 { assert Half(v) == 0; }
  }

  /** Counting on in 64 bits is counting on. */
  lemma NumNext(v: word, w: word)
    requires Next(v, w)
    ensures Num(w) == Num(v) + 1
  {
    NextCarries(v, w);
    NumCarry(v, w);
  }
}
