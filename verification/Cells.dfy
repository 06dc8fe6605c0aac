/**
 The protocols' single steps on a descriptor are what the macros do to its packed mutables word.  A word shows a
 descriptor if it holds the sequence number and the state that the protocol has for it.
 */
module Cells {
  import opened DescriptorWords
  import opened FieldLoops
  import D = Dcss
  import K = KCas
  import S = Scx
  import KI = KCasInvariant
  import DP = DcssProof
  import SP = ScxProof

  // ---------------------------------------------------------------- the low bits

  // A subfield that is all there is below the sequence number, as `low` says.
  lemma LowField(w: word, mask: word, low: word)
    requires mask >> 14 == 0 && Field(w, 0x3FFF) == low && low & mask == low
    ensures Field(w, mask) == low
  {}

  lemma LowPut(w: word, mask: word, low: word, val: word)
    requires mask >> 14 == 0 && Field(w, 0x3FFF) == low && low & mask == low && val & mask == val
    ensures Field(PutField(w, mask, val), 0x3FFF) == val && UnpackSeq(PutField(w, mask, val)) == UnpackSeq(w)
  {
    PutFieldSeq(w, mask, val);
  }

  // ---------------------------------------------------------------- k-CAS

  function KCasBits(st: K.Status): word { match st case Undecided => 0 case Succeeded => 4 case Failed => 8 }

  // A descriptor that is started but not published is in its first state.
  function KCasLow(g: K.Shared, t: nat): word
    requires t < |g.kseq|
  {
    var k := K.KId(t, g.kseq[t]); if k in g.kops then KCasBits(g.kops[k].status) else 0
  }

  ghost predicate KCasShows(g: K.Shared, t: nat, w: word) {
    t < |g.kseq| && Num(UnpackSeq(w)) == g.kseq[t] && Field(w, 0x3FFF) == KCasLow(g, t)
  }

  lemma KCasAtomic(g: K.Shared, k: K.KId, ok: bool, w: word, sn: word)
    requires k in g.kops && KCasShows(g, k.tid, w) && Num(sn) == k.sn
    ensures var o := AtomicCas(w, sn, 0xF, 0, KCasBits(if ok then K.Succeeded else K.Failed));
            KCasShows(K.Resolve(g, k, ok), k.tid, o.w) && (o.pc == Done(true) <==> K.Open(g, k))
  {
    var low := KCasLow(g, k.tid);
    LowField(w, 0xF, low);
    if UnpackSeq(w) == sn {
      LowPut(w, 0xF, low, KCasBits(if ok then K.Succeeded else K.Failed));
    } else if Num(UnpackSeq(w)) == Num(sn) {
      NumDiffers(UnpackSeq(w), sn);
    }
  }

  /**
   The step that decides a k-CAS is the loop's last access, and it succeeds exactly if the operation is open; no
   earlier access changes the word.
   */
  lemma KCasResolveIsLoop(g: K.Shared, k: K.KId, ok: bool, words: seq<word>, pcs: seq<Pc>, sn: word, i: nat)
    requires k in g.kops && Num(sn) == k.sn && i < |pcs| && !pcs[i].Done?
    requires CasRun(words, pcs, sn, 0xF, 0, KCasBits(if ok then K.Succeeded else K.Failed))
    requires KCasShows(g, k.tid, words[i])
    ensures var o := CasStep(words[i], pcs[i], sn, 0xF, 0, KCasBits(if ok then K.Succeeded else K.Failed));
            if o.pc.Done? then KCasShows(K.Resolve(g, k, ok), k.tid, o.w) && (o.pc.ok <==> K.Open(g, k))
            else o.w == words[i]
  {
    CasIsAtomic(words, pcs, sn, 0xF, 0, KCasBits(if ok then K.Succeeded else K.Failed), i);
    KCasAtomic(g, k, ok, words[i], sn);
  }

  lemma NewShows(w: word, n: nat)
    requires Num(UnpackSeq(w)) == n && SeqLeft(w)
    ensures Num(UnpackSeq(MutablesNew(w, 0))) == n + 1 && Field(MutablesNew(w, 0), 0x3FFF) == 0
  {
    NewAdvances(w, 0);
    NumNext(UnpackSeq(w), UnpackSeq(MutablesNew(w, 0)));
  }

  lemma InitializedShows(w: word, n: nat)
    requires Num(UnpackSeq(w)) == n && SeqLeft(w)
    ensures Num(UnpackSeq(Initialized(w))) == n + 1 && Field(Initialized(w), 0x3FFF) == Field(w, 0x3FFF)
  {
    InitializedAdvances(w);
    InitializedKeeps(w);
    NumNext(UnpackSeq(w), UnpackSeq(Initialized(w)));
  }

  /** start() is DESC_NEW, and publishing is DESC_INITIALIZED. */
  lemma KCasPublishIsMacro(g: K.Shared, t: nat, w: word, es: seq<K.Entry>, validated: bool)
    requires KI.KOpsInv(g) && KCasShows(g, t, w) && SeqLeft(w) && t < |g.visited|
    ensures KCasShows(K.StartOp(g, t), t, MutablesNew(w, 0))
    ensures K.Started(g, t) ==> KCasShows(K.Publish(g, t, es, validated).0, t, Initialized(w))
  {
    NewShows(w, g.kseq[t]);
    InitializedShows(w, g.kseq[t]);
    assert K.KId(t, g.kseq[t] + 1) in g.kops ==> KI.KOpInv(g, K.KId(t, g.kseq[t] + 1));
  }

  // ---------------------------------------------------------------- DCSS

  function DcssBits(st: D.Status): word { match st case Undecided => 0 case Succeeded => 4 case Failed => 8 }

  ghost predicate DcssShows(g: D.Shared, t: nat, w: word) {
    t < |g.dseq| && Num(UnpackSeq(w)) == g.dseq[t] && Field(w, 0x3FFF) == DcssBits(D.CellState(g, t))
  }

  // What dcssHelp makes of the macro's answer.
  function DcssNext(f: D.Frame, pc: ValPc): seq<D.Frame>
    requires f.CasMutables? && pc.ValDone?
  {
    if pc.failed then []
    else if pc.got == DcssBits(D.Undecided) then [D.Finish(f.o, f.h, f.want, f.seen)]
    else [D.Finish(f.o, f.h, pc.got == DcssBits(D.Succeeded), f.seen)]
  }

  lemma DcssAtomic(g: D.Shared, f: D.Frame, w: word, sn: word)
    requires f.CasMutables? && f.o in g.ops && DcssShows(g, f.o.tid, w) && Num(sn) == f.o.sn
    ensures var o := AtomicValCas(w, sn, 0xF, 0, DcssBits(if f.want then D.Succeeded else D.Failed));
            var x := D.Act(g, f);
            DcssShows(x.g, f.o.tid, o.w) && x.tops == DcssNext(f, o.pc)
  {
    var low := DcssBits(D.CellState(g, f.o.tid));
    LowField(w, 0xF, low);
    if UnpackSeq(w) == sn {
      assert f.o == D.OpId(f.o.tid, g.dseq[f.o.tid]);
      LowPut(w, 0xF, low, DcssBits(if f.want then D.Succeeded else D.Failed));
    } else if Num(UnpackSeq(w)) == Num(sn) {
      NumDiffers(UnpackSeq(w), sn);
    }
  }

  /**
   dcssHelp's two steps on its descriptor are the value-returning loop: reading the word is the first access, and
   deciding is the last, whatever operation it finds there.
   */
  lemma DcssCasIsLoop(g: D.Shared, f: D.Frame, words: seq<word>, pcs: seq<ValPc>, sn: word, i: nat)
    requires f.CasMutables? && f.o in g.ops && Num(sn) == f.o.sn && i < |pcs| && !pcs[i].ValDone?
    requires ValRun(words, pcs, sn, 0xF, 0, DcssBits(if f.want then D.Succeeded else D.Failed))
    requires DcssShows(g, f.o.tid, words[i])
    ensures var o := ValStep(words[i], pcs[i], sn, 0xF, 0, DcssBits(if f.want then D.Succeeded else D.Failed));
            var r := D.Act(g, D.ReadMutables(f.o, f.h, f.want, f.seen, f.at));
            var x := D.Act(g, f);
            if i == 0 then o.w == words[i] && r.g == g && r.tops == if o.pc.ValDone? then DcssNext(f, o.pc) else [f]
            else if o.pc.ValDone? then DcssShows(x.g, f.o.tid, o.w) && x.tops == DcssNext(f, o.pc)
            else o.w == words[i]
  {
    ValCasIsAtomic(words, pcs, sn, 0xF, 0, DcssBits(if f.want then D.Succeeded else D.Failed), i);
    DcssAtomic(g, f, words[i], sn);
    if i == 0 && Num(UnpackSeq(words[i])) == Num(sn) { NumDiffers(UnpackSeq(words[i]), sn); }
  }

  /** Publishing is DESC_NEW and then DESC_INITIALIZED. */
  lemma DcssPublishIsMacros(g: D.Shared, t: nat, w: word, d: D.DOp)
    requires DcssShows(g, t, w) && SeqLeft(w) && SeqLeft(MutablesNew(w, 0))
    ensures DcssShows(D.Publish(g, t, d).0, t, Initialized(MutablesNew(w, 0)))
  {
    NewShows(w, g.dseq[t]);
    InitializedShows(MutablesNew(w, 0), g.dseq[t] + 1);
  }

  // ---------------------------------------------------------------- SCX

  // The state, which stands above the allFrozen bit.
  function ScxBits(st: S.Status): word { match st case InProgress => 0 case Committed => 2 case Aborted => 4 }

  function ScxLow(g: S.Shared, t: nat): word
    requires t < |g.dseq|
  {
    var o := S.OpId(t, g.dseq[t]);
    if o in g.ops then OpBits(g.ops[o]) else 0
  }

  function OpBits(op: S.SOp): word { ScxBits(op.st) | if op.allFrozen then 1 else 0 }

  ghost predicate ScxShows(g: S.Shared, t: nat, w: word) {
    t < |g.dseq| && Num(UnpackSeq1(w)) == g.dseq[t] && Field(w, 0x7FF) == ScxLow(g, t)
  }

  lemma PutSeq1(w: word, mask: word, val: word)
    requires Fits1(mask, val)
    ensures UnpackSeq1(PutField(w, mask, val)) == UnpackSeq1(w)
  {}

  lemma PutsState(w: word, st: word, frozen: word, val: word)
    requires frozen < 2 && (st == 0 || st == 2 || st == 4) && (val == 0 || val == 2 || val == 4)
    requires Field(w, 0x7FF) == st | frozen
    ensures Field(PutField(w, 6, val), 0x7FF) == val | frozen && Field(PutField(w, 1, 1), 0x7FF) == st | 1
  {}

  lemma ScxPuts(w: word, op: S.SOp, st: S.Status)
    requires Field(w, 0x7FF) == OpBits(op)
    ensures Field(PutField(w, 6, ScxBits(st)), 0x7FF) == OpBits(op.(st := st))
    ensures Field(PutField(w, 1, 1), 0x7FF) == OpBits(op.(allFrozen := true))
    ensures UnpackSeq1(PutField(w, 6, ScxBits(st))) == UnpackSeq1(w)
    ensures UnpackSeq1(PutField(w, 1, 1)) == UnpackSeq1(w)
  {
    PutsState(w, ScxBits(op.st), if op.allFrozen then 1 else 0, ScxBits(st));
    PutSeq1(w, 6, ScxBits(st));
    PutSeq1(w, 1, 1);
  }

  lemma ScxSameSeq(g: S.Shared, o: S.OpId, w: word, sn: word)
    requires ScxShows(g, o.tid, w) && Num(sn) == o.sn
    ensures UnpackSeq1(w) == sn <==> S.Current(g, o)
  {
    if Num(UnpackSeq1(w)) == Num(sn) { NumDiffers(UnpackSeq1(w), sn); }
  }

  lemma ScxStateAtomic(g: S.Shared, o: S.OpId, w: word, sn: word, st: S.Status)
    requires o in g.ops && ScxShows(g, o.tid, w) && Num(sn) == o.sn
    ensures ScxShows(S.SetState(g, o, st), o.tid, AtomicWrite(w, sn, 6, ScxBits(st)).w)
  {
    ScxSameSeq(g, o, w, sn);
    if S.Current(g, o) {
      assert o == S.OpId(o.tid, g.dseq[o.tid]);
      ScxPuts(w, g.ops[o], st);
    }
  }

  lemma ScxFrozenAtomic(g: S.Shared, o: S.OpId, w: word, sn: word)
    requires o in g.ops && ScxShows(g, o.tid, w) && Num(sn) == o.sn
    ensures ScxShows(S.SetFrozen(g, o), o.tid, AtomicWrite(w, sn, 1, 1).w)
  {
    ScxSameSeq(g, o, w, sn);
    if S.Current(g, o) {
      assert o == S.OpId(o.tid, g.dseq[o.tid]);
      ScxPuts(w, g.ops[o], S.InProgress);
    }
  }

  /** Setting an SCX's state is the write loop's last access, and no earlier one changes the word... */
  lemma ScxStateIsLoop(g: S.Shared, o: S.OpId, st: S.Status, words: seq<word>, pcs: seq<Pc>, sn: word, i: nat)
    requires o in g.ops && Num(sn) == o.sn && i < |pcs| && !pcs[i].Done?
    requires WriteRun(words, pcs, sn, 6, ScxBits(st)) && ScxShows(g, o.tid, words[i])
    ensures var x := WriteStep(words[i], pcs[i], sn, 6, ScxBits(st));
            if x.pc.Done? then ScxShows(S.SetState(g, o, st), o.tid, x.w) else x.w == words[i]
  {
    WriteIsAtomic(words, pcs, sn, 6, ScxBits(st), i);
    ScxStateAtomic(g, o, words[i], sn, st);
  }

  /** ...and setting allFrozen is that of the loop that sets a bit. */
  lemma ScxFrozenIsLoop(g: S.Shared, o: S.OpId, words: seq<word>, pcs: seq<Pc>, sn: word, i: nat)
    requires o in g.ops && Num(sn) == o.sn && i < |pcs| && !pcs[i].Done?
    requires WriteBitRun(words, pcs, sn, 1) && ScxShows(g, o.tid, words[i])
    ensures var x := WriteBitStep(words[i], pcs[i], sn, 1);
            if x.pc.Done? then ScxShows(S.SetFrozen(g, o), o.tid, x.w) else x.w == words[i]
  {
    WriteBitIsAtomic(words, pcs, sn, 1, i);
    ScxFrozenAtomic(g, o, words[i], sn);
  }

  lemma NewShows1(w: word, n: nat)
    requires Num(UnpackSeq1(w)) == n && SeqLeft1(w)
    ensures Num(UnpackSeq1(MutablesNew1(w, 0))) == n + 1 && Field(MutablesNew1(w, 0), 0x7FF) == 0
  {
    NewAdvances1(w, 0);
    NumNext(UnpackSeq1(w), UnpackSeq1(MutablesNew1(w, 0)));
  }

  lemma InitializedShows1(w: word, n: nat)
    requires Num(UnpackSeq1(w)) == n && SeqLeft1(w)
    ensures Num(UnpackSeq1(Initialized1(w))) == n + 1 && Field(Initialized1(w), 0x7FF) == Field(w, 0x7FF)
  {
    InitializedAdvances1(w);
    InitializedKeeps1(w);
    NumNext(UnpackSeq1(w), UnpackSeq1(Initialized1(w)));
  }

  /** Publishing an SCX is DESC1_INITIALIZED, and the DESC1_NEW after it is the step that leaves scxExecute. */
  lemma ScxPublishIsMacros(g: S.Shared, t: nat, w: word, op: S.SOp, o: S.OpId, won: bool)
    requires SP.OpsInv(g) && ScxShows(g, t, w) && SeqLeft1(w) && t < |g.linked|
    ensures S.OpId(t, g.dseq[t]) !in g.ops && S.Proper(g, t, op) ==>
              ScxShows(S.Publish(g, t, op).0, t, Initialized1(w))
    ensures ScxShows(S.Act(g, t, S.Leave(o, won)).g, t, MutablesNew1(w, 0))
  {
    NewShows1(w, g.dseq[t]);
    InitializedShows1(w, g.dseq[t]);
    assert S.OpId(t, g.dseq[t] + 1) in g.ops ==> SP.OpInv(g, S.OpId(t, g.dseq[t] + 1));
  }
}
