/**
 Which copies and swaps the lowering of copies and swaps accepts.
 */
module CopyArms {
  import opened Registers

  /** Constants and constant-buffer values are the same for all threads. */
  predicate IsUniform(src: SrcRef) {
    src.RegSrc? ==> UniformFile(src.reg.file)
  }

  predicate UniformFile(file: RegFile) {
    file == UGPR || file == UPred
  }

  /** The lowering of a copy has an arm for the destination file and the kind of source. */
  predicate HasArm(dst: Reg, src: SrcRef) {
    && (IsUniform(src) || !UniformFile(dst.file))
    && match dst.file
       case GPR => src.RegSrc? ==> src.reg.file != Carry
       case UGPR => src.RegSrc? ==> src.reg.file != Carry
       case Pred => src.True? || src.False? || (src.RegSrc? && src.reg.IsPredicate())
       case UPred => src.True? || src.False? || (src.RegSrc? && src.reg.IsPredicate())
       case Bar => src.RegSrc? && (src.reg.file == GPR || src.reg.file == UGPR)
       case Mem => src.RegSrc? && src.reg.file == GPR
       case Carry => false
  }

  /** The destination can be written without a temporary: memory from a general-purpose register
      only, a barrier register from no barrier register. */
  predicate TmpFree(dst: Reg, src: SrcRef) {
    && (dst.file == Mem ==> src.RegSrc? && src.reg.file == GPR)
    && (dst.file == Bar && src.RegSrc? ==> src.reg.file != Bar)
  }

  /** What may be asked of a copy: that it needs no temporary, or that there is an arm for it. */
  datatype Rule = Spared | Accepted

  predicate Passes(k: Rule, dst: Reg, src: SrcRef) {
    match k
    case Spared => TmpFree(dst, src)
    case Accepted => HasArm(dst, src)
  }

  /** Swaps are asked to stay in one file, and out of memory. */
  predicate Fits(k: Rule, i: Instr) {
    match i
    case Copy(dst, src) => Passes(k, dst, src)
    case Swap(x, y) => x.file == y.file && x.file != Mem
    case _ => false
  }

  predicate AllFit(k: Rule, code: seq<Instr>) {
    forall j :: 0 <= j < |code| ==> Fits(k, code[j])
  }

  /** A copy that needs a temporary has no arm; into memory those are all that have none. */
  lemma {:induction false} ArmsSpare(dst: Reg, src: SrcRef)
    ensures HasArm(dst, src) ==> TmpFree(dst, src)
    ensures dst.file == Mem ==> (HasArm(dst, src) <==> TmpFree(dst, src))
  {
  }

  /** Only the files count. */
  lemma {:induction false} FilesDecide(k: Rule, dst: Reg, a: Reg, b: Reg)
    requires a.file == b.file
    ensures Passes(k, dst, RegSrc(a)) <==> Passes(k, dst, RegSrc(b))
  {
  }

  /** Through a general-purpose register `t` memory and barriers can be written and read; what can
      be written from it can be read into it. */
  lemma {:induction false} ThroughGpr(k: Rule, t: Reg, r: Reg)
    requires t.file == GPR
    ensures r.file in {GPR, Bar, Mem} ==> Passes(k, t, RegSrc(r)) && Passes(k, r, RegSrc(t))
    ensures Passes(k, r, RegSrc(t)) && r.file != Carry ==> Passes(k, t, RegSrc(r))
    ensures k == Spared ==> Passes(k, t, RegSrc(r))
  {
  }

  lemma {:induction false} FitConcat(k: Rule, a: seq<Instr>, b: seq<Instr>)
    ensures AllFit(k, a + b) <==> AllFit(k, a) && AllFit(k, b)
  {
    if AllFit(k, a + b) {
      forall j | 0 <= j < |a| ensures Fits(k, a[j]) {
        assert (a + b)[j] == a[j];
      }
      forall j | 0 <= j < |b| ensures Fits(k, b[j]) {
        assert (a + b)[|a| + j] == b[j];
      }
    }
  }
}
