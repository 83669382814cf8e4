/**
 The register machine that lowered code runs on: register files, sources, and the
 copy, swap and logic instructions with their meaning.
 */
module Registers {
  import opened Words

  datatype RegFile = GPR | UGPR | Pred | UPred | Carry | Bar | Mem

  /** A scalar register; `IsPredicate` holds of the two predicate files. */
  datatype Reg = Reg(file: RegFile, idx: nat) {
    predicate IsPredicate() {
      file == Pred || file == UPred
    }
  }

  /** A run of consecutive registers in one file, as the temporary of a parallel copy is. */
  datatype RegVec = RegVec(file: RegFile, base: nat, comps: nat) {
    function Comp(i: nat): Reg {
      Reg(file, base + i)
    }

    ghost predicate Covers(r: Reg) {
      r.file == file && base <= r.idx < base + comps
    }
  }

  type Value = Word

  datatype SrcRef = Zero | True | False | Imm32(u: Value) | CBuf(buf: nat, offset: nat) | RegSrc(reg: Reg)

  /** Instructions after parallel copies are lowered, and the ones swaps are lowered to.
      `PLop3` is the two-destination predicate operation with its two look-up tables. */
  datatype Instr =
    | Copy(dst: Reg, src: SrcRef)
    | Swap(x: Reg, y: Reg)
    | Lop2Xor(dst: Reg, a: Reg, b: Reg)
    | PLop3(dst0: Reg, dst1: Reg, src0: Reg, src1: Reg, src2: SrcRef, lut0: Bits, lut1: Bits)

  /** Any initial register contents (`base`), overlaid by what has been written since. */
  datatype Machine = Machine(cbuf: (nat, nat) -> Value, base: Reg -> Value, written: map<Reg, Value>) {
    ghost function Get(r: Reg): Value {
      if r in written then written[r] else base(r)
    }

    ghost function Set(r: Reg, v: Value): Machine {
      this.(written := written[r := v])
    }

    ghost function Read(s: SrcRef): Value {
      match s
      case Zero => {}
      case True => WORD
      case False => {}
      case Imm32(u) => u
      case CBuf(buf, offset) => cbuf(buf, offset)
      case RegSrc(r) => Get(r)
    }

    ghost function Step(i: Instr): Machine {
      match i
      case Copy(dst, src) => Set(dst, Read(src))
      case Swap(x, y) => Set(x, Get(y)).Set(y, Get(x))
      case Lop2Xor(dst, a, b) => Set(dst, Xor(Get(a), Get(b)))
      case PLop3(dst0, dst1, src0, src1, src2, lut0, lut1) =>
        PLop3Step(dst0, dst1, lut0, lut1, Get(src0), Get(src1), Read(src2))
    }

    ghost function PLop3Step(dst0: Reg, dst1: Reg, lut0: Bits, lut1: Bits, x: Value, y: Value, z: Value): Machine {
      Set(dst0, Eval(lut0, WORD, x, y, z)).Set(dst1, Eval(lut1, WORD, x, y, z))
    }

    /** The state after running `code` in order. */
    ghost function Run(code: seq<Instr>): Machine {
      if code == [] then this else Run(code[..|code| - 1]).Step(code[|code| - 1])
    }

    /** Same constants, and the same contents of every register. */
    ghost predicate Same(m: Machine) {
      cbuf == m.cbuf && forall r: Reg :: Get(r) == m.Get(r)
    }
  }

  lemma {:induction false} RunSnoc(m: Machine, code: seq<Instr>, i: Instr)
    ensures m.Run(code + [i]) == m.Run(code).Step(i)
  {
  }

  lemma {:induction false} RunCopy(m: Machine, code: seq<Instr>, dst: Reg, src: SrcRef)
    ensures m.Run(code + [Copy(dst, src)]) == m.Run(code).Set(dst, m.Run(code).Read(src))
  {
  }

  lemma {:induction false} RunSwap(m: Machine, code: seq<Instr>, x: Reg, y: Reg)
    ensures var n := m.Run(code);
      m.Run(code + [Swap(x, y)]) == n.Set(x, n.Get(y)).Set(y, n.Get(x))
  {
  }

  lemma {:induction false} RunConcat(m: Machine, p: seq<Instr>, q: seq<Instr>)
    ensures m.Run(p + q) == m.Run(p).Run(q)
  {
    if q == [] {
      assert p + q == p;
    } else {
      var init, last := q[..|q| - 1], q[|q| - 1];
      assert p + q == (p + init) + [last];
      RunSnoc(m, p + init, last);
      RunConcat(m, p, init);
    }
  }

  lemma {:induction false} SetSame(m: Machine, n: Machine, r: Reg, v: Value)
    requires m.Same(n)
    ensures m.Set(r, v).Same(n.Set(r, v))
  {
    forall q: Reg ensures m.Set(r, v).Get(q) == n.Set(r, v).Get(q) {
      assert m.Get(q) == n.Get(q);
    }
  }

  lemma {:induction false} StepSame(m: Machine, n: Machine, i: Instr)
    requires m.Same(n) && (i.Copy? || i.Swap?)
    ensures m.Step(i).Same(n.Step(i))
  {
    forall s: SrcRef ensures m.Read(s) == n.Read(s) {}
    match i
    case Copy(dst, src) =>
      SetSame(m, n, dst, m.Read(src));
    case Swap(x, y) =>
      SetSame(m, n, x, m.Get(y));
      SetSame(m.Set(x, m.Get(y)), n.Set(x, m.Get(y)), y, m.Get(x));
  }
}
