/**
 Swaps become logic operations: one two-destination predicate operation where the
 hardware has it, three exclusive-ors otherwise.
 */
module SwapLowering {
  import opened Basics
  import opened Words
  import opened Registers
  import opened CopyArms
  import opened ParCopies

  function LowerSwap(x: Reg, y: Reg, sm: nat): seq<Instr> {
    if x == y then []
    else if x.IsPredicate() && sm >= 70 then
      [PLop3(x, y, x, y, True, PASS_Y, PASS_X)]
    else
      [Lop2Xor(x, x, y), Lop2Xor(y, x, y), Lop2Xor(x, x, y)]
  }

  /** The code with every swap expanded. */
  function LowerSwaps(code: seq<Instr>, sm: nat): seq<Instr> {
    if code == [] then []
    else
      var last := code[|code| - 1];
      LowerSwaps(code[..|code| - 1], sm) + if last.Swap? then LowerSwap(last.x, last.y, sm) else [last]
  }

  /** The tables that pass the second and the first operand through. */
  lemma {:induction false} SwapTables(a: Value, b: Value)
    ensures Eval(PASS_Y, WORD, a, b, WORD) == b && Eval(PASS_X, WORD, a, b, WORD) == a
  {
  }

  lemma {:induction false} RunXor(m: Machine, code: seq<Instr>, dst: Reg, a: Reg, b: Reg)
    ensures m.Run(code + [Lop2Xor(dst, a, b)]) == m.Run(code).Set(dst, Xor(m.Run(code).Get(a), m.Run(code).Get(b)))
  {
  }

  lemma {:induction false} XorPair(m: Machine, x: Reg, y: Reg)
    requires x != y
    ensures m.Run([Lop2Xor(x, x, y), Lop2Xor(y, x, y)]) == m.Set(x, Xor(m.Get(x), m.Get(y))).Set(y, m.Get(x))
  {
    var i := Lop2Xor(x, x, y);
    RunXor(m, [], x, x, y);
    RunXor(m, [i], y, x, y);
    assert [] + [i] == [i] && [i] + [Lop2Xor(y, x, y)] == [i, Lop2Xor(y, x, y)];
    XorTwice(m.Get(x), m.Get(y));
  }

  lemma {:induction false} XorTriple(m: Machine, x: Reg, y: Reg)
    requires x != y
    ensures m.Run([Lop2Xor(x, x, y), Lop2Xor(y, x, y), Lop2Xor(x, x, y)])
         == m.Set(x, Xor(m.Get(x), m.Get(y))).Set(y, m.Get(x)).Set(x, m.Get(y))
  {
    var i, j := Lop2Xor(x, x, y), Lop2Xor(y, x, y);
    XorPair(m, x, y);
    RunXor(m, [i, j], x, x, y);
    assert [i, j] + [i] == [i, j, i];
    XorTwice(m.Get(x), m.Get(y));
  }

  lemma {:induction false} PredicateSwap(m: Machine, x: Reg, y: Reg)
    requires x != y
    ensures m.Run([PLop3(x, y, x, y, True, PASS_Y, PASS_X)]).Same(m.Step(Swap(x, y)))
  {
    var i := PLop3(x, y, x, y, True, PASS_Y, PASS_X);
    RunSnoc(m, [], i);
    assert [] + [i] == [i];
    SwapTables(m.Get(x), m.Get(y));
  }

  lemma {:induction false} LowerSwapCorrect(m: Machine, x: Reg, y: Reg, sm: nat)
    ensures m.Run(LowerSwap(x, y, sm)).Same(m.Step(Swap(x, y)))
  {
    if x == y {
    } else if x.IsPredicate() && sm >= 70 {
      PredicateSwap(m, x, y);
    } else {
      XorTriple(m, x, y);
    }
  }

  /** Expanding every swap of copy-and-swap code changes the effect on no machine state. */
  lemma {:induction false} LowerSwapsCorrect(m: Machine, code: seq<Instr>, sm: nat)
    requires forall k :: 0 <= k < |code| ==> code[k].Copy? || code[k].Swap?
    ensures m.Run(LowerSwaps(code, sm)).Same(m.Run(code))
  {
    if code != [] {
      var init, last := code[..|code| - 1], code[|code| - 1];
      LowerSwapsCorrect(m, init, sm);
      var n, n' := m.Run(init), m.Run(LowerSwaps(init, sm));
      StepSame(n', n, last);
      if last.Swap? {
        RunConcat(m, LowerSwaps(init, sm), LowerSwap(last.x, last.y, sm));
        LowerSwapCorrect(n', last.x, last.y, sm);
        SameTrans(n'.Run(LowerSwap(last.x, last.y, sm)), n'.Step(last), n.Step(last));
      } else {
        RunSnoc(m, LowerSwaps(init, sm), last);
      }
    }
  }

  lemma {:induction false} SameTrans(a: Machine, b: Machine, c: Machine)
    requires a.Same(b) && b.Same(c)
    ensures a.Same(c)
  {
  }

  // ---- what comes out ----

  lemma {:induction false} NoSwapsLeft(code: seq<Instr>, sm: nat)
    ensures forall j :: 0 <= j < |LowerSwaps(code, sm)| ==> !LowerSwaps(code, sm)[j].Swap?
  {
    if code != [] {
      NoSwapsLeft(code[..|code| - 1], sm);
    }
  }

  /** What the encoder takes: a two-destination predicate operation on predicates only, and only
      where the target has it, an exclusive-or on registers of one file, and no exclusive-or where
      the predicate operation does. */
  ghost predicate Encodable(sm: nat, i: Instr) {
    match i
    case Copy(dst, src) => HasArm(dst, src)
    case Swap(_, _) => false
    case Lop2Xor(dst, a, b) => dst.file == a.file == b.file != Mem && !(sm >= 70 && dst.file in {Pred, UPred})
    case PLop3(dst0, dst1, src0, src1, _, _, _) =>
      sm >= 70 && dst0.file in {Pred, UPred} && dst0.file == dst1.file == src0.file == src1.file
  }

  /** The code a swap becomes: nothing for a register and itself, one operation for predicates where
      the target has it, and three exclusive-ors otherwise. */
  lemma {:induction false} LowerSwapShape(x: Reg, y: Reg, sm: nat)
    requires x.file == y.file && x.file != Mem
    ensures forall j :: 0 <= j < |LowerSwap(x, y, sm)| ==> Encodable(sm, LowerSwap(x, y, sm)[j])
    ensures |LowerSwap(x, y, sm)| == if x == y then 0 else if sm >= 70 && x.file in {Pred, UPred} then 1 else 3
  {
  }

  /** Expanding code that passes gives code that the encoder takes. */
  lemma {:induction false} LowerSwapsEncodable(code: seq<Instr>, sm: nat)
    requires AllFit(Accepted, code)
    ensures forall j :: 0 <= j < |LowerSwaps(code, sm)| ==> Encodable(sm, LowerSwaps(code, sm)[j])
  {
    if code != [] {
      var init, last := code[..|code| - 1], code[|code| - 1];
      assert Fits(Accepted, last) && forall j :: 0 <= j < |init| ==> Fits(Accepted, code[j]);
      LowerSwapsEncodable(init, sm);
      if last.Swap? { LowerSwapShape(last.x, last.y, sm); }
    }
  }

  /** The parallel copy, lowered all the way. It fails exactly when a temporary is lacking, or when
      a copy has no arm or a swap goes between files. */
  method LowerToLogic(pc: ParCopy, sm: nat) returns (r: Result<seq<Instr>>)
    requires pc.WellFormed()
    ensures r.Ok? ==> pc.Realizes(r.value) && forall j :: 0 <= j < |r.value| ==> Encodable(sm, r.value[j])
    ensures r.Err? <==> pc.Stuck() || !pc.Fit(Accepted)
  {
    r := LowerParCopy(pc);
    if r.Ok? {
      var code := r.value;
      if !AllFit(Accepted, code) {
        return Err;
      }
      r := Ok(LowerSwaps(code, sm));
      LowerSwapsEncodable(code, sm);
      forall j | 0 <= j < |code| ensures code[j].Copy? || code[j].Swap? {
        assert Fits(Accepted, code[j]);
      }
      forall m: Machine ensures pc.Moved(m, m.Run(r.value)) {
        LowerSwapsCorrect(m, code, sm);
        assert pc.Moved(m, m.Run(code));
      }
    }
  }
}
