/**
 Lowering of a parallel copy (a set of simultaneous register moves) to a sequence of
 single copies and swaps: first every destination nobody still reads, then the cycles.
 */
module ParCopies {
  import opened Basics
  import opened Registers
  import opened CopyArms
  import opened CopyGraphs

  datatype ParCopy = ParCopy(copies: seq<(Reg, SrcRef)>, tmp: Option<RegVec>) {
    ghost predicate IsTmp(r: Reg) {
      tmp.Some? && tmp.value.Covers(r)
    }

    ghost predicate IsDst(r: Reg) {
      exists i :: 0 <= i < |copies| && copies[i].0 == r
    }

    /** Destinations are pairwise distinct; the temporary is in the general-purpose file
        and is none of the registers the copy names. */
    ghost predicate WellFormed() {
      && (forall i, j :: 0 <= i < j < |copies| ==> copies[i].0 != copies[j].0)
      && (tmp.Some? ==> tmp.value.file == GPR && tmp.value.comps >= 1)
      && (forall i :: 0 <= i < |copies| ==> !IsTmp(copies[i].0))
      && (forall i :: 0 <= i < |copies| && copies[i].1.RegSrc? ==> !IsTmp(copies[i].1.reg))
    }

    /** Which destination, other than itself, each destination reads; -1 if none. */
    ghost function DstSources(): seq<int> {
      seq(|copies|, i requires 0 <= i < |copies| =>
        if k :| 0 <= k < |copies| && k != i && copies[i].1 == RegSrc(copies[k].0) then k else -1)
    }

    /** No cycle of moves crosses register files. */
    ghost predicate SingleFileCycles() {
      forall i :: 0 <= i < |copies| && OnCycle(DstSources(), i) && DstSources()[i] >= 0 ==>
        copies[i].0.file == copies[DstSources()[i]].0.file
    }

    /** The instructions by which the cycle of `i` is resolved pass: memory and barrier registers are
        written from the temporaries; with a temporary, every move of a general-purpose cycle is a
        copy from its own source, or from the temporary of the same file; swaps need one file. */
    ghost predicate CycleFits(k: Rule, i: nat)
      requires i < |copies|
    {
      var file := copies[i].0.file;
      if file == Bar || file == Mem then tmp.Some? && forall n: nat :: FromTmpFits(k, Follow(DstSources(), i, n))
      else if file == GPR && tmp.Some? then forall n: nat :: StepFits(k, Follow(DstSources(), i, n))
      else forall n: nat :: FileFits(file, Follow(DstSources(), i, n))
    }

    ghost predicate FromTmpFits(k: Rule, a: int)
      requires tmp.Some?
    {
      0 <= a < |copies| && Passes(k, copies[a].0, RegSrc(tmp.value.Comp(0)))
    }

    ghost predicate StepFits(k: Rule, a: int) {
      0 <= a < |copies| && Passes(k, copies[a].0, copies[a].1)
    }

    ghost predicate FileFits(file: RegFile, a: int) {
      0 <= a < |copies| && copies[a].0.file == file
    }

    /** Move `i` changes something and is not on a cycle. */
    ghost predicate Plain(i: nat) {
      i < |copies| && !OnCycle(DstSources(), i) && copies[i].1 != RegSrc(copies[i].0)
    }

    /** The copies by which move `i` is done pass: it passes itself, or it goes into memory or from
        barrier to barrier, and the copy into the temporary passes. */
    ghost predicate MoveFits(k: Rule, i: nat)
      requires i < |copies|
    {
      || Passes(k, copies[i].0, copies[i].1)
      || (Detours(i) && tmp.Some? && Passes(k, tmp.value.Comp(0), copies[i].1))
    }

    /** Move `i` goes into memory, or from barrier to barrier, and there is no arm for that. */
    ghost predicate Detours(i: nat)
      requires i < |copies|
    {
      var (dst, src) := copies[i];
      !HasArm(dst, src) && (dst.file == Mem || (dst.file == Bar && src.RegSrc? && src.reg.file == Bar))
    }

    ghost predicate MovesFit(k: Rule) {
      forall i: nat :: Plain(i) ==> MoveFits(k, i)
    }

    /** Everything the copy is lowered to passes. */
    ghost predicate Fit(k: Rule) {
      MovesFit(k) && forall i: nat :: i < |copies| && LeadsCycle(DstSources(), i) ==> CycleFits(k, i)
    }

    /** How many instructions move `i` takes if it is not on a cycle: two by way of the temporary. */
    ghost function MoveCost(i: nat): nat {
      if !Plain(i) then 0 else if Detours(i) then 2 else 1
    }

    /** How many the cycle takes that starts at `i`: one swap less than it has moves, or copies with
        the first value put aside, or two copies a move where none goes directly. */
    ghost function CycleCost(i: nat): nat {
      if i < |copies| && LeadsCycle(DstSources(), i) then
        var m: nat :| CycleLength(DstSources(), i, m);
        var file := copies[i].0.file;
        if file == Bar || file == Mem then 2 * m else if file == GPR && tmp.Some? then m + 1 else m - 1
      else 0
    }

    ghost function MovesCost(n: nat): nat {
      if n == 0 then 0 else MovesCost(n - 1) + MoveCost(n - 1)
    }

    ghost function CyclesCost(n: nat): nat {
      if n == 0 then 0 else CyclesCost(n - 1) + CycleCost(n - 1)
    }

    ghost predicate TmpTooSmall() {
      tmp.None? || tmp.value.comps < 2
    }

    /** Move `i` is not on a cycle, and needs a temporary there is none of. */
    ghost predicate MoveStuck(i: nat) {
      Plain(i) && Detours(i) && tmp.None?
    }

    /** Move `i` is the first of a cycle, and its file cannot be swapped nor is there a temporary
        large enough. */
    ghost predicate CycleStuck(i: nat) {
      i < |copies| && LeadsCycle(DstSources(), i) && (copies[i].0.file == Bar || copies[i].0.file == Mem) &&
        TmpTooSmall()
    }

    ghost predicate Stuck() {
      exists i: nat :: MoveStuck(i) || CycleStuck(i)
    }

    /** Running `code` moves every source's old value to its destination and changes
        nothing else but the temporary. */
    ghost predicate Realizes(code: seq<Instr>) {
      forall m: Machine :: Moved(m, m.Run(code))
    }

    ghost predicate Moved(m: Machine, m': Machine) {
      && (forall i :: 0 <= i < |copies| ==> m'.Get(copies[i].0) == m.Read(copies[i].1))
      && (forall r: Reg :: !IsDst(r) && !IsTmp(r) ==> m'.Get(r) == m.Get(r))
    }
  }

  predicate CopyNeedsTmp(dst: Reg, src: SrcRef): (r: bool)
    ensures r <==> !TmpFree(dst, src)
    ensures r <==> !HasArm(dst, src) && (dst.file == Mem || (dst.file == Bar && src.RegSrc? && src.reg.file == Bar))
  {
    if src.RegSrc? then
      (dst.file == Mem && src.reg.file != GPR) || (dst.file == Bar && src.reg.file == Bar)
    else
      dst.file == Mem
  }

  /** Err where the source insists on a temporary that is missing or too small. */
  function CycleUseSwap(pc: ParCopy, file: RegFile): (r: Result<bool>)
    ensures r == Ok(true) ==> file != Bar && file != Mem
    ensures r == Ok(false) ==> pc.tmp.Some? && (file == GPR || file == Bar || file == Mem)
    ensures r == Ok(false) && file != GPR ==> pc.tmp.value.comps >= 2
    ensures r.Err? <==> (file == Bar || file == Mem) && pc.TmpTooSmall()
  {
    match file
    case GPR => Ok(pc.tmp.None?)
    case Bar => if pc.tmp.Some? && pc.tmp.value.comps >= 2 then Ok(false) else Err
    case Mem => if pc.tmp.Some? && pc.tmp.value.comps >= 2 then Ok(false) else Err
    case _ => Ok(true)
  }

  /** One move, through `via` when the files cannot be copied directly. */
  function Move(dst: Reg, src: SrcRef, via: Option<Reg>): seq<Instr> {
    if via.None? then [Copy(dst, src)] else [Copy(via.value, src), Copy(dst, RegSrc(via.value))]
  }

  // ---- the lowering state ----

  /** `vals[i]` is the register or constant of node `i`; the first nodes are the destinations. */
  ghost predicate ValsOk(pc: ParCopy, vals: seq<SrcRef>) {
    && pc.WellFormed()
    && |pc.copies| <= |vals|
    && (forall i :: 0 <= i < |pc.copies| ==> vals[i] == RegSrc(pc.copies[i].0))
    && (forall i, j :: 0 <= i < j < |vals| && vals[i].RegSrc? ==> vals[i] != vals[j])
    && (forall i :: 0 <= i < |vals| && vals[i].RegSrc? ==> !pc.IsTmp(vals[i].reg))
  }

  /** The edges `s` connect nodes, and only destinations have sources. */
  ghost predicate GraphOk(pc: ParCopy, vals: seq<SrcRef>, s: seq<int>) {
    && ValsOk(pc, vals)
    && |s| == |vals|
    && InRange(s)
    && (forall i :: 0 <= i < |s| ==> s[i] != i)
    && (forall i :: |pc.copies| <= i < |s| ==> s[i] == -1)
  }

  /** Where the value of node `a` is found: `saved` names a node whose value was put aside in `t`. */
  ghost function Home(vals: seq<SrcRef>, saved: int, t: Reg, a: int): SrcRef
    requires 0 <= a < |vals|
  {
    if a == saved then RegSrc(t) else vals[a]
  }

  /** A destination without an edge holds its final value; one with an edge will get it from
      its source node. Registers outside the copy are untouched. */
  ghost predicate Holds(pc: ParCopy, vals: seq<SrcRef>, s: seq<int>, saved: int, t: Reg, m0: Machine, m: Machine)
    requires GraphOk(pc, vals, s)
  {
    && m.cbuf == m0.cbuf
    && (forall i :: 0 <= i < |pc.copies| ==>
          m.Read(if s[i] >= 0 then Home(vals, saved, t, s[i]) else vals[i]) == m0.Read(pc.copies[i].1))
    && (forall r: Reg :: !pc.IsDst(r) && !pc.IsTmp(r) ==> m.Get(r) == m0.Get(r))
  }

  ghost predicate AllHold(pc: ParCopy, vals: seq<SrcRef>, s: seq<int>, saved: int, t: Reg, code: seq<Instr>) {
    && GraphOk(pc, vals, s)
    && forall m: Machine :: Holds(pc, vals, s, saved, t, m, m.Run(code))
  }

  // ---- what each emitted step keeps ----

  /** `m'` is `m` after giving `dst` the value of `src`, with `via` clobbered. */
  ghost predicate MoveDone(m: Machine, m': Machine, dst: Reg, src: SrcRef, via: Option<Reg>) {
    && m'.cbuf == m.cbuf
    && m'.Get(dst) == m.Read(src)
    && forall r: Reg :: r != dst && via != Some(r) ==> m'.Get(r) == m.Get(r)
  }

  lemma {:induction false} RunMove(m: Machine, code: seq<Instr>, dst: Reg, src: SrcRef, via: Option<Reg>)
    ensures MoveDone(m.Run(code), m.Run(code + Move(dst, src, via)), dst, src, via)
  {
    if via.None? {
      RunCopy(m, code, dst, src);
    } else {
      var first := Copy(via.value, src);
      RunCopy(m, code, via.value, src);
      RunCopy(m, code + [first], dst, RegSrc(via.value));
      assert code + Move(dst, src, via) == code + [first] + [Copy(dst, RegSrc(via.value))];
    }
  }

  /** Overwriting a destination that nobody reads from its register any more. */
  lemma {:induction false} MoveHolds(pc: ParCopy, vals: seq<SrcRef>, s: seq<int>, saved: int, t: Reg, m0: Machine,
                                     m: Machine, m': Machine,
                  p: int, via: Option<Reg>)
    requires GraphOk(pc, vals, s) && 0 <= p < |pc.copies| && s[p] >= 0
    requires GraphOk(pc, vals, s[p := -1])
    requires forall a :: 0 <= a < |s| && s[a] == p ==> p == saved
    requires via.Some? ==> pc.IsTmp(via.value)
    requires saved >= 0 ==> pc.IsTmp(t) && via != Some(t)
    requires Holds(pc, vals, s, saved, t, m0, m)
    requires MoveDone(m, m', pc.copies[p].0, Home(vals, saved, t, s[p]), via)
    ensures Holds(pc, vals, s[p := -1], saved, t, m0, m')
  {
    forall a | 0 <= a < |vals| && a != p ensures m'.Read(vals[a]) == m.Read(vals[a]) {
      assert vals[a] != vals[p];
    }
    var s' := s[p := -1];
    forall i | 0 <= i < |pc.copies|
      ensures m'.Read(if s'[i] >= 0 then Home(vals, saved, t, s'[i]) else vals[i]) == m0.Read(pc.copies[i].1)
    {
      if i != p && s[i] >= 0 && s[i] != saved {
        assert s[i] != p;
      }
    }
  }

  lemma {:induction false} MoveKeeps(pc: ParCopy, vals: seq<SrcRef>, s: seq<int>, saved: int, t: Reg, code: seq<Instr>,
                                     p: int, via: Option<Reg>)
    requires AllHold(pc, vals, s, saved, t, code)
    requires 0 <= p < |pc.copies| && s[p] >= 0
    requires forall a :: 0 <= a < |s| && s[a] == p ==> p == saved
    requires via.Some? ==> pc.IsTmp(via.value)
    requires saved >= 0 ==> pc.IsTmp(t) && via != Some(t)
    ensures AllHold(pc, vals, s[p := -1], saved, t, code + Move(pc.copies[p].0, Home(vals, saved, t, s[p]), via))
  {
    var src := Home(vals, saved, t, s[p]);
    var code' := code + Move(pc.copies[p].0, src, via);
    forall m: Machine ensures Holds(pc, vals, s[p := -1], saved, t, m, m.Run(code')) {
      RunMove(m, code, pc.copies[p].0, src, via);
      MoveHolds(pc, vals, s, saved, t, m, m.Run(code), m.Run(code'), p, via);
    }
  }

  /** Putting a node's value aside in the temporary. */
  lemma {:induction false} SaveKeeps(pc: ParCopy, vals: seq<SrcRef>, s: seq<int>, t0: Reg, t: Reg, code: seq<Instr>,
                                     i: int)
    requires AllHold(pc, vals, s, -1, t0, code)
    requires 0 <= i < |pc.copies| && pc.IsTmp(t)
    ensures AllHold(pc, vals, s, i, t, code + [Copy(t, vals[i])])
  {
    var code' := code + [Copy(t, vals[i])];
    forall m: Machine ensures Holds(pc, vals, s, i, t, m, m.Run(code')) {
      RunMove(m, code, t, vals[i], None);
      assert Holds(pc, vals, s, -1, t0, m, m.Run(code));
      forall a | 0 <= a < |vals| ensures m.Run(code').Read(vals[a]) == m.Run(code).Read(vals[a]) {}
    }
  }

  /** Once nobody reads the saved node, the temporary no longer matters. */
  lemma {:induction false} ForgetSaved(pc: ParCopy, vals: seq<SrcRef>, s: seq<int>, saved: int, t: Reg, t': Reg,
                                       code: seq<Instr>)
    requires AllHold(pc, vals, s, saved, t, code)
    requires forall a :: 0 <= a < |s| && s[a] >= 0 ==> s[a] != saved
    ensures AllHold(pc, vals, s, -1, t', code)
  {
    forall m: Machine ensures Holds(pc, vals, s, -1, t', m, m.Run(code)) {
      assert Holds(pc, vals, s, saved, t, m, m.Run(code));
    }
  }

  /** The edges after one swap: `i` reads what its source read, or the cycle is gone. */
  ghost function Swapped(s: seq<int>, i: int): seq<int>
    requires OnlyCycles(s) && 0 <= i < |s| && s[i] >= 0
  {
    var j := s[i];
    var k := s[j];
    if k == i then s[i := -1][j := -1] else s[i := k][j := -1]
  }

  ghost predicate SwapDone(m: Machine, m': Machine, x: Reg, y: Reg) {
    && m'.cbuf == m.cbuf
    && m'.Get(x) == m.Get(y)
    && m'.Get(y) == m.Get(x)
    && forall r: Reg :: r != x && r != y ==> m'.Get(r) == m.Get(r)
  }

  lemma {:induction false} SwapRuns(m: Machine, code: seq<Instr>, x: Reg, y: Reg)
    ensures SwapDone(m.Run(code), m.Run(code + [Swap(x, y)]), x, y)
  {
    RunSwap(m, code, x, y);
  }

  lemma {:induction false} SwapReads(pc: ParCopy, vals: seq<SrcRef>, m: Machine, m': Machine, j: nat, k: nat)
    requires ValsOk(pc, vals) && j < |pc.copies| && k < |pc.copies|
    requires SwapDone(m, m', vals[j].reg, vals[k].reg)
    ensures m'.Read(vals[j]) == m.Read(vals[k]) && m'.Read(vals[k]) == m.Read(vals[j])
    ensures forall a :: 0 <= a < |vals| && a != j && a != k ==> m'.Read(vals[a]) == m.Read(vals[a])
  {
    forall a | 0 <= a < |vals| && a != j && a != k ensures m'.Read(vals[a]) == m.Read(vals[a]) {
      assert vals[a].RegSrc? ==> vals[a] != vals[j] && vals[a] != vals[k];
    }
  }

  lemma {:induction false} SwapHolds(pc: ParCopy, vals: seq<SrcRef>, s: seq<int>, t: Reg, m0: Machine, m: Machine,
                                     m': Machine, i: int)
    requires GraphOk(pc, vals, s) && OnlyCycles(s)
    requires 0 <= i < |pc.copies| && 0 <= s[i] < |pc.copies| && 0 <= s[s[i]] < |pc.copies|
    requires GraphOk(pc, vals, Swapped(s, i))
    requires Holds(pc, vals, s, -1, t, m0, m)
    requires SwapDone(m, m', vals[s[i]].reg, vals[s[s[i]]].reg)
    ensures Holds(pc, vals, Swapped(s, i), -1, t, m0, m')
  {
    var j := s[i];
    var k := s[j];
    var s' := Swapped(s, i);
    SwapReads(pc, vals, m, m', j, k);
    forall x | 0 <= x < |pc.copies|
      ensures m'.Read(if s'[x] >= 0 then vals[s'[x]] else vals[x]) == m0.Read(pc.copies[x].1)
    {
      if x != i && x != j && s[x] >= 0 {
        assert s[x] != j && s[x] != k;
      }
    }
    assert vals[j] == RegSrc(pc.copies[j].0) && vals[k] == RegSrc(pc.copies[k].0);
  }

  lemma {:induction false} SwappedOk(pc: ParCopy, vals: seq<SrcRef>, s: seq<int>, i: int)
    requires GraphOk(pc, vals, s) && OnlyCycles(s)
    requires 0 <= i < |pc.copies| && s[i] >= 0
    ensures GraphOk(pc, vals, Swapped(s, i))
    ensures s[i] < |pc.copies| && s[s[i]] < |pc.copies|
  {
    assert s[s[s[i]]] >= 0;
  }

  lemma {:induction false} SwapKeeps(pc: ParCopy, vals: seq<SrcRef>, s: seq<int>, t: Reg, code: seq<Instr>, i: int)
    requires AllHold(pc, vals, s, -1, t, code) && OnlyCycles(s)
    requires 0 <= i < |pc.copies| && s[i] >= 0
    ensures vals[s[i]].RegSrc? && vals[s[s[i]]].RegSrc?
    ensures AllHold(pc, vals, Swapped(s, i), -1, t, code + [Swap(vals[s[i]].reg, vals[s[s[i]]].reg)])
  {
    SwappedOk(pc, vals, s, i);
    var x, y := vals[s[i]].reg, vals[s[s[i]]].reg;
    var code' := code + [Swap(x, y)];
    forall m: Machine ensures Holds(pc, vals, Swapped(s, i), -1, t, m, m.Run(code')) {
      SwapRuns(m, code, x, y);
      SwapHolds(pc, vals, s, t, m, m.Run(code), m.Run(code'), i);
    }
  }

  // ---- cycles of moves ----

  /** The edges of `s` are moves of the copy. */
  ghost predicate FromCopies(pc: ParCopy, vals: seq<SrcRef>, s: seq<int>)
    requires GraphOk(pc, vals, s)
  {
    forall i :: 0 <= i < |pc.copies| && s[i] >= 0 ==> vals[s[i]] == pc.copies[i].1
  }

  lemma {:induction false} DstSourceUnique(pc: ParCopy, i: int, k: int)
    requires pc.WellFormed() && 0 <= i < |pc.copies| && 0 <= k < |pc.copies| && i != k
    requires pc.copies[i].1 == RegSrc(pc.copies[k].0)
    ensures pc.DstSources()[i] == k
  {
    var j := pc.DstSources()[i];
    assert 0 <= j < |pc.copies| && pc.copies[i].1 == RegSrc(pc.copies[j].0);
  }

  lemma {:induction false} EdgeIsDstSource(pc: ParCopy, vals: seq<SrcRef>, s: seq<int>, a: int)
    requires GraphOk(pc, vals, s) && OnlyCycles(s) && FromCopies(pc, vals, s)
    requires 0 <= a < |s| && s[a] >= 0
    ensures a < |pc.copies| && s[a] < |pc.copies| && pc.DstSources()[a] == s[a] && s[s[a]] >= 0
  {
    assert s[s[a]] >= 0;
    DstSourceUnique(pc, a, s[a]);
  }

  lemma {:induction false} FollowsCopies(pc: ParCopy, vals: seq<SrcRef>, s: seq<int>, i: int, n: nat)
    requires GraphOk(pc, vals, s) && OnlyCycles(s) && FromCopies(pc, vals, s)
    requires 0 <= i < |s| && s[i] >= 0
    ensures Follow(pc.DstSources(), i, n) == Follow(s, i, n)
    ensures 0 <= Follow(s, i, n) < |pc.copies| && s[Follow(s, i, n)] >= 0
  {
    forall a | 0 <= a < |s| && s[a] >= 0 ensures NextSame(s, pc.DstSources(), a) {
      EdgeIsDstSource(pc, vals, s, a);
    }
    FollowsSame(s, pc.DstSources(), i, n);
  }

  // ---- the passes ----

  /** The index of every register that has a node. */
  ghost predicate Indexed(vals: seq<SrcRef>, regToIdx: map<Reg, nat>) {
    && (forall r :: r in regToIdx ==> regToIdx[r] < |vals| && vals[regToIdx[r]] == RegSrc(r))
    && (forall a :: 0 <= a < |vals| && vals[a].RegSrc? ==> vals[a].reg in regToIdx && regToIdx[vals[a].reg] == a)
  }

  /** Destinations below `i` have their edge; the others have none yet. */
  ghost predicate BuiltTo(pc: ParCopy, vals: seq<SrcRef>, s: seq<int>, i: int) {
    && 0 <= i <= |pc.copies|
    && GraphOk(pc, vals, s)
    && FromCopies(pc, vals, s)
    && (forall a :: 0 <= a < i && s[a] < 0 ==> pc.copies[a].1 == vals[a])
    && (forall a :: i <= a < |s| ==> s[a] == -1)
  }

  lemma {:induction false} BuiltNode(pc: ParCopy, vals: seq<SrcRef>, s: seq<int>, i: int)
    requires BuiltTo(pc, vals, s, i) && i < |pc.copies|
    requires pc.copies[i].1.RegSrc? ==> pc.copies[i].1 !in vals
    ensures BuiltTo(pc, vals + [pc.copies[i].1], s + [-1], i)
  {
    var src := pc.copies[i].1;
    assert src.RegSrc? ==> !pc.IsTmp(src.reg);
    assert ValsOk(pc, vals + [src]);
  }

  lemma {:induction false} BuiltEdge(pc: ParCopy, vals: seq<SrcRef>, s: seq<int>, i: int, j: nat)
    requires BuiltTo(pc, vals, s, i) && i < |pc.copies|
    requires j < |vals| && vals[j] == pc.copies[i].1
    ensures BuiltTo(pc, vals, if i == j then s else s[i := j], i + 1)
  {
  }

  method DstNodes(pc: ParCopy) returns (g: CopyGraph, vals: seq<SrcRef>, regToIdx: map<Reg, nat>)
    requires pc.WellFormed()
    ensures fresh(g) && g.Valid() && |g.nodes| == |vals|
    ensures BuiltTo(pc, vals, g.S(), 0) && Indexed(vals, regToIdx)
  {
    g := new CopyGraph();
    vals := [];
    regToIdx := map[];
    for i := 0 to |pc.copies|
      invariant g.Valid() && |g.nodes| == |vals| == i
      invariant forall a :: 0 <= a < i ==> g.S()[a] == -1
      invariant forall a :: 0 <= a < i ==> vals[a] == RegSrc(pc.copies[a].0)
      invariant Indexed(vals, regToIdx)
    {
      var idx := g.AddNode();
      vals := vals + [RegSrc(pc.copies[i].0)];
      regToIdx := regToIdx[pc.copies[i].0 := idx];
    }
  }

  lemma {:induction false} IndexedSnoc(vals: seq<SrcRef>, regToIdx: map<Reg, nat>, src: SrcRef)
    requires Indexed(vals, regToIdx) && src !in vals
    ensures Indexed(vals + [src], if src.RegSrc? then regToIdx[src.reg := |vals|] else regToIdx)
  {
    forall a | 0 <= a < |vals| ensures vals[a] != src {}
  }

  /** The node of the source of move `i`, created if a register has none yet; constants
      always get their own. */
  method SourceNode(pc: ParCopy, g: CopyGraph, vals: seq<SrcRef>, regToIdx: map<Reg, nat>, i: nat)
    returns (srcIdx: nat, vals': seq<SrcRef>, regToIdx': map<Reg, nat>)
    requires g.Valid() && |g.nodes| == |vals|
    requires i < |pc.copies| && BuiltTo(pc, vals, g.S(), i) && Indexed(vals, regToIdx)
    modifies g
    ensures g.Valid() && |g.nodes| == |vals'|
    ensures BuiltTo(pc, vals', g.S(), i) && Indexed(vals', regToIdx')
    ensures srcIdx < |vals'| && vals'[srcIdx] == pc.copies[i].1
  {
    var src := pc.copies[i].1;
    vals', regToIdx' := vals, regToIdx;
    if src.RegSrc? && src.reg in regToIdx {
      srcIdx := regToIdx[src.reg];
    } else {
      BuiltNode(pc, vals, g.S(), i);
      srcIdx := g.AddNode();
      vals' := vals + [src];
      if src.RegSrc? {
        IndexedSnoc(vals, regToIdx, src);
        regToIdx' := regToIdx[src.reg := srcIdx];
      }
    }
  }

  /** Nodes for the destinations, then for the sources, and an edge for every move
      that is not from a register to itself. */
  method BuildGraph(pc: ParCopy) returns (g: CopyGraph, vals: seq<SrcRef>)
    requires pc.WellFormed()
    ensures fresh(g) && g.Valid() && |g.nodes| == |vals|
    ensures BuiltTo(pc, vals, g.S(), |pc.copies|)
  {
    var regToIdx: map<Reg, nat>;
    g, vals, regToIdx := DstNodes(pc);
    for i := 0 to |pc.copies|
      invariant fresh(g) && g.Valid() && |g.nodes| == |vals|
      invariant BuiltTo(pc, vals, g.S(), i) && Indexed(vals, regToIdx)
    {
      var srcIdx;
      srcIdx, vals, regToIdx := SourceNode(pc, g, vals, regToIdx, i);
      BuiltEdge(pc, vals, g.S(), i, srcIdx);
      if i != srcIdx {
        g.AddEdge(i, srcIdx);
      }
    }
  }

  ghost const NO_TMP := Reg(GPR, 0)

  // ---- what the phases leave alone ----

  /** Cycles of moves are still there. */
  ghost predicate CyclesKept(pc: ParCopy, s: seq<int>) {
    |pc.copies| <= |s| && forall a :: 0 <= a < |pc.copies| && OnCycle(pc.DstSources(), a) ==>
      s[a] == pc.DstSources()[a] >= 0
  }

  /** The moves done did not lack a temporary. */
  ghost predicate DoneFree(pc: ParCopy, s: seq<int>) {
    |pc.copies| <= |s| && forall a: nat :: a < |pc.copies| && s[a] < 0 ==> !pc.MoveStuck(a)
  }

  lemma {:induction false} OnCycleHasSource(pc: ParCopy, a: int)
    requires 0 <= a < |pc.copies| && OnCycle(pc.DstSources(), a)
    ensures 0 <= pc.DstSources()[a] < |pc.copies| && pc.copies[a].1 == RegSrc(pc.copies[pc.DstSources()[a]].0)
  {
    var m: nat :| CycleLength(pc.DstSources(), a, m);
    if pc.DstSources()[a] < 0 {
      NowhereToGo(pc.DstSources(), a, m);
    }
  }

  lemma {:induction false} NowhereToGo(s: seq<int>, a: int, m: nat)
    requires 0 <= a < |s| && s[a] < 0 && m >= 1
    ensures Follow(s, a, m) < 0
  {
    if m > 1 { NowhereToGo(s, a, m - 1); } else { assert Follow(s, a, 0) == a; }
  }

  lemma {:induction false} BuiltKeepsCycles(pc: ParCopy, vals: seq<SrcRef>, s: seq<int>)
    requires BuiltTo(pc, vals, s, |pc.copies|)
    ensures CyclesKept(pc, s) && DoneFree(pc, s)
  {
    forall a | 0 <= a < |pc.copies| && OnCycle(pc.DstSources(), a) ensures s[a] == pc.DstSources()[a] >= 0 {
      OnCycleHasSource(pc, a);
      var k := pc.DstSources()[a];
      assert vals[k] == RegSrc(pc.copies[k].0) && vals[a] == RegSrc(pc.copies[a].0);
    }
  }

  /** The moves done pass. */
  ghost predicate DoneFit(pc: ParCopy, k: Rule, s: seq<int>) {
    |pc.copies| <= |s| && forall a: nat :: a < |pc.copies| && s[a] < 0 && pc.Plain(a) ==> pc.MoveFits(k, a)
  }

  /** What the first `n` moves took, as far as they are done. */
  ghost function DoneCost(pc: ParCopy, s: seq<int>, n: nat): nat
    requires n <= |s|
  {
    if n == 0 then 0 else DoneCost(pc, s, n - 1) + if s[n - 1] < 0 then pc.MoveCost(n - 1) else 0
  }

  lemma {:induction false} DoneCostStart(pc: ParCopy, s: seq<int>, n: nat)
    requires n <= |s| && forall a: nat :: a < n && s[a] < 0 ==> !pc.Plain(a)
    ensures DoneCost(pc, s, n) == 0
  {
    if n > 0 { DoneCostStart(pc, s, n - 1); }
  }

  lemma {:induction false} DoneCostServed(pc: ParCopy, s: seq<int>, d: nat, n: nat)
    requires d < |s| && n <= |s| && s[d] >= 0
    ensures DoneCost(pc, s[d := -1], n) == DoneCost(pc, s, n) + if d < n then pc.MoveCost(d) else 0
  {
    if n > 0 { DoneCostServed(pc, s, d, n - 1); }
  }

  lemma {:induction false} DoneCostAll(pc: ParCopy, s: seq<int>, n: nat)
    requires n <= |s| && forall a: nat :: a < n && s[a] >= 0 ==> !pc.Plain(a)
    ensures DoneCost(pc, s, n) == pc.MovesCost(n)
  {
    if n > 0 { DoneCostAll(pc, s, n - 1); }
  }

  /** The code is as long as the moves done need, and passes exactly if they do. */
  ghost predicate FitSoFar(pc: ParCopy, s: seq<int>, code: seq<Instr>) {
    && |pc.copies| <= |s| && |code| == DoneCost(pc, s, |pc.copies|)
    && forall k: Rule :: AllFit(k, code) <==> DoneFit(pc, k, s)
  }

  lemma {:induction false} FitStart(pc: ParCopy, vals: seq<SrcRef>, s: seq<int>)
    requires BuiltTo(pc, vals, s, |pc.copies|)
    ensures FitSoFar(pc, s, [])
  {
    DoneCostStart(pc, s, |pc.copies|);
  }

  /** A node that nobody reads is on no cycle. */
  lemma {:induction false} UnreadOnNoCycle(pc: ParCopy, s: seq<int>, d: int)
    requires CyclesKept(pc, s) && Unread(s, d) && d >= 0
    ensures !OnCycle(pc.DstSources(), d)
  {
    if OnCycle(pc.DstSources(), d) {
      var x := CycleReader(pc.DstSources(), d);
    }
  }

  lemma {:induction false} ServedKeepsCycles(pc: ParCopy, s: seq<int>, d: nat)
    requires CyclesKept(pc, s) && DoneFree(pc, s) && d < |s| && Unread(s, d) && !pc.MoveStuck(d)
    ensures CyclesKept(pc, s[d := -1]) && DoneFree(pc, s[d := -1])
  {
    UnreadOnNoCycle(pc, s, d);
  }

  ghost predicate Unread(s: seq<int>, a: int) {
    forall x :: 0 <= x < |s| ==> s[x] != a
  }

  /** Every unread destination that still waits for its value is on the stack. */
  ghost predicate ReadyOk(pc: ParCopy, s: seq<int>, ready: seq<nat>) {
    && (forall x :: x in ready ==> x < |s| && Unread(s, x))
    && (forall a :: 0 <= a < |pc.copies| && a < |s| && s[a] >= 0 && Unread(s, a) ==> a in ready)
  }

  lemma {:induction false} StartHolds(pc: ParCopy, vals: seq<SrcRef>, s: seq<int>)
    requires BuiltTo(pc, vals, s, |pc.copies|)
    ensures AllHold(pc, vals, s, -1, NO_TMP, [])
  {
    forall m: Machine ensures Holds(pc, vals, s, -1, NO_TMP, m, m.Run([])) {}
  }

  lemma {:induction false} ReadyTop(pc: ParCopy, s: seq<int>, rest: seq<nat>, d: nat)
    requires ReadyOk(pc, s, rest + [d])
    ensures d < |s| && Unread(s, d)
    ensures s[d] < 0 ==> ReadyOk(pc, s, rest)
  {
    assert d in rest + [d];
    forall x | x in rest ensures x in rest + [d] {}
  }

  /** Taking the edge of a ready node off the graph may free its source. */
  lemma {:induction false} ReadyPop(pc: ParCopy, s: seq<int>, rest: seq<nat>, d: nat, src: nat, rest': seq<nat>)
    requires ReadyOk(pc, s, rest + [d])
    requires d < |s| && s[d] == src < |s|
    requires rest' == if Unread(s[d := -1], src) then rest + [src] else rest
    ensures ReadyOk(pc, s[d := -1], rest')
  {
    var s' := s[d := -1];
    forall x | x in rest' ensures x < |s'| && Unread(s', x) {
      if x in rest {
        assert x in rest + [d];
      }
    }
    forall a | 0 <= a < |pc.copies| && a < |s'| && s'[a] >= 0 && Unread(s', a) ensures a in rest' {
      if a != src {
        forall x | 0 <= x < |s| ensures s[x] != a {
          assert s'[x] != a;
        }
        assert Unread(s, a);
      }
    }
  }

  method InitialReady(pc: ParCopy, g: CopyGraph) returns (ready: seq<nat>)
    requires g.Valid() && |pc.copies| <= |g.nodes|
    ensures ReadyOk(pc, g.S(), ready)
  {
    ready := [];
    for i := 0 to |pc.copies|
      invariant forall x :: x in ready ==> x < |g.nodes| && Unread(g.S(), x)
      invariant forall a :: 0 <= a < i && Unread(g.S(), a) ==> a in ready
    {
      var n := g.NumReads(i);
      if n == 0 {
        ready := ready + [i];
      }
    }
  }

  lemma {:induction false} ReadyEmpty(pc: ParCopy, vals: seq<SrcRef>, s: seq<int>)
    requires GraphOk(pc, vals, s) && ReadyOk(pc, s, [])
    ensures OnlyCycles(s)
  {
    forall a | 0 <= a < |s| && s[a] >= 0 ensures Readers(s, a) != {} {
      assert !Unread(s, a);
      var x :| 0 <= x < |s| && s[x] == a;
      assert x in Readers(s, a);
    }
    AllReadMeansOnlyCycles(s);
  }

  lemma {:induction false} CopyStuck(pc: ParCopy, vals: seq<SrcRef>, s: seq<int>, d: nat)
    requires GraphOk(pc, vals, s) && FromCopies(pc, vals, s) && CyclesKept(pc, s) && d < |s| && s[d] >= 0
    requires Unread(s, d)
    ensures d < |pc.copies| && pc.Plain(d) && vals[s[d]] == pc.copies[d].1
    ensures pc.MoveStuck(d) <==> CopyNeedsTmp(pc.copies[d].0, vals[s[d]]) && pc.tmp.None?
  {
    UnreadOnNoCycle(pc, s, d);
    assert vals[d] == RegSrc(pc.copies[d].0);
  }

  /** A move passes if its own copy does, or the one to the temporary: from there memory and barriers
      can be written. */
  lemma {:induction false} MoveFitsExactly(pc: ParCopy, d: nat, via: Option<Reg>)
    requires pc.WellFormed() && d < |pc.copies|
    requires via.Some? <==> CopyNeedsTmp(pc.copies[d].0, pc.copies[d].1)
    requires via.Some? ==> pc.tmp.Some? && via.value == pc.tmp.value.Comp(0)
    ensures forall k: Rule :: AllFit(k, Move(pc.copies[d].0, pc.copies[d].1, via)) <==> pc.MoveFits(k, d)
  {
    var (dst, src) := pc.copies[d];
    var code := Move(dst, src, via);
    ArmsSpare(dst, src);
    forall k: Rule ensures AllFit(k, code) <==> pc.MoveFits(k, d) {
      assert AllFit(k, code) ==> Fits(k, code[0]);
      if via.Some? { ThroughGpr(k, via.value, dst); }
    }
  }

  /** Gives the unread destination `d` its value and removes its edge. */
  method CopyReady(pc: ParCopy, g: CopyGraph, vals: seq<SrcRef>, code: seq<Instr>, d: nat)
    returns (r: Result<seq<Instr>>, freed: bool)
    requires g.Valid() && |g.nodes| == |vals|
    requires AllHold(pc, vals, g.S(), -1, NO_TMP, code)
    requires d < |g.nodes| && g.S()[d] >= 0 && Unread(g.S(), d) && FromCopies(pc, vals, g.S()) && CyclesKept(pc, g.S())
    modifies g
    ensures g.Valid() && |g.nodes| == |vals|
    ensures r.Ok? ==> g.S() == old(g.S())[d := -1]
    ensures r.Ok? ==> AllHold(pc, vals, g.S(), -1, NO_TMP, r.value)
    ensures r.Ok? ==> d < |pc.copies| && pc.Plain(d) && |r.value| == |code| + pc.MoveCost(d)
    ensures r.Ok? ==> d < |pc.copies| && forall k: Rule :: AllFit(k, r.value) <==> AllFit(k, code) && pc.MoveFits(k, d)
    ensures r.Ok? ==> (freed <==> Unread(g.S(), old(g.S()[d])))
    ensures if r.Err? then pc.MoveStuck(d) else !pc.MoveStuck(d)
  {
    CopyStuck(pc, vals, g.S(), d);
    var srcIdx := g.nodes[d].src;
    var via := None;
    freed := false;
    if CopyNeedsTmp(pc.copies[d].0, vals[srcIdx]) {
      if pc.tmp.None? {
        return Err, freed;
      }
      via := Some(pc.tmp.value.Comp(0));
    }
    MoveKeeps(pc, vals, g.S(), -1, NO_TMP, code, d, via);
    freed := g.DelEdge(d, srcIdx);
    MoveFitsExactly(pc, d, via);
    forall k: Rule { FitConcat(k, code, Move(pc.copies[d].0, vals[srcIdx], via)); }
    r := Ok(code + Move(pc.copies[d].0, vals[srcIdx], via));
  }

  ghost predicate ReadyInv(pc: ParCopy, vals: seq<SrcRef>, s: seq<int>, ready: seq<nat>, code: seq<Instr>) {
    && AllHold(pc, vals, s, -1, NO_TMP, code)
    && FitSoFar(pc, s, code)
    && FromCopies(pc, vals, s)
    && ReadyOk(pc, s, ready)
    && CyclesKept(pc, s) && DoneFree(pc, s)
  }

  lemma {:induction false} FromFewerCopies(pc: ParCopy, vals: seq<SrcRef>, s: seq<int>, d: nat)
    requires GraphOk(pc, vals, s) && FromCopies(pc, vals, s) && d < |s| && s[d] >= 0
    ensures GraphOk(pc, vals, s[d := -1]) && FromCopies(pc, vals, s[d := -1])
    ensures |Edges(s[d := -1])| < |Edges(s)|
  {
    assert Edges(s[d := -1]) == Edges(s) - {d};
    assert d in Edges(s);
  }

  lemma {:induction false} ServedFits(pc: ParCopy, s: seq<int>, d: nat, code: seq<Instr>, code': seq<Instr>)
    requires FitSoFar(pc, s, code) && |pc.copies| <= |s| && d < |pc.copies| && s[d] >= 0 && pc.Plain(d)
    requires |code'| == |code| + pc.MoveCost(d)
    requires forall k: Rule :: AllFit(k, code') <==> AllFit(k, code) && pc.MoveFits(k, d)
    ensures FitSoFar(pc, s[d := -1], code')
  {
    DoneCostServed(pc, s, d, |pc.copies|);
    forall k: Rule ensures DoneFit(pc, k, s[d := -1]) <==> DoneFit(pc, k, s) && pc.MoveFits(k, d) {}
  }

  /** Pops one node off the stack and serves it. */
  method ReadyStep(pc: ParCopy, g: CopyGraph, vals: seq<SrcRef>, ready: seq<nat>, code: seq<Instr>)
    returns (r: Result<seq<Instr>>, ready': seq<nat>)
    requires g.Valid() && |g.nodes| == |vals|
    requires ReadyInv(pc, vals, g.S(), ready, code) && ready != []
    modifies g
    ensures g.Valid() && |g.nodes| == |vals|
    ensures r.Ok? ==> ReadyInv(pc, vals, g.S(), ready', r.value)
    ensures r.Ok? ==> |Edges(g.S())| < |Edges(old(g.S()))| || (g.S() == old(g.S()) && |ready'| < |ready|)
    ensures r.Err? ==> pc.Stuck()
  {
    ghost var s := g.S();
    var d, rest := ready[|ready| - 1], ready[..|ready| - 1];
    assert ready == rest + [d];
    ReadyTop(pc, s, rest, d);
    var srcIdx := g.nodes[d].src;
    r, ready' := Ok(code), rest;
    if srcIdx >= 0 {
      var freed;
      r, freed := CopyReady(pc, g, vals, code, d);
      if r.Ok? {
        ready' := if freed then rest + [srcIdx] else rest;
        ReadyPop(pc, s, rest, d, srcIdx, ready');
        FromFewerCopies(pc, vals, s, d);
        ServedKeepsCycles(pc, s, d);
        ServedFits(pc, s, d, code, r.value);
      }
    }
  }

  /** Copies into destinations nobody reads, until only cycles are left. */
  method ReadyPhase(pc: ParCopy, g: CopyGraph, vals: seq<SrcRef>) returns (r: Result<seq<Instr>>)
    requires g.Valid() && |g.nodes| == |vals|
    requires BuiltTo(pc, vals, g.S(), |pc.copies|)
    modifies g
    ensures g.Valid() && |g.nodes| == |vals|
    ensures r.Ok? ==> AllHold(pc, vals, g.S(), -1, NO_TMP, r.value) && FitSoFar(pc, g.S(), r.value)
    ensures r.Ok? ==> OnlyCycles(g.S()) && FromCopies(pc, vals, g.S()) && CyclesKept(pc, g.S()) && DoneFree(pc, g.S())
    ensures r.Err? ==> pc.Stuck()
  {
    r := Ok([]);
    StartHolds(pc, vals, g.S());
    BuiltKeepsCycles(pc, vals, g.S());
    FitStart(pc, vals, g.S());
    var ready: seq<nat> := InitialReady(pc, g);
    while ready != []
      invariant g.Valid() && |g.nodes| == |vals| && r.Ok?
      invariant ReadyInv(pc, vals, g.S(), ready, r.value)
      decreases |Edges(g.S())|, |ready|
    {
      r, ready := ReadyStep(pc, g, vals, ready, r.value);
      if r.Err? {
        return;
      }
    }
    ReadyEmpty(pc, vals, g.S());
  }

  lemma {:induction false} SwappedCycles(s: seq<int>, i: int, len: nat)
    requires OnlyCycles(s) && 0 <= i < |s| && s[i] >= 0 && s[i] != i && CycleLength(s, i, len)
    ensures OnlyCycles(Swapped(s, i))
    ensures s[s[i]] == i ==> len == 2
    ensures s[s[i]] != i ==> len > 2 && CycleLength(Swapped(s, i), i, len - 1)
  {
    var j := s[i];
    var k := s[j];
    assert Follow(s, i, 1) == j;
    assert Follow(s, i, 1 + 1) == k;
    if k == i {
      CycleLengthUnique(s, i, len, 2);
    } else {
      BypassShortens(s, i, len);
      BypassKeepsCycles(s, i);
      assert Swapped(s, i) == Bypass(s, i);
    }
  }

  /** Swaps the registers two reads away from `i` and shortens its cycle by one. */
  method SwapStep(pc: ParCopy, g: CopyGraph, vals: seq<SrcRef>, code: seq<Instr>, i: nat)
    returns (code': seq<Instr>, done: bool)
    requires g.Valid() && |g.nodes| == |vals|
    requires AllHold(pc, vals, g.S(), -1, NO_TMP, code) && OnlyCycles(g.S())
    requires i < |pc.copies| && g.S()[i] >= 0
    modifies g
    ensures g.Valid() && |g.nodes| == |vals|
    ensures g.S() == Swapped(old(g.S()), i) && (done <==> old(g.S()[g.S()[i]]) == i)
    ensures AllHold(pc, vals, g.S(), -1, NO_TMP, code')
    ensures var s := old(g.S()); code' == code + [Swap(RegOf(vals, s[i]), RegOf(vals, s[s[i]]))]
  {
    ghost var s := g.S();
    SwappedOk(pc, vals, s, i);
    SwapKeeps(pc, vals, s, NO_TMP, code, i);
    var j := g.nodes[i].src;
    var k := g.nodes[j].src;
    code' := code + [Swap(vals[j].reg, vals[k].reg)];
    var _ := g.DelEdge(i, j);
    var _ := g.DelEdge(j, k);
    done := i == k;
    if !done {
      g.AddEdge(i, k);
    }
  }

  ghost function RegOf(vals: seq<SrcRef>, a: int): Reg {
    if 0 <= a < |vals| && vals[a].RegSrc? then vals[a].reg else NO_TMP
  }

  /** The first `n` swaps of the cycle of `i`: each swaps the next two nodes. */
  ghost function SwapCode(vals: seq<SrcRef>, s: seq<int>, i: int, n: nat): (code: seq<Instr>)
    ensures |code| == n
  {
    if n == 0 then []
    else SwapCode(vals, s, i, n - 1) + [Swap(RegOf(vals, Follow(s, i, n)), RegOf(vals, Follow(s, i, n + 1)))]
  }

  lemma {:induction false} SwappedConfined(s0: seq<int>, s: seq<int>, i: int, c: set<int>)
    requires OnlyCycles(s) && 0 <= i < |s| && s[i] >= 0 && Confined(s, s0, i, c) && i in c
    ensures Confined(Swapped(s, i), s0, i, c)
  {
  }

  /** What the loop of swaps keeps, besides the values: `len` nodes are left in the cycle of `i`; one
      node is none. */
  ghost predicate SwapsInv(pc: ParCopy, vals: seq<SrcRef>, s0: seq<int>, s: seq<int>, i: nat, len: nat, done: bool,
                           c: set<int>, code0: seq<Instr>, code: seq<Instr>, m: nat) {
    && GraphOk(pc, vals, s) && OnlyCycles(s) && i < |pc.copies| && 1 <= len <= m
    && Confined(s, s0, i, c) && i in c && code == code0 + SwapCode(vals, s0, i, m - len)
    && if done then s[i] == -1 && len == 1
         else s[i] >= 0 && CycleLength(s, i, len) && s[i] == Follow(s0, i, m - len + 1)
  }

  lemma {:induction false} SwapsStart(pc: ParCopy, vals: seq<SrcRef>, s: seq<int>, i: nat, m: nat, c: set<int>,
                                      code: seq<Instr>)
    requires GraphOk(pc, vals, s) && OnlyCycles(s) && i < |pc.copies| && s[i] >= 0 && CycleLength(s, i, m)
    requires Closed(s, c) && i in c
    ensures SwapsInv(pc, vals, s, s, i, m, false, c, code, code, m)
  {
    assert code + [] == code;
    assert Follow(s, i, 0) == i;
  }

  /** The cycle of `i` is gone, and nothing else. */
  ghost predicate BrokenBySwaps(pc: ParCopy, vals: seq<SrcRef>, s0: seq<int>, s: seq<int>, i: nat, c: set<int>,
                                code0: seq<Instr>, code: seq<Instr>, m: nat) {
    && AllHold(pc, vals, s, -1, NO_TMP, code) && OnlyCycles(s) && i < |s| && s[i] == -1
    && Confined(s, s0, i, c) && i < |pc.copies| && m >= 1 && code == code0 + SwapCode(vals, s0, i, m - 1)
  }

  /** One swap takes one node out of the cycle. */
  method SwapTurn(pc: ParCopy, g: CopyGraph, vals: seq<SrcRef>, ghost code0: seq<Instr>, code: seq<Instr>, i: nat,
                  ghost len: nat, done: bool,
                  ghost s0: seq<int>, ghost c: set<int>, ghost m: nat)
    returns (code': seq<Instr>, done': bool, ghost len': nat)
    requires g.Valid() && |g.nodes| == |vals| && AllHold(pc, vals, g.S(), -1, NO_TMP, code) && !done
    requires SwapsInv(pc, vals, s0, g.S(), i, len, done, c, code0, code, m)
    modifies g
    ensures g.Valid() && |g.nodes| == |vals| && len' < len && AllHold(pc, vals, g.S(), -1, NO_TMP, code')
    ensures SwapsInv(pc, vals, s0, g.S(), i, len', done', c, code0, code', m)
  {
    SwapsKept(pc, vals, s0, g.S(), i, len, c, code0, code, m);
    code', done' := SwapStep(pc, g, vals, code, i);
    len' := len - 1;
  }

  /** A swap leaves a cycle with one node less, or none. */
  lemma {:induction false} SwappedShape(pc: ParCopy, vals: seq<SrcRef>, s: seq<int>, i: nat, len: nat)
    requires GraphOk(pc, vals, s) && OnlyCycles(s) && i < |pc.copies| && s[i] >= 0 && CycleLength(s, i, len)
    ensures len >= 2 && s[i] < |s| && GraphOk(pc, vals, Swapped(s, i)) && OnlyCycles(Swapped(s, i))
    ensures if s[s[i]] == i then Swapped(s, i)[i] == -1 && len == 2
      else Swapped(s, i)[i] == s[s[i]] >= 0 && CycleLength(Swapped(s, i), i, len - 1)
  {
    SwappedOk(pc, vals, s, i);
    SwappedCycles(s, i, len);
  }

  lemma {:induction false} SwapsKept(pc: ParCopy, vals: seq<SrcRef>, s0: seq<int>, s: seq<int>, i: nat, len: nat,
                                     c: set<int>, code0: seq<Instr>, code: seq<Instr>, m: nat)
    requires SwapsInv(pc, vals, s0, s, i, len, false, c, code0, code, m)
    ensures s[i] < |s| && SwapsInv(pc, vals, s0, Swapped(s, i), i, len - 1, s[s[i]] == i, c, code0,
                                   code + [Swap(RegOf(vals, s[i]), RegOf(vals, s[s[i]]))], m)
  {
    SwappedShape(pc, vals, s, i, len);
    SwappedConfined(s0, s, i, c);
    SwapsNext(pc, vals, s0, s, i, m - len + 1, code0, code);
  }

  /** The two nodes swapped next are the next two of the cycle as it was. */
  lemma {:induction false} SwapsNext(pc: ParCopy, vals: seq<SrcRef>, s0: seq<int>, s: seq<int>, i: nat, n: nat,
                                     code0: seq<Instr>, code: seq<Instr>)
    requires GraphOk(pc, vals, s) && OnlyCycles(s) && i < |s| && n > 0 && s[i] == Follow(s0, i, n) >= 0
    requires |s0| == |s| && forall a {:trigger s[a]} :: 0 <= a < |s| && a != i ==> s[a] == s0[a] || s[a] == -1
    requires code == code0 + SwapCode(vals, s0, i, n - 1)
    ensures s[s[i]] == Follow(s0, i, n + 1)
    ensures code + [Swap(RegOf(vals, s[i]), RegOf(vals, s[s[i]]))] == code0 + SwapCode(vals, s0, i, n)
  {
    assert s[s[i]] == s0[s[i]];
  }

  /** Resolves the cycle of `i`, of length m, by m - 1 swaps. */
  method BreakBySwaps(pc: ParCopy, g: CopyGraph, vals: seq<SrcRef>, code: seq<Instr>, i: nat, ghost m: nat,
                      ghost c: set<int>)
    returns (code': seq<Instr>)
    requires g.Valid() && |g.nodes| == |vals| && AllHold(pc, vals, g.S(), -1, NO_TMP, code)
    requires SwapsInv(pc, vals, g.S(), g.S(), i, m, false, c, code, code, m)
    modifies g
    ensures g.Valid() && |g.nodes| == |vals| && BrokenBySwaps(pc, vals, old(g.S()), g.S(), i, c, code, code', m)
  {
    code' := code;
    ghost var len, s := m, g.S();
    var done := false;
    while !done
      invariant g.Valid() && |g.nodes| == |vals| && AllHold(pc, vals, g.S(), -1, NO_TMP, code')
      invariant SwapsInv(pc, vals, s, g.S(), i, len, done, c, code, code', m)
      decreases len
    {
      code', done, len := SwapTurn(pc, g, vals, code, code', i, len, done, s, c, m);
    }
  }

  /** The cycle of `i` with the nodes served so far cut out; `p` is the node to serve next. */
  ghost function Pending(s: seq<int>, i: int, p: int): seq<int>
    requires 0 <= i < |s| && 0 <= p < |s|
  {
    s[p := -1][i := s[p]]
  }

  lemma {:induction false} PendingStep(pc: ParCopy, vals: seq<SrcRef>, s: seq<int>, i: int, p: int, len: nat)
    requires GraphOk(pc, vals, s) && 0 <= i < |pc.copies| && 0 <= p < |pc.copies|
    requires s[p] >= 0 && s[p] != i && (p != i ==> s[i] == -1)
    requires OnlyCycles(Pending(s, i, p)) && CycleLength(Pending(s, i, p), i, len)
    ensures forall a :: 0 <= a < |s| && s[a] == p ==> p == i
    ensures s[p] < |pc.copies| && s[s[p]] >= 0
    ensures len >= 2
    ensures OnlyCycles(Pending(s[p := -1], i, s[p])) && CycleLength(Pending(s[p := -1], i, s[p]), i, len - 1)
  {
    var v := Pending(s, i, p);
    assert v[i] == s[p];
    assert v[v[i]] >= 0;
    forall a | 0 <= a < |s| ensures s[a] == p ==> p == i {
      assert v[a] >= 0 ==> v[v[a]] >= 0;
    }
    BypassShortens(v, i, len);
    BypassKeepsCycles(v, i);
    assert Bypass(v, i) == Pending(s[p := -1], i, s[p]);
  }

  lemma {:induction false} PendingEnd(pc: ParCopy, vals: seq<SrcRef>, s: seq<int>, i: int, p: int, len: nat)
    requires GraphOk(pc, vals, s) && 0 <= i < |pc.copies| && 0 <= p < |pc.copies|
    requires s[p] == i && (p != i ==> s[i] == -1)
    requires OnlyCycles(Pending(s, i, p)) && CycleLength(Pending(s, i, p), i, len)
    ensures len == 1
    ensures forall a :: 0 <= a < |s| ==> s[a] != p
    ensures OnlyCycles(s[p := -1])
    ensures Unread(s[p := -1], i)
  {
    var v := Pending(s, i, p);
    assert v[i] == i;
    assert Follow(v, i, 1) == i;
    forall a | 0 <= a < |s| ensures s[a] != p && (a != p ==> s[a] != i) {
      assert v[a] >= 0 ==> v[v[a]] >= 0;
      assert v[a] == v[i] ==> a == i;
    }
    assert v[i := -1] == s[p := -1];
  }

  /** Midway through a cycle of which `len` nodes are left, the value of `i` put aside. */
  ghost predicate TempInv(pc: ParCopy, vals: seq<SrcRef>, s: seq<int>, i: nat, p: nat, len: nat, code: seq<Instr>) {
    && pc.tmp.Some?
    && AllHold(pc, vals, s, i, pc.tmp.value.Comp(0), code)
    && i < |pc.copies| && p < |pc.copies|
    && s[p] >= 0
    && (p != i ==> s[i] == -1)
    && OnlyCycles(Pending(s, i, p))
    && CycleLength(Pending(s, i, p), i, len)
  }

  ghost predicate SecondTmp(pc: ParCopy, via: Option<Reg>) {
    pc.tmp.Some? && (via.Some? ==> pc.IsTmp(via.value) && via.value != pc.tmp.value.Comp(0))
  }

  /** The first `n` copies of the cycle of `i`: each node is given what the next one holds. */
  ghost function MoveCode(vals: seq<SrcRef>, s: seq<int>, i: int, via: Option<Reg>, n: nat): seq<Instr> {
    if n == 0 then []
    else MoveCode(vals, s, i, via, n - 1) + NodeMove(vals, Follow(s, i, n - 1), Follow(s, i, n), via)
  }

  ghost function NodeMove(vals: seq<SrcRef>, a: int, b: int, via: Option<Reg>): seq<Instr> {
    if 0 <= b < |vals| then Move(RegOf(vals, a), vals[b], via) else []
  }

  /** A cycle of `m` nodes resolved through the temporary `t`. */
  ghost function TempCode(vals: seq<SrcRef>, s: seq<int>, i: int, t: Reg, via: Option<Reg>, m: nat): seq<Instr>
    requires m >= 1
  {
    [Copy(t, RegSrc(RegOf(vals, i)))] + MoveCode(vals, s, i, via, m - 1) +
      [Copy(RegOf(vals, Follow(s, i, m - 1)), RegSrc(t))]
  }

  ghost predicate Thinned(s': seq<int>, s: seq<int>) {
    |s'| == |s| && forall a :: 0 <= a < |s| ==> s'[a] == s[a] || s'[a] == -1
  }

  lemma {:induction false} TempStart(pc: ParCopy, vals: seq<SrcRef>, s: seq<int>, code: seq<Instr>, i: nat, m: nat)
    requires pc.tmp.Some? && AllHold(pc, vals, s, -1, NO_TMP, code) && OnlyCycles(s)
    requires i < |pc.copies| && s[i] >= 0 && CycleLength(s, i, m)
    ensures TempInv(pc, vals, s, i, i, m, code + [Copy(pc.tmp.value.Comp(0), vals[i])])
  {
    SaveKeeps(pc, vals, s, NO_TMP, pc.tmp.value.Comp(0), code, i);
    assert Pending(s, i, i) == s;
  }

  lemma {:induction false} TempStepKeeps(pc: ParCopy, vals: seq<SrcRef>, s: seq<int>, code: seq<Instr>, i: nat, p: nat,
                                         via: Option<Reg>, len: nat)
    requires SecondTmp(pc, via) && TempInv(pc, vals, s, i, p, len, code) && s[p] != i
    ensures 0 <= s[p] < |pc.copies| && len >= 2
    ensures TempInv(pc, vals, s[p := -1], i, s[p], len - 1, code + Move(pc.copies[p].0, vals[s[p]], via))
  {
    PendingStep(pc, vals, s, i, p, len);
    MoveKeeps(pc, vals, s, i, pc.tmp.value.Comp(0), code, p, via);
  }

  /** Gives node `p` of the cycle the value of the node it reads. */
  method TempStep(pc: ParCopy, g: CopyGraph, vals: seq<SrcRef>, code: seq<Instr>, i: nat, p: nat, via: Option<Reg>,
                  ghost len: nat)
    returns (code': seq<Instr>, j: nat)
    requires g.Valid() && |g.nodes| == |vals| && SecondTmp(pc, via)
    requires TempInv(pc, vals, g.S(), i, p, len, code) && g.S()[p] != i
    modifies g
    ensures g.Valid() && |g.nodes| == |vals|
    ensures len >= 2 && TempInv(pc, vals, g.S(), i, j, len - 1, code')
    ensures g.S() == old(g.S())[p := -1] && j == old(g.S())[p]
    ensures code' == code + NodeMove(vals, p, j, via)
  {
    TempStepKeeps(pc, vals, g.S(), code, i, p, via, len);
    j := g.nodes[p].src;
    code' := code + Move(pc.copies[p].0, vals[j], via);
    var _ := g.DelEdge(p, j);
  }

  lemma {:induction false} CutConfined(s0: seq<int>, s: seq<int>, i: int, c: set<int>, p: nat)
    requires Confined(s, s0, i, c) && p in c && p < |s| && 0 <= i < |s| && i in c
    ensures Confined(s[p := -1], s0, i, c)
  {
  }

  /** Closes the cycle with the value put aside. */
  method TempEnd(pc: ParCopy, g: CopyGraph, vals: seq<SrcRef>, code: seq<Instr>, i: nat, p: nat, ghost len: nat)
    returns (code': seq<Instr>)
    requires g.Valid() && |g.nodes| == |vals| && pc.tmp.Some?
    requires TempInv(pc, vals, g.S(), i, p, len, code) && g.S()[p] == i
    modifies g
    ensures g.Valid() && |g.nodes| == |vals|
    ensures AllHold(pc, vals, g.S(), -1, NO_TMP, code') && OnlyCycles(g.S())
    ensures len == 1 && g.S() == old(g.S())[p := -1] && g.S()[i] == -1
    ensures code' == code + [Copy(RegOf(vals, p), RegSrc(pc.tmp.value.Comp(0)))]
  {
    var t := pc.tmp.value.Comp(0);
    PendingEnd(pc, vals, g.S(), i, p, len);
    MoveKeeps(pc, vals, g.S(), i, t, code, p, None);
    code' := code + Move(pc.copies[p].0, RegSrc(t), None);
    var _ := g.DelEdge(p, i);
    ForgetSaved(pc, vals, g.S(), i, t, NO_TMP, code');
  }

  /** What the walk round the cycle keeps. */
  ghost predicate WalkInv(pc: ParCopy, vals: seq<SrcRef>, s0: seq<int>, s: seq<int>, i: nat, p: nat, len: nat,
                          via: Option<Reg>, c: set<int>, code0: seq<Instr>, code: seq<Instr>, m: nat) {
    && TempInv(pc, vals, s, i, p, len, code) && |s| == |vals| && len <= m && p == Follow(s0, i, m - len)
    && code == code0 + MoveCode(vals, s0, i, via, m - len)
    && Thinned(s, s0) && Confined(s, s0, i, c) && i in c && p in c
  }

  lemma {:induction false} WalkStart(pc: ParCopy, vals: seq<SrcRef>, s: seq<int>, i: nat, via: Option<Reg>, c: set<int>,
                                     code: seq<Instr>, m: nat)
    requires TempInv(pc, vals, s, i, i, m, code) && Closed(s, c) && i in c && |s| == |vals|
    ensures WalkInv(pc, vals, s, s, i, i, m, via, c, code, code, m)
  {
    assert code + [] == code;
    assert Follow(s, i, 0) == i;
  }

  lemma {:induction false} WalkStep(pc: ParCopy, vals: seq<SrcRef>, s0: seq<int>, s: seq<int>, i: nat, p: nat, len: nat,
                                    via: Option<Reg>, c: set<int>, code0: seq<Instr>, code: seq<Instr>, m: nat)
    requires WalkInv(pc, vals, s0, s, i, p, len, via, c, code0, code, m) && 0 <= s[p] && len >= 1
    ensures s[p] == Follow(s0, i, m - len + 1) && s[p] in c && Confined(s[p := -1], s0, i, c)
    ensures code + NodeMove(vals, p, s[p], via) == code0 + MoveCode(vals, s0, i, via, m - len + 1)
  {
    CutConfined(s0, s, i, c, p);
  }

  /** Walks the cycle of `i` until the node that reads `i`. */
  method TempWalk(pc: ParCopy, g: CopyGraph, vals: seq<SrcRef>, code: seq<Instr>, i: nat, via: Option<Reg>,
                  ghost m: nat, ghost c: set<int>)
    returns (code': seq<Instr>, p: nat, ghost len: nat)
    requires g.Valid() && |g.nodes| == |vals| && SecondTmp(pc, via) && Closed(g.S(), c) && i in c
    requires TempInv(pc, vals, g.S(), i, i, m, code)
    modifies g
    ensures g.Valid() && |g.nodes| == |vals|
    ensures WalkInv(pc, vals, old(g.S()), g.S(), i, p, len, via, c, code, code', m) && g.S()[p] == i
  {
    ghost var s := g.S();
    code', p, len := code, i, m;
    WalkStart(pc, vals, s, i, via, c, code, m);
    while g.nodes[p].src != i
      invariant p < |g.nodes| == |vals| && g.Valid()
      invariant WalkInv(pc, vals, s, g.S(), i, p, len, via, c, code, code', m)
      decreases len
    {
      WalkStep(pc, vals, s, g.S(), i, p, len, via, c, code, code', m);
      code', p := TempStep(pc, g, vals, code', i, p, via, len);
      len := len - 1;
    }
  }

  /** Resolves the cycle of `i`, of length m, through the temporary: m + 1 copies, or
      2m when every copy itself goes through the second temporary. */
  method BreakByTemp(pc: ParCopy, g: CopyGraph, vals: seq<SrcRef>, code: seq<Instr>, i: nat, via: Option<Reg>,
                     ghost m: nat, ghost c: set<int>)
    returns (code': seq<Instr>)
    requires g.Valid() && |g.nodes| == |vals| && SecondTmp(pc, via) && Closed(g.S(), c) && i in c
    requires AllHold(pc, vals, g.S(), -1, NO_TMP, code) && OnlyCycles(g.S())
    requires i < |pc.copies| && g.S()[i] >= 0 && CycleLength(g.S(), i, m)
    modifies g
    ensures g.Valid() && |g.nodes| == |vals|
    ensures AllHold(pc, vals, g.S(), -1, NO_TMP, code') && OnlyCycles(g.S())
    ensures g.S()[i] == -1 && Confined(g.S(), old(g.S()), i, c)
    ensures code' == code + TempCode(vals, old(g.S()), i, pc.tmp.value.Comp(0), via, m)
    ensures |code'| == |code| + if via.None? then m + 1 else 2 * m
  {
    ghost var s := g.S();
    var t := pc.tmp.value.Comp(0);
    TempStart(pc, vals, s, code, i, m);
    var p;
    ghost var len;
    code', p, len := TempWalk(pc, g, vals, code + [Copy(t, vals[i])], i, via, m, c);
    CutConfined(s, g.S(), i, c, p);
    code' := TempEnd(pc, g, vals, code', i, p, len);
    TempCodeLong(pc, vals, s, i, t, via, m);
    assert code' == code + TempCode(vals, s, i, t, via, m);
  }

  lemma {:induction false} MoveCodeLong(pc: ParCopy, vals: seq<SrcRef>, s: seq<int>, i: int, via: Option<Reg>, n: nat)
    requires GraphOk(pc, vals, s) && OnlyCycles(s) && 0 <= i < |s| && s[i] >= 0
    ensures |MoveCode(vals, s, i, via, n)| == if via.None? then n else 2 * n
  {
    if n > 0 {
      MoveCodeLong(pc, vals, s, i, via, n - 1);
      FollowStays(s, i, n);
    }
  }

  lemma {:induction false} TempCodeLong(pc: ParCopy, vals: seq<SrcRef>, s: seq<int>, i: int, t: Reg, via: Option<Reg>,
                                        m: nat)
    requires GraphOk(pc, vals, s) && OnlyCycles(s) && 0 <= i < |s| && s[i] >= 0 && m >= 1
    ensures |TempCode(vals, s, i, t, via, m)| == if via.None? then m + 1 else 2 * m
  {
    MoveCodeLong(pc, vals, s, i, via, m - 1);
  }

  /** Following sources round a cycle never ends. */
  lemma {:induction false} FollowStays(s: seq<int>, i: int, n: nat)
    requires OnlyCycles(s) && 0 <= i < |s| && s[i] >= 0
    ensures 0 <= Follow(s, i, n) < |s| && s[Follow(s, i, n)] >= 0
  {
    if n > 0 { FollowStays(s, i, n - 1); }
  }

  // ---- which cycles give code that later lowering accepts ----

  /** The nodes of a cycle are the first `m` on the way round. */
  lemma {:induction false} OneRound(s: seq<int>, i: int, m: nat, n: nat) returns (k: nat)
    requires CycleLength(s, i, m)
    ensures k < m && Follow(s, i, k) == Follow(s, i, n)
    decreases n
  {
    if n < m {
      k := n;
    } else {
      FollowAdd(s, i, m, n - m);
      k := OneRound(s, i, m, n - m);
    }
  }

  /** The node `k` steps on is in the file. */
  ghost predicate FileAt(vals: seq<SrcRef>, s: seq<int>, i: int, file: RegFile, k: nat) {
    RegOf(vals, Follow(s, i, k)).file == file
  }

  /** Swaps pass up to a node if all nodes before it are in its file. */
  lemma {:induction false} SwapCodeFits(k: Rule, vals: seq<SrcRef>, s: seq<int>, i: int, n: nat, file: RegFile)
    requires file != Mem && FileAt(vals, s, i, file, n + 1)
    ensures AllFit(k, SwapCode(vals, s, i, n)) <==> forall j: nat :: 1 <= j <= n ==> FileAt(vals, s, i, file, j)
  {
    if n > 0 {
      var x, y := RegOf(vals, Follow(s, i, n)), RegOf(vals, Follow(s, i, n + 1));
      FitConcat(k, SwapCode(vals, s, i, n - 1), [Swap(x, y)]);
      assert AllFit(k, [Swap(x, y)]) <==> Fits(k, [Swap(x, y)][0]);
      if FileAt(vals, s, i, file, n) {
        SwapCodeFits(k, vals, s, i, n - 1, file);
      }
    }
  }

  /** The copies of step `j` round the cycle pass. */
  ghost predicate NodeFits(k: Rule, vals: seq<SrcRef>, s: seq<int>, i: int, via: Option<Reg>, j: nat) {
    var a, b := RegOf(vals, Follow(s, i, j)), Follow(s, i, j + 1);
    0 <= b < |vals| &&
      if via.None? then Passes(k, a, vals[b]) else Passes(k, via.value, vals[b]) && Passes(k, a, RegSrc(via.value))
  }

  lemma {:induction false} NodeMoveFits(k: Rule, vals: seq<SrcRef>, a: int, b: int, via: Option<Reg>)
    requires 0 <= b < |vals|
    ensures AllFit(k, NodeMove(vals, a, b, via)) <==>
      if via.None? then Passes(k, RegOf(vals, a), vals[b])
      else Passes(k, via.value, vals[b]) && Passes(k, RegOf(vals, a), RegSrc(via.value))
  {
    var code := NodeMove(vals, a, b, via);
    assert AllFit(k, code) ==> Fits(k, code[0]) && Fits(k, code[|code| - 1]);
  }

  lemma {:induction false} MoveCodeFits(k: Rule, pc: ParCopy, vals: seq<SrcRef>, s: seq<int>, i: int, via: Option<Reg>,
                                        n: nat)
    requires GraphOk(pc, vals, s) && OnlyCycles(s) && 0 <= i < |pc.copies| && s[i] >= 0
    ensures AllFit(k, MoveCode(vals, s, i, via, n)) <==> forall j: nat :: j < n ==> NodeFits(k, vals, s, i, via, j)
  {
    if n > 0 {
      FollowStays(s, i, n);
      var a, b := Follow(s, i, n - 1), Follow(s, i, n);
      var last := NodeMove(vals, a, b, via);
      FitConcat(k, MoveCode(vals, s, i, via, n - 1), last);
      MoveCodeFits(k, pc, vals, s, i, via, n - 1);
      NodeMoveFits(k, vals, a, b, via);
      assert NodeFits(k, vals, s, i, via, n - 1) <==> AllFit(k, last);
    }
  }

  /** Nodes below `i` are served and the rest of the graph is cycles. */
  ghost predicate CycleInv(pc: ParCopy, vals: seq<SrcRef>, s: seq<int>, i: nat, code: seq<Instr>) {
    && |code| == pc.MovesCost(|pc.copies|) + pc.CyclesCost(i)
    && AllHold(pc, vals, s, -1, NO_TMP, code)
    && OnlyCycles(s)
    && (forall a :: 0 <= a < i && a < |s| ==> s[a] == -1)
    && (forall k: Rule :: AllFit(k, code) <==> FitBefore(pc, k, i))
  }

  ghost predicate FitBefore(pc: ParCopy, k: Rule, i: nat) {
    pc.MovesFit(k) && forall a: nat :: a < i && a < |pc.copies| && LeadsCycle(pc.DstSources(), a) ==> pc.CycleFits(k, a)
  }

  /** The edge of node `a` to `b` is the move on a cycle. */
  ghost predicate LeftEdge(pc: ParCopy, b: int, a: int) {
    0 <= a < |pc.copies| && b == pc.DstSources()[a] && OnCycle(pc.DstSources(), a)
  }

  /** The edges left are cycles of moves, of those still to come none is missing, and those done
      did not lack a temporary. */
  ghost predicate CyclesLeft(pc: ParCopy, s: seq<int>, i: nat) {
    && |pc.copies| <= |s|
    && (forall a :: 0 <= a < |pc.copies| && s[a] >= 0 ==> LeftEdge(pc, s[a], a))
    && (forall a :: i <= a < |pc.copies| && LeadsCycle(pc.DstSources(), a) ==> s[a] >= 0)
    && (forall a: nat :: a < i ==> !pc.CycleStuck(a))
  }

  lemma {:induction false} LeftStep(pc: ParCopy, vals: seq<SrcRef>, s: seq<int>, k: nat, a: int)
    requires GraphOk(pc, vals, s) && OnlyCycles(s) && CyclesLeft(pc, s, k) && 0 <= a < |pc.copies| && s[a] >= 0
    ensures pc.DstSources()[a] == s[a] < |pc.copies| && s[s[a]] >= 0
  {
    assert LeftEdge(pc, s[a], a);
    assert s[s[a]] >= 0;
  }

  lemma {:induction false} FollowsLeft(pc: ParCopy, vals: seq<SrcRef>, s: seq<int>, k: nat, i: int, n: nat)
    requires GraphOk(pc, vals, s) && OnlyCycles(s) && CyclesLeft(pc, s, k) && 0 <= i < |s| && s[i] >= 0
    ensures Follow(pc.DstSources(), i, n) == Follow(s, i, n)
    ensures 0 <= Follow(s, i, n) < |pc.copies| && s[Follow(s, i, n)] >= 0
  {
    forall a | 0 <= a < |s| && s[a] >= 0 ensures NextSame(s, pc.DstSources(), a) {
      LeftStep(pc, vals, s, k, a);
    }
    FollowsSame(s, pc.DstSources(), i, n);
  }

  /** The first destination that still has an edge leads its cycle. */
  lemma {:induction false} FirstLeads(pc: ParCopy, vals: seq<SrcRef>, s: seq<int>, i: nat)
    requires GraphOk(pc, vals, s) && OnlyCycles(s) && CyclesLeft(pc, s, i) && i < |pc.copies| && s[i] >= 0
    requires forall a :: 0 <= a < i && a < |s| ==> s[a] == -1
    ensures LeadsCycle(pc.DstSources(), i)
  {
    forall n: nat ensures Follow(pc.DstSources(), i, n) >= i {
      FollowsLeft(pc, vals, s, i, i, n);
    }
  }

  /** Taking away the cycle of `i` takes away no other. */
  lemma {:induction false} CycleDone(pc: ParCopy, vals: seq<SrcRef>, s: seq<int>, i: nat, s': seq<int>)
    requires GraphOk(pc, vals, s) && OnlyCycles(s) && CyclesLeft(pc, s, i) && i < |pc.copies| && s[i] >= 0
    requires Confined(s', s, i, Orbit(s, i)) && s'[i] == -1 && !pc.CycleStuck(i)
    ensures CyclesLeft(pc, s', i + 1)
  {
    forall a | i + 1 <= a < |pc.copies| && LeadsCycle(pc.DstSources(), a) ensures s'[a] >= 0 {
      if a in Orbit(s, i) {
        var n: nat :| Follow(s, i, n) == a;
        FollowsLeft(pc, vals, s, i, i, n);
        LeaderIsLeast(pc.DstSources(), i, n);
      }
    }
  }

  lemma {:induction false} ReadyLeavesCycles(pc: ParCopy, vals: seq<SrcRef>, s: seq<int>)
    requires GraphOk(pc, vals, s) && OnlyCycles(s) && FromCopies(pc, vals, s) && CyclesKept(pc, s)
    ensures CyclesLeft(pc, s, 0)
  {
    forall a | 0 <= a < |pc.copies| && s[a] >= 0 ensures LeftEdge(pc, s[a], a) {
      EdgeIsDstSource(pc, vals, s, a);
      EveryEdgeIsOnACycle(s, a);
      var m: nat :| CycleLength(s, a, m);
      forall n: nat { FollowsCopies(pc, vals, s, a, n); }
      assert CycleLength(pc.DstSources(), a, m);
    }
  }

  /** Going round in both graphs, and through the registers, is the same. */
  ghost predicate Walks(pc: ParCopy, vals: seq<SrcRef>, s: seq<int>, i: nat, n: nat) {
    var a := Follow(s, i, n);
    && 0 <= a < |pc.copies| && a == Follow(pc.DstSources(), i, n) && RegOf(vals, a) == pc.copies[a].0
    && pc.DstSources()[a] == Follow(s, i, n + 1) && 0 <= Follow(s, i, n + 1) < |vals|
    && vals[Follow(s, i, n + 1)] == pc.copies[a].1
  }

  /** On a cycle still to come, node `n` steps on is a destination, and takes the next one's value. */
  lemma {:induction false} CycleNode(pc: ParCopy, vals: seq<SrcRef>, s: seq<int>, i: nat, n: nat)
    requires GraphOk(pc, vals, s) && OnlyCycles(s) && CyclesLeft(pc, s, i) && i < |s| && s[i] >= 0
    ensures Walks(pc, vals, s, i, n)
  {
    FollowsLeft(pc, vals, s, i, i, n);
    FollowsLeft(pc, vals, s, i, i, n + 1);
    var a := Follow(s, i, n);
    assert vals[a] == RegSrc(pc.copies[a].0);
    assert LeftEdge(pc, s[a], a);
    OnCycleHasSource(pc, a);
  }

  /** Swaps pass if the cycle stays in one file. */
  lemma {:induction false} SwapCycleFits(k: Rule, pc: ParCopy, vals: seq<SrcRef>, s: seq<int>, i: nat, m: nat)
    requires (forall n: nat :: Walks(pc, vals, s, i, n)) && i < |pc.copies|
    requires CycleLength(s, i, m) && CycleUseSwap(pc, pc.copies[i].0.file) == Ok(true)
    ensures AllFit(k, SwapCode(vals, s, i, m - 1)) <==> pc.CycleFits(k, i)
  {
    var file := pc.copies[i].0.file;
    assert Walks(pc, vals, s, i, 0) && Follow(s, i, 0) == i;
    SwapCodeFits(k, vals, s, i, m - 1, file);
    if AllFit(k, SwapCode(vals, s, i, m - 1)) {
      forall n: nat ensures pc.FileFits(file, Follow(pc.DstSources(), i, n)) {
        var j := OneRound(s, i, m, n);
        assert Walks(pc, vals, s, i, n) && Walks(pc, vals, s, i, j);
        assert j >= 1 ==> FileAt(vals, s, i, file, j);
      }
    }
    if pc.CycleFits(k, i) {
      forall j: nat | 1 <= j <= m - 1 ensures FileAt(vals, s, i, file, j) {
        assert Walks(pc, vals, s, i, j);
        assert pc.FileFits(file, Follow(pc.DstSources(), i, j));
      }
    }
  }

  /** The first `m` nodes are all of the cycle. */
  ghost predicate RoundFits(k: Rule, pc: ParCopy, s: seq<int>, i: nat, m: nat, tmp: bool)
    requires tmp ==> pc.tmp.Some?
  {
    forall j: nat :: j < m ==> if tmp then pc.FromTmpFits(k, Follow(s, i, j)) else pc.StepFits(k, Follow(s, i, j))
  }

  lemma {:induction false} RoundIsCycle(k: Rule, pc: ParCopy, vals: seq<SrcRef>, s: seq<int>, i: nat, m: nat)
    requires (forall n: nat :: Walks(pc, vals, s, i, n)) && i < |pc.copies| && pc.tmp.Some?
    requires CycleLength(s, i, m) && pc.copies[i].0.file in {GPR, Bar, Mem}
    ensures RoundFits(k, pc, s, i, m, pc.copies[i].0.file != GPR) <==> pc.CycleFits(k, i)
  {
    var tmp := pc.copies[i].0.file != GPR;
    if RoundFits(k, pc, s, i, m, tmp) {
      forall n: nat
        ensures var a := Follow(pc.DstSources(), i, n); if tmp then pc.FromTmpFits(k, a) else pc.StepFits(k, a)
      {
        var j := OneRound(s, i, m, n);
        assert Walks(pc, vals, s, i, n) && Walks(pc, vals, s, i, j);
      }
    }
    if pc.CycleFits(k, i) {
      forall j: nat | j < m
        ensures var a := Follow(s, i, j); if tmp then pc.FromTmpFits(k, a) else pc.StepFits(k, a)
      {
        assert Walks(pc, vals, s, i, j);
      }
    }
  }

  /** The last copy, from the temporary, passes if the move it does would: both sources are in the
      file of `i`. */
  lemma {:induction false} LastFits(k: Rule, pc: ParCopy, vals: seq<SrcRef>, s: seq<int>, i: nat, m: nat)
    requires m >= 1 && Walks(pc, vals, s, i, m - 1) && Follow(s, i, m) == i < |pc.copies| && pc.WellFormed()
    requires pc.tmp.Some? && pc.copies[i].0.file == GPR && vals[i] == RegSrc(pc.copies[i].0)
    ensures pc.StepFits(k, Follow(s, i, m - 1)) <==> pc.FromTmpFits(k, Follow(s, i, m - 1))
  {
    FilesDecide(k, pc.copies[Follow(s, i, m - 1)].0, pc.copies[i].0, pc.tmp.value.Comp(0));
  }

  lemma {:induction false} DirectFits(k: Rule, pc: ParCopy, vals: seq<SrcRef>, s: seq<int>, i: nat, m: nat)
    requires (forall n: nat :: Walks(pc, vals, s, i, n)) && m >= 1 && Follow(s, i, m) == i < |pc.copies|
    requires pc.WellFormed() && pc.tmp.Some? && pc.copies[i].0.file == GPR && i < |vals|
    requires vals[i] == RegSrc(pc.copies[i].0)
    ensures RoundFits(k, pc, s, i, m, false) <==>
      (forall j: nat :: j < m - 1 ==> NodeFits(k, vals, s, i, None, j)) && pc.FromTmpFits(k, Follow(s, i, m - 1))
  {
    LastFits(k, pc, vals, s, i, m);
    forall j: nat | j < m - 1 ensures NodeFits(k, vals, s, i, None, j) <==> pc.StepFits(k, Follow(s, i, j)) {
      assert Walks(pc, vals, s, i, j);
    }
  }

  lemma {:induction false} IndirectFits(k: Rule, pc: ParCopy, vals: seq<SrcRef>, s: seq<int>, i: nat, via: Reg, m: nat)
    requires (forall n: nat :: Walks(pc, vals, s, i, n)) && m >= 1 && pc.WellFormed() && pc.tmp.Some?
    requires via.file == GPR
    ensures RoundFits(k, pc, s, i, m, true) <==>
      (forall j: nat :: j < m - 1 ==> NodeFits(k, vals, s, i, Some(via), j)) && pc.FromTmpFits(k, Follow(s, i, m - 1))
  {
    if RoundFits(k, pc, s, i, m, true) {
      forall j: nat | j < m - 1 ensures NodeFits(k, vals, s, i, Some(via), j) {
        assert Walks(pc, vals, s, i, j) && Walks(pc, vals, s, i, j + 1);
        IndirectNode(k, pc, vals, s, i, via, j);
      }
    }
    if forall j: nat :: j < m - 1 ==> NodeFits(k, vals, s, i, Some(via), j) {
      forall j: nat | j < m - 1 ensures pc.FromTmpFits(k, Follow(s, i, j)) {
        assert NodeFits(k, vals, s, i, Some(via), j) && Walks(pc, vals, s, i, j);
        FilesDecide(k, RegOf(vals, Follow(s, i, j)), via, pc.tmp.value.Comp(0));
      }
    }
  }

  lemma {:induction false} IndirectNode(k: Rule, pc: ParCopy, vals: seq<SrcRef>, s: seq<int>, i: nat, via: Reg, j: nat)
    requires Walks(pc, vals, s, i, j) && Walks(pc, vals, s, i, j + 1) && pc.WellFormed() && pc.tmp.Some?
    requires via.file == GPR && pc.FromTmpFits(k, Follow(s, i, j)) && pc.FromTmpFits(k, Follow(s, i, j + 1))
    ensures NodeFits(k, vals, s, i, Some(via), j)
  {
    var a, b := RegOf(vals, Follow(s, i, j)), RegOf(vals, Follow(s, i, j + 1));
    FilesDecide(k, a, via, pc.tmp.value.Comp(0));
    FilesDecide(k, b, via, pc.tmp.value.Comp(0));
    ThroughGpr(k, via, b);
  }

  lemma {:induction false} TempCycleFits(k: Rule, pc: ParCopy, vals: seq<SrcRef>, s: seq<int>, i: nat, via: Option<Reg>,
                                         m: nat)
    requires GraphOk(pc, vals, s) && OnlyCycles(s) && i < |pc.copies| && s[i] >= 0
    requires forall n: nat :: Walks(pc, vals, s, i, n)
    requires CycleLength(s, i, m) && SecondTmp(pc, via) && CycleUseSwap(pc, pc.copies[i].0.file) == Ok(false)
    requires via.None? <==> pc.copies[i].0.file == GPR
    ensures AllFit(k, TempCode(vals, s, i, pc.tmp.value.Comp(0), via, m)) <==> pc.CycleFits(k, i)
  {
    TempEndsFit(k, pc, vals, s, i, via, m);
    MoveCodeFits(k, pc, vals, s, i, via, m - 1);
    RoundIsCycle(k, pc, vals, s, i, m);
    if via.None? {
      DirectFits(k, pc, vals, s, i, m);
    } else {
      IndirectFits(k, pc, vals, s, i, via.value, m);
    }
  }

  /** The copy to the temporary passes. */
  lemma {:induction false} TempEndsFit(k: Rule, pc: ParCopy, vals: seq<SrcRef>, s: seq<int>, i: nat, via: Option<Reg>,
                                       m: nat)
    requires pc.WellFormed() && pc.tmp.Some? && m >= 1 && Walks(pc, vals, s, i, 0) && Walks(pc, vals, s, i, m - 1)
    requires i < |pc.copies| && pc.copies[i].0.file in {GPR, Bar, Mem}
    ensures AllFit(k, TempCode(vals, s, i, pc.tmp.value.Comp(0), via, m)) <==>
      AllFit(k, MoveCode(vals, s, i, via, m - 1)) && pc.FromTmpFits(k, Follow(s, i, m - 1))
  {
    var t := pc.tmp.value.Comp(0);
    var first, last := [Copy(t, RegSrc(RegOf(vals, i)))], [Copy(RegOf(vals, Follow(s, i, m - 1)), RegSrc(t))];
    assert Follow(s, i, 0) == i;
    ThroughGpr(k, t, RegOf(vals, i));
    FitConcat(k, first, MoveCode(vals, s, i, via, m - 1));
    FitConcat(k, first + MoveCode(vals, s, i, via, m - 1), last);
    assert AllFit(k, last) <==> Fits(k, last[0]);
  }

  /** Once only cycles are left, the moves done are the plain ones. */
  lemma {:induction false} ReadyFits(pc: ParCopy, s: seq<int>, code: seq<Instr>)
    requires FitSoFar(pc, s, code) && CyclesLeft(pc, s, 0)
    ensures forall k: Rule :: AllFit(k, code) <==> FitBefore(pc, k, 0)
    ensures |code| == pc.MovesCost(|pc.copies|)
  {
    forall a: nat | a < |pc.copies| && s[a] >= 0 ensures !pc.Plain(a) {
      assert LeftEdge(pc, s[a], a);
    }
    DoneCostAll(pc, s, |pc.copies|);
  }

  /** The cycle is as long as that of the moves. */
  lemma {:induction false} LengthLeft(pc: ParCopy, vals: seq<SrcRef>, s: seq<int>, i: nat, m: nat)
    requires GraphOk(pc, vals, s) && OnlyCycles(s) && CyclesLeft(pc, s, i) && i < |pc.copies| && s[i] >= 0
    requires CycleLength(s, i, m) && LeadsCycle(pc.DstSources(), i)
    ensures pc.copies[i].0.file in {Bar, Mem} ==> pc.CycleCost(i) == 2 * m
    ensures pc.copies[i].0.file == GPR ==> pc.CycleCost(i) == if pc.tmp.Some? then m + 1 else m - 1
    ensures pc.copies[i].0.file !in {Bar, Mem, GPR} ==> pc.CycleCost(i) == m - 1
  {
    forall n: nat { FollowsLeft(pc, vals, s, i, i, n); }
    var d := pc.DstSources();
    assert CycleLength(d, i, m);
    forall n: nat | CycleLength(d, i, n) ensures n == m {
      CycleLengthUnique(d, i, m, n);
    }
  }

  /** Resolves the cycle through destination `i`. */
  method BreakCycle(pc: ParCopy, g: CopyGraph, vals: seq<SrcRef>, code: seq<Instr>, i: nat)
    returns (r: Result<seq<Instr>>)
    requires g.Valid() && |g.nodes| == |vals|
    requires CycleInv(pc, vals, g.S(), i, code) && CyclesLeft(pc, g.S(), i)
    requires i < |pc.copies| && g.S()[i] >= 0 && LeadsCycle(pc.DstSources(), i)
    modifies g
    ensures g.Valid() && |g.nodes| == |vals|
    ensures r.Ok? ==> |r.value| == |code| + pc.CycleCost(i)
    ensures r.Ok? ==> AllHold(pc, vals, g.S(), -1, NO_TMP, r.value) && OnlyCycles(g.S())
    ensures r.Ok? ==> forall k: Rule :: AllFit(k, r.value) <==> AllFit(k, code) && pc.CycleFits(k, i)
    ensures r.Ok? ==> Confined(g.S(), old(g.S()), i, Orbit(old(g.S()), i)) && g.S()[i] == -1
    ensures r.Err? <==> (pc.copies[i].0.file == Bar || pc.copies[i].0.file == Mem) && pc.TmpTooSmall()
  {
    ghost var s := g.S();
    EveryEdgeIsOnACycle(s, i);
    OrbitClosed(s, i);
    ghost var m: nat :| CycleLength(s, i, m);
    LengthLeft(pc, vals, s, i, m);
    var file := pc.copies[i].0.file;
    var useSwap := CycleUseSwap(pc, file);
    if useSwap.Err? {
      return Err;
    }
    var code';
    if useSwap.value {
      SwapsStart(pc, vals, s, i, m, Orbit(s, i), code);
      code' := BreakBySwaps(pc, g, vals, code, i, m, Orbit(s, i));
      forall n: nat ensures Walks(pc, vals, s, i, n) { CycleNode(pc, vals, s, i, n); }
      forall k: Rule ensures AllFit(k, code') <==> AllFit(k, code) && pc.CycleFits(k, i) {
        SwapCycleFits(k, pc, vals, s, i, m);
        FitConcat(k, code, SwapCode(vals, s, i, m - 1));
      }
    } else {
      var via := if file == Bar || file == Mem then Some(pc.tmp.value.Comp(1)) else None;
      code' := BreakByTemp(pc, g, vals, code, i, via, m, Orbit(s, i));
      forall n: nat ensures Walks(pc, vals, s, i, n) { CycleNode(pc, vals, s, i, n); }
      forall k: Rule ensures AllFit(k, code') <==> AllFit(k, code) && pc.CycleFits(k, i) {
        TempCycleFits(k, pc, vals, s, i, via, m);
        FitConcat(k, code, TempCode(vals, s, i, pc.tmp.value.Comp(0), via, m));
      }
    }
    return Ok(code');
  }

  /** Serves destination `i` if it still waits. */
  method CycleTurn(pc: ParCopy, g: CopyGraph, vals: seq<SrcRef>, code: seq<Instr>, i: nat)
    returns (r: Result<seq<Instr>>)
    requires g.Valid() && |g.nodes| == |vals| && i < |pc.copies|
    requires CycleInv(pc, vals, g.S(), i, code) && CyclesLeft(pc, g.S(), i)
    modifies g
    ensures g.Valid() && |g.nodes| == |vals|
    ensures if r.Ok? then CycleInv(pc, vals, g.S(), i + 1, r.value) && CyclesLeft(pc, g.S(), i + 1) else pc.Stuck()
  {
    if g.nodes[i].src < 0 {
      NotLeading(pc, vals, g.S(), i, code);
      return Ok(code);
    }
    ghost var s := g.S();
    FirstLeads(pc, vals, s, i);
    r := BreakCycle(pc, g, vals, code, i);
    if r.Err? {
      assert pc.CycleStuck(i);
    } else {
      CycleDone(pc, vals, s, i, g.S());
      FitNext(pc, i);
    }
  }

  lemma {:induction false} FitNext(pc: ParCopy, i: nat)
    requires i < |pc.copies|
    ensures forall k: Rule :: FitBefore(pc, k, i + 1) <==>
      FitBefore(pc, k, i) && (LeadsCycle(pc.DstSources(), i) ==> pc.CycleFits(k, i))
  {
  }

  lemma {:induction false} NotLeading(pc: ParCopy, vals: seq<SrcRef>, s: seq<int>, i: nat, code: seq<Instr>)
    requires i < |pc.copies| && CycleInv(pc, vals, s, i, code) && CyclesLeft(pc, s, i) && s[i] < 0
    ensures CycleInv(pc, vals, s, i + 1, code) && CyclesLeft(pc, s, i + 1)
  {
    PassedLeft(pc, s, i);
    FitNext(pc, i);
  }

  lemma {:induction false} PassedLeft(pc: ParCopy, s: seq<int>, i: nat)
    requires i < |pc.copies| && CyclesLeft(pc, s, i) && s[i] < 0
    ensures CyclesLeft(pc, s, i + 1) && !LeadsCycle(pc.DstSources(), i)
  {
  }

  method CyclePhase(pc: ParCopy, g: CopyGraph, vals: seq<SrcRef>, code: seq<Instr>) returns (r: Result<seq<Instr>>)
    requires g.Valid() && |g.nodes| == |vals|
    requires CycleInv(pc, vals, g.S(), 0, code) && CyclesLeft(pc, g.S(), 0)
    modifies g
    ensures g.Valid() && |g.nodes| == |vals|
    ensures r.Ok? ==> CycleInv(pc, vals, g.S(), |pc.copies|, r.value) && CyclesLeft(pc, g.S(), |pc.copies|)
    ensures r.Err? ==> pc.Stuck()
  {
    r := Ok(code);
    for i := 0 to |pc.copies|
      invariant g.Valid() && |g.nodes| == |vals| && r.Ok?
      invariant CycleInv(pc, vals, g.S(), i, r.value) && CyclesLeft(pc, g.S(), i)
    {
      r := CycleTurn(pc, g, vals, r.value, i);
      if r.Err? {
        return;
      }
    }
  }

  lemma {:induction false} NoEdgesLeft(pc: ParCopy, vals: seq<SrcRef>, s: seq<int>, code: seq<Instr>)
    requires CycleInv(pc, vals, s, |pc.copies|, code)
    ensures pc.Realizes(code)
  {
    forall m: Machine ensures pc.Moved(m, m.Run(code)) {
      assert Holds(pc, vals, s, -1, NO_TMP, m, m.Run(code));
    }
  }

  lemma {:induction false} NotStuck(pc: ParCopy, s: seq<int>, s': seq<int>)
    requires DoneFree(pc, s) && CyclesLeft(pc, s, 0) && CyclesLeft(pc, s', |pc.copies|)
    ensures !pc.Stuck()
  {
    forall i: nat ensures !pc.MoveStuck(i) && !pc.CycleStuck(i) {
      if i < |pc.copies| && s[i] >= 0 { assert LeftEdge(pc, s[i], i); }
    }
  }

  lemma {:induction false} SingleFileStep(pc: ParCopy, a: int)
    requires pc.SingleFileCycles() && 0 <= a < |pc.copies| && OnCycle(pc.DstSources(), a)
    ensures var b := pc.DstSources()[a]; 0 <= b < |pc.copies| && pc.copies[b].0.file == pc.copies[a].0.file
  {
    OnCycleHasSource(pc, a);
  }

  ghost predicate SameFileNext(pc: ParCopy, d: seq<int>, a: int) {
    0 <= a < |pc.copies| && a < |d| && 0 <= d[a] < |pc.copies| && pc.copies[d[a]].0.file == pc.copies[a].0.file
  }

  lemma {:induction false} SingleFileNode(pc: ParCopy, d: seq<int>, i: nat, n: nat)
    requires |d| == |pc.copies| && i < |pc.copies| && OnCycle(d, i)
    requires forall a :: 0 <= a < |d| && OnCycle(d, a) ==> SameFileNext(pc, d, a)
    ensures pc.FileFits(pc.copies[i].0.file, Follow(d, i, n))
  {
    if n > 0 {
      SingleFileNode(pc, d, i, n - 1);
      var _ := CycleBack(d, i, n - 1);
      assert SameFileNext(pc, d, Follow(d, i, n - 1));
    }
  }

  /** Cycles inside one file pass. */
  lemma {:induction false} SingleFileFits(k: Rule, pc: ParCopy)
    requires pc.WellFormed() && !pc.Stuck()
    ensures pc.SingleFileCycles() ==> (pc.Fit(k) <==> pc.MovesFit(k))
  {
    if pc.SingleFileCycles() {
      var d := pc.DstSources();
      forall a | 0 <= a < |d| && OnCycle(d, a) ensures SameFileNext(pc, d, a) {
        SingleFileStep(pc, a);
      }
      forall i: nat | i < |pc.copies| && LeadsCycle(d, i) ensures pc.CycleFits(k, i) {
        assert !pc.CycleStuck(i);
        SingleFileCycle(k, pc, d, i);
      }
    }
  }

  /** With no move stuck every plain move can be spared a copy that needs a temporary. */
  lemma {:induction false} MovesSpared(pc: ParCopy)
    requires pc.WellFormed() && !pc.Stuck()
    ensures pc.MovesFit(Spared)
  {
    forall i: nat | pc.Plain(i) ensures pc.MoveFits(Spared, i) {
      assert !pc.MoveStuck(i);
      assert CopyNeedsTmp(pc.copies[i].0, pc.copies[i].1) <==> pc.Detours(i);
    }
  }

  lemma {:induction false} AllFitBefore(pc: ParCopy)
    ensures forall k: Rule :: FitBefore(pc, k, |pc.copies|) <==> pc.Fit(k)
  {
  }

  /** Only moves into memory and barrier registers can lack a temporary. */
  lemma {:induction false} StuckIsMemOrBar(pc: ParCopy)
    ensures pc.Stuck() ==> pc.TmpTooSmall() && IntoMemOrBar(pc)
  {
    if i: nat :| pc.MoveStuck(i) || pc.CycleStuck(i) {
      assert pc.copies[i].0.file in {Mem, Bar};
    }
  }

  ghost predicate IntoMemOrBar(pc: ParCopy) {
    exists i :: 0 <= i < |pc.copies| && pc.copies[i].0.file in {Mem, Bar}
  }

  lemma {:induction false} SingleFileCycle(k: Rule, pc: ParCopy, d: seq<int>, i: nat)
    requires pc.WellFormed() && d == pc.DstSources() && i < |pc.copies| && OnCycle(d, i)
    requires pc.copies[i].0.file in {Bar, Mem} ==> pc.tmp.Some?
    requires forall a :: 0 <= a < |d| && OnCycle(d, a) ==> SameFileNext(pc, d, a)
    ensures pc.CycleFits(k, i)
  {
    var file := pc.copies[i].0.file;
    forall n: nat
      ensures pc.FileFits(file, Follow(pc.DstSources(), i, n))
      ensures file == GPR ==> pc.StepFits(k, Follow(pc.DstSources(), i, n))
      ensures file in {Bar, Mem} ==> pc.FromTmpFits(k, Follow(pc.DstSources(), i, n))
    {
      var a := Follow(d, i, n);
      SingleFileNode(pc, d, i, n);
      SingleFileNode(pc, d, i, n + 1);
      var _ := CycleBack(d, i, n);
      OnCycleHasSource(pc, a);
      if file == GPR { ThroughGpr(k, pc.copies[a].0, pc.copies[d[a]].0); }
      if file in {Bar, Mem} { ThroughGpr(k, pc.tmp.value.Comp(0), pc.copies[a].0); }
    }
  }

  /** The lowered code has the effect of the parallel copy on every machine state, and is exactly as
      long as its moves and cycles need. In it memory is written from general-purpose registers only,
      and no barrier register from another, exactly when the cycles allow that; and later lowering has
      an arm for every copy and takes every swap exactly when that holds of each move and cycle by
      itself. Cycles inside one register file are no obstacle. It fails exactly when a move outside the
      cycles, or the first move of a cycle, lacks the temporary it needs; then there is a move into
      memory or a barrier register. */
  method LowerParCopy(pc: ParCopy) returns (r: Result<seq<Instr>>)
    requires pc.WellFormed()
    ensures r.Ok? ==> pc.Realizes(r.value)
    ensures r.Ok? ==> |r.value| == pc.MovesCost(|pc.copies|) + pc.CyclesCost(|pc.copies|)
    ensures r.Ok? ==> (AllFit(Spared, r.value) <==> pc.Fit(Spared))
    ensures r.Ok? ==> (AllFit(Accepted, r.value) <==> pc.Fit(Accepted))
    ensures r.Ok? && pc.SingleFileCycles() ==>
      AllFit(Spared, r.value) && (AllFit(Accepted, r.value) <==> pc.MovesFit(Accepted))
    ensures r.Err? <==> pc.Stuck()
    ensures r.Err? ==> pc.TmpTooSmall() && IntoMemOrBar(pc)
  {
    var g, vals := BuildGraph(pc);
    StuckIsMemOrBar(pc);
    r := ReadyPhase(pc, g, vals);
    if r.Ok? {
      ghost var s := g.S();
      ReadyLeavesCycles(pc, vals, s);
      ReadyFits(pc, s, r.value);
      r := CyclePhase(pc, g, vals, r.value);
      if r.Ok? {
        NoEdgesLeft(pc, vals, g.S(), r.value);
        NotStuck(pc, s, g.S());
        AllFitBefore(pc);
        MovesSpared(pc);
        SingleFileFits(Spared, pc);
        SingleFileFits(Accepted, pc);
      }
    }
  }
}
