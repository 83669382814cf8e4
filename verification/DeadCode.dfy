/**
 Dead-code elimination: marks the values and phis that can matter and drops the
 instructions that define none of them.
 */
module DeadCode {
  import opened Basics

  type Ssa = nat
  type Phi = nat

  /** A source: which constant or modifier it is, and the values it reads. */
  datatype Src = Src(id: nat, ssas: seq<Ssa>)

  /** The values a destination defines. */
  type Dst = seq<Ssa>

  datatype Pred = Always | Never | On(x: Ssa)

  datatype Instr =
    | PhiSrcs(srcs: seq<(Phi, Src)>)
    | PhiDsts(dsts: seq<(Phi, Dst)>)
    | ParCopy(pairs: seq<(Dst, Src)>)
    | Op(op: nat, pred: Pred, ins: seq<Src>, outs: seq<Dst>, canEliminate: bool)

  type Function = seq<seq<Instr>>

  // ---- what is live ----

  /** The marked values and phis. */
  datatype Live = Live(ssa: set<Ssa>, phi: set<Phi>)

  ghost predicate Leq(a: Live, b: Live) {
    a.ssa <= b.ssa && a.phi <= b.phi
  }

  /** Some of the values are marked. */
  ghost predicate SomeIn(l: Live, d: Dst) {
    exists x :: x in d && x in l.ssa
  }

  predicate IsDstLive(l: Live, d: Dst): (r: bool)
    ensures r <==> SomeIn(l, d)
  {
    exists k :: 0 <= k < |d| && d[k] in l.ssa
  }

  /** The operation runs, and has an effect or a marked destination. */
  ghost predicate Matters(l: Live, i: Instr)
    requires i.Op?
  {
    i.pred != Never && (i.canEliminate ==> exists d :: d in i.outs && SomeIn(l, d))
  }

  predicate IsOpLive(l: Live, i: Instr): (r: bool)
    requires i.Op?
    ensures r <==> Matters(l, i)
  {
    i.pred != Never && (!i.canEliminate || exists k :: 0 <= k < |i.outs| && IsDstLive(l, i.outs[k]))
  }

  ghost predicate SrcIn(l: Live, s: Src) {
    forall k :: 0 <= k < |s.ssas| ==> s.ssas[k] in l.ssa
  }

  /** Everything a live part of the instruction needs is marked. */
  ghost predicate ClosedAt(l: Live, i: Instr) {
    match i
    case PhiSrcs(srcs) => forall k :: 0 <= k < |srcs| && srcs[k].0 in l.phi ==> SrcIn(l, srcs[k].1)
    case PhiDsts(dsts) => forall k :: 0 <= k < |dsts| && IsDstLive(l, dsts[k].1) ==> dsts[k].0 in l.phi
    case ParCopy(pairs) => forall k :: 0 <= k < |pairs| && IsDstLive(l, pairs[k].0) ==> SrcIn(l, pairs[k].1)
    case Op(_, pred, ins, _, _) =>
      IsOpLive(l, i) ==> (pred.On? ==> pred.x in l.ssa) && forall k :: 0 <= k < |ins| ==> SrcIn(l, ins[k])
  }

  ghost predicate Closed(l: Live, code: seq<Instr>) {
    forall i :: i in code ==> ClosedAt(l, i)
  }

  /** All instructions of a function. */
  ghost function Flat(f: Function): seq<Instr> {
    if f == [] then [] else f[0] + Flat(f[1..])
  }

  lemma {:induction false} FlatHas(f: Function, b: nat, i: Instr)
    requires b < |f| && i in f[b]
    ensures i in Flat(f)
  {
    if b > 0 {
      FlatHas(f[1..], b - 1, i);
    }
  }

  lemma {:induction false} FlatFrom(f: Function, i: Instr)
    requires i in Flat(f)
    ensures exists b :: 0 <= b < |f| && i in f[b]
  {
    if i !in f[0] {
      FlatFrom(f[1..], i);
      var b :| 0 <= b < |f[1..]| && i in f[1..][b];
      assert f[b + 1] == f[1..][b];
    }
  }

  /** Some part of the instruction is dead. */
  ghost predicate DeadPart(l: Live, i: Instr) {
    match i
    case PhiSrcs(srcs) => exists k :: 0 <= k < |srcs| && srcs[k].0 !in l.phi
    case PhiDsts(dsts) => exists k :: 0 <= k < |dsts| && !IsDstLive(l, dsts[k].1)
    case ParCopy(pairs) => exists k :: 0 <= k < |pairs| && !IsDstLive(l, pairs[k].0)
    case Op(_, _, _, _, _) => !IsOpLive(l, i)
  }

  lemma {:induction false} LiveGrows(a: Live, b: Live)
    requires Leq(a, b)
    ensures forall d: Dst :: IsDstLive(a, d) ==> IsDstLive(b, d)
    ensures forall i: Instr :: i.Op? && IsOpLive(a, i) ==> IsOpLive(b, i)
  {
  }

  // ---- the pass ----

  class DeadCodePass {
    var anyDead: bool
    var newLive: bool
    var live: Live

    constructor ()
      ensures live == Live({}, {})
    {
      anyDead, newLive, live := false, false, Live({}, {});
    }

    method MarkSsaLive(x: Ssa)
      modifies this
      ensures live == old(live).(ssa := old(live).ssa + {x}) && anyDead == old(anyDead)
      ensures newLive == (old(newLive) || x !in old(live).ssa)
    {
      newLive := newLive || x !in live.ssa;
      live := live.(ssa := live.ssa + {x});
    }

    method MarkPhiLive(p: Phi)
      modifies this
      ensures live == old(live).(phi := old(live).phi + {p}) && anyDead == old(anyDead)
      ensures newLive == (old(newLive) || p !in old(live).phi)
    {
      newLive := newLive || p !in live.phi;
      live := live.(phi := live.phi + {p});
    }

    method MarkSrcLive(s: Src)
      modifies this
      ensures Grown(old(live), old(newLive), live, newLive) && anyDead == old(anyDead) && SrcIn(live, s)
      ensures forall t :: Leq(old(live), t) && SrcIn(t, s) ==> Leq(live, t)
    {
      for k := 0 to |s.ssas|
        invariant Grown(old(live), old(newLive), live, newLive) && anyDead == old(anyDead)
        invariant forall j :: 0 <= j < k ==> s.ssas[j] in live.ssa
        invariant forall t :: Leq(old(live), t) && SrcIn(t, s) ==> Leq(live, t)
      {
        MarkSsaLive(s.ssas[k]);
      }
    }

    method MarkPhiSrcs(i: Instr)
      requires i.PhiSrcs?
      modifies this
      ensures Marked(old(live), old(newLive), old(anyDead), i, live, newLive, anyDead)
    {
      for k := 0 to |i.srcs|
        invariant Marked(old(live), old(newLive), old(anyDead), PhiSrcs(i.srcs[..k]), live, newLive, anyDead)
      {
        ghost var l, n, d := live, newLive, anyDead;
        var (p, s) := i.srcs[k];
        if p in live.phi {
          MarkSrcLive(s);
        } else {
          anyDead := true;
        }
        assert i.srcs[..k + 1] == i.srcs[..k] + [(p, s)];
        MarkedPhiSrc(old(live), old(newLive), old(anyDead), i.srcs[..k], p, s, l, n, d, live, newLive, anyDead);
      }
      assert i.srcs[..|i.srcs|] == i.srcs;
    }

    method MarkPhiDsts(i: Instr)
      requires i.PhiDsts?
      modifies this
      ensures Marked(old(live), old(newLive), old(anyDead), i, live, newLive, anyDead)
    {
      for k := 0 to |i.dsts|
        invariant Marked(old(live), old(newLive), old(anyDead), PhiDsts(i.dsts[..k]), live, newLive, anyDead)
      {
        ghost var l, n, d := live, newLive, anyDead;
        var (p, dst) := i.dsts[k];
        if IsDstLive(live, dst) {
          MarkPhiLive(p);
        } else {
          anyDead := true;
        }
        assert i.dsts[..k + 1] == i.dsts[..k] + [(p, dst)];
        MarkedPhiDst(old(live), old(newLive), old(anyDead), i.dsts[..k], p, dst, l, n, d, live, newLive, anyDead);
      }
      assert i.dsts[..|i.dsts|] == i.dsts;
    }

    method MarkParCopy(i: Instr)
      requires i.ParCopy?
      modifies this
      ensures Marked(old(live), old(newLive), old(anyDead), i, live, newLive, anyDead)
    {
      for k := 0 to |i.pairs|
        invariant Marked(old(live), old(newLive), old(anyDead), ParCopy(i.pairs[..k]), live, newLive, anyDead)
      {
        ghost var l, n, d := live, newLive, anyDead;
        var (dst, s) := i.pairs[k];
        if IsDstLive(live, dst) {
          MarkSrcLive(s);
        } else {
          anyDead := true;
        }
        assert i.pairs[..k + 1] == i.pairs[..k] + [(dst, s)];
        MarkedPair(old(live), old(newLive), old(anyDead), i.pairs[..k], dst, s, l, n, d, live, newLive, anyDead);
      }
      assert i.pairs[..|i.pairs|] == i.pairs;
    }

    method MarkOp(i: Instr)
      requires i.Op?
      modifies this
      ensures Marked(old(live), old(newLive), old(anyDead), i, live, newLive, anyDead)
    {
      if IsOpLive(live, i) {
        if i.pred.On? {
          MarkSsaLive(i.pred.x);
        }
        for k := 0 to |i.ins|
          invariant Grown(old(live), old(newLive), live, newLive) && anyDead == old(anyDead)
          invariant i.pred.On? ==> i.pred.x in live.ssa
          invariant forall j :: 0 <= j < k ==> SrcIn(live, i.ins[j])
          invariant forall t :: Needs(old(live), i, t) ==> Leq(live, t)
        {
          MarkSrcLive(i.ins[k]);
        }
        forall t | Leq(old(live), t) && ClosedAt(t, i) ensures Leq(live, t) {
          LiveGrows(old(live), t);
          assert Needs(old(live), i, t);
        }
      } else {
        anyDead := true;
      }
    }

    method MarkInstr(i: Instr)
      modifies this
      ensures Marked(old(live), old(newLive), old(anyDead), i, live, newLive, anyDead)
    {
      match i
      case PhiSrcs(_) => MarkPhiSrcs(i);
      case PhiDsts(_) => MarkPhiDsts(i);
      case ParCopy(_) => MarkParCopy(i);
      case Op(_, _, _, _, _) => MarkOp(i);
    }

    method MarkBlock(code: seq<Instr>)
      modifies this
      ensures MarkedAll(old(live), old(newLive), old(anyDead), code, live, newLive, anyDead)
    {
      for k := |code| downto 0
        invariant MarkedAll(old(live), old(newLive), old(anyDead), code[k..], live, newLive, anyDead)
      {
        ghost var l, n, d := live, newLive, anyDead;
        MarkInstr(code[k]);
        assert code[k..] == [code[k]] + code[k + 1..];
        MarkedConcat(old(live), old(newLive), old(anyDead), code[k + 1..], l, n, d, [code[k]], live, newLive, anyDead);
      }
    }

    /** One pass over the function, last instruction first. */
    method MarkFunction(f: Function)
      modifies this
      ensures MarkedAll(old(live), old(newLive), old(anyDead), Flat(f), live, newLive, anyDead)
    {
      for b := |f| downto 0
        invariant MarkedAll(old(live), old(newLive), old(anyDead), Flat(f[b..]), live, newLive, anyDead)
      {
        ghost var l, n, d := live, newLive, anyDead;
        MarkBlock(f[b]);
        assert f[b..][1..] == f[b + 1..] && f[b..][0] == f[b];
        MarkedConcat(old(live), old(newLive), old(anyDead), Flat(f[b + 1..]), l, n, d, f[b], live, newLive, anyDead);
      }
      assert f[0..] == f;
    }

    /** One pass from fresh flags; while it finds something new it comes closer to the end. */
    method Pass(f: Function)
      requires InLeast(live, Flat(f))
      modifies this
      ensures InLeast(live, Flat(f)) && Left(Flat(f), live) <= Left(Flat(f), old(live))
      ensures newLive ==> Left(Flat(f), live) < Left(Flat(f), old(live))
      ensures !newLive ==> Closed(live, Flat(f)) && (anyDead <==> SomeDead(live, Flat(f)))
    {
      newLive, anyDead := false, false;
      MarkFunction(f);
      UniverseClosed(Flat(f));
      LeftDrops(Flat(f), old(live), live);
    }

    /** Marks until nothing new is found: the least marking closed under uses. Then drops
        what is dead. */
    method Run(f: Function) returns (f': Function)
      requires live == Live({}, {})
      modifies this
      ensures EliminatedBy(live, f, f')
    {
      newLive := true;
      while newLive
        invariant InLeast(live, Flat(f))
        invariant !newLive ==> Closed(live, Flat(f)) && (anyDead <==> SomeDead(live, Flat(f)))
        decreases Left(Flat(f), live), newLive
      {
        Pass(f);
      }
      f' := if anyDead then MapBlocks(live, f) else f;
      LeastIsNeeded(live, Flat(f));
      MapLeaves(live, f);
    }
  }

  /** Exactly what is needed is marked, which is the least closed marking, and `f'` is `f` without
      the rest. */
  ghost predicate EliminatedBy(l: Live, f: Function, f': Function) {
    && Closed(l, Flat(f)) && InLeast(l, Flat(f)) && (forall it: Item :: In(l, it) <==> IsNeeded(Flat(f), it))
    && f' == (if SomeDead(l, Flat(f)) then MapBlocks(l, f) else f)
    && (SomeDead(l, Flat(f)) ==> |f'| == |f| && forall b: nat :: b < |f| ==> BlockLeft(l, f[b], f'[b]))
  }

  /** Below every closed marking. */
  ghost predicate InLeast(l: Live, code: seq<Instr>) {
    forall t :: Closed(t, code) ==> Leq(l, t)
  }

  ghost predicate SomeDead(l: Live, code: seq<Instr>) {
    exists i :: i in code && DeadPart(l, i)
  }

  /** The same for several instructions. */
  ghost predicate MarkedAll(l: Live, n: bool, d: bool, code: seq<Instr>, l': Live, n': bool, d': bool) {
    && Grown(l, n, l', n')
    && (forall t :: Leq(l, t) && Closed(t, code) ==> Leq(l', t))
    && (l' == l ==> Closed(l, code) && (d' <==> d || SomeDead(l, code)))
  }

  lemma {:induction false} MarkedConcat(l: Live, n: bool, d: bool, b: seq<Instr>, l1: Live, n1: bool, d1: bool,
                                        a: seq<Instr>, l2: Live, n2: bool, d2: bool)
    requires MarkedAll(l, n, d, b, l1, n1, d1)
    requires MarkedAll(l1, n1, d1, a, l2, n2, d2) || (|a| == 1 && Marked(l1, n1, d1, a[0], l2, n2, d2))
    ensures MarkedAll(l, n, d, a + b, l2, n2, d2)
  {
    var c := a + b;
    assert forall i :: i in c <==> i in a || i in b;
    if |a| == 1 { assert forall i :: i in a <==> i == a[0]; }
    forall t | Leq(l, t) && Closed(t, c) ensures Leq(l2, t) {
      assert Closed(t, b) && Closed(t, a);
    }
    if l2 == l {
      assert l1 == l;
      assert SomeDead(l, c) <==> SomeDead(l, a) || SomeDead(l, b);
      if |a| == 1 && DeadPart(l, a[0]) { assert a[0] in a; }
    }
  }

  // ---- what is needed ----

  /** A value, or a phi. */
  datatype Item = Val(x: Ssa) | Join(p: Phi)

  ghost predicate In(l: Live, it: Item) {
    match it
    case Val(x) => x in l.ssa
    case Join(p) => p in l.phi
  }

  /** The operation reads the value, as its guard or in a source. */
  ghost predicate OpUses(i: Instr, it: Item)
    requires i.Op?
  {
    it.Val? && (i.pred == On(it.x) || exists s :: s in i.ins && it.x in s.ssas)
  }

  /** An operation that cannot be eliminated reads the value. */
  ghost predicate Starts(i: Instr, it: Item) {
    i.Op? && i.pred != Never && !i.canEliminate && OpUses(i, it)
  }

  /** The instruction makes `to` from `from`. */
  ghost predicate Feeds(i: Instr, to: Item, from: Item) {
    match i
    case PhiSrcs(srcs) => to.Join? && from.Val? && exists s: Src :: (to.p, s) in srcs && from.x in s.ssas
    case PhiDsts(dsts) => to.Val? && from.Join? && exists d: Dst :: (from.p, d) in dsts && to.x in d
    case ParCopy(pairs) =>
      to.Val? && from.Val? && exists d: Dst, s: Src :: (d, s) in pairs && to.x in d && from.x in s.ssas
    case Op(_, pred, _, outs, _) =>
      to.Val? && pred != Never && OpUses(i, from) && exists d: Dst :: d in outs && to.x in d
  }

  /** A chain of `n` instructions leads from the item to an operation that cannot be eliminated. */
  ghost predicate NeededBy(code: seq<Instr>, it: Item, n: nat)
    decreases n
  {
    if n == 0 then exists i :: i in code && Starts(i, it)
    else exists to, i :: i in code && Feeds(i, to, it) && NeededBy(code, to, n - 1)
  }

  ghost predicate IsNeeded(code: seq<Instr>, it: Item) {
    exists n: nat :: NeededBy(code, it, n)
  }

  lemma {:induction false} StartIn(l: Live, i: Instr, it: Item)
    requires ClosedAt(l, i) && Starts(i, it)
    ensures In(l, it)
  {
    if i.pred != On(it.x) {
      var s :| s in i.ins && it.x in s.ssas;
      var k :| 0 <= k < |i.ins| && i.ins[k] == s;
    }
  }

  lemma {:induction false} FeedIn(l: Live, i: Instr, to: Item, from: Item)
    requires ClosedAt(l, i) && Feeds(i, to, from) && In(l, to)
    ensures In(l, from)
  {
    match i
    case PhiSrcs(srcs) =>
      var s: Src :| (to.p, s) in srcs && from.x in s.ssas;
      var k :| 0 <= k < |srcs| && srcs[k] == (to.p, s);
    case PhiDsts(dsts) =>
      var d: Dst :| (from.p, d) in dsts && to.x in d;
      var k :| 0 <= k < |dsts| && dsts[k] == (from.p, d);
    case ParCopy(pairs) =>
      var d: Dst, s: Src :| (d, s) in pairs && to.x in d && from.x in s.ssas;
      var k :| 0 <= k < |pairs| && pairs[k] == (d, s);
    case Op(_, pred, ins, outs, _) =>
      var d: Dst :| d in outs && to.x in d;
      assert SomeIn(l, d);
      if pred != On(from.x) {
        var s :| s in ins && from.x in s.ssas;
        var k :| 0 <= k < |ins| && ins[k] == s;
      }
  }

  /** A closed marking has everything that is needed. */
  lemma {:induction false} NeededIn(l: Live, code: seq<Instr>, it: Item, n: nat)
    requires Closed(l, code) && NeededBy(code, it, n)
    ensures In(l, it)
    decreases n
  {
    if n == 0 {
      var i :| i in code && Starts(i, it);
      StartIn(l, i, it);
    } else {
      var to, i :| i in code && Feeds(i, to, it) && NeededBy(code, to, n - 1);
      NeededIn(l, code, to, n - 1);
      FeedIn(l, i, to, it);
    }
  }

  lemma {:induction false} NeededOn(code: seq<Instr>, i: Instr, to: Item, from: Item)
    requires i in code && Feeds(i, to, from) && IsNeeded(code, to)
    ensures IsNeeded(code, from)
  {
    var n: nat :| NeededBy(code, to, n);
    assert NeededBy(code, from, n + 1);
  }

  lemma {:induction false} StartNeeded(code: seq<Instr>, i: Instr, it: Item)
    requires i in code && Starts(i, it)
    ensures IsNeeded(code, it)
  {
    assert NeededBy(code, it, 0);
  }

  /** All that is needed, as a marking. */
  ghost function NeededLive(code: seq<Instr>): Live {
    Live(set x | x in Universe(code).ssa && IsNeeded(code, Val(x)),
         set p | p in Universe(code).phi && IsNeeded(code, Join(p)))
  }

  lemma {:induction false} NeededOpClosed(code: seq<Instr>, i: Instr, it: Item)
    requires i in code && i.Op? && Matters(NeededLive(code), i) && OpUses(i, it)
    ensures IsNeeded(code, it)
  {
    if i.canEliminate {
      var d :| d in i.outs && SomeIn(NeededLive(code), d);
      var x :| x in d && x in NeededLive(code).ssa;
      NeededOn(code, i, Val(x), it);
    } else {
      StartNeeded(code, i, it);
    }
  }

  /** The instruction's sources are needed when what it makes is. */
  lemma {:induction false} NeededClosedAt(code: seq<Instr>, i: Instr)
    requires i in code && ClosedAt(Universe(code), i)
    ensures ClosedAt(NeededLive(code), i)
  {
    var l := NeededLive(code);
    match i
    case PhiSrcs(srcs) =>
      forall k | 0 <= k < |srcs| && srcs[k].0 in l.phi ensures SrcIn(l, srcs[k].1) {
        forall j | 0 <= j < |srcs[k].1.ssas| ensures srcs[k].1.ssas[j] in l.ssa {
          assert (srcs[k].0, srcs[k].1) in srcs && srcs[k].1.ssas[j] in srcs[k].1.ssas;
          NeededOn(code, i, Join(srcs[k].0), Val(srcs[k].1.ssas[j]));
        }
      }
    case PhiDsts(dsts) =>
      forall k | 0 <= k < |dsts| && IsDstLive(l, dsts[k].1) ensures dsts[k].0 in l.phi {
        var x :| x in dsts[k].1 && x in l.ssa;
        assert (dsts[k].0, dsts[k].1) in dsts;
        NeededOn(code, i, Val(x), Join(dsts[k].0));
        assert IsDstLive(Universe(code), dsts[k].1);
      }
    case ParCopy(pairs) =>
      forall k | 0 <= k < |pairs| && IsDstLive(l, pairs[k].0) ensures SrcIn(l, pairs[k].1) {
        var x :| x in pairs[k].0 && x in l.ssa;
        assert IsDstLive(Universe(code), pairs[k].0);
        forall j | 0 <= j < |pairs[k].1.ssas| ensures pairs[k].1.ssas[j] in l.ssa {
          assert (pairs[k].0, pairs[k].1) in pairs && pairs[k].1.ssas[j] in pairs[k].1.ssas;
          NeededOn(code, i, Val(x), Val(pairs[k].1.ssas[j]));
        }
      }
    case Op(_, _, _, _, _) => NeededOpSources(code, i);
  }

  lemma {:induction false} NeededOpSources(code: seq<Instr>, i: Instr)
    requires i in code && i.Op? && ClosedAt(Universe(code), i)
    ensures ClosedAt(NeededLive(code), i)
  {
    var l := NeededLive(code);
    LiveGrows(l, Universe(code));
    if IsOpLive(l, i) {
      if i.pred.On? { NeededOpClosed(code, i, Val(i.pred.x)); }
      forall k, j | 0 <= k < |i.ins| && 0 <= j < |i.ins[k].ssas| ensures i.ins[k].ssas[j] in l.ssa {
        assert i.ins[k] in i.ins && i.ins[k].ssas[j] in i.ins[k].ssas;
        NeededOpClosed(code, i, Val(i.ins[k].ssas[j]));
        assert SrcIn(Universe(code), i.ins[k]);
      }
    }
  }

  /** The least closed marking has exactly what is needed. */
  lemma {:induction false} LeastIsNeeded(l: Live, code: seq<Instr>)
    requires Closed(l, code) && InLeast(l, code)
    ensures forall it: Item :: In(l, it) <==> IsNeeded(code, it)
  {
    UniverseClosed(code);
    forall i | i in code ensures ClosedAt(NeededLive(code), i) {
      NeededClosedAt(code, i);
    }
    assert Leq(l, NeededLive(code));
    forall it: Item ensures In(l, it) <==> IsNeeded(code, it) {
      if n: nat :| NeededBy(code, it, n) {
        NeededIn(l, code, it, n);
      }
    }
  }

  // ---- what is left ----

  /** `r` has the elements to keep, in order. */
  ghost predicate Filtered<T(!new)>(all: seq<T>, keep: T -> bool, r: seq<T>)
    decreases |all|
  {
    if all == [] then r == []
    else
      var init, last := all[..|all| - 1], all[|all| - 1];
      if keep(last) then r != [] && r[|r| - 1] == last && Filtered(init, keep, r[..|r| - 1])
      else Filtered(init, keep, r)
  }

  ghost function KeepSrc(l: Live): ((Phi, Src)) -> bool {
    (e: (Phi, Src)) => e.0 in l.phi
  }

  ghost function KeepDst(l: Live): ((Phi, Dst)) -> bool {
    (e: (Phi, Dst)) => SomeIn(l, e.1)
  }

  ghost function KeepPair(l: Live): ((Dst, Src)) -> bool {
    (e: (Dst, Src)) => SomeIn(l, e.0)
  }

  /** `o` is what is left of the instruction: the marked parts, or nothing. */
  ghost predicate Leaves(l: Live, i: Instr, o: Option<Instr>) {
    match i
    case PhiSrcs(srcs) =>
      if o.None? then Filtered(srcs, KeepSrc(l), [])
      else o.value.PhiSrcs? && o.value.srcs != [] && Filtered(srcs, KeepSrc(l), o.value.srcs)
    case PhiDsts(dsts) =>
      if o.None? then Filtered(dsts, KeepDst(l), [])
      else o.value.PhiDsts? && o.value.dsts != [] && Filtered(dsts, KeepDst(l), o.value.dsts)
    case ParCopy(pairs) =>
      if o.None? then Filtered(pairs, KeepPair(l), [])
      else o.value.ParCopy? && o.value.pairs != [] && Filtered(pairs, KeepPair(l), o.value.pairs)
    case Op(_, _, _, _, _) => o == if Matters(l, i) then Some(i) else None
  }

  /** `code'` has what is left of each instruction, in order. */
  ghost predicate BlockLeft(l: Live, code: seq<Instr>, code': seq<Instr>)
    decreases |code|
  {
    if code == [] then code' == []
    else
      var init, last := code[..|code| - 1], code[|code| - 1];
      || (Leaves(l, last, None) && BlockLeft(l, init, code'))
      || (code' != [] && Leaves(l, last, Some(code'[|code'| - 1])) && BlockLeft(l, init, code'[..|code'| - 1]))
  }

  lemma {:induction false} PhiSrcsFiltered(l: Live, srcs: seq<(Phi, Src)>)
    ensures Filtered(srcs, KeepSrc(l), LivePhiSrcs(l, srcs))
  {
    if srcs != [] {
      var init, r := srcs[..|srcs| - 1], LivePhiSrcs(l, srcs);
      PhiSrcsFiltered(l, init);
      assert LivePhiSrcs(l, init) == if srcs[|srcs| - 1].0 in l.phi then r[..|r| - 1] else r;
    }
  }

  lemma {:induction false} PhiDstsFiltered(l: Live, dsts: seq<(Phi, Dst)>)
    ensures Filtered(dsts, KeepDst(l), LivePhiDsts(l, dsts))
  {
    if dsts != [] {
      var init, r := dsts[..|dsts| - 1], LivePhiDsts(l, dsts);
      PhiDstsFiltered(l, init);
      assert LivePhiDsts(l, init) == if SomeIn(l, dsts[|dsts| - 1].1) then r[..|r| - 1] else r;
    }
  }

  lemma {:induction false} PairsFiltered(l: Live, pairs: seq<(Dst, Src)>)
    ensures Filtered(pairs, KeepPair(l), LivePairs(l, pairs))
  {
    if pairs != [] {
      var init, r := pairs[..|pairs| - 1], LivePairs(l, pairs);
      PairsFiltered(l, init);
      assert LivePairs(l, init) == if SomeIn(l, pairs[|pairs| - 1].0) then r[..|r| - 1] else r;
    }
  }

  lemma {:induction false} InstrLeaves(l: Live, i: Instr)
    ensures Leaves(l, i, MapInstr(l, i))
  {
    match i
    case PhiSrcs(srcs) => PhiSrcsFiltered(l, srcs);
    case PhiDsts(dsts) => PhiDstsFiltered(l, dsts);
    case ParCopy(pairs) => PairsFiltered(l, pairs);
    case Op(_, _, _, _, _) =>
  }

  lemma {:induction false} BlockLeaves(l: Live, code: seq<Instr>)
    ensures BlockLeft(l, code, MapBlock(l, code))
    decreases |code|
  {
    if code != [] {
      var init, last, r := code[..|code| - 1], code[|code| - 1], MapBlock(l, code);
      BlockLeaves(l, init);
      InstrLeaves(l, last);
      if MapInstr(l, last).Some? {
        assert r[..|r| - 1] == MapBlock(l, init) && r[|r| - 1] == MapInstr(l, last).value;
      } else {
        assert r == MapBlock(l, init);
      }
    }
  }

  lemma {:induction false} MapLeaves(l: Live, f: Function)
    ensures forall b: nat :: b < |f| ==> BlockLeft(l, f[b], MapBlocks(l, f)[b])
  {
    forall b: nat | b < |f| ensures BlockLeft(l, f[b], MapBlocks(l, f)[b]) {
      BlockLeaves(l, f[b]);
    }
  }

  // ---- marking ends ----

  ghost function UsedSsa(i: Instr): set<Ssa> {
    match i
    case PhiSrcs(srcs) => set k, x | 0 <= k < |srcs| && x in srcs[k].1.ssas :: x
    case PhiDsts(dsts) => {}
    case ParCopy(pairs) => set k, x | 0 <= k < |pairs| && x in pairs[k].1.ssas :: x
    case Op(_, pred, ins, _, _) =>
      (if pred.On? then {pred.x} else {}) + (set k, x | 0 <= k < |ins| && x in ins[k].ssas :: x)
  }

  ghost function UsedPhi(i: Instr): set<Phi> {
    match i
    case PhiDsts(dsts) => set k | 0 <= k < |dsts| :: dsts[k].0
    case _ => {}
  }

  /** Everything that could be marked. */
  ghost function Universe(code: seq<Instr>): Live {
    Live(set i, x | i in code && x in UsedSsa(i) :: x, set i, p | i in code && p in UsedPhi(i) :: p)
  }

  lemma {:induction false} UniverseClosed(code: seq<Instr>)
    ensures Closed(Universe(code), code)
  {
    forall i | i in code ensures ClosedAt(Universe(code), i) {
      var u := Universe(code);
      assert forall x :: x in UsedSsa(i) ==> x in u.ssa;
      assert forall p :: p in UsedPhi(i) ==> p in u.phi;
      match i
      case PhiSrcs(srcs) =>
        forall k, j | 0 <= k < |srcs| && 0 <= j < |srcs[k].1.ssas| ensures srcs[k].1.ssas[j] in u.ssa {
          assert srcs[k].1.ssas[j] in srcs[k].1.ssas;
          assert srcs[k].1.ssas[j] in UsedSsa(i);
        }
      case PhiDsts(dsts) =>
        forall k | 0 <= k < |dsts| ensures dsts[k].0 in u.phi { assert dsts[k].0 in UsedPhi(i); }
      case ParCopy(pairs) =>
        forall k, j | 0 <= k < |pairs| && 0 <= j < |pairs[k].1.ssas| ensures pairs[k].1.ssas[j] in u.ssa {
          assert pairs[k].1.ssas[j] in pairs[k].1.ssas;
          assert pairs[k].1.ssas[j] in UsedSsa(i);
        }
      case Op(_, pred, ins, _, _) =>
        forall k, j | 0 <= k < |ins| && 0 <= j < |ins[k].ssas| ensures ins[k].ssas[j] in u.ssa {
          assert ins[k].ssas[j] in ins[k].ssas;
          assert ins[k].ssas[j] in UsedSsa(i);
        }
    }
  }

  ghost function Left(code: seq<Instr>, l: Live): nat {
    |Universe(code).ssa - l.ssa| + |Universe(code).phi - l.phi|
  }

  lemma {:induction false} LeftDrops(code: seq<Instr>, l: Live, l': Live)
    requires Leq(l, l') && Leq(l', Universe(code))
    ensures Left(code, l') <= Left(code, l) && (l != l' ==> Left(code, l') < Left(code, l))
  {
    var u := Universe(code);
    SubsetSize(u.ssa - l'.ssa, u.ssa - l.ssa);
    SubsetSize(u.phi - l'.phi, u.phi - l.phi);
    if l.ssa != l'.ssa {
      assert exists x :: x in l'.ssa && x !in l.ssa;
      var x :| x in l'.ssa && x !in l.ssa;
      assert x in u.ssa - l.ssa && x !in u.ssa - l'.ssa;
    }
    if l.phi != l'.phi {
      assert exists x :: x in l'.phi && x !in l.phi;
      var x :| x in l'.phi && x !in l.phi;
      assert x in u.phi - l.phi && x !in u.phi - l'.phi;
    }
  }

  // ---- dropping ----

  function LivePhiSrcs(l: Live, srcs: seq<(Phi, Src)>): seq<(Phi, Src)> {
    if srcs == [] then []
      else LivePhiSrcs(l, srcs[..|srcs| - 1]) + if srcs[|srcs| - 1].0 in l.phi then [srcs[|srcs| - 1]] else []
  }

  function LivePhiDsts(l: Live, dsts: seq<(Phi, Dst)>): seq<(Phi, Dst)> {
    if dsts == [] then []
      else LivePhiDsts(l, dsts[..|dsts| - 1]) + if IsDstLive(l, dsts[|dsts| - 1].1) then [dsts[|dsts| - 1]] else []
  }

  function LivePairs(l: Live, pairs: seq<(Dst, Src)>): seq<(Dst, Src)> {
    if pairs == [] then []
      else LivePairs(l, pairs[..|pairs| - 1]) + if IsDstLive(l, pairs[|pairs| - 1].0) then [pairs[|pairs| - 1]] else []
  }

  /** What is left of an instruction, if anything. */
  function MapInstr(l: Live, i: Instr): Option<Instr> {
    match i
    case PhiSrcs(srcs) => var r := LivePhiSrcs(l, srcs); if r != [] then Some(PhiSrcs(r)) else None
    case PhiDsts(dsts) => var r := LivePhiDsts(l, dsts); if r != [] then Some(PhiDsts(r)) else None
    case ParCopy(pairs) => var r := LivePairs(l, pairs); if r != [] then Some(ParCopy(r)) else None
    case Op(_, _, _, _, _) => if IsOpLive(l, i) then Some(i) else None
  }

  function MapBlock(l: Live, code: seq<Instr>): seq<Instr> {
    if code == [] then []
    else MapBlock(l, code[..|code| - 1]) + match MapInstr(l, code[|code| - 1]) case Some(i) => [i] case None => []
  }

  function MapBlocks(l: Live, f: Function): Function {
    seq(|f|, b requires 0 <= b < |f| => MapBlock(l, f[b]))
  }

  /** Marking has grown from `a` to `b`, and the flag says whether it has. */
  ghost predicate Grown(a: Live, flag: bool, b: Live, flag': bool) {
    Leq(a, b) && (flag' <==> flag || a != b)
  }

  /** `t` is above `l` and holds what the operation needs. */
  ghost predicate Needs(l: Live, i: Instr, t: Live)
    requires i.Op?
  {
    Leq(l, t) && (i.pred.On? ==> i.pred.x in t.ssa) && forall k :: 0 <= k < |i.ins| ==> SrcIn(t, i.ins[k])
  }

  /** What marking one instruction does: no more than any closed marking has, all that is needed
      once nothing changes, and then the second flag tells whether part of it is dead. */
  ghost predicate Marked(l: Live, n: bool, d: bool, i: Instr, l': Live, n': bool, d': bool) {
    && Grown(l, n, l', n')
    && (forall t :: Leq(l, t) && ClosedAt(t, i) ==> Leq(l', t))
    && (l' == l ==> ClosedAt(l, i) && (d' <==> d || DeadPart(l, i)))
  }

  lemma {:induction false} MarkedPhiSrc(l: Live, n: bool, d: bool, srcs: seq<(Phi, Src)>, p: Phi, s: Src,
                                        l1: Live, n1: bool, d1: bool, l2: Live, n2: bool, d2: bool)
    requires Marked(l, n, d, PhiSrcs(srcs), l1, n1, d1) && Grown(l1, n1, l2, n2)
    requires if p in l1.phi then SrcIn(l2, s) && d2 == d1 && (forall t :: Leq(l1, t) && SrcIn(t, s) ==> Leq(l2, t))
      else l2 == l1 && d2
    ensures Marked(l, n, d, PhiSrcs(srcs + [(p, s)]), l2, n2, d2)
  {
    var all := srcs + [(p, s)];
    forall t | Leq(l, t) && ClosedAt(t, PhiSrcs(all)) ensures Leq(l2, t) {
      assert forall k :: 0 <= k < |srcs| ==> all[k] == srcs[k];
      assert ClosedAt(t, PhiSrcs(srcs));
      assert all[|srcs|] == (p, s);
    }
    assert DeadPart(l, PhiSrcs(all)) <==> DeadPart(l, PhiSrcs(srcs)) || p !in l.phi by {
      if k :| 0 <= k < |srcs| && srcs[k].0 !in l.phi { assert all[k].0 !in l.phi; }
      assert all[|srcs|].0 == p;
    }
  }

  lemma {:induction false} MarkedPhiDst(l: Live, n: bool, d: bool, dsts: seq<(Phi, Dst)>, p: Phi, dst: Dst,
                                        l1: Live, n1: bool, d1: bool, l2: Live, n2: bool, d2: bool)
    requires Marked(l, n, d, PhiDsts(dsts), l1, n1, d1) && Grown(l1, n1, l2, n2)
    requires if IsDstLive(l1, dst) then l2 == l1.(phi := l1.phi + {p}) && d2 == d1 else l2 == l1 && d2
    ensures Marked(l, n, d, PhiDsts(dsts + [(p, dst)]), l2, n2, d2)
  {
    var all := dsts + [(p, dst)];
    forall t | Leq(l, t) && ClosedAt(t, PhiDsts(all)) ensures Leq(l2, t) {
      assert forall k :: 0 <= k < |dsts| ==> all[k] == dsts[k];
      assert ClosedAt(t, PhiDsts(dsts));
      LiveGrows(l1, t);
      assert all[|dsts|] == (p, dst);
    }
    assert DeadPart(l, PhiDsts(all)) <==> DeadPart(l, PhiDsts(dsts)) || !IsDstLive(l, dst) by {
      if k :| 0 <= k < |dsts| && !IsDstLive(l, dsts[k].1) { assert !IsDstLive(l, all[k].1); }
      assert all[|dsts|].1 == dst;
    }
  }

  lemma {:induction false} MarkedPair(l: Live, n: bool, d: bool, pairs: seq<(Dst, Src)>, dst: Dst, s: Src,
                                      l1: Live, n1: bool, d1: bool, l2: Live, n2: bool, d2: bool)
    requires Marked(l, n, d, ParCopy(pairs), l1, n1, d1) && Grown(l1, n1, l2, n2)
    requires if IsDstLive(l1, dst) then SrcIn(l2, s) && d2 == d1 &&
      (forall t :: Leq(l1, t) && SrcIn(t, s) ==> Leq(l2, t)) else l2 == l1 && d2
    ensures Marked(l, n, d, ParCopy(pairs + [(dst, s)]), l2, n2, d2)
  {
    var all := pairs + [(dst, s)];
    forall t | Leq(l, t) && ClosedAt(t, ParCopy(all)) ensures Leq(l2, t) {
      assert forall k :: 0 <= k < |pairs| ==> all[k] == pairs[k];
      assert ClosedAt(t, ParCopy(pairs));
      LiveGrows(l1, t);
      assert all[|pairs|] == (dst, s);
    }
    assert DeadPart(l, ParCopy(all)) <==> DeadPart(l, ParCopy(pairs)) || !IsDstLive(l, dst) by {
      if k :| 0 <= k < |pairs| && !IsDstLive(l, pairs[k].0) { assert !IsDstLive(l, all[k].0); }
      assert all[|pairs|].0 == dst;
    }
  }

  // ---- running ----

  /** The value of a source: which source it is and what it read. */
  type Read<!V> = (Src, seq<V>)

  datatype State<!V, !M> = State(env: Ssa -> V, phis: Phi -> Read<V>, mem: M)

  /** Any meaning: the components of a source, and what an operation writes and stores given
      what it read, the memory, and what its destination held. */
  datatype Meaning<!V, !M> = Meaning(
    part: (Read<V>, nat) -> V, value: (Instr, seq<Read<V>>, M, Ssa, V) -> V, store: (Instr, seq<Read<V>>, M) -> M)

  /** An operation that cannot be eliminated, and what it read. */
  datatype Event<!V> = Event(i: Instr, reads_: seq<Read<V>>)

  ghost function ReadSrc<V>(s: Src, env: Ssa -> V): Read<V> {
    (s, seq(|s.ssas|, k requires 0 <= k < |s.ssas| => env(s.ssas[k])))
  }

  ghost function Reads<V>(i: Instr, env: Ssa -> V): seq<Read<V>>
    requires i.Op?
  {
    (if i.pred.On? then [ReadSrc(Src(0, [i.pred.x]), env)] else []) +
    seq(|i.ins|, k requires 0 <= k < |i.ins| => ReadSrc(i.ins[k], env))
  }

  ghost function Position(d: Dst, x: Ssa): nat {
    if d == [] || d[0] == x then 0 else 1 + Position(d[1..], x)
  }

  ghost function WriteDst<V, M>(m: Meaning<V, M>, d: Dst, r: Read<V>, env: Ssa -> V): Ssa -> V {
    (x: Ssa) => if x in d then m.part(r, Position(d, x)) else env(x)
  }

  ghost function RunPhiSrcs<V>(srcs: seq<(Phi, Src)>, env: Ssa -> V, phis: Phi -> Read<V>): Phi -> Read<V> {
    if srcs == [] then phis
    else
      var (p, s) := srcs[|srcs| - 1];
      var before := RunPhiSrcs(srcs[..|srcs| - 1], env, phis);
      (q: Phi) => if q == p then ReadSrc(s, env) else before(q)
  }

  ghost function RunPhiDsts<V, M>(m: Meaning<V, M>, dsts: seq<(Phi, Dst)>, phis: Phi -> Read<V>,
                                  env: Ssa -> V): Ssa -> V {
    if dsts == [] then env
    else
      var (p, d) := dsts[|dsts| - 1];
      WriteDst(m, d, phis(p), RunPhiDsts(m, dsts[..|dsts| - 1], phis, env))
  }

  /** All sources are read in `from`, before anything is written. */
  ghost function RunCopies<V, M>(m: Meaning<V, M>, pairs: seq<(Dst, Src)>, from: Ssa -> V, env: Ssa -> V): Ssa -> V {
    if pairs == [] then env
    else
      var (d, s) := pairs[|pairs| - 1];
      WriteDst(m, d, ReadSrc(s, from), RunCopies(m, pairs[..|pairs| - 1], from, env))
  }

  ghost predicate Writes(i: Instr, x: Ssa)
    requires i.Op?
  {
    exists k :: 0 <= k < |i.outs| && x in i.outs[k]
  }

  ghost function Step<V, M>(m: Meaning<V, M>, i: Instr, s: State<V, M>): State<V, M> {
    match i
    case PhiSrcs(srcs) => s.(phis := RunPhiSrcs(srcs, s.env, s.phis))
    case PhiDsts(dsts) => s.(env := RunPhiDsts(m, dsts, s.phis, s.env))
    case ParCopy(pairs) => s.(env := RunCopies(m, pairs, s.env, s.env))
    case Op(_, pred, _, _, can) =>
      if pred == Never then s
      else
        var rs := Reads(i, s.env);
        State((x: Ssa) => if Writes(i, x) then m.value(i, rs, s.mem, x, s.env(x)) else s.env(x),
              s.phis, if can then s.mem else m.store(i, rs, s.mem))
  }

  /** What an instruction shows to the outside. */
  ghost function Shown<V, M>(i: Instr, s: State<V, M>): seq<Event<V>> {
    if i.Op? && i.pred != Never && !i.canEliminate then [Event(i, Reads(i, s.env))] else []
  }

  ghost function RunCode<V, M>(m: Meaning<V, M>, code: seq<Instr>, s: State<V, M>): State<V, M>
    decreases |code|
  {
    if code == [] then s else Step(m, code[|code| - 1], RunCode(m, code[..|code| - 1], s))
  }

  ghost function ShownBy<V, M>(m: Meaning<V, M>, code: seq<Instr>, s: State<V, M>): seq<Event<V>>
    decreases |code|
  {
    if code == [] then []
    else ShownBy(m, code[..|code| - 1], s) + Shown(code[|code| - 1], RunCode(m, code[..|code| - 1], s))
  }

  /** The states agree on everything marked. */
  ghost predicate Agree<V(!new), M(!new)>(l: Live, s: State<V, M>, t: State<V, M>) {
    && s.mem == t.mem && (forall x :: x in l.ssa ==> s.env(x) == t.env(x)) &&
         (forall p :: p in l.phi ==> s.phis(p) == t.phis(p))
  }

  lemma {:induction false} ReadAgrees<V(!new)>(l: Live, s: Src, e: Ssa -> V, f: Ssa -> V)
    requires SrcIn(l, s) && forall x :: x in l.ssa ==> e(x) == f(x)
    ensures ReadSrc(s, e) == ReadSrc(s, f)
  {
    assert ReadSrc(s, e).1 == ReadSrc(s, f).1;
  }

  lemma {:induction false} PhiSrcsAgree<V(!new)>(l: Live, srcs: seq<(Phi, Src)>, e: Ssa -> V, f: Ssa -> V,
                                          ps: Phi -> Read<V>, qs: Phi -> Read<V>, p: Phi)
    requires (forall x :: x in l.ssa ==> e(x) == f(x)) && (forall q :: q in l.phi ==> ps(q) == qs(q))
    requires ClosedAt(l, PhiSrcs(srcs)) && p in l.phi
    ensures RunPhiSrcs(srcs, e, ps)(p) == RunPhiSrcs(LivePhiSrcs(l, srcs), f, qs)(p)
  {
    if srcs != [] {
      var init, last := srcs[..|srcs| - 1], srcs[|srcs| - 1];
      PhiSrcsAgree(l, init, e, f, ps, qs, p);
      if last.0 in l.phi {
        var all := LivePhiSrcs(l, srcs);
        assert all[..|all| - 1] == LivePhiSrcs(l, init);
        ReadAgrees(l, last.1, e, f);
      } else {
        assert LivePhiSrcs(l, srcs) == LivePhiSrcs(l, init);
      }
    }
  }

  lemma {:induction false} DstDead(l: Live, d: Dst, x: Ssa)
    requires !IsDstLive(l, d) && x in l.ssa
    ensures x !in d
  {
  }

  lemma {:induction false} PhiDstsAgree<V(!new), M(!new)>(m: Meaning<V, M>, l: Live, dsts: seq<(Phi, Dst)>,
                                          ps: Phi -> Read<V>, qs: Phi -> Read<V>, e: Ssa -> V, f: Ssa -> V, x: Ssa)
    requires (forall x :: x in l.ssa ==> e(x) == f(x)) && (forall q :: q in l.phi ==> ps(q) == qs(q))
    requires ClosedAt(l, PhiDsts(dsts)) && x in l.ssa
    ensures RunPhiDsts(m, dsts, ps, e)(x) == RunPhiDsts(m, LivePhiDsts(l, dsts), qs, f)(x)
  {
    if dsts != [] {
      var init, last := dsts[..|dsts| - 1], dsts[|dsts| - 1];
      PhiDstsAgree(m, l, init, ps, qs, e, f, x);
      if IsDstLive(l, last.1) {
        var all := LivePhiDsts(l, dsts);
        assert all[..|all| - 1] == LivePhiDsts(l, init);
        assert dsts[|dsts| - 1].0 in l.phi;
      } else {
        assert LivePhiDsts(l, dsts) == LivePhiDsts(l, init);
        DstDead(l, last.1, x);
      }
    }
  }

  lemma {:induction false} CopiesAgree<V(!new), M(!new)>(m: Meaning<V, M>, l: Live, pairs: seq<(Dst, Src)>,
                                         e0: Ssa -> V, f0: Ssa -> V, e: Ssa -> V, f: Ssa -> V, x: Ssa)
    requires (forall x :: x in l.ssa ==> e0(x) == f0(x)) && (forall x :: x in l.ssa ==> e(x) == f(x))
    requires ClosedAt(l, ParCopy(pairs)) && x in l.ssa
    ensures RunCopies(m, pairs, e0, e)(x) == RunCopies(m, LivePairs(l, pairs), f0, f)(x)
  {
    if pairs != [] {
      var init, last := pairs[..|pairs| - 1], pairs[|pairs| - 1];
      CopiesAgree(m, l, init, e0, f0, e, f, x);
      if IsDstLive(l, last.0) {
        var all := LivePairs(l, pairs);
        assert all[..|all| - 1] == LivePairs(l, init);
        ReadAgrees(l, last.1, e0, f0);
      } else {
        assert LivePairs(l, pairs) == LivePairs(l, init);
        DstDead(l, last.0, x);
      }
    }
  }

  ghost function StepMapped<V, M>(m: Meaning<V, M>, i: Option<Instr>, s: State<V, M>): State<V, M> {
    match i case Some(j) => Step(m, j, s) case None => s
  }

  ghost function ShownMapped<V, M>(i: Option<Instr>, s: State<V, M>): seq<Event<V>> {
    match i case Some(j) => Shown(j, s) case None => []
  }

  lemma {:induction false} OpAgrees<V(!new), M(!new)>(m: Meaning<V, M>, l: Live, i: Instr, s: State<V, M>, t: State<V,
                                      M>)
    requires i.Op? && ClosedAt(l, i) && Agree(l, s, t)
    ensures Agree(l, Step(m, i, s), StepMapped(m, MapInstr(l, i), t))
    ensures Shown(i, s) == ShownMapped(MapInstr(l, i), t)
  {
    if IsOpLive(l, i) {
      forall k | 0 <= k < |i.ins| ensures ReadSrc(i.ins[k], s.env) == ReadSrc(i.ins[k], t.env) {
        ReadAgrees(l, i.ins[k], s.env, t.env);
      }
      if i.pred.On? { ReadAgrees(l, Src(0, [i.pred.x]), s.env, t.env); }
      assert Reads(i, s.env) == Reads(i, t.env);
    } else if i.pred != Never {
      forall x | x in l.ssa ensures !Writes(i, x) {
        forall k | 0 <= k < |i.outs| ensures x !in i.outs[k] {
          DstDead(l, i.outs[k], x);
        }
      }
    }
  }

  /** What is left of an instruction does the same to everything marked, and shows the same. */
  lemma {:induction false} InstrAgrees<V(!new), M(!new)>(m: Meaning<V, M>, l: Live, i: Instr, s: State<V, M>,
                                         t: State<V, M>)
    requires ClosedAt(l, i) && Agree(l, s, t)
    ensures Agree(l, Step(m, i, s), StepMapped(m, MapInstr(l, i), t))
    ensures Shown(i, s) == ShownMapped(MapInstr(l, i), t)
  {
    match i
    case PhiSrcs(srcs) =>
      forall p | p in l.phi
        ensures RunPhiSrcs(srcs, s.env, s.phis)(p) == RunPhiSrcs(LivePhiSrcs(l, srcs), t.env, t.phis)(p)
      {
        PhiSrcsAgree(l, srcs, s.env, t.env, s.phis, t.phis, p);
      }
    case PhiDsts(dsts) =>
      forall x | x in l.ssa
        ensures RunPhiDsts(m, dsts, s.phis, s.env)(x) == RunPhiDsts(m, LivePhiDsts(l, dsts), t.phis, t.env)(x)
      {
        PhiDstsAgree(m, l, dsts, s.phis, t.phis, s.env, t.env, x);
      }
    case ParCopy(pairs) =>
      forall x | x in l.ssa
        ensures RunCopies(m, pairs, s.env, s.env)(x) == RunCopies(m, LivePairs(l, pairs), t.env, t.env)(x)
      {
        CopiesAgree(m, l, pairs, s.env, t.env, s.env, t.env, x);
      }
    case Op(_, _, _, _, _) => OpAgrees(m, l, i, s, t);
  }

  lemma {:induction false} BlockAgrees<V(!new), M(!new)>(m: Meaning<V, M>, l: Live, code: seq<Instr>, s: State<V, M>,
                                         t: State<V, M>)
    requires Closed(l, code) && Agree(l, s, t)
    ensures Agree(l, RunCode(m, code, s), RunCode(m, MapBlock(l, code), t))
    ensures ShownBy(m, code, s) == ShownBy(m, MapBlock(l, code), t)
    decreases |code|
  {
    if code != [] {
      var init, last := code[..|code| - 1], code[|code| - 1];
      BlockAgrees(m, l, init, s, t);
      InstrAgrees(m, l, last, RunCode(m, init, s), RunCode(m, MapBlock(l, init), t));
      var all := MapBlock(l, code);
      if MapInstr(l, last).Some? {
        assert all[..|all| - 1] == MapBlock(l, init) && all[|all| - 1] == MapInstr(l, last).value;
      } else {
        assert all == MapBlock(l, init);
      }
    }
  }

  // ---- whole runs ----

  /** What a run has shown, where it is (nowhere once it has ended), and its state. */
  datatype Progress<!V, !M> = Progress(shown: seq<Event<V>>, at: Option<nat>, s: State<V, M>)

  /** Runs one block; where control goes next depends on what the block has shown. */
  ghost function RunBlock<V, M>(m: Meaning<V, M>, decide: (nat, seq<Event<V>>) -> Option<nat>, f: Function,
                                p: Progress<V, M>): Progress<V, M> {
    if p.at.None? || p.at.value >= |f| then p
    else
      var b := p.at.value;
      var shown := ShownBy(m, f[b], p.s);
      Progress(p.shown + shown, decide(b, shown), RunCode(m, f[b], p.s))
  }

  ghost function RunBlocks<V, M>(m: Meaning<V, M>, decide: (nat, seq<Event<V>>) -> Option<nat>, f: Function,
                                 p: Progress<V, M>, n: nat): Progress<V, M>
    decreases n
  {
    if n == 0 then p else RunBlocks(m, decide, f, RunBlock(m, decide, f, p), n - 1)
  }

  /** The runs have shown the same, are at the same place, and agree on everything marked. */
  ghost predicate InStep<V(!new), M(!new)>(l: Live, p: Progress<V, M>, q: Progress<V, M>) {
    p.shown == q.shown && p.at == q.at && Agree(l, p.s, q.s)
  }

  lemma {:induction false} BlockInStep<V(!new), M(!new)>(m: Meaning<V, M>, decide: (nat, seq<Event<V>>) -> Option<nat>,
                                         l: Live, f: Function,
                                           p: Progress<V, M>, q: Progress<V, M>)
    requires Closed(l, Flat(f)) && InStep(l, p, q)
    ensures InStep(l, RunBlock(m, decide, f, p), RunBlock(m, decide, MapBlocks(l, f), q))
  {
    if p.at.Some? && p.at.value < |f| {
      var b := p.at.value;
      forall i | i in f[b] ensures ClosedAt(l, i) { FlatHas(f, b, i); }
      BlockAgrees(m, l, f[b], p.s, q.s);
    }
  }

  /** On every run the operations that cannot be eliminated are the same and read the same. */
  lemma {:induction false} SameRuns<V(!new), M(!new)>(m: Meaning<V, M>, decide: (nat, seq<Event<V>>) -> Option<nat>,
                                      l: Live, f: Function,
                                        p: Progress<V, M>, q: Progress<V, M>, n: nat)
    requires Closed(l, Flat(f)) && InStep(l, p, q)
    ensures InStep(l, RunBlocks(m, decide, f, p, n), RunBlocks(m, decide, MapBlocks(l, f), q, n))
    decreases n
  {
    if n > 0 {
      BlockInStep(m, decide, l, f, p, q);
      SameRuns(m, decide, l, f, RunBlock(m, decide, f, p), RunBlock(m, decide, MapBlocks(l, f), q), n - 1);
    }
  }

  /** From the same start, the function that the pass returns shows what the old one shows and goes
      where it goes, for any number of blocks. */
  lemma {:induction false} EliminationKeepsRuns<V(!new), M(!new)>(m: Meaning<V, M>,
                                                  decide: (nat, seq<Event<V>>) -> Option<nat>,
                                                                  l: Live, f: Function, f': Function, p: Progress<V, M>,
                                                                    n: nat)
    requires EliminatedBy(l, f, f')
    ensures RunBlocks(m, decide, f', p, n).shown == RunBlocks(m, decide, f, p, n).shown
    ensures RunBlocks(m, decide, f', p, n).at == RunBlocks(m, decide, f, p, n).at
  {
    if SomeDead(l, Flat(f)) {
      SameRuns(m, decide, l, f, p, p, n);
    }
  }

  // ---- uses and definitions ----

  ghost predicate Defines(i: Instr, x: Ssa) {
    match i
    case PhiSrcs(_) => false
    case PhiDsts(dsts) => exists k :: 0 <= k < |dsts| && x in dsts[k].1
    case ParCopy(pairs) => exists k :: 0 <= k < |pairs| && x in pairs[k].0
    case Op(_, pred, _, _, _) => pred != Never && Writes(i, x)
  }

  lemma {:induction false} PhiSrcsLeft(l: Live, srcs: seq<(Phi, Src)>, e: (Phi, Src))
    ensures e in LivePhiSrcs(l, srcs) <==> e in srcs && e.0 in l.phi
  {
    if srcs != [] {
      PhiSrcsLeft(l, srcs[..|srcs| - 1], e);
      assert srcs == srcs[..|srcs| - 1] + [srcs[|srcs| - 1]];
    }
  }

  lemma {:induction false} PhiDstsLeft(l: Live, dsts: seq<(Phi, Dst)>, e: (Phi, Dst))
    ensures e in LivePhiDsts(l, dsts) <==> e in dsts && IsDstLive(l, e.1)
  {
    if dsts != [] {
      PhiDstsLeft(l, dsts[..|dsts| - 1], e);
      assert dsts == dsts[..|dsts| - 1] + [dsts[|dsts| - 1]];
    }
  }

  lemma {:induction false} PairsLeft(l: Live, pairs: seq<(Dst, Src)>, e: (Dst, Src))
    ensures e in LivePairs(l, pairs) <==> e in pairs && IsDstLive(l, e.0)
  {
    if pairs != [] {
      PairsLeft(l, pairs[..|pairs| - 1], e);
      assert pairs == pairs[..|pairs| - 1] + [pairs[|pairs| - 1]];
    }
  }

  /** What is left of an instruction uses only marked values and phis. */
  lemma {:induction false} LeftUsesMarked(l: Live, i: Instr)
    requires ClosedAt(l, i) && MapInstr(l, i).Some?
    ensures UsedSsa(MapInstr(l, i).value) <= l.ssa && UsedPhi(MapInstr(l, i).value) <= l.phi
  {
    var j := MapInstr(l, i).value;
    match i
    case PhiSrcs(srcs) =>
      forall k | 0 <= k < |j.srcs| ensures SrcIn(l, j.srcs[k].1) {
        PhiSrcsLeft(l, srcs, j.srcs[k]);
        var n :| 0 <= n < |srcs| && srcs[n] == j.srcs[k];
      }
    case PhiDsts(dsts) =>
      forall k | 0 <= k < |j.dsts| ensures j.dsts[k].0 in l.phi {
        PhiDstsLeft(l, dsts, j.dsts[k]);
        var n :| 0 <= n < |dsts| && dsts[n] == j.dsts[k];
      }
    case ParCopy(pairs) =>
      forall k | 0 <= k < |j.pairs| ensures SrcIn(l, j.pairs[k].1) {
        PairsLeft(l, pairs, j.pairs[k]);
        var n :| 0 <= n < |pairs| && pairs[n] == j.pairs[k];
      }
    case Op(_, _, _, _, _) =>
  }

  /** A definition of a marked value is left, unless its guard is constant false. */
  lemma {:induction false} MarkedStaysDefined(l: Live, i: Instr, x: Ssa)
    requires x in l.ssa && Defines(i, x)
    ensures MapInstr(l, i).Some? && Defines(MapInstr(l, i).value, x)
  {
    match i
    case PhiSrcs(_) =>
    case PhiDsts(dsts) =>
      var k :| 0 <= k < |dsts| && x in dsts[k].1;
      PhiDstsLeft(l, dsts, dsts[k]);
      var n :| 0 <= n < |LivePhiDsts(l, dsts)| && LivePhiDsts(l, dsts)[n] == dsts[k];
    case ParCopy(pairs) =>
      var k :| 0 <= k < |pairs| && x in pairs[k].0;
      PairsLeft(l, pairs, pairs[k]);
      var n :| 0 <= n < |LivePairs(l, pairs)| && LivePairs(l, pairs)[n] == pairs[k];
    case Op(_, _, _, outs, _) =>
      var k :| 0 <= k < |outs| && x in outs[k];
      assert IsDstLive(l, outs[k]);
  }

  /** Every use left after the pass still has each of its definitions. */
  lemma {:induction false} UsesKeepDefinitions(l: Live, f: Function, i: Instr, x: Ssa, d: Instr)
    requires Closed(l, Flat(f)) && i in Flat(f) && MapInstr(l, i).Some? && x in UsedSsa(MapInstr(l, i).value)
    requires d in Flat(f) && Defines(d, x)
    ensures MapInstr(l, d).Some? && Defines(MapInstr(l, d).value, x)
  {
    LeftUsesMarked(l, i);
    MarkedStaysDefined(l, d, x);
  }

  /** A phi destination that is left still has all its sources. */
  lemma {:induction false} PhisKeepSources(l: Live, f: Function, i: Instr, p: Phi, j: Instr, e: (Phi, Src))
    requires Closed(l, Flat(f)) && i in Flat(f) && MapInstr(l, i).Some? && p in UsedPhi(MapInstr(l, i).value)
    requires j in Flat(f) && j.PhiSrcs? && e in j.srcs && e.0 == p
    ensures MapInstr(l, j).Some? && e in MapInstr(l, j).value.srcs
  {
    LeftUsesMarked(l, i);
    PhiSrcsLeft(l, j.srcs, e);
  }
}
