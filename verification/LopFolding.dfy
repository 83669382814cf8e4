/**
 Folding of three-input logic operations into each other: duplicate and constant sources
 are removed and operations are substituted into the ones that use them.
 */
module LopFolding {
  import opened Basics
  import opened Words
  import opened Cfgs
  import opened LopTables
  import opened SsaRuns
  import opened TablePasses

  // ---- propagation ----

  type Lops = Table<LopEntry>

  /** Entries are well formed and look only at values known where theirs is defined. */
  ghost predicate TableOk(lops: Lops, at: Site) {
    forall v :: v in lops ==> EntryShape(lops[v]) && Behind(lops[v].srcs, at.Of(v)) && at.def(v).ip < at.width
  }

  /** The sources are known at the place. */
  ghost predicate Behind(srcs: Triple<Src>, at: Site) {
    forall i: nat :: i < 3 && srcs.At(i).Value? ==> at.Knows(srcs.At(i).v)
  }

  /** The entries of values whose definitions dominate the place hold. */
  ghost predicate TableAt(env: State, lops: Lops, at: Site) {
    forall v :: v in lops && Reaches(at.g, at.def(v), at.q) ==> EntryHolds(env, v, lops[v])
  }

  /** Every value among the sources has been counted. */
  ghost predicate Counted(srcs: Triple<Src>, counts: map<Ssa, nat>) {
    forall i: nat :: i < 3 && srcs.At(i).Value? ==> srcs.At(i).v in counts
  }

  ghost predicate TableCounted(lops: Lops, counts: map<Ssa, nat>) {
    forall v :: v in lops ==> Counted(lops[v].srcs, counts)
  }

  ghost function Ones(t: Triple<bool>): set<nat> {
    set i: nat | i < 3 && t.At(i)
  }

  function CountOnes(t: Triple<bool>): nat {
    (if t.x then 1 else 0) + (if t.y then 1 else 0) + (if t.z then 1 else 0)
  }

  ghost function OnesTo(t: Triple<bool>, n: nat): set<nat> {
    set i: nat | i < 3 && i < n && t.At(i)
  }

  lemma {:induction false} OnesNext(t: Triple<bool>, n: nat)
    requires n < 3
    ensures |OnesTo(t, n + 1)| == |OnesTo(t, n)| + if t.At(n) then 1 else 0
  {
    if t.At(n) {
      assert OnesTo(t, n + 1) == OnesTo(t, n) + {n};
    } else {
      assert OnesTo(t, n + 1) == OnesTo(t, n);
    }
  }

  lemma {:induction false} CountOnesIs(t: Triple<bool>)
    ensures CountOnes(t) == |Ones(t)|
  {
    OnesNext(t, 0);
    OnesNext(t, 1);
    OnesNext(t, 2);
    assert OnesTo(t, 0) == {} && OnesTo(t, 3) == Ones(t);
    assert t.At(0) == t.x && t.At(1) == t.y && t.At(2) == t.z;
  }

  ghost function Times(counts: map<Ssa, nat>, v: Ssa): nat {
    if v in counts then counts[v] else 0
  }

  /** Nothing more can be substituted for the source: no operation is recorded for it, or one with
      several sources for a value with several uses, or one with more new sources than there is
      room for. */
  ghost predicate Stuck(lops: Lops, counts: map<Ssa, nat>, srcs: Triple<Src>, idx: nat) {
    srcs.At(idx).Value? && srcs.At(idx).v in lops ==>
      var v := srcs.At(idx).v;
      || (|Ones(lops[v].used)| > 1 && Times(counts, v) > 1)
      || |Missing(lops[v], srcs, 3)| > |Room(srcs, idx, 3)|
  }

  /** The recorded operation has been substituted for the source, which was not stuck. */
  ghost predicate PropagatesOnce(lops: Lops, counts: map<Ssa, nat>, isPred: Ssa -> bool, idx: nat, ops: seq<Bits>,
                                 srcs: Triple<Src>, ops': seq<Bits>, srcs': Triple<Src>) {
    && srcs.At(idx).Value? && srcs.At(idx).v in lops && !Stuck(lops, counts, srcs, idx)
    && var v := srcs.At(idx).v;
       Substitutes(ops, srcs, lops[v], idx, if isPred(v) then True else Zero, ops', srcs')
  }

  ghost predicate PropagatesBy(lops: Lops, counts: map<Ssa, nat>, isPred: Ssa -> bool, idx: nat, ops: seq<Bits>,
                               srcs: Triple<Src>, ops': seq<Bits>, srcs': Triple<Src>, n: nat)
    decreases n
  {
    if n == 0 then ops' == ops && srcs' == srcs
    else exists o, s :: PropagatesBy(lops, counts, isPred, idx, ops, srcs, o, s, n - 1) &&
                        PropagatesOnce(lops, counts, isPred, idx, o, s, ops', srcs')
  }

  /** Substituted for one source, and for what replaces it, until stuck. */
  ghost predicate Propagated(lops: Lops, counts: map<Ssa, nat>, isPred: Ssa -> bool, idx: nat, ops: seq<Bits>,
                             srcs: Triple<Src>, ops': seq<Bits>, srcs': Triple<Src>) {
    && Stuck(lops, counts, srcs', idx)
    && exists n: nat :: PropagatesBy(lops, counts, isPred, idx, ops, srcs, ops', srcs', n)
  }

  /** For each of the first `n` sources, in order. */
  ghost predicate PropagatedTo(lops: Lops, counts: map<Ssa, nat>, isPred: Ssa -> bool, ops: seq<Bits>,
                               srcs: Triple<Src>, n: nat, ops': seq<Bits>, srcs': Triple<Src>)
    decreases n
  {
    if n == 0 then ops' == ops && srcs' == srcs
    else
      var m := n - 1;
      exists o, s :: PropagatedTo(lops, counts, isPred, ops, srcs, m, o, s) &&
                     Propagated(lops, counts, isPred, m, o, s, ops', srcs')
  }

  lemma {:induction false} CleanOne(ops: seq<Bits>, srcs: Triple<Src>, k: nat)
    requires Clean(ops, srcs, 3) && k < |ops|
    ensures Clean([ops[k]], srcs, 3)
  {
  }

  lemma {:induction false} PropagateClean(ops: seq<Bits>, srcs: Triple<Src>, e: LopEntry, slots: Slots, idx: nat,
                                          filler: Src)
    requires idx < 3 && EntryShape(e) && SlotsOk(e, srcs, idx, slots, 3) && Clean(ops, srcs, 3)
    ensures Clean(ComposedAll(ops, e, slots, idx), Written(srcs, e, slots, idx, filler), 3)
  {
    forall k, i: nat | 0 <= k < |ops| && i < 3 && SrcAsBool(Written(srcs, e, slots, idx, filler).At(i)).Some?
      ensures !SrcUsed(ComposedAll(ops, e, slots, idx)[k], i)
    {
      CleanOne(ops, srcs, k);
      ComposedClean(ops[k], e, srcs, slots, idx, filler, i);
    }
  }

  lemma {:induction false} PropagateSame(env: State, ops: seq<Bits>, srcs: Triple<Src>, v: Ssa, e: LopEntry,
                                         slots: Slots, idx: nat, filler: Src)
    requires idx < 3 && EntryShape(e) && SlotsOk(e, srcs, idx, slots, 3) && Clean(ops, srcs, 3)
    requires srcs.At(idx) == Value(v) && EntryHolds(env, v, e)
    ensures Same(env, ops, srcs, ComposedAll(ops, e, slots, idx), Written(srcs, e, slots, idx, filler))
  {
    forall k, lane: nat | 0 <= k < |ops| && lane < 32
      ensures Answer(env, ComposedAll(ops, e, slots, idx)[k], Written(srcs, e, slots, idx, filler), lane) == Answer(env,
          ops[k], srcs, lane)
    {
      CleanOne(ops, srcs, k);
      ComposedSame(env, ops[k], v, e, srcs, slots, idx, filler, lane);
    }
  }

  lemma {:induction false} WrittenFrom(srcs: Triple<Src>, e: LopEntry, slots: Slots, idx: nat, filler: Src, m: nat)
    requires SlotsOk(e, srcs, idx, slots, 3) && idx < 3 && m < 3
    ensures var r := Written(srcs, e, slots, idx, filler).At(m);
      (exists i: nat :: i < 3 && r == e.srcs.At(i)) || (m == idx && r == filler) || (m != idx && r == srcs.At(m))
  {
    if Assigned(slots, m) {
      var i: nat :| i < 3 && slots.At(i) == Some(m);
      assert SlotOk(e, srcs, idx, slots.At(i), i);
      WrittenSlot(srcs, e, slots, idx, filler, i);
    } else {
      WrittenOther(srcs, e, slots, idx, filler, m);
    }
  }

  /** How much further propagation into a source can go. */
  ghost function Depth(src: Src, at: Site): nat {
    if src.Value? then 1 + at.Rank(src.v) else 0
  }

  /** What replaces a source has a lower rank. */
  lemma {:induction false} WrittenEarlier(srcs: Triple<Src>, v: Ssa, e: LopEntry, slots: Slots, idx: nat, filler: Src,
                                          at: Site, counts: map<Ssa, nat>)
    requires SlotsOk(e, srcs, idx, slots, 3) && idx < 3 && !filler.Value? && srcs.At(idx) == Value(v)
    requires Behind(srcs, at) && Behind(e.srcs, at.Of(v)) && at.def(v).ip < at.width
    requires Counted(srcs, counts) && Counted(e.srcs, counts)
    ensures var r := Written(srcs, e, slots, idx, filler);
      Behind(r, at) && Counted(r, counts) && Depth(r.At(idx), at) < Depth(srcs.At(idx), at)
  {
    forall m: nat | m < 3 ensures var r := Written(srcs, e, slots, idx, filler).At(m);
      r.Value? ==> at.Knows(r.v) && r.v in counts && (m == idx ==> at.Rank(r.v) < at.Rank(v))
    {
      WrittenFrom(srcs, e, slots, idx, filler, m);
      var r := Written(srcs, e, slots, idx, filler).At(m);
      if i: nat :| i < 3 && r == e.srcs.At(i) && r.Value? {
        KnowsTrans(at, r.v, v);
        RankGrows(at, r.v, v);
      }
    }
  }

  /** The operations keep their results whenever the entries that dominate the place hold. */
  ghost predicate SameUnder(lops: Lops, at: Site, ops: seq<Bits>, srcs: Triple<Src>, ops': seq<Bits>,
                            srcs': Triple<Src>) {
    |ops'| == |ops| && forall env :: TableAt(env, lops, at) ==> Same(env, ops, srcs, ops', srcs')
  }

  lemma {:induction false} SameUnderTrans(lops: Lops, at: Site, o1: seq<Bits>, s1: Triple<Src>, o2: seq<Bits>,
                                          s2: Triple<Src>, o3: seq<Bits>, s3: Triple<Src>)
    requires SameUnder(lops, at, o1, s1, o2, s2) && SameUnder(lops, at, o2, s2, o3, s3)
    ensures SameUnder(lops, at, o1, s1, o3, s3)
  {
    forall env | TableAt(env, lops, at) ensures Same(env, o1, s1, o3, s3) {
      SameTrans(env, o1, s1, o2, s2, o3, s3);
    }
  }

  lemma {:induction false} PropagateUnder(lops: Lops, ops: seq<Bits>, srcs: Triple<Src>, v: Ssa, slots: Slots, idx: nat,
                                          filler: Src, at: Site)
    requires TableOk(lops, at) && v in lops && idx < 3 && SlotsOk(lops[v], srcs, idx, slots, 3) && Clean(ops, srcs, 3)
    requires srcs.At(idx) == Value(v) && Behind(srcs, at)
    ensures SameUnder(lops, at, ops, srcs, ComposedAll(ops, lops[v], slots, idx),
                      Written(srcs, lops[v], slots, idx, filler))
  {
    forall env | TableAt(env, lops, at)
      ensures Same(env, ops, srcs, ComposedAll(ops, lops[v], slots, idx), Written(srcs, lops[v], slots, idx, filler))
    {
      PropagateSame(env, ops, srcs, v, lops[v], slots, idx, filler);
    }
  }

  /** Everything the pass keeps about an operation it is working on. */
  ghost predicate Working(ops: seq<Bits>, srcs: Triple<Src>, at: Site, counts: map<Ssa, nat>) {
    Clean(ops, srcs, 3) && Behind(srcs, at) && Counted(srcs, counts)
  }

  /** How far the substitution for one source has come. */
  ghost predicate Propagating(lops: Lops, counts: map<Ssa, nat>, isPred: Ssa -> bool, at: Site, idx: nat,
                              ops: seq<Bits>, srcs: Triple<Src>, ops': seq<Bits>, srcs': Triple<Src>) {
    && Working(ops', srcs', at, counts) && SameUnder(lops, at, ops, srcs, ops', srcs')
    && exists n: nat :: PropagatesBy(lops, counts, isPred, idx, ops, srcs, ops', srcs', n)
  }

  lemma {:induction false} PropagatingStart(lops: Lops, counts: map<Ssa, nat>, isPred: Ssa -> bool, at: Site, idx: nat,
                                            ops: seq<Bits>, srcs: Triple<Src>)
    requires Working(ops, srcs, at, counts)
    ensures Propagating(lops, counts, isPred, at, idx, ops, srcs, ops, srcs)
  {
    assert PropagatesBy(lops, counts, isPred, idx, ops, srcs, ops, srcs, 0);
  }

  lemma {:induction false} PropagatingStep(lops: Lops, counts: map<Ssa, nat>, isPred: Ssa -> bool, at: Site, idx: nat,
                                           ops: seq<Bits>, srcs: Triple<Src>, o: seq<Bits>, s: Triple<Src>, v: Ssa,
                                           slots: Slots)
    requires idx < 3 && TableOk(lops, at) && TableCounted(lops, counts)
    requires Propagating(lops, counts, isPred, at, idx, ops, srcs, o, s) && !Stuck(lops, counts, s, idx)
    requires v in lops && s.At(idx) == Value(v) && SlotsOk(lops[v], s, idx, slots, 3)
    ensures var filler := if isPred(v) then True else Zero;
      var o', s' := ComposedAll(o, lops[v], slots, idx), Written(s, lops[v], slots, idx, filler);
      Propagating(lops, counts, isPred, at, idx, ops, srcs, o', s') && Depth(s'.At(idx), at) < Depth(s.At(idx), at)
  {
    var filler := if isPred(v) then True else Zero;
    var o', s' := ComposedAll(o, lops[v], slots, idx), Written(s, lops[v], slots, idx, filler);
    PropagateClean(o, s, lops[v], slots, idx, filler);
    PropagateUnder(lops, o, s, v, slots, idx, filler, at);
    WrittenEarlier(s, v, lops[v], slots, idx, filler, at, counts);
    SameUnderTrans(lops, at, ops, srcs, o, s, o', s');
    SubstitutionIs(o, s, lops[v], slots, idx, filler);
    assert PropagatesOnce(lops, counts, isPred, idx, o, s, o', s');
    var n: nat :| PropagatesBy(lops, counts, isPred, idx, ops, srcs, o, s, n);
    PropagatesMore(lops, counts, isPred, idx, ops, srcs, o, s, o', s', n);
  }

  lemma {:induction false} PropagatesMore(lops: Lops, counts: map<Ssa, nat>, isPred: Ssa -> bool, idx: nat,
                                          ops: seq<Bits>, srcs: Triple<Src>, o: seq<Bits>, s: Triple<Src>,
                                          ops': seq<Bits>, srcs': Triple<Src>, n: nat)
    requires PropagatesBy(lops, counts, isPred, idx, ops, srcs, o, s, n)
    requires PropagatesOnce(lops, counts, isPred, idx, o, s, ops', srcs')
    ensures PropagatesBy(lops, counts, isPred, idx, ops, srcs, ops', srcs', n + 1)
  {
  }

  /** Substitutes the definition of a source, and of what replaces it, as often as there is room. */
  method TryPropToSrc(lops: Lops, counts: map<Ssa, nat>, isPred: Ssa -> bool, ops: seq<Bits>, srcs: Triple<Src>,
                      idx: nat, ghost at: Site)
    returns (ops': seq<Bits>, srcs': Triple<Src>)
    requires idx < 3 && TableOk(lops, at) && TableCounted(lops, counts) && Working(ops, srcs, at, counts)
    ensures Working(ops', srcs', at, counts) && SameUnder(lops, at, ops, srcs, ops', srcs')
    ensures Propagated(lops, counts, isPred, idx, ops, srcs, ops', srcs')
  {
    ops', srcs' := ops, srcs;
    PropagatingStart(lops, counts, isPred, at, idx, ops, srcs);
    while true
      invariant Propagating(lops, counts, isPred, at, idx, ops, srcs, ops', srcs')
      decreases Depth(srcs'.At(idx), at)
    {
      if !srcs'.At(idx).Value? || srcs'.At(idx).v !in lops {
        return;
      }
      var v := srcs'.At(idx).v;
      var e := lops[v];
      CountOnesIs(e.used);
      if CountOnes(e.used) > 1 && counts[v] > 1 {
        return;
      }
      var slots := AssignSlots(e, srcs', idx);
      if slots.None? {
        return;
      }
      var filler := if isPred(v) then True else Zero;
      PropagatingStep(lops, counts, isPred, at, idx, ops, srcs, ops', srcs', v, slots.value);
      ops', srcs' := ComposedAll(ops', e, slots.value, idx), Written(srcs', e, slots.value, idx, filler);
    }
  }

  // ---- instructions ----

  /** `PLop3` computes two results from one set of sources, each possibly negated; the pass does
      not look into other instructions. */
  datatype Instr =
    | Lop3(dst: Option<Ssa>, op: Bits, srcs: Triple<Src>)
    | PLop3(dsts: (Option<Ssa>, Option<Ssa>), ops: (Bits, Bits), srcs: Triple<Src>, nots: Triple<bool>)
    | Other(defs: seq<Option<Ssa>>, uses: seq<Ssa>)

  ghost function Dsts(i: Instr): seq<Option<Ssa>> {
    match i
    case Lop3(v, _, _) => [v]
    case PLop3(vs, _, _, _) => [vs.0, vs.1]
    case Other(vs, _) => vs
  }

  ghost function Negated(s: Triple<bool>, nots: Triple<bool>): Triple<bool> {
    Triple(s.x != nots.x, s.y != nots.y, s.z != nots.z)
  }

  const PLAIN := Triple(false, false, false)

  /** One lane of what a logic operation gives its destination `k`. */
  ghost predicate Gives(env: State, i: Instr, k: nat, lane: nat) {
    match i
    case Lop3(_, op, srcs) => Answer(env, op, srcs, lane)
    case PLop3(_, ops, srcs, nots) => Look(if k == 0 then ops.0 else ops.1, Negated(Lanes(env, srcs, lane), nots))
    case Other(_, _) => false
  }

  lemma {:induction false} PlainGives(env: State, i: Instr, k: nat, lane: nat)
    requires i.PLop3? && i.nots == PLAIN
    ensures Gives(env, i, k, lane) == Answer(env, if k == 0 then i.ops.0 else i.ops.1, i.srcs, lane)
  {
    assert Negated(Lanes(env, i.srcs, lane), PLAIN) == Lanes(env, i.srcs, lane);
  }

  ghost function Sources(srcs: Triple<Src>): set<Ssa> {
    set i: nat | i < 3 && srcs.At(i).Value? :: srcs.At(i).v
  }

  ghost function Reads(i: Instr): set<Ssa> {
    if i.Other? then {} else Sources(i.srcs)
  }

  ghost predicate IsOther(i: Instr) {
    i.Other?
  }

  /** How strict form sees logic operations. */
  ghost function Form(): Shape<Instr> {
    Shape(Dsts, IsOther, Reads)
  }

  ghost predicate InstrOk(i: Instr, at: Site, counts: map<Ssa, nat>) {
    Strict(Form(), i, at) && at.q.ip < at.width && (!i.Other? ==> Behind(i.srcs, at) && Counted(i.srcs, counts))
  }

  /** Records an operation; none of the sources it uses is constant. */
  method AddLop(lops: Lops, v: Ssa, op: Bits, srcs: Triple<Src>) returns (lops': Lops)
    requires Clean([op], srcs, 3)
    ensures lops'.Keys == lops.Keys + {v} && EntryShape(lops'[v]) && lops'[v].op == op && lops'[v].srcs == srcs
    ensures forall x :: x in lops && x != v ==> lops'[x] == lops[x]
  {
    var used := PLAIN;
    for i := 0 to 3
      invariant forall k: nat :: k < i ==> used.At(k) == SrcUsed(op, k)
    {
      if SrcUsed(op, i) {
        assert SrcAsBool(srcs.At(i)).None? by { assert [op][0] == op; }
        used := used.With(i, true);
      } else {
        used := used.With(i, false);
      }
    }
    forall i: nat | i < 3 && SrcUsed(op, i) ensures SrcAsBool(srcs.At(i)).None? { assert [op][0] == op; }
    lops' := lops[v := LopEntry(op, used, srcs)];
  }

  ghost predicate PassOk(lops: Lops, at: Site, counts: map<Ssa, nat>) {
    TableOk(lops, at) && TableCounted(lops, counts)
  }

  /** The entry of `v` is what the instruction computes. */
  ghost predicate Records(e: LopEntry, v: Ssa, i: Instr) {
    && Some(v) in Dsts(i)
    && forall env, k: nat, lane: nat {:trigger Gives(env, i, k, lane)} ::
         k < |Dsts(i)| && Dsts(i)[k] == Some(v) ==> Gives(env, i, k, lane) == Answer(env, e.op, e.srcs, lane)
  }

  /** The table has grown by the entries of the instruction's destinations. */
  ghost predicate Adds(lops: Lops, lops': Lops, i: Instr) {
    Extends(lops, lops') && forall v :: v in lops' && v !in lops ==> Records(lops'[v], v, i)
  }

  /** Rewriting the instruction does not change its results where the entries that dominate it hold. */
  ghost predicate SameInstr(lops: Lops, at: Site, i: Instr, i': Instr) {
    forall env, k: nat, lane: nat {:trigger Gives(env, i', k, lane)} ::
      TableAt(env, lops, at) && k < |Dsts(i)| && lane < 32 ==> Gives(env, i', k, lane) == Gives(env, i, k, lane)
  }

  /** Propagates into all three sources. */
  method TryPropToSrcs(lops: Lops, counts: map<Ssa, nat>, isPred: Ssa -> bool, ops: seq<Bits>, srcs: Triple<Src>,
                       ghost at: Site)
    returns (ops': seq<Bits>, srcs': Triple<Src>)
    requires PassOk(lops, at, counts) && Working(ops, srcs, at, counts)
    ensures Working(ops', srcs', at, counts) && SameUnder(lops, at, ops, srcs, ops', srcs')
    ensures PropagatedTo(lops, counts, isPred, ops, srcs, 3, ops', srcs')
  {
    ops', srcs' := ops, srcs;
    for i := 0 to 3
      invariant Working(ops', srcs', at, counts) && SameUnder(lops, at, ops, srcs, ops', srcs')
      invariant PropagatedTo(lops, counts, isPred, ops, srcs, i, ops', srcs')
    {
      ghost var o, s := ops', srcs';
      ops', srcs' := TryPropToSrc(lops, counts, isPred, ops', srcs', i, at);
      SameUnderTrans(lops, at, ops, srcs, o, s, ops', srcs');
    }
  }

  /** From the tables after merging, the sources have been cleaned and definitions substituted. */
  ghost predicate FoldedFrom(lops: Lops, counts: map<Ssa, nat>, isPred: Ssa -> bool, ops: seq<Bits>, srcs: Triple<Src>,
                             filler: Src, ops': seq<Bits>, srcs': Triple<Src>) {
    exists o, s :: Cleaned(ops, srcs, filler, 3, o, s) && PropagatedTo(lops, counts, isPred, o, s, 3, ops', srcs')
  }

  /** The table answers what `op` does with sources negated and only the first of equal ones. */
  ghost predicate MergedSources(op: Bits, srcs: Triple<Src>, nots: Triple<bool>, op': Bits) {
    forall s: Triple<bool> :: Look(op', s) == Look(op, Negated(FirstEqual(srcs, s), nots))
  }

  /** What the pass makes of an instruction, given what is recorded before it. */
  ghost predicate FoldedInstr(lops: Lops, counts: map<Ssa, nat>, isPred: Ssa -> bool, i: Instr, i': Instr) {
    match i
    case Lop3(v, op, srcs) => i'.Lop3? && i'.dst == v &&
      exists d :: MergedSources(op, srcs, PLAIN, d) &&
                  FoldedFrom(lops, counts, isPred, [d], srcs, Zero, [i'.op], i'.srcs)
    case PLop3(vs, ops, srcs, nots) => i'.PLop3? && i'.dsts == vs && i'.nots == PLAIN &&
      exists d0, d1 :: MergedSources(ops.0, srcs, nots, d0) && MergedSources(ops.1, srcs, nots, d1) &&
                       FoldedFrom(lops, counts, isPred, [d0, d1], srcs, True, [i'.ops.0, i'.ops.1], i'.srcs)
    case Other(_, _) => i' == i
  }

  /** The entry of a destination of the instruction: its sources, and the table of that destination. */
  ghost predicate EntryOf(e: LopEntry, i: Instr, v: Ssa) {
    && EntryShape(e) && !i.Other? && Some(v) in Dsts(i) && e.srcs == i.srcs
    && e.op == if i.Lop3? then i.op else if i.dsts.0 == Some(v) then i.ops.0 else i.ops.1
  }

  /** How the pass folds. */
  ghost function Folds(counts: map<Ssa, nat>, isPred: Ssa -> bool): Folding<Instr, LopEntry> {
    Folding(Form(), EntryOf, (lops: Lops, i: Instr, i': Instr) => FoldedInstr(lops, counts, isPred, i, i'))
  }

  ghost function DstSet(v: Option<Ssa>): set<Ssa> {
    if v.Some? then {v.value} else {}
  }

  ghost predicate Added(lops: Lops, v: Ssa, op: Bits, srcs: Triple<Src>) {
    v in lops && lops[v].op == op && lops[v].srcs == srcs && EntryShape(lops[v])
  }

  method AddIfDst(lops: Lops, v: Option<Ssa>, op: Bits, srcs: Triple<Src>, counts: map<Ssa, nat>, ghost at: Site)
    returns (lops': Lops)
    requires PassOk(lops, at, counts) && Clean([op], srcs, 3) && Behind(srcs, at) && Counted(srcs, counts)
    requires v.Some? ==> at.def(v.value) == at.q && at.q.ip < at.width && v.value !in lops
    ensures PassOk(lops', at, counts) && lops'.Keys == lops.Keys + DstSet(v) && Extends(lops, lops')
    ensures v.Some? ==> Added(lops', v.value, op, srcs)
  {
    lops' := lops;
    if v.Some? {
      lops' := AddLop(lops, v.value, op, srcs);
    }
  }

  lemma {:induction false} Lop3Folded(lops: Lops, counts: map<Ssa, nat>, isPred: Ssa -> bool, at: Site, i: Instr,
                                      d: Bits, i': Instr)
    requires i.Lop3? && i'.Lop3? && i'.dst == i.dst && Deduplicated(i.op, i.srcs, d)
    requires FoldedFrom(lops, counts, isPred, [d], i.srcs, Zero, [i'.op], i'.srcs)
    requires SameUnder(lops, at, [d], i.srcs, [i'.op], i'.srcs)
    ensures FoldedInstr(lops, counts, isPred, i, i') && SameInstr(lops, at, i, i')
  {
    forall s: Triple<bool> ensures Look(d, s) == Look(i.op, Negated(FirstEqual(i.srcs, s), PLAIN)) {
      assert Negated(FirstEqual(i.srcs, s), PLAIN) == FirstEqual(i.srcs, s);
    }
    assert MergedSources(i.op, i.srcs, PLAIN, d);
    DedupSame(i.op, i.srcs, d);
    forall env, k: nat, lane: nat | TableAt(env, lops, at) && k < |Dsts(i)| && lane < 32
      ensures Gives(env, i', k, lane) == Gives(env, i, k, lane)
    {
      assert Answer(env, [i'.op][0], i'.srcs, lane) == Answer(env, [d][0], i.srcs, lane);
    }
  }

  /** Cleans the sources and propagates into them. */
  method FoldSources(lops: Lops, counts: map<Ssa, nat>, isPred: Ssa -> bool, ops: seq<Bits>, srcs: Triple<Src>,
                     filler: Src, ghost at: Site)
    returns (ops': seq<Bits>, srcs': Triple<Src>)
    requires PassOk(lops, at, counts) && Behind(srcs, at) && Counted(srcs, counts) && SrcAsBool(filler).Some?
    ensures Working(ops', srcs', at, counts) && SameUnder(lops, at, ops, srcs, ops', srcs')
    ensures FoldedFrom(lops, counts, isPred, ops, srcs, filler, ops', srcs')
  {
    ops', srcs' := CleanSrcs(ops, srcs, filler);
    ghost var o, s := ops', srcs';
    ops', srcs' := TryPropToSrcs(lops, counts, isPred, ops', srcs', at);
    SameUnderTrans(lops, at, ops, srcs, o, s, ops', srcs');
  }

  method RewriteLop3(lops: Lops, counts: map<Ssa, nat>, isPred: Ssa -> bool, i: Instr, ghost at: Site)
    returns (i': Instr)
    requires i.Lop3? && PassOk(lops, at, counts) && InstrOk(i, at, counts)
    ensures FoldedInstr(lops, counts, isPred, i, i') && SameInstr(lops, at, i, i')
    ensures i'.Lop3? && i'.dst == i.dst && Working([i'.op], i'.srcs, at, counts)
  {
    var op := DedupSrcs(i.op, i.srcs);
    var ops, srcs := FoldSources(lops, counts, isPred, [op], i.srcs, Zero, at);
    i' := Lop3(i.dst, ops[0], srcs);
    assert ops == [ops[0]];
    Lop3Folded(lops, counts, isPred, at, i, op, i');
  }

  method OptLop3(lops: Lops, counts: map<Ssa, nat>, isPred: Ssa -> bool, i: Instr, ghost at: Site)
    returns (i': Instr, lops': Lops)
    requires i.Lop3? && PassOk(lops, at, counts) && Passed(lops, at) && InstrOk(i, at, counts)
    ensures FoldedInstr(lops, counts, isPred, i, i') && TableGrows(Folds(counts, isPred), lops, lops', i')
    ensures SameInstr(lops, at, i, i') && PassOk(lops', at, counts)
  {
    i' := RewriteLop3(lops, counts, isPred, i, at);
    DstPlaced(i, at);
    lops' := AddIfDst(lops, i.dst, i'.op, i'.srcs, counts, at);
    Lop3Grows(lops, counts, isPred, i', lops');
  }

  lemma {:induction false} Lop3Grows(lops: Lops, counts: map<Ssa, nat>, isPred: Ssa -> bool, i: Instr, lops': Lops)
    requires i.Lop3? && lops'.Keys == lops.Keys + DstSet(i.dst) && Extends(lops, lops')
    requires i.dst.Some? ==> Added(lops', i.dst.value, i.op, i.srcs)
    ensures TableGrows(Folds(counts, isPred), lops, lops', i)
  {
    assert Dsts(i) == [i.dst];
    assert i.dst in Dsts(i);
  }

  lemma {:induction false} DstPlaced(i: Instr, at: Site)
    requires i.Lop3? && Strict(Form(), i, at)
    ensures i.dst.Some? ==> at.def(i.dst.value) == at.q
  {
    assert Dsts(i)[0] == i.dst;
  }

  // ---- negated sources ----

  function InvertIf(op: Bits, i: nat, neg: bool): Bits {
    if neg then InvertSrc(op, i) else op
  }

  /** Moves the negations of the sources into the table. */
  function Unnegated(op: Bits, nots: Triple<bool>): Bits {
    InvertIf(InvertIf(InvertIf(op, 0, nots.x), 1, nots.y), 2, nots.z)
  }

  lemma {:induction false} InvertIfIs(op: Bits, i: nat, neg: bool, s: Triple<bool>)
    requires i < 3
    ensures Look(InvertIf(op, i, neg), s) == Look(op, s.With(i, s.At(i) != neg))
  {
    if neg { InvertIs(op, i, s); }
    assert s == s.With(i, s.At(i));
  }

  lemma {:induction false} UnnegatedIs(op: Bits, nots: Triple<bool>, s: Triple<bool>)
    ensures Look(Unnegated(op, nots), s) == Look(op, Negated(s, nots))
  {
    var o1 := InvertIf(op, 0, nots.x);
    var o2 := InvertIf(o1, 1, nots.y);
    InvertIfIs(o2, 2, nots.z, s);
    var s2 := s.With(2, s.z != nots.z);
    InvertIfIs(o1, 1, nots.y, s2);
    var s1 := s2.With(1, s.y != nots.y);
    InvertIfIs(op, 0, nots.x, s1);
    assert s1.With(0, s.x != nots.x) == Negated(s, nots);
  }

  lemma {:induction false} UnnegatedMerged(op: Bits, srcs: Triple<Src>, nots: Triple<bool>, d: Bits)
    requires Deduplicated(Unnegated(op, nots), srcs, d)
    ensures MergedSources(op, srcs, nots, d)
  {
    forall s: Triple<bool> ensures Look(d, s) == Look(op, Negated(FirstEqual(srcs, s), nots)) {
      UnnegatedIs(op, nots, FirstEqual(srcs, s));
    }
  }

  lemma {:induction false} PLop3Folded(lops: Lops, counts: map<Ssa, nat>, isPred: Ssa -> bool, at: Site, i: Instr,
                                       d: (Bits, Bits), i': Instr)
    requires i.PLop3? && i'.PLop3? && i'.dsts == i.dsts && i'.nots == PLAIN
    requires Deduplicated(Unnegated(i.ops.0, i.nots), i.srcs, d.0)
    requires Deduplicated(Unnegated(i.ops.1, i.nots), i.srcs, d.1)
    requires FoldedFrom(lops, counts, isPred, [d.0, d.1], i.srcs, True, [i'.ops.0, i'.ops.1], i'.srcs)
    requires SameUnder(lops, at, [d.0, d.1], i.srcs, [i'.ops.0, i'.ops.1], i'.srcs)
    ensures FoldedInstr(lops, counts, isPred, i, i') && SameInstr(lops, at, i, i')
  {
    UnnegatedMerged(i.ops.0, i.srcs, i.nots, d.0);
    UnnegatedMerged(i.ops.1, i.srcs, i.nots, d.1);
    forall env, k: nat, lane: nat | TableAt(env, lops, at) && k < |Dsts(i)| && lane < 32
      ensures Gives(env, i', k, lane) == Gives(env, i, k, lane)
    {
      PlopSame(env, i, d, i', k, lane);
    }
  }

  lemma {:induction false} PlopSame(env: State, i: Instr, d: (Bits, Bits), i': Instr, k: nat, lane: nat)
    requires i.PLop3? && i'.PLop3? && i'.nots == PLAIN && k < 2 && lane < 32
    requires Deduplicated(Unnegated(i.ops.0, i.nots), i.srcs, d.0)
    requires Deduplicated(Unnegated(i.ops.1, i.nots), i.srcs, d.1)
    requires Same(env, [d.0, d.1], i.srcs, [i'.ops.0, i'.ops.1], i'.srcs)
    ensures Gives(env, i', k, lane) == Gives(env, i, k, lane)
  {
    PlainGives(env, i', k, lane);
    var op, e := if k == 0 then i.ops.0 else i.ops.1, if k == 0 then d.0 else d.1;
    UnnegatedIs(op, i.nots, Lanes(env, i.srcs, lane));
    DedupSame(Unnegated(op, i.nots), i.srcs, e);
    assert Answer(env, [i'.ops.0, i'.ops.1][k], i'.srcs, lane) == Answer(env, [d.0, d.1][k], i.srcs, lane);
  }

  method RewritePLop3(lops: Lops, counts: map<Ssa, nat>, isPred: Ssa -> bool, i: Instr, ghost at: Site)
    returns (i': Instr)
    requires i.PLop3? && PassOk(lops, at, counts) && InstrOk(i, at, counts)
    ensures FoldedInstr(lops, counts, isPred, i, i') && SameInstr(lops, at, i, i')
    ensures i'.PLop3? && i'.dsts == i.dsts && i'.nots == PLAIN
    ensures Working([i'.ops.0, i'.ops.1], i'.srcs, at, counts)
  {
    var op0 := DedupSrcs(Unnegated(i.ops.0, i.nots), i.srcs);
    var op1 := DedupSrcs(Unnegated(i.ops.1, i.nots), i.srcs);
    var ops, srcs := FoldSources(lops, counts, isPred, [op0, op1], i.srcs, True, at);
    i' := PLop3(i.dsts, (ops[0], ops[1]), srcs, PLAIN);
    assert ops == [ops[0], ops[1]];
    PLop3Folded(lops, counts, isPred, at, i, (op0, op1), i');
  }

  method OptPLop3(lops: Lops, counts: map<Ssa, nat>, isPred: Ssa -> bool, i: Instr, ghost at: Site)
    returns (i': Instr, lops': Lops)
    requires i.PLop3? && PassOk(lops, at, counts) && Passed(lops, at) && InstrOk(i, at, counts)
    ensures FoldedInstr(lops, counts, isPred, i, i') && TableGrows(Folds(counts, isPred), lops, lops', i')
    ensures SameInstr(lops, at, i, i') && PassOk(lops', at, counts)
  {
    i' := RewritePLop3(lops, counts, isPred, i, at);
    DstsPlaced(i, at);
    lops' := AddBoth(lops, i', counts, at);
    PLop3Grows(lops, counts, isPred, i', lops');
  }

  method AddBoth(lops: Lops, i: Instr, counts: map<Ssa, nat>, ghost at: Site) returns (lops': Lops)
    requires i.PLop3? && PassOk(lops, at, counts) && Working([i.ops.0, i.ops.1], i.srcs, at, counts)
    requires Passed(lops, at) && at.q.ip < at.width && (i.dsts.0.Some? ==> i.dsts.0 != i.dsts.1)
    requires forall k: nat :: k < 2 && Dsts(i)[k].Some? ==> at.def(Dsts(i)[k].value) == at.q
    ensures PassOk(lops', at, counts) && BothAdded(lops, i, lops')
  {
    CleanOne([i.ops.0, i.ops.1], i.srcs, 0);
    CleanOne([i.ops.0, i.ops.1], i.srcs, 1);
    assert Dsts(i)[0] == i.dsts.0 && Dsts(i)[1] == i.dsts.1;
    var first := AddIfDst(lops, i.dsts.0, i.ops.0, i.srcs, counts, at);
    lops' := AddIfDst(first, i.dsts.1, i.ops.1, i.srcs, counts, at);
  }

  ghost predicate BothAdded(lops: Lops, i: Instr, lops': Lops)
    requires i.PLop3?
  {
    && Extends(lops, lops') && lops'.Keys == lops.Keys + DstSet(i.dsts.0) + DstSet(i.dsts.1)
    && (i.dsts.0.Some? ==> Added(lops', i.dsts.0.value, i.ops.0, i.srcs))
    && (i.dsts.1.Some? ==> Added(lops', i.dsts.1.value, i.ops.1, i.srcs))
  }

  lemma {:induction false} PLop3Grows(lops: Lops, counts: map<Ssa, nat>, isPred: Ssa -> bool, i: Instr, lops': Lops)
    requires i.PLop3? && BothAdded(lops, i, lops') && (i.dsts.0.Some? ==> i.dsts.0 != i.dsts.1)
    ensures TableGrows(Folds(counts, isPred), lops, lops', i)
  {
    assert Dsts(i) == [i.dsts.0, i.dsts.1];
    assert i.dsts.0 in Dsts(i) && i.dsts.1 in Dsts(i);
  }

  lemma {:induction false} DstsPlaced(i: Instr, at: Site)
    requires i.PLop3? && Strict(Form(), i, at)
    ensures i.dsts.0.Some? ==> at.def(i.dsts.0.value) == at.q
    ensures i.dsts.1.Some? ==> at.def(i.dsts.1.value) == at.q
    ensures i.dsts.0.Some? ==> i.dsts.0 != i.dsts.1
  {
    assert Dsts(i)[0] == i.dsts.0 && Dsts(i)[1] == i.dsts.1;
  }

  lemma {:induction false} PlopRecords(e: LopEntry, v: Ssa, i: Instr, k: nat)
    requires i.PLop3? && i.nots == PLAIN && k < 2 && e.srcs == i.srcs && e.op == (if k == 0 then i.ops.0 else i.ops.1)
    requires Dsts(i)[k] == Some(v) && Dsts(i)[1 - k] != Some(v)
    ensures Records(e, v, i)
  {
    forall env, j: nat, lane: nat | j < |Dsts(i)| && Dsts(i)[j] == Some(v)
      ensures Gives(env, i, j, lane) == Answer(env, e.op, e.srcs, lane)
    {
      PlainGives(env, i, j, lane);
    }
  }

  lemma {:induction false} EntryRecords(e: LopEntry, i: Instr, v: Ssa)
    requires EntryOf(e, i, v) && (i.PLop3? ==> i.nots == PLAIN && (i.dsts.0.Some? ==> i.dsts.0 != i.dsts.1))
    ensures Records(e, v, i)
  {
    if i.PLop3? {
      PlopRecords(e, v, i, if i.dsts.0 == Some(v) then 0 else 1);
    }
  }

  lemma {:induction false} EntriesRecord(lops: Lops, lops': Lops, counts: map<Ssa, nat>, isPred: Ssa -> bool, i: Instr)
    requires TableGrows(Folds(counts, isPred), lops, lops', i)
    requires i.PLop3? ==> i.nots == PLAIN && (i.dsts.0.Some? ==> i.dsts.0 != i.dsts.1)
    ensures Adds(lops, lops', i)
  {
    forall v | v in lops' && v !in lops ensures Records(lops'[v], v, i) {
      EntryRecords(lops'[v], i, v);
    }
  }

  // ---- use counts ----

  function Uses(i: Instr): seq<Ssa> {
    match i
    case Other(_, us) => us
    case _ => ValueOf(i.srcs.x) + ValueOf(i.srcs.y) + ValueOf(i.srcs.z)
  }

  function ValueOf(s: Src): seq<Ssa> {
    if s.Value? then [s.v] else []
  }

  /** How often each value is used. */
  function Count(counts: map<Ssa, nat>, us: seq<Ssa>): (r: map<Ssa, nat>)
    ensures forall v :: v in r <==> v in counts || v in us
    decreases |us|
  {
    if us == [] then counts
    else Count(counts[us[0] := if us[0] in counts then counts[us[0]] + 1 else 1], us[1..])
  }

  /** How many operands of the instruction are the value. */
  ghost function UsesOf(i: Instr, v: Ssa): nat {
    if i.Other? then multiset(i.uses)[v] else |set k: nat | k < 3 && i.srcs.At(k) == Value(v)|
  }

  ghost function UsesInBlock(code: seq<Instr>, v: Ssa): nat {
    if code == [] then 0 else UsesInBlock(code[..|code| - 1], v) + UsesOf(code[|code| - 1], v)
  }

  ghost function UsesInFunction(f: seq<seq<Instr>>, v: Ssa): nat {
    if f == [] then 0 else UsesInFunction(f[..|f| - 1], v) + UsesInBlock(f[|f| - 1], v)
  }

  lemma {:induction false} CountAdds(counts: map<Ssa, nat>, us: seq<Ssa>, v: Ssa)
    ensures Times(Count(counts, us), v) == Times(counts, v) + multiset(us)[v]
    decreases |us|
  {
    if us != [] {
      CountAdds(counts[us[0] := if us[0] in counts then counts[us[0]] + 1 else 1], us[1..], v);
      assert us == [us[0]] + us[1..];
    }
  }

  lemma {:induction false} UsesAre(i: Instr, v: Ssa)
    ensures multiset(Uses(i))[v] == UsesOf(i, v)
  {
    if !i.Other? {
      var a, b, c := ValueOf(i.srcs.x), ValueOf(i.srcs.y), ValueOf(i.srcs.z);
      assert multiset(a + b + c) == multiset(a) + multiset(b) + multiset(c);
      SourcesAre(i.srcs, v);
      ValueTimes(i.srcs.x, v);
      ValueTimes(i.srcs.y, v);
      ValueTimes(i.srcs.z, v);
    }
  }

  lemma {:induction false} SourcesAre(srcs: Triple<Src>, v: Ssa)
    ensures |set k: nat | k < 3 && srcs.At(k) == Value(v)| ==
      CountOnes(Triple(srcs.x == Value(v), srcs.y == Value(v), srcs.z == Value(v)))
  {
    var t := Triple(srcs.x == Value(v), srcs.y == Value(v), srcs.z == Value(v));
    CountOnesIs(t);
    forall k: nat | k < 3 ensures t.At(k) <==> srcs.At(k) == Value(v) {}
    assert Ones(t) == set k: nat | k < 3 && srcs.At(k) == Value(v);
  }

  lemma {:induction false} ValueTimes(s: Src, v: Ssa)
    ensures multiset(ValueOf(s))[v] == if s == Value(v) then 1 else 0
  {
  }

  lemma {:induction false} InstrAdds(counts: map<Ssa, nat>, i: Instr)
    ensures forall v :: Times(CountInstr(counts, i), v) == Times(counts, v) + UsesOf(i, v)
  {
    forall v ensures Times(CountInstr(counts, i), v) == Times(counts, v) + UsesOf(i, v) {
      CountAdds(counts, Uses(i), v);
      UsesAre(i, v);
    }
  }

  ghost predicate UsesIn(i: Instr, counts: map<Ssa, nat>) {
    forall v :: v in Uses(i) ==> v in counts
  }

  /** The uses of the first `n` instructions have been counted. */
  ghost predicate AllCounted(code: seq<Instr>, counts: map<Ssa, nat>, n: nat) {
    forall k: nat :: k < n && k < |code| ==> UsesIn(code[k], counts)
  }

  function CountInstr(counts: map<Ssa, nat>, i: Instr): (r: map<Ssa, nat>)
    ensures UsesIn(i, r) && Counts(counts, r)
  {
    Count(counts, Uses(i))
  }

  /** Everything counted stays counted. */
  ghost predicate Counts(counts: map<Ssa, nat>, counts': map<Ssa, nat>) {
    forall v :: v in counts ==> v in counts'
  }

  lemma {:induction false} CountedStay(code: seq<Instr>, counts: map<Ssa, nat>, counts': map<Ssa, nat>, n: nat)
    requires AllCounted(code, counts, n) && Counts(counts, counts')
    ensures AllCounted(code, counts', n)
  {
    forall k: nat | k < n && k < |code| ensures UsesIn(code[k], counts') {
      assert UsesIn(code[k], counts);
    }
  }

  lemma {:induction false} CountedMore(code: seq<Instr>, counts: map<Ssa, nat>, n: nat)
    requires n < |code| && AllCounted(code, counts, n) && UsesIn(code[n], counts)
    ensures AllCounted(code, counts, n + 1)
  {
  }

  method CountBlock(code: seq<Instr>, before: map<Ssa, nat>) returns (counts: map<Ssa, nat>)
    ensures AllCounted(code, counts, |code|) && Counts(before, counts)
    ensures forall v :: Times(counts, v) == Times(before, v) + UsesInBlock(code, v)
  {
    counts := before;
    for k := 0 to |code|
      invariant AllCounted(code, counts, k) && Counts(before, counts)
      invariant forall v :: Times(counts, v) == Times(before, v) + UsesInBlock(code[..k], v)
    {
      var next := CountInstr(counts, code[k]);
      InstrAdds(counts, code[k]);
      assert code[..k + 1][..k] == code[..k];
      CountedStay(code, counts, next, k);
      CountedMore(code, next, k);
      counts := next;
    }
    assert code[..|code|] == code;
  }

  /** The number of uses of every value in the whole function. */
  method UseCounts(f: seq<seq<Instr>>) returns (counts: map<Ssa, nat>)
    ensures forall b :: 0 <= b < |f| ==> AllCounted(f[b], counts, |f[b]|)
    ensures forall v :: Times(counts, v) == UsesInFunction(f, v)
  {
    counts := map[];
    for b := 0 to |f|
      invariant forall c :: 0 <= c < b ==> AllCounted(f[c], counts, |f[c]|)
      invariant forall v :: Times(counts, v) == UsesInFunction(f[..b], v)
    {
      assert f[..b + 1][..b] == f[..b];
      var next := CountBlock(f[b], counts);
      forall c | 0 <= c < b ensures AllCounted(f[c], next, |f[c]|) {
        CountedStay(f[c], counts, next, |f[c]|);
      }
      counts := next;
    }
    assert f[..|f|] == f;
  }

  lemma {:induction false} UsesCounted(i: Instr, at: Site, counts: map<Ssa, nat>)
    requires Strict(Form(), i, at) && at.q.ip < at.width && UsesIn(i, counts)
    ensures InstrOk(i, at, counts)
  {
    if !i.Other? {
      forall k: nat | k < 3 && i.srcs.At(k).Value? ensures i.srcs.At(k).v in counts && at.Knows(i.srcs.At(k).v) {
        assert i.srcs.At(k).v in ValueOf(i.srcs.At(k));
        assert i.srcs.At(k).v in Uses(i) && i.srcs.At(k).v in Reads(i);
      }
    }
  }

  // ---- how logic operations run ----

  type Constants = (nat, nat, nat) -> bool

  /** For given contents of the constant buffers. */
  ghost function Logic(cbuf: Constants): Meaning<Instr, bool> {
    Meaning(Dsts, IsOther, (i: Instr, k: nat, e: Env<bool>, lane: nat) => Gives(State(e, cbuf), i, k, lane))
  }

  ghost function Lop(): Pass<Instr, LopEntry, Constants, bool> {
    Pass(32, Logic, (e: LopEntry) => Sources(e.srcs),
         (cbuf: Constants, v: Ssa, e: LopEntry, env: Env<bool>) => EntryHolds(State(env, cbuf), v, e))
  }

  /** Operations look only at their sources. */
  lemma {:induction false} SourcesDecide(a: State, b: State, op: Bits, srcs: Triple<Src>, lane: nat)
    requires AgreeOn(32, Sources(srcs), a.value, b.value) && a.cbuf == b.cbuf && lane < 32
    ensures Lanes(a, srcs, lane) == Lanes(b, srcs, lane) && Answer(a, op, srcs, lane) == Answer(b, op, srcs, lane)
  {
    forall i: nat | i < 3 ensures Bit(a, srcs.At(i), lane) == Bit(b, srcs.At(i), lane) {
      if srcs.At(i).Value? { assert srcs.At(i).v in Sources(srcs); }
    }
    assert srcs.At(0) == srcs.x && srcs.At(1) == srcs.y && srcs.At(2) == srcs.z;
  }

  lemma {:induction false} TableSound(lops: Lops, at: Site)
    requires TableOk(lops, at)
    ensures AllSound(Lop(), at, lops)
  {
    forall v | v in lops ensures Sound(Lop(), at, v, lops[v]) {
      EntrySound(at, v, lops[v]);
    }
  }

  lemma {:induction false} EntrySound(at: Site, v: Ssa, e: LopEntry)
    requires Behind(e.srcs, at.Of(v))
    ensures Sound(Lop(), at, v, e)
  {
    forall cbuf, a: Env<bool>, b: Env<bool> | AgreeOn(32, Sources(e.srcs) + {v}, a, b) &&
      EntryHolds(State(a, cbuf), v, e)
      ensures EntryHolds(State(b, cbuf), v, e)
    {
      forall lane: nat | lane < 32 ensures b(v, lane) == Answer(State(b, cbuf), e.op, e.srcs, lane) {
        SourcesDecide(State(a, cbuf), State(b, cbuf), e.op, e.srcs, lane);
      }
    }
  }

  lemma {:induction false} RecordFollows(e: LopEntry, v: Ssa, i: Instr, lops: Lops, at: Site, cbuf: Constants)
    requires Records(e, v, i) && v in lops && lops[v] == e
    ensures EntryFollows(Logic(cbuf), 32, FrameOf(Lop(), lops, at.def, cbuf), i, v)
  {
    var fr := FrameOf(Lop(), lops, at.def, cbuf);
    forall a: Env<bool>, b: Env<bool> | AgreeOn(32, fr.srcs(v), a, b) && Writes(Logic(cbuf), 32, i, v, a, b)
      ensures fr.holds(v, b)
    {
      var k: nat :| k < |Dsts(i)| && Dsts(i)[k] == Some(v) && forall l: nat :: l < 32 ==>
        b(v, l) == Logic(cbuf).result(i, k, a, l);
      forall lane: nat | lane < 32 ensures b(v, lane) == Answer(State(b, cbuf), e.op, e.srcs, lane) {
        SourcesDecide(State(a, cbuf), State(b, cbuf), e.op, e.srcs, lane);
        assert b(v, lane) == Gives(State(a, cbuf), i, k, lane);
      }
    }
  }

  lemma {:induction false} SameLanes(a: State, b: State, i: Instr, k: nat, lane: nat)
    requires Agree(32, a.value, b.value) && a.cbuf == b.cbuf && lane < 32
    ensures Gives(a, i, k, lane) == Gives(b, i, k, lane)
  {
    if !i.Other? { SourcesDecide(a, b, {}, i.srcs, lane); }
  }

  /** A rewritten instruction and the entries of its destinations are what the frame asks for. */
  lemma {:induction false} RewrittenKept(lops: Lops, lops': Lops, at: Site, i: Instr, i': Instr)
    requires Strict(Form(), i, at) && Passed(lops, at) && Adds(lops, lops', i') && SameInstr(lops, at, i, i')
    requires Dsts(i') == Dsts(i) && i'.Other? == i.Other? && (i.Other? ==> lops' == lops)
    ensures Kept(Lop(), lops', at, i, i') && NewHere(lops, lops', at)
  {
    forall cbuf ensures PlaceOk(at.g, Logic(cbuf), 32, FrameOf(Lop(), lops', at.def, cbuf), i, i', at.q) {
      RewrittenPlace(lops, lops', at, i, i', cbuf);
    }
  }

  lemma {:induction false} RewrittenPlace(lops: Lops, lops': Lops, at: Site, i: Instr, i': Instr, cbuf: Constants)
    requires Strict(Form(), i, at) && Passed(lops, at) && Adds(lops, lops', i') && SameInstr(lops, at, i, i')
    requires Dsts(i') == Dsts(i) && i'.Other? == i.Other? && (i.Other? ==> lops' == lops)
    ensures PlaceOk(at.g, Logic(cbuf), 32, FrameOf(Lop(), lops', at.def, cbuf), i, i', at.q)
  {
    var fr, m := FrameOf(Lop(), lops', at.def, cbuf), Logic(cbuf);
    forall a: Env<bool>, b: Env<bool>, k: nat, l: nat | Agree(32, a, b) && TabAt(at.g, fr, b, at.q) &&
      k < |m.dsts(i)| && l < 32
      ensures m.result(i, k, a, l) == m.result(i', k, b, l)
    {
      forall v | v in lops && Reaches(at.g, at.def(v), at.q) ensures EntryHolds(State(b, cbuf), v, lops[v]) {
        assert fr.holds(v, b);
      }
      SameLanes(State(a, cbuf), State(b, cbuf), i, k, l);
      assert Gives(State(b, cbuf), i', k, l) == Gives(State(b, cbuf), i, k, l);
    }
    forall v | v in fr.tab && fr.def(v) == at.q ensures v !in lops && EntryFollows(m, 32, fr, i', v) {
      RecordFollows(lops'[v], v, i', lops', at, cbuf);
    }
  }

  // ---- the pass ----

  method OptInstr(lops: Lops, counts: map<Ssa, nat>, isPred: Ssa -> bool, i: Instr, ghost at: Site)
    returns (i': Instr, lops': Lops)
    requires PassOk(lops, at, counts) && Passed(lops, at) && InstrOk(i, at, counts)
    ensures Dsts(i') == Dsts(i) && IsOther(i') == IsOther(i) && (IsOther(i) ==> i' == i)
    ensures Kept(Lop(), lops', at, i, i') && NewHere(lops, lops', at) && PassOk(lops', at, counts)
    ensures FoldedInstr(lops, counts, isPred, i, i') && TableGrows(Folds(counts, isPred), lops, lops', i')
  {
    i', lops' := i, lops;
    match i {
      case Lop3(_, _, _) => i', lops' := OptLop3(lops, counts, isPred, i, at);
      case PLop3(_, _, _, _) => i', lops' := OptPLop3(lops, counts, isPred, i, at);
      case Other(_, _) =>
    }
    if i.PLop3? { DstsPlaced(i, at); }
    EntriesRecord(lops, lops', counts, isPred, i');
    RewrittenKept(lops, lops', at, i, i');
  }

  ghost predicate BlockOk(code: seq<Instr>, at: Site, counts: map<Ssa, nat>) {
    forall ip: nat :: ip < |code| ==> InstrOk(code[ip], at.Ip(ip), counts)
  }

  /** The first instructions of a block are folded into `code'`, from table `t0` on. */
  ghost predicate BlockDone(t0: Lops, lops: Lops, counts: map<Ssa, nat>, isPred: Ssa -> bool, at: Site,
                            before: seq<seq<Instr>>, code: seq<Instr>, code': seq<Instr>) {
    && PassOk(lops, at, counts) && SameShape(Dsts, IsOther, code, code')
    && BlockKept(Lop(), lops, at, code, code') && NewInBlock(t0, lops, at, |code'|)
    && BlockFolded(Folds(counts, isPred), at.def, before, code, code')
    && TableOf(Folds(counts, isPred), at.def, before + [code'], lops)
  }

  lemma {:induction false} BlockMore(t0: Lops, lops: Lops, lops': Lops, counts: map<Ssa, nat>, isPred: Ssa -> bool,
                                     at: Site, before: seq<seq<Instr>>, code: seq<Instr>, code': seq<Instr>, i: Instr)
    requires BlockDone(t0, lops, counts, isPred, at, before, code, code') && |code'| < |code|
    requires BlockOk(code, at, counts) && at.q.b == |before|
    requires FoldedInstr(lops, counts, isPred, code[|code'|], i) && TableGrows(Folds(counts, isPred), lops, lops', i)
    requires Dsts(i) == Dsts(code[|code'|]) && IsOther(i) == IsOther(code[|code'|])
    requires IsOther(i) ==> i == code[|code'|]
    requires Kept(Lop(), lops', at.Ip(|code'|), code[|code'|], i) && NewHere(lops, lops', at.Ip(|code'|))
    requires PassOk(lops', at.Ip(|code'|), counts)
    ensures BlockDone(t0, lops', counts, isPred, at, before, code, code' + [i])
  {
    ShapeMore(Dsts, IsOther, code, code', i);
    BlockStep(Lop(), t0, lops, lops', at, code, code', i);
    InstrFolded(lops, lops', counts, isPred, at, before, code, code', i);
  }

  method OptBlock(lops: Lops, counts: map<Ssa, nat>, isPred: Ssa -> bool, code: seq<Instr>, ghost at: Site,
                  ghost before: seq<seq<Instr>>)
    returns (code': seq<Instr>, lops': Lops)
    requires PassOk(lops, at, counts) && Passed(lops, at.Ip(0)) && BlockOk(code, at, counts)
    requires at.q.b == |before| && TableOf(Folds(counts, isPred), at.def, before, lops)
    ensures |code'| == |code| && BlockDone(lops, lops', counts, isPred, at, before, code, code')
  {
    code', lops' := [], lops;
    TableAtStart(Folds(counts, isPred), at.def, before, lops);
    for ip := 0 to |code|
      invariant |code'| == ip && BlockDone(lops, lops', counts, isPred, at, before, code, code')
    {
      ghost var was := lops';
      var i;
      i, lops' := OptInstr(lops', counts, isPred, code[ip], at.Ip(ip));
      BlockMore(lops, was, lops', counts, isPred, at, before, code, code', i);
      code' := code' + [i];
    }
  }

  lemma {:induction false} InstrFolded(lops: Lops, lops': Lops, counts: map<Ssa, nat>, isPred: Ssa -> bool, at: Site,
                                       before: seq<seq<Instr>>, code: seq<Instr>, code': seq<Instr>, i: Instr)
    requires |code'| < |code| && BlockOk(code, at, counts) && at.q.b == |before|
    requires BlockFolded(Folds(counts, isPred), at.def, before, code, code')
    requires TableOf(Folds(counts, isPred), at.def, before + [code'], lops)
    requires FoldedInstr(lops, counts, isPred, code[|code'|], i) && TableGrows(Folds(counts, isPred), lops, lops', i)
    requires Dsts(i) == Dsts(code[|code'|])
    ensures BlockFolded(Folds(counts, isPred), at.def, before, code, code' + [i])
    ensures TableOf(Folds(counts, isPred), at.def, before + [code' + [i]], lops')
  {
    var fd := Folds(counts, isPred);
    assert InstrOk(code[|code'|], at.Ip(|code'|), counts);
    forall v: Ssa | Recording(fd.sh, i, v) ensures at.def(v) == Place(|before|, |code'|) {
      var k: nat :| k < |Dsts(i)| && Dsts(i)[k] == Some(v);
    }
    FoldStep(fd, at.def, before, code, code', lops, i);
    TableStep(fd, at.def, before, code', lops, lops', i);
  }

  lemma {:induction false} BlockReady(at: Site, code: seq<Instr>, counts: map<Ssa, nat>)
    requires BlockStrict(Form(), code, at) && AllCounted(code, counts, |code|)
    ensures BlockOk(code, at, counts)
  {
    forall ip: nat | ip < |code| ensures InstrOk(code[ip], at.Ip(ip), counts) {
      UsesCounted(code[ip], at.Ip(ip), counts);
    }
  }

  /** The blocks of `f'` are folded, and the table is good for the next one. */
  ghost predicate FoldedSoFar(lops: Lops, at: Site, counts: map<Ssa, nat>, f: seq<seq<Instr>>, f': seq<seq<Instr>>) {
    && PassOk(lops, at, counts) && SameShapes(Dsts, IsOther, f, f')
    && AllKept(Lop(), lops, at, f, f') && Inside(lops, at, f, |f'|)
  }

  lemma {:induction false} NextBlockReady(lops: Lops, at: Site, counts: map<Ssa, nat>, f: seq<seq<Instr>>,
                                          f': seq<seq<Instr>>)
    requires FoldedSoFar(lops, at, counts, f, f')
    ensures PassOk(lops, at.Block(|f'|), counts) && Passed(lops, at.Block(|f'|).Ip(0))
  {
  }

  lemma {:induction false} FoldedMore(was: Lops, lops: Lops, at: Site, counts: map<Ssa, nat>, f: seq<seq<Instr>>,
                                      f': seq<seq<Instr>>, code: seq<Instr>)
    requires FoldedSoFar(was, at, counts, f, f') && |f'| < |f| && |code| == |f[|f'|]|
    requires PassOk(lops, at.Block(|f'|), counts) && SameShape(Dsts, IsOther, f[|f'|], code)
    requires BlockKept(Lop(), lops, at.Block(|f'|), f[|f'|], code) && NewInBlock(was, lops, at.Block(|f'|), |code|)
    ensures FoldedSoFar(lops, at, counts, f, f' + [code])
  {
    AllStep(Lop(), was, lops, at, f, f', code);
  }

  ghost predicate FullyFolded(isPred: Ssa -> bool, def: Ssa -> Place, f: seq<seq<Instr>>, f': seq<seq<Instr>>) {
    exists counts ::
      (forall v :: Times(counts, v) == UsesInFunction(f, v)) && AllFolded(Folds(counts, isPred), def, f, f')
  }

  /** Folds all logic operations of a function. On every run, whatever the other instructions
      write, all values have the same contents in the old and the new code: also when a definition
      and the use it is folded into lie in different blocks, or in a loop. Each is folded until it is
      stuck, with all logic operations laid out before it recorded and uses counted in `f`. */
  method OptLop(f: seq<seq<Instr>>, isPred: Ssa -> bool, ghost g: Cfg, ghost def: Ssa -> Place)
    returns (f': seq<seq<Instr>>)
    requires StrictSsa(Form(), g, def, f)
    ensures SameRuns(Lop(), g, f, f') && SameShapes(Dsts, IsOther, f, f')
    ensures FullyFolded(isPred, def, f, f')
  {
    var counts := UseCounts(f);
    var lops: Lops := map[];
    ghost var at := SiteOf(g, def, f);
    f' := [];
    for b := 0 to |f|
      invariant |f'| == b && FoldedSoFar(lops, at, counts, f, f')
      invariant AllFolded(Folds(counts, isPred), def, f, f') && TableOf(Folds(counts, isPred), def, f', lops)
    {
      ghost var was, here := lops, at.Block(b);
      StrictBlock(Form(), at, f, b);
      BlockReady(here, f[b], counts);
      NextBlockReady(lops, at, counts, f, f');
      var code;
      code, lops := OptBlock(lops, counts, isPred, f[b], here, f');
      FoldedMore(was, lops, at, counts, f, f', code);
      FoldBlock(Folds(counts, isPred), def, f, f', code);
      f' := f' + [code];
    }
    TableSound(lops, at);
    KeptRunsSame(Lop(), lops, at, f, f');
  }

  // ---- what that says of one operation ----

  lemma {:induction false} DstsDiffer(i: Instr, at: Site, j: nat, k: nat)
    requires Strict(Form(), i, at) && !i.Other? && j < |Dsts(i)| && k < |Dsts(i)| && Dsts(i)[j] == Dsts(i)[k]
    requires Dsts(i)[k].Some?
    ensures j == k
  {
  }

  /** After a logic operation its destination holds what it computes. */
  lemma {:induction false} StepGives(i: Instr, at: Site, cbuf: Constants, w: (nat, nat) -> bool, env: Env<bool>, k: nat,
                                     lane: nat)
    requires Strict(Form(), i, at) && !i.Other? && k < |Dsts(i)| && Dsts(i)[k].Some?
    ensures Step(Logic(cbuf), i, w, env)(Dsts(i)[k].value, lane) == Gives(State(env, cbuf), i, k, lane)
  {
    var j := WriteAt(env, Dsts(i), Results(Logic(cbuf), i, w, env), Dsts(i)[k].value);
    DstsDiffer(i, at, j, k);
  }

  /** Every destination of a logic operation is given the same value whenever control comes to it. */
  lemma {:induction false} FoldingKeepsValues(g: Cfg, def: Ssa -> Place, f: seq<seq<Instr>>, f': seq<seq<Instr>>,
                                              cbuf: Constants,
                                              w: Oracle<bool>, env: Env<bool>, path: seq<nat>, n: nat, ip: nat, k: nat,
                                                lane: nat)
    requires StrictSsa(Form(), g, def, f) && SameRuns(Lop(), g, f, f') && SameShapes(Dsts, IsOther, f, f')
    requires IsPath(g, path, |f|) && n < |path|
    requires ip < |f[path[n]]| && !f[path[n]][ip].Other? && lane < 32
    requires k < |Dsts(f[path[n]][ip])| && Dsts(f[path[n]][ip])[k].Some?
    ensures var b := path[n];
      Gives(State(Before(Logic(cbuf), f', w, env, path, n, ip), cbuf), f'[b][ip], k, lane) ==
      Gives(State(Before(Logic(cbuf), f, w, env, path, n, ip), cbuf), f[b][ip], k, lane)
  {
    var b, at := path[n], Site(g, def, 0, Place(path[n], ip));
    assert Strict(Form(), f[b][ip], at) && SameShape(Dsts, IsOther, f[b], f'[b]);
    var old_, new_ := Before(Logic(cbuf), f, w, env, path, n, ip), Before(Logic(cbuf), f', w, env, path, n, ip);
    var v := Dsts(f[b][ip])[k].value;
    assert Agree(32, Before(Logic(cbuf), f, w, env, path, n, ip + 1), Before(Logic(cbuf), f', w, env, path, n, ip + 1));
    StepGives(f[b][ip], at, cbuf, OfInstr(OfStep(w, n), ip), old_, k, lane);
    var j := WriteAt(new_, Dsts(f'[b][ip]), Results(Logic(cbuf), f'[b][ip], OfInstr(OfStep(w, n), ip), new_), v);
    DstsDiffer(f[b][ip], at, j, k);
  }
}
