/**
 Three-input logic operations as tables: which sources one uses, equal and constant sources,
 and the substitution of one operation into another.
 */
module LopTables {
  import opened Basics
  import opened Words
  import opened SsaRuns

  // ---- tables ----

  /** Three truth values, or three sources, by position. */
  datatype Triple<T> = Triple(x: T, y: T, z: T) {
    function At(i: nat): T {
      if i == 0 then x else if i == 1 then y else z
    }

    function With(i: nat, t: T): (r: Triple<T>)
      ensures forall k: nat :: k < 3 && i < 3 ==> r.At(k) == if k == i then t else At(k)
    {
      if i == 0 then this.(x := t) else if i == 1 then this.(y := t) else this.(z := t)
    }
  }

  /** The table's answer for one lane. */
  ghost predicate Look(lut: Bits, s: Triple<bool>) {
    Entry(s.x, s.y, s.z) in lut
  }

  const MASKS := Triple(PASS_X, PASS_Y, PASS_Z)

  function Shift(i: nat): nat {
    if i == 0 then 4 else if i == 1 then 2 else 1
  }

  /** A table computed by applying another one to the three masks, some replaced. */
  function Apply(lut: Bits, s: Triple<Bits>): Bits {
    Eval(lut, TABLE, s.x, s.y, s.z)
  }

  predicate SrcUsed(lut: Bits, i: nat) {
    exists e: nat :: e in TABLE - MASKS.At(i) && (e in lut) != (e + Shift(i) in lut)
  }

  function FixSrc(lut: Bits, i: nat, val: bool): Bits {
    if val then
      var t := lut * MASKS.At(i);
      t + set e | e in TABLE && e + Shift(i) in t
    else
      var f := lut - MASKS.At(i);
      f + set e | e in TABLE && e >= Shift(i) && e - Shift(i) in f
  }

  function InvertSrc(lut: Bits, i: nat): Bits {
    var t, f := lut * MASKS.At(i), lut - MASKS.At(i);
    (set e | e in TABLE && e >= Shift(i) && e - Shift(i) in f) + (set e | e in TABLE && e + Shift(i) in t)
  }

  lemma {:induction false} MaskIs(i: nat, s: Triple<bool>)
    requires i < 3
    ensures Entry(s.x, s.y, s.z) in MASKS.At(i) <==> s.At(i)
    ensures Entry(s.x, s.y, s.z) in TABLE
  {
  }

  /** Applying a table to words of table entries composes the tables. */
  lemma {:induction false} ApplyIs(lut: Bits, w: Triple<Bits>, s: Triple<bool>)
    ensures var e := Entry(s.x, s.y, s.z); Look(Apply(lut, w), s) == Look(lut, Triple(e in w.x, e in w.y, e in w.z))
  {
  }

  lemma {:induction false} ShiftIs(i: nat, s: Triple<bool>)
    requires i < 3
    ensures var on, off := s.With(i, true), s.With(i, false);
      Entry(on.x, on.y, on.z) == Entry(off.x, off.y, off.z) + Shift(i)
  {
  }

  lemma {:induction false} Decoded(e: nat) returns (s: Triple<bool>)
    requires e in TABLE
    ensures Entry(s.x, s.y, s.z) == e
  {
    var z := e == 1 || e == 3 || e == 5 || e == 7;
    s := Triple(e >= 4, e == 2 || e == 3 || e >= 6, z);
  }

  /** A source is used exactly when changing it can change the answer. */
  lemma {:induction false} UsedShows(lut: Bits, i: nat) returns (s: Triple<bool>)
    requires i < 3 && SrcUsed(lut, i)
    ensures Look(lut, s.With(i, true)) != Look(lut, s.With(i, false))
  {
    var e: nat :| e in TABLE - MASKS.At(i) && (e in lut) != (e + Shift(i) in lut);
    s := Decoded(e);
    MaskIs(i, s);
    ShiftIs(i, s);
    assert s.With(i, false) == s;
  }

  lemma {:induction false} ShowsUsed(lut: Bits, i: nat, s: Triple<bool>)
    requires i < 3 && Look(lut, s.With(i, true)) != Look(lut, s.With(i, false))
    ensures SrcUsed(lut, i)
  {
  }

  lemma {:induction false} UsedIs(lut: Bits, i: nat)
    requires i < 3
    ensures SrcUsed(lut, i) <==> exists s: Triple<bool> :: Look(lut, s.With(i, true)) != Look(lut, s.With(i, false))
  {
    if SrcUsed(lut, i) {
      var s := UsedShows(lut, i);
    }
    if s: Triple<bool> :| Look(lut, s.With(i, true)) != Look(lut, s.With(i, false)) {
      ShowsUsed(lut, i, s);
    }
  }

  lemma {:induction false} UnusedIgnored(lut: Bits, i: nat, s: Triple<bool>, v: bool)
    requires i < 3 && !SrcUsed(lut, i)
    ensures Look(lut, s.With(i, v)) == Look(lut, s)
  {
  }

  lemma {:induction false} FixIs(lut: Bits, i: nat, val: bool, s: Triple<bool>)
    requires i < 3
    ensures Look(FixSrc(lut, i, val), s) == Look(lut, s.With(i, val))
  {
    MaskIs(i, s);
    MaskIs(i, s.With(i, val));
    MaskIs(i, s.With(i, !val));
    ShiftIs(i, s);
    assert s == s.With(i, s.At(i));
  }

  lemma {:induction false} FixUnused(lut: Bits, i: nat, val: bool)
    requires i < 3
    ensures !SrcUsed(FixSrc(lut, i, val), i)
  {
  }

  lemma {:induction false} InvertIs(lut: Bits, i: nat, s: Triple<bool>)
    requires i < 3
    ensures Look(InvertSrc(lut, i), s) == Look(lut, s.With(i, !s.At(i)))
  {
    MaskIs(i, s);
    MaskIs(i, s.With(i, !s.At(i)));
    ShiftIs(i, s);
    assert s == s.With(i, s.At(i));
  }

  // ---- operations and their meaning ----

  datatype Src = Zero | True | False | Imm32(u: Word) | CBuf(buf: nat, offset: nat) | Value(v: Ssa)

  function SrcAsBool(src: Src): Option<bool> {
    match src
    case Zero => Some(false)
    case False => Some(false)
    case True => Some(true)
    case Imm32(u) => if u == {} then Some(false) else if u == WORD then Some(true) else None
    case _ => None
  }

  /** The contents of values and constant buffers, lane by lane. */
  datatype State = State(value: Env<bool>, cbuf: (nat, nat, nat) -> bool)

  ghost predicate Bit(env: State, src: Src, lane: nat) {
    match src
    case Zero => false
    case False => false
    case True => true
    case Imm32(u) => lane in u
    case CBuf(b, o) => env.cbuf(b, o, lane)
    case Value(v) => env.value(v, lane)
  }

  ghost function Lanes(env: State, srcs: Triple<Src>, lane: nat): Triple<bool> {
    Triple(Bit(env, srcs.x, lane), Bit(env, srcs.y, lane), Bit(env, srcs.z, lane))
  }

  /** One lane of the result of an operation. */
  ghost predicate Answer(env: State, op: Bits, srcs: Triple<Src>, lane: nat) {
    Look(op, Lanes(env, srcs, lane))
  }

  /** The operations compute the same from the new sources as the old ones from the old. */
  ghost predicate Same(env: State, ops: seq<Bits>, srcs: Triple<Src>, ops': seq<Bits>, srcs': Triple<Src>) {
    |ops'| == |ops| && forall k, lane: nat :: 0 <= k < |ops| && lane < 32 ==>
      Answer(env, ops'[k], srcs', lane) == Answer(env, ops[k], srcs, lane)
  }

  lemma {:induction false} SameTrans(env: State, o1: seq<Bits>, s1: Triple<Src>, o2: seq<Bits>, s2: Triple<Src>,
                                     o3: seq<Bits>, s3: Triple<Src>)
    requires Same(env, o1, s1, o2, s2) && Same(env, o2, s2, o3, s3)
    ensures Same(env, o1, s1, o3, s3)
  {
  }

  // ---- duplicate sources ----

  function Dedup(lut: Bits, i: nat, j: nat): Bits {
    Apply(lut, MASKS.With(j, MASKS.At(i)))
  }

  /** Putting a word in the place of one mask substitutes its answer for one source. */
  lemma {:induction false} SubstIs(lut: Bits, j: nat, word: Bits, s: Triple<bool>)
    requires j < 3
    ensures Look(Apply(lut, MASKS.With(j, word)), s) == Look(lut, s.With(j, Look(word, s)))
  {
    var w := MASKS.With(j, word);
    ApplyIs(lut, w, s);
    var e := Entry(s.x, s.y, s.z);
    var t := Triple(e in w.x, e in w.y, e in w.z);
    forall k: nat | k < 3 ensures t.At(k) == s.With(j, e in word).At(k) {
      MaskIs(k, s);
      assert t.At(k) == (e in w.At(k));
    }
    assert t.At(0) == t.x && t.At(1) == t.y && t.At(2) == t.z;
  }

  lemma {:induction false} DedupIs(lut: Bits, i: nat, j: nat, s: Triple<bool>)
    requires i < 3 && j < 3
    ensures Look(Dedup(lut, i, j), s) == Look(lut, s.With(j, s.At(i)))
  {
    SubstIs(lut, j, MASKS.At(i), s);
    MaskIs(i, s);
  }

  /** Each source replaced by the first one equal to it. */
  ghost function FirstEqual(srcs: Triple<Src>, s: Triple<bool>): Triple<bool> {
    Triple(s.x, if srcs.y == srcs.x then s.x else s.y,
           if srcs.z == srcs.x then s.x else if srcs.z == srcs.y then s.y else s.z)
  }

  /** The table answers as before with only the first of equal sources. */
  ghost predicate Deduplicated(op: Bits, srcs: Triple<Src>, op': Bits) {
    forall s: Triple<bool> :: Look(op', s) == Look(op, FirstEqual(srcs, s))
  }

  ghost function MergeOne(srcs: Triple<Src>, i: nat, j: nat, s: Triple<bool>): Triple<bool> {
    if srcs.At(i) == srcs.At(j) then s.With(j, s.At(i)) else s
  }

  /** The first `n` of the three pairs of sources merged. */
  ghost function Merged(srcs: Triple<Src>, n: nat, s: Triple<bool>): Triple<bool> {
    if n == 0 then s
    else if n == 1 then MergeOne(srcs, 0, 1, s)
    else if n == 2 then MergeOne(srcs, 0, 1, MergeOne(srcs, 0, 2, s))
    else MergeOne(srcs, 0, 1, MergeOne(srcs, 0, 2, MergeOne(srcs, 1, 2, s)))
  }

  ghost predicate MergedTo(op: Bits, srcs: Triple<Src>, n: nat, op': Bits) {
    forall s: Triple<bool> :: Look(op', s) == Look(op, Merged(srcs, n, s))
  }

  method DedupSrcs(op: Bits, srcs: Triple<Src>) returns (op': Bits)
    ensures Deduplicated(op, srcs, op')
  {
    op' := op;
    for i := 0 to 2
      invariant MergedTo(op, srcs, if i == 0 then 0 else i + 1, op')
    {
      for j := i + 1 to 3
        invariant MergedTo(op, srcs, i + j - 1, op')
      {
        MergeStep(op, srcs, i, j, op');
        op' := DedupPair(op', srcs, i, j);
      }
    }
    AllMerged(op, srcs, op');
  }

  /** The later of two equal sources is no longer looked at. */
  function DedupPair(op: Bits, srcs: Triple<Src>, i: nat, j: nat): Bits {
    if srcs.At(i) == srcs.At(j) then Dedup(op, i, j) else op
  }

  lemma {:induction false} DedupPairIs(op: Bits, srcs: Triple<Src>, i: nat, j: nat, s: Triple<bool>)
    requires i < j < 3
    ensures Look(DedupPair(op, srcs, i, j), s) == Look(op, MergeOne(srcs, i, j, s))
  {
    DedupIs(op, i, j, s);
  }

  lemma {:induction false} MergedNext(srcs: Triple<Src>, i: nat, j: nat, s: Triple<bool>)
    requires i < j < 3
    ensures Merged(srcs, i + j, s) == Merged(srcs, i + j - 1, MergeOne(srcs, i, j, s))
  {
  }

  lemma {:induction false} MergeStep(op: Bits, srcs: Triple<Src>, i: nat, j: nat, op': Bits)
    requires i < j < 3 && MergedTo(op, srcs, i + j - 1, op')
    ensures MergedTo(op, srcs, i + j, DedupPair(op', srcs, i, j))
  {
    var next := DedupPair(op', srcs, i, j);
    forall s: Triple<bool> ensures Look(next, s) == Look(op, Merged(srcs, i + j, s)) {
      DedupPairIs(op', srcs, i, j, s);
      MergedNext(srcs, i, j, s);
    }
  }

  lemma {:induction false} AllMerged(op: Bits, srcs: Triple<Src>, op': Bits)
    requires MergedTo(op, srcs, 3, op')
    ensures Deduplicated(op, srcs, op')
  {
    forall s: Triple<bool> ensures Look(op', s) == Look(op, FirstEqual(srcs, s)) {
      MergedAll(srcs, s);
    }
  }

  lemma {:induction false} MergedAll(srcs: Triple<Src>, s: Triple<bool>)
    ensures Merged(srcs, 3, s) == FirstEqual(srcs, s)
  {
    var a := MergeOne(srcs, 1, 2, s);
    assert a == Triple(s.x, s.y, if srcs.y == srcs.z then s.y else s.z);
    var b := MergeOne(srcs, 0, 2, a);
    assert b == Triple(s.x, s.y, if srcs.x == srcs.z then s.x else a.z);
    assert MergeOne(srcs, 0, 1, b) == Triple(s.x, if srcs.x == srcs.y then s.x else s.y, b.z);
  }

  lemma {:induction false} DedupSame(op: Bits, srcs: Triple<Src>, op': Bits)
    requires Deduplicated(op, srcs, op')
    ensures forall env, lane: nat :: Answer(env, op', srcs, lane) == Answer(env, op, srcs, lane)
  {
    forall env, lane: nat ensures Answer(env, op', srcs, lane) == Answer(env, op, srcs, lane) {
      var s := Lanes(env, srcs, lane);
      assert FirstEqual(srcs, s) == s;
    }
  }

  // ---- constant sources ----

  /** No operation uses a constant source. */
  ghost predicate Clean(ops: seq<Bits>, srcs: Triple<Src>, n: nat) {
    forall k, i: nat :: 0 <= k < |ops| && i < n && i < 3 && SrcAsBool(srcs.At(i)).Some? ==> !SrcUsed(ops[k], i)
  }

  /** Exactly the sources with the same bit in every lane of every state. */
  lemma {:induction false} ConstantIff(src: Src, b: bool)
    ensures SrcAsBool(src) == Some(b) <==> forall env, lane: nat :: lane < 32 ==> Bit(env, src, lane) == b
  {
    var env := State((v: Ssa, l: nat) => !b, (m: nat, o: nat, l: nat) => !b);
    if forall env, lane: nat :: lane < 32 ==> Bit(env, src, lane) == b {
      assert Bit(env, src, 0) == b;
      if src.Imm32? {
        forall l: nat | l < 32 ensures (l in src.u) == b {
          assert Bit(env, src, l) == b;
        }
        assert b ==> src.u == WORD;
        assert !b ==> src.u == {};
      }
    }
  }

  lemma {:induction false} ConstantBit(env: State, src: Src, lane: nat)
    requires SrcAsBool(src).Some? && lane < 32
    ensures Bit(env, src, lane) == SrcAsBool(src).value
  {
  }

  function FixAll(ops: seq<Bits>, i: nat, src: Src): (r: seq<Bits>)
    ensures |r| == |ops|
  {
    match SrcAsBool(src)
    case Some(b) => seq(|ops|, k requires 0 <= k < |ops| => FixSrc(ops[k], i, b))
    case None => ops
  }

  predicate UsedByNone(ops: seq<Bits>, i: nat) {
    forall k :: 0 <= k < |ops| ==> !SrcUsed(ops[k], i)
  }

  /** A use of an earlier source stays unused when a later one is fixed. */
  lemma {:induction false} FixKeepsUnused(lut: Bits, i: nat, val: bool, j: nat)
    requires i < 3 && j < 3 && !SrcUsed(lut, j)
    ensures !SrcUsed(FixSrc(lut, i, val), j)
  {
    var f := FixSrc(lut, i, val);
    UsedIs(f, j);
    forall s: Triple<bool> ensures Look(f, s.With(j, true)) == Look(f, s.With(j, false)) {
      FixIs(lut, i, val, s.With(j, true));
      FixIs(lut, i, val, s.With(j, false));
      if i == j {
        assert s.With(j, true).With(i, val) == s.With(j, false).With(i, val);
      } else {
        var t := s.With(i, val);
        assert s.With(j, true).With(i, val) == t.With(j, true) && s.With(j, false).With(i, val) == t.With(j, false);
        UnusedIgnored(lut, j, t, true);
        UnusedIgnored(lut, j, t, false);
      }
    }
  }

  /** One source: fix it if constant, and put `filler` in its place if nothing uses it. */
  function CleanSrc(ops: seq<Bits>, srcs: Triple<Src>, i: nat, filler: Src): (seq<Bits>, Triple<Src>) {
    var ops' := FixAll(ops, i, srcs.At(i));
    (ops', if UsedByNone(ops', i) then srcs.With(i, filler) else srcs)
  }

  lemma {:induction false} CleanSrcSame(ops: seq<Bits>, srcs: Triple<Src>, i: nat, filler: Src, env: State, k: nat,
                                        lane: nat)
    requires i < 3 && k < |ops| && lane < 32
    ensures var (ops', srcs') := CleanSrc(ops, srcs, i, filler);
      Answer(env, ops'[k], srcs', lane) == Answer(env, ops[k], srcs, lane)
  {
    var (ops', srcs') := CleanSrc(ops, srcs, i, filler);
    var s := Lanes(env, srcs, lane);
    assert s.At(i) == Bit(env, srcs.At(i), lane);
    assert s.With(i, s.At(i)) == s;
    if SrcAsBool(srcs.At(i)).Some? {
      ConstantBit(env, srcs.At(i), lane);
      FixIs(ops[k], i, SrcAsBool(srcs.At(i)).value, s);
    }
    assert Look(ops'[k], s) == Look(ops[k], s);
    if UsedByNone(ops', i) {
      UnusedIgnored(ops'[k], i, s, Bit(env, filler, lane));
      assert Lanes(env, srcs', lane) == s.With(i, Bit(env, filler, lane));
    }
  }

  lemma {:induction false} CleanSrcClean(ops: seq<Bits>, srcs: Triple<Src>, i: nat, filler: Src)
    requires i < 3 && Clean(ops, srcs, i) && SrcAsBool(filler).Some?
    ensures var (ops', srcs') := CleanSrc(ops, srcs, i, filler); Clean(ops', srcs', i + 1)
  {
    var (ops', srcs') := CleanSrc(ops, srcs, i, filler);
    forall k, j: nat | 0 <= k < |ops'| && j < i + 1 && SrcAsBool(srcs'.At(j)).Some? ensures !SrcUsed(ops'[k], j) {
      if j == i {
        if SrcAsBool(srcs.At(i)).Some? {
          FixUnused(ops[k], i, SrcAsBool(srcs.At(i)).value);
        }
      } else {
        assert srcs'.At(j) == srcs.At(j);
        if SrcAsBool(srcs.At(i)).Some? {
          FixKeepsUnused(ops[k], i, SrcAsBool(srcs.At(i)).value, j);
        }
      }
    }
  }

  /** The constants among the first `n` sources in place. */
  ghost function Pinned(srcs: Triple<Src>, n: nat, s: Triple<bool>): Triple<bool> {
    Triple(PinnedAt(srcs.x, 0 < n, s.x), PinnedAt(srcs.y, 1 < n, s.y), PinnedAt(srcs.z, 2 < n, s.z))
  }

  ghost predicate PinnedAt(src: Src, pin: bool, b: bool) {
    if pin && SrcAsBool(src).Some? then SrcAsBool(src).value else b
  }

  /** With the constants up to source `i` in place, no answer depends on it. */
  ghost predicate Idle(ops: seq<Bits>, srcs: Triple<Src>, i: nat) {
    forall k: nat, s: Triple<bool> :: k < |ops| ==>
      Look(ops[k], Pinned(srcs, i + 1, s.With(i, true))) == Look(ops[k], Pinned(srcs, i + 1, s.With(i, false)))
  }

  /** The first `n` sources have been cleaned: constants are in the tables, and what is idle is replaced. */
  ghost predicate Cleaned(ops: seq<Bits>, srcs: Triple<Src>, filler: Src, n: nat, ops': seq<Bits>, srcs': Triple<Src>) {
    && |ops'| == |ops|
    && (forall k: nat, s: Triple<bool> :: k < |ops| ==> Look(ops'[k], s) == Look(ops[k], Pinned(srcs, n, s)))
    && (forall i: nat :: i < 3 ==> srcs'.At(i) == if i < n && Idle(ops, srcs, i) then filler else srcs.At(i))
  }

  lemma {:induction false} PinnedNext(srcs: Triple<Src>, n: nat, s: Triple<bool>)
    requires n < 3
    ensures Pinned(srcs, n + 1, s) ==
      if SrcAsBool(srcs.At(n)).Some? then Pinned(srcs, n, s.With(n, SrcAsBool(srcs.At(n)).value))
        else Pinned(srcs, n, s)
  {
  }

  lemma {:induction false} FixedLooks(ops: seq<Bits>, srcs: Triple<Src>, filler: Src, n: nat, ops': seq<Bits>,
                                      srcs': Triple<Src>, k: nat, s: Triple<bool>)
    requires n < 3 && Cleaned(ops, srcs, filler, n, ops', srcs') && k < |ops|
    ensures Look(FixAll(ops', n, srcs'.At(n))[k], s) == Look(ops[k], Pinned(srcs, n + 1, s))
  {
    PinnedNext(srcs, n, s);
    if SrcAsBool(srcs.At(n)).Some? {
      FixIs(ops'[k], n, SrcAsBool(srcs.At(n)).value, s);
    }
  }

  lemma {:induction false} IdleIs(ops: seq<Bits>, srcs: Triple<Src>, n: nat, fixed: seq<Bits>)
    requires n < 3 && |fixed| == |ops|
    requires forall k: nat, s: Triple<bool> :: k < |ops| ==> Look(fixed[k], s) == Look(ops[k], Pinned(srcs, n + 1, s))
    ensures Idle(ops, srcs, n) <==> UsedByNone(fixed, n)
  {
    if Idle(ops, srcs, n) {
      forall k: nat | k < |ops| ensures !SrcUsed(fixed[k], n) {
        UsedIs(fixed[k], n);
        forall s: Triple<bool> ensures Look(fixed[k], s.With(n, true)) == Look(fixed[k], s.With(n, false)) {}
      }
    }
    if UsedByNone(fixed, n) {
      forall k: nat, s: Triple<bool> | k < |ops|
        ensures Look(ops[k], Pinned(srcs, n + 1, s.With(n, true))) ==
                Look(ops[k], Pinned(srcs, n + 1, s.With(n, false)))
      {
        UsedIs(fixed[k], n);
        assert Look(fixed[k], s.With(n, true)) == Look(fixed[k], s.With(n, false));
      }
    }
  }

  lemma {:induction false} CleanedStep(ops: seq<Bits>, srcs: Triple<Src>, filler: Src, n: nat, ops': seq<Bits>,
                                       srcs': Triple<Src>)
    requires n < 3 && Cleaned(ops, srcs, filler, n, ops', srcs')
    ensures var (o, s) := CleanSrc(ops', srcs', n, filler); Cleaned(ops, srcs, filler, n + 1, o, s)
  {
    var o := FixAll(ops', n, srcs'.At(n));
    forall k: nat, s: Triple<bool> | k < |ops| ensures Look(o[k], s) == Look(ops[k], Pinned(srcs, n + 1, s)) {
      FixedLooks(ops, srcs, filler, n, ops', srcs', k, s);
    }
    IdleIs(ops, srcs, n, o);
  }

  method CleanSrcs(ops: seq<Bits>, srcs: Triple<Src>, filler: Src) returns (ops': seq<Bits>, srcs': Triple<Src>)
    requires SrcAsBool(filler).Some?
    ensures Cleaned(ops, srcs, filler, 3, ops', srcs') && Clean(ops', srcs', 3)
    ensures forall env :: Same(env, ops, srcs, ops', srcs')
  {
    ops', srcs' := ops, srcs;
    for i := 0 to 3
      invariant Clean(ops', srcs', i) && forall env :: Same(env, ops, srcs, ops', srcs')
      invariant Cleaned(ops, srcs, filler, i, ops', srcs')
    {
      CleanSrcClean(ops', srcs', i, filler);
      CleanedStep(ops, srcs, filler, i, ops', srcs');
      var (o, s) := CleanSrc(ops', srcs', i, filler);
      forall env ensures Same(env, ops, srcs, o, s) {
        forall k, lane: nat | 0 <= k < |ops| && lane < 32
          ensures Answer(env, o[k], s, lane) == Answer(env, ops'[k], srcs', lane)
        {
          CleanSrcSame(ops', srcs', i, filler, env, k, lane);
        }
        SameTrans(env, ops, srcs, ops', srcs', o, s);
      }
      ops', srcs' := o, s;
    }
  }

  // ---- substituting one operation into another ----

  /** An operation whose result is a value: which sources it uses, none of them constant. */
  datatype LopEntry = LopEntry(op: Bits, used: Triple<bool>, srcs: Triple<Src>)

  ghost predicate EntryShape(e: LopEntry) {
    forall i: nat :: i < 3 ==> e.used.At(i) == SrcUsed(e.op, i) && (e.used.At(i) ==> SrcAsBool(e.srcs.At(i)).None?)
  }

  ghost predicate EntryHolds(env: State, v: Ssa, e: LopEntry) {
    forall lane: nat :: lane < 32 ==> env.value(v, lane) == Answer(env, e.op, e.srcs, lane)
  }

  /** For each source of the entry, the source slot of the operation that will hold it. */
  type Slots = Triple<Option<nat>>

  predicate Free(srcs: Triple<Src>, idx: nat, j: nat) {
    j == idx || SrcAsBool(srcs.At(j)).Some?
  }

  ghost predicate SlotOk(e: LopEntry, srcs: Triple<Src>, idx: nat, slot: Option<nat>, i: nat) {
    if e.used.At(i) then slot.Some? && slot.value < 3 &&
      (Free(srcs, idx, slot.value) || srcs.At(slot.value) == e.srcs.At(i))
    else slot.None?
  }

  /** The first `n` slots are found or free, and no free slot is given out twice. */
  ghost predicate SlotsOk(e: LopEntry, srcs: Triple<Src>, idx: nat, slots: Slots, n: nat) {
    && (forall i: nat :: i < n && i < 3 ==> SlotOk(e, srcs, idx, slots.At(i), i))
    && (forall i: nat, j: nat :: i < j < n && j < 3 && slots.At(i).Some? && slots.At(i) == slots.At(j) ==>
          !Free(srcs, idx, slots.At(i).value))
  }

  /** The entry's sources differ from the one they would replace. */
  ghost predicate Earlier(e: LopEntry, src: Src) {
    forall i: nat :: i < 3 ==> e.srcs.At(i) != src
  }

  ghost predicate Present(srcs: Triple<Src>, src: Src) {
    exists j: nat :: j < 3 && srcs.At(j) == src
  }

  /** Which of the first `n` sources of the entry are used and not among the sources. */
  ghost function Missing(e: LopEntry, srcs: Triple<Src>, n: nat): set<nat> {
    set i: nat | i < 3 && i < n && e.used.At(i) && !Present(srcs, e.srcs.At(i))
  }

  /** Which of the first `n` slots can be overwritten: the one substituted and constants. */
  ghost function Room(srcs: Triple<Src>, idx: nat, n: nat): set<nat> {
    set j: nat | j < 3 && j < n && (j == idx || SrcAsBool(srcs.At(j)).Some?)
  }

  lemma {:induction false} MissingNext(e: LopEntry, srcs: Triple<Src>, n: nat)
    requires n < 3
    ensures |Missing(e, srcs, n + 1)| == |Missing(e, srcs, n)| +
      if e.used.At(n) && !Present(srcs, e.srcs.At(n)) then 1 else 0
  {
    if e.used.At(n) && !Present(srcs, e.srcs.At(n)) {
      assert Missing(e, srcs, n + 1) == Missing(e, srcs, n) + {n};
    } else {
      assert Missing(e, srcs, n + 1) == Missing(e, srcs, n);
    }
  }

  lemma {:induction false} MissingGrows(e: LopEntry, srcs: Triple<Src>, n: nat)
    requires n <= 3
    ensures |Missing(e, srcs, n)| <= |Missing(e, srcs, 3)|
    decreases 3 - n
  {
    if n < 3 {
      MissingNext(e, srcs, n);
      MissingGrows(e, srcs, n + 1);
    }
  }

  /** No room between the two. */
  lemma {:induction false} NoRoom(srcs: Triple<Src>, idx: nat, a: nat, b: nat)
    requires a <= b <= 3 && forall j: nat :: a <= j < b ==> !Free(srcs, idx, j)
    ensures Room(srcs, idx, b) == Room(srcs, idx, a)
  {
    forall j: nat | j in Room(srcs, idx, b) ensures j in Room(srcs, idx, a) {
      assert Free(srcs, idx, j);
    }
  }

  lemma {:induction false} RoomTaken(srcs: Triple<Src>, idx: nat, a: nat, b: nat)
    requires a <= b < 3 && Free(srcs, idx, b) && forall j: nat :: a <= j < b ==> !Free(srcs, idx, j)
    ensures |Room(srcs, idx, b + 1)| == |Room(srcs, idx, a)| + 1
  {
    NoRoom(srcs, idx, a, b);
    assert Room(srcs, idx, b + 1) == Room(srcs, idx, b) + {b};
  }

  lemma {:induction false} RoomGrows(srcs: Triple<Src>, idx: nat, n: nat)
    requires n <= 3
    ensures |Room(srcs, idx, n)| <= |Room(srcs, idx, 3)|
  {
    SubsetSize(Room(srcs, idx, n), Room(srcs, idx, 3));
  }

  method FindSlot(e: LopEntry, srcs: Triple<Src>, i: nat) returns (slot: Option<nat>)
    ensures slot.Some? ==> slot.value < 3 && srcs.At(slot.value) == e.srcs.At(i)
    ensures slot.Some? <==> Present(srcs, e.srcs.At(i))
  {
    for j := 0 to 3
      invariant forall k: nat :: k < j ==> srcs.At(k) != e.srcs.At(i)
    {
      if e.srcs.At(i) == srcs.At(j) {
        return Some(j);
      }
    }
    slot := None;
  }

  /** The next free slot from `next` on. */
  method FreeSlot(srcs: Triple<Src>, idx: nat, next: nat) returns (slot: Option<nat>)
    ensures slot.Some? ==> next <= slot.value < 3 && Free(srcs, idx, slot.value)
    ensures forall j: nat :: next <= j < (if slot.Some? then slot.value else 3) ==> !Free(srcs, idx, j)
  {
    var n := next;
    while n < 3
      invariant n >= next && forall j: nat :: next <= j < n ==> !Free(srcs, idx, j)
    {
      if Free(srcs, idx, n) {
        return Some(n);
      }
      n := n + 1;
    }
    slot := None;
  }

  method AssignSlots(e: LopEntry, srcs: Triple<Src>, idx: nat) returns (r: Option<Slots>)
    requires EntryShape(e) && idx < 3 && Earlier(e, srcs.At(idx))
    ensures r.Some? ==> SlotsOk(e, srcs, idx, r.value, 3)
    ensures r.Some? <==> |Missing(e, srcs, 3)| <= |Room(srcs, idx, 3)|
  {
    var slots: Slots, next := Triple(None, None, None), 0;
    for i := 0 to 3
      invariant SlotsOk(e, srcs, idx, slots, i)
      invariant forall k: nat :: i <= k < 3 ==> slots.At(k).None?
      invariant forall k: nat :: k < i && slots.At(k).Some? && Free(srcs, idx, slots.At(k).value) ==>
        slots.At(k).value < next
      invariant next <= 3 && |Missing(e, srcs, i)| == |Room(srcs, idx, next)|
    {
      MissingNext(e, srcs, i);
      if e.used.At(i) {
        var slot := FindSlot(e, srcs, i);
        if slot.Some? {
          assert !Free(srcs, idx, slot.value);
        } else {
          slot := FreeSlot(srcs, idx, next);
          if slot.None? {
            NoRoom(srcs, idx, next, 3);
            MissingGrows(e, srcs, i + 1);
            return None;
          }
          RoomTaken(srcs, idx, next, slot.value);
          next := slot.value + 1;
        }
        slots := slots.With(i, slot);
      }
    }
    RoomGrows(srcs, idx, next);
    r := Some(slots);
  }

  // ---- what a substitution does ----

  function WriteSlot(srcs: Triple<Src>, e: LopEntry, slots: Slots, i: nat): Triple<Src> {
    if slots.At(i).Some? then srcs.With(slots.At(i).value, e.srcs.At(i)) else srcs
  }

  /** The sources with the substituted one cleared and the entry's sources in their slots. */
  function Written(srcs: Triple<Src>, e: LopEntry, slots: Slots, idx: nat, filler: Src): Triple<Src> {
    WriteSlot(WriteSlot(WriteSlot(srcs.With(idx, filler), e, slots, 0), e, slots, 1), e, slots, 2)
  }

  lemma {:induction false} WrittenSlot(srcs: Triple<Src>, e: LopEntry, slots: Slots, idx: nat, filler: Src, i: nat)
    requires SlotsOk(e, srcs, idx, slots, 3) && idx < 3 && i < 3 && e.used.At(i)
    ensures Written(srcs, e, slots, idx, filler).At(slots.At(i).value) == e.srcs.At(i)
  {
  }

  ghost predicate Assigned(slots: Slots, m: nat) {
    exists i: nat :: i < 3 && slots.At(i) == Some(m)
  }

  lemma {:induction false} WrittenOther(srcs: Triple<Src>, e: LopEntry, slots: Slots, idx: nat, filler: Src, m: nat)
    requires SlotsOk(e, srcs, idx, slots, 3) && idx < 3 && m < 3 && !Assigned(slots, m)
    ensures Written(srcs, e, slots, idx, filler).At(m) == if m == idx then filler else srcs.At(m)
  {
  }

  /** The words the entry's table is applied to. */
  function SlotWords(slots: Slots): Triple<Bits> {
    Triple(SlotWord(slots.x), SlotWord(slots.y), SlotWord(slots.z))
  }

  function SlotWord(slot: Option<nat>): Bits {
    if slot.Some? then MASKS.At(slot.value) else {}
  }

  ghost function SlotBools(slots: Slots, s: Triple<bool>): Triple<bool> {
    Triple(SlotBool(slots.x, s), SlotBool(slots.y, s), SlotBool(slots.z, s))
  }

  ghost predicate SlotBool(slot: Option<nat>, s: Triple<bool>) {
    slot.Some? && s.At(slot.value)
  }

  function Composed(op: Bits, e: LopEntry, slots: Slots, idx: nat): Bits {
    Apply(op, MASKS.With(idx, Apply(e.op, SlotWords(slots))))
  }

  lemma {:induction false} ComposedIs(op: Bits, e: LopEntry, slots: Slots, idx: nat, s: Triple<bool>)
    requires idx < 3 && forall i: nat :: i < 3 && slots.At(i).Some? ==> slots.At(i).value < 3
    ensures Look(Composed(op, e, slots, idx), s) == Look(op, s.With(idx, Look(e.op, SlotBools(slots, s))))
  {
    var inner := Apply(e.op, SlotWords(slots));
    ApplyIs(e.op, SlotWords(slots), s);
    forall i: nat | i < 3 ensures (Entry(s.x, s.y, s.z) in SlotWord(slots.At(i))) == SlotBool(slots.At(i), s) {
      if slots.At(i).Some? { MaskIs(slots.At(i).value, s); }
    }
    assert slots.At(0) == slots.x && slots.At(1) == slots.y && slots.At(2) == slots.z;
    assert Look(inner, s) == Look(e.op, SlotBools(slots, s));
    SubstIs(op, idx, inner, s);
  }

  /** Answers agree when the used sources do. */
  lemma {:induction false} AgreeOnUsed(lut: Bits, s: Triple<bool>, t: Triple<bool>)
    requires forall i: nat :: i < 3 && SrcUsed(lut, i) ==> s.At(i) == t.At(i)
    ensures Look(lut, s) == Look(lut, t)
  {
    var a := s.With(0, t.x);
    var b := a.With(1, t.y);
    assert b.With(2, t.z) == t && t.At(0) == t.x && t.At(1) == t.y && t.At(2) == t.z;
    if SrcUsed(lut, 0) { assert a == s; } else { UnusedIgnored(lut, 0, s, t.x); }
    if SrcUsed(lut, 1) { assert b == a; } else { UnusedIgnored(lut, 1, a, t.y); }
    if SrcUsed(lut, 2) { assert t == b; } else { UnusedIgnored(lut, 2, b, t.z); }
  }

  lemma {:induction false} LanesAt(env: State, srcs: Triple<Src>, lane: nat, i: nat)
    requires i < 3
    ensures Lanes(env, srcs, lane).At(i) == Bit(env, srcs.At(i), lane)
  {
  }

  lemma {:induction false} SlotBoolsAt(slots: Slots, s: Triple<bool>, i: nat)
    requires i < 3
    ensures SlotBools(slots, s).At(i) == SlotBool(slots.At(i), s)
  {
  }

  /** In the new sources, the entry computes the value it defines. */
  lemma {:induction false} EntryInSlots(env: State, e: LopEntry, srcs: Triple<Src>, slots: Slots, idx: nat, filler: Src,
                                        lane: nat)
    requires idx < 3 && EntryShape(e) && SlotsOk(e, srcs, idx, slots, 3)
    ensures Look(e.op, SlotBools(slots, Lanes(env, Written(srcs, e, slots, idx, filler), lane))) == Answer(env, e.op,
        e.srcs, lane)
  {
    var new_ := Written(srcs, e, slots, idx, filler);
    var s := Lanes(env, new_, lane);
    forall i: nat | i < 3 && SrcUsed(e.op, i) ensures SlotBools(slots, s).At(i) == Lanes(env, e.srcs, lane).At(i) {
      assert e.used.At(i) && SlotOk(e, srcs, idx, slots.At(i), i);
      WrittenSlot(srcs, e, slots, idx, filler, i);
      SlotBoolsAt(slots, s, i);
      LanesAt(env, new_, lane, slots.At(i).value);
      LanesAt(env, e.srcs, lane, i);
    }
    AgreeOnUsed(e.op, SlotBools(slots, s), Lanes(env, e.srcs, lane));
  }

  /** The slots an operation still uses hold what they held. */
  lemma {:induction false} UsedKept(op: Bits, e: LopEntry, srcs: Triple<Src>, slots: Slots, idx: nat, filler: Src,
                                    m: nat)
    requires idx < 3 && SlotsOk(e, srcs, idx, slots, 3) && Clean([op], srcs, 3)
    requires m < 3 && m != idx && SrcUsed(op, m)
    ensures Written(srcs, e, slots, idx, filler).At(m) == srcs.At(m)
  {
    assert [op][0] == op;
    if Assigned(slots, m) {
      var i: nat :| i < 3 && slots.At(i) == Some(m);
      assert SlotOk(e, srcs, idx, slots.At(i), i);
      assert !Free(srcs, idx, m);
      WrittenSlot(srcs, e, slots, idx, filler, i);
    } else {
      WrittenOther(srcs, e, slots, idx, filler, m);
    }
  }

  /** Substituting an entry into an operation keeps the result. */
  lemma {:induction false} ComposedSame(env: State, op: Bits, v: Ssa, e: LopEntry, srcs: Triple<Src>, slots: Slots,
                                        idx: nat, filler: Src, lane: nat)
    requires idx < 3 && lane < 32 && EntryShape(e) && SlotsOk(e, srcs, idx, slots, 3) && Clean([op], srcs, 3)
    requires srcs.At(idx) == Value(v) && EntryHolds(env, v, e)
    ensures Answer(env, Composed(op, e, slots, idx), Written(srcs, e, slots, idx, filler), lane) == Answer(env, op,
        srcs, lane)
  {
    var new_ := Written(srcs, e, slots, idx, filler);
    var s, old_ := Lanes(env, new_, lane), Lanes(env, srcs, lane);
    forall i: nat | i < 3 && slots.At(i).Some? ensures slots.At(i).value < 3 {
      assert SlotOk(e, srcs, idx, slots.At(i), i);
    }
    ComposedIs(op, e, slots, idx, s);
    EntryInSlots(env, e, srcs, slots, idx, filler, lane);
    var t := s.With(idx, env.value(v, lane));
    forall m: nat | m < 3 && SrcUsed(op, m) ensures t.At(m) == old_.At(m) {
      LanesAt(env, srcs, lane, m);
      if m != idx {
        UsedKept(op, e, srcs, slots, idx, filler, m);
        LanesAt(env, new_, lane, m);
      }
    }
    AgreeOnUsed(op, t, old_);
  }

  /** A source in no slot, overwritten or unused before, cannot change the answer. */
  lemma {:induction false} ComposedIgnores(op: Bits, e: LopEntry, slots: Slots, idx: nat, i: nat, s: Triple<bool>)
    requires idx < 3 && i < 3 && (i == idx || !SrcUsed(op, i))
    requires forall k: nat :: k < 3 && slots.At(k).Some? ==> slots.At(k).value < 3 && slots.At(k).value != i
    ensures Look(Composed(op, e, slots, idx), s.With(i, true)) == Look(Composed(op, e, slots, idx), s.With(i, false))
  {
    var on, off := s.With(i, true), s.With(i, false);
    ComposedIs(op, e, slots, idx, on);
    ComposedIs(op, e, slots, idx, off);
    SlotBoolsSame(slots, on, off);
    var b := Look(e.op, SlotBools(slots, on));
    forall m: nat | m < 3 && SrcUsed(op, m) ensures on.With(idx, b).At(m) == off.With(idx, b).At(m) {}
    AgreeOnUsed(op, on.With(idx, b), off.With(idx, b));
  }

  /** Constant sources stay unused. */
  lemma {:induction false} ComposedClean(op: Bits, e: LopEntry, srcs: Triple<Src>, slots: Slots, idx: nat, filler: Src,
                                         i: nat)
    requires idx < 3 && EntryShape(e) && SlotsOk(e, srcs, idx, slots, 3) && Clean([op], srcs, 3)
    requires i < 3 && SrcAsBool(Written(srcs, e, slots, idx, filler).At(i)).Some?
    ensures !SrcUsed(Composed(op, e, slots, idx), i)
  {
    var c := Composed(op, e, slots, idx);
    assert [op][0] == op;
    forall k: nat | k < 3 && slots.At(k).Some? ensures slots.At(k).value < 3 && slots.At(k).value != i {
      assert SlotOk(e, srcs, idx, slots.At(k), k);
      WrittenSlot(srcs, e, slots, idx, filler, k);
    }
    WrittenOther(srcs, e, slots, idx, filler, i);
    forall s: Triple<bool> ensures Look(c, s.With(i, true)) == Look(c, s.With(i, false)) {
      ComposedIgnores(op, e, slots, idx, i, s);
    }
    UsedIs(c, i);
  }

  lemma {:induction false} SlotBoolsSame(slots: Slots, s: Triple<bool>, t: Triple<bool>)
    requires forall k: nat :: k < 3 && slots.At(k).Some? ==> s.At(slots.At(k).value) == t.At(slots.At(k).value)
    ensures SlotBools(slots, s) == SlotBools(slots, t)
  {
    assert slots.At(0) == slots.x && slots.At(1) == slots.y && slots.At(2) == slots.z;
  }

  function ComposedAll(ops: seq<Bits>, e: LopEntry, slots: Slots, idx: nat): seq<Bits> {
    seq(|ops|, k requires 0 <= k < |ops| => Composed(ops[k], e, slots, idx))
  }

  /** The used sources of the entry are in their slots, and the other slots as they were. */
  ghost predicate Rewired(e: LopEntry, srcs: Triple<Src>, idx: nat, filler: Src, slots: Slots, srcs': Triple<Src>) {
    && (forall i: nat :: i < 3 && e.used.At(i) ==>
          slots.At(i).Some? && slots.At(i).value < 3 && srcs'.At(slots.At(i).value) == e.srcs.At(i))
    && (forall m: nat :: m < 3 && !Assigned(slots, m) ==> srcs'.At(m) == if m == idx then filler else srcs.At(m))
  }

  /** The new table answers what the old one does with the entry's answer for the source. */
  ghost predicate Inlined(op: Bits, e: LopEntry, slots: Slots, idx: nat, op': Bits) {
    forall s: Triple<bool> :: Look(op', s) == Look(op, s.With(idx, Look(e.op, SlotBools(slots, s))))
  }

  /** The entry has been substituted for the source. */
  ghost predicate Substitutes(ops: seq<Bits>, srcs: Triple<Src>, e: LopEntry, idx: nat, filler: Src, ops': seq<Bits>,
                              srcs': Triple<Src>) {
    exists slots :: SubstitutesIn(ops, srcs, e, idx, filler, slots, ops', srcs')
  }

  ghost predicate SubstitutesIn(ops: seq<Bits>, srcs: Triple<Src>, e: LopEntry, idx: nat, filler: Src, slots: Slots,
                                ops': seq<Bits>, srcs': Triple<Src>) {
    && SlotsOk(e, srcs, idx, slots, 3) && Rewired(e, srcs, idx, filler, slots, srcs')
    && |ops'| == |ops| && forall k: nat :: k < |ops| ==> Inlined(ops[k], e, slots, idx, ops'[k])
  }

  lemma {:induction false} SubstitutionIs(ops: seq<Bits>, srcs: Triple<Src>, e: LopEntry, slots: Slots, idx: nat,
                                          filler: Src)
    requires idx < 3 && SlotsOk(e, srcs, idx, slots, 3)
    ensures Substitutes(ops, srcs, e, idx, filler, ComposedAll(ops, e, slots, idx),
                        Written(srcs, e, slots, idx, filler))
  {
    var o, new_ := ComposedAll(ops, e, slots, idx), Written(srcs, e, slots, idx, filler);
    forall i: nat | i < 3 ensures slots.At(i).Some? ==> slots.At(i).value < 3 {
      assert SlotOk(e, srcs, idx, slots.At(i), i);
    }
    forall k: nat | k < |ops| ensures Inlined(ops[k], e, slots, idx, o[k]) {
      forall s: Triple<bool> ensures Look(o[k], s) == Look(ops[k], s.With(idx, Look(e.op, SlotBools(slots, s)))) {
        ComposedIs(ops[k], e, slots, idx, s);
      }
    }
    forall i: nat | i < 3 && e.used.At(i) ensures slots.At(i).Some? && new_.At(slots.At(i).value) == e.srcs.At(i) {
      assert SlotOk(e, srcs, idx, slots.At(i), i);
      WrittenSlot(srcs, e, slots, idx, filler, i);
    }
    forall m: nat | m < 3 && !Assigned(slots, m) ensures new_.At(m) == if m == idx then filler else srcs.At(m) {
      WrittenOther(srcs, e, slots, idx, filler, m);
    }
    assert SubstitutesIn(ops, srcs, e, idx, filler, slots, o, new_);
  }
}
